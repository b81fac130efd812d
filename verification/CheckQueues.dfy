/**
 A queue of checks worked off by a master and any number of workers, as a system of atomic steps: a
 critical section, one check, a wake-up. All that is proved holds in every interleaving.
 */
module CheckQueues {
  import opened Wrappers

  /** A check that was added to the queue, and the error that a failing check reports. */
  type Check = nat
  type Error = nat

  /** What each check reports when it is run, and the largest number of checks taken at once. */
  datatype Config = Config(outcome: Check -> Option<Error>, batchSize: nat)

  /** Where a thread is. Outside the loop, before its first critical section, about to run check `i` of its batch, done with it, or waiting. */
  datatype Place = Outside | Entering | Running(i: nat) | Finishing | Waiting(notified: bool) | Stopped

  /** `batch` holds the checks taken that have not been accounted for. */
  datatype Thread = Thread(place: Place, local: Option<Error>, batch: seq<Check>, doWork: bool)

  /** The checks added between two returns of `Complete`, and what it returned. */
  datatype Round = Round(added: seq<Check>, returned: Option<Error>)

  /** Thread 0 is the master. `added` are the checks of the current round; `log` holds the rounds before. */
  datatype State = State(queue: seq<Check>, nIdle: int, nTotal: int, result: Option<Error>, nTodo: int, stop: bool,
                         threads: seq<Thread>, added: seq<Check>, log: seq<Round>)

  datatype Event = Add(checks: seq<Check>) | Enter | Lock(t: nat) | Wake(t: nat) | Run(t: nat) | RequestStop

  function Init(workers: nat): State {
    State([], 0, 0, None, 0, false,
          [Thread(Outside, None, [], false)] + seq(workers, _ => Thread(Entering, None, [], false)), [], [])
  }

  predicate Enabled(s: State, e: Event) {
    match e
    case Add(_) => |s.threads| > 0 && s.threads[0].place.Outside? && !s.stop
    case Enter => |s.threads| > 0 && s.threads[0].place.Outside? && !s.stop
    case Lock(t) => t < |s.threads| && (s.threads[t].place.Entering? || s.threads[t].place.Finishing?)
    case Wake(t) => t < |s.threads| && s.threads[t].place.Waiting?
    case Run(t) => t < |s.threads| && s.threads[t].place.Running?
    case RequestStop => |s.threads| > 0 && s.threads[0].place.Outside?
  }

  /** What a thread does first in its critical section: account for its batch, or for itself if it is new. */
  function CleanUp(s: State, t: nat): State
    requires t < |s.threads|
  {
    var th := s.threads[t];
    if th.place.Finishing? then
      var todo := s.nTodo - |th.batch|;
      var swap := th.local.Some? && s.result.None?;
      var done := th.(batch := [], local := if swap then s.result else th.local);
      var threads := s.threads[t := done];
      s.(result := if swap then th.local else s.result, nTodo := todo,
         threads := if todo == 0 && t != 0 && threads[0].place.Waiting? then threads[0 := threads[0].(place := Waiting(true))] else threads)
    else
      s.(nTotal := s.nTotal + 1)
  }

  /** The number of checks to take next. */
  function BatchOf(q: Config, s: State): nat
    requires s.queue != [] && s.nTotal >= 0 && s.nIdle >= 0
  {
    var share := |s.queue| / (s.nTotal + s.nIdle + 1);
    var n := if q.batchSize < share then q.batchSize else share;
    if n < 1 then 1 else n
  }

  /** The rest of the critical section: return, wait, stop, or take a batch off the end of the queue. */
  function Proceed(q: Config, s: State, t: nat): State
    requires t < |s.threads|
  {
    var th := s.threads[t];
    if s.stop then
      s.(threads := s.threads[t := th.(place := Stopped)])
    else if s.queue == [] then
      if t == 0 && s.nTodo == 0 then
        s.(nTotal := s.nTotal - 1, result := None, added := [], log := s.log + [Round(s.added, s.result)],
           threads := s.threads[t := th.(place := Outside)])
      else
        s.(nIdle := s.nIdle + 1, threads := s.threads[t := th.(place := Waiting(false))])
    else
      var n := if s.nTotal >= 0 && s.nIdle >= 0 then BatchOf(q, s) else 1;
      var cut := if n <= |s.queue| then |s.queue| - n else 0;
      s.(queue := s.queue[..cut],
         threads := s.threads[t := th.(place := Running(0), batch := s.queue[cut..], doWork := s.result.None?)])
  }

  /** Run the next check of the batch, unless the work is skipped or a check has failed. */
  function RunOne(q: Config, th: Thread, i: nat): Thread {
    if !th.doWork || i >= |th.batch| then th.(place := Finishing)
    else
      var r := q.outcome(th.batch[i]);
      th.(local := r, place := if r.Some? || i + 1 == |th.batch| then Finishing else Running(i + 1))
  }

  function Next(q: Config, s: State, e: Event): State
    requires Enabled(s, e)
  {
    match e
    case Add(checks) => s.(queue := s.queue + checks, nTodo := s.nTodo + |checks|, added := s.added + checks)
    case Enter => s.(threads := s.threads[0 := Thread(Entering, None, [], false)])
    case Lock(t) => Proceed(q, CleanUp(s, t), t)
    case Wake(t) => Proceed(q, s.(nIdle := s.nIdle - 1), t)
    case Run(t) => s.(threads := s.threads[t := RunOne(q, s.threads[t], s.threads[t].place.i)])
    case RequestStop => s.(stop := true)
  }

  // ----- Counting threads

  ghost function Outstanding(threads: seq<Thread>): nat {
    if threads == [] then 0 else Outstanding(threads[..|threads| - 1]) + |threads[|threads| - 1].batch|
  }

  function One(b: bool): nat { if b then 1 else 0 }

  ghost function Idle(threads: seq<Thread>): nat {
    if threads == [] then 0 else Idle(threads[..|threads| - 1]) + One(threads[|threads| - 1].place.Waiting?)
  }

  /** In the loop and past its first critical section. */
  predicate InLoop(p: Place) {
    p.Running? || p.Finishing? || p.Waiting?
  }

  ghost function Total(threads: seq<Thread>): nat {
    if threads == [] then 0 else Total(threads[..|threads| - 1]) + One(InLoop(threads[|threads| - 1].place))
  }

  lemma {:induction false} Update(threads: seq<Thread>, t: nat, th: Thread)
    requires t < |threads|
    ensures Outstanding(threads[t := th]) == Outstanding(threads) - |threads[t].batch| + |th.batch|
    ensures Idle(threads[t := th]) == Idle(threads) - One(threads[t].place.Waiting?) + One(th.place.Waiting?)
    ensures Total(threads[t := th]) == Total(threads) - One(InLoop(threads[t].place)) + One(InLoop(th.place))
    decreases |threads|
  {
    var n, after := |threads| - 1, threads[t := th];
    if t == n {
      assert after[..n] == threads[..n];
    } else {
      assert after[..n] == threads[..n][t := th];
      Update(threads[..n], t, th);
    }
  }

  lemma {:induction false} AtLeastOne(threads: seq<Thread>, t: nat)
    requires t < |threads|
    ensures Outstanding(threads) >= |threads[t].batch| && Idle(threads) >= One(threads[t].place.Waiting?)
    ensures Total(threads) >= One(InLoop(threads[t].place))
    decreases |threads|
  {
    if t < |threads| - 1 { AtLeastOne(threads[..|threads| - 1], t); }
  }

  lemma {:induction false} SomeOutstanding(threads: seq<Thread>) returns (t: nat)
    requires Outstanding(threads) > 0
    ensures t < |threads| && threads[t].batch != []
    decreases |threads|
  {
    var n := |threads| - 1;
    if threads[n].batch != [] { t := n; } else { t := SomeOutstanding(threads[..n]); }
  }

  lemma {:induction false} NoThreads(threads: seq<Thread>)
    requires forall t | 0 <= t < |threads| :: threads[t].batch == [] && !InLoop(threads[t].place)
    ensures Outstanding(threads) == Idle(threads) == Total(threads) == 0
    decreases |threads|
  {
    if threads != [] { NoThreads(threads[..|threads| - 1]); }
  }

  // ----- The invariant

  /** The counters are exact. */
  ghost predicate Counted(s: State) {
    && s.nTodo == |s.queue| + Outstanding(s.threads)
    && (s.stop || (s.nIdle == Idle(s.threads) && s.nTotal == Total(s.threads)))
  }

  ghost predicate FailedIn(q: Config, checks: seq<Check>, r: Option<Error>) {
    r.Some? && exists c <- checks :: q.outcome(c) == r
  }

  ghost predicate Passed(q: Config, checks: seq<Check>) {
    forall c <- checks :: q.outcome(c).None?
  }

  /** A thread holds a batch exactly while it runs or has just run it, and its local result is that of this batch. */
  ghost predicate ThreadOk(q: Config, s: State, th: Thread) {
    && (th.batch != [] <==> th.place.Running? || th.place.Finishing?)
    && (forall c <- th.batch :: c in s.added)
    && (th.batch != [] && !th.doWork ==> s.result.Some?)
    && (th.place.Running? ==> th.place.i < |th.batch| && (th.doWork ==> Passed(q, th.batch[..th.place.i])))
    && (th.place.Finishing? && th.doWork ==> if th.local.Some? then FailedIn(q, th.batch, th.local) else Passed(q, th.batch))
  }

  ghost predicate Held(s: State, c: Check) {
    exists t | 0 <= t < |s.threads| :: c in s.threads[t].batch
  }

  /** The result is that of a check of this round, and without one all checks that are done have passed. */
  ghost predicate ResultOk(q: Config, s: State) {
    && (s.result.Some? ==> FailedIn(q, s.added, s.result))
    && (forall c <- s.queue :: c in s.added)
    && (s.result.None? ==> forall c <- s.added :: c in s.queue || Held(s, c) || q.outcome(c).None?)
  }

  /** What `Complete` promises of a round. */
  ghost predicate RoundOk(q: Config, r: Round) {
    && (r.returned.None? <==> Passed(q, r.added))
    && (r.returned.Some? ==> FailedIn(q, r.added, r.returned))
  }

  /** While the master waits the queue is empty, and when nothing is left to do it has been told. */
  ghost predicate MasterOk(s: State) {
    && |s.threads| > 0
    && (!s.stop && s.threads[0].place.Waiting? ==> s.queue == [] && (s.nTodo > 0 || s.threads[0].place.notified))
  }

  ghost predicate Inv(q: Config, s: State) {
    && Counted(s) && ResultOk(q, s) && MasterOk(s)
    && (forall t | 0 <= t < |s.threads| :: ThreadOk(q, s, s.threads[t]))
    && (forall r <- s.log :: RoundOk(q, r))
  }

  // ----- Every step keeps it

  lemma {:induction false} InitOk(q: Config, workers: nat)
    ensures Inv(q, Init(workers))
  {
    NoThreads(Init(workers).threads);
  }

  lemma {:induction false} AddOk(q: Config, s: State, checks: seq<Check>)
    requires Inv(q, s) && Enabled(s, Add(checks))
    ensures Inv(q, Next(q, s, Add(checks)))
  {
    var r := Next(q, s, Add(checks));
    forall t | 0 <= t < |r.threads| ensures ThreadOk(q, r, r.threads[t]) { assert ThreadOk(q, s, s.threads[t]); }
    forall c <- r.added ensures r.result.None? ==> c in r.queue || Held(r, c) || q.outcome(c).None? {
      assert c in s.added && s.result.None? && Held(s, c) ==> Held(r, c);
    }
  }

  lemma {:induction false} EnterOk(q: Config, s: State)
    requires Inv(q, s) && Enabled(s, Enter)
    ensures Inv(q, Next(q, s, Enter))
  {
    var r := Next(q, s, Enter);
    assert ThreadOk(q, s, s.threads[0]);
    Update(s.threads, 0, r.threads[0]);
    HeldSame(s, r, 0);
    forall t | 0 <= t < |r.threads| ensures ThreadOk(q, r, r.threads[t]) { assert ThreadOk(q, s, s.threads[t]); }
  }

  /** Changing a thread without changing its batch leaves what is held as it is. */
  lemma {:induction false} HeldSame(s: State, r: State, t: nat)
    requires |s.threads| == |r.threads| && t < |s.threads| && r.threads[t].batch == s.threads[t].batch
    requires forall i | 0 <= i < |s.threads| && i != t :: r.threads[i].batch == s.threads[i].batch
    ensures forall c :: Held(s, c) <==> Held(r, c)
  {}

  lemma {:induction false} StopOk(q: Config, s: State)
    requires Inv(q, s) && Enabled(s, RequestStop)
    ensures Inv(q, Next(q, s, RequestStop))
  {
    var r := Next(q, s, RequestStop);
    forall t | 0 <= t < |r.threads| ensures ThreadOk(q, r, r.threads[t]) { assert ThreadOk(q, s, s.threads[t]); }
    HeldSame(s, r, 0);
  }

  lemma {:induction false} RunOk(q: Config, s: State, t: nat)
    requires Inv(q, s) && Enabled(s, Run(t))
    ensures Inv(q, Next(q, s, Run(t)))
  {
    var r, th := Next(q, s, Run(t)), s.threads[t];
    assert ThreadOk(q, s, th);
    RunOneOk(q, s, r, th);
    Update(s.threads, t, r.threads[t]);
    HeldSame(s, r, t);
    forall i | 0 <= i < |r.threads| ensures ThreadOk(q, r, r.threads[i]) { assert ThreadOk(q, s, s.threads[i]); }
  }

  lemma {:induction false} RunOneOk(q: Config, s: State, r: State, th: Thread)
    requires ThreadOk(q, s, th) && th.place.Running? && r.added == s.added && r.result == s.result
    ensures ThreadOk(q, r, RunOne(q, th, th.place.i))
  {
    var i, after := th.place.i, RunOne(q, th, th.place.i);
    if th.doWork {
      var c := th.batch[i];
      assert c in th.batch;
      forall d <- th.batch[..i + 1] | q.outcome(c).None? ensures q.outcome(d).None? {
        var j :| 0 <= j <= i && th.batch[j] == d;
        assert j < i ==> th.batch[j] in th.batch[..i];
      }
      if i + 1 == |th.batch| { assert th.batch[..i + 1] == th.batch; }
    }
  }

  /** Thread `t` is in its critical section, its batch accounted for; all else is as between steps. */
  ghost predicate InCritical(q: Config, s: State, t: nat) {
    && t < |s.threads| && s.threads[t].batch == []
    && s.nTodo == |s.queue| + Outstanding(s.threads)
    && (s.stop || (s.nIdle == Idle(s.threads) - One(s.threads[t].place.Waiting?) && s.nTotal == Total(s.threads) - One(InLoop(s.threads[t].place)) + 1))
    && ResultOk(q, s) && (t != 0 ==> MasterOk(s))
    && (forall i | 0 <= i < |s.threads| && i != t :: ThreadOk(q, s, s.threads[i]))
    && (forall r <- s.log :: RoundOk(q, r))
  }

  lemma {:induction false} WakeIn(q: Config, s: State, t: nat)
    requires Inv(q, s) && Enabled(s, Wake(t))
    ensures InCritical(q, s.(nIdle := s.nIdle - 1), t)
  {
    var r := s.(nIdle := s.nIdle - 1);
    assert ThreadOk(q, s, s.threads[t]);
    HeldSame(s, r, t);
    forall i | 0 <= i < |s.threads| ensures ThreadOk(q, r, r.threads[i]) { assert ThreadOk(q, s, s.threads[i]); }
  }

  lemma {:induction false} EnteringIn(q: Config, s: State, t: nat)
    requires Inv(q, s) && Enabled(s, Lock(t)) && s.threads[t].place.Entering?
    ensures InCritical(q, CleanUp(s, t), t)
  {
    var r := CleanUp(s, t);
    assert ThreadOk(q, s, s.threads[t]);
    HeldSame(s, r, t);
    forall i | 0 <= i < |s.threads| ensures ThreadOk(q, r, r.threads[i]) { assert ThreadOk(q, s, s.threads[i]); }
  }

  lemma {:induction false} AccountedResult(q: Config, s: State, t: nat)
    requires Inv(q, s) && Enabled(s, Lock(t)) && s.threads[t].place.Finishing?
    ensures ResultOk(q, CleanUp(s, t))
  {
    var r, th := CleanUp(s, t), s.threads[t];
    assert ThreadOk(q, s, th);
    if r.result.Some? && s.result.None? {
      var c :| c in th.batch && q.outcome(c) == th.local;
      assert c in r.added;
    }
    if r.result.None? {
      assert Passed(q, th.batch);
      forall c <- r.added ensures c in r.queue || Held(r, c) || q.outcome(c).None? {
        if c !in s.queue && q.outcome(c).Some? {
          var i :| 0 <= i < |s.threads| && c in s.threads[i].batch;
          assert i != t && r.threads[i].batch == s.threads[i].batch;
        }
      }
    }
  }

  lemma {:induction false} AccountedCounts(s: State, t: nat)
    requires t < |s.threads| && s.threads[t].place.Finishing? && Counted(s)
    ensures var r := CleanUp(s, t);
            && |r.threads| == |s.threads| && r.threads[t].batch == [] && r.threads[t].place == s.threads[t].place
            && r.nTodo == |r.queue| + Outstanding(r.threads) >= 0
            && Idle(r.threads) == Idle(s.threads) && Total(r.threads) == Total(s.threads)
            && (forall i | 0 <= i < |s.threads| && i != t :: r.threads[i] == s.threads[i]
                  || (i == 0 && s.threads[0].place.Waiting? && r.nTodo == 0 && r.threads[0] == s.threads[0].(place := Waiting(true))))
  {
    hide Outstanding, Idle, Total;
    var th := s.threads[t];
    var done := th.(batch := [], local := if th.local.Some? && s.result.None? then s.result else th.local);
    Update(s.threads, t, done);
    var threads := s.threads[t := done];
    if t != 0 && threads[0].place.Waiting? {
      Update(threads, 0, threads[0].(place := Waiting(true)));
    }
  }

  lemma {:induction false} FinishingIn(q: Config, s: State, t: nat)
    requires Inv(q, s) && Enabled(s, Lock(t)) && s.threads[t].place.Finishing?
    ensures InCritical(q, CleanUp(s, t), t)
  {
    var r := CleanUp(s, t);
    AccountedCounts(s, t);
    AccountedResult(q, s, t);
    hide ResultOk;
    forall i | 0 <= i < |s.threads| && i != t ensures ThreadOk(q, r, r.threads[i]) { assert ThreadOk(q, s, s.threads[i]); }
  }

  lemma {:induction false} BatchInRange(q: Config, s: State)
    requires s.queue != [] && s.nTotal >= 0 && s.nIdle >= 0
    ensures 1 <= BatchOf(q, s) <= |s.queue|
  {
    var d := s.nTotal + s.nIdle + 1;
    assert |s.queue| / d <= |s.queue| by { DivideLess(|s.queue|, d); }
  }

  lemma {:induction false} DivideLess(n: nat, d: int)
    requires d >= 1
    ensures 0 <= n / d <= n
  {
    assert n == (n / d) * d + n % d;
  }

  lemma {:induction false} ReturnOk(q: Config, s: State)
    requires InCritical(q, s, 0) && !s.stop && s.queue == [] && s.nTodo == 0
    ensures Inv(q, Proceed(q, s, 0)) && RoundOk(q, Round(s.added, s.result))
  {
    var r := Proceed(q, s, 0);
    forall i | 0 <= i < |s.threads| ensures s.threads[i].batch == [] { AtLeastOne(s.threads, i); }
    Update(s.threads, 0, r.threads[0]);
    assert RoundOk(q, Round(s.added, s.result));
    forall i | 0 <= i < |r.threads| ensures ThreadOk(q, r, r.threads[i]) {
      if i != 0 { assert ThreadOk(q, s, s.threads[i]); }
    }
  }

  lemma {:induction false} WaitOk(q: Config, s: State, t: nat)
    requires InCritical(q, s, t) && !s.stop && s.queue == [] && !(t == 0 && s.nTodo == 0)
    ensures Inv(q, Proceed(q, s, t))
  {
    var r := Proceed(q, s, t);
    Update(s.threads, t, r.threads[t]);
    HeldSame(s, r, t);
    hide Outstanding, Idle, Total;
    forall i | 0 <= i < |r.threads| ensures ThreadOk(q, r, r.threads[i]) {
      if i != t { assert ThreadOk(q, s, s.threads[i]); }
    }
  }

  lemma {:induction false} HaltOk(q: Config, s: State, t: nat)
    requires InCritical(q, s, t) && s.stop
    ensures Inv(q, Proceed(q, s, t))
  {
    var r := Proceed(q, s, t);
    Update(s.threads, t, r.threads[t]);
    HeldSame(s, r, t);
    forall i | 0 <= i < |r.threads| ensures ThreadOk(q, r, r.threads[i]) {
      if i != t { assert ThreadOk(q, s, s.threads[i]); }
    }
  }

  lemma {:induction false} TakeResult(q: Config, s: State, r: State, t: nat, cut: nat)
    requires ResultOk(q, s) && t < |s.threads| && s.threads[t].batch == [] && cut <= |s.queue| && |r.threads| == |s.threads|
    requires r.queue == s.queue[..cut] && r.threads[t].batch == s.queue[cut..] && r.added == s.added && r.result == s.result
    requires forall i | 0 <= i < |s.threads| && i != t :: r.threads[i] == s.threads[i]
    ensures ResultOk(q, r) && forall c <- r.threads[t].batch :: c in r.added
  {
    forall c <- r.queue + r.threads[t].batch ensures c in s.queue { assert r.queue + r.threads[t].batch == s.queue; }
    if r.result.None? {
      forall c <- r.added ensures c in r.queue || Held(r, c) || q.outcome(c).None? {
        if c in s.queue {
          assert s.queue == r.queue + r.threads[t].batch;
        } else if Held(s, c) {
          var i :| 0 <= i < |s.threads| && c in s.threads[i].batch;
          assert r.threads[i].batch == s.threads[i].batch;
        }
      }
    }
  }

  lemma {:induction false} TakeOk(q: Config, s: State, t: nat)
    requires InCritical(q, s, t) && !s.stop && s.queue != []
    ensures Inv(q, Proceed(q, s, t))
  {
    var r := Proceed(q, s, t);
    AtLeastOne(s.threads, t);
    BatchInRange(q, s);
    Update(s.threads, t, r.threads[t]);
    TakeResult(q, s, r, t, |s.queue| - BatchOf(q, s));
    hide Outstanding, Idle, Total, ResultOk;
    forall i | 0 <= i < |r.threads| ensures ThreadOk(q, r, r.threads[i]) {
      if i != t { assert ThreadOk(q, s, s.threads[i]); }
    }
  }

  lemma {:induction false} ProceedOk(q: Config, s: State, t: nat)
    requires InCritical(q, s, t)
    ensures Inv(q, Proceed(q, s, t))
  {
    hide InCritical, Inv, Proceed;
    if s.stop { HaltOk(q, s, t); }
    else if s.queue != [] { TakeOk(q, s, t); }
    else if t == 0 && s.nTodo == 0 { ReturnOk(q, s); }
    else { WaitOk(q, s, t); }
  }

  /** Every step keeps the invariant. */
  lemma {:induction false} StepOk(q: Config, s: State, e: Event)
    requires Inv(q, s) && Enabled(s, e)
    ensures Inv(q, Next(q, s, e))
  {
    hide Inv, InCritical, Proceed, CleanUp;
    match e
    case Add(checks) => AddOk(q, s, checks);
    case Enter => EnterOk(q, s);
    case Lock(t) => {
      if s.threads[t].place.Entering? { EnteringIn(q, s, t); } else { FinishingIn(q, s, t); }
      ProceedOk(q, CleanUp(s, t), t);
    }
    case Wake(t) => { WakeIn(q, s, t); ProceedOk(q, s.(nIdle := s.nIdle - 1), t); }
    case Run(t) => RunOk(q, s, t);
    case RequestStop => StopOk(q, s);
  }

  // ----- Whole runs

  /** `states` are the states of a run with the given number of workers. */
  ghost predicate IsRun(q: Config, workers: nat, states: seq<State>, events: seq<Event>) {
    && |states| == |events| + 1 && states[0] == Init(workers)
    && forall i | 0 <= i < |events| :: Enabled(states[i], events[i]) && states[i + 1] == Next(q, states[i], events[i])
  }

  lemma {:induction false} RunKeeps(q: Config, workers: nat, states: seq<State>, events: seq<Event>, i: nat)
    requires IsRun(q, workers, states, events) && i < |states|
    ensures Inv(q, states[i])
  {
    hide Inv, Next, Init;
    if i == 0 {
      InitOk(q, workers);
    } else {
      RunKeeps(q, workers, states, events, i - 1);
      StepOk(q, states[i - 1], events[i - 1]);
    }
  }

  /** In every run, every round returned no error exactly if all its checks pass, and otherwise an error of one of them. */
  lemma {:induction false} RoundsAreRight(q: Config, workers: nat, states: seq<State>, events: seq<Event>, i: nat, r: Round)
    requires IsRun(q, workers, states, events) && i < |states| && r in states[i].log
    ensures r.returned.None? <==> forall c <- r.added :: q.outcome(c).None?
    ensures r.returned.Some? ==> exists c <- r.added :: q.outcome(c) == r.returned
  {
    hide Next, Init, IsRun;
    RunKeeps(q, workers, states, events, i);
  }

  /** Counted at any time, the checks to do are those queued and those in the hands of threads. */
  lemma {:induction false} TodoIsExact(q: Config, workers: nat, states: seq<State>, events: seq<Event>, i: nat)
    requires IsRun(q, workers, states, events) && i < |states|
    ensures states[i].nTodo == |states[i].queue| + Outstanding(states[i].threads)
    ensures !states[i].stop ==> states[i].nIdle == Idle(states[i].threads) && states[i].nTotal == Total(states[i].threads)
  {
    hide Next, Init, IsRun;
    RunKeeps(q, workers, states, events, i);
  }

  ghost predicate Returns(q: Config, s: State, e: Event)
    requires Enabled(s, e)
  {
    |Next(q, s, e).log| > |s.log|
  }

  /** `Complete` returns only when nothing is queued and no thread holds a check, and then logs this round. */
  lemma {:induction false} ReturnsWhenDone(q: Config, s: State, e: Event)
    requires Inv(q, s) && Enabled(s, e) && Returns(q, s, e)
    ensures var r := Next(q, s, e);
            && r.nTodo == 0 && r.queue == [] && (forall t | 0 <= t < |r.threads| :: r.threads[t].batch == [])
            && r.log == s.log + [Round(s.added, r.log[|r.log| - 1].returned)] && r.added == [] && r.result == None
  {
    StepOk(q, s, e);
    var r := Next(q, s, e);
    assert r.queue == [] && r.nTodo == 0;
    forall t | 0 <= t < |r.threads| ensures r.threads[t].batch == [] { AtLeastOne(r.threads, t); }
  }

  // ----- Work left

  function ThreadWork(th: Thread): int {
    match th.place
    case Running(i) => |th.batch| - i + 1
    case Finishing => 1
    case _ => 0
  }

  ghost function HeldWork(threads: seq<Thread>): int {
    if threads == [] then 0 else HeldWork(threads[..|threads| - 1]) + ThreadWork(threads[|threads| - 1])
  }

  lemma {:induction false} UpdateWork(threads: seq<Thread>, t: nat, th: Thread)
    requires t < |threads|
    ensures HeldWork(threads[t := th]) == HeldWork(threads) - ThreadWork(threads[t]) + ThreadWork(th)
    decreases |threads|
  {
    var n, after := |threads| - 1, threads[t := th];
    if t == n {
      assert after[..n] == threads[..n];
    } else {
      assert after[..n] == threads[..n][t := th];
      UpdateWork(threads[..n], t, th);
    }
  }

  ghost function Work(s: State): int {
    3 * |s.queue| + HeldWork(s.threads)
  }

  lemma {:induction false} ProceedWork(q: Config, s: State, t: nat)
    requires t < |s.threads| && s.nTotal >= 0 && s.nIdle >= 0
    ensures Work(Proceed(q, s, t)) <= Work(s) - ThreadWork(s.threads[t])
    ensures !s.stop && s.queue != [] ==> Work(Proceed(q, s, t)) < Work(s) - ThreadWork(s.threads[t])
  {
    var r := Proceed(q, s, t);
    UpdateWork(s.threads, t, r.threads[t]);
    hide HeldWork;
    if s.queue != [] { BatchInRange(q, s); }
  }

  lemma {:induction false} CleanUpWork(s: State, t: nat)
    requires t < |s.threads|
    ensures var r := CleanUp(s, t);
            |r.threads| == |s.threads| && Work(r) == Work(s) && ThreadWork(r.threads[t]) == ThreadWork(s.threads[t])
  {
    var th := s.threads[t];
    if th.place.Finishing? {
      var done := th.(batch := [], local := if th.local.Some? && s.result.None? then s.result else th.local);
      UpdateWork(s.threads, t, done);
      var threads := s.threads[t := done];
      if t != 0 && threads[0].place.Waiting? { UpdateWork(threads, 0, threads[0].(place := Waiting(true))); }
    }
  }

  /** Running a check and accounting for a batch make the work that is left strictly less; nothing but `Add` makes it more. */
  lemma {:induction false} WorkFalls(q: Config, s: State, e: Event)
    requires Inv(q, s) && Enabled(s, e) && !e.Add? && !s.stop
    ensures Work(Next(q, s, e)) <= Work(s)
    ensures e.Run? || (e.Lock? && s.threads[e.t].place.Finishing?) ==> Work(Next(q, s, e)) < Work(s)
  {
    match e
    case Enter => {
      UpdateWork(s.threads, 0, Thread(Entering, None, [], false));
      assert ThreadOk(q, s, s.threads[0]);
    }
    case Run(t) => RunWork(q, s, t);
    case Lock(t) => LockWork(q, s, t);
    case Wake(t) => {
      AtLeastOne(s.threads, t);
      ProceedWork(q, s.(nIdle := s.nIdle - 1), t);
    }
    case RequestStop =>
  }

  lemma {:induction false} RunWork(q: Config, s: State, t: nat)
    requires Inv(q, s) && Enabled(s, Run(t))
    ensures Work(Next(q, s, Run(t))) < Work(s)
  {
    var th := s.threads[t];
    assert ThreadOk(q, s, th);
    UpdateWork(s.threads, t, RunOne(q, th, th.place.i));
    RunLess(q, s, th);
  }

  lemma {:induction false} LockWork(q: Config, s: State, t: nat)
    requires Inv(q, s) && Enabled(s, Lock(t)) && !s.stop
    ensures Work(Next(q, s, Lock(t))) <= Work(s)
    ensures s.threads[t].place.Finishing? ==> Work(Next(q, s, Lock(t))) < Work(s)
  {
    CleanUpWork(s, t);
    AtLeastOne(s.threads, t);
    ProceedWork(q, CleanUp(s, t), t);
  }

  lemma {:induction false} RunLess(q: Config, s: State, th: Thread)
    requires ThreadOk(q, s, th) && th.place.Running?
    ensures ThreadWork(RunOne(q, th, th.place.i)) < ThreadWork(th)
  {}

  // ----- `Complete` returns

  /** The master is in `Complete`. */
  predicate Completing(s: State) {
    |s.threads| > 0 && !s.stop && !s.threads[0].place.Outside? && !s.threads[0].place.Stopped?
  }

  /** The master is about to look for work, without having been passed over. */
  predicate Called(s: State) {
    |s.threads| > 0 && match s.threads[0].place case Entering => true case Waiting(notified) => notified case _ => false
  }

  /** Running a check, accounting for a batch, or the master looking for work when it has just come or has been told to. */
  predicate Useful(s: State, e: Event) {
    match e
    case Run(_) => true
    case Lock(t) => t < |s.threads| && (s.threads[t].place.Finishing? || t == 0)
    case Wake(t) => t == 0 && Called(s)
    case _ => false
  }

  /** Bounds the useful steps that are left. */
  ghost function Left(s: State): int { 2 * Work(s) + One(Called(s)) }

  /** No wake-up is lost: as long as `Complete` has not returned, some thread can take a useful step. */
  lemma {:induction false} MasterNotStuck(q: Config, s: State) returns (e: Event)
    requires Inv(q, s) && Completing(s)
    ensures Enabled(s, e) && Useful(s, e)
  {
    var m := s.threads[0];
    assert ThreadOk(q, s, m);
    if m.place.Waiting? && !m.place.notified {
      var t := SomeOutstanding(s.threads);
      assert ThreadOk(q, s, s.threads[t]);
      e := if s.threads[t].place.Running? then Run(t) else Lock(t);
    } else {
      e := if m.place.Waiting? then Wake(0) else if m.place.Running? then Run(0) else Lock(0);
    }
  }

  lemma {:induction false} RunLeft(q: Config, s: State, t: nat)
    requires Inv(q, s) && Enabled(s, Run(t)) && Completing(s)
    ensures Left(Next(q, s, Run(t))) < Left(s)
  {
    hide Work, Inv;
    WorkFalls(q, s, Run(t));
  }

  lemma {:induction false} LockLeft(q: Config, s: State, t: nat)
    requires Inv(q, s) && Enabled(s, Lock(t)) && Completing(s)
    ensures Left(Next(q, s, Lock(t))) <= Left(s)
    ensures Useful(s, Lock(t)) && Completing(Next(q, s, Lock(t))) ==> Left(Next(q, s, Lock(t))) < Left(s)
  {
    hide Work;
    WorkFalls(q, s, Lock(t));
    CleanUpWork(s, t);
    AtLeastOne(s.threads, t);
    var c := CleanUp(s, t);
    ProceedWork(q, c, t);
    assert ThreadOk(q, s, s.threads[t]);
  }

  lemma {:induction false} WakeLeft(q: Config, s: State, t: nat)
    requires Inv(q, s) && Enabled(s, Wake(t)) && Completing(s)
    ensures Left(Next(q, s, Wake(t))) <= Left(s)
    ensures Useful(s, Wake(t)) && Completing(Next(q, s, Wake(t))) ==> Left(Next(q, s, Wake(t))) < Left(s)
  {
    hide Work;
    WorkFalls(q, s, Wake(t));
  }

  /** While `Complete` goes on, every useful step leaves strictly fewer, and no step leaves more. */
  lemma {:induction false} LeftFalls(q: Config, s: State, e: Event)
    requires Inv(q, s) && Enabled(s, e) && Completing(s)
    ensures Left(Next(q, s, e)) <= Left(s)
    ensures Useful(s, e) && Completing(Next(q, s, e)) ==> Left(Next(q, s, e)) < Left(s)
  {
    hide Left, Inv, Next;
    match e
    case Run(t) => RunLeft(q, s, t);
    case Lock(t) => LockLeft(q, s, t);
    case Wake(t) => WakeLeft(q, s, t);
    case _ =>
  }

  lemma {:induction false} HeldWorkNatural(q: Config, s: State, n: nat)
    requires n <= |s.threads| && forall t | 0 <= t < |s.threads| :: ThreadOk(q, s, s.threads[t])
    ensures HeldWork(s.threads[..n]) >= 0
    decreases n
  {
    if n > 0 {
      HeldWorkNatural(q, s, n - 1);
      assert ThreadOk(q, s, s.threads[n - 1]);
      assert s.threads[..n][..n - 1] == s.threads[..n - 1];
    }
  }

  lemma {:induction false} LeftNatural(q: Config, s: State)
    requires Inv(q, s)
    ensures Left(s) >= 0
  {
    HeldWorkNatural(q, s, |s.threads|);
    assert s.threads[..|s.threads|] == s.threads;
  }

  /** The number of useful steps from state `k` to state `m`. */
  function UsefulSteps(states: seq<State>, events: seq<Event>, k: nat, m: nat): nat
    requires k <= m <= |events| <= |states|
    decreases m
  {
    if k == m then 0 else UsefulSteps(states, events, k, m - 1) + if Useful(states[m - 1], events[m - 1]) then 1 else 0
  }

  /** In every run, `Complete` goes on through at most as many useful steps as were left when it was looked at, and one is possible all the time. */
  lemma {:induction false} CompleteReturns(q: Config, workers: nat, states: seq<State>, events: seq<Event>, k: nat, m: nat) returns (e: Event)
    requires IsRun(q, workers, states, events) && k <= m < |states| && forall j | k <= j <= m :: Completing(states[j])
    ensures UsefulSteps(states, events, k, m) <= UsefulSteps(states, events, k, m) + Left(states[m]) <= Left(states[k])
    ensures Enabled(states[m], e) && Useful(states[m], e)
    decreases m
  {
    hide Left, Inv, Next, Init, Useful;
    RunKeeps(q, workers, states, events, m);
    LeftNatural(q, states[m]);
    e := MasterNotStuck(q, states[m]);
    if k < m {
      var f := CompleteReturns(q, workers, states, events, k, m - 1);
      RunKeeps(q, workers, states, events, m - 1);
      assert states[m - 1 + 1] == Next(q, states[m - 1], events[m - 1]);
      LeftFalls(q, states[m - 1], events[m - 1]);
    }
  }
}
