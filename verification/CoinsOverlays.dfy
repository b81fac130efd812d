/**
 Fetching the inputs of a block ahead of time: workers claim inputs by advancing a head counter, the
 main thread consumes them by advancing a tail. A system of atomic steps; what is proved holds in
 every interleaving with any number of workers.
 */
module CoinsOverlays {
  import opened Wrappers
  import opened CoinsCaches

  /** An input to fetch. `claims` counts how often a worker has claimed it. */
  datatype Input = Input(outpoint: OutPoint, ready: bool, coin: Option<Coin>, claims: nat)

  /** About to claim an input, looking it up, holding the result, having stored it, or finished. */
  datatype Worker = Idle | Claimed(i: nat) | Fetched(i: nat, c: Option<Coin>) | Stored(i: nat) | Done

  /** Not fetching, waiting for input `i`, or waiting for the workers to finish. */
  datatype Main = Free | Awaiting(i: nat) | Stopping

  /**
   `log` records the lookups that were answered: outpoint and result. `broken` is set by a step that
   touches an input that is not there, or that violates an assertion of the program.
   */
  datatype State = State(base: View, inputs: seq<Input>, head: nat, tail: nat, workers: seq<Worker>, main: Main, log: seq<(OutPoint, Option<Coin>)>,
                         broken: bool)

  datatype Event = Start(outpoints: seq<OutPoint>, n: nat) | Claim(w: nat) | Peek(w: nat) | Store(w: nat) | SetReady(w: nat)
                 | Fetch(o: OutPoint) | Take | Stop | Clear

  function Lookup(v: View, o: OutPoint): Option<Coin> {
    if o in v then Some(v[o]) else None
  }

  function Init(base: View): State { State(base, [], 0, 0, [], Free, [], false) }

  /** A worker goes on whatever has become of the inputs; the main thread waits for an input to be ready, and for all workers to finish. */
  predicate Enabled(s: State, e: Event) {
    match e
    case Start(_, _) => s.main.Free? && s.workers == []
    case Claim(w) => w < |s.workers| && s.workers[w].Idle?
    case Peek(w) => w < |s.workers| && s.workers[w].Claimed?
    case Store(w) => w < |s.workers| && s.workers[w].Fetched?
    case SetReady(w) => w < |s.workers| && s.workers[w].Stored?
    case Fetch(_) => s.main.Free?
    case Take => s.main.Awaiting? && (s.main.i < |s.inputs| ==> s.inputs[s.main.i].ready)
    case Stop => s.main.Free?
    case Clear => s.main.Stopping? && forall w | 0 <= w < |s.workers| :: s.workers[w].Done?
  }

  /** Nothing is being fetched. */
  predicate AtRest(s: State) { s.inputs == [] && s.head == 0 && s.tail == 0 }

  function Next(s: State, e: Event): State
    requires Enabled(s, e)
  {
    match e
    case Start(outpoints, n) =>
      if !AtRest(s) then s.(broken := true)
      else if outpoints == [] || n == 0 then s
      else s.(inputs := seq(|outpoints|, i requires 0 <= i < |outpoints| => Input(outpoints[i], false, None, 0)), workers := seq(n, _ => Idle))
    case Claim(w) =>
      if s.head < |s.inputs| then
        s.(head := s.head + 1, workers := s.workers[w := Claimed(s.head)],
           inputs := s.inputs[s.head := s.inputs[s.head].(claims := s.inputs[s.head].claims + 1)])
      else s.(head := s.head + 1, workers := s.workers[w := Done])
    case Peek(w) =>
      var i := s.workers[w].i;
      if i >= |s.inputs| then s.(broken := true)
      else s.(workers := s.workers[w := Fetched(i, Lookup(s.base, s.inputs[i].outpoint))])
    case Store(w) =>
      var i := s.workers[w].i;
      if i >= |s.inputs| then s.(broken := true)
      else s.(inputs := s.inputs[i := s.inputs[i].(coin := s.workers[w].c)], workers := s.workers[w := Stored(i)])
    case SetReady(w) =>
      var i := s.workers[w].i;
      if i >= |s.inputs| || s.inputs[i].ready then s.(broken := true)
      else s.(inputs := s.inputs[i := s.inputs[i].(ready := true)], workers := s.workers[w := Idle])
    case Fetch(o) =>
      if s.tail < |s.inputs| && s.inputs[s.tail].outpoint == o then s.(tail := s.tail + 1, main := Awaiting(s.tail))
      else s.(log := s.log + [(o, Lookup(s.base, o))])
    case Take =>
      var i := s.main.i;
      if i >= |s.inputs| then s.(broken := true)
      else s.(inputs := s.inputs[i := s.inputs[i].(coin := None)], main := Free, log := s.log + [(s.inputs[i].outpoint, s.inputs[i].coin)])
    case Stop =>
      if s.workers != [] then s.(head := |s.inputs|, main := Stopping)
      else s.(broken := s.broken || !AtRest(s))
    case Clear => s.(inputs := [], head := 0, tail := 0, workers := [], main := Free)
  }

  // ----- The invariant

  predicate Holds(w: Worker, i: nat) {
    (w.Claimed? || w.Fetched? || w.Stored?) && w.i == i
  }

  ghost predicate Held(s: State, i: nat) {
    exists w | 0 <= w < |s.workers| :: Holds(s.workers[w], i)
  }

  /** The input has been handed to the main thread. */
  predicate Consumed(s: State, i: nat) {
    i < s.tail && s.main != Awaiting(i)
  }

  /** Claimed at most once; ready or in the hands of a worker exactly if claimed; and if ready it holds the coin of the base. */
  ghost predicate InputOk(s: State, i: nat)
    requires i < |s.inputs|
  {
    var input := s.inputs[i];
    && input.claims <= 1 && (i >= s.head ==> input.claims == 0)
    && (input.claims == 1 <==> input.ready || Held(s, i)) && !(input.ready && Held(s, i))
    && (input.ready && !Consumed(s, i) ==> input.coin == Lookup(s.base, input.outpoint))
    && (!s.main.Stopping? && i < s.head ==> input.claims == 1)
  }

  ghost predicate WorkerOk(s: State, w: Worker) {
    match w
    case Claimed(i) => i < |s.inputs| && i < s.head
    case Fetched(i, c) => i < |s.inputs| && i < s.head && c == Lookup(s.base, s.inputs[i].outpoint)
    case Stored(i) => i < |s.inputs| && i < s.head && s.inputs[i].coin == Lookup(s.base, s.inputs[i].outpoint)
    case Done => s.head >= |s.inputs|
    case Idle => true
  }

  ghost predicate Inv(s: State) {
    && !s.broken
    && (forall i | 0 <= i < |s.inputs| :: InputOk(s, i))
    && (forall w | 0 <= w < |s.workers| :: WorkerOk(s, s.workers[w]))
    && (forall w, v | 0 <= w < v < |s.workers| :: forall i: nat | Holds(s.workers[w], i) :: !Holds(s.workers[v], i))
    && s.tail <= |s.inputs| && (s.main.Awaiting? ==> s.main.i + 1 == s.tail)
    && (s.workers == [] <==> s.inputs == []) && (s.workers == [] ==> s.head == 0 && s.tail == 0 && s.main.Free?)
    && (s.main.Stopping? ==> s.head >= |s.inputs|)
    && (forall k | 0 <= k < |s.log| :: s.log[k].1 == Lookup(s.base, s.log[k].0))
  }

  // ----- Every step keeps it

  lemma {:induction false} HeldSame(s: State, r: State, w: nat)
    requires |s.workers| == |r.workers| && w < |s.workers| && forall v | 0 <= v < |s.workers| && v != w :: r.workers[v] == s.workers[v]
    requires forall i: nat :: Holds(s.workers[w], i) <==> Holds(r.workers[w], i)
    ensures forall i: nat :: Held(s, i) <==> Held(r, i)
  {
    forall i: nat ensures Held(s, i) <==> Held(r, i) {
      if Held(s, i) { var v :| 0 <= v < |s.workers| && Holds(s.workers[v], i); assert Holds(r.workers[v], i); }
      if Held(r, i) { var v :| 0 <= v < |r.workers| && Holds(r.workers[v], i); assert Holds(s.workers[v], i); }
    }
  }

  lemma {:induction false} StartOk(s: State, outpoints: seq<OutPoint>, n: nat)
    requires Inv(s) && Enabled(s, Start(outpoints, n))
    ensures Inv(Next(s, Start(outpoints, n)))
  {}

  lemma {:induction false} ClaimOk(s: State, w: nat)
    requires Inv(s) && Enabled(s, Claim(w))
    ensures Inv(Next(s, Claim(w)))
  {
    var r := Next(s, Claim(w));
    if s.head < |s.inputs| {
      assert InputOk(s, s.head);
      assert Holds(r.workers[w], s.head);
      forall i | 0 <= i < |r.inputs| ensures InputOk(r, i) {
        assert InputOk(s, i);
        HeldNow(s, r, w, i);
      }
      forall v | 0 <= v < |r.workers| ensures WorkerOk(r, r.workers[v]) { assert WorkerOk(s, s.workers[v]); }
    } else {
      HeldSame(s, r, w);
      forall i | 0 <= i < |r.inputs| ensures InputOk(r, i) { assert InputOk(s, i); }
      forall v | 0 <= v < |r.workers| ensures WorkerOk(r, r.workers[v]) { assert WorkerOk(s, s.workers[v]); }
    }
  }

  /** What is held after one worker has changed. */
  lemma {:induction false} HeldNow(s: State, r: State, w: nat, i: nat)
    requires |s.workers| == |r.workers| && w < |s.workers| && forall v | 0 <= v < |s.workers| && v != w :: r.workers[v] == s.workers[v]
    ensures Held(r, i) ==> Holds(r.workers[w], i) || Held(s, i)
    ensures Held(s, i) ==> Holds(s.workers[w], i) || Held(r, i)
    ensures Holds(r.workers[w], i) ==> Held(r, i)
  {
    if Held(r, i) { var v :| 0 <= v < |r.workers| && Holds(r.workers[v], i); assert v != w ==> Holds(s.workers[v], i); }
    if Held(s, i) { var v :| 0 <= v < |s.workers| && Holds(s.workers[v], i); assert v != w ==> Holds(r.workers[v], i); }
  }

  lemma {:induction false} PeekOk(s: State, w: nat)
    requires Inv(s) && Enabled(s, Peek(w))
    ensures Inv(Next(s, Peek(w)))
  {
    var r := Next(s, Peek(w));
    assert WorkerOk(s, s.workers[w]);
    HeldSame(s, r, w);
    forall i | 0 <= i < |r.inputs| ensures InputOk(r, i) { assert InputOk(s, i); }
    forall v | 0 <= v < |r.workers| ensures WorkerOk(r, r.workers[v]) { assert WorkerOk(s, s.workers[v]); }
  }

  lemma {:induction false} StoreOk(s: State, w: nat)
    requires Inv(s) && Enabled(s, Store(w))
    ensures Inv(Next(s, Store(w)))
  {
    var r, j := Next(s, Store(w)), s.workers[w].i;
    assert WorkerOk(s, s.workers[w]) && Holds(s.workers[w], j);
    HeldSame(s, r, w);
    assert InputOk(s, j);
    forall i | 0 <= i < |r.inputs| ensures InputOk(r, i) { assert InputOk(s, i); }
    forall v | 0 <= v < |r.workers| ensures WorkerOk(r, r.workers[v]) {
      assert WorkerOk(s, s.workers[v]);
      if v != w { assert !Holds(s.workers[v], j) by { OneHolds(s, w, v, j); } }
    }
  }

  lemma {:induction false} OneHolds(s: State, w: nat, v: nat, i: nat)
    requires Inv(s) && w < |s.workers| && v < |s.workers| && w != v && Holds(s.workers[w], i)
    ensures !Holds(s.workers[v], i)
  {}

  lemma {:induction false} SetReadyOk(s: State, w: nat)
    requires Inv(s) && Enabled(s, SetReady(w))
    ensures Inv(Next(s, SetReady(w)))
  {
    var r, j := Next(s, SetReady(w)), s.workers[w].i;
    assert WorkerOk(s, s.workers[w]) && Holds(s.workers[w], j);
    assert InputOk(s, j) && Held(s, j);
    forall i | 0 <= i < |r.inputs| ensures InputOk(r, i) {
      assert InputOk(s, i);
      HeldNow(s, r, w, i);
      if i == j { NoneHolds(s, r, w, j); }
    }
    forall v | 0 <= v < |r.workers| ensures WorkerOk(r, r.workers[v]) { assert WorkerOk(s, s.workers[v]); }
  }

  lemma {:induction false} NoneHolds(s: State, r: State, w: nat, j: nat)
    requires Inv(s) && w < |s.workers| && Holds(s.workers[w], j) && r.workers == s.workers[w := Idle]
    ensures !Held(r, j)
  {
    forall v | 0 <= v < |r.workers| ensures !Holds(r.workers[v], j) {
      if v != w { OneHolds(s, w, v, j); }
    }
  }

  lemma {:induction false} MainOk(s: State, e: Event)
    requires Inv(s) && Enabled(s, e) && (e.Fetch? || e.Take? || e.Stop? || e.Clear?)
    ensures Inv(Next(s, e))
  {
    var r := Next(s, e);
    if e.Take? { assert InputOk(s, s.main.i); }
    if !e.Clear? {
      if s.workers != [] { HeldSame(s, r, 0); }
      forall i | 0 <= i < |r.inputs| ensures InputOk(r, i) { assert InputOk(s, i); }
      forall v | 0 <= v < |r.workers| ensures WorkerOk(r, r.workers[v]) {
        assert WorkerOk(s, s.workers[v]);
      }
    }
  }

  /** Every step keeps the invariant. */
  lemma {:induction false} StepOk(s: State, e: Event)
    requires Inv(s) && Enabled(s, e)
    ensures Inv(Next(s, e))
  {
    hide Inv, Next;
    match e
    case Start(outpoints, n) => StartOk(s, outpoints, n);
    case Claim(w) => ClaimOk(s, w);
    case Peek(w) => PeekOk(s, w);
    case Store(w) => StoreOk(s, w);
    case SetReady(w) => SetReadyOk(s, w);
    case Fetch(_) => MainOk(s, e);
    case Take => MainOk(s, e);
    case Stop => MainOk(s, e);
    case Clear => MainOk(s, e);
  }

  // ----- Whole runs

  ghost predicate IsRun(base: View, states: seq<State>, events: seq<Event>) {
    && |states| == |events| + 1 && states[0] == Init(base)
    && forall k | 0 <= k < |events| :: Enabled(states[k], events[k]) && states[k + 1] == Next(states[k], events[k])
  }

  lemma {:induction false} RunKeeps(base: View, states: seq<State>, events: seq<Event>, k: nat)
    requires IsRun(base, states, events) && k < |states|
    ensures Inv(states[k]) && states[k].base == base
  {
    hide Inv;
    if k == 0 {
      InitOk(base);
    } else {
      RunKeeps(base, states, events, k - 1);
      StepOk(states[k - 1], events[k - 1]);
    }
  }

  lemma {:induction false} InitOk(base: View)
    ensures Inv(Init(base))
  {}

  /** Every lookup that the main thread makes is answered as the base would answer it. */
  lemma {:induction false} LookupsAreSerial(base: View, states: seq<State>, events: seq<Event>, k: nat, j: nat)
    requires IsRun(base, states, events) && k < |states| && j < |states[k].log|
    ensures states[k].log[j].1 == Lookup(base, states[k].log[j].0)
  {
    hide IsRun;
    RunKeeps(base, states, events, k);
  }

  /** No input is claimed twice, and no two workers hold the same one. */
  lemma {:induction false} ClaimedOnce(base: View, states: seq<State>, events: seq<Event>, k: nat, i: nat)
    requires IsRun(base, states, events) && k < |states| && i < |states[k].inputs|
    ensures states[k].inputs[i].claims <= 1
    ensures forall w, v | 0 <= w < v < |states[k].workers| :: !(Holds(states[k].workers[w], i) && Holds(states[k].workers[v], i))
  {
    hide IsRun;
    RunKeeps(base, states, events, k);
    var s := states[k];
    assert InputOk(s, i);
    forall w, v | 0 <= w < v < |s.workers| ensures !(Holds(s.workers[w], i) && Holds(s.workers[v], i)) {
      if Holds(s.workers[w], i) { OneHolds(s, w, v, i); }
    }
  }

  /** In no run does a worker or the main thread touch an input that is not there, or does an assertion fail; what a worker holds is there and not ready. */
  lemma {:induction false} NothingTouched(base: View, states: seq<State>, events: seq<Event>, k: nat)
    requires IsRun(base, states, events) && k < |states|
    ensures !states[k].broken
    ensures forall w, i: nat | 0 <= w < |states[k].workers| && Holds(states[k].workers[w], i) :: i < |states[k].inputs| && !states[k].inputs[i].ready
    ensures states[k].main.Awaiting? ==> states[k].main.i < |states[k].inputs|
  {
    hide IsRun;
    RunKeeps(base, states, events, k);
    var s := states[k];
    forall w, i: nat | 0 <= w < |s.workers| && Holds(s.workers[w], i) ensures i < |s.inputs| && !s.inputs[i].ready {
      assert WorkerOk(s, s.workers[w]);
      assert InputOk(s, i) && Held(s, i);
    }
  }

  // ----- Waiting ends

  predicate WorkerEvent(e: Event) { e.Claim? || e.Peek? || e.Store? || e.SetReady? }

  /** The steps a worker has to take before it looks for the next input. */
  function Rank(w: Worker): nat {
    match w case Claimed(_) => 4 case Fetched(_, _) => 3 case Stored(_) => 2 case Idle => 1 case Done => 0
  }

  function Ranks(ws: seq<Worker>): nat {
    if ws == [] then 0 else Ranks(ws[..|ws| - 1]) + Rank(ws[|ws| - 1])
  }

  /** The steps that workers can still take. */
  function Work(s: State): nat {
    Ranks(s.workers) + if s.head < |s.inputs| then 4 * (|s.inputs| - s.head) else 0
  }

  lemma {:induction false} RanksUpdate(ws: seq<Worker>, w: nat, x: Worker)
    requires w < |ws|
    ensures Ranks(ws[w := x]) == Ranks(ws) - Rank(ws[w]) + Rank(x)
    decreases |ws|
  {
    var n := |ws| - 1;
    if w < n {
      RanksUpdate(ws[..n], w, x);
      assert ws[w := x][..n] == ws[..n][w := x];
    } else {
      assert ws[w := x][..n] == ws[..n];
    }
  }

  /** Every step of a worker leaves strictly less to do. */
  lemma {:induction false} WorkFalls(s: State, e: Event)
    requires Inv(s) && Enabled(s, e) && WorkerEvent(e)
    ensures Work(Next(s, e)) < Work(s) && Next(s, e).main == s.main
  {
    hide Ranks;
    var w := match e case Claim(w) => w case Peek(w) => w case Store(w) => w case SetReady(w) => w;
    var r := Next(s, e);
    assert WorkerOk(s, s.workers[w]);
    if e.SetReady? { assert InputOk(s, s.workers[w].i) && Holds(s.workers[w], s.workers[w].i) && Held(s, s.workers[w].i); }
    RanksUpdate(s.workers, w, r.workers[w]);
    assert r.workers == s.workers[w := r.workers[w]];
  }

  predicate Waits(s: State) { s.main.Awaiting? || s.main.Stopping? }

  /** While the main thread waits, nothing but workers goes on, until it has what it waits for. */
  lemma {:induction false} OnlyWorkers(s: State, e: Event)
    requires Waits(s) && Enabled(s, e) && !WorkerEvent(e)
    ensures if s.main.Awaiting? then e.Take? else e.Clear?
  {}

  /** The main thread waits through at most as many steps as the workers have left. */
  lemma {:induction false} WaitIsBounded(base: View, states: seq<State>, events: seq<Event>, k: nat, m: nat)
    requires IsRun(base, states, events) && k <= m < |states| && forall j | k <= j <= m :: Waits(states[j])
    ensures m - k + Work(states[m]) <= Work(states[k])
    ensures forall j | k <= j < m :: WorkerEvent(events[j])
    decreases m
  {
    hide Inv, Work, Ranks;
    if k < m {
      WaitIsBounded(base, states, events, k, m - 1);
      RunKeeps(base, states, events, m - 1);
      assert Waits(states[m - 1]) && states[m - 1 + 1] == Next(states[m - 1], events[m - 1]);
      WaitStep(states[m - 1], events[m - 1]);
    }
  }

  lemma {:induction false} WaitStep(s: State, e: Event)
    requires Inv(s) && Enabled(s, e) && Waits(s) && Waits(Next(s, e))
    ensures WorkerEvent(e) && Work(Next(s, e)) < Work(s)
  {
    hide Work;
    if WorkerEvent(e) { WorkFalls(s, e); } else { OnlyWorkers(s, e); }
  }

  /** The next step of a worker that is not done. */
  function StepOf(s: State, w: nat): Event
    requires w < |s.workers|
  {
    match s.workers[w] case Claimed(_) => Peek(w) case Fetched(_, _) => Store(w) case Stored(_) => SetReady(w) case _ => Claim(w)
  }

  /** As long as the main thread waits, it can go on or some worker can take a step. */
  lemma {:induction false} NotStuck(s: State) returns (e: Event)
    requires Inv(s) && Waits(s)
    ensures Enabled(s, e) && (WorkerEvent(e) || (s.main.Awaiting? && e.Take?) || (s.main.Stopping? && e.Clear?))
  {
    if s.main.Awaiting? {
      e := AwaitStep(s);
    } else if w :| 0 <= w < |s.workers| && !s.workers[w].Done? {
      e := StepOf(s, w);
    } else {
      e := Clear;
    }
  }

  lemma {:induction false} AwaitStep(s: State) returns (e: Event)
    requires Inv(s) && s.main.Awaiting?
    ensures Enabled(s, e) && (WorkerEvent(e) || e.Take?)
  {
    var i := s.main.i;
    assert InputOk(s, i);
    if s.inputs[i].ready {
      e := Take;
    } else if Held(s, i) {
      var w :| 0 <= w < |s.workers| && Holds(s.workers[w], i);
      e := StepOf(s, w);
    } else {
      assert WorkerOk(s, s.workers[0]);
      e := StepOf(s, 0);
    }
  }

  /** The inputs are there until the main thread, having waited for all workers, clears them. */
  lemma {:induction false} KeptUntilCleared(base: View, states: seq<State>, events: seq<Event>, k: nat)
    requires IsRun(base, states, events) && k < |events| && states[k].inputs != []
    ensures |states[k + 1].inputs| == |states[k].inputs| <==> events[k] != Clear
    ensures events[k] == Clear ==> states[k + 1] == Init(base).(log := states[k].log)
  {
    RunKeeps(base, states, events, k);
  }
}
