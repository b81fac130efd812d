/** Minimizing the chunks of an optimal state: the queue of chunks to look at, and what each step does to it. */
module MinimizeSteps {
  import opened FeeRates
  import opened Forests
  import opened Topology
  import opened Diagrams
  import opened Optimality
  import opened Minimality
  import opened DepGraphs
  import opened ForestStore
  import opened Merging
  import opened ForestSteps

  /**
   A chunk to look at for a split with the pivot in the bottom part (`down`) or in the top part.
   In the second stage, splits with the pivot on the other side are known not to exist.
   */
  datatype Pending = Pending(chunk: SetIdx, pivot: TxIdx, down: bool, second: bool)

  ghost predicate PendingOk(g: Graph, s: Store, p: Pending)
    requires ClosedGraph(g)
  {
    && p.chunk in s.chunks && p.pivot in SetTxs(s, p.chunk)
    && (p.second ==> NoEvenPart(DepsOf(g), g.fees, SetTxs(s, p.chunk), p.pivot, p.down))
  }

  ghost predicate Distinct(queue: seq<Pending>) {
    forall i, j | 0 <= i < j < |queue| :: queue[i].chunk != queue[j].chunk
  }

  ghost predicate MinimalIn(g: Graph, s: Store, x: SetIdx)
    requires ClosedGraph(g)
  {
    Minimal(DepsOf(g), g.fees, SetTxs(s, x))
  }

  ghost predicate HasChunk(queue: seq<Pending>, x: SetIdx) {
    exists i | 0 <= i < |queue| :: queue[i].chunk == x
  }

  /** An optimal, orderly state in which every chunk that is not queued is minimal. */
  ghost predicate Minimizing(g: Graph, s: Store, queue: seq<Pending>) {
    && ValidStore(g, s) && ClosedGraph(g) && AllWorked(g, s, {}) && Orderly(NetOf(g), ChunksOf(s))
    && Distinct(queue) && (forall i | 0 <= i < |queue| :: PendingOk(g, s, queue[i]))
    && (forall x <- s.chunks :: HasChunk(queue, x) || MinimalIn(g, s, x))
  }

  lemma {:induction false} MinimizingFacts(g: Graph, s: Store, queue: seq<Pending>)
    requires Minimizing(g, s, queue)
    ensures ValidStore(g, s) && ClosedGraph(g) && AllWorked(g, s, {}) && Orderly(NetOf(g), ChunksOf(s))
    ensures forall i | 0 <= i < |queue| :: PendingOk(g, s, queue[i])
    ensures queue == [] ==> forall x <- s.chunks :: MinimalIn(g, s, x)
  {
    hide ValidStore, ClosedGraph, AllWorked, Orderly, PendingOk, MinimalIn;
  }

  /** The chunks other than `x` are the same in `r`, and the chunks of `r` that are new are in `added` or minimal. */
  ghost predicate Reworked(g: Graph, s: Store, r: Store, x: SetIdx, added: seq<Pending>)
    requires ClosedGraph(g)
  {
    && (forall y <- s.chunks | y != x :: y in r.chunks && SetTxs(r, y) == SetTxs(s, y))
    && (forall y <- r.chunks | y !in s.chunks || y == x :: HasChunk(added, y) || MinimalIn(g, r, y))
    && (forall i | 0 <= i < |added| :: added[i].chunk !in s.chunks || added[i].chunk == x)
  }

  lemma {:induction false} RequeuedDistinct(s: Store, queue: seq<Pending>, added: seq<Pending>)
    requires queue != [] && Distinct(queue) && Distinct(added) && forall i | 0 <= i < |queue| :: queue[i].chunk in s.chunks
    requires forall i | 0 <= i < |added| :: added[i].chunk !in s.chunks || added[i].chunk == queue[0].chunk
    ensures Distinct(queue[1..] + added)
  {}

  lemma {:induction false} RequeuedHas(queue: seq<Pending>, added: seq<Pending>, x: SetIdx)
    requires queue != []
    ensures HasChunk(queue, x) && x != queue[0].chunk ==> HasChunk(queue[1..] + added, x)
    ensures HasChunk(added, x) ==> HasChunk(queue[1..] + added, x)
  {
    var q := queue[1..] + added;
    if HasChunk(queue, x) && x != queue[0].chunk {
      var i :| 0 <= i < |queue| && queue[i].chunk == x;
      assert q[i - 1].chunk == x;
    }
    if HasChunk(added, x) {
      var i :| 0 <= i < |added| && added[i].chunk == x;
      assert q[|queue| - 1 + i].chunk == x;
    }
  }

  /** Taking the first chunk off the queue, reworking it, and queueing what came of it keeps the invariant. */
  lemma {:induction false} Requeued(g: Graph, s: Store, r: Store, queue: seq<Pending>, added: seq<Pending>)
    requires queue != [] && Minimizing(g, s, queue) && Reworked(g, s, r, queue[0].chunk, added)
    requires ValidStore(g, r) && AllWorked(g, r, {}) && Orderly(NetOf(g), ChunksOf(r))
    requires Distinct(added) && forall i | 0 <= i < |added| :: PendingOk(g, r, added[i])
    ensures Minimizing(g, r, queue[1..] + added)
  {
    hide ValidStore, ClosedGraph, AllWorked, Orderly, NoEvenPart, Minimal, DepsOf;
    var q := queue[1..] + added;
    forall i | 0 <= i < |queue| ensures queue[i].chunk in s.chunks { assert PendingOk(g, s, queue[i]); }
    RequeuedDistinct(s, queue, added);
    forall i | 0 <= i < |q| ensures PendingOk(g, r, q[i]) {
      if i < |queue| - 1 {
        assert q[i] == queue[i + 1] && PendingOk(g, s, queue[i + 1]);
      } else {
        assert q[i] == added[i - (|queue| - 1)];
      }
    }
    forall x <- r.chunks ensures HasChunk(q, x) || MinimalIn(g, r, x) {
      RequeuedHas(queue, added, x);
      if x in s.chunks && x != queue[0].chunk {
        assert HasChunk(queue, x) || MinimalIn(g, s, x);
      }
    }
  }

  // ----- Looking for an even dependency

  /** The active dependencies of chunk `x` whose top does not have a lower feerate than the chunk. */
  ghost function EvenTops(g: Graph, s: Store): set<Dep> {
    set d <- ActiveDeps(s.tx) | d.parent in s.tx
      && !(Rate(g.fees, SetTxs(s, TopIdx(s, d))) < Rate(g.fees, SetTxs(s, s.tx[d.parent].chunk)))
  }

  /** Those of them with the pivot where it is looked for. */
  ghost function PivotTops(g: Graph, s: Store, q: TxIdx, down: bool): set<Dep> {
    set d <- EvenTops(g, s) | (q in SetTxs(s, TopIdx(s, d))) != down
  }

  /** An active dependency of chunk `x` that splits it evenly with the pivot where it is looked for. */
  ghost predicate SplitsEvenly(g: Graph, s: Store, x: SetIdx, q: TxIdx, down: bool, dep: (TxIdx, TxIdx)) {
    && dep.0 in s.tx && s.tx[dep.0].chunk == x
    && Cuts(g, s, dep.0, dep.1) && Dep(dep.0, dep.1) in PivotTops(g, s, q, down)
  }

  lemma {:induction false} EvenEdgeSeen(g: Graph, s: Store, x: SetIdx, e: Dep)
    requires ValidStore(g, s) && x in s.chunks && EvenEdge(g.fees, Meaning(s), SetTxs(s, x), e)
    ensures e in ActiveDeps(s.tx) && e.parent in SetTxs(s, x) && e in EvenTops(g, s)
    ensures Meaning(s).top[e] == SetTxs(s, TopIdx(s, e))
  {
    hide RepOk, ValidForest, Rate, ActiveDeps;
    ActiveDep(s.tx, e);
    ChunkIs(g, s, x, e.parent);
  }

  /** The chunk of transaction `y` in the forest that the store means. */
  lemma {:induction false} ChunkMeaning(g: Graph, s: Store, x: SetIdx, y: TxIdx)
    requires ValidStore(g, s) && x in s.chunks && y in SetTxs(s, x)
    ensures y in s.tx && s.tx[y].chunk == x && ValidForest(g.anc.Keys, DepsOf(g), Meaning(s)) && PositiveSizes(g.fees)
    ensures y in Meaning(s).chunk && Meaning(s).chunk[y] == SetTxs(s, x)
  {
    hide RepOk, ValidForest, ReachOf, TopsDistinct;
    StoreFacts(g, s);
    ChunkFacts(g, s, x);
    ChunkIs(g, s, x, y);
  }

  lemma {:induction false} SearchedPivot(g: Graph, s: Store, x: SetIdx, q: TxIdx, down: bool, u: TxIdx)
    requires ValidStore(g, s) && ClosedGraph(g) && AllWorked(g, s, {}) && x in s.chunks && q in SetTxs(s, x)
    requires NoneSeen(s.tx, PivotTops(g, s, q, down), SetTxs(s, x), u, {})
    ensures NoEvenPart(DepsOf(g), g.fees, SetTxs(s, x), q, !down)
  {
    hide RepOk, ValidForest, Rate, NothingToSplit, ActiveDeps, EvenTops, Meaning, NoEvenPart;
    ChunkMeaning(g, s, x, q);
    var f := Meaning(s);
    forall e <- f.active | EvenEdge(g.fees, f, f.chunk[q], e) ensures (q in f.top[e]) != !down {
      EvenEdgeSeen(g, s, x, e);
      assert e !in PivotTops(g, s, q, down);
    }
    PivotSearched(g.anc.Keys, DepsOf(g), g.fees, f, q, q, !down);
  }

  lemma {:induction false} FewerPivotTops(g: Graph, s: Store, done: Txs, q: TxIdx, down: bool, u: TxIdx)
    requires NoneSeen(s.tx, EvenTops(g, s), done, u, {})
    ensures NoneSeen(s.tx, PivotTops(g, s, q, down), done, u, {})
  {
    hide ActiveDeps, EvenTops;
  }

  lemma {:induction false} NoEvenTop(g: Graph, s: Store, x: SetIdx, q: TxIdx, u: TxIdx)
    requires ValidStore(g, s) && ClosedGraph(g) && AllWorked(g, s, {}) && x in s.chunks && q in SetTxs(s, x)
    requires NoneSeen(s.tx, EvenTops(g, s), SetTxs(s, x), u, {})
    ensures MinimalIn(g, s, x)
  {
    hide ValidStore, AllWorked, NoneSeen, PivotTops, NoEvenPart, Minimal, ClosedGraph;
    FewerPivotTops(g, s, SetTxs(s, x), q, true, u);
    FewerPivotTops(g, s, SetTxs(s, x), q, false, u);
    SearchedPivot(g, s, x, q, true, u);
    SearchedPivot(g, s, x, q, false, u);
    BothSidesMinimal(DepsOf(g), g.fees, SetTxs(s, x), q, true);
  }

  // ----- The outcomes of a step

  /** The chunk turned out minimal. */
  lemma {:induction false} FoundMinimal(g: Graph, s: Store, queue: seq<Pending>)
    requires queue != [] && Minimizing(g, s, queue) && MinimalIn(g, s, queue[0].chunk)
    ensures Minimizing(g, s, queue[1..])
  {
    hide ValidStore, ClosedGraph, AllWorked, Orderly, PendingOk, MinimalIn;
    MinimizingFacts(g, s, queue);
    Requeued(g, s, s, queue, []);
    assert queue[1..] + [] == queue[1..];
  }

  /** Nothing was found with the pivot on one side; if that was the second side, the chunk is minimal. */
  lemma {:induction false} FoundNothing(g: Graph, s: Store, queue: seq<Pending>)
    requires queue != [] && Minimizing(g, s, queue) && ClosedGraph(g)
    requires NoEvenPart(DepsOf(g), g.fees, SetTxs(s, queue[0].chunk), queue[0].pivot, !queue[0].down)
    ensures queue[0].second ==> Minimizing(g, s, queue[1..])
    ensures !queue[0].second ==> Minimizing(g, s, queue[1..] + [queue[0].(down := !queue[0].down, second := true)])
  {
    hide ValidStore, ClosedGraph, AllWorked, Orderly, Minimal, NoEvenPart, DepsOf;
    var p := queue[0];
    assert PendingOk(g, s, p);
    if p.second {
      BothSidesMinimal(DepsOf(g), g.fees, SetTxs(s, p.chunk), p.pivot, p.down);
      FoundMinimal(g, s, queue);
    } else {
      MinimizingFacts(g, s, queue);
      var added := [p.(down := !p.down, second := true)];
      assert added[0].chunk == p.chunk;
      Requeued(g, s, s, queue, added);
    }
  }

  /** The parts that a split on an even dependency makes: equal feerates, and all chunks still worked. */
  lemma {:induction false} EvenlySplit(g: Graph, s: Store, r: Store, x: SetIdx, q: TxIdx, down: bool, p: TxIdx, c: TxIdx)
    requires ValidStore(g, s) && AllWorked(g, s, {}) && x in s.chunks && SplitsEvenly(g, s, x, q, down, (p, c))
    requires CutRange(s, p, c) && SplitStore(g, s, r, x, s.tx[p].depTop[c], SetTxs(s, s.tx[p].depTop[c]))
    ensures var pi := s.tx[p].depTop[c];
            var t := SetTxs(s, pi);
            && Rate(g.fees, t) == Rate(g.fees, SetTxs(s, x)) && (q in t) != down
            && Worked(g, r, x) && Worked(g, r, pi)
            && AllWorked(g, r, {})
  {
    hide RepOk, ValidForest, Rate, NothingToSplit, ActiveDeps, Meaning, ChunksOf;
    var pi := s.tx[p].depTop[c];
    CutFacts(g, s, p, c);
    ChunkMeaning(g, s, x, p);
    assert Worked(g, s, x);
    TopNotHigher(g, s, x, p, c);
    assert Worked(g, r, x) && Worked(g, r, pi);
    assert AllWorked(g, r, {} + {x} + {pi});
  }

  lemma {:induction false} TopNotHigher(g: Graph, s: Store, x: SetIdx, p: TxIdx, c: TxIdx)
    requires ValidStore(g, s) && x in s.chunks && Worked(g, s, x) && Cuts(g, s, p, c) && p in s.tx && s.tx[p].chunk == x
    ensures CutRange(s, p, c) && Rate(g.fees, SetTxs(s, s.tx[p].depTop[c])) <= Rate(g.fees, SetTxs(s, x))
  {
    hide RepOk, ValidForest, Rate, ActiveDeps;
    CutFacts(g, s, p, c);
    assert Inside(Dep(p, c), SetTxs(s, x));
  }

  /** The parts had to be merged again: the chunk is as it was, under either index. */
  lemma {:induction false} MergedBack(g: Graph, s: Store, s1: Store, r: Store, queue: seq<Pending>, u: TxIdx, pi: SetIdx, y: SetIdx, t: Txs)
    requires queue != [] && Minimizing(g, s, queue) && queue[0].chunk in s.chunks
    requires u in s.tx && ChunksOf(s)[u] == SetTxs(s, queue[0].chunk)
    requires SplitStore(g, s, s1, queue[0].chunk, pi, t) && MergedStore(g, s1, r, queue[0].chunk, pi, y)
    requires Worked(g, s1, queue[0].chunk) && Worked(g, s1, pi) && AllWorked(g, s1, {})
    requires Rate(g.fees, t) == Rate(g.fees, SetTxs(s, queue[0].chunk))
    ensures Minimizing(g, r, queue[1..] + [queue[0].(chunk := y)]) && ChunksOf(r) == ChunksOf(s)
  {
    hide RepOk, ValidForest, Rate, Surplus, NothingToSplit, Meaning, ChunksOf, Orderly, NoEvenPart, Minimal, DepsOf, ClosedGraph, ValidNet,
      Partitions, ValidGraph, PositiveSizes, Flip, MergeChunks, SplitChunk, Distinct, HasChunk, AllWorked;
    MinimizingFacts(g, s, queue);
    var x := queue[0].chunk;
    NetFacts(g, s);
    SplitThenMerge(g.anc.Keys, ChunksOf(s), u, t);
    EvenRest(g.fees, SetTxs(s, x), t);
    assert Worked(g, r, y);
    RejoinedWorked(g, s1, r, y);
    var added := [queue[0].(chunk := y)];
    assert SetTxs(r, y) == SetTxs(s, x);
    assert PendingOk(g, s, queue[0]);
    OneHas(added, y);
    Requeued(g, s, r, queue, added);
  }

  lemma {:induction false} RejoinedWorked(g: Graph, s: Store, r: Store, y: SetIdx)
    requires AllWorked(g, s, {}) && Worked(g, r, y)
    requires AllWorked(g, s, {}) ==> AllWorked(g, r, {} + {y})
    ensures AllWorked(g, r, {})
  {
    hide NothingToSplit, Meaning;
  }

  lemma {:induction false} OneHas(added: seq<Pending>, y: SetIdx)
    requires |added| == 1 && added[0].chunk == y
    ensures HasChunk(added, y) && Distinct(added)
  {}

  /** The entries for the two parts: the one with the pivot keeps what is known about it. */
  ghost predicate PartEntries(p: Pending, pi: SetIdx, up: Pending, down: Pending) {
    && up.chunk == pi && down.chunk == p.chunk
    && (if p.down then down == p && !up.second else up == p.(chunk := pi) && !down.second)
  }

  lemma {:induction false} PartsPending(g: Graph, s: Store, r: Store, p: Pending, pi: SetIdx, t: Txs, up: Pending, down: Pending)
    requires ValidStore(g, s) && ClosedGraph(g) && PendingOk(g, s, p) && SplitStore(g, s, r, p.chunk, pi, t)
    requires EvenPart(DepsOf(g), g.fees, SetTxs(s, p.chunk), t) && PositiveSizes(g.fees)
    requires (p.pivot in t) != p.down
    requires PartEntries(p, pi, up, down) && up.pivot in SetTxs(r, pi) && down.pivot in SetTxs(r, p.chunk)
    ensures PendingOk(g, r, up) && PendingOk(g, r, down)
  {
    hide RepOk, ValidForest, Rate, NothingToSplit, Meaning, ChunksOf, EvenPart, NoEvenPart, DepsOf, ClosedGraph, AllWorked, Worked;
    var x := SetTxs(s, p.chunk);
    if p.second {
      PivotInherits(DepsOf(g), g.fees, x, t, p.pivot, p.down);
    }
  }

  lemma {:induction false} NoDepsBetween(g: Graph, s: Store, x: SetIdx, t: Txs)
    requires ValidStore(g, s) && ClosedGraph(g) && x in s.chunks && t <= SetTxs(s, x) && t != {} && t != SetTxs(s, x)
    requires Rate(g.fees, t) == Rate(g.fees, SetTxs(s, x))
    requires !exists d <- DepsOf(g) :: d.parent in SetTxs(s, x) - t && d.child in t
    ensures EvenPart(DepsOf(g), g.fees, SetTxs(s, x), t)
  {
    hide RepOk, ValidForest, Rate, DepsOf;
  }

  /** The chunk is split for good; `added` holds an entry for either part, in some order. */
  lemma {:induction false} SplitForGood(g: Graph, s: Store, r: Store, queue: seq<Pending>, u: TxIdx, pi: SetIdx, t: Txs, added: seq<Pending>)
    requires queue != [] && Minimizing(g, s, queue)
    requires u in s.tx && ChunksOf(s)[u] == SetTxs(s, queue[0].chunk)
    requires SplitStore(g, s, r, queue[0].chunk, pi, t) && AllWorked(g, r, {}) && EvenPart(DepsOf(g), g.fees, SetTxs(s, queue[0].chunk), t)
    requires |added| == 2 && PendingOk(g, r, added[0]) && PendingOk(g, r, added[1])
    requires (added[0].chunk == pi && added[1].chunk == queue[0].chunk) || (added[1].chunk == pi && added[0].chunk == queue[0].chunk)
    ensures Minimizing(g, r, queue[1..] + added)
    ensures forall lam: real :: Diagram(g.fees, lam, ChunksOf(r).Values) == Diagram(g.fees, lam, ChunksOf(s).Values)
  {
    hide RepOk, ValidForest, Rate, NothingToSplit, Meaning, ChunksOf, Orderly, NoEvenPart, DepsOf, ClosedGraph, ValidNet,
      Partitions, ValidGraph, PositiveSizes, Flip, SplitChunk, PendingOk, Diagram, AllWorked, Worked, MinimalIn;
    MinimizingFacts(g, s, queue);
    NetFacts(g, s);
    EvenSplitOrderly(NetOf(g), ChunksOf(s), u, t);
    forall lam: real ensures Diagram(g.fees, lam, ChunksOf(r).Values) == Diagram(g.fees, lam, ChunksOf(s).Values) {
      EvenSplitDiagram(g.fees, lam, g.anc.Keys, ChunksOf(s), u, t);
    }
    TwoHave(added, pi, queue[0].chunk);
    Requeued(g, s, r, queue, added);
  }

  lemma {:induction false} TwoHave(added: seq<Pending>, a: SetIdx, b: SetIdx)
    requires |added| == 2 && a != b
    requires (added[0].chunk == a && added[1].chunk == b) || (added[1].chunk == a && added[0].chunk == b)
    ensures HasChunk(added, a) && HasChunk(added, b) && Distinct(added)
    ensures forall i | 0 <= i < |added| :: added[i].chunk == a || added[i].chunk == b
  {}

  /** At every feerate, the chunks earn the same. */
  ghost predicate SameDiagram(g: Graph, before: Chunks, after: Chunks) {
    forall lam: real :: Diagram(g.fees, lam, after.Values) == Diagram(g.fees, lam, before.Values)
  }

  lemma {:induction false} DiagramIsSame(g: Graph, ch: Chunks)
    ensures SameDiagram(g, ch, ch)
  {}

  lemma {:induction false} SplitSameDiagram(g: Graph, before: Chunks, after: Chunks)
    requires forall lam: real :: Diagram(g.fees, lam, after.Values) == Diagram(g.fees, lam, before.Values)
    ensures SameDiagram(g, before, after)
  {}

  lemma {:induction false} PartFacts(g: Graph, s: Store, r: Store, x: SetIdx, pi: SetIdx, t: Txs)
    requires SplitStore(g, s, r, x, pi, t)
    ensures ValidStore(g, r) && x in r.chunks && pi in r.chunks && x != pi && x < |r.sets| == |r.reach| && pi < |r.sets|
    ensures r.sets[pi].txs == t != {} && r.sets[x].txs == SetTxs(s, x) - t != {} && t <= SetTxs(s, x) && t != SetTxs(s, x)
    ensures ClosedGraph(g) && PositiveSizes(g.fees)
    ensures r.reach[pi].up * r.sets[x].txs != {} <==> exists d <- DepsOf(g) :: d.parent in r.sets[x].txs && d.child in r.sets[pi].txs
  {
    hide RepOk, ValidForest, AllWorked, Worked, ChunksOf, DepsOf, Rate, TopsDistinct, ReachOf, SplitChunk;
    StoreFacts(g, r);
    ReachMeets(g, r, x, pi);
    ChunkFacts(g, r, x);
    ChunkFacts(g, r, pi);
  }

  // ----- Filling the queue

  /** An entry in the first stage for every chunk in `idxs`. */
  ghost predicate FirstStage(g: Graph, s: Store, queue: seq<Pending>, idxs: set<SetIdx>) {
    && ClosedGraph(g) && Distinct(queue)
    && (forall i | 0 <= i < |queue| :: queue[i].chunk in idxs && !queue[i].second && PendingOk(g, s, queue[i]))
    && (forall x <- idxs :: HasChunk(queue, x))
  }

  lemma {:induction false} FirstStageStart(g: Graph, s: Store)
    requires ClosedGraph(g)
    ensures FirstStage(g, s, [], s.chunks - s.chunks)
  {}

  lemma {:induction false} FirstStageNext(g: Graph, s: Store, queue: seq<Pending>, idxs: set<SetIdx>, p: Pending, j: nat)
    requires FirstStage(g, s, queue, idxs) && p.chunk !in idxs && !p.second && PendingOk(g, s, p) && j <= |queue|
    ensures FirstStage(g, s, queue + [p], idxs + {p.chunk})
    ensures j < |queue| ==> FirstStage(g, s, (queue + [p])[|queue| := queue[j]][j := p], idxs + {p.chunk})
  {
    hide PendingOk, ClosedGraph;
    forall x <- idxs + {p.chunk} ensures HasChunk(queue + [p], x) {
      if x == p.chunk {
        assert (queue + [p])[|queue|].chunk == x;
      } else {
        var k :| 0 <= k < |queue| && queue[k].chunk == x;
        assert (queue + [p])[k].chunk == x;
      }
    }
    if j < |queue| {
      var q := (queue + [p])[|queue| := queue[j]][j := p];
      forall x <- idxs + {p.chunk} ensures HasChunk(q, x) {
        if x == p.chunk {
          assert q[j].chunk == x;
        } else {
          var k :| 0 <= k < |queue| && queue[k].chunk == x;
          assert q[if k == j then |queue| else k].chunk == x;
        }
      }
    }
  }

  lemma {:induction false} FirstStageDone(g: Graph, s: Store, queue: seq<Pending>)
    requires FirstStage(g, s, queue, s.chunks) && ValidStore(g, s) && AllWorked(g, s, {}) && Topological(NetOf(g), ChunksOf(s))
    ensures Minimizing(g, s, queue)
  {
    hide RepOk, ValidForest, AllWorked, Topological, ChunksOf, DepsOf, PendingOk, ClosedGraph, HasChunk, Distinct, ValidNet, Partitions;
    NetFacts(g, s);
    TopologicalOrderly(NetOf(g), ChunksOf(s));
  }

  lemma {:induction false} ChunkFilled(g: Graph, s: Store, x: SetIdx)
    requires ValidStore(g, s) && ClosedGraph(g) && x in s.chunks
    ensures x < |s.sets| && s.sets[x].txs != {}
    ensures forall q <- s.sets[x].txs, down: bool :: PendingOk(g, s, Pending(x, q, down, false))
  {
    hide RepOk, ValidForest, ReachOf, NoEvenPart;
    ChunkFacts(g, s, x);
  }
}
