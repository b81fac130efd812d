/** What the steps of the spanning-forest algorithm do, one lemma per loop step, call or phase. */
module ForestSteps {
  import opened CostBounds
  import opened Sums
  import opened FeeRates
  import opened Forests
  import opened Topology
  import opened Diagrams
  import opened Improvement
  import opened Optimality
  import opened DepGraphs
  import opened ForestStore
  import opened Merging
  import opened Loading

  /** The indices of the top sets of the dependencies of `cs` on `v`. */
  ghost function ChildIdxs(tx: TxMap, v: TxIdx, cs: Txs): set<SetIdx> {
    set c <- cs | v in tx && c in tx[v].depTop :: tx[v].depTop[c]
  }

  ghost predicate TopsInRange(tx: TxMap, n: nat) {
    forall v <- tx, c <- tx[v].active :: c in tx[v].depTop && tx[v].depTop[c] < n
  }

  lemma {:induction false} GrowOne(sets: seq<SetInfo>, idxs: set<SetIdx>, i: SetIdx, pivot: TxIdx, add: SetInfo)
    requires i < |sets| && i !in idxs
    ensures var now := GrowSets(sets, idxs, pivot, add);
            GrowSets(sets, idxs + {i}, pivot, add) == (if pivot in now[i].txs then now[i := now[i].Join(add)] else now)
  {}

  lemma {:induction false} ShrinkOne(sets: seq<SetInfo>, idxs: set<SetIdx>, i: SetIdx, pivot: TxIdx, sub: SetInfo)
    requires i < |sets| && i !in idxs
    ensures var now := ShrinkSets(sets, idxs, pivot, sub);
            ShrinkSets(sets, idxs + {i}, pivot, sub) == (if pivot in now[i].txs then now[i := now[i].Without(sub)] else now)
  {}

  lemma {:induction false} IdxsStep(tx: TxMap, n: nat, done: Txs, v: TxIdx, cs: Txs, c: TxIdx)
    requires TopsDistinct(tx) && TopsInRange(tx, n) && v in tx && v !in done && c in tx[v].active && c !in cs && cs <= tx[v].active
    ensures c in tx[v].depTop && tx[v].depTop[c] < n
    ensures tx[v].depTop[c] !in TopIdxs(tx, done) + ChildIdxs(tx, v, cs)
    ensures TopIdxs(tx, done) + ChildIdxs(tx, v, cs) + {tx[v].depTop[c]} == TopIdxs(tx, done) + ChildIdxs(tx, v, cs + {c})
  {}

  lemma {:induction false} IdxsDone(tx: TxMap, done: Txs, v: TxIdx)
    requires v in tx
    ensures TopIdxs(tx, done) + ChildIdxs(tx, v, tx[v].active) == TopIdxs(tx, done + {v})
  {}

  ghost function Relabelled(tx: TxMap, txs: Txs, x: SetIdx): TxMap {
    map v | v in tx :: if v in txs then tx[v].(chunk := x) else tx[v]
  }

  lemma {:induction false} RelabelOne(tx: TxMap, txs: Txs, x: SetIdx, v: TxIdx)
    requires v in tx && v !in txs
    ensures Relabelled(tx, txs + {v}, x) == Relabelled(tx, txs, x)[v := tx[v].(chunk := x)]
  {}

  lemma {:induction false} RelabelKeeps(tx: TxMap, txs: Txs, x: SetIdx, v: TxIdx)
    requires v in tx && v in txs
    ensures v in Relabelled(tx, txs, x) && Relabelled(tx, txs, x)[v] == tx[v].(chunk := x)
  {}

  lemma {:induction false} ActivatesByParts(s: Store, p: TxIdx, c: TxIdx, r: Store)
    requires JoinRange(s, p, c) && p in s.sets[s.tx[p].chunk].txs
    requires var pi, ci := s.tx[p].chunk, s.tx[c].chunk;
             var top, bottom := s.sets[pi], s.sets[ci];
             var was := Relabelled(s.tx, top.txs, ci);
             var grown := GrowSets(GrowSets(s.sets, TopIdxs(s.tx, top.txs), p, bottom), TopIdxs(s.tx, bottom.txs), c, top);
             && r.tx == was[p := was[p].(depTop := was[p].depTop[c := pi], active := was[p].active + {c})]
             && |grown| == |s.sets| && r.sets == grown[ci := bottom.Join(top)]
             && r.reach == s.reach[ci := JoinReach(s.reach[ci], s.reach[pi], bottom.txs + top.txs)]
             && r.chunks == s.chunks - {pi}
    ensures Activates(s, r, p, c)
  {
    hide GrowSets, TopIdxs;
    assert r.tx == Activated(s, p, c).tx;
  }

  lemma {:induction false} GrowLength(sets: seq<SetInfo>, idxs: set<SetIdx>, pivot: TxIdx, add: SetInfo)
    ensures |GrowSets(sets, idxs, pivot, add)| == |sets|
  {}

  lemma {:induction false} ChunkMembers(g: Graph, s: Store, x: SetIdx)
    requires RepOk(g, s) && x in s.chunks
    ensures x < |s.sets| && s.sets[x].txs <= s.tx.Keys
  {
    hide RepOk;
    ChunkFacts(g, s, x);
  }

  lemma {:induction false} StoreTopsInRange(g: Graph, s: Store)
    requires RepOk(g, s)
    ensures TopsInRange(s.tx, |s.sets|)
  {
    hide RepOk;
    forall v <- s.tx, c <- s.tx[v].active ensures c in s.tx[v].depTop && s.tx[v].depTop[c] < |s.sets| {
      TxFacts(g, s, v);
    }
  }

  lemma {:induction false} CutByParts(tx: TxMap, p: TxIdx, c: TxIdx, top: Txs, pi: SetIdx)
    requires p in tx && p in top
    ensures Relabelled(tx[p := tx[p].(active := tx[p].active - {c})], top, pi) == CutTx(tx, p, c, top, pi)
    ensures CutTx(tx, p, c, top, pi).Keys == tx.Keys
  {}

  lemma {:induction false} CutTopsInRange(tx: TxMap, n: nat, p: TxIdx, c: TxIdx, top: Txs, pi: SetIdx)
    requires TopsInRange(tx, n)
    ensures TopsInRange(CutTx(tx, p, c, top, pi), n)
  {}

  lemma {:induction false} ShrinkLength(sets: seq<SetInfo>, idxs: set<SetIdx>, pivot: TxIdx, sub: SetInfo)
    ensures |ShrinkSets(sets, idxs, pivot, sub)| == |sets|
  {}

  lemma {:induction false} CutReach(tx: TxMap, p: TxIdx, c: TxIdx, top: Txs, pi: SetIdx, x: Txs)
    requires x <= tx.Keys && p in top
    ensures x <= CutTx(tx, p, c, top, pi).Keys && ReachOf(CutTx(tx, p, c, top, pi), x) == ReachOf(tx, x)
  {
    ReachSame(tx, CutTx(tx, p, c, top, pi), x);
  }

  lemma {:induction false} DeactivatesByParts(s: Store, p: TxIdx, c: TxIdx, r: Store)
    requires CutRange(s, p, c)
    requires var pi, ci := s.tx[p].depTop[c], s.tx[p].chunk;
             var top, bottom := s.sets[pi], s.sets[ci].Without(s.sets[pi]);
             && r.tx == CutTx(s.tx, p, c, top.txs, pi)
             && r.sets == ShrinkSets(ShrinkSets(s.sets[ci := bottom], TopIdxs(r.tx, top.txs), p, bottom), TopIdxs(r.tx, bottom.txs), c, top)
             && r.reach == s.reach[pi := ReachOf(s.tx, top.txs)][ci := ReachOf(s.tx, bottom.txs)]
             && r.chunks == s.chunks + {pi}
    ensures Deactivates(s, r, p, c)
  {}

  lemma {:induction false} Shrinks(a: Txs, b: Txs, u: TxIdx)
    requires u in a && u in b
    ensures |a - b| < |a|
  {
    assert a == (a - b) + (a * b);
    assert u in a * b;
  }

  ghost function DepCount(tx: TxMap, bottom: Txs): TxIdx -> int {
    (v: TxIdx) => if v in tx then |tx[v].children * bottom| else 0
  }

  lemma {:induction false} SomeDep(tx: TxMap, top: Txs, bottom: Txs)
    requires exists p <- top :: p in tx && tx[p].children * bottom != {}
    ensures Sum(DepCount(tx, bottom), top) > 0
  {
    var p :| p in top && p in tx && tx[p].children * bottom != {};
    SumRemove(DepCount(tx, bottom), top, p);
    SumNatural(DepCount(tx, bottom), top - {p});
  }

  lemma {:induction false} DepStored(g: Graph, s: Store, top: SetIdx, bottom: SetIdx)
    requires RepOk(g, s) && top in s.chunks && bottom in s.chunks && top < |s.sets| && bottom < |s.sets|
    requires ClosedGraph(g) && exists d <- DepsOf(g) :: d.parent in SetTxs(s, top) && d.child in SetTxs(s, bottom)
    ensures s.sets[top].txs <= s.tx.Keys && exists p <- s.sets[top].txs :: s.tx[p].children * s.sets[bottom].txs != {}
  {
    hide RepOk, DepsOf, ClosedGraph;
    ChunkMembers(g, s, top);
    ChunkMembers(g, s, bottom);
    var d :| d in DepsOf(g) && d.parent in SetTxs(s, top) && d.child in SetTxs(s, bottom);
    assert Dep(d.parent, d.child) == d;
    ChildOf(g, s, d.parent, d.child);
    assert d.child in s.tx[d.parent].children * s.sets[bottom].txs;
  }

  lemma {:induction false} StoredJoins(g: Graph, s: Store, top: SetIdx, bottom: SetIdx, p: TxIdx, c: TxIdx)
    requires ValidStore(g, s) && top in s.chunks && bottom in s.chunks && top != bottom && top < |s.sets| && bottom < |s.sets|
    requires p in s.sets[top].txs && p in s.tx && c in s.sets[bottom].txs && c in s.tx[p].children
    ensures Joins(g, s, p, c) && s.tx[p].chunk == top && s.tx[c].chunk == bottom
  {
    hide RepOk, DepsOf, ValidForest, ReducedParents, ReducedChildren;
    ChunkMembers(g, s, bottom);
    ChunkIs(g, s, top, p);
    ChunkIs(g, s, bottom, c);
    TxFacts(g, s, p);
    TxFacts(g, s, c);
    ReductionIsDual(g, p, c);
    DepMeaning(g, Dep(p, c));
  }

  /** Chunk `x` has absorbed, as chunk `y`, the lowest chunk above it, to which `d` leads. */
  ghost predicate MergesLowest(g: Graph, down: bool, s: Store, r: Store, x: SetIdx, y: SetIdx, d: Dep)
    requires ClosedGraph(g)
  {
    var ch, m := ChunksOf(s), SetTxs(s, x);
    && LowestAbove(Directed(g, down), ch, m, d)
    && ChunksOf(r) == MergeChunks(ch, m, ch[d.parent]) && SetTxs(r, y) == m + ch[d.parent]
    && exists z :: MergedStore(g, s, r, x, z, y)
  }

  lemma {:induction false} LowestIsDep(g: Graph, s: Store, down: bool, x: SetIdx, y: SetIdx, d: Dep)
    requires ValidStore(g, s) && ClosedGraph(g) && x in s.chunks && y in s.chunks && x != y && x < |s.sets| && y < |s.sets|
    requires LowestAbove(Directed(g, down), ChunksOf(s), s.sets[x].txs, d) && ChunksOf(s)[d.parent] == s.sets[y].txs
    ensures exists e <- DepsOf(g) :: && e.parent in SetTxs(s, if down then x else y) && e.child in SetTxs(s, if down then y else x)
  {
    hide RepOk, ValidForest, DepsOf, ClosedGraph, Directed, Rate;
    var e := if down then Dep(d.child, d.parent) else d;
    assert DirectedDep(e.parent, e.child, down) == d;
    DirectedHas(g, down, e.parent, e.child);
    assert Dep(e.parent, e.child) == e;
    ChunkSets(g, s, d.parent);
  }

  lemma {:induction false} LowestMerged(g: Graph, down: bool, s: Store, r: Store, x: SetIdx, y: SetIdx, merged: SetIdx, d: Dep)
    requires ClosedGraph(g) && x < |s.sets| && y < |s.sets|
    requires LowestAbove(Directed(g, down), ChunksOf(s), s.sets[x].txs, d) && ChunksOf(s)[d.parent] == s.sets[y].txs
    requires MergedStore(g, s, r, x, y, merged)
    ensures MergesLowest(g, down, s, r, x, merged, d) && ValidStore(g, r)
  {
    hide ClosedGraph, Directed, Rate, AllWorked, RepOk, ValidForest;
    assert d.parent in ChunksOf(s);
  }

  /** The queue of chunks to optimize holds every index of `idxs` once, and nothing else. */
  ghost predicate QueueOk(queue: seq<SetIdx>, idxs: set<SetIdx>) {
    && (forall i, j | 0 <= i < j < |queue| :: queue[i] != queue[j])
    && idxs == set x <- queue
  }

  lemma {:induction false} QueueLength(queue: seq<SetIdx>, idxs: set<SetIdx>)
    requires QueueOk(queue, idxs)
    ensures |queue| == |idxs|
    decreases |queue|
  {
    if queue != [] {
      var n := |queue| - 1;
      var rest := set x <- queue[..n];
      QueueLength(queue[..n], rest);
      assert queue == queue[..n] + [queue[n]];
      assert idxs == rest + {queue[n]} && queue[n] !in rest;
    } else {
      assert idxs == {};
    }
  }

  ghost predicate IdxsBelow(idxs: set<SetIdx>, n: nat) {
    forall x <- idxs :: x < n
  }

  lemma {:induction false} IdxAdded(idxs: set<SetIdx>, x: SetIdx, n: nat)
    requires IdxsBelow(idxs, n) && x < n
    ensures IdxsBelow(idxs + {x}, n)
  {}

  lemma {:induction false} ValidFacts(g: Graph, s: Store)
    requires ValidStore(g, s)
    ensures ValidGraph(g) && ClosedGraph(g) && s.tx.Keys == g.anc.Keys
  {
    hide RepOk, ValidForest;
    StoreFacts(g, s);
  }

  lemma {:induction false} ValidChunkCount(g: Graph, s: Store)
    requires ValidStore(g, s)
    ensures |s.chunks| <= |g.anc|
  {
    hide RepOk, ValidForest;
    ChunkCount(g, s);
  }

  lemma {:induction false} MergedIdx(g: Graph, s: Store, r: Store, a: SetIdx, b: SetIdx, y: SetIdx)
    requires MergedStore(g, s, r, a, b, y) && RepOk(g, s)
    ensures y < |s.sets|
  {
    hide RepOk;
    ChunkMembers(g, s, a);
    ChunkMembers(g, s, b);
  }

  ghost function ChunkIdxsOf(tx: TxMap, a: Txs): set<SetIdx> {
    set v <- a | v in tx :: tx[v].chunk
  }

  lemma {:induction false} ChunkIdxsSize(tx: TxMap, a: Txs)
    ensures |ChunkIdxsOf(tx, a)| <= |a|
    decreases |a|
  {
    if v :| v in a {
      ChunkIdxsSize(tx, a - {v});
      assert ChunkIdxsOf(tx, a) == ChunkIdxsOf(tx, a - {v}) + if v in tx then {tx[v].chunk} else {};
    } else {
      assert ChunkIdxsOf(tx, a) == {};
    }
  }

  /** There are no more chunks than transactions. */
  lemma {:induction false} ChunkCount(g: Graph, s: Store)
    requires RepOk(g, s)
    ensures |s.chunks| <= |g.anc|
  {
    hide RepOk;
    StoreFacts(g, s);
    forall x <- s.chunks ensures x in ChunkIdxsOf(s.tx, g.anc.Keys) { ChunkHasTx(g, s, x); }
    ChunkIdxsSize(s.tx, g.anc.Keys);
    SubsetSize(s.chunks, ChunkIdxsOf(s.tx, g.anc.Keys));
  }

  lemma {:induction false} ChunkHasTx(g: Graph, s: Store, x: SetIdx)
    requires RepOk(g, s) && x in s.chunks
    ensures exists v <- s.tx :: s.tx[v].chunk == x
  {
    hide RepOk;
    ChunkFacts(g, s, x);
    var v :| v in s.sets[x].txs;
  }

  lemma {:induction false} ChunkSize(g: Graph, s: Store, x: SetIdx)
    requires RepOk(g, s) && x in s.chunks
    ensures x < |s.sets| && |s.sets[x].txs| <= |g.anc|
  {
    hide RepOk;
    StoreFacts(g, s);
    ChunkMembers(g, s, x);
    SubsetSize(s.sets[x].txs, g.anc.Keys);
  }

  lemma {:induction false} ReachSize(g: Graph, s: Store, x: SetIdx, down: bool)
    requires RepOk(g, s) && x in s.chunks && x < |s.sets| == |s.reach|
    ensures |ReachIn(s.reach[x], down)| <= |g.anc|
  {
    hide RepOk, ReachIn, Directed;
    StoreFacts(g, s);
    forall u <- ReachIn(s.reach[x], down) ensures u in g.anc { var _ := ReachWitness(g, s, x, down, u); }
    SubsetSize(ReachIn(s.reach[x], down), g.anc.Keys);
  }

  lemma {:induction false} QueueInsert(queue: seq<SetIdx>, idxs: set<SetIdx>, x: SetIdx, j: nat)
    requires QueueOk(queue, idxs) && x !in idxs && j <= |queue|
    ensures QueueOk(queue + [x], idxs + {x})
    ensures j < |queue| ==> QueueOk((queue + [x])[|queue| := queue[j]][j := x], idxs + {x})
  {
    if j < |queue| {
      var q := (queue + [x])[|queue| := queue[j]][j := x];
      forall y <- idxs + {x} ensures y in q {
        if y == x {
          assert q[j] == x;
        } else {
          var k :| 0 <= k < |queue| && queue[k] == y;
          assert q[if k == j then |queue| else k] == y;
        }
      }
    }
  }

  lemma {:induction false} QueueTail(queue: seq<SetIdx>, idxs: set<SetIdx>)
    requires QueueOk(queue, idxs) && queue != []
    ensures queue[0] in idxs && QueueOk(queue[1..], idxs - {queue[0]})
  {
    forall y <- idxs - {queue[0]} ensures y in queue[1..] {
      var k :| 0 <= k < |queue| && queue[k] == y;
      assert queue[1..][k - 1] == y;
    }
  }

  lemma {:induction false} QueueEmpty(idxs: set<SetIdx>)
    requires QueueOk([], idxs)
    ensures idxs == {}
  {}

  ghost predicate SameLabels(s: Store, r: Store, region: Txs) {
    r.tx.Keys == s.tx.Keys && forall v <- s.tx | v !in region :: r.tx[v].chunk == s.tx[v].chunk
  }

  /** A merge sequence that began in the store `s0` with the chunk `first` and now works on chunk `y` of `s`. */
  ghost predicate InSequence(g: Graph, down: bool, s0: Store, s: Store, region: Txs, first: Txs, y: SetIdx, theta: real, skip: set<SetIdx>) {
    && ClosedGraph(g) && y in s.chunks
    && Running(Directed(g, down), ChunksOf(s0), ChunksOf(s), region, first, SetTxs(s, y), theta)
    && AllWorked(g, s, skip + {y})
    && SameLabels(s0, s, region)
  }

  lemma {:induction false} MoreSkipped(g: Graph, s: Store, a: set<SetIdx>, b: set<SetIdx>)
    requires AllWorked(g, s, a) && forall x <- s.chunks | x in a :: x in b
    ensures AllWorked(g, s, b)
  {
    hide NothingToSplit;
  }

  lemma {:induction false} StoreSequenceDone(g: Graph, down: bool, s0: Store, s: Store, region: Txs, first: Txs, y: SetIdx, theta: real, skip: set<SetIdx>)
    requires InSequence(g, down, s0, s, region, first, y, theta, skip)
    requires NoMergeLeft(Directed(g, down), ChunksOf(s), SetTxs(s, y))
    ensures Settled(Directed(g, down), ChunksOf(s0), ChunksOf(s), region, first, theta)
    ensures AllWorked(g, s, skip + {y}) && SameLabels(s0, s, region)
  {
    hide Running, Settled, NoMergeLeft, AllWorked, ChunksOf, SetTxs, SameLabels, Directed;
    RunDone(Directed(g, down), ChunksOf(s0), ChunksOf(s), region, first, SetTxs(s, y), theta);
  }

  lemma {:induction false} StoreSequenceStep(g: Graph, down: bool, s0: Store, s: Store, r: Store, region: Txs, first: Txs, y: SetIdx, y': SetIdx, d: Dep, theta: real, skip: set<SetIdx>)
    requires InSequence(g, down, s0, s, region, first, y, theta, skip)
    requires MergesLowest(g, down, s, r, y, y', d)
    ensures InSequence(g, down, s0, r, region, first, y', theta, skip)
    ensures y' in r.chunks && |r.chunks| < |s.chunks|
  {
    hide Running, Rate, AllWorked, ChunksOf, SetTxs, Directed, ClosedGraph, ValidStore;
    var n, ch, m := Directed(g, down), ChunksOf(s), SetTxs(s, y);
    RunStep(n, ChunksOf(s0), ch, region, first, m, theta, d);
    SequenceInside(n, ChunksOf(s0), ch, region, first, m, theta, d);
    var z :| MergedStore(g, s, r, y, z, y');
    assert AllWorked(g, r, skip + {y} + {y'});
    MoreSkipped(g, r, skip + {y} + {y'}, skip + {y'});
    forall v <- s0.tx | v !in region ensures r.tx[v].chunk == s0.tx[v].chunk {
      assert v !in m + ch[d.parent];
      assert m + SetTxs(s, z) == m + ch[d.parent];
      assert v !in SetTxs(s, z);
    }
  }

  lemma {:induction false} SequenceInside(n: Net, before: Chunks, ch: Chunks, region: Txs, first: Txs, m: Txs, theta: real, d: Dep)
    requires Running(n, before, ch, region, first, m, theta) && LowestAbove(n, ch, m, d)
    ensures m <= region && ch[d.parent] <= region
  {
    hide Rate, OnlyBad, DiagramHeld, ExactBelow, RatesAbove;
    var u :| u in region && ch[u] == m;
    assert d.parent in region;
  }

  // ----- An improvement, step by step

  /** At no feerate does `after` earn less than `before`. */
  ghost predicate NotWorse(g: Graph, before: Chunks, after: Chunks) {
    forall lam: real :: Diagram(g.fees, lam, after.Values) >= Diagram(g.fees, lam, before.Values)
  }

  ghost predicate HigherAt(g: Graph, before: Chunks, after: Chunks, lam: real) {
    Diagram(g.fees, lam, after.Values) > Diagram(g.fees, lam, before.Values)
  }

  /** The chunks are the same, or at the feerate of one of them the diagram is strictly higher than it was. */
  ghost predicate SameOrHigher(g: Graph, before: Chunks, after: Chunks) {
    after == before || exists v <- before :: HigherAt(g, before, after, Rate(g.fees, before[v]))
  }

  ghost predicate Improvable(g: Graph, s: Store, p: TxIdx, c: TxIdx, queued: set<SetIdx>) {
    && ClosedGraph(g) && Topological(NetOf(g), ChunksOf(s))
    && p in s.tx && c in s.tx[p].depTop
    && Rate(g.fees, SetTxs(s, s.tx[p].depTop[c])) > Rate(g.fees, SetTxs(s, s.tx[p].chunk))
    && AllWorked(g, s, queued + {s.tx[p].chunk})
  }

  lemma {:induction false} SplitFacts(g: Graph, s: Store, r: Store, x: SetIdx, pi: SetIdx, t: Txs, queued: set<SetIdx>)
    requires SplitStore(g, s, r, x, pi, t) && AllWorked(g, s, queued + {x})
    ensures ValidStore(g, r) && x in r.chunks && pi in r.chunks && x != pi && x in s.chunks
    ensures AllWorked(g, r, queued + {x} + {pi})
    ensures SetTxs(r, pi) == t && SetTxs(r, x) == SetTxs(s, x) - t
  {
    hide ValidStore, AllWorked, ChunksOf;
    MoreSkipped(g, r, queued + {x} + {x} + {pi}, queued + {x} + {pi});
  }

  /** Chunk `x` of a topological state was split, its better part `t` is now chunk `pi`, and all else is worked or queued. */
  ghost predicate Parted(g: Graph, s: Store, s1: Store, p: TxIdx, x: SetIdx, pi: SetIdx, t: Txs, queued: set<SetIdx>) {
    && ValidStore(g, s) && p in s.tx && ChunksOf(s)[p] == SetTxs(s, x) && SplitStore(g, s, s1, x, pi, t) && ValidStore(g, s1)
    && AllWorked(g, s1, queued + {x} + {pi})
    && ClosedGraph(g) && Topological(NetOf(g), ChunksOf(s)) && Rate(g.fees, t) > Rate(g.fees, SetTxs(s, x))
  }

  /** The part `t` was merged upward for as long as possible, and nothing else changed. */
  ghost predicate TopMerged(g: Graph, s: Store, s1: Store, s2: Store, x: SetIdx, t: Txs, queued: set<SetIdx>) {
    ClosedGraph(g) && ValidStore(g, s2) && AllWorked(g, s2, queued + {x}) &&
    var theta := Rate(g.fees, SetTxs(s, x));
    var up := AboveRate(NetOf(g), ChunksOf(s1), theta);
    Settled(Directed(g, false), ChunksOf(s1), ChunksOf(s2), up, t, theta) && SameLabels(s1, s2, up)
  }

  lemma {:induction false} PartedCount(g: Graph, s: Store, s1: Store, p: TxIdx, x: SetIdx, pi: SetIdx, t: Txs, queued: set<SetIdx>)
    requires Parted(g, s, s1, p, x, pi, t, queued)
    ensures |s1.chunks| <= |g.anc|
  {
    hide ValidStore, AllWorked, ChunksOf, Topological, ClosedGraph, Rate, SplitStore;
    ValidChunkCount(g, s1);
  }

  lemma {:induction false} PartedFacts(g: Graph, s: Store, s1: Store, p: TxIdx, x: SetIdx, pi: SetIdx, t: Txs, queued: set<SetIdx>)
    requires Parted(g, s, s1, p, x, pi, t, queued)
    ensures SetTxs(s1, pi) == t && SetTxs(s1, x) == SetTxs(s, x) - t
  {
    hide ValidStore, AllWorked, ChunksOf, Topological, ClosedGraph, Rate;
  }

  lemma {:induction false} RejoinedChunks(g: Graph, s: Store, s1: Store, r: Store, p: TxIdx, x: SetIdx, pi: SetIdx, y: SetIdx, t: Txs)
    requires ValidStore(g, s) && p in s.tx && ChunksOf(s)[p] == SetTxs(s, x)
    requires SplitStore(g, s, s1, x, pi, t) && MergedStore(g, s1, r, x, pi, y)
    ensures ChunksOf(r) == ChunksOf(s)
  {
    hide AllWorked, RepOk, ValidForest, ChunksOf, ValidGraph, ValidNet, Partitions, Directed, MergeChunks, SplitChunk, Worked, Rate;
    NetFacts(g, s);
    SplitThenMerge(g.anc.Keys, ChunksOf(s), p, t);
  }

  lemma {:induction false} SelfMerged(g: Graph, s: Store, s1: Store, r: Store, p: TxIdx, x: SetIdx, pi: SetIdx, y: SetIdx, t: Txs, queued: set<SetIdx>)
    requires ValidStore(g, s) && p in s.tx && ChunksOf(s)[p] == SetTxs(s, x)
    requires SplitStore(g, s, s1, x, pi, t) && AllWorked(g, s1, queued + {x} + {pi})
    requires MergedStore(g, s1, r, x, pi, y)
    ensures ValidStore(g, r) && ChunksOf(r) == ChunksOf(s) && NotWorse(g, ChunksOf(s), ChunksOf(r))
    ensures AllWorked(g, r, queued + {x} + {pi} + {y})
    ensures forall z <- r.chunks | z in queued + {x} + {pi} + {y} :: z in queued + {y}
  {
    hide AllWorked, ValidStore, ChunksOf, NotWorse, MergeChunks, SplitChunk, Worked, Rate;
    RejoinedChunks(g, s, s1, r, p, x, pi, y, t);
    SameNotWorse(g, ChunksOf(s));
  }

  lemma {:induction false} NetFacts(g: Graph, s: Store)
    requires ValidStore(g, s)
    ensures ValidGraph(g) && ValidNet(NetOf(g)) && NetOf(g).txs == g.anc.Keys && Partitions(g.anc.Keys, ChunksOf(s)) && NetOf(g).fees == g.fees
    ensures Directed(g, false) == NetOf(g) && Directed(g, true) == Flip(NetOf(g))
    ensures s.tx.Keys == g.anc.Keys == ChunksOf(s).Keys && PositiveSizes(g.fees)
  {
    hide RepOk, ValidForest, DepsOf;
    StoreFacts(g, s);
    NetValid(g);
    PartitionOf(g, s);
  }

  lemma {:induction false} TopBegins(g: Graph, s: Store, s1: Store, p: TxIdx, x: SetIdx, pi: SetIdx, t: Txs, queued: set<SetIdx>)
    requires ValidStore(g, s) && p in s.tx && ChunksOf(s)[p] == SetTxs(s, x)
    requires SplitStore(g, s, s1, x, pi, t) && AllWorked(g, s1, queued + {x} + {pi})
    requires ClosedGraph(g) && Topological(NetOf(g), ChunksOf(s)) && Rate(g.fees, t) > Rate(g.fees, SetTxs(s, x))
    requires !exists d <- DepsOf(g) :: d.parent in SetTxs(s1, x) && d.child in SetTxs(s1, pi)
    ensures var theta := Rate(g.fees, SetTxs(s, x));
            InSequence(g, false, s1, s1, AboveRate(NetOf(g), ChunksOf(s1), theta), SetTxs(s1, pi), pi, theta, queued + {x})
  {
    hide AllWorked, RepOk, ValidForest, ChunksOf, Rate, ClosedGraph, Topological, MergeState, Running, DepsOf, ValidGraph, ValidNet,
      Partitions;
    NetFacts(g, s);
    NetFacts(g, s1);
    var n, theta := NetOf(g), Rate(g.fees, SetTxs(s, x));
    SplitState(n, ChunksOf(s), p, t);
    RunStart(n, ChunksOf(s1), AboveRate(n, ChunksOf(s1), theta), t, theta);
  }

  lemma {:induction false} BottomStays(g: Graph, s1: Store, s2: Store, x: SetIdx, up: Txs)
    requires RepOk(g, s1) && RepOk(g, s2) && x in s1.chunks && SameLabels(s1, s2, up) && SetTxs(s1, x) !! up
    requires SameOutside(ChunksOf(s1), ChunksOf(s2), up)
    ensures x in s2.chunks && SetTxs(s2, x) == SetTxs(s1, x)
  {
    hide RepOk, ReachOf;
    ChunkFacts(g, s1, x);
    var v :| v in s1.sets[x].txs;
    ChunkSets(g, s2, v);
    ChunkSets(g, s1, v);
  }

  lemma {:induction false} BottomBegins(g: Graph, s: Store, s1: Store, s2: Store, p: TxIdx, x: SetIdx, pi: SetIdx, t: Txs, queued: set<SetIdx>)
    requires ValidStore(g, s) && ValidStore(g, s2) && p in s.tx && ChunksOf(s)[p] == SetTxs(s, x)
    requires SplitStore(g, s, s1, x, pi, t)
    requires ClosedGraph(g) && Topological(NetOf(g), ChunksOf(s)) && Rate(g.fees, t) > Rate(g.fees, SetTxs(s, x))
    requires !exists d <- DepsOf(g) :: d.parent in SetTxs(s1, x) && d.child in SetTxs(s1, pi)
    requires var theta := Rate(g.fees, SetTxs(s, x));
             var up := AboveRate(NetOf(g), ChunksOf(s1), theta);
             && Settled(Directed(g, false), ChunksOf(s1), ChunksOf(s2), up, t, theta) && SameLabels(s1, s2, up)
    requires AllWorked(g, s2, queued + {x})
    ensures x in s2.chunks && SetTxs(s2, x) == SetTxs(s, x) - t
    ensures var theta := Rate(g.fees, SetTxs(s, x));
            InSequence(g, true, s2, s2, AboveRate(Flip(NetOf(g)), ChunksOf(s1), -theta), SetTxs(s2, x), x, -theta, queued + {})
  {
    hide AllWorked, RepOk, ValidForest, ChunksOf, Rate, ClosedGraph, Topological, MergeState, Running, DepsOf, ExactBelow, Diagram,
      ValidGraph, ValidNet, Partitions, Region, TopologicalIn, SplitChunk;
    NetFacts(g, s);
    NetFacts(g, s1);
    NetFacts(g, s2);
    var n, theta := NetOf(g), Rate(g.fees, SetTxs(s, x));
    var up := AboveRate(n, ChunksOf(s1), theta);
    OtherPart(g.fees, SetTxs(s, x), t);
    BottomNotAbove(g, s1, x, theta);
    BottomStays(g, s1, s2, x, up);
    BottomStart(n, ChunksOf(s), p, t, ChunksOf(s2));
    MoreSkipped(g, s2, queued + {x}, queued + {} + {x});
  }

  lemma {:induction false} BottomNotAbove(g: Graph, s: Store, x: SetIdx, theta: real)
    requires ValidStore(g, s) && ClosedGraph(g) && x in s.chunks && Rate(g.fees, SetTxs(s, x)) < theta
    ensures SetTxs(s, x) !! AboveRate(NetOf(g), ChunksOf(s), theta)
  {
    hide RepOk, ValidForest, Rate, ClosedGraph, ReachOf, DepsOf;
    ChunkFacts(g, s, x);
    forall v <- SetTxs(s, x) ensures v !in AboveRate(NetOf(g), ChunksOf(s), theta) {
      ChunkSets(g, s, v);
    }
  }

  lemma {:induction false} Improves(g: Graph, s: Store, s1: Store, s2: Store, s3: Store, p: TxIdx, x: SetIdx, pi: SetIdx, t: Txs)
    requires ValidStore(g, s) && p in s.tx && ChunksOf(s)[p] == SetTxs(s, x)
    requires SplitStore(g, s, s1, x, pi, t)
    requires ClosedGraph(g) && Topological(NetOf(g), ChunksOf(s)) && Rate(g.fees, t) > Rate(g.fees, SetTxs(s, x))
    requires var theta := Rate(g.fees, SetTxs(s, x));
             var up, down := AboveRate(NetOf(g), ChunksOf(s1), theta), AboveRate(Flip(NetOf(g)), ChunksOf(s1), -theta);
             && Settled(Directed(g, false), ChunksOf(s1), ChunksOf(s2), up, t, theta)
             && Settled(Directed(g, true), ChunksOf(s2), ChunksOf(s3), down, SetTxs(s, x) - t, -theta)
    ensures Topological(NetOf(g), ChunksOf(s3)) && NotWorse(g, ChunksOf(s), ChunksOf(s3))
    ensures p in ChunksOf(s) && HigherAt(g, ChunksOf(s), ChunksOf(s3), Rate(g.fees, ChunksOf(s)[p]))
  {
    hide AllWorked, RepOk, ValidForest, ChunksOf, Rate, ClosedGraph, Topological, Settled, DepsOf, Diagram, ValidGraph, ValidNet, Partitions;
    NetFacts(g, s);
    var n := NetOf(g);
    assert Improved(n, ChunksOf(s), p, t, ChunksOf(s2), ChunksOf(s3));
    ImprovedTopological(n, ChunksOf(s), p, t, ChunksOf(s2), ChunksOf(s3));
    ImprovedStrictly(n, ChunksOf(s), p, t, ChunksOf(s2), ChunksOf(s3));
    forall lam: real ensures Diagram(g.fees, lam, ChunksOf(s3).Values) >= Diagram(g.fees, lam, ChunksOf(s).Values) {
      ImprovedDiagram(n, ChunksOf(s), p, t, ChunksOf(s2), ChunksOf(s3), lam);
    }
  }

  /** The state is topological, worked but for what is queued, and better than before at the old feerate of the chunk of `p`. */
  ghost predicate ImprovedTo(g: Graph, s: Store, r: Store, p: TxIdx, queued: set<SetIdx>) {
    && ClosedGraph(g) && ValidStore(g, r) && AllWorked(g, r, queued) && Topological(NetOf(g), ChunksOf(r)) && NotWorse(g, ChunksOf(s), ChunksOf(r))
    && p in ChunksOf(s) && HigherAt(g, ChunksOf(s), ChunksOf(r), Rate(g.fees, ChunksOf(s)[p]))
  }

  /** The region in which the bottom of a split chunk is merged. */
  ghost function LowRegion(g: Graph, s: Store, s1: Store, x: SetIdx): Txs
    requires ClosedGraph(g)
  {
    AboveRate(Flip(NetOf(g)), ChunksOf(s1), -Rate(g.fees, SetTxs(s, x)))
  }

  lemma {:induction false} BottomReady(g: Graph, s: Store, s1: Store, s2: Store, p: TxIdx, x: SetIdx, pi: SetIdx, t: Txs, queued0: set<SetIdx>, queued: set<SetIdx>)
    requires Parted(g, s, s1, p, x, pi, t, queued0) && TopMerged(g, s, s1, s2, x, t, queued)
    requires !exists d <- DepsOf(g) :: d.parent in SetTxs(s1, x) && d.child in SetTxs(s1, pi)
    ensures ClosedGraph(g) && ValidStore(g, s2) && x in s2.chunks && SetTxs(s2, x) == SetTxs(s, x) - t
    ensures InSequence(g, true, s2, s2, LowRegion(g, s, s1, x), SetTxs(s2, x), x, -Rate(g.fees, SetTxs(s, x)), queued + {})
  {
    hide ValidStore, AllWorked, ClosedGraph, ChunksOf, Rate, Topological, SplitStore, InSequence, Settled, SameLabels, NetOf, DepsOf, AboveRate,
      Flip, SetTxs, Directed;
    BottomBegins(g, s, s1, s2, p, x, pi, t, queued);
  }

  lemma {:induction false} BottomDone(g: Graph, s: Store, s1: Store, s2: Store, s3: Store, p: TxIdx, x: SetIdx, pi: SetIdx, t: Txs, queued0: set<SetIdx>, queued: set<SetIdx>, now: set<SetIdx>)
    requires Parted(g, s, s1, p, x, pi, t, queued0) && TopMerged(g, s, s1, s2, x, t, queued) && ValidStore(g, s3) && AllWorked(g, s3, now + {})
    requires Settled(Directed(g, true), ChunksOf(s2), ChunksOf(s3), LowRegion(g, s, s1, x), SetTxs(s, x) - t, -Rate(g.fees, SetTxs(s, x)))
    ensures ImprovedTo(g, s, s3, p, now)
  {
    hide ValidStore, AllWorked, ClosedGraph, ChunksOf, Rate, Topological, SplitStore, Settled, SameLabels, NetOf, DepsOf, AboveRate, Flip, SetTxs,
      Directed, NotWorse, HigherAt;
    Improves(g, s, s1, s2, s3, p, x, pi, t);
    assert now + {} == now;
  }

  // ----- Loading a linearization, step by step

  /** If `lin` is valid, its first `i` transactions are loaded well in `s`. */
  ghost predicate LoadedUpTo(g: Graph, lin: seq<TxIdx>, i: nat, s: Store)
    requires i <= |lin| && ClosedGraph(g)
  {
    ValidOrder(g, lin) ==> LoadState(NetOf(g), ChunksOf(s), Elems(lin[..i])) && LoadedWell(NetOf(g), ChunksOf(s), lin, i)
  }

  /** If `lin` is valid, chunk `x` of `s` is what has become of its transaction at `i` since `s0`. */
  ghost predicate LoadingAt(g: Graph, lin: seq<TxIdx>, i: nat, s0: Store, s: Store, x: SetIdx)
    requires i < |lin| && ClosedGraph(g)
  {
    ValidOrder(g, lin) ==>
      && Loads(NetOf(g), ChunksOf(s0), ChunksOf(s), Elems(lin[..i]), lin[i], SetTxs(s, x))
      && LoadedWell(NetOf(g), ChunksOf(s0), lin, i)
  }

  lemma {:induction false} PrefixClosed(g: Graph, lin: seq<TxIdx>, i: nat)
    requires ClosedGraph(g) && ValidOrder(g, lin) && i <= |lin|
    ensures AncestorClosed(DepsOf(g), Elems(lin[..i])) && Elems(lin[..i]) <= g.anc.Keys
  {
    hide DepsOf, ClosedGraph;
    forall d <- DepsOf(g) | d.child in Elems(lin[..i]) ensures d.parent in Elems(lin[..i]) {
      DepIsAncestor(g, d);
      var j :| 0 <= j < i && lin[j] == d.child;
      assert g.anc[lin[j]] <= Elems(lin[..j + 1]);
      var k :| 0 <= k <= j && lin[k] == d.parent;
    }
  }

  lemma {:induction false} DepIsAncestor(g: Graph, d: Dep)
    requires ClosedGraph(g) && d in DepsOf(g)
    ensures d.parent in g.anc && d.child in g.anc && d.parent in g.anc[d.child]
  {}

  lemma {:induction false} NextElem(lin: seq<TxIdx>, i: nat)
    requires i < |lin|
    ensures Elems(lin[..i + 1]) == Elems(lin[..i]) + {lin[i]}
  {
    assert lin[..i + 1] == lin[..i] + [lin[i]];
  }

  lemma {:induction false} LoadBegins(g: Graph, lin: seq<TxIdx>, i: nat, s: Store)
    requires ValidStore(g, s) && ClosedGraph(g) && i < |lin| && LoadedUpTo(g, lin, i, s) && lin[i] in s.tx
    ensures LoadingAt(g, lin, i, s, s, s.tx[lin[i]].chunk)
  {
    hide RepOk, ValidForest, DepsOf, ClosedGraph, Topological, LoadedWell, Loads;
    if ValidOrder(g, lin) {
      PrefixClosed(g, lin, i + 1);
      NextElem(lin, i);
      NotYet(lin, i);
      NetFacts(g, s);
      LoadsStart(NetOf(g), ChunksOf(s), Elems(lin[..i]), lin[i]);
    }
  }

  lemma {:induction false} NotYet(lin: seq<TxIdx>, i: nat)
    requires i < |lin| && forall j | 0 <= j < i :: lin[j] != lin[i]
    ensures lin[i] !in Elems(lin[..i])
  {}

  lemma {:induction false} MemberOf(g: Graph, s: Store, x: SetIdx) returns (u: TxIdx)
    requires ValidStore(g, s) && x in s.chunks
    ensures u in ChunksOf(s) && ChunksOf(s)[u] == SetTxs(s, x)
  {
    hide RepOk, ValidForest, ReachOf;
    ChunkFacts(g, s, x);
    u :| u in s.sets[x].txs;
    ChunkSets(g, s, u);
    ChunkIs(g, s, x, u);
  }

  lemma {:induction false} LoadMerges(g: Graph, lin: seq<TxIdx>, i: nat, s0: Store, s: Store, r: Store, x: SetIdx, y: SetIdx, d: Dep)
    requires ValidStore(g, s) && ClosedGraph(g) && i < |lin| && x in s.chunks && LoadingAt(g, lin, i, s0, s, x)
    requires MergesLowest(g, false, s, r, x, y, d)
    ensures LoadingAt(g, lin, i, s0, r, y) && y in r.chunks && |r.chunks| < |s.chunks|
  {
    hide RepOk, ValidForest, DepsOf, ClosedGraph, LoadedWell, Loads, LowestAbove, MergeChunks, ValidOrder, ChunksOf, MergedStore, ValidStore;
    var z :| MergedStore(g, s, r, x, z, y);
    FewerChunks(g, s, r, x, z, y);
    if ValidOrder(g, lin) {
      var u := MemberOf(g, s, x);
      LoadsStep(NetOf(g), ChunksOf(s0), ChunksOf(s), Elems(lin[..i]), lin[i], SetTxs(s, x), d, u);
    }
  }

  lemma {:induction false} LoadEnds(g: Graph, lin: seq<TxIdx>, i: nat, s0: Store, s: Store, x: SetIdx)
    requires ClosedGraph(g) && i < |lin| && LoadingAt(g, lin, i, s0, s, x)
    requires NoMergeLeft(Directed(g, false), ChunksOf(s), SetTxs(s, x))
    ensures LoadedUpTo(g, lin, i + 1, s)
  {
    hide DepsOf, ClosedGraph, LoadedWell, Loads, ChunksOf, NoMergeLeft, LoadState, ValidOrder, Diagram;
    if ValidOrder(g, lin) {
      LoadsDone(NetOf(g), ChunksOf(s0), ChunksOf(s), Elems(lin[..i]), lin[i], SetTxs(s, x));
      NextElem(lin, i);
      LoadedWellStep(NetOf(g), ChunksOf(s0), ChunksOf(s), lin, i);
    }
  }

  lemma {:induction false} LoadNothing(g: Graph, lin: seq<TxIdx>, s: Store)
    requires ValidStore(g, s) && ClosedGraph(g) && forall v <- ChunksOf(s) :: ChunksOf(s)[v] == {v}
    ensures LoadedUpTo(g, lin, 0, s)
  {
    hide RepOk, ValidForest, DepsOf, ClosedGraph, LoadedWell, ValidOrder, ChunksOf;
    NetFacts(g, s);
    LoadedWellStart(NetOf(g), ChunksOf(s), lin);
    assert Elems(lin[..0]) == {};
  }

  lemma {:induction false} LoadedWhole(g: Graph, lin: seq<TxIdx>, s: Store)
    requires ClosedGraph(g) && LoadedUpTo(g, lin, |lin|, s) && ValidOrder(g, lin)
    ensures Topological(NetOf(g), ChunksOf(s)) && LoadedWell(NetOf(g), ChunksOf(s), lin, |lin|)
  {
    hide DepsOf, ClosedGraph, LoadedWell, Topological, ChunksOf, LoadState;
    assert lin[..|lin|] == lin;
    LoadedAll(NetOf(g), ChunksOf(s));
  }

  // ----- Making the state topological, step by step

  /** Chunk `x` is queued and will be merged in the given direction when its turn comes. */
  ghost predicate WillTry(x: SetIdx, down: bool, queued: set<SetIdx>, merged: set<SetIdx>, initDown: bool) {
    x in queued && (x in merged || initDown == down)
  }

  /** Every dependency is good, or will be looked at from its child's or from its parent's chunk. */
  ghost predicate Untangling(g: Graph, s: Store, queued: set<SetIdx>, merged: set<SetIdx>, initDown: bool) {
    && ClosedGraph(g)
    && forall d <- DepsOf(g) :: DepCovered(g, s, queued, merged, initDown, d)
  }

  ghost predicate DepCovered(g: Graph, s: Store, queued: set<SetIdx>, merged: set<SetIdx>, initDown: bool, d: Dep)
    requires ClosedGraph(g)
  {
    && d.parent in s.tx && d.child in s.tx
    && (|| GoodDep(NetOf(g), ChunksOf(s), d)
        || WillTry(s.tx[d.child].chunk, false, queued, merged, initDown)
        || WillTry(s.tx[d.parent].chunk, true, queued, merged, initDown))
  }

  lemma {:induction false} UntanglingStart(g: Graph, s: Store, initDown: bool)
    requires ValidStore(g, s)
    ensures Untangling(g, s, s.chunks, {}, initDown)
  {
    hide RepOk, ValidForest, DepsOf, ClosedGraph, ChunksOf, GoodDep, TopsDistinct;
    StoreFacts(g, s);
    forall d <- DepsOf(g) ensures DepCovered(g, s, s.chunks, {}, initDown, d) {
      DepIsAncestor(g, d);
      TxFacts(g, s, d.child);
      TxFacts(g, s, d.parent);
    }
  }

  lemma {:induction false} UntanglingDone(g: Graph, s: Store, merged: set<SetIdx>, initDown: bool)
    requires Untangling(g, s, {}, merged, initDown)
    ensures ClosedGraph(g) && Topological(NetOf(g), ChunksOf(s))
  {
    hide DepsOf, ClosedGraph, ChunksOf, GoodDep;
    forall d <- NetOf(g).deps ensures GoodDep(NetOf(g), ChunksOf(s), d) {
      assert DepCovered(g, s, {}, merged, initDown, d);
    }
  }

  /** What was queued is no chunk any more. */
  lemma {:induction false} UntanglingStale(g: Graph, s: Store, queued: set<SetIdx>, merged: set<SetIdx>, initDown: bool, x: SetIdx)
    requires RepOk(g, s) && Untangling(g, s, queued, merged, initDown) && x !in s.chunks
    ensures Untangling(g, s, queued - {x}, merged, initDown)
  {
    hide RepOk, DepsOf, ClosedGraph, ChunksOf, GoodDep;
    forall d <- DepsOf(g) ensures DepCovered(g, s, queued - {x}, merged, initDown, d) {
      assert DepCovered(g, s, queued, merged, initDown, d);
      TxFacts(g, s, d.child);
      TxFacts(g, s, d.parent);
    }
  }

  /** The chunk `x` was looked at and found good in all directions it has to be tried in. */
  lemma {:induction false} UntanglingSettled(g: Graph, s: Store, queued: set<SetIdx>, merged: set<SetIdx>, initDown: bool, x: SetIdx)
    requires ValidStore(g, s) && Untangling(g, s, queued, merged, initDown) && x in s.chunks
    requires x in merged || !initDown ==> NoMergeLeft(Directed(g, false), ChunksOf(s), SetTxs(s, x))
    requires x in merged || initDown ==> NoMergeLeft(Directed(g, true), ChunksOf(s), SetTxs(s, x))
    ensures Untangling(g, s, queued - {x}, merged, initDown)
  {
    hide RepOk, ValidForest, DepsOf, ClosedGraph, ChunksOf, GoodDep, NoMergeLeft;
    forall d <- DepsOf(g) ensures DepCovered(g, s, queued - {x}, merged, initDown, d) {
      assert DepCovered(g, s, queued, merged, initDown, d);
      if WillTry(s.tx[d.child].chunk, false, queued, merged, initDown) && s.tx[d.child].chunk == x {
        SettledDep(g, s, x, false, d);
      }
      if WillTry(s.tx[d.parent].chunk, true, queued, merged, initDown) && s.tx[d.parent].chunk == x {
        SettledDep(g, s, x, true, d);
      }
    }
  }

  lemma {:induction false} SettledDep(g: Graph, s: Store, x: SetIdx, down: bool, d: Dep)
    requires ValidStore(g, s) && ClosedGraph(g) && x in s.chunks && d in DepsOf(g) && d.child in s.tx && d.parent in s.tx
    requires NoMergeLeft(Directed(g, down), ChunksOf(s), SetTxs(s, x))
    requires (if down then s.tx[d.parent].chunk else s.tx[d.child].chunk) == x
    ensures GoodDep(NetOf(g), ChunksOf(s), d)
  {
    hide RepOk, ValidForest, DepsOf, ClosedGraph, ChunksOf, Rate, TopsDistinct;
    NetFacts(g, s);
    ChunkSets(g, s, d.child);
    ChunkSets(g, s, d.parent);
    SameChunk(g, s, d.child, d.parent);
    var e := DirectedDep(d.parent, d.child, down);
    assert Dep(d.parent, d.child) == d;
    DirectedHas(g, down, d.parent, d.child);
    FlipGoodDep(NetOf(g), ChunksOf(s), d);
    if ChunksOf(s)[d.parent] != ChunksOf(s)[d.child] {
      assert Above(e, SetTxs(s, x)) by {
        SameChunk(g, s, d.parent, d.child);
      }
    }
  }

  lemma {:induction false} UntanglingMerged(g: Graph, s: Store, r: Store, queued: set<SetIdx>, merged: set<SetIdx>, initDown: bool,
                                            down: bool, x: SetIdx, y: SetIdx, e: Dep)
    requires ValidStore(g, s) && Untangling(g, s, queued, merged, initDown) && x in s.chunks
    requires MergesLowest(g, down, s, r, x, y, e)
    ensures Untangling(g, r, queued - {x} + {y}, merged + {y}, initDown) && |r.chunks| < |s.chunks|
  {
    hide RepOk, ValidForest, DepsOf, ClosedGraph, LowestAbove, GoodDep, ChunksOf, MergeChunks, MergedStore, ValidStore;
    var z :| MergedStore(g, s, r, x, z, y);
    FewerChunks(g, s, r, x, z, y);
    forall d <- DepsOf(g) ensures DepCovered(g, r, queued - {x} + {y}, merged + {y}, initDown, d) {
      assert DepCovered(g, s, queued, merged, initDown, d);
      MergedLabel(g, s, r, x, z, y, d.child);
      MergedLabel(g, s, r, x, z, y, d.parent);
      if r.tx[d.child].chunk != y && r.tx[d.parent].chunk != y {
        SameGood(NetOf(g), ChunksOf(s), ChunksOf(r), d);
      }
    }
  }

  /** From a topological state there is nothing to merge. */
  lemma {:induction false} TopologicalStays(g: Graph, s: Store, r: Store, down: bool, x: SetIdx, y: SetIdx, e: Dep)
    requires ValidStore(g, s) && ClosedGraph(g) && x in s.chunks && MergesLowest(g, down, s, r, x, y, e)
    ensures !Topological(NetOf(g), ChunksOf(s))
  {
    hide RepOk, ValidForest, Rate, DepsOf, ClosedGraph, ValidStore;
    FlipTopological(NetOf(g), ChunksOf(s));
    if Topological(NetOf(g), ChunksOf(s)) {
      assert GoodDep(Directed(g, down), ChunksOf(s), e);
      ChunkOfMember(g, s, x, e.child);
      assert false;
    }
  }

  lemma {:induction false} ChunkOfMember(g: Graph, s: Store, x: SetIdx, v: TxIdx)
    requires ValidStore(g, s) && x in s.chunks && v in SetTxs(s, x)
    ensures v in ChunksOf(s) && ChunksOf(s)[v] == SetTxs(s, x)
    ensures forall u <- ChunksOf(s) | u !in SetTxs(s, x) :: ChunksOf(s)[u] != SetTxs(s, x)
  {
    hide RepOk, ValidForest;
    ChunkMembers(g, s, x);
    ChunkIs(g, s, x, v);
    forall u <- ChunksOf(s) | u !in SetTxs(s, x) ensures ChunksOf(s)[u] != SetTxs(s, x) {
      ChunkSets(g, s, u);
    }
  }

  lemma {:induction false} SameGood(n: Net, a: Chunks, b: Chunks, d: Dep)
    requires d.parent in a && d.parent in b && d.child in a && d.child in b && a[d.parent] == b[d.parent] && a[d.child] == b[d.child]
    ensures GoodDep(n, a, d) <==> GoodDep(n, b, d)
  {
    hide Rate;
  }

  lemma {:induction false} FewerChunks(g: Graph, s: Store, r: Store, a: SetIdx, b: SetIdx, y: SetIdx)
    requires MergedStore(g, s, r, a, b, y)
    ensures y in r.chunks && |r.chunks| < |s.chunks|
  {
    hide ValidStore, ChunksOf, MergeChunks, AllWorked, Worked, Rate;
  }

  lemma {:induction false} MergedLabel(g: Graph, s: Store, r: Store, a: SetIdx, b: SetIdx, y: SetIdx, v: TxIdx)
    requires ValidStore(g, s) && MergedStore(g, s, r, a, b, y) && v in s.tx
    ensures v in r.tx && v in ChunksOf(s) && v in ChunksOf(r)
    ensures r.tx[v].chunk != y ==> r.tx[v].chunk == s.tx[v].chunk && s.tx[v].chunk != a && ChunksOf(r)[v] == ChunksOf(s)[v]
  {
    hide RepOk, ValidForest, AllWorked, ReachOf;
    ChunkFacts(g, r, y);
    ChunkIs(g, s, a, v);
    ChunkIs(g, s, b, v);
    ChunkIs(g, r, y, v);
  }

  // ----- Looking for a dependency to split on

  /** How the top of the active dependency of `c` on `p` compares with the chunk it is in. */
  lemma {:induction false} TopCompare(g: Graph, s: Store, p: TxIdx, c: TxIdx)
    requires Cuts(g, s, p, c)
    ensures CutRange(s, p, c)
    ensures var top, chunk := s.sets[s.tx[p].depTop[c]], s.sets[s.tx[p].chunk];
            var cmp := CompareByRatio(top.frac, chunk.frac);
            && (cmp < 0 <==> Rate(g.fees, top.txs) < Rate(g.fees, chunk.txs))
            && (cmp > 0 <==> Rate(g.fees, top.txs) > Rate(g.fees, chunk.txs))
  {
    hide RepOk, ValidForest, Total, ClosedGraph, CompareByRatio, TopsDistinct, Meaning;
    CutFacts(g, s, p, c);
    StoreFacts(g, s);
    FracFact(g, s, s.tx[p].depTop[c]);
    FracFact(g, s, s.tx[p].chunk);
    TotalSizePositive(g.fees, s.sets[s.tx[p].depTop[c]].txs);
    TotalSizePositive(g.fees, s.sets[s.tx[p].chunk].txs);
    CompareIsRatioOrder(s.sets[s.tx[p].depTop[c]].frac, s.sets[s.tx[p].chunk].frac);
  }

  /** The active dependencies whose top has a higher feerate than their chunk. */
  ghost function HigherTops(g: Graph, s: Store): set<Dep> {
    set d <- ActiveDeps(s.tx) | d.parent in s.tx
      && Rate(g.fees, SetTxs(s, TopIdx(s, d))) > Rate(g.fees, SetTxs(s, s.tx[d.parent].chunk))
  }

  /** A dependency of chunk `x` whose top has a higher feerate than the chunk. */
  ghost predicate Splits(g: Graph, s: Store, x: SetIdx, dep: (TxIdx, TxIdx)) {
    && dep.0 in s.tx && s.tx[dep.0].chunk == x
    && Cuts(g, s, dep.0, dep.1) && Dep(dep.0, dep.1) in HigherTops(g, s)
  }

  /** No active dependency that starts in `done`, other than those of `left` on `v`, is in `deps`. */
  ghost predicate NoneSeen(tx: TxMap, deps: set<Dep>, done: Txs, v: TxIdx, left: Txs) {
    forall d <- ActiveDeps(tx) | d.parent in done && (d.parent == v ==> d.child !in left) :: d !in deps
  }

  lemma {:induction false} NoneSeenYet(tx: TxMap, deps: set<Dep>)
    ensures NoneSeen(tx, deps, {}, 0, {})
  {}

  lemma {:induction false} SeeNextTx(tx: TxMap, deps: set<Dep>, done: Txs, v: TxIdx, u: TxIdx)
    requires NoneSeen(tx, deps, done, u, {}) && v in tx
    ensures NoneSeen(tx, deps, done + {v}, v, tx[v].active)
  {
    forall d <- ActiveDeps(tx) | d.parent in done + {v} && (d.parent == v ==> d.child !in tx[v].active) ensures d !in deps {
      ActiveDep(tx, d);
    }
  }

  lemma {:induction false} SeeNextChild(tx: TxMap, deps: set<Dep>, done: Txs, v: TxIdx, left: Txs, c: TxIdx)
    requires NoneSeen(tx, deps, done, v, left) && Dep(v, c) !in deps
    ensures NoneSeen(tx, deps, done, v, left - {c})
  {
    hide ActiveDeps;
    forall d <- ActiveDeps(tx) | d.parent in done && (d.parent == v ==> d.child !in left - {c}) ensures d !in deps {
      if d.parent == v && d.child == c { assert d == Dep(v, c); }
    }
  }

  lemma {:induction false} NoneHigher(g: Graph, s: Store, x: SetIdx, u: TxIdx)
    requires ValidStore(g, s) && x in s.chunks
    requires NoneSeen(s.tx, HigherTops(g, s), SetTxs(s, x), u, {})
    ensures NothingToSplit(g.fees, Meaning(s), SetTxs(s, x))
  {
    hide RepOk, ValidForest, Rate, ActiveDeps;
    forall e <- Meaning(s).active | Inside(e, SetTxs(s, x)) ensures Rate(g.fees, Meaning(s).top[e]) <= Rate(g.fees, SetTxs(s, x)) {
      ActiveDep(s.tx, e);
      ChunkIs(g, s, x, e.parent);
      assert e !in HigherTops(g, s);
    }
  }

  lemma {:induction false} SameNotWorse(g: Graph, ch: Chunks)
    ensures NotWorse(g, ch, ch)
  {}

  lemma {:induction false} WorkedNow(g: Graph, s: Store, skip: set<SetIdx>, x: SetIdx)
    requires AllWorked(g, s, skip + {x}) && NothingToSplit(g.fees, Meaning(s), SetTxs(s, x))
    ensures AllWorked(g, s, skip)
  {
    hide NothingToSplit, Meaning;
  }
}
