/** Which chunk to merge with, and what a merge step does to the partition. */
module Merging {
  import opened Wrappers
  import opened FeeRates
  import opened Forests
  import opened Topology
  import opened DepGraphs
  import opened ForestStore
  import opened Optimality
  import opened Minimality

  /** The net in which a merge in the given direction is an upward merge. */
  ghost function Directed(g: Graph, down: bool): Net
    requires ClosedGraph(g)
  {
    if down then Flip(NetOf(g)) else NetOf(g)
  }

  ghost function DirectedDep(p: TxIdx, c: TxIdx, down: bool): Dep {
    if down then Dep(c, p) else Dep(p, c)
  }

  function ReachIn(r: Reach, down: bool): Txs {
    if down then r.down else r.up
  }

  lemma {:induction false} DirectedHas(g: Graph, down: bool, p: TxIdx, c: TxIdx)
    requires ClosedGraph(g)
    ensures Dep(p, c) in DepsOf(g) <==> DirectedDep(p, c, down) in Directed(g, down).deps
  {
    hide DepsOf;
    FlipHas(NetOf(g), Dep(p, c));
  }

  lemma {:induction false} DirectedValid(g: Graph, down: bool)
    requires ValidGraph(g)
    ensures ValidNet(Directed(g, down)) && Directed(g, down).txs == g.anc.Keys
  {
    NetValid(g);
    FlipValid(NetOf(g));
  }

  lemma {:induction false} DirectedRate(g: Graph, down: bool, x: Txs)
    requires ClosedGraph(g)
    ensures Rate(Directed(g, down).fees, x) == (if down then -Rate(g.fees, x) else Rate(g.fees, x))
  {
    hide Rate;
    NegatedRate(g.fees, x);
  }

  /** The stored dependencies between `u` and `v`, `u` being above in the given direction. */
  lemma {:induction false} StoredDep(g: Graph, s: Store, down: bool, u: TxIdx, v: TxIdx)
    requires RepOk(g, s) && u in s.tx && v in s.tx
    ensures ClosedGraph(g)
    ensures Dep(u, v) in Directed(g, down).deps <==> (if down then u in s.tx[v].children else u in s.tx[v].parents)
  {
    hide RepOk, DepsOf, ReducedParents, ReducedChildren, Directed, ClosedGraph;
    TxFacts(g, s, u);
    TxFacts(g, s, v);
    if down {
      DirectedHas(g, down, v, u);
      DepMeaning(g, Dep(v, u));
      ReductionIsDual(g, v, u);
    } else {
      DirectedHas(g, down, u, v);
      DepMeaning(g, Dep(u, v));
    }
  }

  lemma {:induction false} DirectedInside(g: Graph, down: bool, d: Dep)
    requires ValidGraph(g) && d in Directed(g, down).deps
    ensures d.parent in g.anc && d.child in g.anc
  {
    hide ValidGraph, Directed;
    DirectedValid(g, down);
  }

  /** A dependency of chunk `x` on another chunk ends in the stored reachable set. */
  lemma {:induction false} ReachHas(g: Graph, s: Store, x: SetIdx, down: bool, d: Dep)
    requires RepOk(g, s) && x in s.chunks && ClosedGraph(g) && d in Directed(g, down).deps
    requires x < |s.sets| == |s.reach| && Above(d, s.sets[x].txs)
    ensures d.parent in s.tx && d.parent in ReachIn(s.reach[x], down)
  {
    hide RepOk, Directed, ClosedGraph, ValidGraph;
    StoreFacts(g, s);
    DirectedInside(g, down, d);
    ChunkFacts(g, s, x);
    StoredDep(g, s, down, d.parent, d.child);
  }

  lemma {:induction false} ReachWitness(g: Graph, s: Store, x: SetIdx, down: bool, u: TxIdx) returns (d: Dep)
    requires RepOk(g, s) && x in s.chunks && x < |s.sets| == |s.reach| && u in ReachIn(s.reach[x], down)
    ensures u in s.tx && ClosedGraph(g) && d in Directed(g, down).deps && Above(d, s.sets[x].txs) && d.parent == u
  {
    hide RepOk, Directed, ReducedParents, ReducedChildren;
    ChunkFacts(g, s, x);
    var v :| v in s.sets[x].txs && (if down then u in s.tx[v].children else u in s.tx[v].parents);
    TxFacts(g, s, v);
    NeighboursInside(g, v);
    StoredDep(g, s, down, u, v);
    d := Dep(u, v);
  }

  /** Comparing stored feerates in the direction of a merge. */
  lemma {:induction false} StoredCompare(g: Graph, s: Store, down: bool, x: SetIdx, y: SetIdx)
    requires RepOk(g, s) && x in s.chunks && y in s.chunks && x < |s.sets| && y < |s.sets|
    ensures ClosedGraph(g)
    ensures var fees, cmp := Directed(g, down).fees, CompareByRatio(s.sets[x].frac, s.sets[y].frac);
            var c := if down then -cmp else cmp;
            && (c < 0 <==> Rate(fees, s.sets[x].txs) < Rate(fees, s.sets[y].txs))
            && (c > 0 <==> Rate(fees, s.sets[x].txs) > Rate(fees, s.sets[y].txs))
  {
    hide RepOk, Directed, Total, ClosedGraph, CompareByRatio;
    StoreFacts(g, s);
    ChunkFacts(g, s, x);
    ChunkFacts(g, s, y);
    FracFact(g, s, x);
    FracFact(g, s, y);
    TotalSizePositive(g.fees, s.sets[x].txs);
    TotalSizePositive(g.fees, s.sets[y].txs);
    CompareIsRatioOrder(s.sets[x].frac, s.sets[y].frac);
    DirectedRate(g, down, s.sets[x].txs);
    DirectedRate(g, down, s.sets[y].txs);
  }

  /** `best`, if any, is a chunk of lowest feerate among those above `x` seen so far, not above `x`. */
  ghost predicate BestSoFar(g: Graph, s: Store, x: SetIdx, down: bool, todo: Txs, best: Option<SetIdx>, low: SetIdx)
    requires ClosedGraph(g)
  {
    var n := Directed(g, down);
    && x < |s.sets| && low < |s.sets| && low in s.chunks
    && (best.None? ==> low == x)
    && (best.Some? ==> best.value == low != x && exists d <- n.deps :: Above(d, s.sets[x].txs) && d.parent in s.sets[low].txs)
    && Rate(n.fees, s.sets[low].txs) <= Rate(n.fees, s.sets[x].txs)
    && forall d <- n.deps | Above(d, s.sets[x].txs) && d.parent !in todo :: NotBetter(n, s, best, low, d)
  }

  ghost predicate NotBetter(n: Net, s: Store, best: Option<SetIdx>, low: SetIdx, d: Dep) {
    && low < |s.sets| && d.parent in s.tx
    && var r, b := Rate(n.fees, SetTxs(s, s.tx[d.parent].chunk)), Rate(n.fees, s.sets[low].txs);
       b <= r && (best.None? ==> b < r)
  }

  lemma {:induction false} ChunkIs(g: Graph, s: Store, x: SetIdx, v: TxIdx)
    requires RepOk(g, s) && x in s.chunks && v in s.tx
    ensures x < |s.sets| && s.tx[v].chunk in s.chunks && s.tx[v].chunk < |s.sets|
    ensures v in s.sets[x].txs <==> s.tx[v].chunk == x
  {
    hide RepOk;
    TxFacts(g, s, v);
    ChunkFacts(g, s, x);
    ChunkFacts(g, s, s.tx[v].chunk);
  }

  lemma {:induction false} BestStart(g: Graph, s: Store, x: SetIdx, down: bool)
    requires RepOk(g, s) && x in s.chunks
    ensures ClosedGraph(g) && x < |s.sets| == |s.reach|
    ensures BestSoFar(g, s, x, down, ReachIn(s.reach[x], down), None, x)
  {
    hide RepOk, Rate, Directed, ClosedGraph, TopsDistinct;
    StoreFacts(g, s);
    ChunkFacts(g, s, x);
    forall d <- Directed(g, down).deps | Above(d, s.sets[x].txs) ensures d.parent in ReachIn(s.reach[x], down) {
      ReachHas(g, s, x, down, d);
    }
  }

  lemma {:induction false} BestRange(g: Graph, s: Store, x: SetIdx, down: bool, todo: Txs, best: Option<SetIdx>, low: SetIdx)
    requires ClosedGraph(g) && BestSoFar(g, s, x, down, todo, best, low)
    ensures low < |s.sets| && low in s.chunks
  {}

  /** Consider the chunk `y` of the reachable transaction `u`. */
  lemma {:induction false} BestStep(g: Graph, s: Store, x: SetIdx, down: bool, todo: Txs, best: Option<SetIdx>, low: SetIdx, u: TxIdx, take: bool)
    requires RepOk(g, s) && ClosedGraph(g) && x in s.chunks && x < |s.sets| == |s.reach|
    requires BestSoFar(g, s, x, down, todo, best, low)
    requires u in todo && todo <= ReachIn(s.reach[x], down) && u in s.tx && s.tx[u].chunk < |s.sets|
    requires var n, y := Directed(g, down), s.tx[u].chunk;
             && (take ==> Rate(n.fees, s.sets[y].txs) <= Rate(n.fees, s.sets[low].txs))
             && (!take ==> Rate(n.fees, s.sets[low].txs) <= Rate(n.fees, s.sets[y].txs))
             && (!take && best.None? ==> Rate(n.fees, s.sets[low].txs) < Rate(n.fees, s.sets[y].txs))
    ensures var y := s.tx[u].chunk;
            BestSoFar(g, s, x, down, todo - s.sets[y].txs, if take then Some(y) else best, if take then y else low)
  {
    hide RepOk, Rate, Directed, ClosedGraph, ValidGraph, TopsDistinct;
    var n, y := Directed(g, down), s.tx[u].chunk;
    ChunkIs(g, s, x, u);
    ChunkIs(g, s, y, u);
    StoreFacts(g, s);
    var e := ReachWitness(g, s, x, down, u);
    var best', low' := if take then Some(y) else best, if take then y else low;
    forall d <- n.deps | Above(d, s.sets[x].txs) && d.parent !in todo - s.sets[y].txs ensures NotBetter(n, s, best', low', d) {
      DirectedInside(g, down, d);
      if d.parent in todo { ChunkIs(g, s, y, d.parent); } else { assert NotBetter(n, s, best, low, d); }
    }
  }

  /** Nothing is left to consider: either no merge is possible, or the best chunk is the lowest above. */
  lemma {:induction false} BestDone(g: Graph, s: Store, x: SetIdx, down: bool, best: Option<SetIdx>, low: SetIdx)
    requires RepOk(g, s) && ClosedGraph(g) && x in s.chunks && x < |s.sets|
    requires BestSoFar(g, s, x, down, {}, best, low)
    ensures best.None? ==> NoMergeLeft(Directed(g, down), ChunksOf(s), s.sets[x].txs)
    ensures best.Some? ==> best.value < |s.sets| && best.value in s.chunks && best.value != x
    ensures best.Some? ==>
              exists d :: LowestAbove(Directed(g, down), ChunksOf(s), s.sets[x].txs, d) && ChunksOf(s)[d.parent] == s.sets[best.value].txs
  {
    hide RepOk, Rate, Directed, ClosedGraph;
    var n, ch := Directed(g, down), ChunksOf(s);
    forall d <- n.deps | Above(d, s.sets[x].txs) ensures NotBetter(n, s, best, low, d) && d.parent in ch && ch[d.parent] == SetTxs(s, s.tx[d.parent].chunk) {}
    if best.Some? {
      var e :| e in n.deps && Above(e, s.sets[x].txs) && e.parent in s.sets[low].txs;
      ChunkFacts(g, s, low);
      assert s.tx[e.parent].chunk == low;
      assert LowestAbove(n, ch, s.sets[x].txs, e);
    }
  }

  // ----- The effect of a merge

  /** Chunks outside `skip` hold no dependency worth splitting. */
  ghost predicate AllWorked(g: Graph, s: Store, skip: set<SetIdx>) {
    forall x <- s.chunks | x !in skip :: NothingToSplit(g.fees, Meaning(s), SetTxs(s, x))
  }

  ghost predicate Worked(g: Graph, s: Store, x: SetIdx) {
    NothingToSplit(g.fees, Meaning(s), SetTxs(s, x))
  }

  /** Chunks `a` and `b` of `s` have become chunk `y` of `r`; all else is as it was. */
  ghost predicate MergedStore(g: Graph, s: Store, r: Store, a: SetIdx, b: SetIdx, y: SetIdx) {
    && a in s.chunks && b in s.chunks && a != b && (y == a || y == b)
    && ValidStore(g, r) && r.chunks == s.chunks - {if y == a then b else a} && r.tx.Keys == s.tx.Keys
    && ChunksOf(r) == MergeChunks(ChunksOf(s), SetTxs(s, a), SetTxs(s, b))
    && SetTxs(r, y) == SetTxs(s, a) + SetTxs(s, b)
    && (forall x <- r.chunks | x != y :: SetTxs(r, x) == SetTxs(s, x))
    && (forall v <- s.tx | v !in SetTxs(s, a) && v !in SetTxs(s, b) :: r.tx[v].chunk == s.tx[v].chunk)
    && (forall skip | AllWorked(g, s, skip) :: AllWorked(g, r, skip + {y}))
    && (Worked(g, s, a) && Worked(g, s, b) && Rate(g.fees, SetTxs(s, a)) == Rate(g.fees, SetTxs(s, b)) ==> Worked(g, r, y))
  }

  lemma {:induction false} MergeSym(ch: Chunks, a: Txs, b: Txs)
    ensures MergeChunks(ch, a, b) == MergeChunks(ch, b, a)
  {
    assert a + b == b + a;
  }

  lemma {:induction false} MergedStoreSym(g: Graph, s: Store, r: Store, a: SetIdx, b: SetIdx, y: SetIdx)
    requires MergedStore(g, s, r, a, b, y)
    ensures MergedStore(g, s, r, b, a, y)
  {
    hide AllWorked, ValidStore, ChunksOf, MergeChunks, Worked, Rate;
    MergeSym(ChunksOf(s), SetTxs(s, a), SetTxs(s, b));
    assert SetTxs(s, a) + SetTxs(s, b) == SetTxs(s, b) + SetTxs(s, a);
  }

  /** A chunk that takes no part in an activation keeps its top sets. */
  lemma {:induction false} AddEdgeElsewhere(txs: Txs, deps: set<Dep>, fees: Fees, f: Forest, e: Dep, x: Txs)
    requires ValidForest(txs, deps, f) && e in deps && f.chunk[e.parent] != f.chunk[e.child]
    requires x !! f.chunk[e.parent] && x !! f.chunk[e.child] && (exists v <- f.chunk :: f.chunk[v] == x)
    requires NothingToSplit(fees, f, x)
    ensures NothingToSplit(fees, AddEdge(f, e), x)
  {
    hide Rate, Connected;
    var r := AddEdge(f, e);
    forall d <- r.active | Inside(d, x) && d in r.top ensures Rate(fees, r.top[d]) <= Rate(fees, x) {
      assert d in f.active && HasTop(f, d);
      var v :| v in f.chunk && f.chunk[v] == x;
      assert f.chunk[d.parent] == x;
      assert f.top[d] <= x;
      assert r.top[d] == f.top[d];
    }
  }

  lemma {:induction false} ActivatedWorked(g: Graph, s: Store, p: TxIdx, c: TxIdx, x: SetIdx)
    requires Joins(g, s, p, c) && JoinRange(s, p, c) && x in s.chunks && x != s.tx[p].chunk && x != s.tx[c].chunk
    requires NothingToSplit(g.fees, Meaning(s), SetTxs(s, x))
    ensures NothingToSplit(g.fees, Meaning(Activated(s, p, c)), SetTxs(Activated(s, p, c), x))
  {
    hide RepOk, ValidForest, NothingToSplit, Activated, AddEdge, DepsOf;
    var f := Meaning(s);
    StoreFacts(g, s);
    JoinFacts(g, s, p, c);
    ActivatedMeaning(g, s, p, c);
    ActivatedChunkSet(g, s, p, c, x);
    ChunkApart(g, s, x, p);
    ChunkApart(g, s, x, c);
    AddEdgeElsewhere(g.anc.Keys, DepsOf(g), g.fees, f, Dep(p, c), SetTxs(s, x));
  }

  lemma {:induction false} ChunkApart(g: Graph, s: Store, x: SetIdx, v: TxIdx)
    requires RepOk(g, s) && x in s.chunks && v in s.tx && x != s.tx[v].chunk
    ensures v in ChunksOf(s) && SetTxs(s, x) !! ChunksOf(s)[v]
    ensures exists u <- ChunksOf(s) :: ChunksOf(s)[u] == SetTxs(s, x)
  {
    hide RepOk, ReachOf;
    ChunkFacts(g, s, x);
    TxFacts(g, s, v);
    ChunkFacts(g, s, s.tx[v].chunk);
    var u :| u in s.sets[x].txs;
    assert s.tx[u].chunk == x && ChunksOf(s)[u] == SetTxs(s, x);
  }

  lemma {:induction false} ActivatedEven(g: Graph, s: Store, p: TxIdx, c: TxIdx)
    requires Joins(g, s, p, c) && JoinRange(s, p, c)
    requires Worked(g, s, s.tx[p].chunk) && Worked(g, s, s.tx[c].chunk)
    requires Rate(g.fees, SetTxs(s, s.tx[p].chunk)) == Rate(g.fees, SetTxs(s, s.tx[c].chunk))
    ensures Worked(g, Activated(s, p, c), s.tx[c].chunk)
  {
    hide RepOk, ValidForest, NothingToSplit, Activated, AddEdge, DepsOf, Rate, TopsDistinct;
    StoreFacts(g, s);
    JoinFacts(g, s, p, c);
    ActivatedMeaning(g, s, p, c);
    ActivatedChunkSet(g, s, p, c, s.tx[c].chunk);
    EvenJoinWorked(g.anc.Keys, DepsOf(g), g.fees, Meaning(s), Dep(p, c));
    assert SetTxs(s, s.tx[c].chunk) + SetTxs(s, s.tx[p].chunk) == SetTxs(s, s.tx[p].chunk) + SetTxs(s, s.tx[c].chunk);
  }

  /** An activation merges the two chunks into the child's. */
  lemma {:induction false} ActivatesMerged(g: Graph, s: Store, r: Store, p: TxIdx, c: TxIdx)
    requires Joins(g, s, p, c) && Activates(s, r, p, c)
    ensures MergedStore(g, s, r, s.tx[p].chunk, s.tx[c].chunk, s.tx[c].chunk)
    ensures MergedStore(g, s, r, s.tx[c].chunk, s.tx[p].chunk, s.tx[c].chunk)
  {
    hide RepOk, ValidForest, NothingToSplit, Activated, AddEdge, DepsOf, ChunksOf, Rate, Worked;
    var pi, ci := s.tx[p].chunk, s.tx[c].chunk;
    JoinFacts(g, s, p, c);
    ActivatedValid(g, s, p, c);
    ActivatedMergesChunks(g, s, p, c);
    ActivatedTxs(s, p, c, p);
    ActivatedChunkSet(g, s, p, c, ci);
    assert SetTxs(s, ci) + SetTxs(s, pi) == SetTxs(s, pi) + SetTxs(s, ci);
    forall x <- r.chunks | x != ci ensures SetTxs(r, x) == SetTxs(s, x) {
      ActivatedChunkSet(g, s, p, c, x);
    }
    forall v <- s.tx | v !in SetTxs(s, pi) && v !in SetTxs(s, ci) ensures r.tx[v].chunk == s.tx[v].chunk {
      ActivatedTxs(s, p, c, v);
    }
    forall skip | AllWorked(g, s, skip) ensures AllWorked(g, r, skip + {ci}) {
      forall x <- r.chunks | x !in skip + {ci} ensures NothingToSplit(g.fees, Meaning(r), SetTxs(r, x)) {
        ActivatedWorked(g, s, p, c, x);
      }
    }
    if Worked(g, s, pi) && Worked(g, s, ci) && Rate(g.fees, SetTxs(s, pi)) == Rate(g.fees, SetTxs(s, ci)) {
      ActivatedEven(g, s, p, c);
    }
    MergedStoreSym(g, s, r, pi, ci, ci);
  }

  lemma {:induction false} ActivatedMergesChunks(g: Graph, s: Store, p: TxIdx, c: TxIdx)
    requires Joins(g, s, p, c) && JoinRange(s, p, c)
    ensures ChunksOf(Activated(s, p, c)) == MergeChunks(ChunksOf(s), SetTxs(s, s.tx[p].chunk), SetTxs(s, s.tx[c].chunk))
  {
    hide RepOk, ValidForest, Activated, DepsOf;
    JoinFacts(g, s, p, c);
    ActivatedMeaning(g, s, p, c);
    assert Meaning(Activated(s, p, c)).chunk == ChunksOf(Activated(s, p, c));
  }

  // ----- The effect of a split

  /** Chunk `x` of `s` is split in `r` into `t`, at index `pi`, and the rest, which keeps index `x`. */
  ghost predicate SplitStore(g: Graph, s: Store, r: Store, x: SetIdx, pi: SetIdx, t: Txs) {
    && x in s.chunks && pi !in s.chunks && x != pi
    && t <= SetTxs(s, x) && t != {} && t != SetTxs(s, x)
    && ValidStore(g, r) && r.chunks == s.chunks + {pi} && r.tx.Keys == s.tx.Keys
    && ChunksOf(r) == SplitChunk(ChunksOf(s), t, SetTxs(s, x) - t)
    && SetTxs(r, pi) == t && SetTxs(r, x) == SetTxs(s, x) - t
    && (forall y <- s.chunks | y != x :: SetTxs(r, y) == SetTxs(s, y))
    && (forall skip | AllWorked(g, s, skip) :: AllWorked(g, r, skip + {x} + {pi}))
    && (Worked(g, s, x) && Rate(g.fees, t) == Rate(g.fees, SetTxs(s, x)) ==> Worked(g, r, x) && Worked(g, r, pi))
  }

  /** A chunk other than the one that is split keeps its top sets. */
  lemma {:induction false} RemoveEdgeElsewhere(txs: Txs, deps: set<Dep>, fees: Fees, f: Forest, e: Dep, x: Txs)
    requires ValidForest(txs, deps, f) && e in f.active
    requires x !! f.chunk[e.parent] && (exists v <- f.chunk :: f.chunk[v] == x)
    requires NothingToSplit(fees, f, x)
    ensures NothingToSplit(fees, RemoveEdge(f, e), x)
  {
    hide Rate, Connected;
    var r := RemoveEdge(f, e);
    assert HasTop(f, e);
    forall d <- r.active | Inside(d, x) && d in r.top ensures Rate(fees, r.top[d]) <= Rate(fees, x) {
      assert d in f.active && HasTop(f, d);
      var v :| v in f.chunk && f.chunk[v] == x;
      assert f.chunk[d.parent] == x;
      assert f.top[d] <= x;
      assert r.top[d] == f.top[d];
    }
  }

  lemma {:induction false} DeactivatedWorked(g: Graph, s: Store, p: TxIdx, c: TxIdx, x: SetIdx)
    requires Cuts(g, s, p, c) && CutRange(s, p, c) && x in s.chunks && x != s.tx[p].chunk
    requires NothingToSplit(g.fees, Meaning(s), SetTxs(s, x))
    ensures NothingToSplit(g.fees, Meaning(Deactivated(s, p, c)), SetTxs(Deactivated(s, p, c), x))
  {
    hide RepOk, ValidForest, NothingToSplit, Deactivated, RemoveEdge, DepsOf, ReachOf;
    StoreFacts(g, s);
    CutFacts(g, s, p, c);
    DeactivatedMeaning(g, s, p, c);
    DeactivatedChunkSet(g, s, p, c, x);
    ChunkApart(g, s, x, p);
    RemoveEdgeElsewhere(g.anc.Keys, DepsOf(g), g.fees, Meaning(s), Dep(p, c), SetTxs(s, x));
  }

  lemma {:induction false} DeactivatedSplitsChunks(g: Graph, s: Store, p: TxIdx, c: TxIdx)
    requires Cuts(g, s, p, c) && CutRange(s, p, c)
    ensures var t := SetTxs(s, s.tx[p].depTop[c]);
            ChunksOf(Deactivated(s, p, c)) == SplitChunk(ChunksOf(s), t, SetTxs(s, s.tx[p].chunk) - t)
  {
    hide RepOk, ValidForest, Deactivated;
    CutFacts(g, s, p, c);
    DeactivatedMeaning(g, s, p, c);
    assert Meaning(Deactivated(s, p, c)).chunk == ChunksOf(Deactivated(s, p, c));
  }

  lemma {:induction false} DeactivatedEven(g: Graph, s: Store, p: TxIdx, c: TxIdx)
    requires Cuts(g, s, p, c) && CutRange(s, p, c) && Worked(g, s, s.tx[p].chunk)
    requires Rate(g.fees, SetTxs(s, s.tx[p].depTop[c])) == Rate(g.fees, SetTxs(s, s.tx[p].chunk))
    ensures Worked(g, Deactivated(s, p, c), s.tx[p].chunk) && Worked(g, Deactivated(s, p, c), s.tx[p].depTop[c])
  {
    hide RepOk, ValidForest, NothingToSplit, Deactivated, RemoveEdge, DepsOf, Rate, TopsDistinct, ReachOf;
    StoreFacts(g, s);
    CutFacts(g, s, p, c);
    DeactivatedMeaning(g, s, p, c);
    DeactivatedChunkSet(g, s, p, c, s.tx[p].chunk);
    DeactivatedChunkSet(g, s, p, c, s.tx[p].depTop[c]);
    EvenCutWorked(g.anc.Keys, DepsOf(g), g.fees, Meaning(s), Dep(p, c));
  }

  /** A deactivation splits the chunk of its dependency in the top set and the rest. */
  lemma {:induction false} DeactivatesSplit(g: Graph, s: Store, r: Store, p: TxIdx, c: TxIdx)
    requires Cuts(g, s, p, c) && Deactivates(s, r, p, c)
    ensures SplitStore(g, s, r, s.tx[p].chunk, s.tx[p].depTop[c], SetTxs(s, s.tx[p].depTop[c]))
    ensures p in SetTxs(s, s.tx[p].depTop[c]) && p in s.tx && ChunksOf(s)[p] == SetTxs(s, s.tx[p].chunk)
  {
    hide RepOk, ValidForest, NothingToSplit, Deactivated, RemoveEdge, ReachOf, Rate, Worked;
    var pi, ci := s.tx[p].depTop[c], s.tx[p].chunk;
    CutFacts(g, s, p, c);
    DeactivatedValid(g, s, p, c);
    DeactivatedSplitsChunks(g, s, p, c);
    DeactivatedParts(s, p, c);
    CutTxs(s.tx, p, c, s.sets[pi].txs, pi, p);
    DeactivatedChunkSet(g, s, p, c, ci);
    DeactivatedChunkSet(g, s, p, c, pi);
    forall y <- s.chunks | y != ci ensures SetTxs(r, y) == SetTxs(s, y) {
      DeactivatedChunkSet(g, s, p, c, y);
    }
    forall skip | AllWorked(g, s, skip) ensures AllWorked(g, r, skip + {ci} + {pi}) {
      forall x <- r.chunks | x !in skip + {ci} + {pi} ensures NothingToSplit(g.fees, Meaning(r), SetTxs(r, x)) {
        DeactivatedWorked(g, s, p, c, x);
      }
    }
    if Worked(g, s, ci) && Rate(g.fees, SetTxs(s, pi)) == Rate(g.fees, SetTxs(s, ci)) {
      DeactivatedEven(g, s, p, c);
    }
  }

  /** Merging the two parts of a split chunk restores the partition. */
  lemma {:induction false} SplitThenMerge(txs: Txs, ch: Chunks, u: TxIdx, t: Txs)
    requires Partitions(txs, ch) && u in ch && t <= ch[u]
    ensures MergeChunks(SplitChunk(ch, t, ch[u] - t), ch[u] - t, t) == ch
  {
    assert ch[u] - t + t == ch[u];
  }

  /** Chunk `y` depends on chunk `x` exactly if its stored reachable set meets it. */
  lemma {:induction false} ReachMeets(g: Graph, s: Store, x: SetIdx, y: SetIdx)
    requires RepOk(g, s) && x in s.chunks && y in s.chunks && x != y
    ensures ClosedGraph(g) && x < |s.sets| && y < |s.sets| && y < |s.reach|
    ensures s.reach[y].up * s.sets[x].txs != {} <==>
            exists d <- DepsOf(g) :: d.parent in SetTxs(s, x) && d.child in SetTxs(s, y)
  {
    hide RepOk, DepsOf, ClosedGraph, ReachOf, TopsDistinct;
    StoreFacts(g, s);
    ChunkFacts(g, s, x);
    ChunkFacts(g, s, y);
    if s.reach[y].up * s.sets[x].txs != {} {
      var u :| u in s.reach[y].up * s.sets[x].txs;
      var d := ReachWitness(g, s, y, false, u);
    }
    if d :| d in DepsOf(g) && d.parent in SetTxs(s, x) && d.child in SetTxs(s, y) {
      assert s.tx[d.parent].chunk == x;
      ReachHas(g, s, y, false, d);
      assert d.parent in s.reach[y].up * s.sets[x].txs;
    }
  }
}
