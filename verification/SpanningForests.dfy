/** The spanning-forest linearization algorithm over its stored state. */
module SpanningForests {
  import opened CostBounds
  import opened Wrappers
  import opened Sums
  import opened FeeRates
  import opened Forests
  import opened Topology
  import opened Improvement
  import opened Optimality
  import opened Minimality
  import opened DepGraphs
  import opened ForestStore
  import opened Merging
  import opened ForestSteps
  import opened MinimizeSteps
  import opened ForestInit
  import opened Loading
  import opened Ordering
  import Emitting

  class SpanningForest {
    const g: Graph
    var txData: TxMap
    var setInfo: seq<SetInfo>
    var reachable: seq<Reach>
    var chunkIdxs: set<SetIdx>
    var suboptimalIdxs: set<SetIdx>
    var suboptimalChunks: seq<SetIdx>
    var nonminimalChunks: seq<Pending>
    var cost: nat

    /** Every transaction is in a chunk of its own. */
    constructor (graph: Graph)
      requires ValidGraph(graph)
      ensures g == graph && ValidStore(g, S()) && ClosedGraph(g)
      ensures ChunksOf(S()).Keys == g.anc.Keys && forall v <- g.anc :: ChunksOf(S())[v] == {v}
      ensures suboptimalChunks == [] && suboptimalIdxs == {} && cost == InitialCost(g) && |setInfo| == |g.anc|
    {
      hide ClosedGraph, Fresh, ValidStore, ChunksOf;
      var s, deps, order := InitialStore(graph);
      FreshValid(graph, s, order);
      FreshChunks(graph, s, order);
      g := graph;
      txData, setInfo, reachable, chunkIdxs := s.tx, s.sets, s.reach, s.chunks;
      suboptimalIdxs, suboptimalChunks, nonminimalChunks := {}, [], [];
      cost := 39 * |s.sets| + 48 * |s.sets| + 4 * deps;
    }

    ghost function S(): Store
      reads this
    {
      Store(txData, setInfo, reachable, chunkIdxs)
    }

    /** Add `add` to every top set, of the dependencies that start in `txs`, which holds `pivot`. */
    method GrowTops(txs: Txs, pivot: TxIdx, add: SetInfo)
      requires TopsDistinct(txData) && TopsInRange(txData, |setInfo|) && txs <= txData.Keys
      modifies `setInfo
      ensures setInfo == GrowSets(old(setInfo), TopIdxs(txData, txs), pivot, add)
    {
      ghost var sets := setInfo;
      var todo := txs;
      assert txs - todo == {} && TopIdxs(txData, {}) == {};
      assert sets == GrowSets(sets, {}, pivot, add);
      while todo != {}
        invariant todo <= txs
        invariant setInfo == GrowSets(sets, TopIdxs(txData, txs - todo), pivot, add)
      {
        hide GrowSets, TopIdxs, TopsDistinct;
        ghost var done := txs - todo;
        var v :| v in todo;
        todo := todo - {v};
        var left := txData[v].active;
        assert ChildIdxs(txData, v, txData[v].active - left) == {};
        assert TopIdxs(txData, done) + {} == TopIdxs(txData, done);
        while left != {}
          invariant left <= txData[v].active
          invariant setInfo == GrowSets(sets, TopIdxs(txData, done) + ChildIdxs(txData, v, txData[v].active - left), pivot, add)
          invariant |setInfo| == |sets|
        {
          var c :| c in left;
          ghost var cs := txData[v].active - left;
          left := left - {c};
          assert txData[v].active - left == cs + {c};
          IdxsStep(txData, |sets|, done, v, cs, c);
          var i := txData[v].depTop[c];
          GrowOne(sets, TopIdxs(txData, done) + ChildIdxs(txData, v, cs), i, pivot, add);
          if pivot in setInfo[i].txs {
            setInfo := setInfo[i := setInfo[i].Join(add)];
          }
        }
        assert txData[v].active - left == txData[v].active;
        IdxsDone(txData, done, v);
        assert done + {v} == txs - todo;
      }
      assert txs - todo == txs;
    }

    /** Remove `sub` from every top set, of the dependencies that start in `txs`, which holds `pivot`. */
    method ShrinkTops(txs: Txs, pivot: TxIdx, sub: SetInfo)
      requires TopsDistinct(txData) && TopsInRange(txData, |setInfo|) && txs <= txData.Keys
      modifies `setInfo
      ensures setInfo == ShrinkSets(old(setInfo), TopIdxs(txData, txs), pivot, sub)
    {
      ghost var sets := setInfo;
      var todo := txs;
      assert txs - todo == {} && TopIdxs(txData, {}) == {};
      assert sets == ShrinkSets(sets, {}, pivot, sub);
      while todo != {}
        invariant todo <= txs
        invariant setInfo == ShrinkSets(sets, TopIdxs(txData, txs - todo), pivot, sub)
      {
        hide ShrinkSets, TopIdxs, TopsDistinct;
        ghost var done := txs - todo;
        var v :| v in todo;
        todo := todo - {v};
        var left := txData[v].active;
        assert ChildIdxs(txData, v, txData[v].active - left) == {};
        assert TopIdxs(txData, done) + {} == TopIdxs(txData, done);
        while left != {}
          invariant left <= txData[v].active
          invariant setInfo == ShrinkSets(sets, TopIdxs(txData, done) + ChildIdxs(txData, v, txData[v].active - left), pivot, sub)
          invariant |setInfo| == |sets|
        {
          var c :| c in left;
          ghost var cs := txData[v].active - left;
          left := left - {c};
          assert txData[v].active - left == cs + {c};
          IdxsStep(txData, |sets|, done, v, cs, c);
          var i := txData[v].depTop[c];
          ShrinkOne(sets, TopIdxs(txData, done) + ChildIdxs(txData, v, cs), i, pivot, sub);
          if pivot in setInfo[i].txs {
            setInfo := setInfo[i := setInfo[i].Without(sub)];
          }
        }
        assert txData[v].active - left == txData[v].active;
        IdxsDone(txData, done, v);
        assert done + {v} == txs - todo;
      }
      assert txs - todo == txs;
    }

    /** Record that the transactions in `txs` are in chunk `x`. */
    method Relabel(txs: Txs, x: SetIdx)
      requires txs <= txData.Keys
      modifies `txData
      ensures txData == Relabelled(old(txData), txs, x)
    {
      ghost var was := txData;
      var todo := txs;
      assert txData == Relabelled(was, txs - todo, x);
      while todo != {}
        invariant todo <= txs && txData == Relabelled(was, txs - todo, x)
      {
        var v :| v in todo;
        RelabelOne(was, txs - todo, x, v);
        todo := todo - {v};
        assert txs - todo == txs - (todo + {v}) + {v};
        txData := txData[v := txData[v].(chunk := x)];
      }
      assert txs - todo == txs;
    }

    /** The transactions outside `txs` next to its members. */
    method Neighbours(txs: Txs) returns (r: Reach)
      requires txs <= txData.Keys
      ensures r == ReachOf(txData, txs)
    {
      var parents: Txs, children: Txs := {}, {};
      var todo := txs;
      while todo != {}
        invariant todo <= txs
        invariant parents == set v <- txs - todo, p <- txData[v].parents :: p
        invariant children == set v <- txs - todo, c <- txData[v].children :: c
      {
        var v :| v in todo;
        todo := todo - {v};
        parents := parents + txData[v].parents;
        children := children + txData[v].children;
      }
      assert txs - todo == txs;
      r := Reach(parents - txs, children - txs);
    }

    /** Grow the top sets on both sides of the new dependency, and move the parent's chunk into the child's. */
    method JoinTops(parent: TxIdx, child: TxIdx, parentChunk: SetIdx, childChunk: SetIdx)
      requires TopsDistinct(txData) && TopsInRange(txData, |setInfo|)
      requires parentChunk < |setInfo| && childChunk < |setInfo|
      requires setInfo[parentChunk].txs <= txData.Keys && setInfo[childChunk].txs <= txData.Keys
      modifies `txData, `setInfo
      ensures var top, bottom := old(setInfo[parentChunk]), old(setInfo[childChunk]);
              && txData == Relabelled(old(txData), top.txs, childChunk)
              && setInfo == GrowSets(GrowSets(old(setInfo), TopIdxs(old(txData), top.txs), parent, bottom),
                                     TopIdxs(old(txData), bottom.txs), child, top)
              && |setInfo| == |old(setInfo)|
    {
      hide GrowSets, TopIdxs, TopsDistinct;
      ghost var sets, tx := setInfo, txData;
      var top, bottom := setInfo[parentChunk], setInfo[childChunk];
      GrowTops(top.txs, parent, bottom);
      GrowLength(sets, TopIdxs(tx, top.txs), parent, bottom);
      GrowTops(bottom.txs, child, top);
      GrowLength(GrowSets(sets, TopIdxs(tx, top.txs), parent, bottom), TopIdxs(tx, bottom.txs), child, top);
      Relabel(top.txs, childChunk);
    }

    /** Make the dependency of `child` on `parent`, which are in different chunks, active. */
    method Activate(parent: TxIdx, child: TxIdx) returns (merged: SetIdx)
      requires Joins(g, S(), parent, child)
      modifies `txData, `setInfo, `reachable, `chunkIdxs, `cost
      ensures Activates(old(S()), S(), parent, child)
      ensures merged == old(txData[child].chunk) && cost == old(cost) + 10 * (|SetTxs(S(), merged)| - 1) + 1
      ensures old(cost) < cost <= old(cost) + 10 * |g.anc| + 1 && |setInfo| == |old(setInfo)| && |chunkIdxs| == |old(chunkIdxs)| - 1
    {
      hide RepOk, ValidForest, DepsOf, GrowSets, TopIdxs, TopsDistinct, ReachOf, Meaning, Activates, Relabelled, JoinReach,
        ValidGraph, ChunkOk, TopsInRange;
      ghost var s := S();
      JoinFacts(g, s, parent, child);
      StoreFacts(g, s);
      StoreTopsInRange(g, s);
      var parentChunk, childChunk := txData[parent].chunk, txData[child].chunk;
      ChunkMembers(g, s, parentChunk);
      ChunkMembers(g, s, childChunk);
      var top, bottom := setInfo[parentChunk], setInfo[childChunk];
      JoinTops(parent, child, parentChunk, childChunk);
      RelabelKeeps(s.tx, top.txs, childChunk, parent);
      setInfo := setInfo[childChunk := bottom.Join(top)];
      reachable := reachable[childChunk := JoinReach(reachable[childChunk], reachable[parentChunk], bottom.txs + top.txs)];
      txData := txData[parent := txData[parent].(depTop := txData[parent].depTop[child := parentChunk],
                                                  active := txData[parent].active + {child})];
      chunkIdxs := chunkIdxs - {parentChunk};
      assert parent in bottom.txs + top.txs;
      SubsetSize(bottom.txs + top.txs, g.anc.Keys);
      cost := cost + 10 * (|bottom.txs + top.txs| - 1) + 1;
      merged := childChunk;
      ActivatesByParts(s, parent, child, S());
    }

    /** Make the active dependency of `child` on `parent` inactive. */
    method Deactivate(parent: TxIdx, child: TxIdx) returns (parentChunk: SetIdx, childChunk: SetIdx)
      requires Cuts(g, S(), parent, child)
      modifies `txData, `setInfo, `reachable, `chunkIdxs, `cost
      ensures Deactivates(old(S()), S(), parent, child)
      ensures CutRange(old(S()), parent, child)
      ensures parentChunk == old(txData[parent].depTop[child]) && childChunk == old(txData[parent].chunk)
      ensures cost == old(cost) + 11 * (|old(SetTxs(S(), txData[parent].chunk))| - 1) + 8
      ensures old(cost) < cost <= old(cost) + SplitCost(|g.anc|) && |setInfo| == |old(setInfo)| && |chunkIdxs| == |old(chunkIdxs)| + 1
    {
      hide RepOk, ValidForest, DepsOf, ShrinkSets, TopIdxs, TopsDistinct, ReachOf, Meaning, Deactivates, CutTx, Relabelled,
        ValidGraph, TopsInRange;
      ghost var s := S();
      CutFacts(g, s, parent, child);
      StoreFacts(g, s);
      StoreTopsInRange(g, s);
      parentChunk, childChunk := txData[parent].depTop[child], txData[parent].chunk;
      var top := setInfo[parentChunk];
      var ntx := |setInfo[childChunk].txs|;
      ChunkSize(g, s, childChunk);
      assert parent in setInfo[childChunk].txs;
      txData := txData[parent := txData[parent].(active := txData[parent].active - {child})];
      chunkIdxs := chunkIdxs + {parentChunk};
      var bottom := setInfo[childChunk].Without(top);
      setInfo := setInfo[childChunk := bottom];
      Relabel(top.txs, parentChunk);
      CutByParts(s.tx, parent, child, top.txs, parentChunk);
      CutTopsDistinct(s.tx, parent, child, top.txs, parentChunk);
      CutTopsInRange(s.tx, |s.sets|, parent, child, top.txs, parentChunk);
      ShrinkTops(top.txs, parent, bottom);
      ShrinkLength(s.sets[childChunk := bottom], TopIdxs(txData, top.txs), parent, bottom);
      ShrinkLength(ShrinkSets(s.sets[childChunk := bottom], TopIdxs(txData, top.txs), parent, bottom), TopIdxs(txData, bottom.txs), child, top);
      ShrinkTops(bottom.txs, child, top);
      var up := Neighbours(top.txs);
      var down := Neighbours(bottom.txs);
      CutReach(s.tx, parent, child, top.txs, parentChunk, top.txs);
      CutReach(s.tx, parent, child, top.txs, parentChunk, bottom.txs);
      reachable := reachable[parentChunk := up][childChunk := down];
      cost := cost + 11 * (ntx - 1) + 8;
      DeactivatesByParts(s, parent, child, S());
    }

    /**
     The chunk to merge chunk `x` with: of lowest feerate among the chunks it depends on, or of
     highest feerate among those that depend on it, if not on the wrong side of its own feerate.
     */
    method PickMergeCandidate(down: bool, x: SetIdx) returns (best: Option<SetIdx>)
      requires RepOk(g, S()) && x in chunkIdxs
      modifies `cost
      ensures old(cost) <= cost <= old(cost) + 8 * |g.anc| && (best.Some? ==> cost >= old(cost) + 8)
      ensures x < |setInfo| && ClosedGraph(g)
      ensures best.None? ==> NoMergeLeft(Directed(g, down), ChunksOf(S()), setInfo[x].txs)
      ensures best.Some? ==> best.value < |setInfo| && best.value in chunkIdxs && best.value != x
      ensures best.Some? ==>
                exists d :: LowestAbove(Directed(g, down), ChunksOf(S()), setInfo[x].txs, d) && ChunksOf(S())[d.parent] == setInfo[best.value].txs
    {
      hide RepOk, Rate, Directed, ClosedGraph, ValidGraph, TopsDistinct, Total, ReachOf, ChunkOk, LowestAbove, NoMergeLeft, BestSoFar,
        CompareByRatio;
      ghost var s := S();
      StoreFacts(g, s);
      BestStart(g, s, x, down);
      ReachSize(g, s, x, down);
      best := None;
      var bestFrac := setInfo[x].frac;
      var bestTiebreak: nat := 0;
      var todo := ReachIn(reachable[x], down);
      var steps := 0;
      ghost var low := x;
      while todo != {}
        invariant todo <= ReachIn(reachable[x], down)
        invariant S() == s && BestSoFar(g, s, x, down, todo, best, low)
        invariant low < |setInfo| && low in chunkIdxs && bestFrac == setInfo[low].frac
        invariant if best.None? then bestTiebreak == 0 else steps > 0
        invariant 0 <= steps && steps + |todo| <= |g.anc| && cost == old(cost)
        decreases |todo|
      {
        steps := steps + 1;
        var u :| u in todo;
        ghost var d := ReachWitness(g, s, x, down, u);
        ChunkIs(g, s, x, u);
        var reached := txData[u].chunk;
        ChunkIs(g, s, reached, u);
        StoredCompare(g, s, down, reached, low);
        var cmp := CompareByRatio(setInfo[reached].frac, bestFrac);
        cmp := if down then -cmp else cmp;
        var tiebreak :| tiebreak >= 0;
        var take := cmp < 0 || (cmp == 0 && tiebreak >= bestTiebreak);
        BestStep(g, s, x, down, todo, best, low, u, take);
        BestRange(g, s, x, down, todo - setInfo[reached].txs, if take then Some(reached) else best, if take then reached else low);
        Shrinks(todo, setInfo[reached].txs, u);
        todo := todo - setInfo[reached].txs;
        if take {
          bestFrac := setInfo[reached].frac;
          best := Some(reached);
          bestTiebreak := tiebreak;
          low := reached;
        }
      }
      cost := cost + 8 * steps;
      BestDone(g, s, x, down, best, low);
    }

    /** The number of dependencies of transactions in `bottom` on transactions in `top`. */
    method CountDependencies(top: Txs, bottom: Txs) returns (n: int)
      requires top <= txData.Keys
      ensures n == Sum(DepCount(txData, bottom), top)
    {
      hide Sum;
      ghost var w := DepCount(txData, bottom);
      n := 0;
      var todo := top;
      SumEmpty(w);
      assert top - todo == {};
      while todo != {}
        invariant todo <= top && n == Sum(w, top - todo)
        decreases |todo|
      {
        var v :| v in todo;
        n := n + |txData[v].children * bottom|;
        SumRemove(w, top - (todo - {v}), v);
        assert top - (todo - {v}) - {v} == top - todo;
        todo := todo - {v};
      }
      assert top - todo == top;
    }

    /** The parent at position `pick` among the dependencies of `bottom` on `top`, and what is left of the position. */
    method PickParent(top: Txs, bottom: Txs, pick: int) returns (parent: TxIdx, left: int, steps: int)
      requires top <= txData.Keys && 0 <= pick < Sum(DepCount(txData, bottom), top)
      ensures parent in top && 0 <= left < |txData[parent].children * bottom| && 0 < steps <= |top|
    {
      hide Sum;
      ghost var w := DepCount(txData, bottom);
      SumEmpty(w);
      left, steps := pick, 1;
      var todo := top;
      assert todo != {};
      parent :| parent in todo;
      while left >= |txData[parent].children * bottom|
        invariant todo <= top && parent in todo && 0 <= left < Sum(w, todo) && steps > 0 && steps + |todo| <= |top| + 1
        decreases |todo|
      {
        SumRemove(w, todo, parent);
        steps := steps + 1;
        left := left - |txData[parent].children * bottom|;
        todo := todo - {parent};
        assert todo != {};
        parent :| parent in todo;
      }
    }

    /** Pick some dependency of a transaction in `bottom` on one in `top`, of which there must be one. */
    method PickDependency(top: Txs, bottom: Txs) returns (parent: TxIdx, child: TxIdx)
      requires top <= txData.Keys && exists p <- top :: txData[p].children * bottom != {}
      modifies `cost
      ensures old(cost) + 2 * |top| + 8 <= cost <= old(cost) + 5 * |top| + 5
      ensures parent in top && child in txData[parent].children * bottom
    {
      hide Sum;
      var numDeps := CountDependencies(top, bottom);
      SomeDep(txData, top, bottom);
      var pick :| 0 <= pick < numDeps;
      var steps;
      parent, pick, steps := PickParent(top, bottom, pick);
      var rest := txData[parent].children * bottom;
      while pick > 0
        invariant rest <= txData[parent].children * bottom && 0 <= pick < |rest|
      {
        var c :| c in rest;
        rest := rest - {c};
        pick := pick - 1;
      }
      child :| child in rest;
      cost := cost + 2 * |top| + 3 * steps + 5;
    }

    /** Activate some dependency of chunk `bottom` on chunk `top`, which must exist. */
    method MergePair(top: SetIdx, bottom: SetIdx) returns (merged: SetIdx)
      requires ValidStore(g, S()) && top in chunkIdxs && bottom in chunkIdxs && top != bottom
      requires exists d <- DepsOf(g) :: d.parent in SetTxs(S(), top) && d.child in SetTxs(S(), bottom)
      modifies `txData, `setInfo, `reachable, `chunkIdxs, `cost
      ensures MergedStore(g, old(S()), S(), top, bottom, merged) && MergedStore(g, old(S()), S(), bottom, top, merged)
      ensures old(cost) < cost <= old(cost) + PairCost(|g.anc|) && |setInfo| == |old(setInfo)| && |chunkIdxs| == |old(chunkIdxs)| - 1
    {
      hide RepOk, ValidForest, DepsOf, MergedStore, Activates, ChunkOk, TxOk, ClosedGraph, TopsDistinct;
      ghost var s := S();
      StoreFacts(g, s);
      ChunkMembers(g, s, top);
      ChunkSize(g, s, top);
      ChunkMembers(g, s, bottom);
      DepStored(g, s, top, bottom);
      var parent, child := PickDependency(setInfo[top].txs, setInfo[bottom].txs);
      StoredJoins(g, s, top, bottom, parent, child);
      merged := Activate(parent, child);
      ActivatesMerged(g, s, S(), parent, child);
    }

    /** Merge chunk `x` with the best chunk in the given direction, if there is one. */
    method MergeStep(down: bool, x: SetIdx) returns (r: Option<SetIdx>, ghost d: Dep)
      requires ValidStore(g, S()) && x in chunkIdxs
      modifies `txData, `setInfo, `reachable, `chunkIdxs, `cost
      ensures ClosedGraph(g) && ValidStore(g, S())
      ensures old(cost) <= cost <= old(cost) + MergeCost(|g.anc|) && |setInfo| == |old(setInfo)|
      ensures |chunkIdxs| == |old(chunkIdxs)| - if r.Some? then 1 else 0
      ensures r.None? ==> S() == old(S()) && NoMergeLeft(Directed(g, down), ChunksOf(S()), SetTxs(S(), x))
      ensures r.Some? ==> MergesLowest(g, down, old(S()), S(), x, r.value, d)
    {
      hide RepOk, ValidForest, DepsOf, MergedStore, NoMergeLeft, Rate, ClosedGraph, Directed, ChunksOf;
      ghost var s := S();
      ChunkMembers(g, s, x);
      var other := PickMergeCandidate(down, x);
      d := Dep(0, 0);
      if other.None? {
        r := None;
      } else {
        var y := other.value;
        d :| LowestAbove(Directed(g, down), ChunksOf(s), s.sets[x].txs, d) && ChunksOf(s)[d.parent] == s.sets[y].txs;
        LowestIsDep(g, s, down, x, y, d);
        var merged;
        if down {
          merged := MergePair(x, y);
        } else {
          merged := MergePair(y, x);
        }
        r := Some(merged);
        LowestMerged(g, down, s, S(), x, y, merged, d);
      }
    }

    /** Merge chunk `x` in the given direction for as long as possible, and queue the result for optimization. */
    method MergeSequence(down: bool, x: SetIdx, ghost region: Txs, ghost theta: real, ghost skip: set<SetIdx>) returns (y: SetIdx)
      requires ValidStore(g, S()) && x in chunkIdxs && QueueOk(suboptimalChunks, suboptimalIdxs)
      requires InSequence(g, down, S(), S(), region, SetTxs(S(), x), x, theta, suboptimalIdxs + skip)
      requires IdxsBelow(suboptimalIdxs, |setInfo|)
      modifies this
      ensures ValidStore(g, S()) && QueueOk(suboptimalChunks, suboptimalIdxs)
      ensures ClosedGraph(g) && Settled(Directed(g, down), old(ChunksOf(S())), ChunksOf(S()), region, old(SetTxs(S(), x)), theta)
      ensures old(suboptimalIdxs) <= suboptimalIdxs && AllWorked(g, S(), suboptimalIdxs + skip)
      ensures SameLabels(old(S()), S(), region)
      ensures suboptimalChunks != [] && SpentMerging(old(cost), cost, |old(chunkIdxs)|, |chunkIdxs|, |g.anc|)
      ensures |setInfo| == |old(setInfo)| && IdxsBelow(suboptimalIdxs, |setInfo|)
    {
      hide RepOk, ValidForest, InSequence, AllWorked, NoMergeLeft, ClosedGraph, Directed, MergesLowest, ChunksOf, Settled,
        QueueOk, SameLabels, SpentSoFar, SpentMerging, MergeCost;
      ghost var s0 := S();
      y := x;
      SpentNothing(cost, |chunkIdxs|, |g.anc|);
      while true
        invariant ValidStore(g, S()) && y in chunkIdxs
        invariant suboptimalIdxs == old(suboptimalIdxs) && suboptimalChunks == old(suboptimalChunks)
        invariant InSequence(g, down, s0, S(), region, SetTxs(s0, x), y, theta, suboptimalIdxs + skip)
        invariant SpentSoFar(old(cost), cost, |old(chunkIdxs)|, |chunkIdxs|, |g.anc|) && |setInfo| == |old(setInfo)|
        decreases |chunkIdxs|
      {
        ghost var s := S();
        ghost var spent := cost;
        var r, d := MergeStep(down, y);
        SpentNext(old(cost), spent, cost, |old(chunkIdxs)|, |s.chunks|, |g.anc|);
        if r.None? {
          StoreSequenceDone(g, down, s0, s, region, SetTxs(s0, x), y, theta, suboptimalIdxs + skip);
          break;
        }
        StoreSequenceStep(g, down, s0, s, S(), region, SetTxs(s0, x), y, r.value, d, theta, suboptimalIdxs + skip);
        y := r.value;
      }
      ChunkMembers(g, S(), y);
      Enqueue(y);
      MoreSkipped(g, S(), old(suboptimalIdxs) + skip + {y}, suboptimalIdxs + skip);
    }

    /** Put chunk `x` in the queue of chunks to optimize, unless it is there already. */
    method Enqueue(x: SetIdx)
      requires QueueOk(suboptimalChunks, suboptimalIdxs)
      modifies `suboptimalIdxs, `suboptimalChunks
      ensures QueueOk(suboptimalChunks, suboptimalIdxs)
      ensures suboptimalIdxs == old(suboptimalIdxs) + {x} && suboptimalChunks != []
      ensures suboptimalChunks == if x in old(suboptimalIdxs) then old(suboptimalChunks) else old(suboptimalChunks) + [x]
    {
      if x !in suboptimalIdxs {
        suboptimalIdxs := suboptimalIdxs + {x};
        suboptimalChunks := suboptimalChunks + [x];
      }
    }

    /** Split a chunk on a dependency with a better top, then merge both parts until the state is topological again. */
    method Improve(parent: TxIdx, child: TxIdx)
      requires Cuts(g, S(), parent, child) && QueueOk(suboptimalChunks, suboptimalIdxs)
      requires Improvable(g, S(), parent, child, suboptimalIdxs)
      requires IdxsBelow(suboptimalIdxs, |setInfo|)
      modifies this
      ensures ValidStore(g, S()) && QueueOk(suboptimalChunks, suboptimalIdxs)
      ensures ClosedGraph(g) && Topological(NetOf(g), ChunksOf(S()))
      ensures AllWorked(g, S(), suboptimalIdxs)
      ensures NotWorse(g, old(ChunksOf(S())), ChunksOf(S()))
      ensures ChunksOf(S()) == old(ChunksOf(S())) || (parent in old(ChunksOf(S())) && HigherAt(g, old(ChunksOf(S())), ChunksOf(S()), old(Rate(g.fees, ChunksOf(S())[parent]))))
      ensures old(cost) < cost <= old(cost) + ImproveCost(|g.anc|) && suboptimalChunks != []
      ensures |setInfo| == |old(setInfo)| && IdxsBelow(suboptimalIdxs, |setInfo|)
    {
      hide RepOk, ValidForest, AllWorked, ClosedGraph, ChunksOf, Rate, Topological, Deactivates, SplitStore, QueueOk, NotWorse, CutRange, NetOf,
        DepsOf, ValidGraph, TopsDistinct, Merges, PairCost, HigherAt, IdxsBelow;
      ghost var s := S();
      CutFacts(g, s, parent, child);
      StoreFacts(g, s);
      var top, bottom := Deactivate(parent, child);
      ghost var s1, t := S(), SetTxs(s, top);
      DeactivatesSplit(g, s, s1, parent, child);
      SplitFacts(g, s, s1, bottom, top, t, suboptimalIdxs);
      ReachMeets(g, s1, bottom, top);
      PairIsMerge(|g.anc|);
      if reachable[top].up * setInfo[bottom].txs != {} {
        Rejoin(bottom, top, s, parent, t);
      } else {
        Reorganize(bottom, top, s, parent, t);
      }
    }

    /** Merge the parts of a split chunk again, because they depend on each other both ways. */
    method Rejoin(bottom: SetIdx, top: SetIdx, ghost s: Store, ghost parent: TxIdx, ghost t: Txs)
      requires ClosedGraph(g)
      requires QueueOk(suboptimalChunks, suboptimalIdxs) && IdxsBelow(suboptimalIdxs, |setInfo|)
      requires exists d <- DepsOf(g) :: d.parent in SetTxs(S(), bottom) && d.child in SetTxs(S(), top)
      requires Parted(g, s, S(), parent, bottom, top, t, suboptimalIdxs) && bottom in chunkIdxs && top in chunkIdxs && bottom != top
      modifies this
      ensures ValidStore(g, S()) && ChunksOf(S()) == ChunksOf(s) && NotWorse(g, ChunksOf(s), ChunksOf(S()))
      ensures QueueOk(suboptimalChunks, suboptimalIdxs) && suboptimalChunks != [] && AllWorked(g, S(), suboptimalIdxs)
      ensures old(cost) <= cost <= old(cost) + PairCost(|g.anc|) && |setInfo| == |old(setInfo)| && IdxsBelow(suboptimalIdxs, |setInfo|)
    {
      hide RepOk, ValidForest, AllWorked, ClosedGraph, ChunksOf, Rate, Topological, SplitStore, QueueOk, NotWorse, MergedStore, NetOf, DepsOf,
        PairCost, IdxsBelow;
      ghost var s1 := S();
      var merged := MergePair(bottom, top);
      MergedIdx(g, s1, S(), bottom, top, merged);
      IdxAdded(suboptimalIdxs, merged, |setInfo|);
      Enqueue(merged);
      SelfMerged(g, s, s1, S(), parent, bottom, top, merged, t, old(suboptimalIdxs));
      MoreSkipped(g, S(), old(suboptimalIdxs) + {bottom} + {top} + {merged}, suboptimalIdxs);
    }

    /** Merge the top of a split chunk upward and the bottom downward, for as long as possible. */
    method Reorganize(bottom: SetIdx, top: SetIdx, ghost s: Store, ghost parent: TxIdx, ghost t: Txs)
      requires ClosedGraph(g)
      requires QueueOk(suboptimalChunks, suboptimalIdxs) && IdxsBelow(suboptimalIdxs, |setInfo|)
      requires !exists d <- DepsOf(g) :: d.parent in SetTxs(S(), bottom) && d.child in SetTxs(S(), top)
      requires Parted(g, s, S(), parent, bottom, top, t, suboptimalIdxs) && bottom in chunkIdxs && top in chunkIdxs && bottom != top
      modifies this
      ensures ImprovedTo(g, s, S(), parent, suboptimalIdxs) && QueueOk(suboptimalChunks, suboptimalIdxs) && suboptimalChunks != []
      ensures old(cost) <= cost <= old(cost) + Merges(|g.anc| + 2, |g.anc|) && |setInfo| == |old(setInfo)| && IdxsBelow(suboptimalIdxs, |setInfo|)
    {
      hide ValidStore, QueueOk, DepsOf, Merges, IdxsBelow, SetTxs, Parted, TopMerged, ImprovedTo;
      ghost var s1, c1, queued := S(), cost, suboptimalIdxs;
      MergeTop(bottom, top, s, parent, t);
      ghost var s2, c2 := S(), cost;
      MergeBottom(bottom, top, s, s1, parent, t, queued);
      PartedCount(g, s, s1, parent, bottom, top, t, queued);
      TwoSequences(|g.anc|, |s1.chunks|, |s2.chunks|, |chunkIdxs|, c1, c2, cost);
    }

    /** Merge the top of a split chunk upward. */
    method MergeTop(bottom: SetIdx, top: SetIdx, ghost s: Store, ghost parent: TxIdx, ghost t: Txs)
      requires ClosedGraph(g)
      requires QueueOk(suboptimalChunks, suboptimalIdxs) && IdxsBelow(suboptimalIdxs, |setInfo|)
      requires !exists d <- DepsOf(g) :: d.parent in SetTxs(S(), bottom) && d.child in SetTxs(S(), top)
      requires Parted(g, s, S(), parent, bottom, top, t, suboptimalIdxs) && bottom in chunkIdxs && top in chunkIdxs && bottom != top
      modifies this
      ensures TopMerged(g, s, old(S()), S(), bottom, t, suboptimalIdxs)
      ensures QueueOk(suboptimalChunks, suboptimalIdxs) && |setInfo| == |old(setInfo)| && IdxsBelow(suboptimalIdxs, |setInfo|)
      ensures SpentMerging(old(cost), cost, |old(chunkIdxs)|, |chunkIdxs|, |g.anc|)
    {
      hide ValidStore, AllWorked, ClosedGraph, ChunksOf, Rate, Topological, SplitStore, InSequence, Settled, QueueOk, SameLabels, NetOf, DepsOf,
        SpentMerging, IdxsBelow, AboveRate, SetTxs, Directed;
      ghost var s1 := S();
      PartedFacts(g, s, s1, parent, bottom, top, t, suboptimalIdxs);
      ghost var theta := Rate(g.fees, SetTxs(s, bottom));
      TopBegins(g, s, s1, parent, bottom, top, t, suboptimalIdxs);
      var _ := MergeSequence(false, top, AboveRate(NetOf(g), ChunksOf(s1), theta), theta, {bottom});
    }

    /** Merge the bottom of a split chunk downward, after the top was merged. */
    method MergeBottom(bottom: SetIdx, top: SetIdx, ghost s: Store, ghost s1: Store, ghost parent: TxIdx, ghost t: Txs, ghost queued: set<SetIdx>)
      requires ClosedGraph(g)
      requires QueueOk(suboptimalChunks, suboptimalIdxs) && IdxsBelow(suboptimalIdxs, |setInfo|)
      requires !exists d <- DepsOf(g) :: d.parent in SetTxs(s1, bottom) && d.child in SetTxs(s1, top)
      requires Parted(g, s, s1, parent, bottom, top, t, queued) && TopMerged(g, s, s1, S(), bottom, t, suboptimalIdxs)
      modifies this
      ensures ImprovedTo(g, s, S(), parent, suboptimalIdxs) && QueueOk(suboptimalChunks, suboptimalIdxs) && suboptimalChunks != []
      ensures |setInfo| == |old(setInfo)| && IdxsBelow(suboptimalIdxs, |setInfo|)
      ensures SpentMerging(old(cost), cost, |old(chunkIdxs)|, |chunkIdxs|, |g.anc|)
    {
      hide ValidStore, AllWorked, ClosedGraph, ChunksOf, Rate, InSequence, Settled, QueueOk, SameLabels, DepsOf, SpentMerging, IdxsBelow, LowRegion,
        SetTxs, Directed, Parted, TopMerged, ImprovedTo;
      ghost var s2, theta := S(), Rate(g.fees, SetTxs(s, bottom));
      BottomReady(g, s, s1, s2, parent, bottom, top, t, queued, suboptimalIdxs);
      var _ := MergeSequence(true, bottom, LowRegion(g, s, s1, bottom), -theta, {});
      BottomDone(g, s, s1, s2, S(), parent, bottom, top, t, queued, old(suboptimalIdxs), suboptimalIdxs);
    }

    /** Add the transactions one by one in the order of `lin`, merging the chunk of each upward. */
    method LoadLinearization(lin: seq<TxIdx>)
      requires ValidStore(g, S()) && (forall v <- ChunksOf(S()) :: ChunksOf(S())[v] == {v})
      requires forall v <- lin :: v in g.anc
      modifies `txData, `setInfo, `reachable, `chunkIdxs, `cost
      ensures ValidStore(g, S()) && ClosedGraph(g) && old(cost) <= cost <= old(cost) + LoadCost(|g.anc|, |lin|) && |setInfo| == |old(setInfo)|
      ensures ValidOrder(g, lin) ==> Topological(NetOf(g), ChunksOf(S())) && LoadedWell(NetOf(g), ChunksOf(S()), lin, |lin|)
    {
      hide ValidStore, ClosedGraph, ChunksOf, LoadedUpTo, LoadedWell, Topological, ValidOrder, NetOf, Merges;
      ghost var all := |chunkIdxs|;
      ValidChunkCount(g, S());
      ValidFacts(g, S());
      LoadNothing(g, lin, S());
      MergesAdd(0, 0, |g.anc|);
      for i := 0 to |lin|
        invariant ValidStore(g, S()) && ClosedGraph(g) && LoadedUpTo(g, lin, i, S()) && |setInfo| == |old(setInfo)|
        invariant |chunkIdxs| <= all && old(cost) <= cost <= old(cost) + Merges(i + all - |chunkIdxs|, |g.anc|)
      {
        ghost var left := |chunkIdxs|;
        LoadOne(lin, i);
        MergesAdd(i + all - left, left - |chunkIdxs| + 1, |g.anc|);
      }
      MergesGrow(|lin| + all - |chunkIdxs|, |lin| + |g.anc|, |g.anc|);
      if ValidOrder(g, lin) {
        LoadedWhole(g, lin, S());
      }
    }

    /** Add the transaction at position `i`. */
    method LoadOne(lin: seq<TxIdx>, i: nat)
      requires ValidStore(g, S()) && ClosedGraph(g) && i < |lin| && (forall v <- lin :: v in g.anc) && LoadedUpTo(g, lin, i, S())
      modifies `txData, `setInfo, `reachable, `chunkIdxs, `cost
      ensures ValidStore(g, S()) && ClosedGraph(g) && LoadedUpTo(g, lin, i + 1, S()) && |setInfo| == |old(setInfo)|
      ensures SpentMerging(old(cost), cost, |old(chunkIdxs)|, |chunkIdxs|, |g.anc|)
    {
      hide RepOk, ValidForest, ClosedGraph, ChunksOf, LoadedUpTo, LoadingAt, MergesLowest, NoMergeLeft, Directed, ValidGraph, TopsDistinct,
        SpentSoFar, SpentMerging, MergeCost;
      assert lin[i] in lin;
      StoreFacts(g, S());
      TxFacts(g, S(), lin[i]);
      ghost var s0 := S();
      var x := txData[lin[i]].chunk;
      LoadBegins(g, lin, i, s0);
      SpentNothing(cost, |chunkIdxs|, |g.anc|);
      while true
        invariant ValidStore(g, S()) && x in chunkIdxs && LoadingAt(g, lin, i, s0, S(), x) && |setInfo| == |old(setInfo)|
        invariant SpentSoFar(old(cost), cost, |s0.chunks|, |chunkIdxs|, |g.anc|)
        decreases |chunkIdxs|
      {
        ghost var s := S();
        ghost var spent := cost;
        var r, d := MergeStep(false, x);
        SpentNext(old(cost), spent, cost, |s0.chunks|, |s.chunks|, |g.anc|);
        if r.None? {
          break;
        }
        LoadMerges(g, lin, i, s0, s, S(), x, r.value, d);
        x := r.value;
      }
      LoadEnds(g, lin, i, s0, S(), x);
    }

    /** Put every chunk in the queue, in random order. */
    method FillQueue()
      requires suboptimalChunks == []
      modifies `suboptimalIdxs, `suboptimalChunks
      ensures suboptimalIdxs == chunkIdxs && QueueOk(suboptimalChunks, suboptimalIdxs)
    {
      suboptimalIdxs := chunkIdxs;
      var todo := chunkIdxs;
      assert chunkIdxs - todo == {};
      while todo != {}
        invariant todo <= chunkIdxs == suboptimalIdxs && QueueOk(suboptimalChunks, chunkIdxs - todo)
      {
        hide QueueOk;
        var x :| x in todo;
        var j :| 0 <= j <= |suboptimalChunks|;
        QueueInsert(suboptimalChunks, chunkIdxs - todo, x, j);
        suboptimalChunks := suboptimalChunks + [x];
        if j != |suboptimalChunks| - 1 {
          suboptimalChunks := suboptimalChunks[|suboptimalChunks| - 1 := suboptimalChunks[j]][j := x];
        }
        assert chunkIdxs - (todo - {x}) == chunkIdxs - todo + {x};
        todo := todo - {x};
      }
      assert chunkIdxs - todo == chunkIdxs;
    }

    /** Take the first chunk index off the queue. */
    method Dequeue() returns (x: SetIdx)
      requires suboptimalChunks != [] && QueueOk(suboptimalChunks, suboptimalIdxs)
      modifies `suboptimalIdxs, `suboptimalChunks
      ensures x in old(suboptimalIdxs) && suboptimalIdxs == old(suboptimalIdxs) - {x}
      ensures QueueOk(suboptimalChunks, suboptimalIdxs) && |suboptimalChunks| == |old(suboptimalChunks)| - 1
    {
      x := suboptimalChunks[0];
      QueueTail(suboptimalChunks, suboptimalIdxs);
      suboptimalIdxs := suboptimalIdxs - {x};
      suboptimalChunks := suboptimalChunks[1..];
    }

    /** Merge chunk `x` in the given direction if it is to be tried, and queue the result. */
    method TryMerge(down: bool, tried: bool, x: SetIdx) returns (r: Option<SetIdx>, ghost d: Dep)
      requires ValidStore(g, S()) && x in chunkIdxs && QueueOk(suboptimalChunks, suboptimalIdxs)
      modifies this
      ensures ClosedGraph(g) && ValidStore(g, S()) && QueueOk(suboptimalChunks, suboptimalIdxs)
      ensures old(cost) <= cost <= old(cost) + MergeCost(|g.anc|) && |setInfo| == |old(setInfo)|
      ensures |chunkIdxs| == |old(chunkIdxs)| - (if r.Some? then 1 else 0) && |old(suboptimalChunks)| <= |suboptimalChunks| <= |old(suboptimalChunks)| + 1
      ensures r.None? ==> S() == old(S()) && suboptimalIdxs == old(suboptimalIdxs) && suboptimalChunks == old(suboptimalChunks)
      ensures r.None? && tried ==> NoMergeLeft(Directed(g, down), ChunksOf(S()), SetTxs(S(), x))
      ensures r.Some? ==> MergesLowest(g, down, old(S()), S(), x, r.value, d) && suboptimalIdxs == old(suboptimalIdxs) + {r.value}
    {
      hide RepOk, ValidForest, ClosedGraph, MergesLowest, NoMergeLeft, Directed, ChunksOf, QueueOk, ValidGraph, TopsDistinct;
      r, d := None, Dep(0, 0);
      StoreFacts(g, S());
      if tried {
        r, d := MergeStep(down, x);
        if r.Some? {
          Enqueue(r.value);
        }
      }
    }

    /** Merge until no dependency is violated; chunks not made by a merge are tried in one direction only. */
    method MakeTopological()
      requires ValidStore(g, S()) && ClosedGraph(g) && suboptimalChunks == []
      modifies this
      ensures ValidStore(g, S()) && suboptimalChunks == [] && suboptimalIdxs == {}
      ensures old(cost) + 48 * |old(chunkIdxs)| <= cost <= old(cost) + TopologicalCost(|g.anc|) && |setInfo| == |old(setInfo)|
      ensures ClosedGraph(g) && Topological(NetOf(g), ChunksOf(S()))
      ensures old(Topological(NetOf(g), ChunksOf(S()))) ==> S() == old(S())
    {
      hide RepOk, ValidForest, ClosedGraph, MergesLowest, NoMergeLeft, Directed, ChunksOf, QueueOk, Untangling, Topological, NetOf, Merges, MergeCost;
      var initDown: bool := *;
      var mergedChunks: set<SetIdx> := {};
      FillQueue();
      UntanglingStart(g, S(), initDown);
      var chunks, steps := |chunkIdxs|, 0;
      ChunkCount(g, S());
      QueueLength(suboptimalChunks, suboptimalIdxs);
      MergesAdd(0, 0, |g.anc|);
      while suboptimalChunks != []
        invariant ValidStore(g, S()) && QueueOk(suboptimalChunks, suboptimalIdxs) && cost >= old(cost) && steps >= 0
        invariant Untangling(g, S(), suboptimalIdxs, mergedChunks, initDown)
        invariant old(Topological(NetOf(g), ChunksOf(S()))) ==> S() == old(S())
        invariant steps + 2 * |chunkIdxs| + |suboptimalChunks| <= 3 * chunks && |setInfo| == |old(setInfo)|
        invariant cost <= old(cost) + Merges(2 * steps, |g.anc|) && steps + |suboptimalChunks| >= chunks
        decreases |chunkIdxs|, |suboptimalChunks|
      {
        MergesAdd(2 * steps, 1, |g.anc|);
        MergesAdd(2 * steps + 1, 1, |g.anc|);
        steps := steps + 1;
        ghost var s, queued := S(), suboptimalIdxs;
        var x := Dequeue();
        if x !in chunkIdxs {
          UntanglingStale(g, s, queued, mergedChunks, initDown, x);
          continue;
        }
        var up, down := x in mergedChunks || !initDown, x in mergedChunks || initDown;
        var first: bool := *;
        var dir := first;
        var r, d := TryMerge(dir, if dir then down else up, x);
        if r.None? {
          dir := !first;
          r, d := TryMerge(dir, if dir then down else up, x);
        }
        if r.Some? {
          TopologicalStays(g, s, S(), dir, x, r.value, d);
          UntanglingMerged(g, s, S(), queued, mergedChunks, initDown, dir, x, r.value, d);
          mergedChunks := mergedChunks + {r.value};
        } else {
          UntanglingSettled(g, s, queued, mergedChunks, initDown, x);
        }
      }
      QueueEmpty(suboptimalIdxs);
      UntanglingDone(g, S(), mergedChunks, initDown);
      MergesGrow(2 * steps, 6 * |g.anc|, |g.anc|);
      cost := cost + 20 * chunks + 28 * steps;
    }

    /** Queue every chunk for optimization. */
    method StartOptimizing()
      requires suboptimalChunks == []
      modifies `suboptimalIdxs, `suboptimalChunks, `cost
      ensures suboptimalIdxs == chunkIdxs && QueueOk(suboptimalChunks, suboptimalIdxs) && cost == old(cost) + 13 * |chunkIdxs|
    {
      FillQueue();
      QueueLength(suboptimalChunks, suboptimalIdxs);
      cost := cost + 13 * |suboptimalChunks|;
    }

    /** The first index in the queue that still is a chunk; what was queued before it is dropped. */
    method PickChunkToOptimize() returns (x: Option<SetIdx>)
      requires QueueOk(suboptimalChunks, suboptimalIdxs)
      modifies `suboptimalIdxs, `suboptimalChunks, `cost
      ensures QueueOk(suboptimalChunks, suboptimalIdxs) && cost == old(cost) + |old(suboptimalChunks)| - |suboptimalChunks| + 4 && |suboptimalChunks| <= |old(suboptimalChunks)|
      ensures suboptimalIdxs <= old(suboptimalIdxs)
      ensures x.None? ==> suboptimalChunks == [] && old(suboptimalIdxs) !! chunkIdxs
      ensures x.Some? ==> x.value in chunkIdxs && forall y <- old(suboptimalIdxs) | y in chunkIdxs && y != x.value :: y in suboptimalIdxs
    {
      hide QueueOk;
      var steps := 0;
      while suboptimalChunks != []
        invariant QueueOk(suboptimalChunks, suboptimalIdxs) && steps >= 0 && cost == old(cost)
        invariant steps + |suboptimalChunks| == |old(suboptimalChunks)| && suboptimalIdxs <= old(suboptimalIdxs)
        invariant forall y <- old(suboptimalIdxs) | y in chunkIdxs :: y in suboptimalIdxs
        decreases |suboptimalChunks|
      {
        steps := steps + 1;
        var y := Dequeue();
        if y in chunkIdxs {
          cost := cost + steps + 4;
          return Some(y);
        }
      }
      QueueEmpty(suboptimalIdxs);
      cost := cost + steps + 4;
      x := None;
    }

    /** Some active dependency of chunk `x` whose top has a higher feerate than the chunk, if there is one. */
    method PickDependencyToSplit(x: SetIdx) returns (dep: Option<(TxIdx, TxIdx)>)
      requires ValidStore(g, S()) && x in chunkIdxs
      modifies `cost
      ensures cost == old(cost) + 8 * |SetTxs(S(), x)| + 9 && |SetTxs(S(), x)| <= |g.anc|
      ensures dep.None? ==> NothingToSplit(g.fees, Meaning(S()), SetTxs(S(), x))
      ensures dep.Some? ==> Splits(g, S(), x, dep.value)
    {
      hide RepOk, ValidForest, Rate, ActiveDeps, CompareByRatio, NothingToSplit, Meaning, NoneSeen;
      ghost var s := S();
      ChunkMembers(g, s, x);
      ChunkSize(g, s, x);
      var info := setInfo[x];
      dep := None;
      var bestTiebreak: nat := 0;
      var todo := info.txs;
      ghost var done: Txs, last: TxIdx := {}, 0;
      ghost var higher := HigherTops(g, s);
      NoneSeenYet(s.tx, higher);
      while todo != {}
        invariant todo <= info.txs && done == info.txs - todo && S() == s && cost == old(cost)
        invariant dep.None? ==> bestTiebreak == 0 && NoneSeen(s.tx, higher, done, last, {})
        invariant dep.Some? ==> Splits(g, s, x, dep.value)
      {
        var v :| v in todo;
        todo := todo - {v};
        if dep.None? { SeeNextTx(s.tx, higher, done, v, last); }
        done, last := done + {v}, v;
        var left := txData[v].active;
        while left != {}
          invariant left <= txData[v].active && cost == old(cost)
          invariant dep.None? ==> bestTiebreak == 0 && NoneSeen(s.tx, higher, done, v, left)
          invariant dep.Some? ==> Splits(g, s, x, dep.value)
        {
          var c :| c in left;
          ActiveDep(txData, Dep(v, c));
          TopCompare(g, s, v, c);
          ChunkIs(g, s, x, v);
          if dep.None? && Dep(v, c) !in higher { SeeNextChild(s.tx, higher, done, v, left, c); }
          left := left - {c};
          var cmp := CompareByRatio(setInfo[txData[v].depTop[c]].frac, info.frac);
          if cmp <= 0 { continue; }
          var tiebreak :| tiebreak >= 0;
          if tiebreak < bestTiebreak { continue; }
          dep := Some((v, c));
          bestTiebreak := tiebreak;
        }
      }
      cost := cost + 8 * |info.txs| + 9;
      assert done == info.txs;
      if dep.None? {
        NoneHigher(g, s, x, last);
      }
    }

    /** Improve one queued chunk. False if no chunk is left to improve, and then the state is optimal. */
    method OptimizeStep() returns (more: bool)
      requires ValidStore(g, S()) && QueueOk(suboptimalChunks, suboptimalIdxs)
      requires ClosedGraph(g) && Topological(NetOf(g), ChunksOf(S())) && AllWorked(g, S(), suboptimalIdxs)
      requires |setInfo| == |g.anc| && IdxsBelow(suboptimalIdxs, |setInfo|)
      modifies this
      ensures ValidStore(g, S()) && QueueOk(suboptimalChunks, suboptimalIdxs)
      ensures Topological(NetOf(g), ChunksOf(S())) && AllWorked(g, S(), suboptimalIdxs)
      ensures NotWorse(g, old(ChunksOf(S())), ChunksOf(S())) && SameOrHigher(g, old(ChunksOf(S())), ChunksOf(S()))
      ensures (more <==> suboptimalChunks != []) && (!more ==> AllWorked(g, S(), {}))
      ensures old(cost) < cost <= old(cost) + OptimizeCost(|g.anc|) && |setInfo| == |g.anc| && IdxsBelow(suboptimalIdxs, |setInfo|)
    {
      hide RepOk, ValidForest, ClosedGraph, Topological, AllWorked, QueueOk, NothingToSplit, Meaning, ChunksOf, NotWorse, NetOf, ActiveDeps, ImproveCost;
      QueueLength(suboptimalChunks, suboptimalIdxs);
      RangeSize(suboptimalIdxs, |setInfo|);
      ghost var s := S();
      SameNotWorse(g, ChunksOf(s));
      var picked := PickChunkToOptimize();
      if picked.None? {
        MoreSkipped(g, s, old(suboptimalIdxs), suboptimalIdxs);
        MoreSkipped(g, s, old(suboptimalIdxs), {});
        return false;
      }
      var x := picked.value;
      MoreSkipped(g, s, old(suboptimalIdxs), suboptimalIdxs + {x});
      var dep := PickDependencyToSplit(x);
      if dep.None? {
        WorkedNow(g, s, suboptimalIdxs, x);
        if suboptimalChunks == [] {
          QueueEmpty(suboptimalIdxs);
        }
        return suboptimalChunks != [];
      }
      var (parent, child) := dep.value;
      CutFacts(g, s, parent, child);
      Improve(parent, child);
      return true;
    }

    /** Queue every chunk for minimization, with a random pivot in it and a random first direction. */
    method StartMinimizing()
      requires ValidStore(g, S()) && ClosedGraph(g) && Topological(NetOf(g), ChunksOf(S())) && AllWorked(g, S(), {})
      modifies `nonminimalChunks, `cost
      ensures Minimizing(g, S(), nonminimalChunks) && cost == old(cost) + 18 * |chunkIdxs| && |chunkIdxs| <= |g.anc|
    {
      hide ValidStore, ClosedGraph, Topological, AllWorked, NetOf, PendingOk, Minimizing, DepsOf, FirstStage;
      ghost var s := S();
      nonminimalChunks := [];
      FirstStageStart(g, s);
      var todo := chunkIdxs;
      while todo != {}
        invariant S() == s && todo <= chunkIdxs && cost == old(cost) && |nonminimalChunks| + |todo| == |chunkIdxs|
        invariant FirstStage(g, s, nonminimalChunks, chunkIdxs - todo)
      {
        var x :| x in todo;
        ChunkFilled(g, s, x);
        var pivot :| pivot in setInfo[x].txs;
        var down: bool := *;
        var entry := Pending(x, pivot, down, false);
        var j :| 0 <= j <= |nonminimalChunks|;
        FirstStageNext(g, s, nonminimalChunks, chunkIdxs - todo, entry, j);
        nonminimalChunks := nonminimalChunks + [entry];
        if j != |nonminimalChunks| - 1 {
          nonminimalChunks := nonminimalChunks[|nonminimalChunks| - 1 := nonminimalChunks[j]][j := entry];
        }
        assert chunkIdxs - (todo - {x}) == chunkIdxs - todo + {x};
        todo := todo - {x};
      }
      assert chunkIdxs - todo == chunkIdxs;
      FirstStageDone(g, s, nonminimalChunks);
      ValidChunkCount(g, s);
      cost := cost + 18 * |nonminimalChunks|;
    }

    /** Some active dependency that splits chunk `x` evenly with the pivot below (`down`) or above it, if there is one. */
    method PickEvenDependency(x: SetIdx, pivot: TxIdx, down: bool) returns (haveAny: bool, dep: Option<(TxIdx, TxIdx)>)
      requires ValidStore(g, S()) && ClosedGraph(g) && AllWorked(g, S(), {}) && x in chunkIdxs && pivot in SetTxs(S(), x)
      modifies `cost
      ensures cost == old(cost) + 11 * |SetTxs(S(), x)| + 11 && |SetTxs(S(), x)| <= |g.anc|
      ensures !haveAny ==> MinimalIn(g, S(), x)
      ensures dep.None? ==> NoEvenPart(DepsOf(g), g.fees, SetTxs(S(), x), pivot, !down)
      ensures dep.Some? ==> haveAny && SplitsEvenly(g, S(), x, pivot, down, dep.value)
    {
      hide RepOk, ValidForest, Rate, ActiveDeps, CompareByRatio, AllWorked, NoneSeen, ClosedGraph, NoEvenPart, MinimalIn;
      ghost var s := S();
      ChunkMembers(g, s, x);
      ChunkSize(g, s, x);
      var info := setInfo[x];
      haveAny, dep := false, None;
      var bestTiebreak: nat := 0;
      var todo := info.txs;
      ghost var done: Txs, last: TxIdx, even, right := {}, 0, EvenTops(g, s), PivotTops(g, s, pivot, down);
      NoneSeenYet(s.tx, even);
      NoneSeenYet(s.tx, right);
      while todo != {}
        invariant todo <= info.txs && done == info.txs - todo && S() == s && cost == old(cost)
        invariant !haveAny ==> NoneSeen(s.tx, even, done, last, {})
        invariant dep.None? ==> bestTiebreak == 0 && NoneSeen(s.tx, right, done, last, {})
        invariant dep.Some? ==> haveAny && SplitsEvenly(g, s, x, pivot, down, dep.value)
      {
        var v :| v in todo;
        todo := todo - {v};
        if !haveAny { SeeNextTx(s.tx, even, done, v, last); }
        if dep.None? { SeeNextTx(s.tx, right, done, v, last); }
        done, last := done + {v}, v;
        var left := txData[v].active;
        while left != {}
          invariant left <= txData[v].active && cost == old(cost)
          invariant !haveAny ==> NoneSeen(s.tx, even, done, v, left)
          invariant dep.None? ==> bestTiebreak == 0 && NoneSeen(s.tx, right, done, v, left)
          invariant dep.Some? ==> haveAny && SplitsEvenly(g, s, x, pivot, down, dep.value)
        {
          var c :| c in left;
          ActiveDep(txData, Dep(v, c));
          TopCompare(g, s, v, c);
          ChunkIs(g, s, x, v);
          if !haveAny && Dep(v, c) !in even { SeeNextChild(s.tx, even, done, v, left, c); }
          if dep.None? && Dep(v, c) !in right { SeeNextChild(s.tx, right, done, v, left, c); }
          left := left - {c};
          var top := setInfo[txData[v].depTop[c]];
          if CompareByRatio(top.frac, info.frac) < 0 { continue; }
          haveAny := true;
          if down == (pivot in top.txs) { continue; }
          var tiebreak :| tiebreak >= 1;
          if tiebreak > bestTiebreak {
            bestTiebreak := tiebreak;
            dep := Some((v, c));
          }
        }
      }
      cost := cost + 11 * |info.txs| + 11;
      assert done == info.txs;
      if !haveAny { NoEvenTop(g, s, x, pivot, last); }
      if dep.None? { SearchedPivot(g, s, x, pivot, down, last); }
    }

    /** Try to split one queued chunk into parts of equal feerate. False if no chunk is queued, and then all are minimal. */
    method MinimizeStep() returns (more: bool)
      requires Minimizing(g, S(), nonminimalChunks)
      modifies `txData, `setInfo, `reachable, `chunkIdxs, `nonminimalChunks, `cost
      ensures Minimizing(g, S(), nonminimalChunks)
      ensures SameDiagram(g, old(ChunksOf(S())), ChunksOf(S()))
      ensures more <==> old(nonminimalChunks) != []
      ensures more ==> old(cost) < cost <= old(cost) + MinimizeCost(|g.anc|)
      ensures !more ==> nonminimalChunks == [] && cost == old(cost)
    {
      hide ValidStore, ClosedGraph, AllWorked, Minimizing, MinimalIn, NoEvenPart, ChunksOf, DepsOf, SameDiagram, Orderly, NetOf,
        SplitStore, Deactivates, CutRange, SplitsEvenly, MergedStore, Worked, Rate, PartEntries, EvenPart;
      ghost var s, queue := S(), nonminimalChunks;
      DiagramIsSame(g, ChunksOf(s));
      if nonminimalChunks == [] {
        return false;
      }
      MinimizingFacts(g, s, queue);
      var entry := nonminimalChunks[0];
      assert PendingOk(g, s, queue[0]);
      nonminimalChunks := nonminimalChunks[1..];
      var haveAny, dep := PickEvenDependency(entry.chunk, entry.pivot, entry.down);
      if !haveAny {
        FoundMinimal(g, s, queue);
        return true;
      }
      if dep.None? {
        FoundNothing(g, s, queue);
        if !entry.second {
          nonminimalChunks := nonminimalChunks + [entry.(down := !entry.down, second := true)];
        }
        return true;
      }
      SplitEvenly(entry, dep.value.0, dep.value.1, queue);
      return true;
    }

    /** Split the chunk of `entry`, which was first in the queue, on the given dependency, unless the parts depend on each other. */
    method SplitEvenly(entry: Pending, parent: TxIdx, child: TxIdx, ghost queue: seq<Pending>)
      requires queue != [] && entry == queue[0] && nonminimalChunks == queue[1..] && Minimizing(g, S(), queue)
      requires SplitsEvenly(g, S(), entry.chunk, entry.pivot, entry.down, (parent, child))
      modifies `txData, `setInfo, `reachable, `chunkIdxs, `nonminimalChunks, `cost
      ensures Minimizing(g, S(), nonminimalChunks)
      ensures SameDiagram(g, old(ChunksOf(S())), ChunksOf(S()))
      ensures old(cost) < cost <= old(cost) + SplitCost(|g.anc|) + PairCost(|g.anc|) + 24
    {
      hide ValidStore, ClosedGraph, AllWorked, Minimizing, MinimalIn, NoEvenPart, ChunksOf, DepsOf, SameDiagram, Orderly, NetOf,
        SplitStore, Deactivates, CutRange, MergedStore, Worked, Rate, EvenPart, Meaning, PivotTops, ActiveDeps;
      ghost var s, x := S(), entry.chunk;
      MinimizingFacts(g, s, queue);
      assert PendingOk(g, s, queue[0]);
      var top, bottom := Deactivate(parent, child);
      ghost var s1, t := S(), SetTxs(s, top);
      DeactivatesSplit(g, s, s1, parent, child);
      EvenlySplit(g, s, s1, x, entry.pivot, entry.down, parent, child);
      PartFacts(g, s, s1, x, top, t);
      if reachable[top].up * setInfo[bottom].txs != {} {
        var merged := MergePair(bottom, top);
        nonminimalChunks := nonminimalChunks + [entry.(chunk := merged)];
        cost := cost + 7;
        MergedBack(g, s, s1, S(), queue, parent, top, merged, t);
        DiagramIsSame(g, ChunksOf(s));
      } else {
        NoDepsBetween(g, s, x, t);
        var pivot :| pivot in setInfo[if entry.down then top else bottom].txs;
        var down: bool := *;
        var other := Pending(if entry.down then top else bottom, pivot, down, false);
        var upper, lower := if entry.down then other else entry.(chunk := top), if entry.down then entry else other;
        PartsPending(g, s, s1, entry, top, t, upper, lower);
        var swap: bool := *;
        var added := if swap then [lower, upper] else [upper, lower];
        SplitForGood(g, s, s1, queue, parent, top, t, added);
        SplitSameDiagram(g, ChunksOf(s), ChunksOf(s1));
        nonminimalChunks := nonminimalChunks + added;
        cost := cost + 24;
      }
    }

    /** The linearization that the chunks make; see `Emitting`. */
    method GetLinearization(fallback: Comparator) returns (lin: seq<TxIdx>, ghost cs: seq<Txs>)
      requires ValidStore(g, S()) && ClosedGraph(g) && Orderly(NetOf(g), ChunksOf(S())) && StrongOrder(fallback)
      ensures ValidOrder(g, lin) && ReachesDiagram(g.fees, lin, ChunksOf(S()))
      ensures BlockSet(cs) == ChunksOf(S()).Values && InBlocks(lin, cs)
      ensures ChunkSequence(NetOf(g), fallback, ChunksOf(S()), cs) && TxSequence(NetOf(g), fallback, ChunksOf(S()), lin)
    {
      hide ValidStore, ClosedGraph, DepsOf, ChunksOf, Orderly, StrongOrder, ValidOrder, ReachesDiagram, InBlocks, ChunkSequence, TxSequence;
      lin, cs := Emitting.GetLinearization(g, Store(txData, setInfo, reachable, chunkIdxs), fallback);
    }
  }
}
