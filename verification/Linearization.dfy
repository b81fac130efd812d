/** Finding or improving a linearization of a cluster within a cost budget. */
module Linearization {
  import opened CostBounds
  import opened ForestInit
  import opened FeeRates
  import opened Forests
  import opened Topology
  import opened Diagrams
  import opened Optimality
  import opened Minimality
  import opened DepGraphs
  import opened ForestStore
  import opened Merging
  import opened ForestSteps
  import opened MinimizeSteps
  import opened Loading
  import opened Ordering
  import opened SpanningForests
  import opened GroupLists
  import opened Chunkings

  /** Holds all ancestors of its members. */
  ghost predicate ClosedUpward(g: Graph, t: Txs) {
    t <= g.anc.Keys && forall v <- t :: g.anc[v] <= t
  }

  /** At every feerate, some prefix earns at least what any set closed under ancestors earns. */
  ghost predicate OptimalOrder(g: Graph, lin: seq<TxIdx>) {
    forall lam: real, t: Txs | ClosedUpward(g, t) :: SomePrefixEarns(g.fees, lam, lin, Surplus(g.fees, lam, t))
  }

  /** `cs` are the chunks of `lin`, and no chunk can be split at its own feerate. */
  ghost predicate MinimalChunks(g: Graph, lin: seq<TxIdx>, cs: seq<Txs>)
    requires ClosedGraph(g)
  {
    && (exists l: Groups :: IsChunking(g.fees, lin, l) && SetsOf(l) == cs)
    && forall x <- cs :: Minimal(DepsOf(g), g.fees, x)
  }

  /** `lin` lists the blocks `cs` of the partition `ch` in the documented order, and each block inside in the documented order. */
  ghost predicate Documented(g: Graph, fallback: Comparator, lin: seq<TxIdx>, ch: Chunks, cs: seq<Txs>)
    requires ClosedGraph(g)
  {
    && Partitions(g.anc.Keys, ch) && BlockSet(cs) == ch.Values && InBlocks(lin, cs)
    && ChunkSequence(NetOf(g), fallback, ch, cs) && TxSequence(NetOf(g), fallback, ch, lin)
  }

  /** A state whose optimization queue has drained is optimal. */
  lemma {:induction false} DrainedIsOptimal(g: Graph, s: Store, t: Txs, lam: real)
    requires ValidStore(g, s) && AllWorked(g, s, {}) && ClosedUpward(g, t)
    ensures Surplus(g.fees, lam, t) <= Diagram(g.fees, lam, ChunksOf(s).Values)
  {
    hide RepOk, ValidForest, NothingToSplit, Surplus, Gain, DepsOf, TopsDistinct;
    StoreFacts(g, s);
    var f := Meaning(s);
    ClosedByReduction(g, t);
    assert AncestorClosed(DepsOf(g), t);
    forall v <- f.chunk ensures NothingToSplit(g.fees, f, f.chunk[v]) {
      ChunkSets(g, s, v);
      assert SetTxs(s, s.tx[v].chunk) == f.chunk[v];
    }
    DiagramIsOptimal(g.anc.Keys, DepsOf(g), g.fees, f, t, lam);
  }

  lemma {:induction false} NotWorseTrans(g: Graph, a: Chunks, b: Chunks, c: Chunks)
    requires NotWorse(g, a, b) && NotWorse(g, b, c)
    ensures NotWorse(g, a, c)
  {
    hide Gain;
    forall lam: real ensures Diagram(g.fees, lam, c.Values) >= Diagram(g.fees, lam, a.Values) {
      assert Diagram(g.fees, lam, c.Values) >= Diagram(g.fees, lam, b.Values);
      assert Diagram(g.fees, lam, b.Values) >= Diagram(g.fees, lam, a.Values);
    }
  }

  lemma {:induction false} EvenNotWorse(g: Graph, a: Chunks, b: Chunks)
    requires SameDiagram(g, a, b)
    ensures NotWorse(g, a, b)
  {
    hide Gain;
    forall lam: real ensures Diagram(g.fees, lam, b.Values) >= Diagram(g.fees, lam, a.Values) {
      assert Diagram(g.fees, lam, b.Values) == Diagram(g.fees, lam, a.Values);
    }
  }

  lemma {:induction false} PrefixWeaker(fees: Fees, lam: real, lin: seq<TxIdx>, a: real, b: real)
    requires SomePrefixEarns(fees, lam, lin, a) && b <= a
    ensures SomePrefixEarns(fees, lam, lin, b)
  {
    hide Surplus;
    var m: nat :| PrefixEarns(fees, lam, lin, m, a);
    assert PrefixEarns(fees, lam, lin, m, b);
  }

  lemma {:induction false} GoodAsOld(g: Graph, lin: seq<TxIdx>, other: seq<TxIdx>, loaded: Chunks, ch: Chunks)
    requires ReachesDiagram(g.fees, lin, ch) && NotWorse(g, loaded, ch) && ClosedGraph(g) && ValidOrder(g, other)
    requires LoadedWell(NetOf(g), loaded, other, |other|) && loaded.Keys == g.anc.Keys
    ensures NoWorse(g.fees, lin, other)
  {
    hide Surplus, Gain, SomePrefixEarns, DepsOf, ClosedGraph;
    assert other[..|other|] == other;
    assert Restrict(loaded, Elems(other)) == loaded;
    forall lam: real, k: nat | k <= |other| ensures SomePrefixEarns(g.fees, lam, lin, Surplus(g.fees, lam, Elems(other[..k]))) {
      assert Diagram(g.fees, lam, Restrict(loaded, Elems(other[..|other|])).Values) >= Surplus(g.fees, lam, Elems(other[..k]));
      assert Diagram(g.fees, lam, ch.Values) >= Diagram(g.fees, lam, loaded.Values);
      PrefixWeaker(g.fees, lam, lin, Diagram(g.fees, lam, ch.Values), Surplus(g.fees, lam, Elems(other[..k])));
    }
  }

  lemma {:induction false} GoodAsAny(g: Graph, s: Store, lin: seq<TxIdx>)
    requires ValidStore(g, s) && AllWorked(g, s, {}) && ReachesDiagram(g.fees, lin, ChunksOf(s))
    ensures OptimalOrder(g, lin)
  {
    hide ValidStore, AllWorked, Surplus, Gain, SomePrefixEarns, ClosedUpward, ChunksOf;
    forall lam: real, t: Txs | ClosedUpward(g, t) ensures SomePrefixEarns(g.fees, lam, lin, Surplus(g.fees, lam, t)) {
      DrainedIsOptimal(g, s, t, lam);
      PrefixWeaker(g.fees, lam, lin, Diagram(g.fees, lam, ChunksOf(s).Values), Surplus(g.fees, lam, t));
    }
  }

  // ----- Minimal chunks

  /** A part of a minimal, worked chunk that holds its in-chunk parents has a lower feerate. */
  lemma {:induction false} MinimalPartLower(txs: Txs, deps: set<Dep>, fees: Fees, f: Forest, y: TxIdx, u: Txs)
    requires ValidForest(txs, deps, f) && PositiveSizes(fees) && y in f.chunk && u != {} && u < f.chunk[y]
    requires NothingToSplit(fees, f, f.chunk[y]) && Minimal(deps, fees, f.chunk[y])
    requires forall d <- deps | d.child in u && d.parent in f.chunk[y] :: d.parent in u
    ensures Rate(fees, u) < Rate(fees, f.chunk[y])
  {
    hide Rate, Surplus, Connected, HasTop, NothingToSplit;
    var x := f.chunk[y];
    assert UpClosed(f, x, u);
    UpClosedPartLow(txs, deps, fees, f, y, u);
    SurplusSign(fees, Rate(fees, x), u);
    assert !EvenPart(deps, fees, x, u);
  }

  /** In a valid order, what a prefix of a block needs of the block is in the prefix. */
  lemma {:induction false} PrefixHolds(g: Graph, a: seq<TxIdx>, c: seq<TxIdx>, b: seq<TxIdx>, k: nat, v: TxIdx, u: TxIdx)
    requires ValidOrder(g, a + c + b) && k <= |c| && v in Elems(c[..k]) && v in g.anc && u in g.anc[v] && u in Elems(c)
    ensures u in Elems(c[..k])
  {
    hide ValidOrder, Elems;
    var lin := a + c + b;
    var j := PlaceOf(c, k, v);
    assert lin[|a| + j] == v;
    OrderAt(g, lin, |a| + j);
    var m := PlaceOf(lin, |a| + j + 1, u);
    assert c[..|c|] == c;
    var p := PlaceOf(c, |c|, u);
    assert lin[|a| + p] == u;
    OrderPlace(g, lin, m, |a| + p);
    InPrefix(c, p, k);
  }

  /** Every proper prefix of a minimal chunk in a valid order has a lower feerate. */
  lemma {:induction false} MinimalStrict(g: Graph, s: Store, a: seq<TxIdx>, c: seq<TxIdx>, b: seq<TxIdx>)
    requires ValidStore(g, s) && AllWorked(g, s, {}) && ClosedGraph(g) && ValidOrder(g, a + c + b) && Elems(c) in ChunksOf(s).Values
    requires Minimal(DepsOf(g), g.fees, Elems(c))
    ensures StrictPrefixes(g.fees, c)
  {
    hide RepOk, ValidForest, NothingToSplit, TopsDistinct, Minimal, Rate, DepsOf, ValidOrder, ClosedGraph;
    StoreFacts(g, s);
    var f := Meaning(s);
    var y :| y in ChunksOf(s) && ChunksOf(s)[y] == Elems(c);
    ChunkSets(g, s, y);
    assert NothingToSplit(g.fees, f, SetTxs(s, s.tx[y].chunk));
    forall k | 0 < k < |c| ensures Rate(g.fees, Elems(c[..k])) < Rate(g.fees, Elems(c)) {
      var u := Elems(c[..k]);
      ProperPrefix(g, a, c, b, k);
      forall d <- DepsOf(g) | d.child in u && d.parent in Elems(c) ensures d.parent in u {
        NetValid(g);
        PrefixHolds(g, a, c, b, k, d.child, d.parent);
      }
      MinimalPartLower(g.anc.Keys, DepsOf(g), g.fees, f, y, u);
    }
  }

  lemma {:induction false} ProperPrefix(g: Graph, a: seq<TxIdx>, c: seq<TxIdx>, b: seq<TxIdx>, k: nat)
    requires ValidOrder(g, a + c + b) && 0 < k < |c|
    ensures Elems(c[..k]) != {} && Elems(c[..k]) < Elems(c)
  {
    assert c[..k][0] in Elems(c[..k]);
    assert c[k] in Elems(c);
    forall j | 0 <= j < k ensures c[..k][j] != c[k] {
      assert (a + c + b)[|a| + j] == c[j] && (a + c + b)[|a| + k] == c[k];
    }
  }

  /** The blocks of an optimal state with minimal chunks are the chunks of the order that lists them. */
  lemma {:induction false} AllMinimal(g: Graph, s: Store, cmp: Comparator, lin: seq<TxIdx>, cs: seq<Txs>)
    requires ValidStore(g, s) && AllWorked(g, s, {}) && ClosedGraph(g) && Orderly(NetOf(g), ChunksOf(s)) && StrongOrder(cmp)
    requires ValidOrder(g, lin) && InBlocks(lin, cs) && BlockSet(cs) == ChunksOf(s).Values && ChunkSequence(NetOf(g), cmp, ChunksOf(s), cs)
    requires forall x <- s.chunks :: MinimalIn(g, s, x)
    ensures MinimalChunks(g, lin, cs)
  {
    hide RepOk, ValidForest, InBlocks, ClosedGraph, Minimal, DepsOf, ValidOrder, ChunkSequence, Orderly, StrongOrder, AllWorked, StrictPrefixes, Rate, Flat, Partitions, ValidNet;
    forall x <- cs ensures Minimal(DepsOf(g), g.fees, x) { MinimalAt(g, s, cs, x); }
    NetFacts(g, s);
    SequenceFalls(NetOf(g), cmp, ChunksOf(s), cs);
    CutIs(lin, cs);
    var l := Cut(lin, cs);
    forall i | 0 <= i < |l| ensures l[i] != [] && StrictPrefixes(g.fees, l[i]) {
      assert SetsOf(l)[i] == Elems(l[i]) && cs[i] in BlockSet(cs);
      FlatAround(l, i);
      MinimalStrict(g, s, Flat(l[..i]), l[i], Flat(l[i + 1..]));
    }
    forall i, j | 0 <= i < j < |l| ensures Rate(g.fees, Elems(l[j])) <= Rate(g.fees, Elems(l[i])) {
      assert SetsOf(l)[i] == Elems(l[i]) && SetsOf(l)[j] == Elems(l[j]);
    }
    assert IsChunking(g.fees, lin, l);
  }

  lemma {:induction false} MinimalAt(g: Graph, s: Store, cs: seq<Txs>, x: Txs)
    requires RepOk(g, s) && ClosedGraph(g) && BlockSet(cs) == ChunksOf(s).Values && x in cs
    requires forall y <- s.chunks :: MinimalIn(g, s, y)
    ensures Minimal(DepsOf(g), g.fees, x)
  {
    hide RepOk, ClosedGraph, Minimal, DepsOf;
    assert x in BlockSet(cs);
    var v :| v in ChunksOf(s) && ChunksOf(s)[v] == x;
    ChunkSets(g, s, v);
    assert MinimalIn(g, s, s.tx[v].chunk);
  }

  /** All chunks that the order has, however they are computed, are minimal. */
  lemma {:induction false} ChunksAreMinimal(g: Graph, lin: seq<TxIdx>, cs: seq<Txs>, l: Groups)
    requires ClosedGraph(g) && PositiveSizes(g.fees) && Unique(lin) && MinimalChunks(g, lin, cs) && IsChunking(g.fees, lin, l)
    ensures SetsOf(l) == cs && forall c <- l :: Minimal(DepsOf(g), g.fees, Elems(c))
  {
    hide IsChunking, Minimal, DepsOf, ClosedGraph, Unique;
    var m: Groups :| IsChunking(g.fees, lin, m) && SetsOf(m) == cs;
    ChunkingUnique(g.fees, lin, l, m);
    forall c <- l ensures Minimal(DepsOf(g), g.fees, Elems(c)) {
      var i :| 0 <= i < |l| && l[i] == c;
      assert cs[i] == Elems(c);
    }
  }

  /** Load the old linearization, or start from single transactions, and make the state topological. */
  method StartingPoint(forest: SpanningForest, lin: seq<TxIdx>, isTopological: bool)
    requires ValidStore(forest.g, forest.S()) && ClosedGraph(forest.g) && forest.suboptimalChunks == []
    requires forall v <- ChunksOf(forest.S()) :: ChunksOf(forest.S())[v] == {v}
    requires forall v <- lin :: v in forest.g.anc
    requires lin != [] && isTopological ==> ValidOrder(forest.g, lin)
    modifies forest
    ensures ValidStore(forest.g, forest.S()) && forest.suboptimalChunks == [] && ClosedGraph(forest.g)
    ensures old(forest.cost) <= forest.cost <= old(forest.cost) + LoadCost(|forest.g.anc|, |lin|) + TopologicalCost(|forest.g.anc|)
    ensures lin != [] && isTopological ==> forest.cost <= old(forest.cost) + LoadCost(|forest.g.anc|, |lin|)
    ensures |forest.setInfo| == |old(forest.setInfo)|
    ensures Topological(NetOf(forest.g), ChunksOf(forest.S()))
    ensures lin != [] && ValidOrder(forest.g, lin) ==> LoadedWell(NetOf(forest.g), ChunksOf(forest.S()), lin, |lin|)
  {
    hide ValidStore, ChunksOf, ClosedGraph, Topological, ValidOrder, LoadedWell, NetOf, LoadCost, TopologicalCost;
    if lin != [] {
      forest.LoadLinearization(lin);
      if !isTopological {
        forest.MakeTopological();
      }
    } else {
      forest.MakeTopological();
    }
  }

  /** Optimize until the budget is used up or, if `drained`, until the state is optimal. */
  method Optimize(forest: SpanningForest, maxCost: nat) returns (ghost drained: bool)
    requires ValidStore(forest.g, forest.S()) && forest.suboptimalChunks == [] && ClosedGraph(forest.g)
    requires Topological(NetOf(forest.g), ChunksOf(forest.S()))
    requires |forest.setInfo| == |forest.g.anc|
    modifies forest
    ensures ValidStore(forest.g, forest.S()) && Topological(NetOf(forest.g), ChunksOf(forest.S()))
    ensures NotWorse(forest.g, old(ChunksOf(forest.S())), ChunksOf(forest.S()))
    ensures if drained then AllWorked(forest.g, forest.S(), {}) else forest.cost >= maxCost
    ensures forest.cost >= old(forest.cost) && (old(forest.cost) >= maxCost ==> forest.S() == old(forest.S()) && forest.cost == old(forest.cost))
    ensures old(forest.cost) < maxCost ==> (drained <==> forest.suboptimalChunks == []) && forest.cost < maxCost + StepCost(|forest.g.anc|)
  {
    hide ValidStore, ChunksOf, ClosedGraph, Topological, NetOf, NotWorse, QueueOk, AllWorked, OptimizeCost, IdxsBelow;
    drained := false;
    SameNotWorse(forest.g, ChunksOf(forest.S()));
    if forest.cost < maxCost {
      forest.StartOptimizing();
      QueuedWorked(forest.g, forest.S());
      QueuedBelow(forest.g, forest.S());
      ghost var limit := maxCost + 13 * |forest.g.anc|;
      while true
        invariant ValidStore(forest.g, forest.S()) && Topological(NetOf(forest.g), ChunksOf(forest.S()))
        invariant QueueOk(forest.suboptimalChunks, forest.suboptimalIdxs) && AllWorked(forest.g, forest.S(), forest.suboptimalIdxs)
        invariant NotWorse(forest.g, old(ChunksOf(forest.S())), ChunksOf(forest.S())) && forest.cost >= old(forest.cost)
        invariant |forest.setInfo| == |forest.g.anc| && IdxsBelow(forest.suboptimalIdxs, |forest.setInfo|) && forest.cost < limit
        decreases maxCost - forest.cost
      {
        ghost var before := ChunksOf(forest.S());
        var more := forest.OptimizeStep();
        NotWorseTrans(forest.g, old(ChunksOf(forest.S())), before, ChunksOf(forest.S()));
        if !more {
          drained := true;
          break;
        }
        if forest.cost >= maxCost { break; }
      }
    }
  }

  lemma {:induction false} QueuedBelow(g: Graph, s: Store)
    requires ValidStore(g, s)
    ensures IdxsBelow(s.chunks, |s.sets|) && |s.chunks| <= |g.anc|
  {
    hide RepOk, ValidForest;
    ChunkCount(g, s);
    forall x <- s.chunks ensures x < |s.sets| { ChunkMembers(g, s, x); }
  }

  lemma {:induction false} QueuedWorked(g: Graph, s: Store)
    ensures AllWorked(g, s, s.chunks)
  {}

  /** Minimize the chunks until the budget is used up or, if `optimal`, until all chunks are minimal. */
  method Minimize(forest: SpanningForest, maxCost: nat) returns (optimal: bool)
    requires ValidStore(forest.g, forest.S()) && ClosedGraph(forest.g) && Topological(NetOf(forest.g), ChunksOf(forest.S()))
    requires forest.cost < maxCost ==> AllWorked(forest.g, forest.S(), {})
    modifies forest
    ensures ValidStore(forest.g, forest.S()) && Orderly(NetOf(forest.g), ChunksOf(forest.S()))
    ensures NotWorse(forest.g, old(ChunksOf(forest.S())), ChunksOf(forest.S()))
    ensures optimal ==> AllWorked(forest.g, forest.S(), {}) && forall x <- forest.chunkIdxs :: MinimalIn(forest.g, forest.S(), x)
    ensures forest.cost >= old(forest.cost) && (!optimal ==> forest.cost >= maxCost)
    ensures if old(forest.cost) >= maxCost then !optimal && forest.S() == old(forest.S()) && forest.cost == old(forest.cost)
            else forest.cost < maxCost + StepCost(|forest.g.anc|)
  {
    hide ValidStore, ChunksOf, ClosedGraph, Topological, NetOf, NotWorse, AllWorked, Minimizing, Orderly, SameDiagram, MinimalIn, PendingOk, MinimizeCost;
    optimal := false;
    SameNotWorse(forest.g, ChunksOf(forest.S()));
    StateOrderly(forest.g, forest.S());
    if forest.cost < maxCost {
      forest.StartMinimizing();
      ghost var limit := maxCost + 18 * |forest.g.anc|;
      while true
        invariant Minimizing(forest.g, forest.S(), forest.nonminimalChunks)
        invariant NotWorse(forest.g, old(ChunksOf(forest.S())), ChunksOf(forest.S())) && forest.cost >= old(forest.cost)
        invariant forest.cost < limit
        decreases maxCost - forest.cost
      {
        ghost var before := ChunksOf(forest.S());
        var more := forest.MinimizeStep();
        EvenNotWorse(forest.g, before, ChunksOf(forest.S()));
        NotWorseTrans(forest.g, old(ChunksOf(forest.S())), before, ChunksOf(forest.S()));
        if !more {
          optimal := true;
          break;
        }
        if forest.cost >= maxCost { break; }
      }
      MinimizingFacts(forest.g, forest.S(), forest.nonminimalChunks);
    }
  }

  lemma {:induction false} StateOrderly(g: Graph, s: Store)
    requires ValidStore(g, s) && ClosedGraph(g) && Topological(NetOf(g), ChunksOf(s))
    ensures Orderly(NetOf(g), ChunksOf(s))
  {
    hide RepOk, ValidForest, Topological, ChunksOf, DepsOf, ClosedGraph, ValidNet, Partitions;
    NetFacts(g, s);
    TopologicalOrderly(NetOf(g), ChunksOf(s));
  }

  /**
   Find or improve a linearization. `oldLin` is empty or a linearization to start from, topological
   if `isTopological` says so. `cs` are the blocks of the result, in order, and `ch` the partition
   they make; if `optimal`, they are the chunks of the result.
   */
  method Linearize(g: Graph, maxCost: nat, fallback: Comparator, oldLin: seq<TxIdx>, isTopological: bool)
    returns (lin: seq<TxIdx>, optimal: bool, cost: nat, ghost ch: Chunks, ghost cs: seq<Txs>)
    requires ValidGraph(g) && StrongOrder(fallback) && (forall v <- oldLin :: v in g.anc)
    requires oldLin != [] && isTopological ==> ValidOrder(g, oldLin)
    ensures ValidOrder(g, lin) && Documented(g, fallback, lin, ch, cs)
    ensures oldLin != [] && ValidOrder(g, oldLin) ==> NoWorse(g.fees, lin, oldLin)
    ensures optimal ==> OptimalOrder(g, lin) && MinimalChunks(g, lin, cs)
    ensures cost >= InitialCost(g) && (!optimal ==> cost >= maxCost) && (InitialCost(g) >= maxCost ==> !optimal)
    ensures cost < maxCost + StepCost(|g.anc|) || cost <= InitialCost(g) + LoadCost(|g.anc|, |oldLin|) + TopologicalCost(|g.anc|)
  {
    hide ValidStore, ChunksOf, ClosedGraph, Topological, NotWorse, AllWorked, Orderly, SameDiagram, MinimalIn, ValidOrder, NoWorse,
      OptimalOrder, MinimalChunks, StrongOrder, LoadedWell, ReachesDiagram, InBlocks, ChunkSequence, TxSequence, DepsOf, Partitions, StepCost, LoadCost, TopologicalCost;
    var forest := new SpanningForest(g);
    StartingPoint(forest, oldLin, isTopological);
    ghost var loaded := ChunksOf(forest.S());
    StoreChunks(g, forest.S());
    var drained := Optimize(forest, maxCost);
    ghost var optimized := ChunksOf(forest.S());
    optimal := Minimize(forest, maxCost);
    NotWorseTrans(g, loaded, optimized, ChunksOf(forest.S()));
    ch := ChunksOf(forest.S());
    NetFacts(g, forest.S());
    lin, cs := forest.GetLinearization(fallback);
    cost := forest.cost;
    if oldLin != [] && ValidOrder(g, oldLin) {
      GoodAsOld(g, lin, oldLin, loaded, ChunksOf(forest.S()));
    }
    if optimal {
      GoodAsAny(g, forest.S(), lin);
      AllMinimal(g, forest.S(), fallback, lin, cs);
    }
  }

  lemma {:induction false} StoreChunks(g: Graph, s: Store)
    requires ValidStore(g, s)
    ensures ChunksOf(s).Keys == g.anc.Keys
  {
    hide RepOk, ValidForest, TopsDistinct;
    StoreFacts(g, s);
  }
}
