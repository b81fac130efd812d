/** The state with every transaction in a chunk of its own. */
module ForestInit {
  import opened FeeRates
  import opened Forests
  import opened DepGraphs
  import opened ForestStore

  /** Every transaction is alone, at the index where `order` lists it, and no dependency is active. */
  ghost predicate Fresh(g: Graph, s: Store, order: seq<TxIdx>)
    requires ClosedGraph(g)
  {
    && s.tx.Keys == g.anc.Keys && |s.sets| == |s.reach| == |order|
    && (forall i | 0 <= i < |order| :: order[i] in s.tx && s.tx[order[i]].chunk == i)
    && (forall v <- s.tx :: s.tx[v].chunk < |order| && order[s.tx[v].chunk] == v)
    && (forall v <- s.tx :: s.tx[v].parents == ReducedParents(g, v) && s.tx[v].children == ReducedChildren(g, v) && s.tx[v].active == {})
    && (forall i | 0 <= i < |order| :: s.sets[i] == SetInfo({order[i]}, FracOf(g.fees, order[i])))
    && (forall i | 0 <= i < |order| :: s.reach[i] == Reach(s.tx[order[i]].parents, s.tx[order[i]].children))
    && (forall i: SetIdx :: i in s.chunks <==> i < |order|)
  }

  lemma {:induction false} FreshAt(g: Graph, s: Store, order: seq<TxIdx>, x: SetIdx)
    requires ClosedGraph(g) && Fresh(g, s, order) && (x in s.chunks || x < |s.sets|)
    ensures x < |order| == |s.sets| == |s.reach| && s.tx.Keys == g.anc.Keys
    ensures var v := order[x];
            && v in s.tx && s.tx[v].chunk == x && s.sets[x] == SetInfo({v}, FracOf(g.fees, v))
            && s.reach[x] == Reach(s.tx[v].parents, s.tx[v].children)
  {}

  lemma {:induction false} FreshKeys(g: Graph, s: Store, order: seq<TxIdx>)
    requires ClosedGraph(g) && Fresh(g, s, order)
    ensures s.tx.Keys == g.anc.Keys && |s.sets| == |s.reach| == |order|
  {}

  lemma {:induction false} FreshTx(g: Graph, s: Store, order: seq<TxIdx>, v: TxIdx)
    requires ClosedGraph(g) && Fresh(g, s, order) && v in s.tx
    ensures v in g.anc && s.tx[v].chunk < |order| == |s.sets| && order[s.tx[v].chunk] == v && s.tx[v].chunk in s.chunks
    ensures s.tx[v].parents == ReducedParents(g, v) && s.tx[v].children == ReducedChildren(g, v) && s.tx[v].active == {}
  {}

  lemma {:induction false} NotOwnNeighbour(g: Graph, v: TxIdx)
    requires ClosedGraph(g) && v in g.anc
    ensures v !in ReducedParents(g, v) && v !in ReducedChildren(g, v)
  {}

  lemma {:induction false} SingletonReach(tx: TxMap, v: TxIdx)
    requires v in tx && v !in tx[v].parents && v !in tx[v].children
    ensures ReachOf(tx, {v}) == Reach(tx[v].parents, tx[v].children)
  {
    var r := ReachOf(tx, {v});
    assert r.up == tx[v].parents;
    assert r.down == tx[v].children;
  }

  lemma {:induction false} FreshChunkOk(g: Graph, s: Store, order: seq<TxIdx>, x: SetIdx)
    requires ClosedGraph(g) && Fresh(g, s, order) && x in s.chunks
    ensures s.tx.Keys == g.anc.Keys && ChunkOk(g, s, x)
  {
    hide Fresh, ClosedGraph, ReducedParents, ReducedChildren, ReachOf;
    FreshAt(g, s, order, x);
    var v := order[x];
    FreshTx(g, s, order, v);
    NotOwnNeighbour(g, v);
    SingletonReach(s.tx, v);
    forall u <- s.tx ensures u in s.sets[x].txs <==> s.tx[u].chunk == x {
      FreshTx(g, s, order, u);
    }
  }

  lemma {:induction false} FreshChunks(g: Graph, s: Store, order: seq<TxIdx>)
    requires ClosedGraph(g) && Fresh(g, s, order)
    ensures ChunksOf(s).Keys == g.anc.Keys && forall v <- ChunksOf(s) :: ChunksOf(s)[v] == {v}
  {
    hide Fresh, ClosedGraph;
    FreshKeys(g, s, order);
    forall v <- s.tx ensures ChunksOf(s)[v] == {v} {
      FreshTx(g, s, order, v);
      FreshAt(g, s, order, s.tx[v].chunk);
    }
  }

  lemma {:induction false} SingletonConnected(v: TxIdx)
    ensures Connected({}, {v})
  {
    forall t: Txs | ClosedPart({}, {v}, t) ensures t == {v} {
      assert v in t;
    }
  }

  lemma {:induction false} FreshInactive(g: Graph, s: Store, order: seq<TxIdx>)
    requires ClosedGraph(g) && Fresh(g, s, order)
    ensures ActiveDeps(s.tx) == {} && TopsDistinct(s.tx)
  {
    hide Fresh, ClosedGraph, ReducedParents, ReducedChildren;
    forall v <- s.tx ensures s.tx[v].active == {} { FreshTx(g, s, order, v); }
  }

  lemma {:induction false} FreshForest(g: Graph, s: Store, order: seq<TxIdx>)
    requires ValidGraph(g) && Fresh(g, s, order)
    ensures ValidForest(g.anc.Keys, DepsOf(g), Meaning(s))
  {
    hide Connected, DepsOf, Fresh, ClosedGraph;
    var f := Meaning(s);
    FreshChunks(g, s, order);
    FreshInactive(g, s, order);
    NetValid(g);
    forall v <- f.chunk ensures Connected(f.active, f.chunk[v]) {
      SingletonConnected(v);
    }
  }

  /** The fresh state is valid. */
  lemma {:induction false} FreshValid(g: Graph, s: Store, order: seq<TxIdx>)
    requires ValidGraph(g) && Fresh(g, s, order)
    ensures ValidStore(g, s)
  {
    hide Fresh, ValidForest, DepsOf, ReducedParents, ReducedChildren, ChunkOk, ClosedGraph, Total, Meaning, TopsDistinct;
    FreshKeys(g, s, order);
    FreshForest(g, s, order);
    FreshInactive(g, s, order);
    forall v <- s.tx ensures TxOk(g, s, v) { FreshTx(g, s, order, v); }
    forall x <- s.chunks ensures ChunkOk(g, s, x) { FreshChunkOk(g, s, order, x); }
    forall i | 0 <= i < |s.sets| ensures s.sets[i].frac == Total(g.fees, s.sets[i].txs) {
      FreshAt(g, s, order, i);
      TotalSingleton(g.fees, order[i]);
    }
  }

  ghost predicate ChildrenSoFar(g: Graph, chi: map<TxIdx, Txs>, done: Txs)
    requires ClosedGraph(g) && done <= g.anc.Keys
  {
    chi.Keys == g.anc.Keys && forall u <- chi :: chi[u] == set v <- done | u in ReducedParents(g, v)
  }

  function WithChild(chi: map<TxIdx, Txs>, ps: Txs, v: TxIdx): map<TxIdx, Txs> {
    map u | u in chi :: if u in ps then chi[u] + {v} else chi[u]
  }

  lemma {:induction false} WithChildNone(chi: map<TxIdx, Txs>, v: TxIdx)
    ensures WithChild(chi, {}, v) == chi
  {}

  lemma {:induction false} WithChildStep(chi: map<TxIdx, Txs>, ps: Txs, v: TxIdx, p: TxIdx)
    requires p in chi && p !in ps
    ensures WithChild(chi, ps + {p}, v) == WithChild(chi, ps, v)[p := chi[p] + {v}] && WithChild(chi, ps, v)[p] == chi[p]
  {}

  lemma {:induction false} WithChildMeaning(g: Graph, chi: map<TxIdx, Txs>, v: TxIdx, done: Txs)
    requires ClosedGraph(g) && done <= g.anc.Keys && v in g.anc && ChildrenSoFar(g, chi, done)
    ensures ChildrenSoFar(g, WithChild(chi, ReducedParents(g, v), v), done + {v})
  {
    hide ReducedParents, ClosedGraph;
    var r := WithChild(chi, ReducedParents(g, v), v);
    forall u <- r ensures r[u] == set w <- done + {v} | u in ReducedParents(g, w) {
      assert chi[u] == set w <- done | u in ReducedParents(g, w);
    }
  }

  /** Record `v` as a child of every transaction in `ps`. */
  method AddChild(chi: map<TxIdx, Txs>, ps: Txs, v: TxIdx) returns (r: map<TxIdx, Txs>)
    requires ps <= chi.Keys
    ensures r == WithChild(chi, ps, v)
  {
    hide WithChild;
    r := chi;
    var todo := ps;
    WithChildNone(chi, v);
    assert ps - todo == {};
    while todo != {}
      invariant todo <= ps && r == WithChild(chi, ps - todo, v)
      decreases |todo|
    {
      var p :| p in todo;
      ghost var done := ps - todo;
      WithChildStep(chi, done, v, p);
      r := r[p := chi[p] + {v}];
      todo := todo - {p};
      assert ps - todo == done + {p};
    }
    assert ps - todo == ps;
  }

  lemma {:induction false} SoFarKeys(g: Graph, chi: map<TxIdx, Txs>, done: Txs)
    requires ClosedGraph(g) && done <= g.anc.Keys && ChildrenSoFar(g, chi, done)
    ensures chi.Keys == g.anc.Keys
  {}

  lemma {:induction false} ChildrenDone(g: Graph, chi: map<TxIdx, Txs>, u: TxIdx)
    requires ClosedGraph(g) && ChildrenSoFar(g, chi, g.anc.Keys) && u in chi
    ensures chi[u] == ReducedChildren(g, u)
  {
    hide ReducedParents, ReducedChildren;
    NeighboursInside(g, u);
    forall v <- g.anc ensures v in chi[u] <==> v in ReducedChildren(g, u) {
      ReductionIsDual(g, u, v);
    }
  }

  /** `order` lists every member of `s` once. */
  ghost predicate Lists(order: seq<TxIdx>, s: Txs) {
    && (forall i, j | 0 <= i < j < |order| :: order[i] != order[j])
    && (forall i | 0 <= i < |order| :: order[i] in s)
    && (forall v <- s :: v in order)
  }

  lemma {:induction false} ListsMore(order: seq<TxIdx>, s: Txs, v: TxIdx)
    requires Lists(order, s) && v !in s
    ensures Lists(order + [v], s + {v})
  {}

  ghost predicate ParentsSoFar(g: Graph, par: map<TxIdx, Txs>, done: Txs)
    requires ClosedGraph(g) && done <= g.anc.Keys
  {
    par.Keys == done && forall v <- par :: par[v] == ReducedParents(g, v)
  }

  lemma {:induction false} ParentsMore(g: Graph, par: map<TxIdx, Txs>, done: Txs, v: TxIdx)
    requires ClosedGraph(g) && done <= g.anc.Keys && ParentsSoFar(g, par, done) && v in g.anc
    ensures ParentsSoFar(g, par[v := ReducedParents(g, v)], done + {v})
  {
    hide ReducedParents, ClosedGraph;
  }

  /** Parents and children as far as the transactions of `done`, which `order` lists, tell them. */
  ghost predicate Gathered(g: Graph, order: seq<TxIdx>, par: map<TxIdx, Txs>, chi: map<TxIdx, Txs>, done: Txs)
    requires ClosedGraph(g)
  {
    done <= g.anc.Keys && Lists(order, done) && ParentsSoFar(g, par, done) && ChildrenSoFar(g, chi, done)
  }

  /** Take up one transaction. */
  method GatherOne(g: Graph, order: seq<TxIdx>, par: map<TxIdx, Txs>, chi: map<TxIdx, Txs>, v: TxIdx, ghost done: Txs)
    returns (ps: Txs, more: map<TxIdx, Txs>)
    requires ValidGraph(g) && Gathered(g, order, par, chi, done) && v in g.anc && v !in done
    ensures Gathered(g, order + [v], par[v := ps], more, done + {v}) && ps == ReducedParents(g, v)
  {
    hide ReducedParents, ReducedChildren, ClosedGraph, Acyclic, WithChild, ChildrenSoFar, PositiveSizes, Lists, ParentsSoFar;
    ps := GetReducedParents(g, v);
    NeighboursInside(g, v);
    SoFarKeys(g, chi, done);
    WithChildMeaning(g, chi, v, done);
    ListsMore(order, done, v);
    ParentsMore(g, par, done, v);
    more := AddChild(chi, ps, v);
  }

  /** Parents and children of every transaction, and an order of the transactions. */
  method GatherNeighbours(g: Graph) returns (order: seq<TxIdx>, par: map<TxIdx, Txs>, chi: map<TxIdx, Txs>, deps: nat)
    requires ValidGraph(g)
    ensures Gathered(g, order, par, chi, g.anc.Keys) && deps == |DepsOf(g)| && |order| == |g.anc|
  {
    hide ClosedGraph, Acyclic, PositiveSizes, Gathered, DepsCounted, ReducedParents, Taken;
    order, par, deps := [], map[], 0;
    chi := map v: TxIdx | v in g.anc :: {};
    var todo := g.anc.Keys;
    GatherStart(g, chi);
    AllTaken(g);
    while todo != {}
      invariant todo <= g.anc.Keys && Gathered(g, order, par, chi, Taken(g, todo)) && DepsCounted(g, deps, Taken(g, todo))
      decreases |todo|
    {
      var v :| v in todo;
      TakenNext(g, todo, v);
      var ps, more := GatherOne(g, order, par, chi, v, Taken(g, todo));
      DepsCountedMore(g, deps, Taken(g, todo), v);
      chi, par := more, par[v := ps];
      deps := deps + |ps|;
      order := order + [v];
      todo := todo - {v};
    }
    DepsCountedAll(g, deps);
    GatheredLength(g, order, par, chi);
  }

  /** The transactions that are not left to take up. */
  ghost function Taken(g: Graph, todo: Txs): Txs { g.anc.Keys - todo }

  lemma {:induction false} TakenNext(g: Graph, todo: Txs, v: TxIdx)
    requires v in todo && todo <= g.anc.Keys
    ensures v !in Taken(g, todo) && Taken(g, todo - {v}) == Taken(g, todo) + {v}
  {}

  lemma {:induction false} AllTaken(g: Graph)
    ensures Taken(g, {}) == g.anc.Keys && Taken(g, g.anc.Keys) == {}
  {}

  ghost predicate DepsCounted(g: Graph, deps: nat, done: Txs)
    requires ClosedGraph(g)
  {
    done <= g.anc.Keys && deps == |DepsInto(g, done)|
  }

  lemma {:induction false} DepsCountedMore(g: Graph, deps: nat, done: Txs, v: TxIdx)
    requires ClosedGraph(g) && DepsCounted(g, deps, done) && v in g.anc && v !in done
    ensures DepsCounted(g, deps + |ReducedParents(g, v)|, done + {v})
  {
    hide ReducedParents, ClosedGraph, DepsInto;
    DepsIntoMore(g, done, v);
  }

  lemma {:induction false} DepsCountedAll(g: Graph, deps: nat)
    requires ClosedGraph(g) && DepsCounted(g, deps, g.anc.Keys)
    ensures deps == |DepsOf(g)|
  {
    hide DepsInto, DepsOf, ClosedGraph;
    DepsIntoAll(g);
  }

  lemma {:induction false} ListsLength(order: seq<TxIdx>, s: Txs)
    requires Lists(order, s)
    ensures |order| == |s|
    decreases |order|
  {
    if order == [] {
      assert s == {};
    } else {
      var n := |order| - 1;
      ListsLength(order[..n], s - {order[n]});
    }
  }

  lemma {:induction false} GatheredLength(g: Graph, order: seq<TxIdx>, par: map<TxIdx, Txs>, chi: map<TxIdx, Txs>)
    requires ClosedGraph(g) && Gathered(g, order, par, chi, g.anc.Keys)
    ensures |order| == |g.anc|
  {
    hide Lists, ParentsSoFar, ChildrenSoFar, ClosedGraph;
    ListsLength(order, g.anc.Keys);
  }

  /** The dependencies of the transactions in `done`. */
  ghost function DepsInto(g: Graph, done: Txs): set<Dep>
    requires ClosedGraph(g) && done <= g.anc.Keys
  {
    set c <- done, p <- ReducedParents(g, c) :: Dep(p, c)
  }

  lemma {:induction false} DepsIntoAll(g: Graph)
    requires ClosedGraph(g)
    ensures DepsInto(g, g.anc.Keys) == DepsOf(g)
  {
    hide ReducedParents, ClosedGraph;
  }

  lemma {:induction false} DepsIntoMore(g: Graph, done: Txs, v: TxIdx)
    requires ClosedGraph(g) && done <= g.anc.Keys && v in g.anc && v !in done
    ensures |DepsInto(g, done + {v})| == |DepsInto(g, done)| + |ReducedParents(g, v)|
  {
    hide ReducedParents, ClosedGraph;
    var ps := ReducedParents(g, v);
    var own := set p <- ps :: Dep(p, v);
    OwnDeps(ps, v);
    assert DepsInto(g, done + {v}) == DepsInto(g, done) + own && DepsInto(g, done) !! own;
  }

  lemma {:induction false} OwnDeps(ps: Txs, v: TxIdx)
    ensures |set p <- ps :: Dep(p, v)| == |ps|
    decreases |ps|
  {
    if p :| p in ps {
      OwnDeps(ps - {p}, v);
      assert (set q <- ps :: Dep(q, v)) == (set q <- ps - {p} :: Dep(q, v)) + {Dep(p, v)};
    }
  }

  /** The cost of setting up, and of producing the linearization in the end, which is charged first. */
  ghost function InitialCost(g: Graph): nat
    requires ClosedGraph(g)
  {
    39 * |g.anc| + 48 * |g.anc| + 4 * |DepsOf(g)|
  }

  lemma {:induction false} GatherStart(g: Graph, chi: map<TxIdx, Txs>)
    requires ClosedGraph(g) && chi == map v: TxIdx | v in g.anc :: {}
    ensures Gathered(g, [], map[], chi, {}) && DepsCounted(g, 0, {})
  {
    assert DepsInto(g, {}) == {};
  }

  /** The stored data of the first `i` transactions of `list`. */
  ghost predicate Filled(fees: Fees, list: seq<TxIdx>, par: map<TxIdx, Txs>, chi: map<TxIdx, Txs>, i: nat,
                         tx: TxMap, sets: seq<SetInfo>, reach: seq<Reach>) {
    && |sets| == |reach| == i <= |list|
    && (forall v <- tx :: v in list && tx[v].chunk < i && list[tx[v].chunk] == v)
    && (forall j | 0 <= j < i :: list[j] in tx && list[j] in par && list[j] in chi)
    && (forall j | 0 <= j < i :: tx[list[j]] == TxData(map[], par[list[j]], chi[list[j]], {}, j))
    && (forall j | 0 <= j < i :: sets[j] == SetInfo({list[j]}, FracOf(fees, list[j])))
    && (forall j | 0 <= j < i :: reach[j] == Reach(par[list[j]], chi[list[j]]))
  }

  lemma {:induction false} FillNext(fees: Fees, list: seq<TxIdx>, par: map<TxIdx, Txs>, chi: map<TxIdx, Txs>, i: nat,
                                    tx: TxMap, sets: seq<SetInfo>, reach: seq<Reach>, txs: Txs)
    requires Filled(fees, list, par, chi, i, tx, sets, reach) && i < |list| && Lists(list, txs) && list[i] in par && list[i] in chi
    ensures var v := list[i];
            Filled(fees, list, par, chi, i + 1, tx[v := TxData(map[], par[v], chi[v], {}, i)],
                   sets + [SetInfo({v}, FracOf(fees, v))], reach + [Reach(par[v], chi[v])])
  {
    hide FracOf;
  }

  lemma {:induction false} FilledFresh(g: Graph, list: seq<TxIdx>, par: map<TxIdx, Txs>, chi: map<TxIdx, Txs>, s: Store)
    requires ValidGraph(g) && Lists(list, g.anc.Keys) && ParentsSoFar(g, par, g.anc.Keys) && ChildrenSoFar(g, chi, g.anc.Keys)
    requires Filled(g.fees, list, par, chi, |list|, s.tx, s.sets, s.reach)
    requires forall i: SetIdx :: i in s.chunks <==> i < |list|
    ensures Fresh(g, s, list)
  {
    hide ReducedParents, ReducedChildren, ClosedGraph, Acyclic, PositiveSizes, FracOf, ChildrenSoFar;
    forall v <- g.anc ensures v in s.tx {
      var i :| 0 <= i < |list| && list[i] == v;
    }
    forall v <- s.tx ensures s.tx[v].parents == ReducedParents(g, v) && s.tx[v].children == ReducedChildren(g, v) && s.tx[v].active == {} {
      var j := s.tx[v].chunk;
      assert list[j] == v;
      ChildrenDone(g, chi, v);
    }
  }

  /** The store with every transaction in its own chunk, numbered in some order of the transactions. */
  method InitialStore(g: Graph) returns (s: Store, deps: nat, ghost order: seq<TxIdx>)
    requires ValidGraph(g)
    ensures ClosedGraph(g) && Fresh(g, s, order) && deps == |DepsOf(g)| && |s.sets| == |g.anc|
  {
    hide ReducedParents, ReducedChildren, ClosedGraph, Acyclic, PositiveSizes, FracOf, ParentsSoFar, ChildrenSoFar, Fresh, Lists, DepsOf;
    hide Filled;
    var list, par, chi, numDeps := GatherNeighbours(g);
    GatheredKeys(g, list, par, chi);
    order, deps := list, numDeps;
    var tx: TxMap, sets: seq<SetInfo>, reach: seq<Reach>, chunks: set<SetIdx> := map[], [], [], {};
    FillStart(g.fees, list, par, chi);
    for i := 0 to |list|
      invariant Filled(g.fees, list, par, chi, i, tx, sets, reach)
      invariant forall j: SetIdx :: j in chunks <==> j < i
    {
      FillNext(g.fees, list, par, chi, i, tx, sets, reach, g.anc.Keys);
      var v := list[i];
      tx := tx[v := TxData(map[], par[v], chi[v], {}, i)];
      sets := sets + [SetInfo({v}, FracOf(g.fees, v))];
      reach := reach + [Reach(par[v], chi[v])];
      chunks := chunks + {i};
    }
    s := Store(tx, sets, reach, chunks);
    FilledFresh(g, list, par, chi, s);
    FilledSize(g.fees, list, par, chi, s);
  }

  lemma {:induction false} FilledSize(fees: Fees, list: seq<TxIdx>, par: map<TxIdx, Txs>, chi: map<TxIdx, Txs>, s: Store)
    requires Filled(fees, list, par, chi, |list|, s.tx, s.sets, s.reach)
    ensures |s.sets| == |list|
  {}

  lemma {:induction false} FillStart(fees: Fees, list: seq<TxIdx>, par: map<TxIdx, Txs>, chi: map<TxIdx, Txs>)
    ensures Filled(fees, list, par, chi, 0, map[], [], [])
  {}

  lemma {:induction false} GatheredKeys(g: Graph, list: seq<TxIdx>, par: map<TxIdx, Txs>, chi: map<TxIdx, Txs>)
    requires ClosedGraph(g) && Lists(list, g.anc.Keys) && ParentsSoFar(g, par, g.anc.Keys) && ChildrenSoFar(g, chi, g.anc.Keys)
    ensures forall i | 0 <= i < |list| :: list[i] in g.anc && list[i] in par && list[i] in chi
  {
    hide ReducedParents, ClosedGraph;
  }
}
