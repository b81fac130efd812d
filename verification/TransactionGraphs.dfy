/** The transaction graph as stored: a vector of entries with holes, updated in place. */
module TransactionGraphs {
  import opened FeeRates
  import opened Forests
  import opened DepGraphs

  datatype Entry = Entry(feerate: FeeFrac, ancestors: Txs, descendants: Txs)

  /** The graph that the entries at the used positions describe. */
  ghost function GraphOf(entries: seq<Entry>, used: Txs): Graph {
    Graph(map v | v in used && v < |entries| :: entries[v].feerate,
          map v | v in used && v < |entries| :: entries[v].ancestors,
          map v | v in used && v < |entries| :: entries[v].descendants)
  }

  /** Positions in use are in range, and the last entry is in use. */
  ghost predicate Compactly(entries: seq<Entry>, used: Txs) {
    && (forall v <- used :: v < |entries|)
    && (entries != [] ==> |entries| - 1 in used)
  }

  ghost function Alone(g: Graph, v: TxIdx, f: FeeFrac): Graph {
    Graph(g.fees[v := f], g.anc[v := {v}], g.desc[v := {v}])
  }

  lemma {:induction false} AloneClosed(g: Graph, v: TxIdx, f: FeeFrac)
    requires ClosedGraph(g) && v !in g.anc
    ensures ClosedGraph(Alone(g, v, f)) && (Acyclic(g) ==> Acyclic(Alone(g, v, f)))
  {}

  ghost function Without(g: Graph, del: Txs): Graph {
    Graph(map v | v in g.fees && v !in del :: g.fees[v],
          map v | v in g.anc && v !in del :: g.anc[v] - del,
          map v | v in g.desc && v !in del :: g.desc[v] - del)
  }

  /** Removing transactions keeps every other ancestor, also those reached only through removed ones. */
  lemma {:induction false} WithoutClosed(g: Graph, del: Txs)
    requires ClosedGraph(g)
    ensures ClosedGraph(Without(g, del)) && (Acyclic(g) ==> Acyclic(Without(g, del)))
    ensures forall v <- g.anc, u <- g.anc | u !in del && v !in del :: u in Without(g, del).anc[v] <==> u in g.anc[v]
  {}

  /** New dependencies close no cycle exactly if no parent, other than the child itself, descends from the child. */
  lemma {:induction false} AcyclicExactly(g: Graph, parents: Txs, child: TxIdx)
    requires ClosedGraph(g) && Acyclic(g) && parents <= g.anc.Keys && child in g.anc
    ensures Acyclic(WithDependencies(g, parents, child)) <==> forall p <- parents | child in g.anc[p] :: p == child
  {
    var h := WithDependencies(g, parents, child);
    assert h.anc.Keys == g.anc.Keys;
    hide WithDependencies;
    if forall p <- parents | child in g.anc[p] :: p == child {
      forall v <- h.anc, u <- h.anc | u in h.anc[v] && v in h.anc[u] ensures u == v {
        DependencyMeaning(g, parents, child, u, v);
        DependencyMeaning(g, parents, child, v, u);
        NoCycle(g, parents, child, u, v);
      }
    }
    if p :| p in parents && child in g.anc[p] && p != child {
      DependencyMeaning(g, parents, child, p, child);
      DependencyMeaning(g, parents, child, child, p);
    }
  }

  lemma {:induction false} NoCycle(g: Graph, parents: Txs, child: TxIdx, u: TxIdx, v: TxIdx)
    requires ClosedGraph(g) && Acyclic(g) && parents <= g.anc.Keys && child in g.anc && u in g.anc && v in g.anc
    requires forall p <- parents | child in g.anc[p] :: p == child
    requires u in g.anc[v] || (child in g.anc[v] && exists p <- parents :: u in g.anc[p])
    requires v in g.anc[u] || (child in g.anc[u] && exists p <- parents :: v in g.anc[p])
    ensures u == v
  {}

  class DepGraph {
    var entries: seq<Entry>
    var used: Txs

    ghost function G(): Graph
      reads this
    {
      GraphOf(entries, used)
    }

    ghost predicate Valid()
      reads this
    {
      Compactly(entries, used) && ClosedGraph(G())
    }

    constructor ()
      ensures Valid() && G() == Graph(map[], map[], map[])
    {
      entries, used := [], {};
    }

    /** Add an unconnected transaction at the first free position. */
    method AddTransaction(f: FeeFrac) returns (v: TxIdx)
      requires Valid()
      modifies this
      ensures Valid() && v !in old(used) && (forall u: TxIdx | u < v :: u in old(used)) && used == old(used) + {v}
      ensures G() == Alone(old(G()), v, f)
    {
      hide ClosedGraph, Alone, GraphOf;
      v := FirstFree();
      GraphKeys(entries, used);
      AloneClosed(G(), v, f);
      if v == |entries| {
        entries := entries + [Entry(f, {v}, {v})];
      } else {
        entries := entries[v := Entry(f, {v}, {v})];
      }
      used := used + {v};
      AddedGraph(old(entries), entries, old(used), v, f);
    }

    method FirstFree() returns (v: TxIdx)
      requires Compactly(entries, used)
      ensures v <= |entries| && v !in used && forall u: TxIdx | u < v :: u in used
    {
      v := 0;
      while v in used
        invariant v <= |entries| && forall u: TxIdx | u < v :: u in used
        decreases |entries| - v
      {
        v := v + 1;
      }
    }

    /** Remove the given positions; dependencies through them remain. */
    method RemoveTransactions(del: Txs)
      requires Valid()
      modifies this
      ensures Valid() && used == old(used) - del
      ensures G() == Without(old(G()), del)
    {
      hide ClosedGraph;
      WithoutClosed(G(), del);
      used := used - del;
      while entries != [] && |entries| - 1 !in used
        invariant used == old(used) - del && entries <= old(entries) && forall v <- used :: v < |entries|
        decreases |entries|
      {
        entries := entries[..|entries| - 1];
      }
      ghost var kept := entries;
      for i := 0 to |entries|
        invariant used == old(used) - del && |entries| == |kept|
        invariant forall j | i <= j < |entries| :: entries[j] == kept[j]
        invariant forall j | 0 <= j < i :: entries[j] == Entry(kept[j].feerate, kept[j].ancestors * used, kept[j].descendants * used)
      {
        entries := entries[i := Entry(entries[i].feerate, entries[i].ancestors * used, entries[i].descendants * used)];
      }
      RemovedGraph(old(entries), entries, old(used), used, del);
    }

    /** Add dependencies of `child` on `parents`. */
    method AddDependencies(parents: Txs, child: TxIdx)
      requires Valid() && parents <= used && child in used
      modifies `entries
      ensures Valid() && G() == WithDependencies(old(G()), parents, child)
    {
      hide ClosedGraph, WithDependencies, NewAncestors, WithDescendants, WithAncestors;
      ghost var g := G();
      GraphKeys(entries, used);
      NeighboursUsed(entries, used, child);
      DependenciesClosed(g, parents, child);
      var found: Txs := {};
      var todo := parents - entries[child].ancestors;
      ghost var seen: Txs := {};
      while todo != {}
        invariant todo <= parents - entries[child].ancestors && seen == parents - entries[child].ancestors - todo
        invariant found == set p <- seen, a <- entries[p].ancestors :: a
      {
        var p :| p in todo;
        found := found + entries[p].ancestors;
        todo, seen := todo - {p}, seen + {p};
      }
      found := found - entries[child].ancestors;
      NewAncestorsSeen(g, parents, child, seen, found);
      if found == {} {
        NothingNew(g, parents, child);
        return;
      }
      ChildNotNew(g, parents, child);
      AddDescendants(found, entries[child].descendants);
      WithDescendantsAt(old(entries), found, old(entries)[child].descendants, child);
      AddAncestors(entries[child].descendants, found);
      DependenciesStored(old(entries), entries, used, parents, child, found);
    }

    method AddDescendants(vs: Txs, more: Txs)
      requires forall v <- vs :: v < |entries|
      modifies `entries
      ensures entries == WithDescendants(old(entries), vs, more)
    {
      ghost var before := entries;
      var todo := vs;
      assert entries == WithDescendants(before, vs - todo, more);
      while todo != {}
        invariant todo <= vs && entries == WithDescendants(before, vs - todo, more)
      {
        var v :| v in todo;
        entries := entries[v := entries[v].(descendants := entries[v].descendants + more)];
        todo := todo - {v};
      }
      assert vs - todo == vs;
    }

    method AddAncestors(vs: Txs, more: Txs)
      requires forall v <- vs :: v < |entries|
      modifies `entries
      ensures entries == WithAncestors(old(entries), vs, more)
    {
      ghost var before := entries;
      var todo := vs;
      assert entries == WithAncestors(before, vs - todo, more);
      while todo != {}
        invariant todo <= vs && entries == WithAncestors(before, vs - todo, more)
      {
        var v :| v in todo;
        entries := entries[v := entries[v].(ancestors := entries[v].ancestors + more)];
        todo := todo - {v};
      }
      assert vs - todo == vs;
    }
  }

  ghost function WithDescendants(entries: seq<Entry>, vs: Txs, more: Txs): seq<Entry> {
    seq(|entries|, i requires 0 <= i < |entries| =>
      if i in vs then entries[i].(descendants := entries[i].descendants + more) else entries[i])
  }

  ghost function WithAncestors(entries: seq<Entry>, vs: Txs, more: Txs): seq<Entry> {
    seq(|entries|, i requires 0 <= i < |entries| =>
      if i in vs then entries[i].(ancestors := entries[i].ancestors + more) else entries[i])
  }

  ghost predicate Over(g: Graph, txs: Txs) {
    g.fees.Keys == txs && g.anc.Keys == txs && g.desc.Keys == txs
  }

  lemma {:induction false} SameGraph(g: Graph, h: Graph, txs: Txs)
    requires Over(g, txs) && Over(h, txs) && forall v <- txs :: g.fees[v] == h.fees[v] && g.anc[v] == h.anc[v] && g.desc[v] == h.desc[v]
    ensures g == h
  {
    assert g.fees == h.fees;
    assert g.anc == h.anc;
    assert g.desc == h.desc;
  }

  lemma {:induction false} GraphKeys(entries: seq<Entry>, used: Txs)
    requires forall v <- used :: v < |entries|
    ensures var g := GraphOf(entries, used);
            && Over(g, used)
            && forall v <- used :: g.fees[v] == entries[v].feerate && g.anc[v] == entries[v].ancestors && g.desc[v] == entries[v].descendants
  {}

  lemma {:induction false} NeighboursUsed(entries: seq<Entry>, used: Txs, v: TxIdx)
    requires Compactly(entries, used) && ClosedGraph(GraphOf(entries, used)) && v in used
    ensures entries[v].descendants <= used && entries[v].ancestors <= used
  {
    GraphKeys(entries, used);
    hide GraphOf;
  }

  lemma {:induction false} AddedGraph(before: seq<Entry>, after: seq<Entry>, used: Txs, v: TxIdx, f: FeeFrac)
    requires Compactly(before, used) && v !in used && v < |after| && after[v] == Entry(f, {v}, {v})
    requires |before| <= |after| && forall u <- used :: u < |before| && after[u] == before[u]
    ensures GraphOf(after, used + {v}) == Alone(GraphOf(before, used), v, f)
  {
    hide GraphOf, Compactly;
    GraphKeys(before, used);
    GraphKeys(after, used + {v});
    var g, h, r := GraphOf(before, used), Alone(GraphOf(before, used), v, f), GraphOf(after, used + {v});
    assert Over(h, used + {v});
    forall u <- used + {v} ensures r.fees[u] == h.fees[u] && r.anc[u] == h.anc[u] && r.desc[u] == h.desc[u] {
      if u != v { assert u in used && after[u] == before[u]; }
    }
    SameGraph(r, h, used + {v});
  }

  /** Parents that already are ancestors bring nothing new. */
  lemma {:induction false} NewAncestorsSeen(g: Graph, parents: Txs, child: TxIdx, seen: Txs, found: Txs)
    requires ClosedGraph(g) && parents <= g.anc.Keys && child in g.anc && seen == parents - g.anc[child]
    requires found == (set p <- seen, a <- g.anc[p] :: a) - g.anc[child]
    ensures found == NewAncestors(g, parents, child) && found <= g.anc.Keys
  {
    forall a <- NewAncestors(g, parents, child) ensures a in found {
      var p :| p in parents && a in g.anc[p];
      assert p in seen;
    }
  }

  lemma {:induction false} ChildNotNew(g: Graph, parents: Txs, child: TxIdx)
    requires ClosedGraph(g) && parents <= g.anc.Keys && child in g.anc
    ensures child !in NewAncestors(g, parents, child)
  {}

  lemma {:induction false} NothingNew(g: Graph, parents: Txs, child: TxIdx)
    requires g.desc.Keys == g.anc.Keys && parents <= g.anc.Keys && child in g.anc && NewAncestors(g, parents, child) == {}
    ensures WithDependencies(g, parents, child) == g
  {
    hide NewAncestors;
    var h := WithDependencies(g, parents, child);
    forall v <- g.anc ensures g.anc[v] + {} == g.anc[v] {}
    assert h.anc == g.anc;
    assert h.desc == g.desc;
  }

  lemma {:induction false} WithDescendantsAt(entries: seq<Entry>, vs: Txs, more: Txs, v: TxIdx)
    requires v < |entries| && v !in vs
    ensures |WithDescendants(entries, vs, more)| == |entries| && WithDescendants(entries, vs, more)[v] == entries[v]
  {}

  lemma {:induction false} DependenciesAt(g: Graph, parents: Txs, child: TxIdx, txs: Txs, v: TxIdx)
    requires Over(g, txs) && parents <= txs && child in txs && v in txs
    ensures var h, found := WithDependencies(g, parents, child), NewAncestors(g, parents, child);
            && Over(h, txs) && h.fees[v] == g.fees[v]
            && h.anc[v] == (if v in g.desc[child] then g.anc[v] + found else g.anc[v])
            && h.desc[v] == (if v in found then g.desc[v] + g.desc[child] else g.desc[v])
  {
    hide NewAncestors;
  }

  lemma {:induction false} EntriesAfter(before: seq<Entry>, found: Txs, more: Txs)
    ensures |WithAncestors(WithDescendants(before, found, more), more, found)| == |before|
  {}

  lemma {:induction false} EntryAfter(before: seq<Entry>, found: Txs, more: Txs, v: TxIdx)
    requires v < |before|
    ensures var after := WithAncestors(WithDescendants(before, found, more), more, found);
            && |after| == |before|
            && after[v] == Entry(before[v].feerate, if v in more then before[v].ancestors + found else before[v].ancestors,
                                 if v in found then before[v].descendants + more else before[v].descendants)
  {}

  lemma {:induction false} DependenciesStored(before: seq<Entry>, after: seq<Entry>, used: Txs, parents: Txs, child: TxIdx, found: Txs)
    requires Compactly(before, used) && parents <= used && child in used
    requires GraphOf(before, used).anc.Keys == used == GraphOf(before, used).desc.Keys
    requires found == NewAncestors(GraphOf(before, used), parents, child)
    requires after == WithAncestors(WithDescendants(before, found, before[child].descendants), before[child].descendants, found)
    ensures GraphOf(after, used) == WithDependencies(GraphOf(before, used), parents, child) && Compactly(after, used)
  {
    hide NewAncestors, GraphOf, WithDescendants, WithAncestors, WithDependencies;
    var g, more := GraphOf(before, used), before[child].descendants;
    GraphKeys(before, used);
    forall v <- used
      ensures v < |after| && after[v] == Entry(before[v].feerate, if v in more then before[v].ancestors + found else before[v].ancestors,
                                               if v in found then before[v].descendants + more else before[v].descendants)
    {
      EntryAfter(before, found, more, v);
    }
    EntriesAfter(before, found, more);
    GraphKeys(after, used);
    var r, h := GraphOf(after, used), WithDependencies(g, parents, child);
    DependenciesAt(g, parents, child, used, child);
    forall v <- used ensures r.fees[v] == h.fees[v] && r.anc[v] == h.anc[v] && r.desc[v] == h.desc[v] {
      DependenciesAt(g, parents, child, used, v);
    }
    SameGraph(r, h, used);
  }

  lemma {:induction false} RemovedGraph(before: seq<Entry>, after: seq<Entry>, was: Txs, used: Txs, del: Txs)
    requires Compactly(before, was) && ClosedGraph(GraphOf(before, was)) && used == was - del
    requires |after| <= |before| && forall v <- used :: v < |after|
    requires forall j | 0 <= j < |after| :: after[j] == Entry(before[j].feerate, before[j].ancestors * used, before[j].descendants * used)
    ensures GraphOf(after, used) == Without(GraphOf(before, was), del)
  {
    hide ClosedGraph, GraphOf;
    var h, r := Without(GraphOf(before, was), del), GraphOf(after, used);
    GraphKeys(before, was);
    GraphKeys(after, used);
    forall v <- used ensures before[v].ancestors * used == before[v].ancestors - del && before[v].descendants * used == before[v].descendants - del {
      NeighboursUsed(before, was, v);
    }
    SameGraph(r, h, used);
  }
}
