/** Transaction graphs: fee, ancestors and descendants of every transaction, and their reduction. */
module DepGraphs {
  import opened FeeRates
  import opened Forests
  import opened Topology

  /** The content of a transaction graph, indexed by the positions in use. */
  datatype Graph = Graph(fees: Fees, anc: map<TxIdx, Txs>, desc: map<TxIdx, Txs>)

  /** Ancestors are reflexively and transitively closed, and descendants are their inverse. */
  ghost predicate ClosedGraph(g: Graph) {
    && g.fees.Keys == g.anc.Keys == g.desc.Keys
    && (forall v <- g.anc :: v in g.anc[v] && g.anc[v] <= g.anc.Keys && g.desc[v] <= g.anc.Keys)
    && (forall v <- g.anc, u <- g.anc | u in g.anc[v] :: g.anc[u] <= g.anc[v])
    && (forall v <- g.anc, u <- g.anc :: u in g.anc[v] <==> v in g.desc[u])
  }

  /** No transaction is both an ancestor and a descendant of another. */
  ghost predicate Acyclic(g: Graph) {
    forall v <- g.anc, u <- g.anc | u in g.anc[v] && v in g.anc[u] :: u == v
  }

  ghost predicate ValidGraph(g: Graph) {
    ClosedGraph(g) && Acyclic(g) && PositiveSizes(g.fees)
  }

  // ----- Adding dependencies

  /** Ancestors of the parents that the child does not have yet. */
  ghost function NewAncestors(g: Graph, parents: Txs, child: TxIdx): Txs
    requires parents <= g.anc.Keys && child in g.anc
  {
    (set p <- parents, a <- g.anc[p] :: a) - g.anc[child]
  }

  ghost function WithDependencies(g: Graph, parents: Txs, child: TxIdx): Graph
    requires parents <= g.anc.Keys && child in g.anc && child in g.desc
  {
    var a := NewAncestors(g, parents, child);
    Graph(g.fees,
          map v | v in g.anc :: if v in g.desc[child] then g.anc[v] + a else g.anc[v],
          map v | v in g.desc :: if v in a then g.desc[v] + g.desc[child] else g.desc[v])
  }

  /** `v` has `u` as ancestor afterwards exactly if it had, or it descends from the child and `u` precedes a parent. */
  lemma {:induction false} DependencyMeaning(g: Graph, parents: Txs, child: TxIdx, u: TxIdx, v: TxIdx)
    requires ClosedGraph(g) && parents <= g.anc.Keys && child in g.anc && u in g.anc && v in g.anc
    ensures u in WithDependencies(g, parents, child).anc[v] <==>
            u in g.anc[v] || (child in g.anc[v] && exists p <- parents :: u in g.anc[p])
  {
    assert v in g.desc[child] <==> child in g.anc[v];
  }

  lemma {:induction false} DependenciesTransitive(g: Graph, parents: Txs, child: TxIdx, u: TxIdx, v: TxIdx)
    requires ClosedGraph(g) && parents <= g.anc.Keys && child in g.anc && u in g.anc && v in g.anc
    ensures var h := WithDependencies(g, parents, child);
            u in h.anc[v] ==> h.anc[u] <= h.anc[v]
  {
    var h := WithDependencies(g, parents, child);
    assert h.anc.Keys == g.anc.Keys;
    if u in h.anc[v] {
      forall w <- h.anc[u] ensures w in h.anc[v] {
        assert w in g.anc;
        hide WithDependencies;
        DependencyMeaning(g, parents, child, u, v);
        DependencyMeaning(g, parents, child, w, u);
        DependencyMeaning(g, parents, child, w, v);
      }
    }
  }

  lemma {:induction false} DependenciesInverse(g: Graph, parents: Txs, child: TxIdx, u: TxIdx, v: TxIdx)
    requires ClosedGraph(g) && parents <= g.anc.Keys && child in g.anc && u in g.anc && v in g.anc
    ensures var h := WithDependencies(g, parents, child);
            u in h.anc[v] <==> v in h.desc[u]
  {
    assert u in g.anc[v] <==> v in g.desc[u];
    assert v in g.desc[child] <==> child in g.anc[v];
  }

  lemma {:induction false} DependenciesInRange(g: Graph, parents: Txs, child: TxIdx, v: TxIdx)
    requires ClosedGraph(g) && parents <= g.anc.Keys && child in g.anc && v in g.anc
    ensures var h := WithDependencies(g, parents, child);
            v in h.anc[v] && h.anc[v] <= g.anc.Keys && h.desc[v] <= g.anc.Keys
  {}

  /** Adding dependencies keeps the ancestor sets closed and the descendant sets their inverse. */
  lemma {:induction false} DependenciesClosed(g: Graph, parents: Txs, child: TxIdx)
    requires ClosedGraph(g) && parents <= g.anc.Keys && child in g.anc
    ensures ClosedGraph(WithDependencies(g, parents, child))
  {
    var h := WithDependencies(g, parents, child);
    assert h.fees.Keys == h.anc.Keys == h.desc.Keys == g.anc.Keys;
    hide WithDependencies, ClosedGraph;
    forall v <- h.anc ensures v in h.anc[v] && h.anc[v] <= h.anc.Keys && h.desc[v] <= h.anc.Keys {
      DependenciesInRange(g, parents, child, v);
    }
    forall v <- h.anc, u <- h.anc | u in h.anc[v] ensures h.anc[u] <= h.anc[v] {
      DependenciesTransitive(g, parents, child, u, v);
    }
    forall v <- h.anc, u <- h.anc ensures u in h.anc[v] <==> v in h.desc[u] {
      DependenciesInverse(g, parents, child, u, v);
    }
    ClosedFromParts(h);
  }

  lemma {:induction false} ClosedFromParts(g: Graph)
    requires g.fees.Keys == g.anc.Keys == g.desc.Keys
    requires forall v <- g.anc :: v in g.anc[v] && g.anc[v] <= g.anc.Keys && g.desc[v] <= g.anc.Keys
    requires forall v <- g.anc, u <- g.anc | u in g.anc[v] :: g.anc[u] <= g.anc[v]
    requires forall v <- g.anc, u <- g.anc :: u in g.anc[v] <==> v in g.desc[u]
    ensures ClosedGraph(g)
  {}

  /** The new ancestor sets are the least closed ones that hold the old ones and the new parents. */
  lemma {:induction false} DependenciesLeast(g: Graph, h: Graph, parents: Txs, child: TxIdx, v: TxIdx)
    requires ClosedGraph(g) && parents <= g.anc.Keys && child in g.anc && v in g.anc
    requires ClosedGraph(h) && h.anc.Keys == g.anc.Keys
    requires forall w <- g.anc :: g.anc[w] <= h.anc[w]
    requires parents <= h.anc[child]
    ensures WithDependencies(g, parents, child).anc[v] <= h.anc[v]
  {
    forall u <- WithDependencies(g, parents, child).anc[v] ensures u in h.anc[v] {
      DependencyMeaning(g, parents, child, u, v);
      if u !in g.anc[v] {
        var p :| p in parents && u in g.anc[p];
        assert h.anc[child] <= h.anc[v] && h.anc[p] <= h.anc[child];
      }
    }
  }

  // ----- The transitive reduction

  /** Ancestors of `i` that are not ancestors of another ancestor of `i`. */
  ghost function ReducedParents(g: Graph, i: TxIdx): Txs
    requires ClosedGraph(g) && i in g.anc
  {
    set p <- g.anc[i] | p != i && forall q <- g.anc[i] | q != i && q != p :: p !in g.anc[q]
  }

  ghost function ReducedChildren(g: Graph, i: TxIdx): Txs
    requires ClosedGraph(g) && i in g.anc
  {
    set c <- g.desc[i] | c != i && forall q <- g.desc[i] | q != i && q != c :: c !in g.desc[q]
  }

  lemma {:induction false} ReductionIsDual(g: Graph, p: TxIdx, c: TxIdx)
    requires ClosedGraph(g) && p in g.anc && c in g.anc
    ensures p in ReducedParents(g, c) <==> c in ReducedChildren(g, p)
  {
    assert p in g.anc[c] <==> c in g.desc[p];
    forall q <- g.anc ensures (q in g.anc[c] <==> c in g.desc[q]) && (p in g.anc[q] <==> q in g.desc[p]) {}
  }

  lemma {:induction false} NeighboursInside(g: Graph, v: TxIdx)
    requires ClosedGraph(g) && v in g.anc
    ensures ReducedParents(g, v) <= g.anc.Keys && ReducedChildren(g, v) <= g.anc.Keys
  {}

  lemma {:induction false} StrictAncestors(g: Graph, q: TxIdx, r: TxIdx)
    requires ValidGraph(g) && q in g.anc && r in g.anc && q in g.anc[r] && q != r
    ensures |g.anc[q]| < |g.anc[r]|
  {
    assert r !in g.anc[q];
    assert g.anc[r] == g.anc[q] + (g.anc[r] - g.anc[q]);
    assert r in g.anc[r] - g.anc[q];
  }

  /** Every proper ancestor is reached through some reduced parent: the reduction loses nothing. */
  lemma {:induction false} ReductionCovers(g: Graph, i: TxIdx, a: TxIdx) returns (p: TxIdx)
    requires ValidGraph(g) && i in g.anc && a in g.anc[i] && a != i
    ensures p in ReducedParents(g, i) && a in g.anc[p]
    decreases |g.anc[i]| - |g.anc[a]|
  {
    if a in ReducedParents(g, i) {
      p := a;
    } else {
      var q :| q in g.anc[i] && q != i && q != a && a in g.anc[q];
      StrictAncestors(g, a, q);
      StrictAncestors(g, q, i);
      p := ReductionCovers(g, i, q);
    }
  }

  /** The dependencies of a graph: its transitive reduction. */
  ghost function DepsOf(g: Graph): set<Dep>
    requires ClosedGraph(g)
  {
    set c <- g.anc, p <- ReducedParents(g, c) :: Dep(p, c)
  }

  ghost function NetOf(g: Graph): Net
    requires ClosedGraph(g)
  {
    Net(g.anc.Keys, DepsOf(g), g.fees)
  }

  lemma {:induction false} DepMeaning(g: Graph, d: Dep)
    requires ClosedGraph(g)
    ensures d in DepsOf(g) <==> d.child in g.anc && d.parent in ReducedParents(g, d.child)
  {
    if d.child in g.anc && d.parent in ReducedParents(g, d.child) {
      assert Dep(d.parent, d.child) == d;
    }
  }

  lemma {:induction false} NetValid(g: Graph)
    requires ValidGraph(g)
    ensures ValidNet(NetOf(g))
    ensures forall d <- DepsOf(g) :: d.parent in g.anc && d.child in g.anc && d.parent in g.anc[d.child] && d.parent != d.child
  {
    forall d <- DepsOf(g) ensures Inside(d, g.anc.Keys) && d.parent in g.anc[d.child] && d.parent != d.child {
      DepMeaning(g, d);
    }
  }

  /** A set holds all ancestors of its members exactly if it holds their direct parents. */
  lemma {:induction false} ClosedByReduction(g: Graph, s: Txs)
    requires ValidGraph(g) && s <= g.anc.Keys
    ensures (forall d <- DepsOf(g) | d.child in s :: d.parent in s) <==> (forall v <- s :: g.anc[v] <= s)
  {
    NetValid(g);
    if forall d <- DepsOf(g) | d.child in s :: d.parent in s {
      forall v <- s, a <- g.anc[v] ensures a in s {
        ReducedClosure(g, s, v, a);
      }
    }
  }

  lemma {:induction false} ReducedClosure(g: Graph, s: Txs, v: TxIdx, a: TxIdx)
    requires ValidGraph(g) && s <= g.anc.Keys && v in s && a in g.anc[v]
    requires forall d <- DepsOf(g) | d.child in s :: d.parent in s
    ensures a in s
    decreases |g.anc[v]|
  {
    if a != v {
      var p := ReductionCovers(g, v, a);
      DepMeaning(g, Dep(p, v));
      assert Dep(p, v).child in s;
      StrictAncestors(g, p, v);
      ReducedClosure(g, s, p, a);
    }
  }

  /** Whatever was processed or removed has nothing above it left in `parents`. */
  ghost predicate Reducing(g: Graph, i: TxIdx, parents: Txs, todo: Txs)
    requires ClosedGraph(g) && i in g.anc
  {
    && parents <= g.anc[i] - {i}
    && (Acyclic(g) ==>
          && ReducedParents(g, i) <= parents
          && (forall q, p | q in g.anc[i] && q != i && q !in todo && p in parents && p != q :: p !in g.anc[q])
          && (forall q, p | q in g.anc[i] && q != i && q !in parents && p in parents :: p !in g.anc[q]))
  }

  lemma {:induction false} ReducingStep(g: Graph, i: TxIdx, parents: Txs, todo: Txs, x: TxIdx)
    requires ClosedGraph(g) && i in g.anc && x in g.anc[i] && x != i
    requires Reducing(g, i, parents, todo)
    ensures Reducing(g, i, if x in parents then parents - g.anc[x] + {x} else parents, todo - {x})
  {
    if x in parents && Acyclic(g) {
      var now := parents - g.anc[x] + {x};
      forall q, p | q in g.anc[i] && q != i && q !in now && p in now ensures p !in g.anc[q] {
        if q in parents {
          assert q in g.anc[x] && q != x;
          assert x !in g.anc[q] && g.anc[q] <= g.anc[x];
        }
      }
    }
  }

  /** Remove from the ancestors of `i`, in any order, whatever lies above one that is still there. */
  method GetReducedParents(g: Graph, i: TxIdx) returns (parents: Txs)
    requires ClosedGraph(g) && i in g.anc
    ensures parents <= g.anc[i] - {i}
    ensures Acyclic(g) ==> parents == ReducedParents(g, i)
  {
    parents := g.anc[i] - {i};
    var todo := parents;
    assert Reducing(g, i, parents, todo);
    while todo != {}
      invariant todo <= g.anc[i] - {i} && Reducing(g, i, parents, todo)
      decreases |todo|
    {
      hide Reducing, ClosedGraph;
      var parent :| parent in todo;
      ReducingStep(g, i, parents, todo, parent);
      if parent in parents {
        parents := parents - g.anc[parent] + {parent};
      }
      todo := todo - {parent};
    }
  }
}
