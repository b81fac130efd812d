/** What follows from the shape of the groups of a whole pass. */
module GroupGuarantees {
  import opened FeeRates
  import opened Forests
  import opened Diagrams
  import opened Optimality
  import opened DepGraphs
  import opened Loading
  import opened Ordering
  import opened GroupOrders
  import opened GroupLists
  import opened Chunkings
  import opened GroupShapes
  import opened GroupSorting

  // ----- Trees are linearized optimally

  ghost predicate HoldsNeeds(dep: map<TxIdx, Txs>, t: Txs) {
    forall v <- t :: v in dep && dep[v] <= t
  }

  /** At every feerate, some prefix earns at least what any set does that holds all its members need. */
  ghost predicate OptimalBy(pass: Pass, lin: seq<TxIdx>) {
    forall lam: real, t: Txs | HoldsNeeds(pass.dep, t) && t <= Elems(lin) :: SomePrefixEarns(pass.fees, lam, lin, Surplus(pass.fees, lam, t))
  }

  lemma {:induction false} ShapedFalls(pass: Pass, l: Groups)
    requires Shaped(pass, l) && Unique(Flat(l))
    ensures FallingBlocks(pass.fees, SetsOf(l))
  {
    hide Rate, Unique, Connected, StrictPrefixes, TreeLike, Chains;
    FlatApart(l);
    var cs := SetsOf(l);
    forall i | 0 <= i < |cs| ensures cs[i] != {} { NotEmpty(l[i]); }
    forall i, j | 0 <= i < j < |cs| ensures cs[i] !! cs[j] && Rate(pass.fees, cs[j]) <= Rate(pass.fees, cs[i]) {
      ApartAt(l, i, j);
    }
  }

  lemma {:induction false} PartsBounded(pass: Pass, c: seq<TxIdx>, t: Txs, lam: real)
    requires PositiveSizes(pass.fees) && TreeLike(pass, c) && HoldsNeeds(pass.dep, t)
    ensures Surplus(pass.fees, lam, t * Elems(c)) <= Gain(pass.fees, lam, Elems(c))
  {
    hide Rate, Surplus, Gain, PartsLow;
    NotEmpty(c);
    assert PartOf(pass.dep, Elems(c), t * Elems(c));
    AnyPartLow(pass, c, t * Elems(c), Rate(pass.fees, Elems(c)));
    PartBound(pass.fees, lam, Elems(c), t * Elems(c));
  }

  lemma {:induction false} TreesOptimal(pass: Pass, l: Groups)
    requires PositiveSizes(pass.fees) && Shaped(pass, l) && Unique(Flat(l)) && Chains(pass.dep)
    ensures OptimalBy(pass, Flat(l))
  {
    hide Rate, Surplus, Gain, Diagram, Unique, ChunkLike, TreeLike, Chains, Falling, HoldsNeeds, SomePrefixEarns, FallingBlocks, InBlocks;
    var cs, lin := SetsOf(l), Flat(l);
    ShapedFalls(pass, l);
    FlatBlocks(l);
    BlocksCover(lin, cs);
    forall lam: real, t: Txs | HoldsNeeds(pass.dep, t) && t <= Elems(lin) ensures SomePrefixEarns(pass.fees, lam, lin, Surplus(pass.fees, lam, t)) {
      forall x <- BlockSet(cs) ensures Surplus(pass.fees, lam, t * x) <= Gain(pass.fees, lam, x) {
        var i :| 0 <= i < |cs| && cs[i] == x;
        PartsBounded(pass, l[i], t, lam);
      }
      BlocksDisjoint(pass.fees, cs);
      SumBounds(pass.fees, lam, BlockSet(cs), t);
      assert t * Union(BlockSet(cs)) == t;
      var k := PrefixReaches(pass.fees, lam, cs);
      var m := BlockPrefix(lin, cs, k);
      Earns(pass.fees, lam, lin, m, Surplus(pass.fees, lam, t));
    }
  }

  lemma {:induction false} BlocksDisjoint(fees: Fees, cs: seq<Txs>)
    requires FallingBlocks(fees, cs)
    ensures Disjoint(BlockSet(cs))
  {
    hide Rate;
    forall x, y | x in BlockSet(cs) && y in BlockSet(cs) && x != y ensures x !! y {
      var i :| 0 <= i < |cs| && cs[i] == x;
      var j :| 0 <= j < |cs| && cs[j] == y;
      assert cs[if i < j then i else j] !! cs[if i < j then j else i];
    }
  }

  /** An order that is optimal in the mirror image is optimal. */
  lemma {:induction false} RevOptimal(g: Graph, lin: seq<TxIdx>)
    requires ClosedGraph(g) && Unique(lin) && Elems(lin) == g.anc.Keys && OptimalBy(PassOf(g, true), lin)
    ensures OptimalBy(PassOf(g, false), Rev(lin))
  {
    hide Surplus, Elems, Unique, SomePrefixEarns;
    RevElems(lin);
    var all := Elems(lin);
    forall lam: real, t: Txs | HoldsNeeds(g.anc, t) && t <= all ensures SomePrefixEarns(g.fees, lam, Rev(lin), Surplus(g.fees, lam, t)) {
      var u := all - t;
      OthersClosed(g, t);
      var amount := Surplus(NegateFees(g.fees), -lam, u);
      assert SomePrefixEarns(NegateFees(g.fees), -lam, lin, amount);
      RevEarns(g.fees, lam, lin, t, amount);
    }
  }

  lemma {:induction false} OthersClosed(g: Graph, t: Txs)
    requires ClosedGraph(g) && HoldsNeeds(g.anc, t) && t <= g.anc.Keys
    ensures HoldsNeeds(g.desc, g.anc.Keys - t)
  {
    forall v <- g.anc.Keys - t ensures v in g.desc && g.desc[v] <= g.anc.Keys - t {
      forall d <- g.desc[v] ensures d !in t { assert v in g.anc[d]; }
    }
  }

  lemma {:induction false} RevEarns(fees: Fees, lam: real, lin: seq<TxIdx>, t: Txs, amount: real)
    requires Unique(lin) && t <= Elems(lin) && amount == Surplus(NegateFees(fees), -lam, Elems(lin) - t)
    requires SomePrefixEarns(NegateFees(fees), -lam, lin, amount)
    ensures SomePrefixEarns(fees, lam, Rev(lin), Surplus(fees, lam, t))
  {
    hide Surplus, Elems, Unique;
    var all := Elems(lin);
    ComplementSurplus(fees, lam, all, all - t);
    assert all - (all - t) == t;
    var m: nat :| PrefixEarns(NegateFees(fees), -lam, lin, m, amount);
    RevPrefix(lin, |lin| - m);
    PrefixInside(lin, m);
    ComplementSurplus(fees, lam, all, Elems(lin[..m]));
    Earns(fees, lam, Rev(lin), |lin| - m, Surplus(fees, lam, t));
  }

  /** An order no worse than an optimal one is optimal. */
  lemma {:induction false} StaysOptimal(pass: Pass, a: seq<TxIdx>, b: seq<TxIdx>)
    requires OptimalBy(pass, b) && NoWorse(pass.fees, a, b) && Elems(a) == Elems(b)
    ensures OptimalBy(pass, a)
  {
    hide Surplus;
    forall lam: real, t: Txs | HoldsNeeds(pass.dep, t) && t <= Elems(a) ensures SomePrefixEarns(pass.fees, lam, a, Surplus(pass.fees, lam, t)) {
      var m: nat :| PrefixEarns(pass.fees, lam, b, m, Surplus(pass.fees, lam, t));
      assert SomePrefixEarns(pass.fees, lam, a, Surplus(pass.fees, lam, Elems(b[..m])));
      var j: nat :| PrefixEarns(pass.fees, lam, a, j, Surplus(pass.fees, lam, Elems(b[..m])));
      assert PrefixEarns(pass.fees, lam, a, j, Surplus(pass.fees, lam, t));
    }
  }

  // ----- At most one parent, or at most one child

  ghost predicate OneParent(g: Graph)
    requires ClosedGraph(g)
  {
    forall v <- g.anc :: |ReducedParents(g, v)| <= 1
  }

  ghost predicate OneChild(g: Graph)
    requires ClosedGraph(g)
  {
    forall v <- g.anc :: |ReducedChildren(g, v)| <= 1
  }

  ghost function Mirror(g: Graph): Graph { Graph(g.fees, g.desc, g.anc) }

  lemma {:induction false} MirrorClosed(g: Graph)
    requires ValidGraph(g)
    ensures ValidGraph(Mirror(g))
  {
    var h := Mirror(g);
    forall v <- h.anc, u <- h.anc | u in h.anc[v] ensures h.anc[u] <= h.anc[v] {
      forall d <- g.desc[u] ensures d in g.desc[v] {
        assert u in g.anc[d] && v in g.anc[u];
        assert g.anc[u] <= g.anc[d];
      }
    }
    forall v <- h.anc, u <- h.anc ensures u in h.anc[v] <==> v in h.desc[u] {}
    forall v <- h.anc ensures v in h.anc[v] { assert v in g.anc[v]; }
    ClosedFromParts(h);
    forall v <- h.anc, u <- h.anc | u in h.anc[v] && v in h.anc[u] ensures u == v { assert v in g.anc[u] && u in g.anc[v]; }
  }

  lemma {:induction false} MirrorOne(g: Graph)
    requires ValidGraph(g) && OneChild(g)
    ensures ValidGraph(Mirror(g)) && OneParent(Mirror(g))
  {
    MirrorClosed(g);
    hide ClosedGraph, Acyclic;
    var h := Mirror(g);
    forall v <- h.anc ensures |ReducedParents(h, v)| <= 1 { MirrorAt(g, v); }
  }

  lemma {:induction false} MirrorAt(g: Graph, v: TxIdx)
    requires ClosedGraph(g) && ClosedGraph(Mirror(g)) && v in g.anc && v in g.desc
    ensures ReducedParents(Mirror(g), v) == ReducedChildren(g, v)
  {}

  /** With at most one parent each, the ancestors of a transaction are ancestors of each other. */
  lemma {:induction false} AncestorsChain(g: Graph, p: TxIdx, a: TxIdx, b: TxIdx)
    requires ValidGraph(g) && OneParent(g) && p in g.anc && a in g.anc[p] && b in g.anc[p]
    ensures a in g.anc && b in g.anc && (a in g.anc[b] || b in g.anc[a])
    decreases |g.anc[p]|
  {
    if a != p && b != p {
      var r := ReductionCovers(g, p, a);
      var s := ReductionCovers(g, p, b);
      OnlyOne(ReducedParents(g, p), r, s);
      StrictAncestors(g, r, p);
      AncestorsChain(g, r, a, b);
    }
  }

  lemma {:induction false} OnlyOne(s: Txs, r: TxIdx, q: TxIdx)
    requires |s| <= 1 && r in s && q in s
    ensures r == q
  {
    assert |s - {r}| == |s| - 1;
    assert q in s - {r} || q == r;
  }

  lemma {:induction false} OneParentChains(g: Graph)
    requires ValidGraph(g) && OneParent(g)
    ensures Chains(g.desc)
  {
    forall p, a, b | a in g.desc && b in g.desc && p in g.desc[a] && p in g.desc[b] ensures a in g.desc[b] || b in g.desc[a] {
      assert p in g.anc && a in g.anc[p] && b in g.anc[p];
      AncestorsChain(g, p, a, b);
      assert a in g.anc[b] <==> b in g.desc[a];
      assert b in g.anc[a] <==> a in g.desc[b];
    }
  }

  lemma {:induction false} OneChildChains(g: Graph)
    requires ValidGraph(g) && OneChild(g)
    ensures Chains(g.anc)
  {
    hide ClosedGraph, Acyclic, OneChild, OneParent, Chains;
    MirrorOne(g);
    OneParentChains(Mirror(g));
  }

  lemma {:induction false} PassTransitive(g: Graph, rev: bool)
    requires ValidGraph(g)
    ensures Transitive(PassOf(g, rev).dep)
  {
    MirrorClosed(g);
  }

  // ----- The chunks of a pass

  lemma {:induction false} ShapedChunking(pass: Pass, l: Groups)
    requires Shaped(pass, l)
    ensures IsChunking(pass.fees, Flat(l), l)
  {
    hide Rate, StrictPrefixes, Connected, TreeLike, Chains;
  }

  /** All chunks of the linearization are connected. */
  ghost predicate ConnectedChunks(g: Graph, lin: seq<TxIdx>) {
    forall l: Groups | IsChunking(g.fees, lin, l) :: forall c <- l :: Connected(EdgesOf(g.anc), Elems(c))
  }

  lemma {:induction false} ShapedConnected(g: Graph, l: Groups)
    requires PositiveSizes(g.fees) && Unique(Flat(l)) && Shaped(PassOf(g, false), l)
    ensures ConnectedChunks(g, Flat(l))
  {
    hide Rate, Unique, Connected, TreeLike, Chains, IsChunking;
    ShapedChunking(PassOf(g, false), l);
    forall m: Groups, c | IsChunking(g.fees, Flat(l), m) && c in m ensures Connected(EdgesOf(g.anc), Elems(c)) {
      ChunkingUnique(g.fees, Flat(l), l, m);
      var i :| 0 <= i < |l| && l[i] == c;
      assert ChunkLike(PassOf(g, false), l[i]);
    }
  }
}
