/**
 What the groups of one pass look like: they are the chunks of the order, each is connected, and in
 a graph where everything has at most one dependent no part of a group beats the group.
 */
module GroupShapes {
  import opened FeeRates
  import opened Forests
  import opened Loading
  import opened Ordering
  import opened GroupOrders
  import opened GroupLists
  import opened Chunkings

  /** An edge between every transaction and all that has to come before it. */
  ghost function EdgesOf(dep: map<TxIdx, Txs>): set<Dep> {
    set v <- dep, u <- dep[v] | u != v :: Dep(u, v)
  }

  ghost predicate ChunkLike(pass: Pass, c: seq<TxIdx>) {
    c != [] && Connected(EdgesOf(pass.dep), Elems(c)) && StrictPrefixes(pass.fees, c)
  }

  lemma {:induction false} OneChunkLike(pass: Pass, v: TxIdx)
    ensures ChunkLike(pass, [v])
  {
    assert Elems([v]) == {v};
    forall t: Txs | ClosedPart(EdgesOf(pass.dep), {v}, t) ensures t == {v} {}
  }

  /** Merging with a group it depends on keeps a group connected. */
  lemma {:induction false} MergedConnected(pass: Pass, p: seq<TxIdx>, c: seq<TxIdx>)
    requires Connected(EdgesOf(pass.dep), Elems(p)) && Connected(EdgesOf(pass.dep), Elems(c))
    requires DepOf(pass, c) * Elems(p) != {} && Elems(p) !! Elems(c)
    ensures Connected(EdgesOf(pass.dep), Elems(p + c))
  {
    hide Connected;
    var u :| u in DepOf(pass, c) * Elems(p);
    var v :| v in c && u in DepAt(pass, v);
    assert v in Elems(c) && u != v;
    assert Dep(u, v) in EdgesOf(pass.dep);
    JoinConnected(EdgesOf(pass.dep), Elems(p), Elems(c), Dep(u, v));
    ElemsAppend(p, c);
  }

  lemma {:induction false} MergedChunkLike(pass: Pass, p: seq<TxIdx>, c: seq<TxIdx>)
    requires PositiveSizes(pass.fees) && ChunkLike(pass, p) && ChunkLike(pass, c) && Unique(p + c)
    requires Rate(pass.fees, Elems(c)) > Rate(pass.fees, Elems(p)) && DepOf(pass, c) * Elems(p) != {}
    ensures ChunkLike(pass, p + c)
  {
    UniqueParts(p, c);
    hide Rate, Unique, Connected, StrictPrefixes, DepOf;
    MergedStrict(pass.fees, p, c);
    MergedConnected(pass, p, c);
  }

  // ----- Trees

  /** What depends on the same transaction depends on each other: nothing has more than one direct dependent. */
  ghost predicate Chains(dep: map<TxIdx, Txs>) {
    forall p, a, b | a in dep && b in dep && p in dep[a] && p in dep[b] :: a in dep[b] || b in dep[a]
  }

  ghost predicate Transitive(dep: map<TxIdx, Txs>) {
    && (forall v <- dep :: v in dep[v])
    && (forall v <- dep, u <- dep[v] :: u in dep && dep[u] <= dep[v])
  }

  /** A part of `s` that holds what its members need of `s`. */
  ghost predicate PartOf(dep: map<TxIdx, Txs>, s: Txs, x: Txs) {
    x <= s && forall v <- x :: v in dep && dep[v] * s <= x
  }

  /** A part of the group without its last transaction, which needs all others, earns nothing above `lam`. */
  ghost predicate PartsLow(pass: Pass, c: seq<TxIdx>, lam: real) {
    c != [] && forall x: Txs | PartOf(pass.dep, Elems(c), x) && c[|c| - 1] !in x :: Surplus(pass.fees, lam, x) <= 0.0
  }

  ghost predicate TreeLike(pass: Pass, c: seq<TxIdx>) {
    && c != [] && c[|c| - 1] in pass.dep && Elems(c) <= pass.dep[c[|c| - 1]]
    && PartsLow(pass, c, Rate(pass.fees, Elems(c)))
  }

  lemma {:induction false} OneTreeLike(pass: Pass, v: TxIdx, lam: real)
    requires v in pass.dep && v in pass.dep[v]
    ensures TreeLike(pass, [v]) && PartsLow(pass, [v], lam)
  {
    hide Rate, Surplus;
    forall x: Txs, l: real | PartOf(pass.dep, Elems([v]), x) && v !in x ensures Surplus(pass.fees, l, x) <= 0.0 {
      assert x == {};
      SurplusEmpty(pass.fees, l);
    }
    assert [v][|[v]| - 1] == v;
  }

  lemma {:induction false} SurplusFalls(fees: Fees, s: Txs, a: real, b: real)
    requires PositiveSizes(fees) && a <= b
    ensures Surplus(fees, b, s) <= Surplus(fees, a, s)
  {
    TotalSizePositive(fees, s);
    var n := Total(fees, s).size as real;
    if s == {} { SurplusEmpty(fees, a); SurplusEmpty(fees, b); } else { assert (b - a) * n >= 0.0; }
  }

  /** A part of a whole tree-like group earns nothing above the feerate of the group or higher. */
  lemma {:induction false} AnyPartLow(pass: Pass, c: seq<TxIdx>, x: Txs, lam: real)
    requires PositiveSizes(pass.fees) && TreeLike(pass, c) && PartOf(pass.dep, Elems(c), x) && lam >= Rate(pass.fees, Elems(c))
    ensures Surplus(pass.fees, lam, x) <= 0.0
  {
    hide Rate, Surplus;
    var rate := Rate(pass.fees, Elems(c));
    if c[|c| - 1] in x {
      assert x == Elems(c);
      NotEmpty(c);
      SurplusSign(pass.fees, lam, x);
    } else {
      SurplusFalls(pass.fees, x, rate, lam);
    }
  }

  /** Parts stay low when a group of no higher feerate than `lam` is put in front. */
  lemma {:induction false} MergedPartsLow(pass: Pass, p: seq<TxIdx>, c: seq<TxIdx>, lam: real)
    requires PositiveSizes(pass.fees) && TreeLike(pass, p) && c != [] && Unique(p + c)
    requires lam >= Rate(pass.fees, Elems(p)) && PartsLow(pass, c, lam)
    ensures PartsLow(pass, p + c, lam)
  {
    UniqueParts(p, c);
    hide Rate, Surplus, TreeLike, Unique;
    ElemsAppend(p, c);
    forall x: Txs | PartOf(pass.dep, Elems(p + c), x) && (p + c)[|p + c| - 1] !in x ensures Surplus(pass.fees, lam, x) <= 0.0 {
      var a, b := x * Elems(p), x * Elems(c);
      assert x == a + b;
      assert PartOf(pass.dep, Elems(p), a) && PartOf(pass.dep, Elems(c), b);
      AnyPartLow(pass, p, a, lam);
      assert c[|c| - 1] !in b;
      SurplusUnion(pass.fees, lam, a, b);
    }
  }

  /** Parts that earn nothing above a feerate earn nothing above a higher one. */
  lemma {:induction false} PartsLowUp(pass: Pass, c: seq<TxIdx>, a: real, b: real)
    requires PositiveSizes(pass.fees) && c != [] && PartsLow(pass, c, a) && a <= b
    ensures PartsLow(pass, c, b)
  {
    hide Surplus;
    forall x: Txs | PartOf(pass.dep, Elems(c), x) && c[|c| - 1] !in x ensures Surplus(pass.fees, b, x) <= 0.0 {
      SurplusFalls(pass.fees, x, a, b);
    }
  }

  /** If a group needs part of a tree-like group that comes before it, its last transaction needs all of it. */
  lemma {:induction false} NeedsAll(pass: Pass, p: seq<TxIdx>, c: seq<TxIdx>, whole: seq<TxIdx>, i: nat)
    requires Chains(pass.dep) && Transitive(pass.dep) && ValidBy(pass.dep, whole)
    requires p != [] && p[|p| - 1] in pass.dep && Elems(p) <= pass.dep[p[|p| - 1]]
    requires c != [] && c[|c| - 1] in pass.dep && Elems(c) <= pass.dep[c[|c| - 1]]
    requires i + |p + c| <= |whole| && whole[i..i + |p + c|] == p + c && DepOf(pass, c) * Elems(p) != {}
    ensures Elems(p + c) <= pass.dep[c[|c| - 1]]
  {
    var u :| u in DepOf(pass, c) * Elems(p);
    var v :| v in c && u in DepAt(pass, v);
    var q, r := p[|p| - 1], c[|c| - 1];
    assert v in pass.dep && u in pass.dep[v] && u in pass.dep[q];
    ComesLater(pass.dep, p, c, whole, i, v);
    assert q in pass.dep[v];
    assert pass.dep[v] <= pass.dep[r] by { assert v in Elems(c); }
    assert q in pass.dep[r] && pass.dep[q] <= pass.dep[r];
    ElemsAppend(p, c);
  }

  lemma {:induction false} ComesLater(dep: map<TxIdx, Txs>, p: seq<TxIdx>, c: seq<TxIdx>, whole: seq<TxIdx>, i: nat, v: TxIdx)
    requires ValidBy(dep, whole) && p != [] && v in c && i + |p + c| <= |whole| && whole[i..i + |p + c|] == p + c
    ensures p[|p| - 1] in dep && v !in dep[p[|p| - 1]]
  {
    var m := i + |p| - 1;
    assert whole[m] == whole[i..i + |p + c|][|p| - 1] == p[|p| - 1];
    ValidAt(dep, whole, m);
    var j :| 0 <= j < |c| && c[j] == v;
    var n := i + |p| + j;
    assert whole[n] == whole[i..i + |p + c|][|p| + j] == v;
  }

  lemma {:induction false} MergedTreeLike(pass: Pass, p: seq<TxIdx>, c: seq<TxIdx>, whole: seq<TxIdx>, i: nat)
    requires PositiveSizes(pass.fees) && Chains(pass.dep) && Transitive(pass.dep) && ValidBy(pass.dep, whole)
    requires TreeLike(pass, p) && TreeLike(pass, c) && Unique(p + c) && DepOf(pass, c) * Elems(p) != {}
    requires i + |p + c| <= |whole| && whole[i..i + |p + c|] == p + c
    requires Rate(pass.fees, Elems(c)) > Rate(pass.fees, Elems(p)) && PartsLow(pass, c, Rate(pass.fees, Elems(p)))
    ensures TreeLike(pass, p + c)
  {
    hide Rate, PartsLow, Unique, ValidBy, Chains, Transitive, DepOf, Elems;
    UniqueParts(p, c);
    NeedsAll(pass, p, c, whole, i);
    ElemsAppend(p, c);
    NotEmpty(p);
    NotEmpty(c);
    Mediant(pass.fees, Elems(p), Elems(c));
    var rate := Rate(pass.fees, Elems(p + c));
    PartsLowUp(pass, c, Rate(pass.fees, Elems(p)), rate);
    MergedPartsLow(pass, p, c, rate);
  }
}
