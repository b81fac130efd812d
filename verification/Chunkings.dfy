/** The chunks of a linearization: the one way to cut it into parts of falling feerate without better prefixes. */
module Chunkings {
  import opened FeeRates
  import opened Forests
  import opened Improvement
  import opened ForestStore
  import opened Loading
  import opened Ordering
  import opened GroupOrders
  import opened GroupLists

  /** Every proper prefix has a lower feerate. */
  ghost predicate StrictPrefixes(fees: Fees, c: seq<TxIdx>) {
    forall k | 0 < k < |c| :: Rate(fees, Elems(c[..k])) < Rate(fees, Elems(c))
  }

  ghost predicate Falling(fees: Fees, l: Groups) {
    forall i, j | 0 <= i < j < |l| :: Rate(fees, Elems(l[j])) <= Rate(fees, Elems(l[i]))
  }

  ghost predicate IsChunking(fees: Fees, lin: seq<TxIdx>, l: Groups) {
    && Flat(l) == lin && Falling(fees, l)
    && forall i | 0 <= i < |l| :: l[i] != [] && StrictPrefixes(fees, l[i])
  }

  lemma {:induction false} NotEmpty(c: seq<TxIdx>)
    requires c != []
    ensures Elems(c) != {}
  {
    assert c[0] in Elems(c);
  }

  lemma {:induction false} MergedStrict(fees: Fees, p: seq<TxIdx>, c: seq<TxIdx>)
    requires PositiveSizes(fees) && p != [] && c != [] && StrictPrefixes(fees, p) && StrictPrefixes(fees, c) && Unique(p + c)
    requires Rate(fees, Elems(c)) > Rate(fees, Elems(p))
    ensures StrictPrefixes(fees, p + c)
  {
    UniqueParts(p, c);
    hide Rate, Unique;
    ElemsAppend(p, c);
    NotEmpty(p);
    NotEmpty(c);
    Mediant(fees, Elems(p), Elems(c));
    forall k | 0 < k < |p + c| ensures Rate(fees, Elems((p + c)[..k])) < Rate(fees, Elems(p + c)) {
      PrefixUpTo(p, c, k);
      if k > |p| {
        MergedLater(fees, p, c, k - |p|);
      } else if k == |p| {
        assert p[..k] == p;
      }
    }
  }

  lemma {:induction false} MergedLater(fees: Fees, p: seq<TxIdx>, c: seq<TxIdx>, k: nat)
    requires PositiveSizes(fees) && p != [] && 0 < k < |c| && Unique(c) && Elems(p) !! Elems(c)
    requires Rate(fees, Elems(c[..k])) < Rate(fees, Elems(c)) && Rate(fees, Elems(p)) < Rate(fees, Elems(c))
    ensures Rate(fees, Elems(p) + Elems(c[..k])) < Rate(fees, Elems(p + c))
  {
    hide Rate;
    var a, x, b := Elems(p), Elems(c), Elems(c[..k]);
    ElemsAppend(p, c);
    assert c == c[..k] + c[k..];
    UniqueParts(c[..k], c[k..]);
    ElemsAppend(c[..k], c[k..]);
    NotEmpty(p);
    NotEmpty(c[..k]);
    NotEmpty(c[k..]);
    assert x - b == Elems(c[k..]);
    OtherPart(fees, x, b);
    NotEmpty(c);
    Mediant(fees, a, x);
    assert (a + x) - (x - b) == a + b;
    OtherPart(fees, a + x, x - b);
  }

  ghost function SetsOf(l: Groups): seq<Txs> {
    seq(|l|, i requires 0 <= i < |l| => Elems(l[i]))
  }

  lemma {:induction false} FlatBlocks(l: Groups)
    requires Unique(Flat(l))
    ensures InBlocks(Flat(l), SetsOf(l))
    decreases |l|
  {
    hide Unique;
    if l != [] {
      var rest, c := l[..|l| - 1], l[|l| - 1];
      UniqueParts(Flat(rest), c);
      FlatBlocks(rest);
      DistinctElems(c);
      var cs := SetsOf(l);
      assert cs[..|cs| - 1] == SetsOf(rest) && cs[|cs| - 1] == Elems(c);
      assert Flat(l)[|Flat(l)| - |c|..] == c && Flat(l)[..|Flat(l)| - |c|] == Flat(rest);
    }
  }

  lemma {:induction false} DistinctElems(c: seq<TxIdx>)
    requires Unique(c)
    ensures |Elems(c)| == |c|
  {
    DistinctLength(c);
  }

  /** No prefix of what follows beats the first chunk. */
  lemma {:induction false} PrefixLow(fees: Fees, l: Groups, k: nat, theta: real)
    requires PositiveSizes(fees) && Unique(Flat(l)) && k <= |Flat(l)|
    requires forall i | 0 <= i < |l| :: l[i] != [] && StrictPrefixes(fees, l[i]) && Rate(fees, Elems(l[i])) <= theta
    ensures Surplus(fees, theta, Elems(Flat(l)[..k])) <= 0.0
    decreases |l|
  {
    hide Rate, Surplus, Unique, StrictPrefixes;
    if l == [] {
      assert Elems(Flat(l)[..k]) == {};
      SurplusEmpty(fees, theta);
    } else {
      var rest, c := l[..|l| - 1], l[|l| - 1];
      UniqueParts(Flat(rest), c);
      PrefixUpTo(Flat(rest), c, k);
      if k <= |Flat(rest)| {
        PrefixLow(fees, rest, k, theta);
      } else {
        var n := k - |Flat(rest)|;
        PrefixLow(fees, rest, |Flat(rest)|, theta);
        assert Flat(rest)[..|Flat(rest)|] == Flat(rest);
        ChunkPrefixLow(fees, c, n, theta);
        PartsApart(Flat(rest), c, n);
        SurplusUnion(fees, theta, Elems(Flat(rest)), Elems(c[..n]));
      }
    }
  }

  lemma {:induction false} ChunkPrefixLow(fees: Fees, c: seq<TxIdx>, n: nat, theta: real)
    requires PositiveSizes(fees) && 0 < n <= |c| && StrictPrefixes(fees, c) && Rate(fees, Elems(c)) <= theta
    ensures Surplus(fees, theta, Elems(c[..n])) <= 0.0
  {
    hide Rate, Surplus;
    NotEmpty(c[..n]);
    assert n == |c| ==> c[..n] == c;
    SurplusSign(fees, theta, Elems(c[..n]));
  }

  lemma {:induction false} FlatFirst(l: Groups)
    requires l != []
    ensures Flat(l) == l[0] + Flat(l[1..])
  {
    hide Flat;
    assert l == [l[0]] + l[1..];
    FlatAppend([l[0]], l[1..]);
    FlatOne(l[0]);
  }

  /** The first chunks of two chunkings of the same order: neither is shorter. */
  lemma {:induction false} FirstNotShorter(fees: Fees, lin: seq<TxIdx>, a: Groups, b: Groups)
    requires PositiveSizes(fees) && Unique(lin) && IsChunking(fees, lin, a) && IsChunking(fees, lin, b) && a != [] && b != []
    ensures |a[0]| >= |b[0]|
  {
    hide Rate, Unique, Surplus, StrictPrefixes, Flat;
    FlatFirst(a);
    FlatFirst(b);
    var k := |b[0]|;
    if |a[0]| < k {
      var theta := Rate(fees, Elems(a[0]));
      assert lin[..k] == b[0] && a[0] == b[0][..|a[0]|];
      FirstIsHighest(fees, a);
      PrefixLow(fees, a, k, theta);
      NotEmpty(b[0]);
      SurplusSign(fees, theta, Elems(b[0]));
      StrictAt(fees, b[0], |a[0]|);
    }
  }

  lemma {:induction false} StrictAt(fees: Fees, c: seq<TxIdx>, k: nat)
    requires StrictPrefixes(fees, c) && 0 < k < |c|
    ensures Rate(fees, Elems(c[..k])) < Rate(fees, Elems(c))
  {}

  lemma {:induction false} FirstIsHighest(fees: Fees, l: Groups)
    requires Falling(fees, l) && l != []
    ensures forall i | 0 <= i < |l| :: Rate(fees, Elems(l[i])) <= Rate(fees, Elems(l[0]))
  {
    hide Rate;
  }

  /** An order has only one chunking. */
  lemma {:induction false} ChunkingUnique(fees: Fees, lin: seq<TxIdx>, a: Groups, b: Groups)
    requires PositiveSizes(fees) && Unique(lin) && IsChunking(fees, lin, a) && IsChunking(fees, lin, b)
    ensures a == b
    decreases |a|
  {
    hide Rate, Unique, StrictPrefixes;
    if a == [] || b == [] {
      if a != [] { FlatFirst(a); }
      if b != [] { FlatFirst(b); }
    } else {
      FirstNotShorter(fees, lin, a, b);
      FirstNotShorter(fees, lin, b, a);
      FlatFirst(a);
      FlatFirst(b);
      var n := |a[0]|;
      assert lin[..n] == a[0] && lin[..n] == b[0];
      RestChunking(fees, lin, a);
      RestChunking(fees, lin, b);
      ChunkingUnique(fees, lin[n..], a[1..], b[1..]);
      assert a == [a[0]] + a[1..] && b == [b[0]] + b[1..];
    }
  }

  lemma {:induction false} RestChunking(fees: Fees, lin: seq<TxIdx>, a: Groups)
    requires Unique(lin) && IsChunking(fees, lin, a) && a != []
    ensures |a[0]| <= |lin| && IsChunking(fees, lin[|a[0]|..], a[1..]) && Unique(lin[|a[0]|..])
  {
    hide Rate, StrictPrefixes;
    FlatFirst(a);
    UniqueParts(a[0], Flat(a[1..]));
    assert lin[|a[0]|..] == Flat(a[1..]);
    forall i, j | 0 <= i < j < |a[1..]| ensures Rate(fees, Elems(a[1..][j])) <= Rate(fees, Elems(a[1..][i])) {
      assert a[1..][i] == a[i + 1] && a[1..][j] == a[j + 1];
    }
  }

  // ----- Computing it

  ghost predicate StoresAll(fees: Fees, ret: seq<SetInfo>, l: Groups) {
    |ret| == |l| && forall i | 0 <= i < |l| :: ret[i] == Stored(fees, l[i])
  }

  /** The stored form of a chunk. */
  ghost function Stored(fees: Fees, c: seq<TxIdx>): SetInfo {
    SetInfo(Elems(c), Total(fees, Elems(c)))
  }

  /** `l` are the chunks of all but `c`, which is still growing. */
  ghost predicate Growing(fees: Fees, lin: seq<TxIdx>, l: Groups, c: seq<TxIdx>) {
    c != [] && StrictPrefixes(fees, c) && IsChunking(fees, Flat(l), l) && Flat(l) + c == lin
  }

  lemma {:induction false} GrowStart(fees: Fees, lin: seq<TxIdx>, l: Groups, v: TxIdx)
    requires IsChunking(fees, lin, l)
    ensures Growing(fees, lin + [v], l, [v]) && Stored(fees, [v]) == SetInfo({v}, FracOf(fees, v))
  {
    hide Rate, Total;
    assert Elems([v]) == {v};
    TotalSingleton(fees, v);
  }

  lemma {:induction false} GrowNext(fees: Fees, lin: seq<TxIdx>, l: Groups, c: seq<TxIdx>)
    requires PositiveSizes(fees) && Unique(lin) && Growing(fees, lin, l, c) && l != [] && Rate(fees, Elems(c)) > Rate(fees, Elems(l[|l| - 1]))
    ensures Growing(fees, lin, l[..|l| - 1], l[|l| - 1] + c)
    ensures Stored(fees, c).Join(Stored(fees, l[|l| - 1])) == Stored(fees, l[|l| - 1] + c)
  {
    hide Rate, Total, StrictPrefixes;
    var rest, b := l[..|l| - 1], l[|l| - 1];
    assert lin == Flat(rest) + (b + c);
    UniqueParts(Flat(rest), b + c);
    UniqueParts(b, c);
    MergedStrict(fees, b, c);
    ElemsAppend(b, c);
    TotalUnion(fees, Elems(c), Elems(b));
    assert Elems(c) + Elems(b) == Elems(b + c);
    forall i, j | 0 <= i < j < |rest| ensures Rate(fees, Elems(rest[j])) <= Rate(fees, Elems(rest[i])) {
      assert rest[i] == l[i] && rest[j] == l[j];
    }
  }

  lemma {:induction false} GrowDone(fees: Fees, lin: seq<TxIdx>, l: Groups, c: seq<TxIdx>)
    requires Growing(fees, lin, l, c) && (l != [] ==> Rate(fees, Elems(c)) <= Rate(fees, Elems(l[|l| - 1])))
    ensures IsChunking(fees, lin, l + [c])
  {
    hide Rate, StrictPrefixes;
    var m := l + [c];
    assert m[..|l|] == l && m[|l|] == c;
    forall i, j | 0 <= i < j < |m| ensures Rate(fees, Elems(m[j])) <= Rate(fees, Elems(m[i])) {
      if j == |l| && i < |l| - 1 { assert Rate(fees, Elems(l[|l| - 1])) <= Rate(fees, Elems(l[i])); }
    }
  }

  lemma {:induction false} StoredOrder(fees: Fees, a: seq<TxIdx>, b: seq<TxIdx>)
    requires PositiveSizes(fees) && a != [] && b != []
    ensures CompareByRatio(Stored(fees, a).frac, Stored(fees, b).frac) > 0 <==> Rate(fees, Elems(a)) > Rate(fees, Elems(b))
  {
    NotEmpty(a);
    NotEmpty(b);
    TotalSizePositive(fees, Elems(a));
    TotalSizePositive(fees, Elems(b));
    hide CompareByRatio, Total, Elems;
    CompareIsRatioOrder(Total(fees, Elems(a)), Total(fees, Elems(b)));
  }

  /** Compute the chunks of a linearization. */
  method ChunkLinearization(fees: Fees, lin: seq<TxIdx>) returns (ret: seq<SetInfo>, ghost l: Groups)
    requires PositiveSizes(fees) && Unique(lin)
    ensures IsChunking(fees, lin, l) && StoresAll(fees, ret, l)
  {
    hide Rate, Total, Unique, StrictPrefixes, Stored;
    ret, l := [], [];
    for i := 0 to |lin|
      invariant IsChunking(fees, lin[..i], l) && StoresAll(fees, ret, l)
    {
      assert lin[..i + 1] == lin[..i] + [lin[i]] && lin == lin[..i + 1] + lin[i + 1..];
      UniqueParts(lin[..i + 1], lin[i + 1..]);
      ret, l := AddToChunks(fees, lin[..i], lin[i], ret, l);
    }
    assert lin[..|lin|] == lin;
  }

  /** Add one transaction; as long as it has a higher feerate than the last chunk, it absorbs it. */
  method AddToChunks(fees: Fees, ghost lin: seq<TxIdx>, v: TxIdx, ret0: seq<SetInfo>, ghost l0: Groups) returns (ret: seq<SetInfo>, ghost l: Groups)
    requires PositiveSizes(fees) && Unique(lin + [v]) && IsChunking(fees, lin, l0) && StoresAll(fees, ret0, l0)
    ensures IsChunking(fees, lin + [v], l) && StoresAll(fees, ret, l)
  {
    hide Rate, Total, Unique, StrictPrefixes, Stored, IsChunking, CompareByRatio;
    ret, l := ret0, l0;
    GrowStart(fees, lin, l, v);
    var chunk := SetInfo({v}, FracOf(fees, v));
    ghost var c := [v];
    ghost var all := lin + [v];
    while true
      invariant Growing(fees, all, l, c) && StoresAll(fees, ret, l) && chunk == Stored(fees, c)
      decreases |ret|
    {
      if ret == [] {
        GrowDone(fees, all, l, c);
        break;
      }
      LastChunk(fees, all, l, c);
      StoredOrder(fees, c, l[|l| - 1]);
      if CompareByRatio(chunk.frac, ret[|ret| - 1].frac) <= 0 {
        GrowDone(fees, all, l, c);
        break;
      }
      GrowNext(fees, all, l, c);
      chunk := chunk.Join(ret[|ret| - 1]);
      ret := ret[..|ret| - 1];
      l, c := l[..|l| - 1], l[|l| - 1] + c;
    }
    ret, l := ret + [chunk], l + [c];
  }

  lemma {:induction false} LastChunk(fees: Fees, lin: seq<TxIdx>, l: Groups, c: seq<TxIdx>)
    requires Growing(fees, lin, l, c) && l != []
    ensures l[|l| - 1] != []
  {}

  // ----- Cutting an order into given blocks

  ghost function Cut(lin: seq<TxIdx>, cs: seq<Txs>): Groups
    requires InBlocks(lin, cs)
    decreases |cs|
  {
    if cs == [] then [] else
      var n := |lin| - |cs[|cs| - 1]|;
      Cut(lin[..n], cs[..|cs| - 1]) + [lin[n..]]
  }

  lemma {:induction false} CutIs(lin: seq<TxIdx>, cs: seq<Txs>)
    requires InBlocks(lin, cs)
    ensures Flat(Cut(lin, cs)) == lin && SetsOf(Cut(lin, cs)) == cs
    decreases |cs|
  {
    hide Elems;
    if cs != [] {
      var n := |lin| - |cs[|cs| - 1]|;
      var rest, c := Cut(lin[..n], cs[..|cs| - 1]), lin[n..];
      CutIs(lin[..n], cs[..|cs| - 1]);
      hide InBlocks, Cut;
      SetsAppend(rest, c);
      assert (rest + [c])[..|rest|] == rest;
      assert lin == lin[..n] + c && cs == cs[..|cs| - 1] + [cs[|cs| - 1]];
    }
  }

  lemma {:induction false} SetsAppend(l: Groups, c: seq<TxIdx>)
    ensures SetsOf(l + [c]) == SetsOf(l) + [Elems(c)]
  {}

  lemma {:induction false} FlatAround(l: Groups, i: nat)
    requires i < |l|
    ensures Flat(l) == Flat(l[..i]) + l[i] + Flat(l[i + 1..])
  {
    hide Flat;
    assert l == l[..i] + [l[i]] + l[i + 1..];
    FlatAppend(l[..i] + [l[i]], l[i + 1..]);
    FlatAppend(l[..i], [l[i]]);
    FlatOne(l[i]);
  }
}
