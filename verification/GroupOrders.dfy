/**
 Improving an order of transactions by merging and swapping adjacent groups: the order stays
 valid and gets no worse. One pass orientation is treated; the other is its mirror image.
 */
module GroupOrders {
  import opened FeeRates
  import opened Forests
  import opened Diagrams
  import opened DepGraphs
  import opened Loading
  import opened Ordering

  /** The fees, and what has to come first, as one pass sees them. */
  datatype Pass = Pass(fees: Fees, dep: map<TxIdx, Txs>)

  function PassOf(g: Graph, rev: bool): Pass {
    if rev then Pass(NegateFees(g.fees), g.desc) else Pass(g.fees, g.anc)
  }

  /** No transaction is repeated, and each comes after what has to come first. */
  ghost predicate ValidBy(dep: map<TxIdx, Txs>, lin: seq<TxIdx>) {
    && Unique(lin)
    && (forall i | 0 <= i < |lin| :: lin[i] in dep && dep[lin[i]] <= Elems(lin[..i + 1]))
  }

  /** No prefix of the group earns more than the whole group, or nothing. */
  ghost predicate Dominated(fees: Fees, c: seq<TxIdx>) {
    c != [] && forall lam: real, k: nat | k <= |c| :: Surplus(fees, lam, Elems(c[..k])) <= Gain(fees, lam, Elems(c))
  }

  lemma {:induction false} SingleDominated(fees: Fees, v: TxIdx)
    requires PositiveSizes(fees)
    ensures Dominated(fees, [v])
  {
    hide Surplus;
    forall lam: real, k: nat | k <= 1 ensures Surplus(fees, lam, Elems([v][..k])) <= Gain(fees, lam, Elems([v])) {
      assert k == 0 ==> Elems([v][..k]) == {};
      assert k == 1 ==> [v][..k] == [v];
      SurplusEmpty(fees, lam);
    }
  }

  lemma {:induction false} PrefixUpTo(a: seq<TxIdx>, b: seq<TxIdx>, k: nat)
    requires k <= |a + b|
    ensures k <= |a| ==> (a + b)[..k] == a[..k]
    ensures k >= |a| ==> (a + b)[..k] == a + b[..k - |a|] && Elems((a + b)[..k]) == Elems(a) + Elems(b[..k - |a|])
  {
    if k >= |a| { ElemsAppend(a, b[..k - |a|]); }
  }

  lemma {:induction false} GroupSurplus(fees: Fees, lam: real, p: seq<TxIdx>, c: seq<TxIdx>)
    requires PositiveSizes(fees) && p != [] && c != [] && Elems(p) !! Elems(c) && Rate(fees, Elems(c)) >= Rate(fees, Elems(p))
    ensures Elems(p) != {} && Elems(c) != {}
    ensures Gain(fees, lam, Elems(p)) > 0.0 ==> Gain(fees, lam, Elems(p)) == Surplus(fees, lam, Elems(p)) && Surplus(fees, lam, Elems(c)) > 0.0
    ensures Gain(fees, lam, Elems(c)) == 0.0 ==> Surplus(fees, lam, Elems(p)) <= 0.0
    ensures Gain(fees, lam, Elems(c)) > 0.0 ==> Gain(fees, lam, Elems(c)) == Surplus(fees, lam, Elems(c))
    ensures Gain(fees, lam, Elems(p)) >= 0.0 && Gain(fees, lam, Elems(c)) >= 0.0
    ensures Surplus(fees, lam, Elems(p + c)) == Surplus(fees, lam, Elems(p)) + Surplus(fees, lam, Elems(c)) <= Gain(fees, lam, Elems(p + c))
    ensures Gain(fees, lam, Elems(p + c)) >= 0.0
  {
    assert p[0] in Elems(p) && c[0] in Elems(c);
    hide Surplus, Rate;
    SurplusSign(fees, lam, Elems(p));
    SurplusSign(fees, lam, Elems(c));
    ElemsAppend(p, c);
    SurplusUnion(fees, lam, Elems(p), Elems(c));
  }

  /** A group of higher feerate merged with the one before it. */
  lemma {:induction false} MergedDominated(fees: Fees, p: seq<TxIdx>, c: seq<TxIdx>)
    requires PositiveSizes(fees) && Dominated(fees, p) && Dominated(fees, c) && Unique(p + c)
    requires Rate(fees, Elems(c)) > Rate(fees, Elems(p))
    ensures Dominated(fees, p + c)
  {
    UniqueParts(p, c);
    forall lam: real, k: nat | k <= |p + c| ensures Surplus(fees, lam, Elems((p + c)[..k])) <= Gain(fees, lam, Elems(p + c)) {
      hide Surplus, Gain, Rate, Elems;
      GroupSurplus(fees, lam, p, c);
      PrefixUpTo(p, c, k);
      if k <= |p| {
        assert Surplus(fees, lam, Elems(p[..k])) <= Gain(fees, lam, Elems(p));
      } else {
        var b := c[..k - |p|];
        assert Surplus(fees, lam, Elems(b)) <= Gain(fees, lam, Elems(c));
        PartsApart(p, c, k - |p|);
        SurplusUnion(fees, lam, Elems(p), Elems(b));
      }
    }
  }

  lemma {:induction false} PartsApart(p: seq<TxIdx>, c: seq<TxIdx>, k: nat)
    requires k <= |c| && Elems(p) !! Elems(c)
    ensures Elems(p) !! Elems(c[..k])
  {}

  lemma {:induction false} UniqueParts(p: seq<TxIdx>, c: seq<TxIdx>)
    requires Unique(p + c)
    ensures Unique(p) && Unique(c) && Elems(p) !! Elems(c)
  {
    forall i, j | 0 <= i < j < |p| ensures p[i] != p[j] { assert (p + c)[i] == p[i] && (p + c)[j] == p[j]; }
    forall i, j | 0 <= i < j < |c| ensures c[i] != c[j] { assert (p + c)[|p| + i] == c[i] && (p + c)[|p| + j] == c[j]; }
    forall i, j | 0 <= i < |p| && 0 <= j < |c| ensures p[i] != c[j] { assert (p + c)[i] == p[i] && (p + c)[|p| + j] == c[j]; }
  }

  /** Whatever a prefix of `x + p + c` earns, one of `x`, `x + c + p` earns too. */
  lemma {:induction false} SwapPrefix(fees: Fees, x: seq<TxIdx>, p: seq<TxIdx>, c: seq<TxIdx>, lam: real, k: nat)
    requires PositiveSizes(fees) && Dominated(fees, p) && Dominated(fees, c) && Unique(x + (p + c))
    requires Rate(fees, Elems(c)) >= Rate(fees, Elems(p)) && k <= |p + c|
    ensures var earned := Surplus(fees, lam, Elems(x) + Elems((p + c)[..k]));
            earned <= Surplus(fees, lam, Elems(x)) || earned <= Surplus(fees, lam, Elems(x) + Elems(p + c))
  {
    UniqueParts(x, p + c);
    UniqueParts(p, c);
    PartsApart(x, p + c, k);
    hide Surplus, Gain, Rate, Elems;
    GroupSurplus(fees, lam, p, c);
    SurplusUnion(fees, lam, Elems(x), Elems((p + c)[..k]));
    SurplusUnion(fees, lam, Elems(x), Elems(p + c));
    PrefixUpTo(p, c, k);
    if k <= |p| {
      assert Surplus(fees, lam, Elems(p[..k])) <= Gain(fees, lam, Elems(p));
    } else {
      var b := c[..k - |p|];
      assert Surplus(fees, lam, Elems(b)) <= Gain(fees, lam, Elems(c));
      PartsApart(p, c, k - |p|);
      SurplusUnion(fees, lam, Elems(p), Elems(b));
    }
  }

  /** Swapping a group with one of no higher feerate before it makes the order no worse. */
  lemma {:induction false} SwapNoWorse(fees: Fees, x: seq<TxIdx>, p: seq<TxIdx>, c: seq<TxIdx>, y: seq<TxIdx>)
    requires PositiveSizes(fees) && Dominated(fees, p) && Dominated(fees, c) && Unique(x + p + c + y)
    requires Rate(fees, Elems(c)) >= Rate(fees, Elems(p))
    ensures NoWorse(fees, x + c + p + y, x + p + c + y)
  {
    var was, now := x + p + c + y, x + c + p + y;
    assert was == (x + (p + c)) + y;
    UniqueParts(x + (p + c), y);
    hide Surplus, Rate, Dominated, SomePrefixEarns, Elems;
    forall lam: real, k: nat | k <= |was| ensures SomePrefixEarns(fees, lam, now, Surplus(fees, lam, Elems(was[..k]))) {
      SwapEarns(fees, x, p, c, y, lam, k);
    }
  }

  lemma {:induction false} SwapEarns(fees: Fees, x: seq<TxIdx>, p: seq<TxIdx>, c: seq<TxIdx>, y: seq<TxIdx>, lam: real, k: nat)
    requires PositiveSizes(fees) && Dominated(fees, p) && Dominated(fees, c) && Unique(x + (p + c))
    requires Rate(fees, Elems(c)) >= Rate(fees, Elems(p)) && k <= |x + p + c + y|
    ensures SomePrefixEarns(fees, lam, x + c + p + y, Surplus(fees, lam, Elems((x + p + c + y)[..k])))
  {
    hide Surplus, Rate, Dominated, SomePrefixEarns;
    var was, now := x + p + c + y, x + c + p + y;
    var earned := Surplus(fees, lam, Elems(was[..k]));
    SameUnion(x, p, c);
    if k <= |x| {
      assert was[..k] == now[..k];
      Earns(fees, lam, now, k, earned);
    } else if k <= |x + p + c| {
      assert was[..k] == x + (p + c)[..k - |x|];
      ElemsAppend(x, (p + c)[..k - |x|]);
      ElemsAppend(x, p + c);
      SwapPrefix(fees, x, p, c, lam, k - |x|);
      assert now[..|x|] == x && now[..|x + c + p|] == x + c + p;
      Earns(fees, lam, now, if earned <= Surplus(fees, lam, Elems(x)) then |x| else |x + c + p|, earned);
    } else {
      assert was[..k] == (x + p + c) + y[..k - |x + p + c|] && now[..k] == (x + c + p) + y[..k - |x + p + c|];
      ElemsAppend(x + p + c, y[..k - |x + p + c|]);
      ElemsAppend(x + c + p, y[..k - |x + p + c|]);
      Earns(fees, lam, now, k, earned);
    }
  }

  lemma {:induction false} SameUnion(x: seq<TxIdx>, p: seq<TxIdx>, c: seq<TxIdx>)
    ensures Elems(x + p + c) == Elems(x + c + p) == Elems(x) + Elems(p) + Elems(c) == Elems(x) + Elems(p + c)
  {
    ElemsAppend(x + p, c);
    ElemsAppend(x, p);
    ElemsAppend(x + c, p);
    ElemsAppend(x, c);
    ElemsAppend(p, c);
  }

  /** Swapping a group with one it does not depend on keeps the order valid. */
  lemma {:induction false} SwapValid(dep: map<TxIdx, Txs>, x: seq<TxIdx>, p: seq<TxIdx>, c: seq<TxIdx>, y: seq<TxIdx>)
    requires ValidBy(dep, x + p + c + y)
    requires forall v <- c :: v in dep && dep[v] !! Elems(p)
    ensures ValidBy(dep, x + c + p + y)
  {
    var was, now := x + p + c + y, x + c + p + y;
    SwapUnique(x, p, c, y);
    forall i | 0 <= i < |now| ensures now[i] in dep && dep[now[i]] <= Elems(now[..i + 1]) {
      var j := if |x| <= i < |x + c| then i + |p| else if |x + c| <= i < |x + c + p| then i - |c| else i;
      assert now[i] == was[j] && dep[was[j]] <= Elems(was[..j + 1]);
      forall d <- dep[now[i]] ensures d in Elems(now[..i + 1]) {
        var m :| 0 <= m <= j && was[m] == d;
        SwapPlace(x, p, c, y, i, j, m);
      }
    }
  }

  /** What came before position `j` and is not in the group moved behind comes before position `i` after the swap. */
  lemma {:induction false} SwapPlace(x: seq<TxIdx>, p: seq<TxIdx>, c: seq<TxIdx>, y: seq<TxIdx>, i: nat, j: nat, m: nat)
    requires i < |x + c + p + y| && m <= j
    requires j == if |x| <= i < |x + c| then i + |p| else if |x + c| <= i < |x + c + p| then i - |c| else i
    requires |x| <= i < |x + c| ==> (x + p + c + y)[m] !in Elems(p)
    ensures (x + p + c + y)[m] in Elems((x + c + p + y)[..i + 1])
  {
    var was, now := x + p + c + y, x + c + p + y;
    if |x| <= m < |x + p| { assert was[m] == p[m - |x|]; }
    var q := if |x| <= m < |x + p| then m + |c| else if |x + p| <= m < |x + p + c| then m - |p| else m;
    assert now[q] == was[m];
    assert q <= i;
    assert now[..i + 1][q] == was[m];
  }

  lemma {:induction false} SwapUnique(x: seq<TxIdx>, p: seq<TxIdx>, c: seq<TxIdx>, y: seq<TxIdx>)
    requires Unique(x + p + c + y)
    ensures Unique(x + c + p + y) && Elems(x + c + p + y) == Elems(x + p + c + y)
  {
    var was, now := x + p + c + y, x + c + p + y;
    forall i, j | 0 <= i < j < |now| ensures now[i] != now[j] {
      var a := if |x| <= i < |x + c| then i + |p| else if |x + c| <= i < |x + c + p| then i - |c| else i;
      var b := if |x| <= j < |x + c| then j + |p| else if |x + c| <= j < |x + c + p| then j - |c| else j;
      assert now[i] == was[a] && now[j] == was[b];
    }
    SameUnion(x, p, c);
    ElemsAppend(x + p + c, y);
    ElemsAppend(x + c + p, y);
  }

  // ----- The mirror image

  ghost function Rev(s: seq<TxIdx>): seq<TxIdx> {
    seq(|s|, i requires 0 <= i < |s| => s[|s| - 1 - i])
  }

  lemma {:induction false} RevElems(s: seq<TxIdx>)
    ensures Elems(Rev(s)) == Elems(s) && (Unique(s) ==> Unique(Rev(s))) && Rev(Rev(s)) == s
  {
    forall v <- s ensures v in Rev(s) {
      var i :| 0 <= i < |s| && s[i] == v;
      assert Rev(s)[|s| - 1 - i] == v;
    }
  }

  /** A prefix of the reversed order is what a prefix of the order leaves. */
  lemma {:induction false} RevPrefix(s: seq<TxIdx>, k: nat)
    requires Unique(s) && k <= |s|
    ensures Elems(Rev(s)[..k]) == Elems(s) - Elems(s[..|s| - k])
  {
    forall v <- Elems(s) - Elems(s[..|s| - k]) ensures v in Rev(s)[..k] {
      var i :| 0 <= i < |s| && s[i] == v;
      assert i >= |s| - k;
      assert Rev(s)[..k][|s| - 1 - i] == v;
    }
    forall v <- Rev(s)[..k] ensures v in Elems(s) - Elems(s[..|s| - k]) {
      var i :| 0 <= i < k && Rev(s)[i] == v;
      assert s[|s| - 1 - i] == v;
    }
  }

  /** Reversing an order in which descendants come first gives one in which ancestors do, and the other way around. */
  lemma {:induction false} RevValid(g: Graph, rev: bool, lin: seq<TxIdx>)
    requires ClosedGraph(g) && ValidBy(PassOf(g, rev).dep, lin) && Elems(lin) == g.anc.Keys
    ensures ValidBy(PassOf(g, !rev).dep, Rev(lin))
  {
    hide ClosedGraph;
    RevElems(lin);
    var r, dep := Rev(lin), PassOf(g, !rev).dep;
    forall i | 0 <= i < |r| ensures r[i] in dep && dep[r[i]] <= Elems(r[..i + 1]) {
      assert r[i] in Elems(r);
      PassKeys(g, rev, r[i]);
      forall u <- dep[r[i]] ensures u in Elems(r[..i + 1]) {
        PassDual(g, rev, u, r[i]);
        RevPlace(PassOf(g, rev).dep, lin, i, u);
      }
    }
  }

  lemma {:induction false} PassKeys(g: Graph, rev: bool, v: TxIdx)
    requires ClosedGraph(g) && v in g.anc
    ensures v in PassOf(g, rev).dep && v in PassOf(g, !rev).dep
  {}

  lemma {:induction false} PassDual(g: Graph, rev: bool, u: TxIdx, v: TxIdx)
    requires ClosedGraph(g) && v in g.anc && v in PassOf(g, !rev).dep && u in PassOf(g, !rev).dep[v]
    ensures u in g.anc && u in PassOf(g, rev).dep && v in PassOf(g, rev).dep[u]
  {}

  lemma {:induction false} ValidAt(dep: map<TxIdx, Txs>, lin: seq<TxIdx>, m: nat)
    requires ValidBy(dep, lin) && m < |lin|
    ensures Unique(lin) && lin[m] in dep && dep[lin[m]] <= Elems(lin[..m + 1])
  {}

  lemma {:induction false} SamePlace(lin: seq<TxIdx>, i: nat, j: nat)
    requires Unique(lin) && i < |lin| && j < |lin| && lin[i] == lin[j]
    ensures i == j
  {}

  lemma {:induction false} RevPlace(dep: map<TxIdx, Txs>, lin: seq<TxIdx>, i: nat, u: TxIdx)
    requires ValidBy(dep, lin) && i < |lin| && u in Elems(lin) && u in dep && Rev(lin)[i] in dep[u]
    ensures u in Elems(Rev(lin)[..i + 1])
  {
    hide ValidBy;
    var m :| 0 <= m < |lin| && lin[m] == u;
    ValidAt(dep, lin, m);
    var q :| 0 <= q <= m && lin[..m + 1][q] == Rev(lin)[i];
    SamePlace(lin, q, |lin| - 1 - i);
    assert Rev(lin)[..i + 1][|lin| - 1 - m] == u;
  }

  lemma {:induction false} ComplementSurplus(fees: Fees, lam: real, all: Txs, part: Txs)
    requires part <= all
    ensures Surplus(fees, lam, all - part) == Surplus(fees, lam, all) + Surplus(NegateFees(fees), -lam, part)
  {
    hide Surplus;
    SurplusUnion(fees, lam, part, all - part);
    assert part + (all - part) == all;
    NegatedSurplus(fees, lam, part);
  }

  lemma {:induction false} PrefixInside(s: seq<TxIdx>, k: nat)
    requires k <= |s|
    ensures Elems(s[..k]) <= Elems(s)
  {}

  /** An order no worse in the mirror image is no worse. */
  lemma {:induction false} RevNoWorse(fees: Fees, better: seq<TxIdx>, lin: seq<TxIdx>)
    requires Unique(better) && Unique(lin) && Elems(better) == Elems(lin) && NoWorse(NegateFees(fees), better, lin)
    ensures NoWorse(fees, Rev(better), Rev(lin))
  {
    hide Surplus, Elems, Unique;
    var all := Elems(lin);
    forall lam: real, k: nat | k <= |Rev(lin)| ensures SomePrefixEarns(fees, lam, Rev(better), Surplus(fees, lam, Elems(Rev(lin)[..k]))) {
      RevPrefix(lin, k);
      PrefixInside(lin, |lin| - k);
      ComplementSurplus(fees, lam, all, Elems(lin[..|lin| - k]));
      var amount := Surplus(NegateFees(fees), -lam, Elems(lin[..|lin| - k]));
      assert SomePrefixEarns(NegateFees(fees), -lam, better, amount);
      var m: nat :| PrefixEarns(NegateFees(fees), -lam, better, m, amount);
      RevPrefix(better, |better| - m);
      PrefixInside(better, m);
      ComplementSurplus(fees, lam, all, Elems(better[..m]));
      Earns(fees, lam, Rev(better), |better| - m, Surplus(fees, lam, Elems(Rev(lin)[..k])));
    }
  }
}
