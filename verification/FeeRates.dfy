/** Fees, sizes and feerates of transactions and of sets of transactions. */
module FeeRates {
  import opened Sums

  /** Position of a transaction in a cluster. */
  type TxIdx = nat

  /** A fee together with a size; exact integers, so the 64/32-bit overflow limits are not modelled. */
  datatype FeeFrac = FeeFrac(fee: int, size: int) {
    function Plus(other: FeeFrac): FeeFrac {
      FeeFrac(fee + other.fee, size + other.size)
    }
    function Minus(other: FeeFrac): FeeFrac {
      FeeFrac(fee - other.fee, size - other.size)
    }
  }

  /** The sign of the comparison of two feerates by cross-multiplication. */
  function CompareByRatio(a: FeeFrac, b: FeeFrac): int {
    a.fee * b.size - b.fee * a.size
  }

  ghost function RatioOf(a: FeeFrac): real {
    if a.size <= 0 then 0.0 else a.fee as real / a.size as real
  }

  /** Cross-multiplication orders feerates as the quotients do. */
  lemma {:induction false} CompareIsRatioOrder(a: FeeFrac, b: FeeFrac)
    requires a.size > 0 && b.size > 0
    ensures CompareByRatio(a, b) < 0 <==> RatioOf(a) < RatioOf(b)
    ensures CompareByRatio(a, b) > 0 <==> RatioOf(a) > RatioOf(b)
  {
    var x, y, s, t := a.fee as real, b.fee as real, a.size as real, b.size as real;
    assert (a.fee * b.size) as real == x * t;
    assert (b.fee * a.size) as real == y * s;
    QuotientOrder(x, s, y, t);
  }

  lemma {:induction false} QuotientOrder(x: real, s: real, y: real, t: real)
    requires s > 0.0 && t > 0.0
    ensures x / s < y / t <==> x * t < y * s
    ensures x / s > y / t <==> x * t > y * s
  {
    var p, q := x / s, y / t;
    assert x == p * s && y == q * t;
    assert x * t == p * (s * t);
    assert y * s == q * (s * t);
    assert s * t > 0.0;
    ScaleOrder(p, q, s * t);
  }

  lemma {:induction false} ScaleOrder(p: real, q: real, k: real)
    requires k > 0.0
    ensures p * k < q * k <==> p < q
    ensures p * k > q * k <==> p > q
  {
    if p < q {
      assert (q - p) * k > 0.0;
    } else if p > q {
      assert (p - q) * k > 0.0;
    }
  }

  /** Fee and size of every transaction of a cluster. */
  type Fees = map<TxIdx, FeeFrac>

  function FracOf(fees: Fees, v: TxIdx): FeeFrac {
    if v in fees then fees[v] else FeeFrac(0, 1)
  }

  ghost predicate PositiveSizes(fees: Fees) {
    forall v <- fees :: fees[v].size > 0
  }

  ghost function FeeOf(fees: Fees): TxIdx -> int { (v: TxIdx) => FracOf(fees, v).fee }

  ghost function SizeOf(fees: Fees): TxIdx -> int { (v: TxIdx) => FracOf(fees, v).size }

  /** Aggregate fee and size of a set of transactions. */
  ghost function Total(fees: Fees, s: set<TxIdx>): FeeFrac {
    FeeFrac(Sum(FeeOf(fees), s), Sum(SizeOf(fees), s))
  }

  lemma {:induction false} TotalUnion(fees: Fees, a: set<TxIdx>, b: set<TxIdx>)
    requires a !! b
    ensures Total(fees, a + b) == Total(fees, a).Plus(Total(fees, b))
  {
    SumUnion(FeeOf(fees), a, b);
    SumUnion(SizeOf(fees), a, b);
  }

  lemma {:induction false} TotalSplit(fees: Fees, s: set<TxIdx>, t: set<TxIdx>)
    requires t <= s
    ensures Total(fees, s - t) == Total(fees, s).Minus(Total(fees, t))
  {
    TotalUnion(fees, s - t, t);
    assert (s - t) + t == s;
  }

  lemma {:induction false} TotalSingleton(fees: Fees, v: TxIdx)
    ensures Total(fees, {v}) == FracOf(fees, v)
  {
    SumRemove(FeeOf(fees), {v}, v);
    SumRemove(SizeOf(fees), {v}, v);
    assert {v} - {v} == {};
  }

  lemma {:induction false} TotalSizePositive(fees: Fees, s: set<TxIdx>)
    requires PositiveSizes(fees)
    ensures s != {} ==> Total(fees, s).size > 0
  {
    SumPositive(SizeOf(fees), s);
  }

  /** Feerate of a set of transactions. */
  ghost function Rate(fees: Fees, s: set<TxIdx>): real {
    RatioOf(Total(fees, s))
  }

  ghost function SurplusOf(lam: real, f: FeeFrac): real {
    f.fee as real - lam * f.size as real
  }

  lemma {:induction false} SurplusPlus(lam: real, f: FeeFrac, g: FeeFrac)
    ensures SurplusOf(lam, f.Plus(g)) == SurplusOf(lam, f) + SurplusOf(lam, g)
  {
    assert (f.size + g.size) as real == f.size as real + g.size as real;
  }

  /** What a set earns above the feerate `lam`. */
  ghost function Surplus(fees: Fees, lam: real, s: set<TxIdx>): real {
    SurplusOf(lam, Total(fees, s))
  }

  lemma {:induction false} SurplusUnion(fees: Fees, lam: real, a: set<TxIdx>, b: set<TxIdx>)
    requires a !! b
    ensures Surplus(fees, lam, a + b) == Surplus(fees, lam, a) + Surplus(fees, lam, b)
  {
    TotalUnion(fees, a, b);
    SurplusPlus(lam, Total(fees, a), Total(fees, b));
  }

  lemma {:induction false} SurplusEmpty(fees: Fees, lam: real)
    ensures Surplus(fees, lam, {}) == 0.0
  {}

  /** A set beats the feerate `lam` exactly when its surplus over `lam` is positive. */
  lemma {:induction false} SurplusSign(fees: Fees, lam: real, s: set<TxIdx>)
    requires PositiveSizes(fees) && s != {}
    ensures Surplus(fees, lam, s) > 0.0 <==> Rate(fees, s) > lam
    ensures Surplus(fees, lam, s) < 0.0 <==> Rate(fees, s) < lam
  {
    TotalSizePositive(fees, s);
    var x, t := Total(fees, s).fee as real, Total(fees, s).size as real;
    var r := x / t;
    assert x == r * t;
    ScaleOrder(r, lam, t);
  }

  /** The feerate of a union lies between the feerates of its parts. */
  lemma {:induction false} Mediant(fees: Fees, a: set<TxIdx>, b: set<TxIdx>)
    requires PositiveSizes(fees) && a !! b && a != {} && b != {}
    ensures Rate(fees, a) <= Rate(fees, b) ==> Rate(fees, a) <= Rate(fees, a + b) <= Rate(fees, b)
    ensures Rate(fees, a) < Rate(fees, b) ==> Rate(fees, a) < Rate(fees, a + b) < Rate(fees, b)
  {
    var p, q := Rate(fees, a), Rate(fees, b);
    SurplusUnion(fees, p, a, b);
    SurplusUnion(fees, q, a, b);
    SurplusSign(fees, p, a);
    SurplusSign(fees, p, b);
    SurplusSign(fees, q, a);
    SurplusSign(fees, q, b);
    SurplusSign(fees, p, a + b);
    SurplusSign(fees, q, a + b);
  }

  /** Reverse the sign of every fee. */
  function NegateFees(fees: Fees): Fees {
    map v | v in fees :: FeeFrac(-fees[v].fee, fees[v].size)
  }

  lemma {:induction false} NegatedTotal(fees: Fees, s: set<TxIdx>)
    ensures Total(NegateFees(fees), s) == FeeFrac(-Total(fees, s).fee, Total(fees, s).size)
  {
    forall v ensures FeeOf(NegateFees(fees))(v) == -1 * FeeOf(fees)(v)
             ensures SizeOf(NegateFees(fees))(v) == 1 * SizeOf(fees)(v)
    {
      assert FracOf(NegateFees(fees), v) == FeeFrac(-FracOf(fees, v).fee, FracOf(fees, v).size);
    }
    SumSame(FeeOf(fees), FeeOf(NegateFees(fees)), -1, s);
    SumSame(SizeOf(fees), SizeOf(NegateFees(fees)), 1, s);
  }

  lemma {:induction false} NegatedRate(fees: Fees, s: set<TxIdx>)
    ensures Rate(NegateFees(fees), s) == -Rate(fees, s)
    ensures PositiveSizes(fees) ==> PositiveSizes(NegateFees(fees))
  {
    NegatedTotal(fees, s);
  }

  lemma {:induction false} NegatedSurplus(fees: Fees, lam: real, s: set<TxIdx>)
    ensures Surplus(NegateFees(fees), -lam, s) == -Surplus(fees, lam, s)
  {
    NegatedTotal(fees, s);
    var t := Total(fees, s).size as real;
    assert (-lam) * t == -(lam * t);
  }
}
