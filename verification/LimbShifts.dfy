/** Shifting limbs by any number of bits, one limb at a time. */
module LimbShifts {
  import opened Limbs

  /** Or a limb into position `t`; past the last limb it is lost. */
  function Put(s: seq<Limb>, t: int, v: nat): (r: seq<Limb>)
    requires 0 <= t < |s| ==> Or(s[t], v) < 0x1_0000_0000
    ensures |r| == |s|
  {
    if 0 <= t < |s| then s[t := Or(s[t], v)] else s
  }

  /** If no bits collide, the value grows by the limb in its place. */
  lemma {:induction false} PutVal(s: seq<Limb>, t: nat, v: nat) returns (lost: nat)
    requires t < |s| ==> Or(s[t], v) == s[t] + v < 0x1_0000_0000
    ensures Val(Put(s, t, v)) + lost * Weight(|s|) == Val(s) + v * Weight(t)
    ensures t < |s| ==> lost == 0
  {
    hide Weight, Val;
    if t < |s| {
      lost := 0;
      ValUpdate(s, t, s[t] + v);
      MulDistributes(s[t], v, Weight(t));
    } else {
      lost := v * Weight(t - |s|);
      WeightAdd(t - |s|, |s|);
      MulAssociates(v, Weight(t - |s|), Weight(|s|));
    }
  }

  /** The first `i` limbs of `a` have been shifted left by `k` limbs and `s` bits. */
  ghost predicate LeftInv(now: seq<Limb>, a: seq<Limb>, k: nat, s: nat, i: nat, lost: nat) {
    && i <= |a| == |now|
    && (forall t | i + k < t < |now| :: now[t] == 0)
    && (i + k < |now| ==> now[i + k] < Pow2(s))
    && Val(now) + lost * Weight(|now|) == Val(a[..i]) * (Pow2(s) * Weight(k))
  }

  function LeftStep(now: seq<Limb>, x: Limb, k: nat, s: nat, i: nat): (r: seq<Limb>)
    requires s < 32 && i < |now|
    requires i + k < |now| ==> now[i + k] < Pow2(s)
    requires forall t | i + k < t < |now| :: now[t] == 0
  {
    OrLeft(now, x, k, s, i);
    Put(Put(now, i + k + 1, if s == 0 then 0 else Shr(x, 32 - s)), i + k, Shl(x, s))
  }

  lemma {:induction false} OrLeft(now: seq<Limb>, x: Limb, k: nat, s: nat, i: nat)
    requires s < 32 && (i + k < |now| ==> now[i + k] < Pow2(s))
    ensures i + k < |now| ==> Or(now[i + k], Shl(x, s)) == now[i + k] + Shl(x, s) < 0x1_0000_0000
  {
    hide Pow2, Or, Shl;
    LimbShifted(x, s);
    if i + k < |now| { OrDisjoint(now[i + k], x % Pow2(32 - s), s); }
  }

  lemma {:induction false} LeftNext(now: seq<Limb>, a: seq<Limb>, k: nat, s: nat, i: nat, lost: nat) returns (more: nat)
    requires s < 32 && i < |a| && LeftInv(now, a, k, s, i, lost)
    ensures LeftInv(LeftStep(now, a[i], k, s, i), a, k, s, i + 1, more)
  {
    hide Weight, Val, Pow2, Or, Shl, Shr;
    var x := a[i];
    var hi, lo := Shr(x, 32 - s), Shl(x, s);
    LimbShifted(x, s);
    OrLeft(now, x, k, s, i);
    LimbHigh(x, s);
    var mid := Put(now, i + k + 1, hi);
    var u := PutVal(now, i + k + 1, hi);
    var v := PutVal(mid, i + k, lo);
    more := lost + u + v;
    assert LeftStep(now, x, k, s, i) == Put(mid, i + k, lo);
    ValNext(a, i);
    WeightAdd(i, k);
    WeightNext(i + k);
    LeftSum(x, hi, lo, Pow2(s), Weight(k), Weight(i), Weight(i + k + 1), Val(a[..i]));
    MulDistributes(lost, u, Weight(|now|));
    MulDistributes(lost + u, v, Weight(|now|));
  }

  /** With no bits to shift, no bits go to the next limb. */
  lemma {:induction false} LimbHigh(x: Limb, s: nat)
    requires s < 32
    ensures s == 0 ==> Shr(x, 32 - s) == 0
    ensures Or(0, Shr(x, 32 - s)) == Shr(x, 32 - s)
  {
    Pow2Word();
  }

  lemma {:induction false} LeftSum(x: nat, hi: nat, lo: nat, p: nat, wk: nat, wi: nat, wn: nat, v: nat)
    requires x * p == hi * 0x1_0000_0000 + lo && wn == 0x1_0000_0000 * (wi * wk)
    ensures (v + x * wi) * (p * wk) == v * (p * wk) + hi * wn + lo * (wi * wk)
  {
    MulDistributes(v, x * wi, p * wk);
    assert x * wi * (p * wk) == x * p * (wi * wk);
    MulDistributes(hi * 0x1_0000_0000, lo, wi * wk);
    MulAssociates(hi, 0x1_0000_0000, wi * wk);
  }

  /** The first `i` limbs of `a` have been shifted right by `k` limbs and `s` bits. */
  ghost predicate RightInv(now: seq<Limb>, a: seq<Limb>, k: nat, s: nat, i: nat, rem: nat) {
    && i <= |a| == |now| && s < 32
    && (forall t | 0 <= t < |now| && i - k <= t :: now[t] == 0)
    && (i > k ==> now[i - k - 1] < Pow2(32 - s))
    && Val(a[..i]) == Val(now) * (Pow2(s) * Weight(k)) + rem
    && (if i <= k then rem < Weight(k) else rem < Pow2(s) * Weight(k))
  }

  function RightStep(now: seq<Limb>, x: Limb, k: nat, s: nat, i: nat): (r: seq<Limb>)
    requires s < 32 && i < |now|
    requires i > k ==> now[i - k - 1] < Pow2(32 - s)
    requires forall t | 0 <= t < |now| && i - k <= t :: now[t] == 0
  {
    OrRight(now, x, k, s, i);
    Put(Put(now, i - k - 1, if s == 0 then 0 else Shl(x, 32 - s)), i - k, Shr(x, s))
  }

  lemma {:induction false} OrRight(now: seq<Limb>, x: Limb, k: nat, s: nat, i: nat)
    requires s < 32 && i < |now| && (i > k ==> now[i - k - 1] < Pow2(32 - s))
    ensures i > k ==> Or(now[i - k - 1], if s == 0 then 0 else Shl(x, 32 - s)) == now[i - k - 1] + x % Pow2(s) * Pow2(32 - s) < 0x1_0000_0000
  {
    hide Pow2, Or, Shl;
    LimbShifted(x, 32 - s);
    if i > k {
      OrDisjoint(now[i - k - 1], x % Pow2(s), 32 - s);
      if s == 0 { NoBits(now[i - k - 1], x); }
    }
  }

  lemma {:induction false} NoBits(y: Limb, x: Limb)
    ensures Or(y, 0) == y && x % Pow2(0) == 0
  {}

  /** Below the limbs that are kept, everything goes to the remainder. */
  lemma {:induction false} RightBelow(now: seq<Limb>, a: seq<Limb>, k: nat, s: nat, i: nat, rem: nat)
    requires i < |a| && i < k && RightInv(now, a, k, s, i, rem)
    ensures RightInv(now, a, k, s, i + 1, Val(a[..i + 1]))
    ensures RightStep(now, a[i], k, s, i) == now
  {
    hide Weight, Val, Pow2, Or, Shl, Shr;
    ValZero(now);
    ValBound(a[..i + 1]);
    WeightGrows(i + 1, k);
  }

  lemma {:induction false} RightNext(now: seq<Limb>, a: seq<Limb>, k: nat, s: nat, i: nat, rem: nat) returns (left: nat)
    requires i < |a| && RightInv(now, a, k, s, i, rem)
    ensures RightInv(RightStep(now, a[i], k, s, i), a, k, s, i + 1, left)
  {
    hide Weight, Val, Pow2, Or, Shl, Shr;
    if i < k {
      left := Val(a[..i + 1]);
      RightBelow(now, a, k, s, i, rem);
    } else if i == k {
      left := RightFirst(now, a, k, s, rem);
    } else {
      left := rem;
      RightLater(now, a, k, s, i, rem);
    }
  }

  lemma {:induction false} RightFirst(now: seq<Limb>, a: seq<Limb>, k: nat, s: nat, rem: nat) returns (left: nat)
    requires k < |a| && RightInv(now, a, k, s, k, rem)
    ensures RightInv(RightStep(now, a[k], k, s, k), a, k, s, k + 1, left)
  {
    hide Weight, Val, Pow2, Or, Shl, Shr;
    var x := a[k];
    var p, lo := Pow2(s), x % Pow2(s);
    left := rem + lo * Weight(k);
    OrRight(now, x, k, s, k);
    ShrBound(x, s);
    ValZero(now);
    var u := PutVal(now, 0, Shr(x, s));
    ValNext(a, k);
    assert Weight(0) == 1 by { WeightStart(); }
    RightSplit(x, Shr(x, s), p, lo, Weight(k), 1);
    MulGrows(lo + 1, p, Weight(k));
    MulDistributes(lo, 1, Weight(k));
  }

  lemma {:induction false} RightLater(now: seq<Limb>, a: seq<Limb>, k: nat, s: nat, i: nat, rem: nat)
    requires k < i < |a| && RightInv(now, a, k, s, i, rem)
    ensures RightInv(RightStep(now, a[i], k, s, i), a, k, s, i + 1, rem)
  {
    hide Weight, Val, Pow2, Or, Shl, Shr;
    var x, j := a[i], i - k - 1;
    var p, q, hi, lo := Pow2(s), Pow2(32 - s), Shr(x, s), x % Pow2(s);
    OrRight(now, x, k, s, i);
    ShrBound(x, s);
    var low := if s == 0 then 0 else Shl(x, 32 - s);
    LimbShifted(x, 32 - s);
    if s == 0 { NoBits(now[j], x); }
    var mid := Put(now, j, low);
    var u := PutVal(now, j, low);
    var v := PutVal(mid, j + 1, hi);
    ValNext(a, i);
    WeightAdd(k, j + 1);
    WeightNext(j);
    RightSplit(x, hi, p, lo, Weight(k), Weight(j + 1));
    RightSum(Val(now), p, q, lo, hi, Weight(k), Weight(j));
    assert Val(RightStep(now, x, k, s, i)) == Val(now) + low * Weight(j) + hi * Weight(j + 1);
  }

  lemma {:induction false} ShrBound(x: Limb, s: nat)
    requires s < 32
    ensures x == Shr(x, s) * Pow2(s) + x % Pow2(s) && 0 <= x % Pow2(s) < Pow2(s)
    ensures Pow2(s) * Pow2(32 - s) == 0x1_0000_0000
    ensures Or(0, Shr(x, s)) == Shr(x, s) < Pow2(32 - s)
  {
    hide Pow2;
    LimbShifted(x, 32 - s);
    Pow2Add(s, 32 - s);
    Pow2Word();
  }

  lemma {:induction false} WeightStart()
    ensures Weight(0) == 1
  {}

  lemma {:induction false} WeightGrows(a: nat, b: nat)
    requires a <= b
    ensures Weight(a) <= Weight(b)
    decreases b
  {
    if a < b { WeightGrows(a, b - 1); }
  }

  lemma {:induction false} RightSplit(x: nat, hi: nat, p: nat, lo: nat, wk: nat, wj: nat)
    requires x == hi * p + lo
    ensures x * (wk * wj) == hi * wj * (p * wk) + lo * (wk * wj)
  {
    MulDistributes(hi * p, lo, wk * wj);
    assert hi * p * (wk * wj) == hi * wj * (p * wk);
  }

  lemma {:induction false} RightSum(v: nat, p: nat, q: nat, lo: nat, hi: nat, wk: nat, wj: nat)
    requires p * q == 0x1_0000_0000
    ensures (v + lo * q * wj + hi * (0x1_0000_0000 * wj)) * (p * wk) == v * (p * wk) + lo * (wk * (0x1_0000_0000 * wj)) + hi * (0x1_0000_0000 * wj) * (p * wk)
  {
    MulDistributes(v, lo * q * wj, p * wk);
    MulDistributes(v + lo * q * wj, hi * (0x1_0000_0000 * wj), p * wk);
    assert lo * q * wj * (p * wk) == lo * (wk * (p * q * wj));
  }
}
