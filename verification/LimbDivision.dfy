/** Division by shifting and subtracting: what each step keeps. */
module LimbDivision {
  import opened Limbs

  /** All bits below position `n` are clear. */
  ghost predicate LowClear(s: seq<Limb>, n: nat) {
    && (forall t | 0 <= t < |s| && t < n / 32 :: s[t] == 0)
    && (n / 32 < |s| ==> s[n / 32] % Pow2(n % 32) == 0)
  }

  /** `n` divided by `d`: the quotient so far, the rest of the number, and the divisor shifted to the next bit. */
  ghost predicate DivInv(n: nat, d: nat, q: nat, num: nat, div: nat, shift: int) {
    && -1 <= shift && n == q * d + num && num < d * Pow2(shift + 1)
    && (shift >= 0 ==> div == d * Pow2(shift))
  }

  lemma {:induction false} ClearStart(s: seq<Limb>, n: nat)
    requires forall t | 0 <= t < |s| :: s[t] == 0
    ensures LowClear(s, n)
  {
    if n / 32 < |s| { DivMod(0, Pow2(n % 32), 0, 0); }
  }

  lemma {:induction false} ClearLimb(s: seq<Limb>, n: nat) returns (k: nat)
    requires n / 32 < |s| && LowClear(s, n + 1)
    ensures s[n / 32] == k * Pow2(n % 32 + 1)
  {
    hide Pow2;
    var x, p := s[n / 32], Pow2(n % 32 + 1);
    if n % 32 == 31 {
      k := 0;
    } else {
      assert (n + 1) / 32 == n / 32 && (n + 1) % 32 == n % 32 + 1;
      k := Multiple(x, p);
    }
  }

  lemma {:induction false} Multiple(x: nat, p: nat) returns (k: nat)
    requires p > 0 && x % p == 0
    ensures x == k * p
  {
    DivShrinks(x, p);
    k := x / p;
  }

  lemma {:induction false} ClearFewer(s: seq<Limb>, n: nat)
    requires n / 32 < |s| && LowClear(s, n + 1)
    ensures LowClear(s, n)
  {
    var k := ClearLimb(s, n);
    var p := Pow2(n % 32);
    MulAssociates(k, 2, p);
    DivMod(s[n / 32], p, k * 2, 0);
  }

  /** Setting the next bit adds its weight. */
  lemma {:induction false} SetBit(s: seq<Limb>, n: nat) returns (x: Limb)
    requires n / 32 < |s| && LowClear(s, n + 1)
    ensures x == Or(s[n / 32], Pow2(n % 32))
    ensures LowClear(s[n / 32 := x], n) && Val(s[n / 32 := x]) == Val(s) + Pow2(n)
  {
    hide Val, Weight, Or, Pow2;
    var t, r := n / 32, n % 32;
    var p := Pow2(r);
    var k := ClearLimb(s, n);
    Pow2Next(r);
    OrDisjoint(p, k, r + 1);
    OrCommutes(p, s[t]);
    MulAssociates(k, 2, p);
    MulDistributes(k * 2, 1, p);
    var y := k * 2 + 1;
    LimbRoom(y, r, k);
    x := y * p;
    DivMod(x, p, y, 0);
    ValUpdate(s, t, x);
    MulDistributes(s[t], p, Weight(t));
    WeightIsPow2(t);
    Pow2Add(r, 32 * t);
  }

  /** A limb whose low bits are clear has room for them. */
  lemma {:induction false} LimbRoom(y: nat, r: nat, k: nat)
    requires r < 32 && y == k * 2 + 1 && k * Pow2(r + 1) < 0x1_0000_0000
    ensures y * Pow2(r) < 0x1_0000_0000
  {
    hide Pow2;
    Pow2Add(r + 1, 31 - r);
    Pow2Word();
    var p, q := Pow2(r + 1), Pow2(31 - r);
    assert p == 2 * Pow2(r) by { Pow2Next(r); }
    if k >= q { MulGrows(q, k, p); }
    MulGrows(k + 1, q, p);
    MulDistributes(k, 1, p);
    MulAssociates(k, 2, Pow2(r));
    MulDistributes(k * 2, 1, Pow2(r));
  }

  lemma {:induction false} Pow2Next(r: nat)
    ensures Pow2(r + 1) == 2 * Pow2(r)
  {}

  /** Aligning the divisor with the number does not overflow. */
  lemma {:induction false} DivStart(n: nat, d: nat, numBits: nat, divBits: nat, width: nat)
    requires 0 < divBits <= numBits <= 32 * width
    requires n < Pow2(numBits) && Pow2(divBits - 1) <= d < Pow2(divBits)
    ensures d * Pow2(numBits - divBits) < Weight(width)
    ensures DivInv(n, d, 0, n, d * Pow2(numBits - divBits), numBits - divBits)
  {
    hide Pow2, Weight;
    var shift := numBits - divBits;
    Pow2Add(divBits, shift);
    MulGrows(d + 1, Pow2(divBits), Pow2(shift));
    MulDistributes(d, 1, Pow2(shift));
    WeightIsPow2(width);
    Pow2Grows(numBits, 32 * width);
    Pow2Add(divBits - 1, shift + 1);
    MulGrows(Pow2(divBits - 1), d, Pow2(shift + 1));
  }

  lemma {:induction false} DivStep(n: nat, d: nat, q: nat, num: nat, div: nat, shift: nat)
    requires DivInv(n, d, q, num, div, shift)
    ensures num < div ==> DivInv(n, d, q, num, div / 2, shift - 1)
    ensures num >= div ==> DivInv(n, d, q + Pow2(shift), num - div, div / 2, shift - 1)
  {
    hide Pow2;
    Halved(d, shift);
    Halved(d, shift + 1);
    MulDistributes(q, Pow2(shift), d);
  }

  lemma {:induction false} Halved(d: nat, shift: nat)
    ensures shift > 0 ==> d * Pow2(shift) / 2 == d * Pow2(shift - 1) && d * Pow2(shift) == 2 * (d * Pow2(shift - 1))
  {
    if shift > 0 {
      var p := Pow2(shift - 1);
      assert d * (2 * p) == 2 * (d * p);
    }
  }

  lemma {:induction false} DivDone(n: nat, d: nat, q: nat, num: nat, div: nat)
    requires DivInv(n, d, q, num, div, -1)
    ensures d > 0 && q == n / d
  {
    DivMod(n, d, q, num);
  }
}
