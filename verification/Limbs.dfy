/** Numbers in base 2^32, least significant limb first, and the powers of two that place their bits. */
module Limbs {

  type Limb = x: nat | x < 0x1_0000_0000

  function Pow2(n: nat): (r: nat)
    ensures r > 0
  {
    if n == 0 then 1 else 2 * Pow2(n - 1)
  }

  /** What limb `i` counts. */
  function Weight(i: nat): (r: nat)
    ensures r > 0
  {
    if i == 0 then 1 else 0x1_0000_0000 * Weight(i - 1)
  }

  function Val(s: seq<Limb>): nat {
    if s == [] then 0 else Val(s[..|s| - 1]) + s[|s| - 1] * Weight(|s| - 1)
  }

  // Multiplication by a variable, one law at a time.

  lemma {:induction false} MulDistributes(a: int, b: int, m: int)
    ensures (a + b) * m == a * m + b * m
  {}

  lemma {:induction false} MulAssociates(a: int, b: int, m: int)
    ensures a * b * m == a * (b * m)
  {}

  lemma {:induction false} MulGrows(a: int, b: int, m: int)
    requires a <= b && m >= 0
    ensures a * m <= b * m
  {
    MulDistributes(a, b - a, m);
  }

  lemma {:induction false} Pow2Add(a: nat, b: nat)
    ensures Pow2(a + b) == Pow2(a) * Pow2(b)
    decreases b
  {
    if b > 0 {
      Pow2Add(a, b - 1);
      assert Pow2(a + b) == 2 * Pow2(a + (b - 1));
      assert Pow2(a) * (2 * Pow2(b - 1)) == 2 * (Pow2(a) * Pow2(b - 1));
    }
  }

  lemma {:induction false} Pow2Grows(a: nat, b: nat)
    requires a <= b
    ensures Pow2(a) <= Pow2(b)
    decreases b
  {
    if a < b { Pow2Grows(a, b - 1); }
  }

  lemma {:induction false} Pow2Word()
    ensures Pow2(8) == 0x100 && Pow2(16) == 0x1_0000 && Pow2(32) == 0x1_0000_0000
  {
    assert Pow2(8) == 0x100;
    Pow2Add(8, 8);
    Pow2Add(16, 16);
  }

  lemma {:induction false} WeightIsPow2(i: nat)
    ensures Weight(i) == Pow2(32 * i)
    decreases i
  {
    if i > 0 {
      WeightIsPow2(i - 1);
      Pow2Add(32 * (i - 1), 32);
      Pow2Word();
    }
  }

  lemma {:induction false} WeightNext(i: nat)
    ensures Weight(i + 1) == 0x1_0000_0000 * Weight(i)
  {}

  lemma {:induction false} WeightAdd(a: nat, b: nat)
    ensures Weight(a + b) == Weight(a) * Weight(b)
  {
    WeightIsPow2(a);
    WeightIsPow2(b);
    WeightIsPow2(a + b);
    Pow2Add(32 * a, 32 * b);
  }

  lemma {:induction false} ValNext(s: seq<Limb>, i: nat)
    requires i < |s|
    ensures Val(s[..i + 1]) == Val(s[..i]) + s[i] * Weight(i)
  {
    assert s[..i + 1][..i] == s[..i];
  }

  lemma {:induction false} ValBound(s: seq<Limb>)
    ensures Val(s) < Weight(|s|)
    decreases |s|
  {
    if s != [] {
      var n := |s| - 1;
      ValBound(s[..n]);
      MulDistributes(s[n], 1, Weight(n));
      MulGrows(s[n] as int + 1, 0x1_0000_0000, Weight(n));
    }
  }

  /** Changing one limb changes the value by that limb's weight. */
  lemma {:induction false} ValUpdate(s: seq<Limb>, i: nat, v: Limb)
    requires i < |s|
    ensures Val(s[i := v]) == Val(s) + v * Weight(i) - s[i] * Weight(i)
    decreases |s|
  {
    var n := |s| - 1;
    if i == n {
      assert s[i := v][..n] == s[..n];
    } else {
      ValUpdate(s[..n], i, v);
      assert s[i := v][..n] == s[..n][i := v];
    }
  }

  lemma {:induction false} ValZero(s: seq<Limb>)
    requires forall i | 0 <= i < |s| :: s[i] == 0
    ensures Val(s) == 0
    decreases |s|
  {
    if s != [] { ValZero(s[..|s| - 1]); }
  }

  /** The limbs from position `k` on count the multiples of its weight. */
  lemma {:induction false} ValSplit(s: seq<Limb>, k: nat)
    requires k <= |s|
    ensures Val(s) == Val(s[..k]) + Val(s[k..]) * Weight(k)
    decreases |s|
  {
    hide Weight;
    var n := |s| - 1;
    if k == |s| {
      assert s[..k] == s && s[k..] == [];
    } else {
      ValSplit(s[..n], k);
      assert s[..n][..k] == s[..k] && s[..n][k..] == s[k..][..n - k];
      WeightAdd(k, n - k);
      MulDistributes(Val(s[..n][k..]), s[n] * Weight(n - k), Weight(k));
      MulAssociates(s[n], Weight(n - k), Weight(k));
    }
  }

  /** A two-limb sum splits into a limb and a carry. */
  lemma {:induction false} Carry(n: nat, w: nat)
    ensures n % 0x1_0000_0000 * w + n / 0x1_0000_0000 * (0x1_0000_0000 * w) == n * w
  {
    var q, r := n / 0x1_0000_0000, n % 0x1_0000_0000;
    MulDistributes(q * 0x1_0000_0000, r, w);
    MulAssociates(q, 0x1_0000_0000, w);
  }

  /** The quotient and remainder are determined by their sum and bound. */
  lemma {:induction false} DivMod(x: int, m: int, q: int, r: int)
    requires m > 0 && x == q * m + r && 0 <= r < m
    ensures x / m == q && x % m == r
  {
    var d, e := x / m, x % m;
    MulDistributes(q, -d, m);
    assert (q - d) * m == e - r;
    if q > d { MulGrows(1, q - d, m); }
    if q < d { MulGrows(q - d, -1, m); }
  }

  // Bits.

  /** Bitwise or. */
  function Or(a: nat, b: nat): nat {
    if a == 0 then b
    else if b == 0 then a
    else (if a % 2 == 1 || b % 2 == 1 then 1 else 0) + 2 * Or(a / 2, b / 2)
  }

  lemma {:induction false} OrCommutes(a: nat, b: nat)
    ensures Or(a, b) == Or(b, a)
  {
    if a > 0 && b > 0 { OrCommutes(a / 2, b / 2); }
  }

  /** Or adds numbers that share no bit. */
  lemma {:induction false} OrDisjoint(low: nat, high: nat, s: nat)
    requires low < Pow2(s)
    ensures Or(low, high * Pow2(s)) == low + high * Pow2(s)
    decreases s
  {
    var h := high * Pow2(s);
    if low > 0 && h > 0 {
      MulAssociates(high, 2, Pow2(s - 1));
      var g := high * Pow2(s - 1);
      assert h == 2 * g;
      OrDisjoint(low / 2, high, s - 1);
      assert h / 2 == g && h % 2 == 0;
    }
  }

  /** A limb shifted left in 32 bits. */
  function Shl(x: Limb, s: nat): (r: Limb)
    ensures r == x * Pow2(s) % 0x1_0000_0000
  {
    MulGrows(0, x, Pow2(s));
    x * Pow2(s) % 0x1_0000_0000
  }

  function Shr(x: Limb, s: nat): (r: Limb)
    ensures r == x / Pow2(s)
  {
    DivShrinks(x, Pow2(s));
    x / Pow2(s)
  }

  lemma {:induction false} DivShrinks(x: nat, m: nat)
    requires m > 0
    ensures 0 <= x / m <= x
  {
    if x / m > x { MulGrows(x + 1, x / m, m); MulGrows(1, m, x + 1); }
  }

  /** Shifting a limb left: the bits that stay and those that go to the next limb. */
  lemma {:induction false} LimbShifted(x: Limb, s: nat)
    requires s <= 32
    ensures Shr(x, 32 - s) < Pow2(s) && Shl(x, s) <= 0x1_0000_0000 - Pow2(s)
    ensures x * Pow2(s) == Shr(x, 32 - s) * 0x1_0000_0000 + Shl(x, s)
    ensures Shl(x, s) == x % Pow2(32 - s) * Pow2(s)
  {
    hide Pow2;
    Pow2Add(s, 32 - s);
    Pow2Word();
    LimbSplit(x, Pow2(s), Pow2(32 - s));
  }

  lemma {:induction false} LimbSplit(x: Limb, p: nat, q: nat)
    requires p > 0 && q > 0 && p * q == 0x1_0000_0000
    ensures 0 <= x / q < p
    ensures x * p == x / q * 0x1_0000_0000 + x % q * p && 0 <= x % q * p <= 0x1_0000_0000 - p
    ensures x * p % 0x1_0000_0000 == x % q * p && x * p / 0x1_0000_0000 == x / q
  {
    var d, r := x / q, x % q;
    if d >= p { MulGrows(p, d, q); }
    MulDistributes(d * q, r, p);
    MulAssociates(d, q, p);
    MulGrows(r + 1, q, p);
    MulDistributes(r, 1, p);
    MulGrows(0, r, p);
    DivMod(x * p, 0x1_0000_0000, d, r * p);
  }
}
