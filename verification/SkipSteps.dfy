/** How many steps it takes to an ancestor when all skip links are there: about the square of the number of bits of the height. */
module SkipSteps {
  import opened Limbs
  import opened BlockIndexes

  /** The number of trailing zero bits. */
  ghost function TrailingZeros(n: nat): nat
    requires n > 0
  {
    if n % 2 == 1 then 0 else 1 + TrailingZeros(n / 2)
  }

  lemma {:induction false} ZerosBound(n: nat, bits: nat)
    requires 0 < n < Pow2(bits)
    ensures TrailingZeros(n) < bits
    decreases n
  {
    if n % 2 == 0 { ZerosBound(n / 2, bits - 1); }
  }

  /** Clearing the lowest set bit leaves more trailing zeros. */
  lemma {:induction false} ClearedZeros(n: nat)
    requires InvertLowestOne(n) > 0
    ensures n > 0 && TrailingZeros(InvertLowestOne(n)) > TrailingZeros(n)
    decreases n
  {
    if n % 2 == 0 { ClearedZeros(n / 2); }
  }

  /** The numbers from there up have fewer. */
  lemma {:induction false} ZerosBetween(n: nat, x: nat)
    requires InvertLowestOne(n) < x < n
    ensures TrailingZeros(x) < TrailingZeros(n)
    decreases n
  {
    if x % 2 == 0 { ZerosBetween(n / 2, x / 2); }
  }

  /** Of the heights from `t` to `a`, all have fewer than `level` trailing zeros. */
  ghost predicate Below(t: nat, a: nat, level: nat) {
    forall x: nat | t <= x <= a && x > 0 :: TrailingZeros(x) < level
  }

  /** The trailing zeros of the height, or of the one below if it is odd. */
  ghost function Zeros(a: nat, level: nat): nat {
    var e := if a % 2 == 1 then a - 1 else a;
    if e == 0 then level else TrailingZeros(e)
  }

  /** What the levels below this one can take. */
  ghost function Base(level: nat, bits: nat): nat { level * (2 * bits + 4) }

  /** Bounds the steps from `a`, of a height of so many bits. */
  ghost function Rank(a: nat, level: nat, bits: nat): int {
    Base(level, bits) + 2 * (level - Zeros(a, level)) + a % 2
  }

  /** Where skip links lead from an odd height, and that the one before it leads no further. */
  lemma {:induction false} OddSkips(a: nat)
    requires a % 2 == 1 && a > 1
    ensures GetSkipHeight(a) == InvertLowestOne(InvertLowestOne(a - 1)) + 1 && GetSkipHeight(a - 1) >= GetSkipHeight(a) - 1
  {}

  lemma {:induction false} SmallBits(n: nat)
    ensures n % 4 == 2 ==> InvertLowestOne(n) == n - 2
    ensures n % 8 == 4 ==> InvertLowestOne(n) == n - 4
    ensures n % 8 == 0 && n > 0 ==> InvertLowestOne(n) <= n - 8
  {
    if n % 2 == 0 && n > 0 {
      assert InvertLowestOne(n) == 2 * InvertLowestOne(n / 2);
      if n / 2 % 2 == 0 {
        assert InvertLowestOne(n / 2) == 2 * InvertLowestOne(n / 2 / 2);
        if n / 2 / 2 % 2 == 0 { assert InvertLowestOne(n / 2 / 2) == 2 * InvertLowestOne(n / 2 / 2 / 2); }
      }
    }
  }

  lemma {:induction false} Residues(a: nat)
    requires a % 2 == 0 && a > 2
    ensures a % 4 == 2 || a % 8 == 4 || a % 8 == 0
    ensures a % 8 == 4 ==> (a - 2) % 4 == 2
    ensures a % 8 == 0 ==> (a - 2) % 4 == 2 && (a - 4) % 8 == 4
  {
    var q, r := a / 8, a % 8;
    assert a == 8 * q + r && (r == 0 || r == 2 || r == 4 || r == 6);
    if r == 0 {
      assert a - 2 == 4 * (2 * q - 1) + 2 && a - 4 == 8 * (q - 1) + 4;
    } else if r == 4 {
      assert a - 2 == 4 * (2 * q) + 2;
    } else {
      assert a == 4 * (2 * q + r / 4) + 2;
    }
  }

  /** If the skip link of the height before an even one leads further, it leads to more trailing zeros. */
  lemma {:induction false} FurtherZeros(a: nat)
    requires a % 2 == 0 && a > 2
    requires 0 < InvertLowestOne(InvertLowestOne(a - 2)) < InvertLowestOne(a) - 3
    ensures TrailingZeros(InvertLowestOne(InvertLowestOne(a - 2))) > TrailingZeros(InvertLowestOne(a))
  {
    hide InvertLowestOne, TrailingZeros;
    var s := InvertLowestOne(a);
    Residues(a);
    SmallBits(a);
    SmallBits(a - 2);
    if a % 4 == 2 {
      ClearedZeros(InvertLowestOne(s));
      ClearedZeros(s);
    } else if a % 8 == 4 {
      ClearedZeros(s);
    } else {
      SmallBits(a - 4);
    }
  }

  lemma {:induction false} Levels(j: nat, k: nat, bits: nat)
    requires j < k
    ensures Base(j, bits) + 2 * bits + 4 <= Base(k, bits)
    decreases k
  {
    if j < k - 1 { Levels(j, k - 1, bits); }
    assert Base(k, bits) == Base(k - 1, bits) + 2 * bits + 4;
  }

  lemma {:induction false} BelowLess(t: nat, a: nat, b: nat, level: nat)
    requires Below(t, a, level) && b <= a
    ensures Below(t, b, level)
  {}

  lemma {:induction false} BelowAt(t: nat, a: nat, x: nat, level: nat)
    requires Below(t, a, level) && t <= x <= a && x > 0
    ensures TrailingZeros(x) < level
  {}

  /** From an odd height: the skip link is followed if it does not lead too far, else the parent. */
  lemma {:induction false} OddSteps(a: nat, t: nat, level: nat, bits: nat)
    requires t < a && a % 2 == 1 && level <= bits && Below(t, a, level)
    ensures Steps(a, t) <= Rank(a, level, bits)
    decreases a
  {
    hide InvertLowestOne, TrailingZeros, Base;
    if a > 1 {
      OddSkips(a);
      BelowAt(t, a, a - 1, level);
      var e, s := InvertLowestOne(InvertLowestOne(a - 1)), GetSkipHeight(a);
      if s >= t {
        assert NextHeight(a, t) == s;
        if s > t {
          if e > 0 {
            ClearedZeros(InvertLowestOne(a - 1));
            ClearedZeros(a - 1);
          }
          BelowLess(t, a, s, level);
          OddSteps(s, t, level, bits);
        }
      } else if a - 1 > t {
        BelowLess(t, a, a - 1, level);
        EvenSteps(a - 1, t, level, bits);
      }
    }
  }

  /** From an even height: the skip link is followed likewise, or the parent and then its skip link if that leads further. */
  lemma {:induction false} EvenSteps(a: nat, t: nat, level: nat, bits: nat)
    requires t < a && a % 2 == 0 && level <= bits && Below(t, a, level)
    ensures Steps(a, t) <= Rank(a, level, bits)
    decreases a
  {
    hide InvertLowestOne, TrailingZeros, Base;
    BelowAt(t, a, a, level);
    var s := InvertLowestOne(a);
    if s < t {
      TooFar(a, t, level, bits);
    } else if s == t {
      assert NextHeight(a, t) == s;
    } else {
      ClearedZeros(a);
      BelowAt(t, a, s, level);
      var p := GetSkipHeight(a - 1);
      if p < s - 2 && p >= t {
        OddSkips(a - 1);
        assert NextHeight(a, t) == a - 1 && NextHeight(a - 1, t) == p;
        assert Steps(a, t) == 1 + Steps(a - 1, t) == 2 + Steps(p, t);
        if p > 1 { FurtherZeros(a); }
        if p > t {
          BelowLess(t, a, p, level);
          OddSteps(p, t, level, bits);
        }
      } else {
        assert NextHeight(a, t) == s;
        BelowLess(t, a, s, level);
        EvenSteps(s, t, level, bits);
      }
    }
  }

  /** From an even height whose skip link leads too far, all that is left has fewer trailing zeros. */
  lemma {:induction false} TooFar(a: nat, t: nat, level: nat, bits: nat)
    requires InvertLowestOne(a) < t < a && a % 2 == 0 && level <= bits && TrailingZeros(a) < level
    ensures Steps(a, t) <= Rank(a, level, bits)
    decreases a, 0
  {
    hide InvertLowestOne, TrailingZeros, Base;
    var less := TrailingZeros(a);
    forall x: nat | t <= x <= a - 1 && x > 0 ensures TrailingZeros(x) < less { ZerosBetween(a, x); }
    assert NextHeight(a, t) == a - 1;
    Levels(less, level, bits);
    if a - 1 > t { OddSteps(a - 1, t, less, bits); }
  }

  /** The search for an ancestor takes at most `2 * bits * bits + 6 * bits + 1` steps from a height of so many bits. */
  lemma {:induction false} StepsBound(a: nat, t: nat, bits: nat)
    requires t <= a < Pow2(bits)
    ensures Steps(a, t) <= 2 * bits * bits + 6 * bits + 1
  {
    hide Pow2;
    if t < a {
      forall x: nat | t <= x <= a && x > 0 ensures TrailingZeros(x) < bits { ZerosBound(x, bits); }
      if a % 2 == 1 { OddSteps(a, t, bits, bits); } else { EvenSteps(a, t, bits, bits); }
      assert Base(bits, bits) == 2 * bits * bits + 4 * bits;
    }
  }
}
