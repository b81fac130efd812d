/** The compact form of a number: a byte count, a sign bit and the 23 highest bits. */
module CompactForms {
  import opened Limbs

  function Pow256(n: nat): (r: nat)
    ensures r > 0
  {
    if n == 0 then 1 else 256 * Pow256(n - 1)
  }

  function Size(c: nat): nat { c / 0x100_0000 }
  function Word(c: nat): nat { c % 0x80_0000 }
  predicate Sign(c: nat) { c / 0x80_0000 % 2 == 1 }

  /** The number a compact form stands for, without its sign and of any size. */
  function Target(c: nat): nat {
    if Size(c) <= 3 then DivNat(Word(c), Pow256(3 - Size(c))) else Word(c) * Pow256(Size(c) - 3)
  }

  function DivNat(x: nat, m: nat): (r: nat)
    requires m > 0
    ensures r == x / m
  {
    DivShrinks(x, m);
    x / m
  }

  /** The number of bytes of a number. */
  function Bytes(x: nat): nat {
    if x == 0 then 0 else 1 + Bytes(x / 256)
  }

  /** The three highest bytes, moved up or down to the lowest three. */
  function Mantissa(x: nat): nat {
    var n := Bytes(x);
    if n <= 3 then x * Pow256(3 - n) else DivNat(x, Pow256(n - 3))
  }

  /** The compact form: if the highest of the 24 bits is set it would read as a sign, so one more byte is dropped. */
  function Compact(x: nat): nat {
    var n, m := Bytes(x), Mantissa(x);
    if m >= 0x80_0000 then m / 256 + (n + 1) * 0x100_0000 else m + n * 0x100_0000
  }

  /** The number of low bytes the compact form drops. */
  function Dropped(x: nat): nat {
    var n, k := Bytes(x), if Mantissa(x) >= 0x80_0000 then 2 else 3;
    if n > k then n - k else 0
  }

  lemma {:induction false} Pow256Add(a: nat, b: nat)
    ensures Pow256(a + b) == Pow256(a) * Pow256(b)
    decreases b
  {
    if b > 0 {
      Pow256Add(a, b - 1);
      assert Pow256(a) * (256 * Pow256(b - 1)) == 256 * (Pow256(a) * Pow256(b - 1));
    }
  }

  lemma {:induction false} Pow256Is(n: nat)
    ensures Pow256(n) == Pow2(8 * n)
    decreases n
  {
    if n > 0 {
      Pow256Is(n - 1);
      Pow2Add(8 * (n - 1), 8);
      Pow2Word();
    }
  }

  lemma {:induction false} Pow256Grows(a: nat, b: nat)
    requires a <= b
    ensures Pow256(a) <= Pow256(b)
    decreases b
  {
    if a < b { Pow256Grows(a, b - 1); }
  }

  lemma {:induction false} BytesBound(x: nat)
    ensures x < Pow256(Bytes(x)) && (x > 0 ==> Bytes(x) > 0 && Pow256(Bytes(x) - 1) <= x)
    decreases x
  {
    if x > 0 { BytesBound(x / 256); }
  }

  lemma {:induction false} BytesUnique(x: nat, n: nat)
    requires x < Pow256(n) && (n > 0 ==> Pow256(n - 1) <= x)
    ensures Bytes(x) == n
  {
    BytesBound(x);
    if Bytes(x) < n { Pow256Grows(Bytes(x), n - 1); }
    if Bytes(x) > n { Pow256Grows(n, Bytes(x) - 1); }
  }

  lemma {:induction false} SmallPowers()
    ensures Pow256(0) == 1 && Pow256(1) == 0x100 && Pow256(2) == 0x1_0000 && Pow256(3) == 0x100_0000
  {}

  /** Dividing by a power and then by a byte is dividing by the next power. */
  lemma {:induction false} DivTwice(x: nat, m: nat)
    requires m > 0
    ensures x / m / 256 == x / (256 * m)
  {
    var a, r := x / m, x % m;
    var b, s := a / 256, a % 256;
    MulDistributes(b * 256, s, m);
    MulAssociates(b, 256, m);
    MulGrows(s + 1, 256, m);
    MulDistributes(s, 1, m);
    MulGrows(0, s, m);
    DivMod(x, 256 * m, b, s * m + r);
  }

  lemma {:induction false} MulDiv(x: nat, m: nat)
    requires m > 0
    ensures x * m / m == x && x * m % m == 0
  {
    DivMod(x * m, m, x, 0);
  }

  lemma {:induction false} MantissaBound(x: nat)
    ensures Mantissa(x) < 0x100_0000
    ensures Bytes(x) >= 3 ==> Mantissa(x) >= 0x1_0000
  {
    var n := Bytes(x);
    BytesBound(x);
    SmallPowers();
    if n <= 3 {
      Pow256Add(n, 3 - n);
      MulGrows(x + 1, Pow256(n), Pow256(3 - n));
      MulDistributes(x, 1, Pow256(3 - n));
    } else {
      var p := Pow256(n - 3);
      Pow256Add(3, n - 3);
      Pow256Add(2, n - 3);
      Quotient(x, p, 0x1_0000, 0x100_0000);
    }
  }

  /** Bounds on a quotient from bounds on the number. */
  lemma {:induction false} Quotient(x: nat, p: nat, low: nat, high: nat)
    requires p > 0 && low * p <= x < high * p
    ensures low <= x / p < high
  {
    var q := x / p;
    if q < low { MulGrows(q + 1, low, p); MulDistributes(q, 1, p); }
    if q >= high { MulGrows(high, q, p); }
  }

  lemma {:induction false} FormParts(n: nat, m: nat)
    requires m < 0x80_0000
    ensures Size(m + n * 0x100_0000) == n && Word(m + n * 0x100_0000) == m && !Sign(m + n * 0x100_0000)
  {}

  /** A form with the sign bit set reads as the same number with a sign. */
  lemma {:induction false} SignedParts(n: nat, m: nat)
    requires m < 0x80_0000
    ensures var c := m + n * 0x100_0000;
            Sign(c + 0x80_0000) && Size(c + 0x80_0000) == Size(c) && Word(c + 0x80_0000) == Word(c) && Target(c + 0x80_0000) == Target(c)
  {
    hide Pow256, DivNat;
    FormParts(n, m);
  }

  /** The compact form keeps all but the dropped bytes, and enough bits if any byte is dropped. */
  lemma {:induction false} CompactParts(x: nat)
    ensures var p, c := Pow256(Dropped(x)), Compact(x);
            && !Sign(c) && Size(c) <= Bytes(x) + 1
            && Target(c) == x / p * p && x / p < 0x80_0000 && (Dropped(x) > 0 ==> x / p >= 0x8000)
  {
    hide Bytes, Pow256;
    var n, m := Bytes(x), Mantissa(x);
    MantissaBound(x);
    SmallPowers();
    if n > 3 { Pow256Add(n - 3, 1); }
    if m < 0x80_0000 {
      FormParts(n, m);
      if n <= 3 { PartsShort(x); }
    } else {
      FormParts(n + 1, m / 256);
      if n <= 2 { PartsShort(x); } else if n > 3 { DivTwice(x, Pow256(n - 3)); }
    }
  }

  lemma {:induction false} PartsShort(x: nat)
    requires Bytes(x) <= 3
    ensures Mantissa(x) / Pow256(3 - Bytes(x)) == x
    ensures Bytes(x) <= 2 ==> Mantissa(x) / 256 / Pow256(2 - Bytes(x)) == x
    ensures Bytes(x) <= 2 ==> x < 0x80_0000
  {
    var n := Bytes(x);
    SmallPowers();
    MulDiv(x, Pow256(3 - n));
    BytesBound(x);
    if n <= 2 {
      MulAssociates(x, 256, Pow256(2 - n));
      var y := x * Pow256(2 - n);
      assert Mantissa(x) == 256 * y;
      MulDiv(x, Pow256(2 - n));
      Pow256Grows(n, 2);
    }
  }

  lemma {:induction false} CompactKept(x: nat) returns (w: nat)
    ensures var p := Pow256(Dropped(x));
            && Target(Compact(x)) == w * p <= x < w * p + p && w < 0x80_0000
            && (Dropped(x) > 0 ==> w >= 0x8000)
    ensures !Sign(Compact(x))
  {
    hide Pow256, Compact, Dropped, Target;
    CompactParts(x);
    w := DivNat(x, Pow256(Dropped(x)));
  }

  /** The compact form stands for a number that is not above, and less than one unit of its last kept byte below. */
  lemma {:induction false} CompactRoundsDown(x: nat)
    ensures !Sign(Compact(x)) && Target(Compact(x)) <= x < Target(Compact(x)) + Pow256(Dropped(x))
  {
    hide Pow256, Compact, Dropped, Target;
    var w := CompactKept(x);
  }

  /** Of all non-negative compact forms, it stands for the highest number that is not above. */
  lemma {:induction false} CompactIsBest(x: nat, c: nat)
    requires Target(c) <= x
    ensures Target(c) <= Target(Compact(x))
  {
    hide Pow256, Compact, Dropped, Target;
    var w := CompactKept(x);
    var e := Dropped(x);
    var p := Pow256(e);
    var k := if Size(c) <= 3 then 0 else Size(c) - 3;
    var m := WordOf(c);
    if k >= e {
      Pow256Add(k - e, e);
      MulAssociates(m, Pow256(k - e), p);
      var q := m * Pow256(k - e);
      if q > w { MulGrows(w + 1, q, p); MulDistributes(w, 1, p); }
      MulGrows(q, w, p);
    } else {
      Pow256Add(e - 1, 1);
      SmallPowers();
      Pow256Grows(k, e - 1);
      MulGrows(m, 0x80_0000, Pow256(k));
      MulGrows(Pow256(k), Pow256(e - 1), 0x80_0000);
      MulGrows(0x8000, w, p);
    }
  }

  /** Every compact form stands for a word times a power. */
  lemma {:induction false} WordOf(c: nat) returns (m: nat)
    ensures m < 0x80_0000 && Target(c) == m * Pow256(if Size(c) <= 3 then 0 else Size(c) - 3)
  {
    SmallPowers();
    if Size(c) <= 3 {
      m := Target(c);
      DivShrinks(Word(c), Pow256(3 - Size(c)));
    } else {
      m := Word(c);
    }
  }

  /** Going through the compact form twice changes nothing. */
  lemma {:induction false} CompactStable(x: nat)
    ensures Compact(Target(Compact(x))) == Compact(x)
  {
    hide Target, Pow256, Bytes;
    var e, n := Dropped(x), Bytes(x);
    var w := CompactKept(x);
    SmallPowers();
    if e == 0 {
      assert Target(Compact(x)) == x;
    } else {
      var p := Pow256(e);
      DivMod(x, p, w, x - w * p);
      KeptBytes(x);
      KeptMantissa(x, w, Target(Compact(x)));
    }
  }

  /** The kept bytes are the same after dropping the others. */
  lemma {:induction false} KeptMantissa(x: nat, w: nat, y: nat)
    requires Dropped(x) > 0 && y == w * Pow256(Dropped(x)) && w >= 0x8000 && w == x / Pow256(Dropped(x)) && Bytes(y) == Bytes(x)
    ensures Mantissa(y) == if Mantissa(x) >= 0x80_0000 then w * 256 else w
    ensures w == if Mantissa(x) >= 0x80_0000 then Mantissa(x) / 256 else Mantissa(x)
  {
    hide Pow256, Bytes;
    var n := Bytes(x);
    SmallPowers();
    MulDiv(w, Pow256(Dropped(x)));
    if n > 3 && Mantissa(x) >= 0x80_0000 {
      Pow256Add(n - 3, 1);
      DivTwice(x, Pow256(n - 3));
      MulAssociates(w, 256, Pow256(n - 3));
      MulDiv(w * 256, Pow256(n - 3));
    }
  }

  /** Dropping low bytes keeps the byte count. */
  lemma {:induction false} KeptBytes(x: nat)
    requires Dropped(x) > 0
    ensures Bytes(Target(Compact(x))) == Bytes(x)
  {
    hide Compact, Mantissa, Target, Pow256, Bytes;
    var e, n := Dropped(x), Bytes(x);
    var p := Pow256(e);
    var w := CompactKept(x);
    BytesBound(x);
    Pow256Add(n - 1 - e, e);
    var q := Pow256(n - 1 - e);
    if w < q { MulGrows(w + 1, q, p); MulDistributes(w, 1, p); }
    MulGrows(q, w, p);
    BytesUnique(w * p, n);
  }

  /** The overflow test is exact. */
  lemma {:induction false} OverflowExactly(c: nat)
    requires Size(c) > 3
    ensures Target(c) >= Pow256(32) <==> Word(c) != 0 && (Size(c) > 34 || (Word(c) > 0xff && Size(c) > 33) || (Word(c) > 0xffff && Size(c) > 32))
  {
    hide Pow256;
    var w, k := Word(c), Size(c) - 3;
    SmallPowers();
    if k <= 29 {
      Pow256Add(29, 3);
      MulGrows(w + 1, 0x100_0000, Pow256(29));
      MulDistributes(w, 1, Pow256(29));
      Pow256Grows(k, 29);
      MulGrows(Pow256(k), Pow256(29), w);
    } else if k <= 31 {
      Pow256Add(k, 32 - k);
      var need := Pow256(32 - k);
      if w < need { MulGrows(w + 1, need, Pow256(k)); MulDistributes(w, 1, Pow256(k)); }
      if w >= need { MulGrows(need, w, Pow256(k)); }
    } else {
      Pow256Grows(32, k);
      if w > 0 { MulGrows(1, w, Pow256(k)); }
    }
  }

  /** A form of at most three bytes never overflows. */
  lemma {:induction false} ShortFits(c: nat)
    requires Size(c) <= 3
    ensures Target(c) < Pow256(32)
  {
    var m := WordOf(c);
    SmallPowers();
    Pow256Grows(3, 32);
  }
}
