/** Difficulty targets as 256-bit numbers: reading and writing the compact form, and the work of a block. */
module CompactTargets {
  import opened Limbs
  import opened BaseUints
  import opened CompactForms

  lemma {:induction false} Modulus256()
    ensures Weight(8) == Pow256(32) == Pow2(256)
  {
    hide Weight, Pow256, Pow2;
    WeightIsPow2(8);
    Pow256Is(32);
  }

  /** Read a compact form. */
  method SetCompact(x: BaseUint, c: nat) returns (negative: bool, overflow: bool)
    requires x.pn.Length == 8 && c < 0x1_0000_0000
    modifies x.pn
    ensures x.Value() == Target(c) % Pow2(256)
    ensures negative <==> Target(c) != 0 && Sign(c)
    ensures overflow <==> Target(c) >= Pow2(256)
  {
    hide Weight, Val, Pow2, Pow256;
    Modulus256();
    var size, word := Size(c), Word(c);
    if size <= 3 {
      word := DivNat(word, Pow256(3 - size));
      ShortFits(c);
      x.Set(word);
      DivMod(word, Pow2(256), 0, word);
    } else {
      x.Set(word);
      x.ShiftLeft(8 * (size - 3));
      Pow256Is(size - 3);
      OverflowExactly(c);
      if word > 0 { MulGrows(1, word, Pow256(size - 3)); }
    }
    negative := word != 0 && Sign(c);
    overflow := word != 0 && (size > 34 || (word > 0xff && size > 33) || (word > 0xffff && size > 32));
  }

  /** The lowest 64 bits. */
  method GetLow64(x: BaseUint) returns (r: nat)
    requires x.pn.Length >= 2
    ensures r == x.Value() % 0x1_0000_0000_0000_0000
  {
    hide Val;
    ghost var s := x.pn[..];
    ValSplit(s, 2);
    ValNext(s, 0);
    ValNext(s, 1);
    assert Weight(1) == 0x1_0000_0000 && Weight(2) == 0x1_0000_0000_0000_0000;
    r := x.pn[0] as nat + x.pn[1] as nat * 0x1_0000_0000;
    assert s[..0] == [] && Val([]) == 0 by { ValZero([]); }
    DivMod(Val(s), 0x1_0000_0000_0000_0000, Val(s[2..]), r);
  }

  /** The byte count from the bit count. */
  lemma {:induction false} BytesOfBits(x: nat, bits: nat)
    requires x < Pow2(bits) && (bits > 0 ==> Pow2(bits - 1) <= x)
    ensures Bytes(x) == (bits + 7) / 8
  {
    hide Pow2, Pow256, Bytes;
    var n := (bits + 7) / 8;
    Pow256Is(n);
    Pow2Grows(bits, 8 * n);
    if n > 0 {
      Pow256Is(n - 1);
      Pow2Grows(8 * (n - 1), bits - 1);
    }
    BytesUnique(x, n);
  }

  lemma {:induction false} BytesFit(x: nat)
    requires x < Pow2(256)
    ensures Bytes(x) <= 32
  {
    hide Pow2, Pow256;
    Modulus256();
    BytesBound(x);
    if Bytes(x) > 32 { Pow256Grows(32, Bytes(x) - 1); }
  }

  lemma {:induction false} MantissaLow(x: nat, size: nat)
    requires size == Bytes(x) <= 3
    ensures x % 0x1_0000_0000_0000_0000 * Pow256(3 - size) % 0x1_0000_0000 == Mantissa(x)
  {
    hide Pow256, Bytes;
    MantissaBound(x);
    BytesBound(x);
    SmallPowers();
    Pow256Grows(size, 3);
  }

  lemma {:induction false} MantissaHigh(x: nat, size: nat)
    requires size == Bytes(x) > 3
    ensures DivNat(x, Pow2(8 * (size - 3))) % 0x1_0000_0000_0000_0000 % 0x1_0000_0000 == Mantissa(x)
  {
    hide Pow2, Pow256, Bytes, DivNat;
    MantissaBound(x);
    Pow256Is(size - 3);
  }

  /** The three highest bytes of a number. */
  method HighBytes(x: BaseUint, size: nat) returns (m: nat)
    requires x.pn.Length == 8 && size == Bytes(x.Value())
    ensures m == Mantissa(x.Value())
  {
    hide Weight, Val, Pow2, Pow256, Bytes, Mantissa;
    if size <= 3 {
      MantissaLow(x.Value(), size);
      m := GetLow64(x);
      m := m * Pow256(3 - size) % 0x1_0000_0000;
    } else {
      var bn := new BaseUint.Copy(x);
      MantissaHigh(x.Value(), size);
      bn.ShiftRight(8 * (size - 3));
      m := GetLow64(bn);
      m := m % 0x1_0000_0000;
    }
  }

  /** Write the compact form. */
  method GetCompact(x: BaseUint, negative: bool) returns (c: nat)
    requires x.pn.Length == 8
    ensures c < 0x1_0000_0000
    ensures c == Compact(x.Value()) + if negative && Word(Compact(x.Value())) != 0 then 0x80_0000 else 0
  {
    hide Weight, Val, Pow2, Pow256, Bytes, Mantissa;
    var bits := x.Bits();
    var size := (bits + 7) / 8;
    BytesOfBits(x.Value(), bits);
    Modulus256();
    ValBound(x.pn[..]);
    BytesFit(x.Value());
    var m := HighBytes(x, size);
    MantissaBound(x.Value());
    if m / 0x80_0000 % 2 == 1 {
      m := m / 256;
      size := size + 1;
    }
    assert m < 0x80_0000 && size < 256;
    // The size and the sign go to bits that are clear.
    c := m + size * 0x100_0000;
    FormParts(size, m);
    if negative && m != 0 { c := c + 0x80_0000; }
  }

  /** The expected number of hashes for a block: how often 2^256 holds the target plus one. */
  method GetBitsProof(bits: nat) returns (r: BaseUint)
    requires bits < 0x1_0000_0000
    ensures r.pn.Length == 8
    ensures var t := Target(bits);
            r.Value() == if Sign(bits) || t >= Pow2(256) || t == 0 then 0 else Pow2(256) / (t + 1)
  {
    hide Weight, Val, Pow2, Pow256, Target;
    Modulus256();
    r := new BaseUint(8);
    var target := new BaseUint(8);
    var negative, overflow := SetCompact(target, bits);
    var zero := new BaseUint(8);
    var c := target.CompareTo(zero);
    ghost var t := Target(bits);
    ghost var m := Pow2(256);
    if t < m { DivMod(t, m, 0, t); }
    if negative || overflow || c == 0 { return; }
    TargetBelow(bits);
    r := target.Invert();
    target.Increment();
    DivMod(t + 1, m, 0, t + 1);
    var ok := r.Divide(target);
    r.Increment();
    ProofIs(m, t);
  }

  /** A target is never the highest number, so adding one does not wrap. */
  lemma {:induction false} TargetBelow(c: nat)
    requires Target(c) < Pow2(256)
    ensures Target(c) + 1 < Pow2(256)
  {
    hide Pow2, Pow256;
    Modulus256();
    var m := WordOf(c);
    var k := if Size(c) <= 3 then 0 else Size(c) - 3;
    SmallPowers();
    if k == 0 {
      Pow256Grows(3, 32);
    } else {
      Pow256Next(k - 1);
      Pow256Next(31);
      MulAssociates(256, m, Pow256(k - 1));
      MulAssociates(m, 256, Pow256(k - 1));
    }
  }

  lemma {:induction false} Pow256Next(k: nat)
    ensures Pow256(k + 1) == 256 * Pow256(k)
  {}

  lemma {:induction false} ProofIs(m: nat, t: nat)
    requires 0 < t && t + 1 < m
    ensures (m - 1 - t) / (t + 1) + 1 == m / (t + 1) && m / (t + 1) < m
    ensures m / (t + 1) % m == m / (t + 1)
  {
    var d := t + 1;
    var q, r := (m - d) / d, (m - d) % d;
    MulDistributes(q, 1, d);
    DivMod(m, d, q + 1, r);
    DivShrinks(m - d, d);
    if q + 1 >= m { MulGrows(m, q + 1, d); MulGrows(2, d, m); }
    DivMod(q + 1, m, 0, q + 1);
  }
}
