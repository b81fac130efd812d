/** Unsigned integers of any number of 32-bit limbs: every operation computes what it does on integers. */
module BaseUints {
  import opened Limbs
  import opened LimbShifts
  import opened LimbDivision

  lemma {:induction false} AddStep(done: int, a: int, b: int, w: nat, carry: nat, x: nat, y: nat)
    requires done + carry * w == a + b
    ensures var n := carry + x + y;
            done + n % 0x1_0000_0000 * w + n / 0x1_0000_0000 * (0x1_0000_0000 * w) == (a + x * w) + (b + y * w)
  {
    var n := carry + x + y;
    Carry(n, w);
    MulDistributes(carry, x, w);
    MulDistributes(carry + x, y, w);
  }

  class BaseUint {
    const pn: array<Limb>

    ghost function Value(): nat
      reads pn
    {
      Val(pn[..])
    }

    /** The number of values. */
    ghost function Modulus(): nat {
      Weight(pn.Length)
    }

    constructor (width: nat)
      requires width > 0
      ensures fresh(pn) && pn.Length == width && Value() == 0
    {
      pn := new Limb[width](_ => 0);
      new;
      ValZero(pn[..]);
    }

    constructor Copy(b: BaseUint)
      ensures fresh(pn) && pn.Length == b.pn.Length && pn[..] == b.pn[..]
    {
      pn := new Limb[b.pn.Length](i requires 0 <= i < b.pn.Length reads b.pn => b.pn[i]);
    }

    /** Set to a 64-bit number. */
    method Set(b: nat)
      requires b < 0x1_0000_0000_0000_0000 && pn.Length >= 2
      modifies pn
      ensures Value() == b
    {
      pn[0] := b % 0x1_0000_0000;
      pn[1] := b / 0x1_0000_0000;
      for i := 2 to pn.Length
        invariant pn[0] == b % 0x1_0000_0000 && pn[1] == b / 0x1_0000_0000 && forall k | 2 <= k < i :: pn[k] == 0
      {
        pn[i] := 0;
      }
      ValSplit(pn[..], 2);
      ValZero(pn[..][2..]);
      ValNext(pn[..], 0);
      ValNext(pn[..], 1);
      assert Weight(1) == 0x1_0000_0000;
    }

    method Add(b: BaseUint)
      requires b.pn.Length == pn.Length
      modifies pn
      ensures Value() == (old(Value()) + old(b.Value())) % Modulus()
    {
      hide Weight;
      ghost var a0, b0 := pn[..], b.pn[..];
      var carry: nat := 0;
      for i := 0 to pn.Length
        invariant carry <= 1 && Val(pn[..i]) + carry * Weight(i) == Val(a0[..i]) + Val(b0[..i])
        invariant forall k | i <= k < pn.Length :: pn[k] == a0[k] && b.pn[k] == b0[k]
      {
        var n := carry + pn[i] + b.pn[i];
        assert n < 0x1_0000_0000_0000_0000;
        AddStep(Val(pn[..i]), Val(a0[..i]), Val(b0[..i]), Weight(i), carry, a0[i], b0[i]);
        ghost var before := pn[..i];
        pn[i] := n % 0x1_0000_0000;
        carry := n / 0x1_0000_0000;
        assert pn[..i] == before;
        ValNext(pn[..], i);
        ValNext(a0, i);
        ValNext(b0, i);
        WeightNext(i);
      }
      assert a0[..pn.Length] == a0 && b0[..pn.Length] == b0 && pn[..pn.Length] == pn[..];
      ValBound(pn[..]);
      DivMod(Val(a0) + Val(b0), Weight(pn.Length), carry, Val(pn[..]));
    }

    /** The complement of every bit. */
    method Invert() returns (r: BaseUint)
      ensures fresh(r) && fresh(r.pn) && r.pn.Length == pn.Length && r.Value() == Modulus() - 1 - Value()
    {
      r := new BaseUint.Copy(this);
      for i := 0 to pn.Length
        invariant fresh(r.pn) && r.pn.Length == pn.Length
        invariant forall k | 0 <= k < i :: r.pn[k] == 0xffff_ffff - pn[k]
      {
        r.pn[i] := 0xffff_ffff - pn[i];
      }
      ValComplement(pn[..], r.pn[..]);
    }

    method Increment()
      modifies pn
      ensures Value() == (old(Value()) + 1) % Modulus()
    {
      hide Weight;
      ghost var a0 := pn[..];
      var i := 0;
      while i < pn.Length
        invariant i <= pn.Length
        invariant forall k | 0 <= k < i :: a0[k] == 0xffff_ffff && pn[k] == 0
        invariant forall k | i <= k < pn.Length :: pn[k] == a0[k]
      {
        pn[i] := (pn[i] as int + 1) % 0x1_0000_0000;
        if pn[i] != 0 { break; }
        i := i + 1;
      }
      Incremented(a0, pn[..], i);
    }

    method Negate() returns (r: BaseUint)
      ensures fresh(r) && fresh(r.pn) && r.pn.Length == pn.Length && r.Value() == (Modulus() - Value()) % Modulus()
    {
      hide Weight;
      ValBound(pn[..]);
      r := Invert();
      r.Increment();
    }

    method Subtract(b: BaseUint)
      requires b.pn.Length == pn.Length
      modifies pn
      ensures Value() == (old(Value()) as int - old(b.Value())) % Modulus()
    {
      hide Weight, Val;
      var negated := b.Negate();
      ModDifference(Value(), b.Value(), Modulus());
      Add(negated);
    }

    /** Multiply by a single limb. */
    method MultiplySmall(b: Limb)
      modifies pn
      ensures Value() == old(Value()) * b % Modulus()
    {
      hide Weight;
      hide SmallInv;
      ghost var a0 := pn[..];
      var carry: nat := 0;
      SmallStart(a0, b);
      for i := 0 to pn.Length
        invariant carry < 0x1_0000_0000 && SmallInv(pn[..], a0, b, i, carry)
        invariant forall k | i <= k < pn.Length :: pn[k] == a0[k]
      {
        LimbProduct(b, pn[i]);
        var n := carry + b * pn[i];
        assert n < 0x1_0000_0000_0000_0000;
        SmallNext(pn[..], a0, b, i, carry);
        pn[i] := n % 0x1_0000_0000;
        carry := n / 0x1_0000_0000;
      }
      SmallDone(pn[..], a0, b, carry);
    }

    method Multiply(b: BaseUint)
      requires b.pn.Length == pn.Length && pn.Length > 0
      modifies pn
      ensures Value() == old(Value()) * old(b.Value()) % Modulus()
    {
      hide Weight;
      var a := new BaseUint(pn.Length);
      ghost var q := 0;
      for j := 0 to pn.Length
        invariant fresh(a.pn) && a.pn.Length == pn.Length && pn[..] == old(pn[..])
        invariant a.Value() + q * Modulus() == Val(pn[..j]) * b.Value()
      {
        ghost var was, p := a.Value(), q;
        p := a.AddRow(pn[j], b, j);
        ValNext(pn[..], j);
        MulDistributes(Val(pn[..j]), pn[j] * Weight(j), b.Value());
        MulDistributes(q, p, Modulus());
        q := q + p;
      }
      assert pn[..pn.Length] == pn[..];
      ValBound(a.pn[..]);
      DivMod(Value() * b.Value(), Modulus(), q, a.Value());
      Assign(a);
    }

    method Assign(b: BaseUint)
      requires b.pn.Length == pn.Length
      modifies pn
      ensures pn[..] == old(b.pn[..])
    {
      forall i | 0 <= i < pn.Length { pn[i] := b.pn[i]; }
    }

    /** Add the product of a limb and a number, placed at limb `j`; what goes past the last limb is lost. */
    method AddRow(x: Limb, b: BaseUint, j: nat) returns (ghost lost: nat)
      requires j < pn.Length == b.pn.Length && b.pn != pn
      modifies pn
      ensures Value() + lost * Modulus() == old(Value()) + x * Weight(j) * b.Value()
    {
      hide Weight, Val, RowInv;
      ghost var a0, b0 := pn[..], b.pn[..];
      var carry: nat := 0;
      RowStart(a0, b0, x, j);
      for i := 0 to pn.Length - j
        invariant b.pn[..] == b0 && carry < 0x1_0000_0000 && RowInv(pn[..], a0, b0, x, j, i, carry)
        invariant forall k | i + j <= k < pn.Length :: pn[k] == a0[k]
      {
        LimbProduct(x, b.pn[i]);
        var n := carry + pn[i + j] + x * b.pn[i];
        assert n < 0x1_0000_0000_0000_0000;
        RowNext(pn[..], a0, b0, x, j, i, carry, n);
        pn[i + j] := n % 0x1_0000_0000;
        carry := n / 0x1_0000_0000;
      }
      lost := RowDone(pn[..], a0, b0, x, j, carry);
    }

    method Clear()
      modifies pn
      ensures forall i | 0 <= i < pn.Length :: pn[i] == 0
      ensures Value() == 0
    {
      for i := 0 to pn.Length
        invariant forall k | 0 <= k < i :: pn[k] == 0
      {
        pn[i] := 0;
      }
      ValZero(pn[..]);
    }

    method ShiftLeft(shift: nat)
      modifies pn
      ensures Value() == old(Value()) * Pow2(shift) % Modulus()
    {
      hide Weight, Val, Pow2, Or, Shl, Shr, LeftInv, LeftStep;
      var a := new BaseUint.Copy(this);
      ghost var a0 := pn[..];
      Clear();
      var k, s := shift / 32, shift % 32;
      ghost var lost := 0;
      LeftStart(pn[..], a0, k, s);
      for i := 0 to pn.Length
        invariant fresh(a.pn) && a.pn.Length == pn.Length && a.pn[..] == a0 && LeftInv(pn[..], a0, k, s, i, lost)
      {
        ghost var before := pn[..];
        LeftFacts(before, a0, k, s, i, lost);
        lost := LeftNext(before, a0, k, s, i, lost);
        if i + k + 1 < pn.Length && s != 0 {
          pn[i + k + 1] := Or(pn[i + k + 1], Shr(a.pn[i], 32 - s));
        }
        if i + k < pn.Length {
          pn[i + k] := Or(pn[i + k], Shl(a.pn[i], s));
        }
        assert pn[..] == LeftStep(before, a0[i], k, s, i);
      }
      LeftDone(pn[..], a0, shift, lost);
    }

    method ShiftRight(shift: nat)
      modifies pn
      ensures Value() == old(Value()) / Pow2(shift)
    {
      hide Weight, Val, Pow2, Or, Shl, Shr, RightInv, RightStep;
      var a := new BaseUint.Copy(this);
      ghost var a0 := pn[..];
      Clear();
      var k, s := shift / 32, shift % 32;
      ghost var rem := 0;
      RightStart(pn[..], a0, k, s);
      for i := 0 to pn.Length
        invariant fresh(a.pn) && a.pn.Length == pn.Length && a.pn[..] == a0 && RightInv(pn[..], a0, k, s, i, rem)
      {
        ghost var before := pn[..];
        RightFacts(before, a0, k, s, i, rem);
        rem := RightNext(before, a0, k, s, i, rem);
        if i - k - 1 >= 0 && s != 0 {
          pn[i - k - 1] := Or(pn[i - k - 1], Shl(a.pn[i], 32 - s));
        }
        if i - k >= 0 {
          pn[i - k] := Or(pn[i - k], Shr(a.pn[i], s));
        }
        assert pn[..] == RightStep(before, a0[i], k, s, i);
      }
      RightDone(pn[..], a0, shift, rem);
    }

    /** Numeric order, from the most significant limb. */
    method CompareTo(b: BaseUint) returns (c: int)
      requires b.pn.Length == pn.Length
      ensures c < 0 <==> Value() < b.Value()
      ensures c == 0 <==> Value() == b.Value()
      ensures c > 0 <==> Value() > b.Value()
    {
      hide Weight, Val;
      for i := pn.Length downto 0
        invariant forall k | i <= k < pn.Length :: pn[k] == b.pn[k]
      {
        if pn[i] < b.pn[i] {
          LessAt(pn[..], b.pn[..], i);
          return -1;
        }
        if pn[i] > b.pn[i] {
          LessAt(b.pn[..], pn[..], i);
          return 1;
        }
      }
      assert pn[..] == b.pn[..];
      return 0;
    }

    /** The position of the highest set bit plus one, or zero. */
    method Bits() returns (n: nat)
      ensures Value() < Pow2(n)
      ensures n > 0 ==> Pow2(n - 1) <= Value()
      ensures n <= 32 * pn.Length
    {
      hide Val, Weight;
      for pos := pn.Length downto 0
        invariant forall k | pos <= k < pn.Length :: pn[k] == 0
      {
        if pn[pos] != 0 {
          var high := HighBit(pn[pos]);
          BitsAt(pn[..], pos, high);
          return 32 * pos + high + 1;
        }
      }
      ValZero(pn[..]);
      return 0;
    }

    /** Divide; `ok` is false, and the number zero, if the divisor is zero. */
    method Divide(b: BaseUint) returns (ok: bool)
      requires b.pn.Length == pn.Length
      modifies pn
      ensures ok <==> old(b.Value()) != 0
      ensures ok ==> Value() == old(Value()) / old(b.Value())
      ensures !ok ==> Value() == 0
    {
      hide Weight, Val, Pow2, LowClear, DivInv;
      var div := new BaseUint.Copy(b);
      var num := new BaseUint.Copy(this);
      ghost var n, d := Value(), b.Value();
      Clear();
      var numBits := num.Bits();
      var divBits := div.Bits();
      Pow2Start();
      if divBits == 0 { return false; }
      if divBits > numBits {
        Pow2Grows(numBits, divBits - 1);
        DivMod(n, d, 0, n);
        return true;
      }
      var shift := numBits - divBits;
      DivStart(n, d, numBits, divBits, pn.Length);
      ClearStart(pn[..], shift + 1);
      div.ShiftLeft(shift);
      DivMod(d * Pow2(shift), Modulus(), 0, d * Pow2(shift));
      DivideLoop(num, div, shift, n, d);
      return true;
    }

    method DivideLoop(num: BaseUint, div: BaseUint, start: nat, ghost n: nat, ghost d: nat)
      requires num.pn.Length == div.pn.Length == pn.Length && num.pn != pn && div.pn != pn && num.pn != div.pn
      requires start / 32 < pn.Length && LowClear(pn[..], start + 1) && DivInv(n, d, Value(), num.Value(), div.Value(), start)
      modifies pn, num.pn, div.pn
      ensures d > 0 && Value() == n / d
    {
      hide Weight, Val, Pow2, LowClear, DivInv, Or;
      var shift: int := start;
      while shift >= 0
        invariant -1 <= shift <= start
        invariant LowClear(pn[..], shift + 1) && DivInv(n, d, Value(), num.Value(), div.Value(), shift)
      {
        DivStep(n, d, Value(), num.Value(), div.Value(), shift);
        var c := num.CompareTo(div);
        if c >= 0 {
          ValBound(num.pn[..]);
          DivMod(num.Value() as int - div.Value(), Modulus(), 0, num.Value() - div.Value());
          num.Subtract(div);
          SetQuotientBit(shift);
        } else {
          ClearFewer(pn[..], shift);
        }
        Pow2One();
        div.ShiftRight(1);
        shift := shift - 1;
      }
      DivDone(n, d, Value(), num.Value(), div.Value());
    }

    method SetQuotientBit(shift: nat)
      requires shift / 32 < pn.Length && LowClear(pn[..], shift + 1)
      modifies pn
      ensures LowClear(pn[..], shift) && Value() == old(Value()) + Pow2(shift)
    {
      hide Weight, Val, Pow2, LowClear, Or;
      ghost var x := SetBit(pn[..], shift);
      ghost var before := pn[..];
      pn[shift / 32] := Or(pn[shift / 32], Pow2(shift % 32));
      assert pn[..] == before[shift / 32 := x];
    }
  }

  /** The low limbs of a product by one limb are done. */
  ghost predicate SmallInv(now: seq<Limb>, a: seq<Limb>, b: Limb, i: nat, carry: nat) {
    && i <= |now| == |a|
    && Val(now[..i]) + carry * Weight(i) == Val(a[..i]) * b
  }

  lemma {:induction false} SmallStart(a: seq<Limb>, b: Limb)
    ensures SmallInv(a, a, b, 0, 0)
  {}

  lemma {:induction false} SmallNext(now: seq<Limb>, a: seq<Limb>, b: Limb, i: nat, carry: nat)
    requires SmallInv(now, a, b, i, carry) && i < |a| && carry < 0x1_0000_0000
    ensures var n := carry + b * a[i];
            n / 0x1_0000_0000 < 0x1_0000_0000 && SmallInv(now[i := n % 0x1_0000_0000], a, b, i + 1, n / 0x1_0000_0000)
  {
    hide Weight, Val;
    LimbProduct(b, a[i]);
    var n := carry + b * a[i];
    var next := now[i := n % 0x1_0000_0000];
    assert next[..i] == now[..i];
    SmallStep(Val(now[..i]), Val(a[..i]), b, Weight(i), carry, a[i]);
    ValNext(next, i);
    ValNext(a, i);
    WeightNext(i);
  }

  lemma {:induction false} SmallDone(now: seq<Limb>, a: seq<Limb>, b: Limb, carry: nat)
    requires SmallInv(now, a, b, |a|, carry)
    ensures Val(now) == Val(a) * b % Weight(|a|)
  {
    hide Weight, Val;
    assert a[..|a|] == a && now[..|a|] == now;
    ValBound(now);
    DivMod(Val(a) * b, Weight(|a|), carry, Val(now));
  }

  lemma {:induction false} SmallStep(done: int, a: int, b: nat, w: nat, carry: nat, z: nat)
    requires done + carry * w == a * b
    ensures var n := carry + b * z;
            done + n % 0x1_0000_0000 * w + n / 0x1_0000_0000 * (0x1_0000_0000 * w) == (a + z * w) * b
  {
    var n := carry + b * z;
    Carry(n, w);
    MulDistributes(carry, b * z, w);
    MulDistributes(a, z * w, b);
    assert b * z * w == z * w * b;
  }

  /** The limbs below `i + j` have taken their share of a row. */
  ghost predicate RowInv(now: seq<Limb>, a: seq<Limb>, b: seq<Limb>, x: Limb, j: nat, i: nat, carry: nat) {
    && i + j <= |now| == |a| == |b|
    && Val(now[..i + j]) + carry * Weight(i + j) == Val(a[..i + j]) + x * Weight(j) * Val(b[..i])
  }

  lemma {:induction false} RowStart(a: seq<Limb>, b: seq<Limb>, x: Limb, j: nat)
    requires j <= |a| == |b|
    ensures RowInv(a, a, b, x, j, 0, 0)
  {}

  lemma {:induction false} RowNext(now: seq<Limb>, a: seq<Limb>, b: seq<Limb>, x: Limb, j: nat, i: nat, carry: nat, n: nat)
    requires i + j < |now| == |a| == |b| && RowInv(now, a, b, x, j, i, carry)
    requires n == carry + a[i + j] + x * b[i]
    ensures RowInv(now[i + j := n % 0x1_0000_0000], a, b, x, j, i + 1, n / 0x1_0000_0000)
  {
    hide Weight, Val;
    var next := now[i + j := n % 0x1_0000_0000];
    assert next[..i + j] == now[..i + j];
    WeightAdd(j, i);
    RowStep(Val(now[..i + j]), Val(a[..i + j]), Val(b[..i]), x, Weight(i), Weight(j), carry, a[i + j], b[i]);
    ValNext(next, i + j);
    ValNext(a, i + j);
    ValNext(b, i);
    WeightNext(i + j);
  }

  /** A product of limbs leaves room in 64 bits for two more limbs. */
  lemma {:induction false} LimbProduct(x: Limb, y: Limb)
    ensures x * y + 2 * 0xffff_ffff < 0x1_0000_0000_0000_0000
  {
    MulGrows(x, 0xffff_ffff, y);
  }

  lemma {:induction false} RowStep(done: int, a: int, b: int, x: nat, wi: nat, wj: nat, carry: nat, y: nat, z: nat)
    requires done + carry * (wj * wi) == a + x * wj * b
    ensures var n, w := carry + y + x * z, wj * wi;
            done + n % 0x1_0000_0000 * w + n / 0x1_0000_0000 * (0x1_0000_0000 * w) == a + y * w + x * wj * (b + z * wi)
  {
    var n, w := carry + y + x * z, wj * wi;
    Carry(n, w);
    MulDistributes(carry, y, w);
    MulDistributes(carry + y, x * z, w);
    calc {
      x * z * (wj * wi);
      x * wj * (z * wi);
    }
    calc {
      x * wj * (b + z * wi);
      x * wj * b + x * wj * (z * wi);
    }
  }

  lemma {:induction false} RowDone(now: seq<Limb>, a: seq<Limb>, b: seq<Limb>, x: Limb, j: nat, carry: nat) returns (lost: nat)
    requires j <= |a| && RowInv(now, a, b, x, j, |a| - j, carry)
    ensures Val(now) + lost * Weight(|a|) == Val(a) + x * Weight(j) * Val(b)
  {
    hide Weight, Val;
    var k := |b| - j;
    var low, high, w := Val(b[..k]), Val(b[k..]), x * Weight(j);
    assert a[..|a|] == a && now[..|a|] == now;
    ValSplit(b, k);
    WeightAdd(j, k);
    lost := carry + x * high;
    MulDistributes(carry, x * high, Weight(|b|));
    RowPart(x, Weight(j), high, Weight(k));
    MulDistributes(low, high * Weight(k), w);
  }

  lemma {:induction false} RowPart(x: nat, u: nat, h: nat, v: nat)
    ensures x * u * (h * v) == x * h * (u * v)
  {}

  lemma {:induction false} ModDifference(a: nat, b: nat, m: nat)
    requires m > 0
    ensures (a + (m - b) % m) % m == (a - b) % m
  {
    var q, s := (m - b) / m, a + (m - b) % m;
    MulDistributes(s / m, q, m);
    MulDistributes(s / m + q, -1, m);
    DivMod(a - b, m, s / m + q - 1, s % m);
  }

  lemma {:induction false} ValComplement(s: seq<Limb>, t: seq<Limb>)
    requires |s| == |t| && forall i | 0 <= i < |s| :: t[i] == 0xffff_ffff - s[i]
    ensures Val(t) == Weight(|s|) - 1 - Val(s)
    decreases |s|
  {
    if s != [] {
      var n := |s| - 1;
      ValComplement(s[..n], t[..n]);
      MulDistributes(s[n], t[n], Weight(n));
    }
  }

  /** All limbs below `i` were full and wrapped to zero; limb `i` took the carry. */
  lemma {:induction false} Incremented(a: seq<Limb>, b: seq<Limb>, i: nat)
    requires |a| == |b| && i <= |a|
    requires forall k | 0 <= k < i :: a[k] == 0xffff_ffff && b[k] == 0
    requires i < |a| ==> b[i] == a[i] as int + 1 && forall k | i < k < |a| :: b[k] == a[k]
    ensures Val(b) == (Val(a) + 1) % Weight(|a|)
  {
    hide Weight;
    var zeros := b[..i];
    ValZero(zeros);
    ValComplement(zeros, a[..i]);
    ValBound(b);
    if i == |a| {
      assert b[..i] == b && a[..i] == a;
      DivMod(Val(a) + 1, Weight(|a|), 1, 0);
    } else {
      ValNext(a, i);
      ValNext(b, i);
      ValSplit(a, i + 1);
      ValSplit(b, i + 1);
      assert a[i + 1..] == b[i + 1..];
      MulDistributes(a[i], 1, Weight(i));
      DivMod(Val(a) + 1, Weight(|a|), 0, Val(b));
    }
  }

  // Shifts.

  lemma {:induction false} LeftStart(now: seq<Limb>, a: seq<Limb>, k: nat, s: nat)
    requires |now| == |a| && forall i | 0 <= i < |now| :: now[i] == 0
    ensures LeftInv(now, a, k, s, 0, 0)
  {
    hide Weight;
    ValZero(now);
  }

  lemma {:induction false} LeftFacts(now: seq<Limb>, a: seq<Limb>, k: nat, s: nat, i: nat, lost: nat)
    requires LeftInv(now, a, k, s, i, lost) && s < 32 && i < |a|
    ensures LeftStep.requires(now, a[i], k, s, i)
    ensures i + k < |now| ==> Or(now[i + k], Shl(a[i], s)) < 0x1_0000_0000
    ensures i + k + 1 < |now| ==> Or(now[i + k + 1], Shr(a[i], 32 - s)) < 0x1_0000_0000
    ensures LeftStep(now, a[i], k, s, i) ==
            var hi := if i + k + 1 < |now| && s != 0 then now[i + k + 1 := Or(now[i + k + 1], Shr(a[i], 32 - s))] else now;
            if i + k < |now| then hi[i + k := Or(now[i + k], Shl(a[i], s))] else hi
  {
    hide Weight, Val, Pow2, Shl, Shr, Or;
    OrLeft(now, a[i], k, s, i);
    LimbHigh(a[i], s);
  }

  lemma {:induction false} LeftDone(now: seq<Limb>, a: seq<Limb>, shift: nat, lost: nat)
    requires LeftInv(now, a, shift / 32, shift % 32, |a|, lost)
    ensures Val(now) == Val(a) * Pow2(shift) % Weight(|a|)
  {
    hide Weight, Val, Pow2;
    assert a[..|a|] == a;
    Pow2Split(shift);
    ValBound(now);
    DivMod(Val(a) * Pow2(shift), Weight(|a|), lost, Val(now));
  }

  lemma {:induction false} Pow2Split(shift: nat)
    ensures Pow2(shift) == Pow2(shift % 32) * Weight(shift / 32)
  {
    hide Pow2;
    WeightIsPow2(shift / 32);
    Pow2Add(shift % 32, 32 * (shift / 32));
  }

  lemma {:induction false} RightStart(now: seq<Limb>, a: seq<Limb>, k: nat, s: nat)
    requires |now| == |a| && s < 32 && forall i | 0 <= i < |now| :: now[i] == 0
    ensures RightInv(now, a, k, s, 0, 0)
  {
    hide Weight;
    ValZero(now);
  }

  lemma {:induction false} RightFacts(now: seq<Limb>, a: seq<Limb>, k: nat, s: nat, i: nat, rem: nat)
    requires RightInv(now, a, k, s, i, rem) && i < |a|
    ensures RightStep.requires(now, a[i], k, s, i)
    ensures i - k - 1 >= 0 && s != 0 ==> Or(now[i - k - 1], Shl(a[i], 32 - s)) < 0x1_0000_0000
    ensures i - k >= 0 ==> Or(now[i - k], Shr(a[i], s)) < 0x1_0000_0000
    ensures RightStep(now, a[i], k, s, i) ==
            var low := if i - k - 1 >= 0 && s != 0 then now[i - k - 1 := Or(now[i - k - 1], Shl(a[i], 32 - s))] else now;
            if i - k >= 0 then low[i - k := Or(now[i - k], Shr(a[i], s))] else low
  {
    hide Weight, Val, Pow2, Shl, Shr, Or;
    OrRight(now, a[i], k, s, i);
    ShrBound(a[i], s);
    if i - k - 1 >= 0 && s == 0 { NoBits(now[i - k - 1], a[i]); }
  }

  lemma {:induction false} RightDone(now: seq<Limb>, a: seq<Limb>, shift: nat, rem: nat)
    requires RightInv(now, a, shift / 32, shift % 32, |a|, rem)
    ensures Val(now) == Val(a) / Pow2(shift)
  {
    hide Weight, Val, Pow2;
    assert a[..|a|] == a;
    Pow2Split(shift);
    var p, w := Pow2(shift % 32), Weight(shift / 32);
    MulGrows(1, p, w);
    DivMod(Val(a), Pow2(shift), Val(now), rem);
  }

  // Comparison.

  /** The highest limb that differs decides. */
  lemma {:induction false} LessAt(a: seq<Limb>, b: seq<Limb>, i: nat)
    requires i < |a| == |b| && a[i] < b[i] && forall k | i < k < |a| :: a[k] == b[k]
    ensures Val(a) < Val(b)
  {
    hide Weight, Val;
    ValSplit(a, i + 1);
    ValSplit(b, i + 1);
    assert a[i + 1..] == b[i + 1..];
    ValNext(a, i);
    ValNext(b, i);
    ValBound(a[..i]);
    MulGrows(a[i] as int + 1, b[i], Weight(i));
    MulDistributes(a[i], 1, Weight(i));
  }

  /** The highest set bit of a limb. */
  method HighBit(x: Limb) returns (n: nat)
    requires x != 0
    ensures n < 32 && Pow2(n) <= x < Pow2(n + 1)
  {
    Pow2Word();
    n := 31;
    while n > 0
      invariant n < 32 && x < Pow2(n + 1)
    {
      BitSet(x, n);
      if x / Pow2(n) % 2 == 1 { return; }
      n := n - 1;
    }
  }

  lemma {:induction false} BitSet(x: nat, n: nat)
    requires x < Pow2(n + 1)
    ensures x / Pow2(n) % 2 == 1 <==> x >= Pow2(n)
  {
    if x >= Pow2(n) {
      DivMod(x, Pow2(n), 1, x - Pow2(n));
    } else {
      DivMod(x, Pow2(n), 0, x);
    }
  }

  lemma {:induction false} BitsAt(s: seq<Limb>, pos: nat, n: nat)
    requires pos < |s| && Pow2(n) <= s[pos] < Pow2(n + 1) && forall k | pos < k < |s| :: s[k] == 0
    ensures Pow2(32 * pos + n) <= Val(s) < Pow2(32 * pos + n + 1)
  {
    hide Weight, Val, Pow2;
    ValSplit(s, pos + 1);
    ValZero(s[pos + 1..]);
    ValNext(s, pos);
    ValBound(s[..pos]);
    WeightIsPow2(pos);
    Pow2Add(n, 32 * pos);
    Pow2Add(n + 1, 32 * pos);
    MulGrows(Pow2(n), s[pos], Weight(pos));
    MulGrows(s[pos] as int + 1, Pow2(n + 1), Weight(pos));
    MulDistributes(s[pos], 1, Weight(pos));
  }

  lemma {:induction false} Pow2Start()
    ensures Pow2(0) == 1
  {}

  lemma {:induction false} Pow2One()
    ensures Pow2(1) == 2
  {}
}
