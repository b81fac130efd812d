/** The checksum of Bech32 strings: remainders of polynomials over a field of 32 elements, packed in 30 bits. */
module Bech32Checksums {

  function Xor(a: bv32, b: bv32): bv32 { a ^ b }

  /** A bit of the highest coefficient. */
  predicate Bit(c: bv32, bit: bv32) { (c >> 25) & bit != 0 }

  function Term(c: bv32, bit: bv32, k: bv32): bv32 {
    if Bit(c, bit) then k else 0
  }

  /** The highest coefficient times the rest of the generator. */
  function Terms(c: bv32): bv32 {
    Xor(Xor(Xor(Term(c, 1, 0x3b6a_57b2), Term(c, 2, 0x2650_8e6d)), Xor(Term(c, 4, 0x1ea1_19fa), Term(c, 8, 0x3d42_33dd))), Term(c, 16, 0x2a14_62b3))
  }

  function Wide(v: bv8): bv32 { v as bv32 }

  /** Move all but the highest coefficient up. */
  function MoveUp(c: bv32): bv32 { (c & 0x1ff_ffff) << 5 }

  /** Append without reducing. */
  function Join(c: bv32, v: bv32): bv32 { (c << 5) | v }

  /** Append a coefficient. */
  function Shifted(c: bv32, v: bv8): bv32 {
    Xor(MoveUp(c), Wide(v))
  }

  /** Append a coefficient and reduce by the generator. */
  function Step(c: bv32, v: bv8): bv32 {
    Xor(Shifted(c, v), Terms(c))
  }

  /** The remainder after all coefficients. */
  function Fold(c: bv32, v: seq<bv8>): bv32
    decreases |v|
  {
    if v == [] then c else Fold(Step(c, v[0]), v[1..])
  }

  function Append(c: bv32, v: bv8): bv32 { Join(c, Wide(v)) }

  ghost predicate Symbols(v: seq<bv8>) {
    forall i | 0 <= i < |v| :: v[i] < 32
  }

  lemma {:induction false} StepBound(c: bv32, v: bv8)
    requires v < 32
    ensures Step(c, v) < 0x4000_0000
  {}

  /** A step loses nothing: only zero goes to zero. */
  lemma {:induction false} StepInjective(c: bv32)
    requires c < 0x4000_0000 && Step(c, 0) == 0
    ensures c == 0
  {}

  /** While there is room, a step only appends. */
  lemma {:induction false} StepAppends(c: bv32, v: bv8)
    requires c < 0x200_0000 && v < 32
    ensures Step(c, v) == Append(c, v)
    ensures c != 0 || v != 0 ==> Step(c, v) != 0
  {
    hide Xor, Terms, Shifted, Append;
    NoTerms(c);
    XorSame(Shifted(c, v));
    ShiftedAppends(c, v);
  }

  lemma {:induction false} ShiftedAppends(c: bv32, v: bv8)
    requires c < 0x200_0000 && v < 32
    ensures Shifted(c, v) == Append(c, v)
    ensures c != 0 || v != 0 ==> Append(c, v) != 0
  {
    hide Xor, Wide, MoveUp, Join;
    WideSmall(v);
    Room(c, Wide(v));
  }

  lemma {:induction false} NoTerms(c: bv32)
    requires c < 0x200_0000
    ensures Terms(c) == 0
  {
    assert c >> 25 == 0;
  }

  lemma {:induction false} Room(c: bv32, v: bv32)
    requires c < 0x200_0000 && v < 32
    ensures Xor(MoveUp(c), v) == Join(c, v)
    ensures c != 0 || v != 0 ==> Join(c, v) != 0
  {}

  lemma {:induction false} WideSmall(v: bv8)
    requires v < 32
    ensures Wide(v) < 32 && (v != 0 ==> Wide(v) != 0)
  {}

  /** A step is linear over exclusive or. */
  lemma {:induction false} StepLinear(c: bv32, d: bv32, v: bv8, w: bv8)
    ensures Step(Xor(c, d), v ^ w) == Xor(Step(c, v), Step(d, w))
  {
    hide Xor, Terms, Shifted;
    ShiftedLinear(c, d, v, w);
    TermsLinear(c, d);
    Regroup(Shifted(c, v), Shifted(d, w), Terms(c), Terms(d));
  }

  lemma {:induction false} ShiftedLinear(c: bv32, d: bv32, v: bv8, w: bv8)
    ensures Shifted(Xor(c, d), v ^ w) == Xor(Shifted(c, v), Shifted(d, w))
  {}

  lemma {:induction false} TermsLinear(c: bv32, d: bv32)
    ensures Terms(Xor(c, d)) == Xor(Terms(c), Terms(d))
  {
    hide Xor, Term;
    var c1, c2, c4, c8, c16 := Term(c, 1, 0x3b6a_57b2), Term(c, 2, 0x2650_8e6d), Term(c, 4, 0x1ea1_19fa), Term(c, 8, 0x3d42_33dd), Term(c, 16, 0x2a14_62b3);
    var d1, d2, d4, d8, d16 := Term(d, 1, 0x3b6a_57b2), Term(d, 2, 0x2650_8e6d), Term(d, 4, 0x1ea1_19fa), Term(d, 8, 0x3d42_33dd), Term(d, 16, 0x2a14_62b3);
    TermLinear(c, d, 1, 0x3b6a_57b2);
    TermLinear(c, d, 2, 0x2650_8e6d);
    TermLinear(c, d, 4, 0x1ea1_19fa);
    TermLinear(c, d, 8, 0x3d42_33dd);
    TermLinear(c, d, 16, 0x2a14_62b3);
    Regroup(c1, d1, c2, d2);
    Regroup(c4, d4, c8, d8);
    Regroup(Xor(c1, c2), Xor(d1, d2), Xor(c4, c8), Xor(d4, d8));
    Regroup(Xor(Xor(c1, c2), Xor(c4, c8)), Xor(Xor(d1, d2), Xor(d4, d8)), c16, d16);
  }

  lemma {:induction false} TermLinear(c: bv32, d: bv32, bit: bv32, k: bv32)
    requires bit == 1 || bit == 2 || bit == 4 || bit == 8 || bit == 16
    ensures Term(Xor(c, d), bit, k) == Xor(Term(c, bit, k), Term(d, bit, k))
  {
    hide Xor, Bit;
    BitLinear(c, d, bit);
    XorSame(k);
    XorSame(0);
  }

  lemma {:induction false} BitLinear(c: bv32, d: bv32, bit: bv32)
    requires bit == 1 || bit == 2 || bit == 4 || bit == 8 || bit == 16
    ensures Bit(Xor(c, d), bit) <==> Bit(c, bit) != Bit(d, bit)
  {}

  lemma {:induction false} XorSame(k: bv32)
    ensures Xor(k, k) == 0 && Xor(k, 0) == k && Xor(0, k) == k
  {}

  lemma {:induction false} Regroup(a: bv32, b: bv32, c: bv32, d: bv32)
    ensures Xor(Xor(a, b), Xor(c, d)) == Xor(Xor(a, c), Xor(b, d))
  {
    hide Xor;
    XorAssociates(a, b, Xor(c, d));
    XorAssociates(b, c, d);
    XorCommutes(b, c);
    XorAssociates(c, b, d);
    XorAssociates(a, c, Xor(b, d));
  }

  lemma {:induction false} XorAssociates(a: bv32, b: bv32, c: bv32)
    ensures Xor(Xor(a, b), c) == Xor(a, Xor(b, c))
  {}

  lemma {:induction false} XorCommutes(a: bv32, b: bv32)
    ensures Xor(a, b) == Xor(b, a)
  {}

  // Whole lists of coefficients.

  function XorAll(v: seq<bv8>, w: seq<bv8>): (r: seq<bv8>)
    requires |v| == |w|
    ensures |r| == |v| && forall i | 0 <= i < |v| :: r[i] == v[i] ^ w[i]
  {
    seq(|v|, i requires 0 <= i < |v| => v[i] ^ w[i])
  }

  lemma {:induction false} FoldSplit(c: bv32, v: seq<bv8>, w: seq<bv8>)
    ensures Fold(c, v + w) == Fold(Fold(c, v), w)
    decreases |v|
  {
    if v == [] {
      assert v + w == w;
    } else {
      assert (v + w)[1..] == v[1..] + w;
      FoldSplit(Step(c, v[0]), v[1..], w);
    }
  }

  /** The remainder is linear. */
  lemma {:induction false} FoldLinear(c: bv32, d: bv32, v: seq<bv8>, w: seq<bv8>)
    requires |v| == |w|
    ensures Fold(Xor(c, d), XorAll(v, w)) == Xor(Fold(c, v), Fold(d, w))
    decreases |v|
  {
    hide Xor, Step;
    if v != [] {
      StepLinear(c, d, v[0], w[0]);
      assert XorAll(v, w)[1..] == XorAll(v[1..], w[1..]);
      FoldLinear(Step(c, v[0]), Step(d, w[0]), v[1..], w[1..]);
    }
  }

  lemma {:induction false} FoldBound(c: bv32, v: seq<bv8>)
    requires c < 0x4000_0000 && Symbols(v)
    ensures Fold(c, v) < 0x4000_0000
    decreases |v|
  {
    hide Step;
    if v != [] {
      StepBound(c, v[0]);
      FoldBound(Step(c, v[0]), v[1..]);
    }
  }

  /** Appending zeros neither makes a remainder zero nor not zero. */
  lemma {:induction false} FoldZeros(c: bv32, v: seq<bv8>)
    requires c < 0x4000_0000 && forall i | 0 <= i < |v| :: v[i] == 0
    ensures Fold(c, v) == 0 <==> c == 0
    decreases |v|
  {
    hide Step;
    if v != [] {
      StepBound(c, 0);
      if Step(c, 0) == 0 { StepInjective(c); }
      if c == 0 { StepZero(); }
      FoldZeros(Step(c, 0), v[1..]);
    }
  }

  lemma {:induction false} StepZero()
    ensures Step(0, 0) == 0
  {}

  /** The remainders that fit in `j` coefficients. */
  function Limit(j: nat): bv32
    requires j <= 6
  {
    if j == 0 then 1 else if j == 1 then 0x20 else if j == 2 then 0x400 else if j == 3 then 0x8000 else if j == 4 then 0x10_0000 else if j == 5 then 0x200_0000 else 0x4000_0000
  }

  lemma {:induction false} LimitStep(c: bv32, v: bv8, j: nat)
    requires j < 6 && c < Limit(j) && v < 32
    ensures Step(c, v) < Limit(j + 1) && (c != 0 || v != 0 ==> Step(c, v) != 0)
  {
    hide Step, Append;
    AppendLimit(c, v, j);
    StepAppends(c, v);
  }

  lemma {:induction false} AppendLimit(c: bv32, v: bv8, j: nat)
    requires j < 6 && c < Limit(j) && v < 32
    ensures Append(c, v) < Limit(j + 1) && c < 0x200_0000
  {}

  /** Up to six coefficients fit without reduction, so they are zero together or not at all. */
  lemma {:induction false} FoldWindow(c: bv32, v: seq<bv8>, j: nat)
    requires j + |v| <= 6 && c < Limit(j) && Symbols(v)
    ensures Fold(c, v) < 0x4000_0000
    ensures (c != 0 || exists i | 0 <= i < |v| :: v[i] != 0) ==> Fold(c, v) != 0
    decreases |v|
  {
    hide Step;
    if v == [] {
      LimitGrows(c, j);
    } else {
      LimitStep(c, v[0], j);
      FoldWindow(Step(c, v[0]), v[1..], j + 1);
      if i :| 0 <= i < |v| && v[i] != 0 {
        if i > 0 { assert v[1..][i - 1] == v[i]; }
      }
    }
  }

  lemma {:induction false} LimitGrows(c: bv32, j: nat)
    requires j <= 6 && c < Limit(j)
    ensures c < 0x4000_0000
  {}

  lemma {:induction false} WindowNonzero(d: seq<bv8>, k: nat, i: nat)
    requires Symbols(d) && k <= i < k + 6 && i < |d| && d[i] != 0
    requires forall x | 0 <= x < |d| && (x < k || k + 6 <= x) :: d[x] == 0
    ensures Fold(0, d) != 0
  {
    hide Fold;
    var n := if k + 6 <= |d| then k + 6 else |d|;
    var a, b, c := d[..k], d[k..n], d[n..];
    assert d == (a + b) + c;
    FoldSplit(0, a + b, c);
    FoldSplit(0, a, b);
    FoldZeros(0, a);
    assert b[i - k] == d[i];
    SliceSymbols(d, k, n);
    FoldFirst(b, i - k);
    FoldZeros(Fold(0, b), c);
  }

  lemma {:induction false} SliceSymbols(d: seq<bv8>, k: nat, n: nat)
    requires Symbols(d) && k <= n <= |d|
    ensures Symbols(d[k..n])
  {
    forall i | 0 <= i < n - k ensures d[k..n][i] < 32 { assert d[k..n][i] == d[k + i]; }
  }

  lemma {:induction false} FoldFirst(v: seq<bv8>, i: nat)
    requires |v| <= 6 && Symbols(v) && i < |v| && v[i] != 0
    ensures 0 < Fold(0, v) < 0x4000_0000
  {
    FoldWindow(0, v, 0);
  }

  /** Two lists that differ, but only within six consecutive places, have different remainders. */
  lemma {:induction false} BurstDetected(c: bv32, v: seq<bv8>, w: seq<bv8>, k: nat)
    requires Symbols(v) && Symbols(w) && |v| == |w| && v != w
    requires forall i | 0 <= i < |v| && (i < k || k + 6 <= i) :: v[i] == w[i]
    ensures Fold(c, v) != Fold(c, w)
  {
    hide Xor, Step, Fold;
    DifferenceSymbols(v, w);
    FoldLinear(c, c, v, w);
    XorSame(c);
    var i :| 0 <= i < |v| && v[i] != w[i];
    WindowNonzero(XorAll(v, w), k, i);
    XorSame(Fold(c, v));
  }

  lemma {:induction false} DifferenceSymbols(v: seq<bv8>, w: seq<bv8>)
    requires |v| == |w| && Symbols(v) && Symbols(w)
    ensures Symbols(XorAll(v, w))
    ensures forall i | 0 <= i < |v| :: XorAll(v, w)[i] == 0 <==> v[i] == w[i]
  {
    forall i | 0 <= i < |v| ensures XorAll(v, w)[i] < 32 && (XorAll(v, w)[i] == 0 <==> v[i] == w[i]) {
      SmallXor(v[i], w[i]);
    }
  }

  lemma {:induction false} SmallXor(a: bv8, b: bv8)
    requires a < 32 && b < 32
    ensures a ^ b < 32 && (a ^ b == 0 <==> a == b)
  {}

  // The six symbols that give a chosen remainder.

  function Lowest(m: bv32): bv8 { (m & 31) as bv8 }

  function Groups(m: bv32): (r: seq<bv8>)
    ensures |r| == 6
  {
    [Lowest(m >> 25), Lowest(m >> 20), Lowest(m >> 15), Lowest(m >> 10), Lowest(m >> 5), Lowest(m)]
  }

  lemma {:induction false} GroupsSymbols(m: bv32)
    ensures Symbols(Groups(m))
  {
    hide Lowest;
    LowestSmall(m >> 25);
    LowestSmall(m >> 20);
    LowestSmall(m >> 15);
    LowestSmall(m >> 10);
    LowestSmall(m >> 5);
    LowestSmall(m);
  }

  lemma {:induction false} LowestSmall(m: bv32)
    ensures Lowest(m) < 32
  {}

  function Packed(a: bv8, b: bv8, c: bv8, d: bv8, e: bv8, f: bv8): bv32 {
    ((a as bv32) << 25) | ((b as bv32) << 20) | ((c as bv32) << 15) | ((d as bv32) << 10) | ((e as bv32) << 5) | (f as bv32)
  }

  /** Six symbols are packed as they are. */
  lemma {:induction false} FoldSix(s: seq<bv8>)
    requires |s| == 6 && Symbols(s)
    ensures Fold(0, s) == Packed(s[0], s[1], s[2], s[3], s[4], s[5])
  {
    hide Step;
    var c1 := FoldHead(0, s, 0);
    var c2 := FoldHead(c1, s[1..], 1);
    var c3 := FoldHead(c2, s[2..], 2);
    var c4 := FoldHead(c3, s[3..], 3);
    var c5 := FoldHead(c4, s[4..], 4);
    var c6 := FoldHead(c5, s[5..], 5);
    PackSteps(s[0], s[1], s[2], s[3], s[4], s[5]);
  }

  lemma {:induction false} FoldHead(c: bv32, s: seq<bv8>, j: nat) returns (d: bv32)
    requires j < 6 && c < Limit(j) && s != [] && Symbols(s)
    ensures d == Append(c, s[0]) < Limit(j + 1) && Fold(c, s) == Fold(d, s[1..])
  {
    hide Step, Append, Limit;
    AppendLimit(c, s[0], j);
    StepAppends(c, s[0]);
    d := Append(c, s[0]);
  }

  lemma {:induction false} PackSteps(a: bv8, b: bv8, c: bv8, d: bv8, e: bv8, f: bv8)
    ensures Append(Append(Append(Append(Append(Append(0, a), b), c), d), e), f) == Packed(a, b, c, d, e, f)
  {}

  /** The groups of a remainder are the symbols that give it. */
  lemma {:induction false} GroupsFold(m: bv32)
    requires m < 0x4000_0000
    ensures Fold(0, Groups(m)) == m
  {
    hide Fold;
    GroupsSymbols(m);
    FoldSix(Groups(m));
    GroupsPacked(m);
  }

  lemma {:induction false} GroupsPacked(m: bv32)
    requires m < 0x4000_0000
    ensures var r := Groups(m); Packed(r[0], r[1], r[2], r[3], r[4], r[5]) == m
  {}

  /** And they are the only ones. */
  lemma {:induction false} FoldGroups(s: seq<bv8>)
    requires |s| == 6 && Symbols(s)
    ensures Groups(Fold(0, s)) == s
  {
    hide Fold;
    FoldSix(s);
    PackedGroups(s[0], s[1], s[2], s[3], s[4], s[5]);
  }

  lemma {:induction false} PackedGroups(a: bv8, b: bv8, c: bv8, d: bv8, e: bv8, f: bv8)
    requires a < 32 && b < 32 && c < 32 && d < 32 && e < 32 && f < 32
    ensures Groups(Packed(a, b, c, d, e, f)) == [a, b, c, d, e, f]
  {}
}
