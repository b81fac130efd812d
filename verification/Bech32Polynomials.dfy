/** What the checksum of Bech32 strings is: the remainder of polynomials over the field of 32 elements. */
module Bech32Polynomials {
  import opened Bech32Checksums

  // ----- The field of 32 elements: polynomials in `a` over two elements, modulo a^5 + a^3 + 1

  function Plus(x: bv8, y: bv8): bv8 { x ^ y }

  /** Times `a`. */
  function Double(x: bv8): bv8 {
    if x & 16 != 0 then (x << 1) ^ 41 else x << 1
  }

  predicate Has(x: bv8, bit: bv8) { x & bit != 0 }

  function Pick(x: bv8, bit: bv8, y: bv8): bv8 {
    if Has(x, bit) then y else 0
  }

  function Sum(p: bv8, q: bv8, r: bv8, s: bv8, t: bv8): bv8 {
    Plus(Plus(Plus(p, q), Plus(r, s)), t)
  }

  function Times(x: bv8, y: bv8): bv8 {
    var y2 := Double(y);
    var y4 := Double(y2);
    var y8 := Double(y4);
    Sum(Pick(x, 1, y), Pick(x, 2, y2), Pick(x, 4, y4), Pick(x, 8, y8), Pick(x, 16, Double(y8)))
  }

  lemma {:induction false} TimesOne(x: bv8)
    requires x < 32
    ensures Times(x, 1) == x
  {}

  lemma {:induction false} OneTimes(x: bv8)
    ensures Times(1, x) == x && Times(0, x) == 0
  {
    hide Double;
  }

  lemma {:induction false} PlusSame(x: bv8)
    ensures Plus(x, x) == 0 && Plus(x, 0) == x && Plus(0, x) == x
  {}

  lemma {:induction false} PlusAssociates(x: bv8, y: bv8, z: bv8)
    ensures Plus(Plus(x, y), z) == Plus(x, Plus(y, z))
  {}

  lemma {:induction false} PlusCommutes(x: bv8, y: bv8)
    ensures Plus(x, y) == Plus(y, x)
  {}

  lemma {:induction false} PlusRegroup(p: bv8, q: bv8, r: bv8, s: bv8)
    ensures Plus(Plus(p, q), Plus(r, s)) == Plus(Plus(p, r), Plus(q, s))
  {
    hide Plus;
    PlusAssociates(p, q, Plus(r, s));
    PlusAssociates(q, r, s);
    PlusCommutes(q, r);
    PlusAssociates(r, q, s);
    PlusAssociates(p, r, Plus(q, s));
  }

  lemma {:induction false} SumPlus(p: bv8, q: bv8, r: bv8, s: bv8, t: bv8, p': bv8, q': bv8, r': bv8, s': bv8, t': bv8)
    ensures Sum(Plus(p, p'), Plus(q, q'), Plus(r, r'), Plus(s, s'), Plus(t, t')) == Plus(Sum(p, q, r, s, t), Sum(p', q', r', s', t'))
  {
    hide Plus;
    PlusRegroup(p, p', q, q');
    PlusRegroup(r, r', s, s');
    PlusRegroup(Plus(p, q), Plus(p', q'), Plus(r, s), Plus(r', s'));
    PlusRegroup(Plus(Plus(p, q), Plus(r, s)), Plus(Plus(p', q'), Plus(r', s')), t, t');
  }

  lemma {:induction false} PickPlus(x: bv8, y: bv8, bit: bv8, z: bv8)
    requires bit == 1 || bit == 2 || bit == 4 || bit == 8 || bit == 16
    ensures Pick(Plus(x, y), bit, z) == Plus(Pick(x, bit, z), Pick(y, bit, z))
  {
    assert Has(Plus(x, y), bit) <==> Has(x, bit) != Has(y, bit);
    hide Plus, Has;
    PlusSame(z);
    PlusSame(0);
  }

  lemma {:induction false} TimesDistributes(x: bv8, y: bv8, z: bv8)
    ensures Times(Plus(x, y), z) == Plus(Times(x, z), Times(y, z))
  {
    hide Plus, Double, Pick, Sum;
    var z2 := Double(z);
    var z4 := Double(z2);
    var z8 := Double(z4);
    var z16 := Double(z8);
    PickPlus(x, y, 1, z);
    PickPlus(x, y, 2, z2);
    PickPlus(x, y, 4, z4);
    PickPlus(x, y, 8, z8);
    PickPlus(x, y, 16, z16);
    SumPlus(Pick(x, 1, z), Pick(x, 2, z2), Pick(x, 4, z4), Pick(x, 8, z8), Pick(x, 16, z16),
            Pick(y, 1, z), Pick(y, 2, z2), Pick(y, 4, z4), Pick(y, 8, z8), Pick(y, 16, z16));
  }

  lemma {:induction false} DoublePlus(x: bv8, y: bv8)
    requires x < 32 && y < 32
    ensures Double(Plus(x, y)) == Plus(Double(x), Double(y)) && Plus(x, y) < 32 && Double(x) < 32
  {}

  /** a^5 = a^3 + 1. */
  lemma {:induction false} FifthPower(y: bv8)
    requires y < 32
    ensures Double(Double(Double(Double(Double(y))))) == Plus(Double(Double(Double(y))), y)
  {}

  lemma {:induction false} DoublePick(x: bv8, bit: bv8, y: bv8)
    requires y < 32
    ensures Double(Pick(x, bit, y)) == Pick(x, bit, Double(y)) && Pick(x, bit, y) < 32
  {
    assert Double(0) == 0;
  }

  /** The bits of a doubled element. */
  lemma {:induction false} DoubledBits(x: bv8)
    requires x < 32
    ensures (Has(Double(x), 1) <==> Has(x, 16)) && (Has(Double(x), 2) <==> Has(x, 1)) && (Has(Double(x), 4) <==> Has(x, 2))
    ensures (Has(Double(x), 8) <==> Has(x, 4) != Has(x, 16)) && (Has(Double(x), 16) <==> Has(x, 8))
  {}

  lemma {:induction false} Rearranged(p: bv8, q: bv8, r: bv8, s: bv8, t: bv8, u: bv8)
    ensures Sum(u, p, q, Plus(r, t), s) == Sum(p, q, r, s, Plus(t, u))
  {
    hide Plus;
    PlusAssociates(q, r, t);
    PlusCommutes(Plus(q, r), t);
    PlusRegroup(u, p, t, Plus(q, r));
    PlusAssociates(p, q, r);
    PlusAssociates(Plus(u, t), Plus(Plus(p, q), r), s);
    PlusAssociates(Plus(p, q), r, s);
    PlusCommutes(Plus(u, t), Plus(Plus(p, q), Plus(r, s)));
    PlusCommutes(u, t);
  }

  lemma {:induction false} DoubleSum(p: bv8, q: bv8, r: bv8, s: bv8, t: bv8)
    requires p < 32 && q < 32 && r < 32 && s < 32 && t < 32
    ensures Double(Sum(p, q, r, s, t)) == Sum(Double(p), Double(q), Double(r), Double(s), Double(t))
  {
    hide Plus, Double;
    DoublePlus(p, q);
    DoublePlus(r, s);
    DoublePlus(Plus(p, q), Plus(r, s));
    DoublePlus(Plus(Plus(p, q), Plus(r, s)), t);
  }

  lemma {:induction false} DoubledPicks(x: bv8, y1: bv8, y2: bv8, y4: bv8, y8: bv8, y16: bv8)
    requires x < 32
    ensures Pick(Double(x), 1, y1) == Pick(x, 16, y1) && Pick(Double(x), 2, y2) == Pick(x, 1, y2) && Pick(Double(x), 4, y4) == Pick(x, 2, y4)
    ensures Pick(Double(x), 8, y8) == Plus(Pick(x, 4, y8), Pick(x, 16, y8)) && Pick(Double(x), 16, y16) == Pick(x, 8, y16)
  {
    DoubledBits(x);
    hide Has, Double, Plus;
    PlusSame(y8);
    PlusSame(0);
  }

  lemma {:induction false} PickSum(x: bv8, bit: bv8, y: bv8, z: bv8)
    ensures Pick(x, bit, Plus(y, z)) == Plus(Pick(x, bit, y), Pick(x, bit, z))
  {
    hide Has, Plus;
    PlusSame(0);
  }

  lemma {:induction false} DoubleSmall(x: bv8)
    requires x < 32
    ensures Double(x) < 32
  {}

  lemma {:induction false} DoublePicks(x: bv8, y: bv8, y2: bv8, y4: bv8, y8: bv8, y16: bv8)
    requires y < 32 && y2 < 32 && y4 < 32 && y8 < 32 && y16 < 32
    ensures Double(Sum(Pick(x, 1, y), Pick(x, 2, y2), Pick(x, 4, y4), Pick(x, 8, y8), Pick(x, 16, y16))) ==
            Sum(Pick(x, 1, Double(y)), Pick(x, 2, Double(y2)), Pick(x, 4, Double(y4)), Pick(x, 8, Double(y8)), Pick(x, 16, Double(y16)))
  {
    hide Pick, Double, Sum;
    DoublePick(x, 1, y);
    DoublePick(x, 2, y2);
    DoublePick(x, 4, y4);
    DoublePick(x, 8, y8);
    DoublePick(x, 16, y16);
    DoubleSum(Pick(x, 1, y), Pick(x, 2, y2), Pick(x, 4, y4), Pick(x, 8, y8), Pick(x, 16, y16));
  }

  /** Multiplication by `a` on the left: with the laws above, this determines all products. */
  lemma {:induction false} TimesDouble(x: bv8, y: bv8)
    requires x < 32 && y < 32
    ensures Times(Double(x), y) == Double(Times(x, y))
  {
    hide Plus, Double, Pick, Sum;
    var y2 := Double(y);
    var y4 := Double(y2);
    var y8 := Double(y4);
    var y16 := Double(y8);
    DoubleSmall(y);
    DoubleSmall(y2);
    DoubleSmall(y4);
    DoubleSmall(y8);
    FifthPower(y);
    DoubledPicks(x, y, y2, y4, y8, y16);
    DoublePicks(x, y, y2, y4, y8, y16);
    PickSum(x, 16, y8, y);
    Rearranged(Pick(x, 1, y2), Pick(x, 2, y4), Pick(x, 4, y8), Pick(x, 8, y16), Pick(x, 16, y8), Pick(x, 16, y));
  }

  // ----- One step

  /** The generator, highest coefficient first: x^6 + 29x^5 + 22x^4 + 20x^3 + 21x^2 + 29x + 18. */
  const GENERATOR: seq<bv8> := [1, 29, 22, 20, 21, 29, 18]

  /** A remainder with the lowest `5 - i` coefficients shifted out. */
  function Down(m: bv32, i: nat): bv32
    requires i < 6
  {
    if i == 0 then m >> 25 else if i == 1 then m >> 20 else if i == 2 then m >> 15 else if i == 3 then m >> 10 else if i == 4 then m >> 5 else m
  }

  /** The `i`-th coefficient of a remainder, highest first. */
  function Group(m: bv32, i: nat): bv8
    requires i < 6
  {
    Lowest(Down(m, i))
  }

  lemma {:induction false} GroupsAre(m: bv32, i: nat)
    requires i < 6
    ensures Groups(m)[i] == Group(m, i)
  {
    hide Lowest;
  }

  lemma {:induction false} Xor25(m: bv32, n: bv32)
    ensures Lowest(Xor(m, n) >> 25) == Plus(Lowest(m >> 25), Lowest(n >> 25))
  {}

  lemma {:induction false} Xor20(m: bv32, n: bv32)
    ensures Lowest(Xor(m, n) >> 20) == Plus(Lowest(m >> 20), Lowest(n >> 20))
  {}

  lemma {:induction false} Xor15(m: bv32, n: bv32)
    ensures Lowest(Xor(m, n) >> 15) == Plus(Lowest(m >> 15), Lowest(n >> 15))
  {}

  lemma {:induction false} Xor10(m: bv32, n: bv32)
    ensures Lowest(Xor(m, n) >> 10) == Plus(Lowest(m >> 10), Lowest(n >> 10))
  {}

  lemma {:induction false} Xor5(m: bv32, n: bv32)
    ensures Lowest(Xor(m, n) >> 5) == Plus(Lowest(m >> 5), Lowest(n >> 5))
  {}

  lemma {:induction false} Xor0(m: bv32, n: bv32)
    ensures Lowest(Xor(m, n)) == Plus(Lowest(m), Lowest(n))
  {}

  lemma {:induction false} GroupXor(m: bv32, n: bv32, i: nat)
    requires i < 6
    ensures Group(Xor(m, n), i) == Plus(Group(m, i), Group(n, i))
  {
    hide Lowest, Xor, Plus;
    if i == 0 { Xor25(m, n); } else if i == 1 { Xor20(m, n); } else if i == 2 { Xor15(m, n); }
    else if i == 3 { Xor10(m, n); } else if i == 4 { Xor5(m, n); } else { Xor0(m, n); }
  }

  lemma {:induction false} GroupZero(i: nat)
    requires i < 6
    ensures Group(0, i) == 0
  {}

  lemma {:induction false} TopBit(c: bv32, bit: bv8)
    requires bit == 1 || bit == 2 || bit == 4 || bit == 8 || bit == 16
    ensures Bit(c, bit as bv32) <==> Has(Group(c, 0), bit)
  {}

  lemma {:induction false} GroupTerm(c: bv32, bit: bv8, m: bv32, i: nat)
    requires i < 6 && (bit == 1 || bit == 2 || bit == 4 || bit == 8 || bit == 16)
    ensures Group(Term(c, bit as bv32, m), i) == Pick(Group(c, 0), bit, Group(m, i))
  {
    hide Group, Bit, Has;
    TopBit(c, bit);
    GroupZero(i);
  }

  /** The constants of the code are the multiples of the generator by the powers of `a`. */
  lemma {:induction false} Multiples(i: nat)
    requires i < 6
    ensures var y := GENERATOR[i + 1];
            && Group(0x3b6a_57b2, i) == y && Group(0x2650_8e6d, i) == Double(y) && Group(0x1ea1_19fa, i) == Double(Double(y))
            && Group(0x3d42_33dd, i) == Double(Double(Double(y))) && Group(0x2a14_62b3, i) == Double(Double(Double(Double(y))))
  {}

  lemma {:induction false} GroupTerms(c: bv32, i: nat)
    requires i < 6
    ensures Group(Terms(c), i) == Times(Group(c, 0), GENERATOR[i + 1])
  {
    hide Group, Term, Pick, Xor, Plus, Double;
    Multiples(i);
    GroupTerm(c, 1, 0x3b6a_57b2, i);
    GroupTerm(c, 2, 0x2650_8e6d, i);
    GroupTerm(c, 4, 0x1ea1_19fa, i);
    GroupTerm(c, 8, 0x3d42_33dd, i);
    GroupTerm(c, 16, 0x2a14_62b3, i);
    GroupXor(Term(c, 1, 0x3b6a_57b2), Term(c, 2, 0x2650_8e6d), i);
    GroupXor(Term(c, 4, 0x1ea1_19fa), Term(c, 8, 0x3d42_33dd), i);
    GroupXor(Xor(Term(c, 1, 0x3b6a_57b2), Term(c, 2, 0x2650_8e6d)), Xor(Term(c, 4, 0x1ea1_19fa), Term(c, 8, 0x3d42_33dd)), i);
    GroupXor(Xor(Xor(Term(c, 1, 0x3b6a_57b2), Term(c, 2, 0x2650_8e6d)), Xor(Term(c, 4, 0x1ea1_19fa), Term(c, 8, 0x3d42_33dd))), Term(c, 16, 0x2a14_62b3), i);
  }

  lemma {:induction false} GroupShifted(c: bv32, v: bv8, i: nat)
    requires i < 6 && v < 32
    ensures Group(Shifted(c, v), i) == if i < 5 then Group(c, i + 1) else v
  {}

  /** A step multiplies by x, adds the next coefficient, and subtracts the generator as often as the highest coefficient says. */
  lemma {:induction false} StepDivides(c: bv32, v: bv8, i: nat)
    requires v < 32 && i < 6
    ensures Groups(Step(c, v))[i] == Plus((Groups(c) + [v])[i + 1], Times(Groups(c)[0], GENERATOR[i + 1]))
  {
    hide Group, Groups, Shifted, Terms, Times, Xor, Plus;
    GroupsAre(Step(c, v), i);
    GroupsAre(c, 0);
    if i < 5 { GroupsAre(c, i + 1); }
    GroupXor(Shifted(c, v), Terms(c), i);
    GroupTerms(c, i);
    GroupShifted(c, v, i);
  }

  // ----- All steps

  function Zeros(n: nat): (r: seq<bv8>)
    ensures |r| == n && forall i | 0 <= i < n :: r[i] == 0
  {
    seq(n, _ => 0)
  }

  function Added(v: seq<bv8>, w: seq<bv8>): (r: seq<bv8>)
    requires |v| == |w|
    ensures |r| == |v| && forall i | 0 <= i < |v| :: r[i] == Plus(v[i], w[i])
  {
    seq(|v|, i requires 0 <= i < |v| => Plus(v[i], w[i]))
  }

  /** The generator times one symbol. */
  function Multiple(a: bv8): (r: seq<bv8>)
    ensures |r| == 7 && forall i | 0 <= i < 7 :: r[i] == Times(a, GENERATOR[i])
  {
    seq(7, i requires 0 <= i < 7 => Times(a, GENERATOR[i]))
  }

  /** A polynomial times the generator, highest coefficients first. */
  ghost function Product(q: seq<bv8>): (r: seq<bv8>)
    ensures |r| == |q| + 6
  {
    if q == [] then Zeros(6)
    else var n := |q| - 1; Added(Product(q[..n]) + [0], Zeros(n) + Multiple(q[n]))
  }

  /** The polynomial x^n + v, with five leading zeros. */
  function Dividend(v: seq<bv8>): seq<bv8> {
    [0, 0, 0, 0, 0, 1] + v
  }

  /** `v` is `q` times the generator plus `r`. */
  ghost predicate Divides(v: seq<bv8>, q: seq<bv8>, r: seq<bv8>) {
    |q| == |v| && |r| == 6 && Dividend(v) == Added(Product(q), Zeros(|v|) + r)
  }

  lemma {:induction false} ProductNext(q: seq<bv8>, a: bv8)
    ensures Product(q + [a]) == Added(Product(q) + [0], Zeros(|q|) + Multiple(a))
  {
    assert (q + [a])[..|q|] == q;
  }

  lemma {:induction false} ProductAt(q: seq<bv8>, a: bv8, j: nat)
    requires j < |q| + 7 && a < 32
    ensures Product(q + [a])[j] == if j < |q| then Product(q)[j] else if j == |q| then Plus(Product(q)[j], a)
                                   else Plus((Product(q) + [0])[j], Times(a, GENERATOR[j - |q|]))
  {
    hide Plus, Times, Product;
    ProductNext(q, a);
    PlusSame((Product(q) + [0])[j]);
    TimesOne(a);
    assert j >= |q| ==> (Zeros(|q|) + Multiple(a))[j] == Times(a, GENERATOR[j - |q|]);
  }

  lemma {:induction false} DivisionAt(v: seq<bv8>, q: seq<bv8>, r: seq<bv8>, j: nat)
    requires Divides(v, q, r) && j < |v| + 6
    ensures Dividend(v)[j] == if j < |v| then Product(q)[j] else Plus(Product(q)[j], r[j - |v|])
  {
    hide Plus, Product, Dividend;
    PlusSame(Product(q)[j]);
    assert Dividend(v)[j] == Plus(Product(q)[j], (Zeros(|v|) + r)[j]);
  }

  lemma {:induction false} PlusTwice(u: bv8, m: bv8, x: bv8)
    ensures Plus(Plus(u, m), Plus(x, m)) == Plus(u, x)
  {
    hide Plus;
    PlusRegroup(u, m, x, m);
    PlusSame(m);
    PlusSame(Plus(u, x));
  }

  lemma {:induction false} DividesNextAt(v: seq<bv8>, q: seq<bv8>, c: bv32, x: bv8, j: nat)
    requires Divides(v, q, Groups(c)) && x < 32 && Groups(c)[0] < 32 && j < |v| + 7
    ensures Dividend(v + [x])[j] ==
            if j <= |v| then Product(q + [Groups(c)[0]])[j] else Plus(Product(q + [Groups(c)[0]])[j], Groups(Step(c, x))[j - |v| - 1])
  {
    hide Product, Groups, Step, Times, Plus, Divides;
    var n, r, a := |v|, Groups(c), Groups(c)[0];
    DividesLengths(v, q, r);
    ProductAt(q, a, j);
    assert j < n + 6 ==> Dividend(v + [x])[j] == Dividend(v)[j];
    if j < n + 6 { DivisionAt(v, q, r, j); }
    if j > n {
      var i := j - n - 1;
      StepDivides(c, x, i);
      PlusTwice((Product(q) + [0])[j], Times(a, GENERATOR[i + 1]), (r + [x])[i + 1]);
      if j == n + 6 { PlusSame(x); }
    }
  }

  lemma {:induction false} DividesLengths(v: seq<bv8>, q: seq<bv8>, r: seq<bv8>)
    requires Divides(v, q, r)
    ensures |q| == |v| && |r| == 6
  {}

  /** One more coefficient: what is left over times x, plus the coefficient, is divided by one step. */
  lemma {:induction false} DividesNext(v: seq<bv8>, q: seq<bv8>, c: bv32, x: bv8)
    requires Divides(v, q, Groups(c)) && x < 32 && Groups(c)[0] < 32
    ensures Divides(v + [x], q + [Groups(c)[0]], Groups(Step(c, x)))
  {
    hide Product, Groups, Step, Plus;
    var n, r', p := |v|, Groups(Step(c, x)), q + [Groups(c)[0]];
    var w', sum := Dividend(v + [x]), Added(Product(p), Zeros(n + 1) + r');
    forall j | 0 <= j < n + 7 ensures w'[j] == sum[j] {
      DividesNextAt(v, q, c, x, j);
      PlusSame(Product(p)[j]);
      assert sum[j] == Plus(Product(p)[j], (Zeros(n + 1) + r')[j]);
    }
    assert w' == sum;
  }

  /** The remainder that the code computes is one: x^n + v is a multiple of the generator plus it. */
  lemma {:induction false} FoldDivides(v: seq<bv8>) returns (q: seq<bv8>)
    requires Symbols(v)
    ensures Symbols(q) && Divides(v, q, Groups(Fold(1, v)))
    decreases |v|
  {
    hide Fold, Step, Groups, Product;
    if v == [] {
      q := [];
      DividesNone();
    } else {
      var n := |v| - 1;
      var most, x := v[..n], v[n];
      assert v == most + [x];
      var p := FoldDivides(most);
      FoldSplit(1, most, [x]);
      FoldOne(Fold(1, most), x);
      GroupsSymbols(Fold(1, most));
      DividesNext(most, p, Fold(1, most), x);
      q := p + [Groups(Fold(1, most))[0]];
    }
  }

  lemma {:induction false} FoldOne(c: bv32, x: bv8)
    ensures Fold(c, [x]) == Step(c, x)
  {
    hide Step;
    assert [x][1..] == [];
  }

  lemma {:induction false} DividesNone()
    ensures Divides([], [], Groups(Fold(1, []))) && Symbols([])
  {
    hide Lowest, Plus;
    LowestLiterals();
    assert Groups(1) == [0, 0, 0, 0, 0, 1];
    PlusSame(0);
    PlusSame(1);
    assert Added(Product([]), Zeros(0) + Groups(1)) == [0, 0, 0, 0, 0, 1];
  }

  lemma {:induction false} LowestLiterals()
    ensures Lowest(0) == 0 && Lowest(1) == 1 && (1 as bv32) >> 25 == (1 as bv32) >> 20 == (1 as bv32) >> 15 == (1 as bv32) >> 10 == (1 as bv32) >> 5 == 0
  {}

  lemma {:induction false} PlusCancels(u: bv8, x: bv8, y: bv8)
    requires Plus(u, x) == Plus(u, y)
    ensures x == y
  {}

  /** The highest coefficients of a multiple of the generator determine the factor. */
  lemma {:induction false} FactorUnique(p: seq<bv8>, q: seq<bv8>)
    requires |p| == |q| && Symbols(p) && Symbols(q) && forall i | 0 <= i < |p| :: Product(p)[i] == Product(q)[i]
    ensures p == q
    decreases |p|
  {
    hide Times, Plus, Product;
    if p != [] {
      var n := |p| - 1;
      assert p == p[..n] + [p[n]] && q == q[..n] + [q[n]];
      forall i | 0 <= i < n ensures Product(p[..n])[i] == Product(q[..n])[i] {
        ProductAt(p[..n], p[n], i);
        ProductAt(q[..n], q[n], i);
        assert Product(p)[i] == Product(q)[i];
      }
      FactorUnique(p[..n], q[..n]);
      ProductAt(p[..n], p[n], n);
      ProductAt(q[..n], q[n], n);
      PlusCancels(Product(p[..n])[n], p[n], q[n]);
    }
  }

  /** And the only one. */
  lemma {:induction false} RemainderUnique(v: seq<bv8>, q: seq<bv8>, r: seq<bv8>)
    requires Symbols(v) && Symbols(q) && Divides(v, q, r)
    ensures r == Groups(Fold(1, v))
  {
    hide Fold, Groups, Product, Plus, Divides, Dividend;
    var p := FoldDivides(v);
    var n, s := |v|, Groups(Fold(1, v));
    DividesLengths(v, q, r);
    DividesLengths(v, p, s);
    forall i | 0 <= i < n ensures Product(p)[i] == Product(q)[i] {
      DivisionAt(v, p, s, i);
      DivisionAt(v, q, r, i);
    }
    FactorUnique(p, q);
    forall i | 0 <= i < 6 ensures r[i] == s[i] {
      DivisionAt(v, p, s, n + i);
      DivisionAt(v, q, r, n + i);
      PlusCancels(Product(q)[n + i], r[i], s[i]);
    }
  }
}
