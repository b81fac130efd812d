/** Numbers as digits of any base, most significant first, and multiplying them in place. */
module Numerals {
  import opened Limbs

  function Pow(b: nat, n: nat): nat {
    if n == 0 then 1 else b * Pow(b, n - 1)
  }

  ghost predicate Digits(s: seq<nat>, b: nat) {
    forall i | 0 <= i < |s| :: s[i] < b
  }

  function Num(s: seq<nat>, b: nat): nat {
    if s == [] then 0 else Num(s[..|s| - 1], b) * b + s[|s| - 1]
  }

  /** The digits of a number, without leading zeros. */
  function ToDigits(n: nat, b: nat): seq<nat>
    requires b >= 2
  {
    if n == 0 then [] else ToDigits(n / b, b) + [n % b]
  }

  lemma {:induction false} PowPositive(b: nat, n: nat)
    requires b > 0
    ensures Pow(b, n) > 0
    decreases n
  {
    if n > 0 { PowPositive(b, n - 1); MulGrows(1, b, Pow(b, n - 1)); }
  }

  lemma {:induction false} PowAdd(b: nat, x: nat, y: nat)
    ensures Pow(b, x + y) == Pow(b, x) * Pow(b, y)
    decreases y
  {
    if y > 0 {
      PowAdd(b, x, y - 1);
      assert Pow(b, x + y) == b * Pow(b, x + (y - 1));
      MulAssociates(b, Pow(b, x), Pow(b, y - 1));
      MulAssociates(Pow(b, x), b, Pow(b, y - 1));
    }
  }

  lemma {:induction false} PowGrows(b: nat, x: nat, y: nat)
    requires b > 0 && x <= y
    ensures Pow(b, x) <= Pow(b, y)
    decreases y
  {
    PowPositive(b, y);
    if x < y {
      PowGrows(b, x, y - 1);
      PowPositive(b, y - 1);
      MulGrows(1, b, Pow(b, y - 1));
    }
  }

  lemma {:induction false} PowMonotone(a: nat, b: nat, n: nat)
    requires a <= b
    ensures Pow(a, n) <= Pow(b, n)
    decreases n
  {
    if n > 0 {
      PowMonotone(a, b, n - 1);
      MulGrows(a, b, Pow(a, n - 1));
      MulGrows(Pow(a, n - 1), Pow(b, n - 1), b);
    }
  }

  lemma {:induction false} PowMul(b: nat, x: nat, y: nat)
    ensures Pow(b, x * y) == Pow(Pow(b, x), y)
    decreases y
  {
    if y > 0 {
      PowMul(b, x, y - 1);
      MulDistributes(1, y - 1, x);
      assert x * y == x + x * (y - 1);
      PowAdd(b, x, x * (y - 1));
    } else {
      assert x * y == 0;
    }
  }

  lemma {:induction false} PowStrict(b: nat, x: nat, y: nat)
    requires b >= 2 && x < y
    ensures Pow(b, x) < Pow(b, y)
  {
    PowGrows(b, x, y - 1);
    PowPositive(b, y - 1);
    MulGrows(2, b, Pow(b, y - 1));
  }

  /** If a small power of one base is not above one of another, so it is for all sizes. */
  lemma {:induction false} PowSuffices(a: nat, b: nat, p: nat, q: nat, n: nat, size: nat)
    requires b >= 2 && p > 0 && Pow(a, p) <= Pow(b, q) && q * n < p * size
    ensures Pow(a, n) < Pow(b, size)
  {
    hide Pow;
    PowMul(a, p, n);
    PowMul(b, q, n);
    PowMonotone(Pow(a, p), Pow(b, q), n);
    PowStrict(b, q * n, p * size);
    PowMul(a, n, p);
    PowMul(b, size, p);
    assert p * n == n * p && p * size == size * p;
    if Pow(a, n) >= Pow(b, size) { PowMonotone(Pow(b, size), Pow(a, n), p); }
  }

  lemma {:induction false} NumNext(s: seq<nat>, b: nat)
    requires s != []
    ensures Num(s, b) == Num(s[..|s| - 1], b) * b + s[|s| - 1]
  {}

  lemma {:induction false} NumBound(s: seq<nat>, b: nat)
    requires b > 0 && Digits(s, b)
    ensures Num(s, b) < Pow(b, |s|)
    decreases |s|
  {
    if s != [] {
      var n := |s| - 1;
      NumBound(s[..n], b);
      NumNext(s, b);
      PowNext(b, n);
      MulGrows(Num(s[..n], b) + 1, Pow(b, n), b);
      MulDistributes(Num(s[..n], b), 1, b);
    }
  }

  lemma {:induction false} NumSplit(s: seq<nat>, j: nat, b: nat)
    requires j <= |s|
    ensures Num(s, b) == Num(s[..j], b) * Pow(b, |s| - j) + Num(s[j..], b)
    decreases |s|
  {
    var n := |s| - 1;
    if j == |s| {
      assert s[..j] == s && s[j..] == [];
    } else {
      NumSplit(s[..n], j, b);
      assert s[..n][..j] == s[..j] && s[..n][j..] == s[j..][..n - j];
      var h, p := Num(s[..j], b), Pow(b, n - j);
      MulDistributes(h * p, Num(s[..n][j..], b), b);
      MulAssociates(h, p, b);
      assert p * b == b * p;
    }
  }

  /** A digit in front counts the full power. */
  lemma {:induction false} NumFront(x: nat, s: seq<nat>, b: nat)
    ensures Num([x] + s, b) == x * Pow(b, |s|) + Num(s, b)
  {
    NumSplit([x] + s, 1, b);
    assert ([x] + s)[..1] == [x] && ([x] + s)[1..] == s;
    NumOne(x, b);
  }

  lemma {:induction false} NumOne(x: nat, b: nat)
    ensures Num([x], b) == x
  {
    assert [x][..0] == [];
  }

  lemma {:induction false} NumZeros(s: seq<nat>, b: nat)
    requires forall i | 0 <= i < |s| :: s[i] == 0
    ensures Num(s, b) == 0
    decreases |s|
  {
    if s != [] { NumZeros(s[..|s| - 1], b); }
  }

  /** A number without leading zeros is its digits. */
  lemma {:induction false} DigitsUnique(s: seq<nat>, b: nat)
    requires b >= 2 && Digits(s, b) && (s != [] ==> s[0] != 0)
    ensures ToDigits(Num(s, b), b) == s
    decreases |s|
  {
    if s != [] {
      var n := |s| - 1;
      DigitsUnique(s[..n], b);
      DivMod(Num(s, b), b, Num(s[..n], b), s[n]);
      if n == 0 {
        NumOne(s[0], b);
        assert s == [s[0]];
      }
      NumNonzero(s, b);
      assert s == s[..n] + [s[n]];
    }
  }

  lemma {:induction false} NumNonzero(s: seq<nat>, b: nat)
    requires b >= 2 && s != [] && s[0] != 0
    ensures Num(s, b) >= Pow(b, |s| - 1) > 0
  {
    assert s == [s[0]] + s[1..];
    NumFront(s[0], s[1..], b);
    PowPositive(b, |s| - 1);
    MulGrows(1, s[0], Pow(b, |s| - 1));
  }

  lemma {:induction false} ToDigitsNum(n: nat, b: nat)
    requires b >= 2
    ensures Num(ToDigits(n, b), b) == n && Digits(ToDigits(n, b), b)
    ensures n > 0 ==> ToDigits(n, b) != [] && ToDigits(n, b)[0] != 0
    decreases n
  {
    if n > 0 {
      DivSmaller(n, b);
      ToDigitsNum(n / b, b);
      var s := ToDigits(n / b, b);
      assert (s + [n % b])[..|s|] == s;
    }
  }

  lemma {:induction false} DivSmaller(n: nat, b: nat)
    requires n > 0 && b >= 2
    ensures 0 <= n / b < n && 0 <= n % b < b && n == n / b * b + n % b
  {
    DivShrinks(n, b);
    if n / b >= n { MulGrows(2, b, n / b); }
  }

  // Multiplying in place.

  /** A number needs exactly `length` digits. */
  ghost predicate HasLength(n: nat, b: nat, length: nat) {
    n < Pow(b, length) && (length > 0 ==> Pow(b, length - 1) <= n)
  }

  /** The last digits have been multiplied by `m` with `d` added; `carry` is what goes to the next. */
  ghost predicate Multiplied(now: seq<nat>, was: seq<nat>, b: nat, m: nat, d: nat, j: nat, carry: nat) {
    && j <= |now| == |was| && now[..j] == was[..j] && Digits(now, b)
    && Num(now[j..], b) + carry * Pow(b, |now| - j) == Num(was[j..], b) * m + d
  }

  lemma {:induction false} MultipliedStart(was: seq<nat>, b: nat, m: nat, d: nat)
    requires Digits(was, b)
    ensures Multiplied(was, was, b, m, d, |was|, d)
  {
    assert was[|was|..] == [];
  }

  lemma {:induction false} MultipliedNext(now: seq<nat>, was: seq<nat>, b: nat, m: nat, d: nat, j: nat, carry: nat, n: nat)
    requires b >= 2 && 0 < j && Multiplied(now, was, b, m, d, j, carry) && n == carry + m * was[j - 1]
    ensures 0 <= n / b && 0 <= n % b < b
    ensures Multiplied(now[j - 1 := n % b], was, b, m, d, j - 1, n / b)
  {
    hide Num, Pow;
    DivShrinks(n, b);
    var x, next, p := was[j - 1], now[j - 1 := n % b], Pow(b, |now| - j);
    assert next[j - 1..] == [n % b] + now[j..] && was[j - 1..] == [x] + was[j..];
    assert next[..j - 1] == was[..j - 1];
    NumFront(n % b, now[j..], b);
    NumFront(x, was[j..], b);
    PowNext(b, |now| - j);
    CarrySum(n, b, m, d, x, p, carry, Num(now[j..], b), Num(was[j..], b));
  }

  lemma {:induction false} PowNext(b: nat, n: nat)
    ensures Pow(b, n + 1) == b * Pow(b, n)
  {}

  lemma {:induction false} CarrySum(n: nat, b: nat, m: nat, d: nat, x: nat, p: nat, carry: nat, v: nat, w: nat)
    requires b > 0 && n == carry + m * x && v + carry * p == w * m + d
    ensures n % b * p + v + n / b * (b * p) == (x * p + w) * m + d
  {
    MulDistributes(n / b * b, n % b, p);
    MulAssociates(n / b, b, p);
    MulDistributes(carry, m * x, p);
    MulDistributes(x * p, w, m);
    assert m * x * p == x * p * m;
  }

  /** What is left above is zero, so the whole number has been multiplied. */
  lemma {:induction false} MultipliedDone(now: seq<nat>, was: seq<nat>, b: nat, m: nat, d: nat, j: nat)
    requires Multiplied(now, was, b, m, d, j, 0) && forall k | 0 <= k < j :: was[k] == 0
    ensures Num(now, b) == Num(was, b) * m + d
  {
    hide Num, Pow;
    NumSplit(now, j, b);
    NumSplit(was, j, b);
    NumZeros(was[..j], b);
  }

  /** There is no carry out of the first digit if the product fits. */
  lemma {:induction false} NoCarryLeft(now: seq<nat>, was: seq<nat>, b: nat, m: nat, d: nat, carry: nat)
    requires b >= 2 && Multiplied(now, was, b, m, d, 0, carry) && Num(was, b) * m + d < Pow(b, |was|)
    ensures carry == 0
  {
    hide Num, Pow;
    assert now[0..] == now && was[0..] == was;
    PowPositive(b, |now|);
    if carry > 0 { MulGrows(1, carry, Pow(b, |now|)); }
  }

  ghost predicate ZeroAbove(s: seq<nat>, length: nat) {
    length <= |s| && forall k | 0 <= k < |s| - length :: s[k] == 0
  }

  lemma {:induction false} LengthIs(now: seq<nat>, was: seq<nat>, b: nat, m: nat, d: nat, j: nat, length: nat)
    requires b >= 2 && m >= 1 && ZeroAbove(was, length) && HasLength(Num(was, b), b, length)
    requires j <= |was| - length && Multiplied(now, was, b, m, d, j, 0)
    requires |now| - j > length ==> now[j] != 0
    ensures Num(now, b) == Num(was, b) * m + d
    ensures ZeroAbove(now, |now| - j) && HasLength(Num(now, b), b, |now| - j)
  {
    hide Num, Pow;
    MultipliedDone(now, was, b, m, d, j);
    assert forall k | 0 <= k < j :: now[k] == was[..j][k];
    NumSplit(now, j, b);
    NumZeros(now[..j], b);
    NumBound(now[j..], b);
    if |now| - j > length {
      NumNonzero(now[j..], b);
    } else {
      MulGrows(1, m, Num(was, b));
    }
  }

  /** Multiply the digits in the buffer by `m` and add `d`, from the last digit; returns the number of digits. */
  method MultiplyAdd(buf: array<nat>, b: nat, m: nat, d: nat, length: nat) returns (len: nat)
    requires b >= 2 && m >= 1 && Digits(buf[..], b)
    requires ZeroAbove(buf[..], length) && HasLength(Num(buf[..], b), b, length)
    requires Num(buf[..], b) * m + d < Pow(b, buf.Length)
    modifies buf
    ensures Digits(buf[..], b) && Num(buf[..], b) == old(Num(buf[..], b)) * m + d
    ensures ZeroAbove(buf[..], len) && HasLength(Num(buf[..], b), b, len)
  {
    hide Num, Pow, Digits, HasLength, Multiplied;
    ghost var was := buf[..];
    var carry: nat, i := d, 0;
    MultipliedStart(was, b, m, d);
    while (carry != 0 || i < length) && i < buf.Length
      invariant 0 <= i <= buf.Length && Multiplied(buf[..], was, b, m, d, buf.Length - i, carry)
      invariant i > length && carry == 0 ==> buf[buf.Length - i] != 0
    {
      var j := buf.Length - i;
      MultipliedFacts(buf[..], was, b, m, d, j, carry);
      var n := carry + m * buf[j - 1];
      MultipliedNext(buf[..], was, b, m, d, j, carry, n);
      if i >= length && n / b == 0 { TopDigit(n, b, carry, m); }
      buf[j - 1] := n % b;
      carry := n / b;
      assert buf[..] == buf[..][j - 1 := n % b];
      i := i + 1;
    }
    if i == buf.Length { NoCarryLeft(buf[..], was, b, m, d, carry); }
    assert carry == 0;
    MultipliedDigits(buf[..], was, b, m, d, buf.Length - i);
    LengthIs(buf[..], was, b, m, d, buf.Length - i, length);
    len := i;
  }

  lemma {:induction false} MultipliedFacts(now: seq<nat>, was: seq<nat>, b: nat, m: nat, d: nat, j: nat, carry: nat)
    requires Multiplied(now, was, b, m, d, j, carry) && j > 0
    ensures j <= |now| == |was| && now[j - 1] == was[j - 1]
  {
    assert now[..j][j - 1] == was[..j][j - 1];
  }

  lemma {:induction false} MultipliedDigits(now: seq<nat>, was: seq<nat>, b: nat, m: nat, d: nat, j: nat)
    requires Multiplied(now, was, b, m, d, j, 0)
    ensures Digits(now, b)
  {}

  /** Where the digit was zero, a last carry becomes the top digit. */
  lemma {:induction false} TopDigit(n: nat, b: nat, carry: nat, m: nat)
    requires b >= 2 && n == carry + m * 0 && carry != 0 && n / b == 0
    ensures n % b != 0
  {}
}
