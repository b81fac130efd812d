/** Base58 strings: every leading zero byte is a '1', and the rest is one number. Bytes and characters are numbers below 256. */
module Base58 {
  import opened Wrappers
  import opened Limbs
  import opened Numerals

  // Characters.

  predicate IsSpace(c: nat) { c == 32 || 9 <= c <= 13 }

  const ONE: nat := 49

  /** The digit of a character, or -1: no 0, I, O and l. */
  function DigitOf(c: nat): int {
    if 49 <= c <= 57 then c - 49
    else if 65 <= c <= 72 then c - 56
    else if 74 <= c <= 78 then c - 57
    else if 80 <= c <= 90 then c - 58
    else if 97 <= c <= 107 then c - 64
    else if 109 <= c <= 122 then c - 65
    else -1
  }

  function CharOf(d: nat): nat {
    if d < 9 then d + 49
    else if d < 17 then d + 56
    else if d < 22 then d + 57
    else if d < 33 then d + 58
    else if d < 44 then d + 64
    else d + 65
  }

  lemma {:induction false} DigitOfChar(d: nat)
    requires d < 58
    ensures DigitOf(CharOf(d)) == d && CharOf(d) != 0 && !IsSpace(CharOf(d)) && (CharOf(d) == ONE <==> d == 0)
  {}

  lemma {:induction false} CharOfDigit(c: nat)
    requires DigitOf(c) != -1
    ensures 0 <= DigitOf(c) < 58 && CharOf(DigitOf(c)) == c && !IsSpace(c) && (c == ONE <==> DigitOf(c) == 0)
  {}

  /** Characters go up with their digits. */
  lemma {:induction false} CharsIncrease(d: nat, e: nat)
    requires d < e < 58
    ensures CharOf(d) < CharOf(e)
  {}

  /** The characters are the digits and letters other than 0, I, O and l; with their order, this determines the digit of each. */
  lemma {:induction false} CharsExactly(c: nat)
    ensures DigitOf(c) != -1 <==>
            (('0' as nat <= c <= '9' as nat) || ('A' as nat <= c <= 'Z' as nat) || ('a' as nat <= c <= 'z' as nat))
            && c != '0' as nat && c != 'I' as nat && c != 'O' as nat && c != 'l' as nat
    ensures DigitOf(c) != -1 <==> exists d: nat :: d < 58 && CharOf(d) == c
  {
    if DigitOf(c) != -1 { CharOfDigit(c); }
    if d: nat :| d < 58 && CharOf(d) == c { DigitOfChar(d); }
  }

  /** The characters that may surround a string: space, tab, line feed, vertical tab, form feed and carriage return. */
  lemma {:induction false} SpacesExactly(c: nat)
    ensures IsSpace(c) <==> c == ' ' as nat || c == '\t' as nat || c == '\n' as nat || c == 11 || c == 12 || c == '\r' as nat
  {}

  // The estimates of how much space is enough.

  lemma {:induction false} PowDouble(b: nat, n: nat, p: nat)
    requires Pow(b, n) == p
    ensures Pow(b, 2 * n) == p * p
  {
    PowAdd(b, n, n);
  }

  /** log(256) / log(58) is at most 11/8, which is below 1.38. */
  lemma {:induction false} PowersEncode()
    ensures Pow(256, 8) <= Pow(58, 11)
  {
    assert Pow(256, 1) == 256 && Pow(58, 1) == 58;
    PowDouble(256, 1, 256);
    PowDouble(256, 2, 65536);
    PowDouble(256, 4, 4294967296);
    PowDouble(58, 1, 58);
    PowDouble(58, 2, 3364);
    PowDouble(58, 4, 11316496);
    PowAdd(58, 8, 2);
    PowAdd(58, 10, 1);
  }

  /** log(58) / log(256) is at most 52/71, which is below 0.733. */
  lemma {:induction false} PowersDecode()
    ensures Pow(58, 71) <= Pow(256, 52)
  {
    hide Pow;
    PowOne(58);
    PowOne(256);
    PowDouble(58, 1, 58);
    PowDouble(58, 2, 3364);
    PowDouble(58, 4, 11316496);
    PowDouble(58, 8, 128063081718016);
    PowDouble(58, 16, 16400152899115243850138976256);
    PowDouble(58, 32, 268965015114358137726910587140455987105619365599731777536);
    PowAdd(58, 64, 4);
    PowAdd(58, 68, 2);
    PowAdd(58, 70, 1);
    PowDouble(256, 1, 256);
    PowDouble(256, 2, 65536);
    PowDouble(256, 4, 4294967296);
    PowDouble(256, 8, 18446744073709551616);
    PowDouble(256, 16, 340282366920938463463374607431768211456);
    PowAdd(256, 32, 16);
    PowAdd(256, 48, 4);
  }

  lemma {:induction false} PowOne(b: nat)
    ensures Pow(b, 1) == b
  {}

  lemma {:induction false} EncodeFits(n: nat)
    ensures Pow(256, n) < Pow(58, n * 138 / 100 + 1)
  {
    hide Pow;
    PowersEncode();
    PowSuffices(256, 58, 8, 11, n, n * 138 / 100 + 1);
  }

  lemma {:induction false} DecodeFits(n: nat)
    ensures Pow(58, n) < Pow(256, n * 733 / 1000 + 1)
  {
    hide Pow;
    PowersDecode();
    PowSuffices(58, 256, 71, 52, n, n * 733 / 1000 + 1);
  }

  // What the operations compute.

  /** The number of leading elements equal to `v`. */
  function Lead(s: seq<nat>, v: nat): (r: nat)
    ensures r <= |s| && (r < |s| ==> s[r] != v) && forall i | 0 <= i < r :: s[i] == v
  {
    if s == [] || s[0] != v then 0 else 1 + Lead(s[1..], v)
  }

  function Repeat(n: nat, v: nat): (r: seq<nat>)
    ensures |r| == n && forall i | 0 <= i < n :: r[i] == v
  {
    seq(n, _ => v)
  }

  function Chars(s: seq<nat>): (r: seq<nat>)
    ensures |r| == |s| && forall i | 0 <= i < |s| :: r[i] == CharOf(s[i])
  {
    seq(|s|, i requires 0 <= i < |s| => CharOf(s[i]))
  }

  ghost predicate AllDigits(s: seq<nat>) { forall i | 0 <= i < |s| :: DigitOf(s[i]) != -1 }

  function DigitsOf(s: seq<nat>): (r: seq<nat>)
    requires AllDigits(s)
    ensures |r| == |s| && forall i | 0 <= i < |s| :: r[i] == DigitOf(s[i])
  {
    seq(|s|, i requires 0 <= i < |s| => DigitOf(s[i]))
  }

  function EncodeOf(bytes: seq<nat>): seq<nat> {
    Repeat(Lead(bytes, 0), ONE) + Chars(ToDigits(Num(bytes, 256), 58))
  }

  function TrimLeft(s: seq<nat>): seq<nat> {
    if s != [] && IsSpace(s[0]) then TrimLeft(s[1..]) else s
  }

  function TrimRight(s: seq<nat>): seq<nat> {
    if s != [] && IsSpace(s[|s| - 1]) then TrimRight(s[..|s| - 1]) else s
  }

  function Trim(s: seq<nat>): seq<nat> { TrimRight(TrimLeft(s)) }

  function BytesOf(digits: seq<nat>): seq<nat> {
    Repeat(Lead(digits, 0), 0) + ToDigits(Num(digits, 58), 256)
  }

  ghost function DecodeOf(s: seq<nat>, limit: int): Option<seq<nat>> {
    var t := Trim(s);
    if 0 in s || !AllDigits(t) then None
    else Within(BytesOf(DigitsOf(t)), limit)
  }

  function Within(bytes: seq<nat>, limit: int): Option<seq<nat>> {
    if bytes != [] && |bytes| > limit then None else Some(bytes)
  }

  // What holds of them.

  /** The digits of a number with leading zeros are what follows them. */
  lemma {:induction false} StripLead(s: seq<nat>, b: nat)
    requires b >= 2 && Digits(s, b)
    ensures ToDigits(Num(s, b), b) == s[Lead(s, 0)..] && Num(s, b) == Num(s[Lead(s, 0)..], b)
  {
    hide Num, ToDigits, Pow;
    var z := Lead(s, 0);
    NumSplit(s, z, b);
    NumZeros(s[..z], b);
    DigitsUnique(s[z..], b);
  }

  lemma {:induction false} LeadUnique(s: seq<nat>, v: nat, z: nat)
    requires z <= |s| && (z < |s| ==> s[z] != v) && forall i | 0 <= i < z :: s[i] == v
    ensures Lead(s, v) == z
  {}

  lemma {:induction false} LeadIs(z: nat, t: seq<nat>, v: nat)
    requires t != [] ==> t[0] != v
    ensures Lead(Repeat(z, v) + t, v) == z
  {
    hide Lead;
    var s := Repeat(z, v) + t;
    LeadUnique(s, v, z);
  }

  /** Zeros in front of the digits of a number in another base give it back. */
  lemma {:induction false} Restored(z: nat, n: nat, b: nat)
    requires b >= 2
    ensures var s := Repeat(z, 0) + ToDigits(n, b);
            Digits(s, b) && Lead(s, 0) == z && Num(s, b) == n
  {
    hide Num, ToDigits, Lead;
    var t := ToDigits(n, b);
    ToDigitsNum(n, b);
    if n == 0 { NoDigits(b); }
    LeadIs(z, t, 0);
    var s := Repeat(z, 0) + t;
    StripLead(s, b);
    assert s[z..] == t;
  }

  lemma {:induction false} NoDigits(b: nat)
    requires b >= 2
    ensures ToDigits(0, b) == []
  {}

  /** The digits of an encoded string. */
  lemma {:induction false} EncodedDigits(bytes: seq<nat>)
    requires Digits(bytes, 256)
    ensures var s := EncodeOf(bytes);
            && AllDigits(s) && 0 !in s && Trim(s) == s
            && DigitsOf(s) == Repeat(Lead(bytes, 0), 0) + ToDigits(Num(bytes, 256), 58)
  {
    hide Num, ToDigits, Lead, DigitOf, CharOf, IsSpace;
    var z, t := Lead(bytes, 0), ToDigits(Num(bytes, 256), 58);
    var s := EncodeOf(bytes);
    var d := Repeat(z, 0) + t;
    ToDigitsNum(Num(bytes, 256), 58);
    DigitOfChar(0);
    assert CharOf(0) == ONE;
    forall i | 0 <= i < |s| ensures DigitOf(s[i]) == d[i] && s[i] != 0 && !IsSpace(s[i]) {
      assert s[i] == CharOf(d[i]);
      DigitOfChar(d[i]);
    }
  }

  /** Decoding undoes encoding, exactly within the limit. */
  lemma {:induction false} DecodeUndoesEncode(bytes: seq<nat>, limit: int)
    requires Digits(bytes, 256)
    ensures DecodeOf(EncodeOf(bytes), limit) == Within(bytes, limit)
  {
    hide Num, ToDigits, Lead, EncodeOf, Trim;
    var n := Num(bytes, 256);
    EncodedDigits(bytes);
    Restored(Lead(bytes, 0), n, 58);
    StripLead(bytes, 256);
    assert Repeat(Lead(bytes, 0), 0) + bytes[Lead(bytes, 0)..] == bytes;
  }

  /** What decodes is what encoding gives, but for spaces around it. */
  lemma {:induction false} EncodeUndoesDecode(s: seq<nat>, limit: int, bytes: seq<nat>)
    requires DecodeOf(s, limit) == Some(bytes)
    ensures Digits(bytes, 256) && EncodeOf(bytes) == Trim(s)
  {
    hide Num, ToDigits, Lead, Trim, DigitOf, CharOf;
    var t := Trim(s);
    var d := DigitsOf(t);
    forall i | 0 <= i < |t| ensures 0 <= d[i] < 58 && CharOf(d[i]) == t[i] && (t[i] == ONE <==> d[i] == 0) { CharOfDigit(t[i]); }
    StripLead(d, 58);
    Restored(Lead(d, 0), Num(d, 58), 256);
    var z := Lead(d, 0);
    assert EncodeOf(bytes) == Repeat(z, ONE) + Chars(d[z..]);
  }

  /** A buffer holds a number of known length: its digits are the last ones. */
  lemma {:induction false} BufferDigits(s: seq<nat>, b: nat, length: nat)
    requires b >= 2 && Digits(s, b) && ZeroAbove(s, length) && HasLength(Num(s, b), b, length)
    ensures length <= |s| && s[|s| - length..] == ToDigits(Num(s, b), b)
    ensures length > 0 ==> s[|s| - length] != 0
  {
    hide Num, ToDigits, Pow;
    var j := |s| - length;
    if length > 0 {
      NumSplit(s, j + 1, b);
      NumBound(s[j + 1..], b);
      if s[j] == 0 { NumZeros(s[..j + 1], b); }
    }
    StripLead(s, b);
    LeadUnique(s, 0, j);
  }

  // The operations, step by step.

  method LeadingCount(s: seq<nat>, v: nat) returns (z: nat)
    ensures z == Lead(s, v)
  {
    z := 0;
    while z < |s| && s[z] == v
      invariant z <= |s| && forall i | 0 <= i < z :: s[i] == v
    {
      z := z + 1;
    }
    LeadUnique(s, v, z);
  }

  lemma {:induction false} EmptyBuffer(s: seq<nat>, b: nat)
    requires b >= 2 && forall i | 0 <= i < |s| :: s[i] == 0
    ensures Digits(s, b) && ZeroAbove(s, 0) && Num(s, b) == 0 && HasLength(Num(s, b), b, 0)
  {
    NumZeros(s, b);
  }

  /** The number so far and the next digit fit in the buffer. */
  lemma {:induction false} NextFits(digits: seq<nat>, m: nat, i: nat, limit: nat)
    requires m >= 1 && Digits(digits, m) && i < |digits| && Pow(m, |digits|) < limit
    ensures Num(digits[..i + 1], m) == Num(digits[..i], m) * m + digits[i]
    ensures Num(digits[..i], m) * m + digits[i] < limit
  {
    assert digits[..i + 1][..i] == digits[..i];
    NumBound(digits[..i + 1], m);
    PowGrows(m, i + 1, |digits|);
  }

  method EncodeBase58(input: seq<nat>) returns (s: seq<nat>)
    requires Digits(input, 256)
    ensures s == EncodeOf(input)
  {
    hide Num, ToDigits, Pow, HasLength, ZeroAbove, Lead;
    var zeroes := LeadingCount(input, 0);
    var rest := input[zeroes..];
    var size := |rest| * 138 / 100 + 1;
    var b58 := new nat[size](_ => 0);
    EmptyBuffer(b58[..], 58);
    EncodeFits(|rest|);
    var length := 0;
    NumNone(256);
    for i := 0 to |rest|
      invariant Digits(b58[..], 58) && ZeroAbove(b58[..], length) && HasLength(Num(b58[..], 58), 58, length)
      invariant Num(b58[..], 58) == Num(rest[..i], 256)
    {
      NextFits(rest, 256, i, Pow(58, size));
      length := MultiplyAdd(b58, 58, 256, rest[i], length);
    }
    assert rest[..|rest|] == rest;
    StripLead(input, 256);
    StripLead(b58[..], 58);
    s := Written(zeroes, b58[..], length);
  }

  lemma {:induction false} NumNone(b: nat)
    ensures Num([], b) == 0
  {}

  /** The string of the digits in the buffer, behind the ones. */
  method Written(zeroes: nat, b58: seq<nat>, length: nat) returns (s: seq<nat>)
    requires ZeroAbove(b58, length)
    ensures s == Repeat(zeroes, ONE) + Chars(b58[Lead(b58, 0)..])
  {
    hide CharOf, Lead;
    var it := |b58| - length;
    while it != |b58| && b58[it] == 0
      invariant |b58| - length <= it <= |b58| && forall k | |b58| - length <= k < it :: b58[k] == 0
      decreases |b58| - it
    {
      it := it + 1;
    }
    LeadUnique(b58, 0, it);
    ghost var start := it;
    s := Repeat(zeroes, ONE);
    while it != |b58|
      invariant start <= it <= |b58| && s == Repeat(zeroes, ONE) + Chars(b58[start..it])
      decreases |b58| - it
    {
      s := s + [CharOf(b58[it])];
      it := it + 1;
    }
    assert b58[start..|b58|] == b58[start..];
  }

  // Spaces.

  lemma {:induction false} TrimLeftIs(s: seq<nat>, p: nat)
    requires p <= |s| && (forall i | 0 <= i < p :: IsSpace(s[i])) && (p < |s| ==> !IsSpace(s[p]))
    ensures TrimLeft(s) == s[p..]
    decreases p
  {
    hide IsSpace;
    if p > 0 {
      TrimLeftIs(s[1..], p - 1);
      assert s[1..][p - 1..] == s[p..];
    }
  }

  lemma {:induction false} TrimRightKeeps(t: seq<nat>, k: nat)
    requires k < |t| && !IsSpace(t[k])
    ensures t[..k + 1] <= TrimRight(t)
    decreases |t|
  {
    hide IsSpace;
    if IsSpace(t[|t| - 1]) {
      TrimRightKeeps(t[..|t| - 1], k);
      assert t[..|t| - 1][..k + 1] == t[..k + 1];
    }
  }

  lemma {:induction false} TrimRightIs(t: seq<nat>, q: nat)
    requires q <= |t| && (forall i | q <= i < |t| :: IsSpace(t[i])) && (q > 0 ==> !IsSpace(t[q - 1]))
    ensures TrimRight(t) == t[..q]
    decreases |t|
  {
    hide IsSpace;
    if q < |t| {
      TrimRightIs(t[..|t| - 1], q);
      assert t[..|t| - 1][..q] == t[..q];
    } else {
      assert t[..q] == t;
    }
  }

  /** Everything between two characters that are not spaces stays. */
  lemma {:induction false} TrimHolds(s: seq<nat>, p: nat, k: nat)
    requires p <= k < |s| && (forall i | 0 <= i < p :: IsSpace(s[i])) && !IsSpace(s[p]) && !IsSpace(s[k])
    ensures s[p..k + 1] <= Trim(s)
  {
    hide IsSpace, TrimLeft, TrimRight;
    TrimLeftIs(s, p);
    var t := s[p..];
    TrimRightKeeps(t, k - p);
    assert t[..k - p + 1] == s[p..k + 1];
  }

  lemma {:induction false} TrimIs(s: seq<nat>, p: nat, q: nat)
    requires p <= q <= |s| && (forall i | 0 <= i < p :: IsSpace(s[i])) && (p < |s| ==> !IsSpace(s[p]))
    requires (forall i | q <= i < |s| :: IsSpace(s[i])) && (q > p ==> !IsSpace(s[q - 1]))
    ensures Trim(s) == s[p..q]
  {
    hide IsSpace, TrimLeft, TrimRight;
    TrimLeftIs(s, p);
    var t := s[p..];
    TrimRightIs(t, q - p);
    assert t[..q - p] == s[p..q];
  }

  // Decoding, step by step.

  /** A character that is not a digit, between two that are not spaces, cannot be decoded. */
  lemma {:induction false} NotDecoded(s: seq<nat>, limit: int, p: nat, bad: nat, k: nat)
    requires p <= bad <= k < |s| && (forall i | 0 <= i < p :: IsSpace(s[i])) && !IsSpace(s[p]) && !IsSpace(s[k])
    requires DigitOf(s[bad]) == -1
    ensures DecodeOf(s, limit) == None
  {
    hide IsSpace, DigitOf, Trim, BytesOf;
    TrimHolds(s, p, k);
    assert s[p..k + 1][bad - p] == s[bad] && Trim(s)[bad - p] == s[bad];
  }

  /** A longer number needs at least as many digits. */
  lemma {:induction false} LengthGrows(n: nat, m: nat, b: nat, length: nat)
    requires b >= 2 && n <= m && HasLength(n, b, length)
    ensures |ToDigits(m, b)| >= length
  {
    hide Num, Pow, ToDigits;
    ToDigitsNum(m, b);
    var t := ToDigits(m, b);
    NumBound(t, b);
    if |t| < length { PowGrows(b, |t|, length - 1); }
  }

  /** More digits never make a smaller number. */
  lemma {:induction false} NumPrefix(d: seq<nat>, k: nat, b: nat)
    requires b >= 1 && k <= |d|
    ensures Num(d[..k], b) <= Num(d, b)
  {
    hide Num, Pow;
    NumSplit(d, k, b);
    PowPositive(b, |d| - k);
    MulGrows(1, Pow(b, |d| - k), Num(d[..k], b));
  }

  /** A prefix that already needs too many bytes decides. */
  lemma {:induction false} TooLong(s: seq<nat>, limit: int, p: nat, zeroes: nat, k: nat, length: nat)
    requires p <= k < |s| && (forall i | 0 <= i < p :: IsSpace(s[i])) && !IsSpace(s[p]) && !IsSpace(s[k]) && AllDigits(s[p..k + 1])
    requires zeroes <= Lead(DigitsOf(s[p..k + 1]), 0) && HasLength(Num(DigitsOf(s[p..k + 1]), 58), 256, length)
    requires zeroes + length > 0 && zeroes + length > limit
    ensures DecodeOf(s, limit) == None
  {
    hide IsSpace, DigitOf, Trim, Num, ToDigits, HasLength, Lead;
    TrimHolds(s, p, k);
    var t := Trim(s);
    if AllDigits(t) {
      var d, e := DigitsOf(t), DigitsOf(s[p..k + 1]);
      assert d[..|e|] == e;
      NumPrefix(d, |e|, 58);
      LengthGrows(Num(e, 58), Num(d, 58), 256, length);
      LeadPrefix(d, |e|);
    }
  }

  lemma {:induction false} LeadPrefix(d: seq<nat>, k: nat)
    requires k <= |d|
    ensures Lead(d[..k], 0) <= Lead(d, 0)
  {
    hide Lead;
    var a, b := Lead(d[..k], 0), Lead(d, 0);
    assert b < k ==> d[..k][b] == d[b];
  }

  method SkipSpaces(s: seq<nat>, start: nat) returns (p: nat)
    requires start <= |s|
    ensures start <= p <= |s| && (forall i | start <= i < p :: IsSpace(s[i])) && (p < |s| ==> !IsSpace(s[p]))
  {
    p := start;
    while p < |s| && IsSpace(s[p])
      invariant start <= p <= |s| && forall i | start <= i < p :: IsSpace(s[i])
    {
      p := p + 1;
    }
  }

  /** Skip and count the leading ones; nothing if there are too many. */
  method SkipOnes(s: seq<nat>, p: nat, limit: int) returns (r: Option<nat>)
    requires p <= |s| && (forall i | 0 <= i < p :: IsSpace(s[i])) && (p < |s| ==> !IsSpace(s[p]))
    ensures r.None? ==> DecodeOf(s, limit) == None
    ensures r.Some? ==> r.value <= |s| - p && r.value == Lead(s[p..], ONE) && (r.value > 0 ==> r.value <= limit)
  {
    hide DecodeOf, Lead;
    var z := 0;
    while p + z < |s| && s[p + z] == ONE
      invariant p + z <= |s| && (z > 0 ==> z <= limit) && forall i | p <= i < p + z :: s[i] == ONE
    {
      if z + 1 > limit {
        ManyOnes(s, limit, p, z);
        return None;
      }
      z := z + 1;
    }
    LeadUnique(s[p..], ONE, z);
    return Some(z);
  }

  lemma {:induction false} ManyOnes(s: seq<nat>, limit: int, p: nat, z: nat)
    requires p + z < |s| && (forall i | 0 <= i < p :: IsSpace(s[i])) && (forall i | p <= i <= p + z :: s[i] == ONE) && z + 1 > limit
    ensures DecodeOf(s, limit) == None
  {
    hide Num, ToDigits, Lead, DecodeOf;
    var t := s[p..p + z + 1];
    var d := DigitsOf(t);
    NumZeros(d, 58);
    LeadUnique(d, 0, z + 1);
    assert HasLength(0, 256, 0);
    TooLong(s, limit, p, z + 1, p + z, 0);
  }

  /** The place of the ones and the digits that follow them, behind leading spaces. */
  ghost predicate Reading(s: seq<nat>, p: nat, z: nat, q: nat) {
    && p + z <= q <= |s| && (forall i | 0 <= i < p :: IsSpace(s[i])) && (p < |s| ==> !IsSpace(s[p]))
    && AllDigits(s[p..q]) && z == Lead(s[p..], ONE)
  }

  ghost function Value(s: seq<nat>, p: nat, q: nat): nat
    requires p <= q <= |s| && AllDigits(s[p..q])
  {
    Num(DigitsOf(s[p..q]), 58)
  }

  lemma {:induction false} ReadingStart(s: seq<nat>, p: nat, z: nat)
    requires p <= |s| && (forall i | 0 <= i < p :: IsSpace(s[i])) && (p < |s| ==> !IsSpace(s[p])) && z == Lead(s[p..], ONE)
    ensures Reading(s, p, z, p + z) && ReadingAt(s, p, p + z) && Value(s, p, p + z) == 0
  {
    hide IsSpace, Lead, Num;
    assert forall i | 0 <= i < z :: s[p..p + z][i] == s[p..][i] == ONE;
    NumZeros(DigitsOf(s[p..p + z]), 58);
  }

  lemma {:induction false} ReadingNext(s: seq<nat>, p: nat, z: nat, q: nat)
    requires Reading(s, p, z, q) && q < |s| && DigitOf(s[q]) != -1
    ensures Reading(s, p, z, q + 1) && ReadingAt(s, p, q) && ReadingAt(s, p, q + 1) && 0 <= DigitOf(s[q]) < 58
    ensures Value(s, p, q + 1) == Value(s, p, q) * 58 + DigitOf(s[q]) > 0
    ensures Value(s, p, q + 1) < Pow(58, q + 1 - p - z)
  {
    hide IsSpace, Lead, DigitOf, Pow, Num;
    var t, u := s[p..q], s[p..q + 1];
    assert u == t + [s[q]];
    forall i | 0 <= i < |u| ensures DigitOf(u[i]) != -1 { if i < |t| { assert u[i] == t[i]; } }
    CharOfDigit(s[q]);
    var d := DigitsOf(u);
    assert d[..|t|] == DigitsOf(t) && d[|t|] == DigitOf(s[q]);
    NumNext(d, 58);
    ReadingBound(s, p, z, q + 1);
  }

  lemma {:induction false} ReadingBound(s: seq<nat>, p: nat, z: nat, q: nat)
    requires Reading(s, p, z, q) && p + z < q
    ensures 0 < Value(s, p, q) < Pow(58, q - p - z)
  {
    hide IsSpace, Lead, DigitOf, Pow, Num, ToDigits;
    var t := s[p..q];
    var d := DigitsOf(t);
    ReadingLead(s, p, z, q);
    forall i | 0 <= i < |t| ensures d[i] < 58 { CharOfDigit(t[i]); }
    StripLead(d, 58);
    NumBound(d[z..], 58);
    NumNonzero(d[z..], 58);
  }

  lemma {:induction false} ReadingLead(s: seq<nat>, p: nat, z: nat, q: nat)
    requires Reading(s, p, z, q)
    ensures Lead(DigitsOf(s[p..q]), 0) == z
  {
    hide IsSpace, Lead, DigitOf;
    var t := s[p..q];
    forall i | 0 <= i < |t| ensures t[i] == s[p..][i] && (t[i] == ONE <==> DigitOf(t[i]) == 0) { CharOfDigit(t[i]); }
    LeadUnique(DigitsOf(t), 0, z);
  }

  /** All of the text has been read. */
  lemma {:induction false} ReadingDone(s: seq<nat>, limit: int, p: nat, z: nat, q: nat)
    requires Reading(s, p, z, q) && 0 !in s && (forall i | q <= i < |s| :: IsSpace(s[i]))
    ensures DecodeOf(s, limit) == Within(Repeat(z, 0) + ToDigits(Value(s, p, q), 256), limit)
  {
    hide IsSpace, Lead, DigitOf, Num, ToDigits, Trim;
    ReadingLead(s, p, z, q);
    if q > p {
      assert s[q - 1] == s[p..q][q - 1 - p];
      CharOfDigit(s[q - 1]);
    }
    TrimIs(s, p, q);
  }

  lemma {:induction false} ReadingTooLong(s: seq<nat>, limit: int, p: nat, z: nat, q: nat, length: nat)
    requires Reading(s, p, z, q + 1) && q < |s| && p <= q && HasLength(Value(s, p, q + 1), 256, length) && Value(s, p, q + 1) > 0
    requires length + z > limit
    ensures DecodeOf(s, limit) == None
  {
    hide IsSpace, Lead, DigitOf, Num, DecodeOf;
    ReadingLead(s, p, z, q + 1);
    assert s[q] == s[p..q + 1][q - p];
    CharOfDigit(s[q]);
    TooLong(s, limit, p, z, q, length);
  }

  lemma {:induction false} ReadingFails(s: seq<nat>, limit: int, p: nat, z: nat, q: nat, k: nat)
    requires Reading(s, p, z, q) && q <= k < |s| && DigitOf(s[q]) == -1 && !IsSpace(s[k])
    ensures DecodeOf(s, limit) == None
  {
    hide Lead, DigitOf, DecodeOf;
    NotDecoded(s, limit, p, q, k);
  }

  lemma {:induction false} SpaceNoDigit(c: nat)
    requires IsSpace(c)
    ensures DigitOf(c) == -1
  {}

  method DecodeBase58(s: seq<nat>, limit: int) returns (r: Option<seq<nat>>)
    ensures r == DecodeOf(s, limit)
  {
    hide Num, ToDigits, Pow, HasLength, ZeroAbove, Lead, Reading, Value, DigitOf, DecodeOf, IsSpace;
    if 0 in s {
      HasNul(s, limit);
      return None;
    }
    var p := SkipSpaces(s, 0);
    var ones := SkipOnes(s, p, limit);
    if ones == None { return None; }
    var zeroes := ones.value;
    ReadingStart(s, p, zeroes);
    var q, b256, length := ReadDigits(s, p, zeroes, limit);
    if length == None { return None; }
    var rest := SkipSpaces(s, q);
    if rest != |s| {
      SpaceNoDigit(s[q]);
      ReadingFails(s, limit, p, zeroes, q, rest);
      return None;
    }
    ReadingDone(s, limit, p, zeroes, q);
    BufferDigits(b256[..], 256, length.value);
    return Some(Repeat(zeroes, 0) + b256[b256.Length - length.value..]);
  }

  /** Read digits into a buffer of bytes; no length if they cannot be decoded. */
  method ReadDigits(s: seq<nat>, p: nat, zeroes: nat, limit: int) returns (q: nat, b256: array<nat>, length: Option<nat>)
    requires p + zeroes <= |s| && Reading(s, p, zeroes, p + zeroes) && ReadingAt(s, p, p + zeroes) && Value(s, p, p + zeroes) == 0
    ensures fresh(b256)
    ensures length.None? ==> DecodeOf(s, limit) == None
    ensures length.Some? ==>
              && Reading(s, p, zeroes, q) && ReadingAt(s, p, q) && (q < |s| ==> IsSpace(s[q]))
              && (if q > p + zeroes then length.value + zeroes <= limit else length.value == 0)
              && Digits(b256[..], 256) && Num(b256[..], 256) == Value(s, p, q)
              && ZeroAbove(b256[..], length.value) && HasLength(Num(b256[..], 256), 256, length.value)
  {
    hide Num, ToDigits, Pow, HasLength, ZeroAbove, Lead, Reading, Value, DigitOf, DecodeOf, IsSpace, Digits;
    var n := |s| - p - zeroes;
    b256 := new nat[n * 733 / 1000 + 1](_ => 0);
    EmptyBuffer(b256[..], 256);
    DecodeFits(n);
    var len: nat := 0;
    q := p + zeroes;
    while q < |s| && !IsSpace(s[q])
      invariant p + zeroes <= q <= |s| && Reading(s, p, zeroes, q) && ReadingAt(s, p, q)
      invariant if q > p + zeroes then len + zeroes <= limit else len == 0
      invariant Digits(b256[..], 256) && Num(b256[..], 256) == Value(s, p, q)
      invariant ZeroAbove(b256[..], len) && HasLength(Num(b256[..], 256), 256, len)
    {
      var digit := DigitOf(s[q]);
      if digit == -1 {
        ReadingFails(s, limit, p, zeroes, q, q);
        return q, b256, None;
      }
      ReadingNext(s, p, zeroes, q);
      PowGrows(58, q + 1 - p - zeroes, n);
      len := MultiplyAdd(b256, 256, 58, digit, len);
      if len + zeroes > limit {
        ReadingTooLong(s, limit, p, zeroes, q, len);
        return q, b256, None;
      }
      q := q + 1;
    }
    length := Some(len);
  }

  ghost predicate ReadingAt(s: seq<nat>, p: nat, q: nat) {
    p <= q <= |s| && AllDigits(s[p..q])
  }

  lemma {:induction false} HasNul(s: seq<nat>, limit: int)
    requires 0 in s
    ensures DecodeOf(s, limit) == None
  {}
}
