/** Bech32 and Bech32m strings: a readable part, a separator, and data with a checksum. Characters are bytes. */
module Bech32Strings {
  import opened Wrappers
  import opened Bech32Checksums
  import opened Bech32Characters
  import opened Bech32Polynomials

  datatype Encoding = Bech32 | Bech32m

  datatype Decoded = Decoded(encoding: Encoding, hrp: seq<bv8>, data: seq<bv8>)

  function Constant(e: Encoding): bv32 {
    if e == Bech32 then 1 else 0x2bc8_30a3
  }

  const ZEROS: seq<bv8> := [0, 0, 0, 0, 0, 0]

  // What the operations compute.

  function High(c: bv8): bv8 { c >> 5 }
  function Low(c: bv8): bv8 { c & 31 }

  function Highs(hrp: seq<bv8>): (r: seq<bv8>)
    ensures |r| == |hrp| && forall i | 0 <= i < |hrp| :: r[i] == High(hrp[i])
  {
    seq(|hrp|, i requires 0 <= i < |hrp| => High(hrp[i]))
  }

  function Lows(hrp: seq<bv8>): (r: seq<bv8>)
    ensures |r| == |hrp| && forall i | 0 <= i < |hrp| :: r[i] == Low(hrp[i])
  {
    seq(|hrp|, i requires 0 <= i < |hrp| => Low(hrp[i]))
  }

  /** The coefficients of the readable part and the data. */
  function Coefficients(hrp: seq<bv8>, values: seq<bv8>): seq<bv8> {
    Highs(hrp) + [0] + Lows(hrp) + values
  }

  function Checksum(e: Encoding, hrp: seq<bv8>, values: seq<bv8>): seq<bv8> {
    Groups(Xor(Fold(1, Coefficients(hrp, values) + ZEROS), Constant(e)))
  }

  function Chars(v: seq<bv8>): (r: seq<bv8>)
    ensures |r| == |v| && forall i | 0 <= i < |v| :: r[i] == CharOf(v[i])
  {
    seq(|v|, i requires 0 <= i < |v| => CharOf(v[i]))
  }

  function LowerAll(s: seq<bv8>): (r: seq<bv8>)
    ensures |r| == |s| && forall i | 0 <= i < |s| :: r[i] == LowerCase(s[i])
  {
    seq(|s|, i requires 0 <= i < |s| => LowerCase(s[i]))
  }

  function SymbolsOf(s: seq<bv8>): (r: seq<bv8>)
    ensures |r| == |s| && forall i | 0 <= i < |s| :: r[i] == SymbolOf(s[i])
  {
    seq(|s|, i requires 0 <= i < |s| => SymbolOf(s[i]))
  }

  function EncodeOf(e: Encoding, hrp: seq<bv8>, values: seq<bv8>): seq<bv8> {
    hrp + [SEPARATOR] + Chars(values + Checksum(e, hrp, values))
  }

  /** The encoding a checksum is valid for, if any. */
  function Verified(hrp: seq<bv8>, values: seq<bv8>): Option<Encoding> {
    var check := Fold(1, Coefficients(hrp, values));
    if check == Constant(Bech32) then Some(Bech32)
    else if check == Constant(Bech32m) then Some(Bech32m)
    else None
  }

  /** Printable characters, not of both cases. */
  ghost predicate Clean(s: seq<bv8>) {
    && (forall i | 0 <= i < |s| :: Printable(s[i]))
    && ((forall i | 0 <= i < |s| :: !IsUpper(s[i])) || (forall i | 0 <= i < |s| :: !IsLower(s[i])))
  }

  /** The last separator, or -1. */
  function LastSeparator(s: seq<bv8>): (r: int)
    ensures -1 <= r < |s|
    ensures r >= 0 ==> s[r] == SEPARATOR
    ensures forall i | r < i < |s| :: s[i] != SEPARATOR
  {
    if s == [] then -1 else if s[|s| - 1] == SEPARATOR then |s| - 1 else LastSeparator(s[..|s| - 1])
  }

  ghost function DecodeOf(s: seq<bv8>, limit: nat): Option<Decoded> {
    var pos := LastSeparator(s);
    if !Clean(s) || |s| > limit || pos <= 0 || pos + 6 >= |s| then None
    else DecodeAt(s, pos)
  }

  ghost function DecodeAt(s: seq<bv8>, pos: nat): Option<Decoded>
    requires pos + 6 < |s|
  {
    var hrp, values := LowerAll(s[..pos]), SymbolsOf(s[pos + 1..]);
    if !Symbols(values) then None
    else match Verified(hrp, values)
      case None => None
      case Some(e) => Some(Decoded(e, hrp, values[..|values| - 6]))
  }

  // What holds of them.

  lemma {:induction false} CoefficientSymbols(hrp: seq<bv8>, values: seq<bv8>)
    requires Symbols(values)
    ensures Symbols(Coefficients(hrp, values))
  {
    forall i | 0 <= i < |hrp| ensures Highs(hrp)[i] < 32 && Lows(hrp)[i] < 32 { HighLow(hrp[i]); }
  }

  lemma {:induction false} HighLow(c: bv8)
    ensures High(c) < 32 && Low(c) < 32
  {}

  /** The last six symbols decide the remainder as they are. */
  lemma {:induction false} LastSix(hrp: seq<bv8>, values: seq<bv8>, six: seq<bv8>)
    requires |six| == 6
    ensures Fold(1, Coefficients(hrp, values + six)) == Xor(Fold(1, Coefficients(hrp, values) + ZEROS), Fold(0, six))
  {
    hide Fold, Xor;
    var c := Coefficients(hrp, values);
    assert Coefficients(hrp, values + six) == c + six;
    FoldSplit(1, c, six);
    FoldSplit(1, c, ZEROS);
    var m := Fold(1, c);
    FoldLinear(m, 0, ZEROS, six);
    XorSame(m);
    assert XorAll(ZEROS, six) == six by { NothingChanged(six); }
  }

  lemma {:induction false} NothingChanged(six: seq<bv8>)
    requires |six| == 6
    ensures XorAll(ZEROS, six) == six
  {
    forall i | 0 <= i < 6 ensures XorAll(ZEROS, six)[i] == six[i] { ZeroXor(six[i]); }
  }

  lemma {:induction false} ZeroXor(v: bv8)
    ensures 0 ^ v == v
  {}

  lemma {:induction false} ConstantSmall(e: Encoding, m: bv32)
    requires m < 0x4000_0000
    ensures Xor(m, Constant(e)) < 0x4000_0000 && Xor(m, Xor(m, Constant(e))) == Constant(e)
  {}

  lemma {:induction false} ModSmall(hrp: seq<bv8>, values: seq<bv8>)
    requires Symbols(values)
    ensures Fold(1, Coefficients(hrp, values) + ZEROS) < 0x4000_0000
  {
    hide Fold;
    CoefficientSymbols(hrp, values);
    FoldBound(1, Coefficients(hrp, values) + ZEROS);
  }

  /** The checksum makes the string valid for its encoding. */
  lemma {:induction false} ChecksumVerifies(e: Encoding, hrp: seq<bv8>, values: seq<bv8>)
    requires Symbols(values)
    ensures var six := Checksum(e, hrp, values);
            |six| == 6 && Symbols(six) && Verified(hrp, values + six) == Some(e)
  {
    hide Fold, Xor;
    var m, six := Fold(1, Coefficients(hrp, values) + ZEROS), Checksum(e, hrp, values);
    ModSmall(hrp, values);
    ConstantSmall(e, m);
    GroupsFold(Xor(m, Constant(e)));
    GroupsSymbols(Xor(m, Constant(e)));
    LastSix(hrp, values, six);
  }

  /** The remainders, as coefficients, that make a string valid. */
  function Residue(e: Encoding): seq<bv8> {
    if e == Bech32 then [0, 0, 0, 0, 0, 1] else [21, 28, 16, 12, 5, 3]
  }

  lemma {:induction false} ConstantGroups(e: Encoding)
    ensures Groups(Constant(e)) == Residue(e) && Constant(e) < 0x4000_0000 && Constant(Bech32) != Constant(Bech32m)
  {
    var m: bv32 := 0x2bc8_30a3;
    assert Lowest(m >> 25) == 21 && Lowest(m >> 20) == 28 && Lowest(m >> 15) == 16 && Lowest(m >> 10) == 12 && Lowest(m >> 5) == 5 && Lowest(m) == 3;
    LowestLiterals();
    assert Groups(1) == [0, 0, 0, 0, 0, 1];
  }

  /** A string is valid for an encoding exactly if dividing its polynomial by the generator leaves 1, or what Bech32m asks for. */
  lemma {:induction false} VerifiedExactly(e: Encoding, hrp: seq<bv8>, values: seq<bv8>)
    requires Symbols(values)
    ensures Verified(hrp, values) == Some(e) <==> exists q :: Symbols(q) && Divides(Coefficients(hrp, values), q, Residue(e))
    ensures Verified(hrp, values) == Some(e) <==> Fold(1, Coefficients(hrp, values)) == if e == Bech32 then 1 else 0x2bc8_30a3
  {
    hide Fold, Groups, Divides, Product;
    var v := Coefficients(hrp, values);
    var m := Fold(1, v);
    CoefficientSymbols(hrp, values);
    FoldBound(1, v);
    ConstantGroups(e);
    ConstantGroups(Bech32);
    var p := FoldDivides(v);
    if q :| Symbols(q) && Divides(v, q, Residue(e)) {
      RemainderUnique(v, q, Residue(e));
      GroupsFold(m);
      GroupsFold(Constant(e));
    }
  }

  /** No other six symbols do. */
  lemma {:induction false} ChecksumUnique(e: Encoding, hrp: seq<bv8>, values: seq<bv8>, six: seq<bv8>)
    requires Symbols(values) && Symbols(six) && |six| == 6 && Verified(hrp, values + six) == Some(e)
    ensures six == Checksum(e, hrp, values)
  {
    hide Fold, Xor, Groups;
    var m := Fold(1, Coefficients(hrp, values) + ZEROS);
    LastSix(hrp, values, six);
    XorSolve(m, Fold(0, six));
    FoldGroups(six);
  }

  lemma {:induction false} XorSolve(m: bv32, x: bv32)
    ensures x == Xor(m, Xor(m, x))
  {}

  /** Data changed within six consecutive places is never valid for the same encoding. */
  lemma {:induction false} ChangedDataDetected(hrp: seq<bv8>, v: seq<bv8>, w: seq<bv8>, k: nat)
    requires Symbols(v) && Symbols(w) && |v| == |w| && v != w
    requires forall i | 0 <= i < |v| && (i < k || k + 6 <= i) :: v[i] == w[i]
    ensures Verified(hrp, v).Some? ==> Verified(hrp, w) != Verified(hrp, v)
  {
    hide Fold;
    var c := Coefficients(hrp, []);
    assert Coefficients(hrp, v) == c + v && Coefficients(hrp, w) == c + w;
    FoldSplit(1, c, v);
    FoldSplit(1, c, w);
    BurstDetected(Fold(1, c), v, w, k);
  }

  ghost predicate NoUpper(s: seq<bv8>) { forall i | 0 <= i < |s| :: !IsUpper(s[i]) }
  ghost predicate AllPrintable(s: seq<bv8>) { forall i | 0 <= i < |s| :: Printable(s[i]) }

  lemma {:induction false} EncodedShape(e: Encoding, hrp: seq<bv8>, values: seq<bv8>)
    requires NoUpper(hrp) && Symbols(values)
    ensures var s, all := EncodeOf(e, hrp, values), values + Checksum(e, hrp, values);
            && |s| == |hrp| + |values| + 7 && Symbols(all)
            && (AllPrintable(hrp) <==> Clean(s))
            && LastSeparator(s) == |hrp|
            && s[..|hrp|] == hrp && SymbolsOf(s[|hrp| + 1..]) == all
  {
    hide Fold, Checksum, Verified, CharOf, SymbolOf, Printable, IsUpper, PlainChar, LastSeparator, Clean, AllPrintable;
    var s, six := EncodeOf(e, hrp, values), Checksum(e, hrp, values);
    ChecksumVerifies(e, hrp, values);
    var all := values + six;
    assert s == hrp + [SEPARATOR] + Chars(all);
    EncodedChars(all);
    SeparatorPlain();
    forall i | 0 <= i < |s| ensures !IsUpper(s[i]) && (Printable(s[i]) || i < |hrp|) {
      if i > |hrp| { assert s[i] == Chars(all)[i - |hrp| - 1]; }
    }
    EncodedClean(hrp, s);
    EncodedSeparator(hrp, Chars(all));
    assert s[..|hrp|] == hrp && s[|hrp| + 1..] == Chars(all);
  }

  lemma {:induction false} EncodedSeparator(hrp: seq<bv8>, chars: seq<bv8>)
    requires SEPARATOR !in chars
    ensures LastSeparator(hrp + [SEPARATOR] + chars) == |hrp|
  {
    var s := hrp + [SEPARATOR] + chars;
    assert s[|hrp|] == SEPARATOR;
    forall i | |hrp| < i < |s| ensures s[i] != SEPARATOR { assert s[i] == chars[i - |hrp| - 1]; }
  }

  lemma {:induction false} EncodedChars(v: seq<bv8>)
    requires Symbols(v)
    ensures SymbolsOf(Chars(v)) == v && SEPARATOR !in Chars(v)
    ensures forall i | 0 <= i < |v| :: Printable(Chars(v)[i]) && !IsUpper(Chars(v)[i])
  {
    hide CharOf, SymbolOf, Printable, IsUpper, PlainChar;
    forall i | 0 <= i < |v| ensures SymbolOf(Chars(v)[i]) == v[i] && Printable(Chars(v)[i]) && !IsUpper(Chars(v)[i]) && Chars(v)[i] != SEPARATOR {
      SymbolOfChar(v[i]);
      PlainFacts(CharOf(v[i]));
    }
  }

  lemma {:induction false} EncodedClean(hrp: seq<bv8>, s: seq<bv8>)
    requires hrp <= s && forall i | 0 <= i < |s| :: !IsUpper(s[i]) && (Printable(s[i]) || i < |hrp|)
    ensures AllPrintable(hrp) <==> Clean(s)
  {
    hide Printable, IsUpper, IsLower;
    if Clean(s) {
      forall i | 0 <= i < |hrp| ensures Printable(hrp[i]) { assert hrp[i] == s[i]; }
    }
    if AllPrintable(hrp) {
      forall i | 0 <= i < |s| ensures Printable(s[i]) { if i < |hrp| { assert s[i] == hrp[i]; } }
    }
  }

  lemma {:induction false} PlainFacts(c: bv8)
    requires PlainChar(c)
    ensures Printable(c) && !IsUpper(c) && c != SEPARATOR
  {}

  lemma {:induction false} SeparatorPlain()
    ensures Printable(SEPARATOR) && !IsUpper(SEPARATOR)
  {}

  /** Decoding undoes encoding, exactly if the readable part is printable and not empty and the string is not too long. */
  lemma {:induction false} DecodeUndoesEncode(e: Encoding, hrp: seq<bv8>, values: seq<bv8>, limit: nat)
    requires NoUpper(hrp) && Symbols(values)
    ensures DecodeOf(EncodeOf(e, hrp, values), limit) ==
            if hrp != [] && AllPrintable(hrp) && |hrp| + |values| + 7 <= limit then Some(Decoded(e, hrp, values)) else None
  {
    hide Fold, Checksum, Verified, CharOf, SymbolOf, LastSeparator, Clean, EncodeOf, AllPrintable;
    var s, six := EncodeOf(e, hrp, values), Checksum(e, hrp, values);
    EncodedShape(e, hrp, values);
    assert LowerAll(hrp) == hrp;
    ChecksumVerifies(e, hrp, values);
    assert (values + six)[..|values|] == values;
  }

  /** Only what encoding gives, in either case, can be decoded. */
  lemma {:induction false} EncodeUndoesDecode(s: seq<bv8>, limit: nat, d: Decoded)
    requires DecodeOf(s, limit) == Some(d)
    ensures EncodeOf(d.encoding, d.hrp, d.data) == LowerAll(s)
    ensures d.hrp != [] && NoUpper(d.hrp) && Symbols(d.data)
  {
    hide Fold, Checksum, Verified, CharOf, SymbolOf, LowerCase;
    var pos := LastSeparator(s);
    var values := SymbolsOf(s[pos + 1..]);
    var n := |values| - 6;
    assert values == values[..n] + values[n..];
    ChecksumUnique(d.encoding, d.hrp, d.data, values[n..]);
    var r := EncodeOf(d.encoding, d.hrp, d.data);
    assert r == d.hrp + [SEPARATOR] + Chars(values);
    forall i | 0 <= i < |s| ensures r[i] == LowerCase(s[i]) {
      if i == pos {
        SeparatorLower();
      } else if i > pos {
        assert r[i] == CharOf(values[i - pos - 1]) && values[i - pos - 1] == SymbolOf(s[i]);
        SmallSymbol(values[i - pos - 1]);
        CharOfSymbol(s[i]);
      }
    }
    forall i | 0 <= i < |d.hrp| ensures !IsUpper(d.hrp[i]) { LowerNotUpper(s[i]); }
  }

  lemma {:induction false} SmallSymbol(v: bv8)
    requires v < 32
    ensures v != 0xff
  {}

  lemma {:induction false} SeparatorLower()
    ensures LowerCase(SEPARATOR) == SEPARATOR
  {}

  lemma {:induction false} LowerNotUpper(c: bv8)
    ensures !IsUpper(LowerCase(c))
  {}

  // Published strings.

  lemma {:induction false} FoldNine(v: seq<bv8>)
    requires |v| == 9
    ensures Fold(1, v) == Step(Step(Step(Step(Step(Step(Step(Step(Step(1, v[0]), v[1]), v[2]), v[3]), v[4]), v[5]), v[6]), v[7]), v[8])
  {
    hide Fold, Step;
    var c := FoldThree(1, v);
    var d := FoldThree(c, v[3..]);
    var e := FoldThree(d, v[6..]);
    assert v[3..][3..] == v[6..] && v[6..][3..] == [];
    assert Fold(e, []) == e by { FoldNothing(e); }
  }

  lemma {:induction false} FoldNothing(c: bv32)
    ensures Fold(c, []) == c
  {}

  lemma {:induction false} FoldThree(c: bv32, v: seq<bv8>) returns (d: bv32)
    requires |v| >= 3
    ensures d == Step(Step(Step(c, v[0]), v[1]), v[2]) && Fold(c, v) == Fold(d, v[3..])
  {
    hide Step;
    d := Step(Step(Step(c, v[0]), v[1]), v[2]);
    assert v[1..][1..] == v[2..] && v[2..][1..] == v[3..];
    assert Fold(Step(c, v[0]), v[1..]) == Fold(Step(Step(c, v[0]), v[1]), v[2..]);
  }

  /** Eight characters of one case, with the letter a before the separator and the given symbols after it. */
  lemma {:induction false} PublishedShape(s: seq<bv8>, symbols: seq<bv8>)
    requires |s| == 8 && LowerCase(s[0]) == 0x61 && s[1] == SEPARATOR && Clean(s) && Symbols(symbols) && |symbols| == 6
    requires forall i | 2 <= i < 8 :: SymbolOf(s[i]) == symbols[i - 2] && s[i] != SEPARATOR
    ensures DecodeOf(s, 90) == match Verified([0x61], symbols) case None => None case Some(e) => Some(Decoded(e, [0x61], []))
    ensures Coefficients([0x61], symbols) == [3, 0, 1] + symbols
  {
    hide SymbolOf, LowerCase, Verified, Clean;
    assert LastSeparator(s) == 1;
    assert LowerAll(s[..1]) == [0x61];
    forall i | 0 <= i < 6 ensures SymbolsOf(s[2..])[i] == symbols[i] { assert s[2..][i] == s[i + 2]; }
    assert SymbolsOf(s[2..]) == symbols;
    assert symbols[..0] == [];
    assert Highs([0x61]) == [3] && Lows([0x61]) == [1] by { LetterA(); }
  }

  lemma {:induction false} LetterA()
    ensures High(0x61) == 3 && Low(0x61) == 1
  {}

  lemma {:induction false} PublishedBech32Chars()
    ensures LowerCase(0x61) == 0x61 && SymbolOf(0x32) == 10 && SymbolOf(0x35) == 20 && SymbolOf(0x65) == 25 && SymbolOf(0x6c) == 31 && SymbolOf(0x75) == 28
    ensures Printable(0x31) && Printable(0x32) && Printable(0x35) && Printable(0x61) && Printable(0x65) && Printable(0x6c) && Printable(0x75)
    ensures !IsUpper(0x31) && !IsUpper(0x32) && !IsUpper(0x35) && !IsUpper(0x61) && !IsUpper(0x65) && !IsUpper(0x6c) && !IsUpper(0x75)
  {}

  lemma {:induction false} PublishedBech32Remainder()
    ensures Fold(1, [3, 0, 1, 10, 28, 25, 31, 20, 31]) == Constant(Bech32)
  {
    FoldNine([3, 0, 1, 10, 28, 25, 31, 20, 31]);
    assert Step(0x1, 3) == 0x23;
    assert Step(0x23, 0) == 0x460;
    assert Step(0x460, 1) == 0x8c01;
    assert Step(0x8c01, 10) == 0x11_802a;
    assert Step(0x11_802a, 28) == 0x230_055c;
    assert Step(0x230_055c, 25) == 0x3d6a_fc2b;
    assert Step(0x3d6a_fc2b, 31) == 0x2f8_4386;
    assert Step(0x2f8_4386, 20) == 0x2462_2766;
    assert Step(0x2462_2766, 31) == 0x1;
  }

  /** The string "a12uel5l". */
  lemma {:induction false} PublishedBech32()
    ensures DecodeOf([0x61, 0x31, 0x32, 0x75, 0x65, 0x6c, 0x35, 0x6c], 90) == Some(Decoded(Bech32, [0x61], []))
  {
    hide SymbolOf, Printable, IsUpper, IsLower, LowerCase, Fold, DecodeOf, Coefficients, Constant;
    var s: seq<bv8> := [0x61, 0x31, 0x32, 0x75, 0x65, 0x6c, 0x35, 0x6c];
    PublishedBech32Chars();
    PublishedBech32Remainder();
    var symbols: seq<bv8>, all: seq<bv8> := [10, 28, 25, 31, 20, 31], [3, 0, 1, 10, 28, 25, 31, 20, 31];
    PublishedShape(s, symbols);
    assert [3, 0, 1] + symbols == all;
    ConstantGroups(Bech32);
  }

  lemma {:induction false} PublishedBech32mChars()
    ensures LowerCase(0x41) == 0x61 && SymbolOf(0x33) == 17 && SymbolOf(0x41) == 29 && SymbolOf(0x46) == 9 && SymbolOf(0x4c) == 31 && SymbolOf(0x4e) == 19 && SymbolOf(0x51) == 0
    ensures Printable(0x31) && Printable(0x33) && Printable(0x41) && Printable(0x46) && Printable(0x4c) && Printable(0x4e) && Printable(0x51)
    ensures !IsLower(0x31) && !IsLower(0x33) && !IsLower(0x41) && !IsLower(0x46) && !IsLower(0x4c) && !IsLower(0x4e) && !IsLower(0x51)
  {}

  lemma {:induction false} PublishedBech32mRemainder()
    ensures Fold(1, [3, 0, 1, 31, 0, 9, 19, 17, 29]) == Constant(Bech32m)
  {
    FoldNine([3, 0, 1, 31, 0, 9, 19, 17, 29]);
    assert Step(0x1, 3) == 0x23;
    assert Step(0x23, 0) == 0x460;
    assert Step(0x460, 1) == 0x8c01;
    assert Step(0x8c01, 31) == 0x11_803f;
    assert Step(0x11_803f, 0) == 0x230_07e0;
    assert Step(0x230_07e0, 9) == 0x3d6a_abbb;
    assert Step(0x3d6a_abbb, 19) == 0x2f2_b18a;
    assert Step(0x2f2_b18a, 17) == 0x253c_66e3;
    assert Step(0x253c_66e3, 29) == 0x2bc8_30a3;
  }

  /** The string "A1LQFN3A". */
  lemma {:induction false} PublishedBech32m()
    ensures DecodeOf([0x41, 0x31, 0x4c, 0x51, 0x46, 0x4e, 0x33, 0x41], 90) == Some(Decoded(Bech32m, [0x61], []))
  {
    hide SymbolOf, Printable, IsUpper, IsLower, LowerCase, Fold, DecodeOf, Coefficients, Constant;
    var s: seq<bv8> := [0x41, 0x31, 0x4c, 0x51, 0x46, 0x4e, 0x33, 0x41];
    PublishedBech32mChars();
    PublishedBech32mRemainder();
    var symbols: seq<bv8>, all: seq<bv8> := [31, 0, 9, 19, 17, 29], [3, 0, 1, 31, 0, 9, 19, 17, 29];
    PublishedShape(s, symbols);
    assert [3, 0, 1] + symbols == all;
    ConstantGroups(Bech32m);
  }

  // The operations, step by step.

  method PolyMod(v: seq<bv8>) returns (c: bv32)
    ensures c == Fold(1, v)
  {
    hide Step;
    c := 1;
    for i := 0 to |v|
      invariant Fold(c, v[i..]) == Fold(1, v)
    {
      assert v[i..][1..] == v[i + 1..];
      c := Step(c, v[i]);
    }
    assert v[|v|..] == [];
  }

  predicate IsLetter(c: bv8) { IsLower(c) || IsUpper(c) }

  /** The first letter is at `k`. */
  ghost predicate Leads(s: seq<bv8>, k: nat)
    requires k < |s|
  {
    IsLetter(s[k]) && forall m: nat | m < k :: !IsLetter(s[m])
  }

  /** The character at `i` is not printable, or a letter not of the case of the first letter. */
  ghost predicate Bad(s: seq<bv8>, i: nat)
    requires i < |s|
  {
    !Printable(s[i]) || (IsLetter(s[i]) && exists k: nat | k < i :: Leads(s, k) && IsLower(s[k]) != IsLower(s[i]))
  }

  lemma {:induction false} LettersPrintable(c: bv8)
    ensures IsLetter(c) ==> Printable(c)
    ensures !(IsLower(c) && IsUpper(c))
  {}

  lemma {:induction false} FirstLetter(s: seq<bv8>, i: nat) returns (k: nat)
    requires i < |s| && IsLetter(s[i])
    ensures k <= i && Leads(s, k)
    decreases i
  {
    hide IsLetter;
    if m: nat :| m < i && IsLetter(s[m]) { k := FirstLetter(s, m); } else { k := i; }
  }

  /** The text is clean exactly if nothing in it is bad. */
  lemma {:induction false} CleanExactly(s: seq<bv8>)
    ensures Clean(s) <==> forall i: nat | i < |s| :: !Bad(s, i)
  {
    hide IsLower, IsUpper, Printable;
    forall i: nat | i < |s| && Clean(s) ensures !Bad(s, i) {}
    if !Clean(s) && forall i: nat | i < |s| :: !Bad(s, i) {
      forall i: nat | i < |s| ensures Printable(s[i]) { assert !Bad(s, i); }
      var p: nat, q: nat :| p < |s| && q < |s| && IsUpper(s[p]) && IsLower(s[q]);
      MixedIsBad(s, p, q);
    }
  }

  lemma {:induction false} MixedIsBad(s: seq<bv8>, p: nat, q: nat)
    requires p < |s| && q < |s| && IsUpper(s[p]) && IsLower(s[q])
    ensures Bad(s, p) || Bad(s, q)
  {
    hide IsLower, IsUpper, Printable;
    LettersPrintable(s[p]);
    var k := FirstLetter(s, if p < q then p else q);
    var i := if IsLower(s[k]) then p else q;
    assert k < i && IsLower(s[k]) != IsLower(s[i]);
  }

  lemma {:induction false} BadNow(s: seq<bv8>, i: nat, k: nat)
    requires k < i < |s| && Leads(s, k)
    ensures Bad(s, i) <==> !Printable(s[i]) || (IsLetter(s[i]) && IsLower(s[k]) != IsLower(s[i]))
  {
    hide IsLower, IsUpper, Printable;
    if m: nat :| m < i && Leads(s, m) && IsLower(s[m]) != IsLower(s[i]) { assert m == k; }
  }

  /** The positions of characters that are not printable, or of letters not of the case of the first letter, in increasing order. */
  method CheckCharacters(s: seq<bv8>) returns (errors: seq<nat>)
    ensures forall i: nat :: i in errors <==> i < |s| && Bad(s, i)
    ensures forall j, k | 0 <= j < k < |errors| :: errors[j] < errors[k]
    ensures errors == [] <==> Clean(s)
  {
    hide IsLower, IsUpper, Printable, Leads, Clean, Bad;
    errors := [];
    var lower, upper := false, false;
    ghost var first: nat := 0;
    for i := 0 to |s|
      invariant !(lower && upper)
      invariant if lower || upper then first < i && Leads(s, first) && IsLower(s[first]) == lower else forall m: nat | m < i :: !IsLetter(s[m])
      invariant (forall m: nat :: m in errors <==> m < i && Bad(s, m)) && (forall j | 0 <= j < |errors| :: errors[j] < i)
      invariant forall j, k | 0 <= j < k < |errors| :: errors[j] < errors[k]
    {
      LettersPrintable(s[i]);
      if lower || upper { BadNow(s, i, first); } else { BadFirst(s, i); }
      if IsLetter(s[i]) && !lower && !upper { first := i; }
      if IsLower(s[i]) {
        if upper { errors := errors + [i]; } else { lower := true; }
      } else if IsUpper(s[i]) {
        if lower { errors := errors + [i]; } else { upper := true; }
      } else if !Printable(s[i]) {
        errors := errors + [i];
      }
    }
    CleanExactly(s);
    if errors != [] { assert errors[0] in errors; }
  }

  lemma {:induction false} BadFirst(s: seq<bv8>, i: nat)
    requires i < |s| && forall m: nat | m < i :: !IsLetter(s[m])
    ensures (Bad(s, i) <==> !Printable(s[i])) && (IsLetter(s[i]) ==> Leads(s, i))
  {
    hide IsLetter, IsLower, Printable;
  }

  method PrepareCoefficients(hrp: seq<bv8>, values: seq<bv8>) returns (r: seq<bv8>)
    ensures r == Coefficients(hrp, values)
  {
    hide High, Low;
    r := [];
    for i := 0 to |hrp|
      invariant r == Highs(hrp)[..i]
    {
      r := r + [High(hrp[i])];
    }
    r := r + [0];
    for i := 0 to |hrp|
      invariant r == Highs(hrp) + [0] + Lows(hrp)[..i]
    {
      r := r + [Low(hrp[i])];
    }
    r := r + values;
  }

  method CreateChecksum(e: Encoding, hrp: seq<bv8>, values: seq<bv8>) returns (r: seq<bv8>)
    ensures r == Checksum(e, hrp, values)
  {
    hide Fold, Groups;
    var enc := PrepareCoefficients(hrp, values);
    var mod := PolyMod(enc + ZEROS);
    r := Groups(Xor(mod, Constant(e)));
  }

  method VerifyChecksum(hrp: seq<bv8>, values: seq<bv8>) returns (r: Option<Encoding>)
    ensures r == Verified(hrp, values)
  {
    hide Fold;
    var enc := PrepareCoefficients(hrp, values);
    var check := PolyMod(enc);
    if check == Constant(Bech32) { return Some(Bech32); }
    if check == Constant(Bech32m) { return Some(Bech32m); }
    return None;
  }

  method Encode(e: Encoding, hrp: seq<bv8>, values: seq<bv8>) returns (r: seq<bv8>)
    requires NoUpper(hrp) && Symbols(values)
    ensures r == EncodeOf(e, hrp, values)
  {
    hide Checksum, CharOf;
    r := AppendChars(hrp + [SEPARATOR], values);
    var checksum := CreateChecksum(e, hrp, values);
    r := AppendChars(r, checksum);
    assert Chars(values + checksum) == Chars(values) + Chars(checksum);
  }

  method AppendChars(s: seq<bv8>, values: seq<bv8>) returns (r: seq<bv8>)
    ensures r == s + Chars(values)
  {
    hide CharOf;
    r := s;
    for i := 0 to |values|
      invariant r == s + Chars(values)[..i]
    {
      r := r + [CharOf(values[i])];
    }
  }

  method FindSeparator(s: seq<bv8>) returns (r: int)
    ensures r == LastSeparator(s)
  {
    for i := |s| downto 0
      invariant LastSeparator(s) == LastSeparator(s[..i])
    {
      assert s[..i + 1][..i] == s[..i];
      if s[i] == SEPARATOR { return i; }
    }
    return -1;
  }

  method Decode(s: seq<bv8>, limit: nat) returns (r: Option<Decoded>)
    ensures r == DecodeOf(s, limit)
  {
    hide Clean, LastSeparator, Verified, SymbolOf, LowerCase;
    var errors := CheckCharacters(s);
    if errors != [] { return None; }
    var pos := FindSeparator(s);
    if |s| > limit { return None; }
    if pos <= 0 || pos + 6 >= |s| { return None; }
    var values: seq<bv8> := [];
    for i := 0 to |s| - 1 - pos
      invariant values == SymbolsOf(s[pos + 1..])[..i] && Symbols(values)
    {
      var symbol := SymbolOf(s[i + pos + 1]);
      if symbol == 0xff {
        assert SymbolsOf(s[pos + 1..])[i] == 0xff;
        return None;
      }
      CharOfSymbol(s[i + pos + 1]);
      values := values + [symbol];
    }
    var hrp: seq<bv8> := [];
    for i := 0 to pos
      invariant hrp == LowerAll(s[..pos])[..i]
    {
      hrp := hrp + [LowerCase(s[i])];
    }
    assert values == SymbolsOf(s[pos + 1..]) && hrp == LowerAll(s[..pos]);
    var encoding := VerifyChecksum(hrp, values);
    if encoding == None { return None; }
    return Some(Decoded(encoding.value, hrp, values[..|values| - 6]));
  }
}
