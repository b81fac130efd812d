/** The characters that stand for the 32 symbols of Bech32 strings. */
module Bech32Characters {

  predicate IsUpper(c: bv8) { 0x41 <= c <= 0x5a }
  predicate IsLower(c: bv8) { 0x61 <= c <= 0x7a }
  predicate Printable(c: bv8) { 33 <= c <= 126 }

  function LowerCase(c: bv8): bv8 {
    if IsUpper(c) then c + 0x20 else c
  }

  const SEPARATOR: bv8 := 0x31

  /** A lower-case letter or a digit that is not the separator. */
  predicate PlainChar(c: bv8) { Printable(c) && !IsUpper(c) && c != SEPARATOR }

  // qpzry9x8
  function Char0(v: bv8): bv8 {
    if v == 0 then 0x71 else if v == 1 then 0x70 else if v == 2 then 0x7a else if v == 3 then 0x72 else if v == 4 then 0x79 else if v == 5 then 0x39 else if v == 6 then 0x78 else 0x38
  }

  function Symbol0(c: bv8): bv8 {
    if c == 0x71 then 0 else if c == 0x70 then 1 else if c == 0x7a then 2 else if c == 0x72 then 3 else if c == 0x79 then 4 else if c == 0x39 then 5 else if c == 0x78 then 6 else if c == 0x38 then 7 else 0xff
  }

  lemma {:induction false} Inverse0(v: bv8, c: bv8)
    ensures 0 <= v < 8 ==> Symbol0(Char0(v)) == v && PlainChar(Char0(v))
    ensures Symbol0(c) != 0xff ==> 0 <= Symbol0(c) < 8 && Char0(Symbol0(c)) == c
  {}

  // gf2tvdw0
  function Char1(v: bv8): bv8 {
    if v == 8 then 0x67 else if v == 9 then 0x66 else if v == 10 then 0x32 else if v == 11 then 0x74 else if v == 12 then 0x76 else if v == 13 then 0x64 else if v == 14 then 0x77 else 0x30
  }

  function Symbol1(c: bv8): bv8 {
    if c == 0x67 then 8 else if c == 0x66 then 9 else if c == 0x32 then 10 else if c == 0x74 then 11 else if c == 0x76 then 12 else if c == 0x64 then 13 else if c == 0x77 then 14 else if c == 0x30 then 15 else 0xff
  }

  lemma {:induction false} Inverse1(v: bv8, c: bv8)
    ensures 8 <= v < 16 ==> Symbol1(Char1(v)) == v && PlainChar(Char1(v))
    ensures Symbol1(c) != 0xff ==> 8 <= Symbol1(c) < 16 && Char1(Symbol1(c)) == c
  {}

  // s3jn54kh
  function Char2(v: bv8): bv8 {
    if v == 16 then 0x73 else if v == 17 then 0x33 else if v == 18 then 0x6a else if v == 19 then 0x6e else if v == 20 then 0x35 else if v == 21 then 0x34 else if v == 22 then 0x6b else 0x68
  }

  function Symbol2(c: bv8): bv8 {
    if c == 0x73 then 16 else if c == 0x33 then 17 else if c == 0x6a then 18 else if c == 0x6e then 19 else if c == 0x35 then 20 else if c == 0x34 then 21 else if c == 0x6b then 22 else if c == 0x68 then 23 else 0xff
  }

  lemma {:induction false} Inverse2(v: bv8, c: bv8)
    ensures 16 <= v < 24 ==> Symbol2(Char2(v)) == v && PlainChar(Char2(v))
    ensures Symbol2(c) != 0xff ==> 16 <= Symbol2(c) < 24 && Char2(Symbol2(c)) == c
  {}

  // ce6mua7l
  function Char3(v: bv8): bv8 {
    if v == 24 then 0x63 else if v == 25 then 0x65 else if v == 26 then 0x36 else if v == 27 then 0x6d else if v == 28 then 0x75 else if v == 29 then 0x61 else if v == 30 then 0x37 else 0x6c
  }

  function Symbol3(c: bv8): bv8 {
    if c == 0x63 then 24 else if c == 0x65 then 25 else if c == 0x36 then 26 else if c == 0x6d then 27 else if c == 0x75 then 28 else if c == 0x61 then 29 else if c == 0x37 then 30 else if c == 0x6c then 31 else 0xff
  }

  lemma {:induction false} Inverse3(v: bv8, c: bv8)
    ensures 24 <= v < 32 ==> Symbol3(Char3(v)) == v && PlainChar(Char3(v))
    ensures Symbol3(c) != 0xff ==> 24 <= Symbol3(c) < 32 && Char3(Symbol3(c)) == c
  {}

  /** The character of a symbol. */
  function CharOf(v: bv8): bv8 {
    if v < 8 then Char0(v) else if v < 16 then Char1(v) else if v < 24 then Char2(v) else Char3(v)
  }

  /** The symbol of a lower-case character, or 0xff. */
  function LowerSymbol(c: bv8): bv8 {
    if Symbol0(c) != 0xff then Symbol0(c) else if Symbol1(c) != 0xff then Symbol1(c) else if Symbol2(c) != 0xff then Symbol2(c) else Symbol3(c)
  }

  /** The symbol of a character in either case, or 0xff. */
  function SymbolOf(c: bv8): bv8 { LowerSymbol(LowerCase(c)) }

  lemma {:induction false} Separate(c: bv8)
    ensures Symbol0(c) != 0xff ==> Symbol1(c) == Symbol2(c) == Symbol3(c) == 0xff
    ensures Symbol1(c) != 0xff ==> Symbol2(c) == Symbol3(c) == 0xff
    ensures Symbol2(c) != 0xff ==> Symbol3(c) == 0xff
  {}

  lemma {:induction false} SymbolOfChar(v: bv8)
    requires v < 32
    ensures SymbolOf(CharOf(v)) == v && PlainChar(CharOf(v))
  {
    hide Char0, Char1, Char2, Char3, Symbol0, Symbol1, Symbol2, Symbol3;
    var c := CharOf(v);
    Separate(c);
    Inverse0(v, c);
    Inverse1(v, c);
    Inverse2(v, c);
    Inverse3(v, c);
  }

  lemma {:induction false} CharOfSymbol(c: bv8)
    requires SymbolOf(c) != 0xff
    ensures SymbolOf(c) < 32 && CharOf(SymbolOf(c)) == LowerCase(c)
  {
    hide Char0, Char1, Char2, Char3, Symbol0, Symbol1, Symbol2, Symbol3;
    var v, d := SymbolOf(c), LowerCase(c);
    Inverse0(v, d);
    Inverse1(v, d);
    Inverse2(v, d);
    Inverse3(v, d);
  }

  lemma {:induction false} CasesAre(c: bv8)
    ensures IsUpper(c) <==> 'A' as nat <= c as nat <= 'Z' as nat
    ensures IsLower(c) <==> 'a' as nat <= c as nat <= 'z' as nat
    ensures IsUpper(c) ==> LowerCase(c) as nat == c as nat + 32
  {}

  /** The character of a symbol as a number. */
  function Letter(v: bv8): nat { CharOf(v) as nat }

  lemma {:induction false} Charset0()
    ensures Letter(0) == 'q' as nat && Letter(1) == 'p' as nat && Letter(2) == 'z' as nat && Letter(3) == 'r' as nat && Letter(4) == 'y' as nat && Letter(5) == '9' as nat && Letter(6) == 'x' as nat && Letter(7) == '8' as nat
  {}

  lemma {:induction false} Charset1()
    ensures Letter(8) == 'g' as nat && Letter(9) == 'f' as nat && Letter(10) == '2' as nat && Letter(11) == 't' as nat && Letter(12) == 'v' as nat && Letter(13) == 'd' as nat && Letter(14) == 'w' as nat && Letter(15) == '0' as nat
  {}

  lemma {:induction false} Charset2()
    ensures Letter(16) == 's' as nat && Letter(17) == '3' as nat && Letter(18) == 'j' as nat && Letter(19) == 'n' as nat && Letter(20) == '5' as nat && Letter(21) == '4' as nat && Letter(22) == 'k' as nat && Letter(23) == 'h' as nat
  {}

  lemma {:induction false} Charset3()
    ensures Letter(24) == 'c' as nat && Letter(25) == 'e' as nat && Letter(26) == '6' as nat && Letter(27) == 'm' as nat && Letter(28) == 'u' as nat && Letter(29) == 'a' as nat && Letter(30) == '7' as nat && Letter(31) == 'l' as nat
  {}

  /** The characters of the symbols in order, as they are written in the code. */
  lemma {:induction false} Charset()
    ensures Letter(0) == 'q' as nat && Letter(1) == 'p' as nat && Letter(2) == 'z' as nat && Letter(3) == 'r' as nat && Letter(4) == 'y' as nat && Letter(5) == '9' as nat && Letter(6) == 'x' as nat && Letter(7) == '8' as nat
    ensures Letter(8) == 'g' as nat && Letter(9) == 'f' as nat && Letter(10) == '2' as nat && Letter(11) == 't' as nat && Letter(12) == 'v' as nat && Letter(13) == 'd' as nat && Letter(14) == 'w' as nat && Letter(15) == '0' as nat
    ensures Letter(16) == 's' as nat && Letter(17) == '3' as nat && Letter(18) == 'j' as nat && Letter(19) == 'n' as nat && Letter(20) == '5' as nat && Letter(21) == '4' as nat && Letter(22) == 'k' as nat && Letter(23) == 'h' as nat
    ensures Letter(24) == 'c' as nat && Letter(25) == 'e' as nat && Letter(26) == '6' as nat && Letter(27) == 'm' as nat && Letter(28) == 'u' as nat && Letter(29) == 'a' as nat && Letter(30) == '7' as nat && Letter(31) == 'l' as nat
  {
    hide Letter;
    Charset0();
    Charset1();
    Charset2();
    Charset3();
  }
}
