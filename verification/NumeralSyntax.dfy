/** What the integer parser's texts look like, and the ranges of its types. */
module NumeralSyntax {
  import opened Ascii
  import opened IntegerParser
  import opened Lexis
  import opened Sequences
  import opened Wrappers

  /** The ranges of the eight integer types. */
  lemma Ranges(v: int)
    ensures InRange(IntType(8, false), v) <==> 0 <= v <= 255
    ensures InRange(IntType(8, true), v) <==> -128 <= v <= 127
    ensures InRange(IntType(16, false), v) <==> 0 <= v <= 65535
    ensures InRange(IntType(16, true), v) <==> -32768 <= v <= 32767
    ensures InRange(IntType(32, false), v) <==> 0 <= v <= 4294967295
    ensures InRange(IntType(32, true), v) <==> -2147483648 <= v <= 2147483647
    ensures InRange(IntType(64, false), v) <==> 0 <= v <= 18446744073709551615
    ensures InRange(IntType(64, true), v) <==> -9223372036854775808 <= v <= 9223372036854775807
  {
  }

  /** In base ten a digit is one of ten characters, and its value is its place among them. */
  lemma DecimalDigit(c: char, d: nat)
    ensures Digit(c, 10) == Some(d) <==> d < 10 && DIGITS[d] == c
  {
  }

  /** In base sixteen it is one of sixteen, or of the six letters in upper case. */
  lemma HexDigit(c: char, d: nat)
    ensures Digit(c, 16) == Some(d) <==> d < 16 && (HEX[d] == c || HEX_UPPER[d] == c)
  {
  }

  /** A numeral's digits count by place: one more digit multiplies by the base and adds. */
  lemma ValueByPlace(s: string, c: char, base: nat)
    ensures Value("", base) == Some(0)
    ensures Value(s + [c], base).Some? <==> Value(s, base).Some? && Digit(c, base).Some?
    ensures Value(s + [c], base).Some? ==> Value(s + [c], base).value == Value(s, base).value * base + Digit(c, base).value
  {
    assert (s + [c])[..|s|] == s;
  }

  /** Zero is written in two ways only. */
  lemma ZeroExact(text: string)
    ensures Match(text) == Some(Zero) <==> text == "0" || text == "0x0"
  {
  }

  function Spelling(negative: bool, base: nat, digits: string): string {
    (if negative then "-" else "") + (if base == 16 then "0x" else "") + digits
  }

  /** A text after its sign, if it has one. */
  function Unsigned(text: string): string {
    if text != "" && text[0] == '-' then text[1..] else text
  }

  predicate Marked(rest: string) {
    |rest| >= 2 && rest[0] == '0' && rest[1] == 'x'
  }

  lemma MatchIs(text: string)
    requires text != "0" && text != "0x0"
    ensures var rest := Unsigned(text);
      var digits := if Marked(rest) then rest[2..] else rest;
      Match(text) ==
        if DigitRun(digits) then Some(Digits(text != "" && text[0] == '-', if Marked(rest) then 16 else 10, digits)) else None
  {
  }

  lemma NumeralRead(text: string, negative: bool, base: nat, digits: string)
    requires Match(text) == Some(Digits(negative, base, digits))
    ensures (base == 10 || base == 16) && DigitRun(digits) && text == Spelling(negative, base, digits)
  {
    MatchIs(text);
    var rest := Unsigned(text);
    assert rest == (if base == 16 then "0x" else "") + digits;
    assert text == (if negative then "-" else "") + rest;
    Associate(if negative then "-" else "", if base == 16 then "0x" else "", digits);
  }

  lemma MarkedIs(base: nat, digits: string)
    requires (base == 10 || base == 16) && DigitRun(digits)
    ensures var rest := (if base == 16 then "0x" else "") + digits;
      && (Marked(rest) <==> base == 16) && (if base == 16 then rest[2..] else rest) == digits && rest[0] != '-'
      && rest != "0" && rest != "0x0"
  {
    var rest := (if base == 16 then "0x" else "") + digits;
    assert IsAlnum(digits[0]) && digits[0] != '-';
    if base == 16 {
      assert rest[2..] == digits && rest[2] == digits[0];
    } else {
      assert rest == digits;
    }
  }

  lemma NumeralWritten(negative: bool, base: nat, digits: string)
    requires (base == 10 || base == 16) && DigitRun(digits)
    ensures Match(Spelling(negative, base, digits)) == Some(Digits(negative, base, digits))
  {
    var text, rest := Spelling(negative, base, digits), (if base == 16 then "0x" else "") + digits;
    MarkedIs(base, digits);
    Associate(if negative then "-" else "", if base == 16 then "0x" else "", digits);
    if negative {
      assert text == "-" + rest && text[1..] == rest;
    } else {
      assert text == rest;
    }
    assert Unsigned(text) == rest;
    MatchIs(text);
  }

  /**
   Any other numeral is an optional minus sign, an optional `0x` that makes the base sixteen, and
   letters and digits the first of which is not zero.
   */
  lemma NumeralExact(text: string, negative: bool, base: nat, digits: string)
    ensures Match(text) == Some(Digits(negative, base, digits)) <==>
      && (base == 10 || base == 16) && digits != "" && digits[0] != '0'
      && (forall i :: 0 <= i < |digits| ==> Alnum(digits[i]))
      && text == (if negative then "-" else "") + (if base == 16 then "0x" else "") + digits
  {
    forall i | 0 <= i < |digits|
      ensures IsAlnum(digits[i]) <==> Alnum(digits[i])
    {
      AlnumExact(digits[i]);
    }
    if Match(text) == Some(Digits(negative, base, digits)) { NumeralRead(text, negative, base, digits); }
    if (base == 10 || base == 16) && DigitRun(digits) { NumeralWritten(negative, base, digits); }
  }

  /** Base sixteen as it is usually written. */
  function Hex(n: nat): (r: string)
    ensures r != ""
  {
    if n < 16 then [HEX[n]] else Hex(n / 16) + [HEX[n % 16]]
  }

  lemma {:induction false} HexValue(n: nat)
    ensures Value(Hex(n), 16) == Some(n)
    ensures forall i :: 0 <= i < |Hex(n)| ==> Alnum(Hex(n)[i])
    ensures n > 0 ==> Hex(n)[0] != '0'
  {
    if n < 16 {
      HexDigit(HEX[n], n);
      ValueByPlace("", HEX[n], 16);
      assert "" + [HEX[n]] == [HEX[n]];
    } else {
      HexValue(n / 16);
      HexDigit(HEX[n % 16], n % 16);
      ValueByPlace(Hex(n / 16), HEX[n % 16], 16);
    }
  }

  /** Every positive number means itself when it is written in base sixteen, and its negative with a minus sign. */
  lemma HexReadBack(n: nat)
    requires n > 0
    ensures Meaning("0x" + Hex(n)) == Some(n as int) && Meaning("-0x" + Hex(n)) == Some(-(n as int))
  {
    HexValue(n);
    HexRun(n);
    HexTextMeans(Hex(n), n);
  }

  lemma HexTextMeans(s: string, n: nat)
    requires DigitRun(s) && Value(s, 16) == Some(n)
    ensures Meaning("0x" + s) == Some(n as int) && Meaning("-0x" + s) == Some(-(n as int))
  {
    SpellingMeans(false, s, n);
    SpellingMeans(true, s, n);
    HexSpelling(s);
  }

  lemma SpellingMeans(negative: bool, s: string, n: nat)
    requires DigitRun(s) && Value(s, 16) == Some(n)
    ensures Meaning(Spelling(negative, 16, s)) == Some(WithSign(negative, n))
  {
    NumeralWritten(negative, 16, s);
  }

  lemma HexSpelling(s: string)
    ensures Spelling(false, 16, s) == "0x" + s && Spelling(true, 16, s) == "-0x" + s
  {
    assert "" + "0x" == "0x" && "-" + "0x" == "-0x";
  }

  lemma HexRun(n: nat)
    requires n > 0
    ensures DigitRun(Hex(n))
  {
    HexValue(n);
    forall i | 0 <= i < |Hex(n)|
      ensures IsAlnum(Hex(n)[i])
    {
      AlnumExact(Hex(n)[i]);
    }
  }
}
