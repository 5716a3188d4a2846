/**
 The bounded integer parser of the command line: text of the form `[-][0x]digits`, read into a
 signed or unsigned integer of 8, 16, 32 or 64 bits with an overflow check at every digit.
 */
module IntegerParser {
  import opened Modular
  import opened Numerals
  import opened Wrappers

  datatype IntType = IntType(bits: nat, signed: bool)
  datatype Numeral = Zero | Digits(negative: bool, base: nat, digits: string)
  datatype IntegerError = IncorrectType(text: string)

  predicate IsWidth(bits: nat) {
    bits == 8 || bits == 16 || bits == 32 || bits == 64
  }

  function Modulus(bits: nat): (m: nat)
    requires IsWidth(bits)
    ensures m >= 256 && m % 2 == 0
  {
    if bits == 8 then 0x100
    else if bits == 16 then 0x1_0000
    else if bits == 32 then 0x1_0000_0000
    else 0x1_0000_0000_0000_0000
  }

  predicate InRange(t: IntType, v: int)
    requires IsWidth(t.bits)
  {
    if t.signed then -(Modulus(t.bits) / 2) <= v < Modulus(t.bits) / 2 else 0 <= v < Modulus(t.bits)
  }

  predicate IsAlnum(c: char) {
    '0' <= c <= '9' || 'a' <= c <= 'z' || 'A' <= c <= 'Z'
  }

  /** Letters and digits, of which the first is not zero. */
  predicate DigitRun(digits: string) {
    digits != "" && digits[0] != '0' && forall i :: 0 <= i < |digits| ==> IsAlnum(digits[i])
  }

  /** What the integer pattern matches, and the groups the parser looks at. */
  function Match(text: string): Option<Numeral> {
    if text == "0" || text == "0x0" then Some(Zero)
    else
      var negative := text != "" && text[0] == '-';
      var rest := if negative then text[1..] else text;
      var hex := |rest| >= 2 && rest[0] == '0' && rest[1] == 'x';
      var digits := if hex then rest[2..] else rest;
      if DigitRun(digits) then Some(Digits(negative, if hex then 16 else 10, digits))
      else None
  }

  function Digit(c: char, base: nat): (d: Option<nat>)
    ensures d.Some? ==> d.value < base || base < 10
    ensures d == Some(0) <==> c == '0'
  {
    if '0' <= c <= '9' then Some(c as int - '0' as int)
    else if base == 16 && 'a' <= c <= 'f' then Some(c as int - 'a' as int + 10)
    else if base == 16 && 'A' <= c <= 'F' then Some(c as int - 'A' as int + 10)
    else None
  }

  /** The number a string of digits stands for. */
  function Value(s: string, base: nat): Option<nat> {
    if s == "" then Some(0)
    else match (Value(s[..|s| - 1], base), Digit(s[|s| - 1], base))
      case (Some(v), Some(d)) => Some(v * base + d)
      case _ => None
  }

  function WithSign(negative: bool, u: int): int {
    if negative then -u else u
  }

  /** The number the whole text stands for, if it is a numeral. */
  function Meaning(text: string): Option<int> {
    match Match(text)
    case None => None
    case Some(Zero) => Some(0)
    case Some(Digits(negative, base, digits)) =>
      match Value(digits, base)
      case None => None
      case Some(v) => Some(WithSign(negative, v))
  }

  /** 8- and 16-bit operands are multiplied as int; wider ones wrap around. */
  function Product(bits: nat, x: nat, base: nat): nat
    requires IsWidth(bits)
  {
    if bits <= 16 then x * base else x * base % Modulus(bits)
  }

  /** One digit more, or the overflow check's refusal. */
  function Step(bits: nat, acc: Option<nat>, digit: Option<nat>, base: nat): (r: Option<nat>)
    requires IsWidth(bits)
    ensures r.Some? ==> r.value < Modulus(bits)
  {
    if acc.None? || digit.None? then None
    else
      var product := Product(bits, acc.value, base);
      if Modulus(bits) - 1 - digit.value < product then None else Some(product + digit.value)
  }

  function Accumulated(bits: nat, s: string, base: nat): (r: Option<nat>)
    requires IsWidth(bits)
    ensures r.Some? ==> r.value < Modulus(bits)
  {
    if s == "" then Some(0)
    else Step(bits, Accumulated(bits, s[..|s| - 1], base), Digit(s[|s| - 1], base), base)
  }

  function Signed(t: IntType, negative: bool, u: nat, text: string): Result<int, IntegerError>
    requires IsWidth(t.bits)
  {
    if t.signed && negative && u > Modulus(t.bits) / 2 then Failure(IncorrectType(text))
    else if t.signed && !negative && u > Modulus(t.bits) / 2 - 1 then Failure(IncorrectType(text))
    else if negative && !t.signed then Failure(IncorrectType(text))
    else Success(WithSign(negative, u))
  }

  function Parsed(t: IntType, text: string): Result<int, IntegerError>
    requires IsWidth(t.bits)
  {
    match Match(text)
    case None => Failure(IncorrectType(text))
    case Some(Zero) => Success(0)
    case Some(Digits(negative, base, digits)) =>
      match Accumulated(t.bits, digits, base)
      case None => Failure(IncorrectType(text))
      case Some(u) => Signed(t, negative, u, text)
  }

  method ParseInteger(t: IntType, text: string) returns (r: Result<int, IntegerError>)
    requires IsWidth(t.bits)
    ensures r == Parsed(t, text)
    ensures r.Failure? ==> r.error == IncorrectType(text)
  {
    var parts := Match(text);
    if parts.None? {
      return Failure(IncorrectType(text));
    }
    if parts.value.Zero? {
      return Success(0);
    }
    var result := Accumulate(t.bits, parts.value.digits, parts.value.base);
    if result.None? {
      return Failure(IncorrectType(text));
    }
    r := Signed(t, parts.value.negative, result.value, text);
  }

  /** The parser's loop over the digits. */
  method Accumulate(bits: nat, digits: string, base: nat) returns (r: Option<nat>)
    requires IsWidth(bits)
    ensures r == Accumulated(bits, digits, base)
  {
    var result, i := 0, 0;
    while i < |digits|
      invariant i <= |digits|
      invariant Accumulated(bits, digits[..i], base) == Some(result)
    {
      AccumulatedStep(bits, digits, base, i);
      var digit := Digit(digits[i], base);
      if digit.None? || Modulus(bits) - 1 - digit.value < Product(bits, result, base) {
        StaysRejected(bits, digits, base, i + 1);
        return None;
      }
      result := Product(bits, result, base) + digit.value;
      i := i + 1;
    }
    assert digits[..i] == digits;
    r := Some(result);
  }

  lemma AccumulatedStep(bits: nat, s: string, base: nat, i: nat)
    requires IsWidth(bits) && i < |s|
    ensures Accumulated(bits, s[..i + 1], base)
         == Step(bits, Accumulated(bits, s[..i], base), Digit(s[i], base), base)
  {
    assert s[..i + 1][..i] == s[..i];
  }

  lemma {:induction false} StaysRejected(bits: nat, s: string, base: nat, i: nat)
    requires IsWidth(bits) && i <= |s| && Accumulated(bits, s[..i], base) == None
    ensures Accumulated(bits, s, base) == None
  {
    if i == |s| {
      assert s[..i] == s;
    } else {
      var front := s[..|s| - 1];
      assert front[..i] == s[..i];
      StaysRejected(bits, front, base, i);
    }
  }

  lemma Scales(v: nat, base: nat)
    requires base >= 10
    ensures v <= v * base
  {}

  /** At eight and sixteen bits the check accepts exactly the numbers that fit, and gets them right. */
  lemma {:induction false} NarrowExact(bits: nat, s: string, base: nat)
    requires IsWidth(bits) && bits <= 16 && base >= 10
    ensures Accumulated(bits, s, base)
         == (if Value(s, base).Some? && Value(s, base).value < Modulus(bits) then Value(s, base) else None)
  {
    if s != "" {
      var front := Value(s[..|s| - 1], base);
      NarrowExact(bits, s[..|s| - 1], base);
      if front.Some? { Scales(front.value, base); }
    }
  }

  /** The value before digit `k`, times the base, as the machine sees it: is there room for digit `k`? */
  predicate RoomAt(bits: nat, s: string, base: nat, k: nat)
    requires IsWidth(bits) && k < |s|
  {
    match (Value(s[..k], base), Digit(s[k], base))
    case (Some(v), Some(d)) => v * base % Modulus(bits) + d < Modulus(bits)
    case _ => false
  }

  predicate RoomThroughout(bits: nat, s: string, base: nat)
    requires IsWidth(bits)
  {
    forall k: nat :: k < |s| ==> RoomAt(bits, s, base, k)
  }

  lemma RoomFront(bits: nat, s: string, base: nat)
    requires IsWidth(bits) && s != ""
    ensures RoomThroughout(bits, s, base) <==>
            RoomThroughout(bits, s[..|s| - 1], base) && RoomAt(bits, s, base, |s| - 1)
  {
    var front := s[..|s| - 1];
    forall k: nat | k < |front|
      ensures RoomAt(bits, s, base, k) == RoomAt(bits, front, base, k)
    {
      assert front[..k] == s[..k];
    }
  }

  /**
   At every width: the digits are accepted exactly when the wrapped product leaves room for
   each next digit, and then the result is the number modulo two to the width.
   */
  lemma {:induction false} AccumulatedExact(bits: nat, s: string, base: nat)
    requires IsWidth(bits) && bits > 16
    ensures Accumulated(bits, s, base).Some? <==> RoomThroughout(bits, s, base)
    ensures Accumulated(bits, s, base).Some? ==>
      Value(s, base).Some? && Accumulated(bits, s, base).value == Value(s, base).value % Modulus(bits)
  {
    if s != "" {
      var front, m := s[..|s| - 1], Modulus(bits);
      AccumulatedExact(bits, front, base);
      RoomFront(bits, s, base);
      var v := Value(front, base);
      var d := Digit(s[|s| - 1], base);
      if v.Some? && d.Some? { WrappedStep(v.value, base, d.value, m); }
    }
  }

  lemma WrappedSum(p: nat, d: nat, m: nat)
    requires m > 0 && p % m + d < m
    ensures (p + d) % m == p % m + d
  {
    Split(p, m);
    AddMultiple(p % m + d, p / m, m);
    Congruent(p % m + d, m);
  }

  lemma WrappedStep(v: nat, base: nat, d: nat, m: nat)
    requires m > 0
    ensures (v % m) * base % m == v * base % m
    ensures v * base % m + d < m ==> (v * base + d) % m == v * base % m + d
  {
    ModProduct(v, base, m);
    var p := v * base;
    if p % m + d < m { WrappedSum(p, d, m); }
  }

  lemma RoomForSmall(v: nat, base: nat, d: nat, m: nat)
    requires base >= 10 && v * base + d < m
    ensures v < m && v * base % m + d < m
  {
    Scales(v, base);
    Congruent(v * base, m);
  }

  /** A number that fits never lacks room. */
  lemma {:induction false} FittingHasRoom(bits: nat, s: string, base: nat)
    requires IsWidth(bits) && base >= 10
    requires Value(s, base).Some? && Value(s, base).value < Modulus(bits)
    ensures RoomThroughout(bits, s, base)
  {
    if s != "" {
      var v, d := Value(s[..|s| - 1], base).value, Digit(s[|s| - 1], base).value;
      RoomForSmall(v, base, d, Modulus(bits));
      FittingHasRoom(bits, s[..|s| - 1], base);
      RoomFront(bits, s, base);
    }
  }

  lemma {:induction false} FirstDigitCounts(s: string, base: nat)
    requires base >= 10 && s != "" && s[0] != '0' && Value(s, base).Some?
    ensures Value(s, base).value > 0
  {
    if |s| > 1 {
      var front := s[..|s| - 1];
      FirstDigitCounts(front, base);
      Scales(Value(front, base).value, base);
    }
  }

  lemma MatchShape(text: string)
    ensures Match(text).Some? && Match(text).value.Digits? ==>
      var n := Match(text).value; n.base >= 10 && n.digits != "" && n.digits[0] != '0'
  {}

  /** For 8- and 16-bit types: a text is accepted as `v` if and only if it means `v` and `v` is in range. */
  lemma ParsedNarrow(t: IntType, text: string, v: int)
    requires IsWidth(t.bits) && t.bits <= 16
    ensures Parsed(t, text) == Success(v) <==> Meaning(text) == Some(v) && InRange(t, v)
  {
    MatchShape(text);
    var n := Match(text);
    if n.Some? && n.value.Digits? {
      var value := Value(n.value.digits, n.value.base);
      NarrowExact(t.bits, n.value.digits, n.value.base);
      if value.Some? { FirstDigitCounts(n.value.digits, n.value.base); }
    }
  }

  /**
   For every type: an accepted value is the numeral's modulo two to the width and in range, and a
   rejected text is no numeral or out of range.
   */
  lemma ParsedModulo(t: IntType, text: string)
    requires IsWidth(t.bits)
    ensures match Parsed(t, text)
      case Success(v) => Meaning(text).Some? && InRange(t, v) && (v - Meaning(text).value) % Modulus(t.bits) == 0
      case Failure(_) => Meaning(text).Some? ==> !InRange(t, Meaning(text).value)
  {
    if t.bits <= 16 {
      if Parsed(t, text).Success? { ParsedNarrow(t, text, Parsed(t, text).value); }
      if Meaning(text).Some? { ParsedNarrow(t, text, Meaning(text).value); }
    } else {
      MatchShape(text);
      var n := Match(text);
      if n.Some? && n.value.Digits? {
        ParsedWide(t, text, n.value);
      }
    }
  }

  lemma ParsedWide(t: IntType, text: string, n: Numeral)
    requires IsWidth(t.bits) && t.bits > 16
    requires Match(text) == Some(n) && n.Digits? && n.base >= 10 && n.digits != "" && n.digits[0] != '0'
    ensures match Parsed(t, text)
      case Success(v) => Meaning(text).Some? && InRange(t, v) && (v - Meaning(text).value) % Modulus(t.bits) == 0
      case Failure(_) => Meaning(text).Some? ==> !InRange(t, Meaning(text).value)
  {
    var m := Modulus(t.bits);
    AccumulatedExact(t.bits, n.digits, n.base);
    var value := Value(n.digits, n.base);
    if value.Some? {
      FirstDigitCounts(n.digits, n.base);
      if value.value < m { FittingHasRoom(t.bits, n.digits, n.base); }
      Congruent(value.value, m);
    }
  }

  /** A text is read as it means, or rejected for being out of range. */
  predicate Correct(t: IntType, text: string)
    requires IsWidth(t.bits)
  {
    Parsed(t, text) == (match Meaning(text)
                        case Some(v) => if InRange(t, v) then Success(v) else Failure(IncorrectType(text))
                        case None => Failure(IncorrectType(text)))
  }

  /** The wrapped products leave room for every digit, and the sign check lets the remainder through. */
  predicate Unnoticed(t: IntType, n: Numeral)
    requires IsWidth(t.bits) && n.Digits?
  {
    var value := Value(n.digits, n.base);
    && value.Some? && value.value >= Modulus(t.bits)
    && RoomThroughout(t.bits, n.digits, n.base)
    && var u := value.value % Modulus(t.bits);
       if n.negative then t.signed && u <= Modulus(t.bits) / 2 else InRange(t, u)
  }

  /** A 32- or 64-bit type reads a text correctly unless the text is a numeral whose overflow goes unnoticed. */
  lemma WideExact(t: IntType, text: string)
    requires IsWidth(t.bits) && t.bits > 16
    ensures Correct(t, text) <==>
            !(Match(text).Some? && Match(text).value.Digits? && Unnoticed(t, Match(text).value))
  {
    MatchShape(text);
    var n := Match(text);
    if n.Some? && n.value.Digits? { WideDigits(t, text, n.value); }
  }

  lemma WideDigits(t: IntType, text: string, n: Numeral)
    requires IsWidth(t.bits) && t.bits > 16
    requires Match(text) == Some(n) && n.Digits? && n.base >= 10 && n.digits != "" && n.digits[0] != '0'
    ensures Correct(t, text) <==> !Unnoticed(t, n)
  {
    AccumulatedExact(t.bits, n.digits, n.base);
    var value := Value(n.digits, n.base);
    if value.Some? {
      FirstDigitCounts(n.digits, n.base);
      Congruent(value.value, Modulus(t.bits));
      if value.value < Modulus(t.bits) { FittingHasRoom(t.bits, n.digits, n.base); }
    }
  }

  lemma {:induction false} DecimalValue(n: nat)
    ensures Value(Decimal(n), 10) == Some(n)
  {
    if n < 10 {
      assert Decimal(n)[..0] == "";
    } else {
      DecimalValue(n / 10);
      var front := Decimal(n / 10);
      assert Decimal(n)[..|Decimal(n)| - 1] == front;
      assert Decimal(n)[|Decimal(n)| - 1] == ('0' as int + n % 10) as char;
      assert n == n / 10 * 10 + n % 10;
    }
  }

  lemma DecimalMatch(s: string)
    requires s != "" && s[0] != '0' && forall i :: 0 <= i < |s| ==> '0' <= s[i] <= '9'
    ensures Match(s) == Some(Digits(false, 10, s))
    ensures Match("-" + s) == Some(Digits(true, 10, s))
  {
    var c := s[0];
    assert forall i :: 0 <= i < |s| ==> IsAlnum(s[i]);
    assert s != "0" && s != "0x0" && s[0] != '-';
    assert ("-" + s)[1..] == s && ("-" + s)[0] == '-';
  }

  lemma DecimalMeaning(v: int)
    ensures Meaning(Decimal(v)) == Some(v)
    ensures v != 0 ==> Match(Decimal(v)) == Some(Digits(v < 0, 10, Decimal(if v < 0 then -v else v)))
  {
    var n := if v < 0 then -v else v;
    DecimalValue(n);
    if v != 0 {
      DecimalChars(n);
      DecimalMatch(Decimal(n));
    }
  }

  /** Every number of every type survives being written in decimal and read back. */
  lemma ReadBack(t: IntType, v: int)
    requires IsWidth(t.bits) && InRange(t, v)
    ensures Parsed(t, Decimal(v)) == Success(v)
  {
    DecimalMeaning(v);
    if t.bits <= 16 {
      ParsedNarrow(t, Decimal(v), v);
    } else if v != 0 {
      WideExact(t, Decimal(v));
      var n := if v < 0 then -v else v;
      DecimalValue(n);
      assert n < Modulus(t.bits);
    }
  }

  lemma FittingRead(bits: nat, s: string, base: nat)
    requires IsWidth(bits) && bits > 16 && base >= 10
    requires Value(s, base).Some? && Value(s, base).value < Modulus(bits)
    ensures Accumulated(bits, s, base) == Value(s, base)
  {
    FittingHasRoom(bits, s, base);
    AccumulatedExact(bits, s, base);
    Congruent(Value(s, base).value, Modulus(bits));
  }

  lemma AccumulatedTenfold(bits: nat, n: nat)
    requires IsWidth(bits) && bits > 16 && 0 < n < Modulus(bits)
    ensures Accumulated(bits, Decimal(10 * n), 10) == Some(10 * n % Modulus(bits))
  {
    var front, s := Decimal(n), Decimal(10 * n);
    DecimalValue(n);
    FittingRead(bits, front, 10);
    assert 10 * n / 10 == n && 10 * n % 10 == 0;
    assert s == front + "0" && s[..|s| - 1] == front && s[|s| - 1] == '0';
    assert Accumulated(bits, s, 10) == Step(bits, Some(n), Some(0), 10);
  }

  /** An unsigned type takes ten times any number it holds for that product modulo two to its width. */
  lemma TenfoldWraps(t: IntType, n: nat)
    requires IsWidth(t.bits) && t.bits > 16 && !t.signed && 0 < n < Modulus(t.bits)
    ensures Meaning(Decimal(10 * n)) == Some(10 * n)
    ensures Parsed(t, Decimal(10 * n)) == Success(10 * n % Modulus(t.bits))
  {
    DecimalMeaning(10 * n);
    AccumulatedTenfold(t.bits, n);
  }

  lemma WrongValue(t: IntType, text: string)
    requires IsWidth(t.bits) && Parsed(t, text).Success? && Meaning(text).Some?
    requires !InRange(t, Meaning(text).value)
    ensures !Correct(t, text)
  {}

  /** So it misreads all of these that do not fit: 4294967300, for one, as 4. */
  lemma TenfoldWrong(t: IntType, n: nat)
    requires IsWidth(t.bits) && t.bits > 16 && !t.signed && n < Modulus(t.bits) <= 10 * n
    ensures !Correct(t, Decimal(10 * n))
    ensures t.bits == 32 && n == 429496730 ==> Parsed(t, Decimal(10 * n)) == Success(4)
  {
    TenfoldWraps(t, n);
    WrongValue(t, Decimal(10 * n));
    assert 4294967300 % 0x1_0000_0000 == 4;
  }
}
