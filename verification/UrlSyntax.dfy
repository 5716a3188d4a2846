/** Which bytes are escaped and how, and what every text decodes to. */
module UrlSyntax {
  import opened Ascii
  import opened UrlCodec

  /** Letters, digits, nine marks and the zero byte are written as they are. */
  lemma UnescapedExact(b: Byte)
    ensures Unescaped(b) <==> Alnum(b as char) || b as char in "._-$,;~()" || b == 0
  {
    InOrder(DIGITS, '0', b as char);
    InOrder(LOWER, 'a', b as char);
    InOrder(UPPER, 'A', b as char);
    var marks := "._-$,;~()";
    assert b as char in marks <==>
      (b == 46 || b == 95 || b == 45 || b == 36 || b == 44 || b == 59 || b == 126 || b == 40 || b == 41) by {
      assert marks[0] == 46 as char && marks[1] == 95 as char && marks[2] == 45 as char && marks[3] == 36 as char
          && marks[4] == 44 as char && marks[5] == 59 as char && marks[6] == 126 as char && marks[7] == 40 as char
          && marks[8] == 41 as char;
    }
  }

  /** Any other byte is written as a percent sign and two digits of base sixteen, in lower case, the higher one first. */
  lemma EscapeExact(b: Byte)
    ensures EncodeByte(b) ==
      if Unescaped(b) then [b] else ['%' as int as Byte, HEX[b / 16] as int as Byte, HEX[b % 16] as int as Byte]
  {
  }

  /** Bytes are encoded one after another. */
  lemma EncodedByByte(s: seq<Byte>, b: Byte)
    ensures Encoded([]) == [] && Encoded([b] + s) == EncodeByte(b) + Encoded(s)
  {
    assert ([b] + s)[1..] == s;
  }

  /** A digit of base sixteen, in lower or upper case, and its value. */
  lemma HexExact(b: Byte, v: nat)
    ensures IsHex(b) && HexValue(b) == v <==> v < 16 && (HEX[v] == b as char || HEX_UPPER[v] == b as char)
  {
  }

  /** A percent sign and two such digits are read as one byte. */
  lemma DecodedEscape(a: Byte, b: Byte, rest: seq<Byte>, form: bool)
    requires IsHex(a) && IsHex(b)
    ensures Decoded(['%' as int as Byte, a, b] + rest, form) == [16 * HexValue(a) + HexValue(b)] + Decoded(rest, form)
  {
    var s := [PERCENT, a, b] + rest;
    assert s[3..] == rest;
    assert EscapeAt(s, 0);
  }

  /** Where no escape begins, a byte stands for itself, and in a form a plus sign for a space. */
  lemma DecodedByte(c: Byte, rest: seq<Byte>, form: bool)
    requires c == '%' as int ==> |rest| < 2 || !IsHex(rest[0]) || !IsHex(rest[1])
    ensures Decoded([], form) == []
    ensures Decoded([c] + rest, form) == [if form && c == '+' as int then ' ' as int as Byte else c] + Decoded(rest, form)
  {
    var s := [c] + rest;
    assert s[1..] == rest;
    assert |s| > 2 ==> s[1] == rest[0] && s[2] == rest[1];
  }
}
