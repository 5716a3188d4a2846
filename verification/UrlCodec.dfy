/**
 Percent-encoding (section 2.1 of RFC 3986) and its form variant (section 8.2.1 of RFC 1866),
 as CivetServer writes and reads them.
 */
module UrlCodec {
  import opened Sequences

  type Byte = n: nat | n < 256

  const SPACE: Byte := 32
  const PERCENT: Byte := 37
  const AMPERSAND: Byte := 38
  const PLUS: Byte := 43
  const EQUALS: Byte := 61

  predicate IsDigit(b: Byte) {
    48 <= b <= 57
  }

  predicate IsAlnum(b: Byte) {
    IsDigit(b) || 65 <= b <= 90 || 97 <= b <= 122
  }

  predicate IsHex(b: Byte) {
    IsDigit(b) || 65 <= b <= 70 || 97 <= b <= 102
  }

  function Lower(b: Byte): Byte {
    if 65 <= b <= 90 then b + 32 else b
  }

  /** `._-$,;~()`, and the terminating zero that strchr finds as well. */
  predicate Kept(b: Byte) {
    b == 46 || b == 95 || b == 45 || b == 36 || b == 44 || b == 59 || b == 126 || b == 40 || b == 41 || b == 0
  }

  predicate Unescaped(b: Byte) {
    IsAlnum(b) || Kept(b)
  }

  function HexDigit(n: nat): Byte
    requires n < 16
  {
    if n < 10 then 48 + n else 87 + n
  }

  function HexValue(b: Byte): nat
    requires IsHex(b)
    ensures HexValue(b) < 16
  {
    var x := Lower(b);
    if IsDigit(x) then x - 48 else x - 87
  }

  function EncodeByte(b: Byte): (r: seq<Byte>)
    ensures r != []
  {
    if Unescaped(b) then [b] else [PERCENT, HexDigit(b / 16), HexDigit(b % 16)]
  }

  function Encoded(s: seq<Byte>): seq<Byte> {
    if s == [] then [] else EncodeByte(s[0]) + Encoded(s[1..])
  }

  predicate EscapeAt(s: seq<Byte>, i: nat) {
    i + 2 < |s| && s[i] == PERCENT && IsHex(s[i + 1]) && IsHex(s[i + 2])
  }

  function Decoded(s: seq<Byte>, form: bool): seq<Byte> {
    if s == [] then []
    else if EscapeAt(s, 0) then [16 * HexValue(s[1]) + HexValue(s[2])] + Decoded(s[3..], form)
    else if form && s[0] == PLUS then [SPACE] + Decoded(s[1..], form)
    else [s[0]] + Decoded(s[1..], form)
  }

  lemma EncodeStep(dst: seq<Byte>, src: seq<Byte>, i: nat)
    requires i < |src|
    ensures dst + Encoded(src[i..]) == (dst + EncodeByte(src[i])) + Encoded(src[i + 1..])
  {
    assert src[i..][1..] == src[i + 1..];
    Associate(dst, EncodeByte(src[i]), Encoded(src[i + 1..]));
  }

  method UrlEncode(src: seq<Byte>, dst0: seq<Byte>, append: bool) returns (dst: seq<Byte>)
    ensures dst == (if append then dst0 else []) + Encoded(src)
  {
    dst := dst0;
    if !append {
      dst := [];
    }
    ghost var start := dst;
    assert src[0..] == src;
    for i := 0 to |src|
      invariant dst + Encoded(src[i..]) == start + Encoded(src)
    {
      EncodeStep(dst, src, i);
      var b := src[i];
      ghost var before := dst;
      if IsAlnum(b) || Kept(b) {
        dst := dst + [b];
      } else {
        dst := dst + [PERCENT];
        dst := dst + [HexDigit(b / 16)];
        dst := dst + [HexDigit(b % 16)];
      }
      assert dst == before + EncodeByte(b);
    }
    assert dst + [] == dst;
  }

  method UrlDecode(src: seq<Byte>, form: bool) returns (dst: seq<Byte>)
    ensures dst == Decoded(src, form)
  {
    dst := [];
    var i := 0;
    ghost var all := Decoded(src, form);
    assert src[0..] == src && [] + all == all;
    while i < |src|
      invariant i <= |src|
      invariant dst + Decoded(src[i..], form) == all
    {
      DecodeStep(dst, src, i, form);
      if i < |src| - 2 && src[i] == PERCENT && IsHex(src[i + 1]) && IsHex(src[i + 2]) {
        var value := HexValue(src[i + 1]) * 16 + HexValue(src[i + 2]);
        dst := dst + [value];
        i := i + 3;
      } else {
        var c := if form && src[i] == PLUS then SPACE else src[i];
        dst := dst + [c];
        i := i + 1;
      }
    }
    assert dst + [] == dst;
  }

  lemma DecodeAt(src: seq<Byte>, i: nat, form: bool)
    requires i < |src|
    ensures Decoded(src[i..], form) ==
      if EscapeAt(src, i) then [HexValue(src[i + 1]) * 16 + HexValue(src[i + 2])] + Decoded(src[i + 3..], form)
      else [if form && src[i] == PLUS then SPACE else src[i]] + Decoded(src[i + 1..], form)
  {
    var rest := src[i..];
    assert rest[1..] == src[i + 1..];
    if EscapeAt(src, i) {
      assert EscapeAt(rest, 0) && rest[3..] == src[i + 3..];
    }
  }

  lemma DecodeStep(dst: seq<Byte>, src: seq<Byte>, i: nat, form: bool)
    requires i < |src|
    ensures dst + Decoded(src[i..], form) ==
      if EscapeAt(src, i) then dst + [HexValue(src[i + 1]) * 16 + HexValue(src[i + 2])] + Decoded(src[i + 3..], form)
      else dst + [if form && src[i] == PLUS then SPACE else src[i]] + Decoded(src[i + 1..], form)
  {
    DecodeAt(src, i, form);
    if EscapeAt(src, i) {
      Associate(dst, [HexValue(src[i + 1]) * 16 + HexValue(src[i + 2])], Decoded(src[i + 3..], form));
    } else {
      Associate(dst, [if form && src[i] == PLUS then SPACE else src[i]], Decoded(src[i + 1..], form));
    }
  }

  // ----- Round trip -----

  lemma HexDigits(n: nat)
    requires n < 16
    ensures IsHex(HexDigit(n)) && HexValue(HexDigit(n)) == n
  {
  }

  lemma DecodeUnit(b: Byte, rest: seq<Byte>, form: bool)
    ensures Decoded(EncodeByte(b) + rest, form) == [b] + Decoded(rest, form)
  {
    var s := EncodeByte(b) + rest;
    if Unescaped(b) {
      assert s[1..] == rest;
    } else {
      HexDigits(b / 16);
      HexDigits(b % 16);
      assert EscapeAt(s, 0);
      assert s[3..] == rest;
    }
  }

  /** Decoding undoes encoding, for every byte string and in both modes. */
  lemma {:induction false} DecodeEncode(s: seq<Byte>, form: bool)
    ensures Decoded(Encoded(s), form) == s
  {
    if s != [] {
      DecodeEncode(s[1..], form);
      DecodeUnit(s[0], Encoded(s[1..]), form);
    }
  }

  /** Encoded text is safe inside a form: it has no separator, no plus, no space. */
  predicate SafeByte(b: Byte) {
    b != AMPERSAND && b != EQUALS && b != PLUS && b != SPACE
  }

  lemma {:induction false} EncodedSafe(s: seq<Byte>)
    ensures forall i :: 0 <= i < |Encoded(s)| ==> SafeByte(Encoded(s)[i])
    ensures forall i :: 0 <= i < |Encoded(s)| && Encoded(s)[i] == PERCENT ==> EscapeAt(Encoded(s), i)
  {
    if s != [] {
      EncodedSafe(s[1..]);
      var unit, rest := EncodeByte(s[0]), Encoded(s[1..]);
      HexDigits(s[0] / 16);
      HexDigits(s[0] % 16);
      forall i | 0 <= i < |unit + rest|
        ensures SafeByte((unit + rest)[i])
        ensures (unit + rest)[i] == PERCENT ==> EscapeAt(unit + rest, i)
      {
        if i >= |unit| {
          assert (unit + rest)[i] == rest[i - |unit|];
          if rest[i - |unit|] == PERCENT { assert EscapeAt(rest, i - |unit|); }
        }
      }
    }
  }

  /** Encoded text is free of zero bytes only if the source is: they are not escaped. */
  /** The encoding of one zero byte is that byte. */
  lemma ZeroExample()
    ensures Encoded([0]) == [0]
  {
    assert [0][1..] == [];
    assert EncodeByte(0) == [0];
  }

  lemma {:induction false} ZeroKept(s: seq<Byte>)
    ensures 0 in Encoded(s) <==> 0 in s
  {
    if s != [] {
      ZeroKept(s[1..]);
      var unit := EncodeByte(s[0]);
      HexDigits(s[0] / 16);
      HexDigits(s[0] % 16);
      assert 0 in unit <==> s[0] == 0 by {
        if s[0] == 0 { assert unit[0] == 0; }
      }
      assert s == [s[0]] + s[1..];
    }
  }
}
