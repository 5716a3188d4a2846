/** The characters of the C locale's letters and digits, written out. */
module Ascii {
  const DIGITS := "0123456789"
  const LOWER := "abcdefghijklmnopqrstuvwxyz"
  const UPPER := "ABCDEFGHIJKLMNOPQRSTUVWXYZ"

  const HEX := "0123456789abcdef"
  const HEX_UPPER := "0123456789ABCDEF"

  lemma InOrder(s: string, first: char, c: char)
    requires first as int + |s| <= 0xD000
    requires forall i :: 0 <= i < |s| ==> s[i] as int == first as int + i
    ensures c in s <==> first as int <= c as int < first as int + |s|
  {
    if first as int <= c as int < first as int + |s| {
      assert s[c as int - first as int] == c;
    }
  }

  predicate Alnum(c: char) {
    c in DIGITS || c in LOWER || c in UPPER
  }
}
