/** Decimal notation as std::to_string writes it. */
module Numerals {
  function Decimal(n: int): (r: string)
    ensures r != ""
    decreases n < 0, if n < 0 then -n else n
  {
    if n < 0 then "-" + Decimal(-n)
    else if n < 10 then [('0' as int + n) as char]
    else Decimal(n / 10) + [('0' as int + n % 10) as char]
  }

  lemma {:induction false} DecimalChars(n: int)
    ensures forall i :: 0 <= i < |Decimal(n)| ==> '0' <= Decimal(n)[i] <= '9' || Decimal(n)[i] == '-'
    ensures n >= 0 ==> forall i :: 0 <= i < |Decimal(n)| ==> '0' <= Decimal(n)[i] <= '9'
    ensures n > 0 ==> Decimal(n)[0] != '0'
    decreases n < 0, if n < 0 then -n else n
  {
    if n < 0 { DecimalChars(-n); } else if n >= 10 { DecimalChars(n / 10); }
  }
}
