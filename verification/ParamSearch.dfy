/**
 Which field a lookup finds in any text at all: fields are counted from the front, and names are
 compared without regard to the case of their letters.
 */
module ParamSearch {
  import opened UrlCodec
  import opened QueryParams
  import opened Wrappers

  // ----- Case -----

  /** The same letter in the two cases. */
  predicate OtherCase(a: Byte, b: Byte) {
    ('A' as int <= a <= 'Z' as int && b == a + 32) || ('A' as int <= b <= 'Z' as int && a == b + 32)
  }

  /** Two names are the same if they differ at most in the case of letters. */
  lemma SameFoldExact(a: seq<Byte>, b: seq<Byte>)
    ensures SameFold(a, b) <==> |a| == |b| && forall i :: 0 <= i < |a| ==> a[i] == b[i] || OtherCase(a[i], b[i])
  {
    if |a| == |b| {
      forall i | 0 <= i < |a|
        ensures Lower(a[i]) == Lower(b[i]) <==> a[i] == b[i] || OtherCase(a[i], b[i])
      {
      }
    }
  }

  function UpperByte(b: Byte): Byte {
    if 'a' as int <= b <= 'z' as int then b - 32 else b
  }

  function Upper(s: seq<Byte>): (r: seq<Byte>)
    ensures |r| == |s| && forall i :: 0 <= i < |s| ==> r[i] == UpperByte(s[i])
  {
    seq(|s|, i requires 0 <= i < |s| => UpperByte(s[i]))
  }

  lemma UpperFolds(name: seq<Byte>, key: seq<Byte>)
    ensures SameFold(name, key) <==> SameFold(Upper(name), key)
  {
    if |name| == |key| {
      forall i | 0 <= i < |name|
        ensures Lower(name[i]) == Lower(Upper(name)[i])
      {
        assert Upper(name)[i] == UpperByte(name[i]);
      }
    }
  }

  lemma {:induction false} ScanUpper(s: seq<Byte>, atStart: bool, name: seq<Byte>, k: nat)
    ensures Scan(s, atStart, name, k) == Scan(s, atStart, Upper(name), k)
    decreases |s|
  {
    if |name| < |s| {
      UpperFolds(name, s[..|name|]);
      if atStart && StartsField(s, name) {
        if k > 0 { ScanUpper(s[1..], s[0] == AMPERSAND, name, k - 1); }
      } else {
        ScanUpper(s[1..], s[0] == AMPERSAND, name, k);
      }
    }
  }

  /** A lookup finds the same under a name written in capitals. */
  lemma LookupIgnoresCase(data: seq<Byte>, name: seq<Byte>, k: nat)
    ensures Param(data, name, k) == Param(data, Upper(name), k)
  {
    ScanUpper(data, true, name, k);
  }

  // ----- Any text -----

  /** A field of the name begins at `p`: at the front or after an ampersand, the name up to case, and an equals sign. */
  predicate Begins(data: seq<Byte>, name: seq<Byte>, p: nat) {
    && p + |name| < |data| && (p == 0 || data[p - 1] == '&' as int) && data[p + |name|] == '=' as int
    && forall i :: 0 <= i < |name| ==> data[p + i] == name[i] || OtherCase(data[p + i], name[i])
  }

  /** How many begin before `n`. */
  function Count(data: seq<Byte>, name: seq<Byte>, n: nat): nat {
    if n == 0 then 0 else Count(data, name, n - 1) + if Begins(data, name, n - 1) then 1 else 0
  }

  /** The text at `p` up to the next ampersand, or to the end. */
  ghost predicate ValueAt(data: seq<Byte>, p: nat, value: seq<Byte>) {
    && p + |value| <= |data| && data[p..p + |value|] == value && '&' as int !in value
    && (p + |value| < |data| ==> data[p + |value|] == '&' as int)
  }

  lemma BeginsIs(data: seq<Byte>, name: seq<Byte>, p: nat)
    requires p + |name| < |data|
    ensures Begins(data, name, p) <==> (p == 0 || data[p - 1] == AMPERSAND) && StartsField(data[p..], name)
  {
    var key := data[p..][..|name|];
    SameFoldExact(name, key);
    assert forall i :: 0 <= i < |name| ==> key[i] == data[p + i];
  }

  lemma ValueIs(data: seq<Byte>, p: nat)
    requires p <= |data|
    ensures ValueAt(data, p, UpToAmpersand(data[p..]))
  {
    var value := UpToAmpersand(data[p..]);
    assert data[p..p + |value|] == data[p..][..|value|];
  }

  lemma {:induction false} ScanFinds(data: seq<Byte>, name: seq<Byte>, p: nat, left: nat)
    requires p <= |data|
    ensures var r, atStart := Scan(data[p..], p == 0 || data[p - 1] == AMPERSAND, name, left), Count(data, name, p);
      && (r.Some? <==> Count(data, name, |data|) > atStart + left)
      && (r.Some? ==> exists q: nat, value ::
            Begins(data, name, q) && Count(data, name, q) == atStart + left
            && ValueAt(data, q + |name| + 1, value) && r == Some(Decoded(value, true)))
    decreases |data| - p
  {
    if p + |name| >= |data| {
      NoMore(data, name, p, |data|);
    } else {
      BeginsIs(data, name, p);
      assert data[p..][1..] == data[p + 1..];
      if Begins(data, name, p) && left == 0 {
        ValueIs(data, p + |name| + 1);
        assert data[p..][|name| + 1..] == data[p + |name| + 1..];
        CountGrows(data, name, p + 1, |data|);
      } else if Begins(data, name, p) {
        ScanFinds(data, name, p + 1, left - 1);
      } else {
        ScanFinds(data, name, p + 1, left);
      }
    }
  }

  lemma {:induction false} NoMore(data: seq<Byte>, name: seq<Byte>, p: nat, n: nat)
    requires p <= n && p + |name| >= |data|
    ensures Count(data, name, n) == Count(data, name, p)
    decreases n
  {
    if p < n { NoMore(data, name, p, n - 1); }
  }

  lemma {:induction false} CountGrows(data: seq<Byte>, name: seq<Byte>, p: nat, n: nat)
    requires p <= n
    ensures Count(data, name, p) <= Count(data, name, n)
    decreases n
  {
    if p < n { CountGrows(data, name, p, n - 1); }
  }

  /**
   In any text, occurrence `k` of a name is the value, decoded, of the field that begins after
   exactly `k` others of the name; nothing is found exactly if no more than `k` begin at all.
   */
  lemma LookupFinds(data: seq<Byte>, name: seq<Byte>, k: nat)
    ensures Param(data, name, k) == None <==> Count(data, name, |data|) <= k
    ensures Param(data, name, k).Some? ==> exists q: nat, value ::
      Begins(data, name, q) && Count(data, name, q) == k
      && ValueAt(data, q + |name| + 1, value) && Param(data, name, k) == Some(Decoded(value, true))
  {
    ScanFinds(data, name, 0, k);
    assert data[0..] == data;
  }
}
