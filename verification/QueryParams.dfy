/**
 Looking a field up in form data: a scan for `name=` at the start of the data or after an
 ampersand, with the name compared up to ASCII case.
 */
module QueryParams {
  import opened Wrappers
  import opened UrlCodec

  /** The comparison mg_strncasecmp makes over the length of the name. */
  predicate SameFold(a: seq<Byte>, b: seq<Byte>) {
    |a| == |b| && forall i :: 0 <= i < |a| ==> Lower(a[i]) == Lower(b[i])
  }

  predicate StartsField(s: seq<Byte>, name: seq<Byte>) {
    |name| < |s| && s[|name|] == EQUALS && SameFold(name, s[..|name|])
  }

  /** The text before the first ampersand. */
  function UpToAmpersand(s: seq<Byte>): (r: seq<Byte>)
    ensures |r| <= |s| && r == s[..|r|]
    ensures forall i :: 0 <= i < |r| ==> r[i] != AMPERSAND
    ensures |r| < |s| ==> s[|r|] == AMPERSAND
  {
    if s == [] || s[0] == AMPERSAND then [] else [s[0]] + UpToAmpersand(s[1..])
  }

  /** The scan from a position; `atStart` says whether a field may start there. */
  function Scan(s: seq<Byte>, atStart: bool, name: seq<Byte>, occurrence: nat): Option<seq<Byte>> {
    if |name| >= |s| then None
    else if atStart && StartsField(s, name) then
      if occurrence == 0 then Some(Decoded(UpToAmpersand(s[|name| + 1..]), true))
      else Scan(s[1..], s[0] == AMPERSAND, name, occurrence - 1)
    else Scan(s[1..], s[0] == AMPERSAND, name, occurrence)
  }

  function Param(data: seq<Byte>, name: seq<Byte>, occurrence: nat): Option<seq<Byte>> {
    Scan(data, true, name, occurrence)
  }

  /** The buffer form of getParam; the data and the name may be null pointers. */
  method GetParam(data: Option<seq<Byte>>, name: Option<seq<Byte>>, occurrence: nat)
    returns (found: bool, dst: seq<Byte>)
    ensures data.None? || name.None? ==> !found && dst == []
    ensures data.Some? && name.Some? ==>
      match Param(data.value, name.value, occurrence)
      case None => !found && dst == []
      case Some(v) => found && dst == v
  {
    found, dst := false, [];
    if data.None? || name.None? || data.value == [] {
      return;
    }
    var text, key, left := data.value, name.value, occurrence;
    var p := 0;
    while p + |key| < |text|
      invariant p <= |text| && dst == []
      invariant Param(text, key, occurrence) == Scan(text[p..], p == 0 || text[p - 1] == AMPERSAND, key, left)
    {
      ghost var rest := text[p..];
      assert rest[1..] == text[p + 1..] && rest[..|key|] == text[p..p + |key|];
      if (p == 0 || text[p - 1] == AMPERSAND) && text[p + |key|] == EQUALS && SameFold(key, text[p..p + |key|]) {
        if left == 0 {
          var value := text[p + |key| + 1..];
          assert rest[|key| + 1..] == value;
          dst := UrlDecode(UpToAmpersand(value), true);
          found := true;
          return;
        }
        left := left - 1;
      }
      p := p + 1;
    }
  }

  // ----- Forms -----

  datatype Field = Field(key: seq<Byte>, value: seq<Byte>)

  predicate Plain(key: seq<Byte>) {
    forall i :: 0 <= i < |key| ==> key[i] != AMPERSAND && key[i] != EQUALS
  }

  ghost predicate PlainKeys(fields: seq<Field>) {
    forall i :: 0 <= i < |fields| ==> Plain(fields[i].key)
  }

  function Unit(f: Field): seq<Byte> {
    f.key + [EQUALS] + Encoded(f.value)
  }

  function Form(fields: seq<Field>): seq<Byte> {
    if fields == [] then []
    else if |fields| == 1 then Unit(fields[0])
    else Unit(fields[0]) + [AMPERSAND] + Form(fields[1..])
  }

  /** The value of the field with the given number among those whose key is the name up to case. */
  function Pick(fields: seq<Field>, name: seq<Byte>, occurrence: nat): Option<seq<Byte>> {
    if fields == [] then None
    else if SameFold(name, fields[0].key) then
      if occurrence == 0 then Some(fields[0].value) else Pick(fields[1..], name, occurrence - 1)
    else Pick(fields[1..], name, occurrence)
  }

  // ----- Scanning a form -----

  lemma {:induction false} SkipInside(a: seq<Byte>, r: seq<Byte>, name: seq<Byte>, k: nat)
    requires forall i :: 0 <= i < |a| ==> a[i] != AMPERSAND
    ensures Scan(a + r, false, name, k) == Scan(r, false, name, k)
  {
    if a == [] {
      assert a + r == r;
    } else {
      assert (a + r)[1..] == a[1..] + r;
      SkipInside(a[1..], r, name, k);
      ShortScan(r, false, name, k);
    }
  }

  lemma ShortScan(s: seq<Byte>, atStart: bool, name: seq<Byte>, k: nat)
    ensures |name| >= |s| ==> Scan(s, atStart, name, k) == None
  {
  }

  lemma UnitPlain(f: Field)
    requires Plain(f.key)
    ensures forall i :: 0 <= i < |Unit(f)| ==> Unit(f)[i] != AMPERSAND
    ensures forall i :: 0 <= i < |Unit(f)| ==> (Unit(f)[i] == EQUALS <==> i == |f.key|)
  {
    EncodedSafe(f.value);
    forall i | 0 <= i < |Unit(f)|
      ensures Unit(f)[i] != AMPERSAND && (Unit(f)[i] == EQUALS <==> i == |f.key|)
    {
      if i > |f.key| { assert Unit(f)[i] == Encoded(f.value)[i - |f.key| - 1]; }
    }
  }

  /** What follows the first field of a form: nothing, or an ampersand and the rest. */
  function Tail(fields: seq<Field>): seq<Byte>
    requires fields != []
  {
    if |fields| == 1 then [] else [AMPERSAND] + Form(fields[1..])
  }

  lemma FormSplit(fields: seq<Field>)
    requires fields != []
    ensures Form(fields) == Unit(fields[0]) + Tail(fields)
  {
  }

  /** After the first position, the scan runs on to the next field. */
  lemma ScanRest(fields: seq<Field>, name: seq<Byte>, k: nat)
    requires fields != [] && PlainKeys(fields)
    ensures Form(fields) != [] && Form(fields)[0] != AMPERSAND
    ensures Scan(Form(fields)[1..], false, name, k) == Scan(Form(fields[1..]), true, name, k)
  {
    var u, t := Unit(fields[0]), Tail(fields);
    UnitPlain(fields[0]);
    FormSplit(fields);
    assert Form(fields)[1..] == u[1..] + t;
    SkipInside(u[1..], t, name, k);
    if |fields| > 1 {
      assert t[1..] == Form(fields[1..]);
      ShortScan(Form(fields[1..]), true, name, k);
    }
  }

  lemma {:induction false} UpToIs(a: seq<Byte>, t: seq<Byte>)
    requires forall i :: 0 <= i < |a| ==> a[i] != AMPERSAND
    requires t != [] ==> t[0] == AMPERSAND
    ensures UpToAmpersand(a + t) == a
  {
    if a == [] {
      assert a + t == t;
    } else {
      assert (a + t)[1..] == a[1..] + t;
      UpToIs(a[1..], t);
    }
  }

  /** Where a field starts under its own key, its value is what the scan returns. */
  lemma FieldValue(fields: seq<Field>, name: seq<Byte>)
    requires fields != [] && PlainKeys(fields) && |name| == |fields[0].key|
    ensures |name| < |Form(fields)| && Form(fields)[|name|] == EQUALS
    ensures Form(fields)[..|name|] == fields[0].key
    ensures Decoded(UpToAmpersand(Form(fields)[|name| + 1..]), true) == fields[0].value
  {
    var f, t := fields[0], Tail(fields);
    FormSplit(fields);
    KeyAndValue(f.key, Encoded(f.value), t);
    EncodedSafe(f.value);
    UpToIs(Encoded(f.value), t);
    DecodeEncode(f.value, true);
  }

  lemma KeyAndValue(key: seq<Byte>, value: seq<Byte>, t: seq<Byte>)
    ensures var form := key + [EQUALS] + value + t;
      |key| < |form| && form[|key|] == EQUALS && form[..|key|] == key && form[|key| + 1..] == value + t
  {
  }

  // ----- Names that reach beyond one field -----

  /** The first index of an equals sign or an ampersand. */
  function FirstSpecial(s: seq<Byte>): (n: nat)
    ensures n <= |s| && Plain(s[..n])
    ensures n < |s| ==> s[n] == EQUALS || s[n] == AMPERSAND
  {
    if s == [] || s[0] == EQUALS || s[0] == AMPERSAND then 0 else
    var n := FirstSpecial(s[1..]);
    assert s[..n + 1] == [s[0]] + s[1..][..n];
    n + 1
  }

  datatype Parts = Parts(key: seq<Byte>, value: seq<Byte>, rest: seq<Byte>)

  function Joined(p: Parts): seq<Byte> {
    p.key + [EQUALS] + p.value + [AMPERSAND] + p.rest
  }

  predicate PlainParts(p: Parts) {
    Plain(p.key) && forall i :: 0 <= i < |p.value| ==> p.value[i] != AMPERSAND
  }

  /** Reads `key=value&` off the front of a name, if the name begins like that. */
  function Split(name: seq<Byte>): (r: Option<Parts>)
    ensures r.Some? ==> |r.value.rest| < |name|
  {
    var n := FirstSpecial(name);
    if n == |name| || name[n] == AMPERSAND then None else
    var after := name[n + 1..];
    var value := UpToAmpersand(after);
    if |value| == |after| then None else
    Some(Parts(name[..n], value, after[|value| + 1..]))
  }

  lemma SplitSound(name: seq<Byte>)
    requires Split(name).Some?
    ensures name == Joined(Split(name).value) && PlainParts(Split(name).value)
  {
    var n := FirstSpecial(name);
    var after := name[n + 1..];
    var value := UpToAmpersand(after);
    assert name == name[..n] + [EQUALS] + after;
    Rejoin(name[..n] + [EQUALS], value, after);
  }

  lemma Rejoin(front: seq<Byte>, value: seq<Byte>, after: seq<Byte>)
    requires |value| < |after| && value == after[..|value|] && after[|value|] == AMPERSAND
    ensures front + after == front + value + [AMPERSAND] + after[|value| + 1..]
  {
  }

  /**
   The name reads, up to case, like one or more whole fields followed by a key, so that it can
   match across field boundaries.
   */
  predicate Spanning(name: seq<Byte>)
    decreases |name|
  {
    match Split(name)
    case None => false
    case Some(p) => SameFold(p.value, Encoded(Decoded(p.value, true))) && (Plain(p.rest) || Spanning(p.rest))
  }

  lemma FoldSpecial(a: Byte, b: Byte)
    requires Lower(a) == Lower(b)
    ensures a == EQUALS <==> b == EQUALS
    ensures a == AMPERSAND <==> b == AMPERSAND
  {
  }

  lemma FoldPlain(a: seq<Byte>, b: seq<Byte>)
    requires SameFold(a, b) && Plain(b)
    ensures Plain(a)
  {
    forall i | 0 <= i < |a|
      ensures a[i] != AMPERSAND && a[i] != EQUALS
    {
      FoldSpecial(a[i], b[i]);
    }
  }

  lemma {:induction false} FirstSpecialIs(s: seq<Byte>, n: nat)
    requires n < |s| && Plain(s[..n]) && (s[n] == EQUALS || s[n] == AMPERSAND)
    ensures FirstSpecial(s) == n
  {
    if n > 0 {
      assert s[..n][0] == s[0];
      assert s[1..][..n - 1] == s[..n][1..];
      FirstSpecialIs(s[1..], n - 1);
    }
  }

  lemma FoldParts(a: seq<Byte>, b: seq<Byte>, n: nat)
    requires n <= |a| && |a| == |b|
    ensures SameFold(a, b) <==> SameFold(a[..n], b[..n]) && SameFold(a[n..], b[n..])
  {
    if SameFold(a[..n], b[..n]) && SameFold(a[n..], b[n..]) {
      forall i | 0 <= i < |a|
        ensures Lower(a[i]) == Lower(b[i])
      {
        if i < n { assert a[i] == a[..n][i]; } else { assert a[i] == a[n..][i - n]; }
      }
    }
  }

  lemma FoldConcat(a: seq<Byte>, b: seq<Byte>, c: seq<Byte>, d: seq<Byte>)
    requires SameFold(a, b) && SameFold(c, d)
    ensures SameFold(a + c, b + d)
  {
  }

  lemma CanonicalUnit(x: seq<Byte>, b: Byte, rest: seq<Byte>) returns (c: Byte)
    requires SameFold(x, EncodeByte(b))
    ensures SameFold(x, EncodeByte(c)) && Decoded(x + rest, true) == [c] + Decoded(rest, true)
  {
    if Unescaped(b) {
      c := x[0];
      assert Unescaped(c) && SameFold(x, EncodeByte(c));
      assert (x + rest)[1..] == rest;
    } else {
      c := b;
      HexDigits(b / 16);
      HexDigits(b % 16);
      var unit := EncodeByte(b);
      assert Lower(x[0]) == Lower(unit[0]) && Lower(x[1]) == Lower(unit[1]) && Lower(x[2]) == Lower(unit[2]);
      assert EscapeAt(x + rest, 0);
      assert (x + rest)[3..] == rest;
    }
  }

  lemma CanonicalConcat(head: seq<Byte>, rest: seq<Byte>, c: Byte)
    requires SameFold(head, EncodeByte(c)) && Decoded(head + rest, true) == [c] + Decoded(rest, true)
    requires SameFold(rest, Encoded(Decoded(rest, true)))
    ensures SameFold(head + rest, Encoded(Decoded(head + rest, true)))
  {
    var tail := Decoded(rest, true);
    assert ([c] + tail)[1..] == tail;
    FoldConcat(head, EncodeByte(c), rest, Encoded(tail));
  }

  /** Text that reads like some encoded value reads like the encoding of what it decodes to. */
  lemma {:induction false} Canonical(x: seq<Byte>, v: seq<Byte>)
    requires SameFold(x, Encoded(v))
    ensures SameFold(x, Encoded(Decoded(x, true)))
  {
    if v != [] {
      var head, rest := CanonicalParts(x, v);
      var c := CanonicalUnit(head, v[0], rest);
      Canonical(rest, v[1..]);
      CanonicalConcat(head, rest, c);
    }
  }

  lemma CanonicalParts(x: seq<Byte>, v: seq<Byte>) returns (head: seq<Byte>, rest: seq<Byte>)
    requires v != [] && SameFold(x, Encoded(v))
    ensures x == head + rest && SameFold(head, EncodeByte(v[0])) && SameFold(rest, Encoded(v[1..]))
  {
    var n := |EncodeByte(v[0])|;
    FoldConcatenated(x, EncodeByte(v[0]), Encoded(v[1..]));
    head, rest := x[..n], x[n..];
  }

  lemma FoldConcatenated(x: seq<Byte>, a: seq<Byte>, b: seq<Byte>)
    requires SameFold(x, a + b)
    ensures SameFold(x[..|a|], a) && SameFold(x[|a|..], b)
  {
    assert (a + b)[..|a|] == a && (a + b)[|a|..] == b;
    FoldParts(x, a + b, |a|);
  }

  /** The parts of a name are unique. */
  lemma SplitJoined(p: Parts)
    requires PlainParts(p)
    ensures Split(Joined(p)) == Some(p)
  {
    var name, n := Joined(p), |p.key|;
    assert name[..n] == p.key && name[n] == EQUALS;
    FirstSpecialIs(name, n);
    var after := name[n + 1..];
    assert after == p.value + ([AMPERSAND] + p.rest);
    UpToIs(p.value, [AMPERSAND] + p.rest);
    assert after[|p.value| + 1..] == p.rest;
  }

  /** Text that reads like joined parts splits into parts that read like them. */
  lemma FoldJoined(name: seq<Byte>, p: Parts)
    requires SameFold(name, Joined(p)) && PlainParts(p)
    ensures Split(name).Some?
    ensures var q := Split(name).value;
            SameFold(q.key, p.key) && SameFold(q.value, p.value) && SameFold(q.rest, p.rest)
  {
    var front, n, m := Joined(p), |p.key|, |p.key| + 1 + |p.value|;
    assert front[..n] == p.key && front[n] == EQUALS && front[n + 1..m] == p.value && front[m] == AMPERSAND
        && front[m + 1..] == p.rest;
    var q := Parts(name[..n], name[n + 1..m], name[m + 1..]);
    FoldPieces(name, front, n, m);
    FoldPlain(q.key, p.key);
    FoldSpecial(name[n], front[n]);
    FoldSpecial(name[m], front[m]);
    forall i | 0 <= i < |q.value|
      ensures q.value[i] != AMPERSAND
    {
      FoldSpecial(q.value[i], p.value[i]);
    }
    assert name == Joined(q);
    SplitJoined(q);
  }

  lemma FoldPieces(a: seq<Byte>, b: seq<Byte>, n: nat, m: nat)
    requires SameFold(a, b) && n < m < |a|
    ensures SameFold(a[..n], b[..n]) && SameFold(a[n + 1..m], b[n + 1..m]) && SameFold(a[m + 1..], b[m + 1..])
  {
  }

  /** A name that starts at a field either is its key or spans. */
  lemma {:induction false} StartsIsKey(fields: seq<Field>, name: seq<Byte>)
    requires fields != [] && PlainKeys(fields) && StartsField(Form(fields), name)
    ensures SameFold(name, fields[0].key) || Spanning(name)
    decreases |fields|
  {
    var f, text := fields[0], Form(fields);
    var m := |Unit(f)|;
    UnitPlain(f);
    FormSplit(fields);
    if |name| < m {
      assert text[|name|] == Unit(f)[|name|];
      assert text[..|name|] == f.key;
    } else {
      assert |fields| > 1 && text[m] == AMPERSAND && |name| > m;
      var n := |name| - m - 1;
      var p := Parts(f.key, Encoded(f.value), Form(fields[1..])[..n]);
      assert text[..|name|] == Joined(p);
      assert text[|name|] == Form(fields[1..])[n];
      EncodedSafe(f.value);
      FoldJoined(name, p);
      var q := Split(name).value;
      Canonical(q.value, f.value);
      StartsIsKey(fields[1..], q.rest);
      if SameFold(q.rest, fields[1].key) { FoldPlain(q.rest, fields[1].key); }
    }
  }

  lemma ScanHit(fields: seq<Field>, name: seq<Byte>, k: nat)
    requires fields != [] && PlainKeys(fields) && SameFold(name, fields[0].key)
    ensures Scan(Form(fields), true, name, k)
         == if k == 0 then Some(fields[0].value) else Scan(Form(fields[1..]), true, name, k - 1)
  {
    FieldValue(fields, name);
    if k > 0 { ScanRest(fields, name, k - 1); }
  }

  lemma ScanMiss(fields: seq<Field>, name: seq<Byte>, k: nat)
    requires fields != [] && PlainKeys(fields) && !StartsField(Form(fields), name)
    ensures Scan(Form(fields), true, name, k) == Scan(Form(fields[1..]), true, name, k)
  {
    ScanRest(fields, name, k);
    ShortScan(Form(fields)[1..], false, name, k);
  }

  lemma HitStarts(fields: seq<Field>, name: seq<Byte>)
    requires fields != [] && PlainKeys(fields) && !Spanning(name)
    ensures StartsField(Form(fields), name) ==> SameFold(name, fields[0].key)
  {
    if StartsField(Form(fields), name) { StartsIsKey(fields, name); }
  }

  /** For a name that does not span, getParam finds exactly the fields with that key. */
  lemma {:induction false} FormLookup(fields: seq<Field>, name: seq<Byte>, k: nat)
    requires PlainKeys(fields) && !Spanning(name)
    ensures Param(Form(fields), name, k) == Pick(fields, name, k)
    decreases |fields|
  {
    if fields != [] {
      HitStarts(fields, name);
      if SameFold(name, fields[0].key) {
        ScanHit(fields, name, k);
        if k > 0 { FormLookup(fields[1..], name, k - 1); }
      } else {
        ScanMiss(fields, name, k);
        FormLookup(fields[1..], name, k);
      }
    }
  }

  /** A form in which a spanning name is found although no key equals it. */
  function Forge(name: seq<Byte>): seq<Field>
    requires Spanning(name)
    decreases |name|
  {
    var p := Split(name).value;
    [Field(p.key, Decoded(p.value, true))] + if Plain(p.rest) then [Field(p.rest, [])] else Forge(p.rest)
  }

  lemma JoinStarts(key: seq<Byte>, value: seq<Byte>, code: seq<Byte>, rest: seq<Byte>, tail: seq<Byte>)
    requires SameFold(value, code) && StartsField(tail, rest)
    ensures StartsField(key + [EQUALS] + code + [AMPERSAND] + tail, key + [EQUALS] + value + [AMPERSAND] + rest)
  {
    var front, name := key + [EQUALS] + code + [AMPERSAND], key + [EQUALS] + value + [AMPERSAND] + rest;
    FoldConcat(key + [EQUALS], key + [EQUALS], value, code);
    FoldConcat(key + [EQUALS] + value, key + [EQUALS] + code, [AMPERSAND], [AMPERSAND]);
    FoldConcat(key + [EQUALS] + value + [AMPERSAND], front, rest, tail[..|rest|]);
    assert (front + tail)[..|name|] == front + tail[..|rest|];
    assert (front + tail)[|name|] == tail[|rest|];
  }

  lemma FormPair(f: Field, tail: seq<Field>)
    requires tail != []
    ensures Form([f] + tail) == f.key + [EQUALS] + Encoded(f.value) + [AMPERSAND] + Form(tail)
  {
    assert ([f] + tail)[1..] == tail;
  }

  lemma ForgeOne(p: Parts, tail: seq<Field>)
    requires PlainParts(p) && SameFold(p.value, Encoded(Decoded(p.value, true)))
    requires tail != [] && PlainKeys(tail) && StartsField(Form(tail), p.rest)
    ensures var fields := [Field(p.key, Decoded(p.value, true))] + tail;
      PlainKeys(fields) && StartsField(Form(fields), Joined(p))
  {
    var f := Field(p.key, Decoded(p.value, true));
    FormPair(f, tail);
    JoinStarts(f.key, p.value, Encoded(f.value), p.rest, Form(tail));
  }

  lemma LastField(key: seq<Byte>)
    requires Plain(key)
    ensures PlainKeys([Field(key, [])]) && StartsField(Form([Field(key, [])]), key)
  {
    assert Form([Field(key, [])]) == key + [EQUALS];
  }

  lemma {:induction false} ForgeStarts(name: seq<Byte>)
    requires Spanning(name)
    ensures |Forge(name)| > 1 && PlainKeys(Forge(name)) && StartsField(Form(Forge(name)), name)
    decreases |name|
  {
    var p := Split(name).value;
    SplitSound(name);
    if Plain(p.rest) {
      LastField(p.rest);
      ForgeOne(p, [Field(p.rest, [])]);
    } else {
      ForgeStarts(p.rest);
      ForgeOne(p, Forge(p.rest));
    }
  }

  lemma {:induction false} PickNeedsKey(fields: seq<Field>, name: seq<Byte>, k: nat)
    requires PlainKeys(fields) && !Plain(name)
    ensures Pick(fields, name, k) == None
  {
    if fields != [] {
      if SameFold(name, fields[0].key) { FoldPlain(name, fields[0].key); }
      PickNeedsKey(fields[1..], name, k);
    }
  }

  /**
   getParam returns the right field of every form, at every occurrence, exactly for the names
   that do not span; for a spanning name there is a form in which it finds a field nobody sent.
   */
  lemma LookupExact(name: seq<Byte>)
    ensures (forall fields, k: nat :: PlainKeys(fields) ==> Param(Form(fields), name, k) == Pick(fields, name, k))
            <==> !Spanning(name)
  {
    if Spanning(name) {
      var fields := Forge(name);
      ForgeStarts(name);
      SplitSound(name);
      assert name[|Split(name).value.key|] == EQUALS;
      PickNeedsKey(fields, name, 0);
      assert Param(Form(fields), name, 0) != Pick(fields, name, 0);
    } else {
      forall fields, k: nat | PlainKeys(fields)
        ensures Param(Form(fields), name, k) == Pick(fields, name, k)
      {
        FormLookup(fields, name, k);
      }
    }
  }

  /** A name without an equals sign, or without an ampersand, is always safe. */
  lemma SpanningNeedsBoth(name: seq<Byte>)
    ensures Spanning(name) ==> EQUALS in name && AMPERSAND in name
  {
    if Spanning(name) {
      SplitSound(name);
      var p := Split(name).value;
      var n := |p.key| + 1 + |p.value|;
      assert name[|p.key|] == EQUALS && name[n] == AMPERSAND;
    }
  }

  /** `a=1&b` names no key, but finds the 2 in `a=1&b=2`. */
  lemma SpanningNameExample()
    ensures var form := [Field([97], [49]), Field([98], [50])];
            var name := [97, EQUALS, 49, AMPERSAND, 98];
            PlainKeys(form) && Param(Form(form), name, 0) == Some([50]) && Pick(form, name, 0) == None
  {
    var a, b := Field([97], [49]), Field([98], [50]);
    var form := [a, b];
    var name := [97, EQUALS, 49, AMPERSAND, 98];
    assert Encoded([49]) == [49] && Encoded([50]) == [50];
    assert form[1..] == [b] && Unit(b) == [98, EQUALS, 50];
    assert Form(form) == [97, EQUALS, 49, AMPERSAND, 98, EQUALS, 50];
    assert name[1] == EQUALS;
    PickNeedsKey(form, name, 0);
    assert Form(form)[..5] == name;
    assert Form(form)[6..] == [50];
    assert UpToAmpersand([50]) == [50];
    assert Decoded([50], true) == [50];
  }

  // ----- Which field is picked -----

  function Matches(fields: seq<Field>, name: seq<Byte>): (r: nat)
    ensures r <= |fields|
  {
    if fields == [] then 0 else
    Matches(fields[..|fields| - 1], name) + if SameFold(name, fields[|fields| - 1].key) then 1 else 0
  }

  lemma {:induction false} MatchesHead(fields: seq<Field>, name: seq<Byte>)
    requires fields != []
    ensures Matches(fields, name) == Matches(fields[1..], name) + if SameFold(name, fields[0].key) then 1 else 0
  {
    if |fields| > 1 {
      var n := |fields| - 1;
      MatchesHead(fields[..n], name);
      assert fields[..n][1..] == fields[1..][..n - 1];
    }
  }

  /**
   The value picked is that of the field preceded by exactly `k` others of the same name; there is
   none exactly when at most `k` match.
   */
  lemma {:induction false} PickIsKth(fields: seq<Field>, name: seq<Byte>, k: nat)
    ensures Pick(fields, name, k) == None <==> Matches(fields, name) <= k
    ensures Pick(fields, name, k).Some? ==> exists i ::
      0 <= i < |fields| && SameFold(name, fields[i].key) && Matches(fields[..i], name) == k
      && Pick(fields, name, k) == Some(fields[i].value)
  {
    if fields != [] {
      MatchesHead(fields, name);
      var here := SameFold(name, fields[0].key);
      if here && k == 0 {
        assert Matches(fields[..0], name) == 0;
      } else {
        var k' := if here then k - 1 else k;
        PickIsKth(fields[1..], name, k');
        if Pick(fields, name, k).Some? {
          var i :| 0 <= i < |fields[1..]| && SameFold(name, fields[1..][i].key) && Matches(fields[1..][..i], name) == k'
                   && Pick(fields[1..], name, k') == Some(fields[1..][i].value);
          MatchesHead(fields[..i + 1], name);
          assert fields[..i + 1][1..] == fields[1..][..i];
          assert SameFold(name, fields[i + 1].key) && Matches(fields[..i + 1], name) == k;
        }
      }
    }
  }
}
