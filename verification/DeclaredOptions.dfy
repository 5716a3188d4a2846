/** Declaring options: a short and a long name for one option, and no name for two. */
module DeclaredOptions {
  import IntegerParser
  import opened Ascii
  import opened CommandLine
  import opened Lexis
  import opened PrintedArguments
  import opened Wrappers

  function AddName(names: map<string, Id>, name: string, id: Id): Result<map<string, Id>, Error> {
    if name == "" then Success(names)
    else if name in names then Failure(OptionExists(name))
    else Success(names[name := id])
  }

  function Extended(t: OptionTable, d: Details): Result<OptionTable, Error> {
    var shorts :- AddName(t.names, d.short, |t.details|);
    var names :- AddName(shorts, d.long, |t.details|);
    Success(OptionTable(names, t.details + [d]))
  }

  /** The names when adding the option has failed: a new short name has been added all the same. */
  function AfterFailure(t: OptionTable, d: Details): map<string, Id> {
    if d.short == "" || d.short in t.names then t.names else t.names[d.short := |t.details|]
  }

  /** `v,verbose` is refused where `verbose` is taken, and `v` leads to the new option all the same. */
  lemma HalfAddedExample(kind: Kind)
    ensures var d := Details("v", "verbose", kind, false, None, None);
      var t := OptionTable(map["verbose" := 0], [Details("", "verbose", kind, false, None, None)]);
      Extended(t, d) == Failure(OptionExists("verbose")) && AfterFailure(t, d) == map["verbose" := 0, "v" := 1]
  {
    assert "v" != "verbose";
  }

  function SkipSpaces(s: string): string {
    if s != "" && s[0] == ' ' then SkipSpaces(s[1..]) else s
  }

  predicate IsName(s: string) {
    s == "" || (IntegerParser.IsAlnum(s[0]) && forall i :: 1 <= i < |s| ==> NameChar(s[i]))
  }

  /** The short and the long name in a specification such as `v,verbose`. */
  function SplitSpec(spec: string): (r: Result<(string, string), Error>)
    ensures r.Success? ==>
      && |r.value.0| <= 1 && (r.value.1 == "" || IsLongName(r.value.1)) && (r.value.0 != "" || r.value.1 != "")
    ensures r.Failure? ==> r.error == InvalidFormat(spec)
  {
    var comma := |spec| >= 2 && IntegerParser.IsAlnum(spec[0]) && spec[1] == ',';
    var short := if comma then spec[..1] else "";
    var long := SkipSpaces(if comma then spec[2..] else spec);
    if !IsName(long) then Failure(InvalidFormat(spec))
    else if short == "" && long == "" then Failure(InvalidFormat(spec))
    else if |long| == 1 && short != "" then Failure(InvalidFormat(spec))
    else if |long| == 1 then Success((long, ""))
    else Success((short, long))
  }

  /** Letters and digits, and after the first of them also hyphens and underscores. */
  lemma NameExact(s: string)
    ensures IsName(s) <==>
      s == "" || (Alnum(s[0]) && forall i :: 1 <= i < |s| ==> Alnum(s[i]) || s[i] == '-' || s[i] == '_')
  {
    forall i | 0 <= i < |s|
      ensures IntegerParser.IsAlnum(s[i]) <==> Alnum(s[i])
    {
      AlnumExact(s[i]);
    }
  }

  function Spaces(n: nat): (r: string)
    ensures |r| == n && forall i :: 0 <= i < n ==> r[i] == ' '
  {
    if n == 0 then "" else " " + Spaces(n - 1)
  }

  lemma {:induction false} SkipsSpaces(n: nat, text: string)
    requires text != "" ==> text[0] != ' '
    ensures SkipSpaces(Spaces(n) + text) == text
    decreases n
  {
    if n == 0 {
      assert Spaces(0) + text == text;
    } else {
      SkipsSpaces(n - 1, text);
      assert (Spaces(n) + text)[1..] == Spaces(n - 1) + text;
    }
  }

  lemma {:induction false} SpacesSkipped(s: string) returns (n: nat)
    ensures s == Spaces(n) + SkipSpaces(s)
  {
    if s != "" && s[0] == ' ' {
      n := SpacesSkipped(s[1..]);
      assert s == " " + s[1..];
      n := n + 1;
    } else {
      n := 0;
      assert s == Spaces(0) + s;
    }
  }

  /** The text is a letter and a comma, if `letter` is not empty, then `n` spaces, then a name, if there is one. */
  predicate Spelled(spec: string, letter: string, n: nat, name: string) {
    && IsName(name) && (letter == "" || (|letter| == 1 && IntegerParser.IsAlnum(letter[0])))
    && spec == (if letter == "" then "" else letter + ",") + (Spaces(n) + name)
  }

  lemma SpelledHead(spec: string, letter: string, n: nat, name: string)
    requires Spelled(spec, letter, n, name)
    ensures letter != "" <==> |spec| >= 2 && IntegerParser.IsAlnum(spec[0]) && spec[1] == ','
    ensures letter != "" ==> spec[..1] == letter && spec[2..] == Spaces(n) + name
    ensures letter == "" ==> spec == Spaces(n) + name
  {
    if letter != "" {
      assert (letter + ",")[0] == letter[0] && |letter + ","| == 2;
      assert spec[2..] == Spaces(n) + name;
    } else if n == 0 {
      assert spec == name;
    } else {
      assert (Spaces(n) + name)[0] == ' ';
    }
  }

  /** The option's names, short and long; a name of one letter is the short one and must be alone. */
  predicate Names(letter: string, name: string, short: string, long: string) {
    && (letter != "" || name != "") && (|name| == 1 ==> letter == "")
    && (short, long) == if |name| == 1 then (name, "") else (letter, name)
  }

  lemma SpelledSplits(spec: string, letter: string, n: nat, name: string)
    requires Spelled(spec, letter, n, name)
    ensures forall short, long :: SplitSpec(spec) == Success((short, long)) <==> Names(letter, name, short, long)
  {
    SpelledHead(spec, letter, n, name);
    SkipsSpaces(n, name);
  }

  lemma NamesSpelled(spec: string) returns (letter: string, n: nat, name: string)
    requires SplitSpec(spec).Success?
    ensures Spelled(spec, letter, n, name)
  {
    var comma := |spec| >= 2 && IntegerParser.IsAlnum(spec[0]) && spec[1] == ',';
    var rest := if comma then spec[2..] else spec;
    letter, name := if comma then spec[..1] else "", SkipSpaces(rest);
    n := SpacesSkipped(rest);
    assert spec == (if comma then letter + "," else "") + rest;
  }

  /** A specification stands for exactly the names it spells. */
  lemma SpecExact(spec: string, short: string, long: string)
    ensures SplitSpec(spec) == Success((short, long)) <==>
      exists letter, n: nat, name :: Spelled(spec, letter, n, name) && Names(letter, name, short, long)
  {
    if SplitSpec(spec) == Success((short, long)) {
      var letter, n, name := NamesSpelled(spec);
      SpelledSplits(spec, letter, n, name);
    }
    forall letter, n: nat, name | Spelled(spec, letter, n, name) && Names(letter, name, short, long)
      ensures SplitSpec(spec) == Success((short, long))
    {
      SpelledSplits(spec, letter, n, name);
    }
  }

  class Options {
    var table: OptionTable

    constructor ()
      ensures table == OptionTable(map[], [])
    {
      table := OptionTable(map[], []);
    }

    method AddOneOption(name: string, id: Id) returns (r: Result<(), Error>)
      requires name != ""
      modifies this
      ensures var names := AddName(old(table.names), name, id);
        if names.Success? then r == Success(()) && table == old(table).(names := names.value)
        else r == Failure(names.error) && table == old(table)
    {
      if name in table.names {
        return Failure(OptionExists(name));
      }
      table := table.(names := table.names[name := id]);
      r := Success(());
    }

    /** When the long name is taken, the short name has been added all the same. */
    method AddOption(d: Details) returns (r: Result<(), Error>)
      modifies this
      ensures var t := Extended(old(table), d);
        if t.Success? then r == Success(()) && table == t.value
        else
          && r == Failure(t.error)
          && table.details == old(table.details) + [d]
          && table.names == AfterFailure(old(table), d)
      ensures r.Failure? ==> (table.names == old(table.names) <==> d.short == "" || d.short in old(table.names))
    {
      var id := |table.details|;
      table := table.(details := table.details + [d]);
      if |d.short| > 0 {
        var _ :- AddOneOption(d.short, id);
      }
      if |d.long| > 0 {
        var _ :- AddOneOption(d.long, id);
      }
      r := Success(());
    }
  }

  function DeclareAll(ds: seq<Details>): Result<OptionTable, Error> {
    if ds == [] then Success(OptionTable(map[], []))
    else
      var t :- DeclareAll(ds[..|ds| - 1]);
      Extended(t, ds[|ds| - 1])
  }

  predicate IsNameOf(d: Details, name: string) {
    name != "" && (name == d.short || name == d.long)
  }

  /** No name stands for two options, and no option has one name twice. */
  ghost predicate NoClash(ds: seq<Details>) {
    && (forall i :: 0 <= i < |ds| ==> ds[i].short == "" || ds[i].short != ds[i].long)
    && (forall i, j, name :: 0 <= i < j < |ds| && IsNameOf(ds[i], name) ==> !IsNameOf(ds[j], name))
  }

  /** A name leads to option `i` exactly when it is one of that option's names. */
  ghost predicate Leads(o: OptionTable, ds: seq<Details>) {
    && o.details == ds
    && (forall name :: name in o.names ==> o.names[name] < |ds| && IsNameOf(ds[o.names[name]], name))
    && (forall i: nat, name :: i < |ds| && IsNameOf(ds[i], name) ==> name in o.names && o.names[name] == i)
  }

  ghost predicate Used(ds: seq<Details>, name: string) {
    exists i :: 0 <= i < |ds| && IsNameOf(ds[i], name)
  }

  /** The names of `d` are new, and not the same. */
  ghost predicate Fits(ds: seq<Details>, d: Details) {
    && (d.short == "" || d.short != d.long)
    && (d.short != "" ==> !Used(ds, d.short))
    && (d.long != "" ==> !Used(ds, d.long))
  }

  lemma NameUsed(t: OptionTable, ds: seq<Details>, name: string)
    requires Leads(t, ds) && name != ""
    ensures name in t.names <==> Used(ds, name)
  {
    if name in t.names { assert IsNameOf(ds[t.names[name]], name); }
  }

  lemma ExtendedFits(t: OptionTable, ds: seq<Details>, d: Details)
    requires Leads(t, ds)
    ensures Extended(t, d).Success? <==> Fits(ds, d)
  {
    if d.short != "" { NameUsed(t, ds, d.short); }
    if d.long != "" { NameUsed(t, ds, d.long); }
  }

  lemma ExtendedLeads(t: OptionTable, front: seq<Details>, d: Details)
    requires Leads(t, front) && Extended(t, d).Success?
    ensures Leads(Extended(t, d).value, front + [d])
  {
    var ds, o := front + [d], Extended(t, d).value;
    forall i: nat, name | i < |ds| && IsNameOf(ds[i], name)
      ensures name in o.names && o.names[name] == i
    {
      if i < |front| { assert IsNameOf(front[i], name); }
    }
    forall name | name in o.names
      ensures o.names[name] < |ds| && IsNameOf(ds[o.names[name]], name)
    {
      if name in t.names { assert IsNameOf(front[t.names[name]], name); }
    }
  }

  /**
   The declarations succeed exactly when no name is used twice, and then every name leads to the
   one option it was declared for: both names of an option to the same one.
   */
  lemma {:induction false} DeclareExact(ds: seq<Details>)
    ensures DeclareAll(ds).Success? <==> NoClash(ds)
    ensures DeclareAll(ds).Success? ==> Leads(DeclareAll(ds).value, ds) && Declared(DeclareAll(ds).value)
  {
    if ds != [] {
      var front, d := ds[..|ds| - 1], ds[|ds| - 1];
      DeclareExact(front);
      assert ds == front + [d];
      ClashFront(front, d);
      if DeclareAll(front).Success? {
        ExtendedFits(DeclareAll(front).value, front, d);
        if Fits(front, d) { ExtendedLeads(DeclareAll(front).value, front, d); }
      }
    }
  }

  lemma ClashFront(front: seq<Details>, d: Details)
    ensures NoClash(front + [d]) <==> NoClash(front) && Fits(front, d)
  {
    var ds := front + [d];
    assert forall i :: 0 <= i < |front| ==> ds[i] == front[i];
    assert ds[|front|] == d;
    if NoClash(ds) {
      assert d.short != "" ==> IsNameOf(d, d.short);
      assert d.long != "" ==> IsNameOf(d, d.long);
    }
  }

  lemma LeadsThere(o: OptionTable, ds: seq<Details>, i: nat, name: string)
    requires Leads(o, ds) && i < |ds| && IsNameOf(ds[i], name)
    ensures name in o.names && o.names[name] == i
  {}

  lemma BothLead(o: OptionTable, ds: seq<Details>, i: nat)
    requires Leads(o, ds) && i < |ds| && ds[i].short != "" && ds[i].long != ""
    ensures ds[i].short in o.names && ds[i].long in o.names
    ensures o.names[ds[i].short] == i && o.names[ds[i].long] == i
  {
    LeadsThere(o, ds, i, ds[i].short);
    LeadsThere(o, ds, i, ds[i].long);
  }

  /** One option, two names: the same values, and so the same count, under either. */
  lemma SameUnderBothNames(o: OptionTable, ds: seq<Details>, i: nat, log: seq<Event>, defaulted: set<Id>)
    requires DeclareAll(ds) == Success(o) && i < |ds| && ds[i].short != "" && ds[i].long != ""
    ensures Declared(o) && ds[i].short in o.names && ds[i].long in o.names
    ensures Values(o, log, defaulted, o.names[ds[i].short]) == Values(o, log, defaulted, o.names[ds[i].long])
  {
    DeclareExact(ds);
    BothLead(o, ds, i);
  }

  /** The pair an item leaves in the sequential list. */
  function ItemPair(container: Details, item: Item): (string, string) {
    if item.Setting? then (item.name, item.value) else (container.long, item.text)
  }

  predicate NamedLong(o: OptionTable, item: Item)
    requires Declared(o)
  {
    item.Setting? ==> item.name in o.names && o.details[o.names[item.name]].long == item.name
  }

  lemma LongNamed(o: OptionTable, ds: seq<Details>, container: Id, item: Item)
    requires Leads(o, ds) && Declared(o) && container < |ds| && ItemOk(o, container, item)
    requires forall d :: d in ds ==> |d.short| <= 1
    ensures NamedLong(o, item)
  {
    if item.Setting? { assert IsNameOf(ds[o.names[item.name]], item.name) && ds[o.names[item.name]] in ds; }
  }

  function Pairs(container: Details, items: seq<Item>): seq<(string, string)> {
    seq(|items|, i requires 0 <= i < |items| => ItemPair(container, items[i]))
  }

  lemma SequentialPairs(o: OptionTable, container: Id, items: seq<Item>)
    requires Declared(o) && container < |o.details| && forall item :: item in items ==> NamedLong(o, item)
    ensures forall e :: e in Events(o, container, items) ==> e.id < |o.details|
    ensures Sequential(o, Events(o, container, items)) == Pairs(o.details[container], items)
  {
    var log := Events(o, container, items);
    forall i | 0 <= i < |items|
      ensures log[i].id < |o.details|
      ensures (o.details[log[i].id].long, log[i].text) == ItemPair(o.details[container], items[i])
    {
      assert items[i] in items;
    }
  }

  /** Options declared from specifications: what was printed is, item for item, what was recorded. */
  lemma PrintedIsSequential(o: OptionTable, ds: seq<Details>, positional: string, program: string, items: seq<Item>,
                            marker: bool, words: seq<string>)
    requires Leads(o, ds) && Declared(o) && AllDefaultsParse(o) && forall d :: d in ds ==> |d.short| <= 1
    requires positional in o.names && o.details[o.names[positional]].container
    requires ItemsOk(o, o.names[positional], items)
    requires forall word :: word in words ==> Accepts(o.details[o.names[positional]].kind, word)
    ensures var m := Meaning(o, [positional], Vector(program, items, marker, words));
      && m.Success? && (forall e :: e in m.value.log ==> e.id < |o.details|)
      && Sequential(o, m.value.log) == Pairs(o.details[o.names[positional]], Everything(items, marker, words))
  {
    PrintThenParse(o, positional, program, items, marker, words);
    forall item | item in items
      ensures NamedLong(o, item)
    {
      LongNamed(o, ds, o.names[positional], item);
    }
    SequentialPairs(o, o.names[positional], Everything(items, marker, words));
  }
}
