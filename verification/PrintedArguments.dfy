/** Settings and words written out as arguments, and read back. */
module PrintedArguments {
  import opened CommandLine
  import opened Sequences
  import opened Wrappers

  datatype Item = Setting(name: string, value: string) | Word(text: string)

  function Print(item: Item): string {
    match item
    case Setting(name, value) => "--" + name + "=" + value
    case Word(text) => text
  }

  /** A setting of a declared option, or a word that does not look like an option. */
  predicate ItemOk(o: OptionTable, container: Id, item: Item)
    requires Declared(o) && container < |o.details|
  {
    match item
    case Setting(name, value) =>
      && IsLongName(name) && OneLine(value) && name in o.names
      && Accepts(o.details[o.names[name]].kind, value)
    case Word(text) => text != "--" && Classify(text) == NotFlag && Accepts(o.details[container].kind, text)
  }

  predicate ItemsOk(o: OptionTable, container: Id, items: seq<Item>)
    requires Declared(o) && container < |o.details|
  {
    forall item :: item in items ==> ItemOk(o, container, item)
  }

  function ItemEvent(o: OptionTable, container: Id, item: Item): Event {
    match item
    case Setting(name, value) => Event(if name in o.names then o.names[name] else 0, value)
    case Word(text) => Event(container, text)
  }

  function ItemRole(container: Id, item: Item): Role {
    if item.Setting? then Flagged else Positional(container)
  }

  function Events(o: OptionTable, container: Id, items: seq<Item>): (r: seq<Event>)
    ensures |r| == |items|
  {
    seq(|items|, i requires 0 <= i < |items| => ItemEvent(o, container, items[i]))
  }

  function ItemRoles(container: Id, items: seq<Item>): (r: seq<Role>)
    ensures |r| == |items|
  {
    seq(|items|, i requires 0 <= i < |items| => ItemRole(container, items[i]))
  }

  function Prints(items: seq<Item>): (r: seq<string>)
    ensures |r| == |items|
  {
    seq(|items|, i requires 0 <= i < |items| => Print(items[i]))
  }

  lemma {:induction false} FirstEqualsAt(s: string, i: nat, k: nat)
    requires i <= k < |s| && s[k] == '=' && forall j :: i <= j < k ==> s[j] != '='
    ensures FirstEquals(s, i) == k
    decreases k - i
  {
    if i < k { FirstEqualsAt(s, i + 1, k); }
  }

  lemma ClassifySetting(name: string, value: string)
    requires IsLongName(name) && OneLine(value)
    ensures Classify(Print(Setting(name, value))) == Long(name, Some(value))
    ensures Print(Setting(name, value)) != "--"
  {
    var arg := Print(Setting(name, value));
    var k := 2 + |name|;
    assert arg[k] == '=' && arg[2..k] == name && arg[k + 1..] == value;
    forall j | 2 <= j < k
      ensures arg[j] != '='
    {
      assert arg[j] == name[j - 2];
    }
    FirstEqualsAt(arg, 2, k);
  }

  /** The program's name, the printed items, and, if there is a marker, any words after it. */
  function Vector(program: string, items: seq<Item>, marker: bool, words: seq<string>): seq<string> {
    [program] + Prints(items) + (if marker then ["--"] + words else [])
  }

  function WalkAt(o: OptionTable, container: Id, items: seq<Item>, i: nat): Walk
    requires i <= |items|
  {
    Walk(Events(o, container, items[..i]), 0, ItemRoles(container, items[..i]))
  }

  lemma WalkStep(o: OptionTable, container: Id, items: seq<Item>, i: nat)
    requires i < |items|
    ensures WalkAt(o, container, items, i + 1).log
         == WalkAt(o, container, items, i).log + [ItemEvent(o, container, items[i])]
    ensures WalkAt(o, container, items, i + 1).roles
         == WalkAt(o, container, items, i).roles + [ItemRole(container, items[i])]
  {}

  lemma ReadItem(o: OptionTable, positional: string, argv: seq<string>, items: seq<Item>, i: nat)
    requires Declared(o) && positional in o.names && o.details[o.names[positional]].container
    requires i < |items| && i + 1 < |argv| && argv[i + 1] == Print(items[i])
    requires ItemOk(o, o.names[positional], items[i])
    ensures argv[i + 1] != "--"
    ensures ReadEntry(o, [positional], argv, WalkAt(o, o.names[positional], items, i))
         == Success(WalkAt(o, o.names[positional], items, i + 1))
  {
    var container := o.names[positional];
    WalkStep(o, container, items, i);
    match items[i]
    case Setting(name, value) =>
      ClassifySetting(name, value);
    case Word(text) =>
  }

  /** The vector holds the items, and then nothing or the marker. */
  predicate Holds(argv: seq<string>, items: seq<Item>) {
    && |items| < |argv|
    && (forall k :: 0 <= k < |items| ==> argv[k + 1] == Print(items[k]))
    && (|items| + 1 < |argv| ==> argv[|items| + 1] == "--")
  }

  function AfterItems(w: Walk, argv: seq<string>): Walk {
    if |w.roles| + 1 < |argv| then w.(roles := w.roles + [Marker]) else w
  }

  lemma {:induction false} ScanItems(o: OptionTable, positional: string, argv: seq<string>, items: seq<Item>, i: nat)
    requires Declared(o) && positional in o.names && o.details[o.names[positional]].container
    requires i <= |items| && Holds(argv, items) && ItemsOk(o, o.names[positional], items)
    ensures Scan(o, [positional], argv, WalkAt(o, o.names[positional], items, i))
         == Success(AfterItems(WalkAt(o, o.names[positional], items, |items|), argv))
    decreases |items| - i
  {
    if i < |items| {
      assert items[i] in items;
      ReadItem(o, positional, argv, items, i);
      ScanItems(o, positional, argv, items, i + 1);
    }
  }

  function WordsAsItems(words: seq<string>): (r: seq<Item>)
    ensures |r| == |words| && forall i :: 0 <= i < |words| ==> r[i] == Word(words[i])
  {
    seq(|words|, i requires 0 <= i < |words| => Word(words[i]))
  }

  /** After the marker, word number `i` of `words` is entry `base + i`. */
  lemma {:induction false} TailWords(o: OptionTable, positional: string, argv: seq<string>, defaulted: set<Id>,
                                     w: Walk, words: seq<string>)
    requires Declared(o) && positional in o.names && o.details[o.names[positional]].container
    requires w.next == 0 && |argv| == |w.roles| + 1 + |words|
    requires forall i :: 0 <= i < |words| ==> argv[|w.roles| + 1 + i] == words[i]
    requires forall word :: word in words ==> Accepts(o.details[o.names[positional]].kind, word)
    ensures var items := WordsAsItems(words);
      Tail(o, [positional], argv, defaulted, w)
      == Success(Walk(w.log + Events(o, o.names[positional], items), 0, w.roles + ItemRoles(o.names[positional], items)))
    decreases |words|
  {
    var container := o.names[positional];
    var items := WordsAsItems(words);
    if words == [] {
      assert w.log + Events(o, container, items) == w.log && w.roles + ItemRoles(container, items) == w.roles;
    } else {
      var e, role := Event(container, words[0]), Positional(container);
      var w' := Walk(w.log + [e], 0, w.roles + [role]);
      assert words[0] in words;
      TailWord(o, positional, argv, defaulted, w, words[0]);
      TailWords(o, positional, argv, defaulted, w', words[1..]);
      FirstWord(o, container, words);
      var rest := WordsAsItems(words[1..]);
      Associate(w.log, [e], Events(o, container, rest));
      Associate(w.roles, [role], ItemRoles(container, rest));
    }
  }

  lemma TailWord(o: OptionTable, positional: string, argv: seq<string>, defaulted: set<Id>, w: Walk, word: string)
    requires Declared(o) && positional in o.names && o.details[o.names[positional]].container
    requires w.next == 0 && |w.roles| + 1 < |argv| && argv[|w.roles| + 1] == word
    requires Accepts(o.details[o.names[positional]].kind, word)
    ensures var container := o.names[positional];
      Tail(o, [positional], argv, defaulted, w) ==
      Tail(o, [positional], argv, defaulted, Walk(w.log + [Event(container, word)], 0, w.roles + [Positional(container)]))
  {
  }

  lemma FirstWord(o: OptionTable, container: Id, words: seq<string>)
    requires Declared(o) && words != []
    ensures var items, rest := WordsAsItems(words), WordsAsItems(words[1..]);
      && Events(o, container, items) == [Event(container, words[0])] + Events(o, container, rest)
      && ItemRoles(container, items) == [Positional(container)] + ItemRoles(container, rest)
  {
    var rest := WordsAsItems(words[1..]);
    assert WordsAsItems(words) == [Word(words[0])] + rest;
    EventsSum(o, container, [Word(words[0])], rest);
    assert Events(o, container, [Word(words[0])]) == [Event(container, words[0])];
    assert ItemRoles(container, [Word(words[0])] + rest) == [Positional(container)] + ItemRoles(container, rest);
  }

  predicate AllDefaultsParse(o: OptionTable) {
    forall id: Id :: id < |o.details| && o.details[id].fallback.Some? ==> DefaultParses(o, id)
  }

  /** Everything the vector was printed from, words after the marker included. */
  function Everything(items: seq<Item>, marker: bool, words: seq<string>): seq<Item> {
    items + (if marker then WordsAsItems(words) else [])
  }

  lemma VectorHolds(program: string, items: seq<Item>, marker: bool, words: seq<string>)
    ensures Holds(Vector(program, items, marker, words), items)
  {}

  lemma ScanVector(o: OptionTable, positional: string, program: string, items: seq<Item>, marker: bool, words: seq<string>)
    requires Declared(o) && positional in o.names && o.details[o.names[positional]].container
    requires ItemsOk(o, o.names[positional], items)
    ensures var w := WalkAt(o, o.names[positional], items, |items|);
      Scan(o, [positional], Vector(program, items, marker, words), Walk([], 0, []))
      == Success(if marker then w.(roles := w.roles + [Marker]) else w)
  {
    VectorHolds(program, items, marker, words);
    assert WalkAt(o, o.names[positional], items, 0) == Walk([], 0, []);
    ScanItems(o, positional, Vector(program, items, marker, words), items, 0);
  }

  lemma VectorWords(program: string, items: seq<Item>, words: seq<string>)
    ensures |Vector(program, items, true, words)| == |items| + 2 + |words|
    ensures forall i :: 0 <= i < |words| ==> Vector(program, items, true, words)[|items| + 2 + i] == words[i]
  {}

  lemma FinishMarked(o: OptionTable, positional: string, argv: seq<string>, words: seq<string>, w: Walk)
    requires Declared(o) && AllDefaultsParse(o)
    requires positional in o.names && o.details[o.names[positional]].container
    requires forall word :: word in words ==> Accepts(o.details[o.names[positional]].kind, word)
    requires EndsAtMarker(w) && w.next == 0 && Kept !in w.roles && |argv| == |w.roles| + 1 + |words|
    requires forall i :: 0 <= i < |words| ==> argv[|w.roles| + 1 + i] == words[i]
    ensures var m := Finish(o, [positional], argv, w);
      && m.Success? && KeptOf(argv, m.value.roles) == []
      && m.value.log == w.log + Events(o, o.names[positional], WordsAsItems(words))
  {
    TailWords(o, positional, argv, Defaulted(o, w.log), w, words);
    NoneKept(argv, w.roles + ItemRoles(o.names[positional], WordsAsItems(words)));
  }

  lemma FinishUnmarked(o: OptionTable, positional: string, argv: seq<string>, w: Walk)
    requires Declared(o) && AllDefaultsParse(o)
    requires |argv| == |w.roles| + 1 && Marker !in w.roles && Kept !in w.roles
    ensures var m := Finish(o, [positional], argv, w);
      m.Success? && m.value.log == w.log && KeptOf(argv, m.value.roles) == []
  {
    NoneKept(argv, w.roles);
  }

  lemma RolesOfItems(container: Id, items: seq<Item>)
    ensures Marker !in ItemRoles(container, items) && Kept !in ItemRoles(container, items)
  {}

  predicate ReadBack(o: OptionTable, positional: string, argv: seq<string>, items: seq<Item>)
    requires Declared(o) && positional in o.names && argv != []
  {
    var m := Meaning(o, [positional], argv);
    m.Success? && m.value.log == Events(o, o.names[positional], items) && KeptOf(argv, m.value.roles) == []
  }

  lemma PrintMarked(o: OptionTable, positional: string, program: string, items: seq<Item>, words: seq<string>)
    requires Declared(o) && AllDefaultsParse(o)
    requires positional in o.names && o.details[o.names[positional]].container
    requires ItemsOk(o, o.names[positional], items)
    requires forall word :: word in words ==> Accepts(o.details[o.names[positional]].kind, word)
    ensures ReadBack(o, positional, Vector(program, items, true, words), Everything(items, true, words))
  {
    var w := MarkedWalk(o, o.names[positional], items);
    MarkedMeaning(o, positional, program, items, words);
    RolesOfItems(o.names[positional], items);
    VectorWords(program, items, words);
    FinishMarked(o, positional, Vector(program, items, true, words), words, w);
    EventsSum(o, o.names[positional], items, WordsAsItems(words));
  }

  function MarkedWalk(o: OptionTable, container: Id, items: seq<Item>): Walk {
    Walk(Events(o, container, items), 0, ItemRoles(container, items) + [Marker])
  }

  lemma MarkedMeaning(o: OptionTable, positional: string, program: string, items: seq<Item>, words: seq<string>)
    requires Declared(o) && positional in o.names && o.details[o.names[positional]].container
    requires ItemsOk(o, o.names[positional], items)
    ensures var w, argv := MarkedWalk(o, o.names[positional], items), Vector(program, items, true, words);
      && |w.roles| < |argv| && EndsAtMarker(w)
      && Meaning(o, [positional], argv) == Finish(o, [positional], argv, w)
  {
    ScanVector(o, positional, program, items, true, words);
    assert items[..|items|] == items;
  }

  lemma PrintUnmarked(o: OptionTable, positional: string, program: string, items: seq<Item>, words: seq<string>)
    requires Declared(o) && AllDefaultsParse(o)
    requires positional in o.names && o.details[o.names[positional]].container
    requires ItemsOk(o, o.names[positional], items)
    ensures ReadBack(o, positional, Vector(program, items, false, words), Everything(items, false, words))
  {
    var container, argv := o.names[positional], Vector(program, items, false, words);
    ScanVector(o, positional, program, items, false, words);
    assert items[..|items|] == items && items + [] == items;
    RolesOfItems(container, items);
    FinishUnmarked(o, positional, argv, WalkAt(o, container, items, |items|));
  }

  /** Reading back a printed vector records every item, in order, and keeps nothing. */
  lemma PrintThenParse(o: OptionTable, positional: string, program: string, items: seq<Item>, marker: bool,
                       words: seq<string>)
    requires Declared(o) && AllDefaultsParse(o)
    requires positional in o.names && o.details[o.names[positional]].container
    requires ItemsOk(o, o.names[positional], items)
    requires forall word :: word in words ==> Accepts(o.details[o.names[positional]].kind, word)
    ensures ReadBack(o, positional, Vector(program, items, marker, words), Everything(items, marker, words))
  {
    if marker {
      PrintMarked(o, positional, program, items, words);
    } else {
      PrintUnmarked(o, positional, program, items, words);
    }
  }

  lemma EventsSum(o: OptionTable, container: Id, a: seq<Item>, b: seq<Item>)
    ensures Events(o, container, a + b) == Events(o, container, a) + Events(o, container, b)
  {}

  lemma {:induction false} NoneKept(argv: seq<string>, roles: seq<Role>)
    requires |roles| < |argv| && forall i :: 0 <= i < |roles| ==> roles[i] != Kept
    ensures KeptOf(argv, roles) == []
  {
    if roles != [] { NoneKept(argv, roles[..|roles| - 1]); }
  }
}
