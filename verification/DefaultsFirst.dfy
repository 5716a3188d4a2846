/**
 Options get their defaults before the words after `--` are placed: what that changes, and when.
 */
module DefaultsFirst {
  import opened CommandLine
  import opened CommandLineRoles
  import opened Wrappers

  /** A word only goes to a container or to an option that has no value yet. */
  lemma {:induction false} PlaceTargets(o: OptionTable, positional: seq<string>, defaulted: set<Id>, log: seq<Event>,
                                        next: nat, word: string)
    requires Declared(o)
    ensures var p := Place(o, positional, defaulted, log, next, word);
      p.Success? && p.value.target.Some? ==>
        var id := p.value.target.value;
        id < |o.details| && (o.details[id].container || Values(o, log, defaulted, id) == [])
    decreases |positional| - next
  {
    if next < |positional| { PlaceTargets(o, positional, defaulted, log, next + 1, word); }
  }

  lemma DueIsDefaulted(o: OptionTable, log: seq<Event>, name: string)
    requires Declared(o) && name in o.names
    ensures o.names[name] in Defaulted(o, log) <==> Due(o, log, o.names[name])
  {
  }

  lemma TakesLess(o: OptionTable, log: seq<Event>, name: string)
    requires Declared(o)
    ensures Takes(o, Defaulted(o, log), log, name) <==>
      Takes(o, {}, log, name) && (o.details[o.names[name]].container || !Due(o, log, o.names[name]))
  {
    if name in o.names { DueIsDefaulted(o, log, name); }
  }

  /**
   A word after `--` that the first option able to take it accepts fares as it would without
   defaults exactly if that option is a container, has no default due, or does not exist.
   */
  lemma DefaultsMatter(o: OptionTable, positional: seq<string>, log: seq<Event>, next: nat, word: string)
    requires Declared(o) && next <= |positional|
    requires var j := NextTaker(o, positional, {}, log, next);
      j < |positional| ==> Accepts(o.details[o.names[positional[j]]].kind, word)
    ensures var j := NextTaker(o, positional, {}, log, next);
      Place(o, positional, Defaulted(o, log), log, next, word) == Place(o, positional, {}, log, next, word) <==>
        (j < |positional| ==>
           var id := o.names[positional[j]]; o.details[id].container || !Due(o, log, id))
  {
    var j, defaulted := NextTaker(o, positional, {}, log, next), Defaulted(o, log);
    PlaceFirst(o, positional, {}, log, next, word, j);
    forall i | next <= i < j
      ensures !Takes(o, defaulted, log, positional[i])
    {
      TakesLess(o, log, positional[i]);
    }
    if j < |positional| { TakesLess(o, log, positional[j]); }
    if j == |positional| || Takes(o, defaulted, log, positional[j]) {
      PlaceFirst(o, positional, defaulted, log, next, word, j);
    } else {
      PlaceTargets(o, positional, defaulted, log, next, word);
    }
  }

  /** One text option, named `p`, with the default `d`. */
  function OneOption(): OptionTable {
    OptionTable(map["p" := 0], [Details("p", "", Text, false, None, Some("d"))])
  }

  lemma WordRead(word: string)
    requires Classify(word) == NotFlag
    ensures Declared(OneOption())
    ensures ReadEntry(OneOption(), ["p"], ["prog", word], Walk([], 0, [])) ==
      Success(Walk([] + [Event(0, word)], 1, [] + [Positional(0)]))
  {
    var o := OneOption();
    assert Takes(o, {}, [], "p");
    PlaceFirst(o, ["p"], {}, [], 0, word, 0);
    assert ["prog", word][1] == word;
  }

  lemma WordPlaced(word: string)
    requires word != "--" && Classify(word) == NotFlag
    ensures Declared(OneOption())
    ensures Meaning(OneOption(), ["p"], ["prog", word]) == Success(Parse([Event(0, word)], 1, {}, [Positional(0)]))
  {
    var o, argv, e, start := OneOption(), ["prog", word], Event(0, word), Walk([], 0, []);
    var read := Walk([] + [e], 1, [] + [Positional(0)]);
    WordRead(word);
    assert argv[1] == word;
    assert Scan(o, ["p"], argv, read) == Success(read);
    assert Scan(o, ["p"], argv, start) == Success(read);
    assert Texts([e], 0) == [word];
    assert read.log == [e] && read.roles == [Positional(0)];
    assert Defaulted(o, [e]) == {};
    assert Finish(o, ["p"], argv, read) == Success(Parse([e], 1, {}, [Positional(0)]));
  }

  lemma WordKept(word: string)
    ensures Declared(OneOption())
    ensures Meaning(OneOption(), ["p"], ["prog", "--", word]) == Success(Parse([], 1, {0}, [Marker, Kept]))
  {
    var o, argv, w := OneOption(), ["prog", "--", word], Walk([], 0, [Marker]);
    assert argv[1] == "--" && [] + [Marker] == [Marker];
    assert Scan(o, ["p"], argv, Walk([], 0, [])) == Success(w);
    assert Due(o, [], 0) && o.names["p"] == 0;
    assert Defaulted(o, []) == {0};
    assert !Takes(o, {0}, [], "p");
    PlaceFirst(o, ["p"], {0}, [], 0, word, 1);
    assert [Marker] + Repeat(1) == [Marker, Kept];
  }

  /** Before the marker a word goes to the option; after it, the option has its default and the word is kept. */
  lemma DefaultsFirstExample()
    ensures Meaning(OneOption(), ["p"], ["prog", "w"]) == Success(Parse([Event(0, "w")], 1, {}, [Positional(0)]))
    ensures Meaning(OneOption(), ["p"], ["prog", "--", "w"]) == Success(Parse([], 1, {0}, [Marker, Kept]))
  {
    WordPlaced("w");
    WordKept("w");
  }

  // ----- Which options get a default, and what they then hold -----

  lemma {:induction false} TextsNone(log: seq<Event>, id: Id)
    ensures Texts(log, id) == [] <==> forall i :: 0 <= i < |log| ==> log[i].id != id
  {
    if log != [] { TextsNone(log[..|log| - 1], id); }
  }

  /** An option gets its default exactly if it has a name and a default, and was given nothing. */
  lemma DefaultedExact(o: OptionTable, log: seq<Event>, id: Id)
    requires Declared(o) && id < |o.details|
    ensures id in Defaulted(o, log) <==>
      && (exists name :: name in o.names && o.names[name] == id) && o.details[id].fallback.Some?
      && forall i :: 0 <= i < |log| ==> log[i].id != id
  {
    TextsNone(log, id);
  }

  /** The first text of an option that got its default is the default; the others are those it was given. */
  lemma StoredExact(o: OptionTable, log: seq<Event>, defaulted: set<Id>, id: Id, k: nat)
    requires id < |o.details| && k < |Values(o, log, defaulted, id)|
    requires id in defaulted ==> o.details[id].fallback.Some?
    ensures var stored := Values(o, log, defaulted, id);
      && (id !in defaulted ==> stored == Texts(log, id))
      && (id in defaulted ==> |stored| == |Texts(log, id)| + 1)
      && (id in defaulted ==> stored[k] == if k == 0 then o.details[id].fallback.value else Texts(log, id)[k - 1])
  {
  }

  /** The texts an option was given are those of its entries in the log, in order. */
  lemma {:induction false} TextsAre(log: seq<Event>, id: Id) returns (places: seq<nat>)
    ensures |places| == |Texts(log, id)|
    ensures forall k :: 0 <= k < |places| ==> places[k] < |log| && log[places[k]] == Event(id, Texts(log, id)[k])
    ensures forall k, m :: 0 <= k < m < |places| ==> places[k] < places[m]
    ensures forall i :: 0 <= i < |log| && log[i].id == id ==> i in places
  {
    places := [];
    if log != [] {
      var n := |log| - 1;
      places := TextsAre(log[..n], id);
      if log[n].id == id {
        var before := places;
        places := before + [n];
        assert places[|before|] == n;
        assert forall i :: i in before ==> i in places;
      }
    }
  }

  /** All defaults are read exactly if each option that has one, and was given nothing, accepts its text. */
  lemma ReadableExact(o: OptionTable, log: seq<Event>)
    requires Declared(o)
    ensures DefaultsParse(o, Defaulted(o, log)) <==>
      forall name :: name in o.names && Untouched(o, log, o.names[name])
        ==> Accepts(o.details[o.names[name]].kind, o.details[o.names[name]].fallback.value)
  {
    forall name | name in o.names
      ensures o.names[name] in Defaulted(o, log) <==> Untouched(o, log, o.names[name])
    {
      DefaultedExact(o, log, o.names[name]);
    }
  }

  predicate Untouched(o: OptionTable, log: seq<Event>, id: Id)
    requires id < |o.details|
  {
    o.details[id].fallback.Some? && forall i :: 0 <= i < |log| ==> log[i].id != id
  }
}
