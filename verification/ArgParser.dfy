/** The parser itself: it fills the results as it goes and compacts the argument vector in place. */
module ArgParser {
  import opened CommandLine
  import opened Wrappers

  predicate LogOk(o: OptionTable, log: seq<Event>) {
    forall e :: e in log ==> e.id < |o.details|
  }

  /** The vector once `kept` has been written from entry 1 on. */
  function Overlay(argv: seq<string>, kept: seq<string>): seq<string>
    requires 1 + |kept| <= |argv|
  {
    argv[..1] + kept + argv[1 + |kept|..]
  }

  lemma OverlayPut(argv: seq<string>, kept: seq<string>, x: string)
    requires 1 + |kept| < |argv|
    ensures Overlay(argv, kept)[1 + |kept| := x] == Overlay(argv, kept + [x])
  {}

  lemma TextsGrow(log: seq<Event>, e: Event, id: Id)
    ensures Texts(log + [e], id) == if e.id == id then Texts(log, id) + [e.text] else Texts(log, id)
  {
    assert (log + [e])[..|log|] == log;
  }

  lemma ValuesGrow(o: OptionTable, log: seq<Event>, defaulted: set<Id>, e: Event, id: Id)
    requires id < |o.details|
    ensures Values(o, log + [e], defaulted, id)
         == if e.id == id then Values(o, log, defaulted, id) + [e.text] else Values(o, log, defaulted, id)
  {
    TextsGrow(log, e, id);
    if id in defaulted && o.details[id].fallback.Some? {
      var fallback := [o.details[id].fallback.value];
      assert fallback + (Texts(log, id) + [e.text]) == fallback + Texts(log, id) + [e.text];
    }
  }

  lemma {:induction false} KeptBound(argv: seq<string>, roles: seq<Role>)
    requires |roles| < |argv|
    ensures |KeptOf(argv, roles)| <= |roles|
  {
    if roles != [] { KeptBound(argv, roles[..|roles| - 1]); }
  }

  lemma KeptGrows(argv: seq<string>, roles: seq<Role>, role: Role)
    requires |roles| + 1 < |argv|
    ensures |KeptOf(argv, roles + [role])| <= |roles| + 1
    ensures KeptOf(argv, roles + [role])
         == if role == Kept then KeptOf(argv, roles) + [argv[|roles| + 1]] else KeptOf(argv, roles)
    ensures |KeptOf(argv, roles)| <= |roles|
  {
    assert (roles + [role])[..|roles|] == roles;
    KeptBound(argv, roles);
  }

  lemma KeptSkips(argv: seq<string>, roles: seq<Role>, extra: bool)
    requires |roles| + (if extra then 2 else 1) < |argv|
    ensures KeptOf(argv, roles + FlagRoles(extra)) == KeptOf(argv, roles)
  {
    KeptGrows(argv, roles, Flagged);
    if extra {
      assert roles + FlagRoles(true) == roles + [Flagged] + [FlagValue];
      KeptGrows(argv, roles + [Flagged], FlagValue);
    }
  }

  /** `places` are, in ascending order, all the roles of kept entries, and `kept` are those entries. */
  ghost predicate KeptFrom(argv: seq<string>, roles: seq<Role>, kept: seq<string>, places: seq<nat>) {
    && |roles| < |argv| && |places| == |kept|
    && (forall k :: 0 <= k < |places| ==>
          places[k] < |roles| && roles[places[k]] == Kept && kept[k] == argv[1 + places[k]])
    && (forall k, m :: 0 <= k < m < |places| ==> places[k] < places[m])
    && forall i :: 0 <= i < |roles| && roles[i] == Kept ==> i in places
  }

  lemma KeptFromNext(argv: seq<string>, roles: seq<Role>, kept: seq<string>, places: seq<nat>, role: Role)
    requires KeptFrom(argv, roles, kept, places) && |roles| + 1 < |argv|
    ensures role == Kept ==> KeptFrom(argv, roles + [role], kept + [argv[|roles| + 1]], places + [|roles|])
    ensures role != Kept ==> KeptFrom(argv, roles + [role], kept, places)
  {
    assert (places + [|roles|])[|places|] == |roles|;
    assert forall i :: i in places ==> i in places + [|roles|];
  }

  /** The entries kept come in the order of the vector, and none is passed over. */
  lemma {:induction false} KeptInOrder(argv: seq<string>, roles: seq<Role>) returns (places: seq<nat>)
    requires |roles| < |argv|
    ensures KeptFrom(argv, roles, KeptOf(argv, roles), places)
  {
    places := [];
    if roles != [] {
      var n := |roles| - 1;
      places := KeptInOrder(argv, roles[..n]);
      KeptFromNext(argv, roles[..n], KeptOf(argv, roles[..n]), places, roles[n]);
      assert roles[..n] + [roles[n]] == roles;
      if roles[n] == Kept { places := places + [n]; }
    }
  }

  /** The vector when every entry up to the last of `roles` has been read: those kept are in front. */
  ghost predicate Compacted(argv: array<string>, argc: nat, before: seq<string>, nextKeep: nat, roles: seq<Role>)
    reads argv
  {
    && 1 <= argc <= |before| == argv.Length && |roles| < argc
    && nextKeep == 1 + |KeptOf(before[..argc], roles)| <= 1 + |roles|
    && argv[..] == Overlay(before, KeptOf(before[..argc], roles))
  }

  /** Entries that have not been read yet are still what they were. */
  lemma Unread(argv: array<string>, argc: nat, before: seq<string>, nextKeep: nat, roles: seq<Role>)
    requires Compacted(argv, argc, before, nextKeep, roles)
    ensures forall k :: nextKeep <= k < argv.Length ==> argv[k] == before[k]
  {
    forall k | nextKeep <= k < argv.Length
      ensures argv[k] == before[k]
    {
      assert argv[k] == argv[..][k];
    }
  }

  lemma DueIsListed(o: OptionTable, log: seq<Event>, id: Id, name: string)
    requires Declared(o) && name in o.names && o.names[name] == id
    ensures id in Defaulted(o, log) <==> Due(o, log, id)
  {}

  class ParseResult {
    const options: OptionTable
    const positional: seq<string>
    var nextPositional: nat
    var results: map<Id, seq<string>>
    var sequential: seq<(string, string)>
    ghost var log: seq<Event>
    ghost var defaulted: set<Id>

    constructor (options: OptionTable, positional: seq<string>)
      requires Declared(options)
      ensures this.options == options && this.positional == positional && Reflects()
      ensures log == [] && defaulted == {} && nextPositional == 0
    {
      this.options, this.positional := options, positional;
      nextPositional, results, sequential := 0, map[], [];
      log, defaulted := [], {};
    }

    function Stored(id: Id): seq<string>
      reads this`results
    {
      if id in results then results[id] else []
    }

    /** The stored values and the sequential list are both determined by the log of what was given. */
    ghost predicate Reflects()
      reads this
    {
      && Declared(options) && LogOk(options, log)
      && sequential == Sequential(options, log)
      && forall id: Id :: id < |options.details| ==> Stored(id) == Values(options, log, defaulted, id)
    }

    method ParseOption(id: Id, arg: string) returns (r: Result<(), Error>)
      requires Reflects() && id < |options.details|
      modifies this`results, this`sequential, this`log
      ensures var given := Give(options, old(log), id, arg);
        if given.Success? then r == Success(()) && log == given.value && Reflects()
        else r == Failure(given.error)
      ensures old(results.Keys) <= results.Keys
    {
      results := results[id := Stored(id) + [arg]];
      if !Accepts(options.details[id].kind, arg) {
        return Failure(IncorrectType(arg));
      }
      sequential := sequential + [(options.details[id].long, arg)];
      ghost var e := Event(id, arg);
      forall other: Id | other < |options.details|
        ensures Stored(other) == Values(options, log + [e], defaulted, other)
      {
        ValuesGrow(options, log, defaulted, e, other);
      }
      log := log + [e];
      r := Success(());
    }

    method CheckedParseArg(argv: array<string>, argc: nat, current: nat, id: Id, name: string)
      returns (r: Result<nat, Error>)
      requires Reflects() && id < |options.details| && current < argc <= argv.Length
      modifies this`results, this`sequential, this`log
      ensures var t := CheckedArg(options, After(argv[..argc], current), id, name, old(log));
        if t.Success? then r == Success(if t.value.extra then current + 1 else current) && log == t.value.log && Reflects()
        else r == Failure(t.error)
    {
      var implicit := options.details[id].implicit;
      if current + 1 >= argc {
        if implicit.Some? {
          var _ :- ParseOption(id, implicit.value);
        } else {
          return Failure(MissingArgument(name));
        }
      } else {
        if implicit.Some? {
          var _ :- ParseOption(id, implicit.value);
        } else {
          var _ :- ParseOption(id, argv[current + 1]);
          return Success(current + 1);
        }
      }
      r := Success(current);
    }

    method ConsumePositional(a: string) returns (r: Result<bool, Error>)
      requires Reflects()
      modifies this`results, this`sequential, this`log, this`nextPositional
      ensures var p := Place(options, positional, defaulted, old(log), old(nextPositional), a);
        if p.Success? then
          && r == Success(p.value.target.Some?)
          && log == p.value.log && nextPositional == p.value.next && Reflects()
        else r == Failure(p.error)
      ensures old(results.Keys) <= results.Keys
    {
      while nextPositional < |positional|
        invariant Reflects() && log == old(log) && old(results.Keys) <= results.Keys
        invariant Place(options, positional, defaulted, log, nextPositional, a)
               == Place(options, positional, defaulted, old(log), old(nextPositional), a)
        decreases |positional| - nextPositional
      {
        if positional[nextPositional] in options.names {
          var id := options.names[positional[nextPositional]];
          if !options.details[id].container {
            if |Stored(id)| == 0 {
              var _ :- ParseOption(id, a);
              nextPositional := nextPositional + 1;
              return Success(true);
            } else {
              nextPositional := nextPositional + 1;
              continue;
            }
          } else {
            var _ :- ParseOption(id, a);
            return Success(true);
          }
        }
        nextPositional := nextPositional + 1;
      }
      r := Success(false);
    }

    /** A cluster of one-letter options: all but the last must have an implicit value. */
    method ParseCluster(argv: array<string>, argc: nat, current: nat, letters: string) returns (r: Result<nat, Error>)
      requires Reflects() && letters != "" && current < argc <= argv.Length
      modifies this`results, this`sequential, this`log
      ensures var t := Cluster(options, After(argv[..argc], current), letters, 0, old(log));
        if t.Success? then r == Success(if t.value.extra then current + 1 else current) && log == t.value.log && Reflects()
        else r == Failure(t.error)
    {
      var i := 0;
      ghost var after := After(argv[..argc], current);
      while i != |letters| - 1
        invariant i < |letters| && Reflects()
        invariant Cluster(options, after, letters, i, log) == Cluster(options, after, letters, 0, old(log))
        decreases |letters| - i
      {
        var name := [letters[i]];
        if name !in options.names {
          return Failure(OptionNotExists(name));
        }
        var id := options.names[name];
        if options.details[id].implicit.Some? {
          var _ :- ParseOption(id, options.details[id].implicit.value);
        } else {
          return Failure(RequiresArgument(name));
        }
        i := i + 1;
      }
      var name := [letters[i]];
      if name !in options.names {
        return Failure(OptionNotExists(name));
      }
      r := CheckedParseArg(argv, argc, current, options.names[name], name);
    }

    method ParseFlag(argv: array<string>, argc: nat, current: nat) returns (r: Result<nat, Error>)
      requires Reflects() && current < argc <= argv.Length && Classify(argv[current]) != NotFlag
      modifies this`results, this`sequential, this`log
      ensures var t := TakeFlag(options, argv[current], After(argv[..argc], current), old(log));
        if t.Success? then r == Success(if t.value.extra then current + 1 else current) && log == t.value.log && Reflects()
        else r == Failure(t.error)
    {
      match Classify(argv[current])
      case Short(letters) =>
        r := ParseCluster(argv, argc, current, letters);
      case Long(name, value) =>
        if name !in options.names {
          return Failure(OptionNotExists(name));
        }
        var id := options.names[name];
        if value.Some? {
          var _ :- ParseOption(id, value.value);
          r := Success(current);
        } else {
          r := CheckedParseArg(argv, argc, current, id, name);
        }
    }

    method Keep(argv: array<string>, argc: nat, current: nat, nextKeep: nat,
                ghost before: seq<string>, ghost roles: seq<Role>)
      requires Compacted(argv, argc, before, nextKeep, roles) && current == 1 + |roles| < argc
      modifies argv
      ensures Compacted(argv, argc, before, nextKeep + 1, roles + [Kept])
    {
      Unread(argv, argc, before, nextKeep, roles);
      KeptGrows(before[..argc], roles, Kept);
      OverlayPut(before, KeptOf(before[..argc], roles), before[current]);
      argv[nextKeep] := argv[current];
      assert argv[..] == old(argv[..])[nextKeep := before[current]];
    }

    /** An entry that is not an option: a positional word, or one to keep. */
    method ReadWord(argv: array<string>, argc: nat, current: nat, nextKeep: nat,
                    ghost before: seq<string>, ghost roles: seq<Role>)
      returns (r: Result<nat, Error>, ghost read: seq<Role>)
      requires Reflects() && Compacted(argv, argc, before, nextKeep, roles) && current == 1 + |roles| < argc
      modifies this`results, this`sequential, this`log, this`nextPositional, argv
      ensures var p := Place(options, positional, defaulted, old(log), old(nextPositional), before[current]);
        if p.Success? then
          && r.Success? && log == p.value.log && nextPositional == p.value.next
          && read == roles + [PlaceRole(p.value)]
          && Reflects() && Compacted(argv, argc, before, r.value, read)
        else r == Failure(p.error)
    {
      Unread(argv, argc, before, nextKeep, roles);
      ghost var p := Place(options, positional, defaulted, log, nextPositional, before[current]);
      read := roles;
      var consumed :- ConsumePositional(argv[current]);
      read := roles + [PlaceRole(p.value)];
      if consumed {
        KeptGrows(before[..argc], roles, PlaceRole(p.value));
        r := Success(nextKeep);
      } else {
        Keep(argv, argc, current, nextKeep, before, roles);
        r := Success(nextKeep + 1);
      }
    }

    /** One turn of the loop over the entries before the marker. */
    method ReadArgument(argv: array<string>, argc: nat, current: nat, nextKeep: nat,
                        ghost before: seq<string>, ghost roles: seq<Role>)
      returns (r: Result<(nat, nat), Error>, ghost read: seq<Role>)
      requires Reflects() && Compacted(argv, argc, before, nextKeep, roles) && current == 1 + |roles| < argc
      requires defaulted == {} && argv[current] != "--"
      modifies this`results, this`sequential, this`log, this`nextPositional, argv
      ensures var w := ReadEntry(options, positional, before[..argc], Walk(old(log), old(nextPositional), roles));
        if w.Success? then
          && r.Success? && log == w.value.log && nextPositional == w.value.next && read == w.value.roles
          && r.value.0 == 1 + |read|
          && Reflects() && Compacted(argv, argc, before, r.value.1, read)
        else r == Failure(w.error)
    {
      ghost var entries := before[..argc];
      Unread(argv, argc, before, nextKeep, roles);
      if Classify(argv[current]) == NotFlag {
        var kept;
        kept, read := ReadWord(argv, argc, current, nextKeep, before, roles);
        r := if kept.Success? then Success((current + 1, kept.value)) else Failure(kept.error);
      } else {
        ghost var t := TakeFlag(options, entries[current], After(entries, current), log);
        assert After(argv[..argc], current) == After(entries, current);
        read := roles;
        var last :- ParseFlag(argv, argc, current);
        read := roles + FlagRoles(t.value.extra);
        KeptSkips(entries, roles, t.value.extra);
        r := Success((last + 1, nextKeep));
      }
    }

    /** Entries up to the `--` marker. */
    method ScanArguments(argv: array<string>, argc: nat)
      returns (r: Result<(nat, nat, bool), Error>, ghost roles: seq<Role>)
      requires Reflects() && 1 <= argc <= argv.Length
      requires log == [] && defaulted == {} && nextPositional == 0
      modifies this`results, this`sequential, this`log, this`nextPositional, argv
      ensures var w := Scan(options, positional, old(argv[..argc]), Walk([], 0, []));
        if w.Success? then
          && r.Success? && roles == w.value.roles && log == w.value.log && nextPositional == w.value.next
          && r.value.0 == 1 + |roles| && r.value.2 == EndsAtMarker(w.value)
          && Reflects() && Compacted(argv, argc, old(argv[..]), r.value.1, roles)
        else r == Failure(w.error)
    {
      var current, nextKeep := 1, 1;
      ghost var before, entries := argv[..], argv[..argc];
      assert before[..argc] == entries;
      roles := [];
      while current != argc
        invariant current == 1 + |roles|
        invariant Reflects() && Compacted(argv, argc, before, nextKeep, roles)
        invariant !EndsAtMarker(Walk(log, nextPositional, roles))
        invariant Scan(options, positional, entries, Walk(log, nextPositional, roles))
               == Scan(options, positional, entries, Walk([], 0, []))
        decreases argc - current
      {
        Unread(argv, argc, before, nextKeep, roles);
        if argv[current] == "--" {
          KeptGrows(entries, roles, Marker);
          roles := roles + [Marker];
          return Success((current + 1, nextKeep, true)), roles;
        }
        var read;
        read, roles := ReadArgument(argv, argc, current, nextKeep, before, roles);
        if read.Failure? {
          return Failure(read.error), roles;
        }
        current, nextKeep := read.value.0, read.value.1;
      }
      r := Success((current, nextKeep, false));
    }

    /** The slot of one option, with its default if that is due. */
    method ParseDefault(id: Id) returns (r: Result<(), Error>)
      requires Reflects() && id < |options.details|
      requires defaulted <= Defaulted(options, log) && DefaultsParse(options, defaulted)
      requires id in Defaulted(options, log) <==> Due(options, log, id)
      modifies this`results, this`defaulted
      ensures if Due(options, log, id) && !DefaultParses(options, id) then r == Failure(BadDefault)
        else
          && r == Success(()) && Reflects() && results.Keys == old(results.Keys) + {id}
          && defaulted == if Due(options, log, id) then old(defaulted) + {id} else old(defaulted)
    {
      var fallback := options.details[id].fallback;
      results := results[id := Stored(id)];
      assert forall other: Id :: Stored(other) == old(Stored(other));
      if |Stored(id)| == 0 && fallback.Some? {
        if !Accepts(options.details[id].kind, fallback.value) {
          return Failure(BadDefault);
        }
        results := results[id := [fallback.value]];
        assert [fallback.value] + Texts(log, id) == [fallback.value];
        defaulted := defaulted + {id};
        forall other: Id | other < |options.details|
          ensures Stored(other) == Values(options, log, defaulted, other)
        {
          assert other != id ==> Stored(other) == old(Stored(other));
        }
      }
      r := Success(());
    }

    /** The names outside `todo` have a slot, and the default if that is due. */
    ghost predicate DefaultsDone(todo: set<string>)
      requires Declared(options)
      reads this`results, this`defaulted, this`log
    {
      forall name :: name in options.names && name !in todo ==>
        && options.names[name] in results
        && (Due(options, log, options.names[name]) ==> options.names[name] in defaulted)
    }

    /** Every declared option gets a slot, and its default if it has one and was given nothing. */
    method ParseDefaults() returns (r: Result<(), Error>)
      requires Reflects() && defaulted == {}
      modifies this`results, this`defaulted
      ensures if DefaultsParse(options, Defaulted(options, log)) then
          && r == Success(()) && defaulted == Defaulted(options, log) && Complete()
        else r == Failure(BadDefault)
    {
      var todo := options.names.Keys;
      while todo != {}
        invariant Reflects() && todo <= options.names.Keys
        invariant DefaultsDone(todo)
        invariant defaulted <= Defaulted(options, log) && DefaultsParse(options, defaulted)
        decreases |todo|
      {
        var name :| name in todo;
        var id := options.names[name];
        DueIsListed(options, log, id, name);
        var _ :- ParseDefault(id);
        todo := todo - {name};
      }
      assert defaulted == Defaulted(options, log);
      r := Success(());
    }

    /** What follows the marker: words for the positional options, then words that are kept. */
    method ConsumeRemaining(argv: array<string>, argc: nat, start: nat, keepFrom: nat,
                            ghost before: seq<string>, ghost read: seq<Role>)
      returns (r: Result<nat, Error>, ghost roles: seq<Role>)
      requires Reflects() && Compacted(argv, argc, before, keepFrom, read) && start == 1 + |read|
      modifies this`results, this`sequential, this`log, this`nextPositional, argv
      ensures var w := Tail(options, positional, before[..argc], defaulted, Walk(old(log), old(nextPositional), read));
        if w.Success? then
          && r.Success? && roles == w.value.roles && log == w.value.log && nextPositional == w.value.next
          && Reflects() && Compacted(argv, argc, before, r.value, roles)
        else r == Failure(w.error)
      ensures old(results.Keys) <= results.Keys
    {
      var current, nextKeep := start, keepFrom;
      ghost var entries := before[..argc];
      roles := read;
      while current < argc
        invariant current == 1 + |roles| <= argc && old(results.Keys) <= results.Keys
        invariant Reflects() && Compacted(argv, argc, before, nextKeep, roles)
        invariant Tail(options, positional, entries, defaulted, Walk(log, nextPositional, roles))
               == Tail(options, positional, entries, defaulted, Walk(old(log), old(nextPositional), read))
        decreases argc - current
      {
        Unread(argv, argc, before, nextKeep, roles);
        ghost var p := Place(options, positional, defaulted, log, nextPositional, entries[current]);
        var consumed := ConsumePositional(argv[current]);
        if consumed.Failure? {
          return Failure(consumed.error), roles;
        }
        if !consumed.value {
          r, roles := KeepRemaining(argv, argc, current, nextKeep, before, roles);
          return;
        }
        KeptGrows(entries, roles, PlaceRole(p.value));
        roles := roles + [PlaceRole(p.value)];
        current := current + 1;
      }
      r := Success(nextKeep);
    }

    method KeepRemaining(argv: array<string>, argc: nat, start: nat, keepFrom: nat,
                         ghost before: seq<string>, ghost read: seq<Role>)
      returns (r: Result<nat, Error>, ghost roles: seq<Role>)
      requires Compacted(argv, argc, before, keepFrom, read) && start == 1 + |read|
      modifies argv
      ensures roles == read + Repeat(argc - start) && r.Success? && Compacted(argv, argc, before, r.value, roles)
    {
      var current, nextKeep := start, keepFrom;
      roles := read;
      while current != argc
        invariant start <= current == 1 + |roles| <= argc
        invariant roles == read + Repeat(current - start)
        invariant Compacted(argv, argc, before, nextKeep, roles)
        decreases argc - current
      {
        Keep(argv, argc, current, nextKeep, before, roles);
        assert Repeat(current - start) + [Kept] == Repeat(current + 1 - start);
        roles, nextKeep, current := roles + [Kept], nextKeep + 1, current + 1;
      }
      r := Success(nextKeep);
    }

    /** The defaults, then what follows the marker, if there was one. */
    method FinishParse(argv: array<string>, argc: nat, current: nat, keepFrom: nat, consumeRemaining: bool,
                       ghost before: seq<string>, ghost read: seq<Role>)
      returns (r: Result<nat, Error>, ghost roles: seq<Role>)
      requires Reflects() && defaulted == {}
      requires Compacted(argv, argc, before, keepFrom, read) && current == 1 + |read|
      requires consumeRemaining == EndsAtMarker(Walk(log, nextPositional, read))
      requires !consumeRemaining ==> |read| == argc - 1
      modifies this`results, this`sequential, this`log, this`nextPositional, this`defaulted, argv
      ensures var m := Finish(options, positional, before[..argc], Walk(old(log), old(nextPositional), read));
        if m.Success? then
          && log == m.value.log && defaulted == m.value.defaulted && nextPositional == m.value.next && Complete()
          && r.Success? && roles == m.value.roles && Compacted(argv, argc, before, r.value, roles)
        else r == Failure(m.error)
    {
      var defaults := ParseDefaults();
      if defaults.Failure? {
        return Failure(defaults.error), read;
      }
      if consumeRemaining {
        r, roles := ConsumeRemaining(argv, argc, current, keepFrom, before, read);
      } else {
        r, roles := Success(keepFrom), read;
      }
    }

    /** On success, `argc` entries are left, and everything recorded is what the vector means. */
    method Parse(argv: array<string>, argc: nat) returns (r: Result<nat, Error>)
      requires Reflects() && 1 <= argc <= argv.Length
      requires log == [] && defaulted == {} && nextPositional == 0
      modifies this`results, this`sequential, this`log, this`nextPositional, this`defaulted, argv
      ensures var m := Meaning(options, positional, old(argv[..argc]));
        if m.Success? then
          && log == m.value.log && defaulted == m.value.defaulted && nextPositional == m.value.next && Complete()
          && var kept := KeptOf(old(argv[..argc]), m.value.roles);
             && r == Success(1 + |kept|) && 1 + |kept| <= argc
             && argv[..] == Overlay(old(argv[..]), kept)
        else r == Failure(m.error)
    {
      ghost var before := argv[..];
      assert before[..argc] == argv[..argc];
      var scanned, roles := ScanArguments(argv, argc);
      if scanned.Failure? {
        return Failure(scanned.error);
      }
      var (current, nextKeep, consumeRemaining) := scanned.value;
      r, roles := FinishParse(argv, argc, current, nextKeep, consumeRemaining, before, roles);
    }

    /** Everything recorded is known from the log, and every name has been given a slot. */
    ghost predicate Complete()
      reads this
    {
      && Reflects()
      && forall name :: name in options.names ==> options.names[name] in results
    }

    method Count(name: string) returns (n: nat)
      requires Complete()
      ensures n == if name in options.names then |Values(options, log, defaulted, options.names[name])| else 0
    {
      if name !in options.names {
        return 0;
      }
      n := |results[options.names[name]]|;
    }
  }
}
