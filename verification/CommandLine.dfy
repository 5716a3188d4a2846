/**
 What the command-line parser means: how an argument vector splits into options, option values,
 positional words, the `--` marker and words left over, and what each of them sets.
 */
module CommandLine {
  import IntegerParser
  import opened Wrappers

  type Id = nat

  datatype Kind = Text | Flag | Integer(width: IntegerParser.IntType)

  /** An option: `implicit` is used when no value is given, `fallback` when the option is not. */
  datatype Details = Details(short: string, long: string, kind: Kind, container: bool,
                             implicit: Option<string>, fallback: Option<string>)

  /** The declared options; a short and a long name may stand for the same one. */
  datatype OptionTable = OptionTable(names: map<string, Id>, details: seq<Details>)

  datatype Error =
    | OptionExists(name: string)
    | InvalidFormat(spec: string)
    | OptionNotExists(name: string)
    | MissingArgument(name: string)
    | RequiresArgument(name: string)
    | IncorrectType(text: string)
    | BadDefault

  /** One value given to an option. */
  datatype Event = Event(id: Id, text: string)

  /** What became of one entry of the argument vector. */
  datatype Role = Flagged | FlagValue | Positional(id: Id) | Marker | Kept

  datatype Class = Long(name: string, value: Option<string>) | Short(letters: string) | NotFlag

  predicate Declared(o: OptionTable) {
    forall name :: name in o.names ==> o.names[name] < |o.details|
  }

  // ---- the shape of an argument

  predicate NameChar(c: char) {
    IntegerParser.IsAlnum(c) || c == '-' || c == '_'
  }

  predicate IsLongName(s: string) {
    |s| >= 2 && IntegerParser.IsAlnum(s[0]) && forall i :: 1 <= i < |s| ==> NameChar(s[i])
  }

  predicate OneLine(s: string) {
    forall i :: 0 <= i < |s| ==> s[i] != '\n' && s[i] != '\r'
  }

  predicate Letters(s: string) {
    s != "" && forall i :: 0 <= i < |s| ==> IntegerParser.IsAlnum(s[i])
  }

  function FirstEquals(s: string, i: nat): (k: nat)
    requires i <= |s|
    ensures i <= k <= |s| && (k < |s| ==> s[k] == '=') && forall j :: i <= j < k ==> s[j] != '='
    decreases |s| - i
  {
    if i == |s| || s[i] == '=' then i else FirstEquals(s, i + 1)
  }

  /** What the option pattern matches in an argument. */
  function Classify(arg: string): Class {
    if |arg| >= 2 && arg[0] == '-' && arg[1] == '-' then
      var k := FirstEquals(arg, 2);
      if !IsLongName(arg[2..k]) then NotFlag
      else if k == |arg| then Long(arg[2..k], None)
      else if OneLine(arg[k + 1..]) then Long(arg[2..k], Some(arg[k + 1..]))
      else NotFlag
    else if arg != "" && arg[0] == '-' && Letters(arg[1..]) then Short(arg[1..])
    else NotFlag
  }

  // ---- values

  predicate Accepts(kind: Kind, text: string) {
    match kind
    case Text => true
    case Flag => text in {"t", "T", "true", "True", "", "f", "F", "false", "False"}
    case Integer(t) => IntegerParser.IsWidth(t.bits) && IntegerParser.Parsed(t, text).Success?
  }

  function Give(o: OptionTable, log: seq<Event>, id: Id, text: string): Result<seq<Event>, Error>
    requires id < |o.details|
  {
    if Accepts(o.details[id].kind, text) then Success(log + [Event(id, text)]) else Failure(IncorrectType(text))
  }

  /** The texts an option was given, in order. */
  function Texts(log: seq<Event>, id: Id): seq<string> {
    if log == [] then []
    else
      var before, e := Texts(log[..|log| - 1], id), log[|log| - 1];
      if e.id == id then before + [e.text] else before
  }

  /** The values stored for an option: its default comes first when it is in `defaulted`. */
  function Values(o: OptionTable, log: seq<Event>, defaulted: set<Id>, id: Id): seq<string>
    requires id < |o.details|
  {
    if id in defaulted && o.details[id].fallback.Some? then [o.details[id].fallback.value] + Texts(log, id)
    else Texts(log, id)
  }

  /** Every value given, under the long name of its option, in the order given. */
  function Sequential(o: OptionTable, log: seq<Event>): seq<(string, string)>
    requires forall e :: e in log ==> e.id < |o.details|
  {
    seq(|log|, i requires 0 <= i < |log| => (o.details[log[i].id].long, log[i].text))
  }

  // ---- options

  /** The entry after `cur`, if there is one. */
  function After(argv: seq<string>, cur: nat): Option<string> {
    if cur + 1 < |argv| then Some(argv[cur + 1]) else None
  }

  /** A value for the option; `extra` tells that it was taken from the next entry. */
  datatype Taken = Taken(log: seq<Event>, extra: bool)

  function CheckedArg(o: OptionTable, after: Option<string>, id: Id, name: string, log: seq<Event>)
    : (r: Result<Taken, Error>)
    requires id < |o.details|
    ensures r.Success? && r.value.extra ==> after.Some?
  {
    var implicit := o.details[id].implicit;
    if implicit.Some? then
      var given :- Give(o, log, id, implicit.value);
      Success(Taken(given, false))
    else if after.None? then Failure(MissingArgument(name))
    else
      var given :- Give(o, log, id, after.value);
      Success(Taken(given, true))
  }

  /** The letters of a cluster from `i` on: only the last may take a value that is not implicit. */
  function Cluster(o: OptionTable, after: Option<string>, letters: string, i: nat, log: seq<Event>)
    : (r: Result<Taken, Error>)
    requires Declared(o) && i < |letters|
    ensures r.Success? && r.value.extra ==> after.Some?
    decreases |letters| - i
  {
    var name := [letters[i]];
    if name !in o.names then Failure(OptionNotExists(name))
    else
      var id := o.names[name];
      if i + 1 == |letters| then CheckedArg(o, after, id, name, log)
      else if o.details[id].implicit.Some? then
        var given :- Give(o, log, id, o.details[id].implicit.value);
        Cluster(o, after, letters, i + 1, given)
      else Failure(RequiresArgument(name))
  }

  function TakeFlag(o: OptionTable, arg: string, after: Option<string>, log: seq<Event>): (r: Result<Taken, Error>)
    requires Declared(o) && Classify(arg) != NotFlag
    ensures r.Success? && r.value.extra ==> after.Some?
  {
    match Classify(arg)
    case Short(letters) => Cluster(o, after, letters, 0, log)
    case Long(name, value) =>
      if name !in o.names then Failure(OptionNotExists(name))
      else if value.Some? then
        var given :- Give(o, log, o.names[name], value.value);
        Success(Taken(given, false))
      else CheckedArg(o, after, o.names[name], name, log)
  }

  // ---- positional words

  /** Where a positional word went, if anywhere, and which positional option is next. */
  datatype Placed = Placed(log: seq<Event>, next: nat, target: Option<Id>)

  function Place(o: OptionTable, positional: seq<string>, defaulted: set<Id>, log: seq<Event>, next: nat, word: string)
    : Result<Placed, Error>
    requires Declared(o)
    decreases |positional| - next
  {
    if next >= |positional| then Success(Placed(log, next, None))
    else if positional[next] !in o.names then Place(o, positional, defaulted, log, next + 1, word)
    else
      var id := o.names[positional[next]];
      if o.details[id].container then
        var given :- Give(o, log, id, word);
        Success(Placed(given, next, Some(id)))
      else if Values(o, log, defaulted, id) == [] then
        var given :- Give(o, log, id, word);
        Success(Placed(given, next + 1, Some(id)))
      else Place(o, positional, defaulted, log, next + 1, word)
  }

  // ---- the argument vector

  /** How far a walk over the vector has come: entry `|roles|` was the last one read. */
  datatype Walk = Walk(log: seq<Event>, next: nat, roles: seq<Role>)

  function PlaceRole(p: Placed): Role {
    if p.target.Some? then Positional(p.target.value) else Kept
  }

  /** One entry that is not the marker: an option, with its value, or a word. */
  function ReadEntry(o: OptionTable, positional: seq<string>, argv: seq<string>, w: Walk): (r: Result<Walk, Error>)
    requires Declared(o) && |w.roles| + 1 < |argv|
    ensures r.Success? ==> |w.roles| < |r.value.roles| < |argv| && r.value.roles[..|w.roles|] == w.roles
    ensures r.Success? ==> !EndsAtMarker(r.value)
  {
    var cur := 1 + |w.roles|;
    if Classify(argv[cur]) == NotFlag then
      var p :- Place(o, positional, {}, w.log, w.next, argv[cur]);
      Success(Walk(p.log, p.next, w.roles + [PlaceRole(p)]))
    else
      var t :- TakeFlag(o, argv[cur], After(argv, cur), w.log);
      Success(Walk(t.log, w.next, w.roles + FlagRoles(t.extra)))
  }

  function FlagRoles(extra: bool): seq<Role> {
    if extra then [Flagged, FlagValue] else [Flagged]
  }

  function Scan(o: OptionTable, positional: seq<string>, argv: seq<string>, w: Walk): (r: Result<Walk, Error>)
    requires Declared(o) && |w.roles| < |argv|
    ensures r.Success? ==> |r.value.roles| < |argv|
    ensures r.Success? && !EndsAtMarker(r.value) ==> |r.value.roles| == |argv| - 1
    decreases |argv| - |w.roles|
  {
    var cur := 1 + |w.roles|;
    if cur == |argv| then Success(w)
    else if argv[cur] == "--" then Success(w.(roles := w.roles + [Marker]))
    else
      var read :- ReadEntry(o, positional, argv, w);
      Scan(o, positional, argv, read)
  }

  function Repeat(n: nat): (r: seq<Role>)
    ensures |r| == n && forall i :: 0 <= i < n ==> r[i] == Kept
  {
    seq(n, _ => Kept)
  }

  /** After the marker: words go to positional options until one finds no place; the rest is kept. */
  function Tail(o: OptionTable, positional: seq<string>, argv: seq<string>, defaulted: set<Id>, w: Walk)
    : (r: Result<Walk, Error>)
    requires Declared(o) && |w.roles| < |argv|
    ensures r.Success? ==> |r.value.roles| == |argv| - 1
    decreases |argv| - |w.roles|
  {
    var cur := 1 + |w.roles|;
    if cur >= |argv| then Success(w)
    else
      var p :- Place(o, positional, defaulted, w.log, w.next, argv[cur]);
      if p.target.None? then Success(Walk(p.log, p.next, w.roles + Repeat(|argv| - cur)))
      else Tail(o, positional, argv, defaulted, Walk(p.log, p.next, w.roles + [PlaceRole(p)]))
  }

  /** An option with a default that was given nothing. */
  predicate Due(o: OptionTable, log: seq<Event>, id: Id)
    requires id < |o.details|
  {
    o.details[id].fallback.Some? && Texts(log, id) == []
  }

  /** The options that get their default. */
  function Defaulted(o: OptionTable, log: seq<Event>): set<Id>
    requires Declared(o)
  {
    set name | name in o.names && Due(o, log, o.names[name]) :: o.names[name]
  }

  predicate DefaultParses(o: OptionTable, id: Id)
    requires id < |o.details|
  {
    o.details[id].fallback.Some? && Accepts(o.details[id].kind, o.details[id].fallback.value)
  }

  predicate DefaultsParse(o: OptionTable, ids: set<Id>) {
    forall id :: id in ids ==> id < |o.details| && DefaultParses(o, id)
  }

  datatype Parse = Parse(log: seq<Event>, next: nat, defaulted: set<Id>, roles: seq<Role>)

  predicate EndsAtMarker(w: Walk) {
    w.roles != [] && w.roles[|w.roles| - 1] == Marker
  }

  /** Defaults, then what follows the marker. */
  function Finish(o: OptionTable, positional: seq<string>, argv: seq<string>, w: Walk): (r: Result<Parse, Error>)
    requires Declared(o) && |w.roles| < |argv|
    requires !EndsAtMarker(w) ==> |w.roles| == |argv| - 1
    ensures r.Success? ==> |r.value.roles| == |argv| - 1
  {
    var ids := Defaulted(o, w.log);
    if !DefaultsParse(o, ids) then Failure(BadDefault)
    else if EndsAtMarker(w) then
      var rest :- Tail(o, positional, argv, ids, w);
      Success(Parse(rest.log, rest.next, ids, rest.roles))
    else Success(Parse(w.log, w.next, ids, w.roles))
  }

  function Meaning(o: OptionTable, positional: seq<string>, argv: seq<string>): (r: Result<Parse, Error>)
    requires Declared(o) && argv != []
    ensures r.Success? ==> |r.value.roles| == |argv| - 1
  {
    var w :- Scan(o, positional, argv, Walk([], 0, []));
    Finish(o, positional, argv, w)
  }

  /** The entries that are kept, in order. */
  function KeptOf(argv: seq<string>, roles: seq<Role>): seq<string>
    requires |roles| < |argv|
  {
    if roles == [] then []
    else
      var n := |roles|;
      var before := KeptOf(argv, roles[..n - 1]);
      if roles[n - 1] == Kept then before + [argv[n]] else before
  }
}
