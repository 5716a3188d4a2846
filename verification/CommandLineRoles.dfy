/**
 How an argument vector splits: each entry has exactly one role, told by the entries around it,
 and what the parser records is what the entries say, entry by entry.
 */
module CommandLineRoles {
  import opened CommandLine
  import opened Sequences
  import opened Wrappers

  /** Does this option take the next entry as its value? */
  predicate WantsValue(o: OptionTable, arg: string)
    requires Declared(o)
  {
    match Classify(arg)
    case Long(name, value) => value.None? && name in o.names && o.details[o.names[name]].implicit.None?
    case Short(letters) =>
      var last := letters[|letters| - 1..];
      letters != "" && last in o.names && o.details[o.names[last]].implicit.None?
    case NotFlag => false
  }

  /** The text an option named without one gets. */
  function TextFor(o: OptionTable, id: Id, after: Option<string>): string
    requires id < |o.details|
  {
    if o.details[id].implicit.Some? then o.details[id].implicit.value
    else if after.Some? then after.value else ""
  }

  function IdOf(o: OptionTable, name: string): Id {
    if name in o.names then o.names[name] else 0
  }

  /** `name` may be given without a text of its own, with `after` as the value if it needs one. */
  predicate Settles(o: OptionTable, name: string, after: Option<string>)
    requires Declared(o)
  {
    && name in o.names
    && (o.details[o.names[name]].implicit.Some? || after.Some?)
    && Accepts(o.details[o.names[name]].kind, TextFor(o, o.names[name], after))
  }

  function LetterEvent(o: OptionTable, letter: char, after: Option<string>): Event
    requires Declared(o) && Settles(o, [letter], after)
  {
    Event(o.names[[letter]], TextFor(o, o.names[[letter]], after))
  }

  /** Only the last letter of a cluster sees the next entry. */
  function SeenBy(letters: string, i: nat, after: Option<string>): Option<string> {
    if i + 1 == |letters| then after else None
  }

  predicate ClusterOk(o: OptionTable, letters: string, after: Option<string>)
    requires Declared(o)
  {
    forall i :: 0 <= i < |letters| ==> Settles(o, [letters[i]], SeenBy(letters, i, after))
  }

  /** The option entry can be read. */
  predicate FlagOk(o: OptionTable, arg: string, after: Option<string>)
    requires Declared(o)
  {
    match Classify(arg)
    case Long(name, Some(text)) => name in o.names && Accepts(o.details[o.names[name]].kind, text)
    case Long(name, None) => Settles(o, name, after)
    case Short(letters) => ClusterOk(o, letters, after)
    case NotFlag => false
  }

  /** What an option entry sets: a long option one value, a cluster one value for each letter. */
  function FlagEvents(o: OptionTable, arg: string, after: Option<string>): seq<Event>
    requires Declared(o) && FlagOk(o, arg, after)
  {
    match Classify(arg)
    case Long(name, Some(text)) => [Event(o.names[name], text)]
    case Long(name, None) => [Event(o.names[name], TextFor(o, o.names[name], after))]
    case Short(letters) =>
      seq(|letters|, i requires 0 <= i < |letters| && ClusterOk(o, letters, after) =>
        LetterEvent(o, letters[i], SeenBy(letters, i, after)))
  }

  /** Every letter from `i` on settles. */
  predicate AllSettle(o: OptionTable, after: Option<string>, letters: string, i: nat)
    requires Declared(o)
  {
    forall k :: i <= k < |letters| ==> Settles(o, [letters[k]], SeenBy(letters, k, after))
  }

  function LetterEvents(o: OptionTable, after: Option<string>, letters: string, i: nat): (r: seq<Event>)
    requires Declared(o) && i <= |letters| && AllSettle(o, after, letters, i)
    ensures |r| == |letters| - i
    decreases |letters| - i
  {
    if i == |letters| then []
    else [LetterEvent(o, letters[i], SeenBy(letters, i, after))] + LetterEvents(o, after, letters, i + 1)
  }

  lemma {:induction false} LetterEventAt(o: OptionTable, after: Option<string>, letters: string, i: nat, k: nat)
    requires Declared(o) && i <= k < |letters| && AllSettle(o, after, letters, i)
    ensures LetterEvents(o, after, letters, i)[k - i] == LetterEvent(o, letters[k], SeenBy(letters, k, after))
    decreases k - i
  {
    if i < k { LetterEventAt(o, after, letters, i + 1, k); }
  }

  lemma {:induction false} ClusterMeans(o: OptionTable, after: Option<string>, letters: string, i: nat, log: seq<Event>)
    requires Declared(o) && i < |letters|
    ensures var t := Cluster(o, after, letters, i, log);
      && (t.Success? <==> AllSettle(o, after, letters, i))
      && (t.Success? ==>
            && (t.value.extra <==> o.details[IdOf(o, letters[|letters| - 1..])].implicit.None?)
            && t.value.log == log + LetterEvents(o, after, letters, i))
    decreases |letters| - i
  {
    var name := [letters[i]];
    if i + 1 == |letters| {
      assert letters[|letters| - 1..] == name;
      LastLetter(o, after, letters, log);
    } else if Settles(o, name, None) && o.details[o.names[name]].implicit.Some? {
      var given := Give(o, log, o.names[name], o.details[o.names[name]].implicit.value);
      ClusterMeans(o, after, letters, i + 1, given.value);
      var t := Cluster(o, after, letters, i + 1, given.value);
      if t.Success? {
        Associate(log, [LetterEvent(o, letters[i], None)], LetterEvents(o, after, letters, i + 1));
      }
    }
  }

  lemma LastLetter(o: OptionTable, after: Option<string>, letters: string, log: seq<Event>)
    requires Declared(o) && letters != ""
    ensures var i := |letters| - 1;
      && (AllSettle(o, after, letters, i) <==> Settles(o, [letters[i]], after))
      && (AllSettle(o, after, letters, i) ==> LetterEvents(o, after, letters, i) == [LetterEvent(o, letters[i], after)])
  {
  }

  lemma ShortLetters(arg: string)
    ensures Classify(arg).Short? ==> Classify(arg).letters != ""
  {}

  /** Reading an option entry: when it succeeds, what it sets, and whether it takes the next entry. */
  lemma TakeFlagMeans(o: OptionTable, arg: string, after: Option<string>, log: seq<Event>)
    requires Declared(o) && Classify(arg) != NotFlag
    ensures var t := TakeFlag(o, arg, after, log);
      && (t.Success? <==> FlagOk(o, arg, after))
      && (t.Success? ==> t.value.log == log + FlagEvents(o, arg, after) && t.value.extra == WantsValue(o, arg))
  {
    ShortLetters(arg);
    match Classify(arg)
    case Long(name, value) =>
    case Short(letters) =>
      ClusterMeans(o, after, letters, 0, log);
      var t := Cluster(o, after, letters, 0, log);
      if t.Success? {
        assert letters[|letters| - 1..] == [letters[|letters| - 1]];
        forall k | 0 <= k < |letters|
          ensures LetterEvents(o, after, letters, 0)[k] == FlagEvents(o, arg, after)[k]
        {
          LetterEventAt(o, after, letters, 0, k);
        }
        assert LetterEvents(o, after, letters, 0) == FlagEvents(o, arg, after);
      }
  }

  // ---- the roles of a vector

  /** Entry `k` is the value of the option before it. */
  predicate Pending(o: OptionTable, argv: seq<string>, roles: seq<Role>, k: nat)
    requires Declared(o)
  {
    2 <= k <= |argv| && k - 2 < |roles| && roles[k - 2] == Flagged && WantsValue(o, argv[k - 1])
  }

  /** Entry `k` has the role that it and the entries before it call for. */
  predicate RoleOk(o: OptionTable, argv: seq<string>, roles: seq<Role>, k: nat)
    requires Declared(o) && 1 <= k <= |roles| < |argv|
  {
    var marked := Marker in roles[..k - 1];
    && (roles[k - 1] == FlagValue <==> Pending(o, argv, roles, k))
    && match roles[k - 1]
       case FlagValue => true
       case Marker => !marked && argv[k] == "--"
       case Flagged => !marked && Classify(argv[k]) != NotFlag && FlagOk(o, argv[k], After(argv, k))
       case Positional(id) => (marked && roles[k - 2] != Kept) || (argv[k] != "--" && Classify(argv[k]) == NotFlag)
       case Kept => marked || (argv[k] != "--" && Classify(argv[k]) == NotFlag)
  }

  predicate RolesOk(o: OptionTable, argv: seq<string>, roles: seq<Role>)
    requires Declared(o)
  {
    |roles| < |argv| && forall k :: 1 <= k <= |roles| ==> RoleOk(o, argv, roles, k)
  }

  /** What entry `k` sets. */
  function EntryEvents(o: OptionTable, argv: seq<string>, role: Role, k: nat): seq<Event>
    requires Declared(o) && k < |argv|
  {
    match role
    case Flagged => if FlagOk(o, argv[k], After(argv, k)) then FlagEvents(o, argv[k], After(argv, k)) else []
    case Positional(id) => [Event(id, argv[k])]
    case _ => []
  }

  function AllEvents(o: OptionTable, argv: seq<string>, roles: seq<Role>): seq<Event>
    requires Declared(o) && |roles| < |argv|
  {
    if roles == [] then []
    else
      var n := |roles|;
      AllEvents(o, argv, roles[..n - 1]) + EntryEvents(o, argv, roles[n - 1], n)
  }

  /** The walk's log is what the entries read so far say. */
  predicate Sound(o: OptionTable, argv: seq<string>, w: Walk)
    requires Declared(o)
  {
    RolesOk(o, argv, w.roles) && w.log == AllEvents(o, argv, w.roles)
  }

  lemma RolesGrow(o: OptionTable, argv: seq<string>, roles: seq<Role>, role: Role)
    requires Declared(o) && RolesOk(o, argv, roles) && |roles| + 1 < |argv|
    requires RoleOk(o, argv, roles + [role], |roles| + 1)
    ensures RolesOk(o, argv, roles + [role])
    ensures AllEvents(o, argv, roles + [role]) == AllEvents(o, argv, roles) + EntryEvents(o, argv, role, |roles| + 1)
  {
    var more := roles + [role];
    assert more[..|roles|] == roles;
    forall k | 1 <= k <= |roles|
      ensures RoleOk(o, argv, more, k)
    {
      assert RoleOk(o, argv, roles, k);
      assert more[..k - 1] == roles[..k - 1];
    }
  }

  lemma {:induction false} PlaceMeans(o: OptionTable, positional: seq<string>, defaulted: set<Id>, log: seq<Event>,
                                      next: nat, word: string)
    requires Declared(o)
    ensures var p := Place(o, positional, defaulted, log, next, word);
      p.Success? ==> p.value.log == if p.value.target.Some? then log + [Event(p.value.target.value, word)] else log
    decreases |positional| - next
  {
    if next < |positional| { PlaceMeans(o, positional, defaulted, log, next + 1, word); }
  }

  /** The positional option can take another word. */
  predicate Takes(o: OptionTable, defaulted: set<Id>, log: seq<Event>, name: string)
    requires Declared(o)
  {
    name in o.names && (o.details[o.names[name]].container || Values(o, log, defaulted, o.names[name]) == [])
  }

  /** The first position from `next` on whose option can take a word, or the end if there is none. */
  function NextTaker(o: OptionTable, positional: seq<string>, defaulted: set<Id>, log: seq<Event>, next: nat): (j: nat)
    requires Declared(o) && next <= |positional|
    ensures next <= j <= |positional|
    ensures forall i :: next <= i < j ==> !Takes(o, defaulted, log, positional[i])
    ensures j < |positional| ==> Takes(o, defaulted, log, positional[j])
    decreases |positional| - next
  {
    if next == |positional| || Takes(o, defaulted, log, positional[next]) then next
    else NextTaker(o, positional, defaulted, log, next + 1)
  }

  /** A word goes to the first positional option, from the next one on, that can take it. */
  lemma {:induction false} PlaceFirst(o: OptionTable, positional: seq<string>, defaulted: set<Id>, log: seq<Event>,
                                      next: nat, word: string, j: nat)
    requires Declared(o) && next <= j <= |positional|
    requires forall i :: next <= i < j ==> !Takes(o, defaulted, log, positional[i])
    requires j < |positional| ==> Takes(o, defaulted, log, positional[j])
    ensures var p := Place(o, positional, defaulted, log, next, word);
      if j == |positional| then p == Success(Placed(log, j, None))
      else
        var id := o.names[positional[j]];
        if Accepts(o.details[id].kind, word)
        then p == Success(Placed(log + [Event(id, word)], if o.details[id].container then j else j + 1, Some(id)))
        else p == Failure(IncorrectType(word))
    decreases j - next
  {
    if next < j { PlaceFirst(o, positional, defaulted, log, next + 1, word, j); }
  }

  lemma WordStep(o: OptionTable, argv: seq<string>, w: Walk, p: Placed, positional: seq<string>, defaulted: set<Id>)
    requires Declared(o) && Sound(o, argv, w) && |w.roles| + 1 < |argv|
    requires !Pending(o, argv, w.roles, |w.roles| + 1)
    requires Place(o, positional, defaulted, w.log, w.next, argv[|w.roles| + 1]) == Success(p)
    requires if Marker in w.roles then w.roles[|w.roles| - 1] != Kept
             else argv[|w.roles| + 1] != "--" && Classify(argv[|w.roles| + 1]) == NotFlag
    ensures Sound(o, argv, Walk(p.log, p.next, w.roles + [PlaceRole(p)]))
    ensures !Pending(o, argv, w.roles + [PlaceRole(p)], |w.roles| + 2)
  {
    var k := |w.roles| + 1;
    PlaceMeans(o, positional, defaulted, w.log, w.next, argv[k]);
    var more := w.roles + [PlaceRole(p)];
    assert more[..k - 1] == w.roles;
    RolesGrow(o, argv, w.roles, PlaceRole(p));
  }

  lemma FlagStep(o: OptionTable, argv: seq<string>, w: Walk, t: Taken)
    requires Declared(o) && Sound(o, argv, w) && |w.roles| + 1 < |argv|
    requires !Pending(o, argv, w.roles, |w.roles| + 1) && Marker !in w.roles
    requires Classify(argv[|w.roles| + 1]) != NotFlag
    requires TakeFlag(o, argv[|w.roles| + 1], After(argv, |w.roles| + 1), w.log) == Success(t)
    ensures Sound(o, argv, Walk(t.log, w.next, w.roles + FlagRoles(t.extra)))
    ensures !Pending(o, argv, w.roles + FlagRoles(t.extra), |w.roles + FlagRoles(t.extra)| + 1)
  {
    var k := |w.roles| + 1;
    TakeFlagMeans(o, argv[k], After(argv, k), w.log);
    var more := w.roles + [Flagged];
    assert more[..k - 1] == w.roles;
    RolesGrow(o, argv, w.roles, Flagged);
    if t.extra {
      var both := more + [FlagValue];
      assert both[..k] == more && both == w.roles + FlagRoles(true);
      RolesGrow(o, argv, more, FlagValue);
      assert w.log + FlagEvents(o, argv[k], After(argv, k)) + [] == w.log + FlagEvents(o, argv[k], After(argv, k));
    }
  }

  /** A sound walk before the marker, with no option waiting for its value. */
  predicate Open(o: OptionTable, argv: seq<string>, w: Walk)
    requires Declared(o)
  {
    Sound(o, argv, w) && Marker !in w.roles && !Pending(o, argv, w.roles, |w.roles| + 1)
  }

  /** Before the marker or just after it. */
  predicate Scanned(o: OptionTable, argv: seq<string>, w: Walk)
    requires Declared(o)
  {
    && Sound(o, argv, w) && !Pending(o, argv, w.roles, |w.roles| + 1)
    && (Marker in w.roles <==> EndsAtMarker(w))
  }

  lemma ReadWordSound(o: OptionTable, positional: seq<string>, argv: seq<string>, w: Walk)
    requires Declared(o) && Open(o, argv, w)
    requires |w.roles| + 1 < |argv| && argv[|w.roles| + 1] != "--" && Classify(argv[|w.roles| + 1]) == NotFlag
    ensures var r := ReadEntry(o, positional, argv, w);
      r.Success? ==> Open(o, argv, r.value)
  {
    var p := Place(o, positional, {}, w.log, w.next, argv[|w.roles| + 1]);
    if p.Success? { WordStep(o, argv, w, p.value, positional, {}); }
  }

  lemma ReadFlagSound(o: OptionTable, positional: seq<string>, argv: seq<string>, w: Walk)
    requires Declared(o) && Open(o, argv, w)
    requires |w.roles| + 1 < |argv| && Classify(argv[|w.roles| + 1]) != NotFlag
    ensures var r := ReadEntry(o, positional, argv, w);
      r.Success? ==> Open(o, argv, r.value)
  {
    var k := |w.roles| + 1;
    var t := TakeFlag(o, argv[k], After(argv, k), w.log);
    if t.Success? { FlagStep(o, argv, w, t.value); }
  }

  lemma MarkerSound(o: OptionTable, argv: seq<string>, w: Walk)
    requires Declared(o) && Open(o, argv, w)
    requires |w.roles| + 1 < |argv| && argv[|w.roles| + 1] == "--"
    ensures Scanned(o, argv, w.(roles := w.roles + [Marker]))
  {
    assert (w.roles + [Marker])[..|w.roles|] == w.roles;
    RolesGrow(o, argv, w.roles, Marker);
    assert w.log + [] == w.log;
  }

  lemma OpenScanned(o: OptionTable, argv: seq<string>, w: Walk)
    requires Declared(o) && Open(o, argv, w)
    ensures Scanned(o, argv, w)
  {}

  /** Up to and including the marker. */
  lemma {:induction false} ScanSound(o: OptionTable, positional: seq<string>, argv: seq<string>, w: Walk)
    requires Declared(o) && |w.roles| < |argv| && Open(o, argv, w)
    ensures var r := Scan(o, positional, argv, w);
      r.Success? ==> Scanned(o, argv, r.value)
    decreases |argv| - |w.roles|
  {
    var k := |w.roles| + 1;
    if k == |argv| {
      OpenScanned(o, argv, w);
    } else if argv[k] == "--" {
      MarkerSound(o, argv, w);
    } else {
      if Classify(argv[k]) == NotFlag {
        ReadWordSound(o, positional, argv, w);
      } else {
        ReadFlagSound(o, positional, argv, w);
      }
      var read := ReadEntry(o, positional, argv, w);
      if read.Success? { ScanSound(o, positional, argv, read.value); }
    }
  }

  lemma MarkerStays(roles: seq<Role>, more: seq<Role>)
    requires Marker in roles
    ensures Marker in roles + more
  {}

  /** The roles fit past the marker, no value is waited for, and what has been set is `events`. */
  predicate BeyondMarker(o: OptionTable, argv: seq<string>, roles: seq<Role>, events: seq<Event>)
    requires Declared(o)
  {
    && |roles| < |argv| && Marker in roles && RolesOk(o, argv, roles) && !Pending(o, argv, roles, |roles| + 1)
    && AllEvents(o, argv, roles) == events
  }

  lemma KeptStep(o: OptionTable, argv: seq<string>, roles: seq<Role>, events: seq<Event>)
    requires Declared(o) && BeyondMarker(o, argv, roles, events) && |roles| + 1 < |argv|
    ensures BeyondMarker(o, argv, roles + [Kept], events)
  {
    assert (roles + [Kept])[..|roles|] == roles;
    MarkerStays(roles, [Kept]);
    RolesGrow(o, argv, roles, Kept);
    assert AllEvents(o, argv, roles) + [] == AllEvents(o, argv, roles);
  }

  lemma {:induction false} RestKept(o: OptionTable, argv: seq<string>, roles: seq<Role>, events: seq<Event>, n: nat)
    requires Declared(o) && BeyondMarker(o, argv, roles, events) && |roles| + n < |argv|
    ensures BeyondMarker(o, argv, roles + Repeat(n), events)
    decreases n
  {
    if n == 0 {
      assert roles + Repeat(0) == roles;
    } else {
      RestKept(o, argv, roles, events, n - 1);
      assert roles + Repeat(n) == roles + Repeat(n - 1) + [Kept];
      KeptStep(o, argv, roles + Repeat(n - 1), events);
    }
  }

  /** A sound walk past the marker in which nothing is kept yet. */
  predicate InTail(o: OptionTable, argv: seq<string>, w: Walk)
    requires Declared(o)
  {
    && Sound(o, argv, w) && Marker in w.roles && !Pending(o, argv, w.roles, |w.roles| + 1)
    && w.roles[|w.roles| - 1] != Kept
  }

  /** A word past the marker, and all the words after it if it is kept. */
  lemma TailStep(o: OptionTable, positional: seq<string>, argv: seq<string>, defaulted: set<Id>, w: Walk, p: Placed)
    requires Declared(o) && InTail(o, argv, w) && |w.roles| + 1 < |argv|
    requires Place(o, positional, defaulted, w.log, w.next, argv[|w.roles| + 1]) == Success(p)
    ensures p.target.Some? ==> InTail(o, argv, Walk(p.log, p.next, w.roles + [PlaceRole(p)]))
    ensures p.target.None? ==>
      var roles := w.roles + Repeat(|argv| - 1 - |w.roles|);
      Sound(o, argv, Walk(p.log, p.next, roles)) && !Pending(o, argv, roles, |argv|)
  {
    PlaceMeans(o, positional, defaulted, w.log, w.next, argv[|w.roles| + 1]);
    if p.target.None? {
      RestKept(o, argv, w.roles, AllEvents(o, argv, w.roles), |argv| - 1 - |w.roles|);
    } else {
      WordStep(o, argv, w, p, positional, defaulted);
      MarkerStays(w.roles, [PlaceRole(p)]);
    }
  }

  lemma {:induction false} TailSound(o: OptionTable, positional: seq<string>, argv: seq<string>, defaulted: set<Id>, w: Walk)
    requires Declared(o) && InTail(o, argv, w)
    ensures var r := Tail(o, positional, argv, defaulted, w);
      r.Success? ==> Sound(o, argv, r.value) && !Pending(o, argv, r.value.roles, |argv|)
    decreases |argv| - |w.roles|
  {
    var k := |w.roles| + 1;
    if k < |argv| {
      var p := Place(o, positional, defaulted, w.log, w.next, argv[k]);
      if p.Success? {
        TailStep(o, positional, argv, defaulted, w, p.value);
        if p.value.target.Some? {
          TailSound(o, positional, argv, defaulted, Walk(p.value.log, p.value.next, w.roles + [PlaceRole(p.value)]));
        }
      }
    }
  }

  predicate ParsedSoundly(o: OptionTable, argv: seq<string>, p: Parse)
    requires Declared(o)
  {
    && |p.roles| == |argv| - 1 && RolesOk(o, argv, p.roles) && !Pending(o, argv, p.roles, |argv|)
    && p.log == AllEvents(o, argv, p.roles)
  }

  lemma FinishSound(o: OptionTable, positional: seq<string>, argv: seq<string>, w: Walk)
    requires Declared(o) && |w.roles| < |argv| && Scanned(o, argv, w)
    requires !EndsAtMarker(w) ==> |w.roles| == |argv| - 1
    ensures var m := Finish(o, positional, argv, w);
      m.Success? ==> ParsedSoundly(o, argv, m.value)
  {
    if EndsAtMarker(w) { TailSound(o, positional, argv, Defaulted(o, w.log), w); }
  }

  /**
   Every successful parse gives each entry the one role its place calls for, leaves no option
   waiting for its value, and records exactly what the entries say, in their order.
   */
  lemma ParseSound(o: OptionTable, positional: seq<string>, argv: seq<string>)
    requires Declared(o) && argv != []
    ensures var m := Meaning(o, positional, argv);
      m.Success? ==> ParsedSoundly(o, argv, m.value)
  {
    var start := Walk([], 0, []);
    ScanSound(o, positional, argv, start);
    var w := Scan(o, positional, argv, start);
    if w.Success? { FinishSound(o, positional, argv, w.value); }
  }

  // ---- the roles are the only ones

  predicate SameKind(a: Role, b: Role) {
    a == b || ((a.Positional? || a == Kept) && (b.Positional? || b == Kept))
  }

  /** Up to whether a word found a place, a vector splits in only one way. */
  lemma {:induction false} OneSplit(o: OptionTable, argv: seq<string>, a: seq<Role>, b: seq<Role>, k: nat)
    requires Declared(o) && RolesOk(o, argv, a) && RolesOk(o, argv, b) && |a| == |b| && k <= |a|
    ensures forall i :: 0 <= i < k ==> SameKind(a[i], b[i])
    decreases k
  {
    if k > 0 {
      OneSplit(o, argv, a, b, k - 1);
      assert RoleOk(o, argv, a, k) && RoleOk(o, argv, b, k);
      assert Pending(o, argv, a, k) == Pending(o, argv, b, k) by {
        if k >= 2 { assert SameKind(a[k - 2], b[k - 2]); }
      }
      MarkedAlike(a[..k - 1], b[..k - 1]);
    }
  }

  lemma MarkedAlike(a: seq<Role>, b: seq<Role>)
    requires |a| == |b| && forall i :: 0 <= i < |a| ==> SameKind(a[i], b[i])
    ensures Marker in a <==> Marker in b
  {
    if Marker in a {
      var i :| 0 <= i < |a| && a[i] == Marker;
      assert SameKind(a[i], b[i]);
    }
    if Marker in b {
      var i :| 0 <= i < |b| && b[i] == Marker;
      assert SameKind(a[i], b[i]);
    }
  }
}
