/**
 The meaning of an argument vector without a parser: a split of the vector into roles in which every
 word goes where it must. A vector has at most one such split, and the parser finds it if there is one.
 */
module CommandLineMeaning {
  import opened CommandLine
  import opened CommandLineRoles
  import opened Wrappers

  /** The options that had their default when the last entry was read. */
  function DefaultsAt(o: OptionTable, argv: seq<string>, roles: seq<Role>): set<Id>
    requires Declared(o) && |roles| < |argv|
  {
    if roles == [] then {}
    else if roles[|roles| - 1] == Marker then Defaulted(o, AllEvents(o, argv, roles))
    else DefaultsAt(o, argv, roles[..|roles| - 1])
  }

  /** The position of the next positional option after the entries with these roles. */
  function NextAt(o: OptionTable, positional: seq<string>, argv: seq<string>, roles: seq<Role>): (next: nat)
    requires Declared(o) && |roles| < |argv|
    ensures next <= |positional|
    decreases |roles|, 0
  {
    if roles == [] then 0
    else
      var before := roles[..|roles| - 1];
      match roles[|roles| - 1]
      case Kept => |positional|
      case Positional(id) =>
        var j := TakerAt(o, positional, argv, before);
        if j < |positional| && !o.details[o.names[positional[j]]].container then j + 1 else j
      case _ => NextAt(o, positional, argv, before)
  }

  /** The position of the option that takes a word after the entries with these roles, or the end. */
  function TakerAt(o: OptionTable, positional: seq<string>, argv: seq<string>, roles: seq<Role>): (j: nat)
    requires Declared(o) && |roles| < |argv|
    ensures j <= |positional| && (j < |positional| ==> positional[j] in o.names)
    decreases |roles|, 1
  {
    NextTaker(o, positional, DefaultsAt(o, argv, roles), AllEvents(o, argv, roles), NextAt(o, positional, argv, roles))
  }

  /** The last entry, if it is a word, went to the option that takes it, or was kept for want of one. */
  predicate LastOk(o: OptionTable, positional: seq<string>, argv: seq<string>, roles: seq<Role>)
    requires Declared(o) && 0 < |roles| < |argv|
  {
    var j := TakerAt(o, positional, argv, roles[..|roles| - 1]);
    match roles[|roles| - 1]
    case Positional(id) =>
      j < |positional| && id == o.names[positional[j]] && Accepts(o.details[id].kind, argv[|roles|])
    case Kept => j == |positional|
    case _ => true
  }

  predicate WordsOk(o: OptionTable, positional: seq<string>, argv: seq<string>, roles: seq<Role>)
    requires Declared(o) && |roles| < |argv|
  {
    forall n :: 0 < n <= |roles| ==> LastOk(o, positional, argv, roles[..n])
  }

  /** The options that have their default in the end. */
  function FinalDefaults(o: OptionTable, argv: seq<string>, roles: seq<Role>): set<Id>
    requires Declared(o) && |roles| < |argv|
  {
    if Marker in roles then DefaultsAt(o, argv, roles) else Defaulted(o, AllEvents(o, argv, roles))
  }

  /** The roles split the whole vector, each entry and each word as it must be. */
  predicate Fits(o: OptionTable, positional: seq<string>, argv: seq<string>, roles: seq<Role>)
    requires Declared(o)
  {
    && |roles| + 1 == |argv| && RolesOk(o, argv, roles) && !Pending(o, argv, roles, |argv|)
    && WordsOk(o, positional, argv, roles)
  }

  /** A split whose defaults can be read. */
  predicate Splits(o: OptionTable, positional: seq<string>, argv: seq<string>, roles: seq<Role>)
    requires Declared(o)
  {
    Fits(o, positional, argv, roles) && DefaultsParse(o, FinalDefaults(o, argv, roles))
  }

  /** What a split says. */
  function Reading(o: OptionTable, positional: seq<string>, argv: seq<string>, roles: seq<Role>): Parse
    requires Declared(o) && |roles| < |argv|
  {
    Parse(AllEvents(o, argv, roles), NextAt(o, positional, argv, roles), FinalDefaults(o, argv, roles), roles)
  }

  function WalkAt(o: OptionTable, positional: seq<string>, argv: seq<string>, roles: seq<Role>): Walk
    requires Declared(o) && |roles| < |argv|
  {
    Walk(AllEvents(o, argv, roles), NextAt(o, positional, argv, roles), roles)
  }

  // ---- a word

  /** Placing a word after a split of what precedes it. */
  lemma WordGoes(o: OptionTable, positional: seq<string>, argv: seq<string>, roles: seq<Role>)
    requires Declared(o) && |roles| + 1 < |argv|
    ensures var w, word := WalkAt(o, positional, argv, roles), argv[|roles| + 1];
      var p, j := Place(o, positional, DefaultsAt(o, argv, roles), w.log, w.next, word), TakerAt(o, positional, argv, roles);
      && (p.Success? <==> j < |positional| ==> Accepts(o.details[o.names[positional[j]]].kind, word))
      && (p.Success? ==>
            && p.value.target == (if j < |positional| then Some(o.names[positional[j]]) else None)
            && LastOk(o, positional, argv, roles + [PlaceRole(p.value)])
            && Walk(p.value.log, p.value.next, roles + [PlaceRole(p.value)]) ==
                 WalkAt(o, positional, argv, roles + [PlaceRole(p.value)]))
  {
    var w, word, j := WalkAt(o, positional, argv, roles), argv[|roles| + 1], TakerAt(o, positional, argv, roles);
    var p := Place(o, positional, DefaultsAt(o, argv, roles), w.log, w.next, word);
    PlaceFirst(o, positional, DefaultsAt(o, argv, roles), w.log, w.next, word, j);
    if p.Success? {
      var more := roles + [PlaceRole(p.value)];
      assert more[..|more| - 1] == roles;
      assert w.log + [] == w.log;
    }
  }

  lemma GrowWords(o: OptionTable, positional: seq<string>, argv: seq<string>, roles: seq<Role>, role: Role)
    requires Declared(o) && |roles| + 1 < |argv|
    requires WordsOk(o, positional, argv, roles) && LastOk(o, positional, argv, roles + [role])
    ensures WordsOk(o, positional, argv, roles + [role])
  {
    var more := roles + [role];
    forall n | 0 < n <= |more|
      ensures LastOk(o, positional, argv, more[..n])
    {
      if n <= |roles| {
        assert more[..n] == roles[..n];
      } else {
        assert more[..n] == more;
      }
    }
  }

  lemma {:induction false} NoDefaults(o: OptionTable, argv: seq<string>, roles: seq<Role>)
    requires Declared(o) && |roles| < |argv| && Marker !in roles
    ensures DefaultsAt(o, argv, roles) == {}
    decreases |roles|
  {
    if roles != [] { NoDefaults(o, argv, roles[..|roles| - 1]); }
  }

  // ---- an option

  /** An entry that is no word leaves the positional options as they are. */
  lemma PlainRole(o: OptionTable, positional: seq<string>, argv: seq<string>, roles: seq<Role>, role: Role)
    requires Declared(o) && |roles| + 1 < |argv| && WordsOk(o, positional, argv, roles)
    requires !role.Positional? && role != Kept
    ensures WordsOk(o, positional, argv, roles + [role])
    ensures WalkAt(o, positional, argv, roles + [role]) ==
      Walk(AllEvents(o, argv, roles) + EntryEvents(o, argv, role, |roles| + 1), NextAt(o, positional, argv, roles), roles + [role])
  {
    var more := roles + [role];
    assert more[..|more| - 1] == roles;
    GrowWords(o, positional, argv, roles, role);
  }

  /** Reading an option entry after a split of what precedes it. */
  lemma FlagReads(o: OptionTable, positional: seq<string>, argv: seq<string>, roles: seq<Role>)
    requires Declared(o) && |roles| + 1 < |argv| && WordsOk(o, positional, argv, roles)
    requires Classify(argv[|roles| + 1]) != NotFlag
    ensures var k := |roles| + 1;
      var r, more := ReadEntry(o, positional, argv, WalkAt(o, positional, argv, roles)), roles + FlagRoles(WantsValue(o, argv[k]));
      && (r.Success? <==> FlagOk(o, argv[k], After(argv, k)))
      && (r.Success? ==> |more| < |argv| && r.value == WalkAt(o, positional, argv, more) && WordsOk(o, positional, argv, more))
  {
    var k, w := |roles| + 1, WalkAt(o, positional, argv, roles);
    TakeFlagMeans(o, argv[k], After(argv, k), w.log);
    if FlagOk(o, argv[k], After(argv, k)) {
      PlainRole(o, positional, argv, roles, Flagged);
      if WantsValue(o, argv[k]) {
        PlainRole(o, positional, argv, roles + [Flagged], FlagValue);
        assert roles + [Flagged] + [FlagValue] == roles + FlagRoles(true);
        assert w.log + FlagEvents(o, argv[k], After(argv, k)) + [] == w.log + FlagEvents(o, argv[k], After(argv, k));
      }
    }
  }

  // ---- every parse is a split

  lemma MarkerReads(o: OptionTable, positional: seq<string>, argv: seq<string>, roles: seq<Role>)
    requires Declared(o) && |roles| + 1 < |argv| && WordsOk(o, positional, argv, roles)
    ensures WordsOk(o, positional, argv, roles + [Marker])
    ensures WalkAt(o, positional, argv, roles).(roles := roles + [Marker]) == WalkAt(o, positional, argv, roles + [Marker])
  {
    PlainRole(o, positional, argv, roles, Marker);
    assert AllEvents(o, argv, roles) + [] == AllEvents(o, argv, roles);
  }

  lemma WordReads(o: OptionTable, positional: seq<string>, argv: seq<string>, roles: seq<Role>)
    requires Declared(o) && |roles| + 1 < |argv| && Marker !in roles && WordsOk(o, positional, argv, roles)
    requires Classify(argv[|roles| + 1]) == NotFlag
    ensures var r := ReadEntry(o, positional, argv, WalkAt(o, positional, argv, roles));
      r.Success? ==>
        && r.value == WalkAt(o, positional, argv, r.value.roles) && WordsOk(o, positional, argv, r.value.roles)
        && Marker !in r.value.roles
  {
    NoDefaults(o, argv, roles);
    WordGoes(o, positional, argv, roles);
    var read := ReadEntry(o, positional, argv, WalkAt(o, positional, argv, roles));
    if read.Success? { GrowWords(o, positional, argv, roles, read.value.roles[|roles|]); }
  }

  lemma EntryReads(o: OptionTable, positional: seq<string>, argv: seq<string>, roles: seq<Role>)
    requires Declared(o) && |roles| + 1 < |argv| && Marker !in roles && WordsOk(o, positional, argv, roles)
    ensures var r := ReadEntry(o, positional, argv, WalkAt(o, positional, argv, roles));
      r.Success? ==>
        && r.value == WalkAt(o, positional, argv, r.value.roles) && WordsOk(o, positional, argv, r.value.roles)
        && Marker !in r.value.roles
  {
    if Classify(argv[|roles| + 1]) == NotFlag {
      WordReads(o, positional, argv, roles);
    } else {
      FlagReads(o, positional, argv, roles);
    }
  }

  lemma {:induction false} ScanSplits(o: OptionTable, positional: seq<string>, argv: seq<string>, w: Walk)
    requires Declared(o) && |w.roles| < |argv| && w == WalkAt(o, positional, argv, w.roles)
    requires Marker !in w.roles && WordsOk(o, positional, argv, w.roles)
    ensures var r := Scan(o, positional, argv, w);
      r.Success? ==> r.value == WalkAt(o, positional, argv, r.value.roles) && WordsOk(o, positional, argv, r.value.roles)
    decreases |argv| - |w.roles|
  {
    var k := |w.roles| + 1;
    if k < |argv| && argv[k] == "--" {
      MarkerReads(o, positional, argv, w.roles);
    } else if k < |argv| {
      EntryReads(o, positional, argv, w.roles);
      var read := ReadEntry(o, positional, argv, w);
      if read.Success? { ScanSplits(o, positional, argv, read.value); }
    }
  }

  /** A word that finds no place leaves none for the words after it. */
  lemma KeptWord(o: OptionTable, positional: seq<string>, argv: seq<string>, roles: seq<Role>)
    requires Declared(o) && |roles| + 1 < |argv| && WordsOk(o, positional, argv, roles)
    requires TakerAt(o, positional, argv, roles) == |positional|
    ensures var more := roles + [Kept];
      && WordsOk(o, positional, argv, more) && DefaultsAt(o, argv, more) == DefaultsAt(o, argv, roles)
      && NextAt(o, positional, argv, more) == |positional| == TakerAt(o, positional, argv, more)
  {
    assert (roles + [Kept])[..|roles|] == roles;
    GrowWords(o, positional, argv, roles, Kept);
  }

  lemma {:induction false} KeptWords(o: OptionTable, positional: seq<string>, argv: seq<string>, roles: seq<Role>, n: nat)
    requires Declared(o) && |roles| + n < |argv| && WordsOk(o, positional, argv, roles)
    requires TakerAt(o, positional, argv, roles) == |positional|
    ensures var more := roles + Repeat(n);
      && WordsOk(o, positional, argv, more) && DefaultsAt(o, argv, more) == DefaultsAt(o, argv, roles)
      && TakerAt(o, positional, argv, more) == |positional|
      && (n > 0 ==> NextAt(o, positional, argv, more) == |positional|)
    decreases n
  {
    if n == 0 {
      assert roles + Repeat(0) == roles;
    } else {
      KeptWords(o, positional, argv, roles, n - 1);
      assert roles + Repeat(n) == roles + Repeat(n - 1) + [Kept];
      KeptWord(o, positional, argv, roles + Repeat(n - 1));
    }
  }

  /** A walk past the marker whose words are all where they must be. */
  predicate Tailed(o: OptionTable, positional: seq<string>, argv: seq<string>, ids: set<Id>, w: Walk)
    requires Declared(o) && |w.roles| < |argv|
  {
    && w.next == NextAt(o, positional, argv, w.roles) && WordsOk(o, positional, argv, w.roles)
    && DefaultsAt(o, argv, w.roles) == ids && Marker in w.roles
  }

  /** A word after the marker that found its place. */
  lemma TailWord(o: OptionTable, positional: seq<string>, argv: seq<string>, roles: seq<Role>)
    requires Declared(o) && |roles| + 1 < |argv| && Marker in roles && WordsOk(o, positional, argv, roles)
    requires TakerAt(o, positional, argv, roles) < |positional|
    ensures var w := WalkAt(o, positional, argv, roles);
      var p := Place(o, positional, DefaultsAt(o, argv, roles), w.log, w.next, argv[|roles| + 1]);
      p.Success? ==>
        p.value.target.Some? &&
        var next := Walk(p.value.log, p.value.next, roles + [PlaceRole(p.value)]);
        && next == WalkAt(o, positional, argv, next.roles)
        && Tailed(o, positional, argv, DefaultsAt(o, argv, roles), next)
  {
    WordGoes(o, positional, argv, roles);
    var w := WalkAt(o, positional, argv, roles);
    var p := Place(o, positional, DefaultsAt(o, argv, roles), w.log, w.next, argv[|roles| + 1]);
    if p.Success? {
      var more := roles + [PlaceRole(p.value)];
      assert more[..|more| - 1] == roles;
      MarkerStays(roles, [PlaceRole(p.value)]);
      GrowWords(o, positional, argv, roles, PlaceRole(p.value));
    }
  }

  lemma TailStops(o: OptionTable, positional: seq<string>, argv: seq<string>, ids: set<Id>, w: Walk)
    requires Declared(o) && |w.roles| + 1 < |argv| && w.next <= |positional|
    requires NextTaker(o, positional, ids, w.log, w.next) == |positional|
    ensures Tail(o, positional, argv, ids, w) ==
      Success(Walk(w.log, |positional|, w.roles + Repeat(|argv| - 1 - |w.roles|)))
  {
    PlaceFirst(o, positional, ids, w.log, w.next, argv[|w.roles| + 1], |positional|);
  }

  lemma KeptTail(o: OptionTable, positional: seq<string>, argv: seq<string>, ids: set<Id>, w: Walk)
    requires Declared(o) && |w.roles| + 1 < |argv| && w == WalkAt(o, positional, argv, w.roles)
    requires Tailed(o, positional, argv, ids, w) && TakerAt(o, positional, argv, w.roles) == |positional|
    ensures Tailed(o, positional, argv, ids, Walk(w.log, |positional|, w.roles + Repeat(|argv| - 1 - |w.roles|)))
  {
    KeptWords(o, positional, argv, w.roles, |argv| - 1 - |w.roles|);
    MarkerStays(w.roles, Repeat(|argv| - 1 - |w.roles|));
  }

  lemma {:induction false} TailSplits(o: OptionTable, positional: seq<string>, argv: seq<string>, ids: set<Id>, w: Walk)
    requires Declared(o) && |w.roles| < |argv| && w == WalkAt(o, positional, argv, w.roles)
    requires Tailed(o, positional, argv, ids, w)
    ensures var r := Tail(o, positional, argv, ids, w);
      r.Success? ==> Tailed(o, positional, argv, ids, r.value)
    decreases |argv| - |w.roles|
  {
    var k := |w.roles| + 1;
    if k < |argv| && TakerAt(o, positional, argv, w.roles) == |positional| {
      TailStops(o, positional, argv, ids, w);
      KeptTail(o, positional, argv, ids, w);
    } else if k < |argv| {
      TailWord(o, positional, argv, w.roles);
      var p := Place(o, positional, ids, w.log, w.next, argv[k]);
      if p.Success? {
        TailSplits(o, positional, argv, ids, Walk(p.value.log, p.value.next, w.roles + [PlaceRole(p.value)]));
      }
    }
  }

  lemma FinishSplits(o: OptionTable, positional: seq<string>, argv: seq<string>, w: Walk)
    requires Declared(o) && |w.roles| < |argv| && Scanned(o, argv, w)
    requires w == WalkAt(o, positional, argv, w.roles) && WordsOk(o, positional, argv, w.roles)
    requires !EndsAtMarker(w) ==> |w.roles| == |argv| - 1
    ensures var m := Finish(o, positional, argv, w);
      m.Success? ==>
        && m.value.next == NextAt(o, positional, argv, m.value.roles) && WordsOk(o, positional, argv, m.value.roles)
        && m.value.defaulted == FinalDefaults(o, argv, m.value.roles) && DefaultsParse(o, m.value.defaulted)
  {
    if EndsAtMarker(w) { TailSplits(o, positional, argv, Defaulted(o, w.log), w); }
  }

  lemma ParseSplits(o: OptionTable, positional: seq<string>, argv: seq<string>)
    requires Declared(o) && argv != []
    ensures var m := Meaning(o, positional, argv);
      m.Success? ==> Splits(o, positional, argv, m.value.roles) && m.value == Reading(o, positional, argv, m.value.roles)
  {
    ParseSound(o, positional, argv);
    var start := Walk([], 0, []);
    assert start == WalkAt(o, positional, argv, []);
    ScanSound(o, positional, argv, start);
    ScanSplits(o, positional, argv, start);
    var w := Scan(o, positional, argv, start);
    if w.Success? { FinishSplits(o, positional, argv, w.value); }
  }

  // ---- every split is the parse

  predicate IsWord(role: Role) {
    role.Positional? || role == Kept
  }

  /** The next word of a split is placed as the split says. */
  lemma WordFollows(o: OptionTable, positional: seq<string>, argv: seq<string>, roles: seq<Role>, k: nat)
    requires Declared(o) && Fits(o, positional, argv, roles) && k < |roles| && IsWord(roles[k])
    ensures var w := WalkAt(o, positional, argv, roles[..k]);
      var p := Place(o, positional, DefaultsAt(o, argv, roles[..k]), w.log, w.next, argv[k + 1]);
      && p.Success? && PlaceRole(p.value) == roles[k]
      && Walk(p.value.log, p.value.next, roles[..k] + [roles[k]]) == WalkAt(o, positional, argv, roles[..k + 1])
  {
    assert LastOk(o, positional, argv, roles[..k + 1]);
    assert roles[..k + 1][..k] == roles[..k] && roles[..k + 1] == roles[..k] + [roles[k]];
    WordGoes(o, positional, argv, roles[..k]);
  }

  /** Before the marker an entry tells its own role, unless an option waits for it. */
  lemma RoleTold(o: OptionTable, argv: seq<string>, roles: seq<Role>, k: nat)
    requires Declared(o) && RolesOk(o, argv, roles) && k < |roles|
    requires Marker !in roles[..k] && !Pending(o, argv, roles, k + 1)
    ensures argv[k + 1] == "--" <==> roles[k] == Marker
    ensures argv[k + 1] != "--" && Classify(argv[k + 1]) == NotFlag <==> IsWord(roles[k])
    ensures Classify(argv[k + 1]) != NotFlag <==> roles[k] == Flagged
    ensures roles[k] == Flagged ==> FlagOk(o, argv[k + 1], After(argv, k + 1))
  {
    assert RoleOk(o, argv, roles, k + 1);
  }

  lemma WordsPrefix(o: OptionTable, positional: seq<string>, argv: seq<string>, roles: seq<Role>, k: nat)
    requires Declared(o) && |roles| < |argv| && WordsOk(o, positional, argv, roles) && k <= |roles|
    ensures WordsOk(o, positional, argv, roles[..k])
  {
    forall n | 0 < n <= k
      ensures LastOk(o, positional, argv, roles[..k][..n])
    {
      assert roles[..k][..n] == roles[..n];
    }
  }

  /** An option of a split is followed by its value exactly if it wants one. */
  lemma FlagShape(o: OptionTable, argv: seq<string>, roles: seq<Role>, k: nat)
    requires Declared(o) && |roles| + 1 == |argv| && RolesOk(o, argv, roles) && !Pending(o, argv, roles, |argv|)
    requires k < |roles| && roles[k] == Flagged && Marker !in roles[..k]
    ensures var m := k + |FlagRoles(WantsValue(o, argv[k + 1]))|;
      && m <= |roles| && roles[..m] == roles[..k] + FlagRoles(WantsValue(o, argv[k + 1]))
      && Marker !in roles[..m] && !Pending(o, argv, roles, m + 1)
  {
    if WantsValue(o, argv[k + 1]) {
      assert Pending(o, argv, roles, k + 2);
      assert RoleOk(o, argv, roles, k + 2);
      assert roles[..k + 2] == roles[..k] + [Flagged, FlagValue];
    } else {
      assert roles[..k + 1] == roles[..k] + [Flagged];
    }
  }

  /** An option entry of a split is read with its value, if it takes one. */
  lemma FlagFollows(o: OptionTable, positional: seq<string>, argv: seq<string>, roles: seq<Role>, k: nat)
    requires Declared(o) && Fits(o, positional, argv, roles) && k < |roles| && roles[k] == Flagged
    requires Marker !in roles[..k] && !Pending(o, argv, roles, k + 1)
    ensures var m := k + |FlagRoles(WantsValue(o, argv[k + 1]))|;
      m <= |roles| && ReadEntry(o, positional, argv, WalkAt(o, positional, argv, roles[..k])) ==
        Success(WalkAt(o, positional, argv, roles[..m]))
  {
    RoleTold(o, argv, roles, k);
    WordsPrefix(o, positional, argv, roles, k);
    FlagReads(o, positional, argv, roles[..k]);
    FlagShape(o, argv, roles, k);
  }

  /** The marker of a split ends the scan. */
  lemma MarkerFollows(o: OptionTable, positional: seq<string>, argv: seq<string>, roles: seq<Role>, k: nat)
    requires Declared(o) && Fits(o, positional, argv, roles) && k < |roles| && roles[k] == Marker
    requires argv[k + 1] == "--"
    ensures Scan(o, positional, argv, WalkAt(o, positional, argv, roles[..k])) ==
      Success(WalkAt(o, positional, argv, roles[..k + 1]))
  {
    WordsPrefix(o, positional, argv, roles, k);
    MarkerReads(o, positional, argv, roles[..k]);
    assert roles[..k + 1] == roles[..k] + [Marker];
  }

  /** What scanning is to find from entry `k` on: the split, up to the marker. */
  predicate ScanFinds(o: OptionTable, positional: seq<string>, argv: seq<string>, roles: seq<Role>, r: Result<Walk, Error>)
    requires Declared(o) && |roles| < |argv|
  {
    && r.Success? && |r.value.roles| <= |roles|
    && r.value == WalkAt(o, positional, argv, roles[..|r.value.roles|])
    && (Marker in r.value.roles <==> EndsAtMarker(r.value))
  }

  /** A word of a split before the marker is read as the split says. */
  lemma WordEntry(o: OptionTable, positional: seq<string>, argv: seq<string>, roles: seq<Role>, k: nat)
    requires Declared(o) && Fits(o, positional, argv, roles) && k < |roles| && IsWord(roles[k])
    requires Marker !in roles[..k] && Classify(argv[k + 1]) == NotFlag
    ensures Marker !in roles[..k + 1] && !Pending(o, argv, roles, k + 2)
    ensures ReadEntry(o, positional, argv, WalkAt(o, positional, argv, roles[..k])) ==
      Success(WalkAt(o, positional, argv, roles[..k + 1]))
  {
    NoDefaults(o, argv, roles[..k]);
    WordFollows(o, positional, argv, roles, k);
    assert roles[..k + 1] == roles[..k] + [roles[k]];
  }

  /** An entry of a split that is not the marker is read as the split says. */
  lemma EntryFollows(o: OptionTable, positional: seq<string>, argv: seq<string>, roles: seq<Role>, k: nat) returns (m: nat)
    requires Declared(o) && Fits(o, positional, argv, roles) && k < |roles| && roles[k] != Marker
    requires Marker !in roles[..k] && !Pending(o, argv, roles, k + 1)
    ensures k < m <= |roles| && Marker !in roles[..m] && !Pending(o, argv, roles, m + 1) && argv[k + 1] != "--"
    ensures ReadEntry(o, positional, argv, WalkAt(o, positional, argv, roles[..k])) ==
      Success(WalkAt(o, positional, argv, roles[..m]))
  {
    RoleTold(o, argv, roles, k);
    if IsWord(roles[k]) {
      WordEntry(o, positional, argv, roles, k);
      m := k + 1;
    } else {
      FlagShape(o, argv, roles, k);
      FlagFollows(o, positional, argv, roles, k);
      m := k + |FlagRoles(WantsValue(o, argv[k + 1]))|;
    }
  }

  lemma {:induction false} ScanFollows(o: OptionTable, positional: seq<string>, argv: seq<string>, roles: seq<Role>, k: nat)
    requires Declared(o) && Fits(o, positional, argv, roles) && k <= |roles|
    requires Marker !in roles[..k] && !Pending(o, argv, roles, k + 1)
    ensures ScanFinds(o, positional, argv, roles, Scan(o, positional, argv, WalkAt(o, positional, argv, roles[..k])))
    decreases |roles| - k
  {
    if k < |roles| && roles[k] == Marker {
      RoleTold(o, argv, roles, k);
      MarkerFollows(o, positional, argv, roles, k);
    } else if k < |roles| {
      var m := EntryFollows(o, positional, argv, roles, k);
      ScanFollows(o, positional, argv, roles, m);
    }
  }

  /** Past the marker every entry is a word. */
  lemma PastMarker(o: OptionTable, argv: seq<string>, roles: seq<Role>, i: nat)
    requires Declared(o) && RolesOk(o, argv, roles) && i <= |roles| && Marker in roles[..i]
    ensures !Pending(o, argv, roles, i + 1)
    ensures i < |roles| ==> IsWord(roles[i])
  {
    assert RoleOk(o, argv, roles, i);
    assert roles[..i] == roles[..i - 1] + [roles[i - 1]];
    if i < |roles| { assert RoleOk(o, argv, roles, i + 1); }
  }

  lemma KeptNext(o: OptionTable, positional: seq<string>, argv: seq<string>, roles: seq<Role>, k: nat)
    requires Declared(o) && Fits(o, positional, argv, roles) && 0 < k < |roles| && roles[k - 1] == Kept && Marker in roles[..k]
    ensures roles[k] == Kept
  {
    PastMarker(o, argv, roles, k);
    assert LastOk(o, positional, argv, roles[..k + 1]);
    assert roles[..k + 1][..k] == roles[..k] && roles[..k][k - 1] == Kept;
    assert NextAt(o, positional, argv, roles[..k]) == |positional|;
  }

  /** Once a word past the marker is kept, all are. */
  lemma {:induction false} KeptOn(o: OptionTable, positional: seq<string>, argv: seq<string>, roles: seq<Role>, k: nat, n: nat)
    requires Declared(o) && Fits(o, positional, argv, roles) && k < n <= |roles| && roles[k] == Kept && Marker in roles[..k]
    ensures forall i :: k <= i < n ==> roles[i] == Kept
    decreases n
  {
    if n > k + 1 {
      KeptOn(o, positional, argv, roles, k, n - 1);
      MarkerStays(roles[..k], roles[k..n - 1]);
      assert roles[..k] + roles[k..n - 1] == roles[..n - 1];
      KeptNext(o, positional, argv, roles, n - 1);
    }
  }

  lemma RolesPrefix(o: OptionTable, argv: seq<string>, roles: seq<Role>, k: nat)
    requires Declared(o) && RolesOk(o, argv, roles) && k <= |roles|
    ensures RolesOk(o, argv, roles[..k])
    ensures Pending(o, argv, roles[..k], k + 1) <==> Pending(o, argv, roles, k + 1)
  {
    forall n | 1 <= n <= k
      ensures RoleOk(o, argv, roles[..k], n)
    {
      assert RoleOk(o, argv, roles, n);
      assert roles[..k][..n - 1] == roles[..n - 1];
    }
  }

  /** What follows the first word kept past the marker changes nothing. */
  lemma KeptEvents(o: OptionTable, argv: seq<string>, roles: seq<Role>, k: nat)
    requires Declared(o) && |roles| < |argv| && RolesOk(o, argv, roles) && k < |roles| && Marker in roles[..k]
    requires roles == roles[..k] + Repeat(|roles| - k)
    ensures AllEvents(o, argv, roles) == AllEvents(o, argv, roles[..k])
  {
    PastMarker(o, argv, roles, k);
    RolesPrefix(o, argv, roles, k);
    RestKept(o, argv, roles[..k], AllEvents(o, argv, roles[..k]), |roles| - k);
  }

  lemma KeptShape(o: OptionTable, positional: seq<string>, argv: seq<string>, roles: seq<Role>, k: nat)
    requires Declared(o) && Fits(o, positional, argv, roles) && k < |roles| && roles[k] == Kept && Marker in roles[..k]
    ensures roles == roles[..k] + Repeat(|roles| - k)
  {
    KeptOn(o, positional, argv, roles, k, |roles|);
  }

  lemma NoTaker(o: OptionTable, positional: seq<string>, argv: seq<string>, roles: seq<Role>, k: nat)
    requires Declared(o) && |roles| < |argv| && WordsOk(o, positional, argv, roles) && k < |roles| && roles[k] == Kept
    ensures TakerAt(o, positional, argv, roles[..k]) == |positional|
  {
    assert LastOk(o, positional, argv, roles[..k + 1]);
    assert roles[..k + 1][..k] == roles[..k] && roles[..k + 1][k] == Kept;
  }

  lemma KeptPositions(o: OptionTable, positional: seq<string>, argv: seq<string>, roles: seq<Role>, k: nat)
    requires Declared(o) && Fits(o, positional, argv, roles) && k < |roles| && roles[k] == Kept && Marker in roles[..k]
    ensures NextAt(o, positional, argv, roles) == |positional|
    ensures DefaultsAt(o, argv, roles) == DefaultsAt(o, argv, roles[..k])
  {
    NoTaker(o, positional, argv, roles, k);
    WordsPrefix(o, positional, argv, roles, k);
    KeptShape(o, positional, argv, roles, k);
    KeptWords(o, positional, argv, roles[..k], |roles| - k);
  }

  lemma KeptRest(o: OptionTable, positional: seq<string>, argv: seq<string>, roles: seq<Role>, k: nat)
    requires Declared(o) && Fits(o, positional, argv, roles) && k < |roles| && roles[k] == Kept && Marker in roles[..k]
    ensures WalkAt(o, positional, argv, roles) ==
      Walk(AllEvents(o, argv, roles[..k]), |positional|, roles[..k] + Repeat(|roles| - k))
  {
    KeptShape(o, positional, argv, roles, k);
    KeptEvents(o, argv, roles, k);
    KeptPositions(o, positional, argv, roles, k);
  }

  lemma TailKeeps(o: OptionTable, positional: seq<string>, argv: seq<string>, roles: seq<Role>, k: nat)
    requires Declared(o) && Fits(o, positional, argv, roles) && k < |roles| && roles[k] == Kept && Marker in roles[..k]
    ensures Tail(o, positional, argv, DefaultsAt(o, argv, roles[..k]), WalkAt(o, positional, argv, roles[..k])) ==
      Success(WalkAt(o, positional, argv, roles))
  {
    NoTaker(o, positional, argv, roles, k);
    TailStops(o, positional, argv, DefaultsAt(o, argv, roles[..k]), WalkAt(o, positional, argv, roles[..k]));
    KeptRest(o, positional, argv, roles, k);
  }

  lemma {:induction false} TailFollows(o: OptionTable, positional: seq<string>, argv: seq<string>, roles: seq<Role>, k: nat)
    requires Declared(o) && Fits(o, positional, argv, roles) && k <= |roles| && Marker in roles[..k]
    ensures Tail(o, positional, argv, DefaultsAt(o, argv, roles[..k]), WalkAt(o, positional, argv, roles[..k])) ==
      Success(WalkAt(o, positional, argv, roles))
    ensures DefaultsAt(o, argv, roles) == DefaultsAt(o, argv, roles[..k])
    decreases |roles| - k
  {
    if k == |roles| {
      assert roles[..k] == roles;
    } else {
      PastMarker(o, argv, roles, k);
      if roles[k] == Kept {
        TailKeeps(o, positional, argv, roles, k);
        KeptPositions(o, positional, argv, roles, k);
      } else {
        WordFollows(o, positional, argv, roles, k);
        assert roles[..k + 1] == roles[..k] + [roles[k]] && roles[..k + 1][..k] == roles[..k];
        MarkerStays(roles[..k], [roles[k]]);
        TailFollows(o, positional, argv, roles, k + 1);
      }
    }
  }

  lemma SplitParses(o: OptionTable, positional: seq<string>, argv: seq<string>, roles: seq<Role>)
    requires Declared(o) && Splits(o, positional, argv, roles)
    ensures Meaning(o, positional, argv) == Success(Reading(o, positional, argv, roles))
  {
    var start := Walk([], 0, []);
    assert roles[..0] == [] && start == WalkAt(o, positional, argv, roles[..0]);
    ScanFollows(o, positional, argv, roles, 0);
    var m := |Scan(o, positional, argv, start).value.roles|;
    if Marker in roles[..m] {
      TailFollows(o, positional, argv, roles, m);
      MarkerStays(roles[..m], roles[m..]);
      assert roles == roles[..m] + roles[m..];
    } else {
      assert roles[..m] == roles;
    }
  }

  /**
   A vector means `p` exactly if the roles of `p` split it, each word going where it must, and `p`
   says what that split says.
   */
  lemma MeaningExact(o: OptionTable, positional: seq<string>, argv: seq<string>, p: Parse)
    requires Declared(o) && argv != []
    ensures Meaning(o, positional, argv) == Success(p) <==>
      Splits(o, positional, argv, p.roles) && p == Reading(o, positional, argv, p.roles)
  {
    ParseSplits(o, positional, argv);
    if Splits(o, positional, argv, p.roles) { SplitParses(o, positional, argv, p.roles); }
  }

  /** No two splits of a vector differ anywhere, and there is none exactly if the vector is refused. */
  lemma SplitUnique(o: OptionTable, positional: seq<string>, argv: seq<string>)
    requires Declared(o) && argv != []
    ensures forall a, b :: Splits(o, positional, argv, a) && Splits(o, positional, argv, b) ==> a == b
    ensures Meaning(o, positional, argv).Failure? <==> !exists a :: Splits(o, positional, argv, a)
  {
    ParseSplits(o, positional, argv);
    forall a | Splits(o, positional, argv, a)
      ensures Meaning(o, positional, argv) == Success(Reading(o, positional, argv, a))
    {
      SplitParses(o, positional, argv, a);
    }
  }
}
