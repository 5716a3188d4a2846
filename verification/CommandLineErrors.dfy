/** What the parser complains of: the first entry it cannot read, and why it cannot. */
module CommandLineErrors {
  import opened CommandLine
  import opened CommandLineRoles
  import opened Wrappers

  /** Letter `k` stops the cluster: those before it have been given, and it cannot be. */
  predicate Stops(o: OptionTable, letters: string, after: Option<string>, i: nat, k: nat)
    requires Declared(o)
  {
    && i <= k < |letters| && !Settles(o, [letters[k]], SeenBy(letters, k, after))
    && forall j :: i <= j < k ==> Settles(o, [letters[j]], SeenBy(letters, j, after))
  }

  /** The complaint about a cluster is about the first letter that stops it. */
  lemma {:induction false} ClusterError(o: OptionTable, after: Option<string>, letters: string, i: nat, log: seq<Event>, k: nat)
    requires Declared(o) && Stops(o, letters, after, i, k)
    ensures var name := [letters[k]];
      Cluster(o, after, letters, i, log) == Failure(
        if name !in o.names then OptionNotExists(name)
        else if o.details[o.names[name]].implicit.Some? then IncorrectType(o.details[o.names[name]].implicit.value)
        else if k + 1 < |letters| then RequiresArgument(name)
        else if after.None? then MissingArgument(name)
        else IncorrectType(after.value))
    decreases k - i
  {
    if i < k {
      var name := [letters[i]];
      assert Settles(o, name, SeenBy(letters, i, after));
      var given := Give(o, log, o.names[name], o.details[o.names[name]].implicit.value);
      ClusterError(o, after, letters, i + 1, given.value, k);
    }
  }

  /** The complaint about a long option. */
  lemma LongError(o: OptionTable, arg: string, name: string, value: Option<string>, after: Option<string>, log: seq<Event>)
    requires Declared(o) && Classify(arg) == Long(name, value) && TakeFlag(o, arg, after, log).Failure?
    ensures TakeFlag(o, arg, after, log) == Failure(
      if name !in o.names then OptionNotExists(name)
      else if value.Some? then IncorrectType(value.value)
      else if o.details[o.names[name]].implicit.Some? then IncorrectType(o.details[o.names[name]].implicit.value)
      else if after.None? then MissingArgument(name)
      else IncorrectType(after.value))
  {
  }

  /** A word is refused only because the option it goes to cannot read it. */
  lemma {:induction false} WordError(o: OptionTable, positional: seq<string>, defaulted: set<Id>, log: seq<Event>,
                                     next: nat, word: string)
    requires Declared(o) && Place(o, positional, defaulted, log, next, word).Failure?
    ensures Place(o, positional, defaulted, log, next, word) == Failure(IncorrectType(word))
    decreases |positional| - next
  {
    if next < |positional| && !Takes(o, defaulted, log, positional[next]) {
      WordError(o, positional, defaulted, log, next + 1, word);
    }
  }

  /** The vector's complaint is the first one: about an entry before the marker, then about a default, then about what follows. */
  lemma FirstError(o: OptionTable, positional: seq<string>, argv: seq<string>)
    requires Declared(o) && argv != []
    ensures var w, m := Scan(o, positional, argv, Walk([], 0, [])), Meaning(o, positional, argv);
      && (w.Failure? ==> m == Failure(w.error))
      && (w.Success? && !DefaultsParse(o, Defaulted(o, w.value.log)) ==> m == Failure(BadDefault))
      && (w.Success? && DefaultsParse(o, Defaulted(o, w.value.log)) && m.Failure? ==>
            EndsAtMarker(w.value) && m.error.IncorrectType?)
  {
    var w := Scan(o, positional, argv, Walk([], 0, []));
    if w.Success? { TailError(o, positional, argv, Defaulted(o, w.value.log), w.value); }
  }

  lemma {:induction false} TailError(o: OptionTable, positional: seq<string>, argv: seq<string>, defaulted: set<Id>, w: Walk)
    requires Declared(o) && |w.roles| < |argv|
    ensures var t := Tail(o, positional, argv, defaulted, w); t.Failure? ==> t.error.IncorrectType?
    decreases |argv| - |w.roles|
  {
    var cur := 1 + |w.roles|;
    if cur < |argv| {
      var p := Place(o, positional, defaulted, w.log, w.next, argv[cur]);
      if p.Failure? {
        WordError(o, positional, defaulted, w.log, w.next, argv[cur]);
      } else if p.value.target.Some? {
        TailError(o, positional, argv, defaulted, Walk(p.value.log, p.value.next, w.roles + [PlaceRole(p.value)]));
      }
    }
  }

  /** Reading stops at the first entry that cannot be read, with that entry's complaint. */
  lemma {:induction false} ScanStops(o: OptionTable, positional: seq<string>, argv: seq<string>, w: Walk) returns (at: Walk)
    requires Declared(o) && |w.roles| < |argv| && Scan(o, positional, argv, w).Failure?
    ensures |w.roles| <= |at.roles| && |at.roles| + 1 < |argv| && argv[|at.roles| + 1] != "--"
    ensures w.roles <= at.roles && Scan(o, positional, argv, at) == Scan(o, positional, argv, w)
    ensures var r := ReadEntry(o, positional, argv, at);
      r.Failure? && Scan(o, positional, argv, w) == Failure(r.error)
    decreases |argv| - |w.roles|
  {
    var r := ReadEntry(o, positional, argv, w);
    if r.Failure? {
      at := w;
    } else {
      at := ScanStops(o, positional, argv, r.value);
    }
  }
}
