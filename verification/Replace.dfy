/** Textual substitution by searching from the start again and again. */
module Replace {
  import opened Sequences
  import opened Wrappers

  predicate Occurs(s: string, from: string, i: nat) {
    i + |from| <= |s| && s[i..i + |from|] == from
  }

  /** The first occurrence at or after `i`. */
  function FindAt(s: string, from: string, i: nat): (r: Option<nat>)
    requires i <= |s| + 1
    ensures r.Some? ==> i <= r.value && Occurs(s, from, r.value)
    ensures r.Some? ==> forall j :: i <= j < r.value ==> !Occurs(s, from, j)
    ensures r.None? ==> forall j: nat :: i <= j ==> !Occurs(s, from, j)
    decreases |s| + 1 - i
  {
    if i == |s| + 1 then None
    else if Occurs(s, from, i) then Some(i)
    else FindAt(s, from, i + 1)
  }

  function Find(s: string, from: string): (r: Option<nat>)
    ensures r.Some? ==> Occurs(s, from, r.value) && forall j :: 0 <= j < r.value ==> !Occurs(s, from, j)
    ensures r.None? ==> forall j: nat :: !Occurs(s, from, j)
  {
    FindAt(s, from, 0)
  }

  ghost predicate Disjoint(a: string, b: string) {
    forall i, j :: 0 <= i < |a| && 0 <= j < |b| ==> a[i] != b[j]
  }

  /** How many characters of `s` are drawn from `from`. */
  function Drawn(s: string, from: string): nat {
    if s == "" then 0 else Drawn(s[1..], from) + if s[0] in from then 1 else 0
  }

  lemma {:induction false} DrawnConcat(a: string, b: string, from: string)
    ensures Drawn(a + b, from) == Drawn(a, from) + Drawn(b, from)
  {
    if a == "" {
      assert a + b == b;
    } else {
      assert (a + b)[1..] == a[1..] + b;
      DrawnConcat(a[1..], b, from);
    }
  }

  lemma {:induction false} DrawnAll(a: string, from: string)
    ensures (forall i :: 0 <= i < |a| ==> a[i] in from) ==> Drawn(a, from) == |a|
    ensures (forall i :: 0 <= i < |a| ==> a[i] !in from) ==> Drawn(a, from) == 0
  {
    if a != "" {
      DrawnAll(a[1..], from);
    }
  }

  function Splice(s: string, i: nat, from: string, to: string): string
    requires Occurs(s, from, i)
  {
    s[..i] + to + s[i + |from|..]
  }

  lemma SpliceDraws(s: string, i: nat, from: string, to: string)
    requires Occurs(s, from, i) && from != "" && Disjoint(from, to)
    ensures Drawn(Splice(s, i, from, to), from) < Drawn(s, from)
  {
    var rest := s[i + |from|..];
    assert s == s[..i] + (from + rest);
    DrawnConcat(s[..i], from + rest, from);
    DrawnConcat(from, rest, from);
    assert Splice(s, i, from, to) == s[..i] + (to + rest);
    DrawnConcat(s[..i], to + rest, from);
    DrawnConcat(to, rest, from);
    DrawnAll(from, from);
    DrawnAll(to, from);
  }

  /** Replacing the first occurrence until there is none. */
  function Replaced(s: string, from: string, to: string): (r: string)
    requires from != "" && Disjoint(from, to)
    ensures forall j: nat :: !Occurs(r, from, j)
    decreases Drawn(s, from)
  {
    match Find(s, from)
    case None => s
    case Some(i) =>
      SpliceDraws(s, i, from, to);
      Replaced(Splice(s, i, from, to), from, to)
  }

  /** The text after `n` replacements, or fewer if no occurrence is left. */
  function Nth(s: string, from: string, to: string, n: nat): string
    decreases n
  {
    match Find(s, from)
    case None => s
    case Some(i) => if n == 0 then s else Nth(Splice(s, i, from, to), from, to, n - 1)
  }

  /** After some number of replacements no occurrence is left. */
  ghost predicate Ends(s: string, from: string, to: string) {
    exists n: nat :: Find(Nth(s, from, to, n), from) == None
  }

  /** Texts that share no character always end, and in `Replaced`. */
  lemma {:induction false} DisjointEnds(s: string, from: string, to: string)
    requires from != "" && Disjoint(from, to)
    ensures Ends(s, from, to)
    decreases Drawn(s, from)
  {
    match Find(s, from) {
      case None => assert Find(Nth(s, from, to, 0), from) == None;
      case Some(i) =>
        SpliceDraws(s, i, from, to);
        DisjointEnds(Splice(s, i, from, to), from, to);
        var n: nat :| Find(Nth(Splice(s, i, from, to), from, to, n), from) == None;
        assert Nth(s, from, to, n + 1) == Nth(Splice(s, i, from, to), from, to, n);
    }
  }

  lemma {:induction false} NthReplaced(s: string, from: string, to: string, n: nat)
    requires from != "" && Disjoint(from, to) && Find(Nth(s, from, to, n), from) == None
    ensures Nth(s, from, to, n) == Replaced(s, from, to)
    decreases n
  {
    var found := Find(s, from);
    if found.Some? && n > 0 {
      NthReplaced(Splice(s, found.value, from, to), from, to, n - 1);
    }
  }

  lemma SplicedOccurs(s: string, i: nat, from: string, to: string, at: nat)
    requires Occurs(s, from, i) && Occurs(to, from, at)
    ensures Find(Splice(s, i, from, to), from).Some?
  {
    var t := Splice(s, i, from, to);
    assert t[i + at..i + at + |from|] == to[at..at + |from|];
    assert Occurs(t, from, i + at);
  }

  /** If the replacement contains the text replaced, as every text contains the empty one, an occurrence stays. */
  lemma {:induction false} OccurrenceStays(s: string, from: string, to: string, at: nat, n: nat)
    requires Occurs(to, from, at) && Find(s, from).Some?
    ensures Find(Nth(s, from, to, n), from).Some?
    decreases n
  {
    if n > 0 {
      var i := Find(s, from).value;
      SplicedOccurs(s, i, from, to, at);
      OccurrenceStays(Splice(s, i, from, to), from, to, at, n - 1);
    }
  }

  /** Then the loop ends exactly if there is nothing to replace. */
  lemma EndsOnlyIfAbsent(s: string, from: string, to: string, at: nat)
    requires Occurs(to, from, at)
    ensures Ends(s, from, to) <==> Find(s, from) == None
  {
    if Find(s, from).Some? {
      forall n: nat
        ensures Find(Nth(s, from, to, n), from) != None
      {
        OccurrenceStays(s, from, to, at, n);
      }
    } else {
      assert Find(Nth(s, from, to, 0), from) == None;
    }
  }

  /** The text after as many replacements as there can be. */
  method ReplaceAll(input: string, from: string, to: string) returns (s: string)
    requires Ends(input, from, to)
    ensures forall j: nat :: !Occurs(s, from, j)
    ensures exists n: nat :: s == Nth(input, from, to, n)
    ensures from != "" && Disjoint(from, to) ==> s == Replaced(input, from, to)
  {
    s := input;
    ghost var all: nat :| Find(Nth(input, from, to, all), from) == None;
    ghost var left := all;
    var found := Find(s, from);
    while found.Some?
      invariant found == Find(s, from)
      invariant Nth(s, from, to, left) == Nth(input, from, to, all)
      decreases left
    {
      s := Splice(s, found.value, from, to);
      left := left - 1;
      found := Find(s, from);
    }
    if from != "" && Disjoint(from, to) { NthReplaced(input, from, to, all); }
  }

  /** One pass from left to right that never looks at replaced text again. */
  function Simultaneous(s: string, from: string, to: string): string
    requires from != ""
  {
    if s == "" then ""
    else if Occurs(s, from, 0) then to + Simultaneous(s[|from|..], from, to)
    else [s[0]] + Simultaneous(s[1..], from, to)
  }

  lemma OccursLater(s: string, from: string, j: nat)
    requires s != ""
    ensures Occurs(s[1..], from, j) <==> Occurs(s, from, j + 1)
  {
    if j + 1 + |from| <= |s| { assert s[1..][j..j + |from|] == s[j + 1..j + 1 + |from|]; }
  }

  lemma {:induction false} SkipClean(a: string, r: string, from: string, to: string)
    requires from != "" && forall j :: 0 <= j < |a| ==> !Occurs(a + r, from, j)
    ensures Simultaneous(a + r, from, to) == a + Simultaneous(r, from, to)
  {
    if a == "" {
      assert a + r == r;
    } else {
      var s := a + r;
      assert s[1..] == a[1..] + r;
      forall j | 0 <= j < |a[1..]|
        ensures !Occurs(a[1..] + r, from, j)
      {
        OccursLater(s, from, j);
      }
      SkipClean(a[1..], r, from, to);
      assert [a[0]] + (a[1..] + Simultaneous(r, from, to)) == a + Simultaneous(r, from, to);
    }
  }

  /** The pass up to and over the first occurrence. */
  lemma SimultaneousFirst(s: string, i: nat, from: string, to: string)
    requires from != "" && Occurs(s, from, i) && forall j :: 0 <= j < i ==> !Occurs(s, from, j)
    ensures Simultaneous(s, from, to) == s[..i] + to + Simultaneous(s[i + |from|..], from, to)
  {
    assert s == s[..i] + s[i..];
    SkipClean(s[..i], s[i..], from, to);
    assert Occurs(s[i..], from, 0);
    assert s[i..][|from|..] == s[i + |from|..];
    Associate(s[..i], to, Simultaneous(s[i + |from|..], from, to));
  }

  lemma SimultaneousNone(s: string, from: string, to: string)
    requires from != "" && forall j: nat :: !Occurs(s, from, j)
    ensures Simultaneous(s, from, to) == s
  {
    assert s + "" == s;
    SkipClean(s, "", from, to);
  }

  /** Text that was put in cannot take part in another occurrence. */
  lemma SpliceClean(s: string, i: nat, from: string, to: string, j: nat)
    requires from != "" && to != "" && Disjoint(from, to)
    requires Occurs(s, from, i) && forall j :: 0 <= j < i ==> !Occurs(s, from, j)
    requires j < i + |to|
    ensures !Occurs(Splice(s, i, from, to), from, j)
  {
    var t, n := Splice(s, i, from, to), |from|;
    if j + n <= |t| {
      var window := t[j..j + n];
      if j + n <= i {
        assert window == s[j..j + n];
        assert !Occurs(s, from, j);
      } else if j < i {
        assert window[i - j] == to[0] != from[i - j];
      } else {
        assert window[0] == to[j - i];
      }
    }
  }

  /** With a nonempty replacement, replacing one by one is one simultaneous replacement. */
  lemma {:induction false} ReplacedIsSimultaneous(s: string, from: string, to: string)
    requires from != "" && to != "" && Disjoint(from, to)
    ensures Replaced(s, from, to) == Simultaneous(s, from, to)
    decreases Drawn(s, from)
  {
    match Find(s, from) {
      case None => SimultaneousNone(s, from, to);
      case Some(i) =>
        var t, rest := Splice(s, i, from, to), s[i + |from|..];
        SpliceDraws(s, i, from, to);
        ReplacedIsSimultaneous(t, from, to);
        forall j: nat | j < i + |to|
          ensures !Occurs(t, from, j)
        {
          SpliceClean(s, i, from, to, j);
        }
        assert t == (s[..i] + to) + rest;
        SkipClean(s[..i] + to, rest, from, to);
        SimultaneousFirst(s, i, from, to);
    }
  }

  ghost predicate Constant(from: string) {
    forall i :: 0 <= i < |from| ==> from[i] == from[0]
  }

  /** Deleting a run of one character never brings two pieces of another run together. */
  lemma {:induction false} ConstantIsSimultaneous(s: string, from: string)
    requires from != "" && Constant(from)
    ensures Replaced(s, from, "") == Simultaneous(s, from, "")
    decreases Drawn(s, from)
  {
    match Find(s, from) {
      case None => SimultaneousNone(s, from, "");
      case Some(i) =>
        SpliceDraws(s, i, from, "");
        ConstantIsSimultaneous(Splice(s, i, from, ""), from);
        ConstantPass(s, i, from);
    }
  }

  /** The character before the first occurrence of a run is another one. */
  lemma BeforeRun(s: string, i: nat, from: string)
    requires from != "" && Constant(from)
    requires Occurs(s, from, i) && forall j :: 0 <= j < i ==> !Occurs(s, from, j)
    ensures i > 0 ==> s[i - 1] != from[0]
  {
    if i > 0 {
      var n := |from|;
      var window := s[i - 1..i - 1 + n];
      assert !Occurs(s, from, i - 1);
      forall x | 1 <= x < n
        ensures window[x] == from[x]
      {
        assert window[x] == s[i..i + n][x - 1];
      }
      assert s[i - 1] == from[0] ==> window == from;
    }
  }

  lemma ConstantClean(s: string, i: nat, from: string, j: nat)
    requires from != "" && Constant(from)
    requires Occurs(s, from, i) && forall j :: 0 <= j < i ==> !Occurs(s, from, j)
    requires j < i
    ensures !Occurs(Splice(s, i, from, ""), from, j)
  {
    var t, n := Splice(s, i, from, ""), |from|;
    BeforeRun(s, i, from);
    if j + n <= i && j + n <= |t| {
      assert t[j..j + n] == s[j..j + n];
      assert !Occurs(s, from, j);
    } else if j + n <= |t| {
      assert t[j..j + n][i - 1 - j] == s[i - 1];
      assert from[i - 1 - j] == from[0];
    }
  }

  /** One deletion does not change what the pass yields. */
  lemma ConstantPass(s: string, i: nat, from: string)
    requires from != "" && Constant(from)
    requires Occurs(s, from, i) && forall j :: 0 <= j < i ==> !Occurs(s, from, j)
    ensures Simultaneous(Splice(s, i, from, ""), from, "") == Simultaneous(s, from, "")
  {
    var t, rest := Splice(s, i, from, ""), s[i + |from|..];
    assert t == s[..i] + rest;
    forall j: nat | j < i
      ensures !Occurs(t, from, j)
    {
      ConstantClean(s, i, from, j);
    }
    SkipClean(s[..i], rest, from, "");
    SimultaneousFirst(s, i, from, "");
    assert s[..i] + "" == s[..i];
  }

  /** The length of the leading run of one character. */
  function Run(from: string): (k: nat)
    requires from != "" && !Constant(from)
    ensures 0 < k < |from| && from[k] != from[0] && forall i :: 0 <= i < k ==> from[i] == from[0]
  {
    RunFrom(from, 1)
  }

  function RunFrom(from: string, k: nat): (r: nat)
    requires 0 < k <= |from| && !Constant(from) && forall i :: 0 <= i < k ==> from[i] == from[0]
    ensures 0 < r < |from| && from[r] != from[0] && forall i :: 0 <= i < r ==> from[i] == from[0]
    decreases |from| - k
  {
    if from[k] != from[0] then k else RunFrom(from, k + 1)
  }

  /** An occurrence wrapped in the two halves of another. */
  function Wrapped(from: string, k: nat): string
    requires k <= |from|
  {
    from[..k] + from + from[k..]
  }

  lemma WrappedFirst(from: string, k: nat)
    requires from != "" && !Constant(from) && k == Run(from)
    ensures Occurs(Wrapped(from, k), from, k)
    ensures forall j :: 0 <= j < k ==> !Occurs(Wrapped(from, k), from, j)
  {
    var s, n := Wrapped(from, k), |from|;
    assert s[k..k + n] == from;
    forall j | 0 <= j < k
      ensures !Occurs(s, from, j)
    {
      assert s[j + k] == from[0];
      assert s[j..j + n][k] == s[j + k];
    }
  }

  /** Deleting can bring the two halves of another occurrence together. */
  lemma DeletionDiffers(from: string)
    requires from != "" && !Constant(from)
    ensures exists s :: Replaced(s, from, "") != Simultaneous(s, from, "")
  {
    WrappedPass(from, Run(from));
    assert Occurs(from, from, 0);
    assert !Occurs(Replaced(Wrapped(from, Run(from)), from, ""), from, 0);
  }

  lemma WrappedPass(from: string, k: nat)
    requires from != "" && !Constant(from) && k == Run(from)
    ensures Simultaneous(Wrapped(from, k), from, "") == from
  {
    var s, rest := Wrapped(from, k), from[k..];
    WrappedFirst(from, k);
    SimultaneousFirst(s, k, from, "");
    assert s[k + |from|..] == rest;
    SimultaneousNone(rest, from, "");
    assert s[..k] + "" == from[..k];
    assert from[..k] + rest == from;
  }

  /** Replacing one by one agrees with one simultaneous pass on every input exactly under this condition. */
  lemma ReplaceExact(from: string, to: string)
    requires from != "" && Disjoint(from, to)
    ensures (forall s :: Replaced(s, from, to) == Simultaneous(s, from, to)) <==> (to != "" || Constant(from))
  {
    if to == "" && !Constant(from) {
      DeletionDiffers(from);
    } else {
      forall s
        ensures Replaced(s, from, to) == Simultaneous(s, from, to)
      {
        if to != "" { ReplacedIsSimultaneous(s, from, to); } else { ConstantIsSimultaneous(s, from); }
      }
    }
  }
}
