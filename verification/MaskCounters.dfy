/** The mask counters of an RFI chain, and the map their measurements are found in. */
module MaskCounters {
  import Replace
  import opened Wrappers

  /** A mask counter; `ringbuf` names its ring buffer of measurements, if it has one. */
  datatype Counter = Counter(where: string, ringbuf: Option<nat>)

  /** One object of the chain, in the order the pipeline is visited. */
  datatype Stage = Stage(className: string, counter: Option<Counter>)

  datatype Error = NoMaskCounters | ClippersAfterCounters | EmptyRingbuf

  /** What a counter is told before it runs; `fillsChunks` is the stream whose chunks get its masks. */
  datatype RuntimeAttrs = RuntimeAttrs(history: int, beamId: int, fillsChunks: bool)

  type Key = (int, string)

  class MaskStatsMap {
    var entries: map<Key, nat>

    constructor ()
      ensures entries == map[]
    {
      entries := map[];
    }

    method Put(beamId: int, where: string, ringbuf: Option<nat>) returns (r: Result<(), Error>)
      modifies this
      ensures ringbuf.None? ==> r == Failure(EmptyRingbuf) && entries == old(entries)
      ensures ringbuf.Some? ==> r == Success(()) && entries == old(entries)[(beamId, where) := ringbuf.value]
    {
      if ringbuf.None? {
        return Failure(EmptyRingbuf);
      }
      entries := entries[(beamId, where) := ringbuf.value];
      r := Success(());
    }
  }

  predicate IsClipper(s: Stage) {
    Replace.Find(s.className, "clipper").Some?
  }

  /** A class name that contains the word, anywhere, is a clipper's. */
  lemma ClipperExact(s: Stage)
    ensures IsClipper(s) <==> exists before, after :: s.className == before + "clipper" + after
  {
    if IsClipper(s) {
      var i := Replace.Find(s.className, "clipper").value;
      assert s.className[i..i + 7] == "clipper";
      assert s.className == s.className[..i] + "clipper" + s.className[i + 7..];
    }
    if before, after :| s.className == before + "clipper" + after {
      assert s.className[|before|..|before| + 7] == "clipper";
      assert Replace.Occurs(s.className, "clipper", |before|);
    }
  }

  /** A stage that counts is one that is not taken for a clipper. */
  predicate IsCounter(s: Stage) {
    !IsClipper(s) && s.counter.Some?
  }

  /** A stage whose class name contains the word is no counter, whatever else it is. */
  lemma CounterExact(s: Stage)
    ensures IsCounter(s) <==> s.counter.Some? && forall before, after :: s.className != before + "clipper" + after
  {
    ClipperExact(s);
  }

  function Counters(stages: seq<Stage>): seq<Counter> {
    if stages == [] then []
    else
      var before, s := Counters(stages[..|stages| - 1]), stages[|stages| - 1];
      if IsCounter(s) then before + [s.counter.value] else before
  }

  /** `places` are, in ascending order, all the stages that count, and `counters` are their counters. */
  ghost predicate FoundAt(stages: seq<Stage>, counters: seq<Counter>, places: seq<nat>) {
    && |places| == |counters|
    && (forall k :: 0 <= k < |places| ==>
          places[k] < |stages| && IsCounter(stages[places[k]]) && stages[places[k]].counter == Some(counters[k]))
    && (forall k, m :: 0 <= k < m < |places| ==> places[k] < places[m])
    && forall i :: 0 <= i < |stages| && IsCounter(stages[i]) ==> i in places
  }

  lemma FoundNext(stages: seq<Stage>, counters: seq<Counter>, places: seq<nat>, s: Stage)
    requires FoundAt(stages, counters, places)
    ensures IsCounter(s) ==> FoundAt(stages + [s], counters + [s.counter.value], places + [|stages|])
    ensures !IsCounter(s) ==> FoundAt(stages + [s], counters, places)
  {
    assert (places + [|stages|])[|places|] == |stages|;
    assert forall i :: i in places ==> i in places + [|stages|];
  }

  /** The counters come in the order of the chain, and none is passed over. */
  lemma {:induction false} CountersInOrder(stages: seq<Stage>) returns (places: seq<nat>)
    ensures FoundAt(stages, Counters(stages), places)
  {
    places := [];
    if stages != [] {
      var n := |stages| - 1;
      places := CountersInOrder(stages[..n]);
      FoundNext(stages[..n], Counters(stages[..n]), places, stages[n]);
      assert stages[..n] + [stages[n]] == stages;
      if IsCounter(stages[n]) { places := places + [n]; }
    }
  }

  /** Among the first `n` stages, `k` is the last counter. */
  predicate LastCounter(stages: seq<Stage>, n: nat, k: nat) {
    k < n <= |stages| && IsCounter(stages[k]) && forall j :: k < j < n ==> !IsCounter(stages[j])
  }

  predicate ClipperAfter(stages: seq<Stage>, n: nat, k: nat) {
    exists j :: k < j < n <= |stages| && IsClipper(stages[j])
  }

  /** Stage `k` is the last counter, and no clipper comes after it. */
  predicate EndsWithCounter(stages: seq<Stage>, k: nat) {
    LastCounter(stages, |stages|, k) && !ClipperAfter(stages, |stages|, k)
  }

  lemma LastStep(stages: seq<Stage>, n: nat, k: nat)
    requires n < |stages| && LastCounter(stages, n, k) && !IsCounter(stages[n])
    ensures LastCounter(stages, n + 1, k)
    ensures ClipperAfter(stages, n + 1, k) <==> ClipperAfter(stages, n, k) || IsClipper(stages[n])
  {
    if ClipperAfter(stages, n, k) {
      var j :| k < j < n && IsClipper(stages[j]);
      assert IsClipper(stages[j]) && j < n + 1;
    }
  }

  lemma LastIsUnique(stages: seq<Stage>, a: nat, b: nat)
    requires LastCounter(stages, |stages|, a) && LastCounter(stages, |stages|, b)
    ensures a == b
  {}

  lemma Verdict(stages: seq<Stage>, last: nat)
    requires LastCounter(stages, |stages|, last)
    ensures CountsFinalMask(stages) <==> !ClipperAfter(stages, |stages|, last)
  {
    forall k: nat | EndsWithCounter(stages, k)
      ensures k == last
    {
      LastIsUnique(stages, k, last);
    }
    assert EndsWithCounter(stages, last) <==> !ClipperAfter(stages, |stages|, last);
  }

  lemma CountersGrow(stages: seq<Stage>, i: nat)
    requires i < |stages|
    ensures Counters(stages[..i + 1])
         == if IsCounter(stages[i]) then Counters(stages[..i]) + [stages[i].counter.value] else Counters(stages[..i])
  {
    assert stages[..i + 1][..i] == stages[..i];
  }

  /** Every clipper has done its work by the time the last counter counts. */
  ghost predicate CountsFinalMask(stages: seq<Stage>) {
    exists k: nat :: EndsWithCounter(stages, k)
  }

  /** The map after the first counters up to the first without a ring buffer. */
  function PutAll(entries: map<Key, nat>, beamId: int, counters: seq<Counter>): map<Key, nat> {
    if counters == [] then entries
    else
      var before, c := PutAll(entries, beamId, counters[..|counters| - 1]), counters[|counters| - 1];
      if AllHaveRingbufs(counters) then before[(beamId, c.where) := c.ringbuf.value] else before
  }

  predicate AllHaveRingbufs(counters: seq<Counter>) {
    forall i :: 0 <= i < |counters| ==> counters[i].ringbuf.Some?
  }

  /** What is known of a chain when its first `i` stages have been visited. */
  predicate Visited(stages: seq<Stage>, i: nat, counters: seq<Counter>, last: nat, clippersAfter: bool) {
    && i <= |stages| && counters == Counters(stages[..i])
    && (counters == [] ==> !clippersAfter && forall k :: 0 <= k < i ==> !IsCounter(stages[k]))
    && (counters != [] ==> LastCounter(stages, i, last) && clippersAfter == ClipperAfter(stages, i, last))
  }

  lemma VisitStep(stages: seq<Stage>, i: nat, counters: seq<Counter>, last: nat, clippersAfter: bool)
    requires i < |stages| && Visited(stages, i, counters, last, clippersAfter)
    ensures IsClipper(stages[i]) ==> Visited(stages, i + 1, counters, last, clippersAfter || counters != [])
    ensures IsCounter(stages[i]) ==> Visited(stages, i + 1, counters + [stages[i].counter.value], i, false)
    ensures !IsClipper(stages[i]) && !IsCounter(stages[i]) ==> Visited(stages, i + 1, counters, last, clippersAfter)
  {
    CountersGrow(stages, i);
    if counters != [] && !IsCounter(stages[i]) { LastStep(stages, i, last); }
  }

  /** The walk over the chain. */
  method FindMaskCounters(stages: seq<Stage>) returns (counters: seq<Counter>, clippersAfter: bool)
    ensures counters == Counters(stages)
    ensures counters != [] && !clippersAfter <==> CountsFinalMask(stages)
  {
    counters, clippersAfter := [], false;
    ghost var last := 0;
    var i := 0;
    while i < |stages|
      invariant Visited(stages, i, counters, last, clippersAfter)
    {
      VisitStep(stages, i, counters, last, clippersAfter);
      var p := stages[i];
      if IsClipper(p) {
        if |counters| > 0 {
          clippersAfter := true;
        }
      } else if p.counter.Some? {
        clippersAfter := false;
        counters := counters + [p.counter.value];
        last := i;
      }
      i := i + 1;
    }
    assert stages[..i] == stages;
    if counters != [] { Verdict(stages, last); }
  }

  /**
   Fails exactly when masks are wanted and the chain does not end by counting the final mask, or
   a counter has no ring buffer; otherwise the last counter alone fills chunks, and only if masks
   are wanted.
   */
  method InitMaskCounters(stages: seq<Stage>, beamId: int, nrfifreq: nat, history: int, stats: MaskStatsMap)
    returns (r: Result<seq<RuntimeAttrs>, Error>)
    modifies stats
    ensures nrfifreq > 0 && !CountsFinalMask(stages) ==>
      && r == Failure(if Counters(stages) == [] then NoMaskCounters else ClippersAfterCounters)
      && stats.entries == old(stats.entries)
    ensures !(nrfifreq > 0 && !CountsFinalMask(stages)) ==>
      && stats.entries == PutAll(old(stats.entries), beamId, Counters(stages))
      && (r.Success? <==> AllHaveRingbufs(Counters(stages))) && (r.Failure? ==> r.error == EmptyRingbuf)
    ensures r.Success? ==>
      && |r.value| == |Counters(stages)|
      && forall i :: 0 <= i < |r.value| ==>
           r.value[i] == RuntimeAttrs(history, beamId, nrfifreq > 0 && i == |r.value| - 1)
  {
    var counters, clippersAfter := FindMaskCounters(stages);
    if nrfifreq > 0 {
      if |counters| == 0 {
        return Failure(NoMaskCounters);
      }
      if clippersAfter {
        return Failure(ClippersAfterCounters);
      }
    }
    var all: seq<RuntimeAttrs>, i := [], 0;
    while i < |counters|
      invariant i <= |counters| && |all| == i
      invariant AllHaveRingbufs(counters[..i])
      invariant stats.entries == PutAll(old(stats.entries), beamId, counters[..i])
      invariant forall k :: 0 <= k < i ==> all[k] == RuntimeAttrs(history, beamId, nrfifreq > 0 && k == |counters| - 1)
    {
      assert counters[..i + 1][..i] == counters[..i];
      var attrs := RuntimeAttrs(history, beamId, false);
      if nrfifreq > 0 && i + 1 == |counters| {
        attrs := attrs.(fillsChunks := true);
      }
      all := all + [attrs];
      var put := stats.Put(beamId, counters[i].where, counters[i].ringbuf);
      if put.Failure? {
        PutsStop(old(stats.entries), beamId, counters, i);
        return Failure(EmptyRingbuf);
      }
      i := i + 1;
    }
    assert counters[..i] == counters;
    r := Success(all);
  }

  lemma {:induction false} PutsStop(entries: map<Key, nat>, beamId: int, counters: seq<Counter>, i: nat)
    requires i < |counters| && counters[i].ringbuf.None?
    ensures PutAll(entries, beamId, counters) == PutAll(entries, beamId, counters[..i])
    decreases |counters|
  {
    var front := counters[..|counters| - 1];
    if i < |front| {
      PutsStop(entries, beamId, front, i);
      assert front[..i] == counters[..i];
    }
  }

  /** Afterwards each place is found under the beam, with the last counter placed there, and other keys are as before. */
  lemma {:induction false} PutAllFinds(entries: map<Key, nat>, beamId: int, counters: seq<Counter>, key: Key)
    requires AllHaveRingbufs(counters)
    ensures var after := PutAll(entries, beamId, counters);
      && ((exists i :: 0 <= i < |counters| && key == (beamId, counters[i].where)) ==> key in after)
      && (forall i :: 0 <= i < |counters| && key == (beamId, counters[i].where)
            && (forall j :: i < j < |counters| ==> counters[j].where != key.1)
            ==> key in after && after[key] == counters[i].ringbuf.value)
      && ((forall i :: 0 <= i < |counters| ==> key != (beamId, counters[i].where)) ==>
            (key in after <==> key in entries) && (key in entries ==> after[key] == entries[key]))
  {
    if counters != [] {
      var n := |counters|;
      PutAllFinds(entries, beamId, counters[..n - 1], key);
    }
  }
}
