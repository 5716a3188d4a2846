/** Which of the beams to be saved each input stream saves. */
module StreamBeams {
  import opened Modular
  import opened Sequences

  method VContains(v: seq<int>, x: int) returns (found: bool)
    ensures found <==> x in v
  {
    var i := 0;
    while i < |v|
      invariant i <= |v| && x !in v[..i]
    {
      if v[i] == x {
        return true;
      }
      i := i + 1;
    }
    found := false;
  }

  /** The configuration is refused unless every beam to be saved is one of the node's. */
  method SubsetOf(ids: seq<int>, beamIds: seq<int>) returns (ok: bool)
    ensures ok <==> forall b :: b in ids ==> b in beamIds
  {
    var i := 0;
    while i < |ids|
      invariant i <= |ids| && forall b :: b in ids[..i] ==> b in beamIds
    {
      var found := VContains(beamIds, ids[i]);
      if !found {
        return false;
      }
      i := i + 1;
    }
    ok := true;
  }

  /** The beams of stream `istream`: a block of `per` consecutive ones. */
  function Block(beamIds: seq<int>, per: nat, nstreams: nat, istream: nat): seq<int>
    requires |beamIds| == nstreams * per && istream < nstreams
  {
    Fewer(istream, istream + 1, per);
    Fewer(istream + 1, nstreams, per);
    beamIds[istream * per..(istream + 1) * per]
  }

  function Selected(ids: seq<int>, own: seq<int>): seq<int> {
    if ids == [] then []
    else
      var before, b := Selected(ids[..|ids| - 1], own), ids[|ids| - 1];
      if b in own then before + [b] else before
  }

  method SelectBeams(ids: seq<int>, own: seq<int>) returns (selected: seq<int>)
    ensures selected == Selected(ids, own)
  {
    selected := [];
    var i := 0;
    while i < |ids|
      invariant i <= |ids| && selected == Selected(ids[..i], own)
    {
      assert ids[..i + 1][..i] == ids[..i];
      var found := VContains(own, ids[i]);
      if found {
        selected := selected + [ids[i]];
      }
      i := i + 1;
    }
    assert ids[..i] == ids;
  }

  /** Own beams are selected as often as they are asked for, and no others. */
  lemma {:induction false} SelectedCounts(ids: seq<int>, own: seq<int>, b: int)
    ensures multiset(Selected(ids, own))[b] == if b in own then multiset(ids)[b] else 0
  {
    if ids != [] {
      var n := |ids|;
      assert ids == ids[..n - 1] + [ids[n - 1]];
      SelectedCounts(ids[..n - 1], own, b);
    }
  }

  /** `places` are, in ascending order, all the places in `ids` of own beams, and `selected` are those beams. */
  ghost predicate FoundAt(ids: seq<int>, own: seq<int>, selected: seq<int>, places: seq<nat>) {
    && |places| == |selected|
    && (forall k :: 0 <= k < |places| ==>
          places[k] < |ids| && ids[places[k]] == selected[k] && ids[places[k]] in own)
    && (forall k, m :: 0 <= k < m < |places| ==> places[k] < places[m])
    && forall i :: 0 <= i < |ids| && ids[i] in own ==> i in places
  }

  lemma FoundNext(ids: seq<int>, own: seq<int>, selected: seq<int>, places: seq<nat>, b: int)
    requires FoundAt(ids, own, selected, places)
    ensures b in own ==> FoundAt(ids + [b], own, selected + [b], places + [|ids|])
    ensures b !in own ==> FoundAt(ids + [b], own, selected, places)
  {
    assert (places + [|ids|])[|places|] == |ids|;
    assert forall i :: i in places ==> i in places + [|ids|];
  }

  /** The selected beams come in the order asked for, and none is passed over. */
  lemma {:induction false} SelectedInOrder(ids: seq<int>, own: seq<int>) returns (places: seq<nat>)
    ensures FoundAt(ids, own, Selected(ids, own), places)
  {
    places := [];
    if ids != [] {
      var n := |ids| - 1;
      places := SelectedInOrder(ids[..n], own);
      FoundNext(ids[..n], own, Selected(ids[..n], own), places, ids[n]);
      assert ids[..n] + [ids[n]] == ids;
      if ids[n] in own { places := places + [n]; }
    }
  }

  lemma InSlice(s: seq<int>, lo: nat, hi: nat, k: nat)
    requires lo <= hi <= |s| && k < |s| && Distinct(s)
    ensures s[k] in s[lo..hi] <==> lo <= k < hi
  {
    if lo <= k < hi { assert s[lo..hi][k - lo] == s[k]; }
    if s[k] in s[lo..hi] {
      var j :| 0 <= j < hi - lo && s[lo..hi][j] == s[k];
      assert s[lo + j] == s[k];
    }
  }

  lemma InBlock(beamIds: seq<int>, per: nat, nstreams: nat, k: nat, istream: nat)
    requires per > 0 && |beamIds| == nstreams * per && k < |beamIds| && istream < nstreams && Distinct(beamIds)
    ensures k / per < nstreams
    ensures beamIds[k] in Block(beamIds, per, nstreams, istream) <==> istream == k / per
  {
    Below(k, nstreams, per);
    Between(k, istream, per);
    Fewer(istream, istream + 1, per);
    Fewer(istream + 1, nstreams, per);
    InSlice(beamIds, istream * per, (istream + 1) * per, k);
  }

  /** If the node's beams are distinct, each beam to be saved is saved by its own stream, and by no other. */
  lemma SavedOnce(beamIds: seq<int>, per: nat, nstreams: nat, ids: seq<int>, k: nat, istream: nat)
    requires per > 0 && |beamIds| == nstreams * per && k < |beamIds| && istream < nstreams && Distinct(beamIds)
    ensures multiset(Selected(ids, Block(beamIds, per, nstreams, istream)))[beamIds[k]]
         == if istream == k / per then multiset(ids)[beamIds[k]] else 0
  {
    InBlock(beamIds, per, nstreams, k, istream);
    SelectedCounts(ids, Block(beamIds, per, nstreams, istream), beamIds[k]);
  }
}
