/**
 The completions sent under a token answer the entries of its chunk list, each entry at most
 once, although nothing in a completion names the list entry it belongs to.
 */
module Matching {
  import opened WriteServer
  import opened TokenStreams
  import opened Sequences

  function ListKeys(list: seq<WriteReply>): (r: seq<ChunkKey>)
    ensures |r| == |list|
  {
    seq(|list|, i requires 0 <= i < |list| => KeyOf(list[i]))
  }

  function DoneKeys(ds: seq<Done>): (r: seq<ChunkKey>)
    ensures |r| == |ds|
  {
    seq(|ds|, i requires 0 <= i < |ds| => KeyOf(ds[i].entry.reply))
  }

  /** The key of the request with the given id; ids out of range share a key no proof looks at. */
  function KeyAt(requests: seq<WriteRequest>, id: nat): ChunkKey {
    if id < |requests| then KeyOfRequest(requests[id]) else ChunkKey(0, 0, 0, "")
  }

  function KeysAt(requests: seq<WriteRequest>, ids: seq<nat>): (r: seq<ChunkKey>)
    ensures |r| == |ids|
  {
    seq(|ids|, i requires 0 <= i < |ids| => KeyAt(requests, ids[i]))
  }

  function DoneIds(ds: seq<Done>): (r: seq<nat>)
    ensures |r| == |ds|
  {
    seq(|ds|, i requires 0 <= i < |ds| => ds[i].id)
  }

  lemma {:induction false} DistinctMultiplicity(ids: seq<nat>, x: nat)
    requires Distinct(ids)
    ensures multiset(ids)[x] <= 1
  {
    if ids != [] {
      var n := |ids| - 1;
      assert ids == ids[..n] + [ids[n]];
      DistinctMultiplicity(ids[..n], x);
    }
  }

  lemma DistinctSubMultiset(a: seq<nat>, b: seq<nat>)
    requires Distinct(a) && forall x :: x in a ==> x in b
    ensures multiset(a) <= multiset(b)
  {
    forall x | x in multiset(a)
      ensures multiset(a)[x] <= multiset(b)[x]
    {
      DistinctMultiplicity(a, x);
      assert x in a && x in b;
    }
  }

  lemma CancelOne(a: multiset<nat>, b: multiset<nat>, x: nat)
    requires a + multiset{x} <= b + multiset{x}
    ensures a <= b
  {
    forall y | y in a
      ensures a[y] <= b[y]
    {
      assert (a + multiset{x})[y] <= (b + multiset{x})[y];
    }
  }

  lemma KeysAtConcat(requests: seq<WriteRequest>, a: seq<nat>, b: seq<nat>)
    ensures KeysAt(requests, a + b) == KeysAt(requests, a) + KeysAt(requests, b)
  {
  }

  /** Looking up keys preserves inclusion of multisets. */
  lemma {:induction false} KeysSubMultiset(requests: seq<WriteRequest>, a: seq<nat>, b: seq<nat>)
    requires multiset(a) <= multiset(b)
    ensures multiset(KeysAt(requests, a)) <= multiset(KeysAt(requests, b))
    decreases |a|
  {
    if a != [] {
      var n := |a| - 1;
      var x := a[n];
      assert a == a[..n] + [x];
      assert multiset(a) == multiset(a[..n]) + multiset{x};
      assert x in multiset(b);
      var j :| 0 <= j < |b| && b[j] == x;
      var left, right := b[..j], b[j + 1..];
      assert b == left + ([x] + right);
      assert multiset(b) == multiset(left + right) + multiset{x};
      CancelOne(multiset(a[..n]), multiset(left + right), x);
      KeysSubMultiset(requests, a[..n], left + right);
      KeysAtConcat(requests, a[..n], [x]);
      KeysAtConcat(requests, left, [x] + right);
      KeysAtConcat(requests, [x], right);
      KeysAtConcat(requests, left, right);
    }
  }

  lemma DistinctAppend(ids: seq<nat>, x: nat)
    requires Distinct(ids) && x !in ids
    ensures Distinct(ids + [x])
  {
  }

  /** Filtering by token keeps the queue order, so the ids stay distinct. */
  lemma {:induction false} CompletionIdsDistinct(log: seq<Done>, c: ClientId, t: Token)
    requires forall m, n :: 0 <= m < n < |log| ==> log[m].id != log[n].id
    ensures Distinct(DoneIds(Completions(log, c, t)))
  {
    if log != [] {
      var n := |log| - 1;
      CompletionIdsDistinct(log[..n], c, t);
      var ds := Completions(log[..n], c, t);
      forall i | 0 <= i < |ds|
        ensures ds[i].id != log[n].id
      {
        assert ds[i] in log[..n];
      }
      DistinctAppend(DoneIds(ds), log[n].id);
      assert DoneIds(ds + [log[n]]) == DoneIds(ds) + [log[n].id];
      assert ds + [] == ds;
    }
  }

  lemma DeliveredIds(s: Server, c: ClientId, t: Token)
    requires LogSound(s) && s.drained <= |s.log|
    ensures forall i :: 0 <= i < |Delivered(s, c, t)| ==>
      var d := Delivered(s, c, t)[i];
      d.id in Ids(s.requests, c, t) && KeyOf(d.entry.reply) == KeyOfRequest(s.requests[d.id])
  {
    forall i | 0 <= i < |Delivered(s, c, t)|
      ensures var d := Delivered(s, c, t)[i];
        d.id in Ids(s.requests, c, t) && KeyOf(d.entry.reply) == KeyOfRequest(s.requests[d.id])
    {
      var n := DeliveredOwner(s, c, t, i);
      assert LoggedOk(s, s.log[n]);
    }
  }

  lemma DeliveredDistinct(s: Server, c: ClientId, t: Token)
    requires LogSound(s) && s.drained <= |s.log|
    ensures Distinct(DoneIds(Delivered(s, c, t)))
  {
    CompletionIdsDistinct(s.log[..s.drained], c, t);
  }

  lemma DeliveredListed(s: Server, c: ClientId, t: Token)
    requires LogSound(s) && s.drained <= |s.log|
    ensures multiset(DoneIds(Delivered(s, c, t))) <= multiset(Ids(s.requests, c, t))
    ensures KeysAt(s.requests, DoneIds(Delivered(s, c, t))) == DoneKeys(Delivered(s, c, t))
  {
    var ds, ids := Delivered(s, c, t), Ids(s.requests, c, t);
    DeliveredIds(s, c, t);
    DeliveredDistinct(s, c, t);
    forall x | x in DoneIds(ds)
      ensures x in ids
    {
      var i :| 0 <= i < |ds| && ds[i].id == x;
    }
    DistinctSubMultiset(DoneIds(ds), ids);
  }

  /**
   The completions already sent for a token map injectively into its list, chunk by chunk;
   once there are as many as list entries, they are exactly the listed chunks.
   */
  lemma CompletionsMatchList(s: Server, c: ClientId, t: Token, list: seq<WriteReply>)
    requires LogSound(s) && s.drained <= |s.log| && ListMatches(s.requests, c, t, list)
    ensures multiset(DoneKeys(Delivered(s, c, t))) <= multiset(ListKeys(list))
    ensures |Delivered(s, c, t)| <= |list|
    ensures |Delivered(s, c, t)| == |list| ==> multiset(DoneKeys(Delivered(s, c, t))) == multiset(ListKeys(list))
  {
    var ds, ids := Delivered(s, c, t), Ids(s.requests, c, t);
    DeliveredListed(s, c, t);
    KeysSubMultiset(s.requests, DoneIds(ds), ids);
    assert KeysAt(s.requests, ids) == ListKeys(list);
    WithinAndFull(DoneKeys(ds), ListKeys(list));
  }

  lemma WithinAndFull(a: seq<ChunkKey>, b: seq<ChunkKey>)
    requires multiset(a) <= multiset(b)
    ensures |a| <= |b| && (|a| == |b| ==> multiset(a) == multiset(b))
  {
    assert multiset(b) == multiset(a) + (multiset(b) - multiset(a));
    assert |b| == |a| + |multiset(b) - multiset(a)|;
  }
}
