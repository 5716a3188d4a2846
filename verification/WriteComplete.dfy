/**
 When a server has finished with a `write_chunks` request, refused writes included, it has sent
 the list and a completion for every entry of it.
 */
module WriteComplete {
  import opened Wrappers
  import opened WriteServer
  import opened TokenStreams
  import opened Matching
  import opened ClientBuffer
  import opened WriteSystem
  import opened WriteGuarantees

  /** Every write request of the token has been reported on and every report sent. */
  ghost predicate AllReported(s: Server, me: ClientId, t: Token) {
    && s.drained == |s.log|
    && forall id :: id in Ids(s.requests, me, t) ==> id < |s.progress| && s.progress[id].Reported?
  }

  /** Server `k` has taken the request, sent its list and all its completions, and nothing is in flight. */
  ghost predicate Handled(sys: System, me: ClientId, k: ServerId, t: Token) {
    && t < TOKEN_LIMIT && t in sys.issued && sys.issued[t] == (k, WriteChunks(t)) && k in sys.links
    && !Requested(sys.links[k].up, t) && sys.links[k].down == []
    && !InHandling(sys.links[k].server, me, t) && AllReported(sys.links[k].server, me, t)
  }

  lemma {:induction false} CompletionsHave(log: seq<Done>, n: nat, c: ClientId, t: Token)
    requires n < |log| && log[n].entry.client == Some(c) && log[n].entry.token == t
    ensures log[n] in Completions(log, c, t)
  {
    var last := |log| - 1;
    if n < last {
      assert log[..last][n] == log[n];
      CompletionsHave(log[..last], n, c, t);
    }
  }

  lemma ReportedIsDelivered(s: Server, c: ClientId, t: Token, id: nat)
    requires LogSound(s) && s.drained == |s.log| && id in Ids(s.requests, c, t) && s.progress[id].Reported?
    ensures id in DoneIds(Delivered(s, c, t))
  {
    var n :| 0 <= n < |s.log| && s.log[n].id == id;
    assert LoggedOk(s, s.log[n]);
    assert Owns(s.requests[id], c, t);
    assert s.log[..s.drained] == s.log;
    CompletionsHave(s.log, n, c, t);
    var ds := Delivered(s, c, t);
    var i :| 0 <= i < |ds| && ds[i] == s.log[n];
    assert DoneIds(ds)[i] == id;
  }

  lemma DeliveredCount(s: Server, c: ClientId, t: Token)
    requires LogSound(s) && AllReported(s, c, t)
    ensures |Ids(s.requests, c, t)| <= |Delivered(s, c, t)|
  {
    var ids, done := Ids(s.requests, c, t), DoneIds(Delivered(s, c, t));
    forall id | id in ids
      ensures id in done
    {
      ReportedIsDelivered(s, c, t, id);
    }
    DistinctSubMultiset(ids, done);
    assert multiset(done) == multiset(ids) + (multiset(done) - multiset(ids));
    assert |multiset(ids)| == |ids| && |multiset(done)| == |done|;
    assert |multiset(done)| == |multiset(ids)| + |multiset(done) - multiset(ids)|;
  }

  lemma HandledListed(sys: System, me: ClientId, k: ServerId, t: Token)
    requires Inv(sys, me) && Handled(sys, me, k, t)
    ensures ListedAny(sys.links[k].server, me, t) && LogSound(sys.links[k].server)
  {
    assert LinkOk(sys.links[k], k, sys.issued, me);
    assert TokenOk(sys.links[k], k, sys.issued, me, t);
  }

  lemma ListedCount(s: Server, me: ClientId, t: Token)
    requires LogSound(s) && ListedAny(s, me, t) && AllReported(s, me, t)
    ensures var stream := Stream(s.sent, me, t); |stream| == 1 + |stream[0].replies|
  {
    var list := Stream(s.sent, me, t)[0].replies;
    DeliveredCount(s, me, t);
    CompletionsMatchList(s, me, t, list);
  }

  /** A list, and as many messages after it as it has entries. */
  predicate ReceivedInFull(had: seq<Message>) {
    had != [] && had[0].payload.ChunkList? && |had| == 1 + |had[0].payload.replies|
  }

  /** All of it has been received: the list, and as many completions as it has entries. */
  lemma HandledReceived(sys: System, me: ClientId, k: ServerId, t: Token)
    requires Inv(sys, me) && Handled(sys, me, k, t)
    ensures ReceivedInFull(Of(sys.arrived, t))
  {
    HandledListed(sys, me, k, t);
    ListedCount(sys.links[k].server, me, t);
    TokenHistory(sys, me, t);
    var stream := Stream(sys.links[k].server.sent, me, t);
    assert Of(sys.arrived, t) + Tags(k, Stream([], me, t)) == Of(sys.arrived, t);
    assert Tags(k, stream)[0].payload == stream[0];
  }
}
