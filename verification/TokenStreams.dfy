/**
 What one client sees of one server: the payloads sent to it under one token, and how they
 relate to the write requests the server made for that token.
 */
module TokenStreams {
  import opened Sequences
  import opened Wrappers
  import opened WriteServer

  predicate Owns(w: WriteRequest, c: ClientId, t: Token) {
    w.client == Some(c) && w.token == t
  }

  /** The requests made for token `t` of client `c`, in submission order. */
  function Ids(requests: seq<WriteRequest>, c: ClientId, t: Token): (r: seq<nat>)
    ensures forall i :: 0 <= i < |r| ==> r[i] < |requests| && Owns(requests[r[i]], c, t)
    ensures forall i, j :: 0 <= i < j < |r| ==> r[i] < r[j]
    ensures forall id :: 0 <= id < |requests| && Owns(requests[id], c, t) ==> id in r
  {
    if requests == [] then [] else
    var n := |requests| - 1;
    if Owns(requests[n], c, t) then Ids(requests[..n], c, t) + [n] else Ids(requests[..n], c, t)
  }

  /** The payloads sent to client `c` under token `t`, in sending order. */
  function Stream(sent: seq<Packet>, c: ClientId, t: Token): seq<Payload> {
    if sent == [] then [] else
    var before, last := Stream(sent[..|sent| - 1], c, t), sent[|sent| - 1];
    if last.client == c && last.token == t then before + [last.payload] else before
  }

  /** The completions of token `t` of client `c`, in the order of the queue's lock. */
  function Completions(log: seq<Done>, c: ClientId, t: Token): (r: seq<Done>)
    ensures forall d :: d in r ==> d in log && d.entry.client == Some(c) && d.entry.token == t
  {
    if log == [] then [] else
    var before, last := Completions(log[..|log| - 1], c, t), log[|log| - 1];
    if last.entry.client == Some(c) && last.entry.token == t then before + [last] else before
  }

  function Payloads(ds: seq<Done>): (r: seq<Payload>)
    ensures |r| == |ds|
  {
    seq(|ds|, i requires 0 <= i < |ds| => WriteDone(ds[i].entry.reply))
  }

  /** The completions whose packets have been sent. */
  function Delivered(s: Server, c: ClientId, t: Token): seq<Done>
    requires s.drained <= |s.log|
  {
    Completions(s.log[..s.drained], c, t)
  }

  predicate InHandling(s: Server, c: ClientId, t: Token) {
    s.pc.Handling? && s.pc.client == c && s.pc.token == t
  }

  predicate Accepts(e: Event, c: ClientId, t: Token) {
    e.Accept? && e.client == c && e.request.token == t
  }

  /** The list names the requests made for the token, one entry each, in order. */
  ghost predicate ListMatches(requests: seq<WriteRequest>, c: ClientId, t: Token, list: seq<WriteReply>) {
    var ids := Ids(requests, c, t);
    |list| == |ids| && forall i :: 0 <= i < |ids| ==> KeyOf(list[i]) == KeyOfRequest(requests[ids[i]])
  }

  /** The chunks of the requests made for the token, in order. */
  function RequestedChunks(requests: seq<WriteRequest>, c: ClientId, t: Token): (r: seq<Chunk>)
    ensures |r| == |Ids(requests, c, t)|
    ensures forall i :: 0 <= i < |r| ==> r[i] == requests[Ids(requests, c, t)[i]].chunk
  {
    var ids := Ids(requests, c, t);
    seq(|ids|, i requires 0 <= i < |ids| => requests[ids[i]].chunk)
  }

  /** The chunks asked for under the token: those whose requests have been made, and those still to do. */
  function Asked(s: Server, c: ClientId, t: Token): seq<Chunk> {
    RequestedChunks(s.requests, c, t) + if InHandling(s, c, t) then s.pc.todo else []
  }

  /** The list names exactly these chunks, in order. */
  predicate Names(list: seq<WriteReply>, chunks: seq<Chunk>) {
    |list| == |chunks| && forall i :: 0 <= i < |list| ==> Describes(list[i], chunks[i])
  }

  // ----- The three stages of a token -----

  /** The server has made no write request for the token and is not about to. */
  ghost predicate Quiet(s: Server, c: ClientId, t: Token) {
    Ids(s.requests, c, t) == [] && !InHandling(s, c, t)
  }

  /** The chunks are being submitted; nothing has been sent for the token yet. */
  ghost predicate InHand(s: Server, c: ClientId, t: Token) {
    && InHandling(s, c, t)
    && Stream(s.sent, c, t) == []
    && s.drained <= |s.log|
    && Delivered(s, c, t) == []
    && ListMatches(s.requests, c, t, s.pc.replies)
  }

  /** The list has been sent, and after it exactly the completions drained so far. */
  ghost predicate Listed(s: Server, c: ClientId, t: Token, list: seq<WriteReply>) {
    && !InHandling(s, c, t)
    && s.drained <= |s.log|
    && ListMatches(s.requests, c, t, list)
    && Stream(s.sent, c, t) == [ChunkList(list)] + Payloads(Delivered(s, c, t))
  }

  // ----- Appending -----

  lemma StreamAppend(sent: seq<Packet>, p: Packet, c: ClientId, t: Token)
    ensures Stream(sent + [p], c, t) == Stream(sent, c, t) + if p.client == c && p.token == t then [p.payload] else []
  {
    assert (sent + [p])[..|sent|] == sent;
  }

  lemma IdsAppend(requests: seq<WriteRequest>, w: WriteRequest, c: ClientId, t: Token)
    ensures Ids(requests + [w], c, t) == Ids(requests, c, t) + if Owns(w, c, t) then [|requests|] else []
  {
    assert (requests + [w])[..|requests|] == requests;
  }

  lemma DeliveredAppend(s: Server, c: ClientId, t: Token)
    requires QueueOk(s) && Enabled(s, Dequeue)
    ensures s.drained < |s.log| && s.queue[0] == s.log[s.drained].entry
    ensures var d := s.log[s.drained];
            Delivered(Apply(s, Dequeue), c, t)
            == Delivered(s, c, t) + if d.entry.client == Some(c) && d.entry.token == t then [d] else []
  {
    assert s.log[..s.drained + 1][..s.drained] == s.log[..s.drained];
  }

  lemma DeliveredKept(s: Server, e: Event, c: ClientId, t: Token)
    requires s.drained <= |s.log| && Enabled(s, e) && !e.Dequeue?
    ensures Apply(s, e).drained <= |Apply(s, e).log|
    ensures Delivered(Apply(s, e), c, t) == Delivered(s, c, t)
  {
    assert Apply(s, e).log[..s.drained] == s.log[..s.drained];
  }

  /** An entry of a token in the log comes from a request of that token. */
  lemma LoggedOwner(s: Server, n: nat, c: ClientId, t: Token)
    requires LogSound(s) && n < |s.log| && s.log[n].entry.client == Some(c) && s.log[n].entry.token == t
    ensures s.log[n].id in Ids(s.requests, c, t)
  {
    assert LoggedOk(s, s.log[n]);
  }

  // ----- What each event does to a token -----

  lemma StreamDequeue(s: Server, c: ClientId, t: Token)
    requires QueueOk(s) && Enabled(s, Dequeue) && s.drained < |s.log|
    ensures var d := s.log[s.drained];
            Stream(Apply(s, Dequeue).sent, c, t)
            == Stream(s.sent, c, t)
               + if d.entry.client == Some(c) && d.entry.token == t then [WriteDone(d.entry.reply)] else []
  {
    var d := s.log[s.drained];
    assert s.queue[0] == d.entry;
    match d.entry.client {
      case None => assert s.sent + PacketsFor(d.entry) == s.sent;
      case Some(c') => StreamAppend(s.sent, PacketsFor(d.entry)[0], c, t);
    }
  }

  /** A completion that has been sent belongs to a request of its token. */
  lemma DeliveredOwner(s: Server, c: ClientId, t: Token, i: nat) returns (n: nat)
    requires LogSound(s) && s.drained <= |s.log| && i < |Delivered(s, c, t)|
    ensures n < s.drained && s.log[n] == Delivered(s, c, t)[i]
    ensures Delivered(s, c, t)[i].id in Ids(s.requests, c, t)
  {
    var d := Delivered(s, c, t)[i];
    n :| 0 <= n < s.drained && s.log[n] == d;
    LoggedOwner(s, n, c, t);
  }

  lemma DeliveredNeedsIds(s: Server, c: ClientId, t: Token)
    requires LogSound(s) && s.drained <= |s.log|
    ensures Delivered(s, c, t) != [] ==> Ids(s.requests, c, t) != []
  {
    if Delivered(s, c, t) != [] { var _ := DeliveredOwner(s, c, t, 0); }
  }

  lemma QuietStep(s: Server, e: Event, c: ClientId, t: Token)
    requires Valid(s) && Enabled(s, e) && Quiet(s, c, t) && !Accepts(e, c, t)
    ensures Quiet(Apply(s, e), c, t)
    ensures Stream(Apply(s, e).sent, c, t) == Stream(s.sent, c, t)
  {
    var s' := Apply(s, e);
    if e.Dequeue? {
      DeliveredAppend(s, c, t);
      StreamDequeue(s, c, t);
      var d := s.log[s.drained];
      if d.entry.client == Some(c) && d.entry.token == t { LoggedOwner(s, s.drained, c, t); }
    } else if s'.sent != s.sent {
      StreamAppend(s.sent, s'.sent[|s.sent|], c, t);
    }
    if s'.requests != s.requests { IdsAppend(s.requests, s'.requests[|s.requests|], c, t); }
  }

  lemma AcceptStep(s: Server, e: Event, c: ClientId, t: Token)
    requires Valid(s) && Enabled(s, e) && Accepts(e, c, t) && Quiet(s, c, t) && Stream(s.sent, c, t) == []
    ensures t < TOKEN_LIMIT && e.request.WriteChunks? ==> InHand(Apply(s, e), c, t)
    ensures !(t < TOKEN_LIMIT && e.request.WriteChunks?) ==> Quiet(Apply(s, e), c, t)
    ensures t >= TOKEN_LIMIT || e.request.Unanswered? ==> Stream(Apply(s, e).sent, c, t) == []
    ensures t < TOKEN_LIMIT && e.request.GetWriteChunkStatus? ==>
      var answer := Lookup(s.status, e.request.filename);
      Stream(Apply(s, e).sent, c, t) == [WriteStatus(answer.0, answer.1)]
    ensures t < TOKEN_LIMIT && e.request.WriteChunks? ==>
      exists starts :: InPieces(Asked(Apply(s, e), c, t), e.snapshot, starts)
    ensures t < TOKEN_LIMIT && e.request.Other? ==> Stream(Apply(s, e).sent, c, t) == [Answer(e.request.name)]
  {
    var s' := Apply(s, e);
    if s'.sent != s.sent { StreamAppend(s.sent, s'.sent[|s.sent|], c, t); }
    DeliveredNeedsIds(s, c, t);
    assert s'.log == s.log && s'.drained == s.drained && s'.requests == s.requests;
    if t < TOKEN_LIMIT && e.request.WriteChunks? { AcceptAsked(s, e, c, t); }
  }

  /** An accepted request asks for the chunks of all beams' snapshots. */
  lemma AcceptAsked(s: Server, e: Event, c: ClientId, t: Token)
    requires Enabled(s, e) && Accepts(e, c, t) && Quiet(s, c, t) && t < TOKEN_LIMIT && e.request.WriteChunks?
    ensures Asked(Apply(s, e), c, t) == Joined(e.snapshot)
    ensures exists starts :: InPieces(Asked(Apply(s, e), c, t), e.snapshot, starts)
  {
    assert Asked(Apply(s, e), c, t) == [] + Joined(e.snapshot);
    var starts := JoinedIsPieces(e.snapshot);
  }

  lemma ChunksAppend(requests: seq<WriteRequest>, w: WriteRequest, c: ClientId, t: Token)
    ensures RequestedChunks(requests + [w], c, t) == RequestedChunks(requests, c, t) + if Owns(w, c, t) then [w.chunk] else []
  {
    IdsAppend(requests, w, c, t);
  }

  /** No event but accepting it changes what has been asked for under a token. */
  lemma AskedKept(s: Server, e: Event, c: ClientId, t: Token)
    requires Enabled(s, e) && !Accepts(e, c, t)
    ensures Asked(Apply(s, e), c, t) == Asked(s, c, t)
  {
    match e {
      case Submit(filename, accepted) => SubmitAsked(s, filename, accepted, c, t);
      case SubmitLocal(chunk, filename) =>
        ChunksAppend(s.requests, WriteRequest(None, 0, chunk, filename), c, t);
        assert RequestedChunks(s.requests, c, t) + [] == RequestedChunks(s.requests, c, t);
      case _ => AskedStill(s, e, c, t);
    }
  }

  lemma SubmitAsked(s: Server, filename: string, accepted: bool, c: ClientId, t: Token)
    requires Enabled(s, Submit(filename, accepted))
    ensures Asked(Apply(s, Submit(filename, accepted)), c, t) == Asked(s, c, t)
  {
    var todo := s.pc.todo;
    var w := WriteRequest(Some(s.pc.client), s.pc.token, todo[0], filename);
    var before := RequestedChunks(s.requests, c, t);
    ChunksAppend(s.requests, w, c, t);
    if InHandling(s, c, t) {
      Associate(before, [todo[0]], todo[1..]);
      assert [todo[0]] + todo[1..] == todo;
    } else {
      assert before + [] == before;
    }
  }

  lemma AskedStill(s: Server, e: Event, c: ClientId, t: Token)
    requires Enabled(s, e) && !Accepts(e, c, t) && !e.Submit? && !e.SubmitLocal?
    ensures Asked(Apply(s, e), c, t) == Asked(s, c, t)
  {
    assert Apply(s, e).requests == s.requests;
  }

  /** A list that has been sent names exactly the chunks that were asked for. */
  lemma ListedNames(s: Server, c: ClientId, t: Token, list: seq<WriteReply>)
    requires Listed(s, c, t, list)
    ensures Names(list, Asked(s, c, t))
  {
    var ids := Ids(s.requests, c, t);
    assert Asked(s, c, t) == RequestedChunks(s.requests, c, t);
    forall i | 0 <= i < |list|
      ensures Describes(list[i], Asked(s, c, t)[i])
    {
      KeyDescribes(list[i], s.requests[ids[i]]);
    }
  }

  lemma SubmitStep(s: Server, filename: string, accepted: bool, c: ClientId, t: Token)
    requires Enabled(s, Submit(filename, accepted)) && InHand(s, c, t)
    ensures InHand(Apply(s, Submit(filename, accepted)), c, t)
  {
    var e := Submit(filename, accepted);
    var s' := Apply(s, e);
    var w := s'.requests[|s.requests|];
    assert s'.requests == s.requests + [w] && Owns(w, c, t);
    DeliveredKept(s, e, c, t);
    ListGrows(s.requests, w, c, t, s.pc.replies, s'.pc.replies[|s.pc.replies|]);
  }

  /** One more request of the token, and one more entry for it in the list. */
  lemma ListGrows(requests: seq<WriteRequest>, w: WriteRequest, c: ClientId, t: Token, list: seq<WriteReply>, r: WriteReply)
    requires ListMatches(requests, c, t, list) && Owns(w, c, t) && KeyOf(r) == KeyOfRequest(w)
    ensures ListMatches(requests + [w], c, t, list + [r])
  {
    IdsAppend(requests, w, c, t);
  }

  lemma SendIs(s: Server)
    requires Enabled(s, SendList)
    ensures Apply(s, SendList) ==
      s.(pc := Draining, sent := s.sent + [Packet(s.pc.client, s.pc.token, ChunkList(s.pc.replies))])
  {
  }

  lemma InHandSend(s: Server, c: ClientId, t: Token)
    requires Enabled(s, SendList) && InHand(s, c, t)
    ensures Listed(Apply(s, SendList), c, t, s.pc.replies)
  {
    var s', list := Apply(s, SendList), s.pc.replies;
    SendIs(s);
    DeliveredKept(s, SendList, c, t);
    assert Stream(s'.sent, c, t) == [ChunkList(list)] + Payloads(Delivered(s', c, t)) by {
      StreamAppend(s.sent, Packet(c, t, ChunkList(list)), c, t);
      assert [] + [ChunkList(list)] == [ChunkList(list)] + Payloads([]);
    }
  }

  lemma InHandLocal(s: Server, chunk: Chunk, filename: string, c: ClientId, t: Token)
    requires InHand(s, c, t)
    ensures InHand(Apply(s, SubmitLocal(chunk, filename)), c, t)
  {
    var s' := Apply(s, SubmitLocal(chunk, filename));
    var w := WriteRequest(None, 0, chunk, filename);
    assert s'.requests == s.requests + [w] && !Owns(w, c, t);
    IdsAppend(s.requests, w, c, t);
    assert Ids(s.requests, c, t) + [] == Ids(s.requests, c, t);
    assert s'.log == s.log && s'.drained == s.drained && s'.sent == s.sent && s'.pc == s.pc;
  }

  /** An I/O thread's event: nothing is sent, and nothing more drained. */
  lemma InHandReport(s: Server, e: Event, c: ClientId, t: Token)
    requires Enabled(s, e) && (e.StatusChange? || e.Finish? || e.Enqueue?) && InHand(s, c, t)
    ensures InHand(Apply(s, e), c, t)
  {
    DeliveredKept(s, e, c, t);
    var s' := Apply(s, e);
    assert s'.requests == s.requests && s'.sent == s.sent && s'.pc == s.pc;
  }

  lemma InHandStep(s: Server, e: Event, c: ClientId, t: Token)
    requires Enabled(s, e) && InHand(s, c, t)
    ensures !e.SendList? ==> InHand(Apply(s, e), c, t)
    ensures e.SendList? ==> Listed(Apply(s, e), c, t, s.pc.replies) && Names(s.pc.replies, Asked(s, c, t))
    ensures Asked(Apply(s, e), c, t) == Asked(s, c, t)
  {
    AskedKept(s, e, c, t);
    if e.SendList? {
      InHandSend(s, c, t);
      ListedNames(Apply(s, e), c, t, s.pc.replies);
    } else {
      InHandOther(s, e, c, t);
    }
  }

  lemma InHandOther(s: Server, e: Event, c: ClientId, t: Token)
    requires Enabled(s, e) && InHand(s, c, t) && !e.SendList?
    ensures InHand(Apply(s, e), c, t)
  {
    match e {
      case Submit(filename, accepted) => SubmitStep(s, filename, accepted, c, t);
      case SubmitLocal(chunk, filename) => InHandLocal(s, chunk, filename, c, t);
      case _ => InHandReport(s, e, c, t);
    }
  }

  lemma PayloadsAppend(ds: seq<Done>, d: Done)
    ensures Payloads(ds + [d]) == Payloads(ds) + [WriteDone(d.entry.reply)]
  {
  }

  lemma ListedDequeue(s: Server, c: ClientId, t: Token, list: seq<WriteReply>)
    requires QueueOk(s) && Enabled(s, Dequeue) && Listed(s, c, t, list)
    ensures Listed(Apply(s, Dequeue), c, t, list)
  {
    var s' := Apply(s, Dequeue);
    DeliveredAppend(s, c, t);
    StreamDequeue(s, c, t);
    var before, d := Delivered(s, c, t), s.log[s.drained];
    assert s'.requests == s.requests && s'.pc == s.pc && s'.drained <= |s'.log|;
    if d.entry.client == Some(c) && d.entry.token == t {
      PayloadsAppend(before, d);
      assert [ChunkList(list)] + Payloads(before) + [WriteDone(d.entry.reply)]
          == [ChunkList(list)] + Payloads(before + [d]);
    } else {
      assert before + [] == before;
    }
  }

  lemma StreamKept(s: Server, e: Event, c: ClientId, t: Token)
    requires Enabled(s, e) && !e.Dequeue? && !Accepts(e, c, t) && !(e.SendList? && InHandling(s, c, t))
    ensures Stream(Apply(s, e).sent, c, t) == Stream(s.sent, c, t)
  {
    var s' := Apply(s, e);
    if s'.sent != s.sent { StreamAppend(s.sent, s'.sent[|s.sent|], c, t); }
  }

  lemma IdsKept(s: Server, e: Event, c: ClientId, t: Token)
    requires Enabled(s, e) && !InHandling(s, c, t)
    ensures s.requests <= Apply(s, e).requests
    ensures Ids(Apply(s, e).requests, c, t) == Ids(s.requests, c, t)
  {
    var s' := Apply(s, e);
    NewRequest(s, e, c, t);
    if s'.requests != s.requests {
      IdsAppend(s.requests, s'.requests[|s.requests|], c, t);
      assert Ids(s.requests, c, t) + [] == Ids(s.requests, c, t);
    }
  }

  lemma NewRequest(s: Server, e: Event, c: ClientId, t: Token)
    requires Enabled(s, e) && !InHandling(s, c, t)
    ensures var before, after := s.requests, Apply(s, e).requests;
      after == before
      || (|after| == |before| + 1 && after == before + [after[|before|]] && !Owns(after[|before|], c, t))
  {
  }

  lemma ListedStep(s: Server, e: Event, c: ClientId, t: Token, list: seq<WriteReply>)
    requires QueueOk(s) && Enabled(s, e) && Listed(s, c, t, list) && !Accepts(e, c, t)
    ensures Listed(Apply(s, e), c, t, list)
    ensures Ids(Apply(s, e).requests, c, t) == Ids(s.requests, c, t)
    ensures Asked(Apply(s, e), c, t) == Asked(s, c, t)
  {
    IdsKept(s, e, c, t);
    AskedKept(s, e, c, t);
    if e.Dequeue? {
      ListedDequeue(s, c, t, list);
    } else {
      DeliveredKept(s, e, c, t);
      StreamKept(s, e, c, t);
    }
  }
}
