/**
 What every interleaving of the client, the servers and the I/O threads guarantees, although
 nothing in the client checks it: which server a message came from, that the chunk list comes
 first, that completions answer the list one to one, and that the call which waits for all
 writes returns exactly the completions of its own request.
 */
module WriteGuarantees {
  import opened Wrappers
  import opened WriteServer
  import opened TokenStreams
  import opened Matching
  import opened ClientBuffer
  import C = ClientWaits
  import opened WriteSystem

  /** Payloads with the socket they are attributed to. */
  function Tags(k: ServerId, payloads: seq<Payload>): (r: seq<Message>)
    ensures |r| == |payloads|
  {
    seq(|payloads|, i requires 0 <= i < |payloads| => Message(k, payloads[i]))
  }

  // ----- Attribution -----

  lemma {:induction false} StreamConcat(a: seq<Packet>, b: seq<Packet>, c: ClientId, t: Token)
    ensures Stream(a + b, c, t) == Stream(a, c, t) + Stream(b, c, t)
  {
    if b == [] {
      assert a + b == a;
    } else {
      var n := |b| - 1;
      assert (a + b)[..|a + b| - 1] == a + b[..n];
      StreamConcat(a, b[..n], c, t);
    }
  }

  lemma {:induction false} StreamAddressed(packets: seq<Packet>, me: ClientId, t: Token)
    ensures Stream(Addressed(packets, me), me, t) == Stream(packets, me, t)
  {
    if packets != [] {
      var n := |packets| - 1;
      StreamAddressed(packets[..n], me, t);
      if packets[n].client == me { StreamAppend(Addressed(packets[..n], me), packets[n], me, t); }
    }
  }

  /** What has been received under a token and what is still in the channel make up all that was sent. */
  lemma ChannelStream(link: Link, k: ServerId, arrived: seq<Arrival>, me: ClientId, t: Token)
    requires ChannelOk(link, k, arrived, me)
    ensures Stream(ReadFrom(arrived, k, me), me, t) + Stream(link.down, me, t) == Stream(link.server.sent, me, t)
  {
    StreamConcat(ReadFrom(arrived, k, me), link.down, me, t);
    StreamAddressed(link.server.sent, me, t);
  }

  lemma {:induction false} ArrivalInStream(arrived: seq<Arrival>, i: nat, me: ClientId)
    requires i < |arrived|
    ensures Stream(ReadFrom(arrived, arrived[i].message.server, me), me, arrived[i].token) != []
  {
    var n, k, t := |arrived| - 1, arrived[i].message.server, arrived[i].token;
    var before, a := arrived[..n], arrived[n];
    if i < n { ArrivalInStream(before, i, me); }
    if a.message.server == k {
      StreamAppend(ReadFrom(before, k, me), Packet(me, a.token, a.message.payload), me, t);
    }
  }

  /** Every message carries the socket its request was sent on. */
  lemma ArrivalAttributed(sys: System, me: ClientId, i: nat)
    requires Inv(sys, me) && i < |sys.arrived|
    ensures IssuedTo(sys.issued, sys.arrived[i].message.server, sys.arrived[i].token)
  {
    var k, t := sys.arrived[i].message.server, sys.arrived[i].token;
    assert LinkOk(sys.links[k], k, sys.issued, me) && ChannelOk(sys.links[k], k, sys.arrived, me);
    ArrivalInStream(sys.arrived, i, me);
    ChannelStream(sys.links[k], k, sys.arrived, me, t);
    assert TokenOk(sys.links[k], k, sys.issued, me, t);
  }

  lemma {:induction false} OfOneServer(arrived: seq<Arrival>, k: ServerId, me: ClientId, t: Token)
    requires forall i :: 0 <= i < |arrived| && arrived[i].token == t ==> arrived[i].message.server == k
    ensures Of(arrived, t) == Tags(k, Stream(ReadFrom(arrived, k, me), me, t))
  {
    if arrived != [] {
      var n := |arrived| - 1;
      var before, a := arrived[..n], arrived[n];
      OfOneServer(before, k, me, t);
      if a.message.server == k {
        StreamAppend(ReadFrom(before, k, me), Packet(me, a.token, a.message.payload), me, t);
      }
      TagsAppend(k, Stream(ReadFrom(before, k, me), me, t), a.message.payload);
    }
  }

  lemma TagsAppend(k: ServerId, payloads: seq<Payload>, p: Payload)
    ensures Tags(k, payloads + [p]) == Tags(k, payloads) + [Message(k, p)]
    ensures payloads + [] == payloads
  {
  }

  lemma TagsConcat(k: ServerId, a: seq<Payload>, b: seq<Payload>)
    ensures Tags(k, a) + Tags(k, b) == Tags(k, a + b)
  {
  }

  lemma HistoryOf(link: Link, k: ServerId, arrived: seq<Arrival>, me: ClientId, t: Token)
    requires ChannelOk(link, k, arrived, me)
    requires forall i :: 0 <= i < |arrived| && arrived[i].token == t ==> arrived[i].message.server == k
    ensures Of(arrived, t) + Tags(k, Stream(link.down, me, t)) == Tags(k, Stream(link.server.sent, me, t))
  {
    OfOneServer(arrived, k, me, t);
    ChannelStream(link, k, arrived, me, t);
    TagsConcat(k, Stream(ReadFrom(arrived, k, me), me, t), Stream(link.down, me, t));
  }

  lemma IssuedChannel(sys: System, me: ClientId, t: Token)
    requires Inv(sys, me) && t in sys.issued
    ensures sys.issued[t].0 in sys.links
    ensures ChannelOk(sys.links[sys.issued[t].0], sys.issued[t].0, sys.arrived, me)
  {
  }

  lemma TokenAttributed(sys: System, me: ClientId, t: Token)
    requires Inv(sys, me) && t in sys.issued
    ensures forall i :: 0 <= i < |sys.arrived| && sys.arrived[i].token == t ==>
      sys.arrived[i].message.server == sys.issued[t].0
  {
    forall i | 0 <= i < |sys.arrived| && sys.arrived[i].token == t
      ensures sys.arrived[i].message.server == sys.issued[t].0
    {
      ArrivalAttributed(sys, me, i);
    }
  }

  /**
   The messages received under a token, followed by those in its server's channel, are all
   that this server sent under it, in order, and all carry its socket.
   */
  lemma TokenHistory(sys: System, me: ClientId, t: Token)
    requires Inv(sys, me) && t in sys.issued
    ensures var k := sys.issued[t].0;
            && k in sys.links
            && Of(sys.arrived, t) + Tags(k, Stream(sys.links[k].down, me, t))
               == Tags(k, Stream(sys.links[k].server.sent, me, t))
  {
    IssuedChannel(sys, me, t);
    TokenAttributed(sys, me, t);
    HistoryOf(sys.links[sys.issued[t].0], sys.issued[t].0, sys.arrived, me, t);
  }

  /** A call of any other answered kind is answered at most once, with its own answer and by the server it was sent to. */
  lemma OtherAnswered(sys: System, me: ClientId, t: Token)
    requires Inv(sys, me) && t in sys.issued && sys.issued[t].1.Other?
    ensures var (k, r) := sys.issued[t];
      Of(sys.arrived, t) == [] || Of(sys.arrived, t) == [Message(k, Answer(r.name))]
  {
    var k := sys.issued[t].0;
    TokenHistory(sys, me, t);
    OtherStream(sys, me, t);
    OnlyOne(Of(sys.arrived, t), Tags(k, Stream(sys.links[k].down, me, t)), k, sys.issued[t].1.name,
            Stream(sys.links[k].server.sent, me, t));
  }

  lemma OtherStream(sys: System, me: ClientId, t: Token)
    requires Inv(sys, me) && t in sys.issued && sys.issued[t].1.Other?
    ensures var (k, r) := sys.issued[t];
      && k in sys.links
      && var stream := Stream(sys.links[k].server.sent, me, t);
         stream == [] || stream == [Answer(r.name)]
  {
    var k := sys.issued[t].0;
    assert LinkOk(sys.links[k], k, sys.issued, me);
    assert TokenOk(sys.links[k], k, sys.issued, me, t);
  }

  lemma OnlyOne(had: seq<Message>, coming: seq<Message>, k: ServerId, name: string, stream: seq<Payload>)
    requires had + coming == Tags(k, stream) && (stream == [] || stream == [Answer(name)])
    ensures had == [] || had == [Message(k, Answer(name))]
  {
    if had != [] {
      assert (had + coming)[0] == had[0];
    }
  }

  // ----- The list comes first, and completions answer it -----

  /** What a server may have sent so far under the token of a `write_chunks` request. */
  ghost predicate WriteStream(s: Server, me: ClientId, t: Token, stream: seq<Payload>) {
    stream != [] ==>
      && s.drained <= |s.log|
      && stream[0].ChunkList?
      && ListMatches(s.requests, me, t, stream[0].replies)
      && stream[1..] == Payloads(Delivered(s, me, t))
  }

  lemma WriteTokenStream(sys: System, me: ClientId, t: Token)
    requires Inv(sys, me) && t in sys.issued && sys.issued[t].1.WriteChunks?
    ensures var k := sys.issued[t].0;
            && k in sys.links && LogSound(sys.links[k].server)
            && WriteStream(sys.links[k].server, me, t, Stream(sys.links[k].server.sent, me, t))
  {
    var k := sys.issued[t].0;
    assert LinkOk(sys.links[k], k, sys.issued, me);
    assert TokenOk(sys.links[k], k, sys.issued, me, t);
  }

  /** The replies of the completions among the payloads after the first. */
  function CompletionKeys(messages: seq<Message>): (r: seq<ChunkKey>)
    requires forall i :: 1 <= i < |messages| ==> messages[i].payload.WriteDone?
  {
    seq(if messages == [] then 0 else |messages| - 1,
        i requires 0 <= i < |messages| - 1 => KeyOf(messages[i + 1].payload.reply))
  }

  /** Messages that are a first part of a token's stream have the shape the client relies on. */
  lemma PrefixShape(s: Server, k: ServerId, me: ClientId, t: Token, stream: seq<Payload>, had: seq<Message>)
    requires WriteStream(s, me, t, stream) && had <= Tags(k, stream)
    ensures C.ListFirst(had)
    ensures forall i :: 0 <= i < |had| ==> had[i].server == k
    ensures had != [] ==>
      var ds := Delivered(s, me, t);
      |had| <= 1 + |ds| && CompletionKeys(had) == DoneKeys(ds)[..|had| - 1]
  {
    if had != [] {
      var ds := Delivered(s, me, t);
      assert had[0] == Tags(k, stream)[0];
      forall i | 1 <= i < |had|
        ensures i <= |ds| && had[i] == Message(k, WriteDone(ds[i - 1].entry.reply))
      {
        StreamAt(s, k, me, t, stream, i);
        assert had[i] == Tags(k, stream)[i];
      }
    }
  }

  /** After the list come the completions sent so far. */
  lemma StreamAt(s: Server, k: ServerId, me: ClientId, t: Token, stream: seq<Payload>, i: nat)
    requires WriteStream(s, me, t, stream) && 1 <= i < |stream|
    ensures i <= |Delivered(s, me, t)|
    ensures Tags(k, stream)[i] == Message(k, WriteDone(Delivered(s, me, t)[i - 1].entry.reply))
  {
    assert stream[i] == stream[1..][i - 1];
  }

  lemma PrefixMultiset(a: seq<ChunkKey>, n: nat)
    requires n <= |a|
    ensures multiset(a[..n]) <= multiset(a)
  {
    assert a == a[..n] + a[n..];
  }

  lemma StreamAnswersList(s: Server, me: ClientId, t: Token, stream: seq<Payload>)
    requires LogSound(s) && WriteStream(s, me, t, stream) && stream != []
    ensures var ds, list := Delivered(s, me, t), stream[0].replies;
      multiset(DoneKeys(ds)) <= multiset(ListKeys(list)) && |ds| <= |list|
  {
    CompletionsMatchList(s, me, t, stream[0].replies);
  }

  lemma PrefixAnswers(ds: seq<Done>, list: seq<WriteReply>, keys: seq<ChunkKey>, n: nat)
    requires multiset(DoneKeys(ds)) <= multiset(ListKeys(list)) && |ds| <= |list|
    requires n <= |ds| && keys == DoneKeys(ds)[..n]
    ensures multiset(keys) <= multiset(ListKeys(list)) && n <= |list|
  {
    PrefixMultiset(DoneKeys(ds), n);
  }

  lemma RunHistory(run: seq<System>, me: ClientId, i: nat, t: Token)
    requires IsRun(run, me) && i < |run| && t in run[i].issued && run[i].issued[t].1.WriteChunks?
    ensures var k := run[i].issued[t].0;
      && k in run[i].links && LogSound(run[i].links[k].server)
      && WriteStream(run[i].links[k].server, me, t, Stream(run[i].links[k].server.sent, me, t))
      && Of(run[i].arrived, t) <= Tags(k, Stream(run[i].links[k].server.sent, me, t))
  {
    RunInv(run, me, i);
    TokenHistory(run[i], me, t);
    WriteTokenStream(run[i], me, t);
  }

  /** A reply among the keys of a list is about one of its entries: the same beam, samples and file. */
  predicate InListing(r: WriteReply, list: seq<WriteReply>) {
    exists n :: 0 <= n < |list| && r.beam == list[n].beam && r.fpga0 == list[n].fpga0 && r.fpgaN == list[n].fpgaN
      && r.filename == list[n].filename
  }

  lemma KeyListed(r: WriteReply, keys: seq<ChunkKey>, list: seq<WriteReply>)
    requires KeyOf(r) in keys && multiset(keys) <= multiset(ListKeys(list))
    ensures InListing(r, list)
  {
    assert KeyOf(r) in multiset(keys);
    assert KeyOf(r) in multiset(ListKeys(list));
    var n :| 0 <= n < |list| && ListKeys(list)[n] == KeyOf(r);
    KeyExact(r, list[n]);
  }

  /**
   In every run, what the client has received under the token of a `write_chunks` request is a
   list followed by completions, all from the server the request went to, and the completions
   map injectively to list entries of the same beam, fpga0, fpgaN and filename.
   */
  lemma ListThenCompletions(run: seq<System>, me: ClientId, i: nat, t: Token)
    requires IsRun(run, me) && i < |run| && t in run[i].issued && run[i].issued[t].1.WriteChunks?
    ensures var had := Of(run[i].arrived, t);
      && C.ListFirst(had)
      && (forall j :: 0 <= j < |had| ==> had[j].server == run[i].issued[t].0)
      && (had != [] ==>
            && multiset(CompletionKeys(had)) <= multiset(ListKeys(had[0].payload.replies))
            && |had| <= 1 + |had[0].payload.replies|
            && forall j :: 1 <= j < |had| ==> InListing(had[j].payload.reply, had[0].payload.replies))
  {
    RunHistory(run, me, i, t);
    var sys := run[i];
    var k, had := sys.issued[t].0, Of(sys.arrived, t);
    var s := sys.links[k].server;
    PrefixShape(s, k, me, t, Stream(s.sent, me, t), had);
    if had != [] {
      var stream := Stream(s.sent, me, t);
      assert had[0] == Tags(k, stream)[0];
      StreamAnswersList(s, me, t, stream);
      PrefixAnswers(Delivered(s, me, t), stream[0].replies, CompletionKeys(had), |had| - 1);
      forall j | 1 <= j < |had|
        ensures InListing(had[j].payload.reply, had[0].payload.replies)
      {
        assert CompletionKeys(had)[j - 1] == KeyOf(had[j].payload.reply);
        KeyListed(had[j].payload.reply, CompletionKeys(had), had[0].payload.replies);
      }
    }
  }

  // ----- End to end -----

  /** The call returned exactly the completions of the listed chunks and left nothing behind. */
  ghost predicate Exact(sys: System, me: ClientId, k: ServerId, t: Token, list: seq<WriteReply>,
                        group: seq<C.Attributed>, left: seq<Message>)
    requires k in sys.links
  {
    var s := sys.links[k].server;
    && s.drained <= |s.log|
    && ListMatches(s.requests, me, t, list)
    && group == Completed(k, Delivered(s, me, t))
    && multiset(GroupKeys(group)) == multiset(ListKeys(list))
    && left == []
    && Stream(sys.links[k].down, me, t) == []
  }

  /** Completions in the order their server's queue had them. */
  function Completed(k: ServerId, ds: seq<Done>): (r: seq<C.Attributed>)
    ensures |r| == |ds|
  {
    seq(|ds|, i requires 0 <= i < |ds| => C.Attributed(k, ds[i].entry.reply))
  }

  function GroupKeys(group: seq<C.Attributed>): (r: seq<ChunkKey>)
    ensures |r| == |group|
  {
    seq(|group|, i requires 0 <= i < |group| => KeyOf(group[i].reply))
  }

  /** A group counted off against its list is the front of the server's completions. */
  lemma SettledPrefix(s: Server, k: ServerId, me: ClientId, t: Token, stream: seq<Payload>,
                      had: seq<Message>, left: seq<Message>, list: seq<WriteReply>, group: seq<C.Attributed>)
    requires WriteStream(s, me, t, stream) && had <= Tags(k, stream)
    requires C.Settled(had, left, Some(list), group)
    ensures stream != [] && stream[0] == ChunkList(list)
    ensures |group| <= |Delivered(s, me, t)| && group == Completed(k, Delivered(s, me, t)[..|group|])
  {
    var ds := Delivered(s, me, t);
    assert had[0] == Tags(k, stream)[0];
    forall i | 0 <= i < |group|
      ensures i < |ds| && group[i] == C.Attributed(k, ds[i].entry.reply)
    {
      assert C.IsCompletion(had[i + 1], group[i]);
      assert had[i + 1] == Tags(k, stream)[i + 1];
      StreamAt(s, k, me, t, stream, i + 1);
    }
  }

  /** A group as long as its list takes everything the server has sent or will send. */
  lemma SettledFull(s: Server, k: ServerId, me: ClientId, t: Token, stream: seq<Payload>,
                    had: seq<Message>, left: seq<Message>, list: seq<WriteReply>, group: seq<C.Attributed>)
    requires LogSound(s) && WriteStream(s, me, t, stream) && had <= Tags(k, stream)
    requires C.Settled(had, left, Some(list), group) && |group| == |list|
    ensures s.drained <= |s.log| && ListMatches(s.requests, me, t, list)
    ensures had == Tags(k, stream) && left == []
    ensures group == Completed(k, Delivered(s, me, t))
    ensures multiset(GroupKeys(group)) == multiset(ListKeys(list))
  {
    var ds := Delivered(s, me, t);
    SettledPrefix(s, k, me, t, stream, had, left, list, group);
    CompletionsMatchList(s, me, t, list);
    assert |stream[1..]| == |ds|;
    assert ds[..|group|] == ds;
    assert GroupKeys(group) == DoneKeys(ds);
  }

  /** If no wait came back empty-handed, the outcome of a token is exact. */
  lemma OutcomeExact(sys: System, me: ClientId, t: Token, had: seq<Message>, left: seq<Message>,
                     list: seq<WriteReply>, group: seq<C.Attributed>)
    requires Inv(sys, me) && t in sys.issued && sys.issued[t].1.WriteChunks?
    requires had <= Of(sys.arrived, t)
    requires C.Settled(had, left, Some(list), group) && |group| == |list|
    ensures sys.issued[t].0 in sys.links
    ensures Exact(sys, me, sys.issued[t].0, t, list, group, left)
    ensures Of(sys.arrived, t) == had
  {
    var k := sys.issued[t].0;
    TokenHistory(sys, me, t);
    WriteTokenStream(sys, me, t);
    var s, down := sys.links[k].server, Stream(sys.links[k].down, me, t);
    var stream := Stream(s.sent, me, t);
    SettledFull(s, k, me, t, stream, had, left, list, group);
    assert |had| <= |Of(sys.arrived, t)| && |Of(sys.arrived, t)| + |Tags(k, down)| == |stream|;
  }
}
