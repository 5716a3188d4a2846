/**
 Which chunks are written: in every run the list a client receives names, chunk by chunk, what
 the ring buffers of all beams held when its request was accepted.
 */
module WrittenChunks {
  import opened Sequences
  import opened WriteServer
  import opened TokenStreams
  import opened ClientBuffer
  import opened WriteSystem
  import opened WriteGuarantees

  /** At step `i` server `k` accepts the client's `write_chunks` request, the ring buffers holding `snapshot`. */
  ghost predicate AcceptsAt(run: seq<System>, me: ClientId, i: nat, k: ServerId, t: Token, snapshot: seq<seq<Chunk>>) {
    && i + 1 < |run| && Ready(run[i], me, ServerStep(k, Accept(me, WriteChunks(t), snapshot)))
    && run[i + 1] == Next(run[i], me, ServerStep(k, Accept(me, WriteChunks(t), snapshot)))
  }

  /** The request is being handled, or its list has been sent. */
  ghost predicate Active(s: Server, me: ClientId, t: Token) {
    InHand(s, me, t) || ListedAny(s, me, t)
  }

  lemma QuietIsIdle(s: Server, me: ClientId, t: Token)
    ensures Quiet(s, me, t) && (Stream(s.sent, me, t) == [] || !Stream(s.sent, me, t)[0].ChunkList?) ==> !Active(s, me, t)
  {
  }

  /** A request that is not handled has left no trace that an event could continue. */
  lemma IdleKind(link: Link, k: ServerId, issued: Issued, me: ClientId, t: Token)
    requires TokenOk(link, k, issued, me, t) && !Active(link.server, me, t)
    ensures Quiet(link.server, me, t)
    ensures Stream(link.server.sent, me, t) == [] || !Stream(link.server.sent, me, t)[0].ChunkList?
  {
  }

  /** An event that does not accept the token's request neither begins handling it nor changes what is asked for. */
  lemma ActiveBefore(link: Link, k: ServerId, issued: Issued, me: ClientId, ev: Event, t: Token)
    requires LinkOk(link, k, issued, me) && LinkReady(link, me, ev) && !Accepts(ev, me, t)
    requires Active(Apply(link.server, ev), me, t)
    ensures Active(link.server, me, t)
    ensures Asked(Apply(link.server, ev), me, t) == Asked(link.server, me, t)
  {
    var s := link.server;
    AskedKept(s, ev, me, t);
    assert TokenOk(link, k, issued, me, t);
    if !Active(s, me, t) {
      IdleKind(link, k, issued, me, t);
      QuietStep(s, ev, me, t);
      QuietIsIdle(Apply(s, ev), me, t);
    }
  }

  /** Only a `write_chunks` request is handled after it has been accepted, and it asks for the snapshot. */
  lemma ActiveAccepted(link: Link, k: ServerId, issued: Issued, me: ClientId, ev: Event, t: Token)
    requires LinkOk(link, k, issued, me) && LinkReady(link, me, ev) && Accepts(ev, me, t)
    requires Active(Apply(link.server, ev), me, t)
    ensures ev == Accept(me, WriteChunks(t), ev.snapshot)
    ensures Asked(Apply(link.server, ev), me, t) == Joined(ev.snapshot)
  {
    var s := link.server;
    assert TokenOk(link, k, issued, me, t);
    assert link.up[0].token == t;
    AcceptStep(s, ev, me, t);
    QuietIsIdle(Apply(s, ev), me, t);
    AcceptAsked(s, ev, me, t);
  }

  /** One event: either it accepts the request, or what is asked for was asked for before. */
  lemma AskedStep(run: seq<System>, me: ClientId, n: nat, k: ServerId, t: Token, e: SystemEvent)
    requires n + 1 < |run| && Inv(run[n], me) && Ready(run[n], me, e) && run[n + 1] == Next(run[n], me, e)
    requires k in run[n].links && Active(run[n + 1].links[k].server, me, t)
    ensures var asked := Asked(run[n + 1].links[k].server, me, t);
      if e.ServerStep? && e.server == k && Accepts(e.event, me, t)
      then AcceptsAt(run, me, n, k, t, e.event.snapshot) && asked == Joined(e.event.snapshot)
      else Active(run[n].links[k].server, me, t) && asked == Asked(run[n].links[k].server, me, t)
  {
    var link := run[n].links[k];
    assert LinkOk(link, k, run[n].issued, me);
    if e.ServerStep? && e.server == k {
      if Accepts(e.event, me, t) {
        ActiveAccepted(link, k, run[n].issued, me, e.event, t);
      } else {
        ActiveBefore(link, k, run[n].issued, me, e.event, t);
      }
    }
  }

  /** One step of a run: it accepts the request, or what is asked for was asked for before. */
  lemma StepAsked(run: seq<System>, me: ClientId, n: nat, k: ServerId, t: Token)
    returns (accepts: bool, snapshot: seq<seq<Chunk>>)
    requires IsRun(run, me) && n + 1 < |run| && k in run[n + 1].links && Active(run[n + 1].links[k].server, me, t)
    ensures k in run[n].links
    ensures accepts ==> AcceptsAt(run, me, n, k, t, snapshot) && Asked(run[n + 1].links[k].server, me, t) == Joined(snapshot)
    ensures !accepts ==>
      Active(run[n].links[k].server, me, t)
      && Asked(run[n + 1].links[k].server, me, t) == Asked(run[n].links[k].server, me, t)
  {
    var e := EventOf(run, me, n);
    AskedStep(run, me, n, k, t, e);
    accepts := e.ServerStep? && e.server == k && Accepts(e.event, me, t);
    snapshot := if accepts then e.event.snapshot else [];
  }

  /** Throughout every run, what a server handles or has listed is what its ring buffers held on accepting it. */
  lemma {:induction false} RunAsked(run: seq<System>, me: ClientId, n: nat, k: ServerId, t: Token)
    returns (i: nat, snapshot: seq<seq<Chunk>>)
    requires IsRun(run, me) && n < |run| && k in run[n].links && Active(run[n].links[k].server, me, t)
    ensures i < n && AcceptsAt(run, me, i, k, t, snapshot) && Asked(run[n].links[k].server, me, t) == Joined(snapshot)
    decreases n
  {
    BeginsIdle(run, me, k, t);
    var accepts;
    accepts, snapshot := StepAsked(run, me, n - 1, k, t);
    i := n - 1;
    if !accepts { i, snapshot := RunAsked(run, me, n - 1, k, t); }
  }

  lemma BeginsIdle(run: seq<System>, me: ClientId, k: ServerId, t: Token)
    requires IsRun(run, me)
    ensures k in run[0].links ==> !Active(run[0].links[k].server, me, t)
  {
    if k in run[0].links { NothingYet(run[0].links[k].server, me, t); }
  }

  lemma EventOf(run: seq<System>, me: ClientId, n: nat) returns (e: SystemEvent)
    requires IsRun(run, me) && n + 1 < |run|
    ensures Inv(run[n], me) && Ready(run[n], me, e) && run[n + 1] == Next(run[n], me, e)
    ensures forall k :: k in run[n + 1].links ==> k in run[n].links
  {
    RunInv(run, me, n);
    assert StepAt(run, me, n);
    e :| Ready(run[n], me, e) && run[n + 1] == Next(run[n], me, e);
  }

  lemma NothingYet(s: Server, me: ClientId, t: Token)
    ensures s == INITIAL ==> !Active(s, me, t)
  {
  }

  /** A stream that is not empty begins with the list of an active request. */
  lemma StreamListed(sys: System, me: ClientId, t: Token)
    requires Inv(sys, me) && t in sys.issued && sys.issued[t].1.WriteChunks?
    ensures var k := sys.issued[t].0;
      && k in sys.links
      && (Stream(sys.links[k].server.sent, me, t) != [] ==> ListedAny(sys.links[k].server, me, t))
  {
    var k := sys.issued[t].0;
    assert LinkOk(sys.links[k], k, sys.issued, me);
    assert TokenOk(sys.links[k], k, sys.issued, me, t);
  }

  lemma FirstIsList(sys: System, me: ClientId, t: Token)
    requires Inv(sys, me) && t in sys.issued && sys.issued[t].1.WriteChunks? && Of(sys.arrived, t) != []
    ensures var k := sys.issued[t].0;
      && k in sys.links && Of(sys.arrived, t)[0].payload.ChunkList?
      && Listed(sys.links[k].server, me, t, Of(sys.arrived, t)[0].payload.replies)
      && Active(sys.links[k].server, me, t)
  {
    var k := sys.issued[t].0;
    StreamListed(sys, me, t);
    TokenHistory(sys, me, t);
    HeadOf(Of(sys.arrived, t), Tags(k, Stream(sys.links[k].down, me, t)), k, Stream(sys.links[k].server.sent, me, t));
  }

  lemma HeadOf(had: seq<Message>, coming: seq<Message>, k: ServerId, stream: seq<Payload>)
    requires had != [] && had + coming == Tags(k, stream)
    ensures stream != [] && had[0].payload == stream[0]
  {
    assert (had + coming)[0] == had[0];
  }

  /**
   The list received under a `write_chunks` token names exactly the chunks, beam after beam, that
   the ring buffers held at the step at which the server accepted the request.
   */
  lemma ListNamesSnapshot(run: seq<System>, me: ClientId, n: nat, t: Token)
    returns (i: nat, snapshot: seq<seq<Chunk>>, chunks: seq<Chunk>, starts: seq<nat>)
    requires IsRun(run, me) && n < |run| && t in run[n].issued && run[n].issued[t].1.WriteChunks?
    requires Of(run[n].arrived, t) != []
    ensures i < n && AcceptsAt(run, me, i, run[n].issued[t].0, t, snapshot)
    ensures InPieces(chunks, snapshot, starts)
    ensures var list := Of(run[n].arrived, t)[0].payload;
      list.ChunkList? && Names(list.replies, chunks)
  {
    RunInv(run, me, n);
    FirstIsList(run[n], me, t);
    var k := run[n].issued[t].0;
    i, snapshot := RunAsked(run, me, n, k, t);
    chunks := Asked(run[n].links[k].server, me, t);
    ListedNames(run[n].links[k].server, me, t, Of(run[n].arrived, t)[0].payload.replies);
    starts := JoinedIsPieces(snapshot);
  }

  /** So a completion is about one of these chunks, and names the file its list entry named. */
  lemma CompletionNamesSnapshot(run: seq<System>, me: ClientId, n: nat, t: Token, j: nat)
    returns (i: nat, snapshot: seq<seq<Chunk>>, chunks: seq<Chunk>, starts: seq<nat>, at: nat)
    requires IsRun(run, me) && n < |run| && t in run[n].issued && run[n].issued[t].1.WriteChunks?
    requires 1 <= j < |Of(run[n].arrived, t)|
    ensures i < n && AcceptsAt(run, me, i, run[n].issued[t].0, t, snapshot) && InPieces(chunks, snapshot, starts)
    ensures var list, reply := Of(run[n].arrived, t)[0].payload, Of(run[n].arrived, t)[j].payload;
      && list.ChunkList? && reply.WriteDone? && at < |chunks| == |list.replies|
      && Describes(reply.reply, chunks[at]) && reply.reply.filename == list.replies[at].filename
  {
    i, snapshot, chunks, starts := ListNamesSnapshot(run, me, n, t);
    ListThenCompletions(run, me, n, t);
    var list, reply := Of(run[n].arrived, t)[0].payload.replies, Of(run[n].arrived, t)[j].payload.reply;
    assert InListing(reply, list);
    at :| 0 <= at < |list| && reply.beam == list[at].beam && reply.fpga0 == list[at].fpga0
      && reply.fpgaN == list[at].fpgaN && reply.filename == list[at].filename;
    assert Describes(list[at], chunks[at]);
  }
}
