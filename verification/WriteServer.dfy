/**
 The L1 RPC server's asynchronous chunk-writing path as a state machine.

 One server thread drains the backend queue and then handles at most one request; the
 I/O threads report status changes at any moment in between.  Every field a lock protects
 changes in one event, so a run of events is one interleaving of the server thread, the
 I/O threads and any number of clients.

 `log`, `drained` and `sent` are history: `log` is every completion in the order the queue's
 lock was taken, `drained` how many of them the server thread has popped, and `sent` every
 packet sent on the frontend socket.
 */
module WriteServer {
  import opened Sequences
  import opened Wrappers

  type ClientId = nat
  type Token = nat

  const TOKEN_LIMIT: nat := 0x1_0000_0000
  const UINT64_LIMIT: nat := 0x1_0000_0000_0000_0000

  datatype Chunk = Chunk(beam: nat, fpgaBegin: nat, fpgaEnd: nat)

  datatype WriteReply = WriteReply(beam: nat, fpga0: nat, fpgaN: nat, filename: string, success: bool, error: string)

  /** What identifies a chunk in a reply, whatever the outcome of its write. */
  datatype ChunkKey = ChunkKey(beam: nat, fpga0: nat, fpgaN: nat, filename: string)

  function KeyOf(r: WriteReply): ChunkKey {
    ChunkKey(r.beam, r.fpga0, r.fpgaN, r.filename)
  }

  /** A request queued with the I/O pool; no reply is sent when `client` is absent. */
  datatype WriteRequest = WriteRequest(client: Option<ClientId>, token: Token, chunk: Chunk, filename: string)

  /** How far the I/O thread has come: `Reporting` is between the two locks of status_changed. */
  datatype Progress =
    | Active
    | Reporting(success: bool, state: string, error: string)
    | Reported(success: bool, state: string, error: string)

  datatype Entry = Entry(client: Option<ClientId>, token: Token, reply: WriteReply)

  datatype Done = Done(id: nat, entry: Entry)

  datatype Payload =
    | ChunkList(replies: seq<WriteReply>)
    | WriteDone(reply: WriteReply)
    | WriteStatus(status: string, error: string)
    | Answer(name: string)

  datatype Packet = Packet(client: ClientId, token: Token, payload: Payload)

  /**
   `Other` stands for the other calls that are answered, of whose answers only the call's name is
   kept; `Unanswered` for those that are not, and for a message that is malformed, unknown, or
   makes the handler throw at once.
   */
  datatype Request =
    | WriteChunks(token: Token)
    | GetWriteChunkStatus(token: Token, filename: string)
    | Other(token: Token, name: string)
    | Unanswered(token: Token)

  datatype Pc =
    | Draining
    | Receiving
    | Handling(client: ClientId, token: Token, todo: seq<Chunk>, replies: seq<WriteReply>)

  datatype Server = Server(
    requests: seq<WriteRequest>,
    progress: seq<Progress>,
    status: map<string, (string, string)>,
    queue: seq<Entry>,
    log: seq<Done>,
    drained: nat,
    pc: Pc,
    sent: seq<Packet>)

  const INITIAL := Server([], [], map[], [], [], 0, Draining, [])

  function ReplyFor(chunk: Chunk, filename: string, success: bool, error: string): WriteReply {
    WriteReply(chunk.beam, chunk.fpgaBegin, (chunk.fpgaEnd - chunk.fpgaBegin) % UINT64_LIMIT, filename, success, error)
  }

  /** The reply gives the chunk's beam, where its samples begin and, in 64 bits, how many there are. */
  predicate Describes(r: WriteReply, chunk: Chunk) {
    && r.beam == chunk.beam && r.fpga0 == chunk.fpgaBegin
    && r.fpgaN < UINT64_LIMIT && (r.fpgaN - (chunk.fpgaEnd - chunk.fpgaBegin)) % UINT64_LIMIT == 0
    && (chunk.fpgaBegin <= chunk.fpgaEnd < UINT64_LIMIT ==> r.fpgaN == chunk.fpgaEnd - chunk.fpgaBegin)
  }

  lemma ReplyDescribes(chunk: Chunk, filename: string, success: bool, error: string)
    ensures var r := ReplyFor(chunk, filename, success, error);
      Describes(r, chunk) && r.filename == filename && r.success == success && r.error == error
  {
    var d := chunk.fpgaEnd - chunk.fpgaBegin;
    assert d == d / UINT64_LIMIT * UINT64_LIMIT + d % UINT64_LIMIT;
    assert d % UINT64_LIMIT - d == -(d / UINT64_LIMIT) * UINT64_LIMIT;
  }

  /** A reply describes at most one combination of beam, beginning and number. */
  lemma KeyExact(a: WriteReply, b: WriteReply)
    ensures KeyOf(a) == KeyOf(b) <==>
      a.beam == b.beam && a.fpga0 == b.fpga0 && a.fpgaN == b.fpgaN && a.filename == b.filename
  {
  }

  /** A reply with a request's key describes its chunk and names its file. */
  lemma KeyDescribes(r: WriteReply, w: WriteRequest)
    requires KeyOf(r) == KeyOfRequest(w)
    ensures Describes(r, w.chunk) && r.filename == w.filename
  {
    var own := ReplyFor(w.chunk, w.filename, true, "");
    ReplyDescribes(w.chunk, w.filename, true, "");
    KeyExact(r, own);
  }

  function KeyOfRequest(w: WriteRequest): ChunkKey {
    KeyOf(ReplyFor(w.chunk, w.filename, true, ""))
  }

  function Lookup(status: map<string, (string, string)>, filename: string): (string, string) {
    if filename in status then status[filename] else ("UNKNOWN", "")
  }

  // ----- Events -----

  datatype Event =
    | QueueEmpty
    | Dequeue
    | NoRequest
    | Accept(client: ClientId, request: Request, snapshot: seq<seq<Chunk>>)
    | Submit(filename: string, accepted: bool)
    | SendList
    | SubmitLocal(chunk: Chunk, filename: string)
    | StatusChange(id: nat, state: string, error: string)
    | Finish(id: nat, success: bool, state: string, error: string)
    | Enqueue(id: nat)

  predicate Enabled(s: Server, e: Event) {
    match e
    case QueueEmpty => s.pc.Draining? && s.queue == []
    case Dequeue => s.pc.Draining? && s.queue != []
    case NoRequest => s.pc.Receiving?
    case Accept(_, _, _) => s.pc.Receiving?
    case Submit(_, _) => s.pc.Handling? && s.pc.todo != []
    case SendList => s.pc.Handling? && s.pc.todo == []
    case SubmitLocal(_, _) => true
    case StatusChange(id, _, _) => id < |s.requests| && id < |s.progress| && s.progress[id].Active?
    case Finish(id, _, _, _) => id < |s.requests| && id < |s.progress| && s.progress[id].Active?
    case Enqueue(id) => id < |s.requests| && id < |s.progress| && s.progress[id].Reporting?
  }

  /**
   The server's thread never waits: it looks at the queue, then takes whatever request there is or
   none, and goes on with a request in hand whatever the I/O threads answer.
   */
  lemma ThreadNeverWaits(s: Server, client: ClientId, request: Request, snapshot: seq<seq<Chunk>>, filename: string,
                         accepted: bool)
    ensures s.pc.Draining? ==> Enabled(s, if s.queue == [] then QueueEmpty else Dequeue)
    ensures s.pc.Receiving? ==> Enabled(s, NoRequest) && Enabled(s, Accept(client, request, snapshot))
    ensures s.pc.Handling? ==> Enabled(s, if s.pc.todo == [] then SendList else Submit(filename, accepted))
  {
  }

  /**
   Whatever the server's thread does, any file may be given to the I/O threads, and they may report
   on every request until it is finished, finish it with any outcome, and then put it in the queue.
   */
  lemma WritersNeverWait(s: Server, id: nat, chunk: Chunk, filename: string, success: bool, state: string, error: string)
    ensures Enabled(s, SubmitLocal(chunk, filename))
    ensures id < |s.requests| && id < |s.progress| && s.progress[id].Active? ==>
      Enabled(s, StatusChange(id, state, error)) && Enabled(s, Finish(id, success, state, error))
    ensures id < |s.requests| && id < |s.progress| && s.progress[id].Reporting? ==> Enabled(s, Enqueue(id))
  {
  }

  function EntryFor(w: WriteRequest, p: Progress): Entry
    requires !p.Active?
  {
    Entry(w.client, w.token, ReplyFor(w.chunk, w.filename, p.success, p.error))
  }

  function PacketsFor(e: Entry): seq<Packet> {
    match e.client
    case None => []
    case Some(c) => [Packet(c, e.token, WriteDone(e.reply))]
  }

  function SubmitRequest(s: Server, w: WriteRequest): Server {
    s.(requests := s.requests + [w], progress := s.progress + [Active])
  }

  function AcceptRequest(s: Server, client: ClientId, request: Request, snapshot: seq<seq<Chunk>>): Server {
    if request.token >= TOKEN_LIMIT then s.(pc := Draining) else
    match request
    case WriteChunks(t) => s.(pc := Handling(client, t, Joined(snapshot), []))
    case GetWriteChunkStatus(t, filename) =>
      var (status, error) := Lookup(s.status, filename);
      s.(pc := Draining, sent := s.sent + [Packet(client, t, WriteStatus(status, error))])
    case Other(t, name) => s.(pc := Draining, sent := s.sent + [Packet(client, t, Answer(name))])
    case Unanswered(_) => s.(pc := Draining)
  }

  function Apply(s: Server, e: Event): Server
    requires Enabled(s, e)
  {
    match e
    case QueueEmpty => s.(pc := Receiving)
    case Dequeue => s.(queue := s.queue[1..], drained := s.drained + 1, sent := s.sent + PacketsFor(s.queue[0]))
    case NoRequest => s.(pc := Draining)
    case Accept(client, request, snapshot) => AcceptRequest(s, client, request, snapshot)
    case Submit(filename, accepted) =>
      var chunk := s.pc.todo[0];
      SubmitRequest(s, WriteRequest(Some(s.pc.client), s.pc.token, chunk, filename))
      .(pc := s.pc.(todo := s.pc.todo[1..], replies := s.pc.replies + [ReplyFor(chunk, filename, accepted, "")]))
    case SendList => s.(pc := Draining, sent := s.sent + [Packet(s.pc.client, s.pc.token, ChunkList(s.pc.replies))])
    case SubmitLocal(chunk, filename) => SubmitRequest(s, WriteRequest(None, 0, chunk, filename))
    case StatusChange(id, state, error) => s.(status := s.status[s.requests[id].filename := (state, error)])
    case Finish(id, success, state, error) =>
      s.(status := s.status[s.requests[id].filename := (state, error)],
         progress := s.progress[id := Reporting(success, state, error)])
    case Enqueue(id) =>
      var entry := EntryFor(s.requests[id], s.progress[id]);
      var p := s.progress[id];
      s.(queue := s.queue + [entry], log := s.log + [Done(id, entry)],
         progress := s.progress[id := Reported(p.success, p.state, p.error)])
  }

  // ----- The queue refines the log -----

  function Entries(log: seq<Done>): (r: seq<Entry>)
    ensures |r| == |log|
  {
    seq(|log|, i requires 0 <= i < |log| => log[i].entry)
  }

  /** The packets the drained part of the log must have produced. */
  function Outgoing(log: seq<Done>): seq<Packet> {
    if log == [] then [] else Outgoing(log[..|log| - 1]) + PacketsFor(log[|log| - 1].entry)
  }

  /** The completion packets among everything sent. */
  function CompletionsSent(sent: seq<Packet>): seq<Packet> {
    if sent == [] then [] else
    var before, last := CompletionsSent(sent[..|sent| - 1]), sent[|sent| - 1];
    if last.payload.WriteDone? then before + [last] else before
  }

  lemma CompletionsSentAppend(sent: seq<Packet>, p: Packet)
    ensures CompletionsSent(sent + [p]) == CompletionsSent(sent) + if p.payload.WriteDone? then [p] else []
  {
    assert (sent + [p])[..|sent|] == sent;
  }

  // ----- Invariants -----

  ghost predicate SoleUser(s: Server, id: nat)
    requires id < |s.requests|
  {
    forall j :: 0 <= j < |s.requests| && s.requests[j].filename == s.requests[id].filename ==> j == id
  }

  ghost predicate LoggedOk(s: Server, d: Done)
    requires |s.progress| == |s.requests|
  {
    d.id < |s.requests| && s.progress[d.id].Reported? && d.entry == EntryFor(s.requests[d.id], s.progress[d.id])
  }

  ghost predicate LogOk(s: Server)
    requires |s.progress| == |s.requests|
  {
    && (forall n :: 0 <= n < |s.log| ==> LoggedOk(s, s.log[n]))
    && (forall m, n :: 0 <= m < n < |s.log| ==> s.log[m].id != s.log[n].id)
    && (forall id :: 0 <= id < |s.requests| && s.progress[id].Reported? ==>
          exists n :: 0 <= n < |s.log| && s.log[n].id == id)
  }

  /** Every request has its progress, and the log is the list of those reported. */
  ghost predicate LogSound(s: Server) {
    |s.progress| == |s.requests| && LogOk(s)
  }

  ghost predicate QueueOk(s: Server) {
    && s.drained <= |s.log|
    && s.queue == Entries(s.log[s.drained..])
    && CompletionsSent(s.sent) == Outgoing(s.log[..s.drained])
  }

  ghost predicate StatusOk(s: Server)
    requires |s.progress| == |s.requests|
  {
    forall id :: 0 <= id < |s.requests| && !s.progress[id].Active? && SoleUser(s, id) ==>
      Lookup(s.status, s.requests[id].filename) == (s.progress[id].state, s.progress[id].error)
  }

  ghost predicate Valid(s: Server) {
    |s.progress| == |s.requests| && LogOk(s) && QueueOk(s) && StatusOk(s)
  }

  lemma InitialValid()
    ensures Valid(INITIAL)
  {
  }

  /** Submitted requests never change, and a reported outcome is final. */
  lemma RequestsGrow(s: Server, e: Event)
    requires |s.progress| == |s.requests| && Enabled(s, e)
    ensures |Apply(s, e).progress| == |Apply(s, e).requests| && s.requests <= Apply(s, e).requests
    ensures forall id :: 0 <= id < |s.requests| && s.progress[id].Reported? ==> Apply(s, e).progress[id] == s.progress[id]
    ensures forall id :: 0 <= id < |s.requests| && !s.progress[id].Active? ==>
      !Apply(s, e).progress[id].Active?
      && Apply(s, e).progress[id].state == s.progress[id].state && Apply(s, e).progress[id].error == s.progress[id].error
  {
  }

  lemma LogEntriesStep(s: Server, e: Event)
    requires Valid(s) && Enabled(s, e)
    ensures forall n :: 0 <= n < |Apply(s, e).log| ==> LoggedOk(Apply(s, e), Apply(s, e).log[n])
  {
    var s' := Apply(s, e);
    RequestsGrow(s, e);
    forall n | 0 <= n < |s'.log|
      ensures LoggedOk(s', s'.log[n])
    {
      if n < |s.log| { assert LoggedOk(s, s.log[n]); }
    }
  }

  lemma ReportedBefore(s: Server, e: Event, id: nat)
    requires |s.progress| == |s.requests| && Enabled(s, e)
    requires id < |Apply(s, e).progress| && Apply(s, e).progress[id].Reported? && !(e.Enqueue? && id == e.id)
    ensures id < |s.requests| && s.progress[id].Reported?
  {
  }

  lemma LogGrows(s: Server, e: Event)
    requires Enabled(s, e)
    ensures s.log <= Apply(s, e).log
    ensures e.Enqueue? ==> |Apply(s, e).log| == |s.log| + 1 && Apply(s, e).log[|s.log|].id == e.id
  {
  }

  lemma LogCompleteStep(s: Server, e: Event, id: nat)
    requires LogSound(s) && Enabled(s, e) && id < |Apply(s, e).progress| && Apply(s, e).progress[id].Reported?
    ensures exists n :: 0 <= n < |Apply(s, e).log| && Apply(s, e).log[n].id == id
  {
    var log := Apply(s, e).log;
    LogGrows(s, e);
    if e.Enqueue? && id == e.id {
      assert log[|s.log|].id == id;
    } else {
      ReportedBefore(s, e, id);
      var n :| 0 <= n < |s.log| && s.log[n].id == id;
      assert log[n].id == id;
    }
  }

  lemma LogStep(s: Server, e: Event)
    requires Valid(s) && Enabled(s, e)
    ensures LogOk(Apply(s, e))
  {
    var s' := Apply(s, e);
    LogEntriesStep(s, e);
    forall id | 0 <= id < |s'.requests| && s'.progress[id].Reported?
      ensures exists n :: 0 <= n < |s'.log| && s'.log[n].id == id
    {
      LogCompleteStep(s, e, id);
    }
    if e.Enqueue? {
      forall n | 0 <= n < |s.log|
        ensures s.log[n].id != e.id
      {
        assert LoggedOk(s, s.log[n]);
      }
    }
  }

  lemma DequeueStep(s: Server)
    requires QueueOk(s) && Enabled(s, Dequeue)
    ensures QueueOk(Apply(s, Dequeue))
  {
    var s' := Apply(s, Dequeue);
    var e := s.queue[0];
    assert e == s.log[s.drained].entry;
    assert s.log[..s.drained + 1][..s.drained] == s.log[..s.drained];
    assert s'.queue == Entries(s'.log[s'.drained..]);
    DequeuedPackets(s.sent, e);
  }

  lemma DequeuedPackets(sent: seq<Packet>, e: Entry)
    ensures CompletionsSent(sent + PacketsFor(e)) == CompletionsSent(sent) + PacketsFor(e)
  {
    match e.client {
      case None => assert sent + [] == sent && CompletionsSent(sent) + [] == CompletionsSent(sent);
      case Some(c) => CompletionsSentAppend(sent, Packet(c, e.token, WriteDone(e.reply)));
    }
  }

  lemma EnqueueStep(s: Server, id: nat)
    requires QueueOk(s) && Enabled(s, Enqueue(id))
    ensures QueueOk(Apply(s, Enqueue(id)))
  {
    var s' := Apply(s, Enqueue(id));
    var d := s'.log[|s.log|];
    assert s'.log[..s.drained] == s.log[..s.drained];
    assert s'.log[s.drained..] == s.log[s.drained..] + [d];
    assert Entries(s.log[s.drained..] + [d]) == Entries(s.log[s.drained..]) + [d.entry];
  }

  lemma SentStep(s: Server, e: Event)
    requires Enabled(s, e) && !e.Dequeue?
    ensures var after := Apply(s, e).sent;
      after == s.sent
      || (|after| == |s.sent| + 1 && after == s.sent + [after[|s.sent|]] && !after[|s.sent|].payload.WriteDone?)
  {
  }

  /** Other events may send a packet, but no completion. */
  lemma QueueStill(s: Server, e: Event)
    requires QueueOk(s) && Enabled(s, e) && !e.Dequeue? && !e.Enqueue?
    ensures QueueOk(Apply(s, e))
  {
    var s' := Apply(s, e);
    assert s'.queue == s.queue && s'.log == s.log && s'.drained == s.drained;
    SentStep(s, e);
    if s'.sent != s.sent {
      CompletionsSentAppend(s.sent, s'.sent[|s.sent|]);
      assert CompletionsSent(s.sent) + [] == CompletionsSent(s.sent);
    }
  }

  lemma QueueStep(s: Server, e: Event)
    requires QueueOk(s) && Enabled(s, e)
    ensures QueueOk(Apply(s, e))
  {
    match e {
      case Dequeue => DequeueStep(s);
      case Enqueue(id) => EnqueueStep(s, id);
      case _ => QueueStill(s, e);
    }
  }

  lemma StatusStep(s: Server, e: Event)
    requires Valid(s) && Enabled(s, e)
    ensures StatusOk(Apply(s, e))
  {
    var s' := Apply(s, e);
    forall id | 0 <= id < |s'.requests| && !s'.progress[id].Active? && SoleUser(s', id)
      ensures Lookup(s'.status, s'.requests[id].filename) == (s'.progress[id].state, s'.progress[id].error)
    {
      assert forall j :: 0 <= j < |s.requests| ==> s.requests[j] == s'.requests[j];
      assert id < |s.requests| && SoleUser(s, id);
    }
  }

  /** Every interleaving keeps the log, the queue and the status table consistent. */
  lemma StepValid(s: Server, e: Event)
    requires Valid(s) && Enabled(s, e)
    ensures Valid(Apply(s, e))
  {
    RequestsGrow(s, e);
    LogStep(s, e);
    QueueStep(s, e);
    StatusStep(s, e);
    ValidWhole(Apply(s, e));
  }

  lemma ValidWhole(s: Server)
    requires LogSound(s) && QueueOk(s) && StatusOk(s)
    ensures Valid(s)
  {
  }
}
