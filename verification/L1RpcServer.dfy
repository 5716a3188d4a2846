/**
 The objects behind the write path, field by field: the locked queue, the locked status
 table and the server's own methods.
 */
module L1RpcServer {
  import opened Sequences
  import opened Wrappers
  import opened WriteServer

  datatype ServerError = NullPointer

  class BackendQueue {
    var entries: seq<Entry>

    constructor ()
      ensures entries == []
    {
      entries := [];
    }

    method EnqueueWriteReply(e: Option<Entry>) returns (r: Result<(), ServerError>)
      modifies this
      ensures e.None? ==> r == Failure(NullPointer) && entries == old(entries)
      ensures e.Some? ==> r == Success(()) && entries == old(entries) + [e.value]
    {
      if e.None? {
        return Failure(NullPointer);
      }
      entries := entries + [e.value];
      r := Success(());
    }

    /** Does not block: an empty queue gives an absent entry. */
    method DequeueWriteReply() returns (e: Option<Entry>)
      modifies this
      ensures e == (if old(entries) == [] then None else Some(old(entries)[0]))
      ensures entries == (if old(entries) == [] then [] else old(entries)[1..])
    {
      e := None;
      if entries != [] {
        e := Some(entries[0]);
        entries := entries[1..];
      }
    }
  }

  class ChunkStatusMap {
    var writeChunkStatus: map<string, (string, string)>

    constructor ()
      ensures writeChunkStatus == map[]
    {
      writeChunkStatus := map[];
    }

    method Set(filename: string, status: string, error: string)
      modifies this
      ensures writeChunkStatus == old(writeChunkStatus)[filename := (status, error)]
    {
      writeChunkStatus := writeChunkStatus[filename := (status, error)];
    }

    method Get(filename: string) returns (found: bool, status: string, error: string)
      ensures found <==> filename in writeChunkStatus
      ensures found ==> (status, error) == writeChunkStatus[filename]
      ensures !found ==> status == "UNKNOWN" && error == ""
      ensures (status, error) == Lookup(writeChunkStatus, filename)
    {
      if filename !in writeChunkStatus {
        return false, "UNKNOWN", "";
      }
      return true, writeChunkStatus[filename].0, writeChunkStatus[filename].1;
    }
  }

  /** The packets for a sequence of queue entries, in order. */
  function PacketsForAll(entries: seq<Entry>): seq<Packet> {
    if entries == [] then [] else PacketsFor(entries[0]) + PacketsForAll(entries[1..])
  }

  lemma {:induction false} PacketsForAllConcat(a: seq<Entry>, b: seq<Entry>)
    ensures PacketsForAll(a + b) == PacketsForAll(a) + PacketsForAll(b)
  {
    if a == [] {
      assert a + b == b;
    } else {
      assert (a + b)[1..] == a[1..] + b;
      PacketsForAllConcat(a[1..], b);
    }
  }

  lemma PacketsForAllAppend(a: seq<Entry>, e: Entry)
    ensures PacketsForAll(a + [e]) == PacketsForAll(a) + PacketsFor(e)
  {
    PacketsForAllConcat(a, [e]);
    assert PacketsForAll([e]) == PacketsFor(e) + PacketsForAll([]);
  }

  /** The loop over the queue sends exactly what the machine's drained log calls for. */
  lemma {:induction false} OutgoingIsPackets(log: seq<Done>)
    ensures Outgoing(log) == PacketsForAll(Entries(log))
  {
    if log != [] {
      var n := |log| - 1;
      OutgoingIsPackets(log[..n]);
      assert Entries(log) == Entries(log[..n]) + [log[n].entry];
      PacketsForAllConcat(Entries(log[..n]), [log[n].entry]);
      assert PacketsForAll([log[n].entry]) == PacketsFor(log[n].entry) + PacketsForAll([]);
    }
  }

  /** One chunk of a request: its formatted file name and whether the pool accepted the write. */
  datatype Item = Item(chunk: Chunk, filename: string, accepted: bool)

  function RequestsFor(client: ClientId, token: Token, items: seq<Item>): (r: seq<WriteRequest>)
    ensures |r| == |items|
  {
    seq(|items|, i requires 0 <= i < |items| => WriteRequest(Some(client), token, items[i].chunk, items[i].filename))
  }

  // ----- The steps of the state machine that the methods take -----

  function Chunks(items: seq<Item>): (r: seq<Chunk>)
    ensures |r| == |items|
  {
    seq(|items|, i requires 0 <= i < |items| => items[i].chunk)
  }

  function Replies(items: seq<Item>): (r: seq<WriteReply>)
    ensures |r| == |items|
  {
    seq(|items|, i requires 0 <= i < |items| => ReplyFor(items[i].chunk, items[i].filename, items[i].accepted, ""))
  }

  /** An I/O thread's report on an active request: one event, or two when the write is finished. */
  function AfterReport(s: WriteServer.Server, id: nat, finished: bool, success: bool, state: string, error: string)
    : WriteServer.Server
    requires id < |s.requests| && id < |s.progress| && s.progress[id].Active?
  {
    if finished then Apply(Apply(s, Finish(id, success, state, error)), Enqueue(id))
    else Apply(s, StatusChange(id, state, error))
  }

  /** The I/O threads can put the entries of these requests into the queue, one after another. */
  predicate CanEnqueue(s: WriteServer.Server, ids: seq<nat>)
    decreases |ids|
  {
    ids == [] || (Enabled(s, Enqueue(ids[0])) && CanEnqueue(Apply(s, Enqueue(ids[0])), ids[1..]))
  }

  function AfterEnqueues(s: WriteServer.Server, ids: seq<nat>): WriteServer.Server
    requires CanEnqueue(s, ids)
    decreases |ids|
  {
    if ids == [] then s else AfterEnqueues(Apply(s, Enqueue(ids[0])), ids[1..])
  }

  /** The entries that they put there. */
  function Enqueued(s: WriteServer.Server, ids: seq<nat>): seq<Entry>
    requires CanEnqueue(s, ids)
    decreases |ids|
  {
    if ids == [] then []
    else [EntryFor(s.requests[ids[0]], s.progress[ids[0]])] + Enqueued(Apply(s, Enqueue(ids[0])), ids[1..])
  }

  lemma {:induction false} EnqueuesAre(s: WriteServer.Server, ids: seq<nat>)
    requires CanEnqueue(s, ids)
    ensures var t := AfterEnqueues(s, ids);
      && t.queue == s.queue + Enqueued(s, ids)
      && t.requests == s.requests && t.status == s.status && t.sent == s.sent && t.pc == s.pc
    decreases |ids|
  {
    if ids == [] {
      assert s.queue + [] == s.queue;
    } else {
      var next := Apply(s, Enqueue(ids[0]));
      EnqueuesAre(next, ids[1..]);
      Associate(s.queue, [EntryFor(s.requests[ids[0]], s.progress[ids[0]])], Enqueued(next, ids[1..]));
    }
  }

  function First<T>(batches: seq<seq<T>>): seq<T> {
    if batches == [] then [] else batches[0]
  }

  function Rest<T>(batches: seq<seq<T>>): seq<seq<T>> {
    if batches == [] then [] else batches[1..]
  }

  /** While the machine drains its queue, `pushes` are the entries of the requests that I/O threads report on between its steps. */
  predicate Interleaves(s: WriteServer.Server, batches: seq<seq<nat>>, pushes: seq<seq<Entry>>)
    decreases |batches|, |s.queue|
  {
    && |batches| == |pushes| && s.pc.Draining? && CanEnqueue(s, First(batches))
    && First(pushes) == Enqueued(s, First(batches))
    && var here := AfterEnqueues(s, First(batches));
       here.pc.Draining? && (batches == [] ==> here == s)
       && (here.queue != [] ==> Interleaves(Apply(here, Dequeue), Rest(batches), Rest(pushes)))
  }

  /** The machine's state when it has drained its queue. */
  function AfterDraining(s: WriteServer.Server, batches: seq<seq<nat>>, pushes: seq<seq<Entry>>): WriteServer.Server
    requires Interleaves(s, batches, pushes)
    decreases |batches|, |s.queue|
  {
    var here := AfterEnqueues(s, First(batches));
    if here.queue == [] then Apply(here, QueueEmpty)
    else AfterDraining(Apply(here, Dequeue), Rest(batches), Rest(pushes))
  }

  /** What the draining loop answers, when it finds `queue` and `pushes` are added before each pop. */
  function AnsweredFrom(queue: seq<Entry>, pushes: seq<seq<Entry>>): seq<Entry>
    decreases |pushes|, |queue|
  {
    var all := queue + First(pushes);
    if all == [] then [] else [all[0]] + AnsweredFrom(all[1..], Rest(pushes))
  }

  /** Every entry is answered once, in queue order: those found, and those pushed in the turns taken. */
  lemma {:induction false} AnsweredIs(queue: seq<Entry>, pushes: seq<seq<Entry>>) returns (turns: nat)
    ensures turns <= |pushes| && AnsweredFrom(queue, pushes) == queue + Joined(pushes[..turns])
    decreases |pushes|, |queue|
  {
    var all, one := queue + First(pushes), if pushes == [] then 0 else 1;
    turns := one;
    var more := 0;
    if all != [] {
      more := AnsweredIs(all[1..], Rest(pushes));
      turns := one + more;
      assert [all[0]] + (all[1..] + Joined(Rest(pushes)[..more])) == all + Joined(Rest(pushes)[..more]);
    }
    JoinedConcat(pushes[..one], Rest(pushes)[..more]);
    assert pushes[..turns] == pushes[..one] + Rest(pushes)[..more];
    assert Joined(pushes[..one]) == First(pushes) by {
      if pushes != [] {
        assert pushes[..1] == [pushes[0]];
        JoinedOne(pushes[0]);
      }
    }
    Associate(queue, First(pushes), Joined(Rest(pushes)[..more]));
  }

  lemma AnsweredOne(before: seq<Packet>, answered: seq<Entry>, e: Entry)
    ensures before + PacketsForAll(answered) + PacketsFor(e) == before + PacketsForAll(answered + [e])
  {
    PacketsForAllAppend(answered, e);
    Associate(before, PacketsForAll(answered), PacketsFor(e));
  }

  /** One turn of the loop: the entries pushed, and one popped if there is one. */
  lemma AnsweredTurn(answered: seq<Entry>, queue: seq<Entry>, pushes: seq<seq<Entry>>, i: nat, w: Option<Entry>, left: seq<Entry>)
    requires i <= |pushes|
    requires queue + (if i < |pushes| then pushes[i] else []) == if w.None? then [] else [w.value] + left
    ensures answered + AnsweredFrom(queue, pushes[i..]) ==
      if w.None? then answered
      else (answered + [w.value]) + AnsweredFrom(left, pushes[if i < |pushes| then i + 1 else i..])
  {
    var all := queue + First(pushes[i..]);
    assert Rest(pushes[i..]) == pushes[if i < |pushes| then i + 1 else i..];
    if w.None? {
      assert answered + [] == answered;
    } else {
      assert all[1..] == left;
      Associate(answered, [w.value], AnsweredFrom(left, Rest(pushes[i..])));
    }
  }

  /** The machine's steps answer the same entries, and change nothing else. */
  lemma {:induction false} DrainingAnswers(s: WriteServer.Server, batches: seq<seq<nat>>, pushes: seq<seq<Entry>>)
    requires Interleaves(s, batches, pushes)
    ensures var t := AfterDraining(s, batches, pushes);
      && t.sent == s.sent + PacketsForAll(AnsweredFrom(s.queue, pushes)) && t.queue == [] && t.pc == Receiving
      && t.requests == s.requests && t.status == s.status
    decreases |batches|, |s.queue|
  {
    DrainTurn(s, batches, pushes);
    var here := AfterEnqueues(s, First(batches));
    if s.queue + First(pushes) == [] {
      assert s.sent + [] == s.sent;
    } else {
      var next := Apply(here, Dequeue);
      var e := (s.queue + First(pushes))[0];
      DrainingAnswers(next, Rest(batches), Rest(pushes));
      PacketsForAllConcat([e], AnsweredFrom(next.queue, Rest(pushes)));
      assert PacketsForAll([e]) == PacketsFor(e) + PacketsForAll([]);
      Associate(s.sent, PacketsFor(e), PacketsForAll(AnsweredFrom(next.queue, Rest(pushes))));
    }
  }

  /** One step of the machine's draining. */
  lemma DrainTurn(s: WriteServer.Server, batches: seq<seq<nat>>, pushes: seq<seq<Entry>>)
    requires Interleaves(s, batches, pushes)
    ensures var queue := s.queue + First(pushes);
      var here := AfterEnqueues(s, First(batches));
      if queue == [] then
        var t := AfterDraining(s, batches, pushes);
        && t.queue == [] && t.requests == s.requests && t.status == s.status && t.sent == s.sent && t.pc == Receiving
      else
        && Enabled(here, Dequeue)
        && var next := Apply(here, Dequeue);
           && next.queue == queue[1..] && next.requests == s.requests && next.status == s.status
           && next.sent == s.sent + PacketsFor(queue[0])
           && Interleaves(next, Rest(batches), Rest(pushes))
           && AfterDraining(s, batches, pushes) == AfterDraining(next, Rest(batches), Rest(pushes))
  {
    EnqueuesAre(s, First(batches));
  }

  /** The server is about to submit the chunks of the items for a token. */
  predicate Begun(s: WriteServer.Server, client: ClientId, token: Token, items: seq<Item>) {
    s.pc == Handling(client, token, Chunks(items), [])
  }

  /** The state when the first items have been submitted. */
  function AfterSubmits(s: WriteServer.Server, client: ClientId, token: Token, items: seq<Item>, n: nat)
    : (t: WriteServer.Server)
    requires Begun(s, client, token, items) && n <= |items|
    ensures t.pc == Handling(client, token, Chunks(items)[n..], Replies(items)[..n])
  {
    if n == 0 then s
    else
      assert Chunks(items)[n - 1..][1..] == Chunks(items)[n..];
      assert Replies(items)[..n - 1] + [Replies(items)[n - 1]] == Replies(items)[..n];
      Apply(AfterSubmits(s, client, token, items, n - 1), Submit(items[n - 1].filename, items[n - 1].accepted))
  }

  function AfterList(s: WriteServer.Server, client: ClientId, token: Token, items: seq<Item>): WriteServer.Server
    requires Begun(s, client, token, items)
  {
    Apply(AfterSubmits(s, client, token, items, |items|), SendList)
  }

  lemma {:induction false} SubmitsAre(s: WriteServer.Server, client: ClientId, token: Token, items: seq<Item>, n: nat)
    requires Begun(s, client, token, items) && n <= |items|
    ensures var t := AfterSubmits(s, client, token, items, n);
      && t.requests == s.requests + RequestsFor(client, token, items)[..n]
      && t.sent == s.sent && t.queue == s.queue && t.status == s.status
  {
    var all := RequestsFor(client, token, items);
    if n == 0 {
      assert s.requests + all[..0] == s.requests;
    } else {
      SubmitsAre(s, client, token, items, n - 1);
      assert all[..n - 1] + [all[n - 1]] == all[..n];
      assert s.requests + all[..n - 1] + [all[n - 1]] == s.requests + all[..n];
    }
  }

  /** One submission per item, in order, and then the list. */
  lemma ListIs(s: WriteServer.Server, client: ClientId, token: Token, items: seq<Item>)
    requires Begun(s, client, token, items)
    ensures var t := AfterList(s, client, token, items);
      && t.requests == s.requests + RequestsFor(client, token, items)
      && t.sent == s.sent + [Packet(client, token, ChunkList(Replies(items)))]
      && t.queue == s.queue && t.status == s.status && t.pc == Draining
  {
    SubmitsAre(s, client, token, items, |items|);
    assert RequestsFor(client, token, items)[..|items|] == RequestsFor(client, token, items);
    assert Replies(items)[..|items|] == Replies(items);
  }

  class Server {
    const queue: BackendQueue
    const chunkStatus: ChunkStatusMap
    var submitted: seq<WriteRequest>
    var sent: seq<Packet>

    /** The object's part of a machine state. */
    ghost predicate Shows(s: WriteServer.Server)
      reads this, queue, chunkStatus
    {
      && s.requests == submitted && s.sent == sent
      && s.queue == queue.entries && s.status == chunkStatus.writeChunkStatus
    }

    constructor ()
      ensures Shows(INITIAL)
      ensures fresh(queue) && fresh(chunkStatus)
      ensures queue.entries == [] && chunkStatus.writeChunkStatus == map[] && submitted == [] && sent == []
    {
      queue := new BackendQueue();
      chunkStatus := new ChunkStatusMap();
      submitted, sent := [], [];
    }

    /** An I/O thread reports on a write; only a finished write reaches the queue. */
    method StatusChanged(w: WriteRequest, finished: bool, success: bool, state: string, error: string,
                         ghost s: WriteServer.Server, ghost id: nat)
      modifies queue, chunkStatus
      ensures old(Shows(s)) && id < |s.requests| && id < |s.progress| && s.requests[id] == w && s.progress[id].Active? ==>
        Shows(AfterReport(s, id, finished, success, state, error))
      ensures chunkStatus.writeChunkStatus == old(chunkStatus.writeChunkStatus)[w.filename := (state, error)]
      ensures queue.entries == old(queue.entries)
                               + if finished then [EntryFor(w, Reporting(success, state, error))] else []
      ensures finished ==>
        var e := queue.entries[|queue.entries| - 1];
        && e.client == w.client && e.token == w.token && e.reply.filename == w.filename
        && e.reply.success == success && e.reply.error == error
        && e.reply.beam == w.chunk.beam && e.reply.fpga0 == w.chunk.fpgaBegin
        && e.reply.fpgaN < UINT64_LIMIT && (e.reply.fpgaN - (w.chunk.fpgaEnd - w.chunk.fpgaBegin)) % UINT64_LIMIT == 0
        && (w.chunk.fpgaBegin <= w.chunk.fpgaEnd < UINT64_LIMIT ==> e.reply.fpgaN == w.chunk.fpgaEnd - w.chunk.fpgaBegin)
    {
      ReplyDescribes(w.chunk, w.filename, success, error);
      chunkStatus.Set(w.filename, state, error);
      if !finished {
        return;
      }
      var reply := WriteReply(w.chunk.beam, w.chunk.fpgaBegin,
                              (w.chunk.fpgaEnd - w.chunk.fpgaBegin) % UINT64_LIMIT, w.filename, success, error);
      var r := queue.EnqueueWriteReply(Some(Entry(w.client, w.token, reply)));
    }

    /**
     Drains the queue while I/O threads keep filling it: `pushes[i]` is what they add before
     the i-th entry is popped.  Every entry is answered once, in queue order.  If the object is a
     machine state's and the entries are those of the requests in `batches`, the object is then
     where the machine's dequeue events, with the enqueue events in between, and its queue-empty
     event lead.
     */
    method CheckBackendQueue(pushes: seq<seq<Entry>>, ghost s: WriteServer.Server, ghost batches: seq<seq<nat>>)
      returns (ghost turns: nat, ghost answered: seq<Entry>)
      modifies this`sent, queue
      ensures old(Shows(s)) && Interleaves(s, batches, pushes) ==> Shows(AfterDraining(s, batches, pushes))
      ensures queue.entries == []
      ensures turns <= |pushes| && answered == old(queue.entries) + Joined(pushes[..turns])
      ensures answered == AnsweredFrom(old(queue.entries), pushes)
      ensures sent == old(sent) + PacketsForAll(answered)
    {
      if Shows(s) && Interleaves(s, batches, pushes) { DrainingAnswers(s, batches, pushes); }
      turns := AnsweredIs(queue.entries, pushes);
      answered := AnswerAll(pushes);
    }

    /** The loop: pops an entry and answers it until there is none. */
    method AnswerAll(pushes: seq<seq<Entry>>) returns (ghost answered: seq<Entry>)
      modifies this`sent, queue
      ensures queue.entries == [] && answered == AnsweredFrom(old(queue.entries), pushes)
      ensures sent == old(sent) + PacketsForAll(answered)
    {
      var i: nat := 0;
      answered := [];
      ghost var start := queue.entries;
      assert pushes[0..] == pushes && [] + AnsweredFrom(start, pushes) == AnsweredFrom(start, pushes);
      while true
        invariant i <= |pushes|
        invariant answered + AnsweredFrom(queue.entries, pushes[i..]) == AnsweredFrom(start, pushes)
        invariant sent == old(sent) + PacketsForAll(answered)
        decreases |pushes| - i, |queue.entries|
      {
        ghost var entries := queue.entries;
        var batch := if i < |pushes| then pushes[i] else [];
        var w := Turn(batch);
        AnsweredTurn(answered, entries, pushes, i, w, queue.entries);
        if w.None? {
          return;
        }
        i := if i < |pushes| then i + 1 else i;
        AnsweredOne(old(sent), answered, w.value);
        answered := answered + [w.value];
        Answer(w.value);
      }
    }

    /** I/O threads add entries, and then the server pops one. */
    method Turn(batch: seq<Entry>) returns (w: Option<Entry>)
      modifies queue
      ensures w.None? ==> queue.entries == [] && old(queue.entries) + batch == []
      ensures w.Some? ==> old(queue.entries) + batch == [w.value] + queue.entries
    {
      queue.entries := queue.entries + batch;
      w := queue.DequeueWriteReply();
    }

    /** Forwards a completion to its client, if it has one. */
    method Answer(e: Entry)
      modifies this`sent
      ensures sent == old(sent) + PacketsFor(e)
    {
      if e.client.Some? {
        sent := sent + [Packet(e.client.value, e.token, WriteDone(e.reply))];
      }
    }

    /** Collapses the per-beam snapshots of the ring buffer into one list: beam `i`'s is found from `starts[i]` on. */
    method GetChunks(snapshot: seq<seq<Chunk>>) returns (chunks: seq<Chunk>, ghost starts: seq<nat>)
      ensures chunks == Joined(snapshot)
      ensures |starts| == |snapshot| + 1 && starts[0] == 0 && starts[|snapshot|] == |chunks|
      ensures forall i :: 0 <= i < |snapshot| ==>
        starts[i + 1] == starts[i] + |snapshot[i]| <= |chunks| && chunks[starts[i]..starts[i + 1]] == snapshot[i]
    {
      chunks := [];
      for i := 0 to |snapshot|
        invariant chunks == Joined(snapshot[..i])
      {
        JoinedNext(snapshot, i);
        ghost var before := chunks;
        for j := 0 to |snapshot[i]|
          invariant chunks == before + snapshot[i][..j]
        {
          chunks := chunks + [snapshot[i][j]];
        }
      }
      assert snapshot[..|snapshot|] == snapshot;
      starts := JoinedIsPieces(snapshot);
    }

    /** Submits every chunk and then replies with the list: one entry per request, in order. */
    method HandleWriteChunks(client: ClientId, token: Token, items: seq<Item>, ghost s: WriteServer.Server)
      returns (replies: seq<WriteReply>)
      modifies this
      ensures old(Shows(s)) && Begun(s, client, token, items) ==> Shows(AfterList(s, client, token, items))
      ensures |submitted| == |old(submitted)| + |items| && old(submitted) <= submitted
      ensures forall i :: 0 <= i < |items| ==>
        submitted[|old(submitted)| + i] == WriteRequest(Some(client), token, items[i].chunk, items[i].filename)
      ensures |replies| == |items|
      ensures forall i :: 0 <= i < |items| ==>
        && replies[i].beam == items[i].chunk.beam && replies[i].fpga0 == items[i].chunk.fpgaBegin
        && replies[i].fpgaN < UINT64_LIMIT
        && (replies[i].fpgaN - (items[i].chunk.fpgaEnd - items[i].chunk.fpgaBegin)) % UINT64_LIMIT == 0
        && (items[i].chunk.fpgaBegin <= items[i].chunk.fpgaEnd < UINT64_LIMIT ==>
              replies[i].fpgaN == items[i].chunk.fpgaEnd - items[i].chunk.fpgaBegin)
        && replies[i].filename == items[i].filename && replies[i].success == items[i].accepted && replies[i].error == ""
      ensures sent == old(sent) + [Packet(client, token, ChunkList(replies))]
    {
      replies := [];
      for i := 0 to |items|
        invariant submitted == old(submitted) + RequestsFor(client, token, items[..i])
        invariant sent == old(sent) && replies == Replies(items[..i])
      {
        var item := items[i];
        var w := WriteRequest(Some(client), token, item.chunk, item.filename);
        assert RequestsFor(client, token, items[..i + 1]) == RequestsFor(client, token, items[..i]) + [w];
        assert Replies(items[..i + 1]) == Replies(items[..i]) + [Replies(items)[i]];
        submitted := submitted + [w];
        replies := replies + [WriteReply(item.chunk.beam, item.chunk.fpgaBegin,
                                         (item.chunk.fpgaEnd - item.chunk.fpgaBegin) % UINT64_LIMIT,
                                         item.filename, item.accepted, "")];
      }
      assert items[..|items|] == items;
      sent := sent + [Packet(client, token, ChunkList(replies))];
      if old(Shows(s)) && Begun(s, client, token, items) { ListIs(s, client, token, items); }
      forall i | 0 <= i < |items|
        ensures Describes(replies[i], items[i].chunk)
      {
        ReplyDescribes(items[i].chunk, items[i].filename, items[i].accepted, "");
      }
    }
  }
}
