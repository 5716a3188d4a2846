/**
 What a client that has received a completion learns by asking for the status of its file.
 */
module StatusReplies {
  import opened WriteServer
  import opened ClientBuffer
  import opened ServerRuns
  import opened WriteSystem

  // ----- From a message back to the log -----

  lemma {:induction false} ArrivalRead(arrived: seq<Arrival>, x: nat, me: ClientId)
    requires x < |arrived|
    ensures Packet(me, arrived[x].token, arrived[x].message.payload) in ReadFrom(arrived, arrived[x].message.server, me)
  {
    var n := |arrived| - 1;
    if x < n {
      assert arrived[..n][x] == arrived[x];
      ArrivalRead(arrived[..n], x, me);
    }
  }

  lemma {:induction false} AddressedWasSent(packets: seq<Packet>, me: ClientId, p: Packet)
    requires p in Addressed(packets, me)
    ensures p in packets
  {
    var n := |packets| - 1;
    if p != packets[n] { AddressedWasSent(packets[..n], me, p); }
  }

  lemma {:induction false} CompletionSent(sent: seq<Packet>, p: Packet)
    requires p in sent && p.payload.WriteDone?
    ensures p in CompletionsSent(sent)
  {
    var n := |sent| - 1;
    if p != sent[n] {
      assert p in sent[..n];
      CompletionSent(sent[..n], p);
    }
  }

  lemma {:induction false} OutgoingFrom(log: seq<Done>, p: Packet) returns (n: nat)
    requires p in Outgoing(log)
    ensures n < |log| && p in PacketsFor(log[n].entry)
  {
    n := |log| - 1;
    if p !in PacketsFor(log[n].entry) { n := OutgoingFrom(log[..n], p); }
  }

  lemma LinkLogged(link: Link, k: ServerId, arrived: seq<Arrival>, me: ClientId, x: nat) returns (n: nat)
    requires ChannelOk(link, k, arrived, me) && QueueOk(link.server)
    requires x < |arrived| && arrived[x].message.server == k && arrived[x].message.payload.WriteDone?
    ensures n < |link.server.log| && link.server.log[n].entry.reply == arrived[x].message.payload.reply
  {
    var s, p := link.server, Packet(me, arrived[x].token, arrived[x].message.payload);
    ArrivalRead(arrived, x, me);
    assert p in ReadFrom(arrived, k, me) + link.down;
    AddressedWasSent(s.sent, me, p);
    CompletionSent(s.sent, p);
    n := OutgoingFrom(s.log[..s.drained], p);
  }

  /** A completion that has been received is in its server's log. */
  lemma ReceivedIsLogged(sys: System, me: ClientId, x: nat) returns (n: nat)
    requires Inv(sys, me) && x < |sys.arrived| && sys.arrived[x].message.payload.WriteDone?
    ensures var k := sys.arrived[x].message.server;
      && k in sys.links && n < |sys.links[k].server.log|
      && sys.links[k].server.log[n].entry.reply == sys.arrived[x].message.payload.reply
  {
    var k := sys.arrived[x].message.server;
    assert LinkOk(sys.links[k], k, sys.issued, me);
    n := LinkLogged(sys.links[k], k, sys.arrived, me, x);
  }

  lemma ReceivedAt(run: seq<System>, me: ClientId, i: nat, x: nat) returns (n: nat)
    requires IsRun(run, me) && i < |run| && x < |run[i].arrived| && run[i].arrived[x].message.payload.WriteDone?
    ensures var k := run[i].arrived[x].message.server;
      && k in run[i].links && Valid(run[i].links[k].server) && n < |run[i].links[k].server.log|
      && run[i].links[k].server.log[n].entry.reply == run[i].arrived[x].message.payload.reply
  {
    RunInv(run, me, i);
    n := ReceivedIsLogged(run[i], me, x);
    ValidAt(run, me, i, run[i].arrived[x].message.server);
  }

  lemma ValidAt(run: seq<System>, me: ClientId, i: nat, k: ServerId)
    requires IsRun(run, me) && i < |run| && k in run[i].links
    ensures Valid(run[i].links[k].server)
  {
    RunInv(run, me, i);
    assert LinkOk(run[i].links[k], k, run[i].issued, me);
  }

  // ----- What lasts -----

  /** What a later state keeps of one server's finished requests, and of what has arrived. */
  ghost predicate Kept(a: System, b: System, k: ServerId, id: nat) {
    && a.arrived <= b.arrived && k in a.links && k in b.links
    && (id < |a.links[k].server.requests| && id < |a.links[k].server.progress| && a.links[k].server.progress[id].Reported? ==>
          && a.links[k].server.requests <= b.links[k].server.requests
          && id < |b.links[k].server.progress|
          && b.links[k].server.progress[id] == a.links[k].server.progress[id])
  }

  lemma StepKeeps(sys: System, me: ClientId, e: SystemEvent, k: ServerId, id: nat)
    requires Ready(sys, me, e) && k in sys.links && Valid(sys.links[k].server)
    ensures Kept(sys, Next(sys, me, e), k, id)
  {
    if e.ServerStep? && e.server == k { RequestsGrow(sys.links[k].server, e.event); }
  }

  lemma KeptTrans(a: System, b: System, c: System, k: ServerId, id: nat)
    requires Kept(a, b, k, id) && Kept(b, c, k, id)
    ensures Kept(a, c, k, id)
  {
  }

  lemma NextKeeps(run: seq<System>, me: ClientId, i: nat, k: ServerId, id: nat)
    requires IsRun(run, me) && i + 1 < |run| && k in run[i].links
    ensures Kept(run[i], run[i + 1], k, id)
  {
    RunInv(run, me, i);
    assert LinkOk(run[i].links[k], k, run[i].issued, me);
    assert StepAt(run, me, i);
    var e :| Ready(run[i], me, e) && run[i + 1] == Next(run[i], me, e);
    StepKeeps(run[i], me, e, k, id);
  }

  lemma {:induction false} RunKeeps(run: seq<System>, me: ClientId, i: nat, j: nat, k: ServerId, id: nat)
    requires IsRun(run, me) && i <= j < |run| && k in run[i].links
    ensures Kept(run[i], run[j], k, id)
    decreases j
  {
    if i < j {
      RunKeeps(run, me, i, j - 1, k, id);
      NextKeeps(run, me, j - 1, k, id);
      KeptTrans(run[i], run[j - 1], run[j], k, id);
    }
  }

  // ----- The answer -----

  function Ask(reply: WriteReply, client: ClientId, t: Token, snapshot: seq<seq<Chunk>>): Event {
    Accept(client, GetWriteChunkStatus(t, reply.filename), snapshot)
  }

  lemma AnswerIs(s: Server, id: nat, reply: WriteReply, client: ClientId, t: Token, snapshot: seq<seq<Chunk>>)
    requires Valid(s) && Reports(s, id, reply) && SoleUser(s, id) && t < TOKEN_LIMIT
    requires Enabled(s, Ask(reply, client, t, snapshot))
    ensures Apply(s, Ask(reply, client, t, snapshot)).sent
         == s.sent + [Packet(client, t, WriteStatus(s.progress[id].state, reply.error))]
  {
  }

  /**
   Once a completion has been received, whoever later asks its server for the status of its file
   is told the state its write ended in and the completion's own error message, as long as no
   other request has used the file name.
   */
  lemma StatusAfterCompletion(run: seq<System>, me: ClientId, i: nat, j: nat, x: nat,
                              client: ClientId, t: Token, snapshot: seq<seq<Chunk>>) returns (id: nat)
    requires IsRun(run, me) && i <= j < |run|
    requires x < |run[i].arrived| && run[i].arrived[x].message.payload.WriteDone? && t < TOKEN_LIMIT
    ensures var k, reply := run[i].arrived[x].message.server, run[i].arrived[x].message.payload.reply;
      && k in run[i].links && k in run[j].links
      && Reports(run[i].links[k].server, id, reply)
      && var state, s := run[i].links[k].server.progress[id].state, run[j].links[k].server;
         && id < |s.requests|
         && (Enabled(s, Ask(reply, client, t, snapshot)) && SoleUser(s, id) ==>
               Apply(s, Ask(reply, client, t, snapshot)).sent
               == s.sent + [Packet(client, t, WriteStatus(state, reply.error))])
  {
    var m := run[i].arrived[x].message;
    var n := ReceivedAt(run, me, i, x);
    var before := run[i].links[m.server].server;
    LoggedReports(before, n);
    id := before.log[n].id;
    RunKeeps(run, me, i, j, m.server, id);
    ValidAt(run, me, j, m.server);
    var s := run[j].links[m.server].server;
    if s.pc.Receiving? && SoleUser(s, id) { AnswerIs(s, id, m.payload.reply, client, t, snapshot); }
  }
}
