/**
 One RPC client, any number of servers and their other clients, as one machine.

 A connection is a pair of FIFO channels.  The client may send and receive at any moment;
 each server and its I/O threads take their own steps; requests of other clients arrive
 whenever their server accepts one.  A run of events is one interleaving of all of them.
 */
module WriteSystem {
  import opened WriteServer
  import opened TokenStreams
  import opened ClientBuffer

  /** One connection of the client: the server, the requests on their way to it and the packets on their way back. */
  datatype Link = Link(server: Server, up: seq<Request>, down: seq<Packet>)

  /** `issued` and `arrived` are history: the requests the client has sent, and all it has received. */
  datatype System = System(
    links: map<ServerId, Link>,
    token: Token,
    issued: map<Token, (ServerId, Request)>,
    arrived: seq<Arrival>)

  datatype SystemEvent =
    | Send(server: ServerId, request: Request)
    | Receive(server: ServerId)
    | ServerStep(server: ServerId, event: Event)

  predicate LinkReady(link: Link, me: ClientId, ev: Event) {
    Enabled(link.server, ev) && (ev.Accept? && ev.client == me ==> link.up != [] && ev.request == link.up[0])
  }

  predicate Ready(sys: System, me: ClientId, e: SystemEvent) {
    && e.server in sys.links
    && match e
       case Send(_, r) => r.token == sys.token + 1
       case Receive(k) => sys.links[k].down != []
       case ServerStep(k, ev) => LinkReady(sys.links[k], me, ev)
  }

  /** The packets for one client, in order. */
  function Addressed(packets: seq<Packet>, me: ClientId): seq<Packet> {
    if packets == [] then [] else
    var before, last := Addressed(packets[..|packets| - 1], me), packets[|packets| - 1];
    if last.client == me then before + [last] else before
  }

  function StepLink(link: Link, me: ClientId, ev: Event): Link
    requires LinkReady(link, me, ev)
  {
    var s' := Apply(link.server, ev);
    SentGrows(link.server, ev);
    Link(s',
         if ev.Accept? && ev.client == me then link.up[1..] else link.up,
         link.down + Addressed(s'.sent[|link.server.sent|..], me))
  }

  function Next(sys: System, me: ClientId, e: SystemEvent): System
    requires Ready(sys, me, e)
  {
    var link := sys.links[e.server];
    match e
    case Send(k, r) =>
      sys.(links := sys.links[k := link.(up := link.up + [r])],
           token := sys.token + 1, issued := sys.issued[r.token := (k, r)])
    case Receive(k) =>
      sys.(links := sys.links[k := link.(down := link.down[1..])],
           arrived := sys.arrived + [Arrival(link.down[0].token, Message(k, link.down[0].payload))])
    case ServerStep(k, ev) => sys.(links := sys.links[k := StepLink(link, me, ev)])
  }

  /**
   The client may send the next token to any server and receive whatever has come, a server may take
   the client's oldest request or one of another client, and every other event of a server is its own.
   */
  lemma AnyoneMayMove(sys: System, me: ClientId, k: ServerId, r: Request, ev: Event)
    requires k in sys.links
    ensures r.token == sys.token + 1 ==> Ready(sys, me, Send(k, r))
    ensures sys.links[k].down != [] ==> Ready(sys, me, Receive(k))
    ensures Enabled(sys.links[k].server, ev) && !ev.Accept? ==> Ready(sys, me, ServerStep(k, ev))
    ensures Enabled(sys.links[k].server, ev) && ev.Accept? && ev.client != me ==> Ready(sys, me, ServerStep(k, ev))
    ensures Enabled(sys.links[k].server, ev) && ev.Accept? && sys.links[k].up != [] && ev.request == sys.links[k].up[0]
            ==> Ready(sys, me, ServerStep(k, ev))
  {
  }

  ghost predicate Init(sys: System) {
    && (forall k :: k in sys.links ==> sys.links[k] == Link(INITIAL, [], []))
    && sys.token == 0 && sys.issued == map[] && sys.arrived == []
  }

  ghost predicate IsRun(run: seq<System>, me: ClientId) {
    && run != [] && Init(run[0])
    && forall i :: 0 <= i < |run| - 1 ==> StepAt(run, me, i)
  }

  ghost predicate StepAt(run: seq<System>, me: ClientId, i: nat)
    requires i + 1 < |run|
  {
    exists e :: Ready(run[i], me, e) && run[i + 1] == Next(run[i], me, e)
  }

  lemma SentGrows(s: Server, e: Event)
    requires Enabled(s, e)
    ensures s.sent <= Apply(s, e).sent
  {
  }

  // ----- The invariant -----

  ghost predicate Requested(up: seq<Request>, t: Token) {
    exists i :: 0 <= i < |up| && up[i].token == t
  }

  ghost predicate Silent(s: Server, me: ClientId, t: Token) {
    Quiet(s, me, t) && Stream(s.sent, me, t) == []
  }

  ghost predicate ListedAny(s: Server, me: ClientId, t: Token) {
    var stream := Stream(s.sent, me, t);
    stream != [] && stream[0].ChunkList? && Listed(s, me, t, stream[0].replies)
  }

  /** How far a server may have come with a request it has accepted. */
  ghost predicate Accepted(s: Server, me: ClientId, r: Request) {
    if r.token >= TOKEN_LIMIT then Silent(s, me, r.token) else
    match r
    case WriteChunks(t) => InHand(s, me, t) || ListedAny(s, me, t)
    case GetWriteChunkStatus(t, _) =>
      Quiet(s, me, t) && |Stream(s.sent, me, t)| == 1 && Stream(s.sent, me, t)[0].WriteStatus?
    case Other(t, name) => Quiet(s, me, t) && Stream(s.sent, me, t) == [Answer(name)]
    case Unanswered(t) => Silent(s, me, t)
  }

  type Issued = map<Token, (ServerId, Request)>

  ghost predicate IssuedTo(issued: Issued, k: ServerId, t: Token) {
    t in issued && issued[t].0 == k
  }

  /** A token is waiting in the channel, accepted, or unknown to the server. */
  ghost predicate TokenOk(link: Link, k: ServerId, issued: Issued, me: ClientId, t: Token) {
    if IssuedTo(issued, k, t) && !Requested(link.up, t) then
      issued[t].1.token == t && Accepted(link.server, me, issued[t].1)
    else
      Silent(link.server, me, t)
  }

  ghost predicate UpOk(up: seq<Request>, k: ServerId, issued: Issued) {
    && (forall i :: 0 <= i < |up| ==> up[i].token in issued && issued[up[i].token] == (k, up[i]))
    && (forall i, j :: 0 <= i < j < |up| ==> up[i].token != up[j].token)
  }

  ghost predicate LinkOk(link: Link, k: ServerId, issued: Issued, me: ClientId) {
    && Valid(link.server)
    && UpOk(link.up, k, issued)
    && forall t :: TokenOk(link, k, issued, me, t)
  }

  /** The packets received from server `k`, in order. */
  function ReadFrom(arrived: seq<Arrival>, k: ServerId, me: ClientId): seq<Packet> {
    if arrived == [] then [] else
    var before, last := ReadFrom(arrived[..|arrived| - 1], k, me), arrived[|arrived| - 1];
    if last.message.server == k then before + [Packet(me, last.token, last.message.payload)] else before
  }

  /** Nothing is lost, duplicated or reordered on a connection. */
  ghost predicate ChannelOk(link: Link, k: ServerId, arrived: seq<Arrival>, me: ClientId) {
    && ReadFrom(arrived, k, me) + link.down == Addressed(link.server.sent, me)
    && forall i :: 0 <= i < |link.down| ==> link.down[i].client == me
  }

  ghost predicate IssuedOk(sys: System) {
    && (forall t :: t in sys.issued ==> 1 <= t <= sys.token && sys.issued[t].1.token == t && sys.issued[t].0 in sys.links)
    && (forall i :: 0 <= i < |sys.arrived| ==> sys.arrived[i].message.server in sys.links)
  }

  ghost predicate LinksOk(sys: System, me: ClientId) {
    forall k :: k in sys.links ==> LinkOk(sys.links[k], k, sys.issued, me)
  }

  ghost predicate ChannelsOk(sys: System, me: ClientId) {
    forall k :: k in sys.links ==> ChannelOk(sys.links[k], k, sys.arrived, me)
  }

  ghost predicate Inv(sys: System, me: ClientId) {
    IssuedOk(sys) && LinksOk(sys, me) && ChannelsOk(sys, me)
  }

  // ----- One connection -----

  lemma LinkSend(link: Link, k: ServerId, issued: Issued, me: ClientId, r: Request)
    requires LinkOk(link, k, issued, me) && r.token !in issued
    ensures LinkOk(link.(up := link.up + [r]), k, issued[r.token := (k, r)], me)
  {
    var link', issued' := link.(up := link.up + [r]), issued[r.token := (k, r)];
    assert link'.up[|link.up|] == r;
    forall t
      ensures TokenOk(link', k, issued', me, t)
    {
      assert TokenOk(link, k, issued, me, t);
      if Requested(link.up, t) {
        var i :| 0 <= i < |link.up| && link.up[i].token == t;
        assert link'.up[i].token == t;
      }
      assert Requested(link'.up, t) <==> Requested(link.up, t) || t == r.token;
    }
  }

  lemma OtherLinkSend(link: Link, k: ServerId, issued: Issued, me: ClientId, k': ServerId, r: Request)
    requires LinkOk(link, k, issued, me) && r.token !in issued && k' != k
    ensures LinkOk(link, k, issued[r.token := (k', r)], me)
  {
    var issued' := issued[r.token := (k', r)];
    forall t
      ensures TokenOk(link, k, issued', me, t)
    {
      assert TokenOk(link, k, issued, me, t);
    }
  }

  lemma LinkReceive(link: Link, k: ServerId, issued: Issued, me: ClientId, down: seq<Packet>)
    requires LinkOk(link, k, issued, me)
    ensures LinkOk(link.(down := down), k, issued, me)
  {
    var link' := link.(down := down);
    forall t
      ensures TokenOk(link', k, issued, me, t)
    {
      assert TokenOk(link, k, issued, me, t);
    }
  }

  /** A server event moves a token it does not accept at most from being in hand to being listed. */
  lemma AcceptedStep(s: Server, ev: Event, me: ClientId, r: Request)
    requires Valid(s) && Enabled(s, ev) && Accepted(s, me, r) && !Accepts(ev, me, r.token)
    ensures Accepted(Apply(s, ev), me, r)
  {
    var t := r.token;
    if r.WriteChunks? && t < TOKEN_LIMIT {
      if InHand(s, me, t) {
        InHandStep(s, ev, me, t);
      } else {
        ListedStep(s, ev, me, t, Stream(s.sent, me, t)[0].replies);
      }
    } else {
      QuietStep(s, ev, me, t);
    }
  }

  lemma RequestedRest(up: seq<Request>, t: Token)
    requires up != [] && up[0].token != t
    ensures Requested(up[1..], t) <==> Requested(up, t)
  {
    if Requested(up, t) {
      var i :| 0 <= i < |up| && up[i].token == t;
      assert up[1..][i - 1].token == t;
    }
  }

  lemma StepTokenAccepted(link: Link, k: ServerId, issued: Issued, me: ClientId, ev: Event, t: Token)
    requires LinkOk(link, k, issued, me) && LinkReady(link, me, ev) && Accepts(ev, me, t)
    ensures TokenOk(StepLink(link, me, ev), k, issued, me, t)
  {
    assert TokenOk(link, k, issued, me, t);
    assert link.up[0].token == t && Requested(link.up, t) && issued[t] == (k, ev.request);
    AcceptStep(link.server, ev, me, t);
    assert !Requested(link.up[1..], t);
  }

  lemma StepToken(link: Link, k: ServerId, issued: Issued, me: ClientId, ev: Event, t: Token)
    requires LinkOk(link, k, issued, me) && LinkReady(link, me, ev) && !Accepts(ev, me, t)
    ensures TokenOk(StepLink(link, me, ev), k, issued, me, t)
  {
    var s := link.server;
    assert TokenOk(link, k, issued, me, t);
    if ev.Accept? && ev.client == me { RequestedRest(link.up, t); }
    if IssuedTo(issued, k, t) && !Requested(link.up, t) {
      AcceptedStep(s, ev, me, issued[t].1);
    } else {
      QuietStep(s, ev, me, t);
    }
  }

  lemma LinkStep(link: Link, k: ServerId, issued: Issued, me: ClientId, ev: Event)
    requires LinkOk(link, k, issued, me) && LinkReady(link, me, ev)
    ensures LinkOk(StepLink(link, me, ev), k, issued, me)
  {
    StepValid(link.server, ev);
    assert UpOk(StepLink(link, me, ev).up, k, issued);
    forall t
      ensures TokenOk(StepLink(link, me, ev), k, issued, me, t)
    {
      if Accepts(ev, me, t) {
        StepTokenAccepted(link, k, issued, me, ev, t);
      } else {
        StepToken(link, k, issued, me, ev, t);
      }
    }
  }

  lemma {:induction false} AddressedConcat(a: seq<Packet>, b: seq<Packet>, me: ClientId)
    ensures Addressed(a + b, me) == Addressed(a, me) + Addressed(b, me)
  {
    if b == [] {
      assert a + b == a;
    } else {
      var n := |b| - 1;
      assert (a + b)[..|a + b| - 1] == a + b[..n];
      AddressedConcat(a, b[..n], me);
    }
  }

  lemma {:induction false} AddressedMine(packets: seq<Packet>, me: ClientId)
    ensures forall i :: 0 <= i < |Addressed(packets, me)| ==> Addressed(packets, me)[i].client == me
  {
    if packets != [] { AddressedMine(packets[..|packets| - 1], me); }
  }

  lemma ChannelStep(link: Link, k: ServerId, arrived: seq<Arrival>, me: ClientId, ev: Event)
    requires ChannelOk(link, k, arrived, me) && LinkReady(link, me, ev)
    ensures ChannelOk(StepLink(link, me, ev), k, arrived, me)
  {
    var sent, sent' := link.server.sent, Apply(link.server, ev).sent;
    SentGrows(link.server, ev);
    var packets := sent'[|sent|..];
    assert sent' == sent + packets;
    AddressedConcat(sent, packets, me);
    AddressedMine(packets, me);
    var mine := Addressed(packets, me);
    assert ReadFrom(arrived, k, me) + (link.down + mine) == (ReadFrom(arrived, k, me) + link.down) + mine;
  }

  lemma ReadFromAppend(arrived: seq<Arrival>, a: Arrival, k: ServerId, me: ClientId)
    ensures ReadFrom(arrived + [a], k, me)
         == ReadFrom(arrived, k, me)
            + if a.message.server == k then [Packet(me, a.token, a.message.payload)] else []
  {
    assert (arrived + [a])[..|arrived|] == arrived;
  }

  lemma ChannelReceive(link: Link, k: ServerId, arrived: seq<Arrival>, me: ClientId)
    requires ChannelOk(link, k, arrived, me) && link.down != []
    ensures ChannelOk(link.(down := link.down[1..]), k,
                      arrived + [Arrival(link.down[0].token, Message(k, link.down[0].payload))], me)
  {
    var p := link.down[0];
    ReadFromAppend(arrived, Arrival(p.token, Message(k, p.payload)), k, me);
    assert link.down == [p] + link.down[1..];
    assert ReadFrom(arrived, k, me) + ([p] + link.down[1..]) == (ReadFrom(arrived, k, me) + [p]) + link.down[1..];
  }

  // ----- The whole system -----

  lemma InitInv(sys: System, me: ClientId)
    requires Init(sys)
    ensures Inv(sys, me)
  {
    forall k | k in sys.links
      ensures LinkOk(sys.links[k], k, sys.issued, me)
    {
      forall t
        ensures TokenOk(sys.links[k], k, sys.issued, me, t)
      {
      }
    }
  }

  lemma IssuedStep(sys: System, me: ClientId, e: SystemEvent)
    requires IssuedOk(sys) && Ready(sys, me, e)
    ensures IssuedOk(Next(sys, me, e))
  {
  }

  lemma LinksStep(sys: System, me: ClientId, e: SystemEvent)
    requires IssuedOk(sys) && LinksOk(sys, me) && Ready(sys, me, e)
    ensures LinksOk(Next(sys, me, e), me)
  {
    var sys' := Next(sys, me, e);
    forall k | k in sys'.links
      ensures LinkOk(sys'.links[k], k, sys'.issued, me)
    {
      var link := sys.links[k];
      assert LinkOk(link, k, sys.issued, me);
      match e {
        case Send(k', r) =>
          if k == k' { LinkSend(link, k, sys.issued, me, r); } else { OtherLinkSend(link, k, sys.issued, me, k', r); }
        case Receive(k') => if k == k' { LinkReceive(link, k, sys.issued, me, link.down[1..]); }
        case ServerStep(k', ev) => if k == k' { LinkStep(link, k, sys.issued, me, ev); }
      }
    }
  }

  lemma ChannelsStep(sys: System, me: ClientId, e: SystemEvent)
    requires ChannelsOk(sys, me) && Ready(sys, me, e)
    ensures ChannelsOk(Next(sys, me, e), me)
  {
    var sys' := Next(sys, me, e);
    forall k | k in sys'.links
      ensures ChannelOk(sys'.links[k], k, sys'.arrived, me)
    {
      assert ChannelOk(sys.links[k], k, sys.arrived, me);
      match e {
        case Send(_, _) =>
        case Receive(k') =>
          var p := sys.links[k'].down[0];
          if k == k' {
            ChannelReceive(sys.links[k], k, sys.arrived, me);
          } else {
            ReadFromAppend(sys.arrived, Arrival(p.token, Message(k', p.payload)), k, me);
          }
        case ServerStep(k', ev) => if k == k' { ChannelStep(sys.links[k], k, sys.arrived, me, ev); }
      }
    }
  }

  /** Every event keeps the invariant. */
  lemma NextInv(sys: System, me: ClientId, e: SystemEvent)
    requires Inv(sys, me) && Ready(sys, me, e)
    ensures Inv(Next(sys, me, e), me)
  {
    IssuedStep(sys, me, e);
    LinksStep(sys, me, e);
    ChannelsStep(sys, me, e);
  }

  /** The invariant holds throughout every run. */
  lemma {:induction false} RunInv(run: seq<System>, me: ClientId, i: nat)
    requires IsRun(run, me) && i < |run|
    ensures Inv(run[i], me)
  {
    if i == 0 {
      InitInv(run[0], me);
    } else {
      RunInv(run, me, i - 1);
      assert StepAt(run, me, i - 1);
      var e :| Ready(run[i - 1], me, e) && run[i] == Next(run[i - 1], me, e);
      NextInv(run[i - 1], me, e);
    }
  }
}
