/**
 The client's `write_chunks(waitAll=True)` call, executed against any run of the whole system.
 */
module WriteCall {
  import opened Wrappers
  import opened WriteServer
  import opened TokenStreams
  import opened ClientBuffer
  import C = ClientWaits
  import opened PollScript
  import opened Sequences
  import R = RpcClient
  import opened WriteSystem
  import opened WriteGuarantees
  import opened WriteComplete

  // ----- Runs only add -----

  lemma StreamGrows(a: seq<Packet>, b: seq<Packet>, me: ClientId, t: Token)
    requires a <= b
    ensures Stream(a, me, t) <= Stream(b, me, t)
  {
    assert b == a + b[|a|..];
    StreamConcat(a, b[|a|..], me, t);
  }

  /** What a later state still has of one connection and one token. */
  ghost predicate Grown(sys: System, sys': System, me: ClientId, k: ServerId, t: Token) {
    k in sys.links ==>
      && k in sys'.links
      && Stream(sys.links[k].server.sent, me, t) <= Stream(sys'.links[k].server.sent, me, t)
      && Of(sys.arrived, t) <= Of(sys'.arrived, t)
      && (t in sys.issued ==> t in sys'.issued && sys'.issued[t] == sys.issued[t])
  }

  lemma StepGrows(sys: System, me: ClientId, e: SystemEvent, k: ServerId, t: Token)
    requires Ready(sys, me, e) && IssuedOk(sys)
    ensures Grown(sys, Next(sys, me, e), me, k, t)
  {
    match e {
      case Send(_, _) =>
      case Receive(_) => assert Next(sys, me, e).arrived[..|sys.arrived|] == sys.arrived;
      case ServerStep(k', ev) =>
        if k == k' {
          SentGrows(sys.links[k].server, ev);
          StreamGrows(sys.links[k].server.sent, Apply(sys.links[k].server, ev).sent, me, t);
        }
    }
  }

  lemma GrownTrans(a: System, b: System, c: System, me: ClientId, k: ServerId, t: Token)
    requires Grown(a, b, me, k, t) && Grown(b, c, me, k, t)
    ensures Grown(a, c, me, k, t)
  {
  }

  lemma NextGrows(run: seq<System>, me: ClientId, i: nat, k: ServerId, t: Token)
    requires IsRun(run, me) && i + 1 < |run|
    ensures Grown(run[i], run[i + 1], me, k, t)
  {
    RunInv(run, me, i);
    assert StepAt(run, me, i);
    var e :| Ready(run[i], me, e) && run[i + 1] == Next(run[i], me, e);
    StepGrows(run[i], me, e, k, t);
  }

  lemma {:induction false} RunGrows(run: seq<System>, me: ClientId, i: nat, j: nat, k: ServerId, t: Token)
    requires IsRun(run, me) && i <= j < |run|
    ensures Grown(run[i], run[j], me, k, t)
    decreases j
  {
    if i < j {
      RunGrows(run, me, i, j - 1, k, t);
      NextGrows(run, me, j - 1, k, t);
      GrownTrans(run[i], run[j - 1], run[j], me, k, t);
    }
  }

  /** Nothing was received under a token before its request was sent. */
  lemma NothingBeforeSending(run: seq<System>, me: ClientId, i: nat, t: Token)
    requires IsRun(run, me) && i < |run| && run[i].token < t
    ensures Of(run[i].arrived, t) == []
  {
    RunInv(run, me, i);
    if Of(run[i].arrived, t) != [] {
      var n := FirstOf(run[i].arrived, t);
      ArrivalAttributed(run[i], me, n);
    }
  }

  lemma {:induction false} FirstOf(arrived: seq<Arrival>, t: Token) returns (n: nat)
    requires Of(arrived, t) != []
    ensures n < |arrived| && arrived[n].token == t
  {
    var last := |arrived| - 1;
    if arrived[last].token == t { return last; }
    n := FirstOf(arrived[..last], t);
  }

  // ----- After the call -----

  /**
   Once a token's completions have all been returned, no later step of any run produces
   another message for it: nothing arrives, and nothing is in flight.
   */
  lemma SettledForever(run: seq<System>, me: ClientId, i: nat, j: nat, t: Token, list: seq<WriteReply>,
                       group: seq<C.Attributed>, left: seq<Message>)
    requires IsRun(run, me) && i <= j < |run| && t in run[i].issued && run[i].issued[t].1.WriteChunks?
    requires C.Settled(Of(run[i].arrived, t), left, Some(list), group)
    requires |group| == |list|
    ensures Of(run[j].arrived, t) == Of(run[i].arrived, t)
    ensures run[i].issued[t].0 in run[j].links
    ensures Stream(run[j].links[run[i].issued[t].0].down, me, t) == []
  {
    var k, had, later := run[i].issued[t].0, Of(run[i].arrived, t), Of(run[j].arrived, t);
    RunGrows(run, me, i, j, k, t);
    RunExact(run, me, i, t, had, left, list, group);
    ListThenCompletions(run, me, j, t);
    assert later[0] == had[0];
    assert later == had;
    RunExact(run, me, j, t, later, left, list, group);
  }

  lemma RunExact(run: seq<System>, me: ClientId, i: nat, t: Token, had: seq<Message>, left: seq<Message>,
                 list: seq<WriteReply>, group: seq<C.Attributed>)
    requires IsRun(run, me) && i < |run| && t in run[i].issued && run[i].issued[t].1.WriteChunks?
    requires had <= Of(run[i].arrived, t)
    requires C.Settled(had, left, Some(list), group) && |group| == |list|
    ensures run[i].issued[t].0 in run[i].links
    ensures |had| == 1 + |list|
    ensures Stream(run[i].links[run[i].issued[t].0].down, me, t) == []
  {
    RunInv(run, me, i);
    OutcomeExact(run[i], me, t, had, left, list, group);
  }

  // ----- The call -----

  /**
   The script is what the run delivers to the client after state `start`, when the client has
   issued `token` tokens and buffers nothing it has not received; the client's next requests
   in the run are the call's.
   */
  ghost predicate Delivers(run: seq<System>, me: ClientId, start: nat, token: Token, buffer: Buffer,
                           script: Script, servers: seq<ServerId>)
  {
    && IsRun(run, me) && start < |run|
    && token == run[start].token
    && (forall t :: |At(buffer, t)| <= |Of(run[start].arrived, t)|)
    && run[|run| - 1].arrived == run[start].arrived + Joined(script)
    && forall i :: 0 <= i < |servers| ==> SentWrite(run[|run| - 1], token + i + 1, servers[i])
  }

  ghost predicate SentWrite(sys: System, t: Token, k: ServerId) {
    t in sys.issued && sys.issued[t] == (k, WriteChunks(t))
  }

  /** The completions returned are the first ones the server has sent for the token, in its order. */
  ghost predicate Front(sys: System, me: ClientId, k: ServerId, t: Token, group: seq<C.Attributed>) {
    && k in sys.links && sys.links[k].server.drained <= |sys.links[k].server.log|
    && |group| <= |Delivered(sys.links[k].server, me, t)|
    && group == Completed(k, Delivered(sys.links[k].server, me, t)[..|group|])
  }

  /**
   What the call promises for one token: the exact completions of its list, unless one of its
   waits timed out when no more than what was returned had come for the token.
   */
  ghost predicate Promised(sys: System, me: ClientId, k: ServerId, t: Token, buffer: Buffer, script: Script, waits: nat,
                           list: Option<seq<WriteReply>>, group: seq<C.Attributed>, left: seq<Message>)
  {
    match list
    case None => group == [] && C.Starved(buffer, script, waits, t, 0)
    case Some(l) =>
      && |group| <= |l| && Front(sys, me, k, t, group)
      && if |group| == |l| then Exact(sys, me, k, t, l, group, left) else C.Starved(buffer, script, waits, t, 1 + |group|)
  }

  /** What the client has had under a new token is a first part of what the whole run delivers. */
  lemma HadIsPrefix(run: seq<System>, me: ClientId, start: nat, before: Buffer, polls: Script,
                    after: Script, arrived: seq<Arrival>, waits: nat, t: Token)
    requires IsRun(run, me) && start < |run| && run[start].token < t
    requires |At(before, t)| <= |Of(run[start].arrived, t)|
    requires run[|run| - 1].arrived == run[start].arrived + Joined(polls)
    requires Ran(polls, after, arrived, waits)
    ensures C.Had(before, arrived, t) <= Of(run[|run| - 1].arrived, t)
  {
    NothingBeforeSending(run, me, start, t);
    RanSplits(polls, after, arrived, waits);
    OfConcat(arrived, Joined(after), t);
    OfConcat(run[start].arrived, Joined(polls), t);
  }

  /** The token's request is a `write_chunks` sent to the server, and the messages are among those received under it. */
  ghost predicate Reached(run: seq<System>, me: ClientId, k: ServerId, t: Token, had: seq<Message>) {
    IsRun(run, me) && SentWrite(run[|run| - 1], t, k) && had <= Of(run[|run| - 1].arrived, t)
  }

  /** What the call makes of one token's messages keeps its promise. */
  lemma TokenPromised(run: seq<System>, me: ClientId, k: ServerId, t: Token, had: seq<Message>, left: seq<Message>,
                      list: seq<WriteReply>, group: seq<C.Attributed>)
    requires Reached(run, me, k, t, had) && C.Settled(had, left, Some(list), group)
    ensures Front(run[|run| - 1], me, k, t, group)
    ensures |group| == |list| ==> Exact(run[|run| - 1], me, k, t, list, group, left)
  {
    var sys := run[|run| - 1];
    RunHistory(run, me, |run| - 1, t);
    SettledPrefix(sys.links[k].server, k, me, t, Stream(sys.links[k].server.sent, me, t), had, left, list, group);
    if |group| == |list| {
      RunInv(run, me, |run| - 1);
      OutcomeExact(sys, me, t, had, left, list, group);
    }
  }

  lemma PrefixListFirst(run: seq<System>, me: ClientId, t: Token, had: seq<Message>)
    requires IsRun(run, me)
    requires var sys := run[|run| - 1];
             t in sys.issued && sys.issued[t].1.WriteChunks? && had <= Of(sys.arrived, t)
    ensures C.ListFirst(had)
  {
    ListThenCompletions(run, me, |run| - 1, t);
  }

  ghost predicate Fresh(tokens: seq<Token>, token: Token) {
    forall j :: 0 <= j < |tokens| ==> tokens[j] == token + j + 1
  }

  /** The call never meets a message out of place. */
  lemma NeverMisread(run: seq<System>, me: ClientId, start: nat, token: Token, buffer: Buffer,
                     script: Script, servers: seq<ServerId>, tokens: seq<Token>,
                     rest: Script, arrived: seq<Arrival>, waits: nat, j: nat)
    requires Delivers(run, me, start, token, buffer, script, servers)
    requires |tokens| == |servers| && Fresh(tokens, token) && j < |servers|
    requires Ran(script, rest, arrived, waits)
    ensures Reached(run, me, servers[j], tokens[j], C.Had(buffer, arrived, tokens[j]))
    ensures C.ListFirst(C.Had(buffer, arrived, tokens[j]))
  {
    HadIsPrefix(run, me, start, buffer, script, rest, arrived, waits, tokens[j]);
    assert SentWrite(run[|run| - 1], token + j + 1, servers[j]);
    PrefixListFirst(run, me, tokens[j], C.Had(buffer, arrived, tokens[j]));
  }

  lemma OutcomeAt(buffer: Buffer, arrived: seq<Arrival>, after: Buffer, tokens: seq<Token>,
                  lists: seq<Option<seq<WriteReply>>>, groups: seq<seq<C.Attributed>>, j: nat)
    requires C.SoFar(buffer, arrived, after, tokens, lists, groups) && j < |groups|
    ensures C.Settled(C.Had(buffer, arrived, tokens[j]), At(after, tokens[j]), lists[j], groups[j])
  {
    assert C.OutcomeOf(buffer, arrived, after, tokens, lists, groups, j);
  }

  /** What the call has made of one token's messages, and why it is no more. */
  ghost predicate Made(buffer: Buffer, script: Script, waits: nat, t: Token, had: seq<Message>,
                       list: Option<seq<WriteReply>>, group: seq<C.Attributed>, left: seq<Message>)
  {
    && C.Settled(had, left, list, group)
    && (list.None? ==> C.Starved(buffer, script, waits, t, 0))
    && (list.Some? && |group| < |list.value| ==> C.Starved(buffer, script, waits, t, 1 + |group|))
  }

  lemma CallMade(buffer: Buffer, script: Script, waits: nat, arrived: seq<Arrival>, after: Buffer, tokens: seq<Token>,
                 lists: seq<Option<seq<WriteReply>>>, groups: seq<seq<C.Attributed>>, j: nat)
    requires C.SoFar(buffer, arrived, after, tokens, lists, groups) && j < |groups|
    requires C.Missing(buffer, script, waits, tokens, lists) && C.Excused(buffer, script, waits, tokens, lists, groups)
    ensures Made(buffer, script, waits, tokens[j], C.Had(buffer, arrived, tokens[j]), lists[j], groups[j], At(after, tokens[j]))
  {
    OutcomeAt(buffer, arrived, after, tokens, lists, groups, j);
    StarvedAt(buffer, script, waits, tokens, lists, groups, j);
  }

  lemma CallPromised(run: seq<System>, me: ClientId, start: nat, token: Token, buffer: Buffer,
                     script: Script, servers: seq<ServerId>, tokens: seq<Token>,
                     rest: Script, arrived: seq<Arrival>, waits: nat, j: nat,
                     list: Option<seq<WriteReply>>, group: seq<C.Attributed>, left: seq<Message>)
    requires Delivers(run, me, start, token, buffer, script, servers)
    requires |tokens| == |servers| && Fresh(tokens, token) && j < |servers|
    requires Ran(script, rest, arrived, waits)
    requires Made(buffer, script, waits, tokens[j], C.Had(buffer, arrived, tokens[j]), list, group, left)
    ensures Promised(run[|run| - 1], me, servers[j], tokens[j], buffer, script, waits, list, group, left)
  {
    NeverMisread(run, me, start, token, buffer, script, servers, tokens, rest, arrived, waits, j);
    PromisedFrom(run, me, servers[j], tokens[j], buffer, script, waits, C.Had(buffer, arrived, tokens[j]), list, group, left);
  }

  lemma PromisedFrom(run: seq<System>, me: ClientId, k: ServerId, t: Token, buffer: Buffer, script: Script, waits: nat,
                     had: seq<Message>, list: Option<seq<WriteReply>>, group: seq<C.Attributed>, left: seq<Message>)
    requires Reached(run, me, k, t, had) && Made(buffer, script, waits, t, had, list, group, left)
    ensures Promised(run[|run| - 1], me, k, t, buffer, script, waits, list, group, left)
  {
    if list.Some? { TokenPromised(run, me, k, t, had, left, list.value, group); }
  }

  lemma StarvedAt(buffer: Buffer, script: Script, waits: nat, tokens: seq<Token>, lists: seq<Option<seq<WriteReply>>>,
                  groups: seq<seq<C.Attributed>>, j: nat)
    requires C.Missing(buffer, script, waits, tokens, lists) && C.Excused(buffer, script, waits, tokens, lists, groups)
    requires j < |groups|
    ensures lists[j].None? ==> C.Starved(buffer, script, waits, tokens[j], 0)
    ensures lists[j].Some? && |groups[j]| < |lists[j].value| ==> C.Starved(buffer, script, waits, tokens[j], 1 + |groups[j]|)
  {
    assert C.MissingOf(buffer, script, waits, tokens, lists, j);
    assert C.ExcusedOf(buffer, script, waits, tokens, lists, groups, j);
  }

  // ----- Complete runs -----

  /** Where no wait times out early, one that timed out had had everything the run delivers for the token. */
  lemma StarvedHadAll(run: seq<System>, me: ClientId, start: nat, before: Buffer, script: Script, waits: nat,
                      t: Token, n: nat)
    requires IsRun(run, me) && start < |run| && run[start].token < t
    requires |At(before, t)| <= |Of(run[start].arrived, t)|
    requires run[|run| - 1].arrived == run[start].arrived + Joined(script)
    requires Patient(script, waits) && C.Starved(before, script, waits, t, n)
    ensures n == |Of(run[|run| - 1].arrived, t)|
  {
    NothingBeforeSending(run, me, start, t);
    var arrived :| GaveUp(script, waits, arrived) && |C.Had(before, arrived, t)| == n;
    PatientHasAll(script, waits, arrived);
    OfConcat(run[start].arrived, arrived, t);
  }

  /** If the server is finished with the request and no wait timed out early, the list is there and the group is full. */
  lemma PromisedInFull(run: seq<System>, me: ClientId, start: nat, token: Token, buffer: Buffer, script: Script,
                       waits: nat, servers: seq<ServerId>, t: Token, k: ServerId, had: seq<Message>,
                       list: Option<seq<WriteReply>>, group: seq<C.Attributed>, left: seq<Message>)
    requires Delivers(run, me, start, token, buffer, script, servers) && token < t && Patient(script, waits)
    requires Handled(run[|run| - 1], me, k, t)
    requires had <= Of(run[|run| - 1].arrived, t) && C.Settled(had, left, list, group)
    requires Promised(run[|run| - 1], me, k, t, buffer, script, waits, list, group, left)
    ensures list.Some? && |group| == |list.value|
  {
    HandledRun(run, me, k, t);
    if list.None? {
      StarvedHadAll(run, me, start, buffer, script, waits, t, 0);
    } else if |group| < |list.value| {
      StarvedHadAll(run, me, start, buffer, script, waits, t, 1 + |group|);
    }
    FullCount(Of(run[|run| - 1].arrived, t), had, left, list, group);
  }

  lemma HandledRun(run: seq<System>, me: ClientId, k: ServerId, t: Token)
    requires IsRun(run, me) && Handled(run[|run| - 1], me, k, t)
    ensures ReceivedInFull(Of(run[|run| - 1].arrived, t))
  {
    RunInv(run, me, |run| - 1);
    HandledReceived(run[|run| - 1], me, k, t);
  }

  lemma FullCount(all: seq<Message>, had: seq<Message>, left: seq<Message>, list: Option<seq<WriteReply>>,
                  group: seq<C.Attributed>)
    requires ReceivedInFull(all) && had <= all && C.Settled(had, left, list, group)
    requires list.None? ==> |all| == 0
    requires list.Some? && |group| < |list.value| ==> |all| == 1 + |group|
    ensures list.Some? && |group| == |list.value|
  {
    assert list.Some? ==> all[0] == had[0];
  }

  lemma CallInFull(run: seq<System>, me: ClientId, start: nat, token: Token, buffer: Buffer,
                   script: Script, servers: seq<ServerId>, tokens: seq<Token>,
                   rest: Script, arrived: seq<Arrival>, waits: nat, j: nat,
                   list: Option<seq<WriteReply>>, group: seq<C.Attributed>, left: seq<Message>)
    requires Delivers(run, me, start, token, buffer, script, servers)
    requires |tokens| == |servers| && Fresh(tokens, token) && j < |servers|
    requires Ran(script, rest, arrived, waits)
    requires Made(buffer, script, waits, tokens[j], C.Had(buffer, arrived, tokens[j]), list, group, left)
    requires Promised(run[|run| - 1], me, servers[j], tokens[j], buffer, script, waits, list, group, left)
    requires Patient(script, waits) && Handled(run[|run| - 1], me, servers[j], tokens[j])
    ensures InFull(run[|run| - 1], me, servers[j], tokens[j], list, group, left)
  {
    NeverMisread(run, me, start, token, buffer, script, servers, tokens, rest, arrived, waits, j);
    PromisedInFull(run, me, start, token, buffer, script, waits, servers, tokens[j], servers[j],
                   C.Had(buffer, arrived, tokens[j]), list, group, left);
  }

  /** The list has come, and the group is exactly the completions of its chunks, with nothing left behind. */
  ghost predicate InFull(sys: System, me: ClientId, k: ServerId, t: Token, list: Option<seq<WriteReply>>,
                         group: seq<C.Attributed>, left: seq<Message>)
  {
    list.Some? && k in sys.links && |group| == |list.value| && Exact(sys, me, k, t, list.value, group, left)
  }

  /** A call none of whose waits timed out has all lists and all their completions, whatever else happened. */
  lemma UnhurriedInFull(sys: System, me: ClientId, k: ServerId, t: Token, buffer: Buffer, script: Script, waits: nat,
                        list: Option<seq<WriteReply>>, group: seq<C.Attributed>, left: seq<Message>)
    requires Promised(sys, me, k, t, buffer, script, waits, list, group, left) && Unhurried(script, waits)
    ensures InFull(sys, me, k, t, list, group, left)
  {
    NeverStarved(buffer, script, waits, t, 0);
    NeverStarved(buffer, script, waits, t, 1 + |group|);
  }

  lemma NeverStarved(buffer: Buffer, script: Script, waits: nat, t: Token, n: nat)
    requires Unhurried(script, waits)
    ensures !C.Starved(buffer, script, waits, t, n)
  {
    assert forall arrived :: !GaveUp(script, waits, arrived);
  }

  /**
   End to end: in every interleaving of the client, the servers, their I/O threads and their
   other clients, the call never misreads a message and names the right server for every result.
   It returns exactly the completions of all chunks its tokens' servers listed, token by token and
   in server order, with nothing left buffered or in flight, except where one of its waits timed
   out.  If none did, that is every token.  And if none did while something was still to come,
   it is every token that its server is finished with at the end of the run.
   */
  method WriteChunksAndWait(client: R.RpcClient, net: R.Network, servers: seq<ServerId>,
                            ghost run: seq<System>, ghost me: ClientId, ghost start: nat)
    returns (results: seq<C.Attributed>, tokens: seq<Token>, lists: seq<Option<seq<WriteReply>>>,
             groups: seq<seq<C.Attributed>>, ghost waits: nat, ghost starts: seq<nat>)
    requires NoEmpty(client.received)
    requires Delivers(run, me, start, client.token, client.received, net.polls, servers)
    modifies client, net
    ensures |tokens| == |lists| == |groups| == |servers|
    ensures |starts| == |groups| + 1 && starts[0] == 0 && starts[|groups|] == |results|
    ensures forall j :: 0 <= j < |groups| ==>
      starts[j + 1] == starts[j] + |groups[j]| <= |results| && results[starts[j]..starts[j + 1]] == groups[j]
    ensures Fresh(tokens, old(client.token)) && net.polls == Begins(old(net.polls), waits)
    ensures (lists, C.Tallies(client.received, net.polls, groups, None))
         == C.Collected(old(client.received), old(net.polls), tokens)
    ensures forall j :: 0 <= j < |servers| ==>
      Promised(run[|run| - 1], me, servers[j], tokens[j], old(client.received), old(net.polls), waits,
               lists[j], groups[j], At(client.received, tokens[j]))
    ensures Unhurried(old(net.polls), waits) ==> forall j :: 0 <= j < |servers| ==>
      InFull(run[|run| - 1], me, servers[j], tokens[j], lists[j], groups[j], At(client.received, tokens[j]))
    ensures Patient(old(net.polls), waits) ==> forall j :: 0 <= j < |servers| ==>
      (Handled(run[|run| - 1], me, servers[j], tokens[j]) ==>
         InFull(run[|run| - 1], me, servers[j], tokens[j], lists[j], groups[j], At(client.received, tokens[j])))
  {
    ghost var token, buffer, script := client.token, client.received, net.polls;
    var raised;
    ghost var arrived;
    tokens, lists, groups, raised, arrived, waits := client.WriteChunks(servers, net);
    ghost var rest, after := net.polls, client.received;
    if raised.Some? {
      ghost var j :| 0 <= j < |tokens| && !C.ListFirst(C.Had(buffer, arrived, tokens[j]));
      NeverMisread(run, me, start, token, buffer, script, servers, tokens, rest, arrived, waits, j);
      assert false;
    }
    forall j | 0 <= j < |servers|
      ensures Promised(run[|run| - 1], me, servers[j], tokens[j], buffer, script, waits, lists[j], groups[j],
                       At(after, tokens[j]))
      ensures Unhurried(script, waits) || (Patient(script, waits) && Handled(run[|run| - 1], me, servers[j], tokens[j])) ==>
        InFull(run[|run| - 1], me, servers[j], tokens[j], lists[j], groups[j], At(after, tokens[j]))
    {
      ghost var left := At(after, tokens[j]);
      CallMade(buffer, script, waits, arrived, after, tokens, lists, groups, j);
      CallPromised(run, me, start, token, buffer, script, servers, tokens, rest, arrived, waits, j, lists[j], groups[j], left);
      if Unhurried(script, waits) {
        UnhurriedInFull(run[|run| - 1], me, servers[j], tokens[j], buffer, script, waits, lists[j], groups[j], left);
      } else if Patient(script, waits) && Handled(run[|run| - 1], me, servers[j], tokens[j]) {
        CallInFull(run, me, start, token, buffer, script, servers, tokens, rest, arrived, waits, j, lists[j], groups[j], left);
      }
    }
    results := Joined(groups);
    starts := JoinedIsPieces(groups);
  }
}
