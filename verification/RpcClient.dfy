/**
 The receiving half of the Python RPC client, method by method, on a script of poll results.  A
 contract that holds for every script holds for every timing of the servers.
 */
module RpcClient {
  import opened Wrappers
  import opened WriteServer
  import opened ClientBuffer
  import opened ClientWaits
  import opened PollScript
  import opened Sequences

  class Network {
    var polls: Script

    constructor (script: Script)
      ensures polls == script
    {
      polls := script;
    }

    method Poll() returns (events: seq<Arrival>)
      modifies this
      ensures events == First(old(polls)) && polls == Rest(old(polls))
    {
      if polls == [] {
        events := [];
      } else {
        events, polls := polls[0], polls[1..];
      }
    }
  }

  class RpcClient {
    var token: Token
    var received: Buffer
    /** Every request sent, with the server and the token it was sent under. */
    var outbox: seq<(ServerId, Token)>

    constructor ()
      ensures token == 0 && received == map[] && outbox == [] && NoEmpty(received)
    {
      token, received, outbox := 0, map[], [];
    }

    method PopToken(t: Token) returns (m: Option<Message>)
      requires NoEmpty(received)
      modifies this`received
      ensures NoEmpty(received)
      ensures m == Pop(old(received), t).0 && received == Pop(old(received), t).1
    {
      if t !in received {
        return None;
      }
      var msgs := received[t];
      m := Some(msgs[0]);
      if |msgs| == 1 {
        received := received - {t};
      } else {
        received := received[t := msgs[1..]];
      }
    }

    method HandleParts(a: Arrival)
      modifies this`received
      ensures received == Deliver(old(received), a)
    {
      if a.token in received {
        received := received[a.token := received[a.token] + [a.message]];
      } else {
        assert [] + [a.message] == [a.message];
        received := received[a.token := [a.message]];
      }
    }

    /** Buffers the messages of one poll, socket by socket. */
    method HandleEvents(events: seq<Arrival>)
      modifies this`received
      ensures received == DeliverAll(old(received), events)
    {
      for i := 0 to |events|
        invariant received == DeliverAll(old(received), events[..i])
      {
        assert events[..i + 1][..i] == events[..i];
        HandleParts(events[i]);
      }
      assert events[..|events|] == events;
    }

    /** Polls without blocking until a poll finds nothing. */
    method ReadWaiting(net: Network) returns (some: bool, ghost arrived: seq<Arrival>)
      modifies this`received, net
      ensures (arrived, net.polls) == Drained(old(net.polls))
      ensures received == DeliverAll(old(received), arrived)
      ensures some <==> arrived != []
    {
      some, arrived := false, [];
      ghost var script := net.polls;
      while true
        invariant DrainsTo(script, arrived, net.polls)
        invariant received == DeliverAll(old(received), arrived)
        invariant some <==> arrived != []
        decreases |net.polls|
      {
        DrainNext(script, arrived, net.polls);
        var events := net.Poll();
        if events == [] {
          break;
        }
        DeliverAllConcat(old(received), arrived, events);
        HandleEvents(events);
        some, arrived := true, arrived + events;
      }
    }

    /** Reads whatever is waiting; only when nothing is, waits once, and false means that this wait timed out. */
    method Receive(net: Network) returns (some: bool, ghost arrived: seq<Arrival>)
      modifies this`received, net
      ensures (arrived, net.polls) == Received(old(net.polls))
      ensures received == DeliverAll(old(received), arrived)
      ensures some <==> !Idle(old(net.polls))
    {
      some, arrived := ReadWaiting(net);
      if some {
        return;
      }
      var events := net.Poll();
      HandleEvents(events);
      some, arrived := events != [], events;
    }

    /** One pass over the tokens still waited for: the ones served are removed after it. */
    method TakePass(todo: seq<Token>, got: map<Token, Message>) returns (left: seq<Token>, got': map<Token, Message>)
      requires NoEmpty(received)
      modifies this`received
      ensures Waiting(received, left, got') == Pass(old(received), todo, got)
    {
      ghost var rest := [];
      var done := [];
      got' := got;
      for i := 0 to |todo|
        invariant NoEmpty(received)
        invariant Waiting(received, rest, got') == Pass(old(received), todo[..i], got)
        invariant Removes(todo[..i], done, rest)
      {
        TakeNext(old(received), todo, i, got, done);
        var m := PopToken(todo[i]);
        if m.Some? {
          done := done + [todo[i]];
          got' := got'[todo[i] := m.value];
        } else {
          rest := rest + [todo[i]];
        }
      }
      assert todo[..|todo|] == todo;
      left := RemoveDone(todo, done);
    }

    method RemoveDone(todo: seq<Token>, done: seq<Token>) returns (left: seq<Token>)
      requires Removable(todo, done)
      ensures left == RemoveAll(todo, done)
    {
      left := todo;
      for i := 0 to |done|
        invariant left == RemoveAll(todo, done[..i])
      {
        assert done[..i + 1][..i] == done[..i];
        RemovableAt(todo, done, i);
        assert done[i] in left;
        left := Remove(left, done[i]);
      }
      assert done[..|done|] == done;
    }

    /** One round of the waiting loop; `more` is false when it has to stop. */
    method Round(todo: seq<Token>, got: map<Token, Message>, net: Network)
      returns (left: seq<Token>, got': map<Token, Message>, more: bool)
      requires NoEmpty(received)
      modifies this`received, net
      ensures NoEmpty(received)
      ensures |net.polls| <= |old(net.polls)| && (more ==> |net.polls| < |old(net.polls)|)
      ensures Wait(old(received), old(net.polls), todo, got)
           == if more then Wait(received, net.polls, left, got') else Waited(received, net.polls, got', left)
    {
      left, got' := TakePass(todo, got);
      if left == [] {
        return left, got', false;
      }
      ghost var arrived;
      more, arrived := Receive(net);
    }

    /**
     Waits until every token has a message or a wait times out.  Each result is the oldest
     message the client has had for its token, or the n-th oldest if the token is listed n
     times; nothing else leaves the buffer, and a missing result means that a wait timed out
     when nothing had come for its token.
     */
    method WaitForTokens(tokens: seq<Token>, net: Network)
      returns (results: seq<Option<Message>>, ghost arrived: seq<Arrival>, ghost waits: nat)
      requires NoEmpty(received)
      modifies this`received, net
      ensures NoEmpty(received)
      ensures var w := Wait(old(received), old(net.polls), tokens, map[]);
        received == w.buffer && net.polls == w.polls && results == Aligned(tokens, w.got)
      ensures Ran(old(net.polls), net.polls, arrived, waits)
      ensures Waits(old(received), old(net.polls), tokens, arrived, waits, received, results)
    {
      var todo, got, more := tokens, map[], true;
      ghost var before, script := received, net.polls;
      while todo != [] && more
        invariant NoEmpty(received)
        invariant Wait(before, script, tokens, map[])
               == if more then Wait(received, net.polls, todo, got) else Waited(received, net.polls, got, todo)
        decreases |net.polls|, more
      {
        todo, got, more := Round(todo, got, net);
      }
      arrived, waits := WaitPromises(before, script, tokens);
      results := Aligned(tokens, got);
    }

    /**
     Counts off the completions of one token; `raised` is a message that is not a completion.
     Fewer than `count` are returned only if a wait timed out.
     */
    method WaitForWrites(token: Token, count: nat, net: Network)
      returns (group: seq<Attributed>, raised: Option<Message>, ghost arrived: seq<Arrival>, ghost waits: nat)
      requires NoEmpty(received)
      modifies this`received, net
      ensures NoEmpty(received)
      ensures Tally(received, net.polls, group, raised) == CountOff(old(received), old(net.polls), token, count, [])
      ensures Tallied(old(received), old(net.polls), token, count, arrived, waits, Tally(received, net.polls, group, raised))
    {
      group, raised := [], None;
      ghost var before, script := received, net.polls;
      arrived, waits := CountPromises(before, script, token, count);
      var timedOut := false;
      while |group| < count && !timedOut
        invariant NoEmpty(received) && |group| <= count
        invariant CountOff(before, script, token, count, [])
               == if timedOut then Tally(received, net.polls, group, None)
                  else CountOff(received, net.polls, token, count, group)
        decreases !timedOut, count - |group|
      {
        ghost var now := Tally(received, net.polls, group, None);
        ghost var more, n;
        var results;
        results, more, n := WaitForTokens([token], net);
        CountStep(now, token, count);
        match results[0] {
          case None =>
            timedOut := true;
          case Some(m) =>
            if !m.payload.WriteDone? {
              return group, Some(m), arrived, waits;
            }
            group := group + [Attributed(m.server, m.payload.reply)];
        }
      }
    }

    /**
     Counts off the completions of every token against its list; a token without a list is
     skipped.  `raised` is a message that should have been a completion and was not.
     */
    method WaitForAllWrites(ghost before: Buffer, ghost script: Script, ghost arrived0: seq<Arrival>, ghost waits0: nat,
                            lists: seq<Option<seq<WriteReply>>>, tokens: seq<Token>, net: Network)
      returns (groups: seq<seq<Attributed>>, raised: Option<Message>, ghost arrived: seq<Arrival>, ghost waits: nat)
      requires NoEmpty(received) && Distinct(tokens)
      requires Ran(script, net.polls, arrived0, waits0) && SoFar(before, arrived0, received, tokens, lists, [])
      modifies this`received, net
      ensures NoEmpty(received)
      ensures Tallies(received, net.polls, groups, raised) == CountAll(old(received), old(net.polls), tokens, lists, [])
      ensures waits0 <= waits
      ensures AllTallied(before, script, tokens, lists, arrived, waits, Tallies(received, net.polls, groups, raised))
    {
      groups, raised := [], None;
      ghost var b, polls := received, net.polls;
      arrived, waits := AllServe(before, script, tokens, lists, arrived0, waits0, Tallies(received, net.polls, [], None));
      while |groups| < |tokens|
        invariant NoEmpty(received) && |groups| <= |tokens|
        invariant CountAll(b, polls, tokens, lists, []) == CountAll(received, net.polls, tokens, lists, groups)
      {
        var j := |groups|;
        if lists[j].None? {
          groups := groups + [[]];
          continue;
        }
        var group, bad;
        ghost var more, n;
        group, bad, more, n := WaitForWrites(tokens[j], |lists[j].value|, net);
        if bad.Some? {
          return groups, bad, arrived, waits;
        }
        groups := groups + [group];
      }
    }

    /**
     Asks the servers to write chunks and waits, first for the lists and then for every listed
     completion.  The tokens are fresh and name the servers in order.
     */
    method WriteChunks(servers: seq<ServerId>, net: Network)
      returns (tokens: seq<Token>, lists: seq<Option<seq<WriteReply>>>, groups: seq<seq<Attributed>>,
               raised: Option<Message>, ghost arrived: seq<Arrival>, ghost waits: nat)
      requires NoEmpty(received)
      modifies this, net
      ensures NoEmpty(received)
      ensures token == old(token) + |servers| && |tokens| == |servers|
      ensures forall i :: 0 <= i < |servers| ==> tokens[i] == old(token) + i + 1
      ensures outbox == old(outbox) + seq(|servers|, i requires 0 <= i < |servers| => (servers[i], old(token) + i + 1))
      ensures (lists, Tallies(received, net.polls, groups, raised)) == Collected(old(received), old(net.polls), tokens)
      ensures Ran(old(net.polls), net.polls, arrived, waits)
      ensures raised.None? ==> |groups| == |tokens|
      ensures raised.None? ==> SoFar(old(received), arrived, received, tokens, lists, groups)
      ensures raised.None? ==> Missing(old(received), old(net.polls), waits, tokens, lists)
      ensures raised.None? ==> Excused(old(received), old(net.polls), waits, tokens, lists, groups)
      ensures raised.Some? ==> Misread(old(received), arrived, tokens)
    {
      tokens := Send(servers);
      assert Distinct(tokens);
      lists, groups, raised, arrived, waits := Collect(tokens, net);
    }

    /** Waits for the lists and then for the completions. */
    method Collect(tokens: seq<Token>, net: Network)
      returns (lists: seq<Option<seq<WriteReply>>>, groups: seq<seq<Attributed>>, raised: Option<Message>,
               ghost arrived: seq<Arrival>, ghost waits: nat)
      requires NoEmpty(received) && Distinct(tokens)
      modifies this`received, net
      ensures NoEmpty(received)
      ensures (lists, Tallies(received, net.polls, groups, raised)) == Collected(old(received), old(net.polls), tokens)
      ensures AllTallied(old(received), old(net.polls), tokens, lists, arrived, waits,
                         Tallies(received, net.polls, groups, raised))
      ensures raised.None? ==> Missing(old(received), old(net.polls), waits, tokens, lists)
    {
      ghost var before, script := received, net.polls;
      ghost var first, n;
      lists, raised, first, n := ReceiveLists(tokens, net);
      groups, arrived, waits := [], first, n;
      if raised.None? {
        groups, raised, arrived, waits := WaitForAllWrites(before, script, first, n, lists, tokens, net);
        MissingOn(before, script, n, waits, tokens, lists);
      }
    }

    /** Waits for the first reply to each request, which must be a list. */
    method ReceiveLists(tokens: seq<Token>, net: Network)
      returns (lists: seq<Option<seq<WriteReply>>>, raised: Option<Message>, ghost arrived: seq<Arrival>, ghost waits: nat)
      requires NoEmpty(received) && Distinct(tokens)
      modifies this`received, net
      ensures NoEmpty(received) && Ran(old(net.polls), net.polls, arrived, waits)
      ensures var w := Wait(old(received), old(net.polls), tokens, map[]);
        received == w.buffer && net.polls == w.polls && (lists, raised) == Unpacked(Aligned(tokens, w.got))
      ensures raised.None? ==> SoFar(old(received), arrived, received, tokens, lists, [])
      ensures raised.None? ==> Missing(old(received), old(net.polls), waits, tokens, lists)
      ensures raised.Some? ==> Misread(old(received), arrived, tokens)
    {
      ghost var before, script := received, net.polls;
      var results;
      results, arrived, waits := WaitForTokens(tokens, net);
      lists, raised := Unpack(results);
      UnpackedIs(results);
      if raised.Some? {
        MisreadList(before, script, tokens, arrived, waits, received, results, raised.value);
      } else {
        ListsTaken(before, script, tokens, arrived, waits, received, results, lists);
      }
    }

    /** Sends one request per server, each under the next token. */
    method Send(servers: seq<ServerId>) returns (tokens: seq<Token>)
      modifies this`token, this`outbox
      ensures received == old(received)
      ensures token == old(token) + |servers| && |tokens| == |servers|
      ensures forall i :: 0 <= i < |servers| ==> tokens[i] == old(token) + i + 1
      ensures outbox == old(outbox) + seq(|servers|, i requires 0 <= i < |servers| => (servers[i], old(token) + i + 1))
    {
      tokens := [];
      for k := 0 to |servers|
        invariant received == old(received)
        invariant token == old(token) + k && |tokens| == k
        invariant forall i :: 0 <= i < k ==> tokens[i] == old(token) + i + 1
        invariant outbox == old(outbox) + seq(k, i requires 0 <= i < k => (servers[i], old(token) + i + 1))
      {
        token := token + 1;
        tokens := tokens + [token];
        outbox := outbox + [(servers[k], token)];
      }
    }
  }

  /** The chunk lists among the first replies; the first reply that is no list is returned instead. */
  method Unpack(results: seq<Option<Message>>) returns (lists: seq<Option<seq<WriteReply>>>, misread: Option<Message>)
    ensures (lists, misread) == Unpacked(results)
    ensures misread.Some? ==> misread in results && !misread.value.payload.ChunkList?
    ensures misread.None? ==> ListsOf(results, lists)
  {
    UnpackedIs(results);
    lists, misread := [], None;
    for i := 0 to |results|
      invariant (lists, None) == Unpacked(results[..i])
    {
      assert results[..i + 1][..i] == results[..i];
      if results[i].None? {
        lists := lists + [None];
      } else if results[i].value.payload.ChunkList? {
        lists := lists + [Some(results[i].value.payload.replies)];
      } else {
        UnpackedStays(results, i + 1);
        return lists, results[i];
      }
    }
    assert results[..|results|] == results;
  }
}
