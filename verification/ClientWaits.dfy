/**
 What the client's waits compute, as functions of its buffer and the script of polls, and what
 they promise: every message a caller gets is the oldest it has had for the token, nothing else
 leaves the buffer, and a wait comes back empty-handed only if it timed out.
 */
module ClientWaits {
  import opened Wrappers
  import opened WriteServer
  import opened ClientBuffer
  import opened PollScript
  import opened Sequences

  /** How a wait for tokens ends: `left` are those it has timed out for. */
  datatype Waited = Waited(buffer: Buffer, polls: Script, got: map<Token, Message>, left: seq<Token>)

  function Wait(b: Buffer, polls: Script, todo: seq<Token>, got: map<Token, Message>): (r: Waited)
    requires NoEmpty(b)
    ensures NoEmpty(r.buffer)
    decreases |polls|
  {
    var w := Pass(b, todo, got);
    if w.todo == [] then Waited(w.buffer, polls, w.got, [])
    else
      var (arrived, after) := Received(polls);
      if arrived == [] then Waited(w.buffer, after, w.got, w.todo)
      else Wait(DeliverAll(w.buffer, arrived), after, w.todo, w.got)
  }

  /** How counting off a token's completions ends: with the count, with a wait that timed out, or with a misread message. */
  datatype Tally = Tally(buffer: Buffer, polls: Script, group: seq<Attributed>, misread: Option<Message>)

  function CountOff(b: Buffer, polls: Script, token: Token, count: nat, group: seq<Attributed>): (r: Tally)
    requires NoEmpty(b) && |group| <= count
    ensures NoEmpty(r.buffer)
    decreases count - |group|
  {
    if |group| == count then Tally(b, polls, group, None)
    else
      var w := Wait(b, polls, [token], map[]);
      if token !in w.got then Tally(w.buffer, w.polls, group, None)
      else
        var m := w.got[token];
        if !m.payload.WriteDone? then Tally(w.buffer, w.polls, group, Some(m))
        else CountOff(w.buffer, w.polls, token, count, group + [Attributed(m.server, m.payload.reply)])
  }

  /** One completion is counted off, a wait times out, or a message is misread. */
  function CountOne(now: Tally, m: Option<Message>, w: Waited): Tally {
    match m
    case None => Tally(w.buffer, w.polls, now.group, None)
    case Some(m) =>
      if !m.payload.WriteDone? then Tally(w.buffer, w.polls, now.group, Some(m))
      else Tally(w.buffer, w.polls, now.group + [Attributed(m.server, m.payload.reply)], None)
  }

  function CountNext(now: Tally, token: Token): (next: Tally)
    requires NoEmpty(now.buffer)
    ensures NoEmpty(next.buffer) && |next.group| <= |now.group| + 1
  {
    var w := Wait(now.buffer, now.polls, [token], map[]);
    CountOne(now, Find(w.got, token), w)
  }

  lemma CountStep(now: Tally, token: Token, count: nat)
    requires NoEmpty(now.buffer) && |now.group| < count
    ensures var next := CountNext(now, token);
      CountOff(now.buffer, now.polls, token, count, now.group) ==
        if next.misread == None && |next.group| > |now.group|
        then CountOff(next.buffer, next.polls, token, count, next.group) else next
  {
  }

  /** How counting off all tokens ends. */
  datatype Tallies = Tallies(buffer: Buffer, polls: Script, groups: seq<seq<Attributed>>, misread: Option<Message>)

  function CountAll(b: Buffer, polls: Script, tokens: seq<Token>, lists: seq<Option<seq<WriteReply>>>,
                    groups: seq<seq<Attributed>>): Tallies
    requires NoEmpty(b) && |groups| <= |tokens| == |lists|
    decreases |tokens| - |groups|
  {
    var j := |groups|;
    if j == |tokens| then Tallies(b, polls, groups, None)
    else if lists[j].None? then CountAll(b, polls, tokens, lists, groups + [[]])
    else
      var t := CountOff(b, polls, tokens[j], |lists[j].value|, []);
      if t.misread.Some? then Tallies(t.buffer, t.polls, groups, t.misread)
      else CountAll(t.buffer, t.polls, tokens, lists, groups + [t.group])
  }

  /** The tallies with that of one more token. */
  function Including(now: Tallies, t: Tally): Tallies {
    if t.misread.Some? then Tallies(t.buffer, t.polls, now.groups, t.misread)
    else Tallies(t.buffer, t.polls, now.groups + [t.group], None)
  }

  function CountAllNext(now: Tallies, tokens: seq<Token>, lists: seq<Option<seq<WriteReply>>>): (next: Tallies)
    requires NoEmpty(now.buffer) && |now.groups| < |tokens| == |lists| && now.misread == None
    ensures NoEmpty(next.buffer) && (next.misread == None ==> |next.groups| == |now.groups| + 1)
  {
    var j := |now.groups|;
    match lists[j]
    case None => now.(groups := now.groups + [[]])
    case Some(list) => Including(now, CountOff(now.buffer, now.polls, tokens[j], |list|, []))
  }

  lemma CountAllStep(now: Tallies, tokens: seq<Token>, lists: seq<Option<seq<WriteReply>>>)
    requires NoEmpty(now.buffer) && |now.groups| < |tokens| == |lists| && now.misread == None
    ensures var next := CountAllNext(now, tokens, lists);
      CountAll(now.buffer, now.polls, tokens, lists, now.groups) ==
        if next.misread == None then CountAll(next.buffer, next.polls, tokens, lists, next.groups) else next
  {
  }

  /** The lists that the first replies carry, up to a reply that is no list. */
  function Unpacked(results: seq<Option<Message>>): (r: (seq<Option<seq<WriteReply>>>, Option<Message>))
    ensures r.1.None? ==> |r.0| == |results|
  {
    if results == [] then ([], None)
    else
      var (lists, misread) := Unpacked(results[..|results| - 1]);
      if misread.Some? then (lists, misread)
      else
        match results[|results| - 1]
        case None => (lists + [None], None)
        case Some(m) => if m.payload.ChunkList? then (lists + [Some(m.payload.replies)], None) else (lists, Some(m))
  }

  lemma {:induction false} UnpackedStays(results: seq<Option<Message>>, i: nat)
    requires i <= |results| && Unpacked(results[..i]).1.Some?
    ensures Unpacked(results) == Unpacked(results[..i])
    decreases |results|
  {
    if i < |results| {
      assert results[..|results| - 1][..i] == results[..i];
      UnpackedStays(results[..|results| - 1], i);
    } else {
      assert results[..i] == results;
    }
  }

  /** What collecting the replies to requests computes: the lists, and then the completions. */
  function Collected(b: Buffer, polls: Script, tokens: seq<Token>): (seq<Option<seq<WriteReply>>>, Tallies)
    requires NoEmpty(b)
  {
    var w := Wait(b, polls, tokens, map[]);
    var (lists, misread) := Unpacked(Aligned(tokens, w.got));
    if misread.Some? then (lists, Tallies(w.buffer, w.polls, [], misread))
    else (lists, CountAll(w.buffer, w.polls, tokens, lists, []))
  }

  // ----- Waiting for tokens -----

  /** Everything the client has had for a token: what was buffered before, and what arrived since. */
  function Had(b: Buffer, arrived: seq<Arrival>, t: Token): seq<Message> {
    At(b, t) + Of(arrived, t)
  }

  /** The first `k` messages have been taken, and the result is the last of them. */
  predicate Popped(had: seq<Message>, left: seq<Message>, k: nat, r: Option<Message>) {
    k <= |had| && left == had[k..] && r == if k == 0 then None else Some(had[k - 1])
  }

  /** The outcome of waiting for a token `n` times: so many of its messages are taken, if there are, and the last is the result. */
  ghost predicate Served(before: Buffer, arrived: seq<Arrival>, after: Buffer, t: Token, n: nat, r: Option<Message>) {
    var had := Had(before, arrived, t);
    Popped(had, At(after, t), Share(n, had), r)
  }

  /** The outcome of waiting for a token once: its oldest message is taken, or there was none. */
  ghost predicate ServedOnce(before: Buffer, arrived: seq<Arrival>, after: Buffer, t: Token, r: Option<Message>) {
    var had := Had(before, arrived, t);
    match r
    case None => had == [] && At(after, t) == []
    case Some(m) => had != [] && m == had[0] && At(after, t) == had[1..]
  }

  lemma OnceServed(before: Buffer, arrived: seq<Arrival>, after: Buffer, t: Token, r: Option<Message>)
    requires Served(before, arrived, after, t, 1, r)
    ensures ServedOnce(before, arrived, after, t, r)
  {
  }

  ghost predicate Untouched(before: Buffer, arrived: seq<Arrival>, after: Buffer, t: Token) {
    At(after, t) == Had(before, arrived, t)
  }

  /** Between two rounds of waiting, a token has been served as often as it is not waited for any more. */
  ghost predicate Between(before: Buffer, tokens: seq<Token>, arrived: seq<Arrival>,
                          b: Buffer, todo: seq<Token>, got: map<Token, Message>, t: Token)
  {
    && multiset(todo)[t] <= multiset(tokens)[t]
    && Popped(Had(before, arrived, t), At(b, t), multiset(tokens)[t] - multiset(todo)[t], Find(got, t))
  }

  /** More arrivals keep every token between rounds. */
  lemma BetweenReceive(before: Buffer, tokens: seq<Token>, arrived: seq<Arrival>, more: seq<Arrival>,
                       b: Buffer, todo: seq<Token>, got: map<Token, Message>, t: Token)
    requires Between(before, tokens, arrived, b, todo, got, t)
    ensures Between(before, tokens, arrived + more, DeliverAll(b, more), todo, got, t)
  {
    var n := multiset(tokens)[t] - multiset(todo)[t];
    PoppedReceive(Had(before, arrived, t), At(b, t), n, Find(got, t), Of(more, t));
    assert Popped(Had(before, arrived + more, t), At(DeliverAll(b, more), t), n, Find(got, t)) by {
      HadMore(before, arrived, more, t);
      DeliverAllAt(b, more, t);
    }
  }

  lemma PoppedReceive(had: seq<Message>, left: seq<Message>, n: nat, r: Option<Message>, extra: seq<Message>)
    requires Popped(had, left, n, r)
    ensures Popped(had + extra, left + extra, n, r)
  {
    DropConcat(had, extra, n);
  }

  lemma HadMore(before: Buffer, arrived: seq<Arrival>, more: seq<Arrival>, t: Token)
    ensures Had(before, arrived + more, t) == Had(before, arrived, t) + Of(more, t)
  {
    OfConcat(arrived, more, t);
    Associate(At(before, t), Of(arrived, t), Of(more, t));
  }

  /** A pass takes the next messages of every token still waited for. */
  lemma BetweenPass(before: Buffer, tokens: seq<Token>, arrived: seq<Arrival>,
                    b: Buffer, todo: seq<Token>, got: map<Token, Message>, w: Waiting, t: Token)
    requires Between(before, tokens, arrived, b, todo, got, t) && Passed(b, todo, got, w, t)
    ensures Between(before, tokens, arrived, w.buffer, w.todo, w.got, t)
    ensures t in w.todo ==> At(w.buffer, t) == []
  {
    PoppedMore(Had(before, arrived, t), multiset(tokens)[t], At(b, t), Find(got, t),
               multiset(todo)[t], multiset(w.todo)[t], At(w.buffer, t), Find(w.got, t));
  }

  lemma PoppedMore(had: seq<Message>, n: nat, left: seq<Message>, r: Option<Message>,
                   asked: nat, still: nat, left': seq<Message>, r': Option<Message>)
    requires asked <= n && Popped(had, left, n - asked, r) && Shared(asked, left, still, left', r, r')
    ensures still <= n && Popped(had, left', n - still, r')
    ensures still > 0 ==> left' == []
  {
    var k := Share(asked, left);
    assert had[n - asked..][k..] == had[n - asked + k..];
    assert k > 0 ==> had[n - asked..][k - 1] == had[n - asked + k - 1];
  }

  /** The results in the order the tokens were asked for. */
  function Aligned(tokens: seq<Token>, got: map<Token, Message>): (r: seq<Option<Message>>)
    ensures |r| == |tokens|
  {
    seq(|tokens|, i requires 0 <= i < |tokens| => Find(got, tokens[i]))
  }

  // ----- Counting off -----

  /** A completion with the server it is attributed to. */
  datatype Attributed = Attributed(server: ServerId, reply: WriteReply)

  predicate IsCompletion(m: Message, a: Attributed) {
    m == Message(a.server, WriteDone(a.reply))
  }

  /** The group is the front of everything the client has had for the token, and the rest is still there. */
  ghost predicate Taken(before: Buffer, arrived: seq<Arrival>, after: Buffer, t: Token, group: seq<Attributed>) {
    TakenFrom(Had(before, arrived, t), At(after, t), group)
  }

  predicate TakenFrom(had: seq<Message>, left: seq<Message>, group: seq<Attributed>) {
    && |group| <= |had| && (forall i :: 0 <= i < |group| ==> IsCompletion(had[i], group[i]))
    && left == had[|group|..]
  }

  ghost predicate Counted(before: Buffer, arrived: seq<Arrival>, after: Buffer, t: Token, count: nat,
                          group: seq<Attributed>)
  {
    Taken(before, arrived, after, t, group) && |group| <= count && (|group| < count ==> At(after, t) == [])
  }

  lemma UntouchedTrans(before: Buffer, arrived: seq<Arrival>, b: Buffer, more: seq<Arrival>, after: Buffer, t: Token)
    requires Untouched(before, arrived, b, t) && Untouched(b, more, after, t)
    ensures Untouched(before, arrived + more, after, t)
  {
    HadMore(before, arrived, more, t);
  }

  lemma DropConcat(a: seq<Message>, b: seq<Message>, n: nat)
    requires n <= |a|
    ensures (a + b)[n..] == a[n..] + b
    ensures a[n..] + b != [] ==> n < |a + b| && (a + b)[n] == (a[n..] + b)[0] && (a + b)[n + 1..] == (a[n..] + b)[1..]
  {
  }

  /** Waiting for one token again, after `group` has been taken from it. */
  lemma WaitedForOne(before: Buffer, arrived: seq<Arrival>, b: Buffer, more: seq<Arrival>, after: Buffer,
                     token: Token, group: seq<Attributed>, r: Option<Message>)
    requires Taken(before, arrived, b, token, group)
    requires ServedOnce(b, more, after, token, r)
    ensures r.None? ==> Taken(before, arrived + more, after, token, group) && At(after, token) == []
    ensures r.Some? ==> r.value in Had(before, arrived + more, token)
    ensures r.Some? && r.value.payload.WriteDone? ==>
      Taken(before, arrived + more, after, token, group + [Attributed(r.value.server, r.value.payload.reply)])
  {
    var had, extra := Had(before, arrived, token), Of(more, token);
    HadMore(before, arrived, more, token);
    TakenMore(had, At(b, token), group, extra);
    if r.Some? { TakenNext(had + extra, At(b, token) + extra, group); }
  }

  lemma TakenMore(had: seq<Message>, left: seq<Message>, group: seq<Attributed>, extra: seq<Message>)
    requires TakenFrom(had, left, group)
    ensures TakenFrom(had + extra, left + extra, group)
  {
    DropConcat(had, extra, |group|);
  }

  lemma TakenNext(had: seq<Message>, left: seq<Message>, group: seq<Attributed>)
    requires TakenFrom(had, left, group) && left != []
    ensures left[0] in had
    ensures left[0].payload.WriteDone? ==>
      TakenFrom(had, left[1..], group + [Attributed(left[0].server, left[0].payload.reply)])
  {
    assert left[0] == had[|group|];
  }

  /** What a `write_chunks` call that waits for all writes makes of the messages of one token. */
  ghost predicate Settled(had: seq<Message>, left: seq<Message>, list: Option<seq<WriteReply>>, group: seq<Attributed>) {
    match list
    case None => group == [] && left == had
    case Some(l) =>
      && had != [] && had[0].payload == ChunkList(l)
      && |group| <= |l| && |group| < |had|
      && (forall i :: 0 <= i < |group| ==> IsCompletion(had[i + 1], group[i]))
      && left == had[|group| + 1..]
  }

  ghost predicate Outcome(before: Buffer, arrived: seq<Arrival>, after: Buffer, t: Token,
                          list: Option<seq<WriteReply>>, group: seq<Attributed>)
  {
    Settled(Had(before, arrived, t), At(after, t), list, group)
  }

  ghost predicate OutcomeOf(before: Buffer, arrived: seq<Arrival>, after: Buffer, tokens: seq<Token>,
                            lists: seq<Option<seq<WriteReply>>>, groups: seq<seq<Attributed>>, k: nat)
    requires k < |tokens| == |lists|
  {
    Outcome(before, arrived, after, tokens[k], lists[k], if k < |groups| then groups[k] else [])
  }

  /** The outcome of every token when the groups of the first tokens have been counted off. */
  ghost predicate SoFar(before: Buffer, arrived: seq<Arrival>, after: Buffer, tokens: seq<Token>,
                        lists: seq<Option<seq<WriteReply>>>, groups: seq<seq<Attributed>>)
  {
    && |groups| <= |tokens| == |lists|
    && forall k :: 0 <= k < |tokens| ==> OutcomeOf(before, arrived, after, tokens, lists, groups, k)
  }

  /** One of the waits timed out when `n` messages had been had for the token. */
  ghost predicate Starved(before: Buffer, script: Script, waits: nat, t: Token, n: nat) {
    exists arrived :: GaveUp(script, waits, arrived) && |Had(before, arrived, t)| == n
  }

  lemma StarvedOn(before: Buffer, script: Script, waits: nat, waits': nat, t: Token, n: nat)
    requires Starved(before, script, waits, t, n) && waits <= waits'
    ensures Starved(before, script, waits', t, n)
  {
    var arrived :| GaveUp(script, waits, arrived) && |Had(before, arrived, t)| == n;
    GaveUpOn(script, waits, waits', arrived);
  }

  ghost predicate ExcusedOf(before: Buffer, script: Script, waits: nat, tokens: seq<Token>,
                            lists: seq<Option<seq<WriteReply>>>, groups: seq<seq<Attributed>>, k: nat)
    requires k < |groups| <= |tokens| == |lists|
  {
    lists[k].Some? && |groups[k]| < |lists[k].value| ==> Starved(before, script, waits, tokens[k], 1 + |groups[k]|)
  }

  /** A group is shorter than its list only if a wait timed out when no more had come for its token. */
  ghost predicate Excused(before: Buffer, script: Script, waits: nat, tokens: seq<Token>,
                          lists: seq<Option<seq<WriteReply>>>, groups: seq<seq<Attributed>>)
  {
    && |groups| <= |tokens| == |lists|
    && forall k :: 0 <= k < |groups| ==> ExcusedOf(before, script, waits, tokens, lists, groups, k)
  }

  ghost predicate MissingOf(before: Buffer, script: Script, waits: nat, tokens: seq<Token>,
                            lists: seq<Option<seq<WriteReply>>>, k: nat)
    requires k < |tokens| == |lists|
  {
    lists[k] == None ==> Starved(before, script, waits, tokens[k], 0)
  }

  /** A list is missing only if a wait timed out when nothing had come for its token. */
  ghost predicate Missing(before: Buffer, script: Script, waits: nat, tokens: seq<Token>, lists: seq<Option<seq<WriteReply>>>) {
    |tokens| == |lists| && forall k :: 0 <= k < |tokens| ==> MissingOf(before, script, waits, tokens, lists, k)
  }

  /** The lists that the first replies carry. */
  predicate ListsOf(results: seq<Option<Message>>, lists: seq<Option<seq<WriteReply>>>) {
    && |lists| == |results|
    && forall i :: 0 <= i < |results| ==>
         match results[i]
         case None => lists[i] == None
         case Some(m) => m.payload.ChunkList? && lists[i] == Some(m.payload.replies)
  }

  lemma {:induction false} UnpackedIs(results: seq<Option<Message>>)
    ensures var (lists, misread) := Unpacked(results);
      match misread
      case None => ListsOf(results, lists)
      case Some(m) => misread in results && !m.payload.ChunkList?
  {
    if results != [] {
      UnpackedIs(results[..|results| - 1]);
      assert results == results[..|results| - 1] + [results[|results| - 1]];
    }
  }

  lemma MissingOn(before: Buffer, script: Script, waits: nat, waits': nat, tokens: seq<Token>,
                  lists: seq<Option<seq<WriteReply>>>)
    requires Missing(before, script, waits, tokens, lists) && waits <= waits'
    ensures Missing(before, script, waits', tokens, lists)
  {
    forall k | 0 <= k < |tokens|
      ensures MissingOf(before, script, waits', tokens, lists, k)
    {
      assert MissingOf(before, script, waits, tokens, lists, k);
      if lists[k] == None { StarvedOn(before, script, waits, waits', tokens[k], 0); }
    }
  }

  lemma ExcusedOn(before: Buffer, script: Script, waits: nat, waits': nat, tokens: seq<Token>,
                  lists: seq<Option<seq<WriteReply>>>, groups: seq<seq<Attributed>>)
    requires Excused(before, script, waits, tokens, lists, groups) && waits <= waits'
    ensures Excused(before, script, waits', tokens, lists, groups)
  {
    forall k | 0 <= k < |groups|
      ensures ExcusedOf(before, script, waits', tokens, lists, groups, k)
    {
      assert ExcusedOf(before, script, waits, tokens, lists, groups, k);
      if lists[k].Some? && |groups[k]| < |lists[k].value| {
        StarvedOn(before, script, waits, waits', tokens[k], 1 + |groups[k]|);
      }
    }
  }

  lemma ShortStarved(before: Buffer, script: Script, waits: nat, arrived: seq<Arrival>, after: Buffer, t: Token,
                     list: seq<WriteReply>, group: seq<Attributed>)
    requires Outcome(before, arrived, after, t, Some(list), group) && At(after, t) == [] && GaveUp(script, waits, arrived)
    ensures Starved(before, script, waits, t, 1 + |group|)
  {
    assert |Had(before, arrived, t)[|group| + 1..]| == 0;
  }

  lemma SoFarSkip(before: Buffer, arrived: seq<Arrival>, b: Buffer, tokens: seq<Token>,
                  lists: seq<Option<seq<WriteReply>>>, groups: seq<seq<Attributed>>)
    requires SoFar(before, arrived, b, tokens, lists, groups) && |groups| < |tokens|
    ensures SoFar(before, arrived, b, tokens, lists, groups + [[]])
  {
    forall k | 0 <= k < |tokens|
      ensures OutcomeOf(before, arrived, b, tokens, lists, groups + [[]], k)
    {
      assert OutcomeOf(before, arrived, b, tokens, lists, groups, k);
    }
  }

  lemma SoFarStep(before: Buffer, arrived: seq<Arrival>, b: Buffer, more: seq<Arrival>, after: Buffer,
                  tokens: seq<Token>, lists: seq<Option<seq<WriteReply>>>, groups: seq<seq<Attributed>>,
                  group: seq<Attributed>)
    requires SoFar(before, arrived, b, tokens, lists, groups) && |groups| < |tokens| && Distinct(tokens)
    requires lists[|groups|].Some?
    requires Counted(b, more, after, tokens[|groups|], |lists[|groups|].value|, group)
    requires forall t :: t != tokens[|groups|] ==> Untouched(b, more, after, t)
    ensures SoFar(before, arrived + more, after, tokens, lists, groups + [group])
  {
    var j, groups' := |groups|, groups + [group];
    forall k | 0 <= k < |tokens|
      ensures OutcomeOf(before, arrived + more, after, tokens, lists, groups', k)
    {
      assert OutcomeOf(before, arrived, b, tokens, lists, groups, k);
      if k == j {
        OutcomeCounted(before, arrived, b, more, after, tokens[j], lists[j].value, group);
      } else {
        OutcomeLater(before, arrived, b, more, after, tokens[k], lists[k], if k < |groups| then groups[k] else []);
      }
    }
  }

  /** The shape the client relies on without checking it: a list first, and then only completions. */
  ghost predicate ListFirst(had: seq<Message>) {
    had != [] ==> had[0].payload.ChunkList? && forall i :: 1 <= i < |had| ==> had[i].payload.WriteDone?
  }

  lemma Misplaced(before: Buffer, arrived: seq<Arrival>, b: Buffer, more: seq<Arrival>, t: Token,
                  list: seq<WriteReply>, m: Message)
    requires Outcome(before, arrived, b, t, Some(list), []) && m in Had(b, more, t) && !m.payload.WriteDone?
    ensures !ListFirst(Had(before, arrived + more, t))
  {
    HadMore(before, arrived, more, t);
    DropConcat(Had(before, arrived, t), Of(more, t), 1);
    NotListFirst(Had(before, arrived + more, t), m);
  }

  lemma NotListFirst(had: seq<Message>, m: Message)
    requires had != [] && m in had[1..] && !m.payload.WriteDone?
    ensures !ListFirst(had)
  {
    var i :| 0 <= i < |had[1..]| && had[1..][i] == m;
    assert had[i + 1] == m;
  }

  lemma OutcomeLater(before: Buffer, arrived: seq<Arrival>, b: Buffer, more: seq<Arrival>, after: Buffer, t: Token,
                     list: Option<seq<WriteReply>>, group: seq<Attributed>)
    requires Outcome(before, arrived, b, t, list, group) && Untouched(b, more, after, t)
    ensures Outcome(before, arrived + more, after, t, list, group)
  {
    HadMore(before, arrived, more, t);
    if list.Some? { DropConcat(Had(before, arrived, t), Of(more, t), |group| + 1); }
  }

  /** Counting a group off after its list has been taken. */
  lemma OutcomeCounted(before: Buffer, arrived: seq<Arrival>, b: Buffer, more: seq<Arrival>, after: Buffer, t: Token,
                       list: seq<WriteReply>, group: seq<Attributed>)
    requires Outcome(before, arrived, b, t, Some(list), [])
    requires Counted(b, more, after, t, |list|, group)
    ensures Outcome(before, arrived + more, after, t, Some(list), group)
  {
    HadMore(before, arrived, more, t);
    SettledMore(Had(before, arrived, t), At(b, t), Of(more, t), At(after, t), list, group);
  }

  lemma SettledMore(first: seq<Message>, rest: seq<Message>, extra: seq<Message>, left: seq<Message>,
                    list: seq<WriteReply>, group: seq<Attributed>)
    requires Settled(first, rest, Some(list), []) && TakenFrom(rest + extra, left, group) && |group| <= |list|
    ensures Settled(first + extra, left, Some(list), group)
  {
    DropConcat(first, extra, 1);
    SettledCounted(first + extra, rest + extra, left, list, group);
  }

  lemma SettledCounted(had: seq<Message>, rest: seq<Message>, left: seq<Message>, list: seq<WriteReply>,
                       group: seq<Attributed>)
    requires had != [] && had[0].payload == ChunkList(list) && rest == had[1..]
    requires |group| <= |list| && |group| <= |rest| && left == rest[|group|..]
    requires forall i :: 0 <= i < |group| ==> IsCompletion(rest[i], group[i])
    ensures Settled(had, left, Some(list), group)
  {
    forall i | 0 <= i < |group|
      ensures IsCompletion(had[i + 1], group[i])
    {
      assert IsCompletion(rest[i], group[i]);
    }
  }

  // ----- What the waits promise -----

  ghost predicate AllBetween(before: Buffer, tokens: seq<Token>, arrived: seq<Arrival>,
                             b: Buffer, todo: seq<Token>, got: map<Token, Message>)
  {
    forall t :: Between(before, tokens, arrived, b, todo, got, t)
  }

  ghost predicate NoneHad(b: Buffer, ts: seq<Token>) {
    forall t :: t in ts ==> At(b, t) == []
  }

  /** In the course of waiting for tokens. */
  ghost predicate InWait(before: Buffer, tokens: seq<Token>, script: Script, arrived: seq<Arrival>, waits: nat,
                         b: Buffer, polls: Script, todo: seq<Token>, got: map<Token, Message>)
  {
    AllBetween(before, tokens, arrived, b, todo, got) && Ran(script, polls, arrived, waits)
  }

  ghost predicate WaitOver(before: Buffer, tokens: seq<Token>, script: Script, arrived: seq<Arrival>, waits: nat, w: Waited) {
    && InWait(before, tokens, script, arrived, waits, w.buffer, w.polls, w.left, w.got)
    && NoneHad(w.buffer, w.left) && (w.left != [] ==> GaveUp(script, waits, arrived))
  }

  /** A wait for tokens serves each of them from all the client has had, and times out only with nothing for those left. */
  lemma WaitServes(before: Buffer, tokens: seq<Token>, script: Script, arrived: seq<Arrival>, waits: nat,
                   b: Buffer, polls: Script, todo: seq<Token>, got: map<Token, Message>)
    returns (arrived': seq<Arrival>, waits': nat)
    requires NoEmpty(b) && InWait(before, tokens, script, arrived, waits, b, polls, todo, got)
    ensures WaitOver(before, tokens, script, arrived', waits', Wait(b, polls, todo, got))
    decreases |polls|
  {
    var w := Pass(b, todo, got);
    PassServes(before, tokens, arrived, b, todo, got);
    if w.todo == [] {
      arrived', waits' := arrived, waits;
    } else {
      var (more, after) := Received(polls);
      if more == [] {
        arrived', waits' := arrived, waits + 1;
        WaitTimedOut(before, tokens, script, arrived, waits, w, polls);
      } else {
        WaitReceives(before, tokens, script, arrived, waits, w, polls);
        arrived', waits' := WaitServes(before, tokens, script, arrived + more, waits + 1, DeliverAll(w.buffer, more), after,
                                       w.todo, w.got);
      }
    }
  }

  lemma WaitTimedOut(before: Buffer, tokens: seq<Token>, script: Script, arrived: seq<Arrival>, waits: nat,
                     w: Waiting, polls: Script)
    requires InWait(before, tokens, script, arrived, waits, w.buffer, polls, w.todo, w.got)
    requires NoneHad(w.buffer, w.todo) && Idle(polls)
    ensures WaitOver(before, tokens, script, arrived, waits + 1, Waited(w.buffer, Received(polls).1, w.got, w.todo))
  {
    ReceivedRan(polls);
    RanTrans(script, polls, Received(polls).1, arrived, [], waits, 1);
    assert arrived + [] == arrived;
    assert TimesOut(script, waits + 1, waits);
  }

  lemma WaitReceives(before: Buffer, tokens: seq<Token>, script: Script, arrived: seq<Arrival>, waits: nat,
                     w: Waiting, polls: Script)
    requires InWait(before, tokens, script, arrived, waits, w.buffer, polls, w.todo, w.got)
    ensures var (more, after) := Received(polls);
      InWait(before, tokens, script, arrived + more, waits + 1, DeliverAll(w.buffer, more), after, w.todo, w.got)
  {
    var (more, after) := Received(polls);
    ReceivedRan(polls);
    RanTrans(script, polls, after, arrived, more, waits, 1);
    ReceiveServes(before, tokens, arrived, more, w.buffer, w.todo, w.got);
  }

  lemma ReceiveServes(before: Buffer, tokens: seq<Token>, arrived: seq<Arrival>, more: seq<Arrival>,
                      b: Buffer, todo: seq<Token>, got: map<Token, Message>)
    requires AllBetween(before, tokens, arrived, b, todo, got)
    ensures AllBetween(before, tokens, arrived + more, DeliverAll(b, more), todo, got)
  {
    forall t
      ensures Between(before, tokens, arrived + more, DeliverAll(b, more), todo, got, t)
    {
      BetweenReceive(before, tokens, arrived, more, b, todo, got, t);
    }
  }

  lemma PassServes(before: Buffer, tokens: seq<Token>, arrived: seq<Arrival>,
                   b: Buffer, todo: seq<Token>, got: map<Token, Message>)
    requires NoEmpty(b) && AllBetween(before, tokens, arrived, b, todo, got)
    ensures var w := Pass(b, todo, got);
      AllBetween(before, tokens, arrived, w.buffer, w.todo, w.got) && NoneHad(w.buffer, w.todo)
  {
    var w := Pass(b, todo, got);
    PassSpec(b, todo, got);
    forall t
      ensures Between(before, tokens, arrived, w.buffer, w.todo, w.got, t)
      ensures t in w.todo ==> At(w.buffer, t) == []
    {
      BetweenPass(before, tokens, arrived, b, todo, got, w, t);
    }
  }

  /** What waiting for tokens, and nothing else, promises about every token; it fails to serve one only if it timed out. */
  ghost predicate Waits(before: Buffer, script: Script, tokens: seq<Token>, arrived: seq<Arrival>, waits: nat,
                        after: Buffer, results: seq<Option<Message>>)
  {
    && |results| == |tokens|
    && (forall i :: 0 <= i < |tokens| ==> Served(before, arrived, after, tokens[i], multiset(tokens)[tokens[i]], results[i]))
    && (forall t :: t !in tokens ==> Untouched(before, arrived, after, t))
    && forall t :: |Had(before, arrived, t)| < multiset(tokens)[t] ==> GaveUp(script, waits, arrived)
  }

  lemma WaitBegins(b: Buffer, tokens: seq<Token>, t: Token)
    ensures Between(b, tokens, [], b, tokens, map[], t)
  {
    assert At(b, t) + [] == At(b, t);
  }

  lemma ServedInEnd(before: Buffer, tokens: seq<Token>, arrived: seq<Arrival>, w: Waited, t: Token)
    requires Between(before, tokens, arrived, w.buffer, w.left, w.got, t)
    requires t in w.left ==> At(w.buffer, t) == []
    ensures Served(before, arrived, w.buffer, t, multiset(tokens)[t], Find(w.got, t))
    ensures |Had(before, arrived, t)| < multiset(tokens)[t] ==> w.left != []
    ensures t !in tokens ==> Untouched(before, arrived, w.buffer, t)
  {
    var had, k := Had(before, arrived, t), multiset(tokens)[t] - multiset(w.left)[t];
    assert |had[k..]| == |had| - k;
  }

  lemma WaitEnds(before: Buffer, script: Script, tokens: seq<Token>, arrived: seq<Arrival>, waits: nat, w: Waited)
    requires WaitOver(before, tokens, script, arrived, waits, w)
    ensures Waits(before, script, tokens, arrived, waits, w.buffer, Aligned(tokens, w.got))
  {
    var results := Aligned(tokens, w.got);
    forall t
      ensures Served(before, arrived, w.buffer, t, multiset(tokens)[t], Find(w.got, t))
      ensures |Had(before, arrived, t)| < multiset(tokens)[t] ==> w.left != []
      ensures t !in tokens ==> Untouched(before, arrived, w.buffer, t)
    {
      ServedInEnd(before, tokens, arrived, w, t);
    }
    assert forall i :: 0 <= i < |tokens| ==> results[i] == Find(w.got, tokens[i]);
  }

  /** A token listed once is waited for once. */
  lemma {:induction false} Once(tokens: seq<Token>, i: nat)
    requires Distinct(tokens) && i < |tokens|
    ensures multiset(tokens)[tokens[i]] == 1
  {
    assert tokens == tokens[..i] + [tokens[i]] + tokens[i + 1..];
    assert tokens[i] !in tokens[..i] && tokens[i] !in tokens[i + 1..];
  }

  lemma ServedAt(before: Buffer, script: Script, tokens: seq<Token>, arrived: seq<Arrival>, waits: nat, after: Buffer,
                 results: seq<Option<Message>>, i: nat)
    requires Waits(before, script, tokens, arrived, waits, after, results) && Distinct(tokens) && i < |tokens|
    ensures ServedOnce(before, arrived, after, tokens[i], results[i])
    ensures results[i] == None ==> GaveUp(script, waits, arrived)
  {
    Once(tokens, i);
    assert Served(before, arrived, after, tokens[i], multiset(tokens)[tokens[i]], results[i]);
    OnceServed(before, arrived, after, tokens[i], results[i]);
  }

  lemma WaitPromises(before: Buffer, script: Script, tokens: seq<Token>) returns (arrived: seq<Arrival>, waits: nat)
    requires NoEmpty(before)
    ensures var w := Wait(before, script, tokens, map[]);
      Ran(script, w.polls, arrived, waits) && Waits(before, script, tokens, arrived, waits, w.buffer, Aligned(tokens, w.got))
  {
    forall t
      ensures Between(before, tokens, [], before, tokens, map[], t)
    {
      WaitBegins(before, tokens, t);
    }
    assert Ran(script, script, [], 0);
    arrived, waits := WaitServes(before, tokens, script, [], 0, before, script, tokens, map[]);
    WaitEnds(before, script, tokens, arrived, waits, Wait(before, script, tokens, map[]));
  }

  /** What counting off one token promises: its group is the front of all had for it, and a short one means a wait timed out. */
  ghost predicate Tallied(before: Buffer, script: Script, token: Token, count: nat, arrived: seq<Arrival>, waits: nat,
                          r: Tally)
  {
    match r
    case Tally(b, polls, group, misread) =>
      && Ran(script, polls, arrived, waits) && (forall t :: t != token ==> Untouched(before, arrived, b, t))
      && match misread
         case None =>
           Counted(before, arrived, b, token, count, group) && (|group| < count ==> GaveUp(script, waits, arrived))
         case Some(m) => !m.payload.WriteDone? && m in Had(before, arrived, token)
  }

  /** The state between two completions. */
  ghost predicate Counting(before: Buffer, script: Script, token: Token, arrived: seq<Arrival>, waits: nat, now: Tally) {
    match now
    case Tally(b, polls, group, _) =>
      && Ran(script, polls, arrived, waits) && Taken(before, arrived, b, token, group)
      && forall t :: t != token ==> Untouched(before, arrived, b, t)
  }

  lemma CountingOn(before: Buffer, script: Script, token: Token, arrived: seq<Arrival>, waits: nat, now: Tally,
                   more: seq<Arrival>, n: nat, after: Buffer, polls: Script)
    requires Counting(before, script, token, arrived, waits, now) && Ran(now.polls, polls, more, n)
    requires forall t :: t != token ==> Untouched(now.buffer, more, after, t)
    ensures Ran(script, polls, arrived + more, waits + n)
    ensures forall t :: t != token ==> Untouched(before, arrived + more, after, t)
  {
    RanTrans(script, now.polls, polls, arrived, more, waits, n);
    forall t | t != token
      ensures Untouched(before, arrived + more, after, t)
    {
      UntouchedTrans(before, arrived, now.buffer, more, after, t);
    }
  }

  /** What a wait for one token promises. */
  ghost predicate WaitedOnce(b: Buffer, polls: Script, token: Token, w: Waited, more: seq<Arrival>, n: nat) {
    match w
    case Waited(after, polls', got, _) =>
      && Ran(polls, polls', more, n) && ServedOnce(b, more, after, token, Find(got, token))
      && (forall t :: t != token ==> Untouched(b, more, after, t))
      && (Find(got, token) == None ==> GaveUp(polls, n, more))
  }

  lemma WaitsForOne(b: Buffer, polls: Script, token: Token, w: Waited) returns (more: seq<Arrival>, n: nat)
    requires NoEmpty(b) && w == Wait(b, polls, [token], map[])
    ensures WaitedOnce(b, polls, token, w, more, n)
  {
    more, n := WaitPromises(b, polls, [token]);
    ServedAt(b, polls, [token], more, n, w.buffer, Aligned([token], w.got), 0);
  }

  lemma {:induction false} CountServes(before: Buffer, script: Script, token: Token, count: nat, arrived: seq<Arrival>,
                                       waits: nat, now: Tally, r: Tally)
    returns (arrived': seq<Arrival>, waits': nat)
    requires NoEmpty(now.buffer) && |now.group| <= count && Counting(before, script, token, arrived, waits, now)
    requires r == CountOff(now.buffer, now.polls, token, count, now.group)
    ensures Tallied(before, script, token, count, arrived', waits', r)
    decreases count - |now.group|
  {
    if |now.group| == count {
      arrived', waits' := arrived, waits;
      assert r == now.(misread := None);
      AllCounted(before, script, token, arrived, waits, now);
    } else {
      var w, next := Wait(now.buffer, now.polls, [token], map[]), CountNext(now, token);
      var more, n := WaitsForOne(now.buffer, now.polls, token, w);
      NextMessage(before, script, token, count, arrived, waits, now, w, next, more, n);
      arrived', waits' := arrived + more, waits + n;
      CountStep(now, token, count);
      if next.misread == None && |next.group| > |now.group| {
        arrived', waits' := CountServes(before, script, token, count, arrived', waits', next, r);
      }
    }
  }

  lemma AllCounted(before: Buffer, script: Script, token: Token, arrived: seq<Arrival>, waits: nat, now: Tally)
    requires Counting(before, script, token, arrived, waits, now)
    ensures Tallied(before, script, token, |now.group|, arrived, waits, now.(misread := None))
  {
  }

  /** There is one completion more than `size`, or everything has ended. */
  ghost predicate CountedOne(before: Buffer, script: Script, token: Token, count: nat, arrived: seq<Arrival>, waits: nat,
                             size: nat, next: Tally)
  {
    match next
    case Tally(_, _, group, misread) =>
      if misread == None && |group| > size then Counting(before, script, token, arrived, waits, next)
      else Tallied(before, script, token, count, arrived, waits, next)
  }

  lemma NextTimedOut(before: Buffer, script: Script, token: Token, count: nat, arrived: seq<Arrival>, waits: nat, now: Tally,
                     w: Waited, more: seq<Arrival>, n: nat)
    requires |now.group| < count && Counting(before, script, token, arrived, waits, now)
    requires WaitedOnce(now.buffer, now.polls, token, w, more, n) && Find(w.got, token) == None
    ensures Tallied(before, script, token, count, arrived + more, waits + n, Tally(w.buffer, w.polls, now.group, None))
  {
    CountingOn(before, script, token, arrived, waits, now, more, n, w.buffer, w.polls);
    WaitedForOne(before, arrived, now.buffer, more, w.buffer, token, now.group, None);
    GaveUpLater(script, now.polls, arrived, waits, more, n);
  }

  lemma NextTaken(before: Buffer, script: Script, token: Token, count: nat, arrived: seq<Arrival>, waits: nat, now: Tally,
                  w: Waited, more: seq<Arrival>, n: nat, m: Message)
    requires |now.group| < count && Counting(before, script, token, arrived, waits, now)
    requires WaitedOnce(now.buffer, now.polls, token, w, more, n) && Find(w.got, token) == Some(m)
    ensures m.payload.WriteDone? ==>
      Counting(before, script, token, arrived + more, waits + n,
               Tally(w.buffer, w.polls, now.group + [Attributed(m.server, m.payload.reply)], None))
    ensures !m.payload.WriteDone? ==>
      Tallied(before, script, token, count, arrived + more, waits + n, Tally(w.buffer, w.polls, now.group, Some(m)))
  {
    CountingOn(before, script, token, arrived, waits, now, more, n, w.buffer, w.polls);
    WaitedForOne(before, arrived, now.buffer, more, w.buffer, token, now.group, Some(m));
  }

  lemma NextMessage(before: Buffer, script: Script, token: Token, count: nat, arrived: seq<Arrival>, waits: nat, now: Tally,
                    w: Waited, next: Tally, more: seq<Arrival>, n: nat)
    requires |now.group| < count && Counting(before, script, token, arrived, waits, now)
    requires WaitedOnce(now.buffer, now.polls, token, w, more, n) && next == CountOne(now, Find(w.got, token), w)
    ensures CountedOne(before, script, token, count, arrived + more, waits + n, |now.group|, next)
  {
    match Find(w.got, token)
    case None => NextTimedOut(before, script, token, count, arrived, waits, now, w, more, n);
    case Some(m) => NextTaken(before, script, token, count, arrived, waits, now, w, more, n, m);
  }

  lemma CountPromises(b: Buffer, polls: Script, token: Token, count: nat) returns (arrived: seq<Arrival>, waits: nat)
    requires NoEmpty(b)
    ensures Tallied(b, polls, token, count, arrived, waits, CountOff(b, polls, token, count, []))
  {
    forall t
      ensures Untouched(b, [], b, t)
    {
      assert At(b, t) + [] == At(b, t);
    }
    arrived, waits := CountServes(b, polls, token, count, [], 0, Tally(b, polls, [], None), CountOff(b, polls, token, count, []));
  }

  /** Some token's messages are not a list followed by completions. */
  ghost predicate Misread(before: Buffer, arrived: seq<Arrival>, tokens: seq<Token>) {
    exists j :: 0 <= j < |tokens| && !ListFirst(Had(before, arrived, tokens[j]))
  }

  /** What counting off all tokens promises about the call that began with `before`. */
  ghost predicate AllTallied(before: Buffer, script: Script, tokens: seq<Token>, lists: seq<Option<seq<WriteReply>>>,
                             arrived: seq<Arrival>, waits: nat, r: Tallies)
  {
    match r
    case Tallies(b, polls, groups, misread) =>
      && Ran(script, polls, arrived, waits)
      && match misread
         case None =>
           && |groups| == |tokens| && SoFar(before, arrived, b, tokens, lists, groups)
           && Excused(before, script, waits, tokens, lists, groups)
         case Some(_) => Misread(before, arrived, tokens)
  }

  /** The groups of the first tokens have been counted off. */
  ghost predicate CountedSoFar(before: Buffer, script: Script, tokens: seq<Token>, lists: seq<Option<seq<WriteReply>>>,
                               arrived: seq<Arrival>, waits: nat, now: Tallies)
  {
    match now
    case Tallies(b, polls, groups, _) =>
      && Ran(script, polls, arrived, waits) && SoFar(before, arrived, b, tokens, lists, groups)
      && Excused(before, script, waits, tokens, lists, groups)
  }

  lemma {:induction false} AllServe(before: Buffer, script: Script, tokens: seq<Token>, lists: seq<Option<seq<WriteReply>>>,
                                    arrived: seq<Arrival>, waits: nat, now: Tallies)
    returns (arrived': seq<Arrival>, waits': nat)
    requires NoEmpty(now.buffer) && Distinct(tokens) && |now.groups| <= |tokens| == |lists| && now.misread == None
    requires CountedSoFar(before, script, tokens, lists, arrived, waits, now)
    ensures waits <= waits'
    ensures AllTallied(before, script, tokens, lists, arrived', waits', CountAll(now.buffer, now.polls, tokens, lists, now.groups))
    decreases |tokens| - |now.groups|
  {
    if |now.groups| == |tokens| {
      arrived', waits' := arrived, waits;
    } else {
      var next := CountAllNext(now, tokens, lists);
      arrived', waits' := OneMoreServed(before, script, tokens, lists, arrived, waits, now);
      CountAllStep(now, tokens, lists);
      if next.misread == None {
        arrived', waits' := AllServe(before, script, tokens, lists, arrived', waits', next);
      }
    }
  }

  ghost predicate ServedNext(before: Buffer, script: Script, tokens: seq<Token>, lists: seq<Option<seq<WriteReply>>>,
                             arrived: seq<Arrival>, waits: nat, next: Tallies)
  {
    match next
    case Tallies(_, _, _, misread) =>
      if misread == None then CountedSoFar(before, script, tokens, lists, arrived, waits, next)
      else AllTallied(before, script, tokens, lists, arrived, waits, next)
  }

  /** The next token is skipped or counted off; at a misread message everything ends. */
  lemma OneMoreServed(before: Buffer, script: Script, tokens: seq<Token>, lists: seq<Option<seq<WriteReply>>>,
                      arrived: seq<Arrival>, waits: nat, now: Tallies)
    returns (arrived': seq<Arrival>, waits': nat)
    requires NoEmpty(now.buffer) && Distinct(tokens) && |now.groups| < |tokens| == |lists| && now.misread == None
    requires CountedSoFar(before, script, tokens, lists, arrived, waits, now)
    ensures waits <= waits'
    ensures ServedNext(before, script, tokens, lists, arrived', waits', CountAllNext(now, tokens, lists))
  {
    var next := CountAllNext(now, tokens, lists);
    if lists[|now.groups|].None? {
      SkipServed(before, script, tokens, lists, arrived, waits, now, next);
      arrived', waits' := arrived, waits;
    } else {
      arrived', waits' := ListServed(before, script, tokens, lists, arrived, waits, now, next);
    }
  }

  lemma ListServed(before: Buffer, script: Script, tokens: seq<Token>, lists: seq<Option<seq<WriteReply>>>,
                   arrived: seq<Arrival>, waits: nat, now: Tallies, next: Tallies)
    returns (arrived': seq<Arrival>, waits': nat)
    requires NoEmpty(now.buffer) && Distinct(tokens) && |now.groups| < |tokens| == |lists| && lists[|now.groups|].Some?
    requires CountedSoFar(before, script, tokens, lists, arrived, waits, now)
    requires next == Including(now, CountOff(now.buffer, now.polls, tokens[|now.groups|], |lists[|now.groups|].value|, []))
    ensures waits <= waits' && ServedNext(before, script, tokens, lists, arrived', waits', next)
  {
    var token, count := tokens[|now.groups|], |lists[|now.groups|].value|;
    var more, n := CountPromises(now.buffer, now.polls, token, count);
    arrived', waits' := arrived + more, waits + n;
    TallyServes(before, script, tokens, lists, arrived, waits, now, more, n,
                CountOff(now.buffer, now.polls, token, count, []), next);
  }

  lemma SkipServed(before: Buffer, script: Script, tokens: seq<Token>, lists: seq<Option<seq<WriteReply>>>,
                   arrived: seq<Arrival>, waits: nat, now: Tallies, next: Tallies)
    requires CountedSoFar(before, script, tokens, lists, arrived, waits, now)
    requires |now.groups| < |tokens| && lists[|now.groups|].None? && next == now.(groups := now.groups + [[]])
    ensures next.misread == None ==> ServedNext(before, script, tokens, lists, arrived, waits, next)
  {
    SoFarSkip(before, arrived, now.buffer, tokens, lists, now.groups);
    ExcusedStep(before, script, waits, tokens, lists, now.groups, []);
  }

  lemma TallyServes(before: Buffer, script: Script, tokens: seq<Token>, lists: seq<Option<seq<WriteReply>>>,
                    arrived: seq<Arrival>, waits: nat, now: Tallies, more: seq<Arrival>, n: nat, t: Tally, next: Tallies)
    requires CountedSoFar(before, script, tokens, lists, arrived, waits, now)
    requires Distinct(tokens) && |now.groups| < |tokens| && lists[|now.groups|].Some?
    requires Tallied(now.buffer, now.polls, tokens[|now.groups|], |lists[|now.groups|].value|, more, n, t)
    requires next == Including(now, t)
    ensures ServedNext(before, script, tokens, lists, arrived + more, waits + n, next)
  {
    RanTrans(script, now.polls, t.polls, arrived, more, waits, n);
    if t.misread.Some? {
      TallyMisread(before, tokens, lists, arrived, now.buffer, now.groups, more, t.misread.value);
    } else {
      SoFarStep(before, arrived, now.buffer, more, t.buffer, tokens, lists, now.groups, t.group);
      TallyExcused(before, script, tokens, lists, arrived, waits, now.polls, now.groups, more, n, t.buffer, t.group);
    }
  }

  lemma TallyMisread(before: Buffer, tokens: seq<Token>, lists: seq<Option<seq<WriteReply>>>, arrived: seq<Arrival>,
                     b: Buffer, groups: seq<seq<Attributed>>, more: seq<Arrival>, m: Message)
    requires SoFar(before, arrived, b, tokens, lists, groups) && |groups| < |tokens| && lists[|groups|].Some?
    requires m in Had(b, more, tokens[|groups|]) && !m.payload.WriteDone?
    ensures Misread(before, arrived + more, tokens)
  {
    var j := |groups|;
    assert OutcomeOf(before, arrived, b, tokens, lists, groups, j);
    Misplaced(before, arrived, b, more, tokens[j], lists[j].value, m);
  }

  lemma TallyExcused(before: Buffer, script: Script, tokens: seq<Token>, lists: seq<Option<seq<WriteReply>>>,
                     arrived: seq<Arrival>, waits: nat, polls: Script, groups: seq<seq<Attributed>>,
                     more: seq<Arrival>, n: nat, after: Buffer, group: seq<Attributed>)
    requires Ran(script, polls, arrived, waits) && Excused(before, script, waits, tokens, lists, groups)
    requires |groups| < |tokens| && lists[|groups|].Some? && SoFar(before, arrived + more, after, tokens, lists, groups + [group])
    requires |group| < |lists[|groups|].value| ==> At(after, tokens[|groups|]) == [] && GaveUp(polls, n, more)
    ensures Excused(before, script, waits + n, tokens, lists, groups + [group])
  {
    if |group| < |lists[|groups|].value| {
      GaveUpLater(script, polls, arrived, waits, more, n);
      LastStarved(before, script, waits + n, arrived + more, after, tokens, lists, groups, group);
    }
    ExcusedOn(before, script, waits, waits + n, tokens, lists, groups);
    ExcusedStep(before, script, waits + n, tokens, lists, groups, group);
  }

  lemma LastStarved(before: Buffer, script: Script, waits: nat, arrived: seq<Arrival>, after: Buffer, tokens: seq<Token>,
                    lists: seq<Option<seq<WriteReply>>>, groups: seq<seq<Attributed>>, group: seq<Attributed>)
    requires SoFar(before, arrived, after, tokens, lists, groups + [group]) && lists[|groups|].Some?
    requires At(after, tokens[|groups|]) == [] && GaveUp(script, waits, arrived)
    ensures Starved(before, script, waits, tokens[|groups|], 1 + |group|)
  {
    var j := |groups|;
    assert (groups + [group])[j] == group;
    assert OutcomeOf(before, arrived, after, tokens, lists, groups + [group], j);
    ShortStarved(before, script, waits, arrived, after, tokens[j], lists[j].value, group);
  }

  lemma ExcusedStep(before: Buffer, script: Script, waits: nat, tokens: seq<Token>, lists: seq<Option<seq<WriteReply>>>,
                    groups: seq<seq<Attributed>>, group: seq<Attributed>)
    requires Excused(before, script, waits, tokens, lists, groups) && |groups| < |tokens|
    requires lists[|groups|].Some? && |group| < |lists[|groups|].value| ==>
      Starved(before, script, waits, tokens[|groups|], 1 + |group|)
    ensures Excused(before, script, waits, tokens, lists, groups + [group])
  {
    var more := groups + [group];
    forall k | 0 <= k < |more|
      ensures ExcusedOf(before, script, waits, tokens, lists, more, k)
    {
      assert k < |groups| ==> more[k] == groups[k] && ExcusedOf(before, script, waits, tokens, lists, groups, k);
    }
  }

  lemma ListTaken(before: Buffer, script: Script, tokens: seq<Token>, arrived: seq<Arrival>, waits: nat, after: Buffer,
                  results: seq<Option<Message>>, lists: seq<Option<seq<WriteReply>>>, j: nat)
    requires Waits(before, script, tokens, arrived, waits, after, results) && ListsOf(results, lists) && Distinct(tokens)
    requires j < |tokens|
    ensures OutcomeOf(before, arrived, after, tokens, lists, [], j) && MissingOf(before, script, waits, tokens, lists, j)
  {
    ServedAt(before, script, tokens, arrived, waits, after, results, j);
    assert lists[j] == None ==> results[j] == None;
  }

  lemma ListsTaken(before: Buffer, script: Script, tokens: seq<Token>, arrived: seq<Arrival>, waits: nat, after: Buffer,
                   results: seq<Option<Message>>, lists: seq<Option<seq<WriteReply>>>)
    requires Waits(before, script, tokens, arrived, waits, after, results) && ListsOf(results, lists) && Distinct(tokens)
    ensures SoFar(before, arrived, after, tokens, lists, []) && Missing(before, script, waits, tokens, lists)
  {
    forall j | 0 <= j < |tokens|
      ensures OutcomeOf(before, arrived, after, tokens, lists, [], j)
      ensures MissingOf(before, script, waits, tokens, lists, j)
    {
      ListTaken(before, script, tokens, arrived, waits, after, results, lists, j);
    }
  }

  lemma MisreadList(before: Buffer, script: Script, tokens: seq<Token>, arrived: seq<Arrival>, waits: nat, after: Buffer,
                    results: seq<Option<Message>>, m: Message)
    requires Waits(before, script, tokens, arrived, waits, after, results) && Distinct(tokens)
    requires Some(m) in results && !m.payload.ChunkList?
    ensures Misread(before, arrived, tokens)
  {
    var j :| 0 <= j < |results| && results[j] == Some(m);
    ServedAt(before, script, tokens, arrived, waits, after, results, j);
    assert !ListFirst(Had(before, arrived, tokens[j]));
  }
}
