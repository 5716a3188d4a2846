/**
 The client's buffer of received messages: for every token, the messages that have arrived
 for it and that no caller has taken yet, oldest first.  A token without messages has no
 entry at all.
 */
module ClientBuffer {
  import opened Wrappers
  import opened WriteServer
  import opened Sequences

  type ServerId = nat

  /** A buffered message remembers the socket it arrived on. */
  datatype Message = Message(server: ServerId, payload: Payload)

  datatype Arrival = Arrival(token: Token, message: Message)

  type Buffer = map<Token, seq<Message>>

  function At(b: Buffer, t: Token): seq<Message> {
    if t in b then b[t] else []
  }

  ghost predicate NoEmpty(b: Buffer) {
    forall t :: t in b ==> b[t] != []
  }

  function Deliver(b: Buffer, a: Arrival): (r: Buffer)
    ensures NoEmpty(b) ==> NoEmpty(r)
  {
    b[a.token := At(b, a.token) + [a.message]]
  }

  lemma DeliverAt(b: Buffer, a: Arrival, t: Token)
    ensures At(Deliver(b, a), t) == At(b, t) + if t == a.token then [a.message] else []
  {
  }

  function DeliverAll(b: Buffer, arrivals: seq<Arrival>): (r: Buffer)
    ensures NoEmpty(b) ==> NoEmpty(r)
  {
    if arrivals == [] then b else
    Deliver(DeliverAll(b, arrivals[..|arrivals| - 1]), arrivals[|arrivals| - 1])
  }

  /** The messages of one token among the arrivals. */
  function Of(arrivals: seq<Arrival>, t: Token): seq<Message> {
    if arrivals == [] then [] else
    var before, last := Of(arrivals[..|arrivals| - 1], t), arrivals[|arrivals| - 1];
    if last.token == t then before + [last.message] else before
  }

  lemma {:induction false} DeliverAllAt(b: Buffer, arrivals: seq<Arrival>, t: Token)
    ensures At(DeliverAll(b, arrivals), t) == At(b, t) + Of(arrivals, t)
  {
    if arrivals != [] {
      var n := |arrivals| - 1;
      DeliverAllAt(b, arrivals[..n], t);
      DeliverAt(DeliverAll(b, arrivals[..n]), arrivals[n], t);
      Associate(At(b, t), Of(arrivals[..n], t), if t == arrivals[n].token then [arrivals[n].message] else []);
    }
  }

  lemma {:induction false} OfConcat(a: seq<Arrival>, b: seq<Arrival>, t: Token)
    ensures Of(a + b, t) == Of(a, t) + Of(b, t)
  {
    if b == [] {
      assert a + b == a;
    } else {
      var n := |b| - 1;
      assert (a + b)[..|a + b| - 1] == a + b[..n];
      OfConcat(a, b[..n], t);
    }
  }

  lemma {:induction false} DeliverAllConcat(b: Buffer, x: seq<Arrival>, y: seq<Arrival>)
    ensures DeliverAll(b, x + y) == DeliverAll(DeliverAll(b, x), y)
  {
    if y == [] {
      assert x + y == x;
    } else {
      var n := |y| - 1;
      assert (x + y)[..|x + y| - 1] == x + y[..n];
      DeliverAllConcat(b, x, y[..n]);
    }
  }

  function Pop(b: Buffer, t: Token): (r: (Option<Message>, Buffer))
    requires NoEmpty(b)
    ensures NoEmpty(r.1)
    ensures r.0 == (if At(b, t) == [] then None else Some(At(b, t)[0]))
  {
    if t !in b then (None, b) else
    (Some(b[t][0]), if |b[t]| == 1 then b - {t} else b[t := b[t][1..]])
  }

  /** Only the token's own messages change, by the oldest. */
  lemma PopAt(b: Buffer, t: Token, u: Token)
    requires NoEmpty(b)
    ensures At(Pop(b, t).1, u) == if u == t && At(b, t) != [] then At(b, t)[1..] else At(b, u)
  {
  }

  /** What one pass over the tokens still waited for leaves behind. */
  datatype Waiting = Waiting(buffer: Buffer, todo: seq<Token>, got: map<Token, Message>)

  function Pass(b: Buffer, todo: seq<Token>, got: map<Token, Message>): (w: Waiting)
    requires NoEmpty(b)
    ensures NoEmpty(w.buffer)
  {
    if todo == [] then Waiting(b, [], got) else
    var n := |todo| - 1;
    var w := Pass(b, todo[..n], got);
    PassOne(w, todo[n])
  }

  function PassOne(w: Waiting, t: Token): (w': Waiting)
    requires NoEmpty(w.buffer)
    ensures NoEmpty(w'.buffer)
  {
    var (m, b') := Pop(w.buffer, t);
    match m
    case None => w.(todo := w.todo + [t])
    case Some(msg) => w.(buffer := b', got := w.got[t := msg])
  }

  function Find(got: map<Token, Message>, t: Token): Option<Message> {
    if t in got then Some(got[t]) else None
  }

  /** How many of a token's messages a caller gets who asks for it `n` times. */
  function Share(n: nat, msgs: seq<Message>): (k: nat)
    ensures k <= n && k <= |msgs| && (k == n || k == |msgs|)
  {
    if n <= |msgs| then n else |msgs|
  }

  /** Of `n` requests `m` are left and of the messages `left`, oldest taken first; the result is the last one taken. */
  predicate Shared(n: nat, msgs: seq<Message>, m: nat, left: seq<Message>, before: Option<Message>, after: Option<Message>) {
    var k := Share(n, msgs);
    m == n - k && left == msgs[k..] && after == if k == 0 then before else Some(msgs[k - 1])
  }

  lemma SharedMore(n: nat, msgs: seq<Message>, m: nat, left: seq<Message>, before: Option<Message>, after: Option<Message>)
    requires Shared(n, msgs, m, left, before, after)
    ensures left == [] ==> Shared(n + 1, msgs, m + 1, left, before, after)
    ensures left != [] ==> Shared(n + 1, msgs, m, left[1..], before, Some(left[0]))
  {
  }

  /** The effect of a pass on one token: it is taken as often as it is asked for, while there are messages. */
  ghost predicate Passed(b: Buffer, todo: seq<Token>, got: map<Token, Message>, w: Waiting, t: Token) {
    Shared(multiset(todo)[t], At(b, t), multiset(w.todo)[t], At(w.buffer, t), Find(got, t), Find(w.got, t))
  }

  lemma {:induction false} PassSpec(b: Buffer, todo: seq<Token>, got: map<Token, Message>)
    requires NoEmpty(b)
    ensures forall t :: Passed(b, todo, got, Pass(b, todo, got), t)
  {
    if todo != [] {
      var n := |todo| - 1;
      PassSpec(b, todo[..n], got);
      assert todo == todo[..n] + [todo[n]];
      forall t
        ensures Passed(b, todo, got, Pass(b, todo, got), t)
      {
        OneMore(b, todo[..n], got, Pass(b, todo[..n], got), todo[n], t);
      }
    }
  }

  lemma OneMore(b: Buffer, todo: seq<Token>, got: map<Token, Message>, w: Waiting, x: Token, t: Token)
    requires NoEmpty(w.buffer) && Passed(b, todo, got, w, t)
    ensures Passed(b, todo + [x], got, PassOne(w, x), t)
  {
    SharedMore(multiset(todo)[t], At(b, t), multiset(w.todo)[t], At(w.buffer, t), Find(got, t), Find(w.got, t));
    Multiplicity(todo, x, t);
    PassOneAt(w, x, t);
  }

  lemma PassOneAt(w: Waiting, x: Token, t: Token)
    requires NoEmpty(w.buffer)
    ensures var w', n, left := PassOne(w, x), multiset(w.todo)[t], At(w.buffer, t);
      (multiset(w'.todo)[t], At(w'.buffer, t), Find(w'.got, t)) ==
        if t != x then (n, left, Find(w.got, t))
        else if left == [] then (n + 1, left, Find(w.got, t)) else (n, left[1..], Some(left[0]))
  {
    PopAt(w.buffer, x, t);
    Multiplicity(w.todo, x, t);
  }

  lemma Multiplicity(ts: seq<Token>, x: Token, t: Token)
    ensures multiset(ts + [x])[t] == multiset(ts)[t] + if t == x then 1 else 0
  {
  }

  // ----- Removing the tokens served -----

  /** Without the first occurrence of `t`. */
  function Remove(ts: seq<Token>, t: Token): seq<Token> {
    if ts == [] then [] else if ts[0] == t then ts[1..] else [ts[0]] + Remove(ts[1..], t)
  }

  function RemoveAll(ts: seq<Token>, done: seq<Token>): seq<Token> {
    if done == [] then ts else Remove(RemoveAll(ts, done[..|done| - 1]), done[|done| - 1])
  }

  /** Every token to be removed is still there when its turn comes. */
  predicate Removable(ts: seq<Token>, done: seq<Token>) {
    done == [] || (Removable(ts, done[..|done| - 1]) && done[|done| - 1] in RemoveAll(ts, done[..|done| - 1]))
  }

  /** So removing never fails. */
  lemma {:induction false} RemovableAt(ts: seq<Token>, done: seq<Token>, i: nat)
    requires Removable(ts, done) && i < |done|
    ensures done[i] in RemoveAll(ts, done[..i])
    decreases |done|
  {
    if i < |done| - 1 {
      RemovableAt(ts, done[..|done| - 1], i);
      assert done[..|done| - 1][..i] == done[..i];
    }
  }

  lemma {:induction false} RemoveEarlier(ts: seq<Token>, x: Token, t: Token)
    ensures t in ts ==> Remove(ts + [x], t) == Remove(ts, t) + [x]
    ensures t !in ts && x == t ==> Remove(ts + [x], t) == ts
  {
    if ts != [] {
      assert (ts + [x])[1..] == ts[1..] + [x];
      RemoveEarlier(ts[1..], x, t);
    }
  }

  lemma {:induction false} RemoveAllEarlier(ts: seq<Token>, x: Token, done: seq<Token>)
    requires Removable(ts, done)
    ensures Removable(ts + [x], done) && RemoveAll(ts + [x], done) == RemoveAll(ts, done) + [x]
    decreases |done|
  {
    if done != [] {
      var n := |done| - 1;
      RemoveAllEarlier(ts, x, done[..n]);
      RemoveEarlier(RemoveAll(ts, done[..n]), x, done[n]);
    }
  }

  /** Each token of `done` in turn is there and is removed, and `left` remains. */
  predicate Removes(ts: seq<Token>, done: seq<Token>, left: seq<Token>) {
    Removable(ts, done) && RemoveAll(ts, done) == left
  }

  lemma KeptToken(front: seq<Token>, x: Token, done: seq<Token>, left: seq<Token>)
    requires Removes(front, done, left)
    ensures Removes(front + [x], done, left + [x])
    ensures x !in left ==> Removes(front + [x], done + [x], left)
  {
    RemoveAllEarlier(front, x, done);
    RemoveEarlier(left, x, x);
    assert (done + [x])[..|done|] == done;
  }

  /** A token that is served has not been passed over before. */
  lemma ServedLast(b: Buffer, todo: seq<Token>, got: map<Token, Message>, x: Token)
    requires NoEmpty(b)
    ensures var w := Pass(b, todo, got);
      At(w.buffer, x) != [] ==> x !in w.todo
  {
    PassSpec(b, todo, got);
    assert Passed(b, todo, got, Pass(b, todo, got), x);
  }

  /** One token more in a pass: if it is served it is one more to be removed. */
  lemma TakeNext(b: Buffer, todo: seq<Token>, i: nat, got: map<Token, Message>, done: seq<Token>)
    requires NoEmpty(b) && i < |todo| && Removes(todo[..i], done, Pass(b, todo[..i], got).todo)
    ensures var w, t := Pass(b, todo[..i], got), todo[i];
      && Pass(b, todo[..i + 1], got) == PassOne(w, t)
      && Removes(todo[..i + 1], done, w.todo + [t])
      && (At(w.buffer, t) != [] ==> Removes(todo[..i + 1], done + [t], w.todo))
  {
    assert todo[..i + 1] == todo[..i] + [todo[i]] && todo[..i + 1][..i] == todo[..i];
    ServedLast(b, todo[..i], got, todo[i]);
    KeptToken(todo[..i], todo[i], done, Pass(b, todo[..i], got).todo);
  }
}
