/**
 What every run of one server guarantees about its backend queue and its status table.
 */
module ServerRuns {
  import opened WriteServer
  import opened Matching

  /** `states[n]` is the server after the first `n` events. */
  ghost predicate ServerRun(states: seq<Server>, events: seq<Event>) {
    && |states| == |events| + 1 && states[0] == INITIAL
    && forall n :: 0 <= n < |events| ==> EventAt(states, events, n)
  }

  ghost predicate EventAt(states: seq<Server>, events: seq<Event>, n: nat)
    requires n < |events| && n + 1 < |states|
  {
    Enabled(states[n], events[n]) && states[n + 1] == Apply(states[n], events[n])
  }

  lemma {:induction false} RunValid(states: seq<Server>, events: seq<Event>, n: nat)
    requires ServerRun(states, events) && n < |states|
    ensures Valid(states[n])
  {
    if n == 0 {
      InitialValid();
    } else {
      RunValid(states, events, n - 1);
      assert EventAt(states, events, n - 1);
      StepValid(states[n - 1], events[n - 1]);
    }
  }

  // ----- The backend queue -----

  /** The completions in the order the I/O threads took the queue's lock. */
  function Finishes(events: seq<Event>): seq<nat> {
    if events == [] then [] else
    var before, last := Finishes(events[..|events| - 1]), events[|events| - 1];
    if last.Enqueue? then before + [last.id] else before
  }

  lemma {:induction false} LogIsFinishes(states: seq<Server>, events: seq<Event>, n: nat)
    requires ServerRun(states, events) && n < |states|
    ensures DoneIds(states[n].log) == Finishes(events[..n])
  {
    if n > 0 {
      LogIsFinishes(states, events, n - 1);
      assert EventAt(states, events, n - 1);
      assert events[..n][..n - 1] == events[..n - 1];
      if events[n - 1].Enqueue? {
        assert DoneIds(states[n].log) == DoneIds(states[n - 1].log) + [events[n - 1].id];
      } else {
        assert states[n].log == states[n - 1].log;
      }
    }
  }

  /**
   At every moment of every run, what has been drained followed by what is queued is exactly
   what the I/O threads finished, in the order they took the lock, each request at most once;
   and the completions sent are those drained that have a client.
   */
  lemma QueueRefinesLog(states: seq<Server>, events: seq<Event>, n: nat)
    requires ServerRun(states, events) && n < |states|
    ensures var s := states[n];
      && s.drained <= |s.log|
      && DoneIds(s.log) == Finishes(events[..n])
      && Entries(s.log) == Entries(s.log[..s.drained]) + s.queue
      && CompletionsSent(s.sent) == Outgoing(s.log[..s.drained])
      && (forall i, j :: 0 <= i < j < |s.log| ==> Finishes(events[..n])[i] != Finishes(events[..n])[j])
  {
    var s := states[n];
    RunValid(states, events, n);
    LogIsFinishes(states, events, n);
    assert s.log == s.log[..s.drained] + s.log[s.drained..];
    forall i, j | 0 <= i < j < |s.log|
      ensures Finishes(events[..n])[i] != Finishes(events[..n])[j]
    {
      assert DoneIds(s.log)[i] == s.log[i].id && DoneIds(s.log)[j] == s.log[j].id;
    }
  }

  // ----- The status table -----

  /** A completion's request, outcome and reply. */
  ghost predicate Reports(s: Server, id: nat, reply: WriteReply) {
    && id < |s.requests| && id < |s.progress|
    && s.progress[id].Reported?
    && Describes(reply, s.requests[id].chunk)
    && reply.filename == s.requests[id].filename
    && reply.success == s.progress[id].success
    && reply.error == s.progress[id].error
  }

  lemma LoggedReports(s: Server, n: nat)
    requires Valid(s) && n < |s.log|
    ensures Reports(s, s.log[n].id, s.log[n].entry.reply)
  {
    var d := s.log[n];
    assert LoggedOk(s, d);
    ReplyDescribes(s.requests[d.id].chunk, s.requests[d.id].filename, s.progress[d.id].success, s.progress[d.id].error);
  }

  lemma {:induction false} OutcomesStay(states: seq<Server>, events: seq<Event>, i: nat, j: nat, id: nat)
    requires ServerRun(states, events) && i <= j < |states|
    requires id < |states[i].requests| && id < |states[i].progress| && states[i].progress[id].Reported?
    ensures states[i].requests <= states[j].requests
    ensures id < |states[j].progress| && states[j].progress[id] == states[i].progress[id]
    decreases j
  {
    if i < j {
      OutcomesStay(states, events, i, j - 1, id);
      RunValid(states, events, j - 1);
      assert EventAt(states, events, j - 1);
      RequestsGrow(states[j - 1], events[j - 1]);
    }
  }

  /**
   Once a completion has reached the queue, a status lookup of its file yields the terminal
   state its I/O thread reported and the error message in its reply, then and at every later
   moment at which no other request has used the file name.
   */
  lemma StatusIsTerminal(states: seq<Server>, events: seq<Event>, i: nat, j: nat, n: nat)
    requires ServerRun(states, events) && i <= j < |states| && n < |states[i].log|
    ensures var d := states[i].log[n];
      && Reports(states[i], d.id, d.entry.reply)
      && d.id < |states[j].requests|
      && (SoleUser(states[j], d.id) ==>
            Lookup(states[j].status, d.entry.reply.filename)
            == (states[i].progress[d.id].state, d.entry.reply.error))
  {
    var d := states[i].log[n];
    RunValid(states, events, i);
    LoggedReports(states[i], n);
    OutcomesStay(states, events, i, j, d.id);
    RunValid(states, events, j);
    assert states[j].requests[d.id] == states[i].requests[d.id];
  }
}
