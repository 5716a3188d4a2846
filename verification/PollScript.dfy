/**
 The network as the client meets it: a script of poll results.

 Each poll returns one message from every socket that has one, an empty poll means that nothing
 arrived (in a blocking poll: that it timed out), and after the script nothing arrives any more.
 */
module PollScript {
  import opened ClientBuffer
  import opened Sequences

  type Script = seq<seq<Arrival>>

  function First(polls: Script): seq<Arrival> {
    if polls == [] then [] else polls[0]
  }

  function Rest(polls: Script): Script {
    if polls == [] then [] else polls[1..]
  }

  // ----- Receiving -----

  /** What polling until a poll finds nothing reads, and the script after that poll. */
  function Drained(polls: Script): (r: (seq<Arrival>, Script))
    ensures |r.1| <= |polls| && (r.0 != [] ==> |r.1| < |polls|)
    decreases |polls|
  {
    if First(polls) == [] then ([], Rest(polls))
    else
      var (arrived, after) := Drained(Rest(polls));
      (First(polls) + arrived, after)
  }

  /** Draining from `here` on reads the rest of what draining the whole script reads. */
  ghost predicate DrainsTo(script: Script, arrived: seq<Arrival>, here: Script) {
    arrived + Drained(here).0 == Drained(script).0 && Drained(here).1 == Drained(script).1
  }

  lemma DrainNext(script: Script, arrived: seq<Arrival>, here: Script)
    requires DrainsTo(script, arrived, here)
    ensures if First(here) == [] then Drained(script) == (arrived, Rest(here))
            else DrainsTo(script, arrived + First(here), Rest(here))
  {
    if First(here) == [] {
      assert arrived + [] == arrived;
    } else {
      var rest := Drained(Rest(here)).0;
      assert arrived + (First(here) + rest) == arrived + First(here) + rest;
    }
  }

  /** What is waiting is read; if nothing is, one more poll waits for something. */
  function Received(polls: Script): (r: (seq<Arrival>, Script))
    ensures |r.1| <= |polls| && (r.0 != [] ==> |r.1| < |polls|)
  {
    var (arrived, after) := Drained(polls);
    if arrived != [] then (arrived, after) else (First(after), Rest(after))
  }

  lemma {:induction false} DrainedSplits(polls: Script)
    ensures Joined(polls) == Drained(polls).0 + Joined(Drained(polls).1)
    decreases |polls|
  {
    if polls != [] && polls[0] == [] {
      assert [] + Joined(polls[1..]) == Joined(polls[1..]);
    } else if polls != [] {
      DrainedSplits(polls[1..]);
      var (arrived, after) := Drained(polls[1..]);
      Associate(polls[0], arrived, Joined(after));
    }
  }

  /** No message is lost or read twice by a wait. */
  lemma ReceivedSplits(polls: Script)
    ensures Joined(polls) == Received(polls).0 + Joined(Received(polls).1)
  {
    var (arrived, after) := Drained(polls);
    DrainedSplits(polls);
    if arrived == [] {
      assert [] + Joined(after) == Joined(after);
      assert after == [] ==> Joined(after) == [] + Joined([]);
    }
  }

  // ----- One wait after another -----

  /** What the first `n` waits receive, and the script as it is when they are over. */
  function Run(script: Script, n: nat): (seq<Arrival>, Script) {
    if n == 0 then ([], script)
    else
      var (had, here) := Run(script, n - 1);
      var (more, after) := Received(here);
      (had + more, after)
  }

  function Arrived(script: Script, n: nat): seq<Arrival> {
    Run(script, n).0
  }

  /** Where the wait after the first `n` begins. */
  function Begins(script: Script, n: nat): Script {
    Run(script, n).1
  }

  /** The script has run from `before` to `after` in `waits` waits, and `arrived` has come. */
  predicate Ran(before: Script, after: Script, arrived: seq<Arrival>, waits: nat) {
    Run(before, waits) == (arrived, after)
  }

  lemma ReceivedRan(polls: Script)
    ensures Ran(polls, Received(polls).1, Received(polls).0, 1)
  {
    assert Run(polls, 0) == ([], polls);
    assert [] + Received(polls).0 == Received(polls).0;
  }

  lemma {:induction false} RunOn(script: Script, m: nat, n: nat)
    ensures Run(script, m + n) == (Arrived(script, m) + Arrived(Begins(script, m), n), Begins(Begins(script, m), n))
  {
    if n == 0 {
      assert Arrived(script, m) + [] == Arrived(script, m);
    } else {
      RunOn(script, m, n - 1);
      var here := Begins(script, m);
      Associate(Arrived(script, m), Arrived(here, n - 1), Received(Begins(here, n - 1)).0);
    }
  }

  lemma RanTrans(p: Script, q: Script, r: Script, x: seq<Arrival>, y: seq<Arrival>, m: nat, n: nat)
    requires Ran(p, q, x, m) && Ran(q, r, y, n)
    ensures Ran(p, r, x + y, m + n)
  {
    RunOn(p, m, n);
  }

  lemma {:induction false} RanSplits(before: Script, after: Script, arrived: seq<Arrival>, waits: nat)
    requires Ran(before, after, arrived, waits)
    ensures Joined(before) == arrived + Joined(after)
    decreases waits
  {
    if waits == 0 {
      assert [] + Joined(before) == Joined(before);
    } else {
      var (had, here) := Run(before, waits - 1);
      RanSplits(before, here, had, waits - 1);
      ReceivedSplits(here);
      Associate(had, Received(here).0, Joined(after));
    }
  }

  // ----- Timing out -----

  /** A wait that begins here times out: neither the poll that does not block nor the one that does finds anything. */
  predicate Idle(polls: Script) {
    Received(polls).0 == []
  }

  lemma IdleIs(polls: Script)
    ensures Idle(polls) <==> First(polls) == [] && First(Rest(polls)) == []
  {
    if First(polls) != [] { assert Drained(polls).0 != []; }
  }

  /** Of `waits` waits, the one after the first `n` times out. */
  predicate TimesOut(script: Script, waits: nat, n: nat) {
    n < waits && Idle(Begins(script, n))
  }

  /** One of the waits timed out when exactly `arrived` had come. */
  ghost predicate GaveUp(script: Script, waits: nat, arrived: seq<Arrival>) {
    exists n :: TimesOut(script, waits, n) && Arrived(script, n) == arrived
  }

  lemma GaveUpLater(script: Script, here: Script, arrived: seq<Arrival>, m: nat, more: seq<Arrival>, waits: nat)
    requires Ran(script, here, arrived, m) && GaveUp(here, waits, more)
    ensures GaveUp(script, m + waits, arrived + more)
  {
    var n :| TimesOut(here, waits, n) && Arrived(here, n) == more;
    RunOn(script, m, n);
    assert TimesOut(script, m + waits, m + n);
  }

  lemma GaveUpOn(script: Script, waits: nat, waits': nat, arrived: seq<Arrival>)
    requires GaveUp(script, waits, arrived) && waits <= waits'
    ensures GaveUp(script, waits', arrived)
  {
    var n :| TimesOut(script, waits, n) && Arrived(script, n) == arrived;
    assert TimesOut(script, waits', n);
  }

  /** None of the waits times out. */
  ghost predicate Unhurried(script: Script, waits: nat) {
    forall n :: !TimesOut(script, waits, n)
  }

  /** None of the waits times out while anything is still to come, as when waiting has no time limit. */
  ghost predicate Patient(script: Script, waits: nat) {
    forall n :: TimesOut(script, waits, n) ==> Joined(Begins(script, n)) == []
  }

  /** A wait that timed out had all there was. */
  lemma PatientHasAll(script: Script, waits: nat, arrived: seq<Arrival>)
    requires Patient(script, waits) && GaveUp(script, waits, arrived)
    ensures arrived == Joined(script)
  {
    var n :| TimesOut(script, waits, n) && Arrived(script, n) == arrived;
    RanSplits(script, Begins(script, n), arrived, n);
    assert arrived + [] == arrived;
  }

  /**
   Two empty polls in a row need not be a wait that timed out: here the first ends the draining of
   one wait, and the second is the one that does not block at the beginning of the next.
   */
  lemma OrdinaryIsPatient(x: seq<Arrival>, y: seq<Arrival>, waits: nat)
    requires x != [] && y != []
    ensures Arrived([x, [], [], y], 2) == x + y
    ensures Patient([x, [], [], y], waits) && (waits <= 2 ==> Unhurried([x, [], [], y], waits))
  {
    var script := [x, [], [], y];
    OrdinaryWaits(x, y);
    forall n | TimesOut(script, waits, n)
      ensures n >= 2 && Joined(Begins(script, n)) == []
    {
      if n >= 2 { NothingLeft(script, 2, n); }
    }
  }

  lemma OrdinaryWaits(x: seq<Arrival>, y: seq<Arrival>)
    requires x != [] && y != []
    ensures var script := [x, [], [], y];
      && Begins(script, 0) == script && Begins(script, 1) == [[], y] && Begins(script, 2) == []
      && !Idle(script) && !Idle([[], y]) && Arrived(script, 2) == x + y
  {
    var script := [x, [], [], y];
    assert Drained(script[1..]) == ([], [[], y]);
    assert x + [] == x;
    assert Received(script) == (x, [[], y]);
    assert Drained([[], y]) == ([], [y]);
    assert Received([[], y]) == (y, []);
    assert Run(script, 0) == ([], script);
    assert Run(script, 1) == ([] + x, [[], y]);
    assert Run(script, 2) == ([] + x + y, []);
  }

  lemma {:induction false} NothingLeft(script: Script, m: nat, n: nat)
    requires m <= n && Begins(script, m) == []
    ensures Begins(script, n) == []
    decreases n
  {
    if m < n { NothingLeft(script, m, n - 1); }
  }
}
