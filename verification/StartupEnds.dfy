/**
 Startup can always be finished: from every reachable state in which no thread has thrown, some
 continuation builds every RPC server, if the chains are such that the threads need not throw.
 */
module StartupEnds {
  import opened MaskCounters
  import opened Startup
  import opened Wrappers

  /** No thread has a reason of its own to throw. */
  ghost predicate Usable(c: Config)
    requires ConfigOk(c)
  {
    forall i :: 0 <= i < Beams(c) ==> ChainOk(c, i) && AllHaveRingbufs(CountersOf(c, i))
  }

  // ----- A measure -----

  /** Steps that thread `i` still has to take, and one to be spawned. */
  function ThreadWork(c: Config, threads: seq<Thread>, i: nat): nat
    requires ConfigOk(c) && i < Beams(c) && |threads| == Beams(c)
  {
    match threads[i]
    case Absent => |CountersOf(c, i)| + 7
    case Entering(k) => if k <= |CountersOf(c, i)| then |CountersOf(c, i)| - k + 6 else 6
    case Waiting => 5
    case Holding(n) => if n <= 3 then 4 - n else 1
    case Registered => 0
  }

  function Work(c: Config, threads: seq<Thread>, n: nat): nat
    requires ConfigOk(c) && n <= Beams(c) && |threads| == Beams(c)
  {
    if n == 0 then 0 else Work(c, threads, n - 1) + ThreadWork(c, threads, n - 1)
  }

  lemma ThreadWorkAt(c: Config, a: seq<Thread>, b: seq<Thread>, i: nat)
    requires ConfigOk(c) && i < Beams(c) && |a| == |b| == Beams(c) && a[i] == b[i]
    ensures ThreadWork(c, a, i) == ThreadWork(c, b, i)
  {
  }

  lemma {:induction false} WorkUpdate(c: Config, threads: seq<Thread>, i: nat, t: Thread, n: nat)
    requires ConfigOk(c) && i < Beams(c) && n <= Beams(c) && |threads| == Beams(c)
    ensures Work(c, threads[i := t], n) ==
      if i < n then Work(c, threads, n) - ThreadWork(c, threads, i) + ThreadWork(c, threads[i := t], i)
      else Work(c, threads, n)
  {
    if n > 0 {
      WorkUpdate(c, threads, i, t, n - 1);
      if i != n - 1 { ThreadWorkAt(c, threads, threads[i := t], n - 1); }
    }
  }

  lemma {:induction false} NoWork(c: Config, threads: seq<Thread>, n: nat)
    requires ConfigOk(c) && n <= Beams(c) && |threads| == Beams(c)
    ensures Work(c, threads, n) == 0 <==> forall i :: 0 <= i < n ==> threads[i] == Registered
  {
    if n > 0 { NoWork(c, threads, n - 1); }
  }

  /** Steps of the main thread: while threads work, to the end of the poll; then to the last server. */
  function MainWork(c: Config, s: State): nat
    requires Sized(c, s)
  {
    var b := Beams(c);
    if Work(c, s.threads, b) > 0 then
      match s.main
      case Spawning(_) => b + 2
      case Polling(i, _) => if i <= b then b - i + 1 else 1
      case _ => 0
    else
      match s.main
      case Spawning(_) => c.nstreams + 2 * b + 4
      case Polling(i, found) =>
        if i > b then 1 else if found == i then c.nstreams + 1 + (b - i) else c.nstreams + b + 3 + (b - i)
      case Wanting => c.nstreams + b + 2
      case Building(j) => if j <= c.nstreams then c.nstreams - j else 0
  }

  /** The step leaves less to do. */
  ghost predicate Advances(c: Config, s: State, t: State)
    requires Sized(c, s) && Sized(c, t)
  {
    var before, after := Work(c, s.threads, Beams(c)), Work(c, t.threads, Beams(c));
    after < before || (after == before && MainWork(c, t) < MainWork(c, s))
  }

  // ----- A step that advances -----

  lemma ThreadAdvances(c: Config, s: State, i: nat)
    requires Inv(c, s) && Usable(c) && Enabled(c, s, ThreadStep(i))
    ensures !Next(c, s, ThreadStep(i)).dead && Advances(c, s, Next(c, s, ThreadStep(i)))
  {
    var t := Next(c, s, ThreadStep(i));
    assert EntryOk(c, s, i) && SlotOk(c, s, i);
    assert ChainOk(c, i) && AllHaveRingbufs(CountersOf(c, i));
    assert t.threads == s.threads[i := t.threads[i]];
    WorkUpdate(c, s.threads, i, t.threads[i], Beams(c));
  }

  lemma SpawnAdvances(c: Config, s: State)
    requires Inv(c, s) && !s.dead && s.main.Spawning?
    ensures Enabled(c, s, MainStep) && !Next(c, s, MainStep).dead && Advances(c, s, Next(c, s, MainStep))
  {
    var i := s.main.next;
    if i < Beams(c) { WorkUpdate(c, s.threads, i, Entering(0), Beams(c)); }
  }

  lemma PollAdvances(c: Config, s: State)
    requires Inv(c, s) && !s.dead && s.main.Polling?
    ensures Enabled(c, s, MainStep) && !Next(c, s, MainStep).dead && Advances(c, s, Next(c, s, MainStep))
  {
    NoWork(c, s.threads, Beams(c));
    if s.main.read < Beams(c) { assert SlotOk(c, s, s.main.read); }
  }

  lemma Holder(c: Config, s: State)
    requires Sized(c, s) && LockOk(c, s)
    ensures s.lock == None || s.lock == Some(MainThread) || exists k :: 0 <= k < Beams(c) && s.threads[k].Holding?
  {
    assert s.lock.Some? ==> s.lock.value.Worker? || s.lock == Some(MainThread);
  }

  lemma IdleAdvances(c: Config, s: State)
    requires Inv(c, s) && !s.dead && Work(c, s.threads, Beams(c)) == 0
    requires s.main == Wanting || (s.main.Building? && s.main.next < c.nstreams)
    ensures Enabled(c, s, MainStep) && !Next(c, s, MainStep).dead && Advances(c, s, Next(c, s, MainStep))
  {
    NoWork(c, s.threads, Beams(c));
    assert forall k :: 0 <= k < Beams(c) ==> s.threads[k] == Registered;
    Holder(c, s);
  }

  /** A thread that can go on: the one with the mutex, or any if nobody has it. */
  lemma Runnable(c: Config, s: State) returns (i: nat)
    requires Inv(c, s) && !s.dead && s.main == Wanting && Work(c, s.threads, Beams(c)) > 0
    ensures Enabled(c, s, ThreadStep(i))
  {
    NoWork(c, s.threads, Beams(c));
    if s.lock.Some? {
      i := s.lock.value.beam;
    } else {
      i :| 0 <= i < Beams(c) && s.threads[i] != Registered;
      assert s.threads[i] in s.threads;
    }
  }

  lemma SomeAdvance(c: Config, s: State) returns (e: Event)
    requires Inv(c, s) && Usable(c) && !s.dead && |s.servers| < c.nstreams
    ensures Enabled(c, s, e) && !Next(c, s, e).dead && Advances(c, s, Next(c, s, e))
  {
    e := MainStep;
    if s.main.Spawning? {
      SpawnAdvances(c, s);
    } else if s.main.Polling? {
      PollAdvances(c, s);
    } else if Work(c, s.threads, Beams(c)) == 0 {
      IdleAdvances(c, s);
    } else {
      NoWork(c, s.threads, Beams(c));
      var i := Runnable(c, s);
      ThreadAdvances(c, s, i);
      e := ThreadStep(i);
    }
  }

  // ----- The continuation -----

  lemma RunExtends(c: Config, run: seq<State>, t: State)
    requires IsRun(c, run) && Step(c, run[|run| - 1], t)
    ensures IsRun(c, run + [t])
  {
    var more := run + [t];
    forall i | 0 <= i < |more| - 1
      ensures StepAt(c, more, i)
    {
      if i < |run| - 1 { assert StepAt(c, run, i); }
    }
  }

  lemma NextOnTheWay(c: Config, run: seq<State>) returns (t: State)
    requires IsRun(c, run) && Usable(c) && !run[|run| - 1].dead && |run[|run| - 1].servers| < c.nstreams
    ensures Sized(c, run[|run| - 1]) && Sized(c, t) && Advances(c, run[|run| - 1], t) && !t.dead
    ensures IsRun(c, run + [t])
  {
    var s := run[|run| - 1];
    RunInv(c, run, |run| - 1);
    var e := SomeAdvance(c, s);
    t := Next(c, s, e);
    RunExtends(c, run, t);
  }

  lemma {:induction false} FinishFrom(c: Config, run: seq<State>, s: State) returns (whole: seq<State>)
    requires IsRun(c, run) && Usable(c) && s == run[|run| - 1] && Sized(c, s) && !s.dead
    ensures IsRun(c, whole) && run <= whole
    ensures !whole[|whole| - 1].dead && |whole[|whole| - 1].servers| == c.nstreams
    decreases Work(c, s.threads, Beams(c)), MainWork(c, s)
  {
    RunServers(c, run, |run| - 1);
    if |s.servers| == c.nstreams {
      whole := run;
    } else {
      var t := NextOnTheWay(c, run);
      whole := FinishFrom(c, run + [t], t);
      assert run <= run + [t];
    }
  }

  /** Every run in which no thread has thrown can be continued until every server exists. */
  lemma CanFinish(c: Config, run: seq<State>) returns (whole: seq<State>)
    requires IsRun(c, run) && Usable(c) && !run[|run| - 1].dead
    ensures IsRun(c, whole) && run <= whole
    ensures !whole[|whole| - 1].dead && |whole[|whole| - 1].servers| == c.nstreams
  {
    RunInv(c, run, |run| - 1);
    whole := FinishFrom(c, run, run[|run| - 1]);
  }
}
