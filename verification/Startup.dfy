/**
 Startup of the L1 server: dedispersion threads enter their mask counters into their stream's map
 and then register under a mutex, while the main thread polls under the same mutex and afterwards
 builds the RPC servers without it.
 */
module Startup {
  import opened MaskCounters
  import opened Modular
  import opened Wrappers

  /** `chains[i]` is beam `i`'s copy of the RFI chain; the beams are split evenly over the streams. */
  datatype Config = Config(nstreams: nat, perStream: nat, beamIds: seq<int>, chains: seq<seq<Stage>>, nrfifreq: nat)

  /** Where a dedispersion thread is: so many counters entered, or so many of three slots written under the lock. */
  datatype Thread = Absent | Entering(done: nat) | Waiting | Holding(written: nat) | Registered

  datatype Main = Spawning(next: nat) | Wanting | Polling(read: nat, found: nat) | Building(next: nat)

  datatype Owner = MainThread | Worker(beam: nat)

  /** The objects of a beam's pipeline: its dedisperser, and the stages whose latency is watched before and after RFI removal. */
  datatype Object = Dedisperser(beam: nat) | BeforeRfi(beam: nat) | AfterRfi(beam: nat)

  type Slots = seq<Option<Object>>

  /** What a stream's server was given: one dedisperser and two latency monitors for each of its beams. */
  datatype Server = Server(dedispersers: Slots, pre: Slots, post: Slots)

  /** Slot `i` of the three vectors is for beam `i`. */
  datatype State = State(main: Main, threads: seq<Thread>, lock: Option<Owner>,
                         dedispersers: Slots, pre: Slots, post: Slots,
                         maps: seq<map<Key, nat>>, servers: seq<Server>, dead: bool)

  datatype Event = MainStep | ThreadStep(beam: nat) | Throws(beam: nat)

  ghost predicate ConfigOk(c: Config) {
    && c.nstreams > 0 && c.perStream > 0
    && |c.beamIds| == |c.chains| == c.nstreams * c.perStream
  }

  function Beams(c: Config): nat {
    |c.beamIds|
  }

  function StreamOf(c: Config, beam: nat): (s: nat)
    requires ConfigOk(c) && beam < Beams(c)
    ensures s < c.nstreams
  {
    Below(beam, c.nstreams, c.perStream);
    beam / c.perStream
  }

  /** The streams have consecutive blocks of beams. */
  lemma StreamIsBlock(c: Config, beam: nat, stream: nat)
    requires ConfigOk(c) && beam < Beams(c)
    ensures StreamOf(c, beam) == stream <==> stream * c.perStream <= beam < stream * c.perStream + c.perStream
  {
    Between(beam, stream, c.perStream);
    Distribute(stream + 1, stream, c.perStream);
  }

  ghost predicate ChainOk(c: Config, beam: nat)
    requires ConfigOk(c) && beam < Beams(c)
  {
    c.nrfifreq > 0 ==> CountsFinalMask(c.chains[beam])
  }

  function CountersOf(c: Config, beam: nat): seq<Counter>
    requires ConfigOk(c) && beam < Beams(c)
  {
    Counters(c.chains[beam])
  }

  function KeyOf(c: Config, beam: nat, k: nat): Key
    requires ConfigOk(c) && beam < Beams(c) && k < |CountersOf(c, beam)|
  {
    (c.beamIds[beam], CountersOf(c, beam)[k].where)
  }

  function Nothing<T>(n: nat): (r: seq<Option<T>>)
    ensures |r| == n && forall i :: 0 <= i < n ==> r[i] == None
  {
    seq(n, _ => None)
  }

  ghost function Init(c: Config): State
    requires ConfigOk(c)
  {
    State(Spawning(0), seq(Beams(c), _ => Absent), None, Nothing(Beams(c)), Nothing(Beams(c)), Nothing(Beams(c)),
          seq(c.nstreams, _ => map[]), [], false)
  }

  ghost predicate Sized(c: Config, s: State) {
    && ConfigOk(c)
    && |s.threads| == |s.dedispersers| == |s.pre| == |s.post| == Beams(c)
    && |s.maps| == c.nstreams
  }

  // ---- the steps

  ghost predicate Enabled(c: Config, s: State, e: Event)
    requires Sized(c, s)
  {
    && !s.dead
    && match e
       case MainStep => (s.main == Wanting ==> s.lock == None) && (s.main.Building? ==> s.main.next < c.nstreams)
       case ThreadStep(i) =>
         i < Beams(c) && s.threads[i] != Absent && s.threads[i] != Registered && (s.threads[i] == Waiting ==> s.lock == None)
       case Throws(i) => i < Beams(c) && s.threads[i] != Absent
  }

  /** While nothing has thrown, only the mutex keeps a thread from going on, and a thread that exists may throw at any time. */
  lemma OnlyLockHinders(c: Config, s: State, i: nat)
    requires Sized(c, s) && !s.dead && i < Beams(c)
    ensures s.threads[i].Entering? || s.threads[i].Holding? ==> Enabled(c, s, ThreadStep(i))
    ensures s.threads[i] == Waiting && s.lock == None ==> Enabled(c, s, ThreadStep(i))
    ensures s.threads[i] != Absent ==> Enabled(c, s, Throws(i))
    ensures s.main.Spawning? || s.main.Polling? || (s.main == Wanting && s.lock == None) ==> Enabled(c, s, MainStep)
    ensures s.main.Building? && s.main.next < c.nstreams ==> Enabled(c, s, MainStep)
  {
  }

  ghost function EnterNext(c: Config, s: State, i: nat): State
    requires Sized(c, s) && i < Beams(c) && s.threads[i].Entering?
  {
    var counters, k := CountersOf(c, i), s.threads[i].done;
    if k == 0 && !ChainOk(c, i) then s.(dead := true)
    else if k >= |counters| then s.(threads := s.threads[i := Waiting])
    else if counters[k].ringbuf.None? then s.(dead := true)
    else
      var stream := StreamOf(c, i);
      s.(threads := s.threads[i := Entering(k + 1)],
         maps := s.maps[stream := s.maps[stream][KeyOf(c, i, k) := counters[k].ringbuf.value]])
  }

  /** The three writes of set_bonsai, then the release. */
  ghost function WriteNext(c: Config, s: State, i: nat): State
    requires Sized(c, s) && i < Beams(c) && s.threads[i].Holding?
  {
    var n := s.threads[i].written;
    if n == 0 then s.(dedispersers := s.dedispersers[i := Some(Dedisperser(i))], threads := s.threads[i := Holding(1)])
    else if n == 1 then s.(pre := s.pre[i := Some(BeforeRfi(i))], threads := s.threads[i := Holding(2)])
    else if n == 2 then s.(post := s.post[i := Some(AfterRfi(i))], threads := s.threads[i := Holding(3)])
    else s.(lock := None, threads := s.threads[i := Registered])
  }

  ghost function ThreadNext(c: Config, s: State, i: nat): State
    requires Sized(c, s) && i < Beams(c)
  {
    match s.threads[i]
    case Entering(_) => EnterNext(c, s, i)
    case Waiting => s.(lock := Some(Worker(i)), threads := s.threads[i := Holding(0)])
    case Holding(_) => WriteNext(c, s, i)
    case _ => s
  }

  lemma BeamsOfStream(j: nat, n: nat, m: nat)
    requires j < n
    ensures 0 <= j * m <= (j + 1) * m <= n * m && (j + 1) * m == j * m + m
  {
    assert (n - j - 1) * m >= 0;
    assert n * m == (n - j - 1) * m + (j + 1) * m;
  }

  function ServerFor(c: Config, s: State, j: nat): Server
    requires Sized(c, s) && j < c.nstreams
  {
    BeamsOfStream(j, c.nstreams, c.perStream);
    var lo, hi := j * c.perStream, (j + 1) * c.perStream;
    Server(s.dedispersers[lo..hi], s.pre[lo..hi], s.post[lo..hi])
  }

  ghost function MainNext(c: Config, s: State): State
    requires Sized(c, s)
  {
    match s.main
    case Spawning(i) =>
      if i < Beams(c) then s.(threads := s.threads[i := Entering(0)], main := Spawning(i + 1)) else s.(main := Wanting)
    case Wanting => s.(lock := Some(MainThread), main := Polling(0, 0))
    case Polling(i, found) =>
      if i < Beams(c) then s.(main := Polling(i + 1, if s.dedispersers[i].Some? then found + 1 else found))
      else s.(lock := None, main := if found == Beams(c) then Building(0) else Wanting)
    case Building(j) =>
      if j < c.nstreams then s.(servers := s.servers + [ServerFor(c, s, j)], main := Building(j + 1)) else s
  }

  ghost function Next(c: Config, s: State, e: Event): (t: State)
    requires Sized(c, s) && Enabled(c, s, e)
    ensures Sized(c, t)
  {
    match e
    case MainStep => MainNext(c, s)
    case ThreadStep(i) => ThreadNext(c, s, i)
    case Throws(i) => s.(dead := true)
  }

  // ---- what every step keeps

  function Entered(c: Config, s: State, i: nat): nat
    requires Sized(c, s) && i < Beams(c)
  {
    match s.threads[i]
    case Absent => 0
    case Entering(k) => k
    case _ => |CountersOf(c, i)|
  }

  /** Slots are filled exactly as far as their thread has got. */
  ghost predicate SlotsOk(c: Config, s: State)
    requires Sized(c, s)
  {
    forall i :: 0 <= i < Beams(c) ==> SlotOk(c, s, i)
  }

  predicate Wrote(t: Thread, n: nat) {
    t == Registered || (t.Holding? && t.written > n)
  }

  ghost predicate SlotOk(c: Config, s: State, i: nat)
    requires Sized(c, s) && i < Beams(c)
  {
    && s.dedispersers[i] == (if Wrote(s.threads[i], 0) then Some(Dedisperser(i)) else None)
    && s.pre[i] == (if Wrote(s.threads[i], 1) then Some(BeforeRfi(i)) else None)
    && s.post[i] == (if Wrote(s.threads[i], 2) then Some(AfterRfi(i)) else None)
    && (s.threads[i].Holding? ==> s.lock == Some(Worker(i)) && s.threads[i].written <= 3)
  }

  /** The main thread holds the lock while it polls, and counts only registered beams. */
  ghost predicate MainOk(c: Config, s: State)
    requires Sized(c, s)
  {
    match s.main
    case Spawning(i) =>
      && s.servers == [] && i <= Beams(c) && s.lock != Some(MainThread)
      && forall k :: 0 <= k < Beams(c) ==> (s.threads[k] == Absent <==> i <= k)
    case Wanting => s.servers == [] && s.lock != Some(MainThread) && Absent !in s.threads
    case Polling(i, found) =>
      && Absent !in s.threads
      && s.servers == [] && s.lock == Some(MainThread) && found <= i <= Beams(c)
      && (found == i ==> forall k :: 0 <= k < i ==> s.threads[k] == Registered)
    case Building(j) =>
      && |s.servers| == j <= c.nstreams && s.lock == None
      && forall k :: 0 <= k < Beams(c) ==> s.threads[k] == Registered
  }

  /** A thread that has entered a counter has a chain that may be used, and real ring buffers so far. */
  ghost predicate EntriesOk(c: Config, s: State)
    requires Sized(c, s)
  {
    forall i :: 0 <= i < Beams(c) ==> EntryOk(c, s, i)
  }

  ghost predicate EntryOk(c: Config, s: State, i: nat)
    requires Sized(c, s) && i < Beams(c)
  {
    && Entered(c, s, i) <= |CountersOf(c, i)|
    && (s.threads[i] != Absent && s.threads[i] != Entering(0) ==> ChainOk(c, i))
    && AllHaveRingbufs(CountersOf(c, i)[..Entered(c, s, i)])
  }

  predicate Provided(c: Config, s: State, stream: nat, key: Key, i: nat, k: nat)
    requires Sized(c, s)
  {
    && i < Beams(c) && StreamOf(c, i) == stream
    && k < Entered(c, s, i) && k < |CountersOf(c, i)| && KeyOf(c, i, k) == key
  }

  /** A stream's map holds every counter its beams have entered, and nothing else. */
  ghost predicate MapsOk(c: Config, s: State)
    requires Sized(c, s)
  {
    forall stream, key :: 0 <= stream < c.nstreams ==>
      (key in s.maps[stream] <==> exists i, k :: Provided(c, s, stream, key, i, k))
  }

  /** A dedispersion thread that has the lock is registering. */
  predicate LockOk(c: Config, s: State)
    requires Sized(c, s)
  {
    s.lock.Some? && s.lock.value.Worker? ==> s.lock.value.beam < Beams(c) && s.threads[s.lock.value.beam].Holding?
  }

  ghost predicate Inv(c: Config, s: State) {
    Sized(c, s) && SlotsOk(c, s) && LockOk(c, s) && MainOk(c, s) && EntriesOk(c, s) && MapsOk(c, s)
  }

  lemma InitInv(c: Config)
    requires ConfigOk(c)
    ensures Inv(c, Init(c))
  {}

  lemma SlotsStep(c: Config, s: State, e: Event)
    requires Sized(c, s) && SlotsOk(c, s) && MainOk(c, s) && Enabled(c, s, e)
    ensures SlotsOk(c, Next(c, s, e))
  {
    var t := Next(c, s, e);
    forall i | 0 <= i < Beams(c)
      ensures SlotOk(c, t, i)
    {
      assert SlotOk(c, s, i);
      if e.ThreadStep? { assert SlotOk(c, s, e.beam); }
    }
  }

  lemma LockStep(c: Config, s: State, e: Event)
    requires Sized(c, s) && SlotsOk(c, s) && LockOk(c, s) && MainOk(c, s) && Enabled(c, s, e)
    ensures LockOk(c, Next(c, s, e))
  {
    if e.ThreadStep? { assert SlotOk(c, s, e.beam); }
  }

  lemma MainOkStep(c: Config, s: State, e: Event)
    requires Sized(c, s) && SlotsOk(c, s) && MainOk(c, s) && Enabled(c, s, e)
    ensures MainOk(c, Next(c, s, e))
  {
    if s.main.Polling? && s.main.read < Beams(c) { assert SlotOk(c, s, s.main.read); }
    if e.ThreadStep? { assert SlotOk(c, s, e.beam); }
  }

  lemma EntriesStep(c: Config, s: State, e: Event)
    requires Sized(c, s) && MainOk(c, s) && EntriesOk(c, s) && Enabled(c, s, e)
    ensures EntriesOk(c, Next(c, s, e))
  {
    var t := Next(c, s, e);
    forall i | 0 <= i < Beams(c)
      ensures EntryOk(c, t, i)
    {
      assert EntryOk(c, s, i);
      if e == ThreadStep(i) && s.threads[i].Entering? {
        var k := s.threads[i].done;
        if k < |CountersOf(c, i)| { assert CountersOf(c, i)[..k + 1] == CountersOf(c, i)[..k] + [CountersOf(c, i)[k]]; }
      }
    }
  }

  /** A thread about to enter a counter that has a ring buffer. */
  ghost predicate Puts(c: Config, s: State, e: Event)
    requires Sized(c, s) && Enabled(c, s, e)
  {
    && e.ThreadStep? && s.threads[e.beam].Entering? && s.threads[e.beam].done < |CountersOf(c, e.beam)|
    && !Next(c, s, e).dead
  }

  lemma EnteredStep(c: Config, s: State, e: Event, i: nat)
    requires Sized(c, s) && Enabled(c, s, e) && MainOk(c, s) && i < Beams(c) && EntryOk(c, s, i)
    ensures var t := Next(c, s, e);
      if Puts(c, s, e) && e.beam == i then Entered(c, t, i) == Entered(c, s, i) + 1 else Entered(c, t, i) == Entered(c, s, i)
  {}

  /** One more counter entered: one key in one map. */
  lemma PutEffect(c: Config, s: State, e: Event)
    requires Sized(c, s) && MainOk(c, s) && EntriesOk(c, s) && Enabled(c, s, e) && Puts(c, s, e)
    ensures var t, i0, k0 := Next(c, s, e), e.beam, s.threads[e.beam].done;
      var stream0, counter := StreamOf(c, i0), CountersOf(c, i0)[k0];
      && counter.ringbuf.Some?
      && t.maps[stream0] == s.maps[stream0][KeyOf(c, i0, k0) := counter.ringbuf.value]
      && (forall j :: 0 <= j < c.nstreams && j != stream0 ==> t.maps[j] == s.maps[j])
      && forall i :: 0 <= i < Beams(c) ==> Entered(c, t, i) == if i == i0 then k0 + 1 else Entered(c, s, i)
  {
    forall i | 0 <= i < Beams(c)
      ensures Entered(c, Next(c, s, e), i) == if i == e.beam then s.threads[e.beam].done + 1 else Entered(c, s, i)
    {
      assert EntryOk(c, s, i);
    }
  }

  lemma MapsPut(c: Config, s: State, e: Event)
    requires Inv(c, s) && Enabled(c, s, e) && Puts(c, s, e)
    ensures MapsOk(c, Next(c, s, e))
  {
    var t := Next(c, s, e);
    PutEffect(c, s, e);
    forall stream, key | 0 <= stream < c.nstreams
      ensures key in t.maps[stream] <==> exists i, k :: Provided(c, t, stream, key, i, k)
    {
      ProvidedPut(c, s, t, e.beam, stream, key);
    }
  }

  /** From `s` to `t`, beam `i0` has entered one more counter, into its stream's map. */
  lemma ProvidedPut(c: Config, s: State, t: State, i0: nat, stream: nat, key: Key)
    requires Sized(c, s) && Sized(c, t) && stream < c.nstreams && i0 < Beams(c)
    requires key in s.maps[stream] <==> exists i, k :: Provided(c, s, stream, key, i, k)
    requires Entered(c, s, i0) < |CountersOf(c, i0)|
    requires forall i :: 0 <= i < Beams(c) ==> Entered(c, t, i) == Entered(c, s, i) + if i == i0 then 1 else 0
    requires key in t.maps[stream] <==>
      key in s.maps[stream] || (stream == StreamOf(c, i0) && key == KeyOf(c, i0, Entered(c, s, i0)))
    ensures key in t.maps[stream] <==> exists i, k :: Provided(c, t, stream, key, i, k)
  {
    var k0 := Entered(c, s, i0);
    if key in s.maps[stream] {
      var i, k :| Provided(c, s, stream, key, i, k);
      assert Provided(c, t, stream, key, i, k);
    }
    if stream == StreamOf(c, i0) && key == KeyOf(c, i0, k0) {
      assert Provided(c, t, stream, key, i0, k0);
    }
    forall i, k | Provided(c, t, stream, key, i, k)
      ensures key in t.maps[stream]
    {
      assert (i == i0 && k == k0) || Provided(c, s, stream, key, i, k);
    }
  }

  lemma MapsStep(c: Config, s: State, e: Event)
    requires Inv(c, s) && Enabled(c, s, e)
    ensures MapsOk(c, Next(c, s, e))
  {
    if Puts(c, s, e) {
      MapsPut(c, s, e);
    } else {
      NothingEntered(c, s, e);
      SameMaps(c, s, Next(c, s, e));
    }
  }

  lemma SameMaps(c: Config, s: State, t: State)
    requires Sized(c, s) && MapsOk(c, s) && Sized(c, t) && t.maps == s.maps
    requires forall i :: 0 <= i < Beams(c) ==> Entered(c, t, i) == Entered(c, s, i)
    ensures MapsOk(c, t)
  {
    forall stream, key | 0 <= stream < c.nstreams
      ensures key in t.maps[stream] <==> exists i, k :: Provided(c, t, stream, key, i, k)
    {
      forall i, k
        ensures Provided(c, t, stream, key, i, k) <==> Provided(c, s, stream, key, i, k)
      {}
    }
  }

  lemma StepInv(c: Config, s: State, e: Event)
    requires Inv(c, s) && Enabled(c, s, e)
    ensures Inv(c, Next(c, s, e))
  {
    SlotsStep(c, s, e);
    LockStep(c, s, e);
    MainOkStep(c, s, e);
    EntriesStep(c, s, e);
    MapsStep(c, s, e);
  }

  // ---- whole runs

  ghost predicate Step(c: Config, s: State, t: State) {
    Sized(c, s) && exists e :: Enabled(c, s, e) && t == Next(c, s, e)
  }

  ghost predicate StepAt(c: Config, run: seq<State>, i: nat)
    requires i + 1 < |run|
  {
    Step(c, run[i], run[i + 1])
  }

  ghost predicate IsRun(c: Config, run: seq<State>) {
    && ConfigOk(c) && run != [] && run[0] == Init(c)
    && forall i :: 0 <= i < |run| - 1 ==> StepAt(c, run, i)
  }

  lemma {:induction false} RunInv(c: Config, run: seq<State>, i: nat)
    requires IsRun(c, run) && i < |run|
    ensures Inv(c, run[i])
    decreases i
  {
    if i == 0 {
      InitInv(c);
    } else {
      RunInv(c, run, i - 1);
      assert StepAt(c, run, i - 1);
      var e :| Enabled(c, run[i - 1], e) && run[i] == Next(c, run[i - 1], e);
      StepInv(c, run[i - 1], e);
    }
  }

  /** Everything the RPC servers read. */
  predicate SameShared(s: State, t: State) {
    s.dedispersers == t.dedispersers && s.pre == t.pre && s.post == t.post && s.maps == t.maps
  }

  lemma BuildingIsQuiet(c: Config, s: State, e: Event)
    requires Inv(c, s) && Enabled(c, s, e) && s.main.Building?
    ensures Next(c, s, e).main.Building? && SameShared(s, Next(c, s, e)) && s.servers <= Next(c, s, e).servers
  {}

  lemma {:induction false} StaysQuiet(c: Config, run: seq<State>, i: nat, j: nat)
    requires IsRun(c, run) && i <= j < |run| && run[i].main.Building?
    ensures run[j].main.Building? && SameShared(run[i], run[j]) && run[i].servers <= run[j].servers
    decreases j
  {
    if i < j {
      StaysQuiet(c, run, i, j - 1);
      RunInv(c, run, j - 1);
      assert StepAt(c, run, j - 1);
      var e :| Enabled(c, run[j - 1], e) && run[j] == Next(c, run[j - 1], e);
      BuildingIsQuiet(c, run[j - 1], e);
    }
  }

  /** Slot `i` of each vector holds the object it is for, of beam `lo + i`. */
  predicate SlotsFilled(dedispersers: Slots, pre: Slots, post: Slots, lo: nat, n: nat) {
    && |dedispersers| == |pre| == |post| == n
    && forall i :: 0 <= i < n ==>
         dedispersers[i] == Some(Dedisperser(lo + i)) && pre[i] == Some(BeforeRfi(lo + i)) && post[i] == Some(AfterRfi(lo + i))
  }

  /** The server of stream `j` has the objects of exactly its own beams, in order, and none is missing. */
  predicate ServerComplete(c: Config, server: Server, j: nat)
    requires j < c.nstreams
  {
    BeamsOfStream(j, c.nstreams, c.perStream);
    SlotsFilled(server.dedispersers, server.pre, server.post, j * c.perStream, c.perStream)
  }

  lemma ServerForComplete(c: Config, s: State, j: nat)
    requires Inv(c, s) && s.main.Building? && j < c.nstreams
    ensures ServerComplete(c, ServerFor(c, s, j), j)
  {
    BeamsOfStream(j, c.nstreams, c.perStream);
    AllFilled(c, s);
  }

  lemma AllFilled(c: Config, s: State)
    requires Inv(c, s) && s.main.Building?
    ensures SlotsFilled(s.dedispersers, s.pre, s.post, 0, Beams(c))
  {
    forall i | 0 <= i < Beams(c)
      ensures s.dedispersers[i] == Some(Dedisperser(i)) && s.pre[i] == Some(BeforeRfi(i)) && s.post[i] == Some(AfterRfi(i))
    {
      assert SlotOk(c, s, i);
    }
  }

  ghost predicate ServersComplete(c: Config, s: State) {
    |s.servers| <= c.nstreams && forall j :: 0 <= j < |s.servers| ==> ServerComplete(c, s.servers[j], j)
  }

  lemma ServersStep(c: Config, s: State, e: Event)
    requires Inv(c, s) && Enabled(c, s, e) && ServersComplete(c, s)
    ensures ServersComplete(c, Next(c, s, e))
  {
    if s.main.Building? && s.main.next < c.nstreams { ServerForComplete(c, s, s.main.next); }
  }

  lemma {:induction false} RunServers(c: Config, run: seq<State>, i: nat)
    requires IsRun(c, run) && i < |run|
    ensures ServersComplete(c, run[i])
    decreases i
  {
    if i > 0 {
      RunServers(c, run, i - 1);
      RunInv(c, run, i - 1);
      assert StepAt(c, run, i - 1);
      var e :| Enabled(c, run[i - 1], e) && run[i] == Next(c, run[i - 1], e);
      ServersStep(c, run[i - 1], e);
    }
  }

  /** Every counter of every beam is in the map of that beam's stream, and the maps hold nothing else. */
  ghost predicate MapsFull(c: Config, s: State)
    requires Sized(c, s)
  {
    && (forall i, k :: 0 <= i < Beams(c) && 0 <= k < |CountersOf(c, i)| ==> KeyOf(c, i, k) in s.maps[StreamOf(c, i)])
    && (forall stream, key :: 0 <= stream < c.nstreams && key in s.maps[stream] ==>
          exists i, k :: Provided(c, s, stream, key, i, k))
  }

  lemma BuildingMapsFull(c: Config, s: State)
    requires Inv(c, s) && s.main.Building?
    ensures MapsFull(c, s)
    ensures forall i :: 0 <= i < Beams(c) ==> ChainOk(c, i) && AllHaveRingbufs(CountersOf(c, i))
  {
    forall i | 0 <= i < Beams(c)
      ensures ChainOk(c, i) && AllHaveRingbufs(CountersOf(c, i))
    {
      assert EntryOk(c, s, i);
      assert CountersOf(c, i)[..|CountersOf(c, i)|] == CountersOf(c, i);
    }
    forall i, k | 0 <= i < Beams(c) && 0 <= k < |CountersOf(c, i)|
      ensures KeyOf(c, i, k) in s.maps[StreamOf(c, i)]
    {
      assert Provided(c, s, StreamOf(c, i), KeyOf(c, i, k), i, k);
    }
  }

  // ---- which measurements are found

  /** No two beams of one stream have the same identifier. */
  predicate DistinctIds(c: Config)
    requires ConfigOk(c)
  {
    forall i, j :: 0 <= i < j < Beams(c) && StreamOf(c, i) == StreamOf(c, j) ==> c.beamIds[i] != c.beamIds[j]
  }

  /** The map a beam's counters entered so far would make on their own. */
  function Own(c: Config, s: State, i: nat): map<Key, nat>
    requires Sized(c, s) && i < Beams(c) && Entered(c, s, i) <= |CountersOf(c, i)|
  {
    PutAll(map[], c.beamIds[i], CountersOf(c, i)[..Entered(c, s, i)])
  }

  /** Under a beam's identifier its stream's map is what the beam alone would make it. */
  ghost predicate ValuesOk(c: Config, s: State)
    requires Sized(c, s)
  {
    forall i, where: string :: 0 <= i < Beams(c) && Entered(c, s, i) <= |CountersOf(c, i)| ==>
      Agree(s.maps[StreamOf(c, i)], Own(c, s, i), (c.beamIds[i], where))
  }

  predicate Agree(a: map<Key, nat>, b: map<Key, nat>, key: Key) {
    (key in a <==> key in b) && (key in b ==> a[key] == b[key])
  }

  lemma PutOneMore(entries: map<Key, nat>, beamId: int, counters: seq<Counter>, k: nat)
    requires k < |counters| && AllHaveRingbufs(counters[..k + 1])
    ensures PutAll(entries, beamId, counters[..k + 1])
         == PutAll(entries, beamId, counters[..k])[(beamId, counters[k].where) := counters[k].ringbuf.value]
  {
    assert counters[..k + 1][..k] == counters[..k];
  }

  lemma OwnPut(c: Config, s: State, t: State, i: nat)
    requires Sized(c, s) && Sized(c, t) && i < Beams(c) && Entered(c, t, i) == Entered(c, s, i) + 1
    requires EntryOk(c, t, i)
    ensures var k := Entered(c, s, i);
      && CountersOf(c, i)[k].ringbuf.Some?
      && Own(c, t, i) == Own(c, s, i)[KeyOf(c, i, k) := CountersOf(c, i)[k].ringbuf.value]
  {
    var k := Entered(c, s, i);
    assert CountersOf(c, i)[..k + 1][k] == CountersOf(c, i)[k];
    PutOneMore(map[], c.beamIds[i], CountersOf(c, i), k);
  }

  lemma ValuesPut(c: Config, s: State, e: Event)
    requires Inv(c, s) && Enabled(c, s, e) && Puts(c, s, e) && DistinctIds(c) && ValuesOk(c, s)
    ensures ValuesOk(c, Next(c, s, e))
  {
    var t := Next(c, s, e);
    EntriesStep(c, s, e);
    PutEffect(c, s, e);
    OwnPut(c, s, t, e.beam);
    forall i, where: string | 0 <= i < Beams(c) && Entered(c, t, i) <= |CountersOf(c, i)|
      ensures Agree(t.maps[StreamOf(c, i)], Own(c, t, i), (c.beamIds[i], where))
    {
      assert Agree(s.maps[StreamOf(c, i)], Own(c, s, i), (c.beamIds[i], where));
    }
  }

  lemma SameValues(c: Config, s: State, t: State)
    requires Sized(c, s) && ValuesOk(c, s) && Sized(c, t) && t.maps == s.maps
    requires forall i :: 0 <= i < Beams(c) ==> Entered(c, t, i) == Entered(c, s, i)
    ensures ValuesOk(c, t)
  {
    forall i, where: string | 0 <= i < Beams(c) && Entered(c, t, i) <= |CountersOf(c, i)|
      ensures Agree(t.maps[StreamOf(c, i)], Own(c, t, i), (c.beamIds[i], where))
    {
      assert Agree(s.maps[StreamOf(c, i)], Own(c, s, i), (c.beamIds[i], where));
    }
  }

  lemma NothingEntered(c: Config, s: State, e: Event)
    requires Inv(c, s) && Enabled(c, s, e) && !Puts(c, s, e)
    ensures Next(c, s, e).maps == s.maps
    ensures forall i :: 0 <= i < Beams(c) ==> Entered(c, Next(c, s, e), i) == Entered(c, s, i)
  {
    forall i | 0 <= i < Beams(c)
      ensures Entered(c, Next(c, s, e), i) == Entered(c, s, i)
    {
      assert EntryOk(c, s, i);
      EnteredStep(c, s, e, i);
    }
  }

  lemma ValuesStep(c: Config, s: State, e: Event)
    requires Inv(c, s) && Enabled(c, s, e) && DistinctIds(c) && ValuesOk(c, s)
    ensures ValuesOk(c, Next(c, s, e))
  {
    if Puts(c, s, e) {
      ValuesPut(c, s, e);
    } else {
      NothingEntered(c, s, e);
      SameValues(c, s, Next(c, s, e));
    }
  }

  lemma {:induction false} RunValues(c: Config, run: seq<State>, i: nat)
    requires IsRun(c, run) && i < |run| && DistinctIds(c)
    ensures Sized(c, run[i]) && ValuesOk(c, run[i])
    decreases i
  {
    if i > 0 {
      RunValues(c, run, i - 1);
      RunInv(c, run, i - 1);
      assert StepAt(c, run, i - 1);
      var e :| Enabled(c, run[i - 1], e) && run[i] == Next(c, run[i - 1], e);
      ValuesStep(c, run[i - 1], e);
    }
  }

  /**
   With distinct identifiers, a server finds under each place of a beam the ring buffer of the
   beam's last counter there.
   */
  lemma MeasurementsFound(c: Config, run: seq<State>, i: nat, beam: nat, k: nat)
    requires IsRun(c, run) && i < |run| && run[i].servers != [] && DistinctIds(c)
    requires beam < Beams(c) && k < |CountersOf(c, beam)|
    requires forall j :: k < j < |CountersOf(c, beam)| ==> CountersOf(c, beam)[j].where != CountersOf(c, beam)[k].where
    ensures Sized(c, run[i])
    ensures var m, key := run[i].maps[StreamOf(c, beam)], (c.beamIds[beam], CountersOf(c, beam)[k].where);
      key in m && Some(m[key]) == CountersOf(c, beam)[k].ringbuf
  {
    RunInv(c, run, i);
    RunValues(c, run, i);
    BuildingMapsFull(c, run[i]);
    var counters := CountersOf(c, beam);
    assert counters[..|counters|] == counters;
    PutAllFinds(map[], c.beamIds[beam], counters, KeyOf(c, beam, k));
    assert Agree(run[i].maps[StreamOf(c, beam)], Own(c, run[i], beam), (c.beamIds[beam], counters[k].where));
  }

  /**
   Whenever an RPC server exists: every beam has registered all three of its objects, every server
   has its own beams' objects, every mask counter of every beam is in its stream's map, and no
   step of any later part of the run changes what the servers read without a lock.
   */
  lemma ReadsAreSound(c: Config, run: seq<State>, i: nat)
    requires IsRun(c, run) && i < |run| && run[i].servers != []
    ensures Sized(c, run[i]) && ServersComplete(c, run[i]) && MapsFull(c, run[i])
    ensures SlotsFilled(run[i].dedispersers, run[i].pre, run[i].post, 0, Beams(c))
    ensures forall k :: 0 <= k < Beams(c) ==> run[i].threads[k] == Registered
    ensures forall k :: 0 <= k < Beams(c) ==> ChainOk(c, k) && AllHaveRingbufs(CountersOf(c, k))
    ensures forall j :: i <= j < |run| ==> SameShared(run[i], run[j]) && run[i].servers <= run[j].servers
  {
    RunInv(c, run, i);
    RunServers(c, run, i);
    BuildingMapsFull(c, run[i]);
    AllFilled(c, run[i]);
    forall j | i <= j < |run|
      ensures SameShared(run[i], run[j]) && run[i].servers <= run[j].servers
    {
      StaysQuiet(c, run, i, j);
    }
  }

  /** Unless a thread has thrown, startup is never stuck before every server exists. */
  lemma NeverStuck(c: Config, run: seq<State>, i: nat)
    requires IsRun(c, run) && i < |run| && !run[i].dead && |run[i].servers| < c.nstreams
    ensures Sized(c, run[i]) && exists e :: Enabled(c, run[i], e) && !e.Throws?
  {
    RunInv(c, run, i);
    var s := run[i];
    if Enabled(c, s, MainStep) {
    } else {
      var k := s.lock.value.beam;
      assert Enabled(c, s, ThreadStep(k));
    }
  }
}
