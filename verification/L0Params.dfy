/**
 Parameters of the L0 simulator: the checks on a configuration, the sizes derived from it, and
 what each of its threads sends.
 */
module L0Params {
  import opened Modular
  import opened PowersOfTwo
  import opened Wrappers

  /**
   What is not the simulator's own: the number of coarse channels, and the size of a packet, which
   is a header and an equal amount for each coarse channel, both given (beams, upsampling, samples).
   */
  datatype Wire = Wire(nfreqCoarse: nat, header: (nat, nat, nat) -> nat, channel: (nat, nat, nat) -> nat)

  ghost predicate WireOk(w: Wire) {
    && w.nfreqCoarse >= 32 && IsPow2(w.nfreqCoarse)
    && forall b, u, t :: w.header(b, u, t) > 0
  }

  function PacketSize(w: Wire, nbeams: nat, nfreq: nat, nupfreq: nat, nt: nat): nat {
    w.header(nbeams, nupfreq, nt) + nfreq * w.channel(nbeams, nupfreq, nt)
  }

  /** The configuration file; `coarsePerPacket` need not be in it, and it may hold unused parameters. */
  datatype Input = Input(nbeams: int, nthreads: int, nfreq: int, ntPerPacket: int, fpgaCounts: int, maxPacketSize: int,
                         ipaddr: seq<string>, port: seq<int>, coarsePerPacket: Option<int>, unused: bool)

  datatype Check =
    | Lists | NtPerPacket | BeamsPerStream | ThreadsPerStream | ThreadsPowerOfTwo | FineFrequencies
    | CoarsePerPacket | PacketTooLarge | SinglePacketTooLarge | UnusedParams

  /** Refused by a check, or stopped by an assertion: one on the input, or the bound on what is rounded. */
  datatype Error = Refused(check: Check) | InputAssertion | RoundingAssertion

  datatype Params = Params(nbeams: nat, nthreads: nat, ipaddr: seq<string>, port: seq<int>, ntPerPacket: nat,
                           nstreams: nat, beamsPerStream: nat, threadsPerStream: nat, coarsePerThread: nat, nupfreq: nat,
                           coarsePerPacket: nat, packetSize: nat)

  /** Its assertion is the precondition. */
  function Xdiv(num: int, den: int): (r: nat)
    requires num > 0 && den > 0 && num % den == 0
    ensures r > 0 && num == r * den
  {
    Split(num, den);
    num / den
  }

  predicate ListsOk(i: Input) {
    |i.ipaddr| == |i.port| || (|i.ipaddr| == 1 && |i.port| > 1) || (|i.port| == 1 && |i.ipaddr| > 1)
  }

  function Streams(i: Input): nat {
    if |i.ipaddr| > |i.port| then |i.ipaddr| else |i.port|
  }

  predicate PositivesOk(i: Input) {
    && Streams(i) > 0 && 0 < i.nthreads <= 32 && i.nbeams > 0 && i.nfreq > 0 && i.fpgaCounts > 0 && i.maxPacketSize > 0
    && forall k :: 0 <= k < |i.port| ==> 0 < i.port[k] < 65536
  }

  /** The streams, threads and frequencies divide as they have to. */
  ghost predicate Divisible(w: Wire, i: Input)
    requires Streams(i) > 0 && w.nfreqCoarse > 0
  {
    && IsPow2(i.ntPerPacket) && i.nbeams % Streams(i) == 0 && i.nthreads % Streams(i) == 0
    && IsPow2(i.nthreads / Streams(i)) && i.nfreq % w.nfreqCoarse == 0
  }

  /** Packets of the channels asked for fit; if none were asked for, packets of one channel do. */
  ghost predicate PacketOk(w: Wire, i: Input, beams: nat, upfreq: nat, perThread: nat)
    requires i.ntPerPacket > 0 && forall b, u, t :: w.header(b, u, t) > 0
  {
    match i.coarsePerPacket
    case Some(k) => k > 0 && perThread % k == 0 && PacketSize(w, beams, k, upfreq, i.ntPerPacket) <= i.maxPacketSize
    case None =>
      var one := PacketSize(w, beams, 1, upfreq, i.ntPerPacket);
      one <= i.maxPacketSize && i.maxPacketSize / one < 1_000_000_000
  }

  ghost predicate Accepted(w: Wire, i: Input)
    requires WireOk(w)
  {
    && ListsOk(i) && PositivesOk(i) && Divisible(w, i) && !i.unused
    && PacketOk(w, i, i.nbeams / Streams(i), i.nfreq / w.nfreqCoarse, w.nfreqCoarse / (i.nthreads / Streams(i)))
  }

  /** One entry in the list is for every stream. */
  function Spread<T>(a: seq<T>, s: nat): T
    requires |a| == 1 || s < |a|
  {
    a[if |a| == 1 then 0 else s]
  }

  /** Twice as many channels are more than a thread has, or so many single packets exceed the limit. */
  predicate Largest(w: Wire, b: nat, u: nat, t: nat, limit: nat, perThread: nat, k: nat) {
    k == perThread || 2 * k * PacketSize(w, b, 1, u, t) > limit
  }

  /** Everything is split exactly, and a packet is no larger than allowed. */
  ghost predicate Exact(w: Wire, i: Input, p: Params) {
    && p.nstreams == Streams(i) > 0 && p.nbeams == i.nbeams && p.nthreads == i.nthreads
    && p.ntPerPacket == i.ntPerPacket && IsPow2(p.ntPerPacket)
    && |p.ipaddr| == |p.port| == p.nstreams
    && p.nbeams == p.beamsPerStream * p.nstreams && p.beamsPerStream > 0
    && p.nthreads == p.threadsPerStream * p.nstreams && IsPow2(p.threadsPerStream)
    && w.nfreqCoarse == p.coarsePerThread * p.threadsPerStream && p.coarsePerThread > 0
    && i.nfreq == p.nupfreq * w.nfreqCoarse && p.nupfreq > 0
    && p.coarsePerPacket > 0 && p.coarsePerThread % p.coarsePerPacket == 0
    && p.packetSize == PacketSize(w, p.beamsPerStream, p.coarsePerPacket, p.nupfreq, p.ntPerPacket) <= i.maxPacketSize
    && ListsOk(i)
    && (forall s :: 0 <= s < p.nstreams ==> p.ipaddr[s] == Spread(i.ipaddr, s) && p.port[s] == Spread(i.port, s))
    && match i.coarsePerPacket
       case Some(k) => p.coarsePerPacket == k
       case None =>
         && IsPow2(p.coarsePerPacket)
         && Largest(w, p.beamsPerStream, p.nupfreq, p.ntPerPacket, i.maxPacketSize, p.coarsePerThread, p.coarsePerPacket)
  }

  /** A packet without channels is its header, and each channel more adds the same amount. */
  lemma PacketGrows(w: Wire, b: nat, n: nat, u: nat, t: nat)
    ensures PacketSize(w, b, 0, u, t) == w.header(b, u, t)
    ensures PacketSize(w, b, n + 1, u, t) == PacketSize(w, b, n, u, t) + w.channel(b, u, t)
  {
  }

  /** A packet of `n` channels is no larger than `n` packets of one. */
  lemma PacketScales(w: Wire, b: nat, n: nat, u: nat, t: nat)
    requires n >= 1
    ensures PacketSize(w, b, n, u, t) <= n * PacketSize(w, b, 1, u, t)
  {
    var header, channel := w.header(b, u, t), w.channel(b, u, t);
    assert n * (header + channel) == n * header + n * channel;
    assert n * header >= header;
  }

  function Smaller(a: nat, b: nat): nat {
    if a < b then a else b
  }

  /** A power of two no larger than the quotient, or than what one thread has, fits and divides. */
  lemma ChosenFits(w: Wire, b: nat, u: nat, t: nat, limit: nat, perThread: nat, down: nat)
    requires PacketSize(w, b, 1, u, t) > 0 && IsPow2(perThread) && perThread > 0
    requires IsPow2(down) && 0 < down <= limit / PacketSize(w, b, 1, u, t) < 2 * down
    ensures var k := Smaller(down, perThread);
      && k > 0 && IsPow2(k) && perThread % k == 0 && PacketSize(w, b, k, u, t) <= limit
      && Largest(w, b, u, t, limit, perThread, k)
  {
    var k, one := Smaller(down, perThread), PacketSize(w, b, 1, u, t);
    Divides(k, perThread);
    PacketScales(w, b, k, u, t);
    Split(limit, one);
    Fewer(k, limit / one, one);
    Fewer(limit / one + 1, 2 * down, one);
    Distribute(limit / one + 1, 1, one);
  }

  /** A list of one entry, made as long as the other one. */
  function Repeated<T>(x: T, n: nat): (r: seq<T>)
    ensures |r| == n && forall k :: 0 <= k < n ==> r[k] == x
  {
    seq(n, _ => x)
  }

  /** The checks on the input, in order; the two lists come back equally long. */
  method CheckInput(w: Wire, i: Input) returns (r: Result<(seq<string>, seq<int>), Error>)
    requires WireOk(w)
    ensures r.Success? <==> ListsOk(i) && PositivesOk(i) && Divisible(w, i)
    ensures r.Success? ==>
      && |r.value.0| == |r.value.1| == Streams(i)
      && forall s :: 0 <= s < Streams(i) ==> r.value.0[s] == Spread(i.ipaddr, s) && r.value.1[s] == Spread(i.port, s)
    ensures !ListsOk(i) ==> r == Failure(Refused(Lists))
    ensures ListsOk(i) && !PositivesOk(i) ==> r == Failure(InputAssertion)
    ensures ListsOk(i) && PositivesOk(i) && !Divisible(w, i) ==>
      r == Failure(Refused(if !IsPow2(i.ntPerPacket) then NtPerPacket
                           else if i.nbeams % Streams(i) != 0 then BeamsPerStream
                           else if i.nthreads % Streams(i) != 0 then ThreadsPerStream
                           else if !IsPow2(i.nthreads / Streams(i)) then ThreadsPowerOfTwo
                           else FineFrequencies))
  {
    var ipaddr, port := i.ipaddr, i.port;
    if |ipaddr| == 1 && |port| > 1 {
      ipaddr := Repeated(i.ipaddr[0], |port|);
    } else if |ipaddr| > 1 && |port| == 1 {
      port := Repeated(i.port[0], |ipaddr|);
    }
    if |ipaddr| != |port| {
      return Failure(Refused(Lists));
    }
    var nstreams := |ipaddr|;
    if nstreams <= 0 || i.nthreads <= 0 || i.nthreads > 32 || i.nbeams <= 0 || i.nfreq <= 0 || i.fpgaCounts <= 0
       || i.maxPacketSize <= 0 {
      return Failure(InputAssertion);
    }
    var ok := PortsInRange(port);
    if !ok {
      return Failure(InputAssertion);
    }
    if i.ntPerPacket > 0 { IsPowerOfTwoExact(i.ntPerPacket); }
    if i.ntPerPacket <= 0 || !IsPowerOfTwo(i.ntPerPacket) {
      return Failure(Refused(NtPerPacket));
    }
    if i.nbeams % nstreams != 0 {
      return Failure(Refused(BeamsPerStream));
    }
    if i.nthreads % nstreams != 0 {
      return Failure(Refused(ThreadsPerStream));
    }
    var threadsPerStream := Xdiv(i.nthreads, nstreams);
    IsPowerOfTwoExact(threadsPerStream);
    if !IsPowerOfTwo(threadsPerStream) {
      return Failure(Refused(ThreadsPowerOfTwo));
    }
    if i.nfreq % w.nfreqCoarse != 0 {
      return Failure(Refused(FineFrequencies));
    }
    r := Success((ipaddr, port));
  }

  method PortsInRange(port: seq<int>) returns (ok: bool)
    ensures ok <==> forall k :: 0 <= k < |port| ==> 0 < port[k] < 65536
  {
    var i := 0;
    while i < |port|
      invariant i <= |port| && forall k :: 0 <= k < i ==> 0 < port[k] < 65536
    {
      if port[i] <= 0 || port[i] >= 65536 {
        return false;
      }
      i := i + 1;
    }
    ok := true;
  }

  method MakeParams(w: Wire, i: Input) returns (r: Result<Params, Error>)
    requires WireOk(w)
    ensures r.Success? <==> Accepted(w, i)
    ensures ListsOk(i) && PositivesOk(i) && Divisible(w, i) && r.Failure? ==>
      (r.error == Refused(UnusedParams) <==>
         PacketOk(w, i, i.nbeams / Streams(i), i.nfreq / w.nfreqCoarse, w.nfreqCoarse / (i.nthreads / Streams(i))))
    ensures r.Success? ==> Exact(w, i, r.value)
  {
    var lists :- CheckInput(w, i);
    var ipaddr, port := lists.0, lists.1;
    var nstreams := |ipaddr|;
    var beamsPerStream := Xdiv(i.nbeams, nstreams);
    var threadsPerStream := Xdiv(i.nthreads, nstreams);
    ThreadsDivide(w, i.nthreads, threadsPerStream, nstreams);
    var coarsePerThread := Xdiv(w.nfreqCoarse, threadsPerStream);
    var nupfreq := Xdiv(i.nfreq, w.nfreqCoarse);
    var coarsePerPacket :- ChoosePacket(w, i, beamsPerStream, nupfreq, coarsePerThread);
    var packetSize := PacketSize(w, beamsPerStream, coarsePerPacket, nupfreq, i.ntPerPacket);
    if i.unused {
      return Failure(Refused(UnusedParams));
    }
    assert coarsePerPacket > 0;
    assert coarsePerThread % coarsePerPacket == 0;
    assert packetSize <= i.maxPacketSize;
    r := Success(Params(i.nbeams, i.nthreads, ipaddr, port, i.ntPerPacket, nstreams, beamsPerStream, threadsPerStream,
                        coarsePerThread, nupfreq, coarsePerPacket, packetSize));
  }

  /** A power of two number of threads, at most 32, divides the coarse channels. */
  lemma ThreadsDivide(w: Wire, nthreads: nat, threadsPerStream: nat, nstreams: nat)
    requires WireOk(w) && 0 < nthreads <= 32 && nstreams > 0 && nthreads == threadsPerStream * nstreams
    requires IsPow2(threadsPerStream)
    ensures 0 < threadsPerStream <= 32 && w.nfreqCoarse % threadsPerStream == 0
    ensures IsPow2(w.nfreqCoarse / threadsPerStream)
  {
    assert threadsPerStream <= threadsPerStream * nstreams;
    Divides(threadsPerStream, w.nfreqCoarse);
  }

  method ChoosePacket(w: Wire, i: Input, beams: nat, upfreq: nat, perThread: nat) returns (r: Result<nat, Error>)
    requires WireOk(w) && i.ntPerPacket > 0 && i.maxPacketSize > 0 && IsPow2(perThread) && perThread > 0
    ensures r.Success? <==> PacketOk(w, i, beams, upfreq, perThread)
    ensures r.Failure? && i.coarsePerPacket.Some? ==>
      var k := i.coarsePerPacket.value;
      r.error == Refused(if k <= 0 || perThread % k != 0 then CoarsePerPacket else PacketTooLarge)
    ensures r.Failure? && i.coarsePerPacket.None? ==>
      var one := PacketSize(w, beams, 1, upfreq, i.ntPerPacket);
      r.error == if one > i.maxPacketSize then Refused(SinglePacketTooLarge) else RoundingAssertion
    ensures r.Success? ==>
      && r.value > 0 && perThread % r.value == 0
      && PacketSize(w, beams, r.value, upfreq, i.ntPerPacket) <= i.maxPacketSize
      && if i.coarsePerPacket.Some? then r.value == i.coarsePerPacket.value
         else IsPow2(r.value) && Largest(w, beams, upfreq, i.ntPerPacket, i.maxPacketSize, perThread, r.value)
  {
    if i.coarsePerPacket.Some? {
      var k := i.coarsePerPacket.value;
      if k <= 0 || perThread % k != 0 {
        return Failure(Refused(CoarsePerPacket));
      }
      if PacketSize(w, beams, k, upfreq, i.ntPerPacket) > i.maxPacketSize {
        return Failure(Refused(PacketTooLarge));
      }
      return Success(k);
    }
    var one := PacketSize(w, beams, 1, upfreq, i.ntPerPacket);
    if one > i.maxPacketSize {
      return Failure(Refused(SinglePacketTooLarge));
    }
    Quotients(i.maxPacketSize, one);
    var x := i.maxPacketSize / one;
    if x >= 1_000_000_000 {
      return Failure(RoundingAssertion);
    }
    var down := RoundDown(x);
    RoundDownIsPow2(x);
    ChosenFits(w, beams, upfreq, i.ntPerPacket, i.maxPacketSize, perThread, down);
    r := Success(Smaller(down, perThread));
  }

  lemma Quotients(a: nat, b: nat)
    requires 0 < b <= a
    ensures a / b >= 1
  {}

  // ---- what each thread sends

  /** The stream a thread sends to, what it sends, and whether it is the one that ends the stream. */
  datatype Ostream = Ostream(stream: nat, address: string, port: int,
                             beamIds: seq<int>, coarseFreqIds: seq<int>, endsStream: bool)

  function Range(lo: int, hi: int): (r: seq<int>)
    requires lo <= hi
    ensures |r| == hi - lo
  {
    seq(hi - lo, i requires 0 <= i < hi - lo => lo + i)
  }

  lemma RangeHas(lo: int, hi: int, x: int)
    requires lo <= hi
    ensures x in Range(lo, hi) <==> lo <= x < hi
  {
    if lo <= x < hi { assert Range(lo, hi)[x - lo] == x; }
  }

  method VRange(lo: int, hi: int) returns (r: seq<int>)
    requires lo <= hi
    ensures r == Range(lo, hi)
  {
    var ret := new int[hi - lo];
    var i := lo;
    while i < hi
      invariant lo <= i <= hi
      invariant forall k :: 0 <= k < i - lo ==> ret[k] == lo + k
    {
      ret[i - lo] := i;
      i := i + 1;
    }
    r := ret[..];
  }

  /** Block `q` of the numbers, where each block has `m`. */
  function Block(q: nat, m: nat): (r: seq<int>)
    ensures |r| == m && forall k :: 0 <= k < m ==> r[k] == q * m + k
  {
    seq(m, k requires 0 <= k < m => q * m + k)
  }

  lemma BlockIsRange(q: nat, m: nat)
    ensures q * m <= (q + 1) * m && Range(q * m, (q + 1) * m) == Block(q, m)
  {
    Distribute(q + 1, 1, m);
  }

  /** The parameters of a configuration that was accepted. */
  ghost predicate Usable(w: Wire, p: Params) {
    && p.nstreams > 0 && p.beamsPerStream > 0 && p.threadsPerStream > 0 && p.coarsePerThread > 0
    && p.nbeams == p.nstreams * p.beamsPerStream && p.nthreads == p.nstreams * p.threadsPerStream
    && w.nfreqCoarse == p.threadsPerStream * p.coarsePerThread
    && |p.ipaddr| == |p.port| == p.nstreams
  }

  lemma ExactIsUsable(w: Wire, i: Input, p: Params)
    requires Exact(w, i, p)
    ensures Usable(w, p)
  {
    assert p.threadsPerStream > 0;
  }

  lemma ThreadStream(w: Wire, p: Params, ithread: nat)
    requires Usable(w, p) && ithread < p.nthreads
    ensures ithread / p.threadsPerStream < p.nstreams
    ensures 0 <= ithread % p.threadsPerStream < p.threadsPerStream
    ensures ithread == ithread / p.threadsPerStream * p.threadsPerStream + ithread % p.threadsPerStream
  {
    Split(ithread, p.threadsPerStream);
    Below(ithread, p.nstreams, p.threadsPerStream);
  }

  /** What thread `j` of stream `s` is given. */
  function OstreamAt(p: Params, s: nat, j: nat): Ostream
    requires s < |p.ipaddr| && s < |p.port|
  {
    Ostream(s, p.ipaddr[s], p.port[s], Block(s, p.beamsPerStream), Block(j, p.coarsePerThread), j + 1 == p.threadsPerStream)
  }

  function OstreamOf(w: Wire, p: Params, ithread: nat): Ostream
    requires Usable(w, p) && ithread < p.nthreads
  {
    ThreadStream(w, p, ithread);
    OstreamAt(p, ithread / p.threadsPerStream, ithread % p.threadsPerStream)
  }

  /**
   Threads go to the streams in blocks; the streams have blocks of the beams, and the threads of a
   stream blocks of the coarse channels.  The last thread of a block ends the stream.
   */
  lemma OstreamExact(w: Wire, p: Params, ithread: nat)
    requires Usable(w, p) && ithread < p.nthreads
    ensures var o := OstreamOf(w, p, ithread);
      && o.stream < p.nstreams
      && o.stream * p.threadsPerStream <= ithread < (o.stream + 1) * p.threadsPerStream
      && o.address == p.ipaddr[o.stream] && o.port == p.port[o.stream]
      && |o.beamIds| == p.beamsPerStream && |o.coarseFreqIds| == p.coarsePerThread
      && (forall k :: 0 <= k < p.beamsPerStream ==> o.beamIds[k] == o.stream * p.beamsPerStream + k)
      && (forall k :: 0 <= k < p.coarsePerThread ==>
            o.coarseFreqIds[k] == (ithread - o.stream * p.threadsPerStream) * p.coarsePerThread + k)
      && (o.endsStream <==> ithread + 1 == (o.stream + 1) * p.threadsPerStream)
  {
    ThreadStream(w, p, ithread);
    var s, j := ithread / p.threadsPerStream, ithread % p.threadsPerStream;
    assert j == ithread - s * p.threadsPerStream;
  }

  method BlockRange(q: nat, m: nat) returns (r: seq<int>)
    ensures r == Block(q, m)
  {
    BlockIsRange(q, m);
    r := VRange(q * m, (q + 1) * m);
  }

  method MakeOstream(w: Wire, p: Params, ithread: nat) returns (o: Ostream)
    requires Usable(w, p) && ithread < p.nthreads
    ensures o == OstreamOf(w, p, ithread)
  {
    ThreadStream(w, p, ithread);
    o := MakeOstreamAt(p, ithread / p.threadsPerStream, ithread % p.threadsPerStream);
  }

  method MakeOstreamAt(p: Params, istream: nat, jthread: nat) returns (o: Ostream)
    requires istream < |p.ipaddr| && istream < |p.port|
    ensures o == OstreamAt(p, istream, jthread)
  {
    var beams := BlockRange(istream, p.beamsPerStream);
    var freqs := BlockRange(jthread, p.coarsePerThread);
    o := Ostream(istream, p.ipaddr[istream], p.port[istream], beams, freqs, jthread == p.threadsPerStream - 1);
  }

  method MakeStreams(w: Wire, p: Params) returns (streams: seq<Ostream>)
    requires Usable(w, p)
    ensures |streams| == p.nthreads
    ensures forall t :: 0 <= t < p.nthreads ==> streams[t] == OstreamOf(w, p, t)
  {
    streams := [];
    var ithread := 0;
    while ithread < p.nthreads
      invariant |streams| == ithread <= p.nthreads
      invariant forall t :: 0 <= t < ithread ==> streams[t] == OstreamOf(w, p, t)
    {
      var o := MakeOstream(w, p, ithread);
      streams := streams + [o];
      ithread := ithread + 1;
    }
  }

  lemma InBlock(x: nat, q: nat, m: nat)
    requires m > 0
    ensures x in Block(q, m) <==> x / m == q
  {
    BlockIsRange(q, m);
    Between(x, q, m);
    RangeHas(q * m, (q + 1) * m, x);
  }

  predicate Sends(w: Wire, p: Params, ithread: nat, beam: nat, freq: nat)
    requires Usable(w, p) && ithread < p.nthreads
  {
    beam in OstreamOf(w, p, ithread).beamIds && freq in OstreamOf(w, p, ithread).coarseFreqIds
  }

  /** The one thread that sends a beam's coarse frequency. */
  function Sender(p: Params, beam: nat, freq: nat): nat
    requires p.beamsPerStream > 0 && p.coarsePerThread > 0
  {
    var stream, place := beam / p.beamsPerStream, freq / p.coarsePerThread;
    Fewer(0, stream, p.threadsPerStream);
    stream * p.threadsPerStream + place
  }

  lemma SendsExact(w: Wire, p: Params, ithread: nat, beam: nat, freq: nat)
    requires Usable(w, p) && ithread < p.nthreads
    ensures Sends(w, p, ithread, beam, freq) <==>
      ithread / p.threadsPerStream == beam / p.beamsPerStream && ithread % p.threadsPerStream == freq / p.coarsePerThread
  {
    ThreadStream(w, p, ithread);
    InBlock(beam, ithread / p.threadsPerStream, p.beamsPerStream);
    InBlock(freq, ithread % p.threadsPerStream, p.coarsePerThread);
  }

  /**
   Every coarse frequency of every beam is sent by exactly one thread, to the stream the beam
   belongs to.
   */
  lemma Partition(w: Wire, p: Params, beam: nat, freq: nat)
    requires Usable(w, p) && beam < p.nbeams && freq < w.nfreqCoarse
    ensures Sender(p, beam, freq) < p.nthreads && Sends(w, p, Sender(p, beam, freq), beam, freq)
    ensures OstreamOf(w, p, Sender(p, beam, freq)).stream == beam / p.beamsPerStream
    ensures forall ithread :: 0 <= ithread < p.nthreads ==>
      (Sends(w, p, ithread, beam, freq) ==> ithread == Sender(p, beam, freq))
  {
    Below(beam, p.nstreams, p.beamsPerStream);
    Below(freq, p.threadsPerStream, p.coarsePerThread);
    var s, j := beam / p.beamsPerStream, freq / p.coarsePerThread;
    Slot(s, j, p.nstreams, p.threadsPerStream);
    SendsExact(w, p, Sender(p, beam, freq), beam, freq);
    forall ithread | 0 <= ithread < p.nthreads && Sends(w, p, ithread, beam, freq)
      ensures ithread == Sender(p, beam, freq)
    {
      SendsExact(w, p, ithread, beam, freq);
      ThreadStream(w, p, ithread);
    }
  }

  /** Each stream is ended by exactly one of its threads, the last. */
  lemma OneEnds(w: Wire, p: Params, s: nat)
    requires Usable(w, p) && s < p.nstreams
    ensures var last := s * p.threadsPerStream + p.threadsPerStream - 1;
      && 0 <= last < p.nthreads && OstreamOf(w, p, last).stream == s && OstreamOf(w, p, last).endsStream
      && forall ithread :: 0 <= ithread < p.nthreads ==>
           (OstreamOf(w, p, ithread).stream == s && OstreamOf(w, p, ithread).endsStream ==> ithread == last)
  {
    var last := s * p.threadsPerStream + p.threadsPerStream - 1;
    Slot(s, p.threadsPerStream - 1, p.nstreams, p.threadsPerStream);
    forall ithread | 0 <= ithread < p.nthreads && OstreamOf(w, p, ithread).stream == s && OstreamOf(w, p, ithread).endsStream
      ensures ithread == last
    {
      ThreadStream(w, p, ithread);
    }
  }
}
