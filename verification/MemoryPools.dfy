/**
 Memory of the L1 server: how many chunks each ring buffer holds, how many slabs the node needs,
 and how the slabs are divided over the CPUs' pools.
 */
module MemoryPools {
  import opened Modular
  import opened PowersOfTwo
  import opened Wrappers

  /** `nt` samples fill a chunk of level 0, and twice as many one of each further level. */
  datatype Config = Config(nbeams: int, nstreams: int, assembledSamples: int, telescopingSamples: seq<int>,
                           stagingGb: real, nbytesPerSlab: nat, nt: nat)

  datatype Sizes = Sizes(assembled: nat, telescoping: seq<nat>, livePerBeam: nat, temporaryPerStream: nat, staging: nat,
                         total: nat)

  datatype Error = Refused | Unsupported

  const GIBIBYTE := 1073741824.0

  /** What the configuration is checked for. */
  predicate Accepted(c: Config) {
    && c.nbeams > 0 && c.nstreams > 0 && c.nbeams % c.nstreams == 0
    && c.assembledSamples > 0 && |c.telescopingSamples| <= 4
    && (forall i :: 0 <= i < |c.telescopingSamples| ==> c.telescopingSamples[i] > 0)
    && (|c.telescopingSamples| > 0 ==> c.telescopingSamples[0] >= c.assembledSamples)
    && c.stagingGb >= 0.0
  }

  /** `n` chunks of `width` samples are the fewest, but at least two, that hold `samples`. */
  predicate Least(n: nat, width: nat, samples: int) {
    n >= 2 && n * width >= samples && (n > 2 ==> (n - 1) * width < samples)
  }

  function Chunks(samples: nat, width: nat): (n: nat)
    requires samples > 0 && width > 0
    ensures Least(n, width, samples)
  {
    var n := (samples + width - 1) / width;
    Split(samples + width - 1, width);
    Distribute(n, 1, width);
    if n < 2 then
      assert n <= 2;
      Enough(n, width, samples);
      2
    else n
  }

  lemma Enough(n: nat, width: nat, samples: nat)
    requires n <= 2 && n * width >= samples
    ensures 2 * width >= samples
  {}

  lemma LeastGrows(n: nat, m: nat, width: nat, a: int, b: int)
    requires Least(n, width, a) && Least(m, width, b) && a <= b
    ensures n <= m
  {
    if m < n { Fewer(m, n - 1, width); }
  }

  function Sum(s: seq<nat>): nat {
    if s == [] then 0 else Sum(s[..|s| - 1]) + s[|s| - 1]
  }

  /** Summing is the same however the sequence is cut. */
  lemma {:induction false} SumOfParts(a: seq<nat>, b: seq<nat>)
    ensures Sum(a + b) == Sum(a) + Sum(b)
    ensures |a| == 1 ==> Sum(a) == a[0]
  {
    if b == [] {
      assert a + b == a;
    } else {
      assert (a + b)[..|a + b| - 1] == a + b[..|b| - 1];
      SumOfParts(a, b[..|b| - 1]);
    }
  }

  /** So many spare chunks that they and level 0 make four. */
  predicate Spare(fudge: nat, telescoping: seq<nat>) {
    var level0 := if telescoping == [] then 0 else telescoping[0];
    (fudge == 0 && level0 >= 4) || fudge + level0 == 4
  }

  /** The chunks of a beam that may be in use: two active ones, the ring buffers', and the spare ones. */
  ghost predicate Live(live: nat, assembled: nat, telescoping: seq<nat>) {
    exists fudge: nat :: Spare(fudge, telescoping) && live == 2 + assembled + Sum(telescoping) + fudge
  }

  /** Samples in one chunk of a level. */
  function Width(nt: nat, level: nat): (w: nat)
    requires nt > 0
    ensures w > 0
  {
    Pow2(level) * nt
  }

  /** A chunk of the first level is `nt` samples wide, and one of each further level twice as wide. */
  lemma WidthDoubles(nt: nat, level: nat)
    requires nt > 0
    ensures Width(nt, 0) == nt && Width(nt, level + 1) == Width(nt, level) + Width(nt, level)
  {
    assert Pow2(level + 1) == 2 * Pow2(level);
    assert Pow2(level + 1) * nt == Pow2(level) * nt + Pow2(level) * nt;
  }

  /** Every ring buffer is as small as it may be, and the total is what all beams and streams need, and the staging area. */
  ghost predicate Sized(c: Config, s: Sizes)
    requires c.nt > 0 && c.nbytesPerSlab > 0
  {
    && Least(s.assembled, c.nt, c.assembledSamples)
    && |s.telescoping| == |c.telescopingSamples|
    && (forall i :: 0 <= i < |s.telescoping| ==> Least(s.telescoping[i], Width(c.nt, i), c.telescopingSamples[i]))
    && Live(s.livePerBeam, s.assembled, s.telescoping)
    && s.temporaryPerStream >= 1 && s.temporaryPerStream >= |s.telescoping|
    && (s.temporaryPerStream == 1 || s.temporaryPerStream == |s.telescoping|)
    && s.staging as real * c.nbytesPerSlab as real <= GIBIBYTE * c.stagingGb
    && GIBIBYTE * c.stagingGb < (s.staging + 1) as real * c.nbytesPerSlab as real
    && s.total == c.nbeams * s.livePerBeam + c.nstreams * s.temporaryPerStream + s.staging
  }

  /** The whole number of slabs in the staging area: the conversion to an integer drops the fraction. */
  function Staging(gb: real, nbytes: nat): (n: nat)
    requires gb >= 0.0 && nbytes > 0
    ensures n as real * nbytes as real <= GIBIBYTE * gb < (n + 1) as real * nbytes as real
  {
    var x := GIBIBYTE * gb / nbytes as real;
    assert x >= 0.0;
    Undone(GIBIBYTE * gb, nbytes as real);
    FloorBounds(GIBIBYTE * gb, nbytes as real, x, x.Floor as real, (x.Floor + 1) as real);
    x.Floor
  }

  lemma FloorBounds(a: real, b: real, x: real, lo: real, hi: real)
    requires b > 0.0 && x * b == a && lo <= x < hi
    ensures lo * b <= a < hi * b
  {
    Ordered(lo, x, b);
    Ordered(x, hi, b);
  }

  lemma Undone(a: real, b: real)
    requires b > 0.0
    ensures a / b * b == a
  {}

  lemma Ordered(x: real, y: real, b: real)
    requires b > 0.0 && x <= y
    ensures x * b <= y * b && (x < y ==> x * b < y * b)
  {
    var d := y - x;
    assert d * b >= 0.0 && (d > 0.0 ==> d * b > 0.0);
    assert y * b == x * b + d * b;
  }

  /** What the parts have to be for the whole. */
  lemma SizedFrom(c: Config, s: Sizes)
    requires c.nt > 0 && c.nbytesPerSlab > 0
    requires Least(s.assembled, c.nt, c.assembledSamples) && |s.telescoping| == |c.telescopingSamples|
    requires forall i :: 0 <= i < |s.telescoping| ==> Least(s.telescoping[i], Width(c.nt, i), c.telescopingSamples[i])
    requires Live(s.livePerBeam, s.assembled, s.telescoping)
    requires s.temporaryPerStream == if |s.telescoping| > 1 then |s.telescoping| else 1
    requires s.staging as real * c.nbytesPerSlab as real <= GIBIBYTE * c.stagingGb
    requires GIBIBYTE * c.stagingGb < (s.staging + 1) as real * c.nbytesPerSlab as real
    requires s.total == c.nbeams * s.livePerBeam + c.nstreams * s.temporaryPerStream + s.staging
    ensures Sized(c, s)
  {
  }

  method CheckConfig(c: Config) returns (ok: bool)
    ensures ok <==> Accepted(c)
  {
    if c.nbeams <= 0 || c.nstreams <= 0 || c.assembledSamples <= 0 || |c.telescopingSamples| > 4 {
      return false;
    }
    if |c.telescopingSamples| > 0 && c.telescopingSamples[0] < c.assembledSamples {
      return false;
    }
    if c.stagingGb < 0.0 {
      return false;
    }
    var positive := AllPositive(c.telescopingSamples);
    ok := positive && c.nbeams % c.nstreams == 0;
  }

  method SizeMemory(c: Config) returns (r: Result<Sizes, Error>)
    requires c.nt > 0 && c.nbytesPerSlab > 0
    ensures r.Success? <==> Accepted(c)
    ensures r.Success? ==> Sized(c, r.value)
    ensures r.Failure? ==> r.error == Refused
  {
    var ok := CheckConfig(c);
    if !ok {
      return Failure(Refused);
    }
    var assembled := Chunks(c.assembledSamples, c.nt);
    var telescoping := SizeRings(c);
    var live := LiveChunks(assembled, telescoping);
    var temporary := if |telescoping| > 1 then |telescoping| else 1;
    var staging := Staging(c.stagingGb, c.nbytesPerSlab);
    var total := c.nbeams * live + c.nstreams * temporary + staging;
    var sizes := Sizes(assembled, telescoping, live, temporary, staging, total);
    SizedFrom(c, sizes);
    r := Success(sizes);
  }

  method AllPositive(s: seq<int>) returns (ok: bool)
    ensures ok <==> forall i :: 0 <= i < |s| ==> s[i] > 0
  {
    var i := 0;
    while i < |s|
      invariant i <= |s| && forall k :: 0 <= k < i ==> s[k] > 0
    {
      if s[i] <= 0 {
        return false;
      }
      i := i + 1;
    }
    ok := true;
  }

  /** Two active chunks, both kinds of ring buffer, and spare ones. */
  method LiveChunks(assembled: nat, telescoping: seq<nat>) returns (live: nat)
    ensures Live(live, assembled, telescoping)
  {
    live := 2;
    live := live + assembled;
    var i := 0;
    while i < |telescoping|
      invariant i <= |telescoping| && live == 2 + assembled + Sum(telescoping[..i])
    {
      assert telescoping[..i + 1][..i] == telescoping[..i];
      live := live + telescoping[i];
      i := i + 1;
    }
    assert telescoping[..i] == telescoping;
    var fudge: nat := 4;
    if |telescoping| > 0 {
      fudge := if 4 > telescoping[0] then 4 - telescoping[0] else 0;
    }
    assert Spare(fudge, telescoping);
    live := live + fudge;
  }

  method SizeRings(c: Config) returns (telescoping: seq<nat>)
    requires c.nt > 0 && Accepted(c)
    ensures |telescoping| == |c.telescopingSamples|
    ensures forall i :: 0 <= i < |telescoping| ==> Least(telescoping[i], Width(c.nt, i), c.telescopingSamples[i])
  {
    telescoping := [];
    var i := 0;
    while i < |c.telescopingSamples|
      invariant |telescoping| == i <= |c.telescopingSamples|
      invariant forall k :: 0 <= k < i ==> Least(telescoping[k], Width(c.nt, k), c.telescopingSamples[k])
    {
      var n := Chunks(c.telescopingSamples[i], Width(c.nt, i));
      telescoping := telescoping + [n];
      i := i + 1;
    }
  }

  /** The first telescoping ring buffer holds at least as many chunks as the assembled one. */
  lemma Level0Suffices(c: Config, s: Sizes)
    requires c.nt > 0 && c.nbytesPerSlab > 0 && Accepted(c) && Sized(c, s) && s.telescoping != []
    ensures s.telescoping[0] >= s.assembled
  {
    assert Width(c.nt, 0) == c.nt;
    LeastGrows(s.assembled, s.telescoping[0], c.nt, c.assembledSamples, c.telescopingSamples[0]);
  }

  // ---- the pools

  /** One CPU below five beams; two for the production instances, which must have so many streams. */
  method ChooseCpus(nbeams: nat, nstreams: nat, cores: nat) returns (r: Result<nat, Error>)
    requires nstreams > 0
    ensures r.Success? ==> r.value > 0 && nstreams % r.value == 0
    ensures r.Success? <==>
      nbeams <= 4 || (cores == 20 && ((nbeams == 16 && nstreams == 4) || (nbeams == 8 && nstreams == 2)))
    ensures r.Success? ==> (r.value == 1 <==> nbeams <= 4)
    ensures r.Failure? ==> r.error == if cores == 20 && (nbeams == 16 || nbeams == 8) then Refused else Unsupported
  {
    if nbeams <= 4 {
      r := Success(1);
    } else if nbeams == 16 && cores == 20 {
      r := if nstreams != 4 then Failure(Refused) else Success(2);
    } else if nbeams == 8 && cores == 20 {
      r := if nstreams != 2 then Failure(Refused) else Success(2);
    } else {
      r := Failure(Unsupported);
    }
  }

  method MakePools(total: nat, ncpus: nat) returns (pools: seq<nat>)
    requires ncpus > 0
    ensures |pools| == ncpus && forall i :: 0 <= i < ncpus ==> pools[i] == total / ncpus
  {
    var perCpu := total / ncpus;
    pools := [];
    var icpu := 0;
    while icpu < ncpus
      invariant |pools| == icpu <= ncpus && forall i :: 0 <= i < icpu ==> pools[i] == perCpu
    {
      pools := pools + [perCpu];
      icpu := icpu + 1;
    }
  }

  /** The pool a stream is given. */
  function PoolOf(istream: nat, streamsPerCpu: nat): nat
    requires streamsPerCpu > 0
  {
    istream / streamsPerCpu
  }

  /** The CPUs' pools are given to consecutive blocks of streams. */
  lemma PoolIsBlock(istream: nat, streamsPerCpu: nat, icpu: nat)
    requires streamsPerCpu > 0
    ensures PoolOf(istream, streamsPerCpu) == icpu <==>
      icpu * streamsPerCpu <= istream < icpu * streamsPerCpu + streamsPerCpu
  {
    Between(istream, icpu, streamsPerCpu);
    Distribute(icpu + 1, icpu, streamsPerCpu);
  }

  /** What the first `n` streams need from the pool of CPU `icpu`, each so many chunks. */
  function Demand(n: nat, streamsPerCpu: nat, icpu: nat, each: nat): nat
    requires streamsPerCpu > 0
  {
    if n == 0 then 0
    else Demand(n - 1, streamsPerCpu, icpu, each) + if PoolOf(n - 1, streamsPerCpu) == icpu then each else 0
  }

  function Clamp(x: int, hi: nat): nat {
    if x < 0 then 0 else if x > hi then hi else x
  }

  lemma {:induction false} DemandIs(n: nat, streamsPerCpu: nat, icpu: nat, each: nat)
    requires streamsPerCpu > 0
    ensures Demand(n, streamsPerCpu, icpu, each) == Clamp(n - icpu * streamsPerCpu, streamsPerCpu) * each
  {
    if n > 0 {
      DemandIs(n - 1, streamsPerCpu, icpu, each);
      Between(n - 1, icpu, streamsPerCpu);
      var before, now := Clamp(n - 1 - icpu * streamsPerCpu, streamsPerCpu), Clamp(n - icpu * streamsPerCpu, streamsPerCpu);
      assert now == if PoolOf(n - 1, streamsPerCpu) == icpu then before + 1 else before;
      Distribute(now, before, each);
    }
  }

  /** The chunks one stream may have in use: those of its beams, and its temporaries. */
  function StreamDemand(c: Config, s: Sizes): nat
    requires Accepted(c)
  {
    c.nbeams / c.nstreams * s.livePerBeam + s.temporaryPerStream
  }

  /** Every CPU's pool holds the chunks of the streams assigned to it, and every stream is assigned to one. */
  lemma PoolsSuffice(c: Config, s: Sizes, ncpus: nat, icpu: nat)
    requires c.nt > 0 && c.nbytesPerSlab > 0 && Accepted(c) && Sized(c, s)
    requires ncpus > 0 && c.nstreams % ncpus == 0 && icpu < ncpus
    ensures c.nstreams / ncpus > 0
    ensures s.total / ncpus >= Demand(c.nstreams, c.nstreams / ncpus, icpu, StreamDemand(c, s))
    ensures Demand(c.nstreams, c.nstreams / ncpus, icpu, StreamDemand(c, s)) == c.nstreams / ncpus * StreamDemand(c, s)
    ensures forall istream :: 0 <= istream < c.nstreams ==> PoolOf(istream, c.nstreams / ncpus) < ncpus
  {
    Split(c.nstreams, ncpus);
    var per, each := c.nstreams / ncpus, StreamDemand(c, s);
    assert c.nstreams == ncpus * per;
    DemandIs(c.nstreams, per, icpu, each);
    WholeBlock(ncpus, per, icpu);
    ShareSuffices(c, s, ncpus);
    forall istream | 0 <= istream < c.nstreams
      ensures PoolOf(istream, per) < ncpus
    {
      Below(istream, ncpus, per);
    }
  }

  lemma ShareSuffices(c: Config, s: Sizes, ncpus: nat)
    requires c.nt > 0 && c.nbytesPerSlab > 0 && Accepted(c) && Sized(c, s)
    requires ncpus > 0 && c.nstreams % ncpus == 0
    ensures s.total / ncpus >= c.nstreams / ncpus * StreamDemand(c, s)
  {
    var per, each := c.nstreams / ncpus, StreamDemand(c, s);
    Split(c.nstreams, ncpus);
    assert c.nstreams == ncpus * per;
    TotalIs(c, s);
    Associative(ncpus, per, each);
    Shares(per * each, s.staging, ncpus);
  }

  lemma WholeBlock(ncpus: nat, per: nat, icpu: nat)
    requires icpu < ncpus
    ensures Clamp(ncpus * per - icpu * per, per) == per
  {
    Distribute(ncpus, icpu, per);
    if per > 0 { AtLeast(ncpus - icpu, per); }
  }

  lemma Associative(a: nat, b: nat, c: nat)
    ensures a * b * c == b * c * a
  {}

  lemma Shares(share: nat, extra: nat, n: nat)
    requires n > 0
    ensures (share * n + extra) / n >= share
  {
    Split(extra, n);
    var q := extra / n;
    assert share * n + extra == (share + q) * n + extra % n;
    Quotient(share + q, extra % n, n);
  }

  lemma Gather(n: nat, b: nat, live: nat, temporary: nat)
    ensures b * n * live + n * temporary == n * (b * live + temporary)
  {
    assert b * n * live == n * (b * live);
  }

  lemma TotalIs(c: Config, s: Sizes)
    requires c.nt > 0 && c.nbytesPerSlab > 0 && Accepted(c) && Sized(c, s)
    ensures s.total == c.nstreams * StreamDemand(c, s) + s.staging
  {
    Split(c.nbeams, c.nstreams);
    Gather(c.nstreams, c.nbeams / c.nstreams, s.livePerBeam, s.temporaryPerStream);
  }
}
