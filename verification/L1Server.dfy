/** The server object's share of startup: the vectors that threads register in, and the servers built from them. */
module L1Server {
  import opened Startup
  import opened Wrappers

  /** A latency monitor as an RPC server is given it. */
  type Monitor = (int, string, Option<Object>)

  datatype RpcServer = RpcServer(stream: nat, dedispersers: Slots, latency: seq<Monitor>)

  /** Before and after RFI removal, for each beam of the stream in turn. */
  function Latency(ids: seq<int>, pre: Slots, post: Slots): (r: seq<Monitor>)
    requires |ids| == |pre| == |post|
    ensures |r| == 2 * |ids|
  {
    seq(2 * |ids|, i requires 0 <= i < 2 * |ids| =>
      if i % 2 == 0 then (ids[i / 2], "before_rfi", pre[i / 2]) else (ids[i / 2], "after_rfi", post[i / 2]))
  }

  /** What stream `j`'s server gets when the vectors are those of `s`. */
  function Built(c: Config, s: State, j: nat): RpcServer
    requires Sized(c, s) && j < c.nstreams
  {
    BeamsOfStream(j, c.nstreams, c.perStream);
    var server := ServerFor(c, s, j);
    RpcServer(j, server.dedispersers,
              Latency(c.beamIds[j * c.perStream..(j + 1) * c.perStream], server.pre, server.post))
  }

  class Server {
    const config: Config
    var dedispersers: Slots
    var latencyPre: Slots
    var latencyPost: Slots

    /** The vectors are those of `s`. */
    ghost predicate Shows(s: State)
      reads this
    {
      Sized(config, s) && dedispersers == s.dedispersers && latencyPre == s.pre && latencyPost == s.post
    }

    constructor (config: Config)
      requires ConfigOk(config)
      ensures this.config == config && Shows(Init(config))
    {
      this.config := config;
      dedispersers, latencyPre, latencyPost := Nothing(Beams(config)), Nothing(Beams(config)), Nothing(Beams(config));
    }

    /** From taking the lock to giving it back: what thread `ibeam` does in five steps of the machine. */
    method SetBonsai(ibeam: nat, ghost s: State) returns (ghost t: State)
      requires Shows(s) && ibeam < Beams(config) && s.threads[ibeam] == Waiting
      modifies this
      ensures dedispersers == old(dedispersers)[ibeam := Some(Dedisperser(ibeam))]
      ensures latencyPre == old(latencyPre)[ibeam := Some(BeforeRfi(ibeam))]
      ensures latencyPost == old(latencyPost)[ibeam := Some(AfterRfi(ibeam))]
      ensures t == Registering(config, s, ibeam, 5) && Shows(t) && t.threads[ibeam] == Registered && t.lock == None
    {
      dedispersers := dedispersers[ibeam := Some(Dedisperser(ibeam))];
      latencyPre := latencyPre[ibeam := Some(BeforeRfi(ibeam))];
      latencyPost := latencyPost[ibeam := Some(AfterRfi(ibeam))];
      t := Registering(config, s, ibeam, 5);
      RegisteringDone(config, s, ibeam);
    }

    /** One look at the vector under the lock. */
    method AllRegistered() returns (all: bool)
      requires ConfigOk(config) && |dedispersers| == Beams(config)
      ensures all <==> forall i :: 0 <= i < Beams(config) ==> dedispersers[i].Some?
    {
      var gotn, i := 0, 0;
      while i < |config.beamIds|
        invariant gotn <= i <= Beams(config)
        invariant gotn == i <==> forall k :: 0 <= k < i ==> dedispersers[k].Some?
      {
        if dedispersers[i].Some? {
          gotn := gotn + 1;
        }
        i := i + 1;
      }
      all := gotn == |config.beamIds|;
    }

    /** After the polling loop, without the lock. */
    method BuildServers(ghost s: State) returns (servers: seq<RpcServer>)
      requires Shows(s)
      ensures |servers| == config.nstreams
      ensures forall j :: 0 <= j < config.nstreams ==> servers[j] == Built(config, s, j)
    {
      servers := [];
      var istream := 0;
      while istream < config.nstreams
        invariant |servers| == istream <= config.nstreams
        invariant forall j :: 0 <= j < istream ==> servers[j] == Built(config, s, j)
      {
        var server := BuildServer(istream, s);
        servers := servers + [server];
        istream := istream + 1;
      }
    }

    method BuildServer(istream: nat, ghost s: State) returns (server: RpcServer)
      requires Shows(s) && istream < config.nstreams
      ensures server == Built(config, s, istream)
    {
      BeamsOfStream(istream, config.nstreams, config.perStream);
      var lo := istream * config.perStream;
      ghost var ids := config.beamIds[lo..lo + config.perStream];
      var bonsais: Slots := [];
      var latency: seq<Monitor> := [];
      var ib := 0;
      while ib < config.perStream
        invariant ib <= config.perStream
        invariant bonsais == dedispersers[lo..lo + ib]
        invariant latency == Latency(ids[..ib], latencyPre[lo..lo + ib], latencyPost[lo..lo + ib])
      {
        bonsais := bonsais + [dedispersers[lo + ib]];
        latency := latency + [(config.beamIds[lo + ib], "before_rfi", latencyPre[lo + ib])];
        latency := latency + [(config.beamIds[lo + ib], "after_rfi", latencyPost[lo + ib])];
        LatencyGrows(ids[..ib], latencyPre[lo..lo + ib], latencyPost[lo..lo + ib],
                     config.beamIds[lo + ib], latencyPre[lo + ib], latencyPost[lo + ib]);
        assert ids[..ib] + [config.beamIds[lo + ib]] == ids[..ib + 1];
        assert latencyPre[lo..lo + ib] + [latencyPre[lo + ib]] == latencyPre[lo..lo + ib + 1];
        assert latencyPost[lo..lo + ib] + [latencyPost[lo + ib]] == latencyPost[lo..lo + ib + 1];
        ib := ib + 1;
      }
      assert ids[..ib] == ids;
      server := RpcServer(istream, bonsais, latency);
    }
  }

  lemma LatencyGrows(ids: seq<int>, pre: Slots, post: Slots, id: int, a: Option<Object>, b: Option<Object>)
    requires |ids| == |pre| == |post|
    ensures Latency(ids + [id], pre + [a], post + [b])
         == Latency(ids, pre, post) + [(id, "before_rfi", a)] + [(id, "after_rfi", b)]
  {}

  /** The state after `n` steps of thread `i` from the moment it waits for the lock. */
  ghost function Registering(c: Config, s: State, i: nat, n: nat): (t: State)
    requires Sized(c, s) && i < Beams(c)
    ensures Sized(c, t)
  {
    if n == 0 then s else ThreadNext(c, Registering(c, s, i, n - 1), i)
  }

  lemma RegisteringDone(c: Config, s: State, i: nat)
    requires Sized(c, s) && i < Beams(c) && s.threads[i] == Waiting
    ensures var t := Registering(c, s, i, 5);
      && t.dedispersers == s.dedispersers[i := Some(Dedisperser(i))] && t.pre == s.pre[i := Some(BeforeRfi(i))]
      && t.post == s.post[i := Some(AfterRfi(i))]
      && t.threads == s.threads[i := Registered] && t.lock == None
      && t.main == s.main && t.maps == s.maps && t.servers == s.servers && t.dead == s.dead
  {
    var a := Registering(c, s, i, 1);
    assert Registering(c, s, i, 0) == s;
    assert a == s.(lock := Some(Worker(i)), threads := s.threads[i := Holding(0)]);
    var b := Registering(c, s, i, 2);
    assert b.threads[i] == Holding(1);
    var d := Registering(c, s, i, 3);
    assert d.threads[i] == Holding(2);
    var e := Registering(c, s, i, 4);
    assert e.threads[i] == Holding(3);
  }

  /** Built after the polling loop, a server has both monitors of each of its beams, under that beam's identifier. */
  lemma BuiltComplete(c: Config, s: State, j: nat, ib: nat)
    requires Inv(c, s) && s.main.Building? && j < c.nstreams && ib < c.perStream
    ensures 0 <= j * c.perStream + ib < Beams(c)
    ensures var beam, server := j * c.perStream + ib, Built(c, s, j);
      && server.stream == j
      && |server.dedispersers| == c.perStream && |server.latency| == 2 * c.perStream
      && server.dedispersers[ib] == Some(Dedisperser(beam))
      && server.latency[2 * ib] == (c.beamIds[beam], "before_rfi", Some(BeforeRfi(beam)))
      && server.latency[2 * ib + 1] == (c.beamIds[beam], "after_rfi", Some(AfterRfi(beam)))
  {
    BeamsOfStream(j, c.nstreams, c.perStream);
    ServerForComplete(c, s, j);
  }
}
