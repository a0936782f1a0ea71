/**
 * The application phase of the driver (examples/rtt-variations/large-scale.cc):
 * half of the servers send to the other half. Source i runs on server i and
 * sends to a sink on server i + N / 2, port 8080, where N is the number of
 * servers; the sink address is the server-side address of that server's link.
 */
module Pairing {
  import opened Net
  import opened Topology
  import opened RateSource

  /** The port every sink listens on. */
  const SinkPort: nat := 8080
  /** Bytes per packet of every source. */
  const AppPacketSize: nat := 1440
  /** When every sink stops, in seconds (END_TIME2). */
  const SinkStopTime: real := 5.0

  /** A PacketSink installed on a server, listening on a port from start to stop. */
  datatype SinkApp = SinkApp(server: nat, port: nat, start: real, stop: real)

  /** Where a source was installed, and when it starts and stops. */
  datatype Placement = Placement(server: nat, start: real, stop: real)

  /** The number of source/sink pairs for `serverCount` servers (C++ integer division). */
  function PairCount(serverCount: nat): nat
  {
    serverCount / 2
  }

  /** The server that receives from source i. */
  function Receiver(serverCount: nat, i: nat): nat
  {
    i + PairCount(serverCount)
  }

  /**
   * The pairing is a bijection from the senders [0, N / 2) onto receivers in
   * [N / 2, N): every receiver is a server, no server both sends and
   * receives, and no two sources share a receiver.
   */
  lemma PairingDisjoint(serverCount: nat)
    ensures 2 * PairCount(serverCount) <= serverCount
    ensures forall i :: 0 <= i < PairCount(serverCount) ==>
      PairCount(serverCount) <= Receiver(serverCount, i) < serverCount
    ensures forall i, j :: 0 <= i < PairCount(serverCount) && 0 <= j < PairCount(serverCount) ==>
      i != Receiver(serverCount, j) && (Receiver(serverCount, i) == Receiver(serverCount, j) ==> i == j)
  {
  }

  /**
   * A source as the pairing loop leaves it: set up to send to `peer` with
   * the shared lists, tagged `id`, not yet started and with nothing queued.
   */
  ghost predicate Configured(app: MySource, peer: SocketAddress, id: nat, rates: seq<nat>,
                             changeTime: seq<real>, resultDir: string)
    reads app, app.sim
  {
    && app.Valid() && !app.running && app.packetsSent == 0 && app.sim.pending == []
    && app.hasSocket && app.peer == peer
    && app.packetSize == AppPacketSize && app.sourceId == id
    && |rates| >= 1 && app.dataRate == rates && app.currentRate == rates[0] && app.changeTime == changeTime
    && app.resultDir == resultDir
  }

  /** One source of the pairing loop: a fresh MySource, set up for sink address `peer`. */
  method NewSource(peer: SocketAddress, rates: seq<nat>, id: nat, resultDir: string, changeTime: seq<real>)
    returns (app: MySource)
    requires |rates| >= 1
    ensures fresh(app) && fresh(app.sim)
    ensures Configured(app, peer, id, rates, changeTime, resultDir)
  {
    app := new MySource();
    app.Setup(peer, AppPacketSize, rates, id, resultDir, changeTime);
  }

  /**
   * The loop over the pairs: for pair i a sink on the receiver, and a fresh
   * MySource on server i set up with the receiver's address, the shared rate
   * and change-time lists, and source id i.
   */
  method PairApplications(fabric: Fabric, rates: seq<nat>, changeTime: seq<real>, resultDir: string,
                          startTime: real, endTime: real)
    returns (sources: seq<MySource>, sinks: seq<SinkApp>, placements: seq<Placement>)
    requires |fabric.serverInterfaces| == fabric.ServerCount()
    requires |rates| >= 1
    ensures var n := fabric.ServerCount();
      |sources| == |sinks| == |placements| == PairCount(n)
    ensures var n := fabric.ServerCount();
      forall i :: 0 <= i < |sinks| ==>
        && sinks[i] == SinkApp(Receiver(n, i), SinkPort, startTime, SinkStopTime)
        && placements[i] == Placement(i, startTime, endTime)
    ensures forall i :: 0 <= i < |sources| ==> fresh(sources[i])
    ensures forall i, j :: 0 <= i < j < |sources| ==> sources[i] != sources[j]
    ensures var n := fabric.ServerCount();
      forall i :: 0 <= i < |sources| ==>
        Configured(sources[i], InetSocketAddress(fabric.serverInterfaces[Receiver(n, i)], SinkPort), i,
                   rates, changeTime, resultDir)
  {
    var n := fabric.ServerCount();
    var interfaces := fabric.serverInterfaces;
    assert 2 * PairCount(n) <= n;
    sources, sinks, placements := [], [], [];
    var i := 0;
    while i < PairCount(n)
      invariant 0 <= i <= PairCount(n)
      invariant |sources| == |sinks| == |placements| == i
      invariant forall k :: 0 <= k < i ==>
        && sinks[k] == SinkApp(Receiver(n, k), SinkPort, startTime, SinkStopTime)
        && placements[k] == Placement(k, startTime, endTime)
      invariant forall k :: 0 <= k < i ==> fresh(sources[k])
      invariant forall k, m :: 0 <= k < m < i ==> sources[k] != sources[m]
      invariant forall k :: 0 <= k < i ==>
        Configured(sources[k], InetSocketAddress(interfaces[Receiver(n, k)], SinkPort), k,
                   rates, changeTime, resultDir)
    {
      var receiver := i + PairCount(n);
      var sink := SinkApp(receiver, SinkPort, startTime, SinkStopTime);
      var sinkAddress := InetSocketAddress(interfaces[receiver], SinkPort);
      var app := NewSource(sinkAddress, rates, i, resultDir, changeTime);
      sources := sources + [app];
      sinks := sinks + [sink];
      placements := placements + [Placement(i, startTime, endTime)];
      i := i + 1;
    }
  }
}

/**
 * The driver's main: the AQM name, the result directory, the fabric, the
 * parsed traffic configuration and the applications, in that order. An
 * unknown AQM name ends the program before anything is built.
 */
module Driver {
  import opened Optional
  import opened Strings
  import opened AppConfig
  import opened Topology
  import opened RateSource
  import opened Net
  import opened Pairing

  /** Everything main sets up before the simulation runs. */
  datatype Deployment = Deployment(aqm: Aqm, fabric: Fabric, sources: seq<MySource>,
                                   sinks: seq<SinkApp>, placements: seq<Placement>)

  /** The data-rate list every source uses. */
  const AppBw: string := "10Mbps"
  /** The change-time list every source uses: start at 0 s, stop 10 s later. */
  const AppSecondsChange: string := "0,10"

  /** The data-rate list holds one item, so every source keeps one rate. */
  lemma AppBwItems()
    ensures Split(AppBw, ',') == ["10Mbps"]
  {
    SplitJoin(["10Mbps"], ',');
  }

  /** The change-time list holds two items: a baseline and one stop instant. */
  lemma AppSecondsChangeItems()
    ensures Split(AppSecondsChange, ',') == ["0", "10"]
  {
    SplitJoin(["0", "10"], ',');
    assert Join(["0", "10"], ',') == AppSecondsChange;
  }

  /**
   * With std::stod reading "0" and "10" as numbers, the change-time list
   * parses: the baseline is 0 s and the one value pushed is 10 s.
   */
  lemma AppSecondsChangeTimes(stod: imap<string, real>)
    requires "0" in stod && stod["0"] == 0.0 && "10" in stod && stod["10"] == 10.0
    ensures Find(AppSecondsChange, ',', 0).Some?
    ensures ChangeTimes(AppSecondsChange, stod) == Some((0.0, [10.0]))
  {
    var ps := Split(AppSecondsChange, ',');
    AppSecondsChangeItems();
    ChangeTimesMeaning(AppSecondsChange, stod);
    assert Stod(stod, ps[0]) == Some(0.0) && Stod(stod, ps[1]) == Some(10.0);
    assert Numbers(ps, stod) == [0.0, 10.0];
  }

  /**
   * The pairing of `main` in deployment `d`, for n servers: pair i has a sink
   * on server i + n / 2 listening on port 8080 until 5 s, and a source
   * placed on server i, tagged i, that sends to port 8080 at the address of
   * the server end of server i + n / 2's own link.
   */
  ghost predicate Paired(d: Deployment, n: nat, startTime: real, endTime: real)
    reads d.fabric, set i | 0 <= i < |d.sources| :: d.sources[i]
  {
    && |d.sources| == |d.sinks| == |d.placements| == PairCount(n)
    && forall i :: 0 <= i < PairCount(n) ==>
      && Receiver(n, i) < |d.fabric.links|
      && d.fabric.links[Receiver(n, i)].end0.node == Node(Server, Receiver(n, i))
      && d.sinks[i] == SinkApp(Receiver(n, i), SinkPort, startTime, SinkStopTime)
      && d.placements[i] == Placement(i, startTime, endTime)
      && d.sources[i].sourceId == i
      && d.sources[i].peer == InetSocketAddress(d.fabric.links[Receiver(n, i)].end0.addr, SinkPort)
  }

  /** Every receiver of the pairing is a server, and that server is the first end of its own link. */
  lemma ReceiversAttached(spineCount: nat, leafCount: nat, serversPerLeaf: nat, linkCount: nat, aqm: Aqm)
    ensures var f := FabricLinks(spineCount, leafCount, serversPerLeaf, linkCount, aqm);
      var n := leafCount * serversPerLeaf;
      forall i :: 0 <= i < PairCount(n) ==>
        Receiver(n, i) < n && Receiver(n, i) < |f| && f[Receiver(n, i)].end0.node == Node(Server, Receiver(n, i))
  {
    var n := leafCount * serversPerLeaf;
    FabricNodes(spineCount, leafCount, serversPerLeaf, linkCount, aqm);
    assert 2 * PairCount(n) <= n;
    var f := FabricLinks(spineCount, leafCount, serversPerLeaf, linkCount, aqm);
    forall i | 0 <= i < PairCount(n)
      ensures Receiver(n, i) < n && Receiver(n, i) < |f| && f[Receiver(n, i)].end0.node == Node(Server, Receiver(n, i))
    {
    }
  }

  /**
   * main from the AQM selection to the end of the application loop. The
   * command-line values are parameters; std::stod and ns-3's DataRate
   * parser are the conversions `stod` and `bitRate`, where `stod` reads the
   * two literals of the change-time list as a decimal parser does.
   */
  method Configure(aqmName: string, spineCount: nat, leafCount: nat, serversPerLeaf: nat, linkCount: nat,
                   startTime: real, endTime: real, globals: Globals,
                   stod: imap<string, real>, bitRate: string -> nat)
    returns (r: Option<Deployment>)
    requires "0" in stod && stod["0"] == 0.0 && "10" in stod && stod["10"] == 10.0
    modifies globals
    ensures r.Some? <==> AqmFromName(aqmName).Some?
    ensures r.None? ==>
      globals.resultDir == old(globals.resultDir) && globals.appSecondsStart0 == old(globals.appSecondsStart0)
    ensures r.Some? ==>
      && r.value.aqm == AqmFromName(aqmName).value
      && globals.resultDir == old(globals.resultDir) + "/initial_" + aqmName
      && globals.appSecondsStart0 == 0.0
      && r.value.fabric.links == FabricLinks(spineCount, leafCount, serversPerLeaf, linkCount, r.value.aqm)
      && |r.value.sources| == PairCount(leafCount * serversPerLeaf)
    ensures r.Some? ==> Paired(r.value, leafCount * serversPerLeaf, startTime, endTime)
    ensures r.Some? ==> forall i :: 0 <= i < |r.value.sources| ==>
      var app := r.value.sources[i];
      && app.Valid() && app.hasSocket && !app.running
      && app.dataRate == [bitRate("10Mbps")] && app.changeTime == [10.0]
      && 1 <= |app.changeTime| <= |app.dataRate|
      && app.resultDir == globals.resultDir
  {
    var aqm := AqmFromName(aqmName);
    if aqm.None? {
      return None;
    }
    globals.resultDir := globals.resultDir + "/initial_" + aqmName;
    var fabric := Build(spineCount, leafCount, serversPerLeaf, linkCount, aqm.value);
    ReceiversAttached(spineCount, leafCount, serversPerLeaf, linkCount, aqm.value);

    var appBw := new Vector<string>();
    AppBwItems();
    ParseAppBw(AppBw, appBw);
    var rateNames := appBw.items;
    var rates := seq(|rateNames|, k requires 0 <= k < |rateNames| => bitRate(rateNames[k]));

    var changes := new Vector<real>();
    AppSecondsChangeTimes(stod);
    var ok := ParseAppSecondsChange(AppSecondsChange, changes, globals, stod);

    var sources, sinks, placements :=
      PairApplications(fabric, rates, changes.items, globals.resultDir, startTime, endTime);
    r := Some(Deployment(aqm.value, fabric, sources, sinks, placements));
  }
}
