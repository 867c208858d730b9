/** Receive accounting and the printed summary of scratch/buildings-test.cc:
    `ReceivePacket` drains the sink socket, counting and logging each packet,
    and `PrintAppOutput` turns the counters into packets sent, delivery
    ratio (PDR), loss ratio (PLR) and throughput for the selected
    application mode.  Single-precision division is modelled by exact
    rationals. */
module Metrics {
  import opened Base

  /** The sender address carried by a packet's `SocketAddressTag`. */
  datatype SocketAddress = SocketAddress(ipv4: nat, port: nat)

  /** A packet waiting in the sink socket. */
  datatype Packet = Packet(uid: nat, size: nat, sender: Option<SocketAddress>)

  /** One entry `PrintReceivedPacket` appends to the receive log. */
  datatype LogEntry =
    | Received(now: real, node: nat, uid: nat, size: nat, from: SocketAddress)
    | ReceivedUntagged(now: real, node: nat)

  /** `PrintReceivedPacket`: the full entry when the sender tag is present,
      the degraded one-line message otherwise. */
  function PrintReceivedPacket(now: real, node: nat, p: Packet): (e: LogEntry)
    ensures e.now == now && e.node == node
    ensures e.Received? <==> p.sender.Some?
    ensures e.Received? ==> e.uid == p.uid && e.size == p.size && e.from == p.sender.value
  {
    match p.sender
    case Some(addr) => Received(now, node, p.uid, p.size, addr)
    case None => ReceivedUntagged(now, node)
  }

  /** `ReceivePacket`: drains every packet queued at the socket at time
      `now` on node `node`, adding one to `packetsReceived` (a `uint32_t`)
      per packet and logging each packet in arrival order. */
  method ReceivePacket(packetsReceived: Uint32, queue: seq<Packet>, now: real, node: nat)
    returns (count: Uint32, log: seq<LogEntry>)
    ensures count == (packetsReceived + |queue|) % U32
    ensures packetsReceived + |queue| < U32 ==> count == packetsReceived + |queue|
    ensures |log| == |queue|
    ensures forall i :: 0 <= i < |queue| ==> log[i] == PrintReceivedPacket(now, node, queue[i])
  {
    count := packetsReceived;
    log := [];
    var i := 0;
    while i < |queue|
      invariant 0 <= i <= |queue|
      invariant count == (packetsReceived + i) % U32
      invariant |log| == i
      invariant forall k :: 0 <= k < i ==> log[k] == PrintReceivedPacket(now, node, queue[k])
    {
      count := AddU32(count, 1);
      log := log + [PrintReceivedPacket(now, node, queue[i])];
      i := i + 1;
    }
  }

  /** Delivery and loss ratio of one summary line, kept as fractions; the
      program prints them multiplied by 100 as percentages. */
  datatype Summary = Summary(sent: nat, received: nat, pdr: real, plr: real)

  /** One per-server block of application mode 3. */
  datatype ServerSummary = ServerSummary(sent: nat, through: nat, throughput: real, pdr: real, plr: real)

  /** What `PrintAppOutput` prints. */
  datatype AppOutput =
    | Nothing
    | Totals(summary: Summary)
    | PerServer(servers: seq<ServerSummary>)

  /** The counters and parameters `PrintAppOutput` reads.  `received` holds
      the count each server application reports; `endTime` is in seconds. */
  datatype Run = Run(application: nat, numOfPacks: Uint32, stations: Uint32,
                     packetsReceived: Uint32, received: seq<nat>, endTime: real)

  /** Packets sent in mode 1, `numOfPacks * STANodesNum` in `uint32_t`. */
  function BroadcastSent(run: Run): Uint32
  {
    MulU32(run.numOfPacks, run.stations)
  }

  /** PDR and PLR for `received` out of `sent` packets. */
  function Ratio(sent: nat, received: nat): (s: Summary)
    requires sent > 0
    ensures s.sent == sent && s.received == received
    ensures s.pdr * (sent as real) == received as real
    ensures s.plr == 1.0 - s.pdr
  {
    var pdr := received as real / sent as real;
    Summary(sent, received, pdr, 1.0 - pdr)
  }

  /** `totalPacketsThrough*1500*8/(endTime*1000000.0)`: the products are
      evaluated in `uint32_t` before the division, so the printed value is
      the exact bit count wrapped once modulo 2^32, and below 357914 packets
      it is the exact `received * 1500 * 8 / (endTime * 10^6)` Mbit/s. */
  function Throughput(through: Uint32, endTime: real): (t: real)
    requires endTime > 0.0
    ensures t >= 0.0
    ensures t == ((through * 12000) % U32) as real / (endTime * 1000000.0)
    ensures through < 357914 ==> t == (through * 12000) as real / (endTime * 1000000.0)
  {
    MulMod(through * 1500, 8);
    assert (through * 1500) * 8 == through * 12000;
    var bits := MulU32(MulU32(through, 1500), 8);
    bits as real / (endTime * 1000000.0)
  }

  /** One server block of mode 3; the server's count is stored in a
      `uint32_t`. */
  function ServerReport(numOfPacks: Uint32, count: nat, endTime: real): (r: ServerSummary)
    requires numOfPacks > 0 && endTime > 0.0
    ensures r.sent == numOfPacks && r.through == count % U32
    ensures r.pdr * (numOfPacks as real) == r.through as real
    ensures r.plr == 1.0 - r.pdr
    ensures r.throughput == ((r.through * 12000) % U32) as real / (endTime * 1000000.0)
    ensures r.through < 357914 ==> r.throughput == (r.through * 12000) as real / (endTime * 1000000.0)
  {
    var through := count % U32;
    var s := Ratio(numOfPacks, through);
    ServerSummary(numOfPacks, through, Throughput(through, endTime), s.pdr, s.plr)
  }

  /** The loop over the server applications of mode 3: one block per
      server, in order. */
  function ServerBlocks(numOfPacks: Uint32, received: seq<nat>, endTime: real): (bs: seq<ServerSummary>)
    requires |received| > 0 ==> numOfPacks > 0 && endTime > 0.0
    ensures |bs| == |received|
    ensures forall i :: 0 <= i < |received| ==>
      bs[i].sent == numOfPacks && bs[i].through == received[i] % U32
      && bs[i].pdr * (numOfPacks as real) == bs[i].through as real
      && bs[i].plr == 1.0 - bs[i].pdr
      && bs[i].throughput == ((bs[i].through * 12000) % U32) as real / (endTime * 1000000.0)
  {
    seq(|received|, i requires 0 <= i < |received| && numOfPacks > 0 && endTime > 0.0 =>
      ServerReport(numOfPacks, received[i], endTime))
  }

  /** The divisions `PrintAppOutput` performs in the mode it runs are
      defined: the code itself does not guard them. */
  ghost predicate DenominatorsPositive(run: Run)
  {
    && (run.application == 1 ==> BroadcastSent(run) > 0)
    && (run.application == 2 ==> run.numOfPacks > 0)
    && (run.application == 3 && |run.received| > 0 ==> run.numOfPacks > 0 && run.endTime > 0.0)
  }

  /** `PrintAppOutput`. */
  function PrintAppOutput(run: Run): (out: AppOutput)
    requires DenominatorsPositive(run)
    ensures run.application == 1 ==>
      out.Totals? && out.summary.sent == BroadcastSent(run)
      && out.summary.received == run.packetsReceived
      && out.summary.pdr * (BroadcastSent(run) as real) == run.packetsReceived as real
      && out.summary.plr == 1.0 - out.summary.pdr
    ensures run.application == 2 ==>
      out.Totals? && out.summary.sent == run.numOfPacks
      && out.summary.received == run.packetsReceived
      && out.summary.pdr * (run.numOfPacks as real) == run.packetsReceived as real
      && out.summary.plr == 1.0 - out.summary.pdr
    ensures run.application == 3 ==>
      out.PerServer? && |out.servers| == |run.received|
      && forall i :: 0 <= i < |run.received| ==>
           out.servers[i].sent == run.numOfPacks && out.servers[i].through == run.received[i] % U32
           && out.servers[i].pdr * (run.numOfPacks as real) == out.servers[i].through as real
           && out.servers[i].plr == 1.0 - out.servers[i].pdr
           && out.servers[i].throughput
              == ((out.servers[i].through * 12000) % U32) as real / (run.endTime * 1000000.0)
    ensures !(1 <= run.application <= 3) ==> out == Nothing
  {
    if run.application == 1 then
      Totals(Ratio(BroadcastSent(run), run.packetsReceived))
    else if run.application == 2 then
      Totals(Ratio(run.numOfPacks, run.packetsReceived))
    else if run.application == 3 then
      PerServer(ServerBlocks(run.numOfPacks, run.received, run.endTime))
    else
      Nothing
  }

  lemma RatioMeaning(sent: nat, received: nat, pdr: real)
    requires sent > 0 && pdr * (sent as real) == received as real
    ensures pdr >= 0.0
    ensures pdr == 1.0 <==> received == sent
    ensures pdr <= 1.0 <==> received <= sent
  {
    var d := sent as real;
    if pdr > 1.0 {
      assert pdr * d > d;
    }
    if pdr < 1.0 {
      assert pdr * d < d;
    }
  }

  /** In every mode that prints, PLR is `1 - PDR`, PDR is `received / sent`,
      and PDR is 1 exactly when every sent packet was received. */
  lemma RatiosConsistent(run: Run)
    requires DenominatorsPositive(run)
    ensures PrintAppOutput(run).Totals? ==>
      var s := PrintAppOutput(run).summary;
      s.pdr + s.plr == 1.0 && s.pdr >= 0.0
      && (s.pdr == 1.0 <==> s.received == s.sent)
      && (s.pdr <= 1.0 <==> s.received <= s.sent)
    ensures PrintAppOutput(run).PerServer? ==>
      forall i :: 0 <= i < |PrintAppOutput(run).servers| ==>
        var s := PrintAppOutput(run).servers[i];
        s.pdr + s.plr == 1.0 && s.pdr >= 0.0
        && (s.pdr == 1.0 <==> s.through == s.sent)
        && (s.pdr <= 1.0 <==> s.through <= s.sent)
  {
    var out := PrintAppOutput(run);
    if out.Totals? {
      RatioMeaning(out.summary.sent, out.summary.received, out.summary.pdr);
    }
    if out.PerServer? {
      forall i | 0 <= i < |out.servers|
        ensures var s := out.servers[i];
          s.pdr + s.plr == 1.0 && s.pdr >= 0.0
          && (s.pdr == 1.0 <==> s.through == s.sent)
          && (s.pdr <= 1.0 <==> s.through <= s.sent)
      {
        var s := out.servers[i];
        assert s == ServerReport(run.numOfPacks, run.received[i], run.endTime);
        RatioMeaning(s.sent, s.through, s.pdr);
      }
    }
  }

  /** From 357914 packets on the products wrap and the printed throughput
      falls below the exact value. */
  lemma ThroughputWraps(endTime: real)
    requires endTime > 0.0
    ensures Throughput(357914, endTime) < (357914 * 12000) as real / (endTime * 1000000.0)
  {
    assert (357914 * 12000) % U32 == 357914 * 12000 - U32;
    var d := endTime * 1000000.0;
    assert d > 0.0;
    assert (357914 * 12000 - U32) as real < (357914 * 12000) as real;
  }

  /** The script's defaults (application 4) print nothing; the unicast
      scenario of ten packets all received has PDR 1 and PLR 0. */
  lemma DefaultScenarios(received: seq<nat>)
    ensures PrintAppOutput(Run(4, 10, 2, 10, received, 10.0)) == Nothing
    ensures PrintAppOutput(Run(2, 10, 2, 10, received, 10.0))
            == Totals(Summary(10, 10, 1.0, 0.0))
    ensures PrintAppOutput(Run(1, 10, 2, 10, received, 10.0))
            == Totals(Summary(20, 10, 0.5, 0.5))
  {
  }
}
