/**
 * The rules that inject measurements into the topology store: partial spec
 * updates of nodes, links and interfaces (an absent argument leaves its
 * field alone), the link capacity, bandwidth and loss-rate rules applied at
 * a port, the bounded window of port samples, the port-state table, and
 * the expiry of the maps that block monitoring updates. The periodic loops
 * become single steps and the clock a `now` parameter.
 */
module TopologyState {
  import opened Common
  import opened TopologyModel

  /** A port sample: transmitted and received packets and bytes, each possibly unknown. */
  datatype Sample = Sample(txPackets: Option<int>, rxPackets: Option<int>, txBytes: Option<int>, rxBytes: Option<int>)

  /** A port by node id and port name. */
  type PortKey = (NodeId, string)

  /** A list after `_save_stats` appended `v`: the oldest element is dropped once when the list outgrows `length`. */
  function Window<T>(xs: seq<T>, v: T, length: int): seq<T>
  {
    var ys := xs + [v];
    if |ys| > length then ys[1..] else ys
  }

  /**
   * A window kept within its bound stays within it, ends with the newest
   * value, and is the newest part of the history in insertion order.
   */
  lemma WindowBounded<T>(xs: seq<T>, v: T, length: int)
    requires 1 <= length && |xs| <= length
    ensures var w := Window(xs, v, length);
      && |w| <= length
      && w[|w| - 1] == v
      && w == (xs + [v])[|xs| + 1 - |w|..]
  {
  }

  /** The window is the whole history while it fits, and loses exactly its oldest element when full. */
  lemma WindowSlides<T>(xs: seq<T>, v: T, length: int)
    requires 1 <= length && |xs| <= length
    ensures |xs| < length ==> Window(xs, v, length) == xs + [v]
    ensures |xs| == length ==> Window(xs, v, length) == xs[1..] + [v]
  {
  }

  function Min(a: real, b: real): (r: real)
    ensures r <= a && r <= b && (r == a || r == b)
  {
    if b < a then b else a
  }

  /** `max(0, x)`. */
  function ClampLow(x: real): (r: real)
    ensures r >= 0.0 && r >= x && (r == x || r == 0.0)
  {
    if 0.0 > x then 0.0 else x
  }

  /**
   * The loss-rate rule: packets sent since the oldest sample of this port,
   * minus packets received since the oldest sample of the far port, over
   * packets sent, clamped below at 0. A missing or unknown oldest sample
   * (`KeyError`, `IndexError`, `TypeError`) or no packet sent
   * (`ZeroDivisionError`) gives 1.
   */
  function LossRate(tx: int, oldestTx: Option<int>, dstRx: int, oldestDstRx: Option<int>): real
  {
    if oldestTx.None? || oldestDstRx.None? then 1.0
    else
      var reTx := tx - oldestTx.value;
      var reRx := dstRx - oldestDstRx.value;
      if reTx == 0 then 1.0 else ClampLow((reTx - reRx) as real / reTx as real)
  }

  /**
   * The loss rate is never negative; it is 1 whenever its computation
   * raises; and it lies in [0, 1] when packets were sent and the far port
   * counted received packets without its counter going back.
   */
  lemma LossRateBounds(tx: int, oldestTx: Option<int>, dstRx: int, oldestDstRx: Option<int>)
    ensures LossRate(tx, oldestTx, dstRx, oldestDstRx) >= 0.0
    ensures oldestTx.None? || oldestDstRx.None? || tx == oldestTx.value ==> LossRate(tx, oldestTx, dstRx, oldestDstRx) == 1.0
    ensures oldestTx.Some? && oldestDstRx.Some? && tx > oldestTx.value && dstRx >= oldestDstRx.value ==>
      LossRate(tx, oldestTx, dstRx, oldestDstRx) <= 1.0
  {
    if oldestTx.Some? && oldestDstRx.Some? && tx > oldestTx.value && dstRx >= oldestDstRx.value {
      var reTx := tx - oldestTx.value;
      var reRx := dstRx - oldestDstRx.value;
      assert (reTx - reRx) as real <= reTx as real;
      DivAtMostOne((reTx - reRx) as real, reTx as real);
    }
  }

  lemma DivAtMostOne(a: real, b: real)
    requires b > 0.0 && a <= b
    ensures a / b <= 1.0
  {
  }

  /** A lossless link: every packet sent since the oldest sample arrived. */
  lemma LosslessLinkHasZeroLoss(tx: int, oldestTx: int, dstRx: int, oldestDstRx: int)
    requires tx != oldestTx && tx - oldestTx == dstRx - oldestDstRx
    ensures LossRate(tx, Some(oldestTx), dstRx, Some(oldestDstRx)) == 0.0
  {
  }

  /** The oldest sample's transmitted packets, as `stats[key][0][0]` would find it. */
  function OldestTx(stats: map<PortKey, seq<Sample>>, key: PortKey): Option<int>
  {
    if key in stats && stats[key] != [] then stats[key][0].txPackets else None
  }

  /** The oldest sample's received packets, as `stats[key][0][1]` would find it. */
  function OldestRx(stats: map<PortKey, seq<Sample>>, key: PortKey): Option<int>
  {
    if key in stats && stats[key] != [] then stats[key][0].rxPackets else None
  }

  /** An interface's spec fields, as values. */
  datatype PortSpecs = PortSpecs(capacity: real, bandwidthUp: real, bandwidthDown: real,
                                 txPackets: int, rxPackets: int, timestamp: real)

  /** The spec fields of an interface. */
  function SpecsOf(i: Interface): PortSpecs
    reads i`capacity, i`bandwidthUp, i`bandwidthDown, i`txPackets, i`rxPackets, i`timestamp
  {
    PortSpecs(i.capacity, i.bandwidthUp, i.bandwidthDown, i.txPackets, i.rxPackets, i.timestamp)
  }

  /**
   * The spec fields after the setter calls of `update_interface_specs`: the
   * timestamp is set first, then each given spec (capacity and bandwidths
   * only when `open`, that is, while no bandwidth test owns the port), and
   * every setter stamps the interface `now` again.
   */
  function Applied(v: PortSpecs, open: bool, capacity: Option<real>, bandwidthUp: Option<real>,
                   bandwidthDown: Option<real>, txPackets: Option<int>, rxPackets: Option<int>,
                   timestamp: real, now: real): PortSpecs
  {
    PortSpecs(
      if open && capacity.Some? then capacity.value else v.capacity,
      if open && bandwidthUp.Some? then bandwidthUp.value else v.bandwidthUp,
      if open && bandwidthDown.Some? then bandwidthDown.value else v.bandwidthDown,
      if txPackets.Some? then txPackets.value else v.txPackets,
      if rxPackets.Some? then rxPackets.value else v.rxPackets,
      if (open && (capacity.Some? || bandwidthUp.Some? || bandwidthDown.Some?)) || txPackets.Some? || rxPackets.Some?
      then now else Stamp(timestamp, now))
  }

  /** A node's spec fields, as values. */
  datatype NodeFigures = NodeFigures(cpuCount: int, cpuFree: real, memoryTotal: real, memoryFree: real,
                                     diskTotal: real, diskFree: real, timestamp: real)

  /** The spec fields of a node. */
  function FiguresOf(n: Node): NodeFigures
    reads n`cpuCount, n`cpuFree, n`memoryTotal, n`memoryFree, n`diskTotal, n`diskFree, n`timestamp
  {
    NodeFigures(n.cpuCount, n.cpuFree, n.memoryTotal, n.memoryFree, n.diskTotal, n.diskFree, n.timestamp)
  }

  /**
   * The spec fields after the setter calls of `update_node_specs`: the
   * timestamp is set first, then each given spec, and every setter stamps
   * the node `now` again.
   */
  function NodeApplied(v: NodeFigures, cpuCount: Option<int>, cpuFree: Option<real>, memoryTotal: Option<real>,
                       memoryFree: Option<real>, diskTotal: Option<real>, diskFree: Option<real>,
                       timestamp: real, now: real): NodeFigures
  {
    NodeFigures(
      if cpuCount.Some? then cpuCount.value else v.cpuCount,
      if cpuFree.Some? then cpuFree.value else v.cpuFree,
      if memoryTotal.Some? then memoryTotal.value else v.memoryTotal,
      if memoryFree.Some? then memoryFree.value else v.memoryFree,
      if diskTotal.Some? then diskTotal.value else v.diskTotal,
      if diskFree.Some? then diskFree.value else v.diskFree,
      if cpuCount.Some? || cpuFree.Some? || memoryTotal.Some? || memoryFree.Some? || diskTotal.Some? || diskFree.Some?
      then now else Stamp(timestamp, now))
  }

  /** The port states of `_update_link_state`: down and blocked ports are off, live ones on; any other state raises. */
  function LinkStateNamed(s: string): (r: Option<bool>)
    ensures r == Some(true) <==> s == "Live"
    ensures r == Some(false) <==> s == "Down" || s == "Blocked"
  {
    if s == "Down" then Some(false)
    else if s == "Blocked" then Some(false)
    else if s == "Live" then Some(true)
    else None
  }

  /** The entries of a time map not older than `period` at `now`. */
  function Unexpired(m: map<PortKey, real>, now: real, period: real): map<PortKey, real>
  {
    map k | k in m && now - m[k] <= period :: m[k]
  }

  /** A second pass at the same time expires nothing more. */
  lemma UnexpiredIdempotent(m: map<PortKey, real>, now: real, period: real)
    ensures Unexpired(Unexpired(m, now, period), now, period) == Unexpired(m, now, period)
  {
  }

  /** One loop of `_check_update` over a snapshot of the map: entries older than `period` are popped. */
  method Expire(m: map<PortKey, real>, now: real, period: real) returns (r: map<PortKey, real>)
    ensures forall k :: k in r <==> k in m && now - m[k] <= period
    ensures forall k :: k in r ==> r[k] == m[k]
    ensures r == Unexpired(m, now, period)
  {
    r := m;
    var keys := m.Keys;
    while keys != {}
      invariant keys <= m.Keys
      invariant forall k :: k in r <==> k in m && (k in keys || now - m[k] <= period)
      invariant forall k :: k in r ==> r[k] == m[k]
      decreases keys
    {
      var k :| k in keys;
      if now - m[k] > period {
        r := r - {k};
      }
      keys := keys - {k};
    }
  }

  /** The spec-update app: its view of the topology and its own maps. */
  class StateUpdater {
    const topology: Topology
    /** `MONITOR_SAMPLES`: the length of each port's sample window. */
    const samples: int
    /** `MONITOR_PERIOD`, in seconds. */
    const monitorPeriod: real
    var blockAppUpdate: map<PortKey, real>
    var iperf3Update: map<PortKey, real>
    var portStats: map<PortKey, seq<Sample>>

    constructor (topology: Topology, samples: int, monitorPeriod: real)
      ensures this.topology == topology && this.samples == samples && this.monitorPeriod == monitorPeriod
      ensures blockAppUpdate == map[] && iperf3Update == map[] && portStats == map[]
    {
      this.topology := topology;
      this.samples := samples;
      this.monitorPeriod := monitorPeriod;
      blockAppUpdate := map[];
      iperf3Update := map[];
      portStats := map[];
    }

    /** `_save_stats` on the port-sample map. */
    method SaveStats(key: PortKey, value: Sample, length: int)
      modifies this`portStats
      ensures portStats == old(portStats)[key := Window(if key in old(portStats) then old(portStats)[key] else [], value, length)]
    {
      var xs := if key in portStats then portStats[key] else [];
      xs := xs + [value];
      if |xs| > length {
        xs := xs[1..];
      }
      portStats := portStats[key := xs];
    }

    /**
     * `update_node_specs`: on an unknown node nothing changes. Otherwise the
     * timestamp is set, then each given spec (and only those); since every
     * setter re-stamps the node, the given timestamp survives only when no
     * spec was given.
     */
    method UpdateNodeSpecs(id: NodeId, cpuCount: Option<int>, cpuFree: Option<real>, memoryTotal: Option<real>,
                           memoryFree: Option<real>, diskTotal: Option<real>, diskFree: Option<real>,
                           timestamp: real, now: real)
      returns (ok: bool)
      modifies (if id in topology.nodes then {topology.nodes[id]} else {})`cpuCount,
        (if id in topology.nodes then {topology.nodes[id]} else {})`cpuFree,
        (if id in topology.nodes then {topology.nodes[id]} else {})`memoryTotal,
        (if id in topology.nodes then {topology.nodes[id]} else {})`memoryFree,
        (if id in topology.nodes then {topology.nodes[id]} else {})`diskTotal,
        (if id in topology.nodes then {topology.nodes[id]} else {})`diskFree,
        (if id in topology.nodes then {topology.nodes[id]} else {})`timestamp
      ensures ok <==> id in topology.nodes
      ensures ok ==> FiguresOf(topology.nodes[id]) == NodeApplied(old(FiguresOf(topology.nodes[id])), cpuCount, cpuFree,
                                                                   memoryTotal, memoryFree, diskTotal, diskFree, timestamp, now)
    {
      if id !in topology.nodes {
        return false;
      }
      var node := topology.nodes[id];
      node.SetTimestamp(timestamp, now);
      if cpuCount.Some? {
        node.SetCpuCount(cpuCount.value, now);
      }
      if cpuFree.Some? {
        node.SetCpuFree(cpuFree.value, now);
      }
      if memoryTotal.Some? {
        node.SetMemoryTotal(memoryTotal.value, now);
      }
      if memoryFree.Some? {
        node.SetMemoryFree(memoryFree.value, now);
      }
      if diskTotal.Some? {
        node.SetDiskTotal(diskTotal.value, now);
      }
      if diskFree.Some? {
        node.SetDiskFree(diskFree.value, now);
      }
      ok := true;
    }

    /**
     * `update_link_specs`: on an absent link nothing changes. Otherwise the
     * timestamp is set, then each given spec (and only those), each setter
     * re-stamping the link.
     */
    method UpdateLinkSpecs(src: NodeId, dst: NodeId, capacity: Option<real>, bandwidth: Option<real>,
                           delay: Option<ExtReal>, jitter: Option<ExtReal>, lossRate: Option<real>,
                           timestamp: real, now: real)
      returns (ok: bool)
      modifies (if (src, dst) in topology.edges then {topology.edges[(src, dst)]} else {})`capacity,
        (if (src, dst) in topology.edges then {topology.edges[(src, dst)]} else {})`bandwidth,
        (if (src, dst) in topology.edges then {topology.edges[(src, dst)]} else {})`delay,
        (if (src, dst) in topology.edges then {topology.edges[(src, dst)]} else {})`jitter,
        (if (src, dst) in topology.edges then {topology.edges[(src, dst)]} else {})`lossRate,
        (if (src, dst) in topology.edges then {topology.edges[(src, dst)]} else {})`timestamp
      ensures ok <==> topology.GetLink(src, dst).Some?
      ensures ok ==>
        var l := topology.edges[(src, dst)];
        && l.capacity == (if capacity.Some? then capacity.value else old(l.capacity))
        && l.bandwidth == (if bandwidth.Some? then bandwidth.value else old(l.bandwidth))
        && l.delay == (if delay.Some? then delay.value else old(l.delay))
        && l.jitter == (if jitter.Some? then jitter.value else old(l.jitter))
        && l.lossRate == (if lossRate.Some? then lossRate.value else old(l.lossRate))
        && l.timestamp == (if capacity.None? && bandwidth.None? && delay.None? && jitter.None? && lossRate.None?
                           then Stamp(timestamp, now) else now)
    {
      if (src, dst) !in topology.edges {
        return false;
      }
      var link := topology.edges[(src, dst)];
      link.SetTimestamp(timestamp, now);
      if capacity.Some? {
        link.SetCapacity(capacity.value, now);
      }
      if bandwidth.Some? {
        link.SetBandwidth(bandwidth.value, now);
      }
      if delay.Some? {
        link.SetDelay(delay.value, now);
      }
      if jitter.Some? {
        link.SetJitter(jitter.value, now);
      }
      if lossRate.Some? {
        link.SetLossRate(lossRate.value, now);
      }
      ok := true;
    }

    /** The link leaving the port, as a set for frames. */
    function LinkAtPort(src: NodeId, portName: string): set<Link>
      reads topology
    {
      var l := topology.GetLinkAtPort(src, ByName(portName));
      if l.Some? then {l.value} else {}
    }

    /**
     * `_update_link_specs_at_port` without the bandwidth-test branch: the
     * port's sample is saved; then, if a link leaves the port, its capacity
     * becomes the smaller of its ports' capacities, its bandwidth the
     * smaller of the source's upload and the destination's download
     * bandwidth, its loss rate is recomputed when the sent-packet count is
     * known, and its timestamp is set last.
     */
    method UpdateLinkSpecsAtPort(src: NodeId, portName: string, txPackets: Option<int>, rxPackets: Option<int>,
                                 timestamp: real, now: real)
      returns (ok: bool)
      modifies this`portStats, LinkAtPort(src, portName)`capacity, LinkAtPort(src, portName)`bandwidth,
        LinkAtPort(src, portName)`lossRate, LinkAtPort(src, portName)`timestamp
      ensures var key := (src, portName);
        portStats == old(portStats)[key := Window(if key in old(portStats) then old(portStats)[key] else [],
                                                   Sample(txPackets, rxPackets, None, None), samples)]
      ensures ok <==> topology.GetLinkAtPort(src, ByName(portName)).Some?
      ensures ok ==>
        var l := topology.GetLinkAtPort(src, ByName(portName)).value;
        var dstKey := (topology.GetDstAtPort(src, ByName(portName)).value.id, l.dstPort.name);
        && l.capacity == Min(l.srcPort.capacity, l.dstPort.capacity)
        && l.bandwidth == Min(l.srcPort.bandwidthUp, l.dstPort.bandwidthDown)
        && l.lossRate == (if txPackets.Some?
                          then LossRate(txPackets.value, OldestTx(portStats, (src, portName)),
                                        l.dstPort.rxPackets, OldestRx(portStats, dstKey))
                          else old(l.lossRate))
        && l.timestamp == Stamp(timestamp, now)
    {
      var key := (src, portName);
      SaveStats(key, Sample(txPackets, rxPackets, None, None), samples);
      var link := topology.GetLinkAtPort(src, ByName(portName));
      if link.None? {
        return false;
      }
      var l := link.value;
      var srcPort := l.srcPort;
      var dstPort := l.dstPort;
      var dstKey := (topology.GetDstAtPort(src, ByName(portName)).value.id, dstPort.name);
      l.SetCapacity(Min(srcPort.capacity, dstPort.capacity), now);
      l.SetBandwidth(Min(srcPort.bandwidthUp, dstPort.bandwidthDown), now);
      if txPackets.Some? {
        l.SetLossRate(LossRate(txPackets.value, OldestTx(portStats, key), dstPort.rxPackets, OldestRx(portStats, dstKey)), now);
      }
      l.SetTimestamp(timestamp, now);
      ok := true;
    }

    /** The interface a REST update names, as a set for frames. */
    function InterfaceAt(nodeId: NodeId, name: string): set<Interface>
      reads topology`nodes, topology`numToName, topology.nodes.Values`interfaces
    {
      var i := topology.GetInterface(nodeId, ByName(name));
      if i.Some? then {i.value} else {}
    }

    /** The link `update_interface_specs` may refresh: the link at the port, when the interface exists. */
    function LinkToRefresh(nodeId: NodeId, name: string): set<Link>
      reads topology, topology.nodes.Values`interfaces
    {
      if topology.GetInterface(nodeId, ByName(name)).Some? then LinkAtPort(nodeId, name) else {}
    }

    /**
     * `update_interface_specs`: on an unknown interface nothing happens.
     * Otherwise the port is marked as updated through the API at `now`, its
     * timestamp is set, the capacity and bandwidths are applied unless a
     * bandwidth test owns the port, and the packet counters are applied.
     * An interface has no byte-counter setters, so a given byte count raises
     * `AttributeError` there (`raised`) and the link is not refreshed; without
     * one the port's sample is saved and the link at the port is refreshed.
     * The byte counts are any numbers: Python does not check the annotation.
     */
    method UpdateInterfaceSpecs(nodeId: NodeId, name: string, capacity: Option<real>, bandwidthUp: Option<real>,
                                bandwidthDown: Option<real>, txPackets: Option<int>, rxPackets: Option<int>,
                                txBytes: Option<real>, rxBytes: Option<real>, timestamp: real, now: real)
      returns (raised: bool)
      modifies this`blockAppUpdate, this`portStats
      modifies InterfaceAt(nodeId, name)`capacity, InterfaceAt(nodeId, name)`bandwidthUp,
        InterfaceAt(nodeId, name)`bandwidthDown, InterfaceAt(nodeId, name)`txPackets,
        InterfaceAt(nodeId, name)`rxPackets, InterfaceAt(nodeId, name)`timestamp
      modifies LinkToRefresh(nodeId, name)`capacity, LinkToRefresh(nodeId, name)`bandwidth,
        LinkToRefresh(nodeId, name)`lossRate, LinkToRefresh(nodeId, name)`timestamp
      ensures raised <==> topology.GetInterface(nodeId, ByName(name)).Some? && (txBytes.Some? || rxBytes.Some?)
      ensures topology.GetInterface(nodeId, ByName(name)).None? ==>
        blockAppUpdate == old(blockAppUpdate) && portStats == old(portStats)
      ensures topology.GetInterface(nodeId, ByName(name)).Some? ==>
        var i := topology.GetInterface(nodeId, ByName(name)).value;
        var key := (nodeId, name);
        && blockAppUpdate == old(blockAppUpdate)[key := now]
        && SpecsOf(i) == Applied(old(SpecsOf(i)), key !in iperf3Update, capacity, bandwidthUp, bandwidthDown,
                                 txPackets, rxPackets, timestamp, now)
      ensures raised ==> portStats == old(portStats) && unchanged(LinkAtPort(nodeId, name))
      ensures topology.GetInterface(nodeId, ByName(name)).Some? && !raised ==>
        var key := (nodeId, name);
        portStats == old(portStats)[key := Window(if key in old(portStats) then old(portStats)[key] else [],
                                                   Sample(txPackets, rxPackets, None, None), samples)]
      ensures !raised ==>
        forall l :: l in old(LinkToRefresh(nodeId, name)) ==>
          && l.capacity == Min(l.srcPort.capacity, l.dstPort.capacity)
          && l.bandwidth == Min(l.srcPort.bandwidthUp, l.dstPort.bandwidthDown)
          && l.lossRate == (if txPackets.Some?
                            then LossRate(txPackets.value, OldestTx(portStats, (nodeId, name)), l.dstPort.rxPackets,
                                          OldestRx(portStats, (topology.GetDstAtPort(nodeId, ByName(name)).value.id,
                                                               l.dstPort.name)))
                            else old(l.lossRate))
          && l.timestamp == Stamp(timestamp, now)
    {
      var iface := topology.GetInterface(nodeId, ByName(name));
      if iface.None? {
        return false;
      }
      ghost var links := LinkAtPort(nodeId, name);
      MarkInterfaceSpecs(iface.value, nodeId, name, capacity, bandwidthUp, bandwidthDown, txPackets, rxPackets,
                         timestamp, now);
      if txBytes.Some? || rxBytes.Some? {
        return true;
      }
      assert LinkAtPort(nodeId, name) == links;
      var _ := UpdateLinkSpecsAtPort(nodeId, name, txPackets, rxPackets, timestamp, now);
      raised := false;
    }

    /**
     * The part of `update_interface_specs` that runs on an existing
     * interface `i` before the byte counters: the port is marked at `now`
     * and the setters are applied.
     */
    method MarkInterfaceSpecs(i: Interface, nodeId: NodeId, name: string, capacity: Option<real>,
                              bandwidthUp: Option<real>, bandwidthDown: Option<real>, txPackets: Option<int>,
                              rxPackets: Option<int>, timestamp: real, now: real)
      modifies this`blockAppUpdate, i`capacity, i`bandwidthUp, i`bandwidthDown, i`txPackets, i`rxPackets, i`timestamp
      ensures blockAppUpdate == old(blockAppUpdate)[(nodeId, name) := now]
      ensures SpecsOf(i) == Applied(old(SpecsOf(i)), (nodeId, name) !in iperf3Update, capacity, bandwidthUp,
                                    bandwidthDown, txPackets, rxPackets, timestamp, now)
    {
      blockAppUpdate := blockAppUpdate[(nodeId, name) := now];
      ApplyInterfaceSpecs(i, (nodeId, name) !in iperf3Update, capacity, bandwidthUp, bandwidthDown,
                          txPackets, rxPackets, timestamp, now);
    }

    /** The setter calls of `update_interface_specs`; `open` is false while a bandwidth test owns the port. */
    static method ApplyInterfaceSpecs(i: Interface, open: bool, capacity: Option<real>, bandwidthUp: Option<real>,
                                      bandwidthDown: Option<real>, txPackets: Option<int>, rxPackets: Option<int>,
                                      timestamp: real, now: real)
      modifies i`capacity, i`bandwidthUp, i`bandwidthDown, i`txPackets, i`rxPackets, i`timestamp
      ensures i.capacity == (if open && capacity.Some? then capacity.value else old(i.capacity))
      ensures i.bandwidthUp == (if open && bandwidthUp.Some? then bandwidthUp.value else old(i.bandwidthUp))
      ensures i.bandwidthDown == (if open && bandwidthDown.Some? then bandwidthDown.value else old(i.bandwidthDown))
      ensures i.txPackets == (if txPackets.Some? then txPackets.value else old(i.txPackets))
      ensures i.rxPackets == (if rxPackets.Some? then rxPackets.value else old(i.rxPackets))
      ensures i.timestamp == (if (open && (capacity.Some? || bandwidthUp.Some? || bandwidthDown.Some?))
                                 || txPackets.Some? || rxPackets.Some?
                              then now else Stamp(timestamp, now))
      ensures SpecsOf(i) == Applied(old(SpecsOf(i)), open, capacity, bandwidthUp, bandwidthDown,
                                    txPackets, rxPackets, timestamp, now)
    {
      i.SetTimestamp(timestamp, now);
      if open {
        if capacity.Some? {
          i.SetCapacity(capacity.value, now);
        }
        if bandwidthUp.Some? {
          i.SetBandwidthUp(bandwidthUp.value, now);
        }
        if bandwidthDown.Some? {
          i.SetBandwidthDown(bandwidthDown.value, now);
        }
      }
      if txPackets.Some? {
        i.SetTxPackets(txPackets.value, now);
      }
      if rxPackets.Some? {
        i.SetRxPackets(rxPackets.value, now);
      }
    }

    /** Both directions of the link at a port, as a set for frames. */
    function LinksAtPort(dpid: NodeId, portNo: Option<int>): set<Link>
      reads topology
    {
      var (l1, l2) := topology.GetLinksAtPort(dpid, ByNum(portNo));
      (if l1.Some? then {l1.value} else {}) + (if l2.Some? then {l2.value} else {})
    }

    /**
     * One port of `_update_link_state`: the port's state name sets the state
     * of both directions of its link; an unknown name raises and changes nothing.
     */
    method ApplyPortState(dpid: NodeId, portNo: Option<int>, stateName: string) returns (ok: bool)
      modifies LinksAtPort(dpid, portNo)`state
      ensures ok <==> LinkStateNamed(stateName).Some?
      ensures forall l :: l in LinksAtPort(dpid, portNo) ==>
        l.state == if ok then LinkStateNamed(stateName).value else old(l.state)
    {
      var links := topology.GetLinksAtPort(dpid, ByNum(portNo));
      var state := LinkStateNamed(stateName);
      if state.None? {
        return false;
      }
      if links.0.Some? {
        links.0.value.state := state.value;
      }
      if links.1.Some? {
        links.1.value.state := state.value;
      }
      ok := true;
    }

    /**
     * One pass of `_check_update` at time `now`: both maps lose exactly the
     * entries older than one monitoring period plus a second.
     */
    method CheckUpdate(now: real)
      modifies this`blockAppUpdate, this`iperf3Update
      ensures blockAppUpdate == Unexpired(old(blockAppUpdate), now, monitorPeriod + 1.0)
      ensures iperf3Update == Unexpired(old(iperf3Update), now, monitorPeriod + 1.0)
    {
      var period := monitorPeriod + 1.0;
      blockAppUpdate := Expire(blockAppUpdate, now, period);
      iperf3Update := Expire(iperf3Update, now, period);
    }
  }
}
