/**
 * The shortest-path forwarding app: it learns where each source MAC
 * entered the network, keeps its own graph of hosts and switches whose
 * edges carry the ports they leave and enter by, caches for each
 * (source, destination) pair the next hop of every switch on the
 * shortest path, and decides for each packet whether to ignore it, drop
 * it, send it out of one port or flood it. Link and switch removals
 * invalidate the cached paths they break. The shortest path itself is
 * computed by the graph library and is an input; OpenFlow messages are
 * not modelled.
 */
module ShortestPathSwitch {
  import opened Common

  /** The EtherTypes of LLDP and ARP frames, which other apps handle. */
  const EthTypeLldp := 0x88cc
  const EthTypeArp := 0x0806

  /** What the handler reads of a packet: whether it is LLC, its EtherType, and its Ethernet addresses. */
  datatype Packet = Packet(isLlc: bool, ethType: int, src: string, dst: string)

  /** The attributes of a graph edge: the port it leaves by and the port it enters by, each possibly unset. */
  datatype EdgeAttrs = EdgeAttrs(outPort: Option<int>, inPort: Option<int>)

  /** A cached hop of a switch on a path: the port out, the next node, and the port the packet must come in by. */
  datatype Hop = Hop(outPort: int, next: NodeId, inPort: int)

  /** What the handler does with a packet. */
  datatype Decision =
    | Ignored          // returned before learning anything
    | Dropped          // returned after learning, with no packet out
    | Forward(outPort: int)
    | Flood

  /** `DiGraph.add_edge` with attributes: a new edge gets them, an existing one has them updated. */
  function MergeAttrs(old_: Option<EdgeAttrs>, outPort: Option<int>, inPort: Option<int>): (r: EdgeAttrs)
    ensures r.outPort == if outPort.Some? then outPort else if old_.Some? then old_.value.outPort else None
    ensures r.inPort == if inPort.Some? then inPort else if old_.Some? then old_.value.inPort else None
  {
    var base := if old_.Some? then old_.value else EdgeAttrs(None, None);
    EdgeAttrs(if outPort.Some? then outPort else base.outPort, if inPort.Some? then inPort else base.inPort)
  }

  /** The hop cached for the interior node `path[i]`, when both edge attributes it reads are set. */
  function HopAt(path: seq<NodeId>, edges: map<(NodeId, NodeId), EdgeAttrs>, i: nat): Option<Hop>
    requires 1 <= i < |path| - 1
    requires (path[i], path[i + 1]) in edges && (path[i - 1], path[i]) in edges
  {
    var out := edges[(path[i], path[i + 1])].outPort;
    var in_ := edges[(path[i - 1], path[i])].inPort;
    if out.Some? && in_.Some? then Some(Hop(out.value, path[i + 1], in_.value)) else None
  }

  /** Every consecutive pair of the path is an edge. */
  predicate PathIn(path: seq<NodeId>, edges: map<(NodeId, NodeId), EdgeAttrs>)
  {
    forall i :: 0 <= i < |path| - 1 ==> (path[i], path[i + 1]) in edges
  }

  /** The question put to the graph library: the edges, and the two end nodes. */
  datatype Graph = Graph(edges: map<(NodeId, NodeId), EdgeAttrs>, src: NodeId, dst: NodeId)

  /** What the graph library guarantees of a path it returns: it starts at the source, ends at the destination, and follows edges. */
  ghost predicate PathOracle(shortestPath: Graph -> Option<seq<NodeId>>)
  {
    forall g :: shortestPath(g).Some? ==>
      var p := shortestPath(g).value;
      |p| >= 1 && p[0] == g.src && p[|p| - 1] == g.dst && PathIn(p, g.edges)
  }

  /** The hops cache after the build loop, and whether it completed (a missing attribute raises `KeyError`). */
  datatype Filled = Filled(hops: map<NodeId, Hop>, complete: bool)

  /** The build loop run over the interior indices `1 .. k-1`, starting from `hops`. */
  function Fill(path: seq<NodeId>, edges: map<(NodeId, NodeId), EdgeAttrs>, hops: map<NodeId, Hop>, k: nat): Filled
    requires PathIn(path, edges) && k <= |path| - 1
  {
    if k <= 1 then Filled(hops, true)
    else
      var p := Fill(path, edges, hops, k - 1);
      if !p.complete then p
      else
        var h := HopAt(path, edges, k - 1);
        if h.None? then Filled(p.hops, false) else Filled(p.hops[path[k - 1] := h.value], true)
  }

  predicate Distinct(path: seq<NodeId>)
  {
    forall i, j :: 0 <= i < j < |path| ==> path[i] != path[j]
  }

  /** One more step of a completed build adds the hop of `path[k - 1]`. */
  lemma FillStep(path: seq<NodeId>, edges: map<(NodeId, NodeId), EdgeAttrs>, k: nat)
    requires PathIn(path, edges) && 2 <= k <= |path| - 1
    requires Fill(path, edges, map[], k).complete
    ensures Fill(path, edges, map[], k - 1).complete
    ensures HopAt(path, edges, k - 1).Some?
    ensures Fill(path, edges, map[], k).hops ==
      Fill(path, edges, map[], k - 1).hops[path[k - 1] := HopAt(path, edges, k - 1).value]
  {
  }

  /**
   * A completed build of a simple path caches each of its interior nodes
   * with the port towards the next node, that next node, and the port from
   * the previous node.
   */
  lemma {:induction false} FillCachesInteriorHops(path: seq<NodeId>, edges: map<(NodeId, NodeId), EdgeAttrs>, k: nat)
    requires PathIn(path, edges) && k <= |path| - 1 && Distinct(path)
    requires Fill(path, edges, map[], k).complete
    ensures var hops := Fill(path, edges, map[], k).hops;
      forall i :: 1 <= i < k ==> path[i] in hops && Some(hops[path[i]]) == HopAt(path, edges, i)
  {
    if k > 1 {
      FillStep(path, edges, k);
      FillCachesInteriorHops(path, edges, k - 1);
      var p := Fill(path, edges, map[], k - 1).hops;
      var hops := Fill(path, edges, map[], k).hops;
      forall i | 1 <= i < k ensures path[i] in hops && Some(hops[path[i]]) == HopAt(path, edges, i) {
        if i < k - 1 {
          assert path[i] != path[k - 1];
          assert hops[path[i]] == p[path[i]];
        }
      }
    }
  }

  /** A completed build caches nothing but interior nodes of the path. */
  lemma {:induction false} FillCachesOnlyInterior(path: seq<NodeId>, edges: map<(NodeId, NodeId), EdgeAttrs>, k: nat)
    requires PathIn(path, edges) && k <= |path| - 1
    requires Fill(path, edges, map[], k).complete
    ensures forall n :: n in Fill(path, edges, map[], k).hops ==> exists i :: 1 <= i < k && path[i] == n
  {
    if k > 1 {
      FillStep(path, edges, k);
      FillCachesOnlyInterior(path, edges, k - 1);
      var p := Fill(path, edges, map[], k - 1).hops;
      forall n | n in Fill(path, edges, map[], k).hops ensures exists i :: 1 <= i < k && path[i] == n {
        if n != path[k - 1] {
          assert n in p;
          var i :| 1 <= i < k - 1 && path[i] == n;
          assert 1 <= i < k && path[i] == n;
        } else {
          assert 1 <= k - 1 < k && path[k - 1] == n;
        }
      }
    }
  }

  /** The destinations of one source whose cached path is not stale. */
  function KeepPaths(dsts: map<NodeId, map<NodeId, Hop>>, stale: map<NodeId, Hop> -> bool): map<NodeId, map<NodeId, Hop>>
  {
    map d | d in dsts && !stale(dsts[d]) :: dsts[d]
  }

  /**
   * The cache after a pruning pass: stale paths are dropped, and a source
   * is dropped when that left it with no destination (a source that had
   * none to begin with is kept).
   */
  function Pruned(outs: map<NodeId, map<NodeId, map<NodeId, Hop>>>, stale: map<NodeId, Hop> -> bool): map<NodeId, map<NodeId, map<NodeId, Hop>>>
  {
    map s | s in outs && (KeepPaths(outs[s], stale) != map[] || outs[s] == map[]) :: KeepPaths(outs[s], stale)
  }

  /**
   * A pruning pass keeps exactly the paths that are not stale, unchanged,
   * and drops a source only when it was left without a destination.
   */
  lemma PrunedKeepsExactly(outs: map<NodeId, map<NodeId, map<NodeId, Hop>>>, stale: map<NodeId, Hop> -> bool)
    ensures var r := Pruned(outs, stale);
      forall s, d :: s in r && d in r[s] ==> s in outs && d in outs[s] && r[s][d] == outs[s][d] && !stale(r[s][d])
    ensures var r := Pruned(outs, stale);
      forall s, d :: s in outs && d in outs[s] && !stale(outs[s][d]) ==> s in r && d in r[s] && r[s][d] == outs[s][d]
    ensures var r := Pruned(outs, stale);
      forall s :: s in r ==> s in outs && (r[s] != map[] || outs[s] == map[])
    ensures var r := Pruned(outs, stale);
      forall s :: s in outs && s !in r ==> outs[s] != map[] && forall d :: d in outs[s] ==> stale(outs[s][d])
  {
    var r := Pruned(outs, stale);
    forall s, d | s in outs && d in outs[s] && !stale(outs[s][d])
      ensures s in r && d in r[s] && r[s][d] == outs[s][d]
    {
      assert d in KeepPaths(outs[s], stale);
    }
  }

  /** The inner loop of a pruning pass: pops each stale destination of one source. */
  method PruneDsts(dsts: map<NodeId, map<NodeId, Hop>>, stale: map<NodeId, Hop> -> bool) returns (r: map<NodeId, map<NodeId, Hop>>)
    ensures r == KeepPaths(dsts, stale)
  {
    r := dsts;
    var todo := dsts.Keys;
    while todo != {}
      invariant todo <= dsts.Keys
      invariant forall d :: d in r <==> d in dsts && (d in todo || !stale(dsts[d]))
      invariant forall d :: d in r ==> r[d] == dsts[d]
      decreases todo
    {
      var d :| d in todo;
      if stale(dsts[d]) {
        r := r - {d};
      }
      todo := todo - {d};
    }
  }

  /** A pruning pass over the whole cache, source by source. */
  method PruneOuts(outs: map<NodeId, map<NodeId, map<NodeId, Hop>>>, stale: map<NodeId, Hop> -> bool)
    returns (r: map<NodeId, map<NodeId, map<NodeId, Hop>>>)
    ensures r == Pruned(outs, stale)
  {
    r := outs;
    var todo := outs.Keys;
    while todo != {}
      invariant todo <= outs.Keys
      invariant forall s :: s in r <==> s in outs && (s in todo || KeepPaths(outs[s], stale) != map[] || outs[s] == map[])
      invariant forall s :: s in r ==> r[s] == if s in todo then outs[s] else KeepPaths(outs[s], stale)
      decreases todo
    {
      var s :| s in todo;
      var kept := PruneDsts(outs[s], stale);
      if kept == map[] && outs[s] != map[] {
        r := r - {s};
      } else {
        r := r[s := kept];
      }
      todo := todo - {s};
    }
  }

  /** A path broken by the removal of the link from `srcDpid` to `dstDpid`: it leaves `srcDpid` towards `dstDpid`. */
  predicate UsesLink(path: map<NodeId, Hop>, srcDpid: int, dstDpid: int)
  {
    IntId(srcDpid) in path && path[IntId(srcDpid)].next == IntId(dstDpid)
  }

  /** A path broken by the departure of switch `dpid`: it goes through it. */
  predicate GoesThrough(path: map<NodeId, Hop>, dpid: int)
  {
    IntId(dpid) in path
  }

  /** Whether the cache holds an entry for the pair. */
  predicate Cached(outs: map<NodeId, map<NodeId, map<NodeId, Hop>>>, src: NodeId, dst: NodeId)
  {
    src in outs && dst in outs[src]
  }

  /**
   * What a switch does with a packet once its path is cached: forward it
   * out of the cached port when the switch is on the path and the packet
   * came in by the cached port; otherwise return without sending it.
   */
  function Verdict(hops: map<NodeId, Hop>, here: NodeId, inPort: int): (d: Decision)
    ensures d.Forward? <==> here in hops && hops[here].inPort == inPort
    ensures d.Forward? ==> d.outPort == hops[here].outPort
    ensures !d.Forward? ==> d == Dropped
  {
    if here in hops && hops[here].inPort == inPort then Forward(hops[here].outPort) else Dropped
  }

  /** The packets handled elsewhere: LLC, LLDP, ARP, to or from the decoy controller, and IPv4 multicast. */
  predicate IgnoredPacket(pkt: Packet, decoyMac: string)
  {
    || pkt.isLlc
    || pkt.ethType == EthTypeLldp || pkt.ethType == EthTypeArp
    || pkt.dst == decoyMac || pkt.src == decoyMac
    || (|pkt.dst| >= 8 && pkt.dst[..8] == "01:00:5e")
  }

  /** The app's state: the learnt ports, its graph, and the path cache. */
  class Switch {
    const decoyMac: string
    var macToPort: map<int, map<string, int>>
    var nodes: set<NodeId>
    var edges: map<(NodeId, NodeId), EdgeAttrs>
    var outs: map<NodeId, map<NodeId, map<NodeId, Hop>>>

    /** Every edge joins two nodes of the graph. */
    ghost predicate Valid()
      reads this
    {
      forall e :: e in edges ==> e.0 in nodes && e.1 in nodes
    }

    constructor (decoyMac: string)
      ensures Valid()
      ensures this.decoyMac == decoyMac
      ensures macToPort == map[] && nodes == {} && edges == map[] && outs == map[]
    {
      this.decoyMac := decoyMac;
      macToPort := map[];
      nodes := {};
      edges := map[];
      outs := map[];
    }

    /** `add_edge(u, v, ...)`: both ends become nodes, and the edge's attributes are set or updated. */
    method AddEdge(u: NodeId, v: NodeId, outPort: Option<int>, inPort: Option<int>)
      requires Valid()
      modifies this`nodes, this`edges
      ensures Valid()
      ensures nodes == old(nodes) + {u, v}
      ensures edges == old(edges)[(u, v) := MergeAttrs(if (u, v) in old(edges) then Some(old(edges)[(u, v)]) else None, outPort, inPort)]
    {
      nodes := nodes + {u, v};
      edges := edges[(u, v) := MergeAttrs(if (u, v) in edges then Some(edges[(u, v)]) else None, outPort, inPort)];
    }

    /**
     * The cache build of `_packet_in_handler` for a pair not cached yet:
     * the pair's entry is created empty, then filled hop by hop; a hop
     * whose edge lacks an attribute stops the loop, leaving the hops
     * before it.
     */
    method BuildHops(src: NodeId, dst: NodeId, path: seq<NodeId>) returns (complete: bool)
      requires PathIn(path, edges) && |path| >= 1
      requires src !in outs || dst !in outs[src]
      modifies this`outs
      ensures var f := Fill(path, edges, map[], |path| - 1);
        && complete == f.complete
        && outs == old(outs)[src := (if src in old(outs) then old(outs)[src] else map[])[dst := f.hops]]
    {
      var dsts := if src in outs then outs[src] else map[];
      var hops: map<NodeId, Hop> := map[];
      var i := 1;
      while i < |path| - 1
        invariant 1 <= i <= |path| - 1 || (|path| == 1 && i == 1)
        invariant Fill(path, edges, map[], if |path| == 1 then 0 else i) == Filled(hops, true)
      {
        var out := edges[(path[i], path[i + 1])].outPort;
        var in_ := edges[(path[i - 1], path[i])].inPort;
        if out.None? || in_.None? {
          outs := outs[src := dsts[dst := hops]];
          assert Fill(path, edges, map[], i + 1) == Filled(hops, false);
          FillStopped(path, edges, i + 1);
          return false;
        }
        hops := hops[path[i] := Hop(out.value, path[i + 1], in_.value)];
        i := i + 1;
      }
      outs := outs[src := dsts[dst := hops]];
      complete := true;
    }

    /**
     * `_packet_in_handler` without the flow installation. `shortestPath` is
     * the graph library's shortest path between two nodes of the graph as
     * it is when the path is needed (`None`: no path).
     */
    method PacketIn(pkt: Packet, dpid: int, inPort: int, shortestPath: Graph -> Option<seq<NodeId>>) returns (d: Decision)
      requires Valid()
      requires PathOracle(shortestPath)
      modifies this`macToPort, this`nodes, this`edges, this`outs
      ensures Valid()
      ensures IgnoredPacket(pkt, decoyMac) ==>
        d == Ignored && macToPort == old(macToPort) && nodes == old(nodes) && edges == old(edges) && outs == old(outs)
      ensures !IgnoredPacket(pkt, decoyMac) ==>
        macToPort == old(macToPort)[dpid := (if dpid in old(macToPort) then old(macToPort)[dpid] else map[])[pkt.src := inPort]]
      ensures !IgnoredPacket(pkt, decoyMac) && StrId(pkt.src) in old(nodes) ==> nodes == old(nodes) && edges == old(edges)
      ensures !IgnoredPacket(pkt, decoyMac) && StrId(pkt.src) !in old(nodes) ==>
        && nodes == old(nodes) + {StrId(pkt.src), IntId(dpid)}
        && edges == old(edges)[(StrId(pkt.src), IntId(dpid)) := EdgeAttrs(None, Some(inPort))]
                              [(IntId(dpid), StrId(pkt.src)) := EdgeAttrs(Some(inPort), None)]
      ensures !IgnoredPacket(pkt, decoyMac) && StrId(pkt.dst) !in nodes ==> d == Flood && outs == old(outs)
      ensures d.Forward? ==>
        var src := StrId(pkt.src);
        var dst := StrId(pkt.dst);
        && src in outs && dst in outs[src] && IntId(dpid) in outs[src][dst]
        && outs[src][dst][IntId(dpid)].inPort == inPort
        && d.outPort == outs[src][dst][IntId(dpid)].outPort
      ensures !IgnoredPacket(pkt, decoyMac) && StrId(pkt.dst) in nodes && Cached(old(outs), StrId(pkt.src), StrId(pkt.dst)) ==>
        outs == old(outs) && d == Verdict(old(outs)[StrId(pkt.src)][StrId(pkt.dst)], IntId(dpid), inPort)
      ensures !IgnoredPacket(pkt, decoyMac) && StrId(pkt.dst) in nodes && !Cached(old(outs), StrId(pkt.src), StrId(pkt.dst)) ==>
        var route := shortestPath(Graph(edges, StrId(pkt.src), StrId(pkt.dst)));
        && (route.None? ==> d == Dropped && outs == old(outs))
        && (route.Some? ==>
              var f := Fill(route.value, edges, map[], |route.value| - 1);
              && outs == old(outs)[StrId(pkt.src) := (if StrId(pkt.src) in old(outs) then old(outs)[StrId(pkt.src)] else map[])[StrId(pkt.dst) := f.hops]]
              && d == if f.complete then Verdict(f.hops, IntId(dpid), inPort) else Dropped)
    {
      if IgnoredPacket(pkt, decoyMac) {
        return Ignored;
      }
      var src := StrId(pkt.src);
      var dst := StrId(pkt.dst);
      var here := IntId(dpid);
      var ports := if dpid in macToPort then macToPort[dpid] else map[];
      macToPort := macToPort[dpid := ports[pkt.src := inPort]];
      if src !in nodes {
        AddEdge(src, here, None, Some(inPort));
        AddEdge(here, src, Some(inPort), None);
      }
      if dst !in nodes {
        return Flood;
      }
      if src !in outs || dst !in outs[src] {
        var route := shortestPath(Graph(edges, src, dst));
        if route.None? {
          return Dropped;
        }
        var complete := BuildHops(src, dst, route.value);
        if !complete {
          return Dropped;
        }
      }
      var path := outs[src][dst];
      if here !in path || inPort != path[here].inPort {
        return Dropped;
      }
      d := Forward(path[here].outPort);
    }

    /** `_link_add_handler`: both directions, each with the ports swapped. */
    method LinkAdd(srcDpid: int, srcPort: int, dstDpid: int, dstPort: int)
      requires Valid()
      modifies this`nodes, this`edges
      ensures Valid()
      ensures nodes == old(nodes) + {IntId(srcDpid), IntId(dstDpid)}
      ensures edges == old(edges)[(IntId(srcDpid), IntId(dstDpid)) := EdgeAttrs(Some(srcPort), Some(dstPort))]
                                 [(IntId(dstDpid), IntId(srcDpid)) := EdgeAttrs(Some(dstPort), Some(srcPort))]
    {
      AddEdge(IntId(srcDpid), IntId(dstDpid), Some(srcPort), Some(dstPort));
      AddEdge(IntId(dstDpid), IntId(srcDpid), Some(dstPort), Some(srcPort));
    }

    /**
     * `_link_delete_handler` without the flow deletions: the edge goes (if
     * present), and every cached path leaving `srcDpid` towards `dstDpid`
     * is dropped, with the sources it leaves without a destination.
     */
    method LinkDelete(srcDpid: int, dstDpid: int)
      requires Valid()
      modifies this`edges, this`outs
      ensures Valid()
      ensures edges == old(edges) - {(IntId(srcDpid), IntId(dstDpid))}
      ensures outs == Pruned(old(outs), p => UsesLink(p, srcDpid, dstDpid))
    {
      edges := edges - {(IntId(srcDpid), IntId(dstDpid))};
      outs := PruneOuts(outs, p => UsesLink(p, srcDpid, dstDpid));
    }

    /**
     * `_switch_leave_handler`: the switch and its edges go (if present), and
     * every cached path through it is dropped, with the sources it leaves
     * without a destination.
     */
    method SwitchLeave(dpid: int)
      requires Valid()
      modifies this`nodes, this`edges, this`outs
      ensures Valid()
      ensures nodes == old(nodes) - {IntId(dpid)}
      ensures edges == map e | e in old(edges) && e.0 != IntId(dpid) && e.1 != IntId(dpid) :: old(edges)[e]
      ensures outs == Pruned(old(outs), p => GoesThrough(p, dpid))
    {
      nodes := nodes - {IntId(dpid)};
      edges := map e | e in edges && e.0 != IntId(dpid) && e.1 != IntId(dpid) :: edges[e];
      outs := PruneOuts(outs, p => GoesThrough(p, dpid));
    }
  }

  /** Once the build loop stops, running it further changes nothing. */
  lemma {:induction false} FillStopped(path: seq<NodeId>, edges: map<(NodeId, NodeId), EdgeAttrs>, k: nat)
    requires PathIn(path, edges) && 1 <= k <= |path| - 1
    requires !Fill(path, edges, map[], k).complete
    ensures Fill(path, edges, map[], |path| - 1) == Fill(path, edges, map[], k)
    decreases |path| - k
  {
    if k < |path| - 1 {
      FillStopped(path, edges, k + 1);
    }
  }
}
