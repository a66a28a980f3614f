/**
 * The topology app's event rules: switches, ports and links discovered by
 * the controller become nodes, interfaces and links of the topology store;
 * hosts seen on switch ports are recorded under their MAC address; a
 * periodic pass adds the missing links between each known host and the
 * switch it was seen on, and another removes the nodes that are neither
 * live clients nor connected switches. The app is a topology store itself;
 * here it holds one. Sleeps, the UDP server it starts, and the controller's
 * datapath list (given as a parameter) are outside the model.
 */
module TopologyEvents {
  import opened Common
  import opened TopologyModel

  /** A switch port as an event reports it: its name and its number. */
  datatype Port = Port(name: string, num: int)

  /** The attempts a port or link addition gets in total before it is given up. */
  const Attempts := 3

  /** The label a switch node gets: `s_` and its datapath id in lower-case hexadecimal. */
  function SwitchLabel(dpid: nat): (r: string)
    ensures |r| >= 3 && r[..2] == "s_"
    ensures forall i :: 2 <= i < |r| ==> r[i] in "0123456789abcdef"
  {
    var h := HexString(dpid);
    HexDigitsOnly(dpid, 16);
    "s_" + h
  }

  lemma {:induction false} HexDigitsOnly(n: nat, b: nat)
    requires 2 <= b <= 16
    ensures forall i :: 0 <= i < |Digits(n, b)| ==> Digits(n, b)[i] in "0123456789abcdef"
    decreases n
  {
    if n >= b {
      HexDigitsOnly(n / b, b);
    }
  }

  /** A port reference from a record key: a name, or `None` (which only finds an interface registered without a number). */
  function RefOf(name: Option<string>): (r: PortRef)
    ensures name.Some? <==> r.ByName?
    ensures name.Some? ==> r.name == name.value
  {
    if name.Some? then ByName(name.value) else ByNum(None)
  }

  /** The number-to-name map kept for a node, empty when it has none. */
  function NumbersOf(numToName: map<NodeId, map<Option<int>, string>>, id: NodeId): map<Option<int>, string>
  {
    if id in numToName then numToName[id] else map[]
  }

  /** The names of the ports. */
  function PortNameSet(ports: seq<Port>): set<string>
  {
    set p | p in ports :: p.name
  }

  /** The numbers of the ports, as the optional numbers interfaces are registered under. */
  function PortNumbers(ports: seq<Port>): set<Option<int>>
  {
    set p | p in ports :: Some(p.num)
  }

  /**
   * A switch's number-to-name map after its ports are added in order: each
   * port's number maps to its name, a later port overriding an earlier one
   * with the same number.
   */
  function NumberPorts(m: map<Option<int>, string>, ports: seq<Port>): map<Option<int>, string>
  {
    if ports == [] then m
    else NumberPorts(m, ports[..|ports| - 1])[Some(ports[|ports| - 1].num) := ports[|ports| - 1].name]
  }

  /** Every port's number is mapped, to the name of a port with that number. */
  lemma {:induction false} NumberPortsMapsPorts(m: map<Option<int>, string>, ports: seq<Port>, p: Port)
    requires p in ports
    ensures Some(p.num) in NumberPorts(m, ports)
    ensures exists q :: q in ports && q.num == p.num && NumberPorts(m, ports)[Some(p.num)] == q.name
  {
    var init := ports[..|ports| - 1];
    var last := ports[|ports| - 1];
    if p.num == last.num {
      assert last in ports;
    } else {
      assert p in init;
      NumberPortsMapsPorts(m, init, p);
      var q :| q in init && q.num == p.num && NumberPorts(m, init)[Some(p.num)] == q.name;
      assert q in ports;
    }
  }

  /** The map gains exactly the ports' numbers, and keeps every other entry. */
  lemma {:induction false} NumberPortsKeeps(m: map<Option<int>, string>, ports: seq<Port>, k: Option<int>)
    ensures k in NumberPorts(m, ports) <==> k in m || k in PortNumbers(ports)
    ensures k in m && k !in PortNumbers(ports) ==> NumberPorts(m, ports)[k] == m[k]
  {
    if ports != [] {
      var init := ports[..|ports| - 1];
      var last := ports[|ports| - 1];
      assert forall p :: p in ports <==> p in init || p == last;
      assert PortNumbers(ports) == PortNumbers(init) + {Some(last.num)};
      NumberPortsKeeps(m, init, k);
    }
  }

  /** Adding one more port adds its name and maps its number to it. */
  lemma AddPortsStep(m: map<Option<int>, string>, ports: seq<Port>, i: nat)
    requires i < |ports|
    ensures PortNameSet(ports[..i + 1]) == PortNameSet(ports[..i]) + {ports[i].name}
    ensures NumberPorts(m, ports[..i + 1]) == NumberPorts(m, ports[..i])[Some(ports[i].num) := ports[i].name]
  {
    assert ports[..i + 1] == ports[..i] + [ports[i]];
    assert ports[..i + 1][..i] == ports[..i];
  }

  /** Whether a graph node belongs to a live client (string ids) or a connected switch (integer ids). */
  predicate Connected(id: NodeId, clients: set<string>, dps: set<int>)
  {
    match id
    case StrId(s) => s in clients
    case IntId(n) => n in dps
  }

  class TopologyApp {
    const topo: Topology

    constructor (topo: Topology)
      ensures this.topo == topo
    {
      this.topo := topo;
    }

    /**
     * The host under `mac` can be linked: its node and its switch are in the
     * graph, and its interface and switch port both resolve.
     */
    ghost predicate Linkable(mac: string)
      reads topo`nodes, topo`interfaces, topo`numToName, topo.nodes.Values
    {
      && mac in topo.interfaces
      && var r := topo.interfaces[mac];
      && r.nodeId.Some? && r.dpid.Some?
      && r.nodeId.value in topo.nodes && IntId(r.dpid.value) in topo.nodes
      && topo.GetInterface(r.nodeId.value, RefOf(r.name)).Some?
      && topo.GetInterface(IntId(r.dpid.value), RefOf(r.portName)).Some?
    }

    /** `_switch_enter_handler`: a switch node labelled from its datapath id, with one interface per port. */
    method SwitchEnter(dpid: nat, active: bool, ports: seq<Port>, now: real)
      requires topo.Valid()
      modifies topo
      ensures topo.Valid()
      ensures IntId(dpid) in topo.nodes && fresh(topo.nodes[IntId(dpid)])
      ensures topo.nodes == old(topo.nodes)[IntId(dpid) := topo.nodes[IntId(dpid)]]
      ensures var n := topo.nodes[IntId(dpid)];
        && n.state == active && n.kind == Switch && n.nodeLabel == Some(SwitchLabel(dpid))
        && n.interfaces.Keys == PortNameSet(ports)
      ensures forall p :: p in ports ==> topo.GetInterface(IntId(dpid), ByName(p.name)).Some?
      ensures forall p :: p in ports ==> topo.GetInterface(IntId(dpid), ByNum(Some(p.num))).Some?
      ensures NumbersOf(topo.numToName, IntId(dpid)) == NumberPorts(NumbersOf(old(topo.numToName), IntId(dpid)), ports)
      ensures topo.numToName - {IntId(dpid)} == old(topo.numToName) - {IntId(dpid)}
      ensures topo.edges == old(topo.edges) && topo.srcPortToDst == old(topo.srcPortToDst)
      ensures topo.interfaces == old(topo.interfaces) && topo.ips == old(topo.ips)
    {
      var id := IntId(dpid);
      var ok := topo.AddNode(id, active, Switch, Some(SwitchLabel(dpid)), None, now);
      var node := topo.nodes[id];
      AddPorts(id, node, ports, now);
      forall p | p in ports
        ensures topo.GetInterface(id, ByName(p.name)).Some?
        ensures topo.GetInterface(id, ByNum(Some(p.num))).Some?
      {
        assert p.name in node.interfaces;
        NumberPortsMapsPorts(NumbersOf(old(topo.numToName), id), ports, p);
        var name := NumbersOf(topo.numToName, id)[Some(p.num)];
        var q :| q in ports && q.num == p.num && name == q.name;
        assert name in node.interfaces;
        topo.FindByNum(id, Some(p.num), name, node.interfaces[name]);
      }
    }

    /** The port loop of `_switch_enter_handler`: one interface per port, on a node that has none yet. */
    method AddPorts(id: NodeId, node: Node, ports: seq<Port>, now: real)
      requires topo.Valid() && id in topo.nodes && topo.nodes[id] == node && node.interfaces == map[]
      modifies topo`numToName, topo`interfaces, topo`ips, node`interfaces
      ensures topo.Valid()
      ensures node.interfaces.Keys == PortNameSet(ports)
      ensures NumbersOf(topo.numToName, id) == NumberPorts(NumbersOf(old(topo.numToName), id), ports)
      ensures topo.numToName - {id} == old(topo.numToName) - {id}
      ensures topo.interfaces == old(topo.interfaces) && topo.ips == old(topo.ips)
    {
      var i := 0;
      while i < |ports|
        invariant 0 <= i <= |ports|
        invariant node.interfaces.Keys == PortNameSet(ports[..i])
        invariant NumbersOf(topo.numToName, id) == NumberPorts(NumbersOf(old(topo.numToName), id), ports[..i])
        invariant topo.numToName - {id} == old(topo.numToName) - {id}
        invariant topo.interfaces == old(topo.interfaces) && topo.ips == old(topo.ips)
      {
        AddPortsStep(NumbersOf(old(topo.numToName), id), ports, i);
        AddPort(id, node, ports[i], now);
        i := i + 1;
      }
      assert ports[..i] == ports;
    }

    /** One turn of the port loop of `_switch_enter_handler`. */
    method AddPort(id: NodeId, node: Node, port: Port, now: real)
      requires topo.Valid() && id in topo.nodes && topo.nodes[id] == node
      modifies topo`numToName, topo`interfaces, topo`ips, node`interfaces
      ensures node.interfaces.Keys == old(node.interfaces.Keys) + {port.name}
      ensures NumbersOf(topo.numToName, id) == NumbersOf(old(topo.numToName), id)[Some(port.num) := port.name]
      ensures topo.numToName - {id} == old(topo.numToName) - {id}
      ensures topo.interfaces == old(topo.interfaces) && topo.ips == old(topo.ips)
    {
      var ok := topo.AddInterface(id, port.name, Some(port.num), None, None, now);
    }

    /**
     * `_port_add_handler`: the interface is added, and the addition is
     * tried again while it fails, `Attempts` times in all. Between attempts
     * the handler sleeps, and nothing else changes the store here.
     */
    method PortAdd(dpid: int, port: Port, now: real) returns (ok: bool, attempts: nat)
      requires topo.Valid()
      modifies topo, (if IntId(dpid) in topo.nodes then {topo.nodes[IntId(dpid)]} else {})`interfaces
      ensures topo.Valid()
      ensures ok <==> IntId(dpid) in old(topo.nodes)
      ensures attempts == if ok then 1 else Attempts
      ensures topo.nodes == old(topo.nodes) && topo.edges == old(topo.edges)
      ensures ok ==> port.name in topo.nodes[IntId(dpid)].interfaces
      ensures ok ==>
        var iface := topo.nodes[IntId(dpid)].interfaces[port.name];
        && fresh(iface)
        && topo.nodes[IntId(dpid)].interfaces == old(topo.nodes[IntId(dpid)].interfaces)[port.name := iface]
        && topo.GetInterface(IntId(dpid), ByName(port.name)) == Some(iface)
        && topo.GetInterface(IntId(dpid), ByNum(Some(port.num))) == Some(iface)
      ensures ok ==> topo.numToName == old(topo.numToName)[IntId(dpid) := (if IntId(dpid) in old(topo.numToName) then old(topo.numToName)[IntId(dpid)] else map[])[Some(port.num) := port.name]]
      ensures !ok ==> topo.numToName == old(topo.numToName)
      ensures topo.srcPortToDst == old(topo.srcPortToDst) && topo.interfaces == old(topo.interfaces) && topo.ips == old(topo.ips)
    {
      var retry := Attempts;
      attempts := 0;
      while true
        invariant 0 <= attempts < Attempts && retry == Attempts - attempts
        invariant topo.Valid()
        invariant topo.nodes == old(topo.nodes) && topo.edges == old(topo.edges) && topo.numToName == old(topo.numToName)
        invariant topo.srcPortToDst == old(topo.srcPortToDst) && topo.interfaces == old(topo.interfaces) && topo.ips == old(topo.ips)
        invariant attempts > 0 ==> IntId(dpid) !in topo.nodes
        invariant IntId(dpid) in topo.nodes ==> topo.nodes[IntId(dpid)].interfaces == old(topo.nodes[IntId(dpid)].interfaces)
        decreases retry
      {
        ok := topo.AddInterface(IntId(dpid), port.name, Some(port.num), None, None, now);
        attempts := attempts + 1;
        if ok {
          return;
        }
        retry := retry - 1;
        if retry == 0 {
          return;
        }
      }
    }

    /** `_port_delete_handler`. */
    method PortDelete(dpid: int, name: string)
      requires topo.Valid()
      modifies topo, (if IntId(dpid) in topo.nodes then {topo.nodes[IntId(dpid)]} else {})`interfaces
      ensures topo.Valid()
      ensures topo.nodes == old(topo.nodes)
      ensures IntId(dpid) in topo.nodes ==> name !in topo.nodes[IntId(dpid)].interfaces
      ensures IntId(dpid) in topo.nodes ==>
        topo.nodes[IntId(dpid)].interfaces == old(topo.nodes[IntId(dpid)].interfaces) - {name}
      ensures topo.numToName == old(topo.numToName) && topo.interfaces == old(topo.interfaces) && topo.ips == old(topo.ips)
      ensures IntId(dpid) !in topo.nodes || old(topo.GetDstAtPort(IntId(dpid), ByName(name))).None? ==>
        topo.edges == old(topo.edges) && topo.srcPortToDst == old(topo.srcPortToDst)
      ensures IntId(dpid) in topo.nodes && old(topo.GetDstAtPort(IntId(dpid), ByName(name))).Some? ==>
        var d := old(topo.GetDstAtPort(IntId(dpid), ByName(name))).value.id;
        && topo.edges == old(topo.edges) - {(IntId(dpid), d), (d, IntId(dpid))}
        && topo.srcPortToDst == old(topo.srcPortToDst) - {IntId(dpid), d}
    {
      topo.DeleteInterface(IntId(dpid), name);
    }

    /**
     * `_port_modify_handler`: the port is deleted and added again, so on a
     * known switch it ends with a new interface under its name, found by
     * name and by its number, and without the links (and port maps) the
     * deletion removed; every other edge and record is kept.
     */
    method PortModify(dpid: int, port: Port, now: real)
      requires topo.Valid()
      modifies topo, (if IntId(dpid) in topo.nodes then {topo.nodes[IntId(dpid)]} else {})`interfaces
      ensures topo.Valid()
      ensures topo.nodes == old(topo.nodes)
      ensures topo.interfaces == old(topo.interfaces) && topo.ips == old(topo.ips)
      ensures IntId(dpid) in topo.nodes ==> port.name in topo.nodes[IntId(dpid)].interfaces
      ensures IntId(dpid) in topo.nodes ==>
        var iface := topo.nodes[IntId(dpid)].interfaces[port.name];
        && fresh(iface)
        && topo.nodes[IntId(dpid)].interfaces == old(topo.nodes[IntId(dpid)].interfaces)[port.name := iface]
        && topo.GetInterface(IntId(dpid), ByName(port.name)) == Some(iface)
        && topo.GetInterface(IntId(dpid), ByNum(Some(port.num))) == Some(iface)
        && topo.numToName == old(topo.numToName)[IntId(dpid) := (if IntId(dpid) in old(topo.numToName) then old(topo.numToName)[IntId(dpid)] else map[])[Some(port.num) := port.name]]
      ensures IntId(dpid) !in topo.nodes ==>
        topo.edges == old(topo.edges) && topo.srcPortToDst == old(topo.srcPortToDst) && topo.numToName == old(topo.numToName)
      ensures IntId(dpid) in topo.nodes && old(topo.GetDstAtPort(IntId(dpid), ByName(port.name))).None? ==>
        topo.edges == old(topo.edges) && topo.srcPortToDst == old(topo.srcPortToDst)
      ensures IntId(dpid) in topo.nodes && old(topo.GetDstAtPort(IntId(dpid), ByName(port.name))).Some? ==>
        var d := old(topo.GetDstAtPort(IntId(dpid), ByName(port.name))).value.id;
        && topo.edges == old(topo.edges) - {(IntId(dpid), d), (d, IntId(dpid))}
        && topo.srcPortToDst == old(topo.srcPortToDst) - {IntId(dpid), d}
    {
      PortDelete(dpid, port.name);
      var ok, attempts := PortAdd(dpid, port, now);
    }

    /**
     * `_link_add_handler`: a link between the two ports, added while
     * switched off and tried again while it fails, `Attempts` times in all.
     */
    method LinkAdd(src: Port, srcDpid: int, dst: Port, dstDpid: int, now: real) returns (ok: bool, attempts: nat)
      requires topo.Valid()
      modifies topo
      ensures topo.Valid()
      ensures ok <==>
        old(topo.GetInterface(IntId(srcDpid), ByName(src.name))).Some? && old(topo.GetInterface(IntId(dstDpid), ByName(dst.name))).Some?
      ensures attempts == if ok then 1 else Attempts
      ensures topo.nodes == old(topo.nodes)
      ensures topo.numToName == old(topo.numToName) && topo.interfaces == old(topo.interfaces) && topo.ips == old(topo.ips)
      ensures !ok ==> topo.edges == old(topo.edges) && topo.srcPortToDst == old(topo.srcPortToDst)
      ensures ok ==> (IntId(srcDpid), IntId(dstDpid)) in topo.edges
      ensures ok ==>
        var s := IntId(srcDpid);
        var d := IntId(dstDpid);
        var link := topo.edges[(s, d)];
        var srcPort := old(topo.GetInterface(s, ByName(src.name))).value;
        && fresh(link) && !link.state && link.timestamp == now
        && link.srcPort == srcPort && link.dstPort == old(topo.GetInterface(d, ByName(dst.name))).value
        && topo.edges == old(topo.edges)[(s, d) := link]
        && topo.srcPortToDst == old(topo.srcPortToDst)[s := (if s in old(topo.srcPortToDst) then old(topo.srcPortToDst)[s] else map[])
                                                            [ByName(src.name) := d][ByNum(srcPort.num) := d]]
    {
      var retry := Attempts;
      attempts := 0;
      while true
        invariant 0 <= attempts < Attempts && retry == Attempts - attempts
        invariant topo.Valid()
        invariant topo.nodes == old(topo.nodes) && topo.edges == old(topo.edges) && topo.numToName == old(topo.numToName)
        invariant topo.srcPortToDst == old(topo.srcPortToDst) && topo.interfaces == old(topo.interfaces) && topo.ips == old(topo.ips)
        invariant attempts > 0 ==> !(old(topo.GetInterface(IntId(srcDpid), ByName(src.name))).Some?
                                     && old(topo.GetInterface(IntId(dstDpid), ByName(dst.name))).Some?)
        decreases retry
      {
        ok := topo.AddLink(IntId(srcDpid), IntId(dstDpid), ByName(src.name), ByName(dst.name), false, now);
        attempts := attempts + 1;
        if ok {
          return;
        }
        retry := retry - 1;
        if retry == 0 {
          return;
        }
      }
    }

    /**
     * `_host_add_handler` (and `_host_move_handler`, whose delete step does
     * nothing): the switch port the host was seen on, recorded under its
     * MAC address with the record's other keys kept.
     */
    method HostAdd(mac: string, dpid: int, portName: string, portNo: int)
      modifies topo`interfaces
      ensures mac in topo.interfaces
      ensures topo.interfaces == old(topo.interfaces)[mac := topo.interfaces[mac]]
      ensures topo.GetByMac(mac, "dpid") == Some(NumAttr(dpid))
      ensures topo.GetByMac(mac, "port_name") == Some(TextAttr(portName))
      ensures topo.GetByMac(mac, "port_no") == Some(NumAttr(portNo))
      ensures forall a :: a in ["node_id", "name", "ipv4", "mac"] ==>
        topo.GetByMac(mac, a) == RecordField(RecordAt(old(topo.interfaces), mac), a)
    {
      var r := RecordAt(topo.interfaces, mac);
      topo.interfaces := topo.interfaces[mac := r.(dpid := Some(dpid), portName := Some(portName), portNo := Some(portNo))];
    }

    /**
     * One pass of `_add_host_links`: for every recorded MAC whose node and
     * switch are in the graph, the link from the node to the switch and the
     * link back are added where missing. Links already there are kept, and
     * every new link joins a host's node and switch. The MACs are visited in
     * any order (Python's is the dictionary's insertion order). When two
     * MACs share a node and a switch, the first visited decides the ports of
     * the link, so the contract does not say which ports a link uses.
     */
    method AddHostLinks(now: real)
      requires topo.Valid()
      modifies topo`edges, topo`srcPortToDst
      ensures topo.Valid()
      ensures topo.nodes == old(topo.nodes) && topo.interfaces == old(topo.interfaces)
      ensures Extends(old(topo.edges), topo.edges)
      ensures forall mac :: Linkable(mac) ==> HasHostEdges(topo.interfaces[mac], topo.edges)
      ensures forall e :: e in topo.edges ==> e in old(topo.edges) || HostEdge(topo.interfaces, e)
    {
      ghost var records := topo.interfaces;
      var todo := topo.interfaces.Keys;
      while todo != {}
        invariant todo <= topo.interfaces.Keys
        invariant topo.Valid()
        invariant topo.interfaces == records
        invariant Extends(old(topo.edges), topo.edges)
        invariant forall mac :: mac !in todo && Linkable(mac) ==> HasHostEdges(records[mac], topo.edges)
        invariant forall e :: e in topo.edges ==> e in old(topo.edges) || HostEdge(records, e)
        decreases todo
      {
        var mac :| mac in todo;
        ghost var before := topo.edges;
        VisitMac(mac, now);
        ExtendsTransitive(old(topo.edges), before, topo.edges);
        forall e | e in topo.edges && e !in before
          ensures HostEdge(records, e)
        {
          assert HostEnds(records[mac], e);
        }
        forall m | m !in todo - {mac} && Linkable(m)
          ensures HasHostEdges(records[m], topo.edges)
        {
          if m != mac {
            assert HasHostEdges(records[m], before);
          }
        }
        todo := todo - {mac};
      }
    }

    /** One turn of the `_add_host_links` loop: the MAC's links are added when its node and switch are in the graph. */
    method VisitMac(mac: string, now: real)
      requires topo.Valid()
      requires mac in topo.interfaces
      modifies topo`edges, topo`srcPortToDst
      ensures topo.Valid()
      ensures Extends(old(topo.edges), topo.edges)
      ensures forall e :: e in topo.edges ==> e in old(topo.edges) || HostEnds(topo.interfaces[mac], e)
      ensures Linkable(mac) ==> HasHostEdges(topo.interfaces[mac], topo.edges)
    {
      var nodeId := topo.GetByMac(mac, "node_id");
      var dpid := topo.GetByMac(mac, "dpid");
      if nodeId.Some? && nodeId.value.IdAttr? && dpid.Some? && dpid.value.NumAttr?
        && topo.GetNode(nodeId.value.id).Some? && topo.GetNode(IntId(dpid.value.n)).Some?
      {
        LinkHost(mac, now);
      }
    }

    /** The body of the `_add_host_links` loop for one MAC whose node and switch are in the graph. */
    method LinkHost(mac: string, now: real)
      requires topo.Valid()
      requires mac in topo.interfaces
      requires var r := topo.interfaces[mac];
        r.nodeId.Some? && r.dpid.Some? && r.nodeId.value in topo.nodes && IntId(r.dpid.value) in topo.nodes
      modifies topo`edges, topo`srcPortToDst
      ensures topo.Valid()
      ensures Extends(old(topo.edges), topo.edges)
      ensures forall e :: e in topo.edges ==> e in old(topo.edges) || HostEnds(topo.interfaces[mac], e)
      ensures Linkable(mac) ==> HasHostEdges(topo.interfaces[mac], topo.edges)
    {
      var r := topo.interfaces[mac];
      var host := r.nodeId.value;
      var sw := IntId(r.dpid.value);
      ghost var before := topo.edges;
      EnsureLink(host, sw, RefOf(r.name), RefOf(r.portName), now);
      ghost var middle := topo.edges;
      EnsureLink(sw, host, RefOf(r.portName), RefOf(r.name), now);
      ExtendsTransitive(before, middle, topo.edges);
    }

    /** One direction of a host link: added between the ports unless a link is already there. */
    method EnsureLink(src: NodeId, dst: NodeId, srcRef: PortRef, dstRef: PortRef, now: real)
      requires topo.Valid()
      modifies topo`edges, topo`srcPortToDst
      ensures topo.Valid()
      ensures Extends(old(topo.edges), topo.edges)
      ensures forall e :: e in topo.edges ==> e in old(topo.edges) || e == (src, dst)
      ensures topo.GetInterface(src, srcRef).Some? && topo.GetInterface(dst, dstRef).Some? ==> (src, dst) in topo.edges
    {
      if topo.GetLink(src, dst).None? {
        var _ := topo.AddLink(src, dst, srcRef, dstRef, false, now);
      }
    }

    /**
     * One pass of `_check_clients`: every graph node that is neither a live
     * client nor a connected switch is deleted, with its edges.
     */
    method CheckClients(clients: set<string>, dps: set<int>)
      requires topo.Valid()
      modifies topo
      ensures topo.Valid()
      ensures forall id :: id in topo.nodes <==> id in old(topo.nodes) && Connected(id, clients, dps)
      ensures forall id :: id in topo.nodes ==> topo.nodes[id] == old(topo.nodes)[id]
      ensures forall e :: e in topo.edges <==>
        e in old(topo.edges) && Connected(e.0, clients, dps) && Connected(e.1, clients, dps)
      ensures forall e :: e in topo.edges ==> topo.edges[e] == old(topo.edges)[e]
      ensures forall id :: id in topo.srcPortToDst <==>
        id in old(topo.srcPortToDst) && (id !in old(topo.nodes) || Connected(id, clients, dps))
      ensures forall id :: id in topo.srcPortToDst ==> topo.srcPortToDst[id] == old(topo.srcPortToDst)[id]
      ensures topo.numToName == old(topo.numToName) && topo.interfaces == old(topo.interfaces) && topo.ips == old(topo.ips)
    {
      var todo := topo.nodes.Keys;
      while todo != {}
        invariant todo <= old(topo.nodes).Keys
        invariant topo.Valid()
        invariant forall id :: id in topo.nodes <==> id in old(topo.nodes) && (id in todo || Connected(id, clients, dps))
        invariant forall id :: id in topo.nodes ==> topo.nodes[id] == old(topo.nodes)[id]
        invariant forall e :: e in topo.edges <==>
          e in old(topo.edges) && (e.0 in todo || Connected(e.0, clients, dps)) && (e.1 in todo || Connected(e.1, clients, dps))
        invariant forall e :: e in topo.edges ==> topo.edges[e] == old(topo.edges)[e]
        invariant forall id :: id in topo.srcPortToDst <==>
          id in old(topo.srcPortToDst) && (id !in old(topo.nodes) || id in todo || Connected(id, clients, dps))
        invariant forall id :: id in topo.srcPortToDst ==> topo.srcPortToDst[id] == old(topo.srcPortToDst)[id]
        invariant topo.numToName == old(topo.numToName) && topo.interfaces == old(topo.interfaces) && topo.ips == old(topo.ips)
        decreases todo
      {
        var id :| id in todo;
        if !Connected(id, clients, dps) {
          topo.DeleteNode(id);
        }
        todo := todo - {id};
      }
    }
  }

  /** Every edge of `before` is in `after`, as the same link. */
  predicate Extends(before: map<(NodeId, NodeId), Link>, after: map<(NodeId, NodeId), Link>)
  {
    forall e :: e in before ==> e in after && after[e] == before[e]
  }

  lemma ExtendsTransitive(a: map<(NodeId, NodeId), Link>, b: map<(NodeId, NodeId), Link>, c: map<(NodeId, NodeId), Link>)
    requires Extends(a, b) && Extends(b, c)
    ensures Extends(a, c)
  {
  }

  /** Both links between the record's node and the switch it was seen on are in the graph. */
  predicate HasHostEdges(r: HostRecord, edges: map<(NodeId, NodeId), Link>)
  {
    r.nodeId.Some? && r.dpid.Some?
    && (r.nodeId.value, IntId(r.dpid.value)) in edges && (IntId(r.dpid.value), r.nodeId.value) in edges
  }

  /** The edge joins the node of some recorded MAC and the switch it was seen on, in one direction or the other. */
  predicate HostEdge(records: map<string, HostRecord>, e: (NodeId, NodeId))
  {
    exists mac :: mac in records && HostEnds(records[mac], e)
  }

  /** The edge runs between the record's node and its switch. */
  predicate HostEnds(r: HostRecord, e: (NodeId, NodeId))
  {
    r.nodeId.Some? && r.dpid.Some?
    && (e == (r.nodeId.value, IntId(r.dpid.value)) || e == (IntId(r.dpid.value), r.nodeId.value))
  }
}
