/**
 * The in-memory topology store: nodes, their interfaces and the directed
 * links between them, each carrying specs with a timestamp, plus the lookup
 * maps the store keeps beside the graph (port to destination node, port
 * number to port name, host MAC and IPv4 address to interface record).
 * The clock is a `now` parameter.
 */
module TopologyModel {
  import opened Common

  datatype NodeType = Server | Vm | IotObject | Gateway | Switch | Router

  /** `NodeType(value)`: the member whose value is the given name; any other name raises. */
  function NodeTypeNamed(s: string): (r: Option<NodeType>)
    ensures r.Some? ==> TypeName(r.value) == s
  {
    if s == "SERVER" then Some(Server) else if s == "VM" then Some(Vm)
    else if s == "IOT_OBJECT" then Some(IotObject) else if s == "GATEWAY" then Some(Gateway)
    else if s == "SWITCH" then Some(Switch) else if s == "ROUTER" then Some(Router)
    else None
  }

  /** The value of a node type. */
  function TypeName(t: NodeType): string
  {
    match t
    case Server => "SERVER"
    case Vm => "VM"
    case IotObject => "IOT_OBJECT"
    case Gateway => "GATEWAY"
    case Switch => "SWITCH"
    case Router => "ROUTER"
  }

  lemma NodeTypeNamesRoundTrip(t: NodeType)
    ensures NodeTypeNamed(TypeName(t)) == Some(t)
  {
  }

  /**
   * A port reference: its name, or its number (an interface may have no
   * number, and Python then keys it by `None`).
   */
  datatype PortRef = ByName(name: string) | ByNum(num: Option<int>)

  /** `timestamp if timestamp else time()`: zero means "now". */
  function Stamp(timestamp: real, now: real): real
  {
    if timestamp != 0.0 then timestamp else now
  }

  /** Python truthiness of an optional string: present and non-empty. */
  predicate Truthy(s: Option<string>)
  {
    s.Some? && s.value != ""
  }

  /** A network interface (port) with its specs. */
  class Interface {
    const name: string
    const num: Option<int>
    const mac: Option<string>
    const ipv4: Option<string>
    var capacity: real
    var bandwidthUp: real
    var bandwidthDown: real
    var txPackets: int
    var rxPackets: int
    var timestamp: real

    /** `Interface(name, num, mac, ipv4)` with default specs stamped now. */
    constructor (name: string, num: Option<int>, mac: Option<string>, ipv4: Option<string>, now: real)
      ensures this.name == name && this.num == num && this.mac == mac && this.ipv4 == ipv4
      ensures capacity == 0.0 && bandwidthUp == 0.0 && bandwidthDown == 0.0
      ensures txPackets == 0 && rxPackets == 0 && timestamp == now
    {
      this.name := name;
      this.num := num;
      this.mac := mac;
      this.ipv4 := ipv4;
      capacity := 0.0;
      bandwidthUp := 0.0;
      bandwidthDown := 0.0;
      txPackets := 0;
      rxPackets := 0;
      timestamp := now;
    }

    method SetCapacity(v: real, now: real)
      modifies this`capacity, this`timestamp
      ensures capacity == v && timestamp == now
    {
      capacity := v;
      timestamp := now;
    }

    method SetBandwidthUp(v: real, now: real)
      modifies this`bandwidthUp, this`timestamp
      ensures bandwidthUp == v && timestamp == now
    {
      bandwidthUp := v;
      timestamp := now;
    }

    method SetBandwidthDown(v: real, now: real)
      modifies this`bandwidthDown, this`timestamp
      ensures bandwidthDown == v && timestamp == now
    {
      bandwidthDown := v;
      timestamp := now;
    }

    method SetTxPackets(v: int, now: real)
      modifies this`txPackets, this`timestamp
      ensures txPackets == v && timestamp == now
    {
      txPackets := v;
      timestamp := now;
    }

    method SetRxPackets(v: int, now: real)
      modifies this`rxPackets, this`timestamp
      ensures rxPackets == v && timestamp == now
    {
      rxPackets := v;
      timestamp := now;
    }

    method SetTimestamp(ts: real, now: real)
      modifies this`timestamp
      ensures timestamp == Stamp(ts, now)
    {
      timestamp := Stamp(ts, now);
    }
  }

  /** A network node with its specs, its interfaces by name and its admission threshold. */
  class Node {
    const id: NodeId
    var state: bool
    const kind: NodeType
    const nodeLabel: Option<string>
    var interfaces: map<string, Interface>
    var mainInterface: Option<Interface>
    var cpuCount: int
    var cpuFree: real
    var memoryTotal: real
    var memoryFree: real
    var diskTotal: real
    var diskFree: real
    var timestamp: real
    var threshold: real

    /** `Node(id, state, type, label)`: no interfaces, zero specs stamped now, threshold 1. */
    constructor (id: NodeId, state: bool, kind: NodeType, nodeLabel: Option<string>, now: real)
      ensures this.id == id && this.state == state && this.kind == kind && this.nodeLabel == nodeLabel
      ensures interfaces == map[] && mainInterface.None?
      ensures cpuCount == 0 && cpuFree == 0.0 && memoryTotal == 0.0 && memoryFree == 0.0
      ensures diskTotal == 0.0 && diskFree == 0.0 && timestamp == now && threshold == 1.0
    {
      this.id := id;
      this.state := state;
      this.kind := kind;
      this.nodeLabel := nodeLabel;
      interfaces := map[];
      mainInterface := None;
      cpuCount := 0;
      cpuFree := 0.0;
      memoryTotal := 0.0;
      memoryFree := 0.0;
      diskTotal := 0.0;
      diskFree := 0.0;
      timestamp := now;
      threshold := 1.0;
    }

    method SetCpuCount(v: int, now: real)
      modifies this`cpuCount, this`timestamp
      ensures cpuCount == v && timestamp == now
    {
      cpuCount := v;
      timestamp := now;
    }

    method SetCpuFree(v: real, now: real)
      modifies this`cpuFree, this`timestamp
      ensures cpuFree == v && timestamp == now
    {
      cpuFree := v;
      timestamp := now;
    }

    method SetMemoryTotal(v: real, now: real)
      modifies this`memoryTotal, this`timestamp
      ensures memoryTotal == v && timestamp == now
    {
      memoryTotal := v;
      timestamp := now;
    }

    method SetMemoryFree(v: real, now: real)
      modifies this`memoryFree, this`timestamp
      ensures memoryFree == v && timestamp == now
    {
      memoryFree := v;
      timestamp := now;
    }

    method SetDiskTotal(v: real, now: real)
      modifies this`diskTotal, this`timestamp
      ensures diskTotal == v && timestamp == now
    {
      diskTotal := v;
      timestamp := now;
    }

    method SetDiskFree(v: real, now: real)
      modifies this`diskFree, this`timestamp
      ensures diskFree == v && timestamp == now
    {
      diskFree := v;
      timestamp := now;
    }

    method SetTimestamp(ts: real, now: real)
      modifies this`timestamp
      ensures timestamp == Stamp(ts, now)
    {
      timestamp := Stamp(ts, now);
    }
  }

  /** A directed link between two interfaces, with its specs. */
  class Link {
    const srcPort: Interface
    const dstPort: Interface
    var state: bool
    var capacity: real
    var bandwidth: real
    var delay: ExtReal
    var jitter: ExtReal
    var lossRate: real
    var timestamp: real

    /** `Link(src_port, dst_port, state)`: zero capacity and bandwidth, infinite delay and jitter, loss rate 1, stamped now. */
    constructor (srcPort: Interface, dstPort: Interface, state: bool, now: real)
      ensures this.srcPort == srcPort && this.dstPort == dstPort && this.state == state
      ensures capacity == 0.0 && bandwidth == 0.0 && delay == Inf && jitter == Inf
      ensures lossRate == 1.0 && timestamp == now
    {
      this.srcPort := srcPort;
      this.dstPort := dstPort;
      this.state := state;
      capacity := 0.0;
      bandwidth := 0.0;
      delay := Inf;
      jitter := Inf;
      lossRate := 1.0;
      timestamp := now;
    }

    method SetCapacity(v: real, now: real)
      modifies this`capacity, this`timestamp
      ensures capacity == v && timestamp == now
    {
      capacity := v;
      timestamp := now;
    }

    method SetBandwidth(v: real, now: real)
      modifies this`bandwidth, this`timestamp
      ensures bandwidth == v && timestamp == now
    {
      bandwidth := v;
      timestamp := now;
    }

    method SetDelay(v: ExtReal, now: real)
      modifies this`delay, this`timestamp
      ensures delay == v && timestamp == now
    {
      delay := v;
      timestamp := now;
    }

    method SetJitter(v: ExtReal, now: real)
      modifies this`jitter, this`timestamp
      ensures jitter == v && timestamp == now
    {
      jitter := v;
      timestamp := now;
    }

    method SetLossRate(v: real, now: real)
      modifies this`lossRate, this`timestamp
      ensures lossRate == v && timestamp == now
    {
      lossRate := v;
      timestamp := now;
    }

    method SetTimestamp(ts: real, now: real)
      modifies this`timestamp
      ensures timestamp == Stamp(ts, now)
    {
      timestamp := Stamp(ts, now);
    }
  }

  /**
   * What the store knows about a host interface, by MAC address or by IPv4
   * address: the node and interface name it belongs to, its other address,
   * and the switch port it was seen on. A missing key is `None`.
   */
  datatype HostRecord = HostRecord(
    nodeId: Option<NodeId>, name: Option<string>, ipv4: Option<string>, mac: Option<string>,
    dpid: Option<int>, portName: Option<string>, portNo: Option<int>)

  const NoRecord := HostRecord(None, None, None, None, None, None, None)

  /** The value of one record key. */
  datatype Attr = IdAttr(id: NodeId) | TextAttr(text: string) | NumAttr(n: int)

  function TextOf(s: Option<string>): Option<Attr>
  {
    if s.Some? then Some(TextAttr(s.value)) else None
  }

  function NumOf(n: Option<int>): Option<Attr>
  {
    if n.Some? then Some(NumAttr(n.value)) else None
  }

  /** `record.get(attr, None)`. */
  function RecordField(r: HostRecord, attr: string): Option<Attr>
  {
    if attr == "node_id" then (if r.nodeId.Some? then Some(IdAttr(r.nodeId.value)) else None)
    else if attr == "name" then TextOf(r.name)
    else if attr == "ipv4" then TextOf(r.ipv4)
    else if attr == "mac" then TextOf(r.mac)
    else if attr == "dpid" then NumOf(r.dpid)
    else if attr == "port_name" then TextOf(r.portName)
    else if attr == "port_no" then NumOf(r.portNo)
    else None
  }

  /** `d.setdefault(key, {})`: the record under `key`, or an empty one. */
  function RecordAt(m: map<string, HostRecord>, key: string): HostRecord
  {
    if key in m then m[key] else NoRecord
  }

  /**
   * Removing two keys one after the other removes both: `delete_interface`
   * deletes the two links of a port one after the other, and its contract
   * states the edges and port maps with both keys gone at once.
   */
  lemma RemoveBoth<K, V>(m: map<K, V>, a: K, b: K)
    ensures m - {a} - {b} == m - {a, b}
  {
  }

  /** The topology graph and its lookup maps. */
  class Topology {
    var nodes: map<NodeId, Node>
    var edges: map<(NodeId, NodeId), Link>
    var srcPortToDst: map<NodeId, map<PortRef, NodeId>>
    var numToName: map<NodeId, map<Option<int>, string>>
    var interfaces: map<string, HostRecord>
    var ips: map<string, HostRecord>

    /** Every node is stored under its own id, and every edge joins two nodes of the graph. */
    ghost predicate Valid()
      reads this`nodes, this`edges
    {
      (forall id :: id in nodes ==> nodes[id].id == id)
      && (forall e :: e in edges ==> e.0 in nodes && e.1 in nodes)
    }

    constructor ()
      ensures Valid()
      ensures nodes == map[] && edges == map[] && srcPortToDst == map[] && numToName == map[]
      ensures interfaces == map[] && ips == map[]
    {
      nodes := map[];
      edges := map[];
      srcPortToDst := map[];
      numToName := map[];
      interfaces := map[];
      ips := map[];
    }

    /** `get_node`. */
    function GetNode(id: NodeId): (r: Option<Node>)
      reads this`nodes
      ensures r.Some? <==> id in nodes
      ensures r.Some? ==> r.value == nodes[id]
    {
      if id in nodes then Some(nodes[id]) else None
    }

    /**
     * `get_interface`: a number known for the node is translated to its
     * port name; anything else is looked up as a name (so an unknown number
     * finds nothing).
     */
    function GetInterface(nodeId: NodeId, ref: PortRef): (r: Option<Interface>)
      reads this`nodes, this`numToName, nodes.Values`interfaces
      ensures r.Some? ==> nodeId in nodes && r.value in nodes[nodeId].interfaces.Values
      ensures nodeId in nodes && ref.ByName? ==>
        r == if ref.name in nodes[nodeId].interfaces then Some(nodes[nodeId].interfaces[ref.name]) else None
    {
      if nodeId !in nodes then None
      else
        var ifaces := nodes[nodeId].interfaces;
        match ref
        case ByName(n) => if n in ifaces then Some(ifaces[n]) else None
        case ByNum(k) =>
          if nodeId in numToName && k in numToName[nodeId] && numToName[nodeId][k] in ifaces
          then Some(ifaces[numToName[nodeId][k]]) else None
    }

    /** `get_link`. */
    function GetLink(src: NodeId, dst: NodeId): (r: Option<Link>)
      reads this`edges
      ensures r.Some? <==> (src, dst) in edges
    {
      if (src, dst) in edges then Some(edges[(src, dst)]) else None
    }

    /** `get_dst_at_port`: the node the port leads to, only while that node is still in the graph. */
    function GetDstAtPort(src: NodeId, ref: PortRef): (r: Option<Node>)
      reads this`srcPortToDst, this`nodes
      ensures r.Some? ==> src in srcPortToDst && ref in srcPortToDst[src] && srcPortToDst[src][ref] in nodes
      ensures r.Some? ==> r.value == nodes[srcPortToDst[src][ref]]
    {
      if src in srcPortToDst && ref in srcPortToDst[src] then GetNode(srcPortToDst[src][ref]) else None
    }

    /** `get_link_at_port`: the link from the node out of the port, if the port leads somewhere. */
    function GetLinkAtPort(src: NodeId, ref: PortRef): (r: Option<Link>)
      reads this`srcPortToDst, this`nodes, this`edges
      ensures GetDstAtPort(src, ref).None? ==> r.None?
      ensures GetDstAtPort(src, ref).Some? ==> r == GetLink(src, GetDstAtPort(src, ref).value.id)
    {
      var dst := GetDstAtPort(src, ref);
      if dst.Some? then GetLink(src, dst.value.id) else None
    }

    /** `get_links_at_port`: both directions of the link at the port, or two `None`s. */
    function GetLinksAtPort(src: NodeId, ref: PortRef): (r: (Option<Link>, Option<Link>))
      reads this
      ensures GetDstAtPort(src, ref).None? ==> r == (None, None)
      ensures GetDstAtPort(src, ref).Some? ==>
        var d := GetDstAtPort(src, ref).value.id; r == (GetLink(src, d), GetLink(d, src))
    {
      var dst := GetDstAtPort(src, ref);
      if dst.Some? then (GetLink(src, dst.value.id), GetLink(dst.value.id, src)) else (None, None)
    }

    /** `get_by_mac`: a key of the record kept for the MAC address. */
    function GetByMac(mac: string, attr: string): (r: Option<Attr>)
      reads this
      ensures mac !in interfaces ==> r.None?
    {
      if mac in interfaces then RecordField(interfaces[mac], attr) else None
    }

    /** `get_by_ip`: a key of the record kept for the IPv4 address. */
    function GetByIp(ipv4: string, attr: string): (r: Option<Attr>)
      reads this
      ensures ipv4 !in ips ==> r.None?
    {
      if ipv4 in ips then RecordField(ips[ipv4], attr) else None
    }

    /**
     * `add_node`: always succeeds; a node already under the id is replaced by
     * a new one (its edges stay). The threshold defaults to 1.
     */
    method AddNode(id: NodeId, state: bool, kind: NodeType, nodeLabel: Option<string>, threshold: Option<real>, now: real)
      returns (ok: bool)
      requires Valid()
      modifies this
      ensures Valid()
      ensures ok
      ensures id in nodes && fresh(nodes[id]) && nodes == old(nodes)[id := nodes[id]]
      ensures nodes[id].id == id && nodes[id].state == state && nodes[id].kind == kind && nodes[id].nodeLabel == nodeLabel
      ensures nodes[id].interfaces == map[] && nodes[id].mainInterface.None? && nodes[id].timestamp == now
      ensures nodes[id].threshold == if threshold.Some? then threshold.value else 1.0
      ensures edges == old(edges) && srcPortToDst == old(srcPortToDst) && numToName == old(numToName)
      ensures interfaces == old(interfaces) && ips == old(ips)
    {
      var node := new Node(id, state, kind, nodeLabel, now);
      node.threshold := if threshold.Some? then threshold.value else 1.0;
      nodes := nodes[id := node];
      ok := true;
    }

    /**
     * `delete_node`: removes the node (an unknown id is ignored), every edge
     * touching it and its port map; the other maps are left as they are.
     */
    method DeleteNode(id: NodeId)
      requires Valid()
      modifies this
      ensures Valid()
      ensures nodes == old(nodes) - {id}
      ensures edges == map e | e in old(edges) && e.0 != id && e.1 != id :: old(edges)[e]
      ensures srcPortToDst == old(srcPortToDst) - {id}
      ensures numToName == old(numToName) && interfaces == old(interfaces) && ips == old(ips)
    {
      nodes := nodes - {id};
      edges := map e | e in edges && e.0 != id && e.1 != id :: edges[e];
      srcPortToDst := srcPortToDst - {id};
    }

    /**
     * `add_interface`: on an existing node, a new interface under its name,
     * its number mapped to that name, and, for a non-empty MAC or IPv4
     * address, the address record pointed at the node and name (its other
     * keys kept). On an unknown node nothing changes.
     */
    method AddInterface(nodeId: NodeId, name: string, num: Option<int>, mac: Option<string>, ipv4: Option<string>, now: real)
      returns (ok: bool)
      requires Valid()
      modifies this`numToName, this`interfaces, this`ips, (if nodeId in nodes then {nodes[nodeId]} else {})`interfaces
      ensures Valid()
      ensures ok <==> nodeId in old(nodes)
      ensures nodes == old(nodes) && edges == old(edges) && srcPortToDst == old(srcPortToDst)
      ensures !ok ==> numToName == old(numToName) && interfaces == old(interfaces) && ips == old(ips)
      ensures ok ==> name in nodes[nodeId].interfaces
      ensures ok ==>
        var iface := nodes[nodeId].interfaces[name];
        && fresh(iface) && iface.name == name && iface.num == num && iface.mac == mac && iface.ipv4 == ipv4
        && nodes[nodeId].interfaces == old(nodes[nodeId].interfaces)[name := iface]
        && numToName == old(numToName)[nodeId := (if nodeId in old(numToName) then old(numToName)[nodeId] else map[])[num := name]]
        && interfaces == (if Truthy(mac) then old(interfaces)[mac.value := RecordAt(old(interfaces), mac.value).(nodeId := Some(nodeId), name := Some(name), ipv4 := ipv4)] else old(interfaces))
        && ips == (if Truthy(ipv4) then old(ips)[ipv4.value := RecordAt(old(ips), ipv4.value).(nodeId := Some(nodeId), name := Some(name), mac := mac)] else old(ips))
        && GetInterface(nodeId, ByName(name)) == Some(iface)
        && GetInterface(nodeId, ByNum(num)) == Some(iface)
      ensures ok && Truthy(mac) ==>
        GetByMac(mac.value, "node_id") == Some(IdAttr(nodeId)) && GetByMac(mac.value, "name") == Some(TextAttr(name))
      ensures ok && Truthy(ipv4) ==>
        GetByIp(ipv4.value, "node_id") == Some(IdAttr(nodeId)) && GetByIp(ipv4.value, "name") == Some(TextAttr(name))
    {
      if nodeId !in nodes {
        return false;
      }
      var node := nodes[nodeId];
      var iface := new Interface(name, num, mac, ipv4, now);
      node.interfaces := node.interfaces[name := iface];
      var numbers := if nodeId in numToName then numToName[nodeId] else map[];
      numToName := numToName[nodeId := numbers[num := name]];
      RecordHost(nodeId, name, mac, ipv4);
      FindByNum(nodeId, num, name, iface);
      if Truthy(mac) {
        HostFound(mac.value, nodeId, name);
      }
      if Truthy(ipv4) {
        HostFound(ipv4.value, nodeId, name);
      }
      ok := true;
    }

    /** An address whose record names a node and an interface is found under both keys. */
    lemma HostFound(address: string, nodeId: NodeId, name: string)
      ensures address in interfaces && interfaces[address].nodeId == Some(nodeId) && interfaces[address].name == Some(name) ==>
        GetByMac(address, "node_id") == Some(IdAttr(nodeId)) && GetByMac(address, "name") == Some(TextAttr(name))
      ensures address in ips && ips[address].nodeId == Some(nodeId) && ips[address].name == Some(name) ==>
        GetByIp(address, "node_id") == Some(IdAttr(nodeId)) && GetByIp(address, "name") == Some(TextAttr(name))
    {
    }

    /** A number mapped to a port name finds the interface of that name. */
    lemma FindByNum(nodeId: NodeId, num: Option<int>, name: string, iface: Interface)
      requires nodeId in nodes && name in nodes[nodeId].interfaces && nodes[nodeId].interfaces[name] == iface
      requires nodeId in numToName && num in numToName[nodeId] && numToName[nodeId][num] == name
      ensures GetInterface(nodeId, ByNum(num)) == Some(iface)
    {
    }

    /** The address records of `add_interface`, written only for a non-empty address. */
    method RecordHost(nodeId: NodeId, name: string, mac: Option<string>, ipv4: Option<string>)
      modifies this`interfaces, this`ips
      ensures interfaces == (if Truthy(mac) then old(interfaces)[mac.value := RecordAt(old(interfaces), mac.value).(nodeId := Some(nodeId), name := Some(name), ipv4 := ipv4)] else old(interfaces))
      ensures ips == (if Truthy(ipv4) then old(ips)[ipv4.value := RecordAt(old(ips), ipv4.value).(nodeId := Some(nodeId), name := Some(name), mac := mac)] else old(ips))
    {
      if Truthy(mac) {
        interfaces := interfaces[mac.value := RecordAt(interfaces, mac.value).(nodeId := Some(nodeId), name := Some(name), ipv4 := ipv4)];
      }
      if Truthy(ipv4) {
        ips := ips[ipv4.value := RecordAt(ips, ipv4.value).(nodeId := Some(nodeId), name := Some(name), mac := mac)];
      }
    }

    /**
     * `delete_link`: removes the edge if present and drops the whole port
     * map of the source node, not only the entry of this link's port.
     */
    method DeleteLink(src: NodeId, dst: NodeId)
      requires Valid()
      modifies this`edges, this`srcPortToDst
      ensures Valid()
      ensures edges == old(edges) - {(src, dst)}
      ensures srcPortToDst == old(srcPortToDst) - {src}
      ensures nodes == old(nodes) && numToName == old(numToName) && interfaces == old(interfaces) && ips == old(ips)
      ensures GetLink(src, dst).None?
    {
      edges := edges - {(src, dst)};
      srcPortToDst := srcPortToDst - {src};
    }

    /**
     * `add_link`: when both ports resolve, a new link from `src` to `dst`
     * (replacing any previous one) and the source port, by the reference
     * given and by its number, mapped to `dst`. Otherwise nothing changes.
     */
    method AddLink(src: NodeId, dst: NodeId, srcRef: PortRef, dstRef: PortRef, state: bool, now: real)
      returns (ok: bool)
      requires Valid()
      modifies this`edges, this`srcPortToDst
      ensures Valid()
      ensures ok <==> old(GetInterface(src, srcRef)).Some? && old(GetInterface(dst, dstRef)).Some?
      ensures nodes == old(nodes) && numToName == old(numToName) && interfaces == old(interfaces) && ips == old(ips)
      ensures !ok ==> edges == old(edges) && srcPortToDst == old(srcPortToDst)
      ensures ok ==> (src, dst) in edges
      ensures ok ==>
        var link := edges[(src, dst)];
        var srcPort := old(GetInterface(src, srcRef)).value;
        && fresh(link) && link.srcPort == srcPort && link.dstPort == old(GetInterface(dst, dstRef)).value
        && link.state == state && link.timestamp == now
        && edges == old(edges)[(src, dst) := link]
        && srcPortToDst == old(srcPortToDst)[src := (if src in old(srcPortToDst) then old(srcPortToDst)[src] else map[])[srcRef := dst][ByNum(srcPort.num) := dst]]
        && GetLink(src, dst) == Some(link)
        && GetDstAtPort(src, srcRef) == Some(nodes[dst])
        && GetDstAtPort(src, ByNum(srcPort.num)) == Some(nodes[dst])
    {
      var srcPort := GetInterface(src, srcRef);
      if srcPort.None? {
        return false;
      }
      var dstPort := GetInterface(dst, dstRef);
      if dstPort.None? {
        return false;
      }
      var link := new Link(srcPort.value, dstPort.value, state, now);
      edges := edges[(src, dst) := link];
      var ports := if src in srcPortToDst then srcPortToDst[src] else map[];
      srcPortToDst := srcPortToDst[src := ports[srcRef := dst][ByNum(srcPort.value.num) := dst]];
      DstAtPort(src, srcRef, dst);
      DstAtPort(src, ByNum(srcPort.value.num), dst);
      ok := true;
    }

    /** A port mapped to a node still in the graph leads to that node. */
    lemma DstAtPort(src: NodeId, ref: PortRef, dst: NodeId)
      requires src in srcPortToDst && ref in srcPortToDst[src] && srcPortToDst[src][ref] == dst && dst in nodes
      ensures GetDstAtPort(src, ref) == Some(nodes[dst])
    {
    }

    /**
     * `delete_interface`: on an existing node, removes the interface by name
     * and, when that port leads to a node, the links in both directions
     * (dropping the port maps of both ends).
     */
    method DeleteInterface(nodeId: NodeId, name: string)
      requires Valid()
      modifies this`edges, this`srcPortToDst, (if nodeId in nodes then {nodes[nodeId]} else {})`interfaces
      ensures Valid()
      ensures nodes == old(nodes) && numToName == old(numToName) && interfaces == old(interfaces) && ips == old(ips)
      ensures nodeId !in nodes ==> edges == old(edges) && srcPortToDst == old(srcPortToDst)
      ensures nodeId in nodes ==> nodes[nodeId].interfaces == old(nodes[nodeId].interfaces) - {name}
      ensures nodeId in nodes && old(GetDstAtPort(nodeId, ByName(name))).None? ==>
        edges == old(edges) && srcPortToDst == old(srcPortToDst)
      ensures nodeId in nodes && old(GetDstAtPort(nodeId, ByName(name))).Some? ==>
        var d := old(GetDstAtPort(nodeId, ByName(name))).value.id;
        edges == old(edges) - {(nodeId, d), (d, nodeId)} && srcPortToDst == old(srcPortToDst) - {nodeId, d}
    {
      if nodeId !in nodes {
        return;
      }
      var node := nodes[nodeId];
      node.interfaces := node.interfaces - {name};
      var dst := GetDstAtPort(nodeId, ByName(name));
      if dst.Some? {
        var d := dst.value.id;
        DeleteLink(nodeId, d);
        DeleteLink(d, nodeId);
        RemoveBoth(old(edges), (nodeId, d), (d, nodeId));
        RemoveBoth(old(srcPortToDst), nodeId, d);
      }
    }

    /** `set_main_interface`: on an existing node, the named interface (or none) becomes its main one. */
    method SetMainInterface(nodeId: NodeId, name: Option<string>) returns (ok: bool)
      modifies (if nodeId in nodes then {nodes[nodeId]} else {})`mainInterface
      ensures ok <==> nodeId in nodes
      ensures ok ==>
        nodes[nodeId].mainInterface ==
          if name.Some? && name.value in nodes[nodeId].interfaces then Some(nodes[nodeId].interfaces[name.value]) else None
    {
      if nodeId !in nodes {
        return false;
      }
      var node := nodes[nodeId];
      node.mainInterface := if name.Some? && name.value in node.interfaces then Some(node.interfaces[name.value]) else None;
      ok := true;
    }
  }

  /**
   * The key an attribute gets in `as_dict`: with `flat` and a non-empty
   * prefix, `prefix_key`; otherwise the prefix (possibly empty) glued to the key.
   */
  function FlatKey(flat: bool, prefix: string, key: string): string
  {
    if flat && prefix != "" then prefix + "_" + key else prefix + key
  }

  /** Flattening nests: a nested object's attribute is named by the path of attribute names joined with `_`. */
  lemma FlatKeyNests(parent: string, child: string, key: string)
    requires parent != "" && child != ""
    ensures FlatKey(true, FlatKey(true, parent, child), key) == parent + "_" + child + "_" + key
  {
  }
}
