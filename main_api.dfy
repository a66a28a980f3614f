/**
 * The REST interface's input handling: typed field lookup in a request's
 * JSON body, the validate-then-apply handling of a node addition (every
 * field is checked before the topology is touched, and a failing step
 * rolls the node back), the resolution of a node id given either as is or
 * as a switch's hexadecimal datapath id, and the coercion of a request
 * record's payload fields. HTTP itself, the body's JSON parsing and the
 * database writes are outside the model; statuses are the integer codes
 * the handlers return (a handler that returns nothing answers 200).
 */
module MainApi {
  import opened Common
  import opened TopologyModel
  import opened TopologyState
  import opened Unicode

  const HttpSuccess := 200
  const HttpExists := 303
  const HttpBadRequest := 400
  const HttpNotFound := 404
  const HttpInternal := 500

  /** A decoded JSON value as Python's `json` module returns it; a number with a fraction or exponent is a float. */
  datatype Json =
    | JNull
    | JBool(b: bool)
    | JInt(i: int)
    | JFloat(r: real)
    | JStr(s: string)
    | JList(items: seq<Json>)
    | JObject(fields: map<string, Json>)

  /** Python truthiness of a JSON value. */
  predicate JsonTruthy(v: Json)
  {
    match v
    case JNull => false
    case JBool(b) => b
    case JInt(i) => i != 0
    case JFloat(r) => r != 0.0
    case JStr(s) => s != ""
    case JList(xs) => xs != []
    case JObject(m) => m != map[]
  }

  /** The types the handlers check with `isinstance`. */
  datatype PyType = BoolType | IntType | FloatType | StrType

  /** `isinstance(v, t)`: a boolean is also an int, and an integer is not a float. */
  predicate IsInstance(v: Json, t: PyType)
  {
    match t
    case BoolType => v.JBool?
    case IntType => v.JInt? || v.JBool?
    case FloatType => v.JFloat?
    case StrType => v.JStr?
  }

  /** The exceptions the handlers catch and answer with 400. */
  datatype Error = KeyError | TypeError | ValueError

  /** A value, or the exception raised instead. */
  datatype Got<T> = Ok(value: T) | Raise(error: Error)

  /** `json[key]`: only an object can be indexed by a string. */
  function Index(j: Json, key: string): (r: Got<Json>)
    ensures r.Ok? <==> j.JObject? && key in j.fields
    ensures r.Ok? ==> r.value == j.fields[key]
    ensures r.Raise? ==> r.error == if j.JObject? then KeyError else TypeError
  {
    match j
    case JObject(m) => if key in m then Ok(m[key]) else Raise(KeyError)
    case _ => Raise(TypeError)
  }

  /** The field is present and, when a type is asked for, has that type. */
  predicate Accepted(j: Json, key: string, ty: Option<PyType>)
  {
    j.JObject? && key in j.fields && (ty.None? || IsInstance(j.fields[key], ty.value))
  }

  /**
   * `_get_post`: the field's value when it is present with the asked type;
   * otherwise the lookup's exception for a required field (a `TypeError`
   * for a value of the wrong type), and `ret` for an optional one.
   */
  function GetPost(j: Json, key: string, ty: Option<PyType>, required: bool, ret: Json): (r: Got<Json>)
    ensures Accepted(j, key, ty) ==> r == Ok(j.fields[key])
    ensures !Accepted(j, key, ty) && !required ==> r == Ok(ret)
    ensures r.Raise? <==> required && !Accepted(j, key, ty)
    ensures r.Raise? ==> r.error == (if j.JObject? && key !in j.fields then KeyError else TypeError)
  {
    var v := Index(j, key);
    if v.Ok? && (ty.None? || IsInstance(v.value, ty.value)) then Ok(v.value)
    else if required then Raise(if v.Raise? then v.error else TypeError)
    else Ok(ret)
  }

  /** An optional string field: `None` when missing or not a string. */
  function OptStr(j: Json, key: string): (r: Option<string>)
    ensures r.Some? <==> Accepted(j, key, Some(StrType))
    ensures r.Some? ==> j.fields[key] == JStr(r.value)
  {
    var v := GetPost(j, key, Some(StrType), false, JNull);
    if v.value.JStr? then Some(v.value.s) else None
  }

  /** An optional float field: `None` when missing or not a float (an integer is not one). */
  function OptFloat(j: Json, key: string): (r: Option<real>)
    ensures r.Some? <==> Accepted(j, key, Some(FloatType))
    ensures r.Some? ==> j.fields[key] == JFloat(r.value)
  {
    var v := GetPost(j, key, Some(FloatType), false, JNull);
    if v.value.JFloat? then Some(v.value.r) else None
  }

  /** An optional int field: `None` when missing or not an int; a boolean counts as 0 or 1. */
  function OptInt(j: Json, key: string): (r: Option<int>)
    ensures r.Some? <==> Accepted(j, key, Some(IntType))
  {
    var v := GetPost(j, key, Some(IntType), false, JNull);
    match v.value
    case JInt(i) => Some(i)
    case JBool(b) => Some(if b then 1 else 0)
    case _ => None
  }

  /**
   * `for x in v`: a list gives its items and a string its characters. A
   * dictionary gives its keys, which are strings, and every handler then
   * indexes them by name and fails with a `TypeError`; the model raises at
   * once for a non-empty dictionary. Anything else is not iterable.
   */
  function Iterate(v: Json): (r: Got<seq<Json>>)
    ensures v.JList? ==> r == Ok(v.items)
    ensures r.Ok? ==> forall x :: x in r.value && !v.JList? ==> x.JStr?
  {
    match v
    case JList(xs) => Ok(xs)
    case JStr(s) => Ok(seq(|s|, i requires 0 <= i < |s| => JStr([s[i]])))
    case JObject(m) => if m == map[] then Ok([]) else Raise(TypeError)
    case _ => Raise(TypeError)
  }

  /** `key in v`: a key of an object, an item of a list, a substring of a string; other values raise. */
  function Contains(v: Json, key: string): (r: Got<bool>)
    ensures v.JObject? ==> r == Ok(key in v.fields)
  {
    match v
    case JObject(m) => Ok(key in m)
    case JList(xs) => Ok(JStr(key) in xs)
    case JStr(s) => Ok(exists i :: 0 <= i <= |s| && key <= s[i..])
    case _ => Raise(TypeError)
  }

  /**
   * The node identifier a JSON id denotes: a string or an integer (a
   * boolean being the integer 0 or 1). A list or an object cannot be a
   * dictionary key; `None` and floats are not identifiers of the model.
   */
  function IdOf(v: Json): (r: Got<NodeId>)
    ensures v.JStr? ==> r == Ok(StrId(v.s))
    ensures v.JInt? ==> r == Ok(IntId(v.i))
  {
    match v
    case JStr(s) => Ok(StrId(s))
    case JInt(i) => Ok(IntId(i))
    case JBool(b) => Ok(IntId(if b then 1 else 0))
    case _ => Raise(TypeError)
  }

  /** One queued topology call of `add_node`. */
  datatype Step =
    | AddNodeStep(id: NodeId, state: bool, kind: NodeType, nodeLabel: Option<string>, threshold: Option<real>)
    | AddInterfaceStep(nodeId: NodeId, name: string, num: Option<int>, mac: Option<string>, ipv4: Option<string>)
    | SetMainStep(nodeId: NodeId, mainInterface: Option<string>)

  /** The id `add_node` reads first: a required field of any type, that must denote an identifier. */
  function RequestedId(body: Json): (r: Got<NodeId>)
    ensures r.Ok? ==> body.JObject? && "id" in body.fields && IdOf(body.fields["id"]) == r
  {
    var v := GetPost(body, "id", None, true, JNull);
    if v.Raise? then Raise(v.error) else IdOf(v.value)
  }

  /** An interface description is valid when it is an object with a string name. */
  predicate ValidInterface(item: Json)
  {
    Accepted(item, "name", Some(StrType))
  }

  /** The interface steps of `add_node`, one per description, all validated before any is run. */
  function InterfaceSteps(id: NodeId, items: seq<Json>): (r: Got<seq<Step>>)
    ensures r.Ok? <==> forall i :: 0 <= i < |items| ==> ValidInterface(items[i])
    ensures r.Ok? ==> |r.value| == |items|
    ensures r.Ok? ==> forall i :: 0 <= i < |items| ==>
      r.value[i] == AddInterfaceStep(id, items[i].fields["name"].s, OptInt(items[i], "num"),
                                     OptStr(items[i], "mac"), OptStr(items[i], "ipv4"))
  {
    if items == [] then Ok([])
    else
      var name := GetPost(items[0], "name", Some(StrType), true, JNull);
      var rest := InterfaceSteps(id, items[1..]);
      if name.Raise? then Raise(name.error)
      else if rest.Raise? then Raise(rest.error)
      else
        Ok([AddInterfaceStep(id, name.value.s, OptInt(items[0], "num"), OptStr(items[0], "mac"), OptStr(items[0], "ipv4"))]
           + rest.value)
  }

  /**
   * The queue `add_node` builds for a new id: the node (state and type
   * required, label and threshold optional), then, when the body lists
   * interfaces, one step per interface and the main-interface step.
   */
  function NodePlan(body: Json, id: NodeId): (r: Got<seq<Step>>)
    requires body.JObject?
    ensures r.Ok? ==> Planned(id, r.value)
    ensures r.Ok? <==>
      && Accepted(body, "state", Some(BoolType))
      && Accepted(body, "type", Some(StrType)) && NodeTypeNamed(body.fields["type"].s).Some?
      && ("interfaces" in body.fields ==>
            Iterate(body.fields["interfaces"]).Ok?
            && forall x :: x in Iterate(body.fields["interfaces"]).value ==> ValidInterface(x))
    ensures r.Ok? ==> r.value[0] == AddNodeStep(id, body.fields["state"].b, NodeTypeNamed(body.fields["type"].s).value,
                                                OptStr(body, "label"), OptFloat(body, "threshold"))
  {
    var state := GetPost(body, "state", Some(BoolType), true, JNull);
    var kindName := GetPost(body, "type", Some(StrType), true, JNull);
    if state.Raise? then Raise(state.error)
    else if kindName.Raise? then Raise(kindName.error)
    else
      var kind := NodeTypeNamed(kindName.value.s);
      if kind.None? then Raise(ValueError)
      else
        var head := AddNodeStep(id, state.value.b, kind.value, OptStr(body, "label"), OptFloat(body, "threshold"));
        if "interfaces" !in body.fields then Ok([head])
        else
          var items := Iterate(body.fields["interfaces"]);
          if items.Raise? then Raise(items.error)
          else
            var steps := InterfaceSteps(id, items.value);
            if steps.Raise? then Raise(steps.error)
            else Ok([head] + steps.value + [SetMainStep(id, OptStr(body, "main_interface"))])
  }

  /** A queue as `add_node` builds it: the node first, then its interfaces, and at most a final main-interface step, all for `id`. */
  predicate Planned(id: NodeId, steps: seq<Step>)
  {
    && |steps| >= 1 && steps[0].AddNodeStep? && steps[0].id == id
    && forall i :: 1 <= i < |steps| ==>
         || (steps[i].AddInterfaceStep? && steps[i].nodeId == id)
         || (steps[i].SetMainStep? && steps[i].nodeId == id && i == |steps| - 1)
  }

  /** The interface names a queue adds. */
  function InterfaceNames(steps: seq<Step>): set<string>
  {
    set s | s in steps && s.AddInterfaceStep? :: s.name
  }

  /** Appending a step adds at most its own interface name. */
  lemma InterfaceNamesSnoc(steps: seq<Step>, step: Step)
    ensures InterfaceNames(steps + [step]) ==
      InterfaceNames(steps) + (if step.AddInterfaceStep? then {step.name} else {})
  {
    assert forall s :: s in steps + [step] <==> s in steps || s == step;
  }

  /** Characters Python's `int(s, 16)` reads as hexadecimal digits. */
  function HexDigitValue(c: char): Option<nat>
  {
    if '0' <= c <= '9' then Some(c as nat - '0' as nat)
    else if 'a' <= c <= 'f' then Some(c as nat - 'a' as nat + 10)
    else if 'A' <= c <= 'F' then Some(c as nat - 'A' as nat + 10)
    else None
  }

  /** The value of a string of hexadecimal digits, most significant first. */
  function HexValue(ds: string): (r: Option<nat>)
    ensures r.Some? <==> forall i :: 0 <= i < |ds| ==> HexDigitValue(ds[i]).Some?
  {
    if ds == [] then Some(0)
    else
      var init := HexValue(ds[..|ds| - 1]);
      var last := HexDigitValue(ds[|ds| - 1]);
      if init.Some? && last.Some? then Some(init.value * 16 + last.value) else None
  }

  /**
   * `int(s, 16)`: an optional sign, an optional `0x` or `0X` prefix, and at
   * least one hexadecimal digit; anything else raises `ValueError`.
   */
  function ParseHex(s: string): (r: Option<int>)
  {
    var neg := |s| > 0 && s[0] == '-';
    var unsigned := if |s| > 0 && s[0] in "+-" then s[1..] else s;
    var digits := if |unsigned| >= 2 && unsigned[0] == '0' && unsigned[1] in "xX" then unsigned[2..] else unsigned;
    if digits == [] then None
    else
      var v := HexValue(digits);
      if v.None? then None
      else
        var m: int := v.value;
        Some(if neg then -m else m)
  }

  lemma DigitCharValue(d: nat)
    requires d < 16
    ensures HexDigitValue(DigitChar(d)) == Some(d)
  {
    assert DigitChar(d) == "0123456789abcdef"[d];
  }

  /** The digits of a number read back as that number. */
  lemma {:induction false} HexValueOfDigits(n: nat)
    ensures HexValue(HexString(n)) == Some(n)
    decreases n
  {
    var ds := HexString(n);
    if n < 16 {
      DigitCharValue(n);
      assert ds[..0] == [];
    } else {
      HexValueOfDigits(n / 16);
      DigitCharValue(n % 16);
      assert ds[..|ds| - 1] == HexString(n / 16);
    }
  }

  /** The leading digit is `0` only for zero. */
  lemma {:induction false} LeadingDigit(n: nat)
    ensures HexString(n)[0] == '0' <==> n == 0
    decreases n
  {
    if n < 16 {
      DigitCharValue(n);
    } else {
      LeadingDigit(n / 16);
      assert HexString(n)[0] == HexString(n / 16)[0];
    }
  }

  /** A switch's id in hexadecimal, as its label shows it, parses back to its datapath id. */
  lemma ParseHexRoundTrip(n: nat)
    ensures ParseHex(HexString(n)) == Some(n)
  {
    var ds := HexString(n);
    HexValueOfDigits(n);
    LeadingDigit(n);
    DigitCharValue(if n < 16 then n else 0);
    assert ds[0] != '-' && ds[0] != '+' by {
      var k := HexDigitValue(ds[0]);
      assert k.Some? by {
        assert HexValue(ds).Some?;
      }
    }
  }

  /**
   * `update_node_specs`'s id resolution: the id as given when such a node
   * exists, else the node whose integer id the text denotes in
   * hexadecimal; `None` answers 404.
   */
  function Resolve(ids: set<NodeId>, text: string): (r: Option<NodeId>)
    ensures r.Some? ==> r.value in ids
    ensures StrId(text) in ids ==> r == Some(StrId(text))
    ensures r.Some? && r.value != StrId(text) ==> r.value.IntId? && ParseHex(text) == Some(r.value.n)
  {
    if StrId(text) in ids then Some(StrId(text))
    else
      var n := ParseHex(text);
      if n.Some? && IntId(n.value) in ids then Some(IntId(n.value)) else None
  }

  /** A switch is found by its hexadecimal datapath id unless a node has that text as its own id. */
  lemma SwitchFoundByHexId(ids: set<NodeId>, dpid: nat)
    requires IntId(dpid) in ids && StrId(HexString(dpid)) !in ids
    ensures Resolve(ids, HexString(dpid)) == Some(IntId(dpid))
  {
    ParseHexRoundTrip(dpid);
  }

  /** The node specs of a `PUT /node_specs` body; the timestamp defaults to now. */
  datatype NodeSpecs = NodeSpecs(
    cpuCount: Option<int>, cpuFree: Option<real>, memoryTotal: Option<real>, memoryFree: Option<real>,
    diskTotal: Option<real>, diskFree: Option<real>, timestamp: real)

  /** The specs of one interface in that body. */
  datatype InterfaceSpecs = InterfaceSpecs(
    name: string, capacity: Option<real>, bandwidthUp: Option<real>, bandwidthDown: Option<real>,
    txPackets: Option<int>, rxPackets: Option<int>)

  function NodeSpecsOf(body: Json, now: real): (r: NodeSpecs)
    ensures r.timestamp == if Accepted(body, "timestamp", Some(FloatType)) then body.fields["timestamp"].r else now
  {
    var ts := GetPost(body, "timestamp", Some(FloatType), false, JFloat(now)).value;
    NodeSpecs(OptInt(body, "cpu_count"), OptFloat(body, "cpu_free"), OptFloat(body, "memory_total"),
              OptFloat(body, "memory_free"), OptFloat(body, "disk_total"), OptFloat(body, "disk_free"),
              if ts.JFloat? then ts.r else now)
  }

  /** The interface specs, each requiring a string name. */
  function InterfaceSpecsOf(items: seq<Json>): (r: Got<seq<InterfaceSpecs>>)
    ensures r.Ok? <==> forall i :: 0 <= i < |items| ==> ValidInterface(items[i])
    ensures r.Ok? ==> |r.value| == |items|
    ensures r.Ok? ==> forall i :: 0 <= i < |items| ==> r.value[i].name == items[i].fields["name"].s
  {
    if items == [] then Ok([])
    else
      var name := GetPost(items[0], "name", Some(StrType), true, JNull);
      var rest := InterfaceSpecsOf(items[1..]);
      if name.Raise? then Raise(name.error)
      else if rest.Raise? then Raise(rest.error)
      else
        var i := items[0];
        Ok([InterfaceSpecs(name.value.s, OptFloat(i, "capacity"), OptFloat(i, "bandwidth_up"),
                           OptFloat(i, "bandwidth_down"), OptInt(i, "tx_packets"), OptInt(i, "rx_packets"))]
           + rest.value)
  }

  /**
   * The validation of a `PUT /node_specs` body: every spec is optional
   * (one of the wrong type is ignored), but an `interfaces` entry must be
   * a list of objects with string names, and a body that is neither an
   * object nor a list cannot be searched for that key.
   */
  function SpecsPlan(body: Json, now: real): (r: Got<(NodeSpecs, seq<InterfaceSpecs>)>)
    ensures r.Ok? ==> r.value.0 == NodeSpecsOf(body, now)
    ensures body.JObject? && "interfaces" !in body.fields ==> r == Ok((NodeSpecsOf(body, now), []))
    ensures body.JObject? && "interfaces" in body.fields && body.fields["interfaces"].JList? ==>
      (r.Ok? <==> forall x :: x in body.fields["interfaces"].items ==> ValidInterface(x))
  {
    var has := Contains(body, "interfaces");
    if has.Raise? then Raise(has.error)
    else if !has.value then Ok((NodeSpecsOf(body, now), []))
    else
      var v := Index(body, "interfaces");
      if v.Raise? then Raise(v.error)
      else
        var items := Iterate(v.value);
        if items.Raise? then Raise(items.error)
        else
          var specs := InterfaceSpecsOf(items.value);
          if specs.Raise? then Raise(specs.error) else Ok((NodeSpecsOf(body, now), specs.value))
  }

  /** `add_request`'s coercion of `result`: a string is encoded, and a falsy value is kept as it is. */
  datatype Payload = Encoded(bytes: seq<Byte>) | Kept(value: Json)

  /** `data`: a string is encoded; anything else raises (a JSON value is never bytes). */
  function CoerceData(data: Json): (r: Got<seq<Byte>>)
    ensures r.Ok? <==> data.JStr?
    ensures r.Ok? ==> DecodeUtf8(r.value) == Some(data.s)
    ensures r.Raise? ==> r.error == TypeError
  {
    if data.JStr? then Utf8RoundTrip(data.s); Ok(Utf8(data.s)) else Raise(TypeError)
  }

  /** `result`: a string is encoded, a falsy value (a missing one included) is kept, and anything else raises. */
  function CoerceResult(result: Json): (r: Got<Payload>)
    ensures r.Raise? <==> !result.JStr? && JsonTruthy(result)
    ensures r.Ok? && r.value.Encoded? ==> result.JStr? && DecodeUtf8(r.value.bytes) == Some(result.s)
    ensures r.Ok? && r.value.Kept? ==> r.value.value == result && !JsonTruthy(result)
  {
    if result.JStr? then Utf8RoundTrip(result.s); Ok(Encoded(Utf8(result.s)))
    else if JsonTruthy(result) then Raise(TypeError)
    else Ok(Kept(result))
  }

  /** The head of a request record as `add_request` validates it, before the database lookups. */
  datatype RequestHead = RequestHead(
    id: string, src: string, host: Json, data: seq<Byte>, result: Payload,
    cosId: int, state: int, hreqAt: real, dresAt: Option<real>)

  /**
   * The request fields of `add_request`: id and source strings, a host of
   * any type, the data and result coerced, the CoS id and state integers
   * and the host-request time a float (all required), and an optional
   * completion time.
   */
  function RequestFields(body: Json): (r: Got<RequestHead>)
    ensures r.Ok? <==>
      && Accepted(body, "id", Some(StrType)) && Accepted(body, "src", Some(StrType))
      && Accepted(body, "data", None) && body.fields["data"].JStr?
      && CoerceResult(GetPost(body, "result", None, false, JNull).value).Ok?
      && Accepted(body, "cos_id", Some(IntType)) && Accepted(body, "state", Some(IntType))
      && Accepted(body, "hreq_at", Some(FloatType))
    ensures r.Ok? ==> DecodeUtf8(r.value.data) == Some(body.fields["data"].s)
  {
    var id := GetPost(body, "id", Some(StrType), true, JNull);
    var src := GetPost(body, "src", Some(StrType), true, JNull);
    var host := GetPost(body, "host", None, false, JNull);
    var data := GetPost(body, "data", None, true, JNull);
    if id.Raise? then Raise(id.error)
    else if src.Raise? then Raise(src.error)
    else if data.Raise? then Raise(data.error)
    else
      var bytes := CoerceData(data.value);
      var result := CoerceResult(GetPost(body, "result", None, false, JNull).value);
      var cosId := GetPost(body, "cos_id", Some(IntType), true, JNull);
      var state := GetPost(body, "state", Some(IntType), true, JNull);
      var hreqAt := GetPost(body, "hreq_at", Some(FloatType), true, JNull);
      if bytes.Raise? then Raise(bytes.error)
      else if result.Raise? then Raise(result.error)
      else if cosId.Raise? then Raise(cosId.error)
      else if state.Raise? then Raise(state.error)
      else if hreqAt.Raise? then Raise(hreqAt.error)
      else
        Ok(RequestHead(id.value.s, src.value.s, host.value, bytes.value, result.value,
                       IntOf(cosId.value), IntOf(state.value), hreqAt.value.r, OptFloat(body, "dres_at")))
  }

  /** The integer value of an accepted int field (a boolean is 0 or 1). */
  function IntOf(v: Json): int
  {
    match v
    case JInt(i) => i
    case JBool(b) => if b then 1 else 0
    case _ => 0
  }

  /** The interface objects of every node, as a frame. */
  function AllInterfaces(t: Topology): set<Interface>
    reads t`nodes, t.nodes.Values`interfaces
  {
    set n, i | n in t.nodes.Values && i in n.interfaces.Values :: i
  }

  /**
   * The node a prefix of a planned queue has built: the fields of its first
   * step, the interfaces the prefix names and, when the prefix ends with one,
   * the main interface it chose.
   */
  ghost predicate Built(n: Node, steps: seq<Step>)
    reads n
  {
    && |steps| >= 1 && steps[0].AddNodeStep?
    && n.state == steps[0].state && n.kind == steps[0].kind && n.nodeLabel == steps[0].nodeLabel
    && n.threshold == (if steps[0].threshold.Some? then steps[0].threshold.value else 1.0)
    && n.interfaces.Keys == InterfaceNames(steps)
    && (steps[|steps| - 1].SetMainStep? ==> n.mainInterface == MainOf(n, steps[|steps| - 1].mainInterface))
  }

  /** The main interface `set_main_interface` picks on a node. */
  function MainOf(n: Node, main: Option<string>): Option<Interface>
    reads n
  {
    if main.Some? && main.value in n.interfaces then Some(n.interfaces[main.value]) else None
  }

  /** The REST handlers, over the controller's topology and its spec-update rules. */
  class Api {
    const state: StateUpdater

    constructor (state: StateUpdater)
      ensures this.state == state
    {
      this.state := state;
    }

    /**
     * One queued call of `add_node`; `ok` is its result. A step on an
     * existing node extends what a queue prefix has built by that step.
     */
    method RunStep(step: Step, now: real, ghost prefix: seq<Step>) returns (ok: bool)
      requires state.topology.Valid()
      modifies state.topology
      modifies if !step.AddNodeStep? && step.nodeId in state.topology.nodes then {state.topology.nodes[step.nodeId]} else {}
      ensures state.topology.Valid()
      ensures step.AddNodeStep? ==>
        && ok && step.id in state.topology.nodes
        && var n := state.topology.nodes[step.id];
        && fresh(n) && state.topology.nodes == old(state.topology.nodes)[step.id := n] && Built(n, [step])
      ensures !step.AddNodeStep? ==> state.topology.nodes == old(state.topology.nodes)
      ensures !step.AddNodeStep? ==> (ok <==> step.nodeId in state.topology.nodes)
      ensures !step.AddNodeStep? && ok && old(Built(state.topology.nodes[step.nodeId], prefix)) ==>
        Built(state.topology.nodes[step.nodeId], prefix + [step])
    {
      var t := state.topology;
      match step {
        case AddNodeStep(nodeId, st, kind, nodeLabel, threshold) =>
          ok := t.AddNode(nodeId, st, kind, nodeLabel, threshold, now);
        case AddInterfaceStep(nodeId, name, num, mac, ipv4) =>
          ok := t.AddInterface(nodeId, name, num, mac, ipv4, now);
          InterfaceNamesSnoc(prefix, step);
        case SetMainStep(nodeId, main) =>
          ok := t.SetMainInterface(nodeId, main);
          InterfaceNamesSnoc(prefix, step);
      }
    }

    /**
     * The apply phase of `add_node`: the queued calls in order; the first
     * that fails deletes the node again (with its interfaces and links) and
     * answers 500. A queue as `add_node` builds it never fails.
     */
    method ApplyQueue(id: NodeId, steps: seq<Step>, now: real) returns (status: int)
      requires state.topology.Valid()
      modifies state.topology, state.topology.nodes.Values
      ensures state.topology.Valid()
      ensures status == HttpSuccess || status == HttpInternal
      ensures status == HttpInternal ==> id !in state.topology.nodes
      ensures Planned(id, steps) ==> status == HttpSuccess
      ensures Planned(id, steps) ==> id in state.topology.nodes
      ensures Planned(id, steps) ==>
        var n := state.topology.nodes[id];
        fresh(n) && state.topology.nodes == old(state.topology.nodes)[id := n] && Built(n, steps)
    {
      var t := state.topology;
      ghost var planned := Planned(id, steps);
      if |steps| == 0 {
        return HttpSuccess;
      }
      var ok := RunStep(steps[0], now, []);
      if !ok {
        t.DeleteNode(id);
        return HttpInternal;
      }
      assert [steps[0]] == steps[..1];
      var i := 1;
      while i < |steps|
        invariant 1 <= i <= |steps|
        invariant t.Valid()
        invariant forall m :: m in t.nodes.Values ==> m in old(t.nodes.Values) || fresh(m)
        invariant planned ==> id in t.nodes && fresh(t.nodes[id])
        invariant planned ==> t.nodes == old(t.nodes)[id := t.nodes[id]]
        invariant planned ==> Built(t.nodes[id], steps[..i])
      {
        ghost var prefix := steps[..i];
        assert planned ==> !steps[i].AddNodeStep? && steps[i].nodeId == id;
        ok := RunStep(steps[i], now, prefix);
        if !ok {
          t.DeleteNode(id);
          return HttpInternal;
        }
        assert steps[..i + 1] == prefix + [steps[i]];
        i := i + 1;
      }
      assert steps[..i] == steps;
      status := HttpSuccess;
    }

    /**
     * `add_node`: 400 when the id is missing or not an identifier, 303 when
     * the node exists, 400 when any other field is invalid, all before any
     * change; otherwise the queue is applied.
     */
    method AddNode(body: Json, now: real) returns (status: int)
      requires state.topology.Valid()
      modifies state.topology, state.topology.nodes.Values
      ensures state.topology.Valid()
      ensures RequestedId(body).Raise? ==> status == HttpBadRequest
      ensures RequestedId(body).Ok? && RequestedId(body).value in old(state.topology.nodes) ==> status == HttpExists
      ensures RequestedId(body).Ok? && RequestedId(body).value !in old(state.topology.nodes) ==>
        var plan := NodePlan(body, RequestedId(body).value);
        && (plan.Raise? ==> status == HttpBadRequest)
        && (plan.Ok? ==>
              && status == HttpSuccess && RequestedId(body).value in state.topology.nodes
              && var n := state.topology.nodes[RequestedId(body).value];
                 && fresh(n) && state.topology.nodes == old(state.topology.nodes)[RequestedId(body).value := n]
                 && Built(n, plan.value) && n.interfaces.Keys == InterfaceNames(plan.value))
      ensures status != HttpSuccess ==> unchanged(state.topology) && unchanged(old(state.topology.nodes.Values))
    {
      var t := state.topology;
      var id := RequestedId(body);
      if id.Raise? {
        return HttpBadRequest;
      }
      if t.GetNode(id.value).Some? {
        return HttpExists;
      }
      var plan := NodePlan(body, id.value);
      if plan.Raise? {
        return HttpBadRequest;
      }
      status := ApplyQueue(id.value, plan.value, now);
    }
  
    /**
     * `update_node_specs`: 404 when no node answers to the id (as given or
     * as a hexadecimal datapath id), 400 when the body does not validate,
     * both before any change. Otherwise the node's specs are applied, then
     * the interfaces in order, each as `_update_interface_specs` passes it
     * on. The first reported interface that exists raises there (see
     * `UpdateInterface`); the exception leaves the handler, which answers
     * with an internal error, and the later interfaces are not updated.
     * No port sample is saved and no link is refreshed.
     */
    method UpdateNodeSpecs(idText: string, body: Json, now: real) returns (status: int)
      modifies state`blockAppUpdate
      modifies NodeNamed(state.topology, idText)`cpuCount, NodeNamed(state.topology, idText)`cpuFree,
        NodeNamed(state.topology, idText)`memoryTotal, NodeNamed(state.topology, idText)`memoryFree,
        NodeNamed(state.topology, idText)`diskTotal, NodeNamed(state.topology, idText)`diskFree, NodeNamed(state.topology, idText)`timestamp
      modifies NamedInterfaces(state.topology, idText)`capacity, NamedInterfaces(state.topology, idText)`bandwidthUp,
        NamedInterfaces(state.topology, idText)`bandwidthDown, NamedInterfaces(state.topology, idText)`txPackets,
        NamedInterfaces(state.topology, idText)`rxPackets, NamedInterfaces(state.topology, idText)`timestamp
      ensures status == HttpSuccess || status == HttpNotFound || status == HttpBadRequest || status == HttpInternal
      ensures status == HttpNotFound <==> Resolve(state.topology.nodes.Keys, idText).None?
      ensures status == HttpBadRequest <==>
        Resolve(state.topology.nodes.Keys, idText).Some? && SpecsPlan(body, now).Raise?
      ensures status == HttpInternal <==>
        && Resolve(state.topology.nodes.Keys, idText).Some? && SpecsPlan(body, now).Ok?
        && FirstPort(SpecsPlan(body, now).value.1, old(PortNames(state.topology, Resolve(state.topology.nodes.Keys, idText).value))).Some?
      ensures state.portStats == old(state.portStats)
      ensures status == HttpNotFound || status == HttpBadRequest ==>
        unchanged(state) && unchanged(state.topology.nodes.Values) && unchanged(AllInterfaces(state.topology))
        && unchanged(state.topology.edges.Values)
      ensures status == HttpSuccess || status == HttpInternal ==>
        var specs := SpecsPlan(body, now).value.0;
        FiguresOf(state.topology.nodes[Resolve(state.topology.nodes.Keys, idText).value]) ==
          NodeApplied(old(FiguresOf(state.topology.nodes[Resolve(state.topology.nodes.Keys, idText).value])), specs.cpuCount, specs.cpuFree, specs.memoryTotal,
                      specs.memoryFree, specs.diskTotal, specs.diskFree, specs.timestamp, now)
      ensures status == HttpSuccess || status == HttpInternal ==>
        var id := Resolve(state.topology.nodes.Keys, idText).value;
        var names := old(InterfacesOf(state.topology, id));
        var first := FirstPort(SpecsPlan(body, now).value.1, names.Keys);
        && state.blockAppUpdate ==
             (if first.Some? then old(state.blockAppUpdate)[(id, first.value.name) := now] else old(state.blockAppUpdate))
        && SpecsByName(names) ==
             if first.Some? then ApplyEntry(old(SpecsByName(names)), names, id, state.iperf3Update, first.value, 0.0, now)
             else old(SpecsByName(names))
    {
      var t := state.topology;
      var id := Resolve(t.nodes.Keys, idText);
      if id.None? {
        return HttpNotFound;
      }
      var plan := SpecsPlan(body, now);
      if plan.Raise? {
        return HttpBadRequest;
      }
      var (specs, ifaces) := plan.value;
      assert PortNames(t, id.value) == InterfacesOf(t, id.value).Keys;
      var raised := ApplyNodeSpecs(id.value, specs, ifaces, now);
      assert Resolve(state.topology.nodes.Keys, idText) == id;
      status := if raised then HttpInternal else HttpSuccess;
    }

    /** The body of `update_node_specs` once the node is found and the body validated. */
    method ApplyNodeSpecs(id: NodeId, specs: NodeSpecs, ifaces: seq<InterfaceSpecs>, now: real) returns (raised: bool)
      requires id in state.topology.nodes
      modifies state`blockAppUpdate
      modifies {state.topology.nodes[id]}`cpuCount, {state.topology.nodes[id]}`cpuFree,
        {state.topology.nodes[id]}`memoryTotal, {state.topology.nodes[id]}`memoryFree,
        {state.topology.nodes[id]}`diskTotal, {state.topology.nodes[id]}`diskFree, {state.topology.nodes[id]}`timestamp
      modifies InterfacesOf(state.topology, id).Values`capacity, InterfacesOf(state.topology, id).Values`bandwidthUp,
        InterfacesOf(state.topology, id).Values`bandwidthDown, InterfacesOf(state.topology, id).Values`txPackets,
        InterfacesOf(state.topology, id).Values`rxPackets, InterfacesOf(state.topology, id).Values`timestamp
      ensures FiguresOf(state.topology.nodes[id]) ==
          NodeApplied(old(FiguresOf(state.topology.nodes[id])), specs.cpuCount, specs.cpuFree, specs.memoryTotal,
                      specs.memoryFree, specs.diskTotal, specs.diskFree, specs.timestamp, now)
      ensures var names := old(InterfacesOf(state.topology, id));
        var first := FirstPort(ifaces, names.Keys);
        && (raised <==> first.Some?)
        && state.blockAppUpdate ==
             (if first.Some? then old(state.blockAppUpdate)[(id, first.value.name) := now] else old(state.blockAppUpdate))
        && SpecsByName(names) ==
             if first.Some? then ApplyEntry(old(SpecsByName(names)), names, id, state.iperf3Update, first.value, 0.0, now)
             else old(SpecsByName(names))
    {
      ghost var names := InterfacesOf(state.topology, id);
      ghost var before := SpecsByName(names);
      var _ := state.UpdateNodeSpecs(id, specs.cpuCount, specs.cpuFree, specs.memoryTotal,
                                     specs.memoryFree, specs.diskTotal, specs.diskFree, specs.timestamp, now);
      assert InterfacesOf(state.topology, id) == names && SpecsByName(names) == before;
      ghost var figures := FiguresOf(state.topology.nodes[id]);
      raised := UpdateInterfaces(id, ifaces, now);
      assert FiguresOf(state.topology.nodes[id]) == figures;
    }

    /**
     * The interface loop of `update_node_specs`: interfaces in order until
     * one raises. Only the first reported interface that exists is reached,
     * marked and updated; the loop stops there, and the interfaces reported
     * before it do not exist, so nothing else changes.
     */
    method UpdateInterfaces(id: NodeId, ifaces: seq<InterfaceSpecs>, now: real) returns (raised: bool)
      modifies state`blockAppUpdate
      modifies InterfacesOf(state.topology, id).Values`capacity, InterfacesOf(state.topology, id).Values`bandwidthUp,
        InterfacesOf(state.topology, id).Values`bandwidthDown, InterfacesOf(state.topology, id).Values`txPackets,
        InterfacesOf(state.topology, id).Values`rxPackets, InterfacesOf(state.topology, id).Values`timestamp
      ensures var names := old(InterfacesOf(state.topology, id));
        var first := FirstPort(ifaces, names.Keys);
        && (raised <==> first.Some?)
        && state.blockAppUpdate ==
             (if first.Some? then old(state.blockAppUpdate)[(id, first.value.name) := now] else old(state.blockAppUpdate))
        && SpecsByName(names) ==
             if first.Some? then ApplyEntry(old(SpecsByName(names)), names, id, state.iperf3Update, first.value, 0.0, now)
             else old(SpecsByName(names))
    {
      var t := state.topology;
      ghost var names := InterfacesOf(t, id);
      ghost var start := SpecsByName(names);
      var i := 0;
      while i < |ifaces|
        invariant 0 <= i <= |ifaces|
        invariant InterfacesOf(t, id) == names
        invariant FirstPort(ifaces[i..], names.Keys) == FirstPort(ifaces, names.Keys)
        invariant state.blockAppUpdate == old(state.blockAppUpdate)
        invariant SpecsByName(names) == start
      {
        raised := UpdateInterface(id, ifaces[i], now);
        if raised {
          return;
        }
        assert ifaces[i..][1..] == ifaces[i + 1..];
        i := i + 1;
      }
      raised := false;
    }

    /**
     * `_update_interface_specs`: its eighth positional argument, the body's
     * timestamp, binds to `tx_bytes`, and `timestamp` keeps its default 0.
     * On an existing interface `update_interface_specs` marks the port,
     * stamps the interface `now` and applies its specs; then it calls
     * `set_tx_bytes`, which an interface does not have, so it raises
     * whatever the timestamp's value: no sample is saved and the link at
     * the port is never refreshed. On an unknown interface nothing changes.
     */
    method UpdateInterface(id: NodeId, f: InterfaceSpecs, now: real) returns (raised: bool)
      modifies state`blockAppUpdate
      modifies state.InterfaceAt(id, f.name)`capacity, state.InterfaceAt(id, f.name)`bandwidthUp,
        state.InterfaceAt(id, f.name)`bandwidthDown, state.InterfaceAt(id, f.name)`txPackets,
        state.InterfaceAt(id, f.name)`rxPackets, state.InterfaceAt(id, f.name)`timestamp
      ensures raised <==> f.name in PortNames(state.topology, id)
      ensures state.blockAppUpdate ==
        if raised then old(state.blockAppUpdate)[(id, f.name) := now] else old(state.blockAppUpdate)
      ensures var names := old(InterfacesOf(state.topology, id));
        SpecsByName(names) ==
          if raised then ApplyEntry(old(SpecsByName(names)), names, id, state.iperf3Update, f, 0.0, now)
          else old(SpecsByName(names))
    {
      ghost var names := InterfacesOf(state.topology, id);
      ghost var before := SpecsByName(names);
      PortNamed(state.topology, id, f.name);
      var iface := state.topology.GetInterface(id, ByName(f.name));
      if iface.None? {
        return false;
      }
      state.MarkInterfaceSpecs(iface.value, id, f.name, f.capacity, f.bandwidthUp, f.bandwidthDown,
                               f.txPackets, f.rxPackets, 0.0, now);
      raised := true;
      ghost var after := SpecsByName(names);
      forall n | n in names
        ensures after[n] ==
          if f.name in names && names[n] == names[f.name]
          then Applied(before[n], (id, f.name) !in state.iperf3Update, f.capacity, f.bandwidthUp,
                       f.bandwidthDown, f.txPackets, f.rxPackets, 0.0, now)
          else before[n]
      {
        assert before[n] == old(SpecsOf(names[n]));
        if names[n] != iface.value {
          assert SpecsOf(names[n]) == old(SpecsOf(names[n]));
        }
      }
      ApplyEntryAt(before, after, names, id, state.iperf3Update, f, 0.0, now);
    }

    /**
     * `update_node_specs` with the timestamp passed to `update_interface_specs`
     * by keyword, as its docstring intends: the node's specs, then every
     * interface's in order, each existing reported port being marked at
     * `now`, sampled and its link refreshed, and a 200 answer.
     */
    method UpdateNodeSpecsIntended(idText: string, body: Json, now: real) returns (status: int)
      modifies state`blockAppUpdate, state`portStats
      modifies NodeNamed(state.topology, idText)`cpuCount, NodeNamed(state.topology, idText)`cpuFree,
        NodeNamed(state.topology, idText)`memoryTotal, NodeNamed(state.topology, idText)`memoryFree,
        NodeNamed(state.topology, idText)`diskTotal, NodeNamed(state.topology, idText)`diskFree, NodeNamed(state.topology, idText)`timestamp
      modifies NamedInterfaces(state.topology, idText)`capacity, NamedInterfaces(state.topology, idText)`bandwidthUp,
        NamedInterfaces(state.topology, idText)`bandwidthDown, NamedInterfaces(state.topology, idText)`txPackets,
        NamedInterfaces(state.topology, idText)`rxPackets, NamedInterfaces(state.topology, idText)`timestamp
      modifies NamedRefreshed(state, idText, body, now)`capacity, NamedRefreshed(state, idText, body, now)`bandwidth,
        NamedRefreshed(state, idText, body, now)`lossRate, NamedRefreshed(state, idText, body, now)`timestamp
      ensures status == HttpSuccess || status == HttpNotFound || status == HttpBadRequest
      ensures status == HttpNotFound <==> Resolve(state.topology.nodes.Keys, idText).None?
      ensures status == HttpBadRequest <==>
        Resolve(state.topology.nodes.Keys, idText).Some? && SpecsPlan(body, now).Raise?
      ensures status != HttpSuccess ==>
        unchanged(state) && unchanged(state.topology.nodes.Values) && unchanged(AllInterfaces(state.topology))
        && unchanged(state.topology.edges.Values)
      ensures status == HttpSuccess ==>
        var specs := SpecsPlan(body, now).value.0;
        FiguresOf(state.topology.nodes[Resolve(state.topology.nodes.Keys, idText).value]) ==
          NodeApplied(old(FiguresOf(state.topology.nodes[Resolve(state.topology.nodes.Keys, idText).value])), specs.cpuCount, specs.cpuFree, specs.memoryTotal,
                      specs.memoryFree, specs.diskTotal, specs.diskFree, specs.timestamp, now)
      ensures status == HttpSuccess ==>
        var id := Resolve(state.topology.nodes.Keys, idText).value;
        var (specs, ifaces) := SpecsPlan(body, now).value;
        var names := old(InterfacesOf(state.topology, id));
        && state.blockAppUpdate == MarkPorts(old(state.blockAppUpdate), id, ifaces, names.Keys, now)
        && state.portStats == SaveAll(old(state.portStats), id, ifaces, names.Keys, state.samples)
        && SpecsByName(names) == ApplyAllByName(old(SpecsByName(names)), names, id, state.iperf3Update, ifaces, specs.timestamp, now)
        && (forall l :: l in RefreshedLinks(state, id, ifaces, names.Keys) ==> l.timestamp == Stamp(specs.timestamp, now))
    {
      var t := state.topology;
      var id := Resolve(t.nodes.Keys, idText);
      if id.None? {
        return HttpNotFound;
      }
      var plan := SpecsPlan(body, now);
      if plan.Raise? {
        return HttpBadRequest;
      }
      var (specs, ifaces) := plan.value;
      ApplyNodeSpecsIntended(id.value, specs, ifaces, now);
      status := HttpSuccess;
    }

    /** The body of the intended `update_node_specs` once the node is found and the body validated. */
    method ApplyNodeSpecsIntended(id: NodeId, specs: NodeSpecs, ifaces: seq<InterfaceSpecs>, now: real)
      requires id in state.topology.nodes
      modifies state`blockAppUpdate, state`portStats
      modifies {state.topology.nodes[id]}`cpuCount, {state.topology.nodes[id]}`cpuFree,
        {state.topology.nodes[id]}`memoryTotal, {state.topology.nodes[id]}`memoryFree,
        {state.topology.nodes[id]}`diskTotal, {state.topology.nodes[id]}`diskFree, {state.topology.nodes[id]}`timestamp
      modifies InterfacesOf(state.topology, id).Values`capacity, InterfacesOf(state.topology, id).Values`bandwidthUp,
        InterfacesOf(state.topology, id).Values`bandwidthDown, InterfacesOf(state.topology, id).Values`txPackets,
        InterfacesOf(state.topology, id).Values`rxPackets, InterfacesOf(state.topology, id).Values`timestamp
      modifies RefreshedLinks(state, id, ifaces, PortNames(state.topology, id))`capacity,
        RefreshedLinks(state, id, ifaces, PortNames(state.topology, id))`bandwidth,
        RefreshedLinks(state, id, ifaces, PortNames(state.topology, id))`lossRate,
        RefreshedLinks(state, id, ifaces, PortNames(state.topology, id))`timestamp
      ensures FiguresOf(state.topology.nodes[id]) ==
          NodeApplied(old(FiguresOf(state.topology.nodes[id])), specs.cpuCount, specs.cpuFree, specs.memoryTotal,
                      specs.memoryFree, specs.diskTotal, specs.diskFree, specs.timestamp, now)
      ensures var names := old(InterfacesOf(state.topology, id));
        && state.blockAppUpdate == MarkPorts(old(state.blockAppUpdate), id, ifaces, names.Keys, now)
        && state.portStats == SaveAll(old(state.portStats), id, ifaces, names.Keys, state.samples)
        && SpecsByName(names) == ApplyAllByName(old(SpecsByName(names)), names, id, state.iperf3Update, ifaces, specs.timestamp, now)
        && (forall l :: l in RefreshedLinks(state, id, ifaces, names.Keys) ==> l.timestamp == Stamp(specs.timestamp, now))
    {
      ghost var names := InterfacesOf(state.topology, id);
      ghost var before := SpecsByName(names);
      ghost var links := RefreshedLinks(state, id, ifaces, names.Keys);
      var _ := state.UpdateNodeSpecs(id, specs.cpuCount, specs.cpuFree, specs.memoryTotal,
                                     specs.memoryFree, specs.diskTotal, specs.diskFree, specs.timestamp, now);
      assert InterfacesOf(state.topology, id) == names && SpecsByName(names) == before;
      assert RefreshedLinks(state, id, ifaces, names.Keys) == links;
      ghost var figures := FiguresOf(state.topology.nodes[id]);
      UpdateInterfacesIntended(id, ifaces, specs.timestamp, now);
      assert FiguresOf(state.topology.nodes[id]) == figures;
    }

    /**
     * Every interface's specs in order, all with the body's timestamp: each
     * of the node's interfaces ends with the specs of the entries naming it
     * applied in order, each reported port is marked and its window gains
     * one sample per entry, every link at a reported port is refreshed and
     * no other link changes.
     */
    method UpdateInterfacesIntended(id: NodeId, ifaces: seq<InterfaceSpecs>, timestamp: real, now: real)
      modifies state`blockAppUpdate, state`portStats
      modifies InterfacesOf(state.topology, id).Values`capacity, InterfacesOf(state.topology, id).Values`bandwidthUp,
        InterfacesOf(state.topology, id).Values`bandwidthDown, InterfacesOf(state.topology, id).Values`txPackets,
        InterfacesOf(state.topology, id).Values`rxPackets, InterfacesOf(state.topology, id).Values`timestamp
      modifies RefreshedLinks(state, id, ifaces, PortNames(state.topology, id))`capacity,
        RefreshedLinks(state, id, ifaces, PortNames(state.topology, id))`bandwidth,
        RefreshedLinks(state, id, ifaces, PortNames(state.topology, id))`lossRate,
        RefreshedLinks(state, id, ifaces, PortNames(state.topology, id))`timestamp
      ensures var names := old(InterfacesOf(state.topology, id));
        && state.blockAppUpdate == MarkPorts(old(state.blockAppUpdate), id, ifaces, names.Keys, now)
        && state.portStats == SaveAll(old(state.portStats), id, ifaces, names.Keys, state.samples)
        && SpecsByName(names) == ApplyAllByName(old(SpecsByName(names)), names, id, state.iperf3Update, ifaces, timestamp, now)
        && (forall l :: l in RefreshedLinks(state, id, ifaces, names.Keys) ==> l.timestamp == Stamp(timestamp, now))
    {
      var t := state.topology;
      ghost var names := InterfacesOf(t, id);
      ghost var start := SpecsByName(names);
      ghost var refreshed: set<Link> := {};
      var i := 0;
      while i < |ifaces|
        invariant 0 <= i <= |ifaces|
        invariant InterfacesOf(t, id) == names
        invariant state.blockAppUpdate == MarkPorts(old(state.blockAppUpdate), id, ifaces[..i], names.Keys, now)
        invariant state.portStats == SaveAll(old(state.portStats), id, ifaces[..i], names.Keys, state.samples)
        invariant SpecsByName(names) == ApplyAllByName(start, names, id, state.iperf3Update, ifaces[..i], timestamp, now)
        invariant refreshed == RefreshedLinks(state, id, ifaces[..i], names.Keys)
        invariant forall l :: l in refreshed ==> l.timestamp == Stamp(timestamp, now)
      {
        LinkToRefreshIn(state, id, ifaces, i);
        IntendedTurn(id, ifaces, i, timestamp, now, names, old(state.blockAppUpdate), old(state.portStats), start);
        refreshed := RefreshedLinks(state, id, ifaces[..i + 1], names.Keys);
        i := i + 1;
      }
      assert ifaces[..i] == ifaces;
    }

    /**
     * One turn of the intended interface loop: entry `k` applied on top of
     * the first `k`, for each of the loop's folds over the entry-time state
     * (`marks`, `stats`, `start`); the links already refreshed (`done`) keep
     * their stamp, and the link at the entry's port is the only other link
     * that may change.
     */
    method IntendedTurn(id: NodeId, ifaces: seq<InterfaceSpecs>, k: nat, timestamp: real, now: real,
                        ghost names: map<string, Interface>, ghost marks: map<PortKey, real>,
                        ghost stats: map<PortKey, seq<Sample>>, ghost start: map<string, PortSpecs>)
      requires k < |ifaces| && InterfacesOf(state.topology, id) == names
      requires state.blockAppUpdate == MarkPorts(marks, id, ifaces[..k], names.Keys, now)
      requires state.portStats == SaveAll(stats, id, ifaces[..k], names.Keys, state.samples)
      requires SpecsByName(names) == ApplyAllByName(start, names, id, state.iperf3Update, ifaces[..k], timestamp, now)
      requires forall l :: l in RefreshedLinks(state, id, ifaces[..k], names.Keys) ==> l.timestamp == Stamp(timestamp, now)
      modifies state`blockAppUpdate, state`portStats
      modifies state.InterfaceAt(id, ifaces[k].name)`capacity, state.InterfaceAt(id, ifaces[k].name)`bandwidthUp,
        state.InterfaceAt(id, ifaces[k].name)`bandwidthDown, state.InterfaceAt(id, ifaces[k].name)`txPackets,
        state.InterfaceAt(id, ifaces[k].name)`rxPackets, state.InterfaceAt(id, ifaces[k].name)`timestamp
      modifies state.LinkToRefresh(id, ifaces[k].name)`capacity, state.LinkToRefresh(id, ifaces[k].name)`bandwidth,
        state.LinkToRefresh(id, ifaces[k].name)`lossRate, state.LinkToRefresh(id, ifaces[k].name)`timestamp
      ensures state.blockAppUpdate == MarkPorts(marks, id, ifaces[..k + 1], names.Keys, now)
      ensures state.portStats == SaveAll(stats, id, ifaces[..k + 1], names.Keys, state.samples)
      ensures SpecsByName(names) == ApplyAllByName(start, names, id, state.iperf3Update, ifaces[..k + 1], timestamp, now)
      ensures forall l :: l in RefreshedLinks(state, id, ifaces[..k + 1], names.Keys) ==> l.timestamp == Stamp(timestamp, now)
    {
      RefreshedLinksStep(state, id, ifaces, k, names.Keys);
      ghost var done := RefreshedLinks(state, id, ifaces[..k], names.Keys);
      MarkPortsStep(marks, id, ifaces, k, names.Keys, now);
      SaveAllStep(stats, id, ifaces, k, names.Keys, state.samples);
      ApplyAllByNameStep(start, names, id, state.iperf3Update, ifaces, k, timestamp, now);
      ghost var changed := state.LinkToRefresh(id, ifaces[k].name);
      UpdateInterfaceIntended(id, ifaces[k], timestamp, now);
      forall l | l in done
        ensures l.timestamp == Stamp(timestamp, now)
      {
        if l !in changed {
          assert l.timestamp == old(l.timestamp);
        }
      }
    }

    /** One interface's specs with the timestamp by keyword: no byte count is given, so nothing raises. */
    method UpdateInterfaceIntended(id: NodeId, f: InterfaceSpecs, timestamp: real, now: real)
      modifies state`blockAppUpdate, state`portStats
      modifies state.InterfaceAt(id, f.name)`capacity, state.InterfaceAt(id, f.name)`bandwidthUp,
        state.InterfaceAt(id, f.name)`bandwidthDown, state.InterfaceAt(id, f.name)`txPackets,
        state.InterfaceAt(id, f.name)`rxPackets, state.InterfaceAt(id, f.name)`timestamp
      modifies state.LinkToRefresh(id, f.name)`capacity, state.LinkToRefresh(id, f.name)`bandwidth,
        state.LinkToRefresh(id, f.name)`lossRate, state.LinkToRefresh(id, f.name)`timestamp
      ensures state.blockAppUpdate ==
        if f.name in old(PortNames(state.topology, id)) then old(state.blockAppUpdate)[(id, f.name) := now]
        else old(state.blockAppUpdate)
      ensures f.name !in old(PortNames(state.topology, id)) ==>
        state.portStats == old(state.portStats)
      ensures f.name in old(PortNames(state.topology, id)) ==>
        var i := old(state.topology.GetInterface(id, ByName(f.name))).value;
        var key := (id, f.name);
        && SpecsOf(i) == Applied(old(SpecsOf(i)), key !in state.iperf3Update, f.capacity, f.bandwidthUp,
                                 f.bandwidthDown, f.txPackets, f.rxPackets, timestamp, now)
        && state.portStats == old(state.portStats)[key := Window(if key in old(state.portStats) then old(state.portStats)[key] else [],
                                                                 Sample(f.txPackets, f.rxPackets, None, None), state.samples)]
      ensures forall l :: l in old(state.LinkToRefresh(id, f.name)) ==>
          && l.capacity == Min(l.srcPort.capacity, l.dstPort.capacity)
          && l.bandwidth == Min(l.srcPort.bandwidthUp, l.dstPort.bandwidthDown)
          && l.lossRate == (if f.txPackets.Some?
                            then LossRate(f.txPackets.value, OldestTx(state.portStats, (id, f.name)), l.dstPort.rxPackets,
                                          OldestRx(state.portStats, (state.topology.GetDstAtPort(id, ByName(f.name)).value.id,
                                                                     l.dstPort.name)))
                            else old(l.lossRate))
          && l.timestamp == Stamp(timestamp, now)
      ensures var names := old(InterfacesOf(state.topology, id));
        SpecsByName(names) == ApplyEntry(old(SpecsByName(names)), names, id, state.iperf3Update, f, timestamp, now)
    {
      ghost var names := InterfacesOf(state.topology, id);
      ghost var before := SpecsByName(names);
      ghost var touched := state.InterfaceAt(id, f.name);
      PortNamed(state.topology, id, f.name);
      var _ := state.UpdateInterfaceSpecs(id, f.name, f.capacity, f.bandwidthUp, f.bandwidthDown,
                                          f.txPackets, f.rxPackets, None, None, timestamp, now);
      ghost var after := SpecsByName(names);
      forall n | n in names
        ensures after[n] ==
          if f.name in names && names[n] == names[f.name]
          then Applied(before[n], (id, f.name) !in state.iperf3Update, f.capacity, f.bandwidthUp,
                       f.bandwidthDown, f.txPackets, f.rxPackets, timestamp, now)
          else before[n]
      {
        assert before[n] == old(SpecsOf(names[n]));
        if names[n] !in touched {
          assert SpecsOf(names[n]) == old(SpecsOf(names[n]));
        }
      }
      ApplyEntryAt(before, after, names, id, state.iperf3Update, f, timestamp, now);
    }

  }

  /** The names a list of interface specs reports. */
  function SpecNames(specs: seq<InterfaceSpecs>): set<string>
  {
    set s | s in specs :: s.name
  }

  /**
   * The API-update marks a specs update leaves, interface by interface:
   * each reported name that is one of the node's `ports` is stamped `now`.
   */
  function MarkPorts(m: map<PortKey, real>, id: NodeId, specs: seq<InterfaceSpecs>, ports: set<string>, now: real)
    : map<PortKey, real>
    decreases |specs|
  {
    if specs == [] then m
    else
      var r := MarkPorts(m, id, specs[..|specs| - 1], ports, now);
      var name := specs[|specs| - 1].name;
      if name in ports then r[(id, name) := now] else r
  }

  /**
   * Exactly the node's existing reported ports gain a mark, all at `now`;
   * every other mark, including other nodes', is kept as it was.
   */
  lemma {:induction false} MarkPortsMarks(m: map<PortKey, real>, id: NodeId, specs: seq<InterfaceSpecs>,
                                          ports: set<string>, now: real)
    ensures forall k :: k in MarkPorts(m, id, specs, ports, now) <==>
      k in m || (k.0 == id && k.1 in SpecNames(specs) && k.1 in ports)
    ensures forall k :: k in MarkPorts(m, id, specs, ports, now) ==>
      MarkPorts(m, id, specs, ports, now)[k] ==
        if k.0 == id && k.1 in SpecNames(specs) && k.1 in ports then now else m[k]
    decreases |specs|
  {
    if specs != [] {
      var init := specs[..|specs| - 1];
      MarkPortsMarks(m, id, init, ports, now);
      assert specs == init + [specs[|specs| - 1]];
      assert forall x :: x in specs <==> x in init || x == specs[|specs| - 1];
    }
  }

  /** The first reported interface whose name is one of the node's `ports`: the one the update as written stops at. */
  function FirstPort(specs: seq<InterfaceSpecs>, ports: set<string>): (r: Option<InterfaceSpecs>)
    ensures r.Some? ==> r.value.name in ports
  {
    if specs == [] then None
    else if specs[0].name in ports then Some(specs[0])
    else FirstPort(specs[1..], ports)
  }

  /**
   * The update as written stops at a port exactly when some reported name
   * is a port, and the port it stops at is reported before every other
   * reported port.
   */
  lemma {:induction false} FirstPortIsFirst(specs: seq<InterfaceSpecs>, ports: set<string>)
    ensures FirstPort(specs, ports).Some? <==> exists j :: 0 <= j < |specs| && specs[j].name in ports
    ensures FirstPort(specs, ports).Some? ==>
      exists j :: 0 <= j < |specs| && specs[j] == FirstPort(specs, ports).value
        && specs[j].name in ports && forall i :: 0 <= i < j ==> specs[i].name !in ports
  {
    if specs != [] && specs[0].name !in ports {
      var rest := specs[1..];
      FirstPortIsFirst(rest, ports);
      assert forall j :: 1 <= j < |specs| ==> specs[j] == rest[j - 1];
      if FirstPort(rest, ports).Some? {
        var j :| 0 <= j < |rest| && rest[j] == FirstPort(rest, ports).value
          && rest[j].name in ports && forall i :: 0 <= i < j ==> rest[i].name !in ports;
        assert specs[j + 1] == FirstPort(specs, ports).value;
      }
    }
  }

  /**
   * A body reporting two interfaces that both exist: the update as intended
   * marks both ports, the update as written only the first.
   */
  lemma AbortSkipsLaterPorts(m: map<PortKey, real>, id: NodeId, now: real)
    requires (id, "eth1") !in m
    ensures var specs := [InterfaceSpecs("eth0", None, None, None, None, None),
                          InterfaceSpecs("eth1", None, None, None, None, None)];
      && FirstPort(specs, {"eth0", "eth1"}) == Some(specs[0])
      && (id, "eth1") in MarkPorts(m, id, specs, {"eth0", "eth1"}, now)
      && (id, "eth1") !in m[(id, "eth0") := now]
  {
    var specs := [InterfaceSpecs("eth0", None, None, None, None, None),
                  InterfaceSpecs("eth1", None, None, None, None, None)];
    assert "eth0" != "eth1";
    assert specs[..1][..0] == [];
    assert MarkPorts(m, id, specs[..1], {"eth0", "eth1"}, now) == m[(id, "eth0") := now];
  }

  /** The links at the node's existing reported ports: the ones a spec update refreshes. */
  function RefreshedLinks(st: StateUpdater, id: NodeId, specs: seq<InterfaceSpecs>, ports: set<string>): (r: set<Link>)
    reads st.topology
    ensures r <= st.topology.edges.Values
    decreases |specs|
  {
    if specs == [] then {}
    else
      var name := specs[|specs| - 1].name;
      RefreshedLinks(st, id, specs[..|specs| - 1], ports) + if name in ports then st.LinkAtPort(id, name) else {}
  }

  /** One more entry on top of a prefix: its link joins when its port exists. */
  lemma RefreshedLinksStep(st: StateUpdater, id: NodeId, specs: seq<InterfaceSpecs>, k: nat, ports: set<string>)
    requires k < |specs|
    ensures RefreshedLinks(st, id, specs[..k + 1], ports) ==
      RefreshedLinks(st, id, specs[..k], ports) + if specs[k].name in ports then st.LinkAtPort(id, specs[k].name) else {}
  {
    assert specs[..k + 1][..k] == specs[..k];
  }

  /** The link at an entry's port is among the links the whole list refreshes, when the port exists. */
  lemma {:induction false} RefreshedLinksHas(st: StateUpdater, id: NodeId, specs: seq<InterfaceSpecs>, k: nat,
                                             ports: set<string>)
    requires k < |specs| && specs[k].name in ports
    ensures st.LinkAtPort(id, specs[k].name) <= RefreshedLinks(st, id, specs, ports)
    decreases |specs|
  {
    if k < |specs| - 1 {
      RefreshedLinksHas(st, id, specs[..|specs| - 1], k, ports);
    }
  }

  /** The links a `PUT /node_specs` request may refresh: those at the named node's reported ports. */
  function NamedRefreshed(st: StateUpdater, idText: string, body: Json, now: real): set<Link>
    reads st.topology, st.topology.nodes.Values`interfaces
  {
    var id := Resolve(st.topology.nodes.Keys, idText);
    var plan := SpecsPlan(body, now);
    if id.Some? && plan.Ok? then RefreshedLinks(st, id.value, plan.value.1, PortNames(st.topology, id.value)) else {}
  }

  /** The link an entry may refresh is among the links the whole list refreshes. */
  lemma LinkToRefreshIn(st: StateUpdater, id: NodeId, specs: seq<InterfaceSpecs>, k: nat)
    requires k < |specs|
    ensures st.LinkToRefresh(id, specs[k].name) <= RefreshedLinks(st, id, specs, PortNames(st.topology, id))
  {
    PortNamed(st.topology, id, specs[k].name);
    if specs[k].name in PortNames(st.topology, id) {
      RefreshedLinksHas(st, id, specs, k, PortNames(st.topology, id));
    }
  }

  /** The node a `PUT /node_specs` request names, as a frame. */
  function NodeNamed(t: Topology, idText: string): set<Node>
    reads t
  {
    var id := Resolve(t.nodes.Keys, idText);
    if id.Some? && id.value in t.nodes then {t.nodes[id.value]} else {}
  }

  /** The interfaces of the node a `PUT /node_specs` request names, as a frame. */
  function NamedInterfaces(t: Topology, idText: string): set<Interface>
    reads t`nodes, t.nodes.Values`interfaces
  {
    var id := Resolve(t.nodes.Keys, idText);
    if id.Some? then InterfacesOf(t, id.value).Values else {}
  }

  /** The spec fields of interfaces, by name. */
  function SpecsByName(names: map<string, Interface>): map<string, PortSpecs>
    reads names.Values
  {
    map n | n in names :: SpecsOf(names[n])
  }

  /**
   * One entry of interface specs applied to the specs by name: every name
   * of the entry's interface gets them, the capacity and bandwidths only
   * while no bandwidth test (`testing`) owns the entry's port.
   */
  function ApplyEntry(m: map<string, PortSpecs>, names: map<string, Interface>, id: NodeId,
                      testing: map<PortKey, real>, s: InterfaceSpecs, timestamp: real, now: real): map<string, PortSpecs>
  {
    map n | n in m ::
      if n in names && s.name in names && names[n] == names[s.name]
      then Applied(m[n], (id, s.name) !in testing, s.capacity, s.bandwidthUp, s.bandwidthDown,
                   s.txPackets, s.rxPackets, timestamp, now)
      else m[n]
  }

  /** A list of interface specs applied in order to the specs by name. */
  function ApplyAllByName(m: map<string, PortSpecs>, names: map<string, Interface>, id: NodeId,
                          testing: map<PortKey, real>, specs: seq<InterfaceSpecs>, timestamp: real, now: real)
    : map<string, PortSpecs>
    decreases |specs|
  {
    if specs == [] then m
    else ApplyEntry(ApplyAllByName(m, names, id, testing, specs[..|specs| - 1], timestamp, now), names, id, testing,
                    specs[|specs| - 1], timestamp, now)
  }

  /** Specs by name that changed exactly as one entry says are that entry applied. */
  lemma ApplyEntryAt(before: map<string, PortSpecs>, after: map<string, PortSpecs>, names: map<string, Interface>,
                     id: NodeId, testing: map<PortKey, real>, s: InterfaceSpecs, timestamp: real, now: real)
    requires before.Keys == names.Keys && after.Keys == names.Keys
    requires forall n :: n in names ==>
      after[n] ==
        if s.name in names && names[n] == names[s.name]
        then Applied(before[n], (id, s.name) !in testing, s.capacity, s.bandwidthUp, s.bandwidthDown,
                     s.txPackets, s.rxPackets, timestamp, now)
        else before[n]
    ensures after == ApplyEntry(before, names, id, testing, s, timestamp, now)
  {
  }

  /** One more entry on top of a prefix, for all names at once. */
  lemma ApplyAllByNameStep(m: map<string, PortSpecs>, names: map<string, Interface>, id: NodeId,
                           testing: map<PortKey, real>, specs: seq<InterfaceSpecs>, k: nat, timestamp: real, now: real)
    requires k < |specs|
    ensures ApplyAllByName(m, names, id, testing, specs[..k + 1], timestamp, now) ==
      ApplyEntry(ApplyAllByName(m, names, id, testing, specs[..k], timestamp, now), names, id, testing, specs[k], timestamp, now)
  {
    assert specs[..k + 1][..k] == specs[..k];
  }

  /** The by-name fold agrees with each interface's own fold. */
  lemma {:induction false} ApplyAllByNameIs(m: map<string, PortSpecs>, names: map<string, Interface>, id: NodeId,
                                            testing: map<PortKey, real>, specs: seq<InterfaceSpecs>, timestamp: real,
                                            now: real, n: string)
    requires n in m && n in names
    ensures n in ApplyAllByName(m, names, id, testing, specs, timestamp, now)
    ensures ApplyAllByName(m, names, id, testing, specs, timestamp, now)[n] ==
      ApplyAll(m[n], names[n], names, id, testing, specs, timestamp, now)
    decreases |specs|
  {
    if specs != [] {
      ApplyAllByNameIs(m, names, id, testing, specs[..|specs| - 1], timestamp, now, n);
    }
  }

  /** A node's interfaces by name; none for an unknown node. */
  function InterfacesOf(t: Topology, id: NodeId): map<string, Interface>
    reads t`nodes, t.nodes.Values`interfaces
  {
    if id in t.nodes then t.nodes[id].interfaces else map[]
  }

  /**
   * The spec fields interface `i` ends with when a list of interface specs
   * is applied in order: each entry whose name is one of `i`'s names among
   * the node's `ports` applies its specs, the capacity and bandwidths only
   * while no bandwidth test (`testing`) owns that port.
   */
  function ApplyAll(v: PortSpecs, i: Interface, ports: map<string, Interface>, id: NodeId,
                    testing: map<PortKey, real>, specs: seq<InterfaceSpecs>, timestamp: real, now: real): PortSpecs
    decreases |specs|
  {
    if specs == [] then v
    else
      var r := ApplyAll(v, i, ports, id, testing, specs[..|specs| - 1], timestamp, now);
      var s := specs[|specs| - 1];
      if s.name in ports && ports[s.name] == i
      then Applied(r, (id, s.name) !in testing, s.capacity, s.bandwidthUp, s.bandwidthDown,
                   s.txPackets, s.rxPackets, timestamp, now)
      else r
  }

  /** One more entry marked on top of a prefix. */
  lemma MarkPortsStep(m: map<PortKey, real>, id: NodeId, specs: seq<InterfaceSpecs>, k: nat, ports: set<string>, now: real)
    requires k < |specs|
    ensures MarkPorts(m, id, specs[..k + 1], ports, now) ==
      var r := MarkPorts(m, id, specs[..k], ports, now);
      if specs[k].name in ports then r[(id, specs[k].name) := now] else r
  {
    assert specs[..k + 1][..k] == specs[..k];
  }

  /** One more entry sampled on top of a prefix. */
  lemma SaveAllStep(m: map<PortKey, seq<Sample>>, id: NodeId, specs: seq<InterfaceSpecs>, k: nat, ports: set<string>,
                    length: int)
    requires k < |specs|
    ensures SaveAll(m, id, specs[..k + 1], ports, length) ==
      var r := SaveAll(m, id, specs[..k], ports, length);
      var s := specs[k];
      var key := (id, s.name);
      if s.name in ports
      then r[key := Window(if key in r then r[key] else [], Sample(s.txPackets, s.rxPackets, None, None), length)]
      else r
  {
    assert specs[..k + 1][..k] == specs[..k];
  }

  /** An interface that no entry names keeps its spec fields. */
  lemma {:induction false} ApplyAllUnnamed(v: PortSpecs, i: Interface, ports: map<string, Interface>, id: NodeId,
                                           testing: map<PortKey, real>, specs: seq<InterfaceSpecs>, timestamp: real, now: real)
    requires forall k :: 0 <= k < |specs| && specs[k].name in ports ==> ports[specs[k].name] != i
    ensures ApplyAll(v, i, ports, id, testing, specs, timestamp, now) == v
    decreases |specs|
  {
    if specs != [] {
      ApplyAllUnnamed(v, i, ports, id, testing, specs[..|specs| - 1], timestamp, now);
    }
  }

  /**
   * An interface named by exactly one entry ends with that entry's specs
   * applied to its old fields, whatever the other entries say.
   */
  lemma {:induction false} ApplyAllOnce(v: PortSpecs, i: Interface, ports: map<string, Interface>, id: NodeId,
                                        testing: map<PortKey, real>, specs: seq<InterfaceSpecs>, j: nat,
                                        timestamp: real, now: real)
    requires j < |specs| && specs[j].name in ports && ports[specs[j].name] == i
    requires forall k :: 0 <= k < |specs| && k != j && specs[k].name in ports ==> ports[specs[k].name] != i
    ensures var s := specs[j];
      ApplyAll(v, i, ports, id, testing, specs, timestamp, now) ==
        Applied(v, (id, s.name) !in testing, s.capacity, s.bandwidthUp, s.bandwidthDown,
                s.txPackets, s.rxPackets, timestamp, now)
    decreases |specs|
  {
    var init := specs[..|specs| - 1];
    if j == |specs| - 1 {
      ApplyAllUnnamed(v, i, ports, id, testing, init, timestamp, now);
    } else {
      ApplyAllOnce(v, i, ports, id, testing, init, j, timestamp, now);
    }
  }

  /**
   * The port samples after a list of interface specs is applied in order:
   * each entry that names one of the node's `ports` appends its packet
   * counts to that port's window.
   */
  function SaveAll(m: map<PortKey, seq<Sample>>, id: NodeId, specs: seq<InterfaceSpecs>, ports: set<string>,
                   length: int): map<PortKey, seq<Sample>>
    decreases |specs|
  {
    if specs == [] then m
    else
      var r := SaveAll(m, id, specs[..|specs| - 1], ports, length);
      var s := specs[|specs| - 1];
      var key := (id, s.name);
      if s.name in ports
      then r[key := Window(if key in r then r[key] else [], Sample(s.txPackets, s.rxPackets, None, None), length)]
      else r
  }

  /**
   * Saving samples gives a window exactly to the old ports and the node's
   * reported ports; every other port's window is kept as it was.
   */
  lemma {:induction false} SaveAllKeeps(m: map<PortKey, seq<Sample>>, id: NodeId, specs: seq<InterfaceSpecs>,
                                        ports: set<string>, length: int)
    ensures forall k :: k in SaveAll(m, id, specs, ports, length) <==>
      k in m || (k.0 == id && k.1 in SpecNames(specs) && k.1 in ports)
    ensures forall k :: k in m && !(k.0 == id && k.1 in SpecNames(specs) && k.1 in ports) ==>
      SaveAll(m, id, specs, ports, length)[k] == m[k]
    decreases |specs|
  {
    if specs != [] {
      var init := specs[..|specs| - 1];
      SaveAllKeeps(m, id, init, ports, length);
      assert specs == init + [specs[|specs| - 1]];
      assert forall x :: x in specs <==> x in init || x == specs[|specs| - 1];
    }
  }

  /** The names of a node's interfaces; none for an unknown node. */
  function PortNames(t: Topology, id: NodeId): set<string>
    reads t`nodes, t.nodes.Values`interfaces
  {
    InterfacesOf(t, id).Keys
  }

  /** A name is one of the node's port names exactly when the node has an interface by that name. */
  lemma PortNamed(t: Topology, id: NodeId, name: string)
    ensures name in PortNames(t, id) <==> t.GetInterface(id, ByName(name)).Some?
  {
  }
}
