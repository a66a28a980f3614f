/**
 * The persisted entities and their mapping to table rows: the table and
 * column registry, the encoder (`_adapt`) and the decoder (`_convert`).
 * The decoder is modelled as written: the Request and Attempt decoders
 * pass row positions straight into constructors whose parameter lists
 * differ from the column order, and the Response decoder passes one
 * argument too few, so it fails on every row.
 */
module DbMapping {
  import opened Common
  import opened PyValue

  type Row = seq<Value>

  /** The ten thresholds of a class of service. */
  datatype CoSSpecs = CoSSpecs(
    maxResponseTime: Value,
    minConcurrentUsers: Value,
    minRequestsPerSecond: Value,
    minBandwidth: Value,
    maxDelay: Value,
    maxJitter: Value,
    maxLossRate: Value,
    minCpu: Value,
    minRam: Value,
    minDisk: Value)

  /** The defaults of `CoSSpecs()`: unbounded times, delay and jitter, loss rate 1, zero minima. */
  const DefaultSpecs := CoSSpecs(VFloat("inf"), VInt(0), VInt(0), VInt(0), VFloat("inf"),
                                 VFloat("inf"), VInt(1), VInt(0), VInt(0), VInt(0))

  datatype CoS = CoS(id: Value, name: Value, specs: CoSSpecs)

  /** The thresholds, as named by the CoS getters and setters. */
  datatype Threshold =
    | MaxResponseTime | MinConcurrentUsers | MinRequestsPerSecond | MinBandwidth | MaxDelay
    | MaxJitter | MaxLossRate | MinCpu | MinRam | MinDisk

  /** The CoS getters. */
  function GetThreshold(s: CoSSpecs, t: Threshold): Value
  {
    match t
    case MaxResponseTime => s.maxResponseTime
    case MinConcurrentUsers => s.minConcurrentUsers
    case MinRequestsPerSecond => s.minRequestsPerSecond
    case MinBandwidth => s.minBandwidth
    case MaxDelay => s.maxDelay
    case MaxJitter => s.maxJitter
    case MaxLossRate => s.maxLossRate
    case MinCpu => s.minCpu
    case MinRam => s.minRam
    case MinDisk => s.minDisk
  }

  /** The CoS setters: the one threshold takes the value; the id, the name and every other threshold stay, and no timestamp is kept. */
  function SetThreshold(c: CoS, t: Threshold, v: Value): (r: CoS)
    ensures GetThreshold(r.specs, t) == v
    ensures r.id == c.id && r.name == c.name
    ensures forall u :: u != t ==> GetThreshold(r.specs, u) == GetThreshold(c.specs, u)
  {
    var s := c.specs;
    c.(specs := match t
      case MaxResponseTime => s.(maxResponseTime := v)
      case MinConcurrentUsers => s.(minConcurrentUsers := v)
      case MinRequestsPerSecond => s.(minRequestsPerSecond := v)
      case MinBandwidth => s.(minBandwidth := v)
      case MaxDelay => s.(maxDelay := v)
      case MaxJitter => s.(maxJitter := v)
      case MaxLossRate => s.(maxLossRate := v)
      case MinCpu => s.(minCpu := v)
      case MinRam => s.(minRam := v)
      case MinDisk => s.(minDisk := v))
  }

  /** A request's source: an address (or any value read back from the store) or a topology node. */
  datatype Source = SrcValue(v: Value) | SrcNode(node: NodeId)

  /**
   * An attempt. Its `src` and `path` are not persisted; `path` is an
   * arbitrary value because the decoder stores a column there.
   */
  datatype Attempt = Attempt(
    reqId: Value, src: Value, attemptNo: Value, host: Value, path: Value, state: Value,
    hreqAt: Value, hresAt: Value, rresAt: Value, dresAt: Value)

  /**
   * A request. `path` and `dresAt` are arbitrary values because the decoder
   * stores a column in the former and the attempt dictionary in the latter.
   */
  datatype Request = Request(
    id: Value, src: Source, cos: CoS, data: Value, result: Value, host: Value,
    path: Value, state: Value, hreqAt: Value, dresAt: Value, attempts: map<Value, Attempt>)

  datatype Response = Response(
    reqId: Value, src: Value, attemptNo: Value, host: Value, algorithm: Value,
    cpu: Value, ram: Value, disk: Value, timestamp: Value)

  /** An entity handed to the store. `Untabled` stands for a model class without a table (Path, Node, ...). */
  datatype Record =
    | CoSRecord(cos: CoS)
    | RequestRecord(request: Request)
    | AttemptRecord(attempt: Attempt)
    | ResponseRecord(response: Response)
    | Untabled

  /** The entity classes the store is asked about. */
  datatype Shape = CoSShape | RequestShape | AttemptShape | ResponseShape | UntabledShape

  function ShapeOf(r: Record): Shape
  {
    match r
    case CoSRecord(_) => CoSShape
    case RequestRecord(_) => RequestShape
    case AttemptRecord(_) => AttemptShape
    case ResponseRecord(_) => ResponseShape
    case Untabled => UntabledShape
  }

  /** The class-to-table registry; a class outside it makes the lookup raise. */
  function TableName(s: Shape): (t: Option<string>)
    ensures t.None? <==> s == UntabledShape
  {
    match s
    case CoSShape => Some("cos")
    case RequestShape => Some("requests")
    case AttemptShape => Some("attempts")
    case ResponseShape => Some("responses")
    case UntabledShape => None
  }

  /** `_get_columns`: the column names of each table, in table order; none for other classes. */
  function Columns(s: Shape): seq<string>
  {
    match s
    case CoSShape =>
      ["id", "name", "max_response_time", "min_concurrent_users", "min_requests_per_second",
       "min_bandwidth", "max_delay", "max_jitter", "max_loss_rate", "min_cpu", "min_ram", "min_disk"]
    case RequestShape =>
      ["id", "src", "cos_id", "data", "result", "host", "state", "hreq_at", "dres_at"]
    case AttemptShape =>
      ["req_id", "attempt_no", "host", "state", "hreq_at", "hres_at", "rres_at", "dres_at"]
    case ResponseShape =>
      ["req_id", "attempt_no", "host", "cpu", "ram", "disk", "timestamp"]
    case UntabledShape => []
  }

  function NodeIdValue(id: NodeId): Value
  {
    match id
    case StrId(s) => VStr(s)
    case IntId(n) => VInt(n)
  }

  function SourceValue(src: Source): Value
  {
    match src
    case SrcValue(v) => v
    case SrcNode(id) => NodeIdValue(id)
  }

  /**
   * `_adapt`: the row an entity is stored as. A node source is stored by its
   * id and a request's class of service by the class's id. A class without
   * a table encodes to nothing (the table lookup fails before this matters).
   */
  function Encode(r: Record): Row
  {
    match r
    case CoSRecord(c) =>
      var s := c.specs;
      [c.id, c.name, s.maxResponseTime, s.minConcurrentUsers, s.minRequestsPerSecond,
       s.minBandwidth, s.maxDelay, s.maxJitter, s.maxLossRate, s.minCpu, s.minRam, s.minDisk]
    case RequestRecord(q) =>
      [q.id, SourceValue(q.src), q.cos.id, q.data, q.result, q.host, q.state, q.hreqAt, q.dresAt]
    case AttemptRecord(a) =>
      [a.reqId, a.attemptNo, a.host, a.state, a.hreqAt, a.hresAt, a.rresAt, a.dresAt]
    case ResponseRecord(p) =>
      [p.reqId, p.attemptNo, p.host, p.cpu, p.ram, p.disk, p.timestamp]
    case Untabled => []
  }

  /** An encoded row has one value per column of the entity's table. */
  lemma EncodeMatchesColumns(r: Record)
    ensures |Encode(r)| == |Columns(ShapeOf(r))|
  {
  }

  /** A stored threshold replaces the default only when it is not NULL. */
  function Override(stored: Value, current: Value): (v: Value)
    ensures stored.VNone? ==> v == current
    ensures !stored.VNone? ==> v == stored
  {
    if stored.VNone? then current else stored
  }

  /**
   * The CoS branch of `_convert`: a CoS built from the id and name columns
   * with default specs, then every non-NULL threshold column set in turn.
   */
  function DecodeCoS(row: Row): Option<CoS>
  {
    if |row| < 12 then None
    else
      var d := DefaultSpecs;
      Some(CoS(row[0], row[1], CoSSpecs(
        Override(row[2], d.maxResponseTime), Override(row[3], d.minConcurrentUsers),
        Override(row[4], d.minRequestsPerSecond), Override(row[5], d.minBandwidth),
        Override(row[6], d.maxDelay), Override(row[7], d.maxJitter),
        Override(row[8], d.maxLossRate), Override(row[9], d.minCpu),
        Override(row[10], d.minRam), Override(row[11], d.minDisk))))
  }

  /**
   * The Attempt branch of `_convert`: the eight columns passed positionally
   * to `Attempt(req_id, src, attempt_no, host, path, state, hreq_at, hres_at, ...)`,
   * so every column after `req_id` lands one parameter off.
   */
  function DecodeAttempt(row: Row): Option<Attempt>
  {
    if |row| < 8 then None
    else Some(Attempt(row[0], row[1], row[2], row[3], row[4], row[5], row[6], row[7], VNone, VNone))
  }

  /** Decoding a list of rows fails as soon as one row fails. */
  function DecodeAll<T>(rows: seq<Row>, decode: Row -> Option<T>): (r: Option<seq<T>>)
    ensures r.Some? ==> |r.value| == |rows| && forall i :: 0 <= i < |rows| ==> decode(rows[i]) == Some(r.value[i])
    ensures r.None? ==> exists i :: 0 <= i < |rows| && decode(rows[i]).None?
  {
    if rows == [] then Some([])
    else
      var init := DecodeAll(rows[..|rows| - 1], decode);
      var last := decode(rows[|rows| - 1]);
      if init.None? || last.None? then None else Some(init.value + [last.value])
  }

  /**
   * What the store answers to the two nested selects the Request decoder
   * issues for a row: the CoS rows with the row's class id, and the Attempt
   * rows with the row's id (each `None` when that select failed).
   */
  datatype NestedAnswers = NestedAnswers(cosRows: Option<seq<Row>>, attemptRows: Option<seq<Row>>)

  /**
   * The Request branch of `_convert`: the nested selects must succeed and
   * find at least one CoS; the columns then go positionally into
   * `Request(id, src, cos, data, result, host, path, state, hreq_at, dres_at, attempts)`,
   * so the state column lands in `path`, `hreq_at` in `state`, `dres_at` in
   * `hreq_at`, the attempt dictionary in `dres_at`, and `attempts` stays empty.
   */
  function DecodeRequest(row: Row, nested: NestedAnswers): Option<Request>
  {
    if |row| < 9 || nested.cosRows.None? || nested.attemptRows.None? then None
    else
      var coses := DecodeAll(nested.cosRows.value, DecodeCoS);
      var atts := DecodeAll(nested.attemptRows.value, DecodeAttempt);
      if coses.None? || coses.value == [] || atts.None? then None
      else
        Some(Request(row[0], SrcValue(row[1]), coses.value[0], row[3], row[4], row[5],
                     row[6], row[7], row[8], VObject("dict"), map[]))
  }

  /**
   * `_convert` on one row of the given class. `nested` answers the Request
   * decoder's nested selects. The Response branch passes seven columns to a
   * constructor with eight required parameters, so it raises for every row;
   * a class without a branch leaves the result variable unbound, which raises.
   */
  function Decode(s: Shape, row: Row, nested: NestedAnswers): Option<Record>
  {
    match s
    case CoSShape => var c := DecodeCoS(row); if c.None? then None else Some(CoSRecord(c.value))
    case RequestShape => var q := DecodeRequest(row, nested); if q.None? then None else Some(RequestRecord(q.value))
    case AttemptShape => var a := DecodeAttempt(row); if a.None? then None else Some(AttemptRecord(a.value))
    case ResponseShape => None
    case UntabledShape => None
  }

  /** A CoS whose thresholds are all set survives encoding and decoding unchanged. */
  lemma CoSRoundTrip(c: CoS, nested: NestedAnswers)
    requires var s := c.specs;
      !s.maxResponseTime.VNone? && !s.minConcurrentUsers.VNone? && !s.minRequestsPerSecond.VNone?
      && !s.minBandwidth.VNone? && !s.maxDelay.VNone? && !s.maxJitter.VNone? && !s.maxLossRate.VNone?
      && !s.minCpu.VNone? && !s.minRam.VNone? && !s.minDisk.VNone?
    ensures Decode(CoSShape, Encode(CoSRecord(c)), nested) == Some(CoSRecord(c))
  {
  }

  /** A NULL threshold column decodes to the default of that threshold, whatever was encoded. */
  lemma CoSNullThresholdIsDefault(c: CoS)
    requires c.specs.maxDelay.VNone?
    ensures DecodeCoS(Encode(CoSRecord(c))).Some?
    ensures DecodeCoS(Encode(CoSRecord(c))).value.specs.maxDelay == VFloat("inf")
    ensures DecodeCoS(Encode(CoSRecord(c))).value.id == c.id
  {
  }

  /** The Attempt decoder does not invert the encoder: the attempt number comes back as the host. */
  lemma AttemptDecodeMisaligned(a: Attempt)
    ensures DecodeAttempt(Encode(AttemptRecord(a))).Some?
    ensures DecodeAttempt(Encode(AttemptRecord(a))).value.attemptNo == a.host
    ensures DecodeAttempt(Encode(AttemptRecord(a))).value.src == a.attemptNo
  {
  }

  /** No stored Response can be read back. */
  lemma ResponseNeverDecodes(p: Response, nested: NestedAnswers)
    ensures Decode(ResponseShape, Encode(ResponseRecord(p)), nested).None?
  {
  }

  /** The decoder `_convert` applies to each row of class `s`. */
  function RowDecoder(s: Shape, nested: Row -> NestedAnswers): Row -> Option<Record>
  {
    row => Decode(s, row, nested(row))
  }

  /**
   * `_convert`: decodes the rows one by one, appending each object; the
   * first row that fails to decode makes the whole conversion fail.
   * `nested` gives, for each row, the answers to the selects its decoding issues.
   */
  method Convert(rows: seq<Row>, s: Shape, nested: Row -> NestedAnswers) returns (r: Option<seq<Record>>)
    ensures r == DecodeAll(rows, RowDecoder(s, nested))
  {
    var decode := RowDecoder(s, nested);
    var ret: seq<Record> := [];
    var i := 0;
    while i < |rows|
      invariant 0 <= i <= |rows|
      invariant DecodeAll(rows[..i], decode) == Some(ret)
    {
      DecodeAllStep(rows, i, decode);
      var obj := decode(rows[i]);
      if obj.None? {
        DecodeAllFailsOnPrefix(rows, i + 1, decode);
        return None;
      }
      ret := ret + [obj.value];
      i := i + 1;
    }
    assert rows[..i] == rows;
    r := Some(ret);
  }

  /** A select of Response objects fails whenever it finds a row, and yields no objects otherwise. */
  lemma ResponsesNeverConvert(rows: seq<Row>, nested: Row -> NestedAnswers)
    ensures rows != [] <==> DecodeAll(rows, RowDecoder(ResponseShape, nested)).None?
  {
    if rows != [] {
      assert RowDecoder(ResponseShape, nested)(rows[0]).None?;
    }
  }

  /** Decoding one more row of a list extends the decoded prefix, or fails. */
  lemma DecodeAllStep<T>(rows: seq<Row>, i: nat, decode: Row -> Option<T>)
    requires i < |rows|
    ensures var init := DecodeAll(rows[..i], decode);
      DecodeAll(rows[..i + 1], decode) ==
        if init.None? || decode(rows[i]).None? then None else Some(init.value + [decode(rows[i]).value])
  {
    assert rows[..i + 1][..i] == rows[..i];
  }

  /** A row that fails in a prefix makes decoding of the whole list fail. */
  lemma {:induction false} DecodeAllFailsOnPrefix<T>(rows: seq<Row>, k: nat, decode: Row -> Option<T>)
    requires k <= |rows|
    requires DecodeAll(rows[..k], decode).None?
    ensures DecodeAll(rows, decode).None?
    decreases |rows| - k
  {
    if k < |rows| {
      assert rows[..k + 1][..k] == rows[..k];
      DecodeAllFailsOnPrefix(rows, k + 1, decode);
    } else {
      assert rows[..k] == rows;
    }
  }
}
