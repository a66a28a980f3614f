/**
 * The dynamically typed values that flow between the data model and the
 * SQLite store: what an entity attribute holds and what a result row
 * column returns, with Python's `str()` rendering of each.
 */
module PyValue {
  import opened Common

  /**
   * A scalar Python value. A float is carried by its `repr` text, because
   * the store only ever renders or passes floats on, never computes with
   * them. `VObject` stands for any other object (a dictionary, a model
   * object); the SQLite driver refuses to bind it as a parameter.
   */
  datatype Value =
    | VNone
    | VBool(b: bool)
    | VInt(i: int)
    | VFloat(repr: string)
    | VStr(s: string)
    | VBytes(bytes: seq<bv8>)
    | VObject(className: string)

  /** Python truthiness of a scalar (`if x:`). */
  predicate Truthy(v: Value)
  {
    match v
    case VNone => false
    case VBool(b) => b
    case VInt(i) => i != 0
    case VFloat(t) => t !in {"0.0", "-0.0"}
    case VStr(s) => s != ""
    case VBytes(bs) => bs != []
    case VObject(_) => true
  }

  /**
   * `str(v)`. An arbitrary object's repr embeds its address, which the model
   * does not know; it is rendered by its class name alone.
   */
  function Show(v: Value): string
  {
    match v
    case VNone => "None"
    case VBool(b) => if b then "True" else "False"
    case VInt(i) => DecimalString(i)
    case VFloat(t) => t
    case VStr(s) => s
    case VBytes(bs) => BytesRepr(bs)
    case VObject(c) => "<" + c + " object>"
  }

  /** The quote CPython's `bytes.__repr__` chooses: `"` only when the bytes hold `'` but no `"`. */
  function BytesQuote(bs: seq<bv8>): bv8
  {
    if 0x27 in bs && 0x22 !in bs then 0x22 else 0x27
  }

  function ByteChar(b: bv8): char
  {
    (b as int) as char
  }

  /** The escape of one byte inside `bytes.__repr__`, given the chosen quote. */
  function EscapeByte(b: bv8, quote: bv8): (s: string)
    ensures 1 <= |s| <= 4
  {
    if b == quote || b == 0x5c then ['\\', ByteChar(b)]
    else if b == 0x09 then "\\t"
    else if b == 0x0a then "\\n"
    else if b == 0x0d then "\\r"
    else if b < 0x20 || b >= 0x7f then "\\x" + [DigitChar((b / 16) as int), DigitChar((b % 16) as int)]
    else [ByteChar(b)]
  }

  function EscapeBytes(bs: seq<bv8>, quote: bv8): string
  {
    if bs == [] then "" else EscapeByte(bs[0], quote) + EscapeBytes(bs[1..], quote)
  }

  /** `str(b)` of a bytes object, which is its repr: `b'...'`. */
  function BytesRepr(bs: seq<bv8>): string
  {
    var q := BytesQuote(bs);
    "b" + [ByteChar(q)] + EscapeBytes(bs, q) + [ByteChar(q)]
  }

  /** Printable ASCII that needs no escape is shown as itself. */
  lemma {:induction false} EscapePlainAscii(bs: seq<bv8>, quote: bv8)
    requires forall i :: 0 <= i < |bs| ==> 0x20 <= bs[i] < 0x7f && bs[i] != 0x5c && bs[i] != quote
    ensures EscapeBytes(bs, quote) == seq(|bs|, i requires 0 <= i < |bs| => ByteChar(bs[i]))
  {
    if bs != [] {
      EscapePlainAscii(bs[1..], quote);
    }
  }
}
