/**
 * Shared vocabulary of the model: optional values, the Python floats the
 * core compares (finite or +inf), node identifiers, and the small string
 * helpers that several components use (joining, decimal and hexadecimal text).
 */
module Common {

  /** Python's `None` versus a present value. */
  datatype Option<T> = None | Some(value: T)

  /**
   * A Python float as the core uses it in comparisons and minima: a finite
   * value or `float('inf')`, the only non-finite value the core produces.
   */
  datatype ExtReal = Fin(r: real) | Inf {

    /** Python's `<` on two such floats. */
    predicate Less(other: ExtReal) {
      match this
      case Inf => false
      case Fin(a) => other.Inf? || a < other.r
    }
  }

  /**
   * A topology node identifier. Hosts are identified by a string (their MAC
   * address or the id given through the REST interface), switches by their
   * integer datapath id; Python mixes both kinds as keys of one dictionary.
   */
  datatype NodeId = StrId(s: string) | IntId(n: int)

  /** `sep.join(xs)`. */
  function Join(xs: seq<string>, sep: string): string
  {
    if xs == [] then "" else if |xs| == 1 then xs[0] else xs[0] + sep + Join(xs[1..], sep)
  }

  /** Joining one more element at the end only appends a separator and that element. */
  lemma {:induction false} JoinSnoc(xs: seq<string>, x: string, sep: string)
    requires xs != []
    ensures Join(xs + [x], sep) == Join(xs, sep) + sep + x
  {
    if |xs| == 1 {
      assert xs + [x] == [xs[0], x];
      assert Join([x], sep) == x;
    } else {
      assert (xs + [x])[1..] == xs[1..] + [x];
      JoinSnoc(xs[1..], x, sep);
    }
  }

  /** The number of occurrences of `c` in `s` (Python's `s.count(c)` for one character). */
  function CountChar(s: string, c: char): nat
  {
    if s == [] then 0 else (if s[0] == c then 1 else 0) + CountChar(s[1..], c)
  }

  lemma {:induction false} CountCharAppend(a: string, b: string, c: char)
    ensures CountChar(a + b, c) == CountChar(a, c) + CountChar(b, c)
  {
    if a != [] {
      assert (a + b)[1..] == a[1..] + b;
      CountCharAppend(a[1..], b, c);
    } else {
      assert a + b == b;
    }
  }

  /** The number of `c` in a join is the sum over the parts plus one per separator. */
  lemma {:induction false} CountCharJoin(xs: seq<string>, sep: string, c: char, k: nat)
    requires forall i :: 0 <= i < |xs| ==> CountChar(xs[i], c) == k
    requires CountChar(sep, c) == 0
    ensures CountChar(Join(xs, sep), c) == k * |xs|
  {
    if |xs| == 0 {
    } else if |xs| == 1 {
    } else {
      var rest := Join(xs[1..], sep);
      assert Join(xs, sep) == xs[0] + sep + rest;
      CountCharJoin(xs[1..], sep, c, k);
      CountCharAppend(xs[0], sep, c);
      CountCharAppend(xs[0] + sep, rest, c);
      assert k * |xs| == k * |xs[1..]| + k;
    }
  }

  function DigitChar(d: nat): char
    requires d < 16
  {
    "0123456789abcdef"[d]
  }

  /** Digits of `n` in base `b`, most significant first, without sign or prefix. */
  function Digits(n: nat, b: nat): (s: string)
    requires 2 <= b <= 16
    ensures |s| >= 1
    decreases n
  {
    if n < b then [DigitChar(n)] else Digits(n / b, b) + [DigitChar(n % b)]
  }

  /** `str(n)` for a Python int. */
  function DecimalString(n: int): string
  {
    if n < 0 then "-" + Digits(-n, 10) else Digits(n, 10)
  }

  /** `f'{n:x}'`: lower-case hexadecimal without a prefix. */
  function HexString(n: nat): string
  {
    Digits(n, 16)
  }
}
