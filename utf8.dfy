/**
 * UTF-8, as Python's `str.encode()` writes it, and the strict decoder of
 * `bytes.decode()`: a character is read only from the shortest encoding
 * of a scalar value, so overlong forms, stray or missing continuation
 * bytes and surrogates are refused. Encoding and decoding are proved
 * inverse in both directions.
 */
module Unicode {
  import opened Common

  /** A byte of an encoded string. */
  type Byte = b: int | 0 <= b < 256

  /** `str.encode()`: UTF-8. */
  function Utf8(s: string): (r: seq<Byte>)
    ensures |s| <= |r| <= 4 * |s|
  {
    if s == [] then [] else EncodeChar(s[0]) + Utf8(s[1..])
  }

  /** A character's bytes: an ASCII character as itself, any other only as bytes outside ASCII. */
  function EncodeChar(c: char): (r: seq<Byte>)
    ensures 1 <= |r| <= 4
    ensures c as int < 0x80 ==> r == [c as int]
  {
    var n := c as int;
    if n < 0x80 then [n]
    else if n < 0x800 then [0xC0 + n / 64, 0x80 + n % 64]
    else if n < 0x10000 then [0xE0 + n / 4096, 0x80 + n / 64 % 64, 0x80 + n % 64]
    else [0xF0 + n / 262144, 0x80 + n / 4096 % 64, 0x80 + n / 64 % 64, 0x80 + n % 64]
  }

  /** The scalar value a code point denotes, when it is one. */
  function CharOf(n: int): Option<char>
  {
    if 0 <= n < 0xD800 || 0xE000 <= n < 0x11_0000 then Some(n as char) else None
  }

  /** The number of bytes of the character a leading byte starts. */
  function SeqLength(b0: Byte): nat
  {
    if b0 < 0x80 then 1 else if b0 < 0xE0 then 2 else if b0 < 0xF0 then 3 else 4
  }

  /** The code point of the character encoded by the first `SeqLength(bs[0])` bytes. */
  function CodePoint(bs: seq<Byte>): int
    requires |bs| >= 1 && |bs| >= SeqLength(bs[0])
  {
    var b0: int := bs[0];
    var b1: int := if |bs| > 1 then bs[1] else 0;
    var b2: int := if |bs| > 2 then bs[2] else 0;
    var b3: int := if |bs| > 3 then bs[3] else 0;
    if b0 < 0x80 then b0
    else if b0 < 0xE0 then (b0 - 0xC0) * 64 + (b1 - 0x80)
    else if b0 < 0xF0 then (b0 - 0xE0) * 4096 + (b1 - 0x80) * 64 + (b2 - 0x80)
    else (b0 - 0xF0) * 262144 + (b1 - 0x80) * 4096 + (b2 - 0x80) * 64 + (b3 - 0x80)
  }

  /**
   * Strict UTF-8 decoding: the leading byte gives the length, and the bytes
   * read must be exactly the encoding of the scalar value they denote.
   */
  function DecodeUtf8(bs: seq<Byte>): Option<string>
    decreases |bs|
  {
    if bs == [] then Some([])
    else if |bs| < SeqLength(bs[0]) then None
    else
      var c := CharOf(CodePoint(bs));
      var rest := DecodeUtf8(bs[SeqLength(bs[0])..]);
      if c.None? || EncodeChar(c.value) != bs[..SeqLength(bs[0])] || rest.None? then None
      else Some([c.value] + rest.value)
  }

  /** Decoding a character's encoding followed by more bytes reads the character, then the rest. */
  lemma DecodeEncodeChar(c: char, rest: seq<Byte>)
    ensures DecodeUtf8(EncodeChar(c) + rest) ==
      (var r := DecodeUtf8(rest); if r.None? then None else Some([c] + r.value))
  {
    var e := EncodeChar(c);
    var bs := e + rest;
    assert SeqLength(bs[0]) == |e|;
    assert bs[..|e|] == e;
    assert bs[|e|..] == rest;
    EncodedCodePoint(c, rest);
    assert CharOf(c as int) == Some(c);
  }

  lemma EncodedCodePoint(c: char, rest: seq<Byte>)
    ensures var bs := EncodeChar(c) + rest;
      SeqLength(bs[0]) == |EncodeChar(c)| && CodePoint(bs) == c as int
  {
    var n := c as int;
    if n < 0x80 {
    } else if n < 0x800 {
      assert n == (n / 64) * 64 + n % 64;
    } else if n < 0x10000 {
      ThreeBytes(n);
    } else {
      FourBytes(n);
    }
  }

  lemma ThreeBytes(n: int)
    requires 0x800 <= n < 0x10000
    ensures (n / 4096) * 4096 + (n / 64 % 64) * 64 + n % 64 == n
  {
    assert n == (n / 64) * 64 + n % 64;
    assert n / 64 == (n / 64 / 64) * 64 + n / 64 % 64;
    assert n / 64 / 64 == n / 4096;
  }

  lemma FourBytes(n: int)
    requires 0x10000 <= n < 0x11_0000
    ensures (n / 262144) * 262144 + (n / 4096 % 64) * 4096 + (n / 64 % 64) * 64 + n % 64 == n
    ensures n / 262144 < 8
  {
    assert n == (n / 64) * 64 + n % 64;
    assert n / 64 == (n / 64 / 64) * 64 + n / 64 % 64;
    assert n / 64 / 64 == n / 4096;
    assert n / 4096 == (n / 4096 / 64) * 64 + n / 4096 % 64;
    assert n / 4096 / 64 == n / 262144;
  }

  /** Encoding a string and decoding it gives it back. */
  lemma {:induction false} Utf8RoundTrip(s: string)
    ensures DecodeUtf8(Utf8(s)) == Some(s)
  {
    if s != [] {
      Utf8RoundTrip(s[1..]);
      DecodeEncodeChar(s[0], Utf8(s[1..]));
      assert [s[0]] + s[1..] == s;
    }
  }

  /** Whatever decodes is the encoding of what it decodes to: no other byte string is accepted. */
  lemma {:induction false} DecodeUtf8Canonical(bs: seq<Byte>)
    ensures DecodeUtf8(bs).Some? ==> Utf8(DecodeUtf8(bs).value) == bs
    decreases |bs|
  {
    if bs != [] && DecodeUtf8(bs).Some? {
      var k, c := DecodeFirst(bs);
      var rest := bs[k..];
      var r := DecodeUtf8(rest).value;
      DecodeUtf8Canonical(rest);
      Utf8Cons(c, r);
      SplitJoin(bs, k);
      assert Utf8([c] + r) == bs[..k] + rest;
    }
  }

  /** A string that decodes starts with the encoding of its first character, and the rest decodes too. */
  lemma DecodeFirst(bs: seq<Byte>) returns (k: nat, c: char)
    requires bs != [] && DecodeUtf8(bs).Some?
    ensures k <= |bs| && EncodeChar(c) == bs[..k] && DecodeUtf8(bs[k..]).Some?
    ensures DecodeUtf8(bs).value == [c] + DecodeUtf8(bs[k..]).value
  {
    k := SeqLength(bs[0]);
    c := CharOf(CodePoint(bs)).value;
  }

  /** Splitting bytes at any point and joining the halves gives them back. */
  lemma SplitJoin(bs: seq<Byte>, k: nat)
    requires k <= |bs|
    ensures bs[..k] + bs[k..] == bs
  {
  }

  /** A string with a first character is encoded as that character, then the rest. */
  lemma Utf8Cons(c: char, s: string)
    ensures Utf8([c] + s) == EncodeChar(c) + Utf8(s)
  {
    assert ([c] + s)[1..] == s;
  }

  /** An overlong form and a missing continuation byte are refused, as Python's strict decoder does. */
  lemma MalformedRefused()
    ensures DecodeUtf8([0xC0, 0x80]) == None
    ensures DecodeUtf8([0xC3, 0x41]) == None
    ensures DecodeUtf8([0xED, 0xA0, 0x80]) == None
  {
    assert EncodeChar(0 as char) == [0];
    assert EncodeChar(129 as char) == [0xC2, 0x81];
  }

  /** Encoding distributes over concatenation. */
  lemma Utf8Append(a: string, b: string)
    ensures Utf8(a + b) == Utf8(a) + Utf8(b)
  {
    Utf8IsConcat(a + b);
    Utf8IsConcat(a);
    Utf8IsConcat(b);
    ConcatAppend(EncodeChar, a, b);
  }

  /** The bytes `f` gives each character of a string, one after the other. */
  function Concat(f: char -> seq<Byte>, s: string): seq<Byte>
  {
    if s == [] then [] else f(s[0]) + Concat(f, s[1..])
  }

  /** `Utf8` is the concatenation of the characters' encodings. */
  lemma {:induction false} Utf8IsConcat(s: string)
    ensures Utf8(s) == Concat(EncodeChar, s)
  {
    if s != [] {
      Utf8IsConcat(s[1..]);
    }
  }

  /** Concatenating per-character bytes distributes over string concatenation, whatever the encoding. */
  lemma {:induction false} ConcatAppend(f: char -> seq<Byte>, a: string, b: string)
    ensures Concat(f, a + b) == Concat(f, a) + Concat(f, b)
  {
    if a == [] {
      assert a + b == b;
    } else {
      assert (a + b)[0] == a[0] && (a + b)[1..] == a[1..] + b;
      ConcatAppend(f, a[1..], b);
    }
  }

  /** A character outside ASCII is encoded only in bytes outside ASCII. */
  lemma EncodeCharHigh(c: char)
    requires c as int >= 0x80
    ensures forall i :: 0 <= i < |EncodeChar(c)| ==> EncodeChar(c)[i] >= 0x80
  {
  }

  /** An ASCII byte occurs in an encoding only where its character occurs in the string. */
  lemma {:induction false} Utf8AsciiAbsent(s: string, b: Byte)
    requires b < 0x80 && forall i :: 0 <= i < |s| ==> s[i] as int != b
    ensures forall i :: 0 <= i < |Utf8(s)| ==> Utf8(s)[i] != b
  {
    if s != [] {
      Utf8AsciiAbsent(s[1..], b);
      var e := EncodeChar(s[0]);
      if s[0] as int >= 0x80 {
        EncodeCharHigh(s[0]);
      }
      assert forall i :: 0 <= i < |e| ==> e[i] != b;
      assert Utf8(s) == e + Utf8(s[1..]);
    }
  }

  /** The first and last bytes of a non-empty string's encoding come from its first and last characters. */
  lemma Utf8Ends(s: string)
    requires s != []
    ensures Utf8(s) != [] && Utf8(s)[0] == EncodeChar(s[0])[0]
    ensures var e := EncodeChar(s[|s| - 1]); Utf8(s)[|Utf8(s)| - 1] == e[|e| - 1]
  {
    var init := s[..|s| - 1];
    var last := s[|s| - 1];
    assert s == init + [last];
    Utf8Append(init, [last]);
    assert Utf8([last]) == EncodeChar(last) + Utf8([]);
  }
}
