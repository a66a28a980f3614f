/**
 * The UDP liveness service: every datagram a client sends registers the
 * name on its first line with the time it arrived, and a periodic sweep
 * forgets the clients that have been silent for longer than the timeout.
 * The socket, the threads and the sleep between sweeps are outside the
 * model; arrival and sweep times are parameters.
 */
module UdpServer {
  import opened Common
  import opened Unicode

  const Newline: Byte := 10

  /** The bytes Python's `bytes.strip()` removes: space, tab, line feed, vertical tab, form feed, carriage return. */
  predicate IsSpace(b: Byte)
  {
    b == 32 || 9 <= b <= 13
  }

  /** The same set, as characters. */
  predicate SpaceChar(c: char)
  {
    c == ' ' || '\t' <= c <= '\r'
  }

  /** `readline()` on the datagram: the bytes up to and including the first line feed, or all of them. */
  function FirstLine(bs: seq<Byte>): (r: seq<Byte>)
    ensures r <= bs
    ensures forall i :: 0 <= i < |r| - 1 ==> r[i] != Newline
    ensures |r| < |bs| ==> r != [] && r[|r| - 1] == Newline
  {
    if bs == [] then []
    else if bs[0] == Newline then [Newline]
    else [bs[0]] + FirstLine(bs[1..])
  }

  /** Leading whitespace removed. */
  function StripLeft(bs: seq<Byte>): (r: seq<Byte>)
    ensures r != [] ==> !IsSpace(r[0])
    ensures exists k :: 0 <= k <= |bs| && r == bs[k..] && forall i :: 0 <= i < k ==> IsSpace(bs[i])
  {
    if bs != [] && IsSpace(bs[0]) then
      var r := StripLeft(bs[1..]);
      ghost var k :| 0 <= k <= |bs[1..]| && r == bs[1..][k..] && forall i :: 0 <= i < k ==> IsSpace(bs[1..][i]);
      assert r == bs[k + 1..];
      r
    else
      assert bs == bs[0..];
      bs
  }

  /** Trailing whitespace removed. */
  function StripRight(bs: seq<Byte>): (r: seq<Byte>)
    ensures r != [] ==> !IsSpace(r[|r| - 1])
    ensures exists k :: 0 <= k <= |bs| && r == bs[..k] && forall i :: k <= i < |bs| ==> IsSpace(bs[i])
  {
    if bs != [] && IsSpace(bs[|bs| - 1]) then
      var init := bs[..|bs| - 1];
      var r := StripRight(init);
      ghost var k :| 0 <= k <= |init| && r == init[..k] && forall i :: k <= i < |init| ==> IsSpace(init[i]);
      assert r == bs[..k];
      r
    else
      assert bs == bs[..|bs|];
      bs
  }

  /** `strip()`: whitespace removed at both ends. */
  function Strip(bs: seq<Byte>): seq<Byte>
  {
    StripRight(StripLeft(bs))
  }

  /** The client name a datagram registers: its first line, stripped, decoded; `None` when decoding fails. */
  function ClientKey(datagram: seq<Byte>): Option<string>
  {
    DecodeUtf8(Strip(FirstLine(datagram)))
  }

  /** A name sent in an overlong encoding does not decode, so its datagram registers no client. */
  lemma OverlongNameRegistersNothing()
    ensures ClientKey([0xC0, 0x80, Newline]) == None
  {
    var d: seq<Byte> := [0xC0, 0x80, Newline];
    assert FirstLine(d) == d;
    assert StripLeft(d) == d;
    assert StripRight(d) == [0xC0, 0x80];
    MalformedRefused();
  }

  /** The clients a sweep at time `t` keeps: those heard from at most `timeout` seconds before. */
  function Live(clients: map<string, real>, t: real, timeout: real): map<string, real>
  {
    map id | id in clients && t - clients[id] <= timeout :: clients[id]
  }

  /** The table of live clients: client name to the time its last datagram arrived. */
  class ClientTable {
    var clients: map<string, real>
    /** Seconds of silence after which a client is dropped. */
    const timeout: real

    constructor (timeout: real)
      ensures this.timeout == timeout && clients == map[]
    {
      this.timeout := timeout;
      clients := map[];
    }

    /**
     * `UDPHandler.handle`: the datagram's name is (re)registered with the
     * arrival time, replacing any earlier time; a first line that does not
     * decode raises in the handler and registers nothing.
     */
    method Handle(datagram: seq<Byte>, now: real)
      modifies this`clients
      ensures ClientKey(datagram).Some? ==> clients == old(clients)[ClientKey(datagram).value := now]
      ensures ClientKey(datagram).None? ==> clients == old(clients)
    {
      var key := ClientKey(datagram);
      if key.Some? {
        clients := clients[key.value := now];
      }
    }

    /**
     * One pass of `_check_clients` at time `t`: each client present when
     * the pass starts is dropped when more than `timeout` seconds have gone
     * by since it was last heard from.
     */
    method Sweep(t: real)
      modifies this`clients
      ensures clients == Live(old(clients), t, timeout)
      ensures forall id :: id in old(clients) && t - old(clients)[id] > timeout ==> id !in clients
      ensures forall id :: id in old(clients) && t - old(clients)[id] <= timeout ==>
        id in clients && clients[id] == old(clients)[id]
      ensures forall id :: id in clients ==> id in old(clients)
    {
      var pending := clients.Keys;
      while pending != {}
        invariant pending <= clients.Keys <= old(clients).Keys
        invariant forall id :: id in clients ==> clients[id] == old(clients)[id]
        invariant forall id :: id in old(clients) && id !in pending ==>
          (id in clients <==> t - old(clients)[id] <= timeout)
        decreases pending
      {
        var id :| id in pending;
        if t - clients[id] > timeout {
          clients := clients - {id};
        }
        pending := pending - {id};
      }
    }
  }

  /** A sweep keeps nothing a second sweep at the same time would drop. */
  lemma SweepIdempotent(clients: map<string, real>, t: real, timeout: real)
    ensures Live(Live(clients, t, timeout), t, timeout) == Live(clients, t, timeout)
  {
  }

  /** A later sweep keeps no client an earlier one would have dropped. */
  lemma LaterSweepKeepsFewer(clients: map<string, real>, t1: real, t2: real, timeout: real)
    requires t1 <= t2
    ensures Live(clients, t2, timeout).Keys <= Live(clients, t1, timeout).Keys
  {
  }

  /** A client heard from at `now` survives every sweep up to `timeout` seconds later. */
  lemma FreshClientSurvives(clients: map<string, real>, name: string, now: real, t: real, timeout: real)
    requires t - now <= timeout
    ensures name in Live(clients[name := now], t, timeout)
  {
  }

  /**
   * A client that sends its name on the first line of a datagram is
   * registered under exactly that name, whatever follows the line, when the
   * name holds no line feed and neither starts nor ends with whitespace.
   */
  lemma ClientKeyOfLine(name: string, rest: seq<Byte>)
    requires forall i :: 0 <= i < |name| ==> name[i] != '\n'
    requires name != [] ==> !SpaceChar(name[0]) && !SpaceChar(name[|name| - 1])
    ensures ClientKey(Utf8(name) + [Newline] + rest) == Some(name)
  {
    var e := Utf8(name);
    FirstLineOfName(name, rest);
    NameEnds(name);
    StripLine(e);
    Utf8RoundTrip(name);
    calc {
      ClientKey(e + [Newline] + rest);
      DecodeUtf8(Strip(FirstLine(e + [Newline] + rest)));
      DecodeUtf8(Strip(e + [Newline]));
      DecodeUtf8(e);
    }
  }

  /** The first line of a datagram that starts with a name free of line feeds is that name's bytes and the line feed. */
  lemma FirstLineOfName(name: string, rest: seq<Byte>)
    requires forall i :: 0 <= i < |name| ==> name[i] != '\n'
    ensures FirstLine(Utf8(name) + [Newline] + rest) == Utf8(name) + [Newline]
  {
    var e := Utf8(name);
    Utf8AsciiAbsent(name, Newline);
    FirstLineUpTo(e, [Newline] + rest);
    assert e + [Newline] + rest == e + ([Newline] + rest);
  }

  /** The encoding of a name that neither starts nor ends with whitespace neither starts nor ends with a whitespace byte. */
  lemma NameEnds(name: string)
    requires name != [] ==> !SpaceChar(name[0]) && !SpaceChar(name[|name| - 1])
    ensures var e := Utf8(name); e != [] ==> !IsSpace(e[0]) && !IsSpace(e[|e| - 1])
  {
    var e := Utf8(name);
    if name != [] {
      Utf8Ends(name);
      var first := EncodeChar(name[0]);
      var last := EncodeChar(name[|name| - 1]);
      NotSpaceByte(name[0]);
      NotSpaceByte(name[|name| - 1]);
      assert e[0] == first[0] && e[|e| - 1] == last[|last| - 1];
    } else {
      assert e == [];
    }
  }

  /** Stripping a line whose content neither starts nor ends with whitespace leaves the content. */
  lemma StripLine(e: seq<Byte>)
    requires e != [] ==> !IsSpace(e[0]) && !IsSpace(e[|e| - 1])
    ensures Strip(e + [Newline]) == e
  {
    if e == [] {
      assert StripLeft([Newline]) == StripLeft([]);
    } else {
      assert StripLeft(e + [Newline]) == e + [Newline];
      assert (e + [Newline])[..|e|] == e;
    }
  }

  /** A line read from bytes free of line feeds, followed by one, ends at that line feed. */
  lemma {:induction false} FirstLineUpTo(pre: seq<Byte>, tail: seq<Byte>)
    requires forall i :: 0 <= i < |pre| ==> pre[i] != Newline
    requires tail != [] && tail[0] == Newline
    ensures FirstLine(pre + tail) == pre + [Newline]
  {
    if pre != [] {
      var whole := pre + tail;
      assert whole[0] == pre[0] && whole[1..] == pre[1..] + tail;
      FirstLineUpTo(pre[1..], tail);
      assert [pre[0]] + (pre[1..] + [Newline]) == pre + [Newline];
    } else {
      assert pre + tail == tail;
    }
  }

  /** The first (or last) byte of a character that is not whitespace is not whitespace. */
  lemma NotSpaceByte(c: char)
    requires !SpaceChar(c)
    ensures !IsSpace(EncodeChar(c)[0]) && !IsSpace(EncodeChar(c)[|EncodeChar(c)| - 1])
  {
    if c as int >= 0x80 {
      EncodeCharHigh(c);
    }
  }
}
