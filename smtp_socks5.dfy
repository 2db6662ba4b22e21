/**
 * The SOCKS5 helper of the SMTP transport: the same RFC 1928 exchange as the socks module's
 * client, run as one static sequence of steps, without argument checks.
 */
module SmtpSocks5 {
  import opened Bytes
  import opened Options
  import opened Streams

  /** Why the exchange failed. Numbers are the reply bytes as Java prints them (signed). */
  datatype Failure =
    | CorruptHandshakeReply           // "corrupt handshake reply": the version byte is not 5
    | UnsupportedAuth(authMethod: int)
    | ConnectError(code: int)
    | UnknownAddressType(atyp: int)
    | TooShort                        // "short read": a read returned a count <= 0
    | Transport                       // the proxy stream itself threw an IOException
    | NegativeArraySize               // `new byte[...]` with a negative size
    | NullHost                        // host.length() on a null host

  datatype Outcome = Success | Fail(failure: Failure)

  /** The greeting: version 5, one method, "no authentication". */
  function Greeting(): (g: seq<byte>)
    ensures g == [5, 1, 0]
  {
    [5, 1, 0]
  }

  /** Whether `new byte[7 + n]` gets a non-negative size: 7 + n does not wrap around in a Java int. */
  predicate RequestFits(host: JavaString)
    ensures RequestFits(host) <==> 0 <= ToInt32(7 + |host|)
    ensures RequestFits(host) ==> ToInt32(7 + |host|) == 7 + |host|
  {
    7 + |host| < 0x8000_0000
  }

  /** The request sendRequest builds: `05 01 00 03 (byte)n host port>>8 port&0xFF`, unchecked. */
  function RequestBytes(host: JavaString, port: Int32): (m: seq<byte>)
    requires RequestFits(host)
    ensures |m| == 7 + |host|
    ensures m[..5] == [5, 1, 0, 3, ToByte(|host|)]
    ensures m[5..5 + |host|] == Truncated(host)
    ensures (m[5 + |host|] as int) * 256 + m[6 + |host|] == port % 65536
  {
    LowSixteenBits(port);
    [5, 1, 0, 3, ToByte(|host|)] + Truncated(host) + [ToByte(ShiftRight8(port)), ToByte(port)]
  }

  /** The greeting reply check: `05 00`, or the first of the two mismatches. */
  function CheckGreetingReply(reply: seq<byte>): (o: Outcome)
    requires |reply| == 2
    ensures o == Success <==> reply == [5, 0]
    ensures reply[0] != 5 ==> o == Fail(CorruptHandshakeReply)
    ensures reply[0] == 5 && reply[1] != 0 ==> o == Fail(UnsupportedAuth(Signed(reply[1])))
  {
    if reply[0] != 5 then Fail(CorruptHandshakeReply)
    else if reply[1] != 0 then Fail(UnsupportedAuth(Signed(reply[1])))
    else Success
  }

  /** readExactly(in, b, offset, count) on a scripted stream: the bytes it stores, or its exception. */
  function Fill(chunks: seq<Chunk>, count: nat): (r: (Outcome, seq<byte>, seq<Chunk>))
    ensures r.0 == Success ==> |r.1| == count
  {
    match Collect(chunks, count)
    case Gathered(b, rest) => (Success, b, rest)
    case ShortRead(rest) => (Fail(TooShort), [], rest)
    case TransportError(rest) => (Fail(Transport), [], rest)
  }

  /** waitForGreetingReply on a scripted stream. */
  function GreetingReply(chunks: seq<Chunk>): (r: (Outcome, seq<Chunk>))
    ensures r.0 == Success <==> |Available(chunks)| >= 2 && Available(chunks)[..2] == [5, 0]
    ensures r.0 == Success ==> Available(r.1) == Available(chunks)[2..]
  {
    CollectExactly(chunks, 2);
    var (o, reply, rest) := Fill(chunks, 2);
    if o.Fail? then (o, rest) else (CheckGreetingReply(reply), rest)
  }

  /** waitForRequestReply on a scripted stream: the header, then the address by ATYP. */
  function RequestReply(chunks: seq<Chunk>): (r: (Outcome, seq<Chunk>))
    ensures |Available(chunks)| < 4 ==> r.0.Fail?
    ensures |Available(chunks)| >= 4 && Available(chunks)[0] != 5 ==> r.0 == Fail(CorruptHandshakeReply)
    ensures |Available(chunks)| >= 4 && Available(chunks)[0] == 5 && Available(chunks)[1] != 0 ==>
              r.0 == Fail(ConnectError(Signed(Available(chunks)[1])))
  {
    CollectExactly(chunks, 4);
    var (o, reply, rest) := Fill(chunks, 4);
    if o.Fail? then (o, rest)
    else if reply[0] != 5 then (Fail(CorruptHandshakeReply), rest)
    else if reply[1] != 0 then (Fail(ConnectError(Signed(reply[1]))), rest)
    else AddressReply(reply[3], rest)
  }

  /** The address part of the request reply; for a DOMAINNAME its length byte is read first. */
  function AddressReply(atyp: byte, chunks: seq<Chunk>): (r: (Outcome, seq<Chunk>))
    ensures atyp !in {1, 3, 4} ==> r == (Fail(UnknownAddressType(Signed(atyp))), chunks)
  {
    if atyp == 1 then Discard(chunks, 6)
    else if atyp == 3 then
      var (o, len, rest) := Fill(chunks, 1);
      if o.Fail? then (o, rest) else Discard(rest, Signed(len[0]) + 2)
    else if atyp == 4 then Discard(chunks, 18)
    else (Fail(UnknownAddressType(Signed(atyp))), chunks)
  }

  /** `new byte[size]` followed by readExactly into it. */
  function Discard(chunks: seq<Chunk>, size: int): (r: (Outcome, seq<Chunk>))
    ensures size < 0 ==> r == (Fail(NegativeArraySize), chunks)
  {
    if size < 0 then (Fail(NegativeArraySize), chunks)
    else var (o, _, rest) := Fill(chunks, size); (o, rest)
  }

  /** What request(in, out, host, port) does: its outcome, the bytes it sends, the script it leaves. */
  datatype Exchange = Exchange(outcome: Outcome, sent: seq<byte>, rest: seq<Chunk>)

  function RequestSpec(chunks: seq<Chunk>, host: Option<JavaString>, port: Int32): (e: Exchange)
    ensures |e.sent| >= 3 && e.sent[..3] == Greeting()
    ensures e.outcome == Success ==> host.Some? && |e.sent| == 10 + |host.value|
  {
    var (g, rest) := GreetingReply(chunks);
    if g.Fail? then Exchange(g, Greeting(), rest)
    else
      var c := ConnectSpec(rest, host, port);
      Exchange(c.outcome, Greeting() + c.sent, c.rest)
  }

  /** The second half of request(): sendRequest and then waitForRequestReply. */
  function ConnectSpec(chunks: seq<Chunk>, host: Option<JavaString>, port: Int32): (e: Exchange)
    ensures host.None? ==> e == Exchange(Fail(NullHost), [], chunks)
    ensures host.Some? && !RequestFits(host.value) ==> e == Exchange(Fail(NegativeArraySize), [], chunks)
    ensures e.sent != [] <==> host.Some? && RequestFits(host.value)
    ensures e.sent != [] ==> |e.sent| == 7 + |host.value| && e.sent[5..5 + |host.value|] == Truncated(host.value)
  {
    if host.None? then Exchange(Fail(NullHost), [], chunks)
    else if !RequestFits(host.value) then Exchange(Fail(NegativeArraySize), [], chunks)
    else
      var (r, rest) := RequestReply(chunks);
      Exchange(r, RequestBytes(host.value, port), rest)
  }

  /** The four steps run in order and the first failure ends the exchange. */
  lemma RequestInOrder(chunks: seq<Chunk>, host: Option<JavaString>, port: Int32)
    ensures var e := RequestSpec(chunks, host, port);
      (GreetingReply(chunks).0.Fail? ==>
         (e.outcome == GreetingReply(chunks).0 && e.sent == Greeting() && e.rest == GreetingReply(chunks).1))
      && (e.outcome == Success ==>
            (GreetingReply(chunks).0 == Success && host.Some? && RequestFits(host.value)
             && e.sent == Greeting() + RequestBytes(host.value, port)
             && RequestReply(GreetingReply(chunks).1) == (Success, e.rest)))
  {
  }

  /** sendGreeting(out). */
  method SendGreeting(output: ByteSink)
    modifies output
    ensures output.log == old(output.log) + Greeting() && output.flushes == old(output.flushes) + 1
    ensures output.closes == old(output.closes)
  {
    var greeting := new byte[3];
    greeting[0] := 5;
    greeting[1] := 1;
    greeting[2] := 0;
    output.Write(greeting, 0, 3);
    output.Flush();
  }

  /** sendRequest(out, host, port): a null host or an oversized buffer fails before anything is sent. */
  method SendRequest(output: ByteSink, host: Option<JavaString>, port: Int32) returns (o: Outcome)
    modifies output
    ensures host.None? ==> o == Fail(NullHost)
    ensures host.Some? && !RequestFits(host.value) ==> o == Fail(NegativeArraySize)
    ensures o == Success <==> host.Some? && RequestFits(host.value)
    ensures o == Success ==>
      (output.log == old(output.log) + RequestBytes(host.value, port) && output.flushes == old(output.flushes) + 1)
    ensures o.Fail? ==> output.log == old(output.log) && output.flushes == old(output.flushes)
    ensures output.closes == old(output.closes)
  {
    if host.None? {
      return Fail(NullHost);
    }
    var h := host.value;
    var n := |h|;
    if 7 + n >= 0x8000_0000 {
      return Fail(NegativeArraySize);
    }
    var request := BuildRequest(h, port);
    output.Write(request, 0, request.Length);
    output.Flush();
    o := Success;
  }

  /** The request array of sendRequest, filled field by field and the host in a loop. */
  method BuildRequest(h: JavaString, port: Int32) returns (request: array<byte>)
    requires RequestFits(h)
    ensures fresh(request) && request[..] == RequestBytes(h, port)
  {
    var n := |h|;
    request := new byte[7 + n];
    request[0] := 5;
    request[1] := 1;
    request[2] := 0;
    request[3] := 3;
    request[4] := ToByte(n);
    for i := 0 to n
      invariant request[..5] == [5, 1, 0, 3, ToByte(n)]
      invariant request[5..5 + i] == Truncated(h)[..i]
    {
      request[5 + i] := ToByte(h[i]);
      assert request[5..5 + i + 1] == request[5..5 + i] + [request[5 + i]];
    }
    request[5 + n] := ToByte(ShiftRight8(port));
    request[6 + n] := ToByte(port);
    IsRequestBytes(request[..], h, port);
  }

  lemma IsRequestBytes(m: seq<byte>, h: JavaString, port: Int32)
    requires RequestFits(h) && |m| == 7 + |h|
    requires m[..5] == [5, 1, 0, 3, ToByte(|h|)] && m[5..5 + |h|] == Truncated(h)
    requires m[5 + |h|] == ToByte(ShiftRight8(port)) && m[6 + |h|] == ToByte(port)
    ensures m == RequestBytes(h, port)
  {
    assert m == m[..5] + m[5..5 + |h|] + [m[5 + |h|], m[6 + |h|]];
  }

  /** readExactly(in, b, offset, count): fills `b[offset..offset+count)` in order from successive reads. */
  method ReadExactly(input: ByteSource, b: array<byte>, offset: nat, count: nat) returns (o: Outcome)
    requires offset + count <= b.Length
    modifies input, b
    ensures (o, input.chunks) == (Fill(old(input.chunks), count).0, Fill(old(input.chunks), count).2)
    ensures o == Success ==> b[..] == Overwrite(old(b[..]), offset, Fill(old(input.chunks), count).1)
    ensures b[..offset] == old(b[..offset]) && b[offset + count..] == old(b[offset + count..])
    ensures input.closes == old(input.closes)
  {
    ghost var original := b[..];
    var off, remaining := offset, count;
    while remaining > 0
      invariant offset <= off && 0 <= remaining && off + remaining == offset + count
      invariant input.closes == old(input.closes)
      invariant b[..] == Overwrite(original, offset, b[offset..off])
      invariant Collect(old(input.chunks), count) == Prefixed(b[offset..off], Collect(input.chunks, remaining))
      decreases remaining
    {
      ghost var before := b[offset..off];
      ghost var chunks := input.chunks;
      ghost var d := ReadStep(chunks, remaining);
      var r := input.Read(b, off, remaining);
      OverwriteTwice(original, offset, before, d.bytes);
      if r.Threw? {
        assert Collect(chunks, remaining) == TransportError(input.chunks);
        return Fail(Transport);
      }
      if r.n <= 0 {
        assert Collect(chunks, remaining) == ShortRead(input.chunks);
        return Fail(TooShort);
      }
      assert Collect(chunks, remaining) == Prefixed(d.bytes, Collect(input.chunks, remaining - r.n));
      assert b[offset..off + r.n] == before + d.bytes;
      PrefixedTwice(before, d.bytes, Collect(input.chunks, remaining - r.n));
      off, remaining := off + r.n, remaining - r.n;
    }
    assert Collect(input.chunks, 0) == Gathered([], input.chunks);
    assert b[offset..off] + [] == b[offset..off];
    o := Success;
  }

  /** waitForGreetingReply(in). */
  method WaitForGreetingReply(input: ByteSource) returns (o: Outcome)
    modifies input
    ensures (o, input.chunks) == GreetingReply(old(input.chunks))
    ensures input.closes == old(input.closes)
  {
    var reply := new byte[2];
    o := ReadExactly(input, reply, 0, 2);
    if o.Fail? {
      return;
    }
    if reply[0] != 5 {
      o := Fail(CorruptHandshakeReply);
    } else if reply[1] != 0 {
      o := Fail(UnsupportedAuth(Signed(reply[1])));
    }
  }

  /** waitForRequestReply(in): the DOMAINNAME length byte is read back into `reply[0]`. */
  method WaitForRequestReply(input: ByteSource) returns (o: Outcome)
    modifies input
    ensures (o, input.chunks) == RequestReply(old(input.chunks))
    ensures input.closes == old(input.closes)
  {
    var reply := new byte[4];
    o := ReadExactly(input, reply, 0, 4);
    if o.Fail? {
      return;
    }
    if reply[0] != 5 {
      return Fail(CorruptHandshakeReply);
    } else if reply[1] != 0 {
      return Fail(ConnectError(Signed(reply[1])));
    }
    var size: int;
    if reply[3] == 1 {
      size := 6;
    } else if reply[3] == 3 {
      ghost var rest := input.chunks;
      o := ReadExactly(input, reply, 0, 1);
      if o.Fail? {
        return;
      }
      assert [reply[0]] == Fill(rest, 1).1;
      size := Signed(reply[0]) + 2;
    } else if reply[3] == 4 {
      size := 18;
    } else {
      return Fail(UnknownAddressType(Signed(reply[3])));
    }
    if size < 0 {
      return Fail(NegativeArraySize);
    }
    var address := new byte[size];
    o := ReadExactly(input, address, 0, address.Length);
  }

  /**
   * Once the greeting reply is accepted, request() has sent the greeting followed by exactly what
   * the connect half sends, and it ends as the connect half does.
   */
  lemma GreetingThenConnect(log: seq<byte>, chunks: seq<Chunk>, host: Option<JavaString>, port: Int32)
    requires GreetingReply(chunks).0 == Success
    ensures var c := ConnectSpec(GreetingReply(chunks).1, host, port);
      && log + RequestSpec(chunks, host, port).sent == (log + Greeting()) + c.sent
      && RequestSpec(chunks, host, port).outcome == c.outcome && RequestSpec(chunks, host, port).rest == c.rest
  {
    var c := ConnectSpec(GreetingReply(chunks).1, host, port);
    assert log + (Greeting() + c.sent) == (log + Greeting()) + c.sent;
  }

  /** request(in, out, host, port): greeting, greeting reply, request, request reply, in that order. */
  method Request(input: ByteSource, output: ByteSink, host: Option<JavaString>, port: Int32) returns (o: Outcome)
    modifies input, output
    ensures var e := RequestSpec(old(input.chunks), host, port);
      o == e.outcome && output.log == old(output.log) + e.sent && input.chunks == e.rest
    ensures input.closes == old(input.closes) && output.closes == old(output.closes)
  {
    ghost var log, chunks := output.log, input.chunks;
    SendGreeting(output);
    o := WaitForGreetingReply(input);
    if o.Fail? {
      return;
    }
    GreetingThenConnect(log, chunks, host, port);
    o := Connect(input, output, host, port);
  }

  /** The request and its reply, once the greeting has been accepted. */
  method Connect(input: ByteSource, output: ByteSink, host: Option<JavaString>, port: Int32) returns (o: Outcome)
    modifies input, output
    ensures var e := ConnectSpec(old(input.chunks), host, port);
      o == e.outcome && output.log == old(output.log) + e.sent && input.chunks == e.rest
    ensures input.closes == old(input.closes) && output.closes == old(output.closes)
  {
    o := SendRequest(output, host, port);
    if o.Fail? {
      return;
    }
    o := WaitForRequestReply(input);
  }
}
