/**
 * The SOCKS5 proxy client of the socks protocol module: RFC 1928 with the "no authentication"
 * method only, a CONNECT request by DOMAINNAME, and the reply checks.
 */
module Socks5Client {
  import opened Bytes
  import opened Options
  import opened Streams

  const ProtocolVersion: byte := 0x05
  const AuthNone: byte := 0x00
  const CmdConnect: byte := 0x01
  const AddrTypeIpv4: byte := 0x01
  const AddrTypeHostname: byte := 0x03
  const AddrTypeIpv6: byte := 0x04
  const ErrSuccess: byte := 0x00

  /** Why an operation failed. Numbers are the reply bytes as Java prints them (signed). */
  datatype Failure =
    | InputStreamNull              // IllegalArgumentException from the constructor
    | OutputStreamNull             // IllegalArgumentException from the constructor
    | HostnameNull                 // IllegalArgumentException from connect
    | HostnameTooLong              // IllegalArgumentException from connect
    | PortInvalid                  // IllegalArgumentException from connect
    | UnsupportedVersion(version: int)
    | UnsupportedAuth(authMethod: int)
    | ConnectionError(code: int)
    | UnknownAddressType(atyp: int)
    | UnexpectedEnd                // a read returned a count <= 0
    | Transport                    // the proxy stream itself threw an IOException
    | NegativeArraySize            // `new byte[count]` with a negative count

  datatype Outcome = Success | Fail(failure: Failure)

  /** What readExactly(count) returns: the bytes, or the exception it raises. */
  datatype Exact = Exact(bytes: seq<byte>) | Short(failure: Failure)

  /** readExactly(count) on a scripted stream: its result and the script left afterwards. */
  function ReadExactlySpec(chunks: seq<Chunk>, count: int): (r: (Exact, seq<Chunk>))
    ensures r.0.Exact? ==> count >= 0 && |r.0.bytes| == count
    ensures count < 0 ==> r == (Short(NegativeArraySize), chunks)
  {
    if count < 0 then (Short(NegativeArraySize), chunks)
    else match Collect(chunks, count)
      case Gathered(b, rest) => (Exact(b), rest)
      case ShortRead(rest) => (Short(UnexpectedEnd), rest)
      case TransportError(rest) => (Short(Transport), rest)
  }

  /** The method-selection message of section 3 of RFC 1928: version 5, one method, "no authentication". */
  function Greeting(): (g: seq<byte>)
    ensures |g| == 3 && g[0] == ProtocolVersion && g[1] == 1 && g[2] == AuthNone
  {
    [ProtocolVersion, 1, AuthNone]
  }

  /** The check of the two-byte method-selection reply: the version first, then the method. */
  function CheckMethodReply(reply: seq<byte>): (o: Outcome)
    requires |reply| == 2
    ensures o == Success <==> reply == [ProtocolVersion, AuthNone]
    ensures reply[0] != ProtocolVersion ==> o == Fail(UnsupportedVersion(Signed(reply[0])))
    ensures reply[0] == ProtocolVersion && reply[1] != AuthNone ==> o == Fail(UnsupportedAuth(Signed(reply[1])))
  {
    if reply[0] != ProtocolVersion then Fail(UnsupportedVersion(Signed(reply[0])))
    else if reply[1] != AuthNone then Fail(UnsupportedAuth(Signed(reply[1])))
    else Success
  }

  /** What handshake() reads and decides once the greeting is sent. */
  function HandshakeReply(chunks: seq<Chunk>): (r: (Outcome, seq<Chunk>))
    ensures r.0 == Success ==> |Available(chunks)| >= 2 && Available(r.1) == Available(chunks)[2..]
    ensures |Available(chunks)| >= 2 && Available(chunks)[0] != ProtocolVersion ==>
              r.0 == Fail(UnsupportedVersion(Signed(Available(chunks)[0])))
  {
    CollectExactly(chunks, 2);
    var (reply, rest) := ReadExactlySpec(chunks, 2);
    match reply
    case Short(f) => (Fail(f), rest)
    case Exact(b) => (CheckMethodReply(b), rest)
  }

  /** The argument checks of connect, in the order the code makes them. */
  function ValidateConnect(hostname: Option<JavaString>, port: Int32): (o: Outcome)
    ensures o == Success <==> hostname.Some? && |hostname.value| <= 255 && 1 <= port <= 65535
    ensures hostname.None? ==> o == Fail(HostnameNull)
    ensures hostname.Some? && |hostname.value| > 255 ==> o == Fail(HostnameTooLong)
    ensures hostname.Some? && |hostname.value| <= 255 && !(1 <= port <= 65535) ==> o == Fail(PortInvalid)
  {
    if hostname.None? then Fail(HostnameNull)
    else if |hostname.value| > 255 then Fail(HostnameTooLong)
    else if port <= 0 || port > 65535 then Fail(PortInvalid)
    else Success
  }

  /**
   * The CONNECT request of sections 4 and 5 of RFC 1928 with a DOMAINNAME address:
   * VER CMD RSV ATYP, the name's length, the name, then the port in network order.
   */
  function ConnectRequest(hostname: JavaString, port: Int32): (m: seq<byte>)
    requires |hostname| <= 255 && 1 <= port <= 65535
    ensures |m| == 7 + |hostname|
    ensures m[..5] == [ProtocolVersion, CmdConnect, 0, AddrTypeHostname, |hostname|]
    ensures m[5..5 + |hostname|] == Truncated(hostname)
    ensures (m[5 + |hostname|] as int) * 256 + m[6 + |hostname|] == port
  {
    PortInNetworkOrder(port);
    [ProtocolVersion, CmdConnect, 0, AddrTypeHostname, ToByte(|hostname|)] + Truncated(hostname)
      + [ToByte(ShiftRight8(port)), ToByte(port)]
  }

  /** A port number is its two network-order bytes read back. */
  lemma PortInNetworkOrder(port: Int32)
    requires 0 <= port < 65536
    ensures 0 <= ShiftRight8(port) < 256
    ensures ToByte(ShiftRight8(port)) * 256 + ToByte(port) == port
  {
    assert ToByte(port) == port % 256;
  }

  /** A CONNECT request to a DOMAINNAME target as a proxy reads it. */
  datatype Request = Request(host: seq<byte>, port: nat)

  /** The proxy's reading of a CONNECT request (sections 4 and 5 of RFC 1928). */
  function ParseRequest(m: seq<byte>): (r: Option<Request>)
    ensures r.Some? ==> |m| == 7 + |r.value.host| && r.value.port < 65536
  {
    if |m| < 7 || m[..4] != [ProtocolVersion, CmdConnect, 0, AddrTypeHostname] || |m| != 7 + m[4] as int then None
    else Some(Request(m[5..5 + m[4]], (m[5 + m[4]] as int) * 256 + m[6 + m[4]]))
  }

  /** A proxy reading the request gets back the host (each code unit cut to a byte) and the port. */
  lemma RequestRoundTrip(hostname: JavaString, port: Int32)
    requires |hostname| <= 255 && 1 <= port <= 65535
    ensures ParseRequest(ConnectRequest(hostname, port)) == Some(Request(Truncated(hostname), port))
  {
    ParseWellFormed(ConnectRequest(hostname, port), Truncated(hostname), port);
  }

  lemma ParseWellFormed(m: seq<byte>, host: seq<byte>, port: nat)
    requires |host| <= 255 && |m| == 7 + |host|
    requires m[..5] == [ProtocolVersion, CmdConnect, 0, AddrTypeHostname, |host|]
    requires m[5..5 + |host|] == host
    requires (m[5 + |host|] as int) * 256 + m[6 + |host|] == port
    ensures ParseRequest(m) == Some(Request(host, port))
  {
    assert m[..4] == m[..5][..4];
    assert m[4] == m[..5][4];
  }

  /**
   * The length of the reply of section 6 of RFC 1928 that `a` starts with, when connect accepts
   * it; None when connect refuses it.
   */
  function AcceptedReplyLength(a: seq<byte>): (n: Option<nat>)
    ensures n.Some? ==> 4 <= n.value <= |a|
  {
    if |a| < 4 || a[0] != ProtocolVersion || a[1] != ErrSuccess then None
    else match AddressLength(a[3], a[4..])
      case None => None
      case Some(k) => Some(4 + k)
  }

  /**
   * The length of BND.ADDR and BND.PORT for address type `atyp` when `t` starts with them, with
   * the DOMAINNAME length byte read as a signed Java byte.
   */
  function AddressLength(atyp: byte, t: seq<byte>): (n: Option<nat>)
    ensures n.Some? ==> n.value <= |t|
  {
    if atyp == AddrTypeIpv4 then (if |t| >= 6 then Some(6) else None)
    else if atyp == AddrTypeHostname then
      (if |t| >= 1 && Signed(t[0]) + 2 >= 0 && |t| >= 3 + Signed(t[0]) then Some(3 + Signed(t[0])) else None)
    else if atyp == AddrTypeIpv6 then (if |t| >= 22 - 4 then Some(18) else None)
    else None
  }

  /** The reads connect makes after its request: the 4-byte header, then BND.ADDR and BND.PORT. */
  function ConnectReply(chunks: seq<Chunk>): (r: (Outcome, seq<Chunk>))
    ensures |Available(chunks)| < 4 ==> r.0.Fail?
    ensures |Available(chunks)| >= 4 && Available(chunks)[0] != ProtocolVersion ==>
              r.0 == Fail(UnsupportedVersion(Signed(Available(chunks)[0])))
    ensures |Available(chunks)| >= 4 && Available(chunks)[0] == ProtocolVersion && Available(chunks)[1] != ErrSuccess ==>
              r.0 == Fail(ConnectionError(Signed(Available(chunks)[1])))
  {
    CollectExactly(chunks, 4);
    var (header, rest) := ReadExactlySpec(chunks, 4);
    match header
    case Short(f) => (Fail(f), rest)
    case Exact(h) => CheckReply(h, rest)
  }

  /** The header check: the version first, then the reply code; then the address by ATYP. */
  function CheckReply(h: seq<byte>, chunks: seq<Chunk>): (r: (Outcome, seq<Chunk>))
    requires |h| == 4
    ensures h[0] != ProtocolVersion ==> r == (Fail(UnsupportedVersion(Signed(h[0]))), chunks)
    ensures h[0] == ProtocolVersion && h[1] != ErrSuccess ==> r == (Fail(ConnectionError(Signed(h[1]))), chunks)
  {
    if h[0] != ProtocolVersion then (Fail(UnsupportedVersion(Signed(h[0]))), chunks)
    else if h[1] != ErrSuccess then (Fail(ConnectionError(Signed(h[1]))), chunks)
    else SkipAddress(h[3], chunks)
  }

  /** Reading BND.ADDR and BND.PORT by ATYP; an unknown ATYP reads nothing and fails. */
  function SkipAddress(atyp: byte, chunks: seq<Chunk>): (r: (Outcome, seq<Chunk>))
    ensures atyp !in {AddrTypeIpv4, AddrTypeHostname, AddrTypeIpv6} ==> r == (Fail(UnknownAddressType(Signed(atyp))), chunks)
  {
    if atyp == AddrTypeIpv4 then Skip(chunks, 6)
    else if atyp == AddrTypeHostname then
      var (len, rest) := ReadExactlySpec(chunks, 1);
      match len
      case Short(f) => (Fail(f), rest)
      case Exact(l) => Skip(rest, Signed(l[0]) + 2)
    else if atyp == AddrTypeIpv6 then Skip(chunks, 18)
    else (Fail(UnknownAddressType(Signed(atyp))), chunks)
  }

  /** readExactly(count) whose bytes are thrown away. */
  function Skip(chunks: seq<Chunk>, count: int): (r: (Outcome, seq<Chunk>))
    ensures count < 0 ==> r == (Fail(NegativeArraySize), chunks)
    ensures r.0 == Success ==> 0 <= count <= |Available(chunks)| && Available(r.1) == Available(chunks)[count..]
  {
    CollectExactly(chunks, if count >= 0 then count else 0);
    var (r, rest) := ReadExactlySpec(chunks, count);
    match r
    case Short(f) => (Fail(f), rest)
    case Exact(_) => (Success, rest)
  }

  lemma SkipExactly(chunks: seq<Chunk>, count: int)
    ensures Skip(chunks, count).0 == Success <==> 0 <= count <= |Available(chunks)|
    ensures Skip(chunks, count).0 == Success ==> Available(Skip(chunks, count).1) == Available(chunks)[count..]
  {
    CollectExactly(chunks, if count >= 0 then count else 0);
  }

  /** The greeting reply is accepted exactly when the proxy's first two bytes are `05 00`. */
  lemma HandshakeAccepts(chunks: seq<Chunk>)
    ensures HandshakeReply(chunks).0 == Success <==>
      |Available(chunks)| >= 2 && Available(chunks)[..2] == [ProtocolVersion, AuthNone]
  {
    CollectExactly(chunks, 2);
  }

  /** The address is skipped exactly when the stream holds all of it, and nothing more is consumed. */
  lemma SkipAddressExactly(atyp: byte, chunks: seq<Chunk>)
    ensures SkipAddress(atyp, chunks).0 == Success <==> AddressLength(atyp, Available(chunks)).Some?
    ensures SkipAddress(atyp, chunks).0 == Success ==>
      Available(SkipAddress(atyp, chunks).1) == Available(chunks)[AddressLength(atyp, Available(chunks)).value..]
  {
    var t := Available(chunks);
    if atyp == AddrTypeIpv4 {
      SkipExactly(chunks, 6);
    } else if atyp == AddrTypeIpv6 {
      SkipExactly(chunks, 18);
    } else if atyp == AddrTypeHostname {
      CollectExactly(chunks, 1);
      if |t| >= 1 {
        var rest := Collect(chunks, 1).rest;
        assert Available(rest) == t[1..];
        SkipExactly(rest, Signed(t[0]) + 2);
      }
    }
  }

  /**
   * connect accepts the reply exactly when the proxy's bytes start with an accepted reply, and
   * then it has consumed exactly that reply and nothing after it.
   */
  lemma ConnectReplyExactly(chunks: seq<Chunk>)
    ensures ConnectReply(chunks).0 == Success <==> AcceptedReplyLength(Available(chunks)).Some?
    ensures ConnectReply(chunks).0 == Success ==>
      Available(ConnectReply(chunks).1) == Available(chunks)[AcceptedReplyLength(Available(chunks)).value..]
  {
    var a := Available(chunks);
    CollectExactly(chunks, 4);
    if |a| >= 4 {
      var g := Collect(chunks, 4);
      assert g.bytes == a[..4];
      SkipAddressExactly(a[3], g.rest);
    }
  }

  /** The client over the proxy connection's two streams. */
  class Client {
    const input: ByteSource
    const output: ByteSink

    constructor (input: ByteSource, output: ByteSink)
      ensures this.input == input && this.output == output
    {
      this.input := input;
      this.output := output;
    }

    /** handshake(): send the greeting, then accept only the reply `05 00`. */
    method Handshake() returns (o: Outcome)
      modifies input, output
      ensures output.log == old(output.log) + Greeting() && output.flushes == old(output.flushes) + 1
      ensures output.closes == old(output.closes) && input.closes == old(input.closes)
      ensures (o, input.chunks) == HandshakeReply(old(input.chunks))
    {
      var greeting := new byte[3] [ProtocolVersion, 1, AuthNone];
      output.Write(greeting, 0, 3);
      output.Flush();
      var reply := ReadExactly(2);
      match reply
      case Short(f) => o := Fail(f);
      case Exact(b) => o := CheckMethodReply(b);
    }

    /** connect(hostname, port): check the arguments, send the CONNECT request, then check the reply. */
    method Connect(hostname: Option<JavaString>, port: Int32) returns (o: Outcome)
      modifies input, output
      ensures ValidateConnect(hostname, port).Fail? ==>
        o == ValidateConnect(hostname, port) && output.log == old(output.log) && output.flushes == old(output.flushes)
        && input.chunks == old(input.chunks)
      ensures ValidateConnect(hostname, port) == Success ==>
        output.log == old(output.log) + ConnectRequest(hostname.value, port) && output.flushes == old(output.flushes) + 1
        && (o, input.chunks) == ConnectReply(old(input.chunks))
      ensures output.closes == old(output.closes) && input.closes == old(input.closes)
    {
      o := ValidateConnect(hostname, port);
      if o.Fail? {
        return;
      }
      var data := EncodeRequest(hostname.value, port);
      output.Write(data, 0, data.Length);
      output.Flush();
      var header := ReadExactly(4);
      if header.Short? {
        o := Fail(header.failure);
        return;
      }
      var h := header.bytes;
      if h[0] != ProtocolVersion {
        o := Fail(UnsupportedVersion(Signed(h[0])));
      } else if h[1] != ErrSuccess {
        o := Fail(ConnectionError(Signed(h[1])));
      } else {
        o := ReadAddress(h[3]);
      }
    }

    /** The request bytes of connect, filled into a fresh array. */
    static method EncodeRequest(host: JavaString, port: Int32) returns (data: array<byte>)
      requires |host| <= 255 && 1 <= port <= 65535
      ensures fresh(data) && data[..] == ConnectRequest(host, port)
    {
      var n := |host|;
      data := new byte[7 + n];
      data[0] := ProtocolVersion;
      data[1] := CmdConnect;
      data[2] := 0; // reserved
      data[3] := AddrTypeHostname;
      data[4] := ToByte(n);
      data[5 + n] := ToByte(ShiftRight8(port));
      data[6 + n] := ToByte(port);
      for i := 0 to n
        invariant data[..5] == [ProtocolVersion, CmdConnect, 0, AddrTypeHostname, ToByte(n)]
        invariant data[5..5 + i] == Truncated(host)[..i]
        invariant data[5 + n] == ToByte(ShiftRight8(port)) && data[6 + n] == ToByte(port)
      {
        data[5 + i] := ToByte(host[i]);
        assert data[5..5 + i + 1] == data[5..5 + i] + [data[5 + i]];
      }
      assert data[..] == data[..5] + data[5..5 + n] + [data[5 + n], data[6 + n]];
    }

    /** The reads of BND.ADDR and BND.PORT that follow an accepted reply header. */
    method ReadAddress(atyp: byte) returns (o: Outcome)
      modifies input
      ensures (o, input.chunks) == SkipAddress(atyp, old(input.chunks))
      ensures input.closes == old(input.closes)
    {
      if atyp == AddrTypeIpv4 {
        var skipped := ReadExactly(6);
        o := if skipped.Short? then Fail(skipped.failure) else Success;
      } else if atyp == AddrTypeHostname {
        var addressLength := ReadExactly(1);
        if addressLength.Short? {
          o := Fail(addressLength.failure);
        } else {
          var skipped := ReadExactly(Signed(addressLength.bytes[0]) + 2);
          o := if skipped.Short? then Fail(skipped.failure) else Success;
        }
      } else if atyp == AddrTypeIpv6 {
        var skipped := ReadExactly(18);
        o := if skipped.Short? then Fail(skipped.failure) else Success;
      } else {
        o := Fail(UnknownAddressType(Signed(atyp)));
      }
    }

    /** getInputStream(): the proxy connection's input stream, unchanged. */
    function InputStream(): (s: ByteSource)
      ensures s == input
    {
      input
    }

    /** getOutputStream(): the proxy connection's output stream, unchanged. */
    function OutputStream(): (s: ByteSink)
      ensures s == output
    {
      output
    }

    /** readExactly(count): read until `count` bytes have arrived; a read returning <= 0 fails. */
    method ReadExactly(count: int) returns (r: Exact)
      modifies input
      ensures (r, input.chunks) == ReadExactlySpec(old(input.chunks), count)
      ensures input.closes == old(input.closes)
    {
      if count < 0 {
        return Short(NegativeArraySize);
      }
      var data := new byte[count];
      var offset, remaining := 0, count;
      while remaining > 0
        invariant 0 <= offset && 0 <= remaining && offset + remaining == count && data.Length == count
        invariant input.closes == old(input.closes)
        invariant Collect(old(input.chunks), count) == Prefixed(data[..offset], Collect(input.chunks, remaining))
        decreases remaining
      {
        ghost var before := data[..offset];
        ghost var chunks := input.chunks;
        ghost var d := ReadStep(chunks, remaining);
        var read := input.Read(data, offset, remaining);
        if read.Threw? {
          assert Collect(chunks, remaining) == TransportError(input.chunks);
          assert (Short(Transport), input.chunks) == ReadExactlySpec(old(input.chunks), count);
          return Short(Transport);
        }
        if read.n <= 0 {
          assert Collect(chunks, remaining) == ShortRead(input.chunks);
          assert (Short(UnexpectedEnd), input.chunks) == ReadExactlySpec(old(input.chunks), count);
          return Short(UnexpectedEnd);
        }
        assert Collect(chunks, remaining) == Prefixed(d.bytes, Collect(input.chunks, remaining - read.n));
        assert data[..offset + read.n] == before + d.bytes;
        PrefixedTwice(before, d.bytes, Collect(input.chunks, remaining - read.n));
        offset, remaining := offset + read.n, remaining - read.n;
      }
      assert data[..] == data[..offset];
      assert Collect(input.chunks, 0) == Gathered([], input.chunks);
      assert data[..offset] + [] == data[..];
      assert Collect(old(input.chunks), count) == Gathered(data[..], input.chunks);
      r := Exact(data[..]);
      assert (r, input.chunks) == ReadExactlySpec(old(input.chunks), count);
    }
  }

  /** Socks5Client(in, out): both streams must be non-null, the input stream is checked first. */
  datatype Creation = Created(client: Client) | Rejected(failure: Failure)

  method New(input: ByteSource?, output: ByteSink?) returns (r: Creation)
    ensures input == null ==> r == Rejected(InputStreamNull)
    ensures input != null && output == null ==> r == Rejected(OutputStreamNull)
    ensures input != null && output != null ==> r.Created? && r.client.input == input && r.client.output == output
  {
    if input == null {
      r := Rejected(InputStreamNull);
    } else if output == null {
      r := Rejected(OutputStreamNull);
    } else {
      var c := new Client(input, output);
      r := Created(c);
    }
  }
}
