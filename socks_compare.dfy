/** The socks module's client and the SMTP transport's helper, compared on the same inputs. */
module SocksComparison {
  import opened Bytes
  import opened Options
  import opened Streams
  import Client = Socks5Client
  import Smtp = SmtpSocks5

  /** Both send the same greeting. */
  lemma GreetingsAgree()
    ensures Client.Greeting() == Smtp.Greeting()
  {
  }

  /** On arguments the client accepts, both send the same CONNECT request. */
  lemma RequestsAgree(host: JavaString, port: Int32)
    requires Client.ValidateConnect(Some(host), port) == Client.Success
    ensures Smtp.RequestFits(host) && Smtp.RequestBytes(host, port) == Client.ConnectRequest(host, port)
  {
    var a, b := Smtp.RequestBytes(host, port), Client.ConnectRequest(host, port);
    assert a[..5] == b[..5];
    assert a[5..5 + |host|] == b[5..5 + |host|];
    assert a == a[..5] + a[5..5 + |host|] + a[5 + |host|..];
    assert b == b[..5] + b[5..5 + |host|] + b[5 + |host|..];
  }

  /**
   * A host name longer than 255 units, which the client refuses, goes out from the SMTP helper
   * with its length cut to the low eight bits, so a proxy cannot read the request back.
   */
  lemma LongHostIsGarbled(host: JavaString, port: Int32)
    requires |host| > 255 && Smtp.RequestFits(host)
    ensures Client.ValidateConnect(Some(host), port) == Client.Fail(Client.HostnameTooLong)
    ensures Smtp.RequestBytes(host, port)[4] == |host| % 256 != |host|
    ensures Client.ParseRequest(Smtp.RequestBytes(host, port)) == None
  {
    var m := Smtp.RequestBytes(host, port);
    assert m[4] == m[..5][4];
  }

  /**
   * A port beyond 65535, which the client refuses, goes out from the SMTP helper as its low
   * sixteen bits: the proxy reads another port.
   */
  lemma LargePortWraps(host: JavaString, port: Int32)
    requires |host| <= 255 && port > 65535
    ensures Client.ValidateConnect(Some(host), port) == Client.Fail(Client.PortInvalid)
    ensures Client.ParseRequest(Smtp.RequestBytes(host, port)) == Some(Client.Request(Truncated(host), port % 65536))
  {
    var m := Smtp.RequestBytes(host, port);
    Client.ParseWellFormed(m, Truncated(host), port % 65536);
  }

  /** Both accept the same greeting replies (they differ only in the failure they report). */
  lemma GreetingRepliesAgree(chunks: seq<Chunk>)
    ensures Client.HandshakeReply(chunks).0 == Client.Success <==> Smtp.GreetingReply(chunks).0 == Smtp.Success
    ensures Client.HandshakeReply(chunks).1 == Smtp.GreetingReply(chunks).1
  {
  }

  /** Both accept the same CONNECT replies and consume the same bytes of the stream. */
  lemma RequestRepliesAgree(chunks: seq<Chunk>)
    ensures Client.ConnectReply(chunks).0 == Client.Success <==> Smtp.RequestReply(chunks).0 == Smtp.Success
    ensures Client.ConnectReply(chunks).1 == Smtp.RequestReply(chunks).1
  {
    match Collect(chunks, 4)
    case Gathered(h, rest) =>
      if h[0] == 5 && h[1] == 0 {
        AddressRepliesAgree(h[3], rest);
      }
    case _ =>
  }

  /** Both read the bound address the same way: by the same lengths, with the same bytes consumed. */
  lemma AddressRepliesAgree(atyp: byte, chunks: seq<Chunk>)
    ensures Client.SkipAddress(atyp, chunks).0 == Client.Success <==> Smtp.AddressReply(atyp, chunks).0 == Smtp.Success
    ensures Client.SkipAddress(atyp, chunks).1 == Smtp.AddressReply(atyp, chunks).1
  {
    if atyp == 1 {
      SkipsAgree(chunks, 6);
    } else if atyp == 4 {
      SkipsAgree(chunks, 18);
    } else if atyp == 3 {
      match Collect(chunks, 1)
      case Gathered(l, rest) => SkipsAgree(rest, Signed(l[0]) + 2);
      case _ =>
    }
  }

  /** Skipping `size` bytes succeeds in both exactly alike and leaves the same stream. */
  lemma SkipsAgree(chunks: seq<Chunk>, size: int)
    ensures Client.Skip(chunks, size).0 == Client.Success <==> Smtp.Discard(chunks, size).0 == Smtp.Success
    ensures Client.Skip(chunks, size).1 == Smtp.Discard(chunks, size).1
  {
  }
}
