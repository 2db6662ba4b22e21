/**
 * SynchronousSslStreams as an object: the engine field, the two transports and the four buffer
 * fields, with one method per method of the class and of its two inner streams (the inner
 * streams work on the same fields, so their methods are methods of this class here). A buffer
 * field holds the buffer's value, or None once the field has been set to null.
 * Each method is proved to compute what the function of the same name in SslBridgeSpec gives
 * for the object's state before the call.
 */
module SslBridge {
  import opened Bytes
  import opened Options
  import opened Streams
  import opened NioBuffers
  import opened SslEngine
  import S = SslBridgeSpec

  class SynchronousSslStreams {
    var engine: Engine?
    const sslDataIn: ByteSource
    const sslDataOut: ByteSink
    var sslIn: Option<Buf>
    var sslOut: Option<Buf>
    var appIn: Option<Buf>
    var appOut: Option<Buf>

    /** The engine given at construction; the field is that engine or null. */
    ghost const tls: Engine

    ghost predicate Valid()
      reads this
    {
      (engine == null || engine == tls)
      && S.Sized(sslIn) && S.Sized(sslOut) && S.Sized(appIn) && S.Sized(appOut)
    }

    /** The state as SslBridgeSpec sees it. */
    ghost function View(): (s: S.State)
      reads this, tls, sslDataIn, sslDataOut
      requires Valid()
      ensures S.Good(s)
    {
      S.State(engine != null, tls.View(), sslIn, sslOut, appIn, appOut,
              sslDataIn.chunks, sslDataIn.closes, sslDataOut.log, sslDataOut.flushes, sslDataOut.closes)
    }

    /** The four buffers are allocated with 32 KiB each and flipped to empty read mode. */
    constructor (engine: Engine, input: ByteSource, output: ByteSink)
      ensures Valid() && tls == engine && sslDataIn == input && sslDataOut == output
      ensures View() == S.Initial(old(engine.View()), old(input.chunks), old(input.closes),
                                  old(output.log), old(output.flushes), old(output.closes))
    {
      this.engine, tls := engine, engine;
      sslDataIn, sslDataOut := input, output;
      var empty := Flipped(Allocated(S.BufferSize));
      sslIn, sslOut := Some(empty), Some(empty);
      appIn, appOut := Some(empty), Some(empty);
    }

    /** The private close(): the teardown, guarded by the engine field. */
    method Close()
      requires Valid()
      modifies this, sslDataIn, sslDataOut
      ensures Valid() && View() == S.Teardown(old(View()))
    {
      if engine != null {
        engine := null;
        sslDataIn.Close();
        sslDataOut.Close();
        appOut, sslIn, sslOut := None, None, None;
      }
    }

    /** readFromInput(). */
    method ReadFromInput() returns (o: S.Outcome)
      requires Valid()
      modifies this, sslDataIn
      ensures Valid() && S.Run(o, View()) == S.ReadFromInput(old(View()))
    {
      if sslIn.None? {
        return S.Raised(S.Unchecked);
      }
      var target := Compacted(sslIn.value);
      if RemainingOf(target) == 0 {
        target := Compacted(S.Expanded(Flipped(target)));
      }
      sslIn := Some(target);
      var rv, bytes := sslDataIn.Receive(RemainingOf(target));
      match rv
      case Threw =>
        return S.Raised(S.IoFailure);
      case Count(n) =>
        if n < 0 {
          return S.Raised(S.EndOfStream);
        }
        sslIn := Some(Flipped(Appended(target, bytes)));
        return S.Normal;
    }

    /** writeToOutput(). */
    method WriteToOutput()
      requires Valid() && sslOut.Some?
      modifies this, sslDataOut
      ensures Valid() && View() == S.WriteToOutput(old(View()))
    {
      var b := sslOut.value;
      sslDataOut.WriteFrom(b.data, b.position, b.limit - b.position);
      sslDataOut.Flush();
      sslOut := Some(WithLimit(WithPosition(b, 0), 0));
    }

    /** task(): getDelegatedTask() and run(). */
    method Task() returns (o: S.Outcome)
      requires Valid()
      modifies tls
      ensures Valid() && S.Run(o, View()) == S.Task(old(View()))
    {
      if engine == null {
        return S.Raised(S.Unchecked);
      }
      var ran := engine.RunDelegatedTask();
      o := if ran then S.Normal else S.Raised(S.Unchecked);
    }

    /** wrap()'s engine call; None when a null SSL_OUT, engine or APP_OUT stops it. */
    method CallWrap() returns (result: Option<EngineResult>)
      requires Valid()
      modifies this, tls
      ensures Valid() && S.Called(result, View()) == S.CallWrap(old(View()))
    {
      if sslOut.None? {
        return None;
      }
      var room := Compacted(sslOut.value);
      sslOut := Some(room);
      if engine == null || appOut.None? {
        return None;
      }
      var r, src, dst := engine.Wrap(appOut.value, room);
      appOut, sslOut := Some(src), Some(Flipped(dst));
      return Some(r);
    }

    /** `if (SSL_OUT.hasRemaining()) writeToOutput();`. */
    method Drain()
      requires Valid() && sslOut.Some?
      modifies this, sslDataOut
      ensures Valid() && View() == S.Drain(old(View()))
    {
      if RemainingOf(sslOut.value) > 0 {
        WriteToOutput();
      }
    }

    /** BUFFER_OVERFLOW expands APP_IN; BUFFER_UNDERFLOW reads more from the transport. */
    method OnShortBuffer(status: Status) returns (tag: S.Tag)
      requires Valid() && (status == BufferOverflow || status == BufferUnderflow)
      modifies this, sslDataIn
      ensures Valid() && S.Pass(tag, View()) == S.OnShortBuffer(status, old(View()))
    {
      if status == BufferOverflow {
        if appIn.None? {
          return S.Stop(S.Raised(S.Unchecked));
        }
        appIn := Some(S.Expanded(appIn.value));
        return S.Again;
      }
      var o := ReadFromInput();
      tag := if o.Raised? then S.Stop(o) else S.Again;
    }

    /** wrap()'s switch on the result. */
    method WrapDispatch(result: EngineResult) returns (tag: S.Tag)
      requires Valid()
      modifies this, tls, sslDataIn
      ensures Valid() && S.Pass(tag, View()) == S.WrapDispatch(result, old(View()))
    {
      match result.status
      case Closed => return S.Stop(S.Raised(S.EndOfStream));
      case BufferOverflow => tag := OnShortBuffer(BufferOverflow);
      case BufferUnderflow => tag := OnShortBuffer(BufferUnderflow);
      case Ok =>
        match result.handshake
        case NeedTask =>
          var o := Task();
          tag := if o.Raised? then S.Stop(o) else S.Again;
        case NeedWrap => return S.Again;
        case NeedUnwrap => return S.Switch;
        case Finished => return S.Stop(S.Normal);
        case NotHandshaking => return S.Stop(S.Normal);
    }

    /** One pass of wrap()'s loop body. */
    method WrapPass() returns (tag: S.Tag)
      requires Valid()
      modifies this, tls, sslDataIn, sslDataOut
      ensures Valid() && S.Pass(tag, View()) == S.WrapPass(old(View()))
    {
      var result := CallWrap();
      if result.None? {
        return S.Stop(S.Raised(S.Unchecked));
      }
      Drain();
      tag := WrapDispatch(result.value);
    }

    /** unwrap()'s engine call; None when a null APP_IN, engine or SSL_IN stops it. */
    method CallUnwrap() returns (result: Option<EngineResult>)
      requires Valid()
      modifies this, tls
      ensures Valid() && S.Called(result, View()) == S.CallUnwrap(old(View()))
    {
      if appIn.None? {
        return None;
      }
      var room := Compacted(appIn.value);
      appIn := Some(room);
      if engine == null || sslIn.None? {
        return None;
      }
      var r, src, dst := engine.Unwrap(sslIn.value, room);
      sslIn, appIn := Some(src), Some(Flipped(dst));
      return Some(r);
    }

    /** unwrap()'s switch on the result. */
    method UnwrapDispatch(result: EngineResult) returns (tag: S.Tag)
      requires Valid()
      modifies this, tls, sslDataIn
      ensures Valid() && S.Pass(tag, View()) == S.UnwrapDispatch(result, old(View()))
    {
      match result.status
      case Closed => return S.Stop(S.Raised(S.EndOfStream));
      case BufferOverflow => tag := OnShortBuffer(BufferOverflow);
      case BufferUnderflow => tag := OnShortBuffer(BufferUnderflow);
      case Ok =>
        match result.handshake
        case NeedTask =>
          var o := Task();
          tag := if o.Raised? then S.Stop(o) else S.Again;
        case NeedWrap => return S.Switch;
        case NeedUnwrap => return S.Again;
        case Finished => return S.Stop(S.Normal);
        case NotHandshaking => return S.Stop(S.Normal);
    }

    /** One pass of unwrap()'s loop body. */
    method UnwrapPass() returns (tag: S.Tag)
      requires Valid()
      modifies this, tls, sslDataIn
      ensures Valid() && S.Pass(tag, View()) == S.UnwrapPass(old(View()))
    {
      var result := CallUnwrap();
      if result.None? {
        return S.Stop(S.Raised(S.Unchecked));
      }
      tag := UnwrapDispatch(result.value);
    }

    /** wrap(): passes until one returns or throws; NEED_UNWRAP runs unwrap() and returns. */
    method Wrap() returns (o: S.Outcome)
      requires Valid()
      modifies this, tls, sslDataIn, sslDataOut
      ensures Valid() && S.Run(o, View()) == S.WrapLoop(old(View()))
      decreases |tls.script|
    {
      while true
        invariant Valid() && S.WrapLoop(View()) == S.WrapLoop(old(View()))
        invariant |tls.script| <= old(|tls.script|)
        decreases |tls.script|
      {
        var tag := WrapPass();
        match tag
        case Again =>
        case Switch =>
          o := Unwrap();
          return;
        case Stop(out) =>
          return out;
      }
    }

    /** unwrap(): the same loop; NEED_WRAP runs wrap() and returns. */
    method Unwrap() returns (o: S.Outcome)
      requires Valid()
      modifies this, tls, sslDataIn, sslDataOut
      ensures Valid() && S.Run(o, View()) == S.UnwrapLoop(old(View()))
      decreases |tls.script|
    {
      while true
        invariant Valid() && S.UnwrapLoop(View()) == S.UnwrapLoop(old(View()))
        invariant |tls.script| <= old(|tls.script|)
        decreases |tls.script|
      {
        var tag := UnwrapPass();
        match tag
        case Again =>
        case Switch =>
          o := Wrap();
          return;
        case Stop(out) =>
          return out;
      }
    }

    /** SslInputStream.close(): drop the input pair, and tear down once the output pair is gone. */
    method CloseInput()
      requires Valid()
      modifies this, sslDataIn, sslDataOut
      ensures Valid() && View() == S.CloseInput(old(View()))
    {
      appIn, sslIn := None, None;
      if appOut.None? && sslOut.None? {
        Close();
      }
    }

    /** SslOutputStream.close(): drop the output pair, and tear down once the input pair is gone. */
    method CloseOutput()
      requires Valid()
      modifies this, sslDataIn, sslDataOut
      ensures Valid() && View() == S.CloseOutput(old(View()))
    {
      appOut, sslOut := None, None;
      if appIn.None? && sslIn.None? {
        Close();
      }
    }

    /** innerRead's `while (!APP_IN.hasRemaining()) unwrap(1);`. */
    method AwaitPlaintext() returns (o: S.Outcome)
      requires Valid() && appIn.Some?
      modifies this, tls, sslDataIn, sslDataOut
      ensures Valid() && S.Run(o, View()) == S.AwaitPlaintext(old(View()))
    {
      while RemainingOf(appIn.value) == 0
        invariant Valid() && appIn.Some? && S.AwaitPlaintext(View()) == S.AwaitPlaintext(old(View()))
        decreases |tls.script|
      {
        o := Unwrap();
        if o.Raised? {
          return;
        }
      }
      o := S.Normal;
    }

    /** `len = Math.min(len, APP_IN.remaining()); APP_IN.get(b, off, len); APP_IN.compact(); APP_IN.flip();`. */
    method TakePlaintext(len: nat) returns (bytes: seq<byte>)
      requires Valid() && appIn.Some?
      modifies this
      ensures Valid() && S.Reading(S.Returned(|bytes|), bytes, View()) == S.TakePlaintext(old(View()), len)
    {
      var b := appIn.value;
      var n := Min(len, RemainingOf(b));
      bytes := Readable(b)[..n];
      appIn := Some(Flipped(Compacted(Consumed(b, n))));
    }

    /** innerRead's try block, with the IOException handler that closes the input side. */
    method ReadPlaintext(len: nat) returns (o: S.Outcome, bytes: seq<byte>)
      requires Valid() && appIn.Some? && len > 0
      modifies this, tls, sslDataIn, sslDataOut
      ensures Valid() && S.Reading(o, bytes, View()) == S.ReadPlaintext(old(View()), len)
    {
      o := AwaitPlaintext();
      if o.Raised? {
        if S.IsIOException(o.fault) {
          CloseInput();
        }
        return o, [];
      }
      bytes := TakePlaintext(len);
      o := S.Returned(|bytes|);
    }

    /** SslInputStream.innerRead(b, off, len), giving the bytes it stores at `b[off..]`. */
    method InnerRead(len: nat) returns (o: S.Outcome, bytes: seq<byte>)
      requires Valid()
      modifies this, tls, sslDataIn, sslDataOut
      ensures Valid() && S.Reading(o, bytes, View()) == S.InnerRead(old(View()), len)
    {
      if len == 0 {
        return S.Returned(if engine == null then -1 else 0), [];
      }
      if appIn.None? || sslIn.None? {
        return S.Returned(-1), [];
      }
      o, bytes := ReadPlaintext(len);
    }

    /** SslInputStream.read(b, off, len): innerRead, with the bytes stored at `b[off..]`. */
    method Read(b: array<byte>, off: nat, len: nat) returns (o: S.Outcome)
      requires Valid() && off + len <= b.Length
      modifies this, tls, sslDataIn, sslDataOut, b
      ensures Valid()
      ensures var r := S.InnerRead(old(View()), len);
        o == r.outcome && View() == r.state && b[..] == Overwrite(old(b[..]), off, r.bytes)
    {
      var bytes;
      o, bytes := InnerRead(len);
      forall i | 0 <= i < |bytes| {
        b[off + i] := bytes[i];
      }
    }

    /** SslInputStream.read(): a one-byte read into a fresh array, giving the byte as 0..255 or -1. */
    method ReadByte() returns (o: S.Outcome)
      requires Valid()
      modifies this, tls, sslDataIn, sslDataOut
      ensures Valid() && S.Run(o, View()) == S.ReadOne(old(View()))
    {
      var bytes;
      o, bytes := InnerRead(1);
      if o.Returned? {
        o := if o.n == 1 then S.Returned(bytes[0] as int) else S.Returned(-1);
      }
    }

    /** flush()'s `while (APP_OUT.hasRemaining()) wrap(1);`. */
    method FlushLoop() returns (o: S.Outcome)
      requires Valid() && appOut.Some?
      modifies this, tls, sslDataIn, sslDataOut
      ensures Valid() && S.Run(o, View()) == S.FlushLoop(old(View()))
    {
      while RemainingOf(appOut.value) > 0
        invariant Valid() && appOut.Some? && S.FlushLoop(View()) == S.FlushLoop(old(View()))
        decreases |tls.script|
      {
        o := Wrap();
        if o.Raised? {
          return;
        }
      }
      o := S.Normal;
    }

    /** SslOutputStream.flush(): nothing on a closed side; an IOException closes the side. */
    method Flush() returns (o: S.Outcome)
      requires Valid()
      modifies this, tls, sslDataIn, sslDataOut
      ensures Valid() && S.Run(o, View()) == S.Flush(old(View()))
    {
      if appOut.None? || sslOut.None? {
        return S.Normal;
      }
      o := FlushLoop();
      if o.Raised? && S.IsIOException(o.fault) {
        CloseOutput();
      }
    }

    /**
     * write()'s path for a payload that does not fit: `APP_OUT.flip(); flush();`, the grow loop,
     * `APP_OUT.compact();`. When the capacity is below `len` the loop never ends, since expand
     * leaves APP_OUT as it was: the method performs one expand and reports the divergence.
     */
    method MakeRoomForWrite(len: nat) returns (o: S.Outcome)
      requires Valid() && appOut.Some? && sslOut.Some?
      modifies this, tls, sslDataIn, sslDataOut
      ensures Valid() && S.Run(o, View()) == S.MakeRoomForWrite(old(View()), len)
    {
      appOut := Some(Flipped(appOut.value));
      o := Flush();
      if o.Raised? {
        if S.IsIOException(o.fault) {
          CloseOutput();
        }
        return;
      }
      if CapacityOf(appOut.value) < len {
        appOut := Some(S.Expanded(appOut.value));
        return S.Raised(S.Diverges);
      }
      appOut := Some(Compacted(appOut.value));
    }

    /** SslOutputStream.write(b, off, len) on the payload `bytes` = b[off..off+len]. */
    method WriteBytes(bytes: seq<byte>) returns (o: S.Outcome)
      requires Valid()
      modifies this, tls, sslDataIn, sslDataOut
      ensures Valid() && S.Run(o, View()) == S.Write(old(View()), bytes)
    {
      if appOut.None? || sslOut.None? {
        return S.Raised(S.EndOfStream);
      }
      appOut := Some(Compacted(appOut.value));
      if RemainingOf(appOut.value) < |bytes| {
        o := MakeRoomForWrite(|bytes|);
        if o.Raised? {
          return;
        }
      }
      appOut := Some(Flipped(Appended(appOut.value, bytes)));
      o := S.Normal;
    }

    /** SslOutputStream.write(b, off, len). */
    method Write(b: array<byte>, off: nat, len: nat) returns (o: S.Outcome)
      requires Valid() && off + len <= b.Length
      modifies this, tls, sslDataIn, sslDataOut
      ensures Valid() && S.Run(o, View()) == S.Write(old(View()), old(b[off..off + len]))
    {
      o := WriteBytes(b[off..off + len]);
    }

    /** SslOutputStream.write(int): the one-byte array `{ (byte) b }` written whole. */
    method WriteByte(b: int) returns (o: S.Outcome)
      requires Valid()
      modifies this, tls, sslDataIn, sslDataOut
      ensures Valid() && S.Run(o, View()) == S.WriteOne(old(View()), b)
    {
      o := WriteBytes([ToByte(b)]);
    }
  }
}
