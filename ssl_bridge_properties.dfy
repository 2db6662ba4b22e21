/**
 * What the TLS bridge promises, stated about the operations of SslBridgeSpec: how the two loops
 * dispatch on the engine result, reads and writes that the buffers alone can serve, the close
 * protocol between the two stream halves, and the shape invariant every public operation keeps.
 */
module SslBridgeProperties {
  import opened Bytes
  import opened Options
  import opened Streams
  import opened NioBuffers
  import opened SslEngine
  import opened SslBridgeSpec

  // ---------------------------------------------------------------------------------------------
  // Buffers

  /** expand() on a buffer with nothing left to read changes nothing: the grow loop is a fixpoint. */
  lemma ExpandWithNothingToRead(b: Buf)
    requires WellFormed(b) && RemainingOf(b) == 0
    ensures Expanded(b) == b
  {
  }

  /**
   * readFromInput(): end of stream exactly when the transport read returned a negative count, an
   * IOException exactly when it threw; otherwise SSL_IN holds its unread bytes followed by the
   * received ones, except when SSL_IN was full, in which case expand() has discarded the unread
   * bytes and only the received ones remain.
   */
  lemma ReadFromInputAppends(s: State)
    requires Good(s) && s.sslIn.Some?
    ensures var r := ReadFromInput(s); var b := s.sslIn.value;
      var full := RemainingOf(b) == BufferSize;
      var d := ReadStep(s.input, if full then BufferSize else BufferSize - RemainingOf(b));
      && r.state.input == d.rest && r.state.inputCloses == s.inputCloses
      && (r.outcome == Raised(EndOfStream) <==> d.outcome.Count? && d.outcome.n < 0)
      && (r.outcome == Raised(IoFailure) <==> d.outcome.Threw?)
      && (r.outcome == Normal ==>
            Readable(r.state.sslIn.value) == (if full then [] else Readable(b)) + d.bytes)
  {
    var b := s.sslIn.value;
    var c := Compacted(b);
    CompactRoom(b);
    if RemainingOf(c) == 0 {
      var e := Compacted(Expanded(Flipped(c)));
      CompactRoom(Expanded(Flipped(c)));
      assert ReadTarget(b) == e;
      var d := ReadStep(s.input, RemainingOf(e));
      if d.outcome.Count? && d.outcome.n >= 0 {
        CompactPutFlip(Expanded(Flipped(c)), d.bytes);
      }
    } else {
      var d := ReadStep(s.input, RemainingOf(c));
      if d.outcome.Count? && d.outcome.n >= 0 {
        CompactPutFlip(b, d.bytes);
      }
    }
  }

  // ---------------------------------------------------------------------------------------------
  // The wrap and unwrap loops

  /** One round of wrap()'s loop: how the pass ended decides what the loop does next. */
  lemma WrapLoopUnfold(s: State)
    requires Good(s)
    ensures var p := WrapPass(s);
      && (p.tag.Stop? ==> WrapLoop(s) == Run(p.tag.outcome, p.state))
      && (p.tag.Again? ==> WrapLoop(s) == WrapLoop(p.state))
      && (p.tag.Switch? ==> WrapLoop(s) == UnwrapLoop(p.state))
  {
  }

  lemma UnwrapLoopUnfold(s: State)
    requires Good(s)
    ensures var p := UnwrapPass(s);
      && (p.tag.Stop? ==> UnwrapLoop(s) == Run(p.tag.outcome, p.state))
      && (p.tag.Again? ==> UnwrapLoop(s) == UnwrapLoop(p.state))
      && (p.tag.Switch? ==> UnwrapLoop(s) == WrapLoop(p.state))
  {
  }

  /** wrap()'s pass drains SSL_OUT after the engine call and only then looks at the result. */
  lemma WrapPassUnfold(s: State)
    requires Good(s) && CallWrap(s).result.Some?
    ensures WrapPass(s) == WrapDispatch(CallWrap(s).result.value, Drain(CallWrap(s).state))
  {
  }

  lemma UnwrapPassUnfold(s: State)
    requires Good(s) && CallUnwrap(s).result.Some?
    ensures UnwrapPass(s) == UnwrapDispatch(CallUnwrap(s).result.value, CallUnwrap(s).state)
  {
  }

  /**
   * wrap() drains SSL_OUT to the transport after every engine call, before looking at the result,
   * so even a CLOSED result first sends what the engine produced; CLOSED then ends with EOF.
   */
  lemma WrapDrainsThenStopsOnClosed(s: State)
    requires Good(s) && CallWrap(s).result.Some? && CallWrap(s).result.value.status == Closed
    ensures var c := CallWrap(s).state;
      WrapLoop(s) == Run(Raised(EndOfStream), Drain(c))
      && WrapLoop(s).state.output == s.output + Readable(c.sslOut.value)
  {
    WrapPassUnfold(s);
    WrapLoopUnfold(s);
  }

  /** unwrap() has no drain: CLOSED ends with EOF right after the engine call. */
  lemma UnwrapStopsOnClosed(s: State)
    requires Good(s) && CallUnwrap(s).result.Some? && CallUnwrap(s).result.value.status == Closed
    ensures UnwrapLoop(s) == Run(Raised(EndOfStream), CallUnwrap(s).state)
  {
    UnwrapPassUnfold(s);
    UnwrapLoopUnfold(s);
  }

  /** With the engine's script used up, every wrap() ends in EOF after one (empty) engine call. */
  lemma ExhaustedEngineGivesEndOfStream(s: State)
    requires Good(s) && s.engineOn && s.appOut.Some? && s.sslOut.Some? && s.engine.script == []
    ensures WrapLoop(s).outcome == Raised(EndOfStream)
    ensures WrapLoop(s).state.engine.calls == s.engine.calls + [WrapCall]
  {
    assert CallWrap(s).result == Some(EngineResult(Closed, NotHandshaking));
    WrapDrainsThenStopsOnClosed(s);
  }

  /** OK with FINISHED or NOT_HANDSHAKING: both loops return normally after the one call. */
  lemma LoopsReturnWhenDone(s: State, h: HandshakeStatus)
    requires Good(s) && (h == Finished || h == NotHandshaking)
    ensures CallWrap(s).result == Some(EngineResult(Ok, h)) ==>
              WrapLoop(s) == Run(Normal, Drain(CallWrap(s).state))
    ensures CallUnwrap(s).result == Some(EngineResult(Ok, h)) ==>
              UnwrapLoop(s) == Run(Normal, CallUnwrap(s).state)
  {
    if CallWrap(s).result == Some(EngineResult(Ok, h)) {
      WrapPassUnfold(s);
      WrapLoopUnfold(s);
    }
    if CallUnwrap(s).result == Some(EngineResult(Ok, h)) {
      UnwrapPassUnfold(s);
      UnwrapLoopUnfold(s);
    }
  }

  /**
   * OK with NEED_TASK: one delegated task runs and the pass ends with Again, so the same loop goes
   * round once more (WrapLoopUnfold, UnwrapLoopUnfold); a missing task ends the loop.
   */
  lemma WrapRunsOneTask(s: State)
    requires Good(s) && CallWrap(s).result == Some(EngineResult(Ok, NeedTask))
    ensures var t := Task(Drain(CallWrap(s).state));
      && WrapPass(s) == (if t.outcome.Raised? then Pass(Stop(t.outcome), t.state) else Pass(Again, t.state))
      && (t.outcome == Normal ==> t.state.engine.calls == s.engine.calls + [WrapCall, TaskRun])
  {
    var c := CallWrap(s);
    var t := Task(Drain(c.state));
    WrapPassUnfold(s);
    assert WrapPass(s) == Continue(t);
    assert s.engine.calls + [WrapCall] + [TaskRun] == s.engine.calls + [WrapCall, TaskRun];
  }

  lemma UnwrapRunsOneTask(s: State)
    requires Good(s) && CallUnwrap(s).result == Some(EngineResult(Ok, NeedTask))
    ensures var t := Task(CallUnwrap(s).state);
      && UnwrapPass(s) == (if t.outcome.Raised? then Pass(Stop(t.outcome), t.state) else Pass(Again, t.state))
      && (t.outcome == Normal ==> t.state.engine.calls == s.engine.calls + [UnwrapCall, TaskRun])
  {
    var c := CallUnwrap(s);
    var t := Task(c.state);
    UnwrapPassUnfold(s);
    assert UnwrapPass(s) == Continue(t);
    assert s.engine.calls + [UnwrapCall] + [TaskRun] == s.engine.calls + [UnwrapCall, TaskRun];
  }

  /** NEED_UNWRAP inside wrap(), NEED_WRAP inside unwrap(): the other loop runs once and its
    * outcome is the outcome of the call. */
  lemma LoopsHandOver(s: State)
    requires Good(s)
    ensures CallWrap(s).result == Some(EngineResult(Ok, NeedUnwrap)) ==>
              WrapLoop(s) == UnwrapLoop(Drain(CallWrap(s).state))
    ensures CallUnwrap(s).result == Some(EngineResult(Ok, NeedWrap)) ==>
              UnwrapLoop(s) == WrapLoop(CallUnwrap(s).state)
  {
    if CallWrap(s).result == Some(EngineResult(Ok, NeedUnwrap)) {
      WrapPassUnfold(s);
      WrapLoopUnfold(s);
    }
    if CallUnwrap(s).result == Some(EngineResult(Ok, NeedWrap)) {
      UnwrapPassUnfold(s);
      UnwrapLoopUnfold(s);
    }
  }

  /** A wrap() or unwrap() only ever adds to what the transport has received and to the calls. */
  lemma {:induction false} WrapLoopOnlyAppends(s: State)
    requires Good(s)
    ensures s.output <= WrapLoop(s).state.output
    ensures s.engine.calls <= WrapLoop(s).state.engine.calls
    decreases |s.engine.script|, 1
  {
    var p := WrapPass(s);
    WrapPassOnlyAppends(s);
    WrapLoopUnfold(s);
    match p.tag
    case Again => WrapLoopOnlyAppends(p.state);
    case Switch => UnwrapLoopOnlyAppends(p.state);
    case Stop(_) =>
  }

  lemma {:induction false} UnwrapLoopOnlyAppends(s: State)
    requires Good(s)
    ensures s.output <= UnwrapLoop(s).state.output
    ensures s.engine.calls <= UnwrapLoop(s).state.engine.calls
    decreases |s.engine.script|, 1
  {
    var p := UnwrapPass(s);
    UnwrapPassOnlyAppends(s);
    UnwrapLoopUnfold(s);
    match p.tag
    case Again => UnwrapLoopOnlyAppends(p.state);
    case Switch => WrapLoopOnlyAppends(p.state);
    case Stop(_) =>
  }

  /** The dispatch of either loop leaves the transport output alone and only adds engine calls. */
  lemma DispatchOnlyAppends(r: EngineResult, s: State)
    requires Good(s)
    ensures WrapDispatch(r, s).state.output == s.output && s.engine.calls <= WrapDispatch(r, s).state.engine.calls
    ensures UnwrapDispatch(r, s).state.output == s.output && s.engine.calls <= UnwrapDispatch(r, s).state.engine.calls
  {
  }

  lemma WrapPassOnlyAppends(s: State)
    requires Good(s)
    ensures s.output <= WrapPass(s).state.output && s.engine.calls <= WrapPass(s).state.engine.calls
  {
    var c := CallWrap(s);
    if c.result.Some? {
      WrapPassUnfold(s);
      DispatchOnlyAppends(c.result.value, Drain(c.state));
    }
  }

  lemma UnwrapPassOnlyAppends(s: State)
    requires Good(s)
    ensures s.output <= UnwrapPass(s).state.output && s.engine.calls <= UnwrapPass(s).state.engine.calls
  {
    var c := CallUnwrap(s);
    if c.result.Some? {
      UnwrapPassUnfold(s);
      DispatchOnlyAppends(c.result.value, c.state);
    }
  }

  // ---------------------------------------------------------------------------------------------
  // Reading and writing from the buffers alone

  /**
   * innerRead() with plaintext already in APP_IN does not call the engine: it hands over
   * min(len, available) bytes from the front and keeps the rest, starting at index 0.
   */
  lemma ReadServedFromBuffer(s: State, len: nat)
    requires Good(s) && len > 0 && s.appIn.Some? && s.sslIn.Some? && RemainingOf(s.appIn.value) > 0
    ensures var r := InnerRead(s, len); var avail := Readable(s.appIn.value);
      var n := if len <= |avail| then len else |avail|;
      && r.outcome == Returned(n) && r.bytes == avail[..n]
      && Readable(r.state.appIn.value) == avail[n..] && r.state.appIn.value.position == 0
      && r.state == s.(appIn := r.state.appIn)
  {
  }

  /**
   * write() of a payload that fits behind the unread bytes once APP_OUT is compacted: the payload
   * is appended to what is waiting and nothing else changes, in particular the engine is not
   * called and the transport receives nothing.
   */
  lemma WriteThatFitsAppends(s: State, bytes: seq<byte>)
    requires Good(s) && s.appOut.Some? && s.sslOut.Some?
    requires RemainingOf(s.appOut.value) + |bytes| <= BufferSize
    ensures var r := Write(s, bytes);
      && r.outcome == Normal && r.state == s.(appOut := r.state.appOut)
      && Readable(r.state.appOut.value) == Readable(s.appOut.value) + bytes
  {
    CompactRoom(s.appOut.value);
    CompactPutFlip(s.appOut.value, bytes);
  }

  /**
   * write(int) with room for one more byte behind the unread ones appends exactly the low eight
   * bits of its argument, without calling the engine or sending anything.
   */
  lemma WriteOneAppendsLowByte(s: State, b: int)
    requires Good(s) && s.appOut.Some? && s.sslOut.Some? && RemainingOf(s.appOut.value) < BufferSize
    ensures var r := WriteOne(s, b);
      && r.outcome == Normal && r.state == s.(appOut := r.state.appOut)
      && Readable(r.state.appOut.value) == Readable(s.appOut.value) + [(b % 256) as byte]
  {
    WriteThatFitsAppends(s, [ToByte(b)]);
  }

  /** A zero-length write() never reaches wrap(): it only compacts and flips APP_OUT. */
  lemma EmptyWriteNeverWraps(s: State)
    requires Good(s) && s.appOut.Some? && s.sslOut.Some?
    ensures Write(s, []) == Run(Normal, s.(appOut := Some(Flipped(Compacted(s.appOut.value)))))
    ensures Readable(Write(s, []).state.appOut.value) == Readable(s.appOut.value)
  {
    CompactRoom(s.appOut.value);
    CompactThenFlip(s.appOut.value);
    assert Appended(Compacted(s.appOut.value), []) == Compacted(s.appOut.value);
  }

  /** flush() with nothing waiting does not call the engine either. */
  lemma EmptyFlushNeverWraps(s: State)
    requires Good(s) && s.appOut.Some? && RemainingOf(s.appOut.value) == 0
    ensures Flush(s) == Run(Normal, s)
  {
  }

  /** On a closed output side write() throws EOF and flush() returns; neither changes anything. */
  lemma ClosedOutputSide(s: State, bytes: seq<byte>)
    requires Good(s) && s.appOut.None?
    ensures Write(s, bytes) == Run(Raised(EndOfStream), s)
    ensures Flush(s) == Run(Normal, s)
  {
  }

  /** On a closed input side a read of at least one byte returns -1 and changes nothing. */
  lemma ClosedInputSide(s: State, len: nat)
    requires Good(s) && (s.appIn.None? || s.sslIn.None?)
    ensures InnerRead(s, len).outcome == Returned(if len == 0 && s.engineOn then 0 else -1)
    ensures InnerRead(s, len).state == s && InnerRead(s, len).bytes == []
  {
  }

  // ---------------------------------------------------------------------------------------------
  // Closing

  /** Closing a side twice is closing it once. */
  lemma ClosesAreIdempotent(s: State)
    ensures CloseInput(CloseInput(s)) == CloseInput(s)
    ensures CloseOutput(CloseOutput(s)) == CloseOutput(s)
  {
  }

  /** Each close touches only its own pair of buffers, unless it is the second and tears down. */
  lemma CloseTouchesOwnPair(s: State)
    requires Coherent(s)
    ensures s.appOut.Some? ==> CloseInput(s) == s.(appIn := None, sslIn := None)
    ensures s.appIn.Some? ==> CloseOutput(s) == s.(appOut := None, sslOut := None)
  {
  }

  /** The transports are closed exactly when the engine goes away, and then once each. */
  lemma TransportsClosedWithEngine(s: State)
    ensures var t := CloseInput(s);
      t.inputCloses == s.inputCloses + (if s.engineOn && !t.engineOn then 1 else 0)
      && t.outputCloses == s.outputCloses + (if s.engineOn && !t.engineOn then 1 else 0)
    ensures var t := CloseOutput(s);
      t.inputCloses == s.inputCloses + (if s.engineOn && !t.engineOn then 1 else 0)
      && t.outputCloses == s.outputCloses + (if s.engineOn && !t.engineOn then 1 else 0)
  {
  }

  datatype CloseCall = CloseIn | CloseOut

  /** A series of close() calls on the two halves, in the given order. */
  function CloseAll(s: State, calls: seq<CloseCall>): (t: State)
    ensures t.engine == s.engine && t.input == s.input && t.output == s.output
    decreases |calls|
  {
    if calls == [] then s
    else CloseAll(if calls[0] == CloseIn then CloseInput(s) else CloseOutput(s), calls[1..])
  }

  /**
   * However the two halves are closed, and however often: the shape invariant holds throughout, a
   * closed half stays closed, the engine goes away once both halves have been closed, and each
   * transport is closed exactly when the engine goes away, so at most once.
   */
  lemma {:induction false} TransportsClosedAtMostOnce(s: State, calls: seq<CloseCall>)
    requires Coherent(s)
    ensures var t := CloseAll(s, calls);
      && Coherent(t)
      && (CloseIn in calls || s.appIn.None? ==> t.appIn.None?)
      && (CloseOut in calls || s.appOut.None? ==> t.appOut.None?)
      && (CloseIn in calls && CloseOut in calls ==> !t.engineOn)
      && (!s.engineOn ==> !t.engineOn)
      && t.inputCloses == s.inputCloses + (if s.engineOn && !t.engineOn then 1 else 0)
      && t.outputCloses == s.outputCloses + (if s.engineOn && !t.engineOn then 1 else 0)
    decreases |calls|
  {
    if calls != [] {
      var u := if calls[0] == CloseIn then CloseInput(s) else CloseOutput(s);
      ClosesKeepCoherent(s);
      TransportsClosedWithEngine(s);
      TransportsClosedAtMostOnce(u, calls[1..]);
      assert calls == [calls[0]] + calls[1..];
    }
  }

  // ---------------------------------------------------------------------------------------------
  // The shape invariant

  /** Nulling nothing and closing nothing keeps the shape invariant. */
  lemma SameShapeKeepsCoherent(s: State, t: State)
    requires Coherent(s) && SameShape(s, t)
    ensures Coherent(t)
  {
  }

  /** Both closes keep the shape invariant, which the constructor establishes (Initial). */
  lemma ClosesKeepCoherent(s: State)
    requires Coherent(s)
    ensures Coherent(CloseInput(s)) && Coherent(CloseOutput(s))
  {
  }

  /** read(b, off, len) and read() keep the shape invariant, including when an IOException closes the input side. */
  lemma ReadsKeepCoherent(s: State, len: nat)
    requires Good(s) && Coherent(s)
    ensures Coherent(InnerRead(s, len).state) && Coherent(ReadOne(s).state)
  {
    InnerReadKeepsCoherent(s, len);
    InnerReadKeepsCoherent(s, 1);
  }

  lemma InnerReadKeepsCoherent(s: State, len: nat)
    requires Good(s) && Coherent(s)
    ensures Coherent(InnerRead(s, len).state)
  {
    if len > 0 && s.appIn.Some? && s.sslIn.Some? {
      var w := AwaitPlaintext(s);
      SameShapeKeepsCoherent(s, w.state);
      if w.outcome.Raised? {
        ClosesKeepCoherent(w.state);
      } else {
        SameShapeKeepsCoherent(w.state, TakePlaintext(w.state, len).state);
      }
    }
  }

  /** flush() keeps the shape invariant, including when an IOException closes the output side. */
  lemma FlushKeepsCoherent(s: State)
    requires Good(s) && Coherent(s)
    ensures Coherent(Flush(s).state)
  {
    if s.appOut.Some? && s.sslOut.Some? {
      var f := FlushLoop(s);
      SameShapeKeepsCoherent(s, f.state);
      ClosesKeepCoherent(f.state);
    }
  }

  /** write(b, off, len) and write(int) keep the shape invariant, on every path out of them. */
  lemma WriteKeepsCoherent(s: State, bytes: seq<byte>)
    requires Good(s) && Coherent(s)
    ensures Coherent(Write(s, bytes).state)
  {
    if s.appOut.Some? && s.sslOut.Some? {
      var c := s.(appOut := Some(Compacted(s.appOut.value)));
      SameShapeKeepsCoherent(s, c);
      if RemainingOf(c.appOut.value) < |bytes| {
        MakeRoomKeepsCoherent(c, |bytes|);
        var m := MakeRoomForWrite(c, |bytes|);
        if m.outcome == Normal {
          SameShapeKeepsCoherent(m.state, Put(m.state, bytes));
        }
      } else {
        SameShapeKeepsCoherent(c, Put(c, bytes));
      }
    }
  }

  lemma MakeRoomKeepsCoherent(s: State, len: nat)
    requires Good(s) && Coherent(s) && s.appOut.Some? && s.sslOut.Some?
    ensures Coherent(MakeRoomForWrite(s, len).state)
  {
    var t := s.(appOut := Some(Flipped(s.appOut.value)));
    SameShapeKeepsCoherent(s, t);
    FlushKeepsCoherent(t);
    ClosesKeepCoherent(Flush(t).state);
  }

  // ---------------------------------------------------------------------------------------------
  // A whole session

  /** A public call on the bridge's two streams. */
  datatype StreamCall =
    | ReadCall(len: nat) | ReadByteCall | CloseInCall
    | WriteCall(bytes: seq<byte>) | WriteByteCall(b: int) | FlushCall | CloseOutCall

  /** The state after one public call, whether it returned or threw. */
  function After(s: State, c: StreamCall): (t: State)
    requires Good(s)
    ensures Good(t) && ClosedWithEngine(s, t) && (!s.engineOn ==> !t.engineOn)
  {
    match c
    case ReadCall(len) => InnerRead(s, len).state
    case ReadByteCall => ReadOne(s).state
    case CloseInCall => CloseInput(s)
    case WriteCall(bytes) => Write(s, bytes).state
    case WriteByteCall(b) => WriteOne(s, b).state
    case FlushCall => Flush(s).state
    case CloseOutCall => CloseOutput(s)
  }

  /** A series of public calls, in the given order, each starting from where the last one left off. */
  function Session(s: State, calls: seq<StreamCall>): (t: State)
    requires Good(s)
    ensures Good(t)
    decreases |calls|
  {
    if calls == [] then s else Session(After(s, calls[0]), calls[1..])
  }

  /**
   * Over any series of reads, writes, flushes and closes, including those an IOException ends
   * with the close of their half: the shape invariant holds, the engine once gone stays gone, and
   * each transport is closed once if the engine went away and not at all otherwise.
   */
  lemma {:induction false} SessionClosesTransportsAtMostOnce(s: State, calls: seq<StreamCall>)
    requires Good(s) && Coherent(s)
    ensures var t := Session(s, calls);
      && Coherent(t)
      && (!s.engineOn ==> !t.engineOn)
      && ClosedWithEngine(s, t)
    decreases |calls|
  {
    if calls != [] {
      var u := After(s, calls[0]);
      CallKeepsCoherent(s, calls[0]);
      SessionClosesTransportsAtMostOnce(u, calls[1..]);
      ClosedWithEngineChains(s, u, Session(s, calls));
    }
  }

  /** Every public call keeps the shape invariant. */
  lemma CallKeepsCoherent(s: State, c: StreamCall)
    requires Good(s) && Coherent(s)
    ensures Coherent(After(s, c))
  {
    match c
    case ReadCall(len) => ReadsKeepCoherent(s, len);
    case ReadByteCall => ReadsKeepCoherent(s, 1);
    case CloseInCall => ClosesKeepCoherent(s);
    case WriteCall(bytes) => WriteKeepsCoherent(s, bytes);
    case WriteByteCall(b) => WriteKeepsCoherent(s, [ToByte(b)]);
    case FlushCall => FlushKeepsCoherent(s);
    case CloseOutCall => ClosesKeepCoherent(s);
  }

  /** Two steps that each close the transports only with the engine do so together. */
  lemma ClosedWithEngineChains(s: State, u: State, t: State)
    requires ClosedWithEngine(s, u) && ClosedWithEngine(u, t)
    requires (!s.engineOn ==> !u.engineOn) && (!u.engineOn ==> !t.engineOn)
    ensures ClosedWithEngine(s, t) && (!s.engineOn ==> !t.engineOn)
  {
  }
}
