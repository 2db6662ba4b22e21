/**
 * The synchronous TLS bridge as values: its whole observable state (the engine, the four buffers
 * or their absence, both transports) and one function per operation, giving the outcome and the
 * state the operation leaves, including the state at the point an exception escapes.
 */
module SslBridgeSpec {
  import opened Bytes
  import opened Options
  import opened Streams
  import opened NioBuffers
  import opened SslEngine

  /** The capacity every buffer is allocated with; expand never replaces a buffer, so it stays. */
  const BufferSize: nat := 32 * 1024

  /** What can escape an operation: EOFException, another IOException, an unchecked exception
    * (a null dereference, a missing delegated task, an engine refusing a null buffer), or no
    * return at all (the write grow loop). */
  datatype Fault = EndOfStream | IoFailure | Unchecked | Diverges

  /** The faults the bridge's `catch (IOException ex)` handlers catch. */
  predicate IsIOException(f: Fault)
  {
    f == EndOfStream || f == IoFailure
  }

  datatype Outcome = Normal | Returned(n: int) | Raised(fault: Fault)

  /**
   * engineOn: the engine field is non-null. A buffer is None once its field is null.
   * input/inputCloses: the transport InputStream; output/flushes/outputCloses: the OutputStream.
   */
  datatype State = State(
    engineOn: bool,
    engine: EngineState,
    sslIn: Option<Buf>,
    sslOut: Option<Buf>,
    appIn: Option<Buf>,
    appOut: Option<Buf>,
    input: seq<Chunk>,
    inputCloses: nat,
    output: seq<byte>,
    flushes: nat,
    outputCloses: nat)

  datatype Run = Run(outcome: Outcome, state: State)

  /** A read also hands bytes to the caller's array. */
  datatype Reading = Reading(outcome: Outcome, bytes: seq<byte>, state: State)

  predicate Sized(b: Option<Buf>)
  {
    b.Some? ==> WellFormed(b.value) && CapacityOf(b.value) == BufferSize
  }

  /** Every buffer still present satisfies the java.nio invariant and has its allocated capacity. */
  predicate Good(s: State)
  {
    Sized(s.sslIn) && Sized(s.sslOut) && Sized(s.appIn) && Sized(s.appOut)
  }

  /** No field was nulled and no transport closed. */
  predicate SameShape(s: State, t: State)
  {
    t.engineOn == s.engineOn
    && t.sslIn.Some? == s.sslIn.Some? && t.sslOut.Some? == s.sslOut.Some?
    && t.appIn.Some? == s.appIn.Some? && t.appOut.Some? == s.appOut.Some?
    && t.inputCloses == s.inputCloses && t.outputCloses == s.outputCloses
  }

  /** Each transport was closed once if the engine went away between `s` and `t`, and not at all otherwise. */
  predicate ClosedWithEngine(s: State, t: State)
  {
    var c := if s.engineOn && !t.engineOn then 1 else 0;
    t.inputCloses == s.inputCloses + c && t.outputCloses == s.outputCloses + c
  }

  /**
   * The invariant the close methods keep: the two buffers of a side go away together, and the
   * engine is dropped exactly when both sides are gone.
   */
  predicate Coherent(s: State)
    ensures Coherent(s) && !s.engineOn ==> s.sslIn.None? && s.sslOut.None? && s.appIn.None? && s.appOut.None?
    ensures Coherent(s) && s.engineOn ==> (s.sslIn.Some? && s.appIn.Some?) || (s.sslOut.Some? && s.appOut.Some?)
  {
    (s.sslIn.Some? <==> s.appIn.Some?)
    && (s.sslOut.Some? <==> s.appOut.Some?)
    && (s.engineOn <==> s.appIn.Some? || s.appOut.Some?)
  }

  /** An allocated buffer after flip(): empty, in read mode. */
  function EmptyBuffer(): (b: Buf)
    ensures WellFormed(b) && CapacityOf(b) == BufferSize && b.position == 0 && b.limit == 0
  {
    Flipped(Allocated(BufferSize))
  }

  /** The state the constructor leaves, given the engine and the two transports. */
  function Initial(engine: EngineState, input: seq<Chunk>, inputCloses: nat,
                   output: seq<byte>, flushes: nat, outputCloses: nat): (s: State)
    ensures Good(s) && Coherent(s) && s.engineOn
    ensures s.sslIn.Some? && s.sslOut.Some? && s.appIn.Some? && s.appOut.Some?
    ensures s.sslIn.value.position == s.sslIn.value.limit == 0 && s.sslOut.value.position == s.sslOut.value.limit == 0
    ensures s.appIn.value.position == s.appIn.value.limit == 0 && s.appOut.value.position == s.appOut.value.limit == 0
    ensures s.engine == engine && s.input == input && s.output == output
  {
    var e := EmptyBuffer();
    State(true, engine, Some(e), Some(e), Some(e), Some(e), input, inputCloses, output, flushes, outputCloses)
  }

  /**
   * The private close(): when the engine is still present it is dropped, both transports are
   * closed and APP_OUT, SSL_IN and SSL_OUT are nulled; APP_IN is left as it is.
   */
  function Teardown(s: State): (t: State)
    ensures !t.engineOn && t.appIn == s.appIn && t.engine == s.engine
    ensures t.inputCloses == s.inputCloses + (if s.engineOn then 1 else 0)
    ensures t.outputCloses == s.outputCloses + (if s.engineOn then 1 else 0)
    ensures s.engineOn ==> t.sslIn.None? && t.sslOut.None? && t.appOut.None?
    ensures !s.engineOn ==> t == s
  {
    if s.engineOn then
      s.(engineOn := false, appOut := None, sslIn := None, sslOut := None,
         inputCloses := s.inputCloses + 1, outputCloses := s.outputCloses + 1)
    else s
  }

  /** SslInputStream.close(): the input pair goes; the teardown runs if the output pair is gone. */
  function CloseInput(s: State): (t: State)
    ensures t.appIn.None? && t.sslIn.None?
    ensures s.appOut.Some? || s.sslOut.Some? ==>
              t == s.(appIn := None, sslIn := None)
    ensures s.appOut.None? && s.sslOut.None? ==>
              t == Teardown(s.(appIn := None, sslIn := None))
  {
    var u := s.(appIn := None, sslIn := None);
    if u.appOut.None? && u.sslOut.None? then Teardown(u) else u
  }

  /** SslOutputStream.close(): the output pair goes; the teardown runs if the input pair is gone. */
  function CloseOutput(s: State): (t: State)
    ensures t.appOut.None? && t.sslOut.None?
    ensures s.appIn.Some? || s.sslIn.Some? ==>
              t == s.(appOut := None, sslOut := None)
    ensures s.appIn.None? && s.sslIn.None? ==>
              t == Teardown(s.(appOut := None, sslOut := None))
  {
    var u := s.(appOut := None, sslOut := None);
    if u.appIn.None? && u.sslIn.None? then Teardown(u) else u
  }

  /** expand(buffer): the bigger buffer takes all readable bytes of `buffer` and is then dropped. */
  function Expanded(b: Buf): (r: Buf)
    requires WellFormed(b)
    ensures WellFormed(r) && CapacityOf(r) == CapacityOf(b) && r.data == b.data
    ensures r.limit == b.limit && Readable(r) == []
  {
    b.(position := b.limit)
  }

  /** The SSL_IN buffer readFromInput reads into: compacted, and emptied first when it is full. */
  function ReadTarget(b: Buf): (r: Buf)
    requires WellFormed(b) && CapacityOf(b) > 0
    ensures WellFormed(r) && CapacityOf(r) == CapacityOf(b) && RemainingOf(r) > 0
  {
    var c := Compacted(b);
    if RemainingOf(c) == 0 then Compacted(Expanded(Flipped(c))) else c
  }

  /** readFromInput(): one transport read into SSL_IN's free space. */
  function ReadFromInput(s: State): (r: Run)
    requires Good(s)
    ensures Good(r.state) && SameShape(s, r.state)
    ensures r.outcome == Normal || (r.outcome.Raised? && r.outcome.fault != Diverges)
    ensures r.state.engine == s.engine && r.state.output == s.output && r.state.flushes == s.flushes
    ensures r.state.appIn == s.appIn && r.state.appOut == s.appOut && r.state.sslOut == s.sslOut
  {
    if s.sslIn.None? then Run(Raised(Unchecked), s)
    else
      var target := ReadTarget(s.sslIn.value);
      var d := ReadStep(s.input, RemainingOf(target));
      match d.outcome
      case Threw => Run(Raised(IoFailure), s.(input := d.rest, sslIn := Some(target)))
      case Count(n) =>
        if n < 0 then Run(Raised(EndOfStream), s.(input := d.rest, sslIn := Some(target)))
        else Run(Normal, s.(input := d.rest, sslIn := Some(Flipped(Appended(target, d.bytes)))))
  }

  /** writeToOutput(): SSL_OUT's readable bytes go to the transport, which is flushed. */
  function WriteToOutput(s: State): (t: State)
    requires Good(s) && s.sslOut.Some?
    ensures Good(t) && SameShape(s, t)
    ensures t.output == s.output + Readable(s.sslOut.value) && t.flushes == s.flushes + 1
    ensures t.sslOut == Some(Buf(s.sslOut.value.data, 0, 0))
    ensures t == s.(output := t.output, flushes := t.flushes, sslOut := t.sslOut)
  {
    var b := s.sslOut.value;
    s.(output := s.output + Readable(b), flushes := s.flushes + 1,
       sslOut := Some(WithLimit(WithPosition(b, 0), 0)))
  }

  /** task(): run the engine's delegated task; none there (or no engine) is a null dereference. */
  function Task(s: State): (r: Run)
    ensures r.outcome == Normal || r.outcome == Raised(Unchecked)
    ensures r.outcome == Normal <==> s.engineOn && s.engine.pending > 0
    ensures r.outcome == Normal ==> r.state == s.(engine := RunTask(s.engine).value)
    ensures r.outcome != Normal ==> r.state == s
  {
    if !s.engineOn then Run(Raised(Unchecked), s)
    else match RunTask(s.engine)
      case None => Run(Raised(Unchecked), s)
      case Some(e) => Run(Normal, s.(engine := e))
  }

  /** How one pass of a wrap or unwrap loop body ends. */
  datatype Tag = Again | Switch | Stop(outcome: Outcome)

  datatype Pass = Pass(tag: Tag, state: State)

  function Continue(r: Run): Pass
  {
    if r.outcome.Raised? then Pass(Stop(r.outcome), r.state) else Pass(Again, r.state)
  }

  /** How an engine call went: its result, or None when an unchecked exception stopped it. */
  datatype Called = Called(result: Option<EngineResult>, state: State)

  /** The status dispatch both loops share for BUFFER_OVERFLOW and BUFFER_UNDERFLOW. */
  function OnShortBuffer(status: Status, s: State): (p: Pass)
    requires Good(s) && (status == BufferOverflow || status == BufferUnderflow)
    ensures Good(p.state) && SameShape(s, p.state) && p.state.engine == s.engine
    ensures p.tag == Again || (p.tag.Stop? && p.tag.outcome.Raised? && p.tag.outcome.fault != Diverges)
    // BUFFER_OVERFLOW expands APP_IN, not SSL_OUT: plaintext still unread in APP_IN is lost
    ensures status == BufferOverflow && s.appIn.Some? ==>
              && p.tag == Again && p.state == s.(appIn := p.state.appIn)
              && Readable(p.state.appIn.value) == [] && p.state.appIn.value.data == s.appIn.value.data
    ensures status == BufferOverflow && s.appIn.None? ==> p.tag == Stop(Raised(Unchecked)) && p.state == s
    // BUFFER_UNDERFLOW is exactly one readFromInput, its exception stopping the loop
    ensures status == BufferUnderflow ==>
              && p.state == ReadFromInput(s).state
              && (p.tag == Again <==> ReadFromInput(s).outcome == Normal)
              && (ReadFromInput(s).outcome.Raised? ==> p.tag == Stop(ReadFromInput(s).outcome))
  {
    if status == BufferOverflow then
      if s.appIn.None? then Pass(Stop(Raised(Unchecked)), s)
      else Pass(Again, s.(appIn := Some(Expanded(s.appIn.value))))
    else Continue(ReadFromInput(s))
  }

  /** wrap()'s `SSL_OUT.compact(); result = engine.wrap(APP_OUT, SSL_OUT); SSL_OUT.flip();`. */
  function CallWrap(s: State): (c: Called)
    requires Good(s)
    ensures Good(c.state) && SameShape(s, c.state) && c.state.output == s.output
    ensures |c.state.engine.script| <= |s.engine.script|
    ensures c.result.Some? ==> c.state.sslOut.Some? && c.state.engine.calls == s.engine.calls + [WrapCall]
    ensures c.result.Some? && c.result.value.status != Closed ==> |c.state.engine.script| < |s.engine.script|
  {
    if s.sslOut.None? then Called(None, s)
    else
      var room := Compacted(s.sslOut.value);
      if !s.engineOn || s.appOut.None? then Called(None, s.(sslOut := Some(room)))
      else
        var a := Apply(s.engine, WrapCall, s.appOut.value, room);
        Called(Some(a.result), s.(engine := a.engine, appOut := Some(a.src), sslOut := Some(Flipped(a.dst))))
  }

  /** `if (SSL_OUT.hasRemaining()) writeToOutput();`. */
  function Drain(s: State): (t: State)
    requires Good(s) && s.sslOut.Some?
    ensures Good(t) && SameShape(s, t) && t.engine == s.engine
    ensures t.output == s.output + Readable(s.sslOut.value) && RemainingOf(t.sslOut.value) == 0
  {
    if RemainingOf(s.sslOut.value) > 0 then WriteToOutput(s) else s
  }

  /** wrap()'s switch on the engine result. */
  function WrapDispatch(result: EngineResult, s: State): (p: Pass)
    requires Good(s)
    ensures Good(p.state) && SameShape(s, p.state) && p.state.engine.script == s.engine.script
    ensures p.tag.Stop? ==> p.tag.outcome == Normal || (p.tag.outcome.Raised? && p.tag.outcome.fault != Diverges)
    ensures result.status == Closed ==> p.tag == Stop(Raised(EndOfStream)) && p.state == s
  {
    match result.status
    case Closed => Pass(Stop(Raised(EndOfStream)), s)
    case BufferOverflow => OnShortBuffer(BufferOverflow, s)
    case BufferUnderflow => OnShortBuffer(BufferUnderflow, s)
    case Ok =>
      match result.handshake
      case NeedTask => Continue(Task(s))
      case NeedWrap => Pass(Again, s)
      case NeedUnwrap => Pass(Switch, s)
      case Finished => Pass(Stop(Normal), s)
      case NotHandshaking => Pass(Stop(Normal), s)
  }

  /** One pass of wrap()'s loop body: the engine call, the drain, the dispatch. */
  function WrapPass(s: State): (p: Pass)
    requires Good(s)
    ensures Good(p.state) && SameShape(s, p.state)
    ensures |p.state.engine.script| <= |s.engine.script|
    ensures p.tag.Stop? ==> p.tag.outcome == Normal || (p.tag.outcome.Raised? && p.tag.outcome.fault != Diverges)
    ensures !(p.tag.Stop? && p.tag.outcome.Raised?) ==> |p.state.engine.script| < |s.engine.script|
  {
    var c := CallWrap(s);
    if c.result.None? then Pass(Stop(Raised(Unchecked)), c.state)
    else WrapDispatch(c.result.value, Drain(c.state))
  }

  /** unwrap()'s `APP_IN.compact(); result = engine.unwrap(SSL_IN, APP_IN); APP_IN.flip();`. */
  function CallUnwrap(s: State): (c: Called)
    requires Good(s)
    ensures Good(c.state) && SameShape(s, c.state) && c.state.output == s.output
    ensures |c.state.engine.script| <= |s.engine.script|
    ensures c.result.Some? ==> c.state.engine.calls == s.engine.calls + [UnwrapCall]
    ensures c.result.Some? && c.result.value.status != Closed ==> |c.state.engine.script| < |s.engine.script|
  {
    if s.appIn.None? then Called(None, s)
    else
      var room := Compacted(s.appIn.value);
      if !s.engineOn || s.sslIn.None? then Called(None, s.(appIn := Some(room)))
      else
        var a := Apply(s.engine, UnwrapCall, s.sslIn.value, room);
        Called(Some(a.result), s.(engine := a.engine, sslIn := Some(a.src), appIn := Some(Flipped(a.dst))))
  }

  /** unwrap()'s switch on the engine result. */
  function UnwrapDispatch(result: EngineResult, s: State): (p: Pass)
    requires Good(s)
    ensures Good(p.state) && SameShape(s, p.state) && p.state.engine.script == s.engine.script
    ensures p.tag.Stop? ==> p.tag.outcome == Normal || (p.tag.outcome.Raised? && p.tag.outcome.fault != Diverges)
    ensures result.status == Closed ==> p.tag == Stop(Raised(EndOfStream)) && p.state == s
  {
    match result.status
    case Closed => Pass(Stop(Raised(EndOfStream)), s)
    case BufferOverflow => OnShortBuffer(BufferOverflow, s)
    case BufferUnderflow => OnShortBuffer(BufferUnderflow, s)
    case Ok =>
      match result.handshake
      case NeedTask => Continue(Task(s))
      case NeedWrap => Pass(Switch, s)
      case NeedUnwrap => Pass(Again, s)
      case Finished => Pass(Stop(Normal), s)
      case NotHandshaking => Pass(Stop(Normal), s)
  }

  /** One pass of unwrap()'s loop body. */
  function UnwrapPass(s: State): (p: Pass)
    requires Good(s)
    ensures Good(p.state) && SameShape(s, p.state)
    ensures |p.state.engine.script| <= |s.engine.script|
    ensures p.tag.Stop? ==> p.tag.outcome == Normal || (p.tag.outcome.Raised? && p.tag.outcome.fault != Diverges)
    ensures !(p.tag.Stop? && p.tag.outcome.Raised?) ==> |p.state.engine.script| < |s.engine.script|
  {
    var c := CallUnwrap(s);
    if c.result.None? then Pass(Stop(Raised(Unchecked)), c.state)
    else UnwrapDispatch(c.result.value, c.state)
  }

  /**
   * wrap(): passes until one returns or throws; NEED_UNWRAP hands over to unwrap() and returns
   * with it. Every pass that does not throw uses up one engine step, so the loops end.
   */
  function WrapLoop(s: State): (r: Run)
    requires Good(s)
    ensures Good(r.state) && SameShape(s, r.state)
    ensures r.outcome == Normal || (r.outcome.Raised? && r.outcome.fault != Diverges)
    ensures |r.state.engine.script| <= |s.engine.script|
    ensures r.outcome == Normal ==> |r.state.engine.script| < |s.engine.script|
    decreases |s.engine.script|
  {
    var p := WrapPass(s);
    match p.tag
    case Again => WrapLoop(p.state)
    case Switch => UnwrapLoop(p.state)
    case Stop(o) => Run(o, p.state)
  }

  /** unwrap(): the same loop with the roles of the two loops exchanged. */
  function UnwrapLoop(s: State): (r: Run)
    requires Good(s)
    ensures Good(r.state) && SameShape(s, r.state)
    ensures r.outcome == Normal || (r.outcome.Raised? && r.outcome.fault != Diverges)
    ensures |r.state.engine.script| <= |s.engine.script|
    ensures r.outcome == Normal ==> |r.state.engine.script| < |s.engine.script|
    decreases |s.engine.script|
  {
    var p := UnwrapPass(s);
    match p.tag
    case Again => UnwrapLoop(p.state)
    case Switch => WrapLoop(p.state)
    case Stop(o) => Run(o, p.state)
  }

  /** innerRead's `while (!APP_IN.hasRemaining()) unwrap(1);`. */
  function AwaitPlaintext(s: State): (r: Run)
    requires Good(s) && s.appIn.Some?
    ensures Good(r.state) && SameShape(s, r.state)
    ensures r.outcome == Normal || (r.outcome.Raised? && r.outcome.fault != Diverges)
    ensures r.outcome == Normal ==> RemainingOf(r.state.appIn.value) > 0
    ensures |r.state.engine.script| <= |s.engine.script|
    decreases |s.engine.script|
  {
    if RemainingOf(s.appIn.value) > 0 then Run(Normal, s)
    else
      var u := UnwrapLoop(s);
      if u.outcome.Raised? then u else AwaitPlaintext(u.state)
  }

  /**
   * The end of innerRead: `len = Math.min(len, APP_IN.remaining()); APP_IN.get(b, off, len);
   * APP_IN.compact(); APP_IN.flip();`.
   */
  function TakePlaintext(s: State, len: nat): (r: Reading)
    requires Good(s) && s.appIn.Some?
    ensures Good(r.state) && SameShape(s, r.state) && r.state == s.(appIn := r.state.appIn)
    ensures r.outcome == Returned(|r.bytes|) && |r.bytes| == Min(len, RemainingOf(s.appIn.value))
    ensures r.bytes == Readable(s.appIn.value)[..|r.bytes|]
    ensures Readable(r.state.appIn.value) == Readable(s.appIn.value)[|r.bytes|..]
    ensures r.state.appIn.value.position == 0
  {
    var b := s.appIn.value;
    var n := Min(len, RemainingOf(b));
    Reading(Returned(n), Readable(b)[..n], s.(appIn := Some(Flipped(Compacted(Consumed(b, n))))))
  }

  /** SslInputStream.innerRead(b, off, len) (and read(b, off, len), which only rethrows). */
  function InnerRead(s: State, len: nat): (r: Reading)
    requires Good(s)
    ensures Good(r.state)
    ensures r.outcome.Returned? || r.outcome.Raised?
    ensures r.outcome.Returned? ==> r.outcome.n <= len && (r.outcome.n == -1 || r.outcome.n == |r.bytes|)
    ensures r.outcome.Returned? && r.outcome.n < 0 ==> r.bytes == [] && r.state == s
    ensures len == 0 ==> r == Reading(Returned(if s.engineOn then 0 else -1), [], s)
    ensures len > 0 && (s.appIn.None? || s.sslIn.None?) ==> r == Reading(Returned(-1), [], s)
    ensures len > 0 && s.appIn.Some? && s.sslIn.Some? && r.outcome.Returned? ==> r.outcome.n > 0
    ensures r.outcome.Raised? ==> r.outcome.fault != Diverges
    ensures r.outcome.Raised? && IsIOException(r.outcome.fault) ==> r.state.appIn.None? && r.state.sslIn.None?
    ensures r.outcome.Raised? && IsIOException(r.outcome.fault) ==>
              (r.state.engineOn <==> s.engineOn && (s.appOut.Some? || s.sslOut.Some?))
    ensures !(r.outcome.Raised? && IsIOException(r.outcome.fault)) ==> SameShape(s, r.state)
    ensures ClosedWithEngine(s, r.state)
  {
    if len == 0 then Reading(Returned(if s.engineOn then 0 else -1), [], s)
    else if s.appIn.None? || s.sslIn.None? then Reading(Returned(-1), [], s)
    else ReadPlaintext(s, len)
  }

  /** innerRead's try block: wait for plaintext and take it; an IOException closes the input side. */
  function ReadPlaintext(s: State, len: nat): (r: Reading)
    requires Good(s) && s.appIn.Some? && len > 0
    ensures Good(r.state)
    ensures r.outcome.Returned? ==> 0 < r.outcome.n <= len && r.outcome.n == |r.bytes|
    ensures r.outcome.Raised? ==> r.bytes == [] && r.outcome.fault != Diverges
    ensures r.outcome.Raised? && IsIOException(r.outcome.fault) ==> r.state.appIn.None? && r.state.sslIn.None?
    ensures r.outcome.Raised? && IsIOException(r.outcome.fault) ==>
              (r.state.engineOn <==> s.engineOn && (s.appOut.Some? || s.sslOut.Some?))
    ensures !(r.outcome.Raised? && IsIOException(r.outcome.fault)) ==> SameShape(s, r.state)
    ensures ClosedWithEngine(s, r.state)
  {
    var w := AwaitPlaintext(s);
    if w.outcome.Raised? then
      if IsIOException(w.outcome.fault) then Reading(w.outcome, [], CloseInput(w.state))
      else Reading(w.outcome, [], w.state)
    else TakePlaintext(w.state, len)
  }

  /** SslInputStream.read(): one byte as 0..255, or -1 when the one-byte read did not return 1. */
  function ReadOne(s: State): (r: Run)
    requires Good(s)
    ensures Good(r.state)
    ensures r.outcome.Returned? ==> -1 <= r.outcome.n < 256
    ensures r.outcome.Returned? && r.outcome.n >= 0 ==>
              InnerRead(s, 1).outcome == Returned(1) && r.outcome.n == InnerRead(s, 1).bytes[0] as int
    ensures r.state == InnerRead(s, 1).state
    ensures InnerRead(s, 1).outcome == Returned(1) ==> r.outcome == Returned(InnerRead(s, 1).bytes[0] as int)
    ensures InnerRead(s, 1).outcome.Raised? ==> r.outcome == InnerRead(s, 1).outcome
    ensures InnerRead(s, 1).outcome.Returned? && InnerRead(s, 1).outcome != Returned(1) ==> r.outcome == Returned(-1)
  {
    var inner := InnerRead(s, 1);
    if inner.outcome.Raised? then Run(inner.outcome, inner.state)
    else if inner.outcome == Returned(1) then Run(Returned(inner.bytes[0] as int), inner.state)
    else Run(Returned(-1), inner.state)
  }

  /** flush()'s `while (APP_OUT.hasRemaining()) wrap(1);`. */
  function FlushLoop(s: State): (r: Run)
    requires Good(s) && s.appOut.Some?
    ensures Good(r.state) && SameShape(s, r.state)
    ensures r.outcome == Normal || (r.outcome.Raised? && r.outcome.fault != Diverges)
    ensures r.outcome == Normal ==> RemainingOf(r.state.appOut.value) == 0
    decreases |s.engine.script|
  {
    if RemainingOf(s.appOut.value) == 0 then Run(Normal, s)
    else
      var w := WrapLoop(s);
      if w.outcome.Raised? then w else FlushLoop(w.state)
  }

  /** SslOutputStream.flush(). */
  function Flush(s: State): (r: Run)
    requires Good(s)
    ensures Good(r.state)
    ensures r.outcome == Normal || (r.outcome.Raised? && r.outcome.fault != Diverges)
    ensures s.appOut.None? || s.sslOut.None? ==> r == Run(Normal, s)
    ensures r.outcome == Normal ==> SameShape(s, r.state)
    ensures r.outcome == Normal && s.appOut.Some? && s.sslOut.Some? ==> RemainingOf(r.state.appOut.value) == 0
    ensures r.outcome.Raised? ==> r.outcome.fault != Diverges
    ensures r.outcome.Raised? && IsIOException(r.outcome.fault) ==> r.state.appOut.None? && r.state.sslOut.None?
    ensures r.outcome.Raised? && IsIOException(r.outcome.fault) ==>
              (r.state.engineOn <==> s.engineOn && (s.appIn.Some? || s.sslIn.Some?))
    ensures r.outcome.Raised? && !IsIOException(r.outcome.fault) ==> SameShape(s, r.state)
    ensures ClosedWithEngine(s, r.state)
  {
    if s.appOut.None? || s.sslOut.None? then Run(Normal, s)
    else
      var f := FlushLoop(s);
      if f.outcome.Raised? && IsIOException(f.outcome.fault) then Run(f.outcome, CloseOutput(f.state))
      else f
  }

  /** Whether a readable sequence ends with `bytes`. */
  predicate EndsWith(r: seq<byte>, bytes: seq<byte>)
  {
    |bytes| <= |r| && r[|r| - |bytes|..] == bytes
  }

  /**
   * write()'s path for a payload that does not fit, with APP_OUT compacted: flip it back, flush(),
   * spin in the grow loop while the capacity is below `len`, compact again. An IOException from
   * flush() (which has already closed the output side) makes write() close it once more.
   */
  function MakeRoomForWrite(s: State, len: nat): (r: Run)
    requires Good(s) && s.appOut.Some? && s.sslOut.Some?
    ensures Good(r.state)
    ensures r.outcome == Normal || r.outcome.Raised?
    ensures r.outcome == Normal ==> SameShape(s, r.state) && len <= RemainingOf(r.state.appOut.value)
    ensures r.outcome == Normal ==> r.state.appOut.value.position == 0
    ensures r.outcome.Raised? && IsIOException(r.outcome.fault) ==> r.state.appOut.None? && r.state.sslOut.None?
    ensures r.outcome.Raised? && IsIOException(r.outcome.fault) ==>
              (r.state.engineOn <==> s.engineOn && (s.appIn.Some? || s.sslIn.Some?))
    ensures !(r.outcome.Raised? && IsIOException(r.outcome.fault)) ==> SameShape(s, r.state)
    ensures ClosedWithEngine(s, r.state)
    ensures r.outcome == Raised(Diverges) <==> BufferSize < len && Flush(s.(appOut := Some(Flipped(s.appOut.value)))).outcome == Normal
  {
    var f := Flush(s.(appOut := Some(Flipped(s.appOut.value))));
    if f.outcome.Raised? then
      if IsIOException(f.outcome.fault) then Run(f.outcome, CloseOutput(f.state)) else f
    else if BufferSize < len then Run(Raised(Diverges), f.state)
    else Run(Normal, f.state.(appOut := Some(Compacted(f.state.appOut.value))))
  }

  /** `APP_OUT.put(b, off, len); APP_OUT.flip();` with APP_OUT in write mode. */
  function Put(s: State, bytes: seq<byte>): (t: State)
    requires Good(s) && s.appOut.Some? && |bytes| <= RemainingOf(s.appOut.value)
    ensures Good(t) && SameShape(s, t) && t == s.(appOut := t.appOut)
    ensures Readable(t.appOut.value) == s.appOut.value.data[..s.appOut.value.position] + bytes
    ensures t.appOut.value.position == 0
  {
    s.(appOut := Some(Flipped(Appended(s.appOut.value, bytes))))
  }

  /**
   * SslOutputStream.write(b, off, len) with `bytes` = b[off..off+len]. When the bytes do not fit
   * behind the unread ones, APP_OUT is flushed first; a payload larger than the capacity then
   * keeps the grow loop spinning for ever.
   */
  function Write(s: State, bytes: seq<byte>): (r: Run)
    requires Good(s)
    ensures Good(r.state)
    ensures r.outcome == Normal || r.outcome.Raised?
    ensures s.appOut.None? || s.sslOut.None? ==> r == Run(Raised(EndOfStream), s)
    ensures r.outcome == Normal ==> SameShape(s, r.state) && EndsWith(Readable(r.state.appOut.value), bytes)
    ensures r.outcome.Raised? && IsIOException(r.outcome.fault) && s.appOut.Some? && s.sslOut.Some? ==>
              && r.state.appOut.None? && r.state.sslOut.None?
              && (r.state.engineOn <==> s.engineOn && (s.appIn.Some? || s.sslIn.Some?))
    ensures !(r.outcome.Raised? && IsIOException(r.outcome.fault)) ==> SameShape(s, r.state)
    ensures ClosedWithEngine(s, r.state)
    ensures r.outcome == Normal && s.appOut.Some? && BufferSize - RemainingOf(s.appOut.value) < |bytes| ==>
              Readable(r.state.appOut.value) == bytes
  {
    if s.appOut.None? || s.sslOut.None? then Run(Raised(EndOfStream), s)
    else
      var c := s.(appOut := Some(Compacted(s.appOut.value)));
      if RemainingOf(c.appOut.value) < |bytes| then
        var m := MakeRoomForWrite(c, |bytes|);
        if m.outcome.Raised? then m else Run(Normal, Put(m.state, bytes))
      else Run(Normal, Put(c, bytes))
  }

  /** SslOutputStream.write(int): the low eight bits, as a one-byte write. */
  function WriteOne(s: State, b: int): (r: Run)
    requires Good(s)
    ensures Good(r.state)
    ensures s.appOut.None? || s.sslOut.None? ==> r == Run(Raised(EndOfStream), s)
    ensures r.outcome == Normal ==> SameShape(s, r.state) && EndsWith(Readable(r.state.appOut.value), [(b % 256) as byte])
    ensures r.outcome.Raised? && IsIOException(r.outcome.fault) && s.appOut.Some? && s.sslOut.Some? ==>
              && r.state.appOut.None? && r.state.sslOut.None?
              && (r.state.engineOn <==> s.engineOn && (s.appIn.Some? || s.sslIn.Some?))
    ensures !(r.outcome.Raised? && IsIOException(r.outcome.fault)) ==> SameShape(s, r.state)
    ensures ClosedWithEngine(s, r.state)
  {
    Write(s, [ToByte(b)])
  }
}
