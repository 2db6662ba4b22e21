/**
 * The SSLEngine as an oracle. TLS itself is not modelled: each wrap or unwrap call takes the next
 * scripted step, which says what result the engine reports, how many source bytes it consumes,
 * what it writes to the destination (cut to the room there) and how many delegated tasks it leaves.
 * Once the script is used up the engine reports CLOSED and touches nothing.
 */
module SslEngine {
  import opened Bytes
  import opened Options
  import opened NioBuffers

  datatype Status = Ok | Closed | BufferOverflow | BufferUnderflow
  datatype HandshakeStatus = NeedTask | NeedWrap | NeedUnwrap | Finished | NotHandshaking

  /** SSLEngineResult: a status and a handshake status. */
  datatype EngineResult = EngineResult(status: Status, handshake: HandshakeStatus)

  /** One scripted engine call. */
  datatype Step = Step(result: EngineResult, consume: nat, produce: seq<byte>, tasks: nat)

  /** The calls the bridge makes on the engine, in order. */
  datatype Call = WrapCall | UnwrapCall | TaskRun

  /** The engine's state: the steps to come, the delegated tasks waiting, the calls made so far. */
  datatype EngineState = EngineState(script: seq<Step>, pending: nat, calls: seq<Call>)

  /** What one wrap or unwrap call leaves behind. */
  datatype Applied = Applied(result: EngineResult, engine: EngineState, src: Buf, dst: Buf)

  function Min(a: nat, b: nat): nat
  {
    if a <= b then a else b
  }

  /**
   * engine.wrap(src, dst) or engine.unwrap(src, dst), with dst in write mode: the call is logged,
   * the next step's bytes are taken from src and stored at dst's position.
   */
  function Apply(e: EngineState, call: Call, src: Buf, dst: Buf): (a: Applied)
    requires WellFormed(src) && WellFormed(dst)
    ensures WellFormed(a.src) && WellFormed(a.dst)
    ensures CapacityOf(a.src) == CapacityOf(src) && CapacityOf(a.dst) == CapacityOf(dst)
    ensures a.engine.calls == e.calls + [call]
    ensures e.script == [] ==>
              a.result == EngineResult(Closed, NotHandshaking) && a.engine.script == [] && a.src == src && a.dst == dst
    ensures e.script != [] ==> a.result == e.script[0].result && a.engine.script == e.script[1..]
    ensures a.src.limit == src.limit && src.position <= a.src.position
    ensures a.dst.limit == dst.limit && dst.position <= a.dst.position
    ensures a.dst.data[..dst.position] == dst.data[..dst.position]
  {
    if e.script == [] then Applied(EngineResult(Closed, NotHandshaking), e.(calls := e.calls + [call]), src, dst)
    else
      var s := e.script[0];
      var out := s.produce[..Min(|s.produce|, RemainingOf(dst))];
      Applied(s.result, EngineState(e.script[1..], e.pending + s.tasks, e.calls + [call]),
              Consumed(src, Min(s.consume, RemainingOf(src))), Appended(dst, out))
  }

  /** getDelegatedTask().run(): None when there is no task (the code then dereferences null). */
  function RunTask(e: EngineState): (r: Option<EngineState>)
    ensures r.Some? <==> e.pending > 0
    ensures r.Some? ==> r.value == EngineState(e.script, e.pending - 1, e.calls + [TaskRun])
  {
    if e.pending == 0 then None else Some(EngineState(e.script, e.pending - 1, e.calls + [TaskRun]))
  }

  /** The engine object. */
  class Engine {
    var script: seq<Step>
    var pending: nat
    var calls: seq<Call>

    constructor (script: seq<Step>)
      ensures View() == EngineState(script, 0, [])
    {
      this.script, pending, calls := script, 0, [];
    }

    function View(): EngineState
      reads this
    {
      EngineState(script, pending, calls)
    }

    /** engine.wrap(src, dst): the buffers are passed in and handed back as they are left. */
    method Wrap(src: Buf, dst: Buf) returns (r: EngineResult, src': Buf, dst': Buf)
      requires WellFormed(src) && WellFormed(dst)
      modifies this
      ensures var a := Apply(old(View()), WrapCall, src, dst);
        r == a.result && View() == a.engine && src' == a.src && dst' == a.dst
    {
      r, src', dst' := Step(WrapCall, src, dst);
    }

    /** engine.unwrap(src, dst). */
    method Unwrap(src: Buf, dst: Buf) returns (r: EngineResult, src': Buf, dst': Buf)
      requires WellFormed(src) && WellFormed(dst)
      modifies this
      ensures var a := Apply(old(View()), UnwrapCall, src, dst);
        r == a.result && View() == a.engine && src' == a.src && dst' == a.dst
    {
      r, src', dst' := Step(UnwrapCall, src, dst);
    }

    /** One scripted call: log it, then consume from `src` and produce into `dst`. */
    method Step(call: Call, src: Buf, dst: Buf) returns (r: EngineResult, src': Buf, dst': Buf)
      requires WellFormed(src) && WellFormed(dst)
      modifies this
      ensures var a := Apply(old(View()), call, src, dst);
        r == a.result && View() == a.engine && src' == a.src && dst' == a.dst
    {
      calls := calls + [call];
      if script == [] {
        return EngineResult(Closed, NotHandshaking), src, dst;
      }
      var s := script[0];
      var out := s.produce[..Min(|s.produce|, dst.limit - dst.position)];
      var taken := Min(s.consume, src.limit - src.position);
      dst' := Buf(Overwrite(dst.data, dst.position, out), dst.position + |out|, dst.limit);
      src' := src.(position := src.position + taken);
      script, pending := script[1..], pending + s.tasks;
      r := s.result;
    }

    /** getDelegatedTask() followed by run(); false when the engine has no task to give. */
    method RunDelegatedTask() returns (ran: bool)
      modifies this
      ensures ran == RunTask(old(View())).Some?
      ensures ran ==> View() == RunTask(old(View())).value
      ensures !ran ==> View() == old(View())
    {
      if pending == 0 {
        return false;
      }
      pending := pending - 1;
      calls := calls + [TaskRun];
      ran := true;
    }
  }
}
