/**
 * The blocking transport streams the three components read from and write to,
 * modelled as scripted chunk sequences (InputStream) and append-only logs (OutputStream).
 */
module Streams {
  import opened Bytes

  /** What the transport does on one read call: hand over some bytes, or throw an IOException. */
  datatype Chunk = Data(bytes: seq<byte>) | Broken

  /** The result of one `InputStream.read(b, off, len)`: a count (-1 at end of stream) or an IOException. */
  datatype ReadOutcome = Count(n: int) | Threw

  /** One read call: its outcome, the bytes it stored, and the script left for later calls. */
  datatype Delivery = Delivery(outcome: ReadOutcome, bytes: seq<byte>, rest: seq<Chunk>)

  /**
   * One `read(b, off, len)` on a scripted stream. An exhausted script is end of stream (-1);
   * a chunk longer than `len` is handed over in part and its tail stays first in the script.
   */
  function ReadStep(chunks: seq<Chunk>, len: nat): (d: Delivery)
    ensures d.outcome.Count? ==> d.outcome.n == -1 || d.outcome.n == |d.bytes|
    ensures |d.bytes| <= len
    ensures d.outcome == Count(-1) <==> chunks == []
    ensures d.outcome == Threw <==> chunks != [] && chunks[0].Broken?
    ensures d.outcome.Count? && d.outcome.n >= 0 ==> chunks[0].Data? && d.bytes <= chunks[0].bytes
  {
    if chunks == [] then Delivery(Count(-1), [], [])
    else match chunks[0]
      case Broken => Delivery(Threw, [], chunks[1..])
      case Data(b) =>
        if |b| <= len then Delivery(Count(|b|), b, chunks[1..])
        else Delivery(Count(len), b[..len], [Data(b[len..])] + chunks[1..])
  }

  /** The bytes a reader can obtain before the stream first ends, fails or returns an empty read. */
  function Available(chunks: seq<Chunk>): (a: seq<byte>)
    ensures chunks == [] || chunks[0].Broken? ==> a == []
    ensures chunks != [] && chunks[0].Data? ==> chunks[0].bytes <= a
  {
    if chunks == [] then []
    else match chunks[0]
      case Broken => []
      case Data(b) => if b == [] then [] else b + Available(chunks[1..])
  }

  /** The outcome of reading until `count` bytes have arrived (the readExactly loops). */
  datatype Gather =
    | Gathered(bytes: seq<byte>, rest: seq<Chunk>)
    | ShortRead(rest: seq<Chunk>)      // a read returned a count <= 0
    | TransportError(rest: seq<Chunk>) // a read threw an IOException

  /**
   * Successive `read(data, offset, count)` calls for the bytes still missing; a read that returns
   * a count <= 0 ends with ShortRead.
   */
  function Collect(chunks: seq<Chunk>, count: nat): (g: Gather)
    ensures g.Gathered? ==> |g.bytes| == count
    decreases count
  {
    if count == 0 then Gathered([], chunks)
    else
      var d := ReadStep(chunks, count);
      match d.outcome
      case Threw => TransportError(d.rest)
      case Count(n) =>
        if n <= 0 then ShortRead(d.rest)
        else
          match Collect(d.rest, count - n)
          case Gathered(b, r) => Gathered(d.bytes + b, r)
          case other => other
  }

  /** A Gather with `prefix` put in front of the bytes it gathered. */
  function Prefixed(prefix: seq<byte>, g: Gather): (r: Gather)
    ensures r.Gathered? == g.Gathered? && r.rest == g.rest
    ensures g.Gathered? ==> r.bytes == prefix + g.bytes
    ensures !g.Gathered? ==> r == g
  {
    match g
    case Gathered(b, rest) => Gathered(prefix + b, rest)
    case other => other
  }

  lemma PrefixedTwice(p: seq<byte>, q: seq<byte>, g: Gather)
    ensures Prefixed(p, Prefixed(q, g)) == Prefixed(p + q, g)
  {
    if g.Gathered? {
      assert p + (q + g.bytes) == (p + q) + g.bytes;
    }
  }

  lemma AvailableOfSplit(b: seq<byte>, len: nat, rest: seq<Chunk>)
    requires len < |b|
    ensures Available([Data(b[len..])] + rest) == b[len..] + Available(rest)
  {
    assert ([Data(b[len..])] + rest)[1..] == rest;
  }

  /**
   * readExactly succeeds exactly when the stream can supply `count` bytes before it ends, fails
   * or returns an empty read, and then the result is the first `count` of those bytes, in order.
   */
  lemma {:induction false} CollectExactly(chunks: seq<Chunk>, count: nat)
    ensures Collect(chunks, count).Gathered? <==> count <= |Available(chunks)|
    ensures Collect(chunks, count).Gathered? ==> Collect(chunks, count).bytes == Available(chunks)[..count]
    ensures Collect(chunks, count).Gathered? ==> Available(Collect(chunks, count).rest) == Available(chunks)[count..]
    decreases count
  {
    if count > 0 && chunks != [] && chunks[0].Data? && chunks[0].bytes != [] {
      var b := chunks[0].bytes;
      var d := ReadStep(chunks, count);
      var n := d.outcome.n;
      CollectExactly(d.rest, count - n);
      if |b| <= count {
        assert Available(chunks) == b + Available(chunks[1..]);
      } else {
        AvailableOfSplit(b, count, chunks[1..]);
        assert Available(chunks) == b[..count] + (b[count..] + Available(chunks[1..]));
      }
    }
  }

  /** An `InputStream` whose reads follow a script. */
  class ByteSource {
    var chunks: seq<Chunk>
    var closes: nat

    constructor (script: seq<Chunk>)
      ensures chunks == script && closes == 0
    {
      chunks := script;
      closes := 0;
    }

    /**
     * `read(b, off, len)` with the destination left to the caller: the outcome and the bytes the
     * transport delivers, which the caller stores at `b[off..]`.
     */
    method Receive(len: nat) returns (r: ReadOutcome, bytes: seq<byte>)
      modifies this
      ensures r == ReadStep(old(chunks), len).outcome && bytes == ReadStep(old(chunks), len).bytes
      ensures chunks == ReadStep(old(chunks), len).rest && closes == old(closes)
    {
      var d := ReadStep(chunks, len);
      r, bytes, chunks := d.outcome, d.bytes, d.rest;
    }

    /** `read(b, off, len)`: stores the delivered bytes at `b[off..]` and returns their count. */
    method Read(b: array<byte>, off: nat, len: nat) returns (r: ReadOutcome)
      requires off + len <= b.Length
      modifies this, b
      ensures r == ReadStep(old(chunks), len).outcome
      ensures chunks == ReadStep(old(chunks), len).rest && closes == old(closes)
      ensures b[..] == Overwrite(old(b[..]), off, ReadStep(old(chunks), len).bytes)
    {
      var bytes;
      r, bytes := Receive(len);
      forall i | 0 <= i < |bytes| {
        b[off + i] := bytes[i];
      }
    }

    /** `close()`: counted, never fails. */
    method Close()
      modifies this
      ensures closes == old(closes) + 1 && chunks == old(chunks)
    {
      closes := closes + 1;
    }
  }

  /** An `OutputStream` that records everything written to it. */
  class ByteSink {
    var log: seq<byte>
    var flushes: nat
    var closes: nat

    constructor ()
      ensures log == [] && flushes == 0 && closes == 0
    {
      log, flushes, closes := [], 0, 0;
    }

    /** `write(a, off, len)` of an array whose contents are `data`: appends `data[off..off+len]`. */
    method WriteFrom(data: seq<byte>, off: nat, len: nat)
      requires off + len <= |data|
      modifies this
      ensures log == old(log) + data[off..off + len]
      ensures flushes == old(flushes) && closes == old(closes)
    {
      log := log + data[off..off + len];
    }

    /** `write(a, off, len)`: appends `a[off..off+len]`. */
    method Write(a: array<byte>, off: nat, len: nat)
      requires off + len <= a.Length
      modifies this
      ensures log == old(log) + a[off..off + len]
      ensures flushes == old(flushes) && closes == old(closes)
    {
      WriteFrom(a[..], off, len);
    }

    method Flush()
      modifies this
      ensures log == old(log) && flushes == old(flushes) + 1 && closes == old(closes)
    {
      flushes := flushes + 1;
    }

    method Close()
      modifies this
      ensures log == old(log) && flushes == old(flushes) && closes == old(closes) + 1
    {
      closes := closes + 1;
    }
  }
}
