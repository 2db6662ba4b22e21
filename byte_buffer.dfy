/**
 * java.nio.ByteBuffer as the TLS bridge uses it: a fixed-size backing array with a position and a
 * limit (no mark), as a value, and the buffer operations the bridge calls as functions on it.
 */
module NioBuffers {
  import opened Bytes

  /** The value of a buffer: its backing array's contents, position and limit. */
  datatype Buf = Buf(data: seq<byte>, position: nat, limit: nat)

  /** 0 <= position <= limit <= capacity, the invariant java.nio keeps. */
  predicate WellFormed(b: Buf)
  {
    b.position <= b.limit <= |b.data|
  }

  function CapacityOf(b: Buf): nat
  {
    |b.data|
  }

  function RemainingOf(b: Buf): nat
    requires WellFormed(b)
  {
    b.limit - b.position
  }

  /** The bytes between position and limit: what a reader can get (read mode). */
  function Readable(b: Buf): (r: seq<byte>)
    requires WellFormed(b)
    ensures |r| == RemainingOf(b)
  {
    b.data[b.position..b.limit]
  }

  /** A new buffer of `capacity` bytes, all zero: position 0, limit = capacity. */
  function Allocated(capacity: nat): (b: Buf)
    ensures WellFormed(b) && CapacityOf(b) == capacity && b.position == 0 && b.limit == capacity
  {
    Buf(seq(capacity, _ => 0), 0, capacity)
  }

  /** flip(): the limit becomes the position and the position 0. */
  function Flipped(b: Buf): (r: Buf)
    requires WellFormed(b)
    ensures WellFormed(r) && CapacityOf(r) == CapacityOf(b)
  {
    Buf(b.data, 0, b.position)
  }

  /**
   * compact(): the readable bytes move to the start, the position goes just after them and the
   * limit to the capacity (write mode). The rest of the array is left as it was.
   */
  function Compacted(b: Buf): (r: Buf)
    requires WellFormed(b)
    ensures WellFormed(r) && CapacityOf(r) == CapacityOf(b)
    ensures r.data[..r.position] == Readable(b) && r.limit == CapacityOf(b)
  {
    var n := b.limit - b.position;
    Buf(b.data[b.position..b.limit] + b.data[n..], n, |b.data|)
  }

  /** get(dst, off, n) or a put of this buffer elsewhere: `n` readable bytes are taken. */
  function Consumed(b: Buf, n: nat): (r: Buf)
    requires WellFormed(b) && n <= RemainingOf(b)
    ensures WellFormed(r) && CapacityOf(r) == CapacityOf(b) && Readable(r) == Readable(b)[n..]
  {
    Buf(b.data, b.position + n, b.limit)
  }

  /** put(src, off, n): the bytes are stored at the position, which moves past them. */
  function Appended(b: Buf, bytes: seq<byte>): (r: Buf)
    requires WellFormed(b) && |bytes| <= RemainingOf(b)
    ensures WellFormed(r) && CapacityOf(r) == CapacityOf(b) && r.limit == b.limit
    ensures r.position == b.position + |bytes|
    ensures r.data[..r.position] == b.data[..b.position] + bytes
  {
    var d := Overwrite(b.data, b.position, bytes);
    assert d[..b.position + |bytes|] == d[..b.position] + d[b.position..b.position + |bytes|];
    Buf(d, b.position + |bytes|, b.limit)
  }

  /** position(p). */
  function WithPosition(b: Buf, p: nat): (r: Buf)
    requires p <= b.limit <= |b.data|
    ensures WellFormed(r)
  {
    Buf(b.data, p, b.limit)
  }

  /** limit(l): a position beyond the new limit is pulled back to it. */
  function WithLimit(b: Buf, l: nat): (r: Buf)
    requires WellFormed(b) && l <= |b.data|
    ensures WellFormed(r)
  {
    Buf(b.data, if b.position > l then l else b.position, l)
  }

  /** compact() and then flip() keep the readable bytes and move them to index 0. */
  lemma CompactThenFlip(b: Buf)
    requires WellFormed(b)
    ensures Readable(Flipped(Compacted(b))) == Readable(b) && Flipped(Compacted(b)).position == 0
  {
  }

  /** compact(), put(bytes), flip(): the readable bytes are the old ones followed by the new ones. */
  lemma CompactPutFlip(b: Buf, bytes: seq<byte>)
    requires WellFormed(b) && |bytes| <= RemainingOf(Compacted(b))
    ensures Readable(Flipped(Appended(Compacted(b), bytes))) == Readable(b) + bytes
    ensures Flipped(Appended(Compacted(b), bytes)).position == 0
  {
  }

  /** compact() leaves room for exactly the capacity minus the unread bytes. */
  lemma CompactRoom(b: Buf)
    requires WellFormed(b)
    ensures RemainingOf(Compacted(b)) == CapacityOf(b) - RemainingOf(b)
  {
  }
}
