/** The one buffer the fallback server shares between every read and write
    (`ByteBufferWrapper` over a direct `java.nio.ByteBuffer`). Only the cursor
    discipline of java.nio is modelled: 0 <= position <= limit <= capacity. */
module Buffers {
  import opened Bytes
  import opened Wrappers

  /** Capacity of the server's shared buffer: 16 KiB. */
  const SharedCapacity: nat := 16 * 1024

  class ByteBufferSlot {
    const data: array<byte>
    var position: nat
    var limit: nat

    ghost predicate Valid()
      reads this
    {
      position <= limit <= data.Length
    }

    /** `ByteBuffer.allocateDirect(capacity)`: zero-filled, position 0, limit = capacity. */
    constructor (capacity: nat)
      ensures Valid() && fresh(data) && data.Length == capacity
      ensures position == 0 && limit == capacity
      ensures forall i :: 0 <= i < capacity ==> data[i] == 0
    {
      data := new byte[capacity](_ => 0);
      position := 0;
      limit := capacity;
    }

    /** Bytes between position and limit. */
    function Remaining(): (n: nat)
      reads this
      requires Valid()
      ensures position + n == limit
    {
      limit - position
    }

    /** `clear()`: position 0, limit at capacity; contents untouched. */
    method Clear()
      modifies this
      ensures Valid() && position == 0 && limit == data.Length
    {
      position := 0;
      limit := data.Length;
    }

    /** `flip()`: the limit moves to the position, the position to 0. */
    method Flip()
      requires Valid()
      modifies this
      ensures Valid() && limit == old(position) && position == 0
    {
      limit := position;
      position := 0;
    }

    /** `put(src)`: copies `src` in at the position and advances past it. */
    method Put(src: seq<byte>)
      requires Valid() && |src| <= Remaining()
      modifies this`position, data
      ensures Valid() && position == old(position) + |src|
      ensures data[old(position)..position] == src
      ensures forall i :: 0 <= i < data.Length && !(old(position) <= i < position) ==> data[i] == old(data[i])
    {
      var p, i := position, 0;
      while i < |src|
        invariant 0 <= i <= |src| && position == p
        invariant forall j :: 0 <= j < i ==> data[p + j] == src[j]
        invariant forall j :: 0 <= j < data.Length && !(p <= j < p + i) ==> data[j] == old(data[j])
      {
        data[p + i] := src[i];
        i := i + 1;
      }
      position := p + |src|;
    }

    /** `get(dst, off, len)`: copies `len` bytes from the position into `dst[off..]`
        and advances; an out-of-range slice of `dst` raises IndexOutOfBoundsException,
        too few remaining bytes BufferUnderflowException, and nothing moves. */
    method Get(dst: array<byte>, off: int, len: int) returns (res: Result<nat>)
      requires Valid() && dst != data
      modifies this`position, dst
      ensures Valid()
      ensures res == if off < 0 || len < 0 || off + len > dst.Length then Fail(IndexOutOfBounds)
                     else if len > old(Remaining()) then Fail(BufferUnderflow)
                     else Ok(len)
      ensures res.Fail? ==> position == old(position) && dst[..] == old(dst[..])
      ensures res.Ok? ==>
                position == old(position) + len &&
                dst[..] == old(dst[..off]) + data[old(position)..position] + old(dst[off + len..])
    {
      if off < 0 || len < 0 || off + len > dst.Length {
        return Fail(IndexOutOfBounds);
      }
      if len > limit - position {
        return Fail(BufferUnderflow);
      }
      var p, i := position, 0;
      while i < len
        invariant 0 <= i <= len && position == p
        invariant forall j :: off <= j < off + i ==> dst[j] == data[p + (j - off)]
        invariant forall j :: 0 <= j < dst.Length && !(off <= j < off + i) ==> dst[j] == old(dst[j])
      {
        dst[off + i] := data[p + i];
        i := i + 1;
      }
      assert dst[..] == old(dst[..off]) + data[p..p + len] + old(dst[off + len..]);
      position := p + len;
      res := Ok(len);
    }

    /** `position(p)`: rejects a position outside [0, limit] with IllegalArgumentException. */
    method SetPosition(p: int) returns (ok: bool)
      requires Valid()
      modifies this
      ensures Valid() && limit == old(limit)
      ensures ok <==> 0 <= p <= old(limit)
      ensures position == if ok then p else old(position)
    {
      ok := 0 <= p <= limit;
      if ok {
        position := p;
      }
    }
  }
}
