/** An outbound payload (`ReadableData`, in particular `ReadableByteArray`):
    a byte sequence with a consumed-cursor. `read` hands out the next bytes
    that fit, `unread(n)` gives the last `n` of them back after a short write,
    and the unit is complete once the cursor reaches the end. */
module Readable {
  import opened Bytes
  import opened Buffers

  datatype Payload = Payload(data: seq<byte>, cursor: nat) {

    predicate Valid() {
      cursor <= |data|
    }

    /** The bytes not yet consumed. */
    function Rest(): (rest: seq<byte>)
      requires Valid()
      ensures |rest| == |data| - cursor
    {
      data[cursor..]
    }

    /** `isComplete()`. */
    predicate IsComplete(): (b: bool)
      requires Valid()
    {
      cursor == |data|
    }

    /** `read(buffer)` with `space` bytes of room: the next `min(remaining, space)`
        bytes, and the unit advanced past them. */
    function Read(space: nat): (r: (Payload, seq<byte>))
      requires Valid()
      ensures r.0.Valid() && r.0.data == data
      ensures |r.1| == Min(|Rest()|, space)
      ensures r.1 + r.0.Rest() == Rest()
    {
      var n := Min(|data| - cursor, space);
      assert data[cursor..cursor + n] + data[cursor + n..] == data[cursor..];
      (Payload(data, cursor + n), data[cursor..cursor + n])
    }

    /** `unread(n)`: the last `n` consumed bytes become pending again. */
    function Unread(n: nat): (u: Payload)
      requires Valid() && n <= cursor
      ensures u.Valid() && u.data == data
      ensures u.Rest() == data[cursor - n..cursor] + Rest()
    {
      assert data[cursor - n..] == data[cursor - n..cursor] + data[cursor..];
      Payload(data, cursor - n)
    }
  }

  /** `new ReadableByteArray(bytes, offset, length)`: the slice, nothing consumed. */
  function FromSlice(bytes: seq<byte>, offset: nat, length: nat): (u: Payload)
    requires offset + length <= |bytes|
    ensures u.Valid() && (u.IsComplete() <==> length == 0)
    ensures u.Rest() == bytes[offset..offset + length]
  {
    Payload(bytes[offset..offset + length], 0)
  }

  /** A unit is complete exactly when nothing of it is left to send: reading a
      complete unit yields no bytes and leaves it as it was, and reading an
      incomplete one into any room at all yields at least one byte. */
  lemma CompleteWhenDrained(u: Payload, space: nat)
    requires u.Valid()
    ensures u.IsComplete() <==> u.Rest() == []
    ensures u.IsComplete() ==> u.Read(space) == (u, [])
    ensures !u.IsComplete() && space > 0 ==> u.Read(space).1 != []
  {
  }

  /** A short write resumes exactly where it stopped: after reading a chunk
      into `space` bytes of room and giving back all but the `k` bytes the
      socket took, the unit still holds precisely the bytes after those `k`. */
  lemma ShortWriteResumes(u: Payload, space: nat, k: nat)
    requires u.Valid() && k <= |u.Read(space).1|
    ensures u.Read(space).0.cursor >= |u.Read(space).1| - k
    ensures u.Read(space).1[..k] == u.Rest()[..k]
    ensures u.Read(space).0.Unread(|u.Read(space).1| - k).Rest() == u.Rest()[k..]
  {
    var (next, chunk) := u.Read(space);
    assert chunk == u.data[u.cursor..u.cursor + |chunk|];
    assert next.cursor == u.cursor + |chunk|;
    var back := next.Unread(|chunk| - k);
    assert back.cursor == u.cursor + k;
  }

  predicate AllValid(q: seq<Payload>) {
    forall i :: 0 <= i < |q| ==> q[i].Valid()
  }

  /** The bytes still to be sent from a queue of units, head first. */
  function Pending(q: seq<Payload>): seq<byte>
    requires AllValid(q)
  {
    if q == [] then [] else q[0].Rest() + Pending(q[1..])
  }

  /** Appending a unit at the tail appends its bytes after everything already
      pending: the queue delivers in enqueue order. */
  lemma {:induction false} PendingAppend(q: seq<Payload>, u: Payload)
    requires AllValid(q) && u.Valid()
    ensures AllValid(q + [u])
    ensures Pending(q + [u]) == Pending(q) + u.Rest()
  {
    if q == [] {
      assert q + [u] == [u];
    } else {
      assert (q + [u])[1..] == q[1..] + [u];
      PendingAppend(q[1..], u);
    }
  }

  /** `readable.read(buffer)` on the shared buffer: copies the unit's next bytes in
      at the buffer's position, as many as fit before the limit. */
  method ReadInto(u: Payload, buf: ByteBufferSlot) returns (next: Payload, r: nat)
    requires u.Valid() && buf.Valid()
    modifies buf`position, buf.data
    ensures buf.Valid() && buf.limit == old(buf.limit)
    ensures buf.position == old(buf.position) + r
    ensures (next, buf.data[old(buf.position)..buf.position]) == u.Read(old(buf.Remaining()))
    ensures forall i :: 0 <= i < buf.data.Length && !(old(buf.position) <= i < buf.position) ==>
              buf.data[i] == old(buf.data[i])
  {
    var (rest, chunk) := u.Read(buf.limit - buf.position);
    next := rest;
    buf.Put(chunk);
    r := |chunk|;
  }
}
