/** The fallback server's per-connection state (`SelectorConnectionWrapper`):
    the outbound queue `sending` and its write pump, reads through the shared
    buffer with the `readyToRead` flag, and `close()`.

    The callbacks the pump and `close()` fire on units and on the connection
    (`readable.close()`, `readable.onComplete()`, `onWriteData(readable, hasMore)`)
    are recorded, in order, in `hooks`; a unit is named by its serial, the
    number of units dequeued before it, so the unit at queue index `i` has
    serial `dequeued + i`. The ghost `enqueued` is every byte ever handed to
    the queue, in enqueue order. */
module Connection {
  import opened Bytes
  import opened Wrappers
  import opened Buffers
  import opened Readable
  import opened Channels

  datatype Hook =
    | UnitClosed(serial: nat)
    | UnitCompleted(serial: nat)
    | WriteData(serial: nat, hasMore: bool)

  /** What `actualWrite` reports: whether the whole chunk went out, or that the
      socket raised an exception. */
  datatype Attempt = Wrote(whole: bool) | Threw

  /** first, first + 1, …, first + count - 1 */
  function Serials(first: nat, count: nat): seq<nat>
  {
    if count == 0 then [] else Serials(first, count - 1) + [first + count - 1]
  }

  /** The serials of the units whose `onComplete` fired, in firing order. */
  function Completions(h: seq<Hook>): seq<nat>
  {
    if h == [] then []
    else (if h[0].UnitCompleted? then [h[0].serial] else []) + Completions(h[1..])
  }

  /** The callbacks for one unit leaving the queue after it completed. */
  function Retirement(serial: nat, hasMore: bool): seq<Hook>
  {
    [UnitClosed(serial), UnitCompleted(serial), WriteData(serial, hasMore)]
  }

  /** The callbacks for the first `count` units of a queue of `total` leaving it
      one by one, the first with serial `first`; each one's `hasMore` says
      whether the queue was still non-empty after it was polled. */
  function Retired(first: nat, count: nat, total: nat): seq<Hook>
  {
    if count == 0 then []
    else Retired(first, count - 1, total) + Retirement(first + count - 1, total - count > 0)
  }

  /** Retiring one more unit appends its callbacks to the log. */
  lemma RetiredStep(h: seq<Hook>, first: nat, count: nat, total: nat)
    ensures h + Retired(first, count + 1, total) == (h + Retired(first, count, total)) + Retirement(first + count, total - (count + 1) > 0)
  {
  }

  /** The callbacks `close()` fires on `count` still-queued units, head first. */
  function Aborted(first: nat, count: nat): seq<Hook>
  {
    if count == 0 then [] else Aborted(first, count - 1) + [UnitClosed(first + count - 1)]
  }

  lemma {:induction false} CompletionsAppend(a: seq<Hook>, b: seq<Hook>)
    ensures Completions(a + b) == Completions(a) + Completions(b)
  {
    if a == [] {
      assert a + b == b;
    } else {
      assert (a + b)[0] == a[0];
      assert (a + b)[1..] == a[1..] + b;
      CompletionsAppend(a[1..], b);
    }
  }

  /** Removing a completed unit fires its `onComplete` exactly once. */
  lemma RetirementCompletesOnce(serial: nat, hasMore: bool)
    ensures Completions(Retirement(serial, hasMore)) == [serial]
  {
    var h := Retirement(serial, hasMore);
    assert h[1..][1..][1..] == [];
    assert Completions(h[1..][1..]) == [];
    assert Completions(h[1..]) == [serial];
  }

  /** Units removed from the queue complete in queue order, once each. */
  lemma {:induction false} RetiredCompletions(first: nat, count: nat, total: nat)
    ensures Completions(Retired(first, count, total)) == Serials(first, count)
  {
    if count > 0 {
      RetiredCompletions(first, count - 1, total);
      CompletionsAppend(Retired(first, count - 1, total), Retirement(first + count - 1, total - count > 0));
      RetirementCompletesOnce(first + count - 1, total - count > 0);
    }
  }

  /** `close()` never fires `onComplete`. */
  lemma {:induction false} AbortedCompletesNothing(first: nat, count: nat)
    ensures Completions(Aborted(first, count)) == []
  {
    if count > 0 {
      AbortedCompletesNothing(first, count - 1);
      CompletionsAppend(Aborted(first, count - 1), [UnitClosed(first + count - 1)]);
    }
  }

  /** Serials of consecutive batches join up. */
  lemma {:induction false} SerialsConcat(first: nat, n: nat, m: nat)
    ensures Serials(first, n) + Serials(first + n, m) == Serials(first, n + m)
  {
    if m > 0 {
      SerialsConcat(first, n, m - 1);
    }
  }

  /** Retiring units on top of a log whose completions are serials 0 .. d-1
      extends those completions by the retired serials. */
  lemma RetiredExtendsCompletions(h: seq<Hook>, d: nat, n: nat, total: nat)
    requires Completions(h) == Serials(0, d)
    ensures Completions(h + Retired(d, n, total)) == Serials(0, d + n)
  {
    CompletionsAppend(h, Retired(d, n, total));
    RetiredCompletions(d, n, total);
    SerialsConcat(0, d, n);
  }

  /** Transmission progress against a byte stream `all` that was pending when
      the channel had accepted `sent0` and had `space0` bytes of room: the
      channel has accepted as many more bytes as room was used, and those
      followed by what is still pending are exactly `sent0` followed by `all`. */
  ghost predicate Progress(all: seq<byte>, sent0: seq<byte>, space0: nat,
                           rest: seq<byte>, sent: seq<byte>, space: nat)
  {
    && space <= space0
    && |sent| == |sent0| + (space0 - space)
    && sent + rest == sent0 + all
  }

  /** Progress so far keeps no byte back and only appends: the accepted bytes
      extend `sent0` by the first `space0 - space` bytes of `all`, and the rest
      of `all` is still pending. */
  lemma ProgressConserves(all: seq<byte>, sent0: seq<byte>, space0: nat,
                          rest: seq<byte>, sent: seq<byte>, space: nat)
    requires Progress(all, sent0, space0, rest, sent, space)
    ensures space0 - space <= |all| && |rest| == |all| - (space0 - space)
    ensures sent == sent0 + all[..space0 - space] && rest == all[space0 - space..]
    ensures sent0 <= sent <= sent0 + all
  {
    var w := space0 - space;
    assert |sent| + |rest| == |sent0| + |all|;
    assert sent == (sent0 + all)[..|sent|];
    assert (sent0 + all)[..|sent0| + w] == sent0 + all[..w];
    assert rest == (sent0 + all)[|sent|..] == all[w..];
  }

  /** Progress on the front part `a` of what is pending, with `tail` behind it,
      is progress on the whole stream. */
  lemma ProgressCompose(all: seq<byte>, sent0: seq<byte>, space0: nat,
                        a: seq<byte>, tail: seq<byte>, sent1: seq<byte>, space1: nat,
                        b: seq<byte>, sent2: seq<byte>, space2: nat)
    requires Progress(all, sent0, space0, a + tail, sent1, space1)
    requires Progress(a, sent1, space1, b, sent2, space2)
    ensures Progress(all, sent0, space0, b + tail, sent2, space2)
  {
    calc {
      sent2 + (b + tail);
      (sent2 + b) + tail;
      (sent1 + a) + tail;
      sent1 + (a + tail);
    }
  }

  /** Nothing sent is progress. */
  lemma ProgressNone(all: seq<byte>, sent: seq<byte>, space: nat)
    ensures Progress(all, sent, space, all, sent, space)
  {
  }

  /** Sending the first `k` bytes of what is pending, with room for them, is progress. */
  lemma SentFromFront(all: seq<byte>, sent0: seq<byte>, space0: nat, k: nat)
    requires k <= |all| && k <= space0
    ensures Progress(all, sent0, space0, all[k..], sent0 + all[..k], space0 - k)
  {
    assert all[..k] + all[k..] == all;
  }

  /** Progress with nothing sent used no room and consumed nothing. */
  lemma ProgressIdle(all: seq<byte>, sent0: seq<byte>, space0: nat, rest: seq<byte>, space: nat)
    requires Progress(all, sent0, space0, rest, sent0, space)
    ensures rest == all && space == space0
  {
    assert (sent0 + rest)[|sent0|..] == rest;
    assert (sent0 + all)[|sent0|..] == all;
  }

  /** Progress composes: progress on what was left pending after some earlier
      progress extends that earlier progress. */
  lemma ProgressChain(all: seq<byte>, sent0: seq<byte>, space0: nat,
                      a: seq<byte>, sent1: seq<byte>, space1: nat,
                      b: seq<byte>, sent2: seq<byte>, space2: nat)
    requires Progress(all, sent0, space0, a, sent1, space1)
    requires Progress(a, sent1, space1, b, sent2, space2)
    ensures Progress(all, sent0, space0, b, sent2, space2)
  {
    assert a + [] == a && b + [] == b;
    ProgressCompose(all, sent0, space0, a, [], sent1, space1, b, sent2, space2);
  }

  /** Dropping the head of a suffix gives the next suffix. */
  lemma SuffixTail<T>(q: seq<T>, k: nat)
    requires k < |q|
    ensures q[k..][0] == q[k] && q[k..][1..] == q[k + 1..]
  {
  }

  /** The queue's pending bytes are the head's followed by the rest's. */
  lemma PendingCons(head: Payload, tail: seq<Payload>)
    requires head.Valid() && AllValid(tail)
    ensures AllValid([head] + tail)
    ensures Pending([head] + tail) == head.Rest() + Pending(tail)
  {
    assert ([head] + tail)[1..] == tail;
  }

  /** How many bytes `read(length, …)` finds for a request of `l` bytes: what the
      channel's read returns, or -1 when the channel is not connected. */
  function ReadOutcome(l: nat, connected: bool, incoming: seq<byte>, peerClosed: bool): (r: int)
    ensures -1 <= r <= l && r <= |incoming|
    ensures !connected ==> r == -1
    ensures r > 0 ==> connected
  {
    if connected then ReadCount(l, incoming, peerClosed) else -1
  }

  /** `readyToRead` is set exactly when the read filled the whole request: the
      channel is connected and the request is for nothing or at most what has
      arrived. */
  lemma ReadyWhenFilled(l: nat, connected: bool, incoming: seq<byte>, peerClosed: bool)
    ensures ReadOutcome(l, connected, incoming, peerClosed) == l <==> connected && (l == 0 || |incoming| >= l)
  {
    if connected && l > 0 && incoming != [] {
      assert ReadOutcome(l, connected, incoming, peerClosed) == Min(l, |incoming|);
    }
  }

  class SelectorConnection {
    const ip: string
    const port: int
    const channel: SocketChannel
    var sending: seq<Payload>
    var readyToRead: bool
    var alive: bool
    var listenerClosed: bool
    var hooks: seq<Hook>
    var dequeued: nat
    ghost var enqueued: seq<byte>

    /** What holds whatever has become of the channel: the peer has received a
        prefix of what was enqueued, and `onComplete` has fired exactly for the
        units dequeued so far, once each, in queue order. */
    ghost predicate Sound()
      reads this, channel`sent
    {
      && AllValid(sending)
      && channel.sent <= enqueued
      && Completions(hooks) == Serials(0, dequeued)
    }

    /** The connection invariant. While the channel stays connected no byte is
        lost: what it has accepted followed by what is still queued is exactly
        what was enqueued. While it is open and the queue is non-empty the
        channel is registered for write readiness. */
    ghost predicate Valid()
      reads this, channel`sent, channel`open, channel`connected, channel`writeInterest
    {
      && Sound()
      && (channel.connected ==> channel.open && channel.sent + Pending(sending) == enqueued)
      && (channel.open && sending != [] ==> channel.writeInterest)
    }

    /** A connection for a freshly accepted channel, which has carried no bytes yet. */
    constructor (channel: SocketChannel)
      requires channel.sent == [] && (channel.connected ==> channel.open)
      ensures Valid() && this.channel == channel
      ensures ip == channel.remoteIp && port == channel.remotePort
      ensures sending == [] && enqueued == [] && hooks == [] && dequeued == 0
      ensures !readyToRead && alive && !listenerClosed
    {
      this.channel := channel;
      ip, port := channel.remoteIp, channel.remotePort;
      sending, enqueued, hooks, dequeued := [], [], [], 0;
      readyToRead, alive, listenerClosed := false, true, false;
    }

    /** `isAlive()` asks the channel, not the `alive` flag. */
    predicate IsAlive(): (b: bool)
      reads this, channel`connected
      ensures b <==> channel.connected
    {
      channel.connected
    }

    /** `write(ReadableData, …)`: on the empty-to-non-empty transition, register
        for read and write readiness (a closed channel's refusal is swallowed);
        then append the unit at the tail. */
    method WriteReadable(u: Payload)
      requires Valid() && u.Valid()
      modifies this`sending, this`enqueued, channel`readInterest, channel`writeInterest
      ensures Valid()
      ensures sending == old(sending) + [u] && enqueued == old(enqueued) + u.Rest()
      ensures old(sending) == [] && channel.open ==> channel.readInterest && channel.writeInterest
      ensures old(sending) != [] || !channel.open ==>
        channel.readInterest == old(channel.readInterest) &&
        channel.writeInterest == old(channel.writeInterest)
    {
      if sending == [] {
        var registered := channel.Register(true, true);
      }
      PendingAppend(sending, u);
      sending := sending + [u];
      enqueued := enqueued + u.Rest();
    }

    /** `write(bytes, offset, length, …)`: enqueues exactly that slice. */
    method WriteSlice(bytes: seq<byte>, offset: nat, length: nat)
      requires Valid() && offset + length <= |bytes|
      modifies this`sending, this`enqueued, channel`readInterest, channel`writeInterest
      ensures Valid()
      ensures sending == old(sending) + [Payload(bytes[offset..offset + length], 0)]
      ensures enqueued == old(enqueued) + bytes[offset..offset + length]
      ensures old(sending) == [] && channel.open ==> channel.readInterest && channel.writeInterest
      ensures old(sending) != [] || !channel.open ==>
        channel.readInterest == old(channel.readInterest) && channel.writeInterest == old(channel.writeInterest)
    {
      WriteReadable(FromSlice(bytes, offset, length));
    }

    /** `write(bytes, …)`: enqueues the whole array, from offset 0. */
    method WriteBytes(bytes: seq<byte>)
      requires Valid()
      modifies this`sending, this`enqueued, channel`readInterest, channel`writeInterest
      ensures Valid()
      ensures sending == old(sending) + [Payload(bytes, 0)]
      ensures enqueued == old(enqueued) + bytes
      ensures old(sending) == [] && channel.open ==> channel.readInterest && channel.writeInterest
      ensures old(sending) != [] || !channel.open ==>
        channel.readInterest == old(channel.readInterest) && channel.writeInterest == old(channel.writeInterest)
    {
      assert bytes[0..|bytes|] == bytes;
      WriteSlice(bytes, 0, |bytes|);
    }

    /** `write(String, …)`: enqueues the UTF-8 bytes of the string. */
    method WriteString(s: string)
      requires Valid()
      modifies this`sending, this`enqueued, channel`readInterest, channel`writeInterest
      ensures Valid()
      ensures sending == old(sending) + [Payload(Utf8(s), 0)]
      ensures enqueued == old(enqueued) + Utf8(s)
      ensures old(sending) == [] && channel.open ==> channel.readInterest && channel.writeInterest
      ensures old(sending) != [] || !channel.open ==>
        channel.readInterest == old(channel.readInterest) && channel.writeInterest == old(channel.writeInterest)
    {
      WriteBytes(Utf8(s));
    }

    /** The first half of `actualWrite`: `clear()`, `readable.read(buffer)`,
        `flip()`. The buffer then holds the unit's next `r` bytes from index 0. */
    method FillBuffer(u: Payload, buf: ByteBufferSlot) returns (next: Payload, r: nat)
      requires u.Valid() && buf.Valid()
      modifies buf, buf.data
      ensures buf.Valid() && buf.position == 0 && buf.limit == r
      ensures (next, buf.data[0..r]) == u.Read(buf.data.Length)
    {
      buf.Clear();
      next, r := ReadInto(u, buf);
      buf.Flip();
    }

    /** `actualWrite(readable, …)`: clear the shared buffer, read the unit's next
        chunk of `r` bytes into it, flip, and — if `r > 0` and the channel is
        connected — offer the chunk to the socket; a short write gives the
        unsent `r - written` bytes back to the unit. `next` is the unit after
        the call; an exception from the socket leaves the chunk consumed. */
    method ActualWrite(u: Payload, buf: ByteBufferSlot) returns (step: Attempt, next: Payload)
      requires u.Valid() && buf.Valid()
      requires channel.connected ==> channel.open
      modifies buf, buf.data, channel`sent, channel`sendSpace
      ensures buf.Valid() && next.Valid() && next.data == u.data
      ensures buf.limit == Min(|u.Rest()|, buf.data.Length)
      ensures step == Threw <==> buf.limit > 0 && old(channel.connected) && channel.broken
      ensures step == Wrote(true) <==> buf.limit > 0 && old(channel.Healthy()) && buf.limit <= old(channel.sendSpace)
      ensures !old(channel.Healthy()) ==>
        && next.cursor == u.cursor + buf.limit
        && channel.sent == old(channel.sent) && channel.sendSpace == old(channel.sendSpace)
      ensures old(channel.Healthy()) ==>
        && channel.sendSpace == old(channel.sendSpace) - Min(buf.limit, old(channel.sendSpace))
        && Progress(u.Rest(), old(channel.sent), old(channel.sendSpace), next.Rest(), channel.sent, channel.sendSpace)
    {
      var r;
      next, r := FillBuffer(u, buf);
      if r > 0 && IsAlive() {
        ghost var space, chunk := buf.data.Length, buf.data[0..r];
        var written := channel.Write(buf);
        if written.Fail? {
          return Threw, next;
        }
        var k := written.value;
        ShortWriteResumes(u, space, k);
        assert channel.sent == old(channel.sent) + chunk[..k];
        SentFromFront(u.Rest(), old(channel.sent), old(channel.sendSpace), k);
        if k != r {
          next := next.Unread(r - k);
          return Wrote(false), next;
        }
        assert next.Rest() == u.Rest()[k..];
        return Wrote(true), next;
      }
      step := Wrote(false);
      if channel.Healthy() {
        ProgressNone(u.Rest(), channel.sent, channel.sendSpace);
      }
    }

    /** The inner loop of the pump: `actualWrite` on the unit until it is
        complete or a write falls short or fails. */
    method DrainHead(u: Payload, buf: ByteBufferSlot) returns (threw: bool, next: Payload)
      requires u.Valid() && buf.Valid()
      requires channel.connected ==> channel.open
      modifies buf, buf.data, channel`sent, channel`sendSpace
      ensures buf.Valid() && next.Valid() && next.data == u.data && u.cursor <= next.cursor
      ensures threw <==> channel.connected && channel.broken && !u.IsComplete() && buf.data.Length > 0
      ensures !old(channel.Healthy()) ==> channel.sent == old(channel.sent) && channel.sendSpace == old(channel.sendSpace)
      ensures old(channel.connected) && !threw ==>
        Progress(u.Rest(), old(channel.sent), old(channel.sendSpace), next.Rest(), channel.sent, channel.sendSpace)
      ensures old(channel.Healthy()) ==>
        !threw && (next.IsComplete() || channel.sendSpace == 0 || buf.data.Length == 0)
      ensures !channel.connected ==> next == u.Read(buf.data.Length).0
      ensures channel.connected && channel.broken && !threw ==> next == u
    {
      ghost var healthy := channel.Healthy();
      var more := true;
      threw, next := false, u;
      ProgressNone(u.Rest(), channel.sent, channel.sendSpace);
      while !next.IsComplete() && more
        invariant buf.Valid() && next.Valid() && next.data == u.data && u.cursor <= next.cursor
        invariant !healthy ==> channel.sent == old(channel.sent) && channel.sendSpace == old(channel.sendSpace)
        invariant old(channel.connected) ==>
          Progress(u.Rest(), old(channel.sent), old(channel.sendSpace), next.Rest(), channel.sent, channel.sendSpace)
        invariant healthy && !more ==> channel.sendSpace == 0 || buf.data.Length == 0
        invariant channel.connected && channel.broken && !u.IsComplete() && buf.data.Length > 0 ==> next == u && more
        invariant !channel.connected ==> next == if more then u else u.Read(buf.data.Length).0
        invariant channel.connected && channel.broken ==> next == u
        decreases |next.data| - next.cursor, more
      {
        ghost var before, sent1, space1 := next, channel.sent, channel.sendSpace;
        var step;
        step, next := ActualWrite(next, buf);
        if step.Threw? {
          return true, next;
        }
        more := step.whole;
        if healthy {
          ProgressChain(u.Rest(), old(channel.sent), old(channel.sendSpace), before.Rest(), sent1, space1,
                        next.Rest(), channel.sent, channel.sendSpace);
        } else if old(channel.connected) {
          assert next == before;
        }
      }
    }

    /** What a pump that started on a queue of `total` units, with `d0` units
        dequeued before, hook log `h0`, pending bytes `all`, `sent0` on the
        wire and `space0` bytes of kernel room, keeps at every step: each unit
        that left the queue was retired exactly once; unless the socket threw
        (`failed`), while it is connected the bytes on the wire plus those still
        pending are the bytes there were; and a socket that is not healthy was
        sent nothing. */
    ghost predicate Accounted(h0: seq<Hook>, d0: nat, total: nat, all: seq<byte>, sent0: seq<byte>, space0: nat,
                              failed: bool)
      reads this, channel
    {
      && AllValid(sending)
      && d0 <= dequeued && dequeued - d0 + |sending| == total
      && hooks == h0 + Retired(d0, dequeued - d0, total)
      && (channel.connected && !failed ==> Progress(all, sent0, space0, Pending(sending), channel.sent, channel.sendSpace))
      && (!channel.Healthy() ==> channel.sent == sent0)
    }

    /** Drain the head of the queue in place, as far as the socket takes it. */
    method DrainFront(buf: ByteBufferSlot, ghost h0: seq<Hook>, ghost d0: nat, ghost total: nat,
                      ghost all: seq<byte>, ghost sent0: seq<byte>, ghost space0: nat)
      returns (threw: bool)
      requires sending != [] && buf.Valid()
      requires channel.connected ==> channel.open
      requires Accounted(h0, d0, total, all, sent0, space0, false)
      modifies this`sending, buf, buf.data, channel`sent, channel`sendSpace
      ensures buf.Valid() && Accounted(h0, d0, total, all, sent0, space0, threw)
      ensures |sending| == old(|sending|) && sending[1..] == old(sending[1..])
      ensures sending[0].data == old(sending[0].data) && old(sending[0].cursor) <= sending[0].cursor
      ensures threw <==> channel.connected && channel.broken && !old(sending[0].IsComplete()) && buf.data.Length > 0
      ensures channel.Healthy() ==>
        !threw && (sending[0].IsComplete() || channel.sendSpace == 0 || buf.data.Length == 0)
      ensures !channel.Healthy() ==> channel.sendSpace == old(channel.sendSpace)
      ensures !channel.connected ==>
        sending[0].cursor == old(sending[0].cursor) + Min(|sending[0].data| - old(sending[0].cursor), buf.data.Length)
      ensures channel.connected && channel.broken && !threw ==> sending == old(sending)
      ensures threw ==> old(Pending(sending)) != []
    {
      ghost var before := sending;
      PendingCons(before[0], before[1..]);
      var head;
      threw, head := DrainHead(sending[0], buf);
      sending := [head] + sending[1..];
      PendingCons(head, before[1..]);
      if channel.connected && !threw {
        ProgressCompose(Pending(before), old(channel.sent), old(channel.sendSpace), before[0].Rest(), Pending(before[1..]),
                        old(channel.sent), old(channel.sendSpace), head.Rest(), channel.sent, channel.sendSpace);
        ProgressChain(all, sent0, space0, Pending(before), old(channel.sent), old(channel.sendSpace),
                      Pending(sending), channel.sent, channel.sendSpace);
      }
    }

    /** Poll the completed head, then `readable.close()`, `readable.onComplete()`
        and `onWriteData(readable, !queue.isEmpty())`. */
    method RetireHead(ghost h0: seq<Hook>, ghost d0: nat, ghost total: nat,
                      ghost all: seq<byte>, ghost sent0: seq<byte>, ghost space0: nat)
      requires Accounted(h0, d0, total, all, sent0, space0, false)
      requires sending != [] && sending[0].IsComplete()
      modifies this`sending, this`hooks, this`dequeued
      ensures sending == old(sending[1..]) && dequeued == old(dequeued) + 1
      ensures hooks == old(hooks) + Retirement(old(dequeued), sending != [])
      ensures Accounted(h0, d0, total, all, sent0, space0, false)
      ensures Pending(sending) == old(Pending(sending))
    {
      RetiredStep(h0, d0, dequeued - d0, total);
      PendingCons(sending[0], sending[1..]);
      assert [sending[0]] + sending[1..] == sending;
      sending := sending[1..];
      hooks := hooks + Retirement(dequeued, sending != []);
      dequeued := dequeued + 1;
    }

    /** One round of the pump's outer loop on the head of the queue: drain it;
        if it is then complete, retire it (`done` is false and the pump goes
        on); otherwise the pump stops (`done`), either because a write fell
        short or because the socket threw (`failed`). */
    method PumpStep(buf: ByteBufferSlot, ghost h0: seq<Hook>, ghost d0: nat, ghost total: nat,
                    ghost all: seq<byte>, ghost sent0: seq<byte>, ghost space0: nat)
      returns (done: bool, failed: bool)
      requires sending != [] && buf.Valid()
      requires channel.connected ==> channel.open
      requires Accounted(h0, d0, total, all, sent0, space0, false)
      modifies this`sending, this`hooks, this`dequeued, buf, buf.data, channel`sent, channel`sendSpace
      ensures buf.Valid() && Accounted(h0, d0, total, all, sent0, space0, failed)
      ensures done ==>
        && |sending| == old(|sending|) && sending[1..] == old(sending[1..])
        && sending[0].data == old(sending[0].data) && old(sending[0].cursor) <= sending[0].cursor
        && (failed || !sending[0].IsComplete())
      ensures !done ==> sending == old(sending[1..])
      ensures failed ==> done
      ensures failed <==> channel.connected && channel.broken && !old(sending[0].IsComplete()) && buf.data.Length > 0
      ensures channel.connected && channel.broken && buf.data.Length > 0 ==> (done <==> failed)
      ensures failed ==> old(Pending(sending)) != []
      ensures channel.connected && channel.broken && !failed ==> Pending(sending) == old(Pending(sending))
      ensures channel.Healthy() ==> !failed
      ensures channel.Healthy() && done ==> channel.sendSpace == 0 || buf.data.Length == 0
      ensures !channel.Healthy() ==> channel.sendSpace == old(channel.sendSpace)
      ensures !channel.connected ==> (done <==> |old(sending[0].data)| - old(sending[0].cursor) > buf.data.Length)
    {
      var threw := DrainFront(buf, h0, d0, total, all, sent0, space0);
      if threw {
        return true, true;
      }
      if !sending[0].IsComplete() {
        return true, false;
      }
      ghost var drained := sending;
      RetireHead(h0, d0, total, all, sent0, space0);
      assert sending == drained[1..];
      done, failed := false, false;
    }

    /** The outer loop of `write(ByteBufferProvider)`: drain and retire units
        from the head of the queue until it is empty, a write falls short or
        the socket throws. */
    method PumpLoop(buf: ByteBufferSlot) returns (failed: bool)
      requires AllValid(sending) && buf.Valid()
      requires channel.connected ==> channel.open
      modifies this`sending, this`hooks, this`dequeued, buf, buf.data, channel`sent, channel`sendSpace
      ensures buf.Valid()
      ensures Accounted(old(hooks), old(dequeued), old(|sending|), old(Pending(sending)), old(channel.sent), old(channel.sendSpace),
                        failed)
      ensures |sending| <= old(|sending|)
      ensures sending != [] ==>
        var n := old(|sending|) - |sending|;
        && sending[1..] == old(sending)[n + 1..]
        && sending[0].data == old(sending)[n].data
        && old(sending)[n].cursor <= sending[0].cursor
      ensures sending == [] || failed || !sending[0].IsComplete()
      ensures failed <==> channel.connected && channel.broken && buf.data.Length > 0 && old(Pending(sending)) != []
      ensures channel.Healthy() ==>
        && !failed
        && (sending == [] || channel.sendSpace == 0 || buf.data.Length == 0)
      ensures !channel.Healthy() ==> channel.sendSpace == old(channel.sendSpace)
    {
      ghost var q, all := sending, Pending(sending);
      ProgressNone(all, channel.sent, channel.sendSpace);
      while sending != []
        invariant buf.Valid()
        invariant |sending| <= |q| && sending == q[|q| - |sending|..]
        invariant Accounted(old(hooks), old(dequeued), |q|, all, old(channel.sent), old(channel.sendSpace), false)
        invariant channel.connected && channel.broken ==> Pending(sending) == all
        invariant !channel.Healthy() ==> channel.sendSpace == old(channel.sendSpace)
        modifies this`sending, this`hooks, this`dequeued, buf, buf.data, channel`sent, channel`sendSpace
        decreases |sending|
      {
        ghost var before := sending;
        SuffixTail(q, |q| - |before|);
        var done;
        done, failed := PumpStep(buf, old(hooks), old(dequeued), |q|, all, old(channel.sent), old(channel.sendSpace));
        if done {
          assert sending[1..] == q[|q| - |sending| + 1..];
          return;
        }
      }
      failed := false;
    }

    /** The pump up to its exception handler: the loop, with the bookkeeping
        restated in terms of the whole connection. */
    method PumpSettled(buf: ByteBufferSlot) returns (failed: bool)
      requires Valid() && buf.Valid()
      modifies this`sending, this`hooks, this`dequeued, buf, buf.data, channel`sent, channel`sendSpace
      ensures Sound() && buf.Valid()
      ensures channel.connected && !failed ==> channel.sent + Pending(sending) == enqueued
      ensures |sending| <= old(|sending|)
      ensures dequeued == old(dequeued) + (old(|sending|) - |sending|)
      ensures sending != [] ==>
        var n := old(|sending|) - |sending|;
        && sending[1..] == old(sending)[n + 1..]
        && sending[0].data == old(sending)[n].data
        && old(sending)[n].cursor <= sending[0].cursor
      ensures hooks == old(hooks) + Retired(old(dequeued), old(|sending|) - |sending|, old(|sending|))
      ensures sending == [] || failed || !sending[0].IsComplete()
      ensures failed <==> channel.connected && channel.broken && buf.data.Length > 0 && old(Pending(sending)) != []
      ensures !channel.Healthy() ==> channel.sent == old(channel.sent) && channel.sendSpace == old(channel.sendSpace)
      ensures channel.Healthy() ==>
        && !failed
        && (sending == [] || !sending[0].IsComplete())
        && Progress(Pending(old(sending)), old(channel.sent), old(channel.sendSpace),
                    Pending(sending), channel.sent, channel.sendSpace)
        && (buf.data.Length > 0 ==>
              old(channel.sendSpace) - channel.sendSpace == Min(|Pending(old(sending))|, old(channel.sendSpace)))
    {
      ghost var q, all := sending, Pending(sending);
      failed := PumpLoop(buf);
      RetiredExtendsCompletions(old(hooks), old(dequeued), |q| - |sending|, |q|);
      if channel.connected && !failed {
        ProgressConserves(all, old(channel.sent), old(channel.sendSpace), Pending(sending), channel.sent, channel.sendSpace);
      }
    }

    /** `write(ByteBufferProvider)`, the pump: drain the queue head first; a unit
        leaves the queue only once complete, and then is closed, completed and
        reported to `onWriteData` with whether more units remain. An incomplete
        head ends the call with it and every later unit still queued. An
        exception from the socket closes the connection. */
    method Pump(buf: ByteBufferSlot)
      requires Valid() && buf.Valid()
      modifies this`sending, this`hooks, this`dequeued, this`alive, this`listenerClosed
      modifies buf, buf.data, channel`sent, channel`sendSpace
      modifies channel`open, channel`connected, channel`readInterest, channel`writeInterest
      ensures Valid() && buf.Valid() && enqueued == old(enqueued)
      ensures |sending| <= old(|sending|)
      ensures dequeued == old(dequeued) + (old(|sending|) - |sending|)
      ensures sending != [] ==>
        var n := old(|sending|) - |sending|;
        && sending[1..] == old(sending)[n + 1..]
        && sending[0].data == old(sending)[n].data
        && old(sending)[n].cursor <= sending[0].cursor
      ensures var failing := old(channel.connected) && channel.broken && buf.data.Length > 0 && old(Pending(sending)) != [];
        hooks == old(hooks) + Retired(old(dequeued), old(|sending|) - |sending|, old(|sending|))
                 + (if failing then Aborted(dequeued, |sending|) else [])
      ensures if old(channel.connected) && channel.broken && buf.data.Length > 0 && old(Pending(sending)) != []
        then !channel.open && !channel.connected && !alive && listenerClosed
        else
          && channel.open == old(channel.open) && channel.connected == old(channel.connected)
          && alive == old(alive) && listenerClosed == old(listenerClosed)
          && channel.readInterest == old(channel.readInterest) && channel.writeInterest == old(channel.writeInterest)
          && (sending == [] || !sending[0].IsComplete())
      ensures !old(channel.Healthy()) ==> channel.sent == old(channel.sent) && channel.sendSpace == old(channel.sendSpace)
      ensures old(channel.Healthy()) ==>
        && channel.open
        && Progress(Pending(old(sending)), old(channel.sent), old(channel.sendSpace),
                    Pending(sending), channel.sent, channel.sendSpace)
        && (buf.data.Length > 0 ==>
              old(channel.sendSpace) - channel.sendSpace == Min(|Pending(old(sending))|, old(channel.sendSpace)))
    {
      var failed := PumpSettled(buf);
      assert failed <==> old(channel.connected) && channel.broken && buf.data.Length > 0 && old(Pending(sending)) != [];
      if failed {
        Close();
      } else {
        assert sending == [] || !sending[0].IsComplete();
      }
    }

    /** `read(length, provider)`: clear the shared buffer, limit it to
        `l = min(length, capacity)` (a negative `l` is refused by `position(l)`
        with IllegalArgumentException), read from the channel when connected
        (otherwise the outcome is -1), and flip so the bytes read lie between 0
        and the limit. `readyToRead` records whether the read returned exactly
        `l`. The buffer itself is returned. */
    method Read(length: int, buf: ByteBufferSlot) returns (res: Result<ByteBufferSlot>)
      requires buf.Valid() && (channel.connected ==> channel.open)
      modifies this`readyToRead, buf, buf.data, channel`incoming
      ensures buf.Valid()
      ensures length < 0 ==>
        && res == Fail(IllegalArgument) && readyToRead == old(readyToRead)
        && channel.incoming == old(channel.incoming) && buf.data[..] == old(buf.data[..])
        && buf.position == 0 && buf.limit == buf.data.Length
      ensures length >= 0 && channel.connected && channel.broken ==>
        && res == Fail(IOException) && readyToRead == old(readyToRead)
        && channel.incoming == old(channel.incoming) && buf.data[..] == old(buf.data[..])
        && buf.position == 0 && buf.limit == Min(length, buf.data.Length)
      ensures length >= 0 && !(channel.connected && channel.broken) ==>
        var l := Min(length, buf.data.Length);
        var r := ReadOutcome(l, channel.connected, old(channel.incoming), channel.peerClosed);
        var n := if r > 0 then r else 0;
        && res == Ok(buf) && readyToRead == (r == l)
        && buf.position == 0 && buf.limit == n
        && buf.data[..n] == old(channel.incoming)[..n]
        && buf.data[n..] == old(buf.data[n..])
        && channel.incoming == old(channel.incoming)[n..]
    {
      buf.Clear();
      var l := Min(length, buf.limit);
      var ok := buf.SetPosition(l);
      if !ok {
        return Fail(IllegalArgument);
      }
      buf.Flip();
      var r := -1;
      if IsAlive() {
        var got := channel.Read(buf);
        if got.Fail? {
          return Fail(got.error);
        }
        r := got.value;
      }
      if r > 0 {
        ok := buf.SetPosition(r);
      }
      buf.Flip();
      readyToRead := r == l;
      res := Ok(buf);
    }

    /** `read(b, offset, length, provider)`: `read(length, …)`, then copy the
        `r` bytes found into `b` from `offset` and return `r`. The bytes have
        left the channel before the copy, so an out-of-range `offset` loses them
        (IndexOutOfBoundsException from `get`). */
    method ReadSlice(b: array<byte>, offset: int, length: int, buf: ByteBufferSlot) returns (res: Result<nat>)
      requires buf.Valid() && (channel.connected ==> channel.open) && b != buf.data
      modifies this`readyToRead, buf, buf.data, channel`incoming, b
      ensures buf.Valid()
      ensures length < 0 ==>
        && res == Fail(IllegalArgument) && readyToRead == old(readyToRead)
        && channel.incoming == old(channel.incoming) && b[..] == old(b[..])
      ensures length >= 0 && channel.connected && channel.broken ==>
        && res == Fail(IOException) && readyToRead == old(readyToRead)
        && channel.incoming == old(channel.incoming) && b[..] == old(b[..])
      ensures length >= 0 && !(channel.connected && channel.broken) ==>
        var l := Min(length, buf.data.Length);
        var r := ReadOutcome(l, channel.connected, old(channel.incoming), channel.peerClosed);
        var n := if r > 0 then r else 0;
        && readyToRead == (r == l)
        && channel.incoming == old(channel.incoming)[n..]
        && (offset < 0 || offset + n > b.Length ==> res == Fail(IndexOutOfBounds) && b[..] == old(b[..]))
        && (0 <= offset && offset + n <= b.Length ==>
              res == Ok(n) && b[..] == old(b[..offset]) + old(channel.incoming)[..n] + old(b[offset + n..]))
    {
      ghost var arrived := channel.incoming;
      var bb := Read(length, buf);
      if bb.Fail? {
        return Fail(bb.error);
      }
      var r := buf.limit;
      ghost var got := buf.data[..r];
      assert got == arrived[..r];
      res := buf.Get(b, offset, r);
      assert buf.data[0..r] == got;
    }

    /** `read(bytes, provider)`: `read(bytes, 0, bytes.length, provider)`. */
    method ReadArray(b: array<byte>, buf: ByteBufferSlot) returns (res: Result<nat>)
      requires buf.Valid() && (channel.connected ==> channel.open) && b != buf.data
      modifies this`readyToRead, buf, buf.data, channel`incoming, b
      ensures buf.Valid()
      ensures channel.connected && channel.broken ==>
        && res == Fail(IOException) && readyToRead == old(readyToRead)
        && channel.incoming == old(channel.incoming) && b[..] == old(b[..])
      ensures !(channel.connected && channel.broken) ==>
        var l := Min(b.Length, buf.data.Length);
        var r := ReadOutcome(l, channel.connected, old(channel.incoming), channel.peerClosed);
        var n := if r > 0 then r else 0;
        && readyToRead == (r == l)
        && channel.incoming == old(channel.incoming)[n..]
        && res == Ok(n) && b[..] == old(channel.incoming)[..n] + old(b[n..])
    {
      res := ReadSlice(b, 0, b.Length, buf);
    }

    /** `setIOThread(…)` is not supported by the fallback server. */
    method SetIOThread() returns (res: Result<()>)
      ensures res == Fail(IllegalState(NotSupported))
    {
      res := Fail(IllegalState(NotSupported));
    }

    /** `close()`: clears the alive flag, closes every unit still queued (their
        `onComplete` does not fire, and they stay in the queue), then closes
        the channel and the input listener. */
    method Close()
      modifies this`alive, this`hooks, this`listenerClosed
      modifies channel`open, channel`connected, channel`readInterest, channel`writeInterest
      ensures !alive && listenerClosed
      ensures !channel.open && !channel.connected && !channel.readInterest && !channel.writeInterest
      ensures hooks == old(hooks) + Aborted(dequeued, |sending|)
      ensures old(Sound()) ==> Valid()
    {
      alive := false;
      var i := 0;
      while i < |sending|
        invariant 0 <= i <= |sending| && !alive
        invariant hooks == old(hooks) + Aborted(dequeued, i)
      {
        hooks := hooks + [UnitClosed(dequeued + i)];
        i := i + 1;
      }
      channel.Close();
      listenerClosed := true;
      AbortedCompletesNothing(dequeued, |sending|);
      CompletionsAppend(old(hooks), Aborted(dequeued, |sending|));
    }
  }
}
