/** The accepted client socket (`java.nio.channels.SocketChannel`) as the
    connection sees it. What the operating system and the peer do is state of
    the channel rather than code: `sendSpace` is the room left in the kernel's
    send buffer (a write takes as much of the offered bytes as fits), `broken`
    makes every read and write raise an IOException, `incoming` holds bytes the
    peer has sent and `peerClosed` marks end of stream. `sent` is every byte
    the channel has accepted for the peer, in order. The selector registration
    of the channel is the pair of interest flags. */
module Channels {
  import opened Bytes
  import opened Wrappers
  import opened Buffers

  /** What `channel.read(buffer)` returns with `room` bytes free in the buffer:
      0 when there is no room (java.nio checks that first), otherwise the bytes
      that fit, or -1 at end of stream, or 0 when nothing has arrived yet. */
  function ReadCount(room: nat, incoming: seq<byte>, peerClosed: bool): (r: int)
    ensures -1 <= r <= room && r <= |incoming|
    ensures r == -1 <==> room > 0 && incoming == [] && peerClosed
    ensures r == 0 <==> room == 0 || (incoming == [] && !peerClosed)
    ensures r > 0 ==> r == Min(room, |incoming|)
  {
    if room == 0 then 0
    else if incoming == [] then (if peerClosed then -1 else 0)
    else Min(room, |incoming|)
  }

  class SocketChannel {
    const remoteIp: string
    const remotePort: int
    var open: bool
    var connected: bool
    var broken: bool
    var sendSpace: nat
    var sent: seq<byte>
    var incoming: seq<byte>
    var peerClosed: bool
    var readInterest: bool
    var writeInterest: bool

    /** A client socket just returned by `accept()` and registered for reading only. */
    constructor Accepted(ip: string, port: int, sendSpace: nat, incoming: seq<byte>,
                         peerClosed: bool, broken: bool)
      ensures remoteIp == ip && remotePort == port
      ensures open && connected && this.broken == broken && this.sendSpace == sendSpace
      ensures sent == [] && this.incoming == incoming && this.peerClosed == peerClosed
      ensures readInterest && !writeInterest
    {
      remoteIp, remotePort := ip, port;
      open, connected, this.broken := true, true, broken;
      this.sendSpace, sent := sendSpace, [];
      this.incoming, this.peerClosed := incoming, peerClosed;
      readInterest, writeInterest := true, false;
    }

    /** Open, connected and not failing: reads and writes go through. */
    predicate Healthy()
      reads this
    {
      open && connected && !broken
    }

    /** `write(buffer)`: takes the first `min(remaining, sendSpace)` bytes
        between the buffer's position and limit, or raises an IOException. */
    method Write(buf: ByteBufferSlot) returns (res: Result<nat>)
      requires buf.Valid()
      modifies this`sent, this`sendSpace, buf`position
      ensures buf.Valid()
      ensures !old(Healthy()) ==>
        res == Fail(IOException) && sent == old(sent) &&
        sendSpace == old(sendSpace) && buf.position == old(buf.position)
      ensures old(Healthy()) ==>
        var k := Min(old(buf.Remaining()), old(sendSpace));
        && res == Ok(k)
        && sent == old(sent) + old(buf.data[buf.position..buf.position + k])
        && sendSpace == old(sendSpace) - k
        && buf.position == old(buf.position) + k
    {
      if !Healthy() {
        return Fail(IOException);
      }
      var k := Min(buf.limit - buf.position, sendSpace);
      sent := sent + buf.data[buf.position..buf.position + k];
      sendSpace := sendSpace - k;
      buf.position := buf.position + k;
      res := Ok(k);
    }

    /** `read(buffer)`: moves arrived bytes into the buffer from its position
        towards its limit, or raises an IOException. */
    method Read(buf: ByteBufferSlot) returns (res: Result<int>)
      requires buf.Valid()
      modifies this`incoming, buf`position, buf.data
      ensures buf.Valid() && buf.limit == old(buf.limit)
      ensures !old(Healthy()) ==>
        res == Fail(IOException) && incoming == old(incoming) &&
        buf.position == old(buf.position) && buf.data[..] == old(buf.data[..])
      ensures old(Healthy()) ==>
        var r := ReadCount(old(buf.Remaining()), old(incoming), peerClosed);
        var n := if r > 0 then r else 0;
        && res == Ok(r)
        && buf.position == old(buf.position) + n
        && buf.data[old(buf.position)..buf.position] == old(incoming)[..n]
        && incoming == old(incoming)[n..]
        && (forall i :: 0 <= i < buf.data.Length && !(old(buf.position) <= i < buf.position) ==>
              buf.data[i] == old(buf.data[i]))
    {
      if !Healthy() {
        return Fail(IOException);
      }
      var r := ReadCount(buf.limit - buf.position, incoming, peerClosed);
      if r > 0 {
        buf.Put(incoming[..r]);
        incoming := incoming[r..];
      }
      res := Ok(r);
    }

    /** `register(selector, ops, attachment)`: replaces the interest set, or raises
        ClosedChannelException (reported as `false`) once the channel is closed. */
    method Register(read: bool, write: bool) returns (ok: bool)
      modifies this`readInterest, this`writeInterest
      ensures ok == open
      ensures readInterest == (if ok then read else old(readInterest))
      ensures writeInterest == (if ok then write else old(writeInterest))
    {
      ok := open;
      if ok {
        readInterest, writeInterest := read, write;
      }
    }

    /** `close()`: no longer open nor connected, and the registration is cancelled. */
    method Close()
      modifies this`open, this`connected, this`readInterest, this`writeInterest
      ensures !open && !connected && !readInterest && !writeInterest
    {
      open, connected := false, false;
      readInterest, writeInterest := false, false;
    }
  }
}
