/** The fallback server itself (`FallbackServerSocket`): where it binds, the
    one 16 KiB buffer it lends to every connection, the operations it does not
    support, the connection factories, and what its selector loop does with
    one ready key. The loop's own I/O (opening the selector, accepting,
    polling) is not modelled. */
module Server {
  import opened Wrappers
  import opened Buffers
  import opened Channels
  import opened Connection

  /** The readiness of one selected key, as far as the loop looks at it, and
      whether a connection is attached to it. */
  datatype ReadyKey = ReadyKey(acceptable: bool, readable: bool, writable: bool, attached: bool)

  /** What the loop does for a key: accept a client (registered for reading
      only) and attach a new connection to it, hand the connection to
      `onRead`, or run its write pump. */
  datatype Action = Accept | OnRead | Pump

  /** The loop body for one key. After an accept the loop continues with the
      new client's key, which has not been selected yet and so is neither
      readable nor writable; a key without a connection is skipped; otherwise
      reading comes before writing. */
  function Dispatch(key: ReadyKey): (actions: seq<Action>)
    ensures key.acceptable ==> actions == [Accept]
    ensures !key.acceptable && !key.attached ==> actions == []
    ensures !key.acceptable && key.attached ==>
      && (OnRead in actions <==> key.readable)
      && (Pump in actions <==> key.writable)
      && Accept !in actions
      && |actions| <= 2
      && (|actions| == 2 ==> actions == [OnRead, Pump])
  {
    if key.acceptable then [Accept]
    else if !key.attached then []
    else (if key.readable then [OnRead] else []) + (if key.writable then [Pump] else [])
  }

  /** Every key is handled on its own: the actions for a batch of keys are the
      actions for each key in selection order. */
  function DispatchAll(keys: seq<ReadyKey>): (actions: seq<Action>)
    ensures |actions| <= 2 * |keys|
    ensures (forall i :: 0 <= i < |keys| ==> !keys[i].acceptable) ==> Accept !in actions
  {
    if keys == [] then [] else Dispatch(keys[0]) + DispatchAll(keys[1..])
  }

  /** A key that is not attached contributes nothing, wherever it sits in the batch. */
  lemma {:induction false} DetachedKeysIgnored(keys: seq<ReadyKey>, key: ReadyKey)
    requires !key.acceptable && !key.attached
    ensures DispatchAll(keys + [key]) == DispatchAll(keys)
    ensures DispatchAll([key] + keys) == DispatchAll(keys)
  {
    if keys == [] {
      assert [key][1..] == [];
    } else {
      assert (keys + [key])[1..] == keys[1..] + [key];
      DetachedKeysIgnored(keys[1..], key);
    }
    assert ([key] + keys)[1..] == keys;
  }

  class FallbackServer {
    var hostname: Option<string>
    var port: int
    var started: bool
    const buffer: ByteBufferSlot

    ghost predicate Valid()
      reads this, buffer
    {
      buffer.Valid() && buffer.data.Length == SharedCapacity
    }

    /** `FallbackServerSocket()`: no host, port 8080. */
    constructor Default()
      ensures Valid() && fresh(buffer) && fresh(buffer.data)
      ensures hostname == None && port == 8080 && !started
    {
      hostname, port, started := None, 8080, false;
      buffer := new ByteBufferSlot(SharedCapacity);
    }

    /** `FallbackServerSocket(host, port)`. */
    constructor (host: Option<string>, port: int)
      ensures Valid() && fresh(buffer) && fresh(buffer.data)
      ensures hostname == host && this.port == port && !started
    {
      hostname, this.port, started := host, port, false;
      buffer := new ByteBufferSlot(SharedCapacity);
    }

    /** `setIoThreadsCount(n)` does nothing: the fallback server is single-threaded. */
    method SetIoThreadsCount(count: int)
      ensures hostname == old(hostname) && port == old(port) && started == old(started)
    {
    }

    function IsStarted(): (b: bool)
      reads this
      ensures b <==> started
    {
      started
    }

    /** `getBuffer()`: every call lends the same 16 KiB buffer. */
    function GetBuffer(): (b: ByteBufferSlot)
      reads this, buffer
      requires Valid()
      ensures b == buffer && b.data.Length == SharedCapacity
    {
      buffer
    }

    /** `bind(host, port)` only records where to listen and reports success. */
    method Bind(host: Option<string>, port: int) returns (ok: bool)
      modifies this`hostname, this`port
      ensures ok && hostname == host && this.port == port
    {
      hostname, this.port := host, port;
      ok := true;
    }

    /** `setTTL(milliseconds)` is not supported. */
    method SetTTL(milliseconds: int) returns (res: Result<()>)
      ensures res == Fail(IllegalState(NotSupported))
    {
      res := Fail(IllegalState(NotSupported));
    }

    /** `getTTL()` is not supported. */
    method GetTTL() returns (res: Result<int>)
      ensures res == Fail(IllegalState(NotSupported))
    {
      res := Fail(IllegalState(NotSupported));
    }

    /** `connect(host, port)` is not supported: the server only accepts. */
    method Connect(host: string, port: int) returns (res: Result<SelectorConnection>)
      ensures res == Fail(IllegalState(NotSupported))
    {
      res := Fail(IllegalState(NotSupported));
    }

    /** `loadCertificates(certFile, keyFile)` is not supported: no TLS. */
    method LoadCertificateFiles(certFile: string, keyFile: string) returns (res: Result<()>)
      ensures res == Fail(IllegalState(NotSupported))
    {
      res := Fail(IllegalState(NotSupported));
    }

    /** `loadCertificates(sslConfig)` is not supported: no TLS. */
    method LoadSslConfig() returns (res: Result<()>)
      ensures res == Fail(IllegalState(NotSupported))
    {
      res := Fail(IllegalState(NotSupported));
    }

    /** `createConnection(client)`: a new connection over the accepted channel. */
    method CreateConnection(client: SocketChannel) returns (c: SelectorConnection)
      requires client.sent == [] && (client.connected ==> client.open)
      ensures fresh(c) && c.Valid() && c.channel == client
      ensures c.sending == [] && c.hooks == [] && c.alive && !c.readyToRead
    {
      c := new SelectorConnection(client);
    }

    /** `createConnection(fd, ip, port)`: the epoll factory yields no connection here. */
    method CreateEpollConnection(fd: int, ip: int, port: int) returns (c: Option<SelectorConnection>)
      ensures c == None
    {
      c := None;
    }

    /** `createIOThread(number, divider)`: there are no I/O threads. */
    method CreateIOThread(number: int, divider: int) returns (t: Option<()>)
      ensures t == None
    {
      t := None;
    }
  }
}
