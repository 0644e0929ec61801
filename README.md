# Fallback selector server: a verified model

The fallback server of the wizzardo HTTP server (`FallbackServerSocket`) is a
single-threaded `java.nio` selector loop. It accepts clients, lends a single
16 KiB buffer to every read and write, and runs a per-connection write pump.
The pump drains a FIFO queue of outbound payloads (`ReadableData`) into the
socket, as far as the socket accepts them. Beside it sits `FiltersMapping`,
the before- and after-filter chains an HTTP request passes through.

This project models, in Dafny:

- **`Bytes`**: bytes and the UTF-8 encoding that `write(String, …)` applies
  (RFC 3629, section 3).
- **`Buffers`**: the shared `ByteBuffer` as a class over an `array<byte>`,
  with the java.nio cursor discipline (`clear`, `flip`, `position`, `put`,
  `get`).
- **`Readable`**: the outbound payload. It is a value with a consumed-cursor:
  `read`, `unread`, `isComplete`.
- **`Channels`**: the accepted client socket as deterministic state:
  - the kernel's free send room (`sendSpace`);
  - a `broken` flag that makes every read and write raise an IOException;
  - bytes that have arrived and end of stream;
  - every byte the socket accepted (`sent`);
  - the selector interest flags.
- **`Connection`**: `SelectorConnectionWrapper`: the queue, the write overloads,
  `actualWrite` and the pump, the reads, `close`, `setIOThread`.
  - The callbacks fired on units are recorded in order in a `hooks` log:
    `readable.close()`, `readable.onComplete()` and `onWriteData(readable, hasMore)`.
  - A unit is named by its serial: the number of units dequeued before it.
- **`Server`**: the server object:
  - its constructors, `bind`, `getBuffer` and `isStarted`;
  - the operations it rejects;
  - the connection factories;
  - what the selector loop does with one ready key.
- **`Filters`**: `FiltersMapping` over a value model of `ChainUrlMapping`.

The main invariant is `Connection.SelectorConnection.Valid`:

- While the socket is connected, the bytes it accepted followed by the bytes
  still queued are exactly the bytes ever enqueued, in enqueue order.
- `onComplete` has fired exactly for the units dequeued so far, once each,
  in queue order.
- While the socket is open and the queue is non-empty, the socket is
  registered for write readiness.

Every write overload and the pump preserve it. `close` restores it from its
weaker part, `Sound`.

The pump has a stronger contract on a healthy socket (open, connected, not
failing):

- it stops only when the head is incomplete, the kernel room is gone, or
  the queue is empty;
- it sends exactly the first `min(pending, room)` pending bytes, in order;
- a short write resumes at exactly the first unsent byte.

Behaviour of the code worth knowing:

- After the queue drains, the pump leaves the connection open: the
  `close()` after the outer loop is commented out at line 125. Nothing in
  the pump deregisters write interest either. The model keeps the open
  state and the interest flags unchanged when the pump drains (`Pump`).
- `close()` does not empty the queue. A second `close()` therefore closes
  the still-queued units again, instead of having no further effect
  (`Close` appends `Aborted` on every call).
- On a socket that is not connected, `actualWrite` still reads a chunk of
  up to 16 KiB out of the unit and drops it. The inner loop then ends
  after that one call (`DrainHead`, `DrainFront`). A unit that the chunk
  completes is retired as completed. A longer unit stays at the head with
  one chunk fewer, and the pump returns at line 118; each later pump call
  drops one more chunk (`PumpStep`).
- `read(b, offset, length)` copies the `r` bytes read, not `length`, and
  returns `limit()`. End of stream therefore comes out as 0, not -1. The
  bytes have left the socket before the copy, so an out-of-range `offset`
  loses them (`ReadSlice`).
- A request for 0 bytes sets `readyToRead` to true exactly when the socket
  is connected and not failing (`ReadyWhenFilled`). On a failing socket the
  read throws and `readyToRead` keeps its value (`Read`).
- `bind` only records the host and port; it does not open a socket.

`Server.FallbackServer.SetIoThreadsCount` has no effect.
`Connection.SelectorConnection.IsAlive` reads `channel.connected`, not the
`alive` flag, as `isAlive()` does (lines 75-77).

## Model

| member | source | states |
|---|---|---|
| Bytes.Min | src/main/java/com/wizzardo/http/FallbackServerSocket.java:163 | `Math.min`: a lower bound of both arguments and equal to one of them |
| Bytes.EncodeChar | src/main/java/com/wizzardo/http/FallbackServerSocket.java:82 | one to four bytes per character, one byte exactly for ASCII, and that byte is the code |
| Bytes.Utf8 | src/main/java/com/wizzardo/http/FallbackServerSocket.java:82 | the encoding is between one and four bytes per character |
| Bytes.Utf8Append | src/main/java/com/wizzardo/http/FallbackServerSocket.java:80-86 | encoding distributes over concatenation |
| Bytes.Utf8Ascii | src/main/java/com/wizzardo/http/FallbackServerSocket.java:80-86 | an ASCII string encodes to its own codes, one byte each |
| Buffers.ByteBufferSlot.constructor | src/main/java/com/wizzardo/http/FallbackServerSocket.java:21 | a fresh zero-filled buffer of the given capacity, position 0, limit at capacity |
| Buffers.ByteBufferSlot.Remaining | src/main/java/com/wizzardo/http/FallbackServerSocket.java:140 | position plus remaining is the limit |
| Buffers.ByteBufferSlot.Clear | src/main/java/com/wizzardo/http/FallbackServerSocket.java:135 | position 0, limit at capacity |
| Buffers.ByteBufferSlot.Flip | src/main/java/com/wizzardo/http/FallbackServerSocket.java:138 | the limit moves to the old position, the position to 0 |
| Buffers.ByteBufferSlot.Put | src/main/java/com/wizzardo/http/FallbackServerSocket.java:137 | the bytes land at the position, the position advances past them, nothing else changes |
| Buffers.ByteBufferSlot.Get | src/main/java/com/wizzardo/http/FallbackServerSocket.java:155 | IndexOutOfBounds for a slice outside the array, BufferUnderflow for too few bytes, otherwise exactly that slice of the array is overwritten with the buffer's next bytes |
| Buffers.ByteBufferSlot.SetPosition | src/main/java/com/wizzardo/http/FallbackServerSocket.java:164 | accepted exactly when 0 <= p <= limit, and only then moves the position |
| Readable.Payload.Rest | src/main/java/com/wizzardo/http/FallbackServerSocket.java:115 | the unconsumed bytes number length minus cursor |
| Readable.Payload.Read | src/main/java/com/wizzardo/http/FallbackServerSocket.java:137 | hands out `min(remaining, room)` bytes, and those bytes followed by what is left are what was left before |
| Readable.Payload.Unread | src/main/java/com/wizzardo/http/FallbackServerSocket.java:143 | the last `n` consumed bytes are pending again, ahead of the rest |
| Readable.CompleteWhenDrained | src/main/java/com/wizzardo/http/FallbackServerSocket.java:115-117 | `isComplete()` holds exactly when no byte is left; reading a complete unit yields nothing and leaves it unchanged, and reading an incomplete one into any room yields at least one byte |
| Readable.FromSlice | src/main/java/com/wizzardo/http/FallbackServerSocket.java:95 | the unit holds exactly the slice, and is complete exactly when it is empty |
| Readable.ShortWriteResumes | src/main/java/com/wizzardo/http/FallbackServerSocket.java:137-145 | after a write that took `k` bytes of a chunk and `unread` of the others, the unit holds exactly its bytes after the first `k`, and the `k` bytes sent are its first `k` |
| Readable.PendingAppend | src/main/java/com/wizzardo/http/FallbackServerSocket.java:106 | appending a unit at the tail puts its bytes after everything already pending |
| Readable.ReadInto | src/main/java/com/wizzardo/http/FallbackServerSocket.java:137 | `readable.read(buffer)` writes exactly `Payload.Read` of the room into the buffer at its position and changes no other byte |
| Channels.ReadCount | src/main/java/com/wizzardo/http/FallbackServerSocket.java:166 | -1 exactly at end of stream with room, 0 exactly when there is no room or nothing has arrived, and a positive count is exactly the smaller of the room and the bytes arrived |
| Channels.SocketChannel.Accepted | src/main/java/com/wizzardo/http/FallbackServerSocket.java:233-236 | an accepted client: open, connected, nothing sent, registered for reading only |
| Channels.SocketChannel.Write | src/main/java/com/wizzardo/http/FallbackServerSocket.java:140 | an IOException and no effect unless healthy; otherwise exactly the first `min(remaining, room)` buffer bytes are appended to what was sent |
| Channels.SocketChannel.Read | src/main/java/com/wizzardo/http/FallbackServerSocket.java:166 | an IOException and no effect unless healthy; otherwise the arrived bytes that fit move into the buffer at its position and leave the socket |
| Channels.SocketChannel.Register | src/main/java/com/wizzardo/http/FallbackServerSocket.java:100-105 | replaces the interest set when open; on a closed socket it fails and changes nothing |
| Channels.SocketChannel.Close | src/main/java/com/wizzardo/http/FallbackServerSocket.java:181 | neither open nor connected, registration cancelled |
| Connection.RetirementCompletesOnce | src/main/java/com/wizzardo/http/FallbackServerSocket.java:120-123 | retiring a unit fires its `onComplete` exactly once |
| Connection.RetiredCompletions | src/main/java/com/wizzardo/http/FallbackServerSocket.java:114-124 | units leaving the queue complete in queue order, once each |
| Connection.AbortedCompletesNothing | src/main/java/com/wizzardo/http/FallbackServerSocket.java:177-179 | `close()` never fires `onComplete` on the units it closes |
| Connection.RetiredExtendsCompletions | src/main/java/com/wizzardo/http/FallbackServerSocket.java:114-124 | after a pump the completed serials are still exactly 0 .. dequeued-1 |
| Connection.ProgressConserves | src/main/java/com/wizzardo/http/FallbackServerSocket.java:139-146 | what the socket accepted extends what it had by a prefix of the pending bytes as long as the room used, and the rest of them is still pending |
| Connection.ProgressCompose | src/main/java/com/wizzardo/http/FallbackServerSocket.java:114-118 | progress on the head unit is progress on the whole queue |
| Connection.ProgressChain | src/main/java/com/wizzardo/http/FallbackServerSocket.java:114-124 | successive transmission steps compose |
| Connection.SentFromFront | src/main/java/com/wizzardo/http/FallbackServerSocket.java:140 | sending the first `k` pending bytes within the room is progress |
| Connection.ReadOutcome | src/main/java/com/wizzardo/http/FallbackServerSocket.java:166 | -1 when not connected, never more than requested or arrived, positive only when connected |
| Connection.ReadyWhenFilled | src/main/java/com/wizzardo/http/FallbackServerSocket.java:166-170 | `readyToRead` holds exactly when connected and the request was empty or fully available |
| Connection.SelectorConnection.IsAlive | src/main/java/com/wizzardo/http/FallbackServerSocket.java:75-77 | alive exactly when the socket is connected, whatever the `alive` flag says |
| Connection.SelectorConnection.constructor | src/main/java/com/wizzardo/http/FallbackServerSocket.java:51-57 | an empty queue, the peer's address recorded, the invariant established |
| Connection.SelectorConnection.WriteReadable | src/main/java/com/wizzardo/http/FallbackServerSocket.java:99-107 | appends the unit at the tail, its bytes after everything enqueued, keeps the invariant, and registers read and write interest exactly on the empty-to-non-empty transition of an open socket |
| Connection.SelectorConnection.WriteSlice | src/main/java/com/wizzardo/http/FallbackServerSocket.java:94-96 | enqueues exactly the slice; registers read and write interest on the empty-to-non-empty transition of an open socket and leaves the interest flags alone otherwise |
| Connection.SelectorConnection.WriteBytes | src/main/java/com/wizzardo/http/FallbackServerSocket.java:89-91 | enqueues the whole array, with the same interest registration as `write(ReadableData)` |
| Connection.SelectorConnection.WriteString | src/main/java/com/wizzardo/http/FallbackServerSocket.java:80-86 | enqueues the UTF-8 bytes of the string, with the same interest registration as `write(ReadableData)` |
| Connection.SelectorConnection.FillBuffer | src/main/java/com/wizzardo/http/FallbackServerSocket.java:134-138 | after clear, read and flip the buffer holds the unit's next chunk from index 0 |
| Connection.SelectorConnection.ActualWrite | src/main/java/com/wizzardo/http/FallbackServerSocket.java:133-149 | the return value is true exactly when the whole chunk fit; it throws exactly when the socket fails; a short write leaves exactly the unsent bytes pending; on a socket that is not connected the chunk is consumed and nothing is sent |
| Connection.SelectorConnection.DrainHead | src/main/java/com/wizzardo/http/FallbackServerSocket.java:115-116 | on a healthy socket the inner loop stops only with the unit complete or the room or buffer exhausted, having sent a prefix of the unit's bytes; it throws exactly when the socket is connected but failing, the unit is incomplete and the buffer has room; on a socket that is not connected exactly one chunk of up to a buffer's worth is consumed; on a connected, failing socket that does not throw the unit is unchanged; a socket that is not healthy is sent nothing and its room is unchanged |
| Connection.SelectorConnection.DrainFront | src/main/java/com/wizzardo/http/FallbackServerSocket.java:114-117 | draining the head keeps the rest of the queue unchanged and the queue's bytes accounted for; on a socket that is not connected the head's cursor advances by exactly one chunk of up to a buffer's worth; on a connected, failing socket that does not throw the queue is unchanged; a throw happens only with bytes pending; the room of a socket that is not healthy is unchanged |
| Connection.SelectorConnection.RetireHead | src/main/java/com/wizzardo/http/FallbackServerSocket.java:120-123 | polls the head and logs its close, its completion and `onWriteData` with whether units remain; the pending bytes are unchanged, since the head had none left |
| Connection.SelectorConnection.PumpStep | src/main/java/com/wizzardo/http/FallbackServerSocket.java:114-123 | one outer round: retire a completed head, or stop with an incomplete head or a failure; it fails exactly when the socket is connected but failing, the head is incomplete and the buffer has room; on a socket that is not connected it stops exactly when more than a buffer's worth of the head was left; the room of a socket that is not healthy is unchanged |
| Connection.SelectorConnection.PumpLoop | src/main/java/com/wizzardo/http/FallbackServerSocket.java:114-124 | the outer loop retires a prefix of the queue, in order, and stops only on an empty queue, an incomplete head or a failure; it fails exactly when the socket is connected but failing, bytes are pending and the buffer has room; the room of a socket that is not healthy is unchanged |
| Connection.SelectorConnection.PumpSettled | src/main/java/com/wizzardo/http/FallbackServerSocket.java:110-124 | the pump before its exception handler, with the byte and completion accounting restated for the whole connection; a socket that is not healthy is sent nothing and its room is unchanged |
| Connection.SelectorConnection.Pump | src/main/java/com/wizzardo/http/FallbackServerSocket.java:109-131 | keeps the invariant; retires a prefix of the queue in order; on a healthy socket sends exactly the first `min(pending, room)` pending bytes, in order; the socket throws, and the connection is then closed (dead, socket closed, listener closed, queued units closed), exactly when it is connected but failing, bytes are pending and the buffer has room; otherwise the open and connected state, the `alive` flag, the listener and the interest flags are unchanged and the pump stopped on an empty queue or an incomplete head; a socket that was not healthy is sent nothing and its room is unchanged |
| Connection.SelectorConnection.Read | src/main/java/com/wizzardo/http/FallbackServerSocket.java:160-172 | IllegalArgument for a negative length, IOException from a failing socket, otherwise the buffer holds the bytes read from 0 to its limit, and `readyToRead` records whether exactly the request was read |
| Connection.SelectorConnection.ReadSlice | src/main/java/com/wizzardo/http/FallbackServerSocket.java:152-157 | copies the bytes read into `b` from `offset` and returns their count, or IndexOutOfBounds with those bytes consumed; on IllegalArgument and IOException nothing leaves the channel, `b` and `readyToRead` are unchanged |
| Connection.SelectorConnection.ReadArray | src/main/java/com/wizzardo/http/FallbackServerSocket.java:191-193 | reads into the whole array from 0; on IOException nothing leaves the channel, `b` and `readyToRead` are unchanged |
| Connection.SelectorConnection.SetIOThread | src/main/java/com/wizzardo/http/FallbackServerSocket.java:196-198 | always IllegalState "Not supported yet" |
| Connection.SelectorConnection.Close | src/main/java/com/wizzardo/http/FallbackServerSocket.java:175-183 | marks the connection dead, closes every queued unit without completing it (the queue stays), closes the socket and the input listener |
| Server.Dispatch | src/main/java/com/wizzardo/http/FallbackServerSocket.java:224-254 | an acceptable key accepts; a key without a connection is skipped; otherwise `onRead` exactly when readable, the pump exactly when writable, reading first |
| Server.DispatchAll | src/main/java/com/wizzardo/http/FallbackServerSocket.java:224-254 | at most two actions per key, and no accept without an acceptable key |
| Server.DetachedKeysIgnored | src/main/java/com/wizzardo/http/FallbackServerSocket.java:244-245 | a key without a connection contributes nothing to a batch |
| Server.FallbackServer.Default | src/main/java/com/wizzardo/http/FallbackServerSocket.java:23-25 | no host, port 8080, not started |
| Server.FallbackServer.constructor | src/main/java/com/wizzardo/http/FallbackServerSocket.java:27-32 | host and port recorded, not started, a fresh 16 KiB buffer |
| Server.FallbackServer.SetIoThreadsCount | src/main/java/com/wizzardo/http/FallbackServerSocket.java:35-37 | host, port and started flag unchanged: the call has no effect |
| Server.FallbackServer.IsStarted | src/main/java/com/wizzardo/http/FallbackServerSocket.java:40-42 | the started flag |
| Server.FallbackServer.GetBuffer | src/main/java/com/wizzardo/http/FallbackServerSocket.java:304-306 | always the one 16 KiB buffer |
| Server.FallbackServer.Bind | src/main/java/com/wizzardo/http/FallbackServerSocket.java:319-323 | records host and port and reports success |
| Server.FallbackServer.SetTTL | src/main/java/com/wizzardo/http/FallbackServerSocket.java:276-278 | always IllegalState "Not supported yet" |
| Server.FallbackServer.GetTTL | src/main/java/com/wizzardo/http/FallbackServerSocket.java:281-283 | always IllegalState "Not supported yet" |
| Server.FallbackServer.Connect | src/main/java/com/wizzardo/http/FallbackServerSocket.java:299-301 | always IllegalState "Not supported yet" |
| Server.FallbackServer.LoadCertificateFiles | src/main/java/com/wizzardo/http/FallbackServerSocket.java:309-311 | always IllegalState "Not supported yet" |
| Server.FallbackServer.LoadSslConfig | src/main/java/com/wizzardo/http/FallbackServerSocket.java:314-316 | always IllegalState "Not supported yet" |
| Server.FallbackServer.CreateConnection | src/main/java/com/wizzardo/http/FallbackServerSocket.java:268-270 | a fresh connection over the client socket with an empty queue, satisfying the invariant |
| Server.FallbackServer.CreateEpollConnection | src/main/java/com/wizzardo/http/FallbackServerSocket.java:326-328 | no connection |
| Server.FallbackServer.CreateIOThread | src/main/java/com/wizzardo/http/FallbackServerSocket.java:331-333 | no I/O thread |
| Filters.ChainMapping.Add | src/main/java/com/wizzardo/http/FiltersMapping.java:28-31 | the filter is appended to the chain under that URL; other URLs and the context are unchanged |
| Filters.ChainMapping.WithContext | src/main/java/com/wizzardo/http/FiltersMapping.java:71-74 | the context changes, the chains do not |
| Filters.ChainMapping.IsEmpty | src/main/java/com/wizzardo/http/FiltersMapping.java:43 | empty exactly when no URL has a chain |
| Filters.ChainMapping.Get | src/main/java/com/wizzardo/http/FiltersMapping.java:46 | a chain exactly when one is registered under the request's path, and then that chain |
| Filters.EmptyMapping | src/main/java/com/wizzardo/http/FiltersMapping.java:23-26 | an empty mapping that selects no chain for any request |
| Filters.ChainPasses | src/main/java/com/wizzardo/http/FiltersMapping.java:62-69 | the empty chain passes; a chain whose first filter fails fails |
| Filters.Consulted | src/main/java/com/wizzardo/http/FiltersMapping.java:62-69 | never more filters than the chain holds; a non-empty chain always invokes its first filter |
| Filters.ChainPassesAll | src/main/java/com/wizzardo/http/FiltersMapping.java:62-69 | a chain passes exactly when every filter in it passes |
| Filters.ConsultedStopsAtFirstFailure | src/main/java/com/wizzardo/http/FiltersMapping.java:62-69 | the invoked filters are a prefix of the chain that stops at the first failure; the whole chain is invoked when it passes |
| Filters.ChainPassesAppend | src/main/java/com/wizzardo/http/FiltersMapping.java:62-69 | a chain of two parts passes exactly when both parts pass |
| Filters.PassedPrefix | src/main/java/com/wizzardo/http/FiltersMapping.java:62-69 | once the first `i` filters passed, the chain goes on as its suffix from `i` |
| Filters.RunChain | src/main/java/com/wizzardo/http/FiltersMapping.java:62-69 | the loop's answer is the chain's conjunction, and it invokes exactly the filters up to the first failure |
| Filters.MappingPasses | src/main/java/com/wizzardo/http/FiltersMapping.java:42-52 | an empty mapping or a request without a chain passes; otherwise it passes exactly when every filter of its chain passes |
| Filters.MappingConsulted | src/main/java/com/wizzardo/http/FiltersMapping.java:42-52 | nothing is invoked without a selected chain; otherwise a prefix of the chain is invoked, and the request passes exactly when the whole chain was invoked and every filter passed |
| Filters.AddedFilterConsulted | src/main/java/com/wizzardo/http/FiltersMapping.java:28-52 | after `add`, a request on that URL passes exactly when the old chain and the new filter pass; requests on other URLs are unaffected |
| Filters.FiltersMapping.Default | src/main/java/com/wizzardo/http/FiltersMapping.java:19-21 | both mappings empty, no context |
| Filters.FiltersMapping.constructor | src/main/java/com/wizzardo/http/FiltersMapping.java:23-26 | both mappings empty, with the context |
| Filters.FiltersMapping.AddBefore | src/main/java/com/wizzardo/http/FiltersMapping.java:28-31 | adds to the before mapping only and returns the same object |
| Filters.FiltersMapping.AddAfter | src/main/java/com/wizzardo/http/FiltersMapping.java:33-36 | adds to the after mapping only and returns the same object |
| Filters.FiltersMapping.AddBeforeAndAfter | src/main/java/com/wizzardo/http/FiltersMapping.java:38-40 | adds to both mappings and returns the same object |
| Filters.FiltersMapping.FilterWith | src/main/java/com/wizzardo/http/FiltersMapping.java:42-52 | answers `MappingPasses` and invokes exactly the filters up to the first failure; an empty mapping or a missing chain passes without invoking anything |
| Filters.FiltersMapping.Before | src/main/java/com/wizzardo/http/FiltersMapping.java:54-56 | consults the before mapping |
| Filters.FiltersMapping.After | src/main/java/com/wizzardo/http/FiltersMapping.java:58-60 | consults the after mapping |
| Filters.FiltersMapping.SetContext | src/main/java/com/wizzardo/http/FiltersMapping.java:71-74 | the same context on both mappings, chains unchanged |

## Left out

- The selector loop's own I/O is not modelled: opening the selector and the listening socket, `select`/`selectNow`, `accept` and the socket options (lines 203-222, 233-235). `Server.Dispatch` models what it does with each selected key.
- `finishConnect()` for connectable keys (lines 227-229) is not modelled: the fallback server never connects out, since `connect` is rejected.
- The server's `close()` (lines 286-296) is not modelled. Its `synchronized`, `join()` and the `running` flag are thread control.
- `onRead` (lines 272-273) has an empty body. `Server.Dispatch` records only that it is called.
- `ConcurrentLinkedQueue` is modelled as a sequence. There is a single thread, so concurrency is not modelled.
- `e.printStackTrace()` and stdout logging have no modelled effect. `IOTools.close` swallows exceptions; modelled closes cannot fail.
- `normalizeHostname` and `setPort`/`setHostname` belong to `EpollServer`, which is not part of this model. The host is recorded as given (`Server.FallbackServer.constructor`).
- The SslConfig argument of `loadCertificates(SslConfig)` and the thread argument of `setIOThread` are omitted: both operations only throw.
- `ChainUrlMapping`, `Request`, `Response` and `Filter` are not part of this model:
  - a mapping is modelled as an exact-match map from path to chain, with the context carried along;
  - what a filter answers is a function parameter;
  - the response argument is dropped.
- `ReadableData` is modelled for `ReadableByteArray` only, as a value. The byte array passed to `write(byte[], …)` is captured as a snapshot: later changes to the caller's array are not seen.
- Bytes.Utf8: Java strings are UTF-16. Dafny characters are Unicode scalar values, so unpaired surrogates are not modelled.
- Connection.SelectorConnection.WriteSlice: requires the slice to lie inside the array. `ReadableByteArray`, which would fail later on an out-of-range slice, is not part of this model.
- Connection.SelectorConnection.Pump: a socket's failure state (open, connected, broken) is fixed for the duration of a call, so a socket that accepts some chunks and then fails part-way through a pump is not modelled.
- Connection.SelectorConnection.Pump: `readable.close()`, `readable.onComplete()` and `onWriteData(readable, hasMore)` (lines 121-123) call into code that is not part of this model. They are modelled as entries in the `hooks` log that have no effect on the connection; in particular they make no re-entrant `write`. The source's loop re-reads the live queue (line 114) and computes `hasMore` from it (line 123), so a unit enqueued by a callback would be pumped in the same call and count for `hasMore`. `Pump`'s bound `|sending| <= old(|sending|)` and its `hasMore` values, taken from the queue at entry, hold only under this assumption.
- Connection.SelectorConnection.PumpLoop: on a socket that is not connected, what each round drops is stated per round (`DrainFront`, `PumpStep`), not summed over the whole loop or pump.
- Connection.SelectorConnection.Pump: byte conservation is stated for a socket that stays connected. After an exception the connection is closed, and the unit whose chunk was in flight has that chunk consumed.
- Java's `int` range is not modelled: units, offsets and lengths are unbounded integers.
