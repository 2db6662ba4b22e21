# K-9 Mail: the synchronous TLS stream bridge and the two SOCKS5 clients, in Dafny

This project models three pieces of the K-9 Mail networking layer and proves properties of them.

- **SynchronousSslStreams** turns an `SSLEngine` and a blocking transport (an `InputStream` and an
  `OutputStream`) into a plaintext input stream and a plaintext output stream. It keeps four
  32 KiB `ByteBuffer`s: `SSL_IN` and `SSL_OUT` for ciphertext, `APP_IN` and `APP_OUT` for
  plaintext. `wrap()` and `unwrap()` are loops that call the engine and dispatch on its result.
  Closing the two inner streams is coordinated so that the engine is dropped and the transport is
  closed only once both halves are closed.
- **Socks5Client** (socks protocol module) performs the RFC 1928 method negotiation with "no
  authentication" and a CONNECT request by DOMAINNAME. It checks its arguments and the proxy's
  replies.
- **SOCKS5** (SMTP transport) runs the same exchange as one static sequence of steps, without the
  argument checks.

Layout:

| file | module | contents |
|---|---|---|
| `bytes.dfy` | `Bytes`, `Options` | Java bytes, code units and `int`; the casts and shifts the code uses; `Option` |
| `streams.dfy` | `Streams` | the transport streams: a scripted `InputStream` (`ByteSource`) and a recording `OutputStream` (`ByteSink`); the read-until-`count` function `Collect` |
| `byte_buffer.dfy` | `NioBuffers` | `java.nio.ByteBuffer` as a value: flip, compact, get, put, position, limit |
| `ssl_engine.dfy` | `SslEngine` | the `SSLEngine` as a scripted oracle (`Engine`) |
| `ssl_bridge_spec.dfy` | `SslBridgeSpec` | the bridge's state as a value, and one function per operation giving its outcome and the state it leaves |
| `ssl_bridge.dfy` | `SslBridge` | the bridge as a class with the source's fields; each method is proved equal to its specification function |
| `ssl_bridge_properties.dfy` | `SslBridgeProperties` | the bridge's promises, as lemmas about the specification functions |
| `socks5_client.dfy` | `Socks5Client` | the socks module's client: messages, reply parsing and the `Client` class |
| `smtp_socks5.dfy` | `SmtpSocks5` | the SMTP transport's helper: exchange functions and the static methods |
| `socks_compare.dfy` | `SocksComparison` | the two SOCKS5 implementations compared on the same inputs |

How the model is built:

- **Exceptions.** An exception is an outcome value: `Raised(fault)` in the bridge and `Fail(failure)`
  in the SOCKS code. Operations return the state as it is when the exception escapes.
- **Transport.** The transport `InputStream` is a script of chunks. Each chunk either delivers bytes
  or throws an `IOException`. An exhausted script reads as end of stream (-1). The `OutputStream`
  records the bytes written to it and counts its flushes and closes.
- **Engine.** `SSLEngine.wrap`/`unwrap` take the next scripted step. A step gives the result, the
  number of source bytes consumed, the bytes produced (cut to the room left in the destination)
  and the number of delegated tasks left behind. Once the script is used up, the engine reports
  `CLOSED`. Because every other result uses up a step, the `wrap()`/`unwrap()` loops terminate in
  the model.
- **Bridge specification.** `SslBridgeSpec.State` holds the observable state of
  `SynchronousSslStreams`:
  - whether the engine field is set;
  - the engine's state;
  - each of the four buffers, or `None` once its field has been nulled;
  - both transports.

  Each bridge method has a function there that describes it. The class `SslBridge.SynchronousSslStreams`
  has the source's fields. Each of its methods is proved to leave exactly the outcome and the state
  that its function gives for the state before the call. Loops are proved with the invariant that
  the loop's own function is unchanged.

Behaviour of the code worth knowing, which the model keeps:

- **IOException inside read, write or flush.** The unqualified `close()` inside the inner stream
  classes is that inner stream's own `close()`. It drops that side's two buffers and tears the
  bridge down only if the other side is already closed.
- **The grow loop in `write`.** `expand(depth, buffer)` assigns the bigger buffer to its parameter
  only. The field keeps its buffer and its capacity, so the loop never ends once the payload is
  larger than 32 KiB. `expand` does consume the readable bytes of the buffer it is given, so those
  bytes are lost. On a full `SSL_IN` in `readFromInput`, this drops the ciphertext that was still
  unread.
- **`BUFFER_OVERFLOW` in `wrap()`.** It expands `APP_IN`, the buffer `unwrap()` writes into, and
  not `SSL_OUT`, the buffer `wrap()` writes into. Plaintext still unread in `APP_IN` is thrown
  away and `SSL_OUT` stays as it was; the contract of `SslBridgeSpec.OnShortBuffer` states this.

## Model

| member | source | states |
|---|---|---|
| Bytes.Signed | mail/protocols/smtp/src/main/java/com/fsck/k9/mail/transport/smtp/SOCKS5.java:48 | a byte read as a Java `byte` lies in -128..127, agrees with the byte modulo 256, and is negative exactly when the top bit is set |
| Bytes.ToByte | mail/protocols/smtp/src/main/java/com/fsck/k9/mail/transport/smtp/SOCKS5.java:32-37 | a `(byte)` cast keeps the low eight bits: the result is the value modulo 256 |
| Bytes.ShiftRight8 | mail/protocols/smtp/src/main/java/com/fsck/k9/mail/transport/smtp/SOCKS5.java:36 | `port >> 8` on a Java int is the floor of the division by 256 and stays a Java int |
| Bytes.ToInt32 | mail/protocols/smtp/src/main/java/com/fsck/k9/mail/transport/smtp/SOCKS5.java:27 | Java `int` arithmetic: the result agrees with the mathematical value modulo 2^32 and equals it when it is in range |
| Bytes.LowSixteenBits | mail/protocols/smtp/src/main/java/com/fsck/k9/mail/transport/smtp/SOCKS5.java:36-37 | the two bytes `(byte)(port >> 8)` and `(byte)port`, read back in network order, give the port modulo 65536, also for negative ports |
| Streams.ReadStep | mail/common/src/main/java/com/fsck/k9/mail/ssl/SynchronousSslStreams.java:89 | one `read(b, off, len)` on the transport: -1 exactly at end of stream, an IOException exactly on a failing chunk, otherwise at most `len` bytes taken from the front of the next chunk |
| Streams.Available | mail/protocols/socks/src/main/java/com/fsck/k9/mail/protocols/socks/Socks5Client.java:154-162 | the bytes a reader can obtain: none when the stream ends or fails first, and otherwise they begin with the first chunk |
| Streams.Collect | mail/protocols/socks/src/main/java/com/fsck/k9/mail/protocols/socks/Socks5Client.java:149-166 | the successive reads of a read-until-`count` loop; success delivers exactly `count` bytes |
| Streams.CollectExactly | mail/protocols/socks/src/main/java/com/fsck/k9/mail/protocols/socks/Socks5Client.java:149-166 | reading `count` bytes succeeds exactly when the stream can supply that many before it ends, fails or returns an empty read; the bytes are the first `count` in order, and what is left is the rest |
| Streams.Prefixed | mail/protocols/socks/src/main/java/com/fsck/k9/mail/protocols/socks/Socks5Client.java:154-162 | bytes already read, put in front of what the rest of the loop gathers, keep its kind and its rest |
| Streams.ByteSource.Receive | mail/common/src/main/java/com/fsck/k9/mail/ssl/SynchronousSslStreams.java:89 | the transport read gives ReadStep's outcome and bytes and leaves ReadStep's rest of the script; close count unchanged |
| Streams.ByteSource.Read | mail/protocols/socks/src/main/java/com/fsck/k9/mail/protocols/socks/Socks5Client.java:155 | `read(b, off, len)` stores the delivered bytes at `b[off..]` and changes nothing else in `b` |
| Streams.ByteSource.Close | mail/common/src/main/java/com/fsck/k9/mail/ssl/SynchronousSslStreams.java:65 | `close()` is counted and leaves the script alone |
| Streams.ByteSink.WriteFrom | mail/common/src/main/java/com/fsck/k9/mail/ssl/SynchronousSslStreams.java:101 | `write(a, off, len)` appends exactly `a[off..off+len]` to what the transport received |
| Streams.ByteSink.Write | mail/protocols/socks/src/main/java/com/fsck/k9/mail/protocols/socks/Socks5Client.java:101 | the same for an array argument |
| Streams.ByteSink.Flush | mail/common/src/main/java/com/fsck/k9/mail/ssl/SynchronousSslStreams.java:102 | `flush()` is counted and sends nothing |
| Streams.ByteSink.Close | mail/common/src/main/java/com/fsck/k9/mail/ssl/SynchronousSslStreams.java:68 | `close()` is counted and sends nothing |
| NioBuffers.Readable | mail/common/src/main/java/com/fsck/k9/mail/ssl/SynchronousSslStreams.java:101 | the readable bytes of a buffer number exactly `remaining()` |
| NioBuffers.Allocated | mail/common/src/main/java/com/fsck/k9/mail/ssl/SynchronousSslStreams.java:22-25 | `allocate(n)` gives capacity n, position 0 and limit n |
| NioBuffers.Flipped | mail/common/src/main/java/com/fsck/k9/mail/ssl/SynchronousSslStreams.java:38-41 | `flip()` keeps the capacity and the buffer invariant |
| NioBuffers.Compacted | mail/common/src/main/java/com/fsck/k9/mail/ssl/SynchronousSslStreams.java:82 | `compact()` moves the readable bytes to index 0 and opens the rest up to the capacity |
| NioBuffers.Consumed | mail/common/src/main/java/com/fsck/k9/mail/ssl/SynchronousSslStreams.java:264 | `get(b, off, n)` takes the first n readable bytes and leaves the rest readable |
| NioBuffers.Appended | mail/common/src/main/java/com/fsck/k9/mail/ssl/SynchronousSslStreams.java:301 | `put(b, off, n)` stores the bytes at the position, moves the position past them and keeps what was before it |
| NioBuffers.WithPosition | mail/common/src/main/java/com/fsck/k9/mail/ssl/SynchronousSslStreams.java:103 | `position(p)` keeps the buffer invariant |
| NioBuffers.WithLimit | mail/common/src/main/java/com/fsck/k9/mail/ssl/SynchronousSslStreams.java:103 | `limit(l)` keeps the buffer invariant |
| NioBuffers.CompactThenFlip | mail/common/src/main/java/com/fsck/k9/mail/ssl/SynchronousSslStreams.java:265-266 | `compact(); flip();` keeps the readable bytes and moves them to index 0 |
| NioBuffers.CompactPutFlip | mail/common/src/main/java/com/fsck/k9/mail/ssl/SynchronousSslStreams.java:292-302 | `compact(); put(bytes); flip();` leaves the old readable bytes followed by the new ones |
| NioBuffers.CompactRoom | mail/common/src/main/java/com/fsck/k9/mail/ssl/SynchronousSslStreams.java:292-293 | after `compact()` the room is the capacity minus the unread bytes |
| SslEngine.Apply | mail/common/src/main/java/com/fsck/k9/mail/ssl/SynchronousSslStreams.java:116 | an engine call is logged; with the script used up it reports CLOSED and touches neither buffer; otherwise it reports the step's result, consumes from the source and writes behind the destination's position without disturbing what is before it |
| SslEngine.RunTask | mail/common/src/main/java/com/fsck/k9/mail/ssl/SynchronousSslStreams.java:107-108 | a delegated task exists exactly when one is pending; running it uses it up and is logged |
| SslEngine.Engine.constructor | mail/common/src/main/java/com/fsck/k9/mail/ssl/SynchronousSslStreams.java:29 | the engine starts with its script, no pending task and no calls |
| SslEngine.Engine.Wrap | mail/common/src/main/java/com/fsck/k9/mail/ssl/SynchronousSslStreams.java:116 | `engine.wrap(APP_OUT, SSL_OUT)` does what Apply gives for a wrap call |
| SslEngine.Engine.Unwrap | mail/common/src/main/java/com/fsck/k9/mail/ssl/SynchronousSslStreams.java:170 | `engine.unwrap(SSL_IN, APP_IN)` does what Apply gives for an unwrap call |
| SslEngine.Engine.Step | mail/common/src/main/java/com/fsck/k9/mail/ssl/SynchronousSslStreams.java:116 | one scripted engine call does what Apply gives |
| SslEngine.Engine.RunDelegatedTask | mail/common/src/main/java/com/fsck/k9/mail/ssl/SynchronousSslStreams.java:107-108 | `getDelegatedTask().run()` runs a task exactly when RunTask has one, and changes nothing when there is none |
| SslBridgeSpec.EmptyBuffer | mail/common/src/main/java/com/fsck/k9/mail/ssl/SynchronousSslStreams.java:22-41 | an allocated and flipped buffer has capacity 32 KiB, position 0 and limit 0 |
| SslBridgeSpec.Coherent | mail/common/src/main/java/com/fsck/k9/mail/ssl/SynchronousSslStreams.java:240-245 | the shape invariant: once the engine field is null all four buffers are gone, and while it is set at least one side still has both its buffers |
| SslBridgeSpec.Initial | mail/common/src/main/java/com/fsck/k9/mail/ssl/SynchronousSslStreams.java:22-43 | after construction the engine is set, all four buffers are present with capacity 32 KiB and position = limit = 0, the shape invariant holds, and the engine and transports are as given |
| SslBridgeSpec.Teardown | mail/common/src/main/java/com/fsck/k9/mail/ssl/SynchronousSslStreams.java:61-72 | the private `close()` drops the engine, closes each transport once and nulls APP_OUT, SSL_IN and SSL_OUT, leaving APP_IN; once the engine is gone it changes nothing |
| SslBridgeSpec.CloseInput | mail/common/src/main/java/com/fsck/k9/mail/ssl/SynchronousSslStreams.java:240-245 | the input stream's `close()` nulls APP_IN and SSL_IN; it tears down exactly when APP_OUT and SSL_OUT are both gone |
| SslBridgeSpec.CloseOutput | mail/common/src/main/java/com/fsck/k9/mail/ssl/SynchronousSslStreams.java:325-330 | the output stream's `close()` nulls APP_OUT and SSL_OUT; it tears down exactly when APP_IN and SSL_IN are both gone |
| SslBridgeSpec.Expanded | mail/common/src/main/java/com/fsck/k9/mail/ssl/SynchronousSslStreams.java:74-78 | `expand` leaves the buffer with its data, limit and capacity, and with nothing left to read |
| SslBridgeSpec.ReadTarget | mail/common/src/main/java/com/fsck/k9/mail/ssl/SynchronousSslStreams.java:82-87 | the buffer `readFromInput` reads into keeps its capacity and always has room |
| SslBridgeSpec.ReadFromInput | mail/common/src/main/java/com/fsck/k9/mail/ssl/SynchronousSslStreams.java:80-98 | `readFromInput` touches only SSL_IN and the transport input, never closes anything, and ends normally or with an exception (EOF, IOException, or a null dereference on a null SSL_IN) |
| SslBridgeSpec.WriteToOutput | mail/common/src/main/java/com/fsck/k9/mail/ssl/SynchronousSslStreams.java:100-104 | the transport receives exactly SSL_OUT's readable bytes and one flush; SSL_OUT is left at position 0, limit 0 with its data; nothing else changes |
| SslBridgeSpec.Task | mail/common/src/main/java/com/fsck/k9/mail/ssl/SynchronousSslStreams.java:106-109 | `task()` succeeds exactly when the engine is set and has a pending task, which it then runs; otherwise a null dereference escapes and nothing changes |
| SslBridgeSpec.OnShortBuffer | mail/common/src/main/java/com/fsck/k9/mail/ssl/SynchronousSslStreams.java:128-134 | BUFFER_OVERFLOW with APP_IN set goes round again having discarded APP_IN's unread plaintext (capacity kept) and changed nothing else, SSL_OUT included; with APP_IN null it stops on an unchecked exception with nothing changed; BUFFER_UNDERFLOW is exactly one readFromInput, going round again unless it raised |
| SslBridgeSpec.CallWrap | mail/common/src/main/java/com/fsck/k9/mail/ssl/SynchronousSslStreams.java:115-117 | the engine call of `wrap()` sends nothing to the transport, logs one wrap call when it happens, and uses up an engine step unless the result is CLOSED |
| SslBridgeSpec.Drain | mail/common/src/main/java/com/fsck/k9/mail/ssl/SynchronousSslStreams.java:119-121 | after the drain the transport has received SSL_OUT's readable bytes and SSL_OUT has none left; the engine is untouched |
| SslBridgeSpec.WrapDispatch | mail/common/src/main/java/com/fsck/k9/mail/ssl/SynchronousSslStreams.java:123-159 | the dispatch calls no engine step and closes nothing; CLOSED ends the pass with EOF and changes nothing |
| SslBridgeSpec.WrapPass | mail/common/src/main/java/com/fsck/k9/mail/ssl/SynchronousSslStreams.java:115-159 | a pass of the wrap loop closes nothing and uses up an engine step unless it throws |
| SslBridgeSpec.CallUnwrap | mail/common/src/main/java/com/fsck/k9/mail/ssl/SynchronousSslStreams.java:169-171 | the engine call of `unwrap()` sends nothing, logs one unwrap call when it happens, and uses up a step unless the result is CLOSED |
| SslBridgeSpec.UnwrapDispatch | mail/common/src/main/java/com/fsck/k9/mail/ssl/SynchronousSslStreams.java:173-209 | as WrapDispatch, with NEED_WRAP and NEED_UNWRAP exchanged |
| SslBridgeSpec.UnwrapPass | mail/common/src/main/java/com/fsck/k9/mail/ssl/SynchronousSslStreams.java:169-209 | a pass of the unwrap loop closes nothing and uses up an engine step unless it throws |
| SslBridgeSpec.WrapLoop | mail/common/src/main/java/com/fsck/k9/mail/ssl/SynchronousSslStreams.java:111-163 | on every finite engine script, `wrap()` ends, never nulls a buffer or closes a transport, and uses up at least one engine step when it returns normally |
| SslBridgeSpec.UnwrapLoop | mail/common/src/main/java/com/fsck/k9/mail/ssl/SynchronousSslStreams.java:165-213 | on every finite engine script, `unwrap()` ends, never nulls a buffer or closes a transport, and uses up at least one engine step when it returns normally |
| SslBridgeSpec.AwaitPlaintext | mail/common/src/main/java/com/fsck/k9/mail/ssl/SynchronousSslStreams.java:255-257 | the wait for plaintext ends with APP_IN non-empty, or with the exception that stopped it |
| SslBridgeSpec.TakePlaintext | mail/common/src/main/java/com/fsck/k9/mail/ssl/SynchronousSslStreams.java:258-267 | exactly min(len, available) bytes are handed over, taken from the front of APP_IN; the rest stays readable from index 0; nothing else changes |
| SslBridgeSpec.InnerRead | mail/common/src/main/java/com/fsck/k9/mail/ssl/SynchronousSslStreams.java:229-272 | len 0 gives 0, or -1 once the engine is gone, and changes nothing; a closed input side gives -1; otherwise at least one and at most len bytes, or an exception, and an IOException leaves the input side closed, dropping the engine exactly when the output side was already closed; on every path each transport is closed once if the engine went away and not at all otherwise |
| SslBridgeSpec.ReadPlaintext | mail/common/src/main/java/com/fsck/k9/mail/ssl/SynchronousSslStreams.java:254-271 | the try block returns between 1 and len bytes; on an IOException the input side is closed before it is rethrown, dropping the engine exactly when the output side was already closed; on every path each transport is closed once if the engine went away and not at all otherwise |
| SslBridgeSpec.ReadOne | mail/common/src/main/java/com/fsck/k9/mail/ssl/SynchronousSslStreams.java:219-227 | `read()` returns the byte when the one-byte read returns 1, as 0..255; -1 for any other count; propagates the read's exception; and leaves the state of the one-byte read |
| SslBridgeSpec.FlushLoop | mail/common/src/main/java/com/fsck/k9/mail/ssl/SynchronousSslStreams.java:315-317 | the flush loop ends normally only with APP_OUT empty and closes nothing |
| SslBridgeSpec.Flush | mail/common/src/main/java/com/fsck/k9/mail/ssl/SynchronousSslStreams.java:310-322 | `flush()` on a closed output side returns and changes nothing; otherwise it returns only when APP_OUT is empty, and an IOException leaves the output side closed, dropping the engine exactly when the input side was already closed; on every path each transport is closed once if the engine went away and not at all otherwise |
| SslBridgeSpec.MakeRoomForWrite | mail/common/src/main/java/com/fsck/k9/mail/ssl/SynchronousSslStreams.java:292-300 | after the flush there is room for the payload at index 0; the grow loop spins for ever exactly when the payload exceeds 32 KiB and the flush returned; an IOException leaves the output side closed, the second close adding no transport close; on every path each transport is closed once if the engine went away and not at all otherwise |
| SslBridgeSpec.Put | mail/common/src/main/java/com/fsck/k9/mail/ssl/SynchronousSslStreams.java:301-302 | the payload is stored after the bytes kept before the position, and APP_OUT is readable from index 0 |
| SslBridgeSpec.Write | mail/common/src/main/java/com/fsck/k9/mail/ssl/SynchronousSslStreams.java:287-307 | `write` on a closed output side throws EOF and changes nothing; a normal return leaves the payload at the end of APP_OUT's readable bytes, and when the payload did not fit behind the unread bytes, APP_OUT then holds exactly the payload; an IOException leaves the output side closed, dropping the engine exactly when the input side was already closed; on every path each transport is closed once if the engine went away and not at all otherwise |
| SslBridgeSpec.WriteOne | mail/common/src/main/java/com/fsck/k9/mail/ssl/SynchronousSslStreams.java:281-284 | `write(int)` on a closed output side throws EOF and changes nothing; a normal return leaves the argument's low eight bits as the last readable byte of APP_OUT; an IOException leaves the output side closed, dropping the engine exactly when the input side was already closed; on every path each transport is closed once if the engine went away and not at all otherwise |
| SslBridge.SynchronousSslStreams.constructor | mail/common/src/main/java/com/fsck/k9/mail/ssl/SynchronousSslStreams.java:22-43 | the new object's state is Initial |
| SslBridge.SynchronousSslStreams.Close | mail/common/src/main/java/com/fsck/k9/mail/ssl/SynchronousSslStreams.java:61-72 | the private `close()` leaves the state Teardown gives |
| SslBridge.SynchronousSslStreams.ReadFromInput | mail/common/src/main/java/com/fsck/k9/mail/ssl/SynchronousSslStreams.java:80-98 | outcome and state as ReadFromInput gives |
| SslBridge.SynchronousSslStreams.WriteToOutput | mail/common/src/main/java/com/fsck/k9/mail/ssl/SynchronousSslStreams.java:100-104 | state as WriteToOutput gives |
| SslBridge.SynchronousSslStreams.Task | mail/common/src/main/java/com/fsck/k9/mail/ssl/SynchronousSslStreams.java:106-109 | outcome and state as Task gives |
| SslBridge.SynchronousSslStreams.CallWrap | mail/common/src/main/java/com/fsck/k9/mail/ssl/SynchronousSslStreams.java:115-117 | result and state as CallWrap gives |
| SslBridge.SynchronousSslStreams.Drain | mail/common/src/main/java/com/fsck/k9/mail/ssl/SynchronousSslStreams.java:119-121 | state as Drain gives |
| SslBridge.SynchronousSslStreams.OnShortBuffer | mail/common/src/main/java/com/fsck/k9/mail/ssl/SynchronousSslStreams.java:128-134 | tag and state as OnShortBuffer gives |
| SslBridge.SynchronousSslStreams.WrapDispatch | mail/common/src/main/java/com/fsck/k9/mail/ssl/SynchronousSslStreams.java:123-159 | tag and state as WrapDispatch gives |
| SslBridge.SynchronousSslStreams.WrapPass | mail/common/src/main/java/com/fsck/k9/mail/ssl/SynchronousSslStreams.java:115-159 | tag and state as WrapPass gives |
| SslBridge.SynchronousSslStreams.CallUnwrap | mail/common/src/main/java/com/fsck/k9/mail/ssl/SynchronousSslStreams.java:169-171 | result and state as CallUnwrap gives |
| SslBridge.SynchronousSslStreams.UnwrapDispatch | mail/common/src/main/java/com/fsck/k9/mail/ssl/SynchronousSslStreams.java:173-209 | tag and state as UnwrapDispatch gives |
| SslBridge.SynchronousSslStreams.UnwrapPass | mail/common/src/main/java/com/fsck/k9/mail/ssl/SynchronousSslStreams.java:169-209 | tag and state as UnwrapPass gives |
| SslBridge.SynchronousSslStreams.Wrap | mail/common/src/main/java/com/fsck/k9/mail/ssl/SynchronousSslStreams.java:111-163 | the `while (true)` loop of `wrap()` ends with the outcome and state WrapLoop gives |
| SslBridge.SynchronousSslStreams.Unwrap | mail/common/src/main/java/com/fsck/k9/mail/ssl/SynchronousSslStreams.java:165-213 | the loop of `unwrap()` ends with the outcome and state UnwrapLoop gives |
| SslBridge.SynchronousSslStreams.CloseInput | mail/common/src/main/java/com/fsck/k9/mail/ssl/SynchronousSslStreams.java:240-245 | state as CloseInput gives |
| SslBridge.SynchronousSslStreams.CloseOutput | mail/common/src/main/java/com/fsck/k9/mail/ssl/SynchronousSslStreams.java:325-330 | state as CloseOutput gives |
| SslBridge.SynchronousSslStreams.AwaitPlaintext | mail/common/src/main/java/com/fsck/k9/mail/ssl/SynchronousSslStreams.java:255-257 | outcome and state as AwaitPlaintext gives |
| SslBridge.SynchronousSslStreams.TakePlaintext | mail/common/src/main/java/com/fsck/k9/mail/ssl/SynchronousSslStreams.java:258-267 | bytes, count and state as TakePlaintext gives |
| SslBridge.SynchronousSslStreams.ReadPlaintext | mail/common/src/main/java/com/fsck/k9/mail/ssl/SynchronousSslStreams.java:254-271 | outcome, bytes and state as ReadPlaintext gives |
| SslBridge.SynchronousSslStreams.InnerRead | mail/common/src/main/java/com/fsck/k9/mail/ssl/SynchronousSslStreams.java:247-272 | outcome, bytes and state as InnerRead gives |
| SslBridge.SynchronousSslStreams.Read | mail/common/src/main/java/com/fsck/k9/mail/ssl/SynchronousSslStreams.java:229-237 | outcome and state as InnerRead gives, the bytes stored at `b[off..]` and the rest of `b` unchanged |
| SslBridge.SynchronousSslStreams.ReadByte | mail/common/src/main/java/com/fsck/k9/mail/ssl/SynchronousSslStreams.java:219-227 | outcome and state as ReadOne gives |
| SslBridge.SynchronousSslStreams.FlushLoop | mail/common/src/main/java/com/fsck/k9/mail/ssl/SynchronousSslStreams.java:315-317 | outcome and state as FlushLoop gives |
| SslBridge.SynchronousSslStreams.Flush | mail/common/src/main/java/com/fsck/k9/mail/ssl/SynchronousSslStreams.java:310-322 | outcome and state as Flush gives |
| SslBridge.SynchronousSslStreams.MakeRoomForWrite | mail/common/src/main/java/com/fsck/k9/mail/ssl/SynchronousSslStreams.java:292-300 | outcome and state as MakeRoomForWrite gives |
| SslBridge.SynchronousSslStreams.WriteBytes | mail/common/src/main/java/com/fsck/k9/mail/ssl/SynchronousSslStreams.java:287-307 | outcome and state as Write gives for the payload |
| SslBridge.SynchronousSslStreams.Write | mail/common/src/main/java/com/fsck/k9/mail/ssl/SynchronousSslStreams.java:287-307 | outcome and state as Write gives for `b[off..off+len]` |
| SslBridge.SynchronousSslStreams.WriteByte | mail/common/src/main/java/com/fsck/k9/mail/ssl/SynchronousSslStreams.java:281-284 | outcome and state as WriteOne gives |
| SslBridgeProperties.ExpandWithNothingToRead | mail/common/src/main/java/com/fsck/k9/mail/ssl/SynchronousSslStreams.java:296-298 | expand on a buffer with nothing to read changes nothing, so the grow loop goes round on the same state |
| SslBridgeProperties.ReadFromInputAppends | mail/common/src/main/java/com/fsck/k9/mail/ssl/SynchronousSslStreams.java:80-98 | EOF exactly when the transport read returned a negative count, IOException exactly when it threw; otherwise SSL_IN holds its unread bytes followed by the new ones, except that a full SSL_IN loses its unread bytes to expand |
| SslBridgeProperties.WrapLoopUnfold | mail/common/src/main/java/com/fsck/k9/mail/ssl/SynchronousSslStreams.java:113-161 | after a pass, `wrap()` returns or throws on Stop, goes round again on Again, and hands over to `unwrap()` on Switch |
| SslBridgeProperties.UnwrapLoopUnfold | mail/common/src/main/java/com/fsck/k9/mail/ssl/SynchronousSslStreams.java:167-211 | the same for `unwrap()`, which hands over to `wrap()` |
| SslBridgeProperties.WrapPassUnfold | mail/common/src/main/java/com/fsck/k9/mail/ssl/SynchronousSslStreams.java:115-123 | `wrap()` drains SSL_OUT after the engine call and before it looks at the result |
| SslBridgeProperties.UnwrapPassUnfold | mail/common/src/main/java/com/fsck/k9/mail/ssl/SynchronousSslStreams.java:169-173 | `unwrap()` looks at the result right after the engine call |
| SslBridgeProperties.WrapDrainsThenStopsOnClosed | mail/common/src/main/java/com/fsck/k9/mail/ssl/SynchronousSslStreams.java:115-126 | on CLOSED, `wrap()` first sends what SSL_OUT holds and then throws EOF |
| SslBridgeProperties.UnwrapStopsOnClosed | mail/common/src/main/java/com/fsck/k9/mail/ssl/SynchronousSslStreams.java:169-176 | on CLOSED, `unwrap()` throws EOF with the state the engine call left |
| SslBridgeProperties.ExhaustedEngineGivesEndOfStream | mail/common/src/main/java/com/fsck/k9/mail/ssl/SynchronousSslStreams.java:111-126 | an engine with nothing more to do makes `wrap()` throw EOF after exactly one engine call |
| SslBridgeProperties.LoopsReturnWhenDone | mail/common/src/main/java/com/fsck/k9/mail/ssl/SynchronousSslStreams.java:151-153 | OK with FINISHED or NOT_HANDSHAKING makes either loop return normally after the one call (wrap after draining) |
| SslBridgeProperties.WrapRunsOneTask | mail/common/src/main/java/com/fsck/k9/mail/ssl/SynchronousSslStreams.java:140-142 | OK with NEED_TASK in `wrap()` runs one delegated task after the drain and goes round again, or ends with the null dereference when there is no task |
| SslBridgeProperties.UnwrapRunsOneTask | mail/common/src/main/java/com/fsck/k9/mail/ssl/SynchronousSslStreams.java:190-192 | the same in `unwrap()` |
| SslBridgeProperties.LoopsHandOver | mail/common/src/main/java/com/fsck/k9/mail/ssl/SynchronousSslStreams.java:147-149 | NEED_UNWRAP in `wrap()` and NEED_WRAP in `unwrap()` run the other loop once and return with its outcome |
| SslBridgeProperties.WrapLoopOnlyAppends | mail/common/src/main/java/com/fsck/k9/mail/ssl/SynchronousSslStreams.java:111-163 | `wrap()` only adds to what the transport received and to the engine's calls |
| SslBridgeProperties.UnwrapLoopOnlyAppends | mail/common/src/main/java/com/fsck/k9/mail/ssl/SynchronousSslStreams.java:165-213 | the same for `unwrap()` |
| SslBridgeProperties.DispatchOnlyAppends | mail/common/src/main/java/com/fsck/k9/mail/ssl/SynchronousSslStreams.java:123-159 | the result dispatch of both loops sends nothing and only adds engine calls |
| SslBridgeProperties.WrapPassOnlyAppends | mail/common/src/main/java/com/fsck/k9/mail/ssl/SynchronousSslStreams.java:115-159 | one pass of `wrap()` only adds to the output and the engine's calls |
| SslBridgeProperties.UnwrapPassOnlyAppends | mail/common/src/main/java/com/fsck/k9/mail/ssl/SynchronousSslStreams.java:169-209 | one pass of `unwrap()` only adds to the output and the engine's calls |
| SslBridgeProperties.ReadServedFromBuffer | mail/common/src/main/java/com/fsck/k9/mail/ssl/SynchronousSslStreams.java:255-267 | with plaintext already in APP_IN, `innerRead` does not call the engine: it returns min(len, available) bytes from the front and keeps the rest from index 0 |
| SslBridgeProperties.WriteThatFitsAppends | mail/common/src/main/java/com/fsck/k9/mail/ssl/SynchronousSslStreams.java:292-302 | a payload that fits behind the unread bytes is appended to them, with no engine call, nothing sent and nothing else changed |
| SslBridgeProperties.WriteOneAppendsLowByte | mail/common/src/main/java/com/fsck/k9/mail/ssl/SynchronousSslStreams.java:281-284 | with room for one more byte, `write(int)` appends exactly the argument modulo 256 to the unread bytes, with nothing else changed |
| SslBridgeProperties.EmptyWriteNeverWraps | mail/common/src/main/java/com/fsck/k9/mail/ssl/SynchronousSslStreams.java:292-302 | a zero-length write never calls `flush()` or `wrap()` and keeps APP_OUT's readable bytes |
| SslBridgeProperties.EmptyFlushNeverWraps | mail/common/src/main/java/com/fsck/k9/mail/ssl/SynchronousSslStreams.java:315-317 | `flush()` with nothing waiting changes nothing |
| SslBridgeProperties.ClosedOutputSide | mail/common/src/main/java/com/fsck/k9/mail/ssl/SynchronousSslStreams.java:288-290 | on a closed output side `write` throws EOF and `flush()` returns, and neither changes anything |
| SslBridgeProperties.ClosedInputSide | mail/common/src/main/java/com/fsck/k9/mail/ssl/SynchronousSslStreams.java:248-253 | on a closed input side `innerRead` returns -1 (0 for len 0 while the engine is set) and changes nothing |
| SslBridgeProperties.ClosesAreIdempotent | mail/common/src/main/java/com/fsck/k9/mail/ssl/SynchronousSslStreams.java:240-245 | closing either stream twice is closing it once |
| SslBridgeProperties.CloseTouchesOwnPair | mail/common/src/main/java/com/fsck/k9/mail/ssl/SynchronousSslStreams.java:325-330 | while the other side is open, a close nulls only its own two buffers |
| SslBridgeProperties.TransportsClosedWithEngine | mail/common/src/main/java/com/fsck/k9/mail/ssl/SynchronousSslStreams.java:61-72 | each close closes the two transports exactly when it makes the engine go away |
| SslBridgeProperties.CloseAll | mail/common/src/main/java/com/fsck/k9/mail/ssl/SynchronousSslStreams.java:240-245 | a series of closes never touches the engine, the input script or the output |
| SslBridgeProperties.TransportsClosedAtMostOnce | mail/common/src/main/java/com/fsck/k9/mail/ssl/SynchronousSslStreams.java:61-72 | for any series of closes: the shape invariant holds, closed halves stay closed, the engine is gone once both halves were closed, and each transport is closed exactly when the engine went away, so at most once |
| SslBridgeProperties.After | mail/common/src/main/java/com/fsck/k9/mail/ssl/SynchronousSslStreams.java:219-330 | one public read, write, flush or close, returning or throwing, closes each transport once if it dropped the engine and not at all otherwise, and never brings the engine back |
| SslBridgeProperties.CallKeepsCoherent | mail/common/src/main/java/com/fsck/k9/mail/ssl/SynchronousSslStreams.java:219-330 | every public call keeps the shape invariant, also when an IOException closes its half |
| SslBridgeProperties.SessionClosesTransportsAtMostOnce | mail/common/src/main/java/com/fsck/k9/mail/ssl/SynchronousSslStreams.java:61-72 | over any series of reads, writes, flushes and closes, failing ones included: the shape invariant holds, the engine once gone stays gone, and each transport is closed once if the engine went away and not at all otherwise, so at most once |
| SslBridgeProperties.SameShapeKeepsCoherent | mail/common/src/main/java/com/fsck/k9/mail/ssl/SynchronousSslStreams.java:19-25 | an operation that nulls and closes nothing keeps the shape invariant |
| SslBridgeProperties.ClosesKeepCoherent | mail/common/src/main/java/com/fsck/k9/mail/ssl/SynchronousSslStreams.java:240-245 | both closes keep the shape invariant: a side's two buffers go together, and the engine is present exactly while a side is open |
| SslBridgeProperties.ReadsKeepCoherent | mail/common/src/main/java/com/fsck/k9/mail/ssl/SynchronousSslStreams.java:219-272 | `read()` and `read(b, off, len)` keep the shape invariant on every path |
| SslBridgeProperties.InnerReadKeepsCoherent | mail/common/src/main/java/com/fsck/k9/mail/ssl/SynchronousSslStreams.java:247-272 | `innerRead` keeps the shape invariant, also when an IOException closes the input side |
| SslBridgeProperties.FlushKeepsCoherent | mail/common/src/main/java/com/fsck/k9/mail/ssl/SynchronousSslStreams.java:310-322 | `flush()` keeps the shape invariant, also when an IOException closes the output side |
| SslBridgeProperties.WriteKeepsCoherent | mail/common/src/main/java/com/fsck/k9/mail/ssl/SynchronousSslStreams.java:287-307 | `write` keeps the shape invariant on every path |
| SslBridgeProperties.MakeRoomKeepsCoherent | mail/common/src/main/java/com/fsck/k9/mail/ssl/SynchronousSslStreams.java:292-305 | the flush-and-grow path of `write` keeps the shape invariant, also after the double close on an IOException |
| Socks5Client.ReadExactlySpec | mail/protocols/socks/src/main/java/com/fsck/k9/mail/protocols/socks/Socks5Client.java:149-166 | `readExactly(count)` gives exactly `count` bytes or an exception; a negative count fails on the array allocation before any read |
| Socks5Client.Greeting | mail/protocols/socks/src/main/java/com/fsck/k9/mail/protocols/socks/Socks5Client.java:55 | the greeting is version 5, one method, "no authentication" |
| Socks5Client.CheckMethodReply | mail/protocols/socks/src/main/java/com/fsck/k9/mail/protocols/socks/Socks5Client.java:60-64 | the method reply is accepted exactly when it is `05 00`; the version is checked before the method |
| Socks5Client.HandshakeReply | mail/protocols/socks/src/main/java/com/fsck/k9/mail/protocols/socks/Socks5Client.java:53-66 | on success exactly two bytes are consumed; a wrong version byte fails with that byte |
| Socks5Client.ValidateConnect | mail/protocols/socks/src/main/java/com/fsck/k9/mail/protocols/socks/Socks5Client.java:80-86 | `connect` accepts exactly a non-null host of at most 255 units and a port in 1..65535, and reports the first failing check |
| Socks5Client.ConnectRequest | mail/protocols/socks/src/main/java/com/fsck/k9/mail/protocols/socks/Socks5Client.java:88-99 | the request is `05 01 00 03`, the host length, the host bytes and the port in network order, 7 + n bytes in all |
| Socks5Client.PortInNetworkOrder | mail/protocols/socks/src/main/java/com/fsck/k9/mail/protocols/socks/Socks5Client.java:94-95 | a valid port is its two network-order bytes read back |
| Socks5Client.ParseRequest | mail/protocols/socks/src/main/java/com/fsck/k9/mail/protocols/socks/Socks5Client.java:88-95 | a proxy's reading of a DOMAINNAME CONNECT request gives a host that fits the message and a 16-bit port |
| Socks5Client.RequestRoundTrip | mail/protocols/socks/src/main/java/com/fsck/k9/mail/protocols/socks/Socks5Client.java:88-99 | a proxy reading the request gets back the host bytes and the port the client was given |
| Socks5Client.ParseWellFormed | mail/protocols/socks/src/main/java/com/fsck/k9/mail/protocols/socks/Socks5Client.java:88-95 | any message laid out as a DOMAINNAME request parses to its host and port |
| Socks5Client.AcceptedReplyLength | mail/protocols/socks/src/main/java/com/fsck/k9/mail/protocols/socks/Socks5Client.java:104-121 | an accepted reply is at least the 4-byte header and fits in the bytes available |
| Socks5Client.AddressLength | mail/protocols/socks/src/main/java/com/fsck/k9/mail/protocols/socks/Socks5Client.java:112-121 | a known address type gives a bound-address length that fits in the bytes available |
| Socks5Client.CheckReply | mail/protocols/socks/src/main/java/com/fsck/k9/mail/protocols/socks/Socks5Client.java:106-110 | a wrong version or a non-zero reply code fails before anything more is read |
| Socks5Client.ConnectReply | mail/protocols/socks/src/main/java/com/fsck/k9/mail/protocols/socks/Socks5Client.java:104-121 | fewer than four bytes fail; a wrong version and then a non-zero reply code fail with that byte, before the address is read |
| Socks5Client.SkipAddress | mail/protocols/socks/src/main/java/com/fsck/k9/mail/protocols/socks/Socks5Client.java:112-121 | an unknown address type fails without reading |
| Socks5Client.Skip | mail/protocols/socks/src/main/java/com/fsck/k9/mail/protocols/socks/Socks5Client.java:112-121 | a negative count fails at the allocation with nothing read; success needs that many bytes and consumes exactly them |
| Socks5Client.SkipExactly | mail/protocols/socks/src/main/java/com/fsck/k9/mail/protocols/socks/Socks5Client.java:149-166 | skipping `count` bytes succeeds exactly when the stream holds them and consumes exactly them |
| Socks5Client.HandshakeAccepts | mail/protocols/socks/src/main/java/com/fsck/k9/mail/protocols/socks/Socks5Client.java:53-66 | the handshake succeeds exactly when the proxy's first two bytes are `05 00` |
| Socks5Client.SkipAddressExactly | mail/protocols/socks/src/main/java/com/fsck/k9/mail/protocols/socks/Socks5Client.java:112-121 | the address is skipped exactly when the stream holds all of it, and nothing after it is consumed |
| Socks5Client.ConnectReplyExactly | mail/protocols/socks/src/main/java/com/fsck/k9/mail/protocols/socks/Socks5Client.java:104-121 | the reply is accepted exactly when the stream starts with an accepted reply, and exactly that reply is consumed |
| Socks5Client.Client.constructor | mail/protocols/socks/src/main/java/com/fsck/k9/mail/protocols/socks/Socks5Client.java:42-43 | the client keeps the two streams it was given |
| Socks5Client.Client.Handshake | mail/protocols/socks/src/main/java/com/fsck/k9/mail/protocols/socks/Socks5Client.java:53-66 | sends the greeting and one flush, then reads and checks the reply as HandshakeReply gives |
| Socks5Client.Client.Connect | mail/protocols/socks/src/main/java/com/fsck/k9/mail/protocols/socks/Socks5Client.java:78-123 | bad arguments fail before anything is sent or read; otherwise sends the request and one flush and reads the reply as ConnectReply gives |
| Socks5Client.Client.EncodeRequest | mail/protocols/socks/src/main/java/com/fsck/k9/mail/protocols/socks/Socks5Client.java:88-99 | the filled array is exactly ConnectRequest |
| Socks5Client.Client.ReadAddress | mail/protocols/socks/src/main/java/com/fsck/k9/mail/protocols/socks/Socks5Client.java:112-121 | the address reads are those SkipAddress gives |
| Socks5Client.Client.InputStream | mail/protocols/socks/src/main/java/com/fsck/k9/mail/protocols/socks/Socks5Client.java:133-135 | `getInputStream()` is the input stream given at construction |
| Socks5Client.Client.OutputStream | mail/protocols/socks/src/main/java/com/fsck/k9/mail/protocols/socks/Socks5Client.java:145-147 | `getOutputStream()` is the output stream given at construction |
| Socks5Client.Client.ReadExactly | mail/protocols/socks/src/main/java/com/fsck/k9/mail/protocols/socks/Socks5Client.java:149-166 | the read loop's result and the stream it leaves are ReadExactlySpec's |
| Socks5Client.New | mail/protocols/socks/src/main/java/com/fsck/k9/mail/protocols/socks/Socks5Client.java:34-45 | a null input stream is refused first, then a null output stream; otherwise the client holds both |
| SmtpSocks5.Greeting | mail/protocols/smtp/src/main/java/com/fsck/k9/mail/transport/smtp/SOCKS5.java:16-23 | the greeting is `05 01 00` |
| SmtpSocks5.RequestFits | mail/protocols/smtp/src/main/java/com/fsck/k9/mail/transport/smtp/SOCKS5.java:26-27 | `new byte[7 + n]` gets a usable size exactly when the Java int `7 + n` does not wrap to a negative value, and the size is then 7 + n |
| Bytes.Truncated | mail/protocols/smtp/src/main/java/com/fsck/k9/mail/transport/smtp/SOCKS5.java:33-35 | `(byte) host.charAt(i)` keeps one byte per code unit: the low eight bits of each, in order (the socks client does the same at Socks5Client.java lines 97-99) |
| SmtpSocks5.RequestBytes | mail/protocols/smtp/src/main/java/com/fsck/k9/mail/transport/smtp/SOCKS5.java:25-37 | the request is `05 01 00 03`, the host length cast to a byte, the host bytes and the port's low sixteen bits in network order, unchecked |
| SmtpSocks5.CheckGreetingReply | mail/protocols/smtp/src/main/java/com/fsck/k9/mail/transport/smtp/SOCKS5.java:45-49 | the greeting reply is accepted exactly when it is `05 00`; corrupt version first, then the method |
| SmtpSocks5.Fill | mail/protocols/smtp/src/main/java/com/fsck/k9/mail/transport/smtp/SOCKS5.java:74-84 | a successful fill delivers exactly `count` bytes |
| SmtpSocks5.GreetingReply | mail/protocols/smtp/src/main/java/com/fsck/k9/mail/transport/smtp/SOCKS5.java:42-50 | the greeting reply is accepted exactly when the first two bytes the proxy sends are `05 00`, and then exactly those two bytes are consumed |
| SmtpSocks5.RequestReply | mail/protocols/smtp/src/main/java/com/fsck/k9/mail/transport/smtp/SOCKS5.java:52-72 | fewer than four bytes fail; a wrong version gives the corrupt-reply failure and a non-zero reply code the connect error, before the address is read |
| SmtpSocks5.AddressReply | mail/protocols/smtp/src/main/java/com/fsck/k9/mail/transport/smtp/SOCKS5.java:60-71 | an unknown address type fails without reading |
| SmtpSocks5.Discard | mail/protocols/smtp/src/main/java/com/fsck/k9/mail/transport/smtp/SOCKS5.java:65-71 | a negative array size fails without reading |
| SmtpSocks5.RequestSpec | mail/protocols/smtp/src/main/java/com/fsck/k9/mail/transport/smtp/SOCKS5.java:9-14 | `request` always sends the greeting first; on success it has sent 10 + n bytes |
| SmtpSocks5.ConnectSpec | mail/protocols/smtp/src/main/java/com/fsck/k9/mail/transport/smtp/SOCKS5.java:12-13 | a null host and an overflowing size fail with nothing sent and nothing read; otherwise exactly the 7 + n request bytes go out, with the host bytes in place |
| SmtpSocks5.RequestInOrder | mail/protocols/smtp/src/main/java/com/fsck/k9/mail/transport/smtp/SOCKS5.java:9-14 | a failed greeting reply ends the exchange with only the greeting sent; success needs an accepted greeting reply, a usable host and an accepted request reply, with the greeting then the request sent |
| SmtpSocks5.GreetingThenConnect | mail/protocols/smtp/src/main/java/com/fsck/k9/mail/transport/smtp/SOCKS5.java:10-13 | after an accepted greeting reply, `request` has sent the greeting followed by exactly what the request half sends, and ends as that half does |
| SmtpSocks5.SendGreeting | mail/protocols/smtp/src/main/java/com/fsck/k9/mail/transport/smtp/SOCKS5.java:16-23 | sends exactly the greeting and one flush |
| SmtpSocks5.SendRequest | mail/protocols/smtp/src/main/java/com/fsck/k9/mail/transport/smtp/SOCKS5.java:25-40 | fails on a null host and on a size that overflows a Java int, sending nothing; otherwise sends exactly RequestBytes and one flush |
| SmtpSocks5.BuildRequest | mail/protocols/smtp/src/main/java/com/fsck/k9/mail/transport/smtp/SOCKS5.java:26-37 | the filled array is exactly RequestBytes |
| SmtpSocks5.IsRequestBytes | mail/protocols/smtp/src/main/java/com/fsck/k9/mail/transport/smtp/SOCKS5.java:27-37 | an array laid out field by field as the code fills it is RequestBytes |
| SmtpSocks5.ReadExactly | mail/protocols/smtp/src/main/java/com/fsck/k9/mail/transport/smtp/SOCKS5.java:74-84 | the loop's outcome and the stream it leaves are Fill's; on success the bytes are stored in order at `b[offset..]`, and `b` is untouched outside `offset..offset+count` |
| SmtpSocks5.WaitForGreetingReply | mail/protocols/smtp/src/main/java/com/fsck/k9/mail/transport/smtp/SOCKS5.java:42-50 | outcome and stream as GreetingReply gives |
| SmtpSocks5.WaitForRequestReply | mail/protocols/smtp/src/main/java/com/fsck/k9/mail/transport/smtp/SOCKS5.java:52-72 | outcome and stream as RequestReply gives |
| SmtpSocks5.Request | mail/protocols/smtp/src/main/java/com/fsck/k9/mail/transport/smtp/SOCKS5.java:9-14 | outcome, bytes sent and stream left as RequestSpec gives |
| SmtpSocks5.Connect | mail/protocols/smtp/src/main/java/com/fsck/k9/mail/transport/smtp/SOCKS5.java:12-13 | outcome, bytes sent and stream left as ConnectSpec gives |
| SocksComparison.GreetingsAgree | mail/protocols/smtp/src/main/java/com/fsck/k9/mail/transport/smtp/SOCKS5.java:16-23 | both implementations send the same greeting |
| SocksComparison.RequestsAgree | mail/protocols/smtp/src/main/java/com/fsck/k9/mail/transport/smtp/SOCKS5.java:25-37 | on arguments the socks client accepts, both send the same CONNECT request |
| SocksComparison.LongHostIsGarbled | mail/protocols/smtp/src/main/java/com/fsck/k9/mail/transport/smtp/SOCKS5.java:32 | any host longer than 255 units, which the socks client refuses, goes out from the SMTP helper with its length byte cut to the length modulo 256, so a proxy reading the stream takes a different host and port from it, and the message as a whole is not a CONNECT request for that host |
| SocksComparison.LargePortWraps | mail/protocols/smtp/src/main/java/com/fsck/k9/mail/transport/smtp/SOCKS5.java:36-37 | a port above 65535, which the socks client refuses, reaches the proxy from the SMTP helper as its low sixteen bits |
| SocksComparison.GreetingRepliesAgree | mail/protocols/smtp/src/main/java/com/fsck/k9/mail/transport/smtp/SOCKS5.java:42-50 | both accept the same greeting replies and consume the same bytes |
| SocksComparison.RequestRepliesAgree | mail/protocols/smtp/src/main/java/com/fsck/k9/mail/transport/smtp/SOCKS5.java:52-72 | both accept the same CONNECT replies and consume the same bytes |
| SocksComparison.AddressRepliesAgree | mail/protocols/smtp/src/main/java/com/fsck/k9/mail/transport/smtp/SOCKS5.java:60-71 | both read the bound address the same way |
| SocksComparison.SkipsAgree | mail/protocols/smtp/src/main/java/com/fsck/k9/mail/transport/smtp/SOCKS5.java:65-71 | skipping a given number of bytes succeeds in both implementations alike and leaves the same stream |

## Left out

- The TLS protocol and its cryptography. The engine is an oracle that follows a script of results,
  so nothing is proved about what it encrypts, decrypts or negotiates.
- Real transports, blocking and timing. Transport reads follow a script. Transport writes,
  flushes and closes never fail; the private `close()` swallows close failures anyway.
- Concurrency. Every call runs alone.
- Debug code: the `toString` helper, the `depth` parameters, the `TAG` constants and the loop in
  `innerRead` that builds a printable copy of the data.
- `getInputStream()` and `getOutputStream()` of SynchronousSslStreams. They return the two inner
  streams, whose methods are the class's methods here.
- A null engine or transport given to the SynchronousSslStreams constructor is not modelled.
- Argument bounds. `read(b, off, len)` and `write(b, off, len)` require `off` and `len` to lie
  within `b`. `ByteSource.Read` and `SmtpSocks5.ReadExactly` require the same. The unchecked
  exceptions the JDK would throw for bad bounds are not modelled.
- Buffers are values. A buffer field holds the buffer's contents, position and limit, so the model
  has no sharing of a backing array between buffers.
- The payload of `write(b, off, len)` is taken as a value. The caller's array cannot change while
  the write runs.
- SslBridgeSpec.MakeRoomForWrite: the grow loop `while (APP_OUT.capacity() < len) expand(...)`
  never ends when `len` exceeds 32 KiB. The model performs one `expand` and reports the outcome
  `Raised(Diverges)` instead of running for ever.
- SslBridge.SynchronousSslStreams.MakeRoomForWrite: the same one step for the never-ending grow loop.
- Exceptions the JDK would raise inside the engine, such as a `ReadOnlyBufferException` or an
  `SSLException` on bad data, are covered only as scripted results. The engine's own exceptions
  are not modelled.
- The SOCKS exception messages. Failures are reported as values carrying the numbers the code
  prints, not as the message strings.
- An `IllegalArgumentException` from the constructor of Socks5Client is modelled as the
  `Rejected` result of `Socks5Client.New`, not as an exception.
- SslBridgeSpec.WrapLoop, SslBridgeSpec.UnwrapLoop, SslBridgeSpec.AwaitPlaintext,
  SslBridgeSpec.FlushLoop, SslBridge.SynchronousSslStreams.Wrap, SslBridge.SynchronousSslStreams.Unwrap,
  SslBridge.SynchronousSslStreams.AwaitPlaintext, SslBridge.SynchronousSslStreams.FlushLoop: the
  engine is a finite script that answers CLOSED once it runs out, so the model's loops always end.
  An engine that keeps answering forever is not modelled: OK with NEED_WRAP inside `wrap()`, or OK
  without producing plaintext under `while (!APP_IN.hasRemaining()) unwrap(1)`, or OK without
  consuming APP_OUT under `while (APP_OUT.hasRemaining()) wrap(1)`, all spin for ever in the code.
  Neither is the StackOverflowError that deep nesting of `wrap()`/`unwrap()` hand-overs would raise.
- The NEED_UNWRAP_AGAIN handshake status is not modelled. Only DTLS engines return it; in the code
  it matches no case of either switch, and the loop goes round again.
