# audioMi wire protocol and streaming core, in Dafny

This project models the audio-distribution core of audioMi. That core has four parts:

- a server (`NetAudioServer`) that broadcasts queued PCM chunks to every connected client and answers pings;
- a sending client (`NetClient`) that pushes chunks to a server;
- a recording client (`audio_client_save`) that saves what a server broadcasts;
- the length-prefixed binary format the three share.

Every integer on the wire is a signed 32-bit big-endian field. The status of an acknowledgement is one unsigned byte. The messages are:

- a header is (checkcode, command), 8 bytes;
- a ping request is the header (checkcode, 99);
- a ping acknowledgement is (checkcode, 99, status), 9 bytes;
- an audio push is the header (checkcode, 1), then the payload size, then the payload.

Modules, one per component:

- `Wire` (`wire.dfy`): the codec. It has encoders and decoders for the 32-bit field, the header, the acknowledgement and the audio push, and round-trip lemmas in both directions. Bytes are integers in `0..255`. The 32-bit range is the explicit predicate `InInt32`, because packing a value outside it raises `struct.error` in the source, and the model follows each place where that happens.
- `SendQueue` (`send_queue.dfy`): the bounded FIFO `queue.Queue(maxsize=200)`, as a class. `put_nowait` refuses when the queue is full, and the producer then drops the chunk. `get_nowait` reports an empty queue.
- `Lifecycle` (`lifecycle.dfy`): the worker thread that both `start`/`stop` (server) and `connect`/`disconnect` (client) manage. It keeps the thread reference, whether that thread is alive, and the stop event.
- `Server` (`net_server.dfy`): the per-connection read loop, the broadcast fan-out and the `NetAudioServer` class.
  - The read loop is the reference function `Serve` plus the loop method `ServeConnection`, proved equal to it.
  - The broadcast fan-out is the method `FanOut`.
  - `NetAudioServer` holds the client registry (`clients`), everything written to each connection (`sentTo`) and the broadcast task's state.
- `Client` (`net_client.dfy`): `_net_sender`. It is the reference functions `Ping`, `SendLoop` and `Sender`; the loop method `SendFrames`, proved equal to `SendLoop`; the method `NetSender`, proved equal to `Sender`; and the `NetClient` class with its `connect` guard.
- `Recorder` (`audio_client_save.dfy`): the ping-acknowledgement check, and the receive parser. The parser is the reference function `Receive` plus the loop method `ReceiveAudio` with its `total_bytes` accumulator. This module also holds the round trip across files: the recorder saves exactly the chunks that the server frames.

Sockets are abstracted to byte sequences:

- What a peer sends is a finite sequence; its end is a short read (`IncompleteReadError`).
- What is written to a connection is appended to a sequence.
- A write, drain or connect failure is an input chosen by the environment: a set of clients, a set of message numbers, or a boolean.

Three behaviours of the code are easy to misread, and the model follows the code in both:

- `net_client.py` checks nothing in the ping acknowledgement. It uses only the status byte, which it reports whatever its value, and ignores the checkcode and command (`Client.PingAckStatusOnly`).
- `net_disconnected` is not always the sending client's last signal. When a checkcode or chunk size cannot be packed, the error escapes the send loop. The session's `finally` signals `net_disconnected`, and the thread then signals `net_send_fail` (`Client.PackErrorReportedAfterDisconnect`).
- An audio push sent to this server is not skipped. The server reads the push's size and payload as further headers (`Server.AudioPushDesynchronises`).

## Model

| member | source | states |
|---|---|---|
| `Wire.Int32RoundTrip` | net_server.py:168 | decoding a packed `!i` field gives back the value, for every value in the signed 32-bit range |
| `Wire.Int32BytesRoundTrip` | net_server.py:118 | every 4 bytes are the packing of the value they unpack to, so the field encoding is a bijection |
| `Wire.HeaderRoundTrip` | net_server.py:167 | unpacking a packed `!ii` header gives back (checkcode, command) |
| `Wire.HeaderBytesRoundTrip` | net_server.py:118 | every 8 bytes are the packing of the header they unpack to |
| `Wire.AckRoundTrip` | net_server.py:127 | unpacking a packed `!iiB` acknowledgement gives back (checkcode, command, status) |
| `Wire.AckBytesRoundTrip` | net_client.py:131 | every 9 bytes are the packing of the acknowledgement they unpack to |
| `Wire.PingAckLayout` | net_server.py:127 | the server's ping answer is 9 bytes: the checkcode's big-endian bytes first, and it decodes to (checkcode, 99, 0) |
| `Wire.EncodeAudio` | net_server.py:167-169 | an audio push is `12 + size` bytes and its payload starts at byte 12 |
| `Wire.AudioFrameLayout` | net_server.py:167-169 | the first 8 bytes of an audio push decode to (checkcode, 1) and the next 4 to the payload length |
| `SendQueue.ChunkQueue.constructor` | main.py:52 | a new queue is empty and keeps the capacity it is given |
| `SendQueue.NewSendQueue` | main.py:52 | the audio send queue is a new, empty queue bounded at 200 chunks |
| `SendQueue.ChunkQueue.PutNowait` | audio_module.py:66-69 | a bounded queue never exceeds its capacity; a full queue refuses the chunk and is unchanged; otherwise the chunk joins at the tail |
| `SendQueue.ChunkQueue.GetNowait` | net_server.py:157-161 | an empty queue yields nothing and stays empty; otherwise the head is returned and removed (FIFO) |
| `Lifecycle.Worker.Start` | net_client.py:49-57 | nothing changes while the referenced thread is alive; otherwise the stop event is cleared and a running thread is launched |
| `Lifecycle.Worker.Stop` | net_client.py:59-64 | the stop event is set and the thread reference dropped; the thread has ended only if it was referenced and exited within the join timeout |
| `Lifecycle.Worker.Exit` | net_server.py:66-70 | when the thread's target returns, the thread is no longer alive and nothing else changes |
| `Server.ServeWritesOnlyPingAcks` | net_server.py:125-134 | a handler writes nothing but whole ping acknowledgements (checkcode, 99, 0), so its output is a multiple of 9 bytes; with a checkcode outside the 32-bit range it writes nothing |
| `Server.MismatchedHeaderClosesSilently` | net_server.py:118-123 | a header whose checkcode is not the server's ends the loop with nothing written |
| `Server.PingIsAcknowledged` | net_server.py:125-134 | a ping with the server's checkcode is answered by exactly one 9-byte acknowledgement, then the loop reads the next header |
| `Server.UnknownCommandConsumesHeaderOnly` | net_server.py:136-138 | any other command writes nothing and consumes only its 8 header bytes |
| `Server.PingsAnswered` | net_server.py:111-134 | n correct pings followed by a partial header give n acknowledgements, then the loop ends on a short read |
| `Server.AudioPushDesynchronises` | net_server.py:136-138 | an audio push sent to the server is misread: its size field becomes the next header's checkcode, and the connection closes with nothing written |
| `Server.ServeConnection` | net_server.py:111-138 | the read loop writes exactly what `Serve` defines and stops for the reason it defines (stop event, short read, bad checkcode, failed acknowledgement write) |
| `Server.FanOut` | net_server.py:171-188 | the clients written to are the snapshot minus those whose write failed; the dead list holds exactly the snapshot's clients whose write or drain failed, each once, and every write failure comes before every drain failure |
| `Server.NetAudioServer.constructor` | net_server.py:24-41 | a new server has no clients, no thread and no broadcast task |
| `Server.NetAudioServer.Start` | net_server.py:48-56 | `start` does nothing while the server thread is alive; otherwise it launches the thread with the stop event cleared |
| `Server.NetAudioServer.Listen` | net_server.py:72-79 | the serving thread starts the broadcast task once the listening socket is open, and ends if opening it fails |
| `Server.NetAudioServer.Shutdown` | net_server.py:85-100 | the shutdown path cancels the broadcast task and leaves the client registry empty |
| `Server.NetAudioServer.Stop` | net_server.py:58-63 | `stop` sets the stop event and drops the thread; if the running thread exits within the timeout, the registry is empty afterwards, otherwise nothing else changes yet |
| `Server.NetAudioServer.Register` | net_server.py:105-109 | a new connection's writer joins the registry and nothing else in it changes |
| `Server.NetAudioServer.Unregister` | net_server.py:140-149 | on exit the writer is discarded from the registry and no other client is affected |
| `Server.NetAudioServer.HandleClient` | net_server.py:102-149 | a whole handler run leaves the registry as it was (the writer is added, then removed on every exit path) and writes to its connection exactly the acknowledgements `Serve` defines |
| `Server.NetAudioServer.Prune` | net_server.py:190-192 | the dead clients, and only they, are removed from the registry |
| `Server.NetAudioServer.BroadcastStep` | net_server.py:156-202 | stop ends the loop; an empty queue changes nothing; a chunk taken with no clients is consumed and nothing is written; a packing error ends the broadcast task; otherwise the same packet `be32(checkcode) ++ be32(1) ++ be32(size) ++ data` is appended to every snapshot client whose write succeeded, and the registry becomes the old set minus exactly the clients whose write or drain failed |
| `Client.LoopSignals` | net_client.py:114-144 | the send loop never signals `net_disconnected` itself, and ends on a packing error only when some chunk or the checkcode is outside the 32-bit range |
| `Client.DisconnectSignalledLast` | net_client.py:145-152 | once connected, with every field packable, `net_connected` comes first and `net_disconnected` is signalled exactly once, last; a failed connection signals only `net_connect_fail` |
| `Client.PingRequestLayout` | net_client.py:100-103 | the ping request is the first 8 bytes sent: `be32(checkcode) ++ be32(99)` |
| `Client.PingAckStatusOnly` | net_client.py:104-107 | only the status byte of the ping acknowledgement affects the session; its checkcode and command are not checked |
| `Client.FailedPingDoesNotEndSession` | net_client.py:100-116 | every failed ping (unpackable checkcode, failed write or drain, fewer than 9 bytes back) signals one `net_send_fail` after `net_connected`; the send loop then runs on the rest of the server's stream (all of it if nothing was read, nothing after a short read) |
| `Client.FailedPingStillPushesEveryChunk` | net_client.py:100-127 | after a failed ping write or a short acknowledgement, with no acknowledgements awaited and no push failing, every chunk is pushed in order and the signals are `net_connected`, `net_send_fail`, `net_disconnected` |
| `Client.WriteFailureEndsLoop` | net_client.py:123-144 | without `wait_ack`, when push k is the first whose write or drain raises, the pushes before it have gone out, `net_send_fail` is signalled, the loop ends and nothing more is pushed |
| `Client.WriteFailureAfterAcksEndsLoop` | net_client.py:123-144 | with `wait_ack`, when the first failing write or drain comes after n acknowledged pushes, those n pushes have gone out, their nonzero statuses are reported, then `net_send_fail`, and the loop ends |
| `Client.ShortAckEndsLoop` | net_client.py:129-144 | with `wait_ack`, when the server's stream ends before a full acknowledgement, the push that waited is the last; the nonzero statuses before it are reported, then `net_send_fail` |
| `Client.PackErrorReportedAfterDisconnect` | net_client.py:114-152 | with a checkcode that cannot be packed, nothing is pushed, and the signals end with `net_disconnected` then `net_send_fail` |
| `Client.NoAckReadWithoutWaitAck` | net_client.py:129-130 | without `wait_ack` the loop does not read anything from the server |
| `Client.EveryChunkPushed` | net_client.py:116-127 | with writes succeeding and no acknowledgements awaited, each dequeued chunk goes out, in order, as `be32(checkcode) ++ be32(1) ++ be32(size) ++ data` |
| `Client.NonzeroStatusOnlyReported` | net_client.py:129-140 | with `wait_ack`, acknowledgements with the right checkcode keep the loop going; each nonzero status only signals `net_ack_nonzero` |
| `Client.AckMismatchEndsLoop` | net_client.py:130-137 | with `wait_ack`, an acknowledgement with another checkcode signals `net_send_fail` and ends the loop after that push |
| `Client.SendFrames` | net_client.py:115-144 | the send loop delivers, signals and ends exactly as `SendLoop` defines |
| `Client.NetSender` | net_client.py:80-152 | the whole session (connect, optional ping, send loop, closing signals) behaves exactly as `Sender` defines |
| `Client.NetClient.constructor` | net_client.py:19-30 | a new client has no thread and no stop event set |
| `Client.NetClient.Connect` | net_client.py:40-57 | `connect` does nothing while the worker thread is alive; otherwise it launches a session with the given checkcode and options |
| `Client.NetClient.Run` | net_client.py:67-78 | the worker thread runs `_net_sender` with its arguments and then ends |
| `Client.NetClient.Disconnect` | net_client.py:59-64 | `disconnect` sets the stop event and drops the thread reference |
| `Recorder.AckValidIsPingAck` | audio_client_save.py:87-95 | the ping acknowledgement is valid exactly when the checkcode matches, the command is 99 and the status is 0, i.e. exactly when it is the server's answer byte for byte |
| `Recorder.AcceptedFramesNonEmpty` | audio_client_save.py:125-131 | every payload the recorder saves is non-empty |
| `Recorder.MismatchedHeaderStops` | audio_client_save.py:105-111 | a header with another checkcode stops the receive loop and nothing is saved |
| `Recorder.UnknownCommandSkipsHeaderOnly` | audio_client_save.py:113-119 | a command other than 1 consumes only its 8 header bytes; no size or payload is read |
| `Recorder.NonPositiveSizeSkipped` | audio_client_save.py:121-127 | a size of zero or less is skipped without reading a payload and saves nothing |
| `Recorder.AudioFrameAccepted` | audio_client_save.py:129-131 | a positive size reads exactly that many bytes, saves them as one frame, and the loop continues right after them |
| `Recorder.ReceiveRoundTrip` | audio_client_save.py:102-131 | parsing the concatenated audio pushes of non-empty chunks, then the server's close, yields exactly those chunks in order |
| `Recorder.ServerStreamRecorded` | audio_client_save.py:81-131 | when the ping's answer reaches the recorder before any broadcast, the recorder accepts it as valid and then saves exactly the chunks broadcast after it |
| `Recorder.BroadcastBeforeAckRejected` | audio_client_save.py:87-95 | if a broadcast reaches the recorder before the ping's answer (the server registers a connection before reading its ping), the recorder reads the push's first 9 bytes as the acknowledgement and finds it invalid |
| `Recorder.ReceiveAudio` | audio_client_save.py:102-131 | the bytes appended to the WAV file are the accepted payloads in order, and `total_bytes` always equals their total length |
| `Recorder.SaveSession` | audio_client_save.py:57-131 | the recorder sends the 8-byte ping, reports the acknowledgement valid or invalid without stopping, then records until the stream ends; a short acknowledgement or an unpackable checkcode saves nothing |

## Left out

- Threads, asyncio and interleaving. Each handler run, broadcast step and client session is modelled as one atomic step. `Register` and `Unregister` let a caller interleave handlers with broadcasts, but the model does not capture changes to the registry while a broadcast is awaiting a drain.
- Sleeping and polling (`asyncio.sleep`, the 10 ms retry on an empty queue), and the timeouts of `join`. A join timeout is the boolean `exitsInTime`.
- Logging, `status_cb` and `print`. The model assumes a status callback that accepts the two arguments `_log` passes and never raises, such as the one main.py:98 installs. The default callback of net_server.py:36 takes one argument. Without a callback, the first `_log` call (net_server.py:73) would raise `TypeError`, and the server would end before it listens. The model does not capture this. Under that assumption, logging produces no state the core reads. The sending client's signals are modelled; its status strings are not.
- `writer.close()`, `wait_closed()` and peer addresses.
- Exceptions other than a short read on a server or recorder read, such as a connection reset. They end the loop through the same `finally` path, and the model treats them as the end of the input.
- `Server.Serve` and `Server.ServeConnection`: an acknowledgement whose write or drain fails is not counted in the connection's output, even though its bytes may already be in the transport buffer. By contrast, `Server.NetAudioServer.BroadcastStep` counts a broadcast packet whose write succeeded and whose drain then failed, because the write itself went through.
- `Client.NetSender`: a push whose write or drain fails is not counted in `wire`, even though some of its bytes may already be in the transport buffer.
- `Client.NetSender`: `chunks` is the sequence of chunks the loop dequeues before the stop event is set. The session does not pop a `ChunkQueue` object itself.
- The WAV container (header, sample format) and the recorder's progress messages (`total_bytes % (16000*2*5)`). The WAV file is modelled as the bytes appended to it.
- In the recorder: failure to connect, the Ctrl+C (`GracefulExit`) path, and failure to write the ping. The model assumes a connection whose ping write succeeds.
- main.py (the Tkinter UI, dotenv loading, the UI queue and dBFS display), utils.py (device listing, dBFS, resampling) and the capture loop of audio_module.py. Only the drop-on-full offer and the capacity 200 are kept.
- `Recorder.ServerStreamRecorded`: it assumes the ping's answer reaches the recorder before any broadcast. For the other order, the model shows only that the acknowledgement is rejected (`Recorder.BroadcastBeforeAckRejected`). It does not describe how the rest of that misaligned stream is parsed.
- Command-line entry points (`main()` of the recorder, `_setup_signal`) are not part of this model.
