# Client TLS stream adapter: a Dafny model

This project models the client side of an asynchronous TLS stream adapter. The adapter wraps a
transport and a TLS client session. It exposes the usual poll-based byte-stream operations:
`poll_read`, `poll_write`, `poll_write_vectored`, `poll_flush` and `poll_shutdown`.

Under the polling plumbing sits a small sequential state machine, `TlsState`. Its states are
`Stream`, `EarlyData(pos, data)`, `ReadShutdown`, `WriteShutdown` and `FullyShutdown`. It also
has an early-data (0-RTT) controller. Before the handshake completes, the controller sends writes
as 0-RTT data and buffers them in `data`. It then drives the handshake. If the server rejected
0-RTT, it replays `data[pos..]` through the normal write path. Finally it switches to `Stream`.

The model is functional. Each poll call is a pure function of:

- the adapter's state;
- the answers of the collaborators that call consults.

The collaborators are the TLS session and the record bridge. An answer is `Pending`, `Ok(n)` or
`Err(kind)`. Only the constraints the code relies on are imposed on answers: a write never claims
more bytes than it was offered, and a read only fills the caller's buffer.

Modules:

- `Io` (io.dfy): bytes, error kinds, `IoResult`, `Poll`, and the `ready!(..)?` early return.
- `TlsStates` (tls_state.dfy): `TlsState`, its helpers, and the reachability order `Reaches`.
  `Reaches` says closed directions stay closed and early data is never re-entered.
- `EarlyDataController` (early_data.dfy): the chunk loop, the handshake loop, the replay loop and
  the controller.
- `Client` (client.dfy): the five poll operations and lemmas relating several calls.
- `Traces` (traces.dfy): arbitrary sequences of calls and the invariants that hold along them.

The adapter value `Conn` carries the state and three logs of what the collaborators were handed:

- the plaintext given to the 0-RTT channel;
- the plaintext given to the normal write path;
- the number of close_notify alerts sent.

`Traces.World` adds the bytes the caller was told were written. The headline results hold for
every feasible sequence of calls, with the calls running the corrected early-data controller
(see "## Findings"):

- close_notify is sent at most once, and exactly when the write side closes;
- closed directions never reopen;
- early data is left exactly once;
- the bytes handed to the session for sending equal the bytes the caller was told were written.
  This holds whether the server accepted 0-RTT or the buffer was replayed. A write alone does not
  guarantee that the bytes leave the transport; that takes a flush (src/client.rs:127-128).

The definitions of `readable`, `writeable`, `shutdown_read` and `shutdown_write` live in a file
that is not part of this model. `TlsStates.ShutdownRead` and `TlsStates.ShutdownWrite` are
therefore ASSUMED definitions:

- `shutdown_read` maps `Stream` to `ReadShutdown` and `WriteShutdown` to `FullyShutdown`.
- `shutdown_write` maps `Stream` to `WriteShutdown` and `ReadShutdown` to `FullyShutdown`.
- Each is completed in the obvious way on states the client never passes to it.

The `early-data` cargo feature is the runtime flag `feature`. With the flag off, the `EarlyData`
state does not exist (`Client.Admissible`).

Two behaviours of the code worth knowing:

- On an early-data channel error, prefixes accepted from earlier chunks of the same call stay
  appended to `data` (src/client.rs:246-253).
- A successful read closes the read side whenever the room is unchanged, including a read into a
  buffer with no room (src/client.rs:101-105, `Client.ZeroRoomReadCloses`).

## Model

| member | source | states |
|---|---|---|
| `TlsStates.ShutdownRead` | src/client.rs:104-113 | Assumed helper. Closing the read side leaves the state unreadable and outside early data, and keeps the write side as it was. |
| `TlsStates.ShutdownWrite` | src/client.rs:212-215 | Assumed helper. Closing the write side leaves the state unwriteable and outside early data, and keeps the read side as it was. |
| `TlsStates.FullyShutdownIsTerminal` | src/client.rs:118 | Nothing reachable from `FullyShutdown` differs from it. |
| `EarlyDataController.AcceptChunks` | src/client.rs:241-258 | Reference chunk loop. Empty chunks are skipped, and it stops at the first refused, partial or failing chunk. The accepted bytes are always a prefix of the concatenated input, so their count is at most the total input length. |
| `EarlyDataController.AcceptChunksWhole` | src/client.rs:241-258 | Both directions: the loop takes the whole input without error exactly when every non-empty chunk is accepted in full. |
| `EarlyDataController.AcceptChunksStopsAt` | src/client.rs:241-258 | Let `k` be the first non-empty chunk not accepted in full. The buffer grows by exactly the chunks before `k`, in order, plus the accepted prefix of chunk `k`. On a failure at `k` it grows by the earlier chunks only, and the error is reported. |
| `EarlyDataController.EarlyWriteLoop` | src/client.rs:239-258 | The imperative loop appends exactly the reference loop's accepted bytes to `data`. It returns their count, or the channel's error after keeping the earlier prefixes appended. |
| `EarlyDataController.DriveHandshake` | src/client.rs:265-268 | The handshake loop succeeds at once when the session is not handshaking; otherwise success means some `is_handshaking` answer was `false`. A suspension or error it returns is one the handshake step reported. |
| `EarlyDataController.HandshakeLoop` | src/client.rs:265-268 | The `while is_handshaking()` loop ends with the same outcome as the reference handshake loop. |
| `EarlyDataController.Replay` | src/client.rs:270-276 | Reference replay. `pos` never decreases and never passes `data.len()`. The replay succeeds exactly when `pos == data.len()`. A suspension or error keeps the progress already made. |
| `EarlyDataController.ReplayLoop` | src/client.rs:272-275 | The `while pos < data.len()` loop ends with the same outcome and cursor as the reference replay. |
| `EarlyDataController.HandleEarlyDataAsWritten` | src/client.rs:225-283 | The controller as written, in terms of its phases. Outside `EarlyData` it returns 0 and changes nothing. The bytes sent as 0-RTT are exactly what the chunk loop accepted (nothing without a channel), and they are appended to `data`. A channel error, or any bytes taken, returns at once: the cursor is unchanged and nothing is replayed. A channel error is returned, with earlier prefixes kept. A non-zero count returns at once and keeps `pos`. When the chunk loop took nothing, the call completes (`Stream`, result 0) exactly when the handshake finishes and, unless 0-RTT was accepted, the replay drains the buffer. A failing handshake is passed on with nothing changed. A failing replay is passed on with the cursor it reached. |
| `EarlyDataController.ErrorAfterAcceptedChunk` | src/client.rs:246-253 | Counterexample for the code as written: chunk 1 is accepted and chunk 2 fails. The call reports an error, yet byte 7 was buffered and sent as 0-RTT data. |
| `EarlyDataController.HandleEarlyDataCorrected` | src/client.rs:246-262 | Corrected controller. The state, the bytes sent as 0-RTT and the replay are those of the code. The outcome differs only where the code reports an error after accepting bytes; the count of those bytes is reported instead. The caller is told exactly the bytes taken: a prefix of its input, of the reported length. Nothing is taken on an error or a suspension. |
| `EarlyDataController.CorrectionNeedsTwoChunks` | src/client.rs:239-262 | With at most one chunk the two controllers agree. So `poll_write`, `poll_flush`, `poll_read` and `poll_shutdown` are modelled exactly as written; only vectored writes of two or more chunks see the correction. |
| `Client.PollFlush` | src/client.rs:187-201 | Early data is settled before the bridge flush: when the handshake finishes and the replay (if needed) drains the buffer, the state becomes `Stream` and the bridge's flush answers. A failing handshake is returned with nothing changed. A failing replay is returned with the cursor it reached. Outside early data the call only flushes the bridge. The logs grow only by the replayed bytes, and both directions keep their open/closed status. |
| `Client.PollRead` | src/client.rs:86-120 | Closed read side: success with zero bytes, state unchanged. Open: a successful read reports the bytes filled and closes the read side iff it filled nothing or saw eof, and otherwise changes nothing. `ConnectionAborted` closes the read side and is still returned. Other outcomes pass through unchanged. In `EarlyData` a failing flush is returned as is. After a successful flush the read is classified the same way from `Stream`. |
| `Client.PollWriteVectored` | src/client.rs:157-180 | Runs the corrected controller (`HandleEarlyDataCorrected`). In `EarlyData` the new state is the controller's, and the outcome is the controller's until it completes; from then on the bridge's write answers. The reported count is at most the input length. The acknowledged prefix is exactly what reached the 0-RTT channel or, after early data, the normal path. Outside early data the state is unchanged and the bridge answers. |
| `Client.PollWrite` | src/client.rs:129-153 | Same as the vectored write, with the caller's buffer as the only chunk. In `EarlyData` the outcome is the controller's until it completes, then the bridge's. The count is at most `buf.len()`, and the acknowledged bytes are `buf[..n]`. |
| `Client.PollShutdown` | src/client.rs:203-221 | In `EarlyData` a flush must first succeed: a failing flush is returned as is, with the replay progress it made, and the write side stays open. After a successful flush the state is `WriteShutdown` and the bridge's shutdown answers. close_notify is sent exactly when the write side goes from open to closed. It is never sent again once the write side is closed: the call then only delegates to the transport. The read side is untouched. |
| `Client.ReadAfterCloseIgnoresTransport` | src/client.rs:118 | With the read side closed, a read returns zero bytes and leaves the state unchanged, whatever the transport would answer. |
| `Client.EofIsSticky` | src/client.rs:101-109 | A read that fills nothing or sees eof makes the next read end of stream, immediately and without consulting the transport. |
| `Client.ZeroRoomReadCloses` | src/client.rs:101-107 | A successful read into a buffer with no room closes the read side, because the code compares the remaining room before and after. |
| `Client.ShutdownTwiceNotifiesOnce` | src/client.rs:212-215 | Two shutdown calls in a row send close_notify at most once. |
| `Client.EarlyAcceptSkipsNormalWrite` | src/client.rs:141-149 | When the 0-RTT channel takes bytes, the bridge's write answer is never consulted, and the state stays `EarlyData`. |
| `Client.FeatureIrrelevantOutsideEarlyData` | src/client.rs:138-150 | Outside `EarlyData`, every call behaves the same with the early-data feature on or off. |
| `Traces.PerformKeepsInv` | src/client.rs:86-221 | With the corrected controller, every poll call keeps the stream invariant, and its new state is reachable from the old one. |
| `Traces.RunKeepsInv` | src/client.rs:86-283 | With the corrected controller, the invariant holds after every feasible sequence of calls. While early data lasts, the buffer equals the bytes sent as 0-RTT, which equal the acknowledged bytes. The normal path has carried `data[..pos]`. |
| `Traces.StatesOrdered` | src/client.rs:104-118 | Along any sequence of calls, a closed direction never reopens, `FullyShutdown` is never left, and `EarlyData` is never re-entered. |
| `Traces.EarlyDataLeftExactlyOnce` | src/client.rs:234-279 | A sequence that starts in `EarlyData` and ends outside it has exactly one call that leaves `EarlyData`. |
| `Traces.EarlyDataDelivery` | src/client.rs:237-283 | With the corrected controller: once early data is settled, the bytes handed to the session for sending are exactly the acknowledged bytes, in order. This holds whether the server accepted 0-RTT or the buffer was replayed. |
| `Traces.CloseNotifyAtMostOnce` | src/client.rs:212-215 | Over any sequence of calls, at most one close_notify is sent. One has been sent exactly when the write side is closed. |

## Findings

| source | as written | input that shows it | evidently intended | confidence | as-written member | corrected member |
|---|---|---|---|---|---|---|
| src/client.rs:246-253 | A channel error on a later chunk of a vectored early-data write returns `Err`. The prefixes accepted from earlier chunks are already in `data` and in the 0-RTT channel. | State `EarlyData(0, [])`, chunks `[[7], [8]]`, channel answers `Ok(1)` then `Err(_)`. The result is `Err`, and the state is `EarlyData(0, [7])`. | The reported count equals the bytes taken, as with a partial vectored write. The caller is never told "nothing written" for bytes that will reach the peer. | low: not executed; the session's early-data writer is not expected to fail between chunks of one call | `EarlyDataController.HandleEarlyDataAsWritten` (exhibited by `EarlyDataController.ErrorAfterAcceptedChunk`) | `EarlyDataController.HandleEarlyDataCorrected` |

The `Client` and `Traces` modules use the corrected controller. The delivery theorem
`Traces.EarlyDataDelivery` depends on it. With the controller as written, a caller that retries
the bytes it was told failed would have them delivered twice.

## Left out

- The TLS session's internals are not modelled: handshake processing, record encryption and
  certificate checks. The model consumes only the booleans and counts the code reads.
- The record bridge (`Stream` with `poll_read`, `poll_write`, `poll_write_vectored`, `poll_flush`,
  `poll_shutdown` and `handshake`) is not part of this model. Each call is an answer supplied with
  the call.
- `Pin`, `Context`, `Waker` and tokio's `ReadBuf` are runtime plumbing. A `ReadBuf` is reduced to
  its room before and after the read. The read result reports the number of bytes filled.
- The accessors `get_ref`, `get_mut`, `into_inner`, the `IoSession` impl and the raw fd/socket
  impls (src/client.rs:25-80) are left out. They only forward to fields.
- The `is_write_vectored` constant (src/client.rs:183-185) is left out. It carries no state.
- Non-terminating calls are left out. The handshake loop and the replay loop are modelled only for
  answer scripts that end the loop (`HandshakeScript`, `ReplayScript`). A bridge that keeps
  answering `Ok(0)` during replay would spin forever in the code. No finite script describes that.
- `Client.PollWriteVectored`: it runs the corrected controller. For a vectored write whose later
  chunk meets a channel error after an earlier chunk was accepted, it returns the accepted count
  where the code returns the error (see "## Findings"). Single-buffer writes and flushes are not
  affected (`EarlyDataController.CorrectionNeedsTwoChunks`).
- `Traces.PerformKeepsInv`: stated for calls that run the corrected controller. With the code as
  written, the failing vectored write above breaks `data == sentEarly == acked`.
- `Traces.RunKeepsInv`: stated for the corrected controller, for the same reason.
- `Traces.EarlyDataDelivery`: stated for the corrected controller, for the same reason. It also
  speaks of the bytes handed to the session, not of what the peer has received.
- `Traces.EarlyDataDelivery`: whether the server accepted 0-RTT is taken as one fact per
  connection (`SameAcceptance`). The code queries the session again on every controller run.
- A read issued in `EarlyData` flushes first and then reads. The flush takes its own answers, and
  the nested read consumes the call's single bridge read answer. Bridge state shared between the
  two steps is not modelled.
