# Variable-frame-rate WebRTC broadcast server: a Dafny model

This project models the sequential logic of `server.py`, the Python server of a
WebRTC demo that sends video frames only when the browser asks for one. Three
pieces are modelled:

- **The latest-frame video track** (`VideoTrack`). `DynamicFrameVideoStreamTrack`
  keeps a queue of capacity one and a frame counter. A frame request labels a new
  frame with the current count, bumps the count, drops any unconsumed frame and
  enqueues the new one. `recv` hands the buffered frame to the media transport.
  The class `DynamicFrameTrack` has these two fields and two methods. Pure step
  functions (`Requested`, `Received`, `Step`, `Run`, `Delivered`) describe the same
  behaviour over whole event sequences. The lemmas show three things. The counter
  counts requests. The buffer only ever holds the latest frame, index and
  timestamp alike. The transport gets
  frames in strictly increasing index order, only frames the track produced, and
  never more than were requested.
- **Data-channel message dispatch** (`Messages`). An inbound text message is
  classified into a frame request (exactly `send_frame`), a reply
  (`pong` + the message after its first four characters, for any message starting
  with `ping`), or nothing.
- **The peer-connection registry** (`Registry`). The global set `pcs` becomes the
  class `ConnectionRegistry`. A connection is added by the offer handler. It is
  closed and discarded when its state becomes `failed` or `closed`. On shutdown
  every connection is closed and the set is cleared. `Membership` proves when a
  connection is registered after any sequence of these events.

`Offer` ties them together the way the `offer` handler does: one fresh track per
connection, messages dispatched against that track, replies collected as the
channel's outbound messages. `HandleAllEffects` proves what any run of messages
does. The track receives one request per `send_frame`. The channel carries one
`pong` echo per `ping` message, in arrival order.

server.py also serves `client.html` and `client.js` (server.py:95-108); the browser's side of the connection is not modelled.

## Model

| member | source | states |
|---|---|---|
| `VideoTrack.DynamicFrameTrack.constructor` | server.py:37-44 | a new track has an empty one-slot queue and a frame counter of 0 |
| `VideoTrack.DynamicFrameTrack.RequestFrame` | server.py:46-76 | the counter grows by exactly one; the queue then holds exactly the new frame, labelled with the count from before the increment, and any unconsumed frame is gone |
| `VideoTrack.DynamicFrameTrack.Recv` | server.py:78-86 | returns the buffered frame, leaves the queue empty and the counter unchanged |
| `VideoTrack.RunCountsRequests` | server.py:43-76 | over any sequence of requests and pulls the counter advances by the number of requests, and a buffered frame carries the index of the most recently generated frame |
| `VideoTrack.BufferHoldsLastGenerated` | server.py:46-76 | after any run, a buffered frame is exactly the last frame generated during the run, timestamp included, or the frame buffered at the start if none was generated |
| `VideoTrack.DeliveredInOrder` | server.py:39-86 | frames reach the transport in strictly increasing index order (each at most once), and each one's index lies between the buffered frame's index (or the count, if nothing is buffered) and the final count |
| `VideoTrack.DeliveredWereGenerated` | server.py:46-86 | every delivered frame, index and timestamp alike, is the frame that was buffered at the start or one generated by a request during the run |
| `VideoTrack.DeliveredAtMostRequested` | server.py:71-86 | the transport never receives more frames than were requested, plus the one already buffered |
| `VideoTrack.RequestThenPull` | server.py:73-86 | a pull right after a request yields exactly the new frame, whatever was buffered before |
| `Messages.Dispatch` | server.py:137-143 | a frame request exactly for `send_frame`; no action exactly for a message that is neither `send_frame` nor starts with `ping`; otherwise a reply of the message's length that starts with `pong` and keeps the message's text after the first four characters |
| `Messages.CommandIsNotPing` | server.py:137-141 | `send_frame` does not start with `ping`, so testing it first takes nothing away from the ping branch |
| `Messages.PingIsAnswered` | server.py:141-143 | every message starting with `ping` gets exactly the reply `pong` + the message after its first four characters |
| `Messages.ReplyRecoversMessage` | server.py:143 | replacing the reply's `pong` prefix by `ping` gives back the original message |
| `Messages.AtMostOneEffect` | server.py:135-143 | a message causes at most one effect; one frame request exactly for `send_frame`, one reply exactly for a `ping` message |
| `Offer.HandleAllEffects` | server.py:134-143 | over any run of messages the track's history is one request per `send_frame`, its counter grows by their number, and the channel sends one `pong` echo per `ping` message in arrival order |
| `Offer.PeerSession.OnMessage` | server.py:134-143 | `send_frame` requests a frame and sends nothing; a `ping` message sends its echo and leaves the track alone; any other message changes nothing |
| `Offer.HandleOffer` | server.py:111-123 | the new connection is registered in `pcs` and gets a fresh track with an empty queue and a counter of 0 |
| `Registry.ConnectionRegistry.constructor` | server.py:25 | the registry starts empty |
| `Registry.ConnectionRegistry.Add` | server.py:120 | the connection joins the registry and nothing else changes |
| `Registry.ConnectionRegistry.OnStateChange` | server.py:145-151 | the connection is closed and discarded exactly when the state is `failed` or `closed`; every other state, `disconnected` included, leaves the registry unchanged; discarding an absent id is a no-op |
| `Registry.ConnectionRegistry.Shutdown` | server.py:179-186 | every registered connection is closed and the registry ends empty |
| `Registry.Membership` | server.py:120-186 | after any sequence of offers, state changes and shutdowns, a connection is registered exactly when it was offered and no `failed`/`closed` change for it and no shutdown came after |

## Left out

- Frame rendering: the OpenCV drawing, grayscale conversion and PyAV `VideoFrame` construction (server.py:52-68) are foreign library calls. A frame is its counter value and a timestamp.
- The clock: `time.time()` and `int(now * 1000)` (server.py:50, 65) are floating point. The millisecond timestamp is an integer parameter.
- `VideoTrack.DynamicFrameTrack.Recv`: the source waits until a frame is available; the method instead requires a buffered frame. In the event-sequence model a pull on an empty queue takes nothing and changes nothing, standing for a consumer that is still waiting.
- Scheduling: the awaits inside `Queue.get`/`Queue.put` and `asyncio.gather` (server.py:75-76, 84, 184-185) are concurrency. Each handler is modelled as running to completion.
- Peer connections are modelled by their id labels, not as objects. `pc.close()` (server.py:149, 184) is a foreign call; the model only reports that it is called (`closing`, `closed`).
- The session description exchange (`addTrack`, `setRemoteDescription`, `createAnswer`, `setLocalDescription`, server.py:163-168) and the JSON response (server.py:170-176) are calls into aiortc and aiohttp. If they fail, the connection stays registered, as in the source.
- Offer.PeerSession.OnMessage: `channel.send` (server.py:143) is a foreign call; its failure on a channel that is no longer open is not modelled, so every reply is recorded as sent. One data channel per connection is assumed, with one outbound log, while the source registers `on_message` per channel (server.py:130-134), each echoing on its own channel and all sharing the connection's one track.
- Offer.HandleAllEffects: for the same reasons, its one `pong` echo per `ping` message is what is handed to `channel.send` on the connection's single modelled channel, not what is guaranteed to go out.
- Offer.HandleOffer: connection ids are assumed unique, as the uuid label of each new `RTCPeerConnection` is (server.py:118-120); a repeated id would make the registry treat two connections as one.
- Binary data-channel messages are not modelled. Only text messages are classified.
- The static file handlers (server.py:95-108), command-line and TLS start-up (server.py:189-216), the unused `MediaRelay` (server.py:27), `_last_frame_time` (server.py:42, never read) and all logging are I/O plumbing.
- The `track` and `ended` handlers (server.py:153-160) only log.
