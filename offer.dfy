/**
 * The per-client wiring done by the `offer` handler of server.py: each offer gets
 * a fresh peer connection, registered in `pcs`, and a fresh video track; text
 * messages arriving on the client's data channel are dispatched against that
 * track, and replies are sent back on the same channel.
 */
module Offer {
  import opened VideoTrack
  import opened Messages
  import opened Registry

  /**
   * An inbound data-channel message, with the millisecond presentation timestamp
   * that a frame requested by it gets.
   */
  datatype Inbound = Inbound(msg: string, pts: int)

  /** The track and the channel's outbound messages after handling one inbound message. */
  function Handle(t: TrackState, sent: seq<string>, m: Inbound): (TrackState, seq<string>)
  {
    match Dispatch(m.msg)
    case RequestFrame => (Requested(t, m.pts), sent)
    case Reply(text) => (t, sent + [text])
    case NoAction => (t, sent)
  }

  /** The track and the outbound messages after handling a sequence of inbound messages. */
  function HandleAll(t: TrackState, sent: seq<string>, ms: seq<Inbound>): (TrackState, seq<string>)
    decreases |ms|
  {
    if ms == [] then (t, sent)
    else
      var (t', sent') := Handle(t, sent, ms[0]);
      HandleAll(t', sent', ms[1..])
  }

  /** How many of the messages are the frame command. */
  function CommandCount(ms: seq<Inbound>): nat
    decreases |ms|
  {
    if ms == [] then 0 else (if ms[0].msg == FrameCommand then 1 else 0) + CommandCount(ms[1..])
  }

  /** The replies owed for the messages: one `pong` echo per `ping` message, in order. */
  function Pongs(ms: seq<Inbound>): seq<string>
    decreases |ms|
  {
    if ms == [] then []
    else
      (if StartsWith(ms[0].msg, PingPrefix) then [PongPrefix + ms[0].msg[|PingPrefix|..]] else [])
      + Pongs(ms[1..])
  }

  /** The track events the messages cause: one frame request per frame command. */
  function TrackEvents(ms: seq<Inbound>): seq<TrackEvent>
    decreases |ms|
  {
    if ms == [] then []
    else (if ms[0].msg == FrameCommand then [Request(ms[0].pts)] else []) + TrackEvents(ms[1..])
  }

  /**
   * Over any run of messages, the track sees exactly one frame request per
   * frame command (so its counter advances by their number), and the channel
   * carries exactly one `pong` echo per `ping` message, in arrival order.
   */
  lemma {:induction false} HandleAllEffects(t: TrackState, sent: seq<string>, ms: seq<Inbound>)
    ensures HandleAll(t, sent, ms).0 == Run(t, TrackEvents(ms))
    ensures HandleAll(t, sent, ms).0.frameCount == t.frameCount + CommandCount(ms)
    ensures HandleAll(t, sent, ms).1 == sent + Pongs(ms)
    decreases |ms|
  {
    if ms != [] {
      var m := ms[0];
      var (t', sent') := Handle(t, sent, m);
      HandleAllEffects(t', sent', ms[1..]);
      if m.msg == FrameCommand {
        CommandIsNotPing();
        assert TrackEvents(ms) == [Request(m.pts)] + TrackEvents(ms[1..]);
        assert ([Request(m.pts)] + TrackEvents(ms[1..]))[1..] == TrackEvents(ms[1..]);
      } else {
        assert TrackEvents(ms) == TrackEvents(ms[1..]);
        if StartsWith(m.msg, PingPrefix) {
          PingIsAnswered(m.msg);
        }
      }
      assert sent' + Pongs(ms[1..]) == sent + Pongs(ms);
    }
  }

  /** One client: its connection id, its own video track and the messages sent on its channel. */
  class PeerSession {
    const id: ConnId
    const track: DynamicFrameTrack
    var sent: seq<string>

    constructor (id: ConnId, track: DynamicFrameTrack)
      ensures this.id == id && this.track == track && sent == []
    {
      this.id := id;
      this.track := track;
      sent := [];
    }

    /**
     * `on_message`: the frame command asks the track for a frame, a `ping`
     * message gets its `pong` echo sent back, anything else has no effect.
     */
    method OnMessage(msg: string, pts: int)
      modifies this, track
      ensures msg == FrameCommand ==>
                track.State() == Requested(old(track.State()), pts) && sent == old(sent)
      ensures StartsWith(msg, PingPrefix) ==>
                track.State() == old(track.State()) &&
                sent == old(sent) + [PongPrefix + msg[|PingPrefix|..]]
      ensures msg != FrameCommand && !StartsWith(msg, PingPrefix) ==>
                track.State() == old(track.State()) && sent == old(sent)
      ensures (track.State(), sent) == Handle(old(track.State()), old(sent), Inbound(msg, pts))
    {
      CommandIsNotPing();
      var action := Dispatch(msg);
      match action {
        case RequestFrame =>
          track.RequestFrame(pts);
        case Reply(text) =>
          PingIsAnswered(msg);
          sent := sent + [text];
        case NoAction =>
      }
    }
  }

  /**
   * `offer`: create the connection, register it in `pcs`, and give it a new track.
   * The registration happens before the session descriptions are exchanged, so
   * it stays in place if that exchange fails.
   */
  method HandleOffer(registry: ConnectionRegistry, id: ConnId) returns (session: PeerSession)
    modifies registry
    ensures registry.pcs == old(registry.pcs) + {id}
    ensures fresh(session) && fresh(session.track)
    ensures session.id == id && session.sent == []
    ensures session.track.State() == Initial()
  {
    registry.Add(id);
    var track := new DynamicFrameTrack();
    session := new PeerSession(id, track);
  }
}
