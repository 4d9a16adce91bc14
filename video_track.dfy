/**
 * The latest-frame video track of server.py (`DynamicFrameVideoStreamTrack`).
 *
 * The track owns a queue of capacity one and a frame counter. A frame request
 * generates a frame labelled with the current count, bumps the count, drops any
 * frame still waiting in the queue and puts the new one in. The media transport
 * pulls frames with `recv`. Pixels and the wall clock are not modelled: a frame
 * is its index and an opaque presentation timestamp supplied by the caller.
 */
module VideoTrack {
  import opened Wrappers

  /** A generated frame: the counter value it was labelled with and its pts (milliseconds). */
  datatype Frame = Frame(index: nat, pts: int)

  /** The observable state of a track: the one-slot queue and the frame counter. */
  datatype TrackState = TrackState(slot: Option<Frame>, frameCount: nat)

  /** The state of a freshly constructed track. */
  function Initial(): TrackState
  {
    TrackState(None, 0)
  }

  /** The state after `request_frame` with timestamp `pts`. */
  function Requested(s: TrackState, pts: int): TrackState
  {
    TrackState(Some(Frame(s.frameCount, pts)), s.frameCount + 1)
  }

  /** The state after `recv` has taken the buffered frame. */
  function Received(s: TrackState): TrackState
    requires s.slot.Some?
  {
    TrackState(None, s.frameCount)
  }

  /** The buffered frame, if any, is the most recently generated one. */
  ghost predicate HoldsLatest(s: TrackState)
  {
    s.slot.Some? ==> s.slot.value.index + 1 == s.frameCount
  }

  /**
   * What happens to a track over time: a frame request from the data channel, or
   * a pull by the media transport.
   */
  datatype TrackEvent = Request(pts: int) | Pull

  /**
   * One event. A pull on an empty queue is a consumer still waiting inside `recv`:
   * it takes nothing and changes nothing.
   */
  function Step(s: TrackState, e: TrackEvent): TrackState
  {
    match e
    case Request(pts) => Requested(s, pts)
    case Pull => if s.slot.Some? then Received(s) else s
  }

  /** The state after a sequence of events. */
  function Run(s: TrackState, evs: seq<TrackEvent>): TrackState
    decreases |evs|
  {
    if evs == [] then s else Run(Step(s, evs[0]), evs[1..])
  }

  /** The frames handed to the media transport over a sequence of events, in order. */
  function Delivered(s: TrackState, evs: seq<TrackEvent>): seq<Frame>
    decreases |evs|
  {
    if evs == [] then []
    else
      (if evs[0].Pull? && s.slot.Some? then [s.slot.value] else [])
      + Delivered(Step(s, evs[0]), evs[1..])
  }

  /** The frames generated over a sequence of events: one per request, labelled with the counter then. */
  function Generated(s: TrackState, evs: seq<TrackEvent>): seq<Frame>
    decreases |evs|
  {
    if evs == [] then []
    else
      (if evs[0].Request? then [Frame(s.frameCount, evs[0].pts)] else [])
      + Generated(Step(s, evs[0]), evs[1..])
  }

  /** The number of frame requests among the events. */
  function RequestCount(evs: seq<TrackEvent>): nat
    decreases |evs|
  {
    if evs == [] then 0 else (if evs[0].Request? then 1 else 0) + RequestCount(evs[1..])
  }

  ghost predicate StrictlyIncreasing(fs: seq<Frame>)
  {
    forall i, j :: 0 <= i < j < |fs| ==> fs[i].index < fs[j].index
  }

  /** The smallest index a frame delivered from `s` onwards can carry. */
  function NextDeliverable(s: TrackState): nat
  {
    if s.slot.Some? then s.slot.value.index else s.frameCount
  }

  /**
   * The counter counts requests exactly, and the buffer only ever holds the
   * latest generated frame.
   */
  lemma {:induction false} RunCountsRequests(s: TrackState, evs: seq<TrackEvent>)
    ensures Run(s, evs).frameCount == s.frameCount + RequestCount(evs)
    ensures HoldsLatest(s) ==> HoldsLatest(Run(s, evs))
    decreases |evs|
  {
    if evs != [] {
      RunCountsRequests(Step(s, evs[0]), evs[1..]);
    }
  }

  /**
   * Frames reach the transport in generation order, each at most once, and the
   * index of every one of them lies between the next deliverable index and the
   * final count.
   */
  lemma {:induction false} DeliveredInOrder(s: TrackState, evs: seq<TrackEvent>)
    requires HoldsLatest(s)
    ensures StrictlyIncreasing(Delivered(s, evs))
    ensures forall f :: f in Delivered(s, evs) ==>
              NextDeliverable(s) <= f.index < Run(s, evs).frameCount
    decreases |evs|
  {
    if evs != [] {
      var s' := Step(s, evs[0]);
      DeliveredInOrder(s', evs[1..]);
      RunCountsRequests(s', evs[1..]);
      var rest := Delivered(s', evs[1..]);
      if evs[0].Pull? && s.slot.Some? {
        var f := s.slot.value;
        assert Delivered(s, evs) == [f] + rest;
        assert forall g :: g in rest ==> f.index < g.index;
        forall i, j | 0 <= i < j < |[f] + rest|
          ensures ([f] + rest)[i].index < ([f] + rest)[j].index
        {
          if i > 0 {
            assert ([f] + rest)[i] == rest[i - 1];
          }
          assert ([f] + rest)[j] == rest[j - 1];
        }
      } else {
        assert Delivered(s, evs) == rest;
      }
    }
  }

  /**
   * Every delivered frame, index and timestamp alike, was already buffered or was
   * generated by a request during the run: nothing reaches the transport that the
   * track did not produce.
   */
  lemma {:induction false} DeliveredWereGenerated(s: TrackState, evs: seq<TrackEvent>)
    ensures forall f :: f in Delivered(s, evs) ==>
              (s.slot.Some? && f == s.slot.value) || f in Generated(s, evs)
    decreases |evs|
  {
    if evs != [] {
      DeliveredWereGenerated(Step(s, evs[0]), evs[1..]);
    }
  }

  /**
   * After any run, a buffered frame is the last one generated during the run, index
   * and timestamp alike, or, when nothing was generated, the frame buffered at the start.
   */
  lemma {:induction false} BufferHoldsLastGenerated(s: TrackState, evs: seq<TrackEvent>)
    ensures Run(s, evs).slot.Some? ==>
              if Generated(s, evs) == [] then
                s.slot.Some? && Run(s, evs).slot.value == s.slot.value
              else
                Run(s, evs).slot.value == Generated(s, evs)[|Generated(s, evs)| - 1]
    decreases |evs|
  {
    if evs != [] {
      BufferHoldsLastGenerated(Step(s, evs[0]), evs[1..]);
    }
  }

  /** The transport never receives more frames than were requested (plus one already buffered). */
  lemma {:induction false} DeliveredAtMostRequested(s: TrackState, evs: seq<TrackEvent>)
    ensures |Delivered(s, evs)| <= RequestCount(evs) + (if s.slot.Some? then 1 else 0)
    decreases |evs|
  {
    if evs != [] {
      DeliveredAtMostRequested(Step(s, evs[0]), evs[1..]);
    }
  }

  /** A pull right after a request yields exactly the new frame, whatever was buffered before. */
  lemma RequestThenPull(s: TrackState, pts: int)
    ensures Delivered(s, [Request(pts), Pull]) == [Frame(s.frameCount, pts)]
    ensures Run(s, [Request(pts), Pull]) == TrackState(None, s.frameCount + 1)
  {
    assert [Request(pts), Pull][1..] == [Pull];
    assert [Pull][1..] == [];
  }

  /** `DynamicFrameVideoStreamTrack`: a one-slot frame queue and a frame counter. */
  class DynamicFrameTrack {
    var slot: Option<Frame>
    var frameCount: nat

    function State(): TrackState
      reads this
    {
      TrackState(slot, frameCount)
    }

    /** A new track has an empty queue and a counter at zero. */
    constructor ()
      ensures slot == None && frameCount == 0
      ensures State() == Initial() && HoldsLatest(State())
    {
      slot := None;
      frameCount := 0;
    }

    /**
     * `request_frame`: label a frame with the current count, bump the count,
     * drop the unconsumed frame if the queue is full, enqueue the new frame.
     */
    method RequestFrame(pts: int)
      modifies this
      ensures frameCount == old(frameCount) + 1
      ensures slot == Some(Frame(old(frameCount), pts))
      ensures State() == Requested(old(State()), pts)
      ensures HoldsLatest(State())
    {
      var frame := Frame(frameCount, pts);
      frameCount := frameCount + 1;
      if slot.Some? {
        slot := None;
      }
      slot := Some(frame);
    }

    /** `recv`: take the buffered frame out of the queue. */
    method Recv() returns (frame: Frame)
      requires slot.Some?
      modifies this
      ensures frame == old(slot).value
      ensures slot == None && frameCount == old(frameCount)
      ensures State() == Received(old(State()))
      ensures HoldsLatest(State())
    {
      frame := slot.value;
      slot := None;
    }
  }
}
