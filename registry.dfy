/**
 * The set `pcs` of live peer connections in server.py. A connection joins it when
 * its offer is handled, leaves it when its state becomes `failed` or `closed`,
 * and the whole set is closed and emptied when the server shuts down.
 */
module Registry {

  /** A peer connection, identified by its `PeerConnection(<uuid>)` label. */
  type ConnId = string

  /** `RTCPeerConnection.connectionState`. */
  datatype ConnectionState = New | Connecting | Connected | Disconnected | Failed | Closed

  /** The states on which the server closes and forgets a connection. */
  predicate IsTerminal(st: ConnectionState)
  {
    st == Failed || st == Closed
  }

  datatype RegistryEvent = Offered(id: ConnId) | StateChanged(id: ConnId, state: ConnectionState) | ShutDown

  /** The registry after one event. */
  function Apply(pcs: set<ConnId>, e: RegistryEvent): set<ConnId>
  {
    match e
    case Offered(id) => pcs + {id}
    case StateChanged(id, st) => if IsTerminal(st) then pcs - {id} else pcs
    case ShutDown => {}
  }

  /** The registry after a sequence of events, starting from the empty set of server start-up. */
  function Replay(evs: seq<RegistryEvent>): set<ConnId>
    decreases |evs|
  {
    if evs == [] then {} else Apply(Replay(evs[..|evs| - 1]), evs[|evs| - 1])
  }

  /** Event `e` takes connection `id` out of the registry. */
  predicate Removes(e: RegistryEvent, id: ConnId)
  {
    e.ShutDown? || (e.StateChanged? && e.id == id && IsTerminal(e.state))
  }

  /** Connection `id` was offered at position `i` and nothing after that removed it. */
  ghost predicate OfferedAndKept(evs: seq<RegistryEvent>, id: ConnId, i: int)
  {
    0 <= i < |evs| && evs[i] == Offered(id) &&
    forall j :: i < j < |evs| ==> !Removes(evs[j], id)
  }

  /**
   * A connection is registered exactly when its offer was handled and no
   * `failed`/`closed` state change for it, and no shutdown, came after.
   */
  lemma {:induction false} Membership(evs: seq<RegistryEvent>, id: ConnId)
    ensures id in Replay(evs) <==> exists i :: OfferedAndKept(evs, id, i)
    decreases |evs|
  {
    if evs != [] {
      var n := |evs|;
      var pre := evs[..n - 1];
      var e := evs[n - 1];
      Membership(pre, id);
      if e == Offered(id) {
        assert OfferedAndKept(evs, id, n - 1);
      } else if Removes(e, id) {
        forall i | 0 <= i < n
          ensures !OfferedAndKept(evs, id, i)
        {
          if i < n - 1 {
            assert Removes(evs[n - 1], id);
          }
        }
      } else {
        assert id in Replay(evs) <==> id in Replay(pre);
        forall i | 0 <= i < n - 1
          ensures OfferedAndKept(evs, id, i) <==> OfferedAndKept(pre, id, i)
        {
          assert forall j :: i < j < n - 1 ==> pre[j] == evs[j];
        }
        assert !OfferedAndKept(evs, id, n - 1);
        if id in Replay(evs) {
          var i :| OfferedAndKept(pre, id, i);
          assert OfferedAndKept(evs, id, i);
        }
      }
    }
  }

  /** The global `pcs` set. */
  class ConnectionRegistry {
    var pcs: set<ConnId>

    constructor ()
      ensures pcs == {}
    {
      pcs := {};
    }

    /** `pcs.add(pc)` in the offer handler. */
    method Add(id: ConnId)
      modifies this
      ensures pcs == old(pcs) + {id}
      ensures pcs == Apply(old(pcs), Offered(id))
    {
      pcs := pcs + {id};
    }

    /**
     * `on_connectionstatechange`: on `failed` or `closed` the connection is closed
     * (`closing` reports that `pc.close()` is called) and discarded; any other
     * state leaves the registry as it is. Discarding an absent id is a no-op.
     */
    method OnStateChange(id: ConnId, state: ConnectionState) returns (closing: bool)
      modifies this
      ensures closing <==> state == Failed || state == Closed
      ensures closing ==> pcs == old(pcs) - {id}
      ensures !closing ==> pcs == old(pcs)
      ensures pcs == Apply(old(pcs), StateChanged(id, state))
    {
      closing := IsTerminal(state);
      if closing {
        pcs := pcs - {id};
      }
    }

    /** `on_shutdown`: close every registered connection (`closed`), then clear the set. */
    method Shutdown() returns (closed: set<ConnId>)
      modifies this
      ensures closed == old(pcs)
      ensures pcs == {}
      ensures pcs == Apply(old(pcs), ShutDown)
    {
      closed := pcs;
      pcs := {};
    }
  }
}
