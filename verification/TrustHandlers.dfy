/** How one node reacts to its user and to the wire (internal/api/pairing.go, internal/api/peers.go and the
    trust helpers of internal/api/handlers.go). Each reaction is a function from the node's trust sets to the
    new sets and the packets it sends; the class Handlers performs it step by step on a State object.
    The wire delivers a packet at most once, in any order, or not at all: see TrustProtocol. */
module TrustHandlers {
  import opened Options
  import opened TrustState

  /** Hello carries an optional trust bit: true, false, or nothing at all. */
  datatype Message = Hello(trusted: Option<bool>) | Cancelled | Accepted

  datatype Packet = Packet(src: DeviceId, dst: DeviceId, msg: Message)

  datatype Reaction = Reaction(trust: TrustSets, sent: seq<Packet>)

  function SayUntrusted(self: DeviceId, peer: DeviceId): Packet {
    Packet(self, peer, Hello(Some(false)))
  }

  function UntrustDevice(self: DeviceId, t: TrustSets, id: DeviceId): Reaction {
    Reaction(AfterUntrust(t, id), [SayUntrusted(self, id)])
  }

  function OnTrusted(self: DeviceId, t: TrustSets, peer: DeviceId, trusted: bool): Reaction {
    if peer == "" || peer == self then
      Reaction(t, [])
    else
      var out := SignalOutcome(t, peer, trusted);
      var heard := AfterSetTheyTrustUs(t, peer, trusted);
      if out.reassertRemoval then Reaction(heard, [SayUntrusted(self, peer)])
      else if out.cascadeUntrust then UntrustDevice(self, heard, peer)
      else Reaction(heard, [])
  }

  /** A peer that had trusted us takes it back: its request at Syncthing is dismissed. */
  predicate Withdrawn(self: DeviceId, t: TrustSets, peer: DeviceId, trusted: bool) {
    peer != "" && peer != self && SignalOutcome(t, peer, trusted).dismissPending
  }

  function OnCancelled(self: DeviceId, t: TrustSets, peer: DeviceId): Reaction {
    if peer in t.trusted then UntrustDevice(self, t, peer)
    else Reaction(AfterSetTheyTrustUs(t, peer, false), [])
  }

  function OnAccepted(t: TrustSets, peer: DeviceId): Reaction {
    Reaction(if peer in t.trusted then t else AfterTrust(t, peer), [])
  }

  /** The trust part of the hub's dispatch. */
  function React(self: DeviceId, t: TrustSets, peer: DeviceId, msg: Message): Reaction {
    match msg
    case Hello(None) => Reaction(t, [])
    case Hello(Some(v)) => OnTrusted(self, t, peer, v)
    case Cancelled => OnCancelled(self, t, peer)
    case Accepted => OnAccepted(t, peer)
  }

  /** The user pairs with id; the Hello states whether we trust id by then. */
  function UserPair(self: DeviceId, t: TrustSets, id: DeviceId): Reaction {
    if id in t.trusted then
      Reaction(t, [])
    else
      var t' := AfterTrust(t, id);
      Reaction(t', [Packet(self, id, Hello(Some(id in t'.trusted)))])
  }

  /** The user removes id from the device list. */
  function UserDelete(self: DeviceId, t: TrustSets, id: DeviceId): Reaction {
    var r := UntrustDevice(self, t, id);
    r.(sent := r.sent + [Packet(self, id, Cancelled)])
  }

  /** The trust bit of the Hello sent when a connection to peer comes up. Before the connection is adopted
      its key is a session id or an address, which no trust map contains. */
  function TrustBit(t: TrustSets, peer: DeviceId, adopted: bool): Option<bool> {
    if adopted && peer in t.trusted then Some(true)
    else if adopted && peer in t.removed then Some(false)
    else None
  }

  class Handlers {
    const selfID: DeviceId
    const state: State
    var outbox: seq<Packet>
    /** The devices whose pending request Syncthing was asked to dismiss. */
    var dismissed: seq<DeviceId>

    constructor (selfID: DeviceId, stDevices: seq<DeviceId>)
      ensures this.selfID == selfID && outbox == [] && dismissed == [] && fresh(state)
      ensures state.View() == EMPTY_TRUST.(trusted := set id | id in stDevices && id != selfID)
    {
      this.selfID := selfID;
      state := new State();
      outbox, dismissed := [], [];
      new;
      for i := 0 to |stDevices|
        invariant fresh(state)
        invariant outbox == [] && dismissed == []
        invariant state.View() == EMPTY_TRUST.(trusted := set id | id in stDevices[..i] && id != selfID)
      {
        if stDevices[i] != selfID {
          state.Trust(stDevices[i]);
        }
        assert stDevices[..i + 1] == stDevices[..i] + [stDevices[i]];
      }
      assert stDevices[..|stDevices|] == stDevices;
    }

    method Notify(peer: DeviceId, msg: Message)
      modifies this`outbox
      ensures outbox == old(outbox) + [Packet(selfID, peer, msg)]
    {
      outbox := outbox + [Packet(selfID, peer, msg)];
    }

    method Untrust(id: DeviceId)
      modifies this`outbox, state
      ensures var r := UntrustDevice(selfID, old(state.View()), id);
              state.View() == r.trust && outbox == old(outbox) + r.sent
    {
      state.Untrust(id);
      Notify(id, Hello(Some(false)));
    }

    method HandleTrusted(peer: DeviceId, trusted: bool)
      modifies this, state
      ensures var r := OnTrusted(selfID, old(state.View()), peer, trusted);
              state.View() == r.trust && outbox == old(outbox) + r.sent
      ensures dismissed == old(dismissed) + if Withdrawn(selfID, old(state.View()), peer, trusted) then [peer] else []
    {
      if peer == "" || peer == selfID {
        return;
      }
      var out := state.OnPeerTrustSignal(peer, trusted);
      if out.reassertRemoval {
        Notify(peer, Hello(Some(false)));
      }
      if out.dismissPending {
        dismissed := dismissed + [peer];
      }
      if out.cascadeUntrust {
        Untrust(peer);
      }
    }

    method HandleCancelled(peer: DeviceId)
      modifies this, state
      ensures var r := OnCancelled(selfID, old(state.View()), peer);
              state.View() == r.trust && outbox == old(outbox) + r.sent
      ensures dismissed == old(dismissed) + [peer]
    {
      if state.IsTrusted(peer) {
        Untrust(peer);
      } else {
        state.SetTheyTrustUs(peer, false);
      }
      dismissed := dismissed + [peer];
    }

    /** The user dismisses a request without accepting it. */
    method Dismiss(id: DeviceId)
      modifies this`dismissed, state
      ensures state.View() == AfterSetTheyTrustUs(old(state.View()), id, false) && dismissed == old(dismissed) + [id]
    {
      dismissed := dismissed + [id];
      state.SetTheyTrustUs(id, false);
    }

    method HandleAccepted(peer: DeviceId)
      modifies state
      ensures state.View() == OnAccepted(old(state.View()), peer).trust
    {
      if state.IsTrusted(peer) {
        return;
      }
      state.Trust(peer);
    }

    method Dispatch(peer: DeviceId, msg: Message)
      modifies this, state
      ensures var r := React(selfID, old(state.View()), peer, msg);
              state.View() == r.trust && outbox == old(outbox) + r.sent
    {
      match msg
      case Hello(None) =>
      case Hello(Some(v)) => HandleTrusted(peer, v);
      case Cancelled => HandleCancelled(peer);
      case Accepted => HandleAccepted(peer);
    }

    method Pair(id: DeviceId)
      modifies this`outbox, state
      ensures var r := UserPair(selfID, old(state.View()), id);
              state.View() == r.trust && outbox == old(outbox) + r.sent
    {
      if state.IsTrusted(id) {
        return;
      }
      state.Trust(id);
      var trusted := state.IsTrusted(id);
      Notify(id, Hello(Some(trusted)));
    }

    method Delete(id: DeviceId)
      modifies this`outbox, state
      ensures var r := UserDelete(selfID, old(state.View()), id);
              state.View() == r.trust && outbox == old(outbox) + r.sent
    {
      Untrust(id);
      Notify(id, Cancelled);
    }

    method SendHello(peer: DeviceId, adopted: bool)
      modifies this`outbox
      ensures outbox == old(outbox) + [Packet(selfID, peer, Hello(TrustBit(state.View(), peer, adopted)))]
    {
      if adopted && state.IsTrusted(peer) {
        Notify(peer, Hello(Some(true)));
      } else if adopted && state.IsExplicitlyRemoved(peer) {
        Notify(peer, Hello(Some(false)));
      } else {
        Notify(peer, Hello(None));
      }
    }
  }

  // --- What each reaction comes to, entry by entry ---

  /** A withdrawn request goes, and nothing else: its sender is not removed, so it may ask again. A trusted sender is
      removed and told so. */
  lemma ReactToCancelled(self: DeviceId, t: TrustSets, peer: DeviceId)
    ensures var r := React(self, t, peer, Cancelled);
            && r.trust.theyTrustUs == t.theyTrustUs - {peer}
            && (peer !in t.trusted ==>
                  r.trust.trusted == t.trusted && r.trust.removed == t.removed && r.sent == [])
            && (peer in t.trusted ==>
                  && r.trust.trusted == t.trusted - {peer} && r.trust.removed == t.removed + {peer}
                  && r.sent == [Packet(self, peer, Hello(Some(false)))])
  {
  }

  /** A peer that says it trusts us is believed; it changes neither our trust nor our removals, and is answered, with
      false, exactly if we have removed it. */
  lemma ReactToHelloTrue(self: DeviceId, t: TrustSets, peer: DeviceId)
    requires peer != "" && peer != self
    ensures var r := React(self, t, peer, Hello(Some(true)));
            && r.trust == TrustSets(t.trusted, t.theyTrustUs + {peer}, t.removed)
            && r.sent == (if peer in t.removed then [Packet(self, peer, Hello(Some(false)))] else [])
  {
  }

  /** A peer that says it does not trust us is believed. We untrust it, and answer with false, exactly if the trust was
      mutual; its request is dismissed exactly if it had trusted us, whether or not we trusted it. */
  lemma ReactToHelloFalse(self: DeviceId, t: TrustSets, peer: DeviceId)
    requires peer != "" && peer != self
    ensures var r := React(self, t, peer, Hello(Some(false)));
            var mutual := peer in t.trusted && peer in t.theyTrustUs;
            && r.trust == (if mutual then TrustSets(t.trusted - {peer}, t.theyTrustUs - {peer}, t.removed + {peer})
                           else TrustSets(t.trusted, t.theyTrustUs - {peer}, t.removed))
            && r.sent == (if mutual then [Packet(self, peer, Hello(Some(false)))] else [])
            && (Withdrawn(self, t, peer, false) <==> peer in t.theyTrustUs)
            && !Withdrawn(self, t, peer, true)
  {
  }

  /** An acceptance makes its sender trusted and forgets its removal; it says nothing of the sender's own trust. */
  lemma ReactToAccepted(self: DeviceId, t: TrustSets, peer: DeviceId)
    requires Consistent(t)
    ensures React(self, t, peer, Accepted)
            == Reaction(TrustSets(t.trusted + {peer}, t.theyTrustUs, t.removed - {peer}), [])
  {
  }

  /** Pairing, also with a device removed before, forgets the removal and greets it as trusted; pairing twice does
      nothing the second time. */
  lemma PairingRenews(self: DeviceId, t: TrustSets, id: DeviceId)
    requires Consistent(t)
    ensures var r := UserPair(self, t, id);
            && r.trust == TrustSets(t.trusted + {id}, t.theyTrustUs, t.removed - {id})
            && r.sent == (if id in t.trusted then [] else [Packet(self, id, Hello(Some(true)))])
            && UserPair(self, r.trust, id) == Reaction(r.trust, [])
  {
  }

  /** Deleting forgets all trust in both directions, whatever there was, and says so twice. */
  lemma DeletionForgets(self: DeviceId, t: TrustSets, id: DeviceId)
    ensures var r := UserDelete(self, t, id);
            && r.trust == TrustSets(t.trusted - {id}, t.theyTrustUs - {id}, t.removed + {id})
            && r.sent == [Packet(self, id, Hello(Some(false))), Packet(self, id, Cancelled)]
  {
  }

  /** A greeting claims trust only for a trusted peer and denies it only to a removed one; before the peer's identity is
      known it does neither. */
  lemma GreetingIsHonest(t: TrustSets, peer: DeviceId, adopted: bool)
    requires Consistent(t)
    ensures TrustBit(t, peer, adopted) == Some(true) <==> adopted && peer in t.trusted
    ensures TrustBit(t, peer, adopted) == Some(false) <==> adopted && peer in t.removed
  {
  }
}
