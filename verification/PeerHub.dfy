/** The table of outbound peer connections (internal/peerwire/hub.go). A connection starts under a temporary key
    and moves to the real device ID once the peer's certificate is known. Sockets and goroutines are not part of
    this model; they only flip the flags of a connection. */
module PeerHub {
  class PeerConn {
    var deviceID: string
    const addr: string
    const port: int
    var remoteDeviceID: string
    var connected: bool
    var closed: bool
    var nudged: bool

    constructor (deviceID: string, addr: string, port: int)
      ensures this.deviceID == deviceID && this.addr == addr && this.port == port
      ensures remoteDeviceID == "" && !connected && !closed && !nudged
    {
      this.deviceID, this.addr, this.port := deviceID, addr, port;
      remoteDeviceID, connected, closed, nudged := "", false, false, false;
    }

    method Nudge()
      modifies this`nudged
      ensures nudged
    {
      nudged := true;
    }

    method Close()
      modifies this`closed
      ensures closed
    {
      closed := true;
    }
  }

  class Hub {
    var conns: map<string, PeerConn>
    /** Every connection ever started. */
    ghost var started: set<PeerConn>
    /** Connections that were pushed out of the table without being closed. */
    ghost var orphans: set<PeerConn>

    predicate InTable(c: PeerConn)
      reads this, c
    {
      c.deviceID in conns && conns[c.deviceID] == c
    }

    /** Every entry's key is its connection's ID, and the open connections are those in the table and the orphans. */
    ghost predicate Valid()
      reads this, started
    {
      && (forall k :: k in conns ==> conns[k] in started && conns[k].deviceID == k)
      && (forall c :: c in orphans ==> c in started && !InTable(c))
      && (forall c :: c in started ==> (!c.closed <==> InTable(c) || c in orphans))
    }

    /** The connection under id, if there is one and it is up. */
    predicate Live(id: string)
      reads this, conns.Values
    {
      id in conns && conns[id].connected
    }

    /** Nothing the table does to other entries can touch the live connection of id. */
    twostate predicate KeepsLive(id: string)
      reads this, conns.Values
    {
      old(Live(id)) ==> id in conns && conns[id] == old(conns[id]) && conns[id].connected
    }

    constructor ()
      ensures Valid() && conns == map[] && started == {} && orphans == {}
    {
      conns, started, orphans := map[], {}, {};
    }

    method Start(key: string, addr: string, port: int)
      requires Valid() && key !in conns
      modifies this`conns, this`started
      ensures Valid() && key in conns && fresh(conns[key])
      ensures conns == old(conns)[key := conns[key]] && started == old(started) + {conns[key]}
      ensures conns[key].addr == addr && conns[key].port == port
      ensures !conns[key].connected && conns[key].remoteDeviceID == ""
    {
      var c := new PeerConn(key, addr, port);
      conns := conns[key := c];
      started := started + {c};
    }

    /** Closes the connection under key and takes it out of the table. */
    method Remove(key: string)
      requires Valid() && key in conns
      modifies this`conns, {conns[key]}`closed
      ensures Valid()
      ensures conns == old(conns) - {key} && old(conns[key]).closed
    {
      conns[key].Close();
      conns := conns - {key};
    }

    /** A live connection wins over any new address; one in backoff to the same target is nudged; any other is
        closed and replaced. */
    method Connect(deviceID: string, addr: string, port: int)
      requires Valid()
      modifies this`conns, this`started, conns.Values`closed, conns.Values`nudged
      ensures Valid() && KeepsLive(deviceID)
      ensures var keep := deviceID in old(conns)
                          && (old(conns[deviceID].connected)
                              || (old(conns)[deviceID].addr == addr && old(conns)[deviceID].port == port));
              if keep then conns == old(conns) && started == old(started)
              else deviceID in conns && fresh(conns[deviceID]) && conns == old(conns)[deviceID := conns[deviceID]]
                   && conns[deviceID].addr == addr && conns[deviceID].port == port && !conns[deviceID].connected
                   && started == old(started) + {conns[deviceID]}
      ensures deviceID in old(conns) && old(conns)[deviceID] != conns[deviceID] ==> old(conns)[deviceID].closed
      ensures deviceID in old(conns) && !old(conns[deviceID].connected) && conns == old(conns) ==>
                conns[deviceID].nudged
    {
      if deviceID in conns {
        var c := conns[deviceID];
        if c.connected {
          return;
        }
        if c.addr == addr && c.port == port {
          c.Nudge();
          return;
        }
        Remove(deviceID);
      }
      Start(deviceID, addr, port);
    }

    /** One connection per endpoint: a new one starts only if sid has no live connection and no entry, live or in
        backoff, leads to addr and port. */
    method ConnectBySID(sid: string, addr: string, port: int) returns (isNew: bool)
      requires Valid()
      modifies this`conns, this`started, conns.Values`closed, conns.Values`nudged
      ensures Valid() && KeepsLive(sid)
      ensures isNew <==> !(sid in old(conns) && old(conns[sid].connected))
                         && forall k :: k in old(conns) ==> old(conns)[k].addr != addr || old(conns)[k].port != port
      ensures !isNew ==> conns == old(conns) && started == old(started)
      ensures !isNew && !(sid in old(conns) && old(conns[sid].connected)) ==>
                exists k :: k in conns && conns[k].addr == addr && conns[k].port == port
                            && (conns[k].connected || conns[k].nudged)
      ensures isNew ==> sid in conns && fresh(conns[sid]) && conns == old(conns)[sid := conns[sid]]
                        && conns[sid].addr == addr && conns[sid].port == port && started == old(started) + {conns[sid]}
    {
      if sid in conns && conns[sid].connected {
        return false;
      }
      var todo := conns.Keys;
      while todo != {}
        invariant todo <= conns.Keys
        invariant forall k :: k in conns && k !in todo ==> conns[k].addr != addr || conns[k].port != port
        decreases todo
      {
        var k :| k in todo;
        var c := conns[k];
        if c.addr == addr && c.port == port {
          if !c.connected {
            c.Nudge();
          }
          return false;
        }
        todo := todo - {k};
      }
      if sid in conns {
        Remove(sid);
      }
      Start(sid, addr, port);
      return true;
    }

    /** Closes the connection of a session that stopped announcing. Under a session id the device may already be
        known from its certificate; then a trusted device stays. */
    method DropUntrustedSID(sid: string, isTrusted: string -> bool)
      requires Valid()
      modifies this`conns, conns.Values`closed
      ensures Valid()
      ensures var keep := sid !in old(conns)
                          || (var id := old(conns[sid].remoteDeviceID); id != "" && id != sid && isTrusted(id));
              if keep then conns == old(conns) else conns == old(conns) - {sid} && old(conns)[sid].closed
    {
      if sid !in conns {
        return;
      }
      var c := conns[sid];
      var devID := c.remoteDeviceID;
      if devID == "" {
        devID := c.deviceID;
      }
      if devID != "" && devID != sid && isTrusted(devID) {
        return;
      }
      Remove(sid);
    }

    /** Moves the connection under oldKey to the device's real ID. A live connection of that device wins and the
        newcomer is closed. A connection of that device in backoff is replaced without being closed: it is the
        one way a connection leaves the table open. */
    method AdoptConn(oldKey: string, deviceID: string)
      requires Valid()
      modifies this`conns, this`orphans, conns.Values`closed, conns.Values`deviceID
      ensures Valid() && KeepsLive(deviceID)
      ensures var idle := oldKey == deviceID || oldKey == "" || deviceID == "" || oldKey !in old(conns);
              var up := deviceID in old(conns) && old(conns[deviceID].connected);
              && (idle ==> conns == old(conns))
              && (!idle && up ==> conns == old(conns) - {oldKey} && old(conns)[oldKey].closed)
              && (!idle && !up ==> conns == (old(conns) - {oldKey})[deviceID := old(conns)[oldKey]])
              && orphans == old(orphans) + (if !idle && !up && deviceID in old(conns)
                                            then {old(conns)[deviceID]} else {})
      ensures forall k :: k in old(conns) && k != oldKey ==> old(conns)[k].deviceID == k
    {
      if oldKey == deviceID || oldKey == "" || deviceID == "" || oldKey !in conns {
        return;
      }
      var c := conns[oldKey];
      if deviceID in conns && conns[deviceID].connected {
        Remove(oldKey);
        return;
      }
      if deviceID in conns {
        orphans := orphans + {conns[deviceID]};
      }
      conns := (conns - {oldKey})[deviceID := c];
      c.deviceID := deviceID;
    }

    /** Whether the entry under key may be the device that called us from addr. */
    predicate MayBe(key: string, addr: string, deviceID: string)
      reads this, conns.Values
    {
      key in conns && conns[key].addr == addr && conns[key].remoteDeviceID in {"", deviceID}
    }

    /** Moves some connection to addr that is not known to be another device, if deviceID has no entry yet. */
    method AdoptConnByAddr(addr: string, deviceID: string)
      requires Valid()
      modifies this`conns, conns.Values`deviceID
      ensures Valid() && KeepsLive(deviceID)
      ensures addr == "" || deviceID == "" || deviceID in old(conns) || (forall k :: !old(MayBe(k, addr, deviceID))) ==>
                conns == old(conns)
      ensures forall k :: k in old(conns) && (old(conns)[k].addr != addr
                                              || old(conns[k].remoteDeviceID) !in {"", deviceID}) ==>
                            k in conns && conns[k] == old(conns)[k]
      ensures addr != "" && deviceID != ""
              && (exists k :: k in old(conns) && old(conns)[k].addr == addr
                              && old(conns[k].remoteDeviceID) in {"", deviceID}) ==>
                deviceID in conns
      ensures addr != "" && deviceID != "" && (exists k :: old(MayBe(k, addr, deviceID))) ==>
                deviceID in conns
                && (deviceID !in old(conns) ==>
                      exists k :: old(MayBe(k, addr, deviceID))
                                  && conns == (old(conns) - {k})[deviceID := old(conns)[k]])
    {
      if addr == "" || deviceID == "" {
        return;
      }
      if deviceID in conns {
        return;
      }
      var todo := conns.Keys;
      while todo != {}
        invariant todo <= conns.Keys
        invariant forall k :: k !in todo ==> !MayBe(k, addr, deviceID)
        decreases todo
      {
        var key :| key in todo;
        var c := conns[key];
        if c.addr == addr {
          var remID := c.remoteDeviceID;
          if remID == "" || remID == deviceID {
            assert old(MayBe(key, addr, deviceID));
            conns := (conns - {key})[deviceID := c];
            c.deviceID := deviceID;
            return;
          }
        }
        todo := todo - {key};
      }
      forall k | k in conns && conns[k].addr == addr ensures conns[k].remoteDeviceID !in {"", deviceID} {
        assert !MayBe(k, addr, deviceID);
      }
    }

    method Disconnect(deviceID: string)
      requires Valid()
      modifies this`conns, conns.Values`closed
      ensures Valid() && conns == old(conns) - {deviceID}
      ensures deviceID in old(conns) ==> old(conns)[deviceID].closed
    {
      if deviceID in conns {
        Remove(deviceID);
      } else {
        assert conns == conns - {deviceID};
      }
    }

    /** Closes every connection but those of keepIDs; of the connections ever started only these and the orphans
        remain open. */
    method DisconnectExcept(keepIDs: set<string>)
      requires Valid()
      modifies this`conns, conns.Values`closed
      ensures Valid() && conns == map k | k in old(conns) && k in keepIDs :: old(conns)[k]
      ensures forall c :: c in started && !c.closed ==> c in orphans || c.deviceID in keepIDs
    {
      var todo := conns.Keys;
      while todo != {}
        invariant Valid()
        invariant todo <= conns.Keys <= old(conns).Keys
        invariant forall k :: k in conns ==> conns[k] == old(conns)[k]
        invariant forall k :: k in old(conns) && (k in todo || k in keepIDs) ==> k in conns
        invariant forall k :: k in conns && k !in todo ==> k in keepIDs
        decreases todo
      {
        var k :| k in todo;
        assert conns[k] in old(conns).Values;
        if k !in keepIDs {
          Remove(k);
        }
        todo := todo - {k};
      }
    }

    /** What going to the background relies on. It does not reach the orphans. */
    method DisconnectAll()
      requires Valid()
      modifies this`conns, conns.Values`closed
      ensures Valid() && conns == map[]
      ensures forall c :: c in started ==> (!c.closed <==> c in orphans)
    {
      DisconnectExcept({});
    }

    // --- What a connection's own goroutine does ---

    method ConnectionChanges(c: PeerConn, connected: bool)
      requires Valid() && c in started
      modifies c`connected
      ensures Valid() && c.connected == connected
    {
      c.connected := connected;
    }

    /** The TLS handshake tells the peer's identity; the connection then asks for the entry under its key to be adopted.
        That is itself as long as it is in the table; an orphan may move another connection's entry. */
    method IdentityVerified(c: PeerConn, remoteDeviceID: string)
      requires Valid() && c in started
      modifies this`conns, this`orphans, conns.Values`closed, conns.Values`deviceID, c`remoteDeviceID
      ensures Valid() && KeepsLive(remoteDeviceID) && c.remoteDeviceID == remoteDeviceID
      ensures old(InTable(c)) && remoteDeviceID != "" && old(c.deviceID) !in {"", remoteDeviceID} ==>
                && (c.closed <==> remoteDeviceID in old(conns) && old(conns[remoteDeviceID].connected))
                && conns == if c.closed then old(conns) - {old(c.deviceID)}
                            else (old(conns) - {old(c.deviceID)})[remoteDeviceID := c]
      ensures var key := old(c.deviceID);
              var idle := key == remoteDeviceID || key == "" || remoteDeviceID == "" || key !in old(conns);
              var up := remoteDeviceID in old(conns) && old(conns[remoteDeviceID].connected);
              && conns == (if idle then old(conns)
                           else if up then old(conns) - {key}
                           else (old(conns) - {key})[remoteDeviceID := old(conns)[key]])
              && orphans == old(orphans) + (if !idle && !up && remoteDeviceID in old(conns)
                                            then {old(conns)[remoteDeviceID]} else {})
    {
      c.remoteDeviceID := remoteDeviceID;
      if c.deviceID != remoteDeviceID {
        AdoptConn(c.deviceID, remoteDeviceID);
        assert remoteDeviceID in conns && conns[remoteDeviceID] == c ==> InTable(c);
      }
    }
  }

  /** In a valid table every connection sits under one key only. */
  lemma OneKeyPerConnection(h: Hub, j: string, k: string)
    requires h.Valid() && j in h.conns && k in h.conns && h.conns[j] == h.conns[k]
    ensures j == k
  {
    assert h.conns[j].deviceID == j;
  }

  /** A device in backoff at an old address is heard again under a session id; adoption orphans the old connection. */
  method MakeOrphan(device: string, sid: string, before: string, after: string)
    returns (h: Hub, first: PeerConn, second: PeerConn)
    requires device != sid && device != "" && sid != "" && before != after
    ensures fresh(h) && fresh(first) && fresh(second) && h.Valid() && h.conns == map[device := second]
    ensures first in h.orphans && first.deviceID == device && !h.InTable(first)
  {
    h, first, second := HearTwice(device, sid, before, after);
    h.AdoptConn(sid, device);
  }

  method HearTwice(device: string, sid: string, before: string, after: string)
    returns (h: Hub, first: PeerConn, second: PeerConn)
    requires device != sid && before != after
    ensures fresh(h) && fresh(first) && fresh(second) && h.Valid()
    ensures h.conns == map[device := first, sid := second] && !first.connected
  {
    h := new Hub();
    h.Connect(device, before, 8384);
    first := h.conns[device];
    var isNew := h.ConnectBySID(sid, after, 8384);
    second := h.conns[sid];
  }

  /** Even disconnecting everything leaves an orphan open. */
  method OrphanOutlivesDisconnectAll(device: string, sid: string, before: string, after: string)
    returns (inTable: bool, closed: bool)
    requires device != sid && device != "" && sid != "" && before != after
    ensures !inTable && !closed
  {
    var h, first, second := MakeOrphan(device, sid, before, after);
    h.DisconnectAll();
    inTable := h.InTable(first);
    closed := first.closed;
  }

  /** Nor is an orphan harmless. When its old address is taken over by another device, its handshake moves the
      connection that replaced it, and the device it belonged to has no entry any more. */
  method OrphanMovesItsReplacement(device: string, sid: string, other: string, before: string, after: string)
    returns (moved: bool, lost: bool)
    requires device != sid && device != "" && sid != "" && before != after && other !in {"", device}
    ensures moved && lost
  {
    var h, first, second := MakeOrphan(device, sid, before, after);
    h.IdentityVerified(first, other);
    moved := other in h.conns && h.conns[other] == second;
    lost := device !in h.conns;
  }
}
