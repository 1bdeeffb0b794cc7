/** One node's part in folder membership (internal/api/folders.go, internal/api/folder_state.go and the folder
    callbacks of internal/api/handlers.go). A node's Syncthing configuration lists, for each folder it has, the
    participating devices, itself included. Syncthing calls succeed. */
module FolderConfig {
  type DeviceId = string
  type FolderId = string
  type Config = map<FolderId, seq<DeviceId>>

  /** A FolderRemove names the device to remove, or nobody when the receiver itself is removed. */
  datatype Message = FolderRemove(folder: FolderId, target: DeviceId) | FolderDecline(folder: FolderId)

  datatype Packet = Packet(src: DeviceId, dst: DeviceId, msg: Message)

  datatype Reaction = Reaction(config: Config, sent: seq<Packet>)

  function Except(devices: seq<DeviceId>, d: DeviceId): (r: seq<DeviceId>)
    ensures forall x :: x in r <==> x in devices && x != d
  {
    if devices == [] then []
    else if devices[0] == d then Except(devices[1..], d)
    else [devices[0]] + Except(devices[1..], d)
  }

  /** The participants of a folder other than the node itself; none if it does not have the folder. */
  function Participants(self: DeviceId, c: Config, f: FolderId): seq<DeviceId> {
    if f in c then Except(c[f], self) else []
  }

  function WithoutDevice(c: Config, f: FolderId, d: DeviceId): Config {
    if f in c then c[f := Except(c[f], d)] else c
  }

  /** A peer is heeded only if we trust it or it takes part in the folder. */
  predicate Heeded(self: DeviceId, trusted: bool, c: Config, f: FolderId, peer: DeviceId) {
    trusted || peer in Participants(self, c, f)
  }

  function OnFolderRemove(self: DeviceId, trusted: bool, c: Config, peer: DeviceId, f: FolderId,
                          target: DeviceId): Config
  {
    if !Heeded(self, trusted, c, f, peer) then c
    else if target != "" then WithoutDevice(c, f, target)
    else
      var c' := WithoutDevice(c, f, peer);
      if Participants(self, c', f) == [] then c' - {f} else c'
  }

  function OnFolderDecline(self: DeviceId, trusted: bool, c: Config, peer: DeviceId, f: FolderId): Config {
    if !Heeded(self, trusted, c, f, peer) then c else WithoutDevice(c, f, peer)
  }

  function Receive(self: DeviceId, trusted: bool, c: Config, peer: DeviceId, msg: Message): Config {
    match msg
    case FolderRemove(f, target) => OnFolderRemove(self, trusted, c, peer, f, target)
    case FolderDecline(f) => OnFolderDecline(self, trusted, c, peer, f)
  }

  /** One message to each of the devices. */
  function ToAll(self: DeviceId, devices: seq<DeviceId>, msg: Message): (sent: seq<Packet>)
    ensures forall p :: p in sent <==> p.src == self && p.dst in devices && p.msg == msg
  {
    if devices == [] then [] else [Packet(self, devices[0], msg)] + ToAll(self, devices[1..], msg)
  }

  function Leave(self: DeviceId, c: Config, f: FolderId): Reaction {
    Reaction(c - {f}, ToAll(self, Participants(self, c, f), FolderRemove(f, self)))
  }

  function RemoveMember(self: DeviceId, c: Config, f: FolderId, d: DeviceId): Reaction {
    Reaction(WithoutDevice(c, f, d),
             [Packet(self, d, FolderRemove(f, ""))]
             + ToAll(self, Except(Participants(self, c, f), d), FolderRemove(f, d)))
  }

  function Decline(self: DeviceId, c: Config, f: FolderId, inviter: DeviceId): Reaction {
    Reaction(c, [Packet(self, inviter, FolderDecline(f))])
  }

  /** What an unpaired peer's Cancelled does to one folder: the peer goes, and the remaining participants hear. */
  function Expel(self: DeviceId, c: Config, f: FolderId, d: DeviceId): Reaction {
    var c' := WithoutDevice(c, f, d);
    Reaction(c', ToAll(self, Participants(self, c', f), FolderRemove(f, d)))
  }

  lemma {:induction false} ExceptSplit(devices: seq<DeviceId>, i: nat, d: DeviceId)
    requires i < |devices|
    ensures Except(devices[i..], d) == (if devices[i] == d then [] else [devices[i]]) + Except(devices[i + 1..], d)
  {
    assert devices[i..][1..] == devices[i + 1..];
  }

  lemma NotifyNext(self: DeviceId, devices: seq<DeviceId>, i: nat, skip: DeviceId, msg: Message, sent: seq<Packet>)
    requires i < |devices|
    ensures var sent' := if devices[i] == skip then sent else sent + [Packet(self, devices[i], msg)];
            sent + ToAll(self, Except(devices[i..], skip), msg)
            == sent' + ToAll(self, Except(devices[i + 1..], skip), msg)
  {
    ExceptSplit(devices, i, skip);
    var rest := Except(devices[i + 1..], skip);
    if devices[i] == skip {
      assert Except(devices[i..], skip) == rest;
    } else {
      assert Except(devices[i..], skip) == [devices[i]] + rest;
      assert ([devices[i]] + rest)[1..] == rest;
    }
  }

  class Node {
    const selfID: DeviceId
    var folders: Config
    var trusted: set<DeviceId>
    var outbox: seq<Packet>

    constructor (selfID: DeviceId, folders: Config, trusted: set<DeviceId>)
      ensures this.selfID == selfID && this.folders == folders && this.trusted == trusted && outbox == []
    {
      this.selfID, this.folders, this.trusted, outbox := selfID, folders, trusted, [];
    }

    method Notify(devices: seq<DeviceId>, skip: DeviceId, msg: Message)
      modifies this`outbox
      ensures outbox == old(outbox) + ToAll(selfID, Except(devices, skip), msg)
    {
      ghost var goal := outbox + ToAll(selfID, Except(devices, skip), msg);
      for i := 0 to |devices|
        invariant outbox + ToAll(selfID, Except(devices[i..], skip), msg) == goal
      {
        NotifyNext(selfID, devices, i, skip, msg, outbox);
        if devices[i] != skip {
          outbox := outbox + [Packet(selfID, devices[i], msg)];
        }
      }
      assert devices[|devices|..] == [];
    }

    /** Builds a fresh list rather than filtering in place. */
    method RemoveDeviceFromFolderInST(f: FolderId, d: DeviceId)
      modifies this`folders
      ensures folders == WithoutDevice(old(folders), f, d)
    {
      if f !in folders {
        return;
      }
      var devices := folders[f];
      var kept: seq<DeviceId> := [];
      for i := 0 to |devices|
        invariant folders == old(folders)
        invariant kept + Except(devices[i..], d) == Except(devices, d)
      {
        ExceptSplit(devices, i, d);
        if devices[i] != d {
          var rest := Except(devices[i + 1..], d);
          assert kept + ([devices[i]] + rest) == kept + [devices[i]] + rest;
          kept := kept + [devices[i]];
        }
      }
      assert devices[|devices|..] == [];
      assert kept == kept + Except(devices[|devices|..], d);
      folders := folders[f := kept];
    }

    method RemoveDeviceFromAllFolders(d: DeviceId)
      modifies this`folders
      ensures folders == map f | f in old(folders) ::
                           if d == selfID then old(folders)[f] else Except(old(folders)[f], d)
    {
      var todo := folders.Keys;
      while todo != {}
        invariant todo <= folders.Keys == old(folders).Keys
        invariant forall f :: f in todo ==> folders[f] == old(folders)[f]
        invariant forall f :: f in folders && f !in todo ==>
                                folders[f] == if d == selfID then old(folders)[f] else Except(old(folders)[f], d)
        decreases todo
      {
        var f :| f in todo;
        if d in Participants(selfID, folders, f) {
          RemoveDeviceFromFolderInST(f, d);
        } else if d != selfID {
          NothingToExcept(folders[f], d);
        }
        todo := todo - {f};
      }
    }

    method HandleFolderRemove(peer: DeviceId, f: FolderId, target: DeviceId)
      modifies this`folders
      ensures folders == OnFolderRemove(selfID, peer in trusted, old(folders), peer, f, target)
    {
      if peer !in trusted && peer !in Participants(selfID, folders, f) {
        return;
      }
      if target == "" {
        RemoveDeviceFromFolderInST(f, peer);
        if |Participants(selfID, folders, f)| == 0 {
          folders := folders - {f};
        }
      } else {
        RemoveDeviceFromFolderInST(f, target);
      }
    }

    method HandleFolderDecline(peer: DeviceId, f: FolderId)
      modifies this`folders
      ensures folders == OnFolderDecline(selfID, peer in trusted, old(folders), peer, f)
    {
      if peer !in trusted && peer !in Participants(selfID, folders, f) {
        return;
      }
      RemoveDeviceFromFolderInST(f, peer);
    }

    method RemoveFolder(f: FolderId)
      modifies this
      ensures var r := Leave(selfID, old(folders), f);
              folders == r.config && outbox == old(outbox) + r.sent
    {
      var participants := Participants(selfID, folders, f);
      ExceptTwice(if f in folders then folders[f] else [], selfID);
      Notify(participants, selfID, FolderRemove(f, selfID));
      folders := folders - {f};
    }

    method FolderRemoveDevice(f: FolderId, d: DeviceId)
      modifies this
      ensures var r := RemoveMember(selfID, old(folders), f, d);
              folders == r.config && outbox == old(outbox) + r.sent
    {
      var participants := Participants(selfID, folders, f);
      RemoveDeviceFromFolderInST(f, d);
      outbox := outbox + [Packet(selfID, d, FolderRemove(f, ""))];
      Notify(participants, d, FolderRemove(f, d));
    }

    method DeclineFolder(f: FolderId, inviter: DeviceId)
      modifies this
      ensures var r := Decline(selfID, old(folders), f, inviter);
              folders == r.config && outbox == old(outbox) + r.sent
    {
      outbox := outbox + [Packet(selfID, inviter, FolderDecline(f))];
    }
  }

  lemma {:induction false} NothingToExcept(devices: seq<DeviceId>, d: DeviceId)
    requires d !in devices
    ensures Except(devices, d) == devices
  {
    if devices != [] {
      NothingToExcept(devices[1..], d);
    }
  }

  lemma ExceptTwice(devices: seq<DeviceId>, d: DeviceId)
    ensures Except(Except(devices, d), d) == Except(devices, d)
  {
    NothingToExcept(Except(devices, d), d);
  }

  // --- What each operation comes to ---

  lemma {:induction false} ExceptKeepsOrder(front: seq<DeviceId>, back: seq<DeviceId>, d: DeviceId)
    ensures Except(front + back, d) == Except(front, d) + Except(back, d)
    ensures Except([d], d) == [] && forall x :: x != d ==> Except([x], d) == [x]
  {
    assert [d][1..] == [];
    if front == [] {
      assert front + back == back;
    } else {
      assert (front + back)[1..] == front[1..] + back;
      ExceptKeepsOrder(front[1..], back, d);
    }
  }

  /** The others of a folder are those it lists besides the node itself. */
  lemma ParticipantsIff(self: DeviceId, c: Config, f: FolderId, d: DeviceId)
    ensures d in Participants(self, c, f) <==> f in c && d in c[f] && d != self
  {
  }

  /** A kick from a heeded peer takes the peer out of the folder. The folder itself goes exactly if nobody else is left,
      and every other folder stays as it is. */
  lemma KickTakesOnlyTheKicker(self: DeviceId, trusted: bool, c: Config, peer: DeviceId, f: FolderId, g: FolderId)
    requires f in c && (trusted || (peer in c[f] && peer != self))
    ensures var c' := Receive(self, trusted, c, peer, FolderRemove(f, ""));
            && (f in c' <==> exists d :: d in c[f] && d != self && d != peer)
            && (f in c' ==> forall d :: d in c'[f] <==> d in c[f] && d != peer)
            && (g != f ==> (g in c' <==> g in c) && (g in c ==> c'[g] == c[g]))
  {
    var rest := Except(c[f], peer);
    if d :| d in c[f] && d != self && d != peer {
      assert d in Except(rest, self);
    }
    if Except(rest, self) != [] {
      assert Except(rest, self)[0] in Except(rest, self);
    }
  }

  /** A removal or a decline from a heeded peer takes its one device out of its one folder, which stays. */
  lemma RemovalTakesOnlyItsTarget(self: DeviceId, trusted: bool, c: Config, peer: DeviceId, f: FolderId,
                                  target: DeviceId, g: FolderId)
    requires f in c && (trusted || (peer in c[f] && peer != self)) && target != ""
    ensures var removed, declined := Receive(self, trusted, c, peer, FolderRemove(f, target)),
                                     Receive(self, trusted, c, peer, FolderDecline(f));
            && removed.Keys == declined.Keys == c.Keys
            && (forall d :: d in removed[f] <==> d in c[f] && d != target)
            && (forall d :: d in declined[f] <==> d in c[f] && d != peer)
            && (g in c && g != f ==> removed[g] == declined[g] == c[g])
  {
  }

  /** Whoever is neither trusted nor in the folder is not heeded at all. */
  lemma StrangersAreNotHeeded(self: DeviceId, c: Config, peer: DeviceId, msg: Message)
    requires var f := msg.folder; f !in c || peer !in c[f] || peer == self
    ensures Receive(self, false, c, peer, msg) == c
  {
  }

  /** Who is told what when a node leaves, removes a member, declines or expels. */
  lemma WhoIsTold(self: DeviceId, c: Config, f: FolderId, d: DeviceId, p: Packet)
    requires f in c
    ensures var other := p.dst in c[f] && p.dst != self;
            && (p in Leave(self, c, f).sent <==> other && p == Packet(self, p.dst, FolderRemove(f, self)))
            && (p in RemoveMember(self, c, f, d).sent <==>
                  p == Packet(self, d, FolderRemove(f, ""))
                  || (other && p.dst != d && p == Packet(self, p.dst, FolderRemove(f, d))))
            && (p in Decline(self, c, f, d).sent <==> p == Packet(self, d, FolderDecline(f)))
            && (p in Expel(self, c, f, d).sent <==>
                  other && p.dst != d && p == Packet(self, p.dst, FolderRemove(f, d)))
  {
    assert RemoveMember(self, c, f, d).sent
           == [Packet(self, d, FolderRemove(f, ""))]
              + ToAll(self, Except(Participants(self, c, f), d), FolderRemove(f, d));
  }
}
