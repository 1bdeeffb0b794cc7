/** The trust half of a node's in-memory state (internal/node/state.go): who we trust, who trusts us,
    and whom we explicitly removed. The functions on TrustSets say what each operation means; the class
    State holds the maps and its methods are proved against those functions. */
module TrustState {
  type DeviceId = string

  /** The ids each of the three maps sends to true. */
  datatype TrustSets = TrustSets(trusted: set<DeviceId>, theyTrustUs: set<DeviceId>, removed: set<DeviceId>)

  /** What a trust signal asks of the caller, outside the state lock. */
  datatype TrustSignalOutcome = TrustSignalOutcome(reassertRemoval: bool, dismissPending: bool, cascadeUntrust: bool)

  const EMPTY_TRUST := TrustSets({}, {}, {})

  /** No id is trusted and explicitly removed at once. */
  predicate Consistent(t: TrustSets) {
    t.trusted !! t.removed
  }

  function AfterTrust(t: TrustSets, id: DeviceId): TrustSets {
    t.(trusted := t.trusted + {id}, removed := t.removed - {id})
  }

  function AfterUntrust(t: TrustSets, id: DeviceId): TrustSets {
    TrustSets(t.trusted - {id}, t.theyTrustUs - {id}, t.removed + {id})
  }

  function AfterSetTheyTrustUs(t: TrustSets, id: DeviceId, v: bool): TrustSets {
    t.(theyTrustUs := if v then t.theyTrustUs + {id} else t.theyTrustUs - {id})
  }

  function SignalOutcome(t: TrustSets, id: DeviceId, trusted: bool): TrustSignalOutcome {
    if trusted then
      TrustSignalOutcome(id in t.removed, false, false)
    else
      TrustSignalOutcome(false, id in t.theyTrustUs, id in t.theyTrustUs && id in t.trusted)
  }

  /** The devices of a Syncthing device list that a reconcile may newly trust. */
  function Admitted(t: TrustSets, devices: seq<DeviceId>, selfID: DeviceId): set<DeviceId> {
    set id | id in devices && id != selfID && id !in t.trusted && id !in t.removed
  }

  function AfterReconcile(t: TrustSets, devices: seq<DeviceId>, introduced: set<DeviceId>,
                          selfID: DeviceId): TrustSets
  {
    var admitted := Admitted(t, devices, selfID);
    t.(trusted := t.trusted + admitted, theyTrustUs := t.theyTrustUs + admitted * introduced)
  }

  /** One more list entry changes the reconciled sets exactly as the loop body changes the maps. */
  lemma ReconcileOneMore(t: TrustSets, devices: seq<DeviceId>, d: DeviceId, introduced: set<DeviceId>, selfID: DeviceId)
    ensures var r := AfterReconcile(t, devices, introduced, selfID);
            var admit := d != selfID && d !in r.trusted && d !in r.removed;
            AfterReconcile(t, devices + [d], introduced, selfID)
            == TrustSets(if admit then r.trusted + {d} else r.trusted,
                         if admit && d in introduced then r.theyTrustUs + {d} else r.theyTrustUs,
                         r.removed)
  {
    var admit := d != selfID && d !in t.trusted && d !in t.removed;
    assert Admitted(t, devices + [d], selfID) == Admitted(t, devices, selfID) + if admit then {d} else {};
  }

  function TrueIds(m: map<DeviceId, bool>): set<DeviceId> {
    set id | id in m && m[id]
  }

  /** An entry of Syncthing's device list. */
  datatype DeviceName = DeviceName(id: DeviceId, name: string)

  function IdsOf(devices: seq<DeviceName>): (ids: seq<DeviceId>)
    ensures |ids| == |devices| && forall i :: 0 <= i < |ids| ==> ids[i] == devices[i].id
  {
    seq(|devices|, i requires 0 <= i < |devices| => devices[i].id)
  }

  /** The name of id once the list has been gone through: a name already known stays, otherwise the first name listed
      counts. */
  function NameAfter(known: string, devices: seq<DeviceName>, id: DeviceId): string
    decreases |devices|
  {
    if devices == [] then known else
    var last := devices[|devices| - 1];
    var before := NameAfter(known, devices[..|devices| - 1], id);
    if before == "" && last.id == id then last.name else before
  }

  function GetName(names: map<DeviceId, string>, id: DeviceId): string {
    if id in names then names[id] else ""
  }

  /** After the list every peer but ourselves has the name it ought to have, and we keep ours. */
  ghost predicate Named(known: map<DeviceId, string>, names: map<DeviceId, string>, devices: seq<DeviceName>,
                        selfID: DeviceId)
  {
    forall id ::
      GetName(names, id) == if id == selfID then GetName(known, id) else NameAfter(GetName(known, id), devices, id)
  }

  function Seeded(names: map<DeviceId, string>, d: DeviceName): map<DeviceId, string> {
    if d.name != "" && GetName(names, d.id) == "" then names[d.id := d.name] else names
  }

  lemma NamedOneMore(known: map<DeviceId, string>, names: map<DeviceId, string>, devices: seq<DeviceName>,
                     d: DeviceName, selfID: DeviceId)
    requires Named(known, names, devices, selfID)
    ensures Named(known, if d.id == selfID then names else Seeded(names, d), devices + [d], selfID)
  {
    assert (devices + [d])[..|devices|] == devices;
  }

  class State {
    var trustedIDs: map<DeviceId, bool>
    var theyTrustUs: map<DeviceId, bool>
    var explicitlyRemoved: map<DeviceId, bool>
    var peerNames: map<DeviceId, string>

    function View(): TrustSets
      reads this
    {
      TrustSets(TrueIds(trustedIDs), TrueIds(theyTrustUs), TrueIds(explicitlyRemoved))
    }

    constructor ()
      ensures View() == EMPTY_TRUST
    {
      trustedIDs, theyTrustUs, explicitlyRemoved, peerNames := map[], map[], map[], map[];
    }

    predicate IsTrusted(id: DeviceId)
      reads this
      ensures IsTrusted(id) <==> id in View().trusted
    {
      id in trustedIDs && trustedIDs[id]
    }

    predicate IsMutuallyTrusted(id: DeviceId)
      reads this
      ensures IsMutuallyTrusted(id) <==> id in View().trusted * View().theyTrustUs
    {
      IsTrusted(id) && id in theyTrustUs && theyTrustUs[id]
    }

    predicate IsExplicitlyRemoved(id: DeviceId)
      reads this
      ensures IsExplicitlyRemoved(id) <==> id in View().removed
    {
      id in explicitlyRemoved && explicitlyRemoved[id]
    }

    method Trust(id: DeviceId)
      modifies this
      ensures View() == AfterTrust(old(View()), id)
      ensures old(Consistent(View())) ==> Consistent(View())
    {
      trustedIDs := trustedIDs[id := true];
      explicitlyRemoved := explicitlyRemoved - {id};
    }

    method Untrust(id: DeviceId)
      modifies this
      ensures View() == AfterUntrust(old(View()), id)
      ensures old(Consistent(View())) ==> Consistent(View())
    {
      trustedIDs := trustedIDs - {id};
      theyTrustUs := theyTrustUs - {id};
      explicitlyRemoved := explicitlyRemoved[id := true];
    }

    method SetTheyTrustUs(id: DeviceId, v: bool)
      modifies this
      ensures View() == AfterSetTheyTrustUs(old(View()), id, v)
    {
      theyTrustUs := if v then theyTrustUs[id := true] else theyTrustUs - {id};
    }

    method OnPeerTrustSignal(id: DeviceId, trusted: bool) returns (out: TrustSignalOutcome)
      modifies this
      ensures View() == AfterSetTheyTrustUs(old(View()), id, trusted)
      ensures out == SignalOutcome(old(View()), id, trusted)
    {
      out := TrustSignalOutcome(false, false, false);
      if trusted {
        theyTrustUs := theyTrustUs[id := true];
        return out.(reassertRemoval := IsExplicitlyRemoved(id));
      }
      var hadTrust := id in theyTrustUs && theyTrustUs[id];
      theyTrustUs := theyTrustUs - {id};
      if hadTrust {
        out := out.(dismissPending := true, cascadeUntrust := IsTrusted(id));
      }
    }

    /** The device list is processed one entry at a time; the result does not depend on its order or on
        repeated entries, because AfterReconcile speaks of the list only as a set. */
    method ReconcileTrust(devices: seq<DeviceName>, introduced: set<DeviceId>, selfID: DeviceId)
      returns (toRemove: set<DeviceId>)
      modifies this
      ensures View() == AfterReconcile(old(View()), IdsOf(devices), introduced, selfID)
      ensures old(Consistent(View())) ==> Consistent(View())
      ensures toRemove == set id | id in old(View()).removed && id in IdsOf(devices) && id != selfID
      ensures Named(old(peerNames), peerNames, devices, selfID)
    {
      ghost var before, known := View(), peerNames;
      for i := 0 to |devices|
        invariant View() == AfterReconcile(before, IdsOf(devices[..i]), introduced, selfID)
        invariant Named(known, peerNames, devices[..i], selfID)
      {
        var d := devices[i];
        assert devices[..i + 1] == devices[..i] + [d];
        assert IdsOf(devices[..i + 1]) == IdsOf(devices[..i]) + [d.id];
        NamedOneMore(known, peerNames, devices[..i], d, selfID);
        ReconcileOneMore(before, IdsOf(devices[..i]), d.id, introduced, selfID);
        if d.id != selfID {
          Admit(d.id, d.id in introduced);
          SeedName(d);
        }
      }
      assert devices[..|devices|] == devices;
      toRemove := set id | id in explicitlyRemoved && explicitlyRemoved[id] && id in IdsOf(devices) && id != selfID;
    }

    /** A listed device that we neither trust nor removed becomes trusted, mutually if it was introduced. */
    method Admit(id: DeviceId, introduced: bool)
      modifies this`trustedIDs, this`theyTrustUs
      ensures var t := old(View());
              var admit := id !in t.trusted && id !in t.removed;
              View() == t.(trusted := if admit then t.trusted + {id} else t.trusted,
                           theyTrustUs := if admit && introduced then t.theyTrustUs + {id} else t.theyTrustUs)
    {
      if !IsTrusted(id) && !IsExplicitlyRemoved(id) {
        trustedIDs := trustedIDs[id := true];
        if introduced {
          theyTrustUs := theyTrustUs[id := true];
        }
      }
    }

    method SeedName(d: DeviceName)
      modifies this`peerNames
      ensures peerNames == Seeded(old(peerNames), d)
    {
      if d.name != "" && GetName(peerNames, d.id) == "" {
        peerNames := peerNames[d.id := d.name];
      }
    }
  }

  /** A reconcile newly trusts exactly the listed ids that are not ourselves and were not removed, and counts a newly
      trusted one as mutual exactly if it was introduced. It takes nothing away and removes nobody. */
  lemma ReconcileAdmits(t: TrustSets, devices: seq<DeviceId>, introduced: set<DeviceId>, selfID: DeviceId, id: DeviceId)
    ensures var r := AfterReconcile(t, devices, introduced, selfID);
            var admitted := id in devices && id != selfID && id !in t.trusted && id !in t.removed;
            && (id in r.trusted <==> id in t.trusted || admitted)
            && (id in r.theyTrustUs <==> id in t.theyTrustUs || (admitted && id in introduced))
            && r.removed == t.removed
  {
  }

  /** A name that is known stays, and an id without a listed name gets none. */
  lemma {:induction false} NothingToName(known: string, devices: seq<DeviceName>, id: DeviceId)
    requires known != "" || forall i :: 0 <= i < |devices| && devices[i].id == id ==> devices[i].name == ""
    ensures NameAfter(known, devices, id) == known
    decreases |devices|
  {
    if devices != [] {
      NothingToName(known, devices[..|devices| - 1], id);
    }
  }

  /** An id without a name gets the first name listed for it. */
  lemma {:induction false} FirstNameCounts(devices: seq<DeviceName>, id: DeviceId, i: nat)
    requires i < |devices| && devices[i].id == id && devices[i].name != ""
    requires forall j :: 0 <= j < i && devices[j].id == id ==> devices[j].name == ""
    ensures NameAfter("", devices, id) == devices[i].name
    decreases |devices|
  {
    var front := devices[..|devices| - 1];
    if i < |front| {
      FirstNameCounts(front, id, i);
    } else {
      NothingToName("", front, id);
    }
  }
}
