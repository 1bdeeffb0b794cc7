/** Folder membership across any number of nodes: every run of leaving, removing, declining and unpairing, with
    the messages delivered in any order. Nothing is shared again during a run. Whom a node trusts may change at
    any time. */
module FolderMembership {
  import opened FolderConfig
  import opened InFlight

  datatype Net = Net(configs: map<DeviceId, Config>, trust: map<DeviceId, set<DeviceId>>, wire: seq<Packet>)

  datatype Step =
    | Leaves(node: DeviceId, folder: FolderId)
    | Removes(node: DeviceId, folder: FolderId, member: DeviceId)
    | Declines(node: DeviceId, folder: FolderId, inviter: DeviceId)
    | Expels(node: DeviceId, folder: FolderId, member: DeviceId)
    | Forgets(node: DeviceId, folder: FolderId, member: DeviceId)
    | TrustChanges(node: DeviceId, trusted: set<DeviceId>)
    | Deliver(index: nat)
    | Lose(index: nat)

  predicate Enabled(s: Net, step: Step) {
    match step
    case Deliver(i) => i < |s.wire| && s.wire[i].dst in s.configs
    case Lose(i) => i < |s.wire|
    case _ => step.node in s.configs
  }

  predicate Trusts(s: Net, n: DeviceId, peer: DeviceId) {
    n in s.trust && peer in s.trust[n]
  }

  function Carry(s: Net, n: DeviceId, r: Reaction, rest: seq<Packet>): Net {
    s.(configs := s.configs[n := r.config], wire := rest + r.sent)
  }

  function Apply(s: Net, step: Step): Net {
    if !Enabled(s, step) then s else
    match step
    case Leaves(n, f) => Carry(s, n, Leave(n, s.configs[n], f), s.wire)
    case Removes(n, f, d) => Carry(s, n, RemoveMember(n, s.configs[n], f, d), s.wire)
    case Declines(n, f, inviter) => Carry(s, n, Decline(n, s.configs[n], f, inviter), s.wire)
    case Expels(n, f, d) => Carry(s, n, Expel(n, s.configs[n], f, d), s.wire)
    case Forgets(n, f, d) => Carry(s, n, Reaction(WithoutDevice(s.configs[n], f, d), []), s.wire)
    case TrustChanges(n, trusted) => s.(trust := s.trust[n := trusted])
    case Deliver(i) =>
      var p := s.wire[i];
      var c := Receive(p.dst, Trusts(s, p.dst, p.src), s.configs[p.dst], p.src, p.msg);
      Carry(s, p.dst, Reaction(c, []), Without(s.wire, i))
    case Lose(i) => s.(wire := Without(s.wire, i))
  }

  function Exec(s: Net, run: seq<Step>): Net
    decreases |run|
  {
    if run == [] then s else Exec(Apply(s, run[0]), run[1..])
  }

  /** Node n lists device d as a participant of folder f. */
  predicate Lists(s: Net, n: DeviceId, f: FolderId, d: DeviceId) {
    n in s.configs && f in s.configs[n] && d in s.configs[n][f]
  }

  // --- Membership only shrinks ---

  ghost predicate Within(s: Net, t: Net) {
    forall n, f, d :: Lists(s, n, f, d) ==> Lists(t, n, f, d)
  }

  lemma StepOnlyShrinks(s: Net, step: Step)
    ensures Within(Apply(s, step), s) && Apply(s, step).configs.Keys == s.configs.Keys
  {
  }

  /** No message, however stale or reordered, brings a device back into a folder. */
  lemma {:induction false} MembershipOnlyShrinks(s: Net, run: seq<Step>)
    ensures Within(Exec(s, run), s) && Exec(s, run).configs.Keys == s.configs.Keys
    decreases |run|
  {
    if run != [] {
      StepOnlyShrinks(s, run[0]);
      MembershipOnlyShrinks(Apply(s, run[0]), run[1..]);
    }
  }

  /** d's part in folder f at node n, or the whole folder there, is ended by something n itself does. */
  predicate EndsHere(step: Step, n: DeviceId, f: FolderId, d: DeviceId) {
    || step == Leaves(n, f)
    || step == Removes(n, f, d) || step == Expels(n, f, d) || step == Forgets(n, f, d)
  }

  /** A message that takes d out of folder f at its receiver: it names d, its sender d takes itself out, or it is a kick
      after which the receiver would be alone. */
  predicate Takes(s: Net, p: Packet, f: FolderId, d: DeviceId) {
    || p.msg == FolderRemove(f, d)
    || (p.src == d && (p.msg == FolderRemove(f, "") || p.msg == FolderDecline(f)))
    || (p.msg == FolderRemove(f, "") && p.dst in s.configs && f in s.configs[p.dst]
        && forall x :: x in s.configs[p.dst][f] ==> x == p.dst || x == p.src)
  }

  /** And nothing else is lost: a device drops out of a node's folder only by what that node does, or by a message it
      heeds that takes it out. */
  lemma NothingElseIsLost(s: Net, step: Step, n: DeviceId, f: FolderId, d: DeviceId)
    requires Lists(s, n, f, d) && !Lists(Apply(s, step), n, f, d)
    ensures EndsHere(step, n, f, d)
            || (step.Deliver? && Enabled(s, step) && s.wire[step.index].dst == n && Takes(s, s.wire[step.index], f, d)
                && Heeded(n, Trusts(s, n, s.wire[step.index].src), s.configs[n], f, s.wire[step.index].src))
  {
    if step.Deliver? {
      var p := s.wire[step.index];
      var c := s.configs[n];
      if p.msg == FolderRemove(f, "") && Heeded(n, Trusts(s, n, p.src), c, f, p.src) {
        KickTakesOnlyTheKicker(n, Trusts(s, n, p.src), c, p.src, f, f);
      }
    }
  }

  // --- A device that goes is forgotten ---

  /** Messages by which a sender takes itself out of the receiver's folder f. */
  predicate Withdraws(p: Packet, f: FolderId) {
    p.msg == FolderRemove(f, p.src) || p.msg == FolderRemove(f, "") || p.msg == FolderDecline(f)
  }

  ghost predicate OnItsWay(s: Net, a: DeviceId, d: DeviceId, f: FolderId) {
    exists p :: p in s.wire && p.src == a && p.dst == d && Withdraws(p, f)
  }

  /** d does not list a in f, or a message that will make it so is in flight. */
  ghost predicate Going(s: Net, a: DeviceId, d: DeviceId, f: FolderId) {
    !Lists(s, d, f, a) || OnItsWay(s, a, d, f)
  }

  /** A run that loses no withdrawal of a from d's folder f. */
  predicate Faithful(s: Net, run: seq<Step>, a: DeviceId, d: DeviceId, f: FolderId)
    decreases |run|
  {
    run == []
    || (&& (run[0].Lose? && Enabled(s, run[0]) ==>
              var p := s.wire[run[0].index]; !(p.src == a && p.dst == d && Withdraws(p, f)))
        && Faithful(Apply(s, run[0]), run[1..], a, d, f))
  }

  /** Whether the withdrawal is accepted or rejected, its receiver does not list the sender afterwards: it is
      rejected only by a node that does not. */
  lemma HandledWithdrawal(self: DeviceId, trusted: bool, c: Config, p: Packet, f: FolderId)
    requires p.src != self && p.src != "" && Withdraws(p, f)
    ensures var c' := Receive(self, trusted, c, p.src, p.msg);
            f in c' ==> p.src !in c'[f]
  {
  }

  lemma GoingStep(s: Net, step: Step, a: DeviceId, d: DeviceId, f: FolderId)
    requires a != d && a != "" && Going(s, a, d, f) && Faithful(s, [step], a, d, f)
    ensures Going(Apply(s, step), a, d, f)
  {
    var s' := Apply(s, step);
    StepOnlyShrinks(s, step);
    if Lists(s', d, f, a) {
      var p :| p in s.wire && p.src == a && p.dst == d && Withdraws(p, f);
      if Enabled(s, step) && (step.Deliver? || step.Lose?) {
        if step.Deliver? && s.wire[step.index] == p {
          HandledWithdrawal(d, Trusts(s, d, a), s.configs[d], p, f);
        } else {
          StillInFlight(s.wire, step.index, p);
          assert p in s'.wire;
        }
      } else {
        assert p in s'.wire;
      }
    }
  }

  lemma {:induction false} GoingRun(s: Net, run: seq<Step>, a: DeviceId, d: DeviceId, f: FolderId)
    requires a != d && a != "" && Going(s, a, d, f) && Faithful(s, run, a, d, f)
    ensures Going(Exec(s, run), a, d, f)
    decreases |run|
  {
    if run != [] {
      assert Faithful(s, [run[0]], a, d, f);
      GoingStep(s, run[0], a, d, f);
      GoingRun(Apply(s, run[0]), run[1..], a, d, f);
    }
  }

  /** A device that leaves a folder is forgotten by every device it listed, as soon as that device has handled
      the message, in whatever order and whether or not it heeds it. */
  lemma LeaverIsForgotten(s: Net, run: seq<Step>, a: DeviceId, d: DeviceId, f: FolderId)
    requires a in s.configs && a != d && a != "" && d in Participants(a, s.configs[a], f)
    requires Faithful(Apply(s, Leaves(a, f)), run, a, d, f)
    ensures var end := Exec(Apply(s, Leaves(a, f)), run);
            && (OnItsWay(end, a, d, f) || !Lists(end, d, f, a))
            && a in end.configs && f !in end.configs[a]
  {
    var s' := Apply(s, Leaves(a, f));
    assert Packet(a, d, FolderRemove(f, a)) in s'.wire;
    GoingRun(s', run, a, d, f);
    FolderStaysGone(s', run, a, f);
  }

  lemma {:induction false} FolderStaysGone(s: Net, run: seq<Step>, a: DeviceId, f: FolderId)
    requires a in s.configs && f !in s.configs[a]
    ensures a in Exec(s, run).configs && f !in Exec(s, run).configs[a]
    decreases |run|
  {
    if run != [] {
      FolderStaysGone(Apply(s, run[0]), run[1..], a, f);
    }
  }

  /** A device that declines is forgotten by the inviter in the same way. */
  lemma DeclinerIsForgotten(s: Net, run: seq<Step>, a: DeviceId, inviter: DeviceId, f: FolderId)
    requires a in s.configs && a != inviter && a != ""
    requires Faithful(Apply(s, Declines(a, f, inviter)), run, a, inviter, f)
    ensures var end := Exec(Apply(s, Declines(a, f, inviter)), run);
            OnItsWay(end, a, inviter, f) || !Lists(end, inviter, f, a)
  {
    var s' := Apply(s, Declines(a, f, inviter));
    assert s'.wire[|s.wire|] == Packet(a, inviter, FolderDecline(f));
    GoingRun(s', run, a, inviter, f);
  }

  /** After a removes c from a folder, a never lists c again, and c does not list a once it has handled the message. */
  lemma RemovedPairForgetsEachOther(s: Net, run: seq<Step>, a: DeviceId, c: DeviceId, f: FolderId)
    requires a in s.configs && a != c && a != ""
    requires Faithful(Apply(s, Removes(a, f, c)), run, a, c, f)
    ensures var end := Exec(Apply(s, Removes(a, f, c)), run);
            !Lists(end, a, f, c) && (OnItsWay(end, a, c, f) || !Lists(end, c, f, a))
  {
    var s' := Apply(s, Removes(a, f, c));
    assert s'.wire[|s.wire|] == Packet(a, c, FolderRemove(f, ""));
    GoingRun(s', run, a, c, f);
    MembershipOnlyShrinks(s', run);
  }

  // --- What the other participants learn of a removal ---

  /** The other participants are told too, but p forgets c only if it heeds a when the message arrives. */
  lemma ThirdPartyForgetsIff(s: Net, i: nat, a: DeviceId, p: DeviceId, c: DeviceId, f: FolderId)
    requires i < |s.wire| && s.wire[i] == Packet(a, p, FolderRemove(f, c)) && p in s.configs && c != ""
    ensures !Lists(Apply(s, Deliver(i)), p, f, c) <==>
            !Lists(s, p, f, c) || Heeded(p, Trusts(s, p, a), s.configs[p], f, a)
  {
  }

  /** While p trusts a, the removal of c reaches p in every run that does not lose the message. */
  ghost predicate Telling(s: Net, a: DeviceId, p: DeviceId, c: DeviceId, f: FolderId) {
    Trusts(s, p, a) && (!Lists(s, p, f, c) || Packet(a, p, FolderRemove(f, c)) in s.wire)
  }

  predicate KeepsTelling(s: Net, run: seq<Step>, a: DeviceId, p: DeviceId, c: DeviceId, f: FolderId)
    decreases |run|
  {
    run == []
    || (&& (run[0].TrustChanges? && run[0].node == p ==> a in run[0].trusted)
        && (run[0].Lose? && Enabled(s, run[0]) ==> s.wire[run[0].index] != Packet(a, p, FolderRemove(f, c)))
        && KeepsTelling(Apply(s, run[0]), run[1..], a, p, c, f))
  }

  lemma TellingStep(s: Net, step: Step, a: DeviceId, p: DeviceId, c: DeviceId, f: FolderId)
    requires c != "" && Telling(s, a, p, c, f) && KeepsTelling(s, [step], a, p, c, f)
    ensures Telling(Apply(s, step), a, p, c, f)
  {
    var s' := Apply(s, step);
    var told := Packet(a, p, FolderRemove(f, c));
    StepOnlyShrinks(s, step);
    assert Trusts(s', p, a);
    if Lists(s', p, f, c) && Enabled(s, step) && (step.Deliver? || step.Lose?) {
      if step.Deliver? && s.wire[step.index] == told {
        ThirdPartyForgetsIff(s, step.index, a, p, c, f);
      } else {
        StillInFlight(s.wire, step.index, told);
        assert told in s'.wire;
      }
    } else if Lists(s', p, f, c) {
      assert told in s'.wire;
    }
  }

  lemma {:induction false} TellingRun(s: Net, run: seq<Step>, a: DeviceId, p: DeviceId, c: DeviceId, f: FolderId)
    requires c != "" && Telling(s, a, p, c, f) && KeepsTelling(s, run, a, p, c, f)
    ensures Telling(Exec(s, run), a, p, c, f)
    decreases |run|
  {
    if run != [] {
      assert KeepsTelling(s, [run[0]], a, p, c, f);
      TellingStep(s, run[0], a, p, c, f);
      TellingRun(Apply(s, run[0]), run[1..], a, p, c, f);
    }
  }

  lemma ThirdPartyForgets(s: Net, run: seq<Step>, a: DeviceId, p: DeviceId, c: DeviceId, f: FolderId)
    requires a in s.configs && c != "" && p != c && p in Participants(a, s.configs[a], f) && Trusts(s, p, a)
    requires KeepsTelling(Apply(s, Removes(a, f, c)), run, a, p, c, f)
    ensures var end := Exec(Apply(s, Removes(a, f, c)), run);
            Packet(a, p, FolderRemove(f, c)) in end.wire || !Lists(end, p, f, c)
  {
    var s' := Apply(s, Removes(a, f, c));
    assert Packet(a, p, FolderRemove(f, c)) in s'.wire;
    TellingRun(s', run, a, p, c, f);
  }

  /** The same after an unpairing: when c's Cancelled makes a expel c, the participants that remain are told, and one
      that trusts a forgets c in every run that does not lose the message. */
  lemma ThirdPartyForgetsExpelled(s: Net, run: seq<Step>, a: DeviceId, p: DeviceId, c: DeviceId, f: FolderId)
    requires a in s.configs && c != "" && p != c && p in Participants(a, s.configs[a], f) && Trusts(s, p, a)
    requires KeepsTelling(Apply(s, Expels(a, f, c)), run, a, p, c, f)
    ensures var end := Exec(Apply(s, Expels(a, f, c)), run);
            && !Lists(end, a, f, c)
            && (Packet(a, p, FolderRemove(f, c)) in end.wire || !Lists(end, p, f, c))
  {
    var s' := Apply(s, Expels(a, f, c));
    assert Packet(a, p, FolderRemove(f, c)) in s'.wire;
    TellingRun(s', run, a, p, c, f);
    MembershipOnlyShrinks(s', run);
  }

  /** a, c and p share folder f, and p knows a only from it. */
  function Shared(a: DeviceId, c: DeviceId, p: DeviceId, f: FolderId): Net {
    Net(map[a := map[f := [a, c, p]], p := map[f := [a, c, p]]], map[], [])
  }

  predicate ThreeDevices(a: DeviceId, c: DeviceId, p: DeviceId) {
    a != c && a != p && c != p && "" !in {a, c, p}
  }

  lemma ExceptSteps(a: DeviceId, c: DeviceId, p: DeviceId)
    requires ThreeDevices(a, c, p)
    ensures Except([a, c, p], a) == [c, p] && Except([c, p], c) == [p]
    ensures Except([a, c, p], c) == [a, p] && Except([a, p], a) == [p]
  {
    assert [a, c, p][1..] == [c, p] && [c, p][1..] == [p] && [a, p][1..] == [p] && [p][1..] == [];
    assert Except([p], a) == [p] && Except([p], c) == [p];
    assert Except([c, p], a) == [c, p] && Except([c, p], c) == [p];
  }

  lemma ToOne(a: DeviceId, p: DeviceId, msg: Message)
    ensures ToAll(a, [p], msg) == [Packet(a, p, msg)]
  {
    assert [p][1..] == [];
  }

  lemma RemoveThenLeave(a: DeviceId, c: DeviceId, p: DeviceId, f: FolderId)
    requires ThreeDevices(a, c, p)
    ensures Apply(Apply(Shared(a, c, p, f), Removes(a, f, c)), Leaves(a, f))
            == Net(map[a := map[], p := map[f := [a, c, p]]], map[],
                   [Packet(a, c, FolderRemove(f, "")), Packet(a, p, FolderRemove(f, c)),
                    Packet(a, p, FolderRemove(f, a))])
  {
    ExceptSteps(a, c, p);
    ToOne(a, p, FolderRemove(f, c));
    ToOne(a, p, FolderRemove(f, a));
    var s' := Apply(Shared(a, c, p, f), Removes(a, f, c));
    assert s'.configs[a] == map[f := [a, p]];
    assert Apply(s', Leaves(a, f)).configs[a] == map[];
  }

  /** a removes c and then leaves. p hears of the leaving first, and then does not heed a any more: it goes on
      listing c with nothing left in flight to it. */
  lemma OvertakenRemoval(a: DeviceId, c: DeviceId, p: DeviceId, f: FolderId)
    requires ThreeDevices(a, c, p)
    ensures var sent := Apply(Apply(Shared(a, c, p, f), Removes(a, f, c)), Leaves(a, f));
            var end := Apply(Apply(sent, Deliver(2)), Deliver(1));
            Lists(end, p, f, c) && end.wire == [Packet(a, c, FolderRemove(f, ""))]
  {
    RemoveThenLeave(a, c, p, f);
    var s := Apply(Apply(Shared(a, c, p, f), Removes(a, f, c)), Leaves(a, f));
    LeavingIsHandled(s, a, c, p, f);
    LateRemovalIsRejected(Apply(s, Deliver(2)), a, c, p, f);
  }

  lemma LeavingIsHandled(s: Net, a: DeviceId, c: DeviceId, p: DeviceId, f: FolderId)
    requires ThreeDevices(a, c, p) && p in s.configs && s.configs[p] == map[f := [a, c, p]]
    requires |s.wire| == 3 && s.wire[2] == Packet(a, p, FolderRemove(f, a))
    ensures Apply(s, Deliver(2)) == s.(configs := s.configs[p := map[f := [c, p]]], wire := s.wire[..2])
  {
    ExceptSteps(a, c, p);
    assert Apply(s, Deliver(2)).configs[p] == map[f := [c, p]];
    assert Apply(s, Deliver(2)).wire == s.wire[..2];
  }

  lemma LateRemovalIsRejected(s: Net, a: DeviceId, c: DeviceId, p: DeviceId, f: FolderId)
    requires ThreeDevices(a, c, p) && p in s.configs && s.configs[p] == map[f := [c, p]] && !Trusts(s, p, a)
    requires |s.wire| == 2 && s.wire[1] == Packet(a, p, FolderRemove(f, c))
    ensures Lists(Apply(s, Deliver(1)), p, f, c) && Apply(s, Deliver(1)).wire == s.wire[..1]
  {
    assert !Heeded(p, false, s.configs[p], f, a);
  }
}
