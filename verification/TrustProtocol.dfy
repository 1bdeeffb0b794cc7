/** Every run of the trust protocol between any number of nodes. A run is a sequence of steps, each one a
    handler of TrustHandlers executed atomically at one node, or something the environment does: a connection
    comes up, the pipeline reconciles with any device list Syncthing may report, a node restarts, a packet is
    delivered out of order or lost. Steps that are not enabled change nothing. */
module TrustProtocol {
  import opened InFlight
  import opened Options
  import opened TrustHandlers
  import opened TrustState

  datatype Net = Net(nodes: map<DeviceId, TrustSets>, wire: seq<Packet>)

  datatype Step =
    | Pair(node: DeviceId, peer: DeviceId)
    | Delete(node: DeviceId, peer: DeviceId)
    | Dismiss(node: DeviceId, peer: DeviceId)
    | Connect(node: DeviceId, peer: DeviceId, adopted: bool)
    | Accept(node: DeviceId, peer: DeviceId)
    | Reconcile(node: DeviceId, devices: seq<DeviceId>, introduced: set<DeviceId>)
    | Restart(node: DeviceId, configured: set<DeviceId>)
    | Deliver(index: nat)
    | Lose(index: nat)

  predicate Enabled(s: Net, step: Step) {
    match step
    case Pair(n, p) => n in s.nodes && p in s.nodes && n != p
    case Delete(n, p) => n in s.nodes && p in s.nodes && n != p
    case Dismiss(n, p) => n in s.nodes && p in s.nodes && n != p
    case Connect(n, p, _) => n in s.nodes && p in s.nodes && n != p
    case Accept(n, p) => n in s.nodes && p in s.nodes && n != p
    case Reconcile(n, _, _) => n in s.nodes
    case Restart(n, _) => n in s.nodes
    case Deliver(i) => i < |s.wire| && s.wire[i].dst in s.nodes
    case Lose(i) => i < |s.wire|
  }

  /** Node n carries out r, with rest the packets still in flight besides those r sends. */
  function Carry(s: Net, n: DeviceId, r: Reaction, rest: seq<Packet>): Net {
    Net(s.nodes[n := r.trust], rest + r.sent)
  }

  function Apply(s: Net, step: Step): Net {
    if !Enabled(s, step) then s else
    match step
    case Pair(n, p) => Carry(s, n, UserPair(n, s.nodes[n], p), s.wire)
    case Delete(n, p) => Carry(s, n, UserDelete(n, s.nodes[n], p), s.wire)
    case Dismiss(n, p) => Carry(s, n, Reaction(AfterSetTheyTrustUs(s.nodes[n], p, false), []), s.wire)
    case Connect(n, p, adopted) =>
      Carry(s, n, Reaction(s.nodes[n], [Packet(n, p, Hello(TrustBit(s.nodes[n], p, adopted)))]), s.wire)
    case Accept(n, p) => Carry(s, n, Reaction(s.nodes[n], [Packet(n, p, Accepted)]), s.wire)
    case Reconcile(n, devices, introduced) =>
      Carry(s, n, Reaction(AfterReconcile(s.nodes[n], devices, introduced, n), []), s.wire)
    case Restart(n, configured) => Carry(s, n, Reaction(EMPTY_TRUST.(trusted := configured - {n}), []), s.wire)
    case Deliver(i) =>
      var p := s.wire[i];
      Carry(s, p.dst, React(p.dst, s.nodes[p.dst], p.src, p.msg), Without(s.wire, i))
    case Lose(i) => s.(wire := Without(s.wire, i))
  }

  /** The state after a whole run. */
  function Exec(s: Net, run: seq<Step>): Net
    decreases |run|
  {
    if run == [] then s else Exec(Apply(s, run[0]), run[1..])
  }

  lemma {:induction false} ExecSplit(s: Net, first: seq<Step>, second: seq<Step>)
    ensures Exec(s, first + second) == Exec(Exec(s, first), second)
    decreases |first|
  {
    if first == [] {
      assert first + second == second;
    } else {
      assert (first + second)[1..] == first[1..] + second;
      ExecSplit(Apply(s, first[0]), first[1..], second);
    }
  }

  lemma ExecTwo(s: Net, p: Step, q: Step)
    ensures Exec(s, [p, q]) == Apply(Apply(s, p), q)
  {
    assert [p, q][1..] == [q];
    assert Exec(Apply(s, p), [q]) == Exec(Apply(Apply(s, p), q), [q][1..]);
  }

  ghost predicate WellFormed(s: Net) {
    && "" !in s.nodes
    && (forall n :: n in s.nodes ==> Consistent(s.nodes[n]))
    && (forall p :: p in s.wire ==> p.src in s.nodes && p.dst in s.nodes && p.src != p.dst)
  }

  // --- Consistency of every reachable state ---

  lemma StepKeepsWellFormed(s: Net, step: Step)
    requires WellFormed(s)
    ensures WellFormed(Apply(s, step)) && Apply(s, step).nodes.Keys == s.nodes.Keys
  {
  }

  /** In every reachable state of every run, no node trusts an id it has explicitly removed. */
  lemma {:induction false} RunKeepsWellFormed(s: Net, run: seq<Step>)
    requires WellFormed(s)
    ensures WellFormed(Exec(s, run)) && Exec(s, run).nodes.Keys == s.nodes.Keys
    decreases |run|
  {
    if run != [] {
      StepKeepsWellFormed(s, run[0]);
      RunKeepsWellFormed(Apply(s, run[0]), run[1..]);
    }
  }

  // --- No untrust without a removal ---

  /** Messages that can make their receiver drop its trust. */
  predicate Withdraws(msg: Message) {
    msg == Cancelled || msg == Hello(Some(false))
  }

  predicate Between(p: Packet, x: DeviceId, y: DeviceId) {
    (p.src == x && p.dst == y) || (p.src == y && p.dst == x)
  }

  predicate Pairwise(s: Net, x: DeviceId, y: DeviceId) {
    x in s.nodes && y in s.nodes && x != y
  }

  /** Neither of x and y has removed the other, and nothing in flight between them withdraws trust. */
  ghost predicate Clean(s: Net, x: DeviceId, y: DeviceId) {
    && Pairwise(s, x, y)
    && y !in s.nodes[x].removed
    && x !in s.nodes[y].removed
    && forall p :: p in s.wire && Between(p, x, y) ==> !Withdraws(p.msg)
  }

  predicate Deletes(step: Step, x: DeviceId, y: DeviceId) {
    step == Delete(x, y) || step == Delete(y, x)
  }

  /** x restarts and Syncthing no longer lists y. */
  predicate Forgets(step: Step, x: DeviceId, y: DeviceId) {
    step.Restart? && step.node == x && y !in step.configured
  }

  lemma CleanDelivery(s: Net, i: nat, x: DeviceId, y: DeviceId)
    requires WellFormed(s) && Clean(s, x, y) && i < |s.wire|
    ensures Clean(Apply(s, Deliver(i)), x, y)
    ensures y in s.nodes[x].trusted ==> y in Apply(s, Deliver(i)).nodes[x].trusted
  {
  }

  lemma CleanStep(s: Net, step: Step, x: DeviceId, y: DeviceId)
    requires WellFormed(s) && Clean(s, x, y) && !Deletes(step, x, y)
    ensures Clean(Apply(s, step), x, y)
    ensures y in s.nodes[x].trusted && !Forgets(step, x, y) ==> y in Apply(s, step).nodes[x].trusted
  {
    StepKeepsWellFormed(s, step);
    if step.Deliver? && Enabled(s, step) {
      CleanDelivery(s, step.index, x, y);
    } else {
    }
  }

  /** If x and y ever come to hold a removal of each other, or a withdrawal is ever in flight between them,
      then one of them deleted the other before. */
  lemma {:induction false} WithdrawalNeedsARemoval(s: Net, run: seq<Step>, x: DeviceId, y: DeviceId)
    requires WellFormed(s) && Clean(s, x, y)
    requires !Clean(Exec(s, run), x, y)
    ensures exists i :: 0 <= i < |run| && Deletes(run[i], x, y)
    decreases |run|
  {
    if Deletes(run[0], x, y) {
    } else {
      StepKeepsWellFormed(s, run[0]);
      CleanStep(s, run[0], x, y);
      WithdrawalNeedsARemoval(Apply(s, run[0]), run[1..], x, y);
      var i :| 0 <= i < |run[1..]| && Deletes(run[1..][i], x, y);
      assert run[i + 1] == run[1..][i];
    }
  }

  /** A node that trusts a peer stops trusting it only in a run in which a user of one of the two deletes the
      other, or the node restarts without finding the peer in Syncthing's configuration. No stale, reordered,
      lost or repeated message, no reconcile and no unadopted connection can do it. */
  lemma {:induction false} UntrustNeedsARemoval(s: Net, run: seq<Step>, x: DeviceId, y: DeviceId)
    requires WellFormed(s) && Clean(s, x, y)
    requires y in s.nodes[x].trusted
    requires x in Exec(s, run).nodes && y !in Exec(s, run).nodes[x].trusted
    ensures exists i :: 0 <= i < |run| && (Deletes(run[i], x, y) || Forgets(run[i], x, y))
    decreases |run|
  {
    if Deletes(run[0], x, y) || Forgets(run[0], x, y) {
    } else {
      StepKeepsWellFormed(s, run[0]);
      CleanStep(s, run[0], x, y);
      UntrustNeedsARemoval(Apply(s, run[0]), run[1..], x, y);
      var i :| 0 <= i < |run[1..]| && (Deletes(run[1..][i], x, y) || Forgets(run[1..][i], x, y));
      assert run[i + 1] == run[1..][i];
    }
  }

  /** A removed id becomes trusted again only by pairing with it, by its acceptance, or by a restart. */
  lemma ReturnFromRemoval(s: Net, step: Step, x: DeviceId, y: DeviceId)
    requires WellFormed(s) && x in s.nodes && y in s.nodes[x].removed
    requires y in Apply(s, step).nodes[x].trusted
    ensures step == Pair(x, y)
            || (step.Restart? && step.node == x && y in step.configured)
            || (step.Deliver? && step.index < |s.wire| && s.wire[step.index] == Packet(y, x, Accepted))
  {
  }

  /** A removal mark has a cause on its own side: a node comes to hold one only if its user deletes the peer, or it
      trusted the peer at some point of the run. In particular a node that never trusts a stranger never removes it,
      however often the stranger asks and takes its request back. */
  lemma {:induction false} RemovalHasACause(s: Net, run: seq<Step>, a: DeviceId, b: DeviceId)
    requires WellFormed(s) && a in s.nodes && b !in s.nodes[a].removed
    requires a in Exec(s, run).nodes && b in Exec(s, run).nodes[a].removed
    ensures exists i :: 0 <= i < |run| && (run[i] == Delete(a, b) || TrustsAfter(s, run, i, a, b))
    decreases |run|
  {
    if run[0] == Delete(a, b) {
    } else if b in s.nodes[a].trusted {
      assert run[..0] == [];
      assert TrustsAfter(s, run, 0, a, b);
    } else {
      var s' := Apply(s, run[0]);
      StepKeepsWellFormed(s, run[0]);
      StrangerIsNotRemoved(s, run[0], a, b);
      RemovalHasACause(s', run[1..], a, b);
      var i :| 0 <= i < |run[1..]| && (run[1..][i] == Delete(a, b) || TrustsAfter(s', run[1..], i, a, b));
      assert run[i + 1] == run[1..][i];
      assert run[..i + 1] == [run[0]] + run[1..][..i];
      assert [run[0]] + run[1..][..i] != [] && ([run[0]] + run[1..][..i])[1..] == run[1..][..i];
    }
  }

  /** After the first i steps of the run a trusts b. */
  predicate TrustsAfter(s: Net, run: seq<Step>, i: nat, a: DeviceId, b: DeviceId)
    requires i <= |run|
  {
    a in Exec(s, run[..i]).nodes && b in Exec(s, run[..i]).nodes[a].trusted
  }

  lemma StrangerIsNotRemoved(s: Net, step: Step, a: DeviceId, b: DeviceId)
    requires WellFormed(s) && a in s.nodes && step != Delete(a, b)
    requires b !in s.nodes[a].trusted && b !in s.nodes[a].removed
    ensures a in Apply(s, step).nodes && b !in Apply(s, step).nodes[a].removed
  {
    if step.Deliver? && Enabled(s, step) && s.wire[step.index].dst == a {
      var p := s.wire[step.index];
      assert p in s.wire;
      if p.msg == Cancelled {
        ReactToCancelled(a, s.nodes[a], p.src);
      } else {
      }
    }
  }

  /** So a request that was taken back and made again is shown again, and not refused. */
  lemma RequestAfterCancellation(s: Net, a: DeviceId, b: DeviceId)
    requires WellFormed(s) && Pairwise(s, a, b) && b !in s.nodes[a].trusted + s.nodes[a].removed
    requires s.wire == [Packet(b, a, Cancelled), Packet(b, a, Hello(Some(true)))]
    ensures Exec(s, [Deliver(0), Deliver(0)])
            == Net(s.nodes[a := s.nodes[a].(theyTrustUs := s.nodes[a].theyTrustUs + {b})], [])
  {
    ExecTwo(s, Deliver(0), Deliver(0));
    ReactToCancelled(a, s.nodes[a], b);
    var s' := Apply(s, Deliver(0));
    assert s'.wire == [Packet(b, a, Hello(Some(true)))];
    ReactToHelloTrue(a, s'.nodes[a], b);
    var t := s.nodes[a].theyTrustUs;
    assert t - {b} + {b} == t + {b};
  }

  // --- Removal converges ---

  /** Steps that deliberately renew trust between a and b, or forget a removal. */
  predicate Renews(step: Step, a: DeviceId, b: DeviceId) {
    || step == Pair(a, b) || step == Pair(b, a)
    || step == Accept(a, b) || step == Accept(b, a)
    || (step.Restart? && (step.node == a || step.node == b))
  }

  predicate Loses(s: Net, step: Step, p: Packet) {
    step.Lose? && step.index < |s.wire| && s.wire[step.index] == p
  }

  /** A run that never renews trust between a and b and loses no Cancelled from a to b. Everything else is
      allowed at any time: stale Hellos, reconciles, losses, and whatever the other nodes do. */
  predicate Faithful(s: Net, run: seq<Step>, a: DeviceId, b: DeviceId)
    decreases |run|
  {
    run == []
    || (&& !Renews(run[0], a, b)
        && !Loses(s, run[0], Packet(a, b, Cancelled))
        && Faithful(Apply(s, run[0]), run[1..], a, b))
  }

  ghost predicate NoAcceptance(s: Net, a: DeviceId, b: DeviceId) {
    forall p :: p in s.wire && Between(p, a, b) ==> p.msg != Accepted
  }

  /** a has removed b; b has removed a too, or still trusts a while a's Cancelled is on its way. */
  ghost predicate Severing(s: Net, a: DeviceId, b: DeviceId) {
    && Pairwise(s, a, b)
    && NoAcceptance(s, a, b)
    && b in s.nodes[a].removed
    && (a in s.nodes[b].removed || (a in s.nodes[b].trusted && Packet(a, b, Cancelled) in s.wire))
  }

  lemma SeveringDelivery(s: Net, i: nat, a: DeviceId, b: DeviceId)
    requires WellFormed(s) && Severing(s, a, b) && i < |s.wire|
    ensures Severing(Apply(s, Deliver(i)), a, b)
  {
    var cancelled := Packet(a, b, Cancelled);
    if cancelled in s.wire && s.wire[i] != cancelled {
      StillInFlight(s.wire, i, cancelled);
    }
  }

  lemma SeveringStep(s: Net, step: Step, a: DeviceId, b: DeviceId)
    requires WellFormed(s) && Severing(s, a, b)
    requires !Renews(step, a, b) && !Loses(s, step, Packet(a, b, Cancelled))
    ensures Severing(Apply(s, step), a, b)
  {
    var cancelled := Packet(a, b, Cancelled);
    if step.Deliver? && Enabled(s, step) {
      SeveringDelivery(s, step.index, a, b);
    } else if step.Lose? && Enabled(s, step) && cancelled in s.wire && s.wire[step.index] != cancelled {
      StillInFlight(s.wire, step.index, cancelled);
    }
  }

  lemma {:induction false} SeveringRun(s: Net, run: seq<Step>, a: DeviceId, b: DeviceId)
    requires WellFormed(s) && Severing(s, a, b) && Faithful(s, run, a, b)
    ensures Severing(Exec(s, run), a, b)
    decreases |run|
  {
    if run != [] {
      StepKeepsWellFormed(s, run[0]);
      SeveringStep(s, run[0], a, b);
      SeveringRun(Apply(s, run[0]), run[1..], a, b);
    }
  }

  /** a deletes b, which trusts a. However the messages are ordered and whatever else happens, as soon as a's
      Cancelled is no longer in flight neither trusts the other, and both remember the removal. */
  lemma RemovalConverges(s: Net, run: seq<Step>, a: DeviceId, b: DeviceId)
    requires WellFormed(s) && Pairwise(s, a, b) && NoAcceptance(s, a, b)
    requires a in s.nodes[b].trusted
    requires Faithful(Apply(s, Delete(a, b)), run, a, b)
    ensures var end := Exec(Apply(s, Delete(a, b)), run);
            a in end.nodes && b in end.nodes &&
            (Packet(a, b, Cancelled) !in end.wire ==>
               && b !in end.nodes[a].trusted && b in end.nodes[a].removed
               && a !in end.nodes[b].trusted && a in end.nodes[b].removed)
  {
    var s' := Apply(s, Delete(a, b));
    StepKeepsWellFormed(s, Delete(a, b));
    assert s'.wire[|s'.wire| - 1] == Packet(a, b, Cancelled);
    assert Severing(s', a, b);
    SeveringRun(s', run, a, b);
    RunKeepsWellFormed(s', run);
  }

  // --- Removal of an unreachable peer ---

  /** A run that never renews trust between a and b and in which b never dismisses a: any message may be lost. */
  predicate Lossy(run: seq<Step>, a: DeviceId, b: DeviceId) {
    forall i :: 0 <= i < |run| ==> !Renews(run[i], a, b) && run[i] != Dismiss(b, a)
  }

  /** a has removed b; b has removed a too, or still counts the trust as mutual. */
  ghost predicate HalfSevered(s: Net, a: DeviceId, b: DeviceId) {
    && Pairwise(s, a, b)
    && NoAcceptance(s, a, b)
    && b in s.nodes[a].removed
    && (a in s.nodes[b].removed || (a in s.nodes[b].trusted && a in s.nodes[b].theyTrustUs))
  }

  lemma HalfSeveredDelivery(s: Net, i: nat, a: DeviceId, b: DeviceId)
    requires WellFormed(s) && HalfSevered(s, a, b) && i < |s.wire|
    ensures HalfSevered(Apply(s, Deliver(i)), a, b)
  {
  }

  lemma HalfSeveredStep(s: Net, step: Step, a: DeviceId, b: DeviceId)
    requires WellFormed(s) && HalfSevered(s, a, b)
    requires !Renews(step, a, b) && step != Dismiss(b, a)
    ensures HalfSevered(Apply(s, step), a, b)
  {
    if step.Deliver? && Enabled(s, step) {
      HalfSeveredDelivery(s, step.index, a, b);
    } else {
    }
  }

  lemma {:induction false} HalfSeveredRun(s: Net, run: seq<Step>, a: DeviceId, b: DeviceId)
    requires WellFormed(s) && HalfSevered(s, a, b) && Lossy(run, a, b)
    ensures HalfSevered(Exec(s, run), a, b)
    decreases |run|
  {
    if run != [] {
      StepKeepsWellFormed(s, run[0]);
      HalfSeveredStep(s, run[0], a, b);
      assert Lossy(run[1..], a, b) by {
        forall i | 0 <= i < |run[1..]|
          ensures !Renews(run[1..][i], a, b) && run[1..][i] != Dismiss(b, a)
        {
          assert run[1..][i] == run[i + 1];
        }
      }
      HalfSeveredRun(Apply(s, run[0]), run[1..], a, b);
    }
  }

  lemma NextConnectionSevers(s: Net, a: DeviceId, b: DeviceId)
    requires WellFormed(s) && HalfSevered(s, a, b)
    ensures var end := Exec(s, [Connect(a, b, true), Deliver(|s.wire|)]);
            && a in end.nodes && b in end.nodes
            && b !in end.nodes[a].trusted && b in end.nodes[a].removed
            && a !in end.nodes[b].trusted && a in end.nodes[b].removed
  {
    var up := Apply(s, Connect(a, b, true));
    assert up.wire[|s.wire|] == SayUntrusted(a, b) && up.nodes == s.nodes;
    ExecTwo(s, Connect(a, b, true), Deliver(|s.wire|));
  }

  /** a deletes a mutually trusted b, and every message about it may be lost. After any such run, one later
      connection from a to b whose Hello arrives completes the removal on both sides. */
  lemma OfflineRemovalHeals(s: Net, run: seq<Step>, a: DeviceId, b: DeviceId)
    requires WellFormed(s) && Pairwise(s, a, b) && NoAcceptance(s, a, b)
    requires a in s.nodes[b].trusted && a in s.nodes[b].theyTrustUs
    requires Lossy(run, a, b)
    ensures var mid := Exec(Apply(s, Delete(a, b)), run);
            var end := Exec(mid, [Connect(a, b, true), Deliver(|mid.wire|)]);
            && a in end.nodes && b in end.nodes
            && b !in end.nodes[a].trusted && b in end.nodes[a].removed
            && a !in end.nodes[b].trusted && a in end.nodes[b].removed
  {
    var s' := Apply(s, Delete(a, b));
    StepKeepsWellFormed(s, Delete(a, b));
    HalfSeveredRun(s', run, a, b);
    RunKeepsWellFormed(s', run);
    NextConnectionSevers(Exec(s', run), a, b);
  }

  /** Whatever was lost before, a later greeting from a makes b drop its trust exactly when a still holds the
      removal and b had heard from a that the trust was mutual. */
  lemma OfflineRemovalHealsIff(s: Net, a: DeviceId, b: DeviceId)
    requires WellFormed(s) && Pairwise(s, a, b) && a in s.nodes[b].trusted
    ensures var end := Exec(s, [Connect(a, b, true), Deliver(|s.wire|)]);
            b in end.nodes
            && (a !in end.nodes[b].trusted <==> b in s.nodes[a].removed && a in s.nodes[b].theyTrustUs)
  {
    var up := Apply(s, Connect(a, b, true));
    assert up.wire[|s.wire|] == Packet(a, b, Hello(TrustBit(s.nodes[a], b, true)));
    ExecTwo(s, Connect(a, b, true), Deliver(|s.wire|));
  }

  /** a has removed b, b waits for an answer from a, and nothing in flight from a can change b's mind. */
  ghost predicate Stuck(s: Net, a: DeviceId, b: DeviceId) {
    && Pairwise(s, a, b)
    && NoAcceptance(s, a, b)
    && b in s.nodes[a].removed
    && a in s.nodes[b].trusted && a !in s.nodes[b].theyTrustUs
    && forall p :: p in s.wire && p.src == a && p.dst == b ==> p.msg == Hello(None) || p.msg == Hello(Some(false))
  }

  /** A removal that loses its Cancelled never reaches a peer that was still waiting: b goes on trusting a
      through every reconnection, reconcile and loss, until a user of one of the two acts. */
  lemma {:induction false} UnconfirmedTrustIsStuck(s: Net, run: seq<Step>, a: DeviceId, b: DeviceId)
    requires WellFormed(s) && Stuck(s, a, b)
    requires forall i :: 0 <= i < |run| ==> !Renews(run[i], a, b) && !Deletes(run[i], a, b)
    ensures Stuck(Exec(s, run), a, b)
    decreases |run|
  {
    if run != [] {
      StepKeepsWellFormed(s, run[0]);
      StuckStep(s, run[0], a, b);
      UnconfirmedTrustIsStuck(Apply(s, run[0]), run[1..], a, b);
    }
  }

  lemma StuckDelivery(s: Net, i: nat, a: DeviceId, b: DeviceId)
    requires WellFormed(s) && Stuck(s, a, b) && i < |s.wire|
    ensures Stuck(Apply(s, Deliver(i)), a, b)
  {
  }

  lemma StuckStep(s: Net, step: Step, a: DeviceId, b: DeviceId)
    requires WellFormed(s) && Stuck(s, a, b) && !Renews(step, a, b) && !Deletes(step, a, b)
    ensures Stuck(Apply(s, step), a, b)
  {
    if step.Deliver? && Enabled(s, step) {
      StuckDelivery(s, step.index, a, b);
    } else {
    }
  }

  /** Such a state is reached when B has asked A to pair and A, who never answered, deletes B while B is away. */
  lemma StuckIsReachable()
    ensures var s := Net(map["A" := EMPTY_TRUST, "B" := TrustSets({"A"}, {}, {})], []);
            WellFormed(s) && Stuck(Exec(s, [Delete("A", "B"), Lose(0), Lose(0)]), "A", "B")
  {
    var s := Net(map["A" := EMPTY_TRUST, "B" := TrustSets({"A"}, {}, {})], []);
    var s1 := Apply(s, Delete("A", "B"));
    assert s1.wire == [SayUntrusted("A", "B"), Packet("A", "B", Cancelled)];
    var s2 := Apply(s1, Lose(0));
    assert s2.wire == [Packet("A", "B", Cancelled)];
    var s3 := Apply(s2, Lose(0));
    assert s3.wire == [];
    ExecSplit(s, [Delete("A", "B")], [Lose(0), Lose(0)]);
    ExecTwo(s1, Lose(0), Lose(0));
    assert Exec(s, [Delete("A", "B")]) == s1;
    assert [Delete("A", "B"), Lose(0), Lose(0)] == [Delete("A", "B")] + [Lose(0), Lose(0)];
  }

  lemma StrangersGreetingIsIgnored(s: Net, a: DeviceId, b: DeviceId)
    requires Pairwise(s, a, b) && s.wire == [] && b !in s.nodes[a].trusted + s.nodes[a].removed
    ensures Exec(s, [Connect(a, b, true), Deliver(0)]) == s
  {
    ExecTwo(s, Connect(a, b, true), Deliver(0));
    var up := Apply(s, Connect(a, b, true));
    assert up.wire == [Packet(a, b, Hello(None))] && up.nodes == s.nodes;
    assert Apply(up, Deliver(0)).nodes == s.nodes && Apply(up, Deliver(0)).wire == [];
  }

  /** A removal also stops half way when the remover restarts: a and b trust each other mutually, a deletes b, both
      messages are lost, and a restarts with b no longer configured. From then on b trusts a node that does not know
      it, and the next greeting changes nothing. */
  lemma RestartForgetsTheRemoval(a: DeviceId, b: DeviceId)
    requires a != b && a != "" && b != ""
    ensures var s := Net(map[a := TrustSets({b}, {b}, {}), b := TrustSets({a}, {a}, {})], []);
            var mid := Exec(s, [Delete(a, b), Lose(0)] + [Lose(0), Restart(a, {})]);
            && WellFormed(s)
            && mid == Net(map[a := EMPTY_TRUST, b := TrustSets({a}, {a}, {})], [])
            && Exec(mid, [Connect(a, b, true), Deliver(0)]) == mid
  {
    var s := Net(map[a := TrustSets({b}, {b}, {}), b := TrustSets({a}, {a}, {})], []);
    ExecSplit(s, [Delete(a, b), Lose(0)], [Lose(0), Restart(a, {})]);
    DeleteUnheard(s, a, b);
    LoseThenRestart(Exec(s, [Delete(a, b), Lose(0)]), a, b);
    StrangersGreetingIsIgnored(Net(map[a := EMPTY_TRUST, b := TrustSets({a}, {a}, {})], []), a, b);
  }

  lemma DeleteUnheard(s: Net, a: DeviceId, b: DeviceId)
    requires Pairwise(s, a, b) && s.wire == []
    ensures Exec(s, [Delete(a, b), Lose(0)])
            == Net(s.nodes[a := AfterUntrust(s.nodes[a], b)], [Packet(a, b, Cancelled)])
  {
    ExecTwo(s, Delete(a, b), Lose(0));
    assert Apply(s, Delete(a, b)).wire == [SayUntrusted(a, b), Packet(a, b, Cancelled)];
  }

  lemma LoseThenRestart(s: Net, a: DeviceId, b: DeviceId)
    requires a in s.nodes && |s.wire| == 1
    ensures Exec(s, [Lose(0), Restart(a, {})]) == Net(s.nodes[a := EMPTY_TRUST], [])
  {
    ExecTwo(s, Lose(0), Restart(a, {}));
    var lost := Apply(s, Lose(0));
    assert lost.wire == [] && lost.nodes == s.nodes;
    assert Apply(lost, Restart(a, {})).nodes[a] == EMPTY_TRUST;
  }

  // --- Pairing converges ---

  /** Both sides have paired; a has b's confirmation, or it is on its way. */
  ghost predicate Confirming(s: Net, a: DeviceId, b: DeviceId) {
    && Clean(s, a, b)
    && b in s.nodes[a].trusted && a in s.nodes[b].trusted
    && (b in s.nodes[a].theyTrustUs || Packet(b, a, Hello(Some(true))) in s.wire)
  }

  /** A run that deletes, dismisses and restarts nothing between a and b and loses no confirmation from b to a. */
  predicate Courteous(s: Net, run: seq<Step>, a: DeviceId, b: DeviceId)
    decreases |run|
  {
    run == []
    || (&& !Deletes(run[0], a, b)
        && run[0] != Dismiss(a, b)
        && !(run[0].Restart? && (run[0].node == a || run[0].node == b))
        && !Loses(s, run[0], Packet(b, a, Hello(Some(true))))
        && Courteous(Apply(s, run[0]), run[1..], a, b))
  }

  lemma ConfirmingStep(s: Net, step: Step, a: DeviceId, b: DeviceId)
    requires WellFormed(s) && Confirming(s, a, b) && Courteous(s, [step], a, b)
    ensures Confirming(Apply(s, step), a, b)
  {
    var hello := Packet(b, a, Hello(Some(true)));
    CleanStep(s, step, a, b);
    assert Clean(s, b, a);
    CleanStep(s, step, b, a);
    if Enabled(s, step) && (step.Deliver? || step.Lose?) && hello in s.wire && s.wire[step.index] != hello {
      StillInFlight(s.wire, step.index, hello);
    }
  }

  /** Two nodes that paired with each other, with nothing in flight between them that withdraws trust, both
      count the trust as mutual once b's Hello has arrived, and go on doing so. */
  lemma {:induction false} PairingConverges(s: Net, run: seq<Step>, a: DeviceId, b: DeviceId)
    requires WellFormed(s) && Confirming(s, a, b) && Courteous(s, run, a, b)
    ensures Confirming(Exec(s, run), a, b)
    ensures Packet(b, a, Hello(Some(true))) !in Exec(s, run).wire ==>
              b in Exec(s, run).nodes[a].trusted * Exec(s, run).nodes[a].theyTrustUs
    decreases |run|
  {
    if run != [] {
      StepKeepsWellFormed(s, run[0]);
      ConfirmingStep(s, run[0], a, b);
      PairingConverges(Apply(s, run[0]), run[1..], a, b);
    }
  }

  /** Pairing on both sides in either order, from nodes that do not trust each other yet, gives such a state
      for both of them. */
  lemma PairingBothWaysConfirms(s: Net, a: DeviceId, b: DeviceId)
    requires WellFormed(s) && Clean(s, a, b)
    requires b !in s.nodes[a].trusted && a !in s.nodes[b].trusted
    ensures var end := Exec(s, [Pair(a, b), Pair(b, a)]);
            Confirming(end, a, b) && Confirming(end, b, a)
  {
    ExecTwo(s, Pair(a, b), Pair(b, a));
    var s1 := Apply(s, Pair(a, b));
    assert s1.wire[|s.wire|] == Packet(a, b, Hello(Some(true)));
    var end := Apply(s1, Pair(b, a));
    assert end.wire[|s.wire|] == Packet(a, b, Hello(Some(true)));
    assert end.wire[|s.wire| + 1] == Packet(b, a, Hello(Some(true)));
  }

  // --- A removed peer may linger as an incoming request ---

  /** a and b have removed each other, and no acceptance is in flight between them. */
  ghost predicate Parted(s: Net, a: DeviceId, b: DeviceId) {
    Pairwise(s, a, b) && NoAcceptance(s, a, b) && b in s.nodes[a].removed && a in s.nodes[b].removed
  }

  predicate NeverRenews(run: seq<Step>, a: DeviceId, b: DeviceId) {
    forall i :: 0 <= i < |run| ==> !Renews(run[i], a, b)
  }

  /** a shows a request from b. */
  predicate Requested(s: Net, a: DeviceId, b: DeviceId) {
    a in s.nodes && b in s.nodes[a].theyTrustUs
  }

  ghost predicate NoPhantom(s: Net, a: DeviceId, b: DeviceId) {
    Parted(s, a, b) && b !in s.nodes[a].theyTrustUs && Packet(b, a, Hello(Some(true))) !in s.wire
  }

  lemma NoPhantomDelivery(s: Net, i: nat, a: DeviceId, b: DeviceId)
    requires WellFormed(s) && NoPhantom(s, a, b) && i < |s.wire|
    ensures NoPhantom(Apply(s, Deliver(i)), a, b)
  {
  }

  lemma NoPhantomStep(s: Net, step: Step, a: DeviceId, b: DeviceId)
    requires WellFormed(s) && NoPhantom(s, a, b) && !Renews(step, a, b)
    ensures NoPhantom(Apply(s, step), a, b)
  {
    if step.Deliver? && Enabled(s, step) {
      NoPhantomDelivery(s, step.index, a, b);
    } else {
    }
  }

  lemma {:induction false} NoPhantomRun(s: Net, run: seq<Step>, a: DeviceId, b: DeviceId)
    requires WellFormed(s) && NoPhantom(s, a, b) && NeverRenews(run, a, b)
    ensures NoPhantom(Exec(s, run), a, b)
    decreases |run|
  {
    if run != [] {
      StepKeepsWellFormed(s, run[0]);
      NoPhantomStep(s, run[0], a, b);
      NoPhantomRun(Apply(s, run[0]), run[1..], a, b);
    }
  }

  /** Everything in flight may get lost. */
  lemma {:induction false} LoseAll(s: Net, a: DeviceId, b: DeviceId) returns (run: seq<Step>)
    ensures NeverRenews(run, a, b) && Exec(s, run) == s.(wire := [])
    decreases |s.wire|
  {
    run := [];
    if s.wire != [] {
      var rest := LoseAll(Apply(s, Lose(0)), a, b);
      run := [Lose(0)] + rest;
      assert run[1..] == rest;
    }
  }

  lemma PhantomArises(s: Net, a: DeviceId, b: DeviceId) returns (run: seq<Step>)
    requires Parted(s, a, b)
    requires b in s.nodes[a].theyTrustUs || Packet(b, a, Hello(Some(true))) in s.wire
    requires "" !in s.nodes
    ensures NeverRenews(run, a, b) && Exec(s, run).wire == [] && Requested(Exec(s, run), a, b)
  {
    if b in s.nodes[a].theyTrustUs {
      run := LoseAll(s, a, b);
    } else {
      var i :| 0 <= i < |s.wire| && s.wire[i] == Packet(b, a, Hello(Some(true)));
      var rest := LoseAll(Apply(s, Deliver(i)), a, b);
      run := [Deliver(i)] + rest;
      assert run[1..] == rest;
    }
  }

  /** Between two nodes that removed each other, a run without renewal can end at rest with a request from b at a
      exactly when a already shows one or a confirmation from b is still in flight. */
  lemma PhantomIff(s: Net, a: DeviceId, b: DeviceId)
    requires WellFormed(s) && Parted(s, a, b)
    ensures (exists run :: NeverRenews(run, a, b) && Exec(s, run).wire == [] && Requested(Exec(s, run), a, b))
            <==> b in s.nodes[a].theyTrustUs || Packet(b, a, Hello(Some(true))) in s.wire
  {
    if b in s.nodes[a].theyTrustUs || Packet(b, a, Hello(Some(true))) in s.wire {
      var run := PhantomArises(s, a, b);
    } else {
      forall run | NeverRenews(run, a, b) ensures !Requested(Exec(s, run), a, b) {
        NoPhantomRun(s, run, a, b);
      }
    }
  }

  /** A and B trust each other and a confirmation from B is in flight when A deletes B; then A's Cancelled and
      B's answer overtake it. */
  lemma OvertakenConfirmation(s: Net)
    requires s == Net(map["A" := TrustSets({"B"}, {"B"}, {}), "B" := TrustSets({"A"}, {"A"}, {})],
                      [Packet("B", "A", Hello(Some(true)))])
    ensures Exec(s, [Delete("A", "B"), Deliver(2), Deliver(2)])
            == Net(map["A" := TrustSets({}, {}, {"B"}), "B" := TrustSets({}, {}, {"A"})],
                   [Packet("B", "A", Hello(Some(true))), SayUntrusted("A", "B")])
  {
    var stale, no := Packet("B", "A", Hello(Some(true))), SayUntrusted("A", "B");
    assert AfterUntrust(TrustSets({"B"}, {"B"}, {}), "B") == TrustSets({}, {}, {"B"});
    assert AfterUntrust(TrustSets({"A"}, {"A"}, {}), "A") == TrustSets({}, {}, {"A"});
    assert AfterSetTheyTrustUs(TrustSets({}, {}, {"B"}), "B", false) == TrustSets({}, {}, {"B"});
    var s1 := Apply(s, Delete("A", "B"));
    assert s1 == Net(map["A" := TrustSets({}, {}, {"B"}), "B" := TrustSets({"A"}, {"A"}, {})],
                     [stale, no, Packet("A", "B", Cancelled)]);
    var s2 := Apply(s1, Deliver(2));
    assert s2 == Net(map["A" := TrustSets({}, {}, {"B"}), "B" := TrustSets({}, {}, {"A"})],
                     [stale, no, SayUntrusted("B", "A")]);
    var s3 := Apply(s2, Deliver(2));
    assert s3.wire == [stale, no];
    assert s3.nodes == s2.nodes;
    ExecTwo(s1, Deliver(2), Deliver(2));
    assert [Delete("A", "B"), Deliver(2), Deliver(2)][1..] == [Deliver(2), Deliver(2)];
  }

  /** A stale confirmation delivered after the peer's own withdrawal leaves A showing a request from B, although
      nothing is in flight and B has removed A. */
  lemma PhantomRequest(s: Net)
    requires s == Net(map["A" := TrustSets({"B"}, {"B"}, {}), "B" := TrustSets({"A"}, {"A"}, {})],
                      [Packet("B", "A", Hello(Some(true)))])
    ensures var end := Exec(s, [Delete("A", "B"), Deliver(2), Deliver(2)] + [Deliver(0), Deliver(0)] + [Deliver(0)]);
            end == Net(map["A" := TrustSets({}, {"B"}, {"B"}), "B" := TrustSets({}, {}, {"A"})], [])
  {
    OvertakenConfirmation(s);
    assert AfterSetTheyTrustUs(TrustSets({}, {}, {"A"}), "A", false) == TrustSets({}, {}, {"A"});
    var no := SayUntrusted("A", "B");
    var s3 := Exec(s, [Delete("A", "B"), Deliver(2), Deliver(2)]);
    var s4 := Apply(s3, Deliver(0));
    var nodes := map["A" := TrustSets({}, {"B"}, {"B"}), "B" := TrustSets({}, {}, {"A"})];
    assert s4 == Net(nodes, [no, no]);
    var s5 := Apply(s4, Deliver(0));
    assert s5.nodes == nodes && s5.wire == [no];
    var s6 := Apply(s5, Deliver(0));
    assert s6.nodes == nodes && s6.wire == [];
    ExecTwo(s3, Deliver(0), Deliver(0));
    ExecSplit(s, [Delete("A", "B"), Deliver(2), Deliver(2)], [Deliver(0), Deliver(0)]);
    ExecSplit(s, [Delete("A", "B"), Deliver(2), Deliver(2)] + [Deliver(0), Deliver(0)], [Deliver(0)]);
    assert Exec(s5, [Deliver(0)]) == Exec(s6, [Deliver(0)][1..]);
  }

  /** The next greeting from b sets a right, whatever a had come to believe: b's trust is then known to a, a
      removal clears it, and a b that never decided changes nothing. */
  lemma GreetingTellsTheTruth(s: Net, a: DeviceId, b: DeviceId)
    requires WellFormed(s) && Pairwise(s, a, b)
    ensures var end := Exec(s, [Connect(b, a, true), Deliver(|s.wire|)]);
            && a in end.nodes
            && (a in s.nodes[b].trusted ==> b in end.nodes[a].theyTrustUs)
            && (a in s.nodes[b].removed ==> b !in end.nodes[a].theyTrustUs)
            && (a !in s.nodes[b].trusted + s.nodes[b].removed ==> end.nodes[a] == s.nodes[a])
  {
    ExecTwo(s, Connect(b, a, true), Deliver(|s.wire|));
    var up := Apply(s, Connect(b, a, true));
    assert up.wire[|s.wire|] == Packet(b, a, Hello(TrustBit(s.nodes[b], a, true)));
    assert up.nodes == s.nodes;
  }

  /** A greeting on a connection whose peer is not known yet changes nothing at its receiver and is not answered. */
  lemma AnonymousGreetingIsIgnored(s: Net, a: DeviceId, b: DeviceId)
    requires Pairwise(s, a, b)
    ensures Exec(s, [Connect(b, a, false), Deliver(|s.wire|)]) == s
  {
    ExecTwo(s, Connect(b, a, false), Deliver(|s.wire|));
    var up := Apply(s, Connect(b, a, false));
    assert up.wire[|s.wire|] == Packet(b, a, Hello(None)) && up.nodes == s.nodes;
    var down := Apply(up, Deliver(|s.wire|));
    assert down.wire == s.wire && down.nodes == s.nodes;
  }

  // --- The cascade terminates ---

  function Weight(m: Message): nat {
    match m
    case Hello(Some(true)) => 2
    case Accepted => 3
    case _ => 1
  }

  function Load(wire: seq<Packet>): nat {
    if wire == [] then 0 else Weight(wire[0].msg) + Load(wire[1..])
  }

  lemma {:induction false} LoadAppend(a: seq<Packet>, b: seq<Packet>)
    ensures Load(a + b) == Load(a) + Load(b)
  {
    if a == [] {
      assert a + b == b;
    } else {
      assert (a + b)[1..] == a[1..] + b;
      LoadAppend(a[1..], b);
    }
  }

  lemma LoadWithout(wire: seq<Packet>, i: nat)
    requires i < |wire|
    ensures Load(Without(wire, i)) + Weight(wire[i].msg) == Load(wire)
  {
    LoadAppend(wire[..i], wire[i + 1..]);
    LoadAppend(wire[..i], wire[i..]);
    assert wire == wire[..i] + wire[i..];
    assert wire[i..][1..] == wire[i + 1..];
  }

  /** The ordered pairs of nodes of which the first has not removed the second. */
  ghost function Open(s: Net): set<(DeviceId, DeviceId)> {
    set x, y | x in s.nodes && y in s.nodes && y !in s.nodes[x].removed :: (x, y)
  }

  ghost function Potential(s: Net): nat {
    2 * |Open(s)| + Load(s.wire)
  }

  /** What a step of the user or the environment may add to the potential; nodes is the number of nodes. */
  function Cost(step: Step, nodes: nat): nat {
    match step
    case Pair(_, _) => 4
    case Delete(_, _) => 2
    case Connect(_, _, _) => 2
    case Accept(_, _) => 3
    case Restart(_, _) => 2 * nodes
    case _ => 0
  }

  lemma {:induction false} PairsOf(x: DeviceId, ys: set<DeviceId>)
    ensures |set y | y in ys :: (x, y)| == |ys|
  {
    if ys != {} {
      var y :| y in ys;
      var rest := ys - {y};
      PairsOf(x, rest);
      assert (set z | z in ys :: (x, z)) == (set z | z in rest :: (x, z)) + {(x, y)};
    }
  }

  lemma SubsetSize<T>(a: set<T>, b: set<T>)
    requires a <= b
    ensures |a| <= |b|
  {
    assert |b| == |a| + |b - a| by { assert b == a + (b - a); }
  }

  lemma CarryOpen(s: Net, n: DeviceId, r: Reaction, rest: seq<Packet>, p: DeviceId)
    requires n in s.nodes && p in s.nodes
    ensures var open := Open(Carry(s, n, r, rest));
            && (r.trust.removed == s.nodes[n].removed ==> open == Open(s))
            && (r.trust.removed == s.nodes[n].removed + {p} ==> open == Open(s) - {(n, p)})
            && (r.trust.removed == s.nodes[n].removed - {p} ==> open == Open(s) + {(n, p)})
  {
  }

  /** Node n learns r, whose removals differ from before by p only. */
  lemma CarryPotential(s: Net, n: DeviceId, r: Reaction, rest: seq<Packet>, p: DeviceId)
    requires n in s.nodes && p in s.nodes
    ensures var after := Potential(Carry(s, n, r, rest));
            var load := Load(rest) + Load(r.sent);
            && (r.trust.removed == s.nodes[n].removed ==> after == 2 * |Open(s)| + load)
            && (r.trust.removed == s.nodes[n].removed + {p} ==> after <= 2 * |Open(s)| + load)
            && (r.trust.removed == s.nodes[n].removed + {p} && p !in s.nodes[n].removed ==>
                  after == 2 * |Open(s)| - 2 + load)
            && (r.trust.removed == s.nodes[n].removed - {p} ==> after <= 2 * |Open(s)| + 2 + load)
  {
    LoadAppend(rest, r.sent);
    CarryOpen(s, n, r, rest, p);
    assert p !in s.nodes[n].removed ==> (n, p) in Open(s);
  }

  lemma RestartPotential(s: Net, n: DeviceId, configured: set<DeviceId>)
    requires n in s.nodes
    ensures Potential(Apply(s, Restart(n, configured))) <= Potential(s) + 2 * |s.nodes|
  {
    var s' := Apply(s, Restart(n, configured));
    assert s'.wire == s.wire;
    var row := set y | y in s.nodes.Keys :: (n, y);
    PairsOf(n, s.nodes.Keys);
    SubsetSize(Open(s'), Open(s) + row);
    assert |Open(s) + row| <= |Open(s)| + |row|;
  }

  lemma LoadOne(p: Packet)
    ensures Load([p]) == Weight(p.msg)
  {
    assert [p][1..] == [];
  }

  /** A handler either answers with less than it consumed, or uses up an open pair, or takes an acceptance. */
  lemma ReactionPaysForItself(self: DeviceId, t: TrustSets, peer: DeviceId, msg: Message)
    requires Consistent(t)
    ensures var r := React(self, t, peer, msg);
            || (r.trust.removed == t.removed && Load(r.sent) < Weight(msg))
            || (r.trust.removed == t.removed + {peer} && peer !in t.removed && Load(r.sent) <= 1)
            || (r.trust.removed == t.removed - {peer} && r.sent == [] && msg == Accepted)
  {
    LoadOne(SayUntrusted(self, peer));
  }

  lemma DeliverPotential(s: Net, i: nat)
    requires WellFormed(s) && i < |s.wire|
    ensures Potential(Apply(s, Deliver(i))) + 1 <= Potential(s)
  {
    var p := s.wire[i];
    assert p in s.wire;
    var r := React(p.dst, s.nodes[p.dst], p.src, p.msg);
    LoadWithout(s.wire, i);
    ReactionPaysForItself(p.dst, s.nodes[p.dst], p.src, p.msg);
    CarryPotential(s, p.dst, r, Without(s.wire, i), p.src);
  }

  /** Steps of one node with one peer. */
  lemma UserPotential(s: Net, step: Step)
    requires Enabled(s, step) && (step.Pair? || step.Delete? || step.Dismiss? || step.Connect? || step.Accept?)
    ensures Potential(Apply(s, step)) <= Potential(s) + Cost(step, |s.nodes|)
  {
    var n, p := step.node, step.peer;
    var t := s.nodes[n];
    match step
    case Pair(_, _) =>
      LoadOne(Packet(n, p, Hello(Some(true))));
      CarryPotential(s, n, UserPair(n, t, p), s.wire, p);
    case Delete(_, _) =>
      LoadOne(SayUntrusted(n, p));
      LoadOne(Packet(n, p, Cancelled));
      LoadAppend([SayUntrusted(n, p)], [Packet(n, p, Cancelled)]);
      CarryPotential(s, n, UserDelete(n, t, p), s.wire, p);
    case Dismiss(_, _) =>
      CarryPotential(s, n, Reaction(AfterSetTheyTrustUs(t, p, false), []), s.wire, p);
    case Connect(_, _, adopted) =>
      LoadOne(Packet(n, p, Hello(TrustBit(t, p, adopted))));
      CarryPotential(s, n, Reaction(t, [Packet(n, p, Hello(TrustBit(t, p, adopted)))]), s.wire, p);
    case Accept(_, _) =>
      LoadOne(Packet(n, p, Accepted));
      CarryPotential(s, n, Reaction(t, [Packet(n, p, Accepted)]), s.wire, p);
  }

  lemma StepPotential(s: Net, step: Step)
    requires WellFormed(s)
    ensures Potential(Apply(s, step)) + (if step.Deliver? && Enabled(s, step) then 1 else 0)
            <= Potential(s) + Cost(step, |s.nodes|)
  {
    if Enabled(s, step) {
      match step
      case Deliver(i) => DeliverPotential(s, i);
      case Lose(i) =>
        LoadWithout(s.wire, i);
        assert Open(Apply(s, step)) == Open(s);
      case Restart(n, configured) => RestartPotential(s, n, configured);
      case Reconcile(n, devices, introduced) =>
        CarryPotential(s, n, Reaction(AfterReconcile(s.nodes[n], devices, introduced, n), []), s.wire, n);
      case _ => UserPotential(s, step);
    }
  }

  /** The number of messages a run actually delivers. */
  function Deliveries(s: Net, run: seq<Step>): nat
    decreases |run|
  {
    if run == [] then 0
    else (if run[0].Deliver? && Enabled(s, run[0]) then 1 else 0) + Deliveries(Apply(s, run[0]), run[1..])
  }

  function TotalCost(run: seq<Step>, nodes: nat): nat {
    if run == [] then 0 else Cost(run[0], nodes) + TotalCost(run[1..], nodes)
  }

  /** Message handling cannot feed itself: in every run the number of deliveries is bounded by the potential of
      the first state plus a constant for each step the users and the environment take. Reconciles, dismissals
      and losses are free, however often they happen. */
  lemma {:induction false} CascadeTerminates(s: Net, run: seq<Step>)
    requires WellFormed(s)
    ensures Deliveries(s, run) + Potential(Exec(s, run)) <= Potential(s) + TotalCost(run, |s.nodes|)
    decreases |run|
  {
    if run != [] {
      StepKeepsWellFormed(s, run[0]);
      StepPotential(s, run[0]);
      assert |Apply(s, run[0]).nodes| == |s.nodes| by {
        assert |Apply(s, run[0]).nodes.Keys| == |s.nodes.Keys|;
      }
      CascadeTerminates(Apply(s, run[0]), run[1..]);
    }
  }

  /** The nodes work off what is in flight, in any order, and the users and the environment do nothing. */
  predicate OnlyDelivers(s: Net, run: seq<Step>)
    decreases |run|
  {
    run == [] || (run[0].Deliver? && Enabled(s, run[0]) && OnlyDelivers(Apply(s, run[0]), run[1..]))
  }

  lemma {:induction false} DeliveryRun(s: Net, run: seq<Step>, n: nat, a: DeviceId, b: DeviceId)
    requires OnlyDelivers(s, run)
    ensures Deliveries(s, run) == |run| && TotalCost(run, n) == 0 && Faithful(s, run, a, b)
    decreases |run|
  {
    if run != [] {
      DeliveryRun(Apply(s, run[0]), run[1..], n, a, b);
    }
  }

  /** After a deletes b the nodes, left to themselves, come to rest after a bounded number of deliveries in any
      order, and at rest neither of the two trusts the other. */
  lemma RemovalSettles(s: Net, run: seq<Step>, a: DeviceId, b: DeviceId)
    requires WellFormed(s) && Pairwise(s, a, b) && NoAcceptance(s, a, b)
    requires a in s.nodes[b].trusted
    requires OnlyDelivers(Apply(s, Delete(a, b)), run)
    ensures |run| <= Potential(s) + 2
    ensures var end := Exec(Apply(s, Delete(a, b)), run);
            && a in end.nodes && b in end.nodes
            && (end.wire != [] ==> Enabled(end, Deliver(0)))
            && (end.wire == [] ==> b !in end.nodes[a].trusted && a !in end.nodes[b].trusted)
  {
    var s' := Apply(s, Delete(a, b));
    StepKeepsWellFormed(s, Delete(a, b));
    StepPotential(s, Delete(a, b));
    DeliveryRun(s', run, |s'.nodes|, a, b);
    CascadeTerminates(s', run);
    RemovalConverges(s, run, a, b);
    RunKeepsWellFormed(s', run);
    var end := Exec(s', run);
    assert end.wire != [] ==> end.wire[0] in end.wire;
  }
}
