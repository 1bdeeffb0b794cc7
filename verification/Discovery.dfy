/** Presence and departure of discovered peers (internal/discovery/service.go). Peers announce themselves with a
    session id and a source address; an expiry tick prunes what has been silent and reports sessions that left
    on a bounded channel, which may be full. The consumer may take reports while the tick is still sending. */
module Discovery {
  import opened Options

  const GRACE_PERIOD := 15_000_000_000
  const CHANNEL_SIZE := 16

  /** lastSeen by session id, lastSeenAddr by source address, and the PeerGone channel, oldest first; and of the tick
      in progress what it still has to report and when it began. */
  datatype Presence = Presence(lastSeen: map<string, int>, lastSeenAddr: map<string, int>, peerGone: seq<string>,
                               expired: seq<string>, tickedAt: int)

  const NOBODY := Presence(map[], map[], [], [], 0)

  function Lookup(m: map<string, int>, k: string): Option<int> {
    if k in m then Some(m[k]) else None
  }

  function Silent(m: map<string, int>, now: int): set<string> {
    set k | k in m && now - m[k] > GRACE_PERIOD
  }

  predicate Present(p: Presence, addr: string, now: int) {
    addr != "" && addr in p.lastSeenAddr && now - p.lastSeenAddr[addr] <= GRACE_PERIOD
  }

  function AfterAnnounce(p: Presence, sid: string, addr: string, now: int): Presence {
    p.(lastSeen := p.lastSeen[sid := now],
       lastSeenAddr := if addr != "" then p.lastSeenAddr[addr := now] else p.lastSeenAddr)
  }

  predicate Distinct(s: seq<string>) {
    forall i, j :: 0 <= i < j < |s| ==> s[i] != s[j]
  }

  /** Go iterates a map in no particular order. */
  ghost predicate Lists(s: seq<string>, ids: set<string>) {
    Distinct(s) && forall sid :: sid in s <==> sid in ids
  }

  function Recent(m: map<string, int>, now: int): map<string, int> {
    map a | a in m && now - m[a] <= GRACE_PERIOD :: m[a]
  }

  function AfterTick(p: Presence, now: int, expired: seq<string>): Presence {
    p.(lastSeenAddr := Recent(p.lastSeenAddr, now), expired := expired, tickedAt := now)
  }

  /** What the tick sends next: the first of the expired sessions, if the channel has room. */
  function Sent(p: Presence): seq<string> {
    if p.expired != [] && |p.peerGone| < CHANNEL_SIZE then [p.expired[0]] else []
  }

  /** A session that is sent is forgotten; one that finds the channel full stays for the next tick. */
  function AfterReport(p: Presence): Presence
    requires p.expired != []
  {
    p.(lastSeen := map k | k in p.lastSeen && k !in Sent(p) :: p.lastSeen[k], peerGone := p.peerGone + Sent(p),
       expired := p.expired[1..])
  }

  function AfterTake(p: Presence): Presence {
    if p.peerGone == [] then p else p.(peerGone := p.peerGone[1..])
  }

  class Service {
    var lastSeen: map<string, int>
    var lastSeenAddr: map<string, int>
    var peerGone: seq<string>
    var expired: seq<string>
    var tickedAt: int

    function View(): Presence
      reads this
    {
      Presence(lastSeen, lastSeenAddr, peerGone, expired, tickedAt)
    }

    constructor ()
      ensures View() == NOBODY
    {
      lastSeen, lastSeenAddr, peerGone, expired, tickedAt := map[], map[], [], [], 0;
    }

    method PresentAddr(addr: string, now: int) returns (present: bool)
      ensures present <==> Present(View(), addr, now)
    {
      if addr == "" {
        return false;
      }
      if addr !in lastSeenAddr {
        return false;
      }
      return now - lastSeenAddr[addr] <= GRACE_PERIOD;
    }

    method Announced(sid: string, addr: string, now: int)
      modifies this
      ensures View() == AfterAnnounce(old(View()), sid, addr, now)
    {
      lastSeen := lastSeen[sid := now];
      if addr != "" {
        lastSeenAddr := lastSeenAddr[addr := now];
      }
    }

    /** A whole tick. Before its k-th send the consumer takes takes(k) reports. Whatever the consumer does, what happens
        is a possible run of the steps below. */
    method Expire(now: int, takes: nat -> nat) returns (ghost run: seq<Step>)
      requires expired == []
      modifies this
      ensures View() == Exec(old(View()), run) && Possible(old(View()), run, now) && expired == []
      ensures |run| > 0 && run[0].Tick? && run[0].now == now && WorksOff(run[1..])
    {
      ghost var before := View();
      var silent := CollectSilent(now);
      PruneAddresses(now);
      expired, tickedAt := silent, now;
      ghost var begun := View();
      ghost var rest: seq<Step> := [];
      var k := 0;
      while expired != []
        invariant View() == Exec(begun, rest) && Possible(begun, rest, now) && WorksOff(rest)
        decreases |expired|
      {
        ghost var left := |expired|;
        for n := 0 to takes(k)
          invariant View() == Exec(begun, rest) && Possible(begun, rest, now) && WorksOff(rest)
          invariant expired != [] && |expired| == left
        {
          Snoc(begun, rest, Take, now);
          rest := rest + [Take];
          ConsumerTakes();
        }
        Snoc(begun, rest, Report, now);
        rest := rest + [Report];
        ReportNext();
        k := k + 1;
      }
      run := [Tick(now, silent)] + rest;
      assert run[1..] == rest;
    }

    method ReportNext()
      requires expired != []
      modifies this
      ensures View() == AfterReport(old(View()))
    {
      var sid := expired[0];
      expired := expired[1..];
      if |peerGone| < CHANNEL_SIZE {
        peerGone := peerGone + [sid];
        lastSeen := lastSeen - {sid};
      }
    }

    method ConsumerTakes()
      modifies this`peerGone
      ensures View() == AfterTake(old(View()))
    {
      if peerGone != [] {
        peerGone := peerGone[1..];
      }
    }

    method CollectSilent(now: int) returns (silent: seq<string>)
      ensures Lists(silent, Silent(lastSeen, now))
    {
      silent := [];
      var todo := lastSeen.Keys;
      while todo != {}
        invariant todo <= lastSeen.Keys
        invariant Distinct(silent)
        invariant forall sid :: sid in silent <==> sid in Silent(lastSeen, now) && sid !in todo
        decreases todo
      {
        var sid :| sid in todo;
        if now - lastSeen[sid] > GRACE_PERIOD {
          silent := silent + [sid];
        }
        todo := todo - {sid};
      }
    }

    method PruneAddresses(now: int)
      modifies this`lastSeenAddr
      ensures lastSeenAddr == Recent(old(lastSeenAddr), now)
    {
      var todo := lastSeenAddr.Keys;
      while todo != {}
        invariant todo <= lastSeenAddr.Keys <= old(lastSeenAddr).Keys
        invariant forall a :: a in lastSeenAddr ==> lastSeenAddr[a] == old(lastSeenAddr)[a]
        invariant forall a :: a in old(lastSeenAddr) && a !in todo ==>
                                (a in lastSeenAddr <==> now - old(lastSeenAddr)[a] <= GRACE_PERIOD)
        decreases todo
      {
        var a :| a in todo;
        if now - lastSeenAddr[a] > GRACE_PERIOD {
          lastSeenAddr := lastSeenAddr - {a};
        }
        todo := todo - {a};
      }
    }
  }

  // --- Whole runs ---

  datatype Step =
    | Announce(sid: string, addr: string, now: int)
    | Tick(now: int, expired: seq<string>)
    | Report
    | Take

  /** One goroutine handles announces and ticks, so neither happens before a tick has sent what it has to. */
  ghost predicate Enabled(p: Presence, step: Step) {
    match step
    case Announce(_, _, _) => p.expired == []
    case Tick(now, expired) => p.expired == [] && Lists(expired, Silent(p.lastSeen, now))
    case Report => p.expired != []
    case Take => true
  }

  function Next(p: Presence, step: Step): Presence {
    match step
    case Announce(sid, addr, now) => AfterAnnounce(p, sid, addr, now)
    case Tick(now, expired) => AfterTick(p, now, expired)
    case Report => if p.expired == [] then p else AfterReport(p)
    case Take => AfterTake(p)
  }

  function Exec(p: Presence, run: seq<Step>): Presence
    decreases |run|
  {
    if run == [] then p else Exec(Next(p, run[0]), run[1..])
  }

  /** The clock after the step. */
  function Clock(step: Step, start: int): int {
    match step
    case Announce(_, _, now) => now
    case Tick(now, _) => now
    case _ => start
  }

  function EndTime(run: seq<Step>, start: int): int
    decreases |run|
  {
    if run == [] then start else EndTime(run[1..], Clock(run[0], start))
  }

  /** A run from p whose clock starts at start and never goes back. */
  ghost predicate Possible(p: Presence, run: seq<Step>, start: int)
    decreases |run|
  {
    run == []
    || (&& Enabled(p, run[0])
        && start <= Clock(run[0], start)
        && Possible(Next(p, run[0]), run[1..], Clock(run[0], start)))
  }

  /** What a tick and the consumer do until the tick is over. */
  predicate WorksOff(run: seq<Step>) {
    forall i :: 0 <= i < |run| ==> run[i] == Report || run[i] == Take
  }

  lemma {:induction false} Snoc(p: Presence, run: seq<Step>, step: Step, start: int)
    requires Possible(p, run, start) && WorksOff(run) && (step == Report || step == Take) && Enabled(Exec(p, run), step)
    ensures Exec(p, run + [step]) == Next(Exec(p, run), step)
    ensures Possible(p, run + [step], start) && WorksOff(run + [step])
    decreases |run|
  {
    if run == [] {
      assert run + [step] == [step] && [step][1..] == [];
    } else {
      assert (run + [step])[1..] == run[1..] + [step];
      Snoc(Next(p, run[0]), run[1..], step, start);
    }
  }

  /** When address a was last heard, before telling of the time before the run. */
  function Heard(before: Option<int>, run: seq<Step>, a: string): Option<int>
    decreases |run|
  {
    if run == [] then before
    else Heard(if run[0].Announce? && run[0].addr == a then Some(run[0].now) else before, run[1..], a)
  }

  /** The table knows when a was last heard, or has forgotten an a that has been silent too long. */
  predicate Remembers(p: Presence, a: string, heard: Option<int>, now: int) {
    Lookup(p.lastSeenAddr, a) == heard || (a !in p.lastSeenAddr && heard.Some? && now - heard.value > GRACE_PERIOD)
  }

  /** Pruning cannot be observed: an address is present exactly when it announced within the last grace period. */
  lemma {:induction false} PresenceIsHistory(p: Presence, run: seq<Step>, a: string, heard: Option<int>,
                                             start: int, now: int)
    requires a != "" && Remembers(p, a, heard, start) && Possible(p, run, start) && EndTime(run, start) <= now
    ensures var last := Heard(heard, run, a);
            Present(Exec(p, run), a, now) <==> last.Some? && now - last.value <= 15_000_000_000
    decreases |run|
  {
    if run != [] {
      var step := run[0];
      var heard' := if step.Announce? && step.addr == a then Some(step.now) else heard;
      PresenceIsHistory(Next(p, step), run[1..], a, heard', Clock(step, start), now);
    }
  }

  /** What the step puts on the channel. */
  function Reported(p: Presence, step: Step): seq<string> {
    if step.Report? then Sent(p) else []
  }

  /** The last announce of a session that has not been reported gone since. */
  function Unreported(before: Option<int>, p: Presence, run: seq<Step>, sid: string): Option<int>
    decreases |run|
  {
    if run == [] then before else
    var after := if run[0].Announce? && run[0].sid == sid then Some(run[0].now)
                 else if sid in Reported(p, run[0]) then None
                 else before;
    Unreported(after, Next(p, run[0]), run[1..], sid)
  }

  /** Everything reported in a run, in order. */
  function Reports(p: Presence, run: seq<Step>): seq<string>
    decreases |run|
  {
    if run == [] then [] else Reported(p, run[0]) + Reports(Next(p, run[0]), run[1..])
  }

  /** Everything the consumer has taken in a run, in order. */
  function Taken(p: Presence, run: seq<Step>): seq<string>
    decreases |run|
  {
    if run == [] then []
    else if run[0].Take? && p.peerGone != [] then [p.peerGone[0]] + Taken(Next(p, run[0]), run[1..])
    else Taken(Next(p, run[0]), run[1..])
  }

  /** A session leaves the table only by being reported gone, and comes back only by an announce. */
  lemma {:induction false} OnlyReportsForget(p: Presence, run: seq<Step>, sid: string)
    ensures Lookup(Exec(p, run).lastSeen, sid) == Unreported(Lookup(p.lastSeen, sid), p, run, sid)
    decreases |run|
  {
    if run != [] {
      OnlyReportsForget(Next(p, run[0]), run[1..], sid);
    }
  }

  /** No report is lost, repeated or reordered, however often the channel is full: what was waiting and what was
      reported is what was taken and what still waits. */
  lemma {:induction false} NoReportIsLost(p: Presence, run: seq<Step>)
    requires |p.peerGone| <= CHANNEL_SIZE
    ensures p.peerGone + Reports(p, run) == Taken(p, run) + Exec(p, run).peerGone
    ensures |Exec(p, run).peerGone| <= CHANNEL_SIZE
    decreases |run|
  {
    if run != [] {
      var step, p' := run[0], Next(p, run[0]);
      NoReportIsLost(p', run[1..]);
      var reports, taken, rest := Reports(p', run[1..]), Taken(p', run[1..]), Exec(p, run).peerGone;
      assert p'.peerGone + reports == taken + rest;
      if step.Report? {
        assert p.peerGone + (Sent(p) + reports) == (p.peerGone + Sent(p)) + reports;
      } else if step.Take? && p.peerGone != [] {
        assert p.peerGone + reports == [p.peerGone[0]] + (p'.peerGone + reports);
        assert [p.peerGone[0]] + (taken + rest) == [p.peerGone[0]] + taken + rest;
      }
    }
  }

  /** What a tick still has to report are sessions that were silent when it began. */
  ghost predicate TickValid(p: Presence) {
    Distinct(p.expired) && forall sid :: sid in p.expired ==> sid in Silent(p.lastSeen, p.tickedAt)
  }

  lemma TickValidStep(p: Presence, step: Step)
    requires TickValid(p) && Enabled(p, step)
    ensures TickValid(Next(p, step))
  {
    if step.Report? {
      forall sid | sid in p.expired[1..] ensures sid in Silent(Next(p, step).lastSeen, p.tickedAt) {
        var i :| 1 <= i < |p.expired| && p.expired[i] == sid;
        assert sid in p.expired && sid != p.expired[0];
        assert sid in Silent(p.lastSeen, p.tickedAt);
      }
    }
  }

  lemma {:induction false} TickValidRun(p: Presence, run: seq<Step>, start: int)
    requires TickValid(p) && Possible(p, run, start)
    ensures TickValid(Exec(p, run))
    decreases |run|
  {
    if run != [] {
      TickValidStep(p, run[0]);
      TickValidRun(Next(p, run[0]), run[1..], Clock(run[0], start));
    }
  }

  /** A report is made only if, when its tick began, more than a grace period had passed without an announce of that
      session. */
  lemma ReportsOnlyTheSilent(p: Presence, run: seq<Step>, sid: string, start: int)
    requires TickValid(p) && Possible(p, run, start) && sid in Reported(Exec(p, run), Report)
    ensures var last := Unreported(Lookup(p.lastSeen, sid), p, run, sid);
            last.Some? && Exec(p, run).tickedAt - last.value > GRACE_PERIOD
  {
    OnlyReportsForget(p, run, sid);
    TickValidRun(p, run, start);
    var end := Exec(p, run);
    assert sid == end.expired[0];
    assert sid in Silent(end.lastSeen, end.tickedAt);
  }

  // --- Departures drain ---

  function Min(a: int, b: int): int {
    if a < b then a else b
  }

  /** Every report takes one session off the silent ones. */
  lemma {:induction false} ReportsShrinkSilence(p: Presence, run: seq<Step>)
    requires TickValid(p) && WorksOff(run)
    ensures |Silent(Exec(p, run).lastSeen, p.tickedAt)| + |Reports(p, run)| == |Silent(p.lastSeen, p.tickedAt)|
    decreases |run|
  {
    if run != [] {
      var p' := Next(p, run[0]);
      if run[0].Report? && p.expired != [] {
        TickValidStep(p, run[0]);
        if Sent(p) != [] {
          assert Silent(p.lastSeen, p.tickedAt) == Silent(p'.lastSeen, p.tickedAt) + {p.expired[0]};
        } else {
          assert p'.lastSeen == p.lastSeen;
        }
      }
      ReportsShrinkSilence(p', run[1..]);
    }
  }

  /** A tick that works off its list reports at least what the channel had room for. */
  lemma {:induction false} RoomIsUsed(p: Presence, run: seq<Step>)
    requires WorksOff(run) && Exec(p, run).expired == [] && |p.peerGone| <= CHANNEL_SIZE
    ensures |Reports(p, run)| >= Min(|p.expired|, CHANNEL_SIZE - |p.peerGone|)
    ensures Take !in run ==> |Reports(p, run)| == Min(|p.expired|, CHANNEL_SIZE - |p.peerGone|)
    decreases |run|
  {
    if run != [] {
      assert run == [run[0]] + run[1..];
      RoomIsUsed(Next(p, run[0]), run[1..]);
    }
  }

  lemma {:induction false} AllAreSent(p: Presence, run: seq<Step>)
    requires WorksOff(run) && Exec(p, run).expired == [] && |p.expired| + |p.peerGone| <= CHANNEL_SIZE
    ensures Reports(p, run) == p.expired
    decreases |run|
  {
    if run != [] {
      assert run == [run[0]] + run[1..];
      AllAreSent(Next(p, run[0]), run[1..]);
      if run[0].Report? && p.expired != [] {
        assert p.expired == [p.expired[0]] + p.expired[1..];
      }
    }
  }

  /** When the channel has room for all of them, a tick reports exactly the sessions that have been silent for longer
      than 15 seconds. */
  lemma SilentAreReportedIff(p: Presence, now: int, expired: seq<string>, rest: seq<Step>, sid: string)
    requires Enabled(p, Tick(now, expired)) && WorksOff(rest)
    requires Exec(Next(p, Tick(now, expired)), rest).expired == []
    requires |expired| + |p.peerGone| <= 16
    ensures sid in Reports(Next(p, Tick(now, expired)), rest) <==>
            sid in p.lastSeen && now - p.lastSeen[sid] > 15_000_000_000
  {
    AllAreSent(Next(p, Tick(now, expired)), rest);
  }

  lemma {:induction false} ListSize(s: seq<string>, ids: set<string>)
    requires Lists(s, ids)
    ensures |s| == |ids|
  {
    if s == [] {
      assert ids == {};
    } else {
      assert s == [s[0]] + s[1..] && s[0] !in s[1..];
      ListSize(s[1..], ids - {s[0]});
    }
  }

  /** Departures drain: a whole tick, whatever the consumer takes in between, leaves at most the silent sessions beyond
      the room it found on the channel, and exactly these if nothing is taken meanwhile. */
  lemma TickDrains(p: Presence, now: int, expired: seq<string>, rest: seq<Step>)
    requires |p.peerGone| <= CHANNEL_SIZE && Enabled(p, Tick(now, expired)) && WorksOff(rest)
    requires Exec(Next(p, Tick(now, expired)), rest).expired == []
    ensures var before := |Silent(p.lastSeen, now)|;
            var after := |Silent(Exec(Next(p, Tick(now, expired)), rest).lastSeen, now)|;
            var left := before - Min(before, CHANNEL_SIZE - |p.peerGone|);
            after <= left && (Take !in rest ==> after == left)
  {
    var p' := Next(p, Tick(now, expired));
    ListSize(expired, Silent(p.lastSeen, now));
    ReportsShrinkSilence(p', rest);
    RoomIsUsed(p', rest);
  }
}
