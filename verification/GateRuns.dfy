/** Every run of the power gate: input events, loop iterations and the passing of time in any interleaving. */
module GateRuns {
  import opened Gate
  import opened GateDecision
  import opened Options

  /** The gate at an instant, and what an observer remembers of the run: when the loop last woke, when a session
      was last triggered, and when a poll last reported work. */
  datatype World = World(g: GateState, now: int, lastWake: int, lastTrigger: int, lastBusy: int)

  /** A probe that finds nothing to do. */
  const IDLE := Probe(false, false, true)

  datatype Event =
    | Foreground(fg: bool)
    | NetworkChange(network: Network)
    | Battery(low: bool)
    | Alarm(changed: bool)
    | OpenSession
    | NewSettings(loaded: Loaded)
    | Init(path: string, loaded: Loaded)
    | MarkStopped
    | WakeByKick
    | WakeByTick(probe: Probe)
    | TimePasses(until: int)

  predicate Enabled(w: World, e: Event) {
    match e
    case WakeByKick => w.g.kicked
    case WakeByTick(_) => w.g.nextTick.Some? && w.g.nextTick.value <= w.now
    case TimePasses(until) => w.now <= until
    case _ => true
  }

  /** Whether the event triggers a session. */
  predicate Triggers(w: World, e: Event) {
    match e
    case OpenSession => true
    case Alarm(changed) => ConditionsMet(w.g.inputs) && changed
    case NetworkChange(n) => NetworkTriggers(w.g, n, w.now)
    case _ => false
  }

  /** A folder of ours is busy, or a connected peer still needs data from us. */
  predicate FindsWork(p: Probe) {
    p.folderBusy || p.peerBehind
  }

  predicate PollsBusy(w: World, e: Event) {
    e.WakeByTick? && Enabled(w, e) && w.g.stExePath != "" && SessionOpen(w.g.inputs, w.now)
    && FindsWork(e.probe)
  }

  function Handle(g: GateState, e: Event, now: int): GateState {
    match e
    case Foreground(fg) => AfterForeground(g, fg, now)
    case NetworkChange(n) => AfterNetwork(g, n, now)
    case Battery(low) => AfterBattery(g, low)
    case Alarm(changed) => AfterAlarm(g, changed, now)
    case OpenSession => AfterOpenSession(g, now)
    case NewSettings(loaded) => AfterSettings(g, loaded)
    case Init(path, loaded) => AfterInit(g, path, loaded)
    case MarkStopped => AfterMarkStopped(g)
    case WakeByKick => AfterIteration(g, false, IDLE, OneClock(now), true)
    case WakeByTick(probe) => AfterIteration(g, true, probe, OneClock(now), true)
    case TimePasses(_) => g
  }

  function Next(w: World, e: Event): World {
    if !Enabled(w, e) then w else
    World(Handle(w.g, e, w.now),
          if e.TimePasses? then e.until else w.now,
          if e.WakeByKick? || e.WakeByTick? then w.now else w.lastWake,
          if Triggers(w, e) then w.now else w.lastTrigger,
          if PollsBusy(w, e) then w.now else w.lastBusy)
  }

  function Exec(w: World, run: seq<Event>): World
    decreases |run|
  {
    if run == [] then w else Exec(Next(w, run[0]), run[1..])
  }

  // --- No lost wake-up ---

  /** Nothing more will change by itself: no deadline is pending and the process is in the wanted state. */
  predicate Settled(g: GateState, now: int) {
    LastDeadline(g.inputs) <= now && g.running == DesiredRunning(g.inputs, now)
  }

  predicate Awake(g: GateState, now: int) {
    g.stExePath != "" ==> g.listening && (g.kicked || g.nextTick.Some? || Settled(g, now))
  }

  lemma AwakeStep(w: World, e: Event)
    requires Awake(w.g, w.now)
    ensures Awake(Next(w, e).g, Next(w, e).now)
  {
  }

  /** An iteration leaves the gate without a wake-up exactly when no kick is queued, every deadline has passed by the
      time the ticker looks at the clock, and the process is not as the foreground wants it. */
  lemma LostWakeUpIff(g: GateState, poll: bool, probe: Probe, c: Clocks, obeyed: bool)
    requires InOrder(c) && g.stExePath != "" && g.listening
    ensures !Awake(AfterIteration(g, poll, probe, c, obeyed), c.tick)
            <==> !(poll && g.kicked)
                 && SessionEnd(g, poll, probe, c) <= c.tick && g.inputs.foregroundUntil <= c.tick
                 && (if obeyed then Wants(g, poll, probe, c) else g.running) != g.inputs.appForeground
  {
  }

  /** The code reads the clock several times in an iteration. If Syncthing obeys, the wake-up is lost exactly when no
      kick is queued, the app is in the background, Syncthing was still wanted when the iteration decided, and every
      deadline had passed when it came to the ticker. */
  lemma TwoClockReadsIff(g: GateState, poll: bool, probe: Probe, c: Clocks)
    requires InOrder(c) && g.stExePath != "" && g.listening
    ensures !Awake(AfterIteration(g, poll, probe, c, true), c.tick)
            <==> !(poll && g.kicked) && !g.inputs.appForeground && Wants(g, poll, probe, c)
                 && SessionEnd(g, poll, probe, c) <= c.tick && g.inputs.foregroundUntil <= c.tick
  {
    LostWakeUpIff(g, poll, probe, c, true);
  }

  /** A start or stop that fails is tried again exactly if a kick or a deadline is pending. So Syncthing stays down in
      the foreground, with nothing to bring it up, when its start fails and no session is open. */
  lemma FailureIsForgottenIff(g: GateState, poll: bool, probe: Probe, now: int)
    requires g.stExePath != "" && g.listening
    ensures var end := AfterIteration(g, poll, probe, OneClock(now), false);
            !Awake(end, now)
            <==> !(poll && g.kicked) && LastDeadline(end.inputs) <= now
                 && end.running == g.running != g.inputs.appForeground
  {
    LostWakeUpIff(g, poll, probe, OneClock(now), false);
  }

  /** Every tick is handled at most late after it fires. Nothing is asked of kicks. */
  predicate Prompt(w: World, run: seq<Event>, late: nat)
    decreases |run|
  {
    run == []
    || (&& (run[0].TimePasses? && w.g.nextTick.Some? ==> run[0].until <= w.g.nextTick.value + late)
        && Prompt(Next(w, run[0]), run[1..], late))
  }

  // --- A wake-up that gets lost ---

  /** A run from w to end in which every tick is handled as it fires. */
  predicate Reaches(w: World, run: seq<Event>, end: World) {
    Prompt(w, run, 0) && Exec(w, run) == end
  }

  lemma {:induction false} ReachesOn(w: World, first: seq<Event>, mid: World, second: seq<Event>, end: World)
    requires Reaches(w, first, mid) && Reaches(mid, second, end)
    ensures Reaches(w, first + second, end)
    decreases |first|
  {
    if first == [] {
      assert first + second == second;
    } else {
      assert (first + second)[1..] == first[1..] + second;
      ReachesOn(Next(w, first[0]), first[1..], mid, second, end);
    }
  }

  /** The app left the foreground at time 0; the loop last woke at woke and its ticker fires a poll interval later. */
  function InGrace(settings: Settings, woke: int): World {
    var i := Initial(settings).inputs.(foregroundUntil := FOREGROUND_GRACE);
    World(GateState("st", i, 0, true, false, Some(woke + SYNC_POLL_INTERVAL), true, true), woke, woke, 0, 0)
  }

  const INTO_GRACE := [Init("st", NoStore), Foreground(true), WakeByKick, Foreground(false), WakeByKick]

  lemma IntoGrace(settings: Settings)
    ensures Reaches(World(Initial(settings), 0, 0, 0, 0), INTO_GRACE, InGrace(settings, 0))
  {
    var w := World(Initial(settings), 0, 0, 0, 0);
    var w1 := Next(w, Init("st", NoStore));
    var w2 := Next(w1, Foreground(true));
    var w3 := Next(w2, WakeByKick);
    var w4 := Next(w3, Foreground(false));
    One(w4, WakeByKick);
    assert InGrace(settings, 0) == Next(w4, WakeByKick);
    One(w3, Foreground(false));
    ReachesOn(w3, [Foreground(false)], w4, [WakeByKick], InGrace(settings, 0));
    One(w2, WakeByKick);
    ReachesOn(w2, [WakeByKick], w3, [Foreground(false), WakeByKick], InGrace(settings, 0));
    One(w1, Foreground(true));
    ReachesOn(w1, [Foreground(true)], w2, [WakeByKick, Foreground(false), WakeByKick], InGrace(settings, 0));
    One(w, Init("st", NoStore));
    ReachesOn(w, [Init("st", NoStore)], w1, INTO_GRACE[1..], InGrace(settings, 0));
  }

  lemma One(w: World, e: Event)
    requires Prompt(w, [e], 0)
    ensures Reaches(w, [e], Next(w, e))
  {
    assert Exec(w, [e]) == Exec(Next(w, e), [e][1..]);
  }

  function PollAt(t: int): seq<Event> {
    [TimePasses(t), WakeByTick(IDLE)]
  }

  lemma PollInGrace(settings: Settings, woke: int)
    requires 0 <= woke && woke + SYNC_POLL_INTERVAL < FOREGROUND_GRACE
    ensures var t := woke + SYNC_POLL_INTERVAL;
            Reaches(InGrace(settings, woke), PollAt(t), InGrace(settings, t))
  {
    var t := woke + SYNC_POLL_INTERVAL;
    var w := Next(InGrace(settings, woke), TimePasses(t));
    assert PollAt(t) == [TimePasses(t)] + [WakeByTick(IDLE)];
    One(InGrace(settings, woke), TimePasses(t));
    One(w, WakeByTick(IDLE));
    ReachesOn(InGrace(settings, woke), [TimePasses(t)], w, [WakeByTick(IDLE)], InGrace(settings, t));
  }

  /** The battery runs low an instant before the grace ends. */
  function BeforeLoss(settings: Settings): World {
    var w := InGrace(settings, 3 * SYNC_POLL_INTERVAL);
    w.(g := w.g.(kicked := true, inputs := w.g.inputs.(batteryLow := true)), now := FOREGROUND_GRACE - 1)
  }

  lemma IntoLoss(settings: Settings)
    ensures Reaches(InGrace(settings, 3 * SYNC_POLL_INTERVAL), [TimePasses(FOREGROUND_GRACE - 1)] + [Battery(true)],
                    BeforeLoss(settings))
  {
    var w := InGrace(settings, 3 * SYNC_POLL_INTERVAL);
    var w' := Next(w, TimePasses(FOREGROUND_GRACE - 1));
    One(w, TimePasses(FOREGROUND_GRACE - 1));
    One(w', Battery(true));
    ReachesOn(w, [TimePasses(FOREGROUND_GRACE - 1)], w', [Battery(true)], BeforeLoss(settings));
  }

  lemma LastIteration(settings: Settings)
    ensures var w := BeforeLoss(settings);
            var c := OneClock(w.now).(tick := w.now + 1);
            var end := AfterIteration(w.g, false, IDLE, c, true);
            end.running && !DesiredRunning(end.inputs, c.tick) && !end.kicked && end.nextTick == None
  {
  }

  const POLLED := INTO_GRACE + PollAt(SYNC_POLL_INTERVAL) + PollAt(2 * SYNC_POLL_INTERVAL)
                  + PollAt(3 * SYNC_POLL_INTERVAL)

  lemma ThreePolls(settings: Settings)
    ensures Reaches(World(Initial(settings), 0, 0, 0, 0), POLLED, InGrace(settings, 3 * SYNC_POLL_INTERVAL))
  {
    var p, w := SYNC_POLL_INTERVAL, World(Initial(settings), 0, 0, 0, 0);
    IntoGrace(settings);
    PollInGrace(settings, 0);
    ReachesOn(w, INTO_GRACE, InGrace(settings, 0), PollAt(p), InGrace(settings, p));
    PollInGrace(settings, p);
    ReachesOn(w, INTO_GRACE + PollAt(p), InGrace(settings, p), PollAt(2 * p), InGrace(settings, 2 * p));
    PollInGrace(settings, 2 * p);
    ReachesOn(w, INTO_GRACE + PollAt(p) + PollAt(2 * p), InGrace(settings, 2 * p), PollAt(3 * p),
              InGrace(settings, 3 * p));
  }

  /** A run from a fresh gate, with every tick handled as it fires, after which one iteration that straddles the end of
      the foreground grace leaves Syncthing running with nothing to stop it. */
  lemma LostWakeUp(settings: Settings)
    ensures Reaches(World(Initial(settings), 0, 0, 0, 0),
                    POLLED + ([TimePasses(FOREGROUND_GRACE - 1)] + [Battery(true)]), BeforeLoss(settings))
    ensures var w := BeforeLoss(settings);
            var c := OneClock(w.now).(tick := w.now + 1);
            var end := AfterIteration(w.g, false, IDLE, c, true);
            end.running && !DesiredRunning(end.inputs, c.tick) && !end.kicked && end.nextTick == None
  {
    LastIteration(settings);
    ThreePolls(settings);
    IntoLoss(settings);
    ReachesOn(World(Initial(settings), 0, 0, 0, 0), POLLED, InGrace(settings, 3 * SYNC_POLL_INTERVAL),
              [TimePasses(FOREGROUND_GRACE - 1)] + [Battery(true)], BeforeLoss(settings));
  }

  // --- How late the gate can be ---

  /** Without a queued kick the process is where the last iteration put it, with today's inputs. */
  predicate OnSchedule(w: World, late: nat) {
    && Awake(w.g, w.now)
    && w.lastWake <= w.now
    && (w.g.nextTick.Some? ==> w.g.nextTick.value <= w.lastWake + SYNC_POLL_INTERVAL)
    && (w.g.nextTick.Some? ==> w.now <= w.g.nextTick.value + late)
    && (w.g.stExePath != "" && !w.g.kicked ==> w.g.running == DesiredRunning(w.g.inputs, w.lastWake))
  }

  lemma OnScheduleStep(w: World, e: Event, late: nat)
    requires OnSchedule(w, late) && Prompt(w, [e], late)
    ensures OnSchedule(Next(w, e), late)
  {
    AwakeStep(w, e);
  }

  /** If ticks are handled at most late after they fire, Syncthing is up whenever it should be and is stopped less than
      one poll interval plus late after the last deadline, unless a kick is waiting to be taken up. */
  lemma {:induction false} StopsWithinOnePoll(w: World, run: seq<Event>, late: nat)
    requires OnSchedule(w, late) && Prompt(w, run, late)
    ensures var end := Exec(w, run);
            OnSchedule(end, late)
            && (end.g.stExePath != "" && !end.g.kicked ==>
                  && (DesiredRunning(end.g.inputs, end.now) ==> end.g.running)
                  && (end.g.running && !DesiredRunning(end.g.inputs, end.now) ==>
                        end.now < LastDeadline(end.g.inputs) + 15 * SECOND + late))
    decreases |run|
  {
    if run != [] {
      OnScheduleStep(w, run[0], late);
      StopsWithinOnePoll(Next(w, run[0]), run[1..], late);
    } else {
      DecisionOnlyLapses(w.g.inputs, w.lastWake, w.now);
    }
  }

  /** A fresh gate is on schedule. */
  lemma InitialOnSchedule(settings: Settings, late: nat)
    ensures OnSchedule(World(Initial(settings), 0, 0, 0, 0), late)
  {
  }

  /** No input and no kick moves the next tick of a ticker that runs on. */
  lemma KicksDoNotDelayPolls(w: World, e: Event)
    requires !e.WakeByTick? && w.g.nextTick.Some? && Next(w, e).g.nextTick.Some?
    ensures Next(w, e).g.nextTick == w.g.nextTick
  {
  }

  /** A deadline is pending in every state of the run. */
  predicate StaysPending(w: World, run: seq<Event>)
    decreases |run|
  {
    w.now < LastDeadline(w.g.inputs) && (run == [] || StaysPending(Next(w, run[0]), run[1..]))
  }

  /** So the poll cannot be starved: while a deadline is pending the ticker runs on, however many kicks there are, and
      without a poll no run lasts longer than late beyond the tick that was due. */
  lemma {:induction false} PollsAreNotStarved(w: World, run: seq<Event>, late: nat)
    requires w.g.nextTick.Some? && w.now <= w.g.nextTick.value + late
    requires StaysPending(w, run) && Prompt(w, run, late) && forall i :: 0 <= i < |run| ==> !run[i].WakeByTick?
    ensures var end := Exec(w, run);
            end.g.nextTick == w.g.nextTick && end.now <= w.g.nextTick.value + late
    decreases |run|
  {
    if run != [] {
      assert !run[0].WakeByTick?;
      TickerRunsOn(w, run[0]);
      KicksDoNotDelayPolls(w, run[0]);
      forall i | 0 <= i < |run[1..]| ensures !run[1..][i].WakeByTick? {
        assert run[1..][i] == run[i + 1];
      }
      PollsAreNotStarved(Next(w, run[0]), run[1..], late);
    }
  }

  lemma TickerRunsOn(w: World, e: Event)
    requires w.g.nextTick.Some? && w.now < LastDeadline(w.g.inputs) && !e.WakeByTick?
    ensures Next(w, e).g.nextTick.Some?
  {
  }

  // --- What the inputs bring about ---

  /** An alarm opens a session of two minutes exactly if the network will do, the battery allows it and, for the poll
      alarm, something changed; otherwise it does nothing at all. */
  lemma AlarmOpensIff(g: GateState, changed: bool, now: int)
    ensures var g' := Handle(g, Alarm(changed), now);
            var opens := changed && NetworkAllowed(g.inputs.settings, g.inputs.network)
                         && (g.inputs.batteryLow ==> !g.inputs.settings.pauseWhenBatteryLow);
            if opens then OpenedAt(g, g', now) else g' == g
  {
  }

  /** A session now ends two minutes from now; it began now unless it was open, and the loop, if there is one, has been
      kicked. */
  predicate OpenedAt(g: GateState, g': GateState, now: int) {
    && g'.inputs == g.inputs.(sessionEndsAt := now + 120 * SECOND)
    && g'.sessionStartedAt == (if now < g.inputs.sessionEndsAt then g.sessionStartedAt else now)
    && (g.listening ==> g'.kicked)
    && g'.running == g.running && g'.stExePath == g.stExePath && g'.nextTick == g.nextTick
  }

  /** A network change opens a session exactly when the network becomes acceptable and no session is open; in any case
      the network is noted. */
  lemma NetworkOpensIff(g: GateState, n: Network, now: int)
    requires n != g.inputs.network
    ensures var g' := Handle(g, NetworkChange(n), now);
            var noted := g.(inputs := g.inputs.(network := n));
            var opens := NetworkAllowed(g.inputs.settings, n) && !NetworkAllowed(g.inputs.settings, g.inputs.network)
                         && g.inputs.sessionEndsAt <= now;
            && (opens ==> OpenedAt(noted, g', now))
            && (!opens ==> g' == noted.(kicked := g'.kicked) && (g.listening ==> g'.kicked))
  {
  }

  /** So Syncthing comes up: a trigger while network and battery allow it leads to a running process as soon as the
      kick is taken up. */
  lemma TriggersStartSyncthing(w: World, e: Event)
    requires w.g.stExePath != "" && w.g.listening && !(w.g.inputs.batteryLow && w.g.inputs.settings.pauseWhenBatteryLow)
    requires match e
             case OpenSession => NetworkAllowed(w.g.inputs.settings, w.g.inputs.network)
             case Alarm(changed) => changed && NetworkAllowed(w.g.inputs.settings, w.g.inputs.network)
             case NetworkChange(n) => NetworkAllowed(w.g.inputs.settings, n)
                                      && !NetworkAllowed(w.g.inputs.settings, w.g.inputs.network)
             case Foreground(fg) => fg && !w.g.inputs.appForeground
             case _ => false
    ensures var triggered := Next(w, e);
            && triggered.g.kicked && triggered.now == w.now
            && Next(triggered, WakeByKick).g.running && Next(triggered, WakeByKick).g.lastSyncActive
  {
    StartsOnKick(Next(w, e));
  }

  lemma StartsOnKick(w: World)
    requires w.g.stExePath != "" && w.g.kicked && DesiredRunning(w.g.inputs, w.now)
    ensures Next(w, WakeByKick).g.running && Next(w, WakeByKick).g.lastSyncActive
  {
  }

  /** Leaving the foreground keeps Syncthing wanted for another minute, whatever network and battery are like; in the
      foreground it is wanted without end. */
  lemma ForegroundLasts(g: GateState, now: int, later: int)
    ensures g.inputs.appForeground && later < now + 60 * SECOND ==>
              DesiredRunning(Handle(g, Foreground(false), now).inputs, later)
    ensures DesiredRunning(Handle(g, Foreground(true), now).inputs, later)
    ensures g.inputs.appForeground && now + 60 * SECOND <= later && g.inputs.sessionEndsAt <= later ==>
              !DesiredRunning(Handle(g, Foreground(false), now).inputs, later)
  {
  }

  /** Battery reports and settings are noted, and nothing else. */
  lemma InputsAreNoted(g: GateState, low: bool, settings: Settings, now: int)
    ensures Handle(g, Battery(low), now).inputs == g.inputs.(batteryLow := low)
    ensures Handle(g, NewSettings(Loaded(settings)), now).inputs == g.inputs.(settings := settings)
    ensures Handle(g, NewSettings(NoStore), now).inputs == g.inputs && Handle(g, NewSettings(Failed), now) == g
  {
  }

  /** The host is told the decision of every iteration, also of one whose start or stop fails. */
  lemma HostHearsTheDecision(g: GateState, poll: bool, probe: Probe, now: int, obeyed: bool)
    requires g.stExePath != ""
    ensures var end := AfterIteration(g, poll, probe, OneClock(now), obeyed);
            end.lastSyncActive == DesiredRunning(end.inputs, now) && (obeyed ==> end.running == end.lastSyncActive)
  {
  }

  predicate NoInit(run: seq<Event>) {
    forall i :: 0 <= i < |run| ==> !run[i].Init?
  }

  /** After a deliberate stop nothing brings Syncthing up, or tells the host so, until the gate is initialized again:
      not a late kick, not an alarm, not the foreground. */
  lemma {:induction false} NothingRestartsAfterStop(w: World, run: seq<Event>)
    requires w.g.stExePath == "" && !w.g.lastSyncActive && NoInit(run)
    ensures var end := Exec(w, run);
            end.g.stExePath == "" && !end.g.lastSyncActive && end.g.running == w.g.running
    decreases |run|
  {
    if run != [] {
      assert !run[0].Init?;
      assert NoInit(run[1..]) by {
        forall i | 0 <= i < |run[1..]| ensures !run[1..][i].Init? {
          assert run[1..][i] == run[i + 1];
        }
      }
      NothingRestartsAfterStop(Next(w, run[0]), run[1..]);
    }
  }

  /** A deliberate stop leads there and closes the session and the grace. */
  lemma StopIsFinal(g: GateState, now: int)
    ensures var g' := Handle(g, MarkStopped, now);
            && g'.stExePath == "" && !g'.lastSyncActive
            && g'.inputs.sessionEndsAt == 0 && g'.inputs.foregroundUntil == 0 && g'.sessionStartedAt == 0
  {
  }

  // --- When a session ends ---

  function Max(a: int, b: int): int {
    if a < b then b else a
  }

  predicate Bounded(w: World) {
    && w.g.sessionStartedAt <= w.lastTrigger
    && w.g.inputs.sessionEndsAt <= Max(w.lastBusy + ACTIVE_SYNC_EXTEND, w.lastTrigger + CONNECT_GRACE)
  }

  lemma BoundedPoll(w: World, probe: Probe)
    requires Bounded(w) && 0 <= w.lastTrigger <= w.now && 0 <= w.lastBusy <= w.now
    ensures Bounded(Next(w, WakeByTick(probe)))
  {
    var g, e := w.g, WakeByTick(probe);
    if Enabled(w, e) && g.stExePath != "" && SessionOpen(g.inputs, w.now) {
      PollSetsTheEnd(w.now, g.sessionStartedAt, g.inputs.sessionEndsAt, probe);
    } else {
    }
  }

  lemma BoundedStep(w: World, e: Event)
    requires Bounded(w) && 0 <= w.lastTrigger <= w.now && 0 <= w.lastBusy <= w.now
    ensures Bounded(Next(w, e))
    ensures 0 <= Next(w, e).lastTrigger <= Next(w, e).now && 0 <= Next(w, e).lastBusy <= Next(w, e).now
  {
    if e.WakeByTick? {
      BoundedPoll(w, e.probe);
    } else {
    }
  }

  /** The session never outlives the last busy poll by more than the extension and the last trigger by more than
      the connect grace. */
  lemma {:induction false} SessionEndIsBounded(w: World, run: seq<Event>)
    requires Bounded(w) && 0 <= w.lastTrigger <= w.now && 0 <= w.lastBusy <= w.now
    ensures Bounded(Exec(w, run))
    decreases |run|
  {
    if run != [] {
      BoundedStep(w, run[0]);
      SessionEndIsBounded(Next(w, run[0]), run[1..]);
    }
  }

  /** So in the background Syncthing runs at most one poll interval, plus late, beyond the last busy poll plus its
      extension, the last trigger plus its grace, and the foreground grace. */
  lemma BackgroundRunIsBounded(w: World, run: seq<Event>, late: nat)
    requires OnSchedule(w, late) && Prompt(w, run, late)
    requires Bounded(w) && 0 <= w.lastTrigger <= w.now && 0 <= w.lastBusy <= w.now
    ensures var end := Exec(w, run);
            end.g.stExePath != "" && !end.g.kicked && end.g.running && !end.g.inputs.appForeground ==>
              end.now < Max(Max(end.lastBusy + ACTIVE_SYNC_EXTEND, end.lastTrigger + CONNECT_GRACE),
                            end.g.inputs.foregroundUntil) + SYNC_POLL_INTERVAL + late
  {
    StopsWithinOnePoll(w, run, late);
    SessionEndIsBounded(w, run);
  }

  lemma PollKeepsSession(w: World, probe: Probe)
    requires SessionOpen(w.g.inputs, w.now)
    ensures var w' := Next(w, WakeByTick(probe));
            w'.g.sessionStartedAt == w.g.sessionStartedAt && SessionOpen(w'.g.inputs, w.now)
  {
    if w.g.nextTick.Some? && w.g.nextTick.value <= w.now && w.g.stExePath != "" {
      PollKeepsOpen(w.now, w.g.sessionStartedAt, w.g.inputs.sessionEndsAt, probe);
    } else {
    }
  }

  /** The start of a session does not move while the session is open, re-triggers included. */
  lemma SessionStartIsFixed(w: World, e: Event)
    requires SessionOpen(w.g.inputs, w.now) && e != MarkStopped
    ensures Next(w, e).g.sessionStartedAt == w.g.sessionStartedAt
    ensures !e.TimePasses? ==> SessionOpen(Next(w, e).g.inputs, w.now)
  {
    if e.WakeByTick? {
      PollKeepsSession(w, e.probe);
    } else {
    }
  }

  // --- A sync is never interrupted ---

  /** The session is open until at least the connect grace after the last busy poll or trigger. */
  predicate KeptAlive(w: World) {
    && w.g.stExePath != "" && w.g.listening
    && w.lastBusy <= w.now && w.lastTrigger <= w.now && w.g.sessionStartedAt <= w.now
    && SessionOpen(w.g.inputs, w.now)
    && Max(w.lastBusy, w.lastTrigger) + CONNECT_GRACE <= w.g.inputs.sessionEndsAt
  }

  /** Each poll comes less than the connect grace after the last busy poll or trigger. */
  predicate PolledInTime(w: World, run: seq<Event>)
    decreases |run|
  {
    run == []
    || (&& (run[0].TimePasses? ==> run[0].until < Max(w.lastBusy, w.lastTrigger) + CONNECT_GRACE)
        && PolledInTime(Next(w, run[0]), run[1..]))
  }

  predicate StaysUpAndBusy(run: seq<Event>) {
    forall i :: 0 <= i < |run| ==>
      && run[i] != MarkStopped
      && (run[i].Init? ==> run[i].path != "")
      && (run[i].WakeByTick? ==> FindsWork(run[i].probe))
  }

  lemma KeptAliveStep(w: World, e: Event)
    requires KeptAlive(w) && PolledInTime(w, [e]) && StaysUpAndBusy([e])
    ensures KeptAlive(Next(w, e))
  {
    assert e == [e][0];
  }

  /** While polls come less than the connect grace apart and every poll finds work, the session stays open, however
      long the run and however late ticks and kicks are handled, through re-triggers that shorten the deadline. */
  lemma {:induction false} BusySessionNeverEnds(w: World, run: seq<Event>)
    requires KeptAlive(w) && PolledInTime(w, run) && StaysUpAndBusy(run)
    ensures KeptAlive(Exec(w, run))
    decreases |run|
  {
    if run != [] {
      assert PolledInTime(w, [run[0]]);
      assert StaysUpAndBusy([run[0]]) && StaysUpAndBusy(run[1..]);
      KeptAliveStep(w, run[0]);
      BusySessionNeverEnds(Next(w, run[0]), run[1..]);
    }
  }

  /** So a sync is not interrupted: as long as network and battery allow it Syncthing is up, unless an input change
      has not been taken up yet. */
  lemma BusySyncIsNotInterrupted(w: World, run: seq<Event>, late: nat)
    requires KeptAlive(w) && PolledInTime(w, run) && StaysUpAndBusy(run)
    requires OnSchedule(w, late) && Prompt(w, run, late)
    ensures var end := Exec(w, run);
            ConditionsMet(end.g.inputs) && !end.g.kicked ==> end.g.running
  {
    BusySessionNeverEnds(w, run);
    StopsWithinOnePoll(w, run, late);
  }

  /** Opening a session puts the gate in such a state. */
  lemma OpeningKeepsAlive(w: World)
    requires w.g.stExePath != "" && w.g.listening
    requires w.lastBusy <= w.now && w.g.sessionStartedAt <= w.now
    ensures KeptAlive(Next(w, OpenSession))
  {
  }
}
