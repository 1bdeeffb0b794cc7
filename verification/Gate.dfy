/** The power gate's state, its input events and its reconcile loop (mobile/gate.go, mobile/events.go,
    mobile/gate_reconcile.go). GateState and its functions say what each entry point does; the class Gate
    performs it on fields. */
module Gate {
  import opened GateDecision
  import opened Options

  /** listening: the kick channel and the loop exist. kicked: the one-slot kick channel is full. nextTick: when
      the poll ticker, if there is one, fires next. running: the Syncthing process is up. */
  datatype GateState = GateState(stExePath: string, inputs: Inputs, sessionStartedAt: int, listening: bool,
                                 kicked: bool, nextTick: Option<int>, running: bool, lastSyncActive: bool)

  /** What the database gives: settings, nothing because there is no database, or an error. */
  datatype Loaded = Loaded(settings: Settings) | NoStore | Failed

  /** The clock reads of one iteration: on waking, to see whether the session is open, to extend it, to decide, and
      for the ticker. */
  datatype Clocks = Clocks(woken: int, open: int, extend: int, decide: int, tick: int)

  predicate InOrder(c: Clocks) {
    c.woken <= c.open <= c.extend <= c.decide <= c.tick
  }

  function OneClock(now: int): Clocks {
    Clocks(now, now, now, now, now)
  }

  function Initial(settings: Settings): GateState {
    GateState("", Inputs(false, Network("", false, false, false, false, false), false, settings, 0, 0),
              0, false, false, None, false, false)
  }

  function Kick(g: GateState): GateState {
    g.(kicked := g.kicked || g.listening)
  }

  function AfterForeground(g: GateState, fg: bool, now: int): GateState {
    if g.inputs.appForeground == fg then g
    else Kick(g.(inputs := g.inputs.(appForeground := fg, foregroundUntil := if fg then 0 else now + FOREGROUND_GRACE)))
  }

  function AfterOpenSession(g: GateState, now: int): GateState {
    Kick(g.(sessionStartedAt := if SessionOpen(g.inputs, now) then g.sessionStartedAt else now,
            inputs := g.inputs.(sessionEndsAt := now + CONNECT_GRACE)))
  }

  /** A network that becomes acceptable opens a session, unless one is open. */
  predicate NetworkTriggers(g: GateState, n: Network, now: int) {
    && n != g.inputs.network
    && !NetworkAllowed(g.inputs.settings, g.inputs.network)
    && NetworkAllowed(g.inputs.settings, n)
    && !SessionOpen(g.inputs, now)
  }

  function AfterNetwork(g: GateState, n: Network, now: int): GateState {
    if n == g.inputs.network then g else
    var g' := Kick(g.(inputs := g.inputs.(network := n)));
    if NetworkTriggers(g, n, now) then AfterOpenSession(g', now) else g'
  }

  function AfterBattery(g: GateState, low: bool): GateState {
    if g.inputs.batteryLow == low then g else Kick(g.(inputs := g.inputs.(batteryLow := low)))
  }

  /** Alarms are ignored unless the network and battery conditions are met; the poll alarm also needs a change. */
  function AfterAlarm(g: GateState, changed: bool, now: int): GateState {
    if ConditionsMet(g.inputs) && changed then AfterOpenSession(g, now) else g
  }

  function Adopt(i: Inputs, loaded: Loaded): Inputs {
    if loaded.Loaded? then i.(settings := loaded.settings) else i
  }

  /** A failing database leaves everything as it is, and the loop is not kicked. */
  function AfterSettings(g: GateState, loaded: Loaded): GateState {
    if loaded.Failed? then g else Kick(g.(inputs := Adopt(g.inputs, loaded)))
  }

  function AfterInit(g: GateState, path: string, loaded: Loaded): GateState {
    Kick(g.(stExePath := path, listening := true, inputs := Adopt(g.inputs, loaded)))
  }

  function AfterMarkStopped(g: GateState): GateState {
    Kick(g.(stExePath := "", sessionStartedAt := 0, lastSyncActive := false,
            inputs := g.inputs.(sessionEndsAt := 0, foregroundUntil := 0)))
  }

  /** Whether the iteration polls Syncthing. */
  predicate Polls(g: GateState, poll: bool, c: Clocks) {
    poll && SessionOpen(g.inputs, c.open)
  }

  /** The session deadline after the poll, if there is one. */
  function SessionEnd(g: GateState, poll: bool, probe: Probe, c: Clocks): int {
    if Polls(g, poll, c)
    then NextSessionEnd(c.extend, g.sessionStartedAt, g.inputs.sessionEndsAt, KeepaliveBusy(probe), probe.connected)
    else g.inputs.sessionEndsAt
  }

  /** What the iteration wants of the process. Without a poll the clock is not read again before deciding. */
  predicate Wants(g: GateState, poll: bool, probe: Probe, c: Clocks) {
    DesiredRunning(g.inputs.(sessionEndsAt := SessionEnd(g, poll, probe, c)),
                   if Polls(g, poll, c) then c.decide else c.open)
  }

  /** Refresh the session deadline if asked to, then drive the process to the decision. Should Syncthing not start or
      stop when told to (obeyed is false), it stays as it was; the host is told the decision all the same. */
  function AfterReconcile(g: GateState, poll: bool, probe: Probe, c: Clocks, obeyed: bool): GateState {
    if g.stExePath == "" then g else
    var want := Wants(g, poll, probe, c);
    g.(inputs := g.inputs.(sessionEndsAt := SessionEnd(g, poll, probe, c)),
       running := if obeyed then want else g.running, lastSyncActive := want)
  }

  predicate KeepPolling(i: Inputs, now: int) {
    now < i.sessionEndsAt || now < i.foregroundUntil
  }

  /** The ticker runs while a deadline is pending, and an input change never resets it. */
  function AfterTicker(g: GateState, now: int): GateState {
    if !KeepPolling(g.inputs, now) then g.(nextTick := None)
    else if g.nextTick.None? then g.(nextTick := Some(now + SYNC_POLL_INTERVAL))
    else g
  }

  /** The first tick after now of a ticker that fired at t: the ticks in between find the channel full. */
  function TickAfter(t: int, now: int): (next: int)
    requires t <= now
    ensures now < next <= now + SYNC_POLL_INTERVAL
    ensures (next - t) % SYNC_POLL_INTERVAL == 0
  {
    t + ((now - t) / SYNC_POLL_INTERVAL + 1) * SYNC_POLL_INTERVAL
  }

  /** What the loop has received when it wakes at now: the kick, or a tick of the ticker. */
  function Received(g: GateState, poll: bool, now: int): GateState {
    if !poll then g.(kicked := false)
    else if g.nextTick.Some? && g.nextTick.value <= now then g.(nextTick := Some(TickAfter(g.nextTick.value, now)))
    else g
  }

  /** One loop iteration. */
  function AfterIteration(g: GateState, poll: bool, probe: Probe, c: Clocks, obeyed: bool): GateState {
    AfterTicker(AfterReconcile(Received(g, poll, c.woken), poll, probe, c, obeyed), c.tick)
  }

  class Gate {
    var stExePath: string
    var settings: Settings
    var appForeground: bool
    var network: Network
    var batteryLow: bool
    var sessionStartedAt: int
    var sessionEndsAt: int
    var foregroundUntil: int
    var listening: bool
    var kicked: bool
    var nextTick: Option<int>
    var running: bool
    var lastSyncActive: bool

    function Snapshot(): Inputs
      reads this
    {
      Inputs(appForeground, network, batteryLow, settings, sessionEndsAt, foregroundUntil)
    }

    function View(): GateState
      reads this
    {
      GateState(stExePath, Snapshot(), sessionStartedAt, listening, kicked, nextTick, running, lastSyncActive)
    }

    constructor (settings: Settings)
      ensures View() == Initial(settings)
    {
      stExePath, this.settings, appForeground := "", settings, false;
      network, batteryLow := Network("", false, false, false, false, false), false;
      sessionStartedAt, sessionEndsAt, foregroundUntil := 0, 0, 0;
      listening, kicked, nextTick, running, lastSyncActive := false, false, None, false, false;
    }

    method RequestReconcile()
      modifies this`kicked
      ensures View() == Kick(old(View()))
    {
      if !listening {
        return;
      }
      if !kicked {
        kicked := true;
      }
    }

    method OnAppForeground(fg: bool, now: int)
      modifies this
      ensures View() == AfterForeground(old(View()), fg, now)
    {
      if appForeground == fg {
        return;
      }
      appForeground := fg;
      if fg {
        foregroundUntil := 0;
      } else {
        foregroundUntil := now + FOREGROUND_GRACE;
      }
      RequestReconcile();
    }

    method OnNetworkState(n: Network, now: int)
      modifies this
      ensures View() == AfterNetwork(old(View()), n, now)
    {
      if network == n {
        return;
      }
      var wasAllowed := NetworkAllowed(settings, network);
      network := n;
      var nowAllowed := NetworkAllowed(settings, network);
      RequestReconcile();
      if !wasAllowed && nowAllowed {
        var sessionActive := now < sessionEndsAt;
        if !sessionActive {
          OpenSyncSession(now);
        }
      }
    }

    method OnBatteryLow(low: bool)
      modifies this
      ensures View() == AfterBattery(old(View()), low)
    {
      if batteryLow == low {
        return;
      }
      batteryLow := low;
      RequestReconcile();
    }

    method OnTriggerAlarm(now: int)
      modifies this
      ensures View() == AfterAlarm(old(View()), true, now)
    {
      if !NetworkAllowed(settings, network) || !BatteryAllowed(settings, batteryLow) {
        return;
      }
      OpenSyncSession(now);
    }

    method OnTriggerPollAlarm(changed: bool, now: int)
      modifies this
      ensures View() == AfterAlarm(old(View()), changed, now)
    {
      if !NetworkAllowed(settings, network) || !BatteryAllowed(settings, batteryLow) {
        return;
      }
      if changed {
        OpenSyncSession(now);
      }
    }

    method OpenSyncSession(now: int)
      modifies this
      ensures View() == AfterOpenSession(old(View()), now)
    {
      if !(now < sessionEndsAt) {
        sessionStartedAt := now;
      }
      sessionEndsAt := now + CONNECT_GRACE;
      RequestReconcile();
    }

    /** The answer never disagrees with the decision itself once the app is in the background for good. */
    method ShouldStayResident(now: int) returns (stay: bool)
      requires now >= 0
      ensures stay <==> ConditionsMet(Snapshot()) && now < sessionEndsAt
      ensures stay ==> DesiredRunning(Snapshot(), now)
      ensures !appForeground && foregroundUntil <= now ==> (stay <==> DesiredRunning(Snapshot(), now))
    {
      var snap := Snapshot().(appForeground := false, foregroundUntil := 0);
      stay := DesiredRunning(snap, now);
    }

    method RefreshPowerSettings(loaded: Loaded)
      modifies this
      ensures View() == AfterSettings(old(View()), loaded)
    {
      if loaded.Failed? {
        return;
      }
      if loaded.Loaded? {
        settings := loaded.settings;
      }
      RequestReconcile();
    }

    method InitGate(path: string, loaded: Loaded)
      modifies this
      ensures View() == AfterInit(old(View()), path, loaded)
    {
      stExePath := path;
      listening := true;
      if loaded.Loaded? {
        settings := loaded.settings;
      }
      RequestReconcile();
    }

    method MarkStopped()
      modifies this
      ensures View() == AfterMarkStopped(old(View()))
    {
      stExePath := "";
      sessionStartedAt, sessionEndsAt, foregroundUntil := 0, 0, 0;
      RequestReconcile();
      lastSyncActive := false;
    }

    method ReconcileOnce(poll: bool, probe: Probe, c: Clocks, obeyed: bool)
      modifies this
      ensures View() == AfterReconcile(old(View()), poll, probe, c, obeyed)
    {
      if stExePath == "" {
        return;
      }
      var now := c.open;
      if poll && SessionOpen(Snapshot(), now) {
        var busy := KeepaliveBusy(probe);
        sessionEndsAt := NextSessionEnd(c.extend, sessionStartedAt, sessionEndsAt, busy, probe.connected);
        now := c.decide;
      }
      var want := DesiredRunning(Snapshot(), now);
      var have := running;
      if want && !have {
        if obeyed {
          running := true;
        }
      } else if !want && have {
        if obeyed {
          running := false;
        }
      }
      lastSyncActive := want;
    }

    /** The body of the endless loop, once its select has received a kick (poll false) or a tick (poll true). */
    method Iterate(poll: bool, probe: Probe, c: Clocks, obeyed: bool)
      modifies this
      ensures View() == AfterIteration(old(View()), poll, probe, c, obeyed)
    {
      Receive(poll, c.woken);
      ReconcileOnce(poll, probe, c, obeyed);
      Retick(c.tick);
    }

    method Receive(poll: bool, now: int)
      modifies this`kicked, this`nextTick
      ensures View() == Received(old(View()), poll, now)
    {
      if !poll {
        kicked := false;
      } else if nextTick.Some? && nextTick.value <= now {
        nextTick := Some(TickAfter(nextTick.value, now));
      }
    }

    method Retick(now: int)
      modifies this`nextTick
      ensures View() == AfterTicker(old(View()), now)
    {
      var keepPolling := now < sessionEndsAt || now < foregroundUntil;
      if keepPolling && nextTick.None? {
        nextTick := Some(now + SYNC_POLL_INTERVAL);
      } else if !keepPolling && nextTick.Some? {
        nextTick := None;
      }
    }
  }
}
