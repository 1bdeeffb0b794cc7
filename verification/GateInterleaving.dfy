/** The reconcile loop in small steps (mobile/gate_reconcile.go). The loop holds the lock only to copy or update
    fields, so input events arrive, and time passes, in the middle of an iteration: during the probe, and while
    Syncthing starts or stops. */
module GateInterleaving {
  import GateRuns
  import opened Gate
  import opened GateDecision
  import opened Options

  /** Where the loop is: waiting in its select; woken; about to take its snapshot, after probing if probing;
      about to drive the process to the snapshot's decision at time at; about to look at the ticker. */
  datatype Phase =
    | Waiting
    | Woken(poll: bool)
    | Checked(probing: bool)
    | Acting(snap: Inputs, at: int)
    | Acted(at: int)

  datatype World = World(g: GateState, now: int, phase: Phase)

  datatype Step =
    | Input(event: GateRuns.Event)
    | TimePasses(until: int)
    | ReceiveKick
    | ReceiveTick
    | Check
    | Snapshot(probe: Probe)
    | Act
    | Tick

  /** Input events are every event but the loop's own steps and the clock. */
  predicate IsInput(e: GateRuns.Event) {
    !e.WakeByKick? && !e.WakeByTick? && !e.TimePasses?
  }

  /** No deadline falls after from, up to and including to. */
  predicate NoDeadlineIn(i: Inputs, from: int, to: int) {
    && !(from < i.sessionEndsAt <= to)
    && !(from < i.foregroundUntil <= to)
  }

  /** The one premise on time: between the clock read of the decision and that of the ticker no deadline falls. */
  predicate MayPass(w: World, until: int) {
    && w.now <= until
    && (w.phase.Acting? || w.phase.Acted? ==> NoDeadlineIn(w.g.inputs, w.phase.at, until))
  }

  predicate Enabled(w: World, step: Step) {
    match step
    case Input(e) => IsInput(e)
    case TimePasses(until) => MayPass(w, until)
    case ReceiveKick => w.phase == Waiting && w.g.kicked
    case ReceiveTick => w.phase == Waiting && w.g.nextTick.Some? && w.g.nextTick.value <= w.now
    case Check => w.phase.Woken?
    case Snapshot(_) => w.phase.Checked?
    case Act => w.phase.Acting?
    case Tick => w.phase.Acted?
  }

  function Next(w: World, step: Step): World {
    if !Enabled(w, step) then w else
    match step
    case Input(e) => w.(g := GateRuns.Handle(w.g, e, w.now))
    case TimePasses(until) => w.(now := until)
    case ReceiveKick => w.(g := Received(w.g, false, w.now), phase := Woken(false))
    case ReceiveTick => w.(g := Received(w.g, true, w.now), phase := Woken(true))
    case Check =>
      if w.g.stExePath == "" then w.(phase := Acted(w.now))
      else w.(phase := Checked(w.phase.poll && SessionOpen(w.g.inputs, w.now)))
    case Snapshot(probe) =>
      var current := w.g.inputs.sessionEndsAt;
      var ends := if w.phase.probing
                  then NextSessionEnd(w.now, w.g.sessionStartedAt, current, KeepaliveBusy(probe), probe.connected)
                  else current;
      var inputs := w.g.inputs.(sessionEndsAt := ends);
      w.(g := w.g.(inputs := inputs), phase := Acting(inputs, w.now))
    case Act =>
      var want := DesiredRunning(w.phase.snap, w.phase.at);
      w.(g := w.g.(running := want, lastSyncActive := want), phase := Acted(w.phase.at))
    case Tick => w.(g := AfterTicker(w.g, w.now), phase := Waiting)
  }

  function Exec(w: World, run: seq<Step>): World
    decreases |run|
  {
    if run == [] then w else Exec(Next(w, run[0]), run[1..])
  }

  /** Unless a kick is queued, the loop is on its way to the right state or has reached it: what it has copied
      or decided is still what the inputs say. */
  predicate OnTrack(w: World) {
    w.g.stExePath != "" ==>
      && w.g.listening
      && (w.g.kicked
          || match w.phase
             case Waiting => w.g.nextTick.Some? || GateRuns.Settled(w.g, w.now)
             case Woken(_) => true
             case Checked(_) => true
             case Acting(snap, at) => snap == w.g.inputs && NoDeadlineIn(snap, at, w.now)
             case Acted(at) => w.g.running == DesiredRunning(w.g.inputs, at) && NoDeadlineIn(w.g.inputs, at, w.now))
  }

  /** An input event that changes anything the decision reads queues a kick, once the loop exists. */
  lemma ChangedInputsKick(g: GateState, e: GateRuns.Event, now: int)
    requires IsInput(e)
    ensures var g' := GateRuns.Handle(g, e, now);
            && (g'.kicked || (g'.inputs == g.inputs && g'.stExePath == g.stExePath) || !g'.listening)
            && (g.kicked ==> g'.kicked) && (g.listening ==> g'.listening)
            && (g'.stExePath != "" ==> g.stExePath != "" || g'.kicked)
            && g'.running == g.running && g'.nextTick == g.nextTick
  {
  }

  lemma OnTrackStep(w: World, step: Step)
    requires OnTrack(w)
    ensures OnTrack(Next(w, step))
  {
    if step.Input? && IsInput(step.event) {
      ChangedInputsKick(w.g, step.event, w.now);
    }
  }

  /** In every interleaving, whenever the process is not in the wanted state, a kick is queued, the ticker is
      armed, or an iteration is running; and a waiting loop with neither has reached the wanted state for good. */
  lemma {:induction false} NoLostWakeUpInterleaved(w: World, run: seq<Step>)
    requires OnTrack(w)
    ensures var end := Exec(w, run);
            OnTrack(end)
            && (end.g.stExePath != "" && end.g.running != DesiredRunning(end.g.inputs, end.now) ==>
                  end.g.kicked || end.g.nextTick.Some? || end.phase != Waiting)
    decreases |run|
  {
    if run != [] {
      OnTrackStep(w, run[0]);
      NoLostWakeUpInterleaved(Next(w, run[0]), run[1..]);
    }
  }

  /** The gate starts on track: before Init there is nothing to run, and Init queues the first kick. */
  lemma InitOnTrack(g: GateState, path: string, loaded: Loaded, now: int)
    ensures OnTrack(World(AfterInit(g, path, loaded), now, Waiting))
  {
  }
}
