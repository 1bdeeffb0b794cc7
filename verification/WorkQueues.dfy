/** Coalesced work: requests fill a one-slot channel and a worker serves it (internal/api/push.go and
    internal/api/pipeline.go). The pipeline first asks whether Syncthing is ready and, if not, re-schedules itself
    by a timer; the push worker is the same machine with a check that always succeeds. */
module WorkQueues {
  datatype Worker = Idle | Received | Working

  /** requested counts all requests; served is how many of them were made before the latest full run began. */
  datatype Queue = Queue(slot: bool, worker: Worker, timers: nat, requested: nat, served: nat)

  const EMPTY := Queue(false, Idle, 0, 0, 0)

  datatype Step = Schedule | Receive | Check(ready: bool) | Finish | TimerFires

  predicate Enabled(q: Queue, step: Step) {
    match step
    case Schedule => true
    case Receive => q.worker == Idle && q.slot
    case Check(_) => q.worker == Received
    case Finish => q.worker == Working
    case TimerFires => q.timers > 0
  }

  function Next(q: Queue, step: Step): Queue {
    if !Enabled(q, step) then q else
    match step
    case Schedule => q.(slot := true, requested := q.requested + 1)
    case Receive => q.(slot := false, worker := Received)
    case Check(ready) =>
      if ready then q.(worker := Working, served := q.requested) else q.(worker := Idle, timers := q.timers + 1)
    case Finish => q.(worker := Idle)
    case TimerFires => q.(slot := true, timers := q.timers - 1)
  }

  class Scheduler {
    var slot: bool
    var worker: Worker
    var timers: nat
    var requested: nat
    var served: nat

    function View(): Queue
      reads this
    {
      Queue(slot, worker, timers, requested, served)
    }

    constructor ()
      ensures View() == EMPTY
    {
      slot, worker, timers, requested, served := false, Idle, 0, 0, 0;
    }

    /** Fills the slot without blocking. */
    method Put()
      modifies this`slot
      ensures slot
    {
      if !slot {
        slot := true;
      }
    }

    method SchedulePipeline()
      modifies this
      ensures View() == Next(old(View()), Schedule)
    {
      requested := requested + 1;
      Put();
    }

    method WorkerReceives()
      requires worker == Idle && slot
      modifies this
      ensures View() == Next(old(View()), Receive)
    {
      slot, worker := false, Received;
    }

    method Pipeline(ready: bool)
      requires worker == Received
      modifies this
      ensures View() == Next(old(View()), Check(ready))
      ensures slot == old(slot) && requested == old(requested)
      ensures ready ==> worker == Working && served == requested && timers == old(timers)
      ensures !ready ==> worker == Idle && served == old(served) && timers == old(timers) + 1
    {
      if !ready {
        timers := timers + 1;
        worker := Idle;
        return;
      }
      served := requested;
      worker := Working;
    }

    method RetryTimerFires()
      requires timers > 0
      modifies this
      ensures View() == Next(old(View()), TimerFires)
    {
      timers := timers - 1;
      Put();
    }
  }

  /** A request not yet served has a token in the slot, in the worker's hands, or in a retry timer. */
  predicate NothingForgotten(q: Queue) {
    && q.served <= q.requested
    && (q.served < q.requested ==> q.slot || q.worker == Received || q.timers > 0)
  }

  function Exec(q: Queue, run: seq<Step>): Queue
    decreases |run|
  {
    if run == [] then q else Exec(Next(q, run[0]), run[1..])
  }

  lemma {:induction false} NoRequestIsLost(q: Queue, run: seq<Step>)
    requires NothingForgotten(q)
    ensures NothingForgotten(Exec(q, run))
    decreases |run|
  {
    if run != [] {
      NoRequestIsLost(Next(q, run[0]), run[1..]);
    }
  }

  /** How many steps of its own the system still has to take. */
  function Rank(q: Queue): nat {
    4 * q.timers + (if q.slot then 3 else 0) + match q.worker case Idle => 0 case Received => 2 case Working => 1
  }

  /** The system's own steps, with Syncthing ready. */
  predicate Progresses(q: Queue, run: seq<Step>)
    decreases |run|
  {
    run == []
    || (run[0] != Schedule && run[0] != Check(false) && Enabled(q, run[0]) && Progresses(Next(q, run[0]), run[1..]))
  }

  predicate CanProgress(q: Queue) {
    Enabled(q, Receive) || Enabled(q, Check(true)) || Enabled(q, Finish) || Enabled(q, TimerFires)
  }

  /** Once Syncthing answers, whatever happened before, the system comes to rest after finitely many steps of its
      own, in any order, and at rest every request has been served by a run that began after it. */
  lemma {:induction false} EveryRequestIsServed(q: Queue, run: seq<Step>)
    requires NothingForgotten(q) && Progresses(q, run)
    ensures |run| + Rank(Exec(q, run)) <= Rank(q)
    ensures !CanProgress(Exec(q, run)) <==> Rank(Exec(q, run)) == 0
    ensures !CanProgress(Exec(q, run)) ==> Exec(q, run).served == Exec(q, run).requested == q.requested
    decreases |run|
  {
    if run != [] {
      EveryRequestIsServed(Next(q, run[0]), run[1..]);
    }
  }
}
