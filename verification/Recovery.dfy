/** Which deliveries can be lost, by what, and what one tick brings back.

    A delivery is lost when its id stays in flight with nobody holding it and with a row that the
    reaper does not look at: the dedupe mark then refuses every later offer of it. */
module Recovery {
  import opened Basics
  import opened Deliveries
  import opened Protocol
  import opened Ownership
  import W = WindowSpec

  ghost predicate Lost(s: State, id: Id) {
    && id in s.window.inFlight && Unheld(s, id)
    && id in s.rows && s.rows[id].status != Processing
    && forall k :: k in s.schedulers && s.schedulers[k].Releasing? ==> id !in s.schedulers[k].ids
  }

  ghost predicate NoneLost(s: State) {
    forall id :: id in s.window.inFlight ==> !Lost(s, id)
  }

  /** The steps that lose a delivery: a worker stops after taking an id and before locking its row,
      or after recording an outcome (or giving up) and before `complete` takes effect; or the
      scheduler stops between reclaiming rows and releasing their slots. */
  ghost predicate Strands(s: State, step: Step) {
    match step
    case Works(w, Crash) =>
      w in s.workers && (s.workers[w].Popped? || (s.workers[w].Leaving? && s.workers[w].lease.None?))
    case Schedules(k, Abort) =>
      k in s.schedulers && s.schedulers[k].Releasing? && exists id :: id in s.schedulers[k].ids && id in s.window.inFlight
    case _ => false
  }

  lemma LostDuringWork(cfg: Config, s: State, w: nat, act: WorkerAct, id: Id)
    requires Own(cfg, s) && CanWork(cfg, s, w, act) && Lost(s, id)
    ensures Lost(Work(cfg, s, w, act), id)
  {
    var s', me := Work(cfg, s, w, act), s.workers[w];
    W.ExactParts(s.window);
    assert !Holding(me, id) && HolderSound(cfg, s, me);
    assert s'.schedulers == s.schedulers;
    assert id in s'.window.inFlight;
    assert s'.rows[id] == s.rows[id];
    forall v | v in s'.workers ensures !Holding(s'.workers[v], id) {
      assert !Holding(s.workers[v], id);
    }
  }

  lemma LostDuringSchedule(cfg: Config, s: State, k: nat, move: SchedulerAct, id: Id)
    requires Own(cfg, s) && CanSchedule(cfg, s, k, move) && Lost(s, id)
    ensures Lost(Schedule(cfg, s, k, move), id)
  {
    var s', me := Schedule(cfg, s, k, move), s.schedulers[k];
    assert PhaseSound(cfg, s, me);
    assert s'.workers == s.workers;
    assert id in s'.window.inFlight;
    assert s'.rows[id].status != Processing;
    forall j | j in s'.schedulers && s'.schedulers[j].Releasing? ensures id !in s'.schedulers[j].ids {
      assert j != k ==> s'.schedulers[j] == s.schedulers[j];
    }
  }

  /** A lost delivery stays lost whatever happens next: no worker ever holds it again. */
  lemma LostForever(cfg: Config, s: State, step: Step, id: Id)
    requires Own(cfg, s) && Enabled(cfg, s, step) && Lost(s, id)
    ensures Lost(Apply(cfg, s, step), id)
  {
    match step
    case Works(w, act) => LostDuringWork(cfg, s, w, act, id);
    case Schedules(k, move) => LostDuringSchedule(cfg, s, k, move, id);
    case _ =>
      forall w | w in s.workers ensures !Holding(Apply(cfg, s, step).workers[w], id) {
      }
  }

  lemma StrandingLoses(cfg: Config, s: State, step: Step) returns (id: Id)
    requires Own(cfg, s) && OneScheduler(s) && Enabled(cfg, s, step)
    requires Strands(s, step)
    ensures Lost(Apply(cfg, s, step), id)
  {
    match step
    case Works(w, _) =>
      id := s.workers[w].id;
      assert HolderSound(cfg, s, s.workers[w]);
      forall k | k in s.schedulers && s.schedulers[k].Releasing? ensures id !in s.schedulers[k].ids {
        assert PhaseSound(cfg, s, s.schedulers[k]);
      }
    case Schedules(k, _) =>
      id :| id in s.schedulers[k].ids && id in s.window.inFlight;
      assert PhaseSound(cfg, s, s.schedulers[k]) && Evicting(s, id);
  }

  lemma WorkLosesNothing(cfg: Config, s: State, w: nat, act: WorkerAct, id: Id)
    requires Own(cfg, s) && CanWork(cfg, s, w, act)
    requires NoneLost(s) && !Strands(s, Works(w, act))
    requires id in Work(cfg, s, w, act).window.inFlight
    ensures !Lost(Work(cfg, s, w, act), id)
  {
    var s', me := Work(cfg, s, w, act), s.workers[w];
    W.ExactParts(s.window);
    assert HolderSound(cfg, s, me);
    if act.Pop? && id == s.window.ready[0] {
      assert Holding(s'.workers[w], id);
    } else {
      assert id in s.window.inFlight && !Lost(s, id);
      if v :| v in s.workers && Holding(s.workers[v], id) {
        if v != w {
          assert Holding(s'.workers[v], id);
        } else if !act.Complete? && !act.Crash? {
          assert Holding(s'.workers[w], id);
        }
      }
    }
  }

  lemma ScheduleLosesNothing(cfg: Config, s: State, k: nat, move: SchedulerAct, id: Id)
    requires Own(cfg, s) && OneScheduler(s) && CanSchedule(cfg, s, k, move)
    requires NoneLost(s) && !Strands(s, Schedules(k, move))
    requires id in Schedule(cfg, s, k, move).window.inFlight
    ensures !Lost(Schedule(cfg, s, k, move), id)
  {
    var s' := Schedule(cfg, s, k, move);
    assert PhaseSound(cfg, s, s.schedulers[k]);
    assert id in s.window.inFlight && !Lost(s, id);
    if v :| v in s.workers && Holding(s.workers[v], id) {
      assert Holding(s'.workers[v], id);
    } else if move.ReapUpdate? && s.rows[id].status == Processing {
      assert id in s.schedulers[k].ids ==> s'.schedulers[k] == Releasing(s.schedulers[k].ids);
    }
  }

  /** With one scheduler and workers inside their lease, a step loses a delivery exactly when it is
      one of the stranding steps. */
  lemma StepLosesIff(cfg: Config, s: State, step: Step)
    requires Own(cfg, s) && OneScheduler(s) && Enabled(cfg, s, step) && cfg.holdMs <= cfg.leaseMs
    requires NoneLost(s)
    ensures NoneLost(Apply(cfg, s, step)) <==> !Strands(s, step)
  {
    var s' := Apply(cfg, s, step);
    if Strands(s, step) {
      var id := StrandingLoses(cfg, s, step);
    } else {
      forall id | id in s'.window.inFlight ensures !Lost(s', id) {
        match step
        case Works(w, act) => WorkLosesNothing(cfg, s, w, act, id);
        case Schedules(k, move) => ScheduleLosesNothing(cfg, s, k, move, id);
        case _ => EnvironmentLosesNothing(cfg, s, step, id);
      }
    }
  }

  lemma EnvironmentLosesNothing(cfg: Config, s: State, step: Step, id: Id)
    requires Own(cfg, s) && Enabled(cfg, s, step) && NoneLost(s)
    requires step.Advance? || step.NewDelivery? || step.ReplayDelivery?
    requires id in s.window.inFlight
    ensures !Lost(Apply(cfg, s, step), id)
  {
    var s' := Apply(cfg, s, step);
    assert !Lost(s, id);
    if v :| v in s.workers && Holding(s.workers[v], id) {
      assert Holding(s'.workers[v], id);
    }
  }

  // ---- Whole runs --------------------------------------------------------------------------

  ghost predicate NeverStrands(cfg: Config, start: State, steps: seq<Step>)
    requires Run(cfg, start, steps).Some?
  {
    steps == [] || (
      var before, last := steps[..|steps| - 1], steps[|steps| - 1];
      NeverStrands(cfg, start, before) && !Strands(Run(cfg, start, before).value, last))
  }

  /** Over a whole run: nothing is lost if and only if no step of the run was a stranding one. */
  lemma {:induction false} RunLosesNothingIff(cfg: Config, start: State, steps: seq<Step>)
    requires Init(start) && OneScheduler(start) && cfg.holdMs <= cfg.leaseMs
    requires Run(cfg, start, steps).Some?
    ensures NoneLost(Run(cfg, start, steps).value) <==> NeverStrands(cfg, start, steps)
  {
    if steps != [] {
      var n := |steps| - 1;
      var s, step := Run(cfg, start, steps[..n]).value, steps[n];
      RunLosesNothingIff(cfg, start, steps[..n]);
      RunKeepsOwn(cfg, start, steps[..n]);
      if NoneLost(s) {
        StepLosesIff(cfg, s, step);
      } else {
        var id :| id in s.window.inFlight && Lost(s, id);
        LostForever(cfg, s, step, id);
      }
    }
  }

  // ---- Where a delivery can be when nothing was lost -----------------------------------------

  ghost predicate Held(s: State, id: Id) {
    exists w :: w in s.workers && Holding(s.workers[w], id)
  }

  ghost predicate BeingReleased(s: State, id: Id) {
    exists k :: k in s.schedulers && s.schedulers[k].Releasing? && id in s.schedulers[k].ids
  }

  /** Every row is somewhere that something serves: a due or waiting row is out of the window, or a
      worker or the scheduler is about to take it out; a queued row is ready, or held, or absent from
      the window, where the sweep finds it; a row being processed is held, or carries a lease that has
      begun and that the reaper will find run out; a finished row is out of the window or on its way. */
  ghost predicate Served(s: State, id: Id)
    requires id in s.rows
  {
    match s.rows[id].status
    case Pending => id in s.window.dedupe ==> Held(s, id) || BeingReleased(s, id)
    case Waiting => id in s.window.dedupe ==> Held(s, id) || BeingReleased(s, id)
    case Queued => id in s.window.ready || Held(s, id) || id !in s.window.dedupe
    case Processing => Held(s, id) || LeaseBegun(s, id)
    case Delivered => id in s.window.dedupe ==> Held(s, id)
    case Failed => id in s.window.dedupe ==> Held(s, id)
  }

  predicate LeaseBegun(s: State, id: Id) {
    id in s.rows && s.rows[id].lockedAt.Some? && s.rows[id].lockedAt.value <= s.now
  }

  lemma UnlostIsServed(cfg: Config, s: State, id: Id)
    requires Own(cfg, s) && id in s.rows && !Lost(s, id)
    requires s.rows[id].status == Processing ==> LeaseBegun(s, id)
    ensures Served(s, id)
  {
    W.ExactParts(s.window);
    forall k | k in s.schedulers && s.schedulers[k].Releasing? ensures PhaseSound(cfg, s, s.schedulers[k]) {
    }
  }

  lemma LostIsNotServed(cfg: Config, s: State, id: Id)
    requires Own(cfg, s) && Lost(s, id)
    ensures !Served(s, id)
  {
    W.ExactParts(s.window);
  }

  /** A row is served exactly when it is not lost. */
  lemma ServedIffNotLost(cfg: Config, s: State, id: Id)
    requires Own(cfg, s) && id in s.rows
    requires s.rows[id].status == Processing ==> LeaseBegun(s, id)
    ensures Served(s, id) <==> !Lost(s, id)
  {
    if Lost(s, id) {
      LostIsNotServed(cfg, s, id);
    } else {
      UnlostIsServed(cfg, s, id);
    }
  }

  // ---- One tick's recovery half --------------------------------------------------------------

  /** Queued, absent from the window, and older than the grace period. */
  ghost predicate Orphaned(cfg: Config, s: State, id: Id, t: int) {
    id in s.rows && Stale(s.rows[id], t - cfg.graceMs) && id !in s.window.dedupe
  }

  ghost predicate Recovered(s: State, id: Id) {
    id in s.rows && Eligible(s.rows[id], s.now) && id !in s.window.dedupe
  }

  /** How far a tick that began at `t` has brought a delivery that was abandoned by then. */
  ghost predicate Recovering(cfg: Config, s: State, phase: Phase, id: Id, t: int) {
    && id in s.rows
    && match phase
       case Reaping(since) => t <= since && (Expired(s.rows[id], t - cfg.leaseMs) || Orphaned(cfg, s, id, t))
       case Reclaiming(ids, since) => t <= since && ((id in ids && Expired(s.rows[id], t - cfg.leaseMs)) || Orphaned(cfg, s, id, t))
       case Releasing(ids) => (id in ids && Eligible(s.rows[id], s.now)) || Orphaned(cfg, s, id, t)
       case Sweeping(since) => t <= since && (Recovered(s, id) || Orphaned(cfg, s, id, t))
       case Checking(ids) => Recovered(s, id) || (id in ids && Orphaned(cfg, s, id, t))
       case Resetting(ids, _) => Recovered(s, id) || (id in ids && Orphaned(cfg, s, id, t))
       case Measuring => Recovered(s, id)
       case _ => false
  }

  lemma EnvironmentKeepsRecovering(cfg: Config, s: State, step: Step, k: nat, id: Id, t: int)
    requires Own(cfg, s) && Enabled(cfg, s, step) && k in s.schedulers
    requires step.Advance? || step.NewDelivery? || step.ReplayDelivery?
    requires Recovering(cfg, s, s.schedulers[k], id, t)
    ensures Recovering(cfg, Apply(cfg, s, step), s.schedulers[k], id, t)
  {
  }

  lemma WorkKeepsRecovering(cfg: Config, s: State, w: nat, act: WorkerAct, k: nat, id: Id, t: int)
    requires Own(cfg, s) && CanWork(cfg, s, w, act) && k in s.schedulers && cfg.holdMs <= cfg.leaseMs
    requires t <= s.now && Recovering(cfg, s, s.schedulers[k], id, t)
    ensures Recovering(cfg, Work(cfg, s, w, act), s.schedulers[k], id, t)
  {
    var s', me := Work(cfg, s, w, act), s.workers[w];
    W.ExactParts(s.window);
    assert HolderSound(cfg, s, me) && PhaseSound(cfg, s, s.schedulers[k]);
    assert s'.now == s.now && s'.window.dedupe <= s.window.dedupe;
    assert s'.rows[id] == s.rows[id];
  }

  lemma ScheduleKeepsRecovering(cfg: Config, s: State, k: nat, move: SchedulerAct, id: Id, t: int)
    requires Own(cfg, s) && CanSchedule(cfg, s, k, move)
    requires !move.Abort? && !move.Measure? && t <= s.now
    requires Recovering(cfg, s, s.schedulers[k], id, t)
    ensures Recovering(cfg, Schedule(cfg, s, k, move), Schedule(cfg, s, k, move).schedulers[k], id, t)
  {
    var s', me := Schedule(cfg, s, k, move), s.schedulers[k];
    assert PhaseSound(cfg, s, me);
  }

  /** The tick of scheduler `k` is not cut short, and does not get past its recovery half. */
  predicate StaysInRecovery(steps: seq<Step>, k: nat) {
    forall i :: 0 <= i < |steps| ==> steps[i].Schedules? && steps[i].k == k ==> !steps[i].move.Abort? && !steps[i].move.Measure?
  }

  lemma {:induction false} TickRecovering(cfg: Config, s: State, steps: seq<Step>, k: nat, id: Id, t: int)
    requires Own(cfg, s) && OneScheduler(s) && cfg.holdMs <= cfg.leaseMs
    requires k in s.schedulers && t <= s.now && Recovering(cfg, s, s.schedulers[k], id, t)
    requires Run(cfg, s, steps).Some? && StaysInRecovery(steps, k)
    ensures var s' := Run(cfg, s, steps).value;
            && Own(cfg, s') && OneScheduler(s') && k in s'.schedulers && t <= s'.now
            && Recovering(cfg, s', s'.schedulers[k], id, t)
  {
    if steps != [] {
      var n := |steps| - 1;
      var mid, step := Run(cfg, s, steps[..n]), steps[n];
      TickRecovering(cfg, s, steps[..n], k, id, t);
      StepKeepsOwn(cfg, mid.value, step);
      match step
      case Works(w, act) => WorkKeepsRecovering(cfg, mid.value, w, act, k, id, t);
      case Schedules(j, move) => ScheduleKeepsRecovering(cfg, mid.value, k, move, id, t);
      case _ => EnvironmentKeepsRecovering(cfg, mid.value, step, k, id, t);
    }
  }

  /** Whatever else happens meanwhile, a delivery that was abandoned when a tick began, by a dead
      worker past its lease or by a scheduler past the grace period, is eligible and out of the
      window when the tick comes to refill it. */
  lemma TickRecoversAbandoned(cfg: Config, s: State, steps: seq<Step>, k: nat, id: Id)
    requires Own(cfg, s) && OneScheduler(s) && cfg.holdMs <= cfg.leaseMs
    requires k in s.schedulers && s.schedulers[k] == Reaping(s.now) && id in s.rows
    requires Expired(s.rows[id], s.now - cfg.leaseMs) || Orphaned(cfg, s, id, s.now)
    requires Run(cfg, s, steps).Some? && StaysInRecovery(steps, k)
    ensures var s' := Run(cfg, s, steps).value;
            k in s'.schedulers && (s'.schedulers[k].Measuring? ==> Recovered(s', id))
  {
    TickRecovering(cfg, s, steps, k, id, s.now);
  }

  // ---- From not lost to recovered ------------------------------------------------------------

  /** The moment from which the recovery half of a tick looks at a row. */
  predicate PastAge(cfg: Config, row: Row, now: int) {
    (row.status == Processing && row.lockedAt.Some? && row.lockedAt.value < now - cfg.leaseMs)
    || (row.status == Queued && row.updatedAt < now - cfg.graceMs)
  }

  /** A queued or processed row that nobody is going to finish is what recovery looks for, if it is not lost. */
  lemma UnattendedIsAbandoned(cfg: Config, s: State, id: Id)
    requires Own(cfg, s) && id in s.rows && !Lost(s, id)
    requires id !in s.window.ready && !Held(s, id) && PastAge(cfg, s.rows[id], s.now)
    ensures Expired(s.rows[id], s.now - cfg.leaseMs) || Orphaned(cfg, s, id, s.now)
  {
    if s.rows[id].status == Queued {
      W.ExactParts(s.window);
      forall k | k in s.schedulers && s.schedulers[k].Releasing? ensures id !in s.schedulers[k].ids {
        assert PhaseSound(cfg, s, s.schedulers[k]);
      }
    }
  }
}
