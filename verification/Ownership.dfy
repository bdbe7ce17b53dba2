/** Exclusive ownership: with one scheduler, and workers that finish within the lease, the window is
    exact and every delivery has at most one live holder in every reachable state. */
module Ownership {
  import opened Basics
  import opened Deliveries
  import opened Protocol
  import W = WindowSpec

  ghost predicate InLease(cfg: Config, now: int, lockedAt: int) {
    lockedAt <= now <= lockedAt + cfg.holdMs
  }

  ghost predicate LockedRow(row: Row, lockedAt: int) {
    row.status == Processing && row.lockedAt == Some(lockedAt)
  }

  ghost predicate HolderSound(cfg: Config, s: State, me: Worker) {
    me.Free? || (
      && me.id in s.window.inFlight && me.id in s.rows
      && match me
         case Popped(id, since) => s.rows[id].status == Queued && since <= s.now
         case Locked(id, lockedAt) => LockedRow(s.rows[id], lockedAt) && InLease(cfg, s.now, lockedAt)
         case Sending(id, lockedAt, attempt) =>
           && LockedRow(s.rows[id], lockedAt) && InLease(cfg, s.now, lockedAt)
           && attempt == s.rows[id].attempt + 1
         case Leaving(id, None) => s.rows[id].status != Processing
         case Leaving(id, Some(lockedAt)) => LockedRow(s.rows[id], lockedAt) && InLease(cfg, s.now, lockedAt))
  }

  ghost predicate HoldersSound(cfg: Config, s: State) {
    forall w :: w in s.workers ==> HolderSound(cfg, s, s.workers[w])
  }

  ghost predicate HoldersApart(s: State) {
    forall v, w :: v in s.workers && w in s.workers && v != w && !s.workers[v].Free? && !s.workers[w].Free?
      ==> s.workers[v].id != s.workers[w].id
  }

  ghost predicate ReadyQueued(s: State) {
    forall id :: id in s.window.ready ==> Claimable(s.rows, id)
  }

  ghost predicate InFlightKnown(s: State) {
    forall id :: id in s.window.inFlight ==> id in s.rows
  }

  ghost predicate Unheld(s: State, id: Id) {
    forall w :: w in s.workers ==> !Holding(s.workers[w], id)
  }

  /** A claimed row whose publication is still undecided: queued, not ready, and not about to be
      locked; a worker that has finished with it may still be on its way out. */
  ghost predicate Promised(s: State, id: Id) {
    && Claimable(s.rows, id) && id !in s.window.ready
    && forall w :: w in s.workers && Holding(s.workers[w], id) ==> s.workers[w].Leaving?
  }

  /** A reclaimed row whose place in the window is about to be given up: nobody can lock it. */
  ghost predicate Evicting(s: State, id: Id) {
    && id in s.rows && s.rows[id].status == Waiting
    && id !in s.window.ready && Unheld(s, id)
  }

  ghost predicate PhaseSound(cfg: Config, s: State, phase: Phase) {
    match phase
    case Idle => true
    case Reaping(since) => since <= s.now
    case Reclaiming(ids, since) =>
      since <= s.now && forall id :: id in ids ==> id in s.rows && Expired(s.rows[id], s.now - cfg.leaseMs)
    case Releasing(ids) => forall id :: id in ids ==> Evicting(s, id)
    case Sweeping(since) => since <= s.now
    case Checking(_) => true
    case Resetting(ids, since) =>
      since <= s.now && forall id :: id in ids && Claimable(s.rows, id) ==> id !in s.window.dedupe
    case Measuring => true
    case Filling(_, since) => since <= s.now
    case Publishing(ids, room) => |ids| <= room && Distinct(ids) && forall id :: id in ids ==> Promised(s, id)
    case Rejecting(ids, _, _) => forall id :: id in ids ==> Promised(s, id)
    case Undoing(ids) => forall id :: id in ids ==> Promised(s, id)
  }

  ghost predicate PhasesSound(cfg: Config, s: State) {
    forall k :: k in s.schedulers ==> PhaseSound(cfg, s, s.schedulers[k])
  }

  ghost predicate Own(cfg: Config, s: State) {
    && W.Exact(s.window)
    && ReadyQueued(s)
    && InFlightKnown(s)
    && HoldersSound(cfg, s)
    && HoldersApart(s)
    && PhasesSound(cfg, s)
  }

  // ---- Environment -----------------------------------------------------------------------

  lemma EnvironmentKeepsHolders(cfg: Config, s: State, step: Step)
    requires HoldersSound(cfg, s) && Enabled(cfg, s, step)
    requires step.Advance? || step.NewDelivery? || step.ReplayDelivery?
    ensures HoldersSound(cfg, Apply(cfg, s, step))
  {
    var s' := Apply(cfg, s, step);
    forall w | w in s'.workers ensures HolderSound(cfg, s', s'.workers[w]) {
      assert HolderSound(cfg, s, s.workers[w]);
    }
  }

  lemma EnvironmentKeepsPhases(cfg: Config, s: State, step: Step)
    requires PhasesSound(cfg, s) && Enabled(cfg, s, step)
    requires step.Advance? || step.NewDelivery? || step.ReplayDelivery?
    ensures PhasesSound(cfg, Apply(cfg, s, step))
  {
    var s' := Apply(cfg, s, step);
    forall k | k in s'.schedulers ensures PhaseSound(cfg, s', s'.schedulers[k]) {
      assert PhaseSound(cfg, s, s.schedulers[k]);
    }
  }

  lemma EnvironmentKeepsOwn(cfg: Config, s: State, step: Step)
    requires Own(cfg, s) && Enabled(cfg, s, step)
    requires step.Advance? || step.NewDelivery? || step.ReplayDelivery?
    ensures Own(cfg, Apply(cfg, s, step))
  {
    EnvironmentKeepsHolders(cfg, s, step);
    EnvironmentKeepsPhases(cfg, s, step);
  }

  // ---- Workers ---------------------------------------------------------------------------

  lemma PopKeepsOwn(cfg: Config, s: State, w: nat)
    requires Own(cfg, s) && CanWork(cfg, s, w, Pop)
    ensures Own(cfg, Work(cfg, s, w, Pop))
  {
    var s', id := Work(cfg, s, w, Pop), s.window.ready[0];
    W.ExactParts(s.window);
    W.PopKeepsExact(s.window);
    assert id in s.window.ready && Claimable(s.rows, id);
    forall v | v in s'.workers ensures HolderSound(cfg, s', s'.workers[v]) && (v != w ==> !Holding(s'.workers[v], id)) {
      assert HolderSound(cfg, s, s.workers[v]);
    }
    forall k | k in s'.schedulers ensures PhaseSound(cfg, s', s'.schedulers[k]) {
      assert PhaseSound(cfg, s, s.schedulers[k]);
    }
  }

  lemma LockKeepsOwn(cfg: Config, s: State, w: nat, stamp: int)
    requires Own(cfg, s) && CanWork(cfg, s, w, Lock(stamp))
    ensures Own(cfg, Work(cfg, s, w, Lock(stamp)))
  {
    var s', me := Work(cfg, s, w, Lock(stamp)), s.workers[w];
    W.ExactParts(s.window);
    assert HolderSound(cfg, s, me);
    forall v | v in s'.workers ensures HolderSound(cfg, s', s'.workers[v]) {
      assert HolderSound(cfg, s, s.workers[v]);
    }
    forall k | k in s'.schedulers ensures PhaseSound(cfg, s', s'.schedulers[k]) {
      assert PhaseSound(cfg, s, s.schedulers[k]);
    }
  }

  /** A live holder's row is never among those the reaper read: its lease has not run out. */
  lemma HeldIsNotExpired(cfg: Config, s: State, w: nat)
    requires HoldersSound(cfg, s) && cfg.holdMs <= cfg.leaseMs
    requires w in s.workers && !s.workers[w].Free?
    ensures s.workers[w].id in s.rows && !Expired(s.rows[s.workers[w].id], s.now - cfg.leaseMs)
  {
    assert HolderSound(cfg, s, s.workers[w]);
  }

  lemma RecordKeepsOwn(cfg: Config, s: State, w: nat, act: WorkerAct)
    requires Own(cfg, s) && CanWork(cfg, s, w, act) && cfg.holdMs <= cfg.leaseMs
    requires act.Succeed? || act.Fail?
    ensures Own(cfg, Work(cfg, s, w, act))
  {
    var s', me := Work(cfg, s, w, act), s.workers[w];
    var row := s'.rows[me.id];
    assert s'.rows == s.rows[me.id := row] && row.status != Processing && row.status != Queued;
    assert s'.workers == s.workers[w := Leaving(me.id, None)];
    W.ExactParts(s.window);
    assert HolderSound(cfg, s, me);
    HeldIsNotExpired(cfg, s, w);
    forall v | v in s'.workers ensures HolderSound(cfg, s', s'.workers[v]) {
      assert HolderSound(cfg, s, s.workers[v]);
    }
    forall k | k in s'.schedulers ensures PhaseSound(cfg, s', s'.schedulers[k]) {
      assert PhaseSound(cfg, s, s.schedulers[k]);
    }
  }

  /** Steps in which a worker changes only its own state. */
  lemma LocalWorkKeepsOwn(cfg: Config, s: State, w: nat, act: WorkerAct)
    requires Own(cfg, s) && CanWork(cfg, s, w, act)
    requires act.Skip? || act.Read? || act.Throw? || act.Crash?
    ensures Own(cfg, Work(cfg, s, w, act))
  {
    var s' := Work(cfg, s, w, act);
    assert HolderSound(cfg, s, s.workers[w]);
    forall v | v in s'.workers ensures HolderSound(cfg, s', s'.workers[v]) {
      assert HolderSound(cfg, s, s.workers[v]);
    }
    forall k | k in s'.schedulers ensures PhaseSound(cfg, s', s'.schedulers[k]) {
      assert PhaseSound(cfg, s, s.schedulers[k]);
    }
  }

  lemma CompleteKeepsOwn(cfg: Config, s: State, w: nat)
    requires Own(cfg, s) && CanWork(cfg, s, w, Complete)
    ensures Own(cfg, Work(cfg, s, w, Complete))
    ensures W.Occupancy(Work(cfg, s, w, Complete).window) == W.Occupancy(s.window) - 1
  {
    var s', me := Work(cfg, s, w, Complete), s.workers[w];
    W.ExactParts(s.window);
    assert HolderSound(cfg, s, me);
    W.CompleteFreesOneSlot(s.window, me.id);
    forall v | v in s'.workers ensures HolderSound(cfg, s', s'.workers[v]) {
      assert HolderSound(cfg, s, s.workers[v]);
    }
    forall k | k in s'.schedulers ensures PhaseSound(cfg, s', s'.schedulers[k]) {
      assert PhaseSound(cfg, s, s.schedulers[k]);
    }
  }

  lemma WorkKeepsOwn(cfg: Config, s: State, w: nat, act: WorkerAct)
    requires Own(cfg, s) && CanWork(cfg, s, w, act) && cfg.holdMs <= cfg.leaseMs
    ensures Own(cfg, Work(cfg, s, w, act))
  {
    match act
    case Pop => PopKeepsOwn(cfg, s, w);
    case Complete => CompleteKeepsOwn(cfg, s, w);
    case Lock(stamp) => LockKeepsOwn(cfg, s, w, stamp);
    case Succeed(_, _, _) => RecordKeepsOwn(cfg, s, w, act);
    case Fail(_, _, _, _, _) => RecordKeepsOwn(cfg, s, w, act);
    case _ => LocalWorkKeepsOwn(cfg, s, w, act);
  }

  // ---- The scheduler ---------------------------------------------------------------------

  lemma PhaseChangeKeepsOwn(cfg: Config, s: State, k: nat, phase: Phase)
    requires Own(cfg, s) && k in s.schedulers && PhaseSound(cfg, s, phase)
    ensures Own(cfg, s.(schedulers := s.schedulers[k := phase]))
  {
    var s' := s.(schedulers := s.schedulers[k := phase]);
    forall w | w in s'.workers ensures HolderSound(cfg, s', s'.workers[w]) {
      assert HolderSound(cfg, s, s.workers[w]);
    }
    forall j | j in s'.schedulers ensures PhaseSound(cfg, s', s'.schedulers[j]) {
      assert j != k ==> PhaseSound(cfg, s, s.schedulers[j]);
    }
  }

  /** Steps that change nothing but where the scheduler stands. */
  lemma LocalMoveKeepsOwn(cfg: Config, s: State, k: nat, move: SchedulerAct)
    requires Own(cfg, s) && CanSchedule(cfg, s, k, move)
    requires move.Begin? || move.ReapRead? || move.SweepRead? || move.SweepCheck? || move.Measure?
          || move.PublishFails? || move.Abort?
    ensures Own(cfg, Schedule(cfg, s, k, move))
  {
    assert PhaseSound(cfg, s, s.schedulers[k]);
    var phase := Schedule(cfg, s, k, move).schedulers[k];
    assert PhaseSound(cfg, s, phase);
    PhaseChangeKeepsOwn(cfg, s, k, phase);
  }

  lemma ReapKeepsOwn(cfg: Config, s: State, k: nat, stamp: int)
    requires Own(cfg, s) && OneScheduler(s) && CanSchedule(cfg, s, k, ReapUpdate(stamp)) && cfg.holdMs <= cfg.leaseMs
    ensures Own(cfg, Schedule(cfg, s, k, ReapUpdate(stamp)))
  {
    var s', ids := Schedule(cfg, s, k, ReapUpdate(stamp)), s.schedulers[k].ids;
    assert PhaseSound(cfg, s, s.schedulers[k]);
    forall w | w in s'.workers
      ensures HolderSound(cfg, s', s'.workers[w]) && (!s'.workers[w].Free? ==> s'.workers[w].id !in ids)
    {
      assert HolderSound(cfg, s, s.workers[w]);
      if !s.workers[w].Free? {
        HeldIsNotExpired(cfg, s, w);
      }
    }
    forall j | j in s'.schedulers ensures PhaseSound(cfg, s', s'.schedulers[j]) {
      assert j == k;
    }
  }

  lemma ReleaseKeepsOwn(cfg: Config, s: State, k: nat)
    requires Own(cfg, s) && OneScheduler(s) && CanSchedule(cfg, s, k, Release)
    ensures Own(cfg, Schedule(cfg, s, k, Release))
  {
    var s', ids := Schedule(cfg, s, k, Release), s.schedulers[k].ids;
    assert PhaseSound(cfg, s, s.schedulers[k]);
    W.ReleaseKeepsExactIff(s.window, ids);
    forall w | w in s'.workers ensures HolderSound(cfg, s', s'.workers[w]) {
      assert HolderSound(cfg, s, s.workers[w]);
    }
    forall j | j in s'.schedulers ensures PhaseSound(cfg, s', s'.schedulers[j]) {
      assert j == k;
    }
  }

  /** Returning rows to PENDING, when whatever of them is still QUEUED is neither ready nor about to
      be locked. */
  lemma ResetKeepsOwn(cfg: Config, s: State, k: nat, move: SchedulerAct)
    requires Own(cfg, s) && OneScheduler(s) && CanSchedule(cfg, s, k, move)
    requires move.SweepReset? || move.Reset?
    ensures Own(cfg, Schedule(cfg, s, k, move))
  {
    var s', ids := Schedule(cfg, s, k, move), s.schedulers[k].ids;
    assert PhaseSound(cfg, s, s.schedulers[k]);
    W.ExactParts(s.window);
    forall w | w in s'.workers ensures HolderSound(cfg, s', s'.workers[w]) {
      assert HolderSound(cfg, s, s.workers[w]);
    }
    forall j | j in s'.schedulers ensures PhaseSound(cfg, s', s'.schedulers[j]) {
      assert j == k;
    }
  }

  lemma ClaimKeepsOwn(cfg: Config, s: State, k: nat, ids: seq<Id>, stamp: int)
    requires Own(cfg, s) && OneScheduler(s) && CanSchedule(cfg, s, k, Claim(ids, stamp))
    ensures Own(cfg, Schedule(cfg, s, k, Claim(ids, stamp)))
  {
    var s' := Schedule(cfg, s, k, Claim(ids, stamp));
    assert PhaseSound(cfg, s, s.schedulers[k]);
    forall w | w in s'.workers
      ensures HolderSound(cfg, s', s'.workers[w])
      ensures !s'.workers[w].Free? && s'.workers[w].id in ids ==> s'.workers[w].Leaving?
    {
      assert HolderSound(cfg, s, s.workers[w]);
    }
    forall id | id in ids ensures Promised(s', id) {
      assert id !in s.window.ready;
    }
    forall j | j in s'.schedulers ensures PhaseSound(cfg, s', s'.schedulers[j]) {
      assert j == k;
    }
  }

  lemma PublishKeepsOwn(cfg: Config, s: State, k: nat)
    requires Own(cfg, s) && OneScheduler(s) && CanSchedule(cfg, s, k, Publish)
    ensures Own(cfg, Schedule(cfg, s, k, Publish))
  {
    var s', ids := Schedule(cfg, s, k, Publish), s.schedulers[k].ids;
    assert PhaseSound(cfg, s, s.schedulers[k]);
    W.EnqueueKeepsExact(s.window, cfg.capacity, ids);
    forall w | w in s'.workers ensures HolderSound(cfg, s', s'.workers[w]) {
      assert HolderSound(cfg, s, s.workers[w]);
    }
    forall id | id in s'.window.ready ensures Claimable(s'.rows, id) {
      assert id in ids ==> Promised(s, id);
    }
    forall id | id in Drop(ids, Elems(W.Accepted(s.window, cfg.capacity, ids))) ensures Promised(s', id) {
      assert Promised(s, id);
    }
    forall j | j in s'.schedulers ensures PhaseSound(cfg, s', s'.schedulers[j]) {
      assert j == k;
    }
  }

  lemma ScheduleKeepsOwn(cfg: Config, s: State, k: nat, move: SchedulerAct)
    requires Own(cfg, s) && OneScheduler(s) && CanSchedule(cfg, s, k, move) && cfg.holdMs <= cfg.leaseMs
    ensures Own(cfg, Schedule(cfg, s, k, move))
  {
    match move
    case ReapUpdate(stamp) => ReapKeepsOwn(cfg, s, k, stamp);
    case Release => ReleaseKeepsOwn(cfg, s, k);
    case SweepReset(_) => ResetKeepsOwn(cfg, s, k, move);
    case Reset(_) => ResetKeepsOwn(cfg, s, k, move);
    case Claim(ids, stamp) => ClaimKeepsOwn(cfg, s, k, ids, stamp);
    case Publish => PublishKeepsOwn(cfg, s, k);
    case _ => LocalMoveKeepsOwn(cfg, s, k, move);
  }

  // ---- Every run ---------------------------------------------------------------------------

  lemma StepKeepsOwn(cfg: Config, s: State, step: Step)
    requires Own(cfg, s) && OneScheduler(s) && Enabled(cfg, s, step) && cfg.holdMs <= cfg.leaseMs
    ensures Own(cfg, Apply(cfg, s, step)) && OneScheduler(Apply(cfg, s, step))
  {
    match step
    case Works(w, act) => WorkKeepsOwn(cfg, s, w, act);
    case Schedules(k, move) => ScheduleKeepsOwn(cfg, s, k, move);
    case _ => EnvironmentKeepsOwn(cfg, s, step);
  }

  lemma {:induction false} RunKeepsOwn(cfg: Config, start: State, steps: seq<Step>)
    requires Init(start) && OneScheduler(start) && cfg.holdMs <= cfg.leaseMs
    requires Run(cfg, start, steps).Some?
    ensures Own(cfg, Run(cfg, start, steps).value) && OneScheduler(Run(cfg, start, steps).value)
  {
    if steps != [] {
      RunKeepsOwn(cfg, start, steps[..|steps| - 1]);
      StepKeepsOwn(cfg, Run(cfg, start, steps[..|steps| - 1]).value, steps[|steps| - 1]);
    }
  }

  /** At no moment are two workers sending the same delivery. */
  ghost predicate Exclusive(s: State) {
    forall v, w ::
      (v in s.workers && w in s.workers && s.workers[v].Sending? && s.workers[w].Sending?
       && s.workers[v].id == s.workers[w].id) ==> v == w
  }

  /** Unless a worker is only on its way out, the lease it holds is the one in the row, and the
      reaper never takes that row. */
  ghost predicate LeasesRespected(s: State) {
    && (forall w :: w in s.workers && Lease(s.workers[w]).Some? ==>
          s.workers[w].id in s.rows && LockedRow(s.rows[s.workers[w].id], Lease(s.workers[w]).value))
    && (forall k, w :: k in s.schedulers && s.schedulers[k].Reclaiming? && w in s.workers && !s.workers[w].Free?
          ==> s.workers[w].id !in s.schedulers[k].ids)
  }

  lemma OwnIsExclusive(cfg: Config, s: State)
    requires Own(cfg, s) && cfg.holdMs <= cfg.leaseMs
    ensures Exclusive(s) && LeasesRespected(s)
  {
    forall w | w in s.workers ensures HolderSound(cfg, s, s.workers[w]) {
    }
    forall k, w | k in s.schedulers && s.schedulers[k].Reclaiming? && w in s.workers && !s.workers[w].Free?
      ensures s.workers[w].id !in s.schedulers[k].ids
    {
      assert PhaseSound(cfg, s, s.schedulers[k]);
      HeldIsNotExpired(cfg, s, w);
    }
  }
}
