/** What every run of the system guarantees. */
module Guarantees {
  import opened Basics
  import opened Deliveries
  import opened Protocol
  import A = Accounting
  import B = Backoff
  import C = Workers
  import O = Ownership
  import P = Paths
  import R = Recovery
  import S = Scheduling
  import T = TickRuns
  import W = WindowSpec

  // ---- Any number of schedulers, any timing --------------------------------------------------

  /** The operation on the three Redis keys that a step performs, if it performs one. */
  function OperationOf(s: State, step: Step): Option<W.Operation> {
    match step
    case Works(w, Pop) => Some(W.Take)
    case Works(w, Complete) => if w in s.workers && !s.workers[w].Free? then Some(W.Done(s.workers[w].id)) else None
    case Schedules(k, Release) =>
      if k in s.schedulers && s.schedulers[k].Releasing? then Some(W.Evict(s.schedulers[k].ids)) else None
    case Schedules(k, Publish) =>
      if k in s.schedulers && s.schedulers[k].Publishing? then Some(W.Offer(s.schedulers[k].ids)) else None
    case _ => None
  }

  /** The ids that a step puts into the window, in the order of the publish. */
  function NewlyAccepted(cfg: Config, s: State, step: Step): seq<Id> {
    match step
    case Schedules(k, Publish) =>
      if k in s.schedulers && s.schedulers[k].Publishing? then W.Accepted(s.window, cfg.capacity, s.schedulers[k].ids) else []
    case _ => []
  }

  /** The id that a step hands to a worker. */
  function NewlyClaimed(s: State, step: Step): seq<Id> {
    match step
    case Works(_, Pop) => if s.window.ready != [] then [s.window.ready[0]] else []
    case _ => []
  }

  /** The window after a run, with the log of what it accepted and the log of what workers took. */
  ghost function Observed(cfg: Config, start: State, steps: seq<Step>): (h: W.History)
    requires Run(cfg, start, steps).Some?
    ensures h.window == Run(cfg, start, steps).value.window
  {
    if steps == [] then W.History(start.window, [], [])
    else
      var before, step := steps[..|steps| - 1], steps[|steps| - 1];
      var s, h := Run(cfg, start, before).value, Observed(cfg, start, before);
      W.History(Apply(cfg, s, step).window, h.accepted + NewlyAccepted(cfg, s, step), h.claimed + NewlyClaimed(s, step))
  }

  ghost predicate OneOperation(cfg: Config, s: State, step: Step, window: W.Window, h: W.History) {
    var h' := W.History(window, h.accepted + NewlyAccepted(cfg, s, step), h.claimed + NewlyClaimed(s, step));
    var op := OperationOf(s, step);
    h' == if op.None? then h else W.Perform(h, cfg.capacity, op.value)
  }

  lemma WorkIsOneOperation(cfg: Config, s: State, w: nat, act: WorkerAct, h: W.History)
    requires CanWork(cfg, s, w, act) && h.window == s.window
    ensures OneOperation(cfg, s, Works(w, act), Work(cfg, s, w, act).window, h)
  {
    assert h.accepted + [] == h.accepted && h.claimed + [] == h.claimed;
  }

  lemma MoveIsOneOperation(cfg: Config, s: State, k: nat, move: SchedulerAct, h: W.History)
    requires CanSchedule(cfg, s, k, move) && h.window == s.window
    ensures OneOperation(cfg, s, Schedules(k, move), Schedule(cfg, s, k, move).window, h)
  {
    assert h.accepted + [] == h.accepted && h.claimed + [] == h.claimed;
  }

  lemma StepIsOneOperation(cfg: Config, s: State, step: Step, h: W.History)
    requires Enabled(cfg, s, step) && h.window == s.window
    ensures OneOperation(cfg, s, step, Apply(cfg, s, step).window, h)
  {
    match step
    case Works(w, act) => WorkIsOneOperation(cfg, s, w, act, h);
    case Schedules(k, move) => MoveIsOneOperation(cfg, s, k, move, h);
    case _ => assert h.accepted + [] == h.accepted && h.claimed + [] == h.claimed;
  }

  lemma StepKeepsWindowSound(cfg: Config, s: State, step: Step, h: W.History)
    requires Enabled(cfg, s, step) && h.window == s.window && W.Sound(h, cfg.capacity)
    ensures W.Sound(W.History(Apply(cfg, s, step).window, h.accepted + NewlyAccepted(cfg, s, step),
                              h.claimed + NewlyClaimed(s, step)), cfg.capacity)
  {
    StepIsOneOperation(cfg, s, step, h);
    if OperationOf(s, step).Some? {
      W.OperationKeepsSound(h, cfg.capacity, OperationOf(s, step).value);
    }
  }

  /** In every run whatsoever, with any number of schedulers and workers and any crashes, the window
      stays within its capacity, holds no mark without a resident id, and workers receive ids in
      exactly the order in which publishes were accepted. */
  lemma {:induction false} WindowSoundInEveryRun(cfg: Config, start: State, steps: seq<Step>)
    requires Init(start) && Run(cfg, start, steps).Some?
    ensures var s, h := Run(cfg, start, steps).value, Observed(cfg, start, steps);
            && W.Occupancy(s.window) <= cfg.capacity
            && s.window.dedupe <= W.Resident(s.window)
            && h.claimed + s.window.ready == h.accepted
            && W.Sound(h, cfg.capacity)
  {
    if steps != [] {
      var before := steps[..|steps| - 1];
      WindowSoundInEveryRun(cfg, start, before);
      StepKeepsWindowSound(cfg, Run(cfg, start, before).value, steps[|steps| - 1], Observed(cfg, start, before));
    }
  }

  // ---- One scheduler, and workers inside their lease -----------------------------------------

  ghost predicate Reached(cfg: Config, start: State, steps: seq<Step>, s: State) {
    && Init(start) && OneScheduler(start) && cfg.holdMs <= cfg.leaseMs
    && Run(cfg, start, steps) == Some(s)
  }

  /** Two live workers never hold the same id, each holds a slot of its own, and its completion frees
      exactly that slot. */
  lemma EachHolderOwnsOneSlot(cfg: Config, start: State, steps: seq<Step>, s: State, w: nat)
    requires Reached(cfg, start, steps, s) && w in s.workers && !s.workers[w].Free?
    ensures var id := s.workers[w].id;
            && id in s.window.inFlight && id !in s.window.ready
            && (forall v :: v in s.workers && v != w ==> !Holding(s.workers[v], id))
            && W.Occupancy(W.Complete(s.window, id)) == W.Occupancy(s.window) - 1
            && W.Resident(W.Complete(s.window, id)) == W.Resident(s.window) - {id}
  {
    O.RunKeepsOwn(cfg, start, steps);
    W.ExactParts(s.window);
    assert O.HolderSound(cfg, s, s.workers[w]);
    W.CompleteFreesOneSlot(s.window, s.workers[w].id);
  }

  lemma LedgerStaysBalanced(cfg: Config, start: State, steps: seq<Step>, s: State, id: Id)
    requires Reached(cfg, start, steps, s) && id in s.rows
    ensures A.Balanced(cfg, s.now, A.LedgerOf(s, id))
  {
    A.RunKeepsAccounts(cfg, start, steps);
  }

  /** The counter of a row is the outcomes recorded plus the leases reclaimed since its last replay,
      and the attempt numbers logged in that time strictly rise. */
  lemma AttemptsAddUp(cfg: Config, start: State, steps: seq<Step>, s: State, id: Id)
    requires Reached(cfg, start, steps, s) && id in s.rows
    ensures var entries := A.Logged(s.log, id, Count(s.replays, id));
            && s.rows[id].attempt == |entries| + Count(s.reaps, id)
            && A.Rising(entries)
            && (entries != [] ==> entries[|entries| - 1].row.attempt <= s.rows[id].attempt)
            && (Terminal(s.rows[id]) ==> entries != [] && entries[|entries| - 1].row.attempt == s.rows[id].attempt)
  {
    LedgerStaysBalanced(cfg, start, steps, s, id);
  }

  /** When a row is finished, and how: exactly when the last outcome of its epoch was not given a retry;
      DELIVERED exactly when that was a success, and FAILED exactly when it was a failure that cannot be
      retried or that used the last attempt.  A lease that runs out never finishes a row. */
  lemma FinishedIff(cfg: Config, start: State, steps: seq<Step>, s: State, id: Id)
    requires Reached(cfg, start, steps, s) && id in s.rows
    ensures A.FinishedAsLogged(cfg, s.rows[id], A.Logged(s.log, id, Count(s.replays, id)))
  {
    LedgerStaysBalanced(cfg, start, steps, s, id);
    A.LedgerFinishedIff(cfg, s.now, A.LedgerOf(s, id));
  }

  /** No epoch of any delivery, past or present, records more than maxAttempts outcomes or waits longer
      in all than the backoff curve allows for its retries. */
  lemma EveryEpochIsBounded(cfg: Config, start: State, steps: seq<Step>, s: State, id: Id, epoch: nat)
    requires Reached(cfg, start, steps, s) && cfg.maxAttempts >= 1
    ensures |A.Logged(s.log, id, epoch)| <= cfg.maxAttempts
    ensures A.TotalDelay(A.Logged(s.log, id, epoch)) <= B.Budget(cfg.maxAttempts - 1, cfg.backoff)
    ensures A.TotalDelay(A.Logged(s.log, id, epoch)) <= (cfg.maxAttempts - 1) * cfg.backoff.maxMs
    ensures A.TotalDelay(A.Logged(s.log, id, epoch)) <= cfg.backoff.baseMs * (B.Pow2(cfg.maxAttempts - 1) - 1)
  {
    B.BudgetIsAtMost(cfg.maxAttempts - 1, cfg.backoff);
    A.RunKeepsAccounts(cfg, start, steps);
    A.EpochIsShort(cfg, A.Logged(s.log, id, epoch));
    A.EpochDelayBounded(cfg, A.Logged(s.log, id, epoch));
  }

  /** A failure that was given a retry time is not processed again before that time: whoever holds the
      row has locked it no earlier than every retry time of its epoch. */
  lemma BackoffIsNeverJumped(cfg: Config, start: State, steps: seq<Step>, s: State, w: nat)
    requires Reached(cfg, start, steps, s) && w in s.workers && Lease(s.workers[w]).Some?
    ensures var id := s.workers[w].id;
            A.DueBy(A.Logged(s.log, id, Count(s.replays, id)), Lease(s.workers[w]).value)
  {
    O.RunKeepsOwn(cfg, start, steps);
    A.RunKeepsAccounts(cfg, start, steps);
    assert O.HolderSound(cfg, s, s.workers[w]);
    assert A.Balanced(cfg, s.now, A.LedgerOf(s, s.workers[w].id));
  }

  lemma RowsStayShaped(cfg: Config, start: State, steps: seq<Step>, s: State, id: Id)
    requires Reached(cfg, start, steps, s) && id in s.rows
    ensures A.Shaped(s.rows[id])
  {
    LedgerStaysBalanced(cfg, start, steps, s, id);
  }

  lemma LeaseHasBegun(cfg: Config, start: State, steps: seq<Step>, s: State, id: Id)
    requires Reached(cfg, start, steps, s) && id in s.rows
    ensures s.rows[id].status == Processing ==> R.LeaseBegun(s, id)
  {
    LedgerStaysBalanced(cfg, start, steps, s, id);
  }

  /** Every row is somewhere that something serves if and only if no step of the run was a stranding one. */
  lemma EveryRowIsServedIff(cfg: Config, start: State, steps: seq<Step>, s: State)
    requires Reached(cfg, start, steps, s)
    ensures (forall id :: id in s.rows ==> R.Served(s, id)) <==> R.NeverStrands(cfg, start, steps)
  {
    O.RunKeepsOwn(cfg, start, steps);
    R.RunLosesNothingIff(cfg, start, steps);
    forall id | id in s.rows ensures R.Served(s, id) <==> !R.Lost(s, id) {
      LeaseHasBegun(cfg, start, steps, s, id);
      R.ServedIffNotLost(cfg, s, id);
    }
  }

  /** The tick of scheduler `k`, in `s`, gets through its recovery half, and whichever way it does, whatever
      else happens meanwhile, the delivery is then eligible and out of the window. */
  ghost predicate WillBeRecovered(cfg: Config, s: State, k: nat, id: Id) {
    && (forall more :: Run(cfg, s, more).Some? && R.StaysInRecovery(more, k) ==> RecoveredAt(Run(cfg, s, more).value, k, id))
    && exists more :: Run(cfg, s, more).Some? && T.RecoverySteps(more, k) && AtRefill(Run(cfg, s, more).value, k)
  }

  ghost predicate AtRefill(s: State, k: nat) {
    k in s.schedulers && s.schedulers[k].Measuring?
  }

  ghost predicate RecoveredAt(s: State, k: nat, id: Id) {
    AtRefill(s, k) ==> R.Recovered(s, id)
  }

  /** No delivery is lost: in a run without stranding steps, a queued or processed row that is not ready and
      that no worker holds is recovered by the first tick that begins past its lease or grace age; and left
      to itself that tick does come to its refill. */
  lemma NothingStaysAbandoned(cfg: Config, start: State, steps: seq<Step>, s: State, k: nat, id: Id)
    requires Reached(cfg, start, steps, s) && R.NeverStrands(cfg, start, steps)
    requires k in s.schedulers && s.schedulers[k] == Reaping(s.now)
    requires id in s.rows && id !in s.window.ready && !R.Held(s, id) && R.PastAge(cfg, s.rows[id], s.now)
    ensures WillBeRecovered(cfg, s, k, id)
  {
    O.RunKeepsOwn(cfg, start, steps);
    R.RunLosesNothingIff(cfg, start, steps);
    R.UnattendedIsAbandoned(cfg, s, id);
    forall more | Run(cfg, s, more).Some? && R.StaysInRecovery(more, k) ensures RecoveredAt(Run(cfg, s, more).value, k, id) {
      R.TickRecoversAbandoned(cfg, s, more, k, id);
    }
    var path, e := T.RecoveryIsRun(cfg, s, k);
    P.PathRuns(cfg, s, path, e);
    assert AtRefill(Run(cfg, s, path.steps).value, k);
  }

  // ---- A call that throws ----------------------------------------------------------------------

  /** A call that throws after its conditional update leaves a row that recovery does not touch within the
      lease and then gives back: due at once, with an attempt counted, and out of the window. */
  lemma ThrownCallIsRecovered(cfg: Config, rows: Rows, id: Id, t: C.Trial, left: Rows, logged: seq<AttemptRow>,
                              w: W.Window, leaseMs: int, now: int)
    requires C.Leaves(cfg, rows, id, t, left, logged) && t.fault == C.AfterLock
    requires id in rows && rows[id].status == Queued
    ensures id in left && id in S.RecoverRows(left, w, leaseMs, S.GRACE_MS, now)
    ensures var row := S.RecoverRows(left, w, leaseMs, S.GRACE_MS, now)[id];
            var w' := S.RecoverWindow(w, S.ExpiredIds(left, now - leaseMs));
            if now - t.lockedAt > leaseMs then
              && row.status == Waiting && row.nextRetryAt == Some(now) && row.lockedAt == None
              && row.attempt == rows[id].attempt + 1 && Eligible(row, now)
              && id !in w'.inFlight && id !in w'.dedupe
            else
              row == left[id] && row.status == Processing && row.lockedAt == Some(t.lockedAt) && row.attempt == rows[id].attempt
  {
    S.RecoveredRow(left, w, leaseMs, now, id);
  }
}
