/** Batches that are claimed and committed but not yet settled with the window, for any number of
    schedulers: the row locks of a claim are gone, and only the QUEUED status keeps others off. */
module Batches {
  import opened Basics
  import opened Deliveries
  import opened Protocol
  import O = Ownership
  import L = Limits
  import P = Paths

  /** The scheduler has claimed the delivery and its publication, or its return to PENDING, is due. */
  predicate Awaiting(phase: Phase, id: Id) {
    (phase.Publishing? || phase.Rejecting? || phase.Undoing?) && id in phase.ids
  }

  ghost predicate AwaitedQueued(s: State) {
    forall k, id :: k in s.schedulers && Awaiting(s.schedulers[k], id) ==> Claimable(s.rows, id)
  }

  ghost predicate BatchesApart(s: State) {
    forall j, k, id ::
      j in s.schedulers && k in s.schedulers && Awaiting(s.schedulers[j], id) && Awaiting(s.schedulers[k], id) ==> j == k
  }

  ghost predicate BatchesSound(s: State) {
    AwaitedQueued(s) && BatchesApart(s)
  }

  ghost predicate AwaitedBySome(s: State, id: Id) {
    exists k :: k in s.schedulers && Awaiting(s.schedulers[k], id)
  }

  /** The steps that take a row out of QUEUED while some batch holds it: a worker locks it or records an
      outcome for it, or a scheduler's orphan sweep resets it. */
  ghost predicate Intrudes(s: State, step: Step) {
    match step
    case Works(w, act) =>
      && (act.Lock? || act.Succeed? || act.Fail?)
      && w in s.workers && !s.workers[w].Free? && AwaitedBySome(s, s.workers[w].id)
    case Schedules(k, SweepReset(_)) =>
      && k in s.schedulers && s.schedulers[k].Resetting?
      && exists id :: id in s.schedulers[k].ids && AwaitedBySome(s, id)
    case _ => false
  }

  // ---- Workers ------------------------------------------------------------------------------

  lemma WorkKeepsBatchesIff(cfg: Config, s: State, w: nat, act: WorkerAct)
    requires BatchesSound(s) && CanWork(cfg, s, w, act)
    ensures BatchesSound(Work(cfg, s, w, act)) <==> !Intrudes(s, Works(w, act))
  {
    var s' := Work(cfg, s, w, act);
    assert s'.schedulers == s.schedulers;
    if Intrudes(s, Works(w, act)) {
      var id := s.workers[w].id;
      var k :| k in s.schedulers && Awaiting(s.schedulers[k], id);
      assert !Claimable(s'.rows, id);
      assert Awaiting(s'.schedulers[k], id);
    } else {
      forall k, id | k in s'.schedulers && Awaiting(s'.schedulers[k], id) ensures Claimable(s'.rows, id) {
        assert Claimable(s.rows, id);
        assert AwaitedBySome(s, id);
      }
    }
  }

  // ---- Schedulers ---------------------------------------------------------------------------

  /** No scheduler step but a sweep's reset can take another scheduler's row out of QUEUED. */
  lemma OthersStayQueued(cfg: Config, s: State, k: nat, move: SchedulerAct, j: nat, id: Id)
    requires BatchesSound(s) && CanSchedule(cfg, s, k, move) && !move.SweepReset?
    requires j in s.schedulers && j != k && Awaiting(s.schedulers[j], id)
    ensures Claimable(Schedule(cfg, s, k, move).rows, id)
    ensures !Awaiting(Schedule(cfg, s, k, move).schedulers[k], id)
  {
    assert Claimable(s.rows, id) && !Awaiting(s.schedulers[k], id);
  }

  lemma OwnStayQueued(cfg: Config, s: State, k: nat, move: SchedulerAct, id: Id)
    requires BatchesSound(s) && CanSchedule(cfg, s, k, move)
    requires Awaiting(Schedule(cfg, s, k, move).schedulers[k], id)
    ensures Claimable(Schedule(cfg, s, k, move).rows, id)
  {
    assert Awaiting(s.schedulers[k], id) || move.Claim?;
  }

  lemma MoveKeepsBatches(cfg: Config, s: State, k: nat, move: SchedulerAct)
    requires BatchesSound(s) && CanSchedule(cfg, s, k, move) && !move.SweepReset?
    ensures BatchesSound(Schedule(cfg, s, k, move))
  {
    var s' := Schedule(cfg, s, k, move);
    assert s'.schedulers == s.schedulers[k := s'.schedulers[k]];
    forall j, id | j in s'.schedulers && Awaiting(s'.schedulers[j], id)
      ensures Claimable(s'.rows, id) && (j != k ==> !Awaiting(s'.schedulers[k], id))
    {
      if j == k {
        OwnStayQueued(cfg, s, k, move, id);
      } else {
        OthersStayQueued(cfg, s, k, move, j, id);
      }
    }
    forall i, j, id | i in s'.schedulers && j in s'.schedulers && Awaiting(s'.schedulers[i], id) && Awaiting(s'.schedulers[j], id)
      ensures i == j
    {
      if i != k && j != k {
        assert Awaiting(s.schedulers[i], id) && Awaiting(s.schedulers[j], id);
      }
    }
  }

  lemma SweepKeepsBatchesIff(cfg: Config, s: State, k: nat, stamp: int)
    requires BatchesSound(s) && CanSchedule(cfg, s, k, SweepReset(stamp))
    ensures BatchesSound(Schedule(cfg, s, k, SweepReset(stamp))) <==> !Intrudes(s, Schedules(k, SweepReset(stamp)))
  {
    var s', ids := Schedule(cfg, s, k, SweepReset(stamp)), s.schedulers[k].ids;
    forall j, id | j in s.schedulers && Awaiting(s.schedulers[j], id)
      ensures Awaiting(s'.schedulers[j], id) && (Claimable(s'.rows, id) <==> id !in ids)
    {
      assert j != k && Claimable(s.rows, id);
    }
    assert forall j, id :: j in s'.schedulers && Awaiting(s'.schedulers[j], id) ==> j != k && Awaiting(s.schedulers[j], id);
    if Intrudes(s, Schedules(k, SweepReset(stamp))) {
      var id :| id in ids && AwaitedBySome(s, id);
      var j :| j in s.schedulers && Awaiting(s.schedulers[j], id);
      assert Awaiting(s'.schedulers[j], id) && !Claimable(s'.rows, id);
    } else {
      forall j, id | j in s'.schedulers && Awaiting(s'.schedulers[j], id) ensures Claimable(s'.rows, id) {
        assert AwaitedBySome(s, id);
      }
    }
  }

  // ---- Every run ----------------------------------------------------------------------------

  lemma EnvironmentKeepsBatches(cfg: Config, s: State, step: Step)
    requires BatchesSound(s) && Enabled(cfg, s, step)
    requires step.Advance? || step.NewDelivery? || step.ReplayDelivery?
    ensures BatchesSound(Apply(cfg, s, step))
  {
    var s' := Apply(cfg, s, step);
    forall k, id | k in s'.schedulers && Awaiting(s'.schedulers[k], id) ensures Claimable(s'.rows, id) {
      assert Claimable(s.rows, id);
    }
  }

  /** With any number of schedulers, a step keeps the batches disjoint and their rows queued exactly when
      it does not intrude. */
  lemma StepKeepsBatchesIff(cfg: Config, s: State, step: Step)
    requires BatchesSound(s) && Enabled(cfg, s, step)
    ensures BatchesSound(Apply(cfg, s, step)) <==> !Intrudes(s, step)
  {
    match step
    case Works(w, act) => WorkKeepsBatchesIff(cfg, s, w, act);
    case Schedules(k, move) =>
      if move.SweepReset? {
        SweepKeepsBatchesIff(cfg, s, k, move.stamp);
      } else {
        MoveKeepsBatches(cfg, s, k, move);
      }
    case _ => EnvironmentKeepsBatches(cfg, s, step);
  }

  ghost predicate NeverIntrudes(cfg: Config, start: State, steps: seq<Step>)
    requires Run(cfg, start, steps).Some?
  {
    steps == [] || (
      var before, last := steps[..|steps| - 1], steps[|steps| - 1];
      NeverIntrudes(cfg, start, before) && !Intrudes(Run(cfg, start, before).value, last))
  }

  /** Batches are sound after the run and were so all along. */
  ghost predicate AlwaysSound(cfg: Config, start: State, steps: seq<Step>)
    requires Run(cfg, start, steps).Some?
  {
    BatchesSound(Run(cfg, start, steps).value) && (steps == [] || AlwaysSound(cfg, start, steps[..|steps| - 1]))
  }

  /** For any number of schedulers and workers: throughout a run, batches awaiting publication are disjoint
      and their rows QUEUED if and only if no step of the run intrudes on one. */
  lemma {:induction false} BatchesStaySoundIff(cfg: Config, start: State, steps: seq<Step>)
    requires Init(start) && Run(cfg, start, steps).Some?
    ensures AlwaysSound(cfg, start, steps) <==> NeverIntrudes(cfg, start, steps)
  {
    if steps != [] {
      var before := steps[..|steps| - 1];
      BatchesStaySoundIff(cfg, start, before);
      if AlwaysSound(cfg, start, before) {
        assert BatchesSound(Run(cfg, start, before).value);
        StepKeepsBatchesIff(cfg, Run(cfg, start, before).value, steps[|steps| - 1]);
      }
    }
  }

  /** One scheduler, and workers inside their lease, never intrude. */
  lemma OwnedStepsDoNotIntrude(cfg: Config, s: State, step: Step)
    requires O.Own(cfg, s) && OneScheduler(s) && Enabled(cfg, s, step)
    ensures !Intrudes(s, step)
  {
    match step
    case Works(w, act) =>
      forall k | k in s.schedulers ensures O.PhaseSound(cfg, s, s.schedulers[k]) {
      }
    case _ =>
  }

  lemma {:induction false} OwnedRunsDoNotIntrude(cfg: Config, start: State, steps: seq<Step>)
    requires Init(start) && OneScheduler(start) && cfg.holdMs <= cfg.leaseMs
    requires Run(cfg, start, steps).Some?
    ensures NeverIntrudes(cfg, start, steps)
  {
    if steps != [] {
      var before := steps[..|steps| - 1];
      OwnedRunsDoNotIntrude(cfg, start, before);
      O.RunKeepsOwn(cfg, start, before);
      OwnedStepsDoNotIntrude(cfg, Run(cfg, start, before).value, steps[|steps| - 1]);
    }
  }

  // ---- Exactly when no run intrudes ----------------------------------------------------------

  lemma StepKeepsSchedulers(cfg: Config, s: State, step: Step)
    requires Enabled(cfg, s, step)
    ensures Apply(cfg, s, step).schedulers.Keys == s.schedulers.Keys
  {
    match step
    case Works(_, _) =>
    case Schedules(k, move) =>
      var s' := Schedule(cfg, s, k, move);
      assert s'.schedulers == s.schedulers[k := s'.schedulers[k]];
    case _ =>
  }

  lemma {:induction false} RunKeepsSchedulers(cfg: Config, start: State, steps: seq<Step>)
    requires Run(cfg, start, steps).Some?
    ensures Run(cfg, start, steps).value.schedulers.Keys == start.schedulers.Keys
  {
    if steps != [] {
      var before := steps[..|steps| - 1];
      RunKeepsSchedulers(cfg, start, before);
      StepKeepsSchedulers(cfg, Run(cfg, start, before).value, steps[|steps| - 1]);
    }
  }

  /** Nothing in the code keeps a second scheduler from intruding: some run puts one delivery into two
      batches as soon as there are two of them. */
  lemma DisjointBatchesIff(cfg: Config, start: State)
    requires L.Usable(cfg) && Init(start) && cfg.graceMs >= 0
    ensures (forall steps :: Run(cfg, start, steps).Some? ==> BatchesApart(Run(cfg, start, steps).value))
            <==> OneScheduler(start)
  {
    if OneScheduler(start) {
      forall steps | Run(cfg, start, steps).Some? ensures BatchesApart(Run(cfg, start, steps).value) {
        RunKeepsSchedulers(cfg, start, steps);
      }
    } else {
      var j, k :| j in start.schedulers && k in start.schedulers && j != k;
      var path, e := L.StalledPublishIsClaimedTwice(cfg, start, j, k);
      P.PathRuns(cfg, start, path, e);
      assert Awaiting(e.schedulers[j], L.ID) && Awaiting(e.schedulers[k], L.ID);
    }
  }
}
