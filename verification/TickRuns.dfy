/** One scheduler's tick as a run of the step machine: the recovery half can always be run to its end, and
    the whole tick, batch by batch, is a run whose effect is that of the code. */
module TickRuns {
  import opened Basics
  import opened Deliveries
  import opened Protocol
  import opened Paths
  import R = Repository
  import S = Scheduling
  import W = WindowSpec

  /** Every step of the path is one of scheduler `k`, neither cut short nor past the recovery half. */
  predicate RecoverySteps(steps: seq<Step>, k: nat) {
    forall i :: 0 <= i < |steps| ==> steps[i].Schedules? && steps[i].k == k && !steps[i].move.Abort? && !steps[i].move.Measure?
  }

  /** The path leads there, the scheduler has moved on to a phase; workers, clock and log have not moved. */
  ghost predicate Goes(cfg: Config, s: State, k: nat, path: Path, e: State, phase: Phase) {
    && Leads(cfg, s, path, e)
    && e.now == s.now && e.workers == s.workers && e.log == s.log && e.replays == s.replays
    && e.schedulers == s.schedulers[k := phase]
  }

  lemma Stays(cfg: Config, s: State, k: nat) returns (path: Path)
    requires k in s.schedulers
    ensures Goes(cfg, s, k, path, s, s.schedulers[k])
  {
    path := Path([s], []);
    assert s.schedulers == s.schedulers[k := s.schedulers[k]];
  }

  lemma Moves(cfg: Config, s: State, k: nat, move: SchedulerAct) returns (path: Path, e: State)
    requires CanSchedule(cfg, s, k, move)
    ensures e == Schedule(cfg, s, k, move) && path.steps == [Schedules(k, move)]
    ensures k in e.schedulers && Goes(cfg, s, k, path, e, e.schedulers[k])
  {
    path, e := First(cfg, s, Schedules(k, move));
  }

  lemma Onward(cfg: Config, s: State, k: nat, a: Path, m: State, phase: Phase, b: Path, e: State, phase': Phase) returns (path: Path)
    requires Goes(cfg, s, k, a, m, phase) && Goes(cfg, m, k, b, e, phase')
    ensures Goes(cfg, s, k, path, e, phase') && path.steps == a.steps + b.steps
  {
    path := Both(cfg, s, a, m, b, e);
    assert s.schedulers[k := phase][k := phase'] == s.schedulers[k := phase'];
  }

  lemma Listed(all: set<Id>) returns (ids: seq<Id>)
    ensures Elems(ids) == all
    decreases all
  {
    if x :| x in all {
      ids := Listed(all - {x});
      assert Elems([x] + ids) == {x} + Elems(ids);
      ids := [x] + ids;
    } else {
      ids := [];
    }
  }

  // ---- Recovery -------------------------------------------------------------------------------

  lemma NothingExpired(s: State, leaseMs: int)
    requires S.ExpiredIds(s.rows, s.now - leaseMs) == {}
    ensures S.AfterReap(s.rows, leaseMs, s.now) == s.rows && S.RecoverWindow(s.window, {}) == s.window
  {
    DropNothing(s.window.inFlight, {});
    assert s.window.dedupe - {} == s.window.dedupe;
    assert forall id :: id in s.rows ==> id !in S.ExpiredIds(s.rows, s.now - leaseMs);
  }

  lemma ReclaimIsRun(cfg: Config, s: State, k: nat, ids: seq<Id>) returns (path: Path, e: State)
    requires k in s.schedulers && s.schedulers[k] == Reclaiming(ids, s.now)
    ensures Goes(cfg, s, k, path, e, Sweeping(s.now)) && RecoverySteps(path.steps, k)
    ensures e.rows == Reclaim(s.rows, ids, s.now) && e.window == W.Release(s.window, ids)
  {
    var a, m := Moves(cfg, s, k, ReapUpdate(s.now));
    var b, n := Moves(cfg, m, k, Release);
    path := Onward(cfg, s, k, a, m, Releasing(ids), b, n, Sweeping(s.now));
    e := n;
  }

  /** Reading, updating and releasing the expired rows. */
  lemma ReapIsRun(cfg: Config, s: State, k: nat) returns (path: Path, e: State)
    requires k in s.schedulers && s.schedulers[k].Reaping? && s.schedulers[k].since <= s.now
    ensures Goes(cfg, s, k, path, e, Sweeping(s.now)) && RecoverySteps(path.steps, k)
    ensures e.rows == S.AfterReap(s.rows, cfg.leaseMs, s.now)
    ensures e.window == S.RecoverWindow(s.window, S.ExpiredIds(s.rows, s.now - cfg.leaseMs))
  {
    var ids := Listed(S.ExpiredIds(s.rows, s.now - cfg.leaseMs));
    assert forall id :: id in ids <==> id in Elems(ids);
    path, e := Moves(cfg, s, k, ReapRead(ids, s.now));
    if ids == [] {
      NothingExpired(s, cfg.leaseMs);
    } else {
      assert Reclaim(s.rows, ids, s.now) == S.AfterReap(s.rows, cfg.leaseMs, s.now);
      var b, n := ReclaimIsRun(cfg, e, k, ids);
      path := Onward(cfg, s, k, path, e, Reclaiming(ids, s.now), b, n, Sweeping(s.now));
      e := n;
    }
  }

  lemma CheckIsRun(cfg: Config, s: State, k: nat, ids: seq<Id>) returns (path: Path, e: State)
    requires k in s.schedulers && s.schedulers[k] == Checking(ids)
    ensures Goes(cfg, s, k, path, e, Measuring) && RecoverySteps(path.steps, k) && e.window == s.window
    ensures var orphans := W.NotInWindow(s.window, ids);
            e.rows == if orphans == [] then s.rows else ResetToPending(s.rows, orphans, s.now)
  {
    var orphans := W.NotInWindow(s.window, ids);
    path, e := Moves(cfg, s, k, SweepCheck);
    if orphans != [] {
      var b, n := Moves(cfg, e, k, SweepReset(s.now));
      path := Onward(cfg, s, k, path, e, Resetting(orphans, s.now), b, n, Measuring);
      e := n;
    }
  }

  /** Reading the stale rows, asking the window and resetting the orphans. */
  lemma SweepIsRun(cfg: Config, s: State, k: nat) returns (path: Path, e: State)
    requires k in s.schedulers && s.schedulers[k].Sweeping? && s.schedulers[k].since <= s.now
    ensures Goes(cfg, s, k, path, e, Measuring) && RecoverySteps(path.steps, k)
    ensures e.rows == S.AfterSweep(s.rows, s.window.dedupe, cfg.graceMs, s.now) && e.window == s.window
  {
    var ids := Listed(S.StaleIds(s.rows, s.now - cfg.graceMs));
    assert forall id :: id in ids <==> id in Elems(ids);
    S.OrphansAreMissing(s.rows, s.window.dedupe, cfg.graceMs, s.now, ids, W.NotInWindow(s.window, ids));
    path, e := Moves(cfg, s, k, SweepRead(ids, s.now));
    if ids != [] {
      var b, n := CheckIsRun(cfg, e, k, ids);
      path := Onward(cfg, s, k, path, e, Checking(ids), b, n, Measuring);
      e := n;
    }
  }

  /** From its first read on, a tick left to itself gets through its recovery half. */
  lemma RecoveryIsRun(cfg: Config, s: State, k: nat) returns (path: Path, e: State)
    requires k in s.schedulers && s.schedulers[k].Reaping? && s.schedulers[k].since <= s.now
    ensures Goes(cfg, s, k, path, e, Measuring) && RecoverySteps(path.steps, k)
    ensures e.rows == S.RecoverRows(s.rows, s.window, cfg.leaseMs, cfg.graceMs, s.now)
    ensures e.window == S.RecoverWindow(s.window, S.ExpiredIds(s.rows, s.now - cfg.leaseMs))
  {
    var a, m := ReapIsRun(cfg, s, k);
    var b, n := SweepIsRun(cfg, m, k);
    path := Onward(cfg, s, k, a, m, Sweeping(s.now), b, n, Measuring);
    e := n;
  }

  // ---- Refill ---------------------------------------------------------------------------------

  ghost predicate Stores(e: State, p: S.Progress) {
    e.rows == p.rows && e.window == p.window
  }

  function AfterTurn(p: S.Progress, more: bool, now: int): Phase {
    if more && p.room > 0 then Filling(p.room, now) else Idle
  }

  lemma PublishedWhole(rows: Rows, ids: seq<Id>, accepted: seq<Id>, now: int)
    requires Distinct(ids) && Distinct(accepted) && |accepted| == |ids| && forall id :: id in accepted ==> id in ids
    ensures S.Settled(rows, ids, accepted, now) == MarkQueued(rows, ids, now)
  {
    DistinctCardinality(ids);
    DistinctCardinality(accepted);
    R.SubsetOfSameSize(Elems(accepted), Elems(ids));
    S.WholeBatchSettled(rows, now, ids);
  }

  lemma NothingClaimed(p: S.Progress, capacity: int, now: int)
    ensures S.AfterBatch(p, capacity, now, []) == p && MarkQueued(p.rows, [], now) == p.rows
  {
    assert W.Accepted(p.window, capacity, []) == [];
    assert MarkQueued(p.rows, [], now) == p.rows;
    assert ResetToPending(p.rows, [], now) == p.rows;
    assert p.window.ready + [] == p.window.ready && p.window.dedupe + Elems([]) == p.window.dedupe;
  }

  /** A claim that finds nothing ends the loop. */
  lemma EmptyClaimIsRun(cfg: Config, s: State, k: nat) returns (path: Path, e: State)
    requires k in s.schedulers && s.schedulers[k].Filling? && s.schedulers[k].since <= s.now
    ensures Goes(cfg, s, k, path, e, Idle) && e.rows == s.rows && e.window == s.window
  {
    assert MarkQueued(s.rows, [], s.now) == s.rows;
    path, e := Moves(cfg, s, k, Claim([], s.now));
  }

  lemma ClaimIsRun(cfg: Config, s: State, k: nat, p: S.Progress, ids: seq<Id>) returns (path: Path, e: State)
    requires k in s.schedulers && p.room > 0 && s.schedulers[k] == Filling(p.room, s.now) && Stores(s, p)
    requires S.AnswersClaim(p, cfg.batchSize, s.now, ids) && ids != []
    ensures Goes(cfg, s, k, path, e, Publishing(ids, p.room)) && e.rows == MarkQueued(s.rows, ids, s.now) && e.window == s.window
  {
    path, e := Moves(cfg, s, k, Claim(ids, s.now));
  }

  lemma PublishIsRun(cfg: Config, s: State, k: nat, p: S.Progress, ids: seq<Id>) returns (path: Path, e: State)
    requires k in s.schedulers && p.room > 0 && |ids| <= p.room && Distinct(ids) && s.schedulers[k] == Publishing(ids, p.room)
    requires s.window == p.window && s.rows == MarkQueued(p.rows, ids, s.now)
    ensures var p' := S.AfterBatch(p, cfg.capacity, s.now, ids);
            Goes(cfg, s, k, path, e, AfterTurn(p', p'.room < p.room, s.now)) && Stores(e, p')
  {
    var accepted := W.Accepted(s.window, cfg.capacity, ids);
    path, e := Moves(cfg, s, k, Publish);
    if |accepted| < |ids| {
      var m, phase := e, e.schedulers[k];
      var b, n := Moves(cfg, m, k, Reset(s.now));
      path := Onward(cfg, s, k, path, m, phase, b, n, n.schedulers[k]);
      e := n;
    } else {
      PublishedWhole(p.rows, ids, accepted, s.now);
    }
  }

  lemma BatchIsRun(cfg: Config, s: State, k: nat, p: S.Progress, ids: seq<Id>) returns (path: Path, e: State)
    requires k in s.schedulers && p.room > 0 && s.schedulers[k] == Filling(p.room, s.now) && Stores(s, p)
    requires S.AnswersClaim(p, cfg.batchSize, s.now, ids)
    ensures var p' := S.AfterBatch(p, cfg.capacity, s.now, ids);
            Goes(cfg, s, k, path, e, AfterTurn(p', p'.room < p.room, s.now)) && Stores(e, p')
  {
    if ids == [] {
      NothingClaimed(p, cfg.capacity, s.now);
      path, e := EmptyClaimIsRun(cfg, s, k);
    } else {
      var p' := S.AfterBatch(p, cfg.capacity, s.now, ids);
      var a, m := ClaimIsRun(cfg, s, k, p, ids);
      var b, n := PublishIsRun(cfg, m, k, p, ids);
      path := Onward(cfg, s, k, a, m, Publishing(ids, p.room), b, n, AfterTurn(p', p'.room < p.room, s.now));
      e := n;
    }
  }

  /** The phase after the first `n` batches. */
  function PhaseAt(c: S.Claims, n: nat, now: int): Phase
    requires n <= |c.batches| && |c.states| == |c.batches| + 1
  {
    AfterTurn(c.states[n], n > 0 ==> c.states[n].room < c.states[n - 1].room, now)
  }

  lemma BatchAt(c: S.Claims, capacity: int, batchSize: int, now: int, n: nat)
    requires S.Follows(c, capacity, batchSize, now) && n < |c.batches|
    ensures c.states[n].room > 0 && PhaseAt(c, n, now) == Filling(c.states[n].room, now)
    ensures S.AnswersClaim(c.states[n], batchSize, now, c.batches[n])
    ensures var p' := S.AfterBatch(c.states[n], capacity, now, c.batches[n]);
            p' == c.states[n + 1] && AfterTurn(p', p'.room < c.states[n].room, now) == PhaseAt(c, n + 1, now)
  {
  }

  lemma {:induction false} BatchesAreRun(cfg: Config, s: State, k: nat, c: S.Claims, n: nat) returns (path: Path, e: State)
    requires k in s.schedulers && S.Follows(c, cfg.capacity, cfg.batchSize, s.now) && n <= |c.batches|
    requires Stores(s, c.states[0]) && s.schedulers[k] == PhaseAt(c, 0, s.now)
    ensures Goes(cfg, s, k, path, e, PhaseAt(c, n, s.now)) && Stores(e, c.states[n])
  {
    if n == 0 {
      path := Stays(cfg, s, k);
      e := s;
    } else {
      var a, m := BatchesAreRun(cfg, s, k, c, n - 1);
      BatchAt(c, cfg.capacity, cfg.batchSize, s.now, n - 1);
      var b, o := BatchIsRun(cfg, m, k, c.states[n - 1], c.batches[n - 1]);
      path := Onward(cfg, s, k, a, m, PhaseAt(c, n - 1, s.now), b, o, PhaseAt(c, n, s.now));
      e := o;
    }
  }

  /** A publish throws, the claim is undone, and the tick throws. */
  lemma UndoIsRun(cfg: Config, s: State, k: nat, p: S.Progress, ids: seq<Id>) returns (path: Path, e: State)
    requires k in s.schedulers && p.room >= 0 && s.schedulers[k] == Publishing(ids, p.room)
    requires s.rows == MarkQueued(p.rows, ids, s.now)
    ensures Goes(cfg, s, k, path, e, Idle) && e.rows == S.Undone(p.rows, ids, s.now) && e.window == s.window
  {
    var a, m := Moves(cfg, s, k, PublishFails);
    var b, n := Moves(cfg, m, k, Reset(s.now));
    path := Onward(cfg, s, k, a, m, Undoing(ids), b, n, Idle);
    e := n;
  }

  /** What is left of a tick after its last whole batch: a publish that throws, a loop that is told to stop,
      or nothing. */
  lemma LoopEnds(cfg: Config, s: State, k: nat, p: S.Progress, undone: seq<Id>) returns (path: Path, e: State)
    requires k in s.schedulers && Stores(s, p)
    requires s.schedulers[k] == AfterTurn(p, s.schedulers[k].Filling?, s.now)
    requires undone != [] ==> s.schedulers[k].Filling? && S.AnswersClaim(p, cfg.batchSize, s.now, undone)
    ensures Goes(cfg, s, k, path, e, Idle) && e.window == s.window
    ensures e.rows == if undone == [] then p.rows else S.Undone(p.rows, undone, s.now)
  {
    if undone != [] {
      var a, m := ClaimIsRun(cfg, s, k, p, undone);
      var b, n := UndoIsRun(cfg, m, k, p, undone);
      path := Onward(cfg, s, k, a, m, Publishing(undone, p.room), b, n, Idle);
      e := n;
    } else if s.schedulers[k].Filling? {
      path, e := EmptyClaimIsRun(cfg, s, k);
    } else {
      path := Stays(cfg, s, k);
      e := s;
    }
  }

  lemma FilledIsRun(cfg: Config, s: State, k: nat, c: S.Claims, rows': Rows, w': W.Window) returns (path: Path, e: State)
    requires k in s.schedulers && |c.states| == |c.batches| + 1 && Stores(s, c.states[0]) && s.schedulers[k] == PhaseAt(c, 0, s.now)
    requires S.RefilledBy(c.states[0], cfg.capacity, cfg.batchSize, s.now, c, rows', w')
    ensures Goes(cfg, s, k, path, e, Idle) && e.rows == rows' && e.window == w'
  {
    var n := |c.batches|;
    var a, m := BatchesAreRun(cfg, s, k, c, n);
    var b, o := LoopEnds(cfg, m, k, c.states[n], c.undone);
    path := Onward(cfg, s, k, a, m, PhaseAt(c, n, s.now), b, o, Idle);
    e := o;
  }

  lemma RefillIsRun(cfg: Config, s: State, k: nat, c: S.Claims, rows': Rows, w': W.Window) returns (path: Path, e: State)
    requires k in s.schedulers && s.schedulers[k] == Measuring
    requires S.RefilledBy(S.Progress(s.rows, s.window, W.Room(s.window, cfg.capacity)), cfg.capacity, cfg.batchSize, s.now, c, rows', w')
    ensures Goes(cfg, s, k, path, e, Idle) && e.rows == rows' && e.window == w'
  {
    var a, m := Moves(cfg, s, k, Measure(W.Room(s.window, cfg.capacity)));
    assert m.schedulers[k] == PhaseAt(c, 0, s.now);
    var b, n := FilledIsRun(cfg, m, k, c, rows', w');
    path := Onward(cfg, s, k, a, m, m.schedulers[k], b, n, Idle);
    e := n;
  }

  // ---- The tick -------------------------------------------------------------------------------

  lemma RestOfTickIsRun(cfg: Config, s: State, k: nat, c: S.Claims, rows': Rows, w': W.Window) returns (path: Path, e: State)
    requires k in s.schedulers && s.schedulers[k] == Reaping(s.now)
    requires S.TickedBy(s.rows, s.window, cfg.capacity, cfg.leaseMs, cfg.graceMs, cfg.batchSize, s.now, c, rows', w')
    ensures Goes(cfg, s, k, path, e, Idle) && e.rows == rows' && e.window == w'
  {
    var a, m := RecoveryIsRun(cfg, s, k);
    var b, n := RefillIsRun(cfg, m, k, c, rows', w');
    path := Onward(cfg, s, k, a, m, Measuring, b, n, Idle);
    e := n;
  }

  /** What a tick does to the table and the window when nothing happens in between, whatever the database
      answers and whether or not a publish throws, is what the step machine does; so every theorem about its
      runs applies to it. */
  lemma TickIsRun(cfg: Config, s: State, k: nat, c: S.Claims, rows': Rows, w': W.Window) returns (steps: seq<Step>, e: State)
    requires k in s.schedulers && s.schedulers[k] == Idle
    requires S.TickedBy(s.rows, s.window, cfg.capacity, cfg.leaseMs, cfg.graceMs, cfg.batchSize, s.now, c, rows', w')
    ensures Run(cfg, s, steps) == Some(e)
    ensures e.rows == rows' && e.window == w'
    ensures e.schedulers == s.schedulers && e.workers == s.workers && e.now == s.now && e.log == s.log
  {
    var a, m := Moves(cfg, s, k, Begin);
    var b, n := RestOfTickIsRun(cfg, m, k, c, rows', w');
    var path := Onward(cfg, s, k, a, m, Reaping(s.now), b, n, Idle);
    PathRuns(cfg, s, path, n);
    steps, e := path.steps, n;
    assert s.schedulers[k := Idle] == s.schedulers;
  }
}
