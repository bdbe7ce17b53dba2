/** The two assumptions of the ownership theorem are exactly what the code needs, and what the reaper
    does not do: explicit runs, built from a few reusable stretches of one delivery's life. */
module Limits {
  import opened Basics
  import opened Deliveries
  import opened Protocol
  import opened Paths
  import A = Accounting
  import O = Ownership
  import W = WindowSpec

  const ID: Id := 0

  ghost predicate Usable(cfg: Config) {
    cfg.capacity >= 1 && cfg.batchSize >= 1 && cfg.holdMs >= 0 && cfg.leaseMs >= 0
  }

  /** The only row, wherever the window has it. */
  ghost predicate Solo(s: State, row: Row, ready: seq<Id>, inFlight: seq<Id>, dedupe: set<Id>) {
    s.rows == map[ID := row] && s.window == W.Window(ready, inFlight, dedupe)
  }

  // ---- The second half of a tick: nothing stale, one row to claim -----------------------------

  lemma Claimed(cfg: Config, s: State, k: nat, row: Row) returns (path: Path, e: State)
    requires Usable(cfg) && Solo(s, row, [], [], {}) && Eligible(row, s.now)
    requires k in s.schedulers && s.schedulers[k].Sweeping? && s.schedulers[k].since <= s.now
    ensures Leads(cfg, s, path, e)
    ensures e == s.(rows := map[ID := row.(status := Queued, updatedAt := s.now)],
                    schedulers := s.schedulers[k := Publishing([ID], cfg.capacity)])
  {
    path, e := First(cfg, s, Schedules(k, SweepRead([], s.now)));
    path, e := Then(cfg, s, path, e, Schedules(k, Measure(cfg.capacity)));
    path, e := ClaimedNow(cfg, s, k, row, path, e);
  }

  lemma ClaimedNow(cfg: Config, s: State, k: nat, row: Row, path: Path, m: State) returns (longer: Path, e: State)
    requires Usable(cfg) && Leads(cfg, s, path, m) && m.rows == map[ID := row] && Eligible(row, m.now)
    requires k in m.schedulers && m.schedulers[k] == Filling(cfg.capacity, m.now)
    ensures Leads(cfg, s, longer, e)
    ensures e == m.(rows := map[ID := row.(status := Queued, updatedAt := m.now)],
                    schedulers := m.schedulers[k := Publishing([ID], cfg.capacity)])
  {
    assert MarkQueued(m.rows, [ID], m.now) == map[ID := row.(status := Queued, updatedAt := m.now)];
    longer, e := Then(cfg, s, path, m, Schedules(k, Claim([ID], m.now)));
  }

  /** The batch is published; if there is room for more, the next claim finds nothing and the tick ends. */
  lemma Published(cfg: Config, s: State, k: nat, row: Row) returns (path: Path, e: State)
    requires Usable(cfg) && Solo(s, row, [], [], {})
    requires k in s.schedulers && s.schedulers[k] == Publishing([ID], cfg.capacity)
    ensures Leads(cfg, s, path, e)
    ensures e == s.(window := W.Window([ID], [], {ID}), schedulers := s.schedulers[k := Idle])
  {
    assert W.Fresh([ID], {}) == [ID];
    assert W.Accepted(s.window, cfg.capacity, [ID]) == [ID];
    path, e := First(cfg, s, Schedules(k, Publish));
    if cfg.capacity > 1 {
      assert MarkQueued(e.rows, [], s.now) == e.rows;
      path, e := Then(cfg, s, path, e, Schedules(k, Claim([], s.now)));
    }
  }

  lemma Refilled(cfg: Config, s: State, k: nat, row: Row) returns (path: Path, e: State)
    requires Usable(cfg) && Solo(s, row, [], [], {}) && Eligible(row, s.now)
    requires k in s.schedulers && s.schedulers[k].Sweeping? && s.schedulers[k].since <= s.now
    ensures Leads(cfg, s, path, e)
    ensures e == s.(rows := map[ID := row.(status := Queued, updatedAt := s.now)], window := W.Window([ID], [], {ID}),
                    schedulers := s.schedulers[k := Idle])
  {
    var a, m := Claimed(cfg, s, k, row);
    var b, n := Published(cfg, m, k, m.rows[ID]);
    path := Both(cfg, s, a, m, b, n);
    e := n;
  }

  // ---- Whole ticks, and a delivery taken by a worker ------------------------------------------

  /** A tick that finds nothing to recover. */
  lemma Enqueued(cfg: Config, s: State, k: nat, row: Row) returns (path: Path, e: State)
    requires Usable(cfg) && Solo(s, row, [], [], {}) && Eligible(row, s.now)
    requires k in s.schedulers && s.schedulers[k] == Idle
    ensures Leads(cfg, s, path, e)
    ensures e == s.(rows := map[ID := row.(status := Queued, updatedAt := s.now)], window := W.Window([ID], [], {ID}))
  {
    var a, m := First(cfg, s, Schedules(k, Begin));
    a, m := Then(cfg, s, a, m, Schedules(k, ReapRead([], s.now)));
    var b, n := Refilled(cfg, m, k, row);
    path := Both(cfg, s, a, m, b, n);
    e := n;
    assert e.schedulers == s.schedulers;
  }

  lemma Taken(cfg: Config, s: State, w: nat, row: Row) returns (path: Path, e: State)
    requires Usable(cfg) && Solo(s, row, [ID], [], {ID}) && row.status == Queued
    requires w in s.workers && s.workers[w] == Free
    ensures Leads(cfg, s, path, e)
    ensures e == s.(rows := map[ID := row.(status := Processing, lockedAt := Some(s.now), updatedAt := s.now)],
                    window := W.Window([], [ID], {ID}),
                    workers := s.workers[w := Sending(ID, s.now, row.attempt + 1)])
  {
    var a, m := First(cfg, s, Works(w, Pop));
    assert m == s.(window := W.Window([], [ID], {ID}), workers := s.workers[w := Popped(ID, s.now)]);
    var b, n := LockedAndRead(cfg, m, w, s.now);
    path := Both(cfg, s, a, m, b, n);
    e := n;
  }

  function Reclaimed(row: Row, now: int): Row {
    row.(status := Waiting, nextRetryAt := Some(now), lockedAt := None, attempt := row.attempt + 1,
         lastError := Some(LEASE_EXPIRED), updatedAt := now)
  }

  lemma ReadExpired(cfg: Config, s: State, k: nat, row: Row) returns (path: Path, e: State)
    requires ID in s.rows && s.rows == map[ID := row] && Expired(row, s.now - cfg.leaseMs)
    requires k in s.schedulers && s.schedulers[k] == Idle
    ensures Leads(cfg, s, path, e)
    ensures e == s.(schedulers := s.schedulers[k := Reclaiming([ID], s.now)])
  {
    path, e := First(cfg, s, Schedules(k, Begin));
    path, e := Then(cfg, s, path, e, Schedules(k, ReapRead([ID], s.now)));
  }

  lemma RowReclaimed(cfg: Config, s: State, k: nat, row: Row) returns (path: Path, e: State)
    requires s.rows == map[ID := row] && row.status == Processing
    requires k in s.schedulers && s.schedulers[k] == Reclaiming([ID], s.now)
    ensures Leads(cfg, s, path, e)
    ensures e == s.(rows := map[ID := Reclaimed(row, s.now)], reaps := map[ID := Count(s.reaps, ID) + 1],
                    schedulers := s.schedulers[k := Releasing([ID])])
  {
    assert s.rows[ID] == row;
    assert Reclaim(s.rows, [ID], s.now) == map[ID := Reclaimed(row, s.now)];
    assert BumpReaps(s, [ID]) == map[ID := Count(s.reaps, ID) + 1];
    path, e := First(cfg, s, Schedules(k, ReapUpdate(s.now)));
  }

  lemma ReclaimedAndReleased(cfg: Config, s: State, k: nat, row: Row) returns (path: Path, e: State)
    requires Solo(s, row, [], [ID], {ID}) && row.status == Processing
    requires k in s.schedulers && s.schedulers[k] == Reclaiming([ID], s.now)
    ensures Leads(cfg, s, path, e)
    ensures e == s.(rows := map[ID := Reclaimed(row, s.now)], window := W.EMPTY,
                    reaps := map[ID := Count(s.reaps, ID) + 1], schedulers := s.schedulers[k := Sweeping(s.now)])
  {
    var a, m := RowReclaimed(cfg, s, k, row);
    assert W.Release(m.window, [ID]) == W.EMPTY;
    path, e := Then(cfg, s, a, m, Schedules(k, Release));
  }

  /** The rest of a tick that has read the row as expired: reclaimed, released and queued again. */
  lemma ReclaimedAndQueued(cfg: Config, s: State, k: nat, row: Row) returns (path: Path, e: State)
    requires Usable(cfg) && Solo(s, row, [], [ID], {ID}) && row.status == Processing
    requires k in s.schedulers && s.schedulers[k] == Reclaiming([ID], s.now)
    ensures Leads(cfg, s, path, e)
    ensures e == s.(rows := map[ID := Reclaimed(row, s.now).(status := Queued)], window := W.Window([ID], [], {ID}),
                    reaps := map[ID := Count(s.reaps, ID) + 1], schedulers := s.schedulers[k := Idle])
  {
    var a, m := ReclaimedAndReleased(cfg, s, k, row);
    var b, n := Refilled(cfg, m, k, Reclaimed(row, s.now));
    path := Both(cfg, s, a, m, b, n);
    e := n;
    assert e.schedulers == s.schedulers[k := Idle];
  }

  lemma ReapedAndQueued(cfg: Config, s: State, k: nat, row: Row) returns (path: Path, e: State)
    requires Usable(cfg) && Solo(s, row, [], [ID], {ID}) && Expired(row, s.now - cfg.leaseMs)
    requires k in s.schedulers && s.schedulers[k] == Idle
    ensures Leads(cfg, s, path, e)
    ensures e == s.(rows := map[ID := Reclaimed(row, s.now).(status := Queued)], window := W.Window([ID], [], {ID}),
                    reaps := map[ID := Count(s.reaps, ID) + 1])
  {
    var a, m := ReadExpired(cfg, s, k, row);
    var b, n := ReclaimedAndQueued(cfg, m, k, row);
    path := Both(cfg, s, a, m, b, n);
    e := n;
    assert e.schedulers == s.schedulers;
  }

  /** From the start to a single delivery that worker `w` is sending. */
  lemma FirstSend(cfg: Config, start: State, k: nat, w: nat) returns (path: Path, e: State)
    requires Usable(cfg) && Init(start) && k in start.schedulers && w in start.workers
    ensures Leads(cfg, start, path, e)
    ensures e.now == start.now && e.schedulers == start.schedulers
    ensures e.workers == start.workers[w := Sending(ID, start.now, 1)]
    ensures e.log == [] && ID in e.rows
    ensures Solo(e, e.rows[ID], [], [ID], {ID}) && O.LockedRow(e.rows[ID], start.now) && e.rows[ID].attempt == 0
  {
    var a, m := First(cfg, start, NewDelivery(ID));
    var row := NewRow(start.now);
    assert m.rows == map[ID := row];
    var b, n := Enqueued(cfg, m, k, row);
    path := Both(cfg, start, a, m, b, n);
    var c, o := Taken(cfg, n, w, n.rows[ID]);
    path := Both(cfg, start, path, n, c, o);
    e := o;
  }

  // ---- A hold longer than the lease -----------------------------------------------------------

  /** The delivery is ready again although worker `v` is still sending it. */
  ghost predicate ReadyWhileSent(start: State, e: State, v: nat) {
    && v in start.workers && e.workers == start.workers[v := Sending(ID, start.now, 1)]
    && start.now <= e.now && ID in e.rows && e.rows[ID].status == Queued
    && Solo(e, e.rows[ID], [ID], [], {ID})
  }

  lemma LeaseOutrun(cfg: Config, start: State, k: nat, v: nat) returns (path: Path, e: State)
    requires Usable(cfg) && Init(start) && k in start.schedulers && v in start.workers
    requires cfg.leaseMs < cfg.holdMs
    ensures Leads(cfg, start, path, e) && ReadyWhileSent(start, e, v)
  {
    var a, m := FirstSend(cfg, start, k, v);
    a, m := Then(cfg, start, a, m, Advance(start.now + cfg.leaseMs + 1));
    var b, n := ReapedAndQueued(cfg, m, k, m.rows[ID]);
    path := Both(cfg, start, a, m, b, n);
    e := n;
  }

  /** Two workers are sending the same delivery. */
  ghost predicate SharedSend(e: State, v: nat, w: nat) {
    && v in e.workers && w in e.workers && v != w && ID in e.rows
    && e.workers[v].Sending? && e.workers[v].id == ID && e.workers[v].lockedAt <= e.now
    && e.workers[w].Sending? && e.workers[w].id == ID && e.workers[w].lockedAt <= e.now
  }

  /** When a worker may outlive its lease, two workers can be sending the same delivery. */
  lemma LongHoldBreaksExclusion(cfg: Config, start: State, k: nat, v: nat, w: nat) returns (path: Path, e: State)
    requires Usable(cfg) && Init(start) && k in start.schedulers
    requires v in start.workers && w in start.workers && v != w
    requires cfg.leaseMs < cfg.holdMs
    ensures Leads(cfg, start, path, e) && SharedSend(e, v, w)
  {
    var a, m := LeaseOutrun(cfg, start, k, v);
    var b, n := Taken(cfg, m, w, m.rows[ID]);
    path := Both(cfg, start, a, m, b, n);
    e := n;
  }

  /** And when the slow worker completes, it takes the mark of an id that is ready. */
  lemma LongHoldBreaksMarks(cfg: Config, start: State, k: nat, v: nat) returns (path: Path, e: State)
    requires Usable(cfg) && Init(start) && k in start.schedulers && v in start.workers
    requires cfg.leaseMs < cfg.holdMs
    ensures Leads(cfg, start, path, e) && !W.Exact(e.window)
  {
    path, e := LeaseOutrun(cfg, start, k, v);
    path, e := Then(cfg, start, path, e, Works(v, Throw));
    path, e := Then(cfg, start, path, e, Works(v, Complete));
    assert ID in e.window.ready && ID in W.Resident(e.window) && ID !in e.window.dedupe;
  }

  // ---- A second scheduler ---------------------------------------------------------------------

  /** Both schedulers have read the same expired lease; the faster one has put the delivery back, the
      slower one is about to update. */
  ghost predicate SlowReaper(start: State, k: nat, e: State) {
    && k in start.schedulers && e.schedulers == start.schedulers[k := Reclaiming([ID], e.now)]
    && e.workers == start.workers && ID in e.rows && e.rows[ID].status == Queued
    && Solo(e, e.rows[ID], [ID], [], {ID})
  }

  lemma BothRead(cfg: Config, s: State, j: nat, k: nat, row: Row) returns (path: Path, e: State)
    requires Usable(cfg) && Solo(s, row, [], [ID], {ID}) && Expired(row, s.now - cfg.leaseMs)
    requires j in s.schedulers && k in s.schedulers && j != k && s.schedulers[j] == Idle && s.schedulers[k] == Idle
    ensures Leads(cfg, s, path, e)
    ensures e.now == s.now && e.workers == s.workers && Solo(e, Reclaimed(row, s.now).(status := Queued), [ID], [], {ID})
    ensures e.schedulers == s.schedulers[k := Reclaiming([ID], s.now)]
  {
    var a, m := ReadExpired(cfg, s, k, row);
    var b, n := ReapedAndQueued(cfg, m, j, row);
    path := Both(cfg, s, a, m, b, n);
    e := n;
  }

  lemma SlowReaperReached(cfg: Config, start: State, j: nat, k: nat, w: nat) returns (path: Path, e: State)
    requires Usable(cfg) && Init(start) && w in start.workers
    requires j in start.schedulers && k in start.schedulers && j != k
    ensures Leads(cfg, start, path, e) && SlowReaper(start, k, e)
  {
    var a, m := FirstSend(cfg, start, j, w);
    a, m := Then(cfg, start, a, m, Works(w, Crash));
    a, m := Then(cfg, start, a, m, Advance(start.now + cfg.leaseMs + 1));
    assert m.workers == start.workers;
    var b, n := BothRead(cfg, m, j, k, m.rows[ID]);
    path := Both(cfg, start, a, m, b, n);
    e := n;
  }

  /** The slower scheduler releases the delivery after the faster one has put it back: a ready id is left
      without its mark. */
  lemma SecondSchedulerBreaksMarks(cfg: Config, start: State, j: nat, k: nat, w: nat) returns (path: Path, e: State)
    requires Usable(cfg) && Init(start) && w in start.workers
    requires j in start.schedulers && k in start.schedulers && j != k
    ensures Leads(cfg, start, path, e) && !W.Exact(e.window)
  {
    path, e := SlowReaperReached(cfg, start, j, k, w);
    path, e := Then(cfg, start, path, e, Schedules(k, ReapUpdate(e.now)));
    path, e := Then(cfg, start, path, e, Schedules(k, Release));
    assert ID in e.window.ready && ID in W.Resident(e.window) && ID !in e.window.dedupe;
  }

  /** The slower scheduler's update is guarded by PROCESSING alone: it takes the row from a worker that has
      only just locked it, and a second worker sends it too, however short the holds. */
  lemma SecondSchedulerBreaksExclusion(cfg: Config, start: State, j: nat, k: nat, v: nat, w: nat)
    returns (path: Path, e: State)
    requires Usable(cfg) && Init(start) && j in start.schedulers && k in start.schedulers && j != k
    requires v in start.workers && w in start.workers && v != w
    ensures Leads(cfg, start, path, e) && SharedSend(e, v, w)
  {
    var a, m := SlowReaperReached(cfg, start, j, k, w);
    var b, n := Taken(cfg, m, v, m.rows[ID]);
    path := Both(cfg, start, a, m, b, n);
    var c, o := ReclaimedAndQueued(cfg, n, k, n.rows[ID]);
    path := Both(cfg, start, path, n, c, o);
    var d, p := Taken(cfg, o, w, o.rows[ID]);
    path := Both(cfg, start, path, o, d, p);
    e := p;
  }

  // ---- Exactly when ---------------------------------------------------------------------------

  /** What the ownership theorem assumes. */
  ghost predicate Assumed(cfg: Config, start: State) {
    OneScheduler(start) && cfg.holdMs <= cfg.leaseMs
  }

  lemma SharedSendReached(cfg: Config, start: State, k: nat, v: nat, w: nat) returns (path: Path, e: State)
    requires Usable(cfg) && Init(start) && k in start.schedulers
    requires v in start.workers && w in start.workers && v != w
    requires !Assumed(cfg, start)
    ensures Leads(cfg, start, path, e) && SharedSend(e, v, w)
  {
    if cfg.holdMs > cfg.leaseMs {
      path, e := LongHoldBreaksExclusion(cfg, start, k, v, w);
    } else {
      var i, j :| i in start.schedulers && j in start.schedulers && i != j;
      path, e := SecondSchedulerBreaksExclusion(cfg, start, i, j, v, w);
    }
  }

  /** Exclusive sending holds in every run if and only if there is one scheduler and no live worker may
      keep a delivery longer than the lease. */
  lemma ExclusionIff(cfg: Config, start: State, k: nat, v: nat, w: nat)
    requires Usable(cfg) && Init(start) && k in start.schedulers
    requires v in start.workers && w in start.workers && v != w
    ensures (forall steps :: Run(cfg, start, steps).Some? ==> O.Exclusive(Run(cfg, start, steps).value))
            <==> OneScheduler(start) && cfg.holdMs <= cfg.leaseMs
  {
    if Assumed(cfg, start) {
      forall steps | Run(cfg, start, steps).Some? ensures O.Exclusive(Run(cfg, start, steps).value) {
        O.RunKeepsOwn(cfg, start, steps);
        O.OwnIsExclusive(cfg, Run(cfg, start, steps).value);
      }
    } else {
      var path, e := SharedSendReached(cfg, start, k, v, w);
      PathRuns(cfg, start, path, e);
      assert e.workers[v].Sending? && e.workers[w].Sending? && e.workers[v].id == e.workers[w].id;
      assert !O.Exclusive(e);
    }
  }

  /** Every run keeps the marks exact if and only if there is one scheduler and no live worker may keep a
      delivery longer than the lease. */
  lemma ExactMarksIff(cfg: Config, start: State, k: nat, w: nat)
    requires Usable(cfg) && Init(start) && k in start.schedulers && w in start.workers
    ensures (forall steps :: Run(cfg, start, steps).Some? ==> W.Exact(Run(cfg, start, steps).value.window))
            <==> OneScheduler(start) && cfg.holdMs <= cfg.leaseMs
  {
    if Assumed(cfg, start) {
      forall steps | Run(cfg, start, steps).Some? ensures W.Exact(Run(cfg, start, steps).value.window) {
        O.RunKeepsOwn(cfg, start, steps);
      }
    } else if cfg.holdMs > cfg.leaseMs {
      var path, e := LongHoldBreaksMarks(cfg, start, k, w);
      PathRuns(cfg, start, path, e);
    } else {
      var i, j :| i in start.schedulers && j in start.schedulers && i != j;
      var path, e := SecondSchedulerBreaksMarks(cfg, start, i, j, w);
      PathRuns(cfg, start, path, e);
    }
  }

  ghost predicate AllShaped(s: State) {
    forall id :: id in s.rows ==> A.Shaped(s.rows[id])
  }

  /** Of two senders one records a success and the other, later, a failure. */
  lemma SharedSendBreaksShape(cfg: Config, s: State, v: nat, w: nat) returns (path: Path, e: State)
    requires SharedSend(s, v, w)
    ensures Leads(cfg, s, path, e) && !AllShaped(e)
  {
    path, e := First(cfg, s, Works(v, Succeed(200, 0, s.now)));
    path, e := Then(cfg, s, path, e, Works(w, Fail(None, "", 0, s.now, 0.0)));
    assert ID in e.rows && e.rows[ID].deliveredAt.Some? && e.rows[ID].status != Delivered;
  }

  /** Every run keeps each status with exactly its timestamps under the same condition. */
  lemma RowShapesIff(cfg: Config, start: State, k: nat, v: nat, w: nat)
    requires Usable(cfg) && Init(start) && k in start.schedulers
    requires v in start.workers && w in start.workers && v != w
    ensures (forall steps :: Run(cfg, start, steps).Some? ==> AllShaped(Run(cfg, start, steps).value))
            <==> OneScheduler(start) && cfg.holdMs <= cfg.leaseMs
  {
    if Assumed(cfg, start) {
      forall steps | Run(cfg, start, steps).Some? ensures AllShaped(Run(cfg, start, steps).value) {
        ShapedInRun(cfg, start, steps);
      }
    } else {
      var a, m := SharedSendReached(cfg, start, k, v, w);
      var b, n := SharedSendBreaksShape(cfg, m, v, w);
      var path := Both(cfg, start, a, m, b, n);
      PathRuns(cfg, start, path, n);
    }
  }

  lemma ShapedInRun(cfg: Config, start: State, steps: seq<Step>)
    requires Init(start) && Assumed(cfg, start) && Run(cfg, start, steps).Some?
    ensures AllShaped(Run(cfg, start, steps).value)
  {
    A.RunKeepsAccounts(cfg, start, steps);
    var s := Run(cfg, start, steps).value;
    forall id | id in s.rows ensures A.Shaped(s.rows[id]) {
      assert A.Balanced(cfg, s.now, A.LedgerOf(s, id));
    }
  }

  // ---- A publish that stalls ------------------------------------------------------------------

  lemma StaleFound(cfg: Config, s: State, k: nat, row: Row) returns (path: Path, e: State)
    requires Solo(s, row, [], [], {}) && Stale(row, s.now - cfg.graceMs)
    requires k in s.schedulers && s.schedulers[k] == Idle
    ensures Leads(cfg, s, path, e) && e == s.(schedulers := s.schedulers[k := Checking([ID])])
  {
    path, e := First(cfg, s, Schedules(k, Begin));
    path, e := Then(cfg, s, path, e, Schedules(k, ReapRead([], s.now)));
    path, e := Then(cfg, s, path, e, Schedules(k, SweepRead([ID], s.now)));
  }

  lemma OrphanReset(cfg: Config, s: State, k: nat, row: Row) returns (path: Path, e: State)
    requires Solo(s, row, [], [], {}) && row.status == Queued
    requires k in s.schedulers && s.schedulers[k] == Checking([ID])
    ensures Leads(cfg, s, path, e)
    ensures e == s.(rows := map[ID := row.(status := Pending, lockedAt := None, updatedAt := s.now)],
                    schedulers := s.schedulers[k := Measuring])
  {
    assert W.NotInWindow(s.window, [ID]) == [ID];
    assert ResetToPending(s.rows, [ID], s.now) == map[ID := row.(status := Pending, lockedAt := None, updatedAt := s.now)];
    path, e := First(cfg, s, Schedules(k, SweepCheck));
    path, e := Then(cfg, s, path, e, Schedules(k, SweepReset(s.now)));
  }

  lemma StaleSwept(cfg: Config, s: State, k: nat, row: Row) returns (path: Path, e: State)
    requires Usable(cfg) && Solo(s, row, [], [], {}) && Stale(row, s.now - cfg.graceMs)
    requires k in s.schedulers && s.schedulers[k] == Idle
    ensures Leads(cfg, s, path, e) && e.schedulers == s.schedulers[k := Publishing([ID], cfg.capacity)]
  {
    var a, m := StaleFound(cfg, s, k, row);
    var b, n := OrphanReset(cfg, m, k, row);
    path := Both(cfg, s, a, m, b, n);
    path, e := Then(cfg, s, path, n, Schedules(k, Measure(cfg.capacity)));
    path, e := ClaimedNow(cfg, s, k, e.rows[ID], path, e);
  }

  /** The orphan sweep cannot tell a scheduler that is slow to publish from one that died: past the
      grace period another scheduler takes the same row, and both hold it in a batch to publish. */
  lemma StalledPublishIsClaimedTwice(cfg: Config, start: State, j: nat, k: nat) returns (path: Path, e: State)
    requires Usable(cfg) && Init(start) && cfg.graceMs >= 0
    requires j in start.schedulers && k in start.schedulers && j != k
    ensures Leads(cfg, start, path, e)
    ensures e.schedulers == start.schedulers[j := Publishing([ID], cfg.capacity)][k := Publishing([ID], cfg.capacity)]
  {
    var a, m := First(cfg, start, NewDelivery(ID));
    a, m := Then(cfg, start, a, m, Schedules(j, Begin));
    a, m := Then(cfg, start, a, m, Schedules(j, ReapRead([], m.now)));
    assert m.rows == map[ID := NewRow(start.now)];
    var b, n := Claimed(cfg, m, j, NewRow(start.now));
    path := Both(cfg, start, a, m, b, n);
    path, n := Then(cfg, start, path, n, Advance(start.now + cfg.graceMs + 1));
    var c, o := StaleSwept(cfg, n, k, n.rows[ID]);
    path := Both(cfg, start, path, n, c, o);
    e := o;
  }

  // ---- A delivery that kills its worker -------------------------------------------------------

  lemma DiesPastLease(cfg: Config, s: State, w: nat) returns (path: Path, e: State)
    requires Usable(cfg) && w in s.workers && !s.workers[w].Free?
    requires forall v :: v in s.workers && v != w ==> s.workers[v].Free?
    ensures Leads(cfg, s, path, e)
    ensures e == s.(now := s.now + cfg.leaseMs + 1, workers := s.workers[w := Free])
  {
    path, e := First(cfg, s, Works(w, Crash));
    path, e := Then(cfg, s, path, e, Advance(s.now + cfg.leaseMs + 1));
  }

  lemma DiesAndIsQueued(cfg: Config, s: State, k: nat, w: nat, row: Row) returns (path: Path, e: State)
    requires Usable(cfg) && Solo(s, row, [], [ID], {ID}) && O.LockedRow(row, s.now)
    requires k in s.schedulers && s.schedulers[k] == Idle && w in s.workers && !s.workers[w].Free?
    requires forall v :: v in s.workers && v != w ==> s.workers[v].Free?
    ensures Leads(cfg, s, path, e)
    ensures var later := s.now + cfg.leaseMs + 1;
            e == s.(now := later, rows := map[ID := Reclaimed(row, later).(status := Queued)],
                    window := W.Window([ID], [], {ID}), workers := s.workers[w := Free],
                    reaps := map[ID := Count(s.reaps, ID) + 1])
  {
    var a, m := DiesPastLease(cfg, s, w);
    var b, n := ReapedAndQueued(cfg, m, k, row);
    path := Both(cfg, s, a, m, b, n);
    e := n;
  }

  /** Worker `w` is sending the only delivery for the (n + 1)-th time, with nothing ever recorded. */
  ghost predicate SendingAgain(start: State, k: nat, w: nat, n: nat, s: State) {
    && k in s.schedulers && s.schedulers == start.schedulers && s.log == []
    && w in s.workers && s.workers == start.workers[w := Sending(ID, s.now, n + 1)]
    && ID in s.rows && Solo(s, s.rows[ID], [], [ID], {ID})
    && O.LockedRow(s.rows[ID], s.now) && s.rows[ID].attempt == n
  }

  /** The worker dies, the lease runs out, the reaper takes the row and counts an attempt, and the same
      tick queues it again. */
  lemma DiesAndIsSentAgain(cfg: Config, start: State, k: nat, w: nat, n: nat, s: State) returns (path: Path, e: State)
    requires Usable(cfg) && Init(start) && k in start.schedulers && w in start.workers && SendingAgain(start, k, w, n, s)
    ensures Leads(cfg, s, path, e) && SendingAgain(start, k, w, n + 1, e)
  {
    var a, m := DiesAndIsQueued(cfg, s, k, w, s.rows[ID]);
    assert m.workers == start.workers;
    var b, q := Taken(cfg, m, w, m.rows[ID]);
    path := Both(cfg, s, a, m, b, q);
    e := q;
  }

  /** A delivery whose worker dies every time is reclaimed again and again, past any number of
      attempts, and is never FAILED: the reaper counts attempts without looking at the limit. */
  lemma {:induction false} ReclaimedWithoutEnd(cfg: Config, start: State, k: nat, w: nat, n: nat)
    returns (path: Path, e: State)
    requires Usable(cfg) && Init(start) && k in start.schedulers && w in start.workers
    ensures Leads(cfg, start, path, e) && SendingAgain(start, k, w, n, e)
  {
    if n == 0 {
      path, e := FirstSend(cfg, start, k, w);
    } else {
      var a, m := ReclaimedWithoutEnd(cfg, start, k, w, n - 1);
      var b, p := DiesAndIsSentAgain(cfg, start, k, w, n - 1, m);
      path := Both(cfg, start, a, m, b, p);
      e := p;
    }
  }
}
