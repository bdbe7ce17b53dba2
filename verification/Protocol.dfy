/** The whole delivery system as a step machine.

    A step is one commit in Postgres, one script or BLMOVE in Redis, one read that feeds a later
    write, or an event of the environment.  Schedulers and workers keep between steps exactly what
    the code keeps in local variables between awaits.  Any actor may stop at any point. */
module Protocol {
  import opened Basics
  import opened Deliveries
  import W = WindowSpec
  import B = Backoff

  datatype Config = Config(
    capacity: nat,          // EXECUTION_WINDOW_SIZE
    batchSize: nat,
    leaseMs: int,           // LEASE_TIMEOUT_MS
    graceMs: int,           // ORPHAN_GRACE_MS
    holdMs: int,            // the longest a live worker keeps a locked delivery
    maxAttempts: nat,
    backoff: B.Options)

  /** Where one worker loop stands.  `since` is when the id was popped; a lease is the lockedAt that
      this worker wrote. */
  datatype Worker =
    | Free
    | Popped(id: Id, since: int)
    | Locked(id: Id, lockedAt: int)
    | Sending(id: Id, lockedAt: int, attempt: nat)
    | Leaving(id: Id, lease: Option<int>)       // in the finally block, before complete

  /** Where one scheduler's tick stands. */
  datatype Phase =
    | Idle
    | Reaping(since: int)
    | Reclaiming(ids: seq<Id>, since: int)      // expired rows read, not yet updated
    | Releasing(ids: seq<Id>)                   // rows updated, window not yet told
    | Sweeping(since: int)
    | Checking(ids: seq<Id>)
    | Resetting(ids: seq<Id>, since: int)
    | Measuring
    | Filling(room: nat, since: int)
    | Publishing(ids: seq<Id>, room: nat)       // claim committed, not yet published
    | Rejecting(ids: seq<Id>, room: nat, taken: nat)
    | Undoing(ids: seq<Id>)

  /** A retry the row was given: not before `at`, which is `delay` after the failure. */
  datatype Retry = Retry(at: int, delay: nat)

  /** An audit row, tagged with the replay it belongs to and the retry decided with it. */
  datatype Entry = Entry(row: AttemptRow, epoch: nat, retry: Option<Retry>)

  datatype State = State(
    now: int,
    rows: Rows,
    window: W.Window,
    workers: map<nat, Worker>,
    schedulers: map<nat, Phase>,
    log: seq<Entry>,
    replays: map<Id, nat>,                      // how often each row was replayed
    reaps: map<Id, nat>)                        // how often it was reclaimed since

  function Count(m: map<Id, nat>, id: Id): nat {
    if id in m then m[id] else 0
  }

  datatype WorkerAct =
    | Pop
    | Lock(stamp: int)
    | Skip
    | Read
    | Succeed(code: int, durationMs: int, stamp: int)
    | Fail(status: Option<int>, message: string, durationMs: int, stamp: int, draw: real)
    | Throw
    | Complete
    | Crash

  datatype SchedulerAct =
    | Begin
    | ReapRead(ids: seq<Id>, stamp: int)
    | ReapUpdate(stamp: int)
    | Release
    | SweepRead(ids: seq<Id>, stamp: int)
    | SweepCheck
    | SweepReset(stamp: int)
    | Measure(room: nat)
    | Claim(ids: seq<Id>, stamp: int)
    | Publish
    | PublishFails
    | Reset(stamp: int)
    | Abort

  datatype Step =
    | Advance(to: int)
    | NewDelivery(id: Id)
    | ReplayDelivery(id: Id)
    | Works(w: nat, act: WorkerAct)
    | Schedules(k: nat, move: SchedulerAct)

  // ---- Workers ---------------------------------------------------------------------------

  predicate Holding(worker: Worker, id: Id) {
    !worker.Free? && worker.id == id
  }

  function Lease(worker: Worker): Option<int> {
    match worker
    case Free => None
    case Popped(_, _) => None
    case Locked(_, lockedAt) => Some(lockedAt)
    case Sending(_, lockedAt, _) => Some(lockedAt)
    case Leaving(_, lease) => lease
  }

  /** No response at all counts as retryable. */
  predicate Retryable(status: Option<int>) {
    status.None? || B.IsRetryableStatus(status.value)
  }

  function Decide(cfg: Config, attempt: nat, status: Option<int>, stamp: int, draw: real): Option<Retry>
    requires 0.0 <= draw < 1.0
  {
    if Retryable(status) && B.ShouldRetry(attempt, cfg.maxAttempts) then
      var delay := B.Compute(attempt, cfg.backoff, draw);
      Some(Retry(stamp + delay, delay))
    else None
  }

  function RetryTime(retry: Option<Retry>): Option<int> {
    if retry.Some? then Some(retry.value.at) else None
  }

  predicate CanWork(cfg: Config, s: State, w: nat, act: WorkerAct) {
    && w in s.workers
    && var me := s.workers[w];
    match act
    case Pop => me.Free? && s.window.ready != []
    case Lock(stamp) => me.Popped? && Claimable(s.rows, me.id) && me.since <= stamp <= s.now <= stamp + cfg.holdMs
    case Skip => me.Popped? && !Claimable(s.rows, me.id)
    case Read => me.Locked? && me.id in s.rows
    case Succeed(status, _, stamp) =>
      me.Sending? && me.id in s.rows && B.IsSuccessStatus(status) && me.lockedAt <= stamp <= s.now
    case Fail(status, _, _, stamp, draw) =>
      && me.Sending? && me.id in s.rows && me.lockedAt <= stamp <= s.now && 0.0 <= draw < 1.0
      && (status.Some? ==> !B.IsSuccessStatus(status.value))
    case Throw => me.Popped? || me.Locked? || me.Sending?
    case Complete => me.Leaving?
    case Crash => !me.Free?
  }

  function Work(cfg: Config, s: State, w: nat, act: WorkerAct): State
    requires CanWork(cfg, s, w, act)
  {
    var me := s.workers[w];
    match act
    case Pop =>
      s.(window := W.Pop(s.window), workers := s.workers[w := Popped(s.window.ready[0], s.now)])
    case Lock(stamp) =>
      s.(rows := Deliveries.Lock(s.rows, me.id, stamp), workers := s.workers[w := Locked(me.id, stamp)])
    case Skip =>
      s.(workers := s.workers[w := Leaving(me.id, None)])
    case Read =>
      s.(workers := s.workers[w := Sending(me.id, me.lockedAt, s.rows[me.id].attempt + 1)])
    case Succeed(status, durationMs, stamp) =>
      var entry := Entry(AttemptRow(me.id, me.attempt, Some(status), None, durationMs), Count(s.replays, me.id), None);
      s.(rows := RecordSuccess(s.rows, me.id, me.attempt, status, stamp),
         log := s.log + [entry],
         workers := s.workers[w := Leaving(me.id, None)])
    case Fail(status, message, durationMs, stamp, draw) =>
      var retry := Decide(cfg, me.attempt, status, stamp, draw);
      var entry := Entry(AttemptRow(me.id, me.attempt, status, Some(Clip(message)), durationMs), Count(s.replays, me.id), retry);
      s.(rows := RecordFailure(s.rows, me.id, me.attempt, status, message, RetryTime(retry), stamp),
         log := s.log + [entry],
         workers := s.workers[w := Leaving(me.id, None)])
    case Throw =>
      s.(workers := s.workers[w := Leaving(me.id, Lease(me))])
    case Complete =>
      s.(window := W.Complete(s.window, me.id), workers := s.workers[w := Free])
    case Crash =>
      s.(workers := s.workers[w := Free])
  }

  // ---- Schedulers ------------------------------------------------------------------------

  ghost predicate CanSchedule(cfg: Config, s: State, k: nat, act: SchedulerAct) {
    && k in s.schedulers
    && var me := s.schedulers[k];
    match act
    case Begin => me.Idle?
    case ReapRead(ids, stamp) =>
      && me.Reaping? && me.since <= stamp <= s.now
      && forall id :: id in ids <==> id in s.rows && Expired(s.rows[id], stamp - cfg.leaseMs)
    case ReapUpdate(stamp) => me.Reclaiming? && me.since <= stamp <= s.now
    case Release => me.Releasing?
    case SweepRead(ids, stamp) =>
      && me.Sweeping? && me.since <= stamp <= s.now
      && forall id :: id in ids <==> id in s.rows && Stale(s.rows[id], stamp - cfg.graceMs)
    case SweepCheck => me.Checking?
    case SweepReset(stamp) => me.Resetting? && me.since <= stamp <= s.now
    case Measure(room) => me.Measuring? && room <= cfg.capacity
    case Claim(ids, stamp) =>
      // Rows that another transaction has locked are skipped, so any part of the answer may be missing.
      && me.Filling? && me.since <= stamp <= s.now
      && Distinct(ids) && |ids| <= Min(me.room, cfg.batchSize)
      && forall id :: id in ids ==> id in s.rows && Eligible(s.rows[id], stamp)
    case Publish => me.Publishing?
    case PublishFails => me.Publishing?
    case Reset(stamp) => (me.Rejecting? || me.Undoing?) && stamp <= s.now
    case Abort => !me.Idle?
  }

  /** The refill loop's exit tests after `taken` of a batch were accepted. */
  function NextBatch(room: nat, taken: nat, now: int): Phase {
    if taken == 0 || room <= taken then Idle else Filling(room - taken, now)
  }

  function BumpReaps(s: State, ids: seq<Id>): map<Id, nat> {
    map id | id in s.rows :: Count(s.reaps, id) + if id in ids && s.rows[id].status == Processing then 1 else 0
  }

  function Schedule(cfg: Config, s: State, k: nat, act: SchedulerAct): State
    requires CanSchedule(cfg, s, k, act)
  {
    var me := s.schedulers[k];
    match act
    case Begin =>
      s.(schedulers := s.schedulers[k := Reaping(s.now)])
    case ReapRead(ids, _) =>
      s.(schedulers := s.schedulers[k := if ids == [] then Sweeping(s.now) else Reclaiming(ids, s.now)])
    case ReapUpdate(stamp) =>
      s.(rows := Reclaim(s.rows, me.ids, stamp), reaps := BumpReaps(s, me.ids),
         schedulers := s.schedulers[k := Releasing(me.ids)])
    case Release =>
      s.(window := W.Release(s.window, me.ids), schedulers := s.schedulers[k := Sweeping(s.now)])
    case SweepRead(ids, _) =>
      s.(schedulers := s.schedulers[k := if ids == [] then Measuring else Checking(ids)])
    case SweepCheck =>
      var orphans := W.NotInWindow(s.window, me.ids);
      s.(schedulers := s.schedulers[k := if orphans == [] then Measuring else Resetting(orphans, s.now)])
    case SweepReset(stamp) =>
      s.(rows := ResetToPending(s.rows, me.ids, stamp), schedulers := s.schedulers[k := Measuring])
    case Measure(room) =>
      s.(schedulers := s.schedulers[k := if room == 0 then Idle else Filling(room, s.now)])
    case Claim(ids, stamp) =>
      s.(rows := MarkQueued(s.rows, ids, stamp),
         schedulers := s.schedulers[k := if ids == [] then Idle else Publishing(ids, me.room)])
    case Publish =>
      var accepted := W.Accepted(s.window, cfg.capacity, me.ids);
      var rejected := Drop(me.ids, Elems(accepted));
      s.(window := W.Enqueue(s.window, cfg.capacity, me.ids),
         schedulers := s.schedulers[k :=
           if |accepted| < |me.ids| then Rejecting(rejected, me.room, |accepted|)
           else NextBatch(me.room, |accepted|, s.now)])
    case PublishFails =>
      s.(schedulers := s.schedulers[k := Undoing(me.ids)])
    case Reset(stamp) =>
      s.(rows := ResetToPending(s.rows, me.ids, stamp),
         schedulers := s.schedulers[k := if me.Undoing? then Idle else NextBatch(me.room, me.taken, s.now)])
    case Abort =>
      s.(schedulers := s.schedulers[k := Idle])
  }

  // ---- The machine -----------------------------------------------------------------------

  ghost predicate Enabled(cfg: Config, s: State, step: Step) {
    match step
    case Advance(to) =>
      s.now <= to && forall w :: w in s.workers && Lease(s.workers[w]).Some? ==> to <= Lease(s.workers[w]).value + cfg.holdMs
    case NewDelivery(id) => id !in s.rows
    case ReplayDelivery(id) => Replayable(s.rows, id)
    case Works(w, act) => CanWork(cfg, s, w, act)
    case Schedules(k, act) => CanSchedule(cfg, s, k, act)
  }

  ghost function Apply(cfg: Config, s: State, step: Step): State
    requires Enabled(cfg, s, step)
  {
    match step
    case Advance(to) => s.(now := to)
    case NewDelivery(id) =>
      s.(rows := s.rows[id := NewRow(s.now)], replays := s.replays[id := 0], reaps := s.reaps[id := 0])
    case ReplayDelivery(id) =>
      s.(rows := Replay(s.rows, id, s.now),
         replays := s.replays[id := Count(s.replays, id) + 1],
         reaps := s.reaps[id := 0])
    case Works(w, act) => Work(cfg, s, w, act)
    case Schedules(k, act) => Schedule(cfg, s, k, act)
  }

  ghost predicate Init(s: State) {
    && s.rows == map[] && s.window == W.EMPTY && s.log == [] && s.replays == map[] && s.reaps == map[]
    && (forall w :: w in s.workers ==> s.workers[w] == Free)
    && (forall k :: k in s.schedulers ==> s.schedulers[k] == Idle)
  }

  /** The state after a sequence of steps, if each is enabled when its turn comes. */
  ghost function Run(cfg: Config, s: State, steps: seq<Step>): Option<State> {
    if steps == [] then Some(s)
    else
      var before := Run(cfg, s, steps[..|steps| - 1]);
      if before.Some? && Enabled(cfg, before.value, steps[|steps| - 1])
      then Some(Apply(cfg, before.value, steps[|steps| - 1]))
      else None
  }

  ghost predicate OneScheduler(s: State) {
    forall j, k :: j in s.schedulers && k in s.schedulers ==> j == k
  }
}
