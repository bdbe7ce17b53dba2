/** One delivery end to end, as a worker runs it, and why that is a run of the step machine. */
module Workers {
  import opened Basics
  import opened Deliveries
  import W = WindowSpec
  import Redis = RedisQueue
  import Repo = Repository
  import P = Protocol
  import L = Paths
  import B = Backoff

  /** Where an exception interrupts `processOne`, if anywhere: before its conditional update has taken
      effect, or between that and the record, where it leaves the row locked. */
  datatype Fault = NoFault | BeforeLock | AfterLock

  /** Everything that reaches one turn of the loop from outside: whether taking an id from the window
      throws, clock readings, the endpoint's answer (None when there was none), the random draw, an
      exception in `processOne`, and whether `complete` itself fails. */
  datatype Trial = Trial(
    claimFails: bool,
    lockedAt: int,
    endedAt: int,
    response: Option<int>,
    message: string,
    durationMs: int,
    draw: real,
    fault: Fault,
    releaseFails: bool)

  datatype Outcome = Done | Retrying | GaveUp | Skipped | Threw

  /** The durable effect of one call. */
  datatype Effect = Effect(rows: Rows, logged: seq<AttemptRow>, outcome: Outcome)

  function Processed(cfg: P.Config, rows: Rows, id: Id, t: Trial): Effect
    requires 0.0 <= t.draw < 1.0
  {
    if t.fault == BeforeLock then Effect(rows, [], Threw)
    else if !Claimable(rows, id) then Effect(rows, [], Skipped)
    else
      var locked := Lock(rows, id, t.lockedAt);
      var attempt := rows[id].attempt + 1;
      if t.fault != NoFault then Effect(locked, [], Threw)
      else if t.response.Some? && B.IsSuccessStatus(t.response.value) then
        Effect(RecordSuccess(locked, id, attempt, t.response.value, t.endedAt),
               [AttemptRow(id, attempt, t.response, None, t.durationMs)], Done)
      else
        var retry := P.Decide(cfg, attempt, t.response, t.endedAt, t.draw);
        Effect(RecordFailure(locked, id, attempt, t.response, t.message, P.RetryTime(retry), t.endedAt),
               [AttemptRow(id, attempt, t.response, Some(Clip(t.message)), t.durationMs)],
               if retry.Some? then Retrying else GaveUp)
  }

  /** What each outcome says about the row: nobody else's row changes, an attempt is counted exactly
      when it is logged, and only a retryable failure below the limit leaves the row waiting. */
  lemma OutcomeMeans(cfg: P.Config, rows: Rows, id: Id, t: Trial)
    requires 0.0 <= t.draw < 1.0
    ensures var e := Processed(cfg, rows, id, t);
            && e.rows.Keys == rows.Keys
            && (forall x :: x in rows && x != id ==> e.rows[x] == rows[x])
            && (e.outcome.Skipped? || t.fault == BeforeLock ==> e.rows == rows && e.logged == [])
            && (t.fault == NoFault && Claimable(rows, id) ==>
                  var row, row', n := rows[id], e.rows[id], rows[id].attempt + 1;
                  && |e.logged| == 1 && e.logged[0].attempt == row'.attempt == n && row'.lockedAt == None
                  && (e.outcome.Done? <==> t.response.Some? && 200 <= t.response.value < 300)
                  && (e.outcome.Retrying? <==> !e.outcome.Done? && P.Retryable(t.response) && n < cfg.maxAttempts)
                  && (e.outcome.Done? <==> row'.status == Delivered)
                  && (e.outcome.Retrying? <==> row'.status == Waiting)
                  && (e.outcome.GaveUp? <==> row'.status == Failed)
                  && (e.outcome.Retrying? ==>
                        row'.nextRetryAt.Some?
                        && t.endedAt <= row'.nextRetryAt.value <= t.endedAt + B.Ceiling(n, cfg.backoff)))
  {
    if t.fault == NoFault && Claimable(rows, id) {
      B.JitterInRange(t.draw, B.Ceiling(rows[id].attempt + 1, cfg.backoff));
    }
  }

  // ---- What a call leaves, column by column -------------------------------------------------

  /** Whether this answer to attempt number `n` is worth another attempt. */
  predicate WorthRetrying(response: Option<int>, n: nat, maxAttempts: nat) {
    n < maxAttempts && (response.None? || response.value >= 500 || response.value in {408, 425, 429})
  }

  predicate Delivers(response: Option<int>) {
    response.Some? && response.value / 100 == 2
  }

  /** Nothing: the exception came before the conditional update, or the row was not QUEUED. */
  ghost predicate LeavesAlone(rows: Rows, rows': Rows, logged: seq<AttemptRow>) {
    rows' == rows && logged == []
  }

  /** The row is locked and nothing is logged: an exception after the conditional update. */
  ghost predicate LeavesLocked(row: Row, row': Row, logged: seq<AttemptRow>, t: Trial) {
    && row' == Row(Processing, row.attempt, row.nextRetryAt, Some(t.lockedAt), row.deliveredAt, row.lastError,
                   row.responseStatus, row.createdAt, t.lockedAt)
    && logged == []
  }

  ghost predicate LeavesDelivered(id: Id, row: Row, row': Row, logged: seq<AttemptRow>, t: Trial) {
    var n := row.attempt + 1;
    && row' == Row(Delivered, n, None, None, Some(t.endedAt), None, t.response, row.createdAt, t.endedAt)
    && logged == [AttemptRow(id, n, t.response, None, t.durationMs)]
  }

  /** A failure: waiting with a delay that is the draw's share of the backoff, or failed for good. */
  ghost predicate LeavesFailed(cfg: P.Config, id: Id, row: Row, row': Row, logged: seq<AttemptRow>, t: Trial) {
    var n := row.attempt + 1;
    var text := if |t.message| <= 1000 then t.message else t.message[..1000];
    var share := t.draw * Min(cfg.backoff.baseMs * B.Pow2(Min(n - 1, 30)), cfg.backoff.maxMs) as real;
    && row' == Row(row'.status, n, row'.nextRetryAt, None, row.deliveredAt, Some(text), t.response, row.createdAt, t.endedAt)
    && logged == [AttemptRow(id, n, t.response, Some(text), t.durationMs)]
    && if WorthRetrying(t.response, n, cfg.maxAttempts) then
         && row'.status == Waiting && row'.nextRetryAt.Some?
         && (row'.nextRetryAt.value - t.endedAt) as real <= share < (row'.nextRetryAt.value - t.endedAt) as real + 1.0
       else
         row'.status == Failed && row'.nextRetryAt == None
  }

  /** The whole effect of a call on the table and the audit log. */
  ghost predicate Leaves(cfg: P.Config, rows: Rows, id: Id, t: Trial, rows': Rows, logged: seq<AttemptRow>) {
    if t.fault == BeforeLock || id !in rows || rows[id].status != Queued then LeavesAlone(rows, rows', logged)
    else
      && id in rows' && rows' == rows[id := rows'[id]]
      && if t.fault == AfterLock then LeavesLocked(rows[id], rows'[id], logged, t)
         else if Delivers(t.response) then LeavesDelivered(id, rows[id], rows'[id], logged, t)
         else LeavesFailed(cfg, id, rows[id], rows'[id], logged, t)
  }

  lemma FailureLeaves(cfg: P.Config, rows: Rows, id: Id, t: Trial)
    requires 0.0 <= t.draw < 1.0 && t.fault == NoFault && id in rows && rows[id].status == Queued && !Delivers(t.response)
    ensures var e := Processed(cfg, rows, id, t);
            id in e.rows && e.rows == rows[id := e.rows[id]] && LeavesFailed(cfg, id, rows[id], e.rows[id], e.logged, t)
  {
    B.JitterIsShare(t.draw, B.Ceiling(rows[id].attempt + 1, cfg.backoff));
  }

  /** Every call leaves the row and the log as its answer or exception says. */
  lemma CallLeaves(cfg: P.Config, rows: Rows, id: Id, t: Trial)
    requires 0.0 <= t.draw < 1.0
    ensures Leaves(cfg, rows, id, t, Processed(cfg, rows, id, t).rows, Processed(cfg, rows, id, t).logged)
  {
    if t.fault == NoFault && id in rows && rows[id].status == Queued && !Delivers(t.response) {
      FailureLeaves(cfg, rows, id, t);
    } else if t.fault != BeforeLock && id in rows && rows[id].status == Queued {
      var e := Processed(cfg, rows, id, t);
      assert e.rows == rows[id := e.rows[id]];
    }
  }

  /** A retryable failure below the limit can be given every whole delay below min(base * 2^min(n - 1, 30),
      max), and no other, n being the number of this attempt. */
  lemma EveryDelayIsDrawn(cfg: P.Config, rows: Rows, id: Id, t: Trial, d: nat) returns (draw: real)
    requires t.fault == NoFault && id in rows && rows[id].status == Queued
    requires WorthRetrying(t.response, rows[id].attempt + 1, cfg.maxAttempts)
    requires d < Min(cfg.backoff.baseMs * B.Pow2(Min(rows[id].attempt, 30)), cfg.backoff.maxMs)
    ensures 0.0 <= draw < 1.0
    ensures var rows' := Processed(cfg, rows, id, t.(draw := draw)).rows;
            id in rows' && rows'[id].nextRetryAt == Some(t.endedAt + d)
  {
    draw := B.JitterReachesAll(d, B.Ceiling(rows[id].attempt + 1, cfg.backoff));
    FailureLeaves(cfg, rows, id, t.(draw := draw));
  }

  /** A larger draw never gives an earlier retry. */
  lemma LargerDrawIsNotEarlier(cfg: P.Config, rows: Rows, id: Id, t: Trial, low: real, high: real)
    requires 0.0 <= low <= high < 1.0 && t.fault == NoFault && id in rows && rows[id].status == Queued
    requires WorthRetrying(t.response, rows[id].attempt + 1, cfg.maxAttempts)
    ensures var early, late := Processed(cfg, rows, id, t.(draw := low)).rows, Processed(cfg, rows, id, t.(draw := high)).rows;
            && id in early && id in late && early[id].nextRetryAt.Some? && late[id].nextRetryAt.Some?
            && t.endedAt <= early[id].nextRetryAt.value <= late[id].nextRetryAt.value
  {
    DelayIsJitter(cfg, rows, id, t, low);
    DelayIsJitter(cfg, rows, id, t, high);
    B.LargerDrawIsNotShorter(low, high, B.Ceiling(rows[id].attempt + 1, cfg.backoff));
  }

  lemma DelayIsJitter(cfg: P.Config, rows: Rows, id: Id, t: Trial, draw: real)
    requires 0.0 <= draw < 1.0 && t.fault == NoFault && id in rows && rows[id].status == Queued
    requires WorthRetrying(t.response, rows[id].attempt + 1, cfg.maxAttempts)
    ensures var rows' := Processed(cfg, rows, id, t.(draw := draw)).rows;
            id in rows' && rows'[id].nextRetryAt == Some(t.endedAt + B.Jitter(draw, B.Ceiling(rows[id].attempt + 1, cfg.backoff)))
  {
  }

  // ---- The loop of one worker, alone -------------------------------------------------------

  datatype Shift = Shift(rows: Rows, logged: seq<AttemptRow>, window: W.Window)

  predicate DrawsInRange(trials: seq<Trial>) {
    forall i :: 0 <= i < |trials| ==> 0.0 <= trials[i].draw < 1.0
  }

  /** How many of the turns get to ask the window. */
  function Asking(trials: seq<Trial>): nat {
    if trials == [] then 0 else Asking(trials[1..]) + if trials[0].claimFails then 0 else 1
  }

  function Released(w: W.Window, id: Id, t: Trial): W.Window {
    if t.releaseFails then w else W.Complete(w, id)
  }

  /** As many turns as there are trials; a turn that finds nothing ready, or whose claim throws, does
      nothing. */
  function Worked(cfg: P.Config, rows: Rows, w: W.Window, trials: seq<Trial>): Shift
    requires DrawsInRange(trials)
    decreases |trials|
  {
    if trials == [] || w.ready == [] then Shift(rows, [], w)
    else if trials[0].claimFails then Worked(cfg, rows, w, trials[1..])
    else
      var id := w.ready[0];
      var e := Processed(cfg, rows, id, trials[0]);
      var rest := Worked(cfg, e.rows, Released(W.Pop(w), id, trials[0]), trials[1..]);
      Shift(rest.rows, e.logged + rest.logged, rest.window)
  }

  /** Taking a ready id and releasing it leaves everything else in the window as it was. */
  lemma PopThenComplete(w: W.Window)
    requires W.Exact(w) && w.ready != []
    ensures var w' := W.Complete(W.Pop(w), w.ready[0]);
            W.Exact(w') && w' == W.Window(w.ready[1..], w.inFlight, w.dedupe - {w.ready[0]})
  {
    var id := w.ready[0];
    W.ExactParts(w);
    W.PopKeepsExact(w);
    W.CompleteFreesOneSlot(W.Pop(w), id);
    DropLast(w.inFlight, id);
  }

  lemma {:induction false} DropLast(s: seq<Id>, id: Id)
    requires id !in s
    ensures Drop(s + [id], {id}) == s
  {
    if s != [] {
      assert (s + [id])[1..] == s[1..] + [id];
      DropLast(s[1..], id);
    }
  }

  /** The first `n` ready ids are gone, their marks with them, and nothing else has changed. */
  ghost predicate GaveBack(w: W.Window, n: nat, w': W.Window) {
    && n <= |w.ready| && W.Exact(w')
    && w' == W.Window(w.ready[n..], w.inFlight, w.dedupe - Elems(w.ready[..n]))
  }

  lemma GaveBackOneMore(w: W.Window, n: nat, w': W.Window)
    requires W.Exact(w) && 1 <= n <= |w.ready| && GaveBack(W.Complete(W.Pop(w), w.ready[0]), n - 1, w')
    ensures GaveBack(w, n, w')
  {
    var id, rest := w.ready[0], w.ready[1..];
    PopThenComplete(w);
    assert rest[n - 1..] == w.ready[n..] && [id] + rest[..n - 1] == w.ready[..n];
    assert Elems(w.ready[..n]) == {id} + Elems(rest[..n - 1]);
  }

  lemma GaveBackNothing(w: W.Window)
    requires W.Exact(w)
    ensures GaveBack(w, 0, w)
  {
    assert w.dedupe - Elems(w.ready[..0]) == w.dedupe;
  }

  /** However the deliveries fare, exceptions included, the worker takes them in the order in which they
      were ready and gives back every slot it took; only a failing `complete` can leave one behind. */
  lemma {:induction false} ShiftGivesSlotsBack(cfg: P.Config, rows: Rows, w: W.Window, trials: seq<Trial>)
    requires DrawsInRange(trials) && W.Exact(w) && forall i :: 0 <= i < |trials| ==> !trials[i].releaseFails
    ensures GaveBack(w, Min(Asking(trials), |w.ready|), Worked(cfg, rows, w, trials).window)
    decreases |trials|
  {
    var n := Min(Asking(trials), |w.ready|);
    if trials == [] || w.ready == [] {
      assert n == 0;
      GaveBackNothing(w);
    } else if trials[0].claimFails {
      ShiftGivesSlotsBack(cfg, rows, w, trials[1..]);
    } else {
      var e := Processed(cfg, rows, w.ready[0], trials[0]);
      var w' := W.Complete(W.Pop(w), w.ready[0]);
      assert n == 1 + Min(Asking(trials[1..]), |w.ready| - 1);
      PopThenComplete(w);
      ShiftGivesSlotsBack(cfg, e.rows, w', trials[1..]);
      GaveBackOneMore(w, n, Worked(cfg, e.rows, w', trials[1..]).window);
    }
  }

  ghost predicate OnlyTouches(rows: Rows, ids: seq<Id>, rows': Rows) {
    rows'.Keys == rows.Keys && forall id :: id in rows && id !in ids ==> rows'[id] == rows[id]
  }

  lemma CallTouchesOne(cfg: P.Config, rows: Rows, id: Id, t: Trial)
    requires 0.0 <= t.draw < 1.0
    ensures OnlyTouches(rows, [id], Processed(cfg, rows, id, t).rows) && |Processed(cfg, rows, id, t).logged| <= 1
  {
  }

  lemma TouchesOneMore(rows: Rows, e: Effect, rows': Rows, id: Id, t: Trial, cfg: P.Config, ids: seq<Id>)
    requires 0.0 <= t.draw < 1.0 && e == Processed(cfg, rows, id, t) && OnlyTouches(e.rows, ids, rows')
    ensures OnlyTouches(rows, [id] + ids, rows') && |e.logged| <= 1
  {
    CallTouchesOne(cfg, rows, id, t);
  }

  /** Only deliveries that were ready are touched, and each logs at most one attempt. */
  lemma {:induction false} ShiftTouchesOnlyReady(cfg: P.Config, rows: Rows, w: W.Window, trials: seq<Trial>)
    requires DrawsInRange(trials)
    ensures var s, n := Worked(cfg, rows, w, trials), Min(Asking(trials), |w.ready|);
            OnlyTouches(rows, w.ready[..n], s.rows) && |s.logged| <= n
    decreases |trials|
  {
    if trials != [] && w.ready != [] && trials[0].claimFails {
      ShiftTouchesOnlyReady(cfg, rows, w, trials[1..]);
    } else if trials != [] && w.ready != [] {
      var n, id := Min(Asking(trials), |w.ready|), w.ready[0];
      var e, w' := Processed(cfg, rows, id, trials[0]), Released(W.Pop(w), id, trials[0]);
      var rest := Worked(cfg, e.rows, w', trials[1..]);
      assert w'.ready == w.ready[1..] && n - 1 == Min(Asking(trials[1..]), |w'.ready|);
      ShiftTouchesOnlyReady(cfg, e.rows, w', trials[1..]);
      TouchesOneMore(rows, e, rest.rows, id, trials[0], cfg, w'.ready[..n - 1]);
      assert [id] + w'.ready[..n - 1] == w.ready[..n];
      assert |e.logged + rest.logged| <= n;
    }
  }

  /** The shift `all` is what has been logged so far followed by the turns still to come. */
  ghost predicate ToDo(cfg: P.Config, all: Shift, logged: seq<AttemptRow>, rows: Rows, w: W.Window, trials: seq<Trial>) {
    && DrawsInRange(trials)
    && var s := Worked(cfg, rows, w, trials); all == Shift(s.rows, logged + s.logged, s.window)
  }

  lemma OneTurnLess(cfg: P.Config, all: Shift, logged: seq<AttemptRow>, rows: Rows, w: W.Window, trials: seq<Trial>)
    requires ToDo(cfg, all, logged, rows, w, trials) && trials != []
    ensures w.ready == [] || trials[0].claimFails ==> ToDo(cfg, all, logged + [], rows, w, trials[1..])
    ensures w.ready != [] && !trials[0].claimFails ==>
              var id := w.ready[0];
              var e := Processed(cfg, rows, id, trials[0]);
              ToDo(cfg, all, logged + e.logged, e.rows, Released(W.Pop(w), id, trials[0]), trials[1..])
  {
    if w.ready == [] || trials[0].claimFails {
      assert logged + [] == logged;
    } else {
      var e := Processed(cfg, rows, w.ready[0], trials[0]);
      var rest := Worked(cfg, e.rows, Released(W.Pop(w), w.ready[0], trials[0]), trials[1..]);
      assert logged + (e.logged + rest.logged) == logged + e.logged + rest.logged;
    }
  }

  class WorkerPool {
    const queue: Redis.RedisWindowQueue
    const table: Repo.DeliveryTable
    const cfg: P.Config

    constructor (queue: Redis.RedisWindowQueue, table: Repo.DeliveryTable, cfg: P.Config)
      ensures this.queue == queue && this.table == table && this.cfg == cfg
    {
      this.queue, this.table, this.cfg := queue, table, cfg;
    }

    /** The try block. */
    method Attempt(id: Id, t: Trial) returns (outcome: Outcome)
      requires 0.0 <= t.draw < 1.0
      modifies table
      ensures var e := Processed(cfg, old(table.rows), id, t);
              table.rows == e.rows && table.attempts == old(table.attempts) + e.logged && outcome == e.outcome
    {
      if t.fault == BeforeLock {
        return Threw;
      }
      var taken := table.ClaimForProcessing(id, t.lockedAt);
      if taken.None? {
        return Skipped;
      }
      var attempt := taken.value.attempt + 1;
      if t.fault != NoFault {
        return Threw;
      }
      if t.response.Some? && B.IsSuccessStatus(t.response.value) {
        var ok := table.RecordSuccess(id, attempt, t.response.value, t.durationMs, t.endedAt);
        return Done;
      }
      var retrying := P.Retryable(t.response) && B.ShouldRetry(attempt, cfg.maxAttempts);
      var retryAt := if retrying then Some(t.endedAt + B.Compute(attempt, cfg.backoff, t.draw)) else None;
      var ok := table.RecordFailure(id, attempt, t.response, t.message, t.durationMs, retryAt, t.endedAt);
      outcome := if retrying then Retrying else GaveUp;
    }

    /** processOne: whatever the try block did or threw, the slot is released unless that fails too. */
    method ProcessOne(id: Id, t: Trial) returns (outcome: Outcome)
      requires 0.0 <= t.draw < 1.0
      modifies table, queue
      ensures var e := Processed(cfg, old(table.rows), id, t);
              table.rows == e.rows && table.attempts == old(table.attempts) + e.logged && outcome == e.outcome
      ensures Leaves(cfg, old(table.rows), id, t, table.rows, table.attempts[|old(table.attempts)|..])
      ensures t.fault == AfterLock && id in old(table.rows) && old(table.rows)[id].status == Queued ==>
                && outcome == Threw && table.attempts == old(table.attempts)
                && table.rows == old(table.rows)[id := old(table.rows)[id].(status := Processing, lockedAt := Some(t.lockedAt),
                                                                            updatedAt := t.lockedAt)]
      ensures queue.State() == if t.releaseFails then old(queue.State()) else W.Complete(old(queue.State()), id)
    {
      CallLeaves(cfg, table.rows, id, t);
      outcome := Attempt(id, t);
      if !t.releaseFails {
        queue.Complete(id);
      }
    }

    /** One turn of the loop.  A claim that times out does nothing, nor does one that throws. */
    method Turn(t: Trial) returns (ghost logged: seq<AttemptRow>)
      requires 0.0 <= t.draw < 1.0
      modifies table, queue
      ensures table.attempts == old(table.attempts) + logged
      ensures old(queue.ready) == [] || t.claimFails ==>
                table.rows == old(table.rows) && queue.State() == old(queue.State()) && logged == []
      ensures old(queue.ready) != [] && !t.claimFails ==>
                var id := old(queue.ready)[0];
                var e := Processed(cfg, old(table.rows), id, t);
                && table.rows == e.rows && logged == e.logged
                && queue.State() == Released(W.Pop(old(queue.State())), id, t)
    {
      logged := [];
      if t.claimFails {
        return;
      }
      var id := queue.Claim();
      if id.Some? {
        logged := Processed(cfg, table.rows, id.value, t).logged;
        var outcome := ProcessOne(id.value, t);
      }
    }

    /** The loop until `stopping` is seen, which is after the last of the trials.  An exception in one
        delivery does not end it. */
    method Loop(trials: seq<Trial>)
      requires DrawsInRange(trials)
      modifies table, queue
      ensures var s := Worked(cfg, old(table.rows), old(queue.State()), trials);
              && table.rows == s.rows && queue.State() == s.window
              && table.attempts == old(table.attempts) + s.logged
    {
      ghost var all := Worked(cfg, table.rows, queue.State(), trials);
      ghost var logged: seq<AttemptRow> := [];
      var turn := 0;
      while turn < |trials|
        invariant 0 <= turn <= |trials|
        invariant table.attempts == old(table.attempts) + logged
        invariant ToDo(cfg, all, logged, table.rows, queue.State(), trials[turn..])
      {
        ghost var rows1, w1 := table.rows, queue.State();
        assert trials[turn..][1..] == trials[turn + 1..];
        ghost var more := Turn(trials[turn]);
        OneTurnLess(cfg, all, logged, rows1, w1, trials[turn..]);
        logged := logged + more;
        turn := turn + 1;
      }
    }
  }

  // ---- The call as a run of the machine ---------------------------------------------------

  /** The machine has made the rows and the log what the call's effect says, and the worker is on
      its way out. */
  ghost predicate Effected(s: P.State, w: nat, e: P.State, effect: Effect)
    requires w in s.workers && !s.workers[w].Free?
  {
    && e.rows == effect.rows && e.window == s.window
    && w in e.workers && e.workers[w].Leaving?
    && e.workers == s.workers[w := P.Leaving(s.workers[w].id, e.workers[w].lease)]
    && |e.log| == |s.log| + |effect.logged| && e.log[..|s.log|] == s.log
    && forall i :: 0 <= i < |effect.logged| ==> e.log[|s.log| + i].row == effect.logged[i]
  }

  lemma RecordIsRun(cfg: P.Config, s: P.State, w: nat, t: Trial) returns (path: L.Path, e: P.State)
    requires w in s.workers && s.workers[w].Sending? && s.workers[w].id in s.rows && 0.0 <= t.draw < 1.0
    requires s.workers[w].lockedAt <= t.endedAt == s.now
    ensures L.Leads(cfg, s, path, e)
    ensures var id, attempt := s.workers[w].id, s.workers[w].attempt;
            var retry := P.Decide(cfg, attempt, t.response, t.endedAt, t.draw);
            Effected(s, w, e,
              if t.response.Some? && B.IsSuccessStatus(t.response.value) then
                Effect(RecordSuccess(s.rows, id, attempt, t.response.value, t.endedAt),
                       [AttemptRow(id, attempt, t.response, None, t.durationMs)], Done)
              else
                Effect(RecordFailure(s.rows, id, attempt, t.response, t.message, P.RetryTime(retry), t.endedAt),
                       [AttemptRow(id, attempt, t.response, Some(Clip(t.message)), t.durationMs)],
                       if retry.Some? then Retrying else GaveUp))
  {
    if t.response.Some? && B.IsSuccessStatus(t.response.value) {
      path, e := L.First(cfg, s, P.Works(w, P.Succeed(t.response.value, t.durationMs, t.endedAt)));
    } else {
      path, e := L.First(cfg, s, P.Works(w, P.Fail(t.response, t.message, t.durationMs, t.endedAt, t.draw)));
    }
  }

  /** The clock may run on to `to`: no other worker's hold would end before. */
  ghost predicate MayAdvance(cfg: P.Config, s: P.State, w: nat, to: int) {
    s.now <= to && forall v :: v in s.workers && v != w && P.Lease(s.workers[v]).Some? ==> to <= P.Lease(s.workers[v]).value + cfg.holdMs
  }

  /** A call that starts when the worker has taken the id, locks the row at `lockedAt` and ends at
      `endedAt`, within the hold. */
  ghost predicate Timed(cfg: P.Config, s: P.State, w: nat, t: Trial) {
    && w in s.workers && s.workers[w].Popped? && s.workers[w].since <= s.now
    && s.now <= t.lockedAt <= t.endedAt <= t.lockedAt + cfg.holdMs && MayAdvance(cfg, s, w, t.endedAt)
    && 0.0 <= t.draw < 1.0
  }

  /** Locking and reading the row, then waiting for the answer. */
  lemma LockIsRun(cfg: P.Config, s: P.State, w: nat, t: Trial) returns (path: L.Path, e: P.State)
    requires Timed(cfg, s, w, t) && Claimable(s.rows, s.workers[w].id)
    ensures L.Leads(cfg, s, path, e)
    ensures var id := s.workers[w].id;
            e == s.(now := t.endedAt, rows := Lock(s.rows, id, t.lockedAt),
                    workers := s.workers[w := P.Sending(id, t.lockedAt, s.rows[id].attempt + 1)])
  {
    var a, m := L.First(cfg, s, P.Advance(t.lockedAt));
    var b, n := L.LockedAndRead(cfg, m, w, t.lockedAt);
    path := L.Both(cfg, s, a, m, b, n);
    path, e := L.Then(cfg, s, path, n, P.Advance(t.endedAt));
  }

  /** The try block once the row can be locked. */
  lemma SendIsRun(cfg: P.Config, s: P.State, w: nat, t: Trial) returns (path: L.Path, e: P.State)
    requires Timed(cfg, s, w, t) && t.fault != BeforeLock && Claimable(s.rows, s.workers[w].id)
    ensures L.Leads(cfg, s, path, e)
    ensures Effected(s, w, e, Processed(cfg, s.rows, s.workers[w].id, t))
  {
    var a, m := LockIsRun(cfg, s, w, t);
    if t.fault != NoFault {
      path, e := L.Then(cfg, s, a, m, P.Works(w, P.Throw));
    } else {
      var b, n := RecordIsRun(cfg, m, w, t);
      path := L.Both(cfg, s, a, m, b, n);
      e := n;
    }
  }

  /** The try block, up to the point where the worker leaves it. */
  lemma BodyIsRun(cfg: P.Config, s: P.State, w: nat, t: Trial) returns (path: L.Path, e: P.State)
    requires Timed(cfg, s, w, t)
    ensures L.Leads(cfg, s, path, e)
    ensures Effected(s, w, e, Processed(cfg, s.rows, s.workers[w].id, t))
  {
    if t.fault == BeforeLock {
      path, e := L.First(cfg, s, P.Works(w, P.Throw));
    } else if !Claimable(s.rows, s.workers[w].id) {
      path, e := L.First(cfg, s, P.Works(w, P.Skip));
    } else {
      path, e := SendIsRun(cfg, s, w, t);
    }
  }

  /** What `processOne` does to the table, the audit log and the window when nobody else writes in
      between is what the step machine does, however long the send takes within the hold; so every
      theorem about its runs applies to it. */
  lemma CallIsRun(cfg: P.Config, s: P.State, w: nat, t: Trial) returns (steps: seq<P.Step>, e: P.State)
    requires Timed(cfg, s, w, t)
    ensures P.Run(cfg, s, steps) == Some(e)
    ensures var id := s.workers[w].id;
            var effect := Processed(cfg, s.rows, id, t);
            && e.rows == effect.rows
            && |e.log| == |s.log| + |effect.logged| && e.log[..|s.log|] == s.log
            && (forall i :: 0 <= i < |effect.logged| ==> e.log[|s.log| + i].row == effect.logged[i])
            && e.window == (if t.releaseFails then s.window else W.Complete(s.window, id))
            && e.workers == s.workers[w := P.Free]
  {
    var a, m := BodyIsRun(cfg, s, w, t);
    var b, n := L.Then(cfg, s, a, m, P.Works(w, if t.releaseFails then P.Crash else P.Complete));
    L.PathRuns(cfg, s, b, n);
    steps, e := b.steps, n;
  }
}
