/** One scheduler tick run on its own: recovery, then a refill loop that is proved to be one claim. */
module Scheduling {
  import opened Basics
  import opened Deliveries
  import W = WindowSpec
  import Redis = RedisQueue
  import Repo = Repository

  // ORPHAN_GRACE_MS
  const GRACE_MS := 30000

  function ExpiredIds(rows: Rows, cutoff: int): set<Id> {
    set id | id in rows && Expired(rows[id], cutoff)
  }

  function StaleIds(rows: Rows, cutoff: int): set<Id> {
    set id | id in rows && Stale(rows[id], cutoff)
  }

  function AfterReap(rows: Rows, leaseMs: int, now: int): Rows {
    map id | id in rows ::
      if Expired(rows[id], now - leaseMs) then
        rows[id].(status := Waiting, nextRetryAt := Some(now), lockedAt := None,
                  attempt := rows[id].attempt + 1, lastError := Some(LEASE_EXPIRED), updatedAt := now)
      else rows[id]
  }

  function AfterSweep(rows: Rows, dedupe: set<Id>, graceMs: int, now: int): Rows {
    map id | id in rows ::
      if Stale(rows[id], now - graceMs) && id !in dedupe then
        rows[id].(status := Pending, lockedAt := None, updatedAt := now)
      else rows[id]
  }

  /** What the recovery half of a tick makes of the rows. */
  function RecoverRows(rows: Rows, w: W.Window, leaseMs: int, graceMs: int, now: int): Rows {
    AfterSweep(AfterReap(rows, leaseMs, now), RecoverWindow(w, ExpiredIds(rows, now - leaseMs)).dedupe, graceMs, now)
  }

  function RecoverWindow(w: W.Window, expired: set<Id>): W.Window {
    W.Window(w.ready, Drop(w.inFlight, expired), w.dedupe - expired)
  }

  /** Nothing that could be claimed is still marked as resident. */
  ghost predicate Consistent(rows: Rows, dedupe: set<Id>, now: int) {
    forall id :: id in rows && Eligible(rows[id], now) ==> id !in dedupe
  }

  /** Every row that a dead worker or a dead scheduler had left behind comes out of recovery eligible
      and unmarked, and a consistent table stays consistent. */
  lemma RecoveryKeepsConsistent(rows: Rows, w: W.Window, leaseMs: int, graceMs: int, now: int)
    requires Consistent(rows, w.dedupe, now)
    ensures var rows', w' := RecoverRows(rows, w, leaseMs, graceMs, now), RecoverWindow(w, ExpiredIds(rows, now - leaseMs));
            && Consistent(rows', w'.dedupe, now)
            && forall id :: id in rows && (Expired(rows[id], now - leaseMs) || (Stale(rows[id], now - graceMs) && id !in w.dedupe))
                 ==> Eligible(rows'[id], now) && id !in w'.dedupe
  {
  }

  /** What recovery does to one row, by its columns and its mark: a lease older than `leaseMs` is given back
      as due now with an attempt counted; a queued row untouched for more than 30 seconds and without a mark
      becomes pending; any other row stays as it is. */
  lemma RecoveredRow(rows: Rows, w: W.Window, leaseMs: int, now: int, id: Id)
    requires id in rows
    ensures var row, row' := rows[id], RecoverRows(rows, w, leaseMs, GRACE_MS, now)[id];
            if row.status == Processing && exists at :: row.lockedAt == Some(at) && now - at > leaseMs then
              && row' == Row(Waiting, row.attempt + 1, Some(now), None, row.deliveredAt, row'.lastError, row.responseStatus, row.createdAt, now)
              && row'.lastError == Some("Worker lease expired; delivery was reclaimed")
              && id !in RecoverWindow(w, ExpiredIds(rows, now - leaseMs)).dedupe
              && id !in RecoverWindow(w, ExpiredIds(rows, now - leaseMs)).inFlight
            else if row.status == Queued && now - row.updatedAt > 30000 && id !in w.dedupe then
              row' == row.(status := Pending, lockedAt := None, updatedAt := now)
            else row' == row
  {
  }

  /** A refill that has taken `chosen` so far, on top of what recovery left. */
  ghost predicate Refilled(rows: Rows, w: W.Window, now: int, chosen: seq<Id>, rows': Rows, w': W.Window) {
    && IsSelection(rows, now, |chosen|, chosen)
    && rows' == MarkQueued(rows, chosen, now)
    && w' == W.Window(w.ready + chosen, w.inFlight, w.dedupe + Elems(chosen))
  }

  /** What a refill does even to an inconsistent table: what it took is queued and at the end of the
      ready list, what the window refused is pending, and nothing else changed. */
  ghost predicate Filled(rows: Rows, w: W.Window, now: int, taken: seq<Id>, rows': Rows, w': W.Window) {
    && w' == W.Window(w.ready + taken, w.inFlight, w.dedupe + Elems(taken))
    && rows'.Keys == rows.Keys
    && (forall id :: id in taken ==>
          && id in rows && Eligible(rows[id], now) && id !in w.dedupe
          && rows'[id] == rows[id].(status := Queued, lockedAt := rows'[id].lockedAt, updatedAt := now))
    && (forall id :: id in rows && id !in taken ==>
          || rows'[id] == rows[id]
          || (Eligible(rows[id], now) && rows'[id] == rows[id].(status := Pending, lockedAt := None, updatedAt := now)))
  }

  lemma FillOneMore(rows: Rows, w: W.Window, now: int, taken: seq<Id>, rows1: Rows, w1: W.Window,
                    batch: seq<Id>, capacity: int, rows2: Rows)
    requires Filled(rows, w, now, taken, rows1, w1)
    requires Repo.ClaimSettled(rows1, now, batch, W.Accepted(w1, capacity, batch), rows2)
    ensures Filled(rows, w, now, taken + W.Accepted(w1, capacity, batch), rows2, W.Enqueue(w1, capacity, batch))
  {
    EnqueuedTwice(w, taken, W.Accepted(w1, capacity, batch));
  }

  lemma StartOfRefill(rows: Rows, w: W.Window, now: int)
    ensures Refilled(rows, w, now, [], rows, w) && Filled(rows, w, now, [], rows, w)
  {
    assert w.ready + [] == w.ready && w.dedupe + Elems([]) == w.dedupe;
    assert MarkQueued(rows, [], now) == rows;
  }

  /** A batch that fits is taken whole exactly when nothing in it is marked already, and refused whole
      exactly when everything is: then the refill stops, whatever else is eligible. */
  lemma BatchIsAcceptedIff(w: W.Window, capacity: int, ids: seq<Id>)
    requires Distinct(ids) && |ids| <= W.Room(w, capacity)
    ensures W.Accepted(w, capacity, ids) == ids <==> forall id :: id in ids ==> id !in w.dedupe
    ensures W.Accepted(w, capacity, ids) == [] <==> forall id :: id in ids ==> id in w.dedupe
  {
    var novel := W.Fresh(ids, w.dedupe);
    if forall id :: id in ids ==> id !in w.dedupe {
      NovelIsFresh(ids, w.dedupe);
    }
    assert novel != [] ==> novel[0] in novel;
    if id :| id in ids && id !in w.dedupe {
      assert id in novel && Min(|novel|, W.Room(w, capacity)) >= 1;
      assert W.Accepted(w, capacity, ids) != [];
    }
  }

  lemma {:induction false} NovelIsFresh(ids: seq<Id>, marked: set<Id>)
    requires Distinct(ids) && forall id :: id in ids ==> id !in marked
    ensures W.Fresh(ids, marked) == ids
  {
    if ids != [] {
      assert forall id :: id in ids[1..] ==> id != ids[0];
      NovelIsFresh(ids[1..], marked + {ids[0]});
    }
  }

  /** One turn of the refill loop. */
  lemma RefillOneMore(rows: Rows, w: W.Window, now: int, chosen: seq<Id>, rows1: Rows, w1: W.Window,
                      limit: nat, batch: seq<Id>, capacity: int, room: nat)
    requires Refilled(rows, w, now, chosen, rows1, w1) && Consistent(rows, w.dedupe, now)
    requires IsSelection(rows1, now, limit, batch) && 0 < limit <= W.Room(w1, capacity)
    ensures W.Accepted(w1, capacity, batch) == batch
    ensures Refilled(rows, w, now, chosen + batch, MarkQueued(rows1, batch, now), W.Enqueue(w1, capacity, batch))
    ensures batch == [] && |chosen| <= room ==> IsSelection(rows, now, room, chosen)
  {
    forall id | id in batch ensures id !in w1.dedupe {
      assert id in rows1 && Eligible(rows1[id], now);
      assert id !in chosen && rows[id] == rows1[id];
    }
    BatchIsAcceptedIff(w1, capacity, batch);
    SelectionsCompose(rows, now, chosen, limit, batch);
    EnqueuedTwice(w, chosen, batch);
    if batch == [] {
      assert chosen + batch == chosen;
    }
  }

  /** Where the refill loop stands between two batches. */
  ghost predicate Midway(rows: Rows, w: W.Window, now: int, taken: seq<Id>, rows': Rows, w': W.Window) {
    && Filled(rows, w, now, taken, rows', w')
    && (Consistent(rows, w.dedupe, now) ==> Refilled(rows, w, now, taken, rows', w'))
  }

  /** One turn of the refill loop over a non-empty batch limit, from what the claim promises. */
  lemma MidwayOneMore(rows: Rows, w: W.Window, now: int, taken: seq<Id>, rows1: Rows, w1: W.Window,
                      limit: nat, batch: seq<Id>, capacity: int, room: nat, rows2: Rows, w2: W.Window)
    requires Midway(rows, w, now, taken, rows1, w1)
    requires IsSelection(rows1, now, limit, batch) && 0 < limit <= W.Room(w1, capacity)
    requires Repo.ClaimSettled(rows1, now, batch, W.Accepted(w1, capacity, batch), rows2)
    requires W.Accepted(w1, capacity, batch) == batch ==> rows2 == MarkQueued(rows1, batch, now)
    requires w2 == W.Enqueue(w1, capacity, batch)
    ensures Midway(rows, w, now, taken + W.Accepted(w1, capacity, batch), rows2, w2)
    ensures Consistent(rows, w.dedupe, now) && W.Accepted(w1, capacity, batch) == [] && |taken| <= room ==>
              IsSelection(rows, now, room, taken)
  {
    FillOneMore(rows, w, now, taken, rows1, w1, batch, capacity, rows2);
    if Consistent(rows, w.dedupe, now) {
      RefillOneMore(rows, w, now, taken, rows1, w1, limit, batch, capacity, room);
    }
  }

  lemma EnqueuedTwice(w: W.Window, a: seq<Id>, b: seq<Id>)
    ensures w.ready + a + b == w.ready + (a + b)
    ensures w.dedupe + Elems(a) + Elems(b) == w.dedupe + Elems(a + b)
  {
  }

  lemma OrphansAreMissing(rows: Rows, dedupe: set<Id>, graceMs: int, now: int, candidates: seq<Id>, orphans: seq<Id>)
    requires Elems(candidates) == StaleIds(rows, now - graceMs) && orphans == Drop(candidates, dedupe)
    ensures (set id | id in orphans && Claimable(rows, id)) == StaleIds(rows, now - graceMs) - dedupe
    ensures ResetToPending(rows, orphans, now) == AfterSweep(rows, dedupe, graceMs, now)
    ensures orphans == [] ==> StaleIds(rows, now - graceMs) - dedupe == {} && AfterSweep(rows, dedupe, graceMs, now) == rows
  {
    assert forall id :: id in candidates <==> id in Elems(candidates);
    assert forall id :: id in orphans <==> id in rows && Stale(rows[id], now - graceMs) && id !in dedupe;
  }

  function OrphanCount(rows: Rows, dedupe: set<Id>, cutoff: int): nat {
    |StaleIds(rows, cutoff) - dedupe|
  }

  /** The reaper makes no row stale and unmarks none that is. */
  lemma SameOrphansAfterReap(rows: Rows, w: W.Window, leaseMs: int, graceMs: int, now: int)
    ensures OrphanCount(AfterReap(rows, leaseMs, now), RecoverWindow(w, ExpiredIds(rows, now - leaseMs)).dedupe, now - graceMs)
            == OrphanCount(rows, w.dedupe, now - graceMs)
  {
    assert StaleIds(AfterReap(rows, leaseMs, now), now - graceMs) - RecoverWindow(w, ExpiredIds(rows, now - leaseMs)).dedupe
        == StaleIds(rows, now - graceMs) - w.dedupe;
  }

  // ---- A refill, claim by claim --------------------------------------------------------------

  /** What a claim, its publish and the reset of the rejected rows make of the rows. */
  function Settled(rows: Rows, ids: seq<Id>, accepted: seq<Id>, now: int): Rows {
    ResetToPending(MarkQueued(rows, ids, now), Drop(ids, Elems(accepted)), now)
  }

  function Undone(rows: Rows, ids: seq<Id>, now: int): Rows {
    ResetToPending(MarkQueued(rows, ids, now), ids, now)
  }

  /** Where a refill stands: the stores, and the free slots it still counts on. */
  datatype Progress = Progress(rows: Rows, window: W.Window, room: int)

  function AfterBatch(p: Progress, capacity: int, now: int, ids: seq<Id>): Progress {
    var accepted := W.Accepted(p.window, capacity, ids);
    Progress(Settled(p.rows, ids, accepted, now), W.Enqueue(p.window, capacity, ids), p.room - |accepted|)
  }

  /** `ids` answers the claim that the loop makes at this point. */
  ghost predicate AnswersClaim(p: Progress, batchSize: int, now: int, ids: seq<Id>) {
    p.room > 0 && batchSize > 0 && IsSelection(p.rows, now, Min(p.room, batchSize), ids)
  }

  /** The answers to the claims of one refill, with where it stood before each and at the end; `undone` is
      the batch whose publish threw, if one did. */
  datatype Claims = Claims(states: seq<Progress>, batches: seq<seq<Id>>, undone: seq<Id>)

  ghost predicate Follows(c: Claims, capacity: int, batchSize: int, now: int) {
    && |c.states| == |c.batches| + 1
    && (forall i :: 0 <= i < |c.batches| ==>
          AnswersClaim(c.states[i], batchSize, now, c.batches[i]) && c.states[i + 1] == AfterBatch(c.states[i], capacity, now, c.batches[i]))
    && (forall i :: 0 < i < |c.batches| ==> c.states[i].room < c.states[i - 1].room)
  }

  /** There is room left, and the last batch, if there was one, had something accepted: the loop goes on. */
  predicate GoesOn(c: Claims)
    requires |c.states| == |c.batches| + 1
  {
    var n := |c.batches|;
    c.states[n].room > 0 && (n > 0 ==> c.states[n].room < c.states[n - 1].room)
  }

  ghost predicate RefilledBy(start: Progress, capacity: int, batchSize: int, now: int, c: Claims, rows': Rows, w': W.Window) {
    && Follows(c, capacity, batchSize, now) && c.states[0] == start
    && var p := c.states[|c.batches|];
       && w' == p.window
       && if c.undone == [] then rows' == p.rows
          else GoesOn(c) && AnswersClaim(p, batchSize, now, c.undone) && rows' == Undone(p.rows, c.undone, now)
  }

  /** Where the refill of a tick starts: what recovery has left, and all the room there is. */
  function Recovered(rows: Rows, w: W.Window, capacity: int, leaseMs: int, graceMs: int, now: int): Progress {
    var w0 := RecoverWindow(w, ExpiredIds(rows, now - leaseMs));
    Progress(RecoverRows(rows, w, leaseMs, graceMs, now), w0, W.Room(w0, capacity))
  }

  ghost predicate TickedBy(rows: Rows, w: W.Window, capacity: int, leaseMs: int, graceMs: int, batchSize: int, now: int,
                           c: Claims, rows': Rows, w': W.Window) {
    RefilledBy(Recovered(rows, w, capacity, leaseMs, graceMs, now), capacity, batchSize, now, c, rows', w')
  }

  /** What a claim promises settles the rows in only one way. */
  lemma SettledRows(rows: Rows, now: int, ids: seq<Id>, accepted: seq<Id>, rows': Rows)
    requires Repo.ClaimSettled(rows, now, ids, accepted, rows')
    ensures rows' == Settled(rows, ids, accepted, now)
    ensures accepted == [] ==> rows' == Undone(rows, ids, now)
  {
    var settled := Settled(rows, ids, accepted, now);
    forall id | id in rows ensures rows'[id] == settled[id] {
      assert id in accepted <==> id in Elems(accepted);
    }
    if accepted == [] {
      DropNothing(ids, Elems(accepted));
    }
  }

  lemma WholeBatchSettled(rows: Rows, now: int, ids: seq<Id>)
    ensures Settled(rows, ids, ids, now) == MarkQueued(rows, ids, now)
  {
    DropAll(ids, Elems(ids));
    var marked := MarkQueued(rows, ids, now);
    assert ResetToPending(marked, [], now) == marked;
  }

  /** The loop after `turn` batches: where it stands and whether it goes on. */
  ghost predicate AtBatch(start: Progress, c: Claims, capacity: int, batchSize: int, now: int, turn: nat, p: Progress, more: bool) {
    && Follows(c, capacity, batchSize, now) && c.undone == [] && c.states[0] == start
    && turn == |c.batches| && c.states[turn] == p && (GoesOn(c) <==> more)
  }

  lemma FirstBatch(start: Progress, capacity: int, batchSize: int, now: int)
    ensures AtBatch(start, Claims([start], [], []), capacity, batchSize, now, 0, start, start.room > 0)
  {
  }

  lemma NextBatch(start: Progress, c: Claims, capacity: int, batchSize: int, now: int, turn: nat, p: Progress, ids: seq<Id>)
    returns (c': Claims)
    requires AtBatch(start, c, capacity, batchSize, now, turn, p, true) && AnswersClaim(p, batchSize, now, ids)
    ensures var p' := AfterBatch(p, capacity, now, ids);
            AtBatch(start, c', capacity, batchSize, now, turn + 1, p', p'.room > 0 && p'.room < p.room)
  {
    c' := Claims(c.states + [AfterBatch(p, capacity, now, ids)], c.batches + [ids], []);
  }

  lemma RefillEnds(start: Progress, c: Claims, capacity: int, batchSize: int, now: int, turn: nat, p: Progress, more: bool,
                   undone: seq<Id>, rows': Rows) returns (c': Claims)
    requires AtBatch(start, c, capacity, batchSize, now, turn, p, more)
    requires if undone == [] then rows' == p.rows
             else more && AnswersClaim(p, batchSize, now, undone) && rows' == Undone(p.rows, undone, now)
    ensures c' == c.(undone := undone)
    ensures RefilledBy(start, capacity, batchSize, now, c', rows', p.window)
    ensures |c'.batches| == turn && c'.states[turn].room == p.room && (GoesOn(c') <==> more)
  {
    c' := c.(undone := undone);
  }

  // ---- What the loop comes to -----------------------------------------------------------------

  /** What a refill that began at `start` has put into the window by `w`. */
  function TakenSince(start: Progress, w: W.Window): seq<Id> {
    if |start.window.ready| <= |w.ready| then w.ready[|start.window.ready|..] else []
  }

  /** Midway through one larger claim, with the room still counted right. */
  ghost predicate OnCourse(start: Progress, capacity: int, now: int, p: Progress) {
    var taken := TakenSince(start, p.window);
    && Midway(start.rows, start.window, now, taken, p.rows, p.window)
    && p.room == W.Room(p.window, capacity) && |taken| + p.room == start.room
  }

  lemma MidwayAfterBatch(start: Progress, capacity: int, batchSize: int, now: int, taken: seq<Id>, p: Progress, ids: seq<Id>)
    requires Midway(start.rows, start.window, now, taken, p.rows, p.window) && |taken| <= start.room
    requires p.room == W.Room(p.window, capacity) && AnswersClaim(p, batchSize, now, ids)
    ensures var accepted, p' := W.Accepted(p.window, capacity, ids), AfterBatch(p, capacity, now, ids);
            && Midway(start.rows, start.window, now, taken + accepted, p'.rows, p'.window)
            && (Consistent(start.rows, start.window.dedupe, now) && accepted == [] ==> IsSelection(start.rows, now, start.room, taken))
  {
    var accepted := W.Accepted(p.window, capacity, ids);
    Repo.SomeRejected(p.rows, now, ids, accepted);
    if accepted == ids {
      WholeBatchSettled(p.rows, now, ids);
    }
    MidwayOneMore(start.rows, start.window, now, taken, p.rows, p.window, Min(p.room, batchSize), ids, capacity, start.room,
                  Settled(p.rows, ids, accepted, now), W.Enqueue(p.window, capacity, ids));
  }

  lemma OnCourseAfterBatch(start: Progress, capacity: int, batchSize: int, now: int, p: Progress, ids: seq<Id>)
    requires OnCourse(start, capacity, now, p) && AnswersClaim(p, batchSize, now, ids)
    ensures OnCourse(start, capacity, now, AfterBatch(p, capacity, now, ids))
    ensures Consistent(start.rows, start.window.dedupe, now) && AfterBatch(p, capacity, now, ids).room == p.room ==>
              IsSelection(start.rows, now, start.room, TakenSince(start, p.window))
  {
    var accepted, taken := W.Accepted(p.window, capacity, ids), TakenSince(start, p.window);
    MidwayAfterBatch(start, capacity, batchSize, now, taken, p, ids);
    assert TakenSince(start, W.Enqueue(p.window, capacity, ids)) == taken + accepted;
  }

  /** However many batches it takes, the loop stays on course. */
  lemma {:induction false} BatchesStayOnCourse(c: Claims, capacity: int, batchSize: int, now: int, n: nat)
    requires Follows(c, capacity, batchSize, now) && n <= |c.batches|
    requires c.states[0].room == W.Room(c.states[0].window, capacity)
    ensures OnCourse(c.states[0], capacity, now, c.states[n])
  {
    var start := c.states[0];
    if n == 0 {
      StartOfRefill(start.rows, start.window, now);
    } else {
      BatchesStayOnCourse(c, capacity, batchSize, now, n - 1);
      assert c.states[n - 1 + 1] == AfterBatch(c.states[n - 1], capacity, now, c.batches[n - 1]);
      OnCourseAfterBatch(start, capacity, batchSize, now, c.states[n - 1], c.batches[n - 1]);
    }
  }

  lemma UndoneKeepsFilled(rows: Rows, w: W.Window, now: int, taken: seq<Id>, p: Progress, limit: nat, ids: seq<Id>)
    requires Filled(rows, w, now, taken, p.rows, p.window) && IsSelection(p.rows, now, limit, ids)
    ensures Filled(rows, w, now, taken, Undone(p.rows, ids, now), p.window)
  {
  }

  /** The whole loop, from any table: what it took is queued and at the end of the ready list, whatever else
      it touched is pending, also when a publish threw. */
  lemma RefillFills(start: Progress, capacity: int, batchSize: int, now: int, c: Claims, rows': Rows, w': W.Window)
    requires start.room == W.Room(start.window, capacity)
    requires RefilledBy(start, capacity, batchSize, now, c, rows', w')
    ensures Filled(start.rows, start.window, now, TakenSince(start, w'), rows', w')
    ensures |TakenSince(start, w')| == start.room - c.states[|c.batches|].room <= start.room
  {
    BatchesStayOnCourse(c, capacity, batchSize, now, |c.batches|);
    if c.undone != [] {
      var p := c.states[|c.batches|];
      UndoneKeepsFilled(start.rows, start.window, now, TakenSince(start, w'), p, Min(p.room, batchSize), c.undone);
    }
  }

  /** Run to its end from a consistent table, the loop is one claim of all the room there was. */
  lemma RefillIsOneClaim(start: Progress, capacity: int, batchSize: int, now: int, c: Claims, rows': Rows, w': W.Window)
    requires start.room == W.Room(start.window, capacity) && Consistent(start.rows, start.window.dedupe, now)
    requires RefilledBy(start, capacity, batchSize, now, c, rows', w') && c.undone == [] && !GoesOn(c)
    ensures IsSelection(start.rows, now, start.room, TakenSince(start, w'))
    ensures rows' == MarkQueued(start.rows, TakenSince(start, w'), now)
  {
    var n := |c.batches|;
    BatchesStayOnCourse(c, capacity, batchSize, now, n);
    if n > 0 && c.states[n].room > 0 {
      BatchesStayOnCourse(c, capacity, batchSize, now, n - 1);
      var p, ids := c.states[n - 1], c.batches[n - 1];
      assert c.states[n - 1 + 1] == AfterBatch(p, capacity, now, ids);
      OnCourseAfterBatch(start, capacity, batchSize, now, p, ids);
      assert W.Accepted(p.window, capacity, ids) == [];
      assert c.states[n].window.ready == p.window.ready;
    }
  }

  /** What a tick comes to: from any table, recovery and then a refill of what was taken; from a consistent
      one, and not cut short, one claim of the whole free space. */
  ghost predicate TickComesTo(rows: Rows, w: W.Window, capacity: int, leaseMs: int, now: int, taken: seq<Id>, whole: bool,
                              rows': Rows, w': W.Window) {
    var rows0 := RecoverRows(rows, w, leaseMs, GRACE_MS, now);
    var w0 := RecoverWindow(w, ExpiredIds(rows, now - leaseMs));
    && Filled(rows0, w0, now, taken, rows', w')
    && |taken| <= W.Room(w0, capacity)
    && (Consistent(rows, w.dedupe, now) && whole ==>
          && IsSelection(rows0, now, W.Room(w0, capacity), taken)
          && TakenInOrder(rows0, now, W.Room(w0, capacity), taken)
          && rows' == MarkQueued(rows0, taken, now))
  }

  lemma RefillCompletesTick(rows: Rows, w: W.Window, capacity: int, leaseMs: int, batchSize: int, now: int, start: Progress,
                            c: Claims, whole: bool, rows': Rows, w': W.Window)
    requires RefilledBy(start, capacity, batchSize, now, c, rows', w')
    requires start == Recovered(rows, w, capacity, leaseMs, GRACE_MS, now)
    requires whole ==> c.undone == [] && !GoesOn(c)
    ensures TickComesTo(rows, w, capacity, leaseMs, now, TakenSince(start, w'), whole, rows', w')
    ensures TickedBy(rows, w, capacity, leaseMs, GRACE_MS, batchSize, now, c, rows', w')
    ensures |TakenSince(start, w')| == start.room - c.states[|c.batches|].room
  {
    RefillFills(start, capacity, batchSize, now, c, rows', w');
    if Consistent(rows, w.dedupe, now) && whole {
      RecoveryKeepsConsistent(rows, w, leaseMs, GRACE_MS, now);
      RefillIsOneClaim(start, capacity, batchSize, now, c, rows', w');
      SelectionIsInOrder(start.rows, now, start.room, TakenSince(start, w'));
    }
  }

  // ---- The tick -------------------------------------------------------------------------------

  /** None of it is reported when a publish throws: the tick throws too. */
  datatype TickResult =
    | Ticked(
        reclaimed: nat,
        orphansRecovered: nat,
        enqueued: nat,
        occupancy: nat,
        capacityAvailable: nat)
    | TickThrew

  class Scheduler {
    const queue: Redis.RedisWindowQueue
    const table: Repo.DeliveryTable
    const leaseMs: int
    const batchSize: int
    var stopping: bool

    constructor (queue: Redis.RedisWindowQueue, table: Repo.DeliveryTable, leaseMs: int, batchSize: int)
      ensures this.queue == queue && this.table == table && this.leaseMs == leaseMs && this.batchSize == batchSize
      ensures !stopping
    {
      this.queue, this.table, this.leaseMs, this.batchSize := queue, table, leaseMs, batchSize;
      stopping := false;
    }

    method ReclaimAbandoned(now: int) returns (count: nat)
      modifies table`rows, queue
      ensures count == |ExpiredIds(old(table.rows), now - leaseMs)|
      ensures table.rows == AfterReap(old(table.rows), leaseMs, now)
      ensures queue.State() == RecoverWindow(old(queue.State()), ExpiredIds(old(table.rows), now - leaseMs))
    {
      var ids := table.ReclaimExpiredLeases(leaseMs, now);
      assert Elems(ids) == ExpiredIds(old(table.rows), now - leaseMs);
      assert forall id :: id in ids <==> id in Elems(ids);
      assert table.rows == AfterReap(old(table.rows), leaseMs, now);
      DistinctCardinality(ids);
      if ids == [] {
        assert Elems(ids) == {};
        DropNothing(queue.inFlight, {});
        assert queue.dedupe - {} == queue.dedupe;
        return 0;
      }
      var released := queue.Release(ids);
      count := |ids|;
    }

    method RecoverOrphans(now: int) returns (count: nat)
      modifies table`rows
      ensures count == OrphanCount(old(table.rows), queue.dedupe, now - GRACE_MS)
      ensures table.rows == AfterSweep(old(table.rows), queue.dedupe, GRACE_MS, now)
    {
      var candidates := table.FindOrphanedQueued(GRACE_MS, now);
      var orphans := queue.NotInWindow(candidates);
      OrphansAreMissing(table.rows, queue.dedupe, GRACE_MS, now, candidates, orphans);
      if orphans == [] {
        return 0;
      }
      count := table.ResetToPending(orphans, now);
    }

    /** The recovery half of a tick. */
    method Recover(now: int) returns (reclaimed: nat, orphansRecovered: nat)
      modifies table`rows, queue
      ensures table.rows == RecoverRows(old(table.rows), old(queue.State()), leaseMs, GRACE_MS, now)
      ensures queue.State() == RecoverWindow(old(queue.State()), ExpiredIds(old(table.rows), now - leaseMs))
      ensures reclaimed == |ExpiredIds(old(table.rows), now - leaseMs)|
      ensures orphansRecovered == OrphanCount(old(table.rows), old(queue.dedupe), now - GRACE_MS)
    {
      ghost var rows0, w0 := table.rows, queue.State();
      reclaimed := ReclaimAbandoned(now);
      ghost var rows1, w1 := table.rows, queue.State();
      orphansRecovered := RecoverOrphans(now);
      assert orphansRecovered == OrphanCount(rows1, w1.dedupe, now - GRACE_MS);
      assert queue.State() == w1;
      SameOrphansAfterReap(rows0, w0, leaseMs, GRACE_MS, now);
    }

    /** One claim, offered to the window. */
    method ClaimBatch(limit: int, now: int, publishFails: bool) returns (claim: Repo.ClaimResult, ghost ids: seq<Id>)
      modifies table`rows, queue
      ensures limit <= 0 ==> claim == Repo.Claimed([]) && ids == [] && table.rows == old(table.rows) && queue.State() == old(queue.State())
      ensures limit > 0 ==> IsSelection(old(table.rows), now, limit, ids)
      ensures claim.PublishFailed? <==> publishFails && ids != []
      ensures claim.PublishFailed? ==> table.rows == Undone(old(table.rows), ids, now) && queue.State() == old(queue.State())
      ensures limit > 0 && claim.Claimed? ==>
                && claim.accepted == W.Accepted(old(queue.State()), queue.capacity, ids)
                && table.rows == Settled(old(table.rows), ids, claim.accepted, now)
                && queue.State() == W.Enqueue(old(queue.State()), queue.capacity, ids)
    {
      claim, ids := table.ClaimEligibleDeliveries(limit, queue, now, publishFails);
      SettledRows(old(table.rows), now, ids, if claim.Claimed? then claim.accepted else [], table.rows);
    }

    /** The refill loop of a tick, started with `room` free slots; the publish of batch number `failAt`
        throws.  `claims` is what the database answered, claim by claim. */
    method Refill(now: int, room: nat, failAt: Option<nat>) returns (threw: bool, enqueued: nat, ghost claims: Claims)
      modifies table`rows, queue
      ensures RefilledBy(Progress(old(table.rows), old(queue.State()), room), queue.capacity, batchSize, now, claims,
                         table.rows, queue.State())
      ensures enqueued == room - claims.states[|claims.batches|].room
      ensures threw <==> claims.undone != []
      ensures threw ==> failAt == Some(|claims.batches|)
      ensures !threw && !stopping && batchSize > 0 ==> !GoesOn(claims)
      ensures stopping || batchSize <= 0 ==> claims.batches == [] && !threw
    {
      ghost var start := Progress(table.rows, queue.State(), room);
      ghost var p, more, undone: seq<Id> := start, room > 0, [];
      claims := Claims([start], [], []);
      FirstBatch(start, queue.capacity, batchSize, now);
      threw, enqueued := false, 0;
      var remaining: int := room;
      var turn := 0;
      while remaining > 0 && !stopping
        invariant AtBatch(start, claims, queue.capacity, batchSize, now, turn, p, more)
        invariant p.rows == table.rows && p.window == queue.State() && p.room == remaining
        invariant more <==> remaining > 0
        invariant enqueued + remaining == room
        invariant stopping || batchSize <= 0 ==> turn == 0
        decreases remaining
      {
        var batch := Min(remaining, batchSize);
        var claim, ids := ClaimBatch(batch, now, failAt == Some(turn));
        if claim.PublishFailed? {
          threw, undone := true, ids;
          break;
        }
        var accepted := claim.accepted;
        if batch > 0 {
          claims := NextBatch(start, claims, queue.capacity, batchSize, now, turn, p, ids);
          p := AfterBatch(p, queue.capacity, now, ids);
          more := accepted != [] && p.room > 0;
          turn := turn + 1;
        }
        if |accepted| == 0 {
          break;
        }
        enqueued := enqueued + |accepted|;
        remaining := remaining - |accepted|;
      }
      claims := RefillEnds(start, claims, queue.capacity, batchSize, now, turn, p, more, undone, table.rows);
    }

    /** The refilling half of a tick, with what it reports. */
    method FillUp(now: int, failAt: Option<nat>)
      returns (threw: bool, enqueued: nat, occupancy: nat, available: nat, ghost start: Progress, ghost claims: Claims)
      modifies table`rows, queue
      ensures start == Progress(old(table.rows), old(queue.State()), W.Room(old(queue.State()), queue.capacity))
      ensures RefilledBy(start, queue.capacity, batchSize, now, claims, table.rows, queue.State())
      ensures enqueued == start.room - claims.states[|claims.batches|].room
      ensures threw <==> claims.undone != []
      ensures threw ==> failAt == Some(|claims.batches|)
      ensures !threw && !stopping && batchSize > 0 ==> !GoesOn(claims)
      ensures available == W.Room(queue.State(), queue.capacity) && occupancy == W.Occupancy(queue.State())
    {
      available := queue.AvailableCapacity();
      start := Progress(table.rows, queue.State(), available);
      if available == 0 {
        occupancy := queue.CurrentOccupancy();
        claims := Claims([start], [], []);
        return false, 0, occupancy, 0, start, claims;
      }
      threw, enqueued, claims := Refill(now, available, failAt);
      occupancy := queue.CurrentOccupancy();
      available := queue.AvailableCapacity();
    }

    /** One pass.  From a consistent table it puts into the window exactly the answer that a single
        claim of the whole free space would have given, unless a publish throws. */
    method Tick(now: int, failAt: Option<nat>) returns (result: TickResult, ghost taken: seq<Id>, ghost claims: Claims)
      modifies table`rows, queue
      ensures TickedBy(old(table.rows), old(queue.State()), queue.capacity, leaseMs, GRACE_MS, batchSize, now, claims, table.rows, queue.State())
      ensures TickComesTo(old(table.rows), old(queue.State()), queue.capacity, leaseMs, now, taken,
                          result.Ticked? && !stopping && batchSize > 0, table.rows, queue.State())
      ensures result.TickThrew? <==> claims.undone != []
      ensures result.TickThrew? ==> failAt == Some(|claims.batches|)
      ensures result.Ticked? ==>
              && result.reclaimed == |ExpiredIds(old(table.rows), now - leaseMs)|
              && result.orphansRecovered == OrphanCount(old(table.rows), old(queue.dedupe), now - GRACE_MS)
              && result.enqueued == |taken|
              && result.capacityAvailable == W.Room(queue.State(), queue.capacity)
              && result.occupancy == W.Occupancy(queue.State())
    {
      ghost var rows0, w0 := table.rows, queue.State();
      var reclaimed, orphansRecovered := Recover(now);
      ghost var start;
      var threw, enqueued, occupancy, available;
      threw, enqueued, occupancy, available, start, claims := FillUp(now, failAt);
      ghost var w', whole := queue.State(), !threw && !stopping && batchSize > 0;
      taken := TakenSince(start, w');
      RefillCompletesTick(rows0, w0, queue.capacity, leaseMs, batchSize, now, start, claims, whole, table.rows, w');
      result := if threw then TickThrew else Ticked(reclaimed, orphansRecovered, enqueued, occupancy, available);
    }
  }
}
