/** The deliveries table as a value, and what each committed statement does to it.

    Every function below is one UPDATE (or the two statements of one transaction).  The order of a
    claim is a relation, not a function: rows equal in both sort keys may come back either way. */
module Deliveries {
  import opened Basics

  datatype Status = Pending | Queued | Processing | Waiting | Delivered | Failed

  datatype Row = Row(
    status: Status,
    attempt: nat,
    nextRetryAt: Option<int>,
    lockedAt: Option<int>,
    deliveredAt: Option<int>,
    lastError: Option<string>,
    responseStatus: Option<int>,
    createdAt: int,
    updatedAt: int)

  type Rows = map<Id, Row>

  /** One row of the delivery_attempts audit table. */
  datatype AttemptRow = AttemptRow(
    deliveryId: Id,
    attempt: nat,
    responseStatus: Option<int>,
    errorMessage: Option<string>,
    durationMs: int)

  const ERROR_LIMIT := 1000

  function Clip(message: string): string {
    if |message| <= ERROR_LIMIT then message else message[..ERROR_LIMIT]
  }

  predicate Terminal(row: Row) {
    row.status == Delivered || row.status == Failed
  }

  // ---- Claiming --------------------------------------------------------------------------

  /** The WHERE clause of the claim; a WAITING row without a retry time compares as unknown. */
  predicate Eligible(row: Row, now: int) {
    || row.status == Pending
    || (row.status == Waiting && row.nextRetryAt.Some? && row.nextRetryAt.value <= now)
  }

  /** ORDER BY "nextRetryAt" ASC NULLS FIRST, "createdAt" ASC. */
  predicate NotAfter(a: Row, b: Row) {
    match (a.nextRetryAt, b.nextRetryAt)
    case (None, None) => a.createdAt <= b.createdAt
    case (None, Some(_)) => true
    case (Some(_), None) => false
    case (Some(s), Some(t)) => s < t || (s == t && a.createdAt <= b.createdAt)
  }

  /** `ids` is an answer to the claim query: the first `limit` eligible rows, in order. */
  ghost predicate IsSelection(rows: Rows, now: int, limit: nat, ids: seq<Id>) {
    && Distinct(ids)
    && |ids| <= limit
    && (forall id :: id in ids ==> id in rows && Eligible(rows[id], now))
    && (forall i, j :: 0 <= i < j < |ids| ==> NotAfter(rows[ids[i]], rows[ids[j]]))
    && (forall x :: x in rows && Eligible(rows[x], now) && x !in ids ==>
          |ids| == limit && forall id :: id in ids ==> NotAfter(rows[id], rows[x]))
  }

  /** Strictly first in line, column by column: never retried before retried, the earlier retry time before
      the later, and with equal retry times the older row before the younger. */
  predicate GoesFirst(a: Row, b: Row) {
    || (a.nextRetryAt.None? && b.nextRetryAt.Some?)
    || (a.nextRetryAt.Some? && b.nextRetryAt.Some? && a.nextRetryAt.value < b.nextRetryAt.value)
    || (a.nextRetryAt == b.nextRetryAt && a.createdAt < b.createdAt)
  }

  lemma OrderIsByColumns(a: Row, b: Row)
    ensures NotAfter(a, b) <==> !GoesFirst(b, a)
  {
  }

  /** Pending, or waiting for a time that has come. */
  ghost predicate DueNow(row: Row, now: int) {
    row.status == Pending || (row.status == Waiting && exists at :: row.nextRetryAt == Some(at) && at <= now)
  }

  /** Only due rows are taken, none that is left was before one that is taken, and the taken are in line;
      and a due row is left only when all the places are gone. */
  ghost predicate TakenInOrder(rows: Rows, now: int, places: nat, taken: seq<Id>) {
    && |taken| <= places
    && (forall a :: a in taken ==> a in rows && DueNow(rows[a], now))
    && (forall a, x :: a in taken && x in rows && x !in taken && DueNow(rows[x], now) ==> !GoesFirst(rows[x], rows[a]))
    && (forall i, j :: 0 <= i < j < |taken| ==> taken[i] != taken[j] && !GoesFirst(rows[taken[j]], rows[taken[i]]))
    && (forall x :: x in rows && x !in taken && DueNow(rows[x], now) ==> |taken| == places)
  }

  /** The claim query serves rows in line. */
  lemma SelectionIsInOrder(rows: Rows, now: int, limit: nat, ids: seq<Id>)
    ensures IsSelection(rows, now, limit, ids) <==> TakenInOrder(rows, now, limit, ids)
  {
    forall a, b | a in rows && b in rows ensures NotAfter(rows[a], rows[b]) <==> !GoesFirst(rows[b], rows[a]) {
      OrderIsByColumns(rows[a], rows[b]);
    }
    forall x | x in rows ensures Eligible(rows[x], now) <==> DueNow(rows[x], now) {
    }
  }

  function EligibleIds(rows: Rows, now: int): set<Id> {
    set id | id in rows && Eligible(rows[id], now)
  }

  /** The size of an answer is settled even where its order is not. */
  lemma SelectionSize(rows: Rows, now: int, limit: nat, ids: seq<Id>)
    requires IsSelection(rows, now, limit, ids)
    ensures |ids| == Min(limit, |EligibleIds(rows, now)|)
  {
    DistinctCardinality(ids);
    var all := EligibleIds(rows, now);
    assert Elems(ids) <= all;
    SubsetSize(Elems(ids), all);
    if |ids| < limit {
      assert Elems(ids) == all;
    }
  }

  lemma SubsetSize(a: set<Id>, b: set<Id>)
    requires a <= b
    ensures |a| <= |b|
  {
    assert b == a + (b - a);
  }

  function MarkQueued(rows: Rows, ids: seq<Id>, stamp: int): Rows {
    map id | id in rows :: if id in ids then rows[id].(status := Queued, updatedAt := stamp) else rows[id]
  }

  /** A second batch continues the first exactly as one larger claim would have. */
  lemma SelectionsCompose(rows: Rows, now: int, first: seq<Id>, limit: nat, next: seq<Id>)
    requires IsSelection(rows, now, |first|, first)
    requires IsSelection(MarkQueued(rows, first, now), now, limit, next)
    ensures IsSelection(rows, now, |first| + limit, first + next)
    ensures next != [] || limit == 0 ==> IsSelection(rows, now, |first + next|, first + next)
    ensures MarkQueued(MarkQueued(rows, first, now), next, now) == MarkQueued(rows, first + next, now)
  {
    var marked, both := MarkQueued(rows, first, now), first + next;
    forall id | id in next ensures id in rows && id !in first && marked[id] == rows[id] {
    }
    forall i, j | 0 <= i < j < |both|
      ensures both[i] != both[j] && NotAfter(rows[both[i]], rows[both[j]])
    {
      assert both[i] in both && both[j] in both;
      if i < |first| <= j {
        assert both[i] in first && both[j] in next;
      }
    }
    forall x | x in rows && Eligible(rows[x], now) && x !in both
      ensures |next| == limit && forall id :: id in both ==> NotAfter(rows[id], rows[x])
    {
      assert marked[x] == rows[x];
    }
  }

  // ---- Recovery --------------------------------------------------------------------------

  predicate Expired(row: Row, cutoff: int) {
    row.status == Processing && row.lockedAt.Some? && row.lockedAt.value < cutoff
  }

  predicate Stale(row: Row, cutoff: int) {
    row.status == Queued && row.updatedAt < cutoff
  }

  const LEASE_EXPIRED := "Worker lease expired; delivery was reclaimed"

  /** The reaper's update, guarded by the status again because it follows a separate read. */
  function Reclaim(rows: Rows, ids: seq<Id>, stamp: int): Rows {
    map id | id in rows ::
      if id in ids && rows[id].status == Processing then
        rows[id].(status := Waiting, nextRetryAt := Some(stamp), lockedAt := None,
                  attempt := rows[id].attempt + 1, lastError := Some(LEASE_EXPIRED), updatedAt := stamp)
      else rows[id]
  }

  function ResetToPending(rows: Rows, ids: seq<Id>, stamp: int): Rows {
    map id | id in rows ::
      if id in ids && rows[id].status == Queued then
        rows[id].(status := Pending, lockedAt := None, updatedAt := stamp)
      else rows[id]
  }

  /** Claiming and resetting gives every claimed row back to the queue: at most its status and its
      timestamps differ from what they were. */
  lemma ResetUndoesClaim(rows: Rows, ids: seq<Id>, stamp: int, later: int)
    requires forall id :: id in ids && id in rows ==> Eligible(rows[id], stamp)
    ensures var back := ResetToPending(MarkQueued(rows, ids, stamp), ids, later);
            && back.Keys == rows.Keys
            && (forall id :: id in rows && id !in ids ==> back[id] == rows[id])
            && (forall id :: id in rows && id in ids ==>
                  back[id] == rows[id].(status := Pending, lockedAt := None, updatedAt := later))
  {
  }

  // ---- Execution -------------------------------------------------------------------------

  predicate Claimable(rows: Rows, id: Id) {
    id in rows && rows[id].status == Queued
  }

  function Lock(rows: Rows, id: Id, stamp: int): Rows {
    if Claimable(rows, id)
    then rows[id := rows[id].(status := Processing, lockedAt := Some(stamp), updatedAt := stamp)]
    else rows
  }

  function RecordSuccess(rows: Rows, id: Id, attempt: nat, responseStatus: int, stamp: int): Rows
    requires id in rows
  {
    rows[id := rows[id].(status := Delivered, attempt := attempt, responseStatus := Some(responseStatus),
                         deliveredAt := Some(stamp), lockedAt := None, nextRetryAt := None,
                         lastError := None, updatedAt := stamp)]
  }

  /** A null retry time is how the caller says that attempts are exhausted. */
  function RecordFailure(rows: Rows, id: Id, attempt: nat, responseStatus: Option<int>, message: string,
                         retryAt: Option<int>, stamp: int): Rows
    requires id in rows
  {
    rows[id := rows[id].(status := if retryAt.None? then Failed else Waiting, attempt := attempt,
                         responseStatus := responseStatus, lastError := Some(Clip(message)),
                         nextRetryAt := retryAt, lockedAt := None, updatedAt := stamp)]
  }

  /** Of any number of conditional updates of one row, the first takes it and the others find nothing to
      take, until something queues it again. */
  lemma LockIsTakenOnce(rows: Rows, id: Id, stamp: int, later: int)
    ensures !Claimable(Lock(rows, id, stamp), id)
    ensures Lock(Lock(rows, id, stamp), id, later) == Lock(rows, id, stamp)
    ensures !Claimable(ResetToPending(rows, [id], later), id)
  {
  }

  /** What happened between a scheduler's read and its update stands: a record is not undone by the reaper,
      nor a lock by the sweep, and a row that is queued or waiting is not reclaimed. */
  lemma LateUpdateChangesNothing(rows: Rows, id: Id, attempt: nat, status: int, response: Option<int>, message: string,
                                 retryAt: Option<int>, stamp: int, later: int)
    requires id in rows
    ensures var recorded := RecordSuccess(rows, id, attempt, status, stamp); Reclaim(recorded, [id], later) == recorded
    ensures var recorded := RecordFailure(rows, id, attempt, response, message, retryAt, stamp); Reclaim(recorded, [id], later) == recorded
    ensures rows[id].status == Queued ==>
              var locked := Lock(rows, id, stamp); ResetToPending(locked, [id], later) == locked && Reclaim(rows, [id], later) == rows
    ensures rows[id].status == Waiting || rows[id].status == Pending ==>
              Reclaim(rows, [id], later) == rows && ResetToPending(rows, [id], later) == rows
  {
  }

  /** A record takes no notice of the row it finds: a success leaves nothing of it but its creation time,
      a failure that and the delivery time.  So a failure recorded after a success has the row retried or
      failed with a delivery time set. */
  lemma LateRecordOverwrites(rows: Rows, found: Row, id: Id, attempt: nat, status: int, response: Option<int>,
                             message: string, retryAt: Option<int>, stamp: int)
    requires id in rows && found.createdAt == rows[id].createdAt
    ensures RecordSuccess(rows[id := found], id, attempt, status, stamp) == RecordSuccess(rows, id, attempt, status, stamp)
    ensures RecordFailure(rows[id := found], id, attempt, response, message, retryAt, stamp)
            == RecordFailure(rows, id, attempt, response, message, retryAt, stamp)
            <==> found.deliveredAt == rows[id].deliveredAt
    ensures var row := RecordFailure(RecordSuccess(rows, id, attempt, status, stamp), id, attempt, response, message, retryAt, stamp)[id];
            (row.status == Waiting || row.status == Failed) && row.deliveredAt == Some(stamp)
  {
    var a := RecordSuccess(rows[id := found], id, attempt, status, stamp);
    var b := RecordSuccess(rows, id, attempt, status, stamp);
    assert a[id] == b[id];
    var c := RecordFailure(rows[id := found], id, attempt, response, message, retryAt, stamp);
    var d := RecordFailure(rows, id, attempt, response, message, retryAt, stamp);
    if found.deliveredAt == rows[id].deliveredAt {
      assert c[id] == d[id];
    } else {
      assert c[id].deliveredAt != d[id].deliveredAt;
    }
  }

  // ---- Ingest and replay -----------------------------------------------------------------

  function NewRow(stamp: int): Row {
    Row(Pending, 0, None, None, None, None, None, stamp, stamp)
  }

  predicate Replayable(rows: Rows, id: Id) {
    id in rows && Terminal(rows[id])
  }

  function Replay(rows: Rows, id: Id, stamp: int): Rows {
    if Replayable(rows, id)
    then rows[id := rows[id].(status := Pending, attempt := 0, nextRetryAt := None, lockedAt := None,
                              lastError := None, responseStatus := None, deliveredAt := None,
                              updatedAt := stamp)]
    else rows
  }

  /** Delivered and failed rows, and no others, are replayed, and start again with no attempt made. */
  lemma ReplayedIff(rows: Rows, id: Id, stamp: int)
    requires id in rows
    ensures Replayable(rows, id) <==> rows[id].status in {Delivered, Failed}
    ensures Replay(rows, id, stamp) ==
            if rows[id].status in {Delivered, Failed}
            then rows[id := Row(Pending, 0, None, None, None, None, None, rows[id].createdAt, stamp)]
            else rows
  {
    if rows[id].status in {Delivered, Failed} {
      assert Replay(rows, id, stamp)[id] == Row(Pending, 0, None, None, None, None, None, rows[id].createdAt, stamp);
    }
  }

  /** A replayed row is a new row but for its creation time, and cannot be replayed again until it has
      finished again; a row that has not finished is left alone. */
  lemma ReplayStartsAfresh(rows: Rows, id: Id, stamp: int, later: int)
    ensures Replayable(rows, id) ==> Replay(rows, id, stamp) == rows[id := NewRow(stamp).(createdAt := rows[id].createdAt)]
    ensures Replay(rows, id, stamp) == rows <==> !Replayable(rows, id)
    ensures Replay(Replay(rows, id, stamp), id, later) == Replay(rows, id, stamp)
  {
    if Replayable(rows, id) {
      assert Replay(rows, id, stamp)[id].status != rows[id].status;
    }
  }
}
