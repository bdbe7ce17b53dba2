/** The deliveries table as mutable state, with the repository functions that update it.  The clock
    and the outcome of a publish are arguments.  A query that promises no order, or ties, may answer
    in any order: the two Select methods stand for Postgres and choose freely. */
module Repository {
  import opened Basics
  import opened Deliveries
  import W = WindowSpec
  import Redis = RedisQueue

  lemma FirstExists(rows: Rows, all: set<Id>) returns (first: Id)
    requires all != {} && all <= rows.Keys
    ensures first in all && forall id :: id in all ==> NotAfter(rows[first], rows[id])
    decreases all
  {
    var x :| x in all;
    first := x;
    if all != {x} {
      var y := FirstExists(rows, all - {x});
      if !NotAfter(rows[x], rows[y]) {
        first := y;
      }
    }
  }

  lemma OneMoreSelected(rows: Rows, now: int, before: seq<Id>, next: Id)
    requires IsSelection(rows, now, |before|, before)
    requires next in rows && Eligible(rows[next], now) && next !in before
    requires forall id :: id in rows && Eligible(rows[id], now) && id !in before ==> NotAfter(rows[next], rows[id])
    ensures IsSelection(rows, now, |before| + 1, before + [next])
  {
    var ids := before + [next];
    forall i, j | 0 <= i < j < |ids| ensures ids[i] != ids[j] && NotAfter(rows[ids[i]], rows[ids[j]]) {
      assert ids[i] in before;
    }
  }

  /** Every id that a claim takes ends QUEUED if the window accepted it and PENDING if not, and no
      other row changes. */
  ghost predicate ClaimSettled(rows: Rows, now: int, claimed: seq<Id>, accepted: seq<Id>, rows': Rows) {
    && rows'.Keys == rows.Keys
    && (forall id :: id in rows && id !in claimed ==> rows'[id] == rows[id])
    && (forall id :: id in accepted ==> id in claimed)
    && (forall id :: id in claimed ==>
          && id in rows && Eligible(rows[id], now)
          && rows'[id] == if id in accepted then rows[id].(status := Queued, updatedAt := now)
                          else rows[id].(status := Pending, lockedAt := None, updatedAt := now))
  }

  lemma AllAccepted(rows: Rows, now: int, claimed: seq<Id>, accepted: seq<Id>)
    requires Distinct(claimed) && Distinct(accepted) && |accepted| >= |claimed|
    requires (forall id :: id in accepted ==> id in claimed) && forall id :: id in claimed ==> id in rows && Eligible(rows[id], now)
    ensures ClaimSettled(rows, now, claimed, accepted, MarkQueued(rows, claimed, now))
  {
    DistinctCardinality(accepted);
    DistinctCardinality(claimed);
    SubsetOfSameSize(Elems(accepted), Elems(claimed));
    assert forall id :: id in claimed ==> id in Elems(accepted);
  }

  lemma SomeRejected(rows: Rows, now: int, claimed: seq<Id>, accepted: seq<Id>)
    requires forall id :: id in accepted ==> id in claimed
    requires forall id :: id in claimed ==> id in rows && Eligible(rows[id], now)
    ensures ClaimSettled(rows, now, claimed, accepted, ResetToPending(MarkQueued(rows, claimed, now), Drop(claimed, Elems(accepted)), now))
  {
  }

  datatype ClaimResult = Claimed(accepted: seq<Id>) | PublishFailed

  class DeliveryTable {
    var rows: Rows
    var attempts: seq<AttemptRow>

    constructor ()
      ensures rows == map[] && attempts == []
    {
      rows, attempts := map[], [];
    }

    /** SELECT id ... ORDER BY ... LIMIT, as Postgres may answer it. */
    method SelectEligible(limit: nat, now: int) returns (ids: seq<Id>)
      ensures IsSelection(rows, now, limit, ids) && TakenInOrder(rows, now, limit, ids)
    {
      ids := [];
      var left := EligibleIds(rows, now);
      while |ids| < limit && left != {}
        invariant IsSelection(rows, now, |ids|, ids) && |ids| <= limit
        invariant left == EligibleIds(rows, now) - Elems(ids)
        decreases left
      {
        var first := FirstExists(rows, left);
        var next :| next in left && forall id :: id in left ==> NotAfter(rows[next], rows[id]);
        OneMoreSelected(rows, now, ids, next);
        ids := ids + [next];
        left := left - {next};
      }
      assert forall id :: id in rows && Eligible(rows[id], now) && id !in ids ==> id in left;
      SelectionIsInOrder(rows, now, limit, ids);
    }

    /** The ids of a set of rows, in whatever order. */
    method SelectAll(matching: set<Id>) returns (ids: seq<Id>)
      ensures Distinct(ids) && Elems(ids) == matching
    {
      ids := [];
      var left := matching;
      while left != {}
        invariant Distinct(ids) && Elems(ids) == matching - left && left <= matching
        decreases left
      {
        var next :| next in left;
        assert next !in Elems(ids) && Elems(ids + [next]) == Elems(ids) + {next};
        ids := ids + [next];
        left := left - {next};
      }
    }

    /** claimEligibleDeliveries, run alone.  A failed publish is one that throws without effect. */
    method ClaimEligibleDeliveries(limit: int, queue: Redis.RedisWindowQueue, now: int, publishFails: bool)
      returns (result: ClaimResult, ghost claimed: seq<Id>)
      modifies this`rows, queue
      ensures limit <= 0 ==> result == Claimed([]) && claimed == [] && rows == old(rows) && queue.State() == old(queue.State())
      ensures limit > 0 ==> IsSelection(old(rows), now, limit, claimed) && TakenInOrder(old(rows), now, limit, claimed)
      ensures result.Claimed? ==>
                && result.accepted == W.Accepted(old(queue.State()), queue.capacity, claimed)
                && queue.State() == W.Enqueue(old(queue.State()), queue.capacity, claimed)
                && ClaimSettled(old(rows), now, claimed, result.accepted, rows)
                && (result.accepted == claimed ==> rows == MarkQueued(old(rows), claimed, now))
      ensures result.PublishFailed? <==> publishFails && claimed != []
      ensures result.PublishFailed? ==>
                queue.State() == old(queue.State()) && ClaimSettled(old(rows), now, claimed, [], rows)
    {
      claimed := [];
      if limit <= 0 {
        assert MarkQueued(rows, [], now) == rows;
        return Claimed([]), [];
      }
      var ids := SelectEligible(limit, now);
      claimed := ids;
      rows := MarkQueued(rows, ids, now);
      if ids == [] {
        assert rows == old(rows);
        return Claimed([]), claimed;
      }
      if publishFails {
        SomeRejected(old(rows), now, ids, []);
        DropNothing(ids, Elems([]));
        var undone := ResetToPending(ids, now);
        return PublishFailed, claimed;
      }
      var accepted := queue.Enqueue(ids);
      if |accepted| < |ids| {
        SomeRejected(old(rows), now, ids, accepted);
        var reset := ResetToPending(Drop(ids, Elems(accepted)), now);
      } else {
        AllAccepted(old(rows), now, ids, accepted);
      }
      result := Claimed(accepted);
    }

    /** reclaimExpiredLeases: a read, then an update guarded by the status again. */
    method ReclaimExpiredLeases(leaseMs: int, now: int) returns (ids: seq<Id>)
      modifies this`rows
      ensures Distinct(ids) && Elems(ids) == set id | id in old(rows) && Expired(old(rows)[id], now - leaseMs)
      ensures rows == Reclaim(old(rows), ids, now)
    {
      ids := SelectAll(set id | id in rows && Expired(rows[id], now - leaseMs));
      if ids == [] {
        assert Reclaim(rows, [], now) == rows;
        return;
      }
      rows := Reclaim(rows, ids, now);
    }

    method FindOrphanedQueued(graceMs: int, now: int) returns (ids: seq<Id>)
      ensures Elems(ids) == set id | id in rows && Stale(rows[id], now - graceMs)
    {
      ids := SelectAll(set id | id in rows && Stale(rows[id], now - graceMs));
    }

    method ResetToPending(ids: seq<Id>, now: int) returns (count: nat)
      modifies this`rows
      ensures rows == Deliveries.ResetToPending(old(rows), ids, now)
      ensures count == |set id | id in ids && Claimable(old(rows), id)|
    {
      count := |set id | id in ids && Claimable(rows, id)|;
      if ids == [] {
        assert (set id | id in ids && Claimable(rows, id)) == {};
        assert Deliveries.ResetToPending(rows, [], now) == rows;
        return;
      }
      rows := Deliveries.ResetToPending(rows, ids, now);
    }

    /** claimForProcessing: the conditional update, then the read of the row it took. */
    method ClaimForProcessing(id: Id, now: int) returns (taken: Option<Row>)
      modifies this`rows
      ensures rows == Lock(old(rows), id, now)
      ensures taken.Some? <==> Claimable(old(rows), id)
      ensures taken.Some? ==> id in rows && taken.value == rows[id] && taken.value.attempt == old(rows)[id].attempt
    {
      if !Claimable(rows, id) {
        return None;
      }
      rows := Lock(rows, id, now);
      taken := Some(rows[id]);
    }

    /** One transaction; with no such row the update throws and neither write happens. */
    method RecordSuccess(id: Id, attempt: nat, status: int, durationMs: int, now: int) returns (ok: bool)
      modifies this
      ensures ok <==> id in old(rows)
      ensures ok ==> && rows == Deliveries.RecordSuccess(old(rows), id, attempt, status, now)
                     && attempts == old(attempts) + [AttemptRow(id, attempt, Some(status), None, durationMs)]
      ensures !ok ==> rows == old(rows) && attempts == old(attempts)
    {
      ok := id in rows;
      if ok {
        rows := Deliveries.RecordSuccess(rows, id, attempt, status, now);
        attempts := attempts + [AttemptRow(id, attempt, Some(status), None, durationMs)];
      }
    }

    method RecordFailure(id: Id, attempt: nat, status: Option<int>, message: string, durationMs: int,
                         retryAt: Option<int>, now: int) returns (ok: bool)
      modifies this
      ensures ok <==> id in old(rows)
      ensures ok ==> && rows == Deliveries.RecordFailure(old(rows), id, attempt, status, message, retryAt, now)
                     && attempts == old(attempts) + [AttemptRow(id, attempt, status, Some(Clip(message)), durationMs)]
      ensures !ok ==> rows == old(rows) && attempts == old(attempts)
    {
      ok := id in rows;
      if ok {
        rows := Deliveries.RecordFailure(rows, id, attempt, status, message, retryAt, now);
        attempts := attempts + [AttemptRow(id, attempt, status, Some(Clip(message)), durationMs)];
      }
    }

    method ReplayDelivery(id: Id, now: int) returns (replayed: bool)
      modifies this`rows
      ensures replayed <==> Replayable(old(rows), id)
      ensures rows == Replay(old(rows), id, now)
      ensures replayed <==> id in old(rows) && (old(rows)[id].status == Delivered || old(rows)[id].status == Failed)
    {
      replayed := Replayable(rows, id);
      rows := Replay(rows, id, now);
    }
  }

  lemma SubsetOfSameSize(a: set<Id>, b: set<Id>)
    requires a <= b && |a| >= |b|
    ensures a == b
  {
    SubsetSize(b - a, b);
    assert b == a + (b - a);
  }
}
