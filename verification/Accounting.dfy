/** What the attempt counter, the audit log and the retry times of one delivery always agree on.

    A ledger is one row together with the log entries of its current replay epoch and the number of
    times the reaper took it in that epoch. */
module Accounting {
  import opened Basics
  import opened Deliveries
  import opened Protocol
  import O = Ownership
  import B = Backoff

  datatype Ledger = Ledger(row: Row, entries: seq<Entry>, reaps: nat)

  /** The entries of one delivery in one epoch, oldest first. */
  function Logged(log: seq<Entry>, id: Id, epoch: nat): (r: seq<Entry>)
    ensures forall e :: e in r ==> e in log && e.row.deliveryId == id && e.epoch == epoch
  {
    if log == [] then []
    else
      var last := log[|log| - 1];
      var before := Logged(log[..|log| - 1], id, epoch);
      if last.row.deliveryId == id && last.epoch == epoch then before + [last] else before
  }

  function LedgerOf(s: State, id: Id): Ledger
    requires id in s.rows
  {
    Ledger(s.rows[id], Logged(s.log, id, Count(s.replays, id)), Count(s.reaps, id))
  }

  // ---- What one epoch's entries always satisfy ---------------------------------------------

  ghost predicate Rising(entries: seq<Entry>) {
    && (forall i :: 0 <= i < |entries| ==> entries[i].row.attempt >= 1)
    && (forall i, j :: 0 <= i < j < |entries| ==> entries[i].row.attempt < entries[j].row.attempt)
  }

  predicate Succeeded(e: Entry) {
    e.row.responseStatus.Some? && B.IsSuccessStatus(e.row.responseStatus.value)
  }

  predicate FinalFailure(cfg: Config, e: Entry) {
    !Succeeded(e) && (!Retryable(e.row.responseStatus) || e.row.attempt >= cfg.maxAttempts)
  }

  /** A retry was decided exactly for a retryable answer below the limit, and for no longer than the
      backoff allows. */
  ghost predicate RetrySound(cfg: Config, e: Entry) {
    && (e.retry.Some? <==> Retryable(e.row.responseStatus) && e.row.attempt < cfg.maxAttempts)
    && (e.retry.Some? ==> e.retry.value.delay <= B.Ceiling(e.row.attempt, cfg.backoff))
  }

  /** Attempt numbers rise, and every entry but the last decided a retry. */
  ghost predicate EpochSound(cfg: Config, entries: seq<Entry>) {
    && Rising(entries)
    && (forall i :: 0 <= i < |entries| ==> RetrySound(cfg, entries[i]))
    && (forall i :: 0 <= i < |entries| - 1 ==> entries[i].retry.Some?)
  }

  function TotalDelay(entries: seq<Entry>): nat {
    if entries == [] then 0
    else
      var last := entries[|entries| - 1];
      TotalDelay(entries[..|entries| - 1]) + if last.retry.Some? then last.retry.value.delay else 0
  }

  lemma {:induction false} RisingIsLong(entries: seq<Entry>)
    requires Rising(entries) && entries != []
    ensures |entries| <= entries[|entries| - 1].row.attempt
  {
    if |entries| > 1 {
      RisingIsLong(entries[..|entries| - 1]);
    }
  }

  /** No epoch records more than maxAttempts outcomes, however often the reaper took the row. */
  lemma EpochIsShort(cfg: Config, entries: seq<Entry>)
    requires EpochSound(cfg, entries) && cfg.maxAttempts >= 1
    ensures |entries| <= cfg.maxAttempts
  {
    if |entries| > 1 {
      var before := entries[..|entries| - 1];
      RisingIsLong(before);
      assert RetrySound(cfg, entries[|entries| - 2]);
    }
  }

  lemma {:induction false} DelayWithinBudget(cfg: Config, entries: seq<Entry>, bound: nat)
    requires Rising(entries) && (forall i :: 0 <= i < |entries| ==> RetrySound(cfg, entries[i]))
    requires forall i :: 0 <= i < |entries| ==> entries[i].retry.Some? ==> entries[i].row.attempt <= bound
    ensures TotalDelay(entries) <= B.Budget(bound, cfg.backoff)
  {
    if entries != [] {
      var n := |entries| - 1;
      var before, last := entries[..n], entries[n];
      if last.retry.None? {
        DelayWithinBudget(cfg, before, bound);
      } else {
        var attempt := last.row.attempt;
        DelayWithinBudget(cfg, before, attempt - 1);
        B.CapIsInvisibleIff(attempt, cfg.backoff);
        B.BudgetGrows(attempt, bound, cfg.backoff);
      }
    }
  }

  /** All the delays of one epoch together stay within the sum of the capped curve over the attempts
      that can be retried. */
  lemma EpochDelayBounded(cfg: Config, entries: seq<Entry>)
    requires EpochSound(cfg, entries) && cfg.maxAttempts >= 1
    ensures TotalDelay(entries) <= B.Budget(cfg.maxAttempts - 1, cfg.backoff)
  {
    DelayWithinBudget(cfg, entries, cfg.maxAttempts - 1);
  }

  // ---- A balanced ledger -------------------------------------------------------------------

  /** Each status has exactly the timestamps that belong to it. */
  ghost predicate Shaped(row: Row) {
    && (row.status == Processing <==> row.lockedAt.Some?)
    && (row.status == Waiting ==> row.nextRetryAt.Some?)
    && (row.status == Delivered <==> row.deliveredAt.Some?)
  }

  /** Every retry the epoch has decided has fallen due by `t`. */
  ghost predicate DueBy(entries: seq<Entry>, t: int) {
    forall i :: 0 <= i < |entries| && entries[i].retry.Some? ==> entries[i].retry.value.at <= t
  }

  /** The row has waited, or is still waiting, for every retry time its epoch was given. */
  ghost predicate Patient(row: Row, entries: seq<Entry>, now: int) {
    match row.status
    case Pending => DueBy(entries, now)
    case Queued => DueBy(entries, now)
    case Processing => row.lockedAt.Some? && DueBy(entries, row.lockedAt.value) && row.lockedAt.value <= now
    case Waiting => row.nextRetryAt.Some? && DueBy(entries, Max(now, row.nextRetryAt.value))
    case Delivered => true
    case Failed => true
  }

  ghost predicate Balanced(cfg: Config, now: int, l: Ledger) {
    var n := |l.entries|;
    && Shaped(l.row)
    && EpochSound(cfg, l.entries)
    && l.row.attempt == n + l.reaps
    && (n > 0 ==> l.entries[n - 1].row.attempt <= l.row.attempt)
    && (if Terminal(l.row) then n > 0 && l.entries[n - 1].row.attempt == l.row.attempt && l.entries[n - 1].retry.None?
        else n > 0 ==> l.entries[n - 1].retry.Some?)
    && (l.row.status == Delivered ==> Succeeded(l.entries[n - 1]))
    && (l.row.status == Failed ==> !Succeeded(l.entries[n - 1]))
    && Patient(l.row, l.entries, now)
  }

  /** Finished exactly when the last outcome was not given a retry; delivered exactly when that was a
      success, and failed exactly when it was a failure which cannot be retried or which used the last
      attempt. */
  ghost predicate FinishedAsLogged(cfg: Config, row: Row, entries: seq<Entry>) {
    var n := |entries|;
    && (Terminal(row) <==> n > 0 && entries[n - 1].retry.None?)
    && (row.status == Delivered <==> n > 0 && Succeeded(entries[n - 1]))
    && (row.status == Failed <==> n > 0 && FinalFailure(cfg, entries[n - 1]))
  }

  lemma LedgerFinishedIff(cfg: Config, now: int, l: Ledger)
    requires Balanced(cfg, now, l)
    ensures FinishedAsLogged(cfg, l.row, l.entries)
  {
    if l.entries != [] {
      assert RetrySound(cfg, l.entries[|l.entries| - 1]);
    }
  }

  lemma LaterBalanced(cfg: Config, now: int, later: int, l: Ledger)
    requires Balanced(cfg, now, l) && now <= later
    ensures Balanced(cfg, later, l)
  {
  }

  lemma RequeueBalanced(cfg: Config, now: int, l: Ledger, row: Row)
    requires Balanced(cfg, now, l)
    requires
      || (Eligible(l.row, now) && row == l.row.(status := Queued, updatedAt := row.updatedAt))
      || (l.row.status == Queued && row == l.row.(status := Pending, lockedAt := None, updatedAt := row.updatedAt))
    ensures Balanced(cfg, now, l.(row := row))
  {
  }

  lemma LockBalanced(cfg: Config, now: int, l: Ledger, stamp: int)
    requires Balanced(cfg, now, l) && l.row.status == Queued && stamp <= now && DueBy(l.entries, stamp)
    ensures Balanced(cfg, now, l.(row := l.row.(status := Processing, lockedAt := Some(stamp), updatedAt := stamp)))
  {
  }

  lemma ReapBalanced(cfg: Config, now: int, l: Ledger, row: Row)
    requires Balanced(cfg, now, l) && l.row.status == Processing
    requires row == l.row.(status := Waiting, nextRetryAt := row.nextRetryAt, lockedAt := None,
                           attempt := l.row.attempt + 1, lastError := row.lastError, updatedAt := row.updatedAt)
    requires row.nextRetryAt.Some?
    ensures Balanced(cfg, now, Ledger(row, l.entries, l.reaps + 1))
  {
  }

  /** Recording the outcome of the attempt that is under way. */
  lemma RecordBalanced(cfg: Config, now: int, l: Ledger, row: Row, e: Entry)
    requires Balanced(cfg, now, l) && l.row.status == Processing
    requires e.row.attempt == row.attempt == l.row.attempt + 1 && RetrySound(cfg, e)
    requires row.lockedAt.None?
    requires
      || (row.status == Delivered && row.deliveredAt.Some? && e.retry.None? && Succeeded(e))
      || (row.status == Failed && row.deliveredAt == l.row.deliveredAt && e.retry.None? && !Succeeded(e))
      || (row.status == Waiting && row.deliveredAt == l.row.deliveredAt && e.retry.Some?
          && row.nextRetryAt == Some(e.retry.value.at))
    ensures Balanced(cfg, now, Ledger(row, l.entries + [e], l.reaps))
  {
    var entries := l.entries + [e];
    assert forall i :: 0 <= i < |l.entries| ==> entries[i] == l.entries[i];
    assert Rising(entries) by {
      forall i | 0 <= i < |l.entries| ensures entries[i].row.attempt < e.row.attempt {
        assert l.entries[i].row.attempt <= l.entries[|l.entries| - 1].row.attempt;
      }
    }
    assert EpochSound(cfg, entries);
  }

  lemma FreshBalanced(cfg: Config, now: int, row: Row)
    requires row.status == Pending && row.attempt == 0 && row.lockedAt.None? && row.deliveredAt.None?
    ensures Balanced(cfg, now, Ledger(row, [], 0))
  {
  }

  // ---- The whole system --------------------------------------------------------------------

  ghost predicate AllBalanced(cfg: Config, s: State) {
    forall id :: id in s.rows ==> Balanced(cfg, s.now, LedgerOf(s, id))
  }

  /** A worker that has popped an id did so after every retry time of its epoch. */
  ghost predicate PoppedPatient(s: State) {
    forall w :: w in s.workers && s.workers[w].Popped? ==>
      DueBy(Logged(s.log, s.workers[w].id, Count(s.replays, s.workers[w].id)), s.workers[w].since)
  }

  ghost predicate LogKnown(s: State) {
    forall e :: e in s.log ==> e.row.deliveryId in s.rows && e.epoch <= Count(s.replays, e.row.deliveryId)
  }

  ghost predicate EveryEpochSound(cfg: Config, log: seq<Entry>) {
    forall id: Id, epoch: nat :: EpochSound(cfg, Logged(log, id, epoch))
  }

  ghost predicate Accounts(cfg: Config, s: State) {
    AllBalanced(cfg, s) && PoppedPatient(s) && LogKnown(s) && EveryEpochSound(cfg, s.log)
  }

  lemma {:induction false} LoggedNothing(log: seq<Entry>, id: Id, epoch: nat)
    requires forall e :: e in log ==> e.row.deliveryId != id || e.epoch != epoch
    ensures Logged(log, id, epoch) == []
  {
    if log != [] {
      assert log[|log| - 1] in log;
      LoggedNothing(log[..|log| - 1], id, epoch);
    }
  }

  lemma LoggedOneMore(log: seq<Entry>, e: Entry, id: Id, epoch: nat)
    ensures Logged(log + [e], id, epoch) ==
            if e.row.deliveryId == id && e.epoch == epoch then Logged(log, id, epoch) + [e] else Logged(log, id, epoch)
  {
    assert (log + [e])[..|log|] == log;
  }

  lemma EnvironmentLedger(cfg: Config, s: State, step: Step, id: Id)
    requires Enabled(cfg, s, step) && (step.Advance? || step.NewDelivery? || step.ReplayDelivery?)
    requires id in Apply(cfg, s, step).rows && LogKnown(s)
    requires id in s.rows ==> Balanced(cfg, s.now, LedgerOf(s, id))
    ensures Balanced(cfg, Apply(cfg, s, step).now, LedgerOf(Apply(cfg, s, step), id))
  {
    var s' := Apply(cfg, s, step);
    if (step.NewDelivery? || step.ReplayDelivery?) && step.id == id {
      LoggedNothing(s'.log, id, Count(s'.replays, id));
      FreshBalanced(cfg, s'.now, s'.rows[id]);
    } else {
      assert LedgerOf(s', id) == LedgerOf(s, id);
      LaterBalanced(cfg, s.now, s'.now, LedgerOf(s, id));
    }
  }

  lemma EnvironmentKeepsPopped(cfg: Config, s: State, step: Step)
    requires PoppedPatient(s) && O.HoldersSound(cfg, s) && Enabled(cfg, s, step)
    requires step.Advance? || step.NewDelivery? || step.ReplayDelivery?
    ensures PoppedPatient(Apply(cfg, s, step))
  {
    var s' := Apply(cfg, s, step);
    assert s'.workers == s.workers && s'.log == s.log;
    forall w | w in s'.workers && s'.workers[w].Popped?
      ensures Count(s'.replays, s'.workers[w].id) == Count(s.replays, s.workers[w].id)
    {
      assert O.HolderSound(cfg, s, s.workers[w]);
    }
  }

  lemma EnvironmentKeepsKnown(cfg: Config, s: State, step: Step)
    requires LogKnown(s) && Enabled(cfg, s, step)
    requires step.Advance? || step.NewDelivery? || step.ReplayDelivery?
    ensures LogKnown(Apply(cfg, s, step)) && Apply(cfg, s, step).log == s.log
  {
  }

  lemma EnvironmentKeepsAccounts(cfg: Config, s: State, step: Step)
    requires Accounts(cfg, s) && O.Own(cfg, s) && Enabled(cfg, s, step)
    requires step.Advance? || step.NewDelivery? || step.ReplayDelivery?
    ensures Accounts(cfg, Apply(cfg, s, step))
  {
    EnvironmentKeepsPopped(cfg, s, step);
    EnvironmentKeepsKnown(cfg, s, step);
    var s' := Apply(cfg, s, step);
    forall id | id in s'.rows ensures Balanced(cfg, s'.now, LedgerOf(s', id)) {
      EnvironmentLedger(cfg, s, step, id);
    }
  }

  /** Rows, log and clock are as before, so every ledger is. */
  lemma SameLedgers(cfg: Config, s: State, s': State)
    requires AllBalanced(cfg, s) && LogKnown(s)
    requires s'.rows == s.rows && s'.log == s.log && s'.replays == s.replays && s'.reaps == s.reaps && s'.now == s.now
    ensures AllBalanced(cfg, s') && LogKnown(s')
  {
    forall id | id in s'.rows ensures Balanced(cfg, s'.now, LedgerOf(s', id)) {
      assert LedgerOf(s', id) == LedgerOf(s, id);
    }
  }

  ghost predicate NoNewPopped(s: State, s': State) {
    forall w :: w in s'.workers && s'.workers[w].Popped? ==> w in s.workers && s'.workers[w] == s.workers[w]
  }

  lemma QuietKeepsAccounts(cfg: Config, s: State, s': State)
    requires Accounts(cfg, s) && NoNewPopped(s, s')
    requires s'.rows == s.rows && s'.log == s.log && s'.replays == s.replays && s'.reaps == s.reaps && s'.now == s.now
    ensures Accounts(cfg, s')
  {
    SameLedgers(cfg, s, s');
  }

  lemma PopKeepsAccounts(cfg: Config, s: State, w: nat)
    requires Accounts(cfg, s) && O.ReadyQueued(s) && CanWork(cfg, s, w, Pop)
    ensures Accounts(cfg, Work(cfg, s, w, Pop))
  {
    var id := s.window.ready[0];
    assert id in s.window.ready && Claimable(s.rows, id);
    assert Balanced(cfg, s.now, LedgerOf(s, id));
    SameLedgers(cfg, s, Work(cfg, s, w, Pop));
  }

  lemma LocalWorkFrame(cfg: Config, s: State, w: nat, act: WorkerAct)
    requires CanWork(cfg, s, w, act) && !act.Pop? && !act.Lock? && !act.Succeed? && !act.Fail?
    ensures var s' := Work(cfg, s, w, act);
            && s'.rows == s.rows && s'.log == s.log && s'.replays == s.replays && s'.reaps == s.reaps && s'.now == s.now
            && NoNewPopped(s, s')
  {
  }

  lemma LockKeepsAccounts(cfg: Config, s: State, w: nat, stamp: int)
    requires Accounts(cfg, s) && O.Own(cfg, s) && CanWork(cfg, s, w, Lock(stamp))
    ensures Accounts(cfg, Work(cfg, s, w, Lock(stamp)))
  {
    var s', me := Work(cfg, s, w, Lock(stamp)), s.workers[w];
    forall id | id in s'.rows ensures Balanced(cfg, s'.now, LedgerOf(s', id)) {
      if id == me.id {
        LockBalanced(cfg, s.now, LedgerOf(s, id), stamp);
      } else {
        assert LedgerOf(s', id) == LedgerOf(s, id);
      }
    }
  }

  lemma DecisionSound(cfg: Config, attempt: nat, status: Option<int>, stamp: int, draw: real)
    requires 0.0 <= draw < 1.0
    ensures var retry := Decide(cfg, attempt, status, stamp, draw);
            && (retry.Some? <==> Retryable(status) && attempt < cfg.maxAttempts)
            && (retry.Some? ==> && retry.value.delay <= B.Ceiling(attempt, cfg.backoff)
                                && retry.value.at == stamp + retry.value.delay)
  {
    B.JitterInRange(draw, B.Ceiling(attempt, cfg.backoff));
  }

  /** One outcome recorded for one delivery, and nothing else. */
  ghost predicate Recorded(cfg: Config, s: State, s': State, id: Id, e: Entry) {
    && id in s.rows && s'.rows.Keys == s.rows.Keys
    && (forall x :: x in s.rows && x != id ==> s'.rows[x] == s.rows[x])
    && s'.log == s.log + [e] && s'.replays == s.replays && s'.reaps == s.reaps && s'.now == s.now
    && e.row.deliveryId == id && e.epoch == Count(s.replays, id)
    && e.row.attempt == s'.rows[id].attempt == s.rows[id].attempt + 1 && RetrySound(cfg, e)
    && s'.rows[id].lockedAt.None?
    && var row, row' := s.rows[id], s'.rows[id];
       || (row'.status == Delivered && row'.deliveredAt.Some? && e.retry.None? && Succeeded(e))
       || (row'.status == Failed && row'.deliveredAt == row.deliveredAt && e.retry.None? && !Succeeded(e))
       || (row'.status == Waiting && row'.deliveredAt == row.deliveredAt && e.retry.Some?
           && row'.nextRetryAt == Some(e.retry.value.at))
  }

  lemma SuccessIsRecorded(cfg: Config, s: State, w: nat, act: WorkerAct) returns (e: Entry)
    requires CanWork(cfg, s, w, act) && act.Succeed? && O.HolderSound(cfg, s, s.workers[w])
    ensures Recorded(cfg, s, Work(cfg, s, w, act), s.workers[w].id, e)
  {
    e := Work(cfg, s, w, act).log[|s.log|];
  }

  lemma FailureIsRecorded(cfg: Config, s: State, w: nat, act: WorkerAct) returns (e: Entry)
    requires CanWork(cfg, s, w, act) && act.Fail? && O.HolderSound(cfg, s, s.workers[w])
    ensures Recorded(cfg, s, Work(cfg, s, w, act), s.workers[w].id, e)
  {
    e := Work(cfg, s, w, act).log[|s.log|];
    DecisionSound(cfg, s.workers[w].attempt, act.status, act.stamp, act.draw);
  }

  lemma EpochsGrow(cfg: Config, log: seq<Entry>, e: Entry)
    requires EveryEpochSound(cfg, log)
    requires EpochSound(cfg, Logged(log, e.row.deliveryId, e.epoch) + [e])
    ensures EveryEpochSound(cfg, log + [e])
  {
    forall id: Id, epoch: nat ensures EpochSound(cfg, Logged(log + [e], id, epoch)) {
      LoggedOneMore(log, e, id, epoch);
    }
  }

  lemma OtherLedger(s: State, s': State, e: Entry, id: Id)
    requires s'.log == s.log + [e] && e.row.deliveryId != id && s'.replays == s.replays && s'.reaps == s.reaps
    requires id in s.rows && id in s'.rows && s'.rows[id] == s.rows[id]
    ensures LedgerOf(s', id) == LedgerOf(s, id)
  {
    LoggedOneMore(s.log, e, id, Count(s.replays, id));
  }

  lemma RecordingKeepsLedgers(cfg: Config, s: State, s': State, id: Id, e: Entry)
    requires Recorded(cfg, s, s', id, e) && s.rows[id].status == Processing && AllBalanced(cfg, s)
    ensures AllBalanced(cfg, s')
    ensures EpochSound(cfg, Logged(s.log, id, e.epoch) + [e])
  {
    LoggedOneMore(s.log, e, id, e.epoch);
    assert Balanced(cfg, s.now, LedgerOf(s, id));
    RecordBalanced(cfg, s.now, LedgerOf(s, id), s'.rows[id], e);
    forall x | x in s'.rows ensures Balanced(cfg, s'.now, LedgerOf(s', x)) {
      if x != id {
        OtherLedger(s, s', e, x);
        assert Balanced(cfg, s.now, LedgerOf(s, x));
      }
    }
  }

  lemma RecordingKeepsPopped(cfg: Config, s: State, s': State, id: Id, w: nat, e: Entry)
    requires Recorded(cfg, s, s', id, e) && PoppedPatient(s) && O.HoldersApart(s) && O.HoldersSound(cfg, s)
    requires w in s.workers && Holding(s.workers[w], id) && s'.workers == s.workers[w := Leaving(id, None)]
    ensures PoppedPatient(s')
  {
    forall v | v in s'.workers && s'.workers[v].Popped?
      ensures DueBy(Logged(s'.log, s'.workers[v].id, Count(s'.replays, s'.workers[v].id)), s'.workers[v].since)
    {
      assert v != w && O.HolderSound(cfg, s, s.workers[v]);
      OtherLedger(s, s', e, s.workers[v].id);
    }
  }

  lemma RecordingKeepsAccounts(cfg: Config, s: State, s': State, id: Id, w: nat, e: Entry)
    requires Accounts(cfg, s) && Recorded(cfg, s, s', id, e) && s.rows[id].status == Processing
    requires O.HoldersApart(s) && O.HoldersSound(cfg, s)
    requires w in s.workers && Holding(s.workers[w], id) && s'.workers == s.workers[w := Leaving(id, None)]
    ensures Accounts(cfg, s')
  {
    RecordingKeepsLedgers(cfg, s, s', id, e);
    RecordingKeepsPopped(cfg, s, s', id, w, e);
    EpochsGrow(cfg, s.log, e);
    assert LogKnown(s');
  }

  lemma RecordKeepsAccounts(cfg: Config, s: State, w: nat, act: WorkerAct)
    requires Accounts(cfg, s) && O.HoldersApart(s) && O.HoldersSound(cfg, s)
    requires CanWork(cfg, s, w, act) && (act.Succeed? || act.Fail?)
    ensures Accounts(cfg, Work(cfg, s, w, act))
  {
    assert O.HolderSound(cfg, s, s.workers[w]);
    var e: Entry;
    if act.Succeed? {
      e := SuccessIsRecorded(cfg, s, w, act);
    } else {
      e := FailureIsRecorded(cfg, s, w, act);
    }
    RecordingKeepsAccounts(cfg, s, Work(cfg, s, w, act), s.workers[w].id, w, e);
  }

  lemma ReapedLedger(cfg: Config, s: State, k: nat, stamp: int, id: Id)
    requires CanSchedule(cfg, s, k, ReapUpdate(stamp)) && id in s.rows && Balanced(cfg, s.now, LedgerOf(s, id))
    ensures Balanced(cfg, s.now, LedgerOf(Schedule(cfg, s, k, ReapUpdate(stamp)), id))
  {
    var s', l := Schedule(cfg, s, k, ReapUpdate(stamp)), LedgerOf(s, id);
    if id in s.schedulers[k].ids && l.row.status == Processing {
      ReapBalanced(cfg, s.now, l, s'.rows[id]);
      assert LedgerOf(s', id) == Ledger(s'.rows[id], l.entries, l.reaps + 1);
    } else {
      assert LedgerOf(s', id) == l;
    }
  }

  lemma ReapKeepsAccounts(cfg: Config, s: State, k: nat, stamp: int)
    requires Accounts(cfg, s) && CanSchedule(cfg, s, k, ReapUpdate(stamp))
    ensures Accounts(cfg, Schedule(cfg, s, k, ReapUpdate(stamp)))
  {
    var s' := Schedule(cfg, s, k, ReapUpdate(stamp));
    assert s'.log == s.log && s'.replays == s.replays && s'.workers == s.workers && s'.now == s.now;
    forall id | id in s'.rows ensures Balanced(cfg, s'.now, LedgerOf(s', id)) {
      ReapedLedger(cfg, s, k, stamp, id);
    }
  }

  /** Claims and resets touch a row's status and timestamps; no other scheduler step touches a row. */
  lemma RequeuedLedger(cfg: Config, s: State, k: nat, move: SchedulerAct, id: Id)
    requires O.PhasesSound(cfg, s) && CanSchedule(cfg, s, k, move) && !move.ReapUpdate?
    requires id in s.rows && Balanced(cfg, s.now, LedgerOf(s, id))
    ensures id in Schedule(cfg, s, k, move).rows
    ensures Balanced(cfg, s.now, LedgerOf(Schedule(cfg, s, k, move), id))
  {
    var s', l := Schedule(cfg, s, k, move), LedgerOf(s, id);
    RequeuedRows(cfg, s, k, move);
    assert s'.log == s.log && s'.reaps == s.reaps && s'.replays == s.replays;
    if s'.rows[id] != s.rows[id] {
      RequeueBalanced(cfg, s.now, l, s'.rows[id]);
    }
  }

  lemma RequeueKeepsAccounts(cfg: Config, s: State, k: nat, move: SchedulerAct)
    requires Accounts(cfg, s) && O.Own(cfg, s) && CanSchedule(cfg, s, k, move) && !move.ReapUpdate?
    ensures Accounts(cfg, Schedule(cfg, s, k, move))
  {
    var s' := Schedule(cfg, s, k, move);
    RequeuedRows(cfg, s, k, move);
    assert s'.log == s.log && s'.replays == s.replays && s'.workers == s.workers && s'.now == s.now;
    forall id | id in s'.rows ensures Balanced(cfg, s'.now, LedgerOf(s', id)) {
      RequeuedLedger(cfg, s, k, move, id);
    }
  }

  lemma RequeuedRows(cfg: Config, s: State, k: nat, move: SchedulerAct)
    requires O.PhasesSound(cfg, s) && CanSchedule(cfg, s, k, move) && !move.ReapUpdate?
    ensures var rows' := Schedule(cfg, s, k, move).rows;
            && rows'.Keys == s.rows.Keys
            && forall id :: id in s.rows && rows'[id] != s.rows[id] ==>
                 var row, row' := s.rows[id], rows'[id];
                 || (Eligible(row, s.now) && row' == row.(status := Queued, updatedAt := row'.updatedAt))
                 || (row.status == Queued && row' == row.(status := Pending, lockedAt := None, updatedAt := row'.updatedAt))
  {
  }

  lemma ScheduleKeepsAccounts(cfg: Config, s: State, k: nat, move: SchedulerAct)
    requires Accounts(cfg, s) && O.Own(cfg, s) && CanSchedule(cfg, s, k, move)
    ensures Accounts(cfg, Schedule(cfg, s, k, move))
  {
    match move
    case ReapUpdate(stamp) => ReapKeepsAccounts(cfg, s, k, stamp);
    case _ => RequeueKeepsAccounts(cfg, s, k, move);
  }

  lemma WorkKeepsAccounts(cfg: Config, s: State, w: nat, act: WorkerAct)
    requires Accounts(cfg, s) && O.Own(cfg, s) && CanWork(cfg, s, w, act)
    ensures Accounts(cfg, Work(cfg, s, w, act))
  {
    if act.Pop? {
      PopKeepsAccounts(cfg, s, w);
    } else if act.Lock? {
      LockKeepsAccounts(cfg, s, w, act.stamp);
    } else if act.Succeed? || act.Fail? {
      RecordKeepsAccounts(cfg, s, w, act);
    } else {
      LocalWorkFrame(cfg, s, w, act);
      QuietKeepsAccounts(cfg, s, Work(cfg, s, w, act));
    }
  }

  lemma StepKeepsAccounts(cfg: Config, s: State, step: Step)
    requires Accounts(cfg, s) && O.Own(cfg, s) && Enabled(cfg, s, step)
    ensures Accounts(cfg, Apply(cfg, s, step))
  {
    match step
    case Works(w, act) => WorkKeepsAccounts(cfg, s, w, act);
    case Schedules(k, move) => ScheduleKeepsAccounts(cfg, s, k, move);
    case _ => EnvironmentKeepsAccounts(cfg, s, step);
  }

  lemma {:induction false} RunKeepsAccounts(cfg: Config, start: State, steps: seq<Step>)
    requires Init(start) && OneScheduler(start) && cfg.holdMs <= cfg.leaseMs
    requires Run(cfg, start, steps).Some?
    ensures Accounts(cfg, Run(cfg, start, steps).value)
  {
    if steps == [] {
      forall id: Id, epoch: nat ensures Logged([], id, epoch) == [] {
      }
    } else {
      var before := steps[..|steps| - 1];
      RunKeepsAccounts(cfg, start, before);
      O.RunKeepsOwn(cfg, start, before);
      StepKeepsAccounts(cfg, Run(cfg, start, before).value, steps[|steps| - 1]);
    }
  }
}
