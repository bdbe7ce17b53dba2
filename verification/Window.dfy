/** The execution window as a value, and what each atomic Redis operation does to it.

    `ready` is relay:window, `inFlight` is relay:inflight and `dedupe` is relay:enqueued.  The
    functions here are the meaning of the three Lua scripts and of BLMOVE; RedisWindowQueue.dfy
    proves the script loops against them and Protocol.dfy interleaves them with everything else. */
module WindowSpec {
  import opened Basics

  datatype Window = Window(ready: seq<Id>, inFlight: seq<Id>, dedupe: set<Id>)

  const EMPTY := Window([], [], {})

  function Occupancy(w: Window): nat {
    |w.ready| + |w.inFlight|
  }

  function Room(w: Window, capacity: int): nat {
    Max(0, capacity - Occupancy(w))
  }

  function Resident(w: Window): set<Id> {
    Elems(w.ready) + Elems(w.inFlight)
  }

  /** The offered ids that are neither marked already nor repeated, in the order offered. */
  function Fresh(ids: seq<Id>, marked: set<Id>): (r: seq<Id>)
    ensures Distinct(r)
    ensures forall x :: x in r <==> x in ids && x !in marked
    ensures |r| <= |ids|
  {
    if ids == [] then []
    else if ids[0] in marked then Fresh(ids[1..], marked)
    else [ids[0]] + Fresh(ids[1..], marked + {ids[0]})
  }

  function Accepted(w: Window, capacity: int, ids: seq<Id>): (r: seq<Id>)
    ensures Distinct(r)
    ensures forall x :: x in r ==> x in ids && x !in w.dedupe
    ensures |r| <= |ids|
  {
    var novel := Fresh(ids, w.dedupe);
    novel[..Min(|novel|, Room(w, capacity))]
  }

  function Enqueue(w: Window, capacity: int, ids: seq<Id>): Window {
    var accepted := Accepted(w, capacity, ids);
    Window(w.ready + accepted, w.inFlight, w.dedupe + Elems(accepted))
  }

  function Pop(w: Window): Window
    requires w.ready != []
  {
    Window(w.ready[1..], w.inFlight + [w.ready[0]], w.dedupe)
  }

  function Release(w: Window, ids: seq<Id>): Window {
    Window(w.ready, Drop(w.inFlight, Elems(ids)), w.dedupe - Elems(ids))
  }

  /** The ids a release actually takes out of flight. */
  function Evicted(w: Window, ids: seq<Id>): set<Id> {
    set id | id in ids && id in w.inFlight
  }

  function Complete(w: Window, id: Id): Window {
    Window(w.ready, Drop(w.inFlight, {id}), w.dedupe - {id})
  }

  /** SMISMEMBER against the dedupe set, keeping the ids it answers 0 for. */
  function NotInWindow(w: Window, ids: seq<Id>): seq<Id> {
    Drop(ids, w.dedupe)
  }

  // ---- What the offered list is filtered to ----------------------------------------------

  /** An id is accepted at its first occurrence: accepted ids keep the order in which the
      offered list first mentions them. */
  ghost predicate FirstMention(ids: seq<Id>, i: nat, x: Id) {
    i < |ids| && ids[i] == x && x !in ids[..i]
  }

  lemma FirstMentionInTail(ids: seq<Id>, i: nat, x: Id)
    requires ids != [] && FirstMention(ids[1..], i, x) && x != ids[0]
    ensures FirstMention(ids, i + 1, x)
  {
    assert ids[..i + 1] == [ids[0]] + ids[1..][..i];
  }

  lemma {:induction false} FreshFirstMention(ids: seq<Id>, marked: set<Id>, p: nat) returns (i: nat)
    requires p < |Fresh(ids, marked)|
    ensures FirstMention(ids, i, Fresh(ids, marked)[p])
  {
    var x := Fresh(ids, marked)[p];
    assert x in Fresh(ids, marked);
    if ids[0] in marked {
      i := FreshFirstMention(ids[1..], marked, p);
    } else if p == 0 {
      return 0;
    } else {
      i := FreshFirstMention(ids[1..], marked + {ids[0]}, p - 1);
      assert x in Fresh(ids[1..], marked + {ids[0]});
    }
    FirstMentionInTail(ids, i, x);
    i := i + 1;
  }

  lemma {:induction false} FreshKeepsOfferedOrder(ids: seq<Id>, marked: set<Id>, p: nat, q: nat) returns (i: nat, j: nat)
    requires p < q < |Fresh(ids, marked)|
    ensures i < j
    ensures FirstMention(ids, i, Fresh(ids, marked)[p])
    ensures FirstMention(ids, j, Fresh(ids, marked)[q])
  {
    var novel := Fresh(ids, marked);
    var x, y := novel[p], novel[q];
    assert x in novel && y in novel;
    if ids[0] in marked {
      i, j := FreshKeepsOfferedOrder(ids[1..], marked, p, q);
    } else {
      var rest := Fresh(ids[1..], marked + {ids[0]});
      assert y == rest[q - 1] && y in rest;
      if p == 0 {
        j := FreshFirstMention(ids[1..], marked + {ids[0]}, q - 1);
        FirstMentionInTail(ids, j, y);
        return 0, j + 1;
      }
      assert x == rest[p - 1] && x in rest;
      i, j := FreshKeepsOfferedOrder(ids[1..], marked + {ids[0]}, p - 1, q - 1);
    }
    FirstMentionInTail(ids, i, x);
    FirstMentionInTail(ids, j, y);
    i, j := i + 1, j + 1;
  }

  /** When they do not all fit, the new ids mentioned first are the ones accepted; and one is left out only
      when the window is full. */
  lemma FirstMentionedFitFirst(w: Window, capacity: int, ids: seq<Id>, i: nat, x: Id)
    requires FirstMention(ids, i, x) && x !in w.dedupe
    ensures x in Accepted(w, capacity, ids) || |w.ready| + |w.inFlight| + |Accepted(w, capacity, ids)| >= capacity
    ensures forall j: nat, y :: FirstMention(ids, j, y) && i < j && y in Accepted(w, capacity, ids) ==> x in Accepted(w, capacity, ids)
  {
    var novel, k := Fresh(ids, w.dedupe), |Accepted(w, capacity, ids)|;
    assert x in ids;
    assert x in novel;
    var p :| 0 <= p < |novel| && novel[p] == x;
    if p < k {
      assert Accepted(w, capacity, ids)[p] == x;
    } else {
      forall j: nat, y | FirstMention(ids, j, y) && y in Accepted(w, capacity, ids) ensures j < i {
        var q :| 0 <= q < k && Accepted(w, capacity, ids)[q] == y;
        var a, b := FreshKeepsOfferedOrder(ids, w.dedupe, q, p);
        OneFirstMention(ids, a, j, y);
        OneFirstMention(ids, b, i, x);
      }
    }
  }

  lemma OneFirstMention(ids: seq<Id>, i: nat, j: nat, x: Id)
    requires FirstMention(ids, i, x) && FirstMention(ids, j, x)
    ensures i == j
  {
    if i < j {
      InPrefix(ids, i, j);
    } else if j < i {
      InPrefix(ids, j, i);
    }
  }

  lemma InPrefix(ids: seq<Id>, i: nat, j: nat)
    requires i < j <= |ids|
    ensures ids[i] in ids[..j]
  {
    assert ids[..j][i] == ids[i];
  }

  /** One more turn of the REQUEUE_LUA loop. */
  lemma ReleaseOneMore(w: Window, ids: seq<Id>, id: Id)
    ensures Release(w, ids + [id]) == Complete(Release(w, ids), id)
    ensures |Evicted(w, ids + [id])| == |Evicted(w, ids)| + (if id in Release(w, ids).inFlight then 1 else 0)
  {
    assert Elems(ids + [id]) == Elems(ids) + {id};
    DropTwice(w.inFlight, Elems(ids), {id});
    if id in Release(w, ids).inFlight {
      assert Evicted(w, ids + [id]) == Evicted(w, ids) + {id};
    } else {
      assert Evicted(w, ids + [id]) == Evicted(w, ids);
    }
  }

  // ---- Exactness: the state in which every mark is one resident id and no id is resident twice

  ghost predicate Exact(w: Window) {
    && Distinct(w.ready + w.inFlight)
    && w.dedupe == Resident(w)
  }

  lemma ExactParts(w: Window)
    requires Exact(w)
    ensures Distinct(w.ready) && Distinct(w.inFlight)
    ensures forall x :: x in w.ready ==> x !in w.inFlight
    ensures forall x :: x in w.dedupe <==> x in w.ready || x in w.inFlight
  {
    var all := w.ready + w.inFlight;
    forall i, j | 0 <= i < j < |w.ready| ensures w.ready[i] != w.ready[j] {
      assert all[i] != all[j];
    }
    forall i, j | 0 <= i < j < |w.inFlight| ensures w.inFlight[i] != w.inFlight[j] {
      assert all[|w.ready| + i] != all[|w.ready| + j];
    }
    forall i, j | 0 <= i < |w.ready| && 0 <= j < |w.inFlight| ensures w.ready[i] != w.inFlight[j] {
      assert all[i] != all[|w.ready| + j];
    }
  }

  lemma ExactFromParts(w: Window)
    requires Distinct(w.ready) && Distinct(w.inFlight)
    requires forall x :: x in w.ready ==> x !in w.inFlight
    requires w.dedupe == Resident(w)
    ensures Exact(w)
  {
    var all := w.ready + w.inFlight;
    forall i, j | 0 <= i < j < |all| ensures all[i] != all[j] {
      if i < |w.ready| <= j {
        assert all[i] in w.ready && all[j] in w.inFlight;
      }
    }
  }

  lemma EnqueueKeepsExact(w: Window, capacity: int, ids: seq<Id>)
    requires Exact(w)
    ensures Exact(Enqueue(w, capacity, ids))
  {
    ExactParts(w);
    var accepted := Accepted(w, capacity, ids);
    var ready := w.ready + accepted;
    forall i, j | 0 <= i < j < |ready| ensures ready[i] != ready[j] {
      if i < |w.ready| <= j {
        assert ready[i] in w.ready && ready[j] in accepted;
      }
    }
    ExactFromParts(Enqueue(w, capacity, ids));
  }

  lemma PopKeepsExact(w: Window)
    requires Exact(w) && w.ready != []
    ensures Exact(Pop(w))
    ensures forall x :: x in Pop(w).ready <==> x in w.ready && x != w.ready[0]
    ensures forall x :: x in Pop(w).inFlight <==> x in w.inFlight || x == w.ready[0]
    ensures Pop(w).dedupe == w.dedupe
  {
    ExactParts(w);
    var x, w' := w.ready[0], Pop(w);
    assert w.ready == [x] + w'.ready;
    forall i, j | 0 <= i < j < |w'.inFlight| ensures w'.inFlight[i] != w'.inFlight[j] {
      assert w'.inFlight[i] in w.inFlight;
    }
    ExactFromParts(w');
  }

  /** `release` keeps the marks exact precisely when nothing it is given is still ready: REQUEUE_LUA
      drops the mark without looking at the ready list. */
  lemma ReleaseKeepsExactIff(w: Window, ids: seq<Id>)
    requires Exact(w)
    ensures Exact(Release(w, ids)) <==> forall id :: id in ids ==> id !in w.ready
  {
    ExactParts(w);
    var w' := Release(w, ids);
    if forall id :: id in ids ==> id !in w.ready {
      DropKeepsDistinct(w.inFlight, Elems(ids));
      assert w'.dedupe == Resident(w');
      ExactFromParts(w');
    } else {
      var id :| id in ids && id in w.ready;
      assert id in Resident(w') && id !in w'.dedupe;
    }
  }

  ghost predicate AnswersAbsence(w: Window, ids: seq<Id>) {
    forall id :: id in NotInWindow(w, ids) <==> id in ids && id !in Resident(w)
  }

  /** Asking the marks who is absent is answered rightly for every list if and only if they are exactly
      the residents. */
  lemma AbsenceIsAnsweredIff(w: Window)
    ensures (forall ids: seq<Id> :: AnswersAbsence(w, ids)) <==> w.dedupe == Resident(w)
  {
    if w.dedupe != Resident(w) {
      var id: Id :| (id in w.dedupe) != (id in Resident(w));
      assert id in [id];
      assert !AnswersAbsence(w, [id]);
    }
  }

  lemma CompleteIsReleaseOfOne(w: Window, id: Id)
    ensures Complete(w, id) == Release(w, [id])
  {
    assert Elems([id]) == {id};
  }

  /** A completion by the worker that holds the id frees exactly one slot and one mark. */
  lemma CompleteFreesOneSlot(w: Window, id: Id)
    requires Exact(w) && id in w.inFlight
    ensures var w' := Complete(w, id);
            && Exact(w')
            && Occupancy(w') == Occupancy(w) - 1
            && Resident(w') == Resident(w) - {id}
  {
    ExactParts(w);
    CompleteIsReleaseOfOne(w, id);
    ReleaseKeepsExactIff(w, [id]);
    DropOne(w.inFlight, id);
    assert Resident(Complete(w, id)) == Resident(w) - {id};
  }

  /** Completing twice is the same as completing once. */
  lemma CompleteTwice(w: Window, id: Id)
    ensures Complete(Complete(w, id), id) == Complete(w, id)
  {
    DropTwice(w.inFlight, {id}, {id});
    assert {id} + {id} == {id};
  }

  // ---- Runs of arbitrary operations ------------------------------------------------------

  /** Everything any number of schedulers and workers can do to the three keys.  `Offer` covers a
      publish whose reply was lost, and `Done`/`Evict` may be late, repeated or about ids that were
      never offered: nothing here assumes that callers behave. */
  datatype Operation = Offer(ids: seq<Id>) | Take | Done(id: Id) | Evict(ids: seq<Id>)

  datatype History = History(window: Window, accepted: seq<Id>, claimed: seq<Id>)

  function Perform(h: History, capacity: int, op: Operation): History {
    match op
    case Offer(ids) =>
      History(Enqueue(h.window, capacity, ids), h.accepted + Accepted(h.window, capacity, ids), h.claimed)
    case Take =>
      if h.window.ready == [] then h
      else History(Pop(h.window), h.accepted, h.claimed + [h.window.ready[0]])
    case Done(id) =>
      h.(window := Complete(h.window, id))
    case Evict(ids) =>
      h.(window := Release(h.window, ids))
  }

  function PerformAll(capacity: int, ops: seq<Operation>): History {
    if ops == [] then History(EMPTY, [], [])
    else Perform(PerformAll(capacity, ops[..|ops| - 1]), capacity, ops[|ops| - 1])
  }

  ghost predicate Sound(h: History, capacity: int) {
    && Occupancy(h.window) <= capacity
    && h.window.dedupe <= Resident(h.window)
    && h.claimed + h.window.ready == h.accepted
  }

  lemma OperationKeepsSound(h: History, capacity: int, op: Operation)
    requires Sound(h, capacity)
    ensures Sound(Perform(h, capacity, op), capacity)
  {
    var w, h' := h.window, Perform(h, capacity, op);
    match op
    case Offer(ids) =>
      assert (h.claimed + w.ready) + Accepted(w, capacity, ids) == h.claimed + (w.ready + Accepted(w, capacity, ids));
      assert Elems(h'.window.ready) == Elems(w.ready) + Elems(Accepted(w, capacity, ids));
    case Take =>
      if w.ready != [] {
        assert (h.claimed + [w.ready[0]]) + w.ready[1..] == h.claimed + ([w.ready[0]] + w.ready[1..]);
        assert w.ready == [w.ready[0]] + w.ready[1..];
        forall x | x in w.dedupe ensures x in Resident(h'.window) {
          assert x in w.ready || x in w.inFlight;
        }
      }
    case Done(id) =>
    case Evict(ids) =>
  }

  /** The cap, the absence of ghost marks and first-in-first-out hand-over hold after every sequence
      of operations whatsoever. */
  lemma {:induction false} WindowIsAlwaysSound(capacity: nat, ops: seq<Operation>)
    ensures Sound(PerformAll(capacity, ops), capacity)
  {
    if ops != [] {
      WindowIsAlwaysSound(capacity, ops[..|ops| - 1]);
      OperationKeepsSound(PerformAll(capacity, ops[..|ops| - 1]), capacity, ops[|ops| - 1]);
    }
  }

  /** After any sequence of operations, an id that is in neither list is accepted as soon as there is
      room for it: no leftover mark can refuse it. */
  lemma AbsentIdIsNeverRefused(capacity: nat, ops: seq<Operation>, id: Id)
    ensures var w := PerformAll(capacity, ops).window;
            id !in w.ready && id !in w.inFlight && Occupancy(w) < capacity
            ==> Accepted(w, capacity, [id]) == [id]
  {
    WindowIsAlwaysSound(capacity, ops);
    var w := PerformAll(capacity, ops).window;
    if id !in w.ready && id !in w.inFlight && Occupancy(w) < capacity {
      assert id !in w.dedupe;
      assert Fresh([id], w.dedupe) == [id];
    }
  }
}
