/** The three Redis keys as mutable state, and the Lua scripts as the loops they are.  Every method
    is one atomic script or command; its meaning is the function of the same name in WindowSpec. */
module RedisQueue {
  import opened Basics
  import WindowSpec

  class RedisWindowQueue {
    const capacity: int
    var ready: seq<Id>
    var inFlight: seq<Id>
    var dedupe: set<Id>

    constructor (capacity: int)
      ensures this.capacity == capacity && State() == WindowSpec.EMPTY
    {
      this.capacity := capacity;
      ready, inFlight, dedupe := [], [], {};
    }

    ghost function State(): WindowSpec.Window
      reads this
    {
      WindowSpec.Window(ready, inFlight, dedupe)
    }

    /** ENQUEUE_LUA: SADD decides, RPUSH follows, and the capacity is looked at again each time. */
    method Enqueue(ids: seq<Id>) returns (accepted: seq<Id>)
      modifies this
      ensures accepted == WindowSpec.Accepted(old(State()), capacity, ids)
      ensures State() == WindowSpec.Enqueue(old(State()), capacity, ids)
    {
      ghost var w0 := State();
      ghost var room := WindowSpec.Room(w0, capacity);
      ghost var novel := WindowSpec.Fresh(ids, dedupe);
      accepted := [];
      var occupancy := |ready| + |inFlight|;
      var i := 0;
      while i < |ids| && occupancy < capacity
        invariant 0 <= i <= |ids|
        invariant occupancy == WindowSpec.Occupancy(w0) + |accepted|
        invariant |accepted| <= room
        invariant ready == w0.ready + accepted && inFlight == w0.inFlight
        invariant dedupe == w0.dedupe + Elems(accepted)
        invariant novel == accepted + WindowSpec.Fresh(ids[i..], dedupe)
        decreases |ids| - i
      {
        var id := ids[i];
        assert ids[i..][1..] == ids[i + 1..];
        if id !in dedupe {
          assert novel == (accepted + [id]) + WindowSpec.Fresh(ids[i + 1..], dedupe + {id});
          dedupe := dedupe + {id};
          ready := ready + [id];
          occupancy := occupancy + 1;
          accepted := accepted + [id];
        }
        i := i + 1;
      }
      assert ids[|ids|..] == [];
      assert accepted == novel[..Min(|novel|, room)];
    }

    /** BLMOVE LEFT RIGHT; None when the timeout passes with nothing ready. */
    method Claim() returns (id: Option<Id>)
      modifies this
      ensures old(ready) == [] ==> id == None && State() == old(State())
      ensures old(ready) != [] ==> id == Some(old(ready)[0]) && State() == WindowSpec.Pop(old(State()))
    {
      if ready == [] {
        return None;
      }
      id := Some(ready[0]);
      ready, inFlight := ready[1..], inFlight + [ready[0]];
    }

    /** COMPLETE_LUA. */
    method Complete(id: Id)
      modifies this
      ensures State() == WindowSpec.Complete(old(State()), id)
    {
      inFlight := Drop(inFlight, {id});
      dedupe := dedupe - {id};
    }

    /** REQUEUE_LUA; the count is of distinct given ids that were in flight. */
    method Release(ids: seq<Id>) returns (count: nat)
      modifies this
      ensures State() == WindowSpec.Release(old(State()), ids)
      ensures count == |WindowSpec.Evicted(old(State()), ids)|
    {
      ghost var w0 := State();
      count := 0;
      DropNothing(inFlight, Elems(ids[..0]));
      assert dedupe - Elems(ids[..0]) == dedupe;
      for i := 0 to |ids|
        invariant State() == WindowSpec.Release(w0, ids[..i])
        invariant count == |WindowSpec.Evicted(w0, ids[..i])|
      {
        var id := ids[i];
        assert ids[..i + 1] == ids[..i] + [id];
        WindowSpec.ReleaseOneMore(w0, ids[..i], id);
        // LREM answers how many it removed; it removed some exactly when the id was there.
        if id in inFlight {
          count := count + 1;
        }
        inFlight := Drop(inFlight, {id});
        dedupe := dedupe - {id};
      }
      assert ids[..|ids|] == ids;
    }

    /** The orphan sweep's membership question, answered by the dedupe set alone. */
    method NotInWindow(ids: seq<Id>) returns (absent: seq<Id>)
      ensures absent == WindowSpec.NotInWindow(State(), ids)
    {
      absent := Drop(ids, dedupe);
    }

    method CurrentOccupancy() returns (n: nat)
      ensures n == WindowSpec.Occupancy(State())
    {
      n := |ready| + |inFlight|;
    }

    method AvailableCapacity() returns (room: nat)
      ensures room == WindowSpec.Room(State(), capacity)
    {
      var occupancy := CurrentOccupancy();
      room := Max(0, capacity - occupancy);
    }
  }
}
