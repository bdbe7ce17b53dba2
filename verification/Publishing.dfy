/** Idempotent publish: any number of calls, each a check, a listing of webhooks, an insert guarded by
    the unique index, and a lookup after a violation, interleaved in any order. */
module Publishing {
  import opened Basics
  import Text

  datatype Event = Event(project: Id, key: Option<string>)

  /** Where one call of publishEvent stands. */
  datatype Call =
    | Checking(project: Id, key: Option<string>)
    | Listing(project: Id, key: Option<string>)
    | Inserting(project: Id, key: Option<string>, webhooks: seq<Id>)
    | Resolving(project: Id, key: Option<string>)          // caught the unique violation
    | Counting(project: Id, key: Option<string>, id: Id)   // found an event, deliveries not yet counted
    | Finished(project: Id, key: Option<string>, id: Id, deliveryCount: nat, deduplicated: bool)
    | Failed(project: Id, key: Option<string>)

  datatype Request = Request(project: Id, header: Option<string>)

  /** `deliveries` holds the webhook of each delivery of an event; `asked` remembers the request of each
      call, and `listed` what it read from the webhooks table. */
  datatype State = State(
    events: map<Id, Event>,
    deliveries: map<Id, seq<Id>>,
    calls: map<nat, Call>,
    asked: map<nat, Request>,
    listed: map<nat, seq<Id>>)

  datatype Step =
    | Arrive(c: nat, project: Id, header: Option<string>)
    | Check(c: nat, found: Option<Id>)
    | List(c: nat, webhooks: seq<Id>)
    | Insert(c: nat, id: Id)
    | Resolve(c: nat, found: Option<Id>)
    | CountUp(c: nat)

  const KEY_LIMIT := 255

  predicate Admitted(key: Option<string>) {
    key.Some? ==> 1 <= |key.value| <= KEY_LIMIT
  }

  /** The route's reading of the Idempotency-Key header: trimmed, optional, and refused when blank or too
      long.  A refused request never becomes a call. */
  function ParseKey(header: Option<string>): (key: Option<Option<string>>)
    ensures key.Some? ==> Admitted(key.value) && (key.value.Some? <==> header.Some?)
    ensures key.None? <==> header.Some? && !(1 <= |Text.Trim(header.value)| <= KEY_LIMIT)
  {
    if header.None? then Some(None)
    else
      var trimmed := Text.Trim(header.value);
      if 1 <= |trimmed| <= KEY_LIMIT then Some(Some(trimmed)) else None
  }

  /** The key is the whole header but for the blanks around it: a header is admitted with a key exactly when
      it is that key with blanks around it, and the key has 1 to 255 characters. */
  lemma KeyIsHeaderBetweenBlanks(header: string, key: string)
    ensures ParseKey(Some(header)) == Some(Some(key)) <==> Text.Surrounds(header, key) && 1 <= |key| <= 255
    ensures ParseKey(None) == Some(None)
  {
    Text.TrimIff(header, key);
  }

  /** Two headers are one text with different blanks around it. */
  ghost predicate SameButBlanks(a: string, b: string) {
    exists core :: Text.Surrounds(a, core) && Text.Surrounds(b, core)
  }

  lemma SameKeyIff(a: string, b: string)
    requires ParseKey(Some(a)).Some? && ParseKey(Some(b)).Some?
    ensures ParseKey(Some(a)) == ParseKey(Some(b)) <==> SameButBlanks(a, b)
  {
    KeyIsHeaderBetweenBlanks(a, ParseKey(Some(a)).value.value);
    KeyIsHeaderBetweenBlanks(b, ParseKey(Some(b)).value.value);
    if core :| Text.Surrounds(a, core) && Text.Surrounds(b, core) {
      Text.TrimIff(a, core);
      Text.TrimIff(b, core);
      Text.TrimIff(a, ParseKey(Some(a)).value.value);
      Text.TrimIff(b, ParseKey(Some(b)).value.value);
    }
  }

  /** `if (idempotencyKey)`: an empty key counts as none. */
  predicate Truthy(key: Option<string>) {
    key.Some? && key.value != ""
  }

  predicate Matches(s: State, id: Id, project: Id, key: Option<string>) {
    id in s.events && s.events[id] == Event(project, key)
  }

  ghost predicate Taken(s: State, project: Id, key: Option<string>) {
    exists id :: Matches(s, id, project, key)
  }

  ghost predicate Answers(s: State, found: Option<Id>, project: Id, key: Option<string>) {
    if found.Some? then Matches(s, found.value, project, key) else !Taken(s, project, key)
  }

  ghost predicate Enabled(s: State, step: Step) {
    match step
    case Arrive(c, _, header) => c !in s.calls && ParseKey(header).Some?
    case Check(c, found) =>
      && c in s.calls && s.calls[c].Checking?
      && (Truthy(s.calls[c].key) ==> Answers(s, found, s.calls[c].project, s.calls[c].key))
    case List(c, _) => c in s.calls && s.calls[c].Listing?
    case Insert(c, id) => c in s.calls && s.calls[c].Inserting? && id !in s.events
    case Resolve(c, found) =>
      c in s.calls && s.calls[c].Resolving? && Answers(s, found, s.calls[c].project, s.calls[c].key)
    case CountUp(c) => c in s.calls && s.calls[c].Counting? && s.calls[c].id in s.deliveries
  }

  ghost function Apply(s: State, step: Step): State
    requires Enabled(s, step)
  {
    match step
    case Arrive(c, project, header) =>
      s.(calls := s.calls[c := Checking(project, ParseKey(header).value)], asked := s.asked[c := Request(project, header)])
    case Check(c, found) =>
      var me := s.calls[c];
      s.(calls := s.calls[c :=
        if Truthy(me.key) && found.Some? then Counting(me.project, me.key, found.value) else Listing(me.project, me.key)])
    case List(c, webhooks) =>
      var me := s.calls[c];
      s.(calls := s.calls[c := Inserting(me.project, me.key, webhooks)], listed := s.listed[c := webhooks])
    case Insert(c, id) =>
      var me := s.calls[c];
      if me.key.Some? && Taken(s, me.project, me.key) then
        s.(calls := s.calls[c := if Truthy(me.key) then Resolving(me.project, me.key) else Failed(me.project, me.key)])
      else
        s.(events := s.events[id := Event(me.project, me.key)],
           deliveries := s.deliveries[id := me.webhooks],
           calls := s.calls[c := Finished(me.project, me.key, id, |me.webhooks|, false)])
    case Resolve(c, found) =>
      var me := s.calls[c];
      s.(calls := s.calls[c :=
        if found.Some? then Counting(me.project, me.key, found.value) else Failed(me.project, me.key)])
    case CountUp(c) =>
      var me := s.calls[c];
      s.(calls := s.calls[c := Finished(me.project, me.key, me.id, |s.deliveries[me.id]|, true)])
  }

  const INITIAL := State(map[], map[], map[], map[], map[])

  ghost function Run(steps: seq<Step>): Option<State> {
    if steps == [] then Some(INITIAL)
    else
      var before := Run(steps[..|steps| - 1]);
      if before.Some? && Enabled(before.value, steps[|steps| - 1])
      then Some(Apply(before.value, steps[|steps| - 1]))
      else None
  }

  // ---- The invariant ---------------------------------------------------------------------

  ghost predicate OnePerKey(s: State) {
    forall i, j :: i in s.events && j in s.events && s.events[i] == s.events[j] && s.events[i].key.Some? ==> i == j
  }

  predicate Created(s: State, c: nat, id: Id) {
    c in s.calls && s.calls[c].Finished? && s.calls[c].id == id && !s.calls[c].deduplicated
  }

  ghost predicate CallSound(s: State, c: nat)
    requires c in s.calls
  {
    Admitted(s.calls[c].key) &&
    match s.calls[c]
    case Checking(_, _) => true
    case Listing(_, _) => true
    case Inserting(_, _, webhooks) => c in s.listed && s.listed[c] == webhooks
    case Resolving(project, key) => Truthy(key) && Taken(s, project, key)
    case Counting(project, key, id) => Truthy(key) && Matches(s, id, project, key)
    case Finished(project, key, id, count, deduplicated) =>
      && Matches(s, id, project, key) && id in s.deliveries && count == |s.deliveries[id]|
      && (deduplicated ==> Truthy(key))
      && (!deduplicated ==> c in s.listed && s.deliveries[id] == s.listed[c])
    case Failed(_, _) => false
  }

  ghost predicate Sound(s: State) {
    && OnePerKey(s)
    && s.deliveries.Keys == s.events.Keys
    && (forall c :: c in s.calls ==> CallSound(s, c))
    && (forall id :: id in s.events ==> exists c :: Created(s, c, id))
    && (forall b, c, id :: Created(s, b, id) && Created(s, c, id) ==> b == c)
  }

  /** The index refuses: no table changes, and the call goes on to look the event up. */
  lemma ViolationKeepsSound(s: State, c: nat, id: Id)
    requires Sound(s) && Enabled(s, Insert(c, id))
    requires s.calls[c].key.Some? && Taken(s, s.calls[c].project, s.calls[c].key)
    ensures Sound(Apply(s, Insert(c, id)))
  {
    var s', me := Apply(s, Insert(c, id)), s.calls[c];
    var x :| Matches(s, x, me.project, me.key);
    assert Matches(s', x, me.project, me.key);
    forall b | b in s'.calls ensures CallSound(s', b) {
      if b != c {
        StaysSound(s, s', b);
      }
    }
    forall x | x in s'.events ensures exists b :: Created(s', b, x) {
      var b :| Created(s, b, x);
      assert Created(s', b, x);
    }
    forall a, b, x | Created(s', a, x) && Created(s', b, x) ensures a == b {
      assert Created(s, a, x) && Created(s, b, x);
    }
  }

  lemma CreationKeepsSound(s: State, c: nat, id: Id)
    requires Sound(s) && Enabled(s, Insert(c, id))
    requires !(s.calls[c].key.Some? && Taken(s, s.calls[c].project, s.calls[c].key))
    ensures Sound(Apply(s, Insert(c, id)))
  {
    var s', me := Apply(s, Insert(c, id)), s.calls[c];
    assert CallSound(s, c);
    forall x | x in s.events && me.key.Some? ensures s.events[x] != Event(me.project, me.key) {
      assert !Matches(s, x, me.project, me.key);
    }
    forall b | b in s'.calls ensures CallSound(s', b) {
      if b != c {
        StaysSound(s, s', b);
      }
    }
    forall x | x in s'.events ensures exists b :: Created(s', b, x) {
      if x == id {
        assert Created(s', c, id);
      } else {
        var b :| Created(s, b, x);
        assert b != c && Created(s', b, x);
      }
    }
    forall a, b, x | Created(s', a, x) && Created(s', b, x) ensures a == b {
      assert a != c ==> Created(s, a, x) && CallSound(s, a);
      assert b != c ==> Created(s, b, x) && CallSound(s, b);
    }
  }

  /** A call that a step does not advance keeps what it knows, because events are never removed. */
  lemma StaysSound(s: State, s': State, b: nat)
    requires b in s.calls && b in s'.calls && s'.calls[b] == s.calls[b] && CallSound(s, b)
    requires b in s.listed ==> b in s'.listed && s'.listed[b] == s.listed[b]
    requires forall id :: id in s.events ==> id in s'.events && s'.events[id] == s.events[id]
    requires forall id :: id in s.deliveries ==> id in s'.deliveries && s'.deliveries[id] == s.deliveries[id]
    ensures CallSound(s', b)
  {
    var me := s.calls[b];
    if Taken(s, me.project, me.key) {
      var x :| Matches(s, x, me.project, me.key);
      assert Matches(s', x, me.project, me.key);
    }
  }

  lemma OtherStepKeepsCalls(s: State, step: Step, b: nat)
    requires Sound(s) && Enabled(s, step) && !step.Insert? && b in Apply(s, step).calls
    ensures CallSound(Apply(s, step), b)
  {
    if b == step.c {
      assert !step.Arrive? ==> CallSound(s, b);
    } else {
      StaysSound(s, Apply(s, step), b);
    }
  }

  lemma SameCreators(s: State, step: Step, b: nat, x: Id)
    requires Enabled(s, step) && !step.Insert?
    ensures Created(Apply(s, step), b, x) <==> Created(s, b, x)
  {
  }

  lemma OtherStepKeepsSound(s: State, step: Step)
    requires Sound(s) && Enabled(s, step) && !step.Insert?
    ensures Sound(Apply(s, step))
  {
    var s' := Apply(s, step);
    forall b | b in s'.calls ensures CallSound(s', b) {
      OtherStepKeepsCalls(s, step, b);
    }
    forall b, x ensures Created(s', b, x) <==> Created(s, b, x) {
      SameCreators(s, step, b, x);
    }
  }

  lemma {:induction false} RunKeepsSound(steps: seq<Step>)
    requires Run(steps).Some?
    ensures Sound(Run(steps).value)
  {
    if steps != [] {
      var before, step := steps[..|steps| - 1], steps[|steps| - 1];
      RunKeepsSound(before);
      match step
      case Insert(c, id) =>
        var s := Run(before).value;
        if s.calls[c].key.Some? && Taken(s, s.calls[c].project, s.calls[c].key) {
          ViolationKeepsSound(s, c, id);
        } else {
          CreationKeepsSound(s, c, id);
        }
      case _ => OtherStepKeepsSound(Run(before).value, step);
    }
  }

  /** Each call works for the project and the key that its request named. */
  ghost predicate Keyed(s: State) {
    forall c :: c in s.calls ==>
      c in s.asked && s.asked[c].project == s.calls[c].project && ParseKey(s.asked[c].header) == Some(s.calls[c].key)
  }

  lemma StepKeepsKeyed(s: State, step: Step)
    requires Keyed(s) && Enabled(s, step)
    ensures Keyed(Apply(s, step))
  {
  }

  lemma {:induction false} RunKeepsKeyed(steps: seq<Step>)
    requires Run(steps).Some?
    ensures Keyed(Run(steps).value)
  {
    if steps != [] {
      RunKeepsKeyed(steps[..|steps| - 1]);
      StepKeepsKeyed(Run(steps[..|steps| - 1]).value, steps[|steps| - 1]);
    }
  }

  // ---- What callers see --------------------------------------------------------------------

  ghost predicate Asked(s: State, c: nat, project: Id, key: Option<string>) {
    c in s.calls && s.calls[c].project == project && s.calls[c].key == key
  }

  /** Whatever the interleaving, at most one event exists for a project and a key; every call that
      finished for them returned its id and its number of deliveries, exactly one of these says that it
      created it, and its deliveries are one for each webhook that call had listed. */
  lemma PublishIsIdempotent(steps: seq<Step>, project: Id, key: string, c: nat) returns (creator: nat)
    requires Run(steps).Some? && Asked(Run(steps).value, c, project, Some(key)) && Run(steps).value.calls[c].Finished?
    ensures var s, id := Run(steps).value, Run(steps).value.calls[c].id;
            && (forall x :: Matches(s, x, project, Some(key)) <==> x == id)
            && (forall b :: Asked(s, b, project, Some(key)) && s.calls[b].Finished? ==>
                  s.calls[b].id == id && id in s.deliveries && s.calls[b].deliveryCount == |s.deliveries[id]|)
            && (forall b :: Asked(s, b, project, Some(key)) && s.calls[b].Finished? ==> (!s.calls[b].deduplicated <==> b == creator))
            && Asked(s, creator, project, Some(key)) && s.calls[creator].Finished?
            && creator in s.listed && id in s.deliveries && s.deliveries[id] == s.listed[creator]
  {
    RunKeepsSound(steps);
    var s := Run(steps).value;
    var id := s.calls[c].id;
    assert CallSound(s, c);
    creator :| Created(s, creator, id);
    assert CallSound(s, creator);
    forall b | Asked(s, b, project, Some(key)) && s.calls[b].Finished? ensures CallSound(s, b) {
    }
    forall b | Asked(s, b, project, Some(key)) && s.calls[b].Finished? ensures !s.calls[b].deduplicated <==> b == creator {
      assert CallSound(s, b);
      assert !s.calls[b].deduplicated ==> Created(s, b, id);
    }
  }

  /** Two finished calls answer with one event exactly when they were one project's and both carried the
      header, with the same text but for the blanks around it; every other two answer with two events. */
  lemma SameEventIff(steps: seq<Step>, b: nat, c: nat)
    requires Run(steps).Some? && b != c
    requires b in Run(steps).value.calls && Run(steps).value.calls[b].Finished?
    requires c in Run(steps).value.calls && Run(steps).value.calls[c].Finished?
    ensures var s := Run(steps).value;
            && b in s.asked && c in s.asked
            && (s.calls[b].id == s.calls[c].id <==>
                  && s.asked[b].project == s.asked[c].project
                  && s.asked[b].header.Some? && s.asked[c].header.Some?
                  && SameButBlanks(s.asked[b].header.value, s.asked[c].header.value))
  {
    RunKeepsSound(steps);
    RunKeepsKeyed(steps);
    var s := Run(steps).value;
    assert CallSound(s, b) && CallSound(s, c);
    if s.asked[b].header.Some? && s.asked[c].header.Some? {
      SameKeyIff(s.asked[b].header.value, s.asked[c].header.value);
    }
    if s.calls[b].id == s.calls[c].id && (s.asked[b].header.None? || s.asked[c].header.None?) {
      assert Created(s, b, s.calls[b].id) && Created(s, c, s.calls[b].id);
    }
  }

  /** No call ever fails: whatever the interleaving, a violation of the unique index is always resolved to
      the event that caused it. */
  lemma NoCallFails(steps: seq<Step>, c: nat)
    requires Run(steps).Some? && c in Run(steps).value.calls
    ensures !Run(steps).value.calls[c].Failed?
  {
    RunKeepsSound(steps);
    assert CallSound(Run(steps).value, c);
  }

  /** How many steps of its own a call still has to take, at most. */
  function StepsLeft(call: Call): nat {
    match call
    case Checking(_, _) => 5
    case Listing(_, _) => 4
    case Inserting(_, _, _) => 3
    case Resolving(_, _) => 2
    case Counting(_, _, _) => 1
    case Finished(_, _, _, _, _) => 0
    case Failed(_, _) => 0
  }

  /** The answer of a lookup by key. */
  lemma Lookup(s: State, project: Id, key: Option<string>) returns (found: Option<Id>)
    ensures Answers(s, found, project, key)
  {
    if id :| Matches(s, id, project, key) {
      found := Some(id);
    } else {
      found := None;
    }
  }

  lemma UnusedId(used: set<Id>) returns (unused: Id)
    ensures forall id :: id in used ==> id < unused
    decreases used
  {
    unused := 0;
    if x :| x in used {
      var above := UnusedId(used - {x});
      unused := if x < above then above else x + 1;
      assert forall id :: id in used ==> id == x || id in used - {x};
    }
  }

  /** A call that has not finished can always take a step of its own, and comes closer to its end. */
  lemma CallCanStep(steps: seq<Step>, c: nat) returns (step: Step)
    requires Run(steps).Some? && c in Run(steps).value.calls && !Run(steps).value.calls[c].Finished?
    ensures step.c == c && Enabled(Run(steps).value, step)
    ensures var s' := Apply(Run(steps).value, step);
            c in s'.calls && StepsLeft(s'.calls[c]) < StepsLeft(Run(steps).value.calls[c])
  {
    RunKeepsSound(steps);
    var s := Run(steps).value;
    var me := s.calls[c];
    assert CallSound(s, c);
    match me
    case Checking(project, key) =>
      var found := Lookup(s, project, key);
      step := Check(c, found);
    case Listing(_, _) => step := List(c, []);
    case Inserting(_, _, _) =>
      var id := UnusedId(s.events.Keys);
      step := Insert(c, id);
    case Resolving(project, key) =>
      var found := Lookup(s, project, key);
      step := Resolve(c, found);
    case Counting(_, _, _) => step := CountUp(c);
  }

  /** From every reachable state, every call can be run to its end, alone. */
  lemma {:induction false} EveryCallCanFinish(steps: seq<Step>, c: nat) returns (more: seq<Step>)
    requires Run(steps).Some? && c in Run(steps).value.calls
    ensures Run(steps + more).Some? && c in Run(steps + more).value.calls && Run(steps + more).value.calls[c].Finished?
    decreases StepsLeft(Run(steps).value.calls[c])
  {
    if Run(steps).value.calls[c].Finished? {
      assert steps + [] == steps;
      return [];
    }
    var step := CallCanStep(steps, c);
    assert (steps + [step])[..|steps|] == steps;
    var rest := EveryCallCanFinish(steps + [step], c);
    assert steps + ([step] + rest) == (steps + [step]) + rest;
    more := [step] + rest;
  }
}
