/** Vocabulary shared by every module: optional values, delivery ids, and the few facts about
    sequences that the window and the tables rest on. */
module Basics {

  datatype Option<+T> = None | Some(value: T)

  // Deliveries, events, webhooks and tokens carry UUIDs; only equality of ids is ever used.
  type Id = nat

  function Min(a: int, b: int): int {
    if a <= b then a else b
  }

  function Max(a: int, b: int): int {
    if a <= b then b else a
  }

  function Elems<T>(s: seq<T>): set<T> {
    set x | x in s
  }

  ghost predicate Distinct<T>(s: seq<T>) {
    forall i, j :: 0 <= i < j < |s| ==> s[i] != s[j]
  }

  /** The members of `s` that are not in `gone`, in order. */
  function Drop(s: seq<Id>, gone: set<Id>): (r: seq<Id>)
    ensures |r| <= |s|
    ensures forall x :: x in r <==> x in s && x !in gone
  {
    if s == [] then []
    else if s[0] in gone then Drop(s[1..], gone)
    else [s[0]] + Drop(s[1..], gone)
  }

  lemma {:induction false} DropKeepsDistinct(s: seq<Id>, gone: set<Id>)
    requires Distinct(s)
    ensures Distinct(Drop(s, gone))
  {
    if s != [] {
      DropKeepsDistinct(s[1..], gone);
    }
  }

  lemma {:induction false} DropTwice(s: seq<Id>, a: set<Id>, b: set<Id>)
    ensures Drop(Drop(s, a), b) == Drop(s, a + b)
  {
    if s != [] {
      DropTwice(s[1..], a, b);
      if s[0] !in a {
        assert Drop(s, a)[0] == s[0] && Drop(s, a)[1..] == Drop(s[1..], a);
      }
    }
  }

  lemma {:induction false} DropNothing(s: seq<Id>, gone: set<Id>)
    requires forall x :: x in gone ==> x !in s
    ensures Drop(s, gone) == s
  {
    if s != [] {
      assert s[0] in s;
      DropNothing(s[1..], gone);
    }
  }

  lemma {:induction false} DropAll(s: seq<Id>, gone: set<Id>)
    requires forall x :: x in s ==> x in gone
    ensures Drop(s, gone) == []
  {
    if s != [] {
      assert s[0] in s;
      DropAll(s[1..], gone);
    }
  }

  lemma {:induction false} DropOne(s: seq<Id>, x: Id)
    requires Distinct(s) && x in s
    ensures |Drop(s, {x})| == |s| - 1
  {
    if s[0] == x {
      DropNothing(s[1..], {x});
    } else {
      DropOne(s[1..], x);
    }
  }

  lemma {:induction false} DistinctCardinality<T>(s: seq<T>)
    requires Distinct(s)
    ensures |Elems(s)| == |s|
  {
    if s != [] {
      DistinctCardinality(s[1..]);
      assert Elems(s) == {s[0]} + Elems(s[1..]);
    }
  }
}
