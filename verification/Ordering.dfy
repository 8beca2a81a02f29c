/** Ascending enumeration of finite sets of naturals: what `sorted(...)` and `min(...)` give. */
module Ordering {

  lemma {:induction false} MinBelow(s: set<nat>, y: nat) returns (m: nat)
    requires y in s
    ensures m in s && forall x :: x in s ==> m <= x
    decreases y
  {
    if z: nat :| z in s && z < y {
      m := MinBelow(s, z);
    } else {
      m := y;
    }
  }

  lemma MinExists(s: set<nat>)
    requires s != {}
    ensures exists m :: m in s && forall x :: x in s ==> m <= x
  {
    var y :| y in s;
    var m := MinBelow(s, y);
  }

  /** The least member of a non-empty set. */
  function Min(s: set<nat>): (m: nat)
    requires s != {}
    ensures m in s
    ensures forall x :: x in s ==> m <= x
  {
    MinExists(s);
    var m :| m in s && forall x :: x in s ==> m <= x;
    m
  }

  ghost predicate Ascending(xs: seq<nat>) {
    forall i, j :: 0 <= i < j < |xs| ==> xs[i] < xs[j]
  }

  /** The members of `s`, each once, in ascending order. */
  function Sorted(s: set<nat>): (xs: seq<nat>)
    ensures Ascending(xs)
    ensures forall x :: x in xs <==> x in s
    ensures |xs| == |s|
    decreases |s|
  {
    if s == {} then [] else
      var m := Min(s);
      var rest := Sorted(s - {m});
      assert forall x :: x in rest ==> m < x;
      [m] + rest
  }

  /** The members in ascending order, with nothing said of how they are found. */
  method List(s: set<nat>) returns (xs: seq<nat>)
    ensures Ascending(xs)
    ensures forall x :: x in xs <==> x in s
  {
    xs := Sorted(s);
  }

  ghost function Elements<T>(xs: seq<T>): (s: set<T>)
  {
    set x | x in xs
  }
}
