/**
 * The iteration order of a `BTreeMap<usize, _>`: its keys in strictly
 * ascending order. Both the all-titles listing and the random draw
 * (`keys().choose(..)`) walk the keys in this order.
 */
module OrderedKeys {

  predicate StrictlyIncreasing(s: seq<nat>) {
    forall i, j :: 0 <= i < j < |s| ==> s[i] < s[j]
  }

  predicate IsLeast(m: nat, s: set<nat>) {
    m in s && forall x :: x in s ==> m <= x
  }

  /** Every non-empty set of naturals has a least element. */
  lemma {:induction false} LeastExists(s: set<nat>)
    requires s != {}
    ensures exists m :: IsLeast(m, s)
    decreases |s|
  {
    var x :| x in s;
    if s != {x} {
      LeastExists(s - {x});
      var m :| IsLeast(m, s - {x});
      var least := if x < m then x else m;
      forall y | y in s ensures least <= y {
        if y != x {
          assert y in s - {x};
        }
      }
      assert IsLeast(least, s);
    } else {
      assert IsLeast(x, s);
    }
  }

  /** The keys of a map in the order a `BTreeMap` yields them. */
  function Sorted(s: set<nat>): (r: seq<nat>)
    ensures |r| == |s|
    ensures forall k :: k in r <==> k in s
    ensures StrictlyIncreasing(r)
    decreases |s|
  {
    if s == {} then []
    else
      LeastExists(s);
      var m :| IsLeast(m, s);
      [m] + Sorted(s - {m})
  }

  /** Two strictly increasing sequences with the same elements are equal. */
  lemma {:induction false} ListingsAgree(r1: seq<nat>, r2: seq<nat>)
    requires StrictlyIncreasing(r1) && StrictlyIncreasing(r2)
    requires forall k :: k in r1 <==> k in r2
    ensures r1 == r2
    decreases |r1|
  {
    if r1 != [] {
      assert r1[0] in r2;
    }
    if r2 != [] {
      assert r2[0] in r1;
    }
    if r1 != [] {
      assert r1[0] == r2[0];
      forall k ensures k in r1[1..] <==> k in r2[1..] {
        if k in r1[1..] {
          assert k in r2 && k != r2[0];
        }
        if k in r2[1..] {
          assert k in r1 && k != r1[0];
        }
      }
      ListingsAgree(r1[1..], r2[1..]);
      assert r1 == [r1[0]] + r1[1..];
      assert r2 == [r2[0]] + r2[1..];
    }
  }

  /** There is only one strictly increasing listing of a set: the one `Sorted` gives. */
  lemma SortedUnique(s: set<nat>, r: seq<nat>)
    requires StrictlyIncreasing(r)
    requires forall k :: k in r <==> k in s
    ensures r == Sorted(s)
  {
    ListingsAgree(r, Sorted(s));
  }
}
