/**
 * Python's `list.sort()` on a list of strings. Python uses Timsort; the model
 * uses insertion sort and proves that a sorted permutation of a list is
 * unique, so the list the source obtains is the one the model obtains.
 */
module Sorting {
  import opened Text

  predicate Sorted(s: seq<string>) {
    forall i, j :: 0 <= i < j < |s| ==> LexLe(s[i], s[j])
  }

  /** Inserts `x` into the sorted list `s`, before the first element it is
      not greater than. */
  function Insert(x: string, s: seq<string>): (r: seq<string>)
    requires Sorted(s)
    ensures Sorted(r)
    ensures multiset(r) == multiset(s) + multiset{x}
  {
    if s == [] then [x]
    else if LexLe(x, s[0]) then
      assert forall j :: 0 < j < |s| ==> LexLe(x, s[j]) by {
        forall j | 0 < j < |s| ensures LexLe(x, s[j]) {
          LexLeTransitive(x, s[0], s[j]);
        }
      }
      SortedCons(x, s);
      [x] + s
    else
      var t := Insert(x, s[1..]);
      assert s == [s[0]] + s[1..];
      assert LexLe(s[0], x) by { LexLeTotal(x, s[0]); }
      assert forall j :: 0 <= j < |t| ==> LexLe(s[0], t[j]) by {
        forall j | 0 <= j < |t| ensures LexLe(s[0], t[j]) {
          assert t[j] in multiset(t);
          assert t[j] == x || t[j] in multiset(s[1..]);
          if t[j] != x {
            var k :| 0 <= k < |s[1..]| && s[1..][k] == t[j];
            assert LexLe(s[0], s[k + 1]);
          }
        }
      }
      SortedCons(s[0], t);
      [s[0]] + t
  }

  /** An element not greater than any element of a sorted list can be put
      in front of it. */
  lemma SortedCons(x: string, t: seq<string>)
    requires Sorted(t)
    requires forall j :: 0 <= j < |t| ==> LexLe(x, t[j])
    ensures Sorted([x] + t)
  {
    var r := [x] + t;
    forall i, j | 0 <= i < j < |r| ensures LexLe(r[i], r[j]) {
      if i > 0 {
        assert r[i] == t[i - 1] && r[j] == t[j - 1];
      }
    }
  }

  /** The sorted permutation of `s`. */
  function Sort(s: seq<string>): (r: seq<string>)
    ensures Sorted(r)
    ensures multiset(r) == multiset(s)
  {
    if s == [] then []
    else
      assert s == [s[0]] + s[1..];
      Insert(s[0], Sort(s[1..]))
  }

  /** The first element of a non-empty sorted list is in it and is not
      greater than any of its elements. */
  lemma SortedHeadIsLeast(s: seq<string>)
    requires Sorted(s) && s != []
    ensures forall x :: x in s ==> LexLe(s[0], x)
  {
    forall x | x in s ensures LexLe(s[0], x) {
      var k :| 0 <= k < |s| && s[k] == x;
      if k == 0 { LexLeReflexive(x); }
    }
  }

  /** Two sorted lists with the same elements start with the same one. */
  lemma SortedHeadsAgree(s: seq<string>, t: seq<string>)
    requires Sorted(s) && Sorted(t) && s != []
    requires multiset(s) == multiset(t)
    ensures t != [] && s[0] == t[0]
  {
    assert s[0] in multiset(t);
    assert t != [];
    assert t[0] in multiset(s);
    SortedHeadIsLeast(s);
    SortedHeadIsLeast(t);
    LexLeAntisymmetric(s[0], t[0]);
  }

  lemma SortedTail(s: seq<string>)
    requires Sorted(s) && s != []
    ensures Sorted(s[1..])
    ensures multiset(s[1..]) == multiset(s) - multiset{s[0]}
  {
    assert s == [s[0]] + s[1..];
  }

  /** A list has only one sorted permutation: two sorted lists with the same
      elements are equal. So any correct sort, Timsort included, gives the
      list that `Sort` gives. */
  lemma {:induction false} SortedPermutationUnique(s: seq<string>, t: seq<string>)
    requires Sorted(s) && Sorted(t)
    requires multiset(s) == multiset(t)
    ensures s == t
  {
    if s == [] {
      assert |t| == |multiset(t)| == 0;
    } else {
      SortedHeadsAgree(s, t);
      SortedTail(s);
      SortedTail(t);
      SortedPermutationUnique(s[1..], t[1..]);
      assert s == [s[0]] + s[1..] && t == [t[0]] + t[1..];
    }
  }
}
