/**
 * Sequence helpers standing for the library calls the editor makes:
 * de-duplication (`array-unique`, the label-keyed `unique` helper) and
 * one-level flattening (`arr-flatten`). Their code is not part of this
 * model; they are specified here by what they return.
 */
module Seqs {
  import opened Wrappers

  /** No element occurs twice. */
  predicate Distinct<T(==)>(s: seq<T>) {
    forall i, j :: 0 <= i < j < |s| ==> s[i] != s[j]
  }

  /** The elements of `s`, each kept at its first occurrence, in order. */
  function Unique<T(==,!new)>(s: seq<T>): (r: seq<T>)
    ensures Distinct(r)
    ensures forall x :: x in r <==> x in s
    ensures |r| <= |s|
    decreases |s|
  {
    if s == [] then []
    else
      var u := Unique(s[..|s| - 1]);
      if s[|s| - 1] in u then u else u + [s[|s| - 1]]
  }

  /**
   * Appending an element keeps the de-duplicated prefix as it is and adds
   * the element at the end only if it is new: first occurrences, in order.
   */
  lemma {:induction false} UniqueAppend<T(!new)>(s: seq<T>, x: T)
    ensures Unique(s + [x]) == if x in s then Unique(s) else Unique(s) + [x]
  {
    assert (s + [x])[..|s + [x]| - 1] == s;
    assert x in s <==> x in Unique(s);
  }

  /** De-duplicating a sequence that has no duplicates changes nothing. */
  lemma {:induction false} UniqueOfDistinct<T(!new)>(s: seq<T>)
    requires Distinct(s)
    ensures Unique(s) == s
  {
    if s != [] {
      var p := s[..|s| - 1];
      assert Distinct(p);
      UniqueOfDistinct(p);
      assert s[|s| - 1] !in p;
      assert p + [s[|s| - 1]] == s;
    }
  }

  /** The concatenation of a sequence of sequences. */
  function Flatten<T(!new)>(ss: seq<seq<T>>): (r: seq<T>)
    ensures forall x :: x in r <==> exists i :: 0 <= i < |ss| && x in ss[i]
    decreases |ss|
  {
    if ss == [] then []
    else
      var tail := Flatten(ss[1..]);
      assert forall x | x in tail :: exists i :: 0 <= i < |ss| && x in ss[i] by {
        forall x | x in tail ensures exists i :: 0 <= i < |ss| && x in ss[i] {
          var j :| 0 <= j < |ss[1..]| && x in ss[1..][j];
          assert x in ss[j + 1];
        }
      }
      assert forall x, i | 1 <= i < |ss| && x in ss[i] :: x in tail by {
        forall x, i | 1 <= i < |ss| && x in ss[i] ensures x in tail {
          assert x in ss[1..][i - 1];
        }
      }
      ss[0] + tail
  }

  /** Every element wrapped as present. */
  function Somes<T(!new)>(s: seq<T>): (r: seq<Option<T>>)
    ensures |r| == |s|
    ensures forall x :: Some(x) in r <==> x in s
    ensures None !in r
  {
    var r := seq(|s|, i requires 0 <= i < |s| => Some(s[i]));
    assert forall x | x in s :: Some(x) in r by {
      forall x | x in s ensures Some(x) in r {
        var i :| 0 <= i < |s| && s[i] == x;
        assert r[i] == Some(x);
      }
    }
    r
  }
}
