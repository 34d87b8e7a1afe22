/** Order-preserving filtering, the `filter`/`retain` of the source. */
module Seqs {

  /** The elements of `s` that satisfy `p`, in their original order. */
  function Filter<T>(p: T -> bool, s: seq<T>): (r: seq<T>)
    ensures |r| <= |s|
    ensures forall k :: 0 <= k < |r| ==> p(r[k]) && r[k] in s
    ensures forall k :: 0 <= k < |s| && p(s[k]) ==> s[k] in r
    decreases |s|
  {
    if s == [] then []
    else
      var front := s[..|s| - 1];
      assert forall k :: 0 <= k < |front| ==> front[k] == s[k];
      Filter(p, front) + if p(s[|s| - 1]) then [s[|s| - 1]] else []
  }

  /** A filter keeps each element at most as often as the original holds it:
      it only drops elements, never duplicates them. */
  lemma {:induction false} FilterSubMultiset<T>(p: T -> bool, s: seq<T>)
    ensures multiset(Filter(p, s)) <= multiset(s)
    decreases |s|
  {
    if s != [] {
      var front := s[..|s| - 1];
      FilterSubMultiset(p, front);
      assert s == front + [s[|s| - 1]];
    }
  }

  /** Filtering a prefix one element longer. */
  lemma FilterSnoc<T>(p: T -> bool, s: seq<T>, i: nat)
    requires i < |s|
    ensures Filter(p, s[..i + 1]) == Filter(p, s[..i]) + if p(s[i]) then [s[i]] else []
  {
    assert s[..i + 1][..i] == s[..i];
  }

  /** Nothing passes the filter exactly when no element satisfies `p`. */
  lemma FilterEmpty<T>(p: T -> bool, s: seq<T>)
    ensures Filter(p, s) == [] <==> forall k :: 0 <= k < |s| ==> !p(s[k])
  {
    if Filter(p, s) != [] {
      assert Filter(p, s)[0] in s;
    }
  }

  /** Membership in a filter: in the original and satisfying `p`. */
  lemma FilterMembership<T>(p: T -> bool, s: seq<T>, x: T)
    ensures x in Filter(p, s) <==> x in s && p(x)
  {
    if x in Filter(p, s) {
      var i :| 0 <= i < |Filter(p, s)| && Filter(p, s)[i] == x;
    }
    if x in s && p(x) {
      var k :| 0 <= k < |s| && s[k] == x;
    }
  }
}
