/** Optional values and order-preserving selection from a list, the shape
    of every list comprehension and `append`-in-a-loop filter of the site. */
module Seqs {

  datatype Option<T> = None | Some(value: T)

  /** `[x for x in s if keep(x)]`: exactly the kept elements of `s`. */
  function Filter<T>(s: seq<T>, keep: T -> bool): (r: seq<T>)
    ensures |r| <= |s|
    ensures forall x :: x in r ==> x in s && keep(x)
    ensures forall x :: x in s && keep(x) ==> x in r
  {
    if s == [] then []
    else
      var init, last := s[..|s| - 1], s[|s| - 1];
      assert s == init + [last];
      Filter(init, keep) + if keep(last) then [last] else []
  }

  /** `r` can be obtained from `s` by deleting elements, keeping the order. */
  ghost predicate Subsequence<T>(r: seq<T>, s: seq<T>)
    decreases |s|
  {
    if r == [] then true
    else if s == [] then false
    else
      (r[|r| - 1] == s[|s| - 1] && Subsequence(r[..|r| - 1], s[..|s| - 1]))
      || Subsequence(r, s[..|s| - 1])
  }

  lemma {:induction false} FilterIsSubsequence<T>(s: seq<T>, keep: T -> bool)
    ensures Subsequence(Filter(s, keep), s)
  {
    if s != [] {
      var init := s[..|s| - 1];
      FilterIsSubsequence(init, keep);
      var r := Filter(s, keep);
      if keep(s[|s| - 1]) {
        assert r[..|r| - 1] == Filter(init, keep);
      } else {
        assert r == Filter(init, keep);
      }
    }
  }

  /** Filters by tests that agree on the list's elements are equal. */
  lemma {:induction false} FilterCongruent<T>(s: seq<T>, keep: T -> bool, same: T -> bool)
    requires forall x :: x in s ==> (keep(x) <==> same(x))
    ensures Filter(s, keep) == Filter(s, same)
  {
    if s != [] {
      var init := s[..|s| - 1];
      assert forall x :: x in init ==> x in s;
      FilterCongruent(init, keep, same);
      assert s[|s| - 1] in s;
    }
  }

  /** Two filters in a row are one filter by both tests. */
  lemma {:induction false} FilterFilter<T>(s: seq<T>, first: T -> bool, second: T -> bool, both: T -> bool)
    requires forall x :: x in s ==> (both(x) <==> first(x) && second(x))
    ensures Filter(Filter(s, first), second) == Filter(s, both)
  {
    if s != [] {
      var init, last := s[..|s| - 1], s[|s| - 1];
      assert forall x :: x in init ==> x in s;
      assert last in s;
      FilterFilter(init, first, second, both);
      var kept := Filter(init, first);
      assert Filter(s, both) == Filter(init, both) + if both(last) then [last] else [];
      if first(last) {
        assert Filter(s, first) == kept + [last];
        FilterSnoc(kept, last, second);
      } else {
        assert Filter(s, first) == kept;
      }
    }
  }

  /** A filter that rejects nothing leaves the list as it is. */
  lemma {:induction false} FilterKeepsAll<T>(s: seq<T>, keep: T -> bool)
    requires forall x :: x in s ==> keep(x)
    ensures Filter(s, keep) == s
  {
    if s != [] {
      var init := s[..|s| - 1];
      FilterKeepsAll(init, keep);
      assert s == init + [s[|s| - 1]];
    }
  }

  /** A filter that keeps nothing gives the empty list. */
  lemma FilterKeepsNone<T>(s: seq<T>, keep: T -> bool)
    requires forall x :: x in s ==> !keep(x)
    ensures Filter(s, keep) == []
  {
  }

  /** Growing the input by one element grows the filter by that element when
      it is kept; the filter of a loop that appends as it goes. */
  lemma FilterSnoc<T>(s: seq<T>, x: T, keep: T -> bool)
    ensures Filter(s + [x], keep) == Filter(s, keep) + if keep(x) then [x] else []
  {
    assert (s + [x])[..|s + [x]| - 1] == s;
  }

  /** The union of `f(x)` over the elements of `s`, collected from the front. */
  function Union<T, U>(s: seq<T>, f: T -> set<U>): set<U> {
    if s == [] then {} else Union(s[..|s| - 1], f) + f(s[|s| - 1])
  }

  /** Everything `f` gives for an element of the list is in the union. */
  lemma {:induction false} UnionHas<T, U>(s: seq<T>, f: T -> set<U>, x: T, u: U)
    requires x in s && u in f(x)
    ensures u in Union(s, f)
  {
    var init, last := s[..|s| - 1], s[|s| - 1];
    assert s == init + [last];
    if x != last {
      assert x in init;
      UnionHas(init, f, x, u);
    }
  }

  /** Everything in the union comes from an element of the list. */
  lemma {:induction false} UnionFrom<T, U>(s: seq<T>, f: T -> set<U>, u: U) returns (x: T)
    requires u in Union(s, f)
    ensures x in s && u in f(x)
  {
    var init, last := s[..|s| - 1], s[|s| - 1];
    assert s == init + [last];
    if u in f(last) {
      x := last;
    } else {
      x := UnionFrom(init, f, u);
      assert x in init;
    }
  }
}
