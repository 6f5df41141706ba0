/** The JavaScript array built-ins the repository relies on, as functions on
    sequences: `Array.prototype.filter` and `Array.prototype.indexOf`, together with
    the distinct-in-first-seen-order list that the `indexOf`/`push` idiom builds. */
module JsArrays {

  /** `r` is obtained from `s` by deleting elements, keeping the order of the rest. */
  predicate IsSubsequence<T(==)>(r: seq<T>, s: seq<T>)
    decreases |s|
  {
    r == [] ||
    (s != [] && ((r[0] == s[0] && IsSubsequence(r[1..], s[1..])) || IsSubsequence(r, s[1..])))
  }

  /** `s.filter(keep)`: the elements of `s` that `keep` accepts, in their original
      order and with their multiplicities. */
  function Filter<T(==,!new)>(s: seq<T>, keep: T -> bool): (r: seq<T>)
    ensures |r| <= |s|
    ensures IsSubsequence(r, s)
    ensures forall x :: x in r <==> x in s && keep(x)
    ensures forall x :: multiset(r)[x] == if keep(x) then multiset(s)[x] else 0
  {
    if s == [] then []
    else
      assert s == [s[0]] + s[1..];
      if keep(s[0]) then [s[0]] + Filter(s[1..], keep) else Filter(s[1..], keep)
  }

  /** Filtering with a predicate that accepts everything returns the sequence itself. */
  lemma {:induction false} FilterKeepsAll<T(!new)>(s: seq<T>, keep: T -> bool)
    requires forall x :: x in s ==> keep(x)
    ensures Filter(s, keep) == s
  {
    if s != [] {
      FilterKeepsAll(s[1..], keep);
    }
  }

  /** Filtering with a predicate that accepts nothing present returns the empty sequence. */
  lemma {:induction false} FilterRejectsAll<T(!new)>(s: seq<T>, keep: T -> bool)
    requires forall x :: x in s ==> !keep(x)
    ensures Filter(s, keep) == []
  {
    if s != [] {
      FilterRejectsAll(s[1..], keep);
    }
  }

  /** Filtering depends only on what the predicate says about the elements present. */
  lemma {:induction false} FilterCongruent<T(!new)>(s: seq<T>, p: T -> bool, q: T -> bool)
    requires forall x :: x in s ==> p(x) == q(x)
    ensures Filter(s, p) == Filter(s, q)
  {
    if s != [] {
      FilterCongruent(s[1..], p, q);
    }
  }

  /** Two filters in a row are one filter by the conjunction, in the same order. */
  lemma {:induction false} FilterFilter<T(!new)>(s: seq<T>, p: T -> bool, q: T -> bool, both: T -> bool)
    requires forall x :: x in s ==> both(x) == (p(x) && q(x))
    ensures Filter(Filter(s, p), q) == Filter(s, both)
  {
    if s != [] {
      FilterFilter(s[1..], p, q, both);
      if p(s[0]) {
        assert Filter(s, p) == [s[0]] + Filter(s[1..], p);
        assert Filter(s, p)[1..] == Filter(s[1..], p);
      }
    }
  }

  /** `s.every(p)`: whether `p` accepts every element. */
  function Every<T>(s: seq<T>, p: T -> bool): (r: bool)
    ensures r <==> forall i :: 0 <= i < |s| ==> p(s[i])
  {
    s == [] || (p(s[0]) && Every(s[1..], p))
  }

  /** `every` depends only on which elements are present, not on their order or number. */
  lemma EverySameElements<T>(s: seq<T>, t: seq<T>, p: T -> bool)
    requires forall x :: x in s <==> x in t
    ensures Every(s, p) == Every(t, p)
  {
    if Every(s, p) {
      forall j | 0 <= j < |t|
        ensures p(t[j])
      {
        assert t[j] in s;
      }
    }
    if Every(t, p) {
      forall i | 0 <= i < |s|
        ensures p(s[i])
      {
        assert s[i] in t;
      }
    }
  }

  /** `every` over a concatenation is the conjunction of `every` over the parts. */
  lemma EveryAppend<T>(s: seq<T>, t: seq<T>, p: T -> bool)
    ensures Every(s + t, p) == (Every(s, p) && Every(t, p))
  {
    if Every(s + t, p) {
      forall i | 0 <= i < |s|
        ensures p(s[i])
      {
        assert (s + t)[i] == s[i];
      }
      forall j | 0 <= j < |t|
        ensures p(t[j])
      {
        assert (s + t)[|s| + j] == t[j];
      }
    }
  }

  /** `s.indexOf(x)`: the position of the first occurrence of `x`, or -1. */
  function IndexOf<T(==)>(s: seq<T>, x: T): (r: int)
    ensures r == -1 <==> x !in s
    ensures r != -1 ==> 0 <= r < |s| && s[r] == x && x !in s[..r]
  {
    if s == [] then -1
    else if s[0] == x then 0
    else
      var i := IndexOf(s[1..], x);
      assert s[1..][..if i == -1 then 0 else i] == s[1..1 + if i == -1 then 0 else i];
      if i == -1 then -1 else i + 1
  }

  predicate NoDuplicates<T(==)>(s: seq<T>)
  {
    forall i, j :: 0 <= i < j < |s| ==> s[i] != s[j]
  }

  /** The list that `if (list.indexOf(x) === -1) list.push(x)` builds over `s`:
      each value of `s` once, in the order of first occurrence. */
  function Distinct<T(==)>(s: seq<T>): (r: seq<T>)
    ensures |r| <= |s|
  {
    if s == [] then []
    else
      var d := Distinct(s[..|s| - 1]);
      if IndexOf(d, s[|s| - 1]) == -1 then d + [s[|s| - 1]] else d
  }

  lemma {:induction false} DistinctMembers<T(!new)>(s: seq<T>)
    ensures forall x :: x in Distinct(s) <==> x in s
  {
    if s != [] {
      var p := s[..|s| - 1];
      DistinctMembers(p);
      assert s == p + [s[|s| - 1]];
    }
  }

  lemma {:induction false} DistinctNoDuplicates<T>(s: seq<T>)
    ensures NoDuplicates(Distinct(s))
  {
    if s != [] {
      DistinctNoDuplicates(s[..|s| - 1]);
    }
  }

  lemma {:induction false} IndexOfAppend<T>(s: seq<T>, y: T, x: T)
    requires x in s
    ensures IndexOf(s + [y], x) == IndexOf(s, x)
  {
    if s[0] != x {
      assert (s + [y])[1..] == s[1..] + [y];
      IndexOfAppend(s[1..], y, x);
    }
  }

  /** The values of `Distinct(s)` come in the order of their first occurrence in `s`. */
  lemma {:induction false} DistinctFirstSeenOrder<T(!new)>(s: seq<T>)
    ensures forall i, j :: 0 <= i < j < |Distinct(s)| ==>
              IndexOf(s, Distinct(s)[i]) < IndexOf(s, Distinct(s)[j])
  {
    if s != [] {
      var p, x := s[..|s| - 1], s[|s| - 1];
      var d := Distinct(p);
      assert s == p + [x];
      DistinctFirstSeenOrder(p);
      DistinctMembers(p);
      forall y | y in d
        ensures IndexOf(s, y) == IndexOf(p, y)
      {
        assert y in p;
        IndexOfAppend(p, x, y);
      }
    }
  }

  /** A list without duplicates has as many distinct values as elements. */
  lemma {:induction false} NoDuplicatesElements<T>(s: seq<T>)
    requires NoDuplicates(s)
    ensures |set i | 0 <= i < |s| :: s[i]| == |s|
  {
    if s != [] {
      var t := s[1..];
      NoDuplicatesElements(t);
      var rest := set i | 0 <= i < |t| :: t[i];
      assert (set i | 0 <= i < |s| :: s[i]) == {s[0]} + rest;
      assert s[0] !in rest;
    }
  }

  /** A list without duplicates whose values are all `a` or `b` has at most two elements. */
  lemma AtMostTwoOfTwoValues<T>(s: seq<T>, a: T, b: T)
    requires NoDuplicates(s)
    requires forall i :: 0 <= i < |s| ==> s[i] == a || s[i] == b
    ensures |s| <= 2
  {
    NoDuplicatesElements(s);
    var values := set i | 0 <= i < |s| :: s[i];
    assert {a, b} == values + ({a, b} - values);
  }
}
