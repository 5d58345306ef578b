/**
 * The list operations the JavaScript code uses: `filter`, `filter(...).length`,
 * `slice(0, n)`, and a first-match search (`findIndex`, Mongoose's `findOne`).
 */
module Seqs {
  import opened Wrappers

  /** The position of the first element satisfying `p`, if there is one. */
  function FirstIndex<T>(p: T -> bool, s: seq<T>): (r: Option<nat>)
    ensures r.Some? ==> r.value < |s| && p(s[r.value]) && forall j :: 0 <= j < r.value ==> !p(s[j])
    ensures r.None? ==> forall j :: 0 <= j < |s| ==> !p(s[j])
    decreases |s|
  {
    if s == [] then None
    else if p(s[0]) then Some(0)
    else match FirstIndex(p, s[1..])
      case None => None
      case Some(k) => Some(k + 1)
  }

  /** `s.filter(p)`: the elements of `s` satisfying `p`, in order. */
  function Filter<T>(p: T -> bool, s: seq<T>): (r: seq<T>)
    ensures |r| <= |s|
    ensures forall i :: 0 <= i < |r| ==> r[i] in s && p(r[i])
    ensures forall i :: 0 <= i < |s| && p(s[i]) ==> s[i] in r
    decreases |s|
  {
    if s == [] then []
    else Filter(p, s[..|s| - 1]) + (if p(s[|s| - 1]) then [s[|s| - 1]] else [])
  }

  /** `s.filter(p).length`. */
  function Count<T>(p: T -> bool, s: seq<T>): nat {
    |Filter(p, s)|
  }

  /** `s.slice(0, n)` for a non-negative `n`. */
  function Take<T>(s: seq<T>, n: nat): (r: seq<T>)
    ensures |r| == if n < |s| then n else |s|
    ensures forall i :: 0 <= i < |r| ==> r[i] == s[i]
  {
    if n < |s| then s[..n] else s
  }

  lemma {:induction false} FilterAppend<T>(p: T -> bool, a: seq<T>, b: seq<T>)
    ensures Filter(p, a + b) == Filter(p, a) + Filter(p, b)
    decreases |b|
  {
    if b == [] {
      assert a + b == a;
    } else {
      var b' := b[..|b| - 1];
      assert (a + b)[..|a + b| - 1] == a + b';
      FilterAppend(p, a, b');
    }
  }

  /** Filtering twice is filtering once by the conjunction `r`: the shape of a filter chain. */
  lemma {:induction false} FilterFilter<T>(p: T -> bool, q: T -> bool, r: T -> bool, s: seq<T>)
    requires forall x :: r(x) == (p(x) && q(x))
    ensures Filter(q, Filter(p, s)) == Filter(r, s)
    decreases |s|
  {
    if s != [] {
      var s' := s[..|s| - 1];
      var x := s[|s| - 1];
      FilterFilter(p, q, r, s');
      FilterAppend(q, Filter(p, s'), if p(x) then [x] else []);
      if p(x) {
        assert Filter(q, [x]) == Filter(q, [][..0]) + (if q(x) then [x] else []);
      } else {
        assert Filter(q, []) == [];
      }
    }
  }

  /** Filters whose predicates agree on every element of `s` select the same elements. */
  lemma {:induction false} FilterExt<T>(p: T -> bool, q: T -> bool, s: seq<T>)
    requires forall x :: x in s ==> p(x) == q(x)
    ensures Filter(p, s) == Filter(q, s)
    decreases |s|
  {
    if s != [] {
      var s' := s[..|s| - 1];
      assert forall x :: x in s' ==> x in s;
      FilterExt(p, q, s');
    }
  }

  /** Every element lands on exactly one side of a predicate and its negation `q`: the counts add up to the total. */
  lemma {:induction false} CountSplit<T>(p: T -> bool, q: T -> bool, s: seq<T>)
    requires forall x :: q(x) == !p(x)
    ensures Count(p, s) + Count(q, s) == |s|
    decreases |s|
  {
    if s != [] {
      CountSplit(p, q, s[..|s| - 1]);
    }
  }

  /** A weaker predicate selects at least as many elements. */
  lemma {:induction false} CountMono<T>(p: T -> bool, q: T -> bool, s: seq<T>)
    requires forall x :: p(x) ==> q(x)
    ensures Count(p, s) <= Count(q, s)
    decreases |s|
  {
    if s != [] {
      CountMono(p, q, s[..|s| - 1]);
    }
  }

  /** A filter every element passes keeps the whole sequence. */
  lemma {:induction false} FilterAll<T>(p: T -> bool, s: seq<T>)
    requires forall i :: 0 <= i < |s| ==> p(s[i])
    ensures Filter(p, s) == s
    decreases |s|
  {
    if s != [] {
      var n := |s| - 1;
      FilterAllPrefix(p, s, n);
      FilterAll(p, s[..n]);
      assert s[..n] + [s[n]] == s;
    }
  }

  lemma FilterAllPrefix<T>(p: T -> bool, s: seq<T>, n: nat)
    requires n <= |s| && forall i :: 0 <= i < |s| ==> p(s[i])
    ensures forall i :: 0 <= i < |s[..n]| ==> p(s[..n][i])
  {
  }

  /** A count is positive exactly when some element satisfies the predicate. */
  lemma CountPositive<T>(p: T -> bool, s: seq<T>)
    ensures Count(p, s) > 0 <==> exists i :: 0 <= i < |s| && p(s[i])
  {
    if Count(p, s) > 0 {
      var r := Filter(p, s);
      assert r[0] in s;
      var i :| 0 <= i < |s| && s[i] == r[0];
      assert p(s[i]);
    }
  }

  /** Two predicates that never hold together count their union `u` as the sum of their counts. */
  lemma {:induction false} CountDisjoint<T>(p: T -> bool, q: T -> bool, u: T -> bool, s: seq<T>)
    requires forall x :: !(p(x) && q(x)) && u(x) == (p(x) || q(x))
    ensures Count(u, s) == Count(p, s) + Count(q, s)
    decreases |s|
  {
    if s != [] {
      CountDisjoint(p, q, u, s[..|s| - 1]);
    }
  }

  /** Filtering a prefix one element longer appends that element when it passes. */
  lemma FilterSnoc<T>(p: T -> bool, s: seq<T>, i: nat)
    requires i < |s|
    ensures Filter(p, s[..i + 1]) == Filter(p, s[..i]) + (if p(s[i]) then [s[i]] else [])
  {
    assert s[..i + 1][..i] == s[..i];
  }

  /** `s.map(f)`: the image of each element, in order. */
  function Map<T, U>(f: T -> U, s: seq<T>): (r: seq<U>)
    ensures |r| == |s| && forall i :: 0 <= i < |s| ==> r[i] == f(s[i])
  {
    seq(|s|, i requires 0 <= i < |s| => f(s[i]))
  }

  /**
   * `s.forEach` with a body that can throw: the results of `f` in order, or
   * `None` when some element makes it fail.
   */
  function MapAll<T, U>(f: T -> Option<U>, s: seq<T>): (r: Option<seq<U>>)
    ensures r.Some? <==> forall i :: 0 <= i < |s| ==> f(s[i]).Some?
    ensures r.Some? ==> |r.value| == |s| && forall i :: 0 <= i < |s| ==> r.value[i] == f(s[i]).value
    decreases |s|
  {
    if s == [] then Some([])
    else
      match MapAll(f, s[..|s| - 1])
      case None => None
      case Some(init) =>
        match f(s[|s| - 1])
        case None => None
        case Some(y) => Some(init + [y])
  }

  /** One more element that `f` accepts extends the results by its image. */
  lemma MapAllSnoc<T, U>(f: T -> Option<U>, s: seq<T>, i: nat)
    requires i < |s| && MapAll(f, s[..i]).Some? && f(s[i]).Some?
    ensures MapAll(f, s[..i + 1]) == Some(MapAll(f, s[..i]).value + [f(s[i]).value])
  {
    assert s[..i + 1][..i] == s[..i];
  }
}
