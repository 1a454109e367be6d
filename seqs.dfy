/**
 * The array operations the components are built from: `Array.prototype.filter`,
 * `filter(...).length` and `Array.prototype.find`, over immutable sequences.
 */
module Seqs {
  import opened Options

  /** The elements of `s` that satisfy `p`, in their original order. */
  function Filter<T>(s: seq<T>, p: T -> bool): (r: seq<T>)
    ensures |r| <= |s|
    ensures forall i :: 0 <= i < |r| ==> r[i] in s && p(r[i])
    ensures forall k :: 0 <= k < |s| && p(s[k]) ==> s[k] in r
  {
    if s == [] then []
    else
      var init := Filter(s[..|s| - 1], p);
      assert s == s[..|s| - 1] + [s[|s| - 1]];
      if p(s[|s| - 1]) then init + [s[|s| - 1]] else init
  }

  /** How many elements of `s` satisfy `p`. */
  function Count<T>(s: seq<T>, p: T -> bool): nat
  {
    |Filter(s, p)|
  }

  /** The indices of `s` whose elements satisfy `p`, in increasing order. */
  function Positions<T>(s: seq<T>, p: T -> bool): (idx: seq<nat>)
    ensures forall i, j :: 0 <= i < j < |idx| ==> idx[i] < idx[j]
    ensures forall i :: 0 <= i < |idx| ==> idx[i] < |s|
    ensures forall k :: 0 <= k < |s| ==> (k in idx <==> p(s[k]))
  {
    if s == [] then []
    else
      var init := Positions(s[..|s| - 1], p);
      if p(s[|s| - 1]) then init + [|s| - 1] else init
  }

  /**
   * Filter keeps order: its result is exactly the elements of `s` at the
   * positions that satisfy `p`, taken in increasing order of position.
   */
  lemma {:induction false} FilterKeepsOrder<T>(s: seq<T>, p: T -> bool)
    ensures |Filter(s, p)| == |Positions(s, p)|
    ensures forall i :: 0 <= i < |Filter(s, p)| ==> Filter(s, p)[i] == s[Positions(s, p)[i]]
  {
    if s != [] {
      var init, last := s[..|s| - 1], s[|s| - 1];
      FilterKeepsOrder(init, p);
      var f, ps := Filter(init, p), Positions(init, p);
      var f', ps' := if p(last) then f + [last] else f, if p(last) then ps + [|s| - 1] else ps;
      assert Filter(s, p) == f' && Positions(s, p) == ps';
      forall i | 0 <= i < |f'|
        ensures f'[i] == s[ps'[i]]
      {
        if i < |f| {
          assert f'[i] == f[i] == init[ps[i]];
          assert ps'[i] == ps[i] < |init|;
        }
      }
    }
  }

  /** Filtering a concatenation filters each part. */
  lemma {:induction false} FilterAppend<T>(a: seq<T>, b: seq<T>, p: T -> bool)
    ensures Filter(a + b, p) == Filter(a, p) + Filter(b, p)
  {
    if b == [] {
      assert a + b == a;
    } else {
      var c := a + b;
      assert c[..|c| - 1] == a + b[..|b| - 1];
      assert c[|c| - 1] == b[|b| - 1];
      FilterAppend(a, b[..|b| - 1], p);
    }
  }

  /** Counting over a concatenation adds the counts of the parts. */
  lemma CountAppend<T>(a: seq<T>, b: seq<T>, p: T -> bool)
    ensures Count(a + b, p) == Count(a, p) + Count(b, p)
  {
    FilterAppend(a, b, p);
  }

  /** A predicate that every element satisfies keeps the whole sequence. */
  lemma {:induction false} FilterAll<T>(s: seq<T>, p: T -> bool)
    requires forall x :: x in s ==> p(x)
    ensures Filter(s, p) == s
  {
    if s != [] {
      assert s[|s| - 1] in s;
      FilterAll(s[..|s| - 1], p);
    }
  }

  /** A predicate that no element satisfies keeps nothing. */
  lemma FilterNone<T>(s: seq<T>, p: T -> bool)
    requires forall x :: x in s ==> !p(x)
    ensures Filter(s, p) == []
  {
  }

  /** Filtering a one-element sequence keeps the element or drops it. */
  lemma FilterSingleton<T>(x: T, p: T -> bool)
    ensures Filter([x], p) == if p(x) then [x] else []
  {
    assert [x][..0] == [];
  }

  /** Counting over three elements. */
  lemma CountThree<T>(a: T, b: T, c: T, p: T -> bool)
    ensures Count([a, b, c], p) == (if p(a) then 1 else 0) + (if p(b) then 1 else 0) + (if p(c) then 1 else 0)
  {
    assert [a, b, c] == [a] + [b] + [c];
    FilterAppend([a] + [b], [c], p);
    FilterAppend([a], [b], p);
    FilterSingleton(a, p);
    FilterSingleton(b, p);
    FilterSingleton(c, p);
  }

  /** Two predicates that agree on every element of `s` select the same elements. */
  lemma {:induction false} FilterSameOn<T>(s: seq<T>, p: T -> bool, q: T -> bool)
    requires forall x :: x in s ==> p(x) == q(x)
    ensures Filter(s, p) == Filter(s, q)
  {
    if s != [] {
      assert s[|s| - 1] in s;
      FilterSameOn(s[..|s| - 1], p, q);
    }
  }

  /** Filtering twice is filtering once by the conjunction. */
  lemma {:induction false} FilterFilter<T>(s: seq<T>, p: T -> bool, q: T -> bool, pq: T -> bool)
    requires forall x :: pq(x) == (p(x) && q(x))
    ensures Filter(Filter(s, p), q) == Filter(s, pq)
  {
    if s != [] {
      var init := s[..|s| - 1];
      var last := s[|s| - 1];
      FilterFilter(init, p, q, pq);
      if p(last) {
        FilterAppend(Filter(init, p), [last], q);
      }
    }
  }

  /**
   * When every element satisfies exactly one of three predicates, the three
   * counts add up to the length of the sequence.
   */
  lemma {:induction false} CountPartition3<T>(s: seq<T>, p1: T -> bool, p2: T -> bool, p3: T -> bool)
    requires forall x :: x in s ==> (p1(x) || p2(x) || p3(x))
    requires forall x :: x in s ==> !(p1(x) && p2(x)) && !(p1(x) && p3(x)) && !(p2(x) && p3(x))
    ensures Count(s, p1) + Count(s, p2) + Count(s, p3) == |s|
  {
    if s != [] {
      assert s[|s| - 1] in s;
      CountPartition3(s[..|s| - 1], p1, p2, p3);
    }
  }

  /**
   * The index of the first element of `s` at or after `from` that satisfies `p`.
   */
  function FindFrom<T>(s: seq<T>, p: T -> bool, from: nat): (r: Option<nat>)
    requires from <= |s|
    ensures r.Some? ==> from <= r.value < |s| && p(s[r.value])
    ensures r.Some? ==> forall j :: from <= j < r.value ==> !p(s[j])
    ensures r.None? ==> forall j :: from <= j < |s| ==> !p(s[j])
    decreases |s| - from
  {
    if from == |s| then None
    else if p(s[from]) then Some(from)
    else FindFrom(s, p, from + 1)
  }

  /** `Array.prototype.find`, by index: the first element that satisfies `p`, if any. */
  function FindFirst<T>(s: seq<T>, p: T -> bool): (r: Option<nat>)
    ensures r.Some? ==> r.value < |s| && p(s[r.value])
    ensures r.Some? ==> forall j :: 0 <= j < r.value ==> !p(s[j])
    ensures r.None? ==> forall j :: 0 <= j < |s| ==> !p(s[j])
  {
    FindFrom(s, p, 0)
  }
}
