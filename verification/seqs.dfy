/** JavaScript's `Array.prototype.filter` and `find`, over sequences. */
module Seqs {

  import opened Common

  /** `s.filter(p)`: the elements satisfying p, in their order in s. */
  function Filter<T>(s: seq<T>, p: T -> bool): (r: seq<T>)
    ensures |r| <= |s|
  {
    if s == [] then []
    else
      var init := s[..|s| - 1];
      assert s == init + [s[|s| - 1]];
      Filter(init, p) + (if p(s[|s| - 1]) then [s[|s| - 1]] else [])
  }

  /** Exactly the elements of s that pass are in the filtered sequence. */
  lemma {:induction false} FilterMembership<T(!new)>(s: seq<T>, p: T -> bool)
    ensures forall x :: x in Filter(s, p) <==> x in s && p(x)
  {
    if s != [] {
      var init := s[..|s| - 1];
      assert s == init + [s[|s| - 1]];
      FilterMembership(init, p);
    }
  }

  /** Appending one element extends the filtered sequence by that element
      exactly when it passes. */
  lemma FilterSnoc<T>(s: seq<T>, x: T, p: T -> bool)
    ensures Filter(s + [x], p) == Filter(s, p) + (if p(x) then [x] else [])
  {
    assert (s + [x])[..|s|] == s;
  }

  /** Filtering commutes with concatenation: relative order is kept. */
  lemma {:induction false} FilterConcat<T>(a: seq<T>, b: seq<T>, p: T -> bool)
    ensures Filter(a + b, p) == Filter(a, p) + Filter(b, p)
    decreases |b|
  {
    if b == [] {
      assert a + b == a;
    } else {
      var init := b[..|b| - 1];
      var x := b[|b| - 1];
      assert b == init + [x];
      assert a + b == (a + init) + [x];
      FilterConcat(a, init, p);
      FilterSnoc(a + init, x, p);
      FilterSnoc(init, x, p);
    }
  }

  /** A filter that keeps everything is the identity; one that keeps nothing is empty. */
  lemma {:induction false} FilterAllOrNone<T>(s: seq<T>, p: T -> bool)
    ensures (forall i :: 0 <= i < |s| ==> p(s[i])) ==> Filter(s, p) == s
    ensures (forall i :: 0 <= i < |s| ==> !p(s[i])) ==> Filter(s, p) == []
  {
    if s != [] {
      var init := s[..|s| - 1];
      assert s == init + [s[|s| - 1]];
      FilterAllOrNone(init, p);
    }
  }

  /** Every element that passes is kept with its multiplicity; no other element is. */
  lemma {:induction false} FilterCount<T(!new)>(s: seq<T>, p: T -> bool, x: T)
    ensures multiset(Filter(s, p))[x] == if p(x) then multiset(s)[x] else 0
  {
    if s != [] {
      var init := s[..|s| - 1];
      assert s == init + [s[|s| - 1]];
      FilterCount(init, p, x);
    }
  }

  /** `FilterCount` for every element at once. */
  lemma FilterCounts<T(!new)>(s: seq<T>, p: T -> bool)
    ensures forall x :: multiset(Filter(s, p))[x] == if p(x) then multiset(s)[x] else 0
  {
    forall x ensures multiset(Filter(s, p))[x] == if p(x) then multiset(s)[x] else 0 {
      FilterCount(s, p, x);
    }
  }

  /** `s.findIndex(p)`, with `None` for -1: the index of the first element satisfying p. */
  function FindIndex<T>(s: seq<T>, p: T -> bool): (r: Option<nat>)
    ensures r.Some? ==> r.value < |s| && p(s[r.value])
    ensures r.Some? ==> forall j :: 0 <= j < r.value ==> !p(s[j])
    ensures r.None? ==> forall j :: 0 <= j < |s| ==> !p(s[j])
  {
    if s == [] then None
    else if p(s[0]) then Some(0)
    else match FindIndex(s[1..], p)
      case None => None
      case Some(i) => Some(i + 1)
  }

  /** Appending an element never moves an existing first match; without one,
      the appended element is the first match when it passes. */
  lemma {:induction false} FindIndexSnoc<T>(s: seq<T>, x: T, p: T -> bool)
    ensures FindIndex(s + [x], p) ==
      if FindIndex(s, p).Some? then FindIndex(s, p)
      else if p(x) then Some(|s|) else None
    decreases |s|
  {
    if s != [] && !p(s[0]) {
      assert (s + [x])[1..] == s[1..] + [x];
      FindIndexSnoc(s[1..], x, p);
    }
  }
}
