/** Filtering and extending sequences. */
module Sequences {

  function Filter<T>(s: seq<T>, p: T -> bool): (r: seq<T>)
    ensures forall x <- r :: x in s && p(x)
    ensures forall x <- s :: p(x) ==> x in r
  {
    if s == [] then []
    else Filter(s[..|s| - 1], p) + if p(s[|s| - 1]) then [s[|s| - 1]] else []
  }

  // Taking one element more, and the rest after that.
  lemma TakeMore<T>(a: seq<T>, b: seq<T>, j: nat)
    requires j < |b|
    ensures a + b[..j + 1] == (a + b[..j]) + [b[j]]
    ensures a + b == (a + b[..j + 1]) + b[j + 1..]
  {
  }

  lemma FilterPush<T>(s: seq<T>, x: T, p: T -> bool)
    ensures Filter(s + [x], p) == Filter(s, p) + if p(x) then [x] else []
  {
    assert (s + [x])[..|s|] == s;
  }

  // The last element a filter keeps, by its place.
  lemma {:induction false} FilterLast<T>(s: seq<T>, p: T -> bool) returns (i: nat)
    requires Filter(s, p) != []
    ensures i < |s| && s[i] == Filter(s, p)[|Filter(s, p)| - 1] && p(s[i])
    ensures forall j :: i < j < |s| ==> !p(s[j])
  {
    var init, last := s[..|s| - 1], s[|s| - 1];
    if p(last) {
      i := |s| - 1;
    } else {
      i := FilterLast(init, p);
    }
  }

  // A filter keeps each element as often as it was there, or not at all.
  lemma {:induction false} FilterCount<T>(s: seq<T>, p: T -> bool, x: T)
    ensures multiset(Filter(s, p))[x] == if p(x) then multiset(s)[x] else 0
  {
    if s != [] {
      var init, last := s[..|s| - 1], s[|s| - 1];
      FilterCount(init, p, x);
      assert s == init + [last];
      assert Filter(s, p) == Filter(init, p) + if p(last) then [last] else [];
    }
  }

  lemma {:induction false} FilterAppend<T>(a: seq<T>, b: seq<T>, p: T -> bool)
    ensures Filter(a + b, p) == Filter(a, p) + Filter(b, p)
  {
    if b == [] {
      assert a + b == a;
    } else {
      var init, last := b[..|b| - 1], b[|b| - 1];
      FilterAppend(a, init, p);
      assert (a + b)[..|a + b| - 1] == a + init && (a + b)[|a + b| - 1] == last;
      var tail := if p(last) then [last] else [];
      assert Filter(a + b, p) == Filter(a + init, p) + tail;
      assert Filter(b, p) == Filter(init, p) + tail;
    }
  }

  lemma {:induction false} FilterSame<T>(s: seq<T>, p: T -> bool, q: T -> bool)
    requires forall x <- s :: p(x) == q(x)
    ensures Filter(s, p) == Filter(s, q)
  {
    if s != [] { FilterSame(s[..|s| - 1], p, q); }
  }

  lemma {:induction false} FilterTwice<T>(s: seq<T>, p: T -> bool, q: T -> bool, both: T -> bool)
    requires forall x <- s :: both(x) == (p(x) && q(x))
    ensures Filter(Filter(s, p), q) == Filter(s, both)
  {
    if s != [] {
      var u, x := s[..|s| - 1], s[|s| - 1];
      FilterTwice(u, p, q, both);
      assert x in s && forall y <- u :: y in s;
      if p(x) {
        assert Filter(s, p) == Filter(u, p) + [x];
        FilterPush(Filter(u, p), x, q);
      } else {
        assert Filter(s, p) == Filter(u, p);
      }
    }
  }

  lemma {:induction false} FilterShorter<T>(s: seq<T>, p: T -> bool)
    ensures |Filter(s, p)| <= |s|
  {
    if s != [] { FilterShorter(s[..|s| - 1], p); }
  }

  // A narrower filter keeps as much as a wider one exactly when it drops nothing the wider one keeps.
  lemma {:induction false} FilterEqual<T>(s: seq<T>, narrow: T -> bool, wide: T -> bool)
    requires forall x <- s :: narrow(x) ==> wide(x)
    ensures |Filter(s, narrow)| <= |Filter(s, wide)|
    ensures |Filter(s, narrow)| == |Filter(s, wide)| ==> forall x <- s :: wide(x) ==> narrow(x)
    ensures Filter(s, narrow) == Filter(s, wide) <==> forall x <- s :: wide(x) ==> narrow(x)
  {
    if s != [] {
      FilterEqual(s[..|s| - 1], narrow, wide);
      if forall x <- s :: wide(x) ==> narrow(x) { FilterSame(s, narrow, wide); }
    }
  }
}
