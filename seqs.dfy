/** Sequence operations the client and the server both use: comprehension filters and de-duplication. */
module Seqs {

  /** `a` is `b` with some elements left out, the rest in their order. */
  ghost predicate IsSubseq<T>(a: seq<T>, b: seq<T>)
    decreases |b|
  {
    a == [] || (b != [] && ((a[0] == b[0] && IsSubseq(a[1..], b[1..])) || IsSubseq(a, b[1..])))
  }

  /** The elements of `s` that satisfy `f`, in order: `[x for x in s if f(x)]`, `s.filter(f)`. */
  function Filter<T>(s: seq<T>, f: T -> bool): seq<T>
    decreases |s|
  {
    if s == [] then [] else if f(s[0]) then [s[0]] + Filter(s[1..], f) else Filter(s[1..], f)
  }

  /**
   * A filter keeps exactly the elements that satisfy the predicate, as many times as they
   * occur, in their original relative order.
   */
  lemma {:induction false} FilterKeepsExactlyMatching<T>(s: seq<T>, f: T -> bool)
    ensures forall x :: x in Filter(s, f) ==> x in s && f(x)
    ensures forall x | x in s && f(x) :: multiset(Filter(s, f))[x] == multiset(s)[x]
    ensures IsSubseq(Filter(s, f), s)
    decreases |s|
  {
    if s != [] {
      FilterKeepsExactlyMatching(s[1..], f);
      assert s == [s[0]] + s[1..];
    }
  }

  /** A filter that every element passes leaves the sequence unchanged. */
  lemma {:induction false} FilterAllPass<T>(s: seq<T>, f: T -> bool)
    requires forall k :: 0 <= k < |s| ==> f(s[k])
    ensures Filter(s, f) == s
    decreases |s|
  {
    if s != [] {
      FilterAllPass(s[1..], f);
    }
  }

  /** Two filters in a row keep what passes both. */
  lemma {:induction false} FilterTwice<T>(s: seq<T>, f: T -> bool, g: T -> bool, h: T -> bool)
    requires forall x :: h(x) == (f(x) && g(x))
    ensures Filter(Filter(s, f), g) == Filter(s, h)
    decreases |s|
  {
    if s != [] {
      FilterTwice(s[1..], f, g, h);
      if f(s[0]) {
        assert Filter(s, f) == [s[0]] + Filter(s[1..], f);
        assert ([s[0]] + Filter(s[1..], f))[1..] == Filter(s[1..], f);
      }
    }
  }

  /** The index of the first occurrence of `x` in `s`. */
  function FirstIndex<T(==)>(s: seq<T>, x: T): (i: nat)
    requires x in s
    ensures i < |s| && s[i] == x && x !in s[..i]
  {
    if s[0] == x then 0
    else
      var i := 1 + FirstIndex(s[1..], x);
      assert s[..i] == [s[0]] + s[1..][..i - 1];
      i
  }

  /** An occurrence of `x` with no earlier one is the first occurrence. */
  lemma FirstIndexUnique<T>(s: seq<T>, x: T, i: nat)
    requires i < |s| && s[i] == x && x !in s[..i]
    ensures FirstIndex(s, x) == i
  {
  }

  /** Appending elements does not move the first occurrence of an element already present. */
  lemma FirstIndexAppend<T>(a: seq<T>, b: seq<T>, x: T)
    requires x in a
    ensures x in a + b && FirstIndex(a + b, x) == FirstIndex(a, x)
  {
    var k := FirstIndex(a, x);
    assert (a + b)[..k] == a[..k];
    FirstIndexUnique(a + b, x, k);
  }

  /** The distinct elements of `s` in first-seen order: `Array.from(new Set(s))`. */
  function Distinct<T(==)>(s: seq<T>): (r: seq<T>)
    ensures forall i, j :: 0 <= i < j < |r| ==> r[i] != r[j]
    ensures forall k :: 0 <= k < |r| ==> r[k] in s
    ensures forall k :: 0 <= k < |s| ==> s[k] in r
  {
    if s == [] then []
    else
      var d := Distinct(s[..|s| - 1]);
      var x := s[|s| - 1];
      assert s == s[..|s| - 1] + [x];
      if x in d then d else d + [x]
  }

  /** `Distinct` lists the elements in the order of their first occurrences in `s`. */
  lemma {:induction false} DistinctFirstSeenOrder<T>(s: seq<T>)
    ensures forall i, j :: 0 <= i < j < |Distinct(s)| ==>
      FirstIndex(s, Distinct(s)[i]) < FirstIndex(s, Distinct(s)[j])
  {
    if s != [] {
      var p, x := s[..|s| - 1], s[|s| - 1];
      assert s == p + [x];
      DistinctFirstSeenOrder(p);
      var d := Distinct(p);
      forall y | y in p
        ensures FirstIndex(s, y) == FirstIndex(p, y)
      {
        FirstIndexAppend(p, [x], y);
      }
      if x !in d {
        assert s[..|p|] == p;
        FirstIndexUnique(s, x, |p|);
        assert Distinct(s) == d + [x];
      }
    }
  }
}
