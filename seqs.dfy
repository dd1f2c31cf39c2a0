/** Sequence helpers shared by the model: the JavaScript idioms the dashboard
    uses on arrays (`filter`, `Array.from(new Set(xs))`) and the properties
    they are expected to have (no duplicates, first-occurrence order,
    subsequence). */
module Seqs {

  /** No element occurs twice. */
  ghost predicate NoDuplicates<T>(xs: seq<T>) {
    forall i, j :: 0 <= i < j < |xs| ==> xs[i] != xs[j]
  }

  /** Index of the first occurrence of `x` in `xs`. */
  function FirstIndex<T(==)>(xs: seq<T>, x: T): (i: nat)
    requires x in xs
    ensures i < |xs| && xs[i] == x
    ensures forall j :: 0 <= j < i ==> xs[j] != x
  {
    if xs[0] == x then 0 else 1 + FirstIndex(xs[1..], x)
  }

  /** Every element of `r` comes from `xs`, and `r` lists them in the order
      in which they first occur in `xs`. */
  ghost predicate InFirstOccurrenceOrder<T>(r: seq<T>, xs: seq<T>) {
    && (forall x :: x in r ==> x in xs)
    && (forall i, j :: 0 <= i < j < |r| ==> FirstIndex(xs, r[i]) < FirstIndex(xs, r[j]))
  }

  /** `a` can be obtained from `b` by deleting elements. */
  ghost predicate IsSubsequence<T>(a: seq<T>, b: seq<T>)
    decreases |b|
  {
    || a == []
    || (&& b != []
        && (|| (a[0] == b[0] && IsSubsequence(a[1..], b[1..]))
            || IsSubsequence(a, b[1..])))
  }

  /** `Array.prototype.filter`: the elements satisfying `p`, in order, each
      occurrence of a passing element kept and every other one dropped. */
  function Filter<T(!new)>(xs: seq<T>, p: T -> bool): (r: seq<T>)
    ensures |r| <= |xs|
    ensures forall x :: x in r <==> x in xs && p(x)
  {
    if xs == [] then []
    else (if p(xs[0]) then [xs[0]] else []) + Filter(xs[1..], p)
  }

  /** `filter` keeps every occurrence of a passing element and drops every
      occurrence of the others. */
  lemma {:induction false} FilterMultiset<T(!new)>(xs: seq<T>, p: T -> bool)
    ensures forall x :: multiset(Filter(xs, p))[x] == if p(x) then multiset(xs)[x] else 0
  {
    if xs != [] {
      FilterMultiset(xs[1..], p);
      assert xs == [xs[0]] + xs[1..];
    }
  }

  /** `Array.from(new Set(xs))`: a JavaScript `Set` iterates in insertion
      order and ignores re-insertions, so the first occurrence of each value
      is kept. */
  function Dedup<T(==,!new)>(xs: seq<T>): (r: seq<T>)
    ensures |r| <= |xs|
    ensures forall x :: x in r <==> x in xs
    ensures NoDuplicates(r)
  {
    if xs == [] then []
    else
      var d := Dedup(xs[..|xs| - 1]);
      var last := xs[|xs| - 1];
      assert xs == xs[..|xs| - 1] + [last];
      if last in d then d else d + [last]
  }

  /** The first occurrence of a value in a prefix is its first occurrence in
      the whole sequence. */
  lemma FirstIndexInPrefix<T>(xs: seq<T>, n: nat, x: T)
    requires n <= |xs| && x in xs[..n]
    ensures x in xs && FirstIndex(xs, x) == FirstIndex(xs[..n], x)
  {
    var b := FirstIndex(xs[..n], x);
    assert xs[b] == x;
    var a := FirstIndex(xs, x);
    assert a <= b;
    assert xs[..n][a] == x;
  }

  lemma {:induction false} DedupFirstOccurrenceOrder<T(!new)>(xs: seq<T>)
    ensures InFirstOccurrenceOrder(Dedup(xs), xs)
  {
    if xs != [] {
      var init := xs[..|xs| - 1];
      var last := xs[|xs| - 1];
      var d := Dedup(init);
      DedupFirstOccurrenceOrder(init);
      forall y | y in d
        ensures y in xs && FirstIndex(xs, y) == FirstIndex(init, y) < |init|
      {
        FirstIndexInPrefix(xs, |xs| - 1, y);
      }
      if last !in d {
        assert last !in init;
        assert FirstIndex(xs, last) == |xs| - 1;
        var r := d + [last];
        assert Dedup(xs) == r;
        forall i, j | 0 <= i < j < |r|
          ensures FirstIndex(xs, r[i]) < FirstIndex(xs, r[j])
        {
          assert r[i] == d[i];
          if j < |d| { assert r[j] == d[j]; }
        }
      }
    }
  }

  lemma {:induction false} FilterIsSubsequence<T(!new)>(xs: seq<T>, p: T -> bool)
    ensures IsSubsequence(Filter(xs, p), xs)
  {
    if xs != [] {
      FilterIsSubsequence(xs[1..], p);
      var rest := Filter(xs[1..], p);
      if p(xs[0]) {
        assert Filter(xs, p) == [xs[0]] + rest;
        assert ([xs[0]] + rest)[1..] == rest;
      } else {
        assert Filter(xs, p) == rest;
      }
    }
  }

  lemma {:induction false} FilterKeepsNoDuplicates<T(!new)>(xs: seq<T>, p: T -> bool)
    requires NoDuplicates(xs)
    ensures NoDuplicates(Filter(xs, p))
  {
    if xs != [] {
      assert NoDuplicates(xs[1..]) by {
        forall i, j | 0 <= i < j < |xs| - 1 ensures xs[1..][i] != xs[1..][j] {
          assert xs[1..][i] == xs[i + 1] && xs[1..][j] == xs[j + 1];
        }
      }
      FilterKeepsNoDuplicates(xs[1..], p);
      var rest := Filter(xs[1..], p);
      if p(xs[0]) {
        assert xs[0] !in xs[1..];
        var r := [xs[0]] + rest;
        forall i, j | 0 <= i < j < |r| ensures r[i] != r[j] {
          assert r[j] == rest[j - 1];
          if i > 0 { assert r[i] == rest[i - 1]; }
        }
      }
    }
  }

  /** Dropping the head keeps first-occurrence order, and the head comes
      before everything after it. */
  lemma OrderTail<T>(r: seq<T>, xs: seq<T>)
    requires r != [] && InFirstOccurrenceOrder(r, xs)
    ensures InFirstOccurrenceOrder(r[1..], xs)
    ensures forall y :: y in r[1..] ==> FirstIndex(xs, r[0]) < FirstIndex(xs, y)
  {
    forall i, j | 0 <= i < j < |r| - 1
      ensures FirstIndex(xs, r[1..][i]) < FirstIndex(xs, r[1..][j])
    {
      assert r[1..][i] == r[i + 1] && r[1..][j] == r[j + 1];
    }
    forall y | y in r[1..] ensures FirstIndex(xs, r[0]) < FirstIndex(xs, y) {
      var k :| 0 <= k < |r| - 1 && r[1..][k] == y;
      assert r[k + 1] == y;
    }
  }

  /** A head that comes before every element of an ordered tail extends it. */
  lemma OrderCons<T>(x: T, rest: seq<T>, xs: seq<T>)
    requires x in xs && InFirstOccurrenceOrder(rest, xs)
    requires forall y :: y in rest ==> FirstIndex(xs, x) < FirstIndex(xs, y)
    ensures InFirstOccurrenceOrder([x] + rest, xs)
  {
    var f := [x] + rest;
    forall i, j | 0 <= i < j < |f|
      ensures FirstIndex(xs, f[i]) < FirstIndex(xs, f[j])
    {
      assert f[j] == rest[j - 1];
      if i > 0 { assert f[i] == rest[i - 1]; }
    }
  }

  lemma {:induction false} FilterKeepsFirstOccurrenceOrder<T(!new)>(r: seq<T>, xs: seq<T>, p: T -> bool)
    requires InFirstOccurrenceOrder(r, xs)
    ensures InFirstOccurrenceOrder(Filter(r, p), xs)
  {
    if r != [] {
      OrderTail(r, xs);
      FilterKeepsFirstOccurrenceOrder(r[1..], xs, p);
      if p(r[0]) {
        OrderCons(r[0], Filter(r[1..], p), xs);
      }
    }
  }

  /** Filtering with a predicate that every element satisfies changes nothing. */
  lemma {:induction false} FilterAll<T(!new)>(xs: seq<T>, p: T -> bool)
    requires forall x :: x in xs ==> p(x)
    ensures Filter(xs, p) == xs
  {
    if xs != [] {
      FilterAll(xs[1..], p);
      assert [xs[0]] + xs[1..] == xs;
    }
  }

  /** Filtering with a predicate that no element satisfies leaves nothing. */
  lemma {:induction false} FilterNone<T(!new)>(xs: seq<T>, p: T -> bool)
    requires forall x :: x in xs ==> !p(x)
    ensures Filter(xs, p) == []
  {
    if xs != [] {
      FilterNone(xs[1..], p);
    }
  }
}
