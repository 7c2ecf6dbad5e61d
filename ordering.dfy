/**
 * The collection idioms the core relies on: `Array.prototype.map`,
 * `Array.prototype.sort` with a comparator (a stable sort) and `[...new Set(xs)]`
 * (first occurrences, in order).
 */
module Ordering {

  /** `s.map(f)`. */
  function MapSeq<A, B>(s: seq<A>, f: A -> B): (r: seq<B>)
    ensures |r| == |s|
    ensures forall i :: 0 <= i < |s| ==> r[i] == f(s[i])
  {
    if s == [] then [] else [f(s[0])] + MapSeq(s[1..], f)
  }

  /** Adjacent elements are in comparator order. */
  ghost predicate SortedBy<T(!new)>(l: seq<T>, cmp: (T, T) -> real) {
    forall i :: 0 <= i < |l| - 1 ==> cmp(l[i], l[i + 1]) <= 0.0
  }

  /**
   * What `Array.prototype.sort` needs of a comparator on the elements in `xs`:
   * swapping the arguments of two different elements never makes both comparisons
   * positive. An element that compares after itself is allowed once, since the sort
   * never compares an element with itself.
   */
  ghost predicate Antisymmetric<T(!new)>(cmp: (T, T) -> real, xs: seq<T>) {
    forall a, b :: a in xs && b in xs && cmp(a, b) > 0.0 ==>
      (cmp(b, a) <= 0.0 || (a == b && multiset(xs)[a] == 1))
  }

  /** Places `x` before the first element it does not compare after. */
  function Insert<T>(x: T, l: seq<T>, cmp: (T, T) -> real): (r: seq<T>)
    ensures multiset(r) == multiset(l) + multiset{x}
    ensures |r| == |l| + 1
  {
    if l == [] || cmp(x, l[0]) <= 0.0 then [x] + l
    else
      assert l == [l[0]] + l[1..];
      [l[0]] + Insert(x, l[1..], cmp)
  }

  /**
   * A stable sort: each element is inserted, from the back of the input, before
   * the first element it does not compare after, so equal elements keep their order.
   */
  function SortBy<T>(s: seq<T>, cmp: (T, T) -> real): (r: seq<T>)
    ensures multiset(r) == multiset(s)
    ensures |r| == |s|
  {
    if s == [] then []
    else
      assert s == [s[0]] + s[1..];
      Insert(s[0], SortBy(s[1..], cmp), cmp)
  }

  lemma {:induction false} InsertSorted<T(!new)>(x: T, l: seq<T>, cmp: (T, T) -> real, xs: seq<T>)
    requires Antisymmetric(cmp, xs)
    requires multiset(l) + multiset{x} <= multiset(xs)
    requires SortedBy(l, cmp)
    ensures SortedBy(Insert(x, l, cmp), cmp)
  {
    if l == [] || cmp(x, l[0]) <= 0.0 {
      SortedCons(x, l, cmp);
    } else {
      var t := l[1..];
      PassedOver(x, l, cmp, xs);
      SortedTail(l, cmp);
      assert multiset(t) + multiset{x} <= multiset(xs) by {
        assert l == [l[0]] + t;
      }
      InsertSorted(x, t, cmp, xs);
      InsertHead(x, t, cmp);
      SortedCons(l[0], Insert(x, t, cmp), cmp);
    }
  }

  /** An element the insertion passes over compares no later than the inserted one. */
  lemma PassedOver<T(!new)>(x: T, l: seq<T>, cmp: (T, T) -> real, xs: seq<T>)
    requires Antisymmetric(cmp, xs)
    requires multiset(l) + multiset{x} <= multiset(xs)
    requires l != [] && cmp(x, l[0]) > 0.0
    ensures cmp(l[0], x) <= 0.0
  {
    assert l[0] in multiset(l);
    assert x in multiset(xs) && l[0] in multiset(xs);
    assert multiset(xs)[l[0]] >= multiset(l)[l[0]] + multiset{x}[l[0]];
  }

  /** The front of an insertion is the inserted element or the old front. */
  lemma InsertHead<T>(x: T, l: seq<T>, cmp: (T, T) -> real)
    ensures Insert(x, l, cmp)[0] == x || (l != [] && Insert(x, l, cmp)[0] == l[0])
  {
  }

  lemma SortedTail<T(!new)>(l: seq<T>, cmp: (T, T) -> real)
    requires l != [] && SortedBy(l, cmp)
    ensures SortedBy(l[1..], cmp)
    ensures |l| > 1 ==> cmp(l[0], l[1]) <= 0.0
  {
    var t := l[1..];
    assert forall i :: 0 <= i < |t| ==> t[i] == l[i + 1];
  }

  lemma SortedCons<T(!new)>(h: T, r: seq<T>, cmp: (T, T) -> real)
    requires SortedBy(r, cmp)
    requires r != [] ==> cmp(h, r[0]) <= 0.0
    ensures SortedBy([h] + r, cmp)
  {
    var l := [h] + r;
    assert forall i :: 1 <= i < |l| ==> l[i] == r[i - 1];
  }

  /** The result of the sort is in comparator order whenever the comparator is antisymmetric on the input. */
  lemma {:induction false} SortBySorted<T(!new)>(s: seq<T>, cmp: (T, T) -> real)
    requires Antisymmetric(cmp, s)
    ensures SortedBy(SortBy(s, cmp), cmp)
  {
    if s != [] {
      assert s == [s[0]] + s[1..];
      assert Antisymmetric(cmp, s[1..]) by {
        forall a, b | a in s[1..] && b in s[1..] && cmp(a, b) > 0.0
          ensures cmp(b, a) <= 0.0 || (a == b && multiset(s[1..])[a] == 1)
        {
          assert a in s && b in s;
          assert multiset(s)[a] == multiset(s[1..])[a] + multiset([s[0]])[a];
          assert a in multiset(s[1..]);
        }
      }
      SortBySorted(s[1..], cmp);
      var l := SortBy(s[1..], cmp);
      InsertSorted(s[0], l, cmp, s);
    }
  }

  /** `s.filter(p)`: the elements that satisfy `p`, in their order. */
  function Filter<T>(s: seq<T>, p: T -> bool): (r: seq<T>)
    ensures |r| <= |s|
    ensures forall i :: 0 <= i < |r| ==> p(r[i])
    ensures multiset(r) <= multiset(s)
  {
    if s == [] then []
    else
      assert s == [s[0]] + s[1..];
      if p(s[0]) then [s[0]] + Filter(s[1..], p) else Filter(s[1..], p)
  }

  /** Filtering a concatenation filters each part. */
  lemma {:induction false} FilterConcat<T>(a: seq<T>, b: seq<T>, p: T -> bool)
    ensures Filter(a + b, p) == Filter(a, p) + Filter(b, p)
  {
    if a == [] {
      assert a + b == b;
    } else {
      assert (a + b)[1..] == a[1..] + b;
      FilterConcat(a[1..], b, p);
    }
  }

  /** A filter that every element passes keeps the sequence; one that none passes empties it. */
  lemma {:induction false} FilterAll<T>(s: seq<T>, p: T -> bool)
    ensures (forall i :: 0 <= i < |s| ==> p(s[i])) ==> Filter(s, p) == s
    ensures (forall i :: 0 <= i < |s| ==> !p(s[i])) ==> Filter(s, p) == []
  {
    if s != [] {
      FilterAll(s[1..], p);
      assert forall i :: 0 <= i < |s[1..]| ==> s[1..][i] == s[i + 1];
    }
  }

  /** A filter and its complement split a sequence into two parts whose contents add up to it. */
  lemma {:induction false} FilterPartition<T>(s: seq<T>, p: T -> bool, q: T -> bool)
    requires forall x :: q(x) == !p(x)
    ensures multiset(Filter(s, p)) + multiset(Filter(s, q)) == multiset(s)
  {
    if s != [] {
      FilterPartition(s[1..], p, q);
      FilterStep(s, p);
      FilterStep(s, q);
      assert multiset(s) == multiset{s[0]} + multiset(s[1..]) by { assert s == [s[0]] + s[1..]; }
      assert q(s[0]) == !p(s[0]);
    }
  }

  /** One step of `Filter`, on contents. */
  lemma FilterStep<T>(s: seq<T>, p: T -> bool)
    requires s != []
    ensures multiset(Filter(s, p)) == (if p(s[0]) then multiset{s[0]} else multiset{}) + multiset(Filter(s[1..], p))
  {
    if p(s[0]) {
      assert Filter(s, p) == [s[0]] + Filter(s[1..], p);
    }
  }

  /** `[...new Set(s)]`: the first occurrence of each element, in order. */
  function Dedup<T(==,!new)>(s: seq<T>): (r: seq<T>)
    ensures |r| <= |s|
    ensures forall x :: x in r <==> x in s
    ensures forall i, j :: 0 <= i < j < |r| ==> r[i] != r[j]
  {
    if s == [] then []
    else
      var d := Dedup(s[..|s| - 1]);
      assert forall x :: x in s <==> x in s[..|s| - 1] || x == s[|s| - 1];
      if s[|s| - 1] in d then d else d + [s[|s| - 1]]
  }

  /** De-duplication keeps the first element in front. */
  lemma {:induction false} DedupHead<T(!new)>(s: seq<T>)
    requires |s| > 0
    ensures |Dedup(s)| > 0 && Dedup(s)[0] == s[0]
  {
    if |s| > 1 {
      DedupHead(s[..|s| - 1]);
      assert s[..|s| - 1][0] == s[0];
    } else {
      assert s[..|s| - 1] == [];
    }
  }

  /** A sequence without repetitions is its own de-duplication. */
  lemma {:induction false} DedupDistinct<T(!new)>(s: seq<T>)
    requires forall i, j :: 0 <= i < j < |s| ==> s[i] != s[j]
    ensures Dedup(s) == s
  {
    if s != [] {
      var p := s[..|s| - 1];
      DedupDistinct(p);
      assert s[|s| - 1] !in p;
      assert p + [s[|s| - 1]] == s;
    }
  }
}
