/**
 * `Array.prototype.sort` of the source as a function: stable, driven by a comparison.
 * An element is inserted in front of the first one that is strictly greater.
 */
module Sorting {
  ghost predicate TotalPreorder<T(!new)>(le: (T, T) -> bool) {
    && (forall a, b :: le(a, b) || le(b, a))
    && (forall a, b, c :: le(a, b) && le(b, c) ==> le(a, c))
  }

  ghost predicate SortedBy<T>(le: (T, T) -> bool, xs: seq<T>) {
    forall i, j :: 0 <= i < j < |xs| ==> le(xs[i], xs[j])
  }

  function InsertBy<T>(le: (T, T) -> bool, x: T, xs: seq<T>): seq<T> {
    if xs == [] then [x]
    else if le(x, xs[0]) then [x] + xs
    else [xs[0]] + InsertBy(le, x, xs[1..])
  }

  function SortBy<T>(le: (T, T) -> bool, xs: seq<T>): seq<T> {
    if xs == [] then [] else InsertBy(le, xs[0], SortBy(le, xs[1..]))
  }

  lemma {:induction false} InsertByProperties<T(!new)>(le: (T, T) -> bool, x: T, xs: seq<T>)
    requires TotalPreorder(le) && SortedBy(le, xs)
    ensures SortedBy(le, InsertBy(le, x, xs))
    ensures multiset(InsertBy(le, x, xs)) == multiset(xs) + multiset{x}
  {
    if xs == [] {
    } else if le(x, xs[0]) {
      assert forall i :: 0 <= i < |xs| ==> le(xs[0], xs[i]) || i == 0;
    } else {
      var rest := InsertBy(le, x, xs[1..]);
      InsertByProperties(le, x, xs[1..]);
      assert xs == [xs[0]] + xs[1..];
      var r := [xs[0]] + rest;
      forall j | 0 < j < |r| ensures le(r[0], r[j]) {
        assert r[j] == rest[j - 1];
        assert r[j] in multiset(rest);
        if r[j] != x {
          assert r[j] in multiset(xs[1..]);
          var k :| 0 <= k < |xs[1..]| && xs[1..][k] == r[j];
          assert xs[k + 1] == r[j];
        }
      }
    }
  }

  lemma {:induction false} SortByProperties<T(!new)>(le: (T, T) -> bool, xs: seq<T>)
    requires TotalPreorder(le)
    ensures SortedBy(le, SortBy(le, xs))
    ensures multiset(SortBy(le, xs)) == multiset(xs)
    ensures |SortBy(le, xs)| == |xs|
  {
    if xs != [] {
      SortByProperties(le, xs[1..]);
      InsertByProperties(le, xs[0], SortBy(le, xs[1..]));
      assert xs == [xs[0]] + xs[1..];
    }
    assert |multiset(SortBy(le, xs))| == |multiset(xs)|;
  }

  lemma TailMultiset(x: nat, front: seq<nat>, rest: seq<nat>)
    requires multiset([x] + front) == multiset([x] + rest)
    ensures multiset(front) == multiset(rest)
  {
    assert multiset([x] + front) == multiset{x} + multiset(front);
    assert multiset([x] + rest) == multiset{x} + multiset(rest);
    assert multiset(front) == multiset([x] + front) - multiset{x};
    assert multiset(rest) == multiset([x] + rest) - multiset{x};
  }

  lemma LeastComesFirst(xs: seq<nat>, ys: seq<nat>)
    requires multiset(xs) == multiset(ys) && ys != []
    requires forall i :: 0 <= i < |xs| ==> xs[0] <= xs[i]
    ensures xs != [] && xs[0] <= ys[0]
  {
    assert ys[0] in multiset(xs);
  }

  /** A collection of numbers has one ascending list. */
  lemma {:induction false} SortedIsUnique(xs: seq<nat>, ys: seq<nat>)
    requires multiset(xs) == multiset(ys)
    requires forall i, j :: 0 <= i < j < |xs| ==> xs[i] <= xs[j]
    requires forall i, j :: 0 <= i < j < |ys| ==> ys[i] <= ys[j]
    ensures xs == ys
  {
    if xs != [] && ys != [] {
      LeastComesFirst(xs, ys);
      LeastComesFirst(ys, xs);
      assert xs == [xs[0]] + xs[1..] && ys == [xs[0]] + ys[1..];
      TailMultiset(xs[0], xs[1..], ys[1..]);
      SortedIsUnique(xs[1..], ys[1..]);
    } else {
      assert |multiset(xs)| == |multiset(ys)|;
    }
  }

  /** A list without repetition, seen through its elements. */
  ghost predicate Distinct<T>(xs: seq<T>) {
    forall i, j :: 0 <= i < j < |xs| ==> xs[i] != xs[j]
  }

  /** A list's elements without repetition, in first-come order: what a JavaScript `Set` iterates over. */
  function Dedup<T(==)>(xs: seq<T>): seq<T> {
    if xs == [] then []
    else
      var d := Dedup(xs[..|xs| - 1]);
      if xs[|xs| - 1] in d then d else d + [xs[|xs| - 1]]
  }

  lemma {:induction false} DedupProperties<T>(xs: seq<T>)
    ensures Distinct(Dedup(xs)) && |Dedup(xs)| <= |xs|
    ensures forall x :: x in Dedup(xs) <==> x in xs
    ensures Dedup(xs) == xs <==> Distinct(xs)
    ensures |Dedup(xs)| == |xs| <==> Distinct(xs)
  {
    if xs != [] {
      var front, l := xs[..|xs| - 1], xs[|xs| - 1];
      assert xs == front + [l];
      DedupProperties(front);
    }
  }

  lemma {:induction false} DistinctMultiset<T>(xs: seq<T>)
    ensures Distinct(xs) <==> forall x :: x in xs ==> multiset(xs)[x] == 1
  {
    if xs != [] {
      var p, l := xs[..|xs| - 1], xs[|xs| - 1];
      assert xs == p + [l];
      DistinctMultiset(p);
      if Distinct(xs) {
        assert l !in p;
        forall x | x in xs ensures multiset(xs)[x] == 1 {
          if x == l { assert l !in multiset(p); } else { assert x in p; }
        }
      } else if Distinct(p) {
        var i, j :| 0 <= i < j < |xs| && xs[i] == xs[j];
        assert j == |p| && p[i] == l;
        assert l in multiset(p);
        assert multiset(xs)[l] >= 2;
      } else {
        var x :| x in p && multiset(p)[x] != 1;
        assert x in multiset(p);
        assert multiset(xs)[x] >= 2 && x in xs;
      }
    }
  }

  /** Rearranging a list keeps it free of repetition. */
  lemma PermutationDistinct<T>(xs: seq<T>, ys: seq<T>)
    requires multiset(xs) == multiset(ys) && Distinct(xs)
    ensures Distinct(ys)
  {
    DistinctMultiset(xs);
    DistinctMultiset(ys);
    forall x | x in ys ensures multiset(ys)[x] == 1 {
      assert x in multiset(ys);
    }
  }

  // ---------------------------------------------------------------- stability

  /** The elements that satisfy `p`, in their order. */
  function Where<T>(p: T -> bool, xs: seq<T>): seq<T> {
    if xs == [] then [] else (if p(xs[0]) then [xs[0]] else []) + Where(p, xs[1..])
  }

  lemma WhereFront<T>(p: T -> bool, x: T, rest: seq<T>)
    ensures Where(p, [x] + rest) == (if p(x) then [x] else []) + Where(p, rest)
  {
    assert ([x] + rest)[1..] == rest;
  }

  lemma {:induction false} InsertIsStable<T(!new)>(le: (T, T) -> bool, p: T -> bool, x: T, xs: seq<T>)
    requires forall a, b :: p(a) && p(b) ==> le(a, b)
    ensures Where(p, InsertBy(le, x, xs)) == (if p(x) then [x] else []) + Where(p, xs)
  {
    if xs == [] || le(x, xs[0]) {
      assert InsertBy(le, x, xs) == [x] + xs;
      WhereFront(p, x, xs);
    } else {
      assert !(p(x) && p(xs[0]));
      InsertIsStable(le, p, x, xs[1..]);
      WhereFront(p, xs[0], InsertBy(le, x, xs[1..]));
    }
  }

  /** Elements that the comparison does not tell apart keep their order. */
  lemma {:induction false} SortIsStable<T(!new)>(le: (T, T) -> bool, p: T -> bool, xs: seq<T>)
    requires forall a, b :: p(a) && p(b) ==> le(a, b)
    ensures Where(p, SortBy(le, xs)) == Where(p, xs)
  {
    if xs != [] {
      SortIsStable(le, p, xs[1..]);
      InsertIsStable(le, p, xs[0], SortBy(le, xs[1..]));
    }
  }
}
