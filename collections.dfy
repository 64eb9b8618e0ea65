/**
 Sequence helpers shared by the pages: the distinct values of a list in the
 order a JavaScript `Set` keeps them (`Array.from(new Set(xs))`), an ascending
 sort, and the subsequence relation used to state that a filter keeps order.
 */
module Collections {

  predicate NoDuplicates<T(==)>(xs: seq<T>) {
    forall i, j :: 0 <= i < j < |xs| ==> xs[i] != xs[j]
  }

  /** Index of the first occurrence of `x` in `xs`. */
  function FirstIndex<T(==)>(xs: seq<T>, x: T): (k: nat)
    requires x in xs
    ensures k < |xs| && xs[k] == x
    ensures forall j :: 0 <= j < k ==> xs[j] != x
  {
    if xs[0] == x then 0 else 1 + FirstIndex(xs[1..], x)
  }

  lemma {:induction false} FirstIndexPrefix<T>(xs: seq<T>, y: T, x: T)
    requires x in xs
    ensures x in xs + [y] && FirstIndex(xs + [y], x) == FirstIndex(xs, x)
  {
    if xs[0] != x {
      assert (xs + [y])[1..] == xs[1..] + [y];
      FirstIndexPrefix(xs[1..], y, x);
    }
  }

  /**
   The values of `xs`, each once, in the order in which a `Set` built by
   adding the elements of `xs` one after another yields them: an element is
   appended when it is first seen and ignored afterwards.
   */
  function Distinct<T(==,!new)>(xs: seq<T>): (r: seq<T>)
    ensures forall x :: x in r <==> x in xs
    ensures NoDuplicates(r)
    ensures |r| <= |xs|
  {
    if xs == [] then []
    else
      var prev := Distinct(xs[..|xs| - 1]);
      var x := xs[|xs| - 1];
      assert xs == xs[..|xs| - 1] + [x];
      if x in prev then prev else prev + [x]
  }

  /** The distinct values come out in the order of their first occurrence in `xs`. */
  lemma {:induction false} DistinctFirstOccurrenceOrder<T(!new)>(xs: seq<T>, i: nat, j: nat)
    requires i < j < |Distinct(xs)|
    ensures FirstIndex(xs, Distinct(xs)[i]) < FirstIndex(xs, Distinct(xs)[j])
  {
    var init := xs[..|xs| - 1];
    var x := xs[|xs| - 1];
    assert xs == init + [x];
    var prev := Distinct(init);
    var r := Distinct(xs);
    assert r[i] in prev && (j < |prev| ==> r[j] in prev);
    FirstIndexPrefix(init, x, r[i]);
    if j < |prev| {
      assert r[i] == prev[i] && r[j] == prev[j];
      FirstIndexPrefix(init, x, r[j]);
      DistinctFirstOccurrenceOrder(init, i, j);
    } else {
      assert r[j] == x && x !in init;
      assert FirstIndex(xs, x) == |init| by {
        forall k | 0 <= k < |init| ensures xs[k] != x { assert xs[k] == init[k]; }
        assert xs[|init|] == x;
        FirstIndexIsFirst(xs, x, |init|);
      }
    }
  }

  lemma {:induction false} FirstIndexIsFirst<T>(xs: seq<T>, x: T, k: nat)
    requires k < |xs| && xs[k] == x
    requires forall j :: 0 <= j < k ==> xs[j] != x
    ensures FirstIndex(xs, x) == k
  {
    if k > 0 {
      assert xs[0] != x;
      FirstIndexIsFirst(xs[1..], x, k - 1);
    }
  }

  predicate Sorted(xs: seq<int>) {
    forall i, j :: 0 <= i < j < |xs| ==> xs[i] <= xs[j]
  }

  predicate StrictlySorted(xs: seq<int>) {
    forall i, j :: 0 <= i < j < |xs| ==> xs[i] < xs[j]
  }

  /** Places `x` in front of the first element of `s` that is not smaller. */
  function Insert(x: int, s: seq<int>): (r: seq<int>)
    ensures multiset(r) == multiset(s) + multiset{x}
    ensures forall y :: y in r <==> y == x || y in s
  {
    if s == [] || x <= s[0] then [x] + s
    else
      assert s == [s[0]] + s[1..];
      var rest := Insert(x, s[1..]);
      assert multiset([s[0]] + rest) == multiset{s[0]} + multiset(rest);
      [s[0]] + rest
  }

  /** Inserting into a sorted sequence keeps it sorted. */
  lemma {:induction false} InsertSorted(x: int, s: seq<int>)
    requires Sorted(s)
    ensures Sorted(Insert(x, s))
  {
    if s != [] && x > s[0] {
      var rest := Insert(x, s[1..]);
      InsertSorted(x, s[1..]);
      forall k | 0 <= k < |rest| ensures s[0] <= rest[k] {
        assert rest[k] in rest;
        if rest[k] != x {
          var i :| 0 <= i < |s[1..]| && s[1..][i] == rest[k];
          assert s[i + 1] == rest[k];
        }
      }
      SortedCons(s[0], rest);
    }
  }

  /** A sorted sequence stays sorted with a smallest element put in front. */
  lemma SortedCons(h: int, t: seq<int>)
    requires Sorted(t) && forall k :: 0 <= k < |t| ==> h <= t[k]
    ensures Sorted([h] + t)
  {
  }

  /** Ascending order (the default `Array.prototype.sort` on the date keys), by insertion. */
  function Sort(xs: seq<int>): (r: seq<int>)
    ensures multiset(r) == multiset(xs)
    ensures forall y :: y in r <==> y in xs
  {
    if xs == [] then []
    else
      assert xs == [xs[0]] + xs[1..];
      Insert(xs[0], Sort(xs[1..]))
  }

  /** The sort's result is ascending. */
  lemma {:induction false} SortSorted(xs: seq<int>)
    ensures Sorted(Sort(xs))
  {
    if xs != [] {
      SortSorted(xs[1..]);
      InsertSorted(xs[0], Sort(xs[1..]));
    }
  }

  /** A sorted sequence whose elements occur once each is strictly increasing. */
  lemma SortedDistinctIsStrict(xs: seq<int>)
    requires NoDuplicates(Sort(xs))
    ensures StrictlySorted(Sort(xs))
  {
    SortSorted(xs);
  }

  /** Sorting keeps a duplicate-free sequence duplicate-free. */
  lemma {:induction false} SortKeepsNoDuplicates(xs: seq<int>)
    requires NoDuplicates(xs)
    ensures NoDuplicates(Sort(xs))
  {
    if xs != [] {
      var tail := xs[1..];
      assert NoDuplicates(tail) by {
        forall i, j | 0 <= i < j < |tail| ensures tail[i] != tail[j] { assert tail[i] == xs[i + 1] && tail[j] == xs[j + 1]; }
      }
      SortKeepsNoDuplicates(tail);
      assert xs[0] !in tail by {
        forall k | 0 <= k < |tail| ensures tail[k] != xs[0] { assert tail[k] == xs[k + 1]; }
      }
      SortSorted(tail);
      InsertFreshKeepsNoDuplicates(xs[0], Sort(tail));
    }
  }

  lemma {:induction false} InsertFreshKeepsNoDuplicates(x: int, s: seq<int>)
    requires Sorted(s) && NoDuplicates(s) && x !in s
    ensures NoDuplicates(Insert(x, s))
  {
    if s != [] && x > s[0] {
      var tail := s[1..];
      assert NoDuplicates(tail) by {
        forall i, j | 0 <= i < j < |tail| ensures tail[i] != tail[j] { assert tail[i] == s[i + 1] && tail[j] == s[j + 1]; }
      }
      assert s[0] !in tail by {
        forall k | 0 <= k < |tail| ensures tail[k] != s[0] { assert tail[k] == s[k + 1]; }
      }
      assert Sorted(tail);
      InsertFreshKeepsNoDuplicates(x, tail);
      var r := Insert(x, s);
      assert r == [s[0]] + Insert(x, tail);
      assert s[0] !in Insert(x, tail);
    }
  }

  /** `xs` can be obtained from `ys` by deleting elements. */
  ghost predicate Subseq<T>(xs: seq<T>, ys: seq<T>) {
    xs == [] || (ys != [] && ((xs[0] == ys[0] && Subseq(xs[1..], ys[1..])) || Subseq(xs, ys[1..])))
  }
}
