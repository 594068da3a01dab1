/**
 * Counting over lists, and Python's `list.sort(key=...)`, which both generators call: a stable sort by an
 * ordered key. It is a library routine, so it is stated here by a reference
 * definition (insertion sort, which is stable) together with the promises of the
 * library: the result is ordered, is a permutation of the input, keeps the input
 * order among equal keys, and keeps every count taken over the elements.
 * `reverse=True` is the same sort on the negated key (Python keeps it stable).
 */
module Lists {

  /** Inserts `x` before the first element whose key is not below its own. */
  function InsertBy<T>(x: T, xs: seq<T>, key: T -> int): (r: seq<T>)
    ensures |r| == |xs| + 1
  {
    if xs == [] || key(x) <= key(xs[0]) then [x] + xs
    else [xs[0]] + InsertBy(x, xs[1..], key)
  }

  /** The stable sort of `xs` by `key`. */
  function SortBy<T>(xs: seq<T>, key: T -> int): (r: seq<T>)
    ensures |r| == |xs|
  {
    if xs == [] then [] else InsertBy(xs[0], SortBy(xs[1..], key), key)
  }

  predicate SortedBy<T>(xs: seq<T>, key: T -> int) {
    forall i, j :: 0 <= i < j < |xs| ==> key(xs[i]) <= key(xs[j])
  }

  /** Ordered by `key`, and by `rank` among elements of equal key. */
  predicate OrderedBy<T>(xs: seq<T>, key: T -> int, rank: T -> int) {
    forall i, j :: 0 <= i < j < |xs| ==>
      key(xs[i]) < key(xs[j]) || (key(xs[i]) == key(xs[j]) && rank(xs[i]) < rank(xs[j]))
  }

  /** `rank` strictly increases along `xs`: it numbers the input order. */
  predicate Increasing<T>(xs: seq<T>, rank: T -> int) {
    forall i, j :: 0 <= i < j < |xs| ==> rank(xs[i]) < rank(xs[j])
  }

  predicate All<T>(xs: seq<T>, p: T -> bool) {
    forall k :: 0 <= k < |xs| ==> p(xs[k])
  }

  /** The number of elements satisfying `p`. */
  function Count<T>(xs: seq<T>, p: T -> bool): (n: nat)
    ensures n <= |xs|
  {
    if xs == [] then 0 else Count(xs[..|xs| - 1], p) + (if p(xs[|xs| - 1]) then 1 else 0)
  }

  lemma {:induction false} CountAppend<T>(a: seq<T>, b: seq<T>, p: T -> bool)
    ensures Count(a + b, p) == Count(a, p) + Count(b, p)
  {
    if b == [] {
      assert a + b == a;
    } else {
      assert (a + b)[..|a + b| - 1] == a + b[..|b| - 1];
      assert (a + b)[|a + b| - 1] == b[|b| - 1];
      CountAppend(a, b[..|b| - 1], p);
    }
  }

  /** No element satisfies `p`: the count is zero. */
  lemma {:induction false} CountNone<T>(xs: seq<T>, p: T -> bool)
    requires forall k :: 0 <= k < |xs| ==> !p(xs[k])
    ensures Count(xs, p) == 0
  {
    if xs != [] {
      CountNone(xs[..|xs| - 1], p);
    }
  }

  /** Exactly one element, at position `i`, satisfies `p`: the count is one. */
  lemma {:induction false} CountOne<T>(xs: seq<T>, p: T -> bool, i: nat)
    requires i < |xs| && p(xs[i])
    requires forall k :: 0 <= k < |xs| && k != i ==> !p(xs[k])
    ensures Count(xs, p) == 1
  {
    var front := xs[..|xs| - 1];
    if i == |xs| - 1 {
      CountNone(front, p);
    } else {
      CountOne(front, p, i);
    }
  }

  lemma {:induction false} InsertByPermutes<T>(x: T, xs: seq<T>, key: T -> int)
    ensures multiset(InsertBy(x, xs, key)) == multiset{x} + multiset(xs)
  {
    if xs != [] && key(x) > key(xs[0]) {
      InsertByPermutes(x, xs[1..], key);
      assert xs == [xs[0]] + xs[1..];
    }
  }

  /** The sort returns a permutation of its input. */
  lemma {:induction false} SortByPermutes<T>(xs: seq<T>, key: T -> int)
    ensures multiset(SortBy(xs, key)) == multiset(xs)
  {
    if xs != [] {
      SortByPermutes(xs[1..], key);
      InsertByPermutes(xs[0], SortBy(xs[1..], key), key);
      assert xs == [xs[0]] + xs[1..];
    }
  }

  lemma {:induction false} InsertByCount<T>(x: T, xs: seq<T>, key: T -> int, p: T -> bool)
    ensures Count(InsertBy(x, xs, key), p) == Count([x], p) + Count(xs, p)
  {
    if xs == [] || key(x) <= key(xs[0]) {
      CountAppend([x], xs, p);
    } else {
      InsertByCount(x, xs[1..], key, p);
      CountAppend([xs[0]], InsertBy(x, xs[1..], key), p);
      CountAppend([xs[0]], xs[1..], p);
      assert xs == [xs[0]] + xs[1..];
      CountAppend([x], xs[1..], p);
      CountAppend([x], xs, p);
    }
  }

  /** Sorting changes no count taken over the elements. */
  lemma {:induction false} SortByCount<T>(xs: seq<T>, key: T -> int, p: T -> bool)
    ensures Count(SortBy(xs, key), p) == Count(xs, p)
  {
    if xs != [] {
      SortByCount(xs[1..], key, p);
      InsertByCount(xs[0], SortBy(xs[1..], key), key, p);
      assert xs == [xs[0]] + xs[1..];
      CountAppend([xs[0]], xs[1..], p);
    }
  }

  lemma {:induction false} InsertByAll<T>(x: T, xs: seq<T>, key: T -> int, p: T -> bool)
    requires p(x) && All(xs, p)
    ensures All(InsertBy(x, xs, key), p)
  {
    if xs != [] && key(x) > key(xs[0]) {
      InsertByAll(x, xs[1..], key, p);
    }
  }

  /** Every property that holds of all input elements holds of all output elements. */
  lemma {:induction false} SortByAll<T>(xs: seq<T>, key: T -> int, p: T -> bool)
    requires All(xs, p)
    ensures All(SortBy(xs, key), p)
  {
    if xs != [] {
      SortByAll(xs[1..], key, p);
      InsertByAll(xs[0], SortBy(xs[1..], key), key, p);
    }
  }

  lemma {:induction false} InsertBySorted<T>(x: T, xs: seq<T>, key: T -> int)
    requires SortedBy(xs, key)
    ensures SortedBy(InsertBy(x, xs, key), key)
  {
    if xs != [] && key(x) > key(xs[0]) {
      InsertBySorted(x, xs[1..], key);
      var lo := key(xs[0]);
      InsertByAll(x, xs[1..], key, y => lo <= key(y));
    }
  }

  /** The output is non-decreasing by key. */
  lemma {:induction false} SortBySorted<T>(xs: seq<T>, key: T -> int)
    ensures SortedBy(SortBy(xs, key), key)
  {
    if xs != [] {
      SortBySorted(xs[1..], key);
      InsertBySorted(xs[0], SortBy(xs[1..], key), key);
    }
  }

  lemma {:induction false} InsertByOrdered<T>(x: T, xs: seq<T>, key: T -> int, rank: T -> int)
    requires OrderedBy(xs, key, rank)
    requires forall k :: 0 <= k < |xs| ==> rank(x) < rank(xs[k])
    ensures OrderedBy(InsertBy(x, xs, key), key, rank)
  {
    if xs != [] && key(x) > key(xs[0]) {
      InsertByOrdered(x, xs[1..], key, rank);
      var y := xs[0];
      InsertByAll(x, xs[1..], key,
        z => key(y) < key(z) || (key(y) == key(z) && rank(y) < rank(z)));
    }
  }

  /** Stability: when `rank` numbers the input order, elements of equal key
      leave the sort in that order. */
  lemma {:induction false} SortByStable<T>(xs: seq<T>, key: T -> int, rank: T -> int)
    requires Increasing(xs, rank)
    ensures OrderedBy(SortBy(xs, key), key, rank)
  {
    if xs != [] {
      var x := xs[0];
      SortByStable(xs[1..], key, rank);
      SortByAll(xs[1..], key, z => rank(x) < rank(z));
      InsertByOrdered(x, SortBy(xs[1..], key), key, rank);
    }
  }
}
