/**
 * Python's `sorted` as the scripts use it: a stable sort whose key is a
 * pair of strings compared like a Python tuple, element by element.
 * `process_subject` sorts run files by (session, run); `process_and_downsample`
 * sorts bare paths, which is the key (path, "").
 */
module Sorting {
  import opened Text

  datatype SortKey = SortKey(major: string, minor: string)

  /** Python's `<=` on 2-tuples of strings. */
  predicate KeyLe(x: SortKey, y: SortKey)
  {
    StrLt(x.major, y.major) || (x.major == y.major && StrLe(x.minor, y.minor))
  }

  lemma KeyLeTotal(x: SortKey, y: SortKey)
    ensures KeyLe(x, y) || KeyLe(y, x)
  {
    StrLeTotal(x.major, y.major);
    StrLeTotal(x.minor, y.minor);
  }

  lemma KeyLeReflexive(x: SortKey)
    ensures KeyLe(x, x)
  {
    StrLeReflexive(x.minor);
  }

  lemma KeyLeTransitive(x: SortKey, y: SortKey, z: SortKey)
    requires KeyLe(x, y) && KeyLe(y, z)
    ensures KeyLe(x, z)
  {
    if x.major == y.major && y.major == z.major {
      StrLeTransitive(x.minor, y.minor, z.minor);
    } else {
      StrLeReflexive(x.major);
      StrLeReflexive(y.major);
      StrLeTransitive(x.major, y.major, z.major);
      if x.major == z.major {
        StrLeAntisymmetric(x.major, y.major);
      }
    }
  }

  /** Non-decreasing in the key. */
  ghost predicate SortedBy<T>(xs: seq<T>, key: T -> SortKey)
  {
    forall i, j :: 0 <= i < j < |xs| ==> KeyLe(key(xs[i]), key(xs[j]))
  }

  /** Insert x before the first element whose key is not smaller than x's. */
  function Insert<T>(x: T, xs: seq<T>, key: T -> SortKey): (r: seq<T>)
    ensures |r| == |xs| + 1
    ensures r[0] == x || (xs != [] && r[0] == xs[0])
    ensures multiset(r) == multiset(xs) + multiset{x}
  {
    if xs == [] || KeyLe(key(x), key(xs[0])) then [x] + xs
    else
      assert xs == [xs[0]] + xs[1..];
      [xs[0]] + Insert(x, xs[1..], key)
  }

  /**
   * Insertion sort from the back: an element is inserted ahead of the
   * already-sorted later elements with an equal key, so equal keys keep
   * their input order, as Python's stable sort does.
   */
  function SortBy<T>(xs: seq<T>, key: T -> SortKey): (r: seq<T>)
    ensures |r| == |xs|
    ensures multiset(r) == multiset(xs)
  {
    if xs == [] then []
    else
      assert xs == [xs[0]] + xs[1..];
      Insert(xs[0], SortBy(xs[1..], key), key)
  }

  lemma {:induction false} InsertSorted<T>(x: T, xs: seq<T>, key: T -> SortKey)
    requires SortedBy(xs, key)
    ensures SortedBy(Insert(x, xs, key), key)
  {
    var r := Insert(x, xs, key);
    if xs == [] || KeyLe(key(x), key(xs[0])) {
      forall i, j | 0 <= i < j < |r|
        ensures KeyLe(key(r[i]), key(r[j]))
      {
        if i == 0 && j > 1 {
          KeyLeTransitive(key(x), key(xs[0]), key(xs[j - 1]));
        }
      }
    } else {
      var tail := xs[1..];
      var rest := Insert(x, tail, key);
      InsertSorted(x, tail, key);
      KeyLeTotal(key(x), key(xs[0]));
      assert KeyLe(key(xs[0]), key(rest[0])) by {
        if rest[0] != x {
          assert rest[0] == xs[1];
        }
      }
      forall i, j | 0 <= i < j < |r|
        ensures KeyLe(key(r[i]), key(r[j]))
      {
        if i == 0 && j > 1 {
          KeyLeTransitive(key(xs[0]), key(rest[0]), key(rest[j - 1]));
        }
      }
    }
  }

  /** The result is ordered by the key (and, by SortBy's contract, a permutation). */
  lemma {:induction false} SortBySorted<T>(xs: seq<T>, key: T -> SortKey)
    ensures SortedBy(SortBy(xs, key), key)
  {
    if xs != [] {
      SortBySorted(xs[1..], key);
      InsertSorted(xs[0], SortBy(xs[1..], key), key);
    }
  }

  /** The elements whose key is `k`, in their order in `xs`. */
  function WithKey<T>(xs: seq<T>, key: T -> SortKey, k: SortKey): seq<T>
  {
    if xs == [] then []
    else (if key(xs[0]) == k then [xs[0]] else []) + WithKey(xs[1..], key, k)
  }

  lemma WithKeyCons<T>(x: T, xs: seq<T>, key: T -> SortKey, k: SortKey)
    ensures WithKey([x] + xs, key, k) == WithKey([x], key, k) + WithKey(xs, key, k)
  {
    assert ([x] + xs)[1..] == xs;
    assert [x][1..] == [];
  }

  /** Insertion puts `x` ahead of every element with the same key, and moves nothing else among them. */
  lemma {:induction false} InsertStable<T>(x: T, xs: seq<T>, key: T -> SortKey, k: SortKey)
    ensures WithKey(Insert(x, xs, key), key, k) == WithKey([x] + xs, key, k)
  {
    if xs != [] && !KeyLe(key(x), key(xs[0])) {
      var tail := xs[1..];
      assert xs == [xs[0]] + tail;
      InsertStable(x, tail, key, k);
      var a, b := WithKey([x], key, k), WithKey([xs[0]], key, k);
      var rest := WithKey(tail, key, k);
      assert Insert(x, xs, key) == [xs[0]] + Insert(x, tail, key);
      WithKeyCons(xs[0], Insert(x, tail, key), key, k);
      WithKeyCons(x, tail, key, k);
      WithKeyCons(x, xs, key, k);
      WithKeyCons(xs[0], tail, key, k);
      assert WithKey(Insert(x, xs, key), key, k) == b + (a + rest);
      assert WithKey([x] + xs, key, k) == a + (b + rest);
      KeyLeReflexive(key(x));
      // x and xs[0] have different keys, so at most one of them has key k.
      assert a == [] || b == [];
    }
  }

  /**
   * Stability: the elements of any one key come out of the sort in the
   * order they had in the input.
   */
  lemma {:induction false} SortByStable<T>(xs: seq<T>, key: T -> SortKey, k: SortKey)
    ensures WithKey(SortBy(xs, key), key, k) == WithKey(xs, key, k)
  {
    if xs != [] {
      var tail := xs[1..];
      assert xs == [xs[0]] + tail;
      SortByStable(tail, key, k);
      InsertStable(xs[0], SortBy(tail, key), key, k);
      WithKeyCons(xs[0], SortBy(tail, key), key, k);
      WithKeyCons(xs[0], tail, key, k);
    }
  }
}
