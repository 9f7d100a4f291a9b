/**
 * `articles.sort((a, b) => dateB - dateA)`, used by `loadMarkdownArticles`,
 * `initializeContentArticles` and `updateMergedArticles`.  `Array.prototype.sort` is stable,
 * so the sort is modelled as an insertion sort that puts each element ahead of every later
 * element that is not newer.  The date of an element is its `key` (`new Date(date).getTime()`,
 * a library call, taken as given; invalid dates are outside the model).
 */
module DateSort {

  /** Newest first. */
  ghost predicate SortedDesc<T>(s: seq<T>, key: T -> int) {
    forall i, j :: 0 <= i < j < |s| ==> key(s[i]) >= key(s[j])
  }

  /** Insert `x` ahead of the first element that is not newer than it. */
  function Insert<T>(x: T, s: seq<T>, key: T -> int): (r: seq<T>)
    ensures multiset(r) == multiset(s) + multiset{x}
  {
    if s == [] || key(s[0]) <= key(x) then [x] + s
    else
      assert s == [s[0]] + s[1..];
      [s[0]] + Insert(x, s[1..], key)
  }

  /** The stable sort, newest first. */
  function SortByKey<T>(s: seq<T>, key: T -> int): (r: seq<T>)
    ensures multiset(r) == multiset(s)
  {
    if s == [] then []
    else
      assert s == [s[0]] + s[1..];
      Insert(s[0], SortByKey(s[1..], key), key)
  }

  lemma {:induction false} InsertSorted<T>(x: T, s: seq<T>, key: T -> int)
    requires SortedDesc(s, key)
    ensures SortedDesc(Insert(x, s, key), key)
    ensures Insert(x, s, key) != [] && (key(Insert(x, s, key)[0]) == key(x) || (s != [] && key(Insert(x, s, key)[0]) == key(s[0])))
    decreases |s|
  {
    if s == [] || key(s[0]) <= key(x) {
    } else {
      InsertSorted(x, s[1..], key);
      var r := Insert(x, s[1..], key);
      assert Insert(x, s, key) == [s[0]] + r;
      if |s| > 1 {
        assert key(s[0]) >= key(s[1]);
      }
    }
  }

  /** The result is newest first. */
  lemma {:induction false} SortIsSorted<T>(s: seq<T>, key: T -> int)
    ensures SortedDesc(SortByKey(s, key), key)
    decreases |s|
  {
    if s != [] {
      SortIsSorted(s[1..], key);
      InsertSorted(s[0], SortByKey(s[1..], key), key);
    }
  }

  /** The elements with date `k`, in order. */
  function WithKey<T>(s: seq<T>, key: T -> int, k: int): (r: seq<T>)
    ensures |r| <= |s|
  {
    if s == [] then []
    else (if key(s[0]) == k then [s[0]] else []) + WithKey(s[1..], key, k)
  }

  lemma {:induction false} WithKeyAppend<T>(a: seq<T>, b: seq<T>, key: T -> int, k: int)
    ensures WithKey(a + b, key, k) == WithKey(a, key, k) + WithKey(b, key, k)
    decreases |a|
  {
    if a == [] {
      assert a + b == b;
    } else {
      var head := if key(a[0]) == k then [a[0]] else [];
      assert (a + b)[0] == a[0] && (a + b)[1..] == a[1..] + b;
      assert WithKey(a + b, key, k) == head + WithKey(a[1..] + b, key, k);
      WithKeyAppend(a[1..], b, key, k);
      assert WithKey(a, key, k) == head + WithKey(a[1..], key, k);
    }
  }

  lemma {:induction false} InsertStable<T>(x: T, s: seq<T>, key: T -> int, k: int)
    ensures WithKey(Insert(x, s, key), key, k) == WithKey([x] + s, key, k)
    decreases |s|
  {
    if s == [] || key(s[0]) <= key(x) {
    } else {
      InsertStable(x, s[1..], key, k);
      assert ([x] + s)[1..] == s;
      assert ([x] + s[1..])[1..] == s[1..];
      assert ([s[0]] + Insert(x, s[1..], key))[1..] == Insert(x, s[1..], key);
    }
  }

  /** Elements with the same date keep their relative order. */
  lemma {:induction false} SortIsStable<T>(s: seq<T>, key: T -> int, k: int)
    ensures WithKey(SortByKey(s, key), key, k) == WithKey(s, key, k)
    decreases |s|
  {
    if s != [] {
      SortIsStable(s[1..], key, k);
      InsertStable(s[0], SortByKey(s[1..], key), key, k);
      assert ([s[0]] + SortByKey(s[1..], key))[1..] == SortByKey(s[1..], key);
    }
  }
}
