/**
 * The two sorts the pages rely on, both from `Array.prototype.sort`:
 * with a numeric comparator `(a, b) => key(a) - key(b)` the sort is stable
 * (ECMAScript 2019 requires it) and orders by ascending key; without a
 * comparator it orders strings lexicographically.
 */
module Sorting {
  import opened Seqs

  predicate SortedBy<T>(s: seq<T>, key: T -> int) {
    forall i, j :: 0 <= i < j < |s| ==> key(s[i]) <= key(s[j])
  }

  /** Places `x` after every element of `t`, from the back, whose key is not greater than its own. */
  function InsertBy<T(==,!new)>(t: seq<T>, x: T, key: T -> int): (r: seq<T>)
    ensures multiset(r) == multiset(t) + multiset{x}
    ensures |r| == |t| + 1
    decreases |t|
  {
    if t == [] || key(t[|t| - 1]) <= key(x) then t + [x]
    else
      assert t == t[..|t| - 1] + [t[|t| - 1]];
      InsertBy(t[..|t| - 1], x, key) + [t[|t| - 1]]
  }

  /** Inserting into a sorted sequence keeps it sorted. */
  lemma {:induction false} InsertBySorted<T(!new)>(t: seq<T>, x: T, key: T -> int)
    requires SortedBy(t, key)
    ensures SortedBy(InsertBy(t, x, key), key)
    decreases |t|
  {
    if t == [] || key(t[|t| - 1]) <= key(x) {
      var r := t + [x];
      forall i, j | 0 <= i < j < |r| ensures key(r[i]) <= key(r[j]) {
        if j == |t| && i < |t| - 1 {
          assert key(t[i]) <= key(t[|t| - 1]);
        }
      }
    } else {
      var init, last := t[..|t| - 1], t[|t| - 1];
      assert SortedBy(init, key);
      InsertBySorted(init, x, key);
      var m := InsertBy(init, x, key);
      forall y | y in m ensures key(y) <= key(last) {
        assert y in multiset(m);
        assert y == x || y in init;
        if y != x {
          var k :| 0 <= k < |init| && init[k] == y;
          assert t[k] == y;
        }
      }
      var r := m + [last];
      forall i, j | 0 <= i < j < |r| ensures key(r[i]) <= key(r[j]) {
        if j == |m| {
          assert r[i] == m[i];
          assert m[i] in m;
        } else {
          assert r[i] == m[i] && r[j] == m[j];
        }
      }
    }
  }

  /** A stable sort by ascending `key` (insertion sort). */
  function SortBy<T(==,!new)>(s: seq<T>, key: T -> int): (r: seq<T>)
    ensures multiset(r) == multiset(s)
    ensures |r| == |s|
    ensures SortedBy(r, key)
    decreases |s|
  {
    if s == [] then []
    else
      assert s == s[..|s| - 1] + [s[|s| - 1]];
      InsertBySorted(SortBy(s[..|s| - 1], key), s[|s| - 1], key);
      InsertBy(SortBy(s[..|s| - 1], key), s[|s| - 1], key)
  }

  /** Sorting depends only on the values of the key. */
  lemma {:induction false} SortByExtensional<T(!new)>(s: seq<T>, key: T -> int, key': T -> int)
    requires forall x :: key(x) == key'(x)
    ensures SortBy(s, key) == SortBy(s, key')
    decreases |s|
  {
    if s != [] {
      SortByExtensional(s[..|s| - 1], key, key');
      InsertByExtensional(SortBy(s[..|s| - 1], key), s[|s| - 1], key, key');
    }
  }

  lemma {:induction false} InsertByExtensional<T(!new)>(t: seq<T>, x: T, key: T -> int, key': T -> int)
    requires forall y :: key(y) == key'(y)
    ensures InsertBy(t, x, key) == InsertBy(t, x, key')
    decreases |t|
  {
    if t != [] {
      InsertByExtensional(t[..|t| - 1], x, key, key');
    }
  }

  /** The elements of `s` whose key is `v`, in their order in `s`. */
  function WithKey<T>(s: seq<T>, key: T -> int, v: int): seq<T>
    decreases |s|
  {
    if s == [] then []
    else WithKey(s[..|s| - 1], key, v) + (if key(s[|s| - 1]) == v then [s[|s| - 1]] else [])
  }

  lemma {:induction false} WithKeyAppend<T>(s: seq<T>, t: seq<T>, key: T -> int, v: int)
    ensures WithKey(s + t, key, v) == WithKey(s, key, v) + WithKey(t, key, v)
    decreases |t|
  {
    if t != [] {
      var t', y := t[..|t| - 1], t[|t| - 1];
      var st := s + t;
      assert st[..|st| - 1] == s + t' && st[|st| - 1] == y;
      WithKeyAppend(s, t', key, v);
    } else {
      assert s + t == s;
    }
  }

  lemma WithKeySnoc<T>(s: seq<T>, y: T, key: T -> int, v: int)
    ensures WithKey(s + [y], key, v) == WithKey(s, key, v) + (if key(y) == v then [y] else [])
  {
    assert (s + [y])[..|s|] == s;
  }

  lemma {:induction false} InsertByWithKey<T(!new)>(t: seq<T>, x: T, key: T -> int, v: int)
    ensures WithKey(InsertBy(t, x, key), key, v)
         == WithKey(t, key, v) + (if key(x) == v then [x] else [])
    decreases |t|
  {
    if t == [] || key(t[|t| - 1]) <= key(x) {
      WithKeySnoc(t, x, key, v);
    } else {
      var init, last := t[..|t| - 1], t[|t| - 1];
      assert t == init + [last];
      var m := InsertBy(init, x, key);
      assert InsertBy(t, x, key) == m + [last];
      InsertByWithKey(init, x, key, v);
      WithKeySnoc(m, last, key, v);
      WithKeySnoc(init, last, key, v);
      var w, xs, ls := WithKey(init, key, v), (if key(x) == v then [x] else []), (if key(last) == v then [last] else []);
      assert xs == [] || ls == [];
      assert (w + xs) + ls == (w + ls) + xs;
    }
  }

  /** Stability: records with equal keys keep their relative order. */
  lemma {:induction false} SortByStable<T(!new)>(s: seq<T>, key: T -> int, v: int)
    ensures WithKey(SortBy(s, key), key, v) == WithKey(s, key, v)
    decreases |s|
  {
    if s != [] {
      var init, last := s[..|s| - 1], s[|s| - 1];
      SortByStable(init, key, v);
      InsertByWithKey(SortBy(init, key), last, key, v);
    }
  }

  /** Sorting an already sorted sequence changes nothing; in particular sorting is idempotent. */
  lemma {:induction false} SortBySorted<T(!new)>(s: seq<T>, key: T -> int)
    requires SortedBy(s, key)
    ensures SortBy(s, key) == s
    decreases |s|
  {
    if s != [] {
      var init, last := s[..|s| - 1], s[|s| - 1];
      assert s == init + [last];
      SortedInit(s, key);
      SortBySorted(init, key);
      SortedSnoc(init, last, key);
    }
  }

  lemma SortedInit<T>(s: seq<T>, key: T -> int)
    requires s != [] && SortedBy(s, key)
    ensures SortedBy(s[..|s| - 1], key)
    ensures |s| > 1 ==> key(s[|s| - 2]) <= key(s[|s| - 1])
  {
  }

  /** Appending an element with the greatest key to a sorted sequence that sorting leaves alone is left alone too. */
  lemma SortedSnoc<T(!new)>(init: seq<T>, last: T, key: T -> int)
    requires SortBy(init, key) == init
    requires init == [] || key(init[|init| - 1]) <= key(last)
    ensures SortBy(init + [last], key) == init + [last]
  {
    var s := init + [last];
    assert s[..|s| - 1] == init && s[|s| - 1] == last;
  }

  // ---- The default sort of strings --------------------------------------

  /** Lexicographic order on strings by character code, a prefix first. */
  predicate LexLe(a: string, b: string)
    decreases |a|
  {
    a == [] || (b != [] && (a[0] < b[0] || (a[0] == b[0] && LexLe(a[1..], b[1..]))))
  }

  lemma {:induction false} LexLeTotal(a: string, b: string)
    ensures LexLe(a, b) || LexLe(b, a)
    decreases |a|
  {
    if a != [] && b != [] && a[0] == b[0] {
      LexLeTotal(a[1..], b[1..]);
    }
  }

  lemma {:induction false} LexLeTransitive(a: string, b: string, c: string)
    requires LexLe(a, b) && LexLe(b, c)
    ensures LexLe(a, c)
    decreases |a|
  {
    if a != [] && a[0] == b[0] && b[0] == c[0] {
      LexLeTransitive(a[1..], b[1..], c[1..]);
    }
  }

  lemma {:induction false} LexLeAntisymmetric(a: string, b: string)
    requires LexLe(a, b) && LexLe(b, a)
    ensures a == b
    decreases |a|
  {
    if a != [] {
      LexLeAntisymmetric(a[1..], b[1..]);
      assert a == [a[0]] + a[1..] && b == [b[0]] + b[1..];
    }
  }

  predicate LexSorted(s: seq<string>) {
    forall i, j :: 0 <= i < j < |s| ==> LexLe(s[i], s[j])
  }

  function InsertString(t: seq<string>, x: string): (r: seq<string>)
    ensures multiset(r) == multiset(t) + multiset{x}
    ensures |r| == |t| + 1
    decreases |t|
  {
    if t == [] || LexLe(t[|t| - 1], x) then t + [x]
    else
      assert t == t[..|t| - 1] + [t[|t| - 1]];
      InsertString(t[..|t| - 1], x) + [t[|t| - 1]]
  }

  lemma {:induction false} InsertStringSorted(t: seq<string>, x: string)
    requires LexSorted(t)
    ensures LexSorted(InsertString(t, x))
    decreases |t|
  {
    if t == [] || LexLe(t[|t| - 1], x) {
      var r := t + [x];
      forall i, j | 0 <= i < j < |r| ensures LexLe(r[i], r[j]) {
        if j == |t| && i < |t| - 1 {
          LexLeTransitive(t[i], t[|t| - 1], x);
        }
      }
    } else {
      var init, last := t[..|t| - 1], t[|t| - 1];
      assert LexSorted(init);
      InsertStringSorted(init, x);
      LexLeTotal(last, x);
      var m := InsertString(init, x);
      forall y | y in m ensures LexLe(y, last) {
        assert y in multiset(m);
        assert y == x || y in init;
        if y != x {
          var k :| 0 <= k < |init| && init[k] == y;
          assert t[k] == y;
        }
      }
      var r := m + [last];
      forall i, j | 0 <= i < j < |r| ensures LexLe(r[i], r[j]) {
        if j == |m| {
          assert r[i] == m[i];
          assert m[i] in m;
        } else {
          assert r[i] == m[i] && r[j] == m[j];
        }
      }
    }
  }

  /** `strings.sort()` with no comparator. */
  function SortStrings(s: seq<string>): (r: seq<string>)
    ensures multiset(r) == multiset(s)
    ensures |r| == |s|
    ensures LexSorted(r)
    decreases |s|
  {
    if s == [] then []
    else
      assert s == s[..|s| - 1] + [s[|s| - 1]];
      InsertStringSorted(SortStrings(s[..|s| - 1]), s[|s| - 1]);
      InsertString(SortStrings(s[..|s| - 1]), s[|s| - 1])
  }
}
