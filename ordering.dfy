/**
 * `sorted(activities, key=...)` with a string key (bot.py, `process_and_post_events`).
 *
 * Python compares strings by code point, lexicographically, and its sort is
 * stable. `SortBy` is an insertion sort. The lemmas show that it returns the
 * one arrangement that is ordered by key and keeps equal-key elements in input
 * order, so it is the arrangement Python's `sorted` returns.
 */
module Ordering {

  /** Python's `a <= b` on `str`. */
  predicate LexLe(a: string, b: string) {
    LexLeFrom(a, b, 0)
  }

  /** The comparison of a and b once their first i characters are known to agree. */
  predicate LexLeFrom(a: string, b: string, i: nat)
    requires i <= |a| && i <= |b|
    decreases |a| - i
  {
    i == |a| || (i < |b| && (a[i] < b[i] || (a[i] == b[i] && LexLeFrom(a, b, i + 1))))
  }

  lemma {:induction false} LexLeFromTotal(a: string, b: string, i: nat)
    requires i <= |a| && i <= |b|
    ensures LexLeFrom(a, b, i) || LexLeFrom(b, a, i)
    decreases |a| - i
  {
    if i < |a| && i < |b| && a[i] == b[i] {
      LexLeFromTotal(a, b, i + 1);
    }
  }

  lemma {:induction false} LexLeFromAntisymmetric(a: string, b: string, i: nat)
    requires i <= |a| && i <= |b|
    requires LexLeFrom(a, b, i) && LexLeFrom(b, a, i)
    ensures |a| == |b| && forall j :: i <= j < |a| ==> a[j] == b[j]
    decreases |a| - i
  {
    if i < |a| {
      LexLeFromAntisymmetric(a, b, i + 1);
    }
  }

  lemma {:induction false} LexLeFromTransitive(a: string, b: string, c: string, i: nat)
    requires i <= |a| && i <= |b| && i <= |c|
    requires LexLeFrom(a, b, i) && LexLeFrom(b, c, i)
    ensures LexLeFrom(a, c, i)
    decreases |a| - i
  {
    if i < |a| && a[i] == b[i] && b[i] == c[i] {
      LexLeFromTransitive(a, b, c, i + 1);
    }
  }

  lemma {:induction false} LexLeFromReflexive(a: string, i: nat)
    requires i <= |a|
    ensures LexLeFrom(a, a, i)
    decreases |a| - i
  {
    if i < |a| {
      LexLeFromReflexive(a, i + 1);
    }
  }

  lemma LexLeReflexive(a: string)
    ensures LexLe(a, a)
  {
    LexLeFromReflexive(a, 0);
  }

  lemma LexLeTotal(a: string, b: string)
    ensures LexLe(a, b) || LexLe(b, a)
  {
    LexLeFromTotal(a, b, 0);
  }

  lemma LexLeAntisymmetric(a: string, b: string)
    requires LexLe(a, b) && LexLe(b, a)
    ensures a == b
  {
    LexLeFromAntisymmetric(a, b, 0);
  }

  lemma LexLeTransitive(a: string, b: string, c: string)
    requires LexLe(a, b) && LexLe(b, c)
    ensures LexLe(a, c)
  {
    LexLeFromTransitive(a, b, c, 0);
  }

  ghost predicate SortedBy<T>(s: seq<T>, key: T -> string) {
    forall i, j :: 0 <= i < j < |s| ==> LexLe(key(s[i]), key(s[j]))
  }

  /** The elements of s whose key is k, in the order s has them. */
  function WithKey<T>(s: seq<T>, key: T -> string, k: string): seq<T> {
    if s == [] then [] else (if key(s[0]) == k then [s[0]] else []) + WithKey(s[1..], key, k)
  }

  /** Put x before the first element whose key is not below x's. */
  function Insert<T>(x: T, t: seq<T>, key: T -> string): seq<T> {
    if t == [] then [x]
    else if LexLe(key(x), key(t[0])) then [x] + t
    else [t[0]] + Insert(x, t[1..], key)
  }

  /** Stable sort by key. */
  function SortBy<T>(s: seq<T>, key: T -> string): seq<T> {
    if s == [] then [] else Insert(s[0], SortBy(s[1..], key), key)
  }

  // ---------------------------------------------------------------------
  // Insertion
  // ---------------------------------------------------------------------

  lemma {:induction false} InsertMember<T>(x: T, t: seq<T>, key: T -> string, y: T)
    ensures y in Insert(x, t, key) <==> y == x || y in t
  {
    if t != [] && !LexLe(key(x), key(t[0])) {
      InsertMember(x, t[1..], key, y);
      assert t == [t[0]] + t[1..];
    }
  }

  lemma {:induction false} InsertMultiset<T>(x: T, t: seq<T>, key: T -> string)
    ensures multiset(Insert(x, t, key)) == multiset(t) + multiset{x}
  {
    if t != [] && !LexLe(key(x), key(t[0])) {
      InsertMultiset(x, t[1..], key);
      assert t == [t[0]] + t[1..];
    }
  }

  lemma {:induction false} InsertSorted<T>(x: T, t: seq<T>, key: T -> string)
    requires SortedBy(t, key)
    ensures SortedBy(Insert(x, t, key), key)
  {
    if t == [] {
    } else if LexLe(key(x), key(t[0])) {
      var r := [x] + t;
      forall i, j | 0 <= i < j < |r| ensures LexLe(key(r[i]), key(r[j])) {
        if i == 0 && j > 1 {
          LexLeTransitive(key(x), key(t[0]), key(t[j - 1]));
        }
      }
    } else {
      var rest := Insert(x, t[1..], key);
      InsertSorted(x, t[1..], key);
      LexLeTotal(key(x), key(t[0]));
      var r := [t[0]] + rest;
      forall i, j | 0 <= i < j < |r| ensures LexLe(key(r[i]), key(r[j])) {
        if i == 0 {
          var y := r[j];
          assert y in rest;
          InsertMember(x, t[1..], key, y);
          if y != x {
            var m :| 0 <= m < |t| - 1 && t[1..][m] == y;
            assert LexLe(key(t[0]), key(t[m + 1]));
          }
        }
      }
    }
  }

  lemma WithKeyCons<T>(y: T, t: seq<T>, key: T -> string, k: string)
    ensures WithKey([y] + t, key, k) == (if key(y) == k then [y] else []) + WithKey(t, key, k)
  {
    assert ([y] + t)[0] == y && ([y] + t)[1..] == t;
  }

  lemma {:induction false} InsertWithKey<T>(x: T, t: seq<T>, key: T -> string, k: string)
    ensures WithKey(Insert(x, t, key), key, k) == (if key(x) == k then [x] else []) + WithKey(t, key, k)
  {
    if t == [] {
      WithKeyCons(x, t, key, k);
      assert [x] + t == [x];
    } else if LexLe(key(x), key(t[0])) {
      WithKeyCons(x, t, key, k);
    } else {
      InsertWithKey(x, t[1..], key, k);
      if key(x) == k {
        // t[0]'s key is strictly below x's, so it is not k
        LexLeReflexive(k);
      }
      WithKeyPastHead(t[0], Insert(x, t[1..], key), t[1..], if key(x) == k then [x] else [], key, k);
      assert [t[0]] + t[1..] == t;
    }
  }

  /** Putting one element y in front of two sequences that agree on key k, after `own`. */
  lemma WithKeyPastHead<T>(y: T, rest: seq<T>, t: seq<T>, own: seq<T>, key: T -> string, k: string)
    requires WithKey(rest, key, k) == own + WithKey(t, key, k)
    requires own == [] || key(y) != k
    ensures WithKey([y] + rest, key, k) == own + WithKey([y] + t, key, k)
  {
    WithKeyCons(y, rest, key, k);
    WithKeyCons(y, t, key, k);
  }

  // ---------------------------------------------------------------------
  // Sorting
  // ---------------------------------------------------------------------

  /** The result is ordered by key. */
  lemma {:induction false} SortBySorted<T>(s: seq<T>, key: T -> string)
    ensures SortedBy(SortBy(s, key), key)
  {
    if s != [] {
      SortBySorted(s[1..], key);
      InsertSorted(s[0], SortBy(s[1..], key), key);
    }
  }

  /** The result is a permutation of the input. */
  lemma {:induction false} SortByPermutation<T>(s: seq<T>, key: T -> string)
    ensures multiset(SortBy(s, key)) == multiset(s)
  {
    if s != [] {
      SortByPermutation(s[1..], key);
      InsertMultiset(s[0], SortBy(s[1..], key), key);
      assert s == [s[0]] + s[1..];
    }
  }

  /** Stability: the elements with any one key keep their input order. */
  lemma {:induction false} SortByStable<T>(s: seq<T>, key: T -> string, k: string)
    ensures WithKey(SortBy(s, key), key, k) == WithKey(s, key, k)
  {
    if s != [] {
      SortByStable(s[1..], key, k);
      InsertWithKey(s[0], SortBy(s[1..], key), key, k);
    }
  }

  // ---------------------------------------------------------------------
  // Uniqueness: sorted and stable determine the result
  // ---------------------------------------------------------------------

  lemma {:induction false} WithKeyMembers<T>(s: seq<T>, key: T -> string, k: string)
    ensures forall y :: y in WithKey(s, key, k) <==> y in s && key(y) == k
  {
    if s != [] {
      WithKeyMembers(s[1..], key, k);
      assert s == [s[0]] + s[1..];
    }
  }

  lemma WithKeyOfHead<T>(s: seq<T>, key: T -> string)
    requires s != []
    ensures WithKey(s, key, key(s[0])) != []
    ensures WithKey(s, key, key(s[0]))[0] == s[0]
  {
  }

  /** In a sorted sequence, the first key is below every key present. */
  lemma {:induction false} FirstKeyIsLeast<T>(s: seq<T>, key: T -> string, k: string)
    requires SortedBy(s, key) && WithKey(s, key, k) != []
    ensures s != [] && LexLe(key(s[0]), k)
  {
    if key(s[0]) == k {
      LexLeTotal(k, k);
    } else {
      assert WithKey(s[1..], key, k) != [];
      assert SortedBy(s[1..], key) by {
        forall i, j | 0 <= i < j < |s| - 1 ensures LexLe(key(s[1..][i]), key(s[1..][j])) {
          assert s[1..][i] == s[i + 1] && s[1..][j] == s[j + 1];
        }
      }
      FirstKeyIsLeast(s[1..], key, k);
      LexLeTransitive(key(s[0]), key(s[1]), k);
    }
  }

  /** Two sorted arrangements that agree key by key start with the same element. */
  lemma SameFirst<T>(a: seq<T>, b: seq<T>, key: T -> string)
    requires SortedBy(a, key) && SortedBy(b, key) && a != [] && b != []
    requires forall k :: WithKey(a, key, k) == WithKey(b, key, k)
    ensures a[0] == b[0]
  {
    var ka, kb := key(a[0]), key(b[0]);
    assert LexLe(kb, ka) by {
      WithKeyOfHead(a, key);
      assert WithKey(b, key, ka) == WithKey(a, key, ka);
      FirstKeyIsLeast(b, key, ka);
    }
    assert LexLe(ka, kb) by {
      WithKeyOfHead(b, key);
      assert WithKey(a, key, kb) == WithKey(b, key, kb);
      FirstKeyIsLeast(a, key, kb);
    }
    LexLeAntisymmetric(ka, kb);
    WithKeyOfHead(a, key);
    WithKeyOfHead(b, key);
    assert WithKey(a, key, ka) == WithKey(b, key, ka);
  }

  /**
   * Two arrangements that are both ordered by key and that agree, key by key,
   * on the order of the elements, are the same sequence.
   */
  lemma {:induction false} SortedStableUnique<T>(a: seq<T>, b: seq<T>, key: T -> string)
    requires SortedBy(a, key) && SortedBy(b, key)
    requires forall k :: WithKey(a, key, k) == WithKey(b, key, k)
    ensures a == b
    decreases |a|
  {
    if a == [] || b == [] {
      var c := if a == [] then b else a;
      if c != [] {
        WithKeyOfHead(c, key);
        assert false;
      }
    } else {
      SameFirst(a, b, key);
      forall k ensures WithKey(a[1..], key, k) == WithKey(b[1..], key, k) {
        var head := if key(a[0]) == k then [a[0]] else [];
        assert WithKey(a, key, k) == head + WithKey(a[1..], key, k);
        assert WithKey(b, key, k) == head + WithKey(b[1..], key, k);
        assert WithKey(a, key, k) == WithKey(b, key, k);
        assert (head + WithKey(a[1..], key, k))[|head|..] == WithKey(a[1..], key, k);
        assert (head + WithKey(b[1..], key, k))[|head|..] == WithKey(b[1..], key, k);
      }
      SortedStableUnique(a[1..], b[1..], key);
      assert a == [a[0]] + a[1..] && b == [b[0]] + b[1..];
    }
  }

  /**
   * `SortBy` is exactly the stable sort: any arrangement of s that is
   * ordered by key and stable is `SortBy(s, key)`.
   */
  lemma SortByIsTheStableSort<T>(s: seq<T>, r: seq<T>, key: T -> string)
    requires SortedBy(r, key)
    requires forall k :: WithKey(r, key, k) == WithKey(s, key, k)
    ensures r == SortBy(s, key)
  {
    SortBySorted(s, key);
    forall k ensures WithKey(r, key, k) == WithKey(SortBy(s, key), key, k) {
      SortByStable(s, key, k);
    }
    SortedStableUnique(r, SortBy(s, key), key);
  }
}
