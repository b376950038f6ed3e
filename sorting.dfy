/**
 * Python's `sorted(xs, key=f)` over string keys: a stable sort, modelled
 * as insertion sort. Keys compare in Python's string order (`Text.LexLe`).
 */
module Sorting {
  import opened Text

  predicate SortedBy<T>(s: seq<T>, key: T -> string) {
    forall i, j :: 0 <= i < j < |s| ==> LexLe(key(s[i]), key(s[j]))
  }

  /** Puts `x` after every element of `s` whose key is not above its own. */
  function Insert<T>(x: T, s: seq<T>, key: T -> string): (r: seq<T>)
    ensures |r| == |s| + 1
  {
    if s == [] then [x]
    else if LexLe(key(s[0]), key(x)) then [s[0]] + Insert(x, s[1..], key)
    else [x] + s
  }

  function SortBy<T>(s: seq<T>, key: T -> string): (r: seq<T>)
    ensures |r| == |s|
  {
    if s == [] then [] else Insert(s[|s| - 1], SortBy(s[..|s| - 1], key), key)
  }

  /** The elements of `s` whose key is `k`, in their order in `s`. */
  function Having<T>(s: seq<T>, key: T -> string, k: string): (r: seq<T>)
    ensures |r| <= |s|
  {
    if s == [] then [] else (if key(s[0]) == k then [s[0]] else []) + Having(s[1..], key, k)
  }

  lemma {:induction false} HavingAppend<T>(a: seq<T>, b: seq<T>, key: T -> string, k: string)
    ensures Having(a + b, key, k) == Having(a, key, k) + Having(b, key, k)
  {
    if a == [] {
      assert a + b == b;
    } else {
      var h := if key(a[0]) == k then [a[0]] else [];
      assert (a + b)[0] == a[0] && (a + b)[1..] == a[1..] + b;
      assert Having(a + b, key, k) == h + Having(a[1..] + b, key, k);
      HavingAppend(a[1..], b, key, k);
      assert h + (Having(a[1..], key, k) + Having(b, key, k)) == (h + Having(a[1..], key, k)) + Having(b, key, k);
    }
  }

  lemma {:induction false} HavingNone<T>(s: seq<T>, key: T -> string, k: string)
    requires forall i :: 0 <= i < |s| ==> key(s[i]) != k
    ensures Having(s, key, k) == []
  {
    if s != [] {
      HavingNone(s[1..], key, k);
    }
  }

  lemma {:induction false} InsertMultiset<T>(x: T, s: seq<T>, key: T -> string)
    ensures multiset(Insert(x, s, key)) == multiset(s) + multiset{x}
  {
    if s != [] {
      assert s == [s[0]] + s[1..];
      if LexLe(key(s[0]), key(x)) {
        InsertMultiset(x, s[1..], key);
      }
    }
  }

  /** In a sorted sequence every key is at least the first one. */
  lemma FirstIsLeast<T>(s: seq<T>, key: T -> string, i: int)
    requires SortedBy(s, key) && 0 <= i < |s|
    ensures LexLe(key(s[0]), key(s[i]))
  {
    if i == 0 {
      LexReflexive(key(s[0]));
    }
  }

  lemma {:induction false} InsertSorted<T>(x: T, s: seq<T>, key: T -> string)
    requires SortedBy(s, key)
    ensures SortedBy(Insert(x, s, key), key)
  {
    if s == [] {
    } else if LexLe(key(s[0]), key(x)) {
      var tail := Insert(x, s[1..], key);
      InsertSorted(x, s[1..], key);
      InsertMultiset(x, s[1..], key);
      forall j | 0 <= j < |tail| ensures LexLe(key(s[0]), key(tail[j])) {
        assert tail[j] in multiset(tail);
        if tail[j] != x {
          var m :| 0 <= m < |s[1..]| && s[1..][m] == tail[j];
          assert s[m + 1] == tail[j];
        }
      }
      var r := [s[0]] + tail;
      forall i, j | 0 <= i < j < |r| ensures LexLe(key(r[i]), key(r[j])) {
        if i == 0 {
          assert r[j] == tail[j - 1];
        } else {
          assert r[i] == tail[i - 1] && r[j] == tail[j - 1];
        }
      }
    } else {
      LexTotal(key(s[0]), key(x));
      var r := [x] + s;
      forall i, j | 0 <= i < j < |r| ensures LexLe(key(r[i]), key(r[j])) {
        if i == 0 {
          FirstIsLeast(s, key, j - 1);
          LexTransitive(key(x), key(s[0]), key(s[j - 1]));
          assert r[j] == s[j - 1];
        } else {
          assert r[i] == s[i - 1] && r[j] == s[j - 1];
        }
      }
    }
  }

  /** Inserting into a sorted sequence adds `x` to the elements of its key
      after those already there, and leaves every other key's elements alone. */
  lemma {:induction false} InsertHaving<T>(x: T, s: seq<T>, key: T -> string, k: string)
    requires SortedBy(s, key)
    ensures Having(Insert(x, s, key), key, k) == Having(s, key, k) + (if key(x) == k then [x] else [])
  {
    if s == [] {
    } else if LexLe(key(s[0]), key(x)) {
      var tail := Insert(x, s[1..], key);
      var h := if key(s[0]) == k then [s[0]] else [];
      var hx := if key(x) == k then [x] else [];
      InsertHaving(x, s[1..], key, k);
      assert ([s[0]] + tail)[0] == s[0] && ([s[0]] + tail)[1..] == tail;
      assert Having(Insert(x, s, key), key, k) == h + Having(tail, key, k);
      assert h + (Having(s[1..], key, k) + hx) == (h + Having(s[1..], key, k)) + hx;
    } else {
      assert ([x] + s)[0] == x && ([x] + s)[1..] == s;
      if key(x) == k {
        forall i | 0 <= i < |s| ensures key(s[i]) != k {
          FirstIsLeast(s, key, i);
        }
        HavingNone(s, key, k);
      }
    }
  }

  lemma {:induction false} SortBySorted<T>(s: seq<T>, key: T -> string)
    ensures SortedBy(SortBy(s, key), key)
  {
    if s != [] {
      SortBySorted(s[..|s| - 1], key);
      InsertSorted(s[|s| - 1], SortBy(s[..|s| - 1], key), key);
    }
  }

  /** `sorted` returns a permutation of its argument. */
  lemma {:induction false} SortByPermutation<T>(s: seq<T>, key: T -> string)
    ensures multiset(SortBy(s, key)) == multiset(s)
  {
    if s != [] {
      var init, last := s[..|s| - 1], s[|s| - 1];
      SortByPermutation(init, key);
      InsertMultiset(last, SortBy(init, key), key);
      assert s == init + [last];
    }
  }

  /** `sorted` is stable: the elements sharing a key keep their order. */
  lemma {:induction false} SortByStable<T>(s: seq<T>, key: T -> string, k: string)
    ensures Having(SortBy(s, key), key, k) == Having(s, key, k)
  {
    if s != [] {
      var init, last := s[..|s| - 1], s[|s| - 1];
      SortByStable(init, key, k);
      SortBySorted(init, key);
      InsertHaving(last, SortBy(init, key), key, k);
      assert s == init + [last];
      HavingAppend(init, [last], key, k);
      assert [last][1..] == [];
    }
  }

  lemma {:induction false} InsertLast<T>(x: T, s: seq<T>, key: T -> string)
    requires forall i :: 0 <= i < |s| ==> LexLe(key(s[i]), key(x))
    ensures Insert(x, s, key) == s + [x]
  {
    if s != [] {
      InsertLast(x, s[1..], key);
      assert s == [s[0]] + s[1..];
    }
  }

  /** A sequence already in key order is returned as it is. */
  lemma {:induction false} SortByOfSorted<T>(s: seq<T>, key: T -> string)
    requires SortedBy(s, key)
    ensures SortBy(s, key) == s
  {
    if s != [] {
      var init, last := s[..|s| - 1], s[|s| - 1];
      assert SortedBy(init, key) by {
        forall i, j | 0 <= i < j < |init| ensures LexLe(key(init[i]), key(init[j])) {
          assert init[i] == s[i] && init[j] == s[j];
        }
      }
      SortByOfSorted(init, key);
      forall i | 0 <= i < |init| ensures LexLe(key(init[i]), key(last)) {
        assert init[i] == s[i];
      }
      InsertLast(last, init, key);
      assert init + [last] == s;
    }
  }
}
