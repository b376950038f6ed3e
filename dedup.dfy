/**
 * The "skip if rejected or already seen, otherwise keep it and remember its
 * key" loop that the scripts write four times: the batch drain in
 * scripts/stock_picker.py, the pick normalisation and the position builder
 * in scripts/fetch_stock.py. `Keep` is the value such a loop computes.
 */
module Dedup {

  /** The elements of `xs` that `admit` accepts and whose key is neither in
      `seen` nor the key of an element kept before them. */
  function Keep<T, K>(xs: seq<T>, key: T -> K, admit: T -> bool, seen: set<K>): (r: seq<T>)
    ensures |r| <= |xs|
    decreases |xs|
  {
    if xs == [] then []
    else if admit(xs[0]) && key(xs[0]) !in seen then [xs[0]] + Keep(xs[1..], key, admit, seen + {key(xs[0])})
    else Keep(xs[1..], key, admit, seen)
  }

  function Keys<T, K>(r: seq<T>, key: T -> K): set<K> {
    set i | 0 <= i < |r| :: key(r[i])
  }

  lemma KeysCons<T, K>(x: T, tail: seq<T>, key: T -> K)
    ensures Keys([x] + tail, key) == {key(x)} + Keys(tail, key)
  {
    forall k | k in Keys([x] + tail, key) ensures k in {key(x)} + Keys(tail, key) {
      var i :| 0 <= i < |[x] + tail| && key(([x] + tail)[i]) == k;
      if i > 0 {
        assert ([x] + tail)[i] == tail[i - 1];
      }
    }
    forall k | k in Keys(tail, key) ensures k in Keys([x] + tail, key) {
      var i :| 0 <= i < |tail| && key(tail[i]) == k;
      assert ([x] + tail)[i + 1] == tail[i];
    }
    assert ([x] + tail)[0] == x;
  }

  lemma KeysAppend<T, K>(a: seq<T>, b: seq<T>, key: T -> K)
    ensures Keys(a + b, key) == Keys(a, key) + Keys(b, key)
  {
    forall k | k in Keys(a + b, key) ensures k in Keys(a, key) + Keys(b, key) {
      var i :| 0 <= i < |a + b| && key((a + b)[i]) == k;
      if i >= |a| {
        assert (a + b)[i] == b[i - |a|];
      } else {
        assert (a + b)[i] == a[i];
      }
    }
    forall k | k in Keys(a, key) + Keys(b, key) ensures k in Keys(a + b, key) {
      if k in Keys(a, key) {
        var i :| 0 <= i < |a| && key(a[i]) == k;
        assert (a + b)[i] == a[i];
      } else {
        var i :| 0 <= i < |b| && key(b[i]) == k;
        assert (a + b)[|a| + i] == b[i];
      }
    }
  }

  /** Two key-distinct sequences with no key in common concatenate to a
      key-distinct sequence. */
  lemma DistinctAppend<T, K>(a: seq<T>, b: seq<T>, key: T -> K)
    requires DistinctKeys(a, key) && DistinctKeys(b, key)
    requires forall i :: 0 <= i < |b| ==> key(b[i]) !in Keys(a, key)
    ensures DistinctKeys(a + b, key)
  {
    forall i, j | 0 <= i < j < |a + b|
      ensures key((a + b)[i]) != key((a + b)[j])
    {
      if j < |a| {
        assert (a + b)[i] == a[i] && (a + b)[j] == a[j];
      } else if i >= |a| {
        assert (a + b)[i] == b[i - |a|] && (a + b)[j] == b[j - |a|];
      } else {
        assert (a + b)[i] == a[i] && (a + b)[j] == b[j - |a|];
      }
    }
  }

  /** The keys of the admitted elements of `xs`, an independent description
      of what `Keep` can reach. */
  function AdmittedKeys<T, K>(xs: seq<T>, key: T -> K, admit: T -> bool): set<K> {
    set i | 0 <= i < |xs| && admit(xs[i]) :: key(xs[i])
  }

  predicate DistinctKeys<T, K(==)>(r: seq<T>, key: T -> K) {
    forall i, j :: 0 <= i < j < |r| ==> key(r[i]) != key(r[j])
  }

  /** Every kept element comes from `xs`, is admitted, has an unseen key,
      and no two kept elements share a key. */
  lemma {:induction false} KeepSound<T, K>(xs: seq<T>, key: T -> K, admit: T -> bool, seen: set<K>)
    ensures var r := Keep(xs, key, admit, seen);
      && (forall i :: 0 <= i < |r| ==> r[i] in xs && admit(r[i]) && key(r[i]) !in seen)
      && DistinctKeys(r, key)
    decreases |xs|
  {
    if xs != [] {
      var x := xs[0];
      if admit(x) && key(x) !in seen {
        KeepSound(xs[1..], key, admit, seen + {key(x)});
      } else {
        KeepSound(xs[1..], key, admit, seen);
      }
    }
  }

  /** The kept keys are exactly the admitted keys that were not seen. */
  lemma {:induction false} KeepKeys<T, K>(xs: seq<T>, key: T -> K, admit: T -> bool, seen: set<K>)
    ensures Keys(Keep(xs, key, admit, seen), key) == AdmittedKeys(xs, key, admit) - seen
    decreases |xs|
  {
    if xs != [] {
      var x, rest := xs[0], xs[1..];
      assert AdmittedKeys(xs, key, admit) == (if admit(x) then {key(x)} else {}) + AdmittedKeys(rest, key, admit) by {
        forall k | k in AdmittedKeys(xs, key, admit)
          ensures k in (if admit(x) then {key(x)} else {}) + AdmittedKeys(rest, key, admit)
        {
          var i :| 0 <= i < |xs| && admit(xs[i]) && key(xs[i]) == k;
          if i > 0 {
            assert rest[i - 1] == xs[i];
          }
        }
        forall k | k in AdmittedKeys(rest, key, admit) ensures k in AdmittedKeys(xs, key, admit) {
          var i :| 0 <= i < |rest| && admit(rest[i]) && key(rest[i]) == k;
          assert xs[i + 1] == rest[i];
        }
      }
      if admit(x) && key(x) !in seen {
        var tail := Keep(rest, key, admit, seen + {key(x)});
        KeepKeys(rest, key, admit, seen + {key(x)});
        KeysCons(x, tail, key);
      } else {
        KeepKeys(rest, key, admit, seen);
      }
    }
  }

  /** Draining `a` and then `b` keeps what draining `a` keeps, followed by
      what draining `b` keeps once everything kept from `a` is seen. */
  lemma {:induction false} KeepAppend<T, K>(a: seq<T>, b: seq<T>, key: T -> K, admit: T -> bool, seen: set<K>)
    ensures Keep(a + b, key, admit, seen)
         == Keep(a, key, admit, seen) + Keep(b, key, admit, seen + Keys(Keep(a, key, admit, seen), key))
    decreases |a|
  {
    if a == [] {
      assert a + b == b;
      assert Keys([], key) == {};
      assert seen + {} == seen;
    } else {
      var x := a[0];
      assert (a + b)[0] == x && (a + b)[1..] == a[1..] + b;
      if admit(x) && key(x) !in seen {
        var s' := seen + {key(x)};
        KeepAppend(a[1..], b, key, admit, s');
        var tail := Keep(a[1..], key, admit, s');
        KeysCons(x, tail, key);
        assert s' + Keys(tail, key) == seen + Keys([x] + tail, key);
      } else {
        KeepAppend(a[1..], b, key, admit, seen);
      }
    }
  }

  /** The drain seen one element at a time: the next element is kept exactly
      when it is admitted and its key is neither seen nor already kept. */
  lemma KeepSnoc<T, K>(a: seq<T>, x: T, key: T -> K, admit: T -> bool, seen: set<K>)
    ensures Keep(a + [x], key, admit, seen)
         == Keep(a, key, admit, seen)
            + (if admit(x) && key(x) !in seen + Keys(Keep(a, key, admit, seen), key) then [x] else [])
  {
    KeepAppend(a, [x], key, admit, seen);
    assert [x][1..] == [];
  }

  /** One step of a drain loop over `xs`: element `i` is kept exactly when
      it is admitted and its key is new, and its key joins the kept keys. */
  lemma KeepStep<T, K>(xs: seq<T>, i: nat, key: T -> K, admit: T -> bool, seen: set<K>)
    requires i < |xs|
    ensures var kept := Keep(xs[..i], key, admit, seen);
      var isNew := admit(xs[i]) && key(xs[i]) !in seen + Keys(kept, key);
      && Keep(xs[..i + 1], key, admit, seen) == kept + (if isNew then [xs[i]] else [])
      && Keys(Keep(xs[..i + 1], key, admit, seen), key) == Keys(kept, key) + (if isNew then {key(xs[i])} else {})
  {
    var kept := Keep(xs[..i], key, admit, seen);
    assert xs[..i + 1] == xs[..i] + [xs[i]];
    KeepSnoc(xs[..i], xs[i], key, admit, seen);
    KeysAppend(kept, [xs[i]], key);
    KeysCons(xs[i], [], key);
    assert [xs[i]] + [] == [xs[i]];
    assert kept + [] == kept;
  }

  /** A sequence that is already admitted, duplicate-free and unseen passes
      through unchanged. */
  lemma {:induction false} KeepUnchanged<T, K>(xs: seq<T>, key: T -> K, admit: T -> bool, seen: set<K>)
    requires forall i :: 0 <= i < |xs| ==> admit(xs[i]) && key(xs[i]) !in seen
    requires DistinctKeys(xs, key)
    ensures Keep(xs, key, admit, seen) == xs
    decreases |xs|
  {
    if xs != [] {
      var s' := seen + {key(xs[0])};
      forall i | 0 <= i < |xs[1..]| ensures admit(xs[1..][i]) && key(xs[1..][i]) !in s' {
        assert xs[1..][i] == xs[i + 1];
      }
      KeepUnchanged(xs[1..], key, admit, s');
    }
  }
}
