/** Sequence helpers shared by the list-shaped state of the application:
    removing every occurrence of a value (`Array.prototype.filter(v => v !== x)`)
    and keeping the first element per key (insertion order of a JavaScript
    `Set` or `Map`). */
module SeqUtil {
  import opened Wrappers

  /** All elements of `s` other than `x`, in their original order. */
  function RemoveAll<T(==)>(s: seq<T>, x: T): (r: seq<T>)
    ensures x !in r
    ensures forall y :: y in s && y != x ==> y in r
    ensures forall y :: y in r ==> y in s
    ensures |r| <= |s|
    ensures x !in s ==> |r| == |s|
  {
    if |s| == 0 then []
    else (if s[0] == x then [] else [s[0]]) + RemoveAll(s[1..], x)
  }

  /** Removal distributes over concatenation, so relative order is kept. */
  lemma {:induction false} RemoveAllAppend<T>(a: seq<T>, b: seq<T>, x: T)
    ensures RemoveAll(a + b, x) == RemoveAll(a, x) + RemoveAll(b, x)
  {
    if |a| == 0 {
      assert a + b == b;
    } else {
      assert (a + b)[1..] == a[1..] + b;
      RemoveAllAppend(a[1..], b, x);
    }
  }

  /** Removing a value that does not occur changes nothing. */
  lemma {:induction false} RemoveAllAbsent<T>(s: seq<T>, x: T)
    requires x !in s
    ensures RemoveAll(s, x) == s
  {
    if |s| > 0 {
      assert s == [s[0]] + s[1..];
      RemoveAllAbsent(s[1..], x);
    }
  }

  /** The set of keys occurring in `s`. */
  function KeysOf<T, K>(s: seq<T>, key: T -> K): set<K>
  {
    set i | 0 <= i < |s| :: key(s[i])
  }

  /** Splitting off the head splits off its key. */
  lemma KeysOfCons<T, K>(s: seq<T>, key: T -> K)
    requires |s| > 0
    ensures KeysOf(s, key) == {key(s[0])} + KeysOf(s[1..], key)
  {
    assert forall i | 1 <= i < |s| :: s[i] == s[1..][i - 1];
    assert forall i | 0 <= i < |s[1..]| :: s[1..][i] == s[i + 1];
  }

  /** The position of the first element of `s` whose key is `k`, or `|s|`
      when there is none. */
  function FirstIndexOf<T, K(==)>(s: seq<T>, k: K, key: T -> K): (n: nat)
    ensures n <= |s|
    ensures n < |s| ==> key(s[n]) == k
    ensures forall j | 0 <= j < n :: key(s[j]) != k
  {
    if |s| == 0 then 0
    else if key(s[0]) == k then 0
    else 1 + FirstIndexOf(s[1..], k, key)
  }

  /** The first element of `s` whose key is `k` (`Array.prototype.find`). */
  function FirstWithKey<T, K(==)>(s: seq<T>, k: K, key: T -> K): (r: Option<T>)
    ensures r.None? <==> k !in KeysOf(s, key)
    ensures r.Some? ==> FirstIndexOf(s, k, key) < |s| && r.value == s[FirstIndexOf(s, k, key)]
    ensures r.Some? ==> key(r.value) == k && forall j | 0 <= j < FirstIndexOf(s, k, key) :: key(s[j]) != k
  {
    if |s| == 0 then None
    else if key(s[0]) == k then Some(s[0])
    else
      KeysOfCons(s, key);
      FirstWithKey(s[1..], k, key)
  }

  /** Every element of `r` is the first element of `s` with its key. */
  ghost predicate EachFirstOfKey<T, K>(r: seq<T>, s: seq<T>, key: T -> K) {
    forall i | 0 <= i < |r| :: FirstIndexOf(s, key(r[i]), key) < |s| && r[i] == s[FirstIndexOf(s, key(r[i]), key)]
  }

  /** The elements of `r` appear in the order their keys first occur in `s`. */
  predicate InFirstOccurrenceOrder<T, K(==)>(r: seq<T>, s: seq<T>, key: T -> K) {
    forall i, j | 0 <= i < j < |r| :: FirstIndexOf(s, key(r[i]), key) < FirstIndexOf(s, key(r[j]), key)
  }

  /** Keeps the first element for every key not already in `seen`, in order:
      what inserting `s` into a JavaScript `Map` keyed by `key` (skipping
      keys already present) and reading back its values yields. Each kept
      element is the first of `s` with its key, and the kept elements are
      ordered by where their keys first occur in `s`. */
  function DedupBy<T, K(==)>(s: seq<T>, seen: set<K>, key: T -> K): (r: seq<T>)
    ensures forall i | 0 <= i < |r| :: key(r[i]) !in seen
    ensures forall i, j | 0 <= i < j < |r| :: key(r[i]) != key(r[j])
    ensures EachFirstOfKey(r, s, key)
    ensures InFirstOccurrenceOrder(r, s, key)
    ensures KeysOf(r, key) == KeysOf(s, key) - seen
    ensures |r| <= |s|
  {
    if |s| == 0 then []
    else
      KeysOfCons(s, key);
      if key(s[0]) in seen then
        var r := DedupBy(s[1..], seen, key);
        SkipHeadKeepsOrder(s, r, key);
        r
      else
        var rest := DedupBy(s[1..], seen + {key(s[0])}, key);
        ConsHeadKeepsOrder(s, rest, key);
        assert KeysOf([s[0]] + rest, key) == {key(s[0])} + KeysOf(rest, key) by {
          KeysOfCons([s[0]] + rest, key);
          assert ([s[0]] + rest)[1..] == rest;
        }
        [s[0]] + rest
  }

  /** Dropping a head whose key the result does not use leaves the order
      facts intact. */
  lemma SkipHeadKeepsOrder<T, K>(s: seq<T>, r: seq<T>, key: T -> K)
    requires |s| > 0
    requires forall i | 0 <= i < |r| :: key(r[i]) != key(s[0])
    requires EachFirstOfKey(r, s[1..], key) && InFirstOccurrenceOrder(r, s[1..], key)
    ensures EachFirstOfKey(r, s, key) && InFirstOccurrenceOrder(r, s, key)
  {
    assert forall i | 0 <= i < |r| :: FirstIndexOf(s, key(r[i]), key) == 1 + FirstIndexOf(s[1..], key(r[i]), key);
  }

  /** Putting the head in front of a result that avoids its key keeps the
      order facts. */
  lemma ConsHeadKeepsOrder<T, K>(s: seq<T>, rest: seq<T>, key: T -> K)
    requires |s| > 0
    requires forall i | 0 <= i < |rest| :: key(rest[i]) != key(s[0])
    requires EachFirstOfKey(rest, s[1..], key) && InFirstOccurrenceOrder(rest, s[1..], key)
    ensures EachFirstOfKey([s[0]] + rest, s, key) && InFirstOccurrenceOrder([s[0]] + rest, s, key)
  {
    var r := [s[0]] + rest;
    SkipHeadKeepsOrder(s, rest, key);
    assert FirstIndexOf(s, key(s[0]), key) == 0;
    forall i | 0 <= i < |r|
      ensures FirstIndexOf(s, key(r[i]), key) < |s| && r[i] == s[FirstIndexOf(s, key(r[i]), key)]
    {
      if i > 0 {
        assert r[i] == rest[i - 1];
      }
    }
    forall i, j | 0 <= i < j < |r|
      ensures FirstIndexOf(s, key(r[i]), key) < FirstIndexOf(s, key(r[j]), key)
    {
      assert r[j] == rest[j - 1];
      if i > 0 {
        assert r[i] == rest[i - 1];
      }
    }
  }

  /** De-duplication distributes over concatenation: the second part only
      contributes keys the first part did not already have. */
  lemma {:induction false} DedupByAppend<T, K>(a: seq<T>, b: seq<T>, seen: set<K>, key: T -> K)
    ensures DedupBy(a + b, seen, key) == DedupBy(a, seen, key) + DedupBy(b, seen + KeysOf(a, key), key)
  {
    if |a| == 0 {
      assert a + b == b;
      assert KeysOf(a, key) == {};
      assert seen + KeysOf(a, key) == seen;
    } else {
      assert (a + b)[0] == a[0];
      assert (a + b)[1..] == a[1..] + b;
      KeysOfCons(a, key);
      if key(a[0]) in seen {
        DedupByAppend(a[1..], b, seen, key);
        assert seen + KeysOf(a, key) == seen + KeysOf(a[1..], key);
      } else {
        DedupByAppend(a[1..], b, seen + {key(a[0])}, key);
        assert seen + {key(a[0])} + KeysOf(a[1..], key) == seen + KeysOf(a, key);
      }
    }
  }

  /** A single element is kept exactly when its key is unseen. */
  lemma DedupBySingle<T, K>(x: T, seen: set<K>, key: T -> K)
    ensures DedupBy([x], seen, key) == if key(x) in seen then [] else [x]
  {
    assert [x][1..] == [];
  }

  /** Every element kept is the first element of `s` carrying its key. */
  lemma {:induction false} DedupByKeepsFirst<T, K>(s: seq<T>, seen: set<K>, key: T -> K, i: nat)
    requires i < |DedupBy(s, seen, key)|
    ensures FirstWithKey(s, key(DedupBy(s, seen, key)[i]), key) == Some(DedupBy(s, seen, key)[i])
  {
    var r := DedupBy(s, seen, key);
    if key(s[0]) in seen {
      assert key(r[i]) != key(s[0]);
      DedupByKeepsFirst(s[1..], seen, key, i);
    } else if i > 0 {
      var rest := DedupBy(s[1..], seen + {key(s[0])}, key);
      assert r[i] == rest[i - 1];
      DedupByKeepsFirst(s[1..], seen + {key(s[0])}, key, i - 1);
    }
  }

  /** A sequence whose keys are pairwise distinct and avoid `seen` is left
      as it is. */
  lemma {:induction false} DedupByDistinct<T, K>(s: seq<T>, seen: set<K>, key: T -> K)
    requires forall i | 0 <= i < |s| :: key(s[i]) !in seen
    requires forall i, j | 0 <= i < j < |s| :: key(s[i]) != key(s[j])
    ensures DedupBy(s, seen, key) == s
  {
    if |s| > 0 {
      assert forall i | 0 <= i < |s[1..]| :: s[1..][i] == s[i + 1];
      DedupByDistinct(s[1..], seen + {key(s[0])}, key);
      assert s == [s[0]] + s[1..];
    }
  }

  /** Dropping a prefix whose keys are all in `seen` changes nothing. */
  lemma {:induction false} DedupBySkipSeen<T, K>(t: seq<T>, s: seq<T>, seen: set<K>, key: T -> K)
    requires forall i | 0 <= i < |t| :: key(t[i]) in seen
    ensures DedupBy(t + s, seen, key) == DedupBy(s, seen, key)
  {
    if |t| > 0 {
      assert (t + s)[0] == t[0];
      assert (t + s)[1..] == t[1..] + s;
      assert forall i | 0 <= i < |t[1..]| :: t[1..][i] == t[i + 1];
      DedupBySkipSeen(t[1..], s, seen, key);
    } else {
      assert t + s == s;
    }
  }
}
