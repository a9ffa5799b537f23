/** `Array.prototype.sort` with a comparator of the form
    `(a, b) => key(a).localeCompare(key(b))`: a stable sort by a string key.
    Modelled as insertion of each element after the sorted prefix's elements
    whose keys are not greater. */
module Sorting {
  import opened JsText

  predicate SortedBy<T>(s: seq<T>, key: T -> string) {
    forall i, j | 0 <= i < j < |s| :: StrLe(key(s[i]), key(s[j]))
  }

  /** Every key in `s` is at most `k`. */
  predicate AllAtMost<T>(s: seq<T>, k: string, key: T -> string) {
    forall i | 0 <= i < |s| :: StrLe(key(s[i]), k)
  }

  /** Inserts `x` into `s` after the trailing elements whose keys are greater. */
  function Insert<T>(s: seq<T>, x: T, key: T -> string): (r: seq<T>)
    ensures |r| == |s| + 1
  {
    if s == [] || StrLe(key(s[|s| - 1]), key(x)) then s + [x]
    else Insert(s[..|s| - 1], x, key) + [s[|s| - 1]]
  }

  /** The sort: each element in turn is inserted into the sorted prefix. */
  function SortBy<T>(s: seq<T>, key: T -> string): (r: seq<T>)
    ensures |r| == |s|
  {
    if s == [] then [] else Insert(SortBy(s[..|s| - 1], key), s[|s| - 1], key)
  }

  lemma {:induction false} InsertPermutes<T>(s: seq<T>, x: T, key: T -> string)
    ensures multiset(Insert(s, x, key)) == multiset(s) + multiset{x}
  {
    if !(s == [] || StrLe(key(s[|s| - 1]), key(x))) {
      InsertPermutes(s[..|s| - 1], x, key);
      assert s == s[..|s| - 1] + [s[|s| - 1]];
    }
  }

  lemma {:induction false} InsertAtMost<T>(s: seq<T>, x: T, k: string, key: T -> string)
    requires AllAtMost(s, k, key) && StrLe(key(x), k)
    ensures AllAtMost(Insert(s, x, key), k, key)
  {
    if !(s == [] || StrLe(key(s[|s| - 1]), key(x))) {
      InsertAtMost(s[..|s| - 1], x, k, key);
    }
  }

  lemma {:induction false} InsertSorted<T>(s: seq<T>, x: T, key: T -> string)
    requires SortedBy(s, key)
    ensures SortedBy(Insert(s, x, key), key)
  {
    if s == [] {
    } else if StrLe(key(s[|s| - 1]), key(x)) {
      forall i | 0 <= i < |s| ensures StrLe(key(s[i]), key(x)) {
        if i < |s| - 1 {
          StrLeTransitive(key(s[i]), key(s[|s| - 1]), key(x));
        }
      }
    } else {
      var p, last := s[..|s| - 1], s[|s| - 1];
      InsertSorted(p, x, key);
      StrLeTotal(key(last), key(x));
      assert AllAtMost(p, key(last), key);
      InsertAtMost(p, x, key(last), key);
    }
  }

  /** The result is a permutation of the input. */
  lemma {:induction false} SortPermutes<T>(s: seq<T>, key: T -> string)
    ensures multiset(SortBy(s, key)) == multiset(s)
  {
    if s != [] {
      SortPermutes(s[..|s| - 1], key);
      InsertPermutes(SortBy(s[..|s| - 1], key), s[|s| - 1], key);
      assert s == s[..|s| - 1] + [s[|s| - 1]];
    }
  }

  /** The result is sorted by the key. */
  lemma {:induction false} SortSorted<T>(s: seq<T>, key: T -> string)
    ensures SortedBy(SortBy(s, key), key)
  {
    if s != [] {
      SortSorted(s[..|s| - 1], key);
      InsertSorted(SortBy(s[..|s| - 1], key), s[|s| - 1], key);
    }
  }

  /** The elements of `s` whose key is `k`, in order. */
  function WithKey<T>(s: seq<T>, k: string, key: T -> string): seq<T> {
    if s == [] then [] else WithKey(s[..|s| - 1], k, key) + (if key(s[|s| - 1]) == k then [s[|s| - 1]] else [])
  }

  lemma {:induction false} WithKeyAppend<T>(s: seq<T>, x: T, k: string, key: T -> string)
    ensures WithKey(s + [x], k, key) == WithKey(s, k, key) + (if key(x) == k then [x] else [])
  {
    assert (s + [x])[..|s|] == s;
  }

  lemma {:induction false} InsertStable<T>(s: seq<T>, x: T, k: string, key: T -> string)
    ensures WithKey(Insert(s, x, key), k, key) == WithKey(s, k, key) + (if key(x) == k then [x] else [])
  {
    if s == [] || StrLe(key(s[|s| - 1]), key(x)) {
      WithKeyAppend(s, x, k, key);
    } else {
      var p, last := s[..|s| - 1], s[|s| - 1];
      InsertStable(p, x, k, key);
      WithKeyAppend(Insert(p, x, key), last, k, key);
      assert s == p + [last];
      WithKeyAppend(p, last, k, key);
      if key(x) == k && key(last) == k {
        StrLeReflexive(k);
      }
    }
  }

  /** The sort is stable: elements with equal keys keep their input order. */
  lemma {:induction false} SortStable<T>(s: seq<T>, k: string, key: T -> string)
    ensures WithKey(SortBy(s, key), k, key) == WithKey(s, k, key)
  {
    if s != [] {
      SortStable(s[..|s| - 1], k, key);
      InsertStable(SortBy(s[..|s| - 1], key), s[|s| - 1], k, key);
    }
  }
}
