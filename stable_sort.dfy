/**
 * `sort.Stable` over a slice whose `Less` compares a string key (the
 * interface name of a configuration record). The sort is specified by
 * insertion from the right, which is stable by construction; the lemmas
 * prove that its result is ordered, a permutation of its input, keeps the
 * relative order of records with equal keys, and leaves an ordered input
 * unchanged.
 */
module StableSort {
  import opened Text

  predicate SortedBy<T>(s: seq<T>, key: T -> string)
  {
    forall i, j :: 0 <= i < j < |s| ==> !Less(key(s[j]), key(s[i]))
  }

  /** Insert `x` after every element of `t` whose key is not greater. */
  function InsertLast<T>(x: T, t: seq<T>, key: T -> string): (r: seq<T>)
    ensures |r| == |t| + 1
  {
    if t == [] then [x]
    else if Less(key(x), key(t[|t| - 1])) then InsertLast(x, t[..|t| - 1], key) + [t[|t| - 1]]
    else t + [x]
  }

  /** The result of `sort.Stable` with `Less(i, j) = key(s[i]) < key(s[j])`. */
  function Sort<T>(s: seq<T>, key: T -> string): (r: seq<T>)
    ensures |r| == |s|
  {
    if s == [] then [] else InsertLast(s[|s| - 1], Sort(s[..|s| - 1], key), key)
  }

  /** The elements of `s` whose key is `k`, in the order of `s`. */
  function WithKey<T>(s: seq<T>, key: T -> string, k: string): seq<T>
  {
    if s == [] then []
    else WithKey(s[..|s| - 1], key, k) + (if key(s[|s| - 1]) == k then [s[|s| - 1]] else [])
  }

  lemma {:induction false} InsertLastPermutes<T>(x: T, t: seq<T>, key: T -> string)
    ensures multiset(InsertLast(x, t, key)) == multiset(t) + multiset{x}
  {
    if t != [] && Less(key(x), key(t[|t| - 1])) {
      InsertLastPermutes(x, t[..|t| - 1], key);
      assert t == t[..|t| - 1] + [t[|t| - 1]];
    }
  }

  /** Appending an element no smaller than any other keeps a sequence ordered. */
  lemma SortedSnoc<T>(s: seq<T>, y: T, key: T -> string)
    requires SortedBy(s, key)
    requires forall i :: 0 <= i < |s| ==> !Less(key(y), key(s[i]))
    ensures SortedBy(s + [y], key)
  {
    var u := s + [y];
    forall i, j | 0 <= i < j < |u| ensures !Less(key(u[j]), key(u[i])) {
      assert u[i] == s[i];
      if j < |s| { assert u[j] == s[j]; }
    }
  }

  /** An upper bound of `x` and of `t` bounds the insertion too. */
  lemma {:induction false} InsertLastBelow<T>(x: T, t: seq<T>, key: T -> string, k: string)
    requires !Less(k, key(x))
    requires forall i :: 0 <= i < |t| ==> !Less(k, key(t[i]))
    ensures forall i :: 0 <= i < |t| + 1 ==> !Less(k, key(InsertLast(x, t, key)[i]))
  {
    if t != [] {
      var front := t[..|t| - 1];
      var last := t[|t| - 1];
      if Less(key(x), key(last)) {
        forall i | 0 <= i < |front| ensures !Less(k, key(front[i])) {
          assert front[i] == t[i];
        }
        InsertLastBelow(x, front, key, k);
        var u := InsertLast(x, front, key);
        assert InsertLast(x, t, key) == u + [last];
        forall i | 0 <= i < |t| + 1 ensures !Less(k, key(InsertLast(x, t, key)[i])) {
          if i < |u| { assert InsertLast(x, t, key)[i] == u[i]; }
        }
      } else {
        assert InsertLast(x, t, key) == t + [x];
        forall i | 0 <= i < |t| + 1 ensures !Less(k, key(InsertLast(x, t, key)[i])) {
          if i < |t| { assert InsertLast(x, t, key)[i] == t[i]; }
        }
      }
    }
  }

  lemma {:induction false} InsertLastSorted<T>(x: T, t: seq<T>, key: T -> string)
    requires SortedBy(t, key)
    ensures SortedBy(InsertLast(x, t, key), key)
  {
    if t != [] {
      var last := t[|t| - 1];
      var front := t[..|t| - 1];
      assert SortedBy(front, key) by {
        forall i, j | 0 <= i < j < |front| ensures !Less(key(front[j]), key(front[i])) {
          assert front[i] == t[i] && front[j] == t[j];
        }
      }
      forall i | 0 <= i < |front| ensures !Less(key(last), key(front[i])) {
        assert front[i] == t[i];
      }
      if Less(key(x), key(last)) {
        InsertLastSorted(x, front, key);
        if Less(key(last), key(x)) {
          LessTransitive(key(x), key(last), key(x));
          LessIrreflexive(key(x));
        }
        InsertLastBelow(x, front, key, key(last));
        SortedSnoc(InsertLast(x, front, key), last, key);
      } else {
        forall i | 0 <= i < |t| ensures !Less(key(x), key(t[i])) {
          if i < |t| - 1 {
            assert !Less(key(last), key(t[i]));
            LessTotal(key(t[i]), key(last));
            if Less(key(x), key(t[i])) && Less(key(t[i]), key(last)) {
              LessTransitive(key(x), key(t[i]), key(last));
            }
          }
        }
        SortedSnoc(t, x, key);
      }
    }
  }

  /** The sorted result is ordered by key. */
  lemma {:induction false} SortSorted<T>(s: seq<T>, key: T -> string)
    ensures SortedBy(Sort(s, key), key)
  {
    if s != [] {
      SortSorted(s[..|s| - 1], key);
      InsertLastSorted(s[|s| - 1], Sort(s[..|s| - 1], key), key);
    }
  }

  /** The sorted result holds the same records, with the same multiplicities. */
  lemma {:induction false} SortPermutes<T>(s: seq<T>, key: T -> string)
    ensures multiset(Sort(s, key)) == multiset(s)
  {
    if s != [] {
      SortPermutes(s[..|s| - 1], key);
      InsertLastPermutes(s[|s| - 1], Sort(s[..|s| - 1], key), key);
      assert s == s[..|s| - 1] + [s[|s| - 1]];
    }
  }

  lemma {:induction false} WithKeyInsertLast<T>(x: T, t: seq<T>, key: T -> string, k: string)
    ensures WithKey(InsertLast(x, t, key), key, k)
         == WithKey(t, key, k) + (if key(x) == k then [x] else [])
  {
    if t == [] {
      assert [x][..0] == [];
    } else if Less(key(x), key(t[|t| - 1])) {
      var last := t[|t| - 1];
      var u := InsertLast(x, t[..|t| - 1], key);
      WithKeyInsertLast(x, t[..|t| - 1], key, k);
      assert (u + [last])[..|u|] == u;
      if key(x) == k && key(last) == k {
        LessIrreflexive(k);
      }
    } else {
      assert (t + [x])[..|t|] == t;
    }
  }

  /** Stability: the records that share a key keep their relative order. */
  lemma {:induction false} SortStable<T>(s: seq<T>, key: T -> string, k: string)
    ensures WithKey(Sort(s, key), key, k) == WithKey(s, key, k)
  {
    if s != [] {
      SortStable(s[..|s| - 1], key, k);
      WithKeyInsertLast(s[|s| - 1], Sort(s[..|s| - 1], key), key, k);
    }
  }

  /** Sorting an ordered sequence changes nothing, so sorting twice is sorting once. */
  lemma {:induction false} SortOfSorted<T>(s: seq<T>, key: T -> string)
    requires SortedBy(s, key)
    ensures Sort(s, key) == s
  {
    if s != [] {
      var front := s[..|s| - 1];
      assert SortedBy(front, key);
      SortOfSorted(front, key);
      if |front| > 0 {
        assert !Less(key(s[|s| - 1]), key(front[|front| - 1]));
      }
      assert front + [s[|s| - 1]] == s;
    }
  }

  lemma SortIdempotent<T>(s: seq<T>, key: T -> string)
    ensures Sort(Sort(s, key), key) == Sort(s, key)
  {
    SortSorted(s, key);
    SortOfSorted(Sort(s, key), key);
  }
}
