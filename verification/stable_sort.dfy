/** `Array.prototype.sort` with a numeric comparator `(a, b) => key(a) - key(b)`.
    JavaScript's sort is stable, so it is modelled as insertion sort that
    places each element after every earlier element whose key is not larger. */
module StableSort {
  import opened Ledger

  predicate SortedBy(s: seq<Transaction>, key: Transaction -> int) {
    forall i, j :: 0 <= i < j < |s| ==> key(s[i]) <= key(s[j])
  }

  /** The elements of `s` whose key is `v`, in their order in `s`. */
  function WithKey(s: seq<Transaction>, key: Transaction -> int, v: int): seq<Transaction>
    decreases |s|
  {
    if |s| == 0 then []
    else WithKey(s[..|s| - 1], key, v) + (if key(s[|s| - 1]) == v then [s[|s| - 1]] else [])
  }

  /** Inserts `x` into `s` just after the last element whose key is at most `key(x)`. */
  function Insert(s: seq<Transaction>, x: Transaction, key: Transaction -> int): (r: seq<Transaction>)
    ensures |r| == |s| + 1
    ensures multiset(r) == multiset(s) + multiset{x}
    decreases |s|
  {
    if |s| == 0 then [x]
    else if key(s[|s| - 1]) <= key(x) then s + [x]
    else
      assert s == s[..|s| - 1] + [s[|s| - 1]];
      Insert(s[..|s| - 1], x, key) + [s[|s| - 1]]
  }

  /** Appending one element extends the selection of its key. */
  lemma WithKeySnoc(a: seq<Transaction>, y: Transaction, key: Transaction -> int, v: int)
    ensures WithKey(a + [y], key, v) == WithKey(a, key, v) + (if key(y) == v then [y] else [])
  {
    assert (a + [y])[..|a|] == a;
  }

  /** Inserting into a sorted list keeps it sorted. */
  lemma {:induction false} InsertSorted(s: seq<Transaction>, x: Transaction, key: Transaction -> int)
    requires SortedBy(s, key)
    ensures SortedBy(Insert(s, x, key), key)
    decreases |s|
  {
    if |s| > 0 && key(s[|s| - 1]) > key(x) {
      var init := s[..|s| - 1];
      var last := s[|s| - 1];
      var ins := Insert(init, x, key);
      InsertSorted(init, x, key);
      forall i | 0 <= i < |ins|
        ensures key(ins[i]) <= key(last)
      {
        assert ins[i] in multiset(ins);
        if ins[i] != x {
          assert ins[i] in multiset(init);
          var k :| 0 <= k < |init| && init[k] == ins[i];
          assert s[k] == init[k];
        }
      }
      assert Insert(s, x, key) == ins + [last];
    }
  }

  /** `x` lands after every element of equal key, and elements of other keys
      keep their order. */
  lemma {:induction false} InsertStable(s: seq<Transaction>, x: Transaction, key: Transaction -> int, v: int)
    requires SortedBy(s, key)
    ensures WithKey(Insert(s, x, key), key, v) == WithKey(s, key, v) + (if key(x) == v then [x] else [])
    decreases |s|
  {
    if |s| == 0 {
      WithKeySnoc([], x, key, v);
      assert [] + [x] == [x];
    } else if key(s[|s| - 1]) <= key(x) {
      WithKeySnoc(s, x, key, v);
    } else {
      var init := s[..|s| - 1];
      var last := s[|s| - 1];
      assert s == init + [last];
      assert SortedBy(init, key);
      InsertStable(init, x, key, v);
      InsertStableStep(init, last, x, key, v);
    }
  }

  /** The step of `InsertStable` where `x` moves in front of the last element. */
  lemma InsertStableStep(init: seq<Transaction>, last: Transaction, x: Transaction, key: Transaction -> int, v: int)
    requires key(x) < key(last)
    requires WithKey(Insert(init, x, key), key, v) == WithKey(init, key, v) + (if key(x) == v then [x] else [])
    ensures WithKey(Insert(init + [last], x, key), key, v) == WithKey(init + [last], key, v) + (if key(x) == v then [x] else [])
  {
    var ins := Insert(init, x, key);
    InsertBeforeLast(init, last, x, key);
    WithKeySnoc(ins, last, key, v);
    WithKeySnoc(init, last, key, v);
  }

  /** An element of smaller key goes in front of the last element. */
  lemma InsertBeforeLast(init: seq<Transaction>, last: Transaction, x: Transaction, key: Transaction -> int)
    requires key(x) < key(last)
    ensures Insert(init + [last], x, key) == Insert(init, x, key) + [last]
  {
    assert (init + [last])[..|init|] == init;
  }

  /** The stable sort of `s` by `key`: a sorted permutation of `s` in which
      elements of equal key keep their relative order. */
  function Sort(s: seq<Transaction>, key: Transaction -> int): (r: seq<Transaction>)
    ensures |r| == |s|
    ensures multiset(r) == multiset(s)
    ensures SortedBy(r, key)
    ensures forall v :: WithKey(r, key, v) == WithKey(s, key, v)
    decreases |s|
  {
    if |s| == 0 then []
    else
      var init := s[..|s| - 1];
      assert s == init + [s[|s| - 1]];
      var sorted := Sort(init, key);
      InsertSorted(sorted, s[|s| - 1], key);
      forall v
        ensures WithKey(Insert(sorted, s[|s| - 1], key), key, v) == WithKey(s, key, v)
      {
        InsertStable(sorted, s[|s| - 1], key, v);
        WithKeySnoc(init, s[|s| - 1], key, v);
      }
      Insert(sorted, s[|s| - 1], key)
  }

  /** A list that is already in order is left as it is; in particular a
      comparator that always answers 0 leaves the order unchanged. */
  lemma {:induction false} SortOfSorted(s: seq<Transaction>, key: Transaction -> int)
    requires SortedBy(s, key)
    ensures Sort(s, key) == s
    decreases |s|
  {
    if |s| > 0 {
      var init := s[..|s| - 1];
      var last := s[|s| - 1];
      assert Sort(s, key) == Insert(init, last, key) by {
        assert SortedBy(init, key);
        SortOfSorted(init, key);
        SortLast(s, key);
      }
      assert Insert(init, last, key) == init + [last] by {
        InsertAfterLast(init, last, key);
      }
      assert init + [last] == s;
    }
  }

  /** The sort of a non-empty list inserts its last element into the sort
      of the rest. */
  lemma SortLast(s: seq<Transaction>, key: Transaction -> int)
    requires |s| > 0
    ensures Sort(s, key) == Insert(Sort(s[..|s| - 1], key), s[|s| - 1], key)
  {
  }

  /** An element whose key is no smaller than any in a sorted list goes at its end. */
  lemma InsertAfterLast(s: seq<Transaction>, x: Transaction, key: Transaction -> int)
    requires forall i :: 0 <= i < |s| ==> key(s[i]) <= key(x)
    ensures Insert(s, x, key) == s + [x]
  {
    if |s| > 0 {
      assert key(s[|s| - 1]) <= key(x);
    }
  }
}
