/** The recent-transactions table: the list sorted newest first, then its
    first five entries. The sort is applied to the array it is given, in
    place. */
module RecentTransactions {
  import opened Calendar
  import opened Ledger
  import opened StableSort

  const ShownCount: nat := 5

  /** `(a, b) => new Date(b.date) - new Date(a.date)` as an ascending key:
      later dates first. */
  function NewestFirst(): Transaction -> int {
    (t: Transaction) => -DayNumber(t.date)
  }

  function Min(a: nat, b: nat): nat {
    if a < b then a else b
  }

  /** The rows shown: at most five, newest first, each taken from the list,
      and no transaction left out is more recent than any shown one.
      Transactions of the same date keep their list order. */
  function Recent(ts: seq<Transaction>): (r: seq<Transaction>)
    ensures |r| == Min(ShownCount, |ts|)
    ensures forall i, j :: 0 <= i < j < |r| ==> DayNumber(r[i].date) >= DayNumber(r[j].date)
    ensures multiset(r) <= multiset(ts)
    ensures forall t, i :: t in multiset(ts) - multiset(r) && 0 <= i < |r| ==> DayNumber(t.date) <= DayNumber(r[i].date)
  {
    var sorted := Sort(ts, NewestFirst());
    var n := Min(ShownCount, |ts|);
    Prefix(ts, sorted, n);
    sorted[..n]
  }

  /** The first `n` of a newest-first list are newest first, and nothing
      after them is more recent. */
  lemma Prefix(ts: seq<Transaction>, sorted: seq<Transaction>, n: nat)
    requires n <= |sorted| && SortedBy(sorted, NewestFirst()) && multiset(sorted) == multiset(ts)
    ensures |sorted[..n]| == n
    ensures forall i, j :: 0 <= i < j < n ==> DayNumber(sorted[..n][i].date) >= DayNumber(sorted[..n][j].date)
    ensures multiset(sorted[..n]) <= multiset(ts)
    ensures forall t, i :: t in multiset(ts) - multiset(sorted[..n]) && 0 <= i < n ==> DayNumber(t.date) <= DayNumber(sorted[..n][i].date)
  {
    PrefixOrdered(sorted, n);
    PrefixNewest(sorted, n);
  }

  /** A prefix of a newest-first list is newest first. */
  lemma PrefixOrdered(sorted: seq<Transaction>, n: nat)
    requires n <= |sorted| && SortedBy(sorted, NewestFirst())
    ensures forall i, j :: 0 <= i < j < n ==> DayNumber(sorted[..n][i].date) >= DayNumber(sorted[..n][j].date)
  {
    forall i, j | 0 <= i < j < n ensures DayNumber(sorted[..n][i].date) >= DayNumber(sorted[..n][j].date) {
      assert NewestFirst()(sorted[i]) <= NewestFirst()(sorted[j]);
    }
  }

  /** Everything a newest-first list has beyond its first `n` is no more
      recent than any of them. */
  lemma PrefixNewest(sorted: seq<Transaction>, n: nat)
    requires n <= |sorted| && SortedBy(sorted, NewestFirst())
    ensures multiset(sorted[..n]) <= multiset(sorted)
    ensures forall t, i :: t in multiset(sorted) - multiset(sorted[..n]) && 0 <= i < n ==> DayNumber(t.date) <= DayNumber(sorted[..n][i].date)
  {
    var r := sorted[..n];
    assert sorted == r + sorted[n..];
    assert multiset(sorted) == multiset(r) + multiset(sorted[n..]);
    forall t, i | t in multiset(sorted) - multiset(r) && 0 <= i < n
      ensures DayNumber(t.date) <= DayNumber(r[i].date)
    {
      assert t in multiset(sorted[n..]);
      var k :| 0 <= k < |sorted[n..]| && sorted[n..][k] == t;
      assert NewestFirst()(sorted[i]) <= NewestFirst()(sorted[n + k]);
    }
  }

  /** The component's effect on the array it is handed: the array is
      reordered newest first in place, and the first five are returned. */
  method RecentInPlace(a: array<Transaction>) returns (r: seq<Transaction>)
    modifies a
    ensures a[..] == Sort(old(a[..]), NewestFirst())
    ensures r == Recent(old(a[..]))
  {
    var sorted := Sort(a[..], NewestFirst());
    forall i | 0 <= i < a.Length {
      a[i] := sorted[i];
    }
    r := a[..Min(ShownCount, a.Length)];
  }

  /** A list already newest first shows its own first five. */
  lemma RecentOfOrdered(ts: seq<Transaction>)
    requires forall i, j :: 0 <= i < j < |ts| ==> DayNumber(ts[i].date) >= DayNumber(ts[j].date)
    ensures Recent(ts) == ts[..Min(ShownCount, |ts|)]
  {
    assert SortedBy(ts, NewestFirst()) by {
      forall i, j | 0 <= i < j < |ts| ensures NewestFirst()(ts[i]) <= NewestFirst()(ts[j]) {
      }
    }
    SortOfSorted(ts, NewestFirst());
  }
}
