/** The records every view reads: transactions and budget settings, and the
    folds over transaction lists that the views share. Folds recurse on the
    last element, so they read exactly like `Array.prototype.reduce`. */
module Ledger {
  import opened Calendar

  /** `{id, description, amount, type, category, date}`. The JavaScript field
      `type` is called `kind` here; amounts are whole numbers. */
  datatype Transaction = Transaction(
    id: int,
    description: string,
    amount: int,
    kind: string,
    category: string,
    date: Date)

  /** The settings store: `categoryLimits` is the object's entries in their
      insertion order, which is the order `Object.keys` and `Object.entries`
      visit them in. */
  datatype Settings = Settings(
    totalBudgetLimit: int,
    categoryLimits: seq<(string, int)>,
    alertsEnabled: bool)

  /** The category names of a limits object, in key order. */
  function LimitKeys(limits: seq<(string, int)>): (ks: seq<string>)
    ensures |ks| == |limits|
    ensures forall i :: 0 <= i < |limits| ==> ks[i] == limits[i].0
  {
    seq(|limits|, i requires 0 <= i < |limits| => limits[i].0)
  }

  /** Every transaction is typed `income` or `expense`, as the form allows. */
  predicate WellKinded(ts: seq<Transaction>) {
    forall i :: 0 <= i < |ts| ==> ts[i].kind == "income" || ts[i].kind == "expense"
  }

  /* ---------------- selections ---------------- */

  function OfKind(kind: string): Transaction -> bool {
    (t: Transaction) => t.kind == kind
  }

  function OfKindIn(kind: string, category: string): Transaction -> bool {
    (t: Transaction) => t.kind == kind && t.category == category
  }

  function InCategory(category: string): Transaction -> bool {
    (t: Transaction) => t.category == category
  }

  /* ---------------- sums ---------------- */

  /** The sum of all amounts. */
  function Total(ts: seq<Transaction>): int
    decreases |ts|
  {
    if |ts| == 0 then 0 else Total(ts[..|ts| - 1]) + ts[|ts| - 1].amount
  }

  /** The sum of the amounts of the transactions `p` selects. */
  function SumWhere(ts: seq<Transaction>, p: Transaction -> bool): int
    decreases |ts|
  {
    if |ts| == 0 then 0
    else SumWhere(ts[..|ts| - 1], p) + (if p(ts[|ts| - 1]) then ts[|ts| - 1].amount else 0)
  }

  /** Summing splits over concatenation. */
  lemma {:induction false} SumWhereAppend(a: seq<Transaction>, b: seq<Transaction>, p: Transaction -> bool)
    ensures SumWhere(a + b, p) == SumWhere(a, p) + SumWhere(b, p)
    decreases |b|
  {
    if |b| > 0 {
      assert (a + b)[..|a + b| - 1] == a + b[..|b| - 1];
      SumWhereAppend(a, b[..|b| - 1], p);
    } else {
      assert a + b == a;
    }
  }

  /** Sums agree for selections that agree on the list. */
  lemma {:induction false} SumWhereCongruent(ts: seq<Transaction>, p: Transaction -> bool, q: Transaction -> bool)
    requires forall i :: 0 <= i < |ts| ==> p(ts[i]) == q(ts[i])
    ensures SumWhere(ts, p) == SumWhere(ts, q)
    decreases |ts|
  {
    if |ts| > 0 {
      SumWhereCongruent(ts[..|ts| - 1], p, q);
    }
  }

  /** A selection that is, on the list, the disjoint union of two others
      sums to the sum of the two. */
  lemma {:induction false} SumWhereDisjointUnion(ts: seq<Transaction>, p: Transaction -> bool, q: Transaction -> bool, r: Transaction -> bool)
    requires forall i :: 0 <= i < |ts| ==> (p(ts[i]) <==> q(ts[i]) || r(ts[i]))
    requires forall i :: 0 <= i < |ts| ==> !(q(ts[i]) && r(ts[i]))
    ensures SumWhere(ts, p) == SumWhere(ts, q) + SumWhere(ts, r)
    decreases |ts|
  {
    if |ts| > 0 {
      SumWhereDisjointUnion(ts[..|ts| - 1], p, q, r);
    }
  }

  /** The sum over a one-element list. */
  /** With non-negative amounts, a wider selection sums to at least as much. */
  lemma {:induction false} SumWhereMonotone(ts: seq<Transaction>, p: Transaction -> bool, q: Transaction -> bool)
    requires forall i :: 0 <= i < |ts| ==> ts[i].amount >= 0
    requires forall i :: 0 <= i < |ts| && p(ts[i]) ==> q(ts[i])
    ensures SumWhere(ts, p) <= SumWhere(ts, q)
    decreases |ts|
  {
    if |ts| > 0 {
      SumWhereMonotone(ts[..|ts| - 1], p, q);
    }
  }

  lemma SumWhereSingle(t: Transaction, p: Transaction -> bool)
    ensures SumWhere([t], p) == if p(t) then t.amount else 0
  {
    assert [t][..0] == [];
  }

  /** A selection that picks nothing from the list sums to 0. */
  lemma {:induction false} SumWhereNone(ts: seq<Transaction>, p: Transaction -> bool)
    requires forall i :: 0 <= i < |ts| ==> !p(ts[i])
    ensures SumWhere(ts, p) == 0
    decreases |ts|
  {
    if |ts| > 0 {
      SumWhereNone(ts[..|ts| - 1], p);
    }
  }

  /* ---------------- filtering ---------------- */

  /** `ts.filter(p)`. */
  function Filter(ts: seq<Transaction>, p: Transaction -> bool): (r: seq<Transaction>)
    ensures |r| <= |ts|
    ensures forall t :: t in r <==> t in ts && p(t)
    ensures (forall i :: 0 <= i < |ts| ==> p(ts[i])) ==> r == ts
    decreases |ts|
  {
    if |ts| == 0 then []
    else
      var init := Filter(ts[..|ts| - 1], p);
      assert ts == ts[..|ts| - 1] + [ts[|ts| - 1]];
      if p(ts[|ts| - 1]) then init + [ts[|ts| - 1]] else init
  }

  /** Filtering and then adding up is summing the selection:
      `ts.filter(p).reduce((s, t) => s + t.amount, 0)`. */
  lemma {:induction false} TotalOfFilter(ts: seq<Transaction>, p: Transaction -> bool)
    ensures Total(Filter(ts, p)) == SumWhere(ts, p)
    decreases |ts|
  {
    if |ts| > 0 {
      var init := Filter(ts[..|ts| - 1], p);
      TotalOfFilter(ts[..|ts| - 1], p);
      if p(ts[|ts| - 1]) {
        assert (init + [ts[|ts| - 1]])[..|init|] == init;
      }
    }
  }

  /** Filtering twice selects by both conditions. */
  lemma {:induction false} FilterFilter(ts: seq<Transaction>, p: Transaction -> bool, q: Transaction -> bool, pq: Transaction -> bool)
    requires forall t :: pq(t) == (p(t) && q(t))
    ensures Filter(Filter(ts, p), q) == Filter(ts, pq)
    decreases |ts|
  {
    if |ts| > 0 {
      var init := Filter(ts[..|ts| - 1], p);
      FilterFilter(ts[..|ts| - 1], p, q, pq);
      if p(ts[|ts| - 1]) {
        assert (init + [ts[|ts| - 1]])[..|init|] == init;
      }
    }
  }

  /* ---------------- distinct values in first-seen order ---------------- */

  /** The position of the first occurrence of `x` in `s`. */
  function FirstIndex(s: seq<string>, x: string): (i: nat)
    requires x in s
    ensures i < |s| && s[i] == x
    ensures forall j :: 0 <= j < i ==> s[j] != x
  {
    if s[0] == x then 0 else 1 + FirstIndex(s[1..], x)
  }

  /** `r` is `s` with some elements left out, the rest in their order. */
  predicate Subsequence(r: seq<string>, s: seq<string>)
    decreases |s|
  {
    if |r| == 0 then true
    else if |s| == 0 then false
    else if r[0] == s[0] then Subsequence(r[1..], s[1..])
    else Subsequence(r, s[1..])
  }

  /** Skipping the first element of `s` keeps a subsequence a subsequence. */
  lemma {:induction false} SubsequenceOfTail(r: seq<string>, s: seq<string>)
    requires |s| > 0 && Subsequence(r, s[1..])
    ensures Subsequence(r, s)
    decreases |s|, 1
  {
    if |r| > 0 && r[0] == s[0] {
      SubsequenceDropFirst(r, s[1..]);
    }
  }

  /** Dropping the first element of a subsequence keeps it a subsequence. */
  lemma {:induction false} SubsequenceDropFirst(r: seq<string>, s: seq<string>)
    requires |r| > 0 && Subsequence(r, s)
    ensures Subsequence(r[1..], s)
    decreases |s|, 2
  {
    if r[0] != s[0] {
      SubsequenceDropFirst(r, s[1..]);
    }
    SubsequenceOfTail(r[1..], s);
  }

  predicate Distinct(s: seq<string>) {
    forall i, j :: 0 <= i < j < |s| ==> s[i] != s[j]
  }

  /** `Array.from(new Set(s))`: each value once, at its first occurrence. */
  function Dedup(s: seq<string>): (r: seq<string>)
    ensures forall x :: x in r <==> x in s
    ensures Distinct(r)
    ensures forall i, j :: 0 <= i < j < |r| ==> FirstIndex(s, r[i]) < FirstIndex(s, r[j])
    decreases |s|
  {
    if |s| == 0 then []
    else
      var init := s[..|s| - 1];
      var d := Dedup(init);
      var x := s[|s| - 1];
      assert s == init + [x];
      FirstIndexOfPrefix(init, x);
      if x in d then d
      else
        assert forall y :: y in d ==> FirstIndex(s, y) < |init|;
        d + [x]
  }

  /** Appending a value adds it at the end unless it was already seen. */
  lemma DedupSnoc(s: seq<string>, x: string)
    ensures Dedup(s + [x]) == if x in Dedup(s) then Dedup(s) else Dedup(s) + [x]
  {
    assert (s + [x])[..|s|] == s;
  }

  /** Appending leaves the first occurrences of earlier values in place. */
  lemma FirstIndexOfPrefix(init: seq<string>, x: string)
    ensures forall y :: y in init ==> FirstIndex(init + [x], y) == FirstIndex(init, y)
    ensures x !in init ==> FirstIndex(init + [x], x) == |init|
  {
    forall y | y in init
      ensures FirstIndex(init + [x], y) == FirstIndex(init, y)
    {
      var i := FirstIndex(init, y);
      var k := FirstIndex(init + [x], y);
      assert (init + [x])[i] == y;
    }
  }
}
