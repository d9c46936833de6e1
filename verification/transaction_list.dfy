/** The transaction table: category and type filters, the optional sort by
    amount or date, and pagination. */
module TransactionList {
  import opened Calendar
  import opened Ledger
  import opened StableSort

  /** The table's controls. An empty filter or sort field means "none". */
  datatype Controls = Controls(filterCategory: string, filterType: string, sortField: string, page: int, rowsPerPage: int)

  /** The initial controls: no filter, no sort, first page, ten rows. */
  const InitialControls: Controls := Controls("", "", "", 0, 10)

  /** `categoryMatch && typeMatch`, an empty filter matching everything. */
  function MatchesFilters(category: string, kind: string): Transaction -> bool {
    (t: Transaction) => (category == "" || t.category == category) && (kind == "" || t.kind == kind)
  }

  /** The comparator as a key: by amount, by date, or a comparator that
      always answers 0 for any other field. */
  function SortKey(field: string): Transaction -> int {
    if field == "amount" then (t: Transaction) => t.amount
    else if field == "date" then (t: Transaction) => DayNumber(t.date)
    else (t: Transaction) => 0
  }

  /** `filteredTransactions`: the matching transactions, stably sorted. */
  function Visible(ts: seq<Transaction>, c: Controls): (r: seq<Transaction>)
    ensures forall t :: t in r <==> t in ts && MatchesFilters(c.filterCategory, c.filterType)(t)
    ensures multiset(r) == multiset(Filter(ts, MatchesFilters(c.filterCategory, c.filterType)))
    ensures SortedBy(r, SortKey(c.sortField))
    ensures forall v ::
      WithKey(r, SortKey(c.sortField), v) == WithKey(Filter(ts, MatchesFilters(c.filterCategory, c.filterType)), SortKey(c.sortField), v)
  {
    var matching := Filter(ts, MatchesFilters(c.filterCategory, c.filterType));
    var r := Sort(matching, SortKey(c.sortField));
    assert forall t :: t in r <==> t in multiset(matching);
    r
  }

  /** Without a known sort field the filtered list keeps the store's order,
      and with no filter either, the table shows the store as it is. */
  lemma UnsortedKeepsOrder(ts: seq<Transaction>, c: Controls)
    requires c.sortField != "amount" && c.sortField != "date"
    ensures Visible(ts, c) == Filter(ts, MatchesFilters(c.filterCategory, c.filterType))
    ensures c.filterCategory == "" && c.filterType == "" ==> Visible(ts, c) == ts
  {
    var matching := Filter(ts, MatchesFilters(c.filterCategory, c.filterType));
    SortOfSorted(matching, SortKey(c.sortField));
  }

  /* ---------------- pagination ---------------- */

  /** `Array.prototype.slice(start, end)`: negative positions count from the
      end, positions are clamped to the list, and an empty range is empty. */
  function Slice(s: seq<Transaction>, start: int, end: int): (r: seq<Transaction>)
    ensures 0 <= start <= end ==> r == s[Clamp(start, |s|)..Clamp(end, |s|)]
    ensures |r| <= |s|
    ensures forall t :: t in r ==> t in s
  {
    var from := if start < 0 then Clamp(|s| + start, |s|) else Clamp(start, |s|);
    var to := if end < 0 then Clamp(|s| + end, |s|) else Clamp(end, |s|);
    if from < to then s[from..to] else []
  }

  /** `n` clamped into `0..len`. */
  function Clamp(n: int, len: nat): (r: nat)
    ensures r <= len
    ensures 0 <= n <= len ==> r == n
  {
    if n < 0 then 0 else if n > len then len else n
  }

  /** `paginatedTransactions`: rows `page * rowsPerPage` up to, not
      including, `(page + 1) * rowsPerPage`. */
  function Paginate(s: seq<Transaction>, page: int, rowsPerPage: int): (r: seq<Transaction>)
    ensures |r| <= |s|
    ensures page >= 0 && rowsPerPage > 0 ==> |r| <= rowsPerPage
    ensures forall t :: t in r ==> t in s
  {
    var start := page * rowsPerPage;
    assert page >= 0 && rowsPerPage > 0 ==> start >= 0;
    Slice(s, start, start + rowsPerPage)
  }

  /** A page of a non-negative index is the window of at most
      `rowsPerPage` rows starting at `page * rowsPerPage`. */
  lemma PageWindow(s: seq<Transaction>, page: int, rowsPerPage: int)
    requires page >= 0 && rowsPerPage > 0
    ensures page * rowsPerPage >= 0
    ensures Paginate(s, page, rowsPerPage) == s[Clamp(page * rowsPerPage, |s|)..Clamp(page * rowsPerPage + rowsPerPage, |s|)]
    ensures |Paginate(s, page, rowsPerPage)| <= rowsPerPage
  {
    assert page * rowsPerPage >= 0;
  }

  /** Pages cover the list: with a positive page size, row `i` is on page
      `i / rowsPerPage` at position `i % rowsPerPage`. */
  lemma PagesCoverList(s: seq<Transaction>, rowsPerPage: int, i: int)
    requires rowsPerPage > 0 && 0 <= i < |s|
    ensures i % rowsPerPage < |Paginate(s, i / rowsPerPage, rowsPerPage)|
    ensures Paginate(s, i / rowsPerPage, rowsPerPage)[i % rowsPerPage] == s[i]
  {
    var p := i / rowsPerPage;
    var start := p * rowsPerPage;
    assert i == start + i % rowsPerPage;
    PageWindow(s, p, rowsPerPage);
    assert Clamp(start, |s|) == start;
  }

  /** `handleChangePage`. */
  function ChangePage(c: Controls, newPage: int): (r: Controls)
    ensures r.page == newPage
    ensures r.(page := c.page) == c
  {
    c.(page := newPage)
  }

  /** `handleChangeRowsPerPage`: the new page size, back on the first page,
      which then shows the first rows of the list. */
  function ChangeRowsPerPage(c: Controls, rowsPerPage: int): (r: Controls)
    ensures r.rowsPerPage == rowsPerPage && r.page == 0
    ensures r.(page := c.page, rowsPerPage := c.rowsPerPage) == c
    ensures forall s: seq<Transaction> :: rowsPerPage > 0 ==>
      Paginate(s, r.page, r.rowsPerPage) == s[..Clamp(rowsPerPage, |s|)]
  {
    c.(rowsPerPage := rowsPerPage, page := 0)
  }

  /** Every row on the current page is a stored transaction that passes the filters. */
  lemma ShownRowsAreVisibleRows(ts: seq<Transaction>, c: Controls)
    ensures forall t :: t in Paginate(Visible(ts, c), c.page, c.rowsPerPage) ==>
      t in ts && MatchesFilters(c.filterCategory, c.filterType)(t)
  {
    var v := Visible(ts, c);
    assert forall t :: t in Paginate(v, c.page, c.rowsPerPage) ==> t in v;
  }

  /** When the table opens it shows the store unfiltered and in store
      order, and its first page is the first ten stored transactions. */
  lemma InitialTableShowsStore(ts: seq<Transaction>)
    ensures Visible(ts, InitialControls) == ts
    ensures Paginate(Visible(ts, InitialControls), InitialControls.page, InitialControls.rowsPerPage) == ts[..Clamp(10, |ts|)]
  {
    UnsortedKeepsOrder(ts, InitialControls);
    PageWindow(ts, 0, 10);
  }
}
