/** The dashboard's financial summary: total income, total expense, the
    balance with its colour and negative-balance warning, and the
    transaction export. */
module Dashboard {
  import opened Wrappers
  import opened Text
  import opened Calendar
  import opened Values
  import opened Ledger
  import opened ExportButton

  datatype Color = Red | Green | Blue

  datatype Summary = Summary(totalIncome: int, totalExpense: int, balance: int, balanceColor: Color, negativeWarning: bool)

  /** The totals: each kind filtered out and its amounts added up; the
      balance is their difference, red below zero, green above, blue at
      zero, and the warning is shown exactly when it is negative. */
  function Summarize(ts: seq<Transaction>): (s: Summary)
    ensures s.totalIncome == SumWhere(ts, OfKind("income"))
    ensures s.totalExpense == SumWhere(ts, OfKind("expense"))
    ensures s.balance + s.totalExpense == s.totalIncome
    ensures s.negativeWarning <==> s.totalIncome < s.totalExpense
    ensures s.balanceColor == Red <==> s.balance < 0
    ensures s.balanceColor == Green <==> s.balance > 0
    ensures s.balanceColor == Blue <==> s.balance == 0
  {
    TotalOfFilter(ts, OfKind("income"));
    TotalOfFilter(ts, OfKind("expense"));
    var income := Total(Filter(ts, OfKind("income")));
    var expense := Total(Filter(ts, OfKind("expense")));
    var balance := income - expense;
    Summary(income, expense, balance,
            if balance < 0 then Red else if balance > 0 then Green else Blue,
            balance < 0)
  }

  /** Adding a transaction moves exactly one total by its amount (none,
      for a transaction of another type). */
  lemma {:induction false} SummarizeAppend(ts: seq<Transaction>, t: Transaction)
    ensures Summarize(ts + [t]).totalIncome == Summarize(ts).totalIncome + (if t.kind == "income" then t.amount else 0)
    ensures Summarize(ts + [t]).totalExpense == Summarize(ts).totalExpense + (if t.kind == "expense" then t.amount else 0)
  {
    var s := ts + [t];
    assert s[..|s| - 1] == ts;
  }

  /** With no transactions everything is zero, blue, and no warning. */
  lemma EmptySummary()
    ensures Summarize([]) == Summary(0, 0, 0, Blue, false)
  {
  }

  /* ---------------- export ---------------- */

  const TransactionHeaders: seq<string> := ["id", "description", "amount", "type", "category", "date"]

  /** A transaction as the record the export reads; the date is held as
      its `YYYY-MM-DD` text. */
  function TransactionRecord(t: Transaction): Record {
    RecordWithDate(t, IsoString(t.date))
  }

  function RecordWithDate(t: Transaction, date: string): Record {
    map["id" := Num(t.id), "description" := Str(t.description), "amount" := Num(t.amount),
        "type" := Str(t.kind), "category" := Str(t.category), "date" := Str(date)]
  }

  function TransactionRecords(ts: seq<Transaction>): (rs: seq<Record>)
    ensures |rs| == |ts|
    ensures forall i :: 0 <= i < |ts| ==> rs[i] == TransactionRecord(ts[i])
  {
    seq(|ts|, i requires 0 <= i < |ts| => TransactionRecord(ts[i]))
  }

  /** The "Export Transactions" button's file. */
  function ExportTransactions(ts: seq<Transaction>): (r: Option<string>)
    ensures r.Some? <==> |ts| > 0
    ensures r.Some? ==> StartsWith(r.value, Join(TransactionHeaders, ","))
  {
    ConvertToCsv(Some(TransactionRecords(ts)), TransactionHeaders)
  }

  /** The fields one transaction is written as, in header order: a zero id
      or amount is falsy and is written as an empty field. */
  lemma TransactionFields(t: Transaction)
    ensures Fields(TransactionRecord(t), TransactionHeaders) ==
      [if t.id == 0 then "" else IntToString(t.id), t.description,
       if t.amount == 0 then "" else IntToString(t.amount),
       t.kind, t.category, IsoString(t.date)]
  {
    var date := IsoString(t.date);
    assert |date| > 0;
    FieldsWithDate(t, date);
  }

  lemma FieldsWithDate(t: Transaction, date: string)
    requires date != ""
    ensures Fields(RecordWithDate(t, date), TransactionHeaders) ==
      [if t.id == 0 then "" else IntToString(t.id), t.description,
       if t.amount == 0 then "" else IntToString(t.amount),
       t.kind, t.category, date]
  {
    var item := RecordWithDate(t, date);
    RecordLookups(t, date);
    var row := Fields(item, TransactionHeaders);
    assert row[0] == (if t.id == 0 then "" else IntToString(t.id)) by {
      assert row[0] == FieldText(item, "id");
    }
    assert row[1] == t.description by {
      assert row[1] == FieldText(item, "description");
    }
    assert row[2] == (if t.amount == 0 then "" else IntToString(t.amount)) by {
      assert row[2] == FieldText(item, "amount");
    }
    assert row[3] == t.kind by {
      assert row[3] == FieldText(item, "type");
    }
    assert row[4] == t.category by {
      assert row[4] == FieldText(item, "category");
    }
    assert row[5] == date by {
      assert row[5] == FieldText(item, "date");
    }
  }

  /** The six keys of a transaction's record hold its six fields. */
  lemma RecordLookups(t: Transaction, date: string)
    ensures var item := RecordWithDate(t, date);
      && "id" in item && item["id"] == Num(t.id)
      && "description" in item && item["description"] == Str(t.description)
      && "amount" in item && item["amount"] == Num(t.amount)
      && "type" in item && item["type"] == Str(t.kind)
      && "category" in item && item["category"] == Str(t.category)
      && "date" in item && item["date"] == Str(date)
  {
    assert "description"[0] == 'd' && "amount"[0] == 'a' && "type"[0] == 't' && "category"[0] == 'c' && "date"[1] == 'a' && "id"[0] == 'i';
    assert "id" != "description" && "id" != "amount" && "id" != "type" && "id" != "category" && "id" != "date";
    assert "description" != "amount" && "description" != "type" && "description" != "category" && "description" != "date";
    assert "amount" != "type" && "amount" != "category" && "amount" != "date";
    assert "type" != "category" && "type" != "date" && "category" != "date";
  }

  /** The export has a file exactly when there are transactions; it starts
      with the header line, and its record lines read back as one row per
      transaction holding the id, description, amount, type, category and
      date, where a zero id or amount is written as an empty field. */
  lemma ExportTransactionsRows(ts: seq<Transaction>)
    ensures ExportTransactions(ts).Some? <==> |ts| > 0
    ensures |ts| > 0 ==>
      && ExportTransactions(ts) == Some(Join(TransactionHeaders, ",") + "\n" + Body(TransactionRecords(ts), TransactionHeaders))
      && ReadRows(Body(TransactionRecords(ts), TransactionHeaders)) == Some(Table(TransactionRecords(ts), TransactionHeaders))
      && forall i :: 0 <= i < |ts| ==>
           Table(TransactionRecords(ts), TransactionHeaders)[i] ==
             [if ts[i].id == 0 then "" else IntToString(ts[i].id),
              ts[i].description,
              if ts[i].amount == 0 then "" else IntToString(ts[i].amount),
              ts[i].kind, ts[i].category, IsoString(ts[i].date)]
  {
    if |ts| > 0 {
      var records := TransactionRecords(ts);
      CsvRoundTrip(records, TransactionHeaders);
      forall i | 0 <= i < |ts|
        ensures Table(records, TransactionHeaders)[i] ==
             [if ts[i].id == 0 then "" else IntToString(ts[i].id),
              ts[i].description,
              if ts[i].amount == 0 then "" else IntToString(ts[i].amount),
              ts[i].kind, ts[i].category, IsoString(ts[i].date)]
      {
        TransactionFields(ts[i]);
      }
    }
  }
}
