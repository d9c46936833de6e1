/** The transaction form: keyword classification of a description, the
    form's initial fields, and submission (validation, id choice, and the
    choice between adding and updating). The store calls are returned as
    data rather than performed. */
module TransactionForm {
  import opened Wrappers
  import opened Text
  import opened Calendar
  import opened Values
  import opened Ledger

  /* ---------------- classification ---------------- */

  /** `categoryKeywords`: each category with its keywords, in declaration
      order (the order `Object.entries` visits them in). */
  type KeywordTable = seq<(string, seq<string>)>

  const OtherExpenses: string := "Other Expenses"

  /** `desc.toLowerCase().includes(keyword.toLowerCase())`. */
  predicate KeywordMatches(desc: string, keyword: string) {
    Contains(Lower(desc), Lower(keyword))
  }

  /** `keywords.some(...)`: some keyword of the category matches. */
  predicate CategoryMatches(desc: string, keywords: seq<string>) {
    exists j :: 0 <= j < |keywords| && KeywordMatches(desc, keywords[j])
  }

  /** `assignCategory`: the first category, in declaration order, one of
      whose keywords occurs in the description ignoring case, or
      "Other Expenses" when none does. */
  function AssignCategory(table: KeywordTable, desc: string): (r: string)
    ensures (exists i :: 0 <= i < |table| && CategoryMatches(desc, table[i].1)) ==>
      exists i :: 0 <= i < |table| && r == table[i].0 && CategoryMatches(desc, table[i].1)
        && forall j :: 0 <= j < i ==> !CategoryMatches(desc, table[j].1)
    ensures (forall i :: 0 <= i < |table| ==> !CategoryMatches(desc, table[i].1)) ==> r == OtherExpenses
    decreases |table|
  {
    if |table| == 0 then OtherExpenses
    else if CategoryMatches(desc, table[0].1) then table[0].0
    else
      var r := AssignCategory(table[1..], desc);
      assert forall i :: 1 <= i < |table| ==> table[1..][i - 1] == table[i];
      r
  }

  /** The classifier's answer is always a declared category or the fallback. */
  lemma AssignCategoryIsKnown(table: KeywordTable, desc: string)
    ensures AssignCategory(table, desc) == OtherExpenses
      || exists i :: 0 <= i < |table| && AssignCategory(table, desc) == table[i].0
  {
  }

  /** With no empty keyword, an empty description matches nothing and is
      classified "Other Expenses". */
  lemma EmptyDescriptionIsOther(table: KeywordTable)
    requires forall i, j :: 0 <= i < |table| && 0 <= j < |table[i].1| ==> table[i].1[j] != ""
    ensures AssignCategory(table, "") == OtherExpenses
  {
    forall i, j | 0 <= i < |table| && 0 <= j < |table[i].1|
      ensures !KeywordMatches("", table[i].1[j])
    {
      EmptyContains("", Lower(table[i].1[j]));
    }
  }

  /* ---------------- the form ---------------- */

  /** The form's fields. The amount is the input's text when typed, or the
      stored number when loaded for editing; `date` is None once cleared. */
  datatype Form = Form(description: string, amount: Value, kind: string, category: string, date: Option<Date>)

  /** The fields once the form has mounted. Adding: empty fields, type
      `expense`, today's date, and the category the classifier gives the
      (still empty) description. Editing: the edited transaction's fields,
      its stored category kept. */
  function InitialForm(table: KeywordTable, toEdit: Option<Transaction>, today: Date): (f: Form)
    ensures toEdit.None? ==> f.category == AssignCategory(table, "") && f.description == "" && f.kind == "expense"
    ensures toEdit.Some? ==> f.category == toEdit.value.category && f.description == toEdit.value.description
  {
    match toEdit
    case None => Form("", Str(""), "expense", AssignCategory(table, ""), Some(today))
    case Some(t) => Form(t.description, Num(t.amount), t.kind, t.category, Some(t.date))
  }

  /** The leading run of decimal digits. */
  function LeadingDigits(s: string): (r: string)
    ensures |r| <= |s| && r == s[..|r|]
    ensures forall i :: 0 <= i < |r| ==> IsDigit(r[i])
    ensures |r| < |s| ==> !IsDigit(s[|r|])
    decreases |s|
  {
    if |s| > 0 && IsDigit(s[0]) then [s[0]] + LeadingDigits(s[1..]) else ""
  }

  /** `parseFloat` of the amount field: a number as it is, text by its
      leading (optionally signed) digits. */
  function ParseAmount(v: Value): int {
    match v
    case Num(n) => n
    case Str(s) =>
      if |s| > 0 && s[0] == '-' then -(DigitsValue(LeadingDigits(s[1..])) as int) else DigitsValue(LeadingDigits(s))
    case _ => 0
  }

  /** Typing the digits of a whole amount stores that amount. */
  lemma ParseTypedAmount(n: nat)
    ensures ParseAmount(Str(NatToString(n))) == n
  {
    var s := NatToString(n);
    assert LeadingDigits(s) == s;
    DigitsValueOfNatToString(n);
  }

  /** `!description || !amount || !type || !category || !date`. */
  predicate Incomplete(f: Form) {
    f.description == "" || Falsy(f.amount) || f.kind == "" || f.category == "" || f.date.None?
  }

  /** What submitting does to the store. */
  datatype Submission =
    | Rejected(message: string)
    | AddCall(added: Transaction)
    | UpdateCall(updated: Transaction)

  /** `handleSubmit`: refuses an incomplete form with no store call;
      otherwise builds the transaction from the fields, keeping the edited
      transaction's id (and calling update) or taking `now` as the id of a
      new one (and calling add). */
  function HandleSubmit(f: Form, toEdit: Option<Transaction>, now: int): (r: Submission)
    ensures r.Rejected? <==> Incomplete(f)
    ensures r.Rejected? ==> r.message == "All fields are required."
    ensures r.UpdateCall? <==> !Incomplete(f) && toEdit.Some?
    ensures r.AddCall? <==> !Incomplete(f) && toEdit.None?
    ensures r.UpdateCall? ==> r.updated.id == toEdit.value.id
    ensures r.AddCall? ==> r.added.id == now
    ensures !r.Rejected? ==>
      var t := if r.AddCall? then r.added else r.updated;
      && t.description == f.description && t.amount == ParseAmount(f.amount)
      && t.kind == f.kind && t.category == f.category && Some(t.date) == f.date
  {
    if Incomplete(f) then Rejected("All fields are required.")
    else
      var t := Transaction(
        if toEdit.Some? then toEdit.value.id else now,
        f.description, ParseAmount(f.amount), f.kind, f.category, f.date.value);
      if toEdit.Some? then UpdateCall(t) else AddCall(t)
  }

  /** Submitting an edit form left as loaded writes the transaction back
      unchanged, unless its stored amount is 0: a loaded `0` is falsy, so
      that form is refused. */
  lemma {:induction false} UnchangedEditRoundTrip(table: KeywordTable, t: Transaction, today: Date, now: int)
    requires t.description != "" && t.kind != "" && t.category != ""
    ensures t.amount != 0 ==> HandleSubmit(InitialForm(table, Some(t), today), Some(t), now) == UpdateCall(t)
    ensures t.amount == 0 ==> HandleSubmit(InitialForm(table, Some(t), today), Some(t), now).Rejected?
  {
    var f := InitialForm(table, Some(t), today);
    assert f == Form(t.description, Num(t.amount), t.kind, t.category, Some(t.date));
  }
}
