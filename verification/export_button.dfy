/** `convertArrayOfObjectsToCSV`: a header line of the field names joined by
    commas, then one line per record holding, for each header in order, the
    record's field text wrapped in double quotes with embedded quotes doubled.
    A reader for that quoting is given alongside, and the two are proved to
    round-trip. */
module ExportButton {
  import opened Wrappers
  import opened Text
  import opened Values

  /* ---------------- writing ---------------- */

  /** `.replace(/"/g, '""')`: every double quote doubled. */
  function Escape(s: string): string
    decreases |s|
  {
    if |s| == 0 then "" else (if s[0] == '"' then "\"\"" else [s[0]]) + Escape(s[1..])
  }

  /** A field as written: escaped and wrapped in double quotes. */
  function Quote(s: string): string {
    "\"" + Escape(s) + "\""
  }

  /** The quoted fields of one row, joined by commas. */
  function RowText(fields: seq<string>): string {
    Join(seq(|fields|, i requires 0 <= i < |fields| => Quote(fields[i])), ",")
  }

  /** The texts of one record's fields, in header order. */
  function Fields(item: Record, headers: seq<string>): (fs: seq<string>)
    ensures |fs| == |headers|
    ensures forall j :: 0 <= j < |headers| ==> fs[j] == FieldText(item, headers[j])
  {
    seq(|headers|, j requires 0 <= j < |headers| => FieldText(item, headers[j]))
  }

  /** The field texts of every record: row `i`, column `j` is record `i`'s
      text for header `j`. */
  function Table(data: seq<Record>, headers: seq<string>): (t: seq<seq<string>>)
    ensures |t| == |data|
    ensures forall i :: 0 <= i < |data| ==> t[i] == Fields(data[i], headers)
  {
    seq(|data|, i requires 0 <= i < |data| => Fields(data[i], headers))
  }

  function RowTexts(rows: seq<seq<string>>): (ts: seq<string>)
    ensures |ts| == |rows|
    ensures forall i :: 0 <= i < |rows| ==> ts[i] == RowText(rows[i])
  {
    seq(|rows|, i requires 0 <= i < |rows| => RowText(rows[i]))
  }

  /** The record lines of the export, joined by newlines. */
  function Body(data: seq<Record>, headers: seq<string>): string {
    Join(RowTexts(Table(data, headers)), "\n")
  }

  /** `convertArrayOfObjectsToCSV`: nothing (`null`) for missing or empty
      data, otherwise the header line and one line per record joined by
      newlines. */
  function ConvertToCsv(data: Option<seq<Record>>, headers: seq<string>): (r: Option<string>)
    ensures r.None? <==> data.None? || |data.value| == 0
    ensures r.Some? ==> StartsWith(r.value, Join(headers, ","))
  {
    if data.None? || |data.value| == 0 then None
    else
      var lines := [Join(headers, ",")] + RowTexts(Table(data.value, headers));
      assert lines[0] == Join(headers, ",");
      Some(Join(lines, "\n"))
  }

  /* ---------------- reading ---------------- */

  /** Reads the inside of a quoted field (the opening quote already
      consumed): `""` stands for one quote and a lone `"` closes the field.
      Returns the field's text and what follows the closing quote. */
  function ReadQuoted(s: string): (r: Option<(string, string)>)
    ensures r.Some? ==> |r.value.1| < |s|
    decreases |s|
  {
    if |s| == 0 then None
    else if s[0] == '"' then
      if |s| > 1 && s[1] == '"' then
        match ReadQuoted(s[2..])
        case None => None
        case Some(p) => Some(("\"" + p.0, p.1))
      else Some(("", s[1..]))
    else
      match ReadQuoted(s[1..])
      case None => None
      case Some(p) => Some(([s[0]] + p.0, p.1))
  }

  /** Reads one line of quoted fields separated by commas. Returns the
      fields and the text after the line's newline ("" at the end). */
  function ReadRow(s: string): (r: Option<(seq<string>, string)>)
    ensures r.Some? ==> |r.value.1| < |s|
    decreases |s|
  {
    if |s| == 0 || s[0] != '"' then None
    else
      match ReadQuoted(s[1..])
      case None => None
      case Some(p) =>
        var rest := p.1;
        if |rest| == 0 then Some(([p.0], ""))
        else if rest[0] == ',' then
          match ReadRow(rest[1..])
          case None => None
          case Some(q) => Some(([p.0] + q.0, q.1))
        else if rest[0] == '\n' then Some(([p.0], rest[1..]))
        else None
  }

  /** Reads every line of quoted fields. */
  function ReadRows(s: string): Option<seq<seq<string>>>
    decreases |s|
  {
    if |s| == 0 then Some([])
    else
      match ReadRow(s)
      case None => None
      case Some(p) =>
        match ReadRows(p.1)
        case None => None
        case Some(rows) => Some([p.0] + rows)
  }

  /* ---------------- round trip ---------------- */

  /** Undoubling the inside of a written field gives back the text, and the
      reader stops exactly at the closing quote. */
  lemma {:induction false} ReadEscaped(v: string, rest: string)
    requires |rest| == 0 || rest[0] != '"'
    ensures ReadQuoted(Escape(v) + "\"" + rest) == Some((v, rest))
    decreases |v|
  {
    var s := Escape(v) + "\"" + rest;
    if |v| == 0 {
      assert s == "\"" + rest;
    } else {
      ReadEscaped(v[1..], rest);
      var tail := Escape(v[1..]) + "\"" + rest;
      if v[0] == '"' {
        assert s == "\"\"" + tail;
        assert s[2..] == tail;
        assert v == "\"" + v[1..];
      } else {
        assert s == [v[0]] + tail;
        assert s[1..] == tail;
        assert v == [v[0]] + v[1..];
      }
    }
  }

  /** Reading a written field, followed by anything but a quote, gives back
      the field's text and stops after its closing quote. */
  lemma ReadWritten(v: string, tail: string)
    requires |tail| == 0 || tail[0] != '"'
    ensures |Quote(v) + tail| > 0 && (Quote(v) + tail)[0] == '"'
    ensures ReadQuoted((Quote(v) + tail)[1..]) == Some((v, tail))
  {
    var s := Quote(v) + tail;
    assert s[1..] == Escape(v) + "\"" + tail;
    ReadEscaped(v, tail);
  }

  /** A written field followed by the end of its line reads as a one-field line. */
  lemma ReadLastField(v: string, tail: string)
    requires |tail| == 0 || tail[0] == '\n'
    ensures ReadRow(Quote(v) + tail) == Some(([v], if |tail| == 0 then "" else tail[1..]))
  {
    ReadWritten(v, tail);
    ReadOneField(Quote(v) + tail, v, tail);
  }

  /** A line whose first quoted field ends the line reads as that field. */
  lemma ReadOneField(s: string, field: string, rest: string)
    requires |s| > 0 && s[0] == '"' && ReadQuoted(s[1..]) == Some((field, rest))
    requires |rest| == 0 || rest[0] == '\n'
    ensures ReadRow(s) == Some(([field], if |rest| == 0 then "" else rest[1..]))
  {
  }

  /** A written field followed by a comma reads as that field in front of
      the rest of the line. */
  lemma ReadFieldThenMore(v: string, more: string)
    requires ReadRow(more).Some?
    ensures ReadRow(Quote(v) + "," + more) == Some(([v] + ReadRow(more).value.0, ReadRow(more).value.1))
  {
    var s := Quote(v) + "," + more;
    var rest := "," + more;
    assert s[1..] == Escape(v) + "\"" + rest;
    ReadEscaped(v, rest);
    assert rest[1..] == more;
  }

  /** A written line reads back as its fields. */
  lemma {:induction false} ReadRowText(fields: seq<string>, tail: string)
    requires |fields| > 0
    requires |tail| == 0 || tail[0] == '\n'
    ensures ReadRow(RowText(fields) + tail) == Some((fields, if |tail| == 0 then "" else tail[1..]))
    decreases |fields|
  {
    var quoted := seq(|fields|, i requires 0 <= i < |fields| => Quote(fields[i]));
    if |fields| == 1 {
      assert RowText(fields) == Quote(fields[0]);
      ReadLastField(fields[0], tail);
      assert fields == [fields[0]];
    } else {
      var more := RowText(fields[1..]);
      assert quoted[1..] == seq(|fields[1..]|, i requires 0 <= i < |fields[1..]| => Quote(fields[1..][i]));
      assert RowText(fields) + tail == Quote(fields[0]) + "," + (more + tail);
      ReadRowText(fields[1..], tail);
      ReadFieldThenMore(fields[0], more + tail);
      assert fields == [fields[0]] + fields[1..];
    }
  }

  /** Written lines joined by newlines read back as the rows. */
  lemma {:induction false} ReadRowsText(rows: seq<seq<string>>)
    requires forall i :: 0 <= i < |rows| ==> |rows[i]| > 0
    ensures ReadRows(Join(RowTexts(rows), "\n")) == Some(rows)
    decreases |rows|
  {
    var texts := RowTexts(rows);
    if |rows| == 1 {
      ReadRowText(rows[0], "");
      assert RowText(rows[0]) + "" == RowText(rows[0]);
      assert Join(texts, "\n") == RowText(rows[0]);
      assert ReadRows("") == Some([]);
      assert rows == [rows[0]] + [];
    } else if |rows| > 1 {
      assert texts[1..] == RowTexts(rows[1..]);
      var more := Join(RowTexts(rows[1..]), "\n");
      assert Join(texts, "\n") == RowText(rows[0]) + ("\n" + more);
      ReadRowText(rows[0], "\n" + more);
      assert ("\n" + more)[1..] == more;
      ReadRowsText(rows[1..]);
      assert rows == [rows[0]] + rows[1..];
    }
  }

  /** The export of a non-empty list is the header line, a newline, and text
      that reads back as one row per record, in input order, each holding
      the record's field texts in header order. Hence the output has
      `|data| + 1` lines and every record line has `|headers|` fields. */
  lemma CsvRoundTrip(data: seq<Record>, headers: seq<string>)
    requires |data| > 0 && |headers| > 0
    ensures ConvertToCsv(Some(data), headers) == Some(Join(headers, ",") + "\n" + Body(data, headers))
    ensures ReadRows(Body(data, headers)) == Some(Table(data, headers))
  {
    var table := Table(data, headers);
    assert ConvertToCsv(Some(data), headers) == Some(Join(headers, ",") + "\n" + Body(data, headers)) by {
      JoinCons(Join(headers, ","), RowTexts(table), "\n");
    }
    assert ReadRows(Body(data, headers)) == Some(table) by {
      forall i | 0 <= i < |table| ensures |table[i]| > 0 {
        assert |table[i]| == |headers|;
      }
      ReadRowsText(table);
    }
  }

  /** A missing or falsy value (`0`, `""`, `false`, `null`) is written as
      the empty quoted field. */
  lemma FalsyFieldIsEmpty(item: Record, header: string)
    requires header !in item || Falsy(item[header])
    ensures Quote(FieldText(item, header)) == "\"\""
  {
  }
}
