/** The activity history as a CSV file (src/services/audit/csv.ts), and a reader of RFC 4180 section 2 to read it back. */
module AuditCsv {
  import opened Common

  const COLUMNS: seq<string> := [
    "id", "created_at", "category", "action", "action_label", "outcome", "actor_id", "actor_email",
    "subject_id", "subject_email", "entity_type", "entity_id", "application_id", "application_reference",
    "request_id", "ip_address", "user_agent", "summary", "details", "payload_json"]

  const CRLF := "\r\n"

  predicate FormulaChar(c: char) {
    c == '=' || c == '+' || c == '-' || c == '@' || c == '\t' || c == '\r'
  }

  predicate NeedsQuotes(text: string) {
    exists i :: 0 <= i < |text| && (text[i] == '"' || text[i] == ',' || text[i] == '\r' || text[i] == '\n')
  }

  function DoubledQuotes(text: string): string {
    if text == "" then "" else (if text[0] == '"' then "\"\"" else [text[0]]) + DoubledQuotes(text[1..])
  }

  /** The text of a cell once nothing in it can be read as a formula. */
  function Neutralised(value: Option<string>): string {
    match value
    case None => ""
    case Some(text) => if text != "" && FormulaChar(text[0]) then "'" + text else text
  }

  function CsvCell(value: Option<string>): string {
    if value.None? then ""
    else
      var safe := Neutralised(value);
      if NeedsQuotes(safe) then "\"" + DoubledQuotes(safe) + "\"" else safe
  }

  function Join(parts: seq<string>, separator: string): string {
    if parts == [] then "" else if |parts| == 1 then parts[0] else parts[0] + separator + Join(parts[1..], separator)
  }

  type Row = seq<Option<string>>

  function Cells(row: Row): seq<string> { seq(|row|, i requires 0 <= i < |row| => CsvCell(row[i])) }

  function Texts(row: Row): seq<string> { seq(|row|, i requires 0 <= i < |row| => Neutralised(row[i])) }

  function Lines(rows: seq<Row>): seq<string> {
    seq(|rows|, i requires 0 <= i < |rows| => Join(Cells(rows[i]), ","))
  }

  function CsvFile(columns: seq<string>, rows: seq<Row>): string {
    Join([Join(columns, ",")] + Lines(rows), CRLF) + CRLF
  }

  function AuditCsv(rows: seq<Row>): string { CsvFile(COLUMNS, rows) }

  // ---- A reader of RFC 4180 section 2 ----

  /** At the start of a field, inside an unquoted one, inside quotes, or just after the closing quote. */
  datatype Mode = Start | Plain | Quoted | Closed

  type Records = seq<seq<string>>

  /** Reads `text` on from the middle of a file: `done` records, then the fields of `record`, then `cell`. */
  function Read(text: string, done: Records, record: seq<string>, cell: string, mode: Mode): Option<Records>
    decreases |text|
  {
    if text == "" then
      if mode == Quoted then None
      else if mode == Start && record == [] then Some(done)
      else Some(done + [record + [cell]])
    else if mode == Quoted then
      if text[0] != '"' then Read(text[1..], done, record, cell + [text[0]], Quoted)
      else if |text| >= 2 && text[1] == '"' then Read(text[2..], done, record, cell + ['"'], Quoted)
      else Read(text[1..], done, record, cell, Closed)
    else if text[0] == ',' then Read(text[1..], done, record + [cell], "", Start)
    else if CRLF <= text then Read(text[2..], done + [record + [cell]], [], "", Start)
    else if text[0] == '"' && mode == Start then Read(text[1..], done, record, cell, Quoted)
    else if mode == Closed || text[0] == '"' || text[0] == '\r' || text[0] == '\n' then None
    else Read(text[1..], done, record, cell + [text[0]], Plain)
  }

  function Parsed(file: string): Option<Records> { Read(file, [], [], "", Start) }

  /** What the reader has once `cell` is complete and `rest` begins with a comma or a line break. */
  predicate EndsCell(rest: string) { "," <= rest || CRLF <= rest }

  function AfterCell(rest: string, done: Records, record: seq<string>, cell: string): Option<Records>
    requires EndsCell(rest)
  {
    if "," <= rest then Read(rest[1..], done, record + [cell], "", Start)
    else Read(rest[2..], done + [record + [cell]], [], "", Start)
  }

  lemma {:induction false} ReadsPlain(text: string, rest: string, done: Records, record: seq<string>, cell: string, mode: Mode)
    requires !NeedsQuotes(text) && EndsCell(rest) && (mode == Start || mode == Plain)
    ensures Read(text + rest, done, record, cell, mode) == AfterCell(rest, done, record, cell + text)
    decreases |text|
  {
    if text == "" {
      assert text + rest == rest && cell + text == cell;
    } else {
      assert (text + rest)[1..] == text[1..] + rest;
      assert cell + text == cell + [text[0]] + text[1..];
      assert !NeedsQuotes(text[1..]) by {
        assert forall i :: 0 <= i < |text[1..]| ==> text[1..][i] == text[i + 1];
      }
      ReadsPlain(text[1..], rest, done, record, cell + [text[0]], Plain);
    }
  }

  lemma {:induction false} ReadsQuoted(text: string, rest: string, done: Records, record: seq<string>, cell: string)
    requires EndsCell(rest)
    ensures Read(DoubledQuotes(text) + "\"" + rest, done, record, cell, Quoted) == AfterCell(rest, done, record, cell + text)
    decreases |text|
  {
    var all := DoubledQuotes(text) + "\"" + rest;
    if text == "" {
      assert all[1..] == rest && cell + text == cell;
    } else {
      var tail := DoubledQuotes(text[1..]) + "\"" + rest;
      assert if text[0] == '"' then all[..2] == "\"\"" && all[2..] == tail else all[0] == text[0] && all[1..] == tail;
      assert cell + text == cell + [text[0]] + text[1..];
      ReadsQuoted(text[1..], rest, done, record, cell + [text[0]]);
    }
  }

  lemma ReadsCell(value: Option<string>, rest: string, done: Records, record: seq<string>)
    requires EndsCell(rest)
    ensures Read(CsvCell(value) + rest, done, record, "", Start) == AfterCell(rest, done, record, Neutralised(value))
  {
    var safe := Neutralised(value);
    assert "" + safe == safe;
    if value.Some? && NeedsQuotes(safe) {
      var all := CsvCell(value) + rest;
      assert all[0] == '"' && all[1..] == DoubledQuotes(safe) + "\"" + rest;
      ReadsQuoted(safe, rest, done, record, "");
    } else {
      ReadsPlain(safe, rest, done, record, "", Start);
    }
  }

  lemma JoinMore(parts: seq<string>, separator: string, tail: string)
    requires |parts| > 1
    ensures Join(parts, separator) + tail == parts[0] + (separator + (Join(parts[1..], separator) + tail))
  {
  }

  lemma AfterComma(tail: string, done: Records, record: seq<string>, cell: string)
    ensures EndsCell("," + tail)
    ensures AfterCell("," + tail, done, record, cell) == Read(tail, done, record + [cell], "", Start)
  {
    assert ("," + tail)[1..] == tail;
  }

  lemma AfterBreak(tail: string, done: Records, record: seq<string>, cell: string)
    ensures EndsCell(CRLF + tail)
    ensures AfterCell(CRLF + tail, done, record, cell) == Read(tail, done + [record + [cell]], [], "", Start)
  {
    assert (CRLF + tail)[2..] == tail;
  }

  lemma {:induction false} ReadsRow(row: Row, rest: string, done: Records, record: seq<string>)
    requires row != []
    ensures Read(Join(Cells(row), ",") + (CRLF + rest), done, record, "", Start)
         == Read(rest, done + [record + Texts(row)], [], "", Start)
    decreases |row|
  {
    var text := Neutralised(row[0]);
    if |row| == 1 {
      assert Texts(row) == [text];
      AfterBreak(rest, done, record, text);
      ReadsCell(row[0], CRLF + rest, done, record);
    } else {
      var more := row[1..];
      assert Cells(row)[1..] == Cells(more);
      assert record + Texts(row) == record + [text] + Texts(more);
      var tail := Join(Cells(more), ",") + (CRLF + rest);
      JoinMore(Cells(row), ",", CRLF + rest);
      AfterComma(tail, done, record, text);
      ReadsCell(row[0], "," + tail, done, record);
      ReadsRow(more, rest, done, record + [text]);
    }
  }

  function AllTexts(rows: seq<Row>): Records { seq(|rows|, i requires 0 <= i < |rows| => Texts(rows[i])) }

  ghost predicate NoEmptyRow(rows: seq<Row>) { forall i :: 0 <= i < |rows| ==> rows[i] != [] }

  lemma {:induction false} ReadsRows(rows: seq<Row>, done: Records)
    requires rows != [] && NoEmptyRow(rows)
    ensures Read(Join(Lines(rows), CRLF) + CRLF, done, [], "", Start) == Some(done + AllTexts(rows))
    decreases |rows|
  {
    var texts := Texts(rows[0]);
    assert [] + texts == texts;
    if |rows| == 1 {
      assert CRLF + "" == CRLF && AllTexts(rows) == [texts];
      ReadsRow(rows[0], "", done, []);
    } else {
      var more := rows[1..];
      assert Lines(rows)[1..] == Lines(more);
      assert done + AllTexts(rows) == done + [texts] + AllTexts(more);
      JoinMore(Lines(rows), CRLF, CRLF);
      ReadsRow(rows[0], Join(Lines(more), CRLF) + CRLF, done, []);
      ReadsRows(more, done + [texts]);
    }
  }

  // ---- The header ----

  /** Nothing in it is quoted, doubled or neutralised. */
  predicate PlainName(name: string) {
    name != "" && forall i :: 0 <= i < |name| ==> 'a' <= name[i] <= 'z' || name[i] == '_'
  }

  function Present(names: seq<string>): Row { seq(|names|, i requires 0 <= i < |names| => Some(names[i])) }

  lemma PlainNamesAreThemselves(names: seq<string>)
    requires forall i :: 0 <= i < |names| ==> PlainName(names[i])
    ensures Cells(Present(names)) == names && Texts(Present(names)) == names
  {
  }

  // Spelled out name by name, so that each is checked on its own.
  lemma PlainColumns1()
    ensures PlainName("id") && PlainName("created_at") && PlainName("category") && PlainName("action") && PlainName("action_label")
  {
  }

  lemma PlainColumns2()
    ensures PlainName("outcome") && PlainName("actor_id") && PlainName("actor_email") && PlainName("subject_id") && PlainName("subject_email")
  {
  }

  lemma PlainColumns3()
    ensures PlainName("entity_type") && PlainName("entity_id") && PlainName("application_id") && PlainName("application_reference") && PlainName("request_id")
  {
  }

  lemma PlainColumns4()
    ensures PlainName("ip_address") && PlainName("user_agent") && PlainName("summary") && PlainName("details") && PlainName("payload_json")
  {
  }

  lemma ColumnsArePlain()
    ensures forall i :: 0 <= i < |COLUMNS| ==> PlainName(COLUMNS[i])
  {
    PlainColumns1();
    PlainColumns2();
    PlainColumns3();
    PlainColumns4();
  }

  lemma FileReadsBack(columns: seq<string>, rows: seq<Row>)
    requires columns != [] && forall i :: 0 <= i < |columns| ==> PlainName(columns[i])
    requires NoEmptyRow(rows)
    ensures Parsed(CsvFile(columns, rows)) == Some([columns] + AllTexts(rows))
  {
    var all := [Present(columns)] + rows;
    PlainNamesAreThemselves(columns);
    assert Lines(all) == [Join(columns, ",")] + Lines(rows);
    ReadsRows(all, []);
    assert [] + AllTexts(all) == [columns] + AllTexts(rows);
  }

  /**
   * Reading the whole export gives back the header and one record per row, each field exactly
   * its neutralised text, whatever quotes, commas and line breaks the cells hold.
   */
  lemma ExportReadsBack(rows: seq<Row>)
    requires NoEmptyRow(rows)
    ensures Parsed(AuditCsv(rows)) == Some([COLUMNS] + AllTexts(rows))
  {
    ColumnsArePlain();
    FileReadsBack(COLUMNS, rows);
  }

  /** What a cell of the history reads back as: itself, unless it begins like a formula, and then an apostrophe and itself. */
  predicate ReadsAs(cell: Option<string>, field: string) {
    if cell.None? || cell.value == "" then field == ""
    else if cell.value[0] in {'=', '+', '-', '@', '\t', '\r'} then field == "'" + cell.value
    else field == cell.value
  }

  lemma CellReadsBack(cell: Option<string>)
    ensures ReadsAs(cell, Neutralised(cell))
  {
  }

  predicate RowReadsAs(row: Row, record: seq<string>) {
    |record| == |row| && forall c :: 0 <= c < |row| ==> ReadsAs(row[c], record[c])
  }

  lemma RowReadsBack(row: Row)
    ensures RowReadsAs(row, Texts(row))
  {
    forall c | 0 <= c < |row| ensures ReadsAs(row[c], Texts(row)[c]) {
      CellReadsBack(row[c]);
    }
  }

  predicate RowsReadAs(rows: seq<Row>, records: Records) {
    |records| == |rows| && forall r :: 0 <= r < |rows| ==> RowReadsAs(rows[r], records[r])
  }

  /** Below the header every field reads back as its cell, row by row and place by place. */
  lemma EveryCellReadsBack(rows: seq<Row>)
    requires NoEmptyRow(rows)
    ensures var file := Parsed(AuditCsv(rows));
      file.Some? && |file.value| > 0 && file.value[0] == COLUMNS && RowsReadAs(rows, file.value[1..])
  {
    ExportReadsBack(rows);
    RowsReadBack(rows, AllTexts(rows));
    assert ([COLUMNS] + AllTexts(rows))[1..] == AllTexts(rows);
  }

  lemma RowsReadBack(rows: seq<Row>, texts: Records)
    requires texts == AllTexts(rows)
    ensures RowsReadAs(rows, texts)
  {
    forall r | 0 <= r < |rows| ensures RowReadsAs(rows[r], texts[r]) {
      RowReadsBack(rows[r]);
    }
  }

  /** A field is quoted exactly where it must be: where it holds a quote, a comma or a line break. */
  lemma QuotedOnlyWhereItMustBe(cell: Option<string>)
    ensures CsvCell(cell) == Neutralised(cell) <==> forall c :: c in Neutralised(cell) ==> c !in {'"', ',', '\r', '\n'}
  {
    var text := Neutralised(cell);
    assert forall i :: 0 <= i < |text| ==> text[i] in text;
    if c :| c in text && c in {'"', ',', '\r', '\n'} {
      var i :| 0 <= i < |text| && text[i] == c;
      assert NeedsQuotes(text);
    }
    if NeedsQuotes(text) {
      LongerWhenDoubled(text);
      assert |CsvCell(cell)| > |text|;
    }
  }

  lemma {:induction false} LongerWhenDoubled(text: string)
    ensures |DoubledQuotes(text)| >= |text|
  {
    if text != "" {
      LongerWhenDoubled(text[1..]);
    }
  }

  /** No field of any record after the header begins with a character a spreadsheet takes for a formula. */
  lemma NoFieldIsAFormula(columns: seq<string>, rows: seq<Row>, file: Records, r: nat, c: nat)
    requires columns != [] && forall i :: 0 <= i < |columns| ==> PlainName(columns[i])
    requires NoEmptyRow(rows)
    requires Parsed(CsvFile(columns, rows)) == Some(file) && 1 <= r < |file| && c < |file[r]|
    ensures file[r][c] == "" || !FormulaChar(file[r][c][0])
  {
    FileReadsBack(columns, rows);
    assert file[r][c] == Neutralised(rows[r - 1][c]);
  }
}
