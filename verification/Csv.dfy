/** CSV export of events, and a reader for the format of RFC 4180 section 2 to read it back with. */
module Csv {
  import opened Results
  import opened JavaScript

  const EOL := "\r\n"
  const MIN_TOPIC_COLUMNS := 4

  // ---------------------------------------------------------------- the reader

  /** Where the reader stands: at the start of a field, inside one, inside a quoted one, or after its closing quote. */
  datatype Mode = Start | Bare | Quoted | Closed

  type Records = Option<seq<seq<string>>>

  function Cons(record: seq<string>, rest: Records): Records {
    match rest case None => None case Some(records) => Some([record] + records)
  }

  predicate AtEol(text: string) { |text| >= 2 && text[..2] == EOL }

  /** Reads `text` on, with the fields of the record so far and the field at hand. */
  function Read(text: string, mode: Mode, field: string, record: seq<string>): Records
    decreases |text|
  {
    if mode == Quoted then
      if text == [] then None
      else if text[0] != '"' then Read(text[1..], Quoted, field + [text[0]], record)
      else if |text| >= 2 && text[1] == '"' then Read(text[2..], Quoted, field + "\"", record)
      else Read(text[1..], Closed, field, record)
    else if text == [] then
      if mode == Start && record == [] then Some([]) else Some([record + [field]])
    else if text[0] == ',' then Read(text[1..], Start, "", record + [field])
    else if AtEol(text) then Cons(record + [field], Read(text[2..], Start, "", []))
    else if mode == Start && text[0] == '"' then Read(text[1..], Quoted, "", record)
    else if mode == Closed || Special(text[0]) then None
    else Read(text[1..], Bare, field + [text[0]], record)
  }

  /** The records of a file; None when it is not CSV. */
  function Parse(text: string): Records { Read(text, Start, "", []) }

  // ---------------------------------------------------------------- cells

  predicate Special(c: char) { c == '"' || c == ',' || c == '\r' || c == '\n' }

  predicate NeedsQuotes(text: string) {
    exists i | 0 <= i < |text| :: Special(text[i])
  }

  function Doubled(text: string): string {
    if text == [] then [] else (if text[0] == '"' then "\"\"" else [text[0]]) + Doubled(text[1..])
  }

  function CsvCell(text: string, force: bool): string {
    if force || NeedsQuotes(text) then "\"" + Doubled(text) + "\"" else text
  }

  function GuardFormula(text: string): string {
    if text != [] && text[0] in "=+-@\t\r" then "'" + text else text
  }

  /** A decoded value: its text when it is a string, and its JSON text. */
  datatype Decoded = Decoded(kind: string, text: Option<string>, json: string)

  function ValueText(d: Decoded): string {
    if d.kind in {"symbol", "string", "address"} && d.text.Some? then GuardFormula(d.text.value) else d.json
  }

  function ValueCell(d: Decoded): string { CsvCell(ValueText(d), false) }

  /** What follows a field: a comma or the end of the record. */
  predicate Delimited(rest: string) { (rest != [] && rest[0] == ',') || AtEol(rest) }

  lemma {:induction false} BareRead(text: string, rest: string, field: string, record: seq<string>)
    requires !NeedsQuotes(text) && Delimited(rest)
    ensures Read(text + rest, Bare, field, record) == Read(rest, Closed, field + text, record)
    decreases |text|
  {
    if text == [] {
      assert text + rest == rest && field + text == field;
    } else {
      assert !Special(text[0]);
      assert (text + rest)[1..] == text[1..] + rest;
      assert field + text == (field + [text[0]]) + text[1..];
      assert forall i | 0 <= i < |text[1..]| :: text[1..][i] == text[i + 1];
      BareRead(text[1..], rest, field + [text[0]], record);
    }
  }

  lemma {:induction false} QuotedRead(text: string, rest: string, field: string, record: seq<string>)
    requires Delimited(rest)
    ensures Read(Doubled(text) + "\"" + rest, Quoted, field, record) == Read(rest, Closed, field + text, record)
    decreases |text|
  {
    var tail := "\"" + rest;
    if text == [] {
      assert Doubled(text) + "\"" + rest == tail && tail[1..] == rest && field + text == field;
    } else {
      var head := if text[0] == '"' then "\"\"" else [text[0]];
      var whole := Doubled(text) + "\"" + rest;
      assert whole == head + (Doubled(text[1..]) + "\"" + rest);
      assert whole[|head|..] == Doubled(text[1..]) + "\"" + rest;
      assert field + text == (field + [text[0]]) + text[1..];
      QuotedRead(text[1..], rest, field + [text[0]], record);
    }
  }

  /** The reader gives back the text of any cell, quoted by need or by force. */
  lemma CellRead(text: string, force: bool, rest: string, record: seq<string>)
    requires Delimited(rest)
    ensures Read(CsvCell(text, force) + rest, Start, "", record) == Read(rest, Closed, text, record)
  {
    var cell := CsvCell(text, force);
    if force || NeedsQuotes(text) {
      assert (cell + rest)[0] == '"' && (cell + rest)[1..] == Doubled(text) + "\"" + rest;
      QuotedRead(text, rest, "", record);
      assert "" + text == text;
    } else if text == [] {
      assert cell + rest == rest;
    } else {
      assert !Special(text[0]);
      assert (cell + rest)[1..] == text[1..] + rest;
      assert forall i | 0 <= i < |text[1..]| :: text[1..][i] == text[i + 1];
      assert "" + [text[0]] == [text[0]] && [text[0]] + text[1..] == text;
      BareRead(text[1..], rest, [text[0]], record);
    }
  }

  /** The guard against formulas merges two texts exactly when one is the other behind an apostrophe it was given. */
  lemma GuardMerges(a: string, b: string)
    requires a != b
    ensures GuardFormula(a) == GuardFormula(b) <==>
            (GuardFormula(a) != a && b == "'" + a) || (GuardFormula(b) != b && a == "'" + b)
  {
    assert ("'" + a)[1..] == a && ("'" + b)[1..] == b;
  }

  /** Two texts of which one cell is made, so a reader cannot tell them apart. */
  lemma GuardedTwins()
    ensures var plain, quoted := Decoded("string", Some("=1"), ""), Decoded("string", Some("'=1"), "");
            plain != quoted && ValueCell(plain) == ValueCell(quoted)
  {
    GuardMerges("=1", "'=1");
    assert "=1" != "'=1" by { assert |"=1"| != |"'=1"|; }
    assert "'" + "=1" == "'=1";
  }

  // ---------------------------------------------------------------- lines

  function Join(cells: seq<string>): string {
    if cells == [] then ""
    else if |cells| == 1 then cells[0]
    else cells[0] + "," + Join(cells[1..])
  }

  function Cells(texts: seq<string>): seq<string> {
    seq(|texts|, i requires 0 <= i < |texts| => CsvCell(texts[i], false))
  }

  function Line(texts: seq<string>): string { Join(Cells(texts)) + EOL }

  lemma {:induction false} JoinRead(texts: seq<string>, rest: string, record: seq<string>)
    requires texts != []
    ensures Read(Line(texts) + rest, Start, "", record) == Cons(record + texts, Read(rest, Start, "", []))
    decreases |texts|
  {
    hide CsvCell;
    var cell := CsvCell(texts[0], false);
    if |texts| == 1 {
      assert Line(texts) + rest == cell + (EOL + rest);
      assert (EOL + rest)[..2] == EOL && (EOL + rest)[2..] == rest;
      CellRead(texts[0], false, EOL + rest, record);
      assert record + [texts[0]] == record + texts;
    } else {
      var more := Line(texts[1..]) + rest;
      assert Cells(texts)[1..] == Cells(texts[1..]);
      assert Line(texts) + rest == cell + ("," + more);
      assert ("," + more)[1..] == more;
      CellRead(texts[0], false, "," + more, record);
      JoinRead(texts[1..], rest, record + [texts[0]]);
      assert record + [texts[0]] + texts[1..] == record + texts;
    }
  }

  function Lines(records: seq<seq<string>>): string {
    if records == [] then "" else Line(records[0]) + Lines(records[1..])
  }

  /** A file of lines reads back as its records, for all texts whatever they contain. */
  lemma {:induction false} LinesRead(records: seq<seq<string>>)
    requires forall i | 0 <= i < |records| :: records[i] != []
    ensures Parse(Lines(records)) == Some(records)
    decreases |records|
  {
    if records != [] {
      LinesRead(records[1..]);
      JoinRead(records[0], Lines(records[1..]), []);
      assert [] + records[0] == records[0];
      assert [records[0]] + records[1..] == records;
    }
  }

  // ---------------------------------------------------------------- numbers and fixed names

  function IntText(n: int): string { if n < 0 then "-" + Decimal(-n) else Decimal(n) }

  function BoolText(b: bool): string { if b then "true" else "false" }

  predicate Unquoted(cell: string) { CsvCell(cell, false) == cell }

  lemma TextsUnquoted(n: int, i: nat, b: bool)
    ensures Unquoted(IntText(n)) && Unquoted("topic" + Decimal(i)) && Unquoted(BoolText(b))
  {
    DecimalIsDigits(if n < 0 then -n else n);
    DecimalIsDigits(i);
  }

  // ---------------------------------------------------------------- header and rows

  datatype Event = Event(
    id: string, contractId: string, kind: string, ledger: int, ledgerClosedAt: string, txHash: string,
    transactionIndex: int, operationIndex: int, inSuccessfulContractCall: bool,
    topics: seq<Decoded>, value: Decoded, decodeError: Option<string>)

  const LEADING := ["id", "contractId", "type", "ledger", "ledgerClosedAt", "txHash",
                    "transactionIndex", "operationIndex", "inSuccessfulContractCall"]
  const TRAILING := ["valueType", "value", "decodeError"]

  function TopicNames(columns: nat): seq<string> { seq(columns, i requires 0 <= i < columns => "topic" + Decimal(i)) }

  function HeaderTexts(columns: nat): seq<string> { LEADING + TopicNames(columns) + TRAILING }

  function EventCsvHeader(columns: nat): string { Join(HeaderTexts(columns)) + EOL }

  function Width(e: Event, columns: nat): nat { if columns < |e.topics| then |e.topics| else columns }

  function TopicCells(e: Event, columns: nat): seq<string> {
    seq(Width(e, columns), i requires 0 <= i < Width(e, columns) => if i < |e.topics| then ValueCell(e.topics[i]) else "")
  }

  function TopicTexts(e: Event, columns: nat): seq<string> {
    seq(Width(e, columns), i requires 0 <= i < Width(e, columns) => if i < |e.topics| then ValueText(e.topics[i]) else "")
  }

  function EventCsvRow(e: Event, columns: nat): string {
    Join(
      [CsvCell(e.id, false), CsvCell(e.contractId, false), CsvCell(e.kind, false), IntText(e.ledger),
       CsvCell(e.ledgerClosedAt, false), CsvCell(e.txHash, false), IntText(e.transactionIndex),
       IntText(e.operationIndex), BoolText(e.inSuccessfulContractCall)]
      + TopicCells(e, columns)
      + [CsvCell(e.value.kind, false), ValueCell(Decoded("json", e.value.text, e.value.json)),
         match e.decodeError case None => "" case Some(err) => if err == "" then "" else CsvCell(GuardFormula(err), false)])
    + EOL
  }

  /** The texts a reader should find in an event's record. */
  function RowTexts(e: Event, columns: nat): seq<string> {
    [e.id, e.contractId, e.kind, IntText(e.ledger), e.ledgerClosedAt, e.txHash, IntText(e.transactionIndex),
     IntText(e.operationIndex), BoolText(e.inSuccessfulContractCall)]
    + TopicTexts(e, columns)
    + [e.value.kind, e.value.json, GuardFormula(e.decodeError.GetOr(""))]
  }

  lemma RowIsLine(e: Event, columns: nat)
    ensures EventCsvRow(e, columns) == Line(RowTexts(e, columns))
  {
    TextsUnquoted(e.ledger, 0, e.inSuccessfulContractCall);
    TextsUnquoted(e.transactionIndex, 0, true);
    TextsUnquoted(e.operationIndex, 0, true);
    assert Unquoted("");
    var head := [e.id, e.contractId, e.kind, IntText(e.ledger), e.ledgerClosedAt, e.txHash, IntText(e.transactionIndex),
      IntText(e.operationIndex), BoolText(e.inSuccessfulContractCall)];
    var topics, tail := TopicTexts(e, columns), [e.value.kind, e.value.json, GuardFormula(e.decodeError.GetOr(""))];
    hide NeedsQuotes, IntText, BoolText, GuardFormula;
    CellsAppend(head + topics, tail);
    CellsAppend(head, topics);
    assert Cells(head) == [CsvCell(e.id, false), CsvCell(e.contractId, false), CsvCell(e.kind, false), IntText(e.ledger),
      CsvCell(e.ledgerClosedAt, false), CsvCell(e.txHash, false), IntText(e.transactionIndex),
      IntText(e.operationIndex), BoolText(e.inSuccessfulContractCall)];
    assert Cells(topics) == TopicCells(e, columns);
    assert Cells(tail) == [CsvCell(e.value.kind, false), ValueCell(Decoded("json", e.value.text, e.value.json)),
      match e.decodeError case None => "" case Some(err) => if err == "" then "" else CsvCell(GuardFormula(err), false)];
  }

  lemma CellsAppend(a: seq<string>, b: seq<string>)
    ensures Cells(a + b) == Cells(a) + Cells(b)
  {
  }

  lemma LeadingPlain()
    ensures !NeedsQuotes("id") && !NeedsQuotes("contractId") && !NeedsQuotes("type") && !NeedsQuotes("ledger")
    ensures !NeedsQuotes("ledgerClosedAt") && !NeedsQuotes("txHash")
  {
  }

  lemma MiddlePlain()
    ensures !NeedsQuotes("transactionIndex") && !NeedsQuotes("operationIndex")
    ensures !NeedsQuotes("inSuccessfulContractCall")
  {
  }

  lemma TrailingPlain()
    ensures !NeedsQuotes("valueType") && !NeedsQuotes("value") && !NeedsQuotes("decodeError")
  {
  }

  lemma HeaderIsLine(columns: nat)
    ensures EventCsvHeader(columns) == Line(HeaderTexts(columns))
  {
    LeadingPlain();
    MiddlePlain();
    TrailingPlain();
    hide NeedsQuotes, Doubled;
    CellsAppend(LEADING + TopicNames(columns), TRAILING);
    CellsAppend(LEADING, TopicNames(columns));
    assert Cells(LEADING) == LEADING && Cells(TRAILING) == TRAILING;
    forall i: nat | i < columns ensures Unquoted("topic" + Decimal(i)) { TextsUnquoted(0, i, true); }
    assert Cells(TopicNames(columns)) == TopicNames(columns);
  }

  /** A record is as wide as the header exactly when the header has a column for each of its topics. */
  lemma RecordWidth(e: Event, columns: nat)
    ensures |RowTexts(e, columns)| == |HeaderTexts(columns)| <==> |e.topics| <= columns
    ensures |RowTexts(e, columns)| >= |HeaderTexts(columns)|
  {
  }

  // ---------------------------------------------------------------- the export

  /** `topicColumnsOf`: the widest event, and at least the four indexed topics. */
  function TopicColumnsOf(events: seq<Event>): (n: nat)
    ensures n >= MIN_TOPIC_COLUMNS && forall e | e in events :: |e.topics| <= n
    ensures n == MIN_TOPIC_COLUMNS || exists e | e in events :: |e.topics| == n
  {
    if events == [] then MIN_TOPIC_COLUMNS
    else
      var before := TopicColumnsOf(events[..|events| - 1]);
      var e := events[|events| - 1];
      if before < |e.topics| then |e.topics| else before
  }

  function Flatten(pages: seq<seq<Event>>): seq<Event> {
    if pages == [] then [] else Flatten(pages[..|pages| - 1]) + pages[|pages| - 1]
  }

  function RecordsOf(events: seq<Event>, columns: nat): seq<seq<string>> {
    seq(|events|, i requires 0 <= i < |events| => RowTexts(events[i], columns))
  }

  lemma {:induction false} LinesAppend(a: seq<seq<string>>, b: seq<seq<string>>)
    ensures Lines(a + b) == Lines(a) + Lines(b)
  {
    if a == [] {
      assert a + b == b;
    } else {
      assert (a + b)[1..] == a[1..] + b;
      LinesAppend(a[1..], b);
    }
  }

  lemma LinesSnoc(a: seq<seq<string>>, last: seq<string>)
    ensures Lines(a + [last]) == Lines(a) + Line(last)
  {
    LinesAppend(a, [last]);
    assert Lines([last]) == Line(last) + Lines([last][1..]);
  }

  /** The first scan of `csvExport`. */
  method SizeColumns(pages: seq<seq<Event>>) returns (columns: nat)
    ensures columns >= MIN_TOPIC_COLUMNS && forall e | e in Flatten(pages) :: |e.topics| <= columns
    ensures columns == MIN_TOPIC_COLUMNS || exists e | e in Flatten(pages) :: |e.topics| == columns
  {
    columns := MIN_TOPIC_COLUMNS;
    for i := 0 to |pages|
      invariant columns >= MIN_TOPIC_COLUMNS && forall e | e in Flatten(pages[..i]) :: |e.topics| <= columns
      invariant columns == MIN_TOPIC_COLUMNS || exists e | e in Flatten(pages[..i]) :: |e.topics| == columns
    {
      assert pages[..i + 1][..i] == pages[..i];
      var wide := TopicColumnsOf(pages[i]);
      columns := if columns < wide then wide else columns;
    }
    assert pages[..|pages|] == pages;
  }

  /** The second scan: the header, then a line an event, whatever pages the events come in. */
  method WriteRows(pages: seq<seq<Event>>, columns: nat) returns (out: string)
    ensures out == Lines([HeaderTexts(columns)] + RecordsOf(Flatten(pages), columns))
  {
    hide Line, RowTexts, HeaderTexts, EventCsvRow, EventCsvHeader;
    HeaderIsLine(columns);
    var header := [HeaderTexts(columns)];
    out := EventCsvHeader(columns);
    LinesSnoc([], HeaderTexts(columns));
    assert [] + header == header && header + RecordsOf([], columns) == header;
    for i := 0 to |pages|
      invariant out == Lines(header + RecordsOf(Flatten(pages[..i]), columns))
    {
      var before := Flatten(pages[..i]);
      assert pages[..i + 1][..i] == pages[..i];
      assert before + pages[i][..0] == before;
      for j := 0 to |pages[i]|
        invariant out == Lines(header + RecordsOf(before + pages[i][..j], columns))
      {
        RowIsLine(pages[i][j], columns);
        RecordsSnoc(before + pages[i][..j], pages[i][j], columns);
        LinesSnoc(header + RecordsOf(before + pages[i][..j], columns), RowTexts(pages[i][j], columns));
        assert before + pages[i][..j + 1] == before + pages[i][..j] + [pages[i][j]];
        assert header + (RecordsOf(before + pages[i][..j], columns) + [RowTexts(pages[i][j], columns)])
            == (header + RecordsOf(before + pages[i][..j], columns)) + [RowTexts(pages[i][j], columns)];
        out := out + EventCsvRow(pages[i][j], columns);
      }
      assert pages[i][..|pages[i]|] == pages[i];
    }
    assert pages[..|pages|] == pages;
  }

  lemma RecordsSnoc(events: seq<Event>, e: Event, columns: nat)
    ensures RecordsOf(events + [e], columns) == RecordsOf(events, columns) + [RowTexts(e, columns)]
  {
  }

  /** The file `csvExport` streams when its two scans see these pages. */
  method CsvExport(firstScan: seq<seq<Event>>, secondScan: seq<seq<Event>>) returns (out: string, columns: nat)
    ensures out == Lines([HeaderTexts(columns)] + RecordsOf(Flatten(secondScan), columns))
    ensures forall e | e in Flatten(firstScan) :: |e.topics| <= columns
    ensures columns == MIN_TOPIC_COLUMNS || exists e | e in Flatten(firstScan) :: |e.topics| == columns
  {
    columns := SizeColumns(firstScan);
    out := WriteRows(secondScan, columns);
  }

  /**
   The export reads back: a header, then for each event the exact texts that were written; and the
   table is rectangular exactly when no event of the second scan outgrew the first.
   */
  lemma ExportReadsBack(events: seq<Event>, columns: nat)
    ensures Parse(Lines([HeaderTexts(columns)] + RecordsOf(events, columns)))
         == Some([HeaderTexts(columns)] + RecordsOf(events, columns))
    ensures (forall r | r in RecordsOf(events, columns) :: |r| == |HeaderTexts(columns)|) <==>
            forall e | e in events :: |e.topics| <= columns
  {
    LinesRead([HeaderTexts(columns)] + RecordsOf(events, columns));
    forall i | 0 <= i < |events| ensures |RowTexts(events[i], columns)| == |HeaderTexts(columns)| <==> |events[i].topics| <= columns {
      RecordWidth(events[i], columns);
    }
    var records := RecordsOf(events, columns);
    hide RowTexts, HeaderTexts;
    if forall e | e in events :: |e.topics| <= columns {
      forall r | r in records ensures |r| == |HeaderTexts(columns)| {
        var i :| 0 <= i < |records| && records[i] == r;
        assert events[i] in events;
      }
    }
    if forall r | r in records :: |r| == |HeaderTexts(columns)| {
      forall e | e in events ensures |e.topics| <= columns {
        var i :| 0 <= i < |events| && events[i] == e;
        assert records[i] in records;
      }
    }
  }
}
