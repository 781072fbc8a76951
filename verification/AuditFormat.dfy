/** The two formats of an audit export. */
module AuditFormat {
  /** CSV and JSON lines, and readers that get every value back. */

  import opened Common
  import opened JsonText
  import opened JsValues
  import opened CanonicalJson
  import opened AuditEntries
  import opened AuditTable
  import S = StorageKeys

  const APOSTROPHE: Unit := 39
  const CARRIAGE_RETURN: Unit := 13
  const TAB: Unit := 9

  /** auditEntryRecord; `iso` is Date.prototype.toISOString of a time in milliseconds. */
  function Record(iso: int -> Text, e: Entry): (fields: seq<Field>)
    ensures |fields| == 11
  {
    [
      Field(Ascii("sequence"), Finite(S.Decimal(e.sequence))),
      Field(Ascii("createdAt"), Str(iso(e.createdAt))),
      Field(Ascii("tenantId"), Str(e.content.tenantId)),
      Field(Ascii("model"), Str(e.content.model)),
      Field(Ascii("operation"), Str(e.content.operation)),
      Field(Ascii("recordId"), OrNull(e.content.recordId)),
      Field(Ascii("userId"), OrNull(e.content.userId)),
      Field(Ascii("impersonatedBy"), OrNull(e.content.impersonatedBy)),
      Field(Ascii("data"), e.content.data),
      Field(Ascii("previousHash"), Str(e.previousHash)),
      Field(Ascii("hash"), Str(e.hash))
    ]
  }

  const COLUMNS: seq<Text> := [
    Ascii("sequence"), Ascii("createdAt"), Ascii("tenantId"), Ascii("model"), Ascii("operation"), Ascii("recordId"),
    Ascii("userId"), Ascii("impersonatedBy"), Ascii("data"), Ascii("previousHash"), Ascii("hash")]

  // -------------------------------------------------------------------- CSV

  predicate IsFormulaPrefix(u: Unit) {
    u == '=' as int || u == '+' as int || u == '-' as int || u == '@' as int || u == TAB || u == CARRIAGE_RETURN
  }

  /** A cell's text, kept from being read as a formula. */
  function SafeText(v: Value): Text {
    match v
    case Undefined => []
    case Null => []
    case Str(s) => if s != [] && IsFormulaPrefix(s[0]) then [APOSTROPHE] + s else s
    case _ => Stringify(v).value
  }

  predicate IsSpecial(u: Unit) {
    u == QUOTE || u == COMMA || u == LINE_FEED || u == CARRIAGE_RETURN
  }

  predicate NeedsQuotes(t: Text) {
    exists i | 0 <= i < |t| :: IsSpecial(t[i])
  }

  /** replaceAll('"', '""') */
  function DoubleQuotes(t: Text): Text {
    if t == [] then []
    else (if t[0] == QUOTE then [QUOTE, QUOTE] else [t[0]]) + DoubleQuotes(t[1..])
  }

  function QuotedCell(t: Text): Text {
    if NeedsQuotes(t) then [QUOTE] + DoubleQuotes(t) + [QUOTE] else t
  }

  function CsvCell(v: Value): Text {
    QuotedCell(SafeText(v))
  }

  /** Array.prototype.join(',') and a line feed. */
  function CsvLine(cells: seq<Text>): Text {
    if cells == [] then [LINE_FEED]
    else if |cells| == 1 then cells[0] + [LINE_FEED]
    else cells[0] + [COMMA] + CsvLine(cells[1..])
  }

  function CsvCells(fields: seq<Field>): (cells: seq<Text>)
    ensures |cells| == |fields|
    ensures forall i | 0 <= i < |fields| :: cells[i] == CsvCell(fields[i].value)
  {
    seq(|fields|, i requires 0 <= i < |fields| => CsvCell(fields[i].value))
  }

  /** The texts the cells stand for, and these as cells. */
  function Safes(fields: seq<Field>): (cells: seq<Text>)
    ensures |cells| == |fields|
    ensures forall i | 0 <= i < |fields| :: cells[i] == SafeText(fields[i].value)
  {
    seq(|fields|, i requires 0 <= i < |fields| => SafeText(fields[i].value))
  }

  function Quoteds(cells: seq<Text>): (quoted: seq<Text>)
    ensures |quoted| == |cells|
    ensures forall i | 0 <= i < |cells| :: quoted[i] == QuotedCell(cells[i])
  {
    seq(|cells|, i requires 0 <= i < |cells| => QuotedCell(cells[i]))
  }

  function CsvHeader(): Text {
    CsvLine(COLUMNS)
  }

  /** auditLines(entries, 'csv') */
  function CsvLines(iso: int -> Text, entries: Table): Text {
    if entries == [] then []
    else CsvLine(CsvCells(Record(iso, entries[0]))) + CsvLines(iso, entries[1..])
  }

  // ------------------------------------- a reader, as section 2 of RFC 4180

  /** A field read off a text, and what follows it. */
  datatype Cell = Cell(value: Text, rest: Text)

  /** Behind an opening quote: up to a quote that is not doubled. */
  function ReadQuoted(t: Text): (c: Cell)
    ensures |c.rest| <= |t|
    decreases |t|
  {
    if t == [] then Cell([], [])
    else if t[0] == QUOTE then
      if |t| >= 2 && t[1] == QUOTE then
        var more := ReadQuoted(t[2..]);
        Cell([QUOTE] + more.value, more.rest)
      else Cell([], t[1..])
    else
      var more := ReadQuoted(t[1..]);
      Cell([t[0]] + more.value, more.rest)
  }

  function ReadPlain(t: Text): (c: Cell)
    ensures |c.rest| <= |t|
    ensures c.rest != [] ==> c.rest[0] == COMMA || c.rest[0] == LINE_FEED
  {
    if t == [] || t[0] == COMMA || t[0] == LINE_FEED then Cell([], t)
    else
      var more := ReadPlain(t[1..]);
      Cell([t[0]] + more.value, more.rest)
  }

  function ReadCell(t: Text): (c: Cell)
    ensures |c.rest| <= |t|
  {
    if t != [] && t[0] == QUOTE then ReadQuoted(t[1..]) else ReadPlain(t)
  }

  datatype Line = Line(cells: seq<Text>, rest: Text)

  /** Cells up to a line feed, or to the end. */
  function ReadLine(t: Text): (l: Line)
    ensures |l.rest| <= |t|
    ensures t != [] ==> |l.rest| < |t|
    decreases |t|
  {
    var c := ReadCell(t);
    if c.rest == [] then Line([c.value], [])
    else if c.rest[0] == COMMA then
      var more := ReadLine(c.rest[1..]);
      Line([c.value] + more.cells, more.rest)
    else Line([c.value], c.rest[1..])
  }

  function ReadCsv(t: Text): seq<seq<Text>>
    decreases |t|
  {
    if t == [] then [] else [ReadLine(t).cells] + ReadCsv(ReadLine(t).rest)
  }

  predicate EndsCell(t: Text) {
    t != [] && (t[0] == COMMA || t[0] == LINE_FEED)
  }

  lemma {:induction false} ReadQuotedSteps(u: Unit, more: Text)
    ensures u != QUOTE ==> ReadQuoted([u] + more) == Cell([u] + ReadQuoted(more).value, ReadQuoted(more).rest)
    ensures ReadQuoted([QUOTE, QUOTE] + more) == Cell([QUOTE] + ReadQuoted(more).value, ReadQuoted(more).rest)
    ensures more == [] || more[0] != QUOTE ==> ReadQuoted([QUOTE] + more) == Cell([], more)
  {
    assert ([u] + more)[1..] == more;
    assert ([QUOTE, QUOTE] + more)[2..] == more;
    assert ([QUOTE] + more)[1..] == more;
  }

  lemma {:induction false} ReadsQuoted(value: Text, rest: Text)
    requires EndsCell(rest)
    ensures ReadQuoted(DoubleQuotes(value) + ([QUOTE] + rest)) == Cell(value, rest)
  {
    hide ReadQuoted;
    var t := DoubleQuotes(value) + ([QUOTE] + rest);
    if value == [] {
      assert t == [QUOTE] + rest;
      ReadQuotedSteps(QUOTE, rest);
    } else {
      var more := DoubleQuotes(value[1..]) + ([QUOTE] + rest);
      ReadsQuoted(value[1..], rest);
      ReadQuotedSteps(value[0], more);
      assert t == (if value[0] == QUOTE then [QUOTE, QUOTE] else [value[0]]) + more;
      assert value == [value[0]] + value[1..];
    }
  }

  lemma {:induction false} ReadsPlain(value: Text, rest: Text)
    requires EndsCell(rest) && !NeedsQuotes(value)
    ensures ReadPlain(value + rest) == Cell(value, rest)
  {
    if value == [] {
      assert value + rest == rest;
    } else {
      assert !IsSpecial(value[0]);
      assert (value + rest)[1..] == value[1..] + rest;
      ReadsPlain(value[1..], rest);
    }
  }

  /** A cell's text is read back, whatever it contains. */
  lemma {:induction false} ReadsCell(value: Text, rest: Text)
    requires EndsCell(rest)
    ensures ReadCell(QuotedCell(value) + rest) == Cell(value, rest)
  {
    hide ReadQuoted, ReadPlain, DoubleQuotes;
    var t := QuotedCell(value) + rest;
    if NeedsQuotes(value) {
      assert t[1..] == DoubleQuotes(value) + ([QUOTE] + rest);
      ReadsQuoted(value, rest);
    } else {
      assert value != [] ==> !IsSpecial(value[0]);
      ReadsPlain(value, rest);
    }
  }

  lemma {:induction false} ReadsLine(cells: seq<Text>, rest: Text)
    requires cells != []
    ensures ReadLine(CsvLine(Quoteds(cells)) + rest) == Line(cells, rest)
  {
    hide ReadLine, ReadCell, QuotedCell;
    var quoted := Quoteds(cells);
    if |cells| == 1 {
      assert CsvLine(quoted) + rest == QuotedCell(cells[0]) + ([LINE_FEED] + rest);
      ReadsLastCell(cells[0], rest);
      assert cells == [cells[0]];
    } else {
      assert quoted[1..] == Quoteds(cells[1..]);
      var more := CsvLine(quoted[1..]) + rest;
      assert CsvLine(quoted) + rest == QuotedCell(cells[0]) + ([COMMA] + more);
      ReadsNextCell(cells[0], more);
      ReadsLine(cells[1..], rest);
      assert cells == [cells[0]] + cells[1..];
    }
  }

  lemma {:induction false} ReadsLastCell(value: Text, rest: Text)
    ensures ReadLine(QuotedCell(value) + ([LINE_FEED] + rest)) == Line([value], rest)
  {
    hide ReadCell, QuotedCell;
    ReadsCell(value, [LINE_FEED] + rest);
    assert ([LINE_FEED] + rest)[1..] == rest;
  }

  lemma {:induction false} ReadsNextCell(value: Text, more: Text)
    ensures ReadLine(QuotedCell(value) + ([COMMA] + more)) == Line([value] + ReadLine(more).cells, ReadLine(more).rest)
  {
    hide ReadCell, QuotedCell;
    ReadsCell(value, [COMMA] + more);
    assert ([COMMA] + more)[1..] == more;
  }

  /** Each entry's row: its eleven values' texts. */
  function Rows(iso: int -> Text, entries: Table): (rows: seq<seq<Text>>)
    ensures |rows| == |entries|
    ensures forall i | 0 <= i < |entries| :: rows[i] == Safes(Record(iso, entries[i]))
  {
    seq(|entries|, i requires 0 <= i < |entries| => Safes(Record(iso, entries[i])))
  }

  lemma {:induction false} CellsAreQuoted(fields: seq<Field>)
    ensures CsvCells(fields) == Quoteds(Safes(fields))
  {
  }

  lemma {:induction false} LineNotEmpty(cells: seq<Text>)
    ensures CsvLine(cells) != []
  {
  }

  lemma {:induction false} ReadsLines(iso: int -> Text, entries: Table)
    ensures ReadCsv(CsvLines(iso, entries)) == Rows(iso, entries)
  {
    hide Record, Safes;
    if entries != [] {
      var cells := Safes(Record(iso, entries[0]));
      var more := CsvLines(iso, entries[1..]);
      CellsAreQuoted(Record(iso, entries[0]));
      ReadsLine(cells, more);
      LineNotEmpty(Quoteds(cells));
      ReadsLines(iso, entries[1..]);
      assert Rows(iso, entries) == [cells] + Rows(iso, entries[1..]);
    }
  }

  lemma {:induction false} NoQuotesNeeded(s: string)
    requires forall i | 0 <= i < |s| :: 'A' <= s[i] <= 'z'
    ensures QuotedCell(Ascii(s)) == Ascii(s)
  {
  }

  lemma {:induction false} ColumnsArePlain()
    ensures Quoteds(COLUMNS) == COLUMNS
  {
    NoQuotesNeeded("sequence");
    NoQuotesNeeded("createdAt");
    NoQuotesNeeded("tenantId");
    NoQuotesNeeded("model");
    NoQuotesNeeded("operation");
    NoQuotesNeeded("recordId");
    NoQuotesNeeded("userId");
    NoQuotesNeeded("impersonatedBy");
    NoQuotesNeeded("data");
    NoQuotesNeeded("previousHash");
    NoQuotesNeeded("hash");
    hide QuotedCell, Ascii;
  }

  /**
   * A CSV export, header first, reads back as the column names and then one row of eleven
   * cells per entry, each the neutralised text, whatever commas, quotes and line breaks
   * the values contain.
   */
  lemma {:induction false} CsvReadsBack(iso: int -> Text, entries: Table)
    ensures ReadCsv(CsvHeader() + CsvLines(iso, entries)) == [COLUMNS] + Rows(iso, entries)
    ensures forall i | 0 <= i < |entries| :: |Rows(iso, entries)[i]| == 11
  {
    hide CsvLines, Record;
    ColumnsArePlain();
    ReadsLine(COLUMNS, CsvLines(iso, entries));
    LineNotEmpty(COLUMNS);
    ReadsLines(iso, entries);
  }

  /** A cell's text starts a formula exactly if it is a negative number, which it then is. */
  lemma {:induction false} SafeTextIsSafe(v: Value)
    requires Valid(v)
    ensures SafeText(v) != [] && IsFormulaPrefix(SafeText(v)[0]) <==> v.Finite? && v.text[0] == MINUS
  {
    match v
    case Undefined =>
    case Null =>
    case Str(s) =>
    case Finite(text) =>
    case _ =>
      ToJsonWellFormed(v);
      hide Print;
      PrintStarts(ToJson(v).value);
  }

  /** What a cell stands for: nothing for none, a text itself but for its apostrophe, else the JSON. */
  lemma {:induction false} SafeTextReads(v: Value)
    ensures v == Null || v == Undefined ==> SafeText(v) == []
    ensures v.Str? ==>
              if v.s != [] && (v.s[0] == '=' as int || v.s[0] == '+' as int || v.s[0] == '-' as int
                               || v.s[0] == '@' as int || v.s[0] == '\t' as int || v.s[0] == '\r' as int)
              then Neutralises(SafeText(v), v.s) else SafeText(v) == v.s
    ensures !v.Undefined? && !v.Null? && !v.Str? ==> Stringify(v) == Some(SafeText(v))
  {
  }

  /** One text is what neutralising makes of another, a formula. */
  predicate Neutralises(s: Text, formula: Text) {
    formula != [] && IsFormulaPrefix(formula[0]) && s == [APOSTROPHE] + formula
  }

  /** Different texts share a cell exactly if one is the other, a formula, neutralised. */
  lemma {:induction false} SafeTextDecides(s: Text, t: Text)
    ensures SafeText(Str(s)) == SafeText(Str(t)) <==> s == t || Neutralises(s, t) || Neutralises(t, s)
  {
    assert IsFormulaPrefix(APOSTROPHE) == false;
    assert ([APOSTROPHE] + s)[1..] == s && ([APOSTROPHE] + t)[1..] == t;
    assert Neutralises(s, t) ==> s[0] == APOSTROPHE;
    assert Neutralises(t, s) ==> t[0] == APOSTROPHE;
  }

  // ------------------------------------------------------------------ JSONL

  function JsonLine(iso: int -> Text, e: Entry): Text {
    Stringify(Obj(Record(iso, e))).value
  }

  /** auditLines(entries, 'jsonl') */
  function JsonLines(iso: int -> Text, entries: Table): Text {
    if entries == [] then [] else JsonLine(iso, entries[0]) + [LINE_FEED] + JsonLines(iso, entries[1..])
  }

  /** No control units, a line feed among them. */
  ghost predicate NoControls(t: Text) {
    forall i | 0 <= i < |t| :: t[i] >= 32
  }

  /** Texts between line feeds. */
  function SplitLine(t: Text): (c: Cell)
    ensures |c.rest| <= |t|
    ensures t != [] ==> |c.rest| < |t|
  {
    if t == [] then Cell([], [])
    else if t[0] == LINE_FEED then Cell([], t[1..])
    else
      var more := SplitLine(t[1..]);
      Cell([t[0]] + more.value, more.rest)
  }

  function SplitLines(t: Text): seq<Text>
    decreases |t|
  {
    if t == [] then [] else [SplitLine(t).value] + SplitLines(SplitLine(t).rest)
  }

  lemma {:induction false} SplitsLine(line: Text, rest: Text)
    requires NoControls(line)
    ensures SplitLine(line + [LINE_FEED] + rest) == Cell(line, rest)
  {
    var t := line + [LINE_FEED] + rest;
    if line == [] {
      assert t == [LINE_FEED] + rest;
    } else {
      assert line[0] in line;
      assert t[1..] == line[1..] + [LINE_FEED] + rest;
      SplitsLine(line[1..], rest);
    }
  }

  lemma {:induction false} EscapeNoControls(s: Text)
    ensures NoControls(Escape(s))
    decreases |s|
  {
    if s != [] {
      if StartsWithPair(s) {
        EscapeNoControls(s[2..]);
      } else {
        EscapeUnitNoControls(s[0]);
        EscapeNoControls(s[1..]);
      }
    }
  }

  lemma {:induction false} EscapeUnitNoControls(u: Unit)
    ensures NoControls(EscapeUnit(u))
  {
    var (high, low) := (u / 256, u % 256);
    assert NoControls(Hex4(u)) by { Hex4NoControls(u); }
  }

  lemma {:induction false} Hex4NoControls(u: Unit)
    ensures NoControls(Hex4(u))
  {
    var t := Hex4(u);
    assert forall i | 0 <= i < |t| :: IsHexDigit(t[i]);
  }

  /** A JSON text holds no control unit, as section 7 of RFC 8259 demands of strings. */
  lemma {:induction false} PrintNoControls(j: Json)
    requires WellFormed(j)
    ensures NoControls(Print(j))
    decreases j, 0
  {
    match j
    case JNull => assert NoControls(NULL);
    case JBool(b) => assert NoControls(TRUE) && NoControls(FALSE);
    case JNumber(text) => assert forall i | 0 <= i < |text| :: IsNumberUnit(text[i]);
    case JString(s) => EscapeNoControls(s);
    case JArray(items) => ItemsNoControls(items);
    case JObject(members) => MembersNoControls(members);
  }

  lemma {:induction false} ItemsNoControls(items: seq<Json>)
    requires forall i | 0 <= i < |items| :: WellFormed(items[i])
    ensures NoControls(PrintItems(items))
    decreases items, 0
  {
    if items != [] {
      PrintNoControls(items[0]);
      ItemsNoControls(items[1..]);
    }
  }

  lemma {:induction false} MembersNoControls(members: seq<Member>)
    requires forall i | 0 <= i < |members| :: WellFormed(members[i].value)
    ensures NoControls(PrintMembers(members))
    decreases members, 0
  {
    if members != [] {
      EscapeNoControls(members[0].key);
      PrintNoControls(members[0].value);
      MembersNoControls(members[1..]);
      assert NoControls(PrintMember(members[0]));
    }
  }

  lemma {:induction false} ToJsonWellFormed(v: Value)
    requires Valid(v) && !v.Undefined?
    ensures WellFormed(ToJson(v).value)
    decreases v, 0
  {
    match v
    case Arr(elements) =>
      forall i | 0 <= i < |elements| ensures WellFormed(ElementJson(elements[i])) {
        if !elements[i].Undefined? {
          ToJsonWellFormed(elements[i]);
        }
      }
    case Obj(fields) => ToMembersWellFormed(fields);
    case _ =>
  }

  lemma {:induction false} ToMembersWellFormed(fields: seq<Field>)
    requires forall i | 0 <= i < |fields| :: Valid(fields[i].value)
    ensures forall i | 0 <= i < |ToMembers(fields)| :: WellFormed(ToMembers(fields)[i].value)
    decreases fields, 0
  {
    if fields != [] {
      ToMembersWellFormed(fields[1..]);
      if !fields[0].value.Undefined? {
        ToJsonWellFormed(fields[0].value);
      }
    }
  }

  lemma {:induction false} DecimalIsNumber(n: nat)
    ensures IsNumberText(S.Decimal(n))
  {
    if n >= 10 {
      DecimalIsNumber(n / 10);
    }
  }

  lemma {:induction false} RecordWellFormed(iso: int -> Text, e: Entry)
    requires Valid(e.content.data)
    ensures NoControls(JsonLine(iso, e))
  {
    var fields := Record(iso, e);
    DecimalIsNumber(e.sequence);
    forall i | 0 <= i < |fields| ensures Valid(fields[i].value) {
      assert i == 0 ==> fields[i].value == Finite(S.Decimal(e.sequence));
    }
    hide Record;
    ToMembersWellFormed(fields);
    PrintNoControls(JObject(ToMembers(fields)));
  }

  lemma {:induction false} SplitsFirst(line: Text, more: Text)
    requires NoControls(line)
    ensures SplitLines(line + [LINE_FEED] + more) == [line] + SplitLines(more)
  {
    SplitsLine(line, more);
    hide SplitLine, NoControls;
  }

  lemma {:induction false} JsonLinesStep(iso: int -> Text, entries: Table)
    requires entries != [] && NoControls(JsonLine(iso, entries[0]))
    ensures SplitLines(JsonLines(iso, entries)) == [JsonLine(iso, entries[0])] + SplitLines(JsonLines(iso, entries[1..]))
  {
    hide SplitLines, JsonLine, NoControls;
    SplitsFirst(JsonLine(iso, entries[0]), JsonLines(iso, entries[1..]));
  }

  /** A JSON lines export has one line per entry, and that line is the entry's JSON text. */
  lemma {:induction false} JsonLinesSplit(iso: int -> Text, entries: Table)
    requires forall i | 0 <= i < |entries| :: Valid(entries[i].content.data)
    ensures |SplitLines(JsonLines(iso, entries))| == |entries|
    ensures forall i | 0 <= i < |entries| :: SplitLines(JsonLines(iso, entries))[i] == JsonLine(iso, entries[i])
  {
    if entries == [] {
      NoLines(iso);
    } else {
      hide SplitLines, JsonLines, JsonLine, NoControls, Valid;
      RecordWellFormed(iso, entries[0]);
      JsonLinesStep(iso, entries);
      JsonLinesSplit(iso, entries[1..]);
      assert forall i | 1 <= i < |entries| :: entries[i] == entries[1..][i - 1];
    }
  }

  lemma {:induction false} NoLines(iso: int -> Text)
    ensures SplitLines(JsonLines(iso, [])) == []
  {
  }
}
