/** The CSV export: the header line and one line per resolved transaction,
    with the description quoted (quotes doubled, newlines turned to spaces). */
module Export {
  import opened Wrappers
  import opened Text
  import opened Types

  /** `s.replace(/"/g, '""')`: one extra character per quote, twice the quotes,
      and no character that `s` does not hold. */
  function DoubleQuotes(s: string): (r: string)
    ensures |r| == |s| + CountChar(s, '"')
    ensures CountChar(r, '"') == 2 * CountChar(s, '"')
    ensures forall c :: c in r ==> c in s
  {
    if s == [] then []
    else
      var head := if s[0] == '"' then "\"\"" else [s[0]];
      var rest := DoubleQuotes(s[1..]);
      CountCharAppend(head, rest, '"');
      assert s == [s[0]] + s[1..];
      head + rest
  }

  /** `s.replace(/\n/g, ' ')`. */
  function NewlinesToSpaces(s: string): (r: string)
    ensures |r| == |s|
    ensures forall i :: 0 <= i < |s| ==> r[i] == (if s[i] == '\n' then ' ' else s[i])
  {
    seq(|s|, i requires 0 <= i < |s| => if s[i] == '\n' then ' ' else s[i])
  }

  /** The description cell: escaped and wrapped in quotes, never holding a newline. */
  function QuoteField(s: string): (r: string)
    ensures |r| == |s| + CountChar(s, '"') + 2
    ensures r[0] == '"' && r[|r| - 1] == '"'
    ensures '\n' !in r
  {
    "\"" + NewlinesToSpaces(DoubleQuotes(s)) + "\""
  }

  /** The inverse of quote doubling: each `""` becomes `"`; a lone `"` is malformed. */
  function UndoubleQuotes(s: string): Option<string>
    decreases |s|
  {
    if s == [] then Some([])
    else if s[0] != '"' then
      match UndoubleQuotes(s[1..])
      case Some(r) => Some([s[0]] + r)
      case None => None
    else if |s| >= 2 && s[1] == '"' then
      match UndoubleQuotes(s[2..])
      case Some(r) => Some("\"" + r)
      case None => None
    else None
  }

  /** Reads a quoted CSV cell back. */
  function UnquoteField(f: string): Option<string>
  {
    if |f| >= 2 && f[0] == '"' && f[|f| - 1] == '"' then UndoubleQuotes(f[1..|f| - 1]) else None
  }

  lemma {:induction false} UndoubleDoubled(s: string)
    ensures UndoubleQuotes(DoubleQuotes(s)) == Some(s)
  {
    if s != [] {
      UndoubleDoubled(s[1..]);
      var d := DoubleQuotes(s);
      if s[0] == '"' {
        assert d[2..] == DoubleQuotes(s[1..]);
      } else {
        assert d[1..] == DoubleQuotes(s[1..]);
      }
      assert s == [s[0]] + s[1..];
    }
  }

  /** Replacing newlines works character by character, so it distributes over concatenation. */
  lemma NewlinesToSpacesAppend(a: string, b: string)
    ensures NewlinesToSpaces(a + b) == NewlinesToSpaces(a) + NewlinesToSpaces(b)
  {
  }

  lemma {:induction false} DoublingCommutes(s: string)
    ensures NewlinesToSpaces(DoubleQuotes(s)) == DoubleQuotes(NewlinesToSpaces(s))
  {
    if s != [] {
      var c, rest := s[0], s[1..];
      var n := NewlinesToSpaces(s);
      DoublingCommutes(rest);
      var head := if c == '"' then "\"\"" else [c];
      NewlinesToSpacesAppend(head, DoubleQuotes(rest));
      assert n[1..] == NewlinesToSpaces(rest);
      assert NewlinesToSpaces(head) == if n[0] == '"' then "\"\"" else [n[0]];
    }
  }

  /** Reading the quoted description back gives the description with its newlines turned to spaces. */
  lemma QuoteFieldRoundTrip(s: string)
    ensures UnquoteField(QuoteField(s)) == Some(NewlinesToSpaces(s))
  {
    var f := QuoteField(s);
    assert f[1..|f| - 1] == NewlinesToSpaces(DoubleQuotes(s));
    DoublingCommutes(s);
    UndoubleDoubled(NewlinesToSpaces(s));
  }

  const Headers: seq<string> := ["Date", "Description", "Card", "Category", "Amount"]

  /** `t.cardLast4 || ''`: the suffix when there is one, else the empty cell. */
  function CardCell(t: Transaction): (r: string)
    ensures t.cardLast4.Some? ==> r == t.cardLast4.value
    ensures t.cardLast4.None? ==> r == ""
  {
    match t.cardLast4
    case Some(c) => c
    case None => ""
  }

  /** One CSV line; `amountText` stands for `toFixed(2)`. Only the description
      is escaped, so the line holds no newline when the other cells hold none,
      and, when the other cells hold no comma, splitting the line at its commas
      gives the date, the pieces of the quoted description, then the card,
      category and amount. */
  function CsvRow(t: Transaction, amountText: real -> string): (r: string)
    ensures PlainCells(t, amountText) ==> '\n' !in r
    ensures CommaFreeCells(t, amountText) ==>
      Split(r, ',') == [t.date] + Split(QuoteField(t.description), ',') + [CardCell(t), t.category, amountText(t.amount)]
  {
    RowSplit(t.date, QuoteField(t.description), CardCell(t), t.category, amountText(t.amount));
    Join([t.date, QuoteField(t.description), CardCell(t), t.category, amountText(t.amount)], ",")
  }

  /** The unquoted cells hold no comma, so each stays one cell when the line is read back. */
  predicate CommaFreeCells(t: Transaction, amountText: real -> string) {
    ',' !in t.date && ',' !in CardCell(t) && ',' !in t.category && ',' !in amountText(t.amount)
  }

  /** Five cells joined by commas, written out. */
  lemma RowJoin(a: string, q: string, b: string, c: string, d: string)
    ensures Join([a, q, b, c, d], ",") == a + "," + (q + "," + (b + "," + (c + "," + d)))
  {
    assert [c, d][1..] == [d];
    assert Join([c, d], ",") == c + "," + d;
    assert [b, c, d][1..] == [c, d];
    assert Join([b, c, d], ",") == b + "," + (c + "," + d);
    assert [q, b, c, d][1..] == [b, c, d];
    assert Join([q, b, c, d], ",") == q + "," + (b + "," + (c + "," + d));
    assert [a, q, b, c, d][1..] == [q, b, c, d];
  }

  lemma RowSplit(a: string, q: string, b: string, c: string, d: string)
    ensures ',' !in a && ',' !in b && ',' !in c && ',' !in d ==>
      Split(Join([a, q, b, c, d], ","), ',') == [a] + Split(q, ',') + [b, c, d]
  {
    if ',' !in a && ',' !in b && ',' !in c && ',' !in d {
      var z := c + "," + d;
      var y := b + "," + z;
      var x := q + "," + y;
      RowJoin(a, q, b, c, d);
      SplitNoSeparator(a, ',');
      SplitNoSeparator(b, ',');
      SplitNoSeparator(c, ',');
      SplitNoSeparator(d, ',');
      assert Split(z, ',') == [c, d] by { SplitAround(c, d, ','); }
      assert Split(y, ',') == [b, c, d] by { SplitAround(b, z, ','); }
      assert Split(x, ',') == Split(q, ',') + [b, c, d] by { SplitAround(q, y, ','); }
      SplitAround(a, x, ',');
    }
  }

  /** Reading a line back: the first cell is the date, the last three are the
      card, category and amount, and the cells between, joined again at their
      commas and unquoted, give the description with its newlines as spaces. */
  lemma CsvRowReadBack(t: Transaction, amountText: real -> string)
    requires CommaFreeCells(t, amountText)
    ensures var cells := Split(CsvRow(t, amountText), ',');
      |cells| >= 5 && cells[0] == t.date &&
      cells[|cells| - 3..] == [CardCell(t), t.category, amountText(t.amount)] &&
      UnquoteField(Join(cells[1..|cells| - 3], ",")) == Some(NewlinesToSpaces(t.description))
  {
    var cells := Split(CsvRow(t, amountText), ',');
    var q := QuoteField(t.description);
    assert cells[1..|cells| - 3] == Split(q, ',');
    JoinSplit(q, ',');
    QuoteFieldRoundTrip(t.description);
  }

  function CsvRows(ts: seq<Transaction>, amountText: real -> string): (r: seq<string>)
    ensures |r| == |ts|
    ensures forall i :: 0 <= i < |ts| ==> r[i] == CsvRow(ts[i], amountText)
  {
    seq(|ts|, i requires 0 <= i < |ts| => CsvRow(ts[i], amountText))
  }

  /** `handleExport`'s text: nothing for an empty list, else the header line
      followed by one line per transaction; when no cell but the description
      holds a newline, splitting the text at its newlines gives exactly the
      header line and the rows. */
  function CsvContent(ts: seq<Transaction>, amountText: real -> string): (r: Option<string>)
    ensures r.None? <==> ts == []
    ensures r.Some? ==> IsPrefix(Join(Headers, ",") + "\n", r.value)
    ensures r.Some? && (forall i :: 0 <= i < |ts| ==> PlainCells(ts[i], amountText)) ==>
      Split(r.value, '\n') == [Join(Headers, ",")] + CsvRows(ts, amountText)
  {
    if ts == [] then None
    else
      var header := Join(Headers, ",");
      var rows := CsvRows(ts, amountText);
      var body := Join(rows, "\n");
      HeaderLine();
      SplitAround(header, body, '\n');
      Some(header + "\n" + body)
  }

  /** The cells written as they are: a line break in them would split the line. */
  predicate PlainCells(t: Transaction, amountText: real -> string) {
    '\n' !in t.date && '\n' !in CardCell(t) && '\n' !in t.category && '\n' !in amountText(t.amount)
  }

  /** No header name holds a comma or a newline. */
  lemma HeaderCellsPlain()
    ensures forall i :: 0 <= i < |Headers| ==> '\n' !in Headers[i] && ',' !in Headers[i]
  {
  }

  lemma HeaderNoNewline()
    ensures '\n' !in Join(Headers, ",")
  {
    HeaderCellsPlain();
  }

  /** The header line is one line of five cells. */
  lemma HeaderLine()
    ensures '\n' !in Join(Headers, ",") && CountChar(Join(Headers, ","), '\n') == 0
    ensures Split(Join(Headers, ","), ',') == Headers
    ensures Split(Join(Headers, ","), '\n') == [Join(Headers, ",")]
  {
    HeaderNoNewline();
    HeaderCellsPlain();
    CountCharAbsent(Join(Headers, ","), '\n');
    SplitNoSeparator(Join(Headers, ","), '\n');
  }

  /** When the unescaped cells hold no newline, the export has exactly one line
      per transaction after the header: |ts| newline characters in all. */
  lemma CsvLineCount(ts: seq<Transaction>, amountText: real -> string)
    requires ts != []
    requires forall i :: 0 <= i < |ts| ==> PlainCells(ts[i], amountText)
    ensures CsvContent(ts, amountText).Some?
    ensures CountChar(CsvContent(ts, amountText).value, '\n') == |ts|
  {
    var rows := CsvRows(ts, amountText);
    assert forall i :: 0 <= i < |rows| ==> '\n' !in rows[i];
    JoinCount(rows, '\n');
    var header := Join(Headers, ",");
    var body := Join(rows, "\n");
    HeaderLine();
    CountCharAppend(header, "\n", '\n');
    CountCharAppend(header + "\n", body, '\n');
    assert CountChar("\n", '\n') == 1;
  }
}
