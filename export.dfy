/**
 * The export service: the CSV text of the product list and the rows of
 * the per-session PDF tables. A date is printed as the stored calendar
 * date, which is what the browser prints at or east of UTC; the day
 * count comes from an explicit `today`.
 */
module Export {
  import opened Wrappers
  import opened Text
  import opened Seqs
  import opened Counting
  import opened ProductTypes
  import opened ProductUtils
  import StatusConstants

  /** `getStatusLabel`: the display name of a known status; any other status is shown as stored. */
  function StatusDisplay(status: string): string {
    if status == Normal then "Normal"
    else if status == FirstMarkdown then "Rebaixa 1"
    else if status == SecondMarkdown then "Rebaixa 2"
    else status
  }

  /**
   * The service's private label table agrees with the shared one, and a
   * status is shown as stored exactly when it is not one of the three.
   */
  lemma StatusDisplayMatchesTable(status: string)
    ensures StatusDisplay(status) == StatusConstants.GetStatusLabel(status)
    ensures StatusDisplay(status) == status <==> !IsKnownStatus(status)
  {
  }

  // ----------------------------------------------------------------- CSV

  const CsvHeaders := ["Sessão", "Produto", "Código de Barras", "Validade", "Dias Restantes", "Quantidade", "Status"]

  /** `format(date, 'dd/MM/yyyy')`. */
  function DayMonthYear(d: Date): string {
    PadNat(d.day, 2) + "/" + PadNat(d.month, 2) + "/" + PadNat(d.year, 4)
  }

  /** `p.barcode || fallback`: a missing or empty barcode shows the fallback. */
  function BarcodeOr(barcode: Option<string>, fallback: string): string {
    if barcode.Some? && barcode.value != "" then barcode.value else fallback
  }

  /** The seven cells of a product, in header order. */
  function CsvRow(p: Product, today: int): (r: seq<string>)
    ensures |r| == |CsvHeaders|
    ensures r[0] == p.brand && r[1] == p.name && r[2] == BarcodeOr(p.barcode, "-")
    ensures r[3] == DayMonthYear(p.expiry) && r[4] == IntToString(DaysUntilExpiry(p, today))
    ensures r[5] == IntToString(p.quantity) && r[6] == StatusDisplay(p.status)
  {
    [p.brand, p.name, BarcodeOr(p.barcode, "-"), DayMonthYear(p.expiry),
     IntToString(DaysUntilExpiry(p, today)), IntToString(p.quantity), StatusDisplay(p.status)]
  }

  /** `"${cell}"`: the cell between double quotes, inner quotes left as they are. */
  function Quote(cell: string): string {
    "\"" + cell + "\""
  }

  /** `row.map(cell => `"${cell}"`).join(',')`. */
  function CsvLine(row: seq<string>): string {
    Join(Map(row, Quote), ',')
  }

  /** The line of one product, as the service prints it. */
  function CsvLineOf(today: int): Product -> string {
    (p: Product) => CsvLine(CsvRow(p, today))
  }

  /** The header line: the column names joined by commas, without quotes. */
  function HeaderLine(): string {
    Join(CsvHeaders, ',')
  }

  /**
   * The lines of the file: the unquoted header line, then one line per
   * product, each cell of its row between quotes, inner quotes left as
   * they are.
   */
  function CsvLines(products: seq<Product>, today: int): (r: seq<string>)
    ensures |r| == |products| + 1
    ensures r[0] == HeaderLine()
    ensures forall i :: 0 <= i < |products| ==> r[i + 1] == CsvLine(CsvRow(products[i], today))
  {
    var header, rest := HeaderLine(), Map(products, CsvLineOf(today));
    assert ([header] + rest)[0] == header;
    [header] + rest
  }

  /** `csvContent`: the lines joined by '\n'. */
  function CsvContent(products: seq<Product>, today: int): string {
    Join(CsvLines(products, today), '\n')
  }

  /** The text written to the file: a byte-order mark, then the content. */
  function CsvDownload(products: seq<Product>, today: int): (r: string)
    ensures |r| == |CsvContent(products, today)| + 1
    ensures r[0] == '\U{FEFF}' && r[1..] == CsvContent(products, today)
  {
    "\U{FEFF}" + CsvContent(products, today)
  }

  /** The text fields of a product that reach the file verbatim hold no line break. */
  predicate SingleLineFields(p: Product) {
    && '\n' !in p.brand && '\n' !in p.name && '\n' !in p.status
    && (p.barcode.Some? ==> '\n' !in p.barcode.value)
  }

  lemma DigitsHaveNoNewline(s: string)
    requires AllDigits(s)
    ensures '\n' !in s
  {
  }

  lemma IntToStringNoNewline(i: int)
    ensures '\n' !in IntToString(i)
  {
    if i < 0 {
      DigitsHaveNoNewline(NatToString(-i));
    } else {
      DigitsHaveNoNewline(NatToString(i));
    }
  }

  lemma RowHasNoNewline(p: Product, today: int)
    requires SingleLineFields(p)
    ensures '\n' !in CsvLine(CsvRow(p, today))
  {
    var row := CsvRow(p, today);
    DigitsHaveNoNewline(PadNat(p.expiry.day, 2));
    DigitsHaveNoNewline(PadNat(p.expiry.month, 2));
    DigitsHaveNoNewline(PadNat(p.expiry.year, 4));
    IntToStringNoNewline(DaysUntilExpiry(p, today));
    IntToStringNoNewline(p.quantity);
    assert forall k :: 0 <= k < |row| ==> '\n' !in row[k];
    CellsHaveNoNewline(row);
  }

  lemma CellsHaveNoNewline(row: seq<string>)
    requires forall k :: 0 <= k < |row| ==> '\n' !in row[k]
    ensures '\n' !in CsvLine(row)
  {
    forall k | 0 <= k < |row| ensures '\n' !in Map(row, Quote)[k] {
      assert Map(row, Quote)[k] == "\"" + row[k] + "\"";
    }
    JoinAvoids(Map(row, Quote), ',', '\n');
  }

  lemma HeaderHasNoNewline()
    ensures '\n' !in Join(CsvHeaders, ',')
  {
    forall k | 0 <= k < |CsvHeaders| ensures '\n' !in CsvHeaders[k] {
    }
    JoinAvoids(CsvHeaders, ',', '\n');
  }

  /**
   * With no line break inside a field, splitting the content at '\n'
   * gives back the header line and one line per product: n products make
   * n + 1 lines.
   */
  lemma CsvContentLines(products: seq<Product>, today: int)
    requires forall i :: 0 <= i < |products| ==> SingleLineFields(products[i])
    ensures Split(CsvContent(products, today), '\n') == CsvLines(products, today)
    ensures |Split(CsvContent(products, today), '\n')| == |products| + 1
  {
    var lines := CsvLines(products, today);
    HeaderHasNoNewline();
    forall k | 0 <= k < |lines| ensures '\n' !in lines[k] {
      if k > 0 {
        assert lines[k] == Map(products, CsvLineOf(today))[k - 1];
        RowHasNoNewline(products[k - 1], today);
      }
    }
    SplitJoin(lines, '\n');
  }

  // ------------------------------------------------ reading a quoted field

  /**
   * Reads the body of a quoted field, up to its closing quote, as section
   * 2 rule 7 of RFC 4180 lays it out: two quotes in a row stand for one
   * quote. Gives the value and the text after the closing quote.
   */
  function ReadQuoted(s: string): (r: Option<(string, string)>)
    ensures r.Some? ==> |r.value.1| < |s|
  {
    if s == [] then None
    else if s[0] == '"' then
      if |s| >= 2 && s[1] == '"' then
        match ReadQuoted(s[2..])
        case None => None
        case Some(vr) => Some(("\"" + vr.0, vr.1))
      else Some(("", s[1..]))
    else
      match ReadQuoted(s[1..])
      case None => None
      case Some(vr) => Some(([s[0]] + vr.0, vr.1))
  }

  /** Reads a comma-separated line of quoted fields. */
  function ParseLine(s: string): Option<seq<string>>
    decreases |s|
  {
    if s == [] || s[0] != '"' then None
    else
      match ReadQuoted(s[1..])
      case None => None
      case Some(vr) =>
        if vr.1 == [] then Some([vr.0])
        else if vr.1[0] == ',' then
          match ParseLine(vr.1[1..])
          case None => None
          case Some(rest) => Some([vr.0] + rest)
        else None
  }

  /**
   * Two different rows give the same CSV line: the single cell `a","b`
   * prints exactly as the two cells `a` and `b`, so the line cannot be
   * read back.
   */
  lemma CsvLineAmbiguous()
    ensures CsvLine(["a\",\"b"]) == CsvLine(["a", "b"])
    ensures ["a\",\"b"] != ["a", "b"]
  {
    var one := Map(["a\",\"b"], Quote);
    var two := Map(["a", "b"], Quote);
    assert one == [Quote("a\",\"b")];
    assert two == [Quote("a"), Quote("b")];
    assert Join(two, ',') == Quote("a") + [','] + Quote("b");
  }

  /** `"${cell}"` with every inner quote doubled. */
  function EscapeQuotes(cell: string): (r: string)
    ensures |r| >= |cell|
    ensures forall c :: c in r ==> c in cell
  {
    if cell == [] then [] else (if cell[0] == '"' then "\"\"" else [cell[0]]) + EscapeQuotes(cell[1..])
  }

  function QuoteEscaped(cell: string): string {
    "\"" + EscapeQuotes(cell) + "\""
  }

  /** The line of a row with inner quotes doubled. */
  function CsvLineEscaped(row: seq<string>): string {
    Join(Map(row, QuoteEscaped), ',')
  }

  lemma {:induction false} ReadEscaped(cell: string, rest: string)
    requires rest == [] || rest[0] != '"'
    ensures ReadQuoted(EscapeQuotes(cell) + "\"" + rest) == Some((cell, rest))
  {
    var s := EscapeQuotes(cell) + "\"" + rest;
    if cell == [] {
      assert s == "\"" + rest;
      assert s[1..] == rest;
    } else {
      ReadEscaped(cell[1..], rest);
      var tail := EscapeQuotes(cell[1..]) + "\"" + rest;
      if cell[0] == '"' {
        assert s == "\"\"" + tail;
        assert s[2..] == tail;
        assert "\"" + cell[1..] == cell;
      } else {
        assert s == [cell[0]] + tail;
        assert s[1..] == tail;
        assert [cell[0]] + cell[1..] == cell;
      }
    }
  }

  /** With quotes doubled, every line reads back as the row it was printed from. */
  lemma {:induction false} CsvLineEscapedRoundTrip(row: seq<string>)
    requires |row| >= 1
    ensures ParseLine(CsvLineEscaped(row)) == Some(row)
    decreases |row|
  {
    var s := CsvLineEscaped(row);
    if |row| == 1 {
      assert s == QuoteEscaped(row[0]);
      LastFieldReads(row[0]);
      assert row == [row[0]];
    } else {
      var tail := CsvLineEscaped(row[1..]);
      EscapedLineCons(row);
      CsvLineEscapedRoundTrip(row[1..]);
      FieldThenLineReads(row[0], tail, row[1..]);
      assert [row[0]] + row[1..] == row;
    }
  }

  /** A line of two or more cells is its first quoted cell, a comma, and the line of the rest. */
  lemma EscapedLineCons(row: seq<string>)
    requires |row| >= 2
    ensures CsvLineEscaped(row) == QuoteEscaped(row[0]) + [','] + CsvLineEscaped(row[1..])
  {
    var cells := Map(row, QuoteEscaped);
    assert cells[1..] == Map(row[1..], QuoteEscaped);
    assert cells[0] == QuoteEscaped(row[0]);
  }

  lemma LastFieldReads(cell: string)
    ensures ParseLine(QuoteEscaped(cell)) == Some([cell])
  {
    var s := QuoteEscaped(cell);
    ReadEscaped(cell, []);
    assert s[1..] == EscapeQuotes(cell) + "\"" + [];
  }

  lemma FieldThenLineReads(cell: string, tail: string, rest: seq<string>)
    requires ParseLine(tail) == Some(rest)
    ensures ParseLine(QuoteEscaped(cell) + [','] + tail) == Some([cell] + rest)
  {
    var s := QuoteEscaped(cell) + [','] + tail;
    ReadEscaped(cell, [','] + tail);
    assert s[1..] == EscapeQuotes(cell) + "\"" + ([','] + tail);
    assert ([','] + tail)[1..] == tail;
  }

  /** Doubling quotes makes the line injective: different rows never print alike. */
  lemma CsvLineEscapedInjective(a: seq<string>, b: seq<string>)
    requires |a| >= 1 && |b| >= 1
    requires CsvLineEscaped(a) == CsvLineEscaped(b)
    ensures a == b
  {
    CsvLineEscapedRoundTrip(a);
    CsvLineEscapedRoundTrip(b);
  }

  lemma {:induction false} EscapeQuotesQuoteFree(cell: string)
    requires '"' !in cell
    ensures EscapeQuotes(cell) == cell
  {
    if cell != [] {
      EscapeQuotesQuoteFree(cell[1..]);
      assert [cell[0]] + cell[1..] == cell;
    }
  }

  /**
   * The line as printed is the corrected line whenever no cell holds a
   * quote, and then it reads back as its row: the ambiguity needs a quote.
   */
  lemma CsvLineQuoteFree(row: seq<string>)
    requires forall k :: 0 <= k < |row| ==> '"' !in row[k]
    ensures CsvLine(row) == CsvLineEscaped(row)
    ensures |row| >= 1 ==> ParseLine(CsvLine(row)) == Some(row)
  {
    forall k | 0 <= k < |row| ensures Map(row, Quote)[k] == Map(row, QuoteEscaped)[k] {
      EscapeQuotesQuoteFree(row[k]);
    }
    assert Map(row, Quote) == Map(row, QuoteEscaped);
    if |row| >= 1 {
      CsvLineEscapedRoundTrip(row);
    }
  }

  /** The text fields of a product that reach the file verbatim hold no double quote. */
  predicate QuoteFreeFields(p: Product) {
    && '"' !in p.brand && '"' !in p.name && '"' !in p.status
    && (p.barcode.Some? ==> '"' !in p.barcode.value)
  }

  lemma DigitsHaveNoQuote(s: string)
    requires AllDigits(s)
    ensures '"' !in s
  {
  }

  lemma IntToStringNoQuote(i: int)
    ensures '"' !in IntToString(i)
  {
    if i < 0 {
      DigitsHaveNoQuote(NatToString(-i));
    } else {
      DigitsHaveNoQuote(NatToString(i));
    }
  }

  /** A product line of the file reads back as the product's seven cells when its fields hold no quote. */
  lemma ProductLineReadsBack(p: Product, today: int)
    requires QuoteFreeFields(p)
    ensures ParseLine(CsvLineOf(today)(p)) == Some(CsvRow(p, today))
  {
    var row := CsvRow(p, today);
    DigitsHaveNoQuote(PadNat(p.expiry.day, 2));
    DigitsHaveNoQuote(PadNat(p.expiry.month, 2));
    DigitsHaveNoQuote(PadNat(p.expiry.year, 4));
    IntToStringNoQuote(DaysUntilExpiry(p, today));
    IntToStringNoQuote(p.quantity);
    assert forall k :: 0 <= k < |row| ==> '"' !in row[k];
    CsvLineQuoteFree(row);
  }

  // ----------------------------------------------------------------- PDF

  /** `format(date, 'dd/MM')`. */
  function DayMonth(d: Date): string {
    PadNat(d.day, 2) + "/" + PadNat(d.month, 2)
  }

  const PdfHeaders := ["Cód.", "Produto", "Val.", "Dias", "Qtd", "Preço", "Ação", "Resp."]
  const Placeholder := "______"

  /** One row of a session table: the data cells, then three blanks to fill in by hand. */
  function PdfRow(p: Product, today: int): (r: seq<string>)
    ensures |r| == |PdfHeaders|
    ensures r[0] == BarcodeOr(p.barcode, "—") && r[1] == p.name && r[2] == DayMonth(p.expiry)
    ensures r[3] == (if DaysUntilExpiry(p, today) < 0 then "X" else IntToString(DaysUntilExpiry(p, today)))
    ensures r[4] == IntToString(p.quantity)
    ensures r[5] == Placeholder && r[6] == Placeholder && r[7] == Placeholder
  {
    var days := DaysUntilExpiry(p, today);
    [BarcodeOr(p.barcode, "—"), p.name, DayMonth(p.expiry), if days < 0 then "X" else IntToString(days),
     IntToString(p.quantity), Placeholder, Placeholder, Placeholder]
  }

  function PdfRowOf(today: int): Product -> seq<string> {
    (p: Product) => PdfRow(p, today)
  }

  datatype PdfTable = PdfTable(title: string, rows: seq<seq<string>>)

  /**
   * The tables of `exportPDF`: one per session of the grouping, in the
   * order sessions first appear, titled with the upper-cased session.
   */
  function PdfTables(products: seq<Product>, today: int): (r: seq<PdfTable>)
    ensures |r| == |Dedup(Sessions(products))|
    ensures forall i :: 0 <= i < |r| ==>
      && r[i].title == ToUpper(Dedup(Sessions(products))[i])
      && |r[i].rows| == |Filter(products, InSession(Dedup(Sessions(products))[i]))|
  {
    var keys := Dedup(Sessions(products));
    seq(|keys|, i requires 0 <= i < |keys| =>
      PdfTable(ToUpper(keys[i]), Map(Filter(products, InSession(keys[i])), PdfRowOf(today))))
  }

  function TableRows(tables: seq<PdfTable>): nat {
    if tables == [] then 0 else |tables[0].rows| + TableRows(tables[1..])
  }

  lemma {:induction false} TableRowsMatchSizes(tables: seq<PdfTable>, sizes: seq<(string, nat)>)
    requires |tables| == |sizes|
    requires forall i :: 0 <= i < |tables| ==> |tables[i].rows| == sizes[i].1
    ensures TableRows(tables) == SumCounts(sizes)
  {
    if tables != [] {
      TableRowsMatchSizes(tables[1..], sizes[1..]);
    }
  }

  /** The tables hold every product once: their rows add up to the total printed in the footer. */
  lemma PdfTablesCoverProducts(products: seq<Product>, today: int)
    ensures TableRows(PdfTables(products, today)) == |products|
  {
    GroupSizesPartition(products);
    TableRowsMatchSizes(PdfTables(products, today), GroupSizes(products));
  }
}
