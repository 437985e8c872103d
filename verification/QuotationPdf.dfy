/**
 `BasicQuotationPdfRenderer.render`: the rows of a quotation, cut into pages and written as a file.
 */
module QuotationPdf {
  import opened MoneyText
  import opened Sequences
  import opened Bytes
  import opened PdfText
  import opened PdfWriter
  import opened PdfGraphics
  import opened PdfReader
  import opened PdfContents
  import opened PdfDocuments
  import opened PdfSizes

  datatype Line = Line(caption: string, amount: Decimal)

  datatype Quotation = Quotation(
    organization: string,
    number: string,
    version: int,
    customer: string,
    project: string,
    unit: string,
    currency: string,
    validUntil: string,
    lines: seq<Line>,
    subtotal: Decimal,
    discount: Decimal,
    taxes: Decimal,
    finalAgreedValue: Decimal,
    bookingAmount: Decimal
  )

  function Number(n: int): string {
    if n < 0 then "-" + Decode(Dec(-n)) else Decode(Dec(n))
  }

  function Head(q: Quotation): seq<string> {
    [ q.organization,
      "QUOTATION",
      q.number + "  |  Version " + Number(q.version),
      "",
      "Customer: " + q.customer,
      "Project: " + q.project,
      "Unit: " + q.unit,
      "Valid until: " + q.validUntil,
      "",
      "COST BREAKDOWN" ]
  }

  function LineRow(currency: string, line: Line): string {
    line.caption + ": " + Money(currency, line.amount)
  }

  function LineRows(currency: string, lines: seq<Line>): (r: seq<string>)
    ensures |r| == |lines|
  {
    seq(|lines|, i requires 0 <= i < |lines| => LineRow(currency, lines[i]))
  }

  const CLOSING := "Generated from " + "the immutable quotation pricing snapshot."

  function Totals(q: Quotation): seq<string> {
    [ "",
      "Subtotal: " + Money(q.currency, q.subtotal),
      "Discount: " + Money(q.currency, q.discount),
      "Taxes: " + Money(q.currency, q.taxes),
      "Final agreed value: " + Money(q.currency, q.finalAgreedValue),
      "Booking amount: " + Money(q.currency, q.bookingAmount),
      "",
      CLOSING ]
  }

  function Rows(q: Quotation): seq<string> {
    Head(q) + LineRows(q.currency, q.lines) + Totals(q)
  }

  method ListRows(q: Quotation) returns (rows: seq<string>)
    ensures rows == Rows(q)
  {
    rows := Head(q);
    for k := 0 to |q.lines|
      invariant rows == Head(q) + LineRows(q.currency, q.lines)[..k]
    {
      rows := rows + [LineRow(q.currency, q.lines[k])];
    }
    assert LineRows(q.currency, q.lines)[..|q.lines|] == LineRows(q.currency, q.lines);
    rows := rows + Totals(q);
  }

  /** `rows[index : index + lines_per_page]`, which stops at the end of the list. */
  function Slice(rows: seq<string>, index: nat): Page
    requires index <= |rows|
  {
    if index + LINES_PER_PAGE < |rows| then rows[index..index + LINES_PER_PAGE] else rows[index..]
  }

  function PagesFrom(rows: seq<string>, index: nat): seq<Page> {
    if index < |rows| then Paginate(rows[index..]) else []
  }

  lemma NextPage(rows: seq<string>, index: nat)
    requires index < |rows|
    ensures PagesFrom(rows, index) == [Slice(rows, index)] + PagesFrom(rows, index + LINES_PER_PAGE)
  {
    var rest := rows[index..];
    if |rest| > LINES_PER_PAGE {
      assert rest[..LINES_PER_PAGE] == Slice(rows, index);
      assert rest[LINES_PER_PAGE..] == rows[index + LINES_PER_PAGE..];
    }
  }

  method CutPages(rows: seq<string>) returns (pages: seq<Page>)
    ensures pages == Paginate(rows)
  {
    pages := [];
    var index := 0;
    assert rows[0..] == rows;
    while index < |rows|
      invariant pages + PagesFrom(rows, index) == Paginate(rows)
    {
      NextPage(rows, index);
      ghost var later := PagesFrom(rows, index + LINES_PER_PAGE);
      assert pages + ([Slice(rows, index)] + later) == pages + [Slice(rows, index)] + later;
      pages := pages + [Slice(rows, index)];
      index := index + LINES_PER_PAGE;
    }
  }

  method Render(q: Quotation) returns (output: seq<byte>)
    ensures output == Pdf(Paginate(Rows(q)))
  {
    var rows := ListRows(q);
    var pages := CutPages(rows);
    output := BuildPdf(pages);
  }

  /** Row `r` stands on page `r / 42`, at line `r % 42`. */
  lemma {:induction false} RowPlace(rows: seq<string>, r: nat)
    requires r < |rows|
    ensures r / LINES_PER_PAGE < |Paginate(rows)|
    ensures r % LINES_PER_PAGE < |Paginate(rows)[r / LINES_PER_PAGE]|
    ensures Paginate(rows)[r / LINES_PER_PAGE][r % LINES_PER_PAGE] == rows[r]
  {
    if r >= LINES_PER_PAGE {
      RowPlace(rows[LINES_PER_PAGE..], r - LINES_PER_PAGE);
    }
  }

  lemma PageTextAt(lines: Page, i: nat)
    requires i < |lines|
    ensures |PageText(lines)| == |lines| && PageText(lines)[i] == RowText(lines[i])
  {
    if |lines| > 1 {
      PageTextAt(lines[1..], if i > 0 then i - 1 else 0);
    }
  }

  lemma {:induction false} PageTextConcat(a: Page, b: Page)
    ensures PageText(a + b) == PageText(a) + PageText(b)
  {
    if a == [] {
      assert a + b == b;
    } else {
      assert (a + b)[1..] == a[1..] + b;
      PageTextConcat(a[1..], b);
    }
  }

  function Texts(rows: seq<Placed>): seq<seq<byte>> {
    seq(|rows|, i requires 0 <= i < |rows| => rows[i].text)
  }

  /** The text of a document, page after page. */
  function TextOf(views: seq<PageView>): seq<seq<byte>> {
    if views == [] then [] else Texts(views[0].rows) + TextOf(views[1..])
  }

  lemma TextsOfLayout(lines: Page)
    ensures Texts(PageViewOf(lines).rows) == PageText(lines)
  {
    forall i | 0 <= i < |lines| ensures Texts(PageViewOf(lines).rows)[i] == PageText(lines)[i] {
      LayoutAt(lines, Latin1("Helvetica"), 0, i);
      PageTextAt(lines, i);
    }
    if lines != [] {
      PageTextAt(lines, 0);
    }
  }

  lemma {:induction false} TextOfDocument(pages: seq<Page>)
    ensures TextOf(DocumentView(pages)) == PageText(Flatten(pages))
  {
    if pages != [] {
      TextsOfLayout(pages[0]);
      TextOfDocument(pages[1..]);
      assert DocumentView(pages)[1..] == DocumentView(pages[1..]);
      PageTextConcat(pages[0], Flatten(pages[1..]));
    }
  }

  /** The rows of a page lie inside its box, from top to bottom, and none runs into the one above. */
  predicate InsideBox(v: PageView) {
    && |v.box| == 4
    && (forall i :: 0 <= i < |v.rows| ==>
          v.box[0] <= v.rows[i].x && v.box[1] <= v.rows[i].y && v.rows[i].y + v.rows[i].size <= v.box[3])
    && (forall i, j :: 0 <= i < j < |v.rows| ==> v.rows[i].y - v.rows[j].y >= v.rows[j].size)
  }

  lemma PageInsideBox(lines: Page)
    requires |lines| <= LINES_PER_PAGE
    ensures InsideBox(PageViewOf(lines))
  {
    forall i | 0 <= i < |lines| ensures PageViewOf(lines).rows[i] == RowAt(lines[i], Latin1("Helvetica"), i) {
      LayoutAt(lines, Latin1("Helvetica"), 0, i);
    }
  }

  /** Whether a reader of the file finds the rows in order, none missing, all of them inside their page. */
  predicate ComesBack(rows: seq<string>) {
    var read := ReadPdf(Pdf(Paginate(rows)));
    && read.Some?
    && TextOf(read.value) == PageText(rows)
    && forall i :: 0 <= i < |read.value| ==> 0 < |read.value[i].rows| <= LINES_PER_PAGE && InsideBox(read.value[i])
  }

  lemma RowsRoundTrip(rows: seq<string>)
    requires FitsTable(Paginate(rows))
    ensures ComesBack(rows)
  {
    var pages := Paginate(rows);
    PdfRoundTrips(pages);
    TextOfDocument(pages);
    PaginationKeepsRows(rows);
    forall i | 0 <= i < |pages|
      ensures 0 < |DocumentView(pages)[i].rows| <= LINES_PER_PAGE && InsideBox(DocumentView(pages)[i])
    {
      assert pages[i] in pages;
      PageInsideBox(pages[i]);
    }
  }

  /** Any quotation comes back whole when its file fits the table. */
  lemma QuotationRoundTrips(q: Quotation)
    ensures FitsTable(Paginate(Rows(q))) ==> ComesBack(Rows(q))
  {
    if FitsTable(Paginate(Rows(q))) {
      RowsRoundTrip(Rows(q));
    }
  }

  /** The same from the rows alone: no quotation of moderate size is too large for its table. */
  lemma ModerateQuotationRoundTrips(q: Quotation)
    ensures Moderate(Rows(q)) ==> FitsTable(Paginate(Rows(q))) && ComesBack(Rows(q))
  {
    if Moderate(Rows(q)) {
      ModerateRowsFit(Rows(q));
      RowsRoundTrip(Rows(q));
    }
  }
}
