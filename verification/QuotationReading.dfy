/**
 What a reader of the file learns: every field of the quotation stands behind its label, and every amount
 reads back as its sign and its hundredths.
 */
module QuotationReading {
  import opened Wrappers
  import opened Bytes
  import opened MoneyText
  import opened PdfText
  import opened PdfEscape
  import opened PdfContents
  import opened PdfDocuments
  import opened PdfReader
  import opened PdfWriter
  import opened QuotationPdf

  const SPACE_BYTE: byte := 32

  // -------------------------------------------------------------------- reading

  /** What follows the heading in the last row that starts with it. */
  function Under(text: seq<seq<byte>>, heading: string): Option<seq<byte>> {
    if text == [] then None
    else
      var last := text[|text| - 1];
      if Latin1(heading) <= last then Some(last[|heading|..]) else Under(text[..|text| - 1], heading)
  }

  /** Length of the longest run without spaces at the end. */
  function WordTail(b: seq<byte>): (k: nat)
    ensures k <= |b|
  {
    if b == [] || b[|b| - 1] == SPACE_BYTE then 0 else 1 + WordTail(b[..|b| - 1])
  }

  function LastWord(b: seq<byte>): string {
    Decode(b[|b| - WordTail(b)..])
  }

  /** Sign and hundredths of the amount a row ends with. */
  function AmountIn(row: seq<byte>): Option<(bool, nat)> {
    ReadAmount(LastWord(row))
  }

  function AmountUnder(text: seq<seq<byte>>, heading: string): Option<(bool, nat)> {
    var rest :- Under(text, heading);
    AmountIn(rest)
  }

  function Printed(d: Decimal): Option<(bool, nat)> {
    Some((d.negative, Cents(d)))
  }

  // ------------------------------------------------------------ bytes of a row

  lemma {:induction false} NormalizeBehind(a: seq<byte>, b: seq<byte>)
    requires CR !in a
    ensures NormalizeEol(a + b) == a + NormalizeEol(b)
  {
    if a == [] {
      assert a + b == b;
    } else {
      NormalizeBehind(a[1..], b);
      assert (a + b)[1..] == a[1..] + b && CR !in a[1..];
    }
  }

  lemma NormalizeCrLf(rest: seq<byte>)
    ensures NormalizeEol([CR, LF] + rest) == [LF] + NormalizeEol(rest)
  {
    assert ([CR, LF] + rest)[2..] == rest;
  }

  lemma NormalizeOne(first: byte, rest: seq<byte>)
    requires first != CR || rest == [] || rest[0] != LF
    ensures NormalizeEol([first] + rest) == [if first == CR then LF else first] + NormalizeEol(rest)
  {
    assert ([first] + rest)[1..] == rest;
  }

  lemma Reassociate(a: seq<byte>, b: seq<byte>, c: seq<byte>)
    ensures a + b + c == a + (b + c)
  {
  }

  /** Text that starts with neither half of an end of line is normalised on its own. */
  lemma {:induction false} NormalizeBefore(a: seq<byte>, b: seq<byte>)
    requires b != [] && b[0] != LF && b[0] != CR
    ensures NormalizeEol(a + b) == NormalizeEol(a) + NormalizeEol(b)
    decreases |a|
  {
    if a == [] {
      assert a + b == b;
    } else if |a| > 1 && a[0] == CR && a[1] == LF {
      var rest := a[2..];
      assert a == [CR, LF] + rest;
      NormalizeBefore(rest, b);
      NormalizeCrLf(rest);
      Reassociate([CR, LF], rest, b);
      NormalizeCrLf(rest + b);
      Reassociate([LF], NormalizeEol(rest), NormalizeEol(b));
    } else {
      var rest := a[1..];
      assert a == [a[0]] + rest && (rest != [] ==> rest[0] == a[1]);
      NormalizeBefore(rest, b);
      NormalizeOne(a[0], rest);
      Reassociate([a[0]], rest, b);
      NormalizeOne(a[0], rest + b);
      Reassociate([if a[0] == CR then LF else a[0]], NormalizeEol(rest), NormalizeEol(b));
    }
  }

  lemma LabelledText(heading: string, text: string)
    requires CR !in Latin1(heading)
    ensures RowText(heading + text) == Latin1(heading) + RowText(text)
  {
    Latin1Concat(heading, text);
    NormalizeBehind(Latin1(heading), Latin1(text));
  }

  lemma TextBefore(text: string, more: string)
    requires more != [] && more[0] as int < 256 && more[0] != '\n' && more[0] != '\r'
    ensures RowText(text + more) == RowText(text) + RowText(more)
  {
    Latin1Concat(text, more);
    NormalizeBefore(Latin1(text), Latin1(more));
  }

  lemma PlainText(text: string)
    requires CR !in Latin1(text)
    ensures RowText(text) == Latin1(text)
  {
    NormalizeWithoutCr(Latin1(text));
  }

  // ------------------------------------------------------------------- amounts

  predicate InAmount(c: char) {
    '0' <= c <= '9' || c == ',' || c == '.' || c == '-'
  }

  predicate AllInAmount(s: string) {
    forall i :: 0 <= i < |s| ==> InAmount(s[i])
  }

  lemma {:induction false} GroupIsPlain(digits: string)
    requires AllInAmount(digits)
    ensures AllInAmount(Group(digits))
  {
    if |digits| > 3 {
      GroupIsPlain(digits[..|digits| - 3]);
    }
  }

  lemma AmountIsPlain(d: Decimal)
    ensures AllInAmount(Amount(d))
  {
    var whole, part := Cents(d) / 100, Cents(d) % 100;
    DigitsRead(whole);
    HundredthsRead(part);
    GroupIsPlain(Digits(whole));
  }

  lemma PlainBytes(s: string)
    requires AllInAmount(s)
    ensures CR !in Latin1(s) && SPACE_BYTE !in Latin1(s) && Decode(Latin1(s)) == s
  {
  }

  lemma {:induction false} TailOfWord(front: seq<byte>, word: seq<byte>)
    requires SPACE_BYTE !in word
    ensures WordTail(front + [SPACE_BYTE] + word) == |word|
  {
    var b := front + [SPACE_BYTE] + word;
    if word == [] {
      assert b[|b| - 1] == SPACE_BYTE;
    } else {
      TailOfWord(front, word[..|word| - 1]);
      assert b[|b| - 1] == word[|word| - 1] && word[|word| - 1] in word;
      assert b[..|b| - 1] == front + [SPACE_BYTE] + word[..|word| - 1];
    }
  }

  lemma WordRead(front: seq<byte>, word: string)
    requires AllInAmount(word)
    ensures LastWord(front + [SPACE_BYTE] + Latin1(word)) == word
  {
    PlainBytes(word);
    TailOfWord(front, Latin1(word));
    var b := front + [SPACE_BYTE] + Latin1(word);
    assert b[|b| - |word|..] == Latin1(word);
  }

  lemma MoneyBytes(currency: string, d: Decimal)
    ensures RowText(Money(currency, d)) == RowText(currency) + [SPACE_BYTE] + Latin1(Amount(d))
  {
    AmountIsPlain(d);
    PlainBytes(Amount(d));
    Latin1Concat(" ", Amount(d));
    assert Latin1(" ") == [SPACE_BYTE];
    assert currency + " " + Amount(d) == currency + (" " + Amount(d));
    TextBefore(currency, " " + Amount(d));
    PlainText(" " + Amount(d));
    Reassociate(RowText(currency), [SPACE_BYTE], Latin1(Amount(d)));
  }

  lemma AmountBehind(front: seq<byte>, currency: string, d: Decimal)
    ensures AmountIn(front + RowText(Money(currency, d))) == Printed(d)
  {
    MoneyBytes(currency, d);
    AmountIsPlain(d);
    AmountRoundTrips(d);
    WordRead(front + RowText(currency), Amount(d));
    assert front + (RowText(currency) + [SPACE_BYTE] + Latin1(Amount(d)))
        == front + RowText(currency) + [SPACE_BYTE] + Latin1(Amount(d));
  }

  // ------------------------------------------------------------ rows by position

  lemma RowsByPart(q: Quotation)
    ensures |Rows(q)| == 18 + |q.lines|
    ensures forall k :: 0 <= k < 10 ==> Rows(q)[k] == Head(q)[k]
    ensures forall k :: 0 <= k < |q.lines| ==> Rows(q)[10 + k] == LineRow(q.currency, q.lines[k])
    ensures forall k :: 0 <= k < 8 ==> Rows(q)[10 + |q.lines| + k] == Totals(q)[k]
  {
  }

  lemma TextByRow(rows: seq<string>)
    ensures |PageText(rows)| == |rows| && forall k :: 0 <= k < |rows| ==> PageText(rows)[k] == RowText(rows[k])
  {
    forall k | 0 <= k < |rows| ensures |PageText(rows)| == |rows| && PageText(rows)[k] == RowText(rows[k]) {
      PageTextAt(rows, k);
    }
  }

  lemma {:induction false} UnderAt(text: seq<seq<byte>>, heading: string, k: nat)
    requires k < |text| && Latin1(heading) <= text[k]
    requires forall j :: k < j < |text| ==> !(Latin1(heading) <= text[j])
    ensures Under(text, heading) == Some(text[k][|heading|..])
  {
    if k < |text| - 1 {
      UnderAt(text[..|text| - 1], heading, k);
    }
  }

  lemma RowBegins(row: string)
    requires row != [] && row[0] != '\r'
    ensures RowText(row) != [] && RowText(row)[0] == ByteOf(row[0])
  {
  }

  predicate BeginsWith(row: string, letter: char) {
    row != [] && row[0] == letter
  }

  /** The rows behind the lines can be told apart by their first letters. */
  predicate TotalsBegin(rows: seq<string>) {
    && |rows| == 8 && rows[0] == [] && BeginsWith(rows[1], 'S') && BeginsWith(rows[2], 'D')
    && BeginsWith(rows[3], 'T') && BeginsWith(rows[4], 'F') && BeginsWith(rows[5], 'B')
    && rows[6] == [] && BeginsWith(rows[7], 'G')
  }

  lemma HeadedBegins(heading: string, text: string, letter: char)
    requires BeginsWith(heading, letter)
    ensures BeginsWith(heading + text, letter)
  {
  }

  lemma LettersOfLabels()
    ensures BeginsWith("Subtotal: ", 'S') && BeginsWith("Discount: ", 'D') && BeginsWith("Taxes: ", 'T')
    ensures BeginsWith("Final agreed value: ", 'F') && BeginsWith("Booking amount: ", 'B')
    ensures BeginsWith(CLOSING, 'G')
  {
    HeadedBegins("Generated from ", "the immutable quotation pricing snapshot.", 'G');
  }

  lemma EightRows(rows: seq<string>, a: string, b: string, c: string, d: string, e: string, closing: string)
    requires rows == ["", a, b, c, d, e, "", closing]
    requires BeginsWith(a, 'S') && BeginsWith(b, 'D') && BeginsWith(c, 'T') && BeginsWith(d, 'F') && BeginsWith(e, 'B')
    requires BeginsWith(closing, 'G')
    ensures TotalsBegin(rows)
  {
  }

  lemma TotalsAreHeaded(q: Quotation)
    ensures TotalsBegin(Totals(q))
  {
    TotalsOfAmounts(Totals(q), Money(q.currency, q.subtotal), Money(q.currency, q.discount), Money(q.currency, q.taxes),
                    Money(q.currency, q.finalAgreedValue), Money(q.currency, q.bookingAmount));
  }

  lemma TotalsOfAmounts(rows: seq<string>, a: string, b: string, c: string, d: string, e: string)
    requires rows == [ "", "Subtotal: " + a, "Discount: " + b, "Taxes: " + c, "Final agreed value: " + d,
                       "Booking amount: " + e, "", CLOSING ]
    ensures TotalsBegin(rows)
  {
    LettersOfLabels();
    HeadedBegins("Subtotal: ", a, 'S');
    HeadedBegins("Discount: ", b, 'D');
    HeadedBegins("Taxes: ", c, 'T');
    HeadedBegins("Final agreed value: ", d, 'F');
    HeadedBegins("Booking amount: ", e, 'B');
    EightRows(rows, rows[1], rows[2], rows[3], rows[4], rows[5], rows[7]);
  }

  predicate IsHeading(heading: string) {
    heading != [] && CR !in Latin1(heading)
  }

  predicate LettersDiffer(a: string, b: string) {
    a == [] || (b != [] && a[0] != b[0] && a[0] as int < 256 && a[0] != '\r' && b[0] as int < 256)
  }

  lemma LaterLettersDiffer(totals: seq<string>, j: nat, heading: string)
    requires TotalsBegin(totals) && 1 <= j <= 5 && heading != [] && heading[0] == totals[j][0]
    ensures forall i :: j < i < 8 ==> LettersDiffer(totals[i], heading)
  {
  }

  lemma NotUnder(row: string, heading: string)
    requires heading != [] && LettersDiffer(row, heading)
    ensures !(Latin1(heading) <= RowText(row))
  {
    if row != [] {
      RowBegins(row);
      assert Latin1(heading)[0] == ByteOf(heading[0]);
    }
  }

  /** The amount in the last row that starts with the heading. */
  lemma ReadsAmountUnder(rows: seq<string>, k: nat, heading: string, currency: string, d: Decimal)
    requires k < |rows| && IsHeading(heading) && rows[k] == heading + Money(currency, d)
    requires forall j :: k < j < |rows| ==> LettersDiffer(rows[j], heading)
    ensures AmountUnder(PageText(rows), heading) == Printed(d)
  {
    var text := PageText(rows);
    TextByRow(rows);
    forall j | k < j < |rows| ensures !(Latin1(heading) <= text[j]) {
      NotUnder(rows[j], heading);
    }
    LabelledText(heading, Money(currency, d));
    UnderAt(text, heading, k);
    assert text[k][|heading|..] == RowText(Money(currency, d));
    AmountBehind([], currency, d);
    assert [] + RowText(Money(currency, d)) == RowText(Money(currency, d));
  }

  /** The same for the row at `j` of the totals, whatever stands before them. */
  lemma ReadsTotal(rows: seq<string>, totals: seq<string>, m: nat, j: nat, heading: string, currency: string,
                   d: Decimal)
    requires TotalsBegin(totals) && |rows| == m + 8 && forall k :: 0 <= k < 8 ==> rows[m + k] == totals[k]
    requires 1 <= j <= 5 && totals[j] == heading + Money(currency, d) && IsHeading(heading)
    requires totals[j][0] == heading[0]
    ensures AmountUnder(PageText(rows), heading) == Printed(d)
  {
    LaterLettersDiffer(totals, j, heading);
    forall i | m + j < i < |rows| ensures LettersDiffer(rows[i], heading) {
      assert rows[m + (i - m)] == totals[i - m];
    }
    assert rows[m + j] == totals[j];
    ReadsAmountUnder(rows, m + j, heading, currency, d);
  }

  lemma ReadsSubtotal(q: Quotation)
    ensures AmountUnder(PageText(Rows(q)), "Subtotal: ") == Printed(q.subtotal)
  {
    RowsByPart(q);
    TotalsAreHeaded(q);
    ReadsTotal(Rows(q), Totals(q), 10 + |q.lines|, 1, "Subtotal: ", q.currency, q.subtotal);
  }

  lemma ReadsDiscount(q: Quotation)
    ensures AmountUnder(PageText(Rows(q)), "Discount: ") == Printed(q.discount)
  {
    RowsByPart(q);
    TotalsAreHeaded(q);
    ReadsTotal(Rows(q), Totals(q), 10 + |q.lines|, 2, "Discount: ", q.currency, q.discount);
  }

  lemma ReadsTaxes(q: Quotation)
    ensures AmountUnder(PageText(Rows(q)), "Taxes: ") == Printed(q.taxes)
  {
    RowsByPart(q);
    TotalsAreHeaded(q);
    ReadsTotal(Rows(q), Totals(q), 10 + |q.lines|, 3, "Taxes: ", q.currency, q.taxes);
  }

  lemma ReadsFinalValue(q: Quotation)
    ensures AmountUnder(PageText(Rows(q)), "Final agreed value: ") == Printed(q.finalAgreedValue)
  {
    RowsByPart(q);
    TotalsAreHeaded(q);
    ReadsTotal(Rows(q), Totals(q), 10 + |q.lines|, 4, "Final agreed value: ", q.currency, q.finalAgreedValue);
  }

  lemma ReadsBookingAmount(q: Quotation)
    ensures AmountUnder(PageText(Rows(q)), "Booking amount: ") == Printed(q.bookingAmount)
  {
    RowsByPart(q);
    TotalsAreHeaded(q);
    ReadsTotal(Rows(q), Totals(q), 10 + |q.lines|, 5, "Booking amount: ", q.currency, q.bookingAmount);
  }

  /** Behind the five labels a reader finds the five totals. */
  predicate ShowsTotals(text: seq<seq<byte>>, q: Quotation) {
    && AmountUnder(text, "Subtotal: ") == Printed(q.subtotal)
    && AmountUnder(text, "Discount: ") == Printed(q.discount)
    && AmountUnder(text, "Taxes: ") == Printed(q.taxes)
    && AmountUnder(text, "Final agreed value: ") == Printed(q.finalAgreedValue)
    && AmountUnder(text, "Booking amount: ") == Printed(q.bookingAmount)
  }

  lemma ReadsTotals(q: Quotation)
    ensures ShowsTotals(PageText(Rows(q)), q)
  {
    ReadsSubtotal(q);
    ReadsDiscount(q);
    ReadsTaxes(q);
    ReadsFinalValue(q);
    ReadsBookingAmount(q);
  }

  /** The heading of the document, field by field. */
  predicate ShowsHead(text: seq<seq<byte>>, q: Quotation) {
    && |text| >= 10
    && text[0] == RowText(q.organization) && text[1] == Latin1("QUOTATION")
    && text[2] == RowText(q.number) + Latin1("  |  Version ") + Latin1(Number(q.version))
    && text[4] == Latin1("Customer: ") + RowText(q.customer)
    && text[5] == Latin1("Project: ") + RowText(q.project)
    && text[6] == Latin1("Unit: ") + RowText(q.unit)
    && text[7] == Latin1("Valid until: ") + RowText(q.validUntil)
    && text[9] == Latin1("COST BREAKDOWN")
  }

  lemma NumberIsPlain(n: int)
    ensures CR !in Latin1(Number(n))
  {
    DecodedDigits(Dec(if n < 0 then -n else n));
  }

  lemma VersionRow(number: string, version: int)
    ensures RowText(number + "  |  Version " + Number(version))
              == RowText(number) + Latin1("  |  Version ") + Latin1(Number(version))
  {
    var tail := "  |  Version " + Number(version);
    assert number + "  |  Version " + Number(version) == number + tail;
    TextBefore(number, tail);
    LabelledText("  |  Version ", Number(version));
    NumberIsPlain(version);
    PlainText(Number(version));
    Reassociate(RowText(number), Latin1("  |  Version "), Latin1(Number(version)));
  }

  /** Rows without a field, and rows with a field behind a label. */
  lemma ReadsTitles()
    ensures RowText("QUOTATION") == Latin1("QUOTATION") && RowText("COST BREAKDOWN") == Latin1("COST BREAKDOWN")
  {
    PlainText("QUOTATION");
    PlainText("COST BREAKDOWN");
  }

  lemma ReadsFields(q: Quotation)
    ensures RowText("Customer: " + q.customer) == Latin1("Customer: ") + RowText(q.customer)
    ensures RowText("Project: " + q.project) == Latin1("Project: ") + RowText(q.project)
    ensures RowText("Unit: " + q.unit) == Latin1("Unit: ") + RowText(q.unit)
    ensures RowText("Valid until: " + q.validUntil) == Latin1("Valid until: ") + RowText(q.validUntil)
  {
    LabelledText("Customer: ", q.customer);
    LabelledText("Project: ", q.project);
    LabelledText("Unit: ", q.unit);
    LabelledText("Valid until: ", q.validUntil);
  }

  /** The rows of the heading as the renderer lists them. */
  predicate HeadRows(text: seq<seq<byte>>, q: Quotation) {
    && |text| >= 10
    && text[0] == RowText(q.organization) && text[1] == RowText("QUOTATION")
    && text[2] == RowText(q.number + "  |  Version " + Number(q.version))
    && text[4] == RowText("Customer: " + q.customer) && text[5] == RowText("Project: " + q.project)
    && text[6] == RowText("Unit: " + q.unit) && text[7] == RowText("Valid until: " + q.validUntil)
    && text[9] == RowText("COST BREAKDOWN")
  }

  lemma HeadOfRows(text: seq<seq<byte>>, head: seq<string>, q: Quotation)
    requires head == Head(q) && |text| >= 10 && forall k :: 0 <= k < 10 ==> text[k] == RowText(head[k])
    ensures HeadRows(text, q)
  {
  }

  lemma HeadByRow(q: Quotation)
    ensures HeadRows(PageText(Rows(q)), q)
  {
    RowsByPart(q);
    TextByRow(Rows(q));
    HeadOfRows(PageText(Rows(q)), Head(q), q);
  }

  lemma HeadShown(text: seq<seq<byte>>, q: Quotation)
    requires HeadRows(text, q)
    ensures ShowsHead(text, q)
  {
    ReadsTitles();
    VersionRow(q.number, q.version);
    ReadsFields(q);
  }

  lemma ReadsHead(q: Quotation)
    ensures ShowsHead(PageText(Rows(q)), q)
  {
    HeadByRow(q);
    HeadShown(PageText(Rows(q)), q);
  }

  /** Line `k` of the breakdown: its caption, and its amount at the end. */
  predicate ShowsLines(text: seq<seq<byte>>, q: Quotation) {
    && |text| == 18 + |q.lines|
    && forall k :: 0 <= k < |q.lines| ==>
         && RowText(q.lines[k].caption) + Latin1(": ") <= text[10 + k]
         && AmountIn(text[10 + k]) == Printed(q.lines[k].amount)
  }

  lemma ReadsLineRow(currency: string, line: Line)
    ensures RowText(line.caption) + Latin1(": ") <= RowText(LineRow(currency, line))
    ensures AmountIn(RowText(LineRow(currency, line))) == Printed(line.amount)
  {
    var tail := ": " + Money(currency, line.amount);
    assert LineRow(currency, line) == line.caption + tail;
    TextBefore(line.caption, tail);
    LabelledText(": ", Money(currency, line.amount));
    Reassociate(RowText(line.caption), Latin1(": "), RowText(Money(currency, line.amount)));
    AmountBehind(RowText(line.caption) + Latin1(": "), currency, line.amount);
  }

  lemma ReadsLineRows(q: Quotation)
    ensures ShowsLines(PageText(Rows(q)), q)
  {
    var text := PageText(Rows(q));
    RowsByPart(q);
    TextByRow(Rows(q));
    forall k | 0 <= k < |q.lines|
      ensures RowText(q.lines[k].caption) + Latin1(": ") <= text[10 + k]
      ensures AmountIn(text[10 + k]) == Printed(q.lines[k].amount)
    {
      ReadsLineRow(q.currency, q.lines[k]);
    }
  }

  /** A reader of the file finds every field behind its label and every amount of the quotation. */
  lemma QuotationReads(q: Quotation)
    ensures FitsTable(Paginate(Rows(q))) ==>
              var read := ReadPdf(Pdf(Paginate(Rows(q))));
              && read.Some?
              && ShowsHead(TextOf(read.value), q) && ShowsLines(TextOf(read.value), q)
              && ShowsTotals(TextOf(read.value), q)
  {
    QuotationRoundTrips(q);
    ReadsHead(q);
    ReadsLineRows(q);
    ReadsTotals(q);
  }
}
