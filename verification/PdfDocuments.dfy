/** Whole documents: reading back what the renderer wrote gives every row of every page, in order. */
module PdfDocuments {
  import opened Wrappers
  import opened Bytes
  import opened PdfText
  import opened PdfContents
  import opened PdfFile
  import opened PdfObjects
  import opened PdfReader
  import opened PdfRoundTrip
  import opened PdfValues
  import opened PdfWriter

  // ------------------------------------------------------------------ objects

  lemma CatalogReads()
    ensures AllPrintable(CatalogEntries()) && HasType(CatalogEntries(), "Catalog")
    ensures ReferenceUnder(CatalogEntries(), "Pages") == Some(2)
  {
    RegularWord("Type");
    RegularWord("Catalog");
    RegularWord("Pages");
    LookupSkips(CatalogEntries(), "Pages", 1);
  }

  lemma {:induction false} TargetsOfReferences(ids: seq<nat>)
    ensures Targets(References(ids)) == Some(ids)
  {
    if ids != [] {
      TargetsOfReferences(ids[1..]);
      assert References(ids)[1..] == References(ids[1..]);
      assert ids == [ids[0]] + ids[1..];
    }
  }

  lemma PagesRead(n: nat)
    ensures AllPrintable(PagesEntries(n)) && HasType(PagesEntries(n), "Pages")
    ensures ReferencesUnder(PagesEntries(n), "Kids") == Some(PageIds(n))
    ensures NumberUnder(PagesEntries(n), "Count") == Some(n)
  {
    RegularWord("Type");
    RegularWord("Pages");
    RegularWord("Kids");
    RegularWord("Count");
    assert Latin1("Kids")[0] != Latin1("Type")[0];
    assert Printable(Array(References(PageIds(n))));
    LookupSkips(PagesEntries(n), "Kids", 1);
    LookupSkips(PagesEntries(n), "Count", 2);
    TargetsOfReferences(PageIds(n));
  }

  lemma LengthReads(n: nat)
    ensures AllPrintable(LengthEntries(n)) && NumberUnder(LengthEntries(n), "Length") == Some(n)
  {
    RegularWord("Length");
  }

  lemma StreamWords(stream: seq<byte>, end: seq<byte>)
    ensures Latin1(BEGIN_STREAM) + (stream + Latin1(ENDSTREAM)) + end
              == Latin1("\n") + (Latin1("stream\n") + (stream + (Latin1("\n") + (Latin1("endstream") + end))))
  {
    assert BEGIN_STREAM == "\n" + "stream\n" && ENDSTREAM == "\n" + "endstream";
    Latin1Concat("\n", "stream\n");
    Latin1Concat("\n", "endstream");
    StreamRegrouped(Latin1("\n"), Latin1("stream\n"), stream, Latin1("endstream"), end);
  }

  lemma StreamRegrouped(a: seq<byte>, b: seq<byte>, c: seq<byte>, d: seq<byte>, e: seq<byte>)
    ensures (a + b) + (c + (a + d)) + e == a + (b + (c + (a + (d + e))))
  {
  }

  /** /Length is the true length: the reader takes exactly the stream that was written. */
  lemma ReadsStream(stream: seq<byte>, after: seq<byte>)
    ensures ReadStream(Latin1("\n") + (StreamBody(stream) + (Latin1(ENDOBJ) + after)))
              == Parsed(stream, Latin1("\n") + after)
  {
    var end := Latin1(ENDOBJ) + after;
    var b2 := stream + (Latin1("\n") + (Latin1("endstream") + end));
    var b1 := Latin1("\n") + (Latin1("stream\n") + b2);
    LengthPrinted(stream);
    LengthReads(|stream|);
    StreamWords(stream, end);
    Regroup(Print(Dictionary(LengthEntries(|stream|))), Latin1(BEGIN_STREAM) + (stream + Latin1(ENDSTREAM)), end, []);
    StreamIsSafe(b2);
    ReadsDictionary(LengthEntries(|stream|), b1);
    ReadsStreamBytes(stream, end, b2);
    EndWord(after);
  }

  lemma StreamIsSafe(rest: seq<byte>)
    ensures SafeAfter(Latin1("\n") + (Latin1("stream\n") + rest))
    ensures Expect("stream\n", SkipSpace(Latin1("\n") + (Latin1("stream\n") + rest))) == Parsed((), rest)
  {
    var b := Latin1("stream\n") + rest;
    assert b[0] == Latin1("stream\n")[0] && b == [b[0]] + b[1..];
    LineIsSafe(b[0], b[1..]);
    SkipNewLine(b);
    ExpectWritten("stream\n", rest);
  }

  lemma ReadsStreamBytes(stream: seq<byte>, end: seq<byte>, b: seq<byte>)
    requires b == stream + (Latin1("\n") + (Latin1("endstream") + end))
    ensures |stream| <= |b| && b[..|stream|] == stream
    ensures Expect("endstream", SkipSpace(b[|stream|..])) == Parsed((), end)
  {
    var word := Latin1("endstream") + end;
    assert b[|stream|..] == Latin1("\n") + word;
    assert word[0] == Latin1("endstream")[0];
    SkipNewLine(word);
    ExpectWritten("endstream", end);
  }

  // ---------------------------------------------------------------- documents

  /** The file before its table is below 10^10 bytes. */
  predicate FitsTable(pages: seq<Page>) {
    ObjectsComplete(pages);
    Addressable(Objects(pages), Last(|pages|))
  }

  function PageTable(pages: seq<Page>): seq<XrefEntry> {
    ObjectsComplete(pages);
    TableOf(Objects(pages), Last(|pages|))
  }

  lemma PageReads(contentId: nat)
    ensures AllPrintable(PageEntries(contentId)) && HasType(PageEntries(contentId), "Page")
    ensures ReferenceUnder(PageEntries(contentId), "Parent") == Some(2)
    ensures ReferenceUnder(PageEntries(contentId), "Contents") == Some(contentId)
  {
    var d := PageEntries(contentId);
    PagePrintable(contentId);
    assert Latin1("MediaBox")[0] != Latin1("Contents")[0];
    LookupSkips(d, "Parent", 1);
    LookupSkips(d, "Contents", 4);
  }

  const A4: seq<nat> := [0, 0, 595, 842]

  lemma {:induction false} AmountsOfNumbers(ns: seq<nat>, items: seq<Value>)
    requires |items| == |ns| && forall i :: 0 <= i < |ns| ==> items[i] == Number(ns[i])
    ensures Amounts(items) == Some(ns)
  {
    if ns != [] {
      AmountsOfNumbers(ns[1..], items[1..]);
      assert ns == [ns[0]] + ns[1..];
    }
  }

  lemma PageShows(contentId: nat)
    ensures NumbersUnder(PageEntries(contentId), "MediaBox") == Some(A4)
    ensures FontsOf(PageEntries(contentId)) == Some([Key("F1", Reference(3, 0))])
  {
    var d := PageEntries(contentId);
    assert Latin1("Type")[0] != Latin1("MediaBox")[0] && Latin1("Parent")[0] != Latin1("MediaBox")[0];
    LookupSkips(d, "MediaBox", 2);
    AmountsOfNumbers(A4, MediaBox().items);
    assert Latin1("Type")[0] != Latin1("Resources")[0] && Latin1("Parent")[0] != Latin1("Resources")[0]
           && Latin1("MediaBox")[0] != Latin1("Resources")[0];
    LookupSkips(d, "Resources", 3);
  }

  lemma ResourcesPrintable()
    ensures Printable(Resources())
  {
    RegularF1();
    RegularWord("Font");
    assert PrintableEntry(Key("F1", Reference(3, 0)));
    assert PrintableEntry(Key("Font", Dictionary([Key("F1", Reference(3, 0))])));
  }

  lemma RegularF1()
    ensures RegularText(Latin1("F1"))
  {
  }

  lemma PagePrintable(contentId: nat)
    ensures AllPrintable(PageEntries(contentId))
  {
    RegularWord("Type");
    RegularWord("Page");
    RegularWord("Parent");
    RegularWord("MediaBox");
    RegularWord("Resources");
    RegularWord("Contents");
    ResourcesPrintable();
    assert Printable(MediaBox());
  }

  lemma PageDictionary(objects: Table, n: nat, id: nat, contentId: nat)
    requires Complete(objects, n) && Addressable(objects, n) && 1 <= id <= n && objects[id] == PageBody(contentId)
    ensures DictionaryOfType(File(objects, n), TableOf(objects, n), id, "Page") == Some(PageEntries(contentId))
  {
    PagePrinted(contentId);
    PageReads(contentId);
    ReadsDictionaryObject(objects, n, id, PageEntries(contentId));
  }

  lemma PageStream(objects: Table, n: nat, id: nat, lines: Page)
    requires Complete(objects, n) && Addressable(objects, n) && 1 <= id <= n
    requires objects[id] == StreamBody(Content(lines))
    ensures ReadRows(File(objects, n), TableOf(objects, n), id) == Some(Layout(lines, Latin1("F1"), 0))
  {
    FindsObject(objects, n, id);
    ReadsStream(Content(lines), After(objects, n, id));
    ReadsContent(lines);
  }

  lemma RegularType1()
    ensures RegularText(Latin1("Type1"))
  {
  }

  lemma FontReads()
    ensures AllPrintable(FontEntries()) && HasType(FontEntries(), "Font")
    ensures NameUnder(FontEntries(), "Subtype") == Some(Latin1("Type1"))
    ensures NameUnder(FontEntries(), "BaseFont") == Some(Latin1("Helvetica"))
  {
    RegularWord("Type");
    RegularWord("Font");
    RegularWord("Subtype");
    RegularWord("BaseFont");
    RegularWord("Helvetica");
    RegularType1();
    assert Latin1("Type")[0] != Latin1("Subtype")[0] && Latin1("Type")[0] != Latin1("BaseFont")[0]
           && Latin1("Subtype")[0] != Latin1("BaseFont")[0];
    LookupSkips(FontEntries(), "Subtype", 1);
    LookupSkips(FontEntries(), "BaseFont", 2);
  }

  lemma FontFromParts(b: seq<byte>, table: seq<XrefEntry>)
    ensures DictionaryAt(b, table, 3) == Some(FontEntries()) ==>
              BaseFont(b, table, [Key("F1", Reference(3, 0))], Latin1("F1")) == Some(Latin1("Helvetica"))
  {
    FontReads();
    assert Decode(Latin1("F1")) == "F1";
  }

  /** The name the rows are set in leads to Helvetica. */
  lemma FindsFont(objects: Table, n: nat)
    requires Complete(objects, n) && Addressable(objects, n) && 3 <= n && objects[3] == Latin1(FONT)
    ensures BaseFont(File(objects, n), TableOf(objects, n), [Key("F1", Reference(3, 0))], Latin1("F1"))
              == Some(Latin1("Helvetica"))
  {
    FontPrinted();
    FontReads();
    ReadsDictionaryObject(objects, n, 3, FontEntries());
    FontFromParts(File(objects, n), TableOf(objects, n));
  }

  /** What a reader makes of a page: every line in Helvetica at its place on A4. */
  function PageViewOf(lines: Page): PageView {
    PageView(A4, Layout(lines, Latin1("Helvetica"), 0))
  }

  function DocumentView(pages: seq<Page>): (r: seq<PageView>)
    ensures |r| == |pages|
  {
    seq(|pages|, i requires 0 <= i < |pages| => PageViewOf(pages[i]))
  }

  lemma {:induction false} CollectsAll<T>(parts: seq<Option<T>>, values: seq<T>)
    requires |parts| == |values| && forall i :: 0 <= i < |parts| ==> parts[i] == Some(values[i])
    ensures Collect(parts) == Some(values)
  {
    if parts != [] {
      CollectsAll(parts[1..], values[1..]);
      assert values == [values[0]] + values[1..];
    }
  }

  lemma RowInBaseFont(b: seq<byte>, table: seq<XrefEntry>, fonts: seq<Entry>, row: string, name: seq<byte>,
                      face: seq<byte>, i: nat)
    requires BaseFont(b, table, fonts, name) == Some(face)
    ensures InBaseFont(b, table, fonts, RowAt(row, name, i)) == Some(RowAt(row, face, i))
  {
  }

  lemma {:induction false} RowsInBaseFont(b: seq<byte>, table: seq<XrefEntry>, fonts: seq<Entry>, lines: Page,
                                          name: seq<byte>, face: seq<byte>, i: nat)
    requires BaseFont(b, table, fonts, name) == Some(face)
    ensures AllInBaseFont(b, table, fonts, Layout(lines, name, i)) == Some(Layout(lines, face, i))
    decreases |lines|
  {
    if lines != [] {
      RowInBaseFont(b, table, fonts, lines[0], name, face, i);
      RowsInBaseFont(b, table, fonts, lines[1..], name, face, i + 1);
    }
  }

  lemma PageFromParts(b: seq<byte>, table: seq<XrefEntry>, id: nat, contentId: nat, lines: Page)
    ensures (&& DictionaryOfType(b, table, id, "Page") == Some(PageEntries(contentId))
             && ReadRows(b, table, contentId) == Some(Layout(lines, Latin1("F1"), 0))
             && BaseFont(b, table, [Key("F1", Reference(3, 0))], Latin1("F1")) == Some(Latin1("Helvetica")))
            ==> ReadOnePage(b, table, 2, id) == Some(PageViewOf(lines))
  {
    PageReads(contentId);
    PageShows(contentId);
    if BaseFont(b, table, [Key("F1", Reference(3, 0))], Latin1("F1")) == Some(Latin1("Helvetica")) {
      RowsInBaseFont(b, table, [Key("F1", Reference(3, 0))], lines, Latin1("F1"), Latin1("Helvetica"), 0);
    }
  }

  lemma ReadsOnePage(objects: Table, n: nat, id: nat, contentId: nat, lines: Page)
    requires Complete(objects, n) && Addressable(objects, n) && 1 <= id <= n && 1 <= contentId <= n && 3 <= n
    requires objects[id] == PageBody(contentId) && objects[contentId] == StreamBody(Content(lines))
    requires objects[3] == Latin1(FONT)
    ensures ReadOnePage(File(objects, n), TableOf(objects, n), 2, id) == Some(PageViewOf(lines))
  {
    PageDictionary(objects, n, id, contentId);
    PageStream(objects, n, contentId, lines);
    FindsFont(objects, n);
    PageFromParts(File(objects, n), TableOf(objects, n), id, contentId, lines);
  }

  lemma TreeFromParts(b: seq<byte>, file: Opened, catalog: seq<Entry>, node: nat, pages: seq<Entry>, kids: seq<nat>)
    ensures (&& DictionaryOfType(b, file.table, file.root, "Catalog") == Some(catalog)
             && ReferenceUnder(catalog, "Pages") == Some(node)
             && DictionaryOfType(b, file.table, node, "Pages") == Some(pages)
             && ReferencesUnder(pages, "Kids") == Some(kids)
             && NumberUnder(pages, "Count") == Some(|kids|))
            ==> ReadPageTree(b, file) == Some(PageTree(node, kids))
  {
  }

  lemma ReadsPageTree(pages: seq<Page>)
    requires FitsTable(pages)
    ensures ReadPageTree(Pdf(pages), Opened(PageTable(pages), 1)) == Some(PageTree(2, PageIds(|pages|)))
  {
    var n := |pages|;
    var objects := Objects(pages);
    ObjectsComplete(pages);
    FixedObjects(pages);
    CatalogPrinted();
    CatalogReads();
    ReadsDictionaryObject(objects, Last(n), 1, CatalogEntries());
    PagesPrinted(n);
    PagesRead(n);
    ReadsDictionaryObject(objects, Last(n), 2, PagesEntries(n));
    TreeFromParts(Pdf(pages), Opened(PageTable(pages), 1), CatalogEntries(), 2, PagesEntries(n), PageIds(n));
  }

  predicate TableOfPages(objects: Table, pages: seq<Page>) {
    objects == Objects(pages) && Complete(objects, Last(|pages|)) && Addressable(objects, Last(|pages|))
  }

  lemma ReadsPageAt(objects: Table, pages: seq<Page>, i: nat)
    requires TableOfPages(objects, pages) && i < |pages|
    ensures ReadOnePage(File(objects, Last(|pages|)), TableOf(objects, Last(|pages|)), 2, PageId(i))
              == Some(PageViewOf(pages[i]))
  {
    ObjectsLookup(pages, i);
    FixedObjects(pages);
    ReadsOnePage(objects, Last(|pages|), PageId(i), PageId(i) + 1, pages[i]);
  }

  lemma ReadsEachPage(b: seq<byte>, table: seq<XrefEntry>, objects: Table, pages: seq<Page>)
    requires TableOfPages(objects, pages) && b == File(objects, Last(|pages|))
    requires table == TableOf(objects, Last(|pages|))
    ensures forall i :: 0 <= i < |pages| ==> ReadOnePage(b, table, 2, PageId(i)) == Some(PageViewOf(pages[i]))
  {
    forall i | 0 <= i < |pages| ensures ReadOnePage(b, table, 2, PageId(i)) == Some(PageViewOf(pages[i])) {
      ReadsPageAt(objects, pages, i);
    }
  }

  lemma ReadsPages(b: seq<byte>, table: seq<XrefEntry>, pages: seq<Page>)
    requires forall i :: 0 <= i < |pages| ==> ReadOnePage(b, table, 2, PageId(i)) == Some(PageViewOf(pages[i]))
    ensures ReadPages(b, table, PageTree(2, PageIds(|pages|))) == Some(DocumentView(pages))
  {
    var ids := PageIds(|pages|);
    CollectsAll(seq(|ids|, i requires 0 <= i < |ids| => ReadOnePage(b, table, 2, ids[i])), DocumentView(pages));
  }

  lemma PdfFromParts(b: seq<byte>, file: Opened, tree: PageTree, views: seq<PageView>)
    ensures (&& HasHeader(b)
             && Open(b) == Some(file)
             && ReadPageTree(b, file) == Some(tree)
             && ReadPages(b, file.table, tree) == Some(views))
            ==> ReadPdf(b) == Some(views)
  {
  }

  /**
   The round trip: whatever pages the writer is given, a reader that demands the header of a PDF file, starts
   at its end and follows `startxref`, the table, the trailer's /Root and the references of the dictionaries
   recovers all rows of all pages in order, each in 10 point Helvetica at its own place on an A4 page.
   */
  lemma PdfRoundTrips(pages: seq<Page>)
    requires FitsTable(pages)
    ensures ReadPdf(Pdf(pages)) == Some(DocumentView(pages))
  {
    var n := |pages|;
    var objects := Objects(pages);
    ObjectsComplete(pages);
    StartsAsPdf(objects, Last(n));
    OpensWritten(objects, Last(n));
    ReadsPageTree(pages);
    ReadsEachPage(Pdf(pages), PageTable(pages), objects, pages);
    ReadsPages(Pdf(pages), PageTable(pages), pages);
    PdfFromParts(Pdf(pages), Opened(PageTable(pages), 1), PageTree(2, PageIds(n)), DocumentView(pages));
  }
}
