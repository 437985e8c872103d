/**
 `BasicQuotationPdfRenderer` of backend/app/documents/quotation_pdf.py: the bytes it produces as a
 function of the pages, and the renderer in its own form, two loops that fill an object table and
 then extend a byte buffer and a list of offsets.
 */
module PdfWriter {
  import opened Sequences
  import opened Bytes
  import opened PdfText
  import opened PdfFile
  import opened PdfEscape

  const LINES_PER_PAGE: nat := 42

  type Page = seq<string>

  // -------------------------------------------------------- the bytes, by part

  /** `"\n".join(...)`. */
  function Join(words: seq<string>): string {
    if words == [] then [] else if |words| == 1 then words[0] else words[0] + "\n" + Join(words[1..])
  }

  function LineCommands(lines: Page): seq<string> {
    if lines == [] then [] else ["(" + Escape(lines[0]) + ") Tj", "T*"] + LineCommands(lines[1..])
  }

  function Commands(lines: Page): seq<string> {
    ["BT", "/F1 10 Tf", "42 800 Td", "14 TL"] + LineCommands(lines) + ["ET"]
  }

  function Content(lines: Page): seq<byte> {
    Latin1(Join(Commands(lines)))
  }

  function PageId(i: nat): nat {
    4 + 2 * i
  }

  /** `" ".join(f"{id} 0 R" for id in ids)`. */
  function JoinRefs(ids: seq<nat>): seq<byte> {
    if ids == [] then []
    else if |ids| == 1 then Dec(ids[0]) + Latin1(REF)
    else Dec(ids[0]) + Latin1(REF) + Latin1(" ") + JoinRefs(ids[1..])
  }

  function PageIds(n: nat): (r: seq<nat>)
    ensures |r| == n && forall i :: 0 <= i < n ==> r[i] == PageId(i)
  {
    seq(n, i requires 0 <= i < n => PageId(i))
  }

  const REF := " 0 R"
  const DICT_END := " >>"
  const CATALOG := "<< /Type /Catalog" + " /Pages "
  const FONT := "<<" + (" /Type /Font" + (" /Subtype /Type1" + " /BaseFont /Helvetica")) + " >>"
  const KIDS := "<< /Type /Pages" + " /Kids ["
  const COUNT := "] /Count "
  const PAGE := "<< /Type /Page" + " /Parent 2 0 R" + " /MediaBox [0 0 595 842]" + RESOURCES + " /Contents "
  const RESOURCES := " /Resources " + ("<<" + (" /Font " + ("<<" + " /F1 3 0 R" + " >>")) + " >>")
  const LENGTH := "<<" + " /Length "
  const STREAM := " >>" + BEGIN_STREAM
  const BEGIN_STREAM := "\nstream\n"
  const ENDSTREAM := "\nendstream"

  function CatalogBody(): seq<byte> {
    Latin1(CATALOG) + Dec(2) + Latin1(REF) + Latin1(DICT_END)
  }

  function PagesBody(n: nat): seq<byte> {
    Latin1(KIDS) + JoinRefs(PageIds(n)) + Latin1(COUNT) + Dec(n) + Latin1(DICT_END)
  }

  function PageBody(contentId: nat): seq<byte> {
    Latin1(PAGE) + Dec(contentId) + Latin1(REF) + Latin1(DICT_END)
  }

  function StreamBody(stream: seq<byte>): seq<byte> {
    Latin1(LENGTH) + Dec(|stream|) + Latin1(STREAM) + stream + Latin1(ENDSTREAM)
  }

  /** The last object number: three fixed objects and two per page. */
  function Last(n: nat): nat {
    3 + 2 * n
  }

  /** The bodies of a page's two objects. */
  datatype PageBodies = PageBodies(page: seq<byte>, content: seq<byte>)

  function BodiesOf(lines: Page, i: nat): PageBodies {
    PageBodies(PageBody(PageId(i) + 1), StreamBody(Content(lines)))
  }

  function Bodies(pages: seq<Page>): (r: seq<PageBodies>)
    ensures |r| == |pages|
  {
    seq(|pages|, i requires 0 <= i < |pages| => BodiesOf(pages[i], i))
  }

  lemma BodiesAt(pages: seq<Page>, i: nat)
    requires i < |pages|
    ensures Bodies(pages)[i] == BodiesOf(pages[i], i)
  {
  }

  /** A table with the objects of the first `k` pages added. */
  function Fill(fixed: Table, bodies: seq<PageBodies>, k: nat): Table
    requires k <= |bodies|
  {
    if k == 0 then fixed
    else WithPage(Fill(fixed, bodies, k - 1), k - 1, bodies[k - 1])
  }

  function WithPage(objects: Table, i: nat, bodies: PageBodies): Table {
    objects[PageId(i) := bodies.page][PageId(i) + 1 := bodies.content]
  }

  function Fixed(n: nat): Table {
    map[1 := CatalogBody(), 2 := PagesBody(n), 3 := Latin1(FONT)]
  }

  /** The object table of a document. */
  function Objects(pages: seq<Page>): Table {
    Fill(Fixed(|pages|), Bodies(pages), |pages|)
  }

  lemma {:induction false} FillComplete(fixed: Table, bodies: seq<PageBodies>, k: nat)
    requires k <= |bodies| && Complete(fixed, 3)
    ensures Complete(Fill(fixed, bodies, k), Last(k))
  {
    if k > 0 {
      FillComplete(fixed, bodies, k - 1);
    }
  }

  lemma {:induction false} FillKeeps(fixed: Table, bodies: seq<PageBodies>, k: nat, id: nat)
    requires k <= |bodies| && id in fixed && id <= 3
    ensures id in Fill(fixed, bodies, k) && Fill(fixed, bodies, k)[id] == fixed[id]
  {
    if k > 0 {
      FillKeeps(fixed, bodies, k - 1, id);
    }
  }

  lemma {:induction false} FillLookup(fixed: Table, bodies: seq<PageBodies>, k: nat, i: nat)
    requires i < k <= |bodies|
    ensures var o := Fill(fixed, bodies, k);
            && PageId(i) in o && o[PageId(i)] == bodies[i].page
            && PageId(i) + 1 in o && o[PageId(i) + 1] == bodies[i].content
  {
    if i < k - 1 {
      FillLookup(fixed, bodies, k - 1, i);
    }
  }

  lemma ObjectsComplete(pages: seq<Page>)
    ensures Complete(Objects(pages), Last(|pages|))
  {
    FillComplete(Fixed(|pages|), Bodies(pages), |pages|);
  }

  /** Every object number is used for exactly one thing. */
  lemma ObjectsLookup(pages: seq<Page>, i: nat)
    requires i < |pages|
    ensures var o := Objects(pages);
            && PageId(i) in o && o[PageId(i)] == PageBody(PageId(i) + 1)
            && PageId(i) + 1 in o && o[PageId(i) + 1] == StreamBody(Content(pages[i]))
  {
    FillLookup(Fixed(|pages|), Bodies(pages), |pages|, i);
    BodiesAt(pages, i);
  }

  lemma FixedObjects(pages: seq<Page>)
    ensures var o := Objects(pages);
            && 1 in o && o[1] == CatalogBody()
            && 2 in o && o[2] == PagesBody(|pages|)
            && 3 in o && o[3] == Latin1(FONT)
  {
    FillKeeps(Fixed(|pages|), Bodies(pages), |pages|, 1);
    FillKeeps(Fixed(|pages|), Bodies(pages), |pages|, 2);
    FillKeeps(Fixed(|pages|), Bodies(pages), |pages|, 3);
  }

  function Pdf(pages: seq<Page>): seq<byte> {
    ObjectsComplete(pages);
    File(Objects(pages), Last(|pages|))
  }

  // ------------------------------------------------------------ the renderer

  lemma LineCommandsSnoc(lines: Page, k: nat)
    requires k < |lines|
    ensures LineCommands(lines[..k + 1]) == LineCommands(lines[..k]) + ["(" + Escape(lines[k]) + ") Tj", "T*"]
  {
    if k == 0 {
      assert lines[..1][1..] == [];
    } else {
      LineCommandsSnoc(lines[1..], k - 1);
      assert lines[..k + 1][1..] == lines[1..][..k] && lines[..k][1..] == lines[1..][..k - 1];
    }
  }

  method PageContent(lines: Page) returns (stream: seq<byte>)
    ensures stream == Content(lines)
  {
    var commands := ["BT", "/F1 10 Tf", "42 800 Td", "14 TL"];
    for k := 0 to |lines|
      invariant commands == ["BT", "/F1 10 Tf", "42 800 Td", "14 TL"] + LineCommands(lines[..k])
    {
      LineCommandsSnoc(lines, k);
      commands := commands + ["(" + Escape(lines[k]) + ") Tj"];
      commands := commands + ["T*"];
    }
    assert lines[..|lines|] == lines;
    commands := commands + ["ET"];
    stream := Latin1(Join(commands));
  }

  /** Adds the two objects of page `index`. */
  method AddPage(objects: Table, pages: seq<Page>, index: nat) returns (more: Table)
    requires index < |pages|
    ensures more == WithPage(objects, index, Bodies(pages)[index])
  {
    var pageId := PageId(index);
    var contentId := pageId + 1;
    var stream := PageContent(pages[index]);
    more := objects[pageId := PageBody(contentId)];
    more := more[contentId := StreamBody(stream)];
    BodiesAt(pages, index);
  }

  /** The first half of `_build_pdf`: the object table, page by page. */
  method FillTable(pages: seq<Page>) returns (objects: Table)
    ensures objects == Objects(pages)
  {
    objects := Fixed(|pages|);
    for index := 0 to |pages|
      invariant objects == Fill(Fixed(|pages|), Bodies(pages), index)
    {
      objects := AddPage(objects, pages, index);
      FillNext(Fixed(|pages|), Bodies(pages), index);
    }
  }

  lemma FillNext(fixed: Table, bodies: seq<PageBodies>, k: nat)
    requires k < |bodies|
    ensures Fill(fixed, bodies, k + 1) == WithPage(Fill(fixed, bodies, k), k, bodies[k])
  {
  }

  /** `_build_pdf`. */
  method BuildPdf(pages: seq<Page>) returns (output: seq<byte>)
    ensures output == Pdf(pages)
  {
    var objects := FillTable(pages);
    ObjectsComplete(pages);
    output := WriteFile(objects, Last(|pages|));
  }

  // --------------------------------------------------------------- pagination

  /** Consecutive slices of at most `LINES_PER_PAGE` rows. */
  function Paginate(rows: seq<string>): (pages: seq<Page>)
    ensures forall p :: p in pages ==> 0 < |p| <= LINES_PER_PAGE
  {
    if |rows| <= LINES_PER_PAGE then (if rows == [] then [] else [rows])
    else [rows[..LINES_PER_PAGE]] + Paginate(rows[LINES_PER_PAGE..])
  }

  /** No row is lost, repeated or moved, and every page but the last is full. */
  lemma {:induction false} PaginationKeepsRows(rows: seq<string>)
    ensures Flatten(Paginate(rows)) == rows
    ensures forall i :: 0 <= i < |Paginate(rows)| - 1 ==> |Paginate(rows)[i]| == LINES_PER_PAGE
  {
    if |rows| > LINES_PER_PAGE {
      PaginationKeepsRows(rows[LINES_PER_PAGE..]);
      assert Paginate(rows)[1..] == Paginate(rows[LINES_PER_PAGE..]);
      assert forall i :: 1 <= i < |Paginate(rows)| - 1 ==> Paginate(rows)[i] == Paginate(rows[LINES_PER_PAGE..])[i - 1];
    } else if rows != [] {
      assert Flatten(Paginate(rows)) == rows + Flatten([]);
    }
  }
}
