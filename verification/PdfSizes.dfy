/** How long a file gets, from the lengths of its rows: a bound a caller can check before rendering. */
module PdfSizes {
  import opened PdfText
  import opened PdfEscape
  import opened PdfFile
  import opened PdfWriter
  import opened PdfContents
  import opened PdfDocuments

  function Characters(rows: seq<string>): nat {
    if rows == [] then 0 else |rows[0]| + Characters(rows[1..])
  }

  /** Twice the characters, since each may be escaped, and a little for every row and for the file. */
  predicate Moderate(rows: seq<string>) {
    2 * Characters(rows) + 20 * |rows| + 1000 < Pow10(10)
  }

  // ------------------------------------------------------------ content streams

  lemma {:induction false} EscapeAtMostDoubles(s: string)
    ensures |OnePass(s)| <= 2 * |s|
  {
    if s != [] {
      EscapeAtMostDoubles(s[1..]);
    }
  }

  lemma EscapedSize(s: string)
    ensures |Escape(s)| <= 2 * |s|
  {
    EscapeIsOnePass(s);
    EscapeAtMostDoubles(Safe(s));
  }

  /** An upper bound of what the rows take in their content stream. */
  function TextSize(lines: Page): nat {
    2 * Characters(lines) + 9 * |lines|
  }

  lemma {:induction false} ShownSize(lines: Page)
    ensures |Shown(lines)| <= TextSize(lines) + 2
  {
    if lines != [] {
      EscapedSize(lines[0]);
      ShownSize(lines[1..]);
    }
  }

  lemma ContentSize(lines: Page)
    ensures |Content(lines)| <= TextSize(lines) + 40
  {
    ContentAsShown(lines);
    ShownSize(lines);
  }

  // -------------------------------------------------------------------- objects

  lemma {:induction false} RefsSize(ids: seq<nat>)
    requires forall i :: 0 <= i < |ids| ==> ids[i] < Pow10(10)
    ensures |JoinRefs(ids)| <= 15 * |ids|
  {
    if ids != [] {
      DecWidth(ids[0], 10);
      RefsSize(ids[1..]);
    }
  }

  lemma ObjectSize(objects: Table, id: nat, body: nat)
    requires id in objects && id < Pow10(10) && |objects[id]| <= body
    ensures |Object(objects, id)| <= body + 25
  {
    DecWidth(id, 10);
  }

  lemma PageSizes(contentId: nat, lines: Page)
    requires contentId < Pow10(10) && TextSize(lines) + 40 < Pow10(10)
    ensures |PageBody(contentId)| <= 125 && |StreamBody(Content(lines))| <= TextSize(lines) + 85
  {
    DecWidth(contentId, 10);
    ContentSize(lines);
    DecWidth(|Content(lines)|, 10);
    PageLiteral();
  }

  lemma PageLiteral()
    ensures |PAGE| <= 108
  {
  }

  lemma FixedBodies(n: nat)
    requires Last(n) < Pow10(10)
    ensures |Header()| <= 20 && |CatalogBody()| <= 35 && |PagesBody(n)| <= 15 * n + 60 && |Latin1(FONT)| <= 60
  {
    DecWidth(n, 10);
    RefsSize(PageIds(n));
  }

  lemma UptoThree(objects: Table)
    requires Complete(objects, 3)
    ensures |Upto(objects, 3)| == |Header()| + |Object(objects, 1)| + |Object(objects, 2)| + |Object(objects, 3)|
  {
    assert Upto(objects, 3) == Upto(objects, 2) + Object(objects, 3);
    assert Upto(objects, 2) == Upto(objects, 1) + Object(objects, 2);
    assert Upto(objects, 1) == Upto(objects, 0) + Object(objects, 1);
  }

  /** The three fixed objects and the header. */
  lemma FixedSize(objects: Table, n: nat)
    requires Complete(objects, 3) && objects[1] == CatalogBody()
    requires objects[2] == PagesBody(n) && objects[3] == Latin1(FONT)
    requires Last(n) < Pow10(10)
    ensures |Upto(objects, 3)| <= 15 * n + 300
  {
    FixedBodies(n);
    ObjectSize(objects, 1, 35);
    ObjectSize(objects, 2, 15 * n + 60);
    ObjectSize(objects, 3, 60);
    UptoThree(objects);
  }

  function PagesSize(pages: seq<Page>, k: nat): nat
    requires k <= |pages|
  {
    if k == 0 then 0 else PagesSize(pages, k - 1) + TextSize(pages[k - 1]) + 260
  }

  lemma {:induction false} PagesSizeGrows(pages: seq<Page>, k: nat, i: nat)
    requires i < k <= |pages|
    ensures TextSize(pages[i]) + 260 <= PagesSize(pages, k)
  {
    if i < k - 1 {
      PagesSizeGrows(pages, k - 1, i);
    }
  }

  /** Objects `n - 1` and `n` are a page and its stream, no larger than the rows account for. */
  predicate HoldsPage(objects: Table, n: nat, lines: Page) {
    && n >= 2 && n - 1 in objects && n in objects
    && |objects[n - 1]| <= 125 && |objects[n]| <= TextSize(lines) + 85
  }

  predicate Holds(objects: Table, pages: seq<Page>) {
    && Complete(objects, Last(|pages|))
    && forall k :: 0 < k <= |pages| ==> HoldsPage(objects, Last(k), pages[k - 1])
  }

  lemma BodiesHeld(objects: Table, n: nat, lines: Page)
    requires 2 <= n < Pow10(10) && TextSize(lines) + 40 < Pow10(10) && n - 1 in objects && n in objects
    requires objects[n - 1] == PageBody(n) && objects[n] == StreamBody(Content(lines))
    ensures HoldsPage(objects, n, lines)
  {
    PageSizes(n, lines);
  }

  lemma PageHeld(objects: Table, pages: seq<Page>, i: nat)
    requires objects == Objects(pages) && i < |pages|
    requires Last(i + 1) < Pow10(10) && TextSize(pages[i]) + 40 < Pow10(10)
    ensures HoldsPage(objects, Last(i + 1), pages[i])
  {
    ObjectsLookup(pages, i);
    BodiesHeld(objects, Last(i + 1), pages[i]);
  }

  lemma AllHeld(objects: Table, pages: seq<Page>)
    requires objects == Objects(pages) && Complete(objects, Last(|pages|)) && Last(|pages|) < Pow10(10)
    requires forall i :: 0 <= i < |pages| ==> TextSize(pages[i]) + 40 < Pow10(10)
    ensures Holds(objects, pages)
  {
    forall k | 0 < k <= |pages| ensures HoldsPage(objects, Last(k), pages[k - 1]) {
      PageHeld(objects, pages, k - 1);
    }
  }

  lemma TextsFit(pages: seq<Page>)
    requires PagesSize(pages, |pages|) < Pow10(10)
    ensures forall i :: 0 <= i < |pages| ==> TextSize(pages[i]) + 40 < Pow10(10)
  {
    forall i | 0 <= i < |pages| ensures TextSize(pages[i]) + 40 < Pow10(10) {
      PagesSizeGrows(pages, |pages|, i);
    }
  }

  lemma NextPageSize(objects: Table, n: nat, lines: Page)
    requires n < Pow10(10) && Complete(objects, n) && HoldsPage(objects, n, lines)
    ensures |Upto(objects, n)| <= |Upto(objects, n - 2)| + TextSize(lines) + 260
  {
    ObjectSize(objects, n - 1, 125);
    ObjectSize(objects, n, TextSize(lines) + 85);
    TwoMore(objects, n);
  }

  lemma {:induction false} UptoSize(pages: seq<Page>, objects: Table, k: nat)
    requires k <= |pages| && Holds(objects, pages) && Last(|pages|) < Pow10(10)
    ensures |Upto(objects, Last(k))| <= |Upto(objects, 3)| + PagesSize(pages, k)
  {
    if k > 0 {
      UptoSize(pages, objects, k - 1);
      assert HoldsPage(objects, Last(k), pages[k - 1]);
      NextPageSize(objects, Last(k), pages[k - 1]);
    }
  }

  lemma TwoMore(objects: Table, n: nat)
    requires n >= 2 && Complete(objects, n)
    ensures |Upto(objects, n)| == |Upto(objects, n - 2)| + |Object(objects, n - 1)| + |Object(objects, n)|
  {
  }

  /** The bound, page by page. */
  lemma PagesFit(pages: seq<Page>)
    requires PagesSize(pages, |pages|) + 15 * |pages| + 300 < Pow10(10)
    ensures FitsTable(pages)
  {
    LastFits(pages);
    ObjectsComplete(pages);
    UptoFits(Objects(pages), pages);
  }

  lemma LastFits(pages: seq<Page>)
    requires PagesSize(pages, |pages|) + 15 * |pages| + 300 < Pow10(10)
    ensures Last(|pages|) < Pow10(10)
  {
    PagesAtLeast(pages, |pages|);
  }

  lemma UptoFits(objects: Table, pages: seq<Page>)
    requires objects == Objects(pages) && Complete(objects, Last(|pages|))
    requires PagesSize(pages, |pages|) + 15 * |pages| + 300 < Pow10(10)
    ensures |Upto(objects, Last(|pages|))| < Pow10(10)
  {
    TextsFit(pages);
    FixedObjects(pages);
    FixedSize(objects, |pages|);
    AllHeld(objects, pages);
    UptoSize(pages, objects, |pages|);
  }

  lemma {:induction false} PagesAtLeast(pages: seq<Page>, k: nat)
    requires k <= |pages|
    ensures 260 * k <= PagesSize(pages, k)
  {
    if k > 0 {
      PagesAtLeast(pages, k - 1);
    }
  }

  // ----------------------------------------------------------------------- rows

  lemma {:induction false} CharactersConcat(a: seq<string>, b: seq<string>)
    ensures Characters(a + b) == Characters(a) + Characters(b)
  {
    if a == [] {
      assert a + b == b;
    } else {
      assert (a + b)[1..] == a[1..] + b;
      CharactersConcat(a[1..], b);
    }
  }

  lemma {:induction false} PagesSizeFirst(pages: seq<Page>, k: nat)
    requires 0 < k <= |pages|
    ensures PagesSize(pages, k) == TextSize(pages[0]) + 260 + PagesSize(pages[1..], k - 1)
  {
    if k > 1 {
      PagesSizeFirst(pages, k - 1);
    }
  }

  /** Cutting rows into pages costs 260 bytes for each started page of 42. */
  lemma {:induction false} PaginatedSize(rows: seq<string>)
    ensures var pages := Paginate(rows);
            && |pages| <= |rows| / LINES_PER_PAGE + 1
            && PagesSize(pages, |pages|) == TextSize(rows) + 260 * |pages|
  {
    if |rows| > LINES_PER_PAGE {
      var first, rest := rows[..LINES_PER_PAGE], rows[LINES_PER_PAGE..];
      PaginatedSize(rest);
      assert rows == first + rest;
      CharactersConcat(first, rest);
      assert Paginate(rows)[1..] == Paginate(rest);
      PagesSizeFirst(Paginate(rows), |Paginate(rows)|);
    } else if rows != [] {
      assert Paginate(rows) == [rows];
      assert PagesSize([rows], 1) == PagesSize([rows], 0) + TextSize(rows) + 260;
    }
  }

  /** Rows of moderate length in moderate number always fit; no need to look at the file. */
  lemma ModerateRowsFit(rows: seq<string>)
    requires Moderate(rows)
    ensures FitsTable(Paginate(rows))
  {
    PaginatedSize(rows);
    PagesFit(Paginate(rows));
  }
}
