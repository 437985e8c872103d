/**
 A random-access reader in the order ISO 32000-1, section 7.5 prescribes: the header, then from the end of
 the file to `startxref`, from there to the cross-reference table and the trailer, and from an entry of the
 table to the object it points at. Dictionaries are read by key, streams by their /Length, and a content
 stream operator by operator, with the fonts its page names.
 */
module PdfReader {
  import opened Wrappers
  import opened Bytes
  import opened PdfText
  import opened PdfGraphics
  import opened PdfObjects

  // ------------------------------------------------- file structure (section 7.5)

  /** Section 7.5.2: a line with the version, then a comment line of at least four bytes from 128 up. */
  predicate HasHeader(b: seq<byte>) {
    && |b| > 14 && b[..7] == Latin1("%PDF-1.") && 48 <= b[7] <= 55 && b[8] == 10 && b[9] == 37
    && exists k :: 14 <= k < |b| && b[k] == 10 && forall i :: 10 <= i < k ==> b[i] >= 128
  }

  datatype XrefEntry = Free(next: nat, generation: nat) | InUse(offset: nat, generation: nat)

  /** Section 7.5.4: the entry every table begins with. */
  const FREE_HEAD := Free(0, 65535)

  datatype Opened = Opened(table: seq<XrefEntry>, root: nat)

  predicate EndsWith(b: seq<byte>, word: string) {
    |word| <= |b| && b[|b| - |word|..] == Latin1(word)
  }

  const END_MARK := "\n%%EOF"
  const START_LINE := "startxref\n"

  /** Section 7.5.5: the number between the last `startxref` line and the end-of-file marker. */
  function ReadStartXref(b: seq<byte>): Option<nat> {
    if !EndsWith(b, END_MARK) then None
    else
      var body := b[..|b| - |END_MARK|];
      var k := DigitTail(body);
      if k == 0 || !EndsWith(body[..|body| - k], START_LINE) then None
      else Some(DigitsValue(body[|body| - k..]))
  }

  predicate AllDigits(b: seq<byte>) {
    forall i :: 0 <= i < |b| ==> IsDigit(b[i])
  }

  /** Section 7.5.4: ten digits, space, five digits, space, `n` or `f`, and a two-byte end of line. */
  function ReadEntry(b: seq<byte>): Parsed<XrefEntry> {
    if |b| < 20 || !AllDigits(b[..10]) || b[10] != 32 || !AllDigits(b[11..16]) || b[16] != 32
       || (b[17] != 110 && b[17] != 102) || b[18] != 32 || b[19] != 10
    then NoParse
    else
      var first, generation := DigitsValue(b[..10]), DigitsValue(b[11..16]);
      Parsed(if b[17] == 110 then InUse(first, generation) else Free(first, generation), b[20..])
  }

  function ReadEntries(b: seq<byte>, n: nat): Parsed<seq<XrefEntry>> {
    if n == 0 then Parsed([], b)
    else
      var (first, b1) :- ReadEntry(b);
      var (more, b2) :- ReadEntries(b1, n - 1);
      Parsed([first] + more, b2)
  }

  /** One section that starts with the free object 0, as section 7.5.4 demands of a file that was never updated. */
  function ReadXref(b: seq<byte>): Parsed<seq<XrefEntry>> {
    var (_, b1) :- Expect("xref", b);
    var (start, b2) :- ReadNat(SkipSpace(b1));
    var (n, b3) :- ReadNat(SkipSpace(b2));
    var (table, b4) :- ReadEntries(SkipSpace(b3), n);
    if start == 0 && table != [] && table[0] == FREE_HEAD then Parsed(table, b4) else NoParse
  }

  // ---------------------------------------------------------- dictionaries by key

  function ReferenceUnder(d: seq<Entry>, key: string): Option<nat> {
    var v :- Lookup(d, key);
    if v.Reference? then Some(v.id) else None
  }

  function NumberUnder(d: seq<Entry>, key: string): Option<nat> {
    var v :- Lookup(d, key);
    if v.Number? then Some(v.n) else None
  }

  function NameUnder(d: seq<Entry>, key: string): Option<seq<byte>> {
    var v :- Lookup(d, key);
    if v.Name? then Some(v.text) else None
  }

  function EntriesUnder(d: seq<Entry>, key: string): Option<seq<Entry>> {
    var v :- Lookup(d, key);
    if v.Dictionary? then Some(v.entries) else None
  }

  function Amounts(items: seq<Value>): Option<seq<nat>> {
    if items == [] then Some([])
    else if !items[0].Number? then None
    else
      var more :- Amounts(items[1..]);
      Some([items[0].n] + more)
  }

  function NumbersUnder(d: seq<Entry>, key: string): Option<seq<nat>> {
    var v :- Lookup(d, key);
    if v.Array? then Amounts(v.items) else None
  }

  function Targets(items: seq<Value>): Option<seq<nat>> {
    if items == [] then Some([])
    else if !items[0].Reference? then None
    else
      var more :- Targets(items[1..]);
      Some([items[0].id] + more)
  }

  function ReferencesUnder(d: seq<Entry>, key: string): Option<seq<nat>> {
    var v :- Lookup(d, key);
    if v.Array? then Targets(v.items) else None
  }

  predicate HasType(d: seq<Entry>, name: string) {
    Lookup(d, "Type") == Some(Name(Latin1(name)))
  }

  function ReadDictionary(b: seq<byte>): Parsed<seq<Entry>> {
    var (v, b1) :- Parse(SkipSpace(b));
    if v.Dictionary? then Parsed(v.entries, b1) else NoParse
  }

  function ReadTrailer(b: seq<byte>): Parsed<seq<Entry>> {
    var (_, b1) :- Expect("trailer", b);
    ReadDictionary(b1)
  }

  function Open(b: seq<byte>): Option<Opened> {
    var start :- ReadStartXref(b);
    if start > |b| then None
    else
      var xref := ReadXref(b[start..]);
      if xref.NoParse? then None
      else
        var trailer := ReadTrailer(xref.rest);
        if trailer.NoParse? then None
        else
          var size :- NumberUnder(trailer.value, "Size");
          var root :- ReferenceUnder(trailer.value, "Root");
          if size == |xref.value| then Some(Opened(xref.value, root)) else None
  }

  // ------------------------------------------------------ indirect objects (7.3.10)

  /** `id generation obj`. */
  function ReadHeader(b: seq<byte>, id: nat, generation: nat): Parsed<()> {
    var (i, b1) :- ReadNat(b);
    var (g, b2) :- ReadNat(SkipSpace(b1));
    if i == id && g == generation then Expect("obj", SkipSpace(b2)) else NoParse
  }

  /** What follows the header at the offset the table gives for `id`. */
  function ObjectAt(b: seq<byte>, table: seq<XrefEntry>, id: nat): Parsed<()> {
    if id >= |table| || table[id].Free? || table[id].offset > |b| then NoParse
    else ReadHeader(b[table[id].offset..], id, table[id].generation)
  }

  function ReadEnd(b: seq<byte>): Parsed<()> {
    Expect("endobj", SkipSpace(b))
  }

  /** The dictionary that is object `id`. */
  function DictionaryAt(b: seq<byte>, table: seq<XrefEntry>, id: nat): Option<seq<Entry>> {
    var at := ObjectAt(b, table, id);
    if at.NoParse? then None
    else
      var d := ReadDictionary(at.rest);
      if d.NoParse? || ReadEnd(d.rest).NoParse? then None else Some(d.value)
  }

  function DictionaryOfType(b: seq<byte>, table: seq<XrefEntry>, id: nat, name: string): Option<seq<Entry>> {
    var d :- DictionaryAt(b, table, id);
    if HasType(d, name) then Some(d) else None
  }

  /** Section 7.3.8: a dictionary, then as many bytes between `stream` and `endstream` as its /Length says. */
  function ReadStream(b: seq<byte>): Parsed<seq<byte>> {
    var (d, b1) :- ReadDictionary(b);
    var (_, b2) :- Expect("stream\n", SkipSpace(b1));
    var length := NumberUnder(d, "Length");
    if length.None? || length.value > |b2| then NoParse
    else
      var (_, b3) :- Expect("endstream", SkipSpace(b2[length.value..]));
      var (_, b4) :- ReadEnd(b3);
      Parsed(b2[..length.value], b4)
  }

  // -------------------------------------------------------------- the document

  /** A page: its media box and the strings on it, each with the base font it is shown in. */
  datatype PageView = PageView(box: seq<nat>, rows: seq<Placed>)

  /** Section 9.6: the base font behind a name in the font resources. */
  function BaseFont(b: seq<byte>, table: seq<XrefEntry>, fonts: seq<Entry>, name: seq<byte>): Option<seq<byte>> {
    var id :- ReferenceUnder(fonts, Decode(name));
    var font :- DictionaryOfType(b, table, id, "Font");
    var subtype :- NameUnder(font, "Subtype");
    if subtype == Latin1("Type1") then NameUnder(font, "BaseFont") else None
  }

  function InBaseFont(b: seq<byte>, table: seq<XrefEntry>, fonts: seq<Entry>, row: Placed): Option<Placed> {
    var font :- BaseFont(b, table, fonts, row.font);
    Some(row.(font := font))
  }

  function AllInBaseFont(b: seq<byte>, table: seq<XrefEntry>, fonts: seq<Entry>, rows: seq<Placed>)
    : Option<seq<Placed>>
  {
    if rows == [] then Some([])
    else
      var first :- InBaseFont(b, table, fonts, rows[0]);
      var more :- AllInBaseFont(b, table, fonts, rows[1..]);
      Some([first] + more)
  }

  function FontsOf(page: seq<Entry>): Option<seq<Entry>> {
    var resources :- EntriesUnder(page, "Resources");
    EntriesUnder(resources, "Font")
  }

  /** The strings of the content stream that is object `id`. */
  function ReadRows(b: seq<byte>, table: seq<XrefEntry>, id: nat): Option<seq<Placed>> {
    var at := ObjectAt(b, table, id);
    if at.NoParse? then None
    else
      var stream := ReadStream(at.rest);
      if stream.NoParse? then None else ReadShown(stream.value, [], START)
  }

  /** Section 7.7.3.3: a page of the tree node `parent`. */
  function ReadOnePage(b: seq<byte>, table: seq<XrefEntry>, parent: nat, id: nat): Option<PageView> {
    var page :- DictionaryOfType(b, table, id, "Page");
    var up :- ReferenceUnder(page, "Parent");
    var box :- NumbersUnder(page, "MediaBox");
    var fonts :- FontsOf(page);
    var contents :- ReferenceUnder(page, "Contents");
    var rows :- ReadRows(b, table, contents);
    var shown :- AllInBaseFont(b, table, fonts, rows);
    if up == parent && |box| == 4 then Some(PageView(box, shown)) else None
  }

  function Collect<T>(parts: seq<Option<T>>): Option<seq<T>> {
    if parts == [] then Some([])
    else
      var first :- parts[0];
      var more :- Collect(parts[1..]);
      Some([first] + more)
  }

  datatype PageTree = PageTree(node: nat, kids: seq<nat>)

  function ReadPages(b: seq<byte>, table: seq<XrefEntry>, tree: PageTree): Option<seq<PageView>> {
    var ids := tree.kids;
    Collect(seq(|ids|, i requires 0 <= i < |ids| => ReadOnePage(b, table, tree.node, ids[i])))
  }

  /** The page objects of the document, in order; /Count must agree with /Kids. */
  function ReadPageTree(b: seq<byte>, file: Opened): Option<PageTree> {
    var catalog :- DictionaryOfType(b, file.table, file.root, "Catalog");
    var node :- ReferenceUnder(catalog, "Pages");
    var pages :- DictionaryOfType(b, file.table, node, "Pages");
    var kids :- ReferencesUnder(pages, "Kids");
    var count :- NumberUnder(pages, "Count");
    if count == |kids| then Some(PageTree(node, kids)) else None
  }

  /** Every page with what it shows, found from the end of a file that begins as a PDF file does. */
  function ReadPdf(b: seq<byte>): Option<seq<PageView>> {
    if !HasHeader(b) then None
    else
      var file :- Open(b);
      var tree :- ReadPageTree(b, file);
      ReadPages(b, file.table, tree)
  }
}
