/** The dictionaries the renderer writes, as objects: each body is the printed form of its value. */
module PdfValues {
  import opened Bytes
  import opened PdfText
  import opened PdfFile
  import opened PdfWriter
  import opened PdfObjects

  function Key(key: string, value: Value): Entry {
    Entry(Latin1(key), value)
  }

  function NameOf(text: string): Value {
    Name(Latin1(text))
  }

  function CatalogEntries(): seq<Entry> {
    [Key("Type", NameOf("Catalog")), Key("Pages", Reference(2, 0))]
  }

  function References(ids: seq<nat>): (r: seq<Value>)
    ensures |r| == |ids| && forall i :: 0 <= i < |ids| ==> r[i] == Reference(ids[i], 0)
  {
    seq(|ids|, i requires 0 <= i < |ids| => Reference(ids[i], 0))
  }

  function PagesEntries(n: nat): seq<Entry> {
    [Key("Type", NameOf("Pages")), Key("Kids", Array(References(PageIds(n)))), Key("Count", Number(n))]
  }

  function MediaBox(): Value {
    Array([Number(0), Number(0), Number(595), Number(842)])
  }

  function Resources(): Value {
    Dictionary([Key("Font", Dictionary([Key("F1", Reference(3, 0))]))])
  }

  function PageEntries(contentId: nat): seq<Entry> {
    [ Key("Type", NameOf("Page")),
      Key("Parent", Reference(2, 0)),
      Key("MediaBox", MediaBox()),
      Key("Resources", Resources()),
      Key("Contents", Reference(contentId, 0)) ]
  }

  function FontEntries(): seq<Entry> {
    [Key("Type", NameOf("Font")), Key("Subtype", NameOf("Type1")), Key("BaseFont", NameOf("Helvetica"))]
  }

  function LengthEntries(n: nat): seq<Entry> {
    [Key("Length", Number(n))]
  }

  function TrailerEntries(n: nat): seq<Entry> {
    [Key("Size", Number(n + 1)), Key("Root", Reference(1, 0))]
  }

  // -------------------------------------------------------------- printed forms

  lemma ReferencePrinted(id: nat)
    ensures Print(Reference(id, 0)) == Dec(id) + Latin1(REF)
  {
    assert Dec(0) + [SPACE, LETTER_R] == Latin1("0 R");
    assert [SPACE] + Latin1("0 R") == Latin1(REF);
  }

  lemma KeyPrinted(key: string, value: Value)
    ensures PrintEntry(Key(key, value)) == Latin1(" /" + key + " ") + Print(value)
  {
    assert [SPACE, SLASH] == Latin1(" /") && [SPACE] == Latin1(" ");
    Latin1Concat(" /", key);
    Latin1Concat(" /" + key, " ");
  }

  lemma NamePrinted(text: string)
    ensures Print(NameOf(text)) == Latin1("/" + text)
  {
    Latin1Concat("/", text);
    assert [SLASH] == Latin1("/");
  }

  lemma DictionaryPrinted(entries: seq<Entry>)
    ensures Print(Dictionary(entries)) == Latin1("<<") + PrintEntries(entries) + Latin1(" >>")
  {
    assert [LESS, LESS] == Latin1("<<") && [SPACE, GREATER, GREATER] == Latin1(" >>");
  }

  lemma OneEntryPrinted(a: Entry)
    ensures PrintEntries([a]) == PrintEntry(a)
  {
  }

  lemma EntriesPrinted(a: Entry, more: seq<Entry>)
    ensures PrintEntries([a] + more) == PrintEntry(a) + PrintEntries(more)
  {
    assert ([a] + more)[1..] == more;
  }

  lemma TypePrinted(text: string)
    ensures PrintEntry(Key("Type", NameOf(text))) == Latin1(" /Type /" + text)
  {
    KeyPrinted("Type", NameOf(text));
    NamePrinted(text);
    assert " /" + "Type" + " " == " /Type ";
    Latin1Concat(" /Type ", "/" + text);
    assert " /Type " + ("/" + text) == " /Type /" + text;
  }

  lemma CatalogHead()
    ensures Latin1(CATALOG) == Latin1("<<") + Latin1(" /Type /Catalog") + Latin1(" /Pages ")
  {
    assert "<<" + " /Type /Catalog" == "<< /Type /Catalog";
    Latin1Concat("<<", " /Type /Catalog");
    Latin1Concat("<< /Type /Catalog", " /Pages ");
  }

  lemma CatalogPrinted()
    ensures CatalogBody() == Print(Dictionary(CatalogEntries()))
  {
    var a, b := Key("Type", NameOf("Catalog")), Key("Pages", Reference(2, 0));
    TypePrinted("Catalog");
    assert " /Type /" + "Catalog" == " /Type /Catalog";
    KeyPrinted("Pages", Reference(2, 0));
    assert " /" + "Pages" + " " == " /Pages ";
    ReferencePrinted(2);
    OneEntryPrinted(b);
    EntriesPrinted(a, [b]);
    assert [a, b] == [a] + [b];
    DictionaryPrinted([a, b]);
    CatalogHead();
    CatalogRegroup(Latin1("<<"), Latin1(" /Type /Catalog"), Latin1(" /Pages "), Dec(2), Latin1(REF), Latin1(" >>"));
  }

  lemma CatalogRegroup(a: seq<byte>, b: seq<byte>, c: seq<byte>, d: seq<byte>, e: seq<byte>, f: seq<byte>)
    ensures a + (b + (c + (d + e))) + f == (a + b + c) + d + e + f
  {
  }

  lemma {:induction false} RefsAsItems(ids: seq<nat>)
    requires ids != []
    ensures JoinRefs(ids) == Print(Reference(ids[0], 0)) + PrintMore(References(ids)[1..])
  {
    ReferencePrinted(ids[0]);
    var refs := References(ids);
    if |ids| == 1 {
      assert refs[1..] == [];
    } else {
      var tail := References(ids[1..]);
      RefsAsItems(ids[1..]);
      assert refs[1..] == tail && refs[1..][1..] == tail[1..];
      assert Latin1(" ") == [SPACE];
      Regroup(Print(refs[0]), [SPACE], Print(tail[0]), PrintMore(tail[1..]));
    }
  }

  lemma RefsPrinted(ids: seq<nat>)
    ensures PrintItems(References(ids)) == JoinRefs(ids)
  {
    if ids != [] {
      RefsAsItems(ids);
    }
  }

  lemma ArrayPrinted(items: seq<Value>)
    ensures Print(Array(items)) == Latin1("[") + (PrintItems(items) + Latin1("]"))
  {
    assert [OPEN_BRACKET] == Latin1("[") && [CLOSE_BRACKET] == Latin1("]");
  }

  lemma KidsPrinted(n: nat)
    ensures PrintEntry(Key("Kids", Array(References(PageIds(n)))))
              == Latin1(" /Kids [") + (JoinRefs(PageIds(n)) + Latin1("]"))
  {
    KeyPrinted("Kids", Array(References(PageIds(n))));
    ArrayPrinted(References(PageIds(n)));
    RefsPrinted(PageIds(n));
    assert " /" + "Kids" + " " == " /Kids " && " /Kids " + "[" == " /Kids [";
    Latin1Concat(" /Kids ", "[");
  }

  lemma CountPrinted(n: nat)
    ensures PrintEntry(Key("Count", Number(n))) == Latin1(" /Count ") + Dec(n)
  {
    KeyPrinted("Count", Number(n));
    assert " /" + "Count" + " " == " /Count ";
  }

  lemma PagesHead()
    ensures Latin1("<<") + Latin1(" /Type /Pages") + Latin1(" /Kids [") == Latin1(KIDS)
    ensures Latin1("]") + Latin1(" /Count ") == Latin1(COUNT)
  {
    assert "<<" + " /Type /Pages" == "<< /Type /Pages" && "]" + " /Count " == COUNT;
    Latin1Concat("<<", " /Type /Pages");
    Latin1Concat("<< /Type /Pages", " /Kids [");
    Latin1Concat("]", " /Count ");
  }

  lemma PagesPrinted(n: nat)
    ensures PagesBody(n) == Print(Dictionary(PagesEntries(n)))
  {
    var a, b, c := Key("Type", NameOf("Pages")), Key("Kids", Array(References(PageIds(n)))), Key("Count", Number(n));
    TypePrinted("Pages");
    assert " /Type /" + "Pages" == " /Type /Pages";
    KidsPrinted(n);
    CountPrinted(n);
    assert [a, b, c] == [a] + ([b] + [c]);
    OneEntryPrinted(c);
    EntriesPrinted(b, [c]);
    EntriesPrinted(a, [b] + [c]);
    DictionaryPrinted([a, b, c]);
    PagesHead();
    PagesRegroup(Latin1("<<"), Latin1(" /Type /Pages"), Latin1(" /Kids ["), JoinRefs(PageIds(n)), Latin1("]"),
                 Latin1(" /Count "), Dec(n), Latin1(" >>"));
  }

  lemma PagesRegroup(a: seq<byte>, b: seq<byte>, c: seq<byte>, d: seq<byte>, e: seq<byte>, f: seq<byte>, g: seq<byte>,
                     h: seq<byte>)
    ensures a + (b + ((c + (d + e)) + (f + g))) + h == (a + b + c) + d + (e + f) + g + h
  {
  }

  lemma DecimalsOfMediaBox()
    ensures Dec(0) == Latin1("0") && Dec(595) == Latin1("595") && Dec(842) == Latin1("842")
  {
  }

  lemma MorePrinted(item: Value, more: seq<Value>)
    ensures PrintMore([item] + more) == Latin1(" ") + Print(item) + PrintMore(more)
  {
    assert ([item] + more)[1..] == more && Latin1(" ") == [SPACE];
  }

  lemma BoxItems()
    ensures PrintItems([Number(0), Number(0), Number(595), Number(842)])
              == Dec(0) + (Latin1(" ") + Dec(0) + (Latin1(" ") + Dec(595) + (Latin1(" ") + Dec(842))))
  {
    var more := [Number(0)] + ([Number(595)] + ([Number(842)] + []));
    assert [Number(0), Number(0), Number(595), Number(842)][1..] == more;
    MorePrinted(Number(842), []);
    MorePrinted(Number(595), [Number(842)] + []);
    MorePrinted(Number(0), [Number(595)] + ([Number(842)] + []));
  }

  lemma BoxText()
    ensures Latin1("0") + (Latin1(" ") + Latin1("0") + (Latin1(" ") + Latin1("595") + (Latin1(" ") + Latin1("842"))))
              == Latin1("0 0 595 842")
  {
  }

  lemma MediaBoxPrinted()
    ensures PrintEntry(Key("MediaBox", MediaBox())) == Latin1(" /MediaBox [0 0 595 842]")
  {
    BoxItems();
    DecimalsOfMediaBox();
    BoxText();
    KeyPrinted("MediaBox", MediaBox());
    ArrayPrinted([Number(0), Number(0), Number(595), Number(842)]);
    BoxEntry();
  }

  lemma BoxEntry()
    ensures Latin1(" /" + "MediaBox" + " ") + (Latin1("[") + (Latin1("0 0 595 842") + Latin1("]")))
              == Latin1(" /MediaBox [0 0 595 842]")
  {
    assert " /" + "MediaBox" + " " == " /MediaBox ";
    assert "[" + ("0 0 595 842" + "]") == "[0 0 595 842]";
    Latin1Concat("0 0 595 842", "]");
    Latin1Concat("[", "0 0 595 842" + "]");
    Latin1Concat(" /MediaBox ", "[0 0 595 842]");
    assert " /MediaBox " + "[0 0 595 842]" == " /MediaBox [0 0 595 842]";
  }

  /** A dictionary with one entry. */
  lemma WrappedPrinted(entry: Entry, text: string)
    requires PrintEntry(entry) == Latin1(text)
    ensures Print(Dictionary([entry])) == Latin1("<<" + text + " >>")
  {
    OneEntryPrinted(entry);
    DictionaryPrinted([entry]);
    Latin1Concat("<<", text);
    Latin1Concat("<<" + text, " >>");
  }

  lemma KeyTextPrinted(key: string, value: Value, text: string)
    requires Print(value) == Latin1(text)
    ensures PrintEntry(Key(key, value)) == Latin1(" /" + key + " " + text)
  {
    KeyPrinted(key, value);
    Latin1Concat(" /" + key + " ", text);
  }

  lemma ResourcesPrinted()
    ensures PrintEntry(Key("Resources", Resources())) == Latin1(RESOURCES)
  {
    var fonts := Dictionary([Key("F1", Reference(3, 0))]);
    FontReferencePrinted();
    KeyTextPrinted("F1", Reference(3, 0), "3 0 R");
    assert " /" + "F1" + " " + "3 0 R" == " /F1 3 0 R";
    var inner := "<<" + " /F1 3 0 R" + " >>";
    WrappedPrinted(Key("F1", Reference(3, 0)), " /F1 3 0 R");
    KeyTextPrinted("Font", fonts, inner);
    assert " /" + "Font" + " " == " /Font ";
    WrappedPrinted(Key("Font", fonts), " /Font " + inner);
    KeyTextPrinted("Resources", Resources(), "<<" + (" /Font " + inner) + " >>");
    assert " /" + "Resources" + " " == " /Resources ";
  }

  lemma NameEntryPrinted(key: string, text: string)
    ensures PrintEntry(Key(key, NameOf(text))) == Latin1(" /" + key + " " + ("/" + text))
  {
    NamePrinted(text);
    KeyTextPrinted(key, NameOf(text), "/" + text);
  }

  lemma FontPrinted()
    ensures Latin1(FONT) == Print(Dictionary(FontEntries()))
  {
    var a, b, c := Key("Type", NameOf("Font")), Key("Subtype", NameOf("Type1")), Key("BaseFont", NameOf("Helvetica"));
    NameEntryPrinted("Type", "Font");
    NameEntryPrinted("Subtype", "Type1");
    NameEntryPrinted("BaseFont", "Helvetica");
    var d, e, f := " /" + "Type" + " " + ("/" + "Font"), " /" + "Subtype" + " " + ("/" + "Type1"),
                   " /" + "BaseFont" + " " + ("/" + "Helvetica");
    assert [a, b, c] == [a] + ([b] + [c]);
    OneEntryPrinted(c);
    EntriesPrinted(b, [c]);
    EntriesPrinted(a, [b] + [c]);
    DictionaryPrinted([a, b, c]);
    FontWords();
    Latin1Concat(e, f);
    Latin1Concat(d, e + f);
    Latin1Concat("<<", d + (e + f));
    Latin1Concat("<<" + (d + (e + f)), " >>");
  }

  lemma FontWords()
    ensures "<<" + (" /" + "Type" + " " + ("/" + "Font")
                    + (" /" + "Subtype" + " " + ("/" + "Type1") + (" /" + "BaseFont" + " " + ("/" + "Helvetica"))))
            + " >>" == FONT
  {
    assert " /" + "Type" + " " + ("/" + "Font") == " /Type /Font";
    assert " /" + "Subtype" + " " + ("/" + "Type1") == " /Subtype /Type1";
    assert " /" + "BaseFont" + " " + ("/" + "Helvetica") == " /BaseFont /Helvetica";
  }

  lemma FontReferencePrinted()
    ensures Print(Reference(3, 0)) == Latin1("3 0 R")
  {
    ReferencePrinted(3);
    assert Dec(3) == Latin1("3") && "3" + REF == "3 0 R";
    Latin1Concat("3", REF);
  }

  lemma ParentPrinted()
    ensures PrintEntry(Key("Parent", Reference(2, 0))) == Latin1(" /Parent 2 0 R")
  {
    KeyPrinted("Parent", Reference(2, 0));
    ReferencePrinted(2);
    assert Latin1(" /" + "Parent" + " ") + (Dec(2) + Latin1(REF)) == Latin1(" /Parent 2 0 R");
  }

  lemma PageHead()
    ensures Latin1(PAGE)
              == Latin1("<<") + Latin1(" /Type /Page") + Latin1(" /Parent 2 0 R") + Latin1(" /MediaBox [0 0 595 842]")
                            + Latin1(RESOURCES) + Latin1(" /Contents ")
  {
    var a := "<< /Type /Page";
    var b := a + " /Parent 2 0 R";
    var c := b + " /MediaBox [0 0 595 842]";
    var d := c + RESOURCES;
    assert "<<" + " /Type /Page" == a;
    Latin1Concat("<<", " /Type /Page");
    Latin1Concat(a, " /Parent 2 0 R");
    Latin1Concat(b, " /MediaBox [0 0 595 842]");
    Latin1Concat(c, RESOURCES);
    Latin1Concat(d, " /Contents ");
  }

  lemma PagePrinted(contentId: nat)
    ensures PageBody(contentId) == Print(Dictionary(PageEntries(contentId)))
  {
    var a, b, c := Key("Type", NameOf("Page")), Key("Parent", Reference(2, 0)), Key("MediaBox", MediaBox());
    var d, e := Key("Resources", Resources()), Key("Contents", Reference(contentId, 0));
    TypePrinted("Page");
    assert " /Type /" + "Page" == " /Type /Page";
    ParentPrinted();
    MediaBoxPrinted();
    ResourcesPrinted();
    KeyPrinted("Contents", Reference(contentId, 0));
    assert " /" + "Contents" + " " == " /Contents ";
    ReferencePrinted(contentId);
    FiveEntriesPrinted(a, b, c, d, e);
    DictionaryPrinted([a, b, c, d, e]);
    PageHead();
    PageRegroup(Latin1("<<"), PrintEntry(a), PrintEntry(b), PrintEntry(c), PrintEntry(d), Latin1(" /Contents "),
                Dec(contentId), Latin1(REF), Latin1(" >>"));
  }

  lemma FiveEntriesPrinted(a: Entry, b: Entry, c: Entry, d: Entry, e: Entry)
    ensures PrintEntries([a, b, c, d, e])
              == PrintEntry(a) + (PrintEntry(b) + (PrintEntry(c) + (PrintEntry(d) + PrintEntry(e))))
  {
    assert [a, b, c, d, e] == [a] + ([b] + ([c] + ([d] + [e])));
    OneEntryPrinted(e);
    EntriesPrinted(d, [e]);
    EntriesPrinted(c, [d] + [e]);
    EntriesPrinted(b, [c] + ([d] + [e]));
    EntriesPrinted(a, [b] + ([c] + ([d] + [e])));
  }

  lemma PageRegroup(a: seq<byte>, b: seq<byte>, c: seq<byte>, d: seq<byte>, e: seq<byte>, f: seq<byte>, g: seq<byte>,
                    h: seq<byte>, i: seq<byte>)
    ensures a + (b + (c + (d + (e + (f + (g + h)))))) + i == (a + b + c + d + e + f) + g + h + i
  {
  }

  lemma LengthPrinted(stream: seq<byte>)
    ensures StreamBody(stream)
              == Print(Dictionary(LengthEntries(|stream|))) + (Latin1(BEGIN_STREAM) + (stream + Latin1(ENDSTREAM)))
  {
    var a := Key("Length", Number(|stream|));
    KeyPrinted("Length", Number(|stream|));
    assert " /" + "Length" + " " == " /Length ";
    OneEntryPrinted(a);
    DictionaryPrinted([a]);
    Latin1Concat("<<", " /Length ");
    Latin1Concat(" >>", BEGIN_STREAM);
    StreamRegroup(Latin1("<<"), Latin1(" /Length "), Dec(|stream|), Latin1(" >>"), Latin1(BEGIN_STREAM), stream,
                  Latin1(ENDSTREAM));
  }

  lemma StreamRegroup(a: seq<byte>, b: seq<byte>, c: seq<byte>, d: seq<byte>, e: seq<byte>, f: seq<byte>, g: seq<byte>)
    ensures (a + (b + c) + d) + (e + (f + g)) == (a + b) + c + (d + e) + f + g
  {
  }

  lemma TrailerPrinted(n: nat)
    ensures TrailerDict(n) == Latin1(TRAILER) + (Print(Dictionary(TrailerEntries(n))) + Latin1("\n"))
  {
    var a, b := Key("Size", Number(n + 1)), Key("Root", Reference(1, 0));
    KeyPrinted("Size", Number(n + 1));
    KeyPrinted("Root", Reference(1, 0));
    ReferencePrinted(1);
    assert " /" + "Size" + " " == " /Size " && " /" + "Root" + " " == ROOT && REF == " 0 R";
    OneEntryPrinted(b);
    EntriesPrinted(a, [b]);
    assert [a, b] == [a] + [b];
    DictionaryPrinted([a, b]);
    Latin1Concat(TRAILER, "<<");
    Latin1Concat(TRAILER + "<<", " /Size ");
    Latin1Concat(" 0 R", " >>");
    Latin1Concat(" 0 R" + " >>", "\n");
    TrailerRegroup(Latin1(TRAILER), Latin1("<<"), Latin1(" /Size "), Dec(n + 1), Latin1(ROOT), Dec(1), Latin1(REF),
                   Latin1(" >>"), Latin1("\n"));
  }

  lemma TrailerRegroup(a: seq<byte>, b: seq<byte>, c: seq<byte>, d: seq<byte>, e: seq<byte>, f: seq<byte>,
                       g: seq<byte>, h: seq<byte>, i: seq<byte>)
    ensures a + ((b + ((c + d) + (e + (f + g))) + h) + i) == (a + b + c) + d + e + f + (g + h + i)
  {
  }
}
