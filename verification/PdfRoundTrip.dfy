/** What the reader recovers from what the writer wrote, part by part and then for whole documents. */
module PdfRoundTrip {
  import opened Wrappers
  import opened Bytes
  import opened PdfText
  import opened PdfFile
  import opened PdfObjects
  import opened PdfReader
  import opened PdfValues

  // ----------------------------------------------------------------- the header

  lemma {:induction false} BeginsWithHeader(objects: Table, n: nat)
    requires Complete(objects, n)
    ensures Header() <= Upto(objects, n)
  {
    if n > 0 {
      BeginsWithHeader(objects, n - 1);
    }
  }

  lemma HeaderBytes()
    ensures Header() == Latin1("%PDF-1.") + [52, 10, 37, 0xe2, 0xe3, 0xcf, 0xd3, 10]
  {
  }

  /** The file starts as a PDF file must. */
  lemma StartsAsPdf(objects: Table, n: nat)
    requires Complete(objects, n)
    ensures HasHeader(File(objects, n))
  {
    BeginsWithHeader(objects, n);
    HeaderBytes();
    HeaderIsRead(File(objects, n));
  }

  lemma HeaderIsRead(b: seq<byte>)
    requires Latin1("%PDF-1.") + [52, 10, 37, 0xe2, 0xe3, 0xcf, 0xd3, 10] <= b
    ensures HasHeader(b)
  {
    var h := Latin1("%PDF-1.") + [52, 10, 37, 0xe2, 0xe3, 0xcf, 0xd3, 10];
    assert forall i :: 0 <= i < 15 ==> b[i] == h[i];
    assert b[..7] == Latin1("%PDF-1.");
    assert b[14] == 10 && forall i :: 10 <= i < 14 ==> b[i] >= 128;
  }

  // --------------------------------------------------- cross-reference section

  /** Each entry is exactly twenty bytes and reads back as its offset. */
  lemma ReadsEntry(offset: nat, rest: seq<byte>)
    requires offset < Pow10(10)
    ensures |XrefLine(offset)| == 20
    ensures ReadEntry(XrefLine(offset) + rest) == Parsed(InUse(offset, 0), rest)
  {
    PaddedFits(offset, 10);
    var b := XrefLine(offset) + rest;
    assert b[..10] == Padded(offset, 10);
    assert b[10..20] == Latin1(IN_USE);
    assert b[11..16] == Zeros(5) + [] by {
      assert forall i :: 11 <= i < 16 ==> b[i] == Latin1(IN_USE)[i - 10];
    }
    ValueOfPadded(5, []);
    assert b[10] == Latin1(IN_USE)[0] && b[16] == Latin1(IN_USE)[6] && b[17] == Latin1(IN_USE)[7]
      && b[18] == Latin1(IN_USE)[8] && b[19] == Latin1(IN_USE)[9];
    assert b[20..] == rest;
  }

  lemma ReadsFreeEntry(rest: seq<byte>)
    ensures |Latin1(FREE_ENTRY)| == 20
    ensures ReadEntry(Latin1(FREE_ENTRY) + rest) == Parsed(FREE_HEAD, rest)
  {
    FreeEntryDigits();
    var b := Latin1(FREE_ENTRY) + rest;
    assert b[..10] == Latin1("0000000000") && b[11..16] == Latin1("65535") && b[20..] == rest;
  }

  lemma FreeEntryDigits()
    ensures AllDigits(Latin1("0000000000")) && DigitsValue(Latin1("0000000000")) == 0
    ensures AllDigits(Latin1("65535")) && DigitsValue(Latin1("65535")) == 65535
  {
    assert Latin1("0000000000") == Zeros(10) + [];
    ValueOfPadded(10, []);
    assert Latin1("65535") == Dec(65535);
    ValueOfDec(65535);
  }

  function Offsets(objects: Table, n: nat): (r: seq<nat>)
    requires Complete(objects, n)
    ensures |r| == n
  {
    seq(n, i requires 0 <= i < n => Offset(objects, i + 1))
  }

  function EntriesOf(offsets: seq<nat>): seq<byte> {
    if offsets == [] then [] else XrefLine(offsets[0]) + EntriesOf(offsets[1..])
  }

  function InUseAll(offsets: seq<nat>): (r: seq<XrefEntry>)
    ensures |r| == |offsets| && forall i :: 0 <= i < |offsets| ==> r[i] == InUse(offsets[i], 0)
  {
    seq(|offsets|, i requires 0 <= i < |offsets| => InUse(offsets[i], 0))
  }

  lemma {:induction false} EntriesOfSnoc(offsets: seq<nat>, last: nat)
    ensures EntriesOf(offsets + [last]) == EntriesOf(offsets) + XrefLine(last)
  {
    if offsets == [] {
      assert ([] + [last])[1..] == [];
    } else {
      EntriesOfSnoc(offsets[1..], last);
      assert (offsets + [last])[1..] == offsets[1..] + [last];
      Regroup(XrefLine(offsets[0]), EntriesOf(offsets[1..]), XrefLine(last), []);
    }
  }

  lemma OffsetsSnoc(objects: Table, n: nat)
    requires n > 0 && Complete(objects, n)
    ensures Offsets(objects, n) == Offsets(objects, n - 1) + [Offset(objects, n)]
  {
  }

  lemma {:induction false} EntriesByOffset(objects: Table, n: nat)
    requires Complete(objects, n)
    ensures Entries(objects, n) == EntriesOf(Offsets(objects, n))
  {
    if n > 0 {
      EntriesByOffset(objects, n - 1);
      EntriesOfSnoc(Offsets(objects, n - 1), Offset(objects, n));
      OffsetsSnoc(objects, n);
    }
  }

  lemma {:induction false} ReadsEntries(offsets: seq<nat>, rest: seq<byte>)
    requires forall i :: 0 <= i < |offsets| ==> offsets[i] < Pow10(10)
    ensures ReadEntries(EntriesOf(offsets) + rest, |offsets|) == Parsed(InUseAll(offsets), rest)
    ensures |EntriesOf(offsets)| == 20 * |offsets|
  {
    if offsets == [] {
      assert [] + rest == rest;
    } else {
      ReadsEntries(offsets[1..], rest);
      ReadsEntry(offsets[0], EntriesOf(offsets[1..]) + rest);
      Regroup(XrefLine(offsets[0]), EntriesOf(offsets[1..]), rest, []);
      assert InUseAll(offsets) == [InUse(offsets[0], 0)] + InUseAll(offsets[1..]);
    }
  }

  lemma XrefParts(n: nat, entries: seq<byte>, rest: seq<byte>)
    ensures XrefHead(n) + entries + rest
              == Latin1(XREF) + (Dec(n + 1) + (Latin1("\n") + (Latin1(FREE_ENTRY) + (entries + rest))))
  {
  }

  lemma ReadsTable(offsets: seq<nat>, rest: seq<byte>)
    requires forall i :: 0 <= i < |offsets| ==> offsets[i] < Pow10(10)
    ensures ReadEntries(Latin1(FREE_ENTRY) + (EntriesOf(offsets) + rest), |offsets| + 1)
              == Parsed([FREE_HEAD] + InUseAll(offsets), rest)
  {
    ReadsFreeEntry(EntriesOf(offsets) + rest);
    ReadsEntries(offsets, rest);
  }

  lemma ReadsSpacedNat(n: nat, rest: seq<byte>)
    requires AtBoundary(rest)
    ensures ReadNat(SkipSpace([SPACE] + (Dec(n) + rest))) == ReadNat(SkipSpace(Latin1("\n") + (Dec(n) + rest)))
              == Parsed(n, rest)
  {
    SkipOneSpace(Dec(n) + rest);
    SkipNewLine(Dec(n) + rest);
    PrintOpens(Number(n), rest);
    ReadNatAtBoundary(n, rest);
  }

  lemma XrefWord(rest: seq<byte>)
    ensures Latin1(XREF) + rest == Latin1("xref") + (Latin1("\n") + (Dec(0) + ([SPACE] + rest)))
  {
    assert XREF == "xref" + ("\n" + ("0" + " "));
    Latin1Concat("xref", "\n" + ("0" + " "));
    Latin1Concat("\n", "0" + " ");
    Latin1Concat("0", " ");
    assert Latin1("0") == Dec(0) && Latin1(" ") == [SPACE];
  }

  lemma ReadsXrefHead(n: nat, entries: seq<byte>, table: seq<XrefEntry>, rest: seq<byte>)
    requires ReadEntries(entries, n) == Parsed(table, rest) && table != [] && table[0] == FREE_HEAD
    requires SkipSpace(entries) == entries
    ensures ReadXref(Latin1(XREF) + (Dec(n) + (Latin1("\n") + entries))) == Parsed(table, rest)
  {
    var b3 := Latin1("\n") + entries;
    var b2 := [SPACE] + (Dec(n) + b3);
    XrefWord(Dec(n) + b3);
    ExpectWritten("xref", Latin1("\n") + (Dec(0) + b2));
    ReadsSpacedNat(0, b2);
    ReadsSpacedNat(n, b3);
    SkipNewLine(entries);
  }

  lemma TableStartsWithDigit(entries: seq<byte>)
    ensures SkipSpace(Latin1(FREE_ENTRY) + entries) == Latin1(FREE_ENTRY) + entries
  {
    assert (Latin1(FREE_ENTRY) + entries)[0] == Latin1(FREE_ENTRY)[0] == 48;
  }

  lemma ReadsXref(offsets: seq<nat>, rest: seq<byte>)
    requires forall i :: 0 <= i < |offsets| ==> offsets[i] < Pow10(10)
    ensures ReadXref(XrefHead(|offsets|) + EntriesOf(offsets) + rest) == Parsed([FREE_HEAD] + InUseAll(offsets), rest)
  {
    ReadsTable(offsets, rest);
    TableStartsWithDigit(EntriesOf(offsets) + rest);
    ReadsXrefHead(|offsets| + 1, Latin1(FREE_ENTRY) + (EntriesOf(offsets) + rest), [FREE_HEAD] + InUseAll(offsets),
                  rest);
    XrefParts(|offsets|, EntriesOf(offsets), rest);
  }

  // -------------------------------------------------------------- the trailer

  predicate AllPrintable(entries: seq<Entry>) {
    forall i :: 0 <= i < |entries| ==> PrintableEntry(entries[i])
  }

  lemma ReadsDictionary(entries: seq<Entry>, rest: seq<byte>)
    requires AllPrintable(entries) && SafeAfter(rest)
    ensures ReadDictionary(Latin1("\n") + (Print(Dictionary(entries)) + rest)) == Parsed(entries, rest)
  {
    SkipNewLine(Print(Dictionary(entries)) + rest);
    PrintOpens(Dictionary(entries), rest);
    ParsePrint(Dictionary(entries), rest);
  }

  lemma RegularWord(word: string)
    requires forall i :: 0 <= i < |word| ==> 'A' <= word[i] <= 'z' && word[i] != '[' && word[i] != ']'
    ensures RegularText(Latin1(word))
  {
  }

  lemma TrailerReads(n: nat)
    ensures AllPrintable(TrailerEntries(n))
    ensures NumberUnder(TrailerEntries(n), "Size") == Some(n + 1)
    ensures ReferenceUnder(TrailerEntries(n), "Root") == Some(1)
  {
    RegularWord("Size");
    RegularWord("Root");
    assert Latin1("Size")[0] != Latin1("Root")[0];
    LookupSkips(TrailerEntries(n), "Size", 0);
    LookupSkips(TrailerEntries(n), "Root", 1);
  }

  lemma ReadsTrailer(n: nat, xref: nat)
    ensures ReadTrailer(Trailer(n, xref)).Parsed? && ReadTrailer(Trailer(n, xref)).value == TrailerEntries(n)
  {
    var last := Latin1(STARTXREF) + Dec(xref) + Latin1(EOF);
    var rest := Latin1("\n") + last;
    TrailerParts(n, xref);
    TrailerPrinted(n);
    TrailerReads(n);
    LineIsSafe(last[0], last[1..]);
    assert last[0] == Latin1(STARTXREF)[0] && last == [last[0]] + last[1..];
    ReadsDictionary(TrailerEntries(n), rest);
    TrailerLine(Print(Dictionary(TrailerEntries(n))), last);
    ExpectWritten("trailer", Latin1("\n") + (Print(Dictionary(TrailerEntries(n))) + rest));
  }

  lemma TrailerLine(d: seq<byte>, last: seq<byte>)
    ensures Latin1(TRAILER) + (d + Latin1("\n")) + last
              == Latin1("trailer") + (Latin1("\n") + (d + (Latin1("\n") + last)))
  {
    assert TRAILER == "trailer" + "\n";
    Latin1Concat("trailer", "\n");
    Regroup(Latin1("trailer"), Latin1("\n"), d, Latin1("\n"));
    Regroup(Latin1("trailer"), Latin1("\n") + d, Latin1("\n"), last);
  }

  lemma DigitTailWritten(pre: seq<byte>, n: nat)
    requires pre != [] && !IsDigit(pre[|pre| - 1])
    ensures DigitTail(pre + Dec(n)) == |Dec(n)|
  {
    var b := pre + Dec(n);
    var k := DigitTail(b);
    assert forall i :: |pre| <= i < |b| ==> b[i] == Dec(n)[i - |pre|];
    assert b[|pre| - 1] == pre[|pre| - 1];
    assert k < |b| ==> !IsDigit(b[|b| - k - 1]);
  }

  lemma ReadsStartXref(pre: seq<byte>, xref: nat)
    ensures ReadStartXref(pre + Latin1(STARTXREF) + Dec(xref) + Latin1(EOF)) == Some(xref)
  {
    var line := pre + Latin1(STARTXREF);
    var body := line + Dec(xref);
    var b := body + Latin1(EOF);
    assert b[|b| - |EOF|..] == Latin1(EOF) && b[..|b| - |EOF|] == body;
    assert line[|line| - 1] == Latin1(STARTXREF)[|STARTXREF| - 1] == 10;
    DigitTailWritten(line, xref);
    assert body[..|body| - |Dec(xref)|] == line && body[|body| - |Dec(xref)|..] == Dec(xref);
    assert line[|line| - |STARTXREF|..] == Latin1(STARTXREF);
    ValueOfDec(xref);
  }

  // ------------------------------------------------------------- random access

  /** The bytes behind object `id`. */
  function After(objects: Table, n: nat, id: nat): seq<byte>
    requires Complete(objects, n) && id <= n
    decreases n - id
  {
    if id == n then XrefHead(n) + Entries(objects, n) + Trailer(n, |Upto(objects, n)|)
    else Object(objects, id + 1) + After(objects, n, id + 1)
  }

  lemma {:induction false} FileSplits(objects: Table, n: nat, id: nat)
    requires Complete(objects, n) && id <= n
    ensures File(objects, n) == Upto(objects, id) + After(objects, n, id)
    decreases n - id
  {
    if id < n {
      FileSplits(objects, n, id + 1);
      Regroup(Upto(objects, id), Object(objects, id + 1), After(objects, n, id + 1), []);
    }
  }

  lemma {:induction false} UptoGrows(objects: Table, n: nat, id: nat)
    requires Complete(objects, n) && id <= n
    ensures |Upto(objects, id)| <= |Upto(objects, n)|
    decreases n - id
  {
    if id < n {
      UptoGrows(objects, n, id + 1);
    }
  }

  /** The part of the file before its cross-reference table is below 10^10 bytes, as ten-digit offsets need. */
  predicate Addressable(objects: Table, n: nat)
    requires Complete(objects, n)
  {
    |Upto(objects, n)| < Pow10(10)
  }

  lemma OffsetsFit(objects: Table, n: nat)
    requires Complete(objects, n) && Addressable(objects, n)
    ensures forall i :: 0 <= i < n ==> Offsets(objects, n)[i] < Pow10(10)
  {
    forall i | 0 <= i < n ensures Offsets(objects, n)[i] < Pow10(10) {
      UptoGrows(objects, n, i);
    }
  }

  function TableOf(objects: Table, n: nat): seq<XrefEntry>
    requires Complete(objects, n)
  {
    [FREE_HEAD] + InUseAll(Offsets(objects, n))
  }

  lemma XrefOfWritten(objects: Table, n: nat)
    requires Complete(objects, n) && Addressable(objects, n)
    ensures var start := |Upto(objects, n)|;
            && start <= |File(objects, n)|
            && ReadXref(File(objects, n)[start..]) == Parsed(TableOf(objects, n), Trailer(n, start))
  {
    var head, tail := Upto(objects, n), Trailer(n, |Upto(objects, n)|);
    OffsetsFit(objects, n);
    EntriesByOffset(objects, n);
    SplitAt(File(objects, n), head, XrefHead(n) + Entries(objects, n) + tail);
    ReadsXref(Offsets(objects, n), tail);
  }

  predicate TrailerSays(b: seq<byte>, size: nat, root: nat) {
    var trailer := ReadTrailer(b);
    && trailer.Parsed?
    && NumberUnder(trailer.value, "Size") == Some(size) && ReferenceUnder(trailer.value, "Root") == Some(root)
  }

  lemma TrailerOfWritten(n: nat, xref: nat)
    ensures TrailerSays(Trailer(n, xref), n + 1, 1)
  {
    ReadsTrailer(n, xref);
    TrailerReads(n);
  }

  /** At `start` stands a table whose trailer agrees with it. */
  predicate TableSays(b: seq<byte>, start: nat, table: seq<XrefEntry>, root: nat) {
    && start <= |b|
    && ReadXref(b[start..]).Parsed? && ReadXref(b[start..]).value == table
    && TrailerSays(ReadXref(b[start..]).rest, |table|, root)
  }

  lemma TableOfWritten(objects: Table, n: nat)
    requires Complete(objects, n) && Addressable(objects, n)
    ensures TableSays(File(objects, n), |Upto(objects, n)|, TableOf(objects, n), 1)
  {
    var start := |Upto(objects, n)|;
    XrefOfWritten(objects, n);
    var b, table, tail := File(objects, n), TableOf(objects, n), Trailer(n, start);
    TrailerOfTable(b, table, tail, start, n);
  }

  lemma TrailerOfTable(b: seq<byte>, table: seq<XrefEntry>, tail: seq<byte>, start: nat, n: nat)
    requires start <= |b| && ReadXref(b[start..]) == Parsed(table, tail)
    requires |table| == n + 1 && tail == Trailer(n, start)
    ensures TableSays(b, start, table, 1)
  {
    TrailerOfWritten(n, start);
  }

  lemma OpenFromParts(b: seq<byte>, start: nat, table: seq<XrefEntry>, root: nat)
    requires ReadStartXref(b) == Some(start) && TableSays(b, start, table, root)
    ensures Open(b) == Some(Opened(table, root))
  {
  }

  /** Following the end of the file leads to a table with one entry per object, at the object's own offset. */
  lemma OpensWritten(objects: Table, n: nat)
    requires Complete(objects, n) && Addressable(objects, n)
    ensures Open(File(objects, n)) == Some(Opened(TableOf(objects, n), 1))
  {
    StartOfWritten(objects, n, Upto(objects, n) + (XrefHead(n) + Entries(objects, n)) + TrailerDict(n));
    TableOfWritten(objects, n);
    OpenFromParts(File(objects, n), |Upto(objects, n)|, TableOf(objects, n), 1);
  }

  lemma TrailerParts(n: nat, xref: nat)
    ensures Trailer(n, xref) == TrailerDict(n) + (Latin1(STARTXREF) + Dec(xref) + Latin1(EOF))
  {
  }

  lemma StartOfWritten(objects: Table, n: nat, upto: seq<byte>)
    requires Complete(objects, n)
    requires upto == Upto(objects, n) + (XrefHead(n) + Entries(objects, n)) + TrailerDict(n)
    ensures ReadStartXref(File(objects, n)) == Some(|Upto(objects, n)|)
  {
    var xref := |Upto(objects, n)|;
    var last := Latin1(STARTXREF) + Dec(xref) + Latin1(EOF);
    TrailerParts(n, xref);
    Regroup(Upto(objects, n), XrefHead(n) + Entries(objects, n), TrailerDict(n), last);
    Regroup(XrefHead(n) + Entries(objects, n), TrailerDict(n), last, []);
    assert File(objects, n) == upto + last;
    Regroup(upto, Latin1(STARTXREF), Dec(xref), Latin1(EOF));
    ReadsStartXref(upto, xref);
  }

  lemma WordStarts(word: string, rest: seq<byte>)
    requires word != []
    ensures var b := Latin1(word) + rest;
            b != [] && b[0] == ByteOf(word[0]) && b == [b[0]] + b[1..]
  {
  }

  lemma ReadsHeaderEnd(rest: seq<byte>)
    ensures ReadNat(SkipSpace(Latin1(OBJ) + rest)).Parsed? && ReadNat(SkipSpace(Latin1(OBJ) + rest)).value == 0
    ensures Expect("obj", SkipSpace(ReadNat(SkipSpace(Latin1(OBJ) + rest)).rest)) == Parsed((), Latin1("\n") + rest)
  {
    var word := Latin1("obj") + (Latin1("\n") + rest);
    HeaderWord(rest);
    ReadsSpacedNat(0, [SPACE] + word);
    SkipOneSpace(word);
    WordStarts("obj", Latin1("\n") + rest);
    ExpectWritten("obj", Latin1("\n") + rest);
  }

  lemma ReadsHeader(id: nat, rest: seq<byte>)
    ensures ReadHeader(Dec(id) + (Latin1(OBJ) + rest), id, 0) == Parsed((), Latin1("\n") + rest)
  {
    ReadsHeaderEnd(rest);
    WordStarts(OBJ, rest);
    ReadNatAtBoundary(id, Latin1(OBJ) + rest);
  }

  lemma HeaderWord(rest: seq<byte>)
    ensures Latin1(OBJ) + rest == [SPACE] + (Dec(0) + ([SPACE] + (Latin1("obj") + (Latin1("\n") + rest))))
  {
    assert OBJ == " " + ("0" + (" " + ("obj" + "\n")));
    Latin1Concat(" ", "0" + (" " + ("obj" + "\n")));
    Latin1Concat("0", " " + ("obj" + "\n"));
    Latin1Concat(" ", "obj" + "\n");
    Latin1Concat("obj", "\n");
    assert Latin1("0") == Dec(0) && Latin1(" ") == [SPACE];
  }

  /** The table's entry for `id` leads to the header of object `id`, behind which its body stands. */
  lemma FindsObject(objects: Table, n: nat, id: nat)
    requires Complete(objects, n) && 1 <= id <= n
    ensures ObjectAt(File(objects, n), TableOf(objects, n), id)
              == Parsed((), Latin1("\n") + (objects[id] + (Latin1(ENDOBJ) + After(objects, n, id))))
  {
    TableEntry(objects, n, id);
    FileFromObject(objects, n, id);
    AfterUnfolds(objects, n, id);
    ObjectParts(objects, id, After(objects, n, id));
    ReadsHeader(id, objects[id] + (Latin1(ENDOBJ) + After(objects, n, id)));
  }

  lemma EndParts(after: seq<byte>)
    ensures Latin1(ENDOBJ) + after == Latin1("\n") + (Latin1("endobj") + (Latin1("\n") + after))
  {
    assert ENDOBJ == "\n" + ("endobj" + "\n");
    Latin1Concat("\n", "endobj" + "\n");
    Latin1Concat("endobj", "\n");
    Regroup(Latin1("\n"), Latin1("endobj"), Latin1("\n"), after);
    Regroup(Latin1("endobj"), Latin1("\n"), after, []);
  }

  lemma EndWord(after: seq<byte>)
    ensures SafeAfter(Latin1(ENDOBJ) + after)
    ensures ReadEnd(Latin1(ENDOBJ) + after) == Parsed((), Latin1("\n") + after)
  {
    var word := Latin1("endobj") + (Latin1("\n") + after);
    EndParts(after);
    WordStarts("endobj", Latin1("\n") + after);
    LineIsSafe(word[0], word[1..]);
    SkipNewLine(word);
    ExpectWritten("endobj", Latin1("\n") + after);
  }

  /** An object that was written as a dictionary is found and read as that dictionary. */
  lemma ReadsDictionaryObject(objects: Table, n: nat, id: nat, entries: seq<Entry>)
    requires Complete(objects, n) && Addressable(objects, n) && 1 <= id <= n
    requires objects[id] == Print(Dictionary(entries)) && AllPrintable(entries)
    ensures DictionaryAt(File(objects, n), TableOf(objects, n), id) == Some(entries)
  {
    FindsObject(objects, n, id);
    EndWord(After(objects, n, id));
    ReadsDictionary(entries, Latin1(ENDOBJ) + After(objects, n, id));
  }

  /** From the offset of `id` the file goes on with object `id`. */
  lemma FileFromObject(objects: Table, n: nat, id: nat)
    requires Complete(objects, n) && 1 <= id <= n
    ensures Offset(objects, id) <= |File(objects, n)|
    ensures File(objects, n)[Offset(objects, id)..] == After(objects, n, id - 1)
  {
    FileSplits(objects, n, id - 1);
    SplitAt(File(objects, n), Upto(objects, id - 1), After(objects, n, id - 1));
  }

  lemma SplitAt(whole: seq<byte>, a: seq<byte>, b: seq<byte>)
    requires whole == a + b
    ensures |a| <= |whole| && whole[|a|..] == b
  {
  }

  lemma TableEntry(objects: Table, n: nat, id: nat)
    requires Complete(objects, n) && 1 <= id <= n
    ensures |TableOf(objects, n)| == n + 1 && TableOf(objects, n)[id] == InUse(Offset(objects, id), 0)
  {
  }

  lemma AfterUnfolds(objects: Table, n: nat, id: nat)
    requires Complete(objects, n) && 1 <= id <= n
    ensures After(objects, n, id - 1) == Object(objects, id) + After(objects, n, id)
  {
  }

  lemma ObjectParts(objects: Table, id: nat, after: seq<byte>)
    requires id in objects
    ensures Object(objects, id) + after == Dec(id) + (Latin1(OBJ) + (objects[id] + (Latin1(ENDOBJ) + after)))
  {
  }
}
