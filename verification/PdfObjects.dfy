/**
 PDF objects as ISO 32000-1, section 7.3 writes them: names, non-negative integers, references, arrays
 and dictionaries, with any white space between them. `Parse` reads them, `Print` writes them as the
 renderer does, and `ParsePrint` says that reading what was written gives the object back.
 */
module PdfObjects {
  import opened Wrappers
  import opened Bytes
  import opened PdfText

  datatype Value =
    | Name(text: seq<byte>)
    | Number(n: nat)
    | Reference(id: nat, generation: nat)
    | Array(items: seq<Value>)
    | Dictionary(entries: seq<Entry>)

  datatype Entry = Entry(key: seq<byte>, value: Value)

  const SPACE: byte := 32
  const SLASH: byte := 47
  const LESS: byte := 60
  const GREATER: byte := 62
  const OPEN_BRACKET: byte := 91
  const CLOSE_BRACKET: byte := 93
  const LETTER_R: byte := 82

  /** Section 7.2.2. */
  predicate IsSpace(b: byte) {
    b == 0 || b == 9 || b == 10 || b == 12 || b == 13 || b == 32
  }

  predicate IsDelimiter(b: byte) {
    b == 40 || b == 41 || b == 60 || b == 62 || b == 91 || b == 93 || b == 123 || b == 125 || b == 47 || b == 37
  }

  predicate IsRegular(b: byte) {
    !IsSpace(b) && !IsDelimiter(b)
  }

  // -------------------------------------------------------------------- reading

  function SkipSpace(b: seq<byte>): (r: seq<byte>)
    ensures |r| <= |b| && (r != [] ==> !IsSpace(r[0]))
  {
    if b != [] && IsSpace(b[0]) then SkipSpace(b[1..]) else b
  }

  function RegularRun(b: seq<byte>): (k: nat)
    ensures k <= |b|
  {
    if b != [] && IsRegular(b[0]) then 1 + RegularRun(b[1..]) else 0
  }

  predicate AtBoundary(b: seq<byte>) {
    b == [] || !IsRegular(b[0])
  }

  function ParseName(b: seq<byte>): (r: Parsed<seq<byte>>)
    ensures r.Parsed? ==> |r.rest| < |b|
  {
    if b == [] || b[0] != SLASH then NoParse
    else
      var k := RegularRun(b[1..]);
      Parsed(b[1..][..k], b[1..][k..])
  }

  /** What follows the first number of a reference: a generation number and the letter R. */
  function ParseReferenceTail(b: seq<byte>): (r: Parsed<nat>)
    ensures r.Parsed? ==> |r.rest| < |b|
  {
    if b == [] || !IsSpace(b[0]) then NoParse
    else
      var (generation, b1) :- ReadNat(SkipSpace(b));
      var b2 := SkipSpace(b1);
      if b1 != [] && IsSpace(b1[0]) && b2 != [] && b2[0] == LETTER_R && AtBoundary(b2[1..])
      then Parsed(generation, b2[1..])
      else NoParse
  }

  function ParseNumber(b: seq<byte>): (r: Parsed<Value>)
    ensures r.Parsed? ==> |r.rest| < |b|
  {
    var (n, b1) :- ReadNat(b);
    match ParseReferenceTail(b1)
    case NoParse => Parsed(Number(n), b1)
    case Parsed(generation, b2) => Parsed(Reference(n, generation), b2)
  }

  predicate StartsWith(b: seq<byte>, first: byte, second: byte) {
    |b| >= 2 && b[0] == first && b[1] == second
  }

  function Parse(b: seq<byte>): (r: Parsed<Value>)
    ensures r.Parsed? ==> |r.rest| < |b|
    decreases |b|, 1
  {
    if b == [] then NoParse
    else if b[0] == SLASH then
      var name := ParseName(b);
      Parsed(Name(name.value), name.rest)
    else if b[0] == OPEN_BRACKET then
      var (items, b1) :- ParseItems(b[1..]);
      Parsed(Array(items), b1)
    else if StartsWith(b, LESS, LESS) then
      var (entries, b1) :- ParseEntries(b[2..]);
      Parsed(Dictionary(entries), b1)
    else
      ParseNumber(b)
  }

  /** Items up to the closing bracket. */
  function ParseItems(b: seq<byte>): (r: Parsed<seq<Value>>)
    ensures r.Parsed? ==> |r.rest| < |b|
    decreases |b|, 2
  {
    var b1 := SkipSpace(b);
    if b1 == [] then NoParse
    else if b1[0] == CLOSE_BRACKET then Parsed([], b1[1..])
    else
      var (item, b2) :- Parse(b1);
      var (more, b3) :- ParseItems(b2);
      Parsed([item] + more, b3)
  }

  /** Keys and values up to the closing angle brackets. */
  function ParseEntries(b: seq<byte>): (r: Parsed<seq<Entry>>)
    ensures r.Parsed? ==> |r.rest| < |b|
    decreases |b|, 2
  {
    var b1 := SkipSpace(b);
    if StartsWith(b1, GREATER, GREATER) then Parsed([], b1[2..])
    else
      var (key, b2) :- ParseName(b1);
      var (value, b3) :- Parse(SkipSpace(b2));
      var (more, b4) :- ParseEntries(b3);
      Parsed([Entry(key, value)] + more, b4)
  }

  /** The value of a key, at its first occurrence. */
  function Lookup(entries: seq<Entry>, key: string): Option<Value> {
    if entries == [] then None
    else if entries[0].key == Latin1(key) then Some(entries[0].value)
    else Lookup(entries[1..], key)
  }

  /** Looking a key up passes over the entries before its first one. */
  lemma {:induction false} LookupSkips(d: seq<Entry>, key: string, i: nat)
    requires i < |d| && d[i].key == Latin1(key) && forall j :: 0 <= j < i ==> d[j].key != Latin1(key)
    ensures Lookup(d, key) == Some(d[i].value)
  {
    if i > 0 {
      LookupSkips(d[1..], key, i - 1);
    }
  }

  // -------------------------------------------------------------------- writing

  function Print(v: Value): seq<byte>
    decreases v
  {
    match v
    case Name(text) => [SLASH] + text
    case Number(n) => Dec(n)
    case Reference(id, generation) => Dec(id) + ([SPACE] + (Dec(generation) + [SPACE, LETTER_R]))
    case Array(items) => [OPEN_BRACKET] + (PrintItems(items) + [CLOSE_BRACKET])
    case Dictionary(entries) => [LESS, LESS] + (PrintEntries(entries) + [SPACE, GREATER, GREATER])
  }

  function PrintItems(items: seq<Value>): seq<byte>
    decreases items
  {
    if items == [] then [] else Print(items[0]) + PrintMore(items[1..])
  }

  /** The items behind another one. */
  function PrintMore(items: seq<Value>): seq<byte>
    decreases items
  {
    if items == [] then [] else [SPACE] + Print(items[0]) + PrintMore(items[1..])
  }

  function PrintEntries(entries: seq<Entry>): seq<byte>
    decreases entries
  {
    if entries == [] then []
    else PrintEntry(entries[0]) + PrintEntries(entries[1..])
  }

  function PrintEntry(e: Entry): seq<byte>
    decreases e
  {
    [SPACE, SLASH] + (e.key + ([SPACE] + Print(e.value)))
  }

  predicate RegularText(text: seq<byte>) {
    forall i :: 0 <= i < |text| ==> IsRegular(text[i])
  }

  /** Every name in the value consists of regular characters. */
  predicate Printable(v: Value)
    decreases v
  {
    match v
    case Name(text) => RegularText(text)
    case Array(items) => forall i :: 0 <= i < |items| ==> Printable(items[i])
    case Dictionary(entries) => forall i :: 0 <= i < |entries| ==> PrintableEntry(entries[i])
    case _ => true
  }

  predicate PrintableEntry(e: Entry)
    decreases e
  {
    RegularText(e.key) && Printable(e.value)
  }

  // ---------------------------------------------------------------- round trip

  predicate BeginsWithR(b: seq<byte>) {
    var b1 := SkipSpace(b);
    b1 != [] && b1[0] == LETTER_R
  }

  /** What may follow a value without being taken for a part of it. */
  predicate SafeAfter(b: seq<byte>) {
    AtBoundary(b) && ParseReferenceTail(b).NoParse? && !BeginsWithR(b)
  }

  /** The first byte of a written value. */
  predicate Opener(b: byte) {
    b == SLASH || IsDigit(b) || b == OPEN_BRACKET || b == LESS
  }

  lemma PrintOpens(v: Value, rest: seq<byte>)
    ensures Print(v) != [] && Opener(Print(v)[0])
    ensures (Print(v) + rest)[0] == Print(v)[0] && SkipSpace(Print(v) + rest) == Print(v) + rest
  {
  }

  lemma SkipOneSpace(b: seq<byte>)
    ensures SkipSpace([SPACE] + b) == SkipSpace(b)
  {
    assert ([SPACE] + b)[1..] == b;
  }

  lemma SkipNewLine(b: seq<byte>)
    ensures SkipSpace(Latin1("\n") + b) == SkipSpace(b)
  {
    assert (Latin1("\n") + b)[1..] == b;
  }

  lemma LineIsSafe(first: byte, rest: seq<byte>)
    requires IsRegular(first) && !IsDigit(first) && first != LETTER_R
    ensures SafeAfter(Latin1("\n") + ([first] + rest)) && SafeAfter([SPACE] + ([first] + rest))
  {
    SkipNewLine([first] + rest);
    SkipOneSpace([first] + rest);
    assert SkipSpace([first] + rest) == [first] + rest;
  }

  lemma RunOfRegular(text: seq<byte>, rest: seq<byte>)
    requires RegularText(text) && AtBoundary(rest)
    ensures RegularRun(text + rest) == |text|
  {
    if text == [] {
      assert text + rest == rest;
    } else {
      RunOfRegular(text[1..], rest);
      assert (text + rest)[1..] == text[1..] + rest;
    }
  }

  lemma ParseWrittenName(text: seq<byte>, rest: seq<byte>)
    requires RegularText(text) && AtBoundary(rest)
    ensures ParseName([SLASH] + (text + rest)) == Parsed(text, rest)
  {
    var b := [SLASH] + (text + rest);
    assert b[1..] == text + rest;
    RunOfRegular(text, rest);
  }

  lemma ReadNatAtBoundary(n: nat, rest: seq<byte>)
    requires AtBoundary(rest)
    ensures ReadNat(Dec(n) + rest) == Parsed(n, rest)
  {
    ReadWrittenNat(n, rest);
  }

  lemma BehindGeneration(rest: seq<byte>)
    requires AtBoundary(rest)
    ensures var last := [SPACE, LETTER_R] + rest;
            AtBoundary(last) && IsSpace(last[0]) && SkipSpace(last) == [LETTER_R] + rest
  {
    var last := [SPACE, LETTER_R] + rest;
    assert last == [SPACE] + ([LETTER_R] + rest);
    SkipOneSpace([LETTER_R] + rest);
    assert SkipSpace([LETTER_R] + rest) == [LETTER_R] + rest;
  }

  lemma ParseWrittenTail(generation: nat, rest: seq<byte>)
    requires AtBoundary(rest)
    ensures ParseReferenceTail([SPACE] + (Dec(generation) + ([SPACE, LETTER_R] + rest))) == Parsed(generation, rest)
  {
    var last := [SPACE, LETTER_R] + rest;
    BehindGeneration(rest);
    SkipOneSpace(Dec(generation) + last);
    PrintOpens(Number(generation), last);
    ReadNatAtBoundary(generation, last);
    assert ([LETTER_R] + rest)[1..] == rest;
  }

  /** No reference tail starts with a value that is not a number, nor with one not followed by R. */
  lemma SpacedValueIsSafe(v: Value, rest: seq<byte>)
    requires SafeAfter(rest)
    ensures SafeAfter([SPACE] + (Print(v) + rest))
  {
    SkipOneSpace(Print(v) + rest);
    PrintOpens(v, rest);
    match v
    case Number(n) => ReadNatAtBoundary(n, rest);
    case Reference(id, generation) =>
      var tail := [SPACE] + (Dec(generation) + ([SPACE, LETTER_R] + rest));
      ReferenceParts(id, generation, rest);
      ReadNatAtBoundary(id, tail);
      SkipOneSpace(Dec(generation) + ([SPACE, LETTER_R] + rest));
      PrintOpens(Number(generation), [SPACE, LETTER_R] + rest);
    case _ =>
  }

  lemma ReferenceParts(id: nat, generation: nat, rest: seq<byte>)
    ensures Print(Reference(id, generation)) + rest
              == Dec(id) + ([SPACE] + (Dec(generation) + ([SPACE, LETTER_R] + rest)))
  {
  }

  lemma CloserIsSafe(closer: byte, rest: seq<byte>)
    requires closer == CLOSE_BRACKET || closer == GREATER || closer == SLASH
    ensures SafeAfter([closer] + rest) && SafeAfter([SPACE] + ([closer] + rest))
  {
    SkipOneSpace([closer] + rest);
    assert SkipSpace([closer] + rest) == [closer] + rest;
  }

  lemma ParseWrittenNumber(n: nat, rest: seq<byte>)
    requires SafeAfter(rest)
    ensures Parse(Dec(n) + rest) == Parsed(Number(n), rest)
  {
    ReadNatAtBoundary(n, rest);
    PrintOpens(Number(n), rest);
  }

  lemma ParseWrittenReference(id: nat, generation: nat, rest: seq<byte>)
    requires AtBoundary(rest)
    ensures Parse(Print(Reference(id, generation)) + rest) == Parsed(Reference(id, generation), rest)
  {
    var tail := [SPACE] + (Dec(generation) + ([SPACE, LETTER_R] + rest));
    ReferenceParts(id, generation, rest);
    ReadNatAtBoundary(id, tail);
    ParseWrittenTail(generation, rest);
    PrintOpens(Number(id), tail);
  }

  /** Reading what was written gives the value back and stops right behind it. */
  lemma {:induction false} ParsePrint(v: Value, rest: seq<byte>)
    requires Printable(v) && SafeAfter(rest)
    ensures Parse(Print(v) + rest) == Parsed(v, rest)
    decreases v, 0
  {
    match v
    case Name(text) => ParsePrintName(text, rest);
    case Number(n) => ParseWrittenNumber(n, rest);
    case Reference(id, generation) => ParseWrittenReference(id, generation, rest);
    case Array(items) =>
      ParsePrintItems(items, rest);
      ArrayFromItems(items, rest);
    case Dictionary(entries) =>
      ParsePrintEntries(entries, rest);
      DictionaryFromEntries(entries, rest);
  }

  lemma ParsePrintName(text: seq<byte>, rest: seq<byte>)
    requires RegularText(text) && AtBoundary(rest)
    ensures Parse(Print(Name(text)) + rest) == Parsed(Name(text), rest)
  {
    NameParts(text, rest);
    ParseWrittenName(text, rest);
    NameFromParts([SLASH] + (text + rest), text, rest);
  }

  lemma NameParts(text: seq<byte>, rest: seq<byte>)
    ensures Print(Name(text)) + rest == [SLASH] + (text + rest)
  {
  }

  lemma NameFromParts(b: seq<byte>, text: seq<byte>, rest: seq<byte>)
    requires ParseName(b) == Parsed(text, rest)
    ensures Parse(b) == Parsed(Name(text), rest)
  {
  }

  lemma ArrayFromItems(items: seq<Value>, rest: seq<byte>)
    requires ParseItems(PrintItems(items) + ([CLOSE_BRACKET] + rest)) == Parsed(items, rest)
    ensures Parse(Print(Array(items)) + rest) == Parsed(Array(items), rest)
  {
    ArrayParts(items, rest);
  }

  lemma DictionaryFromEntries(entries: seq<Entry>, rest: seq<byte>)
    requires ParseEntries(PrintEntries(entries) + ([SPACE, GREATER, GREATER] + rest)) == Parsed(entries, rest)
    ensures Parse(Print(Dictionary(entries)) + rest) == Parsed(Dictionary(entries), rest)
  {
    DictionaryParts(entries, rest);
  }

  lemma ArrayParts(items: seq<Value>, rest: seq<byte>)
    ensures (Print(Array(items)) + rest)[0] == OPEN_BRACKET
    ensures (Print(Array(items)) + rest)[1..] == PrintItems(items) + ([CLOSE_BRACKET] + rest)
  {
  }

  lemma DictionaryParts(entries: seq<Entry>, rest: seq<byte>)
    ensures StartsWith(Print(Dictionary(entries)) + rest, LESS, LESS)
    ensures (Print(Dictionary(entries)) + rest)[2..] == PrintEntries(entries) + ([SPACE, GREATER, GREATER] + rest)
  {
  }

  lemma MoreParts(items: seq<Value>, end: seq<byte>)
    requires items != []
    ensures PrintMore(items) + end == [SPACE] + (Print(items[0]) + (PrintMore(items[1..]) + end))
  {
    Regroup([SPACE], Print(items[0]), PrintMore(items[1..]), end);
    Regroup(Print(items[0]), PrintMore(items[1..]), end, []);
  }

  /** Behind an item stands the closing bracket, or a space and the next item. */
  lemma {:induction false} MoreIsSafe(items: seq<Value>, rest: seq<byte>)
    ensures SafeAfter(PrintMore(items) + ([CLOSE_BRACKET] + rest))
    decreases |items|
  {
    var end := [CLOSE_BRACKET] + rest;
    if items == [] {
      CloserIsSafe(CLOSE_BRACKET, rest);
      assert PrintMore(items) + end == end;
    } else {
      MoreIsSafe(items[1..], rest);
      SpacedValueIsSafe(items[0], PrintMore(items[1..]) + end);
      MoreParts(items, end);
    }
  }

  lemma {:induction false} ParsePrintMore(items: seq<Value>, rest: seq<byte>)
    requires forall i :: 0 <= i < |items| ==> Printable(items[i])
    ensures ParseItems(PrintMore(items) + ([CLOSE_BRACKET] + rest)) == Parsed(items, rest)
    decreases items, 0
  {
    var end := [CLOSE_BRACKET] + rest;
    if items == [] {
      assert PrintMore(items) + end == end && SkipSpace(end) == end && end[1..] == rest;
    } else {
      var more := PrintMore(items[1..]) + end;
      MoreIsSafe(items[1..], rest);
      ParsePrint(items[0], more);
      ParsePrintMore(items[1..], rest);
      OneItem(items[0], more, items[1..], rest);
      SkipOneSpace(Print(items[0]) + more);
      MoreParts(items, end);
      assert items == [items[0]] + items[1..];
    }
  }

  lemma {:induction false} ParsePrintItems(items: seq<Value>, rest: seq<byte>)
    requires forall i :: 0 <= i < |items| ==> Printable(items[i])
    ensures ParseItems(PrintItems(items) + ([CLOSE_BRACKET] + rest)) == Parsed(items, rest)
    decreases items, 1
  {
    var end := [CLOSE_BRACKET] + rest;
    if items == [] {
      assert PrintItems(items) + end == end && SkipSpace(end) == end && end[1..] == rest;
    } else {
      var more := PrintMore(items[1..]) + end;
      MoreIsSafe(items[1..], rest);
      ParsePrint(items[0], more);
      ParsePrintMore(items[1..], rest);
      OneItem(items[0], more, items[1..], rest);
      Regroup(Print(items[0]), PrintMore(items[1..]), end, []);
      assert items == [items[0]] + items[1..];
    }
  }

  lemma OneItem(item: Value, more: seq<byte>, items: seq<Value>, rest: seq<byte>)
    requires Parse(Print(item) + more) == Parsed(item, more) && ParseItems(more) == Parsed(items, rest)
    ensures ParseItems(Print(item) + more) == Parsed([item] + items, rest)
  {
    PrintOpens(item, more);
  }

  lemma EntriesAreSafe(entries: seq<Entry>, rest: seq<byte>)
    ensures SafeAfter(PrintEntries(entries) + ([SPACE, GREATER, GREATER] + rest))
  {
    var end := [SPACE, GREATER, GREATER] + rest;
    if entries == [] {
      CloserIsSafe(GREATER, [GREATER] + rest);
      assert PrintEntries(entries) + end == [SPACE] + ([GREATER] + ([GREATER] + rest));
    } else {
      var e := entries[0];
      CloserIsSafe(SLASH, e.key + ([SPACE] + (Print(e.value) + (PrintEntries(entries[1..]) + end))));
      EntryParts(e, PrintEntries(entries[1..]), end);
    }
  }

  lemma {:induction false} ParsePrintEntries(entries: seq<Entry>, rest: seq<byte>)
    requires forall i :: 0 <= i < |entries| ==> PrintableEntry(entries[i])
    ensures ParseEntries(PrintEntries(entries) + ([SPACE, GREATER, GREATER] + rest)) == Parsed(entries, rest)
    decreases entries, 0
  {
    var end := [SPACE, GREATER, GREATER] + rest;
    if entries == [] {
      var closing := [GREATER, GREATER] + rest;
      SkipOneSpace(closing);
      assert PrintEntries(entries) + end == [SPACE] + closing && SkipSpace(closing) == closing && closing[2..] == rest;
    } else {
      var e, more := entries[0], PrintEntries(entries[1..]) + end;
      EntriesAreSafe(entries[1..], rest);
      assert PrintableEntry(e);
      ParsePrint(e.value, more);
      ParsePrintEntries(entries[1..], rest);
      OneEntry(e, more, entries[1..], rest);
      EntryParts(e, PrintEntries(entries[1..]), end);
      assert entries == [e] + entries[1..];
    }
  }

  lemma EntryParts(e: Entry, entries: seq<byte>, end: seq<byte>)
    ensures PrintEntry(e) + entries + end
              == [SPACE] + ([SLASH] + (e.key + ([SPACE] + (Print(e.value) + (entries + end)))))
  {
  }

  lemma OneEntry(e: Entry, more: seq<byte>, entries: seq<Entry>, rest: seq<byte>)
    requires RegularText(e.key) && Parse(Print(e.value) + more) == Parsed(e.value, more)
    requires ParseEntries(more) == Parsed(entries, rest)
    ensures ParseEntries([SPACE] + ([SLASH] + (e.key + ([SPACE] + (Print(e.value) + more)))))
              == Parsed([e] + entries, rest)
  {
    var value := [SPACE] + (Print(e.value) + more);
    SkipOneSpace([SLASH] + (e.key + value));
    ParseWrittenName(e.key, value);
    SkipOneSpace(Print(e.value) + more);
    PrintOpens(e.value, more);
  }
}
