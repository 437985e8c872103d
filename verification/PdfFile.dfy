/**
 The file layout of `_build_pdf`, for any object table numbered from 1: header, the objects in numeric
 order, a cross-reference table of their offsets, and a trailer that says where the table is.
 */
module PdfFile {
  import opened Bytes
  import opened PdfText

  type Table = map<nat, seq<byte>>

  predicate Complete(objects: Table, n: nat) {
    forall id :: 1 <= id <= n ==> id in objects
  }

  const OBJ := " 0 obj\n"
  const ENDOBJ := "\nendobj\n"

  function Object(objects: Table, id: nat): seq<byte>
    requires id in objects
  {
    Dec(id) + Latin1(OBJ) + objects[id] + Latin1(ENDOBJ)
  }

  function Header(): seq<byte> {
    Latin1("%PDF-1.4\n%") + [0xe2, 0xe3, 0xcf, 0xd3] + Latin1("\n")
  }

  /** The file up to and including object `k`. */
  function Upto(objects: Table, k: nat): seq<byte>
    requires Complete(objects, k)
  {
    if k == 0 then Header() else Upto(objects, k - 1) + Object(objects, k)
  }

  /** Where object `id` starts. */
  function Offset(objects: Table, id: nat): nat
    requires id >= 1 && Complete(objects, id)
  {
    |Upto(objects, id - 1)|
  }

  const XREF := "xref\n0 "
  const FREE_ENTRY := "0000000000 65535 f \n"
  const IN_USE := " 00000 n \n"

  function XrefLine(offset: nat): seq<byte> {
    Padded(offset, 10) + Latin1(IN_USE)
  }

  /** Cross-reference entries of objects 1 to `k`. */
  function Entries(objects: Table, k: nat): seq<byte>
    requires Complete(objects, k)
  {
    if k == 0 then [] else Entries(objects, k - 1) + XrefLine(Offset(objects, k))
  }

  function XrefHead(n: nat): seq<byte> {
    Latin1(XREF) + Dec(n + 1) + Latin1("\n") + Latin1(FREE_ENTRY)
  }

  const SIZE := TRAILER + "<<" + " /Size "
  const TRAILER := "trailer\n"
  const ROOT := " /Root "
  const TRAILER_END := " 0 R" + " >>" + "\n"
  const STARTXREF := "startxref\n"
  const EOF := "\n%%EOF"

  /** The trailer dictionary; the catalog is object 1. */
  function TrailerDict(n: nat): seq<byte> {
    Latin1(SIZE) + Dec(n + 1) + Latin1(ROOT) + Dec(1) + Latin1(TRAILER_END)
  }

  function Trailer(n: nat, xref: nat): seq<byte> {
    TrailerDict(n) + Latin1(STARTXREF) + Dec(xref) + Latin1(EOF)
  }

  function File(objects: Table, n: nat): seq<byte>
    requires Complete(objects, n)
  {
    Upto(objects, n) + (XrefHead(n) + Entries(objects, n) + Trailer(n, |Upto(objects, n)|))
  }

  /** Extends the buffer object by object, noting each offset first. */
  method WriteObjects(objects: Table, n: nat) returns (output: seq<byte>, offsets: seq<nat>)
    requires Complete(objects, n)
    ensures output == Upto(objects, n)
    ensures |offsets| == n + 1 && forall k :: 1 <= k <= n ==> offsets[k] == Offset(objects, k)
  {
    output := Header();
    offsets := [0];
    for id := 1 to n + 1
      invariant output == Upto(objects, id - 1)
      invariant |offsets| == id && forall k :: 1 <= k < id ==> offsets[k] == Offset(objects, k)
    {
      offsets := offsets + [|output|];
      output := output + Object(objects, id);
    }
  }

  /** Extends the buffer by one entry per recorded offset. */
  method WriteEntries(objects: Table, n: nat, offsets: seq<nat>, start: seq<byte>) returns (output: seq<byte>)
    requires Complete(objects, n)
    requires |offsets| == n + 1 && forall k :: 1 <= k <= n ==> offsets[k] == Offset(objects, k)
    ensures output == start + Entries(objects, n)
  {
    output := start;
    for k := 1 to |offsets|
      invariant output == start + Entries(objects, k - 1)
    {
      Regroup(start, Entries(objects, k - 1), XrefLine(offsets[k]), []);
      output := output + XrefLine(offsets[k]);
    }
  }

  /** The second half of `_build_pdf`. */
  method WriteFile(objects: Table, n: nat) returns (output: seq<byte>)
    requires Complete(objects, n)
    ensures output == File(objects, n)
  {
    var offsets;
    output, offsets := WriteObjects(objects, n);
    var xref := |output|;
    output := output + XrefHead(n);
    output := WriteEntries(objects, n, offsets, output);
    output := output + Trailer(n, xref);
    Regroup(Upto(objects, n), XrefHead(n), Entries(objects, n), Trailer(n, xref));
  }
}
