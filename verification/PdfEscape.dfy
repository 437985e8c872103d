/**
 `_escape` of backend/app/documents/quotation_pdf.py against a literal-string reader of ISO 32000-1, section
 7.3.4.2.
 */
module PdfEscape {
  import opened Bytes
  import opened PdfText

  /** `encode("latin-1", errors="replace").decode("latin-1")`. */
  function Safe(value: string): string {
    Decode(Latin1(value))
  }

  function Replaced(c: char, pattern: char, with: string): string {
    if c == pattern then with else [c]
  }

  /** `str.replace` with a one-character pattern. */
  function ReplaceAll(s: string, pattern: char, with: string): string {
    if s == [] then [] else Replaced(s[0], pattern, with) + ReplaceAll(s[1..], pattern, with)
  }

  /** The writer: three replacements one after the other. */
  function Escape(value: string): string {
    ReplaceAll(ReplaceAll(ReplaceAll(Safe(value), '\\', "\\\\"), '(', "\\("), ')', "\\)")
  }

  /** The reference: each character on its own. */
  function EscapedChar(c: char): string {
    if c == '\\' || c == '(' || c == ')' then ['\\', c] else [c]
  }

  function OnePass(s: string): string {
    if s == [] then [] else EscapedChar(s[0]) + OnePass(s[1..])
  }

  lemma ConcatAssociates(a: string, b: string, c: string)
    ensures a + b + c == a + (b + c)
  {
  }

  lemma {:induction false} ReplaceConcat(s: string, t: string, pattern: char, with: string)
    ensures ReplaceAll(s + t, pattern, with) == ReplaceAll(s, pattern, with) + ReplaceAll(t, pattern, with)
  {
    if s == [] {
      assert s + t == t;
    } else {
      ReplaceConcat(s[1..], t, pattern, with);
      assert (s + t)[1..] == s[1..] + t;
      ConcatAssociates(Replaced(s[0], pattern, with), ReplaceAll(s[1..], pattern, with), ReplaceAll(t, pattern, with));
    }
  }

  lemma ReplaceShort(s: string, pattern: char, with: string)
    ensures |s| == 1 ==> ReplaceAll(s, pattern, with) == Replaced(s[0], pattern, with)
    ensures |s| == 2 ==> ReplaceAll(s, pattern, with) == Replaced(s[0], pattern, with) + Replaced(s[1], pattern, with)
  {
  }

  function Thrice(s: string): string {
    ReplaceAll(ReplaceAll(ReplaceAll(s, '\\', "\\\\"), '(', "\\("), ')', "\\)")
  }

  lemma ThriceOfOne(c: char)
    ensures Thrice([c]) == EscapedChar(c)
  {
    ReplaceShort([c], '\\', "\\\\");
    var first := ReplaceAll([c], '\\', "\\\\");
    ReplaceShort(first, '(', "\\(");
    var second := ReplaceAll(first, '(', "\\(");
    ReplaceShort(second, ')', "\\)");
  }

  lemma {:induction false} ThriceIsOnePass(s: string)
    ensures Thrice(s) == OnePass(s)
  {
    if s != [] {
      assert s == [s[0]] + s[1..];
      ReplaceConcat([s[0]], s[1..], '\\', "\\\\");
      var head, tail := ReplaceAll([s[0]], '\\', "\\\\"), ReplaceAll(s[1..], '\\', "\\\\");
      ReplaceConcat(head, tail, '(', "\\(");
      ReplaceConcat(ReplaceAll(head, '(', "\\("), ReplaceAll(tail, '(', "\\("), ')', "\\)");
      ThriceOfOne(s[0]);
      ThriceIsOnePass(s[1..]);
    }
  }

  /** The order of the three replacements is right: together they escape each character once. */
  lemma EscapeIsOnePass(value: string)
    ensures Escape(value) == OnePass(Safe(value))
  {
    ThriceIsOnePass(Safe(value));
  }

  // --------------------------------------------------- the literal-string reader

  const LF: byte := 10
  const CR: byte := 13
  const OPEN: byte := 40
  const CLOSE: byte := 41
  const BACKSLASH: byte := 92

  function Prepend(b: byte, p: Parsed<seq<byte>>): (r: Parsed<seq<byte>>)
    ensures r.Parsed? ==> p.Parsed? && r.rest == p.rest
  {
    if p.NoParse? then NoParse else Parsed([b] + p.value, p.rest)
  }

  predicate IsOctal(b: byte) {
    48 <= b <= 55
  }

  /** A `\ddd` code: up to three octal digits, high-order overflow ignored. */
  function OctalRun(b: seq<byte>): (k: nat)
    ensures k <= 3 && k <= |b| && (forall i :: 0 <= i < k ==> IsOctal(b[i]))
  {
    if |b| == 0 || !IsOctal(b[0]) then 0
    else if |b| == 1 || !IsOctal(b[1]) then 1
    else if |b| == 2 || !IsOctal(b[2]) then 2
    else 3
  }

  function OctalValue(ds: seq<byte>): nat
    requires forall i :: 0 <= i < |ds| ==> IsOctal(ds[i])
  {
    if ds == [] then 0
    else
      assert IsOctal(ds[|ds| - 1]);
      8 * OctalValue(ds[..|ds| - 1]) + (ds[|ds| - 1] as int - 48)
  }

  /** What a backslash followed by `c` stands for when `c` is neither an octal digit nor an end of line. */
  function Unescaped(c: byte): byte {
    if c == 110 then 10 else if c == 114 then 13 else if c == 116 then 9
    else if c == 98 then 8 else if c == 102 then 12 else c
  }

  /** Reads from just after an opening parenthesis to its matching closing one. */
  function ReadLiteral(b: seq<byte>, depth: nat): (r: Parsed<seq<byte>>)
    ensures r.Parsed? ==> |r.rest| < |b|
    decreases |b|
  {
    if b == [] then NoParse
    else if b[0] == CLOSE then
      if depth == 0 then Parsed([], b[1..]) else Prepend(CLOSE, ReadLiteral(b[1..], depth - 1))
    else if b[0] == OPEN then Prepend(OPEN, ReadLiteral(b[1..], depth + 1))
    else if b[0] == CR then
      Prepend(LF, ReadLiteral(if |b| > 1 && b[1] == LF then b[2..] else b[1..], depth))
    else if b[0] == BACKSLASH then
      if |b| == 1 then NoParse
      else if OctalRun(b[1..]) > 0 then
        var k := OctalRun(b[1..]);
        Prepend((OctalValue(b[1..k + 1]) % 256) as byte, ReadLiteral(b[k + 1..], depth))
      else if b[1] == LF then ReadLiteral(b[2..], depth)
      else if b[1] == CR then ReadLiteral(if |b| > 2 && b[2] == LF then b[3..] else b[2..], depth)
      else Prepend(Unescaped(b[1]), ReadLiteral(b[2..], depth))
    else Prepend(b[0], ReadLiteral(b[1..], depth))
  }

  /** A reader takes each end-of-line marker inside a literal for one line feed. */
  function NormalizeEol(b: seq<byte>): (r: seq<byte>)
    decreases |b|
  {
    if b == [] then []
    else if b[0] == CR then [LF] + NormalizeEol(if |b| > 1 && b[1] == LF then b[2..] else b[1..])
    else [b[0]] + NormalizeEol(b[1..])
  }

  lemma ReadEscaped(c: byte, tail: seq<byte>, depth: nat)
    requires c == OPEN || c == CLOSE || c == BACKSLASH
    ensures ReadLiteral([BACKSLASH, c] + tail, depth) == Prepend(c, ReadLiteral(tail, depth))
  {
    var b := [BACKSLASH, c] + tail;
    assert b[2..] == tail && b[1..][0] == c;
  }

  lemma ReadPlain(c: byte, tail: seq<byte>, depth: nat)
    requires c != OPEN && c != CLOSE && c != BACKSLASH
    requires c == CR ==> tail == [] || tail[0] != LF
    ensures ReadLiteral([c] + tail, depth) == Prepend(if c == CR then LF else c, ReadLiteral(tail, depth))
  {
    assert ([c] + tail)[1..] == tail;
  }

  lemma ReadCrLf(tail: seq<byte>, depth: nat)
    ensures ReadLiteral([CR, LF] + tail, depth) == Prepend(LF, ReadLiteral(tail, depth))
  {
  }

  /** What the writer puts between the parentheses, with the closing one and whatever follows. */
  function Written(s: string, rest: seq<byte>): seq<byte> {
    Latin1(OnePass(s)) + [CLOSE] + rest
  }

  lemma WrittenUnfolds(s: string, rest: seq<byte>)
    requires s != []
    ensures Written(s, rest) == Latin1(EscapedChar(s[0])) + Written(s[1..], rest)
    ensures Latin1(s)[1..] == Latin1(s[1..]) && Latin1(s)[0] == ByteOf(s[0])
  {
    Latin1Concat(EscapedChar(s[0]), OnePass(s[1..]));
  }

  lemma ReadsCrLf(s: string, rest: seq<byte>)
    requires |s| > 1 && s[0] == '\r' && s[1] == '\n' && forall i :: 0 <= i < |s| ==> s[i] as int < 256
    requires ReadLiteral(Written(s[2..], rest), 0) == Parsed(NormalizeEol(Latin1(s[2..])), rest)
    ensures ReadLiteral(Written(s, rest), 0) == Parsed(NormalizeEol(Latin1(s)), rest)
  {
    WrittenUnfolds(s, rest);
    WrittenUnfolds(s[1..], rest);
    assert s[1..][1..] == s[2..];
    assert Written(s, rest) == [CR, LF] + Written(s[2..], rest);
    ReadCrLf(Written(s[2..], rest), 0);
    assert Latin1(s)[2..] == Latin1(s[2..]);
  }

  lemma ReadsOneChar(s: string, rest: seq<byte>)
    requires s != [] && !(|s| > 1 && s[0] == '\r' && s[1] == '\n') && forall i :: 0 <= i < |s| ==> s[i] as int < 256
    requires ReadLiteral(Written(s[1..], rest), 0) == Parsed(NormalizeEol(Latin1(s[1..])), rest)
    ensures ReadLiteral(Written(s, rest), 0) == Parsed(NormalizeEol(Latin1(s)), rest)
  {
    WrittenUnfolds(s, rest);
    assert Latin1(s)[1..] == Latin1(s[1..]);
    if |EscapedChar(s[0])| == 2 {
      assert Latin1(EscapedChar(s[0])) == [BACKSLASH, ByteOf(s[0])];
      ReadEscaped(ByteOf(s[0]), Written(s[1..], rest), 0);
    } else {
      assert Latin1(EscapedChar(s[0])) == [ByteOf(s[0])];
      FirstByte(s[1..], rest);
      ReadPlain(ByteOf(s[0]), Written(s[1..], rest), 0);
    }
  }

  /** The reader stops exactly at the writer's closing parenthesis with the text, ends of line normalised. */
  lemma {:induction false} ReadsOnePass(s: string, rest: seq<byte>)
    requires forall i :: 0 <= i < |s| ==> s[i] as int < 256
    ensures ReadLiteral(Written(s, rest), 0) == Parsed(NormalizeEol(Latin1(s)), rest)
    decreases |s|
  {
    if s == [] {
      assert Written(s, rest) == [CLOSE] + rest && ([CLOSE] + rest)[1..] == rest;
    } else if |s| > 1 && s[0] == '\r' && s[1] == '\n' {
      ReadsOnePass(s[2..], rest);
      ReadsCrLf(s, rest);
    } else {
      ReadsOnePass(s[1..], rest);
      ReadsOneChar(s, rest);
    }
  }

  /** The written text starts with a line feed only if the text does. */
  lemma FirstByte(s: string, rest: seq<byte>)
    ensures Written(s, rest) != [] && (Written(s, rest)[0] == LF ==> s != [] && s[0] == '\n')
  {
    if s != [] {
      WrittenUnfolds(s, rest);
    }
  }

  /** For every text: writing it and reading it back gives its Latin-1 bytes with ends of line normalised. */
  lemma LiteralRoundTrip(value: string, rest: seq<byte>)
    ensures ReadLiteral(Latin1(Escape(value)) + [CLOSE] + rest, 0) == Parsed(NormalizeEol(Latin1(value)), rest)
  {
    EscapeIsOnePass(value);
    assert Latin1(Safe(value)) == Latin1(value);
    ReadsOnePass(Safe(value), rest);
  }

  lemma {:induction false} NormalizedHasNoCr(b: seq<byte>)
    ensures CR !in NormalizeEol(b)
    decreases |b|
  {
    if b != [] {
      NormalizedHasNoCr(if b[0] == CR && |b| > 1 && b[1] == LF then b[2..] else b[1..]);
    }
  }

  lemma {:induction false} NormalizeWithoutCr(b: seq<byte>)
    requires CR !in b
    ensures NormalizeEol(b) == b
  {
    if b != [] {
      NormalizeWithoutCr(b[1..]);
    }
  }

  predicate Survives(c: char) {
    c as int < 256 && c != '\r'
  }

  /** The original text comes back exactly when it is Latin-1 and has no carriage return. */
  lemma TextSurvivesExactly(value: string)
    ensures Decode(NormalizeEol(Latin1(value))) == value <==> forall i :: 0 <= i < |value| ==> Survives(value[i])
  {
    var read := NormalizeEol(Latin1(value));
    if forall i :: 0 <= i < |value| ==> Survives(value[i]) {
      assert CR !in Latin1(value);
      NormalizeWithoutCr(Latin1(value));
    } else if Decode(read) == value {
      NormalizedHasNoCr(Latin1(value));
      forall i | 0 <= i < |value| ensures Survives(value[i]) {
        assert value[i] == CharOf(read[i]) && read[i] in read;
      }
      assert false;
    }
  }
}
