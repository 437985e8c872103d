/** Content streams: reading the operators of a page gives back its rows, each at its place. */
module PdfContents {
  import opened Wrappers
  import opened Bytes
  import opened PdfText
  import opened PdfEscape
  import opened PdfGraphics
  import opened PdfObjects
  import opened PdfWriter

  const BEGIN_TEXT := "BT\n/F1 10 Tf\n42 800 Td\n14 TL\n"
  const SHOW := " Tj\nT*\n"
  const END_TEXT := "ET"

  /** The bytes a reader takes a row for. */
  function RowText(row: string): seq<byte> {
    NormalizeEol(Latin1(row))
  }

  function PageText(lines: Page): seq<seq<byte>> {
    if lines == [] then [] else [RowText(lines[0])] + PageText(lines[1..])
  }

  // Rows are shown at 10 points from x = 42, the first at y = 800 and each 14 below the one before.

  function RowHeight(i: nat): int {
    800 - 14 * i
  }

  function RowAt(row: string, font: seq<byte>, i: nat): Placed {
    Placed(RowText(row), font, 10, 42, RowHeight(i))
  }

  /** Lines in `font`, the first of them as row `i` of its page. */
  function Layout(lines: Page, font: seq<byte>, i: nat): (r: seq<Placed>)
    ensures |r| == |lines|
  {
    if lines == [] then [] else [RowAt(lines[0], font, i)] + Layout(lines[1..], font, i + 1)
  }

  lemma {:induction false} LayoutAt(lines: Page, font: seq<byte>, i: nat, k: nat)
    requires k < |lines|
    ensures Layout(lines, font, i)[k] == RowAt(lines[k], font, i + k)
  {
    if k > 0 {
      LayoutAt(lines[1..], font, i + 1, k - 1);
    }
  }

  /** The text state at the start of row `i`. */
  function PenAt(i: nat): Pen {
    Pen(true, Latin1("F1"), 10, 14, 42, RowHeight(i))
  }

  /** The part of a content stream that shows the lines. */
  function Shown(lines: Page): seq<byte> {
    if lines == [] then Latin1(END_TEXT)
    else [OPEN] + (Latin1(Escape(lines[0])) + [CLOSE] + (Latin1(SHOW) + Shown(lines[1..])))
  }

  lemma {:induction false} JoinCons(word: string, words: seq<string>)
    requires words != []
    ensures Join([word] + words) == word + "\n" + Join(words)
  {
  }

  lemma ShowCommand(escaped: string, more: string)
    ensures Latin1("(" + escaped + ") Tj" + "\n" + ("T*" + "\n" + more))
              == [OPEN] + (Latin1(escaped) + [CLOSE] + (Latin1(SHOW) + Latin1(more)))
  {
  }

  lemma {:induction false} LinesAsShown(lines: Page)
    ensures Latin1(Join(LineCommands(lines) + ["ET"])) == Shown(lines)
  {
    if lines == [] {
      assert LineCommands(lines) + ["ET"] == ["ET"];
    } else {
      var more := LineCommands(lines[1..]) + ["ET"];
      var show := "(" + Escape(lines[0]) + ") Tj";
      assert LineCommands(lines) + ["ET"] == [show] + (["T*"] + more);
      JoinCons(show, ["T*"] + more);
      JoinCons("T*", more);
      ShowCommand(Escape(lines[0]), Join(more));
      LinesAsShown(lines[1..]);
    }
  }

  /** The joined commands are the fixed opening followed by the shown lines. */
  lemma ContentAsShown(lines: Page)
    ensures Content(lines) == Latin1(BEGIN_TEXT) + Shown(lines)
  {
    var body := LineCommands(lines) + ["ET"];
    assert Commands(lines) == ["BT"] + (["/F1 10 Tf"] + (["42 800 Td"] + (["14 TL"] + body)));
    JoinCons("BT", ["/F1 10 Tf"] + (["42 800 Td"] + (["14 TL"] + body)));
    JoinCons("/F1 10 Tf", ["42 800 Td"] + (["14 TL"] + body));
    JoinCons("42 800 Td", ["14 TL"] + body);
    JoinCons("14 TL", body);
    OpeningText(Join(body));
    LinesAsShown(lines);
  }

  lemma OpeningText(more: string)
    ensures Latin1("BT" + "\n" + ("/F1 10 Tf" + "\n" + ("42 800 Td" + "\n" + ("14 TL" + "\n" + more))))
              == Latin1(BEGIN_TEXT) + Latin1(more)
  {
  }

  // ------------------------------------------------------------- operator by operator

  lemma ReadsSpace(b: seq<byte>, ops: seq<Operand>, p: Pen)
    ensures ReadShown([SPACE] + b, ops, p) == ReadShown(b, ops, p)
    ensures ReadShown(Latin1("\n") + b, ops, p) == ReadShown(b, ops, p)
  {
    SkipOneSpace(b);
    SkipNewLine(b);
  }

  lemma ReadsOperand(v: Value, rest: seq<byte>, ops: seq<Operand>, p: Pen)
    requires Printable(v) && SafeAfter(rest)
    ensures ReadShown(Print(v) + rest, ops, p) == ReadShown(rest, ops + [Direct(v)], p)
  {
    PrintOpens(v, rest);
    ParsePrint(v, rest);
  }

  predicate IsOperator(word: string) {
    |word| > 0 && RegularText(Latin1(word)) && !Opener(Latin1(word)[0]) && Latin1(word)[0] != OPEN
  }

  lemma OperatorWord(word: string, rest: seq<byte>)
    requires IsOperator(word) && AtBoundary(rest)
    ensures var b := Latin1(word) + rest;
            SkipSpace(b) == b && RegularRun(b) == |word| && b[0] == Latin1(word)[0]
            && b[..|word|] == Latin1(word) && b[|word|..] == rest
  {
    RunOfRegular(Latin1(word), rest);
    assert IsRegular(Latin1(word)[0]);
  }

  lemma ReadsOperator(word: string, op: Operator, rest: seq<byte>, ops: seq<Operand>, p: Pen, q: Pen)
    requires IsOperator(word) && AtBoundary(rest) && OperatorOf(Latin1(word)) == op && !op.Show?
    requires Operate(op, ops, p) == Some(q)
    ensures ReadShown(Latin1(word) + rest, ops, p) == ReadShown(rest, [], q)
  {
    OperatorWord(word, rest);
  }

  lemma ReadsShow(text: seq<byte>, rest: seq<byte>, p: Pen)
    requires AtBoundary(rest) && p.inText && p.font != [] && ReadShown(rest, [], p).Some?
    ensures ReadShown(Latin1("Tj") + rest, [Text(text)], p)
              == Some([Placed(text, p.font, p.size, p.x, p.y)] + ReadShown(rest, [], p).value)
  {
    ShowOperator();
    OperatorWord("Tj", rest);
  }

  lemma WordBytes()
    ensures Latin1("BT") == [66, 84] && Latin1("ET") == [69, 84] && Latin1("Tf") == [84, 102]
    ensures Latin1("Td") == [84, 100] && Latin1("TL") == [84, 76] && Latin1("T*") == [84, 42]
    ensures Latin1("Tj") == [84, 106]
  {
  }

  lemma ShowOperator()
    ensures OperatorOf(Latin1("Tj")) == Show && IsOperator("Tj")
  {
    WordBytes();
  }

  lemma TextOperators()
    ensures OperatorOf(Latin1("BT")) == BeginText && IsOperator("BT")
    ensures OperatorOf(Latin1("ET")) == EndText && IsOperator("ET")
    ensures OperatorOf(Latin1("Tf")) == SetFont && IsOperator("Tf")
  {
    WordBytes();
  }

  lemma PlaceOperators()
    ensures OperatorOf(Latin1("Td")) == MoveBy && IsOperator("Td")
    ensures OperatorOf(Latin1("TL")) == SetLeading && IsOperator("TL")
    ensures OperatorOf(Latin1("T*")) == NextLine && IsOperator("T*")
  {
    WordBytes();
  }

  lemma ShowWord(rest: seq<byte>)
    ensures Latin1(SHOW) + rest == [SPACE] + (Latin1("Tj") + (Latin1("\n") + (Latin1("T*") + (Latin1("\n") + rest))))
  {
    assert SHOW == " " + ("Tj" + ("\n" + ("T*" + "\n")));
    Latin1Concat(" ", "Tj" + ("\n" + ("T*" + "\n")));
    Latin1Concat("Tj", "\n" + ("T*" + "\n"));
    Latin1Concat("\n", "T*" + "\n");
    Latin1Concat("T*", "\n");
    assert Latin1(" ") == [SPACE];
  }

  lemma ReadsNextLine(rest: seq<byte>, i: nat)
    ensures ReadShown(Latin1("T*") + (Latin1("\n") + rest), [], PenAt(i)) == ReadShown(rest, [], PenAt(i + 1))
  {
    PlaceOperators();
    ReadsOperator("T*", NextLine, Latin1("\n") + rest, [], PenAt(i), PenAt(i + 1));
    ReadsSpace(rest, [], PenAt(i + 1));
  }

  /** Behind the string: the operator that shows it and the one that goes to the next line. */
  lemma ReadsLineEnd(text: seq<byte>, rest: seq<byte>, i: nat)
    requires ReadShown(rest, [], PenAt(i + 1)).Some?
    ensures ReadShown(Latin1(SHOW) + rest, [Text(text)], PenAt(i))
              == Some([Placed(text, Latin1("F1"), 10, 42, RowHeight(i))] + ReadShown(rest, [], PenAt(i + 1)).value)
  {
    var b2 := Latin1("T*") + (Latin1("\n") + rest);
    ShowWord(rest);
    ReadsNextLine(rest, i);
    ReadsSpace(Latin1("Tj") + (Latin1("\n") + b2), [Text(text)], PenAt(i));
    ReadsSpace(b2, [], PenAt(i));
    ReadsShow(text, Latin1("\n") + b2, PenAt(i));
  }

  lemma ReadsLine(line: string, rest: seq<byte>, i: nat)
    requires ReadShown(rest, [], PenAt(i + 1)).Some?
    ensures ReadShown([OPEN] + (Latin1(Escape(line)) + [CLOSE] + (Latin1(SHOW) + rest)), [], PenAt(i))
              == Some([RowAt(line, Latin1("F1"), i)] + ReadShown(rest, [], PenAt(i + 1)).value)
  {
    var more := Latin1(SHOW) + rest;
    var b := [OPEN] + (Latin1(Escape(line)) + [CLOSE] + more);
    assert b[0] == OPEN && b[1..] == Latin1(Escape(line)) + [CLOSE] + more;
    LiteralRoundTrip(line, more);
    assert [] + [Text(RowText(line))] == [Text(RowText(line))];
    ReadsLineEnd(RowText(line), rest, i);
  }

  lemma ReadsEnd(i: nat)
    ensures ReadShown(Latin1(END_TEXT), [], PenAt(i)) == Some([])
  {
    TextOperators();
    ReadsOperator(END_TEXT, EndText, [], [], PenAt(i), PenAt(i).(inText := false));
    assert Latin1(END_TEXT) + [] == Latin1(END_TEXT);
  }

  lemma {:induction false} ReadsLines(lines: Page, i: nat)
    ensures ReadShown(Shown(lines), [], PenAt(i)) == Some(Layout(lines, Latin1("F1"), i))
    decreases |lines|
  {
    if lines == [] {
      ReadsEnd(i);
    } else {
      ReadsLines(lines[1..], i + 1);
      ReadsLine(lines[0], Shown(lines[1..]), i);
    }
  }

  // The fixed opening: begin text, font and size, position, leading.

  lemma OperatorIsSafe(word: string, rest: seq<byte>)
    requires IsOperator(word) && Latin1(word)[0] != LETTER_R
    ensures SafeAfter([SPACE] + (Latin1(word) + rest))
  {
    var b := Latin1(word) + rest;
    assert b == [b[0]] + b[1..] && b[0] == Latin1(word)[0];
    LineIsSafe(b[0], b[1..]);
  }

  const OPENED := START.(inText := true)
  const IN_FONT := OPENED.(font := Latin1("F1"), size := 10)
  const PLACED := IN_FONT.(x := 42, y := 800)

  lemma TwoOperands(a: Value, b: Value)
    ensures [] + [Direct(a)] == [Direct(a)] && [Direct(a)] + [Direct(b)] == [Direct(a), Direct(b)]
  {
  }

  /** A value and the space behind it. */
  lemma ReadsSpacedOperand(v: Value, rest: seq<byte>, ops: seq<Operand>, p: Pen)
    requires Printable(v) && SafeAfter([SPACE] + rest)
    ensures ReadShown(Print(v) + ([SPACE] + rest), ops, p) == ReadShown(rest, ops + [Direct(v)], p)
  {
    ReadsOperand(v, [SPACE] + rest, ops, p);
    ReadsSpace(rest, ops + [Direct(v)], p);
  }

  /** Two operands, an operator that takes them, and the end of the line. */
  lemma ReadsCommand(a: Value, b: Value, word: string, op: Operator, rest: seq<byte>, p: Pen, q: Pen)
    requires Printable(a) && Printable(b) && IsOperator(word) && Latin1(word)[0] != LETTER_R
    requires OperatorOf(Latin1(word)) == op && !op.Show? && Operate(op, [Direct(a), Direct(b)], p) == Some(q)
    ensures ReadShown(Print(a) + ([SPACE] + (Print(b) + ([SPACE] + (Latin1(word) + (Latin1("\n") + rest))))), [], p)
              == ReadShown(rest, [], q)
  {
    var b2 := Latin1("\n") + rest;
    TwoOperands(a, b);
    OperatorIsSafe(word, b2);
    SpacedValueIsSafe(b, [SPACE] + (Latin1(word) + b2));
    ReadsSpacedOperand(a, Print(b) + ([SPACE] + (Latin1(word) + b2)), [], p);
    ReadsSpacedOperand(b, Latin1(word) + b2, [Direct(a)], p);
    ReadsOperator(word, op, b2, [Direct(a), Direct(b)], p, q);
    ReadsSpace(rest, [], q);
  }

  lemma FontLine(rest: seq<byte>)
    ensures var more := [SPACE] + (Dec(10) + ([SPACE] + (Latin1("Tf") + (Latin1("\n") + rest))));
            ReadShown(Print(Name(Latin1("F1"))) + more, [], OPENED) == ReadShown(rest, [], IN_FONT)
  {
    TextOperators();
    ReadsCommand(Name(Latin1("F1")), Number(10), "Tf", SetFont, rest, OPENED, IN_FONT);
  }

  lemma PositionLine(rest: seq<byte>)
    ensures var b := Dec(42) + ([SPACE] + (Dec(800) + ([SPACE] + (Latin1("Td") + (Latin1("\n") + rest)))));
            ReadShown(b, [], IN_FONT) == ReadShown(rest, [], PLACED)
  {
    PlaceOperators();
    ReadsCommand(Number(42), Number(800), "Td", MoveBy, rest, IN_FONT, PLACED);
  }

  lemma LeadingLine(rest: seq<byte>)
    ensures ReadShown(Dec(14) + ([SPACE] + (Latin1("TL") + (Latin1("\n") + rest))), [], PLACED)
              == ReadShown(rest, [], PenAt(0))
  {
    var b2 := Latin1("\n") + rest;
    PlaceOperators();
    TwoOperands(Number(14), Number(14));
    OperatorIsSafe("TL", b2);
    ReadsSpacedOperand(Number(14), Latin1("TL") + b2, [], PLACED);
    ReadsOperator("TL", SetLeading, b2, [Direct(Number(14))], PLACED, PenAt(0));
    ReadsSpace(rest, [], PenAt(0));
  }

  lemma FontText(rest: seq<byte>)
    ensures Latin1("/F1 10 Tf\n") + rest
              == Print(Name(Latin1("F1"))) + ([SPACE] + (Dec(10) + ([SPACE] + (Latin1("Tf") + (Latin1("\n") + rest)))))
  {
    assert "/F1 10 Tf\n" == "/F1" + (" " + ("10" + (" " + ("Tf" + "\n"))));
    Latin1Concat("/F1", " " + ("10" + (" " + ("Tf" + "\n"))));
    Latin1Concat(" ", "10" + (" " + ("Tf" + "\n")));
    Latin1Concat("10", " " + ("Tf" + "\n"));
    Latin1Concat(" ", "Tf" + "\n");
    Latin1Concat("Tf", "\n");
    assert Latin1(" ") == [SPACE] && Latin1("10") == Dec(10) && Latin1("/F1") == [SLASH] + Latin1("F1");
  }

  lemma PositionText(rest: seq<byte>)
    ensures Latin1("42 800 Td\n") + rest
              == Dec(42) + ([SPACE] + (Dec(800) + ([SPACE] + (Latin1("Td") + (Latin1("\n") + rest)))))
  {
    assert "42 800 Td\n" == "42" + (" " + ("800" + (" " + ("Td" + "\n"))));
    Latin1Concat("42", " " + ("800" + (" " + ("Td" + "\n"))));
    Latin1Concat(" ", "800" + (" " + ("Td" + "\n")));
    Latin1Concat("800", " " + ("Td" + "\n"));
    Latin1Concat(" ", "Td" + "\n");
    Latin1Concat("Td", "\n");
    assert Latin1(" ") == [SPACE] && Latin1("42") == Dec(42) && Latin1("800") == Dec(800);
  }

  lemma LeadingText(rest: seq<byte>)
    ensures Latin1("14 TL\n") + rest == Dec(14) + ([SPACE] + (Latin1("TL") + (Latin1("\n") + rest)))
  {
    assert "14 TL\n" == "14" + (" " + ("TL" + "\n"));
    Latin1Concat("14", " " + ("TL" + "\n"));
    Latin1Concat(" ", "TL" + "\n");
    Latin1Concat("TL", "\n");
    assert Latin1(" ") == [SPACE] && Latin1("14") == Dec(14);
  }

  lemma BeginWord()
    ensures BEGIN_TEXT == "BT" + ("\n" + ("/F1 10 Tf\n" + ("42 800 Td\n" + "14 TL\n")))
  {
  }

  lemma OpeningLines(rest: seq<byte>)
    ensures var lines := Latin1("/F1 10 Tf\n") + (Latin1("42 800 Td\n") + (Latin1("14 TL\n") + rest));
            Latin1(BEGIN_TEXT) + rest == Latin1("BT") + (Latin1("\n") + lines)
  {
    var c := "42 800 Td\n" + "14 TL\n";
    var b := "/F1 10 Tf\n" + c;
    BeginWord();
    Latin1Concat("BT", "\n" + b);
    Latin1Concat("\n", b);
    Latin1Concat("/F1 10 Tf\n", c);
    Latin1Concat("42 800 Td\n", "14 TL\n");
    FiveParts(Latin1("BT"), Latin1("\n"), Latin1("/F1 10 Tf\n"), Latin1("42 800 Td\n"), Latin1("14 TL\n"), rest);
  }

  lemma FiveParts(a: seq<byte>, b: seq<byte>, c: seq<byte>, d: seq<byte>, e: seq<byte>, rest: seq<byte>)
    ensures a + (b + (c + (d + e))) + rest == a + (b + (c + (d + (e + rest))))
  {
  }

  lemma ReadsOpening(rest: seq<byte>)
    ensures ReadShown(Latin1(BEGIN_TEXT) + rest, [], START) == ReadShown(rest, [], PenAt(0))
  {
    var b3 := Latin1("14 TL\n") + rest;
    var b2 := Latin1("42 800 Td\n") + b3;
    var b1 := Latin1("/F1 10 Tf\n") + b2;
    OpeningLines(rest);
    TextOperators();
    ReadsOperator("BT", BeginText, Latin1("\n") + b1, [], START, OPENED);
    ReadsSpace(b1, [], OPENED);
    FontText(b2);
    FontLine(b2);
    PositionText(b3);
    PositionLine(b3);
    LeadingText(rest);
    LeadingLine(rest);
  }

  /** A reader of the page's operators finds its rows in order, each on its own line. */
  lemma ReadsContent(lines: Page)
    ensures ReadShown(Content(lines), [], START) == Some(Layout(lines, Latin1("F1"), 0))
  {
    ContentAsShown(lines);
    ReadsOpening(Shown(lines));
    ReadsLines(lines, 0);
  }
}
