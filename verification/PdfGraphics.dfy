/**
 Content streams after ISO 32000-1, sections 7.8.2 and 9.4: operands first, then the operator that takes them.
 The reader keeps the text state and says of every string in which font and size it is shown, and where.
 */
module PdfGraphics {
  import opened Wrappers
  import opened Bytes
  import opened PdfText
  import opened PdfEscape
  import opened PdfObjects

  datatype Operand = Text(text: seq<byte>) | Direct(value: Value)

  datatype Operator = BeginText | EndText | SetFont | MoveBy | SetLeading | NextLine | Show | Unknown

  function OperatorOf(word: seq<byte>): Operator {
    if word == Latin1("BT") then BeginText
    else if word == Latin1("ET") then EndText
    else if word == Latin1("Tf") then SetFont
    else if word == Latin1("Td") then MoveBy
    else if word == Latin1("TL") then SetLeading
    else if word == Latin1("T*") then NextLine
    else if word == Latin1("Tj") then Show
    else Unknown
  }

  /** The text state: whether a text object is open, font, size and leading, and where the current line starts. */
  datatype Pen = Pen(inText: bool, font: seq<byte>, size: nat, leading: nat, x: int, y: int)

  const START := Pen(false, [], 0, 0, 0, 0)

  /** A string on the page. */
  datatype Placed = Placed(text: seq<byte>, font: seq<byte>, size: nat, x: int, y: int)

  predicate IsNumber(o: Operand) {
    o.Direct? && o.value.Number?
  }

  predicate IsName(o: Operand) {
    o.Direct? && o.value.Name?
  }

  /** Sections 9.3 and 9.4: what each operator but Tj does to the text state, given the operands it requires. */
  function Operate(op: Operator, ops: seq<Operand>, p: Pen): Option<Pen> {
    match op
    case BeginText => if ops == [] && !p.inText then Some(p.(inText := true, x := 0, y := 0)) else None
    case EndText => if ops == [] && p.inText then Some(p.(inText := false)) else None
    case SetFont =>
      if |ops| == 2 && IsName(ops[0]) && IsNumber(ops[1])
      then Some(p.(font := ops[0].value.text, size := ops[1].value.n)) else None
    case MoveBy =>
      if |ops| == 2 && IsNumber(ops[0]) && IsNumber(ops[1]) && p.inText
      then Some(p.(x := p.x + ops[0].value.n, y := p.y + ops[1].value.n)) else None
    case SetLeading => if |ops| == 1 && IsNumber(ops[0]) then Some(p.(leading := ops[0].value.n)) else None
    case NextLine => if ops == [] && p.inText then Some(p.(y := p.y - p.leading)) else None
    case _ => None
  }

  predicate CanShow(ops: seq<Operand>, p: Pen) {
    |ops| == 1 && ops[0].Text? && p.inText && p.font != []
  }

  /** The strings a content stream shows; nothing when an operator is unknown or lacks its operands. */
  function ReadShown(b: seq<byte>, ops: seq<Operand>, p: Pen): Option<seq<Placed>>
    decreases |b|
  {
    var b1 := SkipSpace(b);
    if b1 == [] then
      if ops == [] && !p.inText then Some([]) else None
    else if b1[0] == OPEN then
      var text := ReadLiteral(b1[1..], 0);
      if text.NoParse? then None else ReadShown(text.rest, ops + [Text(text.value)], p)
    else if Opener(b1[0]) then
      var operand := Parse(b1);
      if operand.NoParse? then None else ReadShown(operand.rest, ops + [Direct(operand.value)], p)
    else
      var k := RegularRun(b1);
      if k == 0 then None
      else
        var op := OperatorOf(b1[..k]);
        if op.Show? then
          if !CanShow(ops, p) then None
          else
            var more :- ReadShown(b1[k..], [], p);
            Some([Placed(ops[0].text, p.font, p.size, p.x, p.y)] + more)
        else
          var next :- Operate(op, ops, p);
          ReadShown(b1[k..], [], next)
  }
}
