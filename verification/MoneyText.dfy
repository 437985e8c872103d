/**
 `_money` of backend/app/documents/quotation_pdf.py: a decimal amount rounded half to even to two places, with a
 comma between every three digits of its whole part.
 */
module MoneyText {
  import opened Wrappers
  import opened Bytes
  import opened PdfText

  /** A finite decimal: the sign, the digits, and the power of ten they are scaled by. */
  datatype Decimal = Decimal(negative: bool, coefficient: nat, exponent: int)

  // ------------------------------------------------------------------- rounding

  function RoundHalfEven(n: nat, unit: nat): nat
    requires unit > 0
  {
    var q, r := n / unit, n % unit;
    if 2 * r < unit || (2 * r == unit && q % 2 == 0) then q else q + 1
  }

  function Distance(n: nat, unit: nat, q: nat): nat {
    if q * unit <= n then n - q * unit else q * unit - n
  }

  lemma Split(n: nat, unit: nat)
    requires unit > 0
    ensures n == n / unit * unit + n % unit && n % unit < unit
  {
  }

  lemma MultiplesApart(a: nat, b: nat, unit: nat)
    requires a < b
    ensures a * unit + unit <= b * unit
  {
    assert b * unit == (b - a - 1) * unit + (a + 1) * unit;
  }

  /** The rounded value is a nearest multiple, and the even one of two equally near. */
  lemma RoundsToNearest(n: nat, unit: nat, other: nat)
    requires unit > 0
    ensures var q := RoundHalfEven(n, unit);
            && 2 * Distance(n, unit, q) <= unit
            && Distance(n, unit, q) <= Distance(n, unit, other)
            && (Distance(n, unit, q) == Distance(n, unit, other) && other != q ==> q % 2 == 0)
  {
    var low, r := n / unit, n % unit;
    Split(n, unit);
    var q := RoundHalfEven(n, unit);
    assert (low + 1) * unit == low * unit + unit;
    if other < low {
      MultiplesApart(other, low, unit);
    } else if other > low + 1 {
      MultiplesApart(low + 1, other, unit);
    }
  }

  /** The amount in hundredths. */
  function Cents(d: Decimal): nat {
    if d.exponent >= -2 then d.coefficient * Pow10(d.exponent + 2)
    else
      PowPositive(-2 - d.exponent);
      RoundHalfEven(d.coefficient, Pow10(-2 - d.exponent))
  }

  lemma PowPositive(k: nat)
    ensures Pow10(k) > 0
  {
  }

  // ------------------------------------------------------------------- the text

  function Digits(n: nat): string {
    Decode(Dec(n))
  }

  /** A comma before every third digit from the right. */
  function Group(digits: string): string {
    if |digits| <= 3 then digits else Group(digits[..|digits| - 3]) + "," + digits[|digits| - 3..]
  }

  function Hundredths(part: nat): string {
    Decode(Padded(part, 2))
  }

  function WholeAndPart(whole: nat, part: nat): string {
    Group(Digits(whole)) + ['.'] + Hundredths(part)
  }

  /** `f"{value:,.2f}"`. */
  function Amount(d: Decimal): string {
    Signed(d.negative, WholeAndPart(Cents(d) / 100, Cents(d) % 100))
  }

  function Signed(negative: bool, text: string): string {
    (if negative then ['-'] else []) + text
  }

  function Money(currency: string, d: Decimal): string {
    currency + " " + Amount(d)
  }

  // ----------------------------------------------------------------- reading it

  function Strip(s: string): string {
    if s == [] then [] else (if s[0] == ',' then [] else [s[0]]) + Strip(s[1..])
  }

  predicate AllDecimal(s: string) {
    forall i :: 0 <= i < |s| ==> '0' <= s[i] <= '9'
  }

  function NumberIn(s: string): nat
    requires AllDecimal(s)
  {
    DigitsValue(Latin1(s))
  }

  /** The hundredths of digits, a point and two digits. */
  function ReadDecimal(body: string): Option<nat> {
    if |body| < 3 || body[|body| - 3] != '.' then None
    else
      var whole, rest := body[..|body| - 3], body[|body| - 2..];
      if whole == [] || !AllDecimal(whole) || !AllDecimal(rest) then None
      else Some(100 * NumberIn(whole) + NumberIn(rest))
  }

  /** Sign and hundredths of a text with two decimal places, commas ignored. */
  function ReadAmount(t: string): Option<(bool, nat)> {
    var negative := t != [] && t[0] == '-';
    var cents :- ReadDecimal(Strip(if negative then t[1..] else t));
    Some((negative, cents))
  }

  lemma DecodedDigits(b: seq<byte>)
    requires forall i :: 0 <= i < |b| ==> IsDigit(b[i])
    ensures AllDecimal(Decode(b)) && Latin1(Decode(b)) == b
  {
  }

  lemma {:induction false} StripConcat(s: string, t: string)
    ensures Strip(s + t) == Strip(s) + Strip(t)
  {
    if s == [] {
      assert s + t == t;
    } else {
      assert (s + t)[1..] == s[1..] + t;
      StripConcat(s[1..], t);
    }
  }

  lemma {:induction false} StripPlain(s: string)
    requires ',' !in s
    ensures Strip(s) == s
  {
    if s != [] {
      StripPlain(s[1..]);
    }
  }

  lemma StripAround(a: string, c: char, b: string)
    ensures Strip(a + [c] + b) == Strip(a) + (if c == ',' then [] else [c]) + Strip(b)
  {
    StripConcat(a, [c]);
    StripConcat(a + [c], b);
    assert [c][1..] == [];
  }

  lemma GroupUnfolds(front: string, last: string)
    requires front != [] && |last| == 3
    ensures Group(front + last) == Group(front) + [','] + last
  {
    var digits := front + last;
    assert digits[..|digits| - 3] == front && digits[|digits| - 3..] == last;
  }

  lemma {:induction false} StripGroup(digits: string)
    requires ',' !in digits
    ensures Strip(Group(digits)) == digits
  {
    if |digits| <= 3 {
      StripPlain(digits);
    } else {
      var front, last := digits[..|digits| - 3], digits[|digits| - 3..];
      assert digits == front + last;
      StripGroup(front);
      StripPlain(last);
      GroupUnfolds(front, last);
      StripAround(Group(front), ',', last);
      assert front + [] + last == front + last;
    }
  }

  /** Commas stand exactly at every fourth place from the right. */
  predicate CommasInPlace(text: string) {
    forall i :: 0 <= i < |text| ==> (text[i] == ',' <==> (|text| - i) % 4 == 0)
  }

  lemma FourMore(k: nat)
    ensures (k + 4) % 4 == k % 4
  {
  }

  lemma NextGroup(text: string, last: string)
    requires CommasInPlace(text) && |last| == 3 && ',' !in last
    ensures CommasInPlace(text + [','] + last)
  {
    var g := text + [','] + last;
    forall i | 0 <= i < |g| ensures g[i] == ',' <==> (|g| - i) % 4 == 0 {
      if i < |text| {
        assert g[i] == text[i];
        FourMore(|text| - i);
      } else if i > |text| {
        assert g[i] == last[i - |text| - 1];
      }
    }
  }

  lemma {:induction false} CommasByThree(digits: string)
    requires ',' !in digits
    ensures CommasInPlace(Group(digits))
    ensures digits != [] ==> Group(digits) != [] && Group(digits)[0] == digits[0]
  {
    if |digits| > 3 {
      var front, last := digits[..|digits| - 3], digits[|digits| - 3..];
      assert digits == front + last;
      CommasByThree(front);
      GroupUnfolds(front, last);
      NextGroup(Group(front), last);
    }
  }

  lemma DigitsRead(n: nat)
    ensures Digits(n) != [] && AllDecimal(Digits(n)) && NumberIn(Digits(n)) == n
  {
    DecodedDigits(Dec(n));
    ValueOfDec(n);
  }

  lemma HundredthsRead(part: nat)
    requires part < 100
    ensures |Hundredths(part)| == 2 && AllDecimal(Hundredths(part)) && NumberIn(Hundredths(part)) == part
  {
    PaddedFits(part, 2);
    DecodedDigits(Padded(part, 2));
  }

  lemma StripText(whole: nat, part: nat)
    requires part < 100
    ensures Strip(WholeAndPart(whole, part)) == Digits(whole) + ['.'] + Hundredths(part)
  {
    DigitsRead(whole);
    HundredthsRead(part);
    StripGroup(Digits(whole));
    StripPlain(Hundredths(part));
    StripAround(Group(Digits(whole)), '.', Hundredths(part));
  }

  lemma StartsWithDigit(whole: nat, part: nat)
    ensures WholeAndPart(whole, part) != [] && '0' <= WholeAndPart(whole, part)[0] <= '9'
  {
    DigitsRead(whole);
    CommasByThree(Digits(whole));
  }

  lemma PointPosition(whole: string, rest: string)
    requires |rest| == 2
    ensures var body := whole + ['.'] + rest;
            body[|body| - 3] == '.' && body[..|body| - 3] == whole && body[|body| - 2..] == rest
  {
  }

  lemma SignedParts(negative: bool, text: string)
    requires text != [] && text[0] != '-'
    ensures var t := Signed(negative, text);
            t != [] && (t[0] == '-') == negative && (if negative then t[1..] else t) == text
  {
  }

  lemma ReadsDecimal(whole: string, rest: string)
    requires |rest| == 2 && whole != [] && AllDecimal(whole) && AllDecimal(rest)
    ensures ReadDecimal(whole + ['.'] + rest) == Some(100 * NumberIn(whole) + NumberIn(rest))
  {
    PointPosition(whole, rest);
  }

  lemma ReadsSigned(negative: bool, text: string, cents: nat)
    requires text != [] && text[0] != '-' && ReadDecimal(Strip(text)) == Some(cents)
    ensures ReadAmount(Signed(negative, text)) == Some((negative, cents))
  {
    SignedParts(negative, text);
  }

  lemma ReadsWholeAndPart(negative: bool, whole: nat, part: nat)
    requires part < 100
    ensures ReadAmount(Signed(negative, WholeAndPart(whole, part))) == Some((negative, 100 * whole + part))
  {
    DigitsRead(whole);
    HundredthsRead(part);
    StripText(whole, part);
    StartsWithDigit(whole, part);
    ReadsDecimal(Digits(whole), Hundredths(part));
    ReadsSigned(negative, WholeAndPart(whole, part), 100 * whole + part);
  }

  lemma Recombined(cents: nat)
    ensures 100 * (cents / 100) + cents % 100 == cents && cents % 100 < 100
  {
  }

  /** The text of an amount gives back its sign and its hundredths, rounded half to even. */
  lemma AmountRoundTrips(d: Decimal)
    ensures ReadAmount(Amount(d)) == Some((d.negative, Cents(d)))
  {
    Recombined(Cents(d));
    ReadsWholeAndPart(d.negative, Cents(d) / 100, Cents(d) % 100);
  }

  /** What is printed is within half a hundredth of the amount, and no hundredth is nearer. */
  lemma CentsAreNearest(d: Decimal, other: nat)
    requires d.exponent < -2
    ensures var unit := Pow10(-2 - d.exponent);
            && 2 * Distance(d.coefficient, unit, Cents(d)) <= unit
            && Distance(d.coefficient, unit, Cents(d)) <= Distance(d.coefficient, unit, other)
            && (Distance(d.coefficient, unit, Cents(d)) == Distance(d.coefficient, unit, other) && other != Cents(d) ==>
                  Cents(d) % 2 == 0)
  {
    PowPositive(-2 - d.exponent);
    RoundsToNearest(d.coefficient, Pow10(-2 - d.exponent), other);
  }

  /** An amount in hundredths is printed as it is. */
  lemma HundredthsAreExact(negative: bool, coefficient: nat)
    ensures Cents(Decimal(negative, coefficient, -2)) == coefficient
  {
  }

  lemma TenfoldRounds(n: nat, unit: nat)
    requires unit > 0
    ensures RoundHalfEven(10 * n, 10 * unit) == RoundHalfEven(n, unit)
  {
    var q, r := n / unit, n % unit;
    Split(n, unit);
    QuotientOf(10 * n, 10 * unit, q, 10 * r);
  }

  lemma QuotientOf(n: nat, unit: nat, q: nat, r: nat)
    requires unit > 0 && n == q * unit + r && r < unit
    ensures n / unit == q && n % unit == r
  {
    Split(n, unit);
    if n / unit < q {
      MultiplesApart(n / unit, q, unit);
    } else if n / unit > q {
      MultiplesApart(q, n / unit, unit);
    }
  }

  /** How an amount is written does not matter: one more digit at the end of it, a zero, prints the same. */
  lemma TrailingZero(d: Decimal)
    ensures Cents(d.(coefficient := 10 * d.coefficient, exponent := d.exponent - 1)) == Cents(d)
  {
    if d.exponent < -2 {
      PowPositive(-2 - d.exponent);
      TenfoldRounds(d.coefficient, Pow10(-2 - d.exponent));
    } else if d.exponent == -2 {
      QuotientOf(10 * d.coefficient, 10, d.coefficient, 0);
      assert Pow10(1) == 10;
    } else {
      assert 10 * d.coefficient * Pow10(d.exponent + 1) == d.coefficient * (10 * Pow10(d.exponent + 1));
    }
  }
}
