/** Bytes, the text encoding of the PDF writer, and decimal numbers as the writer prints and a reader reads them. */
module PdfText {
  import opened Bytes

  /** `encode("latin-1", errors="replace")` of one character. */
  function ByteOf(c: char): byte {
    if c as int < 256 then c as int as byte else 63
  }

  function CharOf(b: byte): char {
    b as int as char
  }

  function Latin1(s: string): (r: seq<byte>)
    ensures |r| == |s|
  {
    seq(|s|, i requires 0 <= i < |s| => ByteOf(s[i]))
  }

  function Decode(b: seq<byte>): (r: string)
    ensures |r| == |b|
  {
    seq(|b|, i requires 0 <= i < |b| => CharOf(b[i]))
  }

  lemma Regroup(a: seq<byte>, b: seq<byte>, c: seq<byte>, d: seq<byte>)
    ensures a + b + c + d == a + (b + c + d)
    ensures a + b + c == a + (b + c)
  {
  }

  lemma Latin1Concat(s: string, t: string)
    ensures Latin1(s + t) == Latin1(s) + Latin1(t)
  {
  }

  // ------------------------------------------------------------------ parsing

  /** What a reader gets from the front of the remaining bytes. */
  datatype Parsed<+T> = NoParse | Parsed(value: T, rest: seq<byte>) {
    predicate IsFailure() {
      NoParse?
    }

    function PropagateFailure<U>(): Parsed<U>
      requires NoParse?
    {
      NoParse
    }

    function Extract(): (T, seq<byte>)
      requires Parsed?
    {
      (value, rest)
    }
  }

  function Expect(word: string, b: seq<byte>): Parsed<()> {
    if |word| <= |b| && b[..|word|] == Latin1(word) then Parsed((), b[|word|..]) else NoParse
  }

  lemma ExpectWritten(word: string, rest: seq<byte>)
    ensures Expect(word, Latin1(word) + rest) == Parsed((), rest)
  {
  }

  // ------------------------------------------------------------------ numbers

  predicate IsDigit(b: byte) {
    48 <= b <= 57
  }

  /** Decimal digits of `n`, no leading zero. */
  function Dec(n: nat): (r: seq<byte>)
    ensures |r| > 0 && forall i :: 0 <= i < |r| ==> IsDigit(r[i])
  {
    if n < 10 then [(48 + n) as byte] else Dec(n / 10) + [(48 + n % 10) as byte]
  }

  /** The number a digit string denotes. */
  function DigitsValue(ds: seq<byte>): nat
    requires forall i :: 0 <= i < |ds| ==> IsDigit(ds[i])
  {
    if ds == [] then 0
    else
      assert IsDigit(ds[|ds| - 1]);
      10 * DigitsValue(ds[..|ds| - 1]) + (ds[|ds| - 1] as int - 48)
  }

  lemma {:induction false} ValueOfDec(n: nat)
    ensures DigitsValue(Dec(n)) == n
  {
    if n >= 10 {
      ValueOfDec(n / 10);
      assert Dec(n)[..|Dec(n)| - 1] == Dec(n / 10);
    }
  }

  function Zeros(k: nat): (r: seq<byte>)
    ensures |r| == k && forall i :: 0 <= i < k ==> r[i] == 48
  {
    seq(k, _ => 48)
  }

  /** `{n:0wd}`: padded with zeros to at least `w` digits. */
  function Padded(n: nat, w: nat): seq<byte> {
    Zeros(if |Dec(n)| < w then w - |Dec(n)| else 0) + Dec(n)
  }

  function Pow10(k: nat): nat {
    if k == 0 then 1 else 10 * Pow10(k - 1)
  }

  lemma {:induction false} DecWidth(n: nat, k: nat)
    requires 0 < k && n < Pow10(k)
    ensures |Dec(n)| <= k
  {
    if n >= 10 {
      DecWidth(n / 10, k - 1);
    }
  }

  lemma {:induction false} ValueOfPadded(k: nat, ds: seq<byte>)
    requires forall i :: 0 <= i < |ds| ==> IsDigit(ds[i])
    ensures DigitsValue(Zeros(k) + ds) == DigitsValue(ds)
    decreases k + |ds|
  {
    var all := Zeros(k) + ds;
    if ds != [] {
      ValueOfPadded(k, ds[..|ds| - 1]);
      assert all[..|all| - 1] == Zeros(k) + ds[..|ds| - 1];
    } else if k > 0 {
      ValueOfPadded(k - 1, []);
      assert all[..k - 1] == Zeros(k - 1) + [];
    }
  }

  /** A number below 10^w fills exactly w columns and reads back as itself. */
  lemma PaddedFits(n: nat, w: nat)
    requires 0 < w && n < Pow10(w)
    ensures |Padded(n, w)| == w && forall i :: 0 <= i < w ==> IsDigit(Padded(n, w)[i])
    ensures DigitsValue(Padded(n, w)) == n
  {
    DecWidth(n, w);
    ValueOfPadded(w - |Dec(n)|, Dec(n));
    ValueOfDec(n);
  }

  /** Length of the longest run of digits at the front. */
  function DigitRun(b: seq<byte>): (k: nat)
    ensures k <= |b| && (forall i :: 0 <= i < k ==> IsDigit(b[i])) && (k < |b| ==> !IsDigit(b[k]))
  {
    if b == [] || !IsDigit(b[0]) then 0 else 1 + DigitRun(b[1..])
  }

  function ReadNat(b: seq<byte>): Parsed<nat> {
    var k := DigitRun(b);
    if k == 0 then NoParse else Parsed(DigitsValue(b[..k]), b[k..])
  }

  lemma ReadWrittenNat(n: nat, rest: seq<byte>)
    requires rest == [] || !IsDigit(rest[0])
    ensures ReadNat(Dec(n) + rest) == Parsed(n, rest)
  {
    var b := Dec(n) + rest;
    var k := DigitRun(b);
    assert k == |Dec(n)| by {
      assert forall i :: 0 <= i < |Dec(n)| ==> b[i] == Dec(n)[i];
      assert |Dec(n)| < |b| ==> b[|Dec(n)|] == rest[0];
    }
    assert b[..k] == Dec(n) && b[k..] == rest;
    ValueOfDec(n);
  }

  /** Length of the longest run of digits at the end. */
  function DigitTail(b: seq<byte>): (k: nat)
    ensures k <= |b| && (forall i :: |b| - k <= i < |b| ==> IsDigit(b[i])) && (k < |b| ==> !IsDigit(b[|b| - k - 1]))
  {
    if b == [] || !IsDigit(b[|b| - 1]) then 0 else 1 + DigitTail(b[..|b| - 1])
  }
}
