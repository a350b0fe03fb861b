/**
 * The text form of the numbers stored in frame and collection fields.
 *
 * Writers put each number through `std::ostream <<`; readers pull numbers
 * back with repeated `std::istringstream >> item` until an extraction fails.
 * The model works on integers with exact decimal text, so that a number
 * written and read back is the same number. This is the text the source's
 * default 6-significant-digit output gives for integers below 10^6 in
 * magnitude; larger ones it writes in exponent form and rounds.
 */
module NumberText {
  import opened PlusTypes

  /** Characters that formatted extraction skips before a number. */
  predicate IsSpace(c: char) {
    c == ' ' || c == '\t' || c == '\n' || c == '\r' || c == '\U{000B}' || c == '\U{000C}'
  }

  predicate IsDigit(c: char) {
    '0' <= c <= '9'
  }

  predicate AllDigits(s: string) {
    forall i :: 0 <= i < |s| ==> IsDigit(s[i])
  }

  function DigitChar(d: nat): (c: char)
    requires d < 10
    ensures IsDigit(c) && c as int - '0' as int == d
  {
    ('0' as int + d) as char
  }

  /** Decimal digits of `n`, most significant first, without leading zeros. */
  function NatToText(n: nat): (s: string)
    ensures |s| > 0 && AllDigits(s)
    decreases n
  {
    if n < 10 then [DigitChar(n)] else NatToText(n / 10) + [DigitChar(n % 10)]
  }

  /** What `out << x` writes for the integer `x`. */
  function NumberToText(x: int): (s: string)
    ensures |s| > 0 && (s[0] == '-' || IsDigit(s[0]))
  {
    if x < 0 then "-" + NatToText(-x) else NatToText(x)
  }

  /** The value of a run of decimal digits. */
  function DigitsValue(ds: string): nat
    requires AllDigits(ds)
    decreases |ds|
  {
    if |ds| == 0 then 0
    else DigitsValue(ds[..|ds| - 1]) * 10 + (ds[|ds| - 1] as int - '0' as int)
  }

  lemma {:induction false} DigitsValueOfNatToText(n: nat)
    ensures DigitsValue(NatToText(n)) == n
    decreases n
  {
    var s := NatToText(n);
    if n < 10 {
      assert s[..|s| - 1] == [];
    } else {
      assert s[..|s| - 1] == NatToText(n / 10);
      DigitsValueOfNatToText(n / 10);
    }
  }

  /** Length of the longest prefix of `s` made of digits. */
  function DigitRun(s: string): (k: nat)
    ensures k <= |s|
    ensures forall i :: 0 <= i < k ==> IsDigit(s[i])
    ensures k < |s| ==> !IsDigit(s[k])
    decreases |s|
  {
    if |s| == 0 || !IsDigit(s[0]) then 0 else 1 + DigitRun(s[1..])
  }

  lemma DigitRunOfDigitsThen(ds: string, rest: string)
    requires AllDigits(ds)
    requires rest == [] || !IsDigit(rest[0])
    ensures DigitRun(ds + rest) == |ds|
  {
    var s := ds + rest;
    assert forall i :: 0 <= i < |ds| ==> IsDigit(s[i]);
    assert |s| > |ds| ==> s[|ds|] == rest[0];
  }

  /** What remains of `s` once leading whitespace is skipped. */
  function SkipSpaces(s: string): (t: string)
    ensures |t| <= |s|
    ensures t == [] || !IsSpace(t[0])
    decreases |s|
  {
    if |s| > 0 && IsSpace(s[0]) then SkipSpaces(s[1..]) else s
  }

  /**
   * One extraction `stream >> item`: skip whitespace, read an optional minus
   * sign and a maximal run of digits. None when no digit is found; otherwise
   * the number and the unread rest of the text.
   */
  function ReadNumber(s: string): (r: Option<(int, string)>)
    ensures r.Some? ==> |r.value.1| < |s|
  {
    var t := SkipSpaces(s);
    var negative := |t| > 0 && t[0] == '-';
    var body := if negative then t[1..] else t;
    var k := DigitRun(body);
    if k == 0 then None
    else
      var magnitude: int := DigitsValue(body[..k]);
      Some((if negative then -magnitude else magnitude, body[k..]))
  }

  /** Every number `while (stream >> item)` extracts from `s`, in order. */
  function ReadNumbers(s: string): (numbers: seq<int>)
    ensures ReadNumber(s).None? ==> numbers == []
    ensures |numbers| <= |s|
    decreases |s|
  {
    match ReadNumber(s)
    case None => []
    case Some((x, rest)) => [x] + ReadNumbers(rest)
  }

  /** Each number followed by one space: `out << x << " "` for every x. */
  function TerminatedText(xs: seq<int>): string
  {
    if xs == [] then "" else NumberToText(xs[0]) + " " + TerminatedText(xs[1..])
  }

  /** Numbers separated by single spaces: `out << x0 << " " << x1 ...`. */
  function JoinedText(xs: seq<int>): string
  {
    if xs == [] then ""
    else if |xs| == 1 then NumberToText(xs[0])
    else NumberToText(xs[0]) + " " + JoinedText(xs[1..])
  }

  /** Writing one more number extends the text at its end. */
  lemma {:induction false} TerminatedTextAppend(xs: seq<int>, x: int)
    ensures TerminatedText(xs + [x]) == TerminatedText(xs) + NumberToText(x) + " "
  {
    if xs == [] {
      assert [x][1..] == [];
    } else {
      assert (xs + [x])[1..] == xs[1..] + [x];
      TerminatedTextAppend(xs[1..], x);
    }
  }

  /** A number's text followed by a non-digit reads back as that number. */
  lemma ReadNumberOfText(x: int, rest: string)
    requires rest == [] || !IsDigit(rest[0])
    ensures ReadNumber(NumberToText(x) + rest) == Some((x, rest))
  {
    var s := NumberToText(x) + rest;
    assert s[0] == NumberToText(x)[0];
    assert SkipSpaces(s) == s;
    var m: nat := if x < 0 then -x else x;
    var digits := NatToText(m);
    var body := digits + rest;
    if x < 0 {
      assert s == "-" + body;
      assert s[1..] == body;
    } else {
      assert s == body;
      assert s[0] == digits[0];
    }
    DigitRunOfDigitsThen(digits, rest);
    assert body[..|digits|] == digits;
    assert body[|digits|..] == rest;
    DigitsValueOfNatToText(m);
  }

  /** Leading whitespace never changes what is read. */
  lemma ReadNumbersSkipsSpace(t: string)
    ensures ReadNumbers(" " + t) == ReadNumbers(t)
  {
    assert (" " + t)[1..] == t;
    assert SkipSpaces(" " + t) == SkipSpaces(t);
    assert ReadNumber(" " + t) == ReadNumber(t);
  }

  /** Text with no number in it reads as no numbers. */
  lemma ReadNumbersOfEmpty()
    ensures ReadNumbers("") == []
  {
    assert ReadNumber("") == None;
  }

  /** A number, a space and more text: the number, then whatever the rest holds. */
  lemma ReadNumbersOfNumberThenSpace(x: int, t: string)
    ensures ReadNumbers(NumberToText(x) + " " + t) == [x] + ReadNumbers(t)
  {
    assert NumberToText(x) + " " + t == NumberToText(x) + (" " + t);
    ReadNumberOfText(x, " " + t);
    ReadNumbersSkipsSpace(t);
  }

  /** Round trip of the writer used for 16-number transforms. */
  lemma {:induction false} ReadTerminatedText(xs: seq<int>)
    ensures ReadNumbers(TerminatedText(xs)) == xs
  {
    if xs == [] {
      ReadNumbersOfEmpty();
    } else {
      ReadNumbersOfNumberThenSpace(xs[0], TerminatedText(xs[1..]));
      ReadTerminatedText(xs[1..]);
    }
  }

  /** Round trip of the writer used for the Offset and TransformMatrix fields. */
  lemma {:induction false} ReadJoinedText(xs: seq<int>)
    ensures ReadNumbers(JoinedText(xs)) == xs
  {
    if xs == [] {
      ReadNumbersOfEmpty();
    } else if |xs| == 1 {
      assert JoinedText(xs) == NumberToText(xs[0]) + "";
      ReadNumberOfText(xs[0], "");
      ReadNumbersOfEmpty();
    } else {
      ReadNumbersOfNumberThenSpace(xs[0], JoinedText(xs[1..]));
      ReadJoinedText(xs[1..]);
    }
  }
}
