/** Printing a time point as text, and the two readers of that text: the 32-bit C one and the
    Ruby filter. */
module Text {
  import opened Time
  import opened Wire

  const MILLION := 1000000
  const TWO_TO_31 := 0x8000_0000
  const TWO_TO_32 := 0x1_0000_0000

  /** Conversion to a 32-bit int, wrapping around. */
  function ToInt32(x: int): int {
    (x + TWO_TO_31) % TWO_TO_32 - TWO_TO_31
  }

  // ----- printing -----

  function Digit(d: nat): char
    requires d < 10
  {
    "0123456789"[d]
  }

  function Digits(n: nat): string {
    if n < 10 then [Digit(n)] else Digits(n / 10) + [Digit(n % 10)]
  }

  /** %d */
  function Decimal(x: int): string {
    if x < 0 then "-" + Digits(-x) else Digits(x)
  }

  function Spaces(n: nat): string {
    seq(n, _ => ' ')
  }

  /** %6d */
  function Padded(x: int): string {
    var s := Decimal(x);
    if |s| < 6 then Spaces(6 - |s|) + s else s
  }

  function Seconds(t: int): int { TruncDiv(t, MILLION) }

  function Micros(t: int): int { TruncRem(t, MILLION) }

  function StringFromTp(t: Int64): string {
    Line(Decimal(ToInt32(Seconds(t))), Padded(ToInt32(Micros(t))))
  }

  function Line(sec: string, usec: string): string {
    "<time " + sec + " " + usec + ">"
  }

  // ----- scanning -----

  predicate IsSpace(c: char) {
    c == ' ' || 9 <= c as int <= 13
  }

  predicate IsDigit(c: char) {
    '0' <= c <= '9'
  }

  function SkipSpaces(s: string): string {
    if s != [] && IsSpace(s[0]) then SkipSpaces(s[1..]) else s
  }

  /** How many digits s starts with, counting at most width. */
  function DigitRun(s: string, width: nat): (n: nat)
    ensures n <= |s| && forall i :: 0 <= i < n ==> IsDigit(s[i])
  {
    if width > 0 && s != [] && IsDigit(s[0]) then 1 + DigitRun(s[1..], width - 1) else 0
  }

  function DigitValue(c: char): nat
    requires IsDigit(c)
  {
    c as int - '0' as int
  }

  function Number(s: string): nat
    requires forall i :: 0 <= i < |s| ==> IsDigit(s[i])
  {
    if s == [] then 0 else Number(s[..|s| - 1]) * 10 + DigitValue(s[|s| - 1])
  }

  /** An optional sign and digits, at most width characters in all, and what follows them. */
  function ScanInt(s: string, width: nat): Option<(int, string)> {
    var sign := width > 0 && s != [] && (s[0] == '-' || s[0] == '+');
    var u := if sign then s[1..] else s;
    var n := DigitRun(u, if sign then width - 1 else width);
    if n == 0 then None
    else
      var value: int := Number(u[..n]);
      Some((if sign && s[0] == '-' then -value else value, u[n..]))
  }

  /** sscanf with "<time %d %6d>", then the 32-bit sum. */
  function TpFromString(s: string): Reading {
    if !("<time" <= s) then Invalid
    else
      var sec := ScanInt(SkipSpaces(s[5..]), |s|);
      if sec.None? then Invalid
      else
        var usec := ScanInt(SkipSpaces(sec.value.1), 6);
        if usec.None? then Invalid
        else Us(ToInt32(ToInt32(sec.value.0) * MILLION + ToInt32(usec.value.0)))
  }

  // ----- the Ruby filter -----

  function WordLength(s: string): (n: nat)
    ensures n <= |s|
    ensures s != [] && !IsSpace(s[0]) ==> n > 0
  {
    if s != [] && !IsSpace(s[0]) then 1 + WordLength(s[1..]) else 0
  }

  /** String#split: the words between white space. */
  function Words(s: string): seq<string>
    decreases |s|
  {
    SkipShortens(s);
    var t := SkipSpaces(s);
    if t == [] then [] else [t[..WordLength(t)]] + Words(t[WordLength(t)..])
  }

  /** String#to_i: the leading integer, or zero. */
  function ToI(s: string): int {
    var r := ScanInt(SkipSpaces(s), |s|);
    if r.None? then 0 else r.value.0
  }

  /** The filter's output, or None where it aborts. */
  function TimeFilter(line: string): Option<int> {
    var w := Words(line);
    if |w| < 3 then None else Some(ToI(w[1]) * MILLION + ToI(w[2]))
  }

  // ----- lemmas -----

  lemma {:induction false} SkipShortens(s: string)
    ensures |SkipSpaces(s)| <= |s|
    ensures SkipSpaces(s) != [] ==> !IsSpace(SkipSpaces(s)[0])
  {
    if s != [] && IsSpace(s[0]) { SkipShortens(s[1..]); }
  }

  lemma {:induction false} SkipsSpaces(n: nat, s: string)
    requires s != [] && !IsSpace(s[0])
    ensures SkipSpaces(Spaces(n) + s) == s
  {
    if n == 0 {
      assert Spaces(0) + s == s;
    } else {
      assert (Spaces(n) + s)[1..] == Spaces(n - 1) + s;
      SkipsSpaces(n - 1, s);
    }
  }

  lemma {:induction false} DigitsAreDigits(n: nat)
    ensures |Digits(n)| > 0
    ensures forall i :: 0 <= i < |Digits(n)| ==> IsDigit(Digits(n)[i])
    ensures Number(Digits(n)) == n
  {
    if n >= 10 {
      DigitsAreDigits(n / 10);
      var s := Digits(n);
      assert s == Digits(n / 10) + [Digit(n % 10)];
      assert s[..|s| - 1] == Digits(n / 10);
      assert DigitValue(Digit(n % 10)) == n % 10;
      hide Digits, Digit;
    } else {
      assert [Digit(n)][..0] == [];
    }
  }

  lemma {:induction false} DigitsLength(n: nat, k: nat)
    requires k > 0 && n < Pow10(k)
    ensures |Digits(n)| <= k
    ensures n >= Pow10(k - 1) ==> |Digits(n)| == k
    decreases k
  {
    if n >= 10 {
      assert k > 1 by { assert Pow10(1) == 10; }
      DigitsLength(n / 10, k - 1);
    } else if k >= 2 {
      assert Pow10(k - 1) == 10 * Pow10(k - 2);
    }
  }

  function Pow10(k: nat): (p: nat)
    ensures p > 0
  {
    if k == 0 then 1 else 10 * Pow10(k - 1)
  }

  /** A run of digits ends where the text stops being digits, or where the width ends. */
  lemma {:induction false} RunEnds(d: string, rest: string, width: nat)
    requires forall i :: 0 <= i < |d| ==> IsDigit(d[i])
    requires rest == [] || !IsDigit(rest[0])
    ensures DigitRun(d + rest, width) == if |d| <= width then |d| else width
  {
    if d == [] {
      assert d + rest == rest;
    } else if width > 0 {
      assert (d + rest)[1..] == d[1..] + rest;
      RunEnds(d[1..], rest, width - 1);
    }
  }

  lemma DecimalStart(x: int)
    ensures Decimal(x) != [] && !IsSpace(Decimal(x)[0])
    ensures forall i :: 0 <= i < |Decimal(x)| ==> !IsSpace(Decimal(x)[i])
  {
    DigitsAreDigits(Abs(x));
  }

  lemma ScanPlain(d: string, rest: string, width: nat)
    requires d != [] && forall i :: 0 <= i < |d| ==> IsDigit(d[i])
    requires rest == [] || !IsDigit(rest[0])
    requires |d| <= width
    ensures ScanInt(d + rest, width) == Some((Number(d), rest))
  {
    RunEnds(d, rest, width);
    assert (d + rest)[..|d|] == d && (d + rest)[|d|..] == rest;
  }

  /** After a minus sign, the width leaves room for width - 1 digits. */
  lemma ScanNegative(d: string, rest: string, width: nat, n: nat)
    requires d != [] && forall i :: 0 <= i < |d| ==> IsDigit(d[i])
    requires rest == [] || !IsDigit(rest[0])
    requires width > 1 && n == if |d| <= width - 1 then |d| else width - 1
    ensures ScanInt("-" + d + rest, width) == Some((-(Number(d[..n]) as int), d[n..] + rest))
  {
    var s := "-" + d + rest;
    assert s[0] == '-' && s[1..] == d + rest;
    RunEnds(d, rest, width - 1);
    var u := d + rest;
    assert u[..n] == d[..n] && u[n..] == d[n..] + rest;
    SignedScan(s, width, n);
  }

  /** What a scan makes of a minus sign and a run of n digits. */
  lemma SignedScan(s: string, width: nat, n: nat)
    requires s != [] && s[0] == '-' && width > 1 && n > 0 && DigitRun(s[1..], width - 1) == n
    ensures ScanInt(s, width) == Some((-(Number(s[1..][..n]) as int), s[1..][n..]))
  {
    hide Number;
  }

  lemma DecimalIs(x: int)
    ensures Abs(x) == if x < 0 then -x else x
    ensures Decimal(x) == if x < 0 then "-" + Digits(Abs(x)) else Digits(Abs(x))
  {
  }

  /** Scanning recovers a printed number that fits the width. */
  lemma ScanDecimal(x: int, rest: string, width: nat)
    requires rest == [] || !IsDigit(rest[0])
    requires |Decimal(x)| <= width
    ensures ScanInt(Decimal(x) + rest, width) == Some((x, rest))
  {
    hide *;
    DecimalIs(x);
    var d := Digits(Abs(x));
    DigitsAreDigits(Abs(x));
    if x < 0 {
      ScanNegative(d, rest, width, |d|);
      assert d[..|d|] == d && d[|d|..] + rest == rest;
    } else {
      ScanPlain(d, rest, width);
    }
  }

  /** A minus sign and six digits lose the last digit to a width of six. */
  lemma ScanSixDigitsNegative(x: int, rest: string)
    requires x <= -10 && |Digits(-x)| == 6
    requires rest == [] || !IsDigit(rest[0])
    ensures ScanInt(Decimal(x) + rest, 6).Some?
    ensures ScanInt(Decimal(x) + rest, 6).value.0 == -(-x / 10)
  {
    var d := Digits(-x);
    DigitsAreDigits(-x);
    ScanNegative(d, rest, 6, 5);
    assert d == Digits(-x / 10) + [Digit(-x % 10)];
    assert d[..5] == Digits(-x / 10);
    DigitsAreDigits(-x / 10);
  }

  lemma {:induction false} WordEnds(w: string, rest: string)
    requires forall i :: 0 <= i < |w| ==> !IsSpace(w[i])
    requires rest == [] || IsSpace(rest[0])
    ensures WordLength(w + rest) == |w|
  {
    if w == [] {
      assert w + rest == rest;
    } else {
      assert (w + rest)[1..] == w[1..] + rest;
      WordEnds(w[1..], rest);
    }
  }

  lemma FirstWord(n: nat, w: string, rest: string)
    requires w != [] && forall i :: 0 <= i < |w| ==> !IsSpace(w[i])
    requires rest == [] || IsSpace(rest[0])
    ensures Words(Spaces(n) + w + rest) == [w] + Words(rest)
  {
    assert Spaces(n) + w + rest == Spaces(n) + (w + rest);
    SkipsSpaces(n, w + rest);
    WordEnds(w, rest);
    assert (w + rest)[..|w|] == w && (w + rest)[|w|..] == rest;
  }

  /** The printed text, taken apart: the two numbers, and how many spaces stand before the second. */
  function Padding(x: int): nat {
    if |Decimal(x)| < 6 then 6 - |Decimal(x)| else 0
  }

  function AfterSeconds(t: Int64): string {
    Spaces(Padding(Micros(t)) + 1) + (Decimal(Micros(t)) + ">")
  }

  lemma Layout(t: Int64)
    ensures ToInt32(Micros(t)) == Micros(t)
    ensures StringFromTp(t) == "<time" + (Spaces(1) + (Decimal(ToInt32(Seconds(t))) + AfterSeconds(t)))
  {
    TruncRemRange(t, MILLION);
    Narrow(Micros(t));
    LineLayout(Decimal(ToInt32(Seconds(t))), Micros(t));
  }

  lemma LineLayout(sec: string, y: int)
    ensures Line(sec, Padded(y)) == "<time" + (Spaces(1) + (sec + (Spaces(Padding(y) + 1) + (Decimal(y) + ">"))))
  {
    var d := Decimal(y);
    var pad := Padding(y);
    assert Padded(y) == Spaces(pad) + d;
    Regroup(sec, pad, d);
  }

  lemma Regroup(sec: string, pad: nat, d: string)
    ensures Line(sec, Spaces(pad) + d) == "<time" + (Spaces(1) + (sec + (Spaces(pad + 1) + (d + ">"))))
  {
    assert "<time " == "<time" + Spaces(1);
    assert Spaces(pad + 1) == " " + Spaces(pad);
  }

  /** The words of the printed text. */
  lemma WordsOfPrinted(t: Int64)
    ensures Words(StringFromTp(t)) == ["<time", Decimal(ToInt32(Seconds(t))), Decimal(Micros(t)) + ">"]
  {
    Layout(t);
    var sec, third := Decimal(ToInt32(Seconds(t))), Decimal(Micros(t)) + ">";
    DecimalStart(ToInt32(Seconds(t)));
    DecimalStart(Micros(t));
    var s2 := AfterSeconds(t);
    var s1 := Spaces(1) + (sec + s2);
    var pad := Padding(Micros(t)) + 1;
    FirstWord(pad, third, []);
    assert Spaces(pad) + third + [] == s2;
    assert Words([]) == [];
    FirstWord(1, sec, s2);
    assert Spaces(1) + sec + s2 == s1;
    TimeWord(s1);
  }

  lemma TimeWord(rest: string)
    requires rest != [] && IsSpace(rest[0])
    ensures Words("<time" + rest) == ["<time"] + Words(rest)
  {
    FirstWord(0, "<time", rest);
    assert Spaces(0) + "<time" + rest == "<time" + rest;
  }

  lemma ToIDecimal(x: int, rest: string)
    requires rest == [] || !IsDigit(rest[0])
    ensures ToI(Decimal(x) + rest) == x
  {
    DecimalStart(x);
    assert SkipSpaces(Decimal(x) + rest) == Decimal(x) + rest;
    ScanDecimal(x, rest, |Decimal(x) + rest|);
  }

  lemma FilterOfWords(line: string, x: int, y: int)
    requires Words(line) == ["<time", Decimal(x), Decimal(y) + ">"]
    ensures TimeFilter(line) == Some(x * MILLION + y)
  {
    hide Words, Decimal, ToI, Digits, ScanInt;
    ToIDecimal(x, []);
    assert Decimal(x) + [] == Decimal(x);
    ToIDecimal(y, ">");
  }

  /** What the filter computes from the printed text, for every int64. */
  lemma FilterOfPrinted(t: Int64)
    ensures TimeFilter(StringFromTp(t)) == Some(ToInt32(Seconds(t)) * MILLION + Micros(t))
  {
    WordsOfPrinted(t);
    FilterOfWords(StringFromTp(t), ToInt32(Seconds(t)), Micros(t));
  }

  /** The filter recovers a printed time exactly when its seconds fit 32 bits. */
  lemma FilterRoundTripExactly(t: Int64)
    ensures TimeFilter(StringFromTp(t)) == Some(t) <==> -TWO_TO_31 <= Seconds(t) < TWO_TO_31
  {
    hide *;
    FilterOfPrinted(t);
    SecondsAndMicros(t);
    Narrow(Seconds(t));
  }

  lemma SecondsAndMicros(t: int)
    ensures t == Seconds(t) * MILLION + Micros(t)
    ensures -MILLION < Micros(t) < MILLION
    ensures -TWO_TO_31 <= t < TWO_TO_31 ==>
      && -TWO_TO_31 <= Seconds(t) < TWO_TO_31
      && -TWO_TO_31 <= Seconds(t) * MILLION + Scanned(Micros(t)) < TWO_TO_31
  {
    TruncRemRange(t, MILLION);
  }

  /** In particular from the epoch on for 2^31 seconds. */
  lemma FilterRoundTrip(t: Int64)
    requires 0 <= t < TWO_TO_31 * MILLION
    ensures TimeFilter(StringFromTp(t)) == Some(t)
  {
    FilterRoundTripExactly(t);
  }

  /** What the C reader computes from the printed text. */
  lemma ScanOfPrinted(t: Int64)
    ensures TpFromString(StringFromTp(t)) == Us(ToInt32(ToInt32(Seconds(t)) * MILLION + Scanned(Micros(t))))
  {
    hide *;
    Layout(t);
    MicrosScan(t);
    Narrow(Seconds(t));
    LayoutIs(t);
    ScanOfLayout(StringFromTp(t), ToInt32(Seconds(t)), Micros(t));
  }

  lemma LayoutIs(t: Int64)
    ensures AfterSeconds(t) == Spaces(Padding(Micros(t)) + 1) + (Decimal(Micros(t)) + ">")
  {
  }

  lemma MicrosScan(t: Int64)
    ensures |Decimal(Micros(t))| <= 6 <==> Micros(t) > -100000
    ensures |Decimal(Micros(t))| <= 6 || (Micros(t) <= -10 && |Digits(-Micros(t))| == 6)
    ensures ToInt32(Scanned(Micros(t))) == Scanned(Micros(t))
  {
    MicrosLength(t);
    TruncRemRange(t, MILLION);
    Narrow(Micros(t));
    hide Decimal, Digits, ToInt32;
  }

  /** The microseconds that a scan of at most six characters finds. */
  function Scanned(y: int): int {
    if y > -100000 then y else -(-y / 10)
  }

  lemma ScanOfLayout(s: string, x: int, y: int)
    requires s == "<time" + (Spaces(1) + (Decimal(x) + (Spaces(Padding(y) + 1) + (Decimal(y) + ">"))))
    requires |Decimal(y)| <= 6 <==> y > -100000
    requires |Decimal(y)| <= 6 || (y <= -10 && |Digits(-y)| == 6)
    requires ToInt32(x) == x && ToInt32(Scanned(y)) == Scanned(y)
    ensures TpFromString(s) == Us(ToInt32(x * MILLION + Scanned(y)))
  {
    hide *;
    var last := Decimal(y) + ">";
    var tail := Spaces(Padding(y) + 1) + last;
    DecimalStart(x);
    DecimalStart(y);
    assert last != [] && last[0] == Decimal(y)[0];
    SpacesStart(Padding(y), last);
    SkipsSpaces(1, Decimal(x) + tail);
    ScanDecimal(x, tail, |s|);
    SkipsSpaces(Padding(y) + 1, last);
    SecondNumber(y);
    ScannedIs(y);
    AfterTag(Spaces(1) + (Decimal(x) + tail));
    ScanParts(s, x, y, tail, last);
  }

  lemma SpacesStart(n: nat, rest: string)
    ensures |Spaces(n + 1) + rest| > 0 && !IsDigit((Spaces(n + 1) + rest)[0])
  {
  }

  lemma ScannedIs(y: int)
    ensures Scanned(y) == if y > -100000 then y else -(-y / 10)
  {
  }

  lemma AfterTag(rest: string)
    ensures "<time" <= "<time" + rest && ("<time" + rest)[5..] == rest
  {
  }

  lemma ScanParts(s: string, x: int, y: int, tail: string, last: string)
    requires "<time" <= s && ScanInt(SkipSpaces(s[5..]), |s|) == Some((x, tail))
    requires SkipSpaces(tail) == last
    requires ScanInt(last, 6).Some? && ScanInt(last, 6).value.0 == Scanned(y)
    requires ToInt32(x) == x && ToInt32(Scanned(y)) == Scanned(y)
    ensures TpFromString(s) == Us(ToInt32(x * MILLION + Scanned(y)))
  {
  }

  lemma SecondNumber(y: int)
    requires |Decimal(y)| <= 6 || (y <= -10 && |Digits(-y)| == 6)
    ensures ScanInt(Decimal(y) + ">", 6).Some?
    ensures ScanInt(Decimal(y) + ">", 6).value.0 == if |Decimal(y)| <= 6 then y else -(-y / 10)
  {
    if |Decimal(y)| <= 6 { ScanDecimal(y, ">", 6); } else { ScanSixDigitsNegative(y, ">"); }
  }

  /** Small numbers survive the narrowing. */
  lemma Narrow(y: int)
    ensures -TWO_TO_31 <= y < TWO_TO_31 <==> ToInt32(y) == y
    ensures -MILLION < y < MILLION ==> ToInt32(Scanned(y)) == Scanned(y)
    ensures -TWO_TO_31 <= ToInt32(y) < TWO_TO_31 && ToInt32(ToInt32(y)) == ToInt32(y)
  {
  }

  lemma MicrosLength(t: Int64)
    ensures |Decimal(Micros(t))| <= 6 <==> Micros(t) > -100000
    ensures |Decimal(Micros(t))| <= 7
    ensures |Decimal(Micros(t))| == 7 ==> Micros(t) < 0 && |Digits(-Micros(t))| == 6
  {
    TruncRemRange(t, MILLION);
    hide Digits, TruncRem;
    SmallLength(Micros(t));
  }

  lemma SmallLength(y: int)
    requires -MILLION < y < MILLION
    ensures |Decimal(y)| <= 6 <==> y > -100000
    ensures |Decimal(y)| <= 7
    ensures |Decimal(y)| == 7 ==> y < 0 && |Digits(-y)| == 6
  {
    hide Digits;
    assert Pow10(5) == 100000 && Pow10(6) == 1000000;
    DigitsLength(Abs(y), 6);
    if -100000 < y < 0 {
      DigitsLength(-y, 5);
    }
  }

  /** The 32-bit reader recovers a printed time exactly when the time itself fits 32 bits and its
      negative microseconds, if any, have at most five digits. */
  lemma ScanRoundTripExactly(t: Int64)
    ensures TpFromString(StringFromTp(t)) == Us(t) <==>
            -TWO_TO_31 <= t < TWO_TO_31 && Micros(t) > -100000
  {
    hide *;
    ScanOfPrinted(t);
    SecondsAndMicros(t);
    ScannedDiffers(Micros(t));
    Narrow(Seconds(t));
    Narrow(ToInt32(Seconds(t)) * MILLION + Scanned(Micros(t)));
  }

  lemma ScannedDiffers(y: int)
    ensures Scanned(y) == y <==> y > -100000
  {
  }

  lemma ScanRoundTrip(t: Int64)
    requires 0 <= t < TWO_TO_31
    ensures TpFromString(StringFromTp(t)) == Us(t)
  {
    SecondsAndMicros(t);
    TruncRemRange(t, MILLION);
    hide ToInt32, StringFromTp, TpFromString;
    ScanRoundTripExactly(t);
  }

  /** The text and its terminator fit the 33-byte buffer they are printed into. */
  lemma PrintedFits(t: Int64)
    ensures |StringFromTp(t)| + 1 <= 33
  {
    Layout(t);
    MicrosLength(t);
    var x := ToInt32(Seconds(t));
    assert Pow10(10) == 10000000000 by {
      assert Pow10(5) == 100000;
      assert Pow10(10) == 10 * (10 * (10 * (10 * (10 * Pow10(5)))));
    }
    DigitsLength(Abs(x), 10);
  }

  /** The layout in full: the tag, the seconds, and the microseconds, padded with spaces to six columns. */
  lemma PrintedExactly(t: Int64) returns (pad: nat)
    ensures var sec, usec := Decimal(ToInt32(TruncDiv(t, 1000000))), Decimal(TruncRem(t, 1000000));
            && StringFromTp(t) == "<time " + sec + " " + (seq(pad, _ => ' ') + usec) + ">"
            && pad + |usec| >= 6 && (pad > 0 ==> pad + |usec| == 6)
  {
    TruncRemRange(t, MILLION);
    Narrow(Micros(t));
    hide Decimal, ToInt32;
    pad := Padding(Micros(t));
  }

  /** The reader wants the tag, and the filter wants three words, or neither yields a time. */
  lemma MalformedIsRefused(s: string)
    ensures !("<time" <= s) ==> TpFromString(s) == Invalid
    ensures |Words(s)| < 3 <==> TimeFilter(s).None?
    ensures s == [] || !(IsSpace(s[0]) || IsDigit(s[0]) || s[0] == '-' || s[0] == '+') ==> ToI(s) == 0
    ensures forall c :: c in [' ', '\t', '\n', '\r'] ==> IsSpace(c)
  {
  }
}
