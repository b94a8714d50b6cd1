/**
  The `MM:SS` rendering of a number of seconds (`Timer.formatTime` in js/main.js),
  together with a reference parser for such strings, used to state that the
  rendering loses no information.
 */
module Clock {
  import opened Options

  predicate IsDigit(c: char) {
    '0' <= c <= '9'
  }

  predicate AllDigits(s: string) {
    forall i :: 0 <= i < |s| ==> IsDigit(s[i])
  }

  function DigitChar(d: nat): (c: char)
    requires d < 10
    ensures IsDigit(c)
  {
    ('0' as int + d) as char
  }

  function DigitValue(c: char): (d: nat)
    requires IsDigit(c)
    ensures d < 10 && DigitChar(d) == c
  {
    c as int - '0' as int
  }

  /** `String(n)` for a non-negative integer below 1e21: decimal digits, no leading zero. */
  function Decimal(n: nat): (r: string)
    ensures |r| >= 1 && AllDigits(r)
    decreases n
  {
    if n < 10 then [DigitChar(n)] else Decimal(n / 10) + [DigitChar(n % 10)]
  }

  /** `s.padStart(width, fill)` for a one-character fill string. */
  function PadStart(s: string, width: nat, fill: char): (r: string)
    ensures |r| == if |s| >= width then |s| else width
    decreases width - |s|
  {
    if |s| >= width then s else PadStart([fill] + s, width, fill)
  }

  /**
    `formatTime(seconds)`: the whole minutes, then `:`, then the remaining
    seconds, each padded with zeros to at least two digits. The timer only ever
    passes its non-negative `timeLeft`, so floor division and `%` agree with
    Dafny's on these operands.
   */
  function FormatTime(seconds: nat): (r: string)
    ensures |r| >= 5 && r[|r| - 3] == ':'
    ensures AllDigits(r[..|r| - 3]) && AllDigits(r[|r| - 2..])
  {
    var mm, ss := PadStart(Decimal(seconds / 60), 2, '0'), PadStart(Decimal(seconds % 60), 2, '0');
    DecimalLength(seconds % 60);
    ZeroPadding(Decimal(seconds / 60), 2);
    ZeroPadding(Decimal(seconds % 60), 2);
    ClockParts(mm, ss);
    mm + ":" + ss
  }

  /** `padStart` keeps the string as its suffix and fills only in front of it. */
  lemma {:induction false} PadStartShape(s: string, width: nat, fill: char)
    ensures var r := PadStart(s, width, fill);
      r[|r| - |s|..] == s && forall i :: 0 <= i < |r| - |s| ==> r[i] == fill
    decreases width - |s|
  {
    if |s| < width {
      PadStartShape([fill] + s, width, fill);
    }
  }

  /** `String(n)` never starts with a zero, except for 0 itself. */
  lemma {:induction false} DecimalNoLeadingZero(n: nat)
    ensures Decimal(n)[0] == '0' <==> n == 0
    decreases n
  {
    if n >= 10 {
      DecimalNoLeadingZero(n / 10);
    }
  }

  /** The value of a string of decimal digits (the empty string reads as 0). */
  function ParseDecimal(s: string): nat
    requires AllDigits(s)
  {
    if s == [] then 0 else ParseDecimal(s[..|s| - 1]) * 10 + DigitValue(s[|s| - 1])
  }

  /**
    Reads a clock string back: at least two minute digits, `:`, exactly two
    second digits whose value is below 60. Anything else is `None`.
   */
  function ParseClock(t: string): (r: Option<nat>) {
    if |t| < 5 || t[|t| - 3] != ':' then None
    else
      var mm, ss := t[..|t| - 3], t[|t| - 2..];
      if AllDigits(mm) && AllDigits(ss) && ParseDecimal(ss) < 60
      then Some(ParseDecimal(mm) * 60 + ParseDecimal(ss))
      else None
  }

  lemma {:induction false} DecimalRoundTrip(n: nat)
    ensures ParseDecimal(Decimal(n)) == n
    decreases n
  {
    if n >= 10 {
      var s := Decimal(n);
      assert s[..|s| - 1] == Decimal(n / 10);
      DecimalRoundTrip(n / 10);
    }
  }

  lemma {:induction false} LeadingZero(s: string)
    requires AllDigits(s)
    ensures AllDigits(['0'] + s) && ParseDecimal(['0'] + s) == ParseDecimal(s)
    decreases |s|
  {
    var z := ['0'] + s;
    if s != [] {
      assert z[..|z| - 1] == ['0'] + s[..|s| - 1];
      LeadingZero(s[..|s| - 1]);
    }
  }

  lemma {:induction false} ZeroPadding(s: string, width: nat)
    requires AllDigits(s)
    ensures AllDigits(PadStart(s, width, '0'))
    ensures ParseDecimal(PadStart(s, width, '0')) == ParseDecimal(s)
    decreases width - |s|
  {
    if |s| < width {
      LeadingZero(s);
      ZeroPadding(['0'] + s, width);
    }
  }

  lemma DecimalLength(n: nat)
    ensures n < 10 ==> |Decimal(n)| == 1
    ensures 10 <= n < 100 ==> |Decimal(n)| == 2
    ensures n >= 100 ==> |Decimal(n)| >= 3
  {
  }

  /** A string whose last three characters are `:` and two digits splits there. */
  lemma ParseClockAt(t: string, mm: string, ss: string)
    requires |t| >= 5 && t[|t| - 3] == ':' && t[..|t| - 3] == mm && t[|t| - 2..] == ss
    requires AllDigits(mm) && AllDigits(ss) && ParseDecimal(ss) < 60
    ensures ParseClock(t) == Some(ParseDecimal(mm) * 60 + ParseDecimal(ss))
  {
  }

  lemma ClockParts(mm: string, ss: string)
    requires |ss| == 2
    ensures var t := mm + ":" + ss;
      |t| == |mm| + 3 && t[|t| - 3] == ':' && t[..|t| - 3] == mm && t[|t| - 2..] == ss
  {
    var t := mm + ":" + ss;
    assert t[..|t| - 3] == mm;
    assert t[|t| - 2..] == ss;
  }

  /** A string of the accepted shape reads as minutes times 60 plus seconds. */
  lemma ParseClockOfParts(mm: string, ss: string)
    requires AllDigits(mm) && AllDigits(ss)
    requires |mm| >= 2 && |ss| == 2 && ParseDecimal(ss) < 60
    ensures ParseClock(mm + ":" + ss) == Some(ParseDecimal(mm) * 60 + ParseDecimal(ss))
  {
    ClockParts(mm, ss);
    ParseClockAt(mm + ":" + ss, mm, ss);
  }

  /** Padded minutes and padded seconds below 60 read back as their total. */
  lemma PaddedPartsRoundTrip(minutes: nat, secs: nat)
    requires secs < 60
    ensures ParseClock(PadStart(Decimal(minutes), 2, '0') + ":" + PadStart(Decimal(secs), 2, '0'))
         == Some(minutes * 60 + secs)
  {
    var mm, ss := PadStart(Decimal(minutes), 2, '0'), PadStart(Decimal(secs), 2, '0');
    ZeroPadding(Decimal(minutes), 2);
    ZeroPadding(Decimal(secs), 2);
    DecimalRoundTrip(minutes);
    DecimalRoundTrip(secs);
    DecimalLength(secs);
    assert |mm| >= 2 && |ss| == 2;
    assert ParseDecimal(mm) == minutes && ParseDecimal(ss) == secs;
    ParseClockOfParts(mm, ss);
  }

  /** A rendered value always reads back as itself. */
  lemma FormatTimeRoundTrip(seconds: nat)
    ensures ParseClock(FormatTime(seconds)) == Some(seconds)
  {
    PaddedPartsRoundTrip(seconds / 60, seconds % 60);
  }

  /** Different second counts never render alike. */
  lemma FormatTimeInjective(a: nat, b: nat)
    requires FormatTime(a) == FormatTime(b)
    ensures a == b
  {
    FormatTimeRoundTrip(a);
    FormatTimeRoundTrip(b);
  }

  /** The rendering is always at least `MM:SS` long, and exactly that below 100 minutes. */
  lemma FormatTimeLength(seconds: nat)
    ensures |FormatTime(seconds)| >= 5
    ensures |FormatTime(seconds)| == 5 <==> seconds < 6000
  {
    DecimalLength(seconds / 60);
    DecimalLength(seconds % 60);
  }
}
