/**
 * format_time: a device-relative number of seconds rendered as "HH:MM:SS",
 * each field zero-filled to two digits as Python's f"{n:02}" does.
 */
module TimeFormat {

  import opened Options

  predicate IsDigit(c: char) {
    '0' <= c <= '9'
  }

  predicate AllDigits(s: string) {
    forall i :: 0 <= i < |s| ==> IsDigit(s[i])
  }

  function DigitChar(d: nat): (c: char)
    requires d < 10
    ensures IsDigit(c) && c as int - '0' as int == d
  {
    (d + '0' as int) as char
  }

  /** str(n) for a natural number: decimal digits without leading zeros. */
  function Decimal(n: nat): (s: string)
    ensures 1 <= |s| && AllDigits(s)
    ensures |s| == 1 <==> n < 10
    ensures n >= 1 ==> s[0] != '0'
    decreases n
  {
    if n < 10 then [DigitChar(n)] else Decimal(n / 10) + [DigitChar(n % 10)]
  }

  /** The number a string of decimal digits denotes (int(s) on such a string). */
  function ValueOf(s: string): int {
    if s == [] then 0 else ValueOf(s[..|s| - 1]) * 10 + (s[|s| - 1] as int - '0' as int)
  }

  lemma {:induction false} DecimalRoundTrip(n: nat)
    ensures ValueOf(Decimal(n)) == n
    decreases n
  {
    if n >= 10 {
      var s := Decimal(n);
      assert s[..|s| - 1] == Decimal(n / 10);
      DecimalRoundTrip(n / 10);
    }
  }

  /** A negative number: the sign, then the digits of its magnitude. */
  lemma NegativePad(k: nat)
    requires k >= 1
    ensures var s := "-" + Decimal(k);
            && 2 <= |s| && s[0] == '-' && s[1..] == Decimal(k)
            && AllDigits(s[1..]) && ValueOf(s[1..]) == k && s[1] != '0'
  {
    DecimalRoundTrip(k);
    assert ("-" + Decimal(k))[1..] == Decimal(k);
  }

  /** A single digit: one zero of fill, then the digit. */
  lemma SingleDigitPad(n: nat)
    requires n < 10
    ensures var s := "0" + Decimal(n);
            |s| == 2 && AllDigits(s) && ValueOf(s) == n
  {
    var s := ['0', DigitChar(n)];
    assert "0" + Decimal(n) == s;
    assert s[..1] == ['0'] && ['0'][..0] == [];
    assert ValueOf(['0']) == 0;
  }

  /** Two or more digits: no fill, and exactly two digits below 100. */
  lemma WidePad(n: nat)
    requires n >= 10
    ensures 2 <= |Decimal(n)| && ValueOf(Decimal(n)) == n
    ensures n < 100 ==> |Decimal(n)| == 2
  {
    DecimalRoundTrip(n);
    assert Decimal(n) == Decimal(n / 10) + [DigitChar(n % 10)];
  }

  /** f"{n:02}": the sign, then the digits of |n| zero-filled so that the whole is at least two wide. */
  function Pad2(n: int): (s: string)
    ensures n >= 0 ==> 2 <= |s| && AllDigits(s) && ValueOf(s) == n
    ensures 0 <= n < 100 ==> |s| == 2
    ensures n >= 10 ==> s[0] != '0'
    ensures n < 0 ==> 2 <= |s| && s[0] == '-' && AllDigits(s[1..]) && ValueOf(s[1..]) == -n && s[1] != '0'
  {
    if n < 0 then
      NegativePad(-n);
      "-" + Decimal(-n)
    else if n < 10 then
      SingleDigitPad(n);
      "0" + Decimal(n)
    else
      WidePad(n);
      Decimal(n)
  }

  /** The three fields of format_time, by floor division and modulo (Python's // and % on a positive divisor). */
  datatype Hms = Hms(hours: int, minutes: int, seconds: int)

  function Split(t: int): (r: Hms)
    ensures r.hours * 3600 + r.minutes * 60 + r.seconds == t
    ensures 0 <= r.minutes < 60 && 0 <= r.seconds < 60
    ensures t >= 0 ==> r.hours >= 0
  {
    var r := Hms(t / 3600, (t % 3600) / 60, t % 60);
    assert t % 3600 == (t % 3600) / 60 * 60 + t % 60 by {
      assert t == t / 3600 * 3600 + t % 3600;
      assert t % 3600 == (t % 3600) / 60 * 60 + (t % 3600) % 60;
      assert t == (t / 3600 * 60 + (t % 3600) / 60) * 60 + (t % 3600) % 60;
    }
    r
  }

  function FormatTime(t: int): string {
    var f := Split(t);
    Pad2(f.hours) + ":" + Pad2(f.minutes) + ":" + Pad2(f.seconds)
  }

  /** Reads back a string of the shape FormatTime writes: digits ":" two digits ":" two digits. */
  function ParseClock(s: string): (r: Option<int>)
  {
    if |s| >= 8 && s[|s| - 3] == ':' && s[|s| - 6] == ':'
       && AllDigits(s[..|s| - 6]) && AllDigits(s[|s| - 5..|s| - 3]) && AllDigits(s[|s| - 2..])
    then Some(ValueOf(s[..|s| - 6]) * 3600 + ValueOf(s[|s| - 5..|s| - 3]) * 60 + ValueOf(s[|s| - 2..]))
    else None
  }

  /** For a non-negative whole number of seconds, the rendered clock reads back as that number. */
  lemma FormatTimeRoundTrip(t: nat)
    ensures ParseClock(FormatTime(t)) == Some(t)
  {
    var f := Split(t);
    var h, m, sec := Pad2(f.hours), Pad2(f.minutes), Pad2(f.seconds);
    assert |m| == 2 && |sec| == 2 && |h| >= 2;
    var s := FormatTime(t);
    assert s == h + ":" + m + ":" + sec;
    assert s[..|s| - 6] == h;
    assert s[|s| - 5..|s| - 3] == m;
    assert s[|s| - 2..] == sec;
    assert s[|s| - 3] == ':' && s[|s| - 6] == ':';
  }
}
