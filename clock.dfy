/** The `M:SS` time text of the transport surface (formatTime in main.js). */
module Clock {
  import opened Optional

  /** A media time as formatTime receives it: a finite number of seconds, or
      NaN / Infinity (the duration before the metadata has loaded).  Media times
      are never negative, and for t >= 0 the floors taken by formatTime only
      depend on floor(t), so whole seconds lose nothing. */
  datatype Seconds = Finite(whole: nat) | NonFinite

  predicate IsDigit(c: char) { '0' <= c <= '9' }

  predicate AllDigits(s: string) { forall k :: 0 <= k < |s| ==> IsDigit(s[k]) }

  function DigitChar(d: nat): (c: char)
    requires d < 10
    ensures IsDigit(c)
  {
    (('0' as int) + d) as char
  }

  function DigitValue(c: char): (d: nat)
    requires IsDigit(c)
    ensures d < 10
  {
    (c as int) - ('0' as int)
  }

  /** Number.prototype.toString() of a non-negative integer below 1e21 (where
      JavaScript would switch to exponent form): decimal digits, no leading zero. */
  function Decimal(n: nat): (r: string)
    ensures |r| > 0 && AllDigits(r)
    decreases n
  {
    if n < 10 then [DigitChar(n)] else Decimal(n / 10) + [DigitChar(n % 10)]
  }

  /** The digits carry no leading zero, and a single digit is written for 0..9. */
  lemma {:induction false} DecimalCanonical(n: nat)
    ensures |Decimal(n)| > 1 ==> Decimal(n)[0] != '0'
    ensures n < 10 <==> |Decimal(n)| == 1
    decreases n
  {
    if n >= 10 {
      DecimalCanonical(n / 10);
      assert Decimal(n)[0] == Decimal(n / 10)[0];
    }
  }

  /** The number a string of decimal digits denotes. */
  function DecimalValue(s: string): nat
    requires AllDigits(s)
  {
    if s == [] then 0 else DecimalValue(s[..|s| - 1]) * 10 + DigitValue(s[|s| - 1])
  }

  lemma {:induction false} DecimalRoundTrip(n: nat)
    ensures DecimalValue(Decimal(n)) == n
    decreases n
  {
    var r := Decimal(n);
    if n >= 10 {
      DecimalRoundTrip(n / 10);
      assert r[..|r| - 1] == Decimal(n / 10);
      assert DigitValue(DigitChar(n % 10)) == n % 10;
    } else {
      assert r[..0] == [];
    }
  }

  /** String.prototype.padStart(width, fill) with a one-character fill. */
  function PadStart(s: string, width: nat, fill: char): (r: string)
    ensures |r| == if |s| >= width then |s| else width
    ensures r[|r| - |s|..] == s
    ensures forall k :: 0 <= k < |r| - |s| ==> r[k] == fill
  {
    if |s| >= width then s else seq(width - |s|, _ => fill) + s
  }

  /** The text `<mins>:<secs padded to two digits>`. */
  function Clock(mins: nat, secs: nat): string
  {
    Decimal(mins) + ":" + PadStart(Decimal(secs), 2, '0')
  }

  /** formatTime: minutes (no hour field), a colon, and the seconds padded to two digits. */
  function FormatTime(t: Seconds): string
  {
    match t
    case NonFinite => "0:00"
    case Finite(s) => Clock(s / 60, s % 60)
  }

  /** Reads an `M:SS` text back: digits, a colon, two digits. */
  function ParseClock(r: string): Option<nat>
  {
    if |r| >= 4 && r[|r| - 3] == ':' && AllDigits(r[..|r| - 3]) && AllDigits(r[|r| - 2..]) then
      Some(DecimalValue(r[..|r| - 3]) * 60 + DecimalValue(r[|r| - 2..]))
    else
      None
  }

  /** The seconds field is always exactly two digits, whatever the input. */
  lemma {:induction false} SecondsField(v: nat)
    requires v < 60
    ensures |PadStart(Decimal(v), 2, '0')| == 2
    ensures AllDigits(PadStart(Decimal(v), 2, '0'))
    ensures DecimalValue(PadStart(Decimal(v), 2, '0')) == v
  {
    var d := Decimal(v);
    var p := PadStart(d, 2, '0');
    DecimalRoundTrip(v);
    if v < 10 {
      assert p == ['0'] + d;
      assert p[..1] == ['0'];
      assert DecimalValue(p[..1]) == DecimalValue([]) * 10 + 0;
      assert p[1..] == d;
    } else {
      assert p == d;
    }
  }

  /** Splitting `m + ":" + p` at its colon gives back m and p. */
  lemma SplitAtColon(m: string, p: string)
    requires |p| == 2
    ensures var r := m + ":" + p;
      && |r| == |m| + 3
      && r[..|r| - 3] == m
      && r[|r| - 3] == ':'
      && r[|r| - 2..] == p
  {
  }

  /** The shape of a clock text: the decimal minutes, then `:`, then two digits
      giving the seconds. */
  lemma ClockShape(mins: nat, secs: nat)
    requires secs < 60
    ensures var r := Clock(mins, secs);
      && |r| >= 4
      && r[..|r| - 3] == Decimal(mins)
      && r[|r| - 3] == ':'
      && AllDigits(r[|r| - 2..])
      && DecimalValue(r[|r| - 2..]) == secs
  {
    var m := Decimal(mins);
    var p := PadStart(Decimal(secs), 2, '0');
    SecondsField(secs);
    SplitAtColon(m, p);
    var r := Clock(mins, secs);
    assert r == m + ":" + p;
    assert r[|r| - 2..] == p;
  }

  /** A finite result is the decimal of floor(s / 60), a colon, and s mod 60 in
      exactly two digits. */
  lemma FormatTimeShape(s: nat)
    ensures FormatTime(Finite(s)) == Clock(s / 60, s % 60)
    ensures var r := FormatTime(Finite(s));
      && |r| >= 4
      && r[..|r| - 3] == Decimal(s / 60)
      && r[|r| - 3] == ':'
      && AllDigits(r[|r| - 2..])
      && DecimalValue(r[|r| - 2..]) == s % 60
  {
    ClockShape(s / 60, s % 60);
  }

  /** Reading a clock text back gives mins * 60 + secs. */
  lemma ClockRoundTrip(mins: nat, secs: nat)
    requires secs < 60
    ensures ParseClock(Clock(mins, secs)) == Some(mins * 60 + secs)
  {
    ClockShape(mins, secs);
    DecimalRoundTrip(mins);
  }

  /** Reading the text back gives the input: formatTime loses nothing on finite
      whole seconds (of the sizes a double holds exactly and prints in plain digits). */
  lemma FormatTimeRoundTrip(s: nat)
    ensures ParseClock(FormatTime(Finite(s))) == Some(s)
  {
    var mins, secs := s / 60, s % 60;
    assert s == mins * 60 + secs;
    ClockRoundTrip(mins, secs);
  }

  /** Distinct whole seconds give distinct texts. */
  lemma FormatTimeInjective(a: nat, b: nat)
    requires FormatTime(Finite(a)) == FormatTime(Finite(b))
    ensures a == b
  {
    FormatTimeRoundTrip(a);
    FormatTimeRoundTrip(b);
  }

  /** A non-finite time reads like zero seconds. */
  lemma NonFiniteReadsAsZero()
    ensures FormatTime(NonFinite) == "0:00" == FormatTime(Finite(0))
  {
    assert Decimal(0) == "0";
    assert PadStart("0", 2, '0') == "00";
  }

  /** Worked values: 65 s, 5 s and one hour (there is no hour field). */
  lemma FormatTimeExamples()
    ensures FormatTime(Finite(65)) == "1:05"
    ensures FormatTime(Finite(5)) == "0:05"
    ensures FormatTime(Finite(3600)) == "60:00"
  {
    assert Decimal(1) == "1" && Decimal(5) == "5" && Decimal(0) == "0" && Decimal(6) == "6";
    assert Decimal(60) == Decimal(6) + "0";
    assert PadStart("5", 2, '0') == "05";
    assert PadStart("0", 2, '0') == "00";
  }
}
