/** The two summary lines: "{dayOfYear} / {totalDays} days" and
    "{percent}% complete ({daysLeft} days left)", where the percentage is
    `((dayOfYear / totalDays) * 100).toFixed(1)`. */
module Text {

  predicate IsDigit(c: char) {
    '0' <= c <= '9'
  }

  function DigitChar(d: int): (c: char)
    requires 0 <= d <= 9
    ensures IsDigit(c) && DigitValue(c) == d
  {
    ('0' as int + d) as char
  }

  function DigitValue(c: char): nat
    requires IsDigit(c)
  {
    c as int - '0' as int
  }

  /** Decimal notation of a natural number, as JavaScript prints an integral number. */
  function DecimalString(n: nat): (s: string)
    ensures |s| >= 1
    ensures forall i :: 0 <= i < |s| ==> IsDigit(s[i])
    ensures s[0] == '0' ==> n == 0 && s == "0"
  {
    if n < 10 then [DigitChar(n)] else DecimalString(n / 10) + [DigitChar(n % 10)]
  }

  /** The number a string of digits denotes. */
  function DecimalValue(s: string): nat
    requires forall i :: 0 <= i < |s| ==> IsDigit(s[i])
  {
    if s == [] then 0 else DecimalValue(s[..|s| - 1]) * 10 + DigitValue(s[|s| - 1])
  }

  /** Printing then reading a number gives it back. */
  lemma {:induction false} DecimalRoundTrip(n: nat)
    ensures DecimalValue(DecimalString(n)) == n
  {
    var s := DecimalString(n);
    if n >= 10 {
      DecimalRoundTrip(n / 10);
      assert s[..|s| - 1] == DecimalString(n / 10);
    }
  }

  /** `String(i)` for an integral number. */
  function IntString(i: int): (s: string)
    ensures |s| >= 1
    ensures i >= 0 ==> s == DecimalString(i)
    ensures i < 0 ==> s[0] == '-' && s[1..] == DecimalString(-i)
  {
    if i < 0 then "-" + DecimalString(-i) else DecimalString(i)
  }

  /** The `n` of `x.toFixed(1)`: `n / 10 - x` as close to zero as possible, the larger `n`
      on a tie. */
  function RoundTenths(x: real): (n: int)
    ensures n as real - 0.5 <= x * 10.0 < n as real + 0.5
  {
    (x * 10.0 + 0.5).Floor
  }

  /** `x.toFixed(1)` for 0 <= x: the integer part, a point, and one decimal. */
  function FixedOne(x: real): (s: string)
    requires x >= 0.0
    ensures |s| >= 3 && s[|s| - 2] == '.'
    ensures forall i :: 0 <= i < |s| - 2 ==> IsDigit(s[i])
    ensures IsDigit(s[|s| - 1])
    ensures DecimalValue(s[..|s| - 2]) * 10 + DigitValue(s[|s| - 1]) == RoundTenths(x)
    ensures s[0] == '0' ==> |s| == 3
  {
    var n := RoundTenths(x);
    var whole := DecimalString(n / 10);
    DecimalRoundTrip(n / 10);
    var s := whole + "." + [DigitChar(n % 10)];
    assert s[..|s| - 2] == whole;
    s
  }

  /** `(dayOfYear / totalDays) * 100` */
  function Percent(dayOfYear: int, totalDays: int): (p: real)
    requires totalDays > 0
    ensures 0 <= dayOfYear ==> 0.0 <= p
    ensures dayOfYear <= totalDays ==> p <= 100.0
    ensures dayOfYear == totalDays ==> p == 100.0
  {
    var q := dayOfYear as real / totalDays as real;
    assert q * totalDays as real == dayOfYear as real;
    q * 100.0
  }

  /** For a year of 365 or 366 days ten times the percentage stays at least 1/732 away
      from every halfway point `k + 1/2`, so the rounding of `toFixed(1)` has no tie to
      break and a small error in the percentage does not change the printed tenth. */
  lemma PercentHasNoTie(dayOfYear: int, totalDays: int, k: int)
    requires totalDays == 365 || totalDays == 366
    ensures var p := Percent(dayOfYear, totalDays);
            p * 10.0 - (k as real + 0.5) >= 1.0 / 732.0 || (k as real + 0.5) - p * 10.0 >= 1.0 / 732.0
  {
    // The distance is m / (2 * totalDays) for m = 2000 * dayOfYear - (2k + 1) * totalDays.
    // For 365 that m is odd; for 366 it is twice an odd number. Either way it is not zero.
    var p := Percent(dayOfYear, totalDays);
    if totalDays == 365 {
      var m := 2000 * dayOfYear - (2 * k + 1) * 365;
      assert m == 2 * (1000 * dayOfYear - 365 * k - 183) + 1;
      assert p * 10.0 - (k as real + 0.5) == m as real / 730.0;
      if m >= 1 {
        assert m as real / 730.0 >= 1.0 / 730.0;
      } else {
        assert m <= -1;
        assert m as real / 730.0 <= -1.0 / 730.0;
      }
    } else {
      var m := 1000 * dayOfYear - (2 * k + 1) * 183;
      assert m == 2 * (500 * dayOfYear - 183 * k - 92) + 1;
      assert p * 10.0 - (k as real + 0.5) == m as real / 366.0;
      if m >= 1 {
        assert m as real / 366.0 >= 1.0 / 366.0;
      } else {
        assert m <= -1;
        assert m as real / 366.0 <= -1.0 / 366.0;
      }
    }
  }

  function ProgressText(dayOfYear: int, totalDays: int): string {
    IntString(dayOfYear) + " / " + IntString(totalDays) + " days"
  }

  function CompletionText(percent: real, daysLeft: int): string
    requires percent >= 0.0
  {
    FixedOne(percent) + "% complete (" + IntString(daysLeft) + " days left)"
  }

  lemma PrintedNumbers()
    ensures DecimalString(0) == "0" && DecimalString(12) == "12" && DecimalString(46) == "46"
    ensures DecimalString(100) == "100" && DecimalString(319) == "319" && DecimalString(365) == "365"
  {
    assert DecimalString(1) == "1" && DecimalString(3) == "3" && DecimalString(4) == "4";
    assert DecimalString(10) == "10" && DecimalString(31) == "31" && DecimalString(36) == "36";
  }

  /** 46 / 365 is 12.6027...%, printed as "12.6". */
  lemma PercentOfDay46()
    ensures FixedOne(Percent(46, 365)) == "12.6"
  {
    var x := Percent(46, 365);
    assert x == 4600.0 / 365.0;
    assert 126.0 <= x * 10.0 + 0.5 < 127.0;
    assert RoundTenths(x) == 126;
    PrintedNumbers();
  }

  /** Day 46 of a 365-day year. */
  lemma TextExample()
    ensures ProgressText(46, 365) == "46 / 365 days"
    ensures CompletionText(Percent(46, 365), 319) == "12.6% complete (319 days left)"
  {
    ProgressExample();
    CompletionExample();
  }

  lemma ProgressExample()
    ensures ProgressText(46, 365) == "46 / 365 days"
  {
    PrintedNumbers();
    assert IntString(46) == "46" && IntString(365) == "365";
  }

  lemma CompletionExample()
    ensures CompletionText(Percent(46, 365), 319) == "12.6% complete (319 days left)"
  {
    PercentOfDay46();
    PrintedNumbers();
    assert IntString(319) == "319";
  }

  /** 100% is printed as "100.0". */
  lemma FullPercent()
    ensures FixedOne(100.0) == "100.0"
  {
    assert RoundTenths(100.0) == 1000;
    PrintedNumbers();
  }

  /** The completion line for 100% with no day left. */
  lemma FullCompletion()
    ensures CompletionText(100.0, 0) == "100.0% complete (0 days left)"
  {
    FullPercent();
    assert IntString(0) == "0";
  }

  /** On the last day the completion line reads "100.0% complete (0 days left)". */
  lemma LastDayText(totalDays: int)
    requires totalDays == 365 || totalDays == 366
    ensures CompletionText(Percent(totalDays, totalDays), 0) == "100.0% complete (0 days left)"
  {
    assert Percent(totalDays, totalDays) == 100.0;
    FullCompletion();
  }
}
