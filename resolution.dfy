/**
 * `convert_resolution_to_period`: a candle width in minutes becomes the exchange's period
 * name, "<m>min" below an hour and "<m div 60>hour" from an hour on. Whole hours only: the
 * minutes past the hour are dropped. The trailing `return None` cannot be reached.
 */
module Resolution {
  import opened Wrappers

  function Digit(d: nat): char
    requires d < 10
  {
    "0123456789"[d]
  }

  predicate AllDigits(s: string)
  {
    forall i :: 0 <= i < |s| ==> '0' <= s[i] <= '9'
  }

  /** Decimal digits of a natural number, most significant first, without leading zeros. */
  function NatToString(n: nat): (s: string)
    ensures |s| >= 1 && AllDigits(s)
    decreases n
  {
    if n < 10 then [Digit(n)] else NatToString(n / 10) + [Digit(n % 10)]
  }

  /** Python's `str` of an integer. */
  function IntToString(n: int): string
  {
    if n < 0 then "-" + NatToString(-n) else NatToString(n)
  }

  function ConvertResolutionToPeriod(resolutionMinutes: int): (period: Option<string>)
    ensures period.Some?
  {
    if resolutionMinutes < 60 then Some(IntToString(resolutionMinutes) + "min")
    else if resolutionMinutes >= 60 then Some(IntToString(resolutionMinutes / 60) + "hour")
    else None
  }

  // ---------------------------------------------------------------- reading a period back

  datatype Unit = Minutes | Hours

  datatype Period = Period(count: int, unit: Unit)

  function DigitValue(c: char): nat
    requires '0' <= c <= '9'
  {
    c as int - '0' as int
  }

  function ParseNat(s: string): nat
    requires |s| >= 1 && AllDigits(s)
    decreases |s|
  {
    if |s| == 1 then DigitValue(s[0])
    else 10 * ParseNat(s[..|s| - 1]) + DigitValue(s[|s| - 1])
  }

  function ParseInt(s: string): Option<int>
  {
    if |s| >= 2 && s[0] == '-' && AllDigits(s[1..]) then Some(-(ParseNat(s[1..]) as int))
    else if |s| >= 1 && AllDigits(s) then Some(ParseNat(s))
    else None
  }

  /** Reads a period name back: a count, then "min" or "hour". */
  function ParsePeriod(p: string): Option<Period>
  {
    if |p| >= 4 && p[|p| - 4..] == "hour" then
      match ParseInt(p[..|p| - 4])
      case Some(n) => Some(Period(n, Hours))
      case None => None
    else if |p| >= 3 && p[|p| - 3..] == "min" then
      match ParseInt(p[..|p| - 3])
      case Some(n) => Some(Period(n, Minutes))
      case None => None
    else None
  }

  lemma {:induction false} NatRoundTrip(n: nat)
    ensures ParseNat(NatToString(n)) == n
    decreases n
  {
    if n >= 10 {
      NatRoundTrip(n / 10);
      var s := NatToString(n);
      assert s[..|s| - 1] == NatToString(n / 10);
    }
  }

  lemma IntRoundTrip(n: int)
    ensures ParseInt(IntToString(n)) == Some(n)
  {
    var m: nat := if n < 0 then -n else n;
    var digits := NatToString(m);
    NatRoundTrip(m);
    if n < 0 {
      assert IntToString(n) == "-" + digits;
      ParseNegative(digits);
    } else {
      assert IntToString(n) == digits;
      ParseDigits(digits);
    }
  }

  lemma ParseNegative(digits: string)
    requires |digits| >= 1 && AllDigits(digits)
    ensures ParseInt("-" + digits) == Some(-(ParseNat(digits) as int))
  {
    var s := "-" + digits;
    assert s[1..] == digits;
  }

  lemma ParseDigits(digits: string)
    requires |digits| >= 1 && AllDigits(digits)
    ensures ParseInt(digits) == Some(ParseNat(digits) as int)
  {
    assert digits[0] != '-';
  }

  /** The period name reads back as the whole minutes below an hour and as the whole hours,
      rounded down, from an hour on. */
  lemma PeriodRoundTrip(resolutionMinutes: int)
    ensures ParsePeriod(ConvertResolutionToPeriod(resolutionMinutes).value)
      == if resolutionMinutes < 60 then Some(Period(resolutionMinutes, Minutes))
         else Some(Period(resolutionMinutes / 60, Hours))
  {
    var p := ConvertResolutionToPeriod(resolutionMinutes).value;
    if resolutionMinutes < 60 {
      var digits := IntToString(resolutionMinutes);
      assert p[..|p| - 3] == digits && p[|p| - 3..] == "min";
      assert p[|p| - 3] == 'm';
      if |p| >= 4 {
        assert p[|p| - 4..][1] == 'm' != "hour"[1];
      }
      IntRoundTrip(resolutionMinutes);
    } else {
      var digits := IntToString(resolutionMinutes / 60);
      assert p[..|p| - 4] == digits && p[|p| - 4..] == "hour";
      IntRoundTrip(resolutionMinutes / 60);
    }
  }

  /** The conversion is lossy: every width within the same hour gives the same name. */
  lemma HoursRoundDown(resolutionMinutes: int)
    requires resolutionMinutes >= 60
    ensures ConvertResolutionToPeriod(resolutionMinutes)
      == ConvertResolutionToPeriod(resolutionMinutes - resolutionMinutes % 60)
    ensures ConvertResolutionToPeriod(90) == ConvertResolutionToPeriod(60) == Some("1hour")
  {
    assert (resolutionMinutes - resolutionMinutes % 60) / 60 == resolutionMinutes / 60;
    assert Digit(1) == '1';
    assert IntToString(90 / 60) == IntToString(60 / 60) == "1";
    assert "1" + "hour" == "1hour";
  }
}
