/** Rendering a duration in seconds as "Hh Mm Ss" (format_seconds). */
module Duration {

  import opened Wrappers
  import opened Text

  /** What format_seconds is given: a value int() converts, or one it cannot. */
  datatype Seconds = Whole(n: int) | Unparsable

  const UnknownText: string := "Unknown"

  /** m, s = divmod(n, 60); h, m = divmod(m, 60). Dafny's division by a
      positive divisor floors, as Python's divmod does, also for negative n. */
  function Components(n: int): (int, int, int) {
    var m := n / 60;
    (m / 60, m % 60, n % 60)
  }

  /** The components put back together give the count, and the minutes
      and seconds are in range. */
  lemma ComponentsRecompose(n: int)
    ensures var c := Components(n);
      c.0 * 3600 + c.1 * 60 + c.2 == n && 0 <= c.1 < 60 && 0 <= c.2 < 60
  {
    var m := n / 60;
    assert m / 60 * 3600 + m % 60 * 60 == (m / 60 * 60 + m % 60) * 60;
  }

  /** format_seconds: all three units once the hour count is non-zero,
      minutes and seconds once the minute count is, else seconds alone. */
  function FormatSeconds(d: Seconds): (r: string)
    ensures r == UnknownText <==> d.Unparsable?
    ensures d.Whole? ==> |r| >= 2 && r[|r| - 1] == 's'
  {
    match d
    case Unparsable => UnknownText
    case Whole(n) =>
      assert UnknownText[|UnknownText| - 1] == 'n';
      var (h, m, s) := Components(n);
      if h != 0 then IntToString(h) + "h " + NatToString(m) + "m " + NatToString(s) + "s"
      else if m != 0 then NatToString(m) + "m " + NatToString(s) + "s"
      else NatToString(s) + "s"
  }

  lemma {:induction false} FormatUnder60(n: int)
    requires 0 <= n < 60
    ensures FormatSeconds(Whole(n)) == NatToString(n) + "s"
  {
  }

  lemma {:induction false} FormatUnderAnHour(n: int)
    requires 60 <= n < 3600
    ensures FormatSeconds(Whole(n)) == NatToString(n / 60) + "m " + NatToString(n % 60) + "s"
  {
  }

  /** From one hour on, all three units are printed, zero ones included. */
  lemma {:induction false} FormatHours(n: int)
    requires n >= 3600
    ensures FormatSeconds(Whole(n)) ==
      NatToString(n / 3600) + "h " + NatToString(n / 60 % 60) + "m " + NatToString(n % 60) + "s"
  {
    var (h, m, s) := Components(n);
    ComponentsRecompose(n);
    assert h == n / 3600 by {
      assert h * 3600 <= n < (h + 1) * 3600;
    }
  }

  /** The worked examples: 0, 45 and 75 seconds. */
  lemma FormatExamplesShort()
    ensures FormatSeconds(Whole(0)) == "0s"
    ensures FormatSeconds(Whole(45)) == "45s"
    ensures FormatSeconds(Whole(75)) == "1m 15s"
  {
    FormatUnder60(0);
    FormatUnder60(45);
    assert NatToString(45) == NatToString(4) + [DigitChar(5)];
    FormatUnderAnHour(75);
    assert NatToString(15) == NatToString(1) + [DigitChar(5)];
  }

  /** The worked examples with hours: 3600 and 3661 seconds print all three
      units, and a negative count floors into a negative hour. */
  lemma FormatExamplesHours()
    ensures FormatSeconds(Whole(3600)) == "1h 0m 0s"
    ensures FormatSeconds(Whole(3661)) == "1h 1m 1s"
    ensures FormatSeconds(Whole(-1)) == "-1h 59m 59s"
  {
    FormatHours(3600);
    FormatHours(3661);
    assert Components(-1) == (-1, 59, 59);
    assert NatToString(59) == NatToString(5) + [DigitChar(9)];
  }

  // ---------------------------------------------------------------------
  // Reading a rendered duration back

  /** The number before the one-letter unit of a field such as "15m". */
  function ReadField(field: string, unit: char): Option<nat> {
    if |field| >= 2 && field[|field| - 1] == unit && IsDigits(field[..|field| - 1])
    then Some(DigitsValue(field[..|field| - 1]))
    else None
  }

  /** The number of seconds a rendering of a non-negative duration names. */
  function ReadDuration(r: string): Option<int> {
    var f := Split(r, ' ');
    if |f| == 1 then
      ReadField(f[0], 's')
    else if |f| == 2 then
      match (ReadField(f[0], 'm'), ReadField(f[1], 's'))
      case (Some(m), Some(s)) => Some(m * 60 + s)
      case _ => None
    else if |f| == 3 then
      match (ReadField(f[0], 'h'), ReadField(f[1], 'm'), ReadField(f[2], 's'))
      case (Some(h), Some(m), Some(s)) => Some(h * 3600 + m * 60 + s)
      case _ => None
    else None
  }

  lemma ReadFieldOf(a: string, unit: char)
    requires IsDigits(a) && !IsDigit(unit) && unit != ' '
    ensures ReadField(a + [unit], unit) == Some(DigitsValue(a))
    ensures ' ' !in a + [unit]
  {
    var f := a + [unit];
    assert f[..|f| - 1] == a;
    assert forall k :: 0 <= k < |f| ==> f[k] != ' ';
  }

  /** The three-unit rendering is the space-join of its three fields. */
  lemma ThreeUnitFields(a: string, b: string, c: string)
    ensures a + "h " + b + "m " + c + "s" == Join([a + "h", b + "m", c + "s"], ' ')
  {
    var fh, fm, fs := a + "h", b + "m", c + "s";
    assert [fh, fm, fs][1..] == [fm, fs] && [fm, fs][1..] == [fs];
    assert Join([fm, fs], ' ') == fm + [' '] + fs;
    assert Join([fh, fm, fs], ' ') == fh + [' '] + Join([fm, fs], ' ');
  }

  lemma ReadThreeUnits(a: string, b: string, c: string)
    requires IsDigits(a) && IsDigits(b) && IsDigits(c)
    ensures ReadDuration(a + "h " + b + "m " + c + "s")
      == Some(DigitsValue(a) * 3600 + DigitsValue(b) * 60 + DigitsValue(c))
  {
    ReadFieldOf(a, 'h');
    ReadFieldOf(b, 'm');
    ReadFieldOf(c, 's');
    ThreeUnitFields(a, b, c);
    SplitJoin([a + "h", b + "m", c + "s"], ' ');
  }

  lemma ReadTwoUnits(b: string, c: string)
    requires IsDigits(b) && IsDigits(c)
    ensures ReadDuration(b + "m " + c + "s") == Some(DigitsValue(b) * 60 + DigitsValue(c))
  {
    ReadFieldOf(b, 'm');
    ReadFieldOf(c, 's');
    assert [b + "m", c + "s"][1..] == [c + "s"];
    assert Join([b + "m", c + "s"], ' ') == b + "m" + [' '] + (c + "s");
    assert b + "m " + c + "s" == b + "m" + [' '] + (c + "s");
    SplitJoin([b + "m", c + "s"], ' ');
  }

  lemma ReadOneUnit(c: string)
    requires IsDigits(c)
    ensures ReadDuration(c + "s") == Some(DigitsValue(c))
  {
    ReadFieldOf(c, 's');
    SplitJoin([c + "s"], ' ');
  }

  /** The rendering of a non-negative duration names that duration: no two
      such durations print alike. */
  lemma {:induction false} FormatReadsBack(n: int)
    requires n >= 0
    ensures ReadDuration(FormatSeconds(Whole(n))) == Some(n)
  {
    var (h, m, s) := Components(n);
    ComponentsRecompose(n);
    assert h >= 0;
    DigitsValueOfNatToString(h);
    DigitsValueOfNatToString(m);
    DigitsValueOfNatToString(s);
    if h != 0 {
      ReadThreeUnits(NatToString(h), NatToString(m), NatToString(s));
    } else if m != 0 {
      ReadTwoUnits(NatToString(m), NatToString(s));
    } else {
      ReadOneUnit(NatToString(s));
    }
  }
}
