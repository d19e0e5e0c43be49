/** The two string forms of calendar values the calendar stores: the ISO 8601 calendar date
    in extended format, `yyyy-MM-dd` (section 5.2.1.1 of ISO 8601:2004), which is what
    `format(day, 'yyyy-MM-dd')` and the date part of `toISOString()` give, and the time of
    day `HH:mm` of a time input. */
module DateFormats {
  import opened Dates
  import opened Text
  import opened Habits

  /** The `yyyy-MM-dd` form of a civil date of year 0 or later: the year padded to four
      digits, the month (counted from 1) and the day to two. */
  function CivilString(c: Civil): (s: string)
    requires c.year >= 0 && 0 <= c.month < 12 && 1 <= c.day <= 31
    ensures c.year <= 9999 ==> |s| == 10 && s[4] == '-' && s[7] == '-'
  {
    assert Pow10(4) == 10000 && Pow10(2) == 100;
    ZeroPadded(c.year, 4) + "-" + ZeroPadded(c.month + 1, 2) + "-" + ZeroPadded(c.day, 2)
  }

  /** The `yyyy-MM-dd` form of a day of year 0 or later. */
  function IsoDate(d: Day): (s: string)
    requires CivilOf(d).year >= 0
    ensures CivilOf(d).year <= 9999 ==> |s| == 10 && s[4] == '-' && s[7] == '-'
  {
    CivilString(CivilOf(d))
  }

  /** Reads a `yyyy-MM-dd` string back as the day it names, or `None` when it is not one. */
  function ParseIsoDate(s: string): (d: Option<Day>)
    ensures d.Some? ==> |s| == 10
  {
    var parts := Split(s, '-');
    var d := ParseIsoParts(parts);
    if d.Some? then JoinedLength(s, parts); d else None
  }

  /** The day that the parts of a `yyyy-MM-dd` string name: four digits of year, two of
      month counted from 1 and two of day, making a valid date. */
  function ParseIsoParts(parts: seq<string>): (d: Option<Day>)
    ensures d.Some? ==> |parts| == 3 && |parts[0]| == 4 && |parts[1]| == 2 && |parts[2]| == 2
  {
    if |parts| == 3 && |parts[0]| == 4 && |parts[1]| == 2 && |parts[2]| == 2
       && AllDigits(parts[0]) && AllDigits(parts[1]) && AllDigits(parts[2])
    then
      var c := Civil(ParseDigits(parts[0]), ParseDigits(parts[1]) - 1, ParseDigits(parts[2]));
      if c.Valid() then Some(c.ToDay()) else None
    else None
  }

  /** A string that splits on `-` into parts of 4, 2 and 2 characters has 10 characters. */
  lemma JoinedLength(s: string, parts: seq<string>)
    requires parts == Split(s, '-') && |parts| == 3
    requires |parts[0]| == 4 && |parts[1]| == 2 && |parts[2]| == 2
    ensures |s| == 10
  {
    var i := IndexOf(s, '-');
    var rest := s[i + 1..];
    var j := IndexOf(rest, '-');
    assert parts == [s[..i]] + Split(rest, '-');
    assert Split(rest, '-') == [rest[..j]] + Split(rest[j + 1..], '-');
    var tail := Split(rest[j + 1..], '-');
    assert |tail| == 1;
    assert tail == [rest[j + 1..]];
  }

  /** Every day from year 0 to 9999 survives being written and read back. */
  lemma IsoDateRoundTrip(d: Day)
    requires 0 <= CivilOf(d).year <= 9999
    ensures ParseIsoDate(IsoDate(d)) == Some(d)
  {
    var c := CivilOf(d);
    var y, m, dd := ZeroPadded(c.year, 4), ZeroPadded(c.month + 1, 2), ZeroPadded(c.day, 2);
    assert Pow10(4) == 10000 && Pow10(2) == 100;
    SplitThree(y, m, dd);
    CivilPartsRoundTrip(c);
  }

  /** The padded fields of a valid date of years 0 to 9999 read back as that date. */
  lemma CivilPartsRoundTrip(c: Civil)
    requires c.Valid() && 0 <= c.year <= 9999
    ensures ParseIsoParts([ZeroPadded(c.year, 4), ZeroPadded(c.month + 1, 2), ZeroPadded(c.day, 2)])
            == Some(c.ToDay())
  {
    assert Pow10(4) == 10000 && Pow10(2) == 100;
    assert Civil(c.year, c.month, c.day) == c;
  }

  /** Three digit strings joined by dashes split back into themselves. */
  lemma SplitThree(y: string, m: string, dd: string)
    requires AllDigits(y) && AllDigits(m) && AllDigits(dd)
    ensures Split(y + "-" + m + "-" + dd, '-') == [y, m, dd]
  {
    DigitsHaveNoDash(y);
    DigitsHaveNoDash(m);
    DigitsHaveNoDash(dd);
    assert y + "-" + m + "-" + dd == y + ['-'] + (m + ['-'] + dd);
    SplitCons(y, m + ['-'] + dd, '-');
    SplitTwo(m, dd, '-');
  }

  /** Distinct days from year 0 to 9999 have distinct strings. */
  lemma IsoDateInjective(d1: Day, d2: Day)
    requires 0 <= CivilOf(d1).year <= 9999 && 0 <= CivilOf(d2).year <= 9999
    requires IsoDate(d1) == IsoDate(d2)
    ensures d1 == d2
  {
    IsoDateRoundTrip(d1);
    IsoDateRoundTrip(d2);
  }

  lemma DigitsHaveNoDash(s: string)
    requires AllDigits(s)
    ensures '-' !in s && ':' !in s
  {
  }

  /** `HH:mm` for a time of day given in minutes since midnight. */
  function TimeString(minutes: nat): (s: string)
    requires minutes < 1440
    ensures |s| == 5 && s[2] == ':'
  {
    assert Pow10(2) == 100;
    ZeroPadded(minutes / 60, 2) + ":" + ZeroPadded(minutes % 60, 2)
  }

  /** Reads `HH:mm` back as minutes since midnight, or `None` when it is not a time. */
  function ParseTime(s: string): (t: Option<nat>)
    ensures t.Some? ==> t.value < 1440
  {
    var parts := Split(s, ':');
    if |parts| == 2 && |parts[0]| == 2 && |parts[1]| == 2
       && AllDigits(parts[0]) && AllDigits(parts[1])
       && ParseDigits(parts[0]) < 24 && ParseDigits(parts[1]) < 60
    then Some(ParseDigits(parts[0]) * 60 + ParseDigits(parts[1]))
    else None
  }

  /** Every time of day survives being written and read back. */
  lemma TimeRoundTrip(minutes: nat)
    requires minutes < 1440
    ensures ParseTime(TimeString(minutes)) == Some(minutes)
  {
    var h, m := ZeroPadded(minutes / 60, 2), ZeroPadded(minutes % 60, 2);
    assert Pow10(2) == 100;
    DigitsHaveNoDash(h);
    DigitsHaveNoDash(m);
    assert TimeString(minutes) == h + [':'] + m;
    SplitTwo(h, m, ':');
  }
}
