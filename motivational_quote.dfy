/** The quote of the day: one of ten quotes, chosen by the day of the year, and the
    checkbox that shows or hides it, remembered in local storage. */
module MotivationalQuote {
  import opened Dates
  import opened Habits

  datatype Quote = Quote(text: string, author: string)

  const Quotes: seq<Quote> := [
    Quote("The secret of getting ahead is getting started.", "Mark Twain"),
    Quote("Don't watch the clock; do what it does. Keep going.", "Sam Levenson"),
    Quote("Success is the sum of small efforts, repeated day in and day out.", "Robert Collier"),
    Quote("It always seems impossible until it's done.", "Nelson Mandela"),
    Quote("The future depends on what you do today.", "Mahatma Gandhi"),
    Quote("Small habits make a big difference.", "James Clear"),
    Quote("Push yourself, because no one else is going to do it for you.", "Unknown"),
    Quote("Great things never come from comfort zones.", "Roy T. Bennett"),
    Quote("Dream it. Wish it. Do it.", "Unknown"),
    Quote("Stay positive, work hard, make it happen.", "Unknown")]

  const MsPerDay: nat := 86400000

  /** January 1 of the year of day `d`. */
  function JanuaryFirst(d: Day): Day {
    DaysBeforeYear(YearOf(MonthContaining(d)))
  }

  /** A day lies in the year that starts on its `JanuaryFirst`, which lasts 365 or 366 days. */
  lemma WithinYear(d: Day)
    ensures JanuaryFirst(d) <= d < JanuaryFirst(d) + 366
  {
    var am := MonthContaining(d);
    var y := YearOf(am);
    assert FirstOfMonth(y * 12) == DaysBeforeYear(y) by {
      assert YearOf(y * 12) == y && MonthOf(y * 12) == 0;
    }
    assert FirstOfMonth((y + 1) * 12) == DaysBeforeYear(y + 1) by {
      assert YearOf((y + 1) * 12) == y + 1 && MonthOf((y + 1) * 12) == 0;
    }
    assert y * 12 <= am < (y + 1) * 12;
    FirstOfMonthGrows(y * 12, am);
    FirstOfMonthGrows(am + 1, (y + 1) * 12);
    NextMonthStart(am);
    YearLength(y);
  }

  /** Whole days between two instants `a` and `b` milliseconds after day 0, `b` on a
      midnight and `a` earlier in its day than a full day. */
  lemma WholeDays(t: Day, ms: nat, s: Day)
    requires ms < MsPerDay
    ensures ((t * MsPerDay + ms) - s * MsPerDay) / MsPerDay == t - s
  {
    assert (t * MsPerDay + ms) - s * MsPerDay == (t - s) * MsPerDay + ms;
  }

  /** `dayOfYear`: the whole days from `new Date(year, 0, 0)` (midnight of December 31 of
      the year before, day 0 of January normalised) to the instant `ms` milliseconds into
      `today`. January 1 is day 1 and the last day of the year is day 365 or 366, whatever
      the time of day. */
  function DayOfYear(today: Day, ms: nat): (n: int)
    requires ms < MsPerDay
    ensures n == today - JanuaryFirst(today) + 1
    ensures 1 <= n <= 366
  {
    var start := JanuaryFirst(today) - 1;
    WholeDays(today, ms, start);
    WithinYear(today);
    ((today * MsPerDay + ms) - start * MsPerDay) / MsPerDay
  }

  /** `dayOfYear % QUOTES.length`: a valid index, since the day of the year is positive. */
  function QuoteIndex(today: Day, ms: nat): (i: nat)
    requires ms < MsPerDay
    ensures i < |Quotes|
  {
    DayOfYear(today, ms) % |Quotes|
  }

  /** `getQuoteOfTheDay`. */
  function QuoteOfTheDay(today: Day, ms: nat): Quote
    requires ms < MsPerDay
  {
    Quotes[QuoteIndex(today, ms)]
  }

  /** The quote does not change during a day. */
  lemma SameDaySameQuote(today: Day, ms1: nat, ms2: nat)
    requires ms1 < MsPerDay && ms2 < MsPerDay
    ensures QuoteIndex(today, ms1) == QuoteIndex(today, ms2)
  {
    var n1, n2 := DayOfYear(today, ms1), DayOfYear(today, ms2);
    assert n1 == n2;
  }

  /** Within a year, the quote comes back every ten days. */
  lemma TenDaysSameQuote(today: Day, ms1: nat, ms2: nat)
    requires ms1 < MsPerDay && ms2 < MsPerDay
    requires JanuaryFirst(today + 10) == JanuaryFirst(today)
    ensures QuoteIndex(today + 10, ms2) == QuoteIndex(today, ms1)
  {
    var n1, n2 := DayOfYear(today, ms1), DayOfYear(today + 10, ms2);
    assert n2 == n1 + 10;
    TenApart(n1);
  }

  lemma TenApart(n: int)
    ensures (n + 10) % 10 == n % 10
  {
  }

  /** January 1 is day 1, so the year opens on the second quote; the first quote comes on
      days 10, 20, and so on. */
  lemma NewYearQuote(today: Day, ms: nat)
    requires ms < MsPerDay && today == JanuaryFirst(today)
    ensures QuoteIndex(today, ms) == 1
  {
    var n := DayOfYear(today, ms);
    assert n == 1;
  }

  // ----- The show toggle -----

  const QuoteToggleKey: string := "showMotivationalQuote"

  /** `b.toString()`. */
  function BoolString(b: bool): string {
    if b then "true" else "false"
  }

  /** `saved === 'true'`: only the exact string "true" reads as shown. */
  function ReadShow(saved: string): (show: bool)
    ensures show <==> saved == "true"
  {
    saved == "true"
  }

  /** What is written is read back as it was. */
  lemma BoolStringRoundTrip(b: bool)
    ensures ReadShow(BoolString(b)) == b
  {
  }

  class QuoteToggle {
    var show: bool
    /** Local storage. */
    var storage: map<string, string>

    /** The stored flag is the shown state. */
    predicate Valid()
      reads this
    {
      QuoteToggleKey in storage && storage[QuoteToggleKey] == BoolString(show)
    }

    /** Mounting: shown unless a saved value other than "true" is found under the key,
        and the state written back under the key; nothing else in storage changes. */
    constructor (initial: map<string, string>)
      ensures show == (QuoteToggleKey !in initial || ReadShow(initial[QuoteToggleKey]))
      ensures storage == initial[QuoteToggleKey := BoolString(show)]
      ensures Valid()
    {
      var s := true;
      if QuoteToggleKey in initial {
        s := ReadShow(initial[QuoteToggleKey]);
      }
      show := s;
      storage := initial[QuoteToggleKey := BoolString(s)];
    }

    /** A click on the checkbox: the state flips and is written back. */
    method Flip()
      modifies this
      ensures show == !old(show)
      ensures storage == old(storage)[QuoteToggleKey := BoolString(show)]
      ensures Valid()
    {
      show := !show;
      storage := storage[QuoteToggleKey := BoolString(show)];
    }
  }

  /** Reloading after any number of clicks shows what was last shown. */
  method ReloadKeepsChoice(t: QuoteToggle) returns (reloaded: QuoteToggle)
    requires t.Valid()
    ensures reloaded.show == t.show && reloaded.storage == t.storage
  {
    BoolStringRoundTrip(t.show);
    reloaded := new QuoteToggle(t.storage);
    assert t.storage[QuoteToggleKey := BoolString(t.show)] == t.storage;
  }

  /** Two clicks restore the state and the stored flag. */
  method FlipTwice(t: QuoteToggle)
    requires t.Valid()
    modifies t
    ensures t.show == old(t.show) && t.storage == old(t.storage)
  {
    t.Flip();
    t.Flip();
    assert t.storage == old(t.storage)[QuoteToggleKey := BoolString(old(t.show))];
  }
}
