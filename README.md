# Habit tracker analytics, modelled in Dafny

This project models the computational core of a habit-tracking web application. A habit
has a name, the weekday names it targets, a start date and the dates on which it was
completed. The model covers:

- the habit card: a week view, the day status, the weekly percentage and the
  week/month/year completion series;
- the analytics page: the date window, per-habit rows, the pooled completion rate, the
  last-seven-days series, the top ten, the weekday statistics, weekly performance and
  the best performer;
- the reports page: per-habit completion rates, the target-days label and the average;
- the full-screen calendar: the month label and its navigation, the day colour, the grid
  of whole weeks, the add-event flow and the event ordering;
- the heatmap: the cell colour, the completion value, and the year and month layouts;
- the day-completion popover;
- the charts: best days, habit comparison, trend and sparkline;
- the add-habit form, the pre-made challenges, the testimonial shuffle, the quote of the
  day with its toggle, the time picker and the notification preferences.

Conventions:

- A calendar day is an `int`, counted in days from 1970-01-01 (a Thursday).
- A month is an absolute index `year * 12 + month`, as JavaScript's `Date` normalises
  months.
- A JavaScript number is a `real`. `Math.round`, `toFixed(2)` and `Math.ceil` are written
  out.
- Where the code can divide by zero, the result is `NaN` in a `Number` datatype.
- Strings are sequences of characters. A `yyyy-MM-dd` date string is its day; the
  `DateFormats` module proves the format and the parser inverse to each other.
- The current time, `Math.random()`, the backend calls (`addHabit`, `addEvent`) and the
  browser's notification API are parameters of the operations that use them.
- Components whose state changes step by step are classes with the state as fields:
  the habit card's week, the calendar's month and event dialog, the form, the quote
  toggle and the notification provider.
- Loops of the source are methods with loop invariants, proved against a function of the
  inputs (`CountHabit`, `BestPerformer`, `DayStats`, `GetCompletionData`, `GetLabels`,
  `FormatData`, `ShuffleInPlace`, `StartChallenge`, `TotalPossible`).

One file per component (`habit_card.dfy`, `analytics_page.dfy`, ...). The shared modules are:

- `Habits`: the habit record, the day predicates, filtering and counting;
- `Dates`: the proleptic Gregorian calendar, weekdays and months;
- `DateFormats`: `yyyy-MM-dd` and `HH:mm`;
- `Text`: digits, padding and splitting;
- `Numeric`: rounding and percentages;
- `Sorting`: a stable descending sort, top-k and an in-place insertion sort;
- `Toasts`: toasts and call outcomes.

## Model

| member | source | states |
|---|---|---|
| Habits.DaysThrough | src/pages/ReportsPage.tsx:22 | the number of days from the start through today: the last day is `lo + n - 1`, none when today is before the start |
| Habits.DayRange | src/pages/AnalyticsPage.tsx:60 | `eachDayOfInterval`: `n` consecutive days from `lo` |
| Habits.DayRangeMembers | src/pages/AnalyticsPage.tsx:60 | a day is in the interval exactly when it lies between its ends |
| Habits.FilterMembers | src/components/habits/HabitCard.tsx:101-105 | `filter` keeps exactly the days that satisfy the test |
| Habits.FilterWeaker | src/components/habits/HabitCard.tsx:101-109 | a stronger test keeps no more days than a weaker one |
| Habits.CountWhere | src/pages/AnalyticsPage.tsx:124-131 | `habits.filter(...).length` is at most the number of habits |
| Habits.CountWeaker | src/pages/AnalyticsPage.tsx:124-131 | a stronger test counts no more habits than a weaker one |
| Habits.CountPositive | src/components/ui/fullscreen-calendar.tsx:81-82 | a habit that passes the test makes the count positive |
| Dates.Weekday | src/components/habits/HabitCard.tsx:71-74 | `getDay()` of a day is one of the seven weekdays |
| Dates.WeekdayNamesDistinct | src/components/habits/HabitCard.tsx:72 | the seven long weekday names are all different |
| Dates.WeekdayNameIff | src/components/habits/HabitCard.tsx:72 | two days have the same weekday name exactly when they have the same weekday |
| Dates.WeekdaySucc | src/components/analytics/SparklineChart.tsx:21 | the day after a day has the next weekday, Saturday wrapping to Sunday |
| Dates.StartOfWeek | src/components/habits/HabitCard.tsx:38 | `startOfWeek`: the last day on or before `d` with the given weekday |
| Dates.EndOfWeek | src/components/ui/fullscreen-calendar.tsx:102 | `endOfWeek`: the first day on or after `d` that ends a week |
| Dates.DaysInMonthOfYear | src/components/calendar/HabitHeatmap.tsx:24-26 | a month has 28 to 31 days, 29 exactly for February of a leap year |
| Dates.NextMonthStart | src/components/calendar/HabitHeatmap.tsx:24-26 | the next month starts as many days later as the month has |
| Dates.YearLength | src/components/MotivationalQuote.tsx:18-20 | a year has 366 days when it is a leap year and 365 otherwise |
| Dates.FirstOfMonthGrows | src/components/calendar/HabitHeatmap.tsx:32-34 | later months start at least 28 days per month later |
| Dates.DayInsideMonth | src/components/calendar/HabitHeatmap.tsx:133 | `new Date(y, m, d)` for a valid date lies in month `m` of year `y` |
| Dates.MonthOfDayUnique | src/components/habits/HabitCard.tsx:162-166 | a day lies in one month only |
| Dates.ToDayInjective | src/components/ui/fullscreen-calendar.tsx:80 | different valid dates are different days |
| Dates.EpochAnchor | src/pages/AnalyticsPage.tsx:52 | `new Date(0)` is 1970-01-01, a Thursday |
| Dates.WeekdayShortNamesDistinct | src/components/analytics/TrendChart.tsx:25 | the seven short weekday names are all different |
| Dates.MonthShortNamesShape | src/components/analytics/TrendChart.tsx:45 | twelve short month names, three letters each, all different |
| Dates.MonthContaining | src/components/habits/HabitCard.tsx:162-163 | `getFullYear()`/`getMonth()`: the month a day lies in |
| Dates.MonthContainingIs | src/components/habits/HabitCard.tsx:162-163 | that month is the only one containing the day |
| Dates.CivilOf | src/components/habits/HabitCard.tsx:162-166 | the valid year, month and day of month whose day is `d` |
| Dates.CivilOfToDay | src/components/habits/HabitCard.tsx:134 | reading back the date of `new Date(y, m, d)` gives `y`, `m`, `d` |
| Dates.DayOfMonth | src/components/analytics/TrendChart.tsx:36 | `getDate()` lies between 1 and the month's length, and counts from the month's first |
| DateFormats.CivilString | src/components/ui/fullscreen-calendar.tsx:80 | `yyyy-MM-dd` of a date in years 0 to 9999 is ten characters with dashes at 4 and 7 |
| DateFormats.IsoDate | src/components/ui/fullscreen-calendar.tsx:80 | `format(day, 'yyyy-MM-dd')` has that shape |
| DateFormats.ParseIsoDate | src/components/ui/fullscreen-calendar.tsx:394 | only a ten-character string parses as a date |
| DateFormats.IsoDateRoundTrip | src/components/ui/fullscreen-calendar.tsx:394 | parsing the formatted date gives the day back |
| DateFormats.CivilPartsRoundTrip | src/components/ui/fullscreen-calendar.tsx:394 | the three padded parts of a date parse back to its day |
| DateFormats.IsoDateInjective | src/components/ui/fullscreen-calendar.tsx:283 | two days with the same date string are the same day |
| DateFormats.TimeString | src/contexts/NotificationContext.tsx:8 | `HH:mm` is five characters with a colon in the middle |
| DateFormats.ParseTime | src/components/ui/fullscreen-calendar.tsx:394 | a parsed time is a minute of the day |
| DateFormats.TimeRoundTrip | src/components/ui/time-picker.tsx:14-22 | parsing a formatted time gives the minute back |
| Text.DecimalString | src/components/analytics/TrendChart.tsx:63 | `toString()` of a natural number is one or more digits |
| Text.DecimalStringRoundTrip | src/components/analytics/TrendChart.tsx:63 | the digits read back as the number |
| Text.PadStart | src/components/ui/time-picker.tsx:11 | `padStart` reaches the width, and keeps a string of digits a string of digits |
| Text.ZeroPadded | src/components/ui/time-picker.tsx:11 | `n.toString().padStart(w, '0')` is digits, `w` of them for `n < 10^w`, and reads back as `n` |
| Text.ZeroPaddedInjective | src/components/ui/time-picker.tsx:11-12 | different numbers pad to different strings |
| Text.Split | src/components/ui/time-picker.tsx:14 | `split` gives at least one part, none holding the separator |
| Text.SplitTwo | src/components/ui/time-picker.tsx:14 | two parts joined by the separator split back into those parts |
| Text.SplitCons | src/components/dashboard/PreMadeChallenges.tsx:89 | the first part is everything before the first separator |
| Numeric.Round | src/pages/ReportsPage.tsx:28 | `Math.round(x)` is within one half of `x` |
| Numeric.RoundMonotone | src/pages/ReportsPage.tsx:41 | rounding keeps order |
| Numeric.RoundWithin | src/pages/ReportsPage.tsx:41 | rounding a value between two integers stays between them |
| Numeric.RoundHundredths | src/components/analytics/TrendChart.tsx:88 | `Math.round(x * 100) / 100` is within half a hundredth of `x` |
| Numeric.ToFixed2 | src/pages/AnalyticsPage.tsx:106 | `Number(x.toFixed(2))` is within half a hundredth of `x` and keeps its sign |
| Numeric.ToFixed2Within | src/pages/AnalyticsPage.tsx:106 | a value between two integers stays between them |
| Numeric.ToFixed2Monotone | src/components/analytics/HabitComparisonChart.tsx:43 | `toFixed(2)` keeps order |
| Numeric.Ratio100 | src/pages/AnalyticsPage.tsx:235-237 | `c / t * 100` lies in [0, 100] for `c <= t`, is 0 exactly for `c = 0`, and is 100 for `c = t` |
| Numeric.Percent | src/components/habits/HabitCard.tsx:110 | the rounded percentage lies in [0, 100] for `c <= t`, is 0 for none and 100 for all |
| Numeric.PercentMonotone | src/components/habits/HabitCard.tsx:110 | more completions never give a lower percentage |
| Numeric.Percent2 | src/pages/AnalyticsPage.tsx:105-107 | the two-decimal percentage lies in [0, 100] for `c <= t` and is 0 for none |
| Sorting.InsertDesc | src/pages/AnalyticsPage.tsx:138 | inserting keeps the order by descending key and adds exactly the element |
| Sorting.SortDesc | src/pages/AnalyticsPage.tsx:137-138 | `sort((a, b) => key(b) - key(a))`: a permutation, sorted by descending key |
| Sorting.WithKey | src/pages/AnalyticsPage.tsx:137-138 | the elements with one key, in input order, each with that key |
| Sorting.InsertDescStable | src/pages/AnalyticsPage.tsx:137-138 | inserting puts the element ahead of every element with its key and leaves the rest of each key's order alone |
| Sorting.SortDescStable | src/pages/AnalyticsPage.tsx:137-139 | the sort is stable: the elements of each key come out in their input order, so ties are cut at the top ten in input order |
| Sorting.TakeSorted | src/pages/AnalyticsPage.tsx:139 | a prefix of a sorted list is sorted |
| Sorting.TopK | src/pages/AnalyticsPage.tsx:137-139 | at most `k` elements of the input, sorted, all of them when there are at most `k`, and none left out ranks above one kept |
| Sorting.TakeKeepsTop | src/pages/AnalyticsPage.tsx:139 | what `slice(0, k)` drops ranks no higher than what it keeps |
| Sorting.InsertionSort | src/components/ui/fullscreen-calendar.tsx:392-397 | the array, sorted in place by the key, is a permutation of the original |
| HabitCard.GetDateStatus | src/components/habits/HabitCard.tsx:85-90 | future after today; otherwise completed, else missed on a target day, else inactive, each exactly in its case |
| HabitCard.CompletedBeatsTarget | src/components/habits/HabitCard.tsx:85-90 | a completed non-target day still shows as completed |
| HabitCard.HandleToggleDay | src/components/habits/HabitCard.tsx:57-60 | a day is toggled exactly when it is not after today |
| HabitCard.WeekView.WeekDates | src/components/habits/HabitCard.tsx:43 | seven consecutive days from the week start |
| HabitCard.WeekView.constructor | src/components/habits/HabitCard.tsx:38 | the week starts on the Monday of today's week, and today is shown |
| HabitCard.WeekView.PreviousWeek | src/components/habits/HabitCard.tsx:45-47 | the week start moves seven days back and stays a Monday |
| HabitCard.WeekView.NextWeek | src/components/habits/HabitCard.tsx:49-51 | the week start moves seven days on and stays a Monday |
| HabitCard.WeekView.GoToCurrentWeek | src/components/habits/HabitCard.tsx:53-55 | back to the week holding today |
| HabitCard.WeekNavigationRoundTrip | src/components/habits/HabitCard.tsx:45-51 | a step back and a step forward return to the same week |
| HabitCard.EligibleTotal | src/components/habits/HabitCard.tsx:101-105 | the eligible days (target day, not future, on or after the start) are among the window's days |
| HabitCard.EligibleDone | src/components/habits/HabitCard.tsx:109 | the completed eligible days are among the eligible ones |
| HabitCard.RateOf | src/components/habits/HabitCard.tsx:107-110 | 0 with no eligible day or none done, 100 with all done, otherwise in [0, 100] |
| HabitCard.WindowRate | src/components/habits/HabitCard.tsx:100-111 | the completion rate of a window lies in [0, 100] |
| HabitCard.TallySnoc | src/components/habits/HabitCard.tsx:101-109 | one more day adds one to the counts exactly when it is eligible (and completed) |
| HabitCard.NoEligibleDayIsZero | src/components/habits/HabitCard.tsx:107 | without an eligible day the rate is 0 |
| HabitCard.AllEligibleDoneIsHundred | src/components/habits/HabitCard.tsx:109-110 | with every eligible day completed the rate is 100 |
| HabitCard.NoneDoneIsZero | src/components/habits/HabitCard.tsx:109-110 | with no eligible day completed the rate is 0 |
| HabitCard.CompletingRaisesRate | src/components/habits/HabitCard.tsx:100-111 | recording a completion never lowers the rate |
| HabitCard.CompletionPercentage | src/components/habits/HabitCard.tsx:100-111 | the displayed week's percentage lies in [0, 100] |
| HabitCard.FutureWeekIsZero | src/components/habits/HabitCard.tsx:101-107 | a week entirely after today shows 0 |
| HabitCard.WeekPoint | src/components/habits/HabitCard.tsx:140-144 | a day's point is 0 or 100, and 0 off target or before the start |
| HabitCard.WeekPointIsOneDayRate | src/components/habits/HabitCard.tsx:140-158 | a day's point is the rate of a one-day window |
| HabitCard.MonthDays | src/components/habits/HabitCard.tsx:164-166 | the days of a month, as many as the month has |
| HabitCard.CountWeekBucket | src/components/habits/HabitCard.tsx:145-158 | the week loop counts the eligible and the completed eligible days of seven days |
| HabitCard.RangeStep | src/components/habits/HabitCard.tsx:147-157 | each step of the day loop adds that day's contribution |
| HabitCard.CountMonthBucket | src/components/habits/HabitCard.tsx:159-173 | the month loop counts the eligible and the completed eligible days of the month |
| HabitCard.SkippedDaysCount | src/components/habits/HabitCard.tsx:164-166 | days after today add nothing, so leaving the loop early changes no count |
| HabitCard.WeekCompletionData | src/components/habits/HabitCard.tsx:120-144 | seven points, one per day of the last seven |
| HabitCard.MonthCompletionData | src/components/habits/HabitCard.tsx:126-158 | four points, the rates of the four seven-day windows from 27 days back |
| HabitCard.YearCompletionData | src/components/habits/HabitCard.tsx:132-173 | twelve points, the rates of the last twelve months |
| HabitCard.GetCompletionData | src/components/habits/HabitCard.tsx:117-177 | 7, 4 or 12 points by range, each in [0, 100] and equal to its window's rate |
| HabitCard.YearTabEndsWithThisMonth | src/components/habits/HabitCard.tsx:132-137 | the last month of the year series holds today |
| HabitCard.DaysSinceStart | src/components/habits/HabitCard.tsx:114 | `differenceInDays(now, start)`: the days since the start, counted toward zero before it |
| HabitCard.CeilWeeks | src/components/habits/HabitCard.tsx:462 | `Math.ceil(n / 7)`: the least `w` with `7w >= n` |
| HabitCard.FooterTargets | src/components/habits/HabitCard.tsx:462 | "c of t targets": the completions and the target days per week times the started weeks |
| HabitCard.FooterCountsStartedWeeks | src/components/habits/HabitCard.tsx:462 | in the first week after the start the footer counts one week of targets |
| AnalyticsPage.WindowStart | src/pages/AnalyticsPage.tsx:33-56 | the window starts before today, or at day 0 for all time |
| AnalyticsPage.WindowDays | src/pages/AnalyticsPage.tsx:33-63 | 8, 31, 91 or 366 days ending today, or every day since 1970-01-01 |
| AnalyticsPage.EverySeventh | src/pages/AnalyticsPage.tsx:78 | the days at indexes divisible by 7, in order |
| AnalyticsPage.EffectiveDays | src/pages/AnalyticsPage.tsx:77-79 | every day of the window except for all time |
| AnalyticsPage.AllSamplesThursdays | src/pages/AnalyticsPage.tsx:77-82 | for all time the sampled days are exactly the days divisible by 7 up to today, all Thursdays |
| AnalyticsPage.Possible | src/pages/AnalyticsPage.tsx:91-98 | the target days among the window's days |
| AnalyticsPage.Completions | src/pages/AnalyticsPage.tsx:91-98 | the completed target days, at most the possible ones |
| AnalyticsPage.CountHabit | src/pages/AnalyticsPage.tsx:85-99 | the loop counts exactly the possible and completed days |
| AnalyticsPage.CountStep | src/pages/AnalyticsPage.tsx:91-98 | each day adds one when it is a target day (and completed) |
| AnalyticsPage.Row | src/pages/AnalyticsPage.tsx:101-108 | a habit's row: its name, completions at most possible, rate in [0, 100] |
| AnalyticsPage.Rows | src/pages/AnalyticsPage.tsx:85-109 | rows with at least one possible day, each rate in [0, 100] |
| AnalyticsPage.HabitCompletions | src/pages/AnalyticsPage.tsx:85-109 | the loop builds exactly those rows |
| AnalyticsPage.RowsAreTheScheduledHabits | src/pages/AnalyticsPage.tsx:109 | a habit has a row exactly when it has a possible day |
| AnalyticsPage.TotalsBounded | src/pages/AnalyticsPage.tsx:112-113 | total completions are at most total possible |
| AnalyticsPage.OverallRate | src/pages/AnalyticsPage.tsx:111-116 | the overall rate lies in [0, 100] and is 0 with nothing possible |
| AnalyticsPage.TotalsSnoc | src/pages/AnalyticsPage.tsx:112-113 | each row adds its counts to the totals |
| AnalyticsPage.DroppedHabitsAddNothing | src/pages/AnalyticsPage.tsx:109-113 | the totals over the kept rows equal the sums over all habits |
| AnalyticsPage.RowsTotalsStep | src/pages/AnalyticsPage.tsx:109-113 | one more habit adds its counts to the totals, kept or not |
| AnalyticsPage.OverallIsPooled | src/pages/AnalyticsPage.tsx:111-116 | the overall rate is the pooled ratio of all completions to all possible days |
| AnalyticsPage.PooledIsNotTheMean | src/pages/AnalyticsPage.tsx:111-116 | rows 1/1 and 0/3 give 25, not the mean 50 of their rates |
| AnalyticsPage.StreakPoint | src/pages/AnalyticsPage.tsx:121-133 | a streak point lies in [0, 100] |
| AnalyticsPage.StreakPointAllDone | src/pages/AnalyticsPage.tsx:124-133 | with every targeting habit done it is 100 |
| AnalyticsPage.StreakData | src/pages/AnalyticsPage.tsx:119-134 | seven points, the last seven days in order, each in [0, 100] |
| AnalyticsPage.WeeklyPoint | src/pages/AnalyticsPage.tsx:178-184 | a weekly point lies in [0, 100], 0 without habits |
| AnalyticsPage.WeeklyData | src/pages/AnalyticsPage.tsx:177-185 | seven points, the last seven days in order, each in [0, 100] |
| AnalyticsPage.StreakDoneIsWeeklyDone | src/pages/AnalyticsPage.tsx:124-127 | habits done and targeted are no more than habits done |
| AnalyticsPage.TopHabits | src/pages/AnalyticsPage.tsx:137-139 | at most ten rows, by rate highest first, and no dropped row ranks above a kept one |
| AnalyticsPage.HabitComparison | src/pages/AnalyticsPage.tsx:137-144 | the top rows' names and rates, in descending order |
| AnalyticsPage.Occurrences | src/pages/AnalyticsPage.tsx:153 | the days of the range with a weekday name |
| AnalyticsPage.CompletionsOnWeekday | src/pages/AnalyticsPage.tsx:157-160 | the completion dates on a weekday, out of all of them |
| AnalyticsPage.Min | src/pages/AnalyticsPage.tsx:162 | `Math.min` is one of its arguments and no larger than either |
| AnalyticsPage.CappedTotal | src/pages/AnalyticsPage.tsx:151-163 | the capped completions are at most habits times occurrences |
| AnalyticsPage.DayStatValue | src/pages/AnalyticsPage.tsx:147-167 | a weekday's value lies in [0, 100] and is 0 when the weekday does not occur |
| AnalyticsPage.DayStats | src/pages/AnalyticsPage.tsx:147-173 | seven entries, Monday to Sunday, short name and value |
| AnalyticsPage.AllRangeRatesOnlyThursday | src/pages/AnalyticsPage.tsx:77-82 | for all time every weekday but Thursday scores 0 |
| AnalyticsPage.PerformanceValue | src/pages/AnalyticsPage.tsx:188-198 | the share in [0, 100], 0 when no habit targets the weekday |
| AnalyticsPage.WeeklyPerformance | src/pages/AnalyticsPage.tsx:187-200 | seven entries, Monday to Sunday, each in [0, 100] |
| AnalyticsPage.AnalyticsData | src/pages/AnalyticsPage.tsx:66-210 | the empty result while loading or without habits, otherwise each field from its definition |
| AnalyticsPage.PerformerOf | src/pages/AnalyticsPage.tsx:224-246 | name, possible and actual completions, and a rate in [0, 100] that is 0 exactly with none done or none possible |
| AnalyticsPage.Performers | src/pages/AnalyticsPage.tsx:219-246 | one performer per habit, in order |
| AnalyticsPage.BestOf | src/pages/AnalyticsPage.tsx:214-253 | no best performer exactly without habits |
| AnalyticsPage.BestPerformer | src/pages/AnalyticsPage.tsx:213-254 | the reduce loop computes that best performer |
| AnalyticsPage.BestIsMaximum | src/pages/AnalyticsPage.tsx:239 | no habit has a higher rate than the best |
| AnalyticsPage.BestIsEarliest | src/pages/AnalyticsPage.tsx:239 | the best is the first habit with the highest rate, since only a strictly higher rate replaces it |
| ReportsPage.SinceStart | src/pages/ReportsPage.tsx:19-25 | the days from the start date through today |
| ReportsPage.PossibleDays | src/pages/ReportsPage.tsx:18-27 | the target days since the start, at most the days since the start |
| ReportsPage.TotalPossible | src/pages/ReportsPage.tsx:18-27 | the day loop counts exactly those days |
| ReportsPage.TargetStep | src/pages/ReportsPage.tsx:22-25 | each day adds one when it is a target day |
| ReportsPage.EveryDayTargeted | src/pages/ReportsPage.tsx:22-25 | targeting all seven days makes every day since the start possible |
| ReportsPage.NoDayTargeted | src/pages/ReportsPage.tsx:22-25 | targeting no weekday leaves nothing possible |
| ReportsPage.GetCompletionRate | src/pages/ReportsPage.tsx:28 | as written: non-negative, 0 with nothing possible, at most 100 only while the completions are at most the possible days |
| ReportsPage.CompletionRateExceeds100 | src/pages/ReportsPage.tsx:28 | a habit completed on a non-target day scores 200 |
| ReportsPage.CompletedTargetDays | src/pages/ReportsPage.tsx:28 | the completed target days since the start, at most the possible ones |
| ReportsPage.CompletionRate | src/pages/ReportsPage.tsx:28 | corrected: in [0, 100], 0 with nothing possible |
| ReportsPage.CompletionRateFull | src/pages/ReportsPage.tsx:28 | with every possible day completed the corrected rate is 100 |
| ReportsPage.CompletionRateOnExample | src/pages/ReportsPage.tsx:28 | the same habit scores 100 under the corrected rate |
| ReportsPage.GetTargetDaysLabel | src/pages/ReportsPage.tsx:32-37 | "Weekdays" exactly for five days holding Monday to Friday, "Weekends" exactly for two holding Saturday and Sunday, "Custom" otherwise |
| ReportsPage.LabelIgnoresOrder | src/pages/ReportsPage.tsx:32-37 | the label depends only on the length and the set of days |
| ReportsPage.SumBounds | src/pages/ReportsPage.tsx:41 | a sum of values in [lo, hi] lies between `lo * n` and `hi * n` |
| ReportsPage.Average | src/pages/ReportsPage.tsx:41 | the average of nothing is 0 |
| ReportsPage.AverageWithin | src/pages/ReportsPage.tsx:41 | the rounded average of values in [lo, hi] lies in [lo, hi] |
| ReportsPage.Rates | src/pages/ReportsPage.tsx:41 | one rate per habit, in order, each the page's `getCompletionRate` |
| ReportsPage.AverageNonNegative | src/pages/ReportsPage.tsx:41 | the rounded mean of non-negative rates is non-negative |
| ReportsPage.TotalCompletionRate | src/pages/ReportsPage.tsx:41 | as written: never negative, 0 without habits, and at most 100 when no habit has more completions than target days |
| ReportsPage.TotalCompletionRateExceeds100 | src/pages/ReportsPage.tsx:28-41 | the habit of the finding alone makes the total 200 |
| ReportsPage.CorrectedRates | src/pages/ReportsPage.tsx:41 | one corrected rate per habit, in order |
| ReportsPage.TotalCompletionRateCorrected | src/pages/ReportsPage.tsx:41 | corrected: the mean of the corrected rates, in [0, 100], 0 without habits |
| ReportsPage.CorrectedTotalFull | src/pages/ReportsPage.tsx:41 | corrected, with every target day so far completed by every habit the total is 100 |
| FullscreenCalendar.GetCellColor | src/components/ui/fullscreen-calendar.tsx:68-73 | the colour is the shade the value falls in |
| FullscreenCalendar.SameColorsAsHeatmap | src/components/ui/fullscreen-calendar.tsx:67-73 | the calendar colours a value as the heatmap does |
| FullscreenCalendar.DayCompletionRatio | src/components/ui/fullscreen-calendar.tsx:75-85 | 0 after today or with no scheduled habit, otherwise the share of scheduled habits done, in [0, 1] |
| FullscreenCalendar.AllScheduledDoneIsDark | src/components/ui/fullscreen-calendar.tsx:75-85 | every scheduled habit done gives ratio 1 and the darkest shade |
| FullscreenCalendar.RatioPositiveIffSomeDone | src/components/ui/fullscreen-calendar.tsx:75-85 | the ratio is positive exactly when some scheduled habit is done |
| FullscreenCalendar.WeeksAround | src/components/ui/fullscreen-calendar.tsx:100-103 | whole weeks from a Sunday, consecutive days, covering the interval |
| FullscreenCalendar.SundayWeek | src/components/ui/fullscreen-calendar.tsx:101-102 | the default week runs Sunday to Saturday |
| FullscreenCalendar.MonthGrid | src/components/ui/fullscreen-calendar.tsx:100-103 | 4 to 6 whole weeks from a Sunday covering the month |
| FullscreenCalendar.GridCoversMonth | src/components/ui/fullscreen-calendar.tsx:100-103 | every day of the month is in the grid |
| FullscreenCalendar.FormatMonth | src/components/ui/fullscreen-calendar.tsx:90 | `MMM-yyyy`: a three-letter month, a dash, the year |
| FullscreenCalendar.MonthIndex | src/components/ui/fullscreen-calendar.tsx:93 | the first month whose short name matches, or 12 for none |
| FullscreenCalendar.ParseMonth | src/components/ui/fullscreen-calendar.tsx:93 | a parsed label names a month of year 1 or later |
| FullscreenCalendar.MonthRoundTrip | src/components/ui/fullscreen-calendar.tsx:90-93 | parsing a formatted month gives it back |
| FullscreenCalendar.FirstDayInItsMonth | src/components/ui/fullscreen-calendar.tsx:93 | the first day of a month lies in that month |
| FullscreenCalendar.StepMonth | src/components/ui/fullscreen-calendar.tsx:105-113 | the label `k` months after the labelled month |
| FullscreenCalendar.EventsOn | src/components/ui/fullscreen-calendar.tsx:283 | exactly the events dated that day |
| FullscreenCalendar.SortKeyOrder | src/components/ui/fullscreen-calendar.tsx:393-397 | the key orders parsed events by date, then by time |
| FullscreenCalendar.SortEvents | src/components/ui/fullscreen-calendar.tsx:392-397 | the events, in place, in key order and a permutation of the original |
| FullscreenCalendar.Calendar.FirstDayCurrentMonth | src/components/ui/fullscreen-calendar.tsx:93 | the first day of the month the label names |
| FullscreenCalendar.Calendar.constructor | src/components/ui/fullscreen-calendar.tsx:88-92 | today's month, dialog closed, empty event dated today |
| FullscreenCalendar.Calendar.PreviousMonth | src/components/ui/fullscreen-calendar.tsx:105-108 | one month back, label and month agreeing |
| FullscreenCalendar.Calendar.NextMonth | src/components/ui/fullscreen-calendar.tsx:110-113 | one month on, label and month agreeing |
| FullscreenCalendar.Calendar.GoToToday | src/components/ui/fullscreen-calendar.tsx:115-117 | back to today's month |
| FullscreenCalendar.Calendar.HandleAddEvent | src/components/ui/fullscreen-calendar.tsx:119-162 | no call without a user or with a missing field, each with its toast; the call carries the form; success resets the form and closes the dialog; failure keeps the form and shows the message or the default |
| FullscreenCalendar.NavigationRoundTrip | src/components/ui/fullscreen-calendar.tsx:105-113 | back then forward returns to the same label |
| HabitHeatmap.Shade | src/components/calendar/HabitHeatmap.tsx:17-22 | one of four shades |
| HabitHeatmap.GetCellColor | src/components/calendar/HabitHeatmap.tsx:17-22 | the colour of the value's shade |
| HabitHeatmap.ShadeMonotone | src/components/calendar/HabitHeatmap.tsx:17-22 | higher values never get a lighter shade |
| HabitHeatmap.ShadesDistinct | src/components/calendar/HabitHeatmap.tsx:17-22 | two values get the same colour exactly when they get the same shade |
| HabitHeatmap.SumValuesBounds | src/components/calendar/HabitHeatmap.tsx:79 | the sum of values in [0, 1] lies between 0 and their count |
| HabitHeatmap.SumValuesAllOnes | src/components/calendar/HabitHeatmap.tsx:79 | the sum of ones is their count |
| HabitHeatmap.GetCompletionValue | src/components/calendar/HabitHeatmap.tsx:74-83 | 0 without a record; for all habits NaN exactly for an empty record; for one habit its stored value, or 0 |
| HabitHeatmap.MeanWithin | src/components/calendar/HabitHeatmap.tsx:77-80 | the mean of values in [0, 1] lies in [0, 1] |
| HabitHeatmap.AllCompletedIsDark | src/components/calendar/HabitHeatmap.tsx:74-83 | all habits done gives the darkest shade |
| HabitHeatmap.EmptyRecordIsDark | src/components/calendar/HabitHeatmap.tsx:17-22 | an empty record gives NaN, which also gets the darkest shade |
| HabitHeatmap.GetDaysInMonth | src/components/calendar/HabitHeatmap.tsx:24-26 | `new Date(y, m + 1, 0).getDate()` is the month's length |
| HabitHeatmap.GetFirstDayOfMonth | src/components/calendar/HabitHeatmap.tsx:28-30 | the weekday of the month's first day |
| HabitHeatmap.GetAllMonths | src/components/calendar/HabitHeatmap.tsx:32-34 | the twelve first days of the year |
| HabitHeatmap.AllMonthsInOrder | src/components/calendar/HabitHeatmap.tsx:32-34 | the twelve first days increase |
| HabitHeatmap.AllMonthsAreFirsts | src/components/calendar/HabitHeatmap.tsx:32-34 | each reads back as day 1 of month `i` of the year |
| HabitHeatmap.RemainingCells | src/components/calendar/HabitHeatmap.tsx:170 | fewer than seven blanks that complete the last week, none when it is already complete |
| HabitHeatmap.DayCellOf | src/components/calendar/HabitHeatmap.tsx:132-136 | day `n`'s cell shows `n` and is dated `n - 1` days after the first |
| HabitHeatmap.Blanks | src/components/calendar/HabitHeatmap.tsx:125-129 | `n` cells |
| HabitHeatmap.DaysRow | src/components/calendar/HabitHeatmap.tsx:132-167 | one cell per day of the month |
| HabitHeatmap.DaysRowCells | src/components/calendar/HabitHeatmap.tsx:132-167 | cell `k` is day `k + 1`'s |
| HabitHeatmap.YearBlockCells | src/components/calendar/HabitHeatmap.tsx:124-175 | a month block is whole weeks, each day after as many blanks as its first's weekday |
| HabitHeatmap.YearMonthBlock | src/components/calendar/HabitHeatmap.tsx:115-175 | the three loops build exactly that block |
| HabitHeatmap.YearViewColumns | src/components/calendar/HabitHeatmap.tsx:183-192 | a day's column is its weekday, headed by its initial |
| HabitHeatmap.YearHeadersAreInitials | src/components/calendar/HabitHeatmap.tsx:183 | S M T W T F S are the weekday initials from Sunday |
| HabitHeatmap.YearView | src/components/calendar/HabitHeatmap.tsx:108-196 | twelve blocks, one per month of the year |
| HabitHeatmap.HeaderRow | src/components/calendar/HabitHeatmap.tsx:215-223 | `n` header cells |
| HabitHeatmap.MonthGridCells | src/components/calendar/HabitHeatmap.tsx:215-270 | headers, then blanks, then the days |
| HabitHeatmap.MonthView | src/components/calendar/HabitHeatmap.tsx:210-276 | as written: Monday-first headers, Sunday-based padding |
| HabitHeatmap.MonthViewMondayFirst | src/components/calendar/HabitHeatmap.tsx:215-228 | corrected: padding counted from Monday |
| HabitHeatmap.MondayOffset | src/components/calendar/HabitHeatmap.tsx:226 | the Monday-based column of a weekday |
| HabitHeatmap.MonthCells | src/components/calendar/HabitHeatmap.tsx:225-270 | the loops build headers, blanks and days |
| HabitHeatmap.MonthViewHeaderIsNextWeekday | src/components/calendar/HabitHeatmap.tsx:215-228 | as written every day sits under the next weekday's header |
| HabitHeatmap.MondayFirstHeaderIsWeekday | src/components/calendar/HabitHeatmap.tsx:215-228 | corrected, every day sits under its own weekday |
| HabitHeatmap.GetTooltipContent | src/components/calendar/HabitHeatmap.tsx:36-72 | "No data available" exactly without a record; otherwise the ones out of all entries, with a mark exactly for a single habit |
| HabitHeatmap.TooltipAgreesOnZeroOne | src/components/calendar/HabitHeatmap.tsx:65-68 | on 0/1 values the tooltip's mark is the popover's |
| HabitHeatmap.TooltipDiffersOnPartialValue | src/components/calendar/HabitHeatmap.tsx:67 | on 0.5 the tooltip says completed, the popover not |
| DayCompletionPopover.Lookup | src/components/calendar/DayCompletionPopover.tsx:48 | `record[id]`: undefined exactly without that key, otherwise a stored value |
| DayCompletionPopover.LookupFinds | src/components/calendar/DayCompletionPopover.tsx:48 | with distinct keys it finds the stored value |
| DayCompletionPopover.CountOnes | src/components/calendar/DayCompletionPopover.tsx:34 | the values equal to 1, out of all |
| DayCompletionPopover.CountOnesAll | src/components/calendar/DayCompletionPopover.tsx:34 | all values counted exactly when all are 1 |
| DayCompletionPopover.CountOnesNone | src/components/calendar/DayCompletionPopover.tsx:34 | none counted exactly when none is 1 |
| DayCompletionPopover.Popover | src/components/calendar/DayCompletionPopover.tsx:24-66 | "no habits tracked" exactly without data or with an empty record; otherwise the ones of the record out of the habits, and a check per habit exactly when its value is 1 |
| DayCompletionPopover.SummaryAgreesWithMarks | src/components/calendar/DayCompletionPopover.tsx:34-48 | with one entry per habit the summary counts the checks |
| DayCompletionPopover.MarksCountOnes | src/components/calendar/DayCompletionPopover.tsx:34-48 | marks that follow the values count the ones |
| DayCompletionPopover.CountIsNotBoundedByHabits | src/components/calendar/DayCompletionPopover.tsx:41 | a record with more entries than habits reads "1 of 0" |
| DayAnalysisChart.MaxValue | src/components/analytics/DayAnalysisChart.tsx:29 | the maximum of the values is one of them and none exceeds it |
| DayAnalysisChart.Find | src/components/analytics/DayAnalysisChart.tsx:34 | the first point with the name, or none |
| DayAnalysisChart.ProcessData | src/components/analytics/DayAnalysisChart.tsx:18-45 | seven bars Monday to Sunday; all 0 without data; best exactly at the maximum when positive |
| DayAnalysisChart.BarValues | src/components/analytics/DayAnalysisChart.tsx:33-36 | a bar shows a point's value, or 0 without one |
| DayAnalysisChart.BestIsMaximal | src/components/analytics/DayAnalysisChart.tsx:40 | a best bar is at least every bar, and equal bars are best too |
| DayAnalysisChart.NoBestWithoutPositive | src/components/analytics/DayAnalysisChart.tsx:40 | no positive value, no best day |
| DayAnalysisChart.BestDays | src/components/analytics/DayAnalysisChart.tsx:48 | exactly the best bars, each best |
| DayAnalysisChart.BestDaysSnoc | src/components/analytics/DayAnalysisChart.tsx:48 | the filter keeps order: one more bar is appended exactly when it is best |
| DayAnalysisChart.Summary | src/components/analytics/DayAnalysisChart.tsx:127-150 | "no data for the period" exactly without a positive bar; the single-day message exactly for one best bar, naming it and its value; the tie exactly for two or more, listing every best day in order at the first one's value; the bare no-data message exactly when no bar is best |
| DayAnalysisChart.BestBarIsNamed | src/components/analytics/DayAnalysisChart.tsx:127-147 | a positive best bar is named, alone or among the tied days |
| DayAnalysisChart.BestDayIsNamed | src/components/analytics/DayAnalysisChart.tsx:40-147 | every best weekday of the chart is named in its sentence |
| DayAnalysisChart.TiedDaysShareTheMaximum | src/components/analytics/DayAnalysisChart.tsx:134-136 | tied days have equal values |
| DayAnalysisChart.OtherNameLeavesNoBest | src/components/analytics/DayAnalysisChart.tsx:33-40 | a higher value under another name leaves no best day |
| DayAnalysisChart.ExampleBars | src/components/analytics/DayAnalysisChart.tsx:33-42 | the bars of that input |
| HabitComparisonChart.UsableItems | src/components/analytics/HabitComparisonChart.tsx:27 | exactly the entries with a number and a name |
| HabitComparisonChart.Top | src/components/analytics/HabitComparisonChart.tsx:26-31 | at most ten usable entries, highest first, none dropped above one kept |
| HabitComparisonChart.Shown | src/components/analytics/HabitComparisonChart.tsx:43 | clamped to [0, 100], the two-decimal value inside that range |
| HabitComparisonChart.ShownMonotone | src/components/analytics/HabitComparisonChart.tsx:43 | clamping keeps order |
| HabitComparisonChart.Id | src/components/analytics/HabitComparisonChart.tsx:45 | `habit-` followed by the index |
| HabitComparisonChart.IdsDistinct | src/components/analytics/HabitComparisonChart.tsx:45 | different indexes, different ids |
| HabitComparisonChart.ProcessData | src/components/analytics/HabitComparisonChart.tsx:18-47 | the placeholder without usable entries, otherwise the top entries shown with their ids |
| HabitComparisonChart.PointsOrdered | src/components/analytics/HabitComparisonChart.tsx:26-46 | points descending, in [0, 100], with distinct ids |
| HabitComparisonChart.PointsComeFromInput | src/components/analytics/HabitComparisonChart.tsx:26-46 | every point is a usable input entry, and no dropped one would show higher |
| HabitComparisonChart.FewEntriesAllShown | src/components/analytics/HabitComparisonChart.tsx:31 | ten or fewer usable entries are all shown |
| HabitComparisonChart.HasDataNeedsUsable | src/components/analytics/HabitComparisonChart.tsx:50 | the chart has data only with usable entries |
| HabitComparisonChart.HabitNamedNoDataHidesChart | src/components/analytics/HabitComparisonChart.tsx:50 | a habit named "No data" hides the chart |
| TrendChart.IntString | src/components/analytics/TrendChart.tsx:63 | a year's `toString()`, its digits for a non-negative year |
| TrendChart.SetMonthBackInMonth | src/components/analytics/TrendChart.tsx:44 | when the target month is long enough, the same day of month `i` months back |
| TrendChart.CountedDown | src/components/analytics/TrendChart.tsx:22-54 | `top + 1` labels for `i = top` down to 0 |
| TrendChart.CountDown | src/components/analytics/TrendChart.tsx:22-54 | the loop builds exactly those labels |
| TrendChart.YearLabels | src/components/analytics/TrendChart.tsx:60-64 | five years ending with the current one |
| TrendChart.CountUpYears | src/components/analytics/TrendChart.tsx:62-64 | the loop builds exactly those |
| TrendChart.GetLabels | src/components/analytics/TrendChart.tsx:15-69 | 7, 4, 3, 12 or 5 labels, each range's from its definition |
| TrendChart.WeekLabelsDistinct | src/components/analytics/TrendChart.tsx:22-26 | the seven day labels differ, the last is today's |
| TrendChart.WeekRangesAdjoin | src/components/analytics/TrendChart.tsx:31-37 | each week spans seven days and ends the day before the next starts |
| TrendChart.CalendarMonthLabel | src/components/analytics/TrendChart.tsx:40-56 | corrected: the short name of the calendar month `i` months back |
| TrendChart.CalendarMonthLabelsDistinct | src/components/analytics/TrendChart.tsx:49-55 | corrected, twelve different month labels |
| TrendChart.MonthStepLabelEarlyInMonth | src/components/analytics/TrendChart.tsx:44 | up to the 28th the as-written label is the calendar month's |
| TrendChart.QuarterLabelsOnMay31 | src/components/analytics/TrendChart.tsx:42-46 | on May 31 the quarter reads Mar, May, May as written, Mar, Apr, May corrected |
| TrendChart.SumBounds | src/components/analytics/TrendChart.tsx:84 | a sum of values in [lo, hi] lies between `lo * n` and `hi * n` |
| TrendChart.RoundedMean | src/components/analytics/TrendChart.tsx:84-88 | NaN exactly for an empty group |
| TrendChart.RoundedMeanWithin | src/components/analytics/TrendChart.tsx:84-88 | the mean of percentages is a percentage |
| TrendChart.CeilDiv | src/components/analytics/TrendChart.tsx:77 | `Math.ceil(n / l)`: the least `g` with `l * g >= n` |
| TrendChart.Group | src/components/analytics/TrendChart.tsx:81-83 | group `k` is empty exactly when it starts past the data |
| TrendChart.FormatData | src/components/analytics/TrendChart.tsx:72-100 | more values than labels: one rounded group mean per label; otherwise each value with its label |
| TrendChart.GroupedPrefix | src/components/analytics/TrendChart.tsx:80-83 | the first `m` groups are the data up to `m * g` |
| TrendChart.GroupsCoverData | src/components/analytics/TrendChart.tsx:76-92 | the groups together are the data |
| TrendChart.TrailingGroupsEmpty | src/components/analytics/TrendChart.tsx:76-92 | 8 values on 7 labels leave the last three groups empty (NaN) |
| TrendChart.BalancedStep | src/components/analytics/TrendChart.tsx:76-92 | each balanced group holds `n / l` values, one more for the first `n % l` |
| TrendChart.BalancedBounds | src/components/analytics/TrendChart.tsx:76-92 | the balanced groups end at the data's end |
| TrendChart.BalancedGroup | src/components/analytics/TrendChart.tsx:81-83 | corrected: every group holds a value |
| TrendChart.BalancedGroupedPrefix | src/components/analytics/TrendChart.tsx:80-83 | the first `m` balanced groups are a prefix of the data |
| TrendChart.BalancedGroupsCoverData | src/components/analytics/TrendChart.tsx:76-92 | corrected, the groups cover the data and no mean is NaN |
| TrendChart.Title | src/components/analytics/TrendChart.tsx:105-113 | a title ending in " Trend" |
| TrendChart.TitlesDistinct | src/components/analytics/TrendChart.tsx:105-113 | each range has its own title |
| TrendChart.TitleNamesLabelCount | src/components/analytics/TrendChart.tsx:105-113 | the title's number is the range's label count |
| SparklineChart.ChartData | src/components/analytics/SparklineChart.tsx:12-15 | one point per value, days numbered from 1 |
| SparklineChart.ChartDataKeepsValues | src/components/analytics/SparklineChart.tsx:12-15 | the points carry the values unchanged |
| SparklineChart.DayIndex | src/components/analytics/SparklineChart.tsx:21 | a weekday index |
| SparklineChart.DayNamesFollowTheCalendar | src/components/analytics/SparklineChart.tsx:18-23 | point `i` is named for the day `6 - i` days before today, the last for today |
| SparklineChart.AreaPath | src/components/analytics/SparklineChart.tsx:83 | no path without points; otherwise a move to the first value, a line to each point in order, down to the baseline under the last point, back to the origin, and a close |
| SparklineChart.AreaTracesData | src/components/analytics/SparklineChart.tsx:12-15 | the area's top edge is the chart's data in order, between the origin's column and the baseline |
| AddHabitForm.Ids | src/components/habits/AddHabitForm.tsx:80 | the ids of the options, in order |
| AddHabitForm.DaysOfWeekAreTheWeek | src/components/habits/AddHabitForm.tsx:40-48 | seven options Monday to Sunday with the calendar's names, ids distinct |
| AddHabitForm.Presets | src/components/habits/AddHabitForm.tsx:79-92 | all days, Monday to Friday, Saturday and Sunday; a day's name is in a preset exactly on its weekdays |
| AddHabitForm.RemoveAll | src/components/habits/AddHabitForm.tsx:214 | exactly the other values |
| AddHabitForm.Toggle | src/components/habits/AddHabitForm.tsx:213-215 | the day is selected exactly when it was not; other days keep their state |
| AddHabitForm.ToggleTwiceRestoresSelection | src/components/habits/AddHabitForm.tsx:212-216 | two clicks restore the selected set |
| AddHabitForm.ToggleKeepsDistinct | src/components/habits/AddHabitForm.tsx:212-216 | clicks never select a day twice |
| AddHabitForm.ToggleTwiceFromUnselected | src/components/habits/AddHabitForm.tsx:212-216 | two clicks on an unselected day restore the list exactly |
| AddHabitForm.ToggleTwiceMovesSelectedToEnd | src/components/habits/AddHabitForm.tsx:212-216 | two clicks on a selected day move it to the end |
| AddHabitForm.Validate | src/components/habits/AddHabitForm.tsx:50-56 | each rule reported exactly when broken; no error exactly for a valid value |
| AddHabitForm.Form.constructor | src/components/habits/AddHabitForm.tsx:70-77 | the defaults: empty name, no day, today, dialog closed |
| AddHabitForm.Form.SelectAllDays | src/components/habits/AddHabitForm.tsx:79-82 | the target days become all seven |
| AddHabitForm.Form.SelectWeekdays | src/components/habits/AddHabitForm.tsx:84-87 | the target days become Monday to Friday |
| AddHabitForm.Form.SelectWeekends | src/components/habits/AddHabitForm.tsx:89-92 | the target days become Saturday and Sunday |
| AddHabitForm.Form.ToggleDay | src/components/habits/AddHabitForm.tsx:212-216 | the day toggled, without repeats when there were none |
| AddHabitForm.Form.SelectDate | src/components/habits/AddHabitForm.tsx:53-55 | the start date becomes the chosen one |
| AddHabitForm.Form.Submit | src/components/habits/AddHabitForm.tsx:94-116 | a call exactly for a valid form, carrying it; success toasts, resets and closes; failure toasts and keeps the form |
| PreMadeChallenges.DistinctWeekdaysAtMostSeven | src/components/dashboard/PreMadeChallenges.tsx:127 | distinct weekday names are at most seven |
| PreMadeChallenges.ChallengeTableWellFormed | src/components/dashboard/PreMadeChallenges.tsx:21-77 | every habit of the table targets 1 to 7 distinct weekday names |
| PreMadeChallenges.ChallengeIdsDistinct | src/components/dashboard/PreMadeChallenges.tsx:108-109 | the challenge ids, the cards' keys, are distinct |
| PreMadeChallenges.StartDateOf | src/components/dashboard/PreMadeChallenges.tsx:89 | the date part holds no `T` |
| PreMadeChallenges.StartDateIsTheDay | src/components/dashboard/PreMadeChallenges.tsx:89 | the date part of a timestamp is its `yyyy-MM-dd` |
| PreMadeChallenges.StartChallenge | src/components/dashboard/PreMadeChallenges.tsx:82-102 | one fresh habit per template, in order, up to the first failure; success toast exactly when all succeed, otherwise the failure toast |
| Testimonials.Ids | src/components/landing/TestimonialsSection.tsx:100-101 | the cards' keys, in order |
| Testimonials.FloorBelowIsFloor | src/components/landing/TestimonialsSection.tsx:83 | the search finds `Math.floor` |
| Testimonials.RandomIndex | src/components/landing/TestimonialsSection.tsx:83 | the drawn index lies below the unplaced count |
| Testimonials.RandomIndexIsFloor | src/components/landing/TestimonialsSection.tsx:83 | it is `Math.floor(r * currentIndex)` |
| Testimonials.SwapPermutes | src/components/landing/TestimonialsSection.tsx:86-87 | the exchange keeps the elements |
| Testimonials.Picks | src/components/landing/TestimonialsSection.tsx:81-84 | one valid pick per cell |
| Testimonials.ShuffleFromPermutes | src/components/landing/TestimonialsSection.tsx:79-88 | the shuffle keeps the elements |
| Testimonials.ShuffleFromKeepsPlaced | src/components/landing/TestimonialsSection.tsx:81-87 | placed cells are never touched again |
| Testimonials.ShuffleInPlace | src/components/landing/TestimonialsSection.tsx:79-88 | the loop, in place, computes the shuffle of the draws |
| Testimonials.Shuffle | src/components/landing/TestimonialsSection.tsx:77-90 | a fresh array, a permutation of the source, which is unchanged |
| Testimonials.PermutationKeepsDistinct | src/components/landing/TestimonialsSection.tsx:100-101 | a rearrangement of distinct values is distinct |
| Testimonials.PermutationKeepsIdsDistinct | src/components/landing/TestimonialsSection.tsx:100-101 | rearranged testimonials keep distinct ids |
| Testimonials.ShuffledIdsDistinct | src/components/landing/TestimonialsSection.tsx:77-101 | the shuffled cards have distinct keys |
| Testimonials.TableIds | src/components/landing/TestimonialsSection.tsx:12-50 | the table's ids are 1 to 6 |
| MotivationalQuote.WithinYear | src/components/MotivationalQuote.tsx:18-20 | a day lies within 366 days of its January 1 |
| MotivationalQuote.DayOfYear | src/components/MotivationalQuote.tsx:18-20 | the day of the year, 1 to 366, whatever the time of day |
| MotivationalQuote.QuoteIndex | src/components/MotivationalQuote.tsx:21 | a valid index into the quotes |
| MotivationalQuote.SameDaySameQuote | src/components/MotivationalQuote.tsx:16-22 | the quote does not change within a day |
| MotivationalQuote.TenDaysSameQuote | src/components/MotivationalQuote.tsx:21 | within a year the quote returns every ten days |
| MotivationalQuote.NewYearQuote | src/components/MotivationalQuote.tsx:18-21 | January 1 shows the second quote |
| MotivationalQuote.ReadShow | src/components/MotivationalQuote.tsx:31 | shown exactly for the string "true" |
| MotivationalQuote.BoolStringRoundTrip | src/components/MotivationalQuote.tsx:30-36 | a written flag reads back as itself |
| MotivationalQuote.QuoteToggle.constructor | src/components/MotivationalQuote.tsx:27-36 | shown unless another saved value is found, then written back |
| MotivationalQuote.QuoteToggle.Flip | src/components/MotivationalQuote.tsx:47 | the flag flips and is stored |
| MotivationalQuote.ReloadKeepsChoice | src/components/MotivationalQuote.tsx:29-36 | a reload shows what was shown |
| MotivationalQuote.FlipTwice | src/components/MotivationalQuote.tsx:47 | two clicks restore flag and storage |
| TimePicker.Options | src/components/ui/time-picker.tsx:11-12 | `n` two-digit options reading back as 0 to `n - 1` |
| TimePicker.OptionLists | src/components/ui/time-picker.tsx:11-12 | hours 00-23 and minutes 00-59, in order and distinct |
| TimePicker.SplitTime | src/components/ui/time-picker.tsx:14 | a time splits into its hour and minute, which rejoin into it |
| TimePicker.HourChangeKeepsMinute | src/components/ui/time-picker.tsx:16-18 | choosing an hour keeps the minute |
| TimePicker.MinuteChangeKeepsHour | src/components/ui/time-picker.tsx:20-22 | choosing a minute keeps the hour |
| TimePicker.HourChangeWithoutColon | src/components/ui/time-picker.tsx:14-18 | without a colon the minute becomes "undefined" and the value is not a time |
| NotificationContext.DefaultReminderTime | src/contexts/NotificationContext.tsx:23-28 | defaults all off, reminder at 20:00 |
| NotificationContext.Merge | src/contexts/NotificationContext.tsx:59-61 | supplied fields override, others keep their value |
| NotificationContext.MergeNothing | src/contexts/NotificationContext.tsx:59-61 | an empty update changes nothing |
| NotificationContext.MergeIdempotent | src/contexts/NotificationContext.tsx:59-61 | the same update twice is the update once |
| NotificationContext.MergeThen | src/contexts/NotificationContext.tsx:59-61 | two updates are one update where the later wins |
| NotificationContext.MergeEverything | src/contexts/NotificationContext.tsx:59-61 | a full update replaces the record |
| NotificationContext.Provider.constructor | src/contexts/NotificationContext.tsx:21-33 | the saved record or the defaults, written back |
| NotificationContext.Provider.UpdatePreferences | src/contexts/NotificationContext.tsx:59-61 | merged and stored |
| NotificationContext.Provider.RequestPermission | src/contexts/NotificationContext.tsx:35-48 | "granted" turns notifications on with a success toast; other answers and throws keep the state with their toast |
| NotificationContext.Provider.SendBrowserNotification | src/contexts/NotificationContext.tsx:50-57 | shown with the favicon exactly when enabled and granted |
| NotificationContext.ReloadKeepsPreferences | src/contexts/NotificationContext.tsx:21-33 | a reload reads back the preferences last written |
| NotificationContext.GrantOnFreshInstall | src/contexts/NotificationContext.tsx:35-57 | granting on a fresh install makes the next notification show |
| NotificationContext.UseNotifications | src/contexts/NotificationContext.tsx:75-81 | the context inside a provider, the error message outside |

## Left out

- Time zones and locales: a `Date` is its calendar day in one fixed zone, so `toISOString()`
  and `toLocaleDateString` name the same day. The UTC shift of `toISOString()` is not
  modelled.
- Times of day are not modelled, apart from the quote of the day (milliseconds into the
  day) and the event times (`HH:mm`). `isAfter(date, new Date())` is "the day is after
  today".
- Floating point: numbers are exact reals. IEEE rounding of `toFixed` and of `/` is not
  modelled.
- The streak computation, the habit context, the authentication context and the
  notification service are not part of this model. Their data (`streak`, `highestStreak`,
  `completionTimestamps`, `user`) is carried as given.
- Rendering, styling, icons, tooltips' markup, animations and the media query are left out.
  Only the values they display are modelled.
- React's scheduling: state updates and effects are applied in source order, as one step.
  The effect that first writes the initial quote flag, before the saved value is read back,
  is not modelled.
- `Math.random()`, `Notification.requestPermission()`, `Notification.permission`, `addHabit`
  and `addEvent` are parameters.
- Local storage holds decoded records. Malformed or partial JSON is not modelled, and
  neither is an empty saved string, which the source treats as absent.
- The testimonial quotes and avatar URLs are left blank: only the ids and the people matter
  to the shuffle.
- DateFormats.IsoDate: years before 0 and after 9999 are not modelled; `format` would add
  a sign or a fifth digit.
- FullscreenCalendar.FormatMonth: months before year 1 are not modelled, so PreviousMonth
  requires the month before to be in year 1 or later.
- FullscreenCalendar.SortEvents: `Array.prototype.sort` is modelled as an insertion sort.
  Only sortedness and permutation are stated, not the engine's order among equal keys.
- FullscreenCalendar.SortKey: an event whose date or time does not parse gets key 0; the
  source compares `NaN` instead, which leaves such events' order unspecified.
- HabitHeatmap.YearMonthBlock and HabitHeatmap.MonthCells use the month length and weekday
  from `DaysInMonth` and `Weekday`, the values HabitHeatmap.GetDaysInMonth and
  HabitHeatmap.GetFirstDayOfMonth are proved to return.
- MotivationalQuote.QuoteOfTheDay carries no contract of its own. MotivationalQuote.QuoteIndex
  and the lemmas after it state what it picks.
- AnalyticsPage.AnalyticsData: the loading flag and the time range are inputs; the
  `analytics_range` entry in storage is not modelled.

## Findings

| source | as written | input that shows it | evidently intended | confidence | as-written member | corrected member |
|---|---|---|---|---|---|---|
| src/pages/ReportsPage.tsx:28 | divides all completion dates by the target days since the start | a Monday-only habit started Monday 2025-01-06 and completed on the 6th and the 7th; on the 7th it scores 200% | count only the completed target days since the start, so the rate stays in [0, 100] | not executed | ReportsPage.CompletionRateExceeds100 | ReportsPage.CompletionRateFull |
| src/components/calendar/HabitHeatmap.tsx:215-228 | headers start on Monday, but the blanks before day 1 count from Sunday (`getDay()`) | any month: each day sits under the next weekday's header, e.g. a Monday under "Tue" | pad by the Monday-based column, so each day sits under its own weekday | not executed | HabitHeatmap.MonthViewHeaderIsNextWeekday | HabitHeatmap.MondayFirstHeaderIsWeekday |
| src/components/analytics/TrendChart.tsx:40-56 | `setMonth(getMonth() - i)` keeps the day of month and overflows into the next month | on 2025-05-31 the quarter labels read Mar, May, May | the calendar month `i` months back: Mar, Apr, May | not executed | TrendChart.QuarterLabelsOnMay31 | TrendChart.CalendarMonthLabelsDistinct |
| src/components/analytics/TrendChart.tsx:76-92 | groups of `ceil(n / l)` values run out before the last label | 8 values on 7 labels: groups of 2 leave the last three groups empty, whose mean is `NaN` | balanced groups of `n / l` or `n / l + 1` values, each non-empty | not executed | TrendChart.TrailingGroupsEmpty | TrendChart.BalancedGroupsCoverData |
