# ISO 8601 parser of SwiftDate, modelled in Dafny

This project models `ISOParser`, the hand-written ISO 8601 parser of SwiftDate
(`Sources/SwiftDate/Formatters/ISOParser.swift`). The parser walks the Unicode
scalars of its input with a cursor (`cIdx`). It fills a `ParsedDate`
accumulator in place, choosing a branch by the number of leading hyphens and
the length of the first run of digits (`parse_digits_0` … `parse_digits_8`).
It then reads an optional time of day and an optional zone designator. Last,
it turns the accumulator into `DateComponents` and a time zone. A week date
is projected onto a day of the year on the way.

The model has two layers:

- `grammar.dfy` and `scanning.dfy` are a pure specification. Each scanner
  primitive and each parsing branch is a function from a state (the cursor
  and the accumulator) to the next state, or to the error the branch throws.
- `parser.dfy` is the class `ISOParser`. Its fields are updated in place, as
  in the source, by methods with the source's loops and branches. Each method
  is proved to do exactly what its specification function says, starting from
  the state it was called in.

Other files:

- `calendar.dfy` holds the leap-year rule, Swift's truncating `/` and `%`,
  and the week-date projection. For the years 0001 to 9999 the projection is
  proved equal to an independent ISO 8601 week-date definition; for the year
  0000, which the parser also accepts, it is proved one day early.
- `properties.dfy` holds end-to-end facts about whole inputs:
  - round trips of the extended and basic calendar formats, of week dates
    and of ordinal dates;
  - zone designators;
  - the error cases of the dispatch;
  - behaviour of the source that is easy to miss (listed below).
- `reduced.dfy` holds the same kind of facts for dates with a part left
  implicit: `--MM-DD` and `-Www-D` in the clock's year, `-YY-MM-DD`,
  `YY-MM-DD`, `YY-MMDD`, `YY-DDD` and `YYWww-D` in the clock's century, the
  `-W-D` shorthand, and strict `-Y` in the clock's decade.

The clock reading `now_cmps` (year, month and day of `Date()`) is a
parameter, `Reference`. The time separator of `Options` is always `:` in the
source's public initialiser (`MakeOptions`). The model still keeps it a field,
so the `,`/`.` branch is modelled too.

## Model

All source cells refer to `Sources/SwiftDate/Formatters/ISOParser.swift`.

| member | source | states |
|---|---|---|
| IsoCalendar.Rem | Sources/SwiftDate/Formatters/ISOParser.swift:386-390 | Swift's `%` on `Int`: `a == b * Quot(a, b) + r` with `-b < r < b`; the remainder has the sign of the dividend, and equals Dafny's for a non-negative dividend |
| IsoCalendar.DaysInYearIsGregorian | Sources/SwiftDate/Formatters/ISOParser.swift:33-35 | `isLeapYear` agrees with the Gregorian day count: 365 days plus one exactly for leap years separate 1 January of a year from 1 January of the next |
| IsoCalendar.IsoWeekOneHoldsJanuaryFourth | Sources/SwiftDate/Formatters/ISOParser.swift:383-384 | the reference week-date definition is the ISO rule: week 1 starts on a Monday and holds 4 January |
| IsoCalendar.LegacyJan1WeekdayIsGregorian | Sources/SwiftDate/Formatters/ISOParser.swift:385-390 | the legacy formula for `jan1Weekday` gives the Gregorian weekday of 1 January (0 = Monday) for every year from 1 on |
| IsoCalendar.WeekProjectionIsIsoWeekDate | Sources/SwiftDate/Formatters/ISOParser.swift:383-400 | for every year from 1 on, the projection of week `w`, day `d` and optional weekday lands on the ISO day of the year of weekday `d + weekday` in week `w` |
| IsoCalendar.YearZeroWeekOneStartsADayEarly | Sources/SwiftDate/Formatters/ISOParser.swift:385-396 | year 0 has 366 days and starts on a Saturday, so the ISO Monday of week 1 is 3 January; the legacy `jan1Weekday` is -1, and the projection puts that Monday on 2 January |
| IsoScanning.Step | Sources/SwiftDate/Formatters/ISOParser.swift:802-809 | `next(offset)` moves the cursor by `offset` only when the target is a scalar of the string; otherwise it stays put |
| IsoScanning.Run | Sources/SwiftDate/Formatters/ISOParser.swift:879-889 | `moveUntil(is:)` stops at the end or at the first scalar that is not `c` |
| IsoScanning.RunCovers | Sources/SwiftDate/Formatters/ISOParser.swift:879-889 | every scalar `moveUntil(is:)` passes is `c` |
| IsoScanning.DistanceTo | Sources/SwiftDate/Formatters/ISOParser.swift:897-907 | `moveUntil(isNot:)` stops at the end or at the first `c` |
| IsoScanning.DistanceToSkips | Sources/SwiftDate/Formatters/ISOParser.swift:897-907 | no scalar `moveUntil(isNot:)` passes is `c` |
| IsoScanning.DigitRun | Sources/SwiftDate/Formatters/ISOParser.swift:819-826 | the scan of `read_int` takes at most `max_count` scalars and stops at the end, at the cap or at a non-digit |
| IsoScanning.DigitRunIsMaximal | Sources/SwiftDate/Formatters/ISOParser.swift:819-826 | any run of digits that stops where the scan must stop is exactly the scan's run |
| IsoScanning.DigitRunCovers | Sources/SwiftDate/Formatters/ISOParser.swift:819-826 | every scalar the scan of `read_int` takes is a digit |
| IsoScanning.DecimalValueAtSlice | Sources/SwiftDate/Formatters/ISOParser.swift:828-832 | the value computed over the scanned index range is the value of the text `string[cIdx..<move_idx]` |
| IsoScanning.IntFromDigits | Sources/SwiftDate/Formatters/ISOParser.swift:832-834 | `Int(raw_value)` succeeds exactly when the decimal value fits `Int.max`, and then it is that value |
| IsoScanning.ReadIntAt | Sources/SwiftDate/Formatters/ISOParser.swift:818-838 | `read_int`: the count is the digit run, the cursor ends after it, the value is its decimal value and at most `Int.max`; an empty run gives `(0, 0)` without moving; the only error is `notDigit`, for a value beyond `Int.max` |
| IsoScanning.ShortReadsNeverThrow | Sources/SwiftDate/Formatters/ISOParser.swift:818-838 | `read_int(2)` never throws and yields less than 100 |
| IsoScanning.ReadIntBelow | Sources/SwiftDate/Formatters/ISOParser.swift:832-837 | a run whose value is below a bound within `Int.max + 1` is read without error, with a value below that bound |
| IsoScanning.ReadIntReadsNumber | Sources/SwiftDate/Formatters/ISOParser.swift:818-838 | `read_int` succeeds exactly when the number written at the cursor fits `Int`, and then gives that number, its run length and the cursor after the run |
| IsoScanning.NumberBound | Sources/SwiftDate/Formatters/ISOParser.swift:818-838 | a number of at most two, three or four digits is below 100, 1000 or 10000 |
| IsoScanning.DoubleScan | Sources/SwiftDate/Formatters/ISOParser.swift:850-860 | the scan of `read_double` passes only digits and at most one `.` or `,`; it ends at the first other scalar and fails with `notDouble` at a second separator |
| IsoScanning.ScanStopsAtSecondSeparator | Sources/SwiftDate/Formatters/ISOParser.swift:851-856 | a scan that meets a separator after one already seen throws `notDouble` |
| IsoScanning.ScanIgnoresSeparatorKind | Sources/SwiftDate/Formatters/ISOParser.swift:851-856 | the scan treats `.` and `,` alike |
| IsoScanning.Normalize | Sources/SwiftDate/Formatters/ISOParser.swift:862 | `replacingOccurrences(of: ",", with: ".")` changes each `,` to `.` and nothing else |
| IsoScanning.DoubleFromText | Sources/SwiftDate/Formatters/ISOParser.swift:866-868 | `Double(raw_value)` on scanned text refuses only a lone `.` |
| IsoScanning.ReadDoubleAt | Sources/SwiftDate/Formatters/ISOParser.swift:847-871 | `read_double`: on success the cursor ends within the string, the count is the distance moved, the value is non-negative and every scalar passed is a digit or a separator; the only error is `notDouble` |
| IsoScanning.SecondSeparatorThrows | Sources/SwiftDate/Formatters/ISOParser.swift:853-854 | two separators within a run of digits and separators make `read_double` throw `notDouble` |
| IsoScanning.SeparatorsAlike | Sources/SwiftDate/Formatters/ISOParser.swift:853-862 | swapping `.` for `,` anywhere does not change what `read_double` returns |
| IsoGrammar.Advance | Sources/SwiftDate/Formatters/ISOParser.swift:802-809 | `next()` leaves the accumulator alone and moves by one exactly when a scalar follows |
| IsoGrammar.SkipIf | Sources/SwiftDate/Formatters/ISOParser.swift:599-601 | `if current() == c { next() }` moves by one exactly when `c` is under the cursor and a scalar follows |
| IsoGrammar.Weekday | Sources/SwiftDate/Formatters/ISOParser.swift:721-731 | `parseWeekday`: past an optional `-`, the run of digits `n` is the weekday; it succeeds exactly when `n <= 7`, ending after the run with a week date of weekday `n`; otherwise `invalid`, or `notDigit` when the run overflows `Int` |
| IsoGrammar.WeekAndDay | Sources/SwiftDate/Formatters/ISOParser.swift:733-746 | `parseWeekAndDay`: past the `W`, no digit is `invalid` when strict and week 1, day 1 when lenient; otherwise the week is the two-digit run and the rest is exactly `Weekday` after it |
| IsoGrammar.DayAfterWeek | Sources/SwiftDate/Formatters/ISOParser.swift:748-751 | `parseDayAfterWeek` never fails and makes a week date: with a digit under the cursor, the day is the two-digit run and the cursor ends after it; otherwise the day is 1 and the cursor stays |
| IsoGrammar.Century | Sources/SwiftDate/Formatters/ISOParser.swift:753-757 | `centuryOnly`: 1 January of the year `segment * 100 + now.year % 100` (Swift's `%`), cursor unmoved; for a clock year of 0 or more, its last two digits are those of the clock year |
| IsoGrammar.Digits0 | Sources/SwiftDate/Formatters/ISOParser.swift:694-719 | `parse_digits_0` throws `invalid` unless `W` is under the cursor and the hyphen count is 1, or 2 when lenient; lenient `-W-D` (`LenientWeekDay`) is day `D` of week 1 of the current year; `-Www…` with one hyphen is exactly `WeekThenWeekday` in the current year; after two hyphens only the lenient `--W-D` is accepted, so any other `W` (`--W05-3`, or any `W` in strict mode) throws `invalid` |
| IsoGrammar.WeekThenWeekday | Sources/SwiftDate/Formatters/ISOParser.swift:708-712 | past the `W` of `-Www-D`: week `ww` from the two-digit run, then past an optional `-` the weekday run `n`; it succeeds exactly when `n <= 7`, with that week date and the cursor after `n`; otherwise `invalid` (or `notDigit` on overflow) |
| IsoGrammar.Digits1 | Sources/SwiftDate/Formatters/ISOParser.swift:566-582 | strict `parse_digits_1`: exactly one hyphen, and after an optional `-` it steps over one more scalar and needs `W` there; it succeeds exactly then, at that `W`, with the year in the current decade; lenient it is `Digits2` with a count of 1 |
| IsoGrammar.Digits2Hyphens3 | Sources/SwiftDate/Formatters/ISOParser.swift:444-448 | `---DD`: the current year and month, with day `DD` |
| IsoGrammar.Digits2Hyphens2 | Sources/SwiftDate/Formatters/ISOParser.swift:450-459 | `--MM[-DD]` never fails: the current year and month `MM`; without `-` the day is 1 and the cursor stays; with `-` the day is the two-digit run after it, the cursor after that run |
| IsoGrammar.Digits2Hyphens1 | Sources/SwiftDate/Formatters/ISOParser.swift:461-502 | `-YY…`: the year is `YY` in the current century (decade for one digit); without `-` after it, month 1 day 1; with `-`, exactly `MonthOrWeek` past it; any weekday set is between 0 and 7 |
| IsoGrammar.MonthOrWeek | Sources/SwiftDate/Formatters/ISOParser.swift:469-497 | past `-YY-`: an optional `W` makes a week date, and the two-digit run is the month or week; with no `-` after it the day is 1, otherwise the rest is exactly `DayOrWeekday` past the `-` |
| IsoGrammar.DayOrWeekday | Sources/SwiftDate/Formatters/ISOParser.swift:477-494 | past `-YY-MM-` or `-YY-Www-`: for a week date it succeeds exactly when the run `n` is at most 7, as weekday `n`; otherwise exactly when `n` fits `Int`, as day `n` with a month or day of 0 read as 1; the cursor ends after the run |
| IsoGrammar.Digits2MonthAndDay | Sources/SwiftDate/Formatters/ISOParser.swift:517-545 | after `YY-`: fails exactly on `Int` overflow or one strict digit; four digits are `MMDD`; three are an ordinal day; two are the month, then no `-` (day 1), `-` and no digit (day 1), or `-` and the two-digit day |
| IsoGrammar.Digits2AfterHyphen | Sources/SwiftDate/Formatters/ISOParser.swift:511-545 | past `YY-`: `W` is exactly `WeekAndDay`, a digit exactly `Digits2MonthAndDay`, anything else a bare century |
| IsoGrammar.Digits2Hyphens0 | Sources/SwiftDate/Formatters/ISOParser.swift:504-555 | two digits then `-` are exactly `Digits2AfterHyphen` past it, then `W` exactly `WeekAndDay`, both in the current century; anything else is a century |
| IsoGrammar.Digits2 | Sources/SwiftDate/Formatters/ISOParser.swift:557-563 | more than three hyphens before two digits throw `invalid` |
| IsoGrammar.Digits3 | Sources/SwiftDate/Formatters/ISOParser.swift:417-429 | `parse_digits_3` fails exactly with no hyphen, with more than two when lenient, or with a strict day past the year's end; success is the ordinal day `segment` of the current year |
| IsoGrammar.Digits4MonthAndDay | Sources/SwiftDate/Formatters/ISOParser.swift:610-636 | after `YYYY`: four digits are `MMDD`; three an ordinal day, `invalid` when strict and past the year's end; two the month, then past an optional `-` the day (1 when no digit follows); other run lengths fail |
| IsoGrammar.Digits4Hyphens0 | Sources/SwiftDate/Formatters/ISOParser.swift:597-637 | `YYYY…`, past an optional `-`: a digit gives exactly `Digits4MonthAndDay`, a `W` exactly `WeekAndDay`, anything else 1 January of that year |
| IsoGrammar.Digits4Hyphens1 | Sources/SwiftDate/Formatters/ISOParser.swift:639-651 | `-YYMM`: year `YY` and month `MM` give back the four digits; past an optional `-`, no digit is day 1, and a run `n` succeeds exactly when it fits `Int`, as day `n` |
| IsoGrammar.Digits4Hyphens2 | Sources/SwiftDate/Formatters/ISOParser.swift:653-657 | `--MMDD`: the current year; month and day together give back the four digits; the time, offset, weekday and style fields are kept |
| IsoGrammar.Digits4 | Sources/SwiftDate/Formatters/ISOParser.swift:659-664 | more than two hyphens before four digits throw `invalid` |
| IsoGrammar.Digits5 | Sources/SwiftDate/Formatters/ISOParser.swift:584-593 | `YYDDD` fails exactly when a hyphen came first; the ordinal day and the year within the current century give back the five digits; the time, offset and weekday fields are kept |
| IsoGrammar.Digits6 | Sources/SwiftDate/Formatters/ISOParser.swift:668-680 | `YYMMDD` fails exactly when a hyphen came first; year in the century, month and day give back the six digits; the time, offset, weekday and style fields are kept |
| IsoGrammar.Digits7 | Sources/SwiftDate/Formatters/ISOParser.swift:431-440 | `YYYYDDD` fails exactly with a hyphen, or with a strict day past the year's end; year and ordinal day give back the seven digits; the time, offset, month-or-week and weekday fields are kept |
| IsoGrammar.Digits8 | Sources/SwiftDate/Formatters/ISOParser.swift:682-692 | `YYYYMMDD` fails exactly when a hyphen came first; year, month and day give back the eight digits; the time, offset, weekday and style fields are kept |
| IsoGrammar.Dispatch | Sources/SwiftDate/Formatters/ISOParser.swift:254-265 | a first digit run longer than eight throws `invalid` |
| IsoGrammar.FirstDigitRun | Sources/SwiftDate/Formatters/ISOParser.swift:253-265 | with no digit under the cursor the `parse_digits_0` branch runs; a run longer than eight fails |
| IsoGrammar.ParseDate | Sources/SwiftDate/Formatters/ISOParser.swift:237-271 | a leading `T` followed by a digit takes the clock's date and stops at the digit; a `T` without a digit throws `invalid`; anything else is exactly `DateWithoutT` |
| IsoGrammar.DateWithoutT | Sources/SwiftDate/Formatters/ISOParser.swift:248-271 | a bare time (no `T`, no `-`, a `:`) takes the date of the clock reading and never fails |
| IsoGrammar.Modf | Sources/SwiftDate/Formatters/ISOParser.swift:309 | `modf`: the whole part truncated toward zero plus the fraction give back `x`, and the fraction has the sign of `x` and is below 1 |
| IsoGrammar.Round | Sources/SwiftDate/Formatters/ISOParser.swift:319 | `round`: the nearest whole number, halves away from zero |
| IsoGrammar.Trunc | Sources/SwiftDate/Formatters/ISOParser.swift:375-377 | `Int(Double)`: the whole part toward zero |
| IsoGrammar.FractionalSeconds | Sources/SwiftDate/Formatters/ISOParser.swift:318-320 | seconds with a fraction: whole non-negative seconds and at most a second's worth of nanoseconds; the date fields stay |
| IsoGrammar.MillisecondsOfFraction | Sources/SwiftDate/Formatters/ISOParser.swift:319 | a fraction of a second rounds to between 0 and 1000 milliseconds |
| IsoGrammar.MinuteAndSecond | Sources/SwiftDate/Formatters/ISOParser.swift:300-329 | the fractional-minute branch keeps the date and the hour, and gives non-negative minutes and seconds |
| IsoGrammar.WholeMinuteAndSecond | Sources/SwiftDate/Formatters/ISOParser.swift:292-299 | the `,`/`.` separator branch never fails: the minute is the number written at the cursor (at most two digits); after a second separator the seconds are the number written past it and the cursor ends after them, otherwise the cursor ends after the minute and the seconds stay; date and hour are kept |
| IsoGrammar.TimeOfDay | Sources/SwiftDate/Formatters/ISOParser.swift:281-330 | the time of day keeps the date fields and gives an hour below 100 |
| IsoGrammar.Signed | Sources/SwiftDate/Formatters/ISOParser.swift:349 | a negative offset negates the digits read |
| IsoGrammar.OffsetMinutes | Sources/SwiftDate/Formatters/ISOParser.swift:356-360 | offset minutes are read only when a digit follows (otherwise nothing changes): the two-digit run with the sign of the offset, the cursor after it; hours and zone stay |
| IsoGrammar.OffsetHours | Sources/SwiftDate/Formatters/ISOParser.swift:348-349 | offset hours: `tz_hour` is the two-digit run with the sign applied, the cursor ends after it, nothing else changes |
| IsoGrammar.Offset | Sources/SwiftDate/Formatters/ISOParser.swift:346-364 | `tz_hour` is the signed two-digit run; past an optional separator, a digit gives the signed two-digit minutes and the cursor after them, else the minutes stay; the zone is `tz_hour * 3600 + tz_minute * 60` seconds east |
| IsoGrammar.Zone | Sources/SwiftDate/Formatters/ISOParser.swift:332-368 | the designator never moves the cursor back, keeps the date fields, and only ever sets a zone |
| IsoGrammar.TimeAndZone | Sources/SwiftDate/Formatters/ISOParser.swift:273-369 | everything after the date keeps the date fields |
| IsoGrammar.ComponentsOf | Sources/SwiftDate/Formatters/ISOParser.swift:371-404 | the components carry the year and every time field, the minute, second and nanosecond truncated toward zero; a month only for calendar dates; the day as parsed, except for week dates, where it is the projected day of the year |
| IsoGrammar.ZoneOf | Sources/SwiftDate/Formatters/ISOParser.swift:409 | the parsed zone, or UTC when none was parsed |
| IsoGrammar.Iso8601 | Sources/SwiftDate/Formatters/ISOParser.swift:202-225 | an empty input gives no parser |
| IsoParsing.ISOParser.constructor | Sources/SwiftDate/Formatters/ISOParser.swift:202-218 | the cursor at the start, the hyphen count equal to the leading run of `-`, and a fresh accumulator |
| IsoParsing.ISOParser.Seek | Sources/SwiftDate/Formatters/ISOParser.swift:776-782 | `seek(offset)`: the scalar `offset` places ahead, or nothing at the end |
| IsoParsing.ISOParser.Current | Sources/SwiftDate/Formatters/ISOParser.swift:789-794 | `current()`: the scalar under the cursor, or nothing at the end |
| IsoParsing.ISOParser.CurrentAndAdvance | Sources/SwiftDate/Formatters/ISOParser.swift:789-794 | `current(true)`: the scalar under the cursor, and the cursor moved past it when there is one |
| IsoParsing.ISOParser.Next | Sources/SwiftDate/Formatters/ISOParser.swift:802-809 | `next(offset)`: the cursor becomes `Step(…)` and the scalar there is returned, or nothing |
| IsoParsing.ISOParser.ReadInt | Sources/SwiftDate/Formatters/ISOParser.swift:818-838 | the loop of `read_int` returns the count, the value and the new cursor of `ReadIntAt`, or its error with the cursor unmoved |
| IsoParsing.ISOParser.ReadDouble | Sources/SwiftDate/Formatters/ISOParser.swift:847-871 | the loop of `read_double` returns what `ReadDoubleAt` gives, or its error with the cursor unmoved |
| IsoParsing.ISOParser.MoveUntilIs | Sources/SwiftDate/Formatters/ISOParser.swift:879-889 | the loop passes `Run(…)` scalars and returns that count |
| IsoParsing.ISOParser.MoveUntilIsNot | Sources/SwiftDate/Formatters/ISOParser.swift:897-907 | the loop passes `DistanceTo(…)` scalars and returns that count |
| IsoParsing.ISOParser.ParseWeekday | Sources/SwiftDate/Formatters/ISOParser.swift:721-731 | leaves cursor and accumulator as `Weekday` says, or throws its error |
| IsoParsing.ISOParser.ParseWeekThenWeekday | Sources/SwiftDate/Formatters/ISOParser.swift:708-712 | does what `WeekThenWeekday` says |
| IsoParsing.ISOParser.ParseWeekAndDay | Sources/SwiftDate/Formatters/ISOParser.swift:733-746 | does what `WeekAndDay` says |
| IsoParsing.ISOParser.ParseDayAfterWeek | Sources/SwiftDate/Formatters/ISOParser.swift:748-751 | ends in the state `DayAfterWeek` gives |
| IsoParsing.ISOParser.CenturyOnly | Sources/SwiftDate/Formatters/ISOParser.swift:753-757 | sets the accumulator as `Century` says |
| IsoParsing.ISOParser.ParseDigits0 | Sources/SwiftDate/Formatters/ISOParser.swift:694-719 | does what `Digits0` says |
| IsoParsing.ISOParser.ParseWeekDayOfYear | Sources/SwiftDate/Formatters/ISOParser.swift:699-705 | the lenient `-W-D` arm of `parse_digits_0` does what `Digits0` says |
| IsoParsing.ISOParser.ParseWeekOfYear | Sources/SwiftDate/Formatters/ISOParser.swift:706-715 | the `-Www-D` arm of `parse_digits_0` does what `Digits0` says |
| IsoParsing.ISOParser.ParseDigits1 | Sources/SwiftDate/Formatters/ISOParser.swift:566-582 | does what `Digits1` says |
| IsoParsing.ISOParser.ParseDigits2Hyphens3 | Sources/SwiftDate/Formatters/ISOParser.swift:444-448 | sets the accumulator as `Digits2Hyphens3` says |
| IsoParsing.ISOParser.ParseDigits2Hyphens2 | Sources/SwiftDate/Formatters/ISOParser.swift:450-459 | ends in the state `Digits2Hyphens2` gives |
| IsoParsing.ISOParser.ParseDigits2Hyphens1 | Sources/SwiftDate/Formatters/ISOParser.swift:461-502 | does what `Digits2Hyphens1` says |
| IsoParsing.ISOParser.ParseMonthOrWeek | Sources/SwiftDate/Formatters/ISOParser.swift:469-497 | does what `MonthOrWeek` says |
| IsoParsing.ISOParser.ParseDayOrWeekday | Sources/SwiftDate/Formatters/ISOParser.swift:477-494 | does what `DayOrWeekday` says |
| IsoParsing.ISOParser.ParseDigits2MonthAndDay | Sources/SwiftDate/Formatters/ISOParser.swift:517-545 | does what `Digits2MonthAndDay` says |
| IsoParsing.ISOParser.ParseDigits2Hyphens0 | Sources/SwiftDate/Formatters/ISOParser.swift:504-555 | does what `Digits2Hyphens0` says |
| IsoParsing.ISOParser.ParseDigits2CenturyHyphen | Sources/SwiftDate/Formatters/ISOParser.swift:505-545 | the `YY-` arm does what `Digits2Hyphens0` says |
| IsoParsing.ISOParser.ParseDigits2WeekOrCentury | Sources/SwiftDate/Formatters/ISOParser.swift:546-554 | the `YYWww` and bare-century arms do what `Digits2Hyphens0` says |
| IsoParsing.ISOParser.SetCenturyYear | Sources/SwiftDate/Formatters/ISOParser.swift:507-509 | the year becomes the clock's century plus the two digits; nothing else changes |
| IsoParsing.ISOParser.ParseDigits2AfterHyphen | Sources/SwiftDate/Formatters/ISOParser.swift:511-545 | does what `Digits2AfterHyphen` says |
| IsoParsing.ISOParser.ParseDigits2 | Sources/SwiftDate/Formatters/ISOParser.swift:557-563 | does what `Digits2` says |
| IsoParsing.ISOParser.ParseDigits3 | Sources/SwiftDate/Formatters/ISOParser.swift:417-429 | does what `Digits3` says |
| IsoParsing.ISOParser.ParseDigits4MonthAndDay | Sources/SwiftDate/Formatters/ISOParser.swift:610-636 | does what `Digits4MonthAndDay` says |
| IsoParsing.ISOParser.ParseDigits4Hyphens0 | Sources/SwiftDate/Formatters/ISOParser.swift:597-637 | does what `Digits4Hyphens0` says |
| IsoParsing.ISOParser.ParseDigits4Hyphens1 | Sources/SwiftDate/Formatters/ISOParser.swift:639-651 | does what `Digits4Hyphens1` says |
| IsoParsing.ISOParser.ParseDigits4Hyphens2 | Sources/SwiftDate/Formatters/ISOParser.swift:653-657 | sets the accumulator as `Digits4Hyphens2` says |
| IsoParsing.ISOParser.ParseDigits4 | Sources/SwiftDate/Formatters/ISOParser.swift:659-664 | does what `Digits4` says |
| IsoParsing.ISOParser.ParseDigits5 | Sources/SwiftDate/Formatters/ISOParser.swift:584-593 | does what `Digits5` says |
| IsoParsing.ISOParser.ParseDigits6 | Sources/SwiftDate/Formatters/ISOParser.swift:668-680 | does what `Digits6` says |
| IsoParsing.ISOParser.ParseDigits7 | Sources/SwiftDate/Formatters/ISOParser.swift:431-440 | does what `Digits7` says |
| IsoParsing.ISOParser.ParseDigits8 | Sources/SwiftDate/Formatters/ISOParser.swift:682-692 | does what `Digits8` says |
| IsoParsing.ISOParser.ParseDispatch | Sources/SwiftDate/Formatters/ISOParser.swift:254-265 | does what `Dispatch` says |
| IsoParsing.ISOParser.ParseFirstDigitRun | Sources/SwiftDate/Formatters/ISOParser.swift:253-265 | does what `FirstDigitRun` says |
| IsoParsing.ISOParser.ParseDatePart | Sources/SwiftDate/Formatters/ISOParser.swift:237-271 | does what `ParseDate` says |
| IsoParsing.ISOParser.ParseDateWithoutT | Sources/SwiftDate/Formatters/ISOParser.swift:248-271 | does what `DateWithoutT` says |
| IsoParsing.ISOParser.ParseFractionalSeconds | Sources/SwiftDate/Formatters/ISOParser.swift:318-320 | does what `FractionalSeconds` says |
| IsoParsing.ISOParser.ParseMinuteAndSecond | Sources/SwiftDate/Formatters/ISOParser.swift:300-329 | does what `MinuteAndSecond` says |
| IsoParsing.ISOParser.ParseWholeMinuteAndSecond | Sources/SwiftDate/Formatters/ISOParser.swift:292-299 | does what `WholeMinuteAndSecond` says |
| IsoParsing.ISOParser.ParseTimeOfDay | Sources/SwiftDate/Formatters/ISOParser.swift:281-330 | does what `TimeOfDay` says |
| IsoParsing.ISOParser.ParseZone | Sources/SwiftDate/Formatters/ISOParser.swift:332-368 | ends in the state `Zone` gives |
| IsoParsing.ISOParser.ParseOffset | Sources/SwiftDate/Formatters/ISOParser.swift:346-364 | ends in the state `Offset` gives |
| IsoParsing.ISOParser.ParseOffsetHours | Sources/SwiftDate/Formatters/ISOParser.swift:348-349 | ends in the state `OffsetHours` gives |
| IsoParsing.ISOParser.ParseOffsetMinutes | Sources/SwiftDate/Formatters/ISOParser.swift:356-360 | ends in the state `OffsetMinutes` gives |
| IsoParsing.ISOParser.ParseTimePart | Sources/SwiftDate/Formatters/ISOParser.swift:273-369 | does what `TimeAndZone` says |
| IsoParsing.ISOParser.SetComponents | Sources/SwiftDate/Formatters/ISOParser.swift:371-412 | the inline week projection gives `ComponentsOf(date)`; the zone is `ZoneOf(date)` |
| IsoParsing.ISOParser.Parse | Sources/SwiftDate/Formatters/ISOParser.swift:233-415 | `parse()` does what `ParseAll` says, and on success stores `ComponentsOf` and `ZoneOf` of the final accumulator |
| IsoParsing.NewParser | Sources/SwiftDate/Formatters/ISOParser.swift:202-225 | the initialiser yields no parser exactly when `Iso8601` gives nothing, and otherwise a parser holding the components and zone `Iso8601` gives |
| IsoProperties.ReadIntOfRun | Sources/SwiftDate/Formatters/ISOParser.swift:818-838 | a run of 1 to 18 digits that stops where the scan stops is read whole: its count, its decimal value and the cursor after it |
| IsoProperties.ReadIntOfDigits | Sources/SwiftDate/Formatters/ISOParser.swift:818-838 | `read_int` gives back the value whose zero-padded digits it reads |
| IsoProperties.EightDigitRun | Sources/SwiftDate/Formatters/ISOParser.swift:818-838 | eight digits at the start, with no ninth, are read as one run, and no hyphen precedes them |
| IsoProperties.ScanOverDigits | Sources/SwiftDate/Formatters/ISOParser.swift:850-860 | the scan of `read_double` over plain digits ends where they end |
| IsoProperties.ReadDoubleOfDigits | Sources/SwiftDate/Formatters/ISOParser.swift:847-871 | `read_double` gives back the whole value whose digits it reads |
| IsoProperties.MonthAndDayParse | Sources/SwiftDate/Formatters/ISOParser.swift:616-626 | `MM-DD` after `YYYY-` sets that month and day |
| IsoProperties.ExtendedDateParses | Sources/SwiftDate/Formatters/ISOParser.swift:597-626 | `YYYY-MM-DD` at the start sets that year, month and day, with the cursor after it |
| IsoProperties.MinuteAndSecondParse | Sources/SwiftDate/Formatters/ISOParser.swift:304-321 | `MM:SS` past the first `:` sets those minutes and seconds and no fraction |
| IsoProperties.WholeSecondsParse | Sources/SwiftDate/Formatters/ISOParser.swift:318-320 | two digits of seconds with no fraction give those seconds and zero nanoseconds |
| IsoProperties.ExtendedTimeParses | Sources/SwiftDate/Formatters/ISOParser.swift:281-330 | `HH:MM:SS` sets that hour, minute and second and no fraction |
| IsoProperties.OffsetMinutesParse | Sources/SwiftDate/Formatters/ISOParser.swift:356-360 | two minute digits of an offset set `tz_minute` with the sign of the offset |
| IsoProperties.ExtendedOffsetParses | Sources/SwiftDate/Formatters/ISOParser.swift:346-363 | `HH:MM` after a sign sets the signed hours and minutes and the zone they name |
| IsoProperties.BasicOffsetParses | Sources/SwiftDate/Formatters/ISOParser.swift:346-363 | `HHMM` after a sign sets the signed hours and minutes and the zone they name |
| IsoProperties.HoursOffsetParses | Sources/SwiftDate/Formatters/ISOParser.swift:346-363 | `HH` ending the input after a sign sets the signed hours, no minutes, and the zone of those hours |
| IsoProperties.OffsetHoursParse | Sources/SwiftDate/Formatters/ISOParser.swift:348-349 | the two hour digits of an offset are read as one run, and the rest of the input follows them |
| IsoProperties.OffsetOfSteps | Sources/SwiftDate/Formatters/ISOParser.swift:346-363 | those three steps give the offset `±(HH * 3600 + MM * 60)` |
| IsoProperties.ShiftSeconds | Sources/SwiftDate/Formatters/ISOParser.swift:362-363 | the seconds east of the signed hours and minutes are those the designator names |
| IsoProperties.OffsetParses | Sources/SwiftDate/Formatters/ISOParser.swift:343-364 | `±HH:MM`, `±HHMM` or `±HH` ending the input sets `tz_hour`, `tz_minute` and exactly the zone the designator names |
| IsoProperties.ZoneAtZulu | Sources/SwiftDate/Formatters/ISOParser.swift:340-341 | `Z` sets the zone to UTC and nothing else |
| IsoProperties.ZoneAtSign | Sources/SwiftDate/Formatters/ISOParser.swift:343-346 | a sign followed by a digit reads the offset from that digit |
| IsoProperties.DesignatorParses | Sources/SwiftDate/Formatters/ISOParser.swift:338-368 | a final `Z`, `±HH:MM`, `±HHMM` or `±HH` sets exactly the zone it names and leaves the other fields alone |
| IsoProperties.TimeAndDesignatorParse | Sources/SwiftDate/Formatters/ISOParser.swift:273-368 | `THH:MM:SS` and a designator after a date set that time and zone |
| IsoProperties.ExtendedDateTimeParses | Sources/SwiftDate/Formatters/ISOParser.swift:233-369 | a whole `YYYY-MM-DDTHH:MM:SS` plus designator sets exactly those fields and that zone |
| IsoProperties.ExtendedDateTimeRoundTrip | Sources/SwiftDate/Formatters/ISOParser.swift:202-225 | round trip: `YYYY-MM-DDTHH:MM:SS` then `Z`, `±HH:MM`, `±HHMM` or `±HH` yields exactly those components and that zone, strict or not, whatever the clock |
| IsoProperties.SplitDateNumber | Sources/SwiftDate/Formatters/ISOParser.swift:688-691 | the `%`/`/` split of `parse_digits_8` gives back year, month and day |
| IsoProperties.EightDigitDate | Sources/SwiftDate/Formatters/ISOParser.swift:682-692 | eight leading digits and no hyphen take the `parse_digits_8` branch |
| IsoProperties.BasicDateRun | Sources/SwiftDate/Formatters/ISOParser.swift:818-838 | `YYYYMMDD` with no ninth digit is read as one run worth `YYYYMMDD`, with no hyphen before it |
| IsoProperties.DateOfEightDigits | Sources/SwiftDate/Formatters/ISOParser.swift:682-692 | a run worth `YYYYMMDD` sets that year, month and day |
| IsoProperties.BasicDateParses | Sources/SwiftDate/Formatters/ISOParser.swift:248-265 | `YYYYMMDD` at the start sets that year, month and day, with the cursor after it |
| IsoProperties.BasicDateRoundTrip | Sources/SwiftDate/Formatters/ISOParser.swift:202-225 | round trip: `YYYYMMDD` alone yields that date at midnight in UTC |
| IsoProperties.BasicHourMinute | Sources/SwiftDate/Formatters/ISOParser.swift:285-288 | with no `:` in the input, `HHMM` after `T` sets the hour and the minute and stops there |
| IsoProperties.TimeAfterT | Sources/SwiftDate/Formatters/ISOParser.swift:273-281 | `T` and a digit: the time of day is read from the digit |
| IsoProperties.NoDesignatorAtDigit | Sources/SwiftDate/Formatters/ISOParser.swift:338-367 | a digit where a designator would start changes nothing |
| IsoProperties.BasicTimeParses | Sources/SwiftDate/Formatters/ISOParser.swift:273-288 | `THHMM` then a digit sets the hour and minute and no zone |
| IsoProperties.BasicDateTimeParses | Sources/SwiftDate/Formatters/ISOParser.swift:233-288 | `YYYYMMDDTHHMM` then a digit, with no `:`, sets date, hour and minute |
| IsoProperties.BasicTimeIgnoresSeconds | Sources/SwiftDate/Formatters/ISOParser.swift:287-288 | `YYYYMMDDTHHMMSS` parses as that minute with zero seconds: the seconds are never read |
| IsoProperties.WeekAfterYearParses | Sources/SwiftDate/Formatters/ISOParser.swift:597-605 | `-Www[-D]` after `YYYY` sets that week, a week date, and weekday `D`, or 0 without one |
| IsoProperties.WeekDateParses | Sources/SwiftDate/Formatters/ISOParser.swift:253-258 | a whole `YYYY-Www[-D]` takes the four-digit branch and sets year, week and weekday |
| IsoProperties.WeekDateSteps | Sources/SwiftDate/Formatters/ISOParser.swift:597-605 | after a four-digit year `YYYY` and `-Www[-D]` ending the input, the date part ends at the end of the input with that year, week and weekday |
| IsoProperties.WeekDateProjects | Sources/SwiftDate/Formatters/ISOParser.swift:371-404 | for every year 0000 to 9999, `YYYY-Www[-D]` yields year `YYYY`, no month, the projected day of weekday `D` (0 without one) in week `ww`, midnight, UTC |
| IsoProperties.WeekDateRoundTrip | Sources/SwiftDate/Formatters/ISOParser.swift:383-400 | round trip for the years 0001 to 9999: `YYYY-Www-D` yields the ISO day of the year of weekday `D` in week `ww`, in UTC |
| IsoProperties.YearZeroWeekDateIsOneDayEarly | Sources/SwiftDate/Formatters/ISOParser.swift:383-400 | `0000-W01-1` yields day 2 of year 0, one day before the ISO Monday of week 1 (3 January 0000) |
| IsoProperties.WeekWithoutWeekdayIsSundayBefore | Sources/SwiftDate/Formatters/ISOParser.swift:395-399 | `YYYY-Www` with no weekday yields the Sunday before the Monday of week `ww` |
| IsoProperties.OrdinalDateParses | Sources/SwiftDate/Formatters/ISOParser.swift:597-636 | a whole `YYYY-DDD` takes the four-digit branch: day `DDD` of year `YYYY` as an ordinal date, `invalid` in strict mode past the year's end |
| IsoProperties.OrdinalDateRoundTrip | Sources/SwiftDate/Formatters/ISOParser.swift:202-225 | round trip: `YYYY-DDD` yields year `YYYY`, no month, day `DDD`, midnight, UTC, strict or not, except that strict mode yields nothing for a day past the year's end |
| IsoProperties.DispatchRefusals | Sources/SwiftDate/Formatters/ISOParser.swift:254-265 | more than eight digits fail; five to eight digits after a hyphen fail; more than three hyphens fail except before three digits in strict mode |
| IsoProperties.StrictAcceptsManyHyphenOrdinal | Sources/SwiftDate/Formatters/ISOParser.swift:419-421 | with three or more hyphens, `DDD` (within 365) is accepted exactly in strict mode |
| IsoProperties.StrictOrdinalWithinYear | Sources/SwiftDate/Formatters/ISOParser.swift:426-428 | in strict mode, the 3-, 4- and 7-digit branches give ordinal days within the year |
| IsoProperties.StrictTwoDigitYearOrdinalUnchecked | Sources/SwiftDate/Formatters/ISOParser.swift:584-593 | `YYDDD` is accepted even in strict mode, with any day up to 999 |
| IsoProperties.FractionalMinuteSplits | Sources/SwiftDate/Formatters/ISOParser.swift:306-314 | a fractional minute not followed by `:` splits into whole minutes, plus seconds worth the fraction |
| IsoProperties.SignWithoutDigitSetsNoZone | Sources/SwiftDate/Formatters/ISOParser.swift:343-366 | a `+` or `-` with no digit after it sets no zone, so the result is UTC unless a zone was set before |
| IsoReducedDates.FirstRun | Sources/SwiftDate/Formatters/ISOParser.swift:248-265 | past the leading hyphens (no `T` first, a `-` somewhere), a first run of `c` digits worth `n` takes exactly the branch `c` selects, from the end of the run |
| IsoReducedDates.MonthOfCurrentYearParses | Sources/SwiftDate/Formatters/ISOParser.swift:450-459 | a whole `--MM` or `--MM-DD`: month `MM` of the clock's year, on day `DD`, or 1 without one |
| IsoReducedDates.WeekOfCurrentYearParses | Sources/SwiftDate/Formatters/ISOParser.swift:706-715 | a whole `-Www` or `-Www-D`: week `ww` of the clock's year on weekday `D` (0 without one), `invalid` past 7 |
| IsoReducedDates.WeekdayShorthandParses | Sources/SwiftDate/Formatters/ISOParser.swift:694-719 | a whole `-W-D`: lenient, day `D` of week 1 of the clock's year; strict, week 0 on weekday `D`, `invalid` past 7 |
| IsoReducedDates.StrictDecadeYearSkipsACharacter | Sources/SwiftDate/Formatters/ISOParser.swift:566-578 | strict, with the clock in 2026: `-2W21` yields nothing, while `-2WW21` yields the year 2022 alone (month 0, day 0) in UTC |
| IsoReducedDates.NothingAfterALetter | Sources/SwiftDate/Formatters/ISOParser.swift:273-281 | a `W` where the time would start: no time of day and no offset are read |
| IsoReducedDates.CenturyDateParses | Sources/SwiftDate/Formatters/ISOParser.swift:461-497 | a whole `-YY-MM-DD`: year `YY` of the clock's century, month `MM` and day `DD`, a 0 read as 1 |
| IsoReducedDates.CenturyWeekParses | Sources/SwiftDate/Formatters/ISOParser.swift:461-497 | a whole `-YY-Www-D`: year `YY` of the clock's century, week `ww`, weekday `D`, `invalid` past 7 |
| IsoReducedDates.TwoDigitYearDateParses | Sources/SwiftDate/Formatters/ISOParser.swift:504-545 | a whole `YY-MM` or `YY-MM-DD`: year `YY` of the clock's century, month `MM`, day `DD` or 1 |
| IsoReducedDates.TwoDigitYearBasicDateParses | Sources/SwiftDate/Formatters/ISOParser.swift:504-545 | a whole `YY-MMDD`: year `YY` of the clock's century, month `MM`, day `DD` |
| IsoReducedDates.TwoDigitYearOrdinalParses | Sources/SwiftDate/Formatters/ISOParser.swift:504-545 | a whole `YY-DDD`: day `DDD` of year `YY` of the clock's century as an ordinal date, strict or not, with no check against the length of the year |
| IsoReducedDates.TwoDigitYearWeekParses | Sources/SwiftDate/Formatters/ISOParser.swift:504-555 | a whole `YYWww-D`: year `YY` of the clock's century, week `ww`, weekday `D`, `invalid` past 7 |

## Behaviour of the source kept as written

- `YYYYMMDDTHHMMSS`: when the input holds no `:`, the time after `T` is read
  as `HHMM` and the seconds are left unread (`BasicTimeIgnoresSeconds`).
- `YYYY-Www` without a weekday: `parseWeekday` reads an empty run as weekday
  0. The date projects to the Sunday before the week's Monday
  (`WeekWithoutWeekdayIsSundayBefore`).
- `parse_digits_3` refuses three or more hyphens only in lenient mode, so
  strict mode accepts `---DDD` (`StrictAcceptsManyHyphenOrdinal`).
- `parse_digits_5` (`YYDDD`) has no day-of-year check, even in strict mode
  (`StrictTwoDigitYearOrdinalUnchecked`).
- In the hyphen-count-1 arm of `parse_digits_0`, the `current() == "W"`
  test always holds, because the guard at the start of the function checked
  it. Its `parseDayAfterWeek()` arm is never taken.
- Strict `parse_digits_1` steps over the scalar after the optional `-`
  before it tests for `W`. So `-YWww` is refused, while `-YWW…` is accepted
  as a year of the current decade alone, the rest left unread
  (`StrictDecadeYearSkipsACharacter`).
- `YY-DDD` has no day-of-year check either, even in strict mode
  (`TwoDigitYearOrdinalParses`).
- Strict `-W-D` is not day `D` of week 1, as it is leniently, but week 0
  with weekday `D` (`WeekdayShorthandParses`).
- The year 0000 is accepted, but the legacy weekday of its 1 January is
  computed from the previous year -1 with truncating `%` and comes out as -1,
  where the Gregorian calendar gives a Saturday. So `0000-W01-1` yields
  2 January 0000, one day before the ISO Monday of week 1
  (`YearZeroWeekDateIsOneDayEarly`).

## Left out

- Floating point: `TimeInterval` values are exact `real`s. Rounding of
  `Double(raw)`, and the `Double.ulpOfOne` test applied to a rounded
  fraction, are modelled on exact values.
- `Int(Double)` traps when the value does not fit an `Int`. This can
  happen: `read_double` has no digit cap, so `T12:` followed by twenty
  digits makes a minute beyond `Int.max`, and the conversion of the minute
  to `DateComponents` traps. The model's `Trunc` never traps; the trap is
  not modelled.
- Runtime traps of `string.index(_:offsetBy:)`: they are left out.
  - The model's `next` does not move at the end of the input, so the trap at
    `cIdx == eIdx` (reachable only in strict `parse_digits_1`) is not
    modelled.
  - The model's `seek` requires its target to be within the string. Its only
    caller guarantees this.
- Negative offsets of `next`/`seek` are not modelled; the source never uses
  them.
- `TimeZone(secondsFromGMT:)` and `TimeZone(abbreviation: "UTC")` are
  Foundation calls. The zone is kept as `UTC` or as the raw offset in
  seconds, and the range check `TimeZone` applies is left out.
- `Calendar.date(from:)`: `parsedDate` and the private `dateInTimezone`
  getter are left out. The model stops at the `DateComponents` and the zone
  handed to the calendar.
- The clock: `Date()` and `srcCalendar.dateComponents` become the
  `Reference` parameter.
- Trimming of whitespace and newlines before parsing is left out. The input
  is taken as already trimmed, and the empty string yields no parser.
- `CharacterSet.whitespaces` is written out as a fixed set of scalars.
- The static wrappers `ISOParser.date(from:)` and
  `ISOParser.parse(_:region:options:)` are left out, as is `DateInRegion`.
  They only forward to the initialiser.
- `Int` is 64 bits: values beyond `Int.max` are modelled only where
  `Int(raw_value)` refuses them. Arithmetic overflow elsewhere (a year near
  `Int.max` times 100, say) is not modelled.
- ShortReadsNeverThrow: the never-throws guarantee is stated only for
  `read_int(2)`, the form every time-of-day and offset read takes. Longer
  reads can throw `notDigit`, as `ReadIntAt` states.
