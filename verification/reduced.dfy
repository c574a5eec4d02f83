/**
 * Dates with a part left implicit: the year of the clock reading, a
 * two-digit year in the current century, and the short week forms. Each
 * lemma takes a whole input and says what the date part of `parse()` makes
 * of it.
 */
module IsoReducedDates {
  import opened IsoTypes
  import opened IsoCalendar
  import opened IsoScanning
  import opened IsoGrammar
  import opened IsoProperties

  // ---------------------------------------------------------------------
  // Reading the pieces

  /** The `k` digits of `v`, cut where the scan stops, are the number written there. */
  lemma NumberOfDigits(s: seq<char>, i: nat, v: nat, k: nat, cap: Option<nat>)
    requires 1 <= k <= 18 && v < Pow10(k) && i + k <= |s|
    requires s[i..i + k] == DigitsOf(v, k)
    requires cap.None? || k <= cap.value
    requires i + k == |s| || !IsDigit(s[i + k]) || (cap.Some? && k == cap.value)
    ensures DigitAt(s, i)
    ensures NumberAt(s, i, cap) == v && NumberEnd(s, i, cap) == i + k
  {
    assert s[i] == DigitsOf(v, k)[0];
    ReadIntOfDigits(s, i, v, k, cap);
  }

  /** Past `k` leading hyphens, a first run of `c` digits worth `n`: the branch that run length picks, at the end of the run. */
  lemma FirstRun(e: Env, d0: ParsedDate, k: nat, c: nat, n: nat)
    requires e.hyphens == k && Run(e.s, 0, '-') == k && k + c <= |e.s|
    requires ReadIntAt(e.s, k, None) == Success(IntToken(c, n, k + c))
    requires '-' in e.s && At(e.s, 0) != Some('T')
    ensures ParseDate(e, State(0, d0)) == Dispatch(e, State(k + c, d0), c, n)
  {
    assert !IsTimeOnly(e.s);
    assert DateWithoutT(e, State(0, d0)) == FirstDigitRun(e, State(k, d0));
  }

  // ---------------------------------------------------------------------
  // No year: the clock's

  /** `--MM`, or `--MM-DD`: that month of the clock's year, on that day or on the first. */
  lemma MonthOfCurrentYearParses(e: Env, m: nat, day: Option<nat>)
    requires m < 100 && (day.Some? ==> day.value < 100)
    requires e.s == "--" + DigitsOf(m, 2) + (if day.Some? then "-" + DigitsOf(day.value, 2) else [])
    requires e.hyphens == Run(e.s, 0, '-')
    ensures e.hyphens == 2
    ensures ParseDate(e, State(0, InitialDate))
         == Success(State(|e.s|, InitialDate.(year := e.now.year, monthOrWeek := m,
                                              day := if day.Some? then day.value else 1)))
  {
    MonthOfCurrentYearShape(e.s, m, day);
    MonthOfCurrentYearSteps(e, m, day);
  }

  /** Where the pieces of `--MM[-DD]` stand. */
  lemma MonthOfCurrentYearShape(s: seq<char>, m: nat, day: Option<nat>)
    requires m < 100 && (day.Some? ==> day.value < 100)
    requires s == "--" + DigitsOf(m, 2) + (if day.Some? then "-" + DigitsOf(day.value, 2) else [])
    ensures |s| == if day.Some? then 7 else 4
    ensures Run(s, 0, '-') == 2 && s[0] == '-' && ReadIntAt(s, 2, None) == Success(IntToken(2, m, 4))
    ensures day.Some? ==> s[4] == '-' && NumberAt(s, 5, Some(2)) == day.value && NumberEnd(s, 5, Some(2)) == 7
  {
    assert s[0] == '-' && s[1] == '-' && s[2..4] == DigitsOf(m, 2);
    ReadIntOfDigits(s, 2, m, 2, None);
    assert Run(s, 1, '-') == 1;
    if day.Some? {
      assert s[4] == '-' && s[5..7] == DigitsOf(day.value, 2);
      NumberOfDigits(s, 5, day.value, 2, Some(2));
    }
  }

  /** `--`, the month `m` read at 2, then `-` and the day read at 5, or the end: the steps of the parse. */
  lemma MonthOfCurrentYearSteps(e: Env, m: nat, day: Option<nat>)
    requires e.hyphens == 2 && Run(e.s, 0, '-') == 2 && |e.s| == (if day.Some? then 7 else 4) && e.s[0] == '-'
    requires ReadIntAt(e.s, 2, None) == Success(IntToken(2, m, 4))
    requires day.Some? ==> e.s[4] == '-' && NumberAt(e.s, 5, Some(2)) == day.value && NumberEnd(e.s, 5, Some(2)) == 7
    ensures ParseDate(e, State(0, InitialDate))
         == Success(State(|e.s|, InitialDate.(year := e.now.year, monthOrWeek := m,
                                              day := if day.Some? then day.value else 1)))
  {
    assert e.s[0] in e.s;
    FirstRun(e, InitialDate, 2, 2, m);
    assert ParseDate(e, State(0, InitialDate)) == Digits2Hyphens2(e, State(4, InitialDate), m);
  }

  /** `-Www`, or `-Www-D`: week `ww` of the clock's year on weekday `D` (0 when none is written), refused past 7. */
  lemma WeekOfCurrentYearParses(e: Env, w: nat, weekday: Option<nat>)
    requires w < 100 && (weekday.Some? ==> weekday.value < 10)
    requires e.s == "-W" + DigitsOf(w, 2) + (if weekday.Some? then "-" + DigitsOf(weekday.value, 1) else [])
    requires e.hyphens == Run(e.s, 0, '-')
    ensures e.hyphens == 1
    ensures var wd := if weekday.Some? then weekday.value else 0;
      ParseDate(e, State(0, InitialDate))
      == if wd <= 7 then Success(State(|e.s|, InitialDate.(year := e.now.year, monthOrWeek := w, style := Week, weekday := Some(wd))))
         else Failure(Invalid)
  {
    WeekOfCurrentYearShape(e.s, w, weekday);
    WeekOfCurrentYearSteps(e, w, if weekday.Some? then weekday.value else 0);
  }

  /** Where the pieces of `-Www[-D]` stand. */
  lemma WeekOfCurrentYearShape(s: seq<char>, w: nat, weekday: Option<nat>)
    requires w < 100 && (weekday.Some? ==> weekday.value < 10)
    requires s == "-W" + DigitsOf(w, 2) + (if weekday.Some? then "-" + DigitsOf(weekday.value, 1) else [])
    ensures Run(s, 0, '-') == 1 && 4 <= |s| && s[0] == '-' && s[1] == 'W' && s[2] != '-'
    ensures NumberAt(s, 2, Some(2)) == w && NumberEnd(s, 2, Some(2)) == 4
    ensures var j := Skip(s, 4, '-');
      NumberAt(s, j, None) == (if weekday.Some? then weekday.value else 0) && NumberEnd(s, j, None) == |s|
  {
    assert s[0] == '-' && s[1] == 'W' && s[2..4] == DigitsOf(w, 2);
    NumberOfDigits(s, 2, w, 2, Some(2));
    assert Run(s, 1, '-') == 0;
    if weekday.Some? {
      assert s[4] == '-' && s[5..6] == DigitsOf(weekday.value, 1);
      NumberOfDigits(s, 5, weekday.value, 1, None);
    } else {
      assert NumberAt(s, 4, None) == 0 && NumberEnd(s, 4, None) == 4;
    }
  }

  /** `-W`, the week `w` read at 2, then an optional `-` and the weekday `wd` that ends the input: the steps of the parse. */
  lemma WeekOfCurrentYearSteps(e: Env, w: nat, wd: nat)
    requires wd < 10
    requires e.hyphens == 1 && Run(e.s, 0, '-') == 1 && 4 <= |e.s| && e.s[0] == '-' && e.s[1] == 'W' && e.s[2] != '-'
    requires NumberAt(e.s, 2, Some(2)) == w && NumberEnd(e.s, 2, Some(2)) == 4
    requires var j := Skip(e.s, 4, '-'); NumberAt(e.s, j, None) == wd && NumberEnd(e.s, j, None) == |e.s|
    ensures ParseDate(e, State(0, InitialDate))
         == if wd <= 7 then Success(State(|e.s|, InitialDate.(year := e.now.year, monthOrWeek := w, style := Week, weekday := Some(wd))))
            else Failure(Invalid)
  {
    assert e.s[0] in e.s;
    assert ReadIntAt(e.s, 1, None) == Success(IntToken(0, 0, 1));
    FirstRun(e, InitialDate, 1, 0, 0);
    assert !LenientWeekDay(e, 1);
    assert ParseDate(e, State(0, InitialDate)) == WeekThenWeekday(e, State(2, InitialDate.(year := e.now.year)));
  }

  /**
   * `-W-D`: leniently day `D` of the first week of the clock's year; strictly
   * week 0 on weekday `D`, refused past 7.
   */
  lemma WeekdayShorthandParses(e: Env, wd: nat)
    requires wd < 10
    requires e.s == "-W-" + DigitsOf(wd, 1) && e.hyphens == Run(e.s, 0, '-')
    ensures e.hyphens == 1
    ensures ParseDate(e, State(0, InitialDate))
         == if !e.options.strict then Success(State(4, InitialDate.(year := e.now.year, monthOrWeek := 1, day := wd, style := Week)))
            else if wd <= 7 then Success(State(4, InitialDate.(year := e.now.year, monthOrWeek := 0, style := Week, weekday := Some(wd))))
            else Failure(Invalid)
  {
    var s := e.s;
    assert s[0] == '-' && s[1] == 'W' && s[2] == '-' && s[3..4] == DigitsOf(wd, 1);
    NumberOfDigits(s, 3, wd, 1, Some(2));
    NumberOfDigits(s, 3, wd, 1, None);
    assert Run(s, 1, '-') == 0;
    assert ReadIntAt(s, 1, None) == Success(IntToken(0, 0, 1));
    FirstRun(e, InitialDate, 1, 0, 0);
    assert NumberAt(s, 2, Some(2)) == 0 && NumberEnd(s, 2, Some(2)) == 2;
  }

  // ---------------------------------------------------------------------
  // A year of the current decade

  /**
   * Strictly, `-Y` steps over the character after the year (and an optional
   * `-`) before it looks for `W`: `-YWww` is refused, while `-YWW…` is taken
   * as that year of the current decade and nothing else, the rest unread.
   */
  lemma StrictDecadeYearSkipsACharacter()
    ensures Iso8601("-2W21", MakeOptions(true), Reference(2026, 10, 11)).None?
    ensures Iso8601("-2WW21", MakeOptions(true), Reference(2026, 10, 11))
         == Some(Parsed(Components(2022, Some(0), 0, 0, 0, 0, 0), UTC))
  {
    var now := Reference(2026, 10, 11);
    var e1 := InputEnv("-2W21", MakeOptions(true), now);
    StrictDecadeYearSteps(e1);
    var e2 := InputEnv("-2WW21", MakeOptions(true), now);
    StrictDecadeYearSteps(e2);
    var d := InitialDate.(year := 2022);
    assert Rem(2026, 10) == 6;
    assert ParseDate(e2, State(0, InitialDate)) == Success(State(3, d));
    assert e2.s[3] == 'W';
    NothingAfterALetter(e2, State(3, d));
  }

  /** At a `W`, neither `T`, a space nor a digit: `parse()` reads no time of day and no offset. */
  lemma NothingAfterALetter(e: Env, st: State)
    requires st.i < |e.s| && e.s[st.i] == 'W'
    ensures TimeAndZone(e, st) == Success(st)
  {
    assert !SpaceAt(e.s, st.i) && !DigitAt(e.s, st.i);
  }

  /** `-2` and one more character, strictly: the year of the current decade ending in 2 when `W` comes next. */
  lemma StrictDecadeYearSteps(e: Env)
    requires e.options.strict && 5 <= |e.s| && e.s[..3] == "-2W" && e.s[3..] in {"21", "W21"}
    requires e.hyphens == Run(e.s, 0, '-')
    ensures ParseDate(e, State(0, InitialDate))
         == if e.s[3] == 'W' then Success(State(3, InitialDate.(year := e.now.year - Rem(e.now.year, 10) + 2)))
            else Failure(Invalid)
  {
    var s := e.s;
    assert s[0] == '-' && s[1] == '2' && s[2] == 'W' && Run(s, 1, '-') == 0;
    NumberOfDigits(s, 1, 2, 1, None);
    assert s[0] in s;
    FirstRun(e, InitialDate, 1, 1, 2);
  }

  // ---------------------------------------------------------------------
  // A year of the current century after one hyphen

  /** `-YY-MM-DD`: that year of the current century, with a month or a day of 0 read as 1. */
  lemma CenturyDateParses(e: Env, yy: nat, m: nat, d: nat)
    requires yy < 100 && m < 100 && d < 100
    requires e.s == "-" + DigitsOf(yy, 2) + "-" + DigitsOf(m, 2) + "-" + DigitsOf(d, 2)
    requires e.hyphens == Run(e.s, 0, '-')
    ensures e.hyphens == 1
    ensures ParseDate(e, State(0, InitialDate))
         == Success(State(9, InitialDate.(year := CenturyStart(e.now) + yy, monthOrWeek := if m == 0 then 1 else m,
                                          day := if d == 0 then 1 else d)))
  {
    CenturyDateShape(e.s, yy, m, d);
    CenturyDateSteps(e, yy, m, d);
  }

  /** `-YY-Www-D`: that year of the current century, week `ww`, weekday `D`, refused past 7. */
  lemma CenturyWeekParses(e: Env, yy: nat, w: nat, wd: nat)
    requires yy < 100 && w < 100 && wd < 10
    requires e.s == "-" + DigitsOf(yy, 2) + "-W" + DigitsOf(w, 2) + "-" + DigitsOf(wd, 1)
    requires e.hyphens == Run(e.s, 0, '-')
    ensures e.hyphens == 1
    ensures ParseDate(e, State(0, InitialDate))
         == if wd <= 7 then Success(State(9, InitialDate.(year := CenturyStart(e.now) + yy, monthOrWeek := w,
                                                          style := Week, weekday := Some(wd))))
            else Failure(Invalid)
  {
    CenturyWeekShape(e.s, yy, w, wd);
    CenturyWeekSteps(e, yy, w, wd);
  }

  /** Where the pieces of `-YY-MM-DD` stand. */
  lemma CenturyDateShape(s: seq<char>, yy: nat, m: nat, d: nat)
    requires yy < 100 && m < 100 && d < 100
    requires s == "-" + DigitsOf(yy, 2) + "-" + DigitsOf(m, 2) + "-" + DigitsOf(d, 2)
    ensures |s| == 9 && Run(s, 0, '-') == 1 && s[0] == '-' && s[3] == '-' && s[4] != 'W' && s[6] == '-'
    ensures ReadIntAt(s, 1, None) == Success(IntToken(2, yy, 3))
    ensures NumberAt(s, 4, Some(2)) == m && NumberEnd(s, 4, Some(2)) == 6
    ensures NumberAt(s, 7, None) == d && NumberEnd(s, 7, None) == 9
  {
    assert s[1..3] == DigitsOf(yy, 2) && s[4..6] == DigitsOf(m, 2) && s[7..9] == DigitsOf(d, 2);
    NumberOfDigits(s, 1, yy, 2, None);
    NumberOfDigits(s, 4, m, 2, Some(2));
    NumberOfDigits(s, 7, d, 2, None);
    assert Run(s, 1, '-') == 0;
  }

  /** Where the pieces of `-YY-Www-D` stand. */
  lemma CenturyWeekShape(s: seq<char>, yy: nat, w: nat, wd: nat)
    requires yy < 100 && w < 100 && wd < 10
    requires s == "-" + DigitsOf(yy, 2) + "-W" + DigitsOf(w, 2) + "-" + DigitsOf(wd, 1)
    ensures |s| == 9 && Run(s, 0, '-') == 1 && s[0] == '-' && s[3] == '-' && s[4] == 'W' && s[7] == '-'
    ensures ReadIntAt(s, 1, None) == Success(IntToken(2, yy, 3))
    ensures NumberAt(s, 5, Some(2)) == w && NumberEnd(s, 5, Some(2)) == 7
    ensures NumberAt(s, 8, None) == wd && NumberEnd(s, 8, None) == 9
  {
    assert s[1..3] == DigitsOf(yy, 2) && s[5..7] == DigitsOf(w, 2) && s[8..9] == DigitsOf(wd, 1);
    NumberOfDigits(s, 1, yy, 2, None);
    NumberOfDigits(s, 5, w, 2, Some(2));
    NumberOfDigits(s, 8, wd, 1, None);
    assert Run(s, 1, '-') == 0;
  }

  /** `-YY-`: that year of the current century, and what follows the second hyphen. */
  lemma CenturyPrefixSteps(e: Env, yy: nat)
    requires e.hyphens == 1 && Run(e.s, 0, '-') == 1 && 4 < |e.s| && e.s[0] == '-' && e.s[3] == '-'
    requires ReadIntAt(e.s, 1, None) == Success(IntToken(2, yy, 3))
    ensures ParseDate(e, State(0, InitialDate)) == MonthOrWeek(e, State(4, InitialDate.(year := CenturyStart(e.now) + yy)))
  {
    assert e.s[0] in e.s;
    FirstRun(e, InitialDate, 1, 2, yy);
    assert ImplicitYear(e.now, 2, yy) == CenturyStart(e.now) + yy;
  }

  /** `-YY-`, the month `m` read at 4, `-` and the day `d` that ends the input: the steps of the parse. */
  lemma CenturyDateSteps(e: Env, yy: nat, m: nat, d: nat)
    requires e.hyphens == 1 && Run(e.s, 0, '-') == 1 && |e.s| == 9 && e.s[0] == '-' && e.s[3] == '-' && e.s[4] != 'W' && e.s[6] == '-'
    requires ReadIntAt(e.s, 1, None) == Success(IntToken(2, yy, 3))
    requires NumberAt(e.s, 4, Some(2)) == m && NumberEnd(e.s, 4, Some(2)) == 6
    requires NumberAt(e.s, 7, None) == d < 100 && NumberEnd(e.s, 7, None) == 9
    ensures ParseDate(e, State(0, InitialDate))
         == Success(State(9, InitialDate.(year := CenturyStart(e.now) + yy, monthOrWeek := if m == 0 then 1 else m,
                                          day := if d == 0 then 1 else d)))
  {
    CenturyPrefixSteps(e, yy);
    var d1 := InitialDate.(year := CenturyStart(e.now) + yy, monthOrWeek := m);
    assert MonthOrWeek(e, State(4, InitialDate.(year := CenturyStart(e.now) + yy))) == DayOrWeekday(e, State(7, d1));
  }

  /** `-YY-W`, the week `w` read at 5, `-` and the weekday `wd` that ends the input: the steps of the parse. */
  lemma CenturyWeekSteps(e: Env, yy: nat, w: nat, wd: nat)
    requires e.hyphens == 1 && Run(e.s, 0, '-') == 1 && |e.s| == 9 && e.s[0] == '-' && e.s[3] == '-' && e.s[4] == 'W' && e.s[7] == '-'
    requires ReadIntAt(e.s, 1, None) == Success(IntToken(2, yy, 3))
    requires NumberAt(e.s, 5, Some(2)) == w && NumberEnd(e.s, 5, Some(2)) == 7
    requires NumberAt(e.s, 8, None) == wd < 10 && NumberEnd(e.s, 8, None) == 9
    ensures ParseDate(e, State(0, InitialDate))
         == if wd <= 7 then Success(State(9, InitialDate.(year := CenturyStart(e.now) + yy, monthOrWeek := w,
                                                          style := Week, weekday := Some(wd))))
            else Failure(Invalid)
  {
    CenturyPrefixSteps(e, yy);
    var d1 := InitialDate.(year := CenturyStart(e.now) + yy, style := Week, monthOrWeek := w);
    assert MonthOrWeek(e, State(4, InitialDate.(year := CenturyStart(e.now) + yy))) == DayOrWeekday(e, State(8, d1));
  }

  // ---------------------------------------------------------------------
  // A year of the current century with no hyphen before it

  /** `YY` and then `-` or `W`, with no hyphen before it: that year of the current century, and the branch taken. */
  lemma TwoDigitYearSteps(e: Env, yy: nat)
    requires e.hyphens == 0 && Run(e.s, 0, '-') == 0 && 3 < |e.s| && '-' in e.s
    requires ReadIntAt(e.s, 0, None) == Success(IntToken(2, yy, 2))
    ensures var dated := InitialDate.(year := CenturyStart(e.now) + yy);
      && (e.s[2] == '-' ==> ParseDate(e, State(0, InitialDate)) == Digits2AfterHyphen(e, State(3, dated), yy))
      && (e.s[2] == 'W' ==> ParseDate(e, State(0, InitialDate)) == WeekAndDay(e, State(2, dated)))
  {
    assert IsDigit(e.s[0]);
    FirstRun(e, InitialDate, 0, 2, yy);
  }

  /** `YY-MM`, or `YY-MM-DD`: that year of the current century and month, on that day or on the first. */
  lemma TwoDigitYearDateParses(e: Env, yy: nat, m: nat, day: Option<nat>)
    requires yy < 100 && m < 100 && (day.Some? ==> day.value < 100)
    requires e.s == DigitsOf(yy, 2) + "-" + DigitsOf(m, 2) + (if day.Some? then "-" + DigitsOf(day.value, 2) else [])
    requires e.hyphens == Run(e.s, 0, '-')
    ensures e.hyphens == 0
    ensures ParseDate(e, State(0, InitialDate))
         == Success(State(|e.s|, InitialDate.(year := CenturyStart(e.now) + yy, monthOrWeek := m,
                                              day := if day.Some? then day.value else 1)))
  {
    TwoDigitYearDateShape(e.s, yy, m, day);
    TwoDigitYearDateSteps(e, yy, m, day);
  }

  /** Where the pieces of `YY-MM[-DD]` stand. */
  lemma TwoDigitYearDateShape(s: seq<char>, yy: nat, m: nat, day: Option<nat>)
    requires yy < 100 && m < 100 && (day.Some? ==> day.value < 100)
    requires s == DigitsOf(yy, 2) + "-" + DigitsOf(m, 2) + (if day.Some? then "-" + DigitsOf(day.value, 2) else [])
    ensures |s| == (if day.Some? then 8 else 5) && Run(s, 0, '-') == 0 && s[2] == '-'
    ensures ReadIntAt(s, 0, None) == Success(IntToken(2, yy, 2))
    ensures DigitAt(s, 3) && NumberAt(s, 3, None) == m && NumberEnd(s, 3, None) == 5
    ensures day.Some? ==> s[5] == '-' && DigitAt(s, 6) && NumberAt(s, 6, Some(2)) == day.value && NumberEnd(s, 6, Some(2)) == 8
  {
    assert s[0..2] == DigitsOf(yy, 2) && s[2] == '-' && s[3..5] == DigitsOf(m, 2);
    NumberOfDigits(s, 0, yy, 2, None);
    NumberOfDigits(s, 3, m, 2, None);
    if day.Some? {
      assert s[5] == '-' && s[6..8] == DigitsOf(day.value, 2);
      NumberOfDigits(s, 6, day.value, 2, Some(2));
    }
  }

  /** `YY-`, the month `m` read at 3, then `-` and the day read at 6, or the end: the steps of the parse. */
  lemma TwoDigitYearDateSteps(e: Env, yy: nat, m: nat, day: Option<nat>)
    requires e.hyphens == 0 && Run(e.s, 0, '-') == 0 && |e.s| == (if day.Some? then 8 else 5) && e.s[2] == '-'
    requires ReadIntAt(e.s, 0, None) == Success(IntToken(2, yy, 2))
    requires DigitAt(e.s, 3) && NumberAt(e.s, 3, None) == m && NumberEnd(e.s, 3, None) == 5
    requires day.Some? ==> e.s[5] == '-' && DigitAt(e.s, 6) && NumberAt(e.s, 6, Some(2)) == day.value && NumberEnd(e.s, 6, Some(2)) == 8
    ensures ParseDate(e, State(0, InitialDate))
         == Success(State(|e.s|, InitialDate.(year := CenturyStart(e.now) + yy, monthOrWeek := m,
                                              day := if day.Some? then day.value else 1)))
  {
    assert e.s[2] in e.s;
    TwoDigitYearSteps(e, yy);
  }

  /** `YY-MMDD`: that year of the current century, month and day. */
  lemma TwoDigitYearBasicDateParses(e: Env, yy: nat, m: nat, d: nat)
    requires yy < 100 && m < 100 && d < 100
    requires e.s == DigitsOf(yy, 2) + "-" + (DigitsOf(m, 2) + DigitsOf(d, 2))
    requires e.hyphens == Run(e.s, 0, '-')
    ensures e.hyphens == 0
    ensures ParseDate(e, State(0, InitialDate))
         == Success(State(7, InitialDate.(year := CenturyStart(e.now) + yy, monthOrWeek := m, day := d)))
  {
    TwoDigitYearBasicDateShape(e.s, yy, m, d);
    TwoDigitYearBasicDateSteps(e, yy, m, d);
  }

  /** The four digits of `MMDD` read as one number. */
  lemma MonthDayValue(m: nat, d: nat)
    requires m < 100 && d < 100
    ensures forall k :: 0 <= k < 4 ==> IsDigit((DigitsOf(m, 2) + DigitsOf(d, 2))[k])
    ensures DecimalValue(DigitsOf(m, 2) + DigitsOf(d, 2)) == m * 100 + d
  {
    assert Pow10(2) == 100;
    DecimalValueConcat(DigitsOf(m, 2), DigitsOf(d, 2));
    DigitsOfRoundTrip(m, 2);
    DigitsOfRoundTrip(d, 2);
  }

  /** Where the pieces of `YY-MMDD` stand. */
  lemma TwoDigitYearBasicDateShape(s: seq<char>, yy: nat, m: nat, d: nat)
    requires yy < 100 && m < 100 && d < 100
    requires s == DigitsOf(yy, 2) + "-" + (DigitsOf(m, 2) + DigitsOf(d, 2))
    ensures |s| == 7 && Run(s, 0, '-') == 0 && s[2] == '-'
    ensures ReadIntAt(s, 0, None) == Success(IntToken(2, yy, 2))
    ensures DigitAt(s, 3) && DigitRun(s, 3, None) == 4
    ensures NumberAt(s, 3, None) / 100 == m && NumberAt(s, 3, None) % 100 == d
  {
    var md := DigitsOf(m, 2) + DigitsOf(d, 2);
    assert s[0..2] == DigitsOf(yy, 2) && s[2] == '-' && s[3..7] == md;
    NumberOfDigits(s, 0, yy, 2, None);
    MonthDayValue(m, d);
    assert forall k :: 3 <= k < 7 ==> IsDigit(s[k]) by {
      assert forall k :: 3 <= k < 7 ==> s[k] == md[k - 3];
    }
    ReadIntOfRun(s, 3, 4, None);
    assert NumberAt(s, 3, None) == m * 100 + d;
  }

  /** `YY-` and a run of four digits that ends the input: its hundreds are the month, the rest the day. */
  lemma TwoDigitYearBasicDateSteps(e: Env, yy: nat, m: nat, d: nat)
    requires e.hyphens == 0 && Run(e.s, 0, '-') == 0 && |e.s| == 7 && e.s[2] == '-'
    requires ReadIntAt(e.s, 0, None) == Success(IntToken(2, yy, 2))
    requires DigitAt(e.s, 3) && DigitRun(e.s, 3, None) == 4
    requires NumberAt(e.s, 3, None) / 100 == m && NumberAt(e.s, 3, None) % 100 == d
    ensures ParseDate(e, State(0, InitialDate))
         == Success(State(7, InitialDate.(year := CenturyStart(e.now) + yy, monthOrWeek := m, day := d)))
  {
    assert e.s[2] in e.s;
    TwoDigitYearSteps(e, yy);
  }

  /** `YY-DDD`: day `DDD` of that year of the current century, strict or not, however late in the year. */
  lemma TwoDigitYearOrdinalParses(e: Env, yy: nat, d: nat)
    requires yy < 100 && d < 1000
    requires e.s == DigitsOf(yy, 2) + "-" + DigitsOf(d, 3)
    requires e.hyphens == Run(e.s, 0, '-')
    ensures e.hyphens == 0
    ensures ParseDate(e, State(0, InitialDate))
         == Success(State(6, InitialDate.(year := CenturyStart(e.now) + yy, day := d, style := DateOnly)))
  {
    TwoDigitYearOrdinalShape(e.s, yy, d);
    TwoDigitYearOrdinalSteps(e, yy, d);
  }

  /** Where the pieces of `YY-DDD` stand. */
  lemma TwoDigitYearOrdinalShape(s: seq<char>, yy: nat, d: nat)
    requires yy < 100 && d < 1000
    requires s == DigitsOf(yy, 2) + "-" + DigitsOf(d, 3)
    ensures |s| == 6 && Run(s, 0, '-') == 0 && s[2] == '-'
    ensures ReadIntAt(s, 0, None) == Success(IntToken(2, yy, 2))
    ensures DigitAt(s, 3) && NumberAt(s, 3, None) == d && NumberEnd(s, 3, None) == 6
  {
    assert s[0..2] == DigitsOf(yy, 2) && s[2] == '-' && s[3..6] == DigitsOf(d, 3);
    NumberOfDigits(s, 0, yy, 2, None);
    assert Pow10(3) == 1000;
    NumberOfDigits(s, 3, d, 3, None);
  }

  /** `YY-` and a run of three digits `d` that ends the input: an ordinal day. */
  lemma TwoDigitYearOrdinalSteps(e: Env, yy: nat, d: nat)
    requires e.hyphens == 0 && Run(e.s, 0, '-') == 0 && |e.s| == 6 && e.s[2] == '-'
    requires ReadIntAt(e.s, 0, None) == Success(IntToken(2, yy, 2))
    requires DigitAt(e.s, 3) && NumberAt(e.s, 3, None) == d && NumberEnd(e.s, 3, None) == 6
    ensures ParseDate(e, State(0, InitialDate))
         == Success(State(6, InitialDate.(year := CenturyStart(e.now) + yy, day := d, style := DateOnly)))
  {
    assert e.s[2] in e.s;
    TwoDigitYearSteps(e, yy);
  }

  /** `YYWww-D`: that year of the current century, week `ww`, weekday `D`, refused past 7. */
  lemma TwoDigitYearWeekParses(e: Env, yy: nat, w: nat, wd: nat)
    requires yy < 100 && w < 100 && wd < 10
    requires e.s == DigitsOf(yy, 2) + "W" + DigitsOf(w, 2) + "-" + DigitsOf(wd, 1)
    requires e.hyphens == Run(e.s, 0, '-')
    ensures e.hyphens == 0
    ensures ParseDate(e, State(0, InitialDate))
         == if wd <= 7 then Success(State(7, InitialDate.(year := CenturyStart(e.now) + yy, monthOrWeek := w,
                                                          style := Week, weekday := Some(wd))))
            else Failure(Invalid)
  {
    TwoDigitYearWeekShape(e.s, yy, w, wd);
    TwoDigitYearWeekSteps(e, yy, w, wd);
  }

  /** Where the pieces of `YYWww-D` stand. */
  lemma TwoDigitYearWeekShape(s: seq<char>, yy: nat, w: nat, wd: nat)
    requires yy < 100 && w < 100 && wd < 10
    requires s == DigitsOf(yy, 2) + "W" + DigitsOf(w, 2) + "-" + DigitsOf(wd, 1)
    ensures |s| == 7 && Run(s, 0, '-') == 0 && s[2] == 'W' && s[5] == '-'
    ensures ReadIntAt(s, 0, None) == Success(IntToken(2, yy, 2))
    ensures DigitAt(s, 3) && NumberAt(s, 3, Some(2)) == w && NumberEnd(s, 3, Some(2)) == 5
    ensures NumberAt(s, 6, None) == wd && NumberEnd(s, 6, None) == 7
  {
    assert s[0..2] == DigitsOf(yy, 2) && s[2] == 'W' && s[3..5] == DigitsOf(w, 2);
    assert s[5] == '-' && s[6..7] == DigitsOf(wd, 1);
    NumberOfDigits(s, 0, yy, 2, None);
    NumberOfDigits(s, 3, w, 2, Some(2));
    NumberOfDigits(s, 6, wd, 1, None);
  }

  /** `YYW`, the week `w` read at 3, `-` and the weekday `wd` that ends the input: the steps of the parse. */
  lemma TwoDigitYearWeekSteps(e: Env, yy: nat, w: nat, wd: nat)
    requires wd < 10
    requires e.hyphens == 0 && Run(e.s, 0, '-') == 0 && |e.s| == 7 && e.s[2] == 'W' && e.s[5] == '-'
    requires ReadIntAt(e.s, 0, None) == Success(IntToken(2, yy, 2))
    requires DigitAt(e.s, 3) && NumberAt(e.s, 3, Some(2)) == w && NumberEnd(e.s, 3, Some(2)) == 5
    requires NumberAt(e.s, 6, None) == wd && NumberEnd(e.s, 6, None) == 7
    ensures ParseDate(e, State(0, InitialDate))
         == if wd <= 7 then Success(State(7, InitialDate.(year := CenturyStart(e.now) + yy, monthOrWeek := w,
                                                          style := Week, weekday := Some(wd))))
            else Failure(Invalid)
  {
    assert e.s[5] in e.s;
    TwoDigitYearSteps(e, yy);
  }
}
