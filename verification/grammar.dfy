/**
 * Pure specification of `ISOParser.parse()` and of every `parse_digits_*`,
 * `parse_hyphens_*` and week helper it calls. Each branch is a function from
 * the parser state before the call, a cursor and the `ParsedDate`
 * accumulator, to the state after it, or to the error the branch throws.
 * The class in `parser.dfy` is proved to do exactly what these say.
 */
module IsoGrammar {
  import opened IsoTypes
  import opened IsoCalendar
  import opened IsoScanning

  /** What a parse cannot change: the scalars, the leading hyphen count, the options and the clock reading. */
  datatype Env = Env(s: seq<char>, hyphens: nat, options: Options, now: Reference)

  /** What a parse changes: the cursor `cIdx` and the accumulator `date`. */
  datatype State = State(i: nat, date: ParsedDate)

  predicate Within(e: Env, st: State)
  {
    st.i <= |e.s|
  }

  /** A step that succeeds leaves the cursor in the string, never behind where it was. */
  predicate Forward(e: Env, st: State, r: Result<State>)
  {
    r.Success? ==> st.i <= r.value.i <= |e.s|
  }

  /** `next()`. */
  function Advance(e: Env, st: State): (r: State)
    requires Within(e, st)
    ensures Within(e, r) && r.date == st.date
    ensures r.i == st.i + 1 <==> st.i + 1 < |e.s|
    ensures r.i != st.i + 1 ==> r.i == st.i
  {
    st.(i := Step(e.s, st.i, 1))
  }

  /** `if current() == c { next() }`. */
  function SkipIf(e: Env, st: State, c: char): (r: State)
    requires Within(e, st)
    ensures Within(e, r) && r.date == st.date
    ensures st.i <= r.i <= st.i + 1
    ensures r.i == st.i + 1 <==> At(e.s, st.i) == Some(c) && st.i + 1 < |e.s|
    ensures r.i == Skip(e.s, st.i, c)
  {
    if At(e.s, st.i) == Some(c) then Advance(e, st) else st
  }

  /** The year, month and day of the clock reading (`now_cmps`). */
  function FromReference(d: ParsedDate, now: Reference): ParsedDate
  {
    d.(year := now.year, monthOrWeek := now.month, day := now.day)
  }

  /** `now.year - now.year % 100`: the first year of the current century. */
  function CenturyStart(now: Reference): int
  {
    now.year - Rem(now.year, 100)
  }

  // ---------------------------------------------------------------------
  // Week helpers

  /** `parseWeekday()`: an optional `-`, then a weekday number of at most 7, which makes the date a week date. */
  function Weekday(e: Env, st: State): (r: Result<State>)
    requires Within(e, st)
    ensures Forward(e, st, r)
    ensures var j := Skip(e.s, st.i, '-');
      && (r.Success? <==> NumberAt(e.s, j, None) <= 7)
      && (r.Success? ==> r.value == State(NumberEnd(e.s, j, None), st.date.(style := Week, weekday := Some(NumberAt(e.s, j, None)))))
      && (r.Failure? ==> r.error == if NumberAt(e.s, j, None) <= IntMax then Invalid else NotDigit)
  {
    var st1 := SkipIf(e, st, '-');
    var t :- ReadIntAt(e.s, st1.i, None);
    if t.value > 7 then Failure(Invalid)
    else Success(State(t.end, st1.date.(style := Week, weekday := Some(t.value))))
  }

  /** `parseWeekAndDay()`: past the `W`, a week number of at most two digits and a weekday; `YYYY-W` alone is January 1 unless strict. */
  function WeekAndDay(e: Env, st: State): (r: Result<State>)
    requires Within(e, st)
    ensures Forward(e, st, r)
    ensures r.Success? && r.value.date.style != st.date.style ==> r.value.date.style == Week
    ensures r.Failure? ==> r.error in {NotDigit, Invalid}
    ensures var j := Step(e.s, st.i, 1);
      !DigitAt(e.s, j) ==> r == if e.options.strict then Failure(Invalid) else Success(State(j, st.date.(monthOrWeek := 1, day := 1)))
    ensures var j := Step(e.s, st.i, 1);
      DigitAt(e.s, j) ==>
        r == Weekday(e, State(NumberEnd(e.s, j, Some(2)), st.date.(monthOrWeek := NumberAt(e.s, j, Some(2)))))
  {
    var st1 := Advance(e, st);
    if !DigitAt(e.s, st1.i) then
      if e.options.strict then Failure(Invalid)
      else Success(st1.(date := st1.date.(monthOrWeek := 1, day := 1)))
    else
      ShortReadsNeverThrow(e.s, st1.i);
      var t := ReadIntAt(e.s, st1.i, Some(2)).value;
      Weekday(e, State(t.end, st1.date.(monthOrWeek := t.value)))
  }

  /** `parseDayAfterWeek()`: a day of at most two digits, 1 when there is none, in a week date. */
  function DayAfterWeek(e: Env, st: State): (r: Result<State>)
    requires Within(e, st)
    ensures Forward(e, st, r)
    ensures r.Success? && r.value.date.style == Week && 0 <= r.value.date.day < 100
    ensures DigitAt(e.s, st.i) ==>
      r.value == State(NumberEnd(e.s, st.i, Some(2)), st.date.(day := NumberAt(e.s, st.i, Some(2)), style := Week))
    ensures !DigitAt(e.s, st.i) ==> r.value == st.(date := st.date.(day := 1, style := Week))
  {
    if DigitAt(e.s, st.i) then
      ShortReadsNeverThrow(e.s, st.i);
      var t := ReadIntAt(e.s, st.i, Some(2)).value;
      Success(State(t.end, st.date.(day := t.value, style := Week)))
    else Success(st.(date := st.date.(day := 1, style := Week)))
  }

  /** `centuryOnly`: two digits name a century; the year within it is the current one. */
  function Century(e: Env, st: State, seg: nat): (r: State)
    ensures r.i == st.i && r.date.monthOrWeek == 1 && r.date.day == 1
    ensures r.date.year - seg * 100 == Rem(e.now.year, 100)
  {
    st.(date := st.date.(year := seg * 100 + Rem(e.now.year, 100), monthOrWeek := 1, day := 1))
  }

  // ---------------------------------------------------------------------
  // The branches on the length of the first digit run

  /** `parse_digits_0`: no digits, so `W` must follow: `-Www-D`, or `--W-D` and `-W-D` leniently. */
  function Digits0(e: Env, st: State): (r: Result<State>)
    requires Within(e, st)
    ensures Forward(e, st, r)
    ensures At(e.s, st.i) != Some('W') ==> r == Failure(Invalid)
    ensures e.hyphens != 1 && (e.hyphens != 2 || e.options.strict) ==> r == Failure(Invalid)
    ensures r.Success? ==> r.value.date.year == e.now.year && r.value.date.style == Week
    ensures LenientWeekDay(e, st.i) ==>
      var j := st.i + 2;
      r == Success(State(NumberEnd(e.s, j, Some(2)), st.date.(year := e.now.year, monthOrWeek := 1, day := NumberAt(e.s, j, Some(2)), style := Week)))
    ensures At(e.s, st.i) == Some('W') && e.hyphens == 1 && !LenientWeekDay(e, st.i) ==>
      r == WeekThenWeekday(e, State(Step(e.s, st.i, 1), st.date.(year := e.now.year)))
    ensures At(e.s, st.i) == Some('W') && e.hyphens != 1 && !LenientWeekDay(e, st.i) ==> r == Failure(Invalid)
  {
    if At(e.s, st.i) != Some('W') then Failure(Invalid)
    else if LenientWeekDay(e, st.i) then
      DayAfterWeek(e, State(Step(e.s, st.i, 2), st.date.(year := e.now.year, monthOrWeek := 1)))
    else if e.hyphens == 1 then
      // The `current() == "W"` test of the source holds here, so its other arm is never taken.
      WeekThenWeekday(e, State(Step(e.s, st.i, 1), st.date.(year := e.now.year)))
    else Failure(Invalid)
  }

  /** `W-D` after one or two hyphens, read leniently as a day of the first week. */
  predicate LenientWeekDay(e: Env, i: nat)
  {
    && At(e.s, i) == Some('W') && At(e.s, i + 1) == Some('-') && DigitAt(e.s, i + 2)
    && (e.hyphens == 1 || e.hyphens == 2) && !e.options.strict
  }

  /** Past the `W` of `-Www-D`: a week number of at most two digits, then the weekday. */
  function WeekThenWeekday(e: Env, st: State): (r: Result<State>)
    requires Within(e, st)
    ensures Forward(e, st, r)
    ensures r.Success? ==> r.value.date.year == st.date.year && r.value.date.style == Week
    ensures var j := Skip(e.s, NumberEnd(e.s, st.i, Some(2)), '-');
      && (r.Success? <==> NumberAt(e.s, j, None) <= 7)
      && (r.Success? ==>
            var d := st.date.(monthOrWeek := NumberAt(e.s, st.i, Some(2)), style := Week, weekday := Some(NumberAt(e.s, j, None)));
            r.value == State(NumberEnd(e.s, j, None), d))
      && (r.Failure? ==> r.error == if NumberAt(e.s, j, None) <= IntMax then Invalid else NotDigit)
  {
    ShortReadsNeverThrow(e.s, st.i);
    var t := ReadIntAt(e.s, st.i, Some(2)).value;
    Weekday(e, State(t.end, st.date.(monthOrWeek := t.value, style := Week)))
  }

  /** `parse_digits_1`: strictly, only `-Y-W…`, a year of the current decade; leniently as two digits. */
  function Digits1(e: Env, st: State, seg: nat): (r: Result<State>)
    requires Within(e, st)
    ensures Forward(e, st, r)
    ensures e.options.strict && e.hyphens != 1 ==> r == Failure(Invalid)
    ensures e.options.strict && r.Success? ==> r.value.date.year == e.now.year - Rem(e.now.year, 10) + seg
    ensures e.options.strict && e.hyphens == 1 ==>
      var j := Step(e.s, Skip(e.s, st.i, '-'), 1);
      r == if At(e.s, j) == Some('W') then Success(State(j, st.date.(year := e.now.year - Rem(e.now.year, 10) + seg))) else Failure(Invalid)
    ensures e.options.strict && r.Success? ==> At(e.s, r.value.i) == Some('W')
    ensures !e.options.strict ==> r == Digits2(e, st, 1, seg)
  {
    if e.options.strict then
      if e.hyphens != 1 then Failure(Invalid)
      else
        var st1 := Advance(e, SkipIf(e, st, '-'));
        if At(e.s, st1.i) != Some('W') then Failure(Invalid)
        else Success(st1.(date := st1.date.(year := e.now.year - Rem(e.now.year, 10) + seg)))
    else Digits2(e, st, 1, seg)
  }

  /** `parse_hyphens_3` of `parse_digits_2`: `---DD`, a day of the current month. */
  function Digits2Hyphens3(e: Env, st: State, seg: nat): (r: State)
    ensures r.i == st.i
    ensures r.date == FromReference(st.date, e.now).(day := seg)
  {
    st.(date := st.date.(year := e.now.year, monthOrWeek := e.now.month, day := seg))
  }

  /** `parse_hyphens_2` of `parse_digits_2`: `--MM` or `--MM-DD` in the current year. */
  function Digits2Hyphens2(e: Env, st: State, seg: nat): (r: Result<State>)
    requires Within(e, st)
    ensures Forward(e, st, r)
    ensures r.Success?
    ensures var d := st.date.(year := e.now.year, monthOrWeek := seg);
      At(e.s, st.i) != Some('-') ==> r.value == State(st.i, d.(day := 1))
    ensures var d := st.date.(year := e.now.year, monthOrWeek := seg); var j := Step(e.s, st.i, 1);
      At(e.s, st.i) == Some('-') ==> r.value == State(NumberEnd(e.s, j, Some(2)), d.(day := NumberAt(e.s, j, Some(2))))
  {
    var d := st.date.(year := e.now.year, monthOrWeek := seg);
    if At(e.s, st.i) == Some('-') then
      var st1 := Advance(e, State(st.i, d));
      ShortReadsNeverThrow(e.s, st1.i);
      var t := ReadIntAt(e.s, st1.i, Some(2)).value;
      Success(State(t.end, d.(day := t.value)))
    else Success(State(st.i, d.(day := 1)))
  }

  /** The year of `-YY` (`-Y` for a single digit): the century, or the decade, of the clock reading. */
  function ImplicitYear(now: Reference, count: nat, seg: nat): int
  {
    var century := Rem(now.year, 100);
    var year := seg + (now.year - century);
    if count == 1 then year + century - Rem(now.year, 10) else year
  }

  /** `parse_hyphens_1` of `parse_digits_2`: `-YY`, `-YY-MM[-DD]` or `-YY-Www[-D]` in an implicit century. */
  function Digits2Hyphens1(e: Env, st: State, count: nat, seg: nat): (r: Result<State>)
    requires Within(e, st)
    ensures Forward(e, st, r)
    ensures r.Success? && count == 1 ==> r.value.date.year == e.now.year - Rem(e.now.year, 10) + seg
    ensures r.Success? && count != 1 ==> r.value.date.year == CenturyStart(e.now) + seg
    ensures r.Success? && r.value.date.weekday != st.date.weekday ==>
      r.value.date.weekday.Some? && 0 <= r.value.date.weekday.value <= 7
    ensures var d := st.date.(year := ImplicitYear(e.now, count, seg));
      && (At(e.s, st.i) != Some('-') ==> r == Success(State(st.i, d.(monthOrWeek := 1, day := 1))))
      && (At(e.s, st.i) == Some('-') ==> r == MonthOrWeek(e, State(Step(e.s, st.i, 1), d)))
  {
    var st0 := st.(date := st.date.(year := ImplicitYear(e.now, count, seg)));
    if At(e.s, st0.i) == Some('-') then MonthOrWeek(e, Advance(e, st0))
    else Success(st0.(date := st0.date.(monthOrWeek := 1, day := 1)))
  }

  /** Past `-YY-`: a month, or `W` and a week, then a day or a weekday after another `-`, the day defaulting to 1. */
  function MonthOrWeek(e: Env, st: State): (r: Result<State>)
    requires Within(e, st)
    ensures Forward(e, st, r)
    ensures r.Success? ==> r.value.date.year == st.date.year
    ensures r.Success? && r.value.date.weekday != st.date.weekday ==>
      r.value.date.weekday.Some? && 0 <= r.value.date.weekday.value <= 7
    ensures var week := At(e.s, st.i) == Some('W');
      var j := if week then Step(e.s, st.i, 1) else st.i;
      var k := NumberEnd(e.s, j, Some(2));
      var d := st.date.(style := if week then Week else st.date.style, monthOrWeek := NumberAt(e.s, j, Some(2)));
      && (At(e.s, k) != Some('-') ==> r == Success(State(k, d.(day := 1))))
      && (At(e.s, k) == Some('-') ==> r == DayOrWeekday(e, State(Step(e.s, k, 1), d)))
  {
    var st1 := if At(e.s, st.i) == Some('W') then State(Step(e.s, st.i, 1), st.date.(style := Week)) else st;
    ShortReadsNeverThrow(e.s, st1.i);
    var t := ReadIntAt(e.s, st1.i, Some(2)).value;
    var st2 := State(t.end, st1.date.(monthOrWeek := t.value));
    if At(e.s, st2.i) == Some('-') then DayOrWeekday(e, Advance(e, st2))
    else Success(st2.(date := st2.date.(day := 1)))
  }

  /** Past `-YY-MM-` or `-YY-Www-`: a weekday of at most 7, or a day where 0 stands for 1 (and a month of 0 for 1). */
  function DayOrWeekday(e: Env, st: State): (r: Result<State>)
    requires Within(e, st)
    ensures Forward(e, st, r)
    ensures r.Success? ==> r.value.date.year == st.date.year
    ensures r.Success? && r.value.date.weekday != st.date.weekday ==>
      r.value.date.weekday.Some? && 0 <= r.value.date.weekday.value <= 7
    ensures st.date.style == Week && r.Failure? ==> r.error == Invalid || r.error == NotDigit
    ensures var n := NumberAt(e.s, st.i, None);
      st.date.style == Week ==>
        && (r.Success? <==> n <= 7)
        && (r.Success? ==> r.value == State(NumberEnd(e.s, st.i, None), st.date.(weekday := Some(n))))
    ensures var n := NumberAt(e.s, st.i, None); var m := st.date.monthOrWeek;
      st.date.style != Week ==>
        && (r.Success? <==> n <= IntMax)
        && (r.Success? ==> r.value == State(NumberEnd(e.s, st.i, None),
                                            st.date.(day := if n == 0 then 1 else n, monthOrWeek := if m == 0 then 1 else m)))
  {
    if st.date.style == Week then
      var w :- ReadIntAt(e.s, st.i, None);
      if w.value > 7 then Failure(Invalid)
      else Success(State(w.end, st.date.(weekday := Some(w.value))))
    else
      var dd :- ReadIntAt(e.s, st.i, None);
      var month := if st.date.monthOrWeek == 0 then 1 else st.date.monthOrWeek;
      Success(State(dd.end, st.date.(day := if dd.value == 0 then 1 else dd.value, monthOrWeek := month)))
  }

  /** The month-and-day part of `YY-…` (`parse_hyphens_0` of `parse_digits_2`), read from the scalar after the `-`. */
  function Digits2MonthAndDay(e: Env, st: State): (r: Result<State>)
    requires Within(e, st) && DigitAt(e.s, st.i)
    ensures Forward(e, st, r)
    ensures r.Success? ==> r.value.date.year == st.date.year
    ensures r.Failure? ==> r.error == NotDigit || (r.error == Invalid && e.options.strict)
    ensures var n := NumberAt(e.s, st.i, None); var c := DigitRun(e.s, st.i, None);
      && (r.Failure? <==> n > IntMax || (c == 1 && e.options.strict))
      && (c == 4 ==> r == Success(State(st.i + c, st.date.(day := n % 100, monthOrWeek := n / 100))))
      && (c == 3 ==> r == Success(State(st.i + c, st.date.(day := n, style := DateOnly))))
      && ((c == 1 || c > 4) && r.Success? ==> r.value == State(st.i + c, st.date))
    ensures var n := NumberAt(e.s, st.i, None); var k := NumberEnd(e.s, st.i, None); var d := st.date.(monthOrWeek := n);
      DigitRun(e.s, st.i, None) == 2 ==>
        && (At(e.s, k) != Some('-') ==> r == Success(State(k, d.(day := 1))))
        && (At(e.s, k) == Some('-') && !DigitAt(e.s, Step(e.s, k, 1)) ==> r == Success(State(Step(e.s, k, 1), d.(day := 1))))
        && (At(e.s, k) == Some('-') && DigitAt(e.s, Step(e.s, k, 1)) ==>
              var j := Step(e.s, k, 1);
              r == Success(State(NumberEnd(e.s, j, Some(2)), d.(day := NumberAt(e.s, j, Some(2))))))
  {
    NumberBound(e.s, st.i, None);
    var v :- ReadIntAt(e.s, st.i, None);
    var st1 := State(v.end, st.date);
    match v.count
    case 4 => Success(st1.(date := st1.date.(day := v.value % 100, monthOrWeek := v.value / 100)))
    case 1 => if e.options.strict then Failure(Invalid) else Success(st1)
    case 2 =>
      var st2 := st1.(date := st1.date.(monthOrWeek := v.value));
      if At(e.s, st2.i) == Some('-') then
        var st3 := Advance(e, st2);
        if DigitAt(e.s, st3.i) then
          ShortReadsNeverThrow(e.s, st3.i);
          var dd := ReadIntAt(e.s, st3.i, Some(2)).value;
          Success(State(dd.end, st3.date.(day := dd.value)))
        else Success(st3.(date := st3.date.(day := 1)))
      else Success(st2.(date := st2.date.(day := 1)))
    case 3 => Success(st1.(date := st1.date.(day := v.value, style := DateOnly)))
    case _ => Success(st1)
  }

  /** Past `YY-`: a week, a century when no digit follows, or the month and day. */
  function Digits2AfterHyphen(e: Env, st: State, seg: nat): (r: Result<State>)
    requires Within(e, st)
    ensures Forward(e, st, r)
    ensures !DigitAt(e.s, st.i) && At(e.s, st.i) != Some('W') ==> r == Success(Century(e, st, seg))
    ensures At(e.s, st.i) == Some('W') ==> r == WeekAndDay(e, st)
    ensures DigitAt(e.s, st.i) ==> r == Digits2MonthAndDay(e, st)
  {
    if At(e.s, st.i) == Some('W') then WeekAndDay(e, st)
    else if !DigitAt(e.s, st.i) then Success(Century(e, st, seg))
    else Digits2MonthAndDay(e, st)
  }

  /** `parse_hyphens_0` of `parse_digits_2`: `YY-…` and `YYWww` in the current century, or `CC`, a century. */
  function Digits2Hyphens0(e: Env, st: State, seg: nat): (r: Result<State>)
    requires Within(e, st)
    ensures Forward(e, st, r)
    ensures At(e.s, st.i) != Some('-') && At(e.s, st.i) != Some('W') ==> r == Success(Century(e, st, seg))
    ensures var dated := st.date.(year := CenturyStart(e.now) + seg);
      && (At(e.s, st.i) == Some('-') ==> r == Digits2AfterHyphen(e, State(Step(e.s, st.i, 1), dated), seg))
      && (At(e.s, st.i) == Some('W') ==> r == WeekAndDay(e, State(st.i, dated)))
  {
    var dated := st.(date := st.date.(year := CenturyStart(e.now) + seg));
    if At(e.s, st.i) == Some('-') then Digits2AfterHyphen(e, Advance(e, dated), seg)
    else if At(e.s, st.i) == Some('W') then WeekAndDay(e, dated)
    else Success(Century(e, st, seg))
  }

  /** `parse_digits_2`: two leading digits, read by the number of hyphens before them. */
  function Digits2(e: Env, st: State, count: nat, seg: nat): (r: Result<State>)
    requires Within(e, st)
    ensures Forward(e, st, r)
    ensures e.hyphens > 3 ==> r == Failure(Invalid)
  {
    match e.hyphens
    case 0 => Digits2Hyphens0(e, st, seg)
    case 1 => Digits2Hyphens1(e, st, count, seg)
    case 2 => Digits2Hyphens2(e, st, seg)
    case 3 => Success(Digits2Hyphens3(e, st, seg))
    case _ => Failure(Invalid)
  }

  /** A strict ordinal date must name a day of its year. */
  predicate OrdinalTooLate(e: Env, day: int, year: int)
  {
    e.options.strict && day > DaysInYear(year)
  }

  /** `parse_digits_3`: `-DDD` or `--DDD`, an ordinal day of the current year. */
  function Digits3(e: Env, st: State, seg: nat): (r: Result<State>)
    requires Within(e, st)
    ensures Forward(e, st, r)
    ensures r.Failure? <==> e.hyphens < 1 || (e.hyphens > 2 && !e.options.strict) || OrdinalTooLate(e, seg, e.now.year)
    ensures r.Success? ==> r.value.date.style == DateOnly && r.value.date.year == e.now.year && r.value.date.day == seg
  {
    if e.hyphens < 1 || (e.hyphens > 2 && !e.options.strict) then Failure(Invalid)
    else
      var d := st.date.(day := seg, year := e.now.year, style := DateOnly);
      if OrdinalTooLate(e, d.day, d.year) then Failure(Invalid) else Success(st.(date := d))
  }

  /** What follows `YYYY` (`parse_hyphens_0` of `parse_digits_4`), once past an optional `-`, when a digit follows. */
  function Digits4MonthAndDay(e: Env, st: State): (r: Result<State>)
    requires Within(e, st) && DigitAt(e.s, st.i)
    ensures Forward(e, st, r)
    ensures r.Success? ==> r.value.date.year == st.date.year
    ensures r.Success? && r.value.date.style == DateOnly && st.date.style != DateOnly
            ==> 0 <= r.value.date.day < 1000 && !OrdinalTooLate(e, r.value.date.day, r.value.date.year)
    ensures var n := NumberAt(e.s, st.i, None); var c := DigitRun(e.s, st.i, None); var k := st.i + c;
      && (c == 4 ==> r == Success(State(k, st.date.(day := n % 100, monthOrWeek := n / 100))))
      && (c == 3 ==> r == if OrdinalTooLate(e, n, st.date.year) then Failure(Invalid)
                         else Success(State(k, st.date.(day := n, style := DateOnly))))
      && (c != 2 && c != 3 && c != 4 ==> r.Failure?)
    ensures var n := NumberAt(e.s, st.i, None); var j := Skip(e.s, NumberEnd(e.s, st.i, None), '-'); var d := st.date.(monthOrWeek := n);
      DigitRun(e.s, st.i, None) == 2 ==>
        && (!DigitAt(e.s, j) ==> r == Success(State(j, d.(day := 1))))
        && (DigitAt(e.s, j) ==> (r.Success? <==> NumberAt(e.s, j, None) <= IntMax))
        && (DigitAt(e.s, j) && r.Success? ==> r.value == State(NumberEnd(e.s, j, None), d.(day := NumberAt(e.s, j, None))))
  {
    NumberBound(e.s, st.i, None);
    var v :- ReadIntAt(e.s, st.i, None);
    var st1 := State(v.end, st.date);
    match v.count
    case 4 => Success(st1.(date := st1.date.(day := v.value % 100, monthOrWeek := v.value / 100)))
    case 2 =>
      var st2 := SkipIf(e, st1.(date := st1.date.(monthOrWeek := v.value)), '-');
      if !DigitAt(e.s, st2.i) then Success(st2.(date := st2.date.(day := 1)))
      else
        var dd :- ReadIntAt(e.s, st2.i, None);
        Success(State(dd.end, st2.date.(day := dd.value)))
    case 3 =>
      var d := st1.date.(day := v.value % 1000, style := DateOnly);
      if OrdinalTooLate(e, d.day, d.year) then Failure(Invalid) else Success(st1.(date := d))
    case _ => Failure(Invalid)
  }

  /** `parse_hyphens_0` of `parse_digits_4`: `YYYY`, then `-MM-DD`, `MMDD`, `-DDD`, `-Www-D` or nothing. */
  function Digits4Hyphens0(e: Env, st: State, seg: nat): (r: Result<State>)
    requires Within(e, st)
    ensures Forward(e, st, r)
    ensures r.Success? ==> r.value.date.year == seg
    ensures var j := Skip(e.s, st.i, '-'); var dated := st.date.(year := seg);
      && (DigitAt(e.s, j) ==> r == Digits4MonthAndDay(e, State(j, dated)))
      && (!DigitAt(e.s, j) && At(e.s, j) == Some('W') ==> r == WeekAndDay(e, State(j, dated)))
      && (!DigitAt(e.s, j) && At(e.s, j) != Some('W') ==> r == Success(State(j, dated.(monthOrWeek := 1, day := 1))))
  {
    var st1 := SkipIf(e, st.(date := st.date.(year := seg)), '-');
    if !DigitAt(e.s, st1.i) then
      if At(e.s, st1.i) == Some('W') then WeekAndDay(e, st1)
      else Success(st1.(date := st1.date.(monthOrWeek := 1, day := 1)))
    else Digits4MonthAndDay(e, st1)
  }

  /** `parse_hyphens_1` of `parse_digits_4`: `-YYMM`, then an optional day. */
  function Digits4Hyphens1(e: Env, st: State, seg: nat): (r: Result<State>)
    requires Within(e, st)
    ensures Forward(e, st, r)
    ensures r.Success? ==> r.value.date.year * 100 + r.value.date.monthOrWeek == seg
    ensures r.Success? ==> 0 <= r.value.date.monthOrWeek < 100
    ensures var j := Skip(e.s, st.i, '-'); var d := st.date.(monthOrWeek := seg % 100, year := seg / 100);
      && (!DigitAt(e.s, j) ==> r == Success(State(j, d.(day := 1))))
      && (DigitAt(e.s, j) ==> (r.Success? <==> NumberAt(e.s, j, None) <= IntMax))
      && (DigitAt(e.s, j) && r.Success? ==> r.value == State(NumberEnd(e.s, j, None), d.(day := NumberAt(e.s, j, None))))
  {
    var st1 := SkipIf(e, st.(date := st.date.(monthOrWeek := seg % 100, year := seg / 100)), '-');
    if !DigitAt(e.s, st1.i) then Success(st1.(date := st1.date.(day := 1)))
    else
      var dd :- ReadIntAt(e.s, st1.i, None);
      Success(State(dd.end, st1.date.(day := dd.value)))
  }

  /** The time-of-day and offset fields, which the date branches leave alone. */
  predicate SameTime(a: ParsedDate, b: ParsedDate)
  {
    a.hour == b.hour && a.minute == b.minute && a.seconds == b.seconds && a.nanoseconds == b.nanoseconds
    && a.tzHour == b.tzHour && a.tzMinute == b.tzMinute && a.timezone == b.timezone
  }

  /** `parse_hyphens_2` of `parse_digits_4`: `--MMDD` in the current year. */
  function Digits4Hyphens2(e: Env, st: State, seg: nat): (r: State)
    ensures r.i == st.i && r.date.year == e.now.year
    ensures r.date.monthOrWeek * 100 + r.date.day == seg && 0 <= r.date.day < 100
    ensures SameTime(st.date, r.date) && r.date.weekday == st.date.weekday && r.date.style == st.date.style
  {
    st.(date := st.date.(day := seg % 100, monthOrWeek := seg / 100, year := e.now.year))
  }

  /** `parse_digits_4`: four leading digits, read by the number of hyphens before them. */
  function Digits4(e: Env, st: State, seg: nat): (r: Result<State>)
    requires Within(e, st)
    ensures Forward(e, st, r)
    ensures e.hyphens > 2 ==> r == Failure(Invalid)
  {
    match e.hyphens
    case 0 => Digits4Hyphens0(e, st, seg)
    case 1 => Digits4Hyphens1(e, st, seg)
    case 2 => Success(Digits4Hyphens2(e, st, seg))
    case _ => Failure(Invalid)
  }

  /** `parse_digits_5`: `YYDDD`, an ordinal date in the current century. */
  function Digits5(e: Env, st: State, seg: nat): (r: Result<State>)
    requires Within(e, st)
    ensures Forward(e, st, r)
    ensures r.Failure? <==> e.hyphens != 0
    ensures r.Success? ==> r.value.i == st.i && r.value.date.style == DateOnly
    ensures r.Success? ==> (r.value.date.year - CenturyStart(e.now)) * 1000 + r.value.date.day == seg
    ensures r.Success? ==> 0 <= r.value.date.day < 1000
    ensures r.Success? ==> SameTime(st.date, r.value.date) && r.value.date.weekday == st.date.weekday
  {
    if e.hyphens != 0 then Failure(Invalid)
    else Success(st.(date := st.date.(year := CenturyStart(e.now) + seg / 1000, day := seg % 1000, style := DateOnly)))
  }

  /** `parse_digits_6`: `YYMMDD` in the current century. */
  function Digits6(e: Env, st: State, seg: nat): (r: Result<State>)
    requires Within(e, st)
    ensures Forward(e, st, r)
    ensures r.Failure? <==> e.hyphens != 0
    ensures r.Success? ==> r.value.i == st.i
    ensures r.Success? ==>
      var d := r.value.date;
      && (d.year - CenturyStart(e.now)) * 10000 + d.monthOrWeek * 100 + d.day == seg
      && 0 <= d.monthOrWeek < 100 && 0 <= d.day < 100
    ensures r.Success? ==> SameTime(st.date, r.value.date) && r.value.date.weekday == st.date.weekday && r.value.date.style == st.date.style
  {
    if e.hyphens != 0 then Failure(Invalid)
    else
      var rest := seg / 100;
      Success(st.(date := st.date.(day := seg % 100, monthOrWeek := rest % 100, year := CenturyStart(e.now) + rest / 100)))
  }

  /** `parse_digits_7`: `YYYYDDD`, an ordinal date. */
  function Digits7(e: Env, st: State, seg: nat): (r: Result<State>)
    requires Within(e, st)
    ensures Forward(e, st, r)
    ensures r.Failure? <==> e.hyphens != 0 || OrdinalTooLate(e, seg % 1000, seg / 1000)
    ensures r.Success? ==> r.value.i == st.i && r.value.date.style == DateOnly
    ensures r.Success? ==> r.value.date.year * 1000 + r.value.date.day == seg && 0 <= r.value.date.day < 1000    ensures r.Success? ==> SameTime(st.date, r.value.date) && r.value.date.monthOrWeek == st.date.monthOrWeek && r.value.date.weekday == st.date.weekday
  {
    if e.hyphens != 0 then Failure(Invalid)
    else
      var d := st.date.(day := seg % 1000, year := seg / 1000, style := DateOnly);
      if OrdinalTooLate(e, d.day, d.year) then Failure(Invalid) else Success(st.(date := d))
  }

  /** `parse_digits_8`: `YYYYMMDD`. */
  function Digits8(e: Env, st: State, seg: nat): (r: Result<State>)
    requires Within(e, st)
    ensures Forward(e, st, r)
    ensures r.Failure? <==> e.hyphens != 0
    ensures r.Success? ==> r.value.i == st.i
    ensures r.Success? ==>
      var d := r.value.date;
      && d.year * 10000 + d.monthOrWeek * 100 + d.day == seg
      && 0 <= d.monthOrWeek < 100 && 0 <= d.day < 100
    ensures r.Success? ==> SameTime(st.date, r.value.date) && r.value.date.weekday == st.date.weekday && r.value.date.style == st.date.style
  {
    if e.hyphens != 0 then Failure(Invalid)
    else
      var rest := seg / 100;
      Success(st.(date := st.date.(day := seg % 100, monthOrWeek := rest % 100, year := rest / 100)))
  }

  /** The `switch num_digits` of `parse()`: the length of the first digit run chooses the branch. */
  function Dispatch(e: Env, st: State, count: nat, seg: nat): (r: Result<State>)
    requires Within(e, st)
    ensures Forward(e, st, r)
    ensures count > 8 ==> r == Failure(Invalid)
  {
    match count
    case 0 => Digits0(e, st)
    case 1 => Digits1(e, st, seg)
    case 2 => Digits2(e, st, count, seg)
    case 3 => Digits3(e, st, seg)
    case 4 => Digits4(e, st, seg)
    case 5 => Digits5(e, st, seg)
    case 6 => Digits6(e, st, seg)
    case 7 => Digits7(e, st, seg)
    case 8 => Digits8(e, st, seg)
    case _ => Failure(Invalid)
  }

  /** The first digit run, of any length, and the branch its length selects. */
  function FirstDigitRun(e: Env, st: State): (r: Result<State>)
    requires Within(e, st)
    ensures Forward(e, st, r)
    ensures !DigitAt(e.s, st.i) ==> r == Digits0(e, st)
    ensures DigitRun(e.s, st.i, None) > 8 ==> r.Failure?
  {
    var t :- ReadIntAt(e.s, st.i, None);
    Dispatch(e, State(t.end, st.date), t.count, t.value)
  }

  /** `is_time_only`: no `T`, no `-` and a `:`. */
  predicate IsTimeOnly(s: seq<char>)
  {
    'T' !in s && ':' in s && '-' !in s
  }

  /** The date part of `parse()`: a leading `T`, a bare time, or the hyphens and the first digit run. */
  function ParseDate(e: Env, st: State): (r: Result<State>)
    requires Within(e, st)
    ensures Forward(e, st, r)
    ensures At(e.s, st.i) == Some('T') && !DigitAt(e.s, Step(e.s, st.i, 1)) ==> r == Failure(Invalid)
    ensures At(e.s, st.i) == Some('T') && DigitAt(e.s, st.i + 1) ==> r == Success(State(st.i + 1, FromReference(st.date, e.now)))
    ensures At(e.s, st.i) != Some('T') ==> r == DateWithoutT(e, st)
  {
    if At(e.s, st.i) == Some('T') then
      var st1 := Advance(e, st);
      if !DigitAt(e.s, st1.i) then Failure(Invalid)
      else Success(st1.(date := FromReference(st1.date, e.now)))
    else DateWithoutT(e, st)
  }

  /** The date part when it does not start with `T`: the leading hyphens, then the first digit run unless the text is a bare time. */
  function DateWithoutT(e: Env, st: State): (r: Result<State>)
    requires Within(e, st)
    ensures Forward(e, st, r)
    ensures IsTimeOnly(e.s) ==> r.Success? && r.value.date == FromReference(st.date, e.now)
  {
    var st1 := st.(i := st.i + Run(e.s, st.i, '-'));
    if !IsTimeOnly(e.s) then FirstDigitRun(e, st1)
    else Success(st1.(date := FromReference(st1.date, e.now)))
  }

  // ---------------------------------------------------------------------
  // Time of day and offset

  /** The date fields the time of day and the offset leave alone. */
  predicate SameDay(a: ParsedDate, b: ParsedDate)
  {
    a.year == b.year && a.monthOrWeek == b.monthOrWeek && a.day == b.day && a.weekday == b.weekday && a.style == b.style
  }

  /** `modf`: the whole part (toward zero) and the fraction of `x`. */
  function Modf(x: real): (r: (real, real))
    ensures r.0 + r.1 == x
    ensures r.0 == Trunc(x) as real
    ensures x >= 0.0 ==> 0.0 <= r.1 < 1.0 && r.0 >= 0.0
    ensures x < 0.0 ==> -1.0 < r.1 <= 0.0
  {
    var whole := Trunc(x) as real;
    (whole, x - whole)
  }

  /** `round`: to the nearest whole number, halves away from zero. */
  function Round(x: real): (n: int)
    ensures x >= 0.0 ==> n as real - 0.5 <= x < n as real + 0.5
    ensures x < 0.0 ==> n as real - 0.5 < x <= n as real + 0.5
  {
    if x >= 0.0 then (x + 0.5).Floor else -((-x + 0.5).Floor)
  }

  /** `Int(x)` of a `Double`: the whole part toward zero. */
  function Trunc(x: real): (n: int)
    ensures x >= 0.0 ==> 0 <= n && n as real <= x < n as real + 1.0
    ensures x < 0.0 ==> n <= 0 && n as real - 1.0 < x <= n as real
  {
    if x >= 0.0 then x.Floor else -((-x).Floor)
  }

  /** `Double.ulpOfOne`, 2 to the power -52. */
  const UlpOfOne: real := 1.0 / 4503599627370496.0

  /** Past a `:`, seconds and a fraction: the whole seconds, and the fraction rounded to milliseconds, as nanoseconds. */
  function FractionalSeconds(e: Env, st: State): (r: Result<State>)
    requires Within(e, st)
    ensures Forward(e, st, r)
    ensures r.Success? ==> SameDay(st.date, r.value.date)
    ensures r.Success? ==> r.value.date.seconds == r.value.date.seconds.Floor as real && r.value.date.seconds >= 0.0
    ensures r.Success? ==> 0.0 <= r.value.date.nanoseconds <= 1_000_000_000.0
  {
    var v :- ReadDoubleAt(e.s, st.i);
    var parts := Modf(v.value);
    MillisecondsOfFraction(parts.1);
    Success(State(v.end, st.date.(nanoseconds := (Round(parts.1 * 1000.0) as real) * 1_000_000.0, seconds := parts.0)))
  }

  /** A fraction of a second rounds to at most a thousand milliseconds. */
  lemma MillisecondsOfFraction(f: real)
    requires 0.0 <= f < 1.0
    ensures 0 <= Round(f * 1000.0) <= 1000
  {
  }

  /** The minute and second part with a fractional minute (any separator but `,` and `.`), from just past the separator. */
  function MinuteAndSecond(e: Env, st: State): (r: Result<State>)
    requires Within(e, st)
    ensures Forward(e, st, r)
    ensures r.Success? ==> SameDay(st.date, r.value.date)
    ensures r.Success? ==> r.value.date.hour == st.date.hour
    ensures r.Success? ==> r.value.date.minute >= 0.0 && r.value.date.seconds >= 0.0
  {
    var m :- ReadDoubleAt(e.s, st.i);
    var st1 := State(m.end, st.date.(minute := m.value));
    if At(e.s, st1.i) != Some(':') then
      var parts := Modf(st1.date.minute);
      var st2 := st1.(date := st1.date.(minute := parts.0, seconds := parts.1));
      if st2.date.seconds > UlpOfOne then Success(st2.(date := st2.date.(seconds := st2.date.seconds * 60.0)))
      else if At(e.s, st2.i) == Some(e.options.timeSeparator) then FractionalSeconds(e, Advance(e, st2))
      else Success(st2)
    else FractionalSeconds(e, Advance(e, st1))
  }

  /**
   * The minute and second part when the time separator is `,` or `.`: the
   * whole minutes written at the cursor, then, after a second separator,
   * the whole seconds written past it. Neither two-digit read can throw.
   */
  function WholeMinuteAndSecond(e: Env, st: State): (r: Result<State>)
    requires Within(e, st)
    ensures r.Success? && Forward(e, st, r)
    ensures var k := NumberEnd(e.s, st.i, Some(2));
      var minuted := st.date.(minute := NumberAt(e.s, st.i, Some(2)) as real);
      && (At(e.s, k) == Some(e.options.timeSeparator) ==>
            var j := Step(e.s, k, 1);
            r.value == State(NumberEnd(e.s, j, Some(2)), minuted.(seconds := NumberAt(e.s, j, Some(2)) as real)))
      && (At(e.s, k) != Some(e.options.timeSeparator) ==> r.value == State(k, minuted))
    ensures SameDay(st.date, r.value.date) && r.value.date.hour == st.date.hour
    ensures 0.0 <= r.value.date.minute < 100.0
  {
    var sep := e.options.timeSeparator;
    ShortReadsNeverThrow(e.s, st.i);
    ReadIntReadsNumber(e.s, st.i, Some(2));
    var m := ReadIntAt(e.s, st.i, Some(2)).value;
    var st1 := State(m.end, st.date.(minute := m.value as real));
    if At(e.s, st1.i) == Some(sep) then
      var st2 := Advance(e, st1);
      ShortReadsNeverThrow(e.s, st2.i);
      ReadIntReadsNumber(e.s, st2.i, Some(2));
      var sec := ReadIntAt(e.s, st2.i, Some(2)).value;
      Success(State(sec.end, st2.date.(seconds := sec.value as real)))
    else Success(st1)
  }

  /** Hour, then minute and second: `HHMM` after `T` or a space, `HH:MM[:SS]`, `HH:MM.m`, `HH:MM:SS.s`. */
  function TimeOfDay(e: Env, st: State, hasTime: bool): (r: Result<State>)
    requires Within(e, st)
    ensures Forward(e, st, r)
    ensures r.Success? ==> SameDay(st.date, r.value.date)
    ensures r.Success? ==> 0 <= r.value.date.hour < 100
  {
    var sep := e.options.timeSeparator;
    ShortReadsNeverThrow(e.s, st.i);
    var h := ReadIntAt(e.s, st.i, Some(2)).value;
    var st1 := State(h.end, st.date.(hour := h.value));
    if sep !in e.s && hasTime then
      var m :- ReadIntAt(e.s, st1.i, Some(2));
      Success(State(m.end, st1.date.(minute := m.value as real)))
    else if At(e.s, st1.i) == Some(sep) then
      var st2 := Advance(e, st1);
      if sep == ',' || sep == '.' then WholeMinuteAndSecond(e, st2)
      else MinuteAndSecond(e, st2)
    else Success(st1)
  }

  /** A digit value with the sign of the offset applied. */
  function Signed(negative: bool, v: nat): (r: int)
    ensures negative ==> r == -(v as int)
    ensures !negative ==> r == v
  {
    if negative then -(v as int) else v
  }

  /** The minutes of an offset, when a digit follows the hours, with the sign of the hours. */
  function OffsetMinutes(e: Env, st: State, negative: bool): (r: State)
    requires Within(e, st)
    ensures Within(e, r) && st.i <= r.i
    ensures SameDay(st.date, r.date) && r.date.timezone == st.date.timezone && r.date.tzHour == st.date.tzHour
    ensures !DigitAt(e.s, st.i) ==> r == st
    ensures DigitAt(e.s, st.i) ==> 0 <= (if negative then -r.date.tzMinute else r.date.tzMinute) < 100
    ensures DigitAt(e.s, st.i) ==>
      r == State(NumberEnd(e.s, st.i, Some(2)), st.date.(tzMinute := Signed(negative, NumberAt(e.s, st.i, Some(2)))))
  {
    if DigitAt(e.s, st.i) then
      ShortReadsNeverThrow(e.s, st.i);
      var m := ReadIntAt(e.s, st.i, Some(2)).value;
      State(m.end, st.date.(tzMinute := Signed(negative, m.value)))
    else st
  }

  /** The hours of an offset: at most two digits, with the sign applied. */
  function OffsetHours(e: Env, st: State, negative: bool): (r: State)
    requires Within(e, st) && DigitAt(e.s, st.i)
    ensures Within(e, r) && st.i < r.i <= st.i + 2
    ensures r.date == st.date.(tzHour := r.date.tzHour)
    ensures 0 <= (if negative then -r.date.tzHour else r.date.tzHour) < 100
    ensures r.i == NumberEnd(e.s, st.i, Some(2)) && r.date.tzHour == Signed(negative, NumberAt(e.s, st.i, Some(2)))
  {
    ShortReadsNeverThrow(e.s, st.i);
    var h := ReadIntAt(e.s, st.i, Some(2)).value;
    State(h.end, st.date.(tzHour := Signed(negative, h.value)))
  }

  /** The offset after its sign: two hour digits, an optional separator, then the minutes if a digit follows. */
  function Offset(e: Env, st: State, negative: bool): (r: State)
    requires Within(e, st) && DigitAt(e.s, st.i)
    ensures Within(e, r) && st.i < r.i
    ensures SameDay(st.date, r.date)
    ensures 0 <= (if negative then -r.date.tzHour else r.date.tzHour) < 100
    ensures r.date.timezone == Some(SecondsFromGMT(r.date.tzHour * 3600 + r.date.tzMinute * 60))
    ensures r.date.tzHour == Signed(negative, NumberAt(e.s, st.i, Some(2)))
    ensures var k := Skip(e.s, NumberEnd(e.s, st.i, Some(2)), e.options.timeSeparator);
      && (DigitAt(e.s, k) ==> r.i == NumberEnd(e.s, k, Some(2)) && r.date.tzMinute == Signed(negative, NumberAt(e.s, k, Some(2))))
      && (!DigitAt(e.s, k) ==> r.i == k && r.date.tzMinute == st.date.tzMinute)
  {
    var st1 := SkipIf(e, OffsetHours(e, st, negative), e.options.timeSeparator);
    var st2 := OffsetMinutes(e, st1, negative);
    st2.(date := st2.date.(timezone := Some(SecondsFromGMT(st2.date.tzHour * 3600 + st2.date.tzMinute * 60))))
  }

  /** The designator after the time: `Z`, or `+`/`-` then an offset; a sign without a digit after it sets nothing. */
  function Zone(e: Env, st: State): (r: State)
    requires Within(e, st)
    ensures Within(e, r) && st.i <= r.i
    ensures SameDay(st.date, r.date)
    ensures r.date.timezone != st.date.timezone ==> r.date.timezone.Some?
  {
    var st1 := if !e.options.strict && st.i != |e.s| && SpaceAt(e.s, st.i) then Advance(e, st) else st;
    if st1.i == |e.s| then st1
    else if e.s[st1.i] == 'Z' then st1.(date := st1.date.(timezone := Some(UTC)))
    else if e.s[st1.i] == '+' || e.s[st1.i] == '-' then
      var st2 := Advance(e, st1);
      if DigitAt(e.s, st2.i) then Offset(e, st2, e.s[st1.i] == '-') else st2
    else st1
  }

  /** Everything after the date: `T` or a space, then when a digit follows, the time of day and the offset. */
  function TimeAndZone(e: Env, st: State): (r: Result<State>)
    requires Within(e, st)
    ensures Forward(e, st, r)
    ensures r.Success? ==> SameDay(st.date, r.value.date)
  {
    var hasTime := SpaceAt(e.s, st.i) || At(e.s, st.i) == Some('T');
    var st1 := if hasTime then Advance(e, st) else st;
    if DigitAt(e.s, st1.i) then
      var st2 :- TimeOfDay(e, st1, hasTime);
      Success(Zone(e, st2))
    else Success(st1)
  }

  /** `parse()` up to the components: the date, then the time and the offset. */
  function ParseAll(e: Env, st: State): (r: Result<State>)
    requires Within(e, st)
    ensures Forward(e, st, r)
  {
    var st1 :- ParseDate(e, st);
    TimeAndZone(e, st1)
  }

  /** The `DateComponents` `parse()` hands to the calendar, a week date turned into a day of the year. */
  function ComponentsOf(d: ParsedDate): (c: Components)
    ensures c.year == d.year && c.hour == d.hour
    ensures c.month.Some? <==> d.style == MonthAndDate
    ensures d.style != Week ==> c.day == d.day
    ensures d.style == Week ==> c.day == WeekToOrdinal(d.year, d.monthOrWeek, d.day, d.weekday)
    ensures c.minute == Trunc(d.minute) && c.second == Trunc(d.seconds) && c.nanosecond == Trunc(d.nanoseconds)
  {
    var base := Components(d.year, None, d.day, d.hour, Trunc(d.minute), Trunc(d.seconds), Trunc(d.nanoseconds));
    match d.style
    case MonthAndDate => base.(month := Some(d.monthOrWeek))
    case Week => base.(day := WeekToOrdinal(d.year, d.monthOrWeek, d.day, d.weekday))
    case DateOnly => base
  }

  /** `date.timezone ?? UTC`. */
  function ZoneOf(d: ParsedDate): (z: ZoneMark)
    ensures d.timezone.Some? ==> z == d.timezone.value
    ensures d.timezone.None? ==> z == UTC
  {
    match d.timezone
    case Some(z) => z
    case None => UTC
  }

  /** The environment of a parser over `s`: `hyphens` counts the leading `-` run. */
  function InputEnv(s: seq<char>, options: Options, now: Reference): Env
  {
    Env(s, Run(s, 0, '-'), options, now)
  }

  /** What a successful parser holds: `date_components` and `parsedTimeZone`. */
  datatype Parsed = Parsed(components: Components, zone: ZoneMark)

  /** `ISOParser(s, options:)`: nothing for an empty string or a string `parse()` rejects. */
  function Iso8601(s: seq<char>, options: Options, now: Reference): (r: Option<Parsed>)
    ensures s == [] ==> r.None?
  {
    if s == [] then None
    else match ParseAll(InputEnv(s, options, now), State(0, InitialDate))
      case Failure(_) => None
      case Success(st) => Some(Parsed(ComponentsOf(st.date), ZoneOf(st.date)))
  }
}
