/**
 * The `ISOParser` class: a cursor over the scalars of the input and a
 * `ParsedDate` accumulator, both updated in place by the scanner and by the
 * `parse_digits_*` branches. Every method is proved to do exactly what its
 * specification function in `IsoGrammar` (or `IsoScanning`) says, from the
 * state it starts in.
 */
module IsoParsing {
  import opened IsoTypes
  import opened IsoCalendar
  import opened IsoScanning
  import opened IsoGrammar

  class ISOParser {
    /** `string`: the scalars of the input; `eIdx` is `|s|`. */
    const s: seq<char>
    const options: Options
    /** `now_cmps`: the clock reading taken when the parser is created. */
    const now: Reference

    var cIdx: nat
    var hyphens: nat
    var date: ParsedDate
    var dateComponents: Option<Components>
    var parsedTimeZone: Option<ZoneMark>

    predicate Valid()
      reads this`cIdx
    {
      cIdx <= |s|
    }

    /** What the parse cannot change. */
    ghost function Context(): Env
      reads this`hyphens
    {
      Env(s, hyphens, options, now)
    }

    /** What the parse changes. */
    ghost function Snapshot(): State
      reads this`cIdx, this`date
    {
      State(cIdx, date)
    }

    /** A method's outcome and the state it leaves agree with what its specification function computes. */
    ghost predicate Agrees(o: Outcome, r: Result<State>)
      reads this`cIdx, this`date
    {
      match r
      case Success(st) => o == Pass && cIdx == st.i && date == st.date
      case Failure(err) => o == Fail(err)
    }

    /** `init?` up to `parse()`: the cursor at the start, and the leading `-` run counted. */
    constructor (src: seq<char>, options: Options, now: Reference)
      requires |src| > 0
      ensures s == src && this.options == options && this.now == now
      ensures cIdx == 0 && hyphens == Run(src, 0, '-')
      ensures date == InitialDate && dateComponents == None && parsedTimeZone == None
    {
      s := src;
      this.options := options;
      this.now := now;
      cIdx := 0;
      date := InitialDate;
      dateComponents := None;
      parsedTimeZone := None;
      var idx := 0;
      var count := 0;
      while idx < |src|
        invariant idx == count <= |src|
        invariant Run(src, 0, '-') == count + Run(src, idx, '-')
      {
        if src[idx] == '-' {
          count := count + 1;
        } else {
          break;
        }
        idx := idx + 1;
      }
      hyphens := count;
    }

    // -------------------------------------------------------------------
    // Scanner

    /** `seek(offset)`: the scalar `offset` places ahead, without moving; none at the end. */
    function Seek(offset: nat): (c: Option<char>)
      reads this`cIdx
      requires cIdx + offset <= |s|
      ensures c.Some? <==> cIdx + offset < |s|
      ensures c.Some? ==> c.value == s[cIdx + offset]
    {
      if cIdx + offset < |s| then Some(s[cIdx + offset]) else None
    }

    /** `current()`: the scalar under the cursor; none at the end. */
    function Current(): (c: Option<char>)
      reads this`cIdx
      requires Valid()
      ensures c == Seek(0)
    {
      if cIdx != |s| then Some(s[cIdx]) else None
    }

    /** `current(true)`: the scalar under the cursor, moving past it. */
    method CurrentAndAdvance() returns (c: Option<char>)
      requires Valid()
      modifies this`cIdx
      ensures Valid()
      ensures c == At(s, old(cIdx))
      ensures cIdx == if old(cIdx) < |s| then old(cIdx) + 1 else old(cIdx)
    {
      if cIdx == |s| {
        return None;
      }
      c := Some(s[cIdx]);
      cIdx := cIdx + 1;
    }

    /** `next(offset)`: moves only onto a scalar of the string, and returns it. */
    method Next(offset: nat) returns (c: Option<char>)
      requires Valid()
      modifies this`cIdx
      ensures Valid()
      ensures cIdx == Step(s, old(cIdx), offset)
      ensures c == if old(cIdx) + offset < |s| then Some(s[cIdx]) else None
    {
      var target := cIdx + offset;
      if target >= |s| {
        return None;
      }
      cIdx := target;
      return Some(s[cIdx]);
    }

    /** `read_int(max_count)`. */
    method ReadInt(maxCount: Option<nat>) returns (o: Outcome, count: nat, value: nat)
      requires Valid()
      modifies this`cIdx
      ensures Valid()
      ensures match ReadIntAt(s, old(cIdx), maxCount)
        case Success(t) => o == Pass && count == t.count && value == t.value && cIdx == t.end
        case Failure(err) => o == Fail(err) && cIdx == old(cIdx)
    {
      var moveIdx := cIdx;
      count := 0;
      while moveIdx < |s|
        invariant cIdx <= moveIdx <= |s| && moveIdx == cIdx + count
        invariant forall k :: cIdx <= k < moveIdx ==> IsDigit(s[k])
        invariant maxCount.Some? ==> count <= maxCount.value
      {
        if maxCount.Some? && count >= maxCount.value {
          break;
        }
        if !IsDigit(s[moveIdx]) {
          break;
        }
        count := count + 1;
        moveIdx := moveIdx + 1;
      }
      DigitRunIsMaximal(s, cIdx, maxCount, count);
      DecimalValueAtSlice(s, cIdx, moveIdx);
      var raw := s[cIdx..moveIdx];
      if raw == [] {
        return Pass, count, 0;
      }
      var parsed := IntFromDigits(raw);
      if parsed.None? {
        return Fail(NotDigit), count, 0;
      }
      cIdx := moveIdx;
      return Pass, count, parsed.value;
    }

    /** `read_double()`. */
    method ReadDouble() returns (o: Outcome, count: nat, value: real)
      requires Valid()
      modifies this`cIdx
      ensures Valid()
      ensures match ReadDoubleAt(s, old(cIdx))
        case Success(t) => o == Pass && count == t.count && value == t.value && cIdx == t.end
        case Failure(err) => o == Fail(err) && cIdx == old(cIdx)
    {
      var moveIdx := cIdx;
      count := 0;
      var fractionalStart := false;
      while moveIdx < |s|
        invariant cIdx <= moveIdx <= |s| && moveIdx == cIdx + count
        invariant DoubleScan(s, cIdx, false) == DoubleScan(s, moveIdx, fractionalStart)
      {
        var c := s[moveIdx];
        if c == '.' || c == ',' {
          if fractionalStart {
            return Fail(NotDouble), count, 0.0;
          }
          fractionalStart := true;
        } else if !IsDigit(c) {
          break;
        }
        count := count + 1;
        moveIdx := moveIdx + 1;
      }
      var raw := Normalize(s[cIdx..moveIdx]);
      if raw == [] {
        return Pass, count, 0.0;
      }
      var parsed := DoubleFromText(raw);
      if parsed.None? {
        return Fail(NotDouble), count, 0.0;
      }
      cIdx := moveIdx;
      return Pass, count, parsed.value;
    }

    /** `moveUntil(is:)`: skips the run of `c` under the cursor and returns its length. */
    method MoveUntilIs(c: char) returns (count: nat)
      requires Valid()
      modifies this`cIdx
      ensures Valid()
      ensures count == Run(s, old(cIdx), c) && cIdx == old(cIdx) + count
    {
      var moveIdx := cIdx;
      count := 0;
      while moveIdx < |s|
        invariant cIdx <= moveIdx <= |s| && moveIdx == cIdx + count
        invariant Run(s, cIdx, c) == count + Run(s, moveIdx, c)
      {
        if s[moveIdx] != c {
          break;
        }
        moveIdx := moveIdx + 1;
        count := count + 1;
      }
      cIdx := moveIdx;
    }

    /** `moveUntil(isNot:)`: moves up to the next `c`, or to the end, and returns the distance. */
    method MoveUntilIsNot(c: char) returns (count: nat)
      requires Valid()
      modifies this`cIdx
      ensures Valid()
      ensures count == DistanceTo(s, old(cIdx), c) && cIdx == old(cIdx) + count
    {
      var moveIdx := cIdx;
      count := 0;
      while moveIdx < |s|
        invariant cIdx <= moveIdx <= |s| && moveIdx == cIdx + count
        invariant DistanceTo(s, cIdx, c) == count + DistanceTo(s, moveIdx, c)
      {
        if s[moveIdx] == c {
          break;
        }
        moveIdx := moveIdx + 1;
        count := count + 1;
      }
      cIdx := moveIdx;
    }

    // -------------------------------------------------------------------
    // Week helpers

    /** `parseWeekday()`. */
    method ParseWeekday() returns (o: Outcome)
      requires Valid()
      modifies this`cIdx, this`date
      ensures Valid()
      ensures Agrees(o, Weekday(Context(), old(Snapshot())))
    {
      if Current() == Some('-') {
        var _ := Next(1);
      }
      var _, weekday :- ReadInt(None);
      if weekday > 7 {
        return Fail(Invalid);
      }
      date := date.(style := Week, weekday := Some(weekday));
      o := Pass;
    }

    /** The week number and the weekday of `-Www-D`, past the `W`. */
    method ParseWeekThenWeekday() returns (o: Outcome)
      requires Valid()
      modifies this`cIdx, this`date
      ensures Valid()
      ensures Agrees(o, WeekThenWeekday(Context(), old(Snapshot())))
    {
      // A read of at most two digits cannot throw.
      ShortReadsNeverThrow(s, cIdx);
      var _, _, week := ReadInt(Some(2));
      date := date.(monthOrWeek := week, style := Week);
      o := ParseWeekday();
    }

    /** `parseWeekAndDay()`. */
    method ParseWeekAndDay() returns (o: Outcome)
      requires Valid()
      modifies this`cIdx, this`date
      ensures Valid()
      ensures Agrees(o, WeekAndDay(Context(), old(Snapshot())))
    {
      var _ := Next(1);
      if !IsDigitScalar(Current()) {
        if options.strict {
          return Fail(Invalid);
        }
        date := date.(monthOrWeek := 1, day := 1);
        o := Pass;
      } else {
        ShortReadsNeverThrow(s, cIdx);
        var _, _, week := ReadInt(Some(2));
        date := date.(monthOrWeek := week);
        o := ParseWeekday();
      }
    }

    /** `parseDayAfterWeek()`. */
    method ParseDayAfterWeek()
      requires Valid()
      modifies this`cIdx, this`date
      ensures Valid()
      ensures Snapshot() == DayAfterWeek(Context(), old(Snapshot())).value
    {
      if IsDigitScalar(Current()) {
        // A read of at most two digits cannot throw.
        ShortReadsNeverThrow(s, cIdx);
        var _, _, day := ReadInt(Some(2));
        date := date.(day := day);
      } else {
        date := date.(day := 1);
      }
      date := date.(style := Week);
    }

    /** `centuryOnly`. */
    method CenturyOnly(segment: nat)
      modifies this`date
      ensures date == Century(Context(), old(Snapshot()), segment).date
    {
      date := date.(year := segment * 100 + Rem(now.year, 100), monthOrWeek := 1, day := 1);
    }

    // -------------------------------------------------------------------
    // The branches on the length of the first digit run

    /** `parse_digits_0`. */
    method ParseDigits0() returns (o: Outcome)
      requires Valid()
      modifies this`cIdx, this`date
      ensures Valid()
      ensures Agrees(o, Digits0(Context(), old(Snapshot())))
    {
      if Current() != Some('W') {
        return Fail(Invalid);
      }
      if Seek(1) == Some('-') && IsDigitScalar(Seek(2)) && ((hyphens == 1 || hyphens == 2) && !options.strict) {
        o := ParseWeekDayOfYear();
      } else if hyphens == 1 {
        o := ParseWeekOfYear();
      } else {
        o := Fail(Invalid);
      }
    }

    /** The lenient `W-D` arm of `parse_digits_0`: a day of the year counted from week 1 of the current year. */
    method ParseWeekDayOfYear() returns (o: Outcome)
      requires Valid() && Current() == Some('W') && Seek(1) == Some('-') && IsDigitScalar(Seek(2))
      requires (hyphens == 1 || hyphens == 2) && !options.strict
      modifies this`cIdx, this`date
      ensures Valid()
      ensures Agrees(o, Digits0(Context(), old(Snapshot())))
    {
      ghost var e := Context();
      ghost var st0 := Snapshot();
      date := date.(year := now.year, monthOrWeek := 1);
      var _ := Next(2);
      assert Snapshot() == State(Step(s, st0.i, 2), st0.date.(year := now.year, monthOrWeek := 1));
      assert Digits0(e, st0) == DayAfterWeek(e, Snapshot());
      ParseDayAfterWeek();
      o := Pass;
    }

    /** The `-Www` arm of `parse_digits_0`: a week of the current year, then its weekday. */
    method ParseWeekOfYear() returns (o: Outcome)
      requires Valid() && Current() == Some('W') && hyphens == 1
      requires !(Seek(1) == Some('-') && IsDigitScalar(Seek(2)) && !options.strict)
      modifies this`cIdx, this`date
      ensures Valid()
      ensures Agrees(o, Digits0(Context(), old(Snapshot())))
    {
      ghost var e := Context();
      ghost var st0 := Snapshot();
      date := date.(year := now.year);
      if Current() == Some('W') {
        var _ := Next(1);
        assert Digits0(e, st0) == WeekThenWeekday(e, Snapshot());
        o := ParseWeekThenWeekday();
      } else {
        // The guard of `parse_digits_0` leaves `W` under the cursor:
        // the source's `parseDayAfterWeek()` in this arm is never reached.
        assert false;
      }
    }

    /** `parse_digits_1`. */
    method ParseDigits1(segment: nat) returns (o: Outcome)
      requires Valid()
      modifies this`cIdx, this`date
      ensures Valid()
      ensures Agrees(o, Digits1(Context(), old(Snapshot()), segment))
    {
      if options.strict {
        if hyphens != 1 {
          return Fail(Invalid);
        }
        if Current() == Some('-') {
          var _ := Next(1);
        }
        var _ := Next(1);
        if Current() != Some('W') {
          return Fail(Invalid);
        }
        date := date.(year := now.year);
        date := date.(year := date.year - Rem(date.year, 10));
        date := date.(year := date.year + segment);
        o := Pass;
      } else {
        o := ParseDigits2(1, segment);
      }
    }

    /** `parse_hyphens_3` inside `parse_digits_2`. */
    method ParseDigits2Hyphens3(segment: nat)
      modifies this`date
      ensures date == Digits2Hyphens3(Context(), old(Snapshot()), segment).date
    {
      date := date.(year := now.year, monthOrWeek := now.month, day := segment);
    }

    /** `parse_hyphens_2` inside `parse_digits_2`. */
    method ParseDigits2Hyphens2(segment: nat)
      requires Valid()
      modifies this`cIdx, this`date
      ensures Valid()
      ensures Snapshot() == Digits2Hyphens2(Context(), old(Snapshot()), segment).value
    {
      date := date.(year := now.year, monthOrWeek := segment);
      if Current() == Some('-') {
        var _ := Next(1);
        ShortReadsNeverThrow(s, cIdx);
        var _, _, day := ReadInt(Some(2));
        date := date.(day := day);
      } else {
        date := date.(day := 1);
      }
    }

    /** `parse_hyphens_1` inside `parse_digits_2`. */
    method ParseDigits2Hyphens1(numDigits: nat, segment: nat) returns (o: Outcome)
      requires Valid()
      modifies this`cIdx, this`date
      ensures Valid()
      ensures Agrees(o, Digits2Hyphens1(Context(), old(Snapshot()), numDigits, segment))
    {
      ghost var st0 := Snapshot();
      var currentYear := now.year;
      var currentCentury := Rem(currentYear, 100);
      date := date.(year := segment + (currentYear - currentCentury));
      if numDigits == 1 {
        date := date.(year := date.year + currentCentury - Rem(currentYear, 10));
      }
      assert Snapshot() == st0.(date := st0.date.(year := ImplicitYear(now, numDigits, segment)));
      if Current() == Some('-') {
        var _ := Next(1);
        o := ParseMonthOrWeek();
      } else {
        date := date.(monthOrWeek := 1, day := 1);
        o := Pass;
      }
    }

    /** Past `-YY-`: the month or the week, then the day or the weekday. */
    method ParseMonthOrWeek() returns (o: Outcome)
      requires Valid()
      modifies this`cIdx, this`date
      ensures Valid()
      ensures Agrees(o, MonthOrWeek(Context(), old(Snapshot())))
    {
      ghost var e := Context();
      ghost var st0 := Snapshot();
      if Current() == Some('W') {
        var _ := Next(1);
        date := date.(style := Week);
      }
      ghost var st1 := Snapshot();
      assert st1 == if At(s, st0.i) == Some('W') then State(Step(s, st0.i, 1), st0.date.(style := Week)) else st0;
      ShortReadsNeverThrow(s, cIdx);
      var _, _, monthOrWeek := ReadInt(Some(2));
      date := date.(monthOrWeek := monthOrWeek);
      if Current() == Some('-') {
        var _ := Next(1);
        assert MonthOrWeek(e, st0) == DayOrWeekday(e, Snapshot());
        o := ParseDayOrWeekday();
      } else {
        date := date.(day := 1);
        o := Pass;
      }
    }

    /** Past `-YY-MM-` or `-YY-Www-`: the day or the weekday. */
    method ParseDayOrWeekday() returns (o: Outcome)
      requires Valid()
      modifies this`cIdx, this`date
      ensures Valid()
      ensures Agrees(o, DayOrWeekday(Context(), old(Snapshot())))
    {
      if date.style == Week {
        var _, weekday :- ReadInt(None);
        if weekday > 7 {
          return Fail(Invalid);
        }
        date := date.(weekday := Some(weekday));
      } else {
        var _, day :- ReadInt(None);
        date := date.(day := day);
        if date.day == 0 {
          date := date.(day := 1);
        }
        if date.monthOrWeek == 0 {
          date := date.(monthOrWeek := 1);
        }
      }
      o := Pass;
    }

    /** The month-and-day reading of `parse_hyphens_0` inside `parse_digits_2`. */
    method ParseDigits2MonthAndDay() returns (o: Outcome)
      requires Valid() && DigitAt(s, cIdx)
      modifies this`cIdx, this`date
      ensures Valid()
      ensures Agrees(o, Digits2MonthAndDay(Context(), old(Snapshot())))
    {
      var vCount, vSeg :- ReadInt(None);
      match vCount {
      case 4 =>
        date := date.(day := vSeg % 100, monthOrWeek := vSeg / 100);
      case 1 =>
        if options.strict {
          return Fail(Invalid);
        }
      case 2 =>
        date := date.(monthOrWeek := vSeg);
        if Current() == Some('-') {
          var _ := Next(1);
          if IsDigitScalar(Current()) {
            ShortReadsNeverThrow(s, cIdx);
            var _, _, day := ReadInt(Some(2));
            date := date.(day := day);
          } else {
            date := date.(day := 1);
          }
        } else {
          date := date.(day := 1);
        }
      case 3 =>
        date := date.(day := vSeg, style := DateOnly);
      case _ =>
      }
      o := Pass;
    }

    /** `parse_hyphens_0` inside `parse_digits_2`. */
    method ParseDigits2Hyphens0(segment: nat) returns (o: Outcome)
      requires Valid()
      modifies this`cIdx, this`date
      ensures Valid()
      ensures Agrees(o, Digits2Hyphens0(Context(), old(Snapshot()), segment))
    {
      if Current() == Some('-') {
        o := ParseDigits2CenturyHyphen(segment);
      } else {
        o := ParseDigits2WeekOrCentury(segment);
      }
    }

    /** `YY-`: the year of the current century, then what follows the hyphen. */
    method ParseDigits2CenturyHyphen(segment: nat) returns (o: Outcome)
      requires Valid() && Current() == Some('-')
      modifies this`cIdx, this`date
      ensures Valid()
      ensures Agrees(o, Digits2Hyphens0(Context(), old(Snapshot()), segment))
    {
      ghost var e := Context();
      ghost var st0 := Snapshot();
      SetCenturyYear(segment);
      ghost var dated := Snapshot();
      assert dated == st0.(date := st0.date.(year := CenturyStart(e.now) + segment));
      var _ := Next(1);
      assert Snapshot() == Advance(e, dated);
      assert Digits2Hyphens0(e, st0, segment) == Digits2AfterHyphen(e, Advance(e, dated), segment);
      o := ParseDigits2AfterHyphen(segment);
    }

    /** `YY` not followed by `-`: a week of that year, or the century alone. */
    method ParseDigits2WeekOrCentury(segment: nat) returns (o: Outcome)
      requires Valid() && Current() != Some('-')
      modifies this`cIdx, this`date
      ensures Valid()
      ensures Agrees(o, Digits2Hyphens0(Context(), old(Snapshot()), segment))
    {
      ghost var e := Context();
      ghost var st0 := Snapshot();
      if Current() == Some('W') {
        SetCenturyYear(segment);
        assert Digits2Hyphens0(e, st0, segment) == WeekAndDay(e, Snapshot());
        o := ParseWeekAndDay();
      } else {
        CenturyOnly(segment);
        o := Pass;
      }
    }

    /** The year `YY` of the current century, as `parse_hyphens_0` of `parse_digits_2` sets it. */
    method SetCenturyYear(segment: nat)
      modifies this`date
      ensures date == old(date).(year := CenturyStart(now) + segment)
    {
      date := date.(year := now.year);
      date := date.(year := date.year - Rem(date.year, 100));
      date := date.(year := date.year + segment);
    }

    /** Past `YY-`: the week, the century or the month and day. */
    method ParseDigits2AfterHyphen(segment: nat) returns (o: Outcome)
      requires Valid()
      modifies this`cIdx, this`date
      ensures Valid()
      ensures Agrees(o, Digits2AfterHyphen(Context(), old(Snapshot()), segment))
    {
      if Current() == Some('W') {
        o := ParseWeekAndDay();
      } else if !IsDigitScalar(Current()) {
        CenturyOnly(segment);
        o := Pass;
      } else {
        o := ParseDigits2MonthAndDay();
      }
    }

    /** `parse_digits_2`. */
    method ParseDigits2(numDigits: nat, segment: nat) returns (o: Outcome)
      requires Valid()
      modifies this`cIdx, this`date
      ensures Valid()
      ensures Agrees(o, Digits2(Context(), old(Snapshot()), numDigits, segment))
    {
      match hyphens
      case 0 =>
        o := ParseDigits2Hyphens0(segment);
      case 1 =>
        o := ParseDigits2Hyphens1(numDigits, segment);
      case 2 =>
        ParseDigits2Hyphens2(segment);
        o := Pass;
      case 3 =>
        ParseDigits2Hyphens3(segment);
        o := Pass;
      case _ =>
        o := Fail(Invalid);
    }

    /** `parse_digits_3`. */
    method ParseDigits3(segment: nat) returns (o: Outcome)
      requires Valid()
      modifies this`date
      ensures Agrees(o, Digits3(Context(), old(Snapshot()), segment))
    {
      if hyphens < 1 || (hyphens > 2 && !options.strict) {
        return Fail(Invalid);
      }
      date := date.(day := segment, year := now.year, style := DateOnly);
      if options.strict && date.day > 365 + (if IsLeapYear(date.year) then 1 else 0) {
        return Fail(Invalid);
      }
      o := Pass;
    }

    /** What `parse_hyphens_0` inside `parse_digits_4` reads when a digit follows the year. */
    method ParseDigits4MonthAndDay() returns (o: Outcome)
      requires Valid() && DigitAt(s, cIdx)
      modifies this`cIdx, this`date
      ensures Valid()
      ensures Agrees(o, Digits4MonthAndDay(Context(), old(Snapshot())))
    {
      var vNum, vSeg :- ReadInt(None);
      match vNum {
      case 4 =>
        date := date.(day := vSeg % 100, monthOrWeek := vSeg / 100);
      case 2 =>
        date := date.(monthOrWeek := vSeg);
        if Current() == Some('-') {
          var _ := Next(1);
        }
        if !IsDigitScalar(Current()) {
          date := date.(day := 1);
        } else {
          var _, day :- ReadInt(None);
          date := date.(day := day);
        }
      case 3 =>
        date := date.(day := vSeg % 1000, style := DateOnly);
        if options.strict && date.day > 365 + (if IsLeapYear(date.year) then 1 else 0) {
          return Fail(Invalid);
        }
      case _ =>
        return Fail(Invalid);
      }
      o := Pass;
    }

    /** `parse_hyphens_0` inside `parse_digits_4`. */
    method ParseDigits4Hyphens0(segment: nat) returns (o: Outcome)
      requires Valid()
      modifies this`cIdx, this`date
      ensures Valid()
      ensures Agrees(o, Digits4Hyphens0(Context(), old(Snapshot()), segment))
    {
      date := date.(year := segment);
      if Current() == Some('-') {
        var _ := Next(1);
      }
      if !IsDigitScalar(Current()) {
        if Current() == Some('W') {
          o := ParseWeekAndDay();
        } else {
          date := date.(monthOrWeek := 1, day := 1);
          o := Pass;
        }
      } else {
        o := ParseDigits4MonthAndDay();
      }
    }

    /** `parse_hyphens_1` inside `parse_digits_4`. */
    method ParseDigits4Hyphens1(segment: nat) returns (o: Outcome)
      requires Valid()
      modifies this`cIdx, this`date
      ensures Valid()
      ensures Agrees(o, Digits4Hyphens1(Context(), old(Snapshot()), segment))
    {
      date := date.(monthOrWeek := segment % 100, year := segment / 100);
      if Current() == Some('-') {
        var _ := Next(1);
      }
      if !IsDigitScalar(Current()) {
        date := date.(day := 1);
      } else {
        var _, day :- ReadInt(None);
        date := date.(day := day);
      }
      o := Pass;
    }

    /** `parse_hyphens_2` inside `parse_digits_4`. */
    method ParseDigits4Hyphens2(segment: nat)
      modifies this`date
      ensures date == Digits4Hyphens2(Context(), old(Snapshot()), segment).date
    {
      date := date.(day := segment % 100, monthOrWeek := segment / 100, year := now.year);
    }

    /** `parse_digits_4`. */
    method ParseDigits4(segment: nat) returns (o: Outcome)
      requires Valid()
      modifies this`cIdx, this`date
      ensures Valid()
      ensures Agrees(o, Digits4(Context(), old(Snapshot()), segment))
    {
      match hyphens
      case 0 =>
        o := ParseDigits4Hyphens0(segment);
      case 1 =>
        o := ParseDigits4Hyphens1(segment);
      case 2 =>
        ParseDigits4Hyphens2(segment);
        o := Pass;
      case _ =>
        o := Fail(Invalid);
    }

    /** `parse_digits_5`. */
    method ParseDigits5(segment: nat) returns (o: Outcome)
      requires Valid()
      modifies this`date
      ensures Agrees(o, Digits5(Context(), old(Snapshot()), segment))
    {
      if hyphens != 0 {
        return Fail(Invalid);
      }
      date := date.(year := now.year);
      date := date.(year := date.year - Rem(date.year, 100));
      date := date.(year := date.year + segment / 1000);
      date := date.(day := segment % 1000, style := DateOnly);
      o := Pass;
    }

    /** `parse_digits_6`. */
    method ParseDigits6(segment: nat) returns (o: Outcome)
      requires Valid()
      modifies this`date
      ensures Agrees(o, Digits6(Context(), old(Snapshot()), segment))
    {
      if hyphens != 0 {
        return Fail(Invalid);
      }
      var seg := segment;
      date := date.(day := seg % 100);
      seg := seg / 100;
      date := date.(monthOrWeek := seg % 100);
      date := date.(year := now.year);
      date := date.(year := date.year - Rem(date.year, 100));
      date := date.(year := date.year + seg / 100);
      o := Pass;
    }

    /** `parse_digits_7`. */
    method ParseDigits7(segment: nat) returns (o: Outcome)
      requires Valid()
      modifies this`date
      ensures Agrees(o, Digits7(Context(), old(Snapshot()), segment))
    {
      if hyphens != 0 {
        return Fail(Invalid);
      }
      date := date.(day := segment % 1000, year := segment / 1000, style := DateOnly);
      if options.strict && date.day > 365 + (if IsLeapYear(date.year) then 1 else 0) {
        return Fail(Invalid);
      }
      o := Pass;
    }

    /** `parse_digits_8`. */
    method ParseDigits8(segment: nat) returns (o: Outcome)
      requires Valid()
      modifies this`date
      ensures Agrees(o, Digits8(Context(), old(Snapshot()), segment))
    {
      if hyphens != 0 {
        return Fail(Invalid);
      }
      var seg := segment;
      date := date.(day := seg % 100);
      seg := seg / 100;
      date := date.(monthOrWeek := seg % 100);
      date := date.(year := seg / 100);
      o := Pass;
    }

    // -------------------------------------------------------------------
    // parse()

    /** The `switch` on the length of the first digit run. */
    method ParseDispatch(numDigits: nat, segment: nat) returns (o: Outcome)
      requires Valid()
      modifies this`cIdx, this`date
      ensures Valid()
      ensures Agrees(o, Dispatch(Context(), old(Snapshot()), numDigits, segment))
    {
      match numDigits
      case 0 => o := ParseDigits0();
      case 8 => o := ParseDigits8(segment);
      case 6 => o := ParseDigits6(segment);
      case 4 => o := ParseDigits4(segment);
      case 5 => o := ParseDigits5(segment);
      case 1 => o := ParseDigits1(segment);
      case 2 => o := ParseDigits2(numDigits, segment);
      case 7 => o := ParseDigits7(segment);
      case 3 => o := ParseDigits3(segment);
      case _ => o := Fail(Invalid);
    }

    /** The first digit run and the branch its length selects. */
    method ParseFirstDigitRun() returns (o: Outcome)
      requires Valid()
      modifies this`cIdx, this`date
      ensures Valid()
      ensures Agrees(o, FirstDigitRun(Context(), old(Snapshot())))
    {
      var numDigits, segment :- ReadInt(None);
      o := ParseDispatch(numDigits, segment);
    }

    /** The date part of `parse()`. */
    method ParseDatePart() returns (o: Outcome)
      requires Valid()
      modifies this`cIdx, this`date
      ensures Valid()
      ensures Agrees(o, ParseDate(Context(), old(Snapshot())))
    {
      ghost var e := Context();
      ghost var st0 := Snapshot();
      if Current() == Some('T') {
        var _ := Next(1);
        assert Snapshot() == Advance(e, st0);
        if !IsDigitScalar(Current()) {
          return Fail(Invalid);
        }
        date := FromReference(date, now);
        return Pass;
      }
      o := ParseDateWithoutT();
    }

    /** The date part when it does not start with `T`: the leading hyphens, then a bare time or the first digit run. */
    method ParseDateWithoutT() returns (o: Outcome)
      requires Valid()
      modifies this`cIdx, this`date
      ensures Valid()
      ensures Agrees(o, DateWithoutT(Context(), old(Snapshot())))
    {
      ghost var e := Context();
      ghost var st0 := Snapshot();
      var _ := MoveUntilIs('-');
      assert Snapshot() == st0.(i := st0.i + Run(s, st0.i, '-'));
      if IsTimeOnly(s) {
        date := FromReference(date, now);
        return Pass;
      }
      assert DateWithoutT(e, st0) == FirstDigitRun(e, Snapshot());
      o := ParseFirstDigitRun();
    }

    /** Seconds and their fraction, after the second `:` of the fractional-minute path. */
    method ParseFractionalSeconds() returns (o: Outcome)
      requires Valid()
      modifies this`cIdx, this`date
      ensures Valid()
      ensures Agrees(o, FractionalSeconds(Context(), old(Snapshot())))
    {
      var _, value :- ReadDouble();
      var parts := Modf(value);
      date := date.(nanoseconds := (Round(parts.1 * 1000.0) as real) * 1_000_000.0);
      date := date.(seconds := parts.0);
      o := Pass;
    }

    /** The fractional-minute path of the time of day. */
    method ParseMinuteAndSecond() returns (o: Outcome)
      requires Valid()
      modifies this`cIdx, this`date
      ensures Valid()
      ensures Agrees(o, MinuteAndSecond(Context(), old(Snapshot())))
    {
      var _, minute :- ReadDouble();
      date := date.(minute := minute);
      if Current() != Some(':') {
        var parts := Modf(date.minute);
        date := date.(minute := parts.0, seconds := parts.1);
        if date.seconds > UlpOfOne {
          date := date.(seconds := date.seconds * 60.0);
        } else if Current() == Some(options.timeSeparator) {
          var _ := Next(1);
          o := ParseFractionalSeconds();
          return;
        }
      } else {
        var _ := Next(1);
        o := ParseFractionalSeconds();
        return;
      }
      o := Pass;
    }

    /** Whole minutes and seconds, when the time separator is `,` or `.`. */
    method ParseWholeMinuteAndSecond() returns (o: Outcome)
      requires Valid()
      modifies this`cIdx, this`date
      ensures Valid()
      ensures Agrees(o, WholeMinuteAndSecond(Context(), old(Snapshot())))
    {
      var timeSep := options.timeSeparator;
      ShortReadsNeverThrow(s, cIdx);
      var _, _, minute := ReadInt(Some(2));
      date := date.(minute := minute as real);
      if Current() == Some(timeSep) {
        var _ := Next(1);
        ShortReadsNeverThrow(s, cIdx);
        var _, _, seconds := ReadInt(Some(2));
        date := date.(seconds := seconds as real);
      }
      o := Pass;
    }

    /** Hour, minute and second. */
    method ParseTimeOfDay(hasTime: bool) returns (o: Outcome)
      requires Valid()
      modifies this`cIdx, this`date
      ensures Valid()
      ensures Agrees(o, TimeOfDay(Context(), old(Snapshot()), hasTime))
    {
      var timeSep := options.timeSeparator;
      var hasTimeSeparator := timeSep in s;
      ShortReadsNeverThrow(s, cIdx);
      var _, _, hour := ReadInt(Some(2));
      date := date.(hour := hour);
      if !hasTimeSeparator && hasTime {
        var _, minute :- ReadInt(Some(2));
        date := date.(minute := minute as real);
      } else if Current() == Some(timeSep) {
        var _ := Next(1);
        if timeSep == ',' || timeSep == '.' {
          o := ParseWholeMinuteAndSecond();
          return;
        } else {
          o := ParseMinuteAndSecond();
          return;
        }
      }
      o := Pass;
    }

    /** The `Z` or `±HH[:]MM` designator; it cannot throw. */
    method ParseZone()
      requires Valid()
      modifies this`cIdx, this`date
      ensures Valid()
      ensures Snapshot() == Zone(Context(), old(Snapshot()))
    {
      ghost var e := Context();
      ghost var st0 := Snapshot();
      if !options.strict {
        if cIdx != |s| && IsSpaceScalar(Current()) {
          var _ := Next(1);
        }
      }
      assert Snapshot() == if !options.strict && st0.i != |s| && SpaceAt(s, st0.i) then Advance(e, st0) else st0;
      if cIdx != |s| {
        var c := Current();
        if c == Some('Z') {
          date := date.(timezone := Some(UTC));
        } else if c == Some('+') || c == Some('-') {
          var isNegative := c == Some('-');
          var _ := Next(1);
          if IsDigitScalar(Current()) {
            ParseOffset(isNegative);
          }
        }
      }
    }

    /** The `±HH[:]MM` offset once past its sign; it cannot throw. */
    method ParseOffset(isNegative: bool)
      requires Valid() && DigitAt(s, cIdx)
      modifies this`cIdx, this`date
      ensures Valid()
      ensures Snapshot() == Offset(Context(), old(Snapshot()), isNegative)
    {
      ghost var e := Context();
      ghost var st0 := Snapshot();
      var timeSep := options.timeSeparator;
      ParseOffsetHours(isNegative);
      ghost var st1 := Snapshot();
      if Current() == Some(timeSep) {
        var _ := Next(1);
      }
      assert Snapshot() == SkipIf(e, st1, timeSep);
      ParseOffsetMinutes(isNegative);
      ghost var st2 := Snapshot();
      assert Offset(e, st0, isNegative)
          == st2.(date := st2.date.(timezone := Some(SecondsFromGMT(st2.date.tzHour * 3600 + st2.date.tzMinute * 60))));
      var timezoneOffset := date.tzHour * 3600 + date.tzMinute * 60;
      date := date.(timezone := Some(SecondsFromGMT(timezoneOffset)));
    }

    /** The hours of an offset, with its sign; it cannot throw. */
    method ParseOffsetHours(isNegative: bool)
      requires Valid() && DigitAt(s, cIdx)
      modifies this`cIdx, this`date
      ensures Valid()
      ensures Snapshot() == OffsetHours(Context(), old(Snapshot()), isNegative)
    {
      // A read of at most two digits cannot throw.
      ShortReadsNeverThrow(s, cIdx);
      var _, _, tzHour := ReadInt(Some(2));
      date := date.(tzHour := tzHour);
      if isNegative {
        date := date.(tzHour := -date.tzHour);
      }
    }

    /** The minutes of an offset, when a digit is under the cursor; it cannot throw. */
    method ParseOffsetMinutes(isNegative: bool)
      requires Valid()
      modifies this`cIdx, this`date
      ensures Valid()
      ensures Snapshot() == OffsetMinutes(Context(), old(Snapshot()), isNegative)
    {
      if IsDigitScalar(Current()) {
        // A read of at most two digits cannot throw.
        ShortReadsNeverThrow(s, cIdx);
        var _, _, tzMinute := ReadInt(Some(2));
        date := date.(tzMinute := tzMinute);
        if isNegative {
          date := date.(tzMinute := -date.tzMinute);
        }
      }
    }

    /** The time part of `parse()`: `T` or a space, then the time of day and the offset when a digit follows. */
    method ParseTimePart() returns (o: Outcome)
      requires Valid()
      modifies this`cIdx, this`date
      ensures Valid()
      ensures Agrees(o, TimeAndZone(Context(), old(Snapshot())))
    {
      var hasTime := false;
      if IsSpaceScalar(Current()) || Current() == Some('T') {
        hasTime := true;
        var _ := Next(1);
      }
      if IsDigitScalar(Current()) {
        o := ParseTimeOfDay(hasTime);
        if o.Fail? {
          return;
        }
        ParseZone();
      }
      o := Pass;
    }

    /** The end of `parse()`: the components handed to the calendar, a week date turned into a day of the year, and the zone. */
    method SetComponents()
      modifies this`dateComponents, this`parsedTimeZone
      ensures dateComponents == Some(ComponentsOf(date)) && parsedTimeZone == Some(ZoneOf(date))
    {
      var components := Components(date.year, None, date.day, date.hour,
                                   Trunc(date.minute), Trunc(date.seconds), Trunc(date.nanoseconds));
      match date.style {
      case MonthAndDate =>
        components := components.(month := Some(date.monthOrWeek));
      case Week =>
        var prevYear := date.year - 1;
        var yy := Rem(prevYear, 100);
        var prevC := prevYear - yy;
        var prevG := yy + Quot(yy, 4);
        var isLeapYear := Rem(Quot(prevC, 100), 4) * 5;
        var jan1Weekday := Rem(isLeapYear + prevG, 7);
        assert jan1Weekday == Jan1Weekday(date.year);
        var day := (8 - jan1Weekday) + 7 * (if jan1Weekday > Thursday then 1 else 0);
        day := day + (date.day - 1) + 7 * (date.monthOrWeek - 2);
        assert day == WeekToOrdinal(date.year, date.monthOrWeek, date.day, None);
        if date.weekday.Some? {
          components := components.(day := day + date.weekday.value);
        } else {
          components := components.(day := day);
        }
      case DateOnly =>
      }
      dateComponents := Some(components);
      parsedTimeZone := Some(if date.timezone.Some? then date.timezone.value else UTC);
    }

    /** `parse()`: the date, the time, then the components and the zone handed to the calendar. */
    method Parse() returns (o: Outcome)
      requires Valid()
      modifies this`cIdx, this`date, this`dateComponents, this`parsedTimeZone
      ensures Valid()
      ensures Agrees(o, ParseAll(Context(), old(Snapshot())))
      ensures o.Pass? ==> dateComponents == Some(ComponentsOf(date)) && parsedTimeZone == Some(ZoneOf(date))
    {
      o := ParseDatePart();
      if o.Fail? {
        return;
      }
      o := ParseTimePart();
      if o.Fail? {
        return;
      }
      SetComponents();
    }
  }

  /** `ISOParser(_:options:)`: no parser for empty input or for input `parse()` rejects. */
  method NewParser(src: seq<char>, options: Options, now: Reference) returns (p: ISOParser?)
    ensures p == null <==> Iso8601(src, options, now).None?
    ensures p != null ==> fresh(p) && p.dateComponents.Some? && p.parsedTimeZone.Some?
    ensures p != null ==> Iso8601(src, options, now) == Some(Parsed(p.dateComponents.value, p.parsedTimeZone.value))
  {
    if |src| == 0 {
      return null;
    }
    p := new ISOParser(src, options, now);
    var o := p.Parse();
    if o.Fail? {
      p := null;
    }
  }
}
