/**
 * End-to-end properties of `ISOParser`: what whole strings in the common
 * ISO 8601 shapes parse to, which shapes are refused, and how the week-date
 * projection relates to the ISO week calendar.
 */
module IsoProperties {
  import opened IsoTypes
  import opened IsoCalendar
  import opened IsoScanning
  import opened IsoGrammar

  // ---------------------------------------------------------------------
  // Texts

  /** `YYYY-MM-DD`. */
  function DateText(y: nat, m: nat, d: nat): seq<char>
  {
    DigitsOf(y, 4) + "-" + DigitsOf(m, 2) + "-" + DigitsOf(d, 2)
  }

  /** `HH:MM:SS`. */
  function TimeText(h: nat, mi: nat, sec: nat): seq<char>
  {
    DigitsOf(h, 2) + ":" + DigitsOf(mi, 2) + ":" + DigitsOf(sec, 2)
  }

  /** How the offset of a designator is written: `±HH:MM`, `±HHMM` or `±HH`. */
  datatype OffsetForm = Extended | Basic | HoursOnly

  /** A zone designator: `Z`, or a sign, two hour digits and the minutes in one of the offset forms. */
  datatype Designator = Zulu | Shift(negative: bool, hours: nat, minutes: nat, form: OffsetForm)

  /** Two digits each for the hours and the minutes, and no minutes at all in the `±HH` form. */
  predicate ValidDesignator(z: Designator)
  {
    z.Shift? ==> z.hours < 100 && z.minutes < 100 && (z.form == HoursOnly ==> z.minutes == 0)
  }

  /** What follows the hour digits of an offset: `:MM`, `MM` or nothing. */
  function MinutesText(minutes: nat, form: OffsetForm): seq<char>
  {
    match form
    case Extended => ":" + DigitsOf(minutes, 2)
    case Basic => DigitsOf(minutes, 2)
    case HoursOnly => []
  }

  function DesignatorText(z: Designator): seq<char>
  {
    match z
    case Zulu => "Z"
    case Shift(negative, hours, minutes, form) =>
      [if negative then '-' else '+'] + (DigitsOf(hours, 2) + MinutesText(minutes, form))
  }

  /** The zone a designator names: UTC, or its offset in seconds east of Greenwich. */
  function DesignatorMark(z: Designator): ZoneMark
  {
    match z
    case Zulu => UTC
    case Shift(negative, hours, minutes, _) =>
      var seconds := hours * 3600 + minutes * 60;
      SecondsFromGMT(if negative then -seconds else seconds)
  }

  // ---------------------------------------------------------------------
  // Reading digits back

  /** A run of `k` digits, cut where the scan stops, is read whole: its value and the cursor after it. */
  lemma ReadIntOfRun(s: seq<char>, i: nat, k: nat, cap: Option<nat>)
    requires 1 <= k <= 18 && i + k <= |s|
    requires forall j :: i <= j < i + k ==> IsDigit(s[j])
    requires cap.None? || k <= cap.value
    requires i + k == |s| || !IsDigit(s[i + k]) || (cap.Some? && k == cap.value)
    ensures ReadIntAt(s, i, cap) == Success(IntToken(k, DecimalValue(s[i..i + k]), i + k))
  {
    DigitRunIsMaximal(s, i, cap, k);
    DecimalValueAtSlice(s, i, i + k);
    Pow10Monotone(k, 18);
    Pow10OfEighteen();
  }

  /** `read_int` gives back the value whose `k` digits it reads. */
  lemma ReadIntOfDigits(s: seq<char>, i: nat, v: nat, k: nat, cap: Option<nat>)
    requires 1 <= k <= 18 && v < Pow10(k) && i + k <= |s|
    requires s[i..i + k] == DigitsOf(v, k)
    requires cap.None? || k <= cap.value
    requires i + k == |s| || !IsDigit(s[i + k]) || (cap.Some? && k == cap.value)
    ensures ReadIntAt(s, i, cap) == Success(IntToken(k, v, i + k))
  {
    forall j | i <= j < i + k
      ensures IsDigit(s[j])
    {
      assert s[j] == s[i..i + k][j - i];
    }
    ReadIntOfRun(s, i, k, cap);
    DigitsOfRoundTrip(v, k);
  }

  /** The scan of `read_double` over plain digits ends where they end. */
  lemma {:induction false} ScanOverDigits(s: seq<char>, j: nat, end: nat, seen: bool)
    requires j <= end <= |s|
    requires forall k :: j <= k < end ==> IsDigit(s[k])
    requires end == |s| || !(IsDigit(s[end]) || IsFractionSeparator(s[end]))
    ensures DoubleScan(s, j, seen) == Success(end)
    decreases end - j
  {
    if j < end {
      ScanOverDigits(s, j + 1, end, seen);
    }
  }

  /** `read_double` gives back the whole value whose `k` digits it reads. */
  lemma ReadDoubleOfDigits(s: seq<char>, i: nat, v: nat, k: nat)
    requires 1 <= k && v < Pow10(k) && i + k <= |s|
    requires s[i..i + k] == DigitsOf(v, k)
    requires i + k == |s| || !(IsDigit(s[i + k]) || IsFractionSeparator(s[i + k]))
    ensures ReadDoubleAt(s, i) == Success(DoubleToken(k, v as real, i + k))
  {
    var raw := s[i..i + k];
    forall j | i <= j < i + k
      ensures IsDigit(s[j])
    {
      assert s[j] == raw[j - i];
    }
    ScanOverDigits(s, i, i + k, false);
    assert Normalize(raw) == raw;
    assert forall j :: 0 <= j < k ==> IsDigit(raw[j]);
    assert PointIndex(raw) == k;
    assert raw[..k] == raw;
    DigitsOfRoundTrip(v, k);
    assert raw != ['.'] by {
      assert IsDigit(raw[0]);
    }
  }

  /** Where three texts stand once written one after the other. */
  lemma Pieces(s: seq<char>, i: nat, a: seq<char>, b: seq<char>, c: seq<char>)
    requires i + |a| + |b| + |c| <= |s| && s[i..i + |a| + |b| + |c|] == a + b + c
    ensures s[i..i + |a|] == a
    ensures s[i + |a|..i + |a| + |b|] == b
    ensures s[i + |a| + |b|..i + |a| + |b| + |c|] == c
  {
    var n := |a| + |b| + |c|;
    var t := a + b + c;
    forall k | 0 <= k < n
      ensures s[i + k] == t[k]
    {
      assert s[i..i + n][k] == s[i + k];
    }
    forall k | 0 <= k < |a|
      ensures s[i + k] == a[k]
    {
      assert s[i + k] == t[k];
    }
    assert s[i..i + |a|] == a;
    forall k | 0 <= k < |b|
      ensures s[i + |a| + k] == b[k]
    {
      assert s[i + (|a| + k)] == t[|a| + k];
    }
    assert s[i + |a|..i + |a| + |b|] == b;
    forall k | 0 <= k < |c|
      ensures s[i + |a| + |b| + k] == c[k]
    {
      assert s[i + (|a| + |b| + k)] == t[|a| + |b| + k];
    }
    assert s[i + |a| + |b|..i + n] == c;
  }

  // ---------------------------------------------------------------------
  // The extended calendar date and time

  /** `YYYY-MM-DD` at the start of the input sets the year, the month and the day. */
  lemma ExtendedDateParses(e: Env, d0: ParsedDate, y: nat, m: nat, d: nat)
    requires y < 10000 && m < 100 && d < 100
    requires |e.s| >= 10 && e.s[..10] == DateText(y, m, d) && e.hyphens == 0
    requires |e.s| == 10 || !IsDigit(e.s[10])
    ensures ParseDate(e, State(0, d0)) == Success(State(10, d0.(year := y, monthOrWeek := m, day := d)))
  {
    var s := e.s;
    var t := DateText(y, m, d);
    assert t[..4] == DigitsOf(y, 4) && t[4] == '-';
    assert t[5..7] == DigitsOf(m, 2) && t[7] == '-';
    assert t[8..10] == DigitsOf(d, 2);
    assert s[0..4] == t[..4] && s[4] == '-';
    assert s[5..7] == t[5..7] && s[7] == '-';
    assert s[8..10] == t[8..10];
    assert IsDigit(DigitsOf(y, 4)[0]);
    ReadIntOfDigits(s, 0, y, 4, None);
    assert Run(s, 0, '-') == 0;
    assert !IsTimeOnly(s);
    MonthAndDayParse(e, d0.(year := y), m, d);
    assert Digits4Hyphens0(e, State(4, d0), y) == Success(State(10, d0.(year := y, monthOrWeek := m, day := d)));
    assert FirstDigitRun(e, State(0, d0)) == Dispatch(e, State(4, d0), 4, y);
  }

  /** `MM-DD` after `YYYY-`: the month and the day. */
  lemma MonthAndDayParse(e: Env, d0: ParsedDate, m: nat, d: nat)
    requires m < 100 && d < 100
    requires |e.s| >= 10 && e.s[5..7] == DigitsOf(m, 2) && e.s[7] == '-' && e.s[8..10] == DigitsOf(d, 2)
    requires |e.s| == 10 || !IsDigit(e.s[10])
    ensures DigitAt(e.s, 5)
    ensures Digits4MonthAndDay(e, State(5, d0)) == Success(State(10, d0.(monthOrWeek := m, day := d)))
  {
    assert IsDigit(DigitsOf(m, 2)[0]) && e.s[5] == DigitsOf(m, 2)[0];
    ReadIntOfDigits(e.s, 5, m, 2, None);
    ReadIntOfDigits(e.s, 8, d, 2, None);
  }

  /** `MM:SS` past the first `:` sets the minute and the second, and no fraction. */
  lemma MinuteAndSecondParse(e: Env, st: State, mi: nat, sec: nat)
    requires mi < 100 && sec < 100
    requires st.i + 5 <= |e.s| && e.s[st.i..st.i + 5] == DigitsOf(mi, 2) + ":" + DigitsOf(sec, 2)
    requires st.i + 5 == |e.s| || !(IsDigit(e.s[st.i + 5]) || IsFractionSeparator(e.s[st.i + 5]))
    ensures MinuteAndSecond(e, st)
         == Success(State(st.i + 5, st.date.(minute := mi as real, seconds := sec as real, nanoseconds := 0.0)))
  {
    var s := e.s;
    var i := st.i;
    var t := DigitsOf(mi, 2) + ":" + DigitsOf(sec, 2);
    assert t[..2] == DigitsOf(mi, 2) && t[2] == ':' && t[3..5] == DigitsOf(sec, 2);
    assert s[i..i + 2] == t[..2] && s[i + 2] == ':' && s[i + 3..i + 5] == t[3..5];
    ReadDoubleOfDigits(s, i, mi, 2);
    var d1 := st.date.(minute := mi as real);
    WholeSecondsParse(e, State(i + 3, d1), sec);
  }

  /** Whole seconds past the second `:`: no fraction, so no nanoseconds. */
  lemma WholeSecondsParse(e: Env, st: State, sec: nat)
    requires sec < 100
    requires st.i + 2 <= |e.s| && e.s[st.i..st.i + 2] == DigitsOf(sec, 2)
    requires st.i + 2 == |e.s| || !(IsDigit(e.s[st.i + 2]) || IsFractionSeparator(e.s[st.i + 2]))
    ensures FractionalSeconds(e, st) == Success(State(st.i + 2, st.date.(nanoseconds := 0.0, seconds := sec as real)))
  {
    ReadDoubleOfDigits(e.s, st.i, sec, 2);
    assert Modf(sec as real) == (sec as real, 0.0);
    assert Round(0.0 * 1000.0) == 0;
  }

  /** `HH:MM:SS` with `:` as the time separator sets the hour, the minute and the second, and no fraction. */
  lemma ExtendedTimeParses(e: Env, st: State, hasTime: bool, h: nat, mi: nat, sec: nat)
    requires h < 100 && mi < 100 && sec < 100
    requires e.options.timeSeparator == ':'
    requires st.i + 8 <= |e.s| && e.s[st.i..st.i + 8] == TimeText(h, mi, sec)
    requires st.i + 8 == |e.s| || !(IsDigit(e.s[st.i + 8]) || IsFractionSeparator(e.s[st.i + 8]) || e.s[st.i + 8] == ':')
    ensures TimeOfDay(e, st, hasTime)
         == Success(State(st.i + 8, st.date.(hour := h, minute := mi as real, seconds := sec as real, nanoseconds := 0.0)))
  {
    var s := e.s;
    var i := st.i;
    var t := TimeText(h, mi, sec);
    assert t[..2] == DigitsOf(h, 2) && t[2] == ':';
    assert t[3..8] == DigitsOf(mi, 2) + ":" + DigitsOf(sec, 2);
    assert s[i..i + 2] == t[..2] && s[i + 2] == ':';
    assert s[i + 3..i + 8] == t[3..8];
    ReadIntOfDigits(s, i, h, 2, Some(2));
    var d1 := st.date.(hour := h);
    MinuteAndSecondParse(e, State(i + 3, d1), mi, sec);
    assert ':' in s;
  }

  /** An offset that ends the input, past its sign, in any of its forms: the signed hours and minutes, and the zone they make. */
  lemma OffsetParses(e: Env, st: State, z: Designator)
    requires z.Shift? && ValidDesignator(z) && e.options.timeSeparator == ':'
    requires z.form == HoursOnly ==> st.date.tzMinute == 0
    requires var t := DigitsOf(z.hours, 2) + MinutesText(z.minutes, z.form);
      st.i + |t| == |e.s| && e.s[st.i..] == t
    ensures DigitAt(e.s, st.i)
    ensures Offset(e, st, z.negative).date
         == st.date.(tzHour := Signed(z.negative, z.hours), tzMinute := Signed(z.negative, z.minutes),
                     timezone := Some(DesignatorMark(z)))
  {
    match z.form
    case Extended => ExtendedOffsetParses(e, st, z);
    case Basic => BasicOffsetParses(e, st, z);
    case HoursOnly => HoursOffsetParses(e, st, z);
  }

  /** The two hour digits at the start of an offset. */
  lemma OffsetHoursParse(e: Env, st: State, hours: nat, rest: seq<char>)
    requires hours < 100 && st.i <= |e.s| && e.s[st.i..] == DigitsOf(hours, 2) + rest
    ensures st.i + 2 <= |e.s| && DigitAt(e.s, st.i) && e.s[st.i + 2..] == rest
    ensures ReadIntAt(e.s, st.i, Some(2)) == Success(IntToken(2, hours, st.i + 2))
  {
    var s, i, hh := e.s, st.i, DigitsOf(hours, 2);
    assert s[i..i + 2] == s[i..][..2] == hh && s[i] == hh[0];
    assert s[i + 2..] == s[i..][2..];
    ReadIntOfDigits(s, i, hours, 2, Some(2));
  }

  /** `HH:MM` past the sign. */
  lemma ExtendedOffsetParses(e: Env, st: State, z: Designator)
    requires z.Shift? && z.form == Extended && z.hours < 100 && z.minutes < 100 && e.options.timeSeparator == ':'
    requires st.i + 5 == |e.s| && e.s[st.i..] == DigitsOf(z.hours, 2) + (":" + DigitsOf(z.minutes, 2))
    ensures DigitAt(e.s, st.i)
    ensures Offset(e, st, z.negative).date
         == st.date.(tzHour := Signed(z.negative, z.hours), tzMinute := Signed(z.negative, z.minutes),
                     timezone := Some(DesignatorMark(z)))
  {
    var negative, hours, minutes := z.negative, z.hours, z.minutes;
    assert z == Shift(negative, hours, minutes, Extended);
    OffsetHoursParse(e, st, hours, ":" + DigitsOf(minutes, 2));
    var d1 := st.date.(tzHour := Signed(negative, hours));
    assert e.s[st.i + 2] == ':' && e.s[st.i + 3..st.i + 5] == e.s[st.i + 2..][1..];
    OffsetMinutesParse(e, State(st.i + 3, d1), negative, minutes);
    OffsetOfSteps(e, st, negative, hours, minutes, st.i + 3, st.i + 5);
  }

  /** `HHMM` past the sign. */
  lemma BasicOffsetParses(e: Env, st: State, z: Designator)
    requires z.Shift? && z.form == Basic && z.hours < 100 && z.minutes < 100 && e.options.timeSeparator == ':'
    requires st.i + 4 == |e.s| && e.s[st.i..] == DigitsOf(z.hours, 2) + DigitsOf(z.minutes, 2)
    ensures DigitAt(e.s, st.i)
    ensures Offset(e, st, z.negative).date
         == st.date.(tzHour := Signed(z.negative, z.hours), tzMinute := Signed(z.negative, z.minutes),
                     timezone := Some(DesignatorMark(z)))
  {
    var negative, hours, minutes := z.negative, z.hours, z.minutes;
    assert DesignatorMark(z) == DesignatorMark(Shift(negative, hours, minutes, Extended));
    OffsetHoursParse(e, st, hours, DigitsOf(minutes, 2));
    var d1 := st.date.(tzHour := Signed(negative, hours));
    assert e.s[st.i + 2..st.i + 4] == e.s[st.i + 2..] && e.s[st.i + 2] == DigitsOf(minutes, 2)[0];
    OffsetMinutesParse(e, State(st.i + 2, d1), negative, minutes);
    OffsetOfSteps(e, st, negative, hours, minutes, st.i + 2, st.i + 4);
  }

  /** `HH` that ends the input, past the sign: the minutes stay 0. */
  lemma HoursOffsetParses(e: Env, st: State, z: Designator)
    requires z.Shift? && z.form == HoursOnly && z.hours < 100 && z.minutes == 0 && st.date.tzMinute == 0
    requires st.i + 2 == |e.s| && e.s[st.i..] == DigitsOf(z.hours, 2) + []
    ensures DigitAt(e.s, st.i)
    ensures Offset(e, st, z.negative).date
         == st.date.(tzHour := Signed(z.negative, z.hours), tzMinute := Signed(z.negative, z.minutes),
                     timezone := Some(DesignatorMark(z)))
  {
    var negative, hours := z.negative, z.hours;
    assert DesignatorMark(z) == DesignatorMark(Shift(negative, hours, 0, Extended));
    OffsetHoursParse(e, st, hours, []);
    var d1 := st.date.(tzHour := Signed(negative, hours));
    assert d1 == d1.(tzMinute := Signed(negative, 0));
    OffsetOfSteps(e, st, negative, hours, 0, st.i + 2, st.i + 2);
  }

  /** The offset once its hours, the optional separator and the minutes are read: the zone of those signed hours and minutes. */
  lemma OffsetOfSteps(e: Env, st: State, negative: bool, hours: nat, minutes: nat, j: nat, end: nat)
    requires Within(e, st) && DigitAt(e.s, st.i) && st.i + 2 <= j <= end <= |e.s|
    requires var d1 := st.date.(tzHour := Signed(negative, hours));
      && OffsetHours(e, st, negative) == State(st.i + 2, d1)
      && SkipIf(e, State(st.i + 2, d1), e.options.timeSeparator) == State(j, d1)
      && OffsetMinutes(e, State(j, d1), negative) == State(end, d1.(tzMinute := Signed(negative, minutes)))
    ensures Offset(e, st, negative).date
         == st.date.(tzHour := Signed(negative, hours), tzMinute := Signed(negative, minutes),
                     timezone := Some(DesignatorMark(Shift(negative, hours, minutes, Extended))))
  {
    var d1 := st.date.(tzHour := Signed(negative, hours));
    var st2 := State(end, d1.(tzMinute := Signed(negative, minutes)));
    var zone := SecondsFromGMT(st2.date.tzHour * 3600 + st2.date.tzMinute * 60);
    assert Offset(e, st, negative) == st2.(date := st2.date.(timezone := Some(zone)));
    ShiftSeconds(negative, hours, minutes);
  }

  /** The signed hours and minutes of an offset add up to the seconds of its zone. */
  lemma ShiftSeconds(negative: bool, hours: nat, minutes: nat)
    ensures SecondsFromGMT(Signed(negative, hours) * 3600 + Signed(negative, minutes) * 60)
         == DesignatorMark(Shift(negative, hours, minutes, Extended))
  {
  }

  /** Two minute digits of an offset: the signed minutes. */
  lemma OffsetMinutesParse(e: Env, st: State, negative: bool, minutes: nat)
    requires minutes < 100
    requires st.i + 2 <= |e.s| && e.s[st.i..st.i + 2] == DigitsOf(minutes, 2)
    ensures OffsetMinutes(e, st, negative) == State(st.i + 2, st.date.(tzMinute := Signed(negative, minutes)))
  {
    assert IsDigit(DigitsOf(minutes, 2)[0]) && e.s[st.i] == DigitsOf(minutes, 2)[0];
    ReadIntOfDigits(e.s, st.i, minutes, 2, Some(2));
  }

  /** A designator that ends the input sets the zone it names, and nothing but the offset fields besides. */
  lemma DesignatorParses(e: Env, st: State, z: Designator)
    requires ValidDesignator(z) && e.options.timeSeparator == ':'
    requires z.Shift? && z.form == HoursOnly ==> st.date.tzMinute == 0
    requires st.i + |DesignatorText(z)| == |e.s| && e.s[st.i..] == DesignatorText(z)
    ensures var r := Zone(e, st).date;
      r.timezone == Some(DesignatorMark(z))
      && r == st.date.(timezone := r.timezone, tzHour := r.tzHour, tzMinute := r.tzMinute)
  {
    var s := e.s;
    var i := st.i;
    var t := DesignatorText(z);
    assert s[i] == t[0];
    match z
    case Zulu =>
      ZoneAtZulu(e, st);
    case Shift(negative, _, _, _) =>
      assert s[i + 1..] == t[1..] == DigitsOf(z.hours, 2) + MinutesText(z.minutes, z.form);
      OffsetParses(e, State(i + 1, st.date), z);
      ZoneAtSign(e, st, negative);
  }

  /** `Z` under the cursor: the zone is UTC and the cursor stays. */
  lemma ZoneAtZulu(e: Env, st: State)
    requires st.i < |e.s| && e.s[st.i] == 'Z'
    ensures Zone(e, st) == st.(date := st.date.(timezone := Some(UTC)))
  {
    assert !SpaceAt(e.s, st.i);
  }

  /** A sign then a digit under the cursor: the zone is the offset read past the sign. */
  lemma ZoneAtSign(e: Env, st: State, negative: bool)
    requires st.i + 1 < |e.s| && e.s[st.i] == (if negative then '-' else '+') && DigitAt(e.s, st.i + 1)
    ensures Zone(e, st) == Offset(e, State(st.i + 1, st.date), negative)
  {
    assert !SpaceAt(e.s, st.i);
  }

  /**
   * The round trip of the extended format: `YYYY-MM-DDTHH:MM:SS` followed by
   * `Z`, `±HH:MM`, `±HHMM` or `±HH` yields exactly those components and that
   * zone, strict or not, whatever the clock says.
   */
  lemma {:induction false} ExtendedDateTimeRoundTrip(y: nat, m: nat, d: nat, h: nat, mi: nat, sec: nat,
                                                     z: Designator, strict: bool, now: Reference)
    requires y < 10000 && m < 100 && d < 100 && h < 100 && mi < 100 && sec < 100
    requires ValidDesignator(z)
    ensures Iso8601(DateText(y, m, d) + "T" + TimeText(h, mi, sec) + DesignatorText(z), MakeOptions(strict), now)
         == Some(Parsed(Components(y, Some(m), d, h, mi, sec, 0), DesignatorMark(z)))
  {
    var s := DateText(y, m, d) + "T" + TimeText(h, mi, sec) + DesignatorText(z);
    ExtendedDateTimeShape(y, m, d, h, mi, sec, z);
    var e := InputEnv(s, MakeOptions(strict), now);
    ExtendedDateTimeParses(e, y, m, d, h, mi, sec, z);
    var r := ParseAll(e, State(0, InitialDate));
    assert ComponentsOf(r.value.date) == Components(y, Some(m), d, h, mi, sec, 0);
  }

  /** Where the date, the `T` and the rest stand in `YYYY-MM-DDTHH:MM:SS` and a designator. */
  lemma ExtendedDateTimeShape(y: nat, m: nat, d: nat, h: nat, mi: nat, sec: nat, z: Designator)
    requires y < 10000
    ensures var s := DateText(y, m, d) + "T" + TimeText(h, mi, sec) + DesignatorText(z);
      |s| == 19 + |DesignatorText(z)| && Run(s, 0, '-') == 0 &&
      s[..10] == DateText(y, m, d) && s[10..] == "T" + TimeText(h, mi, sec) + DesignatorText(z)
  {
    var a := DateText(y, m, d);
    var s := a + "T" + TimeText(h, mi, sec) + DesignatorText(z);
    HeadThenT(a, TimeText(h, mi, sec), DesignatorText(z));
    assert IsDigit(DigitsOf(y, 4)[0]) && s[0] == a[0] == DigitsOf(y, 4)[0];
  }

  /** A text, then `T` and two more texts: the first text, then the rest from the `T` on. */
  lemma HeadThenT(a: seq<char>, b: seq<char>, c: seq<char>)
    ensures |a + "T" + b + c| == |a| + 1 + |b| + |c|
    ensures (a + "T" + b + c)[..|a|] == a && (a + "T" + b + c)[|a|..] == "T" + b + c
  {
  }

  /** `YYYY-MM-DDTHH:MM:SS` and a designator, as a whole input: the date, the time of day and the zone. */
  lemma ExtendedDateTimeParses(e: Env, y: nat, m: nat, d: nat, h: nat, mi: nat, sec: nat, z: Designator)
    requires y < 10000 && m < 100 && d < 100 && h < 100 && mi < 100 && sec < 100
    requires ValidDesignator(z)
    requires e.options.timeSeparator == ':' && e.hyphens == 0
    requires |e.s| == 19 + |DesignatorText(z)|
    requires e.s[..10] == DateText(y, m, d) && e.s[10..] == "T" + TimeText(h, mi, sec) + DesignatorText(z)
    ensures ParseAll(e, State(0, InitialDate)).Success?
    ensures var r := ParseAll(e, State(0, InitialDate)).value.date;
      r.timezone == Some(DesignatorMark(z))
      && r == InitialDate.(year := y, monthOrWeek := m, day := d, hour := h, minute := mi as real,
                           seconds := sec as real, nanoseconds := 0.0,
                           timezone := r.timezone, tzHour := r.tzHour, tzMinute := r.tzMinute)
  {
    var d1 := InitialDate.(year := y, monthOrWeek := m, day := d);
    assert e.s[10] == 'T';
    ExtendedDateParses(e, InitialDate, y, m, d);
    TimeAndDesignatorParse(e, d1, h, mi, sec, z);
  }

  /** `THH:MM:SS` and a designator after the date: the time of day, then the zone. */
  lemma TimeAndDesignatorParse(e: Env, d1: ParsedDate, h: nat, mi: nat, sec: nat, z: Designator)
    requires h < 100 && mi < 100 && sec < 100
    requires ValidDesignator(z) && d1.tzMinute == 0
    requires e.options.timeSeparator == ':'
    requires |e.s| == 19 + |DesignatorText(z)|
    requires e.s[10..] == "T" + TimeText(h, mi, sec) + DesignatorText(z)
    ensures TimeAndZone(e, State(10, d1)).Success?
    ensures var r := TimeAndZone(e, State(10, d1)).value.date;
      r.timezone == Some(DesignatorMark(z))
      && r == d1.(hour := h, minute := mi as real, seconds := sec as real, nanoseconds := 0.0,
                  timezone := r.timezone, tzHour := r.tzHour, tzMinute := r.tzMinute)
  {
    var s := e.s;
    var t := "T" + TimeText(h, mi, sec) + DesignatorText(z);
    assert s[10] == t[0] == 'T';
    assert s[11..19] == t[1..9] == TimeText(h, mi, sec);
    assert s[19..] == t[9..] == DesignatorText(z);
    assert s[19] == DesignatorText(z)[0];
    assert IsDigit(DigitsOf(h, 2)[0]) && s[11] == DigitsOf(h, 2)[0];
    var d2 := d1.(hour := h, minute := mi as real, seconds := sec as real, nanoseconds := 0.0);
    ExtendedTimeParses(e, State(11, d1), true, h, mi, sec);
    DesignatorParses(e, State(19, d2), z);
    assert TimeAndZone(e, State(10, d1)) == Success(Zone(e, State(19, d2)));
  }

  // ---------------------------------------------------------------------
  // The basic calendar date

  /** `YYYYMMDD`. */
  function BasicDateText(y: nat, m: nat, d: nat): seq<char>
  {
    DigitsOf(y, 4) + DigitsOf(m, 2) + DigitsOf(d, 2)
  }

  /** The eight digits of `YYYYMMDD` read as one number. */
  lemma BasicDateValue(y: nat, m: nat, d: nat)
    requires y < 10000 && m < 100 && d < 100
    ensures |BasicDateText(y, m, d)| == 8 && forall k :: 0 <= k < 8 ==> IsDigit(BasicDateText(y, m, d)[k])
    ensures DecimalValue(BasicDateText(y, m, d)) == y * 10000 + m * 100 + d
  {
    assert forall k :: 0 <= k < 8 ==> IsDigit(BasicDateText(y, m, d)[k]);
    var ym := DigitsOf(y, 4) + DigitsOf(m, 2);
    assert Pow10(2) == 100;
    assert DecimalValue(ym) == y * 100 + m by {
      DecimalValueConcat(DigitsOf(y, 4), DigitsOf(m, 2));
      DigitsOfRoundTrip(y, 4);
      DigitsOfRoundTrip(m, 2);
    }
    assert DecimalValue(ym + DigitsOf(d, 2)) == DecimalValue(ym) * 100 + d by {
      DecimalValueConcat(ym, DigitsOf(d, 2));
      DigitsOfRoundTrip(d, 2);
    }
    assert (y * 100 + m) * 100 == y * 10000 + m * 100;
  }

  /** `YYYYMMDD` at the start of the input sets the year, the month and the day. */
  lemma BasicDateParses(e: Env, d0: ParsedDate, y: nat, m: nat, d: nat)
    requires y < 10000 && m < 100 && d < 100
    requires |e.s| >= 8 && e.s[..8] == BasicDateText(y, m, d) && e.hyphens == 0
    requires |e.s| == 8 || !IsDigit(e.s[8])
    requires ':' in e.s ==> 'T' in e.s || '-' in e.s
    ensures ParseDate(e, State(0, d0)) == Success(State(8, d0.(year := y, monthOrWeek := m, day := d)))
  {
    var v := y * 10000 + m * 100 + d;
    BasicDateRun(e.s, y, m, d, v);
    DateOfEightDigits(e, d0, y, m, d, v);
  }

  /** `YYYYMMDD` at the start of `s`, and no ninth digit: one run worth `v`, the number `YYYYMMDD`, and no hyphen before it. */
  lemma BasicDateRun(s: seq<char>, y: nat, m: nat, d: nat, v: nat)
    requires y < 10000 && m < 100 && d < 100 && v == y * 10000 + m * 100 + d
    requires |s| >= 8 && s[..8] == BasicDateText(y, m, d)
    requires |s| == 8 || !IsDigit(s[8])
    ensures ReadIntAt(s, 0, None) == Success(IntToken(8, v, 8))
    ensures Run(s, 0, '-') == 0
  {
    BasicDateValue(y, m, d);
    EightDigitRun(s, BasicDateText(y, m, d), v);
  }

  /** An eight-digit run worth `YYYYMMDD`, with no hyphen before it: that year, month and day. */
  lemma DateOfEightDigits(e: Env, d0: ParsedDate, y: nat, m: nat, d: nat, v: nat)
    requires m < 100 && d < 100 && e.hyphens == 0 && v == y * 10000 + m * 100 + d
    requires ReadIntAt(e.s, 0, None) == Success(IntToken(8, v, 8)) && Run(e.s, 0, '-') == 0
    requires ':' in e.s ==> 'T' in e.s || '-' in e.s
    ensures ParseDate(e, State(0, d0)) == Success(State(8, d0.(year := y, monthOrWeek := m, day := d)))
  {
    EightDigitDate(e, d0, v);
    SplitDateNumber(v, y, m, d);
    assert d0.(year := v / 100 / 100, monthOrWeek := v / 100 % 100, day := v % 100)
        == d0.(year := y, monthOrWeek := m, day := d);
  }

  /** `parse_digits_8` splits `YYYYMMDD` back into its year, month and day. */
  lemma SplitDateNumber(seg: nat, y: nat, m: nat, d: nat)
    requires m < 100 && d < 100 && seg == y * 10000 + m * 100 + d
    ensures seg / 100 / 100 == y && seg / 100 % 100 == m && seg % 100 == d
  {
    assert seg == (y * 100 + m) * 100 + d;
    assert seg / 100 == y * 100 + m && seg % 100 == d;
    assert (y * 100 + m) / 100 == y && (y * 100 + m) % 100 == m;
  }

  /** Eight digits at the start of the input, and no ninth: one run, read whole. */
  lemma EightDigitRun(s: seq<char>, t: seq<char>, v: nat)
    requires |t| == 8 && (forall k :: 0 <= k < 8 ==> IsDigit(t[k])) && DecimalValue(t) == v
    requires |s| >= 8 && s[..8] == t
    requires |s| == 8 || !IsDigit(s[8])
    ensures ReadIntAt(s, 0, None) == Success(IntToken(8, v, 8))
    ensures Run(s, 0, '-') == 0
  {
    assert forall k :: 0 <= k < 8 ==> s[k] == t[k];
    ReadIntOfRun(s, 0, 8, None);
    assert s[0..8] == t;
  }

  /** A first run of eight digits, with no hyphen in the input: the date `parse_digits_8` splits off. */
  lemma EightDigitDate(e: Env, d0: ParsedDate, seg: nat)
    requires e.hyphens == 0 && ReadIntAt(e.s, 0, None) == Success(IntToken(8, seg, 8)) && Run(e.s, 0, '-') == 0
    requires ':' in e.s ==> 'T' in e.s || '-' in e.s
    ensures ParseDate(e, State(0, d0)) == Success(State(8, d0.(year := seg / 100 / 100, monthOrWeek := seg / 100 % 100, day := seg % 100)))
  {
    assert At(e.s, 0) != Some('T') by {
      assert DigitRun(e.s, 0, None) == 8;
    }
    assert FirstDigitRun(e, State(0, d0)) == Dispatch(e, State(8, d0), 8, seg);
  }

  /** The round trip of the basic format: `YYYYMMDD` alone is that date, at midnight, in UTC. */
  lemma BasicDateRoundTrip(y: nat, m: nat, d: nat, strict: bool, now: Reference)
    requires y < 10000 && m < 100 && d < 100
    ensures Iso8601(BasicDateText(y, m, d), MakeOptions(strict), now)
         == Some(Parsed(Components(y, Some(m), d, 0, 0, 0, 0), UTC))
  {
    var s := BasicDateText(y, m, d);
    var e := InputEnv(s, MakeOptions(strict), now);
    assert forall k :: 0 <= k < 8 ==> IsDigit(s[k]);
    assert s[..8] == s;
    assert Run(s, 0, '-') == 0;
    assert ':' !in s;
    BasicDateParses(e, InitialDate, y, m, d);
  }

  /**
   * With no `:` anywhere, the time after `T` is read as `HHMM`: in
   * `YYYYMMDDTHHMMSS` the seconds are left unread, and the string parses as
   * that minute with no seconds.
   */
  lemma BasicTimeIgnoresSeconds(y: nat, m: nat, d: nat, h: nat, mi: nat, sec: nat, strict: bool, now: Reference)
    requires y < 10000 && m < 100 && d < 100 && h < 100 && mi < 100 && sec < 100
    ensures Iso8601(BasicDateTimeText(y, m, d, h, mi, sec), MakeOptions(strict), now)
         == Some(Parsed(Components(y, Some(m), d, h, mi, 0, 0), UTC))
  {
    BasicDateTimeShape(y, m, d, h, mi, sec);
    BasicDateTimeParses(InputEnv(BasicDateTimeText(y, m, d, h, mi, sec), MakeOptions(strict), now), y, m, d, h, mi);
  }

  /** `YYYYMMDDTHHMMSS`. */
  function BasicDateTimeText(y: nat, m: nat, d: nat, h: nat, mi: nat, sec: nat): seq<char>
  {
    BasicDateText(y, m, d) + ("T" + (DigitsOf(h, 2) + (DigitsOf(mi, 2) + DigitsOf(sec, 2))))
  }

  /** The pieces of `YYYYMMDDTHHMMSS` where the parser looks for them. */
  lemma BasicDateTimeShape(y: nat, m: nat, d: nat, h: nat, mi: nat, sec: nat)
    requires y < 10000 && m < 100 && d < 100 && h < 100 && mi < 100 && sec < 100
    ensures var s := BasicDateTimeText(y, m, d, h, mi, sec);
      |s| > 13 && ':' !in s && Run(s, 0, '-') == 0 &&
      s[..8] == BasicDateText(y, m, d) && s[8] == 'T' &&
      s[9..11] == DigitsOf(h, 2) && s[11..13] == DigitsOf(mi, 2) && IsDigit(s[13])
  {
    var a, b, c, f := BasicDateText(y, m, d), DigitsOf(h, 2), DigitsOf(mi, 2), DigitsOf(sec, 2);
    var s := BasicDateTimeText(y, m, d, h, mi, sec);
    assert |a| == 8;
    assert s[..8] == a && s[8..] == "T" + (b + (c + f));
    assert s[9..] == b + (c + f);
    assert s[9..11] == b && s[11..] == c + f;
    assert s[11..13] == c && s[13] == f[0];
    assert forall k :: 0 <= k < |a| ==> IsDigit(a[k]) by {
      Pieces(a, 0, DigitsOf(y, 4), DigitsOf(m, 2), DigitsOf(d, 2));
      assert forall k :: 0 <= k < 4 ==> a[k] == DigitsOf(y, 4)[k];
      assert forall k :: 4 <= k < 6 ==> a[k] == DigitsOf(m, 2)[k - 4];
      assert forall k :: 6 <= k < 8 ==> a[k] == DigitsOf(d, 2)[k - 6];
    }
    BasicDateTimeHasNoColon(a, b, c, f);
    assert s[0] == a[0];
  }

  /** Digits and a `T` hold no `:`. */
  lemma BasicDateTimeHasNoColon(a: seq<char>, b: seq<char>, c: seq<char>, f: seq<char>)
    requires forall k :: 0 <= k < |a| ==> IsDigit(a[k])
    requires forall k :: 0 <= k < |b| ==> IsDigit(b[k])
    requires forall k :: 0 <= k < |c| ==> IsDigit(c[k])
    requires forall k :: 0 <= k < |f| ==> IsDigit(f[k])
    ensures ':' !in a + ("T" + (b + (c + f)))
  {
    assert ':' !in a && ':' !in b && ':' !in c && ':' !in f;
  }

  /** `YYYYMMDDTHHMM` then a digit, in an input with no `:`: the date, the hour and the minute. */
  lemma BasicDateTimeParses(e: Env, y: nat, m: nat, d: nat, h: nat, mi: nat)
    requires y < 10000 && m < 100 && d < 100 && h < 100 && mi < 100
    requires e.options.timeSeparator == ':' && ':' !in e.s && e.hyphens == 0
    requires |e.s| > 13 && e.s[..8] == BasicDateText(y, m, d) && e.s[8] == 'T'
    requires e.s[9..11] == DigitsOf(h, 2) && e.s[11..13] == DigitsOf(mi, 2) && IsDigit(e.s[13])
    ensures ParseAll(e, State(0, InitialDate))
         == Success(State(13, InitialDate.(year := y, monthOrWeek := m, day := d, hour := h, minute := mi as real)))
  {
    var d1 := InitialDate.(year := y, monthOrWeek := m, day := d);
    BasicDateParses(e, InitialDate, y, m, d);
    BasicTimeParses(e, d1, h, mi);
  }

  /** `THHMM…` after an eight-digit date, in an input with no `:`: the hour and the minute, and no zone. */
  lemma BasicTimeParses(e: Env, d1: ParsedDate, h: nat, mi: nat)
    requires h < 100 && mi < 100
    requires e.options.timeSeparator == ':' && ':' !in e.s
    requires |e.s| > 13 && e.s[8] == 'T' && e.s[9..11] == DigitsOf(h, 2) && e.s[11..13] == DigitsOf(mi, 2)
    requires IsDigit(e.s[13])
    ensures TimeAndZone(e, State(8, d1)) == Success(State(13, d1.(hour := h, minute := mi as real)))
  {
    var s := e.s;
    assert DigitAt(s, 9) by {
      assert IsDigit(DigitsOf(h, 2)[0]) && s[9] == DigitsOf(h, 2)[0];
    }
    var d2 := d1.(hour := h, minute := mi as real);
    BasicHourMinute(e, d1, h, mi);
    NoDesignatorAtDigit(e, State(13, d2));
    TimeAfterT(e, State(8, d1), State(13, d2));
  }

  /** A digit where the designator would start leaves the state as it is. */
  lemma NoDesignatorAtDigit(e: Env, st: State)
    requires Within(e, st) && DigitAt(e.s, st.i)
    ensures Zone(e, st) == st
  {
    assert !SpaceAt(e.s, st.i);
  }

  /** `T` followed by a digit: the time of day from the digit, then the designator. */
  lemma TimeAfterT(e: Env, st: State, st2: State)
    requires Within(e, st) && At(e.s, st.i) == Some('T') && st.i + 1 < |e.s| && DigitAt(e.s, st.i + 1)
    requires TimeOfDay(e, State(st.i + 1, st.date), true) == Success(st2)
    requires Within(e, st2) && Zone(e, st2) == st2
    ensures TimeAndZone(e, st) == Success(st2)
  {
    assert Advance(e, st) == State(st.i + 1, st.date);
  }

  /** `HHMM` after `T`, in an input with no `:`: the hour, then the minute, and nothing more. */
  lemma BasicHourMinute(e: Env, d1: ParsedDate, h: nat, mi: nat)
    requires h < 100 && mi < 100
    requires e.options.timeSeparator == ':' && ':' !in e.s
    requires |e.s| > 13 && e.s[9..11] == DigitsOf(h, 2) && e.s[11..13] == DigitsOf(mi, 2)
    ensures TimeOfDay(e, State(9, d1), true) == Success(State(13, d1.(hour := h, minute := mi as real)))
  {
    var s := e.s;
    ReadIntOfDigits(s, 9, h, 2, Some(2));
    ReadIntOfDigits(s, 11, mi, 2, Some(2));
  }

  // ---------------------------------------------------------------------
  // Week dates

  /** `YYYY-Www`, then `-D` when a weekday is given. */
  function WeekText(y: nat, w: nat, weekday: Option<nat>): seq<char>
  {
    DigitsOf(y, 4) + "-W" + DigitsOf(w, 2) + (if weekday.Some? then "-" + DigitsOf(weekday.value, 1) else [])
  }

  /** `YYYY-Www[-D]` after the year: the week and the weekday, absent counting as 0. */
  lemma WeekAfterYearParses(e: Env, d0: ParsedDate, y: nat, w: nat, weekday: Option<nat>)
    requires w < 100 && (weekday.Some? ==> weekday.value <= 7)
    requires |e.s| == 8 + (if weekday.Some? then 2 else 0) && e.s[4] == '-' && e.s[5] == 'W'
    requires e.s[6..8] == DigitsOf(w, 2)
    requires weekday.Some? ==> e.s[8] == '-' && e.s[9..] == DigitsOf(weekday.value, 1)
    ensures Digits4Hyphens0(e, State(4, d0), y)
         == Success(State(|e.s|, d0.(year := y, monthOrWeek := w, style := Week, weekday := Some(if weekday.Some? then weekday.value else 0))))
  {
    var s := e.s;
    ReadIntOfDigits(s, 6, w, 2, Some(2));
    assert IsDigit(DigitsOf(w, 2)[0]) && s[6] == DigitsOf(w, 2)[0];
    if weekday.Some? {
      ReadIntOfDigits(s, 9, weekday.value, 1, None);
    }
    var d1 := d0.(year := y, monthOrWeek := w);
    assert WeekAndDay(e, State(5, d0.(year := y))) == Weekday(e, State(8, d1));
  }

  /**
   * A week date `YYYY-Www-D` of any year up to 9999, 0000 included, is handed
   * to the calendar as the day of the year the source's week projection
   * gives; with no weekday, the weekday counts as 0.
   */
  lemma WeekDateProjects(y: nat, w: nat, weekday: Option<nat>, strict: bool, now: Reference)
    requires y < 10000 && w < 100 && (weekday.Some? ==> weekday.value <= 7)
    ensures Iso8601(WeekText(y, w, weekday), MakeOptions(strict), now)
         == Some(Parsed(Components(y, None, WeekToOrdinal(y, w, 0, Some(if weekday.Some? then weekday.value else 0)), 0, 0, 0, 0), UTC))
  {
    var s := WeekText(y, w, weekday);
    var e := InputEnv(s, MakeOptions(strict), now);
    var wd := if weekday.Some? then weekday.value else 0;
    var d1 := InitialDate.(year := y, monthOrWeek := w, style := Week, weekday := Some(wd));
    assert ParseAll(e, State(0, InitialDate)) == Success(State(|s|, d1)) by {
      WeekDateParses(e, y, w, weekday);
    }
    assert ComponentsOf(d1).day == WeekToOrdinal(y, w, 0, Some(wd));
  }

  /**
   * For the years 0001 to 9999, that day is the one the ISO week calendar
   * gives weekday `D` of week `ww`.
   */
  lemma {:induction false} WeekDateRoundTrip(y: nat, w: nat, weekday: Option<nat>, strict: bool, now: Reference)
    requires 1 <= y < 10000 && w < 100 && (weekday.Some? ==> weekday.value <= 7)
    ensures Iso8601(WeekText(y, w, weekday), MakeOptions(strict), now)
         == Some(Parsed(Components(y, None, IsoWeekDateOrdinal(y, w, if weekday.Some? then weekday.value else 0), 0, 0, 0, 0), UTC))
  {
    var s := WeekText(y, w, weekday);
    var e := InputEnv(s, MakeOptions(strict), now);
    var wd := if weekday.Some? then weekday.value else 0;
    var d1 := InitialDate.(year := y, monthOrWeek := w, style := Week, weekday := Some(wd));
    assert ParseAll(e, State(0, InitialDate)) == Success(State(|s|, d1)) by {
      WeekDateParses(e, y, w, weekday);
    }
    var c := ComponentsOf(d1);
    assert c == Components(y, None, IsoWeekDateOrdinal(y, w, wd), 0, 0, 0, 0) by {
      assert c.day == WeekToOrdinal(y, w, 0, Some(wd));
      WeekProjectionIsIsoWeekDate(y, w, 0, Some(wd));
    }
  }

  /**
   * Year 0000 is outside that agreement: `0000-W01-1` lands one day before
   * the ISO Monday of week 1 (see `YearZeroWeekOneStartsADayEarly`).
   */
  lemma {:induction false} YearZeroWeekDateIsOneDayEarly(strict: bool, now: Reference)
    ensures IsoWeekDateOrdinal(0, 1, 1) == 3
    ensures Iso8601(WeekText(0, 1, Some(1)), MakeOptions(strict), now)
         == Some(Parsed(Components(0, None, IsoWeekDateOrdinal(0, 1, 1) - 1, 0, 0, 0, 0), UTC))
  {
    WeekDateProjects(0, 1, Some(1), strict, now);
    YearZeroWeekOneStartsADayEarly();
  }

  /** `YYYY-Www[-D]` as a whole input: a week date of that year, week and weekday. */
  lemma WeekDateParses(e: Env, y: nat, w: nat, weekday: Option<nat>)
    requires y < 10000 && w < 100 && (weekday.Some? ==> weekday.value <= 7)
    requires e.s == WeekText(y, w, weekday) && e.hyphens == Run(e.s, 0, '-')
    ensures e.hyphens == 0
    ensures ParseDate(e, State(0, InitialDate))
         == Success(State(|e.s|, InitialDate.(year := y, monthOrWeek := w, style := Week,
                                              weekday := Some(if weekday.Some? then weekday.value else 0))))
  {
    WeekDateShape(e.s, y, w, weekday);
    WeekDateSteps(e, y, w, weekday);
  }

  /** Where the pieces of `YYYY-Www[-D]` stand. */
  lemma WeekDateShape(s: seq<char>, y: nat, w: nat, weekday: Option<nat>)
    requires y < 10000 && w < 100 && (weekday.Some? ==> weekday.value <= 7)
    requires s == WeekText(y, w, weekday)
    ensures |s| == 8 + (if weekday.Some? then 2 else 0) && s[4] == '-' && s[5] == 'W'
    ensures s[6..8] == DigitsOf(w, 2)
    ensures weekday.Some? ==> s[8] == '-' && s[9..] == DigitsOf(weekday.value, 1)
    ensures Run(s, 0, '-') == 0 && !IsTimeOnly(s)
    ensures ReadIntAt(s, 0, None) == Success(IntToken(4, y, 4))
  {
    assert s[..4] == DigitsOf(y, 4) && s[4] == '-' && s[5] == 'W' && s[6..8] == DigitsOf(w, 2);
    assert weekday.Some? ==> s[8] == '-' && s[9..] == DigitsOf(weekday.value, 1);
    assert IsDigit(DigitsOf(y, 4)[0]) && s[0] == DigitsOf(y, 4)[0];
    assert Run(s, 0, '-') == 0;
    assert !IsTimeOnly(s);
    ReadIntOfDigits(s, 0, y, 4, None);
  }

  /** `YYYY-Www[-D]` after the four-digit year: the steps of the parse. */
  lemma WeekDateSteps(e: Env, y: nat, w: nat, weekday: Option<nat>)
    requires w < 100 && (weekday.Some? ==> weekday.value <= 7)
    requires e.hyphens == 0 && Run(e.s, 0, '-') == 0 && !IsTimeOnly(e.s)
    requires |e.s| == 8 + (if weekday.Some? then 2 else 0) && e.s[4] == '-' && e.s[5] == 'W'
    requires e.s[6..8] == DigitsOf(w, 2)
    requires weekday.Some? ==> e.s[8] == '-' && e.s[9..] == DigitsOf(weekday.value, 1)
    requires ReadIntAt(e.s, 0, None) == Success(IntToken(4, y, 4))
    ensures ParseDate(e, State(0, InitialDate))
         == Success(State(|e.s|, InitialDate.(year := y, monthOrWeek := w, style := Week,
                                              weekday := Some(if weekday.Some? then weekday.value else 0))))
  {
    WeekAfterYearParses(e, InitialDate, y, w, weekday);
    assert FirstDigitRun(e, State(0, InitialDate)) == Digits4Hyphens0(e, State(4, InitialDate), y);
  }

  /** `YYYY-Www` without a weekday lands on the Sunday that ends the week before week `ww`. */
  lemma WeekWithoutWeekdayIsSundayBefore(y: nat, w: nat, strict: bool, now: Reference)
    requires 1 <= y < 10000 && 1 <= w < 100
    ensures Iso8601(WeekText(y, w, None), MakeOptions(strict), now).Some?
    ensures Iso8601(WeekText(y, w, None), MakeOptions(strict), now).value.components.day
         == IsoWeekDateOrdinal(y, w - 1, 7)
         == IsoWeekDateOrdinal(y, w, 1) - 1
  {
    WeekDateRoundTrip(y, w, None, strict, now);
  }

  // ---------------------------------------------------------------------
  // Ordinal dates

  /** `YYYY-DDD`. */
  function OrdinalText(y: nat, d: nat): seq<char>
  {
    DigitsOf(y, 4) + "-" + DigitsOf(d, 3)
  }

  /**
   * An ordinal date `YYYY-DDD` is handed to the calendar as day `DDD` of
   * year `YYYY` with no month; the strict mode refuses a day past the end
   * of that year, the lenient mode lets the calendar roll it over.
   */
  lemma OrdinalDateRoundTrip(y: nat, d: nat, strict: bool, now: Reference)
    requires y < 10000 && d < 1000
    ensures Iso8601(OrdinalText(y, d), MakeOptions(strict), now)
         == if strict && d > DaysInYear(y) then None else Some(Parsed(Components(y, None, d, 0, 0, 0, 0), UTC))
  {
    var s := OrdinalText(y, d);
    var e := InputEnv(s, MakeOptions(strict), now);
    OrdinalDateParses(e, y, d);
    if !(strict && d > DaysInYear(y)) {
      var d1 := InitialDate.(year := y, day := d, style := DateOnly);
      assert ParseAll(e, State(0, InitialDate)) == Success(State(|s|, d1));
    }
  }

  /** `YYYY-DDD` as a whole input: day `DDD` of that year, refused in the strict mode past the year's end. */
  lemma OrdinalDateParses(e: Env, y: nat, d: nat)
    requires y < 10000 && d < 1000
    requires e.s == OrdinalText(y, d) && e.hyphens == Run(e.s, 0, '-')
    ensures e.hyphens == 0
    ensures ParseDate(e, State(0, InitialDate))
         == if OrdinalTooLate(e, d, y) then Failure(Invalid)
            else Success(State(8, InitialDate.(year := y, day := d, style := DateOnly)))
  {
    OrdinalDateShape(e.s, y, d);
    OrdinalDateSteps(e, y, d);
  }

  /** Where the pieces of `YYYY-DDD` stand. */
  lemma OrdinalDateShape(s: seq<char>, y: nat, d: nat)
    requires y < 10000 && d < 1000
    requires s == OrdinalText(y, d)
    ensures |s| == 8 && Run(s, 0, '-') == 0 && s[4] == '-' && !IsTimeOnly(s)
    ensures ReadIntAt(s, 0, None) == Success(IntToken(4, y, 4))
    ensures DigitAt(s, 5) && DigitRun(s, 5, None) == 3 && NumberAt(s, 5, None) == d
  {
    assert s[..4] == DigitsOf(y, 4) && s[4] == '-' && s[5..8] == DigitsOf(d, 3);
    assert IsDigit(DigitsOf(y, 4)[0]) && s[0] == DigitsOf(y, 4)[0];
    assert IsDigit(DigitsOf(d, 3)[0]) && s[5] == DigitsOf(d, 3)[0];
    assert Run(s, 0, '-') == 0;
    assert !IsTimeOnly(s);
    ReadIntOfDigits(s, 0, y, 4, None);
    assert Pow10(3) == 1000;
    ReadIntOfDigits(s, 5, d, 3, None);
  }

  /** `YYYY-` and a run of three digits `d` that ends the input: the steps of the parse. */
  lemma OrdinalDateSteps(e: Env, y: nat, d: nat)
    requires e.hyphens == 0 && Run(e.s, 0, '-') == 0 && |e.s| == 8 && e.s[4] == '-' && !IsTimeOnly(e.s)
    requires ReadIntAt(e.s, 0, None) == Success(IntToken(4, y, 4))
    requires DigitAt(e.s, 5) && DigitRun(e.s, 5, None) == 3 && NumberAt(e.s, 5, None) == d
    ensures ParseDate(e, State(0, InitialDate))
         == if OrdinalTooLate(e, d, y) then Failure(Invalid)
            else Success(State(8, InitialDate.(year := y, day := d, style := DateOnly)))
  {
    assert FirstDigitRun(e, State(0, InitialDate)) == Digits4Hyphens0(e, State(4, InitialDate), y);
    assert Digits4Hyphens0(e, State(4, InitialDate), y) == Digits4MonthAndDay(e, State(5, InitialDate.(year := y)));
  }

  // ---------------------------------------------------------------------
  // Refusals and the strict ordinal check

  /**
   * The length of the first digit run decides what is refused: more than
   * eight digits always, five to eight digits after a leading `-`, and any
   * run after four or more hyphens, except that the strict mode lets an
   * ordinal `DDD` through.
   */
  lemma DispatchRefusals(e: Env, st: State, count: nat, seg: nat)
    requires Within(e, st)
    ensures count > 8 ==> Dispatch(e, st, count, seg) == Failure(Invalid)
    ensures 5 <= count <= 8 && e.hyphens != 0 ==> Dispatch(e, st, count, seg) == Failure(Invalid)
    ensures e.hyphens > 3 && (count != 3 || !e.options.strict) ==> Dispatch(e, st, count, seg).Failure?
  {
    if e.hyphens > 3 && (count != 3 || !e.options.strict) && count == 1 && !e.options.strict {
      assert Digits2(e, st, 1, seg) == Failure(Invalid);
    }
  }

  /** Strict mode accepts `---DDD` and longer runs of hyphens before an ordinal day, which lenient mode refuses. */
  lemma StrictAcceptsManyHyphenOrdinal(e: Env, st: State, seg: nat)
    requires Within(e, st) && e.hyphens > 2 && seg <= 365
    ensures Dispatch(e, st, 3, seg).Success? <==> e.options.strict
  {
  }

  /**
   * In strict mode an ordinal date with a four-digit year (`YYYYDDD`,
   * `YYYY-DDD`) or none (`-DDD`) names a day of its year.
   */
  lemma StrictOrdinalWithinYear(e: Env, st: State, count: nat, seg: nat)
    requires Within(e, st) && e.options.strict && st.date.style != DateOnly
    requires count == 3 || count == 4 || count == 7
    ensures var r := Dispatch(e, st, count, seg);
      r.Success? && r.value.date.style == DateOnly ==> r.value.date.day <= DaysInYear(r.value.date.year)
  {
    if count == 4 && e.hyphens == 0 {
      var st1 := SkipIf(e, st.(date := st.date.(year := seg)), '-');
      if !DigitAt(e.s, st1.i) && At(e.s, st1.i) == Some('W') {
        var r := WeekAndDay(e, st1);
        assert r.Success? ==> r.value.date.style == Week;
      }
    }
  }

  /** Strict mode does not check the day of `YYDDD`: any three digits pass as the day. */
  lemma StrictTwoDigitYearOrdinalUnchecked(e: Env, st: State, seg: nat)
    requires Within(e, st) && e.options.strict && e.hyphens == 0
    ensures Dispatch(e, st, 5, seg).Success?
    ensures Dispatch(e, st, 5, seg).value.date.day == seg % 1000
  {
  }

  // ---------------------------------------------------------------------
  // Time and zone

  /** A fractional minute is split into the whole minute and the fraction as seconds: together they are the minute read. */
  lemma FractionalMinuteSplits(e: Env, st: State)
    requires Within(e, st) && ReadDoubleAt(e.s, st.i).Success?
    ensures var v := ReadDoubleAt(e.s, st.i).value;
      var r := MinuteAndSecond(e, st);
      At(e.s, v.end) != Some(':') && v.value - Trunc(v.value) as real > UlpOfOne ==>
        && r.Success?
        && r.value.date.minute == Trunc(v.value) as real
        && r.value.date.minute + r.value.date.seconds / 60.0 == v.value
  {
  }

  /** A sign with no digit after it sets no zone, so the parse ends in UTC unless a zone was set before. */
  lemma SignWithoutDigitSetsNoZone(e: Env, st: State)
    requires Within(e, st) && st.i < |e.s| && (e.s[st.i] == '+' || e.s[st.i] == '-')
    requires !DigitAt(e.s, Step(e.s, st.i, 1))
    ensures Zone(e, st).date == st.date
    ensures ZoneOf(Zone(e, st).date) == if st.date.timezone.Some? then st.date.timezone.value else UTC
  {
    assert !SpaceAt(e.s, st.i);
  }
}
