/** Values shared by the scanner, the grammar and the parser class. */
module IsoTypes {

  datatype Option<+T> = None | Some(value: T)

  /** The four errors the parser can throw (`ISO8601ParserError`). */
  datatype ParserError = Eof | NotDigit | NotDouble | Invalid

  /** A value-carrying result, used by the pure specification functions. */
  datatype Result<+T> = Success(value: T) | Failure(error: ParserError) {
    predicate IsFailure() { Failure? }
    function PropagateFailure<U>(): Result<U>
      requires Failure?
    {
      Failure(error)
    }
    function Extract(): T
      requires Success?
    {
      value
    }
  }

  /** What a throwing Swift method ends with: it returns normally, or it throws. */
  datatype Outcome = Pass | Fail(error: ParserError) {
    predicate IsFailure() { Fail? }
    function PropagateFailure(): Outcome
      requires Fail?
    {
      this
    }
  }

  /** `ParsedDate.DateStyle`: how `monthOrWeek` and `day` are to be read. */
  datatype DateStyle = MonthAndDate | Week | DateOnly

  /** The zone a parse designates: the literal `Z`, or a fixed offset in seconds. */
  datatype ZoneMark = UTC | SecondsFromGMT(seconds: int)

  /**
   * The parser's mutable accumulator (`ParsedDate`). The Swift `TimeInterval`
   * fields are `real` here: the exact value of the decimal text that was read.
   */
  datatype ParsedDate = ParsedDate(
    year: int,
    monthOrWeek: int,
    day: int,
    hour: int,
    minute: real,
    seconds: real,
    nanoseconds: real,
    weekday: Option<int>,
    tzHour: int,
    tzMinute: int,
    style: DateStyle,
    timezone: Option<ZoneMark>)

  /** The field defaults of `ParsedDate()`. */
  const InitialDate := ParsedDate(0, 0, 0, 0, 0.0, 0.0, 0.0, None, 0, 0, MonthAndDate, None)

  /** `ISOParser.Options`. */
  datatype Options = Options(timeSeparator: char, strict: bool)

  /** `Options(strict:)`: the time separator is always `:`. */
  function MakeOptions(strict: bool): Options
  {
    Options(':', strict)
  }

  /** The year, month and day of the clock reading taken when the parser is created (`now_cmps`). */
  datatype Reference = Reference(year: int, month: int, day: int)

  /** The `DateComponents` handed to the calendar; `month` is absent for week and ordinal dates. */
  datatype Components = Components(
    year: int,
    month: Option<int>,
    day: int,
    hour: int,
    minute: int,
    second: int,
    nanosecond: int)
}
