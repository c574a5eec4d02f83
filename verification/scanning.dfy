/**
 * Pure specification of the scanner primitives of `ISOParser`: what each of
 * `next`, `read_int`, `read_double` and `moveUntil` does to a cursor `i` over
 * the scalars `s` of the input.
 */
module IsoScanning {
  import opened IsoTypes

  /** `UnicodeScalar.isDigit`: an ASCII digit `0`...`9`. */
  predicate IsDigit(c: char)
  {
    '0' <= c <= '9'
  }

  /** `CharacterSet.whitespaces`: tab and the Unicode space separators. */
  const Whitespaces: set<char> := {
    '\t', ' ', ' ', ' ',
    ' ', ' ', ' ', ' ', ' ', ' ',
    ' ', ' ', ' ', ' ', ' ',
    ' ', ' ', '　'}

  predicate IsSpace(c: char)
  {
    c in Whitespaces
  }

  /** The characters `read_double` accepts between the whole and the fractional part. */
  predicate IsFractionSeparator(c: char)
  {
    c == '.' || c == ','
  }

  /** `isDigit(_:)` of an optional scalar: absent is not a digit. */
  predicate IsDigitScalar(c: Option<char>)
  {
    c.Some? && IsDigit(c.value)
  }

  /** `isSpace` of an optional scalar: absent is not a space. */
  predicate IsSpaceScalar(c: Option<char>)
  {
    c.Some? && IsSpace(c.value)
  }

  /** The scalar at `i`, if any (`current()`, `seek`). */
  function At(s: seq<char>, i: nat): Option<char>
  {
    if i < |s| then Some(s[i]) else None
  }

  /** `current()?.isDigit ?? false`. */
  predicate DigitAt(s: seq<char>, i: nat)
  {
    i < |s| && IsDigit(s[i])
  }

  /** `current()?.isSpace ?? false`. */
  predicate SpaceAt(s: seq<char>, i: nat)
  {
    i < |s| && IsSpace(s[i])
  }

  /** Where `next(offset)` leaves the cursor: it moves only onto a scalar of the string, never onto the end. */
  function Step(s: seq<char>, i: nat, offset: nat): (j: nat)
    requires i <= |s|
    ensures j <= |s|
    ensures j == i + offset <==> i + offset < |s| || offset == 0
    ensures j != i + offset ==> j == i
  {
    if i + offset < |s| then i + offset else i
  }

  /** Length of the run of `c` that starts at `i` (`moveUntil(is:)`, the hyphen count of `init`). */
  function Run(s: seq<char>, i: nat, c: char): (n: nat)
    requires i <= |s|
    ensures i + n <= |s|
    ensures i + n == |s| || s[i + n] != c
    decreases |s| - i
  {
    if i < |s| && s[i] == c then 1 + Run(s, i + 1, c) else 0
  }

  /** Every scalar the run covers is `c`. */
  lemma {:induction false} RunCovers(s: seq<char>, i: nat, c: char)
    requires i <= |s|
    ensures forall k :: i <= k < i + Run(s, i, c) ==> s[k] == c
    decreases |s| - i
  {
    if i < |s| && s[i] == c {
      RunCovers(s, i + 1, c);
    }
  }

  /** Distance from `i` to the next `c`, or to the end when there is none (`moveUntil(isNot:)`). */
  function DistanceTo(s: seq<char>, i: nat, c: char): (n: nat)
    requires i <= |s|
    ensures i + n <= |s|
    ensures i + n == |s| || s[i + n] == c
    decreases |s| - i
  {
    if i < |s| && s[i] != c then 1 + DistanceTo(s, i + 1, c) else 0
  }

  /** No scalar before the distance is `c`. */
  lemma {:induction false} DistanceToSkips(s: seq<char>, i: nat, c: char)
    requires i <= |s|
    ensures forall k :: i <= k < i + DistanceTo(s, i, c) ==> s[k] != c
    decreases |s| - i
  {
    if i < |s| && s[i] != c {
      DistanceToSkips(s, i + 1, c);
    }
  }

  /** Length of the run of digits that starts at `i`, cut at `cap` digits when a cap is given. */
  function DigitRun(s: seq<char>, i: nat, cap: Option<nat>): (n: nat)
    requires i <= |s|
    ensures i + n <= |s|
    ensures cap.Some? ==> n <= cap.value
    ensures i + n == |s| || (cap.Some? && n == cap.value) || !IsDigit(s[i + n])
    decreases |s| - i
  {
    if i == |s| || (cap.Some? && cap.value == 0) || !IsDigit(s[i]) then 0
    else 1 + DigitRun(s, i + 1, if cap.Some? then Some(cap.value - 1) else None)
  }

  /** A run of digits that cannot be extended is the one `DigitRun` measures. */
  lemma {:induction false} DigitRunIsMaximal(s: seq<char>, i: nat, cap: Option<nat>, n: nat)
    requires i + n <= |s|
    requires forall k :: i <= k < i + n ==> IsDigit(s[k])
    requires cap.Some? ==> n <= cap.value
    requires i + n == |s| || (cap.Some? && n == cap.value) || !IsDigit(s[i + n])
    ensures n == DigitRun(s, i, cap)
    decreases n
  {
    if n > 0 {
      DigitRunIsMaximal(s, i + 1, if cap.Some? then Some(cap.value - 1) else None, n - 1);
    }
  }

  /** Every scalar of the run is a digit. */
  lemma {:induction false} DigitRunCovers(s: seq<char>, i: nat, cap: Option<nat>)
    requires i <= |s|
    ensures forall k :: i <= k < i + DigitRun(s, i, cap) ==> IsDigit(s[k])
    decreases |s| - i
  {
    if !(i == |s| || (cap.Some? && cap.value == 0) || !IsDigit(s[i])) {
      DigitRunCovers(s, i + 1, if cap.Some? then Some(cap.value - 1) else None);
    }
  }

  function Pow10(k: nat): (p: nat)
    ensures p >= 1
  {
    if k == 0 then 1 else 10 * Pow10(k - 1)
  }

  lemma {:induction false} Pow10Monotone(j: nat, k: nat)
    requires j <= k
    ensures Pow10(j) <= Pow10(k)
    decreases k
  {
    if j < k {
      Pow10Monotone(j, k - 1);
    }
  }

  function DigitValue(c: char): (d: nat)
    ensures d <= 9
  {
    if IsDigit(c) then (c as int) - ('0' as int) else 0
  }

  /** The decimal value of a run of digits, most significant first. */
  function DecimalValue(ds: seq<char>): (v: nat)
    ensures v < Pow10(|ds|)
  {
    if ds == [] then 0 else 10 * DecimalValue(ds[..|ds| - 1]) + DigitValue(ds[|ds| - 1])
  }

  /** The decimal value of the scalars of `s` from `i` up to `j`: `DecimalValue(s[i..j])` without cutting `s`. */
  function DecimalValueAt(s: seq<char>, i: nat, j: nat): nat
    requires i <= j <= |s|
    decreases j - i
  {
    if i == j then 0 else 10 * DecimalValueAt(s, i, j - 1) + DigitValue(s[j - 1])
  }

  /** Reading digits in place and reading the cut-out text agree. */
  lemma {:induction false} DecimalValueAtSlice(s: seq<char>, i: nat, j: nat)
    requires i <= j <= |s|
    ensures DecimalValueAt(s, i, j) == DecimalValue(s[i..j])
    decreases j - i
  {
    if i < j {
      DecimalValueAtSlice(s, i, j - 1);
      assert s[i..j][..j - i - 1] == s[i..j - 1];
    }
  }

  /** `Int.max` on the 64-bit platforms the library targets. */
  const IntMax: nat := 0x7fff_ffff_ffff_ffff

  /** `Int(raw_value)` for a non-empty run of digits: fails only when the value does not fit an `Int`. */
  function IntFromDigits(raw: seq<char>): (r: Option<nat>)
    ensures r.Some? <==> DecimalValue(raw) <= IntMax
    ensures r.Some? ==> r.value == DecimalValue(raw)
  {
    var v := DecimalValue(raw);
    if v <= IntMax then Some(v) else None
  }

  /** What `read_int` returns, with the cursor it leaves behind. */
  datatype IntToken = IntToken(count: nat, value: nat, end: nat)

  /**
   * `read_int(max_count)` at `i`: the maximal run of digits (at most `cap`),
   * its decimal value and the cursor after it. An empty run gives `(0, 0)`
   * and leaves the cursor alone; a value beyond `IntMax` throws `notDigit`.
   */
  function ReadIntAt(s: seq<char>, i: nat, cap: Option<nat>): (r: Result<IntToken>)
    requires i <= |s|
    ensures r.Success? ==>
      var t := r.value;
      && t.count == DigitRun(s, i, cap)
      && t.end == i + t.count
      && t.value == DecimalValueAt(s, i, t.end)
      && t.value <= IntMax
    ensures r.Success? && r.value.count == 0 ==> r.value.value == 0 && r.value.end == i
    ensures r.Failure? ==> r.error == NotDigit && DecimalValueAt(s, i, i + DigitRun(s, i, cap)) > IntMax
  {
    var n := DigitRun(s, i, cap);
    if n == 0 then Success(IntToken(0, 0, i))
    else
      var v := DecimalValueAt(s, i, i + n);
      if v <= IntMax then Success(IntToken(n, v, i + n)) else Failure(NotDigit)
  }

  /** A read of at most two digits, as every `read_int(2)` is, never throws, and its value is below 100. */
  lemma ShortReadsNeverThrow(s: seq<char>, i: nat)
    requires i <= |s|
    ensures ReadIntAt(s, i, Some(2)).Success?
    ensures ReadIntAt(s, i, Some(2)).value.value < 100
  {
    var n := DigitRun(s, i, Some(2));
    assert DecimalValueAt(s, i, i + n) < 100 by {
      DecimalValueAtSlice(s, i, i + n);
      Pow10Monotone(n, 2);
    }
    ReadIntBelow(s, i, Some(2), 100);
  }

  /** `read_int` throws only when the run's value does not fit an `Int`; a bound on the run bounds the result. */
  lemma ReadIntBelow(s: seq<char>, i: nat, cap: Option<nat>, bound: int)
    requires i <= |s| && DecimalValueAt(s, i, i + DigitRun(s, i, cap)) < bound <= IntMax + 1
    ensures ReadIntAt(s, i, cap).Success? && ReadIntAt(s, i, cap).value.value < bound
  {
  }

  /** The number written at `i`: the value of the longest run of digits there (at most `cap`), 0 when there is none. */
  function NumberAt(s: seq<char>, i: nat, cap: Option<nat>): nat
    requires i <= |s|
  {
    DecimalValueAt(s, i, i + DigitRun(s, i, cap))
  }

  /** Where the number written at `i` ends. */
  function NumberEnd(s: seq<char>, i: nat, cap: Option<nat>): (j: nat)
    requires i <= |s|
    ensures i <= j <= |s|
  {
    i + DigitRun(s, i, cap)
  }

  /** `read_int` reads the number written at the cursor, and throws exactly when it does not fit an `Int`. */
  lemma ReadIntReadsNumber(s: seq<char>, i: nat, cap: Option<nat>)
    requires i <= |s|
    ensures ReadIntAt(s, i, cap).Success? <==> NumberAt(s, i, cap) <= IntMax
    ensures ReadIntAt(s, i, cap).Success? ==>
      ReadIntAt(s, i, cap).value == IntToken(DigitRun(s, i, cap), NumberAt(s, i, cap), NumberEnd(s, i, cap))
  {
  }

  /** A number of at most two, three or four digits is below 100, 1000 or 10000. */
  lemma NumberBound(s: seq<char>, i: nat, cap: Option<nat>)
    requires i <= |s|
    ensures NumberAt(s, i, cap) < Pow10(DigitRun(s, i, cap))
    ensures DigitRun(s, i, cap) <= 2 ==> NumberAt(s, i, cap) < 100
    ensures DigitRun(s, i, cap) <= 3 ==> NumberAt(s, i, cap) < 1000
    ensures DigitRun(s, i, cap) <= 4 ==> NumberAt(s, i, cap) < 10000
  {
    var n := DigitRun(s, i, cap);
    DecimalValueAtSlice(s, i, i + n);
    if n <= 4 {
      Pow10Monotone(n, 4);
      assert Pow10(4) == 10000;
    }
    if n <= 3 {
      Pow10Monotone(n, 3);
      assert Pow10(3) == 1000;
    }
    if n <= 2 {
      Pow10Monotone(n, 2);
      assert Pow10(2) == 100;
    }
  }

  /** Where `if current() == c { next() }` leaves the cursor. */
  function Skip(s: seq<char>, i: nat, c: char): (j: nat)
    requires i <= |s|
    ensures j <= |s|
  {
    if At(s, i) == Some(c) then Step(s, i, 1) else i
  }

  lemma Pow10OfEighteen()
    ensures Pow10(18) == 1_000_000_000_000_000_000
  {
    assert Pow10(6) == 1_000_000;
    assert Pow10(12) == 1_000_000_000_000;
  }

  /**
   * The scan of `read_double` from `i`: digits and at most one `.` or `,`
   * (`seen` tells whether one was met already). It ends at the first other
   * scalar, or throws `notDouble` at a second separator.
   */
  function DoubleScan(s: seq<char>, i: nat, seen: bool): (r: Result<nat>)
    requires i <= |s|
    ensures r.Success? ==> i <= r.value <= |s|
    ensures r.Success? ==> forall k :: i <= k < r.value ==> IsDigit(s[k]) || IsFractionSeparator(s[k])
    ensures r.Success? ==> r.value == |s| || !(IsDigit(s[r.value]) || IsFractionSeparator(s[r.value]))
    ensures r.Success? && seen ==> forall k :: i <= k < r.value ==> !IsFractionSeparator(s[k])
    ensures r.Success? ==> forall k1, k2 :: i <= k1 < k2 < r.value && IsFractionSeparator(s[k1]) ==> !IsFractionSeparator(s[k2])
    ensures r.Failure? ==> r.error == NotDouble
    decreases |s| - i
  {
    if i == |s| then Success(i)
    else if IsFractionSeparator(s[i]) then
      if seen then Failure(NotDouble) else DoubleScan(s, i + 1, true)
    else if IsDigit(s[i]) then DoubleScan(s, i + 1, seen)
    else Success(i)
  }

  /** `replacingOccurrences(of: ",", with: ".")`. */
  function Normalize(raw: seq<char>): (t: seq<char>)
    ensures |t| == |raw|
    ensures forall k :: 0 <= k < |raw| ==> t[k] == if raw[k] == ',' then '.' else raw[k]
  {
    seq(|raw|, k requires 0 <= k < |raw| => if raw[k] == ',' then '.' else raw[k])
  }

  /** Index of the first `.`, or the length when there is none. */
  function PointIndex(raw: seq<char>): (p: nat)
    ensures p <= |raw|
    ensures forall k :: 0 <= k < p ==> raw[k] != '.'
    ensures p < |raw| ==> raw[p] == '.'
  {
    if raw == [] || raw[0] == '.' then 0 else 1 + PointIndex(raw[1..])
  }

  /** The exact value of decimal text: digits, then optionally `.` and more digits. */
  function DecimalReal(raw: seq<char>): (v: real)
    ensures v >= 0.0
  {
    var p := PointIndex(raw);
    var whole := DecimalValue(raw[..p]) as real;
    if p == |raw| then whole
    else whole + (DecimalValue(raw[p + 1..]) as real) / (Pow10(|raw| - p - 1) as real)
  }

  /**
   * `Double(raw_value)` for text made of digits and at most one `.`: only the
   * point on its own is refused. The value is the exact decimal one.
   */
  function DoubleFromText(raw: seq<char>): (r: Option<real>)
    ensures r.None? <==> raw == ['.']
  {
    if raw == ['.'] then None else Some(DecimalReal(raw))
  }

  /** What `read_double` returns, with the cursor it leaves behind. */
  datatype DoubleToken = DoubleToken(count: nat, value: real, end: nat)

  /**
   * `read_double()` at `i`. It takes digits with at most one `.` or `,` (the
   * two are alike); an empty scan gives `(0, 0.0)` without moving; a second
   * separator, or a separator alone, throws `notDouble` without moving.
   */
  function ReadDoubleAt(s: seq<char>, i: nat): (r: Result<DoubleToken>)
    requires i <= |s|
    ensures r.Success? ==> i <= r.value.end <= |s| && r.value.count == r.value.end - i && r.value.value >= 0.0
    ensures r.Success? ==> forall k :: i <= k < r.value.end ==> IsDigit(s[k]) || IsFractionSeparator(s[k])
    ensures r.Failure? ==> r.error == NotDouble
  {
    var end :- DoubleScan(s, i, false);
    var raw := Normalize(s[i..end]);
    if raw == [] then Success(DoubleToken(0, 0.0, i))
    else match DoubleFromText(raw)
      case None => Failure(NotDouble)
      case Some(v) => Success(DoubleToken(end - i, v, end))
  }

  /** The scan throws once a second separator follows the first, with only digits and separators before it. */
  lemma {:induction false} ScanStopsAtSecondSeparator(s: seq<char>, j: nat, seen: bool, k1: nat, k2: nat)
    requires j <= k2 < |s| && IsFractionSeparator(s[k2])
    requires forall k :: j <= k < k2 ==> IsDigit(s[k]) || IsFractionSeparator(s[k])
    requires seen || (j <= k1 < k2 && IsFractionSeparator(s[k1]))
    ensures DoubleScan(s, j, seen) == Failure(NotDouble)
    decreases k2 - j
  {
    if j < k2 {
      if IsFractionSeparator(s[j]) {
        if !seen {
          ScanStopsAtSecondSeparator(s, j + 1, true, k1, k2);
        }
      } else {
        ScanStopsAtSecondSeparator(s, j + 1, seen, k1, k2);
      }
    }
  }

  /** `read_double` fails with `notDouble` on a token holding two separators, whether `.` or `,`. */
  lemma SecondSeparatorThrows(s: seq<char>, i: nat, k1: nat, k2: nat)
    requires i <= k1 < k2 < |s|
    requires IsFractionSeparator(s[k1]) && IsFractionSeparator(s[k2])
    requires forall k :: i <= k < k2 ==> IsDigit(s[k]) || IsFractionSeparator(s[k])
    ensures ReadDoubleAt(s, i) == Failure(NotDouble)
  {
    ScanStopsAtSecondSeparator(s, i, false, k1, k2);
  }

  /** Two strings that differ only in which separator stands where scan alike. */
  lemma {:induction false} ScanIgnoresSeparatorKind(s: seq<char>, t: seq<char>, j: nat, seen: bool)
    requires |s| == |t| && j <= |s|
    requires forall k :: 0 <= k < |s| ==> s[k] == t[k] || (IsFractionSeparator(s[k]) && IsFractionSeparator(t[k]))
    ensures DoubleScan(s, j, seen) == DoubleScan(t, j, seen)
    decreases |s| - j
  {
    if j < |s| {
      if IsFractionSeparator(s[j]) {
        ScanIgnoresSeparatorKind(s, t, j + 1, true);
      } else {
        ScanIgnoresSeparatorKind(s, t, j + 1, seen);
      }
    }
  }

  /** `read_double` treats `.` and `,` alike: swapping one for the other anywhere changes neither the outcome nor the value nor the cursor. */
  lemma SeparatorsAlike(s: seq<char>, t: seq<char>, i: nat)
    requires |s| == |t| && i <= |s|
    requires forall k :: 0 <= k < |s| ==> s[k] == t[k] || (IsFractionSeparator(s[k]) && IsFractionSeparator(t[k]))
    ensures ReadDoubleAt(s, i) == ReadDoubleAt(t, i)
  {
    ScanIgnoresSeparatorKind(s, t, i, false);
    var scan := DoubleScan(s, i, false);
    if scan.Success? {
      var end := scan.value;
      assert Normalize(s[i..end]) == Normalize(t[i..end]);
    }
  }

  /** The `width`-digit decimal text of `v`, with leading zeros. */
  function DigitsOf(v: nat, width: nat): (ds: seq<char>)
    ensures |ds| == width
    ensures forall k :: 0 <= k < width ==> IsDigit(ds[k])
  {
    if width == 0 then [] else DigitsOf(v / 10, width - 1) + [(('0' as int) + v % 10) as char]
  }

  /** Reading back the digits of a value that fits its width gives the value. */
  lemma {:induction false} DigitsOfRoundTrip(v: nat, width: nat)
    requires v < Pow10(width)
    ensures DecimalValue(DigitsOf(v, width)) == v
  {
    if width > 0 {
      DigitsOfRoundTrip(v / 10, width - 1);
      var ds := DigitsOf(v, width);
      assert ds[..width - 1] == DigitsOf(v / 10, width - 1);
    }
  }

  /** The value of two digit strings written one after the other. */
  lemma {:induction false} DecimalValueConcat(a: seq<char>, b: seq<char>)
    ensures DecimalValue(a + b) == DecimalValue(a) * Pow10(|b|) + DecimalValue(b)
    decreases |b|
  {
    if b == [] {
      assert a + b == a;
    } else {
      var b' := b[..|b| - 1];
      assert (a + b)[..|a + b| - 1] == a + b';
      assert b[..|b| - 1] == b';
      DecimalValueConcat(a, b');
      ShiftOneDigit(DecimalValue(a), Pow10(|b'|), DecimalValue(b'), DigitValue(b[|b| - 1]));
    }
  }

  lemma ShiftOneDigit(x: int, p: int, y: int, d: int)
    ensures 10 * (x * p + y) + d == x * (10 * p) + (10 * y + d)
  {
  }
}
