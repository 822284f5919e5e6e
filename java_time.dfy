/**
 * The parts of `java.time` that MedicationViewModel.kt and MainActivity.kt
 * call: a `LocalTime` (hour, minute, second, nano), `isAfter`,
 * `plus(n, ChronoUnit.HOURS)`, `ChronoUnit.MILLIS.between`, and
 * `LocalTime.parse(s, DateTimeFormatter.ofPattern("HH:mm"))` with the
 * default SMART resolver. Java's `long` division and remainder truncate
 * toward zero; they are written out here.
 */
module JavaTime {
  import opened Wrappers
  import opened Chars

  const HOURS_PER_DAY := 24
  const NANOS_PER_SECOND := 1_000_000_000
  const NANOS_PER_MINUTE := 60_000_000_000
  const NANOS_PER_HOUR := 3_600_000_000_000
  const NANOS_PER_DAY := 86_400_000_000_000
  const NANOS_PER_MILLI := 1_000_000
  const MILLIS_PER_DAY := 86_400_000

  /** The four fields of a `java.time.LocalTime`. */
  datatype TimeFields = TimeFields(hour: int, minute: int, second: int, nano: int) {
    predicate InRange() {
      0 <= hour < 24 && 0 <= minute < 60 && 0 <= second < 60 && 0 <= nano < NANOS_PER_SECOND
    }

    /** `LocalTime.toNanoOfDay()`. */
    function ToNanoOfDay(): int {
      hour * NANOS_PER_HOUR + minute * NANOS_PER_MINUTE + second * NANOS_PER_SECOND + nano
    }
  }

  /** Every `LocalTime` value Java can create has its fields in range. */
  type LocalTime = t: TimeFields | t.InRange() witness TimeFields(0, 0, 0, 0)

  const MIDNIGHT: LocalTime := TimeFields(0, 0, 0, 0)

  lemma NanoOfDayInDay(t: LocalTime)
    ensures 0 <= t.ToNanoOfDay() < NANOS_PER_DAY
  {
  }

  /** `Integer.compare`. */
  function Compare(x: int, y: int): int {
    if x < y then -1 else if x > y then 1 else 0
  }

  /** `LocalTime.compareTo`: hour, then minute, then second, then nano. */
  function CompareTo(a: LocalTime, b: LocalTime): int {
    var h := Compare(a.hour, b.hour);
    if h != 0 then h
    else
      var m := Compare(a.minute, b.minute);
      if m != 0 then m
      else
        var s := Compare(a.second, b.second);
        if s != 0 then s else Compare(a.nano, b.nano)
  }

  /** `LocalTime.isAfter`: when `a` is after `b`, `b` compares before `a` and the two differ. */
  predicate IsAfter(a: LocalTime, b: LocalTime)
    ensures IsAfter(a, b) ==> CompareTo(b, a) < 0 && a != b
  {
    CompareTo(a, b) > 0
  }

  /** The field-by-field comparison orders times exactly as their nano-of-day does. */
  lemma IsAfterIffLater(a: LocalTime, b: LocalTime)
    ensures IsAfter(a, b) <==> a.ToNanoOfDay() > b.ToNanoOfDay()
  {
    if a.hour != b.hour {
      if a.hour < b.hour {
        assert a.ToNanoOfDay() < (a.hour + 1) * NANOS_PER_HOUR <= b.ToNanoOfDay();
      } else {
        assert b.ToNanoOfDay() < (b.hour + 1) * NANOS_PER_HOUR <= a.ToNanoOfDay();
      }
    } else if a.minute != b.minute {
      var base := a.hour * NANOS_PER_HOUR;
      if a.minute < b.minute {
        assert a.ToNanoOfDay() < base + (a.minute + 1) * NANOS_PER_MINUTE <= b.ToNanoOfDay();
      } else {
        assert b.ToNanoOfDay() < base + (b.minute + 1) * NANOS_PER_MINUTE <= a.ToNanoOfDay();
      }
    } else if a.second != b.second {
      var base := a.hour * NANOS_PER_HOUR + a.minute * NANOS_PER_MINUTE;
      if a.second < b.second {
        assert a.ToNanoOfDay() < base + (a.second + 1) * NANOS_PER_SECOND <= b.ToNanoOfDay();
      } else {
        assert b.ToNanoOfDay() < base + (b.second + 1) * NANOS_PER_SECOND <= a.ToNanoOfDay();
      }
    }
  }

  /** Java's `%` on integers: the remainder takes the sign of the dividend. */
  function JavaRem(x: int, y: int): (r: int)
    requires y > 0
    ensures x >= 0 ==> 0 <= r < y
    ensures x < 0 ==> -y < r <= 0
  {
    if x >= 0 then x % y else -((-x) % y)
  }

  /** Java's `/` on integers: the quotient is truncated toward zero. */
  function JavaDiv(x: int, y: int): int
    requires y > 0
  {
    if x >= 0 then x / y else -((-x) / y)
  }

  /**
   * `LocalTime.plusHours`, which `plus(n, ChronoUnit.HOURS)` calls: the
   * hour moves round the clock, the other fields stay.
   */
  function PlusHours(t: LocalTime, hoursToAdd: int): (r: LocalTime)
    ensures r.minute == t.minute && r.second == t.second && r.nano == t.nano
    ensures (r.hour - t.hour - hoursToAdd) % HOURS_PER_DAY == 0
  {
    if hoursToAdd == 0 then t
    else TimeFields((JavaRem(hoursToAdd, HOURS_PER_DAY) + t.hour + HOURS_PER_DAY) % HOURS_PER_DAY,
                    t.minute, t.second, t.nano)
  }

  /** Adding any whole number of days to a time of day gives the same time back. */
  lemma {:induction false} PlusWholeDays(t: LocalTime, days: int)
    ensures PlusHours(t, HOURS_PER_DAY * days) == t
  {
    var n := HOURS_PER_DAY * days;
    if n != 0 {
      RemOfMultiple(days);
      assert JavaRem(n, HOURS_PER_DAY) == 0;
    }
  }

  lemma {:induction false} RemOfMultiple(days: int)
    decreases if days < 0 then 1 - days else days
    ensures JavaRem(HOURS_PER_DAY * days, HOURS_PER_DAY) == 0
  {
    if days < 0 {
      assert -(HOURS_PER_DAY * days) == HOURS_PER_DAY * (-days);
      RemOfMultiple(-days);
    } else if days > 0 {
      RemOfMultiple(days - 1);
      assert HOURS_PER_DAY * days == HOURS_PER_DAY * (days - 1) + HOURS_PER_DAY;
    }
  }

  /**
   * `ChronoUnit.MILLIS.between(start, end)`, i.e. `start.until(end, MILLIS)`:
   * the nanoseconds from `start` to `end` on the same day, divided by a
   * million with truncation toward zero.
   */
  function MillisBetween(start: LocalTime, end: LocalTime): (r: int)
    ensures var nanos := end.ToNanoOfDay() - start.ToNanoOfDay();
      && (nanos >= 0 ==> 0 <= r && r * NANOS_PER_MILLI <= nanos < (r + 1) * NANOS_PER_MILLI)
      && (nanos <= 0 ==> r <= 0 && (-r) * NANOS_PER_MILLI <= -nanos < (-r + 1) * NANOS_PER_MILLI)
  {
    JavaDiv(end.ToNanoOfDay() - start.ToNanoOfDay(), NANOS_PER_MILLI)
  }

  // ---------------------------------------------------------------------
  // LocalTime.parse(s, DateTimeFormatter.ofPattern("HH:mm"))
  // ---------------------------------------------------------------------

  /** The layout "HH:mm" demands: two ASCII digits, ':', two ASCII digits, nothing else. */
  predicate HasHHmmShape(s: string) {
    |s| == 5 && IsDigit(s[0]) && IsDigit(s[1]) && s[2] == ':' && IsDigit(s[3]) && IsDigit(s[4])
  }

  function TwoDigitValue(tens: char, units: char): (v: int)
    requires IsDigit(tens) && IsDigit(units)
    ensures 0 <= v <= 99
  {
    10 * DigitValue(tens) + DigitValue(units)
  }

  /**
   * The formatter reads two fixed-width numbers; the SMART resolver then
   * rejects a minute above 59, maps the end-of-day "24:00" to midnight,
   * and rejects any other hour above 23. `None` stands for the
   * `DateTimeParseException` the call throws.
   */
  function ParseHHmm(s: string): (r: Option<LocalTime>)
    ensures r.Some? ==> HasHHmmShape(s) && r.value.second == 0 && r.value.nano == 0
  {
    if !HasHHmmShape(s) then None
    else
      var hour := TwoDigitValue(s[0], s[1]);
      var minute := TwoDigitValue(s[3], s[4]);
      if minute > 59 then None
      else if hour == 24 && minute == 0 then Some(MIDNIGHT)
      else if hour > 23 then None
      else Some(TimeFields(hour, minute, 0, 0))
  }

  /** The text "HH:mm" that the pattern prints for `t`. */
  function FormatHHmm(t: LocalTime): (s: string)
    ensures HasHHmmShape(s)
  {
    [DigitChar(t.hour / 10), DigitChar(t.hour % 10), ':', DigitChar(t.minute / 10), DigitChar(t.minute % 10)]
  }

  /** Printing a time with "HH:mm" and parsing it back gives its hour and minute. */
  lemma FormatThenParse(t: LocalTime)
    ensures ParseHHmm(FormatHHmm(t)) == Some(TimeFields(t.hour, t.minute, 0, 0))
  {
    var s := FormatHHmm(t);
    assert TwoDigitValue(s[0], s[1]) == t.hour;
    assert TwoDigitValue(s[3], s[4]) == t.minute;
  }

  /** Every accepted text other than the end-of-day "24:00" prints back unchanged. */
  lemma ParseThenFormat(s: string)
    requires ParseHHmm(s).Some? && s[..2] != "24"
    ensures FormatHHmm(ParseHHmm(s).value) == s
  {
    var t := ParseHHmm(s).value;
    var f := FormatHHmm(t);
    assert s[..2] == [s[0], s[1]];
    assert t.hour == TwoDigitValue(s[0], s[1]) && t.minute == TwoDigitValue(s[3], s[4]);
    assert f[0] == s[0] && f[1] == s[1] && f[3] == s[3] && f[4] == s[4];
  }

  /** The end-of-day form is accepted as midnight; other hour-24 forms and short forms are not. */
  lemma ParseEdgeCases()
    ensures ParseHHmm("24:00") == Some(MIDNIGHT)
    ensures ParseHHmm("24:30") == None
    ensures ParseHHmm("23:60") == None
    ensures ParseHHmm("9:30") == None
    ensures ParseHHmm("") == None
    ensures ParseHHmm("14:30") == Some(TimeFields(14, 30, 0, 0))
  {
    assert TwoDigitValue('2', '4') == 24;
    assert TwoDigitValue('3', '0') == 30;
    assert TwoDigitValue('6', '0') == 60;
    assert TwoDigitValue('1', '4') == 14;
  }

  /**
   * Exactly which texts the parse accepts: the "HH:mm" shape with a minute
   * of at most 59, and an hour of at most 23 unless the text is "24:00".
   */
  lemma ParseAcceptsExactly(s: string)
    ensures ParseHHmm(s).Some? <==>
      HasHHmmShape(s) && TwoDigitValue(s[3], s[4]) <= 59 && (TwoDigitValue(s[0], s[1]) <= 23 || s == "24:00")
  {
    if HasHHmmShape(s) {
      var hour, minute := TwoDigitValue(s[0], s[1]), TwoDigitValue(s[3], s[4]);
      if hour == 24 && minute == 0 {
        assert s[0] == '2' && s[1] == '4' && s[3] == '0' && s[4] == '0';
        assert s == "24:00";
      }
      if s == "24:00" {
        assert hour == 24 && minute == 0;
      }
    }
  }
}
