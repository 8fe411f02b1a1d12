/**
 * What the task popups share: an interval entered as days, hours and
 * minutes, its total in minutes, the "D H:M:00" text sent to the backend,
 * `parseInterval`, which reads such a text back into the three fields, and
 * the validation ladder of the interval forms.
 *
 * Form fields are modelled as numbers (`JsNum`): `x || 0` reads a missing
 * or NaN field as 0.
 */
module IntervalForm {
  import opened Common
  import opened Text
  import opened Timedeltas
  import opened TaskUtils
  import opened DurationFormat

  datatype Interval = Interval(days: JsNum, hours: JsNum, minutes: JsNum)

  /** The fields of a fresh form. */
  const ZeroInterval := Interval(Num(0), Num(0), Num(0))

  /** The fields after a reset to an object without them: all undefined. */
  const ClearedInterval := Interval(Undefined, Undefined, Undefined)

  /** `(days || 0) * 24 * 60 + (hours || 0) * 60 + (minutes || 0)`. */
  function TotalMinutes(i: Interval): int {
    OrZero(i.days) * 24 * 60 + OrZero(i.hours) * 60 + OrZero(i.minutes)
  }

  /** `${days || 0} ${hours || 0}:${minutes || 0}:00`, the Django duration text of the interval. */
  function IntervalText(i: Interval): string {
    IntToString(OrZero(i.days)) + " " + IntToString(OrZero(i.hours)) + ":" + IntToString(OrZero(i.minutes)) + ":00"
  }

  /** The interval with every field read through `|| 0`. */
  function Normalized(i: Interval): Interval {
    Interval(Num(OrZero(i.days)), Num(OrZero(i.hours)), Num(OrZero(i.minutes)))
  }

  /** The interval text is the day text, a space and an "H:M:00" clock, with no stray separators. */
  lemma IntervalTextShape(i: Interval)
    ensures var hourText, minuteText := IntToString(OrZero(i.hours)), IntToString(OrZero(i.minutes));
      IntervalText(i) == IntToString(OrZero(i.days)) + [' '] + (hourText + [':'] + minuteText + [':'] + "00") &&
      ' ' !in IntToString(OrZero(i.days)) && ' ' !in hourText && ' ' !in minuteText &&
      ':' !in hourText && ':' !in minuteText
  {
    IntToStringHasNo(OrZero(i.days), ' ');
    IntToStringHasNo(OrZero(i.hours), ':');
    IntToStringHasNo(OrZero(i.minutes), ':');
    IntToStringHasNo(OrZero(i.hours), ' ');
    IntToStringHasNo(OrZero(i.minutes), ' ');
  }

  /** A "D H:M:S" text made of separator-free pieces parses piece by piece. */
  lemma ParseDurationOfPieces(text: string, dayText: string, hourText: string, minuteText: string, secondText: string,
                              days: int, hours: int, minutes: int, seconds: int)
    requires text == dayText + [' '] + (hourText + [':'] + minuteText + [':'] + secondText)
    requires ' ' !in dayText && ' ' !in hourText && ' ' !in minuteText && ' ' !in secondText
    requires ':' !in hourText && ':' !in minuteText && ':' !in secondText
    requires PyInt(dayText) == Some(days) && PyInt(hourText) == Some(hours)
    requires PyInt(minuteText) == Some(minutes) && PyInt(secondText) == Some(seconds)
    ensures ParseDuration(text) == Timedelta(days, hours, minutes, seconds)
  {
    var clock := hourText + [':'] + minuteText + [':'] + secondText;
    assert ' ' !in clock;
    ParseDurationOfTwoParts(dayText, clock);
    ParseClockOfTexts(days, hourText, minuteText, secondText, hours, minutes, seconds);
  }

  lemma PyIntDoubleZero()
    ensures PyInt("00") == Some(0)
    ensures ' ' !in "00" && ':' !in "00"
  {
    var z := ['0', '0'];
    assert StripLeft(z) == z;
    assert StripRight(z) == z;
    assert z[1..] == ['0'];
    assert AllDigits(z);
    assert z[..1] == ['0'];
    assert DigitsValue(z) == 0;
  }

  /** A text of three decimal numbers laid out as "D H:M:00" parses into those numbers. */
  lemma ParseDurationOfNumbers(text: string, days: int, hours: int, minutes: int)
    requires text == IntToString(days) + [' '] + (IntToString(hours) + [':'] + IntToString(minutes) + [':'] + "00")
    ensures ParseDuration(text) == Timedelta(days, hours, minutes, 0)
  {
    IntToStringHasNo(days, ' ');
    IntToStringHasNo(hours, ' ');
    IntToStringHasNo(minutes, ' ');
    IntToStringHasNo(hours, ':');
    IntToStringHasNo(minutes, ':');
    PyIntOfIntToString(days);
    PyIntOfIntToString(hours);
    PyIntOfIntToString(minutes);
    PyIntDoubleZero();
    ParseDurationOfPieces(text, IntToString(days), IntToString(hours), IntToString(minutes), "00", days, hours, minutes, 0);
  }

  /** The interval text parses piece by piece into its three fields. */
  lemma IntervalTextPieces(i: Interval)
    ensures ParseDuration(IntervalText(i)) == Timedelta(OrZero(i.days), OrZero(i.hours), OrZero(i.minutes), 0)
  {
    var d, h, m := OrZero(i.days), OrZero(i.hours), OrZero(i.minutes);
    assert IntervalText(i) == IntToString(d) + [' '] + (IntToString(h) + [':'] + IntToString(m) + [':'] + "00") by {
      IntervalTextShape(i);
    }
    ParseDurationOfNumbers(IntervalText(i), d, h, m);
  }

  /** The backend's `parse_duration` reads the interval text as exactly the interval's total, in seconds. */
  lemma IntervalTextParses(i: Interval)
    requires InTimedeltaRange(60 * TotalMinutes(i))
    ensures ParseDuration(IntervalText(i)) == Success(60 * TotalMinutes(i))
  {
    IntervalTextPieces(i);
    assert Seconds(OrZero(i.days), OrZero(i.hours), OrZero(i.minutes), 0) == 60 * TotalMinutes(i);
  }

  /** `parseInterval`, shared by the edit popups: days from before a space when there are two parts, then hours and minutes from the `:` fields. */
  function ParseInterval(interval: string): Interval {
    var parts := Split(interval, ' ');
    var days := if |parts| == 2 then JsParseInt(parts[0]) else Num(0);
    var time := if |parts| == 2 then parts[1] else parts[0];
    var fields := Split(time, ':');
    Interval(days, JsNumber(fields[0]), if |fields| >= 2 then JsNumber(fields[1]) else Undefined)
  }

  /** A "D H:M:S" text made of separator-free pieces reads piece by piece. */
  lemma ParseIntervalOfPieces(dayText: string, hourText: string, minuteText: string, secondText: string)
    requires ' ' !in dayText && ' ' !in hourText && ' ' !in minuteText && ' ' !in secondText
    requires ':' !in hourText && ':' !in minuteText && ':' !in secondText
    ensures ParseInterval(dayText + [' '] + (hourText + [':'] + minuteText + [':'] + secondText))
         == Interval(JsParseInt(dayText), JsNumber(hourText), JsNumber(minuteText))
  {
    var clock := hourText + [':'] + minuteText + [':'] + secondText;
    assert ' ' !in clock;
    assert Split(dayText + [' '] + clock, ' ') == [dayText, clock] by {
      assert Join([dayText, clock], ' ') == dayText + [' '] + clock;
      SplitJoin([dayText, clock], ' ');
    }
    SplitThree(hourText, minuteText, secondText, ':');
  }

  /** Reading back the text built from an interval gives the interval's normalized fields. */
  lemma ParseIntervalOfText(i: Interval)
    ensures ParseInterval(IntervalText(i)) == Normalized(i)
    ensures TotalMinutes(ParseInterval(IntervalText(i))) == TotalMinutes(i)
    ensures IntervalText(ParseInterval(IntervalText(i))) == IntervalText(i)
  {
    var d, h, m := OrZero(i.days), OrZero(i.hours), OrZero(i.minutes);
    IntervalTextShape(i);
    ParseIntervalOfPieces(IntToString(d), IntToString(h), IntToString(m), "00");
    JsParseIntOfIntToString(d);
    JsNumberOfIntToString(h);
    JsNumberOfIntToString(m);
  }

  /** A duration without days, such as "H:M:S", reads as zero days. */
  lemma ParseIntervalClockOnly(hours: int, minutes: int, seconds: int)
    ensures ParseInterval(ClockText(hours, minutes, seconds)) == Interval(Num(0), Num(hours), Num(minutes))
  {
    var text := ClockText(hours, minutes, seconds);
    var h, m, s := IntToString(hours), IntToString(minutes), IntToString(seconds);
    assert text == h + [':'] + m + [':'] + s && ' ' !in text by {
      IntToStringHasNo(hours, ' ');
      IntToStringHasNo(minutes, ' ');
      IntToStringHasNo(seconds, ' ');
    }
    assert Split(text, ' ') == [text];
    assert Split(text, ':') == [h, m, s] by {
      IntToStringHasNo(hours, ':');
      IntToStringHasNo(minutes, ':');
      IntToStringHasNo(seconds, ':');
      SplitThree(h, m, s, ':');
    }
    assert JsNumber(h) == Num(hours) && JsNumber(m) == Num(minutes) by {
      JsNumberOfIntToString(hours);
      JsNumberOfIntToString(minutes);
    }
  }

  /** The fields a total of minutes loads as from the backend's text: whole days, then the hours and minutes left over. */
  function CanonicalInterval(total: int): Interval {
    Interval(Num(total / 1440), Num(total % 1440 / 60), Num(total % 60))
  }

  lemma DivModUnique(a: int, b: int, q: int, r: int)
    requires 0 < b && a == q * b + r && 0 <= r < b
    ensures a / b == q && a % b == r
  {
    var q0, r0 := a / b, a % b;
    if q > q0 {
      MulStep(q0, q, b);
    }
    if q < q0 {
      MulStep(q, q0, b);
    }
  }

  /** How the days, hours, minutes and seconds of `60 * total` seconds relate to the total in minutes. */
  lemma MinutesOfSeconds(total: int)
    ensures var rest := (60 * total) % SecondsPerDay;
      (60 * total) / SecondsPerDay == total / 1440 && rest == 60 * (total % 1440) &&
      rest / 3600 == total % 1440 / 60 && rest % 3600 / 60 == total % 60 && rest % 60 == 0
  {
    var d, m := total / 1440, total % 1440;
    var h, mm := m / 60, m % 60;
    DivModUnique(60 * total, 86400, d, 60 * m);
    DivModUnique(60 * m, 3600, h, 60 * mm);
    DivModUnique(60 * mm, 60, mm, 0);
    DivModUnique(60 * m, 60, m, 0);
    DivModUnique(total, 60, 24 * d + h, mm);
  }

  /** A two-digit field reads back as its number. */
  lemma JsNumberOfTwoDigits(n: nat)
    requires n < 100
    ensures JsNumber(TwoDigits(n)) == Num(n)
    ensures ' ' !in TwoDigits(n) && ':' !in TwoDigits(n)
  {
    if n < 10 {
      JsNumberOfPadded(DigitChar(n));
    } else {
      assert TwoDigits(n) == IntToString(n);
      JsNumberOfIntToString(n);
      IntToStringHasNo(n, ' ');
      IntToStringHasNo(n, ':');
    }
  }

  lemma JsNumberOfPadded(c: char)
    requires IsDigit(c)
    ensures JsNumber(['0', c]) == Num(DigitValue(c))
    ensures ' ' !in ['0', c] && ':' !in ['0', c]
  {
    var t := ['0', c];
    StripUnspaced(t);
    assert t[..1] == ['0'] && ['0'][..0] == [];
    assert DigitsValue(t) == DigitValue(c);
    assert ParseDigits(t) == Some(DigitValue(c));
    assert t[0] != '-' && t[0] != '+';
  }

  /**
   * The edit popups' `parseInterval` of the backend's text for a duration of
   * `total` minutes gives the whole days, hours and minutes of that total.
   */
  lemma ParseIntervalOfDurationString(total: int)
    ensures ParseInterval(DurationString(60 * total)) == CanonicalInterval(total)
    ensures TotalMinutes(ParseInterval(DurationString(60 * total))) == total
  {
    var seconds := 60 * total;
    var days, rest := seconds / SecondsPerDay, seconds % SecondsPerDay;
    MinutesOfSeconds(total);
    var h, m, sec := rest / 3600, rest % 3600 / 60, rest % 60;
    var ht, mt, st := TwoDigits(h), TwoDigits(m), TwoDigits(sec);
    JsNumberOfTwoDigits(h);
    JsNumberOfTwoDigits(m);
    JsNumberOfTwoDigits(sec);
    var clock := ht + [':'] + mt + [':'] + st;
    assert DurationString(seconds) == if days != 0 then IntToString(days) + [' '] + clock else clock;
    if days != 0 {
      IntToStringHasNo(days, ' ');
      ParseIntervalOfPieces(IntToString(days), ht, mt, st);
      JsParseIntOfIntToString(days);
    } else {
      assert ' ' !in clock;
      assert Split(clock, ' ') == [clock];
      SplitThree(ht, mt, st, ':');
    }
  }

  /** `formatDuration` of the interval text names its days, hours and minutes. */
  lemma FormatDurationOfIntervalText(i: Interval)
    ensures FormatDuration(Some(IntervalText(i)))
         == DurationWords(IntToString(OrZero(i.days)), Num(OrZero(i.hours)), Num(OrZero(i.minutes)))
  {
    var d, h, m := OrZero(i.days), OrZero(i.hours), OrZero(i.minutes);
    var dayText, hourText, minuteText := IntToString(d), IntToString(h), IntToString(m);
    var clock := hourText + [':'] + minuteText + [':'] + "00";
    assert IntervalText(i) == dayText + " " + clock && ' ' !in dayText && ' ' !in clock by {
      IntervalTextShape(i);
    }
    assert Split(clock, ':') == [hourText, minuteText, "00"] by {
      IntervalTextShape(i);
      SplitThree(hourText, minuteText, "00", ':');
    }
    assert JsNumber(hourText) == Num(h) && JsNumber(minuteText) == Num(m) by {
      JsNumberOfIntToString(h);
      JsNumberOfIntToString(m);
    }
    FormatDurationWithDays(dayText, clock);
  }

  /** What a template literal prints for a text field that may be missing (`undefined`). */
  function Rendered(v: Option<string>): string {
    match v
    case Some(s) => s
    case None => "undefined"
  }

  // ---------------------------------------------------------------- validation

  /** Why a form submission is refused. */
  datatype InputProblem = BlankName | BlankDue | NegativeInterval | MaxBelowMin | InvalidCron

  /**
   * The ladder of the flexible-task forms: a blank name, then a negative
   * interval, then a maximum below the minimum. (The integer check in
   * between cannot fail on integer fields.)
   */
  function CheckFlexible(taskName: string, maxTotal: int, minTotal: int): (r: Option<InputProblem>)
    ensures r.None? <==> taskName != "" && 0 <= minTotal <= maxTotal
    ensures r == Some(BlankName) <==> taskName == ""
    ensures r == Some(NegativeInterval) <==> taskName != "" && (maxTotal < 0 || minTotal < 0)
    ensures r == Some(MaxBelowMin) <==> taskName != "" && 0 <= maxTotal < minTotal
  {
    if taskName == "" then Some(BlankName)
    else if maxTotal < 0 || minTotal < 0 then Some(NegativeInterval)
    else if maxTotal < minTotal then Some(MaxBelowMin)
    else None
  }
}
