/**
 * The backend's numeric helpers (tasks/utils.py): the affine range map, the
 * parser for Django duration strings, a piecewise-linear ramp and the
 * brownie-point scoring function.
 *
 * Durations are whole seconds. Floating point is modelled by `real`, so the
 * results are the exact values the float computations approximate. The
 * sigmoid (`1 / (1 + exp(-x))`) is a parameter, and so is the draw of
 * `random.uniform(0, 50)`.
 */
module TaskUtils {
  import opened Common
  import opened Text
  import opened Timedeltas

  /** The grossness scale users rate on, and the scale the scoring function uses. */
  const UserGrossRange: (real, real) := (0.0, 5.0)
  const OutputGrossRange: (real, real) := (0.0, 100.0)

  // ---------------------------------------------------------------- renormalize

  /** The affine map taking `a0` to `b0` and `a1` to `b1`. */
  function Affine(value: real, a0: real, a1: real, b0: real, b1: real): real
    requires a1 != a0
  {
    ((value - a0) * (b1 - b0)) / (a1 - a0) + b0
  }

  /** Maps `value` affinely from `oldRange` to `newRange`; a zero-width old range divides by zero. */
  function Renormalize(value: real, oldRange: (real, real), newRange: (real, real)): (r: Result<real, PyError>)
    ensures r.Failure? <==> oldRange.1 == oldRange.0
    ensures r.Failure? ==> r.error == ZeroDivisionError
    ensures r.Success? ==> r.value == Affine(value, oldRange.0, oldRange.1, newRange.0, newRange.1)
  {
    var oldWidth := oldRange.1 - oldRange.0;
    var newWidth := newRange.1 - newRange.0;
    if oldWidth == 0.0 then Failure(ZeroDivisionError)
    else Success(((value - oldRange.0) * newWidth) / oldWidth + newRange.0)
  }

  /** The ends of the old range go to the ends of the new range. */
  lemma RenormalizeEndpoints(a0: real, a1: real, b0: real, b1: real)
    requires a1 != a0
    ensures Renormalize(a0, (a0, a1), (b0, b1)) == Success(b0)
    ensures Renormalize(a1, (a0, a1), (b0, b1)) == Success(b1)
  {
    AffineEndpoints(a0, a1, b0, b1);
  }

  lemma AffineEndpoints(a0: real, a1: real, b0: real, b1: real)
    requires a1 != a0
    ensures Affine(a0, a0, a1, b0, b1) == b0 && Affine(a1, a0, a1, b0, b1) == b1
  {
    DivCancel(a1 - a0, b1 - b0);
  }

  lemma DivCancel(d: real, p: real)
    requires d != 0.0
    ensures (d * p) / d == p
  {
  }

  /** Mapping from A to B and back from B to A gives the value back. */
  lemma RenormalizeRoundTrip(value: real, a0: real, a1: real, b0: real, b1: real)
    requires a1 != a0 && b1 != b0
    ensures Renormalize(value, (a0, a1), (b0, b1)).Success?
    ensures Renormalize(Renormalize(value, (a0, a1), (b0, b1)).value, (b0, b1), (a0, a1)) == Success(value)
  {
    var x := Affine(value, a0, a1, b0, b1);
    AffineInverse(value, a0, a1, b0, b1);
    assert Renormalize(x, (b0, b1), (a0, a1)).value == Affine(x, b0, b1, a0, a1);
  }

  lemma AffineInverse(value: real, a0: real, a1: real, b0: real, b1: real)
    requires a1 != a0 && b1 != b0
    ensures Affine(Affine(value, a0, a1, b0, b1), b0, b1, a0, a1) == value
  {
    var wa, wb := a1 - a0, b1 - b0;
    var x := Affine(value, a0, a1, b0, b1);
    assert x - b0 == ((value - a0) * wb) / wa;
    assert ((value - a0) * wb) / wa * wa == (value - a0) * wb;
    assert ((x - b0) * wa) / wb == value - a0;
  }

  /** With both ranges increasing, a larger value maps to a larger value. */
  lemma RenormalizeMonotone(v1: real, v2: real, a0: real, a1: real, b0: real, b1: real)
    requires a0 < a1 && b0 <= b1 && v1 <= v2
    ensures Renormalize(v1, (a0, a1), (b0, b1)).value <= Renormalize(v2, (a0, a1), (b0, b1)).value
  {
    var wa, wb := a1 - a0, b1 - b0;
    assert (v1 - a0) * wb <= (v2 - a0) * wb by {
      assert (v2 - a0) * wb - (v1 - a0) * wb == (v2 - v1) * wb;
    }
    DivideMonotone((v1 - a0) * wb, (v2 - a0) * wb, wa);
  }

  lemma DivideMonotone(x: real, y: real, d: real)
    requires x <= y && 0.0 < d
    ensures x / d <= y / d
  {
    assert y / d - x / d == (y - x) / d;
  }

  // ---------------------------------------------------------------- durations

  /** The "HH:MM:SS" half of a duration, with the days already read. */
  function ParseClock(days: int, time: string): Result<int, PyError> {
    var fields := Split(time, ':');
    if |fields| != 3 then Failure(ValueError)
    else match (PyInt(fields[0]), PyInt(fields[1]), PyInt(fields[2]))
      case (Some(h), Some(m), Some(s)) => Timedelta(days, h, m, s)
      case _ => Failure(ValueError)
  }

  /** `parse_duration`: "[-]DD HH:MM:SS" or "HH:MM:SS" to seconds. */
  function ParseDuration(text: string): Result<int, PyError> {
    if ' ' in text then
      var parts := Split(text, ' ');
      if |parts| != 2 then Failure(ValueError)
      else match PyInt(parts[0])
        case None => Failure(ValueError)
        case Some(days) => ParseClock(days, parts[1])
    else ParseClock(0, text)
  }

  /** The clock text "H:M:S" for three integers. */
  function ClockText(hours: int, minutes: int, seconds: int): string {
    IntToString(hours) + ":" + IntToString(minutes) + ":" + IntToString(seconds)
  }

  /** The duration text "D H:M:S" for four integers. */
  function DurationText(days: int, hours: int, minutes: int, seconds: int): string {
    IntToString(days) + " " + ClockText(hours, minutes, seconds)
  }

  lemma IntToStringHasNo(n: int, c: char)
    requires !IsDigit(c) && c != '-'
    ensures c !in IntToString(n)
  {
  }

  lemma ParseClockText(days: int, hours: int, minutes: int, seconds: int)
    requires InTimedeltaRange(Seconds(days, hours, minutes, seconds))
    ensures ' ' !in ClockText(hours, minutes, seconds)
    ensures ParseClock(days, ClockText(hours, minutes, seconds)) == Success(Seconds(days, hours, minutes, seconds))
  {
    var h, m, s := IntToString(hours), IntToString(minutes), IntToString(seconds);
    IntToStringHasNo(hours, ':');
    IntToStringHasNo(minutes, ':');
    IntToStringHasNo(seconds, ':');
    IntToStringHasNo(hours, ' ');
    IntToStringHasNo(minutes, ' ');
    IntToStringHasNo(seconds, ' ');
    PyIntOfIntToString(hours);
    PyIntOfIntToString(minutes);
    PyIntOfIntToString(seconds);
    assert ClockText(hours, minutes, seconds) == h + [':'] + m + [':'] + s;
    ParseClockOfTexts(days, h, m, s, hours, minutes, seconds);
  }

  lemma ParseClockOfTexts(days: int, h: string, m: string, s: string, hours: int, minutes: int, seconds: int)
    requires ':' !in h && ':' !in m && ':' !in s
    requires PyInt(h) == Some(hours) && PyInt(m) == Some(minutes) && PyInt(s) == Some(seconds)
    ensures ParseClock(days, h + [':'] + m + [':'] + s) == Timedelta(days, hours, minutes, seconds)
  {
    SplitThree(h, m, s, ':');
  }

  /** Two separators cut a text into the three parts between them. */
  lemma SplitThree(a: string, b: string, d: string, c: char)
    requires c !in a && c !in b && c !in d
    ensures Split(a + [c] + b + [c] + d, c) == [a, b, d]
  {
    var parts := [a, b, d];
    assert parts[1..] == [b, d] && parts[1..][1..] == [d];
    assert Join([b, d], c) == b + [c] + d;
    assert Join(parts, c) == a + [c] + (b + [c] + d);
    assert a + [c] + b + [c] + d == a + [c] + (b + [c] + d);
    SplitJoin(parts, c);
  }

  /** A "D H:M:S" text parses to D days, H hours, M minutes and S seconds. */
  lemma ParseDurationText(days: int, hours: int, minutes: int, seconds: int)
    requires InTimedeltaRange(Seconds(days, hours, minutes, seconds))
    ensures ParseDuration(DurationText(days, hours, minutes, seconds)) == Success(Seconds(days, hours, minutes, seconds))
  {
    var dayText, clock := IntToString(days), ClockText(hours, minutes, seconds);
    ParseClockText(days, hours, minutes, seconds);
    IntToStringHasNo(days, ' ');
    PyIntOfIntToString(days);
    assert DurationText(days, hours, minutes, seconds) == dayText + [' '] + clock;
    ParseDurationOfTwoParts(dayText, clock);
  }

  /** A text with one space parses its days from the part before it and its clock from the part after it. */
  lemma ParseDurationOfTwoParts(dayText: string, clock: string)
    requires ' ' !in dayText && ' ' !in clock
    ensures ParseDuration(dayText + [' '] + clock) ==
      match PyInt(dayText)
      case None => Failure(ValueError)
      case Some(days) => ParseClock(days, clock)
  {
    var text := dayText + [' '] + clock;
    assert text[|dayText|] == ' ';
    assert Split(text, ' ') == [dayText, clock] by {
      assert Join([dayText, clock], ' ') == text;
      SplitJoin([dayText, clock], ' ');
    }
  }

  /** An "H:M:S" text without days parses to zero days, H hours, M minutes and S seconds. */
  lemma ParseDurationClockOnly(hours: int, minutes: int, seconds: int)
    requires InTimedeltaRange(Seconds(0, hours, minutes, seconds))
    ensures ParseDuration(ClockText(hours, minutes, seconds)) == Success(Seconds(0, hours, minutes, seconds))
  {
    ParseClockText(0, hours, minutes, seconds);
  }

  /** More than one space, or a time part that is not three `:`-separated fields, raises ValueError. */
  lemma ParseDurationRejects(text: string)
    ensures Count(text, ' ') >= 2 ==> ParseDuration(text) == Failure(ValueError)
    ensures ' ' !in text && Count(text, ':') != 2 ==> ParseDuration(text) == Failure(ValueError)
    ensures var parts := Split(text, ' ');
            |parts| == 2 && Count(parts[1], ':') != 2 ==> ParseDuration(text) == Failure(ValueError)
  {
    SplitLength(text, ' ');
    SplitLength(text, ':');
    var parts := Split(text, ' ');
    if |parts| == 2 {
      SplitLength(parts[1], ':');
    }
    if Count(text, ' ') >= 2 {
      CountNonZero(text, ' ');
    }
  }

  lemma {:induction false} CountNonZero(s: string, c: char)
    requires Count(s, c) > 0
    ensures c in s
  {
    if s[0] != c {
      CountNonZero(s[1..], c);
    }
  }

  // ---------------------------------------------------------------- piecewise_linear

  /** Slope `gradient1` up to `threshold`, slope `gradient2` after it. */
  function PiecewiseLinear(x: real, gradient1: real, gradient2: real, threshold: real): real {
    if x <= threshold then gradient1 * x
    else gradient1 * threshold + gradient2 * (x - threshold)
  }

  /** A slope `g` moves a value over a distance `d` by at most `bound * d` either way, when `|g| <= bound`. */
  lemma SlopeBound(g: real, bound: real, d: real)
    requires 0.0 <= d && -bound <= g <= bound
    ensures -(bound * d) <= g * d <= bound * d
  {
    assert (bound - g) * d >= 0.0;
    assert (bound + g) * d >= 0.0;
  }

  /**
   * The ramp is continuous, with no jump at the threshold: between any two
   * points it changes by at most the steeper slope times their distance.
   */
  lemma PiecewiseLinearContinuous(x: real, y: real, gradient1: real, gradient2: real, threshold: real, bound: real)
    requires x <= y
    requires -bound <= gradient1 <= bound && -bound <= gradient2 <= bound
    ensures -(bound * (y - x)) <= PiecewiseLinear(y, gradient1, gradient2, threshold) - PiecewiseLinear(x, gradient1, gradient2, threshold)
    ensures PiecewiseLinear(y, gradient1, gradient2, threshold) - PiecewiseLinear(x, gradient1, gradient2, threshold) <= bound * (y - x)
  {
    var t := threshold;
    var d := y - x;
    var change := PiecewiseLinear(y, gradient1, gradient2, t) - PiecewiseLinear(x, gradient1, gradient2, t);
    if y <= t {
      SlopeBound(gradient1, bound, d);
      assert change == gradient1 * d;
    } else if t < x {
      SlopeBound(gradient2, bound, d);
      assert change == gradient2 * d;
    } else {
      SlopeBound(gradient1, bound, t - x);
      SlopeBound(gradient2, bound, y - t);
      assert change == gradient1 * (t - x) + gradient2 * (y - t);
      assert bound * (t - x) + bound * (y - t) == bound * d;
    }
  }

  /** With non-negative gradients the ramp never decreases. */
  lemma PiecewiseLinearMonotone(x: real, y: real, gradient1: real, gradient2: real, threshold: real)
    requires x <= y && 0.0 <= gradient1 && 0.0 <= gradient2
    ensures PiecewiseLinear(x, gradient1, gradient2, threshold) <= PiecewiseLinear(y, gradient1, gradient2, threshold)
  {
    var t := threshold;
    if y <= t {
      assert gradient1 * y - gradient1 * x == gradient1 * (y - x);
    } else if x <= t {
      assert gradient1 * t - gradient1 * x == gradient1 * (t - x);
      assert 0.0 <= gradient2 * (y - t);
    } else {
      assert gradient2 * (y - t) - gradient2 * (x - t) == gradient2 * (y - x);
    }
  }

  // ---------------------------------------------------------------- bp_function

  /** Python's `int(x)` of a float: truncation toward zero. */
  function Trunc(x: real): (r: int)
    ensures 0.0 <= x ==> r as real <= x < r as real + 1.0
    ensures x < 0.0 ==> r as real - 1.0 < x <= r as real
  {
    if x >= 0.0 then x.Floor else -((-x).Floor)
  }

  lemma TruncMonotone(x: real, y: real)
    requires x <= y
    ensures Trunc(x) <= Trunc(y)
  {
  }

  /** The scale a grossness rating takes before scoring: [0, 5] onto [0, 100]. */
  function ScaledGrossness(grossness: real): (g: real)
    ensures Renormalize(grossness, UserGrossRange, OutputGrossRange) == Success(g)
    ensures g == 20.0 * grossness
  {
    var g := Renormalize(grossness, UserGrossRange, OutputGrossRange).value;
    assert g == ((grossness - 0.0) * (100.0 - 0.0)) / (5.0 - 0.0) + 0.0;
    g
  }

  /**
   * `bp_function`. `sigmoid` stands for `1 / (1 + exp(-x))` and `randomBase`
   * for the value `random.uniform(0, 50)` drew. The history arguments of the
   * source are not used by its body and are not parameters here.
   */
  function BpFunction(completionMinutes: real, grossness: real, sigmoid: real -> real, randomBase: real): (r: int)
    ensures completionMinutes == 0.0 ==> r == 0
  {
    if completionMinutes == 0.0 then 0
    else
      var g := ScaledGrossness(grossness);
      var points := 200.0 * sigmoid(completionMinutes / 20.0) + g - 100.0;
      var randomFactor := 1.0;
      Trunc(points * randomFactor + randomBase)
  }

  /** For a nonzero time the score is the truncation of `200 * sigmoid(m / 20) + 20 * g - 100 + r`. */
  lemma BpFunctionFormula(completionMinutes: real, grossness: real, sigmoid: real -> real, randomBase: real)
    requires completionMinutes != 0.0
    ensures BpFunction(completionMinutes, grossness, sigmoid, randomBase)
      == Trunc(200.0 * sigmoid(completionMinutes / 20.0) + 20.0 * grossness - 100.0 + randomBase)
  {
    var g := ScaledGrossness(grossness);
    var points := 200.0 * sigmoid(completionMinutes / 20.0) + g - 100.0;
    assert points * 1.0 + randomBase == 200.0 * sigmoid(completionMinutes / 20.0) + 20.0 * grossness - 100.0 + randomBase;
  }

  /** With the time and the random draw fixed, a grossier completion never scores less. */
  lemma BpFunctionMonotoneInGrossness(completionMinutes: real, g1: real, g2: real, sigmoid: real -> real, randomBase: real)
    requires g1 <= g2
    ensures BpFunction(completionMinutes, g1, sigmoid, randomBase) <= BpFunction(completionMinutes, g2, sigmoid, randomBase)
  {
    if completionMinutes != 0.0 {
      BpFunctionFormula(completionMinutes, g1, sigmoid, randomBase);
      BpFunctionFormula(completionMinutes, g2, sigmoid, randomBase);
      var s := 200.0 * sigmoid(completionMinutes / 20.0);
      TruncMonotone(s + 20.0 * g1 - 100.0 + randomBase, s + 20.0 * g2 - 100.0 + randomBase);
    }
  }

  /** With an increasing sigmoid, a longer (positive) completion time never scores less. */
  lemma BpFunctionMonotoneInTime(m1: real, m2: real, grossness: real, sigmoid: real -> real, randomBase: real)
    requires 0.0 < m1 <= m2
    requires forall a: real, b: real :: a <= b ==> sigmoid(a) <= sigmoid(b)
    ensures BpFunction(m1, grossness, sigmoid, randomBase) <= BpFunction(m2, grossness, sigmoid, randomBase)
  {
    BpFunctionFormula(m1, grossness, sigmoid, randomBase);
    BpFunctionFormula(m2, grossness, sigmoid, randomBase);
    assert sigmoid(m1 / 20.0) <= sigmoid(m2 / 20.0);
    var rest := 20.0 * grossness - 100.0 + randomBase;
    TruncMonotone(200.0 * sigmoid(m1 / 20.0) + rest, 200.0 * sigmoid(m2 / 20.0) + rest);
  }

  /** With a sigmoid value in (0, 1), grossness in [0, 5] and a draw in [0, 50], the score lies in (-100, 250). */
  lemma BpFunctionRange(completionMinutes: real, grossness: real, sigmoid: real -> real, randomBase: real)
    requires 0.0 < sigmoid(completionMinutes / 20.0) < 1.0
    requires 0.0 <= grossness <= 5.0 && 0.0 <= randomBase <= 50.0
    ensures -100 < BpFunction(completionMinutes, grossness, sigmoid, randomBase) < 250
  {
    if completionMinutes != 0.0 {
      BpFunctionFormula(completionMinutes, grossness, sigmoid, randomBase);
    }
  }

}
