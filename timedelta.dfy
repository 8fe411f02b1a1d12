/**
 * The `datetime.timedelta` arithmetic the backend relies on. A duration is a
 * whole number of seconds (or of microseconds where division produces
 * them); a `timedelta` keeps a day count within +-999999999 and raises
 * OverflowError outside it, and dividing one by an integer rounds to the
 * nearest microsecond, ties to even.
 */
module Timedeltas {
  import opened Common
  import opened Text

  const SecondsPerDay: int := 86400
  /** The largest magnitude of days a Python `timedelta` can hold. */
  const MaxDays: int := 999999999

  /** The seconds in a duration given by its components. */
  function Seconds(days: int, hours: int, minutes: int, seconds: int): int {
    days * SecondsPerDay + hours * 3600 + minutes * 60 + seconds
  }

  /** A `timedelta` normalises to whole days (rounded down) plus seconds; its days must stay within `MaxDays`. */
  predicate InTimedeltaRange(seconds: int) {
    -MaxDays <= seconds / SecondsPerDay <= MaxDays
  }

  /** `timedelta(days=.., hours=.., minutes=.., seconds=..)`, which overflows past `MaxDays` days. */
  function Timedelta(days: int, hours: int, minutes: int, seconds: int): (r: Result<int, PyError>)
    ensures r.Success? ==> r.value == Seconds(days, hours, minutes, seconds)
    ensures r.Failure? <==> !InTimedeltaRange(Seconds(days, hours, minutes, seconds))
    ensures r.Failure? ==> r.error == OverflowError
  {
    var total := Seconds(days, hours, minutes, seconds);
    if InTimedeltaRange(total) then Success(total) else Failure(OverflowError)
  }

  /** The microseconds in a second: `timedelta` division works in microseconds. */
  const MicrosPerSecond: int := 1000000

  /** Python's `_divide_and_round`: the quotient `a / b` rounded to the nearest integer, ties to even. */
  function RoundHalfEven(a: int, b: int): (q: int)
    requires b > 0
    ensures 2 * (a - q * b) <= b && -b <= 2 * (a - q * b)
  {
    var q, r := a / b, a % b;
    if 2 * r > b || (2 * r == b && q % 2 == 1) then q + 1 else q
  }

  /** A rounded quotient stays between the bounds of the exact one. */
  lemma RoundHalfEvenBounds(a: int, b: int, lo: int, hi: int)
    requires b > 0 && lo * b <= a <= hi * b
    ensures lo <= RoundHalfEven(a, b) <= hi
  {
    NearestBounds(a, b, RoundHalfEven(a, b), lo, hi);
  }

  /** Any integer within half a divisor of the exact quotient keeps its bounds. */
  lemma NearestBounds(a: int, b: int, q: int, lo: int, hi: int)
    requires b > 0 && lo * b <= a <= hi * b
    requires 2 * (a - q * b) <= b && -b <= 2 * (a - q * b)
    ensures lo <= q <= hi
  {
    if q < lo {
      MulStep(q, lo, b);
    }
    if q > hi {
      MulStep(hi, q, b);
    }
  }

  lemma {:induction false} MulStep(x: int, y: int, b: int)
    requires x < y && 0 < b
    ensures x * b + b <= y * b
    decreases y - x
  {
    if x + 1 < y {
      MulStep(x, y - 1, b);
      assert (y - 1) * b + b == y * b;
    } else {
      assert (x + 1) * b == x * b + b;
    }
  }

  function Sum(xs: seq<int>): int {
    if xs == [] then 0 else Sum(xs[..|xs| - 1]) + xs[|xs| - 1]
  }

  /**
   * `total += work_log.completion_time` from `acc`, left to right: each
   * partial sum is a `timedelta` and overflows out of range.
   */
  function Accumulate(acc: int, times: seq<int>): (r: Result<int, PyError>)
    ensures r.Success? ==> r.value == acc + SumFrom(times)
    ensures r.Success? <==> PartialSumsInRange(acc, times)
    ensures r.Failure? ==> r.error == OverflowError
    decreases |times|
  {
    if times == [] then Success(acc)
    else
      PartialSumsStep(acc, times);
      if !InTimedeltaRange(acc + times[0]) then Failure(OverflowError)
      else Accumulate(acc + times[0], times[1..])
  }

  /** Every partial sum `acc + times[0] + ... + times[k - 1]`, for `k >= 1`, is a valid `timedelta`. */
  predicate PartialSumsInRange(acc: int, times: seq<int>) {
    forall k :: 1 <= k <= |times| ==> InTimedeltaRange(acc + SumFrom(times[..k]))
  }

  /** The partial sums from `acc` are the first one and then the partial sums of the rest from it. */
  lemma PartialSumsStep(acc: int, times: seq<int>)
    requires times != []
    ensures PartialSumsInRange(acc, times) <==>
      InTimedeltaRange(acc + times[0]) && PartialSumsInRange(acc + times[0], times[1..])
  {
    forall k | 1 <= k <= |times|
      ensures acc + SumFrom(times[..k]) == acc + times[0] + SumFrom(times[1..][..k - 1])
    {
      assert times[..k][1..] == times[1..][..k - 1];
    }
    assert times[..1][1..] == [];
    if InTimedeltaRange(acc + times[0]) && PartialSumsInRange(acc + times[0], times[1..]) {
      forall k | 1 <= k <= |times|
        ensures InTimedeltaRange(acc + SumFrom(times[..k]))
      {
        if k > 1 {
          assert InTimedeltaRange(acc + times[0] + SumFrom(times[1..][..k - 1]));
        }
      }
    }
    if PartialSumsInRange(acc, times) {
      assert InTimedeltaRange(acc + SumFrom(times[..1]));
      forall k | 1 <= k <= |times[1..]|
        ensures InTimedeltaRange(acc + times[0] + SumFrom(times[1..][..k]))
      {
        assert InTimedeltaRange(acc + SumFrom(times[..k + 1]));
      }
    }
  }

  function SumFrom(xs: seq<int>): int {
    if xs == [] then 0 else xs[0] + SumFrom(xs[1..])
  }

  lemma {:induction false} SumFromIsSum(xs: seq<int>)
    ensures SumFrom(xs) == Sum(xs)
    decreases |xs|
  {
    if xs != [] {
      SumFromIsSum(xs[1..]);
      if |xs| > 1 {
        SumFromIsSum(xs[..|xs| - 1]);
        SumFromIsSum(xs[1..][..|xs[1..]| - 1]);
        assert xs[1..][..|xs[1..]| - 1] == xs[..|xs| - 1][1..];
      }
    }
  }

  /** The average duration of a non-empty history, in microseconds, as `total / len(work_logs)` computes it. */
  function AverageMicros(total: int, count: int): int
    requires count > 0
  {
    RoundHalfEven(total * MicrosPerSecond, count)
  }

  /** The `timedelta.seconds` of a duration held in microseconds. */
  function MicrosSecondsField(micros: int): (s: int)
    ensures 0 <= s < SecondsPerDay
  {
    (micros / MicrosPerSecond) % SecondsPerDay
  }

  lemma WholeDaysShift(seconds: int, days: int)
    ensures (seconds + days * SecondsPerDay) % SecondsPerDay == seconds % SecondsPerDay
  {
    var q, r := seconds / 86400, seconds % 86400;
    assert seconds + days * 86400 == (q + days) * 86400 + r;
  }

  lemma AverageMicrosBounds(total: int, n: int, lo: int, hi: int)
    requires n > 0 && lo * n <= total <= hi * n
    ensures lo * MicrosPerSecond <= AverageMicros(total, n) <= hi * MicrosPerSecond
  {
    var a := total * 1000000;
    var l, h := lo * 1000000, hi * 1000000;
    assert l * n == (lo * n) * 1000000;
    assert h * n == (hi * n) * 1000000;
    RoundHalfEvenBounds(a, n, l, h);
  }

  // ---------------------------------------------------------------- serialization

  /** `'{:02d}'.format(n)` for a number below 100. */
  function TwoDigits(n: nat): (s: string)
    requires n < 100
    ensures |s| == 2 && AllDigits(s)
  {
    if n < 10 then ['0', DigitChar(n)] else NatToStringSmall(n); NatToString(n)
  }

  /**
   * Django's `duration_string`, the text a `DurationField` is served as:
   * "HH:MM:SS" with two-digit fields, preceded by the day count and a space
   * when that count is not 0. The days are rounded down, so the clock is
   * never negative; whole seconds leave no microsecond suffix.
   */
  function DurationString(seconds: int): string {
    var days, rest := seconds / SecondsPerDay, seconds % SecondsPerDay;
    var clock := TwoDigits(rest / 3600) + ":" + TwoDigits(rest % 3600 / 60) + ":" + TwoDigits(rest % 60);
    if days != 0 then IntToString(days) + " " + clock else clock
  }

  lemma {:induction false} SumBounds(xs: seq<int>, lo: int, hi: int)
    requires forall i :: 0 <= i < |xs| ==> lo <= xs[i] <= hi
    ensures lo * |xs| <= Sum(xs) <= hi * |xs|
    decreases |xs|
  {
    if xs != [] {
      SumBounds(xs[..|xs| - 1], lo, hi);
    }
  }
}
