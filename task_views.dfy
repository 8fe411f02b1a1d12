/**
 * The scoring endpoint of tasks/views.py: its own five-argument copy of the
 * range map, the history-relative brownie-point formula and the status the
 * view answers with. Its copy of the duration parser is the same function
 * as `TaskUtils.ParseDuration`.
 *
 * A task's history is the list of its work logs, each with a completion time
 * in whole seconds and a grossness rating.
 */
module TaskViews {
  import opened Common
  import opened Timedeltas
  import opened TaskUtils

  datatype WorkLogEntry = WorkLogEntry(completionSeconds: int, grossness: real)

  /** The five-argument `renormalize` of the view module. */
  function Renormalize5(value: real, oldMin: real, oldMax: real, newMin: real, newMax: real): (r: Result<real, PyError>)
    ensures r.Failure? <==> oldMax == oldMin
    ensures r.Failure? ==> r.error == ZeroDivisionError
  {
    var oldRange := oldMax - oldMin;
    var newRange := newMax - newMin;
    if oldRange == 0.0 then Failure(ZeroDivisionError)
    else Success(((value - oldMin) * newRange) / oldRange + newMin)
  }

  /** The five-argument copy agrees with the pair-based `renormalize` everywhere. */
  lemma Renormalize5Agrees(value: real, oldMin: real, oldMax: real, newMin: real, newMax: real)
    ensures Renormalize5(value, oldMin, oldMax, newMin, newMax) == Renormalize(value, (oldMin, oldMax), (newMin, newMax))
  {
    if oldMax != oldMin {
      var x := ((value - oldMin) * (newMax - newMin)) / (oldMax - oldMin) + newMin;
      assert Renormalize5(value, oldMin, oldMax, newMin, newMax) == Success(x);
      assert Renormalize(value, (oldMin, oldMax), (newMin, newMax)) == Success(x);
    }
  }

  /** It therefore maps `oldMin` to `newMin` and `oldMax` to `newMax`. */
  lemma Renormalize5Endpoints(oldMin: real, oldMax: real, newMin: real, newMax: real)
    requires oldMax != oldMin
    ensures Renormalize5(oldMin, oldMin, oldMax, newMin, newMax) == Success(newMin)
    ensures Renormalize5(oldMax, oldMin, oldMax, newMin, newMax) == Success(newMax)
  {
    Renormalize5Agrees(oldMin, oldMin, oldMax, newMin, newMax);
    Renormalize5Agrees(oldMax, oldMin, oldMax, newMin, newMax);
    RenormalizeEndpoints(oldMin, oldMax, newMin, newMax);
  }

  /** A submitted rating on [0, 5] rescaled to [1, 2]. */
  function SubmittedGrossness(grossness: real): (g: real)
    ensures Renormalize5(grossness, 0.0, 5.0, 1.0, 2.0) == Success(g)
    ensures 0.0 <= grossness <= 5.0 ==> 1.0 <= g <= 2.0
  {
    Renormalize5(grossness, 0.0, 5.0, 1.0, 2.0).value
  }

  /** A logged rating on [1, 5] rescaled to [0.5, 2]. */
  function LoggedGrossness(grossness: real): (g: real)
    ensures Renormalize5(grossness, 1.0, 5.0, 0.5, 2.0) == Success(g)
    ensures 1.0 <= grossness <= 5.0 ==> 0.5 <= g <= 2.0
  {
    Renormalize5(grossness, 1.0, 5.0, 0.5, 2.0).value
  }

  /** `timedelta.seconds / 60`: the seconds field keeps only the part of the duration below one day. */
  function FieldMinutes(seconds: int): (m: real)
    ensures 0.0 <= m < 1440.0
  {
    ((seconds % SecondsPerDay) as real) / 60.0
  }

  /** The completion times of a history. */
  function Times(history: seq<WorkLogEntry>): (times: seq<int>)
    ensures |times| == |history|
    ensures forall i :: 0 <= i < |history| ==> times[i] == history[i].completionSeconds
  {
    if history == [] then [] else [history[0].completionSeconds] + Times(history[1..])
  }

  /** The sum of the rescaled logged ratings, added in log order. */
  function SumLoggedGrossness(history: seq<WorkLogEntry>): real {
    if history == [] then 0.0
    else SumLoggedGrossness(history[..|history| - 1]) + LoggedGrossness(history[|history| - 1].grossness)
  }

  /** Ratings on [1, 5] add up to a total between 0.5 and 2 per log. */
  lemma {:induction false} SumLoggedGrossnessBounds(history: seq<WorkLogEntry>)
    requires forall i :: 0 <= i < |history| ==> 1.0 <= history[i].grossness <= 5.0
    ensures 0.5 * |history| as real <= SumLoggedGrossness(history) <= 2.0 * |history| as real
    decreases |history|
  {
    if history != [] {
      SumLoggedGrossnessBounds(history[..|history| - 1]);
    }
  }

  /**
   * `calculate_brownie_points` once the task is found: the submitted time
   * and rating are compared with the averages of the task's history (or
   * with themselves when there is none).
   */
  function BrowniePoints(completionText: string, grossness: real, history: seq<WorkLogEntry>): Result<real, PyError> {
    match ParseDuration(completionText)
    case Failure(e) => Failure(e)
    case Success(completion) => PointsForSecondsField(completion % SecondsPerDay, grossness, history)
  }

  /** The rest of the computation, which sees the submitted duration only through its `timedelta.seconds`. */
  function PointsForSecondsField(secondsField: int, grossness: real, history: seq<WorkLogEntry>): Result<real, PyError> {
    var g := SubmittedGrossness(grossness);
    var averages: Result<(int, real), PyError> :=
      if |history| == 0 then Success((secondsField, g))
      else match Accumulate(0, Times(history))
        case Failure(e) => Failure(e)
        case Success(total) =>
          Success((MicrosSecondsField(AverageMicros(total, |history|)),
                   SumLoggedGrossness(history) / |history| as real));
    match averages
    case Failure(e) => Failure(e)
    case Success((averageSeconds, averageGrossness)) =>
      Score(g, FieldMinutes(secondsField), averageGrossness, FieldMinutes(averageSeconds))
  }

  /** The final expression of `calculate_brownie_points`, which divides by the product of the averages. */
  function Score(g: real, minutes: real, averageGrossness: real, averageMinutes: real): (r: Result<real, PyError>)
    ensures r.Failure? <==> averageGrossness * averageMinutes == 0.0
  {
    var denominator := averageGrossness * averageMinutes;
    if denominator == 0.0 then Failure(ZeroDivisionError)
    else Success(((g * minutes) / denominator) * (averageMinutes * g))
  }

  /** The loops of `calculate_brownie_points`, computing what `BrowniePoints` specifies. */
  method CalculateBrowniePoints(completionText: string, grossness: real, history: seq<WorkLogEntry>) returns (r: Result<real, PyError>)
    ensures r == BrowniePoints(completionText, grossness, history)
  {
    var parsed := ParseDuration(completionText);
    if parsed.Failure? {
      return Failure(parsed.error);
    }
    var secondsField := parsed.value % SecondsPerDay;
    var g := SubmittedGrossness(grossness);
    var averageSeconds: int, averageGrossness: real;
    if |history| == 0 {
      averageSeconds, averageGrossness := secondsField, g;
    } else {
      var total := TotalCompletionTime(history);
      if total.Failure? {
        return Failure(total.error);
      }
      averageSeconds := MicrosSecondsField(AverageMicros(total.value, |history|));
      var totalGrossness := TotalLoggedGrossness(history);
      averageGrossness := totalGrossness / |history| as real;
    }
    r := Score(g, FieldMinutes(secondsField), averageGrossness, FieldMinutes(averageSeconds));
  }

  /** The first loop: the durations of the logs added up as `timedelta`s. */
  method TotalCompletionTime(history: seq<WorkLogEntry>) returns (r: Result<int, PyError>)
    ensures r == Accumulate(0, Times(history))
    ensures r.Success? <==> PartialSumsInRange(0, Times(history))
  {
    var times := Times(history);
    var total := 0;
    var i := 0;
    while i < |history|
      invariant 0 <= i <= |history|
      invariant Accumulate(0, times) == Accumulate(total, times[i..])
    {
      assert times[i..][1..] == times[i + 1..];
      if !InTimedeltaRange(total + history[i].completionSeconds) {
        return Failure(OverflowError);
      }
      total := total + history[i].completionSeconds;
      i := i + 1;
    }
    return Success(total);
  }

  /** The second loop: the rescaled ratings of the logs added up. */
  method TotalLoggedGrossness(history: seq<WorkLogEntry>) returns (total: real)
    ensures total == SumLoggedGrossness(history)
  {
    total := 0.0;
    var i := 0;
    while i < |history|
      invariant 0 <= i <= |history|
      invariant total == SumLoggedGrossness(history[..i])
    {
      assert history[..i + 1][..i] == history[..i];
      total := total + LoggedGrossness(history[i].grossness);
      i := i + 1;
    }
    assert history[..i] == history;
  }

  /** With no history the score is the rescaled rating times the completion minutes (or a division by zero). */
  lemma BrowniePointsWithoutHistory(completionText: string, grossness: real, completion: int)
    requires ParseDuration(completionText) == Success(completion)
    ensures var product := SubmittedGrossness(grossness) * FieldMinutes(completion);
            BrowniePoints(completionText, grossness, []) ==
              if product == 0.0 then Failure(ZeroDivisionError) else Success(product)
  {
    BrowniePointsOfParsed(completionText, completion, grossness, []);
    PointsWithoutHistoryOf(completion, grossness);
  }

  lemma PointsWithoutHistoryOf(completion: int, grossness: real)
    ensures var product := SubmittedGrossness(grossness) * FieldMinutes(completion);
            PointsForSecondsField(completion % SecondsPerDay, grossness, []) ==
              if product == 0.0 then Failure(ZeroDivisionError) else Success(product)
  {
    FieldMinutesOfField(completion);
    PointsWithoutHistory(completion % SecondsPerDay, grossness);
    var g := SubmittedGrossness(grossness);
    assert g * FieldMinutes(completion % SecondsPerDay) == g * FieldMinutes(completion);
  }

  lemma PointsWithoutHistory(secondsField: int, grossness: real)
    ensures var product := SubmittedGrossness(grossness) * FieldMinutes(secondsField);
            PointsForSecondsField(secondsField, grossness, []) ==
              if product == 0.0 then Failure(ZeroDivisionError) else Success(product)
  {
    var g, m := SubmittedGrossness(grossness), FieldMinutes(secondsField);
    assert PointsForSecondsField(secondsField, grossness, []) == Score(g, m, g, m);
    ScoreAgainstItself(g, m);
    assert Score(g, m, g, m) == if g * m == 0.0 then Failure(ZeroDivisionError) else Success(g * m);
    assert SubmittedGrossness(grossness) * FieldMinutes(secondsField) == g * m;
  }

  lemma FieldMinutesOfField(seconds: int)
    ensures FieldMinutes(seconds % SecondsPerDay) == FieldMinutes(seconds)
  {
    var f := seconds % 86400;
    assert f % 86400 == f;
  }

  /** Compared with itself, a score is the rating times the minutes. */
  lemma ScoreAgainstItself(g: real, m: real)
    ensures Score(g, m, g, m) == if g * m == 0.0 then Failure(ZeroDivisionError) else Success(g * m)
  {
    if g * m != 0.0 {
      assert (g * m) / (g * m) == 1.0;
      assert ((g * m) / (g * m)) * (m * g) == g * m;
    }
  }

  /** Only `timedelta.seconds` is used, so the days of a submitted "D H:M:S" do not change the score. */
  lemma BrowniePointsIgnoresDays(days: int, hours: int, minutes: int, seconds: int, grossness: real, history: seq<WorkLogEntry>)
    requires InTimedeltaRange(Seconds(days, hours, minutes, seconds))
    requires InTimedeltaRange(Seconds(0, hours, minutes, seconds))
    ensures BrowniePoints(DurationText(days, hours, minutes, seconds), grossness, history)
         == BrowniePoints(DurationText(0, hours, minutes, seconds), grossness, history)
  {
    var a, b := Seconds(days, hours, minutes, seconds), Seconds(0, hours, minutes, seconds);
    var text1, text2 := DurationText(days, hours, minutes, seconds), DurationText(0, hours, minutes, seconds);
    ParseDurationText(days, hours, minutes, seconds);
    ParseDurationText(0, hours, minutes, seconds);
    BrowniePointsOfParsed(text1, a, grossness, history);
    BrowniePointsOfParsed(text2, b, grossness, history);
    assert a == b + days * SecondsPerDay;
    WholeDaysShift(b, days);
  }

  lemma BrowniePointsOfParsed(text: string, completion: int, grossness: real, history: seq<WorkLogEntry>)
    requires ParseDuration(text) == Success(completion)
    ensures BrowniePoints(text, grossness, history) == PointsForSecondsField(completion % SecondsPerDay, grossness, history)
  {
  }

  /** A history whose times lie in [lo, hi] has its rounded average time in the same range. */
  lemma AverageTimeBounds(history: seq<WorkLogEntry>, total: int, lo: int, hi: int)
    requires |history| > 0
    requires Accumulate(0, Times(history)) == Success(total)
    requires forall i :: 0 <= i < |history| ==> lo <= history[i].completionSeconds <= hi
    ensures total == Sum(Times(history))
    ensures lo * MicrosPerSecond <= AverageMicros(total, |history|) <= hi * MicrosPerSecond
  {
    var times := Times(history);
    assert total == Sum(times) by {
      SumFromIsSum(times);
    }
    assert lo * |history| <= total <= hi * |history| by {
      forall i | 0 <= i < |times|
        ensures lo <= times[i] <= hi
      {
        assert times[i] == history[i].completionSeconds;
      }
      SumBounds(times, lo, hi);
    }
    AverageMicrosBounds(total, |history|, lo, hi);
  }

  /** A history whose ratings lie in [1, 5] has its average rescaled rating in [0.5, 2]. */
  lemma AverageGrossnessBounds(history: seq<WorkLogEntry>)
    requires |history| > 0
    requires forall i :: 0 <= i < |history| ==> 1.0 <= history[i].grossness <= 5.0
    ensures 0.5 <= SumLoggedGrossness(history) / |history| as real <= 2.0
  {
    SumLoggedGrossnessBounds(history);
    QuotientBounds(SumLoggedGrossness(history), |history| as real, 0.5, 2.0);
  }

  lemma QuotientBounds(total: real, n: real, lo: real, hi: real)
    requires n > 0.0 && lo * n <= total <= hi * n
    ensures lo <= total / n <= hi
  {
    var q := total / n;
    assert q * n == total;
  }

  // ---------------------------------------------------------------- the view

  datatype Response = Response(status: int, points: Option<real>)

  const BadRequest: int := 400
  const InternalServerError: int := 500
  const OK: int := 200

  /**
   * `calculate_brownie_points_view` for a POST. `histories` holds each known
   * task's work logs; an unknown id makes the task lookup raise. An uncaught
   * exception answers 500, and so does a score Python considers false (0.0).
   */
  function BrowniePointsView(histories: map<int, seq<WorkLogEntry>>, taskId: Option<int>,
                             completionTime: Option<string>, grossness: Option<real>): (resp: Response)
    ensures resp.status == BadRequest <==> taskId.None? || completionTime.None? || grossness.None?
    ensures resp.status == OK <==>
      taskId.Some? && completionTime.Some? && grossness.Some? && taskId.value in histories &&
      var r := BrowniePoints(completionTime.value, grossness.value, histories[taskId.value]);
      r.Success? && r.value != 0.0
    ensures resp.status == OK ==>
      resp.points == Some(BrowniePoints(completionTime.value, grossness.value, histories[taskId.value]).value)
    ensures resp.status in {BadRequest, InternalServerError, OK}
  {
    if taskId.None? || completionTime.None? || grossness.None? then Response(BadRequest, None)
    else if taskId.value !in histories then Response(InternalServerError, None)
    else match BrowniePoints(completionTime.value, grossness.value, histories[taskId.value])
      case Failure(_) => Response(InternalServerError, None)
      case Success(points) =>
        if points == 0.0 then Response(InternalServerError, None) else Response(OK, Some(points))
  }

  /** With no history, a completion time of whole days (zero included) divides by zero. */
  lemma WholeDaysWithoutHistoryFails(completionText: string, completion: int, grossness: real)
    requires ParseDuration(completionText) == Success(completion) && completion % SecondsPerDay == 0
    ensures BrowniePoints(completionText, grossness, []) == Failure(ZeroDivisionError)
  {
    BrowniePointsOfParsed(completionText, completion, grossness, []);
    ZeroFieldWithoutHistory(grossness);
  }

  lemma ZeroFieldWithoutHistory(grossness: real)
    ensures PointsForSecondsField(0, grossness, []) == Failure(ZeroDivisionError)
  {
    assert FieldMinutes(0) == 0.0;
  }

  /** So does the view for a known task with no logs: it answers 500. */
  lemma ViewWholeDaysWithoutHistory(histories: map<int, seq<WorkLogEntry>>, taskId: int,
                                    completionText: string, completion: int, grossness: real)
    requires taskId in histories && histories[taskId] == []
    requires ParseDuration(completionText) == Success(completion) && completion % SecondsPerDay == 0
    ensures BrowniePointsView(histories, Some(taskId), Some(completionText), Some(grossness)).status == InternalServerError
  {
    WholeDaysWithoutHistoryFails(completionText, completion, grossness);
  }

}
