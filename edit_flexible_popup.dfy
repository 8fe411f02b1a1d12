/**
 * The edit-flexible-task popup: loading a stored task into the form with
 * `parseInterval`, the input handler, and the submit handler, which
 * validates as the create popup does and then shows the task details.
 */
module EditFlexiblePopup {
  import opened Common
  import opened Text
  import opened Timedeltas
  import opened TaskUtils
  import opened IntervalForm
  import opened CreateFlexiblePopup

  /** The stored fields of a flexible task that the form shows. */
  datatype TaskData = TaskData(taskName: string, description: string, maxInterval: string, minInterval: string)

  /** The arguments of `updateFlexibleTask`. */
  datatype UpdateRequest = UpdateRequest(taskId: string, taskName: string, household: nat, maxInterval: string, minInterval: string, description: string)

  /** The form built from a stored task. */
  function LoadedForm(data: TaskData): FlexibleForm {
    FlexibleForm(data.taskName, data.description, data.maxInterval, data.minInterval,
      ParseInterval(data.maxInterval), ParseInterval(data.minInterval))
  }

  class Popup {
    var task: FlexibleForm
    var inputError: bool

    constructor ()
      ensures task == InitialForm && !inputError
    {
      task := InitialForm;
      inputError := false;
    }

    /** The fetch effect: the stored task with both intervals parsed into their fields. */
    method Load(data: TaskData)
      modifies this
      ensures task == LoadedForm(data) && inputError == old(inputError)
    {
      var maxInterval := ParseInterval(data.maxInterval);
      var minInterval := ParseInterval(data.minInterval);
      task := FlexibleForm(data.taskName, data.description, data.maxInterval, data.minInterval, maxInterval, minInterval);
    }

    /**
     * `handleUpdateTask`: the same ladder as the create popup; when it
     * passes, send the update, switch to the task details and reset the form.
     */
    method HandleUpdateTask(taskId: string, household: nat) returns (request: Option<UpdateRequest>, showDetails: bool)
      modifies this
      ensures var f := old(task);
        var problem := CheckForm(f);
        (request.None? <==> problem.Some?) && inputError == problem.Some? && showDetails == problem.None? &&
        (problem.Some? ==> task == f) &&
        (problem.None? ==>
          request == Some(UpdateRequest(taskId, f.taskName, household, IntervalText(f.maxInterval), IntervalText(f.minInterval), f.description)) &&
          task == ResetForm)
    {
      var maxTotal := TotalMinutes(task.maxInterval);
      var minTotal := TotalMinutes(task.minInterval);
      if task.taskName == "" {
        inputError := true;
        return None, false;
      }
      if maxTotal < 0 || minTotal < 0 {
        inputError := true;
        return None, false;
      }
      if maxTotal < minTotal {
        inputError := true;
        return None, false;
      }
      inputError := false;
      var maxInterval := IntervalText(task.maxInterval);
      var minInterval := IntervalText(task.minInterval);
      request := Some(UpdateRequest(taskId, task.taskName, household, maxInterval, minInterval, task.description));
      showDetails := true;
      task := ResetForm;
    }

    /** `handleUpdateInputChange` for a text input. */
    method HandleTextChange(field: TextField, value: string)
      modifies this
      ensures task == WithText(old(task), field, value)
      ensures inputError <==> MaxBelowMinTotals(task)
    {
      task := WithText(task, field, value);
      inputError := TotalMinutes(task.maxInterval) < TotalMinutes(task.minInterval);
    }

    /**
     * `handleUpdateInputChange` for a number input. The totals go through
     * `parseInt`, which gives an integer total back unchanged.
     */
    method HandleNumberChange(field: NumberField, value: JsNum)
      modifies this
      ensures task == WithNumber(old(task), field, value)
      ensures inputError <==> MaxBelowMinTotals(task)
    {
      var updated := WithNumber(task, field, value);
      var maxMinutes, minMinutes := TotalMinutes(updated.maxInterval), TotalMinutes(updated.minInterval);
      var maxTotal, minTotal := JsParseInt(IntToString(maxMinutes)), JsParseInt(IntToString(minMinutes));
      JsParseIntOfIntToString(maxMinutes);
      JsParseIntOfIntToString(minMinutes);
      inputError := maxTotal.n < minTotal.n;
      task := updated;
    }
  }

  /**
   * Saving the form and loading the task again: the backend reads each
   * interval text as the interval's total, serves the stored duration back
   * as Django's duration text, and the form loads the same totals, split
   * into whole days, hours and minutes, with the same ladder verdict. So
   * saving again unchanged stores the same durations.
   */
  lemma LoadRoundTrip(f: FlexibleForm, taskName: string, description: string)
    requires InTimedeltaRange(60 * TotalMinutes(f.maxInterval)) && InTimedeltaRange(60 * TotalMinutes(f.minInterval))
    ensures ParseDuration(IntervalText(f.maxInterval)) == Success(60 * TotalMinutes(f.maxInterval))
    ensures ParseDuration(IntervalText(f.minInterval)) == Success(60 * TotalMinutes(f.minInterval))
    ensures var data := TaskData(taskName, description,
                                 DurationString(60 * TotalMinutes(f.maxInterval)), DurationString(60 * TotalMinutes(f.minInterval)));
      var g := LoadedForm(data);
      g.maxInterval == CanonicalInterval(TotalMinutes(f.maxInterval)) &&
      g.minInterval == CanonicalInterval(TotalMinutes(f.minInterval)) &&
      TotalMinutes(g.maxInterval) == TotalMinutes(f.maxInterval) &&
      TotalMinutes(g.minInterval) == TotalMinutes(f.minInterval) &&
      ParseDuration(IntervalText(g.maxInterval)) == Success(60 * TotalMinutes(f.maxInterval)) &&
      ParseDuration(IntervalText(g.minInterval)) == Success(60 * TotalMinutes(f.minInterval)) &&
      CheckForm(g) == CheckForm(f.(taskName := taskName))
  {
    IntervalTextParses(f.maxInterval);
    IntervalTextParses(f.minInterval);
    ParseIntervalOfDurationString(TotalMinutes(f.maxInterval));
    ParseIntervalOfDurationString(TotalMinutes(f.minInterval));
    IntervalTextParses(CanonicalInterval(TotalMinutes(f.maxInterval)));
    IntervalTextParses(CanonicalInterval(TotalMinutes(f.minInterval)));
  }
}
