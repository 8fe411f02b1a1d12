/**
 * The create-flexible-task popup: its form state, the input handler that
 * keeps the max-below-min flag, and the submit handler that validates the
 * form and builds the two interval texts sent to the backend.
 */
module CreateFlexiblePopup {
  import opened Common
  import opened Text
  import opened Timedeltas
  import opened TaskUtils
  import opened IntervalForm

  /** The form state of a flexible task: its texts and the two intervals as entered. */
  datatype FlexibleForm = FlexibleForm(
    taskName: string,
    description: string,
    maxIntervalText: string,
    minIntervalText: string,
    maxInterval: Interval,
    minInterval: Interval)

  /** The initial state. */
  const InitialForm := FlexibleForm("", "", "0:0", "0:0", ZeroInterval, ZeroInterval)

  /** The state after a successful submit: an object without the six interval fields. */
  const ResetForm := FlexibleForm("", "", "0:0", "0:0", ClearedInterval, ClearedInterval)

  /** The form inputs, by their `name`. */
  datatype TextField = TaskName | Description
  datatype NumberField = MaxDays | MaxHours | MaxMinutes | MinDays | MinHours | MinMinutes

  function NumberOf(f: FlexibleForm, field: NumberField): JsNum {
    match field
    case MaxDays => f.maxInterval.days
    case MaxHours => f.maxInterval.hours
    case MaxMinutes => f.maxInterval.minutes
    case MinDays => f.minInterval.days
    case MinHours => f.minInterval.hours
    case MinMinutes => f.minInterval.minutes
  }

  /** `{ ...prev, [name]: value }` for a text input. */
  function WithText(f: FlexibleForm, field: TextField, value: string): FlexibleForm {
    match field
    case TaskName => f.(taskName := value)
    case Description => f.(description := value)
  }

  /** `{ ...prev, [name]: value }` for a number input. */
  function WithNumber(f: FlexibleForm, field: NumberField, value: JsNum): FlexibleForm {
    match field
    case MaxDays => f.(maxInterval := f.maxInterval.(days := value))
    case MaxHours => f.(maxInterval := f.maxInterval.(hours := value))
    case MaxMinutes => f.(maxInterval := f.maxInterval.(minutes := value))
    case MinDays => f.(minInterval := f.minInterval.(days := value))
    case MinHours => f.(minInterval := f.minInterval.(hours := value))
    case MinMinutes => f.(minInterval := f.minInterval.(minutes := value))
  }

  /** A number input changes its own field and nothing else. */
  lemma WithNumberFrames(f: FlexibleForm, field: NumberField, value: JsNum, other: NumberField)
    ensures NumberOf(WithNumber(f, field, value), other) == if other == field then value else NumberOf(f, other)
    ensures var g := WithNumber(f, field, value);
      g.taskName == f.taskName && g.description == f.description &&
      g.maxIntervalText == f.maxIntervalText && g.minIntervalText == f.minIntervalText
  {
  }

  /** A text input changes its own field and nothing else. */
  lemma WithTextFrames(f: FlexibleForm, field: TextField, value: string)
    ensures var g := WithText(f, field, value);
      (field == TaskName ==> g.taskName == value && g.description == f.description) &&
      (field == Description ==> g.description == value && g.taskName == f.taskName) &&
      g.maxInterval == f.maxInterval && g.minInterval == f.minInterval &&
      g.maxIntervalText == f.maxIntervalText && g.minIntervalText == f.minIntervalText
  {
  }

  /** The condition the input handler flags. */
  predicate MaxBelowMinTotals(f: FlexibleForm) {
    TotalMinutes(f.maxInterval) < TotalMinutes(f.minInterval)
  }

  /** The ladder applied to a form. */
  function CheckForm(f: FlexibleForm): Option<InputProblem> {
    CheckFlexible(f.taskName, TotalMinutes(f.maxInterval), TotalMinutes(f.minInterval))
  }

  /** The arguments of `createFlexibleTask`. */
  datatype CreateRequest = CreateRequest(taskName: string, household: nat, maxInterval: string, minInterval: string, description: string)

  /**
   * A form that passes the ladder yields interval texts that the backend
   * reads as the entered totals, with the minimum at most the maximum: a
   * task the flexible staleness ramp can use.
   */
  lemma AcceptedIntervalsParse(f: FlexibleForm)
    requires CheckForm(f).None?
    requires InTimedeltaRange(60 * TotalMinutes(f.maxInterval))
    ensures ParseDuration(IntervalText(f.maxInterval)) == Success(60 * TotalMinutes(f.maxInterval))
    ensures ParseDuration(IntervalText(f.minInterval)) == Success(60 * TotalMinutes(f.minInterval))
    ensures 0 <= 60 * TotalMinutes(f.minInterval) <= 60 * TotalMinutes(f.maxInterval)
  {
    IntervalTextParses(f.maxInterval);
    IntervalTextParses(f.minInterval);
  }

  class Popup {
    var newTask: FlexibleForm
    var inputError: bool

    constructor ()
      ensures newTask == InitialForm && !inputError
    {
      newTask := InitialForm;
      inputError := false;
    }

    /**
     * `handleCreateTask`: on the first failing check, set the error flag and
     * stop; otherwise clear it, send the request and reset the form.
     */
    method HandleCreateTask(household: nat) returns (request: Option<CreateRequest>)
      modifies this
      ensures var f := old(newTask);
        var problem := CheckForm(f);
        (request.None? <==> problem.Some?) && inputError == problem.Some? &&
        (problem.Some? ==> newTask == f) &&
        (problem.None? ==>
          request == Some(CreateRequest(f.taskName, household, IntervalText(f.maxInterval), IntervalText(f.minInterval), f.description)) &&
          newTask == ResetForm)
    {
      var maxTotal := TotalMinutes(newTask.maxInterval);
      var minTotal := TotalMinutes(newTask.minInterval);
      if newTask.taskName == "" {
        inputError := true;
        return None;
      }
      if maxTotal < 0 || minTotal < 0 {
        inputError := true;
        return None;
      }
      if maxTotal < minTotal {
        inputError := true;
        return None;
      }
      inputError := false;
      var maxInterval := IntervalText(newTask.maxInterval);
      var minInterval := IntervalText(newTask.minInterval);
      request := Some(CreateRequest(newTask.taskName, household, maxInterval, minInterval, newTask.description));
      newTask := ResetForm;
    }

    /** `handleCreateInputChange` for a text input. */
    method HandleTextChange(field: TextField, value: string)
      modifies this
      ensures newTask == WithText(old(newTask), field, value)
      ensures inputError <==> MaxBelowMinTotals(newTask)
    {
      newTask := WithText(newTask, field, value);
      inputError := TotalMinutes(newTask.maxInterval) < TotalMinutes(newTask.minInterval);
    }

    /** `handleCreateInputChange` for a number input: the flag follows the new totals. */
    method HandleNumberChange(field: NumberField, value: JsNum)
      modifies this
      ensures newTask == WithNumber(old(newTask), field, value)
      ensures inputError <==> MaxBelowMinTotals(newTask)
    {
      var updated := WithNumber(newTask, field, value);
      var maxTotal := TotalMinutes(updated.maxInterval);
      var minTotal := TotalMinutes(updated.minInterval);
      inputError := maxTotal < minTotal;
      newTask := updated;
    }
  }
}
