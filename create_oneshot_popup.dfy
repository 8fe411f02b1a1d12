/**
 * The create-one-shot-task popup: its ladder (blank name, blank due date or
 * time, negative time to complete), the due-datetime and time-to-complete
 * texts, the response check, and the field updaters.
 */
module CreateOneShotPopup {
  import opened Common
  import opened Text
  import opened Timedeltas
  import opened TaskUtils
  import opened IntervalForm

  /** The form state; `dueTime` is `None` once the reset object has dropped it. */
  datatype OneShotForm = OneShotForm(
    taskName: string,
    dueDate: string,
    dueTime: Option<string>,
    dueBefore: bool,
    timeToComplete: Interval,
    description: string)

  const InitialForm := OneShotForm("", "", Some("09:00"), false, ZeroInterval, "")

  /** The state after a successful create: the reset object has no `due_time`. */
  const ResetForm := OneShotForm("", "", None, false, ZeroInterval, "")

  /** The ladder: a blank name, then a blank due date or time, then a negative time to complete. */
  function CheckOneShot(taskName: string, dueDate: string, dueTime: Option<string>, total: int): (r: Option<InputProblem>)
    ensures r.None? <==> taskName != "" && dueDate != "" && dueTime != Some("") && 0 <= total
    ensures r == Some(BlankName) <==> taskName == ""
    ensures r == Some(BlankDue) <==> taskName != "" && (dueDate == "" || dueTime == Some(""))
    ensures r == Some(NegativeInterval) <==> taskName != "" && dueDate != "" && dueTime != Some("") && total < 0
  {
    if taskName == "" then Some(BlankName)
    else if dueDate == "" || dueTime == Some("") then Some(BlankDue)
    else if total < 0 then Some(NegativeInterval)
    else None
  }

  function CheckForm(f: OneShotForm): Option<InputProblem> {
    CheckOneShot(f.taskName, f.dueDate, f.dueTime, TotalMinutes(f.timeToComplete))
  }

  /** `${due_date}T${due_time}`. */
  function DueDatetime(dueDate: string, dueTime: Option<string>): string {
    dueDate + "T" + Rendered(dueTime)
  }

  /** The date and the time can be read back from the due datetime at its `T`. */
  lemma DueDatetimeSplits(dueDate: string, dueTime: string)
    requires 'T' !in dueDate && 'T' !in dueTime
    ensures Split(DueDatetime(dueDate, Some(dueTime)), 'T') == [dueDate, dueTime]
  {
    assert DueDatetime(dueDate, Some(dueTime)) == Join([dueDate, dueTime], 'T');
    SplitJoin([dueDate, dueTime], 'T');
  }

  /** After the reset, a form with a name and a date passes the ladder and sends a due datetime ending in "undefined". */
  lemma ResetDropsDueTime(taskName: string, dueDate: string, description: string)
    requires taskName != "" && dueDate != ""
    ensures var f := ResetForm.(taskName := taskName, dueDate := dueDate, description := description);
      CheckForm(f).None? && DueDatetime(f.dueDate, f.dueTime) == dueDate + "T" + "undefined"
  {
  }

  /** The time to complete of an accepted form is read by the backend as the entered total. */
  lemma AcceptedTimeToCompleteParses(f: OneShotForm)
    requires CheckForm(f).None?
    requires InTimedeltaRange(60 * TotalMinutes(f.timeToComplete))
    ensures ParseDuration(IntervalText(f.timeToComplete)) == Success(60 * TotalMinutes(f.timeToComplete))
    ensures 0 <= TotalMinutes(f.timeToComplete)
  {
    IntervalTextParses(f.timeToComplete);
  }

  /** The arguments of `createOneShotTask`. */
  datatype CreateRequest = CreateRequest(taskName: string, household: nat, dueDatetime: string, dueBefore: bool, timeToComplete: string, description: string)

  function RequestFor(f: OneShotForm, household: nat): CreateRequest {
    CreateRequest(f.taskName, household, DueDatetime(f.dueDate, f.dueTime), f.dueBefore, IntervalText(f.timeToComplete), f.description)
  }

  /** The text inputs, by their `name`. */
  datatype TextField = TaskName | DueDate | DueTime | Description
  datatype NumberField = Days | Hours | Minutes

  /** `{ ...prev, [name]: value }` for a text input. */
  function WithText(f: OneShotForm, field: TextField, value: string): OneShotForm {
    match field
    case TaskName => f.(taskName := value)
    case DueDate => f.(dueDate := value)
    case DueTime => f.(dueTime := Some(value))
    case Description => f.(description := value)
  }

  /** `{ ...prev, [name]: value }` for a number input. */
  function WithNumber(f: OneShotForm, field: NumberField, value: JsNum): OneShotForm {
    match field
    case Days => f.(timeToComplete := f.timeToComplete.(days := value))
    case Hours => f.(timeToComplete := f.timeToComplete.(hours := value))
    case Minutes => f.(timeToComplete := f.timeToComplete.(minutes := value))
  }

  /** A text input changes its own field only. */
  lemma WithTextFrames(f: OneShotForm, field: TextField, value: string)
    ensures var g := WithText(f, field, value);
      g.dueBefore == f.dueBefore && g.timeToComplete == f.timeToComplete &&
      (field != TaskName ==> g.taskName == f.taskName) && (field != DueDate ==> g.dueDate == f.dueDate) &&
      (field != DueTime ==> g.dueTime == f.dueTime) && (field != Description ==> g.description == f.description)
  {
  }

  class Popup {
    var newTask: OneShotForm
    var inputError: bool

    constructor ()
      ensures newTask == InitialForm && !inputError
    {
      newTask := InitialForm;
      inputError := false;
    }

    /**
     * `handleCreateTask`, given the status of the create response: a
     * failing check stops before the request; a status other than 201 sets
     * the error flag and keeps the form; 201 closes the popup and resets it.
     */
    method HandleCreateTask(household: nat, status: int) returns (request: Option<CreateRequest>, closed: bool)
      modifies this
      ensures var f := old(newTask);
        var problem := CheckForm(f);
        (request.None? <==> problem.Some?) &&
        (problem.Some? ==> inputError && newTask == f && !closed) &&
        (problem.None? ==>
          request == Some(RequestFor(f, household)) &&
          (closed <==> status == 201) && (inputError <==> status != 201) &&
          newTask == (if status == 201 then ResetForm else f))
    {
      var total := TotalMinutes(newTask.timeToComplete);
      if newTask.taskName == "" {
        inputError := true;
        return None, false;
      }
      if newTask.dueDate == "" || newTask.dueTime == Some("") {
        inputError := true;
        return None, false;
      }
      if total < 0 {
        inputError := true;
        return None, false;
      }
      inputError := false;
      var dueDatetime := DueDatetime(newTask.dueDate, newTask.dueTime);
      var timeToComplete := IntervalText(newTask.timeToComplete);
      request := Some(CreateRequest(newTask.taskName, household, dueDatetime, newTask.dueBefore, timeToComplete, newTask.description));
      if status != 201 {
        inputError := true;
        return request, false;
      }
      closed := true;
      newTask := ResetForm;
    }

    /** `handleCreateInputChange` for a text input. */
    method HandleTextChange(field: TextField, value: string)
      modifies this
      ensures newTask == WithText(old(newTask), field, value) && inputError == old(inputError)
    {
      newTask := WithText(newTask, field, value);
    }

    /** `handleCreateInputChange` for a number input. */
    method HandleNumberChange(field: NumberField, value: JsNum)
      modifies this
      ensures newTask == WithNumber(old(newTask), field, value) && inputError == old(inputError)
    {
      newTask := WithNumber(newTask, field, value);
    }

    /** `handleDueBeforeChange`: only `due_before` changes, to the checkbox state. */
    method HandleDueBeforeChange(checked: bool)
      modifies this
      ensures newTask == old(newTask).(dueBefore := checked) && inputError == old(inputError)
    {
      newTask := newTask.(dueBefore := checked);
    }
  }
}
