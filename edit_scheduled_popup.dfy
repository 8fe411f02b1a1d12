/**
 * The edit-scheduled-task popup: loading a stored cron schedule into five
 * form fields (showing `*` as "All"), rebuilding the cron string from the
 * fields, the regular expression that validates it, and the submit and
 * input handlers.
 */
module EditScheduledPopup {
  import opened Common
  import opened Text
  import opened Timedeltas
  import opened IntervalForm

  // ---------------------------------------------------------------- numerals

  /** The numbers of the cron regular expression: one digit, or two without a leading zero. */
  predicate ShortNumeral(f: string) {
    (|f| == 1 && IsDigit(f[0])) || (|f| == 2 && IsDigit(f[0]) && IsDigit(f[1]) && f[0] != '0')
  }

  function NumeralValue(f: string): nat
    requires ShortNumeral(f)
  {
    if |f| == 1 then DigitValue(f[0]) else 10 * DigitValue(f[0]) + DigitValue(f[1])
  }

  /** `f` is the decimal notation of a number from `lo` to `hi`. */
  ghost predicate Decimal(f: string, lo: nat, hi: nat) {
    exists n: nat :: lo <= n <= hi && NatToString(n) == f
  }

  lemma NumeralOfNat(n: nat)
    requires n < 100
    ensures ShortNumeral(NatToString(n)) && NumeralValue(NatToString(n)) == n
  {
    NatToStringSmall(n);
  }

  lemma NatOfNumeral(f: string)
    requires ShortNumeral(f)
    ensures NatToString(NumeralValue(f)) == f
  {
    var n := NumeralValue(f);
    NatToStringSmall(n);
    if |f| == 2 {
      assert n / 10 == DigitValue(f[0]) && n % 10 == DigitValue(f[1]);
    }
  }

  /** Below 100, the decimal notations of a range are exactly the short numerals with values in it. */
  lemma DecimalIsShort(f: string, lo: nat, hi: nat)
    requires hi < 100
    ensures Decimal(f, lo, hi) <==> ShortNumeral(f) && lo <= NumeralValue(f) <= hi
  {
    if Decimal(f, lo, hi) {
      var n: nat :| lo <= n <= hi && NatToString(n) == f;
      NumeralOfNat(n);
    }
    if ShortNumeral(f) && lo <= NumeralValue(f) <= hi {
      NatOfNumeral(f);
    }
  }

  // ---------------------------------------------------------------- the regular expression

  predicate CharIn(c: char, lo: char, hi: char) { lo <= c <= hi }

  /** `[0-9]|1[0-9]|2[0-9]|3[0-9]|4[0-9]|5[0-9]` */
  predicate MinuteNumeral(f: string) {
    (|f| == 1 && CharIn(f[0], '0', '9')) || (|f| == 2 && CharIn(f[0], '1', '5') && CharIn(f[1], '0', '9'))
  }

  /** `[0-9]|1[0-9]|2[0-3]` */
  predicate HourNumeral(f: string) {
    (|f| == 1 && CharIn(f[0], '0', '9')) ||
    (|f| == 2 && f[0] == '1' && CharIn(f[1], '0', '9')) ||
    (|f| == 2 && f[0] == '2' && CharIn(f[1], '0', '3'))
  }

  /** `[1-9]|1[0-9]|2[0-9]|3[0-1]` */
  predicate DayNumeral(f: string) {
    (|f| == 1 && CharIn(f[0], '1', '9')) ||
    (|f| == 2 && CharIn(f[0], '1', '2') && CharIn(f[1], '0', '9')) ||
    (|f| == 2 && f[0] == '3' && CharIn(f[1], '0', '1'))
  }

  /** `[1-9]|1[0-2]` */
  predicate MonthNumeral(f: string) {
    (|f| == 1 && CharIn(f[0], '1', '9')) || (|f| == 2 && f[0] == '1' && CharIn(f[1], '0', '2'))
  }

  /** `[0-6]` */
  predicate WeekdayNumeral(f: string) {
    |f| == 1 && CharIn(f[0], '0', '6')
  }

  /** One group of the expression: `\*`, a number, or `\*\/` and a number. */
  predicate CronEntry(f: string, numeral: string -> bool) {
    f == "*" || numeral(f) || (|f| >= 2 && f[..2] == "*/" && numeral(f[2..]))
  }

  /** The validating expression: five groups separated by single spaces, nothing else. */
  predicate CronValid(s: string) {
    var fields := Split(s, ' ');
    |fields| == 5 &&
    CronEntry(fields[0], MinuteNumeral) && CronEntry(fields[1], HourNumeral) &&
    CronEntry(fields[2], DayNumeral) && CronEntry(fields[3], MonthNumeral) &&
    CronEntry(fields[4], WeekdayNumeral)
  }

  /** A cron entry by meaning: every value, one value in range, or a step in range. */
  ghost predicate EntryInRange(f: string, lo: nat, hi: nat) {
    f == "*" || Decimal(f, lo, hi) || (|f| >= 2 && f[..2] == "*/" && Decimal(f[2..], lo, hi))
  }

  /** Five entries with minutes 0-59, hours 0-23, days of the month 1-31, months 1-12 and weekdays 0-6. */
  ghost predicate CronInRange(s: string) {
    var fields := Split(s, ' ');
    |fields| == 5 &&
    EntryInRange(fields[0], 0, 59) && EntryInRange(fields[1], 0, 23) &&
    EntryInRange(fields[2], 1, 31) && EntryInRange(fields[3], 1, 12) &&
    EntryInRange(fields[4], 0, 6)
  }

  /** The minute group accepts exactly the entries over 0 to 59. */
  lemma MinuteEntryRange(f: string)
    ensures CronEntry(f, MinuteNumeral) <==> EntryInRange(f, 0, 59)
  {
    DecimalIsShort(f, 0, 59);
    if |f| >= 2 {
      DecimalIsShort(f[2..], 0, 59);
    }
  }

  /** The hour group accepts exactly the entries over 0 to 23. */
  lemma HourEntryRange(f: string)
    ensures CronEntry(f, HourNumeral) <==> EntryInRange(f, 0, 23)
  {
    DecimalIsShort(f, 0, 23);
    if |f| >= 2 {
      DecimalIsShort(f[2..], 0, 23);
    }
  }

  /** The day-of-month group accepts exactly the entries over 1 to 31. */
  lemma DayEntryRange(f: string)
    ensures CronEntry(f, DayNumeral) <==> EntryInRange(f, 1, 31)
  {
    DecimalIsShort(f, 1, 31);
    if |f| >= 2 {
      DecimalIsShort(f[2..], 1, 31);
    }
  }

  /** The month group accepts exactly the entries over 1 to 12. */
  lemma MonthEntryRange(f: string)
    ensures CronEntry(f, MonthNumeral) <==> EntryInRange(f, 1, 12)
  {
    DecimalIsShort(f, 1, 12);
    if |f| >= 2 {
      DecimalIsShort(f[2..], 1, 12);
    }
  }

  /** The day-of-week group accepts exactly the entries over 0 to 6. */
  lemma WeekdayEntryRange(f: string)
    ensures CronEntry(f, WeekdayNumeral) <==> EntryInRange(f, 0, 6)
  {
    DecimalIsShort(f, 0, 6);
    if |f| >= 2 {
      DecimalIsShort(f[2..], 0, 6);
    }
  }

  /** The expression accepts exactly the five-field schedules whose values are in range. */
  lemma CronValidInRange(s: string)
    ensures CronValid(s) <==> CronInRange(s)
  {
    var fields := Split(s, ' ');
    if |fields| == 5 {
      MinuteEntryRange(fields[0]);
      HourEntryRange(fields[1]);
      DayEntryRange(fields[2]);
      MonthEntryRange(fields[3]);
      WeekdayEntryRange(fields[4]);
    }
  }

  // ---------------------------------------------------------------- the form

  datatype ScheduledForm = ScheduledForm(
    taskName: string,
    description: string,
    maxIntervalText: string,
    maxInterval: Interval,
    minutes: Option<string>,
    hours: Option<string>,
    dom: Option<string>,
    months: Option<string>,
    dow: Option<string>)

  /** The initial state: minute 0 of every hour. */
  const InitialForm := ScheduledForm("", "", "0:0", ZeroInterval, Some("0"), Some("*"), Some("*"), Some("*"), Some("*"))

  /** The stored fields of a scheduled task that the form shows. */
  datatype TaskData = TaskData(taskName: string, description: string, maxInterval: string, cronSchedule: string)

  /** A stored `*` is shown as "All". */
  function Shown(field: string): string {
    if field == "*" then "All" else field
  }

  function LoadedField(parts: seq<string>, k: nat): Option<string> {
    if k < |parts| then Some(Shown(parts[k])) else None
  }

  /** The fetch effect: the schedule split at spaces into the five fields, the interval parsed. */
  function LoadedForm(data: TaskData): ScheduledForm {
    var parts := Split(data.cronSchedule, ' ');
    ScheduledForm(data.taskName, data.description, data.maxInterval, ParseInterval(data.maxInterval),
      LoadedField(parts, 0), LoadedField(parts, 1), LoadedField(parts, 2), LoadedField(parts, 3), LoadedField(parts, 4))
  }

  /** An "all" field is sent as `*`. */
  function Starred(field: string): string {
    if field == "all" then "*" else field
  }

  function StarredAll(fields: seq<string>): (r: seq<string>)
    ensures |r| == |fields| && forall i :: 0 <= i < |fields| ==> r[i] == Starred(fields[i])
  {
    seq(|fields|, i requires 0 <= i < |fields| => Starred(fields[i]))
  }

  /** The five fields joined by spaces, as the template prints them. */
  function CronText(f: ScheduledForm): string {
    Rendered(f.minutes) + " " + Rendered(f.hours) + " " + Rendered(f.dom) + " " + Rendered(f.months) + " " + Rendered(f.dow)
  }

  /** The cron string sent to the backend: lower-cased, split at spaces, "all" replaced by `*`, joined again. */
  function CronString(f: ScheduledForm): string {
    Join(StarredAll(Split(ToLower(CronText(f)), ' ')), ' ')
  }

  lemma JoinFive(a: string, b: string, c: string, d: string, e: string)
    ensures Join([a, b, c, d, e], ' ') == a + " " + b + " " + c + " " + d + " " + e
  {
    var sp := [' '];
    assert [a, b, c, d, e][1..] == [b, c, d, e];
    assert [b, c, d, e][1..] == [c, d, e];
    assert [c, d, e][1..] == [d, e];
    assert [d, e][1..] == [e];
    assert Join([d, e], ' ') == d + sp + e;
    assert Join([c, d, e], ' ') == c + sp + (d + sp + e);
    assert Join([b, c, d, e], ' ') == b + sp + (c + sp + (d + sp + e));
    assert Join([a, b, c, d, e], ' ') == a + sp + (b + sp + (c + sp + (d + sp + e)));
    assert " " == sp;
  }

  lemma ToLowerAll()
    ensures ToLower("All") == "all"
  {
    var s := ['A', 'l', 'l'];
    assert s[1..] == ['l', 'l'];
    assert s[1..][1..] == ['l'];
    assert s[1..][1..][1..] == [];
  }

  /** Showing, lower-casing and starring give a lower-case field other than "all" back. */
  lemma FieldRoundTrip(field: string)
    requires ToLower(field) == field && field != "all"
    ensures Starred(ToLower(Shown(field))) == field
    ensures ' ' !in field ==> ' ' !in ToLower(Shown(field))
  {
    ToLowerAll();
  }

  function ShownAll(fields: seq<string>): seq<string> {
    seq(|fields|, i requires 0 <= i < |fields| => Shown(fields[i]))
  }

  function LoweredAll(fields: seq<string>): seq<string> {
    seq(|fields|, i requires 0 <= i < |fields| => ToLower(fields[i]))
  }

  /** The template of a loaded five-field schedule prints the shown fields joined by spaces. */
  lemma LoadedCronText(fields: seq<string>, data: TaskData)
    requires |fields| == 5 && forall i :: 0 <= i < 5 ==> ' ' !in fields[i]
    requires data.cronSchedule == Join(fields, ' ')
    ensures CronText(LoadedForm(data)) == Join(ShownAll(fields), ' ')
  {
    SplitJoin(fields, ' ');
    var shown := ShownAll(fields);
    assert shown == [shown[0], shown[1], shown[2], shown[3], shown[4]];
    JoinFive(shown[0], shown[1], shown[2], shown[3], shown[4]);
  }

  /** The lowered shown fields split apart again and star back into the stored fields. */
  lemma LoweredFieldsStar(fields: seq<string>)
    requires |fields| == 5
    requires forall i :: 0 <= i < 5 ==> ' ' !in fields[i] && ToLower(fields[i]) == fields[i] && fields[i] != "all"
    ensures var lowered := LoweredAll(ShownAll(fields));
      Split(Join(lowered, ' '), ' ') == lowered && StarredAll(lowered) == fields
  {
    var lowered := LoweredAll(ShownAll(fields));
    forall i | 0 <= i < 5
      ensures ' ' !in lowered[i] && Starred(lowered[i]) == fields[i]
    {
      FieldRoundTrip(fields[i]);
    }
    SplitJoin(lowered, ' ');
  }

  /**
   * Loading a lower-case five-field schedule with no "all" field and
   * rebuilding it without edits gives the stored schedule back.
   */
  lemma CronRoundTrip(fields: seq<string>, data: TaskData)
    requires |fields| == 5
    requires forall i :: 0 <= i < 5 ==> ' ' !in fields[i] && ToLower(fields[i]) == fields[i] && fields[i] != "all"
    requires data.cronSchedule == Join(fields, ' ')
    ensures CronString(LoadedForm(data)) == data.cronSchedule
  {
    var shown := ShownAll(fields);
    var lowered := LoweredAll(shown);
    assert ToLower(CronText(LoadedForm(data))) == Join(lowered, ' ') by {
      LoadedCronText(fields, data);
      ToLowerJoin(shown, ' ');
    }
    LoweredFieldsStar(fields);
  }

  /** The ladder of the scheduled-task form: a blank name, then a negative interval, then an invalid schedule. */
  function CheckScheduled(taskName: string, maxTotal: int, cron: string): (r: Option<InputProblem>)
    ensures r.None? <==> taskName != "" && 0 <= maxTotal && CronValid(cron)
    ensures r == Some(BlankName) <==> taskName == ""
    ensures r == Some(NegativeInterval) <==> taskName != "" && maxTotal < 0
    ensures r == Some(InvalidCron) <==> taskName != "" && 0 <= maxTotal && !CronValid(cron)
  {
    if taskName == "" then Some(BlankName)
    else if maxTotal < 0 then Some(NegativeInterval)
    else if !CronValid(cron) then Some(InvalidCron)
    else None
  }

  function CheckForm(f: ScheduledForm): Option<InputProblem> {
    CheckScheduled(f.taskName, TotalMinutes(f.maxInterval), CronString(f))
  }

  /** The arguments of `updateScheduledTask`. */
  datatype UpdateRequest = UpdateRequest(taskId: string, taskName: string, household: nat, cronSchedule: string, maxInterval: string, description: string)

  /** The text inputs, by their `name`. */
  datatype TextField = TaskName | Description | Minutes | Hours | DayOfMonth | Months | DayOfWeek
  datatype NumberField = MaxDays | MaxHours | MaxMinutes

  /** `{ ...prev, [name]: value }` for a text input. */
  function WithText(f: ScheduledForm, field: TextField, value: string): ScheduledForm {
    match field
    case TaskName => f.(taskName := value)
    case Description => f.(description := value)
    case Minutes => f.(minutes := Some(value))
    case Hours => f.(hours := Some(value))
    case DayOfMonth => f.(dom := Some(value))
    case Months => f.(months := Some(value))
    case DayOfWeek => f.(dow := Some(value))
  }

  /** `{ ...prev, [name]: value }` for a number input. */
  function WithNumber(f: ScheduledForm, field: NumberField, value: JsNum): ScheduledForm {
    match field
    case MaxDays => f.(maxInterval := f.maxInterval.(days := value))
    case MaxHours => f.(maxInterval := f.maxInterval.(hours := value))
    case MaxMinutes => f.(maxInterval := f.maxInterval.(minutes := value))
  }

  /** Editing a cron field leaves the other fields and the interval as they were. */
  lemma WithTextFrames(f: ScheduledForm, field: TextField, value: string)
    ensures var g := WithText(f, field, value);
      g.maxInterval == f.maxInterval && g.maxIntervalText == f.maxIntervalText &&
      (field != Minutes ==> g.minutes == f.minutes) && (field != Hours ==> g.hours == f.hours) &&
      (field != DayOfMonth ==> g.dom == f.dom) && (field != Months ==> g.months == f.months) &&
      (field != DayOfWeek ==> g.dow == f.dow) &&
      (field != TaskName ==> g.taskName == f.taskName) && (field != Description ==> g.description == f.description)
  {
  }

  class Popup {
    var task: ScheduledForm
    var inputError: bool

    constructor ()
      ensures task == InitialForm && !inputError
    {
      task := InitialForm;
      inputError := false;
    }

    /** The fetch effect. */
    method Load(data: TaskData)
      modifies this
      ensures task == LoadedForm(data) && inputError == old(inputError)
    {
      var parts := Split(data.cronSchedule, ' ');
      task := ScheduledForm(data.taskName, data.description, data.maxInterval, ParseInterval(data.maxInterval),
        LoadedField(parts, 0), LoadedField(parts, 1), LoadedField(parts, 2), LoadedField(parts, 3), LoadedField(parts, 4));
    }

    /**
     * `handleEditTask`: on the first failing check set the error flag and
     * stop; otherwise clear it, send the rebuilt schedule and switch to the
     * task details. The form is not reset.
     */
    method HandleEditTask(taskId: string, household: nat) returns (request: Option<UpdateRequest>, showDetails: bool)
      modifies this
      ensures task == old(task)
      ensures var f := old(task);
        var problem := CheckForm(f);
        (request.None? <==> problem.Some?) && inputError == problem.Some? && showDetails == problem.None? &&
        (problem.None? ==>
          request == Some(UpdateRequest(taskId, f.taskName, household, CronString(f), IntervalText(f.maxInterval), f.description)))
    {
      if task.taskName == "" {
        inputError := true;
        return None, false;
      }
      var maxTotal := TotalMinutes(task.maxInterval);
      if maxTotal < 0 {
        inputError := true;
        return None, false;
      }
      var maxInterval := IntervalText(task.maxInterval);
      var cron := CronText(task);
      cron := Join(StarredAll(Split(ToLower(cron), ' ')), ' ');
      if !CronValid(cron) {
        inputError := true;
        return None, false;
      }
      inputError := false;
      request := Some(UpdateRequest(taskId, task.taskName, household, cron, maxInterval, task.description));
      showDetails := true;
    }

    /** `handleInputChange` for a text input: only that field changes. */
    method HandleTextChange(field: TextField, value: string)
      modifies this
      ensures task == WithText(old(task), field, value) && inputError == old(inputError)
    {
      task := WithText(task, field, value);
    }

    /** `handleInputChange` for a number input: only that field changes. */
    method HandleNumberChange(field: NumberField, value: JsNum)
      modifies this
      ensures task == WithNumber(old(task), field, value) && inputError == old(inputError)
    {
      task := WithNumber(task, field, value);
    }
  }

  /**
   * A stored schedule that validates and is written in lower case without
   * "all" can be saved again unedited: the same schedule is sent.
   */
  lemma UneditedScheduleResent(fields: seq<string>, data: TaskData)
    requires |fields| == 5
    requires forall i :: 0 <= i < 5 ==> ' ' !in fields[i] && ToLower(fields[i]) == fields[i] && fields[i] != "all"
    requires data.cronSchedule == Join(fields, ' ') && CronValid(data.cronSchedule)
    requires data.taskName != "" && 0 <= TotalMinutes(ParseInterval(data.maxInterval))
    ensures CheckForm(LoadedForm(data)) == None
  {
    CronRoundTrip(fields, data);
  }

  /** The same for a task whose max interval is the backend's text of a nonnegative duration in minutes. */
  lemma UneditedServedScheduleResent(fields: seq<string>, data: TaskData, minutes: int)
    requires |fields| == 5
    requires forall i :: 0 <= i < 5 ==> ' ' !in fields[i] && ToLower(fields[i]) == fields[i] && fields[i] != "all"
    requires data.cronSchedule == Join(fields, ' ') && CronValid(data.cronSchedule)
    requires data.taskName != "" && 0 <= minutes && data.maxInterval == DurationString(60 * minutes)
    ensures TotalMinutes(LoadedForm(data).maxInterval) == minutes
    ensures CheckForm(LoadedForm(data)) == None
  {
    ParseIntervalOfDurationString(minutes);
    UneditedScheduleResent(fields, data);
  }
}
