# todoqueue, modelled in Dafny

todoqueue is a household chore tracker. A Django backend keeps tasks
(flexible tasks with a minimum and maximum interval, and scheduled tasks
driven by a cron schedule). Each task has a *staleness* in [0, 1] that
says how overdue it is. Completing a task writes a *work log* that
credits the user with *brownie points* in a per-household ledger. A React
frontend shows stale tasks in a queue and fresh tasks in a sidebar, shows
a leaderboard of the household's users, and offers popups to create,
edit and complete tasks. Those popups encode durations as Django
`DurationField` texts (`"D H:M:S"`).

This project models the computational core of both sides:

- `task_models.dfy` (module `TaskModels`) covers the backend models:
  - the two staleness properties and `mean_completion_time`;
  - the ledger seeding done by `Household.save` and the `m2m_changed` receiver, over classes `User` and `Household`;
  - `WorkLog.save`, over classes `Task` and `WorkLog`;
  - `get_task_by_id`.
- `task_utils.dfy` (`TaskUtils`) covers `renormalize`, `parse_duration`, `piecewise_linear` and `bp_function`.
- `task_views.dfy` (`TaskViews`) covers the five-argument `renormalize`, `calculate_brownie_points` with its two loops, and the status codes of `calculate_brownie_points_view`.
- `rate_limit.dfy` (`RateLimit`) covers the sliding-window limiter `is_rate_limited`, as a class whose field is the cache.
- `duration_format.dfy` (`DurationFormat`) covers `formatDuration` and the string assembly of `getTimeSince`.
- The popup files:
  - `interval_form.dfy` (`IntervalForm`) holds what the popups share: the `x || 0` minute totals, the `"D H:M:00"` text, `parseInterval` and the flexible-task validation ladder.
  - `create_flexible_popup.dfy` and `edit_flexible_popup.dfy` cover the flexible-task popups.
  - `edit_scheduled_popup.dfy` covers the scheduled-task popup: the cron split, the `*`/`All` mapping, the rebuild and the cron regex.
  - `create_oneshot_popup.dfy` covers the one-shot popup.
  - `complete_task_popup.dfy` covers the completion popup.
- `tasks_view.dfy` (`TasksView`) covers the tasks page: the queue/sidebar partition, the sidebar order, the empty-state flags, the brownie-points animation trigger, popup selection and the leaderboard.
- `user_stats_box.dfy` (`UserStatsBox`) covers the in-place sort of the users array and the top-five rows.
- The shared support modules are:
  - `timedelta.dfy` (`Timedeltas`): Python `timedelta` arithmetic in whole seconds and microseconds, and Django's `duration_string`, the text a `DurationField` is served as;
  - `text.dfy` (`Text`): split/join, decimal printing, Python `int()` and JavaScript `Number()`/`parseInt` on the decimal-integer subset of strings (an optional sign and ASCII digits), `strip`/`trim`, ASCII lower-casing;
  - `common.dfy` (`Common`): `Option`, `Result`, and the Python exceptions that can occur.

Modelling conventions:

- Durations and timestamps are integers of seconds.
- Staleness, grossness and points are `real`.
- A Python exception the core does not catch becomes a `Failure(...)` result, not a precondition.
- Clock readings, `last_due` from croniter, the sigmoid value and the random base of `bp_function`, and API responses are parameters.
- A frontend form field is a `JsNum` (`Num(n)`, `NaN` or `Undefined`), so that `x || 0` and fields dropped by a reset object are exact.

## Model

| member | source | states |
|---|---|---|
| TaskModels.FlexibleStaleness | todoqueue_backend/tasks/models.py:171-187 | flexible staleness fails with a division by zero exactly when the task is not frozen and elapsed time, min and max interval are all equal |
| TaskModels.FlexibleThresholds | todoqueue_backend/tasks/models.py:172-180 | staleness is 0 when frozen or elapsed < min interval, and 1 when elapsed exceeds the max interval |
| TaskModels.FlexibleRamp | todoqueue_backend/tasks/models.py:182-187 | between the thresholds staleness is (elapsed - min) / (max - min) and lies in [0, 1] |
| TaskModels.FlexibleMonotone | todoqueue_backend/tasks/models.py:171-187 | with min < max, staleness never decreases as time passes |
| TaskModels.ScheduledStaleness | todoqueue_backend/tasks/models.py:108-142 | scheduled staleness fails, with a division by zero, exactly when the task is not frozen, was last done at or before its due time, is checked at or before that due time, and has a zero max interval |
| TaskModels.ScheduledFresh | todoqueue_backend/tasks/models.py:110-131 | staleness is 0 when frozen, done after the last due time, or done strictly less than max interval before it |
| TaskModels.ScheduledRampAndClamp | todoqueue_backend/tasks/models.py:133-142 | otherwise, with last_due <= now and max > 0, it is 1 past last_due + max and (now - last_due) / max before, always in [0, 1] |
| TaskModels.ScheduledZeroInterval | todoqueue_backend/tasks/models.py:119-137 | an overdue task with a zero max interval, checked at or before its due time, divides by zero |
| TaskModels.ScheduledMonotone | todoqueue_backend/tasks/models.py:133-142 | past the due time, staleness never decreases as time passes |
| TaskModels.MeanCompletionTime | todoqueue_backend/tasks/models.py:144-154 | no work logs gives 0; the mean exists exactly when every partial sum of the times is a valid timedelta, and otherwise the sum overflows |
| TaskModels.MeanCompletionTimeOfBoundedLog | todoqueue_backend/tasks/models.py:144-154 | a log of nonnegative times of at most hi seconds, with hi times the count below the timedelta limit, always has a mean |
| TaskModels.MeanCompletionTimeBounds | todoqueue_backend/tasks/models.py:189-199 | the mean of the completion times lies between their minimum and maximum |
| TaskModels.MeanCompletionTimeExact | todoqueue_backend/tasks/models.py:150-154 | when the total is k seconds per log, the mean is exactly k seconds |
| TaskModels.Seed | todoqueue_backend/tasks/models.py:38-43 | seeding a ledger adds the household key and no other key |
| TaskModels.SeedFrames | todoqueue_backend/tasks/models.py:38-43 | an existing entry keeps its value, a missing one becomes 0.0, and every other entry is unchanged |
| TaskModels.SeedIdempotent | todoqueue_backend/tasks/models.py:32-45 | seeding twice is the same as seeding once |
| TaskModels.LedgerKeysDistinct | todoqueue_backend/tasks/models.py:38-43 | distinct household ids have distinct ledger keys, so seeding one household leaves another's entry and its presence unchanged |
| TaskModels.User.constructor | todoqueue_backend/accounts/models.py:48-49 | a user holds the given credit and debit ledgers |
| TaskModels.Household.constructor | todoqueue_backend/tasks/models.py:25-27 | a household holds its id and its members |
| TaskModels.Household.SeedMembers | todoqueue_backend/tasks/models.py:34-45 | every member's credit and debit ledgers become their seeded versions |
| TaskModels.Household.Save | todoqueue_backend/tasks/models.py:32-45 | saving a household seeds every member's credit and debit ledgers |
| TaskModels.Household.UpdateBrowniePoints | todoqueue_backend/tasks/models.py:48-69 | the receiver responds iff the action is "post_add"; then it seeds every member, and otherwise no ledger changes |
| TaskModels.Task.constructor | todoqueue_backend/tasks/models.py:157-168 | a task holds its id, kind, household and last-completed time |
| TaskModels.WorkLog.constructor | todoqueue_backend/tasks/models.py:205-219 | a new work log has no primary key yet |
| TaskModels.WorkLog.Save | todoqueue_backend/tasks/models.py:226-257 | an existing task gets last_completed = now; only a new log with an existing task credits exactly its points to the household's credit entry, and a missing entry is a KeyError that stops the save; debits never change |
| TaskModels.CreditFrames | todoqueue_backend/tasks/models.py:247 | the credit changes only the household's entry, by exactly the points |
| TaskModels.FirstHitIsFirst | todoqueue_backend/tasks/models.py:267-279 | the probe returns nothing iff no kind has the id, and otherwise the hit of the first kind that has it, with that kind's content type |
| TaskModels.GetTaskById | todoqueue_backend/tasks/models.py:262-279 | an id that is not a UUID text raises ValidationError from the first probe; otherwise the loop returns a task and a content type together, or neither, exactly as the first-hit probe over [Flexible, Scheduled] says |
| TaskModels.GetTaskByIdOrder | todoqueue_backend/tasks/models.py:265-279 | a flexible task wins over a scheduled one with the same id; no match gives (None, None) |
| TaskModels.FirstHit | todoqueue_backend/tasks/models.py:265-279 | the probe order of get_task_by_id, for which FirstHitIsFirst and GetTaskByIdOrder state what is found |
| TaskModels.HexIdIsUuid | todoqueue_backend/tasks/models.py:158 | thirty-two hexadecimal digits are accepted by the UUID primary key |
| TaskModels.ShortIdIsNotUuid | todoqueue_backend/tasks/models.py:158 | a text shorter than 32 characters, such as "xyz", is refused by the UUID primary key |
| TaskUtils.Renormalize | todoqueue_backend/tasks/utils.py:11-17 | renormalize fails with a division by zero iff the old range has width 0, and is otherwise the affine map between the ranges |
| TaskUtils.RenormalizeEndpoints | todoqueue_backend/tasks/utils.py:11-17 | the ends of the old range map to the ends of the new one |
| TaskUtils.RenormalizeRoundTrip | todoqueue_backend/tasks/utils.py:11-17 | mapping to the new range and back gives the value back when both ranges have nonzero width |
| TaskUtils.RenormalizeMonotone | todoqueue_backend/tasks/utils.py:11-17 | with increasing ranges, the map preserves order |
| TaskUtils.ParseDurationText | todoqueue_backend/tasks/utils.py:20-34 | parsing the "D H:M:S" text of four numbers gives D days + H hours + M minutes + S seconds |
| TaskUtils.ParseDurationClockOnly | todoqueue_backend/tasks/utils.py:26-28 | a text without a space is read with zero days |
| TaskUtils.ParseDurationOfTwoParts | todoqueue_backend/tasks/utils.py:23-25 | a text with one space reads its days with int() before the space and its clock after it, and a bad day count is a ValueError |
| TaskUtils.ParseClockText | todoqueue_backend/tasks/utils.py:30-34 | the "H:M:S" clock of three numbers reads back as those numbers, added to the days |
| TaskUtils.ParseDurationRejects | todoqueue_backend/tasks/utils.py:23-31 | two or more spaces, or a clock without exactly two colons, raise ValueError |
| TaskUtils.ParseDuration | todoqueue_backend/tasks/utils.py:20-34 | the specification of parse_duration, stated by the ParseDuration lemmas above |
| TaskUtils.ParseClock | todoqueue_backend/tasks/utils.py:30-34 | the "H:M:S" half of parse_duration, stated by ParseClockText and ParseDurationRejects |
| TaskUtils.PiecewiseLinear | todoqueue_backend/tasks/utils.py:37-54 | the specification of piecewise_linear, stated by PiecewiseLinearContinuous and PiecewiseLinearMonotone |
| Text.PyInt | todoqueue_backend/tasks/utils.py:24-34 | Python int() on a string, on the decimal-integer subset, which PyIntOfIntToString reads back |
| Text.JsNumber | todoqueue_frontend/src/utils/index.js:21 | JavaScript Number() on a string, on the decimal-integer subset: a blank text is 0 and other non-integers are NaN |
| Text.JsParseInt | todoqueue_frontend/src/components/popups/EditFlexibleTaskPopup.js:37 | JavaScript parseInt() in base 10, which JsParseIntOfIntToString reads back |
| TaskUtils.PiecewiseLinearContinuous | todoqueue_backend/tasks/utils.py:37-54 | the ramp has no jump at the threshold: between any two points, on either side or across the threshold, it changes by at most the steeper slope times their distance |
| TaskUtils.PiecewiseLinearMonotone | todoqueue_backend/tasks/utils.py:37-54 | with nonnegative gradients the function is nondecreasing |
| TaskUtils.Trunc | todoqueue_backend/tasks/utils.py:109 | int() truncates toward zero: the result is within 1 of x, on x's side of zero |
| TaskUtils.ScaledGrossness | todoqueue_backend/tasks/utils.py:85-91 | grossness is renormalized from [0, 5] to [0, 100], which is 20 times the rating |
| TaskUtils.BpFunction | todoqueue_backend/tasks/utils.py:81-83 | a completion time of 0 minutes gives 0 points whatever the grossness |
| TaskUtils.BpFunctionFormula | todoqueue_backend/tasks/utils.py:95-109 | otherwise the points are int(200 * sigmoid(t / 20) + 20 * grossness - 100 + random base) |
| TaskUtils.BpFunctionMonotoneInGrossness | todoqueue_backend/tasks/utils.py:85-109 | with the sigmoid and random base fixed, more grossness never gives fewer points |
| TaskUtils.BpFunctionMonotoneInTime | todoqueue_backend/tasks/utils.py:95-109 | with a nondecreasing sigmoid, a longer positive completion time never gives fewer points |
| TaskUtils.BpFunctionRange | todoqueue_backend/tasks/utils.py:85-109 | with 0 < sigmoid < 1, grossness in [0, 5] and random base in [0, 50], the points lie strictly between -100 and 250 |
| Timedeltas.Timedelta | todoqueue_backend/tasks/utils.py:34 | constructing a timedelta gives the total seconds, and overflows exactly when that total is outside timedelta's range |
| Timedeltas.Accumulate | todoqueue_backend/tasks/views.py:190-192 | the running timedelta sum succeeds exactly when every partial sum is in timedelta's range, and is then the start plus the sum of the times; otherwise it overflows |
| Timedeltas.AverageMicrosBounds | todoqueue_backend/tasks/views.py:194 | dividing a timedelta by the count, rounded half-even to microseconds, stays between the bounds of the summands |
| Timedeltas.MicrosSecondsField | todoqueue_backend/tasks/views.py:203-204 | timedelta.seconds lies in [0, 86400) |
| Timedeltas.TwoDigits | todoqueue_backend/tasks/models.py:162-163 | the two-digit fields of the served duration text are two decimal digits |
| Timedeltas.DurationString | todoqueue_backend/tasks/models.py:162-163 | the text Django serves for a DurationField value, which ParseIntervalOfDurationString reads back |
| TaskViews.Renormalize5 | todoqueue_backend/tasks/views.py:138-142 | the five-argument renormalize fails iff old_min == old_max |
| TaskViews.Renormalize5Agrees | todoqueue_backend/tasks/views.py:138-142 | it agrees with the pair-argument renormalize of tasks/utils.py on the same ranges |
| TaskViews.Renormalize5Endpoints | todoqueue_backend/tasks/views.py:138-142 | old_min maps to new_min and old_max to new_max |
| TaskViews.SubmittedGrossness | todoqueue_backend/tasks/views.py:173 | the submitted rating is renormalized from [0, 5] to [1, 2] |
| TaskViews.LoggedGrossness | todoqueue_backend/tasks/views.py:200 | a logged rating is renormalized from [1, 5] to [0.5, 2] |
| TaskViews.FieldMinutes | todoqueue_backend/tasks/views.py:203-204 | the minutes taken from timedelta.seconds lie in [0, 1440) |
| TaskViews.Score | todoqueue_backend/tasks/views.py:207-210 | the final formula fails with a division by zero iff the product of the averages is 0 |
| TaskViews.CalculateBrowniePoints | todoqueue_backend/tasks/views.py:162-218 | the method with its two loops computes exactly the specified points, or the exception that stops it |
| TaskViews.TotalCompletionTime | todoqueue_backend/tasks/views.py:190-192 | the first loop computes the timedelta sum of the logged times, and overflows exactly when some partial sum leaves timedelta's range |
| TaskViews.TotalLoggedGrossness | todoqueue_backend/tasks/views.py:198-200 | the second loop computes the sum of the renormalized logged ratings |
| TaskViews.BrowniePointsWithoutHistory | todoqueue_backend/tasks/views.py:181-210 | with no history the points are the rescaled grossness times the completion minutes, and a zero product divides by zero |
| TaskViews.PointsWithoutHistory | todoqueue_backend/tasks/views.py:185-210 | the same, stated for any value of the seconds field |
| TaskViews.BrowniePointsOfParsed | todoqueue_backend/tasks/views.py:171-204 | the submitted duration is seen only through its seconds field, the total modulo one day |
| TaskViews.BrowniePointsIgnoresDays | todoqueue_backend/tasks/views.py:203-204 | adding whole days to the completion text does not change the points |
| TaskViews.ScoreAgainstItself | todoqueue_backend/tasks/views.py:185-210 | scored against itself, a submission gets grossness times minutes |
| TaskViews.SumLoggedGrossnessBounds | todoqueue_backend/tasks/views.py:198-200 | the summed renormalized ratings of n logs rated 1 to 5 lie in [0.5 n, 2 n] |
| TaskViews.AverageGrossnessBounds | todoqueue_backend/tasks/views.py:198-201 | the average logged grossness lies in [0.5, 2] |
| TaskViews.AverageTimeBounds | todoqueue_backend/tasks/views.py:189-194 | the total is the sum of the logged times, and the average lies between their bounds |
| TaskViews.BrowniePointsView | todoqueue_backend/tasks/views.py:221-242 | the view answers 400 iff a parameter is missing, 200 with the points iff the task exists and the points are computed and nonzero, and 500 otherwise |
| TaskViews.WholeDaysWithoutHistoryFails | todoqueue_backend/tasks/views.py:185-210 | with no history, a completion time of whole days divides by zero |
| TaskViews.ViewWholeDaysWithoutHistory | todoqueue_backend/tasks/views.py:234-240 | so the view answers 500 for such a submission on a task without logs |
| TaskViews.BrowniePoints | todoqueue_backend/tasks/views.py:162-218 | the specification of calculate_brownie_points once the task is found, which CalculateBrowniePoints computes and the lemmas above characterise |
| TaskViews.PointsForSecondsField | todoqueue_backend/tasks/views.py:185-218 | the part of calculate_brownie_points after the submitted duration is read, seen only through its seconds field |
| RateLimit.Recent | todoqueue_backend/accounts/utils.py:20 | exactly the attempts less than period before now survive the filter |
| RateLimit.RateLimiter.constructor | todoqueue_backend/accounts/utils.py:17 | the cache starts empty |
| RateLimit.RateLimiter.IsRateLimited | todoqueue_backend/accounts/utils.py:9-30 | the result and the new entry under the call's key are those of one step, a limited call writes nothing, and every other key is unchanged |
| RateLimit.StepBounds | todoqueue_backend/accounts/utils.py:20-30 | a call is limited iff at least max_attempts recent attempts remain; an accepted call stores at most max_attempts entries, all recent, ending with now, the others taken from the stored list |
| RateLimit.ExpiryAgrees | todoqueue_backend/accounts/utils.py:20-28 | once the cache timeout has passed, the filter leaves nothing, so expiring the entry changes no result |
| RateLimit.StepKeepsInvariant | todoqueue_backend/accounts/utils.py:20-30 | one more call keeps the run invariant: the stored list is the recent accepted attempts and no window holds more than max_attempts of them |
| RateLimit.RunKeepsInvariant | todoqueue_backend/accounts/utils.py:9-30 | every run of calls with nondecreasing times keeps that invariant |
| RateLimit.RunLast | todoqueue_backend/accounts/utils.py:9-30 | a run is the run of all but the last call followed by one step |
| RateLimit.SlidingWindowBound | todoqueue_backend/accounts/utils.py:9-30 | for nondecreasing call times on one key, no window of length period contains more than max_attempts accepted calls |
| RateLimit.RecentOfRecent | todoqueue_backend/accounts/utils.py:20 | filtering at an earlier time and then at a later one is filtering at the later one |
| RateLimit.WindowWithinRecent | todoqueue_backend/accounts/utils.py:20 | a window ending at now holds no more attempts than the filter keeps |
| RateLimit.CacheKey | todoqueue_backend/accounts/utils.py:16 | the cache key of one endpoint and one identifier |
| RateLimit.Step | todoqueue_backend/accounts/utils.py:20-30 | one call on a stored list, which IsRateLimited performs and StepBounds characterises |
| RateLimit.Run | todoqueue_backend/accounts/utils.py:9-30 | successive calls on one key from an empty cache, with one verdict per call |
| DurationFormat.FormatDurationNever | todoqueue_frontend/src/utils/index.js:5-7 | the result is "Never" iff the duration is missing or empty |
| DurationFormat.FormatDurationWithDays | todoqueue_frontend/src/utils/index.js:10-28 | with a space, days is the text before it and hours and minutes are the Number() of the first two clock fields |
| DurationFormat.FormatDurationWithoutDays | todoqueue_frontend/src/utils/index.js:10-28 | without a space, days is "0" |
| DurationFormat.GetTimeSince | todoqueue_frontend/src/utils/index.js:32-67 | the method that appends with += and then trims computes the specified text |
| DurationFormat.AppendComponents | todoqueue_frontend/src/utils/index.js:46-55 | the appends build the present phrases, each after a space except the day phrase, and build "" iff all three parts are 0 |
| DurationFormat.TimeSinceTextCases | todoqueue_frontend/src/utils/index.js:37-66 | with all parts 0 the text is "Just now"; otherwise the present phrases joined by single spaces, then " ago" |
| DurationFormat.TrimmedIsJoin | todoqueue_frontend/src/utils/index.js:46-62 | trimming the built text leaves the present phrases joined by single spaces |
| DurationFormat.TimeSinceShape | todoqueue_frontend/src/utils/index.js:37-66 | under a minute or with all parts 0 the text is "Just now"; otherwise it starts without a space and ends with " ago" |
| DurationFormat.TimeSinceOneDayAsWritten | todoqueue_frontend/src/utils/index.js:48 | as written, one day renders as "1 days" |
| DurationFormat.TimeSinceOneDayIntended | todoqueue_frontend/src/utils/index.js:48 | with a numeric comparison, one day renders as "1 day" |
| DurationFormat.FormatDuration | todoqueue_frontend/src/utils/index.js:3-29 | the specification of formatDuration, stated by the three FormatDuration lemmas |
| DurationFormat.DurationWords | todoqueue_frontend/src/utils/index.js:23-28 | the day, hour and minute phrases of formatDuration |
| DurationFormat.TimeSinceText | todoqueue_frontend/src/utils/index.js:37-66 | the text getTimeSince builds, stated by TimeSinceTextCases and TimeSinceShape |
| IntervalForm.IntervalTextParses | todoqueue_frontend/src/components/popups/CreateFlexibleTaskPopup.js:66-67 | the backend's parse_duration reads the "D H:M:00" text as exactly 60 times the form's total minutes |
| IntervalForm.IntervalTextPieces | todoqueue_frontend/src/components/popups/CreateFlexibleTaskPopup.js:66-67 | the text parses into the days, hours and minutes the form holds |
| IntervalForm.ParseIntervalOfText | todoqueue_frontend/src/components/popups/EditFlexibleTaskPopup.js:27-47 | parseInterval of the built text gives the form's fields with `|| 0` applied, the same total and the same text |
| IntervalForm.ParseIntervalClockOnly | todoqueue_frontend/src/components/popups/EditFlexibleTaskPopup.js:29-41 | a duration without a day part reads as zero days, with hours and minutes from the first two fields |
| IntervalForm.ParseIntervalOfPieces | todoqueue_frontend/src/components/popups/EditFlexibleTaskPopup.js:29-41 | with two space-separated parts, days come from parseInt of the first, and hours and minutes from the first two colon fields of the second; seconds are dropped |
| IntervalForm.ParseIntervalOfDurationString | todoqueue_frontend/src/components/popups/EditFlexibleTaskPopup.js:27-50 | parseInterval of the backend's text for a duration of n minutes gives the whole days, the hours and the minutes of n, whose total is n |
| IntervalForm.CanonicalInterval | todoqueue_frontend/src/components/popups/EditFlexibleTaskPopup.js:27-50 | the days, hours and minutes a total of minutes loads as |
| IntervalForm.FormatDurationOfIntervalText | todoqueue_frontend/src/utils/index.js:3-29 | formatDuration of the popups' interval text names its days, hours and minutes |
| IntervalForm.CheckFlexible | todoqueue_frontend/src/components/popups/CreateFlexibleTaskPopup.js:36-61 | the ladder passes iff the name is not blank and 0 <= min <= max; otherwise it reports a blank name first, then a negative total, then max < min |
| IntervalForm.TotalMinutes | todoqueue_frontend/src/components/popups/CreateFlexibleTaskPopup.js:25-34 | the total in minutes with `|| 0` applied to each field, which IntervalTextParses relates to the sent text |
| IntervalForm.IntervalText | todoqueue_frontend/src/components/popups/CreateFlexibleTaskPopup.js:66-67 | the "D H:M:00" text of an interval, which IntervalTextParses and ParseIntervalOfText read back |
| IntervalForm.ParseInterval | todoqueue_frontend/src/components/popups/EditFlexibleTaskPopup.js:27-47 | the specification of parseInterval, stated by the ParseInterval lemmas |
| CreateFlexiblePopup.WithNumberFrames | todoqueue_frontend/src/components/popups/CreateFlexibleTaskPopup.js:92-97 | a number input changes its own field and no other |
| CreateFlexiblePopup.WithTextFrames | todoqueue_frontend/src/components/popups/CreateFlexibleTaskPopup.js:92-97 | a text input changes its own field and no other |
| CreateFlexiblePopup.AcceptedIntervalsParse | todoqueue_frontend/src/components/popups/CreateFlexibleTaskPopup.js:36-75 | a form that reaches the API call sends two texts that the backend reads as its totals, with 0 <= min <= max |
| CreateFlexiblePopup.Popup.constructor | todoqueue_frontend/src/components/popups/CreateFlexibleTaskPopup.js:6-18 | the popup starts with the blank form and no error |
| CreateFlexiblePopup.Popup.HandleCreateTask | todoqueue_frontend/src/components/popups/CreateFlexibleTaskPopup.js:21-89 | a failing ladder sets the error, keeps the form and sends nothing; a passing one clears the error, sends the name, household, both interval texts and the description, and resets the form |
| CreateFlexiblePopup.Popup.HandleTextChange | todoqueue_frontend/src/components/popups/CreateFlexibleTaskPopup.js:92-118 | the named field changes, and the error flag is set iff the max total is below the min total |
| CreateFlexiblePopup.Popup.HandleNumberChange | todoqueue_frontend/src/components/popups/CreateFlexibleTaskPopup.js:92-118 | the same for a number input |
| EditFlexiblePopup.Popup.constructor | todoqueue_frontend/src/components/popups/EditFlexibleTaskPopup.js:7-19 | the popup starts with the blank form and no error |
| EditFlexiblePopup.Popup.Load | todoqueue_frontend/src/components/popups/EditFlexibleTaskPopup.js:49-64 | loading replaces the form with the fetched task and its two parsed intervals |
| EditFlexiblePopup.Popup.HandleUpdateTask | todoqueue_frontend/src/components/popups/EditFlexibleTaskPopup.js:72-143 | a failing ladder sets the error and sends nothing; a passing one sends the update, switches to the task details and resets the form |
| EditFlexiblePopup.Popup.HandleTextChange | todoqueue_frontend/src/components/popups/EditFlexibleTaskPopup.js:145-173 | the named field changes, and the error flag is set iff parseInt of the max total is below that of the min total |
| EditFlexiblePopup.Popup.HandleNumberChange | todoqueue_frontend/src/components/popups/EditFlexibleTaskPopup.js:145-173 | the same for a number input |
| EditFlexiblePopup.LoadRoundTrip | todoqueue_frontend/src/components/popups/EditFlexibleTaskPopup.js:27-64 | the backend reads each sent interval as its total; loading the duration text it serves back gives the same totals as whole days, hours and minutes, texts that the backend reads as the same totals, and the same ladder verdict |
| EditFlexiblePopup.LoadedForm | todoqueue_frontend/src/components/popups/EditFlexibleTaskPopup.js:49-64 | the form built from a fetched task, which Load stores and LoadRoundTrip reads |
| EditScheduledPopup.NumeralOfNat | todoqueue_frontend/src/components/popups/EditScheduledTaskPopup.js:113 | every number below 100 prints as a one- or two-digit numeral that reads back as itself |
| EditScheduledPopup.NatOfNumeral | todoqueue_frontend/src/components/popups/EditScheduledTaskPopup.js:113 | such a numeral is the decimal printing of its value |
| EditScheduledPopup.MinuteEntryRange | todoqueue_frontend/src/components/popups/EditScheduledTaskPopup.js:113 | the minute alternative accepts exactly `*`, n and `*/n` with n in 0-59 |
| EditScheduledPopup.HourEntryRange | todoqueue_frontend/src/components/popups/EditScheduledTaskPopup.js:113 | the hour alternative accepts exactly `*`, n and `*/n` with n in 0-23 |
| EditScheduledPopup.DayEntryRange | todoqueue_frontend/src/components/popups/EditScheduledTaskPopup.js:113 | the day-of-month alternative accepts exactly `*`, n and `*/n` with n in 1-31 |
| EditScheduledPopup.MonthEntryRange | todoqueue_frontend/src/components/popups/EditScheduledTaskPopup.js:113 | the month alternative accepts exactly `*`, n and `*/n` with n in 1-12 |
| EditScheduledPopup.WeekdayEntryRange | todoqueue_frontend/src/components/popups/EditScheduledTaskPopup.js:113 | the day-of-week alternative accepts exactly `*`, n and `*/n` with n in 0-6 |
| EditScheduledPopup.CronValidInRange | todoqueue_frontend/src/components/popups/EditScheduledTaskPopup.js:113 | the regex accepts a text iff it is five space-separated fields, each in its field's range; lists and ranges are rejected |
| EditScheduledPopup.FieldRoundTrip | todoqueue_frontend/src/components/popups/EditScheduledTaskPopup.js:48-110 | a lower-case field other than "all" survives the load mapping and the rebuild mapping |
| EditScheduledPopup.LoadedCronText | todoqueue_frontend/src/components/popups/EditScheduledTaskPopup.js:48-60 | the five loaded fields, joined in the order minutes, hours, DoM, months, DoW, are the split fields with `*` shown as All |
| EditScheduledPopup.LoweredFieldsStar | todoqueue_frontend/src/components/popups/EditScheduledTaskPopup.js:105-110 | lower-casing, splitting and mapping "all" to `*` gives back the original fields |
| EditScheduledPopup.CronRoundTrip | todoqueue_frontend/src/components/popups/EditScheduledTaskPopup.js:48-110 | for a lower-case five-field schedule, loading and then rebuilding gives back the original schedule |
| EditScheduledPopup.CronValid | todoqueue_frontend/src/components/popups/EditScheduledTaskPopup.js:113 | the cron regex, which CronValidInRange characterises field by field |
| EditScheduledPopup.CronString | todoqueue_frontend/src/components/popups/EditScheduledTaskPopup.js:103-110 | the rebuilt cron text, which CronRoundTrip relates to the loaded schedule |
| EditScheduledPopup.LoadedForm | todoqueue_frontend/src/components/popups/EditScheduledTaskPopup.js:44-64 | the form built from a fetched task, which Load stores |
| EditScheduledPopup.CheckScheduled | todoqueue_frontend/src/components/popups/EditScheduledTaskPopup.js:75-119 | the ladder passes iff the name is not blank, the max total is nonnegative and the cron text is valid; otherwise it reports a blank name first, then a negative interval, then an invalid cron |
| EditScheduledPopup.WithTextFrames | todoqueue_frontend/src/components/popups/EditScheduledTaskPopup.js:138-146 | a text input changes its own field and no other |
| EditScheduledPopup.UneditedScheduleResent | todoqueue_frontend/src/components/popups/EditScheduledTaskPopup.js:48-119 | a loaded task with a name, a valid lower-case schedule and a nonnegative interval passes the ladder unedited |
| EditScheduledPopup.UneditedServedScheduleResent | todoqueue_frontend/src/components/popups/EditScheduledTaskPopup.js:28-119 | the same for a max interval served as the backend's text of n >= 0 minutes, which loads as total n |
| EditScheduledPopup.Popup.constructor | todoqueue_frontend/src/components/popups/EditScheduledTaskPopup.js:7-20 | the popup starts with the initial form and no error |
| EditScheduledPopup.Popup.Load | todoqueue_frontend/src/components/popups/EditScheduledTaskPopup.js:44-64 | loading replaces the form with the fetched task, its cron fields and its parsed max interval |
| EditScheduledPopup.Popup.HandleEditTask | todoqueue_frontend/src/components/popups/EditScheduledTaskPopup.js:71-136 | the form is kept; a failing ladder sets the error and sends nothing; a passing one sends the rebuilt cron string and the interval text and switches to the task details |
| EditScheduledPopup.Popup.HandleTextChange | todoqueue_frontend/src/components/popups/EditScheduledTaskPopup.js:138-146 | only the named field changes and the error flag is kept |
| EditScheduledPopup.Popup.HandleNumberChange | todoqueue_frontend/src/components/popups/EditScheduledTaskPopup.js:138-146 | the same for a number input |
| CreateOneShotPopup.CheckOneShot | todoqueue_frontend/src/components/popups/CreateOneShotTaskPopup.js:30-53 | the ladder passes iff the name, due date and due time are not blank and the total is nonnegative; otherwise it reports the first failing check |
| CreateOneShotPopup.DueDatetimeSplits | todoqueue_frontend/src/components/popups/CreateOneShotTaskPopup.js:59 | the due datetime is the date, "T" and the time, and splits back into them |
| CreateOneShotPopup.DueDatetime | todoqueue_frontend/src/components/popups/CreateOneShotTaskPopup.js:59 | the due datetime text, stated by DueDatetimeSplits and ResetDropsDueTime |
| CreateOneShotPopup.ResetDropsDueTime | todoqueue_frontend/src/components/popups/CreateOneShotTaskPopup.js:59-92 | after the reset the due time is gone, the ladder no longer catches it, and the due datetime ends in "undefined" |
| CreateOneShotPopup.AcceptedTimeToCompleteParses | todoqueue_frontend/src/components/popups/CreateOneShotTaskPopup.js:24-62 | an accepted time to complete is sent as a text the backend reads as its nonnegative total |
| CreateOneShotPopup.WithTextFrames | todoqueue_frontend/src/components/popups/CreateOneShotTaskPopup.js:96-99 | a text input changes its own field and no other |
| CreateOneShotPopup.Popup.constructor | todoqueue_frontend/src/components/popups/CreateOneShotTaskPopup.js:7-16 | the popup starts with the initial form, due at 09:00, and no error |
| CreateOneShotPopup.Popup.HandleCreateTask | todoqueue_frontend/src/components/popups/CreateOneShotTaskPopup.js:24-93 | a failing ladder sends nothing; otherwise the request is sent, a 201 closes the popup and resets the form, and any other status sets the error and keeps the form |
| CreateOneShotPopup.Popup.HandleTextChange | todoqueue_frontend/src/components/popups/CreateOneShotTaskPopup.js:96-99 | only the named field changes |
| CreateOneShotPopup.Popup.HandleNumberChange | todoqueue_frontend/src/components/popups/CreateOneShotTaskPopup.js:96-99 | only the named field changes |
| CreateOneShotPopup.Popup.HandleDueBeforeChange | todoqueue_frontend/src/components/popups/CreateOneShotTaskPopup.js:102-104 | only due_before changes, to the checkbox state |
| CompleteTaskPopup.LookupIncreasing | todoqueue_frontend/src/components/popups/CompleteTaskPopup.js:13-15 | each further slider position is a strictly longer time |
| CompleteTaskPopup.CompletionTimeIsInterval | todoqueue_frontend/src/components/popups/CompleteTaskPopup.js:21-23 | the completion text is the interval text of 0 days, floor(m / 60) hours and m % 60 minutes |
| CompleteTaskPopup.CompletionTimeParses | todoqueue_frontend/src/components/popups/CompleteTaskPopup.js:21-23 | the backend reads the completion text as exactly m minutes |
| CompleteTaskPopup.SliderTimesParse | todoqueue_frontend/src/components/popups/CompleteTaskPopup.js:13-91 | every slider position sends the minutes it shows |
| CompleteTaskPopup.CompletionTimeText | todoqueue_frontend/src/components/popups/CompleteTaskPopup.js:21-23 | the completion-time text, stated by CompletionTimeIsInterval and CompletionTimeParses |
| CompleteTaskPopup.Without | todoqueue_frontend/src/components/popups/CompleteTaskPopup.js:68 | the filter keeps exactly the other ids and adds no duplicates |
| CompleteTaskPopup.Toggle | todoqueue_frontend/src/components/popups/CompleteTaskPopup.js:64-73 | toggling flips whether the id is selected, leaves every other id alone and adds no duplicates |
| CompleteTaskPopup.WithoutEmpty | todoqueue_frontend/src/components/popups/CompleteTaskPopup.js:64-73 | deselecting a user leaves nobody selected exactly when that user was the only one |
| CompleteTaskPopup.ToggleTwice | todoqueue_frontend/src/components/popups/CompleteTaskPopup.js:64-73 | selecting an unselected user and pressing again gives the same list back |
| CompleteTaskPopup.ToggleTwiceSelected | todoqueue_frontend/src/components/popups/CompleteTaskPopup.js:64-73 | deselecting and selecting again keeps the same set of users, with the user moved to the end |
| CompleteTaskPopup.NextGrossness | todoqueue_frontend/src/components/popups/CompleteTaskPopup.js:98-103 | clicking the current level clears it to 0, any other level sets it, and the level stays in 0-5 |
| CompleteTaskPopup.Popup.constructor | todoqueue_frontend/src/components/popups/CompleteTaskPopup.js:7-9 | nobody is selected, grossness is 0 and the slider is at its first position |
| CompleteTaskPopup.Popup.ToggleUser | todoqueue_frontend/src/components/popups/CompleteTaskPopup.js:64-73 | the selection is toggled, keeps no duplicates, and nothing else changes; submitting becomes disabled exactly when the only selected user is deselected |
| CompleteTaskPopup.Popup.ClickGrossness | todoqueue_frontend/src/components/popups/CompleteTaskPopup.js:98-103 | grossness takes its next value and nothing else changes |
| CompleteTaskPopup.Popup.SetCompletionTime | todoqueue_frontend/src/components/popups/CompleteTaskPopup.js:83-91 | the slider position changes to a position of the lookup table and nothing else changes |
| CompleteTaskPopup.Popup.HandleCreateWorkLog | todoqueue_frontend/src/components/popups/CompleteTaskPopup.js:17-44 | reachable only while somebody is selected; the request carries the slider's minutes as a duration text, the non-empty selection and the grossness; any answer but null, including the undefined of a failed request, is passed up, clears the selection, disabling submit, and closes the popup; null changes nothing |
| CompleteTaskPopup.Popup.HandleCreateWorkLogIntended | todoqueue_frontend/src/components/popups/CompleteTaskPopup.js:34-44 | the handler with the guard its comment describes: only brownie points are passed up, clear the selection and close the popup; a failed request leaves the popup open with its selection |
| CompleteTaskPopup.WorkLogAnswer | todoqueue_frontend/src/api/tasks.js:61-145 | createWorkLog never answers null; it answers points exactly when a household is selected, the points request returns and no work-log POST answers a status other than 201, and the points are the returned value rounded to the nearest integer |
| CompleteTaskPopup.CreateWorkLog | todoqueue_frontend/src/api/tasks.js:61-145 | the loop over the users' POSTs stops with undefined at the first non-201 status and skips a POST that throws, answering what WorkLogAnswer says |
| CompleteTaskPopup.JsRound | todoqueue_frontend/src/api/tasks.js:108 | Math.round gives the integer within half of its argument, halves rounded up |
| CompleteTaskPopup.FailedRequestClosesAsWritten | todoqueue_frontend/src/components/popups/CompleteTaskPopup.js:35 | every failure of createWorkLog answers undefined, which the `=== null` guard lets through, so the popup closes |
| CompleteTaskPopup.ClosesIntendedIffSuccess | todoqueue_frontend/src/components/popups/CompleteTaskPopup.js:34 | with the intended guard, the popup closes exactly when a household is selected, the points request returns and every POST is created |
| CompleteTaskPopup.ClosesAsWritten | todoqueue_frontend/src/components/popups/CompleteTaskPopup.js:35 | the guard as written: only null keeps the popup open |
| CompleteTaskPopup.ClosesIntended | todoqueue_frontend/src/components/popups/CompleteTaskPopup.js:34 | the guard as its comment intends: only brownie points close the popup |
| CompleteTaskPopup.Popup.SubmitDisabled | todoqueue_frontend/src/components/popups/CompleteTaskPopup.js:109-113 | the submit button is disabled while nobody is selected, which HandleCreateWorkLog requires not to hold |
| UserStatsBox.ToggledMode | todoqueue_frontend/src/components/user_stats_box/UserStatsBox.js:26 | the switch always changes the mode |
| UserStatsBox.SwapAdjacent | todoqueue_frontend/src/components/user_stats_box/UserStatsBox.js:12-17 | one exchange of neighbours keeps the same elements |
| UserStatsBox.SortByScore | todoqueue_frontend/src/components/user_stats_box/UserStatsBox.js:12-17 | the in-place sort leaves the users highest score first and permutes them, in total mode by credit minus debit and in rolling mode by rolling points |
| UserStatsBox.Top | todoqueue_frontend/src/components/user_stats_box/UserStatsBox.js:33 | the box shows the first min(5, n) users |
| UserStatsBox.TopIsHighest | todoqueue_frontend/src/components/user_stats_box/UserStatsBox.js:12-33 | after the sort, nobody left out of the top five scores higher than anybody shown |
| UserStatsBox.Rows | todoqueue_frontend/src/components/user_stats_box/UserStatsBox.js:33-40 | each row shows the user's name and the sort key of the current mode |
| UserStatsBox.RowsDescend | todoqueue_frontend/src/components/user_stats_box/UserStatsBox.js:12-40 | the shown values descend |
| UserStatsBox.Render | todoqueue_frontend/src/components/user_stats_box/UserStatsBox.js:7-46 | without a household, on a window of width 800 or less, or without users, nothing renders and the array is untouched; otherwise the array is sorted in place and the top five rows are shown |
| UserStatsBox.LedgerEntry | todoqueue_frontend/src/components/user_stats_box/UserStatsBox.js:14-15 | a user's ledger entry for the selected household |
| UserStatsBox.Score | todoqueue_frontend/src/components/user_stats_box/UserStatsBox.js:12-17 | the sort key of each mode, by which SortByScore orders the users |
| TasksView.Queue | todoqueue_frontend/src/components/tasks/Tasks.js:337-338 | the queue holds exactly the tasks with nonzero staleness |
| TasksView.Fresh | todoqueue_frontend/src/components/tasks/Tasks.js:377-378 | the sidebar holds exactly the tasks with zero staleness |
| TasksView.QueueAndFreshPartition | todoqueue_frontend/src/components/tasks/Tasks.js:337-378 | every task appears exactly once, in the queue or in the sidebar |
| TasksView.SortSidebar | todoqueue_frontend/src/components/tasks/Tasks.js:379-386 | the sidebar sort is ordered by the comparator and is a permutation |
| TasksView.SidebarOrder | todoqueue_frontend/src/components/tasks/Tasks.js:377-386 | the sidebar holds the fresh tasks with frozen ones first, and by name within each group |
| TasksView.NameLeTotal | todoqueue_frontend/src/components/tasks/Tasks.js:385 | any two names compare |
| TasksView.NameLeTransitive | todoqueue_frontend/src/components/tasks/Tasks.js:385 | the name order is transitive |
| TasksView.SidebarLeTotal | todoqueue_frontend/src/components/tasks/Tasks.js:379-386 | any two fresh tasks compare |
| TasksView.SidebarLeTransitive | todoqueue_frontend/src/components/tasks/Tasks.js:379-386 | the sidebar comparator is transitive |
| TasksView.Sidebar | todoqueue_frontend/src/components/tasks/Tasks.js:377-386 | the fresh tasks in sidebar order, stated by SidebarOrder |
| TasksView.NoStaleTasksMeaning | todoqueue_frontend/src/components/tasks/Tasks.js:74-80 | the queue is empty iff every task has zero staleness |
| TasksView.AllDoneAllFresh | todoqueue_frontend/src/components/tasks/Tasks.js:74-80 | when nothing is stale, the sidebar shows every task |
| TasksView.TasksPage.constructor | todoqueue_frontend/src/components/tasks/Tasks.js:22-52 | the page starts with no tasks, no points, no animation and no popup, and the first render does not start the animation |
| TasksView.TasksPage.BrowniePointsEffect | todoqueue_frontend/src/components/tasks/Tasks.js:114-127 | the effect starts the animation only after the first render and only for nonzero points |
| TasksView.TasksPage.SetBrowniePoints | todoqueue_frontend/src/components/tasks/Tasks.js:114-127 | new nonzero points start the animation, and equal or zero points do not |
| TasksView.TasksPage.HideFlipAnimation | todoqueue_frontend/src/components/tasks/Tasks.js:131-141 | the timeout hides the animation and changes nothing else |
| TasksView.TasksPage.SetTasks | todoqueue_frontend/src/components/tasks/Tasks.js:64-80 | the two effects keep noTasks and noStaleTasks in step with the new tasks |
| TasksView.TasksPage.OpenTaskPopup | todoqueue_frontend/src/components/tasks/Tasks.js:185-199 | the task and its id are selected and the popup opens |
| TasksView.TasksPage.CloseCurrentPopup | todoqueue_frontend/src/components/tasks/Tasks.js:214-220 | no popup is open and no task or id is selected |
| TasksView.EmptyStatesMeaning | todoqueue_frontend/src/components/tasks/Tasks.js:365-372 | the two empty states never show together; "no tasks" means the list is empty, and "all done" means tasks exist and none is stale |
| TasksView.Leaderboard | todoqueue_frontend/src/components/tasks/Tasks.js:419-455 | with a household on a window wider than 800, the users are sorted in place by the mode's key and the top five rows are shown; otherwise nothing is shown and the array is untouched |

## Left out

- Django ORM, HTTP routing, serializers, viewsets, authentication and permissions are left out, because they are persistence and I/O. Querysets become sequences and maps passed in.
- croniter is left out, because it is a foreign library reading the wall clock. `last_due` is a parameter of `ScheduledStaleness`.
- `sigmoid`/`math.exp` and `random.uniform` are left out, because they are transcendental floating point and randomness. `BpFunction` takes the sigmoid as a function parameter and the random base as a number.
- `validate_profanity` is left out, because it calls a machine-learning library.
- The Django cache's timeout is not modelled. `ExpiryAgrees` shows that an entry old enough to expire already filters to the empty list.
- The `moment` arithmetic of `getTimeSince` is not modelled, because it reads the clock. `GetTimeSince` takes the duration in minutes and the days, hours and minutes components as parameters.
- Form fields are typed values, not the strings a browser delivers. The string coercion of JavaScript is absent, including `+` concatenating a string field. The `% 1 !== 0` integer checks of the ladders cannot fail on integers, so they are absent from the ladders.
- `localeCompare` is modelled as code-point order (`NameLe`), because locale collation is outside Dafny.
- `UserStatsBox.LedgerEntry`: a household missing from a user's ledger reads as 0, where JavaScript would compute NaN.
- `UserStatsBox.SortByScore`: the JavaScript sort is modelled as an insertion sort. The ensures state order and permutation only, not the engine's placement of ties.
- `TasksView.SortSidebar`: the sidebar sort is modelled as a functional insertion sort, with the same provisos about ties.
- `TaskModels.MeanCompletionTime`: with no logs the source returns a `timedelta(0)`, not a number of seconds. The model returns 0.0.
- Floating point is modelled as exact reals, with no rounding, infinities or NaN on the backend. `timedelta` division rounds half-even to microseconds, as Python does; everything else is exact.
- `TaskViews.BrowniePointsView`: `calculate_brownie_points` looks up a `Task` model that `tasks/models.py` does not define. The model takes the task's work logs as a map from task ids, and an unknown id answers 500. `WorkLog.objects.filter(task=task)` filters on a field that `WorkLog` does not have, since a work log is linked to its task through a content type and an object id, and `Task.objects.get` raises on an unknown id rather than returning None; the model follows the evident intent of both.
- React rendering, hooks, `setInterval` polling, the axios calls and interceptors, and the flipper animation are left out. API results are parameters of the handlers.
- `OneShotTask` and `DummyTask` staleness is not part of this model, because those models are not defined in `tasks/models.py`.
- The older copies of `Tasks.js`, `CompleteTaskPopup.js` and the `todoqueue-frontend` directory repeat logic modelled once here, so they are left out. So are `AwardBrowniePoints.js` and the stale `CreateScheduledTaskPopup.js`.
- `bp_function`'s optional history arguments are never used by its body, so they are absent from `BpFunction`.
- `TaskModels.WorkLog.Save`: a missing credit entry raises a `KeyError` that stops the save after the task's timestamp was stored. The model returns a `KeyError` outcome with the log unsaved, and does not require the key to be present.
- Settings, migrations, admin and `plot_brownie_points.py` are configuration and tooling, so they are left out.
- `Text.PyInt`: only the decimal-integer subset is read, and only ASCII space, tab, newline, carriage return, vertical tab and form feed are stripped as whitespace, where Python also strips Unicode spaces. Underscores between digits and non-ASCII Unicode digits, which Python's `int()` accepts, are refused. So `ParseDuration("1_0 0:0:0")` is a `ValueError` here, where Python reads ten days.
- `Text.JsNumber`: only the decimal-integer subset is read, with the same ASCII whitespace, where `Number()` also trims Unicode spaces and line terminators. Decimals ("1.5"), exponents ("1e3"), hexadecimal, octal and binary prefixes ("0x10") and "Infinity" give NaN here, where `Number()` reads a number.
- `Text.ToLower`: only ASCII letters are lowered, where Python's `str.lower` lowers every cased Unicode letter.
- `Text.JsParseInt`: a "0x" prefix, which `parseInt` reads as hexadecimal, reads as the digit 0 here.
- `TaskModels.GetTaskById`: the UUID check drops braces and hyphens and wants 32 hexadecimal digits. Python's `uuid.UUID` removes "urn:" and "uuid:" with `str.replace`, so anywhere in the text, and its `int(hex, 16)` accepts a leading sign and underscores, so "+" followed by 31 hexadecimal digits is a UUID there; all of these are refused here. The tables are keyed by the id text, so two spellings of one UUID (upper and lower case, with and without hyphens) are different keys here, where the database compares UUID values.
- `RateLimit.RateLimiter.IsRateLimited`: attempt times are whole seconds, where `timezone.now()` carries microseconds. The cache read, filter and write are one atomic step here; concurrent requests in Django can interleave between `cache.get` and `cache.set` and lose attempts.
- `CompleteTaskPopup.CreateWorkLog`: the answer of the points request is a number here; a text `parseFloat` cannot read, which would give NaN points, is not modelled. The emptying of the caller's selection array in place (`completionUsers.length = 0`), an aliasing effect on React state, is not modelled. Logging is left out.
- `Timedeltas.DurationString`: durations are whole seconds, so the microsecond suffix of Django's `duration_string` never appears.

## Findings

| source | as written | input that shows it | evidently intended | confidence | as-written member | corrected member |
|---|---|---|---|---|---|---|
| todoqueue_frontend/src/components/popups/CompleteTaskPopup.js:35 | `browniePoints === null` never holds, because `createWorkLog` answers `undefined` on every failure, so a failed request closes the popup, clears the selection and passes `undefined` to `setBrowniePoints` | no household selected, the points request throwing, or a work-log POST answering 400 | a failed request keeps the popup open, as the comment at line 34 says | not executed | CompleteTaskPopup.FailedRequestClosesAsWritten | CompleteTaskPopup.Popup.HandleCreateWorkLogIntended |
| todoqueue_frontend/src/utils/index.js:48 | `days === "1"` compares the number of days with a string, so the singular branch never runs | a duration of 1 day and 2 hours renders as "1 days 2 hours ago" | a duration of one day renders "1 day", as hours and minutes do at lines 51 and 54 | not executed | DurationFormat.TimeSinceOneDayAsWritten | DurationFormat.TimeSinceOneDayIntended |

The model follows the code where it departs from the code's evident intent. The one-shot popup's reset object omits `due_time` (CreateOneShotTaskPopup.js:84-92). If the parent kept the popup instance mounted after a successful create, the next form would pass the ladder and send a due datetime ending in "undefined". `CreateOneShotPopup.ResetDropsDueTime` states this about the form state after the reset. The tasks page renders its popups in a switch on the current popup (components/tasks/Tasks.js:302-326), so closing a popup unmounts it, and that switch has no case for the one-shot popup.
