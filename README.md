# Study scheduler core, modelled in Dafny

This project models the scheduling and timer bookkeeping of a single-window
student scheduler (`scheduler.py`, class `PastelStudentScheduler`). It leaves out
the window, charts, quotes and sound. Three parts are modelled:

- **The session log** (`schedule_data`) and its auto-chaining placement. A study
  session is validated from the form's text fields. It is placed at the latest
  end already in the log, or at the current minute when the log is empty. It is
  then appended with category `Study`. The water and food break buttons go
  through the same path, so breaks are recorded as `Study` too.
- **The progress figure**: `min(100, study minutes / 360 * 100)`, computed in
  exact reals.
- **The timer registry** (`current_timers`). Starting a timer appends a record
  whose id is the registry's length at that moment. A timer's watcher completes
  it once its end time has passed. Completion raises the alarm and removes every
  record with that id.

Time is whole seconds since an epoch, passed in as `now`. A session of `d`
minutes ends `60 * d` seconds after it starts. "Truncated to the minute" is
`now - now % 60`. Form fields are plain strings. The answer to the "Clear entire
schedule?" question is a boolean argument.

Modules, one per part of the core:

- `Outcomes` (outcomes.dfy): `Option`, `Result` and the three input warnings.
- `Text` (text.dfy): Python's `str.strip()`, `int()` on a base-10 string, and `str(n)`.
- `Schedule` (schedule.dfy): the session record, form validation, `calculate_start_time`, and the chaining lemmas.
- `StudyProgress` (progress.dfy): study minutes and the progress percentage.
- `Timers` (timers.dfy): timer records, the lookup and the removal by id.
- `App` (app.dfy): class `StudentScheduler`. It holds `scheduleData` and `currentTimers`, and its methods change them as the buttons do. Its invariant `Valid()` states three things:
  - the log is chained: each session starts where the previous one ends, ends `duration` minutes after its start, and has a positive duration;
  - every start is minute-aligned, and every session is `Study`;
  - every timer is active and has a positive duration.

Several behaviours of the code are easy to misread. The model follows the code:

- Breaks are recorded with category `Study`, not `Break` (`scheduler.py:327`).
- Timer ids are the registry length at insertion, so they are not unique. After a completion an id can be handed out again. A watcher then finds the older record with that id. One completion removes every record sharing the id (`Timers.IdsCanRepeat`).
- There is no cancel operation, and no Pending/Running/Cancelled state machine. `active` is set to true and never cleared.
- A duration that is not an integer is rejected just like a non-positive one. Python's `int()` also accepts a sign and single underscores between digits.
- `int()` skips surrounding whitespace itself, but not the four separator characters U+001C to U+001F, which `str.strip()` does remove. The session form strips first, so it accepts `"\x1c25"`. The timer field is not stripped (`scheduler.py:435`), so the same text is rejected there (`Text.SeparatorRefused`, `Text.SeparatorStripped`).
- `int()` refuses a literal of more than 4300 digits (CPython's default `sys.get_int_max_str_digits()`), so such a duration is an `InvalidDuration`.
- The start time is the maximum `end` over the whole log, with ties going to the first such session (Python's `max`). On the chained logs that `add_session` builds, this is the end of the last session (`Schedule.ChainedLatest`).

## Model

| member | source | states |
|---|---|---|
| `Text.Strip` | scheduler.py:303-304 | the result is a slice of the input; only whitespace was removed from either end; it neither starts nor ends with whitespace; it is empty exactly when the input is all whitespace |
| `Text.Trim` | scheduler.py:303-304 | the result is a slice of the input with only blanks of the chosen kind removed from either end; neither end is such a blank; empty exactly when the input is all such blanks |
| `Text.StripIdempotent` | scheduler.py:303-304 | stripping an already stripped field changes nothing |
| `Text.ParseInt` | scheduler.py:310-311 | text accepted by `int()` is non-empty once the whitespace `int()` skips is trimmed, and ends in a digit there; a negative value needs a leading minus sign |
| `Text.ParseWord` | scheduler.py:311 | the sign and digit-body rule of `int()` on trimmed text, with at most 4300 digits; accepted text ends in a digit; a negative value starts with `-` |
| `Text.TrimWithoutSeparators` | scheduler.py:435 | on text without U+001C to U+001F, trimming what `int()` skips is the same as `str.strip()` |
| `Text.ParseIgnoresSpace` | scheduler.py:435 | `int(s) == int(s.strip())` for text without U+001C to U+001F, so such an unstripped timer field parses like a stripped one |
| `Text.SeparatorRefused` | scheduler.py:435 | `int()` rejects `"\x1c25"`, so the unstripped timer field refuses it |
| `Text.SeparatorStripped` | scheduler.py:303-311 | `int("\x1c25".strip())` is 25, so the stripped duration field accepts the same text |
| `Text.Decimal` | scheduler.py:469 | `str(n)` is non-empty and starts with `-` exactly when `n` is negative |
| `Text.DecimalThirty` | scheduler.py:345 | `str(30)` is the text `"30"` that the food-break preset writes |
| `Text.ParseDecimal` | scheduler.py:311 | round trip: `int(str(n)) == n` for every integer `n` of at most 4300 digits |
| `Text.ParsePadded` | scheduler.py:435 | whitespace that `int()` skips, before and after a number of at most 4300 digits written by `str(n)`, does not change what `int()` reads |
| `Schedule.ValidateSession` | scheduler.py:303-316 | `MissingInput` exactly when the stripped task or stripped duration is empty; accepted exactly when both are non-empty and `int()` of the stripped duration is positive; `InvalidDuration` exactly when both are non-empty and `int()` of the stripped duration fails or is not positive; on success, the stripped non-empty task and the positive minutes `int()` reads from the stripped duration |
| `Schedule.ValidateAccepts` | scheduler.py:337-347 | a task without surrounding whitespace and a positive count of at most 4300 digits written with `str()` always pass validation unchanged, so the preset breaks are never rejected |
| `Schedule.TruncateToMinute` | scheduler.py:350-351 | the result is on a whole minute, at most `now`, and less than a minute before `now` |
| `Schedule.LatestIndex` | scheduler.py:353 | the chosen session has an end no earlier than any other, and every earlier session ends strictly before it (the first maximum, as `max` picks) |
| `Schedule.CalculateStartTime` | scheduler.py:349-354 | empty log: a minute-aligned `t` with `t <= now < t + 60`; non-empty log: a value no earlier than every session's end and equal to some session's end |
| `Schedule.ChainedOrdered` | scheduler.py:318-330 | in a chained log, an earlier session ends no later than a later one starts, and starts strictly increase in append order |
| `Schedule.ChainedNoOverlap` | scheduler.py:318-330 | no two distinct sessions of a chained log overlap |
| `Schedule.ChainedLatest` | scheduler.py:353-354 | on a chained log the next start is the end of the last session appended |
| `Schedule.ChainedAppend` | scheduler.py:318-330 | a well-placed session appended at the computed start keeps the log chained |
| `Schedule.AlignedStart` | scheduler.py:319 | on a chained, minute-aligned log the computed start is minute-aligned |
| `Schedule.PlacementKeepsInvariant` | scheduler.py:318-330 | appending a `Study` session placed at the computed start keeps the log chained, minute-aligned and all `Study`, and that start is the end of the last session (or the current minute on an empty log) |
| `StudyProgress.StudyMinutes` | scheduler.py:424-425 | sessions of any other category contribute nothing: a log with no `Study` session has zero study minutes; what the sum is, is stated by `StudyProgress.StudyMinutesConcat` (additive over joined logs) and `StudyProgress.StudyMinutesAppend` (one append adds the duration exactly for `Study`) |
| `StudyProgress.Progress` | scheduler.py:423-428 | at most 100; non-negative when study minutes are; exactly 100 iff study minutes reach 360; below the goal, progress times 360 equals study minutes times 100 |
| `StudyProgress.StudyMinutesConcat` | scheduler.py:424-425 | the study-minute sum of two logs joined together is the sum of the two sums |
| `StudyProgress.StudyMinutesAppend` | scheduler.py:424-425 | appending a session adds its duration when its category is `Study`, and nothing otherwise |
| `StudyProgress.StudyMinutesNonNegative` | scheduler.py:424-425 | a log of positive-length sessions has non-negative study minutes |
| `StudyProgress.ProgressBounded` | scheduler.py:427-428 | progress of every chained log lies in [0, 100] |
| `StudyProgress.ProgressMonotone` | scheduler.py:423-428 | appending sessions of positive length never lowers progress |
| `StudyProgress.AllStudyMinutes` | scheduler.py:327 | when every session is `Study`, study minutes are all minutes in the log, breaks included |
| `Timers.WithTimer` | scheduler.py:442-452 | one record is appended after the unchanged earlier ones: id the old length, end `now + 60 * minutes`, the given minutes, active; removing the new id afterwards leaves what removing it before would; lookups of every other id are unaffected |
| `Timers.AlarmDuration` | scheduler.py:469 | the alarm text is `Timer completed! `, then `str(duration)`, then ` minutes elapsed.`, and `int()` reads the middle back as the duration (within 4300 digits) |
| `Timers.WithoutId` | scheduler.py:470 | a record survives exactly when it was present and its id differs from the completed one; the list never grows |
| `Timers.WithoutIdConcat` | scheduler.py:470 | removal by id distributes over concatenation, so surviving records keep their original order |
| `Timers.WithoutAbsentId` | scheduler.py:470 | a registry with no record for the id is left unchanged |
| `Timers.WithoutIdIdempotent` | scheduler.py:470 | removing the same id twice is the same as removing it once |
| `Timers.FirstWithId` | scheduler.py:461-463 | `None` exactly when no record carries the id; otherwise a record carrying the id at a position before which no record carries it |
| `Timers.FirstWithIdConcat` | scheduler.py:461 | lookup in a joined registry returns the first part's match if there is one, otherwise the second part's |
| `Timers.FreshIdWatched` | scheduler.py:443-461 | when no record already has id `len`, the watcher of the new timer finds that very timer |
| `Timers.IdsCanRepeat` | scheduler.py:443-470 | starting 1- and 10-minute timers, completing id 0, then starting a 30-minute timer gives two records with id 1; the new timer's watcher finds the older record, which ends earlier; completing id 1 removes both |
| `App.StudentScheduler.constructor` | scheduler.py:13-16 | both lists start empty and the invariant holds |
| `App.StudentScheduler.AddSession` | scheduler.py:302-335 | a rejection returns the validation error and leaves the log unchanged; an accepted call appends exactly one session after the unchanged earlier entries; that session starts at the computed start (the last end, or the current minute on an empty log), ends `duration` minutes later, records the stripped task, parsed minutes, given priority and `Study`; study minutes grow by its duration; progress does not drop; the invariant is kept; timers are untouched |
| `App.StudentScheduler.AppendSession` | scheduler.py:318-330 | after validation: appends exactly one session after the unchanged earlier entries, at the computed start, ending `minutes` later, with the given task, minutes, priority and `Study`; study minutes grow by `minutes`; progress does not drop; the invariant is kept; timers are untouched |
| `App.StudentScheduler.AddWaterBreak` | scheduler.py:337-341 | always accepted; appends "Water Break", 5 minutes, "High", `Study` at the computed start; study minutes grow by 5 |
| `App.StudentScheduler.AddFoodBreak` | scheduler.py:343-347 | always accepted; appends "Food Break", 30 minutes, "High", `Study` at the computed start; study minutes grow by 30 |
| `App.StudentScheduler.ClearSchedule` | scheduler.py:499-504 | confirmed: the log is empty, progress is 0, and the next start falls back to the current minute for every `now`; not confirmed: nothing changes |
| `App.StudentScheduler.StartTimer` | scheduler.py:433-458 | text that `int()` rejects, or zero or fewer minutes, gives `InvalidMinutes` and leaves the registry unchanged; otherwise appends one active timer with id equal to the old length and end `now + 60 * minutes`; the watcher holds the first record with that id, which is the new timer when the id was not already in use; the log is untouched |
| `App.StudentScheduler.RunTimer` | scheduler.py:460-471 | inactive watched record: no alarm, no change; before its end time: still waiting, no change; from its end time on: the alarm text for its duration, and the registry loses exactly the records with that id |

## Left out

- The window and everything drawn in it: widget construction, the schedule table (including its sort by start), the timer and progress labels, the charts, the motivational quotes, and the live clock thread. All of these are presentation.
- Warning and info dialogs and the alarm sound are platform calls. The model returns the warning as an `InputError` and the alarm as `TimerStep.Completed` with its message.
- Threads. Each timer's watcher runs as its own thread in the source. Here it is an explicit step, `RunTimer`, which the caller invokes with the current time. Its one-second sleep loop is a single poll per call.
- Form-field side effects. `add_session` clears the task field, and the break presets overwrite the task, duration and priority fields. The model passes the fields in as arguments and does not keep them.
- App.StudentScheduler.RunTimer: does not stop a caller polling a watcher again after it has completed. In the source that thread has already exited at that point.
- App.StudentScheduler.StartTimer: the watcher's lookup happens right after the append, so it always finds a record. The source's "no record found, return" branch is reachable only through a race between threads, which is not modelled.
- App.StudentScheduler.AddSession: does not model the `OverflowError` Python raises for a duration of at most 4300 digits that is beyond `datetime`'s range (years 1 to 9999). Integers here are unbounded. Longer digit strings are `InvalidDuration`, as `int()` raises `ValueError` for them.
- App.StudentScheduler.StartTimer: does not model the same `datetime` overflow for very large minute counts.
- Text.ParseInt: accepts only ASCII digits. Python's `int()` also accepts other Unicode decimal digits.
- Text.ParseInt: the 4300-digit limit is CPython's default. Changing it through `sys.set_int_max_str_digits` or `PYTHONINTMAXSTRDIGITS` is not modelled.
- Text.Decimal: `str()` of an integer of more than 4300 digits raises `ValueError` in CPython. The model writes every integer, and only applies `Decimal` in the proofs to values within the limit.
- Sub-second time. `now` is whole seconds, so zeroing microseconds is implicit. Truncating local time to the minute is assumed to equal truncating epoch seconds, which holds for whole-minute time-zone offsets.
- Progress as a float and its `.0f` percentage text. The model uses exact reals.
