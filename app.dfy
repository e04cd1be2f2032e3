/**
 * The scheduler object: the session log `schedule_data` and the timer
 * registry `current_timers`, with the operations the buttons of the window
 * trigger. Form fields arrive as text, the clock reading `now` (seconds) and
 * the answer to the "Clear entire schedule?" question arrive as arguments.
 */
module App {
  import opened Outcomes
  import opened Schedule
  import opened StudyProgress
  import opened Timers
  import Text

  class StudentScheduler {
    var scheduleData: seq<Session>
    var currentTimers: seq<Timer>

    /** The log is a contiguous, minute-aligned run of `Study` sessions; every timer is active and positive. */
    ghost predicate Valid()
      reads this
    {
      Chained(scheduleData) && MinuteAligned(scheduleData) && AllStudy(scheduleData)
      && (forall t :: t in currentTimers ==> t.active && t.duration > 0)
    }

    constructor ()
      ensures Valid()
      ensures scheduleData == [] && currentTimers == []
    {
      scheduleData := [];
      currentTimers := [];
    }

    /**
     * `add_session`: a rejected form leaves the log as it was; an accepted
     * one appends a single `Study` session that starts where the log ends
     * (or at the current minute on an empty log) and lasts the given minutes.
     */
    method AddSession(taskInput: string, durationInput: string, priority: string, now: int)
      returns (r: Result<Session>)
      requires Valid()
      modifies this
      ensures Valid()
      ensures currentTimers == old(currentTimers)
      ensures r.Err? <==> ValidateSession(taskInput, durationInput).Err?
      ensures r.Err? ==> r.error == ValidateSession(taskInput, durationInput).error
                         && scheduleData == old(scheduleData)
      ensures r.Ok? ==> scheduleData == old(scheduleData) + [r.value]
      ensures r.Ok? ==>
                r.value.start == CalculateStartTime(old(scheduleData), now)
                && r.value.end == r.value.start + 60 * r.value.duration
                && r.value.task == ValidateSession(taskInput, durationInput).value.0
                && r.value.duration == ValidateSession(taskInput, durationInput).value.1
                && r.value.priority == priority
                && r.value.category == StudyCategory
      ensures r.Ok? ==> r.value.start == if old(scheduleData) == [] then TruncateToMinute(now)
                                         else old(scheduleData)[|old(scheduleData)| - 1].end
      ensures r.Ok? ==> StudyMinutes(scheduleData) == old(StudyMinutes(scheduleData)) + r.value.duration
      ensures Progress(old(scheduleData)) <= Progress(scheduleData)
    {
      var v := ValidateSession(taskInput, durationInput);
      if v.Err? {
        return Err(v.error);
      }
      var session := AppendSession(v.value.0, v.value.1, priority, now);
      r := Ok(session);
    }

    /**
     * The placement half of `add_session`, once the form has passed
     * validation: a `Study` session of `minutes` minutes is appended at the
     * computed start.
     */
    method AppendSession(task: string, minutes: int, priority: string, now: int)
      returns (session: Session)
      requires Valid() && minutes > 0
      modifies this
      ensures Valid()
      ensures currentTimers == old(currentTimers)
      ensures scheduleData == old(scheduleData) + [session]
      ensures session == Session(CalculateStartTime(old(scheduleData), now), session.start + 60 * minutes,
                                 task, minutes, priority, StudyCategory)
      ensures session.start == if old(scheduleData) == [] then TruncateToMinute(now)
                               else old(scheduleData)[|old(scheduleData)| - 1].end
      ensures StudyMinutes(scheduleData) == old(StudyMinutes(scheduleData)) + minutes
      ensures Progress(old(scheduleData)) <= Progress(scheduleData)
    {
      var start := CalculateStartTime(scheduleData, now);
      session := Session(start, start + 60 * minutes, task, minutes, priority, StudyCategory);
      PlacementKeepsInvariant(scheduleData, session, now);
      StudyMinutesAppend(scheduleData, session);
      ProgressMonotone(scheduleData, [session]);
      scheduleData := scheduleData + [session];
    }

    /** `add_water_break`: always accepted; five minutes of "Water Break", high priority, counted as study. */
    method AddWaterBreak(now: int) returns (r: Result<Session>)
      requires Valid()
      modifies this
      ensures Valid()
      ensures currentTimers == old(currentTimers)
      ensures r.Ok? && scheduleData == old(scheduleData) + [r.value]
      ensures r.value == Session(CalculateStartTime(old(scheduleData), now), r.value.start + 5 * 60,
                                 "Water Break", 5, "High", StudyCategory)
      ensures StudyMinutes(scheduleData) == old(StudyMinutes(scheduleData)) + 5
    {
      ValidateAccepts("Water Break", 5);
      assert Text.Decimal(5) == "5";
      r := AddSession("Water Break", "5", "High", now);
    }

    /** `add_food_break`: always accepted; thirty minutes of "Food Break", high priority, counted as study. */
    method AddFoodBreak(now: int) returns (r: Result<Session>)
      requires Valid()
      modifies this
      ensures Valid()
      ensures currentTimers == old(currentTimers)
      ensures r.Ok? && scheduleData == old(scheduleData) + [r.value]
      ensures r.value == Session(CalculateStartTime(old(scheduleData), now), r.value.start + 30 * 60,
                                 "Food Break", 30, "High", StudyCategory)
      ensures StudyMinutes(scheduleData) == old(StudyMinutes(scheduleData)) + 30
    {
      ValidateAccepts("Food Break", 30);
      Text.DecimalThirty();
      r := AddSession("Food Break", "30", "High", now);
    }

    /**
     * `clear_schedule`: once confirmed the log is empty, progress is zero and
     * the next session is placed at the current minute; otherwise nothing changes.
     */
    method ClearSchedule(confirmed: bool)
      requires Valid()
      modifies this
      ensures Valid()
      ensures currentTimers == old(currentTimers)
      ensures scheduleData == if confirmed then [] else old(scheduleData)
      ensures confirmed ==> Progress(scheduleData) == 0.0
      ensures confirmed ==> forall t :: CalculateStartTime(scheduleData, t) == TruncateToMinute(t)
    {
      if confirmed {
        scheduleData := [];
      }
    }

    /**
     * `start_timer`: text that `int()` rejects or a count that is not
     * positive leaves the registry as it was; otherwise one active timer is
     * appended whose id is the registry's old length and which ends `minutes`
     * after `now`. The watcher returned holds the first record with that id.
     */
    method StartTimer(minutesInput: string, now: int) returns (r: Result<Watcher>)
      requires Valid()
      modifies this
      ensures Valid()
      ensures scheduleData == old(scheduleData)
      ensures r.Err? <==> Text.ParseInt(minutesInput).None? || Text.ParseInt(minutesInput).value <= 0
      ensures r.Err? ==> r.error == InvalidMinutes && currentTimers == old(currentTimers)
      ensures r.Ok? ==>
                currentTimers == WithTimer(old(currentTimers), Text.ParseInt(minutesInput).value, now)
                && r.value.timerId == |old(currentTimers)|
                && FirstWithId(currentTimers, r.value.timerId) == Some(r.value.watched)
      ensures r.Ok? && (forall i :: 0 <= i < |old(currentTimers)| ==> old(currentTimers)[i].id != |old(currentTimers)|)
              ==> r.value.watched == currentTimers[|currentTimers| - 1]
    {
      var parsed := Text.ParseInt(minutesInput);
      if parsed.None? || parsed.value <= 0 {
        return Err(InvalidMinutes);
      }
      var minutes := parsed.value;
      var id := |currentTimers|;
      if forall i :: 0 <= i < |currentTimers| ==> currentTimers[i].id != id {
        FreshIdWatched(currentTimers, minutes, now);
      }
      currentTimers := WithTimer(currentTimers, minutes, now);
      assert currentTimers[|currentTimers| - 1].id == id;
      var found := FirstWithId(currentTimers, id);
      r := Ok(Watcher(id, found.value));
    }

    /**
     * One poll of the watcher thread of `run_timer`: an inactive record ends
     * the watcher without an alarm; before the watched end time it keeps
     * waiting; from then on it raises the alarm and removes every record
     * with its id, keeping the others in order.
     */
    method RunTimer(w: Watcher, now: int) returns (step: TimerStep)
      requires Valid()
      modifies this
      ensures Valid()
      ensures scheduleData == old(scheduleData)
      ensures !w.watched.active ==> step == Inactive && currentTimers == old(currentTimers)
      ensures w.watched.active && now < w.watched.endTime ==>
                step == Waiting && currentTimers == old(currentTimers)
      ensures w.watched.active && now >= w.watched.endTime ==>
                step == Completed(AlarmMessage(w.watched.duration))
                && currentTimers == WithoutId(old(currentTimers), w.timerId)
    {
      if !w.watched.active {
        return Inactive;
      }
      if now < w.watched.endTime {
        return Waiting;
      }
      currentTimers := WithoutId(currentTimers, w.timerId);
      step := Completed(AlarmMessage(w.watched.duration));
    }
  }
}
