/**
 * The progress figure `update_progress` shows: study minutes in the log
 * against a six-hour daily goal, capped at 100 percent. Computed in exact
 * rationals.
 */
module StudyProgress {
  import opened Schedule

  /** The daily goal: six hours. */
  const GoalMinutes: int := 6 * 60

  /** Sum of `duration` over the sessions whose category is `Study`. */
  function StudyMinutes(log: seq<Session>): (r: int)
    ensures (forall i :: 0 <= i < |log| ==> log[i].category != StudyCategory) ==> r == 0
  {
    if log == [] then 0
    else
      assert forall i :: 0 <= i < |log| - 1 ==> log[1..][i] == log[i + 1];
      (if log[0].category == StudyCategory then log[0].duration else 0) + StudyMinutes(log[1..])
  }

  /**
   * `min(100, StudyMinutes / 360 * 100)`: never above 100, exactly 100 once
   * the goal is met, and otherwise the study share of the goal in percent.
   */
  function Progress(log: seq<Session>): (p: real)
    ensures p <= 100.0
    ensures StudyMinutes(log) >= 0 ==> 0.0 <= p
    ensures p == 100.0 <==> StudyMinutes(log) >= GoalMinutes
    ensures StudyMinutes(log) < GoalMinutes ==> p * (GoalMinutes as real) == (StudyMinutes(log) as real) * 100.0
  {
    var percent := (StudyMinutes(log) as real / GoalMinutes as real) * 100.0;
    if percent < 100.0 then percent else 100.0
  }

  /** Study minutes of two logs put end to end add up. */
  lemma {:induction false} StudyMinutesConcat(a: seq<Session>, b: seq<Session>)
    ensures StudyMinutes(a + b) == StudyMinutes(a) + StudyMinutes(b)
  {
    if a != [] {
      assert (a + b)[1..] == a[1..] + b;
      StudyMinutesConcat(a[1..], b);
    } else {
      assert a + b == b;
    }
  }

  /** Appending one session adds its duration if it is a `Study` session, nothing otherwise. */
  lemma StudyMinutesAppend(log: seq<Session>, s: Session)
    ensures StudyMinutes(log + [s]) == StudyMinutes(log) + (if s.category == StudyCategory then s.duration else 0)
  {
    StudyMinutesConcat(log, [s]);
  }

  /** A log of positive-length sessions has non-negative study minutes. */
  lemma {:induction false} StudyMinutesNonNegative(log: seq<Session>)
    requires forall i :: 0 <= i < |log| ==> log[i].duration > 0
    ensures StudyMinutes(log) >= 0
  {
    if log != [] {
      assert forall i :: 0 <= i < |log| - 1 ==> log[1..][i] == log[i + 1];
      StudyMinutesNonNegative(log[1..]);
    }
  }

  /** Progress of any chained log lies in [0, 100]. */
  lemma ProgressBounded(log: seq<Session>)
    requires Chained(log)
    ensures 0.0 <= Progress(log) <= 100.0
  {
    StudyMinutesNonNegative(log);
  }

  /** Progress never drops when sessions of positive length are appended. */
  lemma ProgressMonotone(log: seq<Session>, more: seq<Session>)
    requires forall i :: 0 <= i < |more| ==> more[i].duration > 0
    ensures Progress(log) <= Progress(log + more)
  {
    StudyMinutesConcat(log, more);
    StudyMinutesNonNegative(more);
  }

  /** Sum of `duration` over the whole log, whatever the category. */
  function TotalMinutes(log: seq<Session>): int {
    if log == [] then 0 else log[0].duration + TotalMinutes(log[1..])
  }

  /** With every session recorded as `Study`, study minutes are all the minutes in the log. */
  lemma {:induction false} AllStudyMinutes(log: seq<Session>)
    requires AllStudy(log)
    ensures StudyMinutes(log) == TotalMinutes(log)
  {
    if log != [] {
      assert forall i :: 0 <= i < |log| - 1 ==> log[1..][i] == log[i + 1];
      AllStudyMinutes(log[1..]);
    }
  }
}
