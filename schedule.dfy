/**
 * The session log and its auto-chaining placement: how a new study session
 * is validated and where it is put on the timeline. Time is whole seconds
 * since an epoch; durations are in minutes.
 */
module Schedule {
  import opened Outcomes
  import Text

  /** The only category the scheduler ever records, break presets included. */
  const StudyCategory: string := "Study"

  /** One record of the log (the dictionary the scheduler appends). */
  datatype Session = Session(
    start: int,
    end: int,
    task: string,
    duration: int,
    priority: string,
    category: string)

  /** What placement guarantees of a single session: a positive length and an end `duration` minutes after its start. */
  predicate WellPlaced(s: Session) {
    s.duration > 0 && s.end == s.start + 60 * s.duration
  }

  /** A log in which every session is well placed and starts where the one before it ends. */
  predicate Chained(log: seq<Session>) {
    (forall i :: 0 <= i < |log| ==> WellPlaced(log[i]))
    && (forall i :: 0 < i < |log| ==> log[i].start == log[i - 1].end)
  }

  /** Every session starts on a whole minute. */
  predicate MinuteAligned(log: seq<Session>) {
    forall i :: 0 <= i < |log| ==> log[i].start % 60 == 0
  }

  /** Every session carries the `Study` category. */
  predicate AllStudy(log: seq<Session>) {
    forall i :: 0 <= i < |log| ==> log[i].category == StudyCategory
  }

  /** Two sessions share no time. */
  predicate Disjoint(a: Session, b: Session) {
    a.end <= b.start || b.end <= a.start
  }

  /**
   * The form check of `add_session`: task and duration fields are stripped;
   * an empty one is `MissingInput`; a duration that `int()` rejects or that
   * is not positive is `InvalidDuration`; otherwise the stripped task and the
   * number of minutes.
   */
  function ValidateSession(taskInput: string, durationInput: string): (r: Result<(string, int)>)
    ensures r == Err(MissingInput) <==> Text.Strip(taskInput) == [] || Text.Strip(durationInput) == []
    ensures r == Err(InvalidDuration) <==>
              Text.Strip(taskInput) != [] && Text.Strip(durationInput) != []
              && (Text.ParseInt(Text.Strip(durationInput)).None? || Text.ParseInt(Text.Strip(durationInput)).value <= 0)
    ensures r.Ok? <==> Text.Strip(taskInput) != [] && Text.Strip(durationInput) != []
                       && Text.ParseInt(Text.Strip(durationInput)).Some? && Text.ParseInt(Text.Strip(durationInput)).value > 0
    ensures r.Ok? ==> r.value.0 == Text.Strip(taskInput) && r.value.0 != []
                      && Text.ParseInt(Text.Strip(durationInput)) == Some(r.value.1) && r.value.1 > 0
  {
    var task := Text.Strip(taskInput);
    var duration := Text.Strip(durationInput);
    if task == [] || duration == [] then Err(MissingInput)
    else match Text.ParseInt(duration)
      case None => Err(InvalidDuration)
      case Some(n) => if n <= 0 then Err(InvalidDuration) else Ok((task, n))
  }

  /** A non-blank task without surrounding whitespace and a positive number written out by `str()` pass the form check unchanged. */
  lemma ValidateAccepts(task: string, minutes: int)
    requires task != [] && !Text.IsSpace(task[0]) && !Text.IsSpace(task[|task| - 1])
    requires minutes > 0 && |Text.NatDigits(minutes)| <= Text.IntMaxStrDigits
    ensures ValidateSession(task, Text.Decimal(minutes)) == Ok((task, minutes))
  {
    Text.TrimmedWord(task, Text.StripBlanks);
    Text.DecimalNoSpace(minutes);
    Text.StripNoSpace(Text.Decimal(minutes));
    Text.ParseDecimal(minutes);
  }

  /** `now` with its seconds zeroed: the start of the current minute. */
  function TruncateToMinute(now: int): (t: int)
    ensures t % 60 == 0 && t <= now < t + 60
  {
    now - now % 60
  }

  /**
   * The position `max(log, key=end)` picks: a session whose end is the
   * latest, and the first such one.
   */
  function LatestIndex(log: seq<Session>): (k: nat)
    requires log != []
    ensures k < |log|
    ensures forall i :: 0 <= i < |log| ==> log[i].end <= log[k].end
    ensures forall i :: 0 <= i < k ==> log[i].end < log[k].end
  {
    if |log| == 1 then 0
    else
      var k := LatestIndex(log[..|log| - 1]);
      assert forall i :: 0 <= i < |log| - 1 ==> log[i] == log[..|log| - 1][i];
      if log[|log| - 1].end > log[k].end then |log| - 1 else k
  }

  /**
   * Where `calculate_start_time` puts the next session: the start of the
   * current minute on an empty log, otherwise the latest end in the log.
   */
  function CalculateStartTime(log: seq<Session>, now: int): (t: int)
    ensures log == [] ==> t % 60 == 0 && t <= now < t + 60
    ensures log != [] ==> (forall i :: 0 <= i < |log| ==> log[i].end <= t)
                          && (exists i :: 0 <= i < |log| && log[i].end == t)
  {
    if log == [] then TruncateToMinute(now) else log[LatestIndex(log)].end
  }

  /** In a chained log each session lies wholly before every later one, so starts strictly increase. */
  lemma {:induction false} ChainedOrdered(log: seq<Session>, i: nat, j: nat)
    requires Chained(log)
    requires i < j < |log|
    ensures log[i].end <= log[j].start
    ensures log[i].start < log[j].start
  {
    assert WellPlaced(log[i]) && WellPlaced(log[j - 1]);
    if j > i + 1 {
      ChainedOrdered(log, i, j - 1);
    }
  }

  /** No two sessions of a chained log overlap. */
  lemma ChainedNoOverlap(log: seq<Session>)
    requires Chained(log)
    ensures forall i, j :: 0 <= i < |log| && 0 <= j < |log| && i != j ==> Disjoint(log[i], log[j])
  {
    forall i, j | 0 <= i < |log| && 0 <= j < |log| && i != j
      ensures Disjoint(log[i], log[j])
    {
      if i < j { ChainedOrdered(log, i, j); } else { ChainedOrdered(log, j, i); }
    }
  }

  /** On a chained log the latest end is the end of the last session appended. */
  lemma ChainedLatest(log: seq<Session>, now: int)
    requires Chained(log) && log != []
    ensures CalculateStartTime(log, now) == log[|log| - 1].end
  {
    var k := LatestIndex(log);
    assert WellPlaced(log[|log| - 1]);
    if k < |log| - 1 {
      ChainedOrdered(log, k, |log| - 1);
    }
  }

  /** Placing a well-formed session at `CalculateStartTime` keeps the log chained. */
  lemma ChainedAppend(log: seq<Session>, s: Session, now: int)
    requires Chained(log) && WellPlaced(s)
    requires s.start == CalculateStartTime(log, now)
    ensures Chained(log + [s])
  {
    if log != [] {
      ChainedLatest(log, now);
    }
    var log' := log + [s];
    assert forall i :: 0 <= i < |log| ==> log'[i] == log[i];
  }

  /** A minute-aligned, chained log yields a minute-aligned start for the next session. */
  lemma AlignedStart(log: seq<Session>, now: int)
    requires Chained(log) && MinuteAligned(log)
    ensures CalculateStartTime(log, now) % 60 == 0
  {
    if log != [] {
      ChainedLatest(log, now);
      assert WellPlaced(log[|log| - 1]);
    }
  }

  /**
   * Appending a `Study` session placed at the computed start keeps the log
   * chained, minute-aligned and all `Study`, and that start is where the log
   * ended (or the current minute on an empty log).
   */
  lemma PlacementKeepsInvariant(log: seq<Session>, s: Session, now: int)
    requires Chained(log) && MinuteAligned(log) && AllStudy(log)
    requires WellPlaced(s) && s.category == StudyCategory
    requires s.start == CalculateStartTime(log, now)
    ensures Chained(log + [s]) && MinuteAligned(log + [s]) && AllStudy(log + [s])
    ensures s.start == if log == [] then TruncateToMinute(now) else log[|log| - 1].end
  {
    ChainedAppend(log, s, now);
    AlignedStart(log, now);
    if log != [] {
      ChainedLatest(log, now);
    }
    var log' := log + [s];
    assert forall i :: 0 <= i < |log| ==> log'[i] == log[i];
  }
}
