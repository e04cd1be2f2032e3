/**
 * The countdown-timer registry: the records `start_timer` appends and the
 * completion step of `run_timer`, which drops every record with the
 * completed timer's id.
 */
module Timers {
  import opened Outcomes
  import Text

  /** One entry of the registry. `active` is set on creation and never cleared. */
  datatype Timer = Timer(id: nat, endTime: int, duration: int, active: bool)

  /**
   * What a timer's watcher thread holds: the id it was started for and the
   * record it found for that id when it began (`next(...)` over the registry).
   */
  datatype Watcher = Watcher(timerId: nat, watched: Timer)

  /** One poll of a watcher: still counting down, completed with its alarm text, or finished without an alarm. */
  datatype TimerStep = Waiting | Completed(message: string) | Inactive

  /** The registry after `start_timer` accepts `minutes` at time `now`: the id is the old length. */
  function WithTimer(timers: seq<Timer>, minutes: int, now: int): (r: seq<Timer>)
    ensures |r| == |timers| + 1 && r[..|timers|] == timers
    ensures r[|timers|] == Timer(|timers|, now + 60 * minutes, minutes, true)
    ensures WithoutId(r, |timers|) == WithoutId(timers, |timers|)
    ensures forall id :: id != |timers| ==> FirstWithId(r, id) == FirstWithId(timers, id)
  {
    var t := Timer(|timers|, now + 60 * minutes, minutes, true);
    WithoutIdConcat(timers, [t], |timers|);
    assert WithoutId([t], |timers|) == [];
    assert forall id :: id != |timers| ==> FirstWithId(timers + [t], id) == FirstWithId(timers, id) by {
      forall id | id != |timers|
        ensures FirstWithId(timers + [t], id) == FirstWithId(timers, id)
      {
        FirstWithIdConcat(timers, [t], id);
      }
    }
    timers + [t]
  }

  /** The registry without the records carrying `id`, in their original order: the list comprehension of `run_timer`. */
  function WithoutId(timers: seq<Timer>, id: nat): (r: seq<Timer>)
    ensures forall t :: t in r <==> t in timers && t.id != id
    ensures |r| <= |timers|
  {
    if timers == [] then []
    else (if timers[0].id == id then [] else [timers[0]]) + WithoutId(timers[1..], id)
  }

  /** `next((t for t in timers if t['id'] == id), None)`: the first record carrying `id`. */
  function FirstWithId(timers: seq<Timer>, id: nat): (r: Option<Timer>)
    ensures r.None? <==> forall i :: 0 <= i < |timers| ==> timers[i].id != id
    ensures r.Some? ==> exists i :: 0 <= i < |timers| && timers[i] == r.value && r.value.id == id
                                    && forall j :: 0 <= j < i ==> timers[j].id != id
  {
    if timers == [] then None
    else if timers[0].id == id then Some(timers[0])
    else
      var r := FirstWithId(timers[1..], id);
      assert forall i :: 1 <= i < |timers| ==> timers[i] == timers[1..][i - 1];
      r
  }

  /** The text the alarm shows when a timer of `duration` minutes completes. */
  function AlarmMessage(duration: int): string {
    "Timer completed! " + Text.Decimal(duration) + " minutes elapsed."
  }

  /**
   * The alarm text carries the duration between its fixed opening and closing
   * words, and `int()` reads that middle part back as the duration.
   */
  lemma AlarmDuration(duration: int)
    requires |Text.NatDigits(Text.Magnitude(duration))| <= Text.IntMaxStrDigits
    ensures var m := AlarmMessage(duration);
      |m| > 34 && m[..17] == "Timer completed! " && m[|m| - 17..] == " minutes elapsed."
      && Text.ParseInt(m[17..|m| - 17]) == Some(duration)
  {
    var opening, closing := "Timer completed! ", " minutes elapsed.";
    var d := Text.Decimal(duration);
    var m := opening + d + closing;
    assert |opening| == 17 && |closing| == 17;
    assert m[..17] == opening && m[|m| - 17..] == closing && m[17..|m| - 17] == d;
    Text.ParseDecimal(duration);
  }

  /** Removing by id distributes over concatenation, so the kept records stay in order. */
  lemma {:induction false} WithoutIdConcat(a: seq<Timer>, b: seq<Timer>, id: nat)
    ensures WithoutId(a + b, id) == WithoutId(a, id) + WithoutId(b, id)
  {
    if a == [] {
      assert a + b == b;
    } else {
      assert (a + b)[1..] == a[1..] + b;
      WithoutIdConcat(a[1..], b, id);
    }
  }

  /** A registry with no record for `id` is left as it is. */
  lemma {:induction false} WithoutAbsentId(timers: seq<Timer>, id: nat)
    requires forall i :: 0 <= i < |timers| ==> timers[i].id != id
    ensures WithoutId(timers, id) == timers
  {
    if timers != [] {
      WithoutAbsentId(timers[1..], id);
    }
  }

  /** Removing the same id twice is removing it once. */
  lemma {:induction false} WithoutIdIdempotent(timers: seq<Timer>, id: nat)
    ensures WithoutId(WithoutId(timers, id), id) == WithoutId(timers, id)
  {
    var r := WithoutId(timers, id);
    forall i | 0 <= i < |r| ensures r[i].id != id {
      assert r[i] in r;
    }
    WithoutAbsentId(r, id);
  }

  /** A timer started when no record has id `|timers|` is the record its own watcher finds. */
  lemma FreshIdWatched(timers: seq<Timer>, minutes: int, now: int)
    requires forall i :: 0 <= i < |timers| ==> timers[i].id != |timers|
    ensures FirstWithId(WithTimer(timers, minutes, now), |timers|)
            == Some(Timer(|timers|, now + 60 * minutes, minutes, true))
  {
    var after := WithTimer(timers, minutes, now);
    FirstWithIdConcat(timers, [after[|timers|]], |timers|);
    assert after == timers + [after[|timers|]];
  }

  /** Lookup finds the first part's record when it has one, and looks further otherwise. */
  lemma {:induction false} FirstWithIdConcat(a: seq<Timer>, b: seq<Timer>, id: nat)
    ensures FirstWithId(a + b, id) == if FirstWithId(a, id).Some? then FirstWithId(a, id) else FirstWithId(b, id)
  {
    if a == [] {
      assert a + b == b;
    } else {
      assert (a + b)[1..] == a[1..] + b;
      FirstWithIdConcat(a[1..], b, id);
    }
  }

  /**
   * Ids are not unique: start two timers, let the first complete, start a
   * third; it gets the id of the second, its watcher finds the second's
   * record, and completing that id removes both.
   */
  lemma IdsCanRepeat(now: int)
    ensures var one := WithTimer([], 1, now);
            var two := WithTimer(one, 10, now);
            var left := WithoutId(two, 0);
            var three := WithTimer(left, 30, now + 60);
            |three| == 2 && three[0].id == three[1].id == 1
            && FirstWithId(three, 1) == Some(three[0])
            && three[0].endTime < three[1].endTime
            && WithoutId(three, 1) == []
  {
    var one := WithTimer([], 1, now);
    var two := WithTimer(one, 10, now);
    assert WithoutId(two, 0) == [two[1]] by {
      assert two[1..][1..] == [];
    }
  }
}
