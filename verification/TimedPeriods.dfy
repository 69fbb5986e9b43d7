/** The schedule of the timer: a step is in a period that contains it, and periods run from the last restart by hand. */
module TimedPeriods {
  import opened PoolFile
  import opened TimedSwitch
  import opened TimedRuns

  /** The period that begins at `start` contains the time. */
  predicate Contains(start: int, length: int, now: int) {
    start <= now < start + length
  }

  /** `at` is a whole number of periods after `begin`. */
  ghost predicate PeriodsFrom(begin: int, length: int, at: int) {
    exists k: int :: k >= 0 && at == begin + k * length
  }

  lemma PeriodIs(now: int, anchor: int, length: int)
    requires length > 0 && now > 0
    ensures var start := PeriodStart(now, anchor, length);
            && Contains(start, length, now)
            && PeriodsFrom(if anchor == 0 || now < anchor then 0 else anchor, length, start)
  {
    var begin := if anchor == 0 || now < anchor then 0 else anchor;
    var k := (now - begin) / length;
    assert now - begin == k * length + (now - begin) % length;
    assert k >= 0;
    assert PeriodStart(now, anchor, length) == begin + k * length;
  }

  /** A period that begins before the next one begins and after the one before is this one. */
  lemma OnePeriod(begin: int, length: int, at: int)
    requires length > 0 && PeriodsFrom(begin, length, at)
    ensures at >= begin && (at < begin + length ==> at == begin) && (at > begin ==> at >= begin + length)
  {
    var k :| k >= 0 && at == begin + k * length;
    if k > 0 {
      assert k * length == length + (k - 1) * length && (k - 1) * length >= 0;
    }
  }

  // ---- what an operation saves ----

  predicate OnSchedule(s: Saved, period: int, anchor: int) {
    s.period == period && s.anchor == anchor
  }

  ghost predicate SavesOnly(o: Outcome, period: int, anchor: int) {
    OnSchedule(o.mem.saved, period, anchor) && forall x :: x in o.writes && x.ToTimed? ==> OnSchedule(x.saved, period, anchor)
  }

  ghost predicate SavesSame(m: Memory, o: Outcome) {
    SavesOnly(o, m.saved.period, m.saved.anchor)
  }

  lemma BookedSame(m: Memory, a: Away, final: bool, now: int)
    ensures var b := Booked(m, a, final, now).saved; OnSchedule(b, m.saved.period, m.saved.anchor)
  {
    hide KeptStints;
  }

  lemma ReturningSaves(m: Memory, f: File, a: Away, final: bool, i: Input)
    ensures SavesSame(m, Returning(m, f, a, final, i))
  {
    BookedSame(m.(hold := true), a, true, i.now);
    BookedSame(m, a, true, i.now);
    BookedSame(m, a, final, i.now);
    hide Booked, Restored, Has;
  }

  lemma HandedOverSaves(m: Memory, a: Away, reason: Reason, period: int, now: int)
    ensures SavesSame(m, HandedOver(m, a, reason, period, now))
  {
    BookedSame(m, a, true, now);
    hide Booked;
  }

  lemma LeavingSaves(m: Memory, f: File, a: Away, i: Input)
    ensures SavesSame(m, Leaving(m, f, a, i))
  {
    hide Activated;
  }

  lemma StepSaves(m: Memory, f: File, i: Input)
    requires i.period > 0
    ensures SavesOnly(StepOf(m, f, i), PeriodAt(m, i), m.saved.anchor)
  {
    var m1, h, period := Noted(m, f, i), Look(m, f, i), PeriodAt(m, i);
    assert m1.saved.away == m.saved.away && OnSchedule(m1.saved, period, m.saved.anchor) by {
      hide PeriodStart, HuntTargetOf;
    }
    match m.saved.away
    case Some(a) =>
      ReturningSaves(m1, f, a, true, i);
      ReturningSaves(m1, f, a, false, i);
      HandedOverSaves(m1, a, Timer, period, i.now);
      HandedOverSaves(m1, a, Hunt, 0, i.now);
      hide PeriodAt, Look, Noted, Returning, HandedOver, TargetOf, MayLeave, LeftAt, HardAt, TimerOn, Has;
    case None =>
      HomeStepSaves(m1, f, h, MayLeave(m, f, i), HardAt(f, i), i, period);
      hide PeriodAt, Look, Noted, HomeStep, MayLeave, LeftAt, HardAt, TimerOn;
  }

  lemma HomeStepSaves(m: Memory, f: File, h: HuntView, mayLeave: bool, hard: real, i: Input, period: int)
    requires mayLeave ==> TargetOf(f.pools).Some?
    ensures SavesSame(m, HomeStep(m, f, h, mayLeave, hard, i, period))
  {
    if mayLeave {
      LeavingSaves(m, f, Away(Timer, period, i.now, TargetOf(f.pools).value, "", [], []), i);
    }
    LeavingSaves(m, f, Away(Hunt, 0, i.now, h.target, "", [], []), i);
    hide Leaving, TargetOf, Wants;
  }

  /** After a whole step, whatever happened before, the period noted down contains the step; it begins a whole number
      of periods after the last restart by hand, or after the zero time when there was none. */
  lemma StepIsInItsPeriod(w: World, events: seq<Event>, i: Input)
    requires AllTimely(events) && i.period > 0 && i.now > 0
    ensures var anchor, s := Play(w, events).mem.saved.anchor, After(Play(w, events), Step(i, None)).mem.saved;
            && s.anchor == anchor && Contains(s.period, i.period, i.now)
            && PeriodsFrom(if anchor == 0 || i.now < anchor then 0 else anchor, i.period, s.period)
  {
    var v := Play(w, events);
    hide StepOf, PeriodStart, Play;
    StepSaves(v.mem, v.file, i);
    PeriodIs(i.now, v.mem.saved.anchor, i.period);
  }

  // ---- after a restart by hand ----

  /** The schedule begins anew; the proxy may stop once that is saved. */
  predicate Restarts(w: World, e: Event) {
    e.StartNow? && CanStart(w.file, e.i).Started? && e.cut != Some(0)
  }

  /** No other restart, periods of one length, and no step before the time t. */
  ghost predicate Follows(w: World, events: seq<Event>, t: int, length: int) {
    && AllTimely(events)
    && forall n {:trigger events[n]} :: 0 <= n < |events| ==>
         && !Restarts(Play(w, events[..n]), events[n])
         && (events[n].Step? ==> events[n].i.period == length && t <= events[n].i.now)
  }

  predicate StepsBefore(events: seq<Event>, end: int) {
    forall n :: 0 <= n < |events| && events[n].Step? ==> events[n].i.now < end
  }

  /** In memory and on disk the schedule runs from t. */
  ghost predicate RunsFrom(w: World, t: int, length: int) {
    && w.mem.saved.anchor == t && PeriodsFrom(t, length, w.mem.saved.period)
    && w.timed.anchor == t && PeriodsFrom(t, length, w.timed.period)
  }

  predicate InFirst(w: World, t: int) {
    w.mem.saved.period == t && w.timed.period == t
  }

  lemma SavedSchedule(t: Saved, o: Outcome, made: seq<Write>, period: int, anchor: int)
    requires SavesOnly(o, period, anchor) && made <= o.writes
    ensures TimedAfter(t, made) == t || OnSchedule(TimedAfter(t, made), period, anchor)
  {
    TimedAfterCases(t, made);
    if ToTimed(TimedAfter(t, made)) in made {
      assert ToTimed(TimedAfter(t, made)) in o.writes;
    }
  }

  lemma StepFollows(w: World, i: Input, cut: Option<int>, t: int)
    requires RunsFrom(w, t, i.period) && 0 < t <= i.now && i.period > 0
    ensures var w' := After(w, Step(i, cut));
            && RunsFrom(w', t, i.period)
            && (cut.None? ==> Contains(w'.mem.saved.period, i.period, i.now))
            && (i.now < t + i.period && InFirst(w, t) ==> InFirst(w', t))
  {
    var o := StepOf(w.mem, w.file, i);
    StepSaves(w.mem, w.file, i);
    PeriodIs(i.now, t, i.period);
    OnePeriod(t, i.period, PeriodAt(w.mem, i));
    OnePeriod(t, i.period, w.timed.period);
    var made := match cut case None => o.writes case Some(k) => if 0 <= k <= |o.writes| then o.writes[..k] else o.writes;
    SavedSchedule(w.timed, o, made, PeriodAt(w.mem, i), t);
    hide StepOf, PeriodStart, TimedAfter, FileAfter, PeriodsFrom;
  }

  lemma EventFollows(w: World, e: Event, t: int, length: int)
    requires Timely(e) && RunsFrom(w, t, length) && 0 < t && 0 < length && !Restarts(w, e)
    requires e.Step? ==> e.i.period == length && t <= e.i.now
    ensures var w' := After(w, e);
            && RunsFrom(w', t, length)
            && (e.Step? && e.cut.None? ==> Contains(w'.mem.saved.period, length, e.i.now))
            && ((e.Step? ==> e.i.now < t + length) && InFirst(w, t) ==> InFirst(w', t))
  {
    hide StepOf, PeriodsFrom;
    match e
    case Step(i, cut) => StepFollows(w, i, cut, t);
    case StartNow(i, cut) =>
      OnePeriod(t, length, w.timed.period);
      var o := StartOf(w.mem, w.file, i);
      if cut != Some(0) {
        assert o.writes == [];
      } else {
        assert o.writes[..0] == [];
      }
    case Operator(_, _) =>
  }

  lemma RestartBegins(w: World, e: Event, length: int)
    requires Timely(e) && Restarts(w, e)
    ensures RunsFrom(After(w, e), e.i.now, length) && InFirst(After(w, e), e.i.now)
  {
    var o := StartOf(w.mem, w.file, e.i);
    assert |o.writes| == 1 && o.writes == [ToTimed(o.mem.saved)] && OnSchedule(o.mem.saved, e.i.now, e.i.now);
    assert o.writes[..1] == o.writes;
    assert e.i.now == e.i.now + 0 * length;
    hide Booked;
  }

  /** Over restarts at any write, with periods of one length: after a restart by hand at t the period is t until a step
      comes at t + length or later, and whole periods after t from then on; a whole step finds itself in it. */
  lemma {:induction false} RestartedSchedule(w: World, start: Event, events: seq<Event>, length: int)
    requires Timely(start) && Restarts(w, start) && length > 0
    requires Follows(After(w, start), events, start.i.now, length)
    ensures var t, v := start.i.now, Play(After(w, start), events);
            && RunsFrom(v, t, length)
            && (StepsBefore(events, t + length) ==> v.mem.saved.period == t && v.timed.period == t)
            && (events != [] && events[|events| - 1].Step? && events[|events| - 1].cut.None? ==>
                  Contains(v.mem.saved.period, length, events[|events| - 1].i.now))
  {
    hide RunsFrom, After;
    RestartBegins(w, start, length);
    if events != [] {
      var n := |events| - 1;
      var init := events[..n];
      assert forall k :: 0 <= k < n ==> init[..k] == events[..k];
      RestartedSchedule(w, start, init, length);
      assert Timely(events[n]);
      EventFollows(Play(After(w, start), init), events[n], start.i.now, length);
    }
  }

  /** So the first step a period or more after the restart moves the period, by whole periods counted from t. */
  lemma NextPeriod(w: World, start: Event, events: seq<Event>, i: Input, length: int)
    requires Timely(start) && Restarts(w, start) && length > 0 && AllTimely(events) && i.period == length
    requires Follows(After(w, start), events + [Step(i, None)], start.i.now, length) && StepsBefore(events, start.i.now + length)
    requires i.now >= start.i.now + length && i.now > 0
    ensures var t, v := start.i.now, Play(After(w, start), events);
            var v' := After(v, Step(i, None));
            && v.mem.saved.period == t && v'.mem.saved.period >= t + length
            && PeriodsFrom(t, length, v'.mem.saved.period) && Contains(v'.mem.saved.period, length, i.now)
  {
    var all := events + [Step(i, None)];
    assert all[..|events|] == events && all[|events|] == Step(i, None);
    assert forall k :: 0 <= k < |events| ==> events[..k] == all[..k] && events[k] == all[k];
    hide After;
    assert Follows(After(w, start), events, start.i.now, length);
    RestartedSchedule(w, start, events, length);
    RestartedSchedule(w, start, all, length);
    OnePeriod(start.i.now, length, Play(After(w, start), all).mem.saved.period);
  }
}
