/** The time budget of the timer: over whole runs with restarts, pauses, carry-overs and hand-overs, the farm
    spends less than the timed duration and one gap between steps on the target per period. */
module TimedBudget {
  import opened PoolFile
  import opened TimedSwitch
  import opened TimedRuns

  /** The farm is on the target for the timer, in the current period. */
  predicate OnStint(w: World) {
    && w.mem.saved.away.Some?
    && var a := w.mem.saved.away.value;
       a.reason.Timer? && a.period == w.mem.saved.period && w.file.active == a.target
  }

  /** The time of the last event; t0 is when the run begins. */
  function LastAt(t0: int, events: seq<Event>): int {
    if events == [] then t0 else At(events[|events| - 1])
  }

  /** The time of the last step that was not cut. */
  function LastStep(t0: int, events: seq<Event>): int {
    if events == [] then t0 else
      var e := events[|events| - 1];
      if e.Step? && e.cut.None? then e.i.now else LastStep(t0, events[..|events| - 1])
  }

  predicate Restarted(w: World, e: Event) {
    e.StartNow? && CanStart(w.file, e.i).Started? && e.cut != Some(0)
  }

  /** A period begins: another one than before, or the same over again by hand. */
  predicate Anew(w: World, e: Event)
    requires Timely(e)
  {
    After(w, e).mem.saved.period != w.mem.saved.period || Restarted(w, e)
  }

  /** How long the farm has really been on the target for the timer since the current period began. */
  function OnTime(w: World, t0: int, events: seq<Event>): int
    requires AllTimely(events)
  {
    if events == [] then 0 else
      var init, e := events[..|events| - 1], events[|events| - 1];
      var v := Play(w, init);
      if Anew(v, e) then 0
      else OnTime(w, t0, init) + if OnStint(v) then At(e) - LastAt(t0, init) else 0
  }

  /** The timed duration is fixed, state.json can be written, the clock does not go back, and steps that are not
      cut are at most gap apart. */
  ghost predicate Paced(t0: int, events: seq<Event>, duration: int, gap: int) {
    && AllTimely(events)
    && forall n {:trigger events[n]} :: 0 <= n < |events| ==>
         && LastAt(t0, events[..n]) <= At(events[n]) <= LastStep(t0, events[..n]) + gap
         && (!events[n].Operator? ==> events[n].i.duration == duration && events[n].i.writeOk)
  }

  // ---- the invariant ----

  predicate TimerAway(s: Saved) {
    s.away.Some? && s.away.value.reason.Timer?
  }

  /** With steps up to `step` and events up to `at`: on time on the target is booked, or will be. */
  predicate Fits(s: Saved, step: int, at: int, on: int, duration: int, gap: int) {
    && 0 <= s.spent < duration + gap
    && (s.away.Some? ==> 0 < s.away.value.since <= at)
    && (s.away.Some? && s.away.value.reason.Hunt? ==> s.away.value.period == 0)
    && (TimerAway(s) ==>
          && s.away.value.period == s.period && s.spent + step - s.away.value.since < duration
          && on <= s.spent + at - s.away.value.since)
    && (!TimerAway(s) ==> on <= s.spent)
  }

  predicate Inv(w: World, step: int, at: int, on: int, duration: int, gap: int) {
    && step <= at
    && w.mem.saved.away == w.timed.away
    && (TimerAway(w.timed) ==> w.mem.saved == w.timed)
    && Fits(w.mem.saved, step, at, on, duration, gap)
    && Fits(w.timed, step, at, if w.timed.period == w.mem.saved.period then on else 0, duration, gap)
  }

  /** What a step at now may write and leave, when the farm has been on the target for `on` in the period. */
  ghost predicate Good(m: Memory, o: Outcome, step: int, now: int, on: int, duration: int, gap: int) {
    && Fits(o.mem.saved, now, now, on, duration, gap)
    && o.mem.saved.period == m.saved.period
    && (forall x :: x in o.writes && x.ToTimed? ==>
                      Fits(x.saved, step, now, on, duration, gap) && x.saved.period == m.saved.period)
    && (o.writes == [] ==>
          o.mem.saved.away == m.saved.away && (TimerAway(m.saved) ==> o.mem.saved == m.saved))
    && (o.writes != [] ==> o.writes[|o.writes| - 1] == ToTimed(o.mem.saved))
  }

  /** Memory as a step finds it, after taking note of the period. */
  predicate Ready(m: Memory, step: int, now: int, on: int, duration: int, gap: int) {
    && 0 <= m.saved.spent < duration + gap && 0 < duration && step <= now <= step + gap && 0 < now && 0 <= gap
    && match m.saved.away
       case None => on <= m.saved.spent
       case Some(a) =>
         && 0 < a.since <= now
         && match a.reason
            case Hunt => a.period == 0 && on <= m.saved.spent
            case Timer =>
              if a.period == m.saved.period then
                m.saved.spent + step - a.since < duration && on <= m.saved.spent + now - a.since
              else m.saved.spent == 0 && on <= 0
  }

  lemma LaterFits(s: Saved, step: int, now: int, on: int, duration: int, gap: int)
    requires Fits(s, now, now, on, duration, gap) && step <= now
    ensures Fits(s, step, now, on, duration, gap)
  {
  }

  lemma SavingGood(m: Memory, m1: Memory, away: Option<Away>, step: int, now: int, on: int, duration: int, gap: int)
    requires Fits(WithAway(m1, away).saved, now, now, on, duration, gap) && m1.saved.period == m.saved.period && step <= now
    ensures Good(m, Saving(m1, away), step, now, on, duration, gap)
  {
    LaterFits(WithAway(m1, away).saved, step, now, on, duration, gap);
  }

  /** However a trip ends, its time on the target is booked, and the period stays within the budget. */
  lemma BookedFits(m: Memory, a: Away, final: bool, step: int, now: int, on: int, duration: int, gap: int)
    requires Ready(m, step, now, on, duration, gap) && m.saved.away == Some(a)
    ensures var b := Booked(m, a, final, now).saved;
            && 0 <= b.spent < duration + gap && on <= b.spent && b.period == m.saved.period && b.away == m.saved.away
            && (a.reason.Hunt? ==> b == m.saved)
  {
    hide KeptStints;
  }

  lemma ReturningGood(m: Memory, f: File, a: Away, final: bool, i: Input, step: int, on: int, gap: int)
    requires Ready(m, step, i.now, on, i.duration, gap) && m.saved.away == Some(a) && i.writeOk
    ensures Good(m, Returning(m, f, a, final, i), step, i.now, on, i.duration, gap)
  {
    var m1 := m.(hold := true);
    assert Ready(m1, step, i.now, on, i.duration, gap) && step <= i.now;
    hide Booked, Ready, Restored, Has;
    BookedFits(m1, a, true, step, i.now, on, i.duration, gap);
    BookedFits(m, a, true, step, i.now, on, i.duration, gap);
    BookedFits(m, a, final, step, i.now, on, i.duration, gap);
    SavingGood(m, Booked(m1, a, true, i.now), None, step, i.now, on, i.duration, gap);
    SavingGood(m, Booked(m, a, true, i.now), None, step, i.now, on, i.duration, gap);
    SavingGood(m, Booked(m, a, final, i.now), None, step, i.now, on, i.duration, gap);
  }

  lemma HandOverGood(m: Memory, a: Away, reason: Reason, period: int, step: int, now: int, on: int, duration: int, gap: int)
    requires Ready(m, step, now, on, duration, gap) && m.saved.away == Some(a)
    requires reason.Hunt? ==> period == 0 && a.reason.Timer?
    requires reason.Timer? ==> period == m.saved.period && a.reason.Hunt? && m.saved.spent < duration
    ensures Good(m, HandedOver(m, a, reason, period, now), step, now, on, duration, gap)
  {
    hide Booked;
    BookedFits(m, a, true, step, now, on, duration, gap);
    SavingGood(m, Booked(m, a, true, now), Some(a.(reason := reason, period := period, since := now)), step, now, on, duration, gap);
  }

  lemma LeavingGood(m: Memory, f: File, a: Away, i: Input, step: int, on: int, gap: int)
    requires Ready(m, step, i.now, on, i.duration, gap) && m.saved.away.None? && a.since == i.now
    requires a.reason.Hunt? ==> a.period == 0
    requires a.reason.Timer? ==> a.period == m.saved.period && m.saved.spent < i.duration
    ensures Good(m, Leaving(m, f, a, i), step, i.now, on, i.duration, gap)
  {
    hide Activated;
  }

  lemma IdleGood(m: Memory, step: int, now: int, on: int, duration: int, gap: int)
    requires Ready(m, step, now, on, duration, gap)
    requires TimerAway(m.saved) ==>
               m.saved.away.value.period == m.saved.period && m.saved.spent + now - m.saved.away.value.since < duration
    ensures Good(m, Outcome(m, []), step, now, on, duration, gap)
  {
  }

  // ---- the three situations of a step ----

  lemma HuntStepGood(m: Memory, f: File, a: Away, h: HuntView, timerDue: bool, i: Input, step: int, on: int, gap: int)
    requires Ready(m, step, i.now, on, i.duration, gap) && m.saved.away == Some(a) && a.reason.Hunt? && i.writeOk
    requires timerDue ==> m.saved.spent < i.duration
    ensures Good(m, HuntStep(m, f, a, h, timerDue, i, m.saved.period), step, i.now, on, i.duration, gap)
  {
    hide Good, Ready, Returning, HandedOver, TargetOf;
    ReturningGood(m, f, a, true, i, step, on, gap);
    IdleGood(m, step, i.now, on, i.duration, gap);
    if timerDue {
      HandOverGood(m, a, Timer, m.saved.period, step, i.now, on, i.duration, gap);
    }
  }

  lemma RenewGood(m: Memory, a: Away, step: int, now: int, on: int, duration: int, gap: int)
    requires Ready(m, step, now, on, duration, gap) && m.saved.away == Some(a) && a.reason.Timer? && a.period != m.saved.period
    ensures Good(m, Saving(m, Some(a.(period := m.saved.period, since := now))), step, now, on, duration, gap)
  {
    SavingGood(m, m, Some(a.(period := m.saved.period, since := now)), step, now, on, duration, gap);
  }

  lemma TimerStepGood(m: Memory, f: File, a: Away, h: HuntView, hard: real, left: int, i: Input, step: int, on: int, gap: int)
    requires Ready(m, step, i.now, on, i.duration, gap) && m.saved.away == Some(a) && a.reason.Timer? && i.writeOk
    requires left == LeftAt(m.saved, m.saved.period, i)
    ensures Good(m, TimerStep(m, f, a, h, TimerOn(f, i), hard, left, i, m.saved.period), step, i.now, on, i.duration, gap)
  {
    hide Good, Returning, HandedOver, TargetOf;
    ReturningGood(m, f, a, true, i, step, on, gap);
    ReturningGood(m, f, a, false, i, step, on, gap);
    HandOverGood(m, a, Hunt, 0, step, i.now, on, i.duration, gap);
    if a.period != m.saved.period {
      RenewGood(m, a, step, i.now, on, i.duration, gap);
    } else if left > 0 {
      IdleGood(m, step, i.now, on, i.duration, gap);
    }
  }

  lemma HomeStepGood(m: Memory, f: File, h: HuntView, mayLeave: bool, hard: real, i: Input, step: int, on: int, gap: int)
    requires Ready(m, step, i.now, on, i.duration, gap) && m.saved.away.None?
    requires mayLeave ==> TargetOf(f.pools).Some? && m.saved.spent < i.duration
    ensures Good(m, HomeStep(m, f, h, mayLeave, hard, i, m.saved.period), step, i.now, on, i.duration, gap)
  {
    hide Good, Leaving, TargetOf;
    IdleGood(m, step, i.now, on, i.duration, gap);
    SavingGood(m, m.(saved := m.saved.(done := true)), None, step, i.now, on, i.duration, gap);
    LeavingGood(m, f, Away(Hunt, 0, i.now, h.target, "", [], []), i, step, on, gap);
    if mayLeave {
      LeavingGood(m, f, Away(Timer, m.saved.period, i.now, TargetOf(f.pools).value, "", [], []), i, step, on, gap);
    }
  }

  /** `on` is carried into the period the step finds. */
  function Carried(w: World, period: int, on: int): int {
    if period != w.mem.saved.period then 0 else on
  }

  lemma NotedReady(w: World, i: Input, step: int, at: int, on: int, on1: int, gap: int)
    requires i.period > 0 && Inv(w, step, at, on, i.duration, gap) && at <= i.now <= step + gap && 0 < i.duration && 0 < i.now
    requires on1 == on + if OnStint(w) then i.now - at else 0
    ensures Ready(Noted(w.mem, w.file, i), step, i.now, Carried(w, PeriodAt(w.mem, i), on1), i.duration, gap)
    ensures Noted(w.mem, w.file, i).saved.period == PeriodAt(w.mem, i)
  {
    hide PeriodStart, Look;
  }

  lemma StepGood(w: World, i: Input, step: int, at: int, on: int, on1: int, gap: int)
    requires i.period > 0 && Inv(w, step, at, on, i.duration, gap) && at <= i.now <= step + gap && 0 < i.duration && 0 < i.now
    requires on1 == (on + if OnStint(w) then i.now - at else 0) && i.writeOk
    ensures Good(Noted(w.mem, w.file, i), StepOf(w.mem, w.file, i), step, i.now, Carried(w, PeriodAt(w.mem, i), on1), i.duration, gap)
    ensures Noted(w.mem, w.file, i).saved.period == PeriodAt(w.mem, i)
  {
    hide Good, Ready, Inv, PeriodStart, Look, HuntStep, TimerStep, HomeStep, Noted, TargetOf, Carried;
    NotedReady(w, i, step, at, on, on1, gap);
    var m, h := Noted(w.mem, w.file, i), Look(w.mem, w.file, i);
    var on2 := Carried(w, PeriodAt(w.mem, i), on1);
    var mayLeave, hard := MayLeave(w.mem, w.file, i), HardAt(w.file, i);
    match m.saved.away
    case None => HomeStepGood(m, w.file, h, mayLeave, hard, i, step, on2, gap);
    case Some(a) =>
      if a.reason.Hunt? {
        HuntStepGood(m, w.file, a, h, mayLeave && hard <= RESUME_BELOW, i, step, on2, gap);
      } else {
        TimerStepGood(m, w.file, a, h, hard, LeftAt(m.saved, m.saved.period, i), i, step, on2, gap);
      }
  }

  // ---- events ----

  lemma LoadedSame(t: Saved, step: int, at: int, on: int, duration: int, gap: int)
    requires Fits(t, step, at, on, duration, gap)
    ensures Loaded(t).saved == t
  {
  }

  function Counted(w: World, w': World, on1: int): int {
    if w'.mem.saved.period != w.mem.saved.period then 0 else on1
  }

  /** The proxy stops before it saved anything, and starts again from the file. */
  lemma ReloadKeeps(w: World, file: File, step: int, at: int, now: int, on: int, on1: int, duration: int, gap: int)
    requires Inv(w, step, at, on, duration, gap) && at <= now && on1 == on + if OnStint(w) then now - at else 0
    ensures var w' := World(Loaded(w.timed), w.timed, file); Inv(w', step, now, Counted(w, w', on1), duration, gap)
  {
    LoadedSame(w.timed, step, at, if w.timed.period == w.mem.saved.period then on else 0, duration, gap);
  }

  lemma SavedKeeps(t: Saved, file: File, step: int, now: int, on: int, duration: int, gap: int)
    requires Fits(t, step, now, on, duration, gap) && step <= now
    ensures Inv(World(Loaded(t), t, file), step, now, on, duration, gap) && Loaded(t).saved == t
  {
    LoadedSame(t, step, now, on, duration, gap);
  }

  lemma CutKeeps(w: World, m: Memory, o: Outcome, k: int, step: int, at: int, now: int, on: int, on1: int, duration: int, gap: int)
    requires Inv(w, step, at, on, duration, gap) && at <= now && on1 == on + if OnStint(w) then now - at else 0
    requires Good(m, o, step, now, Carried(w, m.saved.period, on1), duration, gap)
    ensures var w' := Done(w, o, Some(k)); Inv(w', step, now, Counted(w, w', on1), duration, gap)
  {
    assert step <= now;
    hide Inv, Fits, Loaded, OnStint;
    var made := if 0 <= k <= |o.writes| then o.writes[..k] else o.writes;
    var t, f := TimedAfter(w.timed, made), FileAfter(w.file, made);
    TimedAfterCases(w.timed, made);
    if ToTimed(t) in made {
      assert ToTimed(t) in o.writes;
      SavedKeeps(t, f, step, now, Carried(w, m.saved.period, on1), duration, gap);
    } else {
      ReloadKeeps(w, f, step, at, now, on, on1, duration, gap);
    }
  }

  lemma WholeKeeps(w: World, m: Memory, o: Outcome, step: int, at: int, now: int, on: int, on1: int, duration: int, gap: int)
    requires Inv(w, step, at, on, duration, gap) && at <= now && on1 == on + if OnStint(w) then now - at else 0
    requires Good(m, o, step, now, Carried(w, m.saved.period, on1), duration, gap)
    requires m.saved == Rolled(w.mem, m.saved.period).saved
    ensures var w' := Done(w, o, None); Inv(w', now, now, Counted(w, w', on1), duration, gap)
  {
    if o.writes == [] {
      assert TimedAfter(w.timed, []) == w.timed;
    } else {
      hide Fits, FileAfter;
      assert Done(w, o, None).timed == o.mem.saved;
    }
  }

  lemma StepKeeps(w: World, i: Input, cut: Option<int>, step: int, at: int, on: int, on1: int, gap: int)
    requires i.period > 0 && Inv(w, step, at, on, i.duration, gap) && at <= i.now <= step + gap && 0 < i.duration && 0 < i.now
    requires on1 == (on + if OnStint(w) then i.now - at else 0) && i.writeOk
    ensures var w' := After(w, Step(i, cut));
            Inv(w', if cut.None? then i.now else step, i.now, Counted(w, w', on1), i.duration, gap)
  {
    hide Inv, Good, StepOf, OnStint, PeriodStart, Done, Counted, Look;
    StepGood(w, i, step, at, on, on1, gap);
    var m, o := Noted(w.mem, w.file, i), StepOf(w.mem, w.file, i);
    match cut
    case None => WholeKeeps(w, m, o, step, at, i.now, on, on1, i.duration, gap);
    case Some(k) => CutKeeps(w, m, o, k, step, at, i.now, on, on1, i.duration, gap);
  }

  lemma StartFits(m: Memory, f: File, i: Input, step: int, at: int, duration: int, gap: int)
    requires CanStart(f, i).Started? && 0 < i.now && step <= at <= i.now && 0 < duration && 0 <= gap
    requires m.saved.away.Some? ==> 0 < m.saved.away.value.since <= at
    requires m.saved.away.Some? && m.saved.away.value.reason.Hunt? ==> m.saved.away.value.period == 0
    ensures var o := StartOf(m, f, i);
            o.writes == [ToTimed(o.mem.saved)] && Fits(o.mem.saved, step, i.now, 0, duration, gap)
  {
    hide KeptStints, TargetOf;
  }

  lemma StartKeeps(w: World, i: Input, cut: Option<int>, step: int, at: int, on: int, on1: int, gap: int)
    requires Inv(w, step, at, on, i.duration, gap) && at <= i.now <= step + gap && 0 < i.duration && 0 < i.now && 0 <= gap
    requires i.period > 0 && on1 == on + if OnStint(w) then i.now - at else 0
    ensures var e := StartNow(i, cut); var w' := After(w, e);
            Inv(w', step, i.now, if Anew(w, e) then 0 else on1, i.duration, gap)
  {
    var o := StartOf(w.mem, w.file, i);
    if !CanStart(w.file, i).Started? || cut == Some(0) {
      assert o.writes == [] || o.writes[..0] == [];
      assert TimedAfter(w.timed, []) == w.timed && FileAfter(w.file, []) == w.file;
      if cut.Some? {
        ReloadKeeps(w, w.file, step, at, i.now, on, on1, i.duration, gap);
      }
    } else {
      hide StartOf, Done, OnStint;
      StartFits(w.mem, w.file, i, step, at, i.duration, gap);
      DoneOne(w, o, cut, o.mem.saved);
      SavedKeeps(o.mem.saved, w.file, step, i.now, 0, i.duration, gap);
    }
  }

  /** Every event keeps the budget. */
  lemma EventKeeps(w: World, e: Event, step: int, at: int, on: int, duration: int, gap: int)
    requires Timely(e) && Inv(w, step, at, on, duration, gap) && 0 < duration && 0 <= gap
    requires at <= At(e) <= step + gap && (!e.Operator? ==> e.i.duration == duration && e.i.writeOk)
    ensures Inv(After(w, e), if e.Step? && e.cut.None? then e.i.now else step, At(e),
                if Anew(w, e) then 0 else on + if OnStint(w) then At(e) - at else 0, duration, gap)
  {
    hide StepOf, StartOf, Done;
    match e
    case Step(i, cut) => StepKeeps(w, i, cut, step, at, on, on + if OnStint(w) then i.now - at else 0, gap);
    case StartNow(i, cut) => StartKeeps(w, i, cut, step, at, on, on + if OnStint(w) then i.now - at else 0, gap);
    case Operator(_, _) =>
  }

  // ---- runs ----

  predicate Begins(w: World) {
    w.mem.saved.away.None? && w.timed == w.mem.saved && w.mem.saved.spent == 0
  }

  lemma PacedInit(t0: int, events: seq<Event>, duration: int, gap: int)
    requires Paced(t0, events, duration, gap) && events != []
    ensures var init, e := events[..|events| - 1], events[|events| - 1];
            && Paced(t0, init, duration, gap) && Timely(e)
            && LastAt(t0, init) <= At(e) <= LastStep(t0, init) + gap
            && (!e.Operator? ==> e.i.duration == duration && e.i.writeOk)
  {
    hide LastAt, LastStep, At, Timely;
    var n := |events| - 1;
    assert forall k :: 0 <= k < n ==> events[..n][..k] == events[..k];
    assert Timely(events[n]);
  }

  lemma {:induction false} RunKeeps(w: World, t0: int, events: seq<Event>, duration: int, gap: int)
    requires Begins(w) && Paced(t0, events, duration, gap) && 0 < duration && 0 <= gap
    ensures Inv(Play(w, events), LastStep(t0, events), LastAt(t0, events), OnTime(w, t0, events), duration, gap)
  {
    if events != [] {
      var init, e := events[..|events| - 1], events[|events| - 1];
      PacedInit(t0, events, duration, gap);
      hide Inv, After, Anew, OnStint, Timely;
      RunKeeps(w, t0, init, duration, gap);
      EventKeeps(Play(w, init), e, LastStep(t0, init), LastAt(t0, init), OnTime(w, t0, init), duration, gap);
    }
  }

  /** The time on the target in a period never reaches the timed duration and one gap between steps. */
  lemma WithinBudget(w: World, t0: int, events: seq<Event>, duration: int, gap: int)
    requires Begins(w) && Paced(t0, events, duration, gap) && 0 < duration && 0 <= gap
    ensures OnTime(w, t0, events) < duration + gap
    ensures 0 <= Play(w, events).mem.saved.spent < duration + gap
  {
    hide OnTime, Play;
    RunKeeps(w, t0, events, duration, gap);
    WithinAGap(t0, events, duration, gap);
  }

  lemma {:induction false} WithinAGap(t0: int, events: seq<Event>, duration: int, gap: int)
    requires Paced(t0, events, duration, gap) && 0 <= gap
    ensures LastAt(t0, events) <= LastStep(t0, events) + gap
  {
    if events != [] {
      var n := |events| - 1;
      assert forall k :: 0 <= k < n ==> events[..n][..k] == events[..k];
      WithinAGap(t0, events[..n], duration, gap);
      assert At(events[n]) <= LastStep(t0, events[..n]) + gap;
    }
  }

  /** After every whole step a stint of the timer belongs to the current period, is on the active pool, and has
      time left. */
  lemma StintAfterStep(w: World, t0: int, events: seq<Event>, i: Input, gap: int)
    requires Begins(w) && 0 < i.duration && 0 <= gap && i.period > 0
    requires Paced(t0, events + [Step(i, None)], i.duration, gap)
    ensures var w' := Play(w, events + [Step(i, None)]);
            TimerAway(w'.mem.saved) ==>
              && w'.mem.saved.away.value.period == w'.mem.saved.period == PeriodAt(w'.mem, i)
              && w'.file.active == w'.mem.saved.away.value.target
              && w'.mem.saved.spent + i.now - w'.mem.saved.away.value.since < i.duration
  {
    hide After, OnTime;
    var all := events + [Step(i, None)];
    assert all[..|events|] == events;
    assert Timely(all[|events|]) && all[|events|].i.writeOk;
    RunKeeps(w, t0, all, i.duration, gap);
    AwayForAReason(Play(w, events), i);
  }
}
