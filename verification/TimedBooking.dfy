/** The timer's account is exact: while nobody switches by hand and the proxy is not stopped, the time booked in a period
    and the time of the stint in progress are the real time on the target. */
module TimedBooking {
  import opened PoolFile
  import opened TimedSwitch
  import opened TimedRuns
  import opened TimedRules
  import opened TimedBudget
  import TimedPeriods

  /** Whole steps with state.json writable, whole restarts of the schedule, and changes by hand that do not switch. */
  predicate Steady(w: World, e: Event) {
    && Whole(e) && (e.Step? ==> e.i.writeOk) && (e.Operator? ==> e.file.active == w.file.active)
  }

  ghost predicate SteadyRun(w: World, t0: int, events: seq<Event>) {
    && AllTimely(events)
    && forall n {:trigger events[n]} :: 0 <= n < |events| ==>
         Steady(Play(w, events[..n]), events[n]) && LastAt(t0, events[..n]) <= At(events[n])
  }

  /** At the time `at` the farm has been on the target for `on` in the period. */
  predicate Exact(w: World, at: int, on: int) {
    match w.mem.saved.away
    case None => on == w.mem.saved.spent
    case Some(a) =>
      && w.file.active == a.target && 0 < a.since <= at
      && if a.reason.Hunt? then on == w.mem.saved.spent
         else a.period == w.mem.saved.period && on == w.mem.saved.spent + at - a.since
  }

  lemma StepPeriod(w: World, i: Input)
    requires i.period > 0 && i.now > 0
    ensures After(w, Step(i, None)).mem.saved.period == PeriodAt(w.mem, i)
  {
    hide StepOf, PeriodAt;
    TimedPeriods.StepSaves(w.mem, w.file, i);
    MemoryAfter(w, i);
  }

  lemma StepIsExact(w: World, i: Input, at: int, on: int)
    requires i.period > 0 && i.now > 0 && i.writeOk && at <= i.now && Exact(w, at, on)
    ensures var w' := After(w, Step(i, None));
            Exact(w', i.now, if w'.mem.saved.period != w.mem.saved.period then 0 else on + if OnStint(w) then i.now - at else 0)
  {
    hide After, PeriodAt, TimerWants, HuntWants, HuntHolds, LeftNow, Restored, Has, TimersPool, HuntTargetOf, TargetOf;
    StepPeriod(w, i);
    match w.mem.saved.away
    case None => AtHome(w, i);
    case Some(a) =>
      if a.reason.Hunt? {
        HuntGoesOnUnless(w, i, a);
      } else if StintIsOver(w, i, a) {
        StintEnds(w, i, a);
      } else if a.period != PeriodAt(w.mem, i) {
        NewPeriodOnPool(w, i, a);
      } else {
        StintGoesOn(w, i, a);
      }
  }

  lemma StartIsExact(w: World, i: Input, at: int, on: int)
    requires i.period > 0 && i.now > 0 && at <= i.now && Exact(w, at, on)
    ensures var w' := After(w, StartNow(i, None));
            Exact(w', i.now, if CanStart(w.file, i).Started? then 0 else on + if OnStint(w) then i.now - at else 0)
  {
    hide TargetOf, KeptStints;
    var o := StartOf(w.mem, w.file, i);
    StayingDone(w, o);
  }

  lemma {:induction false} RunIsExact(w: World, t0: int, events: seq<Event>)
    requires Begins(w) && SteadyRun(w, t0, events)
    ensures Exact(Play(w, events), LastAt(t0, events), OnTime(w, t0, events))
  {
    hide After, Exact, OnStint;
    if events == [] {
      AtFirst(w, t0);
    } else {
      var n := |events| - 1;
      var init, e := events[..n], events[n];
      assert forall k :: 0 <= k < n ==> init[..k] == events[..k];
      assert Steady(Play(w, init), e) && LastAt(t0, init) <= At(e);
      RunIsExact(w, t0, init);
      EventIsExact(Play(w, init), e, LastAt(t0, init), OnTime(w, t0, init));
    }
  }

  lemma AtFirst(w: World, at: int)
    requires Begins(w)
    ensures Exact(w, at, 0)
  {
  }

  lemma EventIsExact(w: World, e: Event, at: int, on: int)
    requires Timely(e) && Steady(w, e) && at <= At(e) && Exact(w, at, on)
    ensures Exact(After(w, e), At(e), if Anew(w, e) then 0 else on + if OnStint(w) then At(e) - at else 0)
  {
    match e
    case Step(i, cut) =>
      hide After;
      StepIsExact(w, i, at, on);
    case StartNow(i, cut) =>
      StartIsExact(w, i, at, on);
      if !CanStart(w.file, i).Started? {
        StartPeriod(w, i);
      }
      hide After, CanStart;
    case Operator(file, now) =>
  }

  lemma StartPeriod(w: World, i: Input)
    requires i.period > 0 && i.now > 0 && !CanStart(w.file, i).Started?
    ensures After(w, StartNow(i, None)) == w
  {
    var o := StartOf(w.mem, w.file, i);
    assert o == Outcome(w.mem, []);
  }

  /** What is booked is the real time on the target in the period, less the stint in progress. */
  lemma BookedIsExact(w: World, t0: int, events: seq<Event>)
    requires Begins(w) && SteadyRun(w, t0, events)
    ensures var v := Play(w, events);
            v.mem.saved.spent == OnTime(w, t0, events) - if OnStint(v) then LastAt(t0, events) - v.mem.saved.away.value.since else 0
  {
    hide OnTime, Play;
    RunIsExact(w, t0, events);
  }
}
