/** The operator's choice stands: once a step has noticed that the farm was switched away by hand, the timer leaves
    it alone for the rest of the period and block hunting until the next block. */
module TimedChoice {
  import opened PoolFile
  import opened TimedSwitch
  import opened TimedRuns

  /** Block hunting is turned on, with a pool to go to. */
  predicate HuntOn(f: File, i: Input) {
    i.hunting && HuntTargetOf(f.pools).Some?
  }

  /** Neither a block just arrived nor is block hunting off. */
  predicate Waits(f: File, i: Input) {
    HuntOn(f, i) && i.huntHard < PAUSE_ABOVE
  }

  /** In memory and on disk the farm is at home, without more stints in the period. */
  predicate Quiet(w: World, period: int) {
    && w.mem.saved.away.None? && w.mem.saved.done && w.mem.saved.period == period
    && w.timed.away.None? && w.timed.done && w.timed.period == period
  }

  /** The farm is not on a hunt, and block hunting waits. */
  predicate NoHunt(w: World) {
    w.mem.hold && (w.mem.saved.away.Some? ==> w.mem.saved.away.value.reason.Timer?)
  }

  lemma SaveOnly(w: World, o: Outcome)
    requires o.writes == [] || o.writes == [ToTimed(o.mem.saved)]
    ensures Done(w, o, None).file == w.file && Done(w, o, None).mem == o.mem
  {
    StayingDone(w, o);
  }

  /** The step that finds another pool active than the trip's target. */
  lemma Noticed(w: World, i: Input)
    requires i.period > 0 && i.now > 0 && w.mem.saved.away.Some? && w.file.active != w.mem.saved.away.value.target
    ensures var w', a := After(w, Step(i, None)), w.mem.saved.away.value;
            && w'.file == w.file && w'.mem.hold && w'.mem.saved.away.None? && w'.timed == w'.mem.saved
            && (a.reason.Timer? && a.period == PeriodAt(w.mem, i) ==> Quiet(w', PeriodAt(w.mem, i)))
  {
    hide PeriodStart, TargetOf, HuntTargetOf, KeptStints;
    var a := w.mem.saved.away.value;
    var o := Returning(Noted(w.mem, w.file, i), w.file, a, true, i);
    assert StepOf(w.mem, w.file, i) == o;
    SaveOnly(w, o);
  }

  /** A step, cut or not, that neither the timer nor block hunting has a say in. */
  lemma QuietStays(w: World, i: Input, cut: Option<int>, period: int)
    requires i.period > 0 && i.now > 0 && Quiet(w, period) && PeriodAt(w.mem, i) == period
    requires HuntOn(w.file, i) ==> w.mem.hold
    ensures var w' := After(w, Step(i, cut));
            Quiet(w', period) && w'.file == w.file && w'.mem.hold == (w.mem.hold && cut.None? && Waits(w.file, i))
  {
    hide PeriodStart, HuntTargetOf, LeftAt;
    var o := StepOf(w.mem, w.file, i);
    assert o.writes == [] && o.mem.saved == w.mem.saved;
    assert TimedAfter(w.timed, []) == w.timed && FileAfter(w.file, []) == w.file;
  }

  lemma NoHuntAtHome(w: World, i: Input)
    requires i.period > 0 && i.now > 0 && NoHunt(w) && Waits(w.file, i) && w.mem.saved.away.None?
    ensures var w' := After(w, Step(i, None)); NoHunt(w') && (w'.file != w.file ==> MovedByTimer(w, w', i))
  {
    hide PeriodStart, LeftAt, Activated, TargetOf, Done, HuntTargetOf;
    var o := StepOf(w.mem, w.file, i);
    if |o.writes| == 3 {
      DoneThree(w, o, None, o.writes[0].saved, o.writes[1].file, o.writes[2].saved);
    } else if |o.writes| == 2 {
      DoneTwo(w, o, None, o.writes[0], o.writes[1].saved);
    } else {
      SaveOnly(w, o);
    }
  }

  lemma BookedHold(m: Memory, a: Away, final: bool, now: int)
    ensures Booked(m, a, final, now).hold == m.hold && Booked(m, a, final, now).saved.away == m.saved.away
  {
  }

  lemma NoHuntOnStint(w: World, i: Input)
    requires i.period > 0 && i.now > 0 && NoHunt(w) && Waits(w.file, i) && w.mem.saved.away.Some?
    ensures var w' := After(w, Step(i, None)); NoHunt(w') && (w'.file != w.file ==> MovedByTimer(w, w', i))
  {
    hide PeriodStart, LeftAt, Restored, TargetOf, Done, HuntTargetOf, Booked;
    BookedHold(Noted(w.mem, w.file, i), w.mem.saved.away.value, true, i.now);
    BookedHold(Noted(w.mem, w.file, i), w.mem.saved.away.value, false, i.now);
    BookedHold(Noted(w.mem, w.file, i).(hold := true), w.mem.saved.away.value, true, i.now);
    var o := StepOf(w.mem, w.file, i);
    if |o.writes| == 2 {
      DoneTwo(w, o, None, o.writes[0], o.writes[1].saved);
    } else {
      SaveOnly(w, o);
    }
  }

  /** The timer brought the farm to its pool, or home from it. */
  predicate MovedByTimer(w: World, w': World, i: Input) {
    match w.mem.saved.away
    case Some(a) => a.reason.Timer? && w.file.active == a.target && w'.mem.saved.away.None?
    case None => w'.mem.saved.away.Some? && w'.mem.saved.away.value.reason.Timer? && TimerOn(w.file, i)
  }

  // ---- runs ----

  /** Steps of the period, cut or not, each with block hunting off or waiting for a block, and changes by hand. */
  ghost predicate Undisturbed(w: World, events: seq<Event>, period: int) {
    && AllTimely(events)
    && forall n :: 0 <= n < |events| ==> Leaves(PlayTo(w, events, n), events[n], period)
  }

  predicate Leaves(w: World, e: Event, period: int)
    requires Timely(e)
  {
    !e.Operator? ==> e.Step? && PeriodAt(w.mem, e.i) == period && (HuntOn(w.file, e.i) ==> w.mem.hold)
  }

  /** The steps of a run change nothing in state.json. */
  ghost predicate Unmoved(w: World, events: seq<Event>)
    requires AllTimely(events)
  {
    forall n {:trigger events[n]} :: 0 <= n < |events| ==> Stood(PlayTo(w, events, n), events[n], PlayTo(w, events, n + 1))
  }

  predicate Stood(w: World, e: Event, w': World) {
    e.Step? ==> w'.file == w.file
  }

  lemma EventStands(w: World, e: Event, period: int)
    requires Timely(e) && Quiet(w, period) && Leaves(w, e, period)
    ensures Quiet(After(w, e), period) && Stood(w, e, After(w, e))
    ensures e.Operator? ==> After(w, e).mem == w.mem
    ensures e.Step? ==> After(w, e).mem.hold == (w.mem.hold && e.cut.None? && Waits(w.file, e.i))
  {
    hide StepOf, Done, PeriodAt;
    if e.Step? {
      QuietStays(w, e.i, e.cut, period);
    }
  }

  lemma PrefixWorlds(w: World, events: seq<Event>)
    requires events != [] && AllTimely(events)
    ensures var n := |events| - 1; AllTimely(events[..n]) && PlayTo(w, events, n) == Play(w, events[..n])
    ensures PlayTo(w, events, |events|) == Play(w, events) == After(PlayTo(w, events, |events| - 1), events[|events| - 1])
    ensures forall k :: 0 <= k < |events| ==> PlayTo(w, events[..|events| - 1], k) == PlayTo(w, events, k)
  {
    hide After;
    var n := |events| - 1;
    assert events[..|events|] == events;
    assert forall k :: 0 <= k <= n ==> events[..n][..k] == events[..k];
  }

  lemma UndisturbedPrefix(w: World, events: seq<Event>, period: int)
    requires events != [] && Undisturbed(w, events, period)
    ensures Undisturbed(w, events[..|events| - 1], period)
    ensures Leaves(PlayTo(w, events, |events| - 1), events[|events| - 1], period)
  {
    hide Leaves, Play;
    PrefixWorlds(w, events);
    var init := events[..|events| - 1];
    forall k | 0 <= k < |init| ensures Leaves(PlayTo(w, init, k), init[k], period) {
      assert Leaves(PlayTo(w, events, k), events[k], period);
    }
  }

  lemma UnmovedSnoc(w: World, events: seq<Event>)
    requires events != [] && AllTimely(events) && Unmoved(w, events[..|events| - 1])
    requires Stood(PlayTo(w, events, |events| - 1), events[|events| - 1], Play(w, events))
    ensures Unmoved(w, events)
  {
    hide Stood, Play;
    PrefixWorlds(w, events);
    var init := events[..|events| - 1];
    forall n | 0 <= n < |events| ensures Stood(PlayTo(w, events, n), events[n], PlayTo(w, events, n + 1)) {
      if n < |init| {
        assert Stood(PlayTo(w, init, n), init[n], PlayTo(w, init, n + 1));
        assert n + 1 == |init| ==> init[..n + 1] == init;
      }
    }
  }

  lemma {:induction false} QuietRun(w: World, events: seq<Event>, period: int)
    requires Quiet(w, period) && Undisturbed(w, events, period)
    ensures Quiet(Play(w, events), period) && Unmoved(w, events)
  {
    if events != [] {
      hide Quiet, Undisturbed, Unmoved, Leaves, Stood, Play;
      PrefixWorlds(w, events);
      UndisturbedPrefix(w, events, period);
      QuietRun(w, events[..|events| - 1], period);
      EventStands(PlayTo(w, events, |events| - 1), events[|events| - 1], period);
      UnmovedSnoc(w, events);
    }
  }

  /** A pool chosen by hand during a stint of the timer stands: over the rest of the period, restarts at any write
      included, no step moves the farm as long as block hunting is off, or waits for a block. */
  lemma TimerChoiceStands(w: World, i: Input, events: seq<Event>)
    requires i.period > 0 && i.now > 0 && w.mem.saved.away.Some? && w.mem.saved.away.value.reason.Timer?
    requires w.file.active != w.mem.saved.away.value.target && w.mem.saved.away.value.period == PeriodAt(w.mem, i)
    requires Undisturbed(After(w, Step(i, None)), events, PeriodAt(w.mem, i))
    ensures var w' := After(w, Step(i, None)); w'.file == w.file && Unmoved(w', events)
  {
    hide Quiet, Undisturbed, Unmoved, StepOf;
    Noticed(w, i);
    QuietRun(After(w, Step(i, None)), events, PeriodAt(w.mem, i));
  }

  /** Steps of the period with block hunting on, none cut and none that finds a block arrived. */
  ghost predicate Waiting(w: World, events: seq<Event>, period: int) {
    && AllTimely(events)
    && forall n {:trigger events[n]} :: 0 <= n < |events| && !events[n].Operator? ==>
         && events[n].Step? && events[n].cut.None?
         && var v := PlayTo(w, events, n); PeriodAt(v.mem, events[n].i) == period && Waits(v.file, events[n].i)
  }

  /** Block hunting, once it waits, goes on waiting until a block, a restart, or being turned off. */
  lemma {:induction false} WaitingIsUndisturbed(w: World, events: seq<Event>, period: int)
    requires Quiet(w, period) && w.mem.hold && Waiting(w, events, period)
    ensures Undisturbed(w, events, period) && Quiet(Play(w, events), period) && Play(w, events).mem.hold
  {
    if events != [] {
      hide Quiet, After, PeriodAt, HuntTargetOf;
      var n := |events| - 1;
      var init, e := events[..n], events[n];
      assert events[..|events|] == events;
      assert forall k :: 0 <= k <= n ==> init[..k] == events[..k];
      assert forall k :: 0 <= k <= n ==> PlayTo(w, init, k) == PlayTo(w, events, k);
      WaitingIsUndisturbed(w, init, period);
      assert forall k :: 0 <= k < n ==> Leaves(PlayTo(w, init, k), init[k], period);
      var v := PlayTo(w, events, n);
      assert Leaves(v, e, period);
      EventStands(v, e, period);
    }
  }

  /** With block hunting on in every step the choice stands until the period changes, the schedule is restarted by
      hand, the proxy stops, or a step finds hunting off or a block arrived. */
  lemma TimerChoiceStandsWaiting(w: World, i: Input, events: seq<Event>)
    requires i.period > 0 && i.now > 0 && w.mem.saved.away.Some? && w.mem.saved.away.value.reason.Timer?
    requires w.file.active != w.mem.saved.away.value.target && w.mem.saved.away.value.period == PeriodAt(w.mem, i)
    requires Waiting(After(w, Step(i, None)), events, PeriodAt(w.mem, i))
    ensures var w' := After(w, Step(i, None)); w'.file == w.file && Unmoved(w', events)
  {
    hide Quiet, Undisturbed, Unmoved, StepOf, Waiting;
    Noticed(w, i);
    WaitingIsUndisturbed(After(w, Step(i, None)), events, PeriodAt(w.mem, i));
    TimerChoiceStands(w, i, events);
  }

  /** Until a step finds block hunting off or a block arrived. */
  ghost predicate NoBlock(w: World, events: seq<Event>) {
    && AllTimely(events)
    && forall n {:trigger events[n]} :: 0 <= n < |events| && !events[n].Operator? ==>
         events[n].cut.None? && (events[n].Step? ==> Waits(PlayTo(w, events, n).file, events[n].i))
  }

  /** Block hunting neither starts a trip nor takes one over, and what a step moves is moved by the timer. */
  ghost predicate NotHunted(w: World, events: seq<Event>)
    requires AllTimely(events)
  {
    forall n {:trigger events[n]} :: 0 <= n < |events| ==>
      LeftAlone(PlayTo(w, events, n), events[n], PlayTo(w, events, n + 1))
  }

  predicate LeftAlone(w: World, e: Event, w': World) {
    NoHunt(w') && (e.Step? && w'.file != w.file ==> MovedByTimer(w, w', e.i))
  }

  lemma EventLeavesAlone(w: World, e: Event)
    requires Timely(e) && NoHunt(w)
    requires !e.Operator? ==> e.cut.None? && (e.Step? ==> Waits(w.file, e.i))
    ensures LeftAlone(w, e, After(w, e)) && NoHunt(After(w, e))
  {
    hide StepOf, StartOf, Waits, Done, MovedByTimer;
    match e
    case Operator(_, _) =>
    case Step(i, _) =>
      hide NoHunt;
      if w.mem.saved.away.None? {
        NoHuntAtHome(w, i);
      } else {
        NoHuntOnStint(w, i);
      }
    case StartNow(i, _) => StartNoHunt(w, i);
  }

  lemma StartNoHunt(w: World, i: Input)
    requires i.period > 0 && i.now > 0 && NoHunt(w)
    ensures NoHunt(After(w, StartNow(i, None)))
  {
    hide TargetOf, KeptStints;
  }

  lemma {:induction false} NoHuntRun(w: World, events: seq<Event>)
    requires NoHunt(w) && NoBlock(w, events)
    ensures NoHunt(Play(w, events)) && NotHunted(w, events)
  {
    hide NoHunt, Waits, LeftAlone, After;
    if events != [] {
      var n := |events| - 1;
      var init := events[..n];
      assert events[..|events|] == events;
      assert forall k :: 0 <= k <= n ==> init[..k] == events[..k];
      assert forall k :: 0 <= k <= n ==> PlayTo(w, init, k) == PlayTo(w, events, k);
      NoHuntRun(w, init);
      EventLeavesAlone(PlayTo(w, events, n), events[n]);
    }
  }

  /** A pool chosen by hand during a hunt stands against block hunting until the next block. */
  lemma HuntChoiceStands(w: World, i: Input, events: seq<Event>)
    requires i.period > 0 && i.now > 0 && w.mem.saved.away.Some? && w.mem.saved.away.value.reason.Hunt?
    requires w.file.active != w.mem.saved.away.value.target && NoBlock(After(w, Step(i, None)), events)
    ensures var w' := After(w, Step(i, None)); w'.file == w.file && NotHunted(w', events)
  {
    hide NoBlock, NotHunted, StepOf;
    Noticed(w, i);
    NoHuntRun(After(w, Step(i, None)), events);
  }

  // ---- what a restart keeps, and what it forgets ----

  /** Saved or in memory: no more stints in the period, and none in progress. */
  predicate NoStint(s: Saved, period: int) {
    s.done && s.period == period && (s.away.Some? ==> s.away.value.reason.Hunt? && s.away.value.period == 0)
  }

  ghost predicate NoStintWrites(o: Outcome, period: int) {
    NoStint(o.mem.saved, period) && forall x :: x in o.writes && x.ToTimed? ==> NoStint(x.saved, period)
  }

  lemma NoStintReturning(m: Memory, f: File, i: Input, period: int)
    requires NoStint(m.saved, period) && m.saved.away.Some?
    ensures NoStintWrites(Returning(m, f, m.saved.away.value, true, i), period)
  {
    hide Restored, Has, KeptStints;
  }

  lemma NoStintStep(m: Memory, f: File, i: Input, period: int)
    requires i.period > 0 && NoStint(m.saved, period) && PeriodAt(m, i) == period
    ensures NoStintWrites(StepOf(m, f, i), period)
  {
    hide PeriodStart, Activated, HuntTargetOf, Returning, LeftAt;
    var m1 := Noted(m, f, i);
    assert m1.saved == m.saved;
    if m.saved.away.Some? {
      NoStintReturning(m1, f, i, period);
    }
  }

  /** The timer's part of the choice is saved: over any step of the period, cut or not, it neither begins a stint
      nor takes over a hunt. */
  lemma NoStintStays(w: World, i: Input, cut: Option<int>, period: int)
    requires i.period > 0 && i.now > 0 && PeriodAt(w.mem, i) == period
    requires NoStint(w.mem.saved, period) && NoStint(w.timed, period)
    ensures var w' := After(w, Step(i, cut)); NoStint(w'.mem.saved, period) && NoStint(w'.timed, period)
  {
    hide StepOf, PeriodStart;
    var o := StepOf(w.mem, w.file, i);
    NoStintStep(w.mem, w.file, i, period);
    TimedAfterCases(w.timed, o.writes);
    match cut
    case None =>
    case Some(k) => TimedAfterCases(w.timed, if 0 <= k <= |o.writes| then o.writes[..k] else o.writes);
  }

  /** Steps of one period, cut or not, and changes by hand. */
  ghost predicate SamePeriod(w: World, events: seq<Event>, period: int) {
    AllTimely(events) && forall n :: 0 <= n < |events| ==> InPeriod(PlayTo(w, events, n), events[n], period)
  }

  predicate InPeriod(w: World, e: Event, period: int)
    requires Timely(e)
  {
    !e.Operator? ==> e.Step? && PeriodAt(w.mem, e.i) == period
  }

  predicate Over(w: World, period: int) {
    NoStint(w.mem.saved, period) && NoStint(w.timed, period)
  }

  lemma EventStaysOver(w: World, e: Event, period: int)
    requires Timely(e) && Over(w, period) && InPeriod(w, e, period)
    ensures Over(After(w, e), period)
  {
    hide NoStint, StepOf, PeriodAt, Done;
    if e.Step? {
      NoStintStays(w, e.i, e.cut, period);
    }
  }

  /** Once its stints of a period are over, the timer leaves the farm alone for the rest of it, over restarts. */
  lemma {:induction false} TimerStaysOver(w: World, events: seq<Event>, period: int)
    requires Over(w, period) && SamePeriod(w, events, period)
    ensures Over(Play(w, events), period)
  {
    if events != [] {
      hide Over, InPeriod, Play;
      PrefixWorlds(w, events);
      var n := |events| - 1;
      forall k | 0 <= k < n ensures InPeriod(PlayTo(w, events[..n], k), events[..n][k], period) {
        assert InPeriod(PlayTo(w, events, k), events[k], period);
      }
      TimerStaysOver(w, events[..n], period);
      assert InPeriod(PlayTo(w, events, n), events[n], period);
      EventStaysOver(PlayTo(w, events, n), events[n], period);
    }
  }

  /** The timer would have the farm on its pool now. */
  predicate TimerDue(w: World, i: Input)
    requires i.period > 0
  {
    MayLeave(w.mem, w.file, i) && HardAt(w.file, i) <= RESUME_BELOW
  }

  /** The step writes state.json, which is to say that it switches. */
  ghost predicate Moves(w: World, i: Input)
    requires i.period > 0
  {
    exists x :: x in StepOf(w.mem, w.file, i).writes && x.ToState?
  }

  /** At home, a step moves the farm exactly when the pool check passes, there is an active pool, and the timer is due
      on another one, or, with the timer not due, block hunting is free to go to another one. */
  lemma MovedExactlyWhen(w: World, i: Input)
    requires i.period > 0 && i.now > 0 && w.mem.saved.away.None?
    ensures Moves(w, i) <==>
            && i.checkOk && w.file.active != ""
            && if TimerDue(w, i) then TargetOf(w.file.pools) != Some(w.file.active)
               else Wants(Look(w.mem, w.file, i), i.now) && Look(w.mem, w.file, i).target != w.file.active
  {
    hide PeriodStart, Activated, MayLeave, HardAt;
    var o := StepOf(w.mem, w.file, i);
    assert MayLeave(w.mem, w.file, i) ==> TargetOf(w.file.pools).Some? by {
      MayLeaveMeans(w, i);
    }
    if |o.writes| == 3 {
      assert o.writes[1] in o.writes;
    }
  }

  lemma MayLeaveMeans(w: World, i: Input)
    requires i.period > 0
    ensures MayLeave(w.mem, w.file, i) ==> TargetOf(w.file.pools).Some?
  {
  }

  /** A step finds a pool chosen by hand, the proxy stops, and starts again. */
  function Restarted(w: World, i: Input, j: Input): World
    requires i.period > 0 && i.now > 0 && j.period > 0 && j.now > 0
  {
    After(After(w, Step(i, None)), Step(j, Some(0)))
  }

  /** Whatever the trip was for: after the restart neither the wait nor the pause after a failure is left, and the
      next step moves the farm exactly when the check passes and the timer is due on another pool, or else block
      hunting is on, sees blocks, finds a block easy, and goes to another pool. */
  lemma StandsOverRestartUnless(w: World, i: Input, j: Input, k: Input)
    requires i.period > 0 && i.now > 0 && j.period > 0 && j.now > 0 && k.period > 0 && k.now > 0
    requires w.mem.saved.away.Some? && w.file.active != w.mem.saved.away.value.target
    ensures var r := Restarted(w, i, j);
            && r.file == w.file
            && (Moves(r, k) <==>
                  && k.checkOk && w.file.active != ""
                  && if TimerDue(r, k) then TargetOf(w.file.pools) != Some(w.file.active)
                     else HuntOn(w.file, k) && k.live && k.huntHard <= RESUME_BELOW
                          && HuntTargetOf(w.file.pools) != Some(w.file.active))
  {
    hide PeriodStart, HuntTargetOf, TargetOf, TimerDue, Moves;
    Noticed(w, i);
    Rebooted(After(w, Step(i, None)), j);
    MovedExactlyWhen(Restarted(w, i, j), k);
  }

  /** A restart before anything is written starts from the files. */
  lemma Rebooted(w: World, j: Input)
    requires j.period > 0 && j.now > 0
    ensures After(w, Step(j, Some(0))) == Reboot(w.timed, w.file)
    ensures Loaded(w.timed).hold == false && Loaded(w.timed).retry == 0 && Loaded(w.timed).saved.away == w.timed.away
  {
    hide StepOf;
    var o := StepOf(w.mem, w.file, j);
    assert o.writes[..0] == [];
  }
}
