/** When the farm goes and when it comes back: the rules of the timer and of block hunting, said of one whole step from
    any state, in minutes and factors. */
module TimedRules {
  import opened PoolFile
  import opened TimedSwitch
  import opened TimedRuns

  const ONE_MINUTE := 60_000_000_000
  const FIVE_MINUTES := 300_000_000_000

  // ---- which pools ----

  /** The first pool marked for the timer. */
  lemma {:induction false} TargetIs(pools: seq<Pool>)
    ensures TargetOf(pools).None? <==> forall i :: 0 <= i < |pools| ==> !pools[i].timedTarget
    ensures TargetOf(pools).Some? ==>
              exists i :: 0 <= i < |pools| && pools[i].id == TargetOf(pools).value && pools[i].timedTarget
                          && forall j :: 0 <= j < i ==> !pools[j].timedTarget
  {
    if pools != [] && !pools[0].timedTarget {
      TargetIs(pools[1..]);
      if TargetOf(pools[1..]).Some? {
        var i :| 0 <= i < |pools| - 1 && pools[1..][i].id == TargetOf(pools).value && pools[1..][i].timedTarget
                 && forall j :: 0 <= j < i ==> !pools[1..][j].timedTarget;
        assert pools[i + 1].id == TargetOf(pools).value;
        forall j | 0 <= j < i + 1 ensures !pools[j].timedTarget {
          assert j > 0 ==> !pools[1..][j - 1].timedTarget;
        }
      } else {
        forall i | 0 <= i < |pools| ensures !pools[i].timedTarget {
          assert i > 0 ==> !pools[1..][i - 1].timedTarget;
        }
      }
    }
  }

  predicate SoloECash(p: Pool) {
    p.coin == "XEC" && p.solo
  }

  /** Block hunting goes to the first eCash solo pool that is marked for the timer, or else to the first one. */
  lemma HuntTargetIs(pools: seq<Pool>)
    ensures HuntTargetOf(pools).None? <==> forall i :: 0 <= i < |pools| ==> !SoloECash(pools[i])
    ensures HuntTargetOf(pools).Some? ==>
              exists i :: 0 <= i < |pools| && pools[i].id == HuntTargetOf(pools).value && SoloECash(pools[i])
                && (pools[i].timedTarget ==> forall j :: 0 <= j < i ==> !(SoloECash(pools[j]) && pools[j].timedTarget))
                && (!pools[i].timedTarget ==>
                      && (forall j :: 0 <= j < |pools| ==> !(SoloECash(pools[j]) && pools[j].timedTarget))
                      && forall j :: 0 <= j < i ==> !SoloECash(pools[j]))
  {
    MarkedIs(pools);
    FirstIs(pools);
    if MarkedHuntPool(pools).None? && FirstHuntPool(pools).Some? {
      var i :| 0 <= i < |pools| && pools[i].id == FirstHuntPool(pools).value && SoloECash(pools[i])
               && forall j :: 0 <= j < i ==> !SoloECash(pools[j]);
      assert !pools[i].timedTarget;
    }
  }

  lemma {:induction false} MarkedIs(pools: seq<Pool>)
    ensures MarkedHuntPool(pools).None? <==> forall i :: 0 <= i < |pools| ==> !(SoloECash(pools[i]) && pools[i].timedTarget)
    ensures MarkedHuntPool(pools).Some? ==>
              exists i :: 0 <= i < |pools| && pools[i].id == MarkedHuntPool(pools).value && SoloECash(pools[i]) && pools[i].timedTarget
                          && forall j :: 0 <= j < i ==> !(SoloECash(pools[j]) && pools[j].timedTarget)
  {
    if pools != [] && !(HuntPool(pools[0]) && pools[0].timedTarget) {
      var rest := pools[1..];
      MarkedIs(rest);
      assert forall j :: 0 < j < |pools| ==> pools[j] == rest[j - 1];
      if MarkedHuntPool(rest).Some? {
        var i :| 0 <= i < |rest| && rest[i].id == MarkedHuntPool(rest).value && SoloECash(rest[i]) && rest[i].timedTarget
                 && forall j :: 0 <= j < i ==> !(SoloECash(rest[j]) && rest[j].timedTarget);
        assert pools[i + 1] == rest[i];
      }
    }
  }

  lemma {:induction false} FirstIs(pools: seq<Pool>)
    ensures FirstHuntPool(pools).None? <==> forall i :: 0 <= i < |pools| ==> !SoloECash(pools[i])
    ensures FirstHuntPool(pools).Some? ==>
              exists i :: 0 <= i < |pools| && pools[i].id == FirstHuntPool(pools).value && SoloECash(pools[i])
                          && forall j :: 0 <= j < i ==> !SoloECash(pools[j])
  {
    if pools != [] && !HuntPool(pools[0]) {
      var rest := pools[1..];
      FirstIs(rest);
      assert forall j :: 0 < j < |pools| ==> pools[j] == rest[j - 1];
      if FirstHuntPool(rest).Some? {
        var i :| 0 <= i < |rest| && rest[i].id == FirstHuntPool(rest).value && SoloECash(rest[i])
                 && forall j :: 0 <= j < i ==> !SoloECash(rest[j]);
        assert pools[i + 1] == rest[i];
      }
    }
  }

  // ---- what counts at a step ----

  /** What is booked and decided in the period of the step: nothing yet when the step begins another one. */
  function SpentNow(w: World, i: Input): int
    requires i.period > 0
  {
    if w.mem.saved.period == PeriodAt(w.mem, i) then w.mem.saved.spent else 0
  }

  predicate DoneNow(w: World, i: Input)
    requires i.period > 0
  {
    w.mem.saved.period == PeriodAt(w.mem, i) && w.mem.saved.done
  }

  /** The time of a stint up to now; the first files noted only its period. */
  function StintTime(a: Away, now: int): int {
    if a.since == 0 then now - a.period else now - a.since
  }

  function LeftNow(w: World, i: Input): int
    requires i.period > 0
  {
    i.duration - SpentNow(w, i)
    - match w.mem.saved.away
      case Some(a) => if a.reason.Timer? && a.period == PeriodAt(w.mem, i) then StintTime(a, i.now) else 0
      case None => 0
  }

  /** The timer wants the farm on its pool: it is on, the period is not done, at least a minute is left of the time and
      of the period, and a block is at most 1.2 times harder than its header says. */
  predicate TimerWants(w: World, i: Input)
    requires i.period > 0
  {
    && i.on && TargetOf(w.file.pools).Some? && !DoneNow(w, i)
    && LeftNow(w, i) >= ONE_MINUTE && PeriodAt(w.mem, i) + i.period - i.now >= ONE_MINUTE && i.hard <= 1.2
  }

  /** Block hunting is free to go: it is on with a pool, sees blocks, finds them easy, does not wait for a block after a
      choice by hand, and did not fail in the last five minutes. */
  predicate HuntWants(w: World, i: Input) {
    && i.hunting && HuntTargetOf(w.file.pools).Some? && i.live && i.huntHard <= 1.2
    && !w.mem.hold && i.now >= w.mem.retry
  }

  /** Block hunting would keep the farm on the target: it is its pool, blocks are seen, and none just arrived. */
  predicate HuntHolds(w: World, i: Input, target: string) {
    && i.hunting && HuntTargetOf(w.file.pools) == Some(target) && i.live && i.huntHard < 2.0 && !w.mem.hold
  }

  lemma WantsIs(w: World, i: Input)
    requires i.period > 0
    ensures TimerWants(w, i) <==> MayLeave(w.mem, w.file, i) && HardAt(w.file, i) <= RESUME_BELOW
    ensures HuntWants(w, i) <==> Wants(Look(w.mem, w.file, i), i.now)
    ensures Noted(w.mem, w.file, i).saved.done == DoneNow(w, i) && Noted(w.mem, w.file, i).saved.spent == SpentNow(w, i)
    ensures LeftAt(Noted(w.mem, w.file, i).saved, PeriodAt(w.mem, i), i) == LeftNow(w, i)
  {
    hide PeriodStart, HuntTargetOf, TargetOf;
  }

  lemma MemoryAfter(w: World, i: Input)
    requires i.period > 0 && i.now > 0
    ensures After(w, Step(i, None)).mem == StepOf(w.mem, w.file, i).mem
  {
    hide StepOf;
  }

  /** Booking a stint or a hunt changes only what is booked. */
  lemma BookedOnly(m: Memory, a: Away, last: bool, now: int)
    ensures var b := Booked(m, a, last, now);
            && b.hold == m.hold && b.retry == m.retry && b.saved.away == m.saved.away
            && (a.reason.Hunt? ==> b.stints == KeptStints(m.stints + [Stint(if a.since == 0 then a.period else a.since, now)], now))
  {
    hide KeptStints;
  }

  lemma ReturningOnly(m: Memory, f: File, a: Away, last: bool, i: Input)
    requires m.saved.away == Some(a)
    ensures var o := Returning(m, f, a, last, i).mem;
            && o.retry == m.retry && (f.active == a.target ==> o.hold == m.hold) && (o.saved.away.Some? ==> o == m)
            && (a.reason.Hunt? && o.saved.away.None? ==>
                  o.stints == KeptStints(m.stints + [Stint(if a.since == 0 then a.period else a.since, i.now)], i.now))
  {
    BookedOnly(m, a, true, i.now);
    BookedOnly(m, a, last, i.now);
    BookedOnly(m.(hold := true), a, true, i.now);
    hide Booked, Restored, Has, KeptStints;
  }

  lemma HandedOverOnly(m: Memory, a: Away, reason: Reason, period: int, now: int)
    ensures var o := HandedOver(m, a, reason, period, now).mem;
            && o.retry == m.retry && o.hold == m.hold && o.saved.away == Some(a.(reason := reason, period := period, since := now))
            && (a.reason.Hunt? ==> o.stints == KeptStints(m.stints + [Stint(if a.since == 0 then a.period else a.since, now)], now))
  {
    BookedOnly(m, a, true, now);
    hide Booked, KeptStints;
  }

  /** Memory after a step away from home. */
  lemma AwayMemory(w: World, i: Input, a: Away)
    requires i.period > 0 && w.mem.saved.away == Some(a)
    ensures var m, o := Noted(w.mem, w.file, i), StepOf(w.mem, w.file, i).mem;
            && m.saved.away == Some(a) && m.retry == w.mem.retry && m.stints == w.mem.stints
            && o.retry == w.mem.retry && (w.file.active == a.target ==> o.hold == m.hold)
            && (a.reason.Hunt? ==>
                  o.stints == if o.saved.away == Some(a) then w.mem.stints
                              else KeptStints(w.mem.stints + [Stint(if a.since == 0 then a.period else a.since, i.now)], i.now))
  {
    var m := Noted(w.mem, w.file, i);
    NotedOnly(w, i);
    ReturningOnly(m, w.file, a, true, i);
    ReturningOnly(m, w.file, a, false, i);
    HandedOverOnly(m, a, Timer, PeriodAt(w.mem, i), i.now);
    HandedOverOnly(m, a, Hunt, 0, i.now);
    hide Returning, HandedOver, Noted, PeriodAt, TargetOf, HuntTargetOf, LeftAt, MayLeave, HardAt, Look,
         TimedSwitch.Keeps, KeptStints, TimerOn;
  }

  lemma NotedOnly(w: World, i: Input)
    requires i.period > 0
    ensures var m := Noted(w.mem, w.file, i);
            m.saved.away == w.mem.saved.away && m.retry == w.mem.retry && m.stints == w.mem.stints
    ensures Noted(w.mem, w.file, i).hold ==
            (w.mem.hold && i.hunting && HuntTargetOf(w.file.pools).Some? && i.huntHard < 2.0)
  {
    hide PeriodStart, HuntTargetOf;
  }

  // ---- going ----

  /** Where the farm is after the step. */
  predicate Stays(w: World, w': World) {
    w'.file == w.file && w'.mem.saved.away == w.mem.saved.away
  }

  predicate WentTo(w: World, w': World, a: Away) {
    && w'.mem.saved.away.Some? && var b := w'.mem.saved.away.value;
    && b == a.(home := w.file.active, fallback := w.file.fallback, order := w'.file.fallback)
    && w'.file == Activated(w.file, a.target, None)
  }

  /** At home the farm goes to the timer's pool exactly when the timer wants it and the pool check passes. */
  lemma StintBeginsExactlyWhen(w: World, i: Input)
    requires i.period > 0 && i.now > 0 && w.mem.saved.away.None?
    ensures var w', away := After(w, Step(i, None)), After(w, Step(i, None)).mem.saved.away;
            && (away.Some? && away.value.reason.Timer? <==>
                  TimerWants(w, i) && w.file.active != "" && TargetOf(w.file.pools) != Some(w.file.active) && i.checkOk)
            && (away.Some? && away.value.reason.Timer? ==>
                  WentTo(w, w', Away(Timer, PeriodAt(w.mem, i), i.now, TargetOf(w.file.pools).value, "", [], [])))
  {
    AtHome(w, i);
  }

  /** At home it goes hunting exactly when the timer does not want it, hunting does, and the pool check passes. */
  lemma HuntBeginsExactlyWhen(w: World, i: Input)
    requires i.period > 0 && i.now > 0 && w.mem.saved.away.None?
    ensures var w', away := After(w, Step(i, None)), After(w, Step(i, None)).mem.saved.away;
            && (away.Some? && away.value.reason.Hunt? <==>
                  && !TimerWants(w, i) && HuntWants(w, i) && w.file.active != ""
                  && HuntTargetOf(w.file.pools) != Some(w.file.active) && i.checkOk)
            && (away.Some? && away.value.reason.Hunt? ==>
                  WentTo(w, w', Away(Hunt, 0, i.now, HuntTargetOf(w.file.pools).value, "", [], [])))
            && (away.None? ==> w'.file == w.file)
  {
    AtHome(w, i);
  }

  /** The timer does not try again in a period in which the check failed, or in which the farm was on its pool anyway;
      a failed hunt waits for five minutes. */
  lemma FailuresWait(w: World, i: Input)
    requires i.period > 0 && i.now > 0 && w.mem.saved.away.None?
    ensures var s, m := After(w, Step(i, None)).mem.saved, After(w, Step(i, None)).mem;
            var stays := w.file.active == "" || TargetOf(w.file.pools) == Some(w.file.active);
            && (s.done <==> DoneNow(w, i) || (TimerWants(w, i) && (stays || !i.checkOk)))
            && m.retry == (if !TimerWants(w, i) && HuntWants(w, i) && w.file.active != ""
                              && HuntTargetOf(w.file.pools) != Some(w.file.active) && !i.checkOk
                           then i.now + FIVE_MINUTES else w.mem.retry)
  {
    AtHome(w, i);
  }

  /** The whole of a step at home. */
  lemma AtHome(w: World, i: Input)
    requires i.period > 0 && i.now > 0 && w.mem.saved.away.None?
    ensures var w' := After(w, Step(i, None));
            var t, h := TargetOf(w.file.pools), HuntTargetOf(w.file.pools);
            && w'.mem.saved.spent == SpentNow(w, i)
            && if TimerWants(w, i) then
              && w'.mem.retry == w.mem.retry
              && if w.file.active == "" || t == Some(w.file.active) || !i.checkOk then
                   Stays(w, w') && w'.mem.saved.done
                 else WentTo(w, w', Away(Timer, PeriodAt(w.mem, i), i.now, t.value, "", [], [])) && w'.mem.saved.done == DoneNow(w, i)
               else
              && w'.mem.saved.done == DoneNow(w, i)
              && if HuntWants(w, i) && w.file.active != "" && h != Some(w.file.active) then
                   if i.checkOk then WentTo(w, w', Away(Hunt, 0, i.now, h.value, "", [], [])) && w'.mem.retry == w.mem.retry
                   else Stays(w, w') && w'.mem.retry == i.now + FIVE_MINUTES
                 else Stays(w, w') && w'.mem.retry == w.mem.retry
  {
    WantsIs(w, i);
    hide PeriodStart, TargetOf, HuntTargetOf, LeftAt, Done, Without, Activated, MayLeave, HardAt, TimerWants, HuntWants,
         Wants, DoneNow, SpentNow, LeftNow;
    var o := StepOf(w.mem, w.file, i);
    TimerTarget(w, i);
    if |o.writes| == 3 {
      DoneThree(w, o, None, o.writes[0].saved, o.writes[1].file, o.writes[2].saved);
    } else if |o.writes| == 2 {
      DoneTwo(w, o, None, o.writes[0], o.writes[1].saved);
    } else {
      StayingDone(w, o);
    }
  }

  lemma TimerTarget(w: World, i: Input)
    requires i.period > 0
    ensures MayLeave(w.mem, w.file, i) ==> TargetOf(w.file.pools).Some?
    ensures HuntWants(w, i) ==> Look(w.mem, w.file, i).target == HuntTargetOf(w.file.pools).value
  {
  }

  // ---- coming back ----

  /** The trip is over: at home again, or where the farm is when home is gone; nothing happens while state.json cannot be
      written. */
  predicate CameBack(w: World, w': World, a: Away, i: Input) {
    if !Has(w.file.pools, a.home) then w'.file == w.file && w'.mem.saved.away.None?
    else if i.writeOk then w'.file == Restored(w.file, a) && w'.mem.saved.away.None?
    else Stays(w, w')
  }

  /** What a stint that is over leaves: its time is booked in its own period, which has no more stints if it was the
      last one. */
  predicate Books(w: World, w': World, a: Away, i: Input, last: bool)
    requires i.period > 0
  {
    var mine := a.period == PeriodAt(w.mem, i);
    && w'.mem.saved.spent == SpentNow(w, i) + (if mine then StintTime(a, i.now) else 0)
    && w'.mem.saved.done == (DoneNow(w, i) || (mine && last))
  }

  predicate Returns(w: World, w': World, a: Away, i: Input, last: bool)
    requires i.period > 0
  {
    CameBack(w, w', a, i) && (w'.mem.saved.away.None? ==> Books(w, w', a, i, last || !Has(w.file.pools, a.home)))
  }

  /** The timer is on and its pool is the one the farm is on. */
  predicate TimersPool(w: World, i: Input, a: Away) {
    i.on && TargetOf(w.file.pools) == Some(a.target)
  }

  lemma OnAway(w: World, i: Input, a: Away, last: bool)
    requires i.period > 0 && i.now > 0 && w.mem.saved.away == Some(a) && w.file.active == a.target && a.reason.Timer?
    requires StepOf(w.mem, w.file, i) == Returning(Noted(w.mem, w.file, i), w.file, a, last, i)
    ensures Returns(w, After(w, Step(i, None)), a, i, last)
  {
    WantsIs(w, i);
    NotedPeriod(w, i);
    hide PeriodStart, TargetOf, HuntTargetOf, Restored, Done, Noted, SpentNow, DoneNow, StepOf, KeptStints, Has;
    var o := StepOf(w.mem, w.file, i);
    ReturningIs(Noted(w.mem, w.file, i), w.file, a, last, i);
    if |o.writes| == 2 {
      DoneTwo(w, o, None, o.writes[0], o.writes[1].saved);
    } else {
      StayingDone(w, o);
    }
  }

  lemma NotedPeriod(w: World, i: Input)
    requires i.period > 0
    ensures var m := Noted(w.mem, w.file, i); m.saved.period == PeriodAt(w.mem, i) && m.saved.away == w.mem.saved.away
  {
    hide PeriodStart;
  }

  lemma ReturningIs(m: Memory, f: File, a: Away, last: bool, i: Input)
    requires f.active == a.target && a.reason.Timer? && m.saved.away == Some(a)
    ensures var o := Returning(m, f, a, last, i);
            var final := last || !Has(f.pools, a.home);
            var mine := a.period == m.saved.period;
            if Has(f.pools, a.home) && !i.writeOk then o == Outcome(m, [])
            else
              && o.mem.saved == Saved(None, m.saved.period, m.saved.spent + (if mine then StintTime(a, i.now) else 0),
                                      m.saved.done || (mine && final), m.saved.anchor)
              && o.writes == (if Has(f.pools, a.home) then [ToState(Restored(f, a))] else []) + [ToTimed(o.mem.saved)]
  {
    hide Restored, Has;
  }

  /** On its pool in another period: the time there begins anew, or, right after a block, the farm goes home and may come
      back in the new period. */
  lemma NewPeriodOnPool(w: World, i: Input, a: Away)
    requires i.period > 0 && i.now > 0 && w.mem.saved.away == Some(a) && a.reason.Timer? && w.file.active == a.target
    requires TimersPool(w, i, a) && a.period != PeriodAt(w.mem, i)
    ensures var w' := After(w, Step(i, None));
            if i.hard < 2.0 then
              && w'.file == w.file && w'.mem.saved.away == Some(a.(period := PeriodAt(w.mem, i), since := i.now))
              && w'.mem.saved.spent == SpentNow(w, i) && w'.mem.saved.done == DoneNow(w, i)
            else Returns(w, w', a, i, false)
  {
    WantsIs(w, i);
    NotedPeriod(w, i);
    hide PeriodStart, TargetOf, HuntTargetOf, Returning, Noted, LeftAt, MayLeave, Done, Has, Restored, SpentNow, DoneNow, Returns;
    var o := StepOf(w.mem, w.file, i);
    if i.hard < 2.0 {
      StayingDone(w, o);
    } else {
      OnAway(w, i, a, false);
    }
  }

  /** The stint is over when the timer is off, its pool is another one, or its time is used up: block hunting takes the
      farm over if it would have it there, else it goes home, for this period. */
  predicate StintIsOver(w: World, i: Input, a: Away)
    requires i.period > 0
  {
    !TimersPool(w, i, a) || (a.period == PeriodAt(w.mem, i) && LeftNow(w, i) <= 0)
  }

  lemma StintEnds(w: World, i: Input, a: Away)
    requires i.period > 0 && i.now > 0 && w.mem.saved.away == Some(a) && a.reason.Timer? && w.file.active == a.target
    requires StintIsOver(w, i, a)
    ensures var w' := After(w, Step(i, None));
            if HuntHolds(w, i, a.target) then
              && w'.file == w.file && w'.mem.saved.away == Some(a.(reason := Hunt, period := 0, since := i.now))
              && Books(w, w', a, i, true)
            else Returns(w, w', a, i, true)
  {
    WantsIs(w, i);
    NotedPeriod(w, i);
    HoldsIs(w, i, a);
    var m := Noted(w.mem, w.file, i);
    hide PeriodStart, TargetOf, HuntTargetOf, Returning, Noted, LeftAt, MayLeave, Done, Has, Restored, SpentNow, DoneNow,
         Returns, TimedSwitch.Keeps, HuntHolds, LeftNow, KeptStints, Look;
    var o := StepOf(w.mem, w.file, i);
    if HuntHolds(w, i, a.target) {
      assert o == HandedOver(m, a, Hunt, 0, i.now);
      StayingDone(w, o);
    } else {
      assert o == Returning(m, w.file, a, true, i);
      OnAway(w, i, a, true);
    }
  }

  lemma HoldsIs(w: World, i: Input, a: Away)
    requires i.period > 0
    ensures HuntHolds(w, i, a.target) <==> TimedSwitch.Keeps(Look(w.mem, w.file, i), a)
  {
  }

  /** With time left the farm pauses right after a block, if a minute or more is left, and else stays. */
  lemma StintGoesOn(w: World, i: Input, a: Away)
    requires i.period > 0 && i.now > 0 && w.mem.saved.away == Some(a) && a.reason.Timer? && w.file.active == a.target
    requires !StintIsOver(w, i, a) && a.period == PeriodAt(w.mem, i)
    ensures var w' := After(w, Step(i, None));
            if i.hard >= 2.0 && LeftNow(w, i) >= ONE_MINUTE then Returns(w, w', a, i, false)
            else Stays(w, w') && w'.mem.saved.spent == SpentNow(w, i) && w'.mem.saved.done == DoneNow(w, i)
  {
    WantsIs(w, i);
    NotedPeriod(w, i);
    hide PeriodStart, TargetOf, HuntTargetOf, Returning, Noted, LeftAt, MayLeave, Done, Has, Restored, SpentNow, DoneNow,
         Returns, LeftNow;
    var o := StepOf(w.mem, w.file, i);
    if i.hard >= 2.0 && LeftNow(w, i) >= ONE_MINUTE {
      OnAway(w, i, a, false);
    } else {
      StayingDone(w, o);
    }
  }

  // ---- a hunt ----

  /** A hunt on its pool: the timer takes the farm over if it wants the same pool; the farm goes home when the timer wants
      another one, hunting is off or has another pool, blocks are not seen, or one just arrived; else it stays. */
  lemma HuntGoesOnUnless(w: World, i: Input, a: Away)
    requires i.period > 0 && i.now > 0 && w.mem.saved.away == Some(a) && a.reason.Hunt? && w.file.active == a.target
    ensures var w' := After(w, Step(i, None));
            && w'.mem.saved.spent == SpentNow(w, i) && w'.mem.saved.done == DoneNow(w, i)
            && if TimerWants(w, i) && TargetOf(w.file.pools) == Some(a.target) then
                 w'.file == w.file && w'.mem.saved.away == Some(a.(reason := Timer, period := PeriodAt(w.mem, i), since := i.now))
               else if TimerWants(w, i) || !i.hunting || HuntTargetOf(w.file.pools) != Some(a.target) || !i.live
                       || i.huntHard >= 2.0 then
                 CameBack(w, w', a, i)
               else Stays(w, w')
  {
    WantsIs(w, i);
    NotedPeriod(w, i);
    LookIs(w, i);
    hide PeriodStart, TargetOf, HuntTargetOf, Noted, LeftAt, MayLeave, Done, Has, Restored, SpentNow, DoneNow,
         TimerWants, HardAt, KeptStints, Look, Wants;
    var o := StepOf(w.mem, w.file, i);
    if |o.writes| == 2 {
      DoneTwo(w, o, None, o.writes[0], o.writes[1].saved);
    } else {
      StayingDone(w, o);
    }
  }

  lemma LookIs(w: World, i: Input)
    ensures var h := Look(w.mem, w.file, i);
            && h.on == (i.hunting && HuntTargetOf(w.file.pools).Some?)
            && (h.on ==> h.target == HuntTargetOf(w.file.pools).value && h.hard == i.huntHard && h.live == i.live)
  {
    hide HuntTargetOf;
  }

  /** A hunt that ends is remembered with its beginning and end, however it ends. */
  lemma HuntIsRecorded(w: World, i: Input, a: Away)
    requires i.period > 0 && i.now > 0 && w.mem.saved.away == Some(a) && a.reason.Hunt?
    ensures var m := After(w, Step(i, None)).mem;
            m.stints == if m.saved.away == Some(a) then w.mem.stints
                        else KeptStints(w.mem.stints + [Stint(if a.since == 0 then a.period else a.since, i.now)], i.now)
  {
    hide StepOf, Noted, KeptStints, After;
    MemoryAfter(w, i);
    AwayMemory(w, i, a);
  }

  /** A pool chosen by hand during a stint ends it for the period, with its time booked up to now. */
  lemma ChoiceEndsStint(w: World, i: Input, a: Away)
    requires i.period > 0 && i.now > 0 && w.mem.saved.away == Some(a) && a.reason.Timer? && w.file.active != a.target
    ensures var w' := After(w, Step(i, None));
            w'.file == w.file && w'.mem.saved.away.None? && w'.mem.hold && Books(w, w', a, i, true)
  {
    WantsIs(w, i);
    NotedPeriod(w, i);
    hide PeriodStart, TargetOf, HuntTargetOf, LeftAt, MayLeave, Done, Has, Restored, Noted, SpentNow, DoneNow, KeptStints, Look;
    StayingDone(w, StepOf(w.mem, w.file, i));
  }

  // ---- waits ----

  /** The wait after a choice by hand ends at a block, or while hunting is off or has no pool. */
  lemma WaitEndsExactlyWhen(w: World, i: Input)
    requires i.period > 0 && i.now > 0
    requires w.mem.saved.away.Some? ==> w.file.active == w.mem.saved.away.value.target
    ensures var w' := After(w, Step(i, None));
            w'.mem.hold == (w.mem.hold && i.hunting && HuntTargetOf(w.file.pools).Some? && i.huntHard < 2.0)
  {
    hide StepOf, Noted, KeptStints, After, HuntTargetOf;
    MemoryAfter(w, i);
    NotedOnly(w, i);
    if w.mem.saved.away.Some? {
      AwayMemory(w, i, w.mem.saved.away.value);
    } else {
      HomeHold(w, i);
    }
  }

  lemma HomeHold(w: World, i: Input)
    requires i.period > 0 && w.mem.saved.away.None?
    ensures StepOf(w.mem, w.file, i).mem.hold == Noted(w.mem, w.file, i).hold
  {
    TimerTarget(w, i);
    NotedOnly(w, i);
    hide PeriodAt, TargetOf, HuntTargetOf, LeftAt, MayLeave, Noted, Look, Wants, HardAt, Activated;
  }

  /** Over whole steps, restarts of the schedule and changes by hand. */
  predicate Whole(e: Event) {
    Timely(e) && (!e.Operator? ==> e.cut.None?)
  }

  lemma RetryLater(w: World, e: Event)
    requires Whole(e)
    ensures After(w, e).mem.retry >= w.mem.retry
    ensures e.Step? && e.i.now < w.mem.retry && w.mem.saved.away.None? ==>
              var away := After(w, e).mem.saved.away; away.Some? ==> away.value.reason.Timer?
  {
    match e
    case Step(i, cut) =>
      hide StepOf, Noted, After, TimerWants, HuntWants;
      if w.mem.saved.away.None? {
        HuntOnTime(w, i);
        AtHome(w, i);
      } else {
        MemoryAfter(w, i);
        AwayMemory(w, i, w.mem.saved.away.value);
      }
    case StartNow(i, cut) =>
      StartRetry(w, i);
    case Operator(_, _) =>
  }

  lemma HuntOnTime(w: World, i: Input)
    ensures HuntWants(w, i) ==> i.now >= w.mem.retry
  {
    hide HuntTargetOf;
  }

  lemma StartRetry(w: World, i: Input)
    requires i.period > 0 && i.now > 0
    ensures After(w, StartNow(i, None)).mem.retry == w.mem.retry
  {
    hide TargetOf, KeptStints;
  }

  /** After a failed hunt no other one begins before its time, whatever else happens but a stop of the proxy. */
  lemma {:induction false} NoHuntBefore(w: World, events: seq<Event>, i: Input)
    requires AllTimely(events) && (forall n :: 0 <= n < |events| ==> Whole(events[n])) && i.period > 0 && 0 < i.now < w.mem.retry
    requires Play(w, events).mem.saved.away.None?
    ensures var away := After(Play(w, events), Step(i, None)).mem.saved.away; away.Some? ==> away.value.reason.Timer?
  {
    RetryGrows(w, events);
    RetryLater(Play(w, events), Step(i, None));
    hide After, Play;
  }

  lemma {:induction false} RetryGrows(w: World, events: seq<Event>)
    requires AllTimely(events) && forall n :: 0 <= n < |events| ==> Whole(events[n])
    ensures Play(w, events).mem.retry >= w.mem.retry
  {
    hide After;
    if events != [] {
      var n := |events| - 1;
      RetryGrows(w, events[..n]);
      assert Whole(events[n]);
      RetryLater(Play(w, events[..n]), events[n]);
    }
  }

  /** A restart by hand gives the period its whole time again and makes a farm at home go at the next step. */
  lemma StartNowGoesThere(w: World, i: Input, j: Input)
    requires i.period > 0 && i.now > 0 && w.mem.saved.away.None? && CanStart(w.file, i).Started?
    requires i.now <= j.now && j.period - (j.now - i.now) >= ONE_MINUTE && j.duration >= ONE_MINUTE
    requires j.on && j.hard <= 1.2 && j.checkOk && w.file.active != "" && TargetOf(w.file.pools) != Some(w.file.active)
    ensures var v := After(w, StartNow(i, None)); var w' := After(v, Step(j, None));
            && v.mem.saved.spent == 0 && !v.mem.saved.done
            && w'.mem.saved.away.Some? && w'.mem.saved.away.value.reason.Timer? && w'.file.active == TargetOf(w.file.pools).value
  {
    var v := After(w, StartNow(i, None));
    var o := StartOf(w.mem, w.file, i);
    assert v.mem == o.mem && v.file == w.file by {
      StayingDone(w, o);
    }
    assert PeriodAt(v.mem, j) == i.now by {
      Small(j.now - i.now, j.period);
    }
    hide After, TargetOf, PeriodAt, StartOf;
    StintBeginsExactlyWhen(v, j);
  }

  lemma Small(x: int, m: int)
    requires 0 <= x < m
    ensures x % m == x
  {
  }

  /** A file without a period of its own gets that of its trip; nothing else of it changes. */
  lemma OldFiles(s: Saved)
    ensures var m := Loaded(s);
            && m.saved == s.(period := m.saved.period) && !m.hold && m.retry == 0 && m.stints == []
            && m.saved.period == if s.period == 0 && s.away.Some? then s.away.value.period else s.period
  {
  }
}
