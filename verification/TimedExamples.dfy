/** Two farms with valid files: one that a restart sends hunting against the operator's choice, and one that loses a
    pool from its fallback order when the proxy stops at the wrong moment. */
module TimedExamples {
  import opened PoolFile
  import opened TimedSwitch
  import opened TimedRuns
  import opened TimedChoice
  import opened ExamplePools
  import PoolManager

  /** The step of a farm that hunts with the timer off, of one with only the timer on, and of one with both off. */
  const HUNTING := Input(100 * MINUTE, false, 30 * MINUTE, 10 * MINUTE, 1.0, true, 1.0, true, true, true)
  const TIMED := Input(90 * MINUTE, true, 30 * MINUTE, 10 * MINUTE, 1.0, false, 1.0, false, true, true)
  const BOTH_OFF := Input(91 * MINUTE, false, 30 * MINUTE, 10 * MINUTE, 1.0, false, 1.0, false, true, true)

  lemma Targets()
    ensures TargetOf(POOLS) == Some("solo") && HuntTargetOf(POOLS) == Some("solo")
    ensures Has(POOLS, "home") && Has(POOLS, "other") && Has(POOLS, "solo")
  {
    var p1, p2 := [OTHER, SOLO], [SOLO];
    assert POOLS[1..] == p1 && p1[1..] == p2;
    assert TargetOf(p2) == Some("solo") && MarkedHuntPool(p2) == Some("solo");
    assert TargetOf(p1) == Some("solo") && MarkedHuntPool(p1) == Some("solo");
    assert POOLS[0].id == "home" && POOLS[1].id == "other" && POOLS[2].id == "solo";
  }

  /** The farm hunted from home on solo when the operator chose other. */
  const CHOSEN := File("other", [], POOLS)
  const HUNT := Saved(Some(Away(Hunt, 0, 90 * MINUTE, "solo", "home", [], ["home"])), 90 * MINUTE, 0, false, 0)

  /** The wait after a choice by hand is only in memory.  Without a restart the next step leaves the farm alone; a
      restart drops the wait, and then the same step hunts. */
  lemma RestartForgets(t: PoolManager.Text, w: World)
    requires w.file == CHOSEN && w.mem.saved == HUNT && w.timed == HUNT
    ensures PoolManager.WellFormed(t, w.file)
    ensures !Moves(After(w, Step(HUNTING, None)), HUNTING) && Moves(Restarted(w, HUNTING, HUNTING), HUNTING)
  {
    IdsAreOk();
    Targets();
    PoolsAreOk(t, "other", []);
    Noticed(w, HUNTING);
    var noticed := After(w, Step(HUNTING, None));
    MovedExactlyWhen(noticed, HUNTING);
    StandsOverRestartUnless(w, HUNTING, HUNTING, HUNTING);
    hide Moves, Restarted, After;
    assert !TimerDue(noticed, HUNTING) && !TimerDue(Restarted(w, HUNTING, HUNTING), HUNTING);
  }

  /** The farm is at home, with solo first among its fallbacks. */
  const AT_HOME := File("home", ["solo", "other"], POOLS)

  lemma Leaves(w: World)
    requires w.file == AT_HOME && w.mem.saved == Saved(None, 0, 0, false, 0) && w.timed == w.mem.saved
    ensures var o := StepOf(w.mem, w.file, TIMED);
            |o.writes| == 3 && o.writes[1].ToState? && o.writes[1].file.active == "solo"
  {
    IdsAreOk();
    Targets();
    hide TargetOf, HuntTargetOf, Without;
    assert PeriodAt(w.mem, TIMED) == 90 * MINUTE;
  }

  /** A stop right after the switch to solo costs the order that pool; without the stop it comes back whole. */
  lemma TargetIsLost(t: PoolManager.Text, w: World)
    requires w.file == AT_HOME && w.mem.saved == Saved(None, 0, 0, false, 0) && w.timed == w.mem.saved
    ensures PoolManager.WellFormed(t, w.file)
    ensures var cut := After(After(w, Step(TIMED, Some(2))), Step(BOTH_OFF, None));
            var whole := After(After(w, Step(TIMED, None)), Step(BOTH_OFF, None));
            && cut.file.active == "home" && cut.file.fallback == ["other"]
            && whole.file.active == "home" && whole.file.fallback == ["solo", "other"]
  {
    IdsAreOk();
    Targets();
    PoolsAreOk(t, "home", ["solo", "other"]);
    hide PoolManager.WellFormed;
    OrdersBack(w);
  }

  lemma OrdersBack(w: World)
    requires w.file == AT_HOME && w.mem.saved == Saved(None, 0, 0, false, 0) && w.timed == w.mem.saved
    requires RolesOk(w.file)
    ensures var cut := After(After(w, Step(TIMED, Some(2))), Step(BOTH_OFF, None));
            var whole := After(After(w, Step(TIMED, None)), Step(BOTH_OFF, None));
            && cut.file.active == "home" && cut.file.fallback == ["other"]
            && whole.file.active == "home" && whole.file.fallback == ["solo", "other"]
  {
    assert Fresh(w);
    ComesBack(w, Some(2));
    ComesBack(w, None);
    Leaves(w);
    hide After, StepOf, RolesOk, Fresh;
    var ids := ["solo", "other"];
    assert ids[..1] == ["solo"] && ids[..1][..0] == [];
    assert Without(ids, "solo") == ["other"];
  }

  lemma ComesBack(w: World, cut: Option<int>)
    requires Fresh(w) && w.file == AT_HOME && w.mem.saved == Saved(None, 0, 0, false, 0) && w.timed == w.mem.saved
    ensures var e := Step(TIMED, cut); var w' := After(After(w, e), Step(BOTH_OFF, None));
            && w'.file.active == "home"
            && w'.file.fallback == if CutLeave(w, e) then Without(w.file.fallback, "solo") else w.file.fallback
  {
    hide StepOf;
    var e := Step(TIMED, cut);
    var events := [e];
    assert events[..0] == [] && events[..1] == events;
    assert Play(w, events[..0]) == w && Play(w, events) == After(w, e);
    assert SilentRun(w, events);
    NeverStranded(w, events, BOTH_OFF);
    assert Expected(w, []) == w.file.fallback;
    Leaves(w);
    if CutLeave(w, e) {
      var o := StepOf(w.mem, w.file, TIMED);
      assert o.writes[..2] == [o.writes[0]] + [o.writes[1]];
      AfterSnoc(w.timed, w.file, [o.writes[0]], o.writes[1]);
    }
  }
}
