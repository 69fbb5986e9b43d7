/** Whole runs of timed switching and block hunting, cut anywhere between two durable writes: the farm always finds
    the way back to the pool and the fallback order it left. */
module TimedRuns {
  import opened PoolFile
  import opened TimedSwitch

  /** The switcher in memory, timed.json and state.json. */
  datatype World = World(mem: Memory, timed: Saved, file: File)

  /** cut, if given, is how many writes an operation makes before the proxy stops; it starts again from its files.
      Operator is any change of state.json by hand. */
  datatype Event =
    | Step(i: Input, cut: Option<int>)
    | StartNow(i: Input, cut: Option<int>)
    | Operator(file: File, now: int)

  function At(e: Event): int {
    if e.Operator? then e.now else e.i.now
  }

  function TimedAfter(t: Saved, writes: seq<Write>): Saved {
    if writes == [] then t else
      match writes[|writes| - 1]
      case ToTimed(saved) => saved
      case ToState(_) => TimedAfter(t, writes[..|writes| - 1])
  }

  function FileAfter(f: File, writes: seq<Write>): File {
    if writes == [] then f else
      match writes[|writes| - 1]
      case ToTimed(_) => FileAfter(f, writes[..|writes| - 1])
      case ToState(file) => file
  }

  function Done(w: World, o: Outcome, cut: Option<int>): World {
    match cut
    case None => World(o.mem, TimedAfter(w.timed, o.writes), FileAfter(w.file, o.writes))
    case Some(k) =>
      var made := if 0 <= k <= |o.writes| then o.writes[..k] else o.writes;
      var t := TimedAfter(w.timed, made);
      World(Loaded(t), t, FileAfter(w.file, made))
  }

  lemma {:induction false} TimedAfterCases(t: Saved, writes: seq<Write>)
    ensures (TimedAfter(t, writes) == t && forall x :: x in writes ==> x.ToState?) || ToTimed(TimedAfter(t, writes)) in writes
  {
    if writes != [] {
      TimedAfterCases(t, writes[..|writes| - 1]);
      assert writes == writes[..|writes| - 1] + [writes[|writes| - 1]];
    }
  }

  predicate Timely(e: Event) {
    At(e) > 0 && (!e.Operator? ==> e.i.period > 0)
  }

  function After(w: World, e: Event): World
    requires Timely(e)
  {
    match e
    case Step(i, cut) => Done(w, StepOf(w.mem, w.file, i), cut)
    case StartNow(i, cut) => Done(w, StartOf(w.mem, w.file, i), cut)
    case Operator(file, _) => w.(file := file)
  }

  predicate AllTimely(events: seq<Event>) {
    forall n :: 0 <= n < |events| ==> Timely(events[n])
  }

  function Play(w: World, events: seq<Event>): World
    requires AllTimely(events)
  {
    if events == [] then w else After(Play(w, events[..|events| - 1]), events[|events| - 1])
  }

  // ---- the shapes of an operation ----

  predicate SameTrip(x: Option<Away>, y: Option<Away>) {
    match x
    case None => y.None?
    case Some(a) =>
      && y.Some? && y.value.target == a.target && y.value.home == a.home
      && y.value.fallback == a.fallback && y.value.order == a.order
  }

  predicate Still(m: Memory, o: Outcome) {
    o.writes == [] && o.mem.saved.away == m.saved.away
  }

  /** Only the reason or the schedule changes. */
  predicate Noting(m: Memory, o: Outcome) {
    o.writes == [ToTimed(o.mem.saved)] && SameTrip(m.saved.away, o.mem.saved.away)
  }

  /** The trip is over without a switch. */
  predicate Forgetting(m: Memory, f: File, o: Outcome) {
    && m.saved.away.Some? && (f.active != m.saved.away.value.target || !Has(f.pools, m.saved.away.value.home))
    && o.mem.saved.away.None? && o.writes == [ToTimed(o.mem.saved)]
  }

  predicate Homing(m: Memory, f: File, o: Outcome) {
    && m.saved.away.Some? && f.active == m.saved.away.value.target && Has(f.pools, m.saved.away.value.home)
    && o.mem.saved.away.None?
    && o.writes == [ToState(Restored(f, m.saved.away.value)), ToTimed(o.mem.saved)]
  }

  predicate Intent(f: File, w: Write) {
    && w.ToTimed? && w.saved.away.Some?
    && var a := w.saved.away.value;
       a.home == f.active && a.fallback == f.fallback && a.order == [] && a.target != f.active && Has(f.pools, a.target)
  }

  predicate Failing(m: Memory, f: File, o: Outcome) {
    && m.saved.away.None? && f.active != "" && |o.writes| == 2 && Intent(f, o.writes[0])
    && o.writes[1] == ToTimed(o.mem.saved) && o.mem.saved.away.None?
  }

  predicate Going(m: Memory, f: File, o: Outcome) {
    && m.saved.away.None? && f.active != "" && |o.writes| == 3 && Intent(f, o.writes[0])
    && var a := o.writes[0].saved.away.value;
    && var f' := Activated(f, a.target, None);
    && o.writes[1] == ToState(f') && o.writes[2] == ToTimed(o.mem.saved)
    && o.mem.saved.away == Some(a.(order := f'.fallback))
  }

  predicate Shaped(m: Memory, f: File, o: Outcome) {
    Still(m, o) || Noting(m, o) || Forgetting(m, f, o) || Homing(m, f, o) || Failing(m, f, o) || Going(m, f, o)
  }

  lemma {:induction false} TargetExists(pools: seq<Pool>)
    ensures TargetOf(pools).Some? ==> Has(pools, TargetOf(pools).value)
    ensures HuntTargetOf(pools).Some? ==> Has(pools, HuntTargetOf(pools).value)
  {
    if pools != [] {
      TargetExists(pools[1..]);
      assert pools[0].id == pools[0].id;
      HasTail(pools);
    }
  }

  lemma HasTail(pools: seq<Pool>)
    requires pools != []
    ensures forall id :: Has(pools[1..], id) ==> Has(pools, id)
  {
    forall id | Has(pools[1..], id) ensures Has(pools, id) {
      var k :| 0 <= k < |pools[1..]| && pools[1..][k].id == id;
      assert pools[k + 1].id == id;
    }
  }

  lemma ReturningShape(m: Memory, f: File, final: bool, i: Input)
    requires m.saved.away.Some?
    ensures Shaped(m, f, Returning(m, f, m.saved.away.value, final, i))
  {
    hide Restored, Booked;
  }

  lemma LeavingShape(m: Memory, f: File, a: Away, i: Input)
    requires m.saved.away.None? && a.order == [] && f.active != "" && a.target != f.active && Has(f.pools, a.target)
    ensures Shaped(m, f, Leaving(m, f, a, i))
  {
    hide Activated, Has;
  }

  lemma StepShape(m: Memory, f: File, i: Input)
    requires i.period > 0
    ensures Shaped(m, f, StepOf(m, f, i))
  {
    hide PeriodStart, Activated, Restored, Has, Shaped, Returning, Leaving, LeftAt, Booked;
    var m1 := Noted(m, f, i);
    assert m1.saved.away == m.saved.away;
    assert Shaped(m, f, StepOf(m, f, i)) by {
      ShapedFrom(m, m1, f, StepOf(m, f, i));
      NotingIsShaped(m1, f, StepOf(m, f, i));
      TargetExists(f.pools);
      if m.saved.away.Some? {
        ReturningShape(m1, f, true, i);
        ReturningShape(m1, f, false, i);
        hide HuntTargetOf;
      } else {
        var timer := Away(Timer, PeriodAt(m, i), i.now, if TargetOf(f.pools).Some? then TargetOf(f.pools).value else "", "", [], []);
        var hunt := Away(Hunt, 0, i.now, Look(m, f, i).target, "", [], []);
        if f.active != "" && TargetOf(f.pools).Some? && f.active != timer.target {
          LeavingShape(m1, f, timer, i);
        }
        if f.active != "" && Look(m, f, i).on && f.active != hunt.target {
          LeavingShape(m1, f, hunt, i);
        }
      }
    }
  }

  lemma NotingIsShaped(m: Memory, f: File, o: Outcome)
    ensures Noting(m, o) || Still(m, o) ==> Shaped(m, f, o)
  {
  }

  lemma ShapedFrom(m: Memory, m1: Memory, f: File, o: Outcome)
    requires m1.saved.away == m.saved.away
    ensures Shaped(m1, f, o) ==> Shaped(m, f, o)
  {
  }

  lemma StartShape(m: Memory, f: File, i: Input)
    ensures Shaped(m, f, StartOf(m, f, i)) && |StartOf(m, f, i).writes| <= 1
  {
    hide KeptStints, TargetOf;
  }

  // ---- never stranded ----

  predicate ValidOrder(pools: seq<Pool>, ids: seq<string>, home: string) {
    Distinct(ids) && home !in ids && forall id :: id in ids ==> Has(pools, id)
  }

  /** The farm is at home, or on the target of a trip that leads home. */
  predicate OnTheWay(f: File, away: Option<Away>, home: string) {
    match away
    case None => f.active == home
    case Some(a) =>
      && a.home == home && a.target != home && (f.active == home || f.active == a.target)
      && ValidOrder(f.pools, a.fallback, home)
  }

  predicate Inv(w: World, home: string) {
    && RolesOk(w.file) && Has(w.file.pools, home) && w.mem.saved.away == w.timed.away
    && OnTheWay(w.file, w.timed.away, home)
  }

  /** The fallback order the farm ends with once it is at home. */
  function HomeOrder(f: File, away: Option<Away>, home: string): seq<string> {
    if f.active == home || away.None? then f.fallback else Restored(f, away.value).fallback
  }

  /** The operator changes pools and settings, but neither switches, reorders the fallbacks nor deletes a pool. */
  ghost predicate Silent(w: World, e: Event) {
    e.Operator? ==>
      && e.file.active == w.file.active && e.file.fallback == w.file.fallback && RolesOk(e.file)
      && forall id :: Has(w.file.pools, id) ==> Has(e.file.pools, id)
  }

  /** The proxy stopped after the switch to the target, before its second save. */
  predicate CutLeave(w: World, e: Event)
    requires Timely(e)
  {
    e.Step? && e.cut == Some(2) && |StepOf(w.mem, w.file, e.i).writes| == 3
  }

  predicate Keeps(w: World, w': World, home: string, lost: bool) {
    && Inv(w', home)
    && var order := HomeOrder(w.file, w.timed.away, home);
       HomeOrder(w'.file, w'.timed.away, home) == if lost then Without(order, w'.file.active) else order
  }

  lemma StillKeeps(w: World, o: Outcome, cut: Option<int>, home: string)
    requires Inv(w, home) && Still(w.mem, o)
    ensures Keeps(w, Done(w, o, cut), home, false)
  {
    hide HomeOrder, RolesOk, OnTheWay;
  }

  lemma AfterSnoc(t: Saved, f: File, writes: seq<Write>, x: Write)
    ensures TimedAfter(t, writes + [x]) == if x.ToTimed? then x.saved else TimedAfter(t, writes)
    ensures FileAfter(f, writes + [x]) == if x.ToTimed? then FileAfter(f, writes) else x.file
  {
    assert (writes + [x])[..|writes|] == writes;
  }

  function Reboot(t: Saved, f: File): World {
    World(Loaded(t), t, f)
  }

  /** The four worlds three writes may end in. */
  lemma DoneThree(w: World, o: Outcome, cut: Option<int>, x: Saved, f: File, y: Saved)
    requires o.writes == [ToTimed(x), ToState(f), ToTimed(y)]
    ensures Done(w, o, cut) == match cut
                               case None => World(o.mem, y, f)
                               case Some(k) =>
                                 if k == 0 then Reboot(w.timed, w.file) else if k == 1 then Reboot(x, w.file)
                                 else if k == 2 then Reboot(x, f) else Reboot(y, f)
  {
    var ws := o.writes;
    assert ws[..0] == [] && ws[..1] == [] + [ws[0]] && ws[..2] == ws[..1] + [ws[1]] && ws[..3] == ws[..2] + [ws[2]] == ws;
    AfterSnoc(w.timed, w.file, [], ws[0]);
    AfterSnoc(w.timed, w.file, ws[..1], ws[1]);
    AfterSnoc(w.timed, w.file, ws[..2], ws[2]);
  }

  lemma DoneTwo(w: World, o: Outcome, cut: Option<int>, x: Write, y: Saved)
    requires o.writes == [x, ToTimed(y)]
    ensures var t1, f1 := if x.ToTimed? then x.saved else w.timed, if x.ToTimed? then w.file else x.file;
            Done(w, o, cut) == match cut
                               case None => World(o.mem, y, f1)
                               case Some(k) =>
                                 if k == 0 then Reboot(w.timed, w.file) else if k == 1 then Reboot(t1, f1)
                                 else Reboot(y, f1)
  {
    var ws := o.writes;
    assert ws[..0] == [] && ws[..1] == [] + [ws[0]] && ws[..2] == ws[..1] + [ws[1]] == ws;
    AfterSnoc(w.timed, w.file, [], ws[0]);
    AfterSnoc(w.timed, w.file, ws[..1], ws[1]);
  }

  lemma DoneOne(w: World, o: Outcome, cut: Option<int>, x: Saved)
    requires o.writes == [ToTimed(x)]
    ensures Done(w, o, cut) == match cut
                               case None => World(o.mem, x, w.file)
                               case Some(k) => if k == 0 then Reboot(w.timed, w.file) else Reboot(x, w.file)
  {
    assert o.writes[..0] == [] && o.writes[..1] == [] + [o.writes[0]] == o.writes;
    AfterSnoc(w.timed, w.file, [], o.writes[0]);
  }

  lemma NotingKeeps(w: World, o: Outcome, cut: Option<int>, home: string)
    requires Inv(w, home) && (Noting(w.mem, o) || Forgetting(w.mem, w.file, o))
    ensures Keeps(w, Done(w, o, cut), home, false)
  {
    hide Done, RolesOk, ExistingOnce;
    DoneOne(w, o, cut, o.mem.saved);
  }

  lemma HomingKeeps(w: World, o: Outcome, cut: Option<int>, home: string)
    requires Inv(w, home) && Homing(w.mem, w.file, o)
    ensures Keeps(w, Done(w, o, cut), home, false)
  {
    hide RolesOk, ExistingOnce, Has, ValidOrder, Distinct, Done;
    var a := w.mem.saved.away.value;
    DoneTwo(w, o, cut, o.writes[0], o.mem.saved);
    ActivatedKeepsRoles(w.file, home, Some(if w.file.fallback == a.order then a.fallback else w.file.fallback));
  }

  lemma FailingKeeps(w: World, o: Outcome, cut: Option<int>, home: string)
    requires Inv(w, home) && Failing(w.mem, w.file, o)
    ensures Keeps(w, Done(w, o, cut), home, false)
  {
    hide ExistingOnce, Has, Distinct, Done;
    DoneTwo(w, o, cut, o.writes[0], o.mem.saved);
  }

  lemma GoingKeeps(w: World, o: Outcome, cut: Option<int>, home: string)
    requires Inv(w, home) && Going(w.mem, w.file, o)
    ensures Keeps(w, Done(w, o, cut), home, cut == Some(2))
  {
    hide ExistingOnce, Has, Distinct, Without, Done;
    var target := o.writes[0].saved.away.value.target;
    var f' := Activated(w.file, target, None);
    DoneThree(w, o, cut, o.writes[0].saved, f', o.mem.saved);
    ActivatedKeepsRoles(w.file, target, None);
    ThereAndBack(w.file, target);
    WithoutAbsent(w.file.fallback, home);
  }

  lemma OutcomeKeeps(w: World, o: Outcome, cut: Option<int>, home: string)
    requires Inv(w, home) && Shaped(w.mem, w.file, o)
    ensures Keeps(w, Done(w, o, cut), home, cut == Some(2) && |o.writes| == 3)
  {
    hide Inv, Done, Keeps;
    if Still(w.mem, o) {
      StillKeeps(w, o, cut, home);
    } else if Noting(w.mem, o) || Forgetting(w.mem, w.file, o) {
      NotingKeeps(w, o, cut, home);
    } else if Homing(w.mem, w.file, o) {
      HomingKeeps(w, o, cut, home);
    } else if Failing(w.mem, w.file, o) {
      FailingKeeps(w, o, cut, home);
    } else {
      GoingKeeps(w, o, cut, home);
    }
  }

  lemma EditKeeps(w: World, file: File, home: string)
    requires Inv(w, home) && Silent(w, Operator(file, 0))
    ensures Keeps(w, w.(file := file), home, false)
  {
    hide Distinct, Without, ExistingOnce;
    if w.file.active != home {
      var a := w.timed.away.value;
      var ids := if w.file.fallback == a.order then a.fallback else w.file.fallback;
      ExistingOfValid(w.file.pools, ids, home);
      ExistingOfValid(file.pools, ids, home);
    }
  }

  /** Every event, cut or not, leaves the farm at home or on the way, with the same order to come home to, except
      for the target when the proxy stops right after the switch there. */
  lemma EventKeeps(w: World, e: Event, home: string)
    requires Timely(e) && Inv(w, home) && Silent(w, e)
    ensures Keeps(w, After(w, e), home, CutLeave(w, e))
  {
    hide Inv, Keeps, Done, Shaped, StepOf, StartOf;
    match e
    case Step(i, cut) =>
      StepShape(w.mem, w.file, i);
      OutcomeKeeps(w, StepOf(w.mem, w.file, i), cut, home);
    case StartNow(i, cut) =>
      StartShape(w.mem, w.file, i);
      OutcomeKeeps(w, StartOf(w.mem, w.file, i), cut, home);
    case Operator(file, _) => EditKeeps(w, file, home);
  }

  /** The order the farm comes home with loses a pool exactly when the proxy stops between the switch to that pool
      and the second save, and the order has it. */
  lemma OrderLostExactlyWhen(w: World, e: Event, home: string)
    requires Timely(e) && Inv(w, home) && Silent(w, e)
    ensures var w' := After(w, e);
            var order := HomeOrder(w.file, w.timed.away, home);
            HomeOrder(w'.file, w'.timed.away, home) != order <==> CutLeave(w, e) && w'.file.active in order
  {
    hide Inv, HomeOrder, After, CutLeave, Silent;
    EventKeeps(w, e, home);
    var order, target := HomeOrder(w.file, w.timed.away, home), After(w, e).file.active;
    WithoutMembers(order, target);
    if target !in order {
      WithoutAbsent(order, target);
    }
  }

  ghost predicate SilentRun(w: World, events: seq<Event>) {
    && AllTimely(events)
    && forall n :: 0 <= n < |events| ==> Silent(PlayTo(w, events, n), events[n])
  }

  /** The world before event n. */
  function PlayTo(w: World, events: seq<Event>, n: int): World
    requires AllTimely(events) && 0 <= n <= |events|
  {
    Play(w, events[..n])
  }

  /** The fallback order the operator finds again: the first one without the targets lost to a cut. */
  function Expected(w: World, events: seq<Event>): seq<string>
    requires AllTimely(events)
  {
    if events == [] then w.file.fallback else
      var init, e := events[..|events| - 1], events[|events| - 1];
      if CutLeave(Play(w, init), e) then Without(Expected(w, init), Play(w, events).file.active) else Expected(w, init)
  }

  predicate Fresh(w: World) {
    RolesOk(w.file) && w.file.active != "" && w.mem.saved.away.None? && w.timed.away.None?
  }

  lemma {:induction false} RunKeeps(w: World, events: seq<Event>)
    requires Fresh(w) && SilentRun(w, events)
    ensures var w', home := Play(w, events), w.file.active;
            Inv(w', home) && HomeOrder(w'.file, w'.timed.away, home) == Expected(w, events)
  {
    var home := w.file.active;
    if events != [] {
      hide Inv, HomeOrder, After, CutLeave, Silent;
      var n := |events| - 1;
      var init, e := events[..n], events[n];
      assert forall k :: 0 <= k < n ==> init[..k] == events[..k];
      assert forall k :: 0 <= k < n ==> PlayTo(w, init, k) == PlayTo(w, events, k);
      RunKeeps(w, init);
      assert Silent(PlayTo(w, events, n), e);
      EventKeeps(Play(w, init), e, home);
    }
  }

  // ---- coming home ----

  /** The timer has the farm on its pool: it is on, there is time left, and no block just arrived. */
  predicate TimerKeepsAway(m: Memory, f: File, i: Input)
    requires i.period > 0
  {
    && m.saved.away.Some?
    && var a := m.saved.away.value;
    && a.reason.Timer? && TimerOn(f, i) && TargetOf(f.pools) == Some(a.target) && f.active == a.target
    && a.period == PeriodAt(m, i)
    && var left := LeftAt(m.saved, a.period, i);
       (a.since == i.now || left > 0) && (i.hard < PAUSE_ABOVE || left < MIN_STINT)
  }

  /** Block hunting has the farm on its pool: it is on, blocks are seen, and none just arrived. */
  predicate HuntKeepsAway(m: Memory, f: File, i: Input) {
    && m.saved.away.Some?
    && var a := m.saved.away.value;
    && a.reason.Hunt? && i.hunting && HuntTargetOf(f.pools) == Some(a.target) && f.active == a.target
    && i.live && i.huntHard < PAUSE_ABOVE
  }

  predicate StaysAway(o: Outcome, f: File, i: Input)
    requires i.period > 0
  {
    && (o.writes == [] || o.writes == [ToTimed(o.mem.saved)])
    && (TimerKeepsAway(o.mem, f, i) || HuntKeepsAway(o.mem, f, i))
  }

  lemma ReturningEnds(m: Memory, f: File, a: Away, final: bool, i: Input)
    requires i.writeOk
    ensures Returning(m, f, a, final, i).mem.saved.away.None?
  {
    hide Booked, Restored;
  }

  lemma HuntStepReason(m: Memory, f: File, a: Away, i: Input)
    requires i.period > 0 && i.writeOk && m.saved.away == Some(a) && a.reason.Hunt?
    ensures StepOf(m, f, i).mem.saved.away.None? || StaysAway(StepOf(m, f, i), f, i)
  {
    hide Returning, TargetOf, HuntTargetOf, KeptStints, PeriodStart;
    ReturningEnds(Noted(m, f, i), f, a, true, i);
  }

  lemma TimerStepReason(m: Memory, f: File, a: Away, i: Input)
    requires i.period > 0 && i.writeOk && m.saved.away == Some(a) && a.reason.Timer?
    ensures StepOf(m, f, i).mem.saved.away.None? || StaysAway(StepOf(m, f, i), f, i)
  {
    hide Returning, TargetOf, HuntTargetOf, PeriodStart;
    ReturningEnds(Noted(m, f, i), f, a, true, i);
    ReturningEnds(Noted(m, f, i), f, a, false, i);
  }

  lemma StayingDone(w: World, o: Outcome)
    requires o.writes == [] || o.writes == [ToTimed(o.mem.saved)]
    ensures Done(w, o, None).file == w.file && Done(w, o, None).mem == o.mem
  {
    if o.writes != [] {
      DoneOne(w, o, None, o.mem.saved);
    }
  }

  lemma HomeStepReason(w: World, i: Input)
    requires i.period > 0 && w.mem.saved.away.None?
    ensures var w' := Done(w, StepOf(w.mem, w.file, i), None);
            w'.mem.saved.away.None? || TimerKeepsAway(w'.mem, w'.file, i) || HuntKeepsAway(w'.mem, w'.file, i)
  {
    hide TargetOf, HuntTargetOf, PeriodStart, Without, FileAfter, TimedAfter;
    var o := StepOf(w.mem, w.file, i);
    if |o.writes| == 3 {
      DoneThree(w, o, None, o.writes[0].saved, o.writes[1].file, o.writes[2].saved);
    }
  }

  /** After a step whose writes succeed the farm is away only for a reason checked in this very step. */
  lemma AwayForAReason(w: World, i: Input)
    requires i.period > 0 && i.now > 0 && i.writeOk
    ensures var w' := After(w, Step(i, None));
            w'.mem.saved.away.None? || TimerKeepsAway(w'.mem, w'.file, i) || HuntKeepsAway(w'.mem, w'.file, i)
  {
    hide TimerKeepsAway, HuntKeepsAway, StepOf;
    var away := w.mem.saved.away;
    if away.None? {
      HomeStepReason(w, i);
    } else {
      if away.value.reason.Hunt? {
        HuntStepReason(w.mem, w.file, away.value, i);
      } else {
        TimerStepReason(w.mem, w.file, away.value, i);
      }
      if StepOf(w.mem, w.file, i).mem.saved.away.Some? {
        StayingDone(w, StepOf(w.mem, w.file, i));
      }
    }
  }

  /** After a step whose writes succeed the farm is at home again, in the expected order, unless the timer or
      block hunting has a reason to have it away. */
  lemma ComesHome(w: World, events: seq<Event>, i: Input)
    requires Fresh(w) && SilentRun(w, events) && i.period > 0 && i.now > 0 && i.writeOk
    ensures var w' := After(Play(w, events), Step(i, None));
            || (w'.timed.away.None? && w'.file.active == w.file.active && w'.file.fallback == Expected(w, events))
            || TimerKeepsAway(w'.mem, w'.file, i) || HuntKeepsAway(w'.mem, w'.file, i)
  {
    hide TimerKeepsAway, HuntKeepsAway, StepOf, Expected, Play, Done;
    RunKeeps(w, events);
    EventKeeps(Play(w, events), Step(i, None), w.file.active);
    AwayForAReason(Play(w, events), i);
  }

  /** Whatever cut a leave or a return short, the next step with timer and hunting off ends it: no trip, the
      original pool active, and the fallback order of the operator but for targets lost to a cut. */
  lemma NeverStranded(w: World, events: seq<Event>, i: Input)
    requires Fresh(w) && SilentRun(w, events) && i.period > 0 && i.now > 0 && i.writeOk && !i.on && !i.hunting
    ensures var w' := After(Play(w, events), Step(i, None));
            w'.timed.away.None? && w'.file.active == w.file.active && w'.file.fallback == Expected(w, events)
  {
    hide StepOf, Expected, Play;
    ComesHome(w, events, i);
  }
}
