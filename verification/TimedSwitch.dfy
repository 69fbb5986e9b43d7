/** Timed switching and block hunting: one step of the switcher over its two durable files.
    Times are nanoseconds since Go's zero time; 0 is the zero time. */
module TimedSwitch {
  import opened PoolFile

  const MINUTE := 60_000_000_000
  const PAUSE_ABOVE := 2.0
  const RESUME_BELOW := 1.2
  const MIN_STINT := MINUTE
  const HUNT_RETRY := 5 * MINUTE
  const HUNT_DAY := 24 * 60 * MINUTE
  const MAX_STINTS := 1440
  const ECASH := "XEC"

  datatype Reason = Timer | Hunt

  /** A switch to the target that is to be undone; period is 0 for a hunt. */
  datatype Away = Away(reason: Reason, period: int, since: int, target: string, home: string,
                       fallback: seq<string>, order: seq<string>)

  /** The contents of timed.json. */
  datatype Saved = Saved(away: Option<Away>, period: int, spent: int, done: bool, anchor: int)

  datatype Stint = Stint(begin: int, end: int)

  /** The switcher in memory: what is saved, and the state of block hunting, which is not. */
  datatype Memory = Memory(saved: Saved, hold: bool, retry: int, stints: seq<Stint>)

  datatype Write = ToTimed(saved: Saved) | ToState(file: File)

  /** What an operation leaves in memory and writes, in order. */
  datatype Outcome = Outcome(mem: Memory, writes: seq<Write>)

  /** What a step sees: the clock, the settings, how hard blocks are on the two targets, whether eCash blocks are
      seen as they arrive, and whether a pool check and a write of state.json would succeed. */
  datatype Input = Input(now: int, on: bool, period: int, duration: int, hard: real, hunting: bool, huntHard: real,
                         live: bool, checkOk: bool, writeOk: bool)

  datatype HuntView = HuntView(on: bool, target: string, hard: real, live: bool, hold: bool, retry: int)

  datatype Start = Started | Off | NoTarget

  // ---- what a step looks at ----

  function Since(a: Away): int {
    if a.since == 0 then a.period else a.since
  }

  function PeriodStart(now: int, anchor: int, period: int): int
    requires period > 0
  {
    if anchor == 0 || now < anchor then now - now % period
    else anchor + (now - anchor) - (now - anchor) % period
  }

  predicate HuntPool(p: Pool) {
    p.coin == ECASH && p.solo
  }

  /** The pool marked for timed switching. */
  function TargetOf(pools: seq<Pool>): Option<string> {
    if pools == [] then None else if pools[0].timedTarget then Some(pools[0].id) else TargetOf(pools[1..])
  }

  /** The first eCash solo pool. */
  function FirstHuntPool(pools: seq<Pool>): Option<string> {
    if pools == [] then None else if HuntPool(pools[0]) then Some(pools[0].id) else FirstHuntPool(pools[1..])
  }

  /** The first eCash solo pool that is marked for the timer. */
  function MarkedHuntPool(pools: seq<Pool>): Option<string> {
    if pools == [] then None
    else if HuntPool(pools[0]) && pools[0].timedTarget then Some(pools[0].id)
    else MarkedHuntPool(pools[1..])
  }

  function HuntTargetOf(pools: seq<Pool>): Option<string> {
    if MarkedHuntPool(pools).Some? then MarkedHuntPool(pools) else FirstHuntPool(pools)
  }

  function Look(m: Memory, f: File, i: Input): HuntView {
    var p := HuntTargetOf(f.pools);
    if i.hunting && p.Some? then HuntView(true, p.value, i.huntHard, i.live, m.hold, m.retry)
    else HuntView(false, if p.Some? then p.value else "", 1.0, false, m.hold, m.retry)
  }

  predicate Wants(h: HuntView, now: int) {
    h.on && h.live && !h.hold && now >= h.retry && h.hard <= RESUME_BELOW
  }

  predicate Keeps(h: HuntView, a: Away) {
    h.on && h.live && !h.hold && a.target == h.target && h.hard < PAUSE_ABOVE
  }

  // ---- specification of one step ----

  function WithAway(m: Memory, away: Option<Away>): Memory {
    m.(saved := m.saved.(away := away))
  }

  function Saving(m: Memory, away: Option<Away>): Outcome {
    Outcome(WithAway(m, away), [ToTimed(WithAway(m, away).saved)])
  }

  function Rolled(m: Memory, period: int): Memory {
    if m.saved.period == period then m
    else m.(saved := m.saved.(period := period, spent := 0, done := false))
  }

  /** The last finished hunts: at most MAX_STINTS, and from the first one on that ended within a day. */
  function KeptStints(stints: seq<Stint>, now: int): seq<Stint> {
    if stints == [] then []
    else if now - stints[0].end > HUNT_DAY || |stints| > MAX_STINTS then KeptStints(stints[1..], now)
    else stints
  }

  /** What is kept is the end of the list, within the limits; what is dropped last was over a limit. */
  lemma {:induction false} KeptStintsAre(stints: seq<Stint>, now: int)
    ensures var kept := KeptStints(stints, now); var n := |stints| - |kept|;
            && 0 <= n && kept == stints[n..] && |kept| <= MAX_STINTS
            && (kept != [] ==> now - kept[0].end <= HUNT_DAY)
            && (n > 0 ==> now - stints[n - 1].end > HUNT_DAY || |kept| == MAX_STINTS)
  {
    if stints != [] && (now - stints[0].end > HUNT_DAY || |stints| > MAX_STINTS) {
      KeptStintsAre(stints[1..], now);
    }
  }

  function Booked(m: Memory, a: Away, final: bool, now: int): Memory {
    if a.reason.Hunt? then m.(stints := KeptStints(m.stints + [Stint(Since(a), now)], now))
    else if a.period == m.saved.period then
      m.(saved := m.saved.(spent := m.saved.spent + now - Since(a), done := m.saved.done || final))
    else m
  }

  function Leaving(m: Memory, f: File, a: Away, i: Input): Outcome {
    var left := a.(home := f.active, fallback := f.fallback);
    var first := Saving(m, Some(left));
    if !i.checkOk then
      var failed := if a.reason.Hunt? then m.(retry := i.now + HUNT_RETRY) else m.(saved := m.saved.(done := true));
      var last := Saving(failed, None);
      Outcome(last.mem, first.writes + last.writes)
    else
      var f' := Activated(f, a.target, None);
      var last := Saving(m, Some(left.(order := f'.fallback)));
      Outcome(last.mem, first.writes + [ToState(f')] + last.writes)
  }

  function Restored(f: File, a: Away): File {
    Activated(f, a.home, Some(if f.fallback == a.order then a.fallback else f.fallback))
  }

  function Returning(m: Memory, f: File, a: Away, final: bool, i: Input): Outcome {
    if f.active != a.target then Saving(Booked(m.(hold := true), a, true, i.now), None)
    else if !Has(f.pools, a.home) then Saving(Booked(m, a, true, i.now), None)
    else if !i.writeOk then Outcome(m, [])
    else
      var last := Saving(Booked(m, a, final, i.now), None);
      Outcome(last.mem, [ToState(Restored(f, a))] + last.writes)
  }

  function HandedOver(m: Memory, a: Away, reason: Reason, period: int, now: int): Outcome {
    Saving(Booked(m, a, true, now), Some(a.(reason := reason, period := period, since := now)))
  }

  function HuntStep(m: Memory, f: File, a: Away, h: HuntView, timerDue: bool, i: Input, period: int): Outcome {
    if f.active != a.target then Returning(m, f, a, true, i)
    else if timerDue && TargetOf(f.pools) == Some(a.target) then HandedOver(m, a, Timer, period, i.now)
    else if timerDue || !h.on || a.target != h.target || !h.live || h.hard >= PAUSE_ABOVE then Returning(m, f, a, true, i)
    else Outcome(m, [])
  }

  function TimerStep(m: Memory, f: File, a: Away, h: HuntView, on: bool, hard: real, left: int, i: Input, period: int): Outcome {
    var same := TargetOf(f.pools) == Some(a.target);
    if f.active != a.target then Returning(m, f, a, true, i)
    else if a.period != period && on && same then
      if hard < PAUSE_ABOVE then Saving(m, Some(a.(period := period, since := i.now))) else Returning(m, f, a, false, i)
    else if !on || !same || left <= 0 then
      if Keeps(h, a) then HandedOver(m, a, Hunt, 0, i.now) else Returning(m, f, a, true, i)
    else if hard >= PAUSE_ABOVE && left >= MIN_STINT then Returning(m, f, a, false, i)
    else Outcome(m, [])
  }

  function HomeStep(m: Memory, f: File, h: HuntView, mayLeave: bool, hard: real, i: Input, period: int): Outcome
    requires mayLeave ==> TargetOf(f.pools).Some?
  {
    if mayLeave && hard <= RESUME_BELOW then
      if f.active == "" || TargetOf(f.pools) == Some(f.active) then Saving(m.(saved := m.saved.(done := true)), None)
      else Leaving(m, f, Away(Timer, period, i.now, TargetOf(f.pools).value, "", [], []), i)
    else if Wants(h, i.now) && f.active != "" && f.active != h.target then
      Leaving(m, f, Away(Hunt, 0, i.now, h.target, "", [], []), i)
    else Outcome(m, [])
  }

  predicate TimerOn(f: File, i: Input) {
    i.on && TargetOf(f.pools).Some?
  }

  function PeriodAt(m: Memory, i: Input): int
    requires i.period > 0
  {
    PeriodStart(i.now, m.saved.anchor, i.period)
  }

  /** What is left of the time on the target in the period. */
  function LeftAt(saved: Saved, period: int, i: Input): int {
    var live := match saved.away
                case Some(a) => if a.reason.Timer? && a.period == period then i.now - Since(a) else 0
                case None => 0;
    i.duration - saved.spent - live
  }

  /** Memory once the step has taken note of the period and of a block. */
  function Noted(m: Memory, f: File, i: Input): Memory
    requires i.period > 0
  {
    var h := Look(m, f, i);
    var rolled := Rolled(m, PeriodAt(m, i));
    if !h.on || h.hard >= PAUSE_ABOVE then rolled.(hold := false) else rolled
  }

  function HardAt(f: File, i: Input): real {
    if TimerOn(f, i) then i.hard else 1.0
  }

  /** There is time on the target left in the period, and enough of the period to make a stint worth it. */
  predicate MayLeave(m: Memory, f: File, i: Input)
    requires i.period > 0
  {
    var period := PeriodAt(m, i);
    && TimerOn(f, i) && !Noted(m, f, i).saved.done
    && LeftAt(Noted(m, f, i).saved, period, i) >= MIN_STINT && period + i.period - i.now >= MIN_STINT
  }

  function StepOf(m: Memory, f: File, i: Input): Outcome
    requires i.period > 0
  {
    var period, h, m1 := PeriodAt(m, i), Look(m, f, i), Noted(m, f, i);
    var hard, left := HardAt(f, i), LeftAt(m1.saved, period, i);
    var timerDue := MayLeave(m, f, i) && hard <= RESUME_BELOW;
    match m1.saved.away
    case Some(a) =>
      if a.reason.Hunt? then HuntStep(m1, f, a, h, timerDue, i, period)
      else TimerStep(m1, f, a, h, TimerOn(f, i), hard, left, i, period)
    case None => HomeStep(m1, f, h, MayLeave(m, f, i), hard, i, period)
  }

  function CanStart(f: File, i: Input): Start {
    if !i.on then Off else if TargetOf(f.pools).None? then NoTarget else Started
  }

  /** The schedule restarted by hand. */
  function StartOf(m: Memory, f: File, i: Input): Outcome {
    if !CanStart(f, i).Started? then Outcome(m, [])
    else
      var m1 := m.(saved := m.saved.(anchor := i.now, period := i.now, spent := 0, done := false));
      match m.saved.away
      case None => Saving(m1, None)
      case Some(a) =>
        var again := Some(a.(reason := Timer, period := i.now, since := i.now));
        if a.reason.Timer? then Saving(m1, again)
        else if TargetOf(f.pools) == Some(a.target) then Saving(Booked(m1, a, true, i.now), again)
        else Saving(m1, Some(a))
  }

  /** The switcher as it starts from its file. */
  function Loaded(saved: Saved): Memory {
    Memory(if saved.away.Some? && saved.period == 0 then saved.(period := saved.away.value.period) else saved, false, 0, [])
  }

  // ---- the switcher ----

  class Switcher {
    var away: Option<Away>
    var period: int
    var spent: int
    var done: bool
    var anchor: int
    var hold: bool
    var retry: int
    var stints: seq<Stint>
    var timed: Saved
    var pools: File
    ghost var log: seq<Write>

    ghost function View(): Memory
      reads this
    {
      Memory(Saved(away, period, spent, done, anchor), hold, retry, stints)
    }

    /** What an operation did since `was`, with the writes before it in `logged`. */
    ghost predicate Did(o: Outcome, logged: seq<Write>)
      reads this
    {
      View() == o.mem && log == logged + o.writes
    }

    constructor (file: Saved, state: File)
      ensures View() == Loaded(file) && timed == file && pools == state && log == []
    {
      away, period, spent, done, anchor := file.away, file.period, file.spent, file.done, file.anchor;
      if file.away.Some? && file.period == 0 {
        period := file.away.value.period;
      }
      hold, retry, stints := false, 0, [];
      timed, pools := file, state;
      log := [];
    }

    method Save(a: Option<Away>)
      modifies this
      ensures Did(Saving(old(View()), a), old(log)) && pools == old(pools)
      ensures timed == View().saved
    {
      away := a;
      timed := Saved(away, period, spent, done, anchor);
      log := log + [ToTimed(timed)];
    }

    /** Pool manager: a switch to id that is certain to succeed. */
    method Activate(id: string, fallback: Option<seq<string>>)
      modifies this`pools, this`log
      ensures pools == Activated(old(pools), id, fallback) && log == old(log) + [ToState(pools)]
    {
      var order;
      match fallback {
        case Some(ids) => order := KeepExisting(pools.pools, ids, id);
        case None =>
          order := RemoveId(pools.fallback, id);
          if pools.active != "" && pools.active != id {
            order := RemoveId(order, pools.active);
            order := [pools.active] + order;
          }
      }
      pools := pools.(active := id, fallback := order);
      log := log + [ToState(pools)];
    }

    method Record(begin: int, end: int)
      modifies this`stints
      ensures stints == KeptStints(old(stints) + [Stint(begin, end)], end)
    {
      stints := stints + [Stint(begin, end)];
      Prune(end);
    }

    method Prune(now: int)
      modifies this`stints
      ensures stints == KeptStints(old(stints), now)
    {
      var i := 0;
      while i < |stints| && (now - stints[i].end > HUNT_DAY || |stints| - i > MAX_STINTS)
        invariant 0 <= i <= |stints| && stints == old(stints)
        invariant KeptStints(stints[i..], now) == KeptStints(stints, now)
      {
        assert stints[i..][1..] == stints[i + 1..];
        i := i + 1;
      }
      assert KeptStints(stints[i..], now) == stints[i..];
      stints := stints[i..];
    }

    method Ended(a: Away, final: bool, now: int)
      modifies this`stints, this`spent, this`done
      ensures View() == Booked(old(View()), a, final, now)
    {
      if a.reason.Hunt? {
        Record(Since(a), now);
        return;
      }
      if a.period == period {
        spent := spent + (now - Since(a));
        if final {
          done := true;
        }
      }
    }

    method Leave(a0: Away, i: Input)
      modifies this
      ensures Did(Leaving(old(View()), old(pools), a0, i), old(log))
    {
      var a := a0.(home := pools.active, fallback := pools.fallback);
      Save(Some(a));
      if !i.checkOk {
        if a.reason.Hunt? {
          retry := i.now + HUNT_RETRY;
        } else {
          done := true;
        }
        Save(None);
        return;
      }
      Activate(a.target, None);
      Save(Some(a.(order := pools.fallback)));
    }

    method Back(a: Away, final0: bool, i: Input)
      modifies this
      ensures Did(Returning(old(View()), old(pools), a, final0, i), old(log))
    {
      var final := final0;
      if pools.active != a.target {
        final := true;
        hold := true;
      } else if !Has(pools.pools, a.home) {
        final := true;
      } else {
        var fallback := a.fallback;
        if pools.fallback != a.order {
          fallback := pools.fallback;
        }
        if !i.writeOk {
          return;
        }
        Activate(a.home, Some(fallback));
      }
      Ended(a, final, i.now);
      Save(None);
    }

    method HandOver(a: Away, reason: Reason, p: int, now: int)
      modifies this
      ensures Did(HandedOver(old(View()), a, reason, p, now), old(log))
    {
      Ended(a, true, now);
      Save(Some(a.(reason := reason, period := p, since := now)));
    }

    method MaybeHunt(h: HuntView, i: Input)
      modifies this
      ensures Did(if Wants(h, i.now) && old(pools).active != "" && old(pools).active != h.target
                  then Leaving(old(View()), old(pools), Away(Hunt, 0, i.now, h.target, "", [], []), i)
                  else Outcome(old(View()), []), old(log))
    {
      if !Wants(h, i.now) || pools.active == "" || pools.active == h.target {
        return;
      }
      Leave(Away(Hunt, 0, i.now, h.target, "", [], []), i);
    }

    method StepHunt(a: Away, h: HuntView, timerDue: bool, tp: Option<string>, p: int, i: Input)
      requires tp == TargetOf(pools.pools)
      modifies this
      ensures Did(HuntStep(old(View()), old(pools), a, h, timerDue, i, p), old(log))
    {
      if pools.active != a.target {
        Back(a, true, i);
      } else if timerDue && tp == Some(a.target) {
        HandOver(a, Timer, p, i.now);
      } else if timerDue {
        Back(a, true, i);
      } else if !h.on || a.target != h.target {
        Back(a, true, i);
      } else if !h.live {
        Back(a, true, i);
      } else if h.hard >= PAUSE_ABOVE {
        Back(a, true, i);
      }
    }

    method StepTimer(a: Away, h: HuntView, on: bool, hard: real, left: int, tp: Option<string>, p: int, i: Input)
      requires tp == TargetOf(pools.pools)
      modifies this
      ensures Did(TimerStep(old(View()), old(pools), a, h, on, hard, left, i, p), old(log))
    {
      if pools.active != a.target {
        Back(a, true, i);
      } else if a.period != p && on && tp == Some(a.target) {
        if hard < PAUSE_ABOVE {
          Save(Some(a.(period := p, since := i.now)));
        } else {
          Back(a, false, i);
        }
      } else if !on || tp != Some(a.target) || left <= 0 {
        if Keeps(h, a) {
          HandOver(a, Hunt, 0, i.now);
        } else {
          Back(a, true, i);
        }
      } else if hard >= PAUSE_ABOVE && left >= MIN_STINT {
        Back(a, false, i);
      }
    }

    method StepHome(h: HuntView, mayLeave: bool, hard: real, tp: Option<string>, p: int, i: Input)
      requires away.None? && tp == TargetOf(pools.pools) && (mayLeave ==> tp.Some?)
      modifies this
      ensures Did(HomeStep(old(View()), old(pools), h, mayLeave, hard, i, p), old(log))
    {
      if mayLeave && hard <= RESUME_BELOW {
        if pools.active == "" || Some(pools.active) == tp {
          done := true;
          Save(away);
        } else {
          Leave(Away(Timer, p, i.now, tp.value, "", [], []), i);
        }
        return;
      }
      MaybeHunt(h, i);
    }

    method HuntLook(i: Input) returns (h: HuntView)
      ensures h == Look(View(), pools, i)
    {
      var p := HuntTarget(pools.pools);
      h := HuntView(false, if p.Some? then p.value else "", 1.0, false, hold, retry);
      if i.hunting && p.Some? {
        h := h.(on := true, hard := i.huntHard, live := i.live);
      }
    }

    /** Takes note of the period and of a block. */
    method Note(p: int, h: HuntView)
      modifies this`period, this`spent, this`done, this`hold
      ensures View() == var m := Rolled(old(View()), p); if !h.on || h.hard >= PAUSE_ABOVE then m.(hold := false) else m
    {
      if p != period {
        period, spent, done := p, 0, false;
      }
      if !h.on || h.hard >= PAUSE_ABOVE {
        hold := false;
      }
    }

    /** What the schedule and block hunting ask for now. */
    method Step(i: Input)
      requires i.period > 0
      modifies this
      ensures Did(StepOf(old(View()), old(pools), i), old(log))
    {
      hide PeriodStart, HuntStep, TimerStep, HomeStep, Look, Rolled, TargetOf;
      var tp := Target(pools.pools);
      var p := PeriodStart(i.now, anchor, i.period);
      var on := i.on && tp.Some?;
      var hard := if on then i.hard else 1.0;
      var h := HuntLook(i);
      Note(p, h);
      assert View() == Noted(old(View()), pools, i);
      var left := i.duration - spent;
      if away.Some? && away.value.reason.Timer? && away.value.period == p {
        left := left - (i.now - Since(away.value));
      }
      assert left == LeftAt(View().saved, p, i);
      var mayLeave := on && !done && left >= MIN_STINT && p + i.period - i.now >= MIN_STINT;
      assert mayLeave == MayLeave(old(View()), pools, i);
      if away.None? {
        StepHome(h, mayLeave, hard, tp, p, i);
      } else if away.value.reason.Hunt? {
        StepHunt(away.value, h, mayLeave && hard <= RESUME_BELOW, tp, p, i);
      } else {
        StepTimer(away.value, h, on, hard, left, tp, p, i);
      }
    }

    /** Restarts the schedule from now. */
    method StartNow(i: Input) returns (r: Start)
      modifies this
      ensures r == CanStart(old(pools), i) && Did(StartOf(old(View()), old(pools), i), old(log))
    {
      var tp := Target(pools.pools);
      if !i.on {
        return Off;
      }
      if tp.None? {
        return NoTarget;
      }
      anchor, period, spent, done := i.now, i.now, 0, false;
      var cur := away;
      if cur.Some? {
        var a := cur.value;
        if a.reason.Timer? {
          cur := Some(a.(period := i.now, since := i.now));
        } else if tp == Some(a.target) {
          Ended(a, true, i.now);
          cur := Some(a.(reason := Timer, period := i.now, since := i.now));
        }
      }
      Save(cur);
      r := Started;
    }
  }

  method Target(pools: seq<Pool>) returns (id: Option<string>)
    ensures id == TargetOf(pools)
  {
    for i := 0 to |pools|
      invariant TargetOf(pools[i..]) == TargetOf(pools)
    {
      assert pools[i..][1..] == pools[i + 1..];
      if pools[i].timedTarget {
        return Some(pools[i].id);
      }
    }
    id := None;
  }

  /** The pool block hunting goes to: an eCash solo pool, the timer's if it is one. */
  method HuntTarget(pools: seq<Pool>) returns (id: Option<string>)
    ensures id == HuntTargetOf(pools)
  {
    var first: Option<string> := None;
    for i := 0 to |pools|
      invariant MarkedHuntPool(pools[i..]) == MarkedHuntPool(pools)
      invariant FirstHuntPool(pools) == if first.Some? then first else FirstHuntPool(pools[i..])
    {
      assert pools[i..][1..] == pools[i + 1..];
      if HuntPool(pools[i]) {
        if pools[i].timedTarget {
          return Some(pools[i].id);
        }
        if first.None? {
          first := Some(pools[i].id);
        }
      }
    }
    id := first;
  }
}
