/** Block hunting against the chain: every block costs at most two switches of the farm. */
module BlockHunt {
  import opened PoolFile
  import opened TimedSwitch
  import opened TimedRuns
  import opened RealTimeTarget

  /** The switcher and its files, and the block times of the watcher, which stays connected. */
  datatype Farm = Farm(w: World, arrivals: seq<int>, prevhash: string)

  datatype Happening = Job(prev: string, now: int) | Tick(i: Input)

  predicate IsBlock(s: Farm, e: Happening) {
    e.Job? && s.prevhash != "" && e.prev != s.prevhash
  }

  predicate Legal(e: Happening) {
    e.Tick? ==> e.i.period > 0 && e.i.now > 0
  }

  function Next(s: Farm, e: Happening): Farm
    requires Legal(e)
  {
    match e
    case Job(prev, now) => s.(arrivals := if IsBlock(s, e) then Arrived(s.arrivals, now) else s.arrivals, prevhash := prev)
    case Tick(i) => s.(w := After(s.w, Step(i, None)))
  }

  /** A whole step with block hunting on and the timer off, which sees how hard a block is by the arrivals. */
  ghost predicate Hunts(c: real, s: Farm, e: Happening) {
    Legal(e) && (e.Tick? ==>
      && !e.i.on && e.i.hunting && e.i.live && s.prevhash != ""
      && IsFactor(c, e.i.now, s.arrivals, e.i.huntHard))
  }

  function LastTick(events: seq<Happening>): int {
    if events == [] then 0 else
      var e := events[|events| - 1];
      if e.Tick? then e.i.now else LastTick(events[..|events| - 1])
  }

  /** states[n] is the farm before events[n]; the clock does not go back. */
  ghost predicate Run(c: real, states: seq<Farm>, events: seq<Happening>) {
    && |states| == |events| + 1
    && forall n {:trigger events[n]} :: 0 <= n < |events| ==>
         && Hunts(c, states[n], events[n]) && states[n + 1] == Next(states[n], events[n])
         && (events[n].Tick? ==> LastTick(events[..n]) <= events[n].i.now)
  }

  function Blocks(states: seq<Farm>, events: seq<Happening>): int
    requires |states| == |events| + 1
  {
    if events == [] then 0 else
      var n := |events| - 1;
      Blocks(states[..n + 1], events[..n]) + if IsBlock(states[n], events[n]) then 1 else 0
  }

  predicate Switched(s: Farm, s': Farm) {
    s'.w.file.active != s.w.file.active
  }

  /** How often the active pool changed. */
  function Switches(states: seq<Farm>): int {
    if |states| <= 1 then 0 else
      var n := |states| - 1;
      Switches(states[..n]) + if Switched(states[n - 1], states[n]) then 1 else 0
  }

  // ---- the invariant ----

  /** By the arrivals known now, a block was easy at the time `since`. */
  ghost predicate Eased(c: real, arrivals: seq<int>, since: int) {
    exists f :: IsFactor(c, since, arrivals, f) && f <= RESUME_BELOW
  }

  /** Every trip home was paid for by a block that arrived since the farm left. */
  ghost predicate Inv(c: real, s: Farm, target: Option<string>, at: int, blocks: int, switches: int) {
    && HuntTargetOf(s.w.file.pools) == target && (s.w.file.active == "" || Has(s.w.file.pools, s.w.file.active))
    && match s.w.mem.saved.away
       case None => switches <= 2 * blocks
       case Some(a) =>
         && a.reason.Hunt? && Some(a.target) == target && a.since <= at
         && s.w.file.active == a.target && Has(s.w.file.pools, a.home)
         && (switches <= 2 * blocks - 1 || (switches <= 2 * blocks + 1 && Eased(c, s.arrivals, a.since)))
  }

  /** A step at home stays, or leaves for the hunt pool when a block is easy. */
  lemma TickAtHome(w: World, i: Input)
    requires i.period > 0 && i.now > 0 && !i.on && i.hunting && i.live && w.mem.saved.away.None?
    ensures var w' := After(w, Step(i, None));
            && w'.file.pools == w.file.pools
            && match w'.mem.saved.away
               case None => w'.file == w.file
               case Some(a) =>
                 && a.reason.Hunt? && Some(a.target) == HuntTargetOf(w.file.pools) && a.since == i.now
                 && i.huntHard <= RESUME_BELOW && w'.file.active == a.target
                 && w.file.active != "" && a.home == w.file.active
  {
    hide PeriodStart, TargetOf, HuntTargetOf, LeftAt, Done, Without;
    var o := StepOf(w.mem, w.file, i);
    if |o.writes| == 3 {
      DoneThree(w, o, None, o.writes[0].saved, o.writes[1].file, o.writes[2].saved);
    } else if |o.writes| == 2 {
      DoneTwo(w, o, None, o.writes[0], o.writes[1].saved);
    } else {
      StayingDone(w, o);
    }
  }

  /** A step on a hunt stays, or ends it; it switches only when a block just arrived. */
  lemma TickOnHunt(w: World, i: Input)
    requires i.period > 0 && i.now > 0 && !i.on && i.hunting && i.live && w.mem.saved.away.Some?
    requires w.mem.saved.away.value.reason.Hunt? && Some(w.mem.saved.away.value.target) == HuntTargetOf(w.file.pools)
    requires w.file.active == w.mem.saved.away.value.target && Has(w.file.pools, w.mem.saved.away.value.home)
    ensures var w' := After(w, Step(i, None));
            && w'.file.pools == w.file.pools
            && if w'.mem.saved.away.None? then i.huntHard >= PAUSE_ABOVE && w'.file.active == w.mem.saved.away.value.home
               else w'.mem.saved.away == w.mem.saved.away && w'.file == w.file
  {
    hide PeriodStart, TargetOf, HuntTargetOf, LeftAt, Done, KeptStints, ExistingOnce;
    var o := StepOf(w.mem, w.file, i);
    if |o.writes| == 2 {
      DoneTwo(w, o, None, o.writes[0], o.writes[1].saved);
    } else {
      StayingDone(w, o);
    }
  }

  /** Blocks that eased since the farm left do not get hard again by themselves. */
  lemma StaysEased(c: real, arrivals: seq<int>, since: int, now: int, hard: real)
    requires c > 0.0 && since <= now && Eased(c, arrivals, since) && IsFactor(c, now, arrivals, hard)
    ensures hard <= RESUME_BELOW
  {
    hide IsFactor;
    var f :| IsFactor(c, since, arrivals, f) && f <= RESUME_BELOW;
    FactorFalls(c, since, now, arrivals, f, hard);
  }

  lemma EventKeeps(c: real, s: Farm, e: Happening, target: Option<string>, at: int, blocks: int, switches: int)
    requires c > 0.0 && Inv(c, s, target, at, blocks, switches) && Hunts(c, s, e) && (e.Tick? ==> at <= e.i.now)
    ensures var s' := Next(s, e);
            Inv(c, s', target, if e.Tick? then e.i.now else at, blocks + if IsBlock(s, e) then 1 else 0,
                switches + if Switched(s, s') then 1 else 0)
  {
    hide IsFactor, After, HuntTargetOf;
    if e.Tick? {
      if s.w.mem.saved.away.None? {
        TickAtHome(s.w, e.i);
        TargetExists(s.w.file.pools);
        if e.i.huntHard <= RESUME_BELOW {
          assert Eased(c, s.arrivals, e.i.now);
        }
      } else {
        TickOnHunt(s.w, e.i);
        var a := s.w.mem.saved.away.value;
        if e.i.huntHard >= PAUSE_ABOVE && Eased(c, s.arrivals, a.since) {
          StaysEased(c, s.arrivals, a.since, e.i.now, e.i.huntHard);
        }
      }
    }
  }

  lemma {:induction false} RunKeeps(c: real, states: seq<Farm>, events: seq<Happening>)
    requires c > 0.0 && Run(c, states, events) && states[0].w.mem.saved.away.None? && RolesOk(states[0].w.file)
    ensures Inv(c, states[|events|], HuntTargetOf(states[0].w.file.pools), LastTick(events), Blocks(states, events), Switches(states))
  {
    var target := HuntTargetOf(states[0].w.file.pools);
    if events != [] {
      hide Inv, Next, HuntTargetOf, IsBlock, Switched, IsFactor;
      var n := |events| - 1;
      var init, before := events[..n], states[..n + 1];
      assert forall k :: 0 <= k < n ==> init[..k] == events[..k];
      RunKeeps(c, before, init);
      assert before[|init|] == states[n] && before[0] == states[0];
      assert Hunts(c, states[n], events[n]) && (events[n].Tick? ==> LastTick(events[..n]) <= events[n].i.now);
      assert states[n + 1] == Next(states[n], events[n]);
      assert states[..|states| - 1] == before;
      EventKeeps(c, states[n], events[n], target, LastTick(init), Blocks(before, init), Switches(before));
    }
  }

  /** With the timer off and block hunting on, however long the run: at most two switches a block, and one. */
  lemma TwoSwitchesPerBlock(c: real, states: seq<Farm>, events: seq<Happening>)
    requires c > 0.0 && Run(c, states, events) && states[0].w.mem.saved.away.None? && RolesOk(states[0].w.file)
    ensures Switches(states) <= 2 * Blocks(states, events) + 1
  {
    hide Run, Switches, Blocks, Eased;
    RunKeeps(c, states, events);
  }
}
