/** Gradual closing of sessions: numbered drains, each in a goroutine of its own, of which only the newest closes. */
module SessionDrain {
  /** A drain's goroutine: next is the target it closes next; Leaving: it has left its loop. */
  datatype Phase = Closing | Leaving | Gone

  /** waited: the pauses taken so far, in nanoseconds. */
  datatype Drain = Drain(targets: seq<int>, window: int, next: int, waited: int, phase: Phase)

  /** A session closed by drain gen after that many nanoseconds of pauses. */
  datatype Closed = Closed(gen: int, session: int, waited: int)

  /** gen: the newest drain; cancelled: the drains whose context is done; closed: what drains have closed. */
  datatype State = State(gen: int, draining: bool, cancelled: set<int>, drains: map<int, Drain>, closed: seq<Closed>)

  /** A turn of a cancelled drain may find its pause cut off after `cut` nanoseconds. */
  datatype Event = Start(targets: seq<int>, window: int) | Try(gen: int, cut: int) | Leave(gen: int) | CloseAll

  const IDLE := State(0, false, {}, map[], [])

  // ---- specification ----

  predicate Distinct(s: seq<int>) {
    forall i, j :: 0 <= i < j < |s| ==> s[i] != s[j]
  }

  /** A drain does nothing more once it is cancelled or a newer one has started. */
  predicate Stale(s: State, gen: int) {
    gen in s.cancelled || s.gen != gen
  }

  /** The pause before every one of n targets but the first, as long as it is positive. */
  function Gap(window: int, n: int): (gap: int)
    ensures gap >= 0
  {
    if n > 1 && window > 0 then window / (n - 1) else 0
  }

  predicate Enabled(s: State, e: Event) {
    match e
    case Start(targets, _) => Distinct(targets)
    case Try(gen, cut) =>
      cut >= 0 && gen in s.drains && s.drains[gen].phase.Closing? && 0 <= s.drains[gen].next < |s.drains[gen].targets|
    case Leave(gen) => gen in s.drains && s.drains[gen].phase.Leaving?
    case CloseAll => true
  }

  /** The pause before the next turn: only a cancelled drain's may be cut short. */
  function Pause(d: Drain, cancelled: bool, cut: int): int {
    var gap := Gap(d.window, |d.targets|);
    if d.next == 0 then 0 else if cancelled && cut < gap then cut else gap
  }

  function Next(s: State, e: Event): State
    requires Enabled(s, e)
  {
    match e
    case Start(targets, window) =>
      var gen := s.gen + 1;
      var cancelled := if s.gen > 0 then s.cancelled + {s.gen} else s.cancelled;
      if targets == [] then s.(gen := gen, draining := false, cancelled := cancelled + {gen})
      else
        s.(gen := gen, draining := true, cancelled := cancelled,
        drains := s.drains[gen := Drain(targets, window, 0, 0, Closing)])
    case Try(gen, cut) =>
      var d := s.drains[gen].(waited := s.drains[gen].waited + Pause(s.drains[gen], gen in s.cancelled, cut));
      if Stale(s, gen) then s.(drains := s.drains[gen := d.(phase := Leaving)])
      else
        s.(drains := s.drains[gen := d.(next := d.next + 1, phase := if d.next + 1 == |d.targets| then Leaving else Closing)],
        closed := s.closed + [Closed(gen, d.targets[d.next], d.waited)])
    case Leave(gen) =>
      s.(draining := s.draining && s.gen != gen, cancelled := s.cancelled + {gen},
      drains := s.drains[gen := s.drains[gen].(phase := Gone)])
    case CloseAll => if s.gen > 0 then s.(cancelled := s.cancelled + {s.gen}) else s
  }

  // ---- the registry ----

  class Registry {
    var sessions: set<int>
    var gen: int
    var draining: bool
    var cancelled: set<int>
    var drains: map<int, Drain>
    var closed: seq<Closed>

    constructor ()
      ensures View() == IDLE && sessions == {}
    {
      sessions := {};
      gen, draining, cancelled, drains, closed := 0, false, {}, map[], [];
    }

    ghost function View(): State
      reads this
    {
      State(gen, draining, cancelled, drains, closed)
    }

    /** The live sessions that match the filter, once each, in any order. */
    method Matching(filter: int -> bool) returns (targets: seq<int>)
      ensures Distinct(targets)
      ensures forall id :: id in targets <==> id in sessions && filter(id)
    {
      targets := [];
      var todo := sessions;
      while todo != {}
        invariant todo <= sessions && Distinct(targets)
        invariant forall id :: id in targets <==> id in sessions && id !in todo && filter(id)
      {
        NotEmpty(todo);
        var id :| id in todo;
        todo := todo - {id};
        if filter(id) {
          targets := targets + [id];
        }
      }
    }

    /** Closes the matching sessions over the window, in an order drawn at random. */
    method Close(filter: int -> bool, draw: nat -> nat, window: int) returns (scheduled: int, targets: seq<int>)
      modifies this
      ensures sessions == old(sessions)
      ensures Distinct(targets) && forall id :: id in targets <==> id in sessions && filter(id)
      ensures Enabled(old(View()), Start(targets, window)) && View() == Next(old(View()), Start(targets, window))
      ensures scheduled == |targets|
    {
      targets := Matching(filter);
      targets := Shuffle(targets, draw);
      scheduled := Begin(targets, window);
    }

    /** Takes the next generation for the targets, cancelling the drain before. */
    method Begin(targets: seq<int>, window: int) returns (scheduled: int)
      requires Distinct(targets)
      modifies this
      ensures View() == Next(old(View()), Start(targets, window)) && scheduled == |targets| && sessions == old(sessions)
    {
      if gen > 0 {
        cancelled := cancelled + {gen};
      }
      gen := gen + 1;
      draining := |targets| > 0;
      if |targets| == 0 {
        cancelled := cancelled + {gen};
        return 0;
      }
      drains := drains[gen := Drain(targets, window, 0, 0, Closing)];
      scheduled := |targets|;
    }

    /** One turn of a drain's loop: the pause, then check and close under the lock. */
    method Turn(g: int, cut: int) returns (stale: bool)
      requires Enabled(View(), Try(g, cut))
      modifies this
      ensures View() == Next(old(View()), Try(g, cut)) && stale == Stale(old(View()), g) && sessions == old(sessions)
    {
      var d := drains[g];
      var step := 0;
      if |d.targets| > 1 && d.window > 0 {
        step := d.window / (|d.targets| - 1);
      }
      if d.next > 0 && step > 0 {
        d := d.(waited := d.waited + if g in cancelled && cut < step then cut else step);
      }
      stale := g in cancelled || gen != g;
      if stale {
        drains := drains[g := d.(phase := Leaving)];
        return;
      }
      closed := closed + [Closed(g, d.targets[d.next], d.waited)];
      d := d.(next := d.next + 1);
      if d.next == |d.targets| {
        d := d.(phase := Leaving);
      }
      drains := drains[g := d];
    }

    /** The end of a drain's goroutine. */
    method Finish(g: int)
      requires Enabled(View(), Leave(g))
      modifies this
      ensures View() == Next(old(View()), Leave(g)) && sessions == old(sessions)
    {
      if gen == g {
        draining := false;
      }
      drains := drains[g := drains[g].(phase := Gone)];
      cancelled := cancelled + {g};
    }

    /** Ends the drain in progress and gives the sessions to close at once: every live one. */
    method Shutdown() returns (all: seq<int>)
      modifies this
      ensures View() == Next(old(View()), CloseAll) && sessions == old(sessions)
      ensures Distinct(all) && forall id :: id in all <==> id in sessions
    {
      if gen > 0 {
        cancelled := cancelled + {gen};
      }
      all := Matching(_ => true);
    }
  }

  /** Swaps every element with a drawn one at or before it. */
  method Shuffle(targets: seq<int>, draw: nat -> nat) returns (out: seq<int>)
    requires Distinct(targets)
    ensures Distinct(out) && |out| == |targets| && forall id :: id in out <==> id in targets
  {
    out := targets;
    var i := |targets| - 1;
    while i > 0
      invariant -1 <= i < |targets| && |out| == |targets| && Distinct(out)
      invariant forall id :: id in out <==> id in targets
    {
      var j := draw(i) % (i + 1);
      SwapKeeps(out, i, j);
      out := out[i := out[j]][j := out[i]];
      i := i - 1;
    }
  }

  lemma NotEmpty(s: set<int>)
    requires s != {}
    ensures exists id :: id in s
  {
    if forall id :: id !in s {
      assert false;
    }
  }

  lemma SwapKeeps(s: seq<int>, i: nat, j: nat)
    requires i < |s| && j < |s| && Distinct(s)
    ensures var t := s[i := s[j]][j := s[i]]; Distinct(t) && forall id :: id in t <==> id in s
  {
    var t := s[i := s[j]][j := s[i]];
    forall id | id in s ensures id in t {
      var k :| 0 <= k < |s| && s[k] == id;
      assert t[if k == i then j else if k == j then i else k] == id;
    }
  }

  // ---- runs ----

  /** The state before event n of an interleaving. */
  ghost predicate Run(states: seq<State>, events: seq<Event>) {
    && |states| == |events| + 1 && states[0] == IDLE
    && forall n {:trigger events[n]} :: 0 <= n < |events| ==> Enabled(states[n], events[n]) && states[n + 1] == Next(states[n], events[n])
  }

  /** What drain g has closed, in order. */
  function ClosedBy(closed: seq<Closed>, g: int): seq<Closed> {
    if closed == [] then [] else
      ClosedBy(closed[..|closed| - 1], g) + if closed[|closed| - 1].gen == g then [closed[|closed| - 1]] else []
  }

  /** The sessions are the first targets of drain g, each closed one gap after the one before. */
  ghost predicate OnPlan(sessions: seq<Closed>, g: int, d: Drain) {
    && |sessions| <= |d.targets|
    && forall i :: 0 <= i < |sessions| ==> sessions[i] == Closed(g, d.targets[i], i * Gap(d.window, |d.targets|))
  }

  ghost predicate WaitInv(d: Drain, stale: bool) {
    var gap, n := Gap(d.window, |d.targets|), |d.targets|;
    && (d.phase.Closing? ==> d.waited == if d.next == 0 then 0 else (d.next - 1) * gap)
    && 0 <= d.waited <= (n - 1) * gap
    && (!stale && !d.phase.Closing? ==> d.waited == (n - 1) * gap)
  }

  ghost predicate DrainInv(s: State, g: int) {
    g in s.drains ==>
      && var d := s.drains[g];
      && 1 <= g <= s.gen && d.targets != [] && 0 <= d.next <= |d.targets| && (d.phase.Closing? ==> d.next < |d.targets|)
      && OnPlan(ClosedBy(s.closed, g), g, d) && |ClosedBy(s.closed, g)| == d.next
      && WaitInv(d, Stale(s, g))
      && (!Stale(s, g) && !d.phase.Closing? ==> d.next == |d.targets|)
      && (d.phase.Gone? ==> g in s.cancelled)
  }

  ghost predicate Inv(s: State) {
    && 0 <= s.gen
    && (forall g :: DrainInv(s, g))
    && (forall g :: g !in s.drains ==> ClosedBy(s.closed, g) == [])
    && (forall g :: g in s.cancelled ==> g <= s.gen)
    && (s.draining <==> s.gen in s.drains && !s.drains[s.gen].phase.Gone?)
  }

  lemma ClosedSnoc(closed: seq<Closed>, c: Closed, g: int)
    ensures ClosedBy(closed + [c], g) == ClosedBy(closed, g) + if c.gen == g then [c] else []
  {
    assert (closed + [c])[..|closed|] == closed;
  }

  lemma TurnWaits(d: Drain, cancelled: bool, cut: int)
    requires 0 <= d.next < |d.targets| && d.phase.Closing? && cut >= 0
    requires d.waited == if d.next == 0 then 0 else (d.next - 1) * Gap(d.window, |d.targets|)
    ensures var gap, waited := Gap(d.window, |d.targets|), d.waited + Pause(d, cancelled, cut);
            0 <= waited <= d.next * gap <= (|d.targets| - 1) * gap && (!cancelled ==> waited == d.next * gap)
  {
    var gap := Gap(d.window, |d.targets|);
    hide Gap;
    assert d.next * gap == (d.next - 1) * gap + gap;
    assert (|d.targets| - 1) * gap == d.next * gap + (|d.targets| - 1 - d.next) * gap;
    assert (|d.targets| - 1 - d.next) * gap >= 0;
    if d.next > 0 {
      assert (d.next - 1) * gap >= 0;
    }
  }

  lemma TurnKeeps(s: State, e: Event)
    requires Inv(s) && Enabled(s, e) && e.Try?
    ensures DrainInv(Next(s, e), e.gen)
  {
    var d, n := s.drains[e.gen], |s.drains[e.gen].targets|;
    assert DrainInv(s, e.gen);
    TurnWaits(d, e.gen in s.cancelled, e.cut);
    hide Gap, Pause;
    if !Stale(s, e.gen) {
      ClosedSnoc(s.closed, Next(s, e).closed[|s.closed|], e.gen);
    }
  }

  lemma NewDrain(targets: seq<int>, window: int, g: int)
    requires targets != []
    ensures var d := Drain(targets, window, 0, 0, Closing); OnPlan([], g, d) && WaitInv(d, false)
  {
    var gap := Gap(window, |targets|);
    hide Gap;
    assert 0 <= (|targets| - 1) * gap;
  }

  lemma OtherKeeps(s: State, e: Event, g: int)
    requires Inv(s) && Enabled(s, e) && !(e.Try? && e.gen == g)
    ensures DrainInv(Next(s, e), g)
    ensures ClosedBy(Next(s, e).closed, g) == ClosedBy(s.closed, g)
  {
    assert DrainInv(s, g);
    if e.Try? && !Stale(s, e.gen) {
      ClosedSnoc(s.closed, Next(s, e).closed[|s.closed|], g);
    }
    if e.Start? && e.targets != [] {
      NewDrain(e.targets, e.window, s.gen + 1);
    }
    hide Gap, Pause, ClosedBy, OnPlan;
  }

  lemma DrainKeeps(s: State, e: Event, g: int)
    requires Inv(s) && Enabled(s, e)
    ensures DrainInv(Next(s, e), g)
    ensures g !in Next(s, e).drains ==> ClosedBy(Next(s, e).closed, g) == []
  {
    hide DrainInv, ClosedBy, Gap, Pause;
    if e.Try? && e.gen == g {
      TurnKeeps(s, e);
    } else {
      OtherKeeps(s, e, g);
    }
  }

  lemma FlagKeeps(s: State, e: Event)
    requires Inv(s) && Enabled(s, e)
    ensures var s' := Next(s, e);
            && 0 <= s'.gen && (forall g :: g in s'.cancelled ==> g <= s'.gen)
            && (s'.draining <==> s'.gen in s'.drains && !s'.drains[s'.gen].phase.Gone?)
  {
    assert DrainInv(s, s.gen + 1);
    assert e.Try? || e.Leave? ==> DrainInv(s, e.gen);
    hide ClosedBy;
  }

  lemma EventKeeps(s: State, e: Event)
    requires Inv(s) && Enabled(s, e)
    ensures Inv(Next(s, e))
  {
    FlagKeeps(s, e);
    forall g ensures DrainInv(Next(s, e), g) && (g !in Next(s, e).drains ==> ClosedBy(Next(s, e).closed, g) == []) {
      DrainKeeps(s, e, g);
    }
    hide DrainInv, ClosedBy, Next;
  }

  lemma {:induction false} RunKeeps(states: seq<State>, events: seq<Event>, n: nat)
    requires Run(states, events) && n <= |events|
    ensures Inv(states[n])
  {
    if n == 0 {
      assert forall g :: DrainInv(IDLE, g);
    } else {
      hide Inv;
      RunKeeps(states, events, n - 1);
      assert Enabled(states[n - 1], events[n - 1]) && states[n - 1 + 1] == Next(states[n - 1], events[n - 1]);
      EventKeeps(states[n - 1], events[n - 1]);
    }
  }

  lemma {:induction false} GenGrows(states: seq<State>, events: seq<Event>, m: nat, n: nat)
    requires Run(states, events) && m <= n <= |events|
    ensures states[m].gen <= states[n].gen && states[m].closed <= states[n].closed
  {
    if m < n {
      GenGrows(states, events, m, n - 1);
      assert Enabled(states[n - 1], events[n - 1]) && states[n - 1 + 1] == Next(states[n - 1], events[n - 1]);
    }
  }

  /** Once a drain has taken its generation, every session closed from then on is closed by it or a newer one. */
  lemma {:induction false} OlderNeverCloses(states: seq<State>, events: seq<Event>, m: nat, n: nat)
    requires Run(states, events) && m <= n <= |events|
    ensures states[m].closed <= states[n].closed
    ensures forall i :: |states[m].closed| <= i < |states[n].closed| ==> states[n].closed[i].gen >= states[m].gen
  {
    if m < n {
      OlderNeverCloses(states, events, m, n - 1);
      GenGrows(states, events, m, n - 1);
      assert Enabled(states[n - 1], events[n - 1]) && states[n - 1 + 1] == Next(states[n - 1], events[n - 1]);
    }
  }

  /** Draining exactly while the goroutine of the newest generation has not finished. */
  lemma DrainingIs(states: seq<State>, events: seq<Event>, n: nat)
    requires Run(states, events) && n <= |events|
    ensures var s := states[n]; s.draining <==> s.gen in s.drains && !s.drains[s.gen].phase.Gone?
  {
    RunKeeps(states, events, n);
  }

  /** A drain closes its targets in order, once each and one gap apart; one that leaves its loop without being
      superseded or cancelled has closed them all. */
  lemma ClosesEveryTarget(states: seq<State>, events: seq<Event>, n: nat, g: int)
    requires Run(states, events) && n <= |events| && g in states[n].drains
    ensures var s, d := states[n], states[n].drains[g];
            && OnPlan(ClosedBy(s.closed, g), g, d)
            && (!d.phase.Closing? && !Stale(s, g) ==> |ClosedBy(s.closed, g)| == |d.targets|)
  {
    RunKeeps(states, events, n);
    assert DrainInv(states[n], g);
  }

  /** The gaps between n targets fill the window up to less than n - 1 nanoseconds. */
  lemma GapsFill(window: int, n: int)
    requires n >= 1
    ensures (n - 1) * Gap(window, n) <= (if window > 0 then window else 0)
    ensures n > 1 && window >= 0 ==> window - (n - 1) < (n - 1) * Gap(window, n)
  {
    if n > 1 && window > 0 {
      assert window == (window / (n - 1)) * (n - 1) + window % (n - 1);
    }
  }

  /** In any interleaving a drain pauses for no longer than its window, and one that is not superseded or cancelled
      spreads several targets over all of it but the rounding, under a nanosecond for each gap. */
  lemma WithinWindow(states: seq<State>, events: seq<Event>, n: nat, g: int)
    requires Run(states, events) && n <= |events| && g in states[n].drains
    ensures var s, d := states[n], states[n].drains[g];
            && 0 <= d.waited <= (if d.window > 0 then d.window else 0)
            && (!d.phase.Closing? && !Stale(s, g) && |d.targets| > 1 && d.window >= 0 ==> d.waited > d.window - (|d.targets| - 1))
  {
    RunKeeps(states, events, n);
    var d := states[n].drains[g];
    assert DrainInv(states[n], g);
    hide Gap, OnPlan;
    GapsFill(d.window, |d.targets|);
  }

  /** Left alone, a drain gets through its targets on plan, one turn each, and it ends the draining. */
  lemma {:induction false} LeftAlone(s: State, g: int)
    requires Inv(s) && Enabled(s, Try(g, 0)) && !Stale(s, g)
    ensures var s' := Alone(s, g);
            && Inv(s') && !s'.draining && s'.gen == s.gen && s'.drains[g].phase.Gone?
            && s'.drains[g].targets == s.drains[g].targets && s'.drains[g].window == s.drains[g].window
            && OnPlan(ClosedBy(s'.closed, g), g, s.drains[g]) && |ClosedBy(s'.closed, g)| == |s.drains[g].targets|
    decreases |s.drains[g].targets| - s.drains[g].next
  {
    assert DrainInv(s, g);
    var t := Next(s, Try(g, 0));
    EventKeeps(s, Try(g, 0));
    assert DrainInv(t, g);
    hide Gap, Pause, ClosedBy, WaitInv;
    if t.drains[g].phase.Closing? {
      LeftAlone(t, g);
    } else {
      EventKeeps(t, Leave(g));
      assert DrainInv(Next(t, Leave(g)), g);
    }
  }

  /** The drain g runs to its end with nothing in between. */
  function Alone(s: State, g: int): (s': State)
    requires Enabled(s, Try(g, 0))
    ensures g in s'.drains
    decreases if Stale(s, g) then 0 else 1, |s.drains[g].targets| - s.drains[g].next
  {
    var t := Next(s, Try(g, 0));
    if t.drains[g].phase.Closing? then Alone(t, g) else Next(t, Leave(g))
  }

  // ---- superseded and stopped ----

  /** What drain g may still close: nothing once it is cancelled or a newer one has started. */
  predicate Over(s: State, g: int) {
    g in s.cancelled || g < s.gen
  }

  lemma OverCloses(s: State, e: Event, g: int)
    requires Inv(s) && Enabled(s, e) && Over(s, g) && g <= s.gen
    ensures Over(Next(s, e), g) && ClosedBy(Next(s, e).closed, g) == ClosedBy(s.closed, g)
  {
    if e.Try? && !Stale(s, e.gen) {
      ClosedSnoc(s.closed, Next(s, e).closed[|s.closed|], g);
    }
    hide Inv, ClosedBy, Gap, Pause;
  }

  lemma {:induction false} OverStays(states: seq<State>, events: seq<Event>, m: nat, n: nat, g: int)
    requires Run(states, events) && m <= n <= |events| && g <= states[m].gen && Over(states[m], g)
    ensures Over(states[n], g) && g <= states[n].gen && ClosedBy(states[n].closed, g) == ClosedBy(states[m].closed, g)
  {
    hide Over, Inv, ClosedBy;
    if m < n {
      OverStays(states, events, m, n - 1, g);
      RunKeeps(states, events, n - 1);
      GenGrows(states, events, m, n);
      assert Enabled(states[n - 1], events[n - 1]) && states[n - 1 + 1] == Next(states[n - 1], events[n - 1]);
      OverCloses(states[n - 1], events[n - 1], g);
    }
  }

  /** Once everything is closed at once, no drain of before closes another session. */
  lemma ClosingAllStops(states: seq<State>, events: seq<Event>, m: nat, n: nat, g: int)
    requires Run(states, events) && m < n <= |events| && events[m] == CloseAll && g <= states[m].gen
    ensures ClosedBy(states[n].closed, g) == ClosedBy(states[m].closed, g)
  {
    assert Enabled(states[m], events[m]) && states[m + 1] == Next(states[m], events[m]);
    if g >= 1 {
      OverStays(states, events, m + 1, n, g);
    } else {
      RunKeeps(states, events, m);
      RunKeeps(states, events, n);
      NoDrainZero(states[m], g);
      NoDrainZero(states[n], g);
    }
  }

  lemma NoDrainZero(s: State, g: int)
    requires Inv(s) && g < 1
    ensures ClosedBy(s.closed, g) == []
  {
    assert DrainInv(s, g);
    hide ClosedBy;
  }

  /** A newer drain, even one without targets, stops the ones before. */
  lemma NewerStops(states: seq<State>, events: seq<Event>, m: nat, n: nat, g: int)
    requires Run(states, events) && m < n <= |events| && events[m].Start? && g <= states[m].gen
    ensures ClosedBy(states[n].closed, g) == ClosedBy(states[m].closed, g)
  {
    assert Enabled(states[m], events[m]) && states[m + 1] == Next(states[m], events[m]);
    OverStays(states, events, m + 1, n, g);
  }

  /** The context of every drain but the newest is done, so that none of them sits out its pause. */
  lemma {:induction false} OlderAreCancelled(states: seq<State>, events: seq<Event>, n: nat, g: int)
    requires Run(states, events) && n <= |events| && 1 <= g < states[n].gen
    ensures g in states[n].cancelled
  {
    if n > 0 {
      assert Enabled(states[n - 1], events[n - 1]) && states[n - 1 + 1] == Next(states[n - 1], events[n - 1]);
      if g < states[n - 1].gen {
        OlderAreCancelled(states, events, n - 1, g);
      }
    }
  }
}
