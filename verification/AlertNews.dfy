/** What the chat hears, and when: every change that is news goes out as soon as the batch and the gap allow, and nothing
    else does. */
module AlertNews {
  import opened AlertLimiter
  import opened AlertRuns

  const QUARTER := 15 * 60_000_000_000
  const HOUR := 60 * 60_000_000_000

  datatype Tale = Told | Untold(online: bool)

  /** The latest change of an ASIC that came after the last message about it. */
  function TaleOf(events: seq<Event>, batch: int, gap: int, name: string): Tale {
    if events == [] then Tale.Told else
      var init, e := events[..|events| - 1], events[|events| - 1];
      TaleAfter(Play(init, batch, gap), e, batch, gap, name, TaleOf(init, batch, gap, name))
  }

  function TaleAfter(s: State, e: Event, batch: int, gap: int, name: string, u: Tale): Tale {
    if e.Alert? then if name in e.changes then Untold(e.changes[name]) else u
    else if Tells(s, e, batch, gap, name) then Tale.Told else u
  }

  /** Two messages in the last hour, the last one less than a quarter of an hour ago: the ASIC is flapping. */
  predicate Held(h: seq<Message>, now: int) {
    |h| >= 2 && now - h[|h| - 2].at < HOUR && now - h[|h| - 1].at < QUARTER
  }

  /** What waits is the latest untold change, unless that is what the chat knows. */
  predicate Waits(s: State, h: seq<Message>, u: Tale, name: string) {
    && (name in s.pending ==> u == Untold(s.pending[name]))
    && (u.Untold? && name !in s.pending ==> h != [] && u.online == h[|h| - 1].online)
  }

  lemma FlappingIsHeld(h: seq<Message>, r: Reported, before: int, now: int)
    requires Ascending(h, before) && EndOf(h, r.times, before) && before <= now
    ensures Flapping(r, now) <==> Held(h, now)
  {
    RecentEnds(h, r.times, before, now);
    var times := Recent(r.times, now);
    if |times| >= 1 {
      assert times[|times| - 1] == h[|h| - 1].at;
    }
    if |times| >= 2 {
      assert times[|times| - 2] == h[|h| - 2].at && times[0] == h[|h| - |times|].at;
    }
  }

  /** Due at now, by the messages and the untold change. */
  lemma DueMeansNews(s: State, h: seq<Message>, u: Tale, before: int, now: int, name: string)
    requires Inv(s.reported, h, before, name) && Waits(s, h, u, name) && before <= now
    ensures name in DueAt(s, now) ==>
              && u == Untold(DueAt(s, now)[name]) && !Held(h, now)
              && (h != [] && u.online == h[|h| - 1].online ==> u.online && now - h[|h| - 1].at >= HOUR)
    ensures u.Untold? && !Held(h, now) && (h == [] || u.online != h[|h| - 1].online) ==> name in DueAt(s, now)
  {
    hide Holds, Alternates, Recent;
    if name in s.reported {
      FlappingIsHeld(h, s.reported[name], before, now);
    }
    hide Flapping, EndOf, Ascending;
  }

  lemma NextWaits(s: State, e: Event, h: seq<Message>, u: Tale, now: int, name: string, batch: int, gap: int)
    requires Inv(s.reported, h, now, name) && Waits(s, h, u, name)
    ensures var tells := Tells(s, e, batch, gap, name);
            Waits(Next(s, e, batch, gap), h + if tells then [Message(e.now, DueAt(s, e.now)[name])] else [],
                  TaleAfter(s, e, batch, gap, name, u), name)
  {
    assert h + [] == h;
    hide Holds, Alternates, EndOf, Ascending, Recent, Flapping, Forgettable, TellAll;
  }

  lemma TaleSnoc(events: seq<Event>, e: Event, batch: int, gap: int, name: string)
    ensures var s, u := Play(events, batch, gap), TaleOf(events, batch, gap, name);
            TaleOf(events + [e], batch, gap, name) == TaleAfter(s, e, batch, gap, name, u)
  {
    assert (events + [e])[..|events|] == events;
    hide Play, TaleAfter;
  }

  lemma {:induction false} RunWaits(events: seq<Event>, batch: int, gap: int, name: string)
    requires Clocked(events)
    ensures Waits(Play(events, batch, gap), Messages(events, batch, gap, name), TaleOf(events, batch, gap, name), name)
  {
    hide Waits, Inv, Next, Tells, DueAt, TaleAfter;
    if events == [] {
      NoneWaits(name);
    } else {
      var n := |events| - 1;
      var init := events[..n];
      assert forall k :: 0 <= k < n ==> init[..k] == events[..k];
      RunWaits(init, batch, gap, name);
      RunKeeps(init, batch, gap, name);
      assert init + [events[n]] == events;
      TaleSnoc(init, events[n], batch, gap, name);
      NextWaits(Play(init, batch, gap), events[n], Messages(init, batch, gap, name), TaleOf(init, batch, gap, name), LastAt(init),
                name, batch, gap);
    }
  }

  lemma NoneWaits(name: string)
    ensures Waits(NEW, [], Tale.Told, name)
  {
  }

  /** A change is due exactly when it is untold, the ASIC is not flapping, and it is not what the chat was told last; only
      what was told an hour ago or longer may be told again. */
  lemma NewsIsDue(events: seq<Event>, batch: int, gap: int, name: string, now: int)
    requires Clocked(events) && LastAt(events) <= now
    ensures var s, h, u := Play(events, batch, gap), Messages(events, batch, gap, name), TaleOf(events, batch, gap, name);
            && (name in DueAt(s, now) ==>
                  && u == Untold(DueAt(s, now)[name]) && !Held(h, now)
                  && (h != [] && u.online == h[|h| - 1].online ==> u.online && now - h[|h| - 1].at >= HOUR))
            && (u.Untold? && !Held(h, now) && (h == [] || u.online != h[|h| - 1].online) ==> name in DueAt(s, now))
  {
    hide Inv, Waits, DueAt, Held, Play, Messages, TaleOf;
    RunKeeps(events, batch, gap, name);
    RunWaits(events, batch, gap, name);
    DueMeansNews(Play(events, batch, gap), Messages(events, batch, gap, name), TaleOf(events, batch, gap, name), LastAt(events),
                 now, name);
  }

  // ---- when a message goes out ----

  function Before(events: seq<Event>, n: int, batch: int, gap: int): State
    requires 0 <= n <= |events|
  {
    Play(events[..n], batch, gap)
  }

  predicate SomeDue(events: seq<Event>, n: int, batch: int, gap: int)
    requires 0 <= n < |events|
  {
    DueAt(Before(events, n, batch, gap), events[n].now) != map[]
  }

  predicate Delivers(events: seq<Event>, n: int, batch: int, gap: int)
    requires 0 <= n < |events|
  {
    Attempts(Before(events, n, batch, gap), events[n], batch, gap) && events[n].delivered
  }

  /** From event i on something has been waiting: it is an alert or a turn with something due, no turn found nothing due,
      and no message was delivered. */
  ghost predicate WaitsSince(events: seq<Event>, i: int, n: int, batch: int, gap: int)
    requires n <= |events|
  {
    && 0 <= i < n
    && forall x {:trigger events[x]} :: i <= x < n && events[x].Turn? ==>
         SomeDue(events, x, batch, gap) && !Delivers(events, x, batch, gap)
  }

  /** The clock is past its zero. */
  predicate Timed(events: seq<Event>) {
    forall n :: 0 <= n < |events| ==> events[n].now > 0
  }

  lemma FirstDueAfter(s: State, e: Event, batch: int, gap: int)
    ensures var s', some := Next(s, e, batch, gap), DueAt(s, e.now) != map[];
            s'.firstDue == if e.Turn? && (!some || (Attempts(s, e, batch, gap) && e.delivered)) then 0
                           else if s.firstDue == 0 then e.now else s.firstDue
  {
    hide DueAt, Recent, StillPending, Remembered, Trimmed, TellAll;
  }

  lemma BeforeNext(events: seq<Event>, n: int, batch: int, gap: int)
    requires 0 <= n < |events|
    ensures Before(events, n + 1, batch, gap) == Next(Before(events, n, batch, gap), events[n], batch, gap)
  {
    assert events[..n + 1][..n] == events[..n];
    hide Next;
  }

  ghost predicate Began(events: seq<Event>, n: int, t: int, batch: int, gap: int)
    requires n <= |events|
  {
    t != 0 ==> exists i :: WaitsSince(events, i, n, batch, gap) && events[i].now == t
  }

  lemma {:induction false} FirstDueIs(events: seq<Event>, n: int, batch: int, gap: int)
    requires 0 <= n <= |events|
    ensures Began(events, n, Before(events, n, batch, gap).firstDue, batch, gap)
    decreases n
  {
    hide SomeDue, Delivers, Before;
    if n == 0 {
      StartsEmpty(events, batch, gap);
    } else {
      FirstDueIs(events, n - 1, batch, gap);
      FirstDueStep(events, n - 1, batch, gap);
      var s := Before(events, n - 1, batch, gap);
      if Before(events, n, batch, gap).firstDue != 0 {
        if s.firstDue == 0 {
          assert WaitsSince(events, n - 1, n, batch, gap);
        } else {
          var i :| WaitsSince(events, i, n - 1, batch, gap) && events[i].now == s.firstDue;
          assert WaitsSince(events, i, n, batch, gap);
        }
      }
    }
  }

  lemma StartsEmpty(events: seq<Event>, batch: int, gap: int)
    ensures Before(events, 0, batch, gap).firstDue == 0 && Before(events, 0, batch, gap).lastSent == 0
  {
    assert events[..0] == [];
  }

  lemma FirstDueStep(events: seq<Event>, n: int, batch: int, gap: int)
    requires 0 <= n < |events|
    ensures var s, s', e := Before(events, n, batch, gap), Before(events, n + 1, batch, gap), events[n];
            s'.firstDue == if e.Turn? && (!SomeDue(events, n, batch, gap) || Delivers(events, n, batch, gap)) then 0
                           else if s.firstDue == 0 then e.now else s.firstDue
  {
    BeforeNext(events, n, batch, gap);
    hide Before, DueAt, Attempts, Next;
    FirstDueAfter(Before(events, n, batch, gap), events[n], batch, gap);
  }

  lemma {:induction false} WaitedLong(events: seq<Event>, i: int, n: int, batch: int, gap: int)
    requires Timed(events) && n <= |events| && WaitsSince(events, i, n, batch, gap) && Clocked(events)
    ensures 0 < Before(events, n, batch, gap).firstDue <= events[i].now
    decreases n
  {
    hide SomeDue, Delivers, Before, Clocked;
    FirstDueStep(events, n - 1, batch, gap);
    if n > i + 1 {
      WaitedLong(events, i, n - 1, batch, gap);
    } else {
      FirstDueIs(events, i, batch, gap);
      var t := Before(events, i, batch, gap).firstDue;
      if t != 0 {
        var j :| WaitsSince(events, j, i, batch, gap) && events[j].now == t;
        InTime(events, j, i);
      }
    }
  }

  lemma {:induction false} InTime(events: seq<Event>, i: int, j: int)
    requires Clocked(events) && 0 <= i < j < |events|
    ensures events[i].now <= events[j].now
  {
    assert LastAt(events[..j]) <= events[j].now;
    if i < j - 1 {
      InTime(events, i, j - 1);
    }
  }

  /** A message is tried only when something is due and something has been waiting for the batch. */
  lemma TriesAfterBatch(events: seq<Event>, n: int, batch: int, gap: int)
    requires 0 <= n < |events| && Attempts(Before(events, n, batch, gap), events[n], batch, gap)
    ensures SomeDue(events, n, batch, gap)
    ensures batch <= 0 || exists i :: WaitsSince(events, i, n, batch, gap) && events[n].now - events[i].now >= batch
  {
    FirstDueIs(events, n, batch, gap);
    hide Before, DueAt;
  }

  lemma {:induction false} LastTry(events: seq<Event>, n: int, batch: int, gap: int)
    requires 0 <= n <= |events|
    ensures var t, ts := Before(events, n, batch, gap).lastSent, Tries(events[..n], batch, gap);
            if ts == [] then t == 0 else t == ts[|ts| - 1]
    decreases n
  {
    if n == 0 {
      StartsEmpty(events, batch, gap);
      assert events[..0] == [];
    } else {
      LastTry(events, n - 1, batch, gap);
      BeforeNext(events, n - 1, batch, gap);
      LastSentAfter(Before(events, n - 1, batch, gap), events[n - 1], batch, gap);
      assert events[..n][..n - 1] == events[..n - 1];
      hide Next, Attempts;
    }
  }

  /** And it is tried as soon as something is due, something has been waiting for the batch, and the last try is the gap
      ago. */
  lemma TriesWhenDue(events: seq<Event>, i: int, n: int, batch: int, gap: int)
    requires Timed(events) && Clocked(events) && 0 <= i < n < |events| && events[n].Turn? && SomeDue(events, n, batch, gap)
    requires WaitsSince(events, i, n, batch, gap) && events[n].now - events[i].now >= batch
    requires var ts := Tries(events[..n], batch, gap);
             if ts == [] then events[n].now >= gap else events[n].now - ts[|ts| - 1] >= gap
    ensures Attempts(Before(events, n, batch, gap), events[n], batch, gap)
  {
    hide DueAt, Tries, Before, Clocked, WaitsSince, Timed;
    WaitedLong(events, i, n, batch, gap);
    LastTry(events, n, batch, gap);
  }

  // ---- what is remembered ----

  /** After a turn an ASIC is remembered only while a change of it waits, or the chat was told that it is offline, or was
      told of it in the last hour. */
  lemma RemembersOnly(events: seq<Event>, batch: int, gap: int, name: string, now: int)
    requires Clocked(events) && LastAt(events) <= now && name in Taken(Play(events, batch, gap), now).reported
    ensures var t, h := Taken(Play(events, batch, gap), now), Messages(events, batch, gap, name);
            name in t.pending || (h != [] && (!h[|h| - 1].online || now - h[|h| - 1].at < HOUR))
  {
    hide Play, Messages, Holds, Alternates;
    RunKeeps(events, batch, gap, name);
    var s, h := Play(events, batch, gap), Messages(events, batch, gap, name);
    LaterKeeps(s.reported, h, LastAt(events), now, name);
    if name !in Taken(s, now).pending {
      StillThere(s, h, now, name);
    }
    hide Taken;
  }

  lemma StillThere(s: State, h: seq<Message>, now: int, name: string)
    requires Inv(s.reported, h, now, name) && name in Taken(s, now).reported && name !in Taken(s, now).pending
    ensures h != [] && (!h[|h| - 1].online || now - h[|h| - 1].at < HOUR)
  {
    hide Holds, Alternates, Recent, DueAt, StillPending;
    var times := s.reported[name].times;
    RecentEnds(h, times, now, now);
    RecentEnds(h, Recent(times, now), now, now);
  }

  /** Of the changes of one alert the last one of each ASIC waits. */
  lemma {:induction false} LatestIs(changes: seq<Change>, name: string)
    ensures name in Latest(changes) <==> exists i :: 0 <= i < |changes| && changes[i].name == name
    ensures name in Latest(changes) ==>
              exists i :: 0 <= i < |changes| && changes[i] == Change(name, Latest(changes)[name])
                          && forall j :: i < j < |changes| ==> changes[j].name != name
  {
    if changes != [] {
      var n := |changes| - 1;
      var init := changes[..n];
      LatestIs(init, name);
      if changes[n].name == name {
        assert changes[n] == Change(name, Latest(changes)[name]);
      } else if name in Latest(init) {
        var i :| 0 <= i < n && init[i] == Change(name, Latest(init)[name]) && forall j :: i < j < n ==> init[j].name != name;
        assert changes[i] == Change(name, Latest(changes)[name]);
        assert forall j :: i < j < n ==> changes[j] == init[j];
      }
    }
  }
}
