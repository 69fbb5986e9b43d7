/** The login guard against its history: with pruning, restarts and windows cut down on the way, it answers every
    attempt as a guard that keeps all events would. */
module GuardHistory {
  import opened LoginGuard

  const DAY := 24 * 60 * MINUTE

  // ---- the reference ----

  /** How many of the times are less than the window before now. */
  function CountIn(ts: seq<int>, now: int, window: int): (n: int)
    ensures 0 <= n <= |ts|
  {
    if ts == [] then 0 else CountIn(ts[1..], now, window) + if ts[0] > now - window then 1 else 0
  }

  /** What an IP did since its last login: its failures since the last lock, how many locks it had without a quiet day
      in between, its last failure, and the end of the last lock. */
  datatype Standing = Standing(fails: seq<int>, locks: int, lastFail: int, until: int)

  const CLEAN := Standing([], 0, 0, 0)

  function LocksAt(s: Standing, now: int): int {
    if now - s.lastFail > DAY then 0 else s.locks
  }

  function StandingOf(events: seq<Event>, ip: string): Standing {
    if events == [] then CLEAN else
      var s, e := StandingOf(events[..|events| - 1], ip), events[|events| - 1];
      if !e.Attempt? || e.ip != ip then s
      else if Succeeded(e) then CLEAN
      else if !Failed(e) then s
      else if e.res.ipLock > 0 then Standing([], LocksAt(s, e.now) + 1, e.now, e.now + e.res.ipLock)
      else Standing(s.fails + [e.now], LocksAt(s, e.now), e.now, s.until)
  }

  /** 15 minutes, doubled with each further lock, up to a day. */
  function Escalated(locks: int): int {
    if locks <= 0 then 15 * MINUTE else if 2 * Escalated(locks - 1) > DAY then DAY else 2 * Escalated(locks - 1)
  }

  /** The answer to an attempt after the events. */
  function Answer(events: seq<Event>, ip: string, now: int, pass: bool): Result {
    var s, all := StandingOf(events, ip), Times(Failures(events));
    var hour := CountIn(all, now, 60 * MINUTE);
    if now < s.until then Result(false, true, false, s.until, 0, false)
    else if hour >= 100 then Result(false, true, true, all[|all| - 100] + 60 * MINUTE, 0, false)
    else if pass then Result(true, false, false, 0, 0, false)
    else Result(false, false, false, 0, if CountIn(s.fails, now, 15 * MINUTE) >= 4 then Escalated(LocksAt(s, now)) else 0, hour == 99)
  }

  // ---- the guard's arithmetic ----

  lemma {:induction false} PowersDouble(k: int)
    requires 0 <= k <= 10
    ensures Escalated(k) == if 15 * MINUTE * Pow2(k) > DAY then DAY else 15 * MINUTE * Pow2(k)
  {
    if k > 0 {
      PowersDouble(k - 1);
      assert 15 * MINUTE * Pow2(k) == 2 * (15 * MINUTE * Pow2(k - 1));
    }
  }

  lemma {:induction false} LockForIs(k: int)
    requires 0 <= k
    ensures LockFor(k) == Escalated(k)
  {
    if k <= 10 {
      PowersDouble(k);
    } else {
      LockForIs(k - 1);
      PowersDouble(10);
      assert Pow2(10) == 1024 by { assert Pow2(6) == 64; }
    }
  }

  lemma {:induction false} CountSnoc(ts: seq<int>, t: int, now: int, window: int)
    ensures CountIn(ts + [t], now, window) == CountIn(ts, now, window) + if t > now - window then 1 else 0
  {
    if ts != [] {
      assert (ts + [t])[1..] == ts[1..] + [t];
      CountSnoc(ts[1..], t, now, window);
    }
  }

  lemma {:induction false} RecentIsCounted(ts: seq<int>, now: int, window: int)
    ensures |Recent(ts, now, window)| == CountIn(ts, now, window)
  {
    if ts != [] {
      var init, last := ts[..|ts| - 1], ts[|ts| - 1];
      RecentIsCounted(init, now, window);
      CountSnoc(init, last, now, window);
      assert init + [last] == ts;
    }
  }

  lemma SortedHead(ts: seq<int>, until: int)
    requires Sorted(ts, until) && ts != []
    ensures Sorted(ts[..|ts| - 1], until) && Sorted(ts[..|ts| - 1], ts[|ts| - 1])
  {
  }

  /** Of a sorted list the recent times are the end. */
  lemma {:induction false} RecentIsTail(ts: seq<int>, now: int, window: int, i: int)
    requires Sorted(ts, now) && 0 <= i < |Recent(ts, now, window)|
    ensures var n := |Recent(ts, now, window)|; n <= |ts| && Recent(ts, now, window)[i] == ts[|ts| - n + i]
  {
    var init, last := ts[..|ts| - 1], ts[|ts| - 1];
    SortedHead(ts, now);
    hide Sorted;
    RecentShrinks(init, now, window);
    if now - last >= window {
      NoneRecent(init, last, now, window);
    } else if i < |Recent(init, now, window)| {
      RecentIsTail(init, now, window, i);
    }
  }

  lemma {:induction false} NoneRecent(ts: seq<int>, until: int, now: int, window: int)
    requires Sorted(ts, until) && now - until >= window
    ensures Recent(ts, now, window) == []
  {
    if ts != [] {
      NoneRecent(ts[..|ts| - 1], until, now, window);
    }
  }

  // ---- what the guard remembers of one IP ----

  /** The record stands for the history; a missing one for a history that counts no more. */
  ghost predicate Stands(r: IpRecord, st: Standing, now: int) {
    && SameWindow(r.fails, st.fails, now, IP_FAIL_WINDOW)
    && (r.lockedUntil == st.until || (r.lockedUntil <= now && st.until <= now))
    && ((r.locks == st.locks && r.lastFail == st.lastFail) || (r.locks == 0 && LocksAt(st, now) == 0))
    && 0 <= r.locks && 0 <= st.locks
  }

  ghost predicate Agrees(s: State, events: seq<Event>, ip: string) {
    Stands(RecordOf(s.mem.ips, ip), StandingOf(events, ip), LastAt(events))
  }

  lemma StandsLater(r: IpRecord, st: Standing, now: int, later: int)
    requires Stands(r, st, now) && now <= later
    ensures Stands(r, st, later) && LocksNow(r, later) == LocksAt(st, later)
  {
    WindowLater(r.fails, st.fails, now, later, IP_FAIL_WINDOW);
    hide Recent, SameWindow;
  }

  lemma StandingSnoc(events: seq<Event>, e: Event, ip: string)
    ensures var s := StandingOf(events, ip);
            StandingOf(events + [e], ip) ==
            if !e.Attempt? || e.ip != ip then s
            else if Succeeded(e) then CLEAN
            else if !Failed(e) then s
            else if e.res.ipLock > 0 then Standing([], LocksAt(s, e.now) + 1, e.now, e.now + e.res.ipLock)
            else Standing(s.fails + [e.now], LocksAt(s, e.now), e.now, s.until)
  {
    assert (events + [e])[..|events|] == events;
  }

  /** Pruning changes nothing that counts. */
  lemma KeptStands(ips: map<string, IpRecord>, ip: string, st: Standing, now: int)
    requires Stands(RecordOf(ips, ip), st, now) && now >= 0
    ensures Stands(RecordOf(Kept(ips, now), ip), st, now)
  {
    var r, q := RecordOf(ips, ip), RecordOf(Kept(ips, now), ip);
    hide Recent;
    WindowLater(r.fails, st.fails, now, now, IP_FAIL_WINDOW);
    if ip in ips && !Forgettable(ips[ip], now) {
      assert q == r.(fails := Recent(r.fails, now, IP_FAIL_WINDOW));
    } else if ip in ips {
      assert q == NEW_RECORD && Recent(r.fails, now, IP_FAIL_WINDOW) == [];
      assert SameWindow(q.fails, st.fails, now, IP_FAIL_WINDOW);
      hide SameWindow;
      assert LocksAt(st, now) == 0;
    }
  }

  lemma FailureStands(r: IpRecord, st: Standing, now: int, lock: int)
    requires Stands(r, st, now) && lock == LockStarted(r, now)
    ensures Stands(AfterFailure(r, now),
                   if lock > 0 then Standing([], LocksAt(st, now) + 1, now, now + lock)
                   else Standing(st.fails + [now], LocksAt(st, now), now, st.until), now)
  {
    StandsLater(r, st, now, now);
    LockRange(LocksNow(r, now));
    WindowLater(r.fails, st.fails, now, now, IP_FAIL_WINDOW);
    WindowGrows(Recent(r.fails, now, IP_FAIL_WINDOW), st.fails, now, IP_FAIL_WINDOW);
    hide Recent, LockFor, SameWindow;
    assert SameWindow([], [], now, IP_FAIL_WINDOW) by { SameAsItself([], now); }
  }

  lemma SameAsItself(ts: seq<int>, now: int)
    ensures SameWindow(ts, ts, now, IP_FAIL_WINDOW)
  {
  }

  lemma StepAgrees(s: State, events: seq<Event>, e: Event, s': State, ip: string)
    requires Inv(s, events) && Agrees(s, events, ip)
    requires (e.Attempt? ==> LastAt(events) <= e.now) && Step(s, e, s')
    ensures Agrees(s', events + [e], ip)
  {
    hide Recent, Times, SameWindow, Sorted, HourlyLimit, Pruned, AfterFailure, TableInv, HistoryInv, Stands, Kept,
         LocksAt, LockStarted;
    EventSnoc(events, e, ip);
    StandingSnoc(events, e, ip);
    var r, st := RecordOf(s.mem.ips, ip), StandingOf(events, ip);
    if e.Attempt? {
      StandsLater(r, st, LastAt(events), e.now);
    }
    if Failed(e) {
      FailureKeeps(s, events, e, s');
      var ips := s.mem.ips[e.ip := AfterFailure(RecordOf(s.mem.ips, e.ip), e.now)];
      if e.ip == ip {
        FailureStands(r, st, e.now, e.res.ipLock);
      }
      KeptStands(ips, ip, StandingOf(events + [e], ip), e.now);
    } else if Succeeded(e) && e.ip == ip {
      CleanStands(e.now);
    }
  }

  lemma CleanStands(now: int)
    requires now >= 0
    ensures Stands(NEW_RECORD, CLEAN, now)
  {
    SameAsItself([], now);
    hide Recent;
  }

  lemma {:induction false} RunAgrees(states: seq<State>, events: seq<Event>, n: nat, ip: string)
    requires Run(states, events) && Clocked(events) && n <= |events|
    ensures Agrees(states[n], events[..n], ip)
  {
    hide Step, Inv, Agrees;
    if n == 0 {
      CleanStands(0);
      assert Agrees(State(EMPTY, EMPTY), [], ip) by { FreshAgrees(ip); }
    } else {
      RunKeeps(states, events, n - 1);
      RunAgrees(states, events, n - 1, ip);
      assert events[..n] == events[..n - 1] + [events[n - 1]];
      StepAgrees(states[n - 1], events[..n - 1], events[n - 1], states[n], ip);
    }
  }

  lemma FreshAgrees(ip: string)
    ensures Agrees(State(EMPTY, EMPTY), [], ip)
  {
    CleanStands(0);
  }

  // ---- the answers ----

  lemma GlobalAgrees(s: State, events: seq<Event>, now: int)
    requires Inv(s, events) && LastAt(events) <= now
    ensures var global, all := Recent(s.mem.global, now, GLOBAL_FAIL_WINDOW), Times(Failures(events));
            && |global| == CountIn(all, now, 60 * MINUTE)
            && (|global| >= 100 ==> |all| >= 100 && global[|global| - 100] == all[|all| - 100])
  {
    var all := Times(Failures(events));
    hide Recent, Times, RecordInv, HourlyLimit;
    WindowLater(s.mem.global, all, LastAt(events), now, GLOBAL_FAIL_WINDOW);
    RecentIsCounted(all, now, GLOBAL_FAIL_WINDOW);
    SortedLater(all, LastAt(events), now);
    var n := |Recent(all, now, GLOBAL_FAIL_WINDOW)|;
    if n >= 100 {
      RecentIsTail(all, now, GLOBAL_FAIL_WINDOW, n - 100);
    }
  }

  lemma StepAnswers(s: State, events: seq<Event>, e: Event, s': State)
    requires Inv(s, events) && e.Attempt? && Agrees(s, events, e.ip) && LastAt(events) <= e.now && Step(s, e, s')
    ensures e.res == Answer(events, e.ip, e.now, e.pass)
  {
    var r, st := RecordOf(s.mem.ips, e.ip), StandingOf(events, e.ip);
    StandsLater(r, st, LastAt(events), e.now);
    assert Recent(r.fails, e.now, IP_FAIL_WINDOW) == Recent(st.fails, e.now, IP_FAIL_WINDOW);
    RecentIsCounted(st.fails, e.now, IP_FAIL_WINDOW);
    LockForIs(LocksNow(r, e.now));
    GlobalAgrees(s, events, e.now);
    hide Recent, Times, TableInv, HistoryInv, SameWindow, Pruned, AfterFailure, LockFor, Escalated, CountIn, StandingOf,
         LocksNow, LocksAt;
  }

  /** In every run, over restarts, the guard answers as its whole history says. */
  lemma AnswersAsHistory(states: seq<State>, events: seq<Event>, n: nat)
    requires Run(states, events) && Clocked(events) && n < |events| && events[n].Attempt?
    ensures var e := events[n]; e.res == Answer(events[..n], e.ip, e.now, e.pass)
  {
    RunKeeps(states, events, n);
    RunAgrees(states, events, n, events[n].ip);
    hide Inv, Agrees, Answer;
    assert Step(states[n], events[n], states[n + 1]);
    hide Step;
    StepAnswers(states[n], events[..n], events[n], states[n + 1]);
  }

  // ---- locks escalate ----

  predicate Locks(e: Event, ip: string) {
    Failed(e) && e.ip == ip && e.res.ipLock > 0
  }

  /** Neither a login nor a reported lock of the IP between two events, and no quiet day up to the second one. */
  ghost predicate Continues(events: seq<Event>, ip: string, i: int, j: int)
    requires 0 <= i && j < |events|
  {
    && (forall k :: i < k < j && events[k].Attempt? && events[k].ip == ip ==> !Succeeded(events[k]) && !Locks(events[k], ip))
    && forall k :: i < k <= j && Failed(events[k]) && events[k].ip == ip ==>
         events[k].now - StandingOf(events[..k], ip).lastFail <= DAY
  }

  lemma LockReported(states: seq<State>, events: seq<Event>, ip: string, n: nat)
    requires Run(states, events) && Clocked(events) && n < |events| && Locks(events[n], ip)
    ensures events[n].res.ipLock == Escalated(LocksAt(StandingOf(events[..n], ip), events[n].now))
    ensures StandingOf(events[..n], ip).locks >= 0
  {
    AnswersAsHistory(states, events, n);
    RunAgrees(states, events, n, ip);
    hide Run, Clocked, Times, Failures, StandingOf, Escalated, CountIn, SameWindow;
  }

  lemma {:induction false} LocksStay(events: seq<Event>, ip: string, i: nat, j: nat, n: nat)
    requires i < n <= j < |events| && Continues(events, ip, i, j)
    ensures StandingOf(events[..n], ip).locks == StandingOf(events[..i + 1], ip).locks
  {
    if n > i + 1 {
      LocksStay(events, ip, i, j, n - 1);
      var e := events[n - 1];
      assert events[..n] == events[..n - 1] + [e];
      StandingSnoc(events[..n - 1], e, ip);
    }
  }

  /** Each further lock of an IP is double the one before, up to a day. */
  lemma LocksDouble(states: seq<State>, events: seq<Event>, ip: string, i: nat, j: nat)
    requires Run(states, events) && Clocked(events) && i < j < |events|
    requires Locks(events[i], ip) && Locks(events[j], ip) && Continues(events, ip, i, j)
    ensures events[j].res.ipLock == if 2 * events[i].res.ipLock > DAY then DAY else 2 * events[i].res.ipLock
  {
    LockReported(states, events, ip, i);
    LockReported(states, events, ip, j);
    LocksStay(events, ip, i, j, j);
    assert events[..i + 1] == events[..i] + [events[i]];
    StandingSnoc(events[..i], events[i], ip);
    hide Run, Clocked, StandingOf;
  }

  /** The events from m on hold no reported lock of the IP, and begin with the run or after a login. */
  predicate NoLockSince(events: seq<Event>, ip: string, m: nat, n: nat)
    requires m <= n <= |events|
  {
    && (m > 0 ==> Succeeded(events[m - 1]) && events[m - 1].ip == ip)
    && forall k :: m <= k < n ==> !Locks(events[k], ip)
  }

  lemma {:induction false} NoLocks(events: seq<Event>, ip: string, m: nat, n: nat)
    requires m <= n <= |events| && NoLockSince(events, ip, m, n)
    ensures StandingOf(events[..n], ip).locks == 0
  {
    if n > 0 {
      var e := events[n - 1];
      assert events[..n] == events[..n - 1] + [e];
      StandingSnoc(events[..n - 1], e, ip);
      if n > m {
        NoLocks(events, ip, m, n - 1);
      }
    }
  }

  /** The first lock of an IP, the first one after a login, and the first one after a day without a checked failure
      last 15 minutes. */
  lemma FirstLockIsShort(states: seq<State>, events: seq<Event>, ip: string, m: nat, n: nat)
    requires Run(states, events) && Clocked(events) && m <= n < |events| && Locks(events[n], ip)
    requires NoLockSince(events, ip, m, n) || events[n].now - StandingOf(events[..n], ip).lastFail > DAY
    ensures events[n].res.ipLock == 15 * MINUTE
  {
    LockReported(states, events, ip, n);
    if NoLockSince(events, ip, m, n) {
      NoLocks(events, ip, m, n);
    }
  }
}
