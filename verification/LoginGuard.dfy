/** Brute-force protection of the admin login: sliding windows of failures, escalating locks of an IP,
    a global lock, and pruning of the table.  Times are nanoseconds since Go's zero time. */
module LoginGuard {
  import opened Basics

  const MINUTE := 60_000_000_000
  const HOUR := 60 * MINUTE
  const IP_FAIL_LIMIT := 5
  const IP_FAIL_WINDOW := 15 * MINUTE
  const IP_LOCK_BASE := 15 * MINUTE
  const IP_LOCK_MAX := 24 * HOUR
  const LOCK_FORGET := 24 * HOUR
  const GLOBAL_FAIL_LIMIT := 100
  const GLOBAL_FAIL_WINDOW := HOUR
  const MAX_GUARD_IPS := 5000

  datatype IpRecord = IpRecord(fails: seq<int>, locks: int, lockedUntil: int, lastFail: int)
  datatype Table = Table(ips: map<string, IpRecord>, global: seq<int>)

  /** The state in memory and the one in the file. */
  datatype State = State(mem: Table, disk: Table)

  datatype Result = Result(ok: bool, blocked: bool, global: bool, retryAt: int, ipLock: int, globalLock: bool)

  const EMPTY := Table(map[], [])
  const NEW_RECORD := IpRecord([], 0, 0, 0)

  // ---- specification ----

  /** The times within the window, in order. */
  function Recent(ts: seq<int>, now: int, window: int): seq<int> {
    if ts == [] then [] else
      Recent(ts[..|ts| - 1], now, window) + if now - ts[|ts| - 1] < window then [ts[|ts| - 1]] else []
  }

  function Pow2(n: int): int {
    if n <= 0 then 1 else 2 * Pow2(n - 1)
  }

  function Min(x: int, y: int): int {
    if x < y then x else y
  }

  /** How long the lock is that follows `locks` earlier ones. */
  function LockFor(locks: int): int {
    Min(IP_LOCK_BASE * Pow2(Min(locks, 10)), IP_LOCK_MAX)
  }

  function RecordOf(ips: map<string, IpRecord>, ip: string): IpRecord {
    if ip in ips then ips[ip] else NEW_RECORD
  }

  function LocksNow(r: IpRecord, now: int): int {
    if now - r.lastFail > LOCK_FORGET then 0 else r.locks
  }

  /** The record after one more failure. */
  function AfterFailure(r: IpRecord, now: int): IpRecord {
    var fails := Recent(r.fails, now, IP_FAIL_WINDOW) + [now];
    var locks := LocksNow(r, now);
    if |fails| >= IP_FAIL_LIMIT then IpRecord([], locks + 1, now + LockFor(locks), now)
    else IpRecord(fails, locks, r.lockedUntil, now)
  }

  /** The lock that one more failure starts, 0 for none. */
  function LockStarted(r: IpRecord, now: int): int {
    if |Recent(r.fails, now, IP_FAIL_WINDOW)| + 1 >= IP_FAIL_LIMIT then LockFor(LocksNow(r, now)) else 0
  }

  predicate Forgettable(r: IpRecord, now: int) {
    Recent(r.fails, now, IP_FAIL_WINDOW) == [] && now >= r.lockedUntil && now - r.lastFail > LOCK_FORGET
  }

  function Kept(ips: map<string, IpRecord>, now: int): map<string, IpRecord> {
    map ip | ip in ips && !Forgettable(ips[ip], now) :: ips[ip].(fails := Recent(ips[ip].fails, now, IP_FAIL_WINDOW))
  }

  /** after is ips without the forgettable records and, if there are still too many, without the least
      recently failing ones; ties are dropped in any order. */
  ghost predicate Pruned(ips: map<string, IpRecord>, now: int, after: map<string, IpRecord>) {
    var kept := Kept(ips, now);
    if |kept| <= MAX_GUARD_IPS then after == kept else Evicted(kept, after)
  }

  ghost predicate Evicted(kept: map<string, IpRecord>, after: map<string, IpRecord>) {
    && |after| == MAX_GUARD_IPS
    && after.Keys <= kept.Keys
    && (forall ip :: ip in after ==> after[ip] == kept[ip])
    && (forall ip, gone :: ip in after && gone in kept && gone !in after ==> kept[gone].lastFail <= kept[ip].lastFail)
  }

  const PASSED := Result(true, false, false, 0, 0, false)

  /** One login attempt of ip at now, with a right password or not. */
  ghost predicate Attempted(s: State, ip: string, now: int, pass: bool, s': State, res: Result) {
    var global := Recent(s.mem.global, now, GLOBAL_FAIL_WINDOW);
    var r := RecordOf(s.mem.ips, ip);
    if ip in s.mem.ips && now < r.lockedUntil then
      && s' == s.(mem := s.mem.(global := global))
      && res == Result(false, true, false, r.lockedUntil, 0, false)
    else if |global| >= GLOBAL_FAIL_LIMIT then
      && s' == s.(mem := s.mem.(global := global))
      && res == Result(false, true, true, global[|global| - GLOBAL_FAIL_LIMIT] + GLOBAL_FAIL_WINDOW, 0, false)
    else if pass then
      var t := Table(s.mem.ips - {ip}, global);
      s' == State(t, if ip in s.mem.ips then t else s.disk) && res == PASSED
    else
      && Pruned(s.mem.ips[ip := AfterFailure(r, now)], now, s'.mem.ips)
      && s'.mem.global == global + [now] && s'.disk == s'.mem
      && res == Result(false, false, false, 0, LockStarted(r, now), |global| + 1 == GLOBAL_FAIL_LIMIT)
  }

  // ---- the guard ----

  class Guard {
    var ips: map<string, IpRecord>
    var global: seq<int>
    var disk: Table

    /** Starts from the state file, or empty without one. */
    constructor (file: Table)
      ensures View() == State(file, file)
    {
      ips, global, disk := file.ips, file.global, file;
    }

    ghost function View(): State
      reads this
    {
      State(Table(ips, global), disk)
    }

    /** Runs the check unless ip or the whole login is locked, and records the outcome. */
    method Attempt(ip: string, now: int, pass: bool) returns (res: Result)
      modifies this
      ensures Attempted(old(View()), ip, now, pass, View(), res)
    {
      hide Recent, LockFor, Kept, Evicted;
      global := KeepRecent(global, now, GLOBAL_FAIL_WINDOW);
      if ip in ips && now < ips[ip].lockedUntil {
        return Result(false, true, false, ips[ip].lockedUntil, 0, false);
      }
      if |global| >= GLOBAL_FAIL_LIMIT {
        return Result(false, true, true, global[|global| - GLOBAL_FAIL_LIMIT] + GLOBAL_FAIL_WINDOW, 0, false);
      }
      if pass {
        if ip in ips {
          ips := ips - {ip};
          Save();
        }
        assert ips == old(ips) - {ip};
        return PASSED;
      }
      var rec := if ip in ips then ips[ip] else NEW_RECORD;
      if now - rec.lastFail > LOCK_FORGET {
        rec := rec.(locks := 0);
      }
      var fails := KeepRecent(rec.fails, now, IP_FAIL_WINDOW);
      rec := rec.(lastFail := now, fails := fails + [now]);
      global := global + [now];
      var lock := 0;
      if |rec.fails| >= IP_FAIL_LIMIT {
        lock := LockFor(rec.locks);
        rec := rec.(locks := rec.locks + 1, lockedUntil := now + lock, fails := []);
      }
      ips := ips[ip := rec];
      Prune(now);
      Save();
      res := Result(false, false, false, 0, lock, |global| == GLOBAL_FAIL_LIMIT);
    }

    method Save()
      modifies this`disk
      ensures disk == Table(ips, global)
    {
      disk := Table(ips, global);
    }

    /** Forgets IPs that are neither locked nor recently failing, and keeps at most MAX_GUARD_IPS. */
    method Prune(now: int)
      modifies this`ips
      ensures Pruned(old(ips), now, ips)
    {
      hide Recent;
      var todo := ips.Keys;
      var all := ips;
      while todo != {}
        invariant todo <= all.Keys
        invariant forall ip :: ip in ips <==> ip in all && (ip in todo || !Forgettable(all[ip], now))
        invariant forall ip :: ip in ips ==>
          ips[ip] == if ip in todo then all[ip] else all[ip].(fails := Recent(all[ip].fails, now, IP_FAIL_WINDOW))
      {
        var ip :| ip in todo;
        var r := ips[ip];
        var fails := KeepRecent(r.fails, now, IP_FAIL_WINDOW);
        if fails == [] && now >= r.lockedUntil && now - r.lastFail > LOCK_FORGET {
          ips := ips - {ip};
        } else {
          ips := ips[ip := r.(fails := fails)];
        }
        todo := todo - {ip};
      }
      ghost var kept := ips;
      assert kept == Kept(all, now);
      while |ips| > MAX_GUARD_IPS
        invariant ips.Keys <= kept.Keys && (|kept| <= MAX_GUARD_IPS ==> ips == kept)
        invariant |kept| > MAX_GUARD_IPS ==> |ips| >= MAX_GUARD_IPS
        invariant forall ip :: ip in ips ==> ips[ip] == kept[ip]
        invariant forall ip, gone :: ip in ips && gone in kept && gone !in ips ==> kept[gone].lastFail <= kept[ip].lastFail
        decreases |ips|
      {
        var oldest := Oldest(ips);
        ips := ips - {oldest};
      }
    }
  }

  method Oldest(ips: map<string, IpRecord>) returns (oldest: string)
    requires |ips| > 0
    ensures oldest in ips && forall ip :: ip in ips ==> ips[oldest].lastFail <= ips[ip].lastFail
  {
    assert ips.Keys != {};
    oldest :| oldest in ips;
    var todo := ips.Keys;
    while todo != {}
      invariant todo <= ips.Keys && oldest in ips
      invariant forall ip :: ip in ips && ip !in todo ==> ips[oldest].lastFail <= ips[ip].lastFail
    {
      var ip :| ip in todo;
      if ips[ip].lastFail < ips[oldest].lastFail {
        oldest := ip;
      }
      todo := todo - {ip};
    }
  }

  method KeepRecent(ts: seq<int>, now: int, window: int) returns (out: seq<int>)
    ensures out == Recent(ts, now, window)
  {
    out := [];
    var i := 0;
    while i < |ts|
      invariant 0 <= i <= |ts| && out == Recent(ts[..i], now, window)
    {
      assert ts[..i + 1][..i] == ts[..i];
      if now - ts[i] < window {
        out := out + [ts[i]];
      }
      i := i + 1;
    }
    assert ts[..i] == ts;
  }

  // ---- runs ----

  datatype Event = Attempt(ip: string, now: int, pass: bool, res: Result) | Restart

  ghost predicate Step(s: State, e: Event, s': State) {
    match e
    case Attempt(ip, now, pass, res) => Attempted(s, ip, now, pass, s', res)
    case Restart => s' == State(s.disk, s.disk)
  }

  /** A run from an empty state: states[i] is the state before events[i]. */
  ghost predicate Run(states: seq<State>, events: seq<Event>) {
    && |states| == |events| + 1
    && states[0] == State(EMPTY, EMPTY)
    && forall i :: 0 <= i < |events| ==> Step(states[i], events[i], states[i + 1])
  }

  /** The time of the last attempt. */
  function LastAt(events: seq<Event>): int {
    if events == [] then 0 else
      var e := events[|events| - 1];
      if e.Attempt? then e.now else LastAt(events[..|events| - 1])
  }

  /** The clock does not go back. */
  ghost predicate Clocked(events: seq<Event>) {
    forall i :: 0 <= i < |events| && events[i].Attempt? ==> LastAt(events[..i]) <= events[i].now
  }

  datatype Failure = Failure(ip: string, at: int)

  predicate Failed(e: Event) {
    e.Attempt? && !e.res.blocked && !e.pass
  }

  predicate Succeeded(e: Event) {
    e.Attempt? && !e.res.blocked && e.pass
  }

  /** The checked failures of a run, from all IPs. */
  function Failures(events: seq<Event>): seq<Failure> {
    if events == [] then [] else
      var e := events[|events| - 1];
      Failures(events[..|events| - 1]) + if Failed(e) then [Failure(e.ip, e.now)] else []
  }

  /** The checked failures of ip since its last successful login. */
  function FailuresOf(events: seq<Event>, ip: string): seq<int> {
    if events == [] then [] else
      var e := events[|events| - 1];
      if Succeeded(e) && e.ip == ip then []
      else FailuresOf(events[..|events| - 1], ip) + if Failed(e) && e.ip == ip then [e.now] else []
  }

  function Times(fs: seq<Failure>): (r: seq<int>)
    ensures |r| == |fs|
  {
    if fs == [] then [] else Times(fs[..|fs| - 1]) + [fs[|fs| - 1].at]
  }

  // ---- the window filter ----

  ghost predicate Sorted(ts: seq<int>, until: int) {
    && (forall i, j :: 0 <= i < j < |ts| ==> ts[i] <= ts[j])
    && (forall i :: 0 <= i < |ts| ==> ts[i] <= until)
  }

  lemma RecentSnoc(ts: seq<int>, t: int, now: int, window: int)
    ensures Recent(ts + [t], now, window) == Recent(ts, now, window) + if now - t < window then [t] else []
  {
    assert (ts + [t])[..|ts|] == ts;
  }

  /** Filtering at an earlier moment first loses nothing that counts later. */
  lemma {:induction false} RecentTwice(ts: seq<int>, now: int, later: int, window: int)
    requires now <= later
    ensures Recent(Recent(ts, now, window), later, window) == Recent(ts, later, window)
  {
    if ts != [] {
      var init, last := ts[..|ts| - 1], ts[|ts| - 1];
      RecentTwice(init, now, later, window);
      if now - last < window {
        RecentSnoc(Recent(init, now, window), last, later, window);
      } else {
        assert Recent(ts, now, window) == Recent(init, now, window);
      }
    }
  }

  lemma {:induction false} RecentMembers(ts: seq<int>, now: int, window: int)
    ensures forall t :: t in Recent(ts, now, window) <==> t in ts && now - t < window
  {
    if ts != [] {
      RecentMembers(ts[..|ts| - 1], now, window);
      assert ts == ts[..|ts| - 1] + [ts[|ts| - 1]];
    }
  }

  /** In a sorted list the last k times are within the window as soon as the first of them is. */
  lemma {:induction false} RecentCounts(ts: seq<int>, now: int, window: int, k: nat)
    requires Sorted(ts, now) && k <= |ts| && (k > 0 ==> now - ts[|ts| - k] < window)
    ensures |Recent(ts, now, window)| >= k
  {
    if k > 0 {
      var init := ts[..|ts| - 1];
      assert k > 1 ==> init[|init| - (k - 1)] == ts[|ts| - k];
      RecentCounts(init, now, window, k - 1);
    }
  }

  // ---- the counting argument ----

  /** Any hundred and one checked failures in a row span at least an hour. */
  ghost predicate HourlyLimit(ts: seq<int>) {
    forall i :: 0 <= i && i + GLOBAL_FAIL_LIMIT < |ts| ==> ts[i + GLOBAL_FAIL_LIMIT] - ts[i] >= GLOBAL_FAIL_WINDOW
  }

  lemma {:induction false} Spread(ts: seq<int>, i: nat, hours: nat)
    requires HourlyLimit(ts) && i + GLOBAL_FAIL_LIMIT * hours < |ts|
    ensures ts[i + GLOBAL_FAIL_LIMIT * hours] - ts[i] >= hours * GLOBAL_FAIL_WINDOW
  {
    if hours > 0 {
      Spread(ts, i, hours - 1);
      var j := i + GLOBAL_FAIL_LIMIT * (hours - 1);
      assert ts[j + GLOBAL_FAIL_LIMIT] - ts[j] >= GLOBAL_FAIL_WINDOW;
    }
  }

  ghost function IpsOf(fs: seq<Failure>): set<string> {
    set i | 0 <= i < |fs| :: fs[i].ip
  }

  lemma {:induction false} FewIps(fs: seq<Failure>)
    ensures |IpsOf(fs)| <= |fs|
  {
    if fs != [] {
      var init, last := fs[..|fs| - 1], fs[|fs| - 1];
      FewIps(init);
      assert fs == init + [last];
      forall ip | ip in IpsOf(fs) ensures ip in IpsOf(init) + {last.ip} {
        var i :| 0 <= i < |fs| && fs[i].ip == ip;
        if i < |init| {
          assert init[i].ip == ip;
        }
      }
      SubsetSize(IpsOf(fs), IpsOf(init) + {last.ip});
    }
  }

  lemma {:induction false} TimesAt(fs: seq<Failure>, i: nat)
    requires i < |fs|
    ensures Times(fs)[i] == fs[i].at
  {
    if i < |fs| - 1 {
      TimesAt(fs[..|fs| - 1], i);
    }
  }

  /** At most 2500 checked failures fall into a day and a moment. */
  lemma DayBound(ts: seq<int>, now: int, i: nat)
    requires Sorted(ts, now) && HourlyLimit(ts)
    requires i < |ts| && now - ts[i] <= LOCK_FORGET
    ensures |ts| - i <= 2500
  {
    if |ts| - i > 2500 {
      SpreadOverADay(ts, now, i);
    }
  }

  lemma SpreadOverADay(ts: seq<int>, now: int, i: nat)
    requires Sorted(ts, now) && HourlyLimit(ts) && i + 2500 < |ts|
    ensures now - ts[i] > LOCK_FORGET
  {
    Spread(ts, i, 25);
    assert ts[i + 2500] <= now;
  }

  ghost predicate FailedSince(fs: seq<Failure>, ip: string, now: int) {
    exists i :: 0 <= i < |fs| && fs[i].ip == ip && now - fs[i].at <= LOCK_FORGET
  }

  /** So no more IPs have failed in it. */
  lemma FewRecentIps(fs: seq<Failure>, now: int, ips: set<string>)
    requires Sorted(Times(fs), now) && HourlyLimit(Times(fs))
    requires forall ip :: ip in ips ==> FailedSince(fs, ip, now)
    ensures |ips| <= 2500
  {
    hide Sorted, HourlyLimit, Times, IpsOf;
    var tail := if |fs| > 2500 then fs[|fs| - 2500..] else fs;
    forall ip | ip in ips ensures ip in IpsOf(tail) {
      InTail(fs, now, ip);
    }
    FewIps(tail);
    SubsetSize(ips, IpsOf(tail));
  }

  lemma InTail(fs: seq<Failure>, now: int, ip: string)
    requires Sorted(Times(fs), now) && HourlyLimit(Times(fs)) && FailedSince(fs, ip, now)
    ensures ip in IpsOf(if |fs| > 2500 then fs[|fs| - 2500..] else fs)
  {
    hide Sorted, HourlyLimit, Times;
    var i :| 0 <= i < |fs| && fs[i].ip == ip && now - fs[i].at <= LOCK_FORGET;
    TimesAt(fs, i);
    DayBound(Times(fs), now, i);
    if |fs| > 2500 {
      assert fs[|fs| - 2500..][i - (|fs| - 2500)].ip == ip;
    }
  }

  // ---- what every run keeps ----

  ghost predicate RecordInv(r: IpRecord, ip: string, fs: seq<Failure>) {
    && (exists i :: 0 <= i < |fs| && fs[i] == Failure(ip, r.lastFail))
    && r.lockedUntil <= r.lastFail + IP_LOCK_MAX
    && (forall t :: t in r.fails ==> t <= r.lastFail)
    && |r.fails| < IP_FAIL_LIMIT
  }

  ghost predicate SameWindow(xs: seq<int>, ys: seq<int>, from: int, window: int) {
    forall later :: from <= later ==> Recent(xs, later, window) == Recent(ys, later, window)
  }

  ghost predicate TableInv(t: Table, fs: seq<Failure>, now: int) {
    && SameWindow(t.global, Times(fs), now, GLOBAL_FAIL_WINDOW)
    && (forall ip :: ip in t.ips ==> RecordInv(t.ips[ip], ip, fs))
    && |t.ips| <= 2500
  }

  ghost predicate HistoryInv(fs: seq<Failure>, now: int) {
    Sorted(Times(fs), now) && HourlyLimit(Times(fs))
  }

  ghost predicate Inv(s: State, events: seq<Event>) {
    var fs, now := Failures(events), LastAt(events);
    && HistoryInv(fs, now) && now >= 0
    && TableInv(s.mem, fs, now) && TableInv(s.disk, fs, now) && s.mem.ips == s.disk.ips
  }

  lemma {:induction false} PowAtLeastOne(n: int)
    ensures Pow2(n) >= 1
    decreases if n <= 0 then 0 else n
  {
    if n > 0 {
      PowAtLeastOne(n - 1);
    }
  }

  lemma LockRange(locks: int)
    ensures IP_LOCK_BASE <= LockFor(locks) <= IP_LOCK_MAX
  {
    PowAtLeastOne(Min(locks, 10));
  }

  /** A kept record failed within the last 24 hours. */
  lemma KeptIsRecent(r: IpRecord, ip: string, fs: seq<Failure>, now: int)
    requires RecordInv(r, ip, fs) && !Forgettable(r, now)
    ensures now - r.lastFail <= LOCK_FORGET
    ensures RecordInv(r.(fails := Recent(r.fails, now, IP_FAIL_WINDOW)), ip, fs)
    ensures FailedSince(fs, ip, now)
  {
    hide Recent;
    RecentMembers(r.fails, now, IP_FAIL_WINDOW);
    RecentShrinks(r.fails, now, IP_FAIL_WINDOW);
    var fails := Recent(r.fails, now, IP_FAIL_WINDOW);
    if fails != [] {
      var t := fails[0];
      assert t in fails;
      assert t in r.fails && now - t < IP_FAIL_WINDOW;
    }
    assert now - r.lastFail <= LOCK_FORGET;
    var i :| 0 <= i < |fs| && fs[i] == Failure(ip, r.lastFail);
    assert fs[i].ip == ip && now - fs[i].at <= LOCK_FORGET;
  }

  lemma {:induction false} RecentShrinks(ts: seq<int>, now: int, window: int)
    ensures |Recent(ts, now, window)| <= |ts|
  {
    if ts != [] {
      RecentShrinks(ts[..|ts| - 1], now, window);
    }
  }

  /** Pruning a table whose records are sound never gets to the eviction. */
  lemma EvictionIsUnreachable(ips: map<string, IpRecord>, fs: seq<Failure>, now: int, after: map<string, IpRecord>)
    requires HistoryInv(fs, now) && forall ip :: ip in ips ==> RecordInv(ips[ip], ip, fs)
    requires Pruned(ips, now, after)
    ensures |Kept(ips, now)| <= 2500 && after == Kept(ips, now)
    ensures forall ip :: ip in after ==> RecordInv(after[ip], ip, fs)
  {
    hide RecordInv, HistoryInv, FailedSince, Recent;
    var kept := Kept(ips, now);
    forall ip | ip in kept
      ensures RecordInv(kept[ip], ip, fs) && FailedSince(fs, ip, now)
    {
      KeptIsRecent(ips[ip], ip, fs, now);
    }
    HistoryIsLimited(fs, now);
    FewRecentIps(fs, now, kept.Keys);
    assert |kept| == |kept.Keys|;
  }

  lemma HistoryIsLimited(fs: seq<Failure>, now: int)
    requires HistoryInv(fs, now)
    ensures Sorted(Times(fs), now) && HourlyLimit(Times(fs))
  {
  }

  lemma WindowLater(xs: seq<int>, ys: seq<int>, from: int, now: int, window: int)
    requires SameWindow(xs, ys, from, window) && from <= now
    ensures SameWindow(Recent(xs, now, window), ys, now, window)
    ensures SameWindow(xs, ys, now, window)
    ensures Recent(xs, now, window) == Recent(ys, now, window)
  {
    hide Recent;
    forall later | now <= later ensures Recent(Recent(xs, now, window), later, window) == Recent(ys, later, window) {
      RecentTwice(xs, now, later, window);
    }
  }

  lemma WindowGrows(xs: seq<int>, ys: seq<int>, now: int, window: int)
    requires SameWindow(xs, ys, now, window)
    ensures SameWindow(xs + [now], ys + [now], now, window)
  {
    hide Recent;
    forall later | now <= later ensures Recent(xs + [now], later, window) == Recent(ys + [now], later, window) {
      RecentSnoc(xs, now, later, window);
      RecentSnoc(ys, now, later, window);
    }
  }

  lemma SortedLater(ts: seq<int>, until: int, now: int)
    requires Sorted(ts, until) && until <= now
    ensures Sorted(ts, now) && Sorted(ts + [now], now)
  {
  }

  /** A failure is checked only while fewer than 100 fell into the last hour, so the limit stands. */
  lemma LimitGrows(ts: seq<int>, now: int)
    requires Sorted(ts, now) && HourlyLimit(ts) && |Recent(ts, now, GLOBAL_FAIL_WINDOW)| < GLOBAL_FAIL_LIMIT
    ensures HourlyLimit(ts + [now])
  {
    hide Recent;
    var n := |ts|;
    if n >= GLOBAL_FAIL_LIMIT && now - ts[n - GLOBAL_FAIL_LIMIT] < GLOBAL_FAIL_WINDOW {
      RecentCounts(ts, now, GLOBAL_FAIL_WINDOW, GLOBAL_FAIL_LIMIT);
    }
  }

  lemma TimesSnoc(fs: seq<Failure>, f: Failure)
    ensures Times(fs + [f]) == Times(fs) + [f.at]
  {
    assert (fs + [f])[..|fs|] == fs;
  }

  lemma EventSnoc(events: seq<Event>, e: Event, ip: string)
    ensures LastAt(events + [e]) == if e.Attempt? then e.now else LastAt(events)
    ensures Failures(events + [e]) == if Failed(e) then Failures(events) + [Failure(e.ip, e.now)] else Failures(events)
    ensures FailuresOf(events + [e], ip) ==
            if Succeeded(e) && e.ip == ip then []
            else if Failed(e) && e.ip == ip then FailuresOf(events, ip) + [e.now] else FailuresOf(events, ip)
  {
    assert (events + [e])[..|events|] == events;
  }

  lemma TableLater(t: Table, fs: seq<Failure>, now: int, later: int)
    requires TableInv(t, fs, now) && now <= later
    ensures TableInv(t, fs, later)
    ensures TableInv(t.(global := Recent(t.global, later, GLOBAL_FAIL_WINDOW)), fs, later)
  {
    hide Recent, RecordInv, Times;
    WindowLater(t.global, Times(fs), now, later, GLOBAL_FAIL_WINDOW);
  }

  /** The record after a failure is sound for the longer history. */
  lemma FailureIsSound(r: IpRecord, ip: string, fs: seq<Failure>, now: int)
    requires r == NEW_RECORD || RecordInv(r, ip, fs)
    requires r.lastFail <= now && r.lockedUntil <= now
    ensures RecordInv(AfterFailure(r, now), ip, fs + [Failure(ip, now)])
  {
    hide Recent, LockFor, Times;
    LockRange(LocksNow(r, now));
    RecentMembers(r.fails, now, IP_FAIL_WINDOW);
    assert (fs + [Failure(ip, now)])[|fs|] == Failure(ip, now);
  }

  lemma RecordStaysSound(r: IpRecord, ip: string, fs: seq<Failure>, f: Failure)
    requires RecordInv(r, ip, fs)
    ensures RecordInv(r, ip, fs + [f])
  {
    var i :| 0 <= i < |fs| && fs[i] == Failure(ip, r.lastFail);
    assert (fs + [f])[i] == Failure(ip, r.lastFail);
  }

  lemma LastFailIsPast(r: IpRecord, ip: string, fs: seq<Failure>, now: int)
    requires RecordInv(r, ip, fs) && Sorted(Times(fs), now)
    ensures r.lastFail <= now
  {
    var i :| 0 <= i < |fs| && fs[i] == Failure(ip, r.lastFail);
    TimesAt(fs, i);
  }

  lemma FailureKeeps(s: State, events: seq<Event>, e: Event, s': State)
    requires Inv(s, events) && Failed(e) && LastAt(events) <= e.now && Step(s, e, s')
    ensures Inv(s', events + [e])
    ensures s'.mem.ips == Kept(s.mem.ips[e.ip := AfterFailure(RecordOf(s.mem.ips, e.ip), e.now)], e.now)
  {
    hide Recent, RecordInv, Times, SameWindow, Sorted, HourlyLimit, Kept, AfterFailure;
    var fs, now, ip := Failures(events), e.now, e.ip;
    var fs' := fs + [Failure(ip, now)];
    var r := RecordOf(s.mem.ips, ip);
    EventSnoc(events, e, ip);
    TimesSnoc(fs, Failure(ip, now));
    SortedLater(Times(fs), LastAt(events), now);
    WindowLater(s.mem.global, Times(fs), LastAt(events), now, GLOBAL_FAIL_WINDOW);
    LimitGrows(Times(fs), now);
    WindowGrows(Recent(s.mem.global, now, GLOBAL_FAIL_WINDOW), Times(fs), now, GLOBAL_FAIL_WINDOW);
    var ips := s.mem.ips[ip := AfterFailure(r, now)];
    forall x | x in ips ensures RecordInv(ips[x], x, fs') {
      if x == ip {
        if ip in s.mem.ips {
          LastFailIsPast(r, ip, fs, now);
        }
        FailureIsSound(r, ip, fs, now);
      } else {
        RecordStaysSound(s.mem.ips[x], x, fs, Failure(ip, now));
      }
    }
    EvictionIsUnreachable(ips, fs', now, s'.mem.ips);
  }

  lemma StepKeeps(s: State, events: seq<Event>, e: Event, s': State)
    requires Inv(s, events) && (e.Attempt? ==> LastAt(events) <= e.now) && Step(s, e, s')
    ensures Inv(s', events + [e])
  {
    hide Recent, RecordInv, Times, SameWindow, Sorted, HourlyLimit, Pruned, AfterFailure, TableInv;
    if Failed(e) {
      FailureKeeps(s, events, e, s');
    } else {
      var fs := Failures(events);
      EventSnoc(events, e, "");
      if e.Attempt? {
        HistoryLater(fs, LastAt(events), e.now);
        TableLater(s.mem, fs, LastAt(events), e.now);
        TableLater(s.disk, fs, LastAt(events), e.now);
        if Succeeded(e) {
          IpLeaves(s.mem.(global := Recent(s.mem.global, e.now, GLOBAL_FAIL_WINDOW)), fs, e.now, e.ip);
          assert e.ip !in s.mem.ips ==> s.mem.ips - {e.ip} == s.mem.ips;
        }
      }
    }
  }

  lemma HistoryLater(fs: seq<Failure>, now: int, later: int)
    requires HistoryInv(fs, now) && now <= later
    ensures HistoryInv(fs, later)
  {
    hide Times;
  }

  lemma IpLeaves(t: Table, fs: seq<Failure>, now: int, ip: string)
    requires TableInv(t, fs, now)
    ensures TableInv(t.(ips := t.ips - {ip}), fs, now)
  {
    hide RecordInv, Recent;
    SubsetSize((t.ips - {ip}).Keys, t.ips.Keys);
  }

  lemma {:induction false} RunKeeps(states: seq<State>, events: seq<Event>, n: nat)
    requires Run(states, events) && Clocked(events) && n <= |events|
    ensures Inv(states[n], events[..n])
  {
    hide Step, Inv;
    if n == 0 {
      StartIsSound();
    } else {
      RunKeeps(states, events, n - 1);
      assert events[..n] == events[..n - 1] + [events[n - 1]];
      StepKeeps(states[n - 1], events[..n - 1], events[n - 1], states[n]);
    }
  }

  lemma StartIsSound()
    ensures Inv(State(EMPTY, EMPTY), [])
  {
  }

  ghost predicate AllRecent(ips: map<string, IpRecord>, now: int) {
    forall ip :: ip in ips ==> now - ips[ip].lastFail <= LOCK_FORGET
  }

  /** In every run, over restarts: any half-open hour holds at most 100 checked failures, every IP on the
      table failed within the last 24 hours when it was last pruned, and the table stays far below the
      size at which records would be evicted. */
  lemma TableStaysSmall(states: seq<State>, events: seq<Event>, n: nat)
    requires Run(states, events) && Clocked(events) && n <= |events|
    ensures |states[n].mem.ips| <= 2500 && |states[n].disk.ips| <= 2500
    ensures HourlyLimit(Times(Failures(events[..n])))
    ensures n < |events| && Failed(events[n]) ==>
      var e := events[n];
      states[n + 1].mem.ips == Kept(states[n].mem.ips[e.ip := AfterFailure(RecordOf(states[n].mem.ips, e.ip), e.now)], e.now)
    ensures n < |events| && Failed(events[n]) ==> AllRecent(states[n + 1].mem.ips, events[n].now)
  {
    hide Recent, RecordInv, Times, SameWindow, Sorted, HourlyLimit, Pruned, AfterFailure;
    RunKeeps(states, events, n);
    if n < |events| && Failed(events[n]) {
      var e := events[n];
      FailureKeeps(states[n], events[..n], e, states[n + 1]);
      var ips := states[n].mem.ips[e.ip := AfterFailure(RecordOf(states[n].mem.ips, e.ip), e.now)];
      RunKeeps(states, events, n + 1);
      assert events[..n + 1] == events[..n] + [e];
      EventSnoc(events[..n], e, "");
      var after := states[n + 1].mem.ips;
      forall ip | ip in after ensures e.now - after[ip].lastFail <= LOCK_FORGET {
        NotForgettable(ips[ip], ip, Failures(events[..n + 1]), e.now);
      }
    }
  }

  lemma NotForgettable(r: IpRecord, ip: string, fs: seq<Failure>, now: int)
    requires RecordInv(r.(fails := Recent(r.fails, now, IP_FAIL_WINDOW)), ip, fs) && !Forgettable(r, now)
    ensures now - r.lastFail <= LOCK_FORGET
  {
    hide Recent;
    RecentMembers(r.fails, now, IP_FAIL_WINDOW);
    var fails := Recent(r.fails, now, IP_FAIL_WINDOW);
    if fails != [] {
      var t := fails[0];
      assert t in fails;
      assert now - t < IP_FAIL_WINDOW;
    }
  }

  // ---- a lock holds ----

  ghost predicate Locked(s: State, ip: string, until: int) {
    && ip in s.mem.ips && s.mem.ips[ip].lockedUntil == until
    && ip in s.disk.ips && s.disk.ips[ip].lockedUntil == until
  }

  lemma LockStays(s: State, events: seq<Event>, e: Event, s': State, ip: string, until: int)
    requires Inv(s, events) && (e.Attempt? ==> LastAt(events) <= e.now < until) && Step(s, e, s')
    requires Locked(s, ip, until)
    ensures Locked(s', ip, until)
    ensures e.Attempt? && e.ip == ip ==> e.res == Result(false, true, false, until, 0, false)
  {
    hide Recent, RecordInv, Times, SameWindow, Sorted, HourlyLimit, Pruned, AfterFailure, TableInv, HistoryInv;
    if Failed(e) {
      FailureKeeps(s, events, e, s');
      if e.ip != ip {
        KeepsLocked(s.mem.ips[e.ip := AfterFailure(RecordOf(s.mem.ips, e.ip), e.now)], e.now, ip);
      }
    }
  }

  lemma KeepsLocked(ips: map<string, IpRecord>, now: int, ip: string)
    requires ip in ips && now < ips[ip].lockedUntil
    ensures ip in Kept(ips, now) && Kept(ips, now)[ip].lockedUntil == ips[ip].lockedUntil
  {
    hide Recent;
  }

  /** A failure that reports a lock leaves the IP locked for that long. */
  lemma LockIsSet(s: State, events: seq<Event>, e: Event, s': State)
    requires Inv(s, events) && Failed(e) && LastAt(events) <= e.now && Step(s, e, s') && e.res.ipLock > 0
    ensures Locked(s', e.ip, e.now + e.res.ipLock)
    ensures e.res.ipLock == LockFor(LocksNow(RecordOf(s.mem.ips, e.ip), e.now))
  {
    hide Recent, RecordInv, Times, SameWindow, Sorted, HourlyLimit, Pruned, TableInv, HistoryInv, LockFor;
    FailureKeeps(s, events, e, s');
    KeepsLocked(s.mem.ips[e.ip := AfterFailure(RecordOf(s.mem.ips, e.ip), e.now)], e.now, e.ip);
  }

  lemma {:induction false} LockLasts(states: seq<State>, events: seq<Event>, i: nat, j: nat)
    requires Run(states, events) && Clocked(events) && i < j <= |events|
    requires Failed(events[i]) && events[i].res.ipLock > 0
    requires forall k :: i < k < j && events[k].Attempt? ==> events[k].now < events[i].now + events[i].res.ipLock
    ensures Locked(states[j], events[i].ip, events[i].now + events[i].res.ipLock)
    decreases j
  {
    hide Inv, Step, Locked;
    if j == i + 1 {
      RunKeeps(states, events, i);
      LockIsSet(states[i], events[..i], events[i], states[j]);
    } else {
      LockLasts(states, events, i, j - 1);
      RunKeeps(states, events, j - 1);
      LockStays(states[j - 1], events[..j - 1], events[j - 1], states[j], events[i].ip,
                events[i].now + events[i].res.ipLock);
    }
  }

  /** A lock once reported holds: until it is over every attempt of that IP is turned away unchecked, over
      restarts and whatever the other IPs do, and is told when to come back. */
  lemma LockBlocks(states: seq<State>, events: seq<Event>, i: nat, j: nat)
    requires Run(states, events) && Clocked(events) && i < j < |events|
    requires Failed(events[i]) && events[i].res.ipLock > 0
    requires events[j].Attempt? && events[j].ip == events[i].ip && events[j].now < events[i].now + events[i].res.ipLock
    ensures events[j].res == Result(false, true, false, events[i].now + events[i].res.ipLock, 0, false)
  {
    hide Inv, Step, Locked;
    forall k | i < k < j && events[k].Attempt? ensures events[k].now <= events[j].now {
      ClockOrder(events, k, j);
    }
    LockLasts(states, events, i, j);
    RunKeeps(states, events, j);
    LockStays(states[j], events[..j], events[j], states[j + 1], events[i].ip, events[i].now + events[i].res.ipLock);
  }

  lemma {:induction false} ClockOrder(events: seq<Event>, k: nat, j: nat)
    requires Clocked(events) && k < j < |events| && events[k].Attempt? && events[j].Attempt?
    ensures events[k].now <= events[j].now
  {
    LastIsLatest(events, k, j);
  }

  lemma {:induction false} LastIsLatest(events: seq<Event>, k: nat, j: nat)
    requires Clocked(events) && k < j <= |events| && events[k].Attempt?
    ensures events[k].now <= LastAt(events[..j])
  {
    var head := events[..j];
    assert head[..j - 1] == events[..j - 1];
    if k < j - 1 {
      LastIsLatest(events, k, j - 1);
    }
  }

  // ---- the limit of one IP ----

  /** Any six checked failures in a row span at least 15 minutes. */
  ghost predicate IpLimit(ts: seq<int>) {
    forall i :: 0 <= i && i + IP_FAIL_LIMIT < |ts| ==> ts[i + IP_FAIL_LIMIT] - ts[i] >= IP_FAIL_WINDOW
  }

  /** What the table knows of the failures ts of ip: all that can count once it is not locked any more. */
  ghost predicate Knows(ips: map<string, IpRecord>, ip: string, ts: seq<int>, now: int) {
    if ip in ips then
      SameWindow(ips[ip].fails, ts, if now < ips[ip].lockedUntil then ips[ip].lockedUntil else now, IP_FAIL_WINDOW)
    else SameWindow([], ts, now, IP_FAIL_WINDOW)
  }

  ghost predicate IpInv(s: State, events: seq<Event>, ip: string) {
    var ts, now := FailuresOf(events, ip), LastAt(events);
    Sorted(ts, now) && IpLimit(ts) && Knows(s.mem.ips, ip, ts, now)
  }

  lemma {:induction false} OldTimes(ts: seq<int>, now: int, later: int)
    requires Sorted(ts, now) && later >= now + IP_FAIL_WINDOW
    ensures Recent(ts, later, IP_FAIL_WINDOW) == []
  {
    if ts != [] {
      OldTimes(ts[..|ts| - 1], now, later);
    }
  }

  lemma IpLimitGrows(ts: seq<int>, now: int)
    requires Sorted(ts, now) && IpLimit(ts) && |Recent(ts, now, IP_FAIL_WINDOW)| < IP_FAIL_LIMIT
    ensures IpLimit(ts + [now])
  {
    hide Recent;
    var n := |ts|;
    if n >= IP_FAIL_LIMIT && now - ts[n - IP_FAIL_LIMIT] < IP_FAIL_WINDOW {
      RecentCounts(ts, now, IP_FAIL_WINDOW, IP_FAIL_LIMIT);
    }
  }

  /** A record knows the failures after one more, whether it locks the IP or not. */
  lemma KnowsOneMore(r: IpRecord, ts: seq<int>, now: int)
    requires Sorted(ts, now) && SameWindow(r.fails, ts, now, IP_FAIL_WINDOW) && r.lockedUntil <= now
    ensures var q := AfterFailure(r, now);
            SameWindow(q.fails, ts + [now], if now < q.lockedUntil then q.lockedUntil else now, IP_FAIL_WINDOW)
  {
    hide Recent, LockFor;
    var q := AfterFailure(r, now);
    if |Recent(r.fails, now, IP_FAIL_WINDOW)| + 1 >= IP_FAIL_LIMIT {
      LockRange(LocksNow(r, now));
      SortedLater(ts, now, now);
      forall later | q.lockedUntil <= later ensures Recent([], later, IP_FAIL_WINDOW) == Recent(ts + [now], later, IP_FAIL_WINDOW) {
        OldTimes(ts + [now], now, later);
        NothingRecent(later);
      }
    } else {
      WindowLater(r.fails, ts, now, now, IP_FAIL_WINDOW);
      WindowGrows(Recent(r.fails, now, IP_FAIL_WINDOW), ts, now, IP_FAIL_WINDOW);
    }
  }

  lemma NothingRecent(now: int)
    ensures Recent([], now, IP_FAIL_WINDOW) == []
  {
  }

  /** Pruning forgets nothing that counts. */
  lemma PruningKnows(ips: map<string, IpRecord>, ip: string, ts: seq<int>, now: int)
    requires Knows(ips, ip, ts, now)
    ensures Knows(Kept(ips, now), ip, ts, now)
  {
    hide Recent;
    if ip in ips {
      var r := ips[ip];
      if Forgettable(r, now) {
        WindowLater(r.fails, ts, now, now, IP_FAIL_WINDOW);
      } else {
        var from := if now < r.lockedUntil then r.lockedUntil else now;
        forall later | from <= later
          ensures Recent(Recent(r.fails, now, IP_FAIL_WINDOW), later, IP_FAIL_WINDOW) == Recent(ts, later, IP_FAIL_WINDOW)
        {
          RecentTwice(r.fails, now, later, IP_FAIL_WINDOW);
        }
      }
    }
  }

  lemma KnowsLater(ips: map<string, IpRecord>, ip: string, ts: seq<int>, now: int, later: int)
    requires Knows(ips, ip, ts, now) && now <= later
    ensures Knows(ips, ip, ts, later)
  {
    hide Recent;
  }

  lemma IpStepKeeps(s: State, events: seq<Event>, e: Event, s': State, ip: string)
    requires Inv(s, events) && IpInv(s, events, ip)
    requires (e.Attempt? ==> LastAt(events) <= e.now) && Step(s, e, s')
    ensures IpInv(s', events + [e], ip)
  {
    hide Recent, RecordInv, Times, SameWindow, Sorted, HourlyLimit, Pruned, AfterFailure, TableInv, HistoryInv, Knows, IpLimit, Kept;
    var ts := FailuresOf(events, ip);
    EventSnoc(events, e, ip);
    if e.Attempt? {
      SortedLater(ts, LastAt(events), e.now);
      KnowsLater(s.mem.ips, ip, ts, LastAt(events), e.now);
    }
    if Failed(e) {
      FailureKeeps(s, events, e, s');
      var r := RecordOf(s.mem.ips, e.ip);
      var ips := s.mem.ips[e.ip := AfterFailure(r, e.now)];
      if e.ip == ip {
        FewFails(s, events, ip);
        OneMoreFailure(s, ip, ts, e.now);
        PruningKnows(ips, ip, ts + [e.now], e.now);
      } else {
        OtherIp(s.mem.ips, ip, e.ip, AfterFailure(r, e.now), ts, e.now);
        PruningKnows(ips, ip, ts, e.now);
      }
    } else if Succeeded(e) {
      IpGone(s.mem.ips, ip, e.ip, ts, e.now);
    }
  }

  lemma FewFails(s: State, events: seq<Event>, ip: string)
    requires Inv(s, events)
    ensures |RecordOf(s.mem.ips, ip).fails| < IP_FAIL_LIMIT
  {
    hide SameWindow, HistoryInv, Recent;
  }

  lemma OneMoreFailure(s: State, ip: string, ts: seq<int>, now: int)
    requires Sorted(ts, now) && IpLimit(ts) && Knows(s.mem.ips, ip, ts, now)
    requires RecordOf(s.mem.ips, ip).lockedUntil <= now && |RecordOf(s.mem.ips, ip).fails| < IP_FAIL_LIMIT
    ensures IpLimit(ts + [now])
    ensures Knows(s.mem.ips[ip := AfterFailure(RecordOf(s.mem.ips, ip), now)], ip, ts + [now], now)
  {
    hide Recent, Sorted, IpLimit, AfterFailure, SameWindow;
    var r := RecordOf(s.mem.ips, ip);
    assert SameWindow(r.fails, ts, now, IP_FAIL_WINDOW);
    WindowLater(r.fails, ts, now, now, IP_FAIL_WINDOW);
    RecentShrinks(r.fails, now, IP_FAIL_WINDOW);
    IpLimitGrows(ts, now);
    KnowsOneMore(r, ts, now);
  }

  lemma OtherIp(ips: map<string, IpRecord>, ip: string, other: string, r: IpRecord, ts: seq<int>, now: int)
    requires ip != other && Knows(ips, ip, ts, now)
    ensures Knows(ips[other := r], ip, ts, now)
  {
    hide Recent, SameWindow;
  }

  lemma IpGone(ips: map<string, IpRecord>, ip: string, gone: string, ts: seq<int>, now: int)
    requires Knows(ips, ip, ts, now) && Sorted(ts, now) && IpLimit(ts)
    ensures Knows(ips - {gone}, ip, if ip == gone then [] else ts, now)
    ensures Sorted([], now) && IpLimit([])
  {
    hide Recent;
  }

  lemma {:induction false} IpRunKeeps(states: seq<State>, events: seq<Event>, n: nat, ip: string)
    requires Run(states, events) && Clocked(events) && n <= |events|
    ensures IpInv(states[n], events[..n], ip)
  {
    hide Step, Inv, IpInv;
    if n == 0 {
      IpStarts(ip);
    } else {
      RunKeeps(states, events, n - 1);
      IpRunKeeps(states, events, n - 1, ip);
      assert events[..n] == events[..n - 1] + [events[n - 1]];
      IpStepKeeps(states[n - 1], events[..n - 1], events[n - 1], states[n], ip);
    }
  }

  lemma IpStarts(ip: string)
    ensures IpInv(State(EMPTY, EMPTY), [], ip)
  {
  }

  /** One IP gets at most five checked failures in any half-open 15 minutes, unless it logs in in between. */
  lemma FivePerIp(states: seq<State>, events: seq<Event>, n: nat, ip: string)
    requires Run(states, events) && Clocked(events) && n <= |events|
    ensures IpLimit(FailuresOf(events[..n], ip))
  {
    IpRunKeeps(states, events, n, ip);
  }
}
