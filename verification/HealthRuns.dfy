/** Concurrent checks, dials, stalled sessions, pool edits and worker changes in any interleaving: what a healthy
    address and a failback rest on. */
module HealthRuns {
  import opened Basics
  import opened AddressChoice
  import opened PoolHealth

  /** A pool change that is in state.json, but not yet in the health. */
  datatype Due = Nothing | EditDue(was: Conf, next: Conf) | ForgetDue(id: string)

  /** confs: the configured pools; worker: the test worker in the settings; flights: the checks under way, by the
      number of the event that asked for them. */
  datatype World = World(h: Health, confs: map<string, Conf>, active: string, worker: string, due: Due,
                         flights: map<int, Check>, tick: int)

  /** Checks, dials and sessions carry the pool as it was when they began. */
  datatype Event =
    | Ask(p: Conf, a: string)
    | Answer(ticket: int, ok: bool, rtt: int, live: bool, now: int)
    | Dial(p: Conf, a: string, ok: bool)
    | Session(p: Conf, a: string, stalled: bool)
    | Put(next: Conf)
    | Remove(id: string)
    | Switch(id: string)
    | Settle
    | SetWorker(worker: string)
    | Listen

  predicate StillHas(w: World, p: Conf, a: string) {
    p.id in w.confs && w.confs[p.id].login == p.login && a in w.confs[p.id].addrs
  }

  predicate Accepts(w: World, c: Check, live: bool) {
    live && StillHas(w, c.p, c.a) && w.worker == c.worker && Version(w.h, c.p.id) == c.version
  }

  /** What the manager's lock allows: while a change is being applied, only dials and worker changes happen. */
  predicate Legal(w: World, e: Event) {
    match e
    case Ask(p, a) => w.due.Nothing? && a in p.addrs
    case Answer(ticket, _, _, _, now) => w.due.Nothing? && ticket in w.flights && now > 0
    case Dial(p, a, _) => a in p.addrs
    case Session(p, a, _) => w.due.Nothing? && a in p.addrs
    case Put(_) => w.due.Nothing?
    case Remove(id) => w.due.Nothing? && id in w.confs && id != w.active
    case Switch(id) => w.due.Nothing? && id in w.confs
    case Settle => !w.due.Nothing?
    case SetWorker(_) => true
    case Listen => true
  }

  function Settled(h: Health, due: Due): Health {
    match due
    case Nothing => h
    case EditDue(was, next) => Edited(h, was, next)
    case ForgetDue(id) => Forgotten(h, id)
  }

  /** Every pool of the snapshot has another version from now on. */
  function Invalidated(h: Health, confs: map<string, Conf>): map<string, int> {
    map id | id in h.versions.Keys + confs.Keys :: Version(h, id) + if id in confs then 1 else 0
  }

  function Next(w: World, e: Event): World {
    var w1 := match e
              case Ask(p, a) => w.(flights := w.flights[w.tick := Check(p, a, w.worker, Version(w.h, p.id))])
              case Answer(ticket, ok, rtt, live, now) =>
                if ticket !in w.flights then w else
                var c := w.flights[ticket];
                w.(flights := w.flights - {ticket},
                h := if Accepts(w, c, live) then Checked(w.h, c.p, c.a, ok, rtt, now) else w.h)
              case Dial(p, a, ok) => w.(h := Dialed(w.h, p, a, ok))
              case Session(p, a, stalled) => if stalled && StillHas(w, p, a) then w.(h := Stalled(w.h, p, a)) else w
              case Put(next) =>
                if next.id in w.confs then
                  var was := w.confs[next.id];
                  w.(confs := w.confs[next.id := next], due := if was == next then Nothing else EditDue(was, next))
                else w.(confs := w.confs[next.id := next], active := if w.active == "" then next.id else w.active)
              case Remove(id) => w.(confs := w.confs - {id}, due := ForgetDue(id))
              case Switch(id) => w.(active := id, due := ForgetDue(id))
              case Settle => w.(h := Settled(w.h, w.due), due := Nothing)
              case SetWorker(worker) => w.(worker := worker)
              case Listen =>
                if w.worker == w.h.testWorker then w
                else w.(h := Health(map[], map[], Invalidated(w.h, w.confs), w.worker));
    w1.(tick := w.tick + 1)
  }

  /** The listener, going through the pools of the snapshot in any order, does what Next says. */
  lemma ListenIs(w: World, ids: seq<string>)
    requires forall id :: id in ids <==> id in w.confs
    requires forall i, j :: 0 <= i < j < |ids| ==> ids[i] != ids[j]
    ensures var h, v := WorkerChanged(w.h, w.worker, ids), Next(w, Listen).h;
            && h.addrs == v.addrs && h.pools == v.pools && h.testWorker == v.testWorker
            && forall id :: Version(h, id) == Version(v, id)
  {
    if w.worker != w.h.testWorker {
      forall id ensures Version(WorkerChanged(w.h, w.worker, ids), id) == Version(Next(w, Listen).h, id) {
        BumpedOnce(w.h.versions, ids, id);
      }
    }
  }

  lemma {:induction false} BumpedOnce(versions: map<string, int>, ids: seq<string>, id: string)
    requires forall i, j :: 0 <= i < j < |ids| ==> ids[i] != ids[j]
    ensures var after := AllBumped(versions, ids);
            && (id in after <==> id in versions || id in ids)
            && (id in after ==> after[id] == (if id in versions then versions[id] else 0) + if id in ids then 1 else 0)
  {
    if ids != [] {
      BumpedOnce(versions, ids[..|ids| - 1], id);
      assert ids == ids[..|ids| - 1] + [ids[|ids| - 1]];
    }
  }

  // ---- what an event is for one address ----

  predicate AcceptedCheck(w: World, e: Event, k: Key) {
    && e.Answer? && e.ticket in w.flights
    && var c := w.flights[e.ticket]; Accepts(w, c, e.live) && KeyOf(c.p.id, c.a) == k
  }

  predicate GoodCheck(w: World, e: Event, k: Key) {
    AcceptedCheck(w, e, k) && e.ok
  }

  predicate FailedCheck(w: World, e: Event, k: Key) {
    AcceptedCheck(w, e, k) && !e.ok
  }

  /** The third failed session dial in a row, which marks the address DOWN. */
  predicate Verdict(w: World, e: Event, k: Key) {
    e.Dial? && KeyOf(e.p.id, e.a) == k && !e.ok && DialVerdict(Entry(w.h.addrs, k))
  }

  predicate Timeout(w: World, e: Event, k: Key) {
    e.Session? && e.stalled && StillHas(w, e.p, e.a) && KeyOf(e.p.id, e.a) == k
  }

  /** The health of the address is forgotten. */
  predicate Dropped(w: World, e: Event, k: Key) {
    k in w.h.addrs && k !in Next(w, e).h.addrs
  }

  predicate Breaks(w: World, e: Event, k: Key) {
    FailedCheck(w, e, k) || Verdict(w, e, k) || Timeout(w, e, k) || Dropped(w, e, k)
  }

  predicate DialOn(e: Event, k: Key) {
    e.Dial? && KeyOf(e.p.id, e.a) == k
  }

  lemma EntryAfter(w: World, e: Event, k: Key)
    requires Legal(w, e)
    ensures Entry(Next(w, e).h.addrs, k) ==
            var h := Entry(w.h.addrs, k);
            if AcceptedCheck(w, e, k) then AfterCheck(h, e.ok, e.rtt, e.now)
            else if DialOn(e, k) then AfterDial(h, e.ok)
            else if Timeout(w, e, k) then AfterStall(h)
            else if Dropped(w, e, k) then FRESH else h
  {
    hide AfterCheck, AfterDial, AfterStall, KeysOf, KeyOf, Choose, StatusOf, EarliestUp;
  }

  lemma VersionAfter(w: World, e: Event, id: string)
    requires Legal(w, e)
    ensures Version(Next(w, e).h, id) >= Version(w.h, id)
    ensures forall k :: Timeout(w, e, k) && k.pool == id ==> Version(Next(w, e).h, id) > Version(w.h, id)
  {
    hide AfterCheck, AfterDial, AfterStall, KeysOf, Choose, StatusOf, EarliestUp, Lower;
  }

  // ---- runs ----

  function Play(w: World, events: seq<Event>): World {
    if events == [] then w else Next(Play(w, events[..|events| - 1]), events[|events| - 1])
  }

  function At(w: World, events: seq<Event>, n: int): World
    requires 0 <= n <= |events|
  {
    Play(w, events[..n])
  }

  ghost predicate Begins(w: World) {
    && w.h.addrs == map[] && w.h.pools == map[] && w.due.Nothing? && w.flights == map[] && w.tick == 0
    && forall id :: id in w.confs ==> w.confs[id].id == id
  }

  ghost predicate Run(w: World, events: seq<Event>) {
    Begins(w) && forall n {:trigger events[n]} :: 0 <= n < |events| ==> Legal(At(w, events, n), events[n])
  }

  lemma AtPrefix(w: World, events: seq<Event>, m: int, n: int)
    requires 0 <= n <= m <= |events|
    ensures At(w, events[..m], n) == At(w, events, n)
  {
    assert events[..m][..n] == events[..n];
  }

  lemma RunPrefix(w: World, events: seq<Event>, m: int)
    requires Run(w, events) && 0 <= m <= |events|
    ensures Run(w, events[..m])
  {
    hide Legal, Begins;
    forall n | 0 <= n < m ensures Legal(At(w, events[..m], n), events[..m][n]) {
      AtPrefix(w, events, m, n);
      assert Legal(At(w, events, n), events[n]);
    }
  }

  /** The good checks of k in a row, by the numbers of their events. */
  function OkRun(w: World, events: seq<Event>, k: Key): seq<int> {
    if events == [] then [] else
      var n := |events| - 1;
      var v, before := Play(w, events[..n]), OkRun(w, events[..n], k);
      if GoodCheck(v, events[n], k) then before + [n] else if Breaks(v, events[n], k) then [] else before
  }

  /** The event that began the healthy run of k, -1 while it is broken. */
  function UpFrom(w: World, events: seq<Event>, k: Key): int {
    if events == [] then -1 else
      var n := |events| - 1;
      var v := Play(w, events[..n]);
      if Breaks(v, events[n], k) then -1
      else if GoodCheck(v, events[n], k) && Rises(Entry(v.h.addrs, k)) then n else UpFrom(w, events[..n], k)
  }

  predicate Rises(h: AddrHealth) {
    h.probeOKs + 1 >= PROBE_OKS_TO_UP && (h.status != Up || h.upSince == 0)
  }

  /** The last job timeout of k, -1 without one. */
  function LastTimeout(w: World, events: seq<Event>, k: Key): int {
    if events == [] then -1 else
      var n := |events| - 1;
      if Timeout(Play(w, events[..n]), events[n], k) then n else LastTimeout(w, events[..n], k)
  }

  // ---- the invariant of one address ----

  ghost predicate FlightsInv(w: World, events: seq<Event>, k: Key, last: int) {
    && w.tick == |events| && -1 <= last < |events|
    && forall t :: t in w.flights ==>
         && 0 <= t < |events| && events[t] == Ask(w.flights[t].p, w.flights[t].a)
         && (w.flights[t].p.id == k.pool ==>
               w.flights[t].version <= Version(w.h, k.pool) && (w.flights[t].version == Version(w.h, k.pool) ==> t > last))
  }

  ghost predicate RunInv(w: World, events: seq<Event>, k: Key, last: int, run: seq<int>, from: int) {
    var h := Entry(w.h.addrs, k);
    && |run| == h.probeOKs
    && (forall i :: 0 <= i < |run| ==> Fresh(events, run[i], last))
    && -1 <= from < |events|
    && (from >= 0 <==> h.upSince != 0)
    && (from >= 0 ==> h.status == Up && events[from].Answer? && events[from].now == h.upSince)
  }

  /** The check that event n reports was asked for after event last. */
  predicate Fresh(events: seq<Event>, n: int, last: int) {
    && 0 <= n < |events| && events[n].Answer? && 0 <= events[n].ticket < n && last < events[n].ticket
    && events[events[n].ticket].Ask?
  }

  lemma FlightsKeep(w: World, events: seq<Event>, e: Event, k: Key, last: int)
    requires FlightsInv(w, events, k, last) && Legal(w, e)
    ensures FlightsInv(Next(w, e), events + [e], k, if Timeout(w, e, k) then |events| else last)
  {
    hide Version, Checked, Dialed, Stalled, Settled, Invalidated, Lower, Accepts;
    VersionAfter(w, e, k.pool);
    assert forall t :: 0 <= t < |events| ==> (events + [e])[t] == events[t];
  }

  lemma CheckIsFresh(w: World, events: seq<Event>, e: Event, k: Key, last: int)
    requires FlightsInv(w, events, k, last) && AcceptedCheck(w, e, k)
    ensures Fresh(events + [e], |events|, last)
  {
    hide Version, Lower;
    assert forall t :: 0 <= t < |events| ==> (events + [e])[t] == events[t];
  }

  function RunAfter(w: World, e: Event, k: Key, n: int, run: seq<int>): seq<int> {
    if GoodCheck(w, e, k) then run + [n] else if Breaks(w, e, k) then [] else run
  }

  function FromAfter(w: World, e: Event, k: Key, n: int, from: int): int {
    if Breaks(w, e, k) then -1 else if GoodCheck(w, e, k) && Rises(Entry(w.h.addrs, k)) then n else from
  }

  lemma DroppedIsFresh(w: World, e: Event, k: Key)
    ensures Dropped(w, e, k) ==> Entry(Next(w, e).h.addrs, k) == FRESH
  {
    hide Next;
  }

  lemma EntryKeeps(w: World, events: seq<Event>, e: Event, k: Key, last: int, run: seq<int>, from: int)
    requires FlightsInv(w, events, k, last) && RunInv(w, events, k, last, run, from) && Legal(w, e)
    ensures RunInv(Next(w, e), events + [e], k, if Timeout(w, e, k) then |events| else last,
                   RunAfter(w, e, k, |events|, run), FromAfter(w, e, k, |events|, from))
  {
    hide FlightsInv, Next, AcceptedCheck, Timeout, StillHas, Median, Sampled, KeyOf, Entry;
    EntryAfter(w, e, k);
    var all := events + [e];
    assert forall t :: 0 <= t < |events| ==> all[t] == events[t];
    DroppedIsFresh(w, e, k);
    Exclusive(w, e, k);
    if AcceptedCheck(w, e, k) {
      CheckIsFresh(w, events, e, k, last);
    }
  }

  /** An event is at most one of a check, a dial and a timeout of k, and only other events drop it. */
  lemma Exclusive(w: World, e: Event, k: Key)
    requires Legal(w, e)
    ensures Dropped(w, e, k) ==> !AcceptedCheck(w, e, k) && !DialOn(e, k) && !Timeout(w, e, k)
    ensures AcceptedCheck(w, e, k) ==> e.Answer? && e.now > 0
    ensures Timeout(w, e, k) ==> e.Session?
  {
    hide AfterCheck, AfterDial, AfterStall, KeysOf, Choose, StatusOf, EarliestUp, Lower, Version;
  }

  lemma {:induction false} Invariant(w: World, events: seq<Event>, k: Key)
    requires Run(w, events)
    ensures FlightsInv(Play(w, events), events, k, LastTimeout(w, events, k))
    ensures RunInv(Play(w, events), events, k, LastTimeout(w, events, k), OkRun(w, events, k), UpFrom(w, events, k))
  {
    if events == [] {
    } else {
      hide FlightsInv, RunInv, Next, Legal, Timeout, GoodCheck, Breaks, Rises, Begins;
      var n := |events| - 1;
      var init, e := events[..n], events[n];
      RunPrefix(w, events, n);
      Invariant(w, init, k);
      assert Legal(At(w, events, n), e);
      FlightsKeep(Play(w, init), init, e, k, LastTimeout(w, init, k));
      EntryKeeps(Play(w, init), init, e, k, LastTimeout(w, init, k), OkRun(w, init, k), UpFrom(w, init, k));
      assert init + [e] == events;
    }
  }

  /** In every run the latency of an address is the median of its last, at most five, connect times, and it counts
      as measured exactly when it has one. */
  lemma {:induction false} AlwaysMeasured(w: World, events: seq<Event>, k: Key)
    requires Run(w, events)
    ensures var h := Entry(Play(w, events).h.addrs, k); SamplesOk(h) && (h.rtt > 0 <==> h.samples != [])
  {
    if events != [] {
      hide Next, Legal, Begins, AcceptedCheck, DialOn, Timeout, Dropped, Entry, Median, Sampled;
      var n := |events| - 1;
      RunPrefix(w, events, n);
      AlwaysMeasured(w, events[..n], k);
      var v, e := Play(w, events[..n]), events[n];
      assert Legal(At(w, events, n), e);
      EntryAfter(v, e, k);
      Exclusive(v, e, k);
      var h := Entry(v.h.addrs, k);
      MeasuredBySamples(h, if AcceptedCheck(v, e, k) then e.rtt else 0);
      assert Play(w, events) == Next(v, e);
      hide Play;
      MeasuredBySamples(Entry(Next(v, e).h.addrs, k), 0);
    }
  }

  // ---- what the run of good checks and the healthy run mean ----

  /** Nothing touched the run of k between two of its events: neither a check, nor a verdict, nor a timeout. */
  ghost predicate Untouched(w: World, events: seq<Event>, k: Key, i: int, j: int)
    requires 0 <= i && j <= |events|
  {
    forall x :: i < x < j ==> !AcceptedCheck(At(w, events, x), events[x], k) && !Breaks(At(w, events, x), events[x], k)
  }

  lemma UntouchedPrefix(w: World, events: seq<Event>, k: Key, i: int, j: int, m: int)
    requires 0 <= i && j <= m && 0 <= m <= |events| && Untouched(w, events[..m], k, i, j)
    ensures Untouched(w, events, k, i, j)
  {
    forall x | i < x < j ensures !AcceptedCheck(At(w, events, x), events[x], k) && !Breaks(At(w, events, x), events[x], k) {
      AtPrefix(w, events, m, x);
      assert events[..m][x] == events[x];
    }
  }

  /** A check is good or breaks the run. */
  lemma ChecksBreak(w: World, e: Event, k: Key)
    ensures AcceptedCheck(w, e, k) ==> GoodCheck(w, e, k) || Breaks(w, e, k)
  {
    hide AcceptedCheck;
  }

  lemma UntouchedSnoc(w: World, events: seq<Event>, k: Key, i: int, n: int)
    requires 0 <= i && n == |events| - 1 && 0 <= n && Untouched(w, events, k, i, n)
    requires !AcceptedCheck(At(w, events, n), events[n], k) && !Breaks(At(w, events, n), events[n], k)
    ensures Untouched(w, events, k, i, |events|)
  {
    hide AcceptedCheck, Breaks, At;
  }

  lemma UntouchedLast(w: World, events: seq<Event>, k: Key)
    requires events != []
    ensures Untouched(w, events, k, |events| - 1, |events|)
  {
  }

  /** The last good check in the run really was one, and nothing touched the run since. */
  lemma {:induction false} LastOk(w: World, events: seq<Event>, k: Key)
    requires OkRun(w, events, k) != []
    ensures var run := OkRun(w, events, k); var i := run[|run| - 1];
            && 0 <= i < |events| && GoodCheck(At(w, events, i), events[i], k) && Untouched(w, events, k, i, |events|)
  {
    hide GoodCheck, Breaks, AcceptedCheck, Untouched, Play;
    var n := |events| - 1;
    var v, init := Play(w, events[..n]), events[..n];
    if GoodCheck(v, events[n], k) {
      UntouchedLast(w, events, k);
    } else {
      assert !Breaks(v, events[n], k);
      ChecksBreak(v, events[n], k);
      LastOk(w, init, k);
      var run := OkRun(w, init, k);
      var i := run[|run| - 1];
      AtPrefix(w, events, n, i);
      UntouchedPrefix(w, events, k, i, n, n);
      UntouchedSnoc(w, events, k, i, n);
    }
  }

  /** The event that began the healthy run was a good check, and nothing broke the run since. */
  lemma {:induction false} HealthySince(w: World, events: seq<Event>, k: Key)
    requires UpFrom(w, events, k) >= 0
    ensures var u := UpFrom(w, events, k);
            && u < |events| && GoodCheck(At(w, events, u), events[u], k) && Rises(Entry(At(w, events, u).h.addrs, k))
            && forall x :: u < x < |events| ==> !Breaks(At(w, events, x), events[x], k)
  {
    hide GoodCheck, Breaks, Rises;
    var n := |events| - 1;
    var v, init := Play(w, events[..n]), events[..n];
    if !(GoodCheck(v, events[n], k) && Rises(Entry(v.h.addrs, k))) {
      HealthySince(w, init, k);
      var u := UpFrom(w, init, k);
      AtPrefix(w, events, n, u);
      forall x | u < x < |events| ensures !Breaks(At(w, events, x), events[x], k) {
        if x < n {
          AtPrefix(w, events, n, x);
          assert init[x] == events[x];
        }
      }
    }
  }

  /** Two good checks of k in a row, reported by events i and j. */
  ghost predicate TwoGood(w: World, events: seq<Event>, k: Key, i: int, j: int) {
    && 0 <= i < j < |events|
    && GoodCheck(At(w, events, i), events[i], k) && GoodCheck(At(w, events, j), events[j], k)
    && Untouched(w, events, k, i, j)
  }

  /** Both checks were asked for after event t. */
  predicate AskedAfter(events: seq<Event>, t: int, i: int, j: int) {
    && 0 <= i < |events| && 0 <= j < |events| && events[i].Answer? && events[j].Answer?
    && t < events[i].ticket < i && t < events[j].ticket < j
  }

  lemma GoodIsCheck(w: World, e: Event, k: Key)
    requires GoodCheck(w, e, k)
    ensures AcceptedCheck(w, e, k)
  {
  }

  /** A good check that raises the address follows another one. */
  lemma RaisedByTwo(w: World, events: seq<Event>, k: Key, j: int)
    requires Run(w, events) && 0 <= j < |events|
    requires GoodCheck(At(w, events, j), events[j], k) && Entry(At(w, events, j).h.addrs, k).probeOKs >= 1
    ensures exists i :: TwoGood(w, events, k, i, j) && AskedAfter(events, LastTimeout(w, events[..j], k), i, j)
  {
    hide GoodCheck, AcceptedCheck, Breaks, FlightsInv, Next, Legal, Begins, Untouched, OkRun, LastTimeout, Entry;
    var init := events[..j];
    var last := LastTimeout(w, init, k);
    RunPrefix(w, events, j);
    Invariant(w, init, k);
    var run := OkRun(w, init, k);
    assert |run| >= 1;
    LastOk(w, init, k);
    var i := run[|run| - 1];
    assert Fresh(init, i, last);
    AtPrefix(w, events, j, i);
    UntouchedPrefix(w, events, k, i, j, j);
    GoodIsCheck(Play(w, init), events[j], k);
    CheckIsFresh(Play(w, init), init, events[j], k, last);
    assert Fresh(init + [events[j]], j, last);
    assert TwoGood(w, events, k, i, j) && AskedAfter(events, last, i, j);
  }

  // ---- stale checks never heal ----

  lemma {:induction false} TimeoutIsBefore(w: World, events: seq<Event>, k: Key, t: int)
    requires 0 <= t < |events| && Timeout(At(w, events, t), events[t], k)
    ensures t <= LastTimeout(w, events, k)
  {
    hide Timeout, Next;
    var n := |events| - 1;
    if !Timeout(Play(w, events[..n]), events[n], k) {
      assert t < n by { assert At(w, events, n) == Play(w, events[..n]); }
      AtPrefix(w, events, n, t);
      TimeoutIsBefore(w, events[..n], k, t);
    }
  }

  ghost predicate AfterTimeouts(w: World, events: seq<Event>, k: Key, i: int, j: int)
    requires 0 <= j < |events|
  {
    forall t :: 0 <= t < j && Timeout(At(w, events, t), events[t], k) ==> AskedAfter(events, t, i, j)
  }

  lemma RaisedByGood(w: World, e: Event, k: Key)
    requires Legal(w, e) && Entry(w.h.addrs, k).status != Up && Entry(Next(w, e).h.addrs, k).status == Up
    ensures GoodCheck(w, e, k) && Entry(w.h.addrs, k).probeOKs >= 1
  {
    hide Next, AcceptedCheck, Timeout, KeyOf, Median, Sampled, Dropped;
    EntryAfter(w, e, k);
  }

  /** In every interleaving an address becomes UP only by two good checks in a row, both asked for after every job
      timeout it had. */
  lemma StaleNeverHeals(w: World, events: seq<Event>, k: Key, j: int)
    requires Run(w, events) && 0 <= j < |events|
    requires Entry(At(w, events, j).h.addrs, k).status != Up && Entry(At(w, events, j + 1).h.addrs, k).status == Up
    ensures exists i :: TwoGood(w, events, k, i, j) && AfterTimeouts(w, events, k, i, j)
  {
    hide GoodCheck, Timeout, Legal, Begins, Next, TwoGood, LastTimeout;
    assert Legal(At(w, events, j), events[j]);
    assert events[..j + 1][..j] == events[..j];
    RaisedByGood(At(w, events, j), events[j], k);
    RaisedByTwo(w, events, k, j);
    var last := LastTimeout(w, events[..j], k);
    var i :| TwoGood(w, events, k, i, j) && AskedAfter(events, last, i, j);
    forall t | 0 <= t < j && Timeout(At(w, events, t), events[t], k) ensures AskedAfter(events, t, i, j) {
      AtPrefix(w, events, j, t);
      TimeoutIsBefore(w, events[..j], k, t);
    }
    assert AfterTimeouts(w, events, k, i, j);
  }

  // ---- failback ----

  predicate Backs(h: Health, k: Key, id: string, since: int) {
    k in h.addrs && k.pool == id && h.addrs[k].status == Up && h.addrs[k].upSince == since
  }

  /** The healthy time of a pool is that of one of its UP addresses. */
  ghost predicate PoolsInv(h: Health) {
    forall id :: id in h.pools && h.pools[id].upSince != 0 ==> exists k :: Backs(h, k, id, h.pools[id].upSince)
  }

  predicate Configured(w: World, k: Key) {
    k.pool in w.confs && w.confs[k.pool].id == k.pool && k in KeysOf(w.confs[k.pool])
  }

  /** The change being applied will drop the address. */
  predicate Leaving(due: Due, k: Key) {
    match due
    case Nothing => false
    case EditDue(was, next) => k.pool == next.id && (was.login != next.login || (k in KeysOf(was) && k !in KeysOf(next)))
    case ForgetDue(id) => k.pool == id
  }

  /** An UP address is configured, unless it is about to be dropped. */
  ghost predicate ConfInv(w: World) {
    && (forall id :: id in w.confs ==> w.confs[id].id == id)
    && forall k :: k in w.h.addrs && w.h.addrs[k].status == Up ==> Configured(w, k) || Leaving(w.due, k)
  }

  lemma {:induction false} EarliestUpIs(addrs: Addrs, p: Conf, keys: seq<Key>)
    requires forall k: Key :: k in keys ==> k.pool == p.id
    ensures var since := EarliestUp(addrs, keys);
            since != 0 ==> exists k :: k in addrs && k.pool == p.id && addrs[k].status == Up && addrs[k].upSince == since
  {
    if keys != [] {
      EarliestUpIs(addrs, p, keys[..|keys| - 1]);
    }
  }

  /** A refresh of one pool keeps the invariant when only addresses of that pool have changed. */
  lemma RefreshKeepsPools(h: Health, h1: Health, p: Conf)
    requires PoolsInv(h) && h1.pools == h.pools
    requires forall k: Key :: k.pool != p.id ==> (k in h.addrs <==> k in h1.addrs) && (k in h.addrs ==> h.addrs[k] == h1.addrs[k])
    ensures PoolsInv(Refreshed(h1, p))
  {
    hide EarliestUp, StatusOf, Choose;
    var after := Refreshed(h1, p);
    EarliestUpIs(h1.addrs, p, KeysOf(p));
    forall id | id in after.pools && after.pools[id].upSince != 0 ensures exists k :: Backs(after, k, id, after.pools[id].upSince) {
      if id == p.id {
        var k :| k in h1.addrs && k.pool == p.id && h1.addrs[k].status == Up && h1.addrs[k].upSince == after.pools[id].upSince;
        assert Backs(after, k, id, after.pools[id].upSince);
      } else {
        var k :| Backs(h, k, id, h.pools[id].upSince);
        assert Backs(after, k, id, after.pools[id].upSince);
      }
    }
  }

  lemma ForgottenKeepsPools(h: Health, id: string)
    requires PoolsInv(h)
    ensures PoolsInv(Forgotten(h, id))
  {
    var after := Forgotten(h, id);
    forall x | x in after.pools && after.pools[x].upSince != 0 ensures exists k :: Backs(after, k, x, after.pools[x].upSince) {
      var k :| Backs(h, k, x, h.pools[x].upSince);
      assert Backs(after, k, x, after.pools[x].upSince);
    }
  }

  lemma SettledKeepsPools(h: Health, due: Due)
    requires PoolsInv(h) && (due.EditDue? ==> due.was.id == due.next.id)
    ensures PoolsInv(Settled(h, due))
  {
    hide PoolsInv, Forgotten, Refreshed;
    match due
    case Nothing =>
    case ForgetDue(id) => ForgottenKeepsPools(h, id);
    case EditDue(was, next) =>
      if was.login != next.login {
        ForgottenKeepsPools(h, next.id);
      } else {
        var h1 := Bumped(h, next.id).(addrs := map k | k in h.addrs && !(k in KeysOf(was) && k !in KeysOf(next)) :: h.addrs[k]);
        RefreshKeepsPools(h, h1, next);
      }
  }

  lemma PoolsKeep(w: World, e: Event)
    requires PoolsInv(w.h) && Legal(w, e) && (w.due.EditDue? ==> w.due.was.id == w.due.next.id)
    ensures PoolsInv(Next(w, e).h)
  {
    hide Refreshed, Settled, AfterCheck, AfterDial, AfterStall, Lower, Accepts;
    match e
    case Answer(ticket, ok, rtt, live, now) =>
      var c := w.flights[ticket];
      var k := KeyOf(c.p.id, c.a);
      RefreshKeepsPools(w.h, WithAddr(w.h, k, AfterCheck(Entry(w.h.addrs, k), ok, rtt, now)), c.p);
    case Dial(p, a, ok) =>
      var k := KeyOf(p.id, a);
      RefreshKeepsPools(w.h, WithAddr(w.h, k, AfterDial(Entry(w.h.addrs, k), ok)), p);
    case Session(p, a, stalled) =>
      var k := KeyOf(p.id, a);
      RefreshKeepsPools(w.h, Bumped(WithAddr(w.h, k, AfterStall(Entry(w.h.addrs, k))), p.id), p);
    case Settle => SettledKeepsPools(w.h, w.due);
    case _ =>
  }

  /** An address of a configured pool has its key among the pool's. */
  lemma KeyIsConfigured(p: Conf, id: string, a: string)
    requires a in p.addrs && p.id == id
    ensures KeyOf(id, a) in KeysOf(p)
  {
    var i :| 0 <= i < |p.addrs| && p.addrs[i] == a;
    assert KeysOf(p)[i] == KeyOf(id, a);
  }

  /** What is UP after an event was UP before it, or has just passed a check that counts. */
  lemma UpAfter(w: World, e: Event, k: Key)
    requires Legal(w, e) && k in Next(w, e).h.addrs && Next(w, e).h.addrs[k].status == Up
    ensures AcceptedCheck(w, e, k) || (k in w.h.addrs && w.h.addrs[k].status == Up)
  {
    hide Next, AcceptedCheck, Timeout, KeyOf, AfterCheck;
    EntryAfter(w, e, k);
  }

  lemma CheckedIsConfigured(w: World, e: Event, k: Key)
    requires ConfInv(w) && AcceptedCheck(w, e, k)
    ensures Configured(w, k)
  {
    hide KeysOf, Lower;
    var c := w.flights[e.ticket];
    KeyIsConfigured(w.confs[c.p.id], c.p.id, c.a);
  }

  lemma SettledDrops(w: World, k: Key)
    requires Leaving(w.due, k) && (w.due.EditDue? ==> w.due.was.id == w.due.next.id)
    ensures k !in Settled(w.h, w.due).addrs
  {
    hide Refreshed;
    RefreshedAddrs(w);
  }

  lemma RefreshedAddrs(w: World)
    ensures forall h, p :: Refreshed(h, p).addrs == h.addrs
  {
    hide Choose, StatusOf, EarliestUp;
  }

  lemma ConfKeeps(w: World, e: Event)
    requires ConfInv(w) && Legal(w, e) && (w.due.EditDue? ==> w.due.was.id == w.due.next.id)
    ensures ConfInv(Next(w, e))
    ensures Next(w, e).due.EditDue? ==> Next(w, e).due.was.id == Next(w, e).due.next.id
  {
    var w' := Next(w, e);
    forall k | k in w'.h.addrs && w'.h.addrs[k].status == Up ensures Configured(w', k) || Leaving(w'.due, k) {
      ConfKeepsKey(w, e, k);
    }
    hide Checked, Dialed, Stalled, Settled, KeysOf, Invalidated, Accepts;
  }

  lemma CheckIsAnswer(w: World, e: Event, k: Key)
    requires AcceptedCheck(w, e, k)
    ensures e.Answer?
  {
  }

  lemma ConfKeepsKey(w: World, e: Event, k: Key)
    requires ConfInv(w) && Legal(w, e) && (w.due.EditDue? ==> w.due.was.id == w.due.next.id)
    requires k in Next(w, e).h.addrs && Next(w, e).h.addrs[k].status == Up
    ensures Configured(Next(w, e), k) || Leaving(Next(w, e).due, k)
  {
    hide Checked, Dialed, Stalled, Settled, KeysOf, Invalidated, Accepts, AcceptedCheck;
    UpAfter(w, e, k);
    if AcceptedCheck(w, e, k) {
      CheckedIsConfigured(w, e, k);
      CheckIsAnswer(w, e, k);
    } else if e.Settle? && Leaving(w.due, k) {
      SettledDrops(w, k);
    }
  }

  ghost predicate Sound(w: World) {
    PoolsInv(w.h) && ConfInv(w) && (w.due.EditDue? ==> w.due.was.id == w.due.next.id)
  }

  lemma {:induction false} AlwaysSound(w: World, events: seq<Event>)
    requires Run(w, events)
    ensures Sound(Play(w, events))
  {
    if events != [] {
      hide PoolsInv, ConfInv, Next, Legal, Begins;
      var n := |events| - 1;
      RunPrefix(w, events, n);
      AlwaysSound(w, events[..n]);
      assert Legal(At(w, events, n), events[n]);
      PoolsKeep(Play(w, events[..n]), events[n]);
      ConfKeeps(Play(w, events[..n]), events[n]);
    }
  }

  /** The part of checkFailback that looks at health: it may drain at now. */
  predicate MayFailBack(w: World, now: int, delay: int) {
    w.due.Nothing? && HealthyFor(w.h, w.active, now, delay)
  }

  /** Two good checks of k in a row, the second at the latest at `until`, and since then neither a failed check, nor
      a verdict of the session dials, nor a job timeout. */
  ghost predicate HealthyUntil(w: World, events: seq<Event>, k: Key, i: int, u: int, until: int) {
    && TwoGood(w, events, k, i, u) && events[u].now <= until
    && forall x :: u < x < |events| ==> !Breaks(At(w, events, x), events[x], k)
  }

  ghost predicate HealthySomeTime(w: World, events: seq<Event>, k: Key, until: int) {
    exists i, u :: HealthyUntil(w, events, k, i, u, until)
  }

  /** A failback at now rests on one configured address of the active pool that has been healthy for the delay. */
  lemma FailbackIsJustified(w: World, events: seq<Event>, now: int, delay: int)
    requires Run(w, events) && MayFailBack(Play(w, events), now, delay)
    ensures var v := Play(w, events);
            exists k: Key :: Configured(v, k) && k.pool == v.active && HealthySomeTime(w, events, k, now - delay)
  {
    hide Begins, Legal, Next, Breaks, GoodCheck, Untouched, UpFrom, FlightsInv;
    var v := Play(w, events);
    AlwaysSound(w, events);
    var since := v.h.pools[v.active].upSince;
    assert PoolsInv(v.h);
    var k :| Backs(v.h, k, v.active, since);
    assert Configured(v, k);
    Invariant(w, events, k);
    var u := UpFrom(w, events, k);
    HealthySince(w, events, k);
    assert events[u].now == since;
    RaisedByTwo(w, events, k, u);
    var i :| TwoGood(w, events, k, i, u);
    assert HealthyUntil(w, events, k, i, u, now - delay);
  }
}
