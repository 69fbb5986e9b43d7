/** What makes an address DOWN, and for how long, over runs in any interleaving. */
module HealthVerdicts {
  import opened AddressChoice
  import opened PoolHealth
  import opened HealthRuns

  predicate IsDown(w: World, k: Key) {
    Entry(w.h.addrs, k).status == Down
  }

  /** The address leaves its pool, the pool's login changes, the pool is removed or switched to, or the checks get
      another worker. */
  predicate Forgets(w: World, e: Event, k: Key) {
    (e.Settle? && Leaving(w.due, k)) || (e.Listen? && w.worker != w.h.testWorker)
  }

  predicate DialFailed(e: Event, k: Key) {
    DialOn(e, k) && !e.ok
  }

  predicate EndsFails(w: World, e: Event, k: Key) {
    GoodCheck(w, e, k) || Timeout(w, e, k) || Forgets(w, e, k)
  }

  predicate EndsDials(w: World, e: Event, k: Key) {
    EndsFails(w, e, k) || (DialOn(e, k) && e.ok)
  }

  // ---- one event ----

  lemma DroppedMeans(w: World, e: Event, k: Key)
    requires Legal(w, e) && Sound(w)
    ensures Dropped(w, e, k) <==> k in w.h.addrs && Forgets(w, e, k)
  {
    hide AfterCheck, AfterDial, AfterStall, KeysOf, Choose, StatusOf, EarliestUp, Version, PoolsInv, ConfInv;
  }

  /** At most one of the kinds of events, and what the three counts become. */
  lemma CountsAfter(w: World, e: Event, k: Key)
    requires Legal(w, e) && Sound(w)
    ensures var h, h' := Entry(w.h.addrs, k), Entry(Next(w, e).h.addrs, k);
            && h'.probeFails == (if FailedCheck(w, e, k) then h.probeFails + 1 else if EndsFails(w, e, k) then 0 else h.probeFails)
            && h'.dialFails == (if DialFailed(e, k) then h.dialFails + 1 else if EndsDials(w, e, k) then 0 else h.dialFails)
  {
    EntryAfter(w, e, k);
    DroppedMeans(w, e, k);
    Exclusive(w, e, k);
    hide Next, AcceptedCheck, Timeout, Dropped, Legal, Sound, Leaving, Median, Sampled, KeyOf;
  }

  /** When the status goes DOWN, and when it leaves it. */
  lemma StatusAfter(w: World, e: Event, k: Key)
    requires Legal(w, e) && Sound(w)
    ensures var h, down := Entry(w.h.addrs, k), IsDown(Next(w, e), k);
            var blow := Timeout(w, e, k) || (FailedCheck(w, e, k) && h.probeFails >= 1) || (DialFailed(e, k) && h.dialFails >= 2);
            && (blow ==> down)
            && (down && h.status != Down ==> blow)
            && (h.status == Down && !down ==> (GoodCheck(w, e, k) && h.probeOKs >= 1) || Forgets(w, e, k))
  {
    EntryAfter(w, e, k);
    DroppedMeans(w, e, k);
    Exclusive(w, e, k);
    hide Next, AcceptedCheck, Timeout, Dropped, Legal, Sound, Leaving, Median, Sampled, KeyOf;
  }

  // ---- runs ----

  lemma AtNext(w: World, events: seq<Event>, n: int)
    requires 0 <= n < |events|
    ensures At(w, events, n + 1) == Next(At(w, events, n), events[n])
  {
    assert events[..n + 1][..n] == events[..n];
    hide Next;
  }

  lemma SoundAt(w: World, events: seq<Event>, n: int)
    requires Run(w, events) && 0 <= n <= |events|
    ensures Sound(At(w, events, n)) && (n < |events| ==> Legal(At(w, events, n), events[n]))
  {
    RunPrefix(w, events, n);
    AlwaysSound(w, events[..n]);
    hide Sound, Legal;
  }

  /** A stalled session on a configured address makes it DOWN. */
  lemma TimeoutMeansDown(w: World, events: seq<Event>, k: Key, t: int)
    requires Run(w, events) && 0 <= t < |events| && Timeout(At(w, events, t), events[t], k)
    ensures IsDown(At(w, events, t + 1), k)
  {
    SoundAt(w, events, t);
    AtNext(w, events, t);
    StatusAfter(At(w, events, t), events[t], k);
  }

  /** Between two events nothing ended the row of failed checks. */
  ghost predicate FailsGoOn(w: World, events: seq<Event>, k: Key, i: int, j: int)
    requires 0 <= i && j <= |events|
  {
    forall x :: i < x < j ==> !EndsFails(At(w, events, x), events[x], k)
  }

  ghost predicate DialsGoOn(w: World, events: seq<Event>, k: Key, i: int, j: int)
    requires 0 <= i && j <= |events|
  {
    forall x :: i < x < j ==> !EndsDials(At(w, events, x), events[x], k)
  }

  lemma {:induction false} FailsAdd(w: World, events: seq<Event>, k: Key, i: int, j: int)
    requires Run(w, events) && 0 <= i < j <= |events| && FailsGoOn(w, events, k, i, j)
    requires FailedCheck(At(w, events, i), events[i], k)
    ensures Entry(At(w, events, j).h.addrs, k).probeFails >= 1
    decreases j
  {
    hide FailedCheck, EndsFails, At, Run, Entry, Sound, Legal;
    SoundAt(w, events, j - 1);
    AtNext(w, events, j - 1);
    CountsAfter(At(w, events, j - 1), events[j - 1], k);
    FailsNotNegative(w, events, k, j - 1);
    if j > i + 1 {
      FailsAdd(w, events, k, i, j - 1);
    }
  }

  lemma {:induction false} FailsNotNegative(w: World, events: seq<Event>, k: Key, j: int)
    requires Run(w, events) && 0 <= j <= |events|
    ensures var h := Entry(At(w, events, j).h.addrs, k); h.probeFails >= 0 && h.dialFails >= 0
  {
    if j > 0 {
      hide FailedCheck, EndsFails, EndsDials, DialFailed, At, Run, Entry, Sound, Legal;
      SoundAt(w, events, j - 1);
      AtNext(w, events, j - 1);
      CountsAfter(At(w, events, j - 1), events[j - 1], k);
      FailsNotNegative(w, events, k, j - 1);
    }
  }

  /** Two failed checks in a row that count make the address DOWN. */
  lemma TwoFailsMeanDown(w: World, events: seq<Event>, k: Key, i: int, j: int)
    requires Run(w, events) && 0 <= i < j < |events| && FailsGoOn(w, events, k, i, j)
    requires FailedCheck(At(w, events, i), events[i], k) && FailedCheck(At(w, events, j), events[j], k)
    ensures IsDown(At(w, events, j + 1), k)
  {
    hide FailedCheck, At, Run, FailsGoOn, Sound, Legal;
    FailsAdd(w, events, k, i, j);
    SoundAt(w, events, j);
    AtNext(w, events, j);
    StatusAfter(At(w, events, j), events[j], k);
  }

  lemma {:induction false} DialsAdd(w: World, events: seq<Event>, k: Key, i: int, j: int, before: int)
    requires Run(w, events) && 0 <= i < j <= |events| && DialsGoOn(w, events, k, i, j) && before >= 0
    requires DialFailed(events[i], k) && Entry(At(w, events, i).h.addrs, k).dialFails >= before
    ensures Entry(At(w, events, j).h.addrs, k).dialFails >= before + 1
    decreases j
  {
    hide DialFailed, EndsDials, At, Run, Entry, Sound, Legal;
    SoundAt(w, events, j - 1);
    AtNext(w, events, j - 1);
    CountsAfter(At(w, events, j - 1), events[j - 1], k);
    if j > i + 1 {
      DialsAdd(w, events, k, i, j - 1, before);
    }
  }

  /** The third failed dial in a row makes the address DOWN. */
  lemma ThreeDialsMeanDown(w: World, events: seq<Event>, k: Key, a: int, b: int, c: int)
    requires Run(w, events) && 0 <= a < b < c < |events| && DialsGoOn(w, events, k, a, c)
    requires DialFailed(events[a], k) && DialFailed(events[b], k) && DialFailed(events[c], k)
    ensures IsDown(At(w, events, c + 1), k)
  {
    hide DialFailed, EndsDials, At, Run;
    FailsNotNegative(w, events, k, a);
    DialsAdd(w, events, k, a, b, 0);
    DialsAdd(w, events, k, b, c, 1);
    SoundAt(w, events, c);
    AtNext(w, events, c);
    StatusAfter(At(w, events, c), events[c], k);
  }

  // ---- only by one of the three ----

  ghost predicate TwoFailed(w: World, events: seq<Event>, k: Key, i: int, j: int) {
    && 0 <= i < j < |events| && FailsGoOn(w, events, k, i, j)
    && FailedCheck(At(w, events, i), events[i], k) && FailedCheck(At(w, events, j), events[j], k)
  }

  ghost predicate ThreeDialed(w: World, events: seq<Event>, k: Key, a: int, b: int, c: int) {
    && 0 <= a < b < c < |events| && DialsGoOn(w, events, k, a, c)
    && DialFailed(events[a], k) && DialFailed(events[b], k) && DialFailed(events[c], k)
  }

  lemma NothingYet(w: World, events: seq<Event>, k: Key)
    requires Run(w, events)
    ensures var h := Entry(At(w, events, 0).h.addrs, k); h.probeFails == 0 && h.dialFails == 0
  {
    assert events[..0] == [];
  }

  /** Event i is a failed check, and the row goes on up to n. */
  ghost predicate FailBefore(w: World, events: seq<Event>, k: Key, i: int, n: int) {
    0 <= i < n <= |events| && FailedCheck(At(w, events, i), events[i], k) && FailsGoOn(w, events, k, i, n)
  }

  ghost predicate DialBefore(w: World, events: seq<Event>, k: Key, i: int, n: int, before: int) {
    && 0 <= i < n <= |events| && DialFailed(events[i], k) && DialsGoOn(w, events, k, i, n)
    && Entry(At(w, events, i).h.addrs, k).dialFails >= before
  }

  lemma FailStep(w: World, events: seq<Event>, k: Key, n: int)
    requires Run(w, events) && 0 < n <= |events| && Entry(At(w, events, n).h.addrs, k).probeFails >= 1
    ensures var v, e := At(w, events, n - 1), events[n - 1];
            FailedCheck(v, e, k) || (!EndsFails(v, e, k) && Entry(v.h.addrs, k).probeFails >= 1)
  {
    hide FailedCheck, EndsFails, Run, At, Entry, Sound, Legal;
    SoundAt(w, events, n - 1);
    AtNext(w, events, n - 1);
    CountsAfter(At(w, events, n - 1), events[n - 1], k);
  }

  lemma DialStep(w: World, events: seq<Event>, k: Key, n: int, before: int)
    requires Run(w, events) && 0 < n <= |events| && before >= 0 && Entry(At(w, events, n).h.addrs, k).dialFails > before
    ensures var v, e := At(w, events, n - 1), events[n - 1];
            if DialFailed(e, k) then Entry(v.h.addrs, k).dialFails >= before
            else !EndsDials(v, e, k) && Entry(v.h.addrs, k).dialFails > before
  {
    hide DialFailed, EndsDials, Run, At, Entry, Sound, Legal;
    SoundAt(w, events, n - 1);
    AtNext(w, events, n - 1);
    CountsAfter(At(w, events, n - 1), events[n - 1], k);
  }

  /** Counted failures are there. */
  lemma {:induction false} LastFail(w: World, events: seq<Event>, k: Key, n: int)
    requires Run(w, events) && 0 <= n <= |events| && Entry(At(w, events, n).h.addrs, k).probeFails >= 1
    ensures exists i :: FailBefore(w, events, k, i, n)
    decreases n
  {
    NothingYet(w, events, k);
    hide FailedCheck, EndsFails, Run, At, Entry, FailBefore;
    FailStep(w, events, k, n);
    if FailedCheck(At(w, events, n - 1), events[n - 1], k) {
      FailGoesOn(w, events, k, n - 1, n);
    } else {
      LastFail(w, events, k, n - 1);
      var i :| FailBefore(w, events, k, i, n - 1);
      FailGoesOn(w, events, k, i, n);
    }
  }

  lemma FailGoesOn(w: World, events: seq<Event>, k: Key, i: int, n: int)
    requires 0 <= i < n <= |events|
    requires if i == n - 1 then FailedCheck(At(w, events, i), events[i], k)
             else FailBefore(w, events, k, i, n - 1) && !EndsFails(At(w, events, n - 1), events[n - 1], k)
    ensures FailBefore(w, events, k, i, n)
  {
    hide FailedCheck, EndsFails, At;
  }

  lemma {:induction false} LastDial(w: World, events: seq<Event>, k: Key, n: int, before: int)
    requires Run(w, events) && 0 <= n <= |events| && before >= 0 && Entry(At(w, events, n).h.addrs, k).dialFails > before
    ensures exists i :: DialBefore(w, events, k, i, n, before)
    decreases n
  {
    NothingYet(w, events, k);
    hide DialFailed, EndsDials, Run, At, Entry, DialBefore;
    DialStep(w, events, k, n, before);
    if DialFailed(events[n - 1], k) {
      DialGoesOn(w, events, k, n - 1, n, before);
    } else {
      LastDial(w, events, k, n - 1, before);
      var i :| DialBefore(w, events, k, i, n - 1, before);
      DialGoesOn(w, events, k, i, n, before);
    }
  }

  lemma DialGoesOn(w: World, events: seq<Event>, k: Key, i: int, n: int, before: int)
    requires 0 <= i < n <= |events|
    requires if i == n - 1 then DialFailed(events[i], k) && Entry(At(w, events, i).h.addrs, k).dialFails >= before
             else DialBefore(w, events, k, i, n - 1, before) && !EndsDials(At(w, events, n - 1), events[n - 1], k)
    ensures DialBefore(w, events, k, i, n, before)
  {
    hide DialFailed, EndsDials, At, Entry;
  }

  /** An address becomes DOWN only by a job timeout, two failed checks in a row, or three failed dials in a row. */
  lemma DownOnlyBy(w: World, events: seq<Event>, k: Key, n: int)
    requires Run(w, events) && 0 <= n < |events| && !IsDown(At(w, events, n), k) && IsDown(At(w, events, n + 1), k)
    ensures || Timeout(At(w, events, n), events[n], k)
            || (exists i :: TwoFailed(w, events, k, i, n))
            || exists a, b :: ThreeDialed(w, events, k, a, b, n)
  {
    var v := At(w, events, n);
    SoundAt(w, events, n);
    AtNext(w, events, n);
    StatusAfter(v, events[n], k);
    hide Timeout, FailedCheck, DialFailed, EndsFails, EndsDials, At, Run;
    if FailedCheck(v, events[n], k) && Entry(v.h.addrs, k).probeFails >= 1 {
      LastFail(w, events, k, n);
      var i :| FailBefore(w, events, k, i, n);
      assert TwoFailed(w, events, k, i, n);
    } else if !Timeout(v, events[n], k) {
      LastDial(w, events, k, n, 1);
      var b :| DialBefore(w, events, k, b, n, 1);
      LastDial(w, events, k, b, 0);
      var a :| DialBefore(w, events, k, a, b, 0);
      DialKeepsRow(w, events, k, a, b, n);
      assert ThreeDialed(w, events, k, a, b, n);
    }
  }

  lemma DialKeepsRow(w: World, events: seq<Event>, k: Key, a: int, b: int, c: int)
    requires 0 <= a < b < c <= |events| && DialFailed(events[b], k)
    requires DialsGoOn(w, events, k, a, b) && DialsGoOn(w, events, k, b, c)
    ensures DialsGoOn(w, events, k, a, c)
  {
    assert !EndsDials(At(w, events, b), events[b], k);
    hide EndsDials;
  }

  // ---- DOWN stays ----

  /** Event d makes the address DOWN, or says so again by a job timeout. */
  predicate Falls(w: World, events: seq<Event>, k: Key, d: int)
    requires 0 <= d < |events|
  {
    Timeout(At(w, events, d), events[d], k) || (!IsDown(At(w, events, d), k) && IsDown(At(w, events, d + 1), k))
  }

  lemma FallBreaks(w: World, events: seq<Event>, k: Key, d: int)
    requires Run(w, events) && 0 <= d < |events| && Falls(w, events, k, d)
    ensures IsDown(At(w, events, d + 1), k)
    ensures Breaks(At(w, events, d), events[d], k) && !GoodCheck(At(w, events, d), events[d], k)
  {
    var v := At(w, events, d);
    SoundAt(w, events, d);
    AtNext(w, events, d);
    StatusAfter(v, events[d], k);
    Exclusive(v, events[d], k);
    hide At, Run, AcceptedCheck, Timeout, Dropped, Next;
  }

  /** What made an address DOWN holds until it is forgotten, or two good checks in a row came after it. */
  lemma {:induction false} DownStays(w: World, events: seq<Event>, k: Key, d: int, n: int)
    requires Run(w, events) && 0 <= d < n <= |events| && Falls(w, events, k, d)
    requires forall x :: d < x < n ==> !Forgets(At(w, events, x), events[x], k)
    requires forall i, j :: d < i < j < n ==> !TwoGood(w, events, k, i, j)
    ensures IsDown(At(w, events, n), k)
    decreases n
  {
    hide Run, Falls, Breaks, GoodCheck, Forgets, Timeout, LastTimeout, AskedAfter;
    FallBreaks(w, events, k, d);
    if n > d + 1 {
      DownStays(w, events, k, d, n - 1);
      SoundAt(w, events, n - 1);
      AtNext(w, events, n - 1);
      var v := At(w, events, n - 1);
      StatusAfter(v, events[n - 1], k);
      hide At, Untouched;
      if !IsDown(At(w, events, n), k) {
        RaisedByTwo(w, events, k, n - 1);
        var i :| TwoGood(w, events, k, i, n - 1) && AskedAfter(events, LastTimeout(w, events[..n - 1], k), i, n - 1);
        if i < d {
          UntouchedAt(w, events, k, i, n - 1, d);
        }
      }
    }
  }

  lemma UntouchedAt(w: World, events: seq<Event>, k: Key, i: int, j: int, x: int)
    requires 0 <= i < x < j <= |events| && Untouched(w, events, k, i, j)
    ensures !Breaks(At(w, events, x), events[x], k)
  {
  }

  // ---- UP ----

  lemma GoodAdds(w: World, e: Event, k: Key)
    requires Legal(w, e) && Sound(w)
    ensures var h, h' := Entry(w.h.addrs, k), Entry(Next(w, e).h.addrs, k);
            && (GoodCheck(w, e, k) && h.probeOKs >= 0 ==> h'.probeOKs == h.probeOKs + 1 && (h.probeOKs >= 1 ==> h'.status == Up))
            && (!AcceptedCheck(w, e, k) && !Breaks(w, e, k) ==> h'.probeOKs == h.probeOKs)
  {
    EntryAfter(w, e, k);
    DroppedMeans(w, e, k);
    Exclusive(w, e, k);
    hide Next, AcceptedCheck, Timeout, Dropped, Legal, Sound, Leaving, Median, Sampled, KeyOf;
  }

  lemma {:induction false} GoodStays(w: World, events: seq<Event>, k: Key, i: int, j: int)
    requires Run(w, events) && 0 <= i < j <= |events| && Untouched(w, events, k, i, j)
    requires GoodCheck(At(w, events, i), events[i], k)
    ensures Entry(At(w, events, j).h.addrs, k).probeOKs >= 1
    decreases j
  {
    hide GoodCheck, AcceptedCheck, Breaks, At, Run, Entry, Sound, Legal;
    SoundAt(w, events, j - 1);
    AtNext(w, events, j - 1);
    GoodAdds(At(w, events, j - 1), events[j - 1], k);
    if j > i + 1 {
      GoodStays(w, events, k, i, j - 1);
    } else {
      OksNotNegative(w, events, k, i);
    }
  }

  lemma OksNotNegative(w: World, events: seq<Event>, k: Key, n: int)
    requires Run(w, events) && 0 <= n <= |events|
    ensures Entry(At(w, events, n).h.addrs, k).probeOKs >= 0
  {
    RunPrefix(w, events, n);
    Invariant(w, events[..n], k);
    hide FlightsInv, Run;
  }

  /** Two good checks in a row that count make the address UP. */
  lemma TwoGoodMeanUp(w: World, events: seq<Event>, k: Key, i: int, j: int)
    requires Run(w, events) && TwoGood(w, events, k, i, j)
    ensures Entry(At(w, events, j + 1).h.addrs, k).status == Up
  {
    hide GoodCheck, Untouched, At, Run, Entry, Sound, Legal;
    GoodStays(w, events, k, i, j);
    SoundAt(w, events, j);
    AtNext(w, events, j);
    GoodAdds(At(w, events, j), events[j], k);
  }

  // ---- which checks count ----

  /** The checks of the pool that are under way will not count. */
  predicate Invalidates(w: World, e: Event, id: string) {
    || (e.Session? && e.stalled && StillHas(w, e.p, e.a) && e.p.id == id)
    || (e.Settle? && w.due == ForgetDue(id))
    || (e.Settle? && w.due.EditDue? && w.due.next.id == id)
    || (e.Listen? && w.worker != w.h.testWorker && id in w.confs)
  }

  lemma VersionCounts(w: World, e: Event, id: string)
    requires Legal(w, e)
    ensures Version(Next(w, e).h, id) == Version(w.h, id) + if Invalidates(w, e, id) then 1 else 0
  {
    hide AfterCheck, AfterDial, AfterStall, KeysOf, Choose, StatusOf, EarliestUp;
  }

  /** A check under way remembers its question, and the worker and version at that time. */
  ghost predicate Remembers(w: World, events: seq<Event>, n: int, t: int)
    requires 0 <= n <= |events|
  {
    && 0 <= t < n && events[t].Ask?
    && var c := Check(events[t].p, events[t].a, At(w, events, t).worker, Version(At(w, events, t).h, events[t].p.id));
       t in At(w, events, n).flights && At(w, events, n).flights[t] == c
  }

  lemma {:induction false} FlightsRemember(w: World, events: seq<Event>, n: int)
    requires Run(w, events) && 0 <= n <= |events|
    ensures At(w, events, n).tick == n
    ensures forall t :: t in At(w, events, n).flights ==> Remembers(w, events, n, t)
    decreases n
  {
    if n == 0 {
      assert events[..0] == [];
    } else {
      FlightsRemember(w, events, n - 1);
      SoundAt(w, events, n - 1);
      AtNext(w, events, n - 1);
      var v, v' := At(w, events, n - 1), At(w, events, n);
      hide At, Run, Version;
      forall t | t in v'.flights ensures Remembers(w, events, n, t) {
        FlightStays(v, events[n - 1], t);
      }
      TickStays(v, events[n - 1]);
    }
  }

  lemma TickStays(w: World, e: Event)
    ensures Next(w, e).tick == w.tick + 1
  {
    hide Checked, Dialed, Stalled, Settled, Invalidated, Version;
  }

  lemma FlightStays(w: World, e: Event, t: int)
    requires t in Next(w, e).flights
    ensures if e.Ask? && t == w.tick then Next(w, e).flights[t] == Check(e.p, e.a, w.worker, Version(w.h, e.p.id))
            else t in w.flights && w.flights[t] == Next(w, e).flights[t]
  {
    hide Checked, Dialed, Stalled, Settled, Invalidated, Version;
  }

  ghost predicate Valid(w: World, events: seq<Event>, id: string, t: int, n: int)
    requires 0 <= t && n <= |events|
  {
    forall x :: t < x < n ==> !Invalidates(At(w, events, x), events[x], id)
  }

  lemma ValidMore(w: World, events: seq<Event>, id: string, t: int, n: int)
    requires 0 <= t < n <= |events|
    ensures Valid(w, events, id, t, n) <==>
            n == t + 1 || (Valid(w, events, id, t, n - 1) && !Invalidates(At(w, events, n - 1), events[n - 1], id))
  {
    hide Invalidates, At;
  }

  lemma {:induction false} VersionGrows(w: World, events: seq<Event>, id: string, t: int, n: int)
    requires Run(w, events) && 0 <= t <= n <= |events|
    ensures Version(At(w, events, n).h, id) >= Version(At(w, events, t).h, id)
    ensures t < n && !Invalidates(At(w, events, t), events[t], id) ==>
              (Version(At(w, events, n).h, id) == Version(At(w, events, t).h, id) <==> Valid(w, events, id, t, n))
    decreases n
  {
    hide Invalidates, Run, At, Version, Valid, Sound, Legal;
    if t < n {
      ValidMore(w, events, id, t, n);
      VersionGrows(w, events, id, t, n - 1);
      SoundAt(w, events, n - 1);
      AtNext(w, events, n - 1);
      VersionCounts(At(w, events, n - 1), events[n - 1], id);
    }
  }

  lemma AskIsHarmless(w: World, e: Event, id: string)
    ensures e.Ask? ==> !Invalidates(w, e, id)
  {
  }

  /** A check counts if and only if its caller lives, the address and login are configured, the worker is the one it was
      asked for with, and since then no session of the pool stalled, the pool did not change, and the checks were not
      started over. */
  lemma CountsExactlyWhen(w: World, events: seq<Event>, n: int)
    requires Run(w, events) && 0 <= n < |events| && events[n].Answer?
    ensures var t := events[n].ticket;
            && 0 <= t < n && events[t].Ask?
            && var ask := events[t];
            && (AcceptedCheck(At(w, events, n), events[n], KeyOf(ask.p.id, ask.a)) <==>
                  && events[n].live && StillHas(At(w, events, n), ask.p, ask.a)
                  && At(w, events, n).worker == At(w, events, t).worker && Valid(w, events, ask.p.id, t, n))
  {
    SoundAt(w, events, n);
    FlightsRemember(w, events, n);
    var t := events[n].ticket;
    assert Remembers(w, events, n, t);
    AskIsHarmless(At(w, events, t), events[t], events[t].p.id);
    VersionGrows(w, events, events[t].p.id, t, n);
    hide At, Run, StillHas, KeyOf, Invalidates, Valid, Version, Sound;
  }

  // ---- the pool ----

  predicate Healthy(addrs: Addrs, k: Key) {
    Entry(addrs, k).status == Up && Entry(addrs, k).upSince > 0
  }

  /** A pool is UP when one of its addresses is, DOWN when it has some and all of them are, and healthy since the
      earliest healthy time of an UP address. */
  lemma {:induction false} PoolStatusIs(addrs: Addrs, keys: seq<Key>)
    requires forall k :: k in keys ==> Entry(addrs, k).upSince >= 0
    ensures StatusOf(addrs, keys) == Up <==> exists k :: k in keys && Entry(addrs, k).status == Up
    ensures StatusOf(addrs, keys) == Down <==> keys != [] && forall k :: k in keys ==> Entry(addrs, k).status == Down
    ensures forall k :: k in keys && Healthy(addrs, k) ==> 0 < EarliestUp(addrs, keys) <= Entry(addrs, k).upSince
    ensures EarliestUp(addrs, keys) != 0 ==>
              exists k :: k in keys && Healthy(addrs, k) && Entry(addrs, k).upSince == EarliestUp(addrs, keys)
  {
    if keys != [] {
      var init, last := keys[..|keys| - 1], keys[|keys| - 1];
      PoolStatusIs(addrs, init);
      LastKey(keys);
      AllDownIs(addrs, keys);
      AnyUpIs(addrs, keys);
      hide AnyUp, AllDown, Entry;
    }
  }

  lemma {:induction false} AnyUpIs(addrs: Addrs, keys: seq<Key>)
    ensures AnyUp(addrs, keys) <==> exists k :: k in keys && Entry(addrs, k).status == Up
  {
    if keys != [] {
      AnyUpIs(addrs, keys[..|keys| - 1]);
      LastKey(keys);
      hide Entry;
    }
  }

  lemma {:induction false} AllDownIs(addrs: Addrs, keys: seq<Key>)
    ensures AllDown(addrs, keys) <==> forall k :: k in keys ==> Entry(addrs, k).status == Down
  {
    if keys != [] {
      AllDownIs(addrs, keys[..|keys| - 1]);
      LastKey(keys);
      hide Entry;
    }
  }

  lemma LastKey(keys: seq<Key>)
    requires keys != []
    ensures forall k :: k in keys <==> k in keys[..|keys| - 1] || k == keys[|keys| - 1]
  {
    assert keys == keys[..|keys| - 1] + [keys[|keys| - 1]];
  }

  /** Sessions are drained back once an address of the active pool has been UP without interruption for the delay. */
  lemma HealthyExactlyWhen(h: Health, p: Conf, now: int, delay: int)
    requires forall k :: k in KeysOf(p) ==> Entry(h.addrs, k).upSince >= 0
    ensures HealthyFor(Refreshed(h, p), p.id, now, delay) <==>
            p.id != "" && exists k :: k in KeysOf(p) && Healthy(h.addrs, k) && now - Entry(h.addrs, k).upSince >= delay
  {
    PoolStatusIs(h.addrs, KeysOf(p));
    hide KeysOf, StatusOf, EarliestUp, Choose, Entry;
  }

  // ---- latency ----

  /** The connect times of the checks of k that count, failed ones too, since its health was forgotten. */
  function ConnectTimes(w: World, events: seq<Event>, k: Key): seq<int> {
    if events == [] then [] else
      var n := |events| - 1;
      var v, e, before := Play(w, events[..n]), events[n], ConnectTimes(w, events[..n], k);
      if Forgets(v, e, k) then [] else if AcceptedCheck(v, e, k) && e.rtt > 0 then before + [e.rtt] else before
  }

  function LastFive(times: seq<int>): seq<int> {
    if |times| > 5 then times[|times| - 5..] else times
  }

  lemma SamplesAfter(w: World, e: Event, k: Key)
    requires Legal(w, e) && Sound(w) && |Entry(w.h.addrs, k).samples| <= 5
    ensures var was, kept := Entry(w.h.addrs, k).samples, Entry(Next(w, e).h.addrs, k).samples;
            && (Forgets(w, e, k) ==> kept == [])
            && (!Forgets(w, e, k) ==> kept == if AcceptedCheck(w, e, k) && e.rtt > 0 then LastFive(was + [e.rtt]) else was)
  {
    EntryAfter(w, e, k);
    DroppedMeans(w, e, k);
    Exclusive(w, e, k);
    hide Next, AcceptedCheck, Timeout, Dropped, Legal, Sound, Leaving, Median, KeyOf;
  }

  lemma {:induction false} SamplesAre(w: World, events: seq<Event>, k: Key)
    requires Run(w, events)
    ensures Entry(Play(w, events).h.addrs, k).samples == LastFive(ConnectTimes(w, events, k))
  {
    if events != [] {
      hide Next, Legal, Begins, AcceptedCheck, Forgets, Sound, Entry;
      var n := |events| - 1;
      RunPrefix(w, events, n);
      SamplesAre(w, events[..n], k);
      SoundAt(w, events, n);
      SamplesAfter(Play(w, events[..n]), events[n], k);
    }
  }

  /** The latency of an address is the median of its last five connect times, 0 without any. */
  lemma LatencyIs(w: World, events: seq<Event>, k: Key)
    requires Run(w, events)
    ensures var h, last := Entry(Play(w, events).h.addrs, k), LastFive(ConnectTimes(w, events, k));
            h.samples == last && h.rtt == if last == [] then 0 else Median(last)
  {
    hide Run, Play, ConnectTimes, LastFive, Median, Entry;
    AlwaysMeasured(w, events, k);
    SamplesAre(w, events, k);
  }

  // ---- what a change of the pools forgets ----

  /** A switch to a pool, and its removal, make its health start over, and no check asked for before counts. */
  lemma SwitchForgets(w: World, e: Event, k: Key)
    requires Legal(w, e) && ((e.Switch? && k.pool == e.id) || (e.Remove? && k.pool == e.id))
    ensures var h := Next(Next(w, e), Settle).h;
            Entry(h.addrs, k) == FRESH && k.pool !in h.pools && Version(h, k.pool) > Version(w.h, k.pool)
  {
  }

  /** So does another login of a pool; an edit that keeps it makes the health of an address start over exactly when the
      address goes. */
  lemma EditForgets(w: World, next: Conf, a: string)
    requires Legal(w, Put(next)) && next.id in w.confs && w.confs[next.id].id == next.id && w.confs[next.id] != next
    requires a in w.confs[next.id].addrs
    ensures var h, k := Next(Next(w, Put(next)), Settle).h, KeyOf(next.id, a);
            && Version(h, next.id) > Version(w.h, next.id)
            && Entry(h.addrs, k) ==
               if w.confs[next.id].login == next.login && k in KeysOf(next) then Entry(w.h.addrs, k) else FRESH
  {
    hide Choose, StatusOf, EarliestUp;
    var was := w.confs[next.id];
    var i :| 0 <= i < |was.addrs| && was.addrs[i] == a;
    assert KeysOf(was)[i] == KeyOf(next.id, a);
  }
}
