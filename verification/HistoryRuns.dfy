/** Whole runs of the history recorder: starts, records, stops, pruning and crashes in any order. */
module HistoryRuns {
  import opened HistoryPoint
  import opened HistoryRollup

  /** One series of the recorder; `at` is the time of the last event, in nanoseconds. */
  datatype World = World(disk: Disk, running: bool, memory: Memory, at: int)

  /** `done` is how many of the appends of the event happened; fewer than all of them is a crash. */
  datatype Event =
    | Boot(now: int, done: nat)
    | Record(now: int, p: Point, done: nat)
    | Halt(now: int, p: Point, done: nat)
    | Prune(fineBefore: int, coarseBefore: int)
    | Crash

  const NO_MEMORY := Memory(Empty(0), Empty(0))

  /** The interval a record covers: from the minute of the previous record on, rounded to seconds. */
  function Covering(p: Point, at: int, now: int): Point {
    p.(t := Start(at / NS, 60), s := (now - at + NS / 2) / NS)
  }

  function Recording(w: World, now: int, p: Point, step: int): Outcome
    requires step > 0
  {
    if now <= w.at then Outcome([], w.memory)
    else AddMinute(w.memory, Covering(p, w.at, now), step, now / NS)
  }

  /** The interval being filled, when there is one. */
  function Rest(m: Memory): seq<Write> {
    if m.cur.s > 0 then [ToFine(m.cur)] else []
  }

  /** The appends of a stop: those of the last record, then the interval being filled. */
  function Finish(o: Outcome): seq<Write> {
    o.writes + Rest(o.memory)
  }

  function Stopping(w: World, now: int, p: Point, step: int): seq<Write>
    requires step > 0
  {
    Finish(Recording(w, now, p, step))
  }

  /** The world after an operation of which the first `done` appends happened. */
  function After(w: World, o: Outcome, done: nat, now: int): World {
    if done < |o.writes| then World(Replay(w.disk, o.writes[..done]), false, NO_MEMORY, now)
    else World(Replay(w.disk, o.writes), true, o.memory, now)
  }

  function Next(w: World, e: Event, step: int, keep: int): World
    requires step > 0
  {
    match e
    case Boot(now, done) => After(w, HistoryRollup.Recover(w.disk, step, keep, now / NS), done, now)
    case Record(now, p, done) => After(w, Recording(w, now, p, step), done, Max(w.at, now))
    case Halt(now, p, done) =>
      var ws := Stopping(w, now, p, step);
      World(Replay(w.disk, if done < |ws| then ws[..done] else ws), false, NO_MEMORY, Max(w.at, now))
    case Prune(fineBefore, coarseBefore) => w.(disk := Pruned(w.disk, fineBefore, coarseBefore, w.at / NS))
    case Crash => w.(running := false, memory := NO_MEMORY)
  }

  /** The clock does not go back over a restart, records are at least half a second apart (or come too
      early and do nothing), and only what is older than the retention is deleted. */
  predicate Allowed(w: World, e: Event, keep: int) {
    match e
    case Boot(now, _) => !w.running && w.at <= now
    case Record(now, _, _) => w.running && (now <= w.at || now - w.at >= NS / 2)
    case Halt(now, _, _) => w.running && (now <= w.at || now - w.at >= NS / 2)
    case Prune(fineBefore, coarseBefore) =>
      w.running && fineBefore <= w.at / NS - keep && coarseBefore <= w.at / NS - keep
    case Crash => true
  }

  ghost predicate Inv(w: World, step: int, keep: int) {
    var t := w.at / NS;
    && StepOk(step) && keep >= DAY && HOUR <= t
    && DiskInv(w.disk, t - keep, t)
    && (w.running ==> RunInv(w.disk, w.memory, step, t - keep, t))
  }

  lemma RunInvLater(d: Disk, m: Memory, step: int, cut: int, cut': int, now: int)
    requires step > 0 && RunInv(d, m, step, cut, now) && cut <= cut'
    ensures RunInv(d, m, step, cut', now)
  {
    hide HistoryRollup.InHour, Newest, CoarseAt, Fold;
  }

  lemma SafeLater(d: Disk, ws: seq<Write>, cut: int, cut': int, now: int)
    requires SafeAppends(d, ws, cut, now) && cut <= cut'
    ensures SafeAppends(d, ws, cut', now)
  {
    forall k | 0 <= k <= |ws| ensures DiskInv(Replay(d, ws[..k]), cut', now) {
      DiskInvLater(Replay(d, ws[..k]), cut, now, cut', now);
    }
  }

  lemma RecordingKeeps(w: World, now: int, p: Point, step: int, keep: int)
    requires Inv(w, step, keep) && w.running
    requires now <= w.at || now - w.at >= NS / 2
    ensures var o := Recording(w, now, p, step);
            var t := Max(w.at, now) / NS;
            && SafeAppends(w.disk, o.writes, t - keep, t)
            && RunInv(Replay(w.disk, o.writes), o.memory, step, t - keep, t)
  {
    hide AddMinute, SafeAppends, RunInv, DiskInv;
    var t, end := w.at / NS, now / NS;
    if now <= w.at {
      RunInvHasDisk(w.disk, w.memory, step, t - keep, t);
      StartsSafe(w.disk, t - keep, t);
    } else {
      MinuteKeeps(w.disk, w.memory, Covering(p, w.at, now), step, t - keep, t, end);
      var o := AddMinute(w.memory, Covering(p, w.at, now), step, end);
      SafeLater(w.disk, o.writes, t - keep, end - keep, end);
      RunInvLater(Replay(w.disk, o.writes), o.memory, step, t - keep, end - keep, end);
    }
  }

  lemma RunInvHasDisk(d: Disk, m: Memory, step: int, cut: int, now: int)
    requires step > 0 && RunInv(d, m, step, cut, now)
    ensures DiskInv(d, cut, now)
  {
  }

  lemma StoppingKeeps(w: World, now: int, p: Point, step: int, keep: int)
    requires Inv(w, step, keep) && w.running
    requires now <= w.at || now - w.at >= NS / 2
    ensures var t := Max(w.at, now) / NS;
            SafeAppends(w.disk, Stopping(w, now, p, step), t - keep, t)
  {
    hide Recording, SafeAppends, RunInv, DiskInv, Apply;
    var o := Recording(w, now, p, step);
    var t := Max(w.at, now) / NS;
    RecordingKeeps(w, now, p, step, keep);
    if o.memory.cur.s > 0 {
      CurAppends(Replay(w.disk, o.writes), o.memory, step, t - keep, t);
      SafeAppendsSnoc(w.disk, o.writes, ToFine(o.memory.cur), t - keep, t);
    } else {
      assert o.writes + [] == o.writes;
    }
  }

  lemma CurAppends(d: Disk, m: Memory, step: int, cut: int, t: int)
    requires StepOk(step) && HOUR <= t && RunInv(d, m, step, cut, t) && m.cur.s > 0
    ensures DiskInv(Apply(d, ToFine(m.cur)), cut, t)
  {
    hide HistoryRollup.InHour, Newest, CoarseAt, Fold;
    MinuteInside(t, step);
    NewestIsOver(d, t);
    FineAppend(d, m.cur, cut, t);
  }

  lemma AfterKeeps(w: World, o: Outcome, done: nat, now: int, step: int, keep: int)
    requires StepOk(step) && keep >= DAY && HOUR <= now / NS
    requires SafeAppends(w.disk, o.writes, now / NS - keep, now / NS)
    requires RunInv(Replay(w.disk, o.writes), o.memory, step, now / NS - keep, now / NS)
    ensures Inv(After(w, o, done, now), step, keep)
  {
  }

  /** One event, crash or not, keeps the invariant. */
  lemma NextKeeps(w: World, e: Event, step: int, keep: int)
    requires Inv(w, step, keep) && Allowed(w, e, keep)
    ensures Inv(Next(w, e, step, keep), step, keep)
  {
    hide SafeAppends, RunInv, DiskInv, Replay, Recording, HistoryRollup.Recover, Pruned, After, Stopping;
    var t := w.at / NS;
    match e
    case Boot(now, done) =>
      RecoverKeeps(w.disk, step, keep, t - keep, t, now / NS);
      AfterKeeps(w, HistoryRollup.Recover(w.disk, step, keep, now / NS), done, now, step, keep);
    case Record(now, p, done) =>
      RecordingKeeps(w, now, p, step, keep);
      AfterKeeps(w, Recording(w, now, p, step), done, Max(w.at, now), step, keep);
    case Halt(now, p, done) =>
      StoppingKeeps(w, now, p, step, keep);
      PrefixIsSafe(w.disk, Stopping(w, now, p, step), done, Max(w.at, now) / NS - keep, Max(w.at, now) / NS);
    case Prune(fineBefore, coarseBefore) =>
      PruneKeeps(w.disk, w.memory, step, t - keep, t, fineBefore, coarseBefore);
      RunInvHasDisk(Pruned(w.disk, fineBefore, coarseBefore, t), w.memory, step, t - keep, t);
    case Crash =>
  }

  lemma PrefixIsSafe(d: Disk, ws: seq<Write>, done: nat, cut: int, now: int)
    requires SafeAppends(d, ws, cut, now)
    ensures DiskInv(Replay(d, if done < |ws| then ws[..done] else ws), cut, now)
  {
    hide DiskInv;
    assert ws[..|ws|] == ws;
  }

  function Run(w: World, events: seq<Event>, step: int, keep: int): World
    requires step > 0
  {
    if events == [] then w else Next(Run(w, events[..|events| - 1], step, keep), events[|events| - 1], step, keep)
  }

  ghost predicate AllAllowed(w: World, events: seq<Event>, step: int, keep: int)
    requires step > 0
  {
    forall i :: 0 <= i < |events| ==> Allowed(Run(w, events[..i], step, keep), events[i], keep)
  }

  lemma {:induction false} RunKeeps(w: World, events: seq<Event>, step: int, keep: int)
    requires Inv(w, step, keep) && AllAllowed(w, events, step, keep)
    ensures Inv(Run(w, events, step, keep), step, keep)
  {
    if events != [] {
      var init, last := events[..|events| - 1], events[|events| - 1];
      forall i | 0 <= i < |init| ensures Allowed(Run(w, init[..i], step, keep), init[i], keep) {
        assert init[..i] == events[..i];
      }
      RunKeeps(w, init, step, keep);
      NextKeeps(Run(w, init, step, keep), last, step, keep);
    }
  }

  /** The hour in memory, if it is the one that starts at ct. */
  function InMemory(w: World, ct: int): seq<Point> {
    if w.running && w.memory.acc.s > 0 && w.memory.acc.t == ct then [w.memory.acc] else []
  }

  /** In every run from an empty disk, with crashes between any two appends, the running proxy has rolled
      up each hour inside the fine retention exactly once: its hourly points on disk and in memory are
      one point that merges its fine points on disk, or none when it has none. */
  lemma ExactlyOnce(at: int, events: seq<Event>, step: int, keep: int, ct: int)
    requires StepOk(step) && keep >= DAY && HOUR <= at / NS && OnHour(ct)
    requires var w := World(Disk([], []), false, NO_MEMORY, at);
             && AllAllowed(w, events, step, keep)
             && var e := Run(w, events, step, keep);
                e.running && e.at / NS - keep <= ct
    ensures var e := Run(World(Disk([], []), false, NO_MEMORY, at), events, step, keep);
            CoarseAt(e.disk.coarse, ct) + InMemory(e, ct) == HourPoint(e.disk.fine, ct)
  {
    var w := World(Disk([], []), false, NO_MEMORY, at);
    RunKeeps(w, events, step, keep);
    OnceInOneOfThem(Run(w, events, step, keep), step, keep, ct);
  }

  lemma OnceInOneOfThem(w: World, step: int, keep: int, ct: int)
    requires Inv(w, step, keep) && w.running && w.at / NS - keep <= ct && OnHour(ct)
    ensures CoarseAt(w.disk.coarse, ct) + InMemory(w, ct) == HourPoint(w.disk.fine, ct)
  {
    hide HistoryRollup.InHour, Newest, CoarseAt, Fold;
    var t := w.at / NS;
    NewestIsOver(w.disk, t);
    if ct <= Newest(w.disk.coarse) {
      assert InMemory(w, ct) == [];
    } else {
      NewestBounds(w.disk.coarse);
      CoarseAtNone(w.disk.coarse, ct);
      if InHour(w.disk.fine, ct) == [] {
        assert InMemory(w, ct) == [];
      }
    }
  }

  /** After a crash at any point, the disk still has every hour up to the newest one right. */
  lemma CrashLeavesHoursRight(at: int, events: seq<Event>, step: int, keep: int, ct: int)
    requires StepOk(step) && keep >= DAY && HOUR <= at / NS && OnHour(ct)
    requires AllAllowed(World(Disk([], []), false, NO_MEMORY, at), events, step, keep)
    requires var e := Run(World(Disk([], []), false, NO_MEMORY, at), events, step, keep);
             e.at / NS - keep <= ct <= Newest(e.disk.coarse)
    ensures var e := Run(World(Disk([], []), false, NO_MEMORY, at), events, step, keep);
            CoarseAt(e.disk.coarse, ct) == HourPoint(e.disk.fine, ct)
  {
    RunKeeps(World(Disk([], []), false, NO_MEMORY, at), events, step, keep);
  }

  // ---- conservation ----

  /** All points of the fine tier, with the interval being filled. */
  function Recorded(d: Disk, m: Memory): seq<Point> {
    d.fine + if m.cur.s > 0 then [m.cur] else []
  }

  ghost predicate Sound(d: Disk, m: Memory) {
    AllProper(d.fine) && Proper(m.cur)
  }

  lemma FlushRecords(d: Disk, m: Memory, end: int)
    requires Sound(d, m) && m.cur.s > 0
    ensures Recorded(Replay(d, Flush(m, end).writes), Flush(m, end).memory) == Recorded(d, m)
    ensures Sound(Replay(d, Flush(m, end).writes), Flush(m, end).memory)
    ensures Flush(m, end).memory.cur.s == 0
  {
    hide Add;
    var ws := Flush(m, end).writes;
    FineOfWrites(d, ws, m.cur);
  }

  lemma FineOfWrites(d: Disk, ws: seq<Write>, p: Point)
    requires |ws| > 0 && ws[0] == ToFine(p) && forall i :: 1 <= i < |ws| ==> ws[i].ToCoarse?
    ensures Replay(d, ws).fine == d.fine + [p]
    decreases |ws|
  {
    if |ws| == 1 {
      assert ws[..0] == [];
    } else {
      FineOfWrites(d, ws[..|ws| - 1], p);
    }
  }

  lemma CurrentRecords(d: Disk, m: Memory, p: Point, step: int, end: int)
    requires step > 0 && Sound(d, m) && p.s > 0
    ensures var o := AddToCurrent(m, p, step, end);
            && Sound(Replay(d, o.writes), o.memory)
            && Fold(0, Recorded(Replay(d, o.writes), o.memory)) == Add(Fold(0, Recorded(d, m)), p)
  {
    hide Add, Fold, Flush;
    var from := if m.cur.s == 0 then Empty(Start(p.t, step)) else m.cur;
    var cur := Add(from, p);
    var m1 := m.(cur := cur);
    AddedSeconds(from, p);
    if end >= cur.t + step {
      FlushRecords(d, m1, end);
    } else {
      assert Replay(d, []) == d;
    }
    FoldIsProper(0, d.fine);
    FoldSnoc(0, d.fine, cur);
    if m.cur.s == 0 {
      AddToEmpty(Start(p.t, step), p);
      AddIgnoresStart(Fold(0, d.fine), p, Start(p.t, step));
      assert d.fine + [] == d.fine;
    } else {
      FoldSnoc(0, d.fine, m.cur);
      AddAssociates(Fold(0, d.fine), m.cur, p);
    }
  }

  lemma AddIgnoresStart(p: Point, q: Point, t: int)
    ensures Add(p, q.(t := t)) == Add(p, q)
  {
  }

  /** A recorded minute is kept: whatever is flushed on the way, the fine tier gains exactly p. */
  lemma MinuteIsKept(d: Disk, m: Memory, p: Point, step: int, end: int)
    requires step > 0 && Sound(d, m) && p.s > 0
    ensures var o := AddMinute(m, p, step, end);
            && Sound(Replay(d, o.writes), o.memory)
            && Fold(0, Recorded(Replay(d, o.writes), o.memory)) == Add(Fold(0, Recorded(d, m)), p)
  {
    hide Add, Fold, Flush, AddToCurrent;
    if m.cur.s > 0 && m.cur.t != Start(p.t, step) {
      var gap := Flush(m, end);
      FlushRecords(d, m, end);
      CurrentRecords(Replay(d, gap.writes), gap.memory, p, step, end);
      ReplayConcat(d, gap.writes, AddToCurrent(gap.memory, p, step, end).writes);
    } else {
      CurrentRecords(d, m, p, step, end);
    }
  }

  /** The disk and the memory after the minutes ps, recorded without a crash; minute i ends at ends[i]. */
  function Minutes(d: Disk, m: Memory, ps: seq<Point>, step: int, ends: seq<int>): (Disk, Memory)
    requires step > 0 && |ps| == |ends|
  {
    if ps == [] then (d, m) else
      var n := |ps| - 1;
      var (e, k) := Minutes(d, m, ps[..n], step, ends[..n]);
      var o := AddMinute(k, ps[n], step, ends[n]);
      (Replay(e, o.writes), o.memory)
  }

  lemma {:induction false} MinutesAreKept(d: Disk, m: Memory, ps: seq<Point>, step: int, ends: seq<int>)
    requires step > 0 && |ps| == |ends| && Sound(d, m)
    requires forall i :: 0 <= i < |ps| ==> ps[i].s > 0
    ensures var (e, k) := Minutes(d, m, ps, step, ends);
            Sound(e, k) && Fold(0, Recorded(e, k)) == Add(Fold(0, Recorded(d, m)), Fold(0, ps))
  {
    hide Add, AddMinute, Replay;
    if ps == [] {
      RecordedIsProper(d, m);
      AddEmpty(Fold(0, Recorded(d, m)), 0);
    } else {
      var n := |ps| - 1;
      MinutesAreKept(d, m, ps[..n], step, ends[..n]);
      var (e, k) := Minutes(d, m, ps[..n], step, ends[..n]);
      MinuteIsKept(e, k, ps[n], step, ends[n]);
      RecordedIsProper(d, m);
      FoldIsProper(0, ps[..n]);
      AddAssociates(Fold(0, Recorded(d, m)), Fold(0, ps[..n]), ps[n]);
    }
  }

  lemma RecordedIsProper(d: Disk, m: Memory)
    requires Sound(d, m)
    ensures Proper(Fold(0, Recorded(d, m)))
  {
    FoldIsProper(0, Recorded(d, m));
  }

  /** Without a crash nothing is lost: from the start of an empty history on, the fine points and the
      interval being filled add up to what the counters gained, in total and for every pool. */
  lemma NothingIsLost(samples: seq<Sample>, starts: seq<int>, lengths: seq<int>, ends: seq<int>, step: int, id: string)
    requires |samples| == |starts| + 1 == |lengths| + 1 == |ends| + 1 && step > 0
    requires AllGrow(samples) && forall i :: 0 <= i < |lengths| ==> lengths[i] > 0
    ensures var ps := Deltas(samples, starts, lengths);
            var (e, k) := Minutes(Disk([], []), NO_MEMORY, ps, step, ends);
            var sum := Fold(0, Recorded(e, k));
            var first, last := samples[0], samples[|starts|];
            && Gained(sum.d, sum.a, sum.r, first.total, last.total)
            && Gained(PoolOf(sum, id).d, PoolOf(sum, id).a, PoolOf(sum, id).r, At(first.pools, id), At(last.pools, id))
  {
    hide Add, Gained, Minutes;
    var ps := Deltas(samples, starts, lengths);
    DeltasLengths(samples, starts, lengths);
    MinutesAreKept(Disk([], []), NO_MEMORY, ps, step, ends);
    DeltasConserve(0, samples, starts, lengths, id);
    FoldIsProper(0, ps);
    AddToEmpty(0, Fold(0, ps));
    assert Fold(0, Recorded(Disk([], []), NO_MEMORY)) == Empty(0);
  }

  lemma {:induction false} DeltasLengths(samples: seq<Sample>, starts: seq<int>, lengths: seq<int>)
    requires |samples| == |starts| + 1 == |lengths| + 1
    ensures forall i :: 0 <= i < |starts| ==> Deltas(samples, starts, lengths)[i].s == lengths[i]
  {
    if starts != [] {
      var n := |starts| - 1;
      DeltasLengths(samples[..n + 1], starts[..n], lengths[..n]);
    }
  }

  /** The same for every worker of the workers series. */
  lemma NoWorkerIsLost(samples: seq<Sample>, starts: seq<int>, lengths: seq<int>, ends: seq<int>, step: int, name: string)
    requires |samples| == |starts| + 1 == |lengths| + 1 == |ends| + 1 && step > 0
    requires AllGrow(samples) && forall i :: 0 <= i < |lengths| ==> lengths[i] > 0
    ensures var ps := WorkersDeltas(samples, starts, lengths);
            var (e, k) := Minutes(Disk([], []), NO_MEMORY, ps, step, ends);
            var part := WorkerOf(Fold(0, Recorded(e, k)), name);
            Gained(part.d, part.a, part.r, At(samples[0].workers, name), At(samples[|starts|].workers, name))
  {
    hide Add, Gained, Minutes;
    var ps := WorkersDeltas(samples, starts, lengths);
    WorkersDeltasLengths(samples, starts, lengths);
    MinutesAreKept(Disk([], []), NO_MEMORY, ps, step, ends);
    WorkersDeltasConserve(0, samples, starts, lengths, name);
    FoldIsProper(0, ps);
    AddToEmpty(0, Fold(0, ps));
    assert Fold(0, Recorded(Disk([], []), NO_MEMORY)) == Empty(0);
  }

  lemma {:induction false} WorkersDeltasLengths(samples: seq<Sample>, starts: seq<int>, lengths: seq<int>)
    requires |samples| == |starts| + 1 == |lengths| + 1
    ensures forall i :: 0 <= i < |starts| ==> WorkersDeltas(samples, starts, lengths)[i].s == lengths[i]
  {
    if starts != [] {
      var n := |starts| - 1;
      WorkersDeltasLengths(samples[..n + 1], starts[..n], lengths[..n]);
    }
  }
}
