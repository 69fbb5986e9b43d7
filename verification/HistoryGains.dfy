/** What the history holds, said by the samples alone: the rises of the counters, the seconds a worker was online, and
    the miner-seconds of the farm and of each pool. */
module HistoryGains {
  import opened HistoryPoint
  import opened HistoryRollup
  import opened HistoryRuns

  /** Counted over a run of samples; seconds are those online, or the sum of miners times seconds. */
  datatype Gain = Gain(d: real, a: int, r: int, seconds: real)

  const NOTHING := Gain(0.0, 0, 0, 0.0)

  /** A counter that went back counts from where it is. */
  function Risen(g: Gain, before: Counters, now: Counters, seconds: real): Gain {
    Gain(if now.diff > before.diff then g.d + now.diff - before.diff else g.d,
         if now.accepted > before.accepted then g.a + now.accepted - before.accepted else g.a,
         if now.rejected > before.rejected then g.r + now.rejected - before.rejected else g.r,
         g.seconds + seconds)
  }

  /** A worker is online for the whole interval at whose end it has a connection. */
  function WorkerGain(samples: seq<Sample>, lengths: seq<int>, name: string): Gain
    requires |samples| == |lengths| + 1
  {
    if lengths == [] then NOTHING else
      var n := |lengths| - 1;
      var now := samples[n + 1];
      Risen(WorkerGain(samples[..n + 1], lengths[..n], name), At(samples[n].workers, name), At(now.workers, name),
            if name in now.online && now.online[name] > 0 then lengths[n] as real else 0.0)
  }

  function PoolGain(samples: seq<Sample>, lengths: seq<int>, id: string): Gain
    requires |samples| == |lengths| + 1
  {
    if lengths == [] then NOTHING else
      var n := |lengths| - 1;
      var now := samples[n + 1];
      Risen(PoolGain(samples[..n + 1], lengths[..n], id), At(samples[n].pools, id), At(now.pools, id),
            if id in now.miners then now.miners[id] as real * lengths[n] as real else 0.0)
  }

  ghost function FarmGain(samples: seq<Sample>, lengths: seq<int>): Gain
    requires |samples| == |lengths| + 1
  {
    if lengths == [] then NOTHING else
      var n := |lengths| - 1;
      Risen(FarmGain(samples[..n + 1], lengths[..n]), samples[n].total, samples[n + 1].total,
            CountAll(samples[n + 1].miners) as real * lengths[n] as real)
  }

  /** Counters do not go below zero. */
  predicate Counts(c: Counters) {
    c.accepted >= 0 && c.rejected >= 0 && c.diff >= 0.0
  }

  predicate Sane(s: Sample) {
    && Counts(s.total) && (forall id :: id in s.pools ==> Counts(s.pools[id]))
    && forall name :: name in s.workers ==> Counts(s.workers[name])
  }

  predicate AllSane(samples: seq<Sample>) {
    forall i :: 0 <= i < |samples| ==> Sane(samples[i])
  }

  predicate Positive(lengths: seq<int>) {
    forall i :: 0 <= i < |lengths| ==> lengths[i] > 0
  }

  /** The point holds the counts and miner-seconds of the farm and, in one part, of a pool. */
  predicate Stands(p: Point, part: PoolPart, farm: Gain, pool: Gain) {
    && Gain(p.d, p.a, p.r, Mass(p.m, p.s)) == farm && Gain(part.d, part.a, part.r, Mass(part.m, p.s)) == pool
    && Proper(p) && p.s >= 0
  }

  // ---- merged differences ----

  /** What one difference adds to the counts. */
  lemma Rises(g: Gain, before: Counters, now: Counters, seconds: real)
    ensures Risen(g, before, now, seconds) ==
            Gain(g.d + NonNeg(now.diff - before.diff), g.a + Sub(now.accepted, before.accepted),
                 g.r + Sub(now.rejected, before.rejected), g.seconds + seconds)
  {
  }

  lemma WorkerPartIs(prev: Sample, cur: Sample, t: int, s: int, name: string)
    requires Sane(prev)
    ensures var part, o, c := WorkerOf(WorkersDelta(prev, cur, t, s), name), At(prev.workers, name), At(cur.workers, name);
            && part.d == NonNeg(c.diff - o.diff) && part.a == Sub(c.accepted, o.accepted) && part.r == Sub(c.rejected, o.rejected)
            && part.o == if name in cur.online && cur.online[name] > 0 then s else 0
  {
  }

  lemma PoolPartIs(prev: Sample, cur: Sample, t: int, s: int, id: string)
    requires Sane(prev)
    ensures var part, o, c := PoolOf(Delta(prev, cur, t, s), id), At(prev.pools, id), At(cur.pools, id);
            && part.d == NonNeg(c.diff - o.diff) && part.a == Sub(c.accepted, o.accepted) && part.r == Sub(c.rejected, o.rejected)
            && part.m == if id in cur.miners then cur.miners[id] as real else 0.0
  {
    hide CountAll;
  }

  /** The merged worker differences hold the rises of each worker's counters and its seconds online. */
  lemma {:induction false} WorkersAddUp(t: int, samples: seq<Sample>, times: seq<int>, lengths: seq<int>, name: string)
    requires |samples| == |times| + 1 == |lengths| + 1 && AllSane(samples)
    ensures var part := WorkerOf(Fold(t, WorkersDeltas(samples, times, lengths)), name);
            Gain(part.d, part.a, part.r, part.o as real) == WorkerGain(samples, lengths, name)
  {
    hide MergedWorkers, MergedPools, WorkersDelta, Fold, Risen, At, Sane, NonNeg, Sub;
    if times == [] {
      FoldNone(t);
    } else {
      var n := |times| - 1;
      var init := WorkersDeltas(samples[..n + 1], times[..n], lengths[..n]);
      WorkersAddUp(t, samples[..n + 1], times[..n], lengths[..n], name);
      FoldSnoc(t, init, WorkersDelta(samples[n], samples[n + 1], times[n], lengths[n]));
      StepOnline(Fold(t, init), samples[n], samples[n + 1], times[n], lengths[n],
                 WorkerGain(samples[..n + 1], lengths[..n], name), name);
    }
  }

  lemma StepOnline(sum: Point, prev: Sample, cur: Sample, t: int, s: int, g: Gain, name: string)
    requires var part := WorkerOf(sum, name); Gain(part.d, part.a, part.r, part.o as real) == g
    requires Sane(prev)
    ensures var part := WorkerOf(Add(sum, WorkersDelta(prev, cur, t, s)), name);
            Gain(part.d, part.a, part.r, part.o as real) ==
            Risen(g, At(prev.workers, name), At(cur.workers, name),
                  if name in cur.online && cur.online[name] > 0 then s as real else 0.0)
  {
    hide MergedWorkers, MergedPools, WorkersDelta, Risen, At, Mean, Sane, NonNeg, Sub, Add, AddWorker, WorkerOf;
    var step := WorkersDelta(prev, cur, t, s);
    WorkerPartIs(prev, cur, t, s, name);
    AddedWorker(sum, step, name);
    OnlineAdds(WorkerOf(sum, name), WorkerOf(step, name), g, At(prev.workers, name), At(cur.workers, name),
               if name in cur.online && cur.online[name] > 0 then s else 0);
  }

  lemma AddedWorker(p: Point, q: Point, name: string)
    ensures WorkerOf(Add(p, q), name) == AddWorker(WorkerOf(p, name), WorkerOf(q, name))
  {
    hide MergedWorkers, MergedPools, Mean, AddWorker;
    MergedWorkersAt(p.w, q.w, name);
  }

  lemma OnlineAdds(was: WorkerPart, more: WorkerPart, g: Gain, before: Counters, now: Counters, seconds: int)
    requires Gain(was.d, was.a, was.r, was.o as real) == g
    requires more == WorkerPart(NonNeg(now.diff - before.diff), Sub(now.accepted, before.accepted),
                                Sub(now.rejected, before.rejected), seconds)
    ensures var part := AddWorker(was, more);
            Gain(part.d, part.a, part.r, part.o as real) == Risen(g, before, now, seconds as real)
  {
  }

  /** The merged differences hold the rises of the farm's counters and of each pool's, and their miner-seconds. */
  lemma {:induction false} PoolsAddUp(t: int, samples: seq<Sample>, times: seq<int>, lengths: seq<int>, id: string)
    requires |samples| == |times| + 1 == |lengths| + 1 && Positive(lengths) && AllSane(samples)
    ensures var sum := Fold(t, Deltas(samples, times, lengths));
            Stands(sum, PoolOf(sum, id), FarmGain(samples, lengths), PoolGain(samples, lengths, id))
  {
    hide MergedWorkers, MergedPools, Delta, Fold, Risen, At, Mean, Sane, Mass, Add, Proper, NonNeg, Sub, Stands, PoolOf;
    if times == [] {
      FoldNone(t);
    } else {
      var n := |times| - 1;
      var init, step := Deltas(samples[..n + 1], times[..n], lengths[..n]), Delta(samples[n], samples[n + 1], times[n], lengths[n]);
      PoolsAddUp(t, samples[..n + 1], times[..n], lengths[..n], id);
      FoldSnoc(t, init, step);
      var farm, pool := FarmGain(samples[..n + 1], lengths[..n]), PoolGain(samples[..n + 1], lengths[..n], id);
      StepAddsUp(Fold(t, init), samples[n], samples[n + 1], times[n], lengths[n], farm, pool, id);
    }
  }

  lemma FoldNone(t: int)
    ensures Fold(t, []) == Empty(t) && forall x: string :: PoolOf(Empty(t), x) == NO_POOL && WorkerOf(Empty(t), x) == NO_WORKER
    ensures Stands(Empty(t), NO_POOL, NOTHING, NOTHING)
  {
  }

  lemma StepAddsUp(sum: Point, prev: Sample, cur: Sample, t: int, s: int, farm: Gain, pool: Gain, id: string)
    requires Stands(sum, PoolOf(sum, id), farm, pool) && Sane(prev) && s > 0
    ensures var after := Add(sum, Delta(prev, cur, t, s));
            Stands(after, PoolOf(after, id),
                   Risen(farm, prev.total, cur.total, CountAll(cur.miners) as real * s as real),
                   Risen(pool, At(prev.pools, id), At(cur.pools, id),
                         if id in cur.miners then cur.miners[id] as real * s as real else 0.0))
  {
    hide MergedWorkers, MergedPools, Delta, Risen, At, Mean, Sane, Mass, Add, NonNeg, Sub, CountAll;
    var step := Delta(prev, cur, t, s);
    FarmPart(prev, cur, t, s);
    AddIsProper(sum, step);
    AddCounts(sum, step);
    FarmStep(sum, prev, cur, t, s, farm);
    PoolStep(sum, prev, cur, t, s, pool, id);
    var after := Add(sum, step);
    assert Gain(after.d, after.a, after.r, Mass(after.m, after.s)) ==
           Risen(farm, prev.total, cur.total, CountAll(cur.miners) as real * s as real);
  }

  lemma FarmStep(sum: Point, prev: Sample, cur: Sample, t: int, s: int, g: Gain)
    requires Gain(sum.d, sum.a, sum.r, Mass(sum.m, sum.s)) == g && Proper(sum) && s > 0
    ensures var after := Add(sum, Delta(prev, cur, t, s));
            Gain(after.d, after.a, after.r, Mass(after.m, after.s)) ==
            Risen(g, prev.total, cur.total, CountAll(cur.miners) as real * s as real)
  {
    hide MergedWorkers, MergedPools, Delta, Risen, Mean, Mass, Add, NonNeg, Sub, CountAll;
    var step := Delta(prev, cur, t, s);
    FarmPart(prev, cur, t, s);
    AddCounts(sum, step);
    AddKeepsMinerSeconds(sum, step, "");
    MassIs(CountAll(cur.miners) as real, s);
    Rises(g, prev.total, cur.total, CountAll(cur.miners) as real * s as real);
    var after := Add(sum, step);
    assert after.d == g.d + NonNeg(cur.total.diff - prev.total.diff);
    assert after.a == g.a + Sub(cur.total.accepted, prev.total.accepted);
    assert Mass(after.m, after.s) == g.seconds + Mass(step.m, step.s);
    assert Mass(step.m, step.s) == CountAll(cur.miners) as real * s as real;
  }

  lemma PoolStep(sum: Point, prev: Sample, cur: Sample, t: int, s: int, g: Gain, id: string)
    requires var part := PoolOf(sum, id); Gain(part.d, part.a, part.r, Mass(part.m, sum.s)) == g
    requires Proper(sum) && Sane(prev) && s > 0
    ensures var after := Add(sum, Delta(prev, cur, t, s)); var part := PoolOf(after, id);
            Gain(part.d, part.a, part.r, Mass(part.m, after.s)) ==
            Risen(g, At(prev.pools, id), At(cur.pools, id), if id in cur.miners then cur.miners[id] as real * s as real else 0.0)
  {
    hide MergedWorkers, MergedPools, Delta, Risen, At, Mean, Sane, Mass, Add, NonNeg, Sub, CountAll;
    var step := Delta(prev, cur, t, s);
    FarmPart(prev, cur, t, s);
    PoolPartIs(prev, cur, t, s, id);
    AddCounts(sum, step);
    MergedPoolsAt(sum.p, sum.s, step.p, step.s, id);
    AddKeepsMinerSeconds(sum, step, id);
    MassIs(PoolOf(step, id).m, s);
    var seconds := if id in cur.miners then cur.miners[id] as real * s as real else 0.0;
    Rises(g, At(prev.pools, id), At(cur.pools, id), seconds);
    var after, part := Add(sum, step), PoolOf(Add(sum, step), id);
    assert Mass(part.m, after.s) == g.seconds + Mass(PoolOf(step, id).m, s);
    assert Mass(PoolOf(step, id).m, s) == seconds;
    assert part.d == g.d + PoolOf(step, id).d && part.a == g.a + PoolOf(step, id).a && part.r == g.r + PoolOf(step, id).r;
  }

  lemma MassIs(x: real, s: int)
    ensures Mass(x, s) == x * s as real && Mass(0.0, s) == 0.0
  {
  }

  lemma AddCounts(p: Point, q: Point)
    ensures var sum := Add(p, q);
            sum.s == p.s + q.s && sum.d == p.d + q.d && sum.a == p.a + q.a && sum.r == p.r + q.r
            && sum.p == MergedPools(p.p, p.s, q.p, q.s) && sum.w == MergedWorkers(p.w, q.w)
  {
    hide Mean, MergedPools, MergedWorkers;
  }

  lemma FarmPart(prev: Sample, cur: Sample, t: int, s: int)
    ensures var p := Delta(prev, cur, t, s);
            && p.s == s && p.d == NonNeg(cur.total.diff - prev.total.diff) && p.a == Sub(cur.total.accepted, prev.total.accepted)
            && p.r == Sub(cur.total.rejected, prev.total.rejected) && p.m == CountAll(cur.miners) as real
  {
    hide CountAll, PoolDelta, NonNeg, Sub;
  }

  // ---- on disk and in memory ----

  /** Without a crash the fine points and the interval being filled merge to what the minutes merge to. */
  lemma FineHoldsAll(ps: seq<Point>, step: int, ends: seq<int>)
    requires step > 0 && |ps| == |ends| && forall i :: 0 <= i < |ps| ==> ps[i].s > 0
    ensures var (e, k) := Minutes(Disk([], []), NO_MEMORY, ps, step, ends);
            Fold(0, Recorded(e, k)) == Fold(0, ps)
  {
    MinutesAreKept(Disk([], []), NO_MEMORY, ps, step, ends);
    FoldIsProper(0, ps);
    AddToEmpty(0, Fold(0, ps));
    assert Recorded(Disk([], []), NO_MEMORY) == [];
    hide Add, Minutes;
  }

  /** Over a run without a crash a worker's online seconds and rises are all on disk or in memory. */
  lemma WorkersAreRecorded(samples: seq<Sample>, starts: seq<int>, lengths: seq<int>, ends: seq<int>, step: int, name: string)
    requires |samples| == |starts| + 1 == |lengths| + 1 == |ends| + 1 && step > 0 && Positive(lengths) && AllSane(samples)
    ensures var (e, k) := Minutes(Disk([], []), NO_MEMORY, WorkersDeltas(samples, starts, lengths), step, ends);
            var part := WorkerOf(Fold(0, Recorded(e, k)), name);
            Gain(part.d, part.a, part.r, part.o as real) == WorkerGain(samples, lengths, name)
  {
    hide Add, Minutes, Fold, WorkerGain, Sane;
    WorkersDeltasLengths(samples, starts, lengths);
    FineHoldsAll(WorkersDeltas(samples, starts, lengths), step, ends);
    WorkersAddUp(0, samples, starts, lengths, name);
  }

  /** And so are the miner-seconds and rises of the farm and of every pool. */
  lemma MinersAreRecorded(samples: seq<Sample>, starts: seq<int>, lengths: seq<int>, ends: seq<int>, step: int, id: string)
    requires |samples| == |starts| + 1 == |lengths| + 1 == |ends| + 1 && step > 0 && Positive(lengths) && AllSane(samples)
    ensures var (e, k) := Minutes(Disk([], []), NO_MEMORY, Deltas(samples, starts, lengths), step, ends);
            var sum := Fold(0, Recorded(e, k));
            Stands(sum, PoolOf(sum, id), FarmGain(samples, lengths), PoolGain(samples, lengths, id))
  {
    hide Add, Minutes, Fold, FarmGain, PoolGain, Sane;
    DeltasLengths(samples, starts, lengths);
    FineHoldsAll(Deltas(samples, starts, lengths), step, ends);
    PoolsAddUp(0, samples, starts, lengths, id);
  }
}
