/** Where a recorded minute goes: into the fine interval and the bucket that it began in, and nowhere else. */
module HistoryCharts {
  import opened HistoryPoint
  import opened HistoryRollup
  import opened HistoryRuns
  import opened HistoryQuery

  // ---- fine intervals ----

  /** The interval being filled begins at a multiple of the step. */
  predicate Aligned(m: Memory, step: int)
    requires step > 0
  {
    m.cur.s > 0 ==> m.cur.t % step == 0
  }

  /** What the fine points and the interval being filled hold for the interval that begins at u. */
  function HeldAt(d: Disk, m: Memory, u: int): Point {
    Fold(0, Within(Recorded(d, m), u, u + 1))
  }

  lemma StartIsOnly(t: int, step: int, u: int)
    requires step > 0 && u % step == 0
    ensures Start(t, step) % step == 0 && (Start(t, step) == u <==> u <= t < u + step)
  {
    Floored(t, step);
    if Start(t, step) < u {
      NextMultiple(Start(t, step), u, step);
    } else if u < Start(t, step) {
      NextMultiple(u, Start(t, step), step);
    }
  }

  lemma Floored(t: int, step: int)
    requires step > 0
    ensures Start(t, step) % step == 0 && Start(t, step) <= t < Start(t, step) + step
  {
    var q := t / step;
    assert t == step * q + t % step;
    MultipleOf(step, q);
  }

  lemma NextMultiple(x: int, y: int, step: int)
    requires step > 0 && x % step == 0 && y % step == 0 && x < y
    ensures x + step <= y
  {
    var q, r := x / step, y / step;
    assert x == step * q && y == step * r;
    if r <= q {
      MulMono(r, q, step);
    } else {
      MulMono(q + 1, r, step);
    }
  }

  lemma {:induction false} WithinProper(pts: seq<Point>, from: int, end: int)
    requires AllProper(pts)
    ensures AllProper(Within(pts, from, end))
  {
    if pts != [] {
      WithinProper(pts[..|pts| - 1], from, end);
    }
  }

  /** The interval that p is added to is the last of the recorded ones. */
  lemma CurrentIsLast(d: Disk, m: Memory, p: Point, step: int, end: int)
    requires step > 0 && Sound(d, m) && p.s > 0
    ensures var cur := Add(if m.cur.s == 0 then Empty(Start(p.t, step)) else m.cur, p);
            var o := AddToCurrent(m, p, step, end);
            && Recorded(Replay(d, o.writes), o.memory) == d.fine + [cur]
            && (o.memory.cur == cur || o.memory.cur.s == 0)
  {
    assert m.cur.s >= 0;
    hide Add, Flush, Start, Proper;
    var from := if m.cur.s == 0 then Empty(Start(p.t, step)) else m.cur;
    var cur := Add(from, p);
    AddedSeconds(from, p);
    if end >= cur.t + step {
      ProperSum(m, from, p);
      AddIsProper(from, p);
      FlushRecords(d, m.(cur := cur), end);
    } else {
      assert Replay(d, []) == d;
    }
  }

  lemma ProperSum(m: Memory, from: Point, p: Point)
    requires Proper(m.cur) && p.s > 0 && (from == m.cur || from == Empty(from.t))
    ensures Proper(from) && Proper(p)
  {
  }

  lemma CurrentLands(d: Disk, m: Memory, p: Point, step: int, end: int, u: int)
    requires step > 0 && Sound(d, m) && p.s > 0 && u % step == 0 && (m.cur.s > 0 ==> m.cur.t == Start(p.t, step))
    ensures var o := AddToCurrent(m, p, step, end);
            && Sound(Replay(d, o.writes), o.memory) && Aligned(o.memory, step)
            && HeldAt(Replay(d, o.writes), o.memory, u) == if u <= p.t < u + step then Add(HeldAt(d, m, u), p) else HeldAt(d, m, u)
  {
    assert m.cur.s >= 0 && Proper(m.cur) && AllProper(d.fine);
    hide Add, Fold, AddToCurrent, Replay, Start, Within, Proper, AllProper, HeldAt, Sound;
    StartIsOnly(p.t, step, u);
    CurrentRecords(d, m, p, step, end);
    CurrentIsLast(d, m, p, step, end);
    var from := if m.cur.s == 0 then Empty(Start(p.t, step)) else m.cur;
    AddedSeconds(from, p);
    LandsAt(d.fine, m.cur, from, p, u);
    var o := AddToCurrent(m, p, step, end);
    HeldIs(d, m, u, d.fine + if m.cur.s > 0 then [m.cur] else []);
    HeldIs(Replay(d, o.writes), o.memory, u, d.fine + [Add(from, p)]);
    hide HeldAt, Recorded, Sound;
  }

  lemma HeldIs(d: Disk, m: Memory, u: int, all: seq<Point>)
    requires Recorded(d, m) == all
    ensures HeldAt(d, m, u) == Fold(0, Within(all, u, u + 1))
  {
  }

  /** Adding p to the last interval changes what is held for its start, and nothing else. */
  lemma LandsAt(fine: seq<Point>, cur: Point, from: Point, p: Point, u: int)
    requires AllProper(fine) && Proper(cur) && p.s > 0 && from == if cur.s == 0 then Empty(from.t) else cur
    ensures Fold(0, Within(fine + [Add(from, p)], u, u + 1)) ==
            var before := Fold(0, Within(fine + if cur.s > 0 then [cur] else [], u, u + 1));
            if from.t == u then Add(before, p) else before
  {
    hide Add, Fold, Within, Proper;
    AddedSeconds(from, p);
    WithinSnoc(fine, Add(from, p), u, u + 1);
    WithinSnoc(fine, cur, u, u + 1);
    assert fine + [] == fine;
    if from.t == u {
      Landed(fine, cur, from, p, u);
    }
  }

  lemma Landed(fine: seq<Point>, cur: Point, from: Point, p: Point, u: int)
    requires AllProper(fine) && Proper(cur) && p.s > 0 && from == if cur.s == 0 then Empty(from.t) else cur
    ensures var there := Within(fine, u, u + 1);
            && Fold(0, there + [Add(from, p)]) == Add(Fold(0, if cur.s > 0 then there + [cur] else there), p)
  {
    hide Add, Fold, Within;
    var there := Within(fine, u, u + 1);
    WithinProper(fine, u, u + 1);
    FoldIsProper(0, there);
    FoldSnoc(0, there, Add(from, p));
    if cur.s > 0 {
      FoldSnoc(0, there, cur);
      AddAssociates(Fold(0, there), cur, p);
    } else {
      AddToEmpty(from.t, p);
      AddIgnoresStart(Fold(0, there), p, from.t);
    }
  }

  /** A recorded minute goes to the interval it began in, and changes no other. */
  lemma MinuteLands(d: Disk, m: Memory, p: Point, step: int, end: int, u: int)
    requires step > 0 && Sound(d, m) && Aligned(m, step) && p.s > 0 && u % step == 0
    ensures var o := AddMinute(m, p, step, end);
            && Sound(Replay(d, o.writes), o.memory) && Aligned(o.memory, step)
            && HeldAt(Replay(d, o.writes), o.memory, u) == if u <= p.t < u + step then Add(HeldAt(d, m, u), p) else HeldAt(d, m, u)
  {
    hide Add, Fold, Flush, AddToCurrent, Start, Within;
    if m.cur.s > 0 && m.cur.t != Start(p.t, step) {
      var gap := Flush(m, end);
      FlushRecords(d, m, end);
      CurrentLands(Replay(d, gap.writes), gap.memory, p, step, end, u);
      ReplayConcat(d, gap.writes, AddToCurrent(gap.memory, p, step, end).writes);
    } else {
      CurrentLands(d, m, p, step, end, u);
    }
  }

  lemma {:induction false} MinutesLand(ps: seq<Point>, step: int, ends: seq<int>, u: int)
    requires step > 0 && |ps| == |ends| && u % step == 0 && forall i :: 0 <= i < |ps| ==> ps[i].s > 0
    ensures var (e, k) := Minutes(Disk([], []), NO_MEMORY, ps, step, ends);
            Sound(e, k) && Aligned(k, step) && HeldAt(e, k, u) == Fold(0, Within(ps, u, u + step))
  {
    hide Add, AddMinute, Replay, Sound, HeldAt, Fold;
    if ps == [] {
      NothingHeld(step, u);
    } else {
      var n := |ps| - 1;
      MinutesLand(ps[..n], step, ends[..n], u);
      var (e, k) := Minutes(Disk([], []), NO_MEMORY, ps[..n], step, ends[..n]);
      MinuteLands(e, k, ps[n], step, ends[n], u);
      assert ps[..n] + [ps[n]] == ps;
      WithinSnoc(ps[..n], ps[n], u, u + step);
      FoldSnoc(0, Within(ps[..n], u, u + step), ps[n]);
    }
  }

  lemma NothingHeld(step: int, u: int)
    requires step > 0
    ensures Sound(Disk([], []), NO_MEMORY) && Aligned(NO_MEMORY, step)
    ensures HeldAt(Disk([], []), NO_MEMORY, u) == Fold(0, Within([], u, u + step))
  {
  }

  lemma DeltaCovers(prev: Sample, cur: Sample, t: int, s: int)
    ensures Delta(prev, cur, t, s).t == t && Delta(prev, cur, t, s).s == s
    ensures WorkersDelta(prev, cur, t, s).t == t && WorkersDelta(prev, cur, t, s).s == s
  {
    hide PoolDelta, WorkerDelta, CountAll;
  }

  /** Difference i begins at starts[i] and is that of samples i and i + 1. */
  lemma {:induction false} DeltasAre(samples: seq<Sample>, starts: seq<int>, lengths: seq<int>, i: int)
    requires |samples| == |starts| + 1 == |lengths| + 1 && 0 <= i < |starts|
    ensures var p, q := Deltas(samples, starts, lengths)[i], WorkersDeltas(samples, starts, lengths)[i];
            && p == Delta(samples[i], samples[i + 1], starts[i], lengths[i]) && p.t == starts[i] && p.s == lengths[i]
            && q == WorkersDelta(samples[i], samples[i + 1], starts[i], lengths[i]) && q.t == starts[i] && q.s == lengths[i]
  {
    hide Delta, WorkersDelta;
    var n := |starts| - 1;
    DeltaCovers(samples[n], samples[n + 1], starts[n], lengths[n]);
    if i < n {
      DeltasAre(samples[..n + 1], starts[..n], lengths[..n], i);
    }
  }

  /** Over a run without a crash each fine interval holds exactly the differences of the minutes that began in it:
      difference i begins at starts[i] (DeltasAre). */
  lemma IntervalsHoldTheirMinutes(samples: seq<Sample>, starts: seq<int>, lengths: seq<int>, ends: seq<int>, step: int, u: int)
    requires |samples| == |starts| + 1 == |lengths| + 1 == |ends| + 1 && step > 0 && u % step == 0
    requires forall i :: 0 <= i < |lengths| ==> lengths[i] > 0
    ensures var ps := Deltas(samples, starts, lengths);
            var (e, k) := Minutes(Disk([], []), NO_MEMORY, ps, step, ends);
            HeldAt(e, k, u) == Fold(0, Within(ps, u, u + step))
    ensures var ps := WorkersDeltas(samples, starts, lengths);
            var (e, k) := Minutes(Disk([], []), NO_MEMORY, ps, step, ends);
            HeldAt(e, k, u) == Fold(0, Within(ps, u, u + step))
  {
    hide Minutes, HeldAt, Fold, Delta, WorkersDelta;
    DeltasLengths(samples, starts, lengths);
    WorkersDeltasLengths(samples, starts, lengths);
    MinutesLand(Deltas(samples, starts, lengths), step, ends, u);
    MinutesLand(WorkersDeltas(samples, starts, lengths), step, ends, u);
  }

  /** A minute that ends an interval writes it, and with it the hour when that is over. */
  lemma WritesInTime(m: Memory, p: Point, step: int, end: int)
    requires step > 0 && p.s > 0 && Proper(m.cur)
    ensures var o := AddMinute(m, p, step, end);
            && (o.memory.cur.s > 0 ==> end < o.memory.cur.t + step)
            && (o.writes != [] && o.memory.acc.s > 0 && o.memory.cur.s <= 0 ==> end < o.memory.acc.t + HOUR)
  {
    assert m.cur.s >= 0;
    hide Add, Start, Proper;
    forall x, y ensures Add(x, y).s == x.s + y.s && Add(x, y).t == x.t {
      AddedSeconds(x, y);
    }
  }

  // ---- charts ----

  /** Reading a range takes every point that starts in it, as often as it is stored. */
  lemma {:induction false} WithinCounts(pts: seq<Point>, from: int, end: int, p: Point)
    ensures multiset(Within(pts, from, end))[p] == if from <= p.t < end then multiset(pts)[p] else 0
  {
    if pts != [] {
      var init, last := pts[..|pts| - 1], pts[|pts| - 1];
      WithinCounts(init, from, end, p);
      assert init + [last] == pts;
      WithinSnoc(init, last, from, end);
    }
  }

  /** What is still in memory counts once it holds a minute. */
  lemma LiveIs(p: Point, q: Point, start: int, end: int)
    ensures Live([p], start, end) == if p.s > 0 && start <= p.t < end then [p] else []
    ensures Live([p, q], start, end) ==
            (if p.s > 0 && start <= p.t < end then [p] else []) + (if q.s > 0 && start <= q.t < end then [q] else [])
  {
    assert [p, q][..1] == [p] && [p][..0] == [];
  }

  /** The fine tier is read for ranges of up to three days that lie within its retention. */
  lemma ReadsFineExactlyWhen(from: int, until: int, now: int, keepFine: int)
    ensures ReadsFine(from, until, now, keepFine) <==> until - from <= 3 * 24 * 3600 * 1_000_000_000 && now - from <= keepFine
  {
  }

  /** The length a bucket needs is the least one, not under the tier's, with which the points asked for cover the range. */
  lemma NeedIsLeast(from: int, until: int, maxPoints: int, tierStep: int)
    requires maxPoints > 0 && from <= until
    ensures var need, span := Need(from, until, maxPoints, tierStep), (until - from) / 1_000_000_000;
            && need >= tierStep && need * maxPoints >= span && (need > tierStep ==> (need - 1) * maxPoints < span)
  {
    var span := (until - from) / NS;
    Ceiling(span, maxPoints);
    var n := (span + maxPoints - 1) / maxPoints;
    if tierStep > n {
      MulMono(n, tierStep, maxPoints);
    }
    assert (n - 1) * maxPoints == n * maxPoints - maxPoints;
  }

  /** What a chart of one series shows, in points: those on disk in the tier that is read and those in memory, of the
      range from the first bucket on, each as often as it is there. */
  lemma ChartHolds(d: Disk, m: Memory, start: int, end: int, fine: bool, p: Point)
    ensures var pts := if fine then Within(d.fine, start, end) + Live([m.cur], start, end)
                       else Within(d.coarse, start, end) + Live([m.cur, m.acc], start, end);
            multiset(pts)[p] ==
            if start <= p.t < end then
              multiset(if fine then d.fine else d.coarse)[p] + (if p == m.cur && p.s > 0 then 1 else 0)
              + (if !fine && p == m.acc && p.s > 0 then 1 else 0)
            else 0
  {
    WithinCounts(d.fine, start, end, p);
    WithinCounts(d.coarse, start, end, p);
    LiveIs(m.cur, m.acc, start, end);
    hide Within, Live;
  }
}
