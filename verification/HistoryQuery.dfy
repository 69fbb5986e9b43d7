/** Resampling the history for a chart. */
module HistoryQuery {
  import opened HistoryPoint
  import opened HistoryRollup

  /** Steps a chart can use. */
  const STEPS: seq<int> := [60, 120, 300, 600, 900, 1800, 3600, 7200, 10800, 21600, 43200,
                            86400, 172800, 345600, 604800, 1209600, 2592000]

  const LONGEST := 2592000

  datatype Chart = RangeError | Chart(buckets: seq<Point>, start: int, step: int)

  /** The length a bucket needs so that about maxPoints of them cover the range; times are nanoseconds. */
  function Need(from: int, until: int, maxPoints: int, tierStep: int): int
    requires maxPoints > 0
  {
    Max(tierStep, ((until - from) / NS + maxPoints - 1) / maxPoints)
  }

  lemma NeedCovers(from: int, until: int, maxPoints: int, tierStep: int)
    requires maxPoints > 0
    ensures Need(from, until, maxPoints, tierStep) >= ((until - from) / NS + maxPoints - 1) / maxPoints
  {
  }

  method ChooseStep(need: int) returns (step: int)
    ensures step in STEPS && step > 0
    ensures need <= LONGEST ==> need <= step && forall x :: x in STEPS && need <= x ==> step <= x
    ensures need > LONGEST ==> step == LONGEST
  {
    step := STEPS[|STEPS| - 1];
    var i := 0;
    while i < |STEPS|
      invariant 0 <= i <= |STEPS| && step == LONGEST
      invariant forall j :: 0 <= j < i ==> STEPS[j] < need
    {
      if STEPS[i] >= need {
        step := STEPS[i];
        assert forall j :: i <= j < |STEPS| ==> STEPS[i] <= STEPS[j];
        return;
      }
      i := i + 1;
    }
  }

  /** The start of bucket i. */
  function Edge(start: int, step: int, i: int): int {
    start + i * step
  }

  /** What bucket i of a chart shows: the points that start in it, merged in the order they were read. */
  ghost function Bucket(pts: seq<Point>, start: int, step: int, i: int): Point {
    Fold(0, Within(pts, Edge(start, step, i), Edge(start, step, i + 1)))
  }

  lemma EdgeNext(start: int, step: int, i: int)
    ensures Edge(start, step, i + 1) == Edge(start, step, i) + step
    ensures Edge(start, step, 0) == start
  {
  }

  lemma IndexOf(start: int, step: int, t: int)
    requires step > 0 && t >= start
    ensures var i := (t - start) / step; Edge(start, step, i) <= t < Edge(start, step, i + 1) && i >= 0
  {
    var i := (t - start) / step;
    assert t - start == step * i + (t - start) % step;
  }

  lemma EdgesGrow(start: int, step: int, i: int, j: int)
    requires step > 0 && i < j
    ensures Edge(start, step, i) + step <= Edge(start, step, j)
  {
    assert (j - i - 1) * step >= 0;
    assert j * step == i * step + step + (j - i - 1) * step;
  }

  /** Merges the points of the range [from, until) into steps of equal length: stored is what the tier holds on disk,
      live are the intervals still in memory. */
  method Buckets(stored: seq<Point>, live: seq<Point>, from: int, until: int, maxPoints: int, tierStep: int)
    returns (r: Chart, ghost pts: seq<Point>)
    requires from >= 0 && tierStep > 0
    ensures r.RangeError? <==> until <= from
    ensures r.Chart? ==>
      var most := Max(maxPoints, 10);
      var need := Need(from, until, most, tierStep);
      && r.step in STEPS && r.start == Start(from / NS, r.step)
      && pts == Within(stored, r.start, until / NS) + Live(live, r.start, until / NS)
      && (need <= LONGEST ==> need <= r.step && |r.buckets| <= most + 1)
      && until / NS <= Edge(r.start, r.step, |r.buckets|)
      && forall i :: 0 <= i < |r.buckets| ==> r.buckets[i] == Bucket(pts, r.start, r.step, i)
  {
    hide Fold, Within, Add, Edge, Need, Start, Bucket;
    pts := [];
    if until <= from {
      return RangeError, pts;
    }
    var most := Max(maxPoints, 10);
    var need := Need(from, until, most, tierStep);
    var step := ChooseStep(need);
    var start, end := Start(from / NS, step), until / NS;
    var read := ReadRange(stored, start, end);
    var alive := ReadLive(live, start, end);
    var all := read + alive;
    pts := all;
    var n := (end - start + step - 1) / step;
    NeedCovers(from, until, most, tierStep);
    EnoughBuckets(from, until, most, need, step);
    var out := new Point[n](_ => Empty(0));
    AllInRange(stored, live, start, end);
    Fill(out, all, start, step, end);
    r := Chart(out[..], start, step);
  }

  /** The longest range read from a fine tier, in nanoseconds. */
  const DETAIL_SPAN := 259200 * NS

  /** A short range inside the fine retention reads the fine tier and the interval being filled; any other
      reads the hours, the hour in memory and that interval. */
  predicate ReadsFine(from: int, until: int, now: int, keepFine: int) {
    until - from <= DETAIL_SPAN && from >= now - keepFine
  }

  method SeriesBuckets(d: Disk, m: Memory, step: int, from: int, until: int, maxPoints: int, now: int, keepFine: int)
    returns (r: Chart, ghost pts: seq<Point>)
    requires from >= 0 && StepOk(step)
    ensures r.RangeError? <==> until <= from
    ensures r.Chart? ==> Grid(r.start, r.step, |r.buckets|, from / NS, until / NS)
    ensures r.Chart? ==>
      && pts == (if ReadsFine(from, until, now, keepFine)
                 then Within(d.fine, r.start, until / NS) + Live([m.cur], r.start, until / NS)
                 else Within(d.coarse, r.start, until / NS) + Live([m.cur, m.acc], r.start, until / NS))
      && (Need(from, until, Max(maxPoints, 10), if ReadsFine(from, until, now, keepFine) then step else HOUR) <= LONGEST ==>
            |r.buckets| <= Max(maxPoints, 10) + 1)
      && forall i :: 0 <= i < |r.buckets| ==> r.buckets[i] == Bucket(pts, r.start, r.step, i)
  {
    hide Live, Within, Edge, Fold, Grid;
    if ReadsFine(from, until, now, keepFine) {
      r, pts := Buckets(d.fine, [m.cur], from, until, maxPoints, step);
    } else {
      r, pts := Buckets(d.coarse, [m.cur, m.acc], from, until, maxPoints, HOUR);
    }
    if r.Chart? {
      GridIs(r.step, |r.buckets|, from / NS, until / NS);
    }
  }

  /** n buckets of a listed step, from a multiple of it that is less than a step before `from`, reach `until`. */
  predicate Grid(start: int, step: int, n: int, from: int, until: int) {
    && step in STEPS && step > 0 && start % step == 0 && start <= from < start + step && until <= Edge(start, step, n)
  }

  lemma GridIs(step: int, n: int, from: int, until: int)
    requires step in STEPS && from >= 0 && until <= Edge(Start(from, step), step, n)
    ensures Grid(Start(from, step), step, n, from, until)
  {
    StartFrom(from, step);
    StartAligned(from, step);
  }

  lemma StartAligned(t: int, step: int)
    requires step > 0 && t >= 0
    ensures Start(t, step) % step == 0
  {
    var q := t / step;
    assert t == step * q + t % step;
    assert Start(t, step) == step * q;
    MultipleOf(step, q);
  }

  lemma MultipleOf(m: int, q: int)
    requires m > 0
    ensures (m * q) % m == 0
  {
    NoRemainder(m * q, m, q);
  }

  lemma NoRemainder(x: int, m: int, q: int)
    requires m > 0 && x == m * q
    ensures x % m == 0
  {
    var k, r := x / m, x % m;
    assert x == m * k + r;
    if k < q {
      MulMono(k + 1, q, m);
    } else if q < k {
      MulMono(q + 1, k, m);
    }
  }

  /** The points in memory that belong to the range. */
  function Live(live: seq<Point>, start: int, end: int): seq<Point> {
    if live == [] then [] else
      var p := live[|live| - 1];
      Live(live[..|live| - 1], start, end) + if p.s > 0 && start <= p.t < end then [p] else []
  }

  method ReadRange(stored: seq<Point>, start: int, end: int) returns (read: seq<Point>)
    ensures read == Within(stored, start, end)
  {
    read := [];
    var i := 0;
    while i < |stored|
      invariant 0 <= i <= |stored| && read == Within(stored[..i], start, end)
    {
      assert stored[..i + 1][..i] == stored[..i];
      if start <= stored[i].t < end {
        read := read + [stored[i]];
      }
      i := i + 1;
    }
    assert stored[..i] == stored;
  }

  method ReadLive(live: seq<Point>, start: int, end: int) returns (alive: seq<Point>)
    ensures alive == Live(live, start, end)
  {
    hide Add;
    alive := [];
    var i := 0;
    while i < |live|
      invariant 0 <= i <= |live| && alive == Live(live[..i], start, end)
    {
      assert live[..i + 1][..i] == live[..i];
      var p := live[i];
      if p.s > 0 && start <= p.t < end {
        var clone := AddInto(Empty(p.t), p);
        AddToEmpty(p.t, p);
        alive := alive + [clone];
      }
      i := i + 1;
    }
    assert live[..i] == live;
  }

  lemma {:induction false} LiveInRange(live: seq<Point>, start: int, end: int)
    ensures forall p :: p in Live(live, start, end) ==> start <= p.t < end
  {
    if live != [] {
      LiveInRange(live[..|live| - 1], start, end);
    }
  }

  lemma AllInRange(stored: seq<Point>, live: seq<Point>, start: int, end: int)
    ensures forall p :: p in Within(stored, start, end) + Live(live, start, end) ==> start <= p.t < end
  {
    WithinMembers(stored, start, end);
    LiveInRange(live, start, end);
  }

  lemma EnoughBuckets(from: int, until: int, most: int, need: int, step: int)
    requires 0 <= from < until && most >= 10 && step > 0 && step in STEPS
    requires need >= ((until - from) / NS + most - 1) / most
    ensures var start, end := Start(from / NS, step), until / NS;
            var n := (end - start + step - 1) / step;
            && n >= 0 && end <= Edge(start, step, n)
            && (need <= step ==> n <= most + 1)
  {
    var start, end := Start(from / NS, step), until / NS;
    var n := (end - start + step - 1) / step;
    StartFrom(from / NS, step);
    assert start <= from / NS <= end;
    Ceiling(end - start, step);
    if need <= step {
      FewBuckets((until - from) / NS, end - start, most, step);
    }
  }

  /** A span that most steps cover, of which at most one more step is read. */
  lemma FewBuckets(span: int, read: int, most: int, step: int)
    requires most >= 1 && step > 0 && 0 <= span && 0 <= read <= span + step && (span + most - 1) / most <= step
    ensures (read + step - 1) / step <= most + 1
  {
    var q := (span + most - 1) / most;
    Ceiling(span, most);
    MulMono(q, step, most);
    assert span <= step * most;
    assert read <= (most + 1) * step;
    CeilingAtMost(read, step, most + 1);
  }

  lemma StartFrom(t: int, step: int)
    requires step > 0 && t >= 0
    ensures Start(t, step) <= t < Start(t, step) + step && 0 <= Start(t, step)
  {
    assert t == step * (t / step) + t % step;
    assert t / step >= 0;
    MulMono(0, t / step, step);
  }

  lemma MulMono(x: int, y: int, m: int)
    requires x <= y && m >= 0
    ensures x * m <= y * m
  {
    assert (y - x) * m >= 0;
  }

  /** Rounding up. */
  lemma Ceiling(x: int, m: int)
    requires m > 0 && x >= 0
    ensures var n := (x + m - 1) / m; n >= 0 && x <= n * m < x + m
  {
    var n := (x + m - 1) / m;
    var r := (x + m - 1) % m;
    assert x + m - 1 == m * n + r;
    assert m * n == n * m;
    if n < 0 {
      MulMono(n, -1, m);
    }
  }

  lemma CeilingAtMost(x: int, m: int, k: int)
    requires m > 0 && x >= 0 && x <= k * m
    ensures (x + m - 1) / m <= k
  {
    var n := (x + m - 1) / m;
    Ceiling(x, m);
    assert (k + 1) * m == k * m + m;
    if n > k {
      MulMono(k + 1, n, m);
    }
  }

  /** Puts every point into the bucket it starts in. */
  method Fill(out: array<Point>, all: seq<Point>, start: int, step: int, end: int)
    requires step > 0 && forall k :: 0 <= k < out.Length ==> out[k] == Empty(0)
    requires forall p :: p in all ==> start <= p.t < end
    requires end <= Edge(start, step, out.Length)
    modifies out
    ensures forall k :: 0 <= k < out.Length ==> out[k] == Bucket(all, start, step, k)
  {
    hide Fold, Within, Add, Edge;
    NothingYet(start, step);
    var j := 0;
    while j < |all|
      invariant 0 <= j <= |all|
      invariant forall k :: 0 <= k < out.Length ==> out[k] == Bucket(all[..j], start, step, k)
    {
      var p := all[j];
      var i := (p.t - start) / step;
      IndexOf(start, step, p.t);
      IndexInside(start, step, p.t, i, out.Length, end);
      assert all[..j + 1] == all[..j] + [p];
      forall k | 0 <= k < out.Length
        ensures Bucket(all[..j + 1], start, step, k) ==
                if k == i then Add(Bucket(all[..j], start, step, k), p) else Bucket(all[..j], start, step, k)
      {
        BucketSnoc(all[..j], p, start, step, i, k);
      }
      if 0 <= i < out.Length {
        out[i] := AddInto(out[i], p);
      }
      j := j + 1;
    }
    assert all[..j] == all;
  }

  lemma NothingYet(start: int, step: int)
    ensures forall k :: Bucket([], start, step, k) == Empty(0)
  {
  }

  lemma IndexInside(start: int, step: int, t: int, i: int, n: int, end: int)
    requires step > 0 && Edge(start, step, i) <= t < end && end <= Edge(start, step, n)
    ensures i < n
  {
    if n < i {
      EdgesGrow(start, step, n, i);
    }
  }

  /** A point changes the bucket it starts in and no other. */
  lemma BucketSnoc(pts: seq<Point>, p: Point, start: int, step: int, i: int, k: int)
    requires step > 0 && Edge(start, step, i) <= p.t < Edge(start, step, i + 1)
    ensures Bucket(pts + [p], start, step, k) ==
            if k == i then Add(Bucket(pts, start, step, k), p) else Bucket(pts, start, step, k)
  {
    hide Fold, Add, Edge, Within;
    var a, b := Edge(start, step, k), Edge(start, step, k + 1);
    WithinSnoc(pts, p, a, b);
    EdgeNext(start, step, i);
    EdgeNext(start, step, k);
    if k < i {
      EdgesGrow(start, step, k, i);
    } else if i < k {
      EdgesGrow(start, step, i, k);
    } else {
      FoldSnoc(0, Within(pts, a, b), p);
    }
  }

  lemma WithinSnoc(pts: seq<Point>, p: Point, from: int, end: int)
    ensures Within(pts + [p], from, end) == if from <= p.t < end then Within(pts, from, end) + [p] else Within(pts, from, end)
  {
    assert (pts + [p])[..|pts|] == pts;
  }

  /** The points of the buckets up to n, bucket by bucket. */
  function Bucketed(pts: seq<Point>, start: int, step: int, n: nat): seq<Point> {
    if n == 0 then [] else
      Bucketed(pts, start, step, n - 1) + Within(pts, Edge(start, step, n - 1), Edge(start, step, n))
  }

  /** Every point of the range is in exactly one bucket: taken together the buckets hold the points of the
      range, each as often as it was read. */
  lemma {:induction false} EachInOneBucket(pts: seq<Point>, start: int, step: int, n: nat)
    requires step > 0
    ensures multiset(Bucketed(pts, start, step, n)) == multiset(Within(pts, start, Edge(start, step, n)))
  {
    hide Edge;
    if n == 0 {
      EdgeNext(start, step, 0);
      NoneWithin(pts, start);
    } else {
      EachInOneBucket(pts, start, step, n - 1);
      EdgeNext(start, step, n - 1);
      EdgeNext(start, step, 0);
      if n > 1 {
        EdgesGrow(start, step, 0, n - 1);
      }
      WithinSplits(pts, start, Edge(start, step, n - 1), Edge(start, step, n));
    }
  }

  lemma {:induction false} NoneWithin(pts: seq<Point>, t: int)
    ensures Within(pts, t, t) == []
  {
    if pts != [] {
      NoneWithin(pts[..|pts| - 1], t);
    }
  }

  lemma {:induction false} WithinSplits(pts: seq<Point>, from: int, mid: int, end: int)
    requires from <= mid <= end
    ensures multiset(Within(pts, from, end)) == multiset(Within(pts, from, mid)) + multiset(Within(pts, mid, end))
  {
    if pts != [] {
      hide Within;
      var init, last := pts[..|pts| - 1], pts[|pts| - 1];
      var xs, ys, all := Within(init, from, mid), Within(init, mid, end), Within(init, from, end);
      WithinSplits(init, from, mid, end);
      WithinLast(pts, from, end);
      WithinLast(pts, from, mid);
      WithinLast(pts, mid, end);
      SplitStep(xs, ys, all, last, from <= last.t < mid, mid <= last.t < end);
    }
  }

  lemma WithinLast(pts: seq<Point>, from: int, end: int)
    requires pts != []
    ensures var init, last := pts[..|pts| - 1], pts[|pts| - 1];
            Within(pts, from, end) == More(Within(init, from, end), last, from <= last.t < end)
  {
    assert Within(pts[..|pts| - 1], from, end) + [] == Within(pts[..|pts| - 1], from, end);
  }

  function More<T>(xs: seq<T>, p: T, taken: bool): seq<T> {
    if taken then xs + [p] else xs
  }

  lemma SplitStep<T>(xs: seq<T>, ys: seq<T>, all: seq<T>, p: T, left: bool, right: bool)
    requires multiset(all) == multiset(xs) + multiset(ys) && !(left && right)
    ensures multiset(More(all, p, left || right)) == multiset(More(xs, p, left)) + multiset(More(ys, p, right))
  {
    OneMore(xs, ys, all, p);
  }

  lemma OneMore<T>(xs: seq<T>, ys: seq<T>, all: seq<T>, p: T)
    requires multiset(all) == multiset(xs) + multiset(ys)
    ensures multiset(all + [p]) == multiset(xs + [p]) + multiset(ys)
    ensures multiset(all + [p]) == multiset(xs) + multiset(ys + [p])
    ensures xs + [] == xs && ys + [] == ys && all + [] == all
  {
  }
}
