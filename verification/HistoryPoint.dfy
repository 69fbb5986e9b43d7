/** Points of the statistics history: merging, and the difference of two samples.

    `Add` is the merge of `Point.add`: counts add up, and miner numbers are averages weighted by
    recorded time.  The results here say that merging does not depend on how points are grouped
    (`FoldOfGroups`), and that the differences taken sample by sample add up to the difference of
    the first and the last sample (`DeltasConserve`). */
module HistoryPoint {

  datatype PoolPart = PoolPart(d: real, a: int, r: int, m: real)
  datatype WorkerPart = WorkerPart(d: real, a: int, r: int, o: int)
  datatype Point = Point(t: int, s: int, d: real, a: int, r: int, m: real,
                         p: map<string, PoolPart>, w: map<string, WorkerPart>)

  const NO_POOL := PoolPart(0.0, 0, 0, 0.0)
  const NO_WORKER := WorkerPart(0.0, 0, 0, 0)

  function Empty(t: int): Point {
    Point(t, 0, 0.0, 0, 0, 0.0, map[], map[])
  }

  /** A point of the series: it covers some recorded time, or it is the empty start of a sum. */
  predicate Proper(p: Point) {
    p.s > 0 || p == Empty(p.t)
  }

  predicate AllProper(pts: seq<Point>) {
    forall i :: 0 <= i < |pts| ==> Proper(pts[i])
  }

  // A pool or a worker missing in a point counts as zero there.

  function PoolIn(m: map<string, PoolPart>, id: string): PoolPart {
    if id in m then m[id] else NO_POOL
  }

  function WorkerIn(m: map<string, WorkerPart>, name: string): WorkerPart {
    if name in m then m[name] else NO_WORKER
  }

  function PoolOf(p: Point, id: string): PoolPart {
    PoolIn(p.p, id)
  }

  function WorkerOf(p: Point, name: string): WorkerPart {
    WorkerIn(p.w, name)
  }

  // ---- merging ----

  /** The weights of a and b recorded seconds in their sum; halves when nothing is recorded. */
  function Weights(a: int, b: int): (real, real) {
    if a + b > 0 then (a as real / (a + b) as real, b as real / (a + b) as real) else (0.5, 0.5)
  }

  function Weigh(x: real, wp: real, y: real, wq: real): real {
    x * wp + y * wq
  }

  /** The mean of x over a seconds and y over b seconds. */
  function Mean(x: real, a: int, y: real, b: int): real {
    var (wp, wq) := Weights(a, b);
    Weigh(x, wp, y, wq)
  }

  function AddPool(x: PoolPart, a: int, y: PoolPart, b: int): PoolPart {
    PoolPart(x.d + y.d, x.a + y.a, x.r + y.r, Mean(x.m, a, y.m, b))
  }

  function AddWorker(x: WorkerPart, y: WorkerPart): WorkerPart {
    WorkerPart(x.d + y.d, x.a + y.a, x.r + y.r, x.o + y.o)
  }

  function MergedPools(x: map<string, PoolPart>, a: int, y: map<string, PoolPart>, b: int): map<string, PoolPart> {
    map id | id in x.Keys + y.Keys :: AddPool(PoolIn(x, id), a, PoolIn(y, id), b)
  }

  function MergedWorkers(x: map<string, WorkerPart>, y: map<string, WorkerPart>): map<string, WorkerPart> {
    map name | name in x.Keys + y.Keys :: AddWorker(WorkerIn(x, name), WorkerIn(y, name))
  }

  function Add(p: Point, q: Point): Point {
    Point(p.t, p.s + q.s, p.d + q.d, p.a + q.a, p.r + q.r, Mean(p.m, p.s, q.m, q.s),
          MergedPools(p.p, p.s, q.p, q.s), MergedWorkers(p.w, q.w))
  }

  /** Merging as the program does it: new maps are built entry by entry, in any order of the keys. */
  method AddInto(p: Point, q: Point) returns (sum: Point)
    ensures sum == Add(p, q)
  {
    hide Weights, Weigh;
    var (wp, wq) := Weights(p.s, q.s);
    var pools := p.p;
    if p.p != map[] || q.p != map[] {
      pools := MergePools(p.p, wp, q.p, wq);
    }
    var workers := p.w;
    if q.w != map[] {
      workers := MergeWorkers(p.w, q.w);
    }
    sum := Point(p.t, p.s + q.s, p.d + q.d, p.a + q.a, p.r + q.r, Weigh(p.m, wp, q.m, wq), pools, workers);
    assert pools == Add(p, q).p;
    assert workers == Add(p, q).w;
  }

  method MergePools(p: map<string, PoolPart>, wp: real, q: map<string, PoolPart>, wq: real)
    returns (merged: map<string, PoolPart>)
    ensures merged.Keys == p.Keys + q.Keys
    ensures forall id :: id in merged ==>
      var x, y := PoolIn(p, id), PoolIn(q, id);
      merged[id] == PoolPart(x.d + y.d, x.a + y.a, x.r + y.r, Weigh(x.m, wp, y.m, wq))
  {
    hide Weigh;
    merged := map[];
    var todo := p.Keys;
    while todo != {}
      invariant todo <= p.Keys && merged.Keys == p.Keys - todo
      invariant forall id :: id in merged ==> merged[id] == p[id].(m := Weigh(p[id].m, wp, 0.0, wq))
    {
      var id :| id in todo;
      WeighAlone(p[id].m, wp, wq);
      merged := merged[id := PoolPart(p[id].d, p[id].a, p[id].r, p[id].m * wp)];
      todo := todo - {id};
    }
    ghost var first := merged;
    todo := q.Keys;
    while todo != {}
      invariant todo <= q.Keys && merged.Keys == p.Keys + (q.Keys - todo)
      invariant forall id :: id in merged && (id !in q || id in todo) ==> id in first && merged[id] == first[id]
      invariant forall id :: id in q && id !in todo ==>
        var x := PoolIn(p, id);
        merged[id] == PoolPart(x.d + q[id].d, x.a + q[id].a, x.r + q[id].r, Weigh(x.m, wp, q[id].m, wq))
    {
      var id :| id in todo;
      var m := PoolIn(merged, id);
      WeighOnto(PoolIn(p, id).m, wp, q[id].m, wq);
      merged := merged[id := PoolPart(m.d + q[id].d, m.a + q[id].a, m.r + q[id].r, m.m + q[id].m * wq)];
      todo := todo - {id};
    }
  }

  lemma WeighAlone(x: real, wp: real, wq: real)
    ensures Weigh(x, wp, 0.0, wq) == x * wp
  {
    assert 0.0 * wq == 0.0;
  }

  lemma WeighOnto(x: real, wp: real, y: real, wq: real)
    ensures Weigh(x, wp, 0.0, wq) + y * wq == Weigh(x, wp, y, wq)
    ensures 0.0 + y * wq == Weigh(0.0, wp, y, wq)
  {
    assert 0.0 * wq == 0.0 && 0.0 * wp == 0.0;
  }

  method MergeWorkers(p: map<string, WorkerPart>, q: map<string, WorkerPart>)
    returns (merged: map<string, WorkerPart>)
    ensures merged.Keys == p.Keys + q.Keys
    ensures forall name :: name in merged ==>
      merged[name] == AddWorker(WorkerIn(p, name), WorkerIn(q, name))
  {
    merged := p;
    var todo := q.Keys;
    while todo != {}
      invariant todo <= q.Keys && merged.Keys == p.Keys + (q.Keys - todo)
      invariant forall name :: name in merged && (name !in q || name in todo) ==> name in p && merged[name] == p[name]
      invariant forall name :: name in q && name !in todo ==>
        merged[name] == AddWorker(WorkerIn(p, name), q[name])
    {
      var name :| name in todo;
      var m := WorkerIn(merged, name);
      merged := merged[name := AddWorker(m, q[name])];
      todo := todo - {name};
    }
  }

  /** x held for a seconds. */
  function Mass(x: real, a: int): real {
    x * a as real
  }

  /** What makes the mean a mean: it stands for the same miner-seconds. */
  lemma MeanWeighs(x: real, a: int, y: real, b: int)
    requires a >= 0 && b >= 0
    ensures Mass(Mean(x, a, y, b), a + b) == Mass(x, a) + Mass(y, b)
  {
    if a + b > 0 {
      var n := (a + b) as real;
      var u, v := a as real / n, b as real / n;
      Distribute(x, u, y, v, n);
      assert u * n == a as real && v * n == b as real;
    }
  }

  lemma Distribute(x: real, u: real, y: real, v: real, n: real)
    ensures Weigh(x, u, y, v) * n == x * (u * n) + y * (v * n)
  {
    assert (x * u) * n == x * (u * n);
    assert (y * v) * n == y * (v * n);
  }

  lemma MassIsInjective(u: real, v: real, n: int)
    requires n > 0 && Mass(u, n) == Mass(v, n)
    ensures u == v
  {
  }

  lemma MeanAssociates(x: real, a: int, y: real, b: int, z: real, c: int)
    requires a >= 0 && b >= 0 && c >= 0
    requires (a == 0 ==> x == 0.0) && (b == 0 ==> y == 0.0) && (c == 0 ==> z == 0.0)
    ensures Mean(Mean(x, a, y, b), a + b, z, c) == Mean(x, a, Mean(y, b, z, c), b + c)
  {
    if a + b + c > 0 {
      hide Mean, Mass;
      var xy, yz := Mean(x, a, y, b), Mean(y, b, z, c);
      MeanWeighs(xy, a + b, z, c);
      MeanWeighs(x, a, yz, b + c);
      MeanWeighs(x, a, y, b);
      MeanWeighs(y, b, z, c);
      MassIsInjective(Mean(xy, a + b, z, c), Mean(x, a, yz, b + c), a + b + c);
    } else {
      MeanOfZeros(0, 0);
    }
  }

  /** Miner numbers of a merge stand for the same miner-seconds, in total and per pool. */
  lemma AddKeepsMinerSeconds(p: Point, q: Point, id: string)
    requires Proper(p) && Proper(q)
    ensures Mass(Add(p, q).m, p.s + q.s) == Mass(p.m, p.s) + Mass(q.m, q.s)
    ensures Mass(PoolOf(Add(p, q), id).m, p.s + q.s) ==
            Mass(PoolOf(p, id).m, p.s) + Mass(PoolOf(q, id).m, q.s)
  {
    hide Mean, Mass;
    MergedPoolsAt(p.p, p.s, q.p, q.s, id);
    MeanWeighs(p.m, p.s, q.m, q.s);
    MeanWeighs(PoolOf(p, id).m, p.s, PoolOf(q, id).m, q.s);
  }

  lemma AddIsProper(p: Point, q: Point)
    requires Proper(p) && Proper(q)
    ensures Proper(Add(p, q))
    ensures Add(p, q).t == p.t
  {
    if p.s + q.s == 0 {
      assert Add(p, q).p == map[] && Add(p, q).w == map[];
    }
  }

  lemma AddedSeconds(p: Point, q: Point)
    ensures Add(p, q).s == p.s + q.s && Add(p, q).t == p.t
  {
  }

  lemma AddAssociates(p: Point, q: Point, r: Point)
    requires Proper(p) && Proper(q) && Proper(r)
    ensures Add(Add(p, q), r) == Add(p, Add(q, r))
  {
    hide Mean, MergedPools, MergedWorkers;
    MeanAssociates(p.m, p.s, q.m, q.s, r.m, r.s);
    PoolsAssociate(p.p, p.s, q.p, q.s, r.p, r.s);
    WorkersAssociate(p.w, q.w, r.w);
  }

  lemma PoolsAssociate(x: map<string, PoolPart>, a: int, y: map<string, PoolPart>, b: int,
                       z: map<string, PoolPart>, c: int)
    requires a >= 0 && b >= 0 && c >= 0
    requires (a == 0 ==> x == map[]) && (b == 0 ==> y == map[]) && (c == 0 ==> z == map[])
    ensures MergedPools(MergedPools(x, a, y, b), a + b, z, c) == MergedPools(x, a, MergedPools(y, b, z, c), b + c)
  {
    hide Mean, MergedPools;
    var xy, yz := MergedPools(x, a, y, b), MergedPools(y, b, z, c);
    var l, r := MergedPools(xy, a + b, z, c), MergedPools(x, a, yz, b + c);
    forall id ensures (id in l <==> id in r) && PoolIn(l, id) == PoolIn(r, id) {
      MeanAssociates(PoolIn(x, id).m, a, PoolIn(y, id).m, b, PoolIn(z, id).m, c);
      MergedPoolsAt(x, a, y, b, id);
      MergedPoolsAt(y, b, z, c, id);
      MergedPoolsAt(xy, a + b, z, c, id);
      MergedPoolsAt(x, a, yz, b + c, id);
    }
    SamePools(l, r);
  }

  lemma SamePools(l: map<string, PoolPart>, r: map<string, PoolPart>)
    requires forall id :: (id in l <==> id in r) && PoolIn(l, id) == PoolIn(r, id)
    ensures l == r
  {
    assert forall id :: id in l ==> PoolIn(l, id) == PoolIn(r, id);
  }

  lemma MergedPoolsAt(x: map<string, PoolPart>, a: int, y: map<string, PoolPart>, b: int, id: string)
    ensures id in MergedPools(x, a, y, b) <==> id in x || id in y
    ensures PoolIn(MergedPools(x, a, y, b), id) == AddPool(PoolIn(x, id), a, PoolIn(y, id), b)
  {
    if id !in x && id !in y {
      MeanOfZeros(a, b);
    }
  }

  lemma MergedWorkersAt(x: map<string, WorkerPart>, y: map<string, WorkerPart>, name: string)
    ensures WorkerIn(MergedWorkers(x, y), name) == AddWorker(WorkerIn(x, name), WorkerIn(y, name))
  {
    if name !in x && name !in y {
      NothingAddsNothing(WorkerIn(x, name));
    }
  }

  lemma NothingAddsNothing(zero: WorkerPart)
    requires zero == NO_WORKER
    ensures AddWorker(zero, zero) == zero
  {
    var d, sum := zero.d, AddWorker(zero, zero);
    assert d == 0.0;
    assert sum.d == d;
    assert sum.a == 0;
    assert sum.r == 0;
    assert sum.o == 0;
  }

  lemma MeanOfZeros(a: int, b: int)
    ensures Mean(0.0, a, 0.0, b) == 0.0
  {
    var (wp, wq) := Weights(a, b);
    assert 0.0 * wp == 0.0 && 0.0 * wq == 0.0;
  }

  lemma WorkersAssociate(x: map<string, WorkerPart>, y: map<string, WorkerPart>, z: map<string, WorkerPart>)
    ensures MergedWorkers(MergedWorkers(x, y), z) == MergedWorkers(x, MergedWorkers(y, z))
  {
    hide MergedWorkers, AddWorker;
    var l, r := MergedWorkers(MergedWorkers(x, y), z), MergedWorkers(x, MergedWorkers(y, z));
    forall name ensures (name in l <==> name in r) && WorkerIn(l, name) == WorkerIn(r, name) {
      MergedWorkersAt(x, y, name);
      MergedWorkersAt(y, z, name);
      MergedWorkersAt(MergedWorkers(x, y), z, name);
      MergedWorkersAt(x, MergedWorkers(y, z), name);
      AddWorkerAssociates(WorkerIn(x, name), WorkerIn(y, name), WorkerIn(z, name));
      MergedWorkersHas(x, y, z, name);
    }
    SameWorkers(l, r);
  }

  lemma AddWorkerAssociates(x: WorkerPart, y: WorkerPart, z: WorkerPart)
    ensures AddWorker(AddWorker(x, y), z) == AddWorker(x, AddWorker(y, z))
  {
  }

  lemma MergedWorkersHas(x: map<string, WorkerPart>, y: map<string, WorkerPart>, z: map<string, WorkerPart>, name: string)
    ensures name in MergedWorkers(MergedWorkers(x, y), z) <==> name in MergedWorkers(x, MergedWorkers(y, z))
  {
    hide AddWorker;
  }

  lemma SameWorkers(l: map<string, WorkerPart>, r: map<string, WorkerPart>)
    requires forall name :: (name in l <==> name in r) && WorkerIn(l, name) == WorkerIn(r, name)
    ensures l == r
  {
    assert forall name :: name in l ==> WorkerIn(l, name) == WorkerIn(r, name);
  }

  lemma AddToEmpty(t: int, q: Point)
    requires Proper(q)
    ensures Add(Empty(t), q) == q.(t := t)
  {
    var x := Add(Empty(t), q);
    if q.s > 0 {
      assert q.s as real / q.s as real == 1.0;
      assert 0.0 * (0 as real / q.s as real) == 0.0;
    }
    assert x.p.Keys == q.p.Keys && x.w.Keys == q.w.Keys;
    assert x.p == q.p;
    assert x.w == q.w;
  }

  lemma AddEmpty(p: Point, t: int)
    requires Proper(p)
    ensures Add(p, Empty(t)) == p
  {
    var x := Add(p, Empty(t));
    if p.s > 0 {
      assert p.s as real / p.s as real == 1.0;
      assert 0.0 * (0 as real / p.s as real) == 0.0;
    }
    assert x.p.Keys == p.p.Keys && x.w.Keys == p.w.Keys;
    assert x.p == p.p;
    assert x.w == p.w;
  }

  // ---- folding ----

  /** The points merged one after another into an empty point that starts at t. */
  function Fold(t: int, pts: seq<Point>): Point {
    if pts == [] then Empty(t) else Add(Fold(t, pts[..|pts| - 1]), pts[|pts| - 1])
  }

  lemma {:induction false} FoldIsProper(t: int, pts: seq<Point>)
    requires AllProper(pts)
    ensures Proper(Fold(t, pts)) && Fold(t, pts).t == t
    ensures (forall i :: 0 <= i < |pts| ==> pts[i].s > 0) && pts != [] ==> Fold(t, pts).s > 0
    ensures Fold(t, pts).s >= 0
  {
    if pts != [] {
      FoldIsProper(t, pts[..|pts| - 1]);
      AddIsProper(Fold(t, pts[..|pts| - 1]), pts[|pts| - 1]);
    }
  }

  lemma FoldSnoc(t: int, pts: seq<Point>, p: Point)
    ensures Fold(t, pts + [p]) == Add(Fold(t, pts), p)
  {
    assert (pts + [p])[..|pts|] == pts;
  }

  lemma {:induction false} FoldConcat(t: int, xs: seq<Point>, u: int, ys: seq<Point>)
    requires AllProper(xs) && AllProper(ys)
    ensures Fold(t, xs + ys) == Add(Fold(t, xs), Fold(u, ys))
  {
    hide Add, Proper;
    FoldIsProper(t, xs);
    if ys == [] {
      assert xs + ys == xs;
      AddEmpty(Fold(t, xs), u);
    } else {
      var init, last := ys[..|ys| - 1], ys[|ys| - 1];
      FoldConcat(t, xs, u, init);
      FoldIsProper(u, init);
      assert xs + ys == (xs + init) + [last];
      FoldSnoc(t, xs + init, last);
      AddAssociates(Fold(t, xs), Fold(u, init), last);
    }
  }

  function Flatten(groups: seq<seq<Point>>): seq<Point> {
    if groups == [] then [] else Flatten(groups[..|groups| - 1]) + groups[|groups| - 1]
  }

  /** Each group merged into one point; group i starts at starts[i]. */
  function FoldEach(starts: seq<int>, groups: seq<seq<Point>>): (r: seq<Point>)
    requires |starts| == |groups|
    ensures |r| == |groups|
  {
    if groups == [] then []
    else FoldEach(starts[..|groups| - 1], groups[..|groups| - 1])
         + [Fold(starts[|groups| - 1], groups[|groups| - 1])]
  }

  /** Merging does not depend on the grouping: however the points are split into consecutive groups,
      merging the merged groups gives what merging the points one by one gives. */
  lemma {:induction false} FoldOfGroups(t: int, starts: seq<int>, groups: seq<seq<Point>>)
    requires |starts| == |groups|
    requires forall i :: 0 <= i < |groups| ==> AllProper(groups[i])
    ensures AllProper(Flatten(groups))
    ensures Fold(t, FoldEach(starts, groups)) == Fold(t, Flatten(groups))
  {
    if groups != [] {
      var n := |groups| - 1;
      FoldOfGroups(t, starts[..n], groups[..n]);
      FoldSnoc(t, FoldEach(starts[..n], groups[..n]), Fold(starts[n], groups[n]));
      FoldConcat(t, Flatten(groups[..n]), starts[n], groups[n]);
    }
  }

  // ---- samples ----

  datatype Counters = Counters(accepted: int, rejected: int, diff: real)

  const NO_COUNTERS := Counters(0, 0, 0.0)

  datatype Sample = Sample(total: Counters, pools: map<string, Counters>, workers: map<string, Counters>,
                           miners: map<string, nat>, online: map<string, int>)

  function At(m: map<string, Counters>, key: string): Counters {
    if key in m then m[key] else NO_COUNTERS
  }

  /** Subtraction that stops at zero: a counter never goes back, whatever a reset does. */
  function Sub(a: int, b: int): int {
    if a < b then 0 else a - b
  }

  function NonNeg(x: real): real {
    if x < 0.0 then 0.0 else x
  }

  function PoolDelta(prev: Sample, cur: Sample, id: string): PoolPart {
    var c, o := At(cur.pools, id), At(prev.pools, id);
    PoolPart(NonNeg(c.diff - o.diff), Sub(c.accepted, o.accepted), Sub(c.rejected, o.rejected),
             (if id in cur.miners then cur.miners[id] else 0) as real)
  }

  function WorkerDelta(prev: Sample, cur: Sample, name: string, seconds: int): WorkerPart {
    var c, o := At(cur.workers, name), At(prev.workers, name);
    WorkerPart(NonNeg(c.diff - o.diff), Sub(c.accepted, o.accepted), Sub(c.rejected, o.rejected),
               if name in cur.online && cur.online[name] > 0 then seconds else 0)
  }

  ghost function CountAll(m: map<string, nat>): nat
    decreases |m|
  {
    if m == map[] then 0 else
      var k :| k in m;
      m[k] + CountAll(m - {k})
  }

  lemma {:induction false} CountAllRemoves(m: map<string, nat>, k: string)
    requires k in m
    ensures CountAll(m) == m[k] + CountAll(m - {k})
    decreases |m|
  {
    var j :| j in m && CountAll(m) == m[j] + CountAll(m - {j});
    if j != k {
      CountAllRemoves(m - {j}, k);
      CountAllRemoves(m - {k}, j);
      assert m - {j} - {k} == m - {k} - {j};
    }
  }

  /** The totals point between two samples, for an interval of s seconds from t on. */
  ghost function Delta(prev: Sample, cur: Sample, t: int, s: int): Point {
    Point(t, s, NonNeg(cur.total.diff - prev.total.diff),
          Sub(cur.total.accepted, prev.total.accepted), Sub(cur.total.rejected, prev.total.rejected),
          CountAll(cur.miners) as real,
          map id | id in cur.pools.Keys + cur.miners.Keys && PoolDelta(prev, cur, id) != NO_POOL ::
            PoolDelta(prev, cur, id),
          map[])
  }

  /** The worker point between two samples. */
  function WorkersDelta(prev: Sample, cur: Sample, t: int, s: int): Point {
    Empty(t).(s := s, w :=
      map name | name in cur.workers.Keys + cur.online.Keys && WorkerDelta(prev, cur, name, s) != NO_WORKER ::
        WorkerDelta(prev, cur, name, s))
  }

  method CountMiners(miners: map<string, nat>) returns (n: nat)
    ensures n == CountAll(miners)
  {
    n := 0;
    var todo := miners;
    while todo != map[]
      invariant todo.Keys <= miners.Keys && forall k :: k in todo ==> todo[k] == miners[k]
      invariant CountAll(miners) == n + CountAll(todo)
      decreases |todo|
    {
      var id :| id in todo;
      CountAllRemoves(todo, id);
      n := n + todo[id];
      todo := todo - {id};
    }
  }

  method PoolDeltas(prev: Sample, cur: Sample, ids: set<string>) returns (parts: map<string, PoolPart>)
    ensures parts == map id | id in ids && PoolDelta(prev, cur, id) != NO_POOL :: PoolDelta(prev, cur, id)
  {
    hide PoolDelta;
    parts := map[];
    var left := ids;
    while left != {}
      invariant left <= ids
      invariant forall id :: id in parts <==> id in ids - left && PoolDelta(prev, cur, id) != NO_POOL
      invariant forall id :: id in parts ==> parts[id] == PoolDelta(prev, cur, id)
    {
      var id :| id in left;
      var part := PoolDelta(prev, cur, id);
      if part != NO_POOL {
        parts := parts[id := part];
      }
      left := left - {id};
    }
  }

  method ComputeDelta(prev: Sample, cur: Sample, t: int, s: int) returns (p: Point)
    ensures p == Delta(prev, cur, t, s)
  {
    hide PoolDelta;
    var miners := CountMiners(cur.miners);
    var parts := PoolDeltas(prev, cur, cur.pools.Keys + cur.miners.Keys);
    p := Point(t, s, NonNeg(cur.total.diff - prev.total.diff),
               Sub(cur.total.accepted, prev.total.accepted), Sub(cur.total.rejected, prev.total.rejected),
               miners as real, parts, map[]);
  }

  method ComputeWorkersDelta(prev: Sample, cur: Sample, t: int, s: int) returns (p: Point)
    ensures p == WorkersDelta(prev, cur, t, s)
  {
    var names := cur.workers.Keys + cur.online.Keys;
    var parts := map[];
    var left := names;
    while left != {}
      invariant left <= names
      invariant forall name :: name in parts <==> name in names - left && WorkerDelta(prev, cur, name, s) != NO_WORKER
      invariant forall name :: name in parts ==> parts[name] == WorkerDelta(prev, cur, name, s)
    {
      var name :| name in left;
      var part := WorkerDelta(prev, cur, name, s);
      if part != NO_WORKER {
        parts := parts[name := part];
      }
      left := left - {name};
    }
    p := Empty(t).(s := s, w := parts);
    assert parts == WorkersDelta(prev, cur, t, s).w;
  }

  // ---- conservation ----

  predicate NotLess(x: Counters, y: Counters) {
    x.accepted <= y.accepted && x.rejected <= y.rejected && x.diff <= y.diff
  }

  /** The counters of the running proxy only grow, and no pool or worker disappears from them. */
  predicate Grows(prev: Sample, cur: Sample) {
    && NotLess(prev.total, cur.total)
    && prev.pools.Keys <= cur.pools.Keys
    && prev.workers.Keys <= cur.workers.Keys
    && (forall id :: id in cur.pools ==> NotLess(At(prev.pools, id), cur.pools[id]))
    && (forall name :: name in cur.workers ==> NotLess(At(prev.workers, name), cur.workers[name]))
  }

  /** The points recorded between consecutive samples: point i starts at times[i] and covers lengths[i] seconds. */
  ghost function Deltas(samples: seq<Sample>, times: seq<int>, lengths: seq<int>): (r: seq<Point>)
    requires |samples| == |times| + 1 == |lengths| + 1
    ensures |r| == |times|
  {
    if times == [] then [] else
      var n := |times| - 1;
      Deltas(samples[..n + 1], times[..n], lengths[..n]) + [Delta(samples[n], samples[n + 1], times[n], lengths[n])]
  }

  function WorkersDeltas(samples: seq<Sample>, times: seq<int>, lengths: seq<int>): (r: seq<Point>)
    requires |samples| == |times| + 1 == |lengths| + 1
    ensures |r| == |times|
  {
    if times == [] then [] else
      var n := |times| - 1;
      WorkersDeltas(samples[..n + 1], times[..n], lengths[..n])
      + [WorkersDelta(samples[n], samples[n + 1], times[n], lengths[n])]
  }

  predicate AllGrow(samples: seq<Sample>) {
    forall i :: 0 <= i < |samples| - 1 ==> Grows(samples[i], samples[i + 1])
  }

  /** c counts exactly what the counters gained from o to n. */
  predicate Gained(d: real, a: int, r: int, o: Counters, n: Counters) {
    d == n.diff - o.diff && a == n.accepted - o.accepted && r == n.rejected - o.rejected
  }

  lemma GainedInTurn(d: real, a: int, r: int, e: real, b: int, q: int, x: Counters, y: Counters, z: Counters)
    requires Gained(d, a, r, x, y) && Gained(e, b, q, y, z)
    ensures Gained(d + e, a + b, r + q, x, z)
  {
  }

  lemma WorkerGainsAdd(x: WorkerPart, y: WorkerPart, o: Counters, m: Counters, n: Counters)
    requires Gained(x.d, x.a, x.r, o, m) && Gained(y.d, y.a, y.r, m, n)
    ensures Gained(AddWorker(x, y).d, AddWorker(x, y).a, AddWorker(x, y).r, o, n)
  {
  }

  lemma PoolGainsAdd(x: PoolPart, a: int, y: PoolPart, b: int, o: Counters, m: Counters, n: Counters)
    requires Gained(x.d, x.a, x.r, o, m) && Gained(y.d, y.a, y.r, m, n)
    ensures Gained(AddPool(x, a, y, b).d, AddPool(x, a, y, b).a, AddPool(x, a, y, b).r, o, n)
  {
    hide Mean;
  }

  lemma DeltaGains(prev: Sample, cur: Sample, t: int, s: int, id: string)
    requires Grows(prev, cur)
    ensures var p := Delta(prev, cur, t, s);
            && Gained(p.d, p.a, p.r, prev.total, cur.total)
            && Gained(PoolOf(p, id).d, PoolOf(p, id).a, PoolOf(p, id).r, At(prev.pools, id), At(cur.pools, id))
  {
  }

  lemma WorkersDeltaGains(prev: Sample, cur: Sample, t: int, s: int, name: string)
    requires Grows(prev, cur)
    ensures var part := WorkerOf(WorkersDelta(prev, cur, t, s), name);
            Gained(part.d, part.a, part.r, At(prev.workers, name), At(cur.workers, name))
  {
  }

  lemma FoldLast(t: int, pts: seq<Point>)
    requires pts != []
    ensures var init, last := Fold(t, pts[..|pts| - 1]), pts[|pts| - 1];
            && Fold(t, pts).d == init.d + last.d && Fold(t, pts).a == init.a + last.a && Fold(t, pts).r == init.r + last.r
            && Fold(t, pts).p == MergedPools(init.p, init.s, last.p, last.s)
            && Fold(t, pts).w == MergedWorkers(init.w, last.w)
  {
    hide Mean, MergedPools, MergedWorkers;
  }

  /** Nothing is lost and nothing counted twice: the merged differences are what the counters gained
      from the first sample to the last, in total and for every pool. */
  lemma {:induction false} DeltasConserve(t: int, samples: seq<Sample>, times: seq<int>, lengths: seq<int>, id: string)
    requires |samples| == |times| + 1 == |lengths| + 1
    requires AllGrow(samples)
    ensures var sum := Fold(t, Deltas(samples, times, lengths));
            var first, last := samples[0], samples[|times|];
            && Gained(sum.d, sum.a, sum.r, first.total, last.total)
            && Gained(PoolOf(sum, id).d, PoolOf(sum, id).a, PoolOf(sum, id).r, At(first.pools, id), At(last.pools, id))
  {
    if times != [] {
      hide Mean, MergedPools, MergedWorkers, Gained, Delta, Grows, Add, AddPool, Fold, At;
      var n := |times| - 1;
      DeltasConserve(t, samples[..n + 1], times[..n], lengths[..n], id);
      var init := Deltas(samples[..n + 1], times[..n], lengths[..n]);
      var step := Delta(samples[n], samples[n + 1], times[n], lengths[n]);
      var sum := Fold(t, init);
      FoldLast(t, init + [step]);
      assert (init + [step])[..n] == init;
      MergedPoolsAt(sum.p, sum.s, step.p, step.s, id);
      DeltaGains(samples[n], samples[n + 1], times[n], lengths[n], id);
      GainedInTurn(sum.d, sum.a, sum.r, step.d, step.a, step.r,
                   samples[0].total, samples[n].total, samples[n + 1].total);
      PoolGainsAdd(PoolOf(sum, id), sum.s, PoolOf(step, id), step.s,
                   At(samples[0].pools, id), At(samples[n].pools, id), At(samples[n + 1].pools, id));
    }
  }

  /** The same for every worker. */
  lemma {:induction false} WorkersDeltasConserve(t: int, samples: seq<Sample>, times: seq<int>, lengths: seq<int>, name: string)
    requires |samples| == |times| + 1 == |lengths| + 1
    requires AllGrow(samples)
    ensures var part := WorkerOf(Fold(t, WorkersDeltas(samples, times, lengths)), name);
            Gained(part.d, part.a, part.r, At(samples[0].workers, name), At(samples[|times|].workers, name))
  {
    if times != [] {
      hide Mean, MergedPools, MergedWorkers, Gained, WorkersDelta, Grows, Add, AddWorker, Fold, At;
      var n := |times| - 1;
      WorkersDeltasConserve(t, samples[..n + 1], times[..n], lengths[..n], name);
      var init := WorkersDeltas(samples[..n + 1], times[..n], lengths[..n]);
      var step := WorkersDelta(samples[n], samples[n + 1], times[n], lengths[n]);
      var sum := Fold(t, init);
      FoldLast(t, init + [step]);
      assert (init + [step])[..n] == init;
      MergedWorkersAt(sum.w, step.w, name);
      WorkersDeltaGains(samples[n], samples[n + 1], times[n], lengths[n], name);
      WorkerGainsAdd(WorkerOf(sum, name), WorkerOf(step, name),
                     At(samples[0].workers, name), At(samples[n].workers, name), At(samples[n + 1].workers, name));
    }
  }
}
