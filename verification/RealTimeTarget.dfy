/** eCash's real-time target: how many times harder than its header target a block is, from when the previous
    blocks arrived, and the watcher that keeps those times.  Times are nanoseconds. */
module RealTimeTarget {

  const BLOCKS := 17
  const SECOND := 1_000_000_000.0
  const STALE := 10 * 60 * 1_000_000_000

  /** back: which of the previous blocks is measured from; span: the seconds it is scaled to. */
  datatype Window = Window(back: int, span: real)

  const WINDOWS := [Window(1, 150.0), Window(2, 600.0), Window(5, 2400.0), Window(11, 6000.0), Window(17, 9600.0)]

  // ---- the factor ----

  function Max(x: real, y: real): real {
    if x < y then y else x
  }

  function Pow(x: real, n: int): real {
    if n <= 0 then 1.0 else Product(x, Pow(x, n - 1))
  }

  function Product(x: real, y: real): real {
    x * y
  }

  /** The target grows with the fifth power of time. */
  function Pow5(x: real): real {
    Pow(x, 5)
  }

  function Age(now: int, arrival: int): real {
    Max(1.0, (now - arrival) as real / SECOND)
  }

  /** The real-time target of one window, relative to the header target. */
  function Target(c: real, w: Window, now: int, arrivals: seq<int>): real
    requires 0 < w.back <= |arrivals| && w.span > 0.0
  {
    c * Pow5(Age(now, arrivals[w.back - 1]) / w.span)
  }

  /** Window k applies: there are enough known blocks for it and the windows before it. */
  predicate Applies(k: int, arrivals: seq<int>) {
    0 <= k < |WINDOWS| && WINDOWS[k].back <= |arrivals|
  }

  /** f is the least factor of at least 1 that meets the header target and the real-time target of every window. */
  ghost predicate IsFactor(c: real, now: int, arrivals: seq<int>, f: real) {
    && f >= 1.0
    && (forall k :: Applies(k, arrivals) ==> Meets(c, k, now, arrivals, f))
    && (f == 1.0 || exists k :: Applies(k, arrivals) && Binds(c, k, now, arrivals, f))
  }

  ghost predicate Meets(c: real, k: int, now: int, arrivals: seq<int>, f: real)
    requires Applies(k, arrivals)
  {
    f * Target(c, WINDOWS[k], now, arrivals) >= 1.0
  }

  ghost predicate Binds(c: real, k: int, now: int, arrivals: seq<int>, f: real)
    requires Applies(k, arrivals)
  {
    f * Target(c, WINDOWS[k], now, arrivals) == 1.0
  }

  lemma ProductGrows(a: real, b: real, x: real, y: real)
    requires 0.0 < a <= b && 0.0 < x <= y
    ensures 0.0 < Product(a, x) <= Product(b, y)
  {
  }

  lemma {:induction false} PowGrows(x: real, y: real, n: int)
    requires 0.0 < x <= y
    ensures 0.0 < Pow(x, n) <= Pow(y, n)
    decreases if n <= 0 then 0 else n
  {
    hide Product;
    if n > 0 {
      PowGrows(x, y, n - 1);
      ProductGrows(x, y, Pow(x, n - 1), Pow(y, n - 1));
    }
  }

  lemma Quotient(a: real, b: real, s: real)
    requires 0.0 < a <= b && s > 0.0
    ensures 0.0 < a / s <= b / s
  {
  }

  /** The target of a window is positive and only grows with the age of its block. */
  lemma TargetGrows(c: real, w: Window, v: Window, now: int, later: int, xs: seq<int>, ys: seq<int>)
    requires c > 0.0 && w.span > 0.0 && v.span == w.span && 0 < w.back <= |xs| && 0 < v.back <= |ys|
    requires now - xs[w.back - 1] <= later - ys[v.back - 1]
    ensures 0.0 < Target(c, w, now, xs) <= Target(c, v, later, ys)
  {
    hide Pow;
    var a, b := Age(now, xs[w.back - 1]), Age(later, ys[v.back - 1]);
    AgeGrows(now - xs[w.back - 1], later - ys[v.back - 1]);
    Quotient(a, b, w.span);
    PowGrows(a / w.span, b / w.span, 5);
    Scale(c, Pow5(a / w.span), Pow5(b / w.span));
  }

  lemma AgeGrows(a: int, b: int)
    requires a <= b
    ensures Max(1.0, a as real / SECOND) <= Max(1.0, b as real / SECOND)
  {
  }

  lemma Scale(c: real, x: real, y: real)
    requires c > 0.0 && 0.0 < x <= y
    ensures 0.0 < c * x <= c * y
  {
  }

  /** 1 over m, at least 1. */
  function Inverse(m: real): real
    requires m > 0.0
  {
    if m >= 1.0 then 1.0 else 1.0 / m
  }

  lemma InverseIs(m: real)
    requires m > 0.0
    ensures Inverse(m) == if m >= 1.0 then 1.0 else 1.0 / m
  {
  }

  lemma InverseMeets(m: real, t: real)
    requires 0.0 < m <= t
    ensures Inverse(m) * t >= 1.0 && Inverse(m) >= 1.0 && (m < 1.0 ==> Inverse(m) * m == 1.0)
  {
    if m < 1.0 {
      assert (1.0 / m) * m == 1.0;
      Scale(1.0 / m, m, t);
    }
  }

  /** The loop over the windows, with the running minimum. */
  method ComputeFactor(c: real, now: int, arrivals: seq<int>) returns (f: real)
    requires c > 0.0
    ensures IsFactor(c, now, arrivals, f)
  {
    hide Target, Inverse;
    var m: real := 1.0;
    var bound := false;
    var k := 0;
    ghost var least := 0;
    while k < |WINDOWS| && WINDOWS[k].back <= |arrivals|
      invariant 0 <= k <= |WINDOWS| && m > 0.0
      invariant forall j :: 0 <= j < k ==> Applies(j, arrivals) && (bound && m <= Target(c, WINDOWS[j], now, arrivals))
      invariant bound ==> Applies(least, arrivals) && m == Target(c, WINDOWS[least], now, arrivals)
    {
      TargetGrows(c, WINDOWS[k], WINDOWS[k], now, now, arrivals, arrivals);
      var t := Target(c, WINDOWS[k], now, arrivals);
      if !bound || t < m {
        m, bound, least := t, true, k;
      }
      k := k + 1;
    }
    assert forall j :: Applies(j, arrivals) ==> j < k;
    if !bound || m >= 1.0 {
      f := 1.0;
    } else {
      f := 1.0 / m;
    }
    InverseIs(m);
    forall j | Applies(j, arrivals) ensures Meets(c, j, now, arrivals, f) {
      InverseMeets(m, Target(c, WINDOWS[j], now, arrivals));
    }
    if f != 1.0 {
      InverseMeets(m, m);
      assert Binds(c, least, now, arrivals, f);
    } else if bound {
      InverseMeets(m, m);
    }
  }

  lemma LessMeets(f: real, g: real, t: real, u: real)
    requires 0.0 < t <= u && f >= 1.0 && f * t >= 1.0 && g * u == 1.0
    ensures g <= f
  {
    Scale(f, t, u);
    var fu, gu := f * u, g * u;
    assert gu <= fu;
    Cancel(g, f, u, gu, fu);
  }

  lemma Cancel(g: real, f: real, u: real, gu: real, fu: real)
    requires u > 0.0 && gu == g * u && fu == f * u && gu <= fu
    ensures g <= f
  {
  }

  /** The factor is unique, and never grows when every window is measured from an older block or not at all. */
  lemma FactorCompare(c: real, now: int, later: int, xs: seq<int>, ys: seq<int>, f: real, g: real)
    requires c > 0.0 && IsFactor(c, now, xs, f) && IsFactor(c, later, ys, g)
    requires forall k :: Applies(k, ys) ==> Applies(k, xs) && now - xs[WINDOWS[k].back - 1] <= later - ys[WINDOWS[k].back - 1]
    ensures g <= f
  {
    hide Target;
    if g != 1.0 {
      var k :| Applies(k, ys) && Binds(c, k, later, ys, g);
      assert Meets(c, k, now, xs, f);
      TargetGrows(c, WINDOWS[k], WINDOWS[k], now, later, xs, ys);
      LessMeets(f, g, Target(c, WINDOWS[k], now, xs), Target(c, WINDOWS[k], later, ys));
    }
  }

  /** Between two arrivals blocks only get easier. */
  lemma FactorFalls(c: real, now: int, later: int, arrivals: seq<int>, f: real, g: real)
    requires c > 0.0 && now <= later && IsFactor(c, now, arrivals, f) && IsFactor(c, later, arrivals, g)
    ensures g <= f
  {
    hide IsFactor;
    FactorCompare(c, now, later, arrivals, arrivals, f, g);
  }

  // ---- in numbers ----

  /** A window's target is c at the age of its span and grows with the fifth power of the age, which counts as a second at
      least. */
  lemma TargetIs(c: real, w: Window, now: int, arrivals: seq<int>, age: real)
    requires 0 < w.back <= |arrivals| && w.span > 0.0
    requires age == (now - arrivals[w.back - 1]) as real / 1_000_000_000.0
    ensures var a := if age < 1.0 then 1.0 else age;
            Target(c, w, now, arrivals) == c * Fifth(a / w.span)
  {
    FifthIs(Age(now, arrivals[w.back - 1]) / w.span);
  }

  function Fifth(x: real): real {
    x * x * x * x * x
  }

  lemma FifthIs(x: real)
    ensures Pow5(x) == Fifth(x)
  {
    assert Pow(x, 0) == 1.0 && Pow(x, 1) == x;
    assert Pow(x, 2) == x * x;
    assert Pow(x, 3) == x * (x * x);
    assert Pow(x, 4) == x * (x * (x * x));
    assert Pow(x, 5) == x * (x * (x * (x * x)));
  }

  /** The blocks that are measured from, with their spans in seconds: one block back for 150 s up to 17 back for 9600 s. */
  lemma WindowsAre(k: int)
    requires 0 <= k < |WINDOWS|
    ensures |WINDOWS| == 5
    ensures var w := WINDOWS[k];
            && w.back == (if k == 0 then 1 else if k == 1 then 2 else if k == 2 then 5 else if k == 3 then 11 else 17)
            && w.span == (if k == 0 then 150.0 else if k == 1 then 600.0 else if k == 2 then 2400.0 else if k == 3 then 6000.0 else 9600.0)
  {
  }

  /** A factor of f for each window the known blocks reach, and no smaller one. */
  lemma FactorMeans(c: real, now: int, arrivals: seq<int>, f: real)
    requires c > 0.0 && IsFactor(c, now, arrivals, f)
    ensures f >= 1.0
    ensures forall k :: 0 <= k < 5 && WINDOWS[k].back <= |arrivals| ==> f * Target(c, WINDOWS[k], now, arrivals) >= 1.0
    ensures f == 1.0 || exists k :: 0 <= k < 5 && WINDOWS[k].back <= |arrivals| && f * Target(c, WINDOWS[k], now, arrivals) == 1.0
  {
    hide Target;
    forall k | 0 <= k < 5 && WINDOWS[k].back <= |arrivals| ensures f * Target(c, WINDOWS[k], now, arrivals) >= 1.0 {
      assert Applies(k, arrivals);
      assert Meets(c, k, now, arrivals, f);
    }
    if f != 1.0 {
      var k :| Applies(k, arrivals) && Binds(c, k, now, arrivals, f);
    }
  }

  /** The newest 17 arrivals are kept, the new one first. */
  lemma ArrivedIs(arrivals: seq<int>, now: int)
    ensures var xs := Arrived(arrivals, now);
            && |xs| == (if |arrivals| < 16 then |arrivals| + 1 else 17) && xs[0] == now
            && forall i :: 1 <= i < |xs| ==> xs[i] == arrivals[i - 1]
  {
  }

  // ---- the watcher ----

  /** The arrivals, newest first, none after now. */
  predicate NewestFirst(arrivals: seq<int>, now: int) {
    && |arrivals| <= BLOCKS
    && (forall i, j :: 0 <= i < j < |arrivals| ==> arrivals[j] <= arrivals[i])
    && (forall i :: 0 <= i < |arrivals| ==> arrivals[i] <= now)
  }

  /** The arrivals with one more at now. */
  function Arrived(arrivals: seq<int>, now: int): seq<int> {
    [now] + arrivals[..if |arrivals| < BLOCKS - 1 then |arrivals| else BLOCKS - 1]
  }

  /** The list stays ordered and bounded, and a block that arrives never makes the next one easier. */
  lemma BlockHardens(c: real, now: int, arrivals: seq<int>, f: real, g: real)
    requires c > 0.0 && NewestFirst(arrivals, now)
    requires IsFactor(c, now, arrivals, f) && IsFactor(c, now, Arrived(arrivals, now), g)
    ensures NewestFirst(Arrived(arrivals, now), now) && f <= g
  {
    hide IsFactor;
    var xs := Arrived(arrivals, now);
    forall k | Applies(k, arrivals)
      ensures Applies(k, xs) && now - xs[WINDOWS[k].back - 1] <= now - arrivals[WINDOWS[k].back - 1]
    {
    }
    FactorCompare(c, now, now, xs, arrivals, g, f);
  }

  class Watcher {
    const c: real
    var connected: bool
    var arrivals: seq<int>
    var prevhash: string
    var nbits: int   // target of the current job
    var updated: int

    /** Not connected yet, with the block times of the seed. */
    constructor (c: real, seed: seq<int>)
      requires c > 0.0
      ensures this.c == c && !connected && prevhash == "" && arrivals == seed[..if |seed| < BLOCKS then |seed| else BLOCKS]
    {
      this.c := c;
      connected, prevhash, nbits, updated := false, "", 0, 0;
      arrivals := seed[..if |seed| < BLOCKS then |seed| else BLOCKS];
    }

    /** A job: a new previous-block hash means a block arrived, which wakes block hunting.  Its
        target counts when it can be read. */
    method Job(prev: string, readable: bool, bits: int, now: int) returns (block: bool)
      modifies this`updated, this`arrivals, this`prevhash, this`nbits
      ensures prevhash == prev && updated == now && nbits == if readable then bits else old(nbits)
      ensures block == (old(prevhash) != "" && prev != old(prevhash))
      ensures Live() == (connected && prev != "")
      ensures arrivals == if block then Arrived(old(arrivals), now) else old(arrivals)
    {
      updated := now;
      block := prevhash != "" && prev != prevhash;
      if block {
        arrivals := [now] + arrivals[..if |arrivals| < BLOCKS - 1 then |arrivals| else BLOCKS - 1];
      }
      prevhash := prev;
      if readable {
        nbits := bits;
      }
    }

    predicate Live()
      reads this
    {
      connected && prevhash != ""
    }

    /** The block times describe the chain now. */
    predicate Known(now: int)
      reads this
    {
      arrivals != [] && (connected || now - updated < STALE)
    }

    method Hardness(now: int) returns (f: real)
      requires c > 0.0
      ensures if arrivals != [] && (connected || now - updated < 600_000_000_000) then IsFactor(c, now, arrivals, f) else f == 1.0
    {
      if !Known(now) {
        return 1.0;
      }
      f := ComputeFactor(c, now, arrivals);
    }
  }
}
