/** The two-tier roll-up of one series of the history, with crashes.

    Fine points are appended to disk when their interval ends and merged into the hour in memory;
    a finished hour is appended to the coarse tier.  A crash loses the memory; the next start
    rebuilds the hours from the fine points.  An operation is the list of its appends, in order,
    and the memory it leaves, so a crash between any two appends is a prefix of that list.

    `ExactlyOnce` is the main result: in every run, whatever crashes happen, each hour inside the
    fine retention is rolled up exactly once. */
module HistoryRollup {
  import opened HistoryPoint

  /** A second, in nanoseconds. */
  const NS := 1_000_000_000

  const HOUR := 3600
  const DAY := 86400

  datatype Disk = Disk(fine: seq<Point>, coarse: seq<Point>)
  datatype Write = ToFine(p: Point) | ToCoarse(p: Point)
  datatype Memory = Memory(cur: Point, acc: Point)
  datatype Outcome = Outcome(writes: seq<Write>, memory: Memory)

  function Apply(d: Disk, w: Write): Disk {
    match w
    case ToFine(p) => d.(fine := d.fine + [p])
    case ToCoarse(p) => d.(coarse := d.coarse + [p])
  }

  function Replay(d: Disk, ws: seq<Write>): Disk {
    if ws == [] then d else Apply(Replay(d, ws[..|ws| - 1]), ws[|ws| - 1])
  }

  lemma {:induction false} ReplayConcat(d: Disk, xs: seq<Write>, ys: seq<Write>)
    ensures Replay(d, xs + ys) == Replay(Replay(d, xs), ys)
  {
    if ys == [] {
      assert xs + ys == xs;
    } else {
      assert (xs + ys)[..|xs + ys| - 1] == xs + ys[..|ys| - 1];
      ReplayConcat(d, xs, ys[..|ys| - 1]);
    }
  }

  /** The start of the interval of the given length that t is in. */
  function Start(t: int, step: int): int
    requires step > 0
  {
    t - t % step
  }

  predicate OnHour(t: int) {
    t % HOUR == 0
  }

  lemma HourOf(t: int)
    ensures OnHour(Start(t, HOUR)) && Start(t, HOUR) <= t < Start(t, HOUR) + HOUR
  {
  }

  lemma HoursApart(x: int, y: int)
    requires OnHour(x) && OnHour(y) && x < y
    ensures x + HOUR <= y
  {
  }

  lemma NextOnHour(x: int)
    requires OnHour(x)
    ensures OnHour(x + HOUR) && OnHour(x - HOUR)
  {
  }

  // ---- adding a minute ----

  /** The fine interval is written and merged into the hour, which is written when complete. */
  function Flush(m: Memory, end: int): Outcome {
    var ct := Start(m.cur.t, HOUR);
    var gap := m.acc.s > 0 && m.acc.t != ct;
    var acc := Add(if m.acc.s == 0 || gap then Empty(ct) else m.acc, m.cur);
    var first := [ToFine(m.cur)] + if gap then [ToCoarse(m.acc)] else [];
    if end >= acc.t + HOUR then Outcome(first + [ToCoarse(acc)], Memory(Empty(0), Empty(0)))
    else Outcome(first, Memory(Empty(0), acc))
  }

  /** What adding p does once the interval of p is the one in memory. */
  function AddToCurrent(m: Memory, p: Point, step: int, end: int): Outcome
    requires step > 0
  {
    var cur := Add(if m.cur.s == 0 then Empty(Start(p.t, step)) else m.cur, p);
    if end >= cur.t + step then Flush(m.(cur := cur), end) else Outcome([], m.(cur := cur))
  }

  function AddMinute(m: Memory, p: Point, step: int, end: int): Outcome
    requires step > 0
  {
    if m.cur.s > 0 && m.cur.t != Start(p.t, step) then
      var gap := Flush(m, end);
      var rest := AddToCurrent(gap.memory, p, step, end);
      Outcome(gap.writes + rest.writes, rest.memory)
    else AddToCurrent(m, p, step, end)
  }

  // ---- recovery ----

  /** The points of the hour that starts at ct, in file order. */
  function InHour(pts: seq<Point>, ct: int): seq<Point> {
    if pts == [] then [] else
      InHour(pts[..|pts| - 1], ct) + if Start(pts[|pts| - 1].t, HOUR) == ct then [pts[|pts| - 1]] else []
  }

  /** The points that start in [from, to), in file order. */
  function Within(pts: seq<Point>, from: int, to: int): seq<Point> {
    if pts == [] then [] else
      Within(pts[..|pts| - 1], from, to) + if from <= pts[|pts| - 1].t < to then [pts[|pts| - 1]] else []
  }

  /** The start of the newest point, 0 without points. */
  function Newest(pts: seq<Point>): int {
    if pts == [] then 0 else Max(Newest(pts[..|pts| - 1]), pts[|pts| - 1].t)
  }

  function Max(x: int, y: int): int {
    if x < y then y else x
  }

  function HourPoint(pts: seq<Point>, ct: int): seq<Point> {
    if InHour(pts, ct) == [] then [] else [Fold(ct, InHour(pts, ct))]
  }

  /** The appends that roll up the hours from ct on that have ended by now, oldest first. */
  function Rolled(pts: seq<Point>, ct: int, now: int): seq<Write>
    decreases now - ct
  {
    if ct + HOUR > now then [] else
      (if InHour(pts, ct) == [] then [] else [ToCoarse(Fold(ct, InHour(pts, ct)))]) + Rolled(pts, ct + HOUR, now)
  }

  /** Where recovery starts to read: inside the fine retention, after the newest hour on disk. */
  function ReadFrom(d: Disk, keep: int, now: int): int {
    if Newest(d.coarse) != 0 then Max(now - keep, Newest(d.coarse) + HOUR) else now - keep
  }

  /** The hour that is not over yet: the latest one with points. */
  function Unfinished(pts: seq<Point>, now: int): Point {
    var ct := Start(now, HOUR);
    if InHour(pts, ct + HOUR) != [] then Fold(ct + HOUR, InHour(pts, ct + HOUR))
    else if InHour(pts, ct) != [] then Fold(ct, InHour(pts, ct))
    else Empty(0)
  }

  function Recover(d: Disk, step: int, keep: int, now: int): Outcome {
    var from := ReadFrom(d, keep, now);
    var pts := Within(d.fine, from, now + step);
    Outcome(Rolled(pts, Start(from, HOUR), now), Memory(Empty(0), Unfinished(pts, now)))
  }

  // ---- small facts about the filters ----

  lemma {:induction false} InHourConcat(xs: seq<Point>, ys: seq<Point>, ct: int)
    ensures InHour(xs + ys, ct) == InHour(xs, ct) + InHour(ys, ct)
  {
    if ys == [] {
      assert xs + ys == xs;
    } else {
      InHourConcat(xs, ys[..|ys| - 1], ct);
      assert (xs + ys)[..|xs + ys| - 1] == xs + ys[..|ys| - 1];
    }
  }

  lemma InHourSnoc(pts: seq<Point>, p: Point, ct: int)
    ensures InHour(pts + [p], ct) == InHour(pts, ct) + if Start(p.t, HOUR) == ct then [p] else []
  {
    assert (pts + [p])[..|pts|] == pts;
  }

  lemma {:induction false} InHourMembers(pts: seq<Point>, ct: int)
    ensures forall i :: 0 <= i < |InHour(pts, ct)| ==>
      InHour(pts, ct)[i] in pts && Start(InHour(pts, ct)[i].t, HOUR) == ct
    ensures InHour(pts, ct) != [] <==> exists i :: 0 <= i < |pts| && Start(pts[i].t, HOUR) == ct
  {
    if pts != [] {
      InHourMembers(pts[..|pts| - 1], ct);
      assert forall i :: 0 <= i < |pts| - 1 ==> pts[..|pts| - 1][i] == pts[i];
    }
  }

  lemma {:induction false} WithinMembers(pts: seq<Point>, from: int, to: int)
    ensures forall i :: 0 <= i < |Within(pts, from, to)| ==>
      Within(pts, from, to)[i] in pts && from <= Within(pts, from, to)[i].t < to
  {
    if pts != [] {
      WithinMembers(pts[..|pts| - 1], from, to);
    }
  }

  /** An hour that lies in the range that is read is read completely. */
  lemma {:induction false} WithinKeepsHour(pts: seq<Point>, from: int, to: int, ct: int)
    requires from <= ct
    requires forall i :: 0 <= i < |pts| ==> pts[i].t < to
    ensures InHour(Within(pts, from, to), ct) == InHour(pts, ct)
  {
    if pts != [] {
      var init, last := pts[..|pts| - 1], pts[|pts| - 1];
      WithinKeepsHour(init, from, to, ct);
      assert Within(pts, from, to) == Within(init, from, to) + if from <= last.t < to then [last] else [];
      if from <= last.t < to {
        InHourSnoc(Within(init, from, to), last, ct);
      } else {
        assert Start(last.t, HOUR) <= last.t < ct;
        assert Within(pts, from, to) == Within(init, from, to);
      }
    }
  }

  lemma {:induction false} NewestBounds(pts: seq<Point>)
    ensures forall i :: 0 <= i < |pts| ==> pts[i].t <= Newest(pts)
    ensures Newest(pts) >= 0
    ensures Newest(pts) != 0 ==> exists i :: 0 <= i < |pts| && pts[i].t == Newest(pts)
  {
    if pts != [] {
      NewestBounds(pts[..|pts| - 1]);
      assert forall i :: 0 <= i < |pts| - 1 ==> pts[..|pts| - 1][i] == pts[i];
      assert pts[|pts| - 1] == pts[|pts| - 1];
    }
  }

  // ---- what holds on disk, and while the proxy runs ----

  /** The points on disk for the hour that starts at ct. */
  function CoarseAt(coarse: seq<Point>, ct: int): seq<Point> {
    if coarse == [] then [] else
      CoarseAt(coarse[..|coarse| - 1], ct) + if coarse[|coarse| - 1].t == ct then [coarse[|coarse| - 1]] else []
  }

  predicate FineOk(fine: seq<Point>, now: int) {
    forall i :: 0 <= i < |fine| ==> fine[i].s > 0 && HOUR <= fine[i].t <= now
  }

  /** Hours are written in order, each after it ended. */
  predicate CoarseOk(coarse: seq<Point>, now: int) {
    && (forall i :: 0 <= i < |coarse| ==>
          coarse[i].s > 0 && OnHour(coarse[i].t) && HOUR <= coarse[i].t <= now - HOUR)
    && (forall i, j :: 0 <= i < j < |coarse| ==> coarse[i].t < coarse[j].t)
  }

  /** Up to the newest hour on disk, every hour from cut on has its one point, or none when it is empty. */
  ghost predicate RolledUp(d: Disk, cut: int) {
    forall ct :: OnHour(ct) && cut <= ct <= Newest(d.coarse) ==> CoarseAt(d.coarse, ct) == HourPoint(d.fine, ct)
  }

  /** What every crash leaves behind. */
  ghost predicate DiskInv(d: Disk, cut: int, now: int) {
    FineOk(d.fine, now) && CoarseOk(d.coarse, now) && RolledUp(d, cut)
  }

  /** The hours that are not on disk yet are in memory: at most the current one. */
  ghost predicate OnlyCurrent(d: Disk, m: Memory, cut: int) {
    forall ct :: OnHour(ct) && cut <= ct && Newest(d.coarse) < ct && InHour(d.fine, ct) != [] ==>
      m.acc.s > 0 && m.acc.t == ct
  }

  /** What holds between two operations of the running proxy at time now (in seconds). */
  ghost predicate RunInv(d: Disk, m: Memory, step: int, cut: int, now: int)
    requires step > 0
  {
    && DiskInv(d, cut, now)
    && Proper(m.cur) && Proper(m.acc)
    && (m.cur.s > 0 ==> m.cur.t == Start(now, step))
    && (m.acc.s > 0 ==> m.acc.t == Start(now, HOUR) && HourPoint(d.fine, m.acc.t) == [m.acc])
    && OnlyCurrent(d, m, cut)
  }

  /** The fine tiers of the program: minutes for the totals, ten minutes for the workers. */
  predicate StepOk(step: int) {
    step == 60 || step == 600
  }

  /** The minute that began at the previous record lies in the same fine interval and hour as that moment. */
  lemma MinuteInside(t: int, step: int)
    requires StepOk(step)
    ensures Start(Start(t, 60), step) == Start(t, step)
    ensures Start(Start(t, step), HOUR) == Start(t, HOUR)
    ensures Start(t, step) % 60 == 0 && Start(t, HOUR) <= Start(t, step) <= t < Start(t, step) + step
    ensures Start(t, step) + step <= Start(t, HOUR) + HOUR
  {
    var k, h := t / 3600, t % 3600;
    var j, m := h / 600, h % 600;
    var i, r := m / 60, m % 60;
    Divided60(t, 60 * k + 10 * j + i, r);
    Divided600(t, 6 * k + j, m);
    Divided600(t - r, 6 * k + j, m - r);
    Divided60(t - r, 60 * k + 10 * j + i, 0);
    Divided60(t - m, 60 * k + 10 * j, 0);
    Divided3600(t - r, k, h - r);
    Divided3600(t - m, k, h - m);
  }

  lemma Divided60(t: int, q: int, r: int)
    requires t == q * 60 + r && 0 <= r < 60
    ensures t % 60 == r
  {
  }

  lemma Divided600(t: int, q: int, r: int)
    requires t == q * 600 + r && 0 <= r < 600
    ensures t % 600 == r
  {
  }

  lemma Divided3600(t: int, q: int, r: int)
    requires t == q * 3600 + r && 0 <= r < 3600
    ensures t % 3600 == r
  {
  }

  lemma {:induction false} CoarseAtConcat(xs: seq<Point>, p: Point, ct: int)
    ensures CoarseAt(xs + [p], ct) == CoarseAt(xs, ct) + if p.t == ct then [p] else []
  {
    assert (xs + [p])[..|xs|] == xs;
  }

  lemma {:induction false} CoarseAtNone(coarse: seq<Point>, ct: int)
    requires forall i :: 0 <= i < |coarse| ==> coarse[i].t != ct
    ensures CoarseAt(coarse, ct) == []
  {
    if coarse != [] {
      CoarseAtNone(coarse[..|coarse| - 1], ct);
    }
  }

  lemma NewestSnoc(pts: seq<Point>, p: Point)
    ensures Newest(pts + [p]) == Max(Newest(pts), p.t)
  {
    assert (pts + [p])[..|pts|] == pts;
  }

  /** A fine append keeps the disk in order when its hour is not rolled up yet. */
  lemma FineAppend(d: Disk, p: Point, cut: int, now: int)
    requires DiskInv(d, cut, now)
    requires p.s > 0 && HOUR <= p.t <= now && Newest(d.coarse) < Start(p.t, HOUR)
    ensures DiskInv(Apply(d, ToFine(p)), cut, now)
  {
    var e := Apply(d, ToFine(p));
    forall ct | OnHour(ct) && cut <= ct <= Newest(e.coarse)
      ensures CoarseAt(e.coarse, ct) == HourPoint(e.fine, ct)
    {
      InHourSnoc(d.fine, p, ct);
      assert InHour(e.fine, ct) == InHour(d.fine, ct);
    }
  }

  /** A coarse append keeps it when p is the whole of its hour and nothing before it is missing. */
  lemma CoarseAppend(d: Disk, p: Point, cut: int, now: int)
    requires DiskInv(d, cut, now)
    requires p.s > 0 && OnHour(p.t) && HOUR <= p.t <= now - HOUR && Newest(d.coarse) < p.t
    requires cut <= p.t ==> HourPoint(d.fine, p.t) == [p]
    requires forall ct :: OnHour(ct) && cut <= ct && Newest(d.coarse) < ct < p.t ==> InHour(d.fine, ct) == []
    ensures DiskInv(Apply(d, ToCoarse(p)), cut, now)
    ensures Newest(Apply(d, ToCoarse(p)).coarse) == p.t
  {
    var e := Apply(d, ToCoarse(p));
    NewestBounds(d.coarse);
    NewestSnoc(d.coarse, p);
    forall ct | OnHour(ct) && cut <= ct <= p.t
      ensures CoarseAt(e.coarse, ct) == HourPoint(e.fine, ct)
    {
      CoarseAtConcat(d.coarse, p, ct);
      if Newest(d.coarse) < ct {
        CoarseAtNone(d.coarse, ct);
      } else {
        assert CoarseAt(d.coarse, ct) == HourPoint(d.fine, ct);
      }
    }
  }

  lemma DiskInvLater(d: Disk, cut: int, now: int, cut': int, now': int)
    requires DiskInv(d, cut, now) && cut <= cut' && now <= now'
    ensures DiskInv(d, cut', now')
  {
  }

  /** Every crash during the appends ws leaves a good disk. */
  ghost predicate SafeAppends(d: Disk, ws: seq<Write>, cut: int, now: int) {
    forall k :: 0 <= k <= |ws| ==> DiskInv(Replay(d, ws[..k]), cut, now)
  }

  lemma SafeAppendsSnoc(d: Disk, ws: seq<Write>, w: Write, cut: int, now: int)
    requires SafeAppends(d, ws, cut, now)
    requires DiskInv(Apply(Replay(d, ws), w), cut, now)
    ensures SafeAppends(d, ws + [w], cut, now)
    ensures Replay(d, ws + [w]) == Apply(Replay(d, ws), w)
  {
    hide DiskInv, Apply;
    var all := ws + [w];
    assert all[..|ws|] == ws;
    forall k | 0 <= k <= |all| ensures DiskInv(Replay(d, all[..k]), cut, now) {
      if k <= |ws| {
        assert all[..k] == ws[..k];
      } else {
        assert all[..k] == all;
      }
    }
  }

  lemma StartStays(t: int, end: int, step: int)
    requires StepOk(step) || step == HOUR
    requires Start(t, step) <= end < Start(t, step) + step
    ensures Start(end, step) == Start(t, step)
  {
    if step == 60 {
      Divided60(end, t / 60, end - Start(t, step));
    } else if step == 600 {
      Divided600(end, t / 600, end - Start(t, step));
    } else {
      Divided3600(end, t / 3600, end - Start(t, step));
    }
  }

  lemma NewestIsOver(d: Disk, now: int)
    requires CoarseOk(d.coarse, now) && now >= HOUR
    ensures Newest(d.coarse) < Start(now, HOUR)
  {
    NewestBounds(d.coarse);
  }

  /** What holds right before a finished interval is written. */
  ghost predicate FlushReady(d: Disk, m: Memory, step: int, cut: int, t: int)
    requires step > 0
  {
    && HOUR <= t && cut <= Start(t, HOUR)
    && DiskInv(d, cut, t) && OnlyCurrent(d, m, cut)
    && Proper(m.cur) && m.cur.s > 0 && m.cur.t == Start(t, step) && Proper(m.acc)
    && (m.acc.s > 0 ==> m.acc.t == Start(t, HOUR) && HourPoint(d.fine, m.acc.t) == [m.acc])
  }

  /** The hour after the interval in memory was merged into it. */
  function NextHour(m: Memory, ct: int): Point {
    Add(if m.acc.s == 0 then Empty(ct) else m.acc, m.cur)
  }

  /** The interval in memory always belongs to the hour in memory: the clock does not go back. */
  lemma FlushShape(d: Disk, m: Memory, step: int, cut: int, t: int, end: int)
    requires StepOk(step) && FlushReady(d, m, step, cut, t)
    ensures var ct := Start(t, HOUR);
            var acc := NextHour(m, ct);
            && Start(m.cur.t, HOUR) == ct && acc.t == ct && acc.s > 0 && Proper(acc)
            && (if end >= ct + HOUR
                then Flush(m, end) == Outcome([ToFine(m.cur)] + [ToCoarse(acc)], Memory(Empty(0), Empty(0)))
                else Flush(m, end) == Outcome([ToFine(m.cur)], Memory(Empty(0), acc)))
  {
    hide Add, Fold, DiskInv, OnlyCurrent;
    MinuteInside(t, step);
    AddedSeconds(if m.acc.s == 0 then Empty(Start(t, HOUR)) else m.acc, m.cur);
    assert [ToFine(m.cur)] + [] == [ToFine(m.cur)];
  }

  lemma FineStage(d: Disk, m: Memory, step: int, cut: int, t: int)
    requires StepOk(step) && FlushReady(d, m, step, cut, t)
    ensures var d1 := Apply(d, ToFine(m.cur));
            && DiskInv(d1, cut, t) && Newest(d1.coarse) < Start(t, HOUR)
            && HourPoint(d1.fine, Start(t, HOUR)) == [NextHour(m, Start(t, HOUR))]
    ensures var d1 := Apply(d, ToFine(m.cur));
            forall h :: OnHour(h) && cut <= h && Newest(d1.coarse) < h && InHour(d1.fine, h) != [] ==> h == Start(t, HOUR)
  {
    hide Add, Fold;
    var ct := Start(t, HOUR);
    MinuteInside(t, step);
    NewestIsOver(d, t);
    FineAppend(d, m.cur, cut, t);
    HourGrows(d.fine, m, ct);
    var d1 := Apply(d, ToFine(m.cur));
    forall h | OnHour(h) && cut <= h && Newest(d1.coarse) < h && InHour(d1.fine, h) != [] ensures h == ct {
      InHourSnoc(d.fine, m.cur, h);
    }
  }

  /** A fine interval that ends is written and counted once in its hour: the appends are safe at every
      prefix, and the memory they leave is right. */
  lemma FlushKeeps(d: Disk, m: Memory, step: int, cut: int, t: int, end: int)
    requires StepOk(step) && FlushReady(d, m, step, cut, t) && t <= end
    ensures SafeAppends(d, Flush(m, end).writes, cut, end)
    ensures RunInv(Replay(d, Flush(m, end).writes), Flush(m, end).memory, step, cut, end)
  {
    hide Add, Fold, Flush, InHour, CoarseAt, NextHour, Newest, RolledUp, SafeAppends;
    var ct := Start(t, HOUR);
    FlushShape(d, m, step, cut, t, end);
    FineStage(d, m, step, cut, t);
    var d1, acc := Apply(d, ToFine(m.cur)), NextHour(m, ct);
    DiskInvLater(d, cut, t, cut, end);
    DiskInvLater(d1, cut, t, cut, end);
    StartsSafe(d, cut, end);
    SafeAppendsSnoc(d, [], ToFine(m.cur), cut, end);
    assert [] + [ToFine(m.cur)] == [ToFine(m.cur)];
    if end >= ct + HOUR {
      CoarseAppend(d1, acc, cut, end);
      SafeAppendsSnoc(d, [ToFine(m.cur)], ToCoarse(acc), cut, end);
    } else {
      StartStays(t, end, HOUR);
    }
  }

  lemma StartsSafe(d: Disk, cut: int, now: int)
    requires DiskInv(d, cut, now)
    ensures SafeAppends(d, [], cut, now) && Replay(d, []) == d
  {
  }

  /** The hour in memory follows the fine points on disk. */
  lemma HourGrows(fine: seq<Point>, m: Memory, ct: int)
    requires Start(m.cur.t, HOUR) == ct
    requires m.acc.s > 0 ==> m.acc.t == ct && HourPoint(fine, ct) == [m.acc]
    requires m.acc.s <= 0 ==> m.acc.s == 0 && InHour(fine, ct) == []
    ensures HourPoint(fine + [m.cur], ct) == [Add(if m.acc.s == 0 then Empty(ct) else m.acc, m.cur)]
  {
    hide Add;
    InHourSnoc(fine, m.cur, ct);
    FoldSnoc(ct, InHour(fine, ct), m.cur);
    assert HourPoint(fine, ct) == if InHour(fine, ct) == [] then [] else [Fold(ct, InHour(fine, ct))];
  }

  /** Adding a minute keeps the invariant, and so does every crash while it is written. */
  lemma MinuteKeeps(d: Disk, m: Memory, p: Point, step: int, cut: int, t: int, end: int)
    requires StepOk(step) && HOUR <= t <= end && cut <= Start(t, HOUR)
    requires RunInv(d, m, step, cut, t)
    requires p.t == Start(t, 60) && p.s > 0
    ensures SafeAppends(d, AddMinute(m, p, step, end).writes, cut, end)
    ensures RunInv(Replay(d, AddMinute(m, p, step, end).writes), AddMinute(m, p, step, end).memory, step, cut, end)
  {
    hide Add, Fold, Flush;
    MinuteInside(t, step);
    var cur := Add(if m.cur.s == 0 then Empty(Start(p.t, step)) else m.cur, p);
    AddIsProper(if m.cur.s == 0 then Empty(Start(p.t, step)) else m.cur, p);
    AddedSeconds(if m.cur.s == 0 then Empty(Start(p.t, step)) else m.cur, p);
    if end >= cur.t + step {
      FlushKeeps(d, m.(cur := cur), step, cut, t, end);
    } else {
      DiskInvLater(d, cut, t, cut, end);
      StartsSafe(d, cut, end);
      StartStays(t, end, step);
      StartStays(t, end, HOUR);
    }
  }

  // ---- recovery keeps the invariant ----

  /** pts is what recovery reads of d: complete for the hours from ct on that count. */
  ghost predicate ReadsWell(d: Disk, pts: seq<Point>, ct: int, cut: int) {
    && (forall i :: 0 <= i < |pts| ==> pts[i] in d.fine)
    && (forall h :: OnHour(h) && cut <= h && ct <= h ==> InHour(pts, h) == InHour(d.fine, h))
  }

  /** Nothing that counts is missing between the newest hour on disk and ct. */
  ghost predicate NoneBefore(d: Disk, ct: int, cut: int) {
    forall h :: OnHour(h) && cut <= h && Newest(d.coarse) < h < ct ==> InHour(d.fine, h) == []
  }

  lemma PrependSafe(d: Disk, w: Write, ws: seq<Write>, cut: int, now: int)
    requires DiskInv(d, cut, now) && SafeAppends(Apply(d, w), ws, cut, now)
    ensures SafeAppends(d, [w] + ws, cut, now)
    ensures Replay(d, [w] + ws) == Replay(Apply(d, w), ws)
  {
    hide DiskInv;
    ReplayConcat(d, [w], ws);
    assert Replay(d, [w]) == Apply(d, w) by {
      assert [w][..0] == [];
    }
    forall k | 0 <= k <= |ws| + 1 ensures DiskInv(Replay(d, ([w] + ws)[..k]), cut, now) {
      if k > 0 {
        assert ([w] + ws)[..k] == [w] + ws[..k - 1];
        ReplayConcat(d, [w], ws[..k - 1]);
      } else {
        assert ([w] + ws)[..k] == [];
      }
    }
  }

  /** The hours that are not on disk are not over yet. */
  ghost predicate OnlyOpen(d: Disk, cut: int, now: int) {
    forall h :: OnHour(h) && cut <= h && Newest(d.coarse) < h && InHour(d.fine, h) != [] ==> h + HOUR > now
  }

  lemma {:induction false} RolledKeeps(d: Disk, pts: seq<Point>, ct: int, cut: int, now: int)
    requires DiskInv(d, cut, now) && OnHour(ct)
    requires ReadsWell(d, pts, ct, cut) && NoneBefore(d, ct, cut)
    requires Newest(d.coarse) < ct || Newest(d.coarse) == 0
    ensures SafeAppends(d, Rolled(pts, ct, now), cut, now)
    ensures var e := Replay(d, Rolled(pts, ct, now));
            DiskInv(e, cut, now) && e.fine == d.fine && OnlyOpen(e, cut, now)
    decreases now - ct
  {
    hide InHour, Fold, CoarseAt, Newest, Replay, DiskInv, ReadsWell, NoneBefore, OnlyOpen, SafeAppends;
    StartsSafe(d, cut, now);
    if ct + HOUR > now {
      NothingLeft(d, ct, cut, now);
    } else if InHour(pts, ct) == [] {
      EmptyHourPasses(d, pts, ct, cut);
      RolledKeeps(d, pts, ct + HOUR, cut, now);
      assert Rolled(pts, ct, now) == Rolled(pts, ct + HOUR, now);
    } else {
      var w := ToCoarse(Fold(ct, InHour(pts, ct)));
      HourRolls(d, pts, ct, cut, now);
      RolledKeeps(Apply(d, w), pts, ct + HOUR, cut, now);
      PrependSafe(d, w, Rolled(pts, ct + HOUR, now), cut, now);
    }
  }

  lemma NothingLeft(d: Disk, ct: int, cut: int, now: int)
    requires NoneBefore(d, ct, cut) && ct + HOUR > now
    ensures OnlyOpen(d, cut, now)
  {
    forall h | OnHour(h) && cut <= h && Newest(d.coarse) < h && InHour(d.fine, h) != []
      ensures h + HOUR > now
    {
      assert h >= ct;
    }
  }

  lemma HourRolls(d: Disk, pts: seq<Point>, ct: int, cut: int, now: int)
    requires DiskInv(d, cut, now) && OnHour(ct) && ct + HOUR <= now && InHour(pts, ct) != []
    requires ReadsWell(d, pts, ct, cut) && NoneBefore(d, ct, cut)
    requires Newest(d.coarse) < ct || Newest(d.coarse) == 0
    ensures var e := Apply(d, ToCoarse(Fold(ct, InHour(pts, ct))));
            && DiskInv(e, cut, now) && Newest(e.coarse) == ct && e.fine == d.fine
            && ReadsWell(e, pts, ct + HOUR, cut) && NoneBefore(e, ct + HOUR, cut)
  {
    hide Fold, CoarseAt, InHour, Newest, RolledUp;
    HourIsWhole(d, pts, ct, cut, now);
    CoarseAppend(d, Fold(ct, InHour(pts, ct)), cut, now);
  }

  lemma EmptyHourPasses(d: Disk, pts: seq<Point>, ct: int, cut: int)
    requires OnHour(ct) && InHour(pts, ct) == []
    requires ReadsWell(d, pts, ct, cut) && NoneBefore(d, ct, cut)
    ensures NoneBefore(d, ct + HOUR, cut) && ReadsWell(d, pts, ct + HOUR, cut)
  {
    hide InHour, Newest;
    forall h | OnHour(h) && cut <= h && Newest(d.coarse) < h < ct + HOUR ensures InHour(d.fine, h) == [] {
      if h >= ct {
        assert h == ct;
        assert InHour(pts, h) == InHour(d.fine, h);
      }
    }
  }

  lemma HourIsWhole(d: Disk, pts: seq<Point>, ct: int, cut: int, now: int)
    requires FineOk(d.fine, now) && OnHour(ct) && InHour(pts, ct) != []
    requires ReadsWell(d, pts, ct, cut)
    ensures var p := Fold(ct, InHour(pts, ct));
            p.s > 0 && p.t == ct && ct >= HOUR && (cut <= ct ==> HourPoint(d.fine, ct) == [p])
  {
    hide Fold, InHour;
    InHourMembers(pts, ct);
    var q := InHour(pts, ct)[0];
    assert q in d.fine && Start(q.t, HOUR) == ct;
    AllRecorded(d, pts, ct, now);
    if cut <= ct {
      assert InHour(pts, ct) == InHour(d.fine, ct);
    }
  }

  lemma AllRecorded(d: Disk, pts: seq<Point>, ct: int, now: int)
    requires FineOk(d.fine, now) && InHour(pts, ct) != []
    requires forall i :: 0 <= i < |pts| ==> pts[i] in d.fine
    ensures Fold(ct, InHour(pts, ct)).s > 0 && Fold(ct, InHour(pts, ct)).t == ct
    ensures forall p :: p in d.fine ==> HOUR <= p.t
  {
    hide Fold, InHour;
    InHourMembers(pts, ct);
    assert forall p :: p in d.fine ==> p.s > 0;
    FoldIsProper(ct, InHour(pts, ct));
  }

  /** Recovery from any disk a crash left: its appends are safe at every prefix, and afterwards every hour
      that counts is on disk or, for the current hour, in memory. */
  lemma RecoverKeeps(d: Disk, step: int, keep: int, cut: int, t: int, now: int)
    requires StepOk(step) && keep >= DAY && HOUR <= t <= now && cut <= now - keep
    requires DiskInv(d, cut, t)
    ensures SafeAppends(d, Recover(d, step, keep, now).writes, now - keep, now)
    ensures RunInv(Replay(d, Recover(d, step, keep, now).writes), Recover(d, step, keep, now).memory, step, now - keep, now)
  {
    hide Fold, Add, InHour, CoarseAt, Newest, Rolled, Replay, ReadFrom, Unfinished, SafeAppends, ReadsWell, NoneBefore,
         Within, OnlyOpen, OnlyCurrent;
    var from := ReadFrom(d, keep, now);
    var pts := Within(d.fine, from, now + step);
    var lo := Start(from, HOUR);
    DiskInvLater(d, cut, t, now - keep, now);
    ReadFromFacts(d, keep, t, now);
    ReadIsWell(d, step, keep, t, now);
    RolledKeeps(d, pts, lo, now - keep, now);
    var e := Replay(d, Rolled(pts, lo, now));
    UnfinishedIsCurrent(d, step, keep, t, now);
    OpenIsCurrent(e, Unfinished(pts, now), now - keep, now);
  }

  lemma OpenIsCurrent(e: Disk, acc: Point, cut: int, now: int)
    requires FineOk(e.fine, now) && OnlyOpen(e, cut, now)
    requires acc.s > 0 ==> acc.t == Start(now, HOUR)
    requires InHour(e.fine, Start(now, HOUR)) != [] ==> acc.s > 0
    ensures OnlyCurrent(e, Memory(Empty(0), acc), cut)
  {
    hide InHour, Newest;
    forall h | OnHour(h) && cut <= h && Newest(e.coarse) < h && InHour(e.fine, h) != []
      ensures acc.s > 0 && acc.t == h
    {
      InHourMembers(e.fine, h);
      assert h == Start(now, HOUR);
    }
  }

  lemma NewestAligned(coarse: seq<Point>, now: int)
    requires CoarseOk(coarse, now)
    ensures OnHour(Newest(coarse))
  {
    NewestBounds(coarse);
  }

  lemma ReadFromFacts(d: Disk, keep: int, t: int, now: int)
    requires keep >= DAY && HOUR <= t <= now && CoarseOk(d.coarse, t)
    ensures var from := ReadFrom(d, keep, now);
            var lo := Start(from, HOUR);
            && OnHour(lo) && (Newest(d.coarse) < lo || Newest(d.coarse) == 0)
            && (forall h :: OnHour(h) && now - keep <= h && (lo <= h || Newest(d.coarse) < h) ==> from <= h)
            && from <= Start(now, HOUR)
  {
    NewestAligned(d.coarse, t);
    NewestBounds(d.coarse);
  }

  lemma ReadIsWell(d: Disk, step: int, keep: int, t: int, now: int)
    requires StepOk(step) && keep >= DAY && HOUR <= t <= now && FineOk(d.fine, t) && CoarseOk(d.coarse, t)
    ensures var from := ReadFrom(d, keep, now);
            ReadsWell(d, Within(d.fine, from, now + step), Start(from, HOUR), now - keep)
    ensures NoneBefore(d, Start(ReadFrom(d, keep, now), HOUR), now - keep)
  {
    hide ReadFrom;
    var from := ReadFrom(d, keep, now);
    ReadFromFacts(d, keep, t, now);
    WithinMembers(d.fine, from, now + step);
    forall h | OnHour(h) && now - keep <= h && Start(from, HOUR) <= h
      ensures InHour(Within(d.fine, from, now + step), h) == InHour(d.fine, h)
    {
      WithinKeepsHour(d.fine, from, now + step, h);
    }
  }

  lemma UnfinishedIsCurrent(d: Disk, step: int, keep: int, t: int, now: int)
    requires StepOk(step) && keep >= DAY && HOUR <= t <= now && FineOk(d.fine, t) && CoarseOk(d.coarse, t)
    ensures var acc := Unfinished(Within(d.fine, ReadFrom(d, keep, now), now + step), now);
            && Proper(acc) && (acc.s > 0 ==> acc.t == Start(now, HOUR) && HourPoint(d.fine, acc.t) == [acc])
            && (InHour(d.fine, Start(now, HOUR)) != [] ==> acc.s > 0)
  {
    hide Fold, ReadFrom, InHour, Within;
    var ct := Start(now, HOUR);
    var from := ReadFrom(d, keep, now);
    ReadFromFacts(d, keep, t, now);
    var pts := Within(d.fine, from, now + step);
    WithinKeepsHour(d.fine, from, now + step, ct);
    NothingAhead(d.fine, from, now + step, t, ct + HOUR);
    HourIsProper(d.fine, ct, t);
  }

  lemma NothingAhead(fine: seq<Point>, from: int, to: int, t: int, ct: int)
    requires FineOk(fine, t) && t < ct
    ensures InHour(Within(fine, from, to), ct) == []
  {
    hide InHour, Within;
    WithinMembers(fine, from, to);
    InHourMembers(Within(fine, from, to), ct);
  }

  lemma HourIsProper(fine: seq<Point>, ct: int, t: int)
    requires FineOk(fine, t)
    ensures Proper(Fold(ct, InHour(fine, ct))) && Fold(ct, InHour(fine, ct)).t == ct
    ensures InHour(fine, ct) != [] ==> Fold(ct, InHour(fine, ct)).s > 0
  {
    hide Fold, InHour;
    InHourMembers(fine, ct);
    assert forall p :: p in fine ==> p.s > 0;
    FoldIsProper(ct, InHour(fine, ct));
  }

  // ---- pruning ----

  /** Deleting old files: points that start before the cutoffs go. */
  function Pruned(d: Disk, fineBefore: int, coarseBefore: int, now: int): Disk {
    Disk(Within(d.fine, fineBefore, now + 1), Within(d.coarse, coarseBefore, now + 1))
  }

  lemma {:induction false} WithinCoarse(pts: seq<Point>, from: int, to: int, ct: int)
    requires from <= ct < to
    ensures CoarseAt(Within(pts, from, to), ct) == CoarseAt(pts, ct)
  {
    if pts != [] {
      var init, last := pts[..|pts| - 1], pts[|pts| - 1];
      WithinCoarse(init, from, to, ct);
      if from <= last.t < to {
        CoarseAtConcat(Within(init, from, to), last, ct);
      } else {
        assert Within(pts, from, to) == Within(init, from, to);
      }
    }
  }

  lemma {:induction false} WithinIsSorted(pts: seq<Point>, from: int, now: int)
    requires CoarseOk(pts, now)
    ensures CoarseOk(Within(pts, from, now + 1), now)
    ensures Newest(Within(pts, from, now + 1)) == if Newest(pts) >= from then Newest(pts) else 0
  {
    if pts != [] {
      var init, last := pts[..|pts| - 1], pts[|pts| - 1];
      SortedInit(pts, now);
      WithinIsSorted(init, from, now);
      WithinMembers(init, from, now + 1);
      var kept := Within(init, from, now + 1);
      assert Within(pts, from, now + 1) == if from <= last.t then kept + [last] else kept;
      hide Within, CoarseOk;
      if from <= last.t {
        NewestSnoc(kept, last);
        NewestSnoc(init, last);
        SortedSnoc(kept, last, now);
      }
    }
  }

  lemma SortedInit(pts: seq<Point>, now: int)
    requires CoarseOk(pts, now) && pts != []
    ensures var init, last := pts[..|pts| - 1], pts[|pts| - 1];
            && CoarseOk(init, now) && pts == init + [last]
            && last.s > 0 && OnHour(last.t) && HOUR <= last.t <= now - HOUR
            && Newest(init) < last.t && Newest(pts) == last.t && (forall p :: p in init ==> p.t < last.t)
  {
    NewestBounds(pts[..|pts| - 1]);
  }

  lemma SortedSnoc(pts: seq<Point>, p: Point, now: int)
    requires CoarseOk(pts, now) && p.s > 0 && OnHour(p.t) && HOUR <= p.t <= now - HOUR
    requires forall q :: q in pts ==> q.t < p.t
    ensures CoarseOk(pts + [p], now)
  {
  }

  lemma PrunedFine(fine: seq<Point>, from: int, now: int)
    requires FineOk(fine, now)
    ensures FineOk(Within(fine, from, now + 1), now)
    ensures forall ct :: from <= ct ==> InHour(Within(fine, from, now + 1), ct) == InHour(fine, ct)
  {
    hide InHour, Within;
    WithinMembers(fine, from, now + 1);
    assert forall p :: p in fine ==> p.s > 0 && HOUR <= p.t <= now;
    forall ct | from <= ct ensures InHour(Within(fine, from, now + 1), ct) == InHour(fine, ct) {
      WithinKeepsHour(fine, from, now + 1, ct);
    }
  }

  /** The hours from a cut on look the same before and after. */
  ghost predicate SameHours(d: Disk, e: Disk, cut: int, now: int) {
    && (forall ct :: cut <= ct ==> InHour(e.fine, ct) == InHour(d.fine, ct))
    && (forall ct :: cut <= ct <= now ==> CoarseAt(e.coarse, ct) == CoarseAt(d.coarse, ct))
    && Newest(e.coarse) <= Newest(d.coarse) <= now && (Newest(e.coarse) < Newest(d.coarse) ==> Newest(d.coarse) < cut)
  }

  lemma PrunedSame(d: Disk, cut: int, now: int, fineBefore: int, coarseBefore: int)
    requires FineOk(d.fine, now) && CoarseOk(d.coarse, now) && now >= HOUR && fineBefore <= cut && coarseBefore <= cut
    ensures var e := Pruned(d, fineBefore, coarseBefore, now);
            FineOk(e.fine, now) && CoarseOk(e.coarse, now) && SameHours(d, e, cut, now)
  {
    hide FineOk, InHour, CoarseAt, Newest, Within;
    PrunedFine(d.fine, fineBefore, now);
    WithinIsSorted(d.coarse, coarseBefore, now);
    NewestBounds(d.coarse);
    forall ct | cut <= ct <= now ensures CoarseAt(Within(d.coarse, coarseBefore, now + 1), ct) == CoarseAt(d.coarse, ct) {
      WithinCoarse(d.coarse, coarseBefore, now + 1, ct);
    }
  }

  lemma SameKeeps(d: Disk, e: Disk, m: Memory, cut: int, now: int)
    requires SameHours(d, e, cut, now) && RolledUp(d, cut) && OnlyCurrent(d, m, cut)
    ensures RolledUp(e, cut) && OnlyCurrent(e, m, cut)
  {
    hide InHour, CoarseAt, Newest, Fold, OnHour;
  }

  lemma PruneKeeps(d: Disk, m: Memory, step: int, cut: int, now: int, fineBefore: int, coarseBefore: int)
    requires StepOk(step) && now >= HOUR && cut <= Start(now, HOUR) && fineBefore <= cut && coarseBefore <= cut
    requires RunInv(d, m, step, cut, now)
    ensures RunInv(Pruned(d, fineBefore, coarseBefore, now), m, step, cut, now)
  {
    var e := Pruned(d, fineBefore, coarseBefore, now);
    PrunedSame(d, cut, now, fineBefore, coarseBefore);
    SameKeeps(d, e, m, cut, now);
    assert m.acc.s > 0 ==> InHour(e.fine, m.acc.t) == InHour(d.fine, m.acc.t);
    hide Fold, InHour, Pruned, FineOk, CoarseOk, RolledUp, OnlyCurrent, SameHours, Proper;
  }

  // ---- what recovery writes ----

  /** The point of an hour that is over, of what was read of it. */
  predicate IsHour(pts: seq<Point>, p: Point, now: int) {
    OnHour(p.t) && p.t + HOUR <= now && InHour(pts, p.t) != [] && p == Fold(p.t, InHour(pts, p.t))
  }

  lemma {:induction false} FoldBegins(t: int, pts: seq<Point>)
    ensures Fold(t, pts).t == t
  {
    if pts != [] {
      FoldBegins(t, pts[..|pts| - 1]);
    }
  }

  lemma {:induction false} RolledIs(pts: seq<Point>, ct: int, now: int, w: Write)
    requires OnHour(ct)
    ensures w in Rolled(pts, ct, now) <==> w.ToCoarse? && ct <= w.p.t && IsHour(pts, w.p, now)
    decreases now - ct
  {
    hide Fold, InHour;
    if ct + HOUR <= now {
      NextOnHour(ct);
      FoldBegins(ct, InHour(pts, ct));
      RolledIs(pts, ct + HOUR, now, w);
      if w.ToCoarse? && OnHour(w.p.t) && ct < w.p.t {
        HoursApart(ct, w.p.t);
      }
    }
  }

  lemma ReadHour(fine: seq<Point>, from: int, to: int, ct: int)
    requires OnHour(ct) && InHour(Within(fine, from, to), ct) != []
    ensures Start(from, HOUR) <= ct
  {
    hide InHour, Within;
    var pts := Within(fine, from, to);
    InHourMembers(pts, ct);
    WithinMembers(fine, from, to);
    var i :| 0 <= i < |pts| && Start(pts[i].t, HOUR) == ct;
    HourOf(from);
    HourOf(pts[i].t);
    if ct < Start(from, HOUR) {
      HoursApart(ct, Start(from, HOUR));
    }
  }

  /** Recovery appends the hours that are over, each rolled up from the fine points of it that begin inside the
      retention and after the newest hour on disk. */
  lemma RecoveryWrites(d: Disk, step: int, keep: int, now: int, w: Write)
    requires step > 0
    ensures var newest := Newest(d.coarse);
            var from := if newest == 0 || newest + 3600 < now - keep then now - keep else newest + 3600;
            w in Recover(d, step, keep, now).writes <==> w.ToCoarse? && IsHour(Within(d.fine, from, now + step), w.p, now)
  {
    var from := ReadFrom(d, keep, now);
    HourOf(from);
    RolledIs(Within(d.fine, from, now + step), Start(from, HOUR), now, w);
    if w.ToCoarse? && IsHour(Within(d.fine, from, now + step), w.p, now) {
      ReadHour(d.fine, from, now + step, w.p.t);
    }
    hide IsHour, Within, Rolled, Newest, Start, Unfinished;
  }
}
