/** The recorder as the program runs it: two series whose intervals in memory and files on disk are
    updated in place.  Every append also goes to a ghost log, so any state of the files on the way is
    the replay of a prefix of the log; the methods are tied to the outcomes of HistoryRollup. */
module HistoryRecorder {
  import opened HistoryPoint
  import opened HistoryRollup
  import opened HistoryRuns

  predicate HasCoarse(ws: seq<Write>) {
    exists i :: 0 <= i < |ws| && ws[i].ToCoarse?
  }

  class Series {
    const step: int
    var fine: seq<Point>
    var coarse: seq<Point>
    var cur: Point
    var acc: Point
    ghost var log: seq<Write>   // every append since the start, in order

    constructor (step: int, fine: seq<Point>, coarse: seq<Point>)
      requires StepOk(step)
      ensures this.step == step && Files() == Disk(fine, coarse) && Kept() == NO_MEMORY && log == []
    {
      this.step, this.fine, this.coarse := step, fine, coarse;
      cur, acc := Empty(0), Empty(0);
      log := [];
    }

    function Files(): Disk
      reads this
    {
      Disk(fine, coarse)
    }

    function Kept(): Memory
      reads this
    {
      Memory(cur, acc)
    }

    method Write(w: HistoryRollup.Write)
      modifies this`fine, this`coarse, this`log
      ensures Files() == Apply(old(Files()), w) && log == old(log) + [w]
    {
      match w {
        case ToFine(p) => fine := fine + [p];
        case ToCoarse(p) => coarse := coarse + [p];
      }
      log := log + [w];
    }

    /** The finished interval is written and rolled into the hour. */
    method FlushLocked(end: int) returns (coarseDone: bool)
      modifies this`fine, this`coarse, this`log, this`cur, this`acc
      ensures var o := Flush(old(Kept()), end);
              && log == old(log) + o.writes
              && Files() == Replay(old(Files()), o.writes)
              && Kept() == o.memory
              && coarseDone == HasCoarse(o.writes)
    {
      hide Add, Replay, Apply, HasCoarse, Start;
      ghost var files := Files();
      ghost var ws := [ToFine(cur)];
      assert ws + [] == ws;
      coarseDone := false;
      Write(ToFine(cur));
      ReplayOne(files, [], ToFine(cur));
      FineIsNotCoarse(cur);
      var ct := Start(cur.t, HOUR);
      if acc.s > 0 && acc.t != ct {
        ws := WriteHour(files, ws);
        coarseDone := true;
      }
      if acc.s == 0 {
        acc := Empty(ct);
      }
      acc := AddInto(acc, cur);
      cur := Empty(0);
      if end >= acc.t + HOUR {
        ghost var before := ws;
        ws := WriteHour(files, ws);
        coarseDone := true;
        assert old(log) + before + [ToCoarse(old(acc))] == old(log) + (before + [ToCoarse(old(acc))]);
      }
    }

    /** Writes the hour in memory and starts a new one; ws are the appends to files so far. */
    method WriteHour(ghost files: Disk, ghost ws: seq<HistoryRollup.Write>) returns (ghost all: seq<HistoryRollup.Write>)
      requires Files() == Replay(files, ws)
      modifies this`fine, this`coarse, this`log, this`acc
      ensures all == ws + [ToCoarse(old(acc))] && log == old(log) + [ToCoarse(old(acc))]
      ensures Files() == Replay(files, all) && HasCoarse(all) && acc == Empty(0)
    {
      all := ws + [ToCoarse(acc)];
      ReplayOne(files, ws, ToCoarse(acc));
      CoarseIsCoarse(ws, acc);
      Write(ToCoarse(acc));
      acc := Empty(0);
    }

    method WriteUnfinished()
      modifies this`fine, this`coarse, this`log, this`cur
      ensures cur.s <= 0
      ensures log == old(log) + Rest(old(Kept())) && Files() == Replay(old(Files()), Rest(old(Kept())))
    {
      NoWrites(Files());
      ReplayOne(Files(), [], ToFine(cur));
      if cur.s > 0 {
        Write(ToFine(cur));
        cur := Empty(0);
      }
    }

    /** Adds a minute: the interval is written when it is complete, or when a gap moved past it. */
    method AddLocked(p: Point, end: int) returns (coarseDone: bool)
      requires StepOk(step)
      modifies this`fine, this`coarse, this`log, this`cur, this`acc
      ensures var o := AddMinute(old(Kept()), p, step, end);
              && log == old(log) + o.writes
              && Files() == Replay(old(Files()), o.writes)
              && Kept() == o.memory
              && coarseDone == HasCoarse(o.writes)
    {
      ghost var files, was := Files(), Kept();
      ghost var ws: seq<HistoryRollup.Write> := [];
      NoWrites(files);
      hide Add, Flush, Replay, HasCoarse, AddToCurrent;
      coarseDone := false;
      var ft := Start(p.t, step);
      if cur.s > 0 && cur.t != ft {
        coarseDone := FlushLocked(end);
        ws := Flush(was, end).writes;
      }
      ghost var more := AddToCurrent(Kept(), p, step, end).writes;
      var done := AddInterval(p, ft, end);
      coarseDone := done || coarseDone;
      Joined(files, ws, more);
      assert log == old(log) + ws + more == old(log) + (ws + more);
    }

    /** Adds a minute to the interval in memory, and writes it when it is complete. */
    method AddInterval(p: Point, ft: int, end: int) returns (coarseDone: bool)
      requires StepOk(step) && ft == Start(p.t, step)
      modifies this`fine, this`coarse, this`log, this`cur, this`acc
      ensures var o := AddToCurrent(old(Kept()), p, step, end);
              && log == old(log) + o.writes
              && Files() == Replay(old(Files()), o.writes)
              && Kept() == o.memory
              && coarseDone == HasCoarse(o.writes)
    {
      NoWrites(Files());
      hide Add, Flush, Replay, HasCoarse;
      coarseDone := false;
      if cur.s == 0 {
        cur := Empty(ft);
      }
      cur := AddInto(cur, p);
      if end >= cur.t + step {
        coarseDone := FlushLocked(end);
      } else {
        assert log + [] == log;
      }
    }

    /** The start of the newest hour on disk, 0 without one. */
    method NewestCoarse() returns (last: int)
      ensures last == Newest(coarse)
    {
      last := 0;
      var i := 0;
      while i < |coarse|
        invariant 0 <= i <= |coarse| && last == Newest(coarse[..i])
      {
        assert coarse[..i + 1][..i] == coarse[..i];
        if last < coarse[i].t {
          last := coarse[i].t;
        }
        i := i + 1;
      }
      assert coarse[..i] == coarse;
    }

    method Read(from: int, to: int) returns (pts: seq<Point>)
      ensures pts == Within(fine, from, to)
    {
      pts := [];
      var i := 0;
      while i < |fine|
        invariant 0 <= i <= |fine| && pts == Within(fine[..i], from, to)
      {
        assert fine[..i + 1][..i] == fine[..i];
        if from <= fine[i].t < to {
          pts := pts + [fine[i]];
        }
        i := i + 1;
      }
      assert fine[..i] == fine;
    }

    /** Finishes the roll-ups a previous run could not. */
    method Recover(now: int, keep: int)
      requires StepOk(step) && Kept() == NO_MEMORY
      modifies this`coarse, this`fine, this`log, this`acc
      ensures var o := HistoryRollup.Recover(old(Files()), step, keep, now);
              && log == old(log) + o.writes
              && Files() == Replay(old(Files()), o.writes)
              && Kept() == o.memory
    {
      hide Fold, InHour, Within, Newest, Rolled, Unfinished, LastOpen, Replay;
      var from := now - keep;
      var last := NewestCoarse();
      if last != 0 && from < last + HOUR {
        from := last + HOUR;
      }
      var pts := Read(from, now + step);
      var groups := GroupByHour(pts);
      var starts := SortedHours(pts);
      WithinMembers(fine, from, now + step);
      RollUp(pts, groups, starts, from, now);
      LastIsUnfinished(pts, now, step, starts);
    }

    /** Writes the hours that are over and keeps the one that is not. */
    method RollUp(pts: seq<Point>, groups: map<int, Point>, starts: seq<int>, from: int, now: int)
      requires Kept() == NO_MEMORY && HoursOf(pts, starts)
      requires forall i :: 0 <= i < |pts| ==> from <= pts[i].t
      requires forall ct :: ct in starts ==> ct in groups && groups[ct] == Fold(ct, InHour(pts, ct))
      modifies this`coarse, this`fine, this`log, this`acc
      ensures log == old(log) + Rolled(pts, HistoryRollup.Start(from, HOUR), now)
      ensures Files() == Replay(old(Files()), Rolled(pts, HistoryRollup.Start(from, HOUR), now))
      ensures acc == LastOpen(pts, starts, now) && cur == Empty(0)
    {
      hide Fold, InHour, Rolled, Replay, Apply, OnHour, HoursOf, InOrder, HourAfter, LastOpen;
      ghost var lo, ws, files := Start(from, HOUR), [], Files();
      StartsFollow(pts, lo, from, starts);
      ReplayOne(files, [], ToFine(cur));
      RollBegins(pts, lo, starts, now);
      var i := 0;
      while i < |starts|
        invariant 0 <= i <= |starts|
        invariant log == old(log) + ws && Files() == Replay(files, ws) && cur == Empty(0)
        invariant ws + Rolled(pts, HourAfter(starts, lo, i), now) == Rolled(pts, lo, now)
        invariant acc == LastOpen(pts, starts[..i], now)
      {
        var ct := starts[i];
        RollNext(pts, lo, starts, i, ws, now);
        if ct + HOUR > now {
          acc := groups[ct];
        } else {
          Write(ToCoarse(groups[ct]));
          ReplayOne(files, ws, ToCoarse(groups[ct]));
          ws := ws + [ToCoarse(groups[ct])];
        }
        i := i + 1;
      }
      RollEnds(pts, lo, starts, ws, now);
    }
  }

  lemma RollBegins(pts: seq<Point>, lo: int, starts: seq<int>, now: int)
    ensures [] + Rolled(pts, HourAfter(starts, lo, 0), now) == Rolled(pts, lo, now)
    ensures LastOpen(pts, starts[..0], now) == Empty(0)
  {
  }

  /** One hour more: the empty hours before it add nothing, and it is written if it is over. */
  lemma RollNext(pts: seq<Point>, lo: int, starts: seq<int>, i: nat, ws: seq<Write>, now: int)
    requires HoursOf(pts, starts) && i < |starts| && InOrder(starts, lo)
    ensures var ct := starts[i];
            var all := ws + Rolled(pts, HourAfter(starts, lo, i), now);
            if ct + HOUR > now then
              && ws + Rolled(pts, HourAfter(starts, lo, i + 1), now) == all
              && LastOpen(pts, starts[..i + 1], now) == Fold(ct, InHour(pts, ct))
            else
              && (ws + [ToCoarse(Fold(ct, InHour(pts, ct)))]) + Rolled(pts, HourAfter(starts, lo, i + 1), now) == all
              && LastOpen(pts, starts[..i + 1], now) == LastOpen(pts, starts[..i], now) == Empty(0)
    ensures starts[i] in starts
  {
    SkipTo(pts, lo, starts, i, now);
    LastOpenNext(pts, lo, starts, i, now);
    hide Fold, InHour, Rolled, OnHour, LastOpen, HoursOf, InOrder;
    var ct := starts[i];
    if ct + HOUR > now {
      RolledEnds(pts, ct, now);
    } else {
      RolledStep(pts, ct, now);
    }
  }

  lemma SkipTo(pts: seq<Point>, lo: int, starts: seq<int>, i: nat, now: int)
    requires HoursOf(pts, starts) && i < |starts| && InOrder(starts, lo)
    ensures Rolled(pts, HourAfter(starts, lo, i), now) == Rolled(pts, starts[i], now)
    ensures InHour(pts, starts[i]) != []
  {
    hide InHour, Rolled, OnHour;
    assert starts[i] in starts;
    forall h | HourAfter(starts, lo, i) <= h < starts[i] ensures InHour(pts, h) == [] {
      EmptyBetween(pts, lo, starts, i, h);
    }
    RolledSkips(pts, HourAfter(starts, lo, i), starts[i], now);
  }

  lemma LastOpenNext(pts: seq<Point>, lo: int, starts: seq<int>, i: nat, now: int)
    requires HoursOf(pts, starts) && i < |starts|
    ensures var ct := starts[i];
            if ct + HOUR > now then LastOpen(pts, starts[..i + 1], now) == Fold(ct, InHour(pts, ct))
            else LastOpen(pts, starts[..i + 1], now) == LastOpen(pts, starts[..i], now) == Empty(0)
  {
    hide Fold, InHour;
    assert starts[..i + 1][i] == starts[i];
    assert i > 0 ==> starts[..i][i - 1] == starts[i - 1] < starts[i];
  }

  lemma RollEnds(pts: seq<Point>, lo: int, starts: seq<int>, ws: seq<Write>, now: int)
    requires HoursOf(pts, starts) && InOrder(starts, lo)
    ensures ws + Rolled(pts, HourAfter(starts, lo, |starts|), now) == ws
    ensures starts[..|starts|] == starts
  {
    hide Fold, InHour, OnHour;
    forall h | HourAfter(starts, lo, |starts|) <= h ensures InHour(pts, h) == [] {
      EmptyBetween(pts, lo, starts, |starts|, h);
    }
    RolledDone(pts, HourAfter(starts, lo, |starts|), now);
  }

  /** The starts are hours, from lo on, an hour or more apart. */
  ghost predicate InOrder(starts: seq<int>, lo: int) {
    && OnHour(lo)
    && (forall i :: 0 <= i < |starts| ==> OnHour(starts[i]) && HourAfter(starts, lo, i) <= starts[i])
    && (forall i :: 0 <= i <= |starts| ==> OnHour(HourAfter(starts, lo, i)))
  }

  /** The last of the starts, if its hour is not over. */
  ghost function LastOpen(pts: seq<Point>, starts: seq<int>, now: int): Point {
    if starts != [] && starts[|starts| - 1] + HOUR > now then
      Fold(starts[|starts| - 1], InHour(pts, starts[|starts| - 1]))
    else Empty(0)
  }

  /** The hour after the first i starts. */
  ghost function HourAfter(starts: seq<int>, lo: int, i: nat): int
    requires i <= |starts|
  {
    if i == 0 then lo else starts[i - 1] + HOUR
  }

  ghost predicate Increasing(starts: seq<int>) {
    forall i, j :: 0 <= i < j < |starts| ==> starts[i] < starts[j]
  }

  /** starts are the hours of pts, in order. */
  ghost predicate HoursOf(pts: seq<Point>, starts: seq<int>) {
    Increasing(starts) && forall ct :: ct in starts <==> InHour(pts, ct) != []
  }

  lemma ReplayOne(d: Disk, ws: seq<Write>, w: Write)
    ensures Replay(d, ws + [w]) == Apply(Replay(d, ws), w)
    ensures Replay(d, []) == d && [] + [w] == [w]
  {
    assert (ws + [w])[..|ws|] == ws;
  }

  lemma NoWrites(d: Disk)
    ensures Replay(d, []) == d && !HasCoarse([])
  {
  }

  lemma Joined(d: Disk, ws: seq<Write>, more: seq<Write>)
    ensures Replay(d, ws + more) == Replay(Replay(d, ws), more)
    ensures HasCoarse(ws + more) == (HasCoarse(ws) || HasCoarse(more))
    ensures ws + [] == ws && [] + more == more
    ensures Replay(Replay(d, ws), []) == Replay(d, ws)
  {
    ReplayConcat(d, ws, more);
    HasCoarseConcat(ws, more);
  }

  lemma FineIsNotCoarse(p: Point)
    ensures !HasCoarse([ToFine(p)])
  {
  }

  lemma CoarseIsCoarse(ws: seq<Write>, p: Point)
    ensures HasCoarse(ws + [ToCoarse(p)])
  {
    assert (ws + [ToCoarse(p)])[|ws|].ToCoarse?;
  }

  lemma HasCoarseConcat(xs: seq<Write>, ys: seq<Write>)
    ensures HasCoarse(xs + ys) == (HasCoarse(xs) || HasCoarse(ys))
  {
    if HasCoarse(xs) {
      var i :| 0 <= i < |xs| && xs[i].ToCoarse?;
      assert (xs + ys)[i].ToCoarse?;
    }
    if HasCoarse(ys) {
      var i :| 0 <= i < |ys| && ys[i].ToCoarse?;
      assert (xs + ys)[|xs| + i].ToCoarse?;
    }
  }

  lemma NoHours()
    ensures forall ct :: InHour([], ct) == []
    ensures forall ct {:trigger Empty(ct)} :: Fold(ct, []) == Empty(ct)
  {
  }

  /** Merges the points of each hour, in file order. */
  method GroupByHour(pts: seq<Point>) returns (groups: map<int, Point>)
    ensures forall ct :: ct in groups <==> InHour(pts, ct) != []
    ensures forall ct :: ct in groups ==> groups[ct] == Fold(ct, InHour(pts, ct))
  {
    hide Add, InHour, Fold;
    NoHours();
    groups := map[];
    var i := 0;
    while i < |pts|
      invariant 0 <= i <= |pts|
      invariant forall ct :: ct in groups <==> InHour(pts[..i], ct) != []
      invariant forall ct :: ct in groups ==> groups[ct] == Fold(ct, InHour(pts[..i], ct))
    {
      var p := pts[i];
      var ct := Start(p.t, HOUR);
      assert pts[..i + 1] == pts[..i] + [p];
      forall h ensures InHour(pts[..i + 1], h) == if ct == h then InHour(pts[..i], h) + [p] else InHour(pts[..i], h) {
        InHourSnoc(pts[..i], p, h);
      }
      FoldSnoc(ct, InHour(pts[..i], ct), p);
      if ct !in groups {
        groups := groups[ct := Empty(ct)];
      }
      var sum := AddInto(groups[ct], p);
      assert sum == Fold(ct, InHour(pts[..i + 1], ct));
      groups := groups[ct := sum];
      i := i + 1;
    }
    assert pts[..i] == pts;
  }

  /** The hours of the points in increasing order. */
  method SortedHours(pts: seq<Point>) returns (starts: seq<int>)
    ensures HoursOf(pts, starts)
  {
    hide InHour;
    NoHours();
    starts := [];
    var i := 0;
    while i < |pts|
      invariant 0 <= i <= |pts| && HoursOf(pts[..i], starts)
    {
      var ct := Start(pts[i].t, HOUR);
      assert pts[..i + 1] == pts[..i] + [pts[i]];
      forall h ensures InHour(pts[..i + 1], h) != [] <==> InHour(pts[..i], h) != [] || h == ct {
        InHourSnoc(pts[..i], pts[i], h);
      }
      if ct !in starts {
        starts := InsertSorted(starts, ct);
      }
      i := i + 1;
    }
    assert pts[..i] == pts;
  }

  method InsertSorted(starts: seq<int>, k: int) returns (r: seq<int>)
    requires Increasing(starts) && k !in starts
    ensures Increasing(r)
    ensures forall x :: x in r <==> x in starts || x == k
  {
    var i := 0;
    while i < |starts| && starts[i] < k
      invariant 0 <= i <= |starts|
      invariant forall j :: 0 <= j < i ==> starts[j] < k
    {
      i := i + 1;
    }
    assert starts == starts[..i] + starts[i..];
    Inserted(starts[..i], starts[i..], k);
    r := starts[..i] + [k] + starts[i..];
  }

  lemma Inserted(low: seq<int>, high: seq<int>, k: int)
    requires Increasing(low + high) && k !in low + high
    requires (forall j :: 0 <= j < |low| ==> low[j] < k) && (high != [] ==> k <= high[0])
    ensures Increasing(low + [k] + high)
    ensures forall x :: x in low + [k] + high <==> x in low + high || x == k
  {
    Halves(low, high);
    assert high != [] ==> high[0] in low + high;
    assert forall j :: 0 <= j < |high| ==> k < high[j];
    Between(low, high, k);
  }

  lemma Halves(low: seq<int>, high: seq<int>)
    requires Increasing(low + high)
    ensures Increasing(low) && Increasing(high)
    ensures forall i, j :: 0 <= i < |low| && 0 <= j < |high| ==> low[i] < high[j]
  {
    var all := low + high;
    assert forall i :: 0 <= i < |low| ==> all[i] == low[i];
    assert forall j :: 0 <= j < |high| ==> all[|low| + j] == high[j];
  }

  lemma Between(low: seq<int>, high: seq<int>, k: int)
    requires Increasing(low) && Increasing(high)
    requires (forall i :: 0 <= i < |low| ==> low[i] < k) && (forall j :: 0 <= j < |high| ==> k < high[j])
    ensures Increasing(low + [k] + high)
  {
  }

  lemma StartsFollow(pts: seq<Point>, lo: int, from: int, starts: seq<int>)
    requires lo == Start(from, HOUR) && forall i :: 0 <= i < |pts| ==> from <= pts[i].t
    requires HoursOf(pts, starts)
    ensures InOrder(starts, lo)
  {
    hide InHour, Start, OnHour;
    HourOf(from);
    forall i | 0 <= i < |starts| ensures OnHour(starts[i]) && lo <= starts[i] {
      StartsLater(pts, from, starts[i]);
    }
    forall i | 0 < i < |starts| ensures starts[i - 1] + HOUR <= starts[i] {
      HoursApart(starts[i - 1], starts[i]);
    }
    forall i | 0 <= i < |starts| ensures OnHour(starts[i] + HOUR) {
      NextOnHour(starts[i]);
    }
  }

  lemma StartsLater(pts: seq<Point>, from: int, ct: int)
    requires forall i :: 0 <= i < |pts| ==> from <= pts[i].t
    requires InHour(pts, ct) != []
    ensures OnHour(ct) && Start(from, HOUR) <= ct
  {
    hide InHour, Start, OnHour;
    InHourMembers(pts, ct);
    var i :| 0 <= i < |pts| && Start(pts[i].t, HOUR) == ct;
    StartLater(from, pts[i].t);
  }

  lemma StartLater(from: int, t: int)
    requires from <= t
    ensures OnHour(Start(t, HOUR)) && Start(from, HOUR) <= Start(t, HOUR)
  {
    HourOf(t);
    HourOf(from);
  }

  /** The hours between one start and the next are empty. */
  lemma EmptyBetween(pts: seq<Point>, lo: int, starts: seq<int>, i: nat, h: int)
    requires HoursOf(pts, starts) && i <= |starts|
    requires HourAfter(starts, lo, i) <= h && (i < |starts| ==> h < starts[i])
    ensures InHour(pts, h) == []
  {
    hide InHour;
    forall j | 0 <= j < |starts| ensures starts[j] != h {
      if j < i {
        assert starts[j] <= starts[i - 1];
      } else {
        assert starts[i] <= starts[j];
      }
    }
  }

  lemma {:induction false} RolledSkips(pts: seq<Point>, ct: int, next: int, now: int)
    requires ct <= next && OnHour(ct) && OnHour(next)
    requires forall h :: OnHour(h) && ct <= h < next ==> InHour(pts, h) == []
    ensures Rolled(pts, ct, now) == Rolled(pts, next, now)
    decreases next - ct
  {
    hide InHour, Fold;
    if ct < next {
      RolledSkips(pts, ct + HOUR, next, now);
    }
  }

  lemma RolledEnds(pts: seq<Point>, ct: int, now: int)
    requires ct + HOUR > now
    ensures Rolled(pts, ct, now) == [] && Rolled(pts, ct + HOUR, now) == []
  {
  }

  lemma RolledStep(pts: seq<Point>, ct: int, now: int)
    requires ct + HOUR <= now && InHour(pts, ct) != []
    ensures Rolled(pts, ct, now) == [ToCoarse(Fold(ct, InHour(pts, ct)))] + Rolled(pts, ct + HOUR, now)
  {
  }

  lemma {:induction false} RolledDone(pts: seq<Point>, ct: int, now: int)
    requires OnHour(ct) && forall h :: OnHour(h) && ct <= h ==> InHour(pts, h) == []
    ensures Rolled(pts, ct, now) == []
    decreases now - ct
  {
    if ct + HOUR <= now {
      RolledDone(pts, ct + HOUR, now);
    }
  }

  lemma LastIsUnfinished(pts: seq<Point>, now: int, step: int, starts: seq<int>)
    requires StepOk(step) && forall i :: 0 <= i < |pts| ==> pts[i].t < now + step
    requires HoursOf(pts, starts)
    ensures Unfinished(pts, now) == LastOpen(pts, starts, now)
  {
    hide InHour, Fold;
    var ct, n := Start(now, HOUR), |starts|;
    forall j | 0 <= j < n ensures OnHour(starts[j]) && starts[j] <= ct + HOUR && starts[j] <= starts[n - 1] {
      InHourMembers(pts, starts[j]);
    }
    if n > 0 && starts[n - 1] + HOUR > now {
      var last := starts[n - 1];
      assert last in starts;
      assert last == ct || last == ct + HOUR;
      if last == ct {
        assert ct + HOUR !in starts;
      }
    } else {
      assert ct !in starts && ct + HOUR !in starts;
    }
  }

  /** What a record does to the totals: nothing when the clock went back or under half a second passed. */
  ghost function RecordTotals(m: Memory, prev: Sample, sample: Sample, lastAt: int, now: int): Outcome {
    if now - lastAt < NS / 2 then Outcome([], m)
    else AddMinute(m, Delta(prev, sample, HistoryRollup.Start(lastAt / NS, 60), (now - lastAt + NS / 2) / NS), 60, now / NS)
  }

  ghost function RecordWorkers(m: Memory, prev: Sample, sample: Sample, lastAt: int, now: int): Outcome {
    if now - lastAt < NS / 2 then Outcome([], m)
    else AddMinute(m, WorkersDelta(prev, sample, HistoryRollup.Start(lastAt / NS, 60), (now - lastAt + NS / 2) / NS), 600, now / NS)
  }

  /** A record comes too early exactly when its rounded seconds are not positive. */
  lemma TooEarly(d: Disk, m: Memory, prev: Sample, sample: Sample, lastAt: int, now: int)
    requires (now - lastAt + NS / 2) / NS <= 0
    ensures RecordTotals(m, prev, sample, lastAt, now) == Outcome([], m)
    ensures RecordWorkers(m, prev, sample, lastAt, now) == Outcome([], m)
    ensures Replay(d, []) == d && !HasCoarse([])
  {
    hide HistoryRollup.Start, AddMinute, Delta, WorkersDelta;
  }

  /** The interval being filled, appended after the writes of the record, makes the appends of a stop. */
  lemma Finishes(log: seq<Write>, d: Disk, o: Outcome)
    ensures log + o.writes + Rest(o.memory) == log + Finish(o)
    ensures Replay(Replay(d, o.writes), Rest(o.memory)) == Replay(d, Finish(o))
  {
    Joined(d, o.writes, Rest(o.memory));
  }

  /** Totals and workers, fed by the same samples. */
  class Recorder {
    const totals: Series
    const workers: Series
    var last: Sample
    var lastAt: int   // nanoseconds

    ghost predicate Valid()
      reads this
    {
      totals != workers && totals.step == 60 && workers.step == 600
    }

    constructor (totals: Series, workers: Series, sample: Sample, now: int)
      requires totals != workers && totals.step == 60 && workers.step == 600
      ensures Valid() && this.totals == totals && this.workers == workers && last == sample && lastAt == now
    {
      this.totals, this.workers := totals, workers;
      last, lastAt := sample, now;
    }

    /** The first sample of a run, and the roll-ups the previous run left. */
    method Start(now: int, sample: Sample, keep: int)
      requires Valid() && totals.Kept() == NO_MEMORY && workers.Kept() == NO_MEMORY
      modifies this, totals`fine, totals`coarse, totals`log, totals`acc, workers`fine, workers`coarse, workers`log, workers`acc
      ensures Valid() && last == sample && lastAt == now
      ensures forall s :: s in {totals, workers} ==>
        var o := HistoryRollup.Recover(old(s.Files()), s.step, keep, now / NS);
        s.log == old(s.log) + o.writes && s.Files() == Replay(old(s.Files()), o.writes) && s.Kept() == o.memory
    {
      hide HistoryRollup.Recover;
      last, lastAt := sample, now;
      totals.Recover(now / NS, keep);
      workers.Recover(now / NS, keep);
    }

    /** Adds the minute to both series. */
    method AddBoth(p: Point, w: Point, now: int) returns (hourDone: bool)
      requires Valid()
      modifies totals`fine, totals`coarse, totals`log, totals`cur, totals`acc,
               workers`fine, workers`coarse, workers`log, workers`cur, workers`acc
      ensures
        var t, u := AddMinute(old(totals.Kept()), p, 60, now), AddMinute(old(workers.Kept()), w, 600, now);
        && totals.log == old(totals.log) + t.writes && totals.Files() == Replay(old(totals.Files()), t.writes)
        && totals.Kept() == t.memory
        && workers.log == old(workers.log) + u.writes && workers.Files() == Replay(old(workers.Files()), u.writes)
        && workers.Kept() == u.memory
        && hourDone == (HasCoarse(t.writes) || HasCoarse(u.writes))
    {
      hide AddMinute, Replay, HasCoarse;
      hourDone := totals.AddLocked(p, now);
      var workersDone := workers.AddLocked(w, now);
      hourDone := workersDone || hourDone;
    }

    /** Takes what changed since the previous record, unless the clock went back or hardly any time passed. */
    method RecordLocked(now: int, sample: Sample) returns (hourDone: bool)
      requires Valid()
      modifies this, totals`fine, totals`coarse, totals`log, totals`cur, totals`acc,
               workers`fine, workers`coarse, workers`log, workers`cur, workers`acc
      ensures Valid()
      ensures lastAt == Max(old(lastAt), now)
      ensures last == if now > old(lastAt) then sample else old(last)
      ensures
        var o := RecordTotals(old(totals.Kept()), old(last), sample, old(lastAt), now);
        var w := RecordWorkers(old(workers.Kept()), old(last), sample, old(lastAt), now);
        && totals.log == old(totals.log) + o.writes && totals.Files() == Replay(old(totals.Files()), o.writes)
        && totals.Kept() == o.memory
        && workers.log == old(workers.log) + w.writes && workers.Files() == Replay(old(workers.Files()), w.writes)
        && workers.Kept() == w.memory
        && hourDone == (HasCoarse(o.writes) || HasCoarse(w.writes))
    {
      hide HistoryRollup.Start, AddMinute, Delta, WorkersDelta, Replay, HasCoarse;
      var t := HistoryRollup.Start(lastAt / NS, 60);
      var seconds := (now - lastAt + NS / 2) / NS;
      if now <= lastAt {
        TooEarly(totals.Files(), totals.Kept(), last, sample, lastAt, now);
        TooEarly(workers.Files(), workers.Kept(), last, sample, lastAt, now);
        hide RecordTotals, RecordWorkers;
        return false;   // the clock went back; wait for it
      }
      var prev := last;
      ghost var at := lastAt;
      last, lastAt := sample, now;
      if seconds <= 0 {
        TooEarly(totals.Files(), totals.Kept(), prev, sample, at, now);
        TooEarly(workers.Files(), workers.Kept(), prev, sample, at, now);
        hide RecordTotals, RecordWorkers;
        return false;
      }
      var p := ComputeDelta(prev, sample, t, seconds);
      var w := ComputeWorkersDelta(prev, sample, t, seconds);
      hourDone := AddBoth(p, w, now / NS);
    }

    /** Writes the unfinished interval of both series. */
    method WriteBoth()
      requires Valid()
      modifies totals`fine, totals`coarse, totals`log, totals`cur, workers`fine, workers`coarse, workers`log, workers`cur
      ensures totals.cur.s <= 0 && workers.cur.s <= 0
      ensures forall s :: s in {totals, workers} ==>
        s.log == old(s.log) + Rest(old(s.Kept())) && s.Files() == Replay(old(s.Files()), Rest(old(s.Kept())))
    {
      hide Replay, Rest;
      totals.WriteUnfinished();
      workers.WriteUnfinished();
    }

    /** Records the unfinished minute and writes the unfinished intervals; the next start rolls them up. */
    method Stop(now: int, sample: Sample)
      requires Valid()
      modifies this, totals`fine, totals`coarse, totals`log, totals`cur, totals`acc,
               workers`fine, workers`coarse, workers`log, workers`cur, workers`acc
      ensures Valid()
      ensures totals.cur.s <= 0 && workers.cur.s <= 0
      ensures
        var ts := Finish(RecordTotals(old(totals.Kept()), old(last), sample, old(lastAt), now));
        var ws := Finish(RecordWorkers(old(workers.Kept()), old(last), sample, old(lastAt), now));
        && totals.log == old(totals.log) + ts && totals.Files() == Replay(old(totals.Files()), ts)
        && workers.log == old(workers.log) + ws && workers.Files() == Replay(old(workers.Files()), ws)
    {
      Finishes(totals.log, totals.Files(), RecordTotals(totals.Kept(), last, sample, lastAt, now));
      Finishes(workers.log, workers.Files(), RecordWorkers(workers.Kept(), last, sample, lastAt, now));
      hide RecordTotals, RecordWorkers, Replay, HasCoarse, Rest, Finish;
      var _ := RecordLocked(now, sample);
      WriteBoth();
    }
  }
}
