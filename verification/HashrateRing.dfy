/** The hashrate of the last ten minutes from a ring of minute buckets.  Times are nanoseconds since 1970. */
module HashrateRing {

  const BUCKETS := 10
  const SECOND := 1_000_000_000
  const BUCKET_LEN := 60 * SECOND
  const HASHES_PER_DIFFICULTY := 4294967296.0

  /** A share of some difficulty in some minute. */
  datatype Share = Share(minute: int, diff: real)

  // ---- the simple list ----

  function Minute(now: int): int {
    now / BUCKET_LEN
  }

  /** The difficulty added in one minute. */
  function SumAt(h: seq<Share>, minute: int): real {
    if h == [] then 0.0 else SumAt(h[..|h| - 1], minute) + if h[|h| - 1].minute == minute then h[|h| - 1].diff else 0.0
  }

  /** The difficulty added in the ten minutes that end with one. */
  function WindowSum(h: seq<Share>, minute: int): real {
    if h == [] then 0.0 else
      WindowSum(h[..|h| - 1], minute) + if minute - BUCKETS < h[|h| - 1].minute <= minute then h[|h| - 1].diff else 0.0
  }

  /** The whole minutes of the window that have passed since the start, at least one minute. */
  function Span(start: int, now: int): int {
    var begin := (Minute(now) - BUCKETS + 1) * BUCKET_LEN;
    var span := now - if start > begin then start else begin;
    if span < BUCKET_LEN then BUCKET_LEN else span
  }

  /** The time the sum is for: since the window began or, later, since the start, but never under a minute. */
  lemma SpanIs(start: int, now: int)
    requires start <= now
    ensures Span(start, now) >= 60_000_000_000
    ensures 540_000_000_000 <= now - start ==> 540_000_000_000 <= Span(start, now) < 600_000_000_000
    ensures 60_000_000_000 <= now - start < 540_000_000_000 ==> Span(start, now) == now - start
    ensures now - start < 60_000_000_000 ==> Span(start, now) == 60_000_000_000
  {
  }

  /** The difficulty of the shares that came in the minute of now or in the nine minutes before it. */
  function TenMinutes(h: seq<Share>, now: int): real {
    if h == [] then 0.0 else
      var from := 60 * (now / 60_000_000_000 - 9);
      TenMinutes(h[..|h| - 1], now)
      + if from <= 60 * h[|h| - 1].minute <= now / 1_000_000_000 then h[|h| - 1].diff else 0.0
  }

  lemma {:induction false} TenMinutesIs(h: seq<Share>, now: int)
    ensures TenMinutes(h, now) == WindowSum(h, Minute(now))
  {
    if h != [] {
      TenMinutesIs(h[..|h| - 1], now);
      MinuteIs(now);
    }
  }

  lemma MinuteIs(now: int)
    ensures 60 * Minute(now) <= now / 1_000_000_000 < 60 * Minute(now) + 60
  {
  }

  // ---- the ring ----

  class Rate {
    const start: int
    const sums: array<real>
    const stamps: array<int>
    ghost var history: seq<Share>

    /** Every bucket holds the newest of its minutes. */
    ghost predicate Valid()
      reads this, sums, stamps
    {
      && sums.Length == BUCKETS && stamps.Length == BUCKETS
      && forall i :: 0 <= i < BUCKETS ==> Holds(history, i, stamps[i], sums[i])
    }

    constructor (start: int)
      ensures Valid() && history == [] && this.start == start && fresh(sums) && fresh(stamps)
    {
      this.start := start;
      sums := new real[BUCKETS](i => 0.0);
      stamps := new int[BUCKETS](i => 0);
      history := [];
    }

    method Add(diff: real, now: int)
      requires Valid() && now >= 0
      requires forall k :: 0 <= k < |history| ==> history[k].minute <= Minute(now)
      modifies this, sums, stamps
      ensures Valid() && history == old(history) + [Share(Minute(now), diff)]
    {
      var m := Minute(now);
      var i := m % BUCKETS;
      ghost var h := history;
      var was, sum := stamps[i], sums[i];
      if stamps[i] != m {
        stamps[i] := m;
        sums[i] := 0.0;
      }
      sums[i] := sums[i] + diff;
      history := h + [Share(m, diff)];
      HoldsAdded(h, i, was, sum, Share(m, diff));
      forall j | 0 <= j < BUCKETS && j != i ensures Holds(history, j, stamps[j], sums[j]) {
        HoldsElsewhere(h, j, stamps[j], sums[j], Share(m, diff));
      }
    }

    /** Hashes per second. */
    method Hashrate(now: int) returns (rate: real)
      requires Valid() && now >= 0
      requires forall k :: 0 <= k < |history| ==> history[k].minute <= Minute(now)
      ensures rate == TenMinutes(history, now) * 4294967296.0 / (Span(start, now) as real / 1_000_000_000.0)
    {
      TenMinutesIs(history, now);
      var m := Minute(now);
      var sum: real := 0.0;
      for i := 0 to BUCKETS
        invariant sum == BucketSum(history, m, i)
      {
        InWindow(history, m, i, stamps[i], sums[i]);
        if m - BUCKETS < stamps[i] <= m {
          sum := sum + sums[i];
        }
      }
      RingIsList(history, m);
      rate := sum * HASHES_PER_DIFFICULTY / (Span(start, now) as real / SECOND as real);
    }
  }

  // ---- why the ring agrees with the list ----

  ghost predicate Occurs(h: seq<Share>, minute: int) {
    exists k :: 0 <= k < |h| && h[k].minute == minute
  }

  /** Bucket i holds the sum of its newest minute, or nothing yet. */
  ghost predicate Holds(h: seq<Share>, i: int, stamp: int, sum: real) {
    && (stamp % BUCKETS == i || stamp == 0) && (stamp == 0 || Occurs(h, stamp))
    && sum == (if stamp % BUCKETS == i then SumAt(h, stamp) else 0.0)
    && forall k :: 0 <= k < |h| && h[k].minute % BUCKETS == i ==> h[k].minute <= stamp && stamp % BUCKETS == i
  }

  lemma SumSnoc(h: seq<Share>, s: Share, minute: int)
    ensures SumAt(h + [s], minute) == SumAt(h, minute) + if s.minute == minute then s.diff else 0.0
  {
    assert (h + [s])[..|h|] == h;
  }

  lemma {:induction false} SumOfNone(h: seq<Share>, minute: int)
    requires forall k :: 0 <= k < |h| ==> h[k].minute != minute
    ensures SumAt(h, minute) == 0.0
  {
    if h != [] {
      SumOfNone(h[..|h| - 1], minute);
    }
  }

  lemma HoldsAdded(h: seq<Share>, i: int, stamp: int, sum: real, s: Share)
    requires i == s.minute % BUCKETS && Holds(h, i, stamp, sum) && s.minute >= 0
    requires forall k :: 0 <= k < |h| ==> h[k].minute <= s.minute
    ensures Holds(h + [s], i, s.minute, (if stamp != s.minute then 0.0 else sum) + s.diff)
  {
    SumSnoc(h, s, s.minute);
    assert (h + [s])[|h|] == s;
    assert stamp <= s.minute;
    if stamp != s.minute {
      SumOfNone(h, s.minute);
    }
  }

  lemma HoldsElsewhere(h: seq<Share>, i: int, stamp: int, sum: real, s: Share)
    requires i != s.minute % BUCKETS && Holds(h, i, stamp, sum)
    ensures Holds(h + [s], i, stamp, sum)
  {
    SumSnoc(h, s, stamp);
    if Occurs(h, stamp) {
      var k :| 0 <= k < |h| && h[k].minute == stamp;
      assert (h + [s])[k].minute == stamp;
    }
  }

  /** The minute of the window that bucket i is for. */
  function MinuteOf(m: int, i: int): int {
    m - (m - i) % BUCKETS
  }

  lemma MinuteOfIs(m: int, i: int, t: int)
    requires 0 <= i < BUCKETS
    ensures m - BUCKETS < MinuteOf(m, i) <= m && MinuteOf(m, i) % BUCKETS == i
    ensures m - BUCKETS < t <= m && t % BUCKETS == i ==> t == MinuteOf(m, i)
  {
  }

  /** The sum of the list over the minutes of the first n buckets. */
  function BucketSum(h: seq<Share>, m: int, n: int): real {
    if n <= 0 then 0.0 else BucketSum(h, m, n - 1) + SumAt(h, MinuteOf(m, n - 1))
  }

  /** What the loop adds for bucket i is the sum of its minute of the window. */
  lemma InWindow(h: seq<Share>, m: int, i: int, stamp: int, sum: real)
    requires 0 <= i < BUCKETS && Holds(h, i, stamp, sum) && 0 <= m && forall k :: 0 <= k < |h| ==> h[k].minute <= m
    ensures (if m - BUCKETS < stamp <= m then sum else 0.0) == SumAt(h, MinuteOf(m, i))
  {
    var t := MinuteOf(m, i);
    MinuteOfIs(m, i, t);
    MinuteOfIs(m, i, stamp);
    if stamp != t || stamp % BUCKETS != i {
      forall k | 0 <= k < |h| ensures h[k].minute != t {
        MinuteOfIs(m, i, h[k].minute);
      }
      SumOfNone(h, t);
    }
  }

  lemma {:induction false} BucketSnoc(h: seq<Share>, s: Share, m: int, n: int)
    requires 0 <= n <= BUCKETS
    ensures BucketSum(h + [s], m, n) == BucketSum(h, m, n) +
            if m - BUCKETS < s.minute <= m && s.minute % BUCKETS < n then s.diff else 0.0
    decreases n
  {
    if n > 0 {
      BucketSnoc(h, s, m, n - 1);
      SumSnoc(h, s, MinuteOf(m, n - 1));
      MinuteOfIs(m, n - 1, s.minute);
    }
  }

  lemma {:induction false} EmptyBuckets(m: int, n: int)
    ensures BucketSum([], m, n) == 0.0
    decreases if n <= 0 then 0 else n
  {
    if n > 0 {
      EmptyBuckets(m, n - 1);
    }
  }

  /** For any history the ten buckets add up to the last ten minutes of the list. */
  lemma {:induction false} RingIsList(h: seq<Share>, m: int)
    ensures BucketSum(h, m, BUCKETS) == WindowSum(h, m)
  {
    if h == [] {
      EmptyBuckets(m, BUCKETS);
    } else {
      var init, last := h[..|h| - 1], h[|h| - 1];
      RingIsList(init, m);
      BucketSnoc(init, last, m, BUCKETS);
      assert init + [last] == h;
    }
  }
}
