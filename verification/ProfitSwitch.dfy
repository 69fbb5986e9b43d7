/** Profit switching between coins: one check of the market, and what following its advice leads to. */
module ProfitSwitch {
  import opened AddressChoice

  /** A pool as a check sees it. */
  datatype PoolView = PoolView(id: string, coin: string, takesPart: bool, home: bool, health: Status)

  datatype Coin = Coin(revenue: real, stale: bool)

  /** The pools, the market, and the two margins in percent. */
  datatype Scene = Scene(pools: seq<PoolView>, market: map<string, Coin>, margin: int, returnMargin: int)

  datatype Decision =
    | NoData
    | NoCandidates
    | Manual
    | Best
    | BelowMargin
    | Recommend(target: string)
    | AwayStay
    | ReturnHome(target: string)

  datatype Home = NoHome | Home(pool: PoolView, revenue: real)

  // ---- specification ----

  predicate UsableCoin(s: Scene, tag: string) {
    tag in s.market && !s.market[tag].stale && s.market[tag].revenue > 0.0
  }

  /** The place of the first pool with the id, -1 without one. */
  function Find(pools: seq<PoolView>, id: string): (i: int)
    ensures -1 <= i < |pools| && (i >= 0 ==> pools[i].id == id)
    ensures i == -1 ==> forall j :: 0 <= j < |pools| ==> pools[j].id != id
  {
    if pools == [] then -1
    else if Find(pools[..|pools| - 1], id) >= 0 then Find(pools[..|pools| - 1], id)
    else if pools[|pools| - 1].id == id then |pools| - 1 else -1
  }

  predicate Candidate(p: PoolView) {
    p.takesPart && p.health != Down
  }

  ghost predicate CandidateCoin(s: Scene, tag: string) {
    exists i :: 0 <= i < |s.pools| && s.pools[i].coin == tag && Candidate(s.pools[i])
  }

  ghost predicate Beats(s: Scene, tag: string, revenue: real) {
    CandidateCoin(s, tag) && UsableCoin(s, tag) && s.market[tag].revenue > revenue
  }

  /** best is the coin of cur, when nothing beats it, or one of the most profitable coins that do. */
  ghost predicate IsBest(s: Scene, cur: string, best: string)
    requires UsableCoin(s, cur)
  {
    && UsableCoin(s, best)
    && (best == cur || Beats(s, best, s.market[cur].revenue))
    && forall tag :: !Beats(s, tag, s.market[best].revenue)
  }

  /** The main pool is the last one so marked that takes part. */
  function LastHome(pools: seq<PoolView>): seq<PoolView> {
    if pools == [] then [] else
      var p := pools[|pools| - 1];
      if p.home && p.takesPart then [p] else LastHome(pools[..|pools| - 1])
  }

  /** The main pool when the farm compares for another pool and the main pool's coin has usable data. */
  function AwayFrom(s: Scene, active: PoolView): Home {
    var home := LastHome(s.pools);
    if home == [] || home[0].id == "" || !UsableCoin(s, home[0].coin) || home[0].id == active.id then NoHome
    else Home(home[0], s.market[home[0].coin].revenue)
  }

  /** x earns at least margin percent more than y. */
  predicate EarnsMore(x: real, y: real, margin: int)
    requires y > 0.0
  {
    (x / y - 1.0) * 100.0 >= margin as real
  }

  /** id is the first candidate pool of the coin that is UP or, if none is, the first one. */
  ghost predicate PickedPool(s: Scene, tag: string, id: string) {
    exists i :: 0 <= i < |s.pools| && Candidate(s.pools[i]) && s.pools[i].coin == tag && s.pools[i].id == id
      && (forall j :: 0 <= j < i && Candidate(s.pools[j]) && s.pools[j].coin == tag ==>
            s.pools[i].health == Up && s.pools[j].health != Up)
      && (s.pools[i].health != Up ==>
            forall j :: 0 <= j < |s.pools| && Candidate(s.pools[j]) && s.pools[j].coin == tag ==> s.pools[j].health != Up)
  }

  /** d is a decision for the pool p that takes part, with best as the best coin. */
  ghost predicate DecidesFor(s: Scene, p: PoolView, best: string, d: Decision)
    requires UsableCoin(s, p.coin)
  {
    var cur := s.market[p.coin].revenue;
    var home := AwayFrom(s, p);
    && IsBest(s, p.coin, best)
    && if best == p.coin && home.NoHome? then d == Best
       else if best != p.coin && EarnsMore(s.market[best].revenue, cur, s.margin) && !(home.Home? && best == home.pool.coin) then
         d.Recommend? && PickedPool(s, best, d.target)
       else if home.Home? then
         if EarnsMore(cur, home.revenue, s.returnMargin) || home.pool.health == Down then d == AwayStay
         else d == ReturnHome(home.pool.id)
       else d == BelowMargin
  }

  /** d is a decision of a check for the pool with the id; coins of equal revenue may come in any order. */
  ghost predicate Decides(s: Scene, id: string, d: Decision) {
    var i := Find(s.pools, id);
    if i < 0 then d == NoCandidates
    else if !s.pools[i].takesPart then d == Manual
    else if !UsableCoin(s, s.pools[i].coin) then d == NoData
    else exists best :: DecidesFor(s, s.pools[i], best, d)
  }

  // ---- the check ----

  method PickPool(s: Scene, tag: string) returns (id: string)
    requires CandidateCoin(s, tag)
    ensures PickedPool(s, tag, id)
  {
    var first := -1;
    for i := 0 to |s.pools|
      invariant -1 <= first < i
      invariant forall j :: 0 <= j < i && Candidate(s.pools[j]) && s.pools[j].coin == tag ==> s.pools[j].health != Up && first >= 0
      invariant first >= 0 ==> Candidate(s.pools[first]) && s.pools[first].coin == tag
      invariant forall j :: 0 <= j < first ==> !(Candidate(s.pools[j]) && s.pools[j].coin == tag)
    {
      var p := s.pools[i];
      if Candidate(p) && p.coin == tag {
        if p.health == Up {
          return p.id;
        }
        if first < 0 {
          first := i;
        }
      }
    }
    id := s.pools[first].id;
  }

  method HomePool(s: Scene, active: PoolView) returns (home: Home)
    ensures home == AwayFrom(s, active)
  {
    var last: seq<PoolView> := [];
    for i := 0 to |s.pools|
      invariant last == LastHome(s.pools[..i])
    {
      assert s.pools[..i + 1][..i] == s.pools[..i];
      if s.pools[i].home && s.pools[i].takesPart {
        last := [s.pools[i]];
      }
    }
    assert s.pools[..|s.pools|] == s.pools;
    if last == [] || last[0].id == "" {
      return NoHome;
    }
    if !UsableCoin(s, last[0].coin) || last[0].id == active.id {
      return NoHome;
    }
    home := Home(last[0], s.market[last[0].coin].revenue);
  }

  /** The most profitable coin, going through the candidates' coins in any order. */
  method BestCoin(s: Scene, cur: string) returns (best: string)
    requires UsableCoin(s, cur)
    ensures IsBest(s, cur, best)
  {
    var todo := set i | 0 <= i < |s.pools| && Candidate(s.pools[i]) :: s.pools[i].coin;
    best := cur;
    while todo != {}
      invariant UsableCoin(s, best) && (best == cur || Beats(s, best, s.market[cur].revenue))
      invariant s.market[best].revenue >= s.market[cur].revenue
      invariant forall tag :: tag in todo ==> CandidateCoin(s, tag)
      invariant forall tag :: CandidateCoin(s, tag) && UsableCoin(s, tag) && tag !in todo ==>
                  s.market[tag].revenue <= s.market[best].revenue
    {
      var tag :| tag in todo;
      if tag in s.market && !s.market[tag].stale && s.market[tag].revenue > s.market[best].revenue {
        best := tag;
      }
      todo := todo - {tag};
    }
  }

  method Decide(s: Scene, id: string) returns (d: Decision)
    ensures Decides(s, id, d)
  {
    var i := Find(s.pools, id);
    if i < 0 {
      return NoCandidates;
    }
    var p := s.pools[i];
    if !p.takesPart {
      return Manual;
    }
    if !UsableCoin(s, p.coin) {
      return NoData;
    }
    var best := BestCoin(s, p.coin);
    var cur := s.market[p.coin].revenue;
    var home := HomePool(s, p);
    if best == p.coin && home.NoHome? {
      d := Best;
    } else if best != p.coin && EarnsMore(s.market[best].revenue, cur, s.margin) && !(home.Home? && best == home.pool.coin) {
      var target := PickPool(s, best);
      d := Recommend(target);
    } else if home.Home? {
      if EarnsMore(cur, home.revenue, s.returnMargin) {
        d := AwayStay;
      } else if home.pool.health == Down {
        d := AwayStay;
      } else {
        d := ReturnHome(home.pool.id);
      }
    } else {
      d := BelowMargin;
    }
    assert DecidesFor(s, p, best, d);
  }

  // ---- convergence ----

  /** A check for the pool `id` may move the farm to the pool `next`. */
  ghost predicate Moves(s: Scene, id: string, next: string) {
    Decides(s, id, Recommend(next)) || Decides(s, id, ReturnHome(next))
  }

  predicate WellFormed(s: Scene) {
    && (forall i, j :: 0 <= i < j < |s.pools| ==> s.pools[i].id != s.pools[j].id)
    && 0 <= s.returnMargin <= s.margin
  }

  /** Earning margin percent more, without a division. */
  lemma EarnsMoreIs(x: real, y: real, margin: int)
    requires y > 0.0
    ensures EarnsMore(x, y, margin) <==> 100.0 * x >= (100 + margin) as real * y
  {
    var q := x / y;
    assert q * y == x;
    var m := margin as real;
    if EarnsMore(x, y, margin) {
      assert q >= 1.0 + m / 100.0;
      Multiply(1.0 + m / 100.0, q, y);
    } else {
      assert q < 1.0 + m / 100.0;
      MultiplyStrictly(q, 1.0 + m / 100.0, y);
    }
    assert (1.0 + m / 100.0) * y * 100.0 == (100.0 + m) * y;
  }

  lemma Multiply(a: real, b: real, y: real)
    requires a <= b && y > 0.0
    ensures a * y <= b * y
  {
  }

  lemma MultiplyStrictly(a: real, b: real, y: real)
    requires a < b && y > 0.0
    ensures a * y < b * y
  {
  }

  lemma FindIs(pools: seq<PoolView>, i: int)
    requires 0 <= i < |pools| && forall j, k :: 0 <= j < k < |pools| ==> pools[j].id != pools[k].id
    ensures Find(pools, pools[i].id) == i
  {
  }

  lemma {:induction false} LastHomeIs(pools: seq<PoolView>)
    ensures |LastHome(pools)| <= 1
    ensures LastHome(pools) != [] ==> exists i :: 0 <= i < |pools| && pools[i] == LastHome(pools)[0] && pools[i].home && pools[i].takesPart
  {
    if pools != [] {
      LastHomeIs(pools[..|pools| - 1]);
    }
  }

  /** The pool a coin's advice leads to mines the best coin there is. */
  ghost predicate OnTop(s: Scene, i: int) {
    && 0 <= i < |s.pools| && s.pools[i].takesPart && UsableCoin(s, s.pools[i].coin)
    && forall tag :: !Beats(s, tag, s.market[s.pools[i].coin].revenue)
  }

  lemma RecommendLeadsToTop(s: Scene, id: string, next: string)
    requires WellFormed(s) && Decides(s, id, Recommend(next))
    ensures var i, j := Find(s.pools, id), Find(s.pools, next);
            && i >= 0 && s.pools[i].takesPart && UsableCoin(s, s.pools[i].coin) && OnTop(s, j)
            && EarnsMore(s.market[s.pools[j].coin].revenue, s.market[s.pools[i].coin].revenue, s.margin)
  {
    var i := Find(s.pools, id);
    var best :| DecidesFor(s, s.pools[i], best, Recommend(next));
    var j :| 0 <= j < |s.pools| && Candidate(s.pools[j]) && s.pools[j].coin == best && s.pools[j].id == next;
    FindIs(s.pools, j);
  }

  lemma ReturnLeadsHome(s: Scene, id: string, next: string)
    requires WellFormed(s) && Decides(s, id, ReturnHome(next))
    ensures var i, j := Find(s.pools, id), Find(s.pools, next);
            && i >= 0 && s.pools[i].takesPart && UsableCoin(s, s.pools[i].coin) && j >= 0 && next != ""
            && LastHome(s.pools) == [s.pools[j]] && s.pools[j].takesPart && UsableCoin(s, s.pools[j].coin) && s.pools[j].health != Down
            && !EarnsMore(s.market[s.pools[i].coin].revenue, s.market[s.pools[j].coin].revenue, s.returnMargin)
  {
    var i := Find(s.pools, id);
    var best :| DecidesFor(s, s.pools[i], best, ReturnHome(next));
    LastHomeIs(s.pools);
    var home := LastHome(s.pools)[0];
    var j :| 0 <= j < |s.pools| && s.pools[j] == home && s.pools[j].home && s.pools[j].takesPart;
    FindIs(s.pools, j);
  }

  /** From the best coin there is no advice to another one. */
  lemma TopStays(s: Scene, id: string, next: string)
    requires OnTop(s, Find(s.pools, id))
    ensures !Decides(s, id, Recommend(next))
  {
  }

  /** From the main pool there is no return, it is where the farm returns to. */
  lemma HomeDoesNotReturn(s: Scene, id: string, next: string)
    requires Find(s.pools, id) >= 0 && LastHome(s.pools) == [s.pools[Find(s.pools, id)]]
    ensures !Decides(s, id, ReturnHome(next))
  {
  }

  /** What the main pool would be left for earns no more than the best coin. */
  lemma NotBeaten(s: Scene, id: string, next: string, x: real)
    requires WellFormed(s) && Decides(s, id, Recommend(next)) && forall tag :: !Beats(s, tag, x)
    ensures Find(s.pools, next) >= 0 && UsableCoin(s, s.pools[Find(s.pools, next)].coin)
    ensures s.market[s.pools[Find(s.pools, next)].coin].revenue <= x
  {
    hide EarnsMore, LastHome;
    var i := Find(s.pools, id);
    var best :| DecidesFor(s, s.pools[i], best, Recommend(next));
    var j :| 0 <= j < |s.pools| && Candidate(s.pools[j]) && s.pools[j].coin == best && s.pools[j].id == next;
    FindIs(s.pools, j);
    assert CandidateCoin(s, best) && UsableCoin(s, best);
    assert !Beats(s, best, x);
  }

  /** With the return margin within the margin, what earns the margin more earns the return margin more. */
  lemma EarnsStillMore(x: real, y: real, z: real, margin: int, returnMargin: int)
    requires y > 0.0 && z <= x && 0 <= returnMargin <= margin && EarnsMore(z, y, margin)
    ensures EarnsMore(x, y, returnMargin)
  {
    EarnsMoreIs(z, y, margin);
    EarnsMoreIs(x, y, returnMargin);
    Multiply((100 + returnMargin) as real, (100 + margin) as real, y);
  }

  /** After a return because the best coin is too close to the main pool's, nothing beats it by the margin. */
  lemma ReturnedStays(s: Scene, top: string, home: string, next: string)
    requires WellFormed(s) && OnTop(s, Find(s.pools, top)) && Decides(s, top, ReturnHome(home))
    ensures !Decides(s, home, Recommend(next))
  {
    hide EarnsMore, Decides;
    if Decides(s, home, Recommend(next)) {
      ReturnLeadsHome(s, top, home);
      RecommendLeadsToTop(s, home, next);
      var t, h, n := Find(s.pools, top), Find(s.pools, home), Find(s.pools, next);
      var x, y, z := s.market[s.pools[t].coin].revenue, s.market[s.pools[h].coin].revenue, s.market[s.pools[n].coin].revenue;
      NotBeaten(s, home, next, x);
      EarnsStillMore(x, y, z, s.margin, s.returnMargin);
    }
  }

  /** A pool worth leaving the main pool for is not one to return from. */
  lemma WorthLeaving(s: Scene, home: string, top: string, next: string)
    requires WellFormed(s) && Find(s.pools, home) >= 0 && LastHome(s.pools) == [s.pools[Find(s.pools, home)]]
    requires Decides(s, home, Recommend(top))
    ensures !Decides(s, top, ReturnHome(next))
  {
    hide EarnsMore, Decides;
    if Decides(s, top, ReturnHome(next)) {
      RecommendLeadsToTop(s, home, top);
      ReturnLeadsHome(s, top, next);
      var h, t, n := Find(s.pools, home), Find(s.pools, top), Find(s.pools, next);
      var x, y := s.market[s.pools[t].coin].revenue, s.market[s.pools[h].coin].revenue;
      assert s.pools[n] == s.pools[h];
      EarnsStillMore(x, y, x, s.margin, s.returnMargin);
    }
  }

  /** Following the advice, whatever the order of equal coins, ends after at most two moves. */
  lemma Converges(s: Scene, a: string, b: string, c: string, d: string)
    requires WellFormed(s) && Moves(s, a, b) && Moves(s, b, c)
    ensures !Moves(s, c, d)
  {
    hide Decides, OnTop, WellFormed, LastHome;
    if Decides(s, a, Recommend(b)) {
      RecommendLeadsToTop(s, a, b);
      TopStays(s, b, c);
      ReturnLeadsHome(s, b, c);
      HomeDoesNotReturn(s, c, d);
      ReturnedStays(s, b, c, d);
    } else {
      ReturnLeadsHome(s, a, b);
      HomeDoesNotReturn(s, b, c);
      RecommendLeadsToTop(s, b, c);
      TopStays(s, c, d);
      WorthLeaving(s, b, c, d);
    }
  }

  // ---- why the settings keep the return margin within the margin ----

  const MAIN := PoolView("main", "BTC", true, true, Up)
  const OTHER := PoolView("other", "BCH", true, false, Up)

  /** With a return margin above the margin the farm would bounce between two pools for ever. */
  lemma WouldBounce()
    ensures var s := Scene([MAIN, OTHER], map["BTC" := Coin(100.0, false), "BCH" := Coin(103.0, false)], 1, 5);
            Moves(s, "main", "other") && Moves(s, "other", "main")
  {
    var s := Scene([MAIN, OTHER], map["BTC" := Coin(100.0, false), "BCH" := Coin(103.0, false)], 1, 5);
    assert "main"[0] != "other"[0];
    assert "BTC"[1] != "BCH"[1];
    assert s.pools[..1] == [MAIN] && s.pools[..1][..0] == [];
    FindIs(s.pools, 0);
    FindIs(s.pools, 1);
    assert LastHome(s.pools) == [MAIN];
    EarnsMoreIs(103.0, 100.0, 1);
    EarnsMoreIs(103.0, 100.0, 5);
    assert Candidate(s.pools[1]) && s.pools[1].coin == "BCH";
    assert CandidateCoin(s, "BCH");
    assert IsBest(s, "BTC", "BCH") && IsBest(s, "BCH", "BCH");
    assert DecidesFor(s, MAIN, "BCH", Recommend("other"));
    assert DecidesFor(s, OTHER, "BCH", ReturnHome("main"));
  }
}
