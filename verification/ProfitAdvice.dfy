/** What the advice of a profit check means for the farm, in pools, revenues and percent. */
module ProfitAdvice {
  import opened AddressChoice
  import opened ProfitSwitch

  /** The coin has current data, and mining it earns r. */
  predicate Earns(s: Scene, coin: string, r: real) {
    coin in s.market && !s.market[coin].stale && s.market[coin].revenue == r && r > 0.0
  }

  /** The farm may be sent to pool j, which would earn r there. */
  predicate Offers(s: Scene, j: int, r: real) {
    0 <= j < |s.pools| && s.pools[j].takesPart && s.pools[j].health != Down && Earns(s, s.pools[j].coin, r)
  }

  /** r is the most that x and the pools on offer earn. */
  ghost predicate Most(s: Scene, x: real, r: real) {
    && r >= x && (r == x || exists j :: Offers(s, j, r))
    && forall j, q :: Offers(s, j, q) ==> q <= r
  }

  /** r is at least margin percent above x. */
  predicate Above(r: real, x: real, margin: int) {
    100.0 * r >= (100 + margin) as real * x
  }

  /** Pool h is the main pool, another one than pool i, and mining its coin earns y: it is the last one marked that takes
      part. */
  ghost predicate MainElsewhere(s: Scene, i: int, h: int, y: real) {
    && 0 <= i < |s.pools| && 0 <= h < |s.pools| && s.pools[h].home && s.pools[h].takesPart
    && (forall j :: h < j < |s.pools| ==> !(s.pools[j].home && s.pools[j].takesPart))
    && s.pools[h].id != "" && s.pools[h].id != s.pools[i].id && Earns(s, s.pools[h].coin, y)
  }

  ghost predicate NoMainElsewhere(s: Scene, i: int) {
    forall h, y :: !MainElsewhere(s, i, h, y)
  }

  // ---- the model's words ----

  lemma BeatsMeans(s: Scene, x: real)
    ensures forall tag :: Beats(s, tag, x) ==>
              exists j :: 0 <= j < |s.pools| && s.pools[j].coin == tag && Offers(s, j, s.market[tag].revenue)
    ensures forall j, q :: Offers(s, j, q) && q > x ==> Beats(s, s.pools[j].coin, x)
  {
    forall tag | Beats(s, tag, x)
      ensures exists j :: 0 <= j < |s.pools| && s.pools[j].coin == tag && Offers(s, j, s.market[tag].revenue)
    {
      var j :| 0 <= j < |s.pools| && s.pools[j].coin == tag && ProfitSwitch.Candidate(s.pools[j]);
      assert Offers(s, j, s.market[tag].revenue);
    }
    forall j, q | Offers(s, j, q) && q > x ensures Beats(s, s.pools[j].coin, x) {
      assert CandidateCoin(s, s.pools[j].coin);
    }
  }

  /** The best coin is one that earns the most. */
  lemma BestIsMost(s: Scene, cur: string, best: string, x: real)
    requires Earns(s, cur, x) && UsableCoin(s, cur) && IsBest(s, cur, best)
    ensures Most(s, x, s.market[best].revenue) && Earns(s, best, s.market[best].revenue)
    ensures best != cur ==> s.market[best].revenue > x
  {
    BeatsMeans(s, x);
    BeatsMeans(s, s.market[best].revenue);
  }

  lemma {:induction false} LastHomeMeans(pools: seq<PoolView>)
    ensures LastHome(pools) == [] ==> forall j :: 0 <= j < |pools| ==> !(pools[j].home && pools[j].takesPart)
    ensures LastHome(pools) != [] ==>
              exists h :: 0 <= h < |pools| && LastHome(pools) == [pools[h]] && pools[h].home && pools[h].takesPart
                          && forall j :: h < j < |pools| ==> !(pools[j].home && pools[j].takesPart)
  {
    if pools != [] {
      LastHomeMeans(pools[..|pools| - 1]);
    }
  }

  lemma AwayMeans(s: Scene, i: int)
    requires 0 <= i < |s.pools|
    ensures AwayFrom(s, s.pools[i]).NoHome? ==> NoMainElsewhere(s, i)
    ensures AwayFrom(s, s.pools[i]).Home? ==>
              exists h :: MainElsewhere(s, i, h, AwayFrom(s, s.pools[i]).revenue) && s.pools[h] == AwayFrom(s, s.pools[i]).pool
  {
    LastHomeMeans(s.pools);
    var home := AwayFrom(s, s.pools[i]);
    if home.Home? {
      var h :| 0 <= h < |s.pools| && LastHome(s.pools) == [s.pools[h]] && s.pools[h].home && s.pools[h].takesPart
               && forall j :: h < j < |s.pools| ==> !(s.pools[j].home && s.pools[j].takesPart);
      assert MainElsewhere(s, i, h, home.revenue);
    } else {
      forall h, y ensures !MainElsewhere(s, i, h, y) {
        if MainElsewhere(s, i, h, y) {
          OnlyLast(s.pools, h);
        }
      }
    }
  }

  lemma OnlyLast(pools: seq<PoolView>, h: int)
    requires 0 <= h < |pools| && pools[h].home && pools[h].takesPart
    requires forall j :: h < j < |pools| ==> !(pools[j].home && pools[j].takesPart)
    ensures LastHome(pools) == [pools[h]]
  {
    LastHomeMeans(pools);
    var k :| 0 <= k < |pools| && LastHome(pools) == [pools[k]] && pools[k].home && pools[k].takesPart
             && forall j :: k < j < |pools| ==> !(pools[j].home && pools[j].takesPart);
    assert k == h;
  }

  lemma AboveIs(r: real, x: real, margin: int)
    requires x > 0.0
    ensures EarnsMore(r, x, margin) <==> Above(r, x, margin)
  {
    EarnsMoreIs(r, x, margin);
  }

  // ---- what a decision means ----

  /** The farm is compared on pool i, which takes part and earns x. */
  predicate Compared(s: Scene, i: int, x: real) {
    0 <= i < |s.pools| && Find(s.pools, s.pools[i].id) == i && s.pools[i].takesPart && Earns(s, s.pools[i].coin, x)
  }

  /** Without a pool, with a pool outside profit switching, or without current data there is no advice, and only then. */
  lemma NoAdviceExactlyWhen(s: Scene, id: string, d: Decision)
    requires Decides(s, id, d)
    ensures d.NoCandidates? <==> forall j :: 0 <= j < |s.pools| ==> s.pools[j].id != id
    ensures d.Manual? <==> Find(s.pools, id) >= 0 && !s.pools[Find(s.pools, id)].takesPart
    ensures d.NoData? <==> var i := Find(s.pools, id); i >= 0 && s.pools[i].takesPart && forall r :: !Earns(s, s.pools[i].coin, r)
  {
    var i := Find(s.pools, id);
    if i >= 0 && UsableCoin(s, s.pools[i].coin) {
      assert Earns(s, s.pools[i].coin, s.market[s.pools[i].coin].revenue);
    }
  }

  ghost predicate Bests(s: Scene, i: int, best: string) {
    0 <= i < |s.pools| && UsableCoin(s, s.pools[i].coin) && IsBest(s, s.pools[i].coin, best)
  }

  lemma DecidedBy(s: Scene, i: int, x: real, d: Decision) returns (best: string)
    requires Compared(s, i, x) && Decides(s, s.pools[i].id, d)
    ensures Bests(s, i, best) && DecidesFor(s, s.pools[i], best, d) && s.market[s.pools[i].coin].revenue == x
  {
    assert UsableCoin(s, s.pools[i].coin);
    best :| DecidesFor(s, s.pools[i], best, d);
  }

  /** A recommended pool takes part, is not DOWN and has current data; it earns the most there is, at least the margin
      above now; it is not on the main pool's coin while that one is elsewhere; and of the pools of its coin it is
      the first that is UP or, if none is, the first. */
  lemma RecommendMeans(s: Scene, i: int, x: real, target: string)
    requires Compared(s, i, x) && Decides(s, s.pools[i].id, Recommend(target))
    ensures exists j, r :: Offers(s, j, r) && s.pools[j].id == target && Most(s, x, r) && r > x && Above(r, x, s.margin)
              && s.pools[j].coin != s.pools[i].coin
              && (forall h, y :: MainElsewhere(s, i, h, y) ==> s.pools[h].coin != s.pools[j].coin)
              && (s.pools[j].health == Up ||
                  forall k, q :: Offers(s, k, q) && s.pools[k].coin == s.pools[j].coin ==> s.pools[k].health != Up)
              && (forall k, q :: k < j && Offers(s, k, q) && s.pools[k].coin == s.pools[j].coin ==>
                    s.pools[j].health == Up && s.pools[k].health != Up)
  {
    hide EarnsMore, Above, AwayFrom, LastHome, Most;
    var best := DecidedBy(s, i, x, Recommend(target));
    BestIsMost(s, s.pools[i].coin, best, x);
    var r := s.market[best].revenue;
    AboveIs(r, x, s.margin);
    AwayMeans(s, i);
    var j :| 0 <= j < |s.pools| && ProfitSwitch.Candidate(s.pools[j]) && s.pools[j].coin == best && s.pools[j].id == target
             && (forall k :: 0 <= k < j && ProfitSwitch.Candidate(s.pools[k]) && s.pools[k].coin == best ==>
                   s.pools[j].health == Up && s.pools[k].health != Up)
             && (s.pools[j].health != Up ==>
                   forall k :: 0 <= k < |s.pools| && ProfitSwitch.Candidate(s.pools[k]) && s.pools[k].coin == best ==>
                     s.pools[k].health != Up);
    assert Offers(s, j, r);
    forall h, y | MainElsewhere(s, i, h, y) ensures s.pools[h].coin != s.pools[j].coin {
      MainIsOne(s, i, h, y);
    }
  }

  lemma MainIsOne(s: Scene, i: int, h: int, y: real)
    requires MainElsewhere(s, i, h, y)
    ensures AwayFrom(s, s.pools[i]) == Home(s.pools[h], y)
  {
    OnlyLast(s.pools, h);
  }

  /** Nothing worth leaving for: the most there is is what the farm earns now, or less than the margin above it, or what
      the main pool's coin earns. */
  ghost predicate NotWorthLeaving(s: Scene, i: int, x: real) {
    forall r :: Most(s, x, r) ==>
      r == x || !Above(r, x, s.margin) || exists h :: MainElsewhere(s, i, h, r)
  }

  lemma OneMost(s: Scene, x: real, r: real, q: real)
    requires Most(s, x, r) && Most(s, x, q)
    ensures r == q
  {
  }

  /** Staying without a main pool elsewhere: nothing earns more, or nothing earns the margin more. */
  lemma StayingMeans(s: Scene, i: int, x: real, d: Decision)
    requires Compared(s, i, x) && Decides(s, s.pools[i].id, d) && (d.Best? || d.BelowMargin?)
    ensures NoMainElsewhere(s, i)
    ensures d.Best? ==> Most(s, x, x)
    ensures d.BelowMargin? ==> forall r :: Most(s, x, r) ==> r > x && !Above(r, x, s.margin)
  {
    hide EarnsMore, Above, AwayFrom, LastHome, Most;
    var best := DecidedBy(s, i, x, d);
    BestIsMost(s, s.pools[i].coin, best, x);
    AwayMeans(s, i);
    var r := s.market[best].revenue;
    AboveIs(r, x, s.margin);
    forall q | Most(s, x, q) ensures q == r {
      OneMost(s, x, q, r);
    }
  }

  /** Away from the main pool with nothing worth leaving for: the farm returns when that pool is not DOWN and the coin mined
      now does not earn the return margin more than its; else it stays away. */
  lemma AwayMeansReturnOrStay(s: Scene, i: int, x: real, d: Decision)
    requires Compared(s, i, x) && Decides(s, s.pools[i].id, d) && (d.AwayStay? || d.ReturnHome?)
    ensures NotWorthLeaving(s, i, x)
    ensures exists h, y :: MainElsewhere(s, i, h, y)
              && if Above(x, y, s.returnMargin) || s.pools[h].health == Down then d == AwayStay else d == ReturnHome(s.pools[h].id)
  {
    hide EarnsMore, Above, AwayFrom, LastHome, Most;
    var best := DecidedBy(s, i, x, d);
    BestIsMost(s, s.pools[i].coin, best, x);
    AwayMeans(s, i);
    var home := AwayFrom(s, s.pools[i]);
    var h :| MainElsewhere(s, i, h, home.revenue) && s.pools[h] == home.pool;
    AboveIs(x, home.revenue, s.returnMargin);
    var r := s.market[best].revenue;
    AboveIs(r, x, s.margin);
    forall q | Most(s, x, q) ensures q == r {
      OneMost(s, x, q, r);
    }
  }
}
