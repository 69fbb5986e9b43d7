/** The latency of a pool address, the address new sessions try first, and the order of the others.
    Durations are nanoseconds; an rtt of 0 is not measured yet. */
module AddressChoice {
  import opened Basics

  const RTT_SAMPLES := 5
  const SWITCH_MIN_GAIN := 5_000_000

  datatype Status = Unknown | Up | Down

  /** The health of one address; upSince is 0 while a run of good checks is broken. */
  datatype AddrHealth = AddrHealth(status: Status, probeFails: int, probeOKs: int, dialFails: int, upSince: int,
                                   samples: seq<int>, rtt: int)

  /** The key of an address: its pool and its lower-cased text. */
  datatype Key = Key(pool: string, addr: string)

  /** What a check, a dial or a session carries of a pool: its id, its addresses, and its TLS and login. */
  datatype Conf = Conf(id: string, addrs: seq<string>, login: string)

  function KeyOf(id: string, a: string): Key {
    Key(id, Lower(a))
  }

  const FRESH := AddrHealth(Unknown, 0, 0, 0, 0, [], 0)

  type Addrs = map<Key, AddrHealth>

  function Entry(addrs: Addrs, k: Key): AddrHealth {
    if k in addrs then addrs[k] else FRESH
  }

  // ---- the median ----

  function Insert(x: int, s: seq<int>): seq<int> {
    if s == [] || x <= s[0] then [x] + s else [s[0]] + Insert(x, s[1..])
  }

  function Sort(s: seq<int>): (r: seq<int>)
    ensures |r| == |s|
  {
    if s == [] then [] else
      InsertSize(s[0], Sort(s[1..])); Insert(s[0], Sort(s[1..]))
  }

  lemma {:induction false} InsertSize(x: int, s: seq<int>)
    ensures |Insert(x, s)| == |s| + 1
  {
    if s != [] && x > s[0] {
      InsertSize(x, s[1..]);
    }
  }

  /** The lower middle one of the sorted samples. */
  function Median(s: seq<int>): int
    requires s != []
  {
    Sort(s)[(|s| - 1) / 2]
  }

  /** The last samples with one more. */
  function Sampled(samples: seq<int>, rtt: int): seq<int> {
    (if |samples| == RTT_SAMPLES then samples[1..] else samples) + [rtt]
  }

  function AddSample(h: AddrHealth, rtt: int): AddrHealth {
    var s := Sampled(h.samples, rtt);
    h.(samples := s, rtt := Median(s))
  }

  function CountAbove(s: seq<int>, b: int): int {
    if s == [] then 0 else CountAbove(s[1..], b) + if s[0] > b then 1 else 0
  }

  predicate Ascending(s: seq<int>) {
    forall i, j :: 0 <= i < j < |s| ==> s[i] <= s[j]
  }

  lemma {:induction false} InsertAtLeast(x: int, s: seq<int>, least: int)
    requires x >= least && forall i :: 0 <= i < |s| ==> s[i] >= least
    ensures forall i :: 0 <= i < |Insert(x, s)| ==> Insert(x, s)[i] >= least
  {
    if s != [] && x > s[0] {
      InsertAtLeast(x, s[1..], least);
    }
  }

  lemma {:induction false} InsertAscends(x: int, s: seq<int>)
    requires Ascending(s)
    ensures Ascending(Insert(x, s))
  {
    if s != [] && x > s[0] {
      InsertAscends(x, s[1..]);
      InsertAtLeast(x, s[1..], s[0]);
    }
  }

  lemma {:induction false} InsertCounts(x: int, s: seq<int>, b: int)
    ensures CountAbove(Insert(x, s), b) == CountAbove(s, b) + if x > b then 1 else 0
  {
    if s == [] || x <= s[0] {
      assert ([x] + s)[1..] == s;
    } else {
      InsertCounts(x, s[1..], b);
      assert Insert(x, s)[1..] == Insert(x, s[1..]);
    }
  }

  lemma {:induction false} InsertPermutes(x: int, s: seq<int>)
    ensures multiset(Insert(x, s)) == multiset(s) + multiset{x}
  {
    if s != [] && x > s[0] {
      InsertPermutes(x, s[1..]);
      assert s == [s[0]] + s[1..];
    }
  }

  lemma {:induction false} SortKeeps(s: seq<int>, b: int)
    ensures Ascending(Sort(s)) && CountAbove(Sort(s), b) == CountAbove(s, b) && multiset(Sort(s)) == multiset(s)
  {
    if s != [] {
      hide Ascending, Insert;
      SortKeeps(s[1..], b);
      InsertAscends(s[0], Sort(s[1..]));
      InsertCounts(s[0], Sort(s[1..]), b);
      InsertPermutes(s[0], Sort(s[1..]));
      assert s == [s[0]] + s[1..];
    }
  }

  lemma {:induction false} SuffixAbove(s: seq<int>, b: int, i: int)
    requires Ascending(s) && 0 <= i < |s| && s[i] > b
    ensures CountAbove(s, b) >= |s| - i
  {
    if i > 0 {
      SuffixAbove(s[1..], b, i - 1);
    } else if |s| > 1 {
      SuffixAbove(s[1..], b, 0);
    }
  }

  lemma {:induction false} PrefixNotAbove(s: seq<int>, b: int, i: int)
    requires Ascending(s) && 0 <= i < |s| && s[i] <= b
    ensures CountAbove(s, b) <= |s| - 1 - i
  {
    if i > 0 {
      PrefixNotAbove(s[1..], b, i - 1);
    } else {
      CountAtMost(s[1..], b);
    }
  }

  lemma {:induction false} CountAtMost(s: seq<int>, b: int)
    ensures CountAbove(s, b) <= |s|
  {
    if s != [] {
      CountAtMost(s[1..], b);
    }
  }

  /** The median is the least value that at most half of the samples are above. */
  lemma MedianMeans(s: seq<int>, b: int)
    requires s != []
    ensures Median(s) <= b <==> CountAbove(s, b) <= |s| / 2
  {
    SortKeeps(s, b);
    if Median(s) > b {
      SuffixAbove(Sort(s), b, (|s| - 1) / 2);
    } else {
      PrefixNotAbove(Sort(s), b, (|s| - 1) / 2);
    }
  }

  lemma {:induction false} OneAbove(s: seq<int>, b: int, outlier: int)
    requires 0 <= outlier < |s| || outlier == -1
    requires forall i :: 0 <= i < |s| && i != outlier ==> s[i] <= b
    ensures CountAbove(s, b) <= if outlier == -1 then 0 else 1
  {
    if s != [] {
      OneAbove(s[1..], b, if outlier > 0 then outlier - 1 else -1);
    }
  }

  /** One slow outlier among two or more samples does not lift the median above the other samples. */
  lemma OutlierDoesNotCount(s: seq<int>, outlier: int, b: int)
    requires |s| >= 2 && 0 <= outlier < |s| && forall i :: 0 <= i < |s| && i != outlier ==> s[i] <= b
    ensures Median(s) <= b
  {
    MedianMeans(s, b);
    OneAbove(s, b, outlier);
  }

  /** The median is one of the samples. */
  lemma MedianIsASample(s: seq<int>)
    requires s != []
    ensures Median(s) in s
  {
    SortKeeps(s, 0);
    assert Median(s) in multiset(Sort(s));
  }

  /** At most five positive connect times, of which rtt is the median; 0 means none yet. */
  predicate SamplesOk(h: AddrHealth) {
    && |h.samples| <= RTT_SAMPLES && (forall i :: 0 <= i < |h.samples| ==> h.samples[i] > 0)
    && h.rtt == if h.samples == [] then 0 else Median(h.samples)
  }

  /** An address is measured exactly once it has samples. */
  lemma MeasuredBySamples(h: AddrHealth, rtt: int)
    requires SamplesOk(h)
    ensures h.rtt > 0 <==> h.samples != []
    ensures rtt > 0 ==> SamplesOk(AddSample(h, rtt)) && AddSample(h, rtt).rtt > 0
  {
    if h.samples != [] {
      MedianIsASample(h.samples);
    }
    if rtt > 0 {
      MedianIsASample(Sampled(h.samples, rtt));
    }
  }

  // ---- the preferred address ----

  predicate Usable(addrs: Addrs, k: Key) {
    Entry(addrs, k).status != Down
  }

  predicate Measured(addrs: Addrs, k: Key) {
    Entry(addrs, k).rtt > 0
  }

  function KeysOf(p: Conf): (keys: seq<Key>)
    ensures |keys| == |p.addrs| && forall i :: 0 <= i < |keys| ==> keys[i] == KeyOf(p.id, p.addrs[i])
  {
    seq(|p.addrs|, i requires 0 <= i < |p.addrs| => KeyOf(p.id, p.addrs[i]))
  }

  datatype Choice = NoChoice | Chosen(key: Key)

  /** The first address that is not DOWN. */
  function FirstUsable(addrs: Addrs, keys: seq<Key>): Choice {
    if keys == [] then NoChoice else
      var before, k := FirstUsable(addrs, keys[..|keys| - 1]), keys[|keys| - 1];
      if before.NoChoice? && Usable(addrs, k) then Chosen(k) else before
  }

  /** The first of the fastest measured addresses that are not DOWN. */
  function Fastest(addrs: Addrs, keys: seq<Key>): Choice {
    if keys == [] then NoChoice else
      var before, k := Fastest(addrs, keys[..|keys| - 1]), keys[|keys| - 1];
      if Usable(addrs, k) && Measured(addrs, k) && (before.NoChoice? || Entry(addrs, k).rtt < Entry(addrs, before.key).rtt)
      then Chosen(k) else before
  }

  /** The other address is at least 20% and 5 ms faster. */
  predicate ClearlyFaster(best: int, current: int) {
    5 * best < 4 * current && current - best >= SWITCH_MIN_GAIN
  }

  function Choose(addrs: Addrs, keys: seq<Key>, current: Choice): Choice {
    var best := Fastest(addrs, keys);
    var keep := current.Chosen? && current.key in keys && Usable(addrs, current.key);
    if best.NoChoice? then if keep then current else FirstUsable(addrs, keys)
    else if !keep || Entry(addrs, current.key).rtt == 0 || current == best then best
    else if ClearlyFaster(Entry(addrs, best.key).rtt, Entry(addrs, current.key).rtt) then best
    else current
  }

  method ChooseAddress(addrs: Addrs, p: Conf, current: Choice) returns (r: Choice)
    ensures r == Choose(addrs, KeysOf(p), current)
  {
    var best, bestRTT, first, curOK, curRTT := NoChoice, 0, NoChoice, false, 0;
    var keys := KeysOf(p);
    for i := 0 to |keys|
      invariant best == Fastest(addrs, keys[..i]) && first == FirstUsable(addrs, keys[..i])
      invariant best.Chosen? ==> bestRTT == Entry(addrs, best.key).rtt
      invariant curOK == (current.Chosen? && current.key in keys[..i] && Usable(addrs, current.key))
      invariant curOK ==> curRTT == Entry(addrs, current.key).rtt
    {
      assert keys[..i + 1][..i] == keys[..i];
      var k := keys[i];
      if Entry(addrs, k).status == Down {
        continue;
      }
      if first.NoChoice? {
        first := Chosen(k);
      }
      var rtt := Entry(addrs, k).rtt;
      if Chosen(k) == current {
        curOK, curRTT := true, rtt;
      }
      if rtt > 0 && (best.NoChoice? || rtt < bestRTT) {
        best, bestRTT := Chosen(k), rtt;
      }
    }
    assert keys[..|keys|] == keys;
    if best.NoChoice? {
      return if curOK then current else first;
    }
    if !curOK || curRTT == 0 || current == best {
      return best;
    }
    return if ClearlyFaster(bestRTT, curRTT) then best else current;
  }

  lemma {:induction false} FirstUsableIs(addrs: Addrs, keys: seq<Key>)
    ensures var r := FirstUsable(addrs, keys);
            if r.Chosen? then r.key in keys && Usable(addrs, r.key) else forall k :: k in keys ==> !Usable(addrs, k)
  {
    if keys != [] {
      FirstUsableIs(addrs, keys[..|keys| - 1]);
      assert keys == keys[..|keys| - 1] + [keys[|keys| - 1]];
    }
  }

  /** Nothing before it in the configuration is usable. */
  lemma {:induction false} FirstUsableIsFirst(addrs: Addrs, keys: seq<Key>)
    ensures FirstUsable(addrs, keys).Chosen? ==>
              exists i :: 0 <= i < |keys| && FirstUsable(addrs, keys) == Chosen(keys[i])
                          && forall j :: 0 <= j < i ==> Entry(addrs, keys[j]).status == Down
  {
    if keys != [] {
      var n := |keys| - 1;
      FirstUsableIsFirst(addrs, keys[..n]);
      FirstUsableIs(addrs, keys[..n]);
      if FirstUsable(addrs, keys[..n]).NoChoice? {
        forall j | 0 <= j < n ensures Entry(addrs, keys[j]).status == Down {
          assert keys[..n][j] in keys[..n];
        }
      } else {
        var i :| 0 <= i < n && FirstUsable(addrs, keys[..n]) == Chosen(keys[..n][i])
                 && forall j :: 0 <= j < i ==> Entry(addrs, keys[..n][j]).status == Down;
        assert forall j :: 0 <= j < i ==> keys[..n][j] == keys[j];
      }
    }
  }

  predicate Candidate(addrs: Addrs, keys: seq<Key>, k: Key) {
    k in keys && Usable(addrs, k) && Measured(addrs, k)
  }

  lemma {:induction false} FastestIs(addrs: Addrs, keys: seq<Key>)
    ensures var r := Fastest(addrs, keys);
            && (r.Chosen? ==> Candidate(addrs, keys, r.key))
            && forall k :: Candidate(addrs, keys, k) ==> r.Chosen? && Entry(addrs, r.key).rtt <= Entry(addrs, k).rtt
  {
    if keys != [] {
      FastestIs(addrs, keys[..|keys| - 1]);
      assert keys == keys[..|keys| - 1] + [keys[|keys| - 1]];
    }
  }

  /** Among equally fast ones it is the first in the configuration. */
  lemma {:induction false} FastestIsFirst(addrs: Addrs, keys: seq<Key>)
    ensures Fastest(addrs, keys).Chosen? ==>
              exists i :: 0 <= i < |keys| && Fastest(addrs, keys) == Chosen(keys[i])
                && forall j :: 0 <= j < i && Entry(addrs, keys[j]).status != Down && Entry(addrs, keys[j]).rtt > 0 ==>
                     Entry(addrs, keys[j]).rtt > Entry(addrs, keys[i]).rtt
  {
    if keys != [] {
      var n := |keys| - 1;
      var before := Fastest(addrs, keys[..n]);
      FastestIsFirst(addrs, keys[..n]);
      FastestIs(addrs, keys[..n]);
      if Fastest(addrs, keys) == before && before.Chosen? {
        var i :| 0 <= i < n && before == Chosen(keys[..n][i])
                 && forall j :: 0 <= j < i && Entry(addrs, keys[..n][j]).status != Down && Entry(addrs, keys[..n][j]).rtt > 0 ==>
                      Entry(addrs, keys[..n][j]).rtt > Entry(addrs, keys[..n][i]).rtt;
        assert forall j :: 0 <= j < n ==> keys[..n][j] == keys[j];
      } else if Fastest(addrs, keys).Chosen? {
        forall j | 0 <= j < n && Entry(addrs, keys[j]).status != Down && Entry(addrs, keys[j]).rtt > 0
          ensures Entry(addrs, keys[j]).rtt > Entry(addrs, keys[n]).rtt
        {
          assert keys[..n][j] in keys[..n];
          assert Candidate(addrs, keys[..n], keys[j]);
        }
      }
    }
  }

  /** An address that is not DOWN is chosen whenever there is one, a measured one whenever there is one, and never
      one that is both more than 25% and at least 5 ms slower than another. */
  lemma ChoiceIsNearOptimal(addrs: Addrs, keys: seq<Key>, current: Choice)
    ensures var r := Choose(addrs, keys, current);
            && (r.Chosen? <==> exists k :: k in keys && Usable(addrs, k))
            && (r.Chosen? ==> r.key in keys && Usable(addrs, r.key))
            && forall k :: Candidate(addrs, keys, k) ==>
                 Entry(addrs, r.key).rtt != 0 && !ClearlyFaster(Entry(addrs, k).rtt, Entry(addrs, r.key).rtt)
  {
    FirstUsableIs(addrs, keys);
    FastestIs(addrs, keys);
  }

  /** With unchanged measurements the choice stands. */
  lemma ChoiceIsStable(addrs: Addrs, keys: seq<Key>, current: Choice)
    ensures var r := Choose(addrs, keys, current); Choose(addrs, keys, r) == r
  {
    FirstUsableIs(addrs, keys);
    FastestIs(addrs, keys);
  }

  /** The current address is kept exactly when it is not DOWN and either nothing is measured, or it is and no other
      measured one is more than 20% and at least 5 ms faster; else the fastest measured one is taken, or, with none, the
      first that is not DOWN. */
  lemma ChoiceIsKeptExactlyWhen(addrs: Addrs, keys: seq<Key>, k: Key)
    requires k in keys && forall x :: x in keys ==> Entry(addrs, x).rtt >= 0
    ensures var r := Choose(addrs, keys, Chosen(k));
            && (r == Chosen(k) <==>
                  && Entry(addrs, k).status != Down
                  && if exists x :: Candidate(addrs, keys, x) then
                       && Entry(addrs, k).rtt > 0
                       && (Fastest(addrs, keys) == Chosen(k) ||
                           forall x :: Candidate(addrs, keys, x) ==>
                             !(10 * Entry(addrs, x).rtt < 8 * Entry(addrs, k).rtt
                               && Entry(addrs, k).rtt - Entry(addrs, x).rtt >= 5_000_000))
                     else true)
            && (r != Chosen(k) && r.Chosen? && (exists x :: Candidate(addrs, keys, x)) ==>
                  Candidate(addrs, keys, r.key)
                  && forall x :: Candidate(addrs, keys, x) ==> Entry(addrs, r.key).rtt <= Entry(addrs, x).rtt)
            && (r != Chosen(k) && r.Chosen? && !(exists x :: Candidate(addrs, keys, x)) ==>
                  exists i :: 0 <= i < |keys| && r == Chosen(keys[i])
                    && forall j :: 0 <= j < i ==> Entry(addrs, keys[j]).status == Down)
  {
    FirstUsableIsFirst(addrs, keys);
    FirstUsableIs(addrs, keys);
    FastestIs(addrs, keys);
  }

  // ---- the dial order ----

  datatype Cand = Cand(addr: string, rtt: int, pref: bool, order: int)

  predicate Before(x: Cand, y: Cand) {
    if x.pref != y.pref then x.pref
    else if (x.rtt > 0) != (y.rtt > 0) then x.rtt > 0
    else if x.rtt != y.rtt then x.rtt < y.rtt
    else x.order < y.order
  }

  /** The addresses that are not DOWN, in configuration order. */
  function Candidates(addrs: Addrs, p: Conf, preferred: Choice, n: nat): seq<Cand>
    requires n <= |p.addrs|
  {
    if n == 0 then [] else
      var k := KeyOf(p.id, p.addrs[n - 1]);
      Candidates(addrs, p, preferred, n - 1) +
      if Usable(addrs, k) then [Cand(p.addrs[n - 1], Entry(addrs, k).rtt, Chosen(k) == preferred, n - 1)] else []
  }

  function Place(c: Cand, cs: seq<Cand>): seq<Cand> {
    if cs == [] then [c]
    else if Before(c, cs[|cs| - 1]) then Place(c, cs[..|cs| - 1]) + [cs[|cs| - 1]] else cs + [c]
  }

  /** The stable sort, one candidate after the other. */
  function SortCands(cs: seq<Cand>): seq<Cand> {
    if cs == [] then [] else Place(cs[|cs| - 1], SortCands(cs[..|cs| - 1]))
  }

  function AddrsOf(cs: seq<Cand>): seq<string> {
    if cs == [] then [] else AddrsOf(cs[..|cs| - 1]) + [cs[|cs| - 1].addr]
  }

  method OrderedAddresses(addrs: Addrs, p: Conf, preferred: Choice) returns (out: seq<string>)
    ensures out == AddrsOf(SortCands(Candidates(addrs, p, preferred, |p.addrs|)))
  {
    var cs: seq<Cand> := [];
    for i := 0 to |p.addrs|
      invariant cs == Candidates(addrs, p, preferred, i)
    {
      var k := KeyOf(p.id, p.addrs[i]);
      if Usable(addrs, k) {
        cs := cs + [Cand(p.addrs[i], Entry(addrs, k).rtt, Chosen(k) == preferred, i)];
      }
    }
    var sorted := SortCands(cs);
    out := [];
    for i := 0 to |sorted|
      invariant out == AddrsOf(sorted[..i])
    {
      assert sorted[..i + 1][..i] == sorted[..i];
      out := out + [sorted[i].addr];
    }
    assert sorted[..|sorted|] == sorted;
  }

  predicate InOrder(cs: seq<Cand>) {
    forall i, j :: 0 <= i < j < |cs| ==> !Before(cs[j], cs[i])
  }

  lemma {:induction false} PlacePermutes(c: Cand, cs: seq<Cand>)
    ensures multiset(Place(c, cs)) == multiset(cs) + multiset{c}
    ensures forall x :: x in Place(c, cs) <==> x == c || x in cs
  {
    if cs != [] {
      var n := |cs| - 1;
      assert cs == cs[..n] + [cs[n]];
      if Before(c, cs[n]) {
        PlacePermutes(c, cs[..n]);
      }
    }
  }

  lemma InOrderSnoc(cs: seq<Cand>, c: Cand)
    requires InOrder(cs) && forall x :: x in cs ==> !Before(c, x)
    ensures InOrder(cs + [c])
  {
  }

  lemma {:induction false} PlaceKeeps(c: Cand, cs: seq<Cand>)
    requires InOrder(cs)
    ensures InOrder(Place(c, cs))
  {
    hide Before;
    if cs != [] {
      var n := |cs| - 1;
      if Before(c, cs[n]) {
        PlaceKeeps(c, cs[..n]);
        PlacePermutes(c, cs[..n]);
        NotBoth(c, cs[n]);
        InOrderSnoc(Place(c, cs[..n]), cs[n]);
      } else {
        assert InOrder(cs);
        forall x | x in cs ensures !Before(c, x) {
          if x != cs[n] {
            assert !Before(cs[n], x);
            NotBefore(c, cs[n], x);
          }
        }
        InOrderSnoc(cs, c);
      }
    }
  }

  lemma NotBoth(x: Cand, y: Cand)
    requires Before(x, y)
    ensures !Before(y, x)
  {
  }

  lemma NotBefore(x: Cand, y: Cand, z: Cand)
    requires !Before(x, y) && !Before(y, z)
    ensures !Before(x, z)
  {
  }

  lemma {:induction false} SortCandsKeeps(cs: seq<Cand>)
    ensures InOrder(SortCands(cs)) && multiset(SortCands(cs)) == multiset(cs)
  {
    hide Place;
    if cs != [] {
      SortCandsKeeps(cs[..|cs| - 1]);
      PlaceKeeps(cs[|cs| - 1], SortCands(cs[..|cs| - 1]));
      PlacePermutes(cs[|cs| - 1], SortCands(cs[..|cs| - 1]));
      assert cs == cs[..|cs| - 1] + [cs[|cs| - 1]];
    }
  }

  /** c stands for the usable address at its place in the configuration. */
  predicate Stands(addrs: Addrs, p: Conf, c: Cand) {
    && 0 <= c.order < |p.addrs| && c.addr == p.addrs[c.order]
    && Usable(addrs, KeyOf(p.id, c.addr)) && c.rtt == Entry(addrs, KeyOf(p.id, c.addr)).rtt
  }

  predicate Listed(cs: seq<Cand>, order: int) {
    exists i :: 0 <= i < |cs| && cs[i].order == order
  }

  lemma {:induction false} CandidatesAre(addrs: Addrs, p: Conf, preferred: Choice, n: nat)
    requires n <= |p.addrs|
    ensures forall c :: c in Candidates(addrs, p, preferred, n) ==>
              Stands(addrs, p, c) && c.order < n && (c.pref <==> Chosen(KeyOf(p.id, c.addr)) == preferred)
    ensures forall j :: 0 <= j < n && Usable(addrs, KeyOf(p.id, p.addrs[j])) ==> Listed(Candidates(addrs, p, preferred, n), j)
  {
    hide Usable, Entry, KeyOf;
    if n > 0 {
      CandidatesAre(addrs, p, preferred, n - 1);
      var before, cs := Candidates(addrs, p, preferred, n - 1), Candidates(addrs, p, preferred, n);
      forall j | 0 <= j < n && Usable(addrs, KeyOf(p.id, p.addrs[j])) ensures Listed(cs, j) {
        if j < n - 1 {
          var i :| 0 <= i < |before| && before[i].order == j;
          assert cs[i] == before[i];
        } else {
          assert cs[|before|].order == j;
        }
      }
    }
  }

  /** x may be dialled before y: the preferred address first, then the measured ones from the fastest on, equal ones and
      the others in configuration order. */
  predicate RightOrder(x: Cand, y: Cand) {
    && (y.pref ==> x.pref)
    && (x.pref == y.pref ==>
          && (y.rtt > 0 ==> x.rtt > 0) && (x.rtt > 0 && y.rtt > 0 ==> x.rtt <= y.rtt)
          && (x.rtt == y.rtt ==> x.order <= y.order))
  }

  lemma OrderIs(cs: seq<Cand>)
    requires InOrder(cs)
    ensures forall i, j :: 0 <= i < j < |cs| ==> RightOrder(cs[i], cs[j])
  {
  }

  /** The dial order is a permutation of the addresses that are not DOWN: the preferred one, then the measured
      ones from the fastest on, then the others in configuration order. */
  lemma DialOrder(addrs: Addrs, p: Conf, preferred: Choice)
    ensures var cs := Candidates(addrs, p, preferred, |p.addrs|);
            var sorted := SortCands(cs);
            && multiset(sorted) == multiset(cs) && InOrder(sorted)
            && (forall c :: c in sorted ==> Stands(addrs, p, c))
            && (forall i, j :: 0 <= i < j < |sorted| ==> RightOrder(sorted[i], sorted[j]))
            && forall j :: 0 <= j < |p.addrs| && Usable(addrs, KeyOf(p.id, p.addrs[j])) ==> Listed(sorted, j)
  {
    hide Stands, Usable, KeyOf, InOrder, Candidates;
    var cs := Candidates(addrs, p, preferred, |p.addrs|);
    var sorted := SortCands(cs);
    CandidatesAre(addrs, p, preferred, |p.addrs|);
    SortCandsKeeps(cs);
    OrderIs(sorted);
    hide RightOrder;
    forall c | c in sorted ensures c in cs {
      assert c in multiset(sorted);
    }
    forall j | 0 <= j < |p.addrs| && Usable(addrs, KeyOf(p.id, p.addrs[j])) ensures Listed(sorted, j) {
      var i :| 0 <= i < |cs| && cs[i].order == j;
      assert cs[i] in multiset(cs);
      assert cs[i] in sorted;
    }
  }
}
