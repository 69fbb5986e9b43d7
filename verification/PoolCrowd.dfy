/** A farm with so many pools of one base name that no id is left for another one: every one of them is created by
    the store, and the next one is turned down. */
module PoolCrowd {
  import opened PoolFile
  import opened PoolId
  import opened PoolManager
  import opened PoolStore
  import opened ExamplePools

  const LIMIT := 9_999_999

  function Letters(n: int): (s: string)
    requires n >= 0
    ensures |s| == n && forall i :: 0 <= i < n ==> s[i] == 'a'
  {
    if n == 0 then "" else Letters(n - 1) + "a"
  }

  /** 24 letters. */
  const BASE := Letters(24)

  /** The names compared are the same only if they are equal: there is neither space nor case to ignore. */
  ghost predicate TellsApart(t: Text) {
    forall a, b :: Plain(a) && Plain(b) && Same(t, a, b) ==> a == b
  }

  predicate Same(t: Text, a: string, b: string) {
    t.sameName(a, b)
  }

  /** The names differ behind their first 24 letters. */
  function NameOf(i: int): string
    requires i >= 1
  {
    BASE + Dec(i)
  }

  function PoolOf(i: int): Pool
    requires i >= 1
  {
    Example(Numbered(BASE, i), NameOf(i), "BTC", false, false)
  }

  ghost function Pools(n: int): seq<Pool>
    requires n >= 0
  {
    seq(n, i requires 0 <= i => PoolOf(i + 1))
  }

  /** The file with n pools, of which the first became active. */
  ghost function FileOf(n: int): File
    requires n >= 0
  {
    File(if n == 0 then "" else BASE, [], Pools(n))
  }

  function Request(i: int): Input
    requires i >= 1
  {
    Input("", Some(NameOf(i)), Some("BTC"), Some([Address("host", 3333)]), None, None, None, None, Some("farm"), None, None, None, None)
  }

  // ---- the base of the names ----

  lemma {:induction false} DecPlain(n: nat)
    ensures Plain(Dec(n)) && |Dec(n)| >= 1
  {
    if n >= 10 {
      DecPlain(n / 10);
    }
  }

  lemma NameIs(i: int)
    requires i >= 1
    ensures Plain(NameOf(i)) && Base(NameOf(i)) == BASE
    ensures i <= LIMIT ==> |NameOf(i)| <= 64
  {
    hide Dec, Slug, Trim;
    DecPlain(i);
    PlainSlug(NameOf(i));
    PlainSlug(BASE);
    assert NameOf(i)[..24] == BASE;
    hide Power10;
    TenMillion(7);
    DecLength(i, 7);
  }

  lemma NamesDiffer(i: int, j: int)
    requires i >= 1 && j >= 1 && NameOf(i) == NameOf(j)
    ensures i == j
  {
    assert NameOf(i)[24..] == Dec(i) && NameOf(j)[24..] == Dec(j);
    DecInjective(i, j);
  }

  // ---- the crowd is a file the store accepts ----

  lemma PoolIsOk(t: Text, i: int)
    requires 1 <= i <= LIMIT
    ensures ValidId(PoolOf(i).id) && FieldsOk(t, PoolOf(i))
  {
    hide Numbered, Dec, FieldsOk, Power10;
    NameIs(i);
    ExampleOk(t, Numbered(BASE, i), NameOf(i), "BTC", false, false);
    TenMillion(7);
    NumberedValid(BASE, i);
  }

  lemma CrowdIsOk(t: Text, n: int)
    requires 0 <= n <= LIMIT
    ensures WellFormed(t, FileOf(n))
  {
    hide FieldsOk, ValidId, Numbered;
    var pools := Pools(n);
    forall i | 0 <= i < n ensures ValidId(pools[i].id) && FieldsOk(t, pools[i]) {
      PoolIsOk(t, i + 1);
    }
    forall i, j | 0 <= i < j < n ensures pools[i].id != pools[j].id {
      NumberedInjective(BASE, i + 1, j + 1);
    }
    First();
    assert n > 0 ==> pools[0].id == BASE;
    NoneIsEmpty(t, pools);
  }

  lemma First()
    ensures Numbered(BASE, 1) == BASE
  {
  }

  lemma NoneIsEmpty(t: Text, pools: seq<Pool>)
    requires forall i :: 0 <= i < |pools| ==> ValidId(pools[i].id)
    ensures !Has(pools, "")
  {
  }

  // ---- the store creates one after the other, and then no more ----

  lemma TakenUpTo(n: int)
    requires n >= 0
    ensures FirstFree(BASE, Pools(n), 1) == n + 1 && Taken(BASE, Pools(n), n + 1)
  {
    hide Numbered;
    var pools := Pools(n);
    forall m | 1 <= m < n + 1 ensures Has(pools, Numbered(BASE, m)) {
      assert pools[m - 1].id == Numbered(BASE, m);
    }
    if Has(pools, Numbered(BASE, n + 1)) {
      var k :| 0 <= k < n && pools[k].id == Numbered(BASE, n + 1);
      NumberedInjective(BASE, k + 1, n + 1);
    }
  }

  lemma NameIsNew(t: Text, n: int)
    requires n >= 0 && TellsApart(t)
    ensures !NameTaken(t, Pools(n), Example("", NameOf(n + 1), "BTC", false, false))
  {
    hide Numbered, Dec, Plain, NameOf, Base;
    NameIs(n + 1);
    forall i | 0 <= i < n ensures !t.sameName(Pools(n)[i].name, NameOf(n + 1)) {
      NameIs(i + 1);
      if Same(t, NameOf(i + 1), NameOf(n + 1)) {
        NamesDiffer(i + 1, n + 1);
      }
    }
  }

  /** A request for a pool without an id that nothing is wrong with. */
  lemma CreatedIs(t: Text, f: File, input: Input, p: Pool)
    requires input.id == "" && Applied(BLANK, input) == p && FieldsOk(t, p) && !NameTaken(t, f.pools, p) && !p.timedTarget
    ensures var q := p.(id := FreeId(p.name, f.pools));
            Created(t, f, input) == Ok(File(if f.active == "" then q.id else f.active, f.fallback, f.pools + [q]))
  {
    hide Applied, FieldsOk, NameTaken, FreeId;
  }

  lemma NextId(n: int)
    requires n >= 0
    ensures FreeId(NameOf(n + 1), Pools(n)) == Numbered(BASE, n + 1)
    ensures Pools(n) + [PoolOf(n + 1)] == Pools(n + 1)
  {
    hide Numbered, Dec, FirstFree, Base;
    NameIs(n + 1);
    TakenUpTo(n);
  }

  lemma NextCreated(t: Text, n: int)
    requires 0 <= n <= LIMIT && TellsApart(t)
    ensures Created(t, FileOf(n), Request(n + 1)) == Ok(FileOf(n + 1))
  {
    var p := Example("", NameOf(n + 1), "BTC", false, false);
    assert Request(n + 1).id == "" && p.(id := Numbered(BASE, n + 1)) == PoolOf(n + 1);
    hide Created, Numbered, FreeId, NameOf, Pools, Request, FieldsOk, NameTaken, Applied, PoolOf;
    RequestIs(n + 1);
    NextFields(t, n);
    NameIsNew(t, n);
    CreatedIs(t, FileOf(n), Request(n + 1), p);
    NextId(n);
    First();
  }

  lemma NextFields(t: Text, n: int)
    requires 0 <= n <= LIMIT
    ensures FieldsOk(t, Example("", NameOf(n + 1), "BTC", false, false))
  {
    hide FieldsOk, Dec, Power10;
    TenMillion(8);
    EightDigits(n + 1);
    ExampleOk(t, "", NameOf(n + 1), "BTC", false, false);
  }

  lemma EightDigits(i: int)
    requires 1 <= i <= LIMIT + 1
    ensures |Dec(i)| <= 8
  {
    assert Power10(8) == 10 * Power10(7);
    TenMillion(7);
    DecLength(i, 8);
  }

  lemma RequestIs(i: int)
    requires i >= 1
    ensures Applied(BLANK, Request(i)) == Example("", NameOf(i), "BTC", false, false)
  {
  }

  function Calls(n: int): seq<Call>
    requires n >= 0
  {
    if n == 0 then [] else Calls(n - 1) + [Call(Create(Request(n)), true)]
  }

  /** From an empty store, creating pools one by one gives the crowd. */
  lemma {:induction false} CrowdIsReached(t: Text, n: int)
    requires 0 <= n <= LIMIT && TellsApart(t)
    ensures Play(t, FileOf(0), Calls(n)) == FileOf(n)
    decreases n
  {
    PlayNone(t, FileOf(0));
    hide FileOf, Committed, ResultOf, Play, Request, TellsApart;
    if n > 0 {
      CrowdIsReached(t, n - 1);
      PlayMore(t, FileOf(0), Calls(n - 1), Call(Create(Request(n)), true));
      CreateIsCommitted(t, n - 1);
    }
  }

  lemma PlayNone(t: Text, f: File)
    ensures Play(t, f, []) == f
  {
  }

  lemma PlayMore(t: Text, f: File, calls: seq<Call>, c: Call)
    ensures var v := Play(t, f, calls);
            Play(t, f, calls + [c]) == Committed(t, v, ResultOf(t, v, c.op), c.writeOk).0
  {
    assert (calls + [c])[..|calls|] == calls;
  }

  lemma CreateIsCommitted(t: Text, n: int)
    requires 0 <= n < LIMIT && TellsApart(t)
    ensures Committed(t, FileOf(n), ResultOf(t, FileOf(n), Create(Request(n + 1))), true).0 == FileOf(n + 1)
  {
    hide Created, FileOf, CheckOk, TellsApart, Request;
    NextCreated(t, n);
    CrowdIsOk(t, n + 1);
  }

  /** With 9,999,999 pools of one base of 24 characters the store turns the next one of it down: its id would have 33
      characters. */
  lemma NextIsRejected(t: Text, writeOk: bool)
    requires TellsApart(t)
    ensures WellFormed(t, FileOf(LIMIT)) && Play(t, FileOf(0), Calls(LIMIT)) == FileOf(LIMIT)
    ensures Committed(t, FileOf(LIMIT), Created(t, FileOf(LIMIT), Request(LIMIT + 1)), writeOk) == (FileOf(LIMIT), Err(Rejected))
  {
    hide FileOf, Full, Created, Committed, WellFormed, TellsApart, Taken;
    CrowdIsOk(t, LIMIT);
    CrowdIsReached(t, LIMIT);
    NextCreated(t, LIMIT);
    NoneIsLeft();
    RejectedExactlyWhen(t, FileOf(LIMIT), Create(Request(LIMIT + 1)), writeOk);
    Unchanged(t, FileOf(LIMIT), Created(t, FileOf(LIMIT), Request(LIMIT + 1)), writeOk);
  }

  lemma NoneIsLeft()
    ensures NoIdLeft(FileOf(LIMIT), Create(Request(LIMIT + 1)))
  {
    hide Dec, Numbered, Power10;
    TakenUpTo(LIMIT);
    TenMillion(7);
    NameIs(LIMIT + 1);
    RequestIs(LIMIT + 1);
  }

  lemma Unchanged(t: Text, f: File, r: Result, writeOk: bool)
    ensures Committed(t, f, r, writeOk).1.Err? ==> Committed(t, f, r, writeOk).0 == f
  {
  }
}
