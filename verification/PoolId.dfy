/** The id of a new pool: made from its name, and numbered until it is free. */
module PoolId {
  import opened PoolFile
  import opened Basics

  const MAX_ID := 32
  const MAX_BASE := 24

  predicate IdChar(c: char) {
    'a' <= c <= 'z' || '0' <= c <= '9' || c == '_'
  }

  predicate ValidId(id: string) {
    1 <= |id| <= MAX_ID && forall i :: 0 <= i < |id| ==> IdChar(id[i])
  }

  predicate IdChars(s: string) {
    forall i :: 0 <= i < |s| ==> IdChar(s[i])
  }

  // ---- the base ----

  /** The lower-case letters and digits, with one underscore for anything else between them. */
  function Slug(name: string): string {
    if name == "" then "" else
      var b, c := Slug(name[..|name| - 1]), LowerChar(name[|name| - 1]);
      if 'a' <= c <= 'z' || '0' <= c <= '9' then b + [c]
      else if b != "" && b[|b| - 1] != '_' then b + "_" else b
  }

  function TrimRight(s: string): string {
    if s != "" && s[|s| - 1] == '_' then TrimRight(s[..|s| - 1]) else s
  }

  function TrimLeft(s: string): string {
    if s != "" && s[0] == '_' then TrimLeft(s[1..]) else s
  }

  function Trim(s: string): string {
    TrimLeft(TrimRight(s))
  }

  function Base(name: string): string {
    var b := Trim(Slug(name));
    var short := if |b| > MAX_BASE then Trim(b[..MAX_BASE]) else b;
    if short == "" then "pool" else short
  }

  lemma {:induction false} SlugChars(name: string)
    ensures IdChars(Slug(name))
  {
    if name != "" {
      SlugChars(name[..|name| - 1]);
    }
  }

  lemma {:induction false} TrimRightChars(s: string)
    requires IdChars(s)
    ensures IdChars(TrimRight(s)) && |TrimRight(s)| <= |s|
  {
    if s != "" && s[|s| - 1] == '_' {
      TrimRightChars(s[..|s| - 1]);
    }
  }

  lemma {:induction false} TrimLeftChars(s: string)
    requires IdChars(s)
    ensures IdChars(TrimLeft(s)) && |TrimLeft(s)| <= |s|
  {
    if s != "" && s[0] == '_' {
      TrimLeftChars(s[1..]);
    }
  }

  lemma TrimChars(s: string)
    requires IdChars(s)
    ensures IdChars(Trim(s)) && |Trim(s)| <= |s|
  {
    TrimRightChars(s);
    TrimLeftChars(TrimRight(s));
  }

  lemma BaseChars(name: string)
    ensures IdChars(Base(name)) && 1 <= |Base(name)| <= MAX_BASE
  {
    SlugChars(name);
    TrimChars(Slug(name));
    var b := Trim(Slug(name));
    if |b| > MAX_BASE {
      TrimChars(b[..MAX_BASE]);
    }
  }

  /** Small letters and digits. */
  predicate Plain(s: string) {
    forall i :: 0 <= i < |s| ==> 'a' <= s[i] <= 'z' || '0' <= s[i] <= '9'
  }

  lemma {:induction false} PlainSlug(s: string)
    requires Plain(s)
    ensures Slug(s) == s && Trim(s) == s
  {
    if s != "" {
      PlainSlug(s[..|s| - 1]);
    }
  }

  // ---- the number ----

  function Digit(n: int): char
    requires 0 <= n < 10
  {
    ('0' as int + n) as char
  }

  function Dec(n: nat): string {
    if n < 10 then [Digit(n)] else Dec(n / 10) + [Digit(n % 10)]
  }

  function Numbered(base: string, n: int): string
    requires n >= 1
  {
    if n == 1 then base else base + "_" + Dec(n)
  }

  function Power10(k: nat): nat {
    if k == 0 then 1 else 10 * Power10(k - 1)
  }

  /** A number has at most k digits exactly when it is below the k-th power of ten. */
  lemma {:induction false} DecLength(n: nat, k: nat)
    requires k >= 1
    ensures |Dec(n)| <= k <==> n < Power10(k)
    ensures IdChars(Dec(n)) && |Dec(n)| >= 1
  {
    if n >= 10 {
      if k > 1 {
        DecLength(n / 10, k - 1);
      } else {
        DecLength(n / 10, 1);
      }
    } else {
      PowerGrows(k);
    }
  }

  lemma {:induction false} PowerGrows(k: nat)
    requires k >= 1
    ensures Power10(k) >= 10
  {
    if k > 1 {
      PowerGrows(k - 1);
    }
  }

  lemma {:induction false} DecInjective(m: nat, n: nat)
    requires Dec(m) == Dec(n)
    ensures m == n
  {
    var s, t := Dec(m), Dec(n);
    assert s[|s| - 1] == t[|t| - 1];
    DecLength(m / 10, 1);
    DecLength(n / 10, 1);
    if m >= 10 && n >= 10 {
      assert s[..|s| - 1] == Dec(m / 10) && t[..|t| - 1] == Dec(n / 10);
      DecInjective(m / 10, n / 10);
    }
  }

  lemma NumberedInjective(base: string, m: int, n: int)
    requires 1 <= m < n
    ensures Numbered(base, m) != Numbered(base, n)
  {
    if m > 1 && Numbered(base, m) == Numbered(base, n) {
      assert (base + "_" + Dec(m))[|base| + 1..] == Dec(m);
      assert (base + "_" + Dec(n))[|base| + 1..] == Dec(n);
      DecInjective(m, n);
    }
  }

  // ---- the first free one ----

  ghost predicate Taken(base: string, pools: seq<Pool>, n: int) {
    forall m :: 1 <= m < n ==> Has(pools, Numbered(base, m))
  }

  ghost function Ids(pools: seq<Pool>): set<string> {
    set i | 0 <= i < |pools| :: pools[i].id
  }

  lemma {:induction false} FewIds(pools: seq<Pool>)
    ensures |Ids(pools)| <= |pools|
  {
    if pools != [] {
      var init, last := pools[..|pools| - 1], pools[|pools| - 1];
      FewIds(init);
      assert forall i :: 0 <= i < |init| ==> init[i].id == pools[i].id;
      assert Ids(pools) == Ids(init) + {last.id};
    }
  }

  /** The first ids to try. */
  ghost function Candidates(base: string, n: int): set<string>
    requires n >= 1
  {
    if n == 1 then {} else Candidates(base, n - 1) + {Numbered(base, n - 1)}
  }

  ghost predicate NumberedBelow(base: string, n: int, id: string) {
    exists m :: 1 <= m < n && id == Numbered(base, m)
  }

  lemma {:induction false} ManyCandidates(base: string, n: int)
    requires n >= 1
    ensures |Candidates(base, n)| == n - 1
    ensures forall id :: id in Candidates(base, n) ==> NumberedBelow(base, n, id)
    decreases n
  {
    hide Numbered;
    if n > 1 {
      ManyCandidates(base, n - 1);
      assert NumberedBelow(base, n, Numbered(base, n - 1));
      if Numbered(base, n - 1) in Candidates(base, n - 1) {
        var m :| 1 <= m < n - 1 && Numbered(base, n - 1) == Numbered(base, m);
        NumberedInjective(base, m, n - 1);
      }
    }
  }

  /** Not more numbers are taken than there are pools. */
  lemma Pigeonhole(base: string, pools: seq<Pool>, n: int)
    requires n >= 1 && Taken(base, pools, n)
    ensures n - 1 <= |pools|
  {
    FewIds(pools);
    ManyCandidates(base, n);
    forall id | id in Candidates(base, n) ensures id in Ids(pools) {
      assert NumberedBelow(base, n, id);
      var m :| 1 <= m < n && id == Numbered(base, m);
      assert Has(pools, Numbered(base, m));
    }
    SubsetSize(Candidates(base, n), Ids(pools));
  }

  ghost function FirstFree(base: string, pools: seq<Pool>, n: int): (r: int)
    requires n >= 1 && Taken(base, pools, n)
    ensures n <= r <= |pools| + 1 && Taken(base, pools, r) && !Has(pools, Numbered(base, r))
    decreases |pools| + 2 - n
  {
    Pigeonhole(base, pools, n);
    if Has(pools, Numbered(base, n)) then FirstFree(base, pools, n + 1) else n
  }

  ghost function FreeId(name: string, pools: seq<Pool>): string {
    Numbered(Base(name), FirstFree(Base(name), pools, 1))
  }

  method MakeSlug(name: string) returns (b: string)
    ensures b == Slug(name)
  {
    b := "";
    for i := 0 to |name|
      invariant b == Slug(name[..i])
    {
      assert name[..i + 1][..i] == name[..i];
      var c := LowerChar(name[i]);
      if 'a' <= c <= 'z' || '0' <= c <= '9' {
        b := b + [c];
      } else if b != "" && b[|b| - 1] != '_' {
        b := b + "_";
      }
    }
    assert name[..|name|] == name;
  }

  /** Ends with an id that no pool has: the base, or the base with the first number that is free. */
  method MakeId(name: string, pools: seq<Pool>) returns (id: string)
    ensures id == FreeId(name, pools) && !Has(pools, id)
  {
    hide Dec, Trim, Slug;
    var b := MakeSlug(name);
    var base := Trim(b);
    if |base| > MAX_BASE {
      base := Trim(base[..MAX_BASE]);
    }
    if base == "" {
      base := "pool";
    }
    id := base;
    var i := 2;
    while Has(pools, id)
      invariant i >= 2 && id == Numbered(base, i - 1) && Taken(base, pools, i - 1)
      invariant FirstFree(base, pools, i - 1) == FirstFree(base, pools, 1)
      decreases |pools| + 2 - i
    {
      Pigeonhole(base, pools, i);
      id := base + "_" + Dec(i);
      i := i + 1;
    }
  }

  /** Every number that leaves room for the base is taken. */
  ghost predicate Full(name: string, pools: seq<Pool>) {
    |Base(name)| <= MAX_BASE && Taken(Base(name), pools, Power10(MAX_ID - 1 - |Base(name)|))
  }

  /** The id is valid exactly when one of the numbers that fit behind the base in 32 characters is free, and so always
      with fewer than 9,999,999 pools. */
  lemma FreeIdValid(name: string, pools: seq<Pool>)
    ensures |Base(name)| <= MAX_BASE && (ValidId(FreeId(name, pools)) <==> !Full(name, pools))
    ensures |pools| < 9_999_999 ==> !Full(name, pools)
  {
    hide Numbered, Power10;
    var base := Base(name);
    BaseChars(name);
    var k := MAX_ID - 1 - |base|;
    TenMillion(k);
    NumberedValid(base, FirstFree(base, pools, 1));
    if Full(name, pools) {
      Pigeonhole(base, pools, Power10(k));
    }
  }

  lemma NumberedValid(base: string, n: int)
    requires IdChars(base) && 1 <= |base| <= MAX_BASE && n >= 1
    ensures ValidId(Numbered(base, n)) <==> n < Power10(MAX_ID - 1 - |base|)
  {
    hide Power10, Dec, IdChar;
    TenMillion(MAX_ID - 1 - |base|);
    DecLength(n, MAX_ID - 1 - |base|);
    if n > 1 {
      Joined(base, Dec(n));
    }
  }

  lemma Joined(base: string, digits: string)
    requires IdChars(base) && IdChars(digits)
    ensures IdChars(base + "_" + digits) && |base + "_" + digits| == |base| + 1 + |digits|
  {
  }

  lemma {:induction false} TenMillion(k: nat)
    requires k >= 7
    ensures Power10(k) >= 10_000_000 && Power10(7) == 10_000_000
  {
    assert Power10(4) == 10_000;
    if k > 7 {
      TenMillion(k - 1);
    }
  }
}
