/** What the operations on state.json do, said of the file before and after: a request takes effect, and nothing else
    changes. */
module PoolEffects {
  import opened PoolFile
  import opened PoolId
  import opened PoolManager

  // ---- a request ----

  predicate Takes<T(==)>(x: Option<T>, was: T, now: T) {
    (x.Some? ==> now == x.value) && (x.None? ==> now == was)
  }

  /** A request names the addresses, or host and port of the only one, or neither. */
  predicate AddressesTaken(input: Input, was: seq<Address>, now: seq<Address>) {
    && (input.addresses.Some? ==> now == input.addresses.value)
    && (input.addresses.None? && input.host.None? && input.port.None? ==> now == was)
    && (input.addresses.None? && (input.host.Some? || input.port.Some?) ==>
          && |now| == 1
          && Takes(input.host, if |was| > 0 then was[0].host else "", now[0].host)
          && Takes(input.port, if |was| > 0 then was[0].port else 0, now[0].port))
  }

  /** Every field is as requested, or as it was when the request leaves it out; skipping the TLS check needs TLS, and
      the main pool takes part in profit switching and is not solo. */
  predicate AsRequested(was: Pool, input: Input, now: Pool) {
    && Takes(input.name, was.name, now.name) && Takes(input.coin, was.coin, now.coin)
    && AddressesTaken(input, was.addresses, now.addresses)
    && Takes(input.tls, was.tls, now.tls)
    && (!now.tls ==> !now.tlsSkipVerify) && (now.tls ==> Takes(input.tlsSkipVerify, was.tlsSkipVerify, now.tlsSkipVerify))
    && Takes(input.username, was.username, now.username) && Takes(input.password, was.password, now.password)
    && Takes(input.profitSwitch, was.profitSwitch, now.profitSwitch)
    && Takes(input.timedTarget, was.timedTarget, now.timedTarget) && Takes(input.solo, was.solo, now.solo)
    && (now.profitHome <==> was.profitHome && now.profitSwitch && !now.solo)
  }

  lemma AppliedAsRequested(p: Pool, input: Input)
    ensures AsRequested(p, input, Applied(p, input)) && Applied(p, input).id == p.id
  {
  }

  /** The pool is as it was, but loses the mark of the timed target to p. */
  predicate Untouched(was: Pool, p: Pool, now: Pool) {
    now == was.(timedTarget := was.timedTarget && !p.timedTarget)
  }

  predicate NameFree(t: Text, pools: seq<Pool>, p: Pool) {
    forall i :: 0 <= i < |pools| && pools[i].id != p.id ==> !t.sameName(pools[i].name, p.name)
  }

  lemma PlaceIs(pools: seq<Pool>, i: int)
    requires DistinctIds(pools) && 0 <= i < |pools|
    ensures Has(pools, pools[i].id) && Place(pools, pools[i].id) == i
  {
    assert Has(pools, pools[i].id);
    var k := Place(pools, pools[i].id);
    assert !(k < i) && !(i < k);
  }

  // ---- update ----

  /** A successful update gives the pool with the id every field as requested, with a valid result and a name no other
      pool has, and changes nothing else but the mark of the timed target. */
  lemma UpdateTakesEffect(t: Text, f: File, id: string, input: Input)
    requires WellFormed(t, f) && Updated(t, f, id, input).Ok?
    ensures var g := Updated(t, f, id, input).file;
            && g.active == f.active && g.fallback == f.fallback && |g.pools| == |f.pools|
            && exists i :: 0 <= i < |f.pools| && f.pools[i].id == id == g.pools[i].id
                           && AsRequested(f.pools[i], input, g.pools[i])
                           && FieldsOk(t, g.pools[i]) && NameFree(t, f.pools, g.pools[i])
                           && forall j :: 0 <= j < |f.pools| && j != i ==> Untouched(f.pools[j], g.pools[i], g.pools[j])
  {
    hide FieldsOk, RolesOk, ValidId;
    var i := Place(f.pools, id);
    var p := Applied(f.pools[i], input);
    AppliedAsRequested(f.pools[i], input);
    hide AsRequested, Applied;
    var g := Updated(t, f, id, input).file;
    assert g.pools[i] == p;
    forall j | 0 <= j < |f.pools| && j != i ensures Untouched(f.pools[j], g.pools[i], g.pools[j]) {
      PlaceIs(f.pools, j);
    }
  }

  /** An update succeeds if and only if the pool exists, the pool it asks for is valid, and no other pool has the name. */
  lemma UpdateSucceedsExactlyWhen(t: Text, f: File, id: string, input: Input, was: Pool, asked: Pool)
    requires WellFormed(t, f) && was in f.pools && was.id == id && AsRequested(was, input, asked) && asked.id == id
    ensures Updated(t, f, id, input).Ok? <==> FieldsOk(t, asked) && NameFree(t, f.pools, asked)
    ensures Updated(t, f, id, input).Err? ==>
              Updated(t, f, id, input).error == if FieldsOk(t, asked) then NameInUse else Invalid
  {
    hide RolesOk, ValidId;
    var i :| 0 <= i < |f.pools| && f.pools[i] == was;
    PlaceIs(f.pools, i);
    OneRequested(was, input, asked);
    hide FieldsOk, AsRequested, Applied;
  }

  lemma OneRequested(was: Pool, input: Input, asked: Pool)
    requires AsRequested(was, input, asked) && asked.id == was.id
    ensures Applied(was, input) == asked
  {
  }

  // ---- create ----

  /** What a request may leave out when it creates a pool. */
  const DEFAULTS := Pool("", "", "", [], false, false, "", "x", false, false, false, false)

  /** A successful create adds one pool at the end with every field as requested or its default, a valid id no pool has,
      and a name no pool has; the first pool becomes active. */
  lemma CreateTakesEffect(t: Text, f: File, input: Input)
    requires WellFormed(t, f) && Created(t, f, input).Ok? && CheckOk(t, Created(t, f, input).file)
    ensures var g, n := Created(t, f, input).file, |f.pools|;
            && |g.pools| == n + 1 && g.fallback == f.fallback
            && var p := g.pools[n];
            && AsRequested(DEFAULTS, input, p) && FieldsOk(t, p) && ValidId(p.id) && !Has(f.pools, p.id)
            && (input.id != "" ==> p.id == input.id) && g.active == (if f.active == "" then p.id else f.active)
            && (forall j :: 0 <= j < n ==> !t.sameName(f.pools[j].name, p.name))
            && forall j :: 0 <= j < n ==> Untouched(f.pools[j], p, g.pools[j])
  {
    hide RolesOk, ValidId, FreeId, Full, FieldsOk;
    var p := Applied(BLANK, input);
    AppliedAsRequested(BLANK, input);
    FieldsKeepId(t, p, Created(t, f, input).file.pools[|f.pools|].id);
    forall j | 0 <= j < |f.pools| ensures f.pools[j].id != "" {
      NoEmptyId(t, f, j);
    }
    NotTaken(t, f.pools, p);
    FreeIdIsFree(p.name, f.pools);
  }

  lemma FieldsKeepId(t: Text, p: Pool, id: string)
    ensures FieldsOk(t, p.(id := id)) == FieldsOk(t, p)
  {
  }

  lemma NoEmptyId(t: Text, f: File, j: int)
    requires WellFormed(t, f) && 0 <= j < |f.pools|
    ensures f.pools[j].id != ""
  {
  }

  lemma NotTaken(t: Text, pools: seq<Pool>, p: Pool)
    requires !NameTaken(t, pools, p)
    ensures forall j :: 0 <= j < |pools| && pools[j].id != p.id ==> !t.sameName(pools[j].name, p.name)
  {
  }

  // ---- the other operations ----

  /** A deletion takes out exactly that pool, from the list and from the fallback order. */
  lemma DeleteTakesEffect(t: Text, f: File, id: string)
    requires WellFormed(t, f)
    ensures Deleted(f, id).Ok? <==> Has(f.pools, id) && f.active != id
    ensures Deleted(f, id).Err? ==> Deleted(f, id).error == if Has(f.pools, id) then IsActive else NotFound
    ensures Deleted(f, id).Ok? ==>
              var g := Deleted(f, id).file;
              && g.active == f.active
              && (exists i :: 0 <= i < |f.pools| && f.pools[i].id == id && g.pools == f.pools[..i] + f.pools[i + 1..])
              && TakenOut(f.fallback, id, g.fallback)
  {
    hide FieldsOk, ValidId;
    if Deleted(f, id).Ok? {
      var i := Place(f.pools, id);
      RemovedAt(f.pools, i);
      WithoutIs(f.fallback, id);
    }
  }

  /** `now` is the order without the id, which is in it at most once. */
  predicate TakenOut(was: seq<string>, id: string, now: seq<string>) {
    if id in was then exists k :: 0 <= k < |was| && was[k] == id && now == was[..k] + was[k + 1..] else now == was
  }

  lemma {:induction false} RemovedAt(pools: seq<Pool>, i: int)
    requires DistinctIds(pools) && 0 <= i < |pools|
    ensures Removed(pools, pools[i].id) == pools[..i] + pools[i + 1..]
  {
    var n := |pools| - 1;
    if i < n {
      RemovedAt(pools[..n], i);
      assert pools[..n][i + 1..] + [pools[n]] == pools[i + 1..];
      assert pools[i].id != pools[n].id;
    } else {
      RemovedNone(pools[..n], pools[n].id);
    }
  }

  lemma {:induction false} RemovedNone(pools: seq<Pool>, id: string)
    requires forall j :: 0 <= j < |pools| ==> pools[j].id != id
    ensures Removed(pools, id) == pools
  {
    if pools != [] {
      RemovedNone(pools[..|pools| - 1], id);
    }
  }

  lemma {:induction false} WithoutAt(ids: seq<string>, k: int)
    requires Distinct(ids) && 0 <= k < |ids|
    ensures Without(ids, ids[k]) == ids[..k] + ids[k + 1..]
  {
    var n := |ids| - 1;
    if k < n {
      WithoutAt(ids[..n], k);
      assert ids[..n][k + 1..] + [ids[n]] == ids[k + 1..];
      assert ids[k] != ids[n];
    } else {
      WithoutAbsent(ids[..n], ids[n]);
    }
  }

  lemma WithoutIs(ids: seq<string>, id: string)
    requires Distinct(ids)
    ensures TakenOut(ids, id, Without(ids, id))
  {
    if id in ids {
      var k :| 0 <= k < |ids| && ids[k] == id;
      WithoutAt(ids, k);
    } else {
      WithoutAbsent(ids, id);
    }
  }

  /** A new order replaces the old one, and nothing else changes; it is taken when all its pools exist, none is active
      and none is listed twice. */
  lemma FallbackTakesEffect(f: File, ids: seq<string>)
    ensures FallbackSet(f, ids).Ok? <==>
            (forall x :: x in ids ==> Has(f.pools, x) && x != f.active) && Distinct(ids)
    ensures FallbackSet(f, ids).Ok? ==> FallbackSet(f, ids).file == File(f.active, ids, f.pools)
  {
    FaultIs(f, ids);
  }

  /** The named pool becomes the only main pool, or none is with an empty name. */
  lemma HomeTakesEffect(t: Text, f: File, id: string)
    requires WellFormed(t, f)
    ensures HomeSet(f, id).Ok? <==>
            id == "" || exists i :: 0 <= i < |f.pools| && f.pools[i].id == id && f.pools[i].profitSwitch && !f.pools[i].solo
    ensures HomeSet(f, id).Err? ==> HomeSet(f, id).error == if Has(f.pools, id) then NotTakingPart else NotFound
    ensures HomeSet(f, id).Ok? ==>
              var g := HomeSet(f, id).file;
              && g.active == f.active && g.fallback == f.fallback && |g.pools| == |f.pools|
              && forall i :: 0 <= i < |f.pools| ==> g.pools[i] == f.pools[i].(profitHome := f.pools[i].id == id)
  {
    hide FieldsOk, ValidId, RolesOk;
    if exists i :: 0 <= i < |f.pools| && f.pools[i].id == id {
      var i :| 0 <= i < |f.pools| && f.pools[i].id == id;
      PlaceIs(f.pools, i);
    }
  }

  /** A switch by hand makes the pool active and the pool before it the first fallback; a switch back sets the given
      order, without unknown pools, the active one and repeats. */
  lemma SwitchTakesEffect(t: Text, f: File, id: string, passed: bool, fallback: Option<seq<string>>)
    requires WellFormed(t, f)
    ensures SwitchedTo(f, id, passed, fallback).Ok? <==> Has(f.pools, id) && passed
    ensures SwitchedTo(f, id, passed, fallback).Ok? ==>
              var g := SwitchedTo(f, id, passed, fallback).file;
              && g.active == id && g.pools == f.pools
              && (fallback.None? && f.active != "" && f.active != id ==>
                    |g.fallback| > 0 && g.fallback[0] == f.active && TakenOut(f.fallback, id, g.fallback[1..]))
              && (fallback.None? && f.active == id ==> g.fallback == f.fallback)
              && (fallback.Some? ==>
                    && (forall x :: x in g.fallback <==> x in fallback.value && x != id && Has(f.pools, x))
                    && Distinct(g.fallback)
                    && (Distinct(fallback.value) && (forall x :: x in fallback.value ==> Has(f.pools, x)) ==>
                          TakenOut(fallback.value, id, g.fallback)))
  {
    hide PoolsOk, MarksOk;
    if Has(f.pools, id) && passed {
      match fallback
      case None =>
        WithoutIs(f.fallback, id);
        WithoutMembers(f.fallback, id);
        WithoutAbsent(Without(f.fallback, id), f.active);
      case Some(ids) =>
        ExistingMembers(f.pools, ids, id);
        if Distinct(ids) && forall x :: x in ids ==> Has(f.pools, x) {
          ExistingOfValid(f.pools, ids, id);
          WithoutIs(ids, id);
        }
    }
  }

  // ---- a name ----

  predicate IsLetterOrDigit(c: char) {
    'a' <= c <= 'z' || 'A' <= c <= 'Z' || '0' <= c <= '9'
  }

  predicate NoLetterOrDigit(s: string) {
    forall i :: 0 <= i < |s| ==> !IsLetterOrDigit(s[i])
  }

  /** What is made of a name: its letters and digits, with one underscore for whatever lies between two of them. */
  lemma {:induction false} SlugIs(head: string, c: char, gap: string)
    requires IsLetterOrDigit(c) && NoLetterOrDigit(gap)
    ensures Slug(gap) == ""
    ensures Slug(head + [c] + gap) ==
            Slug(head) + [if 'A' <= c <= 'Z' then (c as int + 32) as char else c] + if gap == "" then "" else "_"
    decreases gap
  {
    var s := head + [c] + gap;
    if gap == "" {
      assert s[..|s| - 1] == head;
    } else {
      var n := |gap| - 1;
      assert !IsLetterOrDigit(gap[n]);
      assert s[..|s| - 1] == head + [c] + gap[..n];
      SlugIs(head, c, gap[..n]);
    }
  }

  /** No underscore begins it or follows another one, so cutting off those at the ends cuts off one at most. */
  lemma {:induction false} SlugShape(name: string)
    ensures var b := Slug(name);
            && (b != "" ==> b[0] != '_')
            && forall i :: 0 <= i < |b| - 1 && b[i] == '_' ==> b[i + 1] != '_'
  {
    if name != "" {
      SlugShape(name[..|name| - 1]);
    }
  }

  function WithoutLast(s: string): string {
    if s != "" && s[|s| - 1] == '_' then s[..|s| - 1] else s
  }

  lemma TrimIs(s: string)
    requires s != "" ==> s[0] != '_'
    requires forall i :: 0 <= i < |s| - 1 && s[i] == '_' ==> s[i + 1] != '_'
    ensures Trim(s) == WithoutLast(s)
  {
    if s != "" && s[|s| - 1] == '_' {
      assert |s| > 1 ==> s[|s| - 2] != '_';
      assert TrimRight(s[..|s| - 1]) == s[..|s| - 1];
    }
  }

  /** The id is what is made of the name without an underscore at its end; cut to 24 characters, and again without one;
      or "pool" when that is nothing. */
  lemma BaseIs(name: string)
    ensures var b := WithoutLast(Slug(name));
            Base(name) == if b == "" then "pool" else if |b| > 24 then WithoutLast(b[..24]) else b
  {
    SlugShape(name);
    TrimIs(Slug(name));
    var b := WithoutLast(Slug(name));
    if |b| > 24 {
      TrimIs(b[..24]);
    }
  }

  /** A short name of small letters and digits is the id, unless a pool has it. */
  lemma PlainNameIsId(name: string, pools: seq<Pool>)
    requires Plain(name) && 1 <= |name| <= 24 && !Has(pools, name)
    ensures FreeId(name, pools) == name
  {
    PlainSlug(name);
  }
}
