/** The operations on state.json: each keeps the file valid, with at most one timed target and one main pool of
    profit switching, or changes nothing. */
module PoolManager {
  import opened PoolFile
  import opened PoolId
  import opened Basics

  const MAX_ADDRESSES := 8

  /** What the model does not look into: whether text is an IPv6 address, and whether two names are the same but for
      case and surrounding space. */
  datatype Text = Text(ip6: string -> bool, sameName: (string, string) -> bool)

  datatype Error = NotFound | Invalid | NameInUse | IdTaken | IsActive | Duplicate | NotTakingPart | Rejected | WriteFailed

  datatype Result = Ok(file: File) | Err(error: Error)

  /** A create or update request, trimmed and with the coin in upper case; None leaves a field unchanged. */
  datatype Input = Input(id: string, name: Option<string>, coin: Option<string>, addresses: Option<seq<Address>>,
                         host: Option<string>, port: Option<int>, tls: Option<bool>, tlsSkipVerify: Option<bool>,
                         username: Option<string>, password: Option<string>, profitSwitch: Option<bool>,
                         timedTarget: Option<bool>, solo: Option<bool>)

  // ---- the checks of state.File ----

  function Count(s: string, c: char): int {
    if s == "" then 0 else Count(s[1..], c) + if s[0] == c then 1 else 0
  }

  predicate HostOk(t: Text, h: string) {
    && h != "" && h[0] != '[' && h[|h| - 1] != ']' && ' ' !in h && '/' !in h
    && Count(h, ':') != 1 && (':' in h ==> t.ip6(h))
  }

  predicate AddressOk(t: Text, a: Address) {
    HostOk(t, a.host) && 1 <= a.port <= 65535
  }

  predicate SameAddress(a: Address, b: Address) {
    Lower(a.host) == Lower(b.host) && a.port == b.port
  }

  predicate AddressesOk(t: Text, addrs: seq<Address>) {
    && 1 <= |addrs| <= MAX_ADDRESSES
    && (forall i :: 0 <= i < |addrs| ==> AddressOk(t, addrs[i]))
    && forall i, j :: 0 <= i < j < |addrs| ==> !SameAddress(addrs[i], addrs[j])
  }

  predicate FieldsOk(t: Text, p: Pool) {
    && 1 <= |p.name| <= 64 && |p.coin| <= 16 && AddressesOk(t, p.addresses)
    && 1 <= |p.username| <= 256 && ' ' !in p.username && '\t' !in p.username && |p.password| <= 256
    && (p.tlsSkipVerify ==> p.tls) && !(p.solo && p.profitSwitch)
  }

  predicate DistinctIds(pools: seq<Pool>) {
    forall i, j :: 0 <= i < j < |pools| ==> pools[i].id != pools[j].id
  }

  predicate PoolsOk(t: Text, pools: seq<Pool>) {
    DistinctIds(pools) && forall i :: 0 <= i < |pools| ==> ValidId(pools[i].id) && FieldsOk(t, pools[i])
  }

  /** What check accepts. */
  predicate CheckOk(t: Text, f: File) {
    PoolsOk(t, f.pools) && RolesOk(f)
  }

  /** What check does not look at: the marks that are unique. */
  predicate MarksOk(pools: seq<Pool>) {
    && (forall i, j :: 0 <= i < j < |pools| ==> !(pools[i].timedTarget && pools[j].timedTarget))
    && (forall i, j :: 0 <= i < j < |pools| ==> !(pools[i].profitHome && pools[j].profitHome))
    && (forall i :: 0 <= i < |pools| && pools[i].profitHome ==> pools[i].profitSwitch && !pools[i].solo)
  }

  predicate WellFormed(t: Text, f: File) {
    CheckOk(t, f) && MarksOk(f.pools)
  }

  method CheckAddresses(t: Text, addrs: seq<Address>) returns (ok: bool)
    ensures ok == AddressesOk(t, addrs)
  {
    if |addrs| == 0 || |addrs| > MAX_ADDRESSES {
      return false;
    }
    var seen: map<(string, int), bool> := map[];
    for i := 0 to |addrs|
      invariant forall k :: k in seen <==> exists j :: 0 <= j < i && k == (Lower(addrs[j].host), addrs[j].port)
      invariant forall j :: 0 <= j < i ==> AddressOk(t, addrs[j])
      invariant forall j, k :: 0 <= j < k < i ==> !SameAddress(addrs[j], addrs[k])
    {
      var key := (Lower(addrs[i].host), addrs[i].port);
      if !AddressOk(t, addrs[i]) {
        return false;
      }
      if key in seen {
        return false;
      }
      seen := seen[key := true];
    }
    ok := true;
  }

  method CheckFields(t: Text, p: Pool) returns (ok: bool)
    ensures ok == FieldsOk(t, p)
  {
    var addresses := CheckAddresses(t, p.addresses);
    ok := 1 <= |p.name| <= 64 && |p.coin| <= 16 && addresses
      && 1 <= |p.username| <= 256 && ' ' !in p.username && '\t' !in p.username && |p.password| <= 256
      && (p.tlsSkipVerify ==> p.tls) && !(p.solo && p.profitSwitch);
  }

  method CheckPools(t: Text, pools: seq<Pool>) returns (ok: bool, ids: set<string>)
    ensures ok == PoolsOk(t, pools)
    ensures ok ==> forall id :: id in ids <==> Has(pools, id)
  {
    hide FieldsOk, ValidId;
    ids := {};
    for i := 0 to |pools|
      invariant forall id :: id in ids <==> exists j :: 0 <= j < i && pools[j].id == id
      invariant PoolsOk(t, pools[..i])
    {
      var fields := CheckFields(t, pools[i]);
      if !ValidId(pools[i].id) || pools[i].id in ids || !fields {
        return false, ids;
      }
      ids := ids + {pools[i].id};
    }
    assert pools[..|pools|] == pools;
    ok := true;
  }

  method Check(t: Text, f: File) returns (ok: bool)
    ensures ok == CheckOk(t, f)
  {
    hide FieldsOk, DistinctIds;
    var pools, ids := CheckPools(t, f.pools);
    if !pools {
      return false;
    }
    assert !Has(f.pools, "");
    if f.active != "" && f.active !in ids {
      return false;
    }
    if f.active == "" && |f.pools| > 0 {
      return false;
    }
    hide ValidId, Has;
    var seen: set<string> := {};
    for i := 0 to |f.fallback|
      invariant forall id :: id in seen <==> id in f.fallback[..i]
      invariant forall j :: 0 <= j < i ==> Has(f.pools, f.fallback[j]) && f.fallback[j] != f.active
      invariant Distinct(f.fallback[..i])
    {
      var id := f.fallback[i];
      if id !in ids || id == f.active || id in seen {
        return false;
      }
      seen := seen + {id};
    }
    assert f.fallback[..|f.fallback|] == f.fallback;
    ok := true;
  }

  // ---- the edits ----

  function Or<T>(x: Option<T>, was: T): T {
    match x
    case Some(v) => v
    case None => was
  }

  const BLANK := Pool("", "", "", [], false, false, "", "x", false, false, false, false)

  function AppliedAddresses(was: seq<Address>, input: Input): seq<Address> {
    if input.addresses.Some? then input.addresses.value
    else if input.host.Some? || input.port.Some? then
      var first := if was != [] then was[0] else Address("", 0);
      [Address(Or(input.host, first.host), Or(input.port, first.port))]
    else was
  }

  /** The pool after a request; skipping the TLS check makes sense only with TLS. */
  function Applied(p: Pool, input: Input): Pool {
    var tls, profit, solo := Or(input.tls, p.tls), Or(input.profitSwitch, p.profitSwitch), Or(input.solo, p.solo);
    Pool(p.id, Or(input.name, p.name), Or(input.coin, p.coin), AppliedAddresses(p.addresses, input), tls,
         Or(input.tlsSkipVerify, p.tlsSkipVerify) && tls, Or(input.username, p.username), Or(input.password, p.password),
         profit, Or(input.timedTarget, p.timedTarget), solo, p.profitHome && profit && !solo)
  }

  predicate NameTaken(t: Text, pools: seq<Pool>, p: Pool) {
    exists i :: 0 <= i < |pools| && pools[i].id != p.id && t.sameName(pools[i].name, p.name)
  }

  /** p is the only timed target, if it is one. */
  function OnlyTarget(pools: seq<Pool>, p: Pool): (r: seq<Pool>)
    ensures |r| == |pools|
  {
    if !p.timedTarget then pools
    else seq(|pools|, i requires 0 <= i < |pools| => pools[i].(timedTarget := pools[i].timedTarget && pools[i].id == p.id))
  }

  function OnlyHome(pools: seq<Pool>, id: string): (r: seq<Pool>)
    ensures |r| == |pools|
  {
    seq(|pools|, i requires 0 <= i < |pools| => pools[i].(profitHome := pools[i].id == id))
  }

  function Removed(pools: seq<Pool>, id: string): seq<Pool> {
    if pools == [] then [] else
      var p := pools[|pools| - 1];
      Removed(pools[..|pools| - 1], id) + if p.id != id then [p] else []
  }

  /** The place of the first pool with the id. */
  function Place(pools: seq<Pool>, id: string): (i: int)
    requires Has(pools, id)
    ensures 0 <= i < |pools| && pools[i].id == id
  {
    if pools[0].id == id then 0 else
      HasRest(pools, id); 1 + Place(pools[1..], id)
  }

  lemma HasRest(pools: seq<Pool>, id: string)
    requires Has(pools, id) && pools[0].id != id
    ensures Has(pools[1..], id)
  {
    var k :| 0 <= k < |pools| && pools[k].id == id;
    assert pools[1..][k - 1].id == id;
  }

  ghost function Created(t: Text, f: File, input: Input): Result {
    var p := Applied(BLANK, input);
    if !FieldsOk(t, p) then Err(Invalid)
    else if NameTaken(t, f.pools, p) then Err(NameInUse)
    else if input.id != "" && !ValidId(input.id) then Err(Invalid)
    else if input.id != "" && Has(f.pools, input.id) then Err(IdTaken)
    else
      var q := p.(id := if input.id != "" then input.id else FreeId(p.name, f.pools));
      Ok(File(if f.active == "" then q.id else f.active, f.fallback, OnlyTarget(f.pools, q) + [q]))
  }

  function Updated(t: Text, f: File, id: string, input: Input): Result {
    if !Has(f.pools, id) then Err(NotFound)
    else
      var i := Place(f.pools, id);
      var p := Applied(f.pools[i], input);
      if !FieldsOk(t, p) then Err(Invalid)
      else if NameTaken(t, f.pools, p) then Err(NameInUse)
      else Ok(f.(pools := OnlyTarget(f.pools[i := p], p)))
  }

  function Deleted(f: File, id: string): Result {
    if !Has(f.pools, id) then Err(NotFound)
    else if f.active == id then Err(IsActive)
    else Ok(f.(pools := Removed(f.pools, id), fallback := Without(f.fallback, id)))
  }

  /** What is wrong with the first id that is unknown, active or listed before. */
  function Fault(f: File, ids: seq<string>): Option<Error> {
    if ids == [] then None else
      var init, last := ids[..|ids| - 1], ids[|ids| - 1];
      if Fault(f, init).Some? then Fault(f, init)
      else if !Has(f.pools, last) then Some(NotFound)
      else if last == f.active then Some(IsActive)
      else if last in init then Some(Duplicate)
      else None
  }

  function FallbackSet(f: File, ids: seq<string>): Result {
    match Fault(f, ids)
    case Some(e) => Err(e)
    case None => Ok(f.(fallback := ids))
  }

  function HomeSet(f: File, id: string): Result {
    if id == "" then Ok(f.(pools := OnlyHome(f.pools, id)))
    else if !Has(f.pools, id) then Err(NotFound)
    else
      var p := f.pools[Place(f.pools, id)];
      if !p.profitSwitch || p.solo then Err(NotTakingPart) else Ok(f.(pools := OnlyHome(f.pools, id)))
  }

  /** A switch by hand, by the proxy (with the pool check) or back (with a given fallback order). */
  function SwitchedTo(f: File, id: string, passed: bool, fallback: Option<seq<string>>): Result {
    if !Has(f.pools, id) then Err(NotFound)
    else if !passed then Err(Invalid)
    else Ok(Activated(f, id, fallback))
  }

  // ---- each edit keeps the file well formed ----

  lemma OnlyTargetKeeps(t: Text, pools: seq<Pool>, p: Pool)
    requires PoolsOk(t, pools)
    ensures PoolsOk(t, OnlyTarget(pools, p)) && forall id :: Has(OnlyTarget(pools, p), id) <==> Has(pools, id)
  {
    hide ValidId, AddressesOk;
    var r := OnlyTarget(pools, p);
    assert forall i :: 0 <= i < |pools| ==> r[i].id == pools[i].id;
    forall i | 0 <= i < |r| ensures ValidId(r[i].id) && FieldsOk(t, r[i]) {
      assert ValidId(pools[i].id) && FieldsOk(t, pools[i]);
    }
  }

  lemma AppliedHome(p: Pool, input: Input)
    ensures var q := Applied(p, input);
            && q.id == p.id && (q.profitHome ==> p.profitHome && q.profitSwitch && !q.solo)
  {
  }

  lemma CreatedKeeps(t: Text, f: File, input: Input)
    requires WellFormed(t, f) && Created(t, f, input).Ok?
    requires input.id != "" || !Full(Applied(BLANK, input).name, f.pools)
    ensures WellFormed(t, Created(t, f, input).file)
  {
    hide FieldsOk, FreeId, AddressesOk, ValidId, Applied, Full;
    var p := Applied(BLANK, input);
    AppliedHome(BLANK, input);
    FreeIdValid(p.name, f.pools);
    var q := p.(id := if input.id != "" then input.id else FreeId(p.name, f.pools));
    FreeIdIsFree(p.name, f.pools);
    assert ValidId(q.id) && !Has(f.pools, q.id);
    FieldsWithoutId(t, p, q.id);
    AddedKeeps(t, f, q);
  }

  lemma FieldsWithoutId(t: Text, p: Pool, id: string)
    requires FieldsOk(t, p)
    ensures FieldsOk(t, p.(id := id))
  {
  }

  lemma FreeIdIsFree(name: string, pools: seq<Pool>)
    ensures !Has(pools, FreeId(name, pools))
  {
  }

  lemma AddedMarks(pools: seq<Pool>, q: Pool)
    requires MarksOk(pools) && !Has(pools, q.id) && !q.profitHome
    ensures MarksOk(OnlyTarget(pools, q) + [q])
  {
    assert forall i :: 0 <= i < |pools| ==> pools[i].id != q.id;
  }

  lemma AddedPools(t: Text, pools: seq<Pool>, q: Pool)
    requires PoolsOk(t, pools) && ValidId(q.id) && !Has(pools, q.id) && FieldsOk(t, q)
    ensures PoolsOk(t, pools + [q])
  {
    hide FieldsOk, ValidId;
    assert forall i :: 0 <= i < |pools| ==> (pools + [q])[i] == pools[i] && pools[i].id != q.id;
  }

  /** A valid new pool is added at the end. */
  lemma AddedKeeps(t: Text, f: File, q: Pool)
    requires WellFormed(t, f) && ValidId(q.id) && !Has(f.pools, q.id) && FieldsOk(t, q) && !q.profitHome
    ensures WellFormed(t, File(if f.active == "" then q.id else f.active, f.fallback, OnlyTarget(f.pools, q) + [q]))
  {
    OnlyTargetKeeps(t, f.pools, q);
    AddedMarks(f.pools, q);
    AddedPools(t, OnlyTarget(f.pools, q), q);
    assert q.id != "";
    hide FieldsOk, ValidId, MarksOk, PoolsOk, OnlyTarget, Has;
    forall id ensures Has(OnlyTarget(f.pools, q) + [q], id) <==> Has(f.pools, id) || q.id == id {
      HasSnoc(OnlyTarget(f.pools, q), q, id);
    }
    EmptyHas(f);
  }

  lemma EmptyHas(f: File)
    ensures f.pools == [] ==> forall id :: !Has(f.pools, id)
  {
  }

  lemma UpdatedKeeps(t: Text, f: File, id: string, input: Input)
    requires WellFormed(t, f) && Updated(t, f, id, input).Ok?
    ensures WellFormed(t, Updated(t, f, id, input).file)
  {
    hide FieldsOk, AddressesOk, ValidId, Applied, Place;
    var i := Place(f.pools, id);
    var p := Applied(f.pools[i], input);
    AppliedHome(f.pools[i], input);
    ReplacedKeeps(t, f, i, p);
  }

  /** A valid pool takes the place of the one with its id. */
  lemma ReplacedKeeps(t: Text, f: File, i: int, p: Pool)
    requires WellFormed(t, f) && 0 <= i < |f.pools| && p.id == f.pools[i].id && FieldsOk(t, p)
    requires p.profitHome ==> f.pools[i].profitHome && p.profitSwitch && !p.solo
    ensures WellFormed(t, f.(pools := OnlyTarget(f.pools[i := p], p)))
  {
    var pools := f.pools[i := p];
    SameIds(f.pools, pools);
    ReplacedMarks(f.pools, i, p);
    ReplacedPools(t, f.pools, i, p);
    OnlyTargetKeeps(t, pools, p);
    hide FieldsOk, ValidId, MarksOk, PoolsOk, Has, OnlyTarget;
    EmptyPools(f.pools, i, p);
  }

  lemma EmptyPools(pools: seq<Pool>, i: int, p: Pool)
    requires 0 <= i < |pools|
    ensures OnlyTarget(pools[i := p], p) != []
  {
  }

  lemma ReplacedPools(t: Text, pools: seq<Pool>, i: int, p: Pool)
    requires PoolsOk(t, pools) && 0 <= i < |pools| && p.id == pools[i].id && FieldsOk(t, p)
    ensures PoolsOk(t, pools[i := p])
  {
    hide FieldsOk, ValidId;
    assert forall j :: 0 <= j < |pools| ==> pools[i := p][j].id == pools[j].id;
  }

  lemma ReplacedMarks(pools: seq<Pool>, i: int, p: Pool)
    requires DistinctIds(pools) && MarksOk(pools) && 0 <= i < |pools| && p.id == pools[i].id
    requires p.profitHome ==> pools[i].profitHome && p.profitSwitch && !p.solo
    ensures MarksOk(OnlyTarget(pools[i := p], p))
  {
    assert forall j :: 0 <= j < |pools| ==> pools[i := p][j].id == pools[j].id;
  }

  lemma SameIds(a: seq<Pool>, b: seq<Pool>)
    requires |a| == |b| && forall j :: 0 <= j < |a| ==> a[j].id == b[j].id
    ensures forall id :: Has(a, id) <==> Has(b, id)
  {
    forall id ensures Has(a, id) <==> Has(b, id) {
      if Has(a, id) {
        var k :| 0 <= k < |a| && a[k].id == id;
        assert b[k].id == id;
      }
      if Has(b, id) {
        var k :| 0 <= k < |b| && b[k].id == id;
        assert a[k].id == id;
      }
    }
  }

  /** The pools other than one, in order. */
  lemma {:induction false} RemovedMembers(pools: seq<Pool>, id: string)
    ensures forall p :: p in Removed(pools, id) <==> p in pools && p.id != id
  {
    if pools != [] {
      RemovedMembers(pools[..|pools| - 1], id);
      assert pools == pools[..|pools| - 1] + [pools[|pools| - 1]];
    }
  }

  lemma {:induction false} RemovedPools(t: Text, pools: seq<Pool>, id: string)
    requires PoolsOk(t, pools)
    ensures PoolsOk(t, Removed(pools, id))
  {
    hide FieldsOk, ValidId;
    if pools != [] {
      var init := pools[..|pools| - 1];
      RemovedPools(t, init, id);
      RemovedMembers(init, id);
      var r := Removed(init, id);
      forall i | 0 <= i < |r| ensures r[i] in init {
        assert r[i] in r;
      }
    }
  }

  /** No mark of a and b clashes. */
  predicate Apart(a: Pool, b: Pool) {
    !(a.timedTarget && b.timedTarget) && !(a.profitHome && b.profitHome)
  }

  lemma MarksMore(pools: seq<Pool>, p: Pool)
    ensures MarksOk(pools + [p]) <==>
            MarksOk(pools) && (forall q :: q in pools ==> Apart(q, p)) && (p.profitHome ==> p.profitSwitch && !p.solo)
  {
    var all := pools + [p];
    if MarksOk(all) {
      assert forall i :: 0 <= i < |pools| ==> all[i] == pools[i];
      assert all[|pools|] == p;
    }
    if forall q :: q in pools ==> Apart(q, p) {
      assert forall i :: 0 <= i < |pools| ==> pools[i] in pools;
    }
  }

  lemma {:induction false} RemovedMarks(pools: seq<Pool>, id: string)
    requires MarksOk(pools)
    ensures MarksOk(Removed(pools, id))
  {
    if pools != [] {
      var init, last := pools[..|pools| - 1], pools[|pools| - 1];
      assert pools == init + [last];
      hide MarksOk, Apart;
      MarksMore(init, last);
      RemovedMarks(init, id);
      RemovedMembers(init, id);
      MarksMore(Removed(init, id), last);
    }
  }

  lemma DeletedKeeps(t: Text, f: File, id: string)
    requires WellFormed(t, f) && Deleted(f, id).Ok?
    ensures WellFormed(t, Deleted(f, id).file)
  {
    hide PoolsOk, MarksOk;
    RemovedPools(t, f.pools, id);
    RemovedMarks(f.pools, id);
    RemovedHas(f.pools, id);
    WithoutMembers(f.fallback, id);
  }

  lemma {:induction false} RemovedHas(pools: seq<Pool>, id: string)
    ensures forall x :: Has(Removed(pools, id), x) <==> Has(pools, x) && x != id
  {
    if pools != [] {
      var init, last := pools[..|pools| - 1], pools[|pools| - 1];
      RemovedHas(init, id);
      forall x ensures Has(pools, x) <==> Has(init, x) || last.id == x {
        HasSnoc(init, last, x);
        assert pools == init + [last];
      }
      forall x ensures Has(Removed(init, id) + [last], x) <==> Has(Removed(init, id), x) || last.id == x {
        HasSnoc(Removed(init, id), last, x);
      }
      assert Removed(init, id) + [] == Removed(init, id);
    }
  }

  lemma HasSnoc(pools: seq<Pool>, p: Pool, id: string)
    ensures Has(pools + [p], id) <==> Has(pools, id) || p.id == id
  {
    if Has(pools, id) {
      var k :| 0 <= k < |pools| && pools[k].id == id;
      assert (pools + [p])[k].id == id;
    }
    assert (pools + [p])[|pools|] == p;
  }

  /** A fallback order is taken exactly when its pools exist, none is active, and none is listed twice. */
  lemma {:induction false} FaultIs(f: File, ids: seq<string>)
    ensures Fault(f, ids).None? <==> (forall x :: x in ids ==> Has(f.pools, x)) && f.active !in ids && Distinct(ids)
  {
    hide Has;
    if ids != [] {
      var init, last := ids[..|ids| - 1], ids[|ids| - 1];
      FaultIs(f, init);
      assert ids == init + [last];
      assert last in init ==> exists i :: 0 <= i < |init| && ids[i] == last;
    }
  }

  lemma FallbackKeeps(t: Text, f: File, ids: seq<string>)
    requires WellFormed(t, f) && FallbackSet(f, ids).Ok?
    ensures WellFormed(t, FallbackSet(f, ids).file)
  {
    hide PoolsOk, MarksOk;
    FaultIs(f, ids);
  }

  lemma OnlyHomeKeeps(t: Text, pools: seq<Pool>, id: string)
    requires PoolsOk(t, pools)
    ensures PoolsOk(t, OnlyHome(pools, id)) && forall x :: Has(OnlyHome(pools, id), x) <==> Has(pools, x)
  {
    hide AddressesOk, ValidId;
    SameIds(pools, OnlyHome(pools, id));
  }

  lemma OnlyHomeMarks(pools: seq<Pool>, id: string)
    requires DistinctIds(pools) && MarksOk(pools)
    requires !Has(pools, id) || (pools[Place(pools, id)].profitSwitch && !pools[Place(pools, id)].solo)
    ensures MarksOk(OnlyHome(pools, id))
  {
    if Has(pools, id) {
      var k := Place(pools, id);
      assert forall i :: 0 <= i < |pools| && pools[i].id == id ==> i == k;
    } else {
      assert forall i :: 0 <= i < |pools| ==> pools[i].id != id;
    }
  }

  lemma HomeKeeps(t: Text, f: File, id: string)
    requires WellFormed(t, f) && HomeSet(f, id).Ok?
    ensures WellFormed(t, HomeSet(f, id).file)
  {
    OnlyHomeKeeps(t, f.pools, id);
    OnlyHomeMarks(f.pools, id);
    hide PoolsOk, MarksOk;
  }

  lemma SwitchedKeeps(t: Text, f: File, id: string, passed: bool, fallback: Option<seq<string>>)
    requires WellFormed(t, f) && SwitchedTo(f, id, passed, fallback).Ok?
    ensures WellFormed(t, SwitchedTo(f, id, passed, fallback).file)
  {
    hide PoolsOk, MarksOk;
    ActivatedKeepsRoles(f, id, fallback);
  }
}
