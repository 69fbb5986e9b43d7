/** The pools of state.json with the roles among them: the active pool and the fallback order. */
module PoolFile {

  datatype Option<T> = None | Some(value: T)

  datatype Address = Address(host: string, port: int)

  datatype Pool = Pool(id: string, name: string, coin: string, addresses: seq<Address>, tls: bool, tlsSkipVerify: bool,
                       username: string, password: string, profitSwitch: bool, timedTarget: bool, solo: bool,
                       profitHome: bool)

  /** active is "" without pools. */
  datatype File = File(active: string, fallback: seq<string>, pools: seq<Pool>)

  predicate Has(pools: seq<Pool>, id: string) {
    exists i :: 0 <= i < |pools| && pools[i].id == id
  }

  predicate Distinct(ids: seq<string>) {
    forall i, j :: 0 <= i < j < |ids| ==> ids[i] != ids[j]
  }

  // ---- orders of pool ids ----

  function Without(ids: seq<string>, id: string): seq<string> {
    if ids == [] then [] else
      Without(ids[..|ids| - 1], id) + if ids[|ids| - 1] == id then [] else [ids[|ids| - 1]]
  }

  /** The ids of existing pools other than skip, each once. */
  function ExistingOnce(pools: seq<Pool>, ids: seq<string>, skip: string): seq<string> {
    if ids == [] then [] else
      var out, last := ExistingOnce(pools, ids[..|ids| - 1], skip), ids[|ids| - 1];
      if Has(pools, last) && last != skip && last !in out then out + [last] else out
  }

  method RemoveId(ids: seq<string>, id: string) returns (out: seq<string>)
    ensures out == Without(ids, id)
  {
    out := [];
    for i := 0 to |ids|
      invariant out == Without(ids[..i], id)
    {
      assert ids[..i + 1][..i] == ids[..i];
      if ids[i] != id {
        out := out + [ids[i]];
      }
    }
    assert ids[..|ids|] == ids;
  }

  method KeepExisting(pools: seq<Pool>, ids: seq<string>, skip: string) returns (out: seq<string>)
    ensures out == ExistingOnce(pools, ids, skip)
  {
    out := [];
    for i := 0 to |ids|
      invariant out == ExistingOnce(pools, ids[..i], skip)
    {
      assert ids[..i + 1][..i] == ids[..i];
      if Has(pools, ids[i]) && ids[i] != skip && ids[i] !in out {
        out := out + [ids[i]];
      }
    }
    assert ids[..|ids|] == ids;
  }

  lemma {:induction false} WithoutMembers(ids: seq<string>, id: string)
    ensures forall x :: x in Without(ids, id) <==> x in ids && x != id
    ensures Distinct(ids) ==> Distinct(Without(ids, id))
  {
    if ids != [] {
      var init, last := ids[..|ids| - 1], ids[|ids| - 1];
      WithoutMembers(init, id);
      assert ids == init + [last];
      assert Distinct(ids) ==> last !in init;
    }
  }

  lemma {:induction false} WithoutAbsent(ids: seq<string>, id: string)
    requires id !in ids
    ensures Without(ids, id) == ids
  {
    if ids != [] {
      WithoutAbsent(ids[..|ids| - 1], id);
    }
  }

  /** existingOnce drops exactly the unknown ids, the skipped one and repeats. */
  lemma {:induction false} ExistingMembers(pools: seq<Pool>, ids: seq<string>, skip: string)
    ensures forall x :: x in ExistingOnce(pools, ids, skip) <==> x in ids && x != skip && Has(pools, x)
    ensures Distinct(ExistingOnce(pools, ids, skip))
  {
    if ids != [] {
      ExistingMembers(pools, ids[..|ids| - 1], skip);
      assert ids == ids[..|ids| - 1] + [ids[|ids| - 1]];
    }
  }

  /** A valid order loses nothing but the skipped pool. */
  lemma {:induction false} ExistingOfValid(pools: seq<Pool>, ids: seq<string>, skip: string)
    requires Distinct(ids) && forall x :: x in ids ==> Has(pools, x)
    ensures ExistingOnce(pools, ids, skip) == Without(ids, skip)
  {
    if ids != [] {
      var init := ids[..|ids| - 1];
      assert forall x :: x in init ==> x in ids;
      ExistingOfValid(pools, init, skip);
      WithoutMembers(init, skip);
    }
  }

  // ---- switching ----

  /** The file after a switch to id.  Without a given fallback order the pool switched from becomes the first
      fallback. */
  function Activated(f: File, id: string, fallback: Option<seq<string>>): File {
    f.(active := id,
    fallback := match fallback
    case Some(ids) => ExistingOnce(f.pools, ids, id)
    case None => if f.active != "" && f.active != id then [f.active] + Without(Without(f.fallback, id), f.active)
    else Without(f.fallback, id))
  }

  /** The references among the pools of a file are sound. */
  predicate RolesOk(f: File) {
    && (f.active == "" ==> f.pools == [])
    && !Has(f.pools, "")
    && (f.active != "" ==> Has(f.pools, f.active))
    && (forall x :: x in f.fallback ==> Has(f.pools, x))
    && f.active !in f.fallback
    && Distinct(f.fallback)
  }

  lemma ActivatedKeepsRoles(f: File, id: string, fallback: Option<seq<string>>)
    requires RolesOk(f) && Has(f.pools, id)
    ensures RolesOk(Activated(f, id, fallback))
  {
    match fallback
    case Some(ids) => ExistingMembers(f.pools, ids, id);
    case None =>
      WithoutMembers(f.fallback, id);
      WithoutMembers(Without(f.fallback, id), f.active);
  }

  /** There and back: after a switch to another pool the home pool and its order are restored, either from the
      order remembered before the switch, or, when that is gone, from the order after it without the other pool. */
  lemma ThereAndBack(f: File, id: string)
    requires RolesOk(f) && Has(f.pools, id) && id != f.active
    ensures var there := Activated(f, id, None);
            && Activated(there, f.active, Some(f.fallback)) == f
            && Activated(there, f.active, Some(there.fallback)) == f.(fallback := Without(f.fallback, id))
  {
    var there := Activated(f, id, None);
    ActivatedKeepsRoles(f, id, None);
    ExistingOfValid(f.pools, f.fallback, f.active);
    WithoutAbsent(f.fallback, f.active);
    ExistingOfValid(f.pools, there.fallback, f.active);
    WithoutMembers(f.fallback, id);
    WithoutAbsent(Without(f.fallback, id), f.active);
    WithoutFirst(f.active, Without(f.fallback, id));
  }

  lemma {:induction false} WithoutFirst(id: string, ids: seq<string>)
    requires id !in ids
    ensures Without([id] + ids, id) == ids
    decreases |ids|
  {
    var all := [id] + ids;
    if ids == [] {
      assert all[..0] == [];
    } else {
      assert all[..|all| - 1] == [id] + ids[..|ids| - 1];
      WithoutFirst(id, ids[..|ids| - 1]);
    }
  }
}
