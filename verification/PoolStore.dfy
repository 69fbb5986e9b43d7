/** The store of state.json and the manager's operations on it: all or nothing, and always a well formed file. */
module PoolStore {
  import opened PoolFile
  import opened PoolId
  import opened PoolManager

  datatype Op =
    | Create(input: Input)
    | Update(id: string, input: Input)
    | Delete(id: string)
    | SetFallback(ids: seq<string>)
    | SetProfitHome(id: string)
    | Activate(id: string, passed: bool)
    | Restore(id: string, fallback: seq<string>)

  ghost function ResultOf(t: Text, f: File, op: Op): Result {
    match op
    case Create(input) => Created(t, f, input)
    case Update(id, input) => Updated(t, f, id, input)
    case Delete(id) => Deleted(f, id)
    case SetFallback(ids) => FallbackSet(f, ids)
    case SetProfitHome(id) => HomeSet(f, id)
    case Activate(id, passed) => SwitchedTo(f, id, passed, None)
    case Restore(id, fallback) => SwitchedTo(f, id, true, Some(fallback))
  }

  /** What Mutate makes of an edit: the new file only when the edit, its check and the write succeed. */
  function Committed(t: Text, f: File, r: Result, writeOk: bool): (File, Result) {
    if r.Err? then (f, r)
    else if !CheckOk(t, r.file) then (f, Err(Rejected))
    else if !writeOk then (f, Err(WriteFailed))
    else (r.file, r)
  }

  // ---- the manager ----

  class Manager {
    const t: Text
    var cur: File

    constructor (t: Text, file: File)
      ensures this.t == t && cur == file
    {
      this.t, cur := t, file;
    }

    method Mutate(r: Result, writeOk: bool) returns (out: Result)
      modifies this`cur
      ensures (cur, out) == Committed(t, old(cur), r, writeOk)
    {
      if r.Err? {
        return r;
      }
      var ok := Check(t, r.file);
      if !ok {
        return Err(Rejected);
      }
      if !writeOk {
        return Err(WriteFailed);
      }
      cur := r.file;
      out := r;
    }

    method CheckName(p: Pool) returns (taken: bool)
      ensures taken == NameTaken(t, cur.pools, p)
    {
      for i := 0 to |cur.pools|
        invariant !NameTaken(t, cur.pools[..i], p)
      {
        if cur.pools[i].id != p.id && t.sameName(cur.pools[i].name, p.name) {
          return true;
        }
      }
      assert cur.pools[..|cur.pools|] == cur.pools;
      taken := false;
    }

    method Create(input: Input, writeOk: bool) returns (out: Result)
      modifies this`cur
      ensures (cur, out) == Committed(t, old(cur), Created(t, old(cur), input), writeOk)
    {
      hide Applied, FieldsOk, FreeId, CheckOk;
      var p := Apply(BLANK, input);
      var fields := CheckFields(t, p);
      if !fields {
        return Err(Invalid);
      }
      var taken := CheckName(p);
      if taken {
        return Err(NameInUse);
      }
      var id := input.id;
      if id != "" {
        if !ValidId(id) {
          return Err(Invalid);
        }
        if Has(cur.pools, id) {
          return Err(IdTaken);
        }
      } else {
        id := MakeId(p.name, cur.pools);
      }
      p := p.(id := id);
      var pools := OnlyTimedTarget(cur.pools, p);
      var active := cur.active;
      if active == "" {
        active := p.id;
      }
      out := Mutate(Ok(File(active, cur.fallback, pools + [p])), writeOk);
    }

    method Update(id: string, input: Input, writeOk: bool) returns (out: Result)
      modifies this`cur
      ensures (cur, out) == Committed(t, old(cur), Updated(t, old(cur), id, input), writeOk)
    {
      hide Applied, FieldsOk, CheckOk;
      if !Has(cur.pools, id) {
        return Err(NotFound);
      }
      var i := FindPool(cur.pools, id);
      var p := Apply(cur.pools[i], input);
      var fields := CheckFields(t, p);
      if !fields {
        return Err(Invalid);
      }
      var taken := CheckName(p);
      if taken {
        return Err(NameInUse);
      }
      var pools := OnlyTimedTarget(cur.pools[i := p], p);
      out := Mutate(Ok(cur.(pools := pools)), writeOk);
    }

    method Delete(id: string, writeOk: bool) returns (out: Result)
      modifies this`cur
      ensures (cur, out) == Committed(t, old(cur), Deleted(old(cur), id), writeOk)
    {
      if !Has(cur.pools, id) {
        return Err(NotFound);
      }
      if cur.active == id {
        return Err(IsActive);
      }
      var pools: seq<Pool> := [];
      for i := 0 to |cur.pools|
        invariant pools == Removed(cur.pools[..i], id)
      {
        assert cur.pools[..i + 1][..i] == cur.pools[..i];
        if cur.pools[i].id != id {
          pools := pools + [cur.pools[i]];
        }
      }
      assert cur.pools[..|cur.pools|] == cur.pools;
      var fallback := RemoveId(cur.fallback, id);
      out := Mutate(Ok(cur.(pools := pools, fallback := fallback)), writeOk);
    }

    method SetFallback(ids: seq<string>, writeOk: bool) returns (out: Result)
      modifies this`cur
      ensures (cur, out) == Committed(t, old(cur), FallbackSet(old(cur), ids), writeOk)
    {
      var fault := FindFault(cur, ids);
      match fault {
        case Some(e) => out := Err(e);
        case None => out := Mutate(Ok(cur.(fallback := ids)), writeOk);
      }
    }

    method SetProfitHome(id: string, writeOk: bool) returns (out: Result)
      modifies this`cur
      ensures (cur, out) == Committed(t, old(cur), HomeSet(old(cur), id), writeOk)
    {
      if id != "" {
        if !Has(cur.pools, id) {
          return Err(NotFound);
        }
        var i := FindPool(cur.pools, id);
        if !cur.pools[i].profitSwitch || cur.pools[i].solo {
          return Err(NotTakingPart);
        }
      }
      var pools := cur.pools;
      for i := 0 to |pools|
        invariant |pools| == |cur.pools| && pools[..i] == OnlyHome(cur.pools, id)[..i] && pools[i..] == cur.pools[i..]
      {
        pools := pools[i := pools[i].(profitHome := pools[i].id == id)];
      }
      assert pools == OnlyHome(cur.pools, id);
      out := Mutate(Ok(cur.(pools := pools)), writeOk);
    }

    /** A switch; without a given fallback order the previous active pool becomes the first fallback. */
    method SwitchPool(id: string, passed: bool, fallback: Option<seq<string>>, writeOk: bool) returns (out: Result)
      modifies this`cur
      ensures (cur, out) == Committed(t, old(cur), SwitchedTo(old(cur), id, passed, fallback), writeOk)
    {
      hide CheckOk;
      if !Has(cur.pools, id) {
        return Err(NotFound);
      }
      if !passed {
        return Err(Invalid);
      }
      var order;
      match fallback {
        case Some(ids) => order := KeepExisting(cur.pools, ids, id);
        case None =>
          order := RemoveId(cur.fallback, id);
          if cur.active != "" && cur.active != id {
            order := RemoveId(order, cur.active);
            order := [cur.active] + order;
          }
      }
      out := Mutate(Ok(cur.(active := id, fallback := order)), writeOk);
    }
  }

  method ApplyAddresses(was: seq<Address>, input: Input) returns (addrs: seq<Address>)
    ensures addrs == AppliedAddresses(was, input)
  {
    addrs := was;
    if input.addresses.Some? {
      addrs := input.addresses.value;
    } else if input.host.Some? || input.port.Some? {
      var a := Address("", 0);
      if |was| > 0 {
        a := was[0];
      }
      if input.host.Some? {
        a := a.(host := input.host.value);
      }
      if input.port.Some? {
        a := a.(port := input.port.value);
      }
      addrs := [a];
    }
  }

  method Set<T>(was: T, x: Option<T>) returns (now: T)
    ensures now == Or(x, was)
  {
    now := was;
    if x.Some? {
      now := x.value;
    }
  }

  /** Applies a request field by field, and validate's correction. */
  method Apply(was: Pool, input: Input) returns (p: Pool)
    ensures p == Applied(was, input)
  {
    hide Or, AppliedAddresses;
    var name := Set(was.name, input.name);
    var coin := Set(was.coin, input.coin);
    var username := Set(was.username, input.username);
    var addrs := ApplyAddresses(was.addresses, input);
    var password := Set(was.password, input.password);
    var tls := Set(was.tls, input.tls);
    var skip := Set(was.tlsSkipVerify, input.tlsSkipVerify);
    var profit := Set(was.profitSwitch, input.profitSwitch);
    var target := Set(was.timedTarget, input.timedTarget);
    var solo := Set(was.solo, input.solo);
    var home := was.profitHome;
    if !profit || solo {
      home := false;
    }
    if skip && !tls {
      skip := false;
    }
    p := Pool(was.id, name, coin, addrs, tls, skip, username, password, profit, target, solo, home);
  }

  method OnlyTimedTarget(was: seq<Pool>, p: Pool) returns (pools: seq<Pool>)
    ensures pools == OnlyTarget(was, p)
  {
    pools := was;
    if !p.timedTarget {
      return;
    }
    for i := 0 to |pools|
      invariant |pools| == |was| && pools[..i] == OnlyTarget(was, p)[..i] && pools[i..] == was[i..]
    {
      if pools[i].id != p.id {
        pools := pools[i := pools[i].(timedTarget := false)];
      }
    }
  }

  method FindPool(pools: seq<Pool>, id: string) returns (i: int)
    requires Has(pools, id)
    ensures i == Place(pools, id) && 0 <= i < |pools|
  {
    i := 0;
    while pools[i].id != id
      invariant 0 <= i < |pools| && Has(pools[i..], id) && i + Place(pools[i..], id) == Place(pools, id)
      decreases |pools| - i
    {
      HasRest(pools[i..], id);
      assert pools[i..][1..] == pools[i + 1..];
      i := i + 1;
    }
  }

  method FindFault(f: File, ids: seq<string>) returns (fault: Option<Error>)
    ensures fault == Fault(f, ids)
  {
    var seen: set<string> := {};
    for i := 0 to |ids|
      invariant Fault(f, ids[..i]).None? && forall x :: x in seen <==> x in ids[..i]
    {
      assert ids[..i + 1][..i] == ids[..i];
      if !Has(f.pools, ids[i]) {
        FaultStays(f, ids, i + 1);
        return Some(NotFound);
      }
      if ids[i] == f.active {
        FaultStays(f, ids, i + 1);
        return Some(IsActive);
      }
      if ids[i] in seen {
        FaultStays(f, ids, i + 1);
        return Some(Duplicate);
      }
      seen := seen + {ids[i]};
    }
    assert ids[..|ids|] == ids;
    fault := None;
  }

  lemma {:induction false} FaultStays(f: File, ids: seq<string>, n: nat)
    requires n <= |ids| && Fault(f, ids[..n]).Some?
    ensures Fault(f, ids) == Fault(f, ids[..n])
  {
    if n < |ids| {
      assert ids[..|ids| - 1][..n] == ids[..n];
      FaultStays(f, ids[..|ids| - 1], n);
    } else {
      assert ids[..n] == ids;
    }
  }

  // ---- every operation, and every run of them ----

  /** A pool is to get an id made from its name, but no valid one is left. */
  ghost predicate NoIdLeft(f: File, op: Op) {
    op.Create? && op.input.id == "" && Full(Applied(BLANK, op.input).name, f.pools)
  }

  lemma ResultKeeps(t: Text, f: File, op: Op)
    requires WellFormed(t, f) && ResultOf(t, f, op).Ok?
    requires !NoIdLeft(f, op)
    ensures WellFormed(t, ResultOf(t, f, op).file)
  {
    hide Full, WellFormed, Created, Updated, Deleted, FallbackSet, HomeSet, SwitchedTo;
    match op
    case Create(input) => CreatedKeeps(t, f, input);
    case Update(id, input) => UpdatedKeeps(t, f, id, input);
    case Delete(id) => DeletedKeeps(t, f, id);
    case SetFallback(ids) => FallbackKeeps(t, f, ids);
    case SetProfitHome(id) => HomeKeeps(t, f, id);
    case Activate(id, passed) => SwitchedKeeps(t, f, id, passed, None);
    case Restore(id, fallback) => SwitchedKeeps(t, f, id, true, Some(fallback));
  }

  /** The store turns an edit down by its own check exactly when a pool is created without an id and every number
      that fits behind the base of its name is taken, which needs 9,999,999 pools at least. */
  lemma RejectedExactlyWhen(t: Text, f: File, op: Op, writeOk: bool)
    requires WellFormed(t, f)
    ensures var (f', out) := Committed(t, f, ResultOf(t, f, op), writeOk);
            && (out == Err(Rejected) <==> ResultOf(t, f, op).Ok? && NoIdLeft(f, op))
            && (NoIdLeft(f, op) ==> |f.pools| >= 9_999_999)
  {
    hide PoolsOk, MarksOk, RolesOk, Full;
    var r := ResultOf(t, f, op);
    NoOther(t, f, op);
    if NoIdLeft(f, op) {
      FreeIdValid(Applied(BLANK, op.input).name, f.pools);
      if r.Ok? {
        LastIsInvalid(t, f, op.input);
      }
    } else if r.Ok? {
      ResultKeeps(t, f, op);
    }
  }

  lemma LastIsInvalid(t: Text, f: File, input: Input)
    requires Created(t, f, input).Ok? && input.id == "" && Full(Applied(BLANK, input).name, f.pools)
    ensures !CheckOk(t, Created(t, f, input).file)
  {
    hide FieldsOk, FreeId, ValidId, Applied, Full;
    FreeIdValid(Applied(BLANK, input).name, f.pools);
    var pools := Created(t, f, input).file.pools;
    assert pools[|pools| - 1].id == FreeId(Applied(BLANK, input).name, f.pools);
  }

  /** Well formed or unchanged, whatever the number of pools. */
  lemma OperationKeeps(t: Text, f: File, op: Op, writeOk: bool)
    requires WellFormed(t, f)
    ensures var (f', out) := Committed(t, f, ResultOf(t, f, op), writeOk);
            WellFormed(t, f') && (out.Err? ==> f' == f) && (out.Ok? ==> f' == out.file)
  {
    hide PoolsOk, MarksOk, RolesOk, Full;
    if !NoIdLeft(f, op) && ResultOf(t, f, op).Ok? {
      ResultKeeps(t, f, op);
    }
    RejectedExactlyWhen(t, f, op, writeOk);
  }

  /** No edit reports the store's errors. */
  lemma NoOther(t: Text, f: File, op: Op)
    ensures ResultOf(t, f, op) != Err(Rejected)
  {
    hide FieldsOk, ValidId, FreeId, Applied, Activated, OnlyTarget, Removed;
    match op
    case SetFallback(ids) => FaultKind(f, ids);
    case _ =>
  }

  lemma {:induction false} FaultKind(f: File, ids: seq<string>)
    ensures Fault(f, ids) != Some(Rejected)
  {
    if ids != [] {
      FaultKind(f, ids[..|ids| - 1]);
    }
  }

  datatype Call = Call(op: Op, writeOk: bool)

  ghost function Play(t: Text, f: File, calls: seq<Call>): File {
    if calls == [] then f else
      var v, c := Play(t, f, calls[..|calls| - 1]), calls[|calls| - 1];
      Committed(t, v, ResultOf(t, v, c.op), c.writeOk).0
  }

  /** Any run of operations, failing ones included, leaves a file that passes the check at the next start, with at
      most one timed target and one main pool, which takes part and is not solo. */
  lemma {:induction false} RunKeeps(t: Text, f: File, calls: seq<Call>)
    requires WellFormed(t, f)
    ensures WellFormed(t, Play(t, f, calls))
  {
    if calls != [] {
      hide WellFormed, Committed, ResultOf;
      RunKeeps(t, f, calls[..|calls| - 1]);
      OperationKeeps(t, Play(t, f, calls[..|calls| - 1]), calls[|calls| - 1].op, calls[|calls| - 1].writeOk);
    }
  }
}
