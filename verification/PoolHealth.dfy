/** The health of pool addresses: counters with hysteresis, fed by versioned checks, session dials and stalled
    sessions.  Times are nanoseconds since Go's zero time; 0 is the zero time. */
module PoolHealth {
  import opened AddressChoice

  const PROBE_FAILS_TO_DOWN := 2
  const DIAL_FAILS_TO_DOWN := 3
  const PROBE_OKS_TO_UP := 2

  /** The health of a pool, derived from its addresses. */
  datatype PoolState = PoolState(status: Status, upSince: int, preferred: Choice)

  datatype Health = Health(addrs: Addrs, pools: map<string, PoolState>, versions: map<string, int>, testWorker: string)

  /** A finished check of address a, with what it captured when it was asked for. */
  datatype Check = Check(p: Conf, a: string, worker: string, version: int)

  const NEW_POOL := PoolState(Unknown, 0, NoChoice)

  function Version(h: Health, id: string): int {
    if id in h.versions then h.versions[id] else 0
  }

  function Bumped(h: Health, id: string): Health {
    h.(versions := h.versions[id := Version(h, id) + 1])
  }

  // ---- the pool's health ----

  function AnyUp(addrs: Addrs, keys: seq<Key>): bool {
    if keys == [] then false else AnyUp(addrs, keys[..|keys| - 1]) || Entry(addrs, keys[|keys| - 1]).status == Up
  }

  function AllDown(addrs: Addrs, keys: seq<Key>): bool {
    if keys == [] then true else AllDown(addrs, keys[..|keys| - 1]) && Entry(addrs, keys[|keys| - 1]).status == Down
  }

  /** The earliest start of an unbroken healthy run among the UP addresses, 0 without one. */
  function EarliestUp(addrs: Addrs, keys: seq<Key>): int {
    if keys == [] then 0 else
      var before, h := EarliestUp(addrs, keys[..|keys| - 1]), Entry(addrs, keys[|keys| - 1]);
      if h.status == Up && h.upSince != 0 && (before == 0 || h.upSince < before) then h.upSince else before
  }

  function StatusOf(addrs: Addrs, keys: seq<Key>): Status {
    if AnyUp(addrs, keys) then Up else if keys != [] && AllDown(addrs, keys) then Down else Unknown
  }

  function PoolEntry(h: Health, id: string): PoolState {
    if id in h.pools then h.pools[id] else NEW_POOL
  }

  function Refreshed(h: Health, p: Conf): Health {
    var keys := KeysOf(p);
    var status := StatusOf(h.addrs, keys);
    h.(pools := h.pools[p.id := PoolState(status, if status == Up then EarliestUp(h.addrs, keys) else 0,
                                          Choose(h.addrs, keys, PoolEntry(h, p.id).preferred))])
  }

  // ---- what happens to one address ----

  function AfterCheck(h: AddrHealth, ok: bool, rtt: int, now: int): AddrHealth {
    var m := if rtt > 0 then AddSample(h, rtt) else h;
    if !ok then
      m.(probeOKs := 0, probeFails := m.probeFails + 1, upSince := 0,
      status := if m.status != Down && m.probeFails + 1 >= PROBE_FAILS_TO_DOWN then Down else m.status)
    else
      var up := m.probeOKs + 1 >= PROBE_OKS_TO_UP && (m.status != Up || m.upSince == 0);
      m.(probeFails := 0, dialFails := 0, probeOKs := m.probeOKs + 1,
      status := if up then Up else m.status, upSince := if up then now else m.upSince)
  }

  function AfterDial(h: AddrHealth, ok: bool): AddrHealth {
    if ok then h.(dialFails := 0)
    else if DialVerdict(h) then h.(dialFails := h.dialFails + 1, status := Down, probeOKs := 0, upSince := 0)
    else h.(dialFails := h.dialFails + 1)
  }

  /** One more failed dial marks the address DOWN. */
  predicate DialVerdict(h: AddrHealth) {
    h.status != Down && h.dialFails + 1 >= DIAL_FAILS_TO_DOWN
  }

  function AfterStall(h: AddrHealth): AddrHealth {
    h.(status := Down, probeOKs := 0, probeFails := 0, dialFails := 0, upSince := 0)
  }

  function WithAddr(h: Health, k: Key, a: AddrHealth): Health {
    h.(addrs := h.addrs[k := a])
  }

  function Checked(h: Health, p: Conf, a: string, ok: bool, rtt: int, now: int): Health {
    var k := KeyOf(p.id, a);
    Refreshed(WithAddr(h, k, AfterCheck(Entry(h.addrs, k), ok, rtt, now)), p)
  }

  function Dialed(h: Health, p: Conf, a: string, ok: bool): Health {
    var k := KeyOf(p.id, a);
    Refreshed(WithAddr(h, k, AfterDial(Entry(h.addrs, k), ok)), p)
  }

  function Stalled(h: Health, p: Conf, a: string): Health {
    var k := KeyOf(p.id, a);
    Refreshed(Bumped(WithAddr(h, k, AfterStall(Entry(h.addrs, k))), p.id), p)
  }

  /** Everything known about a pool is dropped. */
  function Forgotten(h: Health, id: string): Health {
    Bumped(h, id).(pools := h.pools - {id}, addrs := map k | k in h.addrs && k.pool != id :: h.addrs[k])
  }

  /** The pool has other addresses or another login. */
  function Edited(h: Health, was: Conf, next: Conf): Health {
    if was.login != next.login then Forgotten(h, next.id)
    else
      Refreshed(Bumped(h, next.id).(addrs := map k | k in h.addrs && !(k in KeysOf(was) && k !in KeysOf(next)) :: h.addrs[k]), next)
  }

  function AllBumped(versions: map<string, int>, ids: seq<string>): map<string, int> {
    if ids == [] then versions else
      var before, id := AllBumped(versions, ids[..|ids| - 1]), ids[|ids| - 1];
      before[id := (if id in before then before[id] else 0) + 1]
  }

  /** Another test worker: all health starts over. */
  function WorkerChanged(h: Health, worker: string, ids: seq<string>): Health {
    if worker == h.testWorker then h else Health(map[], map[], AllBumped(h.versions, ids), worker)
  }

  /** The active pool has been UP for the delay without interruption. */
  predicate HealthyFor(h: Health, active: string, now: int, delay: int) {
    && active != ""
    && var ph := PoolEntry(h, active);
       ph.status == Up && ph.upSince != 0 && now - ph.upSince >= delay
  }

  // ---- the manager's health part ----

  class HealthBook {
    var addrs: Addrs
    var pools: map<string, PoolState>
    var versions: map<string, int>
    var testWorker: string
    var lastFailback: int

    constructor (worker: string)
      ensures View() == Health(map[], map[], map[], worker) && lastFailback == 0
    {
      addrs, pools, versions, testWorker, lastFailback := map[], map[], map[], worker, 0;
    }

    ghost function View(): Health
      reads this
    {
      Health(addrs, pools, versions, testWorker)
    }

    method RefreshPool(p: Conf)
      modifies this`pools
      ensures View() == Refreshed(old(View()), p)
    {
      hide Choose;
      var keys := KeysOf(p);
      var anyUp, allDown, since := false, |keys| > 0, 0;
      for i := 0 to |keys|
        invariant pools == old(pools)
        invariant anyUp == AnyUp(addrs, keys[..i]) && allDown == (|keys| > 0 && AllDown(addrs, keys[..i]))
        invariant since == EarliestUp(addrs, keys[..i])
      {
        assert keys[..i + 1][..i] == keys[..i];
        var h := Entry(addrs, keys[i]);
        anyUp := anyUp || h.status == Up;
        allDown := allDown && h.status == Down;
        if h.status == Up && h.upSince != 0 && (since == 0 || h.upSince < since) {
          since := h.upSince;
        }
      }
      assert keys[..|keys|] == keys;
      var ph := if p.id in pools then pools[p.id] else NEW_POOL;
      var best := ChooseAddress(addrs, p, ph.preferred);
      var next := if anyUp then Up else if allDown then Down else Unknown;
      pools := pools[p.id := PoolState(next, if next == Up then since else 0, best)];
    }

    /** Records the result of a check, unless it is not to count. */
    method ProbeResultIf(p: Conf, a: string, ok: bool, rtt: int, now: int, accept: bool)
      modifies this
      ensures View() == if accept then Checked(old(View()), p, a, ok, rtt, now) else old(View())
    {
      hide AddSample, Refreshed;
      if !accept {
        return;
      }
      var k := KeyOf(p.id, a);
      var h := if k in addrs then addrs[k] else FRESH;
      if rtt > 0 {
        h := AddSample(h, rtt);
      }
      if !ok {
        h := h.(probeOKs := 0, probeFails := h.probeFails + 1, upSince := 0);
        if h.status != Down && h.probeFails >= PROBE_FAILS_TO_DOWN {
          h := h.(status := Down);
        }
      } else {
        h := h.(probeFails := 0, dialFails := 0, probeOKs := h.probeOKs + 1);
        if h.probeOKs >= PROBE_OKS_TO_UP && (h.status != Up || h.upSince == 0) {
          h := h.(status := Up, upSince := now);
        }
      }
      addrs := addrs[k := h];
      RefreshPool(p);
    }

    /** Records a session connecting to an address. */
    method DialResult(p: Conf, a: string, ok: bool)
      modifies this
      ensures View() == Dialed(old(View()), p, a, ok)
    {
      hide Choose;
      var k := KeyOf(p.id, a);
      var h := if k in addrs then addrs[k] else FRESH;
      if ok {
        h := h.(dialFails := 0);
      } else {
        h := h.(dialFails := h.dialFails + 1);
        if h.status != Down && h.dialFails >= DIAL_FAILS_TO_DOWN {
          h := h.(status := Down, probeOKs := 0, upSince := 0);
        }
      }
      addrs := addrs[k := h];
      RefreshPool(p);
    }

    /** A session got no job from an address that is still configured. */
    method JobTimeout(p: Conf, a: string)
      modifies this
      ensures View() == Stalled(old(View()), p, a)
    {
      hide Choose;
      var k := KeyOf(p.id, a);
      var h := if k in addrs then addrs[k] else FRESH;
      h := h.(status := Down, probeOKs := 0, probeFails := 0, dialFails := 0, upSince := 0);
      addrs := addrs[k := h];
      versions := versions[p.id := (if p.id in versions then versions[p.id] else 0) + 1];
      RefreshPool(p);
    }

    method ForgetHealth(id: string)
      modifies this
      ensures View() == Forgotten(old(View()), id)
    {
      pools := pools - {id};
      versions := versions[id := (if id in versions then versions[id] else 0) + 1];
      var todo := addrs.Keys;
      while todo != {}
        invariant todo <= old(addrs).Keys && pools == old(pools) - {id} && testWorker == old(testWorker)
        invariant versions == old(versions)[id := Version(old(View()), id) + 1]
        invariant forall k :: k in addrs <==> k in old(addrs) && (k in todo || k.pool != id)
        invariant forall k :: k in addrs ==> addrs[k] == old(addrs)[k]
      {
        var k :| k in todo;
        if k.pool == id {
          addrs := addrs - {k};
        }
        todo := todo - {k};
      }
    }

    method PoolEdited(was: Conf, next: Conf)
      requires was.id == next.id
      modifies this
      ensures View() == Edited(old(View()), was, next)
    {
      hide Choose;
      if was.login != next.login {
        ForgetHealth(next.id);
        return;
      }
      var keep, keys := KeysOf(next), KeysOf(was);
      versions := versions[next.id := (if next.id in versions then versions[next.id] else 0) + 1];
      for i := 0 to |keys|
        invariant pools == old(pools) && testWorker == old(testWorker)
        invariant versions == old(versions)[next.id := Version(old(View()), next.id) + 1]
        invariant forall k :: k in addrs <==> k in old(addrs) && !(k in keys[..i] && k !in keep)
        invariant forall k :: k in addrs ==> addrs[k] == old(addrs)[k]
      {
        if keys[i] !in keep {
          addrs := addrs - {keys[i]};
        }
      }
      assert keys[..|keys|] == keys;
      assert addrs == map k | k in old(addrs) && !(k in keys && k !in keep) :: old(addrs)[k];
      RefreshPool(next);
    }

    /** The listener of the settings; ids are the pools of the snapshot. */
    method SettingsChanged(worker: string, ids: seq<string>)
      modifies this
      ensures View() == WorkerChanged(old(View()), worker, ids)
    {
      if worker == testWorker {
        return;
      }
      testWorker := worker;
      addrs, pools := map[], map[];
      for i := 0 to |ids|
        invariant addrs == map[] && pools == map[] && testWorker == worker
        invariant versions == AllBumped(old(versions), ids[..i])
      {
        assert ids[..i + 1][..i] == ids[..i];
        versions := versions[ids[i] := (if ids[i] in versions then versions[ids[i]] else 0) + 1];
      }
      assert ids[..|ids|] == ids;
    }

    /** Whether sessions that are not on the active pool, `strays` of them, are to be drained now. */
    method CheckFailback(active: string, now: int, delay: int, draining: bool, strays: int) returns (drain: bool)
      modifies this`lastFailback
      ensures drain == (HealthyFor(View(), active, now, delay) && now - old(lastFailback) >= delay && !draining && strays != 0)
      ensures lastFailback == if drain then now else old(lastFailback)
    {
      if active == "" {
        return false;
      }
      var h := if active in pools then pools[active] else NEW_POOL;
      if h.status != Up || h.upSince == 0 || now - h.upSince < delay {
        return false;
      }
      if now - lastFailback < delay || draining {
        return false;
      }
      if strays == 0 {
        return false;
      }
      lastFailback := now;
      drain := true;
    }
  }
}
