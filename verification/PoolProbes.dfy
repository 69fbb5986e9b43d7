/** The manager's side of checks and sessions: what it captures when a check begins, which results it records, and
    which sessions a failover closes. */
module PoolProbes {
  import opened AddressChoice
  import opened PoolHealth
  import opened HealthRuns

  /** The pause between two background checks of one address, in nanoseconds. */
  const RECHECK := 10_000_000_000

  function Target(c: Check): Key {
    KeyOf(c.p.id, c.a)
  }

  /** The world once every address of the pool has been asked for, all with one capture of worker and version. */
  function AskedAll(w: World, p: Conf, n: nat): World
    requires n <= |p.addrs|
  {
    if n == 0 then w else Next(AskedAll(w, p, n - 1), Ask(p, p.addrs[n - 1]))
  }

  lemma {:induction false} AskedCaptures(w: World, p: Conf, n: nat)
    requires n <= |p.addrs|
    ensures var v := AskedAll(w, p, n); v.h == w.h && v.worker == w.worker && v.tick == w.tick + n
  {
    if n > 0 {
      AskedCaptures(w, p, n - 1);
    }
  }

  class Prober {
    const book: HealthBook
    var confs: map<string, Conf>
    var active: string
    var worker: string
    var flights: map<int, Check>
    var tick: int
    var gates: map<Key, int>       // the check that holds the gate of an address; a free gate is not listed
    var lastStart: map<Key, int>
    var pending: set<Key>          // checks asked for

    /** A gate is held by one unanswered check of its address; other checks have not begun. */
    ghost predicate Valid()
      reads this
    {
      && (forall t :: t in flights ==> t < tick)
      && forall k :: k in gates ==> gates[k] in flights && Target(flights[gates[k]]) == k
    }

    /** Between two changes of the pools. */
    ghost function View(): World
      reads this, book
    {
      World(book.View(), confs, active, worker, Nothing, flights, tick)
    }

    constructor (confs: map<string, Conf>, active: string, worker: string)
      ensures Valid() && gates == map[] && lastStart == map[] && pending == {}
      ensures fresh(book) && View() == World(Health(map[], map[], map[], worker), confs, active, worker, Nothing, map[], 0)
    {
      var b := new HealthBook(worker);
      book := b;
      this.confs, this.active, this.worker, flights, tick := confs, active, worker, map[], 0;
      gates, lastStart, pending := map[], map[], {};
    }

    method CheckVersion(id: string) returns (version: int)
      ensures version == Version(book.View(), id)
    {
      version := if id in book.versions then book.versions[id] else 0;
    }

    method StillConfigured(p: Conf, a: string) returns (current: bool)
      ensures current == StillHas(View(), p, a)
    {
      if p.id !in confs {
        return false;
      }
      var cur := confs[p.id];
      current := cur.login == p.login && a in cur.addrs;
    }

    /** Asks for a background check. */
    method RequestProbe(id: string, a: string)
      modifies this`pending
      ensures pending == old(pending) + {KeyOf(id, a)}
    {
      pending := pending + {KeyOf(id, a)};
    }

    /** Begins a background check unless one of the address is under way or began less than ten seconds ago, the
        manager is stopping, or the address is no longer configured; one that does not begin stays asked for. */
    method StartProbe(p: Conf, a: string, live: bool, now: int) returns (started: bool)
      requires Valid()
      modifies this`flights, this`tick, this`gates, this`lastStart, this`pending
      ensures Valid()
      ensures var k := KeyOf(p.id, a);
              && started == (k !in old(gates) && live && (k in old(lastStart) ==> now - old(lastStart)[k] >= RECHECK)
                             && old(StillHas(View(), p, a)))
              && View() == (if started then Next(old(View()), Ask(p, a)) else old(View()))
              && gates == (if started then old(gates)[k := old(tick)] else old(gates))
              && lastStart == (if started then old(lastStart)[k := now] else old(lastStart))
              && pending == (if started then old(pending) - {k} else old(pending))
    {
      hide Version, KeyOf;
      var k := KeyOf(p.id, a);
      if k in gates {
        return false;
      }
      if !live || (k in lastStart && now - lastStart[k] < RECHECK) {
        return false;
      }
      var version := CheckVersion(p.id);
      started := StillConfigured(p, a);
      if !started {
        return;
      }
      lastStart := lastStart[k := now];
      pending := pending - {k};
      gates := gates[k := tick];
      flights := flights[tick := Check(p, a, worker, version)];
      tick := tick + 1;
    }

    /** Asks for a check of every address of a pool as the caller knows it, which may have changed since; each waits
        for the gate of its address. */
    method CheckSaved(p: Conf)
      requires Valid()
      modifies this`flights, this`tick
      ensures Valid() && View() == AskedAll(old(View()), p, |p.addrs|)
      ensures forall t :: t in old(flights) ==> t in flights && flights[t] == old(flights)[t]
    {
      hide Version, Target, StillHas;
      var version := CheckVersion(p.id);
      var captured := worker;
      ghost var was := View();
      for i := 0 to |p.addrs|
        invariant Valid() && View() == AskedAll(was, p, i)
        invariant version == Version(was.h, p.id) && captured == was.worker
        invariant old(tick) <= tick && forall t :: t in old(flights) ==> t in flights && flights[t] == old(flights)[t]
      {
        AskedCaptures(was, p, i);
        flights := flights[tick := Check(p, p.addrs[i], captured, version)];
        tick := tick + 1;
      }
    }

    /** A check of CheckSaved gets the gate of its address when that is free and the caller still waits. */
    method BeginSaved(ticket: int, live: bool, now: int) returns (begun: bool)
      requires Valid() && ticket in flights
      modifies this`gates, this`lastStart
      ensures Valid() && View() == old(View())
      ensures var k := Target(flights[ticket]);
              && begun == (k !in old(gates) && live)
              && gates == (if begun then old(gates)[k := ticket] else old(gates))
              && lastStart == (if begun then old(lastStart)[k := now] else old(lastStart))
    {
      var k := Target(flights[ticket]);
      begun := k !in gates && live;
      if begun {
        gates := gates[k := ticket];
        lastStart := lastStart[k := now];
      }
    }

    /** Records the result of a check unless the caller is gone, the address is no longer configured, or the worker
        or the pool's version changed since it was asked for; the gate is free again. */
    method RecordCheck(ticket: int, ok: bool, rtt: int, live: bool, now: int)
      requires Valid() && ticket in flights && Target(flights[ticket]) in gates && gates[Target(flights[ticket])] == ticket
      modifies this`flights, this`tick, this`gates, book
      ensures Valid() && View() == Next(old(View()), Answer(ticket, ok, rtt, live, now))
      ensures gates == old(gates) - {Target(old(flights)[ticket])}
    {
      hide Checked, Version, KeyOf;
      var c := flights[ticket];
      var current := StillConfigured(c.p, c.a);
      var version := CheckVersion(c.p.id);
      book.ProbeResultIf(c.p, c.a, ok, rtt, now, live && current && worker == c.worker && version == c.version);
      gates := gates - {Target(c)};
      flights := flights - {ticket};
      tick := tick + 1;
    }

    /** A session failed on an address: a configured one is checked again, and only one without jobs says something
        about it. */
    method SessionFailure(p: Conf, a: string, stalled: bool)
      requires Valid()
      modifies this`tick, this`pending, book
      ensures Valid() && View() == Next(old(View()), Session(p, a, stalled))
      ensures pending == if old(StillHas(View(), p, a)) then old(pending) + {KeyOf(p.id, a)} else old(pending)
    {
      hide Stalled, KeyOf;
      var current := StillConfigured(p, a);
      if current {
        if stalled {
          book.JobTimeout(p, a);
        }
        RequestProbe(p.id, a);
      }
      tick := tick + 1;
    }

    /** Which of the live sessions, given by the keys of their addresses, a failover drains. */
    method CheckFailover(sessions: seq<Key>, draining: bool) returns (drain: seq<bool>)
      ensures |drain| == |sessions|
      ensures forall i :: 0 <= i < |drain| ==>
        var k := sessions[i];
        drain[i] == (!draining && k.pool in confs && k in KeysOf(confs[k.pool]) && Entry(book.addrs, k).status == Down)
    {
      if draining {
        return seq(|sessions|, i => false);
      }
      drain := [];
      for i := 0 to |sessions|
        invariant |drain| == i && forall j :: 0 <= j < i ==>
                    var k := sessions[j];
                    drain[j] == (k.pool in confs && k in KeysOf(confs[k.pool]) && Entry(book.addrs, k).status == Down)
      {
        var failed := false;
        if sessions[i].pool in confs {
          var keys := KeysOf(confs[sessions[i].pool]);
          for j := 0 to |keys|
            invariant failed == (sessions[i] in keys[..j] && Entry(book.addrs, sessions[i]).status == Down)
          {
            if keys[j] == sessions[i] && Entry(book.addrs, keys[j]).status == Down {
              failed := true;
            }
          }
          assert keys[..|keys|] == keys;
        }
        drain := drain + [failed];
      }
    }
  }
}
