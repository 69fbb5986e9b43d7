/** The alerts of the Telegram bot: which ASIC changes go out and when.
    Times are nanoseconds since Go's zero time; 0 is the zero time. */
module AlertLimiter {
  import NameOrder

  const FLAP_CHANGES := 2
  const MINUTE := 60_000_000_000
  const FLAP_WINDOW := 60 * MINUTE
  const FLAP_HOLD := 15 * MINUTE

  datatype Change = Change(name: string, online: bool)

  /** What the chat was last told about one ASIC, and when within the window. */
  datatype Reported = Reported(online: bool, times: seq<int>)

  /** pending: the latest state of the ASICs that changed since. */
  datatype State = State(pending: map<string, bool>, reported: map<string, Reported>, firstDue: int, lastSent: int)

  const NEW := State(map[], map[], 0, 0)

  // ---- specification ----

  /** The latest of the changes of each ASIC. */
  function Latest(changes: seq<Change>): map<string, bool> {
    if changes == [] then map[] else
      var c := changes[|changes| - 1];
      Latest(changes[..|changes| - 1])[c.name := c.online]
  }

  /** The changes of the map, one for each name. */
  ghost predicate Lists(changes: seq<Change>, m: map<string, bool>) {
    && (forall i, j :: 0 <= i < j < |changes| ==> changes[i].name != changes[j].name)
    && (forall c: Change :: c in changes <==> c.name in m && m[c.name] == c.online)
  }

  /** Offline comes first, then the natural order of the names. */
  ghost predicate Before(a: Change, b: Change) {
    if a.online != b.online then !a.online else NameOrder.Less(a.name, b.name)
  }

  ghost predicate InOrder(changes: seq<Change>) {
    forall i, j :: 0 <= i < j < |changes| ==> !Before(changes[j], changes[i])
  }

  function Recent(times: seq<int>, now: int): seq<int> {
    if times != [] && now - times[0] >= FLAP_WINDOW then Recent(times[1..], now) else times
  }

  function Added(s: State, changes: map<string, bool>, now: int): State {
    s.(pending := s.pending + changes, firstDue := if s.firstDue == 0 then now else s.firstDue)
  }

  /** The pending change is not back to what the chat knows. */
  predicate News(s: State, name: string) {
    name in s.pending && !(name in s.reported && s.reported[name].online == s.pending[name])
  }

  function StillPending(s: State): map<string, bool> {
    map name | name in s.pending && News(s, name) :: s.pending[name]
  }

  predicate Flapping(r: Reported, now: int) {
    var times := Recent(r.times, now);
    |times| >= FLAP_CHANGES && now - times[|times| - 1] < FLAP_HOLD
  }

  predicate Due(s: State, name: string, now: int) {
    News(s, name) && !(name in s.reported && Flapping(s.reported[name], now))
  }

  function DueAt(s: State, now: int): map<string, bool> {
    map name | name in s.pending && Due(s, name, now) :: s.pending[name]
  }

  function Trim(r: Reported, now: int): Reported {
    r.(times := Recent(r.times, now))
  }

  /** What the chat was told, with the times of the pending ASICs within the window. */
  function Trimmed(s: State, now: int): map<string, Reported> {
    map name | name in s.reported :: if name in s.pending then Trim(s.reported[name], now) else s.reported[name]
  }

  predicate Forgettable(r: Reported, now: int) {
    r.online && Recent(r.times, now) == []
  }

  function Remembered(reported: map<string, Reported>, pending: map<string, bool>, now: int): map<string, Reported> {
    map name | name in reported && !(name !in pending && Forgettable(reported[name], now)) :: reported[name]
  }

  function Taken(s: State, now: int): State {
    State(StillPending(s), Remembered(Trimmed(s, now), StillPending(s), now),
          if DueAt(s, now) == map[] then 0 else if s.firstDue == 0 then now else s.firstDue, s.lastSent)
  }

  /** A message may go out. */
  predicate MayAttempt(s: State, now: int, batch: int, gap: int) {
    && DueAt(s, now) != map[]
    && now - (if s.firstDue == 0 then now else s.firstDue) >= batch && now - s.lastSent >= gap
  }

  function Told(reported: map<string, Reported>, name: string, online: bool, now: int): Reported {
    Reported(online, Recent(if name in reported then reported[name].times else [], now) + [now])
  }

  function TellAll(reported: map<string, Reported>, due: map<string, bool>, now: int): map<string, Reported> {
    map name | name in reported.Keys + due.Keys ::
      if name in due then Told(reported, name, due[name], now) else reported[name]
  }

  function Sent(s: State, due: map<string, bool>, now: int): State {
    State(s.pending - due.Keys, TellAll(s.reported, due, now), 0, now)
  }

  // ---- the notifier ----

  class Notifier {
    const batch: int
    const gap: int
    var pending: map<string, bool>
    var reported: map<string, Reported>
    var online: int   // totals of the latest alert
    var total: int
    var firstDue: int
    var lastSent: int

    constructor (batch: int, gap: int)
      ensures this.batch == batch && this.gap == gap && View() == NEW && online == 0 && total == 0
    {
      this.batch, this.gap := batch, gap;
      pending, reported, firstDue, lastSent := map[], map[], 0, 0;
      online, total := 0, 0;
    }

    ghost function View(): State
      reads this
    {
      State(pending, reported, firstDue, lastSent)
    }

    /** An alert: its changes wait, the latest of each ASIC, and its totals replace the ones before. */
    method Add(changes: seq<Change>, online: int, total: int, now: int)
      modifies this
      ensures View() == Added(old(View()), Latest(changes), now)
      ensures this.online == online && this.total == total
    {
      for i := 0 to |changes|
        invariant pending == old(pending) + Latest(changes[..i])
        invariant reported == old(reported) && firstDue == old(firstDue) && lastSent == old(lastSent)
      {
        pending := pending[changes[i].name := changes[i].online];
        assert changes[..i + 1][..i] == changes[..i];
      }
      assert changes[..|changes|] == changes;
      this.online, this.total := online, total;
      if firstDue == 0 {
        firstDue := now;
      }
    }

    /** The changes to send now, offline first; none when nothing is due yet. */
    method Take(now: int) returns (due: seq<Change>)
      modifies this`pending, this`reported, this`firstDue
      ensures View() == Taken(old(View()), now)
      ensures if MayAttempt(old(View()), now, batch, gap) then Lists(due, DueAt(old(View()), now)) && InOrder(due) else due == []
      ensures forall i, j :: 0 <= i < j < |due| ==>
        (due[i].online ==> due[j].online) && (due[i].online == due[j].online ==> !NameOrder.Less(due[j].name, due[i].name))
    {
      ghost var m := DueAt(View(), now);
      hide StillPending, DueAt, Trimmed, Remembered, InOrder;
      due := Sift(now);
      Forget(now);
      ListsNone(due, m);
      hide Lists;
      if |due| == 0 {
        firstDue := 0;
        return [];
      }
      if firstDue == 0 {
        firstDue := now;
      }
      if now - firstDue < batch || now - lastSent < gap {
        return [];
      }
      due := Arrange(due, m);
      OrderIs(due);
      hide Before;
    }

    /** One turn of the first loop of take: drops a change the chat knows, and holds back a flapping ASIC. */
    method Judge(name: string, now: int) returns (due: bool)
      requires name in pending
      modifies this`pending, this`reported
      ensures pending == if News(old(View()), name) then old(pending) else old(pending) - {name}
      ensures reported == if name in old(reported) then old(reported)[name := Trim(old(reported)[name], now)] else old(reported)
      ensures due == Due(old(View()), name, now)
    {
      hide Recent;
      if name in reported {
        var times := RecentTimes(reported[name].times, now);
        reported := reported[name := reported[name].(times := times)];
        if reported[name].online == pending[name] {
          pending := pending - {name};
          return false;
        }
        if |times| >= FLAP_CHANGES && now - times[|times| - 1] < FLAP_HOLD {
          return false;
        }
      }
      due := true;
    }

    method Sift(now: int) returns (due: seq<Change>)
      modifies this`pending, this`reported
      ensures pending == StillPending(old(View())) && reported == Trimmed(old(View()), now)
      ensures Lists(due, DueAt(old(View()), now))
    {
      ghost var was := View();
      DueIsPending(was);
      hide Recent, Flapping, News, Due, StillPending, Trimmed, DueAt;
      due := [];
      ghost var m: map<string, bool> := map[];
      assert Lists(due, m);
      hide Lists, Trim;
      var todo := pending.Keys;
      while todo != {}
        invariant todo <= was.pending.Keys
        invariant forall name :: name in pending <==> name in was.pending && (name in todo || News(was, name))
        invariant forall name :: name in pending ==> pending[name] == was.pending[name]
        invariant reported.Keys == was.reported.Keys
        invariant forall name :: name in reported ==>
          reported[name] == if name in was.pending && name !in todo then Trim(was.reported[name], now) else was.reported[name]
        invariant forall name :: name in m <==> name !in todo && Due(was, name, now)
        invariant forall name :: name in m ==> m[name] == was.pending[name]
        invariant Lists(due, m)
      {
        var name :| name in todo;
        todo := todo - {name};
        var online := pending[name];
        SameNews(View(), was, name, now);
        var isDue := Judge(name, now);
        if isDue {
          ListsMore(due, m, Change(name, online));
          due := due + [Change(name, online)];
          m := m[name := online];
        }
      }
      Sifted(was, now, pending, reported, m);
    }

    /** The second loop of take. */
    method Forget(now: int)
      modifies this`reported
      ensures reported == Remembered(old(reported), pending, now)
    {
      hide Recent;
      var todo := reported.Keys;
      while todo != {}
        invariant todo <= old(reported).Keys
        invariant forall name :: name in reported <==>
                    name in old(reported) && (name in todo || !(name !in pending && Forgettable(old(reported)[name], now)))
        invariant forall name :: name in reported ==> reported[name] == old(reported)[name]
      {
        var name :| name in todo;
        todo := todo - {name};
        var times := RecentTimes(reported[name].times, now);
        if name !in pending && |times| == 0 && reported[name].online {
          reported := reported - {name};
        }
      }
    }

    method Tell(name: string, online: bool, now: int)
      modifies this`reported
      ensures reported == old(reported)[name := Told(old(reported), name, online, now)]
    {
      var times := if name in reported then reported[name].times else [];
      times := RecentTimes(times, now);
      reported := reported[name := Reported(online, times + [now])];
    }

    /** Records that due went out. */
    method RecordSent(due: seq<Change>, ghost m: map<string, bool>, now: int)
      requires Lists(due, m)
      modifies this`pending, this`reported, this`firstDue, this`lastSent
      ensures View() == Sent(old(View()), m, now)
    {
      hide Recent, Told;
      ghost var was, done: set<string> := reported, {};
      for i := 0 to |due|
        invariant forall j :: 0 <= j < |due| ==> (due[j].name in done <==> j < i)
        invariant done <= m.Keys && pending == old(pending) - done
        invariant firstDue == old(firstDue) && lastSent == old(lastSent)
        invariant forall name :: name in reported <==> name in was || name in done
        invariant forall name :: name in reported && name in done ==> reported[name] == Told(was, name, m[name], now)
        invariant forall name :: name in reported && name !in done ==> name in was && reported[name] == was[name]
      {
        assert due[i] in due;
        SameTold(reported, was, due[i].name, due[i].online, now);
        Tell(due[i].name, due[i].online, now);
        pending := pending - {due[i].name};
        done := done + {due[i].name};
      }
      AllListed(due, m, done);
      assert reported == TellAll(was, m, now);
      lastSent, firstDue := now, 0;
    }

    /** A message that no chat got: it is tried again after the gap. */
    method RecordFailed(now: int)
      modifies this`lastSent
      ensures lastSent == now
    {
      lastSent := now;
    }
  }

  lemma SameNews(s: State, t: State, name: string, now: int)
    requires name in s.pending && name in t.pending && s.pending[name] == t.pending[name]
    requires (name in s.reported <==> name in t.reported) && (name in s.reported ==> s.reported[name] == t.reported[name])
    ensures News(s, name) == News(t, name) && Due(s, name, now) == Due(t, name, now)
  {
  }

  lemma DueIsPending(s: State)
    ensures forall name, now :: Due(s, name, now) ==> name in s.pending
    ensures forall name :: News(s, name) ==> name in s.pending
  {
  }

  lemma Sifted(s: State, now: int, pending: map<string, bool>, reported: map<string, Reported>, due: map<string, bool>)
    requires forall name :: name in pending <==> name in s.pending && News(s, name)
    requires forall name :: name in pending ==> pending[name] == s.pending[name]
    requires reported.Keys == s.reported.Keys
    requires forall name :: name in reported ==>
               reported[name] == if name in s.pending then Trim(s.reported[name], now) else s.reported[name]
    requires forall name :: name in due <==> Due(s, name, now)
    requires forall name :: name in due ==> name in s.pending && due[name] == s.pending[name]
    ensures pending == StillPending(s) && reported == Trimmed(s, now) && due == DueAt(s, now)
  {
    hide Flapping, Trim;
  }

  lemma SameTold(r: map<string, Reported>, q: map<string, Reported>, name: string, online: bool, now: int)
    requires (name in r <==> name in q) && (name in r ==> r[name] == q[name])
    ensures Told(r, name, online, now) == Told(q, name, online, now)
  {
  }

  lemma ListsNone(due: seq<Change>, m: map<string, bool>)
    requires Lists(due, m)
    ensures |due| == 0 <==> m == map[]
  {
    if |due| > 0 {
      assert due[0] in due;
    }
    if m != map[] {
      var name :| name in m;
      assert Change(name, m[name]) in due;
    }
  }

  lemma ListsMore(due: seq<Change>, m: map<string, bool>, c: Change)
    requires Lists(due, m) && c.name !in m
    ensures Lists(due + [c], m[c.name := c.online])
  {
    forall i | 0 <= i < |due| ensures due[i].name != c.name {
      assert due[i] in due;
    }
  }

  lemma AllListed(due: seq<Change>, m: map<string, bool>, done: set<string>)
    requires Lists(due, m) && done <= m.Keys && forall j :: 0 <= j < |due| ==> due[j].name in done
    ensures done == m.Keys
  {
    forall name | name in m ensures name in done {
      assert Change(name, m[name]) in due;
    }
  }

  /** What does not come before what does not come before: the order of the changes is a weak order. */
  lemma NotBefore(a: Change, b: Change, c: Change)
    ensures !Before(a, b) && !Before(b, c) ==> !Before(a, c)
    ensures Before(a, b) ==> !Before(b, a)
  {
    NameOrder.StrictWeakOrder(a.name, b.name, c.name);
    NameOrder.StrictWeakOrder(b.name, a.name, c.name);
    NameOrder.StrictWeakOrder(a.name, c.name, b.name);
    NameOrder.StrictWeakOrder(a.name, b.name, a.name);
    hide NameOrder.Less;
  }

  method IsBefore(a: Change, b: Change) returns (before: bool)
    ensures before == Before(a, b)
  {
    if a.online != b.online {
      return !a.online;
    }
    before := NameOrder.NameLess(a.name, b.name);
  }

  lemma OrderIs(changes: seq<Change>)
    requires InOrder(changes)
    ensures forall i, j :: 0 <= i < j < |changes| ==>
              (changes[i].online ==> changes[j].online)
              && (changes[i].online == changes[j].online ==> !NameOrder.Less(changes[j].name, changes[i].name))
  {
    hide NameOrder.Less;
  }

  lemma InsertKeeps(s: seq<Change>, m: map<string, bool>, c: Change, k: int)
    requires InOrder(s) && 0 <= k <= |s| && (k > 0 ==> !Before(c, s[k - 1]))
    requires forall j :: k <= j < |s| ==> Before(c, s[j])
    requires Lists(s, m) && c.name !in m
    ensures InOrder(s[..k] + [c] + s[k..]) && Lists(s[..k] + [c] + s[k..], m[c.name := c.online])
  {
    forall i | 0 <= i < k ensures !Before(c, s[i]) {
      if i < k - 1 {
        NotBefore(c, s[k - 1], s[i]);
      }
    }
    forall j | k <= j < |s| ensures !Before(s[j], c) {
      NotBefore(c, s[j], c);
    }
    hide Before;
    Moved(s, m, c, k);
  }

  lemma Moved(s: seq<Change>, m: map<string, bool>, c: Change, k: int)
    requires 0 <= k <= |s| && Lists(s, m) && c.name !in m
    ensures Lists(s[..k] + [c] + s[k..], m[c.name := c.online])
  {
    var t := s[..k] + [c] + s[k..];
    forall i | 0 <= i < |s| ensures s[i].name != c.name {
      assert s[i] in s;
    }
    forall d: Change ensures d in t <==> d in s || d == c {
      assert s == s[..k] + s[k..];
    }
  }

  /** Puts the changes in order. */
  method Arrange(due: seq<Change>, ghost m: map<string, bool>) returns (out: seq<Change>)
    requires Lists(due, m)
    ensures Lists(out, m) && InOrder(out)
  {
    out := [];
    ghost var part: map<string, bool> := map[];
    for n := 0 to |due|
      invariant InOrder(out) && Lists(out, part)
      invariant part.Keys <= m.Keys && (forall name :: name in part ==> part[name] == m[name])
      invariant forall j :: 0 <= j < |due| ==> (due[j].name in part <==> j < n)
    {
      var c, k := due[n], |out|;
      assert c in due;
      assert forall j :: 0 <= j < |due| && j != n ==> due[j].name != c.name;
      hide Before, Lists, InOrder;
      while k > 0
        invariant 0 <= k <= |out| && forall j :: k <= j < |out| ==> Before(c, out[j])
      {
        var before := IsBefore(c, out[k - 1]);
        if !before {
          break;
        }
        k := k - 1;
      }
      InsertKeeps(out, part, c, k);
      out := out[..k] + [c] + out[k..];
      part := part[c.name := c.online];
    }
    AllListed(due, m, part.Keys);
    assert part == m;
  }

  method RecentTimes(times: seq<int>, now: int) returns (out: seq<int>)
    ensures out == Recent(times, now)
  {
    var i := 0;
    while i < |times| && now - times[i] >= FLAP_WINDOW
      invariant 0 <= i <= |times| && Recent(times[i..], now) == Recent(times, now)
    {
      assert times[i..][1..] == times[i + 1..];
      i := i + 1;
    }
    out := times[i..];
  }
}
