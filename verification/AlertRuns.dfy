/** Whole runs of the alert limiter: how often the chat hears of one ASIC, and how often it hears at all. */
module AlertRuns {
  import opened AlertLimiter

  /** delivered: at least one chat got the message, if one went out. */
  datatype Event = Alert(changes: map<string, bool>, now: int) | Turn(now: int, delivered: bool)

  datatype Message = Message(at: int, online: bool)

  function Next(s: State, e: Event, batch: int, gap: int): State {
    match e
    case Alert(changes, now) => Added(s, changes, now)
    case Turn(now, delivered) =>
      if !MayAttempt(s, now, batch, gap) then Taken(s, now)
      else if delivered then Sent(Taken(s, now), DueAt(s, now), now)
      else Taken(s, now).(lastSent := now)
  }

  function Play(events: seq<Event>, batch: int, gap: int): State {
    if events == [] then NEW else Next(Play(events[..|events| - 1], batch, gap), events[|events| - 1], batch, gap)
  }

  function LastAt(events: seq<Event>): int {
    if events == [] then 0 else events[|events| - 1].now
  }

  /** The clock does not go back. */
  ghost predicate Clocked(events: seq<Event>) {
    forall n :: 0 <= n < |events| ==> LastAt(events[..n]) <= events[n].now
  }

  predicate Attempts(s: State, e: Event, batch: int, gap: int) {
    e.Turn? && MayAttempt(s, e.now, batch, gap)
  }

  predicate Tells(s: State, e: Event, batch: int, gap: int, name: string) {
    Attempts(s, e, batch, gap) && e.delivered && name in DueAt(s, e.now)
  }

  /** The recorded messages that mention an ASIC, with the state they give. */
  function Messages(events: seq<Event>, batch: int, gap: int, name: string): seq<Message> {
    if events == [] then [] else
      var init, e := events[..|events| - 1], events[|events| - 1];
      var s := Play(init, batch, gap);
      Messages(init, batch, gap, name) + if Tells(s, e, batch, gap, name) then [Message(e.now, DueAt(s, e.now)[name])] else []
  }

  /** When messages were tried to send, delivered or not. */
  function Tries(events: seq<Event>, batch: int, gap: int): seq<int> {
    if events == [] then [] else
      var init, e := events[..|events| - 1], events[|events| - 1];
      Tries(init, batch, gap) + if Attempts(Play(init, batch, gap), e, batch, gap) then [e.now] else []
  }

  // ---- recent times ----

  predicate Ascending(h: seq<Message>, until: int) {
    && (forall i, j :: 0 <= i < j < |h| ==> h[i].at <= h[j].at)
    && (forall i :: 0 <= i < |h| ==> h[i].at <= until)
  }

  /** times are the times of the last messages, and the others are out of the window. */
  predicate EndOf(h: seq<Message>, times: seq<int>, now: int) {
    && |times| <= |h|
    && (forall i :: 0 <= i < |times| ==> times[i] == h[|h| - |times| + i].at)
    && (forall i :: 0 <= i < |h| - |times| ==> now - h[i].at >= FLAP_WINDOW)
  }

  lemma {:induction false} RecentEnds(h: seq<Message>, times: seq<int>, now: int, later: int)
    requires EndOf(h, times, now) && now <= later
    ensures EndOf(h, Recent(times, later), later)
    ensures Recent(times, later) != [] ==> later - Recent(times, later)[0] < FLAP_WINDOW
  {
    if times != [] && later - times[0] >= FLAP_WINDOW {
      RecentEnds(h, times[1..], later, later);
    }
  }

  // ---- the invariant of one ASIC ----

  /** A third message within the window comes at least FLAP_HOLD after the one before. */
  predicate Holds(h: seq<Message>) {
    forall i :: 2 <= i < |h| ==> HeldAt(h, i)
  }

  predicate HeldAt(h: seq<Message>, i: int)
    requires 2 <= i < |h|
  {
    h[i].at - h[i - 2].at < FLAP_WINDOW ==> h[i].at - h[i - 1].at >= FLAP_HOLD
  }

  /** Two messages in a row give different states, unless the first says online and has been forgotten. */
  predicate Alternates(h: seq<Message>) {
    forall i :: 1 <= i < |h| ==> NewAt(h, i)
  }

  predicate NewAt(h: seq<Message>, i: int)
    requires 1 <= i < |h|
  {
    h[i].online != h[i - 1].online || (h[i - 1].online && h[i].at - h[i - 1].at >= FLAP_WINDOW)
  }

  predicate Inv(reported: map<string, Reported>, h: seq<Message>, now: int, name: string) {
    && Ascending(h, now) && Holds(h) && Alternates(h)
    && if name in reported then
         h != [] && reported[name].online == h[|h| - 1].online && EndOf(h, reported[name].times, now)
       else h != [] ==> h[|h| - 1].online && now - h[|h| - 1].at >= FLAP_WINDOW
  }

  lemma LaterKeeps(reported: map<string, Reported>, h: seq<Message>, now: int, later: int, name: string)
    requires Inv(reported, h, now, name) && now <= later
    ensures Inv(reported, h, later, name)
  {
  }

  /** take forgets nothing that still counts. */
  lemma TakenKeeps(s: State, h: seq<Message>, now: int, name: string)
    requires Inv(s.reported, h, now, name)
    ensures Inv(Taken(s, now).reported, h, now, name)
  {
    hide Recent, StillPending, DueAt, Holds, Alternates;
    if name in s.reported {
      RecentEnds(h, s.reported[name].times, now, now);
      RecentEnds(h, Recent(s.reported[name].times, now), now, now);
    }
  }

  lemma DueMeans(s: State, now: int, name: string)
    requires name in DueAt(s, now)
    ensures DueAt(s, now)[name] == s.pending[name]
    ensures name in s.reported ==> s.reported[name].online != s.pending[name] && !Flapping(s.reported[name], now)
  {
    hide Flapping;
  }

  /** With two messages in the window the last one is at least FLAP_HOLD old, or the ASIC is flapping. */
  lemma HoldFits(h: seq<Message>, r: Reported, before: int, now: int)
    requires EndOf(h, r.times, before) && before <= now && !Flapping(r, now) && |h| >= 2 && now - h[|h| - 2].at < FLAP_WINDOW
    requires Ascending(h, now)
    ensures now - h[|h| - 1].at >= FLAP_HOLD
  {
    RecentEnds(h, r.times, before, now);
    var times := Recent(r.times, now);
    assert |times| >= 2;
    assert times[|times| - 1] == h[|h| - 1].at;
  }

  lemma Snoc(h: seq<Message>, m: Message)
    requires Ascending(h, m.at) && Holds(h) && Alternates(h)
    requires |h| >= 2 && m.at - h[|h| - 2].at < FLAP_WINDOW ==> m.at - h[|h| - 1].at >= FLAP_HOLD
    requires h != [] ==> m.online != h[|h| - 1].online || (h[|h| - 1].online && m.at - h[|h| - 1].at >= FLAP_WINDOW)
    ensures Ascending(h + [m], m.at) && Holds(h + [m]) && Alternates(h + [m])
  {
    var h' := h + [m];
    assert Ascending(h', m.at);
    hide Ascending;
    forall i | 2 <= i < |h'| ensures HeldAt(h', i) {
      assert i < |h| ==> HeldAt(h, i);
    }
    forall i | 1 <= i < |h'| ensures NewAt(h', i) {
      assert i < |h| ==> NewAt(h, i);
    }
  }

  /** What goes out fits the messages before. */
  lemma TellingFits(s: State, h: seq<Message>, now: int, name: string)
    requires Inv(s.reported, h, now, name) && name in DueAt(s, now)
    ensures var h' := h + [Message(now, DueAt(s, now)[name])]; Ascending(h', now) && Holds(h') && Alternates(h')
  {
    hide Recent, DueAt, Flapping, Holds, Alternates, EndOf;
    DueMeans(s, now, name);
    if |h| >= 2 && now - h[|h| - 2].at < FLAP_WINDOW && name in s.reported {
      HoldFits(h, s.reported[name], now, now);
    }
    Snoc(h, Message(now, DueAt(s, now)[name]));
  }

  lemma SentKeeps(s: State, due: map<string, bool>, h: seq<Message>, now: int, name: string)
    requires Inv(s.reported, h, now, name)
    requires name in due ==> var h' := h + [Message(now, due[name])]; Ascending(h', now) && Holds(h') && Alternates(h')
    ensures Inv(Sent(s, due, now).reported, h + if name in due then [Message(now, due[name])] else [], now, name)
  {
    hide Recent, Holds, Alternates;
    if name in due {
      var times := if name in s.reported then s.reported[name].times else [];
      assert EndOf(h, times, now);
      RecentEnds(h, times, now, now);
      EndSnoc(h, Recent(times, now), now, Message(now, due[name]));
    } else {
      assert h + [] == h;
    }
  }

  lemma EndSnoc(h: seq<Message>, times: seq<int>, now: int, m: Message)
    requires EndOf(h, times, now)
    ensures EndOf(h + [m], times + [m.at], now)
  {
  }

  lemma EventKeeps(s: State, e: Event, h: seq<Message>, now: int, name: string, batch: int, gap: int)
    requires Inv(s.reported, h, now, name) && now <= e.now
    ensures Inv(Next(s, e, batch, gap).reported,
                h + if Tells(s, e, batch, gap, name) then [Message(e.now, DueAt(s, e.now)[name])] else [], e.now, name)
  {
    hide Inv, Taken, Sent, DueAt, Ascending, Holds, Alternates;
    LaterKeeps(s.reported, h, now, e.now, name);
    assert h + [] == h;
    if e.Turn? {
      TakenKeeps(s, h, e.now, name);
      if Attempts(s, e, batch, gap) && e.delivered {
        if name in DueAt(s, e.now) {
          TellingFits(s, h, e.now, name);
        }
        SentKeeps(Taken(s, e.now), DueAt(s, e.now), h, e.now, name);
      }
    }
  }

  lemma {:induction false} RunKeeps(events: seq<Event>, batch: int, gap: int, name: string)
    requires Clocked(events)
    ensures Inv(Play(events, batch, gap).reported, Messages(events, batch, gap, name), LastAt(events), name)
  {
    if events != [] {
      hide Inv, Next, Tells, DueAt;
      var n := |events| - 1;
      assert forall k :: 0 <= k < n ==> events[..n][..k] == events[..k];
      RunKeeps(events[..n], batch, gap, name);
      EventKeeps(Play(events[..n], batch, gap), events[n], Messages(events[..n], batch, gap, name), LastAt(events[..n]),
                 name, batch, gap);
    }
  }

  /** Any six messages about one ASIC span at least an hour: a half-open hour has at most five. */
  lemma FivePerHour(events: seq<Event>, batch: int, gap: int, name: string, i: nat)
    requires Clocked(events) && i + 5 < |Messages(events, batch, gap, name)|
    ensures var h := Messages(events, batch, gap, name); h[i + 5].at - h[i].at >= FLAP_WINDOW
  {
    RunKeeps(events, batch, gap, name);
    var h := Messages(events, batch, gap, name);
    SixSpan(h, LastAt(events), i);
  }

  lemma SixSpan(h: seq<Message>, now: int, i: nat)
    requires Ascending(h, now) && Holds(h) && i + 5 < |h|
    ensures h[i + 5].at - h[i].at >= FLAP_WINDOW
  {
    assert HeldAt(h, i + 2) && HeldAt(h, i + 3) && HeldAt(h, i + 4) && HeldAt(h, i + 5);
    assert h[i].at <= h[i + 1].at <= h[i + 2].at <= h[i + 3].at <= h[i + 4].at <= h[i + 5].at;
  }

  /** A message about an ASIC gives another state than the one before, unless that one said online and is at least
      an hour old. */
  lemma NewsOnly(events: seq<Event>, batch: int, gap: int, name: string, i: nat)
    requires Clocked(events) && 1 <= i < |Messages(events, batch, gap, name)|
    ensures var h := Messages(events, batch, gap, name);
            h[i].online != h[i - 1].online || (h[i - 1].online && h[i].at - h[i - 1].at >= FLAP_WINDOW)
  {
    RunKeeps(events, batch, gap, name);
    assert NewAt(Messages(events, batch, gap, name), i);
  }

  // ---- the gap ----

  predicate Apart(ts: seq<int>, gap: int) {
    forall i, j :: 0 <= i < j < |ts| ==> ts[j] - ts[i] >= gap
  }

  lemma {:induction false} TriesKeep(events: seq<Event>, batch: int, gap: int)
    requires Clocked(events) && gap >= 0
    ensures var ts := Tries(events, batch, gap);
            && Apart(ts, gap)
            && (forall i :: 0 <= i < |ts| ==> ts[i] <= Play(events, batch, gap).lastSent)
  {
    if events != [] {
      hide Next, Attempts;
      var n := |events| - 1;
      assert forall k :: 0 <= k < n ==> events[..n][..k] == events[..k];
      TriesKeep(events[..n], batch, gap);
      LastSentAfter(Play(events[..n], batch, gap), events[n], batch, gap);
    }
  }

  lemma LastSentAfter(s: State, e: Event, batch: int, gap: int)
    ensures Next(s, e, batch, gap).lastSent == if Attempts(s, e, batch, gap) then e.now else s.lastSent
    ensures Attempts(s, e, batch, gap) ==> e.now - s.lastSent >= gap
  {
    hide DueAt, Recent, StillPending, Remembered, Trimmed;
  }

  /** Any two attempts to send are at least the gap apart. */
  lemma GapBetweenTries(events: seq<Event>, batch: int, gap: int, i: nat, j: nat)
    requires Clocked(events) && gap >= 0 && i < j < |Tries(events, batch, gap)|
    ensures Tries(events, batch, gap)[j] - Tries(events, batch, gap)[i] >= gap
  {
    TriesKeep(events, batch, gap);
  }
}
