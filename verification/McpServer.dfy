/** Rate windows and sessions of the MCP HTTP server: packages/mcp/src/http-server.ts. */
module McpServer {
  import opened Common

  /** Windows are kept per address and per token hash. */
  datatype Key = Ip(address: nat) | TokenHash(hash: nat)

  datatype Window = Window(count: nat, startedAt: int)

  datatype Session = Session(tokenHash: nat, lastSeenAt: int)

  datatype Config = Config(sessionTtlMs: nat, windowMs: nat, rateMax: nat, preAuthMax: nat)

  datatype Server = Server(sessions: map<nat, Session>, windows: map<Key, Window>)

  function MaxFor(config: Config, key: Key): nat {
    if key.Ip? then config.preAuthMax else config.rateMax
  }

  predicate Current(config: Config, w: Window, now: int) {
    now - w.startedAt <= config.windowMs
  }

  predicate Fresh(config: Config, session: Session, now: int) {
    now - session.lastSeenAt <= config.sessionTtlMs
  }

  // ---------------------------------------------------------------- events

  /** What touches the two tables, each at one reading of the clock. */
  datatype Event =
    | Check(key: Key, at: int)
    | Lookup(id: nat, hash: nat, at: int)
    | Open(id: nat, hash: nat, at: int)
    | Close(id: nat, at: int)
    | Sweep(at: int)

  datatype Answer = Admitted | Limited | Served | NotFound | Quiet

  function CheckWindow(config: Config, s: Server, key: Key, now: int): (Server, Answer) {
    if key !in s.windows || !Current(config, s.windows[key], now) then
      (s.(windows := s.windows[key := Window(1, now)]), Admitted)
    else
      var w := s.windows[key].(count := s.windows[key].count + 1);
      (s.(windows := s.windows[key := w]), if w.count > MaxFor(config, key) then Limited else Admitted)
  }

  function LookupSession(config: Config, s: Server, id: nat, hash: nat, now: int): (Server, Answer) {
    if id !in s.sessions || s.sessions[id].tokenHash != hash || !Fresh(config, s.sessions[id], now) then (s, NotFound)
    else (s.(sessions := s.sessions[id := s.sessions[id].(lastSeenAt := now)]), Served)
  }

  function Swept(config: Config, s: Server, now: int): Server {
    Server(map id | id in s.sessions && Fresh(config, s.sessions[id], now) :: s.sessions[id],
           map key | key in s.windows && Current(config, s.windows[key], now) :: s.windows[key])
  }

  function Apply(config: Config, s: Server, event: Event): (Server, Answer) {
    match event
    case Check(key, at) => CheckWindow(config, s, key, at)
    case Lookup(id, hash, at) => LookupSession(config, s, id, hash, at)
    case Open(id, hash, at) => (s.(sessions := s.sessions[id := Session(hash, at)]), Quiet)
    case Close(id, _) => (s.(sessions := s.sessions - {id}), Quiet)
    case Sweep(at) => (Swept(config, s, at), Quiet)
  }

  function Init(events: seq<Event>): seq<Event>
    requires events != []
  {
    events[..|events| - 1]
  }

  function Last(events: seq<Event>): Event
    requires events != []
  {
    events[|events| - 1]
  }

  /** The server after a trace, from empty tables. */
  function After(config: Config, events: seq<Event>): Server {
    if events == [] then Server(map[], map[]) else Apply(config, After(config, Init(events)), Last(events)).0
  }

  /** The answer to the last event of a trace. */
  function AnswerOf(config: Config, events: seq<Event>): Answer
    requires events != []
  {
    Apply(config, After(config, Init(events)), Last(events)).1
  }

  /** All answers a trace gives to anything but a sweep. */
  function Answers(config: Config, events: seq<Event>): seq<Answer> {
    if events == [] then []
    else Answers(config, Init(events)) + (if Last(events).Sweep? then [] else [AnswerOf(config, events)])
  }

  /** The clock never goes back. */
  predicate Monotone(events: seq<Event>) {
    forall i, j :: 0 <= i < j < |events| ==> events[i].at <= events[j].at
  }

  // ---------------------------------------------------------------- sweeping is unobservable

  /** The trace of a server that never sweeps. */
  function Unswept(events: seq<Event>): seq<Event> {
    if events == [] then []
    else Unswept(Init(events)) + (if Last(events).Sweep? then [] else [Last(events)])
  }

  /** The swept server has the same rows, except that some that ran out by `now` are missing. */
  predicate Covers(config: Config, full: Server, swept: Server, now: int) {
    && (forall id :: id in swept.sessions ==> id in full.sessions && full.sessions[id] == swept.sessions[id])
    && (forall id :: id in full.sessions && id !in swept.sessions ==> !Fresh(config, full.sessions[id], now))
    && (forall key :: key in swept.windows ==> key in full.windows && full.windows[key] == swept.windows[key])
    && (forall key :: key in full.windows && key !in swept.windows ==> !Current(config, full.windows[key], now))
  }

  lemma CoversLater(config: Config, full: Server, swept: Server, now: int, later: int)
    requires Covers(config, full, swept, now) && now <= later
    ensures Covers(config, full, swept, later)
  {
  }

  lemma StepCovers(config: Config, full: Server, swept: Server, event: Event)
    requires Covers(config, full, swept, event.at)
    ensures event.Sweep? ==> Covers(config, full, Apply(config, swept, event).0, event.at)
    ensures !event.Sweep? ==>
              Covers(config, Apply(config, full, event).0, Apply(config, swept, event).0, event.at) &&
              Apply(config, full, event).1 == Apply(config, swept, event).1
  {
  }

  lemma MonotoneInit(events: seq<Event>)
    requires Monotone(events) && events != []
    ensures Monotone(Init(events))
    ensures Init(events) != [] ==> Last(Init(events)).at <= Last(events).at
  {
  }

  lemma {:induction false} SweptCovered(config: Config, events: seq<Event>)
    requires Monotone(events) && events != []
    ensures Covers(config, After(config, Unswept(events)), After(config, events), Last(events).at)
    ensures !Last(events).Sweep? ==>
              Unswept(events) == Unswept(Init(events)) + [Last(events)] &&
              AnswerOf(config, Unswept(events)) == AnswerOf(config, events)
  {
    hide Covers, Apply;
    var init, last := Init(events), Last(events);
    MonotoneInit(events);
    if init == [] {
      NothingCovered(config, last.at);
    } else {
      SweptCovered(config, init);
      CoversLater(config, After(config, Unswept(init)), After(config, init), Last(init).at, last.at);
    }
    StepCovers(config, After(config, Unswept(init)), After(config, init), last);
    if !last.Sweep? {
      assert Init(Unswept(events)) == Unswept(init) && Last(Unswept(events)) == last;
    } else {
      assert Unswept(events) == Unswept(init);
    }
  }

  lemma NothingCovered(config: Config, now: int)
    ensures Covers(config, After(config, Unswept([])), After(config, []), now)
  {
  }

  /** Any schedule of sweeps gives the answers of a server that never sweeps. */
  lemma {:induction false} SweepTransparent(config: Config, events: seq<Event>)
    requires Monotone(events)
    ensures Answers(config, events) == Answers(config, Unswept(events))
  {
    hide Apply, AnswerOf, Covers, After, Monotone;
    if events != [] {
      MonotoneInit(events);
      SweepTransparent(config, Init(events));
      SweptCovered(config, events);
      if !Last(events).Sweep? {
        assert Init(Unswept(events)) == Unswept(Init(events)) && Last(Unswept(events)) == Last(events);
      } else {
        assert Unswept(events) == Unswept(Init(events));
      }
    }
  }

  /** Right after a sweep nothing that has run out is left, and everything else is as it was. */
  lemma SweepCleans(config: Config, events: seq<Event>)
    requires events != [] && Last(events).Sweep?
    ensures var before, after, now := After(config, Init(events)), After(config, events), Last(events).at;
            && (forall id :: id in after.sessions <==> id in before.sessions && now - before.sessions[id].lastSeenAt <= config.sessionTtlMs)
            && (forall id :: id in after.sessions ==> after.sessions[id] == before.sessions[id])
            && (forall key :: key in after.windows <==> key in before.windows && now - before.windows[key].startedAt <= config.windowMs)
            && (forall key :: key in after.windows ==> after.windows[key] == before.windows[key])
  {
  }

  // ---------------------------------------------------------------- sessions belong to their creator

  /** Event i opened the session, with this hash, and since then nothing closed or reopened it. */
  predicate OpenedBy(events: seq<Event>, i: int, id: nat, hash: nat) {
    && 0 <= i < |events| && events[i].Open? && events[i].id == id && events[i].hash == hash
    && forall j :: i < j < |events| ==> !Renews(events[j], id)
  }

  predicate Renews(event: Event, id: nat) {
    (event.Close? || event.Open?) && event.id == id
  }

  lemma {:induction false} SessionOwner(config: Config, events: seq<Event>, id: nat) returns (opener: int)
    requires id in After(config, events).sessions
    ensures OpenedBy(events, opener, id, After(config, events).sessions[id].tokenHash)
  {
    var before := After(config, Init(events));
    if Last(events).Open? && Last(events).id == id {
      opener := |events| - 1;
    } else {
      assert id in before.sessions && before.sessions[id].tokenHash == After(config, events).sessions[id].tokenHash;
      opener := SessionOwner(config, Init(events), id);
      forall j | opener < j < |events|
        ensures !Renews(events[j], id)
      {
        if j < |events| - 1 {
          assert Init(events)[j] == events[j];
        }
      }
    }
  }

  /**
   * A session is served only under the token hash it was opened with, while it is open and within its
   * time to live; any other lookup gets the same answer as an unknown id.
   */
  lemma ServedToCreator(config: Config, events: seq<Event>) returns (opener: int)
    requires events != [] && Last(events).Lookup? && AnswerOf(config, events) == Served
    ensures OpenedBy(Init(events), opener, Last(events).id, Last(events).hash)
    ensures Last(events).at - After(config, Init(events)).sessions[Last(events).id].lastSeenAt <= config.sessionTtlMs
  {
    opener := SessionOwner(config, Init(events), Last(events).id);
  }

  /** Event j opened the session under the hash, or was a lookup served under it. */
  predicate Touches(config: Config, events: seq<Event>, j: nat, id: nat, hash: nat)
    requires j < |events|
  {
    (events[j].Open? && events[j].id == id && events[j].hash == hash) ||
    (events[j].Lookup? && events[j].id == id && events[j].hash == hash && AnswerOf(config, events[..j + 1]) == Served)
  }

  /** The session was opened or served under the hash in event j, and since then nothing closed or reopened it. */
  predicate LastTouchedAt(config: Config, events: seq<Event>, j: nat, id: nat, hash: nat) {
    j < |events| && Touches(config, events, j, id, hash) && forall k :: j < k < |events| ==> !Renews(events[k], id)
  }

  lemma TouchedRow(config: Config, events: seq<Event>, j: nat, id: nat, hash: nat)
    requires j < |events| && Touches(config, events, j, id, hash)
    ensures var s := After(config, events[..j + 1]);
            id in s.sessions && s.sessions[id].tokenHash == hash && s.sessions[id].lastSeenAt == events[j].at
  {
    assert Last(events[..j + 1]) == events[j];
  }

  /** A touched session is still there, seen no earlier, as long as its time to live has not passed since. */
  lemma {:induction false} TouchedStays(config: Config, events: seq<Event>, j: nat, id: nat, hash: nat)
    requires Monotone(events) && LastTouchedAt(config, events, j, id, hash) && Last(events).at - events[j].at <= config.sessionTtlMs
    ensures var s := After(config, events);
            id in s.sessions && s.sessions[id].tokenHash == hash && events[j].at <= s.sessions[id].lastSeenAt
  {
    hide Monotone, Touches;
    if j == |events| - 1 {
      TouchedRow(config, events, j, id, hash);
      assert events[..j + 1] == events;
    } else {
      var init := Init(events);
      MonotoneInit(events);
      EarlierTouch(config, events, j, id, hash);
      TouchedStays(config, init, j, id, hash);
      assert !Renews(events[|events| - 1], id);
    }
  }

  lemma EarlierTouch(config: Config, events: seq<Event>, j: nat, id: nat, hash: nat)
    requires LastTouchedAt(config, events, j, id, hash) && j < |events| - 1
    ensures LastTouchedAt(config, Init(events), j, id, hash) && Init(events)[j] == events[j]
  {
    assert Init(events)[..j + 1] == events[..j + 1];
    assert forall k :: 0 <= k < |Init(events)| ==> Init(events)[k] == events[k];
  }

  /** A session that is there was last opened or served, under its hash, when it was last seen. */
  lemma {:induction false} SeenIsTouch(config: Config, events: seq<Event>, id: nat) returns (j: nat)
    requires id in After(config, events).sessions
    ensures LastTouchedAt(config, events, j, id, After(config, events).sessions[id].tokenHash)
    ensures events[j].at == After(config, events).sessions[id].lastSeenAt
  {
    hide Touches;
    var last := Last(events);
    var n := |events| - 1;
    assert events[..n + 1] == events && Init(events) == events[..n];
    if (last.Open? && last.id == id) || (last.Lookup? && last.id == id && AnswerOf(config, events) == Served) {
      j := n;
      LastTouch(config, events, id);
    } else {
      j := SeenIsTouch(config, Init(events), id);
      LaterTouch(config, events, j, id, After(config, events).sessions[id].tokenHash);
    }
  }

  lemma LastTouch(config: Config, events: seq<Event>, id: nat)
    requires events != [] && id in After(config, events).sessions
    requires (Last(events).Open? && Last(events).id == id) || (Last(events).Lookup? && Last(events).id == id && AnswerOf(config, events) == Served)
    ensures Touches(config, events, |events| - 1, id, After(config, events).sessions[id].tokenHash)
  {
    assert events[..|events|] == events;
  }

  lemma LaterTouch(config: Config, events: seq<Event>, j: nat, id: nat, hash: nat)
    requires events != [] && LastTouchedAt(config, Init(events), j, id, hash) && !Renews(Last(events), id)
    ensures LastTouchedAt(config, events, j, id, hash)
  {
    assert Init(events)[..j + 1] == events[..j + 1];
    assert forall k :: 0 <= k < |Init(events)| ==> Init(events)[k] == events[k];
  }

  /**
   * Over every trace and sweep schedule a lookup is served exactly when the session was opened, or last served, under the same token
   * hash within its time to live, and neither closed nor opened anew since.
   */
  lemma ServedIff(config: Config, events: seq<Event>)
    requires Monotone(events) && events != [] && Last(events).Lookup?
    ensures AnswerOf(config, events) == Served <==>
              exists j :: 0 <= j < |events| - 1 && LastTouchedAt(config, Init(events), j, Last(events).id, Last(events).hash) &&
                          Last(events).at - events[j].at <= config.sessionTtlMs
  {
    hide Touches, Monotone;
    var init, last := Init(events), Last(events);
    MonotoneInit(events);
    if AnswerOf(config, events) == Served {
      var j := SeenIsTouch(config, init, last.id);
      assert init[j] == events[j];
    }
    if j :| 0 <= j < |events| - 1 && LastTouchedAt(config, init, j, last.id, last.hash) && last.at - events[j].at <= config.sessionTtlMs {
      assert init[j] == events[j];
      TouchedStays(config, init, j, last.id, last.hash);
    }
  }

  // ---------------------------------------------------------------- the rate bound

  /** The length of the longest burst a window admits: its first request is admitted whatever the maximum. */
  function Burst(config: Config, key: Key): (n: nat)
    ensures n >= 1
  {
    if MaxFor(config, key) == 0 then 1 else MaxFor(config, key)
  }

  predicate InInterval(config: Config, from: int, at: int) {
    from <= at <= from + config.windowMs
  }

  /** The last event is a check of `key` in the interval that starts at `from` and it is admitted. */
  predicate Counts(config: Config, events: seq<Event>, key: Key, from: int)
    requires events != []
  {
    Last(events).Check? && Last(events).key == key && InInterval(config, from, Last(events).at) && AnswerOf(config, events) == Admitted
  }

  /** How many requests of a key are admitted in a closed interval of one window length. */
  function AdmittedIn(config: Config, events: seq<Event>, key: Key, from: int): nat {
    if events == [] then 0
    else AdmittedIn(config, Init(events), key, from) + (if Counts(config, events, key, from) then 1 else 0)
  }

  function Smaller(a: nat, b: nat): nat {
    if a <= b then a else b
  }

  /** What the window of a key says about the requests admitted so far in the interval. */
  predicate Accounts(config: Config, s: Server, key: Key, from: int, now: int, admitted: nat) {
    && (now < from ==> admitted == 0)
    && if key !in s.windows then admitted == 0
       else
         var w, burst := s.windows[key], Burst(config, key);
         && w.count >= 1 && w.startedAt <= now
         && if w.startedAt < from then admitted <= Smaller(w.count, burst) - 1
            else if w.startedAt <= from + config.windowMs then admitted <= burst - 1 + Smaller(w.count, burst)
            else admitted <= 2 * burst - 1
  }

  lemma CheckAccounts(config: Config, s: Server, key: Key, from: int, now: int, at: int, admitted: nat)
    requires Accounts(config, s, key, from, now, admitted) && now <= at
    ensures var next := CheckWindow(config, s, key, at);
            Accounts(config, next.0, key, from, at,
                     admitted + if InInterval(config, from, at) && next.1 == Admitted then 1 else 0)
  {
  }

  lemma OtherAccounts(config: Config, s: Server, event: Event, key: Key, from: int, now: int, admitted: nat)
    requires Accounts(config, s, key, from, now, admitted) && now <= event.at && !event.Sweep?
    requires !(event.Check? && event.key == key)
    ensures Accounts(config, Apply(config, s, event).0, key, from, event.at, admitted)
  {
  }

  predicate NoSweeps(events: seq<Event>) {
    forall i :: 0 <= i < |events| ==> !events[i].Sweep?
  }

  lemma {:induction false} UnsweptAccounts(config: Config, events: seq<Event>, key: Key, from: int)
    requires Monotone(events) && NoSweeps(events) && events != []
    ensures Accounts(config, After(config, events), key, from, Last(events).at, AdmittedIn(config, events, key, from))
  {
    hide Apply, Accounts, CheckWindow, InInterval;
    var init, last := Init(events), Last(events);
    var now := if init == [] then last.at else Last(init).at;
    MonotoneInit(events);
    if init == [] {
      EmptyAccounts(config, key, from, now);
    } else {
      UnsweptAccounts(config, init, key, from);
    }
    if last.Check? && last.key == key {
      CheckAccounts(config, After(config, init), key, from, now, last.at, AdmittedIn(config, init, key, from));
      CheckIs(config, After(config, init), last);
    } else {
      OtherAccounts(config, After(config, init), last, key, from, now, AdmittedIn(config, init, key, from));
    }
  }

  lemma CheckIs(config: Config, s: Server, event: Event)
    requires event.Check?
    ensures Apply(config, s, event) == CheckWindow(config, s, event.key, event.at)
  {
  }

  lemma EmptyAccounts(config: Config, key: Key, from: int, now: int)
    ensures Accounts(config, After(config, []), key, from, now, AdmittedIn(config, [], key, from))
  {
  }

  lemma {:induction false} UnsweptFacts(events: seq<Event>)
    requires Monotone(events)
    ensures Monotone(Unswept(events)) && NoSweeps(Unswept(events))
    ensures events != [] && Unswept(events) != [] ==> Last(Unswept(events)).at <= Last(events).at
  {
    if events != [] {
      MonotoneInit(events);
      UnsweptFacts(Init(events));
      var u := Unswept(Init(events));
      if u != [] {
        assert forall i :: 0 <= i < |u| ==> u[i].at <= Last(u).at;
      }
    }
  }

  lemma {:induction false} UnsweptAdmits(config: Config, events: seq<Event>, key: Key, from: int)
    requires Monotone(events)
    ensures AdmittedIn(config, events, key, from) == AdmittedIn(config, Unswept(events), key, from)
  {
    hide Apply, AnswerOf, Covers, After, Monotone, InInterval, Unswept, Counts, Last;
    if events == [] {
      NothingUnswept();
    } else {
      MonotoneInit(events);
      UnsweptAdmits(config, Init(events), key, from);
      SweptCovered(config, events);
      UnsweptCounts(config, events, key, from);
    }
  }

  lemma NothingUnswept()
    ensures Unswept([]) == []
  {
  }

  /** The last event counts for both traces or for neither. */
  lemma UnsweptCounts(config: Config, events: seq<Event>, key: Key, from: int)
    requires events != []
    requires !Last(events).Sweep? ==>
               Unswept(events) == Unswept(Init(events)) + [Last(events)] && AnswerOf(config, Unswept(events)) == AnswerOf(config, events)
    ensures Last(events).Sweep? ==> Unswept(events) == Unswept(Init(events)) && !Counts(config, events, key, from)
    ensures !Last(events).Sweep? ==>
              Unswept(events) != [] && Init(Unswept(events)) == Unswept(Init(events)) &&
              (Counts(config, Unswept(events), key, from) <==> Counts(config, events, key, from))
  {
    hide AnswerOf, InInterval;
  }

  /**
   * The rate bound, for every trace, sweep schedule, key and closed interval of one window length: fewer
   * than twice the maximum are admitted, and at most one when the maximum is zero.
   */
  lemma RateBound(config: Config, events: seq<Event>, key: Key, from: int)
    requires Monotone(events)
    ensures AdmittedIn(config, events, key, from) <= 2 * Burst(config, key) - 1
  {
    hide Apply;
    UnsweptAdmits(config, events, key, from);
    UnsweptFacts(events);
    if Unswept(events) != [] {
      UnsweptAccounts(config, Unswept(events), key, from);
    }
  }

  function Times(event: Event, n: nat): (events: seq<Event>)
    ensures |events| == n && forall i :: 0 <= i < n ==> events[i] == event
  {
    if n == 0 then [] else Times(event, n - 1) + [event]
  }

  /** One check at the start of a window, `early` more at its last instant and `late` right after it. */
  function TwoBursts(key: Key, window: nat, early: nat, late: nat): (events: seq<Event>)
    ensures Monotone(events)
  {
    [Check(key, 0)] + Times(Check(key, window), early) + Times(Check(key, window + 1), late)
  }

  /** What one more check does to the window of its key and to the count of the interval. */
  lemma NextCheck(config: Config, events: seq<Event>, key: Key, at: int, from: int)
    ensures var more, checked := events + [Check(key, at)], CheckWindow(config, After(config, events), key, at);
            && After(config, more) == checked.0
            && AdmittedIn(config, more, key, from)
               == AdmittedIn(config, events, key, from) + if InInterval(config, from, at) && checked.1 == Admitted then 1 else 0
  {
    hide CheckWindow, InInterval;
    assert Init(events + [Check(key, at)]) == events;
  }

  lemma NothingChecked(config: Config, key: Key, from: int)
    ensures After(config, []) == Server(map[], map[]) && AdmittedIn(config, [], key, from) == 0
  {
  }

  lemma {:induction false} FirstBurst(config: Config, key: Key, early: nat)
    requires config.windowMs >= 1 && early + 1 <= Burst(config, key)
    ensures var events := TwoBursts(key, config.windowMs, early, 0);
            && key in After(config, events).windows
            && After(config, events).windows[key] == Window(early + 1, 0)
            && AdmittedIn(config, events, key, 1) == early
  {
    hide After, AdmittedIn, Monotone;
    var events := TwoBursts(key, config.windowMs, early, 0);
    if early == 0 {
      NextCheck(config, [], key, 0, 1);
      NothingChecked(config, key, 1);
      assert events == [] + [Check(key, 0)];
    } else {
      FirstBurst(config, key, early - 1);
      NextCheck(config, TwoBursts(key, config.windowMs, early - 1, 0), key, config.windowMs, 1);
      assert events == TwoBursts(key, config.windowMs, early - 1, 0) + [Check(key, config.windowMs)];
    }
  }

  lemma {:induction false} SecondBurst(config: Config, key: Key, late: nat)
    requires config.windowMs >= 1 && 1 <= late <= Burst(config, key)
    ensures var events := TwoBursts(key, config.windowMs, Burst(config, key) - 1, late);
            && key in After(config, events).windows
            && After(config, events).windows[key] == Window(late, config.windowMs + 1)
            && AdmittedIn(config, events, key, 1) == Burst(config, key) - 1 + late
  {
    hide After, AdmittedIn, Monotone;
    var early := Burst(config, key) - 1;
    var before := TwoBursts(key, config.windowMs, early, late - 1);
    if late == 1 {
      FirstBurst(config, key, early);
    } else {
      SecondBurst(config, key, late - 1);
    }
    NextCheck(config, before, key, config.windowMs + 1, 1);
    assert TwoBursts(key, config.windowMs, early, late) == before + [Check(key, config.windowMs + 1)];
  }

  /** The bound is reached for every maximum: a burst at the end of one window and a full one right after it. */
  lemma RateBoundTight(config: Config, key: Key)
    requires config.windowMs >= 1
    ensures var burst := Burst(config, key);
            var events := TwoBursts(key, config.windowMs, burst - 1, burst);
            Monotone(events) && AdmittedIn(config, events, key, 1) == 2 * burst - 1
  {
    SecondBurst(config, key, Burst(config, key));
  }

  /** The larger of a configured maximum and one. */
  function AtLeastOne(maximum: nat): nat {
    if maximum == 0 then 1 else maximum
  }

  /** Addresses are bounded by the maximum before authentication and tokens by that for requests, and both bounds are reached. */
  lemma BoundsByKind(config: Config, events: seq<Event>, address: nat, hash: nat, from: int)
    requires Monotone(events)
    ensures AdmittedIn(config, events, Ip(address), from) <= 2 * AtLeastOne(config.preAuthMax) - 1
    ensures AdmittedIn(config, events, TokenHash(hash), from) <= 2 * AtLeastOne(config.rateMax) - 1
    ensures config.windowMs >= 1 ==>
              AdmittedIn(config, TwoBursts(Ip(address), config.windowMs, AtLeastOne(config.preAuthMax) - 1, AtLeastOne(config.preAuthMax)), Ip(address), 1)
              == 2 * AtLeastOne(config.preAuthMax) - 1
    ensures config.windowMs >= 1 ==>
              AdmittedIn(config, TwoBursts(TokenHash(hash), config.windowMs, AtLeastOne(config.rateMax) - 1, AtLeastOne(config.rateMax)), TokenHash(hash), 1)
              == 2 * AtLeastOne(config.rateMax) - 1
  {
    hide AdmittedIn, TwoBursts, Monotone;
    RateBound(config, events, Ip(address), from);
    RateBound(config, events, TokenHash(hash), from);
    if config.windowMs >= 1 {
      RateBoundTight(config, Ip(address));
      RateBoundTight(config, TokenHash(hash));
    }
  }

  // ---------------------------------------------------------------- the server itself

  datatype Method = Post | Get | Delete | OtherMethod

  datatype Body = Oversized | Invalid | Initialize | OtherBody

  datatype Verification = TokenValid | TokenInvalid | Unreachable

  /**
   * What a request brings along, what the API says of its token, and whether the session's transport accepts
   * it: only then does a DELETE close the session or an initialize request open one.
   */
  datatype Request = Request(
    originAllowed: bool,
    hostAllowed: bool,
    verb: Method,
    address: nat,
    tokenHash: Option<nat>,
    body: Body,
    sessionId: Option<nat>,
    verification: Verification,
    transportAccepts: bool
  )

  /** Clock readings of one request, and the id a new session would get. */
  datatype Moments = Moments(preAuth: int, auth: int, lookup: int, open: int, newId: nat)

  const HANDLED := 200
  const BAD_REQUEST := 400
  const UNAUTHORIZED := 401
  const FORBIDDEN := 403
  const NOT_FOUND := 404
  const METHOD_NOT_ALLOWED := 405
  const TOO_LARGE := 413
  const TOO_MANY_REQUESTS := 429
  const BAD_GATEWAY := 502

  /** A served DELETE that the transport accepts closes the session, which removes its row. */
  function ServeSession(config: Config, s: Server, r: Request, id: nat, hash: nat, now: int): (Server, int) {
    var found := LookupSession(config, s, id, hash, now);
    if found.1 != Served then (found.0, NOT_FOUND)
    else if r.verb == Delete && r.transportAccepts then (found.0.(sessions := found.0.sessions - {id}), HANDLED)
    else (found.0, HANDLED)
  }

  /** The part after both rate limits; HANDLED means handed to the transport, whatever it answers. */
  function Route(config: Config, s: Server, r: Request, hash: nat, at: Moments): (Server, int) {
    if r.verb == Post && r.body == Oversized then (s, TOO_LARGE)
    else if r.verb == Post && r.body == Invalid then (s, BAD_REQUEST)
    else if r.sessionId.Some? then ServeSession(config, s, r, r.sessionId.value, hash, at.lookup)
    else if r.verb != Post || r.body != Initialize then (s, BAD_REQUEST)
    else if r.verification == Unreachable then (s, BAD_GATEWAY)
    else if r.verification == TokenInvalid then (s, UNAUTHORIZED)
    else if r.transportAccepts then (s.(sessions := s.sessions[at.newId := Session(hash, at.open)]), HANDLED)
    else (s, HANDLED)
  }

  function Handle(config: Config, s: Server, r: Request, at: Moments): (Server, int) {
    if !r.originAllowed || !r.hostAllowed then (s, FORBIDDEN)
    else if r.verb == OtherMethod then (s, METHOD_NOT_ALLOWED)
    else
      var ip := CheckWindow(config, s, Ip(r.address), at.preAuth);
      if ip.1 == Limited then (ip.0, TOO_MANY_REQUESTS)
      else if r.tokenHash.None? then (ip.0, UNAUTHORIZED)
      else
        var token := CheckWindow(config, ip.0, TokenHash(r.tokenHash.value), at.auth);
        if token.1 == Limited then (token.0, TOO_MANY_REQUESTS)
        else Route(config, token.0, r, r.tokenHash.value, at)
  }

  /** The rate windows do not depend on the sessions. */
  lemma WindowsApart(config: Config, s: Server, sessions: map<nat, Session>, key: Key, now: int)
    ensures CheckWindow(config, s.(sessions := sessions), key, now).0 == CheckWindow(config, s, key, now).0.(sessions := sessions)
    ensures CheckWindow(config, s.(sessions := sessions), key, now).1 == CheckWindow(config, s, key, now).1
    ensures CheckWindow(config, s, key, now).0.sessions == s.sessions
  {
  }

  lemma ForeignRoute(config: Config, s: Server, r: Request, hash: nat, at: Moments, id: nat)
    requires r.sessionId == Some(id) && id in s.sessions && hash != s.sessions[id].tokenHash
    ensures var without := s.(sessions := s.sessions - {id});
            Route(config, s, r, hash, at).1 == Route(config, without, r, hash, at).1 &&
            Route(config, s, r, hash, at).0 == s && Route(config, without, r, hash, at).0 == without
  {
  }

  /** A session of another token is told apart from no session by neither the answer nor the state. */
  lemma ForeignSessionsHidden(config: Config, s: Server, r: Request, at: Moments, id: nat)
    requires r.sessionId == Some(id) && id in s.sessions && r.tokenHash != Some(s.sessions[id].tokenHash)
    ensures Handle(config, s, r, at).1 == Handle(config, s.(sessions := s.sessions - {id}), r, at).1
    ensures Handle(config, s, r, at).0 == Handle(config, s.(sessions := s.sessions - {id}), r, at).0.(sessions := s.sessions)
  {
    hide CheckWindow, Route;
    var sessions := s.sessions - {id};
    WindowsApart(config, s, sessions, Ip(r.address), at.preAuth);
    if r.tokenHash.Some? {
      var ip := CheckWindow(config, s, Ip(r.address), at.preAuth).0;
      WindowsApart(config, ip, sessions, TokenHash(r.tokenHash.value), at.auth);
      var token := CheckWindow(config, ip, TokenHash(r.tokenHash.value), at.auth).0;
      ForeignRoute(config, token, r, r.tokenHash.value, at, id);
    }
  }

  /**
   * A request changes at most its own session, removes it only by a DELETE, or adds one under its own token
   * hash, and all that only when it is handled.
   */
  lemma RequestTouchesOwnSession(config: Config, s: Server, r: Request, at: Moments, id: nat)
    requires at.newId !in s.sessions
    ensures var after := Handle(config, s, r, at);
            if id in s.sessions && id in after.0.sessions && after.0.sessions[id] == s.sessions[id] then true
            else if id in after.0.sessions then
              after.1 == HANDLED && r.tokenHash == Some(after.0.sessions[id].tokenHash) &&
              (id in s.sessions ==> r.sessionId == Some(id) && s.sessions[id].tokenHash == after.0.sessions[id].tokenHash)
            else
              id in s.sessions ==>
                after.1 == HANDLED && r.verb == Delete && r.sessionId == Some(id) && r.tokenHash == Some(s.sessions[id].tokenHash)
  {
    hide CheckWindow, Route;
    if r.tokenHash.Some? {
      var hash := r.tokenHash.value;
      WindowsApart(config, s, s.sessions, Ip(r.address), at.preAuth);
      var ip := CheckWindow(config, s, Ip(r.address), at.preAuth).0;
      WindowsApart(config, ip, s.sessions, TokenHash(hash), at.auth);
      RouteTouchesOwnSession(config, CheckWindow(config, ip, TokenHash(hash), at.auth).0, r, hash, at, id);
    } else {
      WindowsApart(config, s, s.sessions, Ip(r.address), at.preAuth);
    }
  }

  lemma RouteTouchesOwnSession(config: Config, s: Server, r: Request, hash: nat, at: Moments, id: nat)
    requires at.newId !in s.sessions
    ensures var after := Route(config, s, r, hash, at);
            if id in s.sessions && id in after.0.sessions && after.0.sessions[id] == s.sessions[id] then true
            else if id in after.0.sessions then
              after.1 == HANDLED && hash == after.0.sessions[id].tokenHash &&
              (id in s.sessions ==> r.sessionId == Some(id) && s.sessions[id].tokenHash == hash)
            else
              id in s.sessions ==> after.1 == HANDLED && r.verb == Delete && r.sessionId == Some(id) && hash == s.sessions[id].tokenHash
  {
  }

  /** A handled DELETE that the transport accepts ends the session: every later lookup of its id finds nothing. */
  lemma DeleteEndsSession(config: Config, s: Server, r: Request, at: Moments, id: nat, hash: nat, later: int)
    requires r.verb == Delete && r.transportAccepts && r.sessionId == Some(id) && Handle(config, s, r, at).1 == HANDLED
    ensures id in s.sessions && id !in Handle(config, s, r, at).0.sessions
    ensures LookupSession(config, Handle(config, s, r, at).0, id, hash, later).1 == NotFound
  {
    hide CheckWindow;
    WindowsApart(config, s, s.sessions, Ip(r.address), at.preAuth);
    if r.tokenHash.Some? {
      WindowsApart(config, CheckWindow(config, s, Ip(r.address), at.preAuth).0, s.sessions, TokenHash(r.tokenHash.value), at.auth);
    }
  }

  // ---------------------------------------------------------------- whole requests are traces of events

  /** What a request does to the tables after both rate limits. */
  function RouteEvents(config: Config, s: Server, r: Request, hash: nat, at: Moments): seq<Event> {
    if r.verb == Post && (r.body == Oversized || r.body == Invalid) then []
    else if r.sessionId.Some? then
      var lookup := Lookup(r.sessionId.value, hash, at.lookup);
      if Apply(config, s, lookup).1 == Served && r.verb == Delete && r.transportAccepts then [lookup, Close(r.sessionId.value, at.lookup)]
      else [lookup]
    else if r.verb == Post && r.body == Initialize && r.verification == TokenValid && r.transportAccepts then [Open(at.newId, hash, at.open)]
    else []
  }

  function RequestEvents(config: Config, s: Server, r: Request, at: Moments): seq<Event> {
    if !r.originAllowed || !r.hostAllowed || r.verb == OtherMethod then []
    else
      var ip := Check(Ip(r.address), at.preAuth);
      var limited := Apply(config, s, ip);
      if limited.1 == Limited || r.tokenHash.None? then [ip]
      else
        var token := Check(TokenHash(r.tokenHash.value), at.auth);
        var routed := Apply(config, limited.0, token);
        if routed.1 == Limited then [ip, token] else [ip, token] + RouteEvents(config, routed.0, r, r.tokenHash.value, at)
  }

  /** The tables after some events. */
  function From(config: Config, s: Server, events: seq<Event>): Server
    decreases |events|
  {
    if events == [] then s else From(config, Apply(config, s, events[0]).0, events[1..])
  }

  lemma {:induction false} FromAppended(config: Config, s: Server, a: seq<Event>, b: seq<Event>)
    ensures From(config, s, a + b) == From(config, From(config, s, a), b)
    decreases |a|
  {
    hide Apply;
    if a == [] {
      assert a + b == b;
    } else {
      assert (a + b)[1..] == a[1..] + b;
      FromAppended(config, Apply(config, s, a[0]).0, a[1..], b);
    }
  }

  lemma {:induction false} AfterIsFrom(config: Config, events: seq<Event>)
    ensures After(config, events) == From(config, After(config, []), events)
  {
    hide Apply;
    if events != [] {
      AfterIsFrom(config, Init(events));
      FromAppended(config, After(config, []), Init(events), [Last(events)]);
      assert events == Init(events) + [Last(events)];
    }
  }

  lemma FromOne(config: Config, s: Server, event: Event)
    ensures From(config, s, [event]) == Apply(config, s, event).0
  {
    assert [event][1..] == [];
  }

  lemma RouteIsItsEvents(config: Config, s: Server, r: Request, hash: nat, at: Moments)
    ensures Route(config, s, r, hash, at).0 == From(config, s, RouteEvents(config, s, r, hash, at))
  {
    hide From;
    FromOne(config, s, Lookup(if r.sessionId.Some? then r.sessionId.value else 0, hash, at.lookup));
    FromOne(config, s, Open(at.newId, hash, at.open));
    FromNone(config, s);
    if r.sessionId.Some? {
      var lookup, close := Lookup(r.sessionId.value, hash, at.lookup), Close(r.sessionId.value, at.lookup);
      FromOne(config, Apply(config, s, lookup).0, close);
      FromAppended(config, s, [lookup], [close]);
      assert [lookup] + [close] == [lookup, close];
    }
  }

  lemma FromNone(config: Config, s: Server)
    ensures From(config, s, []) == s
  {
  }

  /** A request touches the tables by its events and by nothing else. */
  lemma RequestIsItsEvents(config: Config, s: Server, r: Request, at: Moments)
    ensures Handle(config, s, r, at).0 == From(config, s, RequestEvents(config, s, r, at))
  {
    hide CheckWindow, Route, RouteEvents, LookupSession;
    var events := RequestEvents(config, s, r, at);
    if |events| > 1 {
      var ip, token := Check(Ip(r.address), at.preAuth), Check(TokenHash(r.tokenHash.value), at.auth);
      var limited := Apply(config, s, ip).0;
      var routed := Apply(config, limited, token).0;
      RouteIsItsEvents(config, routed, r, r.tokenHash.value, at);
      assert events[1..][1..] == events[2..];
      assert From(config, s, events) == From(config, routed, events[2..]);
    }
  }

  /** The answer to the last of some events. */
  function LastAnswer(config: Config, s: Server, events: seq<Event>): Answer
    requires events != []
  {
    Apply(config, From(config, s, Init(events)), Last(events)).1
  }

  lemma LastOfMore(config: Config, s: Server, events: seq<Event>)
    requires |events| > 1
    ensures LastAnswer(config, s, events) == LastAnswer(config, Apply(config, s, events[0]).0, events[1..])
  {
    hide Apply;
    assert Init(events) == [events[0]] + Init(events[1..]);
  }

  lemma RouteStatus(config: Config, s: Server, r: Request, hash: nat, at: Moments)
    ensures var events, status := RouteEvents(config, s, r, hash, at), Route(config, s, r, hash, at).1;
            && status != TOO_MANY_REQUESTS
            && (status == NOT_FOUND <==> events != [] && LastAnswer(config, s, events) == NotFound)
            && (events != [] ==> LastAnswer(config, s, events) != Limited)
  {
    var events := RouteEvents(config, s, r, hash, at);
    if |events| == 1 {
      assert Init(events) == [];
    } else if |events| == 2 {
      LastOfMore(config, s, events);
      assert Init(events[1..]) == [];
    }
  }

  /** The status follows the answers: too many requests when its last check is limited, not found when its lookup is. */
  lemma StatusFollowsAnswers(config: Config, s: Server, r: Request, at: Moments)
    ensures var events, status := RequestEvents(config, s, r, at), Handle(config, s, r, at).1;
            && (status == TOO_MANY_REQUESTS <==> events != [] && LastAnswer(config, s, events) == Limited)
            && (status == NOT_FOUND <==> events != [] && LastAnswer(config, s, events) == NotFound)
  {
    hide Route, RouteEvents, LookupSession, From;
    var events := RequestEvents(config, s, r, at);
    if events != [] {
      FromNone(config, s);
      assert |events| == 1 ==> Init(events) == [];
      if |events| > 1 {
        var limited := Apply(config, s, events[0]).0;
        var routed := Apply(config, limited, events[1]).0;
        LastOfMore(config, s, events);
        FromNone(config, limited);
        assert |events| == 2 ==> Init(events[1..]) == [];
        RouteStatus(config, routed, r, r.tokenHash.value, at);
        if |events| > 2 {
          LastOfMore(config, limited, events[1..]);
          assert events[1..][1..] == RouteEvents(config, routed, r, r.tokenHash.value, at);
        }
      }
    }
  }

  /** What happens to a server: requests come in, and the timer fires between them. */
  datatype Happening = Incoming(request: Request, moments: Moments) | TimerFires(at: int)

  function FrontOf(items: seq<Happening>): seq<Happening>
    requires items != []
  {
    items[..|items| - 1]
  }

  /** The tables of the server after all this. */
  function Tables(config: Config, items: seq<Happening>): Server {
    if items == [] then Server(map[], map[])
    else
      match items[|items| - 1]
      case Incoming(r, at) => Handle(config, Tables(config, FrontOf(items)), r, at).0
      case TimerFires(at) => Swept(config, Tables(config, FrontOf(items)), at)
  }

  /** The status of each request. */
  function Statuses(config: Config, items: seq<Happening>): seq<int> {
    if items == [] then []
    else
      Statuses(config, FrontOf(items)) +
      match items[|items| - 1]
      case Incoming(r, at) => [Handle(config, Tables(config, FrontOf(items)), r, at).1]
      case TimerFires(_) => []
  }

  function EventsOf(config: Config, s: Server, item: Happening): seq<Event> {
    match item
    case Incoming(r, at) => RequestEvents(config, s, r, at)
    case TimerFires(at) => [Sweep(at)]
  }

  /** The trace of events behind it. */
  function Trace(config: Config, items: seq<Happening>): seq<Event> {
    if items == [] then []
    else Trace(config, FrontOf(items)) + EventsOf(config, Tables(config, FrontOf(items)), items[|items| - 1])
  }

  /** The server's tables are those of its trace, so that what holds of every trace holds of it. */
  lemma {:induction false} ServerFollowsTrace(config: Config, items: seq<Happening>)
    ensures Tables(config, items) == After(config, Trace(config, items))
  {
    hide Handle, RequestEvents, From;
    if items != [] {
      var init, item := FrontOf(items), items[|items| - 1];
      var before := Tables(config, init);
      ServerFollowsTrace(config, init);
      AfterIsFrom(config, Trace(config, init));
      AfterIsFrom(config, Trace(config, items));
      FromAppended(config, After(config, []), Trace(config, init), EventsOf(config, before, item));
      match item
      case Incoming(r, at) => RequestIsItsEvents(config, before, r, at);
      case TimerFires(at) => FromOne(config, before, Sweep(at));
    }
  }

  /** A server whose timer never fires. */
  function Timerless(items: seq<Happening>): seq<Happening> {
    if items == [] then []
    else Timerless(FrontOf(items)) + (if items[|items| - 1].TimerFires? then [] else [items[|items| - 1]])
  }

  /** The clock reading the events end with. */
  function EndOf(events: seq<Event>, now: int): int {
    if events == [] then now else Last(events).at
  }

  /** The events are in order and not before `now`. */
  predicate FromNow(events: seq<Event>, now: int) {
    Monotone(events) && forall i :: 0 <= i < |events| ==> now <= events[i].at
  }

  lemma FromNowRest(events: seq<Event>, now: int)
    requires FromNow(events, now) && events != []
    ensures now <= events[0].at && FromNow(events[1..], events[0].at)
    ensures EndOf(events[1..], events[0].at) == EndOf(events, now)
  {
  }

  /** Events that are no sweeps leave both servers alike. */
  lemma {:induction false} EventsCover(config: Config, full: Server, swept: Server, events: seq<Event>, now: int)
    requires Covers(config, full, swept, now) && FromNow(events, now) && NoSweeps(events)
    ensures Covers(config, From(config, full, events), From(config, swept, events), EndOf(events, now))
    decreases |events|
  {
    hide Covers, Apply, Monotone;
    if events != [] {
      var at := events[0].at;
      FromNowRest(events, now);
      CoversLater(config, full, swept, now, at);
      StepCovers(config, full, swept, events[0]);
      EventsCover(config, Apply(config, full, events[0]).0, Apply(config, swept, events[0]).0, events[1..], at);
    }
  }

  lemma RouteAlike(config: Config, full: Server, swept: Server, r: Request, hash: nat, at: Moments, now: int)
    requires Covers(config, full, swept, now) && FromNow(RouteEvents(config, swept, r, hash, at), now)
    ensures RouteEvents(config, full, r, hash, at) == RouteEvents(config, swept, r, hash, at)
    ensures NoSweeps(RouteEvents(config, swept, r, hash, at))
    ensures Route(config, full, r, hash, at).1 == Route(config, swept, r, hash, at).1
  {
    hide Monotone;
    if r.sessionId.Some? && !(r.verb == Post && (r.body == Oversized || r.body == Invalid)) {
      assert RouteEvents(config, swept, r, hash, at)[0] == Lookup(r.sessionId.value, hash, at.lookup);
      CoversLater(config, full, swept, now, at.lookup);
      StepCovers(config, full, swept, Lookup(r.sessionId.value, hash, at.lookup));
    }
  }

  /** A server with all its rows and one with the expired ones swept away answer a request alike. */
  lemma RequestAlike(config: Config, full: Server, swept: Server, r: Request, at: Moments, now: int)
    requires Covers(config, full, swept, now) && FromNow(RequestEvents(config, swept, r, at), now)
    ensures RequestEvents(config, full, r, at) == RequestEvents(config, swept, r, at)
    ensures NoSweeps(RequestEvents(config, swept, r, at))
    ensures Handle(config, full, r, at).1 == Handle(config, swept, r, at).1
  {
    hide CheckWindow, Route, RouteEvents, LookupSession, Covers, Monotone;
    var events := RequestEvents(config, swept, r, at);
    if events != [] {
      FromNowRest(events, now);
      CoversLater(config, full, swept, now, at.preAuth);
      StepCovers(config, full, swept, events[0]);
      if |events| > 1 {
        FromNowRest(events[1..], at.preAuth);
        var full1, swept1 := Apply(config, full, events[0]).0, Apply(config, swept, events[0]).0;
        CoversLater(config, full1, swept1, at.preAuth, at.auth);
        StepCovers(config, full1, swept1, events[1]);
        var full2, swept2 := Apply(config, full1, events[1]).0, Apply(config, swept1, events[1]).0;
        if Apply(config, swept1, events[1]).1 != Limited {
          assert events[1..][1..] == RouteEvents(config, swept2, r, r.tokenHash.value, at);
          RouteAlike(config, full2, swept2, r, r.tokenHash.value, at, at.auth);
        }
      }
    }
  }

  /** The parts of a trace, one after the other. */
  lemma FromNowParts(a: seq<Event>, b: seq<Event>, start: int)
    requires FromNow(a + b, start)
    ensures FromNow(a, start) && FromNow(b, EndOf(a, start)) && EndOf(b, EndOf(a, start)) == EndOf(a + b, start)
  {
    assert forall i :: 0 <= i < |a| ==> (a + b)[i] == a[i];
    assert forall i :: 0 <= i < |b| ==> (a + b)[|a| + i] == b[i];
  }

  lemma {:induction false} TimerlessCovered(config: Config, items: seq<Happening>, start: int)
    requires FromNow(Trace(config, items), start)
    ensures Covers(config, Tables(config, Timerless(items)), Tables(config, items), EndOf(Trace(config, items), start))
    ensures Statuses(config, items) == Statuses(config, Timerless(items))
  {
    hide Covers, Handle, RequestEvents, Monotone, Apply;
    if items != [] {
      var init, item := FrontOf(items), items[|items| - 1];
      var full, swept, now := Tables(config, Timerless(init)), Tables(config, init), EndOf(Trace(config, init), start);
      FromNowParts(Trace(config, init), EventsOf(config, swept, item), start);
      TimerlessCovered(config, init, start);
      match item
      case Incoming(r, at) =>
        RequestAlike(config, full, swept, r, at, now);
        EventsCover(config, full, swept, RequestEvents(config, swept, r, at), now);
        RequestIsItsEvents(config, full, r, at);
        RequestIsItsEvents(config, swept, r, at);
        assert FrontOf(Timerless(items)) == Timerless(init);
      case TimerFires(at) =>
        FromNowRest([Sweep(at)], now);
        CoversLater(config, full, swept, now, at);
        StepCovers(config, full, swept, Sweep(at));
        SweepApplies(config, swept, at);
        assert Timerless(items) == Timerless(init);
    } else {
      NothingCovered(config, start);
    }
  }

  lemma SweepApplies(config: Config, s: Server, at: int)
    ensures Apply(config, s, Sweep(at)).0 == Swept(config, s, at)
  {
  }

  /** No client can tell from the statuses of its requests when, or whether, the sweep timer fires. */
  lemma StatusesSweepTransparent(config: Config, items: seq<Happening>)
    requires Monotone(Trace(config, items))
    ensures Statuses(config, items) == Statuses(config, Timerless(items))
  {
    hide Statuses, Tables, Timerless;
    var trace := Trace(config, items);
    TimerlessCovered(config, items, if trace == [] then 0 else trace[0].at);
  }

  // ---------------------------------------------------------------- what the gates let through

  /** The request comes from an allowed place with a method the server knows. */
  predicate PastGates(r: Request) {
    r.originAllowed && r.hostAllowed && r.verb != OtherMethod
  }

  /** A session is opened only for a valid token, by an initialize request. */
  predicate AsksToOpen(r: Request) {
    r.verb == Post && r.body == Initialize && r.sessionId.None?
  }

  /**
   * Which status a request gets once it is past both limits: no token, a body that is too large or no JSON, a session that is not
   * served, no session and no initialize request, an unreachable API or an invalid token, in that order; and what it opens.
   */
  lemma StatusesInOrder(config: Config, s: Server, r: Request, at: Moments)
    ensures var after := Handle(config, s, r, at);
            var bodyOk := r.verb != Post || (r.body != Oversized && r.body != Invalid);
            && (after.1 == 403 <==> !r.originAllowed || !r.hostAllowed)
            && (after.1 == 405 <==> r.originAllowed && r.hostAllowed && r.verb == OtherMethod)
            && (!PastGates(r) ==> after.0 == s)
            && (PastGates(r) && after.1 != 429 ==>
                  && (after.1 == 401 <==> r.tokenHash.None? || (AsksToOpen(r) && r.verification == TokenInvalid))
                  && (after.1 == 413 <==> r.tokenHash.Some? && r.verb == Post && r.body == Oversized)
                  && (after.1 == 502 <==> r.tokenHash.Some? && AsksToOpen(r) && r.verification == Unreachable)
                  && (after.1 == 400 <==> r.tokenHash.Some? && (if bodyOk then r.sessionId.None? && !AsksToOpen(r) else r.body == Invalid))
                  && (after.1 == 404 ==> r.tokenHash.Some? && bodyOk && r.sessionId.Some?)
                  && (after.1 == 200 && r.sessionId.None? <==> r.tokenHash.Some? && AsksToOpen(r) && r.verification == TokenValid)
                  && (after.1 == 200 && r.sessionId.None? && r.transportAccepts ==>
                        at.newId in after.0.sessions && after.0.sessions[at.newId] == Session(r.tokenHash.value, at.open)))
            && after.1 in {200, 400, 401, 403, 404, 405, 413, 429, 502}
  {
    hide CheckWindow, LookupSession;
  }

  /** The item opened the session: an initialize request past the gates, with a valid token, which is the session's. */
  predicate Opened(item: Happening, id: nat, hash: nat) {
    && item.Incoming? && item.moments.newId == id && item.request.tokenHash == Some(hash)
    && PastGates(item.request) && AsksToOpen(item.request)
    && item.request.verification == TokenValid && item.request.transportAccepts
  }

  lemma OpensOrKeeps(config: Config, s: Server, r: Request, at: Moments, id: nat)
    requires id in Handle(config, s, r, at).0.sessions
    ensures Opened(Incoming(r, at), id, Handle(config, s, r, at).0.sessions[id].tokenHash) ||
            (id in s.sessions && s.sessions[id].tokenHash == Handle(config, s, r, at).0.sessions[id].tokenHash)
  {
    hide CheckWindow, Route;
    WindowsApart(config, s, s.sessions, Ip(r.address), at.preAuth);
    var ip := CheckWindow(config, s, Ip(r.address), at.preAuth).0;
    if r.tokenHash.Some? {
      WindowsApart(config, ip, ip.sessions, TokenHash(r.tokenHash.value), at.auth);
      var token := CheckWindow(config, ip, TokenHash(r.tokenHash.value), at.auth).0;
      if id in Route(config, token, r, r.tokenHash.value, at).0.sessions {
        RouteOpensOrKeeps(config, token, r, r.tokenHash.value, at, id);
      }
    }
  }

  lemma RouteOpensOrKeeps(config: Config, s: Server, r: Request, hash: nat, at: Moments, id: nat)
    requires id in Route(config, s, r, hash, at).0.sessions
    ensures (at.newId == id && Route(config, s, r, hash, at).0.sessions[id].tokenHash == hash && AsksToOpen(r) &&
             r.verification == TokenValid && r.transportAccepts) ||
            (id in s.sessions && s.sessions[id].tokenHash == Route(config, s, r, hash, at).0.sessions[id].tokenHash)
  {
  }

  /** Every session of the server goes back to a request that passed the gates and whose token, the session's, was verified. */
  lemma {:induction false} SessionOrigin(config: Config, items: seq<Happening>, id: nat) returns (i: nat)
    requires id in Tables(config, items).sessions
    ensures i < |items| && Opened(items[i], id, Tables(config, items).sessions[id].tokenHash)
  {
    hide Handle, Opened;
    var init := FrontOf(items);
    match items[|items| - 1]
    case Incoming(r, at) =>
      OpensOrKeeps(config, Tables(config, init), r, at, id);
      if Opened(items[|items| - 1], id, Tables(config, items).sessions[id].tokenHash) {
        i := |items| - 1;
      } else {
        i := SessionOrigin(config, init, id);
      }
    case TimerFires(at) =>
      i := SessionOrigin(config, init, id);
  }

  class McpHttpServer {
    var sessions: map<nat, Session>
    var rateWindows: map<Key, Window>
    const config: Config

    function Tables(): Server
      reads this
    {
      Server(sessions, rateWindows)
    }

    constructor (config: Config)
      ensures Tables() == After(config, []) && this.config == config
    {
      sessions, rateWindows, this.config := map[], map[], config;
    }

    method IsRateLimited(key: Key, maximum: nat, now: int) returns (limited: bool)
      requires maximum == MaxFor(config, key)
      modifies this`rateWindows
      ensures Tables() == CheckWindow(config, old(Tables()), key, now).0
      ensures limited <==> CheckWindow(config, old(Tables()), key, now).1 == Limited
    {
      if key !in rateWindows || now - rateWindows[key].startedAt > config.windowMs {
        rateWindows := rateWindows[key := Window(1, now)];
        return false;
      }
      rateWindows := rateWindows[key := rateWindows[key].(count := rateWindows[key].count + 1)];
      limited := rateWindows[key].count > maximum;
    }

    /** The sweep timer's callback. */
    method SweepTables(now: int)
      modifies this
      ensures Tables() == Swept(config, old(Tables()), now)
    {
      SweepSessions(now);
      SweepWindows(now);
    }

    method SweepSessions(now: int)
      modifies this`sessions
      ensures sessions == Swept(config, old(Tables()), now).sessions
    {
      var ids := sessions.Keys;
      while ids != {}
        invariant ids <= sessions.Keys <= old(sessions).Keys
        invariant forall id :: id in sessions ==> sessions[id] == old(sessions)[id]
        invariant forall id :: id in old(sessions) && id !in ids ==> (id in sessions <==> Fresh(config, old(sessions)[id], now))
        decreases |ids|
      {
        var id :| id in ids;
        if now - sessions[id].lastSeenAt > config.sessionTtlMs {
          sessions := sessions - {id};
        }
        ids := ids - {id};
      }
    }

    method SweepWindows(now: int)
      modifies this`rateWindows
      ensures rateWindows == Swept(config, old(Tables()), now).windows
    {
      var keys := rateWindows.Keys;
      while keys != {}
        invariant keys <= rateWindows.Keys <= old(rateWindows).Keys
        invariant forall key :: key in rateWindows ==> rateWindows[key] == old(rateWindows)[key]
        invariant forall key :: key in old(rateWindows) && key !in keys ==>
          (key in rateWindows <==> Current(config, old(rateWindows)[key], now))
        decreases |keys|
      {
        var key :| key in keys;
        if now - rateWindows[key].startedAt > config.windowMs {
          rateWindows := rateWindows - {key};
        }
        keys := keys - {key};
      }
    }

    method HandleMcpRequest(r: Request, at: Moments) returns (status: int)
      modifies this
      ensures (Tables(), status) == Handle(config, old(Tables()), r, at)
    {
      if !r.originAllowed {
        return FORBIDDEN;
      }
      if !r.hostAllowed {
        return FORBIDDEN;
      }
      if r.verb != Post && r.verb != Get && r.verb != Delete {
        return METHOD_NOT_ALLOWED;
      }
      var limited := IsRateLimited(Ip(r.address), config.preAuthMax, at.preAuth);
      if limited {
        return TOO_MANY_REQUESTS;
      }
      if r.tokenHash.None? {
        return UNAUTHORIZED;
      }
      limited := IsRateLimited(TokenHash(r.tokenHash.value), config.rateMax, at.auth);
      if limited {
        return TOO_MANY_REQUESTS;
      }
      if r.verb == Post && r.body == Oversized {
        return TOO_LARGE;
      }
      if r.verb == Post && r.body == Invalid {
        return BAD_REQUEST;
      }
      if r.sessionId.Some? {
        var id := r.sessionId.value;
        if id !in sessions || sessions[id].tokenHash != r.tokenHash.value || at.lookup - sessions[id].lastSeenAt > config.sessionTtlMs {
          return NOT_FOUND;
        }
        sessions := sessions[id := sessions[id].(lastSeenAt := at.lookup)];
        if r.verb == Delete && r.transportAccepts {
          sessions := sessions - {id};
        }
        return HANDLED;
      }
      if r.verb != Post {
        return BAD_REQUEST;
      }
      if r.body != Initialize {
        return BAD_REQUEST;
      }
      match r.verification
      case Unreachable => status := BAD_GATEWAY;
      case TokenInvalid => status := UNAUTHORIZED;
      case TokenValid =>
        if r.transportAccepts {
          sessions := sessions[at.newId := Session(r.tokenHash.value, at.open)];
        }
        status := HANDLED;
    }
  }
}
