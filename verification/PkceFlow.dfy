/** internal/auth/oauth.go: the state cache of the authorization code flow with PKCE
    (section 4 of RFC 7636). Each stored verifier may be exchanged once, soon, and by
    the browser that started the flow. Times are in nanoseconds. */
module PkceFlow {
  import opened Basics

  const TEN_MINUTES: int := 600_000_000_000

  datatype Pending = Pending(verifier: string, createdAt: int)

  type Table = map<string, Pending>

  datatype Outcome =
    | MissingCode
    | MissingState
    | CsrfFailed
    | UnknownState
    | StateExpired
    | Exchanged(code: string, verifier: string)

  // ---------- One request ----------

  /** The request passes the checks that precede the lookup. */
  predicate Presents(code: string, state: string, cookie: Option<string>) {
    code != "" && state != "" && cookie == Some(state)
  }

  function Callback(t: Table, code: string, state: string, cookie: Option<string>, now: int): Outcome {
    if code == "" then MissingCode
    else if state == "" then MissingState
    else if cookie != Some(state) then CsrfFailed
    else if state !in t then UnknownState
    else if now - t[state].createdAt > TEN_MINUTES then StateExpired
    else Exchanged(code, t[state].verifier)
  }

  function Swept(t: Table, now: int): Table {
    map s | s in t && now - t[s].createdAt <= TEN_MINUTES :: t[s]
  }

  class StateCache {
    var entries: Table

    constructor ()
      ensures entries == map[]
    {
      entries := map[];
    }

    /** `state` and `verifier` are the random values the handler generates. */
    method HandleAuthStart(state: string, verifier: string, now: int)
      modifies this
      ensures entries == old(entries)[state := Pending(verifier, now)]
    {
      entries := entries[state := Pending(verifier, now)];
    }

    method HandleCallback(code: string, state: string, cookie: Option<string>, now: int) returns (r: Outcome)
      modifies this
      ensures r == Callback(old(entries), code, state, cookie, now)
      ensures entries == if Presents(code, state, cookie) then old(entries) - {state} else old(entries)
    {
      if code == "" {
        return MissingCode;
      }
      if state == "" {
        return MissingState;
      }
      if cookie.None? || cookie.value != state {
        return CsrfFailed;
      }
      var found := state in entries;
      if !found {
        assert entries == entries - {state};
        return UnknownState;
      }
      var entry := entries[state];
      entries := entries - {state};
      if now - entry.createdAt > TEN_MINUTES {
        return StateExpired;
      }
      return Exchanged(code, entry.verifier);
    }

    /** The state cache part of runCleanup, in any iteration order. */
    method RunCleanup(now: int)
      modifies this
      ensures entries == Swept(old(entries), now)
    {
      var todo := entries.Keys;
      while todo != {}
        invariant todo <= entries.Keys <= old(entries).Keys
        invariant forall s :: s in entries ==> entries[s] == old(entries)[s]
        invariant forall s :: s in old(entries) && s !in todo ==>
                    (s in entries <==> now - old(entries)[s].createdAt <= TEN_MINUTES)
        decreases todo
      {
        var s :| s in todo;
        if now - entries[s].createdAt > TEN_MINUTES {
          entries := entries - {s};
        }
        todo := todo - {s};
      }
    }
  }

  // ---------- Runs ----------

  /** A sweep either happens at once, or entry by entry among the other events: it compares an
      entry with its clock reading `readAt` and deletes the entry's state later, in a DropEvent. */
  datatype Event =
    | StartEvent(state: string, verifier: string, at: int)
    | CallbackEvent(code: string, state: string, cookie: Option<string>, at: int)
    | SweepEvent(at: int)
    | DropEvent(state: string, readAt: int, at: int)

  function Step(t: Table, e: Event): Table {
    match e
    case StartEvent(state, verifier, at) => t[state := Pending(verifier, at)]
    case CallbackEvent(code, state, cookie, at) => if Presents(code, state, cookie) then t - {state} else t
    case SweepEvent(at) => Swept(t, at)
    case DropEvent(state, _, _) => t - {state}
  }

  function After(events: seq<Event>): Table {
    if events == [] then map[] else Step(After(Front(events)), Last(events))
  }

  /** What the event sends to the token endpoint, if anything. */
  function Exchange(t: Table, e: Event): Option<(string, string)> {
    if e.CallbackEvent? then
      match Callback(t, e.code, e.state, e.cookie, e.at)
      case Exchanged(code, verifier) => Some((code, verifier))
      case _ => None
    else None
  }

  /** Everything sent to the token endpoint, in order. */
  function Exchanges(events: seq<Event>): seq<(string, string)> {
    if events == [] then []
    else
      var x := Exchange(After(Front(events)), Last(events));
      if x.Some? then Exchanges(Front(events)) + [x.value] else Exchanges(Front(events))
  }

  // ---------- One-time use ----------

  function TimesStarted(events: seq<Event>, verifier: string): nat {
    if events == [] then 0
    else TimesStarted(Front(events), verifier) +
         if Last(events).StartEvent? && Last(events).verifier == verifier then 1 else 0
  }

  function TimesExchanged(xs: seq<(string, string)>, verifier: string): nat {
    if xs == [] then 0
    else TimesExchanged(Front(xs), verifier) + if Last(xs).1 == verifier then 1 else 0
  }

  function Holding(t: Table, verifier: string): set<string> {
    set s | s in t && t[s].verifier == verifier
  }

  lemma StartHolds(t: Table, state: string, v: string, at: int, verifier: string)
    ensures |Holding(t[state := Pending(v, at)], verifier)| <= |Holding(t, verifier)| + if v == verifier then 1 else 0
  {
    var held := Holding(t, verifier);
    if v == verifier {
      SubsetSize(Holding(t[state := Pending(v, at)], verifier), held + {state});
    } else {
      SubsetSize(Holding(t[state := Pending(v, at)], verifier), held);
    }
  }

  lemma ConsumeHolds(t: Table, state: string, verifier: string)
    ensures |Holding(t - {state}, verifier)| ==
            |Holding(t, verifier)| - if state in t && t[state].verifier == verifier then 1 else 0
  {
    var held := Holding(t, verifier);
    assert Holding(t - {state}, verifier) == held - {state};
  }

  lemma SweepHolds(t: Table, now: int, verifier: string)
    ensures |Holding(Swept(t, now), verifier)| <= |Holding(t, verifier)|
  {
    SubsetSize(Holding(Swept(t, now), verifier), Holding(t, verifier));
  }

  /** However states and verifiers repeat, a verifier is exchanged no more often than it was started. */
  lemma {:induction false} ExchangesAreStarted(events: seq<Event>, verifier: string)
    ensures TimesExchanged(Exchanges(events), verifier) + |Holding(After(events), verifier)|
            <= TimesStarted(events, verifier)
  {
    if events != [] {
      ExchangesAreStarted(Front(events), verifier);
      var t := After(Front(events));
      var x := Exchange(t, Last(events));
      if x.Some? {
        FrontLast(Exchanges(Front(events)), x.value);
      }
      match Last(events)
      case StartEvent(state, v, at) => StartHolds(t, state, v, at, verifier);
      case CallbackEvent(_, state, _, _) => ConsumeHolds(t, state, verifier);
      case SweepEvent(at) => SweepHolds(t, at, verifier);
      case DropEvent(state, _, _) => ConsumeHolds(t, state, verifier);
    }
  }

  /** With fresh verifiers, each reaches the token exchange at most once. */
  lemma OneTimeUse(events: seq<Event>, verifier: string)
    requires TimesStarted(events, verifier) <= 1
    ensures TimesExchanged(Exchanges(events), verifier) <= 1
  {
    ExchangesAreStarted(events, verifier);
  }

  // ---------- When a callback exchanges ----------

  /** The pending start of `state` as history tells it, ignoring sweeps and expiry. */
  function Unused(events: seq<Event>, state: string): Option<Pending> {
    if events == [] then None
    else match Last(events)
      case StartEvent(s, verifier, at) =>
        if s == state then Some(Pending(verifier, at)) else Unused(Front(events), state)
      case CallbackEvent(code, s, cookie, at) =>
        if s == state && Presents(code, s, cookie) then None else Unused(Front(events), state)
      case SweepEvent(_) => Unused(Front(events), state)
      case DropEvent(_, _, _) => Unused(Front(events), state)
  }

  predicate NoneAfter(events: seq<Event>, now: int) {
    forall i :: 0 <= i < |events| ==> events[i].at <= now
  }

  predicate TimeOrdered(events: seq<Event>) {
    events == [] ||
    (TimeOrdered(Front(events)) && NoneAfter(Front(events), Last(events).at))
  }

  /** What a sweep drops entry by entry is then too old to matter. */
  predicate DropsAreOld(events: seq<Event>) {
    events == [] ||
    (DropsAreOld(Front(events)) &&
     (Last(events).DropEvent? ==>
        var start := Unused(Front(events), Last(events).state);
        start.Some? ==> Last(events).at - start.value.createdAt > TEN_MINUTES))
  }

  /** The table holds the unused starts, except some that are too old to matter. */
  lemma {:induction false} TableIsUnused(events: seq<Event>, state: string, now: int)
    requires TimeOrdered(events) && DropsAreOld(events) && NoneAfter(events, now)
    ensures var t := After(events);
            && (state in t ==> Unused(events, state) == Some(t[state]))
            && (Unused(events, state).Some? && state !in t ==>
                  now - Unused(events, state).value.createdAt > TEN_MINUTES)
  {
    if events != [] {
      assert Last(events).at <= now;
      TableIsUnused(Front(events), state, Last(events).at);
    }
  }

  /** A callback exchanges exactly the verifier of the unused start of its own state, within
      ten minutes, and only with a cookie equal to that state. */
  lemma {:induction false} ExchangeIff(events: seq<Event>, code: string, state: string,
                                       cookie: Option<string>, now: int, verifier: string)
    requires TimeOrdered(events) && DropsAreOld(events) && NoneAfter(events, now)
    ensures Callback(After(events), code, state, cookie, now) == Exchanged(code, verifier) <==>
            && Presents(code, state, cookie)
            && Unused(events, state).Some? && Unused(events, state).value.verifier == verifier
            && now - Unused(events, state).value.createdAt <= TEN_MINUTES
  {
    TableIsUnused(events, state, now);
  }

  /** After a sweep exactly the unused starts of the last ten minutes are left. */
  lemma {:induction false} SweptIff(events: seq<Event>, state: string, now: int)
    requires TimeOrdered(events) && DropsAreOld(events) && NoneAfter(events, now)
    ensures state in After(events + [SweepEvent(now)]) <==>
            Unused(events, state).Some? && now - Unused(events, state).value.createdAt <= TEN_MINUTES
  {
    FrontLast(events, SweepEvent(now));
    TableIsUnused(events, state, now);
  }

  /** Why a callback is refused, over whole runs: the checks in their order, then a state that
      has no unused start, or one more than ten minutes ago. */
  lemma {:induction false} RefusalIs(events: seq<Event>, code: string, state: string, cookie: Option<string>, now: int)
    requires TimeOrdered(events) && DropsAreOld(events) && NoneAfter(events, now)
    ensures var r := Callback(After(events), code, state, cookie, now);
            var start := Unused(events, state);
            if code == "" then r == MissingCode
            else if state == "" then r == MissingState
            else if cookie != Some(state) then r == CsrfFailed
            else if start.None? then r == UnknownState
            else if now - start.value.createdAt > TEN_MINUTES then
              r == if state in After(events) then StateExpired else UnknownState
            else r == Exchanged(code, start.value.verifier)
  {
    TableIsUnused(events, state, now);
  }

  /** An unused start is a start event of that state. */
  lemma {:induction false} UnusedWasStarted(events: seq<Event>, state: string) returns (j: nat)
    requires Unused(events, state).Some?
    ensures var start := Unused(events, state).value;
            j < |events| && events[j] == StartEvent(state, start.verifier, start.createdAt)
  {
    if Last(events).StartEvent? && Last(events).state == state {
      j := |events| - 1;
    } else {
      j := UnusedWasStarted(Front(events), state);
    }
  }

  // ---------- Sweeps do not matter ----------

  function WithoutSweeps(events: seq<Event>): seq<Event> {
    if events == [] then []
    else if Last(events).SweepEvent? || Last(events).DropEvent? then WithoutSweeps(Front(events))
    else WithoutSweeps(Front(events)) + [Last(events)]
  }

  lemma {:induction false} KeptEvents(events: seq<Event>, i: nat)
    requires i < |WithoutSweeps(events)|
    ensures WithoutSweeps(events)[i] in events
  {
    if i < |WithoutSweeps(Front(events))| {
      KeptEvents(Front(events), i);
      assert events == Front(events) + [Last(events)];
    }
  }

  lemma {:induction false} KeptOrder(events: seq<Event>)
    requires TimeOrdered(events)
    ensures TimeOrdered(WithoutSweeps(events)) && DropsAreOld(WithoutSweeps(events))
  {
    if events != [] {
      KeptOrder(Front(events));
      FrontLast(WithoutSweeps(Front(events)), Last(events));
      KeptNoneAfter(Front(events), Last(events).at);
    }
  }

  lemma {:induction false} KeptNoneAfter(events: seq<Event>, now: int)
    requires NoneAfter(events, now)
    ensures NoneAfter(WithoutSweeps(events), now)
  {
    forall i | 0 <= i < |WithoutSweeps(events)| ensures WithoutSweeps(events)[i].at <= now {
      KeptEvents(events, i);
    }
  }

  lemma {:induction false} KeptUnused(events: seq<Event>, state: string)
    ensures Unused(WithoutSweeps(events), state) == Unused(events, state)
  {
    if events != [] {
      KeptUnused(Front(events), state);
      FrontLast(WithoutSweeps(Front(events)), Last(events));
    }
  }

  lemma {:induction false} KeptExchange(events: seq<Event>, e: Event)
    requires TimeOrdered(events) && DropsAreOld(events) && NoneAfter(events, e.at)
    ensures Exchange(After(events), e) == Exchange(After(WithoutSweeps(events)), e)
  {
    if e.CallbackEvent? {
      var kept := WithoutSweeps(events);
      KeptUnused(events, e.state);
      KeptOrder(events);
      KeptNoneAfter(events, e.at);
      TableIsUnused(events, e.state, e.at);
      TableIsUnused(kept, e.state, e.at);
    }
  }

  /** Deleting the sweeps from a run changes nothing that is sent to the token endpoint. */
  lemma {:induction false} SweepsChangeNoExchange(events: seq<Event>)
    requires TimeOrdered(events) && DropsAreOld(events)
    ensures Exchanges(events) == Exchanges(WithoutSweeps(events))
  {
    if events != [] {
      SweepsChangeNoExchange(Front(events));
      KeptExchange(Front(events), Last(events));
      FrontLast(WithoutSweeps(Front(events)), Last(events));
    }
  }

  // ---------- Sweeps among other events ----------

  /** No state is started twice. */
  ghost predicate FreshStates(events: seq<Event>) {
    forall i, j :: 0 <= i < j < |events| && events[i].StartEvent? && events[j].StartEvent? ==>
      events[i].state != events[j].state
  }

  /** The sweep that drops a state has found its entry too old some time before. */
  ghost predicate ReadBefore(events: seq<Event>, i: nat)
    requires i < |events| && events[i].DropEvent?
  {
    events[i].readAt <= events[i].at &&
    exists r :: 0 <= r <= i && FoundOld(After(events[..r]), events[i])
  }

  predicate FoundOld(t: Table, e: Event)
    requires e.DropEvent?
  {
    e.state in t && e.readAt - t[e.state].createdAt > TEN_MINUTES
  }

  lemma {:induction false} TableWasStarted(events: seq<Event>, state: string) returns (j: nat)
    requires state in After(events)
    ensures j < |events|
    ensures events[j] == StartEvent(state, After(events)[state].verifier, After(events)[state].createdAt)
  {
    if Last(events).StartEvent? && Last(events).state == state {
      j := |events| - 1;
    } else {
      j := TableWasStarted(Front(events), state);
    }
  }

  lemma {:induction false} FreshDropsAreOld(events: seq<Event>)
    requires FreshStates(events)
    requires forall i :: 0 <= i < |events| && events[i].DropEvent? ==> ReadBefore(events, i)
    ensures DropsAreOld(events)
  {
    if events != [] {
      var before, e := Front(events), Last(events);
      forall i | 0 <= i < |before| && before[i].DropEvent? ensures ReadBefore(before, i) {
        assert ReadBefore(events, i);
        assert forall r :: 0 <= r <= i ==> before[..r] == events[..r];
      }
      FreshDropsAreOld(before);
      if e.DropEvent? && Unused(before, e.state).Some? {
        var i := |events| - 1;
        assert ReadBefore(events, i);
        var r :| 0 <= r <= i && FoundOld(After(events[..r]), events[i]);
        var j := TableWasStarted(events[..r], e.state);
        var k := UnusedWasStarted(before, e.state);
        assert events[j] == events[..r][j] && events[k] == before[k];
        assert j == k;
      }
    }
  }

  /** With fresh states that holds of sweeps that run among starts and callbacks, too. */
  lemma {:induction false} InterleavedSweepsChangeNoExchange(events: seq<Event>)
    requires TimeOrdered(events) && FreshStates(events)
    requires forall i :: 0 <= i < |events| && events[i].DropEvent? ==> ReadBefore(events, i)
    ensures Exchanges(events) == Exchanges(WithoutSweeps(events))
  {
    FreshDropsAreOld(events);
    SweepsChangeNoExchange(events);
  }
}
