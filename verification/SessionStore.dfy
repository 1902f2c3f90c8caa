/** internal/auth/session.go: sessions with sliding expiry, removed lazily and by sweeps. */
module SessionStore {
  import opened Basics

  /** In nanoseconds, as all times here. */
  const DAY: int := 86_400_000_000_000

  datatype Record = Record(clientID: string, expiresAt: int)

  type Store = map<string, Record>

  // ---------- One call ----------

  predicate Found(s: Store, id: string, now: int) {
    id in s && now <= s[id].expiresAt
  }

  /** GetByClientID compares with Before: a session at its very expiry is not listed. */
  function Listed(s: Store, clientID: string, now: int): set<string> {
    set id | id in s && s[id].clientID == clientID && now < s[id].expiresAt
  }

  function Fetched(s: Store, ttl: int, id: string, now: int): Store {
    if id !in s then s
    else if now > s[id].expiresAt then s - {id}
    else s[id := Record(s[id].clientID, now + ttl)]
  }

  function Swept(s: Store, now: int): Store {
    map id | id in s && now <= s[id].expiresAt :: s[id]
  }

  /** A sweep that has still to visit `todo`. */
  function SweptBut(s: Store, todo: set<string>, now: int): Store {
    map id | id in s && (id in todo || now <= s[id].expiresAt) :: s[id]
  }

  lemma SweepOne(s: Store, todo: set<string>, id: string, now: int)
    requires id in todo && todo <= s.Keys
    ensures var before := SweptBut(s, todo, now);
            id in before && before[id] == s[id] &&
            SweptBut(s, todo - {id}, now) == if now > s[id].expiresAt then before - {id} else before
  {}

  class Session {
    const id: string
    const clientID: string
    var lastAccess: int
    var expiresAt: int

    constructor (id: string, clientID: string, now: int, ttl: int)
      ensures this.id == id && this.clientID == clientID && lastAccess == now && expiresAt == now + ttl
    {
      this.id, this.clientID := id, clientID;
      lastAccess, expiresAt := now, now + ttl;
    }
  }

  function Ids(r: seq<Session>): set<string> {
    if r == [] then {} else Ids(Front(r)) + {Last(r).id}
  }

  lemma OneMoreId(r: seq<Session>, session: Session)
    requires session.id !in Ids(r)
    ensures Ids(r + [session]) == Ids(r) + {session.id} && |Ids(r + [session])| == |Ids(r)| + 1
  {
    FrontLast(r, session);
  }

  lemma OneLess(all: set<string>, todo: set<string>, id: string)
    requires id in todo
    ensures all - (todo - {id}) == if id in all then (all - todo) + {id} else all - todo
  {}

  lemma WithoutOneMore(s: Store, ids: set<string>, id: string)
    ensures s - ids - {id} == s - (ids + {id})
  {}

  lemma DeletedOneMore(s: Store, listed: seq<Session>, k: nat)
    requires k < |listed|
    ensures s - Ids(listed[..k]) - {listed[k].id} == s - Ids(listed[..k + 1])
  {
    assert listed[..k + 1] == listed[..k] + [listed[k]];
    FrontLast(listed[..k], listed[k]);
    WithoutOneMore(s, Ids(listed[..k]), listed[k].id);
  }

  class Sessions {
    const ttl: int
    var sessions: map<string, Session>
    ghost var repr: set<Session>
    /** The store as a value. */
    ghost var view: Store

    ghost predicate Valid()
      reads this, repr
    {
      && ttl > 0 && sessions.Keys == view.Keys
      && forall id :: id in sessions ==> sessions[id] in repr && Shows(id, sessions[id])
    }

    ghost predicate Shows(id: string, s: Session)
      reads this, s
    {
      s.id == id && id in view && view[id] == Record(s.clientID, s.expiresAt)
    }

    /** `configured` is the parsed duration, or None if it does not parse. */
    constructor (configured: Option<int>)
      ensures Valid() && fresh(repr) && view == map[]
      ensures ttl == if configured.Some? && configured.value > 0 then configured.value else DAY
    {
      ttl := if configured.None? || configured.value <= 0 then DAY else configured.value;
      sessions, repr, view := map[], {}, map[];
    }

    /** `id` is the generated identifier. */
    method Create(id: string, clientID: string, now: int) returns (session: Session)
      requires Valid()
      modifies this
      ensures Valid() && fresh(session) && repr == old(repr) + {session}
      ensures session.id == id && session.clientID == clientID
      ensures view == old(view)[id := Record(clientID, now + ttl)]
    {
      session := new Session(id, clientID, now, ttl);
      sessions := sessions[id := session];
      repr, view := repr + {session}, view[id := Record(clientID, now + ttl)];
    }

    method Get(id: string, now: int) returns (r: Option<Session>)
      requires Valid()
      modifies this, repr
      ensures Valid() && repr == old(repr) && view == Fetched(old(view), ttl, id, now)
      ensures r.Some? <==> Found(old(view), id, now)
      ensures r.Some? ==> sessions == old(sessions) && r.value == sessions[id]
      ensures r.Some? ==> r.value.clientID == old(view)[id].clientID
      ensures r.Some? ==> r.value.id == id && r.value.lastAccess == now && r.value.expiresAt == now + ttl
    {
      if id !in sessions {
        return None;
      }
      var session := sessions[id];
      assert Shows(id, session);
      if now > session.expiresAt {
        sessions, view := sessions - {id}, view - {id};
        return None;
      }
      view := view[id := Record(session.clientID, now + ttl)];
      session.lastAccess := now;
      session.expiresAt := now + ttl;
      return Some(session);
    }

    method Delete(id: string)
      requires Valid()
      modifies this
      ensures Valid() && repr == old(repr) && view == old(view) - {id}
    {
      sessions, view := sessions - {id}, view - {id};
    }

    /** The very objects stored, each the client's and not expired. */
    ghost predicate AreLive(r: seq<Session>, clientID: string, now: int)
      reads this, r
    {
      forall s :: s in r ==> s.id in sessions && sessions[s.id] == s && s.clientID == clientID && now < s.expiresAt
    }

    /** The result's order is the map's iteration order, which is arbitrary. */
    method GetByClientID(clientID: string, now: int) returns (r: seq<Session>)
      requires Valid()
      ensures Ids(r) == Listed(view, clientID, now) && |r| == |Ids(r)|
      ensures AreLive(r, clientID, now)
    {
      r := [];
      var todo := sessions.Keys;
      while todo != {}
        invariant todo <= sessions.Keys
        invariant Ids(r) == Listed(view, clientID, now) - todo && |r| == |Ids(r)|
        invariant AreLive(r, clientID, now)
        decreases todo
      {
        var id :| id in todo;
        var session := sessions[id];
        Considered(r, todo, id, clientID, now);
        if session.clientID == clientID && now < session.expiresAt {
          r := r + [session];
        }
        todo := todo - {id};
      }
    }

    /** One visit of the listing. */
    lemma Considered(r: seq<Session>, todo: set<string>, id: string, clientID: string, now: int)
      requires Valid() && id in todo && todo <= sessions.Keys && AreLive(r, clientID, now)
      requires Ids(r) == Listed(view, clientID, now) - todo && |r| == |Ids(r)|
      ensures var s := sessions[id];
              var t := if s.clientID == clientID && now < s.expiresAt then r + [s] else r;
              && AreLive(t, clientID, now)
              && Ids(t) == Listed(view, clientID, now) - (todo - {id}) && |t| == |Ids(t)|
    {
      var s := sessions[id];
      assert Shows(id, s);
      OneLess(Listed(view, clientID, now), todo, id);
      if s.clientID == clientID && now < s.expiresAt {
        OneMoreId(r, s);
      }
    }

    /** One visit of the sweep. */
    method DropExpired(id: string, now: int)
      requires Valid() && id in sessions
      modifies this
      ensures Valid() && repr == old(repr)
      ensures view == if now > old(view)[id].expiresAt then old(view) - {id} else old(view)
    {
      assert Shows(id, sessions[id]);
      if now > sessions[id].expiresAt {
        sessions, view := sessions - {id}, view - {id};
      }
    }

    method Cleanup(now: int)
      requires Valid()
      modifies this
      ensures Valid() && repr == old(repr) && view == Swept(old(view), now)
    {
      ghost var was := view;
      var todo := sessions.Keys;
      while todo != {}
        invariant Valid() && repr == old(repr)
        invariant todo <= was.Keys && view == SweptBut(was, todo, now)
        decreases todo
      {
        var id :| id in todo;
        SweepOne(was, todo, id, now);
        DropExpired(id, now);
        todo := todo - {id};
      }
      assert SweptBut(was, {}, now) == Swept(was, now);
    }

    /** The session part of HandleLogout (internal/auth/oauth.go). */
    method Logout(clientID: string, now: int)
      requires Valid()
      modifies this
      ensures Valid() && repr == old(repr)
      ensures view == old(view) - Listed(old(view), clientID, now)
    {
      ghost var was := view;
      var listed := GetByClientID(clientID, now);
      for k := 0 to |listed|
        invariant Valid() && repr == old(repr)
        invariant view == was - Ids(listed[..k])
      {
        DeletedOneMore(was, listed, k);
        Delete(listed[k].id);
      }
      assert listed[..|listed|] == listed;
    }
  }

  // ---------- Runs ----------

  datatype Op =
    | CreateOp(id: string, clientID: string, at: int)
    | GetOp(id: string, at: int)
    | DeleteOp(id: string, at: int)
    | ListOp(clientID: string, at: int)
    | CleanupOp(at: int)

  function Step(s: Store, ttl: int, op: Op): Store {
    match op
    case CreateOp(id, clientID, at) => s[id := Record(clientID, at + ttl)]
    case GetOp(id, at) => Fetched(s, ttl, id, at)
    case DeleteOp(id, _) => s - {id}
    case ListOp(_, _) => s
    case CleanupOp(at) => Swept(s, at)
  }

  function After(s: Store, ttl: int, ops: seq<Op>): Store {
    if ops == [] then s else Step(After(s, ttl, Front(ops)), ttl, Last(ops))
  }

  /** A store that never removes an expired session. */
  function Keeping(ttl: int, ops: seq<Op>): Store {
    if ops == [] then map[]
    else
      var s := Keeping(ttl, Front(ops));
      match Last(ops)
      case GetOp(id, at) => if Found(s, id, at) then Step(s, ttl, Last(ops)) else s
      case CleanupOp(_) => s
      case _ => Step(s, ttl, Last(ops))
  }

  predicate NoneAfter(ops: seq<Op>, now: int) {
    forall i :: 0 <= i < |ops| ==> ops[i].at <= now
  }

  predicate TimeOrdered(ops: seq<Op>) {
    ops == [] || (TimeOrdered(Front(ops)) && NoneAfter(Front(ops), Last(ops).at))
  }

  // ---------- Lazy deletion is invisible ----------

  lemma {:induction false} RemovedAreExpired(ttl: int, ops: seq<Op>, id: string, now: int)
    requires TimeOrdered(ops) && NoneAfter(ops, now)
    ensures var s, k := After(map[], ttl, ops), Keeping(ttl, ops);
            && (id in s ==> id in k && k[id] == s[id])
            && (id in k && id !in s ==> now > k[id].expiresAt)
  {
    if ops != [] {
      assert Last(ops).at <= now;
      RemovedAreExpired(ttl, Front(ops), id, Last(ops).at);
    }
  }

  /** Removing expired sessions early or late changes no answer of Get or GetByClientID. */
  lemma SameAnswers(ttl: int, ops: seq<Op>, now: int)
    requires TimeOrdered(ops) && NoneAfter(ops, now)
    ensures forall id :: Found(After(map[], ttl, ops), id, now) <==> Found(Keeping(ttl, ops), id, now)
    ensures forall c :: Listed(After(map[], ttl, ops), c, now) == Listed(Keeping(ttl, ops), c, now)
  {
    forall id {
      RemovedAreExpired(ttl, ops, id, now);
    }
  }

  // ---------- Sliding expiry ----------

  /** When the session was created and looked up since, whether or not it was found. */
  function Accesses(ops: seq<Op>, id: string): seq<int> {
    if ops == [] then []
    else
      var a := Accesses(Front(ops), id);
      match Last(ops)
      case CreateOp(i, _, at) => if i == id then [at] else a
      case GetOp(i, at) => if i == id && a != [] then a + [at] else a
      case DeleteOp(i, _) => if i == id then [] else a
      case _ => a
  }

  predicate GapsWithin(a: seq<int>, ttl: int) {
    forall i :: 0 <= i < |a| - 1 ==> a[i + 1] - a[i] <= ttl
  }

  lemma GapsAppend(a: seq<int>, at: int, ttl: int)
    requires a != []
    ensures GapsWithin(a + [at], ttl) <==> GapsWithin(a, ttl) && at - Last(a) <= ttl
  {
    var b := a + [at];
    if GapsWithin(b, ttl) {
      assert b[|a| - 1 + 1] - b[|a| - 1] <= ttl;
      forall i | 0 <= i < |a| - 1 ensures a[i + 1] - a[i] <= ttl {
        assert b[i + 1] - b[i] <= ttl;
      }
    }
  }

  lemma {:induction false} ExpiryIsLastGood(ttl: int, ops: seq<Op>, id: string, now: int)
    requires TimeOrdered(ops) && NoneAfter(ops, now)
    ensures var a, k := Accesses(ops, id), Keeping(ttl, ops);
            && (id in k <==> a != [])
            && (a != [] ==> Last(a) <= now)
            && (a != [] ==> if GapsWithin(a, ttl) then k[id].expiresAt == Last(a) + ttl else k[id].expiresAt < Last(a))
  {
    if ops != [] {
      assert Last(ops).at <= now;
      ExpiryIsLastGood(ttl, Front(ops), id, Last(ops).at);
      var a := Accesses(Front(ops), id);
      if Last(ops).GetOp? && Last(ops).id == id && a != [] {
        GapsAppend(a, Last(ops).at, ttl);
      }
    }
  }

  /** Get succeeds exactly while every gap between accesses is at most the TTL. */
  lemma FoundIffGapsWithin(ttl: int, ops: seq<Op>, id: string, now: int)
    requires TimeOrdered(ops) && NoneAfter(ops, now)
    ensures Found(After(map[], ttl, ops), id, now) <==>
            Accesses(ops, id) != [] && GapsWithin(Accesses(ops, id) + [now], ttl)
  {
    SameAnswers(ttl, ops, now);
    ExpiryIsLastGood(ttl, ops, id, now);
    if Accesses(ops, id) != [] {
      GapsAppend(Accesses(ops, id), now, ttl);
    }
  }

  /** After a sweep exactly the sessions are left that a lookup would find. */
  lemma SweptIff(ttl: int, ops: seq<Op>, id: string, now: int)
    requires TimeOrdered(ops) && NoneAfter(ops, now)
    ensures id in After(map[], ttl, ops + [CleanupOp(now)]) <==>
            Accesses(ops, id) != [] && GapsWithin(Accesses(ops, id) + [now], ttl)
  {
    FrontLast(ops, CleanupOp(now));
    FoundIffGapsWithin(ttl, ops, id, now);
  }

  /** A lookup that does not find the session leaves none under its id. */
  lemma LookedUpIff(ttl: int, ops: seq<Op>, id: string, now: int)
    requires TimeOrdered(ops) && NoneAfter(ops, now)
    ensures id in After(map[], ttl, ops + [GetOp(id, now)]) <==>
            Accesses(ops, id) != [] && GapsWithin(Accesses(ops, id) + [now], ttl)
  {
    FrontLast(ops, GetOp(id, now));
    FoundIffGapsWithin(ttl, ops, id, now);
  }

  /** The client the session was last created for. */
  function Owner(ops: seq<Op>, id: string): Option<string> {
    if ops == [] then None
    else if Last(ops).CreateOp? && Last(ops).id == id then Some(Last(ops).clientID)
    else Owner(Front(ops), id)
  }

  lemma {:induction false} OwnerIsKept(ttl: int, ops: seq<Op>, id: string)
    ensures id in Keeping(ttl, ops) ==> Owner(ops, id) == Some(Keeping(ttl, ops)[id].clientID)
  {
    if ops != [] {
      OwnerIsKept(ttl, Front(ops), id);
    }
  }

  /** GetByClientID lists exactly the sessions created for the client whose accesses have no gap
      over the TTL and whose last access is less than the TTL ago. */
  lemma {:induction false} ListedIff(ttl: int, ops: seq<Op>, clientID: string, now: int, id: string)
    requires TimeOrdered(ops) && NoneAfter(ops, now) && ttl > 0
    ensures id in Listed(After(map[], ttl, ops), clientID, now) <==>
            var a := Accesses(ops, id);
            a != [] && GapsWithin(a, ttl) && now - Last(a) < ttl && Owner(ops, id) == Some(clientID)
  {
    SameAnswers(ttl, ops, now);
    ExpiryIsLastGood(ttl, ops, id, now);
    OwnerIsKept(ttl, ops, id);
    assert id in Listed(After(map[], ttl, ops), clientID, now) <==> id in Listed(Keeping(ttl, ops), clientID, now);
  }

  // ---------- Logout ----------

  /** A logout touches nobody else's sessions. */
  lemma LogoutSparesOthers(s: Store, clientID: string, t: int, id: string)
    requires id in s && s[id].clientID != clientID
    ensures var r := s - Listed(s, clientID, t); id in r && r[id] == s[id]
  {}

  /** After a logout at t, a session the client had is retrievable at `now` >= t exactly when
      its expiry is t itself and the lookup happens at that same instant. */
  lemma LogoutIff(s: Store, clientID: string, t: int, id: string, now: int)
    requires id in s && s[id].clientID == clientID && t <= now
    ensures Found(s - Listed(s, clientID, t), id, now) <==> s[id].expiresAt == t && now == t
  {}

  /** The operations of a run from t on that do not create the id again. */
  predicate From(ops: seq<Op>, t: int, id: string) {
    forall i :: 0 <= i < |ops| ==> ops[i].at >= t && !(ops[i].CreateOp? && ops[i].id == id)
  }

  /** Unless the session expires at the instant of the logout, or once time has moved past it,
      no run brings such a session back. */
  lemma {:induction false} LogoutIsFinal(s: Store, ttl: int, clientID: string, t: int, ops: seq<Op>,
                                         id: string, now: int)
    requires id in s && s[id].clientID == clientID && now > t
    requires From(ops, t, id) && (s[id].expiresAt != t || forall i :: 0 <= i < |ops| ==> ops[i].at > t)
    ensures !Found(After(s - Listed(s, clientID, t), ttl, ops), id, now)
    ensures var r := After(s - Listed(s, clientID, t), ttl, ops);
            id in r ==> r[id].expiresAt == s[id].expiresAt <= t
  {
    if ops != [] {
      assert Last(ops).at >= t;
      LogoutIsFinal(s, ttl, clientID, t, Front(ops), id, now);
    }
  }

  /** A session that expires at the instant of the logout is revived by a lookup at that instant. */
  lemma LookupRevives(s: Store, ttl: int, clientID: string, t: int, id: string)
    requires ttl > 0 && id in s && s[id].clientID == clientID && s[id].expiresAt == t
    ensures From([GetOp(id, t)], t, id)
    ensures Found(After(s - Listed(s, clientID, t), ttl, [GetOp(id, t)]), id, t + 1)
  {
    assert Front([GetOp(id, t)]) == [];
  }

  /** After a logout at t, operations from t on leave the session retrievable at a later time. */
  predicate Revives(s: Store, ttl: int, clientID: string, t: int, id: string, ops: seq<Op>, now: int) {
    From(ops, t, id) && now > t && Found(After(s - Listed(s, clientID, t), ttl, ops), id, now)
  }

  /** Over all runs: after a logout at t no operations from t on make a session of the client
      retrievable at any later time, iff the session did not expire at t itself. */
  lemma {:induction false} LogoutIsFinalIff(s: Store, ttl: int, clientID: string, t: int, id: string)
    requires ttl > 0 && id in s && s[id].clientID == clientID
    ensures (forall ops, now :: !Revives(s, ttl, clientID, t, id, ops, now)) <==> s[id].expiresAt != t
  {
    if s[id].expiresAt != t {
      forall ops, now | From(ops, t, id) && now > t
        ensures !Revives(s, ttl, clientID, t, id, ops, now)
      {
        LogoutIsFinal(s, ttl, clientID, t, ops, id, now);
      }
    } else {
      LookupRevives(s, ttl, clientID, t, id);
      assert Revives(s, ttl, clientID, t, id, [GetOp(id, t)], t + 1);
    }
  }

  /** The boundary matters: a lookup at the instant of the logout revives a session that
      expires at that instant. */
  lemma LogoutBoundary(ttl: int) returns (s: Store, ops: seq<Op>)
    requires ttl > 0
    ensures s == map["id" := Record("client", 5)] && ops == [GetOp("id", 5)]
    ensures Found(After(s - Listed(s, "client", 5), ttl, ops), "id", 6)
  {
    s, ops := map["id" := Record("client", 5)], [GetOp("id", 5)];
    assert Listed(s, "client", 5) == {};
    assert s - {} == s;
    assert Front(ops) == [];
  }
}
