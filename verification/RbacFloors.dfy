/** Session floors over whole runs: one call at a time, and with calls interleaved. */
module RbacFloors {
  import opened Basics
  import opened Rbac

  datatype Call = Call(req: Request, id: Identity)

  // ---------- One call at a time ----------

  function FloorsAfter(p: Policy, calls: seq<Call>): Floors {
    if calls == [] then map[]
    else Raised(p, FloorsAfter(p, Front(calls)), Last(calls).req, Last(calls).id)
  }

  predicate AdmitsTool(p: Policy, floors: Floors, c: Call) {
    c.req.rpcMethod == TOOLS_CALL && Decide(p, floors, c.req, c.id) == Allow
  }

  /** The ranks of the tools/call requests a run admitted in one session, in order. */
  function AdmittedRanks(p: Policy, calls: seq<Call>, session: string): seq<nat>
    requires Classified(p)
  {
    if calls == [] then []
    else
      var before := AdmittedRanks(p, Front(calls), session);
      var c := Last(calls);
      if c.id.sessionID == session && AdmitsTool(p, FloorsAfter(p, Front(calls)), c)
      then before + [Rank(p, c.req.name)] else before
  }

  predicate NonDecreasing(s: seq<nat>) {
    forall i, j :: 0 <= i < j < |s| ==> s[i] <= s[j]
  }

  /** In any run over any sessions and roles, the ranks admitted in a session never decrease,
      and its floor is the last and largest of them. */
  lemma {:induction false} FloorIsLastAdmitted(p: Policy, calls: seq<Call>, session: string)
    requires Classified(p)
    ensures var ranks := AdmittedRanks(p, calls, session);
            && NonDecreasing(ranks)
            && FloorOf(FloorsAfter(p, calls), session) == if ranks == [] then None else Some(Last(ranks))
  {
    if calls != [] {
      FloorIsLastAdmitted(p, Front(calls), session);
    }
  }

  /** The calls of a run that were not denied. */
  function WithoutDenied(p: Policy, calls: seq<Call>): seq<Call> {
    if calls == [] then []
    else
      var c := Last(calls);
      if Decide(p, FloorsAfter(p, Front(calls)), c.req, c.id).Deny? then WithoutDenied(p, Front(calls))
      else WithoutDenied(p, Front(calls)) + [c]
  }

  /** Denied calls leave no trace: a run without them has the same floors, admits the same ranks
      in every session, and denies nothing. */
  lemma {:induction false} DenialsLeaveNoTrace(p: Policy, calls: seq<Call>, session: string)
    ensures var kept := WithoutDenied(p, calls);
            && FloorsAfter(p, kept) == FloorsAfter(p, calls)
            && (Classified(p) ==> AdmittedRanks(p, kept, session) == AdmittedRanks(p, calls, session))
            && WithoutDenied(p, kept) == kept
  {
    if calls != [] {
      DenialsLeaveNoTrace(p, Front(calls), session);
      FrontLast(WithoutDenied(p, Front(calls)), Last(calls));
    }
  }

  /** What a role may call, whatever the session did before. */
  predicate RoleMayCall(p: Policy, role: string, tool: string) {
    role in p.permissions &&
    var perm := p.permissions[role];
    && (perm.allowedMethods.Some? ==> TOOLS_CALL in perm.allowedMethods.value)
    && !perm.denyToolsCall && tool !in perm.denyTools
    && (perm.allowedTools.Some? ==> tool in perm.allowedTools.value)
    && (Classified(p) && perm.maxClassLevel >= 0 ==> Rank(p, tool) <= perm.maxClassLevel)
  }

  /** A tools/call is admitted iff the role may call the tool and, with classification active,
      its rank is at least every rank admitted in the session before. */
  lemma {:induction false} AdmittedIff(p: Policy, calls: seq<Call>, c: Call)
    requires c.req.rpcMethod == TOOLS_CALL
    ensures AdmitsTool(p, FloorsAfter(p, calls), c) <==>
            && RoleMayCall(p, c.id.role, c.req.name)
            && (Classified(p) ==>
                  forall i :: 0 <= i < |AdmittedRanks(p, calls, c.id.sessionID)| ==>
                    AdmittedRanks(p, calls, c.id.sessionID)[i] <= Rank(p, c.req.name))
  {
    if Classified(p) {
      FloorIsLastAdmitted(p, calls, c.id.sessionID);
      var ranks := AdmittedRanks(p, calls, c.id.sessionID);
      if ranks != [] {
        assert Last(ranks) == ranks[|ranks| - 1];
        assert forall i :: 0 <= i < |ranks| ==> ranks[i] <= Last(ranks);
      }
    }
  }

  // ---------- Read and write of the floor as separate steps ----------

  /** A call between its two lock regions: the floor it read, or None. */
  datatype Check = Check(session: string, rank: nat, read: Option<nat>)

  /** `completed` lists the checks that finished, each an admitted call. */
  datatype State = State(floors: Floors, pending: map<nat, Check>, completed: seq<Check>)

  datatype Action =
    | ReadFloor(call: nat, session: string, rank: nat)
    | WriteFloor(call: nat)

  predicate Enabled(s: State, a: Action) {
    match a
    case ReadFloor(call, _, _) => call !in s.pending
    case WriteFloor(call) => call in s.pending
  }

  function Next(s: State, a: Action): State
    requires Enabled(s, a)
  {
    match a
    case ReadFloor(call, session, rank) =>
      var floor := FloorOf(s.floors, session);
      if floor.Some? && rank < floor.value then s
      else s.(pending := s.pending[call := Check(session, rank, floor)])
    case WriteFloor(call) =>
      var c := s.pending[call];
      State(Written(s.floors, c.session, c.rank, c.read.Some?), s.pending - {call}, s.completed + [c])
  }

  /** Uninterrupted, the two steps are the one step of Process. */
  lemma TwoStepsAreOne(p: Policy, s: State, call: nat, req: Request, id: Identity)
    requires Classified(p) && req.rpcMethod == TOOLS_CALL && RoleMayCall(p, id.role, req.name) && call !in s.pending
    ensures var read := Next(s, ReadFloor(call, id.sessionID, Rank(p, req.name)));
            if Decide(p, s.floors, req, id) == Allow
            then Enabled(read, WriteFloor(call)) &&
                 Next(read, WriteFloor(call)).floors == Raised(p, s.floors, req, id)
            else read == s && Raised(p, s.floors, req, id) == s.floors
  {}

  /** A write lowers a session's floor exactly when its check read no floor and the floor
      written meanwhile is higher. */
  lemma WriteLowersIff(s: State, call: nat, session: string)
    requires call in s.pending && session in s.floors
    ensures var after := Next(s, WriteFloor(call)).floors;
            && session in after
            && (after[session] < s.floors[session] <==>
                  var c := s.pending[call];
                  c.session == session && c.read.None? && c.rank < s.floors[session])
  {}

  predicate Possible(s: State, actions: seq<Action>)
    decreases |actions|, 0
  {
    actions == [] || (Possible(s, Front(actions)) && Enabled(After(s, Front(actions)), Last(actions)))
  }

  function After(s: State, actions: seq<Action>): State
    requires Possible(s, actions)
    decreases |actions|, 1
  {
    if actions == [] then s else Next(After(s, Front(actions)), Last(actions))
  }

  /** The session has a floor, it covers every completed check, and no pending check of the
      session read "no floor". */
  ghost predicate Covered(s: State, session: string) {
    && session in s.floors
    && (forall i :: 0 <= i < |s.completed| && s.completed[i].session == session ==>
          s.completed[i].rank <= s.floors[session])
    && (forall k :: k in s.pending && s.pending[k].session == session ==> s.pending[k].read.Some?)
  }

  /** Once that holds it holds in every continuation, in any interleaving of any calls, and the
      floor never decreases. */
  lemma {:induction false} CoveredStays(s: State, session: string, actions: seq<Action>)
    requires Covered(s, session) && Possible(s, actions)
    ensures var t := After(s, actions); Covered(t, session) && s.floors[session] <= t.floors[session]
  {
    if actions != [] {
      CoveredStays(s, session, Front(actions));
      var t := After(s, Front(actions));
      match Last(actions)
      case ReadFloor(call, name, rank) =>
      case WriteFloor(call) => CoveredWrite(t, session, call);
    }
  }

  lemma CoveredWrite(s: State, session: string, call: nat)
    requires Covered(s, session) && call in s.pending
    ensures var t := Next(s, WriteFloor(call)); Covered(t, session) && s.floors[session] <= t.floors[session]
  {
    var t := Next(s, WriteFloor(call));
    var c := s.pending[call];
    forall i | 0 <= i < |t.completed| && t.completed[i].session == session
      ensures t.completed[i].rank <= t.floors[session]
    {
      if i < |s.completed| {
        assert t.completed[i] == s.completed[i];
      }
    }
  }

  // ---------- The floor of any interleaving, from the start ----------

  const START := State(map[], map[], [])

  /** The largest rank among a session's completed checks, from the last one that read no floor. */
  function LargestSinceUnread(completed: seq<Check>, session: string): Option<nat> {
    if completed == [] then None
    else
      var before := LargestSinceUnread(Front(completed), session);
      var c := Last(completed);
      if c.session != session then before
      else if c.read.None? || before.None? then Some(c.rank)
      else Some(Max(before.value, c.rank))
  }

  /** A check that read a floor found one, and floors stay. */
  ghost predicate ReadersHaveFloors(s: State) {
    forall k :: k in s.pending && s.pending[k].read.Some? ==> s.pending[k].session in s.floors
  }

  /** In every interleaving a floor is exactly the largest rank completed since the session's
      last check that read no floor. */
  lemma {:induction false} FloorIsLargestSinceUnread(actions: seq<Action>, session: string)
    requires Possible(START, actions)
    ensures var s := After(START, actions);
            ReadersHaveFloors(s) && FloorOf(s.floors, session) == LargestSinceUnread(s.completed, session)
  {
    if actions != [] {
      FloorIsLargestSinceUnread(Front(actions), session);
      var s := After(START, Front(actions));
      match Last(actions)
      case ReadFloor(call, name, rank) =>
      case WriteFloor(call) => FrontLast(s.completed, s.pending[call]);
    }
  }

  /** How many of a session's completed checks read no floor. */
  function Unread(completed: seq<Check>, session: string): nat {
    if completed == [] then 0
    else Unread(Front(completed), session) +
         if Last(completed).session == session && Last(completed).read.None? then 1 else 0
  }

  function LargestCompleted(completed: seq<Check>, session: string): Option<nat> {
    if completed == [] then None
    else
      var before := LargestCompleted(Front(completed), session);
      var c := Last(completed);
      if c.session != session then before
      else if before.None? then Some(c.rank)
      else Some(Max(before.value, c.rank))
  }

  /** So while at most one check of a session read no floor, its floor is the largest rank it
      completed, as with calls one at a time. */
  lemma {:induction false} OneUnreadCheckIsSafe(actions: seq<Action>, session: string)
    requires Possible(START, actions) && Unread(After(START, actions).completed, session) <= 1
    ensures var s := After(START, actions); FloorOf(s.floors, session) == LargestCompleted(s.completed, session)
    ensures var s := After(START, actions);
            LargestCompleted(s.completed, session).Some? <==> Unread(s.completed, session) > 0
  {
    if actions != [] {
      var s := After(START, Front(actions));
      match Last(actions)
      case ReadFloor(call, name, rank) => OneUnreadCheckIsSafe(Front(actions), session);
      case WriteFloor(call) =>
        FrontLast(s.completed, s.pending[call]);
        OneUnreadCheckIsSafe(Front(actions), session);
        FloorIsLargestSinceUnread(Front(actions), session);
    }
  }

  lemma Extended(s: State, actions: seq<Action>, a: Action)
    requires Possible(s, actions) && Enabled(After(s, actions), a)
    ensures Possible(s, actions + [a]) && After(s, actions + [a]) == Next(After(s, actions), a)
  {
    FrontLast(actions, a);
  }

  /** The condition is needed: two first calls of a session can both read "no floor", and the
      later write takes the floor below a rank already admitted. */
  lemma FloorCanFall(session: string) returns (run: seq<Action>)
    ensures run == [ReadFloor(1, session, 2), ReadFloor(2, session, 0), WriteFloor(1)]
    ensures Possible(START, run) && After(START, run).floors == map[session := 2]
    ensures Possible(START, run + [WriteFloor(2)]) && After(START, run + [WriteFloor(2)]).floors == map[session := 0]
    ensures Check(session, 2, None) in After(START, run + [WriteFloor(2)]).completed
  {
    var high, low := Check(session, 2, None), Check(session, 0, None);
    Extended(START, [], ReadFloor(1, session, 2));
    run := [] + [ReadFloor(1, session, 2)];
    assert After(START, run) == State(map[], map[1 := high], []);
    Extended(START, run, ReadFloor(2, session, 0));
    run := run + [ReadFloor(2, session, 0)];
    assert After(START, run) == State(map[], map[1 := high, 2 := low], []);
    Extended(START, run, WriteFloor(1));
    run := run + [WriteFloor(1)];
    assert After(START, run) == State(map[session := 2], map[2 := low], [high]);
    Extended(START, run, WriteFloor(2));
    assert After(START, run + [WriteFloor(2)]).completed == [high, low];
  }
}
