/** What each kind of role comes to, read off its configuration. */
module RbacRoles {
  import opened Basics
  import opened Rbac
  import opened RbacFloors

  /** The entry that decides a role: the last with its name. */
  function EntryOf(roles: seq<RoleConfig>, role: string): Option<RoleConfig> {
    if roles == [] then None
    else if Last(roles).name == role then Some(Last(roles))
    else EntryOf(Front(roles), role)
  }

  lemma {:induction false} LastEntryWins(roles: seq<RoleConfig>, ranks: Option<map<string, nat>>, role: string)
    ensures var entry := EntryOf(roles, role);
            && (role in CompiledRoles(roles, ranks) <==> entry.Some?)
            && (entry.Some? ==>
                  entry.value.name == role && CompiledRoles(roles, ranks)[role] == Compiled(entry.value, ranks))
  {
    if roles != [] && Last(roles).name != role {
      LastEntryWins(Front(roles), ranks, role);
    }
  }

  predicate Lists(rpcMethod: string) {
    rpcMethod == TOOLS_LIST || rpcMethod == RESOURCES_READ || rpcMethod == PROMPTS_GET
  }

  /** Which requests other than tools/call pass: initialize for everyone, everything for an
      admin, the three listing and reading methods for readonly and restricted, and nothing for
      roles of any other name. */
  lemma {:induction false} MethodsByRole(roles: seq<RoleConfig>, c: Classification, floors: Floors,
                                         req: Request, id: Identity)
    requires req.rpcMethod != TOOLS_CALL
    ensures Decide(NewPolicy(roles, c), floors, req, id) == Allow <==>
            || req.rpcMethod == INITIALIZE
            || (EntryOf(roles, id.role).Some? &&
                (id.role == ADMIN || (id.role in {READ_ONLY, RESTRICTED} && Lists(req.rpcMethod))))
  {
    LastEntryWins(roles, NewPolicy(roles, c).levelRank, id.role);
  }

  /** The index of the last level with a name. */
  lemma {:induction false} RankIsLastIndex(levels: seq<string>, level: string)
    ensures level in LevelRanks(levels) <==> level in levels
    ensures level in levels ==>
              var r := LevelRanks(levels)[level];
              r < |levels| && levels[r] == level && forall j :: r < j < |levels| ==> levels[j] != level
  {
    if levels != [] {
      RankIsLastIndex(Front(levels), level);
      assert levels == Front(levels) + [Last(levels)];
    }
  }

  /** Classification is active iff both levels and assignments are configured. */
  lemma ClassifiedIff(roles: seq<RoleConfig>, c: Classification)
    ensures Classified(NewPolicy(roles, c)) <==> c.levels != [] && c.toolAssignments != map[]
  {}

  /** `i` is the last place of the level. */
  ghost predicate LastPlace(levels: seq<string>, level: string, i: int) {
    0 <= i < |levels| && levels[i] == level && forall j :: i < j < |levels| ==> levels[j] != level
  }

  /** The place that classifies a tool: that of its assigned level, or the lowest if it has none
      or an unknown one. */
  ghost predicate PlaceOfTool(c: Classification, tool: string, i: int) {
    if tool in c.toolAssignments && c.toolAssignments[tool] in c.levels
    then LastPlace(c.levels, c.toolAssignments[tool], i) else i == 0
  }

  /** A tool's rank is its place, and it has no other. */
  lemma {:induction false} RankIsPlace(roles: seq<RoleConfig>, c: Classification, tool: string, i: int)
    requires c.levels != [] && c.toolAssignments != map[]
    ensures PlaceOfTool(c, tool, i) <==> Classified(NewPolicy(roles, c)) && i == Rank(NewPolicy(roles, c), tool)
  {
    if tool in c.toolAssignments {
      RankIsLastIndex(c.levels, c.toolAssignments[tool]);
    }
  }

  /** No tool above the level: the tool's place is not past the level's. */
  ghost predicate NotAbove(c: Classification, level: string, tool: string) {
    forall i, j :: PlaceOfTool(c, tool, i) && LastPlace(c.levels, level, j) ==> i <= j
  }

  lemma {:induction false} NotAboveIsRank(roles: seq<RoleConfig>, c: Classification, level: string, tool: string)
    requires c.levels != [] && c.toolAssignments != map[] && level in c.levels
    ensures level in LevelRanks(c.levels)
    ensures NotAbove(c, level, tool) <==> Rank(NewPolicy(roles, c), tool) <= LevelRanks(c.levels)[level]
  {
    RankIsLastIndex(c.levels, level);
    RankIsPlace(roles, c, tool, Rank(NewPolicy(roles, c), tool));
    assert LastPlace(c.levels, level, LevelRanks(c.levels)[level]);
    forall i, j | PlaceOfTool(c, tool, i) && LastPlace(c.levels, level, j)
      ensures i == Rank(NewPolicy(roles, c), tool) && j == LevelRanks(c.levels)[level]
    {
      RankIsPlace(roles, c, tool, i);
    }
  }

  /** The role's level is known, classification is active, and the tool is above it. */
  ghost predicate AboveLevel(c: Classification, level: string, tool: string) {
    c.levels != [] && c.toolAssignments != map[] && level != "" && level in c.levels && !NotAbove(c, level, tool)
  }

  /** What an entry says of a tool, apart from classification: admin may call every tool,
      restricted its allowed ones, or any if it lists none; neither a denied one. */
  predicate EntryAllows(rc: RoleConfig, tool: string) {
    && rc.name in {ADMIN, RESTRICTED} && tool !in rc.denyTools
    && (rc.name == RESTRICTED && rc.allowedTools != [] ==> tool in rc.allowedTools)
  }

  lemma {:induction false} AboveMaximum(rc: RoleConfig, roles: seq<RoleConfig>, c: Classification, tool: string)
    ensures var p := NewPolicy(roles, c);
            AboveLevel(c, rc.classificationLevel, tool) <==>
            Classified(p) && Compiled(rc, p.levelRank).maxClassLevel >= 0 &&
            Rank(p, tool) > Compiled(rc, p.levelRank).maxClassLevel
  {
    ClassifiedIff(roles, c);
    if Classified(NewPolicy(roles, c)) {
      RankIsLastIndex(c.levels, rc.classificationLevel);
      if rc.classificationLevel in c.levels {
        NotAboveIsRank(roles, c, rc.classificationLevel, tool);
      }
    }
  }

  /** Which tools a role may call, whatever the session did before, in the terms of its
      configuration. */
  lemma {:induction false} ToolsByRole(roles: seq<RoleConfig>, c: Classification, role: string, tool: string)
    ensures RoleMayCall(NewPolicy(roles, c), role, tool) <==>
              && EntryOf(roles, role).Some?
              && var rc := EntryOf(roles, role).value;
              EntryAllows(rc, tool) && !AboveLevel(c, rc.classificationLevel, tool)
  {
    LastEntryWins(roles, NewPolicy(roles, c).levelRank, role);
    if EntryOf(roles, role).Some? {
      AboveMaximum(EntryOf(roles, role).value, roles, c, tool);
    }
  }

  /** The tool is below the session's floor. */
  ghost predicate UnderFloor(c: Classification, floors: Floors, session: string, tool: string) {
    && c.levels != [] && c.toolAssignments != map[] && session in floors
    && forall i :: PlaceOfTool(c, tool, i) ==> i < floors[session]
  }

  lemma {:induction false} UnderFloorIsRank(roles: seq<RoleConfig>, c: Classification, floors: Floors,
                                            session: string, tool: string)
    ensures var p := NewPolicy(roles, c);
            UnderFloor(c, floors, session, tool) <==>
            Classified(p) && session in floors && Rank(p, tool) < floors[session]
  {
    ClassifiedIff(roles, c);
    if Classified(NewPolicy(roles, c)) {
      var rank := Rank(NewPolicy(roles, c), tool);
      RankIsPlace(roles, c, tool, rank);
      forall i | PlaceOfTool(c, tool, i) ensures i == rank {
        RankIsPlace(roles, c, tool, i);
      }
    }
  }

  predicate MayUse(role: string, rpcMethod: string) {
    || role == ADMIN
    || (role in {READ_ONLY, RESTRICTED} && Lists(rpcMethod))
    || (role == RESTRICTED && rpcMethod == TOOLS_CALL)
  }

  /** Why a request is denied, in the terms of the configuration: the reasons in their order. No
      request is denied because tools/call is denied outright: readonly fails on the method. */
  lemma {:induction false} ReasonIs(roles: seq<RoleConfig>, c: Classification, floors: Floors,
                                    req: Request, id: Identity)
    ensures var decision := Decide(NewPolicy(roles, c), floors, req, id);
            var entry := EntryOf(roles, id.role);
            if req.rpcMethod == INITIALIZE then decision == Allow
            else if entry.None? then decision == Deny(UnknownRole)
            else if !MayUse(id.role, req.rpcMethod) then decision == Deny(MethodNotAllowed)
            else if req.rpcMethod != TOOLS_CALL then decision == Allow
            else if req.name in entry.value.denyTools then decision == Deny(ToolDenied)
            else if !EntryAllows(entry.value, req.name) then decision == Deny(ToolNotAllowed)
            else if AboveLevel(c, entry.value.classificationLevel, req.name) then decision == Deny(AboveRole)
            else if UnderFloor(c, floors, id.sessionID, req.name) then decision == Deny(BelowFloor)
            else decision == Allow
  {
    LastEntryWins(roles, NewPolicy(roles, c).levelRank, id.role);
    if EntryOf(roles, id.role).Some? {
      AboveMaximum(EntryOf(roles, id.role).value, roles, c, req.name);
      UnderFloorIsRank(roles, c, floors, id.sessionID, req.name);
    }
  }

  /** An admitted tools/call leaves the tool's place as the session's floor, if classification is
      active; nothing else moves a floor. */
  lemma {:induction false} FloorsMove(roles: seq<RoleConfig>, c: Classification, floors: Floors,
                                      req: Request, id: Identity)
    ensures var p := NewPolicy(roles, c);
            var after := Raised(p, floors, req, id);
            var admitted := req.rpcMethod == TOOLS_CALL && Decide(p, floors, req, id) == Allow;
            if admitted && c.levels != [] && c.toolAssignments != map[] then
              id.sessionID in after && PlaceOfTool(c, req.name, after[id.sessionID]) &&
              forall s :: s != id.sessionID ==> FloorOf(after, s) == FloorOf(floors, s)
            else after == floors
  {
    ClassifiedIff(roles, c);
    if Classified(NewPolicy(roles, c)) {
      RankIsPlace(roles, c, req.name, Rank(NewPolicy(roles, c), req.name));
    }
  }
}
