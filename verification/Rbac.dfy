/** internal/rbac/engine.go: role-based access control with session floors. */
module Rbac {
  import opened Basics

  const INITIALIZE := "initialize"
  const TOOLS_LIST := "tools/list"
  const TOOLS_CALL := "tools/call"
  const RESOURCES_READ := "resources/read"
  const PROMPTS_GET := "prompts/get"

  const ADMIN := "admin"
  const READ_ONLY := "readonly"
  const RESTRICTED := "restricted"

  /** A parsed request. `name` is the name decoded from its params, or "". */
  datatype Request = Request(id: string, rpcMethod: string, name: string, params: string)

  datatype Identity = Identity(clientID: string, role: string, sessionID: string)

  function ExtractToolName(req: Request): string {
    if req.rpcMethod == TOOLS_CALL then req.name else ""
  }

  // ---------- Configuration ----------

  datatype RoleConfig = RoleConfig(
    name: string, allowedTools: seq<string>, denyTools: seq<string>, classificationLevel: string)

  datatype Classification = Classification(levels: seq<string>, toolAssignments: map<string, string>)

  /** None for a set means that everything is allowed. */
  datatype Permission = Permission(
    allowedMethods: Option<set<string>>,
    allowedTools: Option<set<string>>,
    denyTools: set<string>,
    denyToolsCall: bool,
    maxClassLevel: int)

  datatype Policy = Policy(
    permissions: map<string, Permission>,
    levelRank: Option<map<string, nat>>,
    toolClassification: Option<map<string, string>>)

  /** The rank of a level is its last index. */
  function LevelRanks(levels: seq<string>): map<string, nat> {
    if levels == [] then map[] else LevelRanks(Front(levels))[Last(levels) := |levels| - 1]
  }

  function Compiled(rc: RoleConfig, levelRank: Option<map<string, nat>>): Permission {
    var maxLevel: int :=
      if levelRank.Some? && rc.classificationLevel != "" && rc.classificationLevel in levelRank.value
      then levelRank.value[rc.classificationLevel] else -1;
    var listing := {INITIALIZE, TOOLS_LIST, RESOURCES_READ, PROMPTS_GET};
    var deny := Elements(rc.denyTools);
    if rc.name == ADMIN then Permission(None, None, deny, false, maxLevel)
    else if rc.name == READ_ONLY then Permission(Some(listing), None, deny, true, maxLevel)
    else if rc.name == RESTRICTED then
      Permission(Some({INITIALIZE, TOOLS_LIST, TOOLS_CALL, RESOURCES_READ, PROMPTS_GET}),
                 if rc.allowedTools == [] then None else Some(Elements(rc.allowedTools)), deny, false, maxLevel)
    else Permission(Some({}), Some({}), deny, false, maxLevel)
  }

  function CompiledRoles(roles: seq<RoleConfig>, levelRank: Option<map<string, nat>>): map<string, Permission> {
    if roles == [] then map[]
    else CompiledRoles(Front(roles), levelRank)[Last(roles).name := Compiled(Last(roles), levelRank)]
  }

  function NewPolicy(roles: seq<RoleConfig>, c: Classification): Policy {
    if c.levels != [] && c.toolAssignments != map[] then
      var ranks := Some(LevelRanks(c.levels));
      Policy(CompiledRoles(roles, ranks), ranks, Some(c.toolAssignments))
    else
      Policy(CompiledRoles(roles, None), None, None)
  }

  // ---------- Decisions ----------

  datatype Reason =
    | UnknownRole | MethodNotAllowed | ToolsCallDenied | ToolDenied | ToolNotAllowed | AboveRole | BelowFloor

  datatype Decision = Allow | Deny(reason: Reason)

  type Floors = map<string, nat>

  predicate Classified(p: Policy) {
    p.levelRank.Some? && p.toolClassification.Some?
  }

  /** An unassigned tool, or one assigned to an unknown level, has the lowest rank. */
  function Rank(p: Policy, tool: string): nat
    requires Classified(p)
  {
    if tool in p.toolClassification.value && p.toolClassification.value[tool] in p.levelRank.value
    then p.levelRank.value[p.toolClassification.value[tool]] else 0
  }

  function ClassificationDecision(p: Policy, perm: Permission, floor: Option<nat>, tool: string): Decision
    requires Classified(p)
  {
    if perm.maxClassLevel >= 0 && Rank(p, tool) > perm.maxClassLevel then Deny(AboveRole)
    else if floor.Some? && Rank(p, tool) < floor.value then Deny(BelowFloor)
    else Allow
  }

  function FloorOf(floors: Floors, session: string): Option<nat> {
    if session in floors then Some(floors[session]) else None
  }

  function Decide(p: Policy, floors: Floors, req: Request, id: Identity): Decision {
    if req.rpcMethod == INITIALIZE then Allow
    else if id.role !in p.permissions then Deny(UnknownRole)
    else
      var perm := p.permissions[id.role];
      if perm.allowedMethods.Some? && req.rpcMethod !in perm.allowedMethods.value then Deny(MethodNotAllowed)
      else if req.rpcMethod != TOOLS_CALL then Allow
      else
        var tool := ExtractToolName(req);
        if perm.denyToolsCall then Deny(ToolsCallDenied)
        else if tool in perm.denyTools then Deny(ToolDenied)
        else if perm.allowedTools.Some? && tool !in perm.allowedTools.value then Deny(ToolNotAllowed)
        else if Classified(p) then ClassificationDecision(p, perm, FloorOf(floors, id.sessionID), tool)
        else Allow
  }

  /** The floors after one whole Process call. */
  function Raised(p: Policy, floors: Floors, req: Request, id: Identity): Floors {
    if req.rpcMethod == TOOLS_CALL && Classified(p) && Decide(p, floors, req, id) == Allow
    then Written(floors, id.sessionID, Rank(p, ExtractToolName(req)), id.sessionID in floors)
    else floors
  }

  /** The write region of checkClassification; a missing floor reads as zero there. */
  function Written(floors: Floors, session: string, rank: nat, hadFloor: bool): Floors {
    if !hadFloor || rank > (if session in floors then floors[session] else 0)
    then floors[session := rank] else floors
  }

  // ---------- Listing ----------

  datatype Tool = Tool(name: string, description: string)

  /** The result payload of tools/list; Garbage is a payload that does not parse. */
  datatype Payload = Tools(tools: seq<Tool>) | Garbage(raw: string)

  /** The elements that satisfy `keep`, in their order. */
  function Keep<T>(s: seq<T>, keep: T -> bool): seq<T> {
    if s == [] then []
    else if keep(Last(s)) then Keep(Front(s), keep) + [Last(s)]
    else Keep(Front(s), keep)
  }

  predicate Visible(p: Policy, perm: Permission, floor: Option<nat>, tool: string)
    requires perm.allowedTools.Some?
  {
    && tool in perm.allowedTools.value
    && (Classified(p) ==> ClassificationDecision(p, perm, floor, tool) == Allow)
  }

  function Shown(p: Policy, perm: Permission, floor: Option<nat>): Tool -> bool
    requires perm.allowedTools.Some?
  {
    (t: Tool) => Visible(p, perm, floor, t.name)
  }

  /** FilterToolsList; None stands for its parse error. */
  function Filtered(p: Policy, floors: Floors, id: Identity, payload: Payload): Option<Payload> {
    if id.role !in p.permissions then Some(Tools([]))
    else
      var perm := p.permissions[id.role];
      if perm.allowedTools.None? || perm.denyToolsCall then Some(payload)
      else if payload.Garbage? then None
      else Some(Tools(Keep(payload.tools, Shown(p, perm, FloorOf(floors, id.sessionID)))))
  }

  // ---------- The engine ----------

  class Engine {
    const permissions: map<string, Permission>
    const levelRank: Option<map<string, nat>>
    const toolClassification: Option<map<string, string>>
    var sessionFloors: Floors

    ghost function Rules(): Policy {
      Policy(permissions, levelRank, toolClassification)
    }

    static method ToSet(names: seq<string>) returns (r: set<string>)
      ensures r == Elements(names)
    {
      r := {};
      for i := 0 to |names|
        invariant r == Elements(names[..i])
      {
        assert names[..i + 1] == names[..i] + [names[i]];
        r := r + {names[i]};
      }
      assert names[..|names|] == names;
    }

    static method CompileRole(rc: RoleConfig, levelRank: Option<map<string, nat>>) returns (perm: Permission)
      ensures perm == Compiled(rc, levelRank)
    {
      perm := Permission(None, None, {}, false, -1);
      assert rc.denyTools == [] ==> Elements(rc.denyTools) == {};
      if levelRank.Some? && rc.classificationLevel != "" {
        if rc.classificationLevel in levelRank.value {
          perm := perm.(maxClassLevel := levelRank.value[rc.classificationLevel]);
        }
      }
      if rc.name == ADMIN {
        perm := perm.(allowedMethods := None, allowedTools := None);
      } else if rc.name == READ_ONLY {
        perm := perm.(allowedMethods := Some({INITIALIZE, TOOLS_LIST, RESOURCES_READ, PROMPTS_GET}));
        perm := perm.(denyToolsCall := true);
      } else if rc.name == RESTRICTED {
        perm := perm.(allowedMethods := Some({INITIALIZE, TOOLS_LIST, TOOLS_CALL, RESOURCES_READ, PROMPTS_GET}));
        if |rc.allowedTools| > 0 {
          var tools := ToSet(rc.allowedTools);
          perm := perm.(allowedTools := Some(tools));
        }
      } else {
        perm := perm.(allowedMethods := Some({}), allowedTools := Some({}));
      }
      if |rc.denyTools| > 0 {
        var tools := ToSet(rc.denyTools);
        perm := perm.(denyTools := tools);
      }
    }

    constructor (roles: seq<RoleConfig>, classification: Classification)
      ensures Rules() == NewPolicy(roles, classification) && sessionFloors == map[]
    {
      var ranks: Option<map<string, nat>> := None;
      var assignments: Option<map<string, string>> := None;
      if |classification.levels| > 0 && |classification.toolAssignments| > 0 {
        var byName: map<string, nat> := map[];
        for i := 0 to |classification.levels|
          invariant byName == LevelRanks(classification.levels[..i])
        {
          assert Front(classification.levels[..i + 1]) == classification.levels[..i];
          byName := byName[classification.levels[i] := i];
        }
        assert classification.levels[..|classification.levels|] == classification.levels;
        ranks, assignments := Some(byName), Some(classification.toolAssignments);
      }
      var compiled: map<string, Permission> := map[];
      for i := 0 to |roles|
        invariant compiled == CompiledRoles(roles[..i], ranks)
      {
        assert Front(roles[..i + 1]) == roles[..i];
        var perm := CompileRole(roles[i], ranks);
        compiled := compiled[roles[i].name := perm];
      }
      assert roles[..|roles|] == roles;
      permissions, levelRank, toolClassification := compiled, ranks, assignments;
      sessionFloors := map[];
    }

    method Process(req: Request, id: Identity) returns (r: Decision)
      modifies this
      ensures r == Decide(Rules(), old(sessionFloors), req, id)
      ensures sessionFloors == Raised(Rules(), old(sessionFloors), req, id)
    {
      if req.rpcMethod == INITIALIZE {
        return Allow;
      }
      if id.role !in permissions {
        return Deny(UnknownRole);
      }
      var perm := permissions[id.role];
      if perm.allowedMethods.Some? {
        if req.rpcMethod !in perm.allowedMethods.value {
          return Deny(MethodNotAllowed);
        }
      }
      if req.rpcMethod == TOOLS_CALL {
        var toolName := ExtractToolName(req);
        if perm.denyToolsCall {
          return Deny(ToolsCallDenied);
        }
        if toolName in perm.denyTools {
          return Deny(ToolDenied);
        }
        if perm.allowedTools.Some? {
          if toolName !in perm.allowedTools.value {
            return Deny(ToolNotAllowed);
          }
        }
        if levelRank.Some? && toolClassification.Some? {
          r := CheckClassification(id, toolName);
          return;
        }
      }
      return Allow;
    }

    method CheckClassification(id: Identity, toolName: string) returns (r: Decision)
      requires Classified(Rules()) && id.role in permissions
      modifies this
      ensures r == ClassificationDecision(Rules(), permissions[id.role],
                                          FloorOf(old(sessionFloors), id.sessionID), toolName)
      ensures sessionFloors ==
              if r == Allow
              then Written(old(sessionFloors), id.sessionID, Rank(Rules(), toolName),
                           id.sessionID in old(sessionFloors))
              else old(sessionFloors)
    {
      var toolRank: nat := 0;
      if toolName in toolClassification.value {
        var toolLevel := toolClassification.value[toolName];
        if toolLevel in levelRank.value {
          toolRank := levelRank.value[toolLevel];
        }
      }
      var perm := permissions[id.role];
      if perm.maxClassLevel >= 0 && toolRank > perm.maxClassLevel {
        return Deny(AboveRole);
      }
      var hasFloor := id.sessionID in sessionFloors;
      if hasFloor && toolRank < sessionFloors[id.sessionID] {
        return Deny(BelowFloor);
      }
      if !hasFloor || toolRank > sessionFloors[id.sessionID] {
        sessionFloors := sessionFloors[id.sessionID := toolRank];
      }
      return Allow;
    }

    method FilterToolsList(id: Identity, payload: Payload) returns (r: Option<Payload>)
      ensures r == Filtered(Rules(), sessionFloors, id, payload)
    {
      if id.role !in permissions {
        return Some(Tools([]));
      }
      var perm := permissions[id.role];
      if perm.allowedTools.None? && !perm.denyToolsCall {
        return Some(payload);
      }
      if perm.denyToolsCall {
        return Some(payload);
      }
      if payload.Garbage? {
        return None;
      }
      var currentFloor := FloorOf(sessionFloors, id.sessionID);
      ghost var keep := Shown(Rules(), perm, currentFloor);
      var kept := [];
      for i := 0 to |payload.tools|
        invariant kept == Keep(payload.tools[..i], keep)
      {
        var tool := payload.tools[i];
        assert Front(payload.tools[..i + 1]) == payload.tools[..i];
        if tool.name !in perm.allowedTools.value {
          continue;
        }
        if levelRank.Some? && toolClassification.Some? {
          var toolRank: nat := 0;
          if tool.name in toolClassification.value {
            var toolLevel := toolClassification.value[tool.name];
            if toolLevel in levelRank.value {
              toolRank := levelRank.value[toolLevel];
            }
          }
          if perm.maxClassLevel >= 0 && toolRank > perm.maxClassLevel {
            continue;
          }
          if currentFloor.Some? && toolRank < currentFloor.value {
            continue;
          }
        }
        kept := kept + [tool];
      }
      assert payload.tools[..|payload.tools|] == payload.tools;
      return Some(Tools(kept));
    }
  }
}
