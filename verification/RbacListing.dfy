/** tools/list filtering against the decision procedure for tools/call. */
module RbacListing {
  import opened Basics
  import opened Rbac
  import opened RbacFloors

  /** The same policy without one role's deny list. */
  function WithoutDenyList(p: Policy, role: string): Policy
    requires role in p.permissions
  {
    p.(permissions := p.permissions[role := p.permissions[role].(denyTools := {})])
  }

  function CallOf(tool: string): Request {
    Request("", TOOLS_CALL, tool, "")
  }

  predicate MayCall(p: Policy, floors: Floors, id: Identity, tool: string) {
    Decide(p, floors, CallOf(tool), id) == Allow
  }

  /** Process would admit the call, or rejects it for the deny list alone. */
  predicate CallableButForDenyList(p: Policy, floors: Floors, id: Identity, tool: string)
    requires id.role in p.permissions
  {
    || MayCall(p, floors, id, tool)
    || (tool in p.permissions[id.role].denyTools && MayCall(WithoutDenyList(p, id.role), floors, id, tool))
  }

  function Callable(p: Policy, floors: Floors, id: Identity): Tool -> bool
    requires id.role in p.permissions
  {
    (t: Tool) => CallableButForDenyList(p, floors, id, t.name)
  }

  /** A role with an allow set either may call tools or allows none. */
  lemma {:induction false} AllowSetMayCall(roles: seq<RoleConfig>, ranks: Option<map<string, nat>>, role: string)
    requires role in CompiledRoles(roles, ranks)
    ensures var perm := CompiledRoles(roles, ranks)[role];
            perm.allowedTools.Some? && perm.allowedTools.value != {} ==>
              perm.allowedMethods.Some? && TOOLS_CALL in perm.allowedMethods.value && !perm.denyToolsCall
  {
    if Last(roles).name != role {
      AllowSetMayCall(Front(roles), ranks, role);
    }
  }

  lemma {:induction false} KeepSame<T>(s: seq<T>, f: T -> bool, g: T -> bool)
    requires forall i :: 0 <= i < |s| ==> f(s[i]) == g(s[i])
    ensures Keep(s, f) == Keep(s, g)
  {
    if s != [] {
      assert forall i :: 0 <= i < |s| - 1 ==> Front(s)[i] == s[i];
      KeepSame(Front(s), f, g);
    }
  }

  /** For a role with an allow set, the filtered list is, in order, exactly the tools whose
      tools/call Process would admit in the same state, and those it rejects only because of
      the deny list. */
  lemma ListedIffCallable(roles: seq<RoleConfig>, c: Classification, floors: Floors, id: Identity, tools: seq<Tool>)
    requires var p := NewPolicy(roles, c);
             && id.role in p.permissions
             && p.permissions[id.role].allowedTools.Some? && !p.permissions[id.role].denyToolsCall
    ensures var p := NewPolicy(roles, c);
            Filtered(p, floors, id, Tools(tools)) == Some(Tools(Keep(tools, Callable(p, floors, id))))
  {
    var p := NewPolicy(roles, c);
    var perm := p.permissions[id.role];
    AllowSetMayCall(roles, p.levelRank, id.role);
    forall i | 0 <= i < |tools|
      ensures Shown(p, perm, FloorOf(floors, id.sessionID))(tools[i]) == Callable(p, floors, id)(tools[i])
    {
      if tools[i].name !in perm.allowedTools.value {
        assert !MayCall(p, floors, id, tools[i].name);
      }
    }
    KeepSame(tools, Shown(p, perm, FloorOf(floors, id.sessionID)), Callable(p, floors, id));
  }

  // ---------- When the list is what can be called ----------

  /** The tools a client may call. */
  function OnlyCallable(p: Policy, floors: Floors, id: Identity): Tool -> bool {
    (t: Tool) => MayCall(p, floors, id, t.name)
  }

  /** Classification and floor leave the tool alone. */
  predicate InRange(p: Policy, floors: Floors, id: Identity, tool: string)
    requires id.role in p.permissions
  {
    Classified(p) ==>
      ClassificationDecision(p, p.permissions[id.role], FloorOf(floors, id.sessionID), tool) == Allow
  }

  /** A tool that is shown to the client although it may not call it: for readonly any tool, for
      a role with an allow set an allowed and denied tool that is in range, for the others a tool
      that is denied or out of range. */
  predicate ShownInVain(p: Policy, floors: Floors, id: Identity, tool: string) {
    id.role in p.permissions &&
    var perm := p.permissions[id.role];
    || perm.denyToolsCall
    || match perm.allowedTools
       case Some(allowed) => tool in allowed && tool in perm.denyTools && InRange(p, floors, id, tool)
       case None => tool in perm.denyTools || !InRange(p, floors, id, tool)
  }

  lemma {:induction false} KeepAllAt<T>(s: seq<T>, f: T -> bool)
    requires forall i :: 0 <= i < |s| ==> f(s[i])
    ensures |Keep(s, f)| == |s| && forall i :: 0 <= i < |s| ==> Keep(s, f)[i] == s[i]
  {
    if s != [] {
      var front := Front(s);
      assert forall i :: 0 <= i < |front| ==> front[i] == s[i];
      KeepAllAt(front, f);
      assert Keep(s, f) == Keep(front, f) + [Last(s)];
    }
  }

  lemma KeepAll<T>(s: seq<T>, f: T -> bool)
    requires forall i :: 0 <= i < |s| ==> f(s[i])
    ensures Keep(s, f) == s
  {
    KeepAllAt(s, f);
  }

  lemma {:induction false} KeepNoMore<T>(s: seq<T>, f: T -> bool)
    ensures |Keep(s, f)| <= |s|
  {
    if s != [] {
      KeepNoMore(Front(s), f);
    }
  }

  lemma {:induction false} KeepLess<T>(s: seq<T>, f: T -> bool, i: nat)
    requires i < |s| && !f(s[i])
    ensures |Keep(s, f)| < |s|
  {
    KeepNoMore(Front(s), f);
    if i < |s| - 1 {
      KeepLess(Front(s), f, i);
    }
  }

  /** Keeping less is keeping the same exactly when nothing differs. */
  lemma {:induction false} KeepSameIff<T>(s: seq<T>, f: T -> bool, g: T -> bool)
    requires forall i :: 0 <= i < |s| && g(s[i]) ==> f(s[i])
    ensures Keep(s, f) == Keep(s, g) <==> forall i :: 0 <= i < |s| ==> f(s[i]) == g(s[i])
  {
    if i :| 0 <= i < |s| && f(s[i]) != g(s[i]) {
      KeepTwice(s, f, g);
      var j := KeptAt(s, f, i);
      KeepLess(Keep(s, f), g, j);
    } else {
      KeepSame(s, f, g);
    }
  }

  lemma {:induction false} KeptAt<T>(s: seq<T>, f: T -> bool, i: nat) returns (j: nat)
    requires i < |s| && f(s[i])
    ensures j < |Keep(s, f)| && Keep(s, f)[j] == s[i]
  {
    if i < |s| - 1 {
      j := KeptAt(Front(s), f, i);
    } else {
      j := |Keep(s, f)| - 1;
    }
  }

  /** Only readonly is denied tools/call outright, and a role without an allow set may send it. */
  lemma {:induction false} UnlimitedMayCall(roles: seq<RoleConfig>, ranks: Option<map<string, nat>>, role: string)
    requires role in CompiledRoles(roles, ranks)
    ensures var perm := CompiledRoles(roles, ranks)[role];
            && (perm.denyToolsCall ==> perm.allowedTools.None?)
            && (perm.allowedTools.None? && !perm.denyToolsCall && perm.allowedMethods.Some? ==>
                  TOOLS_CALL in perm.allowedMethods.value)
  {
    if Last(roles).name != role {
      UnlimitedMayCall(Front(roles), ranks, role);
    }
  }

  /** What the client is shown, as a filter. */
  function ShownTo(p: Policy, floors: Floors, id: Identity): Tool -> bool {
    (t: Tool) => MayCall(p, floors, id, t.name) || ShownInVain(p, floors, id, t.name)
  }

  /** A tool is shown iff it may be called or is shown in vain, and never both. */
  lemma FilteredIsShown(roles: seq<RoleConfig>, c: Classification, floors: Floors, id: Identity, tools: seq<Tool>)
    ensures var p := NewPolicy(roles, c);
            && Filtered(p, floors, id, Tools(tools)) == Some(Tools(Keep(tools, ShownTo(p, floors, id))))
            && forall t: Tool :: ShownInVain(p, floors, id, t.name) ==> !MayCall(p, floors, id, t.name)
  {
    var p := NewPolicy(roles, c);
    if id.role !in p.permissions {
      KeepNone(tools, ShownTo(p, floors, id));
    } else {
      var perm := p.permissions[id.role];
      AllowSetMayCall(roles, p.levelRank, id.role);
      UnlimitedMayCall(roles, p.levelRank, id.role);
      if perm.allowedTools.Some? {
        KeepSame(tools, Shown(p, perm, FloorOf(floors, id.sessionID)), ShownTo(p, floors, id));
      } else {
        KeepAll(tools, ShownTo(p, floors, id));
      }
    }
  }

  /** What does not parse as a list is an error only for a client whose list is filtered: an
      unknown role sees nothing, and a role without an allow set whatever upstream sent. */
  lemma {:induction false} GarbageListed(roles: seq<RoleConfig>, c: Classification, floors: Floors,
                                         id: Identity, raw: string)
    ensures var p := NewPolicy(roles, c);
            Filtered(p, floors, id, Garbage(raw)) ==
            if id.role !in p.permissions then Some(Tools([]))
            else if p.permissions[id.role].allowedTools.None? then Some(Garbage(raw))
            else None
  {
    var p := NewPolicy(roles, c);
    if id.role in p.permissions {
      UnlimitedMayCall(roles, p.levelRank, id.role);
    }
  }

  lemma {:induction false} KeepNone<T>(s: seq<T>, f: T -> bool)
    requires forall i :: 0 <= i < |s| ==> !f(s[i])
    ensures Keep(s, f) == []
  {
    if s != [] {
      assert forall i :: 0 <= i < |s| - 1 ==> Front(s)[i] == s[i];
      KeepNone(Front(s), f);
    }
  }

  /** The list shows exactly what can be called iff no listed tool is shown in vain. */
  lemma {:induction false} ListingIsExactIff(roles: seq<RoleConfig>, c: Classification, floors: Floors,
                                             id: Identity, tools: seq<Tool>)
    ensures var p := NewPolicy(roles, c);
            Filtered(p, floors, id, Tools(tools)) == Some(Tools(Keep(tools, OnlyCallable(p, floors, id)))) <==>
            forall i :: 0 <= i < |tools| ==> !ShownInVain(p, floors, id, tools[i].name)
  {
    var p := NewPolicy(roles, c);
    FilteredIsShown(roles, c, floors, id, tools);
    KeepSameIff(tools, ShownTo(p, floors, id), OnlyCallable(p, floors, id));
    forall i | 0 <= i < |tools|
      ensures ShownTo(p, floors, id)(tools[i]) == OnlyCallable(p, floors, id)(tools[i]) <==>
              !ShownInVain(p, floors, id, tools[i].name)
    {}
  }

  /** An instance: a denied tool is listed for an admin, who may not call it. */
  lemma ListingCanDiffer(floors: Floors)
    ensures var p := NewPolicy([RoleConfig(ADMIN, [], ["drop"], "")], Classification([], map[]));
            var id := Identity("client", ADMIN, "session");
            var tools := [Tool("drop", ""), Tool("read", "")];
            && Filtered(p, floors, id, Tools(tools)) == Some(Tools(tools))
            && Keep(tools, OnlyCallable(p, floors, id)) == [Tool("read", "")]
  {
    var roles := [RoleConfig(ADMIN, [], ["drop"], "")];
    var p := NewPolicy(roles, Classification([], map[]));
    var id := Identity("client", ADMIN, "session");
    var tools := [Tool("drop", ""), Tool("read", "")];
    assert Front(roles) == [] && Last(roles) == roles[0];
    assert CompiledRoles(roles, None) == map[ADMIN := Compiled(roles[0], None)];
    assert "drop" in p.permissions[ADMIN].denyTools && "read" !in p.permissions[ADMIN].denyTools;
    assert !MayCall(p, floors, id, "drop") && MayCall(p, floors, id, "read");
    assert Front(tools) == [Tool("drop", "")] && Front([Tool("drop", "")]) == [];
  }

  // ---------- The list only shrinks ----------

  predicate NoLower(a: Floors, b: Floors) {
    forall s :: s in a ==> s in b && a[s] <= b[s]
  }

  lemma {:induction false} FloorsRise(p: Policy, before: seq<Call>, after: seq<Call>)
    ensures NoLower(FloorsAfter(p, before), FloorsAfter(p, before + after))
    decreases |after|
  {
    if after == [] {
      assert before + after == before;
    } else {
      FloorsRise(p, before, Front(after));
      assert Front(before + after) == before + Front(after);
    }
  }

  lemma {:induction false} KeepTwice<T>(s: seq<T>, f: T -> bool, g: T -> bool)
    requires forall i :: 0 <= i < |s| && g(s[i]) ==> f(s[i])
    ensures Keep(Keep(s, f), g) == Keep(s, g)
  {
    if s != [] {
      assert forall i :: 0 <= i < |s| - 1 ==> Front(s)[i] == s[i];
      KeepTwice(Front(s), f, g);
      if f(Last(s)) {
        FrontLast(Keep(Front(s), f), Last(s));
      }
    }
  }

  /** Over a sequential run the list shown for the same upstream list only loses tools: the
      later list is the earlier one filtered again. */
  lemma ListOnlyShrinks(p: Policy, before: seq<Call>, after: seq<Call>, id: Identity, tools: seq<Tool>)
    requires id.role in p.permissions
    requires p.permissions[id.role].allowedTools.Some? && !p.permissions[id.role].denyToolsCall
    ensures var early, late := FloorsAfter(p, before), FloorsAfter(p, before + after);
            var first := Filtered(p, early, id, Tools(tools));
            first.Some? && Filtered(p, late, id, first.value) == Filtered(p, late, id, Tools(tools))
  {
    var perm := p.permissions[id.role];
    var early, late := FloorsAfter(p, before), FloorsAfter(p, before + after);
    FloorsRise(p, before, after);
    KeepTwice(tools, Shown(p, perm, FloorOf(early, id.sessionID)), Shown(p, perm, FloorOf(late, id.sessionID)));
  }
}
