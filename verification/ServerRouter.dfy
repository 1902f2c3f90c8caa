/** internal/proxy/server_router.go: one tools list out of the cached lists of many servers. */
module ServerRouter {
  import opened Basics

  datatype ToolInfo = ToolInfo(name: string, description: string)

  datatype CacheEntry = CacheEntry(tools: seq<ToolInfo>, expiresAt: int)

  type Cache = map<string, CacheEntry>

  /** A cached tool and the server it came from. */
  datatype Source = Source(tool: ToolInfo, server: string)

  /** The clock as it is read for each server of a walk. */
  type Clock = string -> int

  predicate Fresh(c: Cache, server: string, now: int) {
    server in c && now <= c[server].expiresAt
  }

  /** The cached tools of a server that may still be served. */
  function Served(c: Cache, server: string, now: int): Option<seq<ToolInfo>> {
    if Fresh(c, server, now) then Some(c[server].tools) else None
  }

  /** A server's tools have been fetched. */
  datatype Update = Update(server: string, tools: seq<ToolInfo>, at: int)

  function Stored(c: Cache, cacheTTL: int, u: Update): Cache {
    c[u.server := CacheEntry(u.tools, u.at + cacheTTL)]
  }

  function FromServer(tools: seq<ToolInfo>, server: string): (r: seq<Source>)
    ensures |r| == |tools|
    ensures forall i :: 0 <= i < |r| ==> r[i] == Source(tools[i], server)
  {
    seq(|tools|, i requires 0 <= i < |tools| => Source(tools[i], server))
  }

  /** The fresh tools, server by server. */
  function Sources(c: Cache, order: seq<string>, clock: Clock): seq<Source> {
    if order == [] then []
    else if Fresh(c, Last(order), clock(Last(order)))
    then Sources(c, Front(order), clock) + FromServer(c[Last(order)].tools, Last(order))
    else Sources(c, Front(order), clock)
  }

  function BareNames(sources: seq<Source>): set<string> {
    set s | s in sources :: s.tool.name
  }

  lemma OneMoreName(sources: seq<Source>, s: Source)
    ensures BareNames(sources + [s]) == BareNames(sources) + {s.tool.name}
  {
    assert forall x :: x in sources + [s] <==> x in sources || x == s;
  }

  function ServerFirst(s: Source): string {
    s.server + "." + s.tool.name
  }

  function ToolFirst(s: Source): string {
    s.tool.name + "." + s.server
  }

  /** The first tool with a bare name is named server first, later ones tool first. */
  function Named(sources: seq<Source>): seq<ToolInfo> {
    if sources == [] then []
    else
      var s := Last(sources);
      Named(Front(sources)) +
      [s.tool.(name := if s.tool.name in BareNames(Front(sources)) then ToolFirst(s) else ServerFirst(s))]
  }

  /** What naming does with the next tool. */
  lemma NameOneMore(sources: seq<Source>, k: nat)
    requires k < |sources|
    ensures BareNames(sources[..k + 1]) == BareNames(sources[..k]) + {sources[k].tool.name}
    ensures Named(sources[..k + 1]) ==
            Named(sources[..k]) +
            [sources[k].tool.(name := if sources[k].tool.name in BareNames(sources[..k])
                                      then ToolFirst(sources[k]) else ServerFirst(sources[k]))]
  {
    assert sources[..k + 1] == sources[..k] + [sources[k]];
    FrontLast(sources[..k], sources[k]);
    OneMoreName(sources[..k], sources[k]);
  }

  /** An order in which the cache map may be walked. */
  predicate Walks(c: Cache, order: seq<string>) {
    Distinct(order) && Elements(order) == c.Keys
  }

  lemma Visited(order: seq<string>, server: string)
    requires Distinct(order) && server !in Elements(order)
    ensures Distinct(order + [server]) && Elements(order + [server]) == Elements(order) + {server}
  {
    FrontLast(order, server);
    DistinctFront(order + [server]);
  }

  class Router {
    const cacheTTL: int
    var toolsCache: Cache

    constructor (cacheTTL: int)
      ensures this.cacheTTL == cacheTTL && toolsCache == map[]
    {
      this.cacheTTL, toolsCache := cacheTTL, map[];
    }

    method UpdateToolsCache(server: string, tools: seq<ToolInfo>, now: int)
      modifies this
      ensures toolsCache == Stored(old(toolsCache), cacheTTL, Update(server, tools, now))
    {
      toolsCache := toolsCache[server := CacheEntry(tools, now + cacheTTL)];
    }

    method GetToolsFromCache(server: string, now: int) returns (r: Option<seq<ToolInfo>>)
      ensures r == Served(toolsCache, server, now)
    {
      if server !in toolsCache {
        return None;
      }
      var entry := toolsCache[server];
      if now > entry.expiresAt {
        return None;
      }
      return Some(entry.tools);
    }

    /** The first half of GetAggregatedTools. `order` is the order in which the cache map was
        walked, which is arbitrary. */
    method CollectTools(clock: Clock) returns (allTools: seq<Source>, ghost order: seq<string>)
      ensures Walks(toolsCache, order)
      ensures allTools == Sources(toolsCache, order, clock)
    {
      allTools, order := [], [];
      var todo := toolsCache.Keys;
      while todo != {}
        invariant todo <= toolsCache.Keys && Distinct(order)
        invariant Elements(order) == toolsCache.Keys - todo
        invariant allTools == Sources(toolsCache, order, clock)
        decreases todo
      {
        var server :| server in todo;
        Visited(order, server);
        FrontLast(order, server);
        var tools := GetToolsFromCache(server, clock(server));
        if tools.Some? {
          var found := AddServer(allTools, tools.value, server);
          allTools := found;
        }
        order, todo := order + [server], todo - {server};
      }
    }

    static method AddServer(allTools: seq<Source>, tools: seq<ToolInfo>, server: string) returns (r: seq<Source>)
      ensures r == allTools + FromServer(tools, server)
    {
      r := allTools;
      for i := 0 to |tools|
        invariant r == allTools + FromServer(tools, server)[..i]
      {
        r := r + [Source(tools[i], server)];
      }
    }

    /** The second half: the namespace prefix and the collisions. */
    static method NameTools(allTools: seq<Source>) returns (aggregated: seq<ToolInfo>)
      ensures aggregated == Named(allTools)
    {
      aggregated := [];
      var globalNames: set<string> := {};
      for k := 0 to |allTools|
        invariant globalNames == BareNames(allTools[..k])
        invariant aggregated == Named(allTools[..k])
      {
        var ts := allTools[k];
        NameOneMore(allTools, k);
        if ts.tool.name in globalNames {
          aggregated := aggregated + [ts.tool.(name := ts.tool.name + "." + ts.server)];
        } else {
          globalNames := globalNames + {ts.tool.name};
          aggregated := aggregated + [ts.tool.(name := ts.server + "." + ts.tool.name)];
        }
      }
      assert allTools[..|allTools|] == allTools;
    }

    /** The clock is read anew for every server. */
    method GetAggregatedTools(clock: Clock) returns (aggregated: seq<ToolInfo>)
      ensures exists order :: Walks(toolsCache, order) && aggregated == Named(Sources(toolsCache, order, clock))
    {
      var allTools;
      ghost var order;
      allTools, order := CollectTools(clock);
      aggregated := NameTools(allTools);
    }
  }

  // ---------- Every fresh tool once ----------

  lemma CountFromServer(tools: seq<ToolInfo>, server: string, s: Source)
    ensures multiset(FromServer(tools, server))[s] == if s.server == server then multiset(tools)[s.tool] else 0
  {
    if tools != [] {
      CountFromServer(Front(tools), server, s);
      assert tools == Front(tools) + [Last(tools)];
      assert FromServer(tools, server) == FromServer(Front(tools), server) + [Source(Last(tools), server)];
    }
  }

  /** In any order, a tool of a server occurs as often as in that server's fresh list. */
  lemma {:induction false} EachFreshToolOnce(c: Cache, order: seq<string>, clock: Clock, s: Source)
    requires Distinct(order)
    ensures multiset(Sources(c, order, clock))[s] ==
            if s.server in order && s.server in c && clock(s.server) <= c[s.server].expiresAt
            then multiset(c[s.server].tools)[s.tool] else 0
  {
    if order != [] {
      var before, last := Front(order), Last(order);
      DistinctFront(order);
      EachFreshToolOnce(c, before, clock, s);
      assert order == before + [last];
      if Fresh(c, last, clock(last)) {
        CountFromServer(c[last].tools, last, s);
      }
    }
  }

  // ---------- Runs of updates ----------

  function After(updates: seq<Update>, cacheTTL: int): Cache {
    if updates == [] then map[] else Stored(After(Front(updates), cacheTTL), cacheTTL, Last(updates))
  }

  function LastUpdate(updates: seq<Update>, server: string): Option<Update> {
    if updates == [] then None
    else if Last(updates).server == server then Some(Last(updates))
    else LastUpdate(Front(updates), server)
  }

  lemma {:induction false} CacheIsLastUpdates(updates: seq<Update>, cacheTTL: int, server: string)
    ensures var c, last := After(updates, cacheTTL), LastUpdate(updates, server);
            && (server in c <==> last.Some?)
            && (last.Some? ==> c[server] == CacheEntry(last.value.tools, last.value.at + cacheTTL))
  {
    if updates != [] && Last(updates).server != server {
      CacheIsLastUpdates(Front(updates), cacheTTL, server);
    }
  }

  /** After any run of updates a server's tools are served iff they came with its last update and
      that is no longer than the TTL ago. */
  lemma {:induction false} ServedIff(updates: seq<Update>, cacheTTL: int, server: string, now: int,
                                     tools: seq<ToolInfo>)
    ensures Served(After(updates, cacheTTL), server, now) == Some(tools) <==>
            var last := LastUpdate(updates, server);
            last.Some? && last.value.tools == tools && now - last.value.at <= cacheTTL
  {
    CacheIsLastUpdates(updates, cacheTTL, server);
  }

  /** And a walk then yields each tool as often as such an update of its server listed it. */
  lemma {:induction false} EachUpdatedToolOnce(updates: seq<Update>, cacheTTL: int, order: seq<string>, clock: Clock,
                                               s: Source)
    requires Walks(After(updates, cacheTTL), order)
    ensures multiset(Sources(After(updates, cacheTTL), order, clock))[s] ==
            var last := LastUpdate(updates, s.server);
            if last.Some? && clock(s.server) - last.value.at <= cacheTTL then multiset(last.value.tools)[s.tool] else 0
  {
    CacheIsLastUpdates(updates, cacheTTL, s.server);
    EachFreshToolOnce(After(updates, cacheTTL), order, clock, s);
    assert s.server in order <==> s.server in Elements(order);
  }

  // ---------- Names ----------

  predicate NameBefore(sources: seq<Source>, k: nat)
    requires k < |sources|
  {
    exists j :: 0 <= j < k && sources[j].tool.name == sources[k].tool.name
  }

  /** Output k is tool k under one of its two names: server first exactly when no earlier tool
      has its bare name. So one tool per bare name is named server first. */
  lemma {:induction false} NamedAt(sources: seq<Source>, k: nat)
    requires k < |sources|
    ensures |Named(sources)| == |sources|
    ensures Named(sources)[k] == sources[k].tool.(name :=
              if NameBefore(sources, k) then ToolFirst(sources[k]) else ServerFirst(sources[k]))
  {
    NamedLength(sources);
    NamedLength(Front(sources));
    if k < |sources| - 1 {
      NamedAt(Front(sources), k);
      assert forall j :: 0 <= j <= k ==> Front(sources)[j] == sources[j];
    } else {
      EarlierNames(sources);
    }
  }

  lemma EarlierNames(sources: seq<Source>)
    requires sources != []
    ensures Last(sources).tool.name in BareNames(Front(sources)) <==> NameBefore(sources, |sources| - 1)
  {
    assert forall j :: 0 <= j < |sources| - 1 ==> Front(sources)[j] == sources[j];
  }

  lemma {:induction false} NamedLength(sources: seq<Source>)
    ensures |Named(sources)| == |sources|
  {
    if sources != [] {
      NamedLength(Front(sources));
    }
  }

  predicate DotFree(s: string) {
    forall i :: 0 <= i < |s| ==> s[i] != '.'
  }

  lemma DotSplits(a: string, b: string, c: string, d: string)
    requires DotFree(a) && DotFree(c) && a + "." + b == c + "." + d
    ensures a == c && b == d
  {
    var s := a + "." + b;
    assert s[|a|] == '.' && s[|c|] == '.';
    assert forall i :: 0 <= i < |a| ==> s[i] == a[i];
    assert forall i :: 0 <= i < |c| ==> s[i] == c[i];
    assert |a| == |c|;
    assert a == s[..|a|] == c;
    assert b == s[|a| + 1..] == d;
  }

  /** Dot-free names, and no server lists a name twice. */
  ghost predicate CleanNames(sources: seq<Source>) {
    && (forall i :: 0 <= i < |sources| ==> DotFree(sources[i].server) && DotFree(sources[i].tool.name))
    && (forall i, j :: 0 <= i < j < |sources| ==>
          sources[i].server != sources[j].server || sources[i].tool.name != sources[j].tool.name)
  }

  predicate IsFirst(sources: seq<Source>, k: nat)
    requires k < |sources|
  {
    !NameBefore(sources, k)
  }

  /** Tool i is the first with its name, tool j is not, and each one's server has the other's
      tool name. */
  predicate Crossed(sources: seq<Source>, i: nat, j: nat)
    requires i < |sources| && j < |sources|
  {
    && IsFirst(sources, i) && !IsFirst(sources, j)
    && sources[i].server == sources[j].tool.name && sources[i].tool.name == sources[j].server
  }

  /** Two emitted names are equal exactly when the tools are crossed. */
  lemma {:induction false} CollideIffCrossed(sources: seq<Source>, i: nat, j: nat)
    requires CleanNames(sources) && i < |sources| && j < |sources| && i != j
    ensures |Named(sources)| == |sources|
    ensures Named(sources)[i].name == Named(sources)[j].name <==> Crossed(sources, i, j) || Crossed(sources, j, i)
  {
    NamedAt(sources, i);
    NamedAt(sources, j);
    var x, y := NameParts(sources, i), NameParts(sources, j);
    assert Named(sources)[i].name == x.0 + "." + x.1 && Named(sources)[j].name == y.0 + "." + y.1;
    if Named(sources)[i].name == Named(sources)[j].name {
      DotSplits(x.0, x.1, y.0, y.1);
      PairsDiffer(sources, i, j);
    }
  }

  function NameParts(sources: seq<Source>, k: nat): (string, string)
    requires k < |sources|
  {
    var s := sources[k];
    if IsFirst(sources, k) then (s.server, s.tool.name) else (s.tool.name, s.server)
  }

  lemma PairsDiffer(sources: seq<Source>, i: nat, j: nat)
    requires CleanNames(sources) && i < |sources| && j < |sources| && i != j
    ensures sources[i].server != sources[j].server || sources[i].tool.name != sources[j].tool.name
  {}

  // ---------- Collisions, in the terms of the cache ----------

  predicate CleanList(tools: seq<ToolInfo>) {
    && (forall i :: 0 <= i < |tools| ==> DotFree(tools[i].name))
    && (forall i, j :: 0 <= i < j < |tools| ==> tools[i].name != tools[j].name)
  }

  /** The fresh servers and their tools have dot-free names, and none lists a name twice. */
  ghost predicate CleanCache(c: Cache, clock: Clock) {
    forall s :: Fresh(c, s, clock(s)) ==> DotFree(s) && CleanList(c[s].tools)
  }

  ghost predicate FromFresh(c: Cache, order: seq<string>, clock: Clock, s: Source) {
    s.server in order && Fresh(c, s.server, clock(s.server)) && s.tool in c[s.server].tools
  }

  /** The pairs of server and name are distinct when each server lists each name once. */
  lemma {:induction false} SourcesAreClean(c: Cache, order: seq<string>, clock: Clock)
    requires Distinct(order) && CleanCache(c, clock)
    ensures CleanNames(Sources(c, order, clock))
    ensures forall i :: 0 <= i < |Sources(c, order, clock)| ==> FromFresh(c, order, clock, Sources(c, order, clock)[i])
  {
    if order != [] {
      DistinctFront(order);
      SourcesAreClean(c, Front(order), clock);
      assert order == Front(order) + [Last(order)];
    }
  }

  lemma {:induction false} SourcesCat(c: Cache, before: seq<string>, after: seq<string>, clock: Clock)
    ensures Sources(c, before + after, clock) == Sources(c, before, clock) + Sources(c, after, clock)
    decreases |after|
  {
    if after == [] {
      assert before + after == before;
    } else {
      SourcesCat(c, before, Front(after), clock);
      assert Front(before + after) == before + Front(after);
    }
  }

  /** Where a walk puts tool `a` of a server. */
  lemma SourceAt(c: Cache, before: seq<string>, server: string, after: seq<string>, clock: Clock, a: nat)
    requires Fresh(c, server, clock(server)) && a < |c[server].tools|
    ensures var k := |Sources(c, before, clock)| + a;
            var all := Sources(c, before + [server] + after, clock);
            k < |all| && all[k] == Source(c[server].tools[a], server)
  {
    SourcesCat(c, before + [server], after, clock);
    FrontLast(before, server);
  }

  lemma SomeOrder(servers: set<string>) returns (order: seq<string>)
    ensures Distinct(order) && Elements(order) == servers
  {
    order := [];
    var todo := servers;
    while todo != {}
      invariant todo <= servers && Distinct(order) && Elements(order) == servers - todo
      decreases todo
    {
      var s :| s in todo;
      Visited(order, s);
      order, todo := order + [s], todo - {s};
    }
  }

  /** A walk that begins with `first`. */
  lemma WalkFrom(c: Cache, first: seq<string>) returns (rest: seq<string>)
    requires Distinct(first) && Elements(first) <= c.Keys
    ensures Walks(c, first + rest)
  {
    rest := SomeOrder(c.Keys - Elements(first));
    DistinctCat(first, rest);
    assert Elements(first + rest) == Elements(first) + Elements(rest);
  }

  predicate ListsName(c: Cache, server: string, clock: Clock, name: string) {
    Fresh(c, server, clock(server)) && exists a :: 0 <= a < |c[server].tools| && c[server].tools[a].name == name
  }

  ghost function IndexOfName(c: Cache, server: string, clock: Clock, name: string): (a: nat)
    requires ListsName(c, server, clock, name)
    ensures a < |c[server].tools| && c[server].tools[a].name == name
  {
    var a :| 0 <= a < |c[server].tools| && c[server].tools[a].name == name;
    a
  }

  /** Fresh servers s and t list a tool named like the other, and another server than t lists
      one named s. */
  predicate Tangled(c: Cache, clock: Clock, s: string, t: string, u: string) {
    s != t && u != t && ListsName(c, s, clock, t) && ListsName(c, t, clock, s) && ListsName(c, u, clock, s)
  }

  /** Outputs i and j of a walk have one name. */
  ghost predicate Collides(c: Cache, order: seq<string>, clock: Clock, i: nat, j: nat) {
    var out := Named(Sources(c, order, clock));
    i < |out| && j < |out| && i != j && out[i].name == out[j].name
  }

  lemma CrossedIsTangled(c: Cache, order: seq<string>, clock: Clock, i: nat, j: nat)
    requires Distinct(order) && CleanCache(c, clock)
    requires i < |Sources(c, order, clock)| && j < |Sources(c, order, clock)|
    requires Crossed(Sources(c, order, clock), i, j)
    ensures exists s, t, u :: Tangled(c, clock, s, t, u)
  {
    var all := Sources(c, order, clock);
    SourcesAreClean(c, order, clock);
    var k :| 0 <= k < j && all[k].tool.name == all[j].tool.name;
    assert FromFresh(c, order, clock, all[i]) && FromFresh(c, order, clock, all[j]);
    assert FromFresh(c, order, clock, all[k]);
    assert Tangled(c, clock, all[i].server, all[j].server, all[k].server);
  }

  lemma FirstAt(c: Cache, s: string, after: seq<string>, clock: Clock, a: nat)
    requires Fresh(c, s, clock(s)) && a < |c[s].tools|
    ensures var all := Sources(c, [s] + after, clock); a < |all| && all[a] == Source(c[s].tools[a], s)
  {
    assert [] + [s] + after == [s] + after;
    SourceAt(c, [], s, after, clock, a);
  }

  lemma SecondAt(c: Cache, s: string, u: string, after: seq<string>, clock: Clock, b: nat)
    requires Fresh(c, u, clock(u)) && b < |c[u].tools|
    ensures var all, k := Sources(c, [s, u] + after, clock), |Sources(c, [s], clock)| + b;
            k < |all| && all[k] == Source(c[u].tools[b], u)
  {
    assert [s] + [u] + after == [s, u] + after;
    SourceAt(c, [s], u, after, clock, b);
  }

  lemma LeadAt(c: Cache, lead: seq<string>, s: string, u: string, t: string, rest: seq<string>, clock: Clock,
               a: nat, b: nat)
    requires lead == if u == s then [s] else [s, u]
    requires Fresh(c, s, clock(s)) && Fresh(c, u, clock(u)) && a < |c[s].tools| && b < |c[u].tools|
    ensures var all := Sources(c, lead + [t] + rest, clock);
            var k := if u == s then b else |Sources(c, [s], clock)| + b;
            && a < |all| && all[a] == Source(c[s].tools[a], s)
            && k < |all| && k < |Sources(c, lead, clock)| && all[k] == Source(c[u].tools[b], u)
            && a < |Sources(c, lead, clock)|
  {
    if u == s {
      assert lead + [t] + rest == [s] + ([t] + rest) && lead == [s] + [];
      FirstAt(c, s, [t] + rest, clock, a);
      FirstAt(c, s, [t] + rest, clock, b);
      FirstAt(c, s, [], clock, a);
      FirstAt(c, s, [], clock, b);
    } else {
      assert lead + [t] + rest == [s] + ([u] + ([t] + rest)) && lead == [s] + [u];
      FirstAt(c, s, [u] + ([t] + rest), clock, a);
      FirstAt(c, s, [u], clock, a);
      assert lead + [t] + rest == [s, u] + ([t] + rest) && lead == [s, u] + [];
      SecondAt(c, s, u, [t] + rest, clock, b);
      SecondAt(c, s, u, [], clock, b);
    }
  }

  /** A walk that visits s first, u next and t then. */
  lemma TangledWalk(c: Cache, lead: seq<string>, s: string, u: string, t: string) returns (rest: seq<string>)
    requires s in c && u in c && t in c && s != t && u != t && lead == if u == s then [s] else [s, u]
    ensures Walks(c, lead + [t] + rest)
  {
    assert Distinct(lead + [t]) by {
      Visited([], s);
      if u != s {
        Visited([s], u);
        assert [] + [s] == [s] && [s] + [u] == lead;
      }
      assert Elements(lead) == {s, u};
      Visited(lead, t);
    }
    rest := WalkFrom(c, lead + [t]);
  }

  /** In it the tools of s and t are crossed. */
  lemma TangledIsCrossed(c: Cache, lead: seq<string>, s: string, u: string, t: string, rest: seq<string>, clock: Clock,
                         a: nat, b: nat, d: nat)
    requires CleanCache(c, clock) && lead == if u == s then [s] else [s, u]
    requires Fresh(c, s, clock(s)) && Fresh(c, u, clock(u)) && Fresh(c, t, clock(t))
    requires a < |c[s].tools| && c[s].tools[a].name == t
    requires b < |c[u].tools| && c[u].tools[b].name == s
    requires d < |c[t].tools| && c[t].tools[d].name == s
    ensures var all := Sources(c, lead + [t] + rest, clock);
            var j := |Sources(c, lead, clock)| + d;
            a < j < |all| && Crossed(all, a, j)
  {
    var all := Sources(c, lead + [t] + rest, clock);
    SourceAt(c, lead, t, rest, clock, d);
    LeadAt(c, lead, s, u, t, rest, clock, a, b);
    forall x | 0 <= x < a ensures all[x].tool.name != all[a].tool.name {
      LeadAt(c, lead, s, u, t, rest, clock, x, b);
    }
  }

  lemma CrossedCollides(c: Cache, order: seq<string>, clock: Clock, i: nat, j: nat)
    requires Distinct(order) && CleanCache(c, clock)
    requires i < j < |Sources(c, order, clock)| && Crossed(Sources(c, order, clock), i, j)
    ensures Collides(c, order, clock, i, j)
  {
    SourcesAreClean(c, order, clock);
    CollideIffCrossed(Sources(c, order, clock), i, j);
  }

  /** So tangled servers give one name twice. */
  lemma TangledCollides(c: Cache, clock: Clock, s: string, t: string, u: string)
    returns (order: seq<string>, i: nat, j: nat)
    requires CleanCache(c, clock) && Tangled(c, clock, s, t, u)
    ensures Walks(c, order) && Collides(c, order, clock, i, j)
  {
    var lead := if u == s then [s] else [s, u];
    var rest := TangledWalk(c, lead, s, u, t);
    order := lead + [t] + rest;
    var a, b, d := IndexOfName(c, s, clock, t), IndexOfName(c, u, clock, s), IndexOfName(c, t, clock, s);
    i, j := a, |Sources(c, lead, clock)| + d;
    TangledIsCrossed(c, lead, s, u, t, rest, clock, a, b, d);
    CrossedCollides(c, order, clock, i, j);
  }

  /** With clean names, some walk of the cache emits one name twice iff fresh servers are
      tangled: the exact condition, in the terms of the cached lists. */
  lemma CanCollideIff(c: Cache, clock: Clock)
    requires CleanCache(c, clock)
    ensures (exists order, i, j :: Walks(c, order) && Collides(c, order, clock, i, j)) <==>
            (exists s, t, u :: Tangled(c, clock, s, t, u))
  {
    if order, i, j :| Walks(c, order) && Collides(c, order, clock, i, j) {
      var all := Sources(c, order, clock);
      SourcesAreClean(c, order, clock);
      NamedLength(all);
      CollideIffCrossed(all, i, j);
      if Crossed(all, i, j) {
        CrossedIsTangled(c, order, clock, i, j);
      } else {
        CrossedIsTangled(c, order, clock, j, i);
      }
    }
    if s, t, u :| Tangled(c, clock, s, t, u) {
      var order, i, j := TangledCollides(c, clock, s, t, u);
    }
  }

  const THREE: Cache := map[
    "a" := CacheEntry([ToolInfo("b", "")], 0),
    "b" := CacheEntry([ToolInfo("a", "")], 0),
    "c" := CacheEntry([ToolInfo("a", "")], 0)]

  lemma WalkOfThree()
    ensures Walks(THREE, ["c", "a", "b"])
  {
    Visited([], "c");
    Visited(["c"], "a");
    assert ["c"] + ["a"] == ["c", "a"];
    Visited(["c", "a"], "b");
    assert ["c", "a"] + ["b"] == ["c", "a", "b"];
  }

  lemma OneToolSource(name: string, server: string)
    ensures FromServer([ToolInfo(name, "")], server) == [Source(ToolInfo(name, ""), server)]
  {}

  function SourcesOfThree(): seq<Source> {
    [Source(ToolInfo("a", ""), "c"), Source(ToolInfo("b", ""), "a"), Source(ToolInfo("a", ""), "b")]
  }

  lemma ThreeSources(clock: Clock)
    requires forall s :: clock(s) <= 0
    ensures Sources(THREE, ["c", "a", "b"], clock) == SourcesOfThree()
  {
    OneToolSource("a", "c");
    OneToolSource("b", "a");
    OneToolSource("a", "b");
    assert Front(["c", "a", "b"]) == ["c", "a"] && Front(["c", "a"]) == ["c"] && Front(["c"]) == [];
    assert Sources(THREE, ["c"], clock) == SourcesOfThree()[..1];
    assert Sources(THREE, ["c", "a"], clock) == SourcesOfThree()[..2];
  }

  lemma {:induction false} ThreeNames()
    ensures Named(SourcesOfThree()) == [ToolInfo("c.a", ""), ToolInfo("a.b", ""), ToolInfo("a.b", "")]
  {
    var all := SourcesOfThree();
    assert ServerFirst(all[0]) == "c.a" && ServerFirst(all[1]) == "a.b" && ToolFirst(all[2]) == "a.b";
    assert all[0].tool.name == all[2].tool.name;
    NamedAt(all, 0);
    NamedAt(all, 1);
    NamedAt(all, 2);
  }

  lemma ThreeIsClean(clock: Clock)
    ensures CleanCache(THREE, clock)
  {}

  /** An instance: three servers, clean names, one name twice. */
  lemma {:induction false} NamesCanCollide(clock: Clock)
    requires forall s :: clock(s) <= 0
    ensures CleanCache(THREE, clock) && Walks(THREE, ["c", "a", "b"])
    ensures Named(Sources(THREE, ["c", "a", "b"], clock)) ==
            [ToolInfo("c.a", ""), ToolInfo("a.b", ""), ToolInfo("a.b", "")]
  {
    ThreeIsClean(clock);
    WalkOfThree();
    ThreeSources(clock);
    ThreeNames();
  }

  /** For any walk of the cache: all emitted names are distinct when the names are clean and no
      fresh server lists a tool with the name of a fresh server. */
  lemma {:induction false} NamesAreDistinct(c: Cache, order: seq<string>, clock: Clock, i: nat, j: nat)
    requires Walks(c, order) && CleanCache(c, clock)
    requires forall s, t :: Fresh(c, s, clock(s)) && t in c[s].tools ==> !Fresh(c, t.name, clock(t.name))
    requires i < j < |Sources(c, order, clock)|
    ensures var out := Named(Sources(c, order, clock));
            |out| == |Sources(c, order, clock)| && out[i].name != out[j].name
  {
    NamedLength(Sources(c, order, clock));
    if Collides(c, order, clock, i, j) {
      CanCollideIff(c, clock);
    }
  }
}
