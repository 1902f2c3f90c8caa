/** internal/proxy/pipeline.go: the RBAC, forwarding and audit part of the pipeline, for one
    request and for a JSON-RPC batch. The request has parsed and has passed authentication and
    rate limiting; there is no masker and no catalog. */
module Pipeline {
  import opened Basics
  import opened Rbac
  import opened RbacListing
  import opened RbacRoles

  /** The body that answers one request: an RBAC denial, nothing, bytes that are not JSON, JSON
      that is no JSON-RPC response, a response without a usable result, or a result. */
  datatype Reply =
    | Forbidden(id: string, reason: Reason)
    | Empty
    | NotJson(raw: string)
    | OtherJson(raw: string)
    | NoResult(raw: string)
    | Result(id: string, payload: Payload)

  /** An element of the array that answers a batch; a reply that is empty stands there as null. */
  datatype Element = Null | Answer(reply: Reply)

  /** The upstream server answers from everything forwarded to it so far. */
  type Upstream = seq<Request> -> Reply

  /** How a decoded request is encoded anew: its id has passed through a 64-bit float, and a null
      id and unknown members are gone. */
  type Encoding = Request -> Request

  datatype AuditEntry = AuditEntry(
    rpcMethod: string, toolName: string, clientID: string, sessionID: string, clientIP: string,
    outcome: Decision)

  datatype World = World(floors: Floors, forwarded: seq<Request>, audit: seq<AuditEntry>)

  /** RBAC sees an anonymous read-only identity when there is none. */
  function Effective(id: Option<Identity>): Identity {
    if id.Some? then id.value else Identity("anonymous", READ_ONLY, "")
  }

  function Entry(req: Request, id: Option<Identity>, clientIP: string, outcome: Decision): AuditEntry {
    AuditEntry(req.rpcMethod, ExtractToolName(req),
               if id.Some? then id.value.clientID else "", if id.Some? then id.value.sessionID else "",
               clientIP, outcome)
  }

  /** filterToolsListResponse; on any error the caller keeps the body as it is. */
  function FilterReply(p: Policy, floors: Floors, id: Identity, body: Reply): Reply {
    if !body.Result? then body
    else
      var filtered := Filtered(p, floors, id, body.payload);
      if filtered.Some? then body.(payload := filtered.value) else body
  }

  /** One request through the pipeline, and through a batch, apart from where they differ:
      `sent` is the form in which it is forwarded, `rbacID` is whom RBAC judges, `filterID` whom
      tools/list is filtered for, `loggedID` and `clientIP` what the audit entry names. */
  function Handled(p: Option<Policy>, up: Upstream, w: World, req: Request, sent: Request,
                   rbacID: Identity, filterID: Option<Identity>, loggedID: Option<Identity>, clientIP: string)
    : (World, Reply)
  {
    var decision := if p.Some? then Decide(p.value, w.floors, req, rbacID) else Allow;
    var logged := w.audit + [Entry(req, loggedID, clientIP, decision)];
    if decision.Deny? then
      (w.(audit := logged), Forbidden(req.id, decision.reason))
    else
      var floors := if p.Some? then Raised(p.value, w.floors, req, rbacID) else w.floors;
      var forwarded := w.forwarded + [sent];
      var body := up(forwarded);
      (World(floors, forwarded, logged),
       if req.rpcMethod == TOOLS_LIST && p.Some? && filterID.Some?
       then FilterReply(p.value, floors, filterID.value, body) else body)
  }

  /** runPipeline for a single request, which is forwarded as it came. */
  function Single(p: Option<Policy>, up: Upstream, w: World, req: Request, id: Option<Identity>, clientIP: string)
    : (World, Reply)
  {
    Handled(p, up, w, req, req, Effective(id), id, id, clientIP)
  }

  /** One iteration of processBatch, which forwards the request encoded anew and whose identity
      is already the effective one under RBAC. */
  function BatchItem(p: Option<Policy>, enc: Encoding, up: Upstream, w: World, req: Request, id: Option<Identity>)
    : (World, Reply)
  {
    var batchID := if p.Some? then Some(Effective(id)) else id;
    Handled(p, up, w, req, enc(req), Effective(id), batchID, batchID, "")
  }

  /** json.Marshal of the collected replies. One that is not JSON makes it fail as a whole, and
      the client gets no body at all. */
  function Marshalled(replies: seq<Reply>): Option<seq<Element>> {
    if replies == [] then Some([])
    else
      var before := Marshalled(Front(replies));
      if before.None? || Last(replies).NotJson? then None
      else Some(before.value + [if Last(replies).Empty? then Null else Answer(Last(replies))])
  }

  // ---------- The pipeline as an object ----------

  class Pipe {
    const rbac: Engine?
    const encode: Encoding
    const upstream: Upstream
    /** What the upstream handler has received and the audit logger was given. */
    var forwarded: seq<Request>
    var audit: seq<AuditEntry>

    constructor (rbac: Engine?, encode: Encoding, upstream: Upstream)
      ensures this.rbac == rbac && this.encode == encode && this.upstream == upstream
      ensures forwarded == [] && audit == []
    {
      this.rbac, this.encode, this.upstream, forwarded, audit := rbac, encode, upstream, [], [];
    }

    ghost function Rules(): Option<Policy> {
      if rbac == null then None else Some(rbac.Rules())
    }

    ghost function Now(): World
      reads this, rbac
    {
      World(if rbac == null then map[] else rbac.sessionFloors, forwarded, audit)
    }

    method FilterToolsListResponse(body: Reply, id: Identity) returns (r: Option<Reply>)
      requires rbac != null
      ensures (if r.Some? then r.value else body) == FilterReply(rbac.Rules(), rbac.sessionFloors, id, body)
    {
      if body.Empty? || body.NotJson? || body.OtherJson? {
        return None;
      }
      if !body.Result? {
        return Some(body);
      }
      var filtered := rbac.FilterToolsList(id, body.payload);
      if filtered.None? {
        return None;
      }
      return Some(body.(payload := filtered.value));
    }

    method RunPipeline(req: Request, id: Option<Identity>, clientIP: string) returns (reply: Reply)
      modifies this, rbac
      ensures (Now(), reply) == Single(Rules(), upstream, old(Now()), req, id, clientIP)
    {
      if rbac != null {
        var decision := rbac.Process(req, Effective(id));
        if decision.Deny? {
          audit := audit + [Entry(req, id, clientIP, decision)];
          return Forbidden(req.id, decision.reason);
        }
      }
      forwarded := forwarded + [req];
      reply := upstream(forwarded);
      if req.rpcMethod == TOOLS_LIST && rbac != null && id.Some? {
        var filtered := FilterToolsListResponse(reply, id.value);
        if filtered.Some? {
          reply := filtered.value;
        }
      }
      audit := audit + [Entry(req, id, clientIP, Allow)];
    }

    /** One iteration of processBatch; `id` is the effective identity. */
    method ProcessItem(req: Request, id: Option<Identity>, ghost identity: Option<Identity>) returns (reply: Reply)
      requires id == if rbac == null then identity else Some(Effective(identity))
      modifies this, rbac
      ensures (Now(), reply) == BatchItem(Rules(), encode, upstream, old(Now()), req, identity)
    {
      if rbac != null {
        var decision := rbac.Process(req, id.value);
        if decision.Deny? {
          audit := audit + [Entry(req, id, "", decision)];
          return Forbidden(req.id, decision.reason);
        }
      }
      forwarded := forwarded + [encode(req)];
      reply := upstream(forwarded);
      if req.rpcMethod == TOOLS_LIST && rbac != null && id.Some? {
        var filtered := FilterToolsListResponse(reply, id.value);
        if filtered.Some? {
          reply := filtered.value;
        }
      }
      audit := audit + [Entry(req, id, "", Allow)];
    }

    /** `received` is the array the client gets, or None for an empty body. */
    method ProcessBatch(reqs: seq<Request>, identity: Option<Identity>) returns (received: Option<seq<Element>>)
      modifies this, rbac
      ensures var (after, replies) := Batch(Rules(), encode, upstream, old(Now()), reqs, identity);
              Now() == after && received == Marshalled(replies)
    {
      var id := identity;
      if rbac != null {
        id := Some(Effective(identity));
      }
      var responses := new Reply[|reqs|](_ => Empty);
      for i := 0 to |reqs|
        invariant (Now(), responses[..i]) == Batch(Rules(), encode, upstream, old(Now()), reqs[..i], identity)
      {
        var req := reqs[i];
        ghost var done := responses[..i];
        BatchGrows(Rules(), encode, upstream, old(Now()), reqs, i, identity);
        var reply := ProcessItem(req, id, identity);
        responses[i] := reply;
        assert responses[..i + 1] == done + [reply];
      }
      assert reqs[..|reqs|] == reqs && responses[..|reqs|] == responses[..];
      received := Marshalled(responses[..]);
    }
  }

  // ---------- A batch against single requests ----------

  function Batch(p: Option<Policy>, enc: Encoding, up: Upstream, w: World, reqs: seq<Request>, id: Option<Identity>)
    : (World, seq<Reply>)
  {
    if reqs == [] then (w, [])
    else
      var (before, replies) := Batch(p, enc, up, w, Front(reqs), id);
      var (after, reply) := BatchItem(p, enc, up, before, Last(reqs), id);
      (after, replies + [reply])
  }

  lemma BatchGrows(p: Option<Policy>, enc: Encoding, up: Upstream, w: World, reqs: seq<Request>, i: nat,
                   id: Option<Identity>)
    requires i < |reqs|
    ensures var (before, replies) := Batch(p, enc, up, w, reqs[..i], id);
            var (after, reply) := BatchItem(p, enc, up, before, reqs[i], id);
            Batch(p, enc, up, w, reqs[..i + 1], id) == (after, replies + [reply])
  {
    assert Front(reqs[..i + 1]) == reqs[..i] && Last(reqs[..i + 1]) == reqs[i];
  }

  function Singles(p: Option<Policy>, up: Upstream, w: World, reqs: seq<Request>, id: Option<Identity>,
                   clientIP: string): (World, seq<Reply>)
  {
    if reqs == [] then (w, [])
    else
      var (before, replies) := Singles(p, up, w, Front(reqs), id, clientIP);
      var (after, reply) := Single(p, up, before, Last(reqs), id, clientIP);
      (after, replies + [reply])
  }

  /** What a batch writes in place of a single request's audit entry: no client address, and
      the anonymous identity when RBAC is on and nobody was authenticated. */
  function AsInBatch(e: AuditEntry, rbacOn: bool, id: Option<Identity>): AuditEntry {
    if rbacOn && id.None? then e.(clientIP := "", clientID := "anonymous") else e.(clientIP := "")
  }

  function AllAsInBatch(es: seq<AuditEntry>, rbacOn: bool, id: Option<Identity>): seq<AuditEntry> {
    seq(|es|, i requires 0 <= i < |es| => AsInBatch(es[i], rbacOn, id))
  }

  /** The read-only role of a compiled policy lists everything. */
  lemma {:induction false} ReadOnlyListsAll(roles: seq<RoleConfig>, ranks: Option<map<string, nat>>)
    requires READ_ONLY in CompiledRoles(roles, ranks)
    ensures CompiledRoles(roles, ranks)[READ_ONLY].denyToolsCall
  {
    if Last(roles).name != READ_ONLY {
      ReadOnlyListsAll(Front(roles), ranks);
    }
  }

  /** A policy the engine can have, or no engine. */
  ghost predicate Configured(p: Option<Policy>) {
    p.Some? ==> exists roles: seq<RoleConfig>, c: Classification :: p.value == NewPolicy(roles, c)
  }

  lemma FilterForAnonymous(p: Policy, floors: Floors, body: Reply, req: Request)
    requires Configured(Some(p)) && req.rpcMethod == TOOLS_LIST
    requires Decide(p, floors, req, Effective(None)) == Allow
    ensures FilterReply(p, floors, Effective(None), body) == body
  {
    var roles: seq<RoleConfig>, c: Classification :| p == NewPolicy(roles, c);
    ReadOnlyListsAll(roles, p.levelRank);
  }

  function Encoded(enc: Encoding, reqs: seq<Request>): seq<Request> {
    seq(|reqs|, i requires 0 <= i < |reqs| => enc(reqs[i]))
  }

  /** Encoding leaves these requests as they came. */
  ghost predicate Unchanged(enc: Encoding, reqs: seq<Request>) {
    forall i :: 0 <= i < |reqs| ==> enc(reqs[i]) == reqs[i]
  }

  /** What a batch has done against the same requests sent singly. */
  ghost predicate Mirrors(p: Option<Policy>, enc: Encoding, id: Option<Identity>, batch: World, singles: World) {
    && batch.floors == singles.floors
    && batch.forwarded == Encoded(enc, singles.forwarded)
    && batch.audit == AllAsInBatch(singles.audit, p.Some?, id)
  }

  /** One item has the decision and the effects of the request sent alone; and its reply, if
      nothing forwarded so far has changed by its encoding. */
  lemma ItemIsSingle(p: Option<Policy>, enc: Encoding, up: Upstream, batch: World, singles: World, req: Request,
                     id: Option<Identity>, clientIP: string)
    requires Configured(p) && Mirrors(p, enc, id, batch, singles)
    ensures var (alone, answer) := Single(p, up, singles, req, id, clientIP);
            var (item, reply) := BatchItem(p, enc, up, batch, req, id);
            && Mirrors(p, enc, id, item, alone)
            && |alone.audit| == |singles.audit| + 1 && Last(item.audit).outcome == Last(alone.audit).outcome
            && (Unchanged(enc, alone.forwarded) ==> reply == answer)
  {
    ItemMirrors(p, enc, up, batch, singles, req, id, clientIP);
    if Unchanged(enc, Single(p, up, singles, req, id, clientIP).0.forwarded) {
      ItemReply(p, enc, up, batch, singles, req, id, clientIP);
    }
  }

  lemma ItemMirrors(p: Option<Policy>, enc: Encoding, up: Upstream, batch: World, singles: World, req: Request,
                    id: Option<Identity>, clientIP: string)
    requires Mirrors(p, enc, id, batch, singles)
    ensures var alone := Single(p, up, singles, req, id, clientIP).0;
            var item := BatchItem(p, enc, up, batch, req, id).0;
            && Mirrors(p, enc, id, item, alone)
            && |alone.audit| == |singles.audit| + 1 && Last(item.audit).outcome == Last(alone.audit).outcome
  {
    var alone := Single(p, up, singles, req, id, clientIP).0;
    var item := BatchItem(p, enc, up, batch, req, id).0;
    assert item.audit == batch.audit + [AsInBatch(Last(alone.audit), p.Some?, id)];
    assert Encoded(enc, singles.forwarded + [req]) == Encoded(enc, singles.forwarded) + [enc(req)];
  }

  lemma ItemReply(p: Option<Policy>, enc: Encoding, up: Upstream, batch: World, singles: World, req: Request,
                  id: Option<Identity>, clientIP: string)
    requires Configured(p) && Mirrors(p, enc, id, batch, singles)
    requires Unchanged(enc, Single(p, up, singles, req, id, clientIP).0.forwarded)
    ensures BatchItem(p, enc, up, batch, req, id).1 == Single(p, up, singles, req, id, clientIP).1
  {
    var alone := Single(p, up, singles, req, id, clientIP).0;
    assert Encoded(enc, singles.forwarded + [req]) == Encoded(enc, singles.forwarded) + [enc(req)];
    UnchangedIsSame(enc, alone.forwarded);
    var lists := p.Some? && id.None? && req.rpcMethod == TOOLS_LIST;
    if lists && Decide(p.value, singles.floors, req, Effective(id)) == Allow {
      FilterForAnonymous(p.value, singles.floors, up(alone.forwarded), req);
    }
  }

  lemma UnchangedIsSame(enc: Encoding, reqs: seq<Request>)
    ensures Encoded(enc, reqs) == reqs <==> Unchanged(enc, reqs)
  {
    if Encoded(enc, reqs) == reqs {
      forall i | 0 <= i < |reqs| ensures enc(reqs[i]) == reqs[i] {
        assert Encoded(enc, reqs)[i] == reqs[i];
      }
    }
  }

  /** The floors after the requests, and the requests among them that RBAC admits, in order. */
  function Admitted(p: Option<Policy>, floors: Floors, reqs: seq<Request>, id: Option<Identity>)
    : (Floors, seq<Request>)
  {
    if reqs == [] then (floors, [])
    else
      var (before, admitted) := Admitted(p, floors, Front(reqs), id);
      if p.None? then (before, admitted + [Last(reqs)])
      else if Decide(p.value, before, Last(reqs), Effective(id)).Deny? then (before, admitted)
      else (Raised(p.value, before, Last(reqs), Effective(id)), admitted + [Last(reqs)])
  }

  /** Sent singly, exactly the admitted requests are forwarded, whatever upstream answers. */
  lemma {:induction false} SinglesForward(p: Option<Policy>, up: Upstream, floors: Floors, reqs: seq<Request>,
                                          id: Option<Identity>, clientIP: string)
    ensures var (singles, answers) := Singles(p, up, World(floors, [], []), reqs, id, clientIP);
            && singles.floors == Admitted(p, floors, reqs, id).0
            && singles.forwarded == Admitted(p, floors, reqs, id).1
            && |answers| == |reqs| == |singles.audit|
  {
    if reqs != [] {
      SinglesForward(p, up, floors, Front(reqs), id, clientIP);
    }
  }

  /** A batch against the same requests sent singly, in order: the same decisions and floors; one
      audit entry per item, equal but for the client address (and the name of the anonymous
      client); forwarded, in order, each admitted request encoded anew. It forwards the same
      requests iff the encoding changes none of them, and then has the same replies. */
  lemma {:induction false} BatchRefinesSingles(p: Option<Policy>, enc: Encoding, up: Upstream, floors: Floors,
                                               reqs: seq<Request>, id: Option<Identity>, clientIP: string)
    requires Configured(p)
    ensures var start := World(floors, [], []);
            var (batch, replies) := Batch(p, enc, up, start, reqs, id);
            var (singles, answers) := Singles(p, up, start, reqs, id, clientIP);
            var admitted := Admitted(p, floors, reqs, id).1;
            && batch.floors == singles.floors
            && batch.audit == AllAsInBatch(singles.audit, p.Some?, id) && |batch.audit| == |reqs|
            && singles.forwarded == admitted && batch.forwarded == Encoded(enc, admitted)
            && (batch.forwarded == singles.forwarded <==> Unchanged(enc, admitted))
            && |replies| == |answers| == |reqs| && (Unchanged(enc, admitted) ==> replies == answers)
  {
    BatchMirrors(p, enc, up, floors, reqs, id, clientIP);
    SinglesForward(p, up, floors, reqs, id, clientIP);
    UnchangedIsSame(enc, Admitted(p, floors, reqs, id).1);
  }

  lemma {:induction false} BatchMirrors(p: Option<Policy>, enc: Encoding, up: Upstream, floors: Floors,
                                        reqs: seq<Request>, id: Option<Identity>, clientIP: string)
    requires Configured(p)
    ensures var start := World(floors, [], []);
            var (batch, replies) := Batch(p, enc, up, start, reqs, id);
            var (singles, answers) := Singles(p, up, start, reqs, id, clientIP);
            && Mirrors(p, enc, id, batch, singles) && |replies| == |reqs|
            && (Unchanged(enc, singles.forwarded) ==> replies == answers)
  {
    if reqs != [] {
      var start := World(floors, [], []);
      BatchMirrors(p, enc, up, floors, Front(reqs), id, clientIP);
      var batch := Batch(p, enc, up, start, Front(reqs), id).0;
      var singles := Singles(p, up, start, Front(reqs), id, clientIP).0;
      ItemIsSingle(p, enc, up, batch, singles, Last(reqs), id, clientIP);
      assert singles.forwarded <= Singles(p, up, start, reqs, id, clientIP).0.forwarded;
    }
  }

  /** Reply i of a batch is the denial of request i, or what upstream said when request i was the
      last thing it had been sent, filtered for tools/list under RBAC. */
  lemma {:induction false} ReplyAnswersRequest(p: Option<Policy>, enc: Encoding, up: Upstream, w: World,
                                               reqs: seq<Request>, id: Option<Identity>, i: nat)
    requires i < |reqs|
    ensures |Batch(p, enc, up, w, reqs, id).1| == |reqs|
    ensures var reply := Batch(p, enc, up, w, reqs, id).1[i];
            var before := Batch(p, enc, up, w, reqs[..i], id).0;
            if p.Some? && Decide(p.value, before.floors, reqs[i], Effective(id)).Deny?
            then
              reply == Forbidden(reqs[i].id, Decide(p.value, before.floors, reqs[i], Effective(id)).reason)
            else
              var body := up(before.forwarded + [enc(reqs[i])]);
              reply == if p.Some? && reqs[i].rpcMethod == TOOLS_LIST
                       then FilterReply(p.value, before.floors, Effective(id), body) else body
  {
    if i < |reqs| - 1 {
      ReplyAnswersRequest(p, enc, up, w, Front(reqs), id, i);
      assert Front(reqs)[..i] == reqs[..i];
    } else {
      assert reqs[..i] == Front(reqs);
      BatchLength(p, enc, up, w, Front(reqs), id);
    }
  }

  lemma {:induction false} BatchLength(p: Option<Policy>, enc: Encoding, up: Upstream, w: World, reqs: seq<Request>,
                                       id: Option<Identity>)
    ensures |Batch(p, enc, up, w, reqs, id).1| == |reqs|
  {
    if reqs != [] {
      BatchLength(p, enc, up, w, Front(reqs), id);
    }
  }

  // ---------- What a tools/list is answered with ----------

  /** A list cut down to what the client is shown; every other body as it is. */
  function ShownReply(p: Policy, floors: Floors, id: Identity, body: Reply): Reply {
    match body
    case Result(rid, Tools(tools)) => Result(rid, Tools(Keep(tools, ShownTo(p, floors, id))))
    case _ => body
  }

  lemma ListReply(p: Policy, floors: Floors, id: Identity, body: Reply)
    requires Configured(Some(p)) && id.role in p.permissions
    ensures FilterReply(p, floors, id, body) == ShownReply(p, floors, id, body)
  {
    var roles: seq<RoleConfig>, c: Classification :| p == NewPolicy(roles, c);
    if body.Result? {
      match body.payload
      case Tools(tools) => FilteredIsShown(roles, c, floors, id, tools);
      case Garbage(_) => UnlimitedMayCall(roles, p.levelRank, id.role);
    }
  }

  /** An admitted tools/list sent alone: an authenticated client gets upstream's list without the
      tools it is not shown, and anything else as upstream sent it; without an identity nothing
      is filtered. */
  lemma SingleListIsShown(p: Policy, up: Upstream, w: World, req: Request, id: Option<Identity>, clientIP: string)
    requires Configured(Some(p)) && req.rpcMethod == TOOLS_LIST
    requires Decide(p, w.floors, req, Effective(id)) == Allow
    ensures var body := up(w.forwarded + [req]);
            Single(Some(p), up, w, req, id, clientIP).1 ==
            if id.Some? then ShownReply(p, w.floors, id.value, body) else body
  {
    if id.Some? {
      ListReply(p, w.floors, id.value, up(w.forwarded + [req]));
    }
  }

  /** Item i of a batch, an admitted tools/list, is answered in the same way. */
  lemma {:induction false} BatchListIsShown(p: Policy, enc: Encoding, up: Upstream, w: World, reqs: seq<Request>,
                                            id: Option<Identity>, i: nat)
    requires Configured(Some(p)) && i < |reqs| && reqs[i].rpcMethod == TOOLS_LIST
    requires Decide(p, Batch(Some(p), enc, up, w, reqs[..i], id).0.floors, reqs[i], Effective(id)) == Allow
    ensures |Batch(Some(p), enc, up, w, reqs, id).1| == |reqs|
    ensures var before := Batch(Some(p), enc, up, w, reqs[..i], id).0;
            Batch(Some(p), enc, up, w, reqs, id).1[i] ==
            ShownReply(p, before.floors, Effective(id), up(before.forwarded + [enc(reqs[i])]))
  {
    var before := Batch(Some(p), enc, up, w, reqs[..i], id).0;
    ReplyAnswersRequest(Some(p), enc, up, w, reqs, id, i);
    ListReply(p, before.floors, Effective(id), up(before.forwarded + [enc(reqs[i])]));
  }

  /** Without an identity a client is judged as readonly: it may initialize and, if there is a
      readonly role, list and read. */
  lemma AnonymousMayList(roles: seq<RoleConfig>, c: Classification, floors: Floors, req: Request)
    ensures Decide(NewPolicy(roles, c), floors, req, Effective(None)) == Allow <==>
            req.rpcMethod == INITIALIZE || (EntryOf(roles, READ_ONLY).Some? && Lists(req.rpcMethod))
  {
    ReasonIs(roles, c, floors, req, Effective(None));
  }

  // ---------- What the audit says ----------

  /** An entry names the request and whom it is attributed to. */
  predicate Names(e: AuditEntry, req: Request, clientID: string, sessionID: string, clientIP: string) {
    && e.rpcMethod == req.rpcMethod
    && e.toolName == (if req.rpcMethod == TOOLS_CALL then req.name else "")
    && e.clientID == clientID && e.sessionID == sessionID && e.clientIP == clientIP
  }

  /** What RBAC decides, as an outcome to log. */
  function Outcome(p: Option<Policy>, floors: Floors, req: Request, id: Option<Identity>): Decision {
    if p.None? then Allow else Decide(p.value, floors, req, Effective(id))
  }

  /** A request sent alone leaves one entry, which tells whether it was forwarded, and if not,
      why, as the client is told. */
  lemma SingleIsLogged(p: Option<Policy>, up: Upstream, w: World, req: Request, id: Option<Identity>, clientIP: string)
    ensures var (after, reply) := Single(p, up, w, req, id, clientIP);
            && |after.audit| == |w.audit| + 1 && after.audit[..|w.audit|] == w.audit
            && var e := Last(after.audit);
            && (id.Some? ==> Names(e, req, id.value.clientID, id.value.sessionID, clientIP))
            && (id.None? ==> Names(e, req, "", "", clientIP))
            && e.outcome == Outcome(p, w.floors, req, id)
            && match e.outcome
               case Allow => after.forwarded == w.forwarded + [req]
               case Deny(reason) => after.forwarded == w.forwarded && reply == Forbidden(req.id, reason)
  {}

  /** The entry of an item that took a batch from one world to the next. */
  ghost predicate Logged(p: Option<Policy>, enc: Encoding, before: World, after: World, req: Request,
                         id: Option<Identity>, e: AuditEntry)
  {
    && (id.Some? ==> Names(e, req, id.value.clientID, id.value.sessionID, ""))
    && (id.None? ==> Names(e, req, if p.Some? then "anonymous" else "", "", ""))
    && e.outcome == Outcome(p, before.floors, req, id)
    && after.forwarded == before.forwarded + if e.outcome == Allow then [enc(req)] else []
  }

  lemma ItemIsLogged(p: Option<Policy>, enc: Encoding, up: Upstream, w: World, req: Request, id: Option<Identity>)
    ensures var after := BatchItem(p, enc, up, w, req, id).0;
            after.audit == w.audit + [Last(after.audit)] && Logged(p, enc, w, after, req, id, Last(after.audit))
  {}

  /** Entry i of a batch does the same for item i, with no client address and with the anonymous
      client named when RBAC is on. */
  lemma {:induction false} BatchIsLogged(p: Option<Policy>, enc: Encoding, up: Upstream, floors: Floors,
                                         reqs: seq<Request>, id: Option<Identity>, i: nat)
    requires i < |reqs|
    ensures var start := World(floors, [], []);
            var before := Batch(p, enc, up, start, reqs[..i], id).0;
            var after := Batch(p, enc, up, start, reqs[..i + 1], id).0;
            var audit := Batch(p, enc, up, start, reqs, id).0.audit;
            |audit| == |reqs| && Logged(p, enc, before, after, reqs[i], id, audit[i])
  {
    var start := World(floors, [], []);
    var before := Batch(p, enc, up, start, Front(reqs), id).0;
    AuditLength(p, enc, up, floors, Front(reqs), id);
    ItemIsLogged(p, enc, up, before, Last(reqs), id);
    if i < |reqs| - 1 {
      BatchIsLogged(p, enc, up, floors, Front(reqs), id, i);
      assert Front(reqs)[..i] == reqs[..i] && Front(reqs)[..i + 1] == reqs[..i + 1];
    } else {
      assert reqs[..i] == Front(reqs) && reqs[..i + 1] == reqs;
    }
  }

  lemma {:induction false} AuditLength(p: Option<Policy>, enc: Encoding, up: Upstream, floors: Floors,
                                       reqs: seq<Request>, id: Option<Identity>)
    ensures |Batch(p, enc, up, World(floors, [], []), reqs, id).0.audit| == |reqs|
  {
    if reqs != [] {
      AuditLength(p, enc, up, floors, Front(reqs), id);
    }
  }

  // ---------- What the client receives ----------

  /** What upstream answers to item i of a batch, or None if RBAC denies the item. */
  function UpstreamAnswer(p: Option<Policy>, enc: Encoding, up: Upstream, w: World, reqs: seq<Request>,
                          id: Option<Identity>, i: nat): Option<Reply>
    requires i < |reqs|
  {
    var before := Batch(p, enc, up, w, reqs[..i], id).0;
    if p.Some? && Decide(p.value, before.floors, reqs[i], Effective(id)).Deny? then None
    else Some(up(before.forwarded + [enc(reqs[i])]))
  }

  function AsAnswers(replies: seq<Reply>): seq<Element> {
    seq(|replies|, i requires 0 <= i < |replies| => Answer(replies[i]))
  }

  lemma {:induction false} MarshalledAt(replies: seq<Reply>)
    ensures Marshalled(replies).Some? <==> forall i :: 0 <= i < |replies| ==> !replies[i].NotJson?
    ensures Marshalled(replies).Some? ==>
              var elements := Marshalled(replies).value;
              |elements| == |replies| &&
              forall i :: 0 <= i < |replies| ==> elements[i] == if replies[i].Empty? then Null else Answer(replies[i])
  {
    if replies != [] {
      MarshalledAt(Front(replies));
      assert forall i :: 0 <= i < |replies| - 1 ==> Front(replies)[i] == replies[i];
    }
  }

  /** One reply that is not JSON costs them all, and an empty one turns into null. */
  lemma {:induction false} MarshalledIff(replies: seq<Reply>)
    ensures Marshalled(replies).Some? <==> forall i :: 0 <= i < |replies| ==> !replies[i].NotJson?
    ensures Marshalled(replies) == Some(AsAnswers(replies)) <==>
            forall i :: 0 <= i < |replies| ==> !replies[i].NotJson? && !replies[i].Empty?
  {
    MarshalledAt(replies);
    if Marshalled(replies) == Some(AsAnswers(replies)) {
      forall i | 0 <= i < |replies| ensures !replies[i].Empty? {
        assert Marshalled(replies).value[i] == AsAnswers(replies)[i] == Answer(replies[i]);
      }
    }
    if forall i :: 0 <= i < |replies| ==> !replies[i].NotJson? && !replies[i].Empty? {
      assert Marshalled(replies).value == AsAnswers(replies);
    }
  }

  /** Filtering neither makes nor mends a reply that is empty or not JSON. */
  lemma {:induction false} BadReplyIff(p: Option<Policy>, enc: Encoding, up: Upstream, w: World, reqs: seq<Request>,
                                       id: Option<Identity>, i: nat)
    requires i < |reqs|
    ensures |Batch(p, enc, up, w, reqs, id).1| == |reqs|
    ensures var reply, answer := Batch(p, enc, up, w, reqs, id).1[i], UpstreamAnswer(p, enc, up, w, reqs, id, i);
            && (reply.NotJson? <==> answer.Some? && answer.value.NotJson?)
            && (reply.Empty? <==> answer.Some? && answer.value.Empty?)
  {
    ReplyAnswersRequest(p, enc, up, w, reqs, id, i);
  }

  /** Every upstream answer to an admitted item is JSON. */
  ghost predicate AnswersAreJson(p: Option<Policy>, enc: Encoding, up: Upstream, w: World, reqs: seq<Request>,
                                 id: Option<Identity>)
  {
    forall i :: 0 <= i < |reqs| ==>
      var answer := UpstreamAnswer(p, enc, up, w, reqs, id, i);
      answer.Some? ==> !answer.value.NotJson? && !answer.value.Empty?
  }

  /** Some upstream answer to an admitted item is neither empty nor JSON. */
  ghost predicate SomeNotJson(p: Option<Policy>, enc: Encoding, up: Upstream, w: World, reqs: seq<Request>,
                              id: Option<Identity>)
  {
    exists i :: 0 <= i < |reqs| &&
      var answer := UpstreamAnswer(p, enc, up, w, reqs, id, i);
      answer.Some? && answer.value.NotJson?
  }

  /** The array that answers a batch, in the terms of upstream's answers. */
  lemma {:induction false} ReceivedIff(p: Option<Policy>, enc: Encoding, up: Upstream, w: World, reqs: seq<Request>,
                                       id: Option<Identity>)
    ensures var replies := Batch(p, enc, up, w, reqs, id).1;
            && (Marshalled(replies) == Some(AsAnswers(replies)) <==> AnswersAreJson(p, enc, up, w, reqs, id))
            && (Marshalled(replies) == None <==> SomeNotJson(p, enc, up, w, reqs, id))
  {
    var replies := Batch(p, enc, up, w, reqs, id).1;
    BatchLength(p, enc, up, w, reqs, id);
    MarshalledIff(replies);
    forall i | 0 <= i < |reqs|
      ensures var answer := UpstreamAnswer(p, enc, up, w, reqs, id, i);
              && (replies[i].NotJson? <==> answer.Some? && answer.value.NotJson?)
              && (replies[i].Empty? <==> answer.Some? && answer.value.Empty?)
    {
      BadReplyIff(p, enc, up, w, reqs, id, i);
    }
  }

  /** The client of a batch receives every reply iff every upstream answer to an admitted item is
      JSON, and no reply at all, not even the denials, iff some answer is neither empty nor JSON.
      If the encoding changes no admitted request, those are the replies of the requests sent
      singly. */
  lemma {:induction false} ClientReceivesIff(p: Option<Policy>, enc: Encoding, up: Upstream, floors: Floors,
                                             reqs: seq<Request>, id: Option<Identity>, clientIP: string)
    requires Configured(p)
    ensures var start := World(floors, [], []);
            var replies := Batch(p, enc, up, start, reqs, id).1;
            && (Marshalled(replies) == Some(AsAnswers(replies)) <==> AnswersAreJson(p, enc, up, start, reqs, id))
            && (Unchanged(enc, Admitted(p, floors, reqs, id).1) ==>
                  (Marshalled(replies) == Some(AsAnswers(Singles(p, up, start, reqs, id, clientIP).1)) <==>
                   AnswersAreJson(p, enc, up, start, reqs, id)))
            && (Marshalled(replies) == None <==> SomeNotJson(p, enc, up, start, reqs, id))
  {
    BatchRefinesSingles(p, enc, up, floors, reqs, id, clientIP);
    ReceivedIff(p, enc, up, World(floors, [], []), reqs, id);
  }

  // ---------- When the encoding matters ----------

  /** An upstream that recognises one request. */
  function Recognises(r: Request): Upstream {
    (forwarded: seq<Request>) => OtherJson(if forwarded != [] && Last(forwarded) == r then "seen" else "other")
  }

  /** An answer that is no result reaches the client as it is. */
  lemma AnswerPasses(p: Option<Policy>, up: Upstream, w: World, req: Request, sent: Request, rbacID: Identity,
                     filterID: Option<Identity>, loggedID: Option<Identity>, clientIP: string)
    requires p.Some? ==> Decide(p.value, w.floors, req, rbacID) == Allow
    requires !up(w.forwarded + [sent]).Result?
    ensures Handled(p, up, w, req, sent, rbacID, filterID, loggedID, clientIP).1 == up(w.forwarded + [sent])
  {}

  lemma Recognised(r: Request, forwarded: seq<Request>, sent: Request)
    ensures Recognises(r)(forwarded + [sent]) == OtherJson(if sent == r then "seen" else "other")
  {
    FrontLast(forwarded, sent);
  }

  lemma BatchTells(p: Option<Policy>, enc: Encoding, w: World, id: Option<Identity>, r: Request)
    requires enc(r) != r && (p.Some? ==> Decide(p.value, w.floors, r, Effective(id)) == Allow)
    ensures BatchItem(p, enc, Recognises(r), w, r, id).1 == OtherJson("other")
  {
    Recognised(r, w.forwarded, enc(r));
    var batchID := if p.Some? then Some(Effective(id)) else id;
    AnswerPasses(p, Recognises(r), w, r, enc(r), Effective(id), batchID, batchID, "");
  }

  lemma SingleTells(p: Option<Policy>, w: World, id: Option<Identity>, clientIP: string, r: Request)
    requires p.Some? ==> Decide(p.value, w.floors, r, Effective(id)) == Allow
    ensures Single(p, Recognises(r), w, r, id, clientIP).1 == OtherJson("seen")
  {
    Recognised(r, w.forwarded, r);
    AnswerPasses(p, Recognises(r), w, r, r, Effective(id), id, id, clientIP);
  }

  lemma AppendsDiffer<T>(a: seq<T>, b: seq<T>, x: T, y: T)
    requires a != b || x != y
    ensures a + [x] != b + [y]
  {
    if a + [x] == b + [y] {
      FrontLast(a, x);
      FrontLast(b, y);
    }
  }

  /** The replies to one more request. */
  lemma OneMoreReply(p: Option<Policy>, enc: Encoding, up: Upstream, w: World, reqs: seq<Request>,
                     id: Option<Identity>, clientIP: string)
    requires reqs != []
    ensures var before := Batch(p, enc, up, w, Front(reqs), id);
            Batch(p, enc, up, w, reqs, id).1 == before.1 + [BatchItem(p, enc, up, before.0, Last(reqs), id).1]
    ensures var before := Singles(p, up, w, Front(reqs), id, clientIP);
            Singles(p, up, w, reqs, id, clientIP).1 == before.1 + [Single(p, up, before.0, Last(reqs), id, clientIP).1]
  {}

  /** If the encoding changes an admitted request, that upstream answers a batch otherwise. */
  lemma {:induction false} RecogniserTells(p: Option<Policy>, enc: Encoding, floors: Floors, reqs: seq<Request>,
                                           id: Option<Identity>, clientIP: string, r: Request)
    requires Configured(p) && r in Admitted(p, floors, reqs, id).1 && enc(r) != r
    ensures var start := World(floors, [], []);
            Batch(p, enc, Recognises(r), start, reqs, id).1 != Singles(p, Recognises(r), start, reqs, id, clientIP).1
  {
    var start, up := World(floors, [], []), Recognises(r);
    var (batch, replies) := Batch(p, enc, up, start, Front(reqs), id);
    var (singles, answers) := Singles(p, up, start, Front(reqs), id, clientIP);
    OneMoreReply(p, enc, up, start, reqs, id, clientIP);
    if r in Admitted(p, floors, Front(reqs), id).1 {
      RecogniserTells(p, enc, floors, Front(reqs), id, clientIP, r);
    } else {
      BatchMirrors(p, enc, up, floors, Front(reqs), id, clientIP);
      SinglesForward(p, up, floors, Front(reqs), id, clientIP);
      BatchTells(p, enc, batch, id, r);
      SingleTells(p, singles, id, clientIP, r);
    }
    AppendsDiffer(replies, answers, BatchItem(p, enc, up, batch, Last(reqs), id).1,
                  Single(p, up, singles, Last(reqs), id, clientIP).1);
  }

  lemma RecogniserIsJson(p: Option<Policy>, enc: Encoding, w: World, reqs: seq<Request>, id: Option<Identity>,
                         r: Request)
    ensures AnswersAreJson(p, enc, Recognises(r), w, reqs, id)
  {}

  /** Whatever upstream is, a batch has the replies of the requests sent singly, iff the encoding
      changes no admitted request. */
  lemma {:induction false} SameRepliesIff(p: Option<Policy>, enc: Encoding, floors: Floors, reqs: seq<Request>,
                                          id: Option<Identity>, clientIP: string)
    requires Configured(p)
    ensures var start := World(floors, [], []);
            (forall up: Upstream :: Batch(p, enc, up, start, reqs, id).1 == Singles(p, up, start, reqs, id, clientIP).1)
            <==> Unchanged(enc, Admitted(p, floors, reqs, id).1)
  {
    var start, admitted := World(floors, [], []), Admitted(p, floors, reqs, id).1;
    if Unchanged(enc, admitted) {
      forall up: Upstream
        ensures Batch(p, enc, up, start, reqs, id).1 == Singles(p, up, start, reqs, id, clientIP).1
      {
        BatchRefinesSingles(p, enc, up, floors, reqs, id, clientIP);
      }
    } else {
      var i :| 0 <= i < |admitted| && enc(admitted[i]) != admitted[i];
      RecogniserTells(p, enc, floors, reqs, id, clientIP, admitted[i]);
    }
  }

  /** And the client of a batch receives those replies from every upstream whose answers are
      JSON, iff the encoding changes no admitted request. */
  lemma {:induction false} ClientReceivesSinglesIff(p: Option<Policy>, enc: Encoding, floors: Floors,
                                                    reqs: seq<Request>, id: Option<Identity>, clientIP: string)
    requires Configured(p)
    ensures var start := World(floors, [], []);
            (forall up: Upstream :: AnswersAreJson(p, enc, up, start, reqs, id) ==>
               Marshalled(Batch(p, enc, up, start, reqs, id).1) ==
               Some(AsAnswers(Singles(p, up, start, reqs, id, clientIP).1)))
            <==> Unchanged(enc, Admitted(p, floors, reqs, id).1)
  {
    var start, admitted := World(floors, [], []), Admitted(p, floors, reqs, id).1;
    if Unchanged(enc, admitted) {
      forall up: Upstream | AnswersAreJson(p, enc, up, start, reqs, id)
        ensures Marshalled(Batch(p, enc, up, start, reqs, id).1) ==
                Some(AsAnswers(Singles(p, up, start, reqs, id, clientIP).1))
      {
        ClientReceivesIff(p, enc, up, floors, reqs, id, clientIP);
      }
    } else {
      var i :| 0 <= i < |admitted| && enc(admitted[i]) != admitted[i];
      var up := Recognises(admitted[i]);
      RecogniserTells(p, enc, floors, reqs, id, clientIP, admitted[i]);
      ClientReceivesIff(p, enc, up, floors, reqs, id, clientIP);
      DifferentAnswers(Batch(p, enc, up, start, reqs, id).1, Singles(p, up, start, reqs, id, clientIP).1);
      RecogniserIsJson(p, enc, start, reqs, id, admitted[i]);
    }
  }

  lemma DifferentAnswers(a: seq<Reply>, b: seq<Reply>)
    requires a != b
    ensures AsAnswers(a) != AsAnswers(b)
  {
    if |a| == |b| {
      var i :| 0 <= i < |a| && a[i] != b[i];
      assert AsAnswers(a)[i] != AsAnswers(b)[i];
    } else {
      assert |AsAnswers(a)| != |AsAnswers(b)|;
    }
  }

  // ---------- Instances ----------

  /** A path that names no server is answered in plain text
      (internal/proxy/handler.go:104-109). Sent singly, the denied call gets its denial and the
      admitted call that text; sent as a batch, both get nothing. */
  lemma UnknownServerEmptiesBatch(enc: Encoding, clientIP: string)
    ensures var p := Some(NewPolicy([RoleConfig(RESTRICTED, [], ["drop"], "")], Classification([], map[])));
            var up: Upstream := _ => NotJson("404 page not found\n");
            var id := Some(Identity("client", RESTRICTED, "session"));
            var reqs := [Request("1", TOOLS_CALL, "drop", ""), Request("2", TOOLS_CALL, "read", "")];
            var start := World(map[], [], []);
            && Singles(p, up, start, reqs, id, clientIP).1 ==
               [Forbidden("1", ToolDenied), NotJson("404 page not found\n")]
            && Marshalled(Batch(p, enc, up, start, reqs, id).1) == None
  {
    var roles := [RoleConfig(RESTRICTED, [], ["drop"], "")];
    var p := Some(NewPolicy(roles, Classification([], map[])));
    var up: Upstream := _ => NotJson("404 page not found\n");
    var id := Some(Identity("client", RESTRICTED, "session"));
    var denied, admitted := Request("1", TOOLS_CALL, "drop", ""), Request("2", TOOLS_CALL, "read", "");
    var start := World(map[], [], []);
    assert Front(roles) == [] && Last(roles) == roles[0];
    var perm := Compiled(roles[0], None);
    assert CompiledRoles(roles, None) == map[RESTRICTED := perm];
    assert "drop" in perm.denyTools && "read" !in perm.denyTools;
    assert Decide(p.value, map[], denied, id.value) == Deny(ToolDenied);
    assert Decide(p.value, map[], admitted, id.value) == Allow;
    assert Front([denied, admitted]) == [denied] && Front([denied]) == [];
    var one := Singles(p, up, start, [denied], id, clientIP);
    assert Singles(p, up, start, [], id, clientIP) == (start, []);
    assert one.1 == [Forbidden("1", ToolDenied)] && one.0.floors == map[];
    BatchLength(p, enc, up, start, [denied, admitted], id);
    BatchRefinesSingles(p, enc, up, map[], [denied], id, clientIP);
    assert Batch(p, enc, up, start, [denied, admitted], id).1[1].NotJson?;
    MarshalledIff(Batch(p, enc, up, start, [denied, admitted], id).1);
  }

  /** What becomes of two ids: one past 2^53 is rounded, null is dropped. */
  function Rounded(r: Request): Request {
    if r.id == "9007199254740993" then r.(id := "9007199254740992")
    else if r.id == "null" then r.(id := "")
    else r
  }

  /** A server that answers under the id it was sent, and not at all without one. */
  function Echo(): Upstream {
    (forwarded: seq<Request>) =>
      if forwarded == [] || Last(forwarded).id == "" then Empty else Result(Last(forwarded).id, Tools([]))
  }

  /** Sent singly, both requests are answered under their ids. In a batch the first is answered
      under another id and the second, now a notification, with null. */
  lemma IdsAreChanged(clientIP: string)
    ensures var reqs := [Request("9007199254740993", TOOLS_CALL, "read", ""), Request("null", TOOLS_CALL, "read", "")];
            var start := World(map[], [], []);
            var batch := Batch(None, Rounded, Echo(), start, reqs, None);
            var singles := Singles(None, Echo(), start, reqs, None, clientIP);
            && singles.0.forwarded == reqs && batch.0.forwarded != reqs
            && singles.1 == [Result("9007199254740993", Tools([])), Result("null", Tools([]))]
            && Marshalled(batch.1) == Some([Answer(Result("9007199254740992", Tools([]))), Null])
  {
    var large, none := Request("9007199254740993", TOOLS_CALL, "read", ""), Request("null", TOOLS_CALL, "read", "");
    var start := World(map[], [], []);
    var first, second := [large], [large, none];
    assert Front(first) == [] && Last(first) == large && Front(second) == first && Last(second) == none;
    EchoItem(start, large, clientIP);
    var batch := Batch(None, Rounded, Echo(), start, first, None);
    var alone := Singles(None, Echo(), start, first, None, clientIP);
    assert Batch(None, Rounded, Echo(), start, [], None) == (start, []);
    assert batch.1 == [Result("9007199254740992", Tools([]))] && batch.0.forwarded == [Rounded(large)];
    assert Singles(None, Echo(), start, [], None, clientIP) == (start, []);
    assert alone.1 == [Result("9007199254740993", Tools([]))] && alone.0.forwarded == [large];
    EchoItem(batch.0, none, clientIP);
    EchoItem(alone.0, none, clientIP);
    AnswerThenNull(Result("9007199254740992", Tools([])));
  }

  lemma AnswerThenNull(r: Reply)
    requires !r.NotJson? && !r.Empty?
    ensures Marshalled([r] + [Empty]) == Some([Answer(r), Null])
  {
    MarshalledAt([r] + [Empty]);
    assert Marshalled([r] + [Empty]).value == [Answer(r), Null];
  }

  lemma EchoItem(w: World, r: Request, clientIP: string)
    ensures var (item, reply) := BatchItem(None, Rounded, Echo(), w, r, None);
            && item.forwarded == w.forwarded + [Rounded(r)]
            && reply == if Rounded(r).id == "" then Empty else Result(Rounded(r).id, Tools([]))
    ensures var (item, reply) := Single(None, Echo(), w, r, None, clientIP);
            && item.forwarded == w.forwarded + [r]
            && reply == if r.id == "" then Empty else Result(r.id, Tools([]))
  {
    FrontLast(w.forwarded, Rounded(r));
    FrontLast(w.forwarded, r);
  }
}
