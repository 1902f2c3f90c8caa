# Verified model of the MCP zero-trust proxy

This project models the stateful core of the proxy in Dafny and proves properties of it that
hold for every input, every run or every interleaving.

| part | files |
|---|---|
| JSON nesting limit applied before decoding | `JsonGrammar`, `DepthLimit`, `DepthExactness` |
| token cache: a doubly linked list and a map | `LruSpec`, `LruCache`, `LruHistory` |
| one-time PKCE state | `PkceFlow` |
| sessions with sliding expiry | `SessionStore` |
| audit delivery by a bounded queue and a batching worker | `BatchSink` |
| rotating audit file | `FileSink` |
| role-based access control with session floors | `Rbac`, `RbacRoles`, `RbacFloors`, `RbacListing` |
| single and batch requests through RBAC, upstream and audit | `Pipeline` |
| PII masks, CEF escaping, aggregated tool names | `PiiMasker`, `CefSanitizer`, `ServerRouter` |
| shared vocabulary | `Basics`, `Text` |

Code that changes state is a class or a method with loops, proved equal to a function of the
old state. What the source promises is then proved about those functions over whole runs.
Time, random values and the answers of other systems are parameters. A byte is a `char`.

`dafny verify dfyconfig.toml` checks the whole project.

## Conventions

- A run is a sequence of operations or atomic steps; functions named `After`, `Run` or
  `FloorsAfter` give the state it leads to.
- Concurrency is a state machine over atomic steps: one lock region, one channel operation or
  one atomic flag operation is one step. Time orders are stated as non-decreasing stamps.
- The upstream server is an arbitrary function of everything forwarded to it so far; a regular
  expression is an arbitrary function whose matches are in bounds, ordered and disjoint; a map
  iteration is a loop that picks any remaining key.
- A JSON text is one by the grammar of RFC 8259, written down apart from the scanner.
  `EveryValueHasTexts` gives every value a text with any whitespace in every gap, `NumberParts`
  and `StringBodyParts` show that the productions of sections 6 and 7 are covered.

## Where the code and its documentation differ

The model follows the code.

- `Close` of the network sinks is documented to flush pending events
  (internal/audit/sinks/ocsf.go:285). It flushes the worker's batch and drops the queue.
  Delivery of what was accepted before the call is certain iff the queue is empty at the call
  (`CloseDelivers`); `CloseCanLose` is an instance.
- docs/CLASSIFICATION.md:95 says a floor never drops. That holds with one call at a time
  (`FloorIsLastAdmitted`). With the read and the write of the floor interleaved it can drop
  (`FloorCanFall`); `WriteLowersIff` says when, `CoveredStays` from which moment it cannot, and
  `FloorIsLargestSinceUnread` what it is after any interleaving.
- docs/CLASSIFICATION.md:206 says the tools list matches what can be called. For a role with an
  allow set it does, except that the deny list is not consulted (`ListedIffCallable`); other
  known roles see the unfiltered list. `ListingIsExactIff` says exactly when the list is what can
  be called, `ListingCanDiffer` is an instance.
- A restricted role without allowed tools may call every tool (internal/rbac/engine.go:120-125),
  although internal/rbac/roles.go:14 reads as if it could call none (`ToolsByRole`).
- A role without a classification level is not limited to the lowest level, as
  internal/config/types.go:208 says, but not limited at all; the floor still binds it.
- Aggregation renames on collision so that names stay apart (internal/proxy/server_router.go:242).
  `CanCollideIff` says for which cached lists some walk gives one name twice, `NamesCanCollide` is
  an instance; `CollideIffCrossed` says for a given walk which two names coincide.
- A batch should answer every request in the order of the items (internal/proxy/pipeline.go:577).
  The replies are marshalled together (lines 689-693), so one upstream answer that is not JSON
  leaves the client with an empty body: no answers, not even the denials. An upstream answer
  that is empty becomes null. `ClientReceivesIff` is the exact condition. The plain-text answer
  to an unknown server path (internal/proxy/handler.go:104-109) is an instance
  (`UnknownServerEmptiesBatch`); a single request gets that text.
- A batch encodes each admitted request anew (internal/proxy/pipeline.go:628) where a single
  request is forwarded as it came. An id that passed through a 64-bit float may come out as
  another number, and a null id and unknown members are dropped (internal/proxy/interfaces.go:10-15),
  so upstream can see, and answer, another request. The encoding is an arbitrary function here;
  `SameRepliesIff` and `ClientReceivesSinglesIff` say exactly when it does not matter,
  `IdsAreChanged` is an instance.
- Audit entries of a batch carry no client address (internal/proxy/pipeline.go:590-601), unlike
  those of single requests; with RBAC on and nobody authenticated they name the client
  "anonymous". `BatchRefinesSingles` states both.
- Logout lists sessions with a strict comparison (internal/auth/session.go:212) and lookup is
  not strict (line 184), so a session that expires at the instant of the logout survives a
  lookup made at that instant (`LogoutBoundary`). `LogoutIsFinalIff` is the condition over all
  runs.
- A negative show count lengthens partially masked text (`PartialLengthIff`).

## Model

| member | source | states |
|---|---|---|
| DepthLimit.SkipWS | internal/proxy/depth_limit.go:76-81 | the index of the first byte at or after the start that is not whitespace |
| DepthLimit.SkipString | internal/proxy/depth_limit.go:185-197 | the loop computes StringEnd for every input, never reading out of bounds although an escape can step past the end |
| DepthLimit.WalkArray | internal/proxy/depth_limit.go:83-110 | computes ArrayEnd on arbitrary bytes, terminates, and opens at most a number of walker calls that depends on the remaining depth alone |
| DepthLimit.WalkKey | internal/proxy/depth_limit.go:123-137 | the key part of an iteration of walkObject: a quoted string and its colon |
| DepthLimit.WalkMember | internal/proxy/depth_limit.go:122-152 | one iteration of that loop: it fails, finishes, or goes on at a later index with the same verdict |
| DepthLimit.WalkObject | internal/proxy/depth_limit.go:112-153 | the same for ObjectEnd |
| DepthLimit.WalkValue | internal/proxy/depth_limit.go:155-183 | the same for ValueEnd, including a scalar that consumes nothing |
| DepthLimit.StringEnd | internal/proxy/depth_limit.go:185-197 | a successful end lies past the start and within the input; a failed one is at most one past the input |
| DepthLimit.ValueEnd | internal/proxy/depth_limit.go:155-183 | a successful end lies between the start and the length |
| DepthLimit.ArrayEnd | internal/proxy/depth_limit.go:83-110 | a successful end lies strictly past the start and within the input |
| DepthLimit.ObjectEnd | internal/proxy/depth_limit.go:112-153 | a successful end lies strictly past the start and within the input |
| DepthLimit.LimitedUnmarshaler.constructor | internal/proxy/depth_limit.go:18-23 | a limit that is not positive becomes 32 |
| DepthLimit.LimitedUnmarshaler.CheckDepth | internal/proxy/depth_limit.go:38-63 | on trimmed input, the verdict of Check, with a call stack linear in the limit |
| DepthLimit.LimitedUnmarshaler.Unmarshal | internal/proxy/depth_limit.go:26-36 | the verdict before decoding is Check of the whole text |
| DepthExactness.ValueExact | internal/proxy/depth_limit.go:155-183 | walkValue started on any rendered value stops just past it if its nesting fits the remaining depth and fails otherwise |
| DepthExactness.ArrayExact | internal/proxy/depth_limit.go:83-110 | the same for walkArray, started past the opening bracket |
| DepthExactness.ObjectExact | internal/proxy/depth_limit.go:112-153 | the same for walkObject |
| DepthExactness.DepthCheckExact | internal/proxy/depth_limit.go:26-63 | for every JSON value and every RFC 8259 text of it with any whitespace, the check passes iff the container nesting is at most the limit |
| DepthExactness.EmptyIff | internal/proxy/depth_limit.go:27-30 | input is reported as empty iff it is all whitespace |
| DepthExactness.VerdictBy | internal/proxy/depth_limit.go:48-60 | on any other input, well-formed or not, the first byte that is not blank decides which error there can be |
| DepthExactness.MalformedCanPass | internal/proxy/depth_limit.go:155-183 | the scanner accepts two malformed texts, left to the decoder |
| LruCache.RecencyList.PushFront | internal/auth/oauth.go:64-66 | the linked list gains an element in front, links and size intact |
| LruCache.RecencyList.Remove | internal/auth/oauth.go:58-62 | exactly the element at its position leaves the linked list |
| LruCache.RecencyList.MoveToFront | internal/auth/oauth.go:53 | the element moves to the front and the others keep their order |
| LruCache.Cache.constructor | internal/auth/oauth.go:166-175 | a size that is not positive becomes 1000 |
| LruCache.Cache.Put | internal/auth/oauth.go:49-67 | list and map still agree and stand for the recency sequence after a put |
| LruCache.Cache.Get | internal/auth/oauth.go:70-85 | the answer is the identity of an unexpired entry, which becomes the most recent; an expired one is dropped |
| LruCache.Cache.Delete | internal/auth/oauth.go:88-95 | exactly the key's slot leaves the sequence |
| LruCache.Cache.Cleanup | internal/auth/oauth.go:98-110 | the walk from the back removes exactly the expired slots |
| LruHistory.RunIsBounded | internal/auth/oauth.go:36-67 | in every run each key is held once and the size limit is kept |
| LruHistory.RunHoldsLastPuts | internal/auth/oauth.go:49-110 | whatever a run leaves in the cache is the last value put under its key and not deleted since |
| LruHistory.HitIsLastPut | internal/auth/oauth.go:70-85 | a successful get returns the last value put, before its expiry |
| LruHistory.HitIff | internal/auth/oauth.go:70-85 | in every run a get answers with an identity iff the key is cached and that identity was last put under it and has not expired |
| LruHistory.RunIsLatestFirst | internal/auth/oauth.go:49-85 | in every run the sequence orders keys by their last put or hit |
| LruHistory.EvictsLeastRecentlyUsed | internal/auth/oauth.go:57-66 | putting a new key evicts nothing below capacity, and at capacity exactly the key whose last use in the history is earliest |
| LruHistory.RemovalsAreExact | internal/auth/oauth.go:70-110 | a delete, a get of an expired entry and a sweep remove exactly the slots they are for and keep the rest in order |
| LruHistory.StepKeeps | internal/auth/oauth.go:49-110 | an operation that spares a key keeps it, and only keys it uses move ahead of it |
| LruHistory.Retention | internal/auth/oauth.go:49-85 | a key put or hit stays cached while it is neither deleted nor found expired and fewer than maxSize distinct other keys are put or hit |
| LruHistory.RetainedIsHit | internal/auth/oauth.go:49-85 | and a get then finds the last value put, as long as it has not expired |
| PkceFlow.StateCache.HandleAuthStart | internal/auth/oauth.go:427-430 | stores the verifier and time under the state |
| PkceFlow.StateCache.HandleCallback | internal/auth/oauth.go:465-513 | every outcome in order of the checks; the entry is consumed exactly when the checks before the lookup pass |
| PkceFlow.StateCache.RunCleanup | internal/auth/oauth.go:225-231 | in any iteration order exactly the entries older than ten minutes go |
| PkceFlow.ExchangesAreStarted | internal/auth/oauth.go:427-509 | in every run a verifier is exchanged, counting those still pending, no more often than it was started |
| PkceFlow.OneTimeUse | internal/auth/oauth.go:496-509 | a fresh verifier reaches the token exchange at most once |
| PkceFlow.TableIsUnused | internal/auth/oauth.go:225-231 | the table is the history's unused starts, up to entries too old to matter |
| PkceFlow.ExchangeIff | internal/auth/oauth.go:469-509 | a callback exchanges exactly the verifier of its state's unused start, within ten minutes, iff code, state and an equal cookie are present |
| PkceFlow.RefusalIs | internal/auth/oauth.go:469-506 | why a callback is refused, over whole runs: the checks in their order, then no unused start, or one more than ten minutes ago |
| PkceFlow.SweptIff | internal/auth/oauth.go:225-231 | after a sweep exactly the unused starts of the last ten minutes are left |
| PkceFlow.UnusedWasStarted | internal/auth/oauth.go:427-430 | an unused start is a start event of that very state |
| PkceFlow.SweepsChangeNoExchange | internal/auth/oauth.go:225-231 | deleting the sweeps from a time-ordered run changes nothing sent to the token endpoint, if what they drop is too old |
| PkceFlow.InterleavedSweepsChangeNoExchange | internal/auth/oauth.go:225-231 | with fresh states that holds of sweeps that read and delete entry by entry among starts and callbacks |
| SessionStore.Sessions.constructor | internal/auth/session.go:113-117 | a missing or non-positive TTL becomes one day |
| SessionStore.Sessions.Create | internal/auth/session.go:146-170 | the store gains a session that expires one TTL from now |
| SessionStore.Sessions.Get | internal/auth/session.go:175-194 | succeeds iff present and not past expiry, returns the stored session and extends it, and drops it when expired |
| SessionStore.Sessions.Delete | internal/auth/session.go:197-201 | exactly the id leaves the store |
| SessionStore.Sessions.GetByClientID | internal/auth/session.go:205-218 | in any map order, the stored objects of the client's unexpired sessions, each once |
| SessionStore.Sessions.Cleanup | internal/auth/session.go:226-236 | in any map order, exactly the expired sessions go |
| SessionStore.Sessions.Logout | internal/auth/oauth.go:549-555 | exactly the listed sessions of the client are deleted |
| SessionStore.RemovedAreExpired | internal/auth/session.go:175-236 | against a store that never removes expired sessions, only sessions past their expiry are missing |
| SessionStore.SameAnswers | internal/auth/session.go:175-236 | lazy deletion and sweeps change no answer of Get or GetByClientID in any time-ordered run |
| SessionStore.ListedIff | internal/auth/session.go:205-218 | a session is listed for a client iff it is stored, the client's and not expired |
| SessionStore.FoundIffGapsWithin | internal/auth/session.go:184-191 | Get succeeds exactly when the session exists and every gap between its accesses, up to now, is at most the TTL |
| SessionStore.LookedUpIff | internal/auth/session.go:184-187 | after a lookup the session is stored iff the lookup found it |
| SessionStore.SweptIff | internal/auth/session.go:226-236 | after a sweep exactly the sessions are stored that a lookup would find |
| SessionStore.LogoutIff | internal/auth/oauth.go:549-555 | with nothing in between, a session the client had is found at or after the logout iff expiry, logout and lookup coincide |
| SessionStore.LogoutSparesOthers | internal/auth/oauth.go:549-555 | a logout leaves the sessions of every other client as they were |
| SessionStore.LogoutIsFinal | internal/auth/oauth.go:549-555 | no run from the logout on makes such a session retrievable, unless it expires at the logout and something happens at that very instant |
| SessionStore.LogoutIsFinalIff | internal/auth/oauth.go:549-555 | over all runs from the logout on: such a session is never retrievable at a later time iff it did not expire at the instant of the logout |
| SessionStore.LogoutBoundary | internal/auth/session.go:184-212 | the instance at the boundary: a lookup at the instant of the logout revives the session |
| BatchSink.NewConfig | internal/audit/sinks/json_http.go:48-66 | positive sizes are kept, others become the sink's default batch size and 1000 |
| BatchSink.Sink.constructor | internal/audit/sinks/ocsf.go:55-88 | sizes below one become the defaults, which differ between the three sinks |
| BatchSink.Sink.LogCheck | internal/audit/sinks/json_http.go:110-118 | the step of Log up to the select, with its filter |
| BatchSink.Sink.LogSend | internal/audit/sinks/ocsf.go:109-116 | the non-blocking send: the event joins the queue or is dropped when it is full |
| BatchSink.Sink.SendBatch | internal/audit/sinks/ocsf.go:155-158 | a batch is handed over unless it is empty |
| BatchSink.Sink.RunReceive | internal/audit/sinks/ocsf.go:144-145 | the worker moves the oldest event to its batch |
| BatchSink.Sink.RunHandOver | internal/audit/sinks/ocsf.go:146-149 | a batch of batchSize is handed over, in a step of its own |
| BatchSink.Sink.RunTick | internal/audit/sinks/cef.go:234-238 | the ticker flushes a batch that is not empty |
| BatchSink.Sink.RunStop | internal/audit/sinks/ocsf.go:130-135 | on close the worker flushes its batch and returns, whatever is queued |
| BatchSink.Sink.CloseCall | internal/audit/sinks/ocsf.go:286-289 | one call of Close wins, the others return |
| BatchSink.Sink.CloseSignal | internal/audit/sinks/ocsf.go:291 | the closed channel becomes ready for the worker |
| BatchSink.Sink.CloseJoin | internal/audit/sinks/ocsf.go:292 | Close goes on once the worker has returned |
| BatchSink.Sink.CloseDrain | internal/audit/sinks/ocsf.go:294-302 | drains the channel and then returns |
| BatchSink.StepConserves | internal/audit/sinks/ocsf.go:104-152 | every atomic step keeps accepted = sent, then batched or drained, then queued, in order |
| BatchSink.RunKeeps | internal/audit/sinks/ocsf.go:104-303 | every interleaving keeps conservation, the bounds and the filter |
| BatchSink.SentIsPrefix | internal/audit/sinks/json_http.go:110-160 | in every interleaving of callers, worker, ticker and Close the sent batches concatenate to a prefix of the accepted events, have 1 to batchSize events, and leave at most bufferSize + batchSize unsent while the worker runs, that many iff a full batch awaits its hand-over and the queue is full |
| BatchSink.UnsentCanBeAll | internal/audit/sinks/ocsf.go:144-149 | an interleaving that reaches that bound |
| BatchSink.HandsOverFull | internal/audit/sinks/ocsf.go:144-149 | in every reachable state a batch is handed over for its size iff it has exactly batchSize events, and until then the worker can receive |
| BatchSink.EachEventOnce | internal/audit/sinks/ocsf.go:104-116 | in every interleaving each Log call past the check is accepted once, or met a full queue, or is on its way, and nothing else is accepted |
| BatchSink.TickFlushes | internal/audit/sinks/ocsf.go:137-142 | in every reachable state, after a tick only queued events are unsent |
| BatchSink.DrainDelivers | internal/audit/sinks/ocsf.go:126-151 | from every reachable state with a running worker, steps of the worker alone deliver everything accepted |
| BatchSink.CloseAdvances | internal/audit/sinks/ocsf.go:286-303 | however often Close is called it goes through its phases once and in order, and returns only from an empty queue |
| BatchSink.SentIsFinal | internal/audit/sinks/ocsf.go:130-135 | nothing is sent after the worker returned |
| BatchSink.CloseDelivers | internal/audit/sinks/ocsf.go:286-303 | whatever comes between its steps, Close sends all that was accepted before the call iff the queue is empty at the call |
| BatchSink.StopDelivers | internal/audit/sinks/ocsf.go:126-135 | when the worker stops exactly the queued events are lost |
| BatchSink.LateLogsAreInFlight | internal/audit/sinks/ocsf.go:104-117 | the events accepted after Close is called are ones that Log calls already past the check carry, each no more often than they carry it |
| BatchSink.CloseCanLose | internal/audit/sinks/ocsf.go:286-303 | an interleaving in which an event accepted before Close is never sent |
| FileSink.Sink.constructor | internal/audit/sinks/file.go:67-112 | appends to an existing file, starts the count at zero, derives limit and backups |
| FileSink.Sink.ShouldRotate | internal/audit/sinks/file.go:184-200 | due by size or by age |
| FileSink.Sink.Rotate | internal/audit/sinks/file.go:205-239 | the counting-down renames compute Rotated, with gaps among the backups too |
| FileSink.Sink.Log | internal/audit/sinks/file.go:161-177 | append, count, rotate if due |
| FileSink.RotationPlaces | internal/audit/sinks/file.go:214-228 | after a rotation the log is empty, backup 1 is the old log, backup i holds what backup i - 1 held, or is missing with it, and other paths are untouched |
| FileSink.NothingElseIsLost | internal/audit/sinks/file.go:123-239 | in every run the whole dropped oldest backups, then backups N to 1, then the log, read as everything ever written, in order |
| FileSink.BytesWrittenIs | internal/audit/sinks/file.go:164-172 | the count is the size of the log less what it held when opened, until the first rotation |
| FileSink.BelowLimit | internal/audit/sinks/file.go:175-191 | with a size limit the count is below it after every write |
| FileSink.AgeBound | internal/audit/sinks/file.go:192-198 | with an age limit the run's lines in the log are its last ones, none written longer than the limit before the last write |
| FileSink.SizeRule | internal/audit/sinks/file.go:159-192 | from an empty log the count is the size, and a backup made by the size rule holds at least the limit and less than the limit plus its last line |
| FileSink.BackupIsOneLog | internal/audit/sinks/file.go:175-239 | with any limits, backup n is the whole log the n-th last rotation put away, and that log was filled by size or made old by age |
| FileSink.AllBackupsFilled | internal/audit/sinks/file.go:205-239 | without an age limit every backup in every run was filled by size |
| Rbac.Engine.ToSet | internal/rbac/engine.go:120-138 | the loops over tool names build the set of names |
| Rbac.Engine.CompileRole | internal/rbac/engine.go:82-141 | the compiled permission of every kind of role |
| Rbac.Engine.constructor | internal/rbac/engine.go:54-79 | the policy of a configuration, inactive classification included; no floors |
| Rbac.Engine.Process | internal/rbac/engine.go:146-195 | the decision, and the one floor a call may raise |
| Rbac.Engine.CheckClassification | internal/rbac/engine.go:199-235 | admits by role maximum and floor, and writes the floor only on admission |
| Rbac.Engine.FilterToolsList | internal/rbac/engine.go:254-320 | the filtered list, the pass-through cases and the parse error |
| RbacRoles.LastEntryWins | internal/rbac/engine.go:74-77 | of several entries with one name the last decides the role |
| RbacRoles.RankIsLastIndex | internal/rbac/engine.go:63-66 | a level's rank is its last position among the configured levels |
| RbacRoles.MethodsByRole | internal/rbac/engine.go:94-130 | which requests other than tools/call a role passes, in the terms of its configuration |
| RbacRoles.ClassifiedIff | internal/rbac/engine.go:61-72 | classification is active iff levels and assignments are both configured |
| RbacRoles.RankIsPlace | internal/rbac/engine.go:202-208 | a tool's rank is the last position of its assigned level, and zero without one or with an unknown one |
| RbacRoles.ToolsByRole | internal/rbac/engine.go:82-141 | which tools a role may call, in the terms of its configuration: entry, deny and allow list, and positions of levels |
| RbacRoles.ReasonIs | internal/rbac/engine.go:146-225 | the decision on every request, with the reason of a denial, in the terms of the configuration and the session's floor |
| RbacRoles.FloorsMove | internal/rbac/engine.go:227-232 | an admitted tools/call leaves the tool's position as its session's floor, and nothing else moves a floor |
| RbacFloors.FloorIsLastAdmitted | internal/rbac/engine.go:146-235 | in any sequential run over any sessions and roles the ranks admitted in a session never decrease and its floor is the last of them |
| RbacFloors.AdmittedIff | internal/rbac/engine.go:146-235 | a tools/call is admitted iff the role may call the tool and its rank is at least every rank admitted in the session before |
| RbacFloors.DenialsLeaveNoTrace | internal/rbac/engine.go:146-235 | a run without its denied calls has the same floors and admits the same ranks in every session |
| RbacFloors.TwoStepsAreOne | internal/rbac/engine.go:219-232 | the two lock regions without interruption are one Process call |
| RbacFloors.WriteLowersIff | internal/rbac/engine.go:228-231 | a write lowers a floor iff its check read no floor and the floor is now higher than its rank |
| RbacFloors.CoveredStays | internal/rbac/engine.go:219-232 | in every interleaving, once a session has a floor and no pending check that read none, its floor never decreases and covers every completed check |
| RbacFloors.FloorIsLargestSinceUnread | internal/rbac/engine.go:219-232 | in every interleaving from the start a floor is exactly the largest rank completed since the session's last check that read no floor |
| RbacFloors.OneUnreadCheckIsSafe | internal/rbac/engine.go:219-232 | in every interleaving, while at most one check of a session read no floor its floor is the largest rank it completed |
| RbacFloors.FloorCanFall | internal/rbac/engine.go:219-232 | two interleaved first calls take a floor from 2 to 0 |
| RbacListing.AllowSetMayCall | internal/rbac/engine.go:94-130 | a compiled role with a non-empty allow set may call tools |
| RbacListing.ListedIffCallable | internal/rbac/engine.go:254-320 | for a role with an allow set the list is, in order, exactly the tools Process would admit, and those it rejects for the deny list alone |
| RbacListing.ListingIsExactIff | internal/rbac/engine.go:254-320 | the list shows exactly what Process would admit iff no listed tool is denied while allowed and in range, or for a role without allow set denied or out of range, or listed for readonly |
| RbacListing.GarbageListed | internal/rbac/engine.go:254-277 | what becomes of a payload that is no list: nothing for an unknown role, unchanged without an allow set, an error otherwise |
| RbacListing.ListingCanDiffer | internal/rbac/engine.go:263-265 | a concrete policy under which an admin is shown a tool it may not call |
| RbacListing.FloorsRise | internal/rbac/engine.go:227-232 | floors only rise along a sequential run |
| RbacListing.ListOnlyShrinks | internal/rbac/engine.go:282-312 | the list shown later in a run is the earlier one filtered again |
| Pipeline.Pipe.FilterToolsListResponse | internal/proxy/pipeline.go:698-724 | filters a result, passes errors through, fails on what does not parse |
| Pipeline.Pipe.RunPipeline | internal/proxy/pipeline.go:445-560 | floors, forwarding, reply and audit entry of one request |
| Pipeline.Pipe.ProcessItem | internal/proxy/pipeline.go:588-687 | one iteration: decision, audit entry, the request encoded anew and forwarded, reply |
| Pipeline.Pipe.ProcessBatch | internal/proxy/pipeline.go:578-694 | the loop computes Batch: reply i, floors, forwarded requests and audit; the client receives the replies marshalled together |
| Pipeline.ItemIsSingle | internal/proxy/pipeline.go:588-687 | one item has the decision and the effects of the request sent alone, forwarded as encoded; and its reply, if the encoding has changed nothing forwarded so far |
| Pipeline.BatchRefinesSingles | internal/proxy/pipeline.go:578-687 | a batch has the decisions, floors and audit entries of the same requests sent singly in order, but for the client address and the anonymous name, and forwards each admitted request encoded anew; it forwards the same requests iff the encoding changes none of them, and then has the same replies |
| Pipeline.SameRepliesIff | internal/proxy/pipeline.go:628-653 | whatever upstream answers the replies are those of the requests sent singly, iff the encoding changes no admitted request |
| Pipeline.ReplyAnswersRequest | internal/proxy/pipeline.go:604-682 | reply i is the denial of request i or what upstream answered to it as encoded, filtered iff it is tools/list under RBAC |
| Pipeline.SingleListIsShown | internal/proxy/pipeline.go:531-535 | an admitted tools/list sent alone: an authenticated client gets upstream's list without the tools it is not shown, in order, and any other answer as it is |
| Pipeline.BatchListIsShown | internal/proxy/pipeline.go:674-680 | the same for item i of a batch |
| Pipeline.AnonymousMayList | internal/proxy/pipeline.go:449-450 | without an identity a client may initialize and, if there is a readonly role, list and read |
| Pipeline.SingleIsLogged | internal/proxy/pipeline.go:446-560 | a request leaves one audit entry, which names it and its client and tells whether it was forwarded, and if not, the reason the client is told |
| Pipeline.BatchIsLogged | internal/proxy/pipeline.go:588-687 | the same for entry i of a batch and item i, with no client address |
| Pipeline.MarshalledIff | internal/proxy/pipeline.go:689-693 | the array is written iff every reply is JSON or empty, and carries every reply iff none is empty either |
| Pipeline.ClientReceivesIff | internal/proxy/pipeline.go:578-694 | the client of a batch receives every reply iff every upstream answer to an admitted item is JSON, and no reply at all iff one is neither JSON nor empty; with an encoding that changes no admitted request those are the replies of the requests sent singly |
| Pipeline.ClientReceivesSinglesIff | internal/proxy/pipeline.go:578-694 | the client of a batch receives the replies of the requests sent singly, from every upstream whose answers are JSON, iff the encoding changes no admitted request |
| Pipeline.UnknownServerEmptiesBatch | internal/proxy/handler.go:104-109 | a denied and an admitted call to an unknown server: two replies singly, none as a batch |
| Pipeline.IdsAreChanged | internal/proxy/pipeline.go:628 | a large and a null id: answered under their ids singly, under another id and with null in a batch |
| PiiMasker.ApplyPattern | internal/pii/masker.go:454-479 | the builder loop computes Masked over all matches |
| PiiMasker.MaskingKeepsGaps | internal/pii/masker.go:463-478 | for any disjoint matches the unmatched segments stay, in order, and each match is replaced once |
| PiiMasker.PlainMaskIsConstant | internal/pii/masker.go:524-530 | a full mask without a dollar sign replaces every match by itself |
| PiiMasker.FullMaskHides | internal/pii/masker.go:454-530 | such a mask stands in the output in place of every match |
| PiiMasker.GroupMask | internal/pii/masker.go:524-530 | a full mask that names group k puts the text of that group in its place |
| PiiMasker.PartialLengthIff | internal/pii/masker.go:482-522 | a partially masked match keeps its length iff neither show count is negative |
| PiiMasker.PartialAt | internal/pii/masker.go:482-522 | which bytes of a match are hidden |
| PiiMasker.NegativeShows | internal/pii/masker.go:482-522 | with one negative count the other end is shown and all else hidden |
| PiiMasker.PartialMaskIsLocal | internal/pii/masker.go:454-522 | the output has the input's length and differs only at the middle bytes of matches longer than both counts |
| PiiMasker.ApplyPatterns | internal/pii/masker.go:441-451 | the named patterns are applied one after the other |
| PiiMasker.FieldsCompose | internal/pii/masker.go:441-451 | fields are applied one after the other to the result of those before |
| PiiMasker.OneField | internal/pii/masker.go:444-447 | a field with a pattern has all its matches replaced |
| PiiMasker.UnknownField | internal/pii/masker.go:445 | a field without a pattern changes nothing |
| PiiMasker.PartialMasksKeepLength | internal/pii/masker.go:441-451 | with partial masks the length stays in any order of the fields |
| PiiMasker.TraversalIsLocal | internal/pii/masker.go:400-438 | at every path of a JSON value, strings are masked, and shape, keys and other values stay |
| CefSanitizer.SanitizeIsOnePass | internal/audit/sinks/cef.go:320-330 | the eight replacements equal one pass that treats each byte by itself |
| CefSanitizer.SanitizeReadsBack | internal/audit/sinks/cef.go:320-330 | removing one escape level gives back the cleaned input, and no delimiter stands unescaped |
| CefSanitizer.SanitizeHasNoBlanks | internal/audit/sinks/cef.go:325-328 | no line end, tab or space survives |
| CefSanitizer.SanitizeCollidesIff | internal/audit/sinks/cef.go:320-330 | two inputs give the same output iff they clean to the same text |
| ServerRouter.Router.UpdateToolsCache | internal/proxy/server_router.go:230-238 | overwrites one server's entry with a fresh one |
| ServerRouter.Router.GetToolsFromCache | internal/proxy/server_router.go:298-315 | the tools of an entry that has not expired |
| ServerRouter.ServedIff | internal/proxy/server_router.go:230-315 | after any run of updates a server's tools are served iff they came with its last update, no longer than the TTL ago |
| ServerRouter.Router.GetAggregatedTools | internal/proxy/server_router.go:243-295 | for some order of the cache and a clock read anew for each server, the names given to the fresh tools in that order |
| ServerRouter.EachFreshToolOnce | internal/proxy/server_router.go:252-262 | in any order each tool occurs as often as in its server's fresh list |
| ServerRouter.EachUpdatedToolOnce | internal/proxy/server_router.go:230-262 | after any run of updates a walk yields each tool as often as its server's last update listed it, if that is no longer than the TTL ago |
| ServerRouter.NamedAt | internal/proxy/server_router.go:268-292 | output k is tool k, named server first iff no earlier tool has its bare name |
| ServerRouter.CollideIffCrossed | internal/proxy/server_router.go:268-292 | for dot-free, per-server unique names, two outputs coincide iff each tool is named like the other's server and one of them collided |
| ServerRouter.CanCollideIff | internal/proxy/server_router.go:243-295 | with dot-free, per-server unique names, some walk of the cache emits one name twice iff two fresh servers each list a tool named like the other and a further listing of one of these names exists |
| ServerRouter.NamesAreDistinct | internal/proxy/server_router.go:243-295 | for any walk, names are distinct if besides no fresh server lists a tool with the name of a fresh server |
| ServerRouter.NamesCanCollide | internal/proxy/server_router.go:273-284 | a cache of three servers with clean names and a walk of it that give one name twice |

## Left out

- DepthLimit.WalkArray: the index of a failed walk is modelled, the text of the errors is not.
- JSON decoding after the depth check, and byte-level encoding of requests and replies: the standard library does it.
- LruCache.RecencyList.PushFront: stands for container/list, modelled as a list with null ends; the sentinel ring of that library is not part of this model.
- SessionStore.Sessions.Get: one clock reading stands for the two the source takes in a row; the session's data map, role, email and creation time are not modelled.
- SessionStore.Sessions.Logout: the listing and the deletions are one step; the source takes the lock anew for each.
- PkceFlow.StateCache.RunCleanup: the method is one step against starts and callbacks; sweeps that interleave with them are events of the runs.
- Persistence of sessions to a file, and the token exchange itself: I/O.
- BatchSink.Sink.LogSend: the CEF transports other than https send at once and are not modelled; what a batch looks like on the wire is not either.
- The filter's glob patterns (internal/audit/sinks/ocsf.go:330-404): any predicate stands for them.
- FileSink.Sink.Log: failed or short writes, failed opens, the 64-bit counter's range and Close are not modelled; output "both" is not either.
- Pipeline.Pipe.RunPipeline: authentication, rate limits, body size, SSE, the masker, the catalog and requests that do not parse come before or beside the modelled part.
- Pipeline.BatchRefinesSingles: the encoding of a request is an arbitrary function; which ids a 64-bit float keeps is not modelled.
- Pipeline.Pipe.FilterToolsListResponse: a filtered reply keeps its id; the source decodes and encodes it anew (internal/proxy/pipeline.go:700-723), for single requests and batches alike, so a large id may come back rounded.
- Pipeline.Pipe.ProcessBatch: HTTP status, headers, the white space of the array and the error of line 628, which a parsed request cannot cause; the timestamp, latency and request id of audit entries.
- Rbac.Engine.FilterToolsList: fields of a tool other than its name and description, some of which the source drops when it encodes the list again.
- PiiMasker.ApplyPattern: the regular expression engine; the maskers that pick fields of tools/call and resources/read responses; building the patterns, the default mask and the filler from the configuration.
- ServerRouter.Router.GetAggregatedTools: the background refresh of stale entries.
- Configuration loading, JWT, hashing, randomness, the token bucket, the SQLite catalog and the Supabase functions.
