/** internal/audit/sinks (ocsf.go, json_http.go, cef.go over https): audit delivery by a
    bounded queue, one batching worker and a one-shot Close.

    Each action below is one atomic step of the source: a Log call reads the closed flag and
    applies the filter in one step and reaches its non-blocking send in another, the worker
    takes one ready case of its select, and Close is a chain of steps. */
module BatchSink {
  import opened Basics

  /** How far the one effective Close call has come. */
  datatype Phase = Open | Flagged | Signalled | Joined | Returned

  datatype Config<!E> = Config(batchSize: nat, bufferSize: nat, filter: E -> bool)

  /** The three sinks differ in their default batch size. */
  datatype Kind = Ocsf | JsonHttp | CefHttps

  /** A size below one means the default. */
  function NewConfig<E>(kind: Kind, batchSize: int, bufferSize: int, filter: E -> bool): (c: Config<E>)
    ensures c.batchSize > 0 && c.bufferSize > 0 && c.filter == filter
    ensures c.batchSize == (if batchSize >= 1 then batchSize
                            else if kind == Ocsf then 100 else if kind == JsonHttp then 50 else 10)
    ensures c.bufferSize == if bufferSize >= 1 then bufferSize else 1000
  {
    var defaultBatch := match kind case Ocsf => 100 case JsonHttp => 50 case CefHttps => 10;
    Config(if batchSize < 1 then defaultBatch else batchSize, if bufferSize < 1 then 1000 else bufferSize, filter)
  }

  datatype State<E> = State(
    phase: Phase,
    running: bool,              // the worker has not returned
    cleared: map<nat, E>,       // Log calls between the closed check and the send, by caller
    queue: seq<E>,              // the channel
    batch: seq<E>,              // the worker's batch
    sent: seq<seq<E>>,          // batches handed to the network
    accepted: seq<E>,           // everything the channel ever took, in order
    dropped: seq<E>)            // what Close drained

  datatype Action<E> =
    | LogCheck(caller: nat, event: E)
    | LogSend(caller: nat)
    | Receive
    | HandOver
    | Tick
    | Stop
    | CloseCall
    | CloseSignal
    | CloseJoin
    | CloseDrain

  function Start<E>(): State<E> {
    State(Open, true, map[], [], [], [], [], [])
  }

  /** The batch is complete: all the worker does next is to hand it over. */
  predicate Full<E>(c: Config<E>, s: State<E>) {
    |s.batch| >= c.batchSize
  }

  predicate Enabled<E>(c: Config<E>, s: State<E>, a: Action<E>) {
    match a
    case LogCheck(caller, _) => caller !in s.cleared
    case LogSend(caller) => caller in s.cleared
    case Receive => s.running && !Full(c, s) && s.queue != []
    case HandOver => s.running && Full(c, s)
    case Tick => s.running && !Full(c, s)
    case Stop => s.running && !Full(c, s) && s.phase == Signalled
    case CloseCall => true
    case CloseSignal => s.phase == Flagged
    case CloseJoin => s.phase == Signalled && !s.running
    case CloseDrain => s.phase == Joined
  }

  /** sendBatch, which ignores an empty batch. */
  function Send<E>(s: State<E>, batch: seq<E>): State<E> {
    if batch == [] then s.(batch := []) else s.(batch := [], sent := s.sent + [batch])
  }

  function Next<E>(c: Config<E>, s: State<E>, a: Action<E>): State<E>
    requires Enabled(c, s, a)
  {
    match a
    case LogCheck(caller, event) =>
      if s.phase == Open && c.filter(event) then s.(cleared := s.cleared[caller := event]) else s
    case LogSend(caller) =>
      var e := s.cleared[caller];
      var t := s.(cleared := s.cleared - {caller});
      if |s.queue| < c.bufferSize then t.(queue := s.queue + [e], accepted := s.accepted + [e]) else t
    case Receive => s.(queue := s.queue[1..], batch := s.batch + [s.queue[0]])
    case HandOver => Send(s, s.batch)
    case Tick => Send(s, s.batch)
    case Stop => Send(s, s.batch).(running := false)
    case CloseCall => if s.phase == Open then s.(phase := Flagged) else s
    case CloseSignal => s.(phase := Signalled)
    case CloseJoin => s.(phase := Joined)
    case CloseDrain =>
      if s.queue == [] then s.(phase := Returned)
      else s.(queue := s.queue[1..], dropped := s.dropped + [s.queue[0]])
  }

  // ---------- The sink as an object ----------

  class Sink<E> {
    const config: Config<E>
    var phase: Phase
    var running: bool
    var cleared: map<nat, E>
    var queue: seq<E>
    var batch: seq<E>
    ghost var sent: seq<seq<E>>
    ghost var accepted: seq<E>
    ghost var dropped: seq<E>

    ghost function Current(): State<E>
      reads this
    {
      State(phase, running, cleared, queue, batch, sent, accepted, dropped)
    }

    constructor (kind: Kind, batchSize: int, bufferSize: int, filter: E -> bool)
      ensures this.config == NewConfig(kind, batchSize, bufferSize, filter) && Current() == Start()
    {
      this.config := NewConfig(kind, batchSize, bufferSize, filter);
      phase, running, cleared, queue, batch, sent, accepted, dropped := Open, true, map[], [], [], [], [], [];
    }

    /** Log, up to the select. */
    method LogCheck(caller: nat, event: E)
      requires Enabled(config, Current(), Action.LogCheck(caller, event))
      modifies this
      ensures Current() == Next(config, old(Current()), Action.LogCheck(caller, event))
    {
      if phase != Open || !config.filter(event) {
        return;
      }
      cleared := cleared[caller := event];
    }

    /** The select of Log: send without blocking, or drop. */
    method LogSend(caller: nat)
      requires Enabled(config, Current(), Action.LogSend(caller))
      modifies this
      ensures Current() == Next(config, old(Current()), Action.LogSend(caller))
    {
      var event := cleared[caller];
      cleared := cleared - {caller};
      if |queue| < config.bufferSize {
        queue, accepted := queue + [event], accepted + [event];
      }
    }

    method SendBatch(events: seq<E>)
      modifies this`sent
      ensures sent == old(sent) + if events == [] then [] else [events]
    {
      if |events| == 0 {
        return;
      }
      sent := sent + [events];
    }

    /** run's case for an event, up to the comparison with the batch size. */
    method RunReceive()
      requires Enabled(config, Current(), Receive)
      modifies this
      ensures Current() == Next(config, old(Current()), Receive)
    {
      var entry := queue[0];
      queue := queue[1..];
      batch := batch + [entry];
    }

    /** The rest of that case, when the batch has become full. */
    method RunHandOver()
      requires Enabled(config, Current(), HandOver)
      modifies this
      ensures Current() == Next(config, old(Current()), HandOver)
    {
      SendBatch(batch);
      batch := [];
    }

    /** run's case for the ticker. */
    method RunTick()
      requires Enabled(config, Current(), Tick)
      modifies this
      ensures Current() == Next(config, old(Current()), Tick)
    {
      if |batch| > 0 {
        SendBatch(batch);
        batch := [];
      }
    }

    /** run's case for the closed channel. */
    method RunStop()
      requires Enabled(config, Current(), Stop)
      modifies this
      ensures Current() == Next(config, old(Current()), Stop)
    {
      if |batch| > 0 {
        SendBatch(batch);
      }
      batch, running := [], false;
    }

    /** Close, up to the compare-and-swap. */
    method CloseCall() returns (first: bool)
      modifies this
      ensures Current() == Next(config, old(Current()), Action.CloseCall)
      ensures first <==> old(phase) == Open
    {
      first := phase == Open;
      if first {
        phase := Flagged;
      }
    }

    /** Close: closing the channel the worker selects on. */
    method CloseSignal()
      requires Enabled(config, Current(), Action.CloseSignal)
      modifies this
      ensures Current() == Next(config, old(Current()), Action.CloseSignal)
    {
      phase := Signalled;
    }

    /** Close: the wait for the worker, which can end once it has returned. */
    method CloseJoin()
      requires Enabled(config, Current(), Action.CloseJoin)
      modifies this
      ensures Current() == Next(config, old(Current()), Action.CloseJoin)
    {
      phase := Joined;
    }

    /** Close, once the worker has returned: drain the channel. */
    method CloseDrain() returns (more: bool)
      requires Enabled(config, Current(), Action.CloseDrain)
      modifies this
      ensures Current() == Next(config, old(Current()), Action.CloseDrain)
      ensures more <==> old(queue) != []
    {
      more := queue != [];
      if more {
        queue, dropped := queue[1..], dropped + [queue[0]];
      } else {
        phase := Returned;
      }
    }
  }

  // ---------- Every reachable state ----------

  predicate Possible<E>(c: Config<E>, s: State<E>, actions: seq<Action<E>>)
    decreases |actions|, 0
  {
    actions == [] ||
    (Possible(c, s, Front(actions)) && Enabled(c, After(c, s, Front(actions)), Last(actions)))
  }

  function After<E>(c: Config<E>, s: State<E>, actions: seq<Action<E>>): State<E>
    requires Possible(c, s, actions)
    decreases |actions|, 1
  {
    if actions == [] then s else Next(c, After(c, s, Front(actions)), Last(actions))
  }

  function Flatten<T>(ss: seq<seq<T>>): seq<T> {
    if ss == [] then [] else Flatten(Front(ss)) + Last(ss)
  }

  /** Nothing accepted is lost or reordered: it is sent, then batched (while the worker runs)
      or drained (afterwards), then queued. */
  ghost predicate Conserved<E>(s: State<E>) {
    s.accepted == Flatten(s.sent) + (if s.running then s.batch else s.dropped) + s.queue
  }

  ghost predicate Bounded<E>(c: Config<E>, s: State<E>) {
    && |s.queue| <= c.bufferSize && |s.batch| <= c.batchSize
    && (forall k :: 0 <= k < |s.sent| ==> 1 <= |s.sent[k]| <= c.batchSize)
  }

  ghost predicate Phased<E>(s: State<E>) {
    && (!s.running ==> s.batch == [] && s.phase != Open && s.phase != Flagged)
    && (s.running ==> s.dropped == [] && s.phase != Joined && s.phase != Returned)
  }

  ghost predicate Filtered<E>(c: Config<E>, s: State<E>) {
    && (forall k :: k in s.cleared ==> c.filter(s.cleared[k]))
    && (forall k :: 0 <= k < |s.accepted| ==> c.filter(s.accepted[k]))
  }

  ghost predicate Invariant<E>(c: Config<E>, s: State<E>) {
    Conserved(s) && Bounded(c, s) && Phased(s) && Filtered(c, s)
  }

  lemma SendFlattens<E>(s: State<E>, batch: seq<E>)
    ensures Flatten(Send(s, batch).sent) == Flatten(s.sent) + batch
  {
    FrontLast(s.sent, batch);
  }

  lemma MoveHead<E>(a: seq<E>, b: seq<E>, q: seq<E>)
    requires q != []
    ensures a + b + q == a + (b + [q[0]]) + q[1..]
  {}

  lemma Regroup<E>(a: seq<E>, b: seq<E>, q: seq<E>)
    ensures a + b + q == (a + b) + [] + q
  {}

  lemma Extend<E>(a: seq<E>, q: seq<E>, e: E)
    ensures a + q + [e] == a + (q + [e])
  {}

  lemma FlushConserves<E>(c: Config<E>, s: State<E>)
    requires Conserved(s) && s.running
    ensures Conserved(Send(s, s.batch))
    ensures s.dropped == [] ==> Conserved(Send(s, s.batch).(running := false))
  {
    SendFlattens(s, s.batch);
    Regroup(Flatten(s.sent), s.batch, s.queue);
  }

  lemma StepConserves<E>(c: Config<E>, s: State<E>, a: Action<E>)
    requires Conserved(s) && Phased(s) && Enabled(c, s, a)
    ensures Conserved(Next(c, s, a))
  {
    match a
    case Receive => MoveHead(Flatten(s.sent), s.batch, s.queue);
    case HandOver => FlushConserves(c, s);
    case Tick => FlushConserves(c, s);
    case Stop => FlushConserves(c, s);
    case CloseDrain =>
      if s.queue != [] {
        MoveHead(Flatten(s.sent), s.dropped, s.queue);
      }
    case LogSend(caller) =>
      Extend(Flatten(s.sent) + (if s.running then s.batch else s.dropped), s.queue, s.cleared[caller]);
    case _ =>
  }

  lemma StepIsBounded<E>(c: Config<E>, s: State<E>, a: Action<E>)
    requires c.batchSize > 0 && Bounded(c, s) && Enabled(c, s, a)
    ensures Bounded(c, Next(c, s, a))
  {}

  lemma StepIsPhased<E>(c: Config<E>, s: State<E>, a: Action<E>)
    requires Phased(s) && Enabled(c, s, a)
    ensures Phased(Next(c, s, a))
  {}

  lemma StepIsFiltered<E>(c: Config<E>, s: State<E>, a: Action<E>)
    requires Filtered(c, s) && Enabled(c, s, a)
    ensures Filtered(c, Next(c, s, a))
  {}

  lemma StepKeeps<E>(c: Config<E>, s: State<E>, a: Action<E>)
    requires c.batchSize > 0 && Invariant(c, s) && Enabled(c, s, a)
    ensures Invariant(c, Next(c, s, a))
  {
    StepConserves(c, s, a);
    StepIsBounded(c, s, a);
    StepIsPhased(c, s, a);
    StepIsFiltered(c, s, a);
  }

  lemma {:induction false} RunKeeps<E>(c: Config<E>, s: State<E>, actions: seq<Action<E>>)
    requires c.batchSize > 0 && Invariant(c, s) && Possible(c, s, actions)
    ensures Invariant(c, After(c, s, actions))
  {
    if actions != [] {
      RunKeeps(c, s, Front(actions));
      StepKeeps(c, After(c, s, Front(actions)), Last(actions));
    }
  }

  /** One more action of a run. */
  lemma OneMore<E>(c: Config<E>, s: State<E>, actions: seq<Action<E>>, a: Action<E>)
    requires Possible(c, s, actions) && Enabled(c, After(c, s, actions), a)
    ensures Possible(c, s, actions + [a]) && After(c, s, actions + [a]) == Next(c, After(c, s, actions), a)
  {
    FrontLast(actions, a);
  }

  /** In every interleaving: what was sent is a prefix of what was accepted, in order, in
      batches of 1 to batchSize events, and while the worker runs at most bufferSize + batchSize
      accepted events are unsent; that many only when a full batch is still to be handed over and
      the queue has filled up again. */
  lemma {:induction false} SentIsPrefix<E>(c: Config<E>, actions: seq<Action<E>>)
    requires c.batchSize > 0 && Possible(c, Start(), actions)
    ensures var s := After(c, Start(), actions);
            && Flatten(s.sent) <= s.accepted
            && (forall k :: 0 <= k < |s.sent| ==> 1 <= |s.sent[k]| <= c.batchSize)
            && (s.running ==>
                  var unsent := |s.accepted| - |Flatten(s.sent)|;
                  && unsent <= c.bufferSize + c.batchSize
                  && (unsent == c.bufferSize + c.batchSize <==> Full(c, s) && |s.queue| == c.bufferSize))
            && (forall k :: 0 <= k < |s.accepted| ==> c.filter(s.accepted[k]))
  {
    RunKeeps(c, Start(), actions);
  }

  /** That many can be unsent: with room for one event in the queue and one in a batch, a second
      event is accepted before the first is handed over. */
  lemma UnsentCanBeAll<E>(c: Config<E>, event: E) returns (actions: seq<Action<E>>)
    requires c.batchSize == c.bufferSize == 1 && c.filter(event)
    ensures actions == [Action.LogCheck(0, event), Action.LogSend(0), Receive,
                        Action.LogCheck(0, event), Action.LogSend(0)]
    ensures Possible(c, Start(), actions)
    ensures After(c, Start(), actions) == State(Open, true, map[], [event], [event], [], [event, event], [])
  {
    var s: State<E> := Start();
    OneMore(c, s, [], Action.LogCheck(0, event));
    actions := [] + [Action.LogCheck(0, event)];
    OneMore(c, s, actions, Action.LogSend(0));
    actions := actions + [Action.LogSend(0)];
    assert After(c, s, actions) == State(Open, true, map[], [event], [], [], [event], []);
    OneMore(c, s, actions, Receive);
    actions := actions + [Receive];
    assert After(c, s, actions) == State(Open, true, map[], [], [event], [], [event], []);
    OneMore(c, s, actions, Action.LogCheck(0, event));
    actions := actions + [Action.LogCheck(0, event)];
    OneMore(c, s, actions, Action.LogSend(0));
    actions := actions + [Action.LogSend(0)];
  }

  // ---------- Each event once ----------

  predicate Passes<E>(c: Config<E>, s: State<E>, a: Action<E>) {
    a.LogCheck? && s.phase == Open && c.filter(a.event)
  }

  predicate MeetsFullQueue<E>(c: Config<E>, s: State<E>, a: Action<E>) {
    a.LogSend? && |s.queue| >= c.bufferSize
  }

  /** The events whose Log call passed the closed check and the filter, in order. */
  function Passed<E>(c: Config<E>, s: State<E>, actions: seq<Action<E>>): seq<E>
    requires Possible(c, s, actions)
  {
    if actions == [] then []
    else
      Passed(c, s, Front(actions)) +
      if Passes(c, After(c, s, Front(actions)), Last(actions)) then [Last(actions).event] else []
  }

  /** The events whose send met a full queue. */
  function Refused<E>(c: Config<E>, s: State<E>, actions: seq<Action<E>>): seq<E>
    requires Possible(c, s, actions)
  {
    if actions == [] then []
    else
      var t := After(c, s, Front(actions));
      Refused(c, s, Front(actions)) +
      if MeetsFullQueue(c, t, Last(actions)) then [t.cleared[Last(actions).caller]] else []
  }

  ghost function Count<E>(events: seq<E>, e: E): nat {
    multiset(events)[e]
  }

  /** The Log calls between the check and the send with the event. */
  ghost function InFlight<E>(cleared: map<nat, E>, e: E): set<nat> {
    set k | k in cleared && cleared[k] == e
  }

  lemma ClearOne<E>(cleared: map<nat, E>, caller: nat, event: E, e: E)
    requires caller !in cleared
    ensures |InFlight(cleared[caller := event], e)| == |InFlight(cleared, e)| + if event == e then 1 else 0
  {
    var held := InFlight(cleared, e);
    assert InFlight(cleared[caller := event], e) == if event == e then held + {caller} else held;
  }

  lemma SendOne<E>(cleared: map<nat, E>, caller: nat, e: E)
    requires caller in cleared
    ensures |InFlight(cleared, e)| == |InFlight(cleared - {caller}, e)| + if cleared[caller] == e then 1 else 0
  {
    var held := InFlight(cleared, e);
    assert InFlight(cleared - {caller}, e) == held - {caller};
  }

  lemma CountStep<E>(c: Config<E>, s: State<E>, a: Action<E>, e: E)
    requires Enabled(c, s, a)
    ensures var t := Next(c, s, a);
            Count(s.accepted, e) + |InFlight(s.cleared, e)| + (if Passes(c, s, a) && a.event == e then 1 else 0) ==
            Count(t.accepted, e) + |InFlight(t.cleared, e)| +
            if MeetsFullQueue(c, s, a) && s.cleared[a.caller] == e then 1 else 0
  {
    match a
    case LogCheck(caller, event) => ClearOne(s.cleared, caller, event, e);
    case LogSend(caller) => SendOne(s.cleared, caller, e);
    case _ =>
  }

  /** In every interleaving each Log call that passed the check is accepted once, or met a full
      queue, or is still on its way, and nothing else is accepted: the number of times an event
      passed is the number of times it was accepted, was refused and is in flight. */
  lemma {:induction false} EachEventOnce<E>(c: Config<E>, s: State<E>, actions: seq<Action<E>>, e: E)
    requires Possible(c, s, actions)
    ensures var t := After(c, s, actions);
            Count(s.accepted, e) + |InFlight(s.cleared, e)| + Count(Passed(c, s, actions), e) ==
            Count(t.accepted, e) + |InFlight(t.cleared, e)| + Count(Refused(c, s, actions), e)
  {
    if actions != [] {
      EachEventOnce(c, s, Front(actions), e);
      CountStep(c, After(c, s, Front(actions)), Last(actions), e);
    }
  }

  /** A batch that is handed over for its size has exactly batchSize events, and until it has
      them the worker can receive. */
  lemma {:induction false} HandsOverFull<E>(c: Config<E>, actions: seq<Action<E>>)
    requires c.batchSize > 0 && Possible(c, Start(), actions)
    ensures var s := After(c, Start(), actions);
            && (Enabled(c, s, HandOver) <==> s.running && |s.batch| == c.batchSize)
            && (Enabled(c, s, Receive) <==> s.running && |s.batch| < c.batchSize && s.queue != [])
  {
    RunKeeps(c, Start(), actions);
  }

  /** After a tick only the queue is unsent. */
  lemma {:induction false} TickFlushes<E>(c: Config<E>, actions: seq<Action<E>>)
    requires c.batchSize > 0 && Possible(c, Start(), actions) && Enabled(c, After(c, Start(), actions), Tick)
    ensures var t := Next(c, After(c, Start(), actions), Tick); t.accepted == Flatten(t.sent) + t.queue
  {
    var s := After(c, Start(), actions);
    RunKeeps(c, Start(), actions);
    StepKeeps(c, s, Tick);
    var t := Next(c, s, Tick);
    assert Flatten(t.sent) + [] == Flatten(t.sent);
  }

  predicate WorkerAction<E>(a: Action<E>) {
    a.Receive? || a.HandOver? || a.Tick?
  }

  ghost predicate WorkerOnly<E>(actions: seq<Action<E>>) {
    forall i :: 0 <= i < |actions| ==> WorkerAction(actions[i])
  }

  /** The worker alone has taken `drain` and still runs. */
  ghost predicate Draining<E>(c: Config<E>, s: State<E>, drain: seq<Action<E>>) {
    WorkerOnly(drain) && Possible(c, s, drain) &&
    var t := After(c, s, drain);
    Invariant(c, t) && t.running && t.accepted == s.accepted
  }

  lemma DrainStep<E>(c: Config<E>, s: State<E>, drain: seq<Action<E>>, a: Action<E>)
    requires c.batchSize > 0 && Draining(c, s, drain) && WorkerAction(a) && Enabled(c, After(c, s, drain), a)
    ensures Draining(c, s, drain + [a]) && After(c, s, drain + [a]) == Next(c, After(c, s, drain), a)
  {
    OneMore(c, s, drain, a);
    StepKeeps(c, After(c, s, drain), a);
  }

  lemma {:induction false} DrainQueue<E>(c: Config<E>, s: State<E>, drain: seq<Action<E>>)
    returns (longer: seq<Action<E>>)
    requires c.batchSize > 0 && Draining(c, s, drain)
    ensures Draining(c, s, longer)
    ensures After(c, s, longer).queue == [] && !Full(c, After(c, s, longer))
    decreases |After(c, s, drain).queue|, |After(c, s, drain).batch|
  {
    var t := After(c, s, drain);
    if Full(c, t) {
      DrainStep(c, s, drain, HandOver);
      longer := DrainQueue(c, s, drain + [HandOver]);
    } else if t.queue != [] {
      DrainStep(c, s, drain, Receive);
      longer := DrainQueue(c, s, drain + [Receive]);
    } else {
      longer := drain;
    }
  }

  /** From every reachable state in which the worker runs it needs nobody else, and no Close, to
      deliver everything accepted: it receives what is queued and waits for a tick. */
  lemma DrainDelivers<E>(c: Config<E>, actions: seq<Action<E>>) returns (drain: seq<Action<E>>)
    requires c.batchSize > 0 && Possible(c, Start(), actions) && After(c, Start(), actions).running
    ensures WorkerOnly(drain)
    ensures var s := After(c, Start(), actions);
            Possible(c, s, drain) && After(c, s, drain).accepted == s.accepted == Flatten(After(c, s, drain).sent)
  {
    var s := After(c, Start(), actions);
    RunKeeps(c, Start(), actions);
    drain := DrainQueue(c, s, []);
    DrainStep(c, s, drain, Tick);
    drain := drain + [Tick];
    var t := After(c, s, drain);
    assert Flatten(t.sent) + [] + [] == Flatten(t.sent);
  }

  // ---------- Close ----------

  function Stage(p: Phase): nat {
    match p case Open => 0 case Flagged => 1 case Signalled => 2 case Joined => 3 case Returned => 4
  }

  /** Close goes through its phases once, one at a time, whoever calls it how often, and returns
      only from an empty queue. */
  lemma {:induction false} CloseAdvances<E>(c: Config<E>, s: State<E>, actions: seq<Action<E>>)
    requires Possible(c, s, actions)
    ensures Stage(s.phase) <= Stage(After(c, s, actions).phase)
    ensures actions != [] ==>
              var before, after := After(c, s, Front(actions)), After(c, s, actions);
              && Stage(after.phase) <= Stage(before.phase) + 1
              && (before.phase != Returned && after.phase == Returned ==> before.queue == after.queue == [])
  {
    if actions != [] {
      CloseAdvances(c, s, Front(actions));
    }
  }

  /** Once the worker has returned nothing more is sent. */
  lemma {:induction false} SentIsFinal<E>(c: Config<E>, s: State<E>, actions: seq<Action<E>>)
    requires !s.running && Possible(c, s, actions)
    ensures var t := After(c, s, actions); !t.running && t.sent == s.sent && s.accepted <= t.accepted
  {
    if actions != [] {
      SentIsFinal(c, s, Front(actions));
    }
  }

  /** At the moment the worker stops exactly the queued events are lost. */
  lemma StopDelivers<E>(c: Config<E>, before: seq<Action<E>>, after: seq<Action<E>>)
    requires c.batchSize > 0 && Possible(c, Start(), before)
    requires var s := After(c, Start(), before); Enabled(c, s, Stop) && Possible(c, Next(c, s, Stop), after)
    ensures var s := After(c, Start(), before);
            var final := After(c, Next(c, s, Stop), after);
            s.accepted == Flatten(final.sent) + s.queue
  {
    var s := After(c, Start(), before);
    RunKeeps(c, Start(), before);
    SendFlattens(s, s.batch);
    SentIsFinal(c, Next(c, s, Stop), after);
  }

  /** What was sent or batched stays so, in its place. */
  lemma {:induction false} TakenGrows<E>(c: Config<E>, s: State<E>, actions: seq<Action<E>>)
    requires Possible(c, s, actions)
    ensures var t := After(c, s, actions); Flatten(s.sent) + s.batch <= Flatten(t.sent) + t.batch
  {
    if actions != [] {
      TakenGrows(c, s, Front(actions));
      var t := After(c, s, Front(actions));
      match Last(actions)
      case HandOver => SendFlattens(t, t.batch);
      case Tick => SendFlattens(t, t.batch);
      case Stop => SendFlattens(t, t.batch);
      case _ =>
    }
  }

  /** If only the worker's unfinished hand-over comes between, Close loses what is queued. */
  lemma CloseAtOnceLoses<E>(c: Config<E>, s: State<E>) returns (after: seq<Action<E>>)
    requires c.batchSize > 0 && Invariant(c, s) && s.phase == Open && s.queue != []
    ensures Possible(c, s, after)
    ensures var t := After(c, s, after); !t.running && !(s.accepted <= Flatten(t.sent))
  {
    OneMore(c, s, [], Action.CloseCall);
    after := [] + [Action.CloseCall];
    OneMore(c, s, after, CloseSignal);
    after := after + [CloseSignal];
    var signalled := s.(phase := Signalled);
    assert After(c, s, after) == signalled;
    if Full(c, s) {
      OneMore(c, s, after, HandOver);
      after := after + [HandOver];
    }
    var flushed := if Full(c, s) then Send(signalled, s.batch) else signalled;
    assert After(c, s, after) == flushed;
    OneMore(c, s, after, Stop);
    after := after + [Stop];
    TakenIsShort(s, flushed);
  }

  lemma TakenIsShort<E>(s: State<E>, flushed: State<E>)
    requires Conserved(s) && s.running && s.queue != []
    requires var signalled := s.(phase := Signalled);
             flushed == signalled || flushed == Send(signalled, s.batch)
    ensures !(s.accepted <= Flatten(Send(flushed, flushed.batch).sent))
  {
    SendFlattens(s.(phase := Signalled), s.batch);
    SendFlattens(flushed, flushed.batch);
    assert |Flatten(Send(flushed, flushed.batch).sent)| == |Flatten(s.sent)| + |s.batch|;
  }

  /** Close is sure to send everything accepted before it was called, whatever comes between
      its steps, iff the queue is empty at the call. */
  lemma CloseDelivers<E(!new)>(c: Config<E>, before: seq<Action<E>>)
    requires c.batchSize > 0 && Possible(c, Start(), before) && After(c, Start(), before).phase == Open
    ensures var s := After(c, Start(), before);
            (forall after :: Possible(c, s, after) && !After(c, s, after).running ==>
               s.accepted <= Flatten(After(c, s, after).sent))
            <==> s.queue == []
  {
    var s := After(c, Start(), before);
    RunKeeps(c, Start(), before);
    if s.queue == [] {
      forall after | Possible(c, s, after) && !After(c, s, after).running
        ensures s.accepted <= Flatten(After(c, s, after).sent)
      {
        TakenGrows(c, s, after);
        RunKeeps(c, s, after);
        assert Flatten(After(c, s, after).sent) + [] == Flatten(After(c, s, after).sent);
        assert s.accepted == Flatten(s.sent) + s.batch;
      }
    } else {
      var after := CloseAtOnceLoses(c, s);
    }
  }

  lemma NotOpenStep<E>(c: Config<E>, s: State<E>, a: Action<E>)
    requires s.phase != Open && Enabled(c, s, a)
    ensures Next(c, s, a).phase != Open && !Passes(c, s, a) && s.accepted <= Next(c, s, a).accepted
  {}

  lemma {:induction false} NonePassLate<E>(c: Config<E>, s: State<E>, actions: seq<Action<E>>)
    requires s.phase != Open && Possible(c, s, actions)
    ensures After(c, s, actions).phase != Open && Passed(c, s, actions) == []
    ensures s.accepted <= After(c, s, actions).accepted
  {
    if actions != [] {
      NonePassLate(c, s, Front(actions));
      NotOpenStep(c, After(c, s, Front(actions)), Last(actions));
    }
  }

  /** After Close is called, the events still accepted are ones in flight at the call: each
      occurs among them no more often than in the Log calls that had passed the check. */
  lemma LateLogsAreInFlight<E>(c: Config<E>, s: State<E>, actions: seq<Action<E>>, e: E)
    requires s.phase != Open && Possible(c, s, actions)
    ensures var t := After(c, s, actions);
            && s.accepted <= t.accepted
            && Count(t.accepted[|s.accepted|..], e) + |InFlight(t.cleared, e)| <= |InFlight(s.cleared, e)|
            && (e in t.accepted[|s.accepted|..] ==> exists k :: k in s.cleared && s.cleared[k] == e)
  {
    var t := After(c, s, actions);
    NonePassLate(c, s, actions);
    EachEventOnce(c, s, actions, e);
    var late := t.accepted[|s.accepted|..];
    assert t.accepted == s.accepted + late;
    if e in late {
      assert Count(late, e) > 0;
      assert InFlight(s.cleared, e) != {};
    }
  }

  /** A run in which an event accepted before Close was called is never sent. */
  lemma CloseCanLose<E>(c: Config<E>, event: E) returns (actions: seq<Action<E>>)
    requires c.batchSize > 0 && c.bufferSize > 0 && c.filter(event)
    ensures Possible(c, Start(), actions)
    ensures After(c, Start(), actions) == State(Returned, false, map[], [], [], [], [event], [event])
    ensures actions == [Action.LogCheck(0, event), Action.LogSend(0), Action.CloseCall, CloseSignal, Stop, CloseJoin,
                        Action.CloseDrain, Action.CloseDrain]
  {
    var s: State<E> := Start();
    actions := QueuedAtClose(c, event);
    OneMore(c, s, actions, Stop);
    actions := actions + [Stop];
    OneMore(c, s, actions, CloseJoin);
    actions := actions + [CloseJoin];
    assert After(c, s, actions) == State(Joined, false, map[], [event], [], [], [event], []);
    OneMore(c, s, actions, Action.CloseDrain);
    actions := actions + [Action.CloseDrain];
    assert After(c, s, actions) == State(Joined, false, map[], [], [], [], [event], [event]);
    OneMore(c, s, actions, Action.CloseDrain);
    actions := actions + [Action.CloseDrain];
  }

  lemma QueuedAtClose<E>(c: Config<E>, event: E) returns (actions: seq<Action<E>>)
    requires c.batchSize > 0 && c.bufferSize > 0 && c.filter(event)
    ensures actions == [Action.LogCheck(0, event), Action.LogSend(0), Action.CloseCall, CloseSignal]
    ensures Possible(c, Start(), actions)
    ensures After(c, Start(), actions) == State(Signalled, true, map[], [event], [], [], [event], [])
  {
    var s: State<E> := Start();
    OneMore(c, s, [], Action.LogCheck(0, event));
    actions := [] + [Action.LogCheck(0, event)];
    OneMore(c, s, actions, Action.LogSend(0));
    actions := actions + [Action.LogSend(0)];
    assert After(c, s, actions) == State(Open, true, map[], [event], [], [], [event], []);
    OneMore(c, s, actions, Action.CloseCall);
    actions := actions + [Action.CloseCall];
    OneMore(c, s, actions, CloseSignal);
    actions := actions + [CloseSignal];
  }
}
