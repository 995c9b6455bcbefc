/**
 The telemetry sink and its worker: a lock-protected registry of open streams, a bounded
 first-in-first-out channel that drops when full, and a worker with its own stream map.

 Every caller operation holds the registry lock across its `try_send`, so each is one atomic
 step; so is the worker's handling of one message. `Next` is one such step on the abstract
 `State`, the class performs the steps, and the lemmas are about every interleaving of them.
 */
module PerformanceTelemetry {
  import opened Wrappers

  type StreamId = string

  const QUEUE_CAPACITY := 256
  const MAX_U64 := 0xFFFF_FFFF_FFFF_FFFF
  const MAX_WIRE_INTEGER := 0x7FFF_FFFF_FFFF_FFFF
  const MAX_SNAPSHOT_PARTS := 256

  datatype Message = Open(id: StreamId) | Batch(id: StreamId) | Close(id: StreamId) | Shutdown

  datatype Outcome = Accepted | Dropped | Invalid

  /** The next sequence number and batch number of one stream. */
  datatype WorkerStream = WorkerStream(nextSequence: nat, batchSequence: nat)

  /** What the worker hands to the socket, in order; a close that cannot be encoded sends nothing. */
  datatype Event =
    | Opened(id: StreamId, sequence: nat)
    | Snapshot(id: StreamId, sequence: nat, batch: nat, part: nat, parts: nat)
    | Closed(id: StreamId, sequence: nat)
    | CloseRejected(id: StreamId)

  datatype Counters = Counters(accepted: nat, dropped: nat, invalid: nat)

  datatype State = State(
    registry: set<StreamId>,
    queue: seq<Message>,
    running: bool,
    shutdownStarted: bool,
    worker: map<StreamId, WorkerStream>,
    log: seq<Event>,
    counters: Counters)

  const INITIAL := State({}, [], true, false, map[], [], Counters(0, 0, 0))

  // ---------------------------------------------------------------- the steps

  function Count(c: Counters, outcome: Outcome): Counters {
    match outcome
    case Accepted => c.(accepted := c.accepted + 1)
    case Dropped => c.(dropped := c.dropped + 1)
    case Invalid => c.(invalid := c.invalid + 1)
  }

  /** The channel takes a message unless it is full or the worker is gone. */
  predicate HasRoom(s: State) {
    s.running && |s.queue| < QUEUE_CAPACITY
  }

  function TrySend(s: State, message: Message): (State, Outcome) {
    if HasRoom(s)
    then (s.(queue := s.queue + [message], counters := Count(s.counters, Accepted)), Accepted)
    else (s.(counters := Count(s.counters, Dropped)), Dropped)
  }

  function Reject(s: State): (State, Outcome) {
    (s.(counters := Count(s.counters, Invalid)), Invalid)
  }

  function OpenStream(s: State, id: StreamId, encodes: bool): (State, Outcome) {
    if !encodes || id in s.registry then Reject(s)
    else
      var (t, outcome) := TrySend(s, Open(id));
      (if outcome.Accepted? then t.(registry := t.registry + {id}) else t, outcome)
  }

  function RecordBatch(s: State, id: StreamId, wellFormed: bool): (State, Outcome) {
    if id !in s.registry || !wellFormed then Reject(s) else TrySend(s, Batch(id))
  }

  function CloseStream(s: State, id: StreamId, timeValid: bool): (State, Outcome) {
    if id !in s.registry || !timeValid then Reject(s)
    else
      var (t, outcome) := TrySend(s, Close(id));
      (if outcome.Accepted? then t.(registry := t.registry - {id}) else t, outcome)
  }

  /** Only the first request counts; it is lost when the channel has no room. */
  function RequestShutdown(s: State): State {
    if s.shutdownStarted then s
    else
      var t := s.(shutdownStarted := true);
      if HasRoom(t) then t.(queue := t.queue + [Shutdown]) else t
  }

  function Saturating(n: nat): nat {
    if n < MAX_U64 then n + 1 else MAX_U64
  }

  /**
   How many datagrams a snapshot encodes to. `chunks` is what splitting the metrics by size
   gave, None when that failed; numbering the parts must stay within the wire's integers.
   */
  function EncodeSnapshot(sequence: nat, chunks: Option<nat>): (parts: Option<nat>)
    ensures parts.Some? ==> sequence + parts.value <= MAX_WIRE_INTEGER
  {
    if sequence == 0 || sequence > MAX_WIRE_INTEGER || chunks.None? then None
    else if chunks.value > MAX_SNAPSHOT_PARTS then None
    else if chunks.value > 0 && sequence + chunks.value > MAX_WIRE_INTEGER then None
    else chunks
  }

  /** The datagrams of one batch from part `part` on. */
  function Snapshots(id: StreamId, sequence: nat, batch: nat, part: nat, parts: nat): seq<Event>
    requires part <= parts
    decreases parts - part
  {
    if part == parts then []
    else [Snapshot(id, sequence, batch, part, parts)] + Snapshots(id, sequence + 1, batch, part + 1, parts)
  }

  function CloseEvent(id: StreamId, stream: WorkerStream, encodes: bool): Event {
    if encodes then Closed(id, stream.nextSequence) else CloseRejected(id)
  }

  /** The closes of a shutdown, in the order in which the map happens to be drained. */
  function CloseAll(worker: map<StreamId, WorkerStream>, order: seq<StreamId>, encodes: set<StreamId>): seq<Event>
    requires forall id :: id in order ==> id in worker
  {
    if order == [] then []
    else [CloseEvent(order[0], worker[order[0]], order[0] in encodes)] + CloseAll(worker, order[1..], encodes)
  }

  predicate Lists(order: seq<StreamId>, keys: set<StreamId>) {
    && (forall id :: id in keys ==> id in order)
    && (forall id :: id in order ==> id in keys)
    && (forall i, j :: 0 <= i < j < |order| ==> order[i] != order[j])
  }

  /** What the worker cannot know beforehand: encoder results and the map's drain order. */
  datatype Surroundings = Surroundings(
    chunks: Option<nat>,
    rejectedMetrics: nat,
    encodes: set<StreamId>,
    order: seq<StreamId>)

  /** The worker handles the oldest message; an empty channel blocks it. */
  function Receive(s: State, env: Surroundings): State {
    if !s.running || s.queue == [] then s
    else
      var t := s.(queue := s.queue[1..]);
      match s.queue[0]
      case Open(id) =>
        t.(log := t.log + [Opened(id, 0)], worker := t.worker[id := WorkerStream(1, 0)])
      case Batch(id) =>
        if id !in t.worker then t.(counters := Count(t.counters, Invalid))
        else
          var stream := t.worker[id];
          (match EncodeSnapshot(stream.nextSequence, env.chunks)
           case None => t.(counters := Count(t.counters, Invalid))
           case Some(parts) =>
             var next := WorkerStream(stream.nextSequence + parts, Saturating(stream.batchSequence));
             t.(log := t.log + Snapshots(id, stream.nextSequence, stream.batchSequence, 0, parts),
                worker := t.worker[id := next],
                counters := t.counters.(invalid := t.counters.invalid + env.rejectedMetrics)))
      case Close(id) =>
        if id !in t.worker then t.(counters := Count(t.counters, Invalid))
        else
          t.(log := t.log + [CloseEvent(id, t.worker[id], id in env.encodes)],
             worker := t.worker - {id},
             counters := if id in env.encodes then t.counters else Count(t.counters, Invalid))
      case Shutdown =>
        if !Lists(env.order, t.worker.Keys) then s  // not an order the map could be drained in
        else t.(log := t.log + CloseAll(t.worker, env.order, env.encodes),
                worker := map[], running := false, queue := [])
  }

  datatype Action =
    | DoOpen(id: StreamId, encodes: bool)
    | DoRecord(id: StreamId, wellFormed: bool)
    | DoClose(id: StreamId, timeValid: bool)
    | DoShutdown
    | DoReceive(env: Surroundings)

  function Next(s: State, a: Action): State {
    match a
    case DoOpen(id, encodes) => OpenStream(s, id, encodes).0
    case DoRecord(id, wellFormed) => RecordBatch(s, id, wellFormed).0
    case DoClose(id, timeValid) => CloseStream(s, id, timeValid).0
    case DoShutdown => RequestShutdown(s)
    case DoReceive(env) => Receive(s, env)
  }

  function Run(s: State, actions: seq<Action>): State
    decreases |actions|
  {
    if actions == [] then s else Run(Next(s, actions[0]), actions[1..])
  }

  // ---------------------------------------------------------------- registry and queue agree

  /** Handling `queue` from the open streams `keys`; None when a message misses its stream or an
      open hits a live one. */
  function Replay(keys: set<StreamId>, queue: seq<Message>): Option<set<StreamId>>
    decreases |queue|
  {
    if queue == [] then Some(keys)
    else match queue[0]
      case Open(id) => if id in keys then None else Replay(keys + {id}, queue[1..])
      case Batch(id) => if id in keys then Replay(keys, queue[1..]) else None
      case Close(id) => if id in keys then Replay(keys - {id}, queue[1..]) else None
      case Shutdown => Replay(keys, queue[1..])
  }

  lemma {:induction false} ReplayAppend(keys: set<StreamId>, queue: seq<Message>, message: Message)
    requires Replay(keys, queue).Some?
    ensures Replay(keys, queue + [message]) == Replay(Replay(keys, queue).value, [message])
    decreases |queue|
  {
    if queue == [] {
      assert queue + [message] == [message];
    } else {
      assert (queue + [message])[1..] == queue[1..] + [message];
      var after := match queue[0]
        case Open(id) => keys + {id}
        case Batch(id) => keys
        case Close(id) => keys - {id}
        case Shutdown => keys;
      ReplayAppend(after, queue[1..], message);
    }
  }

  /** The registry is the worker's stream keys after replaying the queue. */
  ghost predicate InStep(s: State) {
    && |s.queue| <= QUEUE_CAPACITY
    && (s.running ==> Replay(s.worker.Keys, s.queue) == Some(s.registry))
    && (!s.running ==> s.queue == [] && s.worker == map[])
    && (!s.shutdownStarted ==> s.running && Shutdown !in s.queue)
  }

  lemma InitialInStep()
    ensures InStep(INITIAL)
  {
    assert INITIAL.worker.Keys == {};
  }

  lemma InStepNext(s: State, a: Action)
    requires InStep(s)
    ensures InStep(Next(s, a))
  {
    match a
    case DoOpen(id, encodes) => if s.running { ReplayAppend(s.worker.Keys, s.queue, Open(id)); }
    case DoRecord(id, wellFormed) => if s.running { ReplayAppend(s.worker.Keys, s.queue, Batch(id)); }
    case DoClose(id, timeValid) => if s.running { ReplayAppend(s.worker.Keys, s.queue, Close(id)); }
    case DoShutdown => if s.running { ReplayAppend(s.worker.Keys, s.queue, Shutdown); }
    case DoReceive(env) => ReceiveInStep(s, env);
  }

  lemma ReceiveInStep(s: State, env: Surroundings)
    requires InStep(s)
    ensures InStep(Receive(s, env))
  {
    if s.running && s.queue != [] {
      var t := Receive(s, env);
      match s.queue[0]
      case Open(id) => assert t.worker.Keys == s.worker.Keys + {id};
      case Batch(id) => assert t.worker.Keys == s.worker.Keys;
      case Close(id) => assert t.worker.Keys == s.worker.Keys - {id};
      case Shutdown =>
    }
  }

  /** Main result: in every interleaving, registry and worker agree up to the queued messages. */
  lemma {:induction false} RegistryIsReplayedWorker(s: State, actions: seq<Action>)
    requires InStep(s)
    ensures InStep(Run(s, actions))
    decreases |actions|
  {
    if actions == [] {
    } else {
      InStepNext(s, actions[0]);
      RegistryIsReplayedWorker(Next(s, actions[0]), actions[1..]);
    }
  }

  /** The message at position `i` of a replayable queue finds the stream it needs, or none to hit. */
  lemma {:induction false} EveryMessageFits(keys: set<StreamId>, queue: seq<Message>, i: nat)
    requires Replay(keys, queue).Some? && i < |queue|
    ensures Replay(keys, queue[..i]).Some?
    ensures var at := Replay(keys, queue[..i]).value;
            match queue[i]
            case Open(id) => id !in at
            case Batch(id) => id in at
            case Close(id) => id in at
            case Shutdown => true
    decreases |queue|
  {
    if i == 0 {
    } else {
      var after := match queue[0]
        case Open(id) => keys + {id}
        case Batch(id) => keys
        case Close(id) => keys - {id}
        case Shutdown => keys;
      EveryMessageFits(after, queue[1..], i - 1);
      assert queue[..i][1..] == queue[1..][..i - 1];
    }
  }

  /** Hence the worker never meets an unknown stream and never overwrites a live one. */
  lemma UnknownStreamBranchesUnreachable(actions: seq<Action>)
    ensures var s := Run(INITIAL, actions);
            s.running && s.queue != [] ==>
              match s.queue[0]
              case Open(id) => id !in s.worker
              case Batch(id) => id in s.worker
              case Close(id) => id in s.worker
              case Shutdown => true
  {
    InitialInStep();
    RegistryIsReplayedWorker(INITIAL, actions);
    var s := Run(INITIAL, actions);
    if s.running && s.queue != [] {
      EveryMessageFits(s.worker.Keys, s.queue, 0);
      assert s.queue[..0] == [];
    }
  }

  /** A dropped close changes nothing but the counter: both sides still hold the stream. */
  lemma DroppedCloseLeavesBothOpen(s: State, id: StreamId, timeValid: bool)
    requires InStep(s) && CloseStream(s, id, timeValid).1.Dropped?
    ensures var t := CloseStream(s, id, timeValid).0;
            && id in t.registry && t.registry == s.registry && t.queue == s.queue && t.worker == s.worker
            && (t.running ==> id in Replay(t.worker.Keys, t.queue).value)
  {
  }

  // ---------------------------------------------------------------- a lost shutdown

  /** Shutdown was requested, but the worker will never hear of it. */
  ghost predicate ShutdownLost(s: State) {
    s.shutdownStarted && s.running && Shutdown !in s.queue
  }

  /** A lost shutdown stays lost: the worker runs on and no shutdown close is ever attempted. */
  lemma {:induction false} LostStaysLost(s: State, actions: seq<Action>)
    requires ShutdownLost(s)
    ensures ShutdownLost(Run(s, actions))
    decreases |actions|
  {
    if actions == [] {
    } else {
      LostStaysLost(Next(s, actions[0]), actions[1..]);
    }
  }

  lemma {:induction false} AnOrder(keys: set<StreamId>) returns (order: seq<StreamId>)
    ensures Lists(order, keys)
    decreases |keys|
  {
    if keys == {} {
      order := [];
    } else {
      var id :| id in keys;
      order := AnOrder(keys - {id});
      order := [id] + order;
    }
  }

  /** A queued shutdown is reached by the worker alone. */
  lemma {:induction false} QueuedShutdownIsReached(s: State) returns (more: seq<Action>)
    requires s.running && Shutdown in s.queue
    ensures !Run(s, more).running
    decreases |s.queue|
  {
    var order := AnOrder(s.worker.Keys);
    var receive := DoReceive(Surroundings(None, 0, {}, order));
    var t := Next(s, receive);
    if s.queue[0].Shutdown? {
      more := [];
      assert Run(t, []) == t;
    } else {
      more := QueuedShutdownIsReached(t);
    }
    assert ([receive] + more)[1..] == more;
    more := [receive] + more;
  }

  /** The first request can stop the worker in some continuation exactly when it found room. */
  lemma ShutdownTakesEffectIff(s: State)
    requires InStep(s) && !s.shutdownStarted
    ensures (exists more: seq<Action> :: !Run(RequestShutdown(s), more).running) <==> |s.queue| < QUEUE_CAPACITY
    ensures |s.queue| == QUEUE_CAPACITY <==> ShutdownLost(RequestShutdown(s))
  {
    hide Run;
    var t := RequestShutdown(s);
    if HasRoom(s) {
      assert t.queue[|s.queue|] == Shutdown;
      var more := QueuedShutdownIsReached(t);
    } else {
      forall more: seq<Action>
        ensures Run(t, more).running
      {
        LostStaysLost(t, more);
      }
    }
  }

  lemma {:induction false} RunConcat(s: State, front: seq<Action>, back: seq<Action>)
    ensures Run(s, front + back) == Run(Run(s, front), back)
    decreases |front|
  {
    hide Next;
    if front == [] {
      assert front + back == back;
    } else {
      assert (front + back)[1..] == front[1..] + back;
      RunConcat(Next(s, front[0]), front[1..], back);
    }
  }

  lemma {:induction false} NotYetRequested(s: State, actions: seq<Action>)
    requires InStep(s) && !s.shutdownStarted && DoShutdown !in actions
    ensures !Run(s, actions).shutdownStarted
    decreases |actions|
  {
    hide InStep;
    if actions == [] {
    } else {
      InStepNext(s, actions[0]);
      NotYetRequested(Next(s, actions[0]), actions[1..]);
    }
  }

  /**
   Main result: over whole runs, the worker can ever stop exactly when the first shutdown request
   met a channel with room; otherwise it runs on whatever happens later, later requests included.
   */
  lemma FirstRequestDecides(before: seq<Action>)
    requires DoShutdown !in before
    ensures (exists more: seq<Action> :: !Run(INITIAL, before + [DoShutdown] + more).running)
            <==> |Run(INITIAL, before).queue| < QUEUE_CAPACITY
  {
    hide Run, InStep;
    var s := Run(INITIAL, before);
    InitialInStep();
    RegistryIsReplayedWorker(INITIAL, before);
    NotYetRequested(INITIAL, before);
    ShutdownTakesEffectIff(s);
    if more: seq<Action> :| !Run(RequestShutdown(s), more).running {
      AfterRequest(before, more);
    }
    if more: seq<Action> :| !Run(INITIAL, before + [DoShutdown] + more).running {
      AfterRequest(before, more);
    }
  }

  lemma AfterRequest(before: seq<Action>, more: seq<Action>)
    ensures Run(INITIAL, before + [DoShutdown] + more) == Run(RequestShutdown(Run(INITIAL, before)), more)
  {
    hide Run;
    assert before + [DoShutdown] + more == before + ([DoShutdown] + more);
    RunConcat(INITIAL, before, [DoShutdown] + more);
    RunConcat(Run(INITIAL, before), [DoShutdown], more);
    RunOne(Run(INITIAL, before), DoShutdown);
  }

  lemma RunOne(s: State, a: Action)
    ensures Run(s, [a]) == Next(s, a)
  {
    assert [a][1..] == [];
  }

  /** The given number of batches of one stream. */
  function Records(id: StreamId, n: nat): seq<Action> {
    seq(n, _ => DoRecord(id, true))
  }

  lemma {:induction false} RecordsFill(s: State, id: StreamId, n: nat)
    requires s.running && id in s.registry && |s.queue| + n <= QUEUE_CAPACITY
    ensures var t := Run(s, Records(id, n)); t.running && |t.queue| == |s.queue| + n
    decreases n
  {
    if n == 0 {
    } else {
      assert Records(id, n)[1..] == Records(id, n - 1);
      RecordsFill(Next(s, DoRecord(id, true)), id, n - 1);
    }
  }

  /** The concrete failure: one stream with 255 batches fills the channel, and the shutdown is lost. */
  lemma FullChannelLosesShutdown(more: seq<Action>)
    ensures var before := [DoOpen("a", true)] + Records("a", QUEUE_CAPACITY - 1);
            Run(INITIAL, before + [DoShutdown] + more).running
  {
    hide Next;
    var open, records := DoOpen("a", true), Records("a", QUEUE_CAPACITY - 1);
    var before := [open] + records;
    OpenedFirst();
    RunConcat(INITIAL, [open], records);
    RunOne(INITIAL, open);
    RecordsFill(Next(INITIAL, open), "a", QUEUE_CAPACITY - 1);
    assert DoShutdown !in before;
    FirstRequestDecides(before);
  }

  lemma OpenedFirst()
    ensures var t := Next(INITIAL, DoOpen("a", true));
            t.running && "a" in t.registry && t.queue == [Open("a")]
  {
  }

  // ---------------------------------------------------------------- what goes on the wire

  /** The part of a snapshot that must come next: its batch, its number and the total. */
  datatype Expected = Expected(batch: nat, part: nat, parts: nat)

  /** What a receiver may see next of one stream. */
  datatype Phase =
    | Absent
    | Live(next: nat, minBatch: nat, expected: Option<Expected>)

  /** One event of the stream, or None when it breaks the protocol. */
  function Follow(p: Phase, e: Event): Option<Phase> {
    match e
    case Opened(_, sequence) =>
      if p.Absent? && sequence == 0 then Some(Live(1, 0, None)) else None
    case Snapshot(_, sequence, batch, part, parts) =>
      if p.Absent? || sequence != p.next || batch > MAX_U64 then None
      else if p.expected == Some(Expected(batch, part, parts))
              || (p.expected.None? && part == 0 && batch >= p.minBatch)
      then
        if part + 1 < parts then Some(Live(sequence + 1, p.minBatch, Some(Expected(batch, part + 1, parts))))
        else if part + 1 == parts then Some(Live(sequence + 1, Saturating(batch), None))
        else None
      else None
    case Closed(_, sequence) =>
      if p.Live? && p.expected.None? && sequence == p.next then Some(Absent) else None
    case CloseRejected(_) =>
      if p.Live? && p.expected.None? then Some(Absent) else None
  }

  /** The phase of stream `id` after the events, None when the protocol was broken. */
  function PhaseAfter(p: Phase, events: seq<Event>, id: StreamId): Option<Phase>
    decreases |events|
  {
    if events == [] then Some(p)
    else if events[0].id != id then PhaseAfter(p, events[1..], id)
    else match Follow(p, events[0])
      case None => None
      case Some(q) => PhaseAfter(q, events[1..], id)
  }

  lemma {:induction false} PhaseAfterAppend(p: Phase, front: seq<Event>, back: seq<Event>, id: StreamId)
    requires PhaseAfter(p, front, id).Some?
    ensures PhaseAfter(p, front + back, id) == PhaseAfter(PhaseAfter(p, front, id).value, back, id)
    decreases |front|
  {
    if front == [] {
      assert front + back == back;
    } else {
      assert (front + back)[1..] == front[1..] + back;
      if front[0].id != id {
        PhaseAfterAppend(p, front[1..], back, id);
      } else {
        PhaseAfterAppend(Follow(p, front[0]).value, front[1..], back, id);
      }
    }
  }

  /** The parts of one batch carry one batch number and consecutive sequence numbers. */
  lemma {:induction false} SnapshotsFollow(p: Phase, id: StreamId, batch: nat, part: nat, parts: nat)
    requires p.Live? && part < parts && batch <= MAX_U64
    requires if part == 0 then p.expected.None? && batch >= p.minBatch
             else p.expected == Some(Expected(batch, part, parts))
    ensures PhaseAfter(p, Snapshots(id, p.next, batch, part, parts), id)
         == Some(Live(p.next + (parts - part), Saturating(batch), None))
    decreases parts - part
  {
    var events := Snapshots(id, p.next, batch, part, parts);
    assert events[1..] == Snapshots(id, p.next + 1, batch, part + 1, parts);
    if part + 1 == parts {
    } else {
      SnapshotsFollow(Follow(p, events[0]).value, id, batch, part + 1, parts);
    }
  }

  lemma {:induction false} OthersSnapshots(p: Phase, id: StreamId, other: StreamId, sequence: nat, batch: nat,
      part: nat, parts: nat)
    requires part <= parts && id != other
    ensures PhaseAfter(p, Snapshots(other, sequence, batch, part, parts), id) == Some(p)
    decreases parts - part
  {
    if part == parts {
    } else {
      OthersSnapshots(p, id, other, sequence + 1, batch, part + 1, parts);
    }
  }

  lemma {:induction false} CloseAllFollows(p: Phase, worker: map<StreamId, WorkerStream>, order: seq<StreamId>,
      encodes: set<StreamId>, id: StreamId)
    requires forall k :: k in order ==> k in worker
    requires forall i, j :: 0 <= i < j < |order| ==> order[i] != order[j]
    requires id in order ==> p.Live? && p.next == worker[id].nextSequence && p.expected.None?
    ensures PhaseAfter(p, CloseAll(worker, order, encodes), id) == Some(if id in order then Absent else p)
    decreases |order|
  {
    if order == [] {
    } else {
      var events := CloseAll(worker, order, encodes);
      assert events[1..] == CloseAll(worker, order[1..], encodes);
      if order[0] == id {
        CloseAllFollows(Absent, worker, order[1..], encodes, id);
      } else {
        CloseAllFollows(p, worker, order[1..], encodes, id);
      }
    }
  }

  /** The log obeys the protocol, and its phase is the worker's own record of the stream. */
  ghost predicate Tracks(s: State, id: StreamId) {
    var p := PhaseAfter(Absent, s.log, id);
    if id in s.worker then
      && p.Some? && p.value.Live? && p.value.expected.None?
      && p.value.next == s.worker[id].nextSequence
      && p.value.minBatch <= s.worker[id].batchSequence
      && 1 <= s.worker[id].nextSequence <= MAX_WIRE_INTEGER
      && s.worker[id].batchSequence <= MAX_U64
    else p == Some(Absent)
  }

  lemma TracksReceive(s: State, env: Surroundings, id: StreamId)
    requires InStep(s) && Tracks(s, id)
    ensures Tracks(Receive(s, env), id)
  {
    if s.running && s.queue != [] {
      EveryMessageFits(s.worker.Keys, s.queue, 0);
      assert s.queue[..0] == [];
      var t := Receive(s, env);
      var p := PhaseAfter(Absent, s.log, id).value;
      match s.queue[0]
      case Open(other) =>
        PhaseAfterAppend(Absent, s.log, [Opened(other, 0)], id);
      case Batch(other) =>
        var stream := s.worker[other];
        if EncodeSnapshot(stream.nextSequence, env.chunks).Some? {
          var parts := EncodeSnapshot(stream.nextSequence, env.chunks).value;
          PhaseAfterAppend(Absent, s.log, Snapshots(other, stream.nextSequence, stream.batchSequence, 0, parts), id);
          if other != id {
            OthersSnapshots(p, id, other, stream.nextSequence, stream.batchSequence, 0, parts);
          } else if parts > 0 {
            SnapshotsFollow(p, id, stream.batchSequence, 0, parts);
          }
        }
      case Close(other) =>
        PhaseAfterAppend(Absent, s.log, [CloseEvent(other, s.worker[other], other in env.encodes)], id);
      case Shutdown =>
        if Lists(env.order, s.worker.Keys) {
          PhaseAfterAppend(Absent, s.log, CloseAll(s.worker, env.order, env.encodes), id);
          CloseAllFollows(p, s.worker, env.order, env.encodes, id);
        }
    }
  }

  lemma {:induction false} TracksRun(s: State, actions: seq<Action>, id: StreamId)
    requires InStep(s) && Tracks(s, id)
    ensures Tracks(Run(s, actions), id)
    decreases |actions|
  {
    if actions == [] {
    } else {
      InStepNext(s, actions[0]);
      if actions[0].DoReceive? {
        TracksReceive(s, actions[0].env, id);
      }
      TracksRun(Next(s, actions[0]), actions[1..], id);
    }
  }

  /**
   Main result: in every run the events of every stream obey the protocol of `Follow`; once the
   worker has handled `Shutdown`, every stream ever opened has had exactly one close attempt.
   */
  lemma WireFollowsProtocol(actions: seq<Action>, id: StreamId)
    ensures var s := Run(INITIAL, actions);
            && PhaseAfter(Absent, s.log, id).Some?
            && (id in s.worker <==> PhaseAfter(Absent, s.log, id).value.Live?)
            && (!s.running ==> PhaseAfter(Absent, s.log, id) == Some(Absent))
  {
    InitialInStep();
    RegistryIsReplayedWorker(INITIAL, actions);
    TracksRun(INITIAL, actions, id);
  }

  /** The datagrams of the stream's current opening. */
  function Current(events: seq<Event>, id: StreamId): seq<Event> {
    if events == [] then []
    else
      var front, last := events[..|events| - 1], events[|events| - 1];
      if last.id != id then Current(front, id)
      else if last.Opened? then [last]
      else if last.Snapshot? then Current(front, id) + [last]
      else []
  }

  /** In protocol order, the k-th datagram of an opening carries sequence number k. */
  lemma {:induction false} SequenceNumbersCount(events: seq<Event>, id: StreamId)
    requires PhaseAfter(Absent, events, id).Some?
    ensures var p, c := PhaseAfter(Absent, events, id).value, Current(events, id);
            && (if p.Live? then |c| == p.next else c == [])
            && (forall k :: 0 <= k < |c| ==> (c[k].Opened? || c[k].Snapshot?) && c[k].sequence == k)
    decreases |events|
  {
    if events == [] {
    } else {
      var front, last := events[..|events| - 1], events[|events| - 1];
      assert events == front + [last];
      PrefixConforms(Absent, front, [last], id);
      SequenceNumbersCount(front, id);
      PhaseAfterAppend(Absent, front, [last], id);
    }
  }

  /** Before `e`: a smaller batch number, or an earlier part of the same batch, until saturation. */
  predicate Before(d: Event, e: Event) {
    d.Snapshot? && e.Snapshot? ==> d.batch <= e.batch && (d.batch == e.batch ==> d.part < e.part || d.batch == MAX_U64)
  }

  /** All of `c` lies before whatever snapshot the phase allows next. */
  ghost predicate AllBefore(c: seq<Event>, p: Phase) {
    forall k :: 0 <= k < |c| && c[k].Snapshot? ==>
      && c[k].batch <= MAX_U64
      && (p.Live? && p.expected.None? ==>
            c[k].batch <= p.minBatch && (c[k].batch == p.minBatch ==> c[k].batch == MAX_U64))
      && (p.Live? && p.expected.Some? ==>
            var e := p.expected.value;
            c[k].batch <= e.batch && (c[k].batch == e.batch ==> c[k].part < e.part || c[k].batch == MAX_U64))
  }

  /** A snapshot that the phase allows lies behind all of `c`. */
  lemma SnapshotIsBehind(c: seq<Event>, p: Phase, e: Event)
    requires AllBefore(c, p) && e.Snapshot? && Follow(p, e).Some?
    ensures (forall k :: 0 <= k < |c| ==> Before(c[k], e)) && AllBefore(c + [e], Follow(p, e).value)
  {
  }

  lemma OpenedOrNothing(c: seq<Event>, p: Phase)
    requires forall k :: 0 <= k < |c| ==> c[k].Opened?
    ensures AllBefore(c, p)
  {
  }

  lemma {:induction false} BatchNumbersAscend(events: seq<Event>, id: StreamId)
    requires PhaseAfter(Absent, events, id).Some?
    ensures var c := Current(events, id);
            && AllBefore(c, PhaseAfter(Absent, events, id).value)
            && forall j, k :: 0 <= j < k < |c| ==> Before(c[j], c[k])
    decreases |events|
  {
    hide AllBefore, Before, Follow;
    if events == [] {
      OpenedOrNothing([], Absent);
    } else {
      var front, last := events[..|events| - 1], events[|events| - 1];
      assert events == front + [last];
      PrefixConforms(Absent, front, [last], id);
      BatchNumbersAscend(front, id);
      PhaseAfterAppend(Absent, front, [last], id);
      var p := PhaseAfter(Absent, front, id).value;
      if last.id == id && last.Snapshot? {
        SnapshotIsBehind(Current(front, id), p, last);
      } else if last.id == id {
        OpenedOrNothing(Current(events, id), Follow(p, last).value);
      }
    }
  }

  /**
   Batch numbers of one opening never decrease, and two batches share one exactly when the 64-bit
   counter was already saturated at the first of them. A batch is named by its part 0.
   */
  lemma BatchNumbersRepeatIff(events: seq<Event>, id: StreamId, j: nat, k: nat)
    requires PhaseAfter(Absent, events, id).Some?
    requires j < k < |Current(events, id)|
    requires var c := Current(events, id);
             c[j].Snapshot? && c[k].Snapshot? && c[j].part == c[k].part == 0
    ensures var c := Current(events, id);
            c[j].batch <= c[k].batch && (c[j].batch == c[k].batch <==> c[j].batch == MAX_U64)
  {
    BatchNumbersAscend(events, id);
    var c := Current(events, id);
    assert Before(c[j], c[k]);
  }

  lemma {:induction false} PrefixConforms(p: Phase, front: seq<Event>, back: seq<Event>, id: StreamId)
    requires PhaseAfter(p, front + back, id).Some?
    ensures PhaseAfter(p, front, id).Some?
    decreases |front|
  {
    if front == [] {
    } else {
      assert (front + back)[1..] == front[1..] + back;
      if front[0].id != id {
        PrefixConforms(p, front[1..], back, id);
      } else {
        PrefixConforms(Follow(p, front[0]).value, front[1..], back, id);
      }
    }
  }

  // ---------------------------------------------------------------- a run that repeats a number

  /** A batch is recorded and at once handled by the worker, giving `parts` datagrams. */
  function Handled(parts: nat): seq<Action> {
    [DoRecord("a", true), DoReceive(Surroundings(Some(parts), 0, {}, []))]
  }

  /** The stream `a` alone, with nothing queued. */
  function Quiet(next: nat, batches: nat, log: seq<Event>, accepted: nat): State {
    State({"a"}, [], true, false, map["a" := WorkerStream(next, batches)], log, Counters(accepted, 0, 0))
  }

  lemma HandledStep(next: nat, batches: nat, log: seq<Event>, accepted: nat, parts: nat)
    requires 1 <= next <= MAX_WIRE_INTEGER - 1 && parts <= 1
    ensures Run(Quiet(next, batches, log, accepted), Handled(parts))
         == Quiet(next + parts, Saturating(batches), log + Snapshots("a", next, batches, 0, parts), accepted + 1)
  {
    var s := Quiet(next, batches, log, accepted);
    var record, receive := Handled(parts)[0], Handled(parts)[1];
    RunConcat(s, [record], [receive]);
    assert Handled(parts) == [record] + [receive];
    RunOne(s, record);
    var t := Next(s, record);
    assert t.queue == [Batch("a")];
    RunOne(t, receive);
    var chunked := EncodeSnapshot(next, Some(parts));
    assert t.worker["a" := WorkerStream(next + parts, Saturating(batches))]
        == map["a" := WorkerStream(next + parts, Saturating(batches))];
  }

  /** `n` batches whose metrics are all too large to encode: no datagram, but each takes a number. */
  function EmptyBatches(n: nat): seq<Action> {
    if n == 0 then [] else EmptyBatches(n - 1) + Handled(0)
  }

  lemma {:induction false} EmptyBatchesCount(n: nat)
    requires n <= MAX_U64
    ensures Run(Quiet(1, 0, [Opened("a", 0)], 1), EmptyBatches(n)) == Quiet(1, n, [Opened("a", 0)], n + 1)
  {
    hide Run, Handled, Quiet;
    var start := Quiet(1, 0, [Opened("a", 0)], 1);
    if n == 0 {
      RunNothing(start);
    } else {
      EmptyBatchesCount(n - 1);
      RunConcat(start, EmptyBatches(n - 1), Handled(0));
      HandledStep(1, n - 1, [Opened("a", 0)], n, 0);
      assert [Opened("a", 0)] + [] == [Opened("a", 0)];
    }
  }

  lemma RunNothing(s: State)
    ensures Run(s, []) == s
  {
  }

  /** The concrete run: after 2^64 - 1 empty batches the next two batches carry the same number. */
  lemma SaturatedNumberRepeats()
    ensures var open := [DoOpen("a", true), DoReceive(Surroundings(None, 0, {}, []))];
            Run(INITIAL, open + (EmptyBatches(MAX_U64) + (Handled(1) + Handled(1)))).log
            == [Opened("a", 0), Snapshot("a", 1, MAX_U64, 0, 1), Snapshot("a", 2, MAX_U64, 0, 1)]
  {
    hide Run, Handled, Quiet, EmptyBatches, Snapshots;
    var open := [DoOpen("a", true), DoReceive(Surroundings(None, 0, {}, []))];
    var log := [Opened("a", 0)];
    var start := Quiet(1, 0, log, 1);
    var rest := EmptyBatches(MAX_U64) + (Handled(1) + Handled(1));
    RunConcat(INITIAL, open, rest);
    OpenIsQuiet(open);
    EmptyBatchesCount(MAX_U64);
    var full := Quiet(1, MAX_U64, log, MAX_U64 + 1);
    RunConcat(start, EmptyBatches(MAX_U64), Handled(1) + Handled(1));
    RunConcat(full, Handled(1), Handled(1));
    HandledStep(1, MAX_U64, log, MAX_U64 + 1, 1);
    var once := log + Snapshots("a", 1, MAX_U64, 0, 1);
    HandledStep(2, MAX_U64, once, MAX_U64 + 2, 1);
    OnePart(1);
    OnePart(2);
    LogOfQuiet(3, MAX_U64, once + Snapshots("a", 2, MAX_U64, 0, 1), MAX_U64 + 3);
    assert log + [Snapshot("a", 1, MAX_U64, 0, 1)] + [Snapshot("a", 2, MAX_U64, 0, 1)]
        == [Opened("a", 0), Snapshot("a", 1, MAX_U64, 0, 1), Snapshot("a", 2, MAX_U64, 0, 1)];
  }

  lemma OpenIsQuiet(open: seq<Action>)
    requires open == [DoOpen("a", true), DoReceive(Surroundings(None, 0, {}, []))]
    ensures Run(INITIAL, open) == Quiet(1, 0, [Opened("a", 0)], 1)
  {
    RunConcat(INITIAL, [open[0]], [open[1]]);
    assert open == [open[0]] + [open[1]];
    RunOne(INITIAL, open[0]);
    OpenedFirst();
    RunOne(Next(INITIAL, open[0]), open[1]);
    assert INITIAL.registry + {"a"} == {"a"};
  }

  lemma OnePart(sequence: nat)
    ensures Snapshots("a", sequence, MAX_U64, 0, 1) == [Snapshot("a", sequence, MAX_U64, 0, 1)]
  {
    assert Snapshots("a", sequence + 1, MAX_U64, 1, 1) == [];
  }

  lemma LogOfQuiet(next: nat, batches: nat, log: seq<Event>, accepted: nat)
    ensures Quiet(next, batches, log, accepted).log == log
  {
  }

  // ---------------------------------------------------------------- calls are answered and carried out

  /** What each call answers, and what it leaves: exactly the accepted ones change the registry and the queue. */
  lemma CallsAreAnswered(s: State, id: StreamId, valid: bool)
    ensures var (t, outcome) := OpenStream(s, id, valid);
            && (outcome.Invalid? <==> !valid || id in s.registry)
            && (outcome.Accepted? <==> valid && id !in s.registry && s.running && |s.queue| < QUEUE_CAPACITY)
            && t.queue == (if outcome.Accepted? then s.queue + [Open(id)] else s.queue)
            && t.registry == (if outcome.Accepted? then s.registry + {id} else s.registry)
    ensures var (t, outcome) := RecordBatch(s, id, valid);
            && (outcome.Invalid? <==> !valid || id !in s.registry)
            && (outcome.Accepted? <==> valid && id in s.registry && s.running && |s.queue| < QUEUE_CAPACITY)
            && t.queue == (if outcome.Accepted? then s.queue + [Batch(id)] else s.queue)
            && t.registry == s.registry
    ensures var (t, outcome) := CloseStream(s, id, valid);
            && (outcome.Invalid? <==> !valid || id !in s.registry)
            && (outcome.Accepted? <==> valid && id in s.registry && s.running && |s.queue| < QUEUE_CAPACITY)
            && t.queue == (if outcome.Accepted? then s.queue + [Close(id)] else s.queue)
            && t.registry == (if outcome.Accepted? then s.registry - {id} else s.registry)
  {
  }

  /** The answer to a call; None for a shutdown request and for the worker's steps. */
  function Answer(s: State, a: Action): Option<Outcome> {
    match a
    case DoOpen(id, encodes) => Some(OpenStream(s, id, encodes).1)
    case DoRecord(id, wellFormed) => Some(RecordBatch(s, id, wellFormed).1)
    case DoClose(id, timeValid) => Some(CloseStream(s, id, timeValid).1)
    case DoShutdown => None
    case DoReceive(_) => None
  }

  function Asked(a: Action): Option<Message> {
    match a
    case DoOpen(id, _) => Some(Open(id))
    case DoRecord(id, _) => Some(Batch(id))
    case DoClose(id, _) => Some(Close(id))
    case DoShutdown => Some(Shutdown)
    case DoReceive(_) => None
  }

  /** What one step puts into the channel; a shutdown when it is the first and finds room. */
  function AcceptedBy(s: State, a: Action): seq<Message> {
    if Answer(s, a) == Some(Accepted) || (a.DoShutdown? && !s.shutdownStarted && HasRoom(s)) then [Asked(a).value]
    else []
  }

  /** What one step takes out of it. */
  function TakenBy(s: State, a: Action): seq<Message> {
    if a.DoReceive? && |Next(s, a).queue| < |s.queue| then [s.queue[0]] else []
  }

  /** The messages of the accepted calls, in order. */
  function AcceptedMessages(s: State, actions: seq<Action>): seq<Message>
    decreases |actions|
  {
    if actions == [] then [] else AcceptedBy(s, actions[0]) + AcceptedMessages(Next(s, actions[0]), actions[1..])
  }

  /** The messages the worker took, in order. */
  function TakenMessages(s: State, actions: seq<Action>): seq<Message>
    decreases |actions|
  {
    if actions == [] then [] else TakenBy(s, actions[0]) + TakenMessages(Next(s, actions[0]), actions[1..])
  }

  lemma {:induction false} StoppedStaysStopped(s: State, actions: seq<Action>)
    requires !s.running
    ensures !Run(s, actions).running
    decreases |actions|
  {
    if actions == [] {
    } else {
      StoppedStaysStopped(Next(s, actions[0]), actions[1..]);
    }
  }

  lemma ReceiveTakesFront(s: State, env: Surroundings)
    requires Receive(s, env).running
    ensures Receive(s, env).queue == s.queue || (s.queue != [] && Receive(s, env).queue == s.queue[1..])
  {
  }

  lemma OpenQueues(s: State, id: StreamId, encodes: bool)
    ensures var (t, outcome) := OpenStream(s, id, encodes);
            t.queue == s.queue + if outcome.Accepted? then [Open(id)] else []
  {
  }

  lemma RecordQueues(s: State, id: StreamId, wellFormed: bool)
    ensures var (t, outcome) := RecordBatch(s, id, wellFormed);
            t.queue == s.queue + if outcome.Accepted? then [Batch(id)] else []
  {
  }

  lemma CloseQueues(s: State, id: StreamId, timeValid: bool)
    ensures var (t, outcome) := CloseStream(s, id, timeValid);
            t.queue == s.queue + if outcome.Accepted? then [Close(id)] else []
  {
  }

  lemma CallQueues(s: State, a: Action)
    requires !a.DoReceive?
    ensures Next(s, a).queue == s.queue + AcceptedBy(s, a)
  {
    hide OpenStream, RecordBatch, CloseStream;
    match a
    case DoOpen(id, encodes) => OpenQueues(s, id, encodes);
    case DoRecord(id, wellFormed) => RecordQueues(s, id, wellFormed);
    case DoClose(id, timeValid) => CloseQueues(s, id, timeValid);
    case DoShutdown => assert s.queue + [] == s.queue;
  }

  /** One step of the channel: what was accepted goes to its end, what was taken came from its front. */
  lemma ChannelStep(s: State, a: Action)
    requires Next(s, a).running
    ensures s.queue + AcceptedBy(s, a) == TakenBy(s, a) + Next(s, a).queue
  {
    hide Receive, OpenStream, RecordBatch, CloseStream, RequestShutdown;
    if a.DoReceive? {
      ReceiveTakesFront(s, a.env);
      assert s.queue + [] == s.queue == [] + s.queue;
      assert s.queue != [] ==> s.queue == [s.queue[0]] + s.queue[1..];
    } else {
      CallQueues(s, a);
      assert [] + Next(s, a).queue == Next(s, a).queue;
    }
  }

  /** While the worker runs, the messages it took, followed by the queue, are the accepted calls in order. */
  lemma {:induction false} ChannelIsFifo(s: State, actions: seq<Action>)
    requires Run(s, actions).running
    ensures s.queue + AcceptedMessages(s, actions) == TakenMessages(s, actions) + Run(s, actions).queue
    decreases |actions|
  {
    hide Next, AcceptedBy, TakenBy;
    if actions == [] {
      NoMessages(s);
    } else {
      var a, t, rest := actions[0], Next(s, actions[0]), actions[1..];
      if !t.running {
        StoppedStaysStopped(t, rest);
      }
      ChannelStep(s, a);
      ChannelIsFifo(t, rest);
      Regroup(s.queue, AcceptedBy(s, a), AcceptedMessages(t, rest));
      Regroup(TakenBy(s, a), t.queue, AcceptedMessages(t, rest));
      Regroup(TakenBy(s, a), TakenMessages(t, rest), Run(t, rest).queue);
    }
  }

  lemma Regroup(a: seq<Message>, b: seq<Message>, c: seq<Message>)
    ensures a + (b + c) == a + b + c
  {
  }

  lemma NoMessages(s: State)
    ensures s.queue + AcceptedMessages(s, []) == TakenMessages(s, []) + Run(s, []).queue
  {
  }

  /** How many calls of the run were answered so. */
  function Answered(s: State, actions: seq<Action>, outcome: Outcome): nat
    decreases |actions|
  {
    if actions == [] then 0
    else
      (if Answer(s, actions[0]) == Some(outcome) then 1 else 0) + Answered(Next(s, actions[0]), actions[1..], outcome)
  }

  lemma CountersStep(s: State, a: Action)
    ensures var t := Next(s, a).counters;
            && t.accepted == s.counters.accepted + (if Answer(s, a) == Some(Accepted) then 1 else 0)
            && t.dropped == s.counters.dropped + (if Answer(s, a) == Some(Dropped) then 1 else 0)
            && t.invalid >= s.counters.invalid + (if Answer(s, a) == Some(Invalid) then 1 else 0)
  {
    hide Snapshots, CloseAll, Lists;
  }

  /** The counters count the answers; the worker adds to the invalid ones only. */
  lemma {:induction false} CountersCount(s: State, actions: seq<Action>)
    ensures var t := Run(s, actions).counters;
            && t.accepted == s.counters.accepted + Answered(s, actions, Accepted)
            && t.dropped == s.counters.dropped + Answered(s, actions, Dropped)
            && t.invalid >= s.counters.invalid + Answered(s, actions, Invalid)
    decreases |actions|
  {
    hide Next, Answer;
    if actions == [] {
    } else {
      CountersStep(s, actions[0]);
      CountersCount(Next(s, actions[0]), actions[1..]);
    }
  }

  /** The worker alone empties a queue that holds no shutdown; `chunks` is what its batches encode to. */
  lemma {:induction false} QueueEmpties(s: State, chunks: Option<nat>) returns (more: seq<Action>)
    requires InStep(s) && s.running && Shutdown !in s.queue
    ensures forall a :: a in more ==> a.DoReceive?
    ensures var t := Run(s, more);
            && InStep(t) && t.running && t.queue == [] && t.registry == s.registry && t.worker.Keys == s.registry
            && TakenMessages(s, more) == s.queue && s.log <= t.log
    decreases |s.queue|
  {
    hide InStep;
    if s.queue == [] {
      more := [];
      NothingQueued(s);
    } else {
      var receive := DoReceive(Surroundings(chunks, 0, {}, []));
      var t := Next(s, receive);
      InStepNext(s, receive);
      ReceivesFront(s, receive);
      var rest := QueueEmpties(t, chunks);
      more := [receive] + rest;
      assert more[1..] == rest;
      assert s.queue == [s.queue[0]] + s.queue[1..];
    }
  }

  lemma NothingQueued(s: State)
    requires InStep(s) && s.running && s.queue == []
    ensures s.worker.Keys == s.registry
  {
  }

  lemma ReceivesFront(s: State, a: Action)
    requires a.DoReceive? && s.running && s.queue != [] && !s.queue[0].Shutdown?
    ensures var t := Next(s, a);
            t.running && t.queue == s.queue[1..] && t.registry == s.registry && s.log <= t.log
  {
  }

  /** A call on a quiet channel and the worker's answer to it. */
  function CallAndReceive(call: Action, env: Surroundings): seq<Action> {
    [call, DoReceive(env)]
  }

  lemma TwoSteps(s: State, call: Action, env: Surroundings)
    ensures Run(s, CallAndReceive(call, env)) == Receive(Next(s, call), env)
  {
    var actions := CallAndReceive(call, env);
    assert actions == [call] + [DoReceive(env)];
    RunConcat(s, [call], [DoReceive(env)]);
    RunOne(s, call);
    RunOne(Next(s, call), DoReceive(env));
  }

  /** Running, and nobody has asked for a shutdown that the worker will see. */
  ghost predicate Serving(s: State) {
    InStep(s) && s.running && Shutdown !in s.queue
  }

  /**
   From every state that serves, the worker's steps and one close bring one Closed of the stream to
   the wire and leave it on neither side, so that it can be opened again.
   */
  lemma CloseReachesWire(s: State, id: StreamId) returns (front: seq<Action>)
    requires Serving(s) && id in s.registry
    ensures forall a :: a in front ==> a.DoReceive?
    ensures var mid := Run(s, front);
            var t := Run(mid, CallAndReceive(DoClose(id, true), Surroundings(None, 0, {id}, [])));
            && CloseStream(mid, id, true).1.Accepted?
            && id in mid.worker && t.log == mid.log + [Closed(id, mid.worker[id].nextSequence)]
            && id !in t.registry && id !in t.worker && OpenStream(t, id, true).1.Accepted?
  {
    hide InStep;
    front := QueueEmpties(s, None);
    TwoSteps(Run(s, front), DoClose(id, true), Surroundings(None, 0, {id}, []));
  }

  /** And one open brings one Opened and leaves the stream open on both sides. */
  lemma OpenReachesWire(s: State, id: StreamId) returns (front: seq<Action>)
    requires Serving(s) && id !in s.registry
    ensures forall a :: a in front ==> a.DoReceive?
    ensures var mid := Run(s, front);
            var t := Run(mid, CallAndReceive(DoOpen(id, true), Surroundings(None, 0, {}, [])));
            && OpenStream(mid, id, true).1.Accepted?
            && t.log == mid.log + [Opened(id, 0)]
            && id in t.registry && id in t.worker
  {
    hide InStep;
    front := QueueEmpties(s, None);
    TwoSteps(Run(s, front), DoOpen(id, true), Surroundings(None, 0, {}, []));
  }

  /** And one batch that splits into `parts` chunks brings that many snapshots, numbered on from the
      stream's last, unless the numbers of the wire run out. */
  lemma BatchReachesWire(s: State, id: StreamId, parts: nat) returns (front: seq<Action>)
    requires Serving(s) && Tracks(s, id) && id in s.registry && 1 <= parts <= MAX_SNAPSHOT_PARTS
    ensures forall a :: a in front ==> a.DoReceive?
    ensures var mid := Run(s, front);
            var t := Run(mid, CallAndReceive(DoRecord(id, true), Surroundings(Some(parts), 0, {}, [])));
            && RecordBatch(mid, id, true).1.Accepted? && id in mid.worker
            && var next := mid.worker[id].nextSequence;
               if next + parts <= MAX_WIRE_INTEGER then
                 && |t.log| == |mid.log| + parts && mid.log <= t.log
                 && forall j :: |mid.log| <= j < |t.log| ==>
                      var k := j - |mid.log|;
                      t.log[j] == Snapshot(id, next + k, mid.worker[id].batchSequence, k, parts)
               else t.log == mid.log && t.counters.invalid == mid.counters.invalid + 1
  {
    hide InStep, Tracks, Snapshots;
    front := QueueEmpties(s, None);
    var mid := Run(s, front);
    TracksRun(s, front, id);
    LiveSequence(mid, id);
    TwoSteps(mid, DoRecord(id, true), Surroundings(Some(parts), 0, {}, []));
    SnapshotsAre(id, mid.worker[id].nextSequence, mid.worker[id].batchSequence, 0, parts);
  }

  lemma LiveSequence(s: State, id: StreamId)
    requires Tracks(s, id) && id in s.worker
    ensures 1 <= s.worker[id].nextSequence <= MAX_WIRE_INTEGER
  {
  }

  lemma {:induction false} SnapshotsAre(id: StreamId, sequence: nat, batch: nat, part: nat, parts: nat)
    requires part <= parts
    ensures var events := Snapshots(id, sequence, batch, part, parts);
            && |events| == parts - part
            && forall k :: 0 <= k < |events| ==> events[k] == Snapshot(id, sequence + k, batch, part + k, parts)
    decreases parts - part
  {
    if part == parts {
    } else {
      SnapshotsAre(id, sequence + 1, batch, part + 1, parts);
    }
  }

  /** Every state of a run from the start that is still running and has no shutdown queued serves. */
  lemma RunsServe(actions: seq<Action>, id: StreamId)
    ensures var s := Run(INITIAL, actions);
            && Tracks(s, id) && (s.running && Shutdown !in s.queue ==> Serving(s))
  {
    hide InStep, Tracks;
    InitialInStep();
    InitialTracks(id);
    RegistryIsReplayedWorker(INITIAL, actions);
    TracksRun(INITIAL, actions, id);
  }

  lemma InitialTracks(id: StreamId)
    ensures Tracks(INITIAL, id)
  {
  }

  /** Main result: in every run, a stream that is open while the worker serves can still be closed on the wire. */
  lemma EveryOpenStreamCanClose(actions: seq<Action>, id: StreamId) returns (more: seq<Action>)
    requires var s := Run(INITIAL, actions); s.running && Shutdown !in s.queue && id in s.registry
    ensures var t := Run(INITIAL, actions + more);
            && id !in t.registry && id !in t.worker && OpenStream(t, id, true).1.Accepted?
            && t.log != [] && t.log[|t.log| - 1].Closed? && t.log[|t.log| - 1].id == id
  {
    hide InStep, Run;
    RunsServe(actions, id);
    var s := Run(INITIAL, actions);
    var front := CloseReachesWire(s, id);
    var last := CallAndReceive(DoClose(id, true), Surroundings(None, 0, {id}, []));
    more := front + last;
    RunConcat(INITIAL, actions, more);
    RunConcat(s, front, last);
  }

  // ---------------------------------------------------------------- the service

  /** The shared registry, channel and counters, with the worker's own map and its socket log. */
  class TelemetryService {
    var registry: set<StreamId>
    var queue: seq<Message>
    var running: bool
    var shutdownStarted: bool
    var worker: map<StreamId, WorkerStream>
    var log: seq<Event>
    var counters: Counters

    ghost function Abstract(): State
      reads this
    {
      State(registry, queue, running, shutdownStarted, worker, log, counters)
    }

    constructor ()
      ensures Abstract() == INITIAL
    {
      registry, queue, running, shutdownStarted := {}, [], true, false;
      worker, log, counters := map[], [], Counters(0, 0, 0);
    }

    method Send(message: Message) returns (outcome: Outcome)
      modifies `queue, `counters
      ensures (Abstract(), outcome) == TrySend(old(Abstract()), message)
    {
      if running && |queue| < QUEUE_CAPACITY {
        queue := queue + [message];
        counters := counters.(accepted := counters.accepted + 1);
        return Accepted;
      }
      counters := counters.(dropped := counters.dropped + 1);
      return Dropped;
    }

    method Open(id: StreamId, encodes: bool) returns (outcome: Outcome)
      modifies this
      ensures (Abstract(), outcome) == OpenStream(old(Abstract()), id, encodes)
    {
      if !encodes || id in registry {
        counters := counters.(invalid := counters.invalid + 1);
        return Invalid;
      }
      outcome := Send(Message.Open(id));
      if outcome == Accepted {
        registry := registry + {id};
      }
    }

    method Record(id: StreamId, wellFormed: bool) returns (outcome: Outcome)
      modifies this
      ensures (Abstract(), outcome) == RecordBatch(old(Abstract()), id, wellFormed)
    {
      if id !in registry || !wellFormed {
        counters := counters.(invalid := counters.invalid + 1);
        return Invalid;
      }
      outcome := Send(Batch(id));
    }

    method Close(id: StreamId, timeValid: bool) returns (outcome: Outcome)
      modifies this
      ensures (Abstract(), outcome) == CloseStream(old(Abstract()), id, timeValid)
    {
      if id !in registry || !timeValid {
        counters := counters.(invalid := counters.invalid + 1);
        return Invalid;
      }
      outcome := Send(Message.Close(id));
      if outcome == Accepted {
        registry := registry - {id};
      }
    }

    method StartShutdown()
      modifies this
      ensures Abstract() == RequestShutdown(old(Abstract()))
    {
      if shutdownStarted {
        return;
      }
      shutdownStarted := true;
      if running && |queue| < QUEUE_CAPACITY {
        queue := queue + [Shutdown];
      }
    }

    /** Sends the parts of one snapshot with consecutive sequence numbers. */
    method SendParts(id: StreamId, sequence: nat, batch: nat, parts: nat)
      modifies `log
      ensures log == old(log) + Snapshots(id, sequence, batch, 0, parts)
    {
      var part := 0;
      while part < parts
        invariant 0 <= part <= parts
        invariant log + Snapshots(id, sequence + part, batch, part, parts)
               == old(log) + Snapshots(id, sequence, batch, 0, parts)
      {
        ghost var rest := Snapshots(id, sequence + part + 1, batch, part + 1, parts);
        assert log + ([Snapshot(id, sequence + part, batch, part, parts)] + rest)
            == log + [Snapshot(id, sequence + part, batch, part, parts)] + rest;
        log := log + [Snapshot(id, sequence + part, batch, part, parts)];
        part := part + 1;
      }
    }

    /** Drains the worker's map in whatever order it yields, attempting one close each. */
    method CloseEveryStream(encodes: set<StreamId>) returns (order: seq<StreamId>)
      modifies `log, `worker
      ensures Lists(order, old(worker).Keys)
      ensures log == old(log) + CloseAll(old(worker), order, encodes)
      ensures worker == map[]
    {
      order := [];
      while worker.Keys != {}
        invariant worker.Keys <= old(worker).Keys && forall id :: id in worker ==> worker[id] == old(worker)[id]
        invariant Lists(order, old(worker).Keys - worker.Keys)
        invariant log == old(log) + CloseAll(old(worker), order, encodes)
        decreases |worker.Keys|
      {
        var id :| id in worker.Keys;
        CloseAllAppend(old(worker), order, id, encodes);
        log := log + [CloseEvent(id, worker[id], id in encodes)];
        order := order + [id];
        ghost var before := worker.Keys;
        worker := worker - {id};
        assert worker.Keys == before - {id};
      }
    }

    /** The worker's loop body. `drained` is the order in which a shutdown drained the map. */
    method ReceiveOne(chunks: Option<nat>, rejectedMetrics: nat, encodes: set<StreamId>)
      returns (drained: seq<StreamId>)
      requires running && queue != []
      modifies this
      ensures Abstract() == Receive(old(Abstract()), Surroundings(chunks, rejectedMetrics, encodes, drained))
      ensures old(queue[0]).Shutdown? ==> Lists(drained, old(worker).Keys)
    {
      drained := [];
      var message := queue[0];
      queue := queue[1..];
      match message {
        case Open(id) =>
          log := log + [Opened(id, 0)];
          worker := worker[id := WorkerStream(1, 0)];
        case Batch(id) =>
          if id !in worker {
            counters := counters.(invalid := counters.invalid + 1);
            return;
          }
          var stream := worker[id];
          var encoded := EncodeSnapshot(stream.nextSequence, chunks);
          if encoded.None? {
            counters := counters.(invalid := counters.invalid + 1);
            return;
          }
          counters := counters.(invalid := counters.invalid + rejectedMetrics);
          worker := worker[id := WorkerStream(stream.nextSequence + encoded.value, Saturating(stream.batchSequence))];
          SendParts(id, stream.nextSequence, stream.batchSequence, encoded.value);
        case Close(id) =>
          if id !in worker {
            counters := counters.(invalid := counters.invalid + 1);
            return;
          }
          var stream := worker[id];
          worker := worker - {id};
          log := log + [CloseEvent(id, stream, id in encodes)];
          if id !in encodes {
            counters := counters.(invalid := counters.invalid + 1);
          }
        case Shutdown =>
          drained := CloseEveryStream(encodes);
          running := false;
          queue := [];
      }
    }
  }

  lemma {:induction false} CloseAllAppend(worker: map<StreamId, WorkerStream>, order: seq<StreamId>,
      id: StreamId, encodes: set<StreamId>)
    requires id in worker && forall k :: k in order ==> k in worker
    ensures CloseAll(worker, order + [id], encodes)
         == CloseAll(worker, order, encodes) + [CloseEvent(id, worker[id], id in encodes)]
    decreases |order|
  {
    if order == [] {
      assert [] + [id] == [id];
    } else {
      assert (order + [id])[1..] == order[1..] + [id];
      CloseAllAppend(worker, order[1..], id, encodes);
    }
  }
}
