/**
 The serial write queue in front of the terminal widget: bounded batches that do not cut a
 surrogate pair, one write in flight, and a zero-delay timer between a completed write and the
 next. Strings are sequences of UTF-16 code units, as in the original language.
 */
module TerminalQueue {
  import opened Sequences

  type CodeUnit = u: int | 0 <= u < 0x10000
  type Chunk = seq<CodeUnit>

  predicate IsHigh(u: CodeUnit) {
    0xD800 <= u <= 0xDBFF
  }

  predicate IsLow(u: CodeUnit) {
    0xDC00 <= u <= 0xDFFF
  }

  /** Cutting `s` before position `k` separates a surrogate pair. */
  predicate CutsPair(s: Chunk, k: nat) {
    0 < k < |s| && IsHigh(s[k - 1]) && IsLow(s[k])
  }

  /** How much of the first queued string goes into the room that is left. */
  function TakeLength(next: Chunk, room: nat): (n: nat)
    ensures n <= |next| && n <= room
    ensures !CutsPair(next, n)
    ensures next != [] && room >= 2 ==> n > 0
    ensures n < |next| ==> n == room || (n == room - 1 && CutsPair(next, room))
  {
    var n := if |next| < room then |next| else room;
    if CutsPair(next, n) then n - 1 else n
  }

  datatype Taken = Taken(batch: Chunk, queue: seq<Chunk>)

  /** The queue without the first `n` code units of its first string. */
  function Without(queue: seq<Chunk>, n: nat): seq<Chunk>
    requires queue != [] && n <= |queue[0]|
  {
    if n == |queue[0]| then queue[1..] else [queue[0][n..]] + queue[1..]
  }

  function TakeBatch(queue: seq<Chunk>, room: nat): Taken
    decreases room
  {
    if queue == [] || room == 0 then Taken([], queue)
    else
      var n := TakeLength(queue[0], room);
      if n == 0 then Taken([], queue)
      else
        var t := TakeBatch(Without(queue, n), room - n);
        Taken(queue[0][..n] + t.batch, t.queue)
  }

  /** After `batch` was taken, taking goes on with the rest of the room. */
  function Continued(batch: Chunk, queue: seq<Chunk>, room: nat): Taken {
    var t := TakeBatch(queue, room);
    Taken(batch + t.batch, t.queue)
  }

  lemma ContinueTaking(batch: Chunk, queue: seq<Chunk>, room: nat)
    requires queue != [] && room > 0
    ensures var n := TakeLength(queue[0], room);
            Continued(batch, queue, room)
            == if n == 0 then Taken(batch, queue) else Continued(batch + queue[0][..n], Without(queue, n), room - n)
  {
    hide TakeLength, Without;
    var n := TakeLength(queue[0], room);
    if n > 0 {
      Assoc(batch, queue[0][..n], TakeBatch(Without(queue, n), room - n).batch);
    } else {
      assert batch + [] == batch;
    }
  }

  lemma NothingToTake(batch: Chunk, queue: seq<Chunk>, room: nat)
    requires queue == [] || room == 0
    ensures Continued(batch, queue, room) == Taken(batch, queue)
  {
    assert batch + [] == batch;
  }

  // ---------------------------------------------------------------- the state machine

  /** `written` are the batches handed to the terminal; `completed` of them have called back. */
  datatype State = State(
    queue: seq<Chunk>,
    queuedChars: int,
    writePending: bool,
    timerSet: bool,
    written: seq<Chunk>,
    completed: nat)

  const EMPTY := State([], 0, false, false, [], 0)

  function Drain(s: State, limit: nat): State {
    if s.writePending || s.timerSet || s.queuedChars == 0 then s
    else
      var t := TakeBatch(s.queue, limit);
      var u := s.(queue := t.queue, queuedChars := s.queuedChars - |t.batch|);
      if t.batch == [] then u else u.(writePending := true, written := s.written + [t.batch])
  }

  datatype Event = Enqueue(data: Chunk) | WriteDone | TimerFired

  /** A callback or timer that is not outstanding cannot happen. */
  function Next(s: State, e: Event, limit: nat): State {
    match e
    case Enqueue(data) =>
      if data == [] then s
      else Drain(s.(queue := s.queue + [data], queuedChars := s.queuedChars + |data|), limit)
    case WriteDone =>
      if !s.writePending then s
      else
        var t := s.(writePending := false, completed := s.completed + 1);
        if t.queuedChars == 0 then t else t.(timerSet := true)
    case TimerFired =>
      if !s.timerSet then s else Drain(s.(timerSet := false), limit)
  }

  function Run(s: State, events: seq<Event>, limit: nat): State
    decreases |events|
  {
    if events == [] then s else Run(Next(s, events[0], limit), events[1..], limit)
  }

  /** Everything enqueued, in order. */
  function Enqueued(events: seq<Event>): Chunk {
    if events == [] then []
    else (if events[0].Enqueue? then events[0].data else []) + Enqueued(events[1..])
  }

  /** The queue of one terminal. */
  class TerminalBundle {
    var outputQueue: seq<Chunk>
    var outputQueuedChars: int
    var outputWritePending: bool
    var outputDrainTimer: bool
    var written: seq<Chunk>
    var completed: nat
    const limit: nat

    constructor (limit: nat)
      ensures Abstract() == EMPTY && this.limit == limit
    {
      this.limit := limit;
      outputQueue, outputQueuedChars, outputWritePending, outputDrainTimer := [], 0, false, false;
      written, completed := [], 0;
    }

    ghost function Abstract(): State
      reads this
    {
      State(outputQueue, outputQueuedChars, outputWritePending, outputDrainTimer, written, completed)
    }

    method TakeOutputBatch() returns (batch: Chunk)
      modifies `outputQueue, `outputQueuedChars
      ensures Taken(batch, outputQueue) == TakeBatch(old(outputQueue), limit)
      ensures outputQueuedChars == old(outputQueuedChars) - |batch|
    {
      hide TakeBatch;
      batch := [];
      ghost var whole := TakeBatch(outputQueue, limit);
      while outputQueue != [] && |batch| < limit
        invariant |batch| <= limit
        invariant whole == Continued(batch, outputQueue, limit - |batch|)
        invariant outputQueuedChars == old(outputQueuedChars) - |batch|
        decreases limit - |batch|
      {
        var next := outputQueue[0];
        var remaining := limit - |batch|;
        ContinueTaking(batch, outputQueue, remaining);
        var takeLength := if |next| < remaining then |next| else remaining;
        if takeLength > 0 && takeLength < |next| && IsHigh(next[takeLength - 1]) && IsLow(next[takeLength]) {
          takeLength := takeLength - 1;
        }
        if takeLength == 0 {
          return;
        }
        batch := batch + next[..takeLength];
        outputQueuedChars := outputQueuedChars - takeLength;
        if takeLength == |next| {
          outputQueue := outputQueue[1..];
        } else {
          outputQueue := [next[takeLength..]] + outputQueue[1..];
        }
      }
      NothingToTake(batch, outputQueue, limit - |batch|);
    }

    method DrainOutput()
      modifies this
      ensures Abstract() == Drain(old(Abstract()), limit)
    {
      if outputWritePending || outputDrainTimer || outputQueuedChars == 0 {
        return;
      }
      var data := TakeOutputBatch();
      if data == [] {
        return;
      }
      outputWritePending := true;
      written := written + [data];
    }

    method Write(data: Chunk)
      modifies this
      ensures Abstract() == Next(old(Abstract()), Enqueue(data), limit)
      ensures old(outputWritePending || outputDrainTimer) ==> written == old(written)
    {
      if data == [] {
        return;
      }
      outputQueue := outputQueue + [data];
      outputQueuedChars := outputQueuedChars + |data|;
      DrainOutput();
    }

    /** The terminal's callback for the batch in flight. */
    method OnWritten()
      requires outputWritePending
      modifies this
      ensures Abstract() == Next(old(Abstract()), WriteDone, limit)
      ensures written == old(written) && outputDrainTimer == (outputQueuedChars != 0 || old(outputDrainTimer))
    {
      outputWritePending := false;
      completed := completed + 1;
      if outputQueuedChars == 0 {
        return;
      }
      outputDrainTimer := true;
    }

    method OnTimer()
      requires outputDrainTimer
      modifies this
      ensures Abstract() == Next(old(Abstract()), TimerFired, limit)
    {
      outputDrainTimer := false;
      DrainOutput();
    }
  }

  // ---------------------------------------------------------------- one batch

  predicate NoEmpty(queue: seq<Chunk>) {
    forall i :: 0 <= i < |queue| ==> queue[i] != []
  }

  lemma {:induction false} WithoutDrops(queue: seq<Chunk>, n: nat)
    requires NoEmpty(queue) && queue != [] && n <= |queue[0]|
    ensures NoEmpty(Without(queue, n))
    ensures queue[0][..n] + Concat(Without(queue, n)) == Concat(queue)
  {
    assert queue[0] == queue[0][..n] + queue[0][n..];
    if n < |queue[0]| {
      assert Without(queue, n)[1..] == queue[1..];
      Assoc(queue[0][..n], queue[0][n..], Concat(queue[1..]));
    } else {
      assert queue[0][..n] == queue[0];
    }
  }

  /** A batch is a front of the queued text, within the limit, and as long as possible: it falls short
      by one code unit only before a surrogate pair that does not fit. */
  lemma {:induction false} BatchIsFront(queue: seq<Chunk>, room: nat)
    requires NoEmpty(queue)
    ensures var t := TakeBatch(queue, room);
            && t.batch + Concat(t.queue) == Concat(queue)
            && |t.batch| <= room
            && NoEmpty(t.queue)
            && (t.queue == [] || |t.batch| == room || (|t.batch| + 1 == room && CutsPair(t.queue[0], 1)))
            && (queue != [] && room >= 2 ==> t.batch != [])
    decreases room
  {
    hide Concat, Without, CutsPair;
    if queue == [] || room == 0 || TakeLength(queue[0], room) == 0 {
      if queue != [] && room > 0 {
        NothingFits(queue[0], room);
      }
    } else {
      var n := TakeLength(queue[0], room);
      WithoutDrops(queue, n);
      BatchIsFront(Without(queue, n), room - n);
      var t := TakeBatch(Without(queue, n), room - n);
      Assoc(queue[0][..n], t.batch, Concat(t.queue));
    }
    assert [] + Concat(queue) == Concat(queue);
  }

  lemma NothingFits(next: Chunk, room: nat)
    requires next != [] && room > 0 && TakeLength(next, room) == 0
    ensures room == 1 && CutsPair(next, 1)
  {
  }

  /** What stays queued starts at a queued string, or inside one at a place that separates no pair. */
  lemma {:induction false} BatchCutsNoPair(queue: seq<Chunk>, room: nat) returns (i: nat, k: nat)
    ensures i <= |queue|
    ensures var rest := TakeBatch(queue, room).queue;
            || rest == queue[i..]
            || (i < |queue| && 0 < k < |queue[i]| && !CutsPair(queue[i], k) && rest == [queue[i][k..]] + queue[i + 1..])
    decreases room
  {
    i, k := 0, 0;
    if queue == [] || room == 0 || TakeLength(queue[0], room) == 0 {
    } else {
      var n := TakeLength(queue[0], room);
      if n == |queue[0]| {
        var j;
        j, k := BatchCutsNoPair(queue[1..], room - n);
        i := j + 1;
      } else {
        k := n;
        var remainder := queue[0][n..];
        assert Without(queue, n)[0] == remainder;
        assert CutsPair(queue[0], room) ==> room == n || CutsPair(remainder, 1);
      }
    }
  }

  /** Surrogates come in pairs. */
  predicate WellFormed(s: Chunk) {
    if s == [] then true
    else if IsHigh(s[0]) then |s| >= 2 && IsLow(s[1]) && WellFormed(s[2..])
    else !IsLow(s[0]) && WellFormed(s[1..])
  }

  lemma {:induction false} WellFormedConcat(a: Chunk, b: Chunk)
    requires WellFormed(a) && WellFormed(b)
    ensures WellFormed(a + b)
    decreases |a|
  {
    if a == [] {
      assert a + b == b;
    } else {
      var n := if IsHigh(a[0]) then 2 else 1;
      assert (a + b)[n..] == a[n..] + b;
      WellFormedConcat(a[n..], b);
    }
  }

  /** A text is well-formed when its first character is whole and the rest is well-formed. */
  lemma WellFormedFront(s: Chunk, n: nat)
    requires s != [] && n == if IsHigh(s[0]) then 2 else 1
    ensures WellFormed(s) <==>
              && n <= |s| && WellFormed(s[n..])
              && if IsHigh(s[0]) then IsLow(s[1]) else !IsLow(s[0])
  {
  }

  lemma CutsPairBehind(s: Chunk, n: nat, k: nat)
    requires n <= k <= |s| && CutsPair(s[n..], k - n)
    ensures CutsPair(s, k)
  {
    assert s[n..][k - n] == s[k] && s[n..][k - n - 1] == s[k - 1];
  }

  /** Cutting well-formed text anywhere but inside a pair leaves two well-formed pieces. */
  lemma {:induction false} WellFormedCut(s: Chunk, k: nat)
    requires WellFormed(s) && k <= |s| && !CutsPair(s, k)
    ensures WellFormed(s[..k]) && WellFormed(s[k..])
    decreases |s|
  {
    hide WellFormed;
    if k == 0 {
      EmptyIsWellFormed();
      assert s[..0] == [] && s[0..] == s;
    } else {
      var n := if IsHigh(s[0]) then 2 else 1;
      WellFormedFront(s, n);
      if CutsPair(s[n..], k - n) {
        CutsPairBehind(s, n, k);
      }
      WellFormedCut(s[n..], k - n);
      SliceTwice(s, n, k);
      WellFormedFront(s[..k], n);
    }
  }

  lemma SliceTwice(s: Chunk, n: nat, k: nat)
    requires n <= k <= |s|
    ensures s[n..][..k - n] == s[..k][n..] && s[n..][k - n..] == s[k..]
  {
  }

  lemma EmptyIsWellFormed()
    ensures WellFormed([])
  {
  }

  lemma WithoutKeepsPairs(queue: seq<Chunk>, n: nat)
    requires queue != [] && n <= |queue[0]| && WellFormed(queue[0][n..])
    requires forall c :: c in queue ==> WellFormed(c)
    ensures forall c :: c in Without(queue, n) ==> WellFormed(c)
  {
    hide WellFormed;
  }

  /** Batches of well-formed strings are well-formed, and so is what stays queued. */
  lemma {:induction false} BatchKeepsPairs(queue: seq<Chunk>, room: nat)
    requires forall c :: c in queue ==> WellFormed(c)
    ensures var t := TakeBatch(queue, room);
            WellFormed(t.batch) && forall c :: c in t.queue ==> WellFormed(c)
    decreases room
  {
    hide WellFormed, CutsPair, Without;
    EmptyIsWellFormed();
    if queue == [] || room == 0 || TakeLength(queue[0], room) == 0 {
    } else {
      var n := TakeLength(queue[0], room);
      WellFormedCut(queue[0], n);
      WithoutKeepsPairs(queue, n);
      BatchKeepsPairs(Without(queue, n), room - n);
      WellFormedConcat(queue[0][..n], TakeBatch(Without(queue, n), room - n).batch);
    }
  }

  // ---------------------------------------------------------------- when writes start

  /**
   Data for an idle terminal is written at once; a busy one writes nothing more before its callback
   and the timer behind it; the callback itself writes nothing and sets the timer when text waits.
   */
  lemma WritesStart(s: State, data: Chunk, limit: nat)
    requires limit >= 2 && data != [] && NoEmpty(s.queue)
    ensures var t := Next(s, Enqueue(data), limit);
            if s.writePending || s.timerSet then t.written == s.written
            else s.queuedChars == |Concat(s.queue)| ==> |t.written| == |s.written| + 1 && t.writePending
    ensures s.writePending ==>
              var t := Next(s, WriteDone, limit);
              t.written == s.written && !t.writePending && (t.timerSet <==> s.timerSet || s.queuedChars != 0)
    ensures s.timerSet && !s.writePending && s.queue != [] && s.queuedChars == |Concat(s.queue)| ==>
              var t := Next(s, TimerFired, limit);
              |t.written| == |s.written| + 1 && t.writePending && !t.timerSet
  {
    hide TakeBatch, Concat;
    var waiting := s.queue + [data];
    BatchIsFront(waiting, limit);
    BatchIsFront(s.queue, limit);
    ConcatConcat(s.queue, [data]);
    ConcatOne(data);
    ConcatEmptyIff(s.queue);
  }

  // ---------------------------------------------------------------- every run

  ghost predicate Inv(s: State, limit: nat) {
    && s.queuedChars == |Concat(s.queue)|
    && NoEmpty(s.queue)
    && !(s.writePending && s.timerSet)
    && (s.queuedChars > 0 ==> s.writePending || s.timerSet)
    && (s.timerSet ==> s.queuedChars > 0)
    && |s.written| == s.completed + (if s.writePending then 1 else 0)
    && (forall b :: b in s.written ==> 0 < |b| <= limit)
  }

  /** All that has left and all that waits. */
  function Through(s: State): Chunk {
    Concat(s.written) + Concat(s.queue)
  }

  lemma ConcatEmptyIff(queue: seq<Chunk>)
    requires NoEmpty(queue)
    ensures |Concat(queue)| == 0 <==> queue == []
  {
  }

  lemma DrainKeeps(s: State, limit: nat)
    requires limit >= 2
    requires s.queuedChars == |Concat(s.queue)| && NoEmpty(s.queue)
    requires !(s.writePending && s.timerSet) && (s.timerSet ==> s.queuedChars > 0)
    requires |s.written| == s.completed + (if s.writePending then 1 else 0)
    requires forall b :: b in s.written ==> 0 < |b| <= limit
    ensures Inv(Drain(s, limit), limit) && Through(Drain(s, limit)) == Through(s)
    ensures !s.writePending && !s.timerSet ==> Drain(s, limit).queuedChars < s.queuedChars || s.queuedChars == 0
  {
    hide TakeBatch;
    if !s.writePending && !s.timerSet && s.queuedChars != 0 {
      var t := TakeBatch(s.queue, limit);
      BatchIsFront(s.queue, limit);
      ConcatEmptyIff(s.queue);
      ConcatConcat(s.written, [t.batch]);
      ConcatOne(t.batch);
      Assoc(Concat(s.written), t.batch, Concat(t.queue));
    }
  }

  lemma EnqueueKeeps(s: State, data: Chunk, limit: nat)
    requires limit >= 2 && Inv(s, limit) && data != []
    ensures var t := s.(queue := s.queue + [data], queuedChars := s.queuedChars + |data|);
            && Inv(Drain(t, limit), limit)
            && Through(Drain(t, limit)) == Through(s) + data
  {
    hide Drain;
    ConcatConcat(s.queue, [data]);
    ConcatOne(data);
    Assoc(Concat(s.written), Concat(s.queue), data);
    DrainKeeps(s.(queue := s.queue + [data], queuedChars := s.queuedChars + |data|), limit);
  }

  lemma NextKeeps(s: State, e: Event, limit: nat)
    requires limit >= 2 && Inv(s, limit)
    ensures Inv(Next(s, e, limit), limit)
    ensures Through(Next(s, e, limit)) == Through(s) + (if e.Enqueue? then e.data else [])
  {
    hide Drain;
    assert Through(s) + [] == Through(s);
    match e
    case Enqueue(data) =>
      if data != [] {
        EnqueueKeeps(s, data, limit);
      }
    case WriteDone =>
    case TimerFired =>
      if s.timerSet {
        DrainKeeps(s.(timerSet := false), limit);
      }
  }

  /**
   Main result: after any events, batches written then queued text are all data in order, the
   counter is exact, at most one write is in flight, batches respect the limit, and queued text
   always has a write or a timer to move it on.
   */
  lemma {:induction false} NothingLostOrReordered(s: State, events: seq<Event>, limit: nat)
    requires limit >= 2 && Inv(s, limit)
    ensures Inv(Run(s, events, limit), limit)
    ensures Through(Run(s, events, limit)) == Through(s) + Enqueued(events)
    decreases |events|
  {
    hide Inv, Through, Next;
    if events == [] {
      assert Through(s) + [] == Through(s);
    } else {
      var now := if events[0].Enqueue? then events[0].data else [];
      NextKeeps(s, events[0], limit);
      NothingLostOrReordered(Next(s, events[0], limit), events[1..], limit);
      Assoc(Through(s), now, Enqueued(events[1..]));
    }
  }

  lemma {:induction false} PairsSurvive(s: State, events: seq<Event>, limit: nat)
    requires forall c :: c in s.queue + s.written ==> WellFormed(c)
    requires forall e :: e in events && e.Enqueue? ==> WellFormed(e.data)
    ensures forall b :: b in Run(s, events, limit).written ==> WellFormed(b)
    decreases |events|
  {
    assert forall c :: c in s.written ==> c in s.queue + s.written;
    if events == [] {
    } else {
      var e := events[0];
      assert e in events;
      var waiting := s.queue + if e.Enqueue? && e.data != [] then [e.data] else [];
      assert forall c :: c in s.queue ==> c in s.queue + s.written;
      BatchKeepsPairs(waiting, limit);
      assert s.queue + [] == s.queue;
      PairsSurvive(Next(s, e, limit), events[1..], limit);
    }
  }

  /** The callbacks and timers that empty the queue when no more data comes. */
  function Settling(s: State, limit: nat): seq<Event>
    requires limit >= 2 && Inv(s, limit)
    decreases s.queuedChars, s.writePending
  {
    NextKeeps(s, WriteDone, limit);
    NextKeeps(s, TimerFired, limit);
    if s.writePending then [WriteDone] + Settling(Next(s, WriteDone, limit), limit)
    else if s.timerSet then
      DrainKeeps(s.(timerSet := false), limit);
      [TimerFired] + Settling(Next(s, TimerFired, limit), limit)
    else []
  }

  /** The queue never stalls: its own callbacks alone bring all queued text to the terminal. */
  lemma {:induction false} NeverStalls(s: State, limit: nat)
    requires limit >= 2 && Inv(s, limit)
    ensures var end := Run(s, Settling(s, limit), limit);
            end.queue == [] && !end.writePending && !end.timerSet && Concat(end.written) == Through(s)
    decreases s.queuedChars, s.writePending
  {
    NextKeeps(s, WriteDone, limit);
    NextKeeps(s, TimerFired, limit);
    if s.writePending {
      var next := Next(s, WriteDone, limit);
      NeverStalls(next, limit);
      assert ([WriteDone] + Settling(next, limit))[1..] == Settling(next, limit);
    } else if s.timerSet {
      DrainKeeps(s.(timerSet := false), limit);
      var next := Next(s, TimerFired, limit);
      NeverStalls(next, limit);
      assert ([TimerFired] + Settling(next, limit))[1..] == Settling(next, limit);
    } else {
      ConcatEmptyIff(s.queue);
    }
  }

  /**
   Main result: every run of a new terminal keeps all data in order, and its own callbacks bring
   everything enqueued to the terminal.
   */
  lemma EveryRun(events: seq<Event>, limit: nat)
    requires limit >= 2
    ensures var t := Run(EMPTY, events, limit);
            && Inv(t, limit) && Through(t) == Enqueued(events)
            && Concat(Run(t, Settling(t, limit), limit).written) == Enqueued(events)
  {
    hide Run, Settling;
    assert Through(EMPTY) + Enqueued(events) == Enqueued(events);
    NothingLostOrReordered(EMPTY, events, limit);
    NeverStalls(Run(EMPTY, events, limit), limit);
  }

  // ---------------------------------------------------------------- sessions without a terminal

  const DETACHED_BUFFER_MAX := 1024 * 1024

  /** The last code units of a text, as many as may be kept. */
  function Kept(s: Chunk): (r: Chunk)
    ensures |r| == (if |s| < DETACHED_BUFFER_MAX then |s| else DETACHED_BUFFER_MAX) && r == s[|s| - |r|..]
  {
    if |s| <= DETACHED_BUFFER_MAX then s else s[|s| - DETACHED_BUFFER_MAX..]
  }

  /** What is kept after appending the chunks one by one. */
  function BufferAfter(buffer: Chunk, chunks: seq<Chunk>): Chunk
    decreases |chunks|
  {
    if chunks == [] then buffer else BufferAfter(Kept(buffer + chunks[0]), chunks[1..])
  }

  class DetachedBuffers {
    var buffers: map<string, Chunk>

    constructor ()
      ensures buffers == map[]
    {
      buffers := map[];
    }

    function Buffer(session: string): Chunk
      reads this
    {
      if session in buffers then buffers[session] else []
    }

    method AppendSessionBuffer(session: string, data: Chunk)
      modifies this
      ensures buffers == old(buffers)[session := BufferAfter(old(Buffer(session)), [data])]
    {
      var next := Buffer(session) + data;
      buffers := buffers[session :=
        if |next| <= DETACHED_BUFFER_MAX then next else next[|next| - DETACHED_BUFFER_MAX..]];
    }
  }

  lemma KeptAbsorbs(a: Chunk, b: Chunk)
    ensures Kept(Kept(a) + b) == Kept(a + b)
  {
    var gone := |a| - |Kept(a)|;
    assert Kept(a) + b == (a + b)[gone..];
    DropTwice(a + b, gone, |Kept(a) + b| - |Kept(Kept(a) + b)|);
  }

  lemma DropTwice(s: Chunk, m: nat, n: nat)
    requires m + n <= |s|
    ensures s[m..][n..] == s[m + n..]
  {
  }

  /** Cutting after every chunk keeps exactly what cutting once at the end would keep. */
  lemma {:induction false} BufferIsTail(buffer: Chunk, chunks: seq<Chunk>)
    requires |buffer| <= DETACHED_BUFFER_MAX
    ensures BufferAfter(buffer, chunks) == Kept(buffer + Concat(chunks))
    decreases |chunks|
  {
    if chunks == [] {
      assert buffer + [] == buffer;
    } else {
      BufferIsTail(Kept(buffer + chunks[0]), chunks[1..]);
      KeptAbsorbs(buffer + chunks[0], Concat(chunks[1..]));
      Assoc(buffer, chunks[0], Concat(chunks[1..]));
    }
  }

  /** Unlike a batch, the kept tail may begin inside a surrogate pair: exactly when the cut falls there. */
  lemma {:induction false} KeptKeepsPairsIff(s: Chunk)
    requires WellFormed(s)
    ensures WellFormed(Kept(s)) <==> |s| <= DETACHED_BUFFER_MAX || !CutsPair(s, |s| - DETACHED_BUFFER_MAX)
  {
    if |s| > DETACHED_BUFFER_MAX {
      var k := |s| - DETACHED_BUFFER_MAX;
      if CutsPair(s, k) {
        assert IsLow(Kept(s)[0]);
      } else {
        WellFormedCut(s, k);
      }
    }
  }

  lemma {:induction false} NoSurrogatesWellFormed(s: Chunk)
    requires forall u :: u in s ==> !IsHigh(u) && !IsLow(u)
    ensures WellFormed(s)
  {
    if s == [] {
    } else {
      NoSurrogatesWellFormed(s[1..]);
    }
  }

  /** A surrogate pair at the start of a text one unit too long loses its first half. */
  lemma KeptCutsPair()
    ensures var s := [0xD800, 0xDC00] + seq(DETACHED_BUFFER_MAX - 1, _ => 0x61);
            WellFormed(s) && !WellFormed(Kept(s))
  {
    var plain: Chunk := seq(DETACHED_BUFFER_MAX - 1, _ => 0x61);
    var s := [0xD800, 0xDC00] + plain;
    NoSurrogatesWellFormed(plain);
    assert s[2..] == plain;
    KeptKeepsPairsIff(s);
  }
}
