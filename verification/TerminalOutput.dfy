/**
 The incremental terminal decoder, and the local-shell output thread that feeds it.
 */
module TerminalOutput {
  import opened Sequences
  import opened Utf8
  import opened Wrappers

  /** The caller's byte vector, which the decoder drains in place. */
  class ByteBuffer {
    var bytes: seq<Byte>
    ghost var highest: nat  // the largest size the vector ever had

    ghost predicate Valid()
      reads this
    {
      |bytes| <= highest
    }

    constructor ()
      ensures Valid() && bytes == [] && highest == 0
    {
      bytes, highest := [], 0;
    }

    method Append(chunk: seq<Byte>)
      requires Valid()
      modifies this
      ensures Valid() && bytes == old(bytes) + chunk
      ensures highest == if |bytes| > old(highest) then |bytes| else old(highest)
    {
      bytes := bytes + chunk;
      highest := if |bytes| > highest then |bytes| else highest;
    }
  }

  /** Whatever follows, `output` and then the decoding of `rest` is the decoding of `bytes`. */
  ghost predicate Remaining(bytes: seq<Byte>, output: Text, rest: seq<Byte>) {
    forall tail: seq<Byte> ::
      && Decided(bytes + tail) == output + Decided(rest + tail)
      && Leftover(bytes + tail) == Leftover(rest + tail)
  }

  lemma PastValidPart(bytes: seq<Byte>, output: Text, rest: seq<Byte>, k: nat)
    requires Remaining(bytes, output, rest) && k <= |rest| && FromUtf8(rest[..k]).Valid?
    ensures Remaining(bytes, output + Chars(rest[..k]), rest[k..])
  {
    hide First, Decided, Leftover, Lossy, Chars, EncodeText;
    ValidDecodes(rest[..k]);
    forall tail: seq<Byte>
      ensures Decided(bytes + tail) == output + Chars(rest[..k]) + Decided(rest[k..] + tail)
      ensures Leftover(bytes + tail) == Leftover(rest[k..] + tail)
    {
      Resume(rest[..k], rest[k..] + tail);
      assert rest[..k] + (rest[k..] + tail) == rest + tail;
      assert [] + (rest[k..] + tail) == rest[k..] + tail;
      assert Decided(bytes + tail) == output + Decided(rest + tail);
    }
  }

  lemma PastMalformed(bytes: seq<Byte>, output: Text, rest: seq<Byte>, n: nat)
    requires Remaining(bytes, output, rest) && rest != [] && First(rest) == Malformed(n)
    ensures Remaining(bytes, output + [REPLACEMENT], rest[n..])
  {
    hide First, Decided, Leftover, Lossy;
    forall tail: seq<Byte>
      ensures Decided(bytes + tail) == output + [REPLACEMENT] + Decided(rest[n..] + tail)
      ensures Leftover(bytes + tail) == Leftover(rest[n..] + tail)
    {
      FirstIsLocal(rest, tail);
      DecidedStep(rest + tail);
      assert (rest + tail)[n..] == rest[n..] + tail;
      assert Decided(bytes + tail) == output + Decided(rest + tail);
    }
  }

  lemma AtEnd(bytes: seq<Byte>, output: Text, rest: seq<Byte>)
    requires Remaining(bytes, output, rest)
    requires rest == [] || First(rest).Truncated?
    ensures output == Decided(bytes) && Leftover(bytes) == rest
    ensures Lossy(bytes) == if rest == [] then output else output + [REPLACEMENT]
  {
    assert bytes + [] == bytes && rest + [] == rest;
    assert Decided(bytes + []) == output + Decided(rest + []);
    LossySplits(bytes);
  }

  lemma DropDrop(s: seq<Byte>, m: nat, n: nat)
    requires m + n <= |s|
    ensures s[m..][n..] == s[m + n..]
  {
  }

  lemma AtBegin(bytes: seq<Byte>)
    ensures Remaining(bytes, [], bytes) && bytes[0..] == bytes
  {
  }

  /** Decodes what can be decoded and leaves a cut sequence in the buffer unless the stream ended. */
  method DecodeTerminalOutput(buffer: ByteBuffer, endOfStream: bool) returns (output: Text)
    modifies buffer`bytes
    ensures endOfStream ==> output == Lossy(old(buffer.bytes)) && buffer.bytes == []
    ensures !endOfStream ==> output == Decided(old(buffer.bytes)) && buffer.bytes == Leftover(old(buffer.bytes))
  {
    hide First, Remaining, Decided, Leftover, Lossy, Chars;
    var bytes := buffer.bytes;
    AtBegin(bytes);
    output := [];
    var offset := 0;
    var rest := bytes;
    ghost var replacedTail := false;
    while offset < |bytes|
      invariant 0 <= offset <= |bytes| && rest == bytes[offset..]
      invariant buffer.bytes == bytes
      invariant !replacedTail ==> Remaining(bytes, output, rest)
      invariant replacedTail ==> endOfStream && offset == |bytes| && output == Lossy(bytes)
      decreases |bytes| - offset
    {
      match FromUtf8(rest) {
        case Valid =>
          assert rest[..|rest|] == rest && rest[|rest|..] == [];
          PastValidPart(bytes, output, rest, |rest|);
          output := output + Chars(rest);
          offset, rest := |bytes|, [];
        case Invalid(validUpTo, errorLen) =>
          ErrorFollowsValid(rest);
          PastValidPart(bytes, output, rest, validUpTo);
          var validEnd := offset + validUpTo;
          if validEnd > offset {
            output := output + Chars(rest[..validUpTo]);
          }
          DropDrop(bytes, offset, validUpTo);
          rest := rest[validUpTo..];
          match errorLen {
            case Some(n) =>
              PastMalformed(bytes, output, rest, n);
              DropDrop(bytes, validEnd, n);
              output := output + [REPLACEMENT];
              offset, rest := validEnd + n, rest[n..];
            case None =>
              AtEnd(bytes, output, rest);
              if endOfStream {
                output := output + [REPLACEMENT];
                offset, rest := |bytes|, [];
                replacedTail := true;
              } else {
                offset := validEnd;
                break;
              }
          }
      }
    }
    if rest == [] && !replacedTail {
      AtEnd(bytes, output, rest);
    }
    if offset > 0 {
      buffer.bytes := bytes[offset..];
    }
  }

  /** The text a caller sees who appends chunk after chunk and ends the stream after the last. */
  function DecodedInChunks(pending: seq<Byte>, chunks: seq<seq<Byte>>): Text
    decreases |chunks|
  {
    if chunks == [] then Lossy(pending)
    else Decided(pending + chunks[0]) + DecodedInChunks(Leftover(pending + chunks[0]), chunks[1..])
  }

  /** Chunking cannot be observed: every way of cutting the input yields the decoding of the whole. */
  lemma {:induction false} ChunkInvariance(pending: seq<Byte>, chunks: seq<seq<Byte>>)
    ensures DecodedInChunks(pending, chunks) == Lossy(pending + Concat(chunks))
    decreases |chunks|
  {
    if chunks == [] {
      assert pending + [] == pending;
    } else {
      var now := pending + chunks[0];
      assert pending + Concat(chunks) == now + Concat(chunks[1..]);
      Resume(now, Concat(chunks[1..]));
      ChunkInvariance(Leftover(now), chunks[1..]);
    }
  }

  /** Any text survives encoding, any cutting, and chunked decoding. */
  lemma TextSurvivesChunking(t: Text, chunks: seq<seq<Byte>>)
    requires Concat(chunks) == EncodeText(t)
    ensures DecodedInChunks([], chunks) == t
  {
    ChunkInvariance([], chunks);
    assert [] + Concat(chunks) == EncodeText(t);
    DecodeEncode(t);
  }

  // ---------------------------------------------------------------- local shell output thread

  const BATCH_BYTES := 64 * 1024
  const READ_BYTES := 8192
  const HIGHEST_PENDING := BATCH_BYTES - 1 + READ_BYTES

  /** What the output thread observes on its channel; the end of the schedule is the disconnect. */
  datatype Event =
    | Received(chunk: seq<Byte>)
    | FlushDue  // the flush interval is over: zero time remains, or the receive timed out

  /** The reader sends what one `read` into its 8192-byte buffer returned, never an empty read. */
  predicate FromReader(schedule: seq<Event>) {
    forall e :: e in schedule && e.Received? ==> 0 < |e.chunk| <= READ_BYTES
  }

  function AllReceived(schedule: seq<Event>): seq<Byte> {
    if schedule == [] then []
    else (if schedule[0].Received? then schedule[0].chunk else []) + AllReceived(schedule[1..])
  }

  /** Empty batches are not emitted. */
  function Emit(batches: seq<Text>, data: Text): (r: seq<Text>)
    ensures Concat(r) == Concat(batches) + data
    ensures (forall b :: b in batches ==> b != []) ==> forall b :: b in r ==> b != []
  {
    ConcatConcat(batches, [data]);
    ConcatOne(data);
    if data == [] then batches else batches + [data]
  }

  /** How often the flush interval ends. */
  function Flushes(schedule: seq<Event>): nat {
    if schedule == [] then 0 else (if schedule[0].FlushDue? then 1 else 0) + Flushes(schedule[1..])
  }

  lemma {:induction false} ScheduleConcat(a: seq<Event>, b: seq<Event>)
    ensures AllReceived(a + b) == AllReceived(a) + AllReceived(b)
    ensures Flushes(a + b) == Flushes(a) + Flushes(b)
  {
    if a == [] {
      assert a + b == b;
    } else {
      assert (a + b)[1..] == a[1..] + b;
      ScheduleConcat(a[1..], b);
    }
  }

  lemma OneEvent(e: Event)
    ensures AllReceived([e]) == if e.Received? then e.chunk else []
    ensures Flushes([e]) == if e.FlushDue? then 1 else 0
  {
    assert [e][1..] == [];
  }

  /** What taking one more event of the schedule adds. */
  lemma TakeOne(schedule: seq<Event>, n: nat)
    requires n < |schedule|
    ensures AllReceived(schedule[..n + 1])
         == if schedule[n].Received? then AllReceived(schedule[..n]) + schedule[n].chunk else AllReceived(schedule[..n])
    ensures Flushes(schedule[..n + 1]) == Flushes(schedule[..n]) + if schedule[n].FlushDue? then 1 else 0
  {
    assert schedule[..n + 1] == schedule[..n] + [schedule[n]];
    ScheduleConcat(schedule[..n], [schedule[n]]);
    OneEvent(schedule[n]);
  }

  /** Some of the batches, from the first on, are exactly the decided text of `bytes`. */
  ghost predicate SpelledBy(batches: seq<Text>, bytes: seq<Byte>) {
    exists k :: 0 <= k <= |batches| && Concat(batches[..k]) == Decided(bytes)
  }

  /** Each time the interval ended among the first `n` events, all that was decided had been emitted. */
  ghost predicate FlushedInTime(schedule: seq<Event>, n: nat, batches: seq<Text>)
    requires n <= |schedule|
  {
    forall i :: 0 <= i < n && schedule[i].FlushDue? ==> SpelledBy(batches, AllReceived(schedule[..i]))
  }

  lemma SpelledNow(batches: seq<Text>, bytes: seq<Byte>)
    requires Concat(batches) == Decided(bytes)
    ensures SpelledBy(batches, bytes)
  {
    assert batches[..|batches|] == batches;
  }

  lemma StillFlushed(schedule: seq<Event>, n: nat, batches: seq<Text>, data: Text)
    requires n <= |schedule| && FlushedInTime(schedule, n, batches)
    ensures FlushedInTime(schedule, n, Emit(batches, data))
  {
    forall i | 0 <= i < n && schedule[i].FlushDue?
      ensures SpelledBy(Emit(batches, data), AllReceived(schedule[..i]))
    {
      var k :| 0 <= k <= |batches| && Concat(batches[..k]) == Decided(AllReceived(schedule[..i]));
      assert Emit(batches, data)[..k] == batches[..k];
    }
  }

  /** The reader's chunks among the coming events, one at a time. */
  lemma NextFromReader(schedule: seq<Event>)
    requires schedule != [] && FromReader(schedule)
    ensures FromReader(schedule[1..]) && (schedule[0].Received? ==> |schedule[0].chunk| <= READ_BYTES)
  {
  }

  /**
   The inner loop: collects chunks until the batch is full, the interval ends or the channel closes,
   and not a single event further. `n` is how many events it took.
   */
  method CollectBatch(pending: ByteBuffer, schedule: seq<Event>)
    returns (disconnected: bool, coming: seq<Event>, ghost n: nat)
    requires FromReader(schedule) && pending.Valid() && pending.highest <= HIGHEST_PENDING
    modifies pending
    ensures pending.Valid() && pending.highest <= HIGHEST_PENDING
    ensures n <= |schedule| && coming == schedule[n..] && FromReader(coming)
    ensures pending.bytes == old(pending.bytes) + AllReceived(schedule[..n])
    ensures forall i :: 0 <= i < n - 1 ==> schedule[i].Received?
    ensures disconnected ==> coming == [] && |pending.bytes| < BATCH_BYTES && FlushDue !in schedule
    ensures !disconnected && |pending.bytes| < BATCH_BYTES ==> n > 0 && schedule[n - 1].FlushDue?
    ensures |pending.bytes| >= BATCH_BYTES ==> n == 0 || schedule[n - 1].Received?
  {
    hide FromReader, AllReceived;
    disconnected, coming, n := false, schedule, 0;
    assert schedule[..0] == [] && schedule[0..] == schedule;
    OneEvent(FlushDue);
    NoEvents();
    while |pending.bytes| < BATCH_BYTES
      invariant pending.Valid() && pending.highest <= HIGHEST_PENDING
      invariant n <= |schedule| && coming == schedule[n..] && FromReader(coming)
      invariant pending.bytes == old(pending.bytes) + AllReceived(schedule[..n])
      invariant forall i :: 0 <= i < n ==> schedule[i].Received?
      decreases |coming|
    {
      if coming == [] {
        disconnected := true;
        break;
      }
      var event := coming[0];
      NextFromReader(coming);
      TakeOne(schedule, n);
      if event.Received? {
        Assoc(old(pending.bytes), AllReceived(schedule[..n]), event.chunk);
      }
      coming, n := coming[1..], n + 1;
      if event.FlushDue? {
        break;
      }
      pending.Append(event.chunk);
    }
  }

  lemma NoEvents()
    ensures AllReceived([]) == [] && Flushes([]) == 0 && Decided([]) == [] && Leftover([]) == []
    ensures Concat<Scalar>([]) == [] && Lossy([]) == []
  {
  }

  /** Decoding the pending buffer, the leftover of `received` and `more` behind it. */
  lemma AfterDecode(received: seq<Byte>, more: seq<Byte>, batches: seq<Text>)
    requires Concat(batches) == Decided(received)
    ensures var pending := Leftover(received) + more;
            && Concat(Emit(batches, Decided(pending))) == Decided(received + more)
            && Leftover(pending) == Leftover(received + more)
            && Concat(Emit(batches, Lossy(pending))) == Lossy(received + more)
  {
    hide Decided, Leftover, Lossy, Concat, Emit;
    Resume(received, more);
  }

  /** The events of one batch: a chunk at position `n` and `took` more, of which only the last may
      be the end of the interval. */
  lemma OneBatch(schedule: seq<Event>, n: nat, after: seq<Event>, took: nat)
    requires n + 1 + took <= |schedule| && schedule[n].Received? && after == schedule[n + 1..]
    requires forall i :: 0 <= i < took - 1 ==> after[i].Received?
    ensures var m := n + 1 + took;
            var due := took > 0 && after[took - 1].FlushDue?;
            && AllReceived(schedule[..m])
               == AllReceived(schedule[..n]) + (schedule[n].chunk + AllReceived(after[..took]))
            && Flushes(schedule[..m]) == Flushes(schedule[..n]) + (if due then 1 else 0)
            && schedule[m..] == after[took..]
            && forall i :: n <= i < m && schedule[i].FlushDue? ==> i == m - 1 && due
  {
    hide AllReceived, Flushes;
    TakeOne(schedule, n);
    assert schedule[..n + 1 + took] == schedule[..n + 1] + after[..took];
    ScheduleConcat(schedule[..n + 1], after[..took]);
    Assoc(AllReceived(schedule[..n]), schedule[n].chunk, AllReceived(after[..took]));
    LastMayBeDue(after[..took]);
    assert forall i :: n < i < n + 1 + took ==> schedule[i] == after[i - n - 1];
  }

  lemma {:induction false} LastMayBeDue(events: seq<Event>)
    requires forall i :: 0 <= i < |events| - 1 ==> events[i].Received?
    ensures Flushes(events) == if events != [] && events[|events| - 1].FlushDue? then 1 else 0
  {
    if |events| <= 1 {
      assert events != [] ==> events[1..] == [];
    } else {
      LastMayBeDue(events[1..]);
    }
  }

  lemma FlushedUpTo(schedule: seq<Event>, n: nat, m: nat, batches: seq<Text>)
    requires n <= m <= |schedule| && FlushedInTime(schedule, n, batches)
    requires forall i :: n <= i < m && schedule[i].FlushDue? ==>
               i == m - 1 && Concat(batches) == Decided(AllReceived(schedule[..m]))
    ensures FlushedInTime(schedule, m, batches)
  {
    hide SpelledBy, Concat, Decided, AllReceived;
    forall i | n <= i < m && schedule[i].FlushDue?
      ensures SpelledBy(batches, AllReceived(schedule[..i]))
    {
      TakeOne(schedule, i);
      SpelledNow(batches, AllReceived(schedule[..i]));
    }
  }

  /** How many batches ends of the interval and full buffers account for. */
  ghost predicate FewBatches(events: seq<Event>, batches: seq<Text>, full: nat) {
    |batches| <= Flushes(events) + full && full * (BATCH_BYTES - 3) <= |AllReceived(events)|
  }

  /** After `n` events nothing is pending but the leftover. */
  ghost predicate Caught(schedule: seq<Event>, n: nat, batches: seq<Text>, pending: seq<Byte>, full: nat) {
    && n <= |schedule|
    && pending == Leftover(AllReceived(schedule[..n]))
    && Concat(batches) == Decided(AllReceived(schedule[..n]))
    && FlushedInTime(schedule, n, batches)
    && FewBatches(schedule[..n], batches, full)
  }

  /** After all events everything is out. */
  ghost predicate Finished(schedule: seq<Event>, batches: seq<Text>) {
    && Concat(batches) == Lossy(AllReceived(schedule))
    && FlushedInTime(schedule, |schedule|, batches)
    && (|batches| - 1 - Flushes(schedule)) * (BATCH_BYTES - 3) <= |AllReceived(schedule)|
  }

  lemma CaughtAtStart(schedule: seq<Event>)
    ensures Caught(schedule, 0, [], [], 0)
  {
    NoEvents();
    assert schedule[..0] == [];
  }

  /** The end of the interval changes nothing when nothing is being collected. */
  lemma IdleFlush(schedule: seq<Event>, n: nat, batches: seq<Text>, pending: seq<Byte>, full: nat)
    requires Caught(schedule, n, batches, pending, full) && n < |schedule| && schedule[n].FlushDue?
    ensures Caught(schedule, n + 1, batches, pending, full)
  {
    hide FlushedInTime, Concat, Decided, Leftover, AllReceived, Flushes;
    TakeOne(schedule, n);
    FlushedUpTo(schedule, n, n + 1, batches);
  }

  /** What holds once a batch was collected: `pending` is the leftover, a chunk and `took` more events. */
  ghost predicate Collected(schedule: seq<Event>, n: nat, took: nat, left: seq<Byte>, pending: seq<Byte>)
    requires n + 1 + took <= |schedule|
  {
    && schedule[n].Received?
    && pending == left + schedule[n].chunk + AllReceived(schedule[n + 1..][..took])
    && (forall i :: n < i < n + took ==> schedule[i].Received?)
  }

  ghost predicate IsDue(schedule: seq<Event>, n: nat, took: nat)
    requires n + 1 + took <= |schedule|
  {
    took > 0 && schedule[n + took].FlushDue?
  }

  lemma OneMoreBatch(events: seq<Event>, longer: seq<Event>, batches: seq<Text>, data: Text, full: nat, added: nat)
    requires FewBatches(events, batches, full) && |AllReceived(longer)| == |AllReceived(events)| + added
    ensures Flushes(longer) == Flushes(events) + 1 ==> FewBatches(longer, Emit(batches, data), full)
    ensures Flushes(longer) >= Flushes(events) && added >= BATCH_BYTES - 3 ==>
              FewBatches(longer, Emit(batches, data), full + 1)
  {
  }

  lemma BatchOut(schedule: seq<Event>, n: nat, took: nat, batches: seq<Text>, left: seq<Byte>, pending: seq<Byte>,
      full: nat)
    requires Caught(schedule, n, batches, left, full) && |left| <= 3 && n + 1 + took <= |schedule|
    requires Collected(schedule, n, took, left, pending)
    requires |pending| >= BATCH_BYTES || IsDue(schedule, n, took)
    ensures var next := if |pending| >= BATCH_BYTES then full + 1 else full;
            Caught(schedule, n + 1 + took, Emit(batches, Decided(pending)), Leftover(pending), next)
  {
    hide FlushedInTime, Concat, Decided, Leftover, Lossy, AllReceived, Flushes, FewBatches, Emit;
    var received, after := AllReceived(schedule[..n]), schedule[n + 1..];
    var more := schedule[n].chunk + AllReceived(after[..took]);
    OneBatch(schedule, n, after, took);
    Assoc(left, schedule[n].chunk, AllReceived(after[..took]));
    AfterDecode(received, more, batches);
    OneMoreBatch(schedule[..n], schedule[..n + 1 + took], batches, Decided(pending), full, |more|);
    StillFlushed(schedule, n, batches, Decided(pending));
    FlushedUpTo(schedule, n, n + 1 + took, Emit(batches, Decided(pending)));
  }

  lemma LastBatchOut(schedule: seq<Event>, n: nat, took: nat, batches: seq<Text>, left: seq<Byte>,
      pending: seq<Byte>, full: nat)
    requires Caught(schedule, n, batches, left, full) && n + 1 + took == |schedule|
    requires Collected(schedule, n, took, left, pending) && !IsDue(schedule, n, took)
    ensures Finished(schedule, Emit(batches, Lossy(pending)))
  {
    hide FlushedInTime, Concat, Decided, Leftover, Lossy, AllReceived, Flushes;
    var received, after := AllReceived(schedule[..n]), schedule[n + 1..];
    var more := schedule[n].chunk + AllReceived(after[..took]);
    OneBatch(schedule, n, after, took);
    Assoc(left, schedule[n].chunk, AllReceived(after[..took]));
    AfterDecode(received, more, batches);
    StillFlushed(schedule, n, batches, Lossy(pending));
    FlushedUpTo(schedule, n, n + 1 + took, Emit(batches, Lossy(pending)));
    assert schedule[..|schedule|] == schedule;
  }

  lemma LeftoverOut(schedule: seq<Event>, batches: seq<Text>, pending: seq<Byte>, full: nat)
    requires Caught(schedule, |schedule|, batches, pending, full)
    ensures Finished(schedule, Emit(batches, Lossy(pending)))
  {
    hide FlushedInTime, Concat, Decided, Leftover, Lossy, AllReceived, Flushes;
    assert schedule[..|schedule|] == schedule;
    AfterDecode(AllReceived(schedule), [], batches);
    assert pending + [] == pending && AllReceived(schedule) + [] == AllReceived(schedule);
    StillFlushed(schedule, |schedule|, batches, Lossy(pending));
  }

  /**
   The output thread over one whole schedule, on its empty pending buffer. Whatever the chunking
   and the timing, the emitted batches spell the lossy decoding of everything received, each time
   the interval ends everything decided so far is out, apart from the last there are no more
   batches than ends of the interval and full buffers, and the buffer was never larger than a batch
   less one byte and a full read.
   */
  method RunOutputThread(pending: ByteBuffer, schedule: seq<Event>) returns (batches: seq<Text>)
    requires FromReader(schedule) && pending.bytes == [] && pending.highest == 0
    modifies pending
    ensures Concat(batches) == Lossy(AllReceived(schedule))
    ensures forall b :: b in batches ==> b != []
    ensures forall i :: 0 <= i < |schedule| && schedule[i].FlushDue? ==>
              exists k :: 0 <= k <= |batches| && Concat(batches[..k]) == Decided(AllReceived(schedule[..i]))
    ensures (|batches| - 1 - Flushes(schedule)) * (BATCH_BYTES - 3) <= |AllReceived(schedule)|
    ensures pending.Valid() && pending.highest <= HIGHEST_PENDING && pending.bytes == []
  {
    hide Caught, Finished, FromReader, AllReceived, Flushes, Lossy, Decided, Leftover, First, Concat;
    batches := [];
    var coming := schedule;
    ghost var n: nat, full: nat, closed := 0, 0, false;
    CaughtAtStart(schedule);
    assert schedule[0..] == schedule;
    while coming != []
      invariant n <= |schedule| && coming == schedule[n..] && FromReader(coming) && !closed
      invariant pending.Valid() && pending.highest <= HIGHEST_PENDING && |pending.bytes| <= 3
      invariant Caught(schedule, n, batches, pending.bytes, full)
      invariant forall b :: b in batches ==> b != []
      decreases |coming|
    {
      var first := coming[0];
      NextFromReader(coming);
      coming := coming[1..];
      if first.FlushDue? {
        // The outer receive blocks: time passing does not end it.
        IdleFlush(schedule, n, batches, pending.bytes, full);
        n := n + 1;
        continue;
      }
      ghost var after, left := coming, pending.bytes;
      pending.Append(first.chunk);
      var disconnected;
      ghost var took;
      disconnected, coming, took := CollectBatch(pending, coming);
      assert forall i :: n < i < n + took ==> schedule[i] == after[i - n - 1];
      ghost var collected := pending.bytes;
      assert Collected(schedule, n, took, left, collected);
      LeftoverIsShort(collected);
      if disconnected {
        LastBatchOut(schedule, n, took, batches, left, collected, full);
      } else {
        BatchOut(schedule, n, took, batches, left, collected, full);
      }
      var data := DecodeTerminalOutput(pending, disconnected);
      batches := Emit(batches, data);
      if disconnected {
        closed := true;
        break;
      }
      full := if |collected| >= BATCH_BYTES then full + 1 else full;
      n := n + 1 + took;
    }
    if closed {
      NoEvents();
    } else {
      LeftoverOut(schedule, batches, pending.bytes, full);
    }
    var data := DecodeTerminalOutput(pending, true);
    batches := Emit(batches, data);
    FinishedMeans(schedule, batches);
  }

  lemma FinishedMeans(schedule: seq<Event>, batches: seq<Text>)
    requires Finished(schedule, batches)
    ensures Concat(batches) == Lossy(AllReceived(schedule))
    ensures forall i :: 0 <= i < |schedule| && schedule[i].FlushDue? ==>
              exists k :: 0 <= k <= |batches| && Concat(batches[..k]) == Decided(AllReceived(schedule[..i]))
    ensures (|batches| - 1 - Flushes(schedule)) * (BATCH_BYTES - 3) <= |AllReceived(schedule)|
  {
    forall i | 0 <= i < |schedule| && schedule[i].FlushDue?
      ensures exists k :: 0 <= k <= |batches| && Concat(batches[..k]) == Decided(AllReceived(schedule[..i]))
    {
      assert SpelledBy(batches, AllReceived(schedule[..i]));
    }
  }
}
