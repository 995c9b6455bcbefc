/**
 The serial monitor's records per session, trimmed to ten mebibytes as they arrive.
 */
module SerialLog {
  import opened Text
  import Utf8

  const MAX_SESSION_BYTES := 10 * 1024 * 1024

  datatype Direction = Rx | Tx

  datatype Record = Record(session: string, number: nat, direction: Direction, data: seq<Utf8.Byte>, timestamp: int)

  function Id(r: Record): string {
    r.session + ":" + Decimal(r.number)
  }

  function Total(records: seq<Record>): nat {
    if records == [] then 0 else |records[0].data| + Total(records[1..])
  }

  /** Drops records from the front while the rest is too large and more than one is left. */
  function Trimmed(records: seq<Record>): seq<Record> {
    if Total(records) > MAX_SESSION_BYTES && |records| > 1 then Trimmed(records[1..]) else records
  }

  datatype Event =
    | Append(session: string, direction: Direction, data: seq<Utf8.Byte>, timestamp: int)
    | Clear(session: string)

  datatype State = State(records: map<string, seq<Record>>, nextId: nat)

  const EMPTY := State(map[], 0)

  function RecordsOf(s: State, session: string): seq<Record> {
    if session in s.records then s.records[session] else []
  }

  function NewRecord(s: State, e: Event): Record
    requires e.Append?
  {
    Record(e.session, s.nextId + 1, e.direction, e.data, e.timestamp)
  }

  /** One event; `trims` is how the extended list of a session is cut. */
  function NextWith(s: State, e: Event, trims: bool): State {
    match e
    case Append(session, _, data, _) =>
      if data == [] then s
      else
        var extended := RecordsOf(s, session) + [NewRecord(s, e)];
        State(s.records[session := if trims then Trimmed(extended) else extended], s.nextId + 1)
    case Clear(session) => s.(records := s.records[session := []])
  }

  /** With `trims` the monitor's own run, without it the whole history since the last clear. */
  function Run(s: State, events: seq<Event>, trims: bool): State
    decreases |events|
  {
    if events == [] then s else Run(NextWith(s, events[0], trims), events[1..], trims)
  }

  class SerialMonitor {
    var recordsBySession: map<string, seq<Record>>
    var nextId: nat

    constructor ()
      ensures Abstract() == EMPTY
    {
      recordsBySession, nextId := map[], 0;
    }

    ghost function Abstract(): State
      reads this
    {
      State(recordsBySession, nextId)
    }

    method AppendRecord(session: string, direction: Direction, data: seq<Utf8.Byte>, timestamp: int)
      modifies this
      ensures Abstract() == NextWith(old(Abstract()), Append(session, direction, data, timestamp), true)
    {
      if data == [] {
        return;
      }
      nextId := nextId + 1;
      var record := Record(session, nextId, direction, data, timestamp);
      var nextRecords := (if session in recordsBySession then recordsBySession[session] else []) + [record];
      ghost var extended := nextRecords;
      var total := SumBytes(nextRecords);
      while total > MAX_SESSION_BYTES && |nextRecords| > 1
        invariant total == Total(nextRecords)
        invariant Trimmed(nextRecords) == Trimmed(extended)
        decreases |nextRecords|
      {
        total := total - |nextRecords[0].data|;
        nextRecords := nextRecords[1..];
      }
      recordsBySession := recordsBySession[session := nextRecords];
    }

    method ClearRecords(session: string)
      modifies this
      ensures Abstract() == NextWith(old(Abstract()), Clear(session), true)
    {
      recordsBySession := recordsBySession[session := []];
    }
  }

  method SumBytes(records: seq<Record>) returns (total: nat)
    ensures total == Total(records)
  {
    total := 0;
    var rest := records;
    while rest != []
      invariant total + Total(rest) == Total(records)
      decreases |rest|
    {
      total := total + |rest[0].data|;
      rest := rest[1..];
    }
  }

  // ---------------------------------------------------------------- properties

  lemma {:induction false} TotalAppend(records: seq<Record>, r: Record)
    ensures Total(records + [r]) == Total(records) + |r.data|
  {
    if records == [] {
      assert [] + [r] == [r];
      assert [r][1..] == [];
    } else {
      assert (records + [r])[1..] == records[1..] + [r];
      TotalAppend(records[1..], r);
    }
  }

  /** Trimming early does not change what a later trim keeps. */
  lemma {:induction false} TrimAbsorbs(records: seq<Record>, r: Record)
    ensures Trimmed(Trimmed(records) + [r]) == Trimmed(records + [r])
  {
    if Total(records) <= MAX_SESSION_BYTES || |records| <= 1 {
    } else {
      TotalAppend(records, r);
      assert (records + [r])[1..] == records[1..] + [r];
      TrimAbsorbs(records[1..], r);
    }
  }

  /** The longest tail within the limit, or the last record alone when even that exceeds it. */
  lemma {:induction false} TrimmedIsLongestTail(records: seq<Record>) returns (k: nat)
    ensures k <= |records| && Trimmed(records) == records[k..]
    ensures records != [] ==> k < |records|
    ensures Total(records[k..]) <= MAX_SESSION_BYTES || k == |records| - 1
    ensures forall j :: 0 <= j < k ==> Total(records[j..]) > MAX_SESSION_BYTES
  {
    if Total(records) > MAX_SESSION_BYTES && |records| > 1 {
      var rest := records[1..];
      k := TrimmedIsLongestTail(rest);
      forall j | 0 <= j < k + 1
        ensures Total(records[j..]) > MAX_SESSION_BYTES
      {
        if j == 0 {
          assert records[0..] == records;
        } else {
          assert records[j..] == rest[j - 1..];
        }
      }
      assert rest[k..] == records[k + 1..];
      k := k + 1;
    } else {
      k := 0;
      assert records[0..] == records;
    }
  }

  ghost predicate IsTrimOf(trimmed: State, full: State) {
    && trimmed.nextId == full.nextId && trimmed.records.Keys == full.records.Keys
    && forall session :: session in full.records ==> trimmed.records[session] == Trimmed(full.records[session])
  }

  /** The log kept is always the one-shot trim of what the same events give without trimming. */
  lemma {:induction false} LogIsTrimOfHistory(trimmed: State, full: State, events: seq<Event>)
    requires IsTrimOf(trimmed, full)
    ensures IsTrimOf(Run(trimmed, events, true), Run(full, events, false))
    decreases |events|
  {
    if events == [] {
    } else {
      var e := events[0];
      if e.Append? && e.data != [] {
        TrimAbsorbs(RecordsOf(full, e.session), NewRecord(full, e));
      }
      LogIsTrimOfHistory(NextWith(trimmed, e, true), NextWith(full, e, false), events[1..]);
    }
  }

  /** How many records the events gave a number. */
  function Given(events: seq<Event>): nat {
    if events == [] then 0
    else
      var front, last := events[..|events| - 1], events[|events| - 1];
      Given(front) + if last.Append? && last.data != [] then 1 else 0
  }

  /** All records of a session since its last clear, numbered in the order of all appends. */
  function History(events: seq<Event>, session: string): seq<Record> {
    if events == [] then []
    else
      var front, last := events[..|events| - 1], events[|events| - 1];
      if last.session != session then History(front, session)
      else match last
        case Append(_, direction, data, timestamp) =>
          if data == [] then History(front, session)
          else History(front, session) + [Record(session, Given(front) + 1, direction, data, timestamp)]
        case Clear(_) => []
  }

  lemma {:induction false} RunLast(s: State, front: seq<Event>, last: Event, trims: bool)
    ensures Run(s, front + [last], trims) == NextWith(Run(s, front, trims), last, trims)
    decreases |front|
  {
    hide NextWith;
    if front == [] {
      assert [] + [last] == [last] && [last][1..] == [];
    } else {
      assert (front + [last])[1..] == front[1..] + [last];
      RunLast(NextWith(s, front[0], trims), front[1..], last, trims);
    }
  }

  lemma {:induction false} UntrimmedIsHistory(events: seq<Event>, session: string)
    ensures var t := Run(EMPTY, events, false);
            RecordsOf(t, session) == History(events, session) && t.nextId == Given(events)
    decreases |events|
  {
    if events == [] {
    } else {
      var front, last := events[..|events| - 1], events[|events| - 1];
      assert events == front + [last];
      RunLast(EMPTY, front, last, false);
      UntrimmedIsHistory(front, session);
    }
  }

  /** Main result: in every run the log of a session is the one-shot trim of its history. */
  lemma LogIsTrimmedHistory(events: seq<Event>, session: string)
    ensures RecordsOf(Run(EMPTY, events, true), session) == Trimmed(History(events, session))
  {
    hide Run, History;
    LogIsTrimOfHistory(EMPTY, EMPTY, events);
    UntrimmedIsHistory(events, session);
  }

  /** The records of one session carry its name and increasing numbers up to the last one given out. */
  ghost predicate Ascending(session: string, records: seq<Record>, last: nat) {
    && (forall i :: 0 <= i < |records| ==> records[i].session == session && records[i].number <= last)
    && (forall i, j :: 0 <= i < j < |records| ==> records[i].number < records[j].number)
  }

  ghost predicate Apart(a: seq<Record>, b: seq<Record>) {
    forall i, j :: 0 <= i < |a| && 0 <= j < |b| ==> a[i].number != b[j].number
  }

  ghost predicate Numbered(s: State) {
    && (forall session :: session in s.records ==> Ascending(session, s.records[session], s.nextId))
    && (forall p, q :: p in s.records && q in s.records && p != q ==> Apart(s.records[p], s.records[q]))
  }

  lemma TailAscends(session: string, records: seq<Record>, last: nat, k: nat)
    requires k <= |records| && Ascending(session, records, last)
    ensures Ascending(session, records[k..], last)
  {
  }

  lemma TrimmedAscends(session: string, records: seq<Record>, r: Record)
    requires r.session == session && r.number > 0
    requires Ascending(session, records, r.number - 1)
    ensures Ascending(session, Trimmed(records + [r]), r.number)
  {
    hide Trimmed, Total;
    var extended := records + [r];
    assert Ascending(session, extended, r.number);
    var k := TrimmedIsLongestTail(extended);
    TailAscends(session, extended, r.number, k);
  }

  /** A number above all numbers of the other list keeps the two lists apart. */
  lemma TrimmedApart(records: seq<Record>, r: Record, other: seq<Record>, session: string)
    requires r.number > 0 && Apart(records, other) && Ascending(session, other, r.number - 1)
    ensures Apart(Trimmed(records + [r]), other) && Apart(other, Trimmed(records + [r]))
  {
    var k := TrimmedIsLongestTail(records + [r]);
  }

  lemma {:induction false} NumberedNext(s: State, e: Event)
    requires Numbered(s)
    ensures Numbered(NextWith(s, e, true))
  {
    hide Trimmed, Ascending, Apart;
    var s' := NextWith(s, e, true);
    if e.Append? && e.data != [] {
      var records, r := RecordsOf(s, e.session), NewRecord(s, e);
      EmptyIsFine(e.session, s.nextId);
      TrimmedAscends(e.session, records, r);
      forall p | p in s.records && p != e.session
        ensures Ascending(p, s.records[p], s'.nextId)
        ensures Apart(s'.records[e.session], s.records[p]) && Apart(s.records[p], s'.records[e.session])
      {
        EmptyIsApart(s.records[p]);
        AscendsFurther(p, s.records[p], s.nextId);
        TrimmedApart(records, r, s.records[p], p);
      }
    } else if e.Clear? {
      EmptyIsFine(e.session, s.nextId);
      forall p | p in s.records
        ensures Apart([], s.records[p]) && Apart(s.records[p], [])
      {
        EmptyIsApart(s.records[p]);
      }
    }
  }

  lemma EmptyIsFine(session: string, last: nat)
    ensures Ascending(session, [], last)
  {
  }

  lemma EmptyIsApart(records: seq<Record>)
    ensures Apart([], records) && Apart(records, [])
  {
  }

  lemma AscendsFurther(session: string, records: seq<Record>, last: nat)
    requires Ascending(session, records, last)
    ensures Ascending(session, records, last + 1)
  {
  }

  lemma {:induction false} NumberedRun(s: State, events: seq<Event>)
    requires Numbered(s)
    ensures Numbered(Run(s, events, true))
    decreases |events|
  {
    if events == [] {
    } else {
      NumberedNext(s, events[0]);
      NumberedRun(NextWith(s, events[0], true), events[1..]);
    }
  }

  /** In every run, record ids are unique across all sessions. */
  lemma IdsAreUnique(events: seq<Event>, p: string, i: nat, q: string, j: nat)
    requires var s := Run(EMPTY, events, true);
             p in s.records && q in s.records && i < |s.records[p]| && j < |s.records[q]|
    ensures var s := Run(EMPTY, events, true);
            Id(s.records[p][i]) == Id(s.records[q][j]) <==> p == q && i == j
  {
    NumberedRun(EMPTY, events);
    var s := Run(EMPTY, events, true);
    var a, b := s.records[p][i], s.records[q][j];
    if Id(a) == Id(b) {
      ColonDecimalInjective(a.session, a.number, b.session, b.number);
    }
  }
}
