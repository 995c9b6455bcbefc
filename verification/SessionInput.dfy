/**
 The per-session input chain: every send is chained behind the promise stored for its session,
 stores its own settled-either-way promise there, and deletes that entry when it is still the
 last one. Each step below is one promise reaction or one synchronous piece of the send.
 */
module SessionInput {
  import opened Wrappers

  type SessionId = string

  datatype Phase =
    | Waiting          // chained, the backend is not yet called
    | Running          // the backend call is under way
    | Settled(ok: bool)

  /** One send. `prev` is the call whose tail promise it waits for, None for an already resolved one. */
  datatype Call = Call(session: SessionId, prev: Option<nat>, phase: Phase, tailSettled: bool, cleaned: bool)

  /** Calls in the order in which they were made; `tails` is the queue entry of each session;
      `started` are the backend invocations in order. */
  datatype State = State(calls: seq<Call>, tails: map<SessionId, nat>, started: seq<nat>)

  const EMPTY := State([], map[], [])

  datatype Event =
    | Send(session: SessionId)
    | Start(i: nat)
    | Settle(i: nat, ok: bool)
    | TailSettle(i: nat)
    | Cleanup(i: nat)

  function Previous(s: State, session: SessionId): Option<nat> {
    if session in s.tails then Some(s.tails[session]) else None
  }

  predicate MayStart(s: State, i: nat)
    requires i < |s.calls|
  {
    && s.calls[i].phase.Waiting?
    && (s.calls[i].prev.Some? ==> s.calls[i].prev.value < |s.calls| && s.calls[s.calls[i].prev.value].tailSettled)
  }

  predicate Enabled(s: State, e: Event) {
    match e
    case Send(_) => true
    case Start(i) => i < |s.calls| && MayStart(s, i)
    case Settle(i, _) => i < |s.calls| && s.calls[i].phase.Running?
    case TailSettle(i) => i < |s.calls| && s.calls[i].phase.Settled? && !s.calls[i].tailSettled
    case Cleanup(i) => i < |s.calls| && s.calls[i].phase.Settled? && !s.calls[i].cleaned
  }

  function Next(s: State, e: Event): State
    requires Enabled(s, e)
  {
    match e
    case Send(session) =>
      State(s.calls + [Call(session, Previous(s, session), Waiting, false, false)],
            s.tails[session := |s.calls|], s.started)
    case Start(i) =>
      s.(calls := s.calls[i := s.calls[i].(phase := Running)], started := s.started + [i])
    case Settle(i, ok) => s.(calls := s.calls[i := s.calls[i].(phase := Settled(ok))])
    case TailSettle(i) => s.(calls := s.calls[i := s.calls[i].(tailSettled := true)])
    case Cleanup(i) =>
      var session := s.calls[i].session;
      State(s.calls[i := s.calls[i].(cleaned := true)],
            if Previous(s, session) == Some(i) then s.tails - {session} else s.tails, s.started)
  }

  /** A run performs enabled steps only. */
  ghost predicate IsRun(s: State, events: seq<Event>, t: State)
    decreases |events|
  {
    if events == [] then s == t
    else Enabled(s, events[0]) && IsRun(Next(s, events[0]), events[1..], t)
  }

  class InputQueue {
    var calls: seq<Call>
    var tails: map<SessionId, nat>
    var started: seq<nat>

    constructor ()
      ensures Abstract() == EMPTY
    {
      calls, tails, started := [], map[], [];
    }

    function Abstract(): State
      reads this
    {
      State(calls, tails, started)
    }

    /** The synchronous part of a send: chain behind the stored promise, then become it. */
    method SendInput(session: SessionId) returns (i: nat)
      modifies this
      ensures i == |old(calls)| && Abstract() == Next(old(Abstract()), Send(session))
    {
      var previousInput := if session in tails then Some(tails[session]) else None;
      i := |calls|;
      calls := calls + [Call(session, previousInput, Waiting, false, false)];
      tails := tails[session := i];
    }

    method Invoke(i: nat)
      requires Enabled(Abstract(), Start(i))
      modifies this
      ensures Abstract() == Next(old(Abstract()), Start(i))
    {
      calls := calls[i := calls[i].(phase := Running)];
      started := started + [i];
    }

    method Finish(i: nat, ok: bool)
      requires Enabled(Abstract(), Settle(i, ok))
      modifies this
      ensures Abstract() == Next(old(Abstract()), Settle(i, ok))
    {
      calls := calls[i := calls[i].(phase := Settled(ok))];
    }

    method SettleTail(i: nat)
      requires Enabled(Abstract(), TailSettle(i))
      modifies this
      ensures Abstract() == Next(old(Abstract()), TailSettle(i))
    {
      calls := calls[i := calls[i].(tailSettled := true)];
    }

    /** The finally block: deletes the queue entry only when it is still this call's own. */
    method Finally(i: nat)
      requires Enabled(Abstract(), Cleanup(i))
      modifies this
      ensures Abstract() == Next(old(Abstract()), Cleanup(i))
    {
      var session := calls[i].session;
      calls := calls[i := calls[i].(cleaned := true)];
      if session in tails && tails[session] == i {
        tails := tails - {session};
      }
    }
  }

  // ---------------------------------------------------------------- every run

  /** `k` is the last call before `i` of the same session. */
  ghost predicate IsPredecessor(s: State, k: nat, i: nat)
    requires i < |s.calls|
  {
    && k < i && s.calls[k].session == s.calls[i].session
    && forall m :: k < m < i ==> s.calls[m].session != s.calls[i].session
  }

  ghost predicate ChainedRight(s: State, i: nat)
    requires i < |s.calls|
  {
    var c := s.calls[i];
    && (c.prev.Some? ==> IsPredecessor(s, c.prev.value, i))
    && (c.prev.None? ==> forall m :: 0 <= m < i && s.calls[m].session == c.session ==> s.calls[m].phase.Settled?)
    && (!c.phase.Waiting? && c.prev.Some? ==> s.calls[c.prev.value].tailSettled)
    && (c.tailSettled || c.cleaned ==> c.phase.Settled?)
  }

  ghost predicate TailRight(s: State, session: SessionId) {
    if session in s.tails then
      var i := s.tails[session];
      && i < |s.calls| && s.calls[i].session == session && !s.calls[i].cleaned
      && forall m :: i < m < |s.calls| ==> s.calls[m].session != session
    else
      forall m :: 0 <= m < |s.calls| && s.calls[m].session == session ==> s.calls[m].phase.Settled?
  }

  ghost predicate Inv(s: State) {
    && (forall i :: 0 <= i < |s.calls| ==> ChainedRight(s, i))
    && (forall session :: TailRight(s, session))
  }

  /** The invocations are exactly the calls that no longer wait, each once, in call order per session. */
  ghost predicate StartedRight(s: State) {
    && (forall a :: 0 <= a < |s.started| ==> s.started[a] < |s.calls| && !s.calls[s.started[a]].phase.Waiting?)
    && (forall i :: 0 <= i < |s.calls| && !s.calls[i].phase.Waiting? ==> i in s.started)
    && (forall a, b :: 0 <= a < b < |s.started| ==> InOrder(s, s.started[a], s.started[b]))
  }

  /** Whatever was invoked has only settled calls before it in its session. */
  ghost predicate EarlierSettled(s: State) {
    forall i, j :: 0 <= i < j < |s.calls| && s.calls[i].session == s.calls[j].session ==>
      s.calls[j].phase.Waiting? || s.calls[i].phase.Settled?
  }

  ghost predicate InOrder(s: State, i: nat, j: nat) {
    && i != j
    && (i < |s.calls| && j < |s.calls| && s.calls[i].session == s.calls[j].session ==> i < j)
  }

  lemma ChainKept(s: State, e: Event, i: nat)
    requires Inv(s) && Enabled(s, e) && i < |Next(s, e).calls|
    ensures ChainedRight(Next(s, e), i)
  {
    var t := Next(s, e);
    if i < |s.calls| {
      assert ChainedRight(s, i);
      assert forall m :: 0 <= m < |s.calls| ==>
        t.calls[m].session == s.calls[m].session && t.calls[m].prev == s.calls[m].prev;
    } else {
      assert TailRight(s, e.session);
    }
  }

  lemma TailKept(s: State, e: Event, session: SessionId)
    requires Inv(s) && Enabled(s, e)
    ensures TailRight(Next(s, e), session)
  {
    var t := Next(s, e);
    assert TailRight(s, session);
    assert forall m :: 0 <= m < |s.calls| ==> t.calls[m].session == s.calls[m].session;
    if e.Cleanup? && s.calls[e.i].session == session && Previous(s, session) == Some(e.i) {
      OrderHolds(s, e.i);
    }
  }

  lemma InvNext(s: State, e: Event)
    requires Inv(s) && Enabled(s, e)
    ensures Inv(Next(s, e))
  {
    forall i | 0 <= i < |Next(s, e).calls|
      ensures ChainedRight(Next(s, e), i)
    {
      ChainKept(s, e, i);
    }
    forall session
      ensures TailRight(Next(s, e), session)
    {
      TailKept(s, e, session);
    }
  }

  /** A call whose backend was invoked has only settled calls before it in its session. */
  lemma {:induction false} OrderHolds(s: State, j: nat)
    requires Inv(s) && j < |s.calls| && !s.calls[j].phase.Waiting?
    ensures forall i :: 0 <= i < j && s.calls[i].session == s.calls[j].session ==> s.calls[i].phase.Settled?
    decreases j
  {
    assert ChainedRight(s, j);
    if s.calls[j].prev.None? {
    } else {
      var k := s.calls[j].prev.value;
      assert ChainedRight(s, k);
      OrderHolds(s, k);
    }
  }

  lemma StartedNext(s: State, e: Event)
    requires Inv(s) && StartedRight(s) && Enabled(s, e)
    ensures StartedRight(Next(s, e))
  {
    var t := Next(s, e);
    assert forall m :: 0 <= m < |s.calls| ==> t.calls[m].session == s.calls[m].session;
    forall i | 0 <= i < |t.calls| && !t.calls[i].phase.Waiting?
      ensures i in t.started
    {
      if e.Start? && i == e.i {
        assert t.started[|s.started|] == i;
      } else {
        assert i in s.started;
      }
    }
    forall a, b | 0 <= a < b < |t.started|
      ensures InOrder(t, t.started[a], t.started[b])
    {
      if b < |s.started| {
        assert InOrder(s, s.started[a], s.started[b]);
      } else {
        OrderHolds(s, s.started[a]);
      }
    }
  }

  /**
   Main result: in every interleaving, a session's backend invocations happen in call order, and
   each only after every earlier call of the session has settled, whether it failed or not.
   */
  lemma {:induction false} InputsKeepCallOrder(s: State, events: seq<Event>, t: State)
    requires Inv(s) && StartedRight(s) && IsRun(s, events, t)
    ensures Inv(t) && StartedRight(t)
    ensures EarlierSettled(t)
    decreases |events|
  {
    if events == [] {
      forall i, j | 0 <= i < j < |t.calls| && t.calls[i].session == t.calls[j].session && !t.calls[j].phase.Waiting?
        ensures t.calls[i].phase.Settled?
      {
        OrderHolds(t, j);
      }
    } else {
      InvNext(s, events[0]);
      StartedNext(s, events[0]);
      InputsKeepCallOrder(Next(s, events[0]), events[1..], t);
    }
  }

  lemma EmptyIsRight()
    ensures Inv(EMPTY) && StartedRight(EMPTY)
  {
  }

  /** Main result from the start: invocations of one session are in call order in every run. */
  lemma EveryRunKeepsCallOrder(events: seq<Event>, t: State)
    requires IsRun(EMPTY, events, t)
    ensures forall a, b :: 0 <= a < b < |t.started| ==> InOrder(t, t.started[a], t.started[b])
    ensures EarlierSettled(t)
  {
    hide Inv;
    EmptyIsRight();
    InputsKeepCallOrder(EMPTY, events, t);
  }

  /** The chain never blocks for good: the first unsettled call of a session runs, may start, or
      waits for nothing but the reaction of an already settled call. */
  lemma FirstUnsettledCanProceed(s: State, i: nat)
    requires Inv(s) && i < |s.calls| && !s.calls[i].phase.Settled?
    requires forall m :: 0 <= m < i && s.calls[m].session == s.calls[i].session ==> s.calls[m].phase.Settled?
    ensures || s.calls[i].phase.Running?
            || MayStart(s, i)
            || (s.calls[i].prev.Some? && Enabled(s, TailSettle(s.calls[i].prev.value)))
  {
    assert ChainedRight(s, i);
  }

  /** The steps a call still has to take. */
  function StepsLeft(c: Call): nat {
    match c.phase
    case Waiting => 4
    case Running => 3
    case Settled(_) => (if c.tailSettled then 0 else 1) + (if c.cleaned then 0 else 1)
  }

  function AllStepsLeft(calls: seq<Call>): nat {
    if calls == [] then 0 else StepsLeft(calls[0]) + AllStepsLeft(calls[1..])
  }

  lemma {:induction false} OneStepLess(calls: seq<Call>, i: nat, c: Call)
    requires i < |calls| && StepsLeft(c) < StepsLeft(calls[i])
    ensures AllStepsLeft(calls[i := c]) < AllStepsLeft(calls)
  {
    if i == 0 {
      assert calls[0 := c][1..] == calls[1..];
    } else {
      assert calls[i := c][1..] == calls[1..][i - 1 := c];
      OneStepLess(calls[1..], i - 1, c);
    }
  }

  /** The step that brings the first unsettled call forward. */
  lemma AStepForward(s: State, i: nat, ok: bool) returns (e: Event)
    requires Inv(s) && i < |s.calls| && !s.calls[i].phase.Settled?
    requires forall m :: 0 <= m < i ==> s.calls[m].phase.Settled?
    ensures e.Start? || e == Settle(i, ok) || e.TailSettle?
    ensures Enabled(s, e) && |Next(s, e).calls| == |s.calls|
    ensures AllStepsLeft(Next(s, e).calls) < AllStepsLeft(s.calls)
  {
    assert ChainedRight(s, i);
    var c := s.calls[i];
    if c.phase.Running? {
      e := Settle(i, ok);
      OneStepLess(s.calls, i, c.(phase := Settled(ok)));
    } else if MayStart(s, i) {
      e := Start(i);
      OneStepLess(s.calls, i, c.(phase := Running));
    } else {
      var p := c.prev.value;
      e := TailSettle(p);
      OneStepLess(s.calls, p, s.calls[p].(tailSettled := true));
    }
  }

  /** A state that only moved forward: the same calls, and what had settled keeps its outcome. */
  ghost predicate Forward(s: State, t: State, outcomes: nat -> bool) {
    && |t.calls| == |s.calls|
    && forall i :: 0 <= i < |s.calls| ==>
         && t.calls[i].session == s.calls[i].session
         && t.calls[i].phase == if s.calls[i].phase.Settled? then s.calls[i].phase else Settled(outcomes(i))
  }

  lemma {:induction false} FirstUnsettled(calls: seq<Call>, n: nat) returns (i: nat)
    requires n <= |calls| && forall m :: 0 <= m < n ==> calls[m].phase.Settled?
    ensures i <= |calls| && forall m :: 0 <= m < i ==> calls[m].phase.Settled?
    ensures i < |calls| ==> !calls[i].phase.Settled?
    decreases |calls| - n
  {
    if n == |calls| || !calls[n].phase.Settled? {
      i := n;
    } else {
      i := FirstUnsettled(calls, n + 1);
    }
  }

  /**
   Progress: whichever calls succeed or fail, some run of backend invocations, completions and
   promise reactions alone, without a further send, ends with every call settled.
   */
  lemma {:induction false} EveryCallSettles(s: State, outcomes: nat -> bool) returns (events: seq<Event>, t: State)
    requires Inv(s) && StartedRight(s)
    ensures IsRun(s, events, t) && forall e :: e in events ==> e.Start? || e.Settle? || e.TailSettle?
    ensures Forward(s, t, outcomes) && Inv(t) && StartedRight(t)
    decreases AllStepsLeft(s.calls)
  {
    hide Inv, StartedRight, AllStepsLeft;
    var i := FirstUnsettled(s.calls, 0);
    if i == |s.calls| {
      events, t := [], s;
    } else {
      var e := AStepForward(s, i, outcomes(i));
      InvNext(s, e);
      StartedNext(s, e);
      var rest;
      rest, t := EveryCallSettles(Next(s, e), outcomes);
      events := [e] + rest;
      assert events[1..] == rest;
    }
  }

  ghost predicate AllSettled(s: State) {
    forall i :: 0 <= i < |s.calls| ==> s.calls[i].phase.Settled?
  }

  /** When every call has settled, the cleanups still due empty the queue map. */
  lemma {:induction false} CleanupsEmpty(s: State) returns (events: seq<Event>, t: State)
    requires Inv(s) && AllSettled(s)
    ensures IsRun(s, events, t) && forall e :: e in events ==> e.Cleanup?
    ensures t.tails == map[] && |t.calls| == |s.calls|
    decreases AllStepsLeft(s.calls)
  {
    hide AllStepsLeft;
    if i :| 0 <= i < |s.calls| && !s.calls[i].cleaned {
      var e := Cleanup(i);
      OneStepLess(s.calls, i, s.calls[i].(cleaned := true));
      InvNext(s, e);
      var rest;
      rest, t := CleanupsEmpty(Next(s, e));
      events := [e] + rest;
      assert events[1..] == rest;
    } else {
      events, t := [], s;
      forall session
        ensures session !in s.tails
      {
        NoEntryLeaks(s, session);
      }
    }
  }

  /** From the start: every run can be completed, and then every call was invoked once, in call order. */
  lemma EveryRunCompletes(before: seq<Event>, s: State, outcomes: nat -> bool) returns (more: seq<Event>, t: State)
    requires IsRun(EMPTY, before, s)
    ensures IsRun(s, more, t) && (forall e :: e in more ==> e.Start? || e.Settle? || e.TailSettle?)
    ensures Forward(s, t, outcomes)
    ensures forall i :: 0 <= i < |t.calls| ==> i in t.started
    ensures forall a, b :: 0 <= a < b < |t.started| ==> InOrder(t, t.started[a], t.started[b])
    ensures exists cleanups: seq<Event>, u: State :: IsRun(t, cleanups, u) && u.tails == map[]
  {
    hide Inv, IsRun;
    EmptyIsRight();
    InputsKeepCallOrder(EMPTY, before, s);
    more, t := EveryCallSettles(s, outcomes);
    assert AllSettled(t);
    var cleanups, u := CleanupsEmpty(t);
  }

  /** Nothing is left behind: once every call of a session has been cleaned up, its entry is gone. */
  lemma NoEntryLeaks(s: State, session: SessionId)
    requires Inv(s)
    requires forall i :: 0 <= i < |s.calls| && s.calls[i].session == session ==> s.calls[i].cleaned
    ensures session !in s.tails
  {
    assert TailRight(s, session);
  }
}
