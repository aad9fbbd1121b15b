/**
 What the registry's ordering rule amounts to over whole runs: emits delivered in any order, any
 number of times, with garbage collection in between.
 */
module SessionRuns {
  import opened Wrappers
  import opened Wire
  import opened Sessions

  /** A step of a run: an emit is delivered, or a sweep collects. */
  datatype Event = Deliver(m: Emit, now: int) | Collect(idle: int, paneExists: Option<PaneOracle>, now: int)

  function Next(t: Table, e: Event): Table {
    match e
    case Deliver(m, now) => ApplyTo(t, m, now).0
    case Collect(idle, paneExists, now) => Swept(t, idle, paneExists, now)
  }

  function Run(t: Table, es: seq<Event>): Table
    decreases |es|
  {
    if es == [] then t else Next(Run(t, es[..|es| - 1]), es[|es| - 1])
  }

  ghost predicate Declares(m: Emit, id: string, declared: State) {
    m.sessionId == id && StateForEvent(m.event) == Some(declared)
  }

  ghost predicate Concerns(m: Emit, id: string) {
    m.sessionId == id && StateForEvent(m.event).Some?
  }

  ghost function Delivered(es: seq<Event>): set<Emit> {
    set i | 0 <= i < |es| && es[i].Deliver? :: es[i].m
  }

  ghost predicate NoSweeps(es: seq<Event>) {
    forall i :: 0 <= i < |es| ==> es[i].Deliver?
  }

  /** `n` is the greatest sequence number among the session's emits, or 0 if none is positive. */
  ghost predicate GreatestSeq(ms: set<Emit>, id: string, n: int) {
    && n >= 0
    && (forall m :: m in ms && Concerns(m, id) ==> m.seqNo <= n)
    && (n > 0 ==> exists m :: m in ms && Concerns(m, id) && m.seqNo == n)
  }

  /** What the session's greatest emit declares: on equal numbers "working" ranks above "needs attention". */
  ghost function TopState(ms: set<Emit>, id: string, n: int): State {
    if n <= 0 then Unknown
    else if exists m :: m in ms && Declares(m, id, Working) && m.seqNo == n then Working
    else NeedsAttention
  }

  /** Whether an emit is taken as news by the session it finds. */
  predicate Accepted(t: Table, m: Emit, now: int) {
    && StateForEvent(m.event).Some?
    && !Ignored(RecordFor(t, m.sessionId, now), m.seqNo, StateForEvent(m.event).value)
  }

  /** Whether a sweep reaped the session after the last emit of it that was accepted. */
  predicate WipedSince(es: seq<Event>, id: string)
    decreases |es|
  {
    if es == [] then false
    else
      var init, e := es[..|es| - 1], es[|es| - 1];
      var t := Run(map[], init);
      match e
      case Deliver(m, now) => WipedSince(init, id) && !(m.sessionId == id && Accepted(t, m, now))
      case Collect(idle, paneExists, now) =>
        WipedSince(init, id) || (id in t && Reapable(t[id], idle, paneExists, now))
  }

  /** The record of a session after the emits `ms`, wiped by a sweep or not. */
  ghost predicate Explains(ms: set<Emit>, id: string, t: Table, wiped: bool) {
    && (id in t <==> exists m :: m in ms && Concerns(m, id))
    && (id in t ==>
          && t[id].id == id
          && GreatestSeq(ms, id, t[id].lastSeq)
          && t[id].state == if wiped then Unknown else TopState(ms, id, t[id].lastSeq))
  }

  lemma DeliveredAppend(es: seq<Event>, e: Event)
    ensures Delivered(es + [e]) == Delivered(es) + if e.Deliver? then {e.m} else {}
  {
    var all := es + [e];
    forall m | m in Delivered(es) + (if e.Deliver? then {e.m} else {}) ensures m in Delivered(all) {
      if m in Delivered(es) {
        var i :| 0 <= i < |es| && es[i].Deliver? && es[i].m == m;
        assert all[i].Deliver? && all[i].m == m;
      } else {
        assert all[|es|].Deliver? && all[|es|].m == m;
      }
    }
  }

  lemma DeliverKeepsExplains(ms: set<Emit>, id: string, t: Table, m: Emit, now: int, wiped: bool)
    requires Explains(ms, id, t, wiped) && (wiped ==> id in t)
    ensures Explains(ms + {m}, id, ApplyTo(t, m, now).0, wiped && !(m.sessionId == id && Accepted(t, m, now)))
  {
    var all, t' := ms + {m}, ApplyTo(t, m, now).0;
    assert m in all;
    if Concerns(m, id) {
      var s := RecordFor(t, id, now);
      var declared := StateForEvent(m.event).value;
      assert GreatestSeq(ms, id, s.lastSeq);
      if s.lastSeq > 0 {
        var top :| top in ms && Concerns(top, id) && top.seqNo == s.lastSeq;
        assert top in all;
      }
      assert GreatestSeq(all, id, t'[id].lastSeq);
      assert Declares(m, id, declared);
      TopStateAfter(ms, id, s.lastSeq, m, declared);
    } else {
      OtherEmitsDoNotMatter(ms, id, m);
      assert id in t' <==> id in t;
    }
  }

  lemma TopStateAfter(ms: set<Emit>, id: string, n: int, m: Emit, declared: State)
    requires GreatestSeq(ms, id, n) && Declares(m, id, declared)
    ensures m.seqNo < n ==> TopState(ms + {m}, id, n) == TopState(ms, id, n)
    ensures m.seqNo == n && declared == NeedsAttention ==> TopState(ms + {m}, id, n) == TopState(ms, id, n)
    ensures m.seqNo >= n && declared == Working && m.seqNo > 0 ==> TopState(ms + {m}, id, m.seqNo) == Working
    ensures m.seqNo > n ==> TopState(ms + {m}, id, m.seqNo) == declared
  {
    var all := ms + {m};
    assert forall e :: e in all && Declares(e, id, Working) ==> Concerns(e, id);
    assert m in all;
    assert forall e :: e in ms ==> e in all;
  }

  lemma OtherEmitsDoNotMatter(ms: set<Emit>, id: string, m: Emit)
    requires !Concerns(m, id)
    ensures (exists e :: e in ms + {m} && Concerns(e, id)) <==> (exists e :: e in ms && Concerns(e, id))
    ensures forall n :: GreatestSeq(ms, id, n) ==> GreatestSeq(ms + {m}, id, n)
    ensures forall n :: TopState(ms + {m}, id, n) == TopState(ms, id, n)
  {
    var all := ms + {m};
    forall e ensures e in all && Concerns(e, id) <==> e in ms && Concerns(e, id) {
    }
    forall n | GreatestSeq(ms, id, n) ensures GreatestSeq(all, id, n) {
      if n > 0 {
        var e :| e in ms && Concerns(e, id) && e.seqNo == n;
        assert e in all;
      }
    }
    forall n ensures TopState(all, id, n) == TopState(ms, id, n) {
      assert forall e :: Declares(e, id, Working) ==> Concerns(e, id);
    }
  }

  /**
   The record after any run is explained by the emits delivered so far and by whether a sweep reaped
   the session since the last one accepted, whatever was interleaved.
   */
  lemma {:induction false} RunExplained(es: seq<Event>, id: string)
    ensures Explains(Delivered(es), id, Run(map[], es), WipedSince(es, id))
    ensures WipedSince(es, id) ==> id in Run(map[], es)
    ensures NoSweeps(es) ==> !WipedSince(es, id)
    decreases |es|
  {
    if es == [] {
    } else {
      var init, e := es[..|es| - 1], es[|es| - 1];
      RunExplained(init, id);
      assert es == init + [e];
      DeliveredAppend(init, e);
      assert NoSweeps(es) ==> NoSweeps(init);
      match e {
        case Deliver(m, now) =>
          DeliverKeepsExplains(Delivered(init), id, Run(map[], init), m, now, WipedSince(init, id));
        case Collect(idle, paneExists, now) =>
          assert !es[|es| - 1].Deliver?;
      }
    }
  }

  /**
   Convergence: two runs without sweeps that delivered the same emits - in any order, each any number
   of times - know the same sessions in the same state with the same sequence number.
   */
  lemma DeliveryOrderIsIrrelevant(a: seq<Event>, b: seq<Event>, id: string)
    requires NoSweeps(a) && NoSweeps(b) && Delivered(a) == Delivered(b)
    ensures var s, t := Run(map[], a), Run(map[], b);
            && (id in s <==> id in t)
            && (id in s ==> s[id].state == t[id].state && s[id].lastSeq == t[id].lastSeq)
  {
    RunExplained(a, id);
    RunExplained(b, id);
  }

  /** In particular the order of a finite collection of emits does not matter. */
  lemma PermutationsConverge(a: seq<Event>, b: seq<Event>, id: string)
    requires NoSweeps(a) && NoSweeps(b) && EmitsOf(a) == EmitsOf(b)
    ensures var s, t := Run(map[], a), Run(map[], b);
            && (id in s <==> id in t)
            && (id in s ==> s[id].state == t[id].state && s[id].lastSeq == t[id].lastSeq)
  {
    EmitsAreDelivered(a);
    EmitsAreDelivered(b);
    assert Delivered(a) == Delivered(b) by {
      forall m ensures m in Delivered(a) <==> m in Delivered(b) {
        assert m in EmitsOf(a) <==> m in EmitsOf(b);
      }
    }
    DeliveryOrderIsIrrelevant(a, b, id);
  }

  ghost function EmitsOf(es: seq<Event>): multiset<Emit> {
    if es == [] then multiset{}
    else
      var e := es[|es| - 1];
      EmitsOf(es[..|es| - 1]) + if e.Deliver? then multiset{e.m} else multiset{}
  }

  lemma {:induction false} EmitsAreDelivered(es: seq<Event>)
    ensures forall m :: m in EmitsOf(es) <==> m in Delivered(es)
    decreases |es|
  {
    if es == [] {
    } else {
      var init, e := es[..|es| - 1], es[|es| - 1];
      EmitsAreDelivered(init);
      assert es == init + [e];
      DeliveredAppend(init, e);
    }
  }

  // ----- What the events mean

  /** The state a session of this name and number was declared to be in, by event name. */
  ghost predicate SaidWorking(m: Emit, id: string, n: int) {
    m.sessionId == id && m.seqNo == n && (m.event == "agent_working" || m.event == "agent_heartbeat")
  }

  ghost predicate SaidAttention(m: Emit, id: string, n: int) {
    m.sessionId == id && m.seqNo == n && m.event == "agent_needs_attention"
  }

  /**
   Over every run, sweeps included: a session waits for its user only if an emit with its number said
   "agent_needs_attention", and works only if one said "agent_working" or "agent_heartbeat".
   */
  lemma {:induction false} StateWasSaid(es: seq<Event>, id: string)
    ensures var t := Run(map[], es);
            id in t ==>
              && (t[id].state == NeedsAttention ==>
                    exists m :: m in Delivered(es) && SaidAttention(m, id, t[id].lastSeq))
              && (t[id].state == Working ==> exists m :: m in Delivered(es) && SaidWorking(m, id, t[id].lastSeq))
  {
    RunExplained(es, id);
    var ms, t := Delivered(es), Run(map[], es);
    if id in t && t[id].state != Unknown {
      var n := t[id].lastSeq;
      if m :| m in ms && Declares(m, id, Working) && m.seqNo == n {
        assert SaidWorking(m, id, n);
      } else {
        var m :| m in ms && Concerns(m, id) && m.seqNo == n;
        assert !Declares(m, id, Working);
        assert SaidAttention(m, id, n);
      }
    }
  }

  /** A newer heartbeat of a working session is taken, and is no change; of any other session it says "working". */
  lemma HeartbeatKeepsWorking(t: Table, m: Emit, now: int)
    requires m.event == "agent_heartbeat" && m.sessionId in t && m.seqNo > t[m.sessionId].lastSeq
    ensures var (t', upd) := ApplyTo(t, m, now);
            && upd.Applied? && upd.changed == (t[m.sessionId].state != Working)
            && t'[m.sessionId].state == Working && t'[m.sessionId].lastSeq == m.seqNo
            && ChangesOf(t, Deliver(m, now)) == if t[m.sessionId].state == Working then []
                                                else [Change(m.sessionId, t[m.sessionId].state, Working)]
  {
  }

  /** A newer emit puts its session in the state its event names, whatever it was in. */
  lemma NewerEmitDecides(t: Table, m: Emit, now: int)
    requires m.sessionId in t ==> m.seqNo > t[m.sessionId].lastSeq
    requires m.sessionId !in t ==> m.seqNo > 0
    ensures m.event == "agent_needs_attention" ==> StateOf(ApplyTo(t, m, now).0, m.sessionId) == NeedsAttention
    ensures m.event == "agent_working" || m.event == "agent_heartbeat" ==>
              StateOf(ApplyTo(t, m, now).0, m.sessionId) == Working
  {
  }

  /** Any other event name changes nothing, and is refused. */
  lemma OtherEventsAreRefused(t: Table, m: Emit, now: int)
    requires m.event != "agent_working" && m.event != "agent_heartbeat" && m.event != "agent_needs_attention"
    ensures ApplyTo(t, m, now) == (t, Rejected)
  {
  }

  /** The update returned for a valid emit is the truth about the record before and after it. */
  lemma UpdateIsTruth(t: Table, m: Emit, now: int)
    ensures var (t', upd) := ApplyTo(t, m, now);
            upd.Applied? ==>
              && m.sessionId in t' && upd.session == t'[m.sessionId]
              && upd.from == StateOf(t, m.sessionId) && upd.to == StateOf(t', m.sessionId)
              && (upd.changed <==> upd.from != upd.to)
  {
  }

  /** An emit touches its own session only. */
  lemma OtherSessionsStay(t: Table, m: Emit, now: int, id: string)
    requires id != m.sessionId
    ensures id in ApplyTo(t, m, now).0 <==> id in t
    ensures id in t ==> ApplyTo(t, m, now).0[id] == t[id]
  {
  }

  // ----- When a session was last heard of

  /** The time of the last accepted emit of the session; of the first valid one, if none was accepted. */
  ghost function LastHeard(es: seq<Event>, id: string): Option<int>
    decreases |es|
  {
    if es == [] then None
    else
      var init, e := es[..|es| - 1], es[|es| - 1];
      if e.Deliver? && Concerns(e.m, id) && (LastHeard(init, id).None? || Accepted(Run(map[], init), e.m, e.now))
      then Some(e.now)
      else LastHeard(init, id)
  }

  ghost function FirstHeard(es: seq<Event>, id: string): Option<int>
    decreases |es|
  {
    if es == [] then None
    else
      var init, e := es[..|es| - 1], es[|es| - 1];
      if FirstHeard(init, id).None? && e.Deliver? && Concerns(e.m, id) then Some(e.now) else FirstHeard(init, id)
  }

  /**
   The times of a record, over every run: it was first seen with the first valid emit, and last heard of
   with the last one accepted. Neither stale emits nor sweeps make a session look alive.
   */
  lemma {:induction false} TimesAreEmits(es: seq<Event>, id: string)
    ensures var t := Run(map[], es);
            && (id in t <==> LastHeard(es, id).Some?) && (id in t <==> FirstHeard(es, id).Some?)
            && (id in t ==>
                  (t[id].lastEventAt, t[id].firstSeenAt) == (LastHeard(es, id).value, FirstHeard(es, id).value))
    decreases |es|
  {
    if es == [] {
    } else {
      TimesAreEmits(es[..|es| - 1], id);
    }
  }

  // ----- Revival after a sweep

  lemma {:induction false} RunSplit(t: Table, a: seq<Event>, b: seq<Event>)
    ensures Run(t, a + b) == Run(Run(t, a), b)
    decreases |b|
  {
    if b == [] {
      assert a + b == a;
    } else {
      assert (a + b)[..|a + b| - 1] == a + b[..|b| - 1];
      RunSplit(t, a, b[..|b| - 1]);
    }
  }

  lemma RunOfOne(t: Table, e: Event)
    ensures Run(t, [e]) == Next(t, e)
  {
    assert [e][..0] == [];
    assert Run(t, [e]) == Next(Run(t, []), e);
  }

  /**
   A wiped session stays unknown until an emit with a strictly greater number arrives; in the
   meantime its number and its panes stay what they were.
   */
  lemma {:induction false} RevivalNeedsGreaterSeq(t: Table, es: seq<Event>, id: string)
    requires id in t && t[id].state == Unknown
    requires forall i :: 0 <= i < |es| && es[i].Deliver? && Concerns(es[i].m, id) ==>
               es[i].m.seqNo <= t[id].lastSeq
    ensures id in Run(t, es) && Run(t, es)[id] == t[id]
    decreases |es|
  {
    if es == [] {
    } else {
      RevivalNeedsGreaterSeq(t, es[..|es| - 1], id);
    }
  }

  /** No run ever forgets a session, lowers its number, or wipes a registered pane, session name or socket. */
  lemma {:induction false} RunsOnlyAdd(t: Table, es: seq<Event>, id: string)
    requires id in t
    ensures id in Run(t, es)
    ensures Run(t, es)[id].lastSeq >= t[id].lastSeq
    ensures t[id].tmuxPane != "" ==> Run(t, es)[id].tmuxPane != ""
    ensures t[id].tmuxSession != "" ==> Run(t, es)[id].tmuxSession != ""
    ensures t[id].tmuxSocket != "" ==> Run(t, es)[id].tmuxSocket != ""
    decreases |es|
  {
    if es == [] {
    } else {
      RunsOnlyAdd(t, es[..|es| - 1], id);
    }
  }

  // ----- At-least-once delivery is exactly-once

  /** The change an event publishes for its session, if any. */
  datatype Change = Change(id: string, from: State, to: State)

  function ChangesOf(t: Table, e: Event): seq<Change> {
    match e
    case Deliver(m, now) =>
      var upd := ApplyTo(t, m, now).1;
      if upd.Applied? && upd.changed then [Change(m.sessionId, upd.from, upd.to)] else []
    case Collect(_, _, _) => []
  }

  function Changes(t: Table, es: seq<Event>): seq<Change>
    decreases |es|
  {
    if es == [] then []
    else Changes(t, es[..|es| - 1]) + ChangesOf(Run(t, es[..|es| - 1]), es[|es| - 1])
  }

  /** An emit that was delivered before is ignored at every later point of the run. */
  lemma {:induction false} RedeliveryChangesNothing(es: seq<Event>, m: Emit, now: int)
    requires m in Delivered(es)
    ensures var t := Run(map[], es);
            && ApplyTo(t, m, now).0 == t
            && (ApplyTo(t, m, now).1.Applied? ==> !ApplyTo(t, m, now).1.changed)
            && ChangesOf(t, Deliver(m, now)) == []
  {
    RunExplained(es, m.sessionId);
    var t := Run(map[], es);
    if StateForEvent(m.event).Some? {
      assert Concerns(m, m.sessionId);
      var s := t[m.sessionId];
      assert m.seqNo <= s.lastSeq;
      assert Declares(m, m.sessionId, StateForEvent(m.event).value);
      assert Ignored(s, m.seqNo, StateForEvent(m.event).value);
      assert t[m.sessionId := s] == t;
    }
  }

  lemma {:induction false} ChangesSplit(t: Table, a: seq<Event>, b: seq<Event>)
    ensures Changes(t, a + b) == Changes(t, a) + Changes(Run(t, a), b)
    decreases |b|
  {
    if b == [] {
      assert a + b == a;
    } else {
      var init := b[..|b| - 1];
      assert (a + b)[..|a + b| - 1] == a + init;
      ChangesSplit(t, a, init);
      RunSplit(t, a, init);
    }
  }

  /**
   Exactly-once: a retry of an emit, arriving at any later point of any run, alters neither the
   registry afterwards nor the list of changes published.
   */
  lemma RetryIsInvisible(before: seq<Event>, m: Emit, now: int, after: seq<Event>)
    requires m in Delivered(before)
    ensures Run(map[], before + [Deliver(m, now)] + after) == Run(map[], before + after)
    ensures Changes(map[], before + [Deliver(m, now)] + after) == Changes(map[], before + after)
  {
    var retry := [Deliver(m, now)];
    RedeliveryChangesNothing(before, m, now);
    assert (before + retry)[..|before|] == before;
    assert Run(map[], before + retry) == Run(map[], before);
    assert Changes(map[], before + retry) == Changes(map[], before);
    RunSplit(map[], before + retry, after);
    RunSplit(map[], before, after);
    ChangesSplit(map[], before + retry, after);
    ChangesSplit(map[], before, after);
  }

  /** The changes published for a session form a chain: each starts where the one before it ended. */
  ghost predicate Chained(cs: seq<Change>, id: string, start: State, end: State)
    decreases |cs|
  {
    if cs == [] then start == end
    else
      var init, c := cs[..|cs| - 1], cs[|cs| - 1];
      if c.id == id then c.to == end && c.from != c.to && Chained(init, id, start, c.from)
      else Chained(init, id, start, end)
  }

  /** Without sweeps the published changes of a session lead, step by step, from unknown to its state. */
  lemma {:induction false} ChangesFormChain(es: seq<Event>, id: string)
    requires NoSweeps(es)
    ensures Chained(Changes(map[], es), id, Unknown, StateOf(Run(map[], es), id))
    decreases |es|
  {
    if es == [] {
    } else {
      var init, e := es[..|es| - 1], es[|es| - 1];
      ChangesFormChain(init, id);
      ChainGrows(Changes(map[], init), Run(map[], init), e, id);
    }
  }

  lemma ChainGrows(cs: seq<Change>, t: Table, e: Event, id: string)
    requires e.Deliver? && Chained(cs, id, Unknown, StateOf(t, id))
    ensures Chained(cs + ChangesOf(t, e), id, Unknown, StateOf(Next(t, e), id))
  {
    var latest := ChangesOf(t, e);
    if latest != [] {
      assert (cs + latest)[..|cs + latest| - 1] == cs;
    } else {
      assert cs + latest == cs;
    }
  }
}
