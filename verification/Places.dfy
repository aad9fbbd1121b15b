/**
 Where a session ends up: the pane, the tmux session and the tmux socket recorded for it. State and
 sequence number do not depend on the order in which emits arrive (`SessionRuns`); these three may
 (daemon/internal/session/registry.go:79-99), and this module says exactly when they do.
 */
module Places {
  import opened Wrappers
  import opened Wire
  import opened Sessions
  import opened SessionRuns

  datatype Field = PANE | SESSION_NAME | SOCKET

  /** What an emit reports for the field; "" if nothing. */
  function Reported(m: Emit, f: Field): string {
    match f
    case PANE => m.tmuxPane
    case SESSION_NAME => m.tmuxSession
    case SOCKET => m.tmuxSocket
  }

  function Held(s: Session, f: Field): string {
    match f
    case PANE => s.tmuxPane
    case SESSION_NAME => s.tmuxSession
    case SOCKET => s.tmuxSocket
  }

  function Recorded(t: Table, id: string, f: Field): string {
    if id in t then Held(t[id], f) else ""
  }

  /** An emit that settles the session: none with a greater number, and it declares the state that wins. */
  ghost predicate Decisive(ms: set<Emit>, id: string, d: Emit) {
    d in ms && d.seqNo > 0 && GreatestSeq(ms, id, d.seqNo) && Declares(d, id, TopState(ms, id, d.seqNo))
  }

  /** An emit of the session that reports the field and is not stale from the start. */
  ghost predicate Reports(ms: set<Emit>, id: string, m: Emit, f: Field) {
    m in ms && Concerns(m, id) && m.seqNo > 0 && Reported(m, f) != ""
  }

  ghost predicate AllReport(ms: set<Emit>, id: string, value: string, f: Field) {
    value != "" && forall d :: Decisive(ms, id, d) ==> Reported(d, f) == value
  }

  /** No emit that counts reports the field, or all that settle the session report the same for it. */
  ghost predicate IsSettled(ms: set<Emit>, id: string, f: Field) {
    || (forall m :: !Reports(ms, id, m, f))
    || exists value :: AllReport(ms, id, value, f)
  }

  // ----- What is settled does not depend on the order

  /** What is recorded is a decisive emit's, if that one reported anything, and in any case somebody's. */
  ghost predicate HeldExplained(ms: set<Emit>, id: string, t: Table, f: Field) {
    id in t ==>
      && (t[id].lastSeq > 0 ==>
            exists d :: Decisive(ms, id, d) && (Reported(d, f) != "" ==> Held(t[id], f) == Reported(d, f)))
      && (Held(t[id], f) != "" ==> t[id].lastSeq > 0 && exists m :: Reports(ms, id, m, f))
  }

  lemma DeliverKeepsHeld(ms: set<Emit>, id: string, t: Table, m: Emit, now: int, f: Field)
    requires Explains(ms, id, t, false) && HeldExplained(ms, id, t, f)
    ensures HeldExplained(ms + {m}, id, ApplyTo(t, m, now).0, f)
  {
    var all, t' := ms + {m}, ApplyTo(t, m, now).0;
    DeliverKeepsExplains(ms, id, t, m, now, false);
    if id in t && Held(t[id], f) != "" {
      var r :| Reports(ms, id, r, f);
      assert Reports(all, id, r, f);
    }
    if m.sessionId == id && Accepted(t, m, now) {
      NewIsDecisive(ms, id, t, m, now);
      assert Reported(m, f) != "" ==> Reports(all, id, m, f);
    } else if id in t && t[id].lastSeq > 0 {
      var d :| Decisive(ms, id, d) && (Reported(d, f) != "" ==> Held(t[id], f) == Reported(d, f));
      OldStaysDecisive(ms, id, t, m, now, d);
    }
  }

  lemma NewIsDecisive(ms: set<Emit>, id: string, t: Table, m: Emit, now: int)
    requires Explains(ms, id, t, false) && m.sessionId == id && Accepted(t, m, now)
    ensures Decisive(ms + {m}, id, m)
  {
    var s := RecordFor(t, id, now);
    assert GreatestSeq(ms, id, s.lastSeq);
    TopStateAfter(ms, id, s.lastSeq, m, StateForEvent(m.event).value);
    DeliverKeepsExplains(ms, id, t, m, now, false);
  }

  lemma OldStaysDecisive(ms: set<Emit>, id: string, t: Table, m: Emit, now: int, d: Emit)
    requires Explains(ms, id, t, false) && id in t && Decisive(ms, id, d) && t[id].lastSeq > 0
    requires !(m.sessionId == id && Accepted(t, m, now))
    ensures Decisive(ms + {m}, id, d)
  {
    GreatestIsUnique(ms, id, d.seqNo, t[id].lastSeq);
    DeliverKeepsExplains(ms, id, t, m, now, false);
    assert ApplyTo(t, m, now).0[id] == t[id];
  }

  lemma GreatestIsUnique(ms: set<Emit>, id: string, a: int, b: int)
    requires GreatestSeq(ms, id, a) && GreatestSeq(ms, id, b)
    ensures a == b
  {
  }

  lemma {:induction false} RunHeldExplained(es: seq<Event>, id: string, f: Field)
    requires NoSweeps(es)
    ensures HeldExplained(Delivered(es), id, Run(map[], es), f)
    decreases |es|
  {
    if es == [] {
    } else {
      var init, e := es[..|es| - 1], es[|es| - 1];
      RunHeldExplained(init, id, f);
      RunExplained(init, id);
      assert es == init + [e];
      DeliveredAppend(init, e);
      DeliverKeepsHeld(Delivered(init), id, Run(map[], init), e.m, e.now, f);
    }
  }

  /** Every run without sweeps that delivered these emits, however often each, records the same. */
  lemma {:induction false} SettledIsRecorded(a: seq<Event>, b: seq<Event>, id: string, f: Field)
    requires NoSweeps(a) && NoSweeps(b) && Delivered(a) == Delivered(b) && IsSettled(Delivered(a), id, f)
    ensures Recorded(Run(map[], a), id, f) == Recorded(Run(map[], b), id, f)
  {
    RunHeldExplained(a, id, f);
    RunHeldExplained(b, id, f);
    DeliveryOrderIsIrrelevant(a, b, id);
  }

  // ----- What is not settled does

  /** Every emit once, in some order. */
  ghost predicate Orders(es: seq<Event>, ms: set<Emit>) {
    NoSweeps(es) && EmitsOf(es) == multiset(ms)
  }

  lemma {:induction false} EmitsOfCons(e: Event, es: seq<Event>)
    requires e.Deliver?
    ensures EmitsOf([e] + es) == multiset{e.m} + EmitsOf(es)
    decreases |es|
  {
    var all := [e] + es;
    if es == [] {
      assert all[..|all| - 1] == [];
    } else {
      assert all[..|all| - 1] == [e] + es[..|es| - 1];
      EmitsOfCons(e, es[..|es| - 1]);
    }
  }

  lemma {:induction false} SomeOrder(ms: set<Emit>) returns (es: seq<Event>)
    ensures Orders(es, ms)
  {
    if ms == {} {
      es := [];
    } else {
      var m := Any(ms);
      var rest := SomeOrder(ms - {m});
      es := [Deliver(m, 0)] + rest;
      EmitsOfCons(Deliver(m, 0), rest);
      assert multiset(ms) == multiset{m} + multiset(ms - {m});
    }
  }

  ghost function Any<T>(s: set<T>): (x: T)
    requires s != {}
    ensures x in s
  {
    var x :| x in s;
    x
  }

  /** An order that delivers `first` before everything else. */
  lemma OrderFrom(ms: set<Emit>, first: Emit) returns (rest: seq<Event>)
    requires first in ms
    ensures Orders([Deliver(first, 0)] + rest, ms)
    ensures NoSweeps(rest) && forall i :: 0 <= i < |rest| ==> rest[i].m in ms
  {
    rest := SomeOrder(ms - {first});
    EmitsOfCons(Deliver(first, 0), rest);
    assert multiset(ms) == multiset{first} + multiset(ms - {first});
    EmitsAreDelivered(rest);
    forall i | 0 <= i < |rest| ensures rest[i].m in ms {
      assert rest[i].m in Delivered(rest);
      assert rest[i].m in EmitsOf(rest);
    }
  }

  lemma RunFrom(first: Emit, rest: seq<Event>)
    ensures Run(map[], [Deliver(first, 0)] + rest) == Run(ApplyTo(map[], first, 0).0, rest)
  {
    var one := [Deliver(first, 0)];
    RunSplit(map[], one, rest);
    assert one[..0] == [];
    assert Run(map[], one) == Next(Run(map[], []), one[0]);
  }

  /** Nothing moves a record that has the greatest number and the state that wins. */
  lemma {:induction false} DecidedStays(t: Table, es: seq<Event>, ms: set<Emit>, id: string)
    requires NoSweeps(es) && forall i :: 0 <= i < |es| ==> es[i].m in ms
    requires id in t && t[id].lastSeq > 0 && GreatestSeq(ms, id, t[id].lastSeq)
    requires t[id].state == TopState(ms, id, t[id].lastSeq)
    ensures id in Run(t, es) && Run(t, es)[id] == t[id]
    decreases |es|
  {
    if es == [] {
    } else {
      var init, e := es[..|es| - 1], es[|es| - 1];
      DecidedStays(t, init, ms, id);
      DecidedIgnores(Run(t, init), e.m, e.now, ms, id);
    }
  }

  lemma DecidedIgnores(t: Table, m: Emit, now: int, ms: set<Emit>, id: string)
    requires m in ms && id in t && t[id].lastSeq > 0 && GreatestSeq(ms, id, t[id].lastSeq)
    requires t[id].state == TopState(ms, id, t[id].lastSeq)
    ensures ApplyTo(t, m, now).0[id] == t[id]
  {
    if Concerns(m, id) && StateForEvent(m.event) == Some(Working) {
      assert Declares(m, id, Working);
    }
  }

  /** If a decisive emit comes first, what it reports - or nothing - is what is recorded for good. */
  lemma DecisiveFirst(ms: set<Emit>, id: string, d: Emit, f: Field) returns (es: seq<Event>)
    requires Decisive(ms, id, d)
    ensures Orders(es, ms) && Recorded(Run(map[], es), id, f) == Reported(d, f)
  {
    var rest := OrderFrom(ms, d);
    es := [Deliver(d, 0)] + rest;
    RunFrom(d, rest);
    DecidedStays(ApplyTo(map[], d, 0).0, rest, ms, id);
  }

  /** If an emit that reports something comes first, something is recorded in the end. */
  lemma ReportFirst(ms: set<Emit>, id: string, m: Emit, f: Field) returns (es: seq<Event>)
    requires Reports(ms, id, m, f)
    ensures Orders(es, ms) && Recorded(Run(map[], es), id, f) != ""
  {
    var rest := OrderFrom(ms, m);
    es := [Deliver(m, 0)] + rest;
    RunFrom(m, rest);
    RunsOnlyAdd(ApplyTo(map[], m, 0).0, rest, id);
  }

  /** An emit with a positive number makes for a decisive one. */
  lemma SomeDecisive(ms: set<Emit>, id: string, m: Emit, f: Field) returns (d: Emit)
    requires Reports(ms, id, m, f)
    ensures Decisive(ms, id, d)
  {
    var es := SomeOrder(ms);
    EmitsAreDelivered(es);
    assert Delivered(es) == ms by {
      forall e ensures e in Delivered(es) <==> e in ms {
        assert e in EmitsOf(es) <==> e in ms;
      }
    }
    RunExplained(es, id);
    RunHeldExplained(es, id, f);
    d :| Decisive(ms, id, d);
  }

  /** Not settled: there are two orders of the same emits that record different things. */
  lemma PlaceDependsOnOrder(ms: set<Emit>, id: string, f: Field) returns (a: seq<Event>, b: seq<Event>)
    requires !IsSettled(ms, id, f)
    ensures Orders(a, ms) && Orders(b, ms) && Recorded(Run(map[], a), id, f) != Recorded(Run(map[], b), id, f)
  {
    var m :| Reports(ms, id, m, f);
    var d := SomeDecisive(ms, id, m, f);
    a := DecisiveFirst(ms, id, d, f);
    if Reported(d, f) == "" {
      b := ReportFirst(ms, id, m, f);
    } else {
      assert !AllReport(ms, id, Reported(d, f), f);
      var e :| Decisive(ms, id, e) && Reported(e, f) != Reported(d, f);
      b := DecisiveFirst(ms, id, e, f);
    }
  }

  /** The least such case: one emit that reports something, and one with a greater number that does not. */
  lemma LateReportIsUnsettled(id: string, first: Emit, second: Emit, f: Field)
    requires Declares(first, id, Working) && first.seqNo == 1 && Reported(first, f) != ""
    requires Declares(second, id, Working) && second.seqNo == 2 && Reported(second, f) == ""
    ensures !IsSettled({first, second}, id, f)
  {
    var ms := {first, second};
    assert Reports(ms, id, first, f);
    assert Decisive(ms, id, second);
    forall p ensures !AllReport(ms, id, p, f) {
      assert Reported(second, f) == "";
    }
  }

  lemma OrderDelivers(es: seq<Event>, ms: set<Emit>)
    requires Orders(es, ms)
    ensures Delivered(es) == ms
  {
    EmitsAreDelivered(es);
    forall e ensures e in Delivered(es) <==> e in ms {
      assert e in EmitsOf(es) <==> e in ms;
    }
  }

  /**
   Exactly when a recorded field does not depend on the order: all orders of the same emits record the
   same if and only if none of them that counts reports it, or the decisive ones all report the same.
   */
  lemma OrderIndependentIff(ms: set<Emit>, id: string, f: Field)
    ensures (forall a, b :: Orders(a, ms) && Orders(b, ms) ==>
               Recorded(Run(map[], a), id, f) == Recorded(Run(map[], b), id, f))
            <==> IsSettled(ms, id, f)
  {
    if IsSettled(ms, id, f) {
      forall a, b | Orders(a, ms) && Orders(b, ms)
        ensures Recorded(Run(map[], a), id, f) == Recorded(Run(map[], b), id, f) {
        OrderDelivers(a, ms);
        OrderDelivers(b, ms);
        SettledIsRecorded(a, b, id, f);
      }
    } else {
      var a, b := PlaceDependsOnOrder(ms, id, f);
    }
  }
}
