/**
 When a client agrees with the registry: over every run of `EndToEnd`, once nothing is under way.
 */
module Agreement {
  import opened Wrappers
  import opened Wire
  import opened Seqs
  import opened Sessions
  import opened Bus
  import opened Sdk
  import opened EndToEnd
  import B = BusRuns
  import S = SessionRuns

  /** Nothing is under way: all published, the pump idle, the connection read to its end. */
  ghost predicate Settled(n: Net) {
    && Waiting(n) == []
    && n.line.sub.pump == Idle && n.line.sub.buffer == []
    && n.read == |n.line.log|
  }

  lemma SettledClient(n: Net)
    requires Settled(n)
    ensures ClientState(n) == Projected(n)
  {
    assert n.line.log[..n.read] == n.line.log;
    assert WireMsgs(n.line.log) + [] == WireMsgs(n.line.log);
  }

  /** Something has gone, or will go, to the client behind its greeting. */
  predicate Behind(n: Net)
    requires n.greeting.Sent?
  {
    Tail(n.line) != [] || |n.line.log| > n.greeting.at + 1
  }

  ghost predicate GreetingPlaced(n: Net) {
    match n.greeting
    case Unread => true
    case Read(_, readAt) => readAt <= |n.line.log|
    case Sent(_, readAt, at) => readAt <= at < |n.line.log|
  }

  /** A pump step appends to the log only what it takes off a tail that is not empty. */
  lemma TickAndTail(n: Net)
    requires Healthy(n)
    ensures var l, l' := n.line, Next(n, PumpTick).line;
            && |l.log| <= |l'.log|
            && (|l'.log| == |l.log| ==> Tail(l') == Tail(l))
            && (|l'.log| > |l.log| ==> Tail(l) != [])
  {
    var l, snapshot := n.line, SnapshotOf(n.table, Bound(n));
    var frames := PumpStep(l.sub, l.alive, snapshot).1;
    PumpFrames(l, snapshot);
    if frames == [] {
      assert WireMsgs(frames) + Tail(B.PumpOn(l, snapshot)) == Tail(B.PumpOn(l, snapshot));
    }
  }

  lemma TickKeepsBehind(n: Net)
    requires Healthy(n) && n.greeting.Sent? && GreetingPlaced(n)
    ensures Next(n, PumpTick).greeting == n.greeting && (Behind(Next(n, PumpTick)) <==> Behind(n))
  {
    TickAndTail(n);
    TickKeepsRest(n);
  }

  // ----- Exactly when a client agrees

  /**
   What the client is heading for: its greeting, if nothing is behind it; else the last publication that
   was kept.
   */
  function Heading(n: Net): State
    requires |n.line.offered| == |n.line.kept|
  {
    if n.greeting.Sent? && !Behind(n) then n.greeting.state
    else StateAfterAll(n.before, B.Picked(n.line.offered, n.line.kept))
  }

  ghost predicate Tracks(n: Net) {
    Healthy(n) && GreetingPlaced(n) && Projected(n) == Heading(n)
  }

  lemma RegistryKeepsTracks(n: Net, step: Step)
    requires Tracks(n) && (step.Apply? || step.Sweep?)
    ensures Tracks(Next(n, step))
  {
    var n' := Next(n, step);
    RegistryStepAnnounces(n, step, Bound(n));
    PendingForSplit(n.pending, PutUp(n, step), Bound(n));
    RegistryLeavesLine(n, step);
    TracksElsewhere(n, n'.table, n'.pending);
  }

  lemma TracksElsewhere(n: Net, t: Table, pending: seq<Publication>)
    requires Tracks(n) && Bears(PendingFor(pending, Bound(n)))
    ensures Tracks(n.(table := t, pending := pending))
  {
    HealthyElsewhere(n, t, pending);
  }

  /** What an offer does to the kept messages, in terms of states. */
  lemma OfferKeeps(l: B.Line, msg: ServerMsg, first: State)
    requires |l.offered| == |l.kept| && Carried(msg).Some?
    ensures var l' := B.OfferOn(l, msg);
            && |l'.offered| == |l'.kept|
            && StateAfterAll(first, B.Picked(l'.offered, l'.kept)) ==
                 if HasRoom(l.sub) then Carried(msg).value else StateAfterAll(first, B.Picked(l.offered, l.kept))
  {
    var picked := B.Picked(l.offered, l.kept);
    B.PickedAppend(l.offered, l.kept, msg, HasRoom(l.sub));
    if HasRoom(l.sub) {
      LastBearerDecides(first, picked, [msg]);
    } else {
      assert picked + [] == picked;
    }
  }

  /** Taking any pending publication off the queue, seen from one session. */
  lemma TakenPending(pending: seq<Publication>, i: nat, id: string)
    requires i < |pending|
    ensures var own := if pending[i].id == id then [pending[i].msg] else [];
            var head, tail := PendingFor(pending[..i], id), PendingFor(pending[i + 1..], id);
            PendingFor(pending, id) == head + own + tail && PendingFor(Without(pending, i), id) == head + tail
  {
    var head, own, tail := pending[..i], [pending[i]], pending[i + 1..];
    assert pending == (head + own) + tail;
    PendingForSplit(head + own, tail, id);
    PendingForSplit(head, own, id);
    PendingForSplit(head, tail, id);
    PendingForOne(own, id);
  }

  lemma AnyPendingBears(pending: seq<Publication>, i: nat, id: string)
    requires i < |pending| && Bears(PendingFor(pending, id))
    ensures pending[i].id == id ==> Carried(pending[i].msg).Some?
    ensures Bears(PendingFor(Without(pending, i), id))
  {
    var own := if pending[i].id == id then [pending[i].msg] else [];
    TakenPending(pending, i, id);
    PartsBear(PendingFor(pending[..i], id), own, PendingFor(pending[i + 1..], id));
    assert pending[i].id == id ==> own[0] == pending[i].msg;
  }

  lemma PartsBear(h: seq<ServerMsg>, o: seq<ServerMsg>, t: seq<ServerMsg>)
    requires Bears(h + o + t)
    ensures Bears(o) && Bears(h + t)
  {
    var all := h + o + t;
    forall i | 0 <= i < |o| ensures Carried(o[i]).Some? {
      assert all[|h| + i] == o[i];
    }
    forall i | 0 <= i < |h + t| ensures Carried((h + t)[i]).Some? {
      assert (h + t)[i] == if i < |h| then all[i] else all[i + |o|];
    }
  }

  lemma PublishKeepsTracks(n: Net, i: nat)
    requires Tracks(n) && i < |n.pending|
    ensures Tracks(Next(n, PublishAt(i)))
  {
    var p, rest := n.pending[i], Without(n.pending, i);
    AnyPendingBears(n.pending, i, Bound(n));
    if p.id == Bound(n) {
      OfferKeepsTracks(n, p.msg);
      PublishOwn(n, i);
      TracksElsewhere(n.(line := B.OfferOn(n.line, p.msg)), n.table, rest);
    } else {
      OtherPublicationsPassBy(n, p);
      TracksElsewhere(n, n.table, rest);
    }
  }

  lemma OfferKeepsTracks(n: Net, msg: ServerMsg)
    requires Tracks(n) && Carried(msg).Some?
    ensures Tracks(n.(line := B.OfferOn(n.line, msg)))
  {
    PublishProjects(n, msg);
    OfferHeads(n, msg);
  }

  lemma OfferHeads(n: Net, msg: ServerMsg)
    requires |n.line.offered| == |n.line.kept| && Carried(msg).Some? && GreetingPlaced(n)
    ensures var n' := n.(line := B.OfferOn(n.line, msg));
            && |n'.line.offered| == |n'.line.kept| && GreetingPlaced(n')
            && Heading(n') == if HasRoom(n.line.sub) then Carried(msg).value else Heading(n)
  {
    var n' := n.(line := B.OfferOn(n.line, msg));
    OfferKeeps(n.line, msg, n.before);
    OfferExtendsTail(n.line, msg);
  }

  lemma TickKeepsTracks(n: Net)
    requires Tracks(n)
    ensures Tracks(Next(n, PumpTick))
  {
    TickKeepsProjected(n);
    TickKeepsRest(n);
    TickAndTail(n);
    if n.greeting.Sent? {
      TickKeepsBehind(n);
    }
  }

  lemma SendingKeepsTracks(n: Net)
    requires Tracks(n) && n.greeting.Read?
    ensures Tracks(Next(n, SendGreeting))
  {
    GreetingProjects(n);
    GreetingKeepsHealthy(n);
  }

  lemma StepKeepsTracks(n: Net, step: Step)
    requires Tracks(n)
    ensures Tracks(Next(n, step))
  {
    match step {
      case Apply(_, _) => RegistryKeepsTracks(n, step);
      case Sweep(_, _, _, _) => RegistryKeepsTracks(n, step);
      case PublishAt(i) =>
        if i < |n.pending| {
          PublishKeepsTracks(n, i);
        }
      case SendGreeting =>
        if n.greeting.Read? {
          SendingKeepsTracks(n);
        }
      case PumpTick => TickKeepsTracks(n);
      case _ => QuietStepKeepsTracks(n, step);
    }
  }

  lemma QuietStepKeepsTracks(n: Net, step: Step)
    requires Tracks(n) && (step.ReadGreeting? || step.ClientReads?)
    ensures Tracks(Next(n, step))
  {
    var n' := Next(n, step);
    assert n'.line == n.line && n'.before == n.before && n'.pending == n.pending;
  }

  /** Whatever the order of publication and of the greeting's two steps, the client heads where `Heading` says. */
  lemma {:induction false} RunTracks(n: Net, steps: seq<Step>)
    requires Tracks(n)
    ensures Tracks(Run(n, steps)) && Bound(Run(n, steps)) == Bound(n)
    decreases |steps|
  {
    if steps == [] {
    } else {
      var mid, step := Run(n, steps[..|steps| - 1]), steps[|steps| - 1];
      RunTracks(n, steps[..|steps| - 1]);
      StepKeepsTracks(mid, step);
      BindingKept(mid, step);
    }
  }

  lemma StartTracks(t: Table, pending: seq<Publication>, mode: Mode, id: string, capacity: nat, before: State)
    requires id != "" && mode != ANY && Bears(PendingFor(pending, id))
    ensures Tracks(Subscribed(t, pending, mode, id, capacity, before))
  {
  }

  /** What was put up for publication for a session, in the order of its causes. */
  ghost function PutUpFor(n: Net, steps: seq<Step>, id: string): seq<ServerMsg>
    decreases |steps|
  {
    if steps == [] then []
    else
      var init := steps[..|steps| - 1];
      PutUpFor(n, init, id) + PendingFor(PutUp(Run(n, init), steps[|steps| - 1]), id)
  }

  /** The registry is where everything put up for publication leads, published or not. */
  lemma {:induction false} RegistryFollowsPutUp(n: Net, steps: seq<Step>, id: string)
    ensures StateOf(Run(n, steps).table, id) == StateAfterAll(StateOf(n.table, id), PutUpFor(n, steps, id))
    decreases |steps|
  {
    if steps == [] {
    } else {
      var init, step := steps[..|steps| - 1], steps[|steps| - 1];
      RegistryFollowsPutUp(n, init, id);
      StepFollowsPutUp(Run(n, init), step, id);
      StatesSplit(StateOf(n.table, id), PutUpFor(n, init, id), PendingFor(PutUp(Run(n, init), step), id));
    }
  }

  lemma StepFollowsPutUp(n: Net, step: Step, id: string)
    ensures StateOf(Next(n, step).table, id)
         == StateAfterAll(StateOf(n.table, id), PendingFor(PutUp(n, step), id))
  {
    if step.Apply? || step.Sweep? {
      RegistryStepAnnounces(n, step, id);
    } else {
      assert PutUp(n, step) == [];
    }
  }

  /**
   Exactly when a client agrees: over every run - publications leaving in any order, the greeting read and
   sent at any time, overflows, drop notices and resync snapshots included - a settled client agrees with
   the registry if and only if what it was heading for is the state in which everything put up for its
   session, in the order of its causes, ends.
   */
  lemma {:induction false} AgreementIff(t: Table, pending: seq<Publication>, mode: Mode, id: string,
                                        capacity: nat, before: State, steps: seq<Step>)
    requires id != "" && mode != ANY && Bears(PendingFor(pending, id))
    requires Settled(Run(Subscribed(t, pending, mode, id, capacity, before), steps))
    ensures var start := Subscribed(t, pending, mode, id, capacity, before);
            var n := Run(start, steps);
            && Bound(n) == id && |n.line.offered| == |n.line.kept|
            && (ClientState(n) == StateOf(n.table, id) <==>
                  Heading(n) == StateAfterAll(StateOf(t, id), PutUpFor(start, steps, id)))
  {
    var start := Subscribed(t, pending, mode, id, capacity, before);
    StartTracks(t, pending, mode, id, capacity, before);
    RunTracks(start, steps);
    RegistryFollowsPutUp(start, steps, id);
    SettledClient(Run(start, steps));
  }

  /** The registry's own events among the steps. */
  ghost function EventsOf(n: Net, steps: seq<Step>): seq<S.Event>
    decreases |steps|
  {
    if steps == [] then []
    else
      var init := steps[..|steps| - 1];
      EventsOf(n, init) +
      match steps[|steps| - 1]
      case Apply(m, now) => [S.Deliver(m, now)]
      case Sweep(idle, paneExists, now, order) =>
        if Orders(Run(n, init).table, order) then [S.Collect(idle, paneExists, now)] else []
      case _ => []
  }

  /** Whatever else happens in a run, its registry goes through the emits and sweeps in it, and nothing else. */
  lemma {:induction false} RegistryRuns(n: Net, steps: seq<Step>)
    ensures Run(n, steps).table == S.Run(n.table, EventsOf(n, steps))
    decreases |steps|
  {
    if steps == [] {
    } else {
      var init, step := steps[..|steps| - 1], steps[|steps| - 1];
      RegistryRuns(n, init);
      RegistryStep(Run(n, init), step);
      var more := EventsOf(n, steps)[|EventsOf(n, init)|..];
      S.RunSplit(n.table, EventsOf(n, init), more);
      assert EventsOf(n, steps) == EventsOf(n, init) + more;
      if more != [] {
        assert more == [more[0]];
        S.RunOfOne(S.Run(n.table, EventsOf(n, init)), more[0]);
      }
    }
  }

  lemma RegistryStep(n: Net, step: Step)
    ensures match step
            case Apply(m, now) => Next(n, step).table == S.Next(n.table, S.Deliver(m, now))
            case Sweep(idle, paneExists, now, order) =>
              Next(n, step).table ==
                if Orders(n.table, order) then S.Next(n.table, S.Collect(idle, paneExists, now)) else n.table
            case _ => Next(n, step).table == n.table
  {
    if step.Sweep? && ReapedSet(n.table, step.idle, step.paneExists, step.now) == {} {
      NothingReaped(n.table, step.idle, step.paneExists, step.now);
    }
  }

  lemma NothingReaped(t: Table, idle: int, paneExists: Option<PaneOracle>, now: int)
    requires ReapedSet(t, idle, paneExists, now) == {}
    ensures Swept(t, idle, paneExists, now) == t
  {
    forall id | id in t ensures Collected(t[id], idle, paneExists, now) == t[id] {
      assert id !in ReapedSet(t, idle, paneExists, now);
    }
  }

  // ----- Publishing in order

  /** Of the publications for the client's session it is the oldest one's turn. */
  ghost predicate TakesFirst(n: Net, i: nat) {
    i < |n.pending| && n.pending[i].id == Bound(n) ==> PendingFor(n.pending[..i], Bound(n)) == []
  }

  /** The publications for the client's session leave in the order in which they were put up. */
  ghost predicate InOrder(n: Net, steps: seq<Step>)
    decreases |steps|
  {
    if steps == [] then true
    else
      var init, last := steps[..|steps| - 1], steps[|steps| - 1];
      InOrder(n, init) && (last.PublishAt? ==> TakesFirst(Run(n, init), last.i))
  }

  lemma FirstTaken(n: Net, i: nat)
    requires i < |n.pending| && TakesFirst(n, i)
    ensures Waiting(n) == (if n.pending[i].id == Bound(n) then [n.pending[i].msg] else [])
                          + PendingFor(Without(n.pending, i), Bound(n))
  {
    TakenPending(n.pending, i, Bound(n));
    var head, tail := PendingFor(n.pending[..i], Bound(n)), PendingFor(n.pending[i + 1..], Bound(n));
    if n.pending[i].id == Bound(n) {
      assert [] + [n.pending[i].msg] + tail == [n.pending[i].msg] + ([] + tail);
    } else {
      assert head + [] + tail == [] + (head + tail);
    }
  }

  lemma RegistryAddsWaiting(n: Net, step: Step)
    requires step.Apply? || step.Sweep?
    ensures var n', more := Next(n, step), PendingFor(PutUp(n, step), Bound(n));
            n'.line.offered + Waiting(n') == n.line.offered + Waiting(n) + more
  {
    RegistryStepAnnounces(n, step, Bound(n));
    PendingForSplit(n.pending, PutUp(n, step), Bound(n));
    RegistryLeavesLine(n, step);
    Regroup(n.line.offered, Waiting(n), PendingFor(PutUp(n, step), Bound(n)));
  }

  lemma PublishKeepsOrder(n: Net, i: nat)
    requires Healthy(n) && i < |n.pending| && TakesFirst(n, i)
    ensures var n' := Next(n, PublishAt(i));
            n'.line.offered + Waiting(n') == n.line.offered + Waiting(n) && Bound(n') == Bound(n)
  {
    var p, n' := n.pending[i], Next(n, PublishAt(i));
    FirstTaken(n, i);
    if p.id == Bound(n) {
      PublishOwn(n, i);
      Regroup(n.line.offered, [p.msg], Waiting(n'));
    } else {
      OtherPublicationsPassBy(n, p);
      assert [] + Waiting(n') == Waiting(n');
    }
  }

  lemma OthersKeepOrder(n: Net, step: Step)
    requires Healthy(n) && !step.Apply? && !step.Sweep? && !step.PublishAt?
    ensures var n' := Next(n, step);
            n'.line.offered == n.line.offered && Waiting(n') == Waiting(n) && PutUp(n, step) == []
  {
    BindingKept(n, step);
    if step.PumpTick? {
      TickKeepsRest(n);
    }
  }

  lemma StepKeepsOrder(n: Net, step: Step)
    requires Healthy(n) && (step.PublishAt? ==> TakesFirst(n, step.i))
    ensures var n' := Next(n, step);
            n'.line.offered + Waiting(n')
            == n.line.offered + Waiting(n) + PendingFor(PutUp(n, step), Bound(n))
  {
    var before := n.line.offered + Waiting(n);
    assert before + [] == before;
    if step.Apply? || step.Sweep? {
      RegistryAddsWaiting(n, step);
    } else if step.PublishAt? {
      assert PutUp(n, step) == [];
      if step.i < |n.pending| {
        PublishKeepsOrder(n, step.i);
      }
    } else {
      OthersKeepOrder(n, step);
    }
  }

  /** In order, what is offered and what still waits are together what was put up. */
  lemma {:induction false} InOrderOffersPutUp(n: Net, steps: seq<Step>)
    requires Tracks(n) && InOrder(n, steps)
    ensures var n' := Run(n, steps);
            n'.line.offered + Waiting(n') == n.line.offered + Waiting(n) + PutUpFor(n, steps, Bound(n))
    decreases |steps|
  {
    if steps == [] {
    } else {
      var init, step := steps[..|steps| - 1], steps[|steps| - 1];
      var mid := Run(n, init);
      InOrderOffersPutUp(n, init);
      RunTracks(n, init);
      StepKeepsOrder(mid, step);
      Regroup(n.line.offered + Waiting(n), PutUpFor(n, init, Bound(n)), PendingFor(PutUp(mid, step), Bound(n)));
    }
  }

  /** What is pending when the client subscribes ends with the state the session has. */
  ghost predicate Consistent(t: Table, pending: seq<Publication>, id: string) {
    var waiting := PendingFor(pending, id);
    Bears(waiting) && (waiting != [] ==> Carried(Newest(waiting)).value == StateOf(t, id))
  }

  lemma SettledOffersPutUp(t: Table, pending: seq<Publication>, mode: Mode, id: string, capacity: nat,
                           before: State, steps: seq<Step>)
    requires var start := Subscribed(t, pending, mode, id, capacity, before);
             && id != "" && mode != ANY && Bears(PendingFor(pending, id)) && InOrder(start, steps)
             && Waiting(Run(start, steps)) == []
    ensures var start := Subscribed(t, pending, mode, id, capacity, before);
            Run(start, steps).line.offered == PendingFor(pending, id) + PutUpFor(start, steps, id)
  {
    var start := Subscribed(t, pending, mode, id, capacity, before);
    var offered := Run(start, steps).line.offered;
    StartTracks(t, pending, mode, id, capacity, before);
    InOrderOffersPutUp(start, steps);
    assert offered + [] == offered;
    assert start.line.offered + Waiting(start) == PendingFor(pending, id);
  }

  /** For a run that publishes in order: what the client was heading for has to be where what was offered ends. */
  lemma {:induction false} InOrderAgreementIff(t: Table, pending: seq<Publication>, mode: Mode, id: string,
                                               capacity: nat, before: State, steps: seq<Step>)
    requires id != "" && mode != ANY && Consistent(t, pending, id)
    requires InOrder(Subscribed(t, pending, mode, id, capacity, before), steps)
    requires Settled(Run(Subscribed(t, pending, mode, id, capacity, before), steps))
    ensures var n := Run(Subscribed(t, pending, mode, id, capacity, before), steps);
            && |n.line.offered| == |n.line.kept|
            && (ClientState(n) == StateOf(n.table, id) <==>
                  Heading(n) == StateAfterAll(StateOf(t, id), n.line.offered))
  {
    var start := Subscribed(t, pending, mode, id, capacity, before);
    AgreementIff(t, pending, mode, id, capacity, before, steps);
    SettledOffersPutUp(t, pending, mode, id, capacity, before, steps);
    EarlyDoesNotMatter(StateOf(t, id), PendingFor(pending, id), PutUpFor(start, steps, id));
  }

  lemma EarlyDoesNotMatter(first: State, early: seq<ServerMsg>, later: seq<ServerMsg>)
    requires early != [] ==> Bears(early) && Carried(Newest(early)).value == first
    ensures StateAfterAll(first, early + later) == StateAfterAll(first, later)
  {
    StatesSplit(first, early, later);
    if early != [] {
      assert [] + early == early;
      LastBearerDecides(first, [], early);
    }
  }

  // ----- What suffices

  /** The newest publication offered to the subscription was dropped. */
  ghost predicate NewestDropped(l: B.Line) {
    l.kept != [] && !l.kept[|l.kept| - 1]
  }

  /** Something told, or about to tell, the client about this session. */
  ghost predicate Heard(n: Net) {
    n.greeting.Sent? || n.line.offered != []
  }

  /** Nothing reached the connection while the greeting was under way, or something is behind it. */
  ghost predicate InTime(n: Net) {
    n.greeting.Sent? ==> n.greeting.at == n.greeting.readAt || Behind(n)
  }

  /** A greeting that was read and not overtaken yet says what the registry says. */
  ghost predicate FreshRead(n: Net) {
    n.greeting.Read? && Waiting(n) == [] && Tail(n.line) == [] && |n.line.log| == n.greeting.readAt
      && !NewestDropped(n.line) ==>
        n.greeting.state == StateOf(n.table, Bound(n))
  }

  ghost predicate InStep(n: Net) {
    && Healthy(n) && GreetingPlaced(n) && FreshRead(n)
    && (Waiting(n) != [] ==> Carried(Newest(Waiting(n))).value == StateOf(n.table, Bound(n)))
    && (Waiting(n) == [] && Heard(n) && !NewestDropped(n.line) && InTime(n) ==>
          Projected(n) == StateOf(n.table, Bound(n)))
    && (n.line.offered == [] ==> Tail(n.line) == [])
  }

  lemma RegistryKeepsInStep(n: Net, step: Step)
    requires InStep(n) && (step.Apply? || step.Sweep?)
    ensures InStep(Next(n, step))
  {
    var id := Bound(n);
    var more := PendingFor(PutUp(n, step), id);
    RegistryStepAnnounces(n, step, id);
    PendingForSplit(n.pending, PutUp(n, step), id);
    StateAfterOne(StateOf(n.table, id), more);
    MoreWaiting(n, Next(n, step).table, Next(n, step).pending, more);
    RegistryLeavesLine(n, step);
  }

  lemma MoreWaiting(n: Net, t: Table, pending: seq<Publication>, more: seq<ServerMsg>)
    requires InStep(n) && |more| <= 1 && Bears(more)
    requires PendingFor(pending, Bound(n)) == Waiting(n) + more
    requires StateOf(t, Bound(n)) == if more == [] then StateOf(n.table, Bound(n)) else Carried(more[0]).value
    ensures InStep(n.(table := t, pending := pending))
  {
    HealthyElsewhere(n, t, pending);
    if more == [] {
      assert Waiting(n) + more == Waiting(n);
    } else {
      assert Newest(Waiting(n) + more) == more[0];
    }
  }

  lemma PublishKeepsInStep(n: Net, i: nat)
    requires InStep(n) && i < |n.pending| && TakesFirst(n, i)
    ensures InStep(Next(n, PublishAt(i)))
  {
    var p, rest := n.pending[i], Without(n.pending, i);
    FirstTaken(n, i);
    AnyPendingBears(n.pending, i, Bound(n));
    if p.id == Bound(n) {
      PublishOwn(n, i);
      OwnPublicationKeepsInStep(n, p.msg, rest);
    } else {
      OtherPublicationsPassBy(n, p);
      assert [] + PendingFor(rest, Bound(n)) == PendingFor(rest, Bound(n));
      HealthyElsewhere(n, n.table, rest);
    }
  }

  lemma OwnPublicationKeepsInStep(n: Net, msg: ServerMsg, rest: seq<Publication>)
    requires InStep(n) && Carried(msg).Some? && Bears(PendingFor(rest, Bound(n)))
    requires Waiting(n) == [msg] + PendingFor(rest, Bound(n))
    ensures InStep(n.(line := B.OfferOn(n.line, msg), pending := rest))
  {
    var n' := n.(line := B.OfferOn(n.line, msg));
    PublishProjects(n, msg);
    HealthyElsewhere(n', n.table, rest);
    assert n'.line.kept[|n'.line.kept| - 1] == HasRoom(n.line.sub);
    OfferExtendsTail(n.line, msg);
    if PendingFor(rest, Bound(n)) == [] {
      assert Newest(Waiting(n)) == msg;
    } else {
      assert Newest(Waiting(n)) == Newest(PendingFor(rest, Bound(n)));
    }
  }

  lemma TickKeepsInStep(n: Net)
    requires InStep(n)
    ensures InStep(Next(n, PumpTick))
  {
    TickKeepsProjected(n);
    TickKeepsRest(n);
    BindingKept(n, PumpTick);
    TickKeepsFresh(n);
    TickKeepsPlaced(n);
  }

  lemma TickKeepsPlaced(n: Net)
    requires Healthy(n) && GreetingPlaced(n)
    ensures GreetingPlaced(Next(n, PumpTick)) && (InTime(Next(n, PumpTick)) ==> InTime(n))
  {
    TickAndTail(n);
    if n.greeting.Sent? {
      TickKeepsBehind(n);
    }
  }

  lemma TickKeepsFresh(n: Net)
    requires Healthy(n) && GreetingPlaced(n) && FreshRead(n)
    ensures FreshRead(Next(n, PumpTick))
  {
    TickAndTail(n);
    TickKeepsRest(n);
    BindingKept(n, PumpTick);
  }

  lemma SendingKeepsInStep(n: Net)
    requires InStep(n) && n.greeting.Read?
    ensures InStep(Next(n, SendGreeting))
  {
    GreetingProjects(n);
    GreetingKeepsHealthy(n);
  }

  lemma QuietStepKeepsInStep(n: Net, step: Step)
    requires InStep(n) && (step.ReadGreeting? || step.ClientReads?)
    ensures InStep(Next(n, step))
  {
    var n' := Next(n, step);
    assert n'.line == n.line && n'.before == n.before && n'.pending == n.pending && n'.table == n.table;
  }

  lemma StepKeepsInStep(n: Net, step: Step)
    requires InStep(n) && (step.PublishAt? ==> TakesFirst(n, step.i))
    ensures InStep(Next(n, step))
  {
    match step {
      case Apply(_, _) => RegistryKeepsInStep(n, step);
      case Sweep(_, _, _, _) => RegistryKeepsInStep(n, step);
      case PublishAt(i) =>
        if i < |n.pending| {
          PublishKeepsInStep(n, i);
        }
      case SendGreeting =>
        if n.greeting.Read? {
          SendingKeepsInStep(n);
        }
      case PumpTick => TickKeepsInStep(n);
      case _ => QuietStepKeepsInStep(n, step);
    }
  }

  lemma {:induction false} RunStaysInStep(t: Table, pending: seq<Publication>, mode: Mode, id: string,
                                          capacity: nat, before: State, steps: seq<Step>)
    requires id != "" && mode != ANY && Consistent(t, pending, id)
    requires InOrder(Subscribed(t, pending, mode, id, capacity, before), steps)
    ensures InStep(Run(Subscribed(t, pending, mode, id, capacity, before), steps))
    ensures Bound(Run(Subscribed(t, pending, mode, id, capacity, before), steps)) == id
    decreases |steps|
  {
    var start := Subscribed(t, pending, mode, id, capacity, before);
    if steps == [] {
      StartsInStep(t, pending, mode, id, capacity, before);
    } else {
      var init := steps[..|steps| - 1];
      RunStaysInStep(t, pending, mode, id, capacity, before, init);
      StepKeepsInStep(Run(start, init), steps[|steps| - 1]);
      BindingKept(Run(start, init), steps[|steps| - 1]);
    }
  }

  lemma StartsInStep(t: Table, pending: seq<Publication>, mode: Mode, id: string, capacity: nat, before: State)
    requires id != "" && mode != ANY && Consistent(t, pending, id)
    ensures InStep(Subscribed(t, pending, mode, id, capacity, before))
  {
  }

  /**
   End-to-end agreement, for every run in which the session's publications leave in the order they were
   put up: once nothing is under way, the SDK of a client that was told anything at all believes exactly
   the registry's state - after sweeps and across overflows, too - unless the newest publication was
   dropped, or something reached the client while its greeting was under way and nothing since.
   */
  lemma ClientAgreesWithRegistry(t: Table, pending: seq<Publication>, mode: Mode, id: string,
                                 capacity: nat, before: State, steps: seq<Step>)
    requires id != "" && mode != ANY && Consistent(t, pending, id)
    requires InOrder(Subscribed(t, pending, mode, id, capacity, before), steps)
    requires var n := Run(Subscribed(t, pending, mode, id, capacity, before), steps);
             Settled(n) && Heard(n) && !NewestDropped(n.line) && InTime(n)
    ensures var n := Run(Subscribed(t, pending, mode, id, capacity, before), steps);
            ClientState(n) == StateOf(n.table, id)
  {
    RunStaysInStep(t, pending, mode, id, capacity, before, steps);
    SettledClient(Run(Subscribed(t, pending, mode, id, capacity, before), steps));
  }

  /**
   What the user sees: whenever a settled client agrees, an activity that keeps a pause flag is paused
   exactly when the registry has the session waiting for its user, as long as the registry knows the
   session's state at all; that the session became unknown does not resume an activity.
   */
  lemma PausedIffAttentionNeeded(t: Table, pending: seq<Publication>, mode: Mode, id: string,
                                 capacity: nat, before: State, steps: seq<Step>, cbs: Callbacks, p: nat, r: nat)
    requires var n := Run(Subscribed(t, pending, mode, id, capacity, before), steps);
             Settled(n) && ClientState(n) == StateOf(n.table, id) && StateOf(n.table, id) != Unknown
    requires p < cbs.pause && r < cbs.resume
    ensures var n := Run(Subscribed(t, pending, mode, id, capacity, before), steps);
            FlagAfter(before == NeedsAttention, CallsAfterAll(cbs, before, WireMsgs(n.line.log)), p, r)
            == (StateOf(n.table, id) == NeedsAttention)
  {
    var n := Run(Subscribed(t, pending, mode, id, capacity, before), steps);
    BeforeKept(Subscribed(t, pending, mode, id, capacity, before), steps);
    assert n.line.log[..n.read] == n.line.log;
    var received := Received(WireMsgs(n.line.log));
    PauseFlagFollowsState(cbs, before, WireMsgs(n.line.log), p, r, 0);
    StateIsLastReceived(before, WireMsgs(n.line.log));
    ReceiveOne(before, received, None);
  }

  // ----- Settling

  ghost predicate Quiet(steps: seq<Step>) {
    forall i :: 0 <= i < |steps| ==> steps[i].PumpTick? || steps[i].ClientReads?
  }

  /** The pump has drained and the client caught up. */
  ghost predicate CaughtUp(n: Net) {
    n.line.sub.pump == Idle && n.line.sub.buffer == [] && n.read == |n.line.log|
  }

  /** Nothing was applied, published or lost. */
  ghost predicate Unmoved(n: Net, n': Net) {
    && n'.table == n.table && n'.pending == n.pending && Bound(n') == Bound(n)
    && n'.line.offered == n.line.offered && n'.line.kept == n.line.kept
  }

  ghost predicate Rests(n: Net, n': Net) {
    CaughtUp(n') && Unmoved(n, n')
  }

  /** Left to itself, the pump drains and the client catches up; nothing else changes. */
  lemma {:induction false} Settles(n: Net) returns (steps: seq<Step>)
    requires Healthy(n)
    ensures Quiet(steps) && Rests(n, Run(n, steps))
    decreases B.Work(n.line.sub), |n.line.log| - n.read
  {
    if B.Work(n.line.sub) > 0 {
      TickKeepsProjected(n);
      WorkShrinks(n);
      var rest := Settles(Next(n, PumpTick));
      RunCons(n, PumpTick, rest);
      steps := [PumpTick] + rest;
    } else if n.read < |n.line.log| {
      var rest := Settles(Next(n, ClientReads));
      RunCons(n, ClientReads, rest);
      steps := [ClientReads] + rest;
    } else {
      steps := [];
    }
  }

  lemma WorkShrinks(n: Net)
    requires Healthy(n) && B.Work(n.line.sub) > 0
    ensures var n' := Next(n, PumpTick);
            B.Work(n'.line.sub) < B.Work(n.line.sub) && Unmoved(n, n')
  {
  }

  lemma {:induction false} QuietKeepsProjected(n: Net, steps: seq<Step>)
    requires Healthy(n) && Quiet(steps)
    ensures Healthy(Run(n, steps)) && Projected(Run(n, steps)) == Projected(n)
    decreases |steps|
  {
    if steps == [] {
    } else {
      QuietKeepsProjected(n, steps[..|steps| - 1]);
      if steps[|steps| - 1].PumpTick? {
        TickKeepsProjected(Run(n, steps[..|steps| - 1]));
      }
    }
  }
}
