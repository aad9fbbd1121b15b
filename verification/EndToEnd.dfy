/**
 One activity bound to one session, from the emit to the state its SDK believes in: registry, bus
 subscription, pump, connection and client.

 Granularity: applying an emit, a sweep with the listing of its wiped sessions, each publication,
 each pump step, reading the state for the greeting snapshot, sending it, and each message read by the
 client are atomic steps, interleaved in any order. `handleEmit` applies and publishes in two steps, as
 the code releases the registry's mutex in between; what is applied but not yet published is `pending`.
 */
module EndToEnd {
  import opened Wrappers
  import opened Wire
  import opened Seqs
  import opened Sessions
  import opened Bus
  import opened Sdk
  import B = BusRuns

  datatype Publication = Publication(id: string, msg: ServerMsg)

  datatype Net = Net(
    table: Table,
    pending: seq<Publication>,
    line: B.Line,
    before: State,  // what the client believed when it connected
    greeting: Greeting,
    read: nat)      // how many frames the client has read

  /**
   The snapshot that answers the subscription: the state it carries, how long the log was when that was
   read from the registry, and where in the log it went.
   */
  datatype Greeting = Unread | Read(state: State, readAt: nat) | Sent(state: State, readAt: nat, at: nat)

  datatype Step =
    | Apply(m: Emit, now: int)
    | Sweep(idle: int, paneExists: Option<PaneOracle>, now: int, order: seq<string>)
    | PublishAt(i: nat)
    | ReadGreeting
    | SendGreeting
    | PumpTick
    | ClientReads

  function Bound(n: Net): string {
    n.line.sub.bound
  }

  /** What `snapshotInto` reads for a bound subscription. */
  function SnapshotOf(t: Table, id: string): ServerMsg {
    Snapshot(id, StateOf(t, id))
  }

  /** The order in which the sweep lists the sessions: each once. */
  ghost predicate Orders(t: Table, order: seq<string>) {
    && (forall id :: id in order <==> id in t)
    && (forall i, j :: 0 <= i < j < |order| ==> order[i] != order[j])
  }

  /** What a sweep that reaped something publishes: every session that is unknown now. */
  function Wiped(t: Table, order: seq<string>): seq<Publication> {
    if order == [] then []
    else
      var id := order[|order| - 1];
      Wiped(t, order[..|order| - 1]) +
      if id in t && t[id].state == Unknown then [Publication(id, Snapshot(id, Unknown))] else []
  }

  function PublicationOf(m: Emit, upd: Update): seq<Publication> {
    if upd.Applied? && upd.changed then
      [Publication(m.sessionId, StateChange(m.sessionId, upd.from, upd.to))]
    else []
  }

  function Without<T>(s: seq<T>, i: nat): seq<T>
    requires i < |s|
  {
    s[..i] + s[i + 1..]
  }

  function Applied(n: Net, m: Emit, now: int): Net {
    var (t, upd) := ApplyTo(n.table, m, now);
    n.(table := t, pending := n.pending + PublicationOf(m, upd))
  }

  ghost function SweptBy(n: Net, idle: int, paneExists: Option<PaneOracle>, now: int, order: seq<string>): Net {
    if !Orders(n.table, order) || ReapedSet(n.table, idle, paneExists, now) == {} then n
    else
      var t := Swept(n.table, idle, paneExists, now);
      n.(table := t, pending := n.pending + Wiped(t, order))
  }

  function Published(n: Net, i: nat): Net {
    if i >= |n.pending| then n
    else
      var p := n.pending[i];
      n.(line := B.Next(n.line, B.Publish(p.id, p.msg)), pending := Without(n.pending, i))
  }

  function GreetingRead(n: Net): Net {
    if n.greeting.Unread? then n.(greeting := Read(StateOf(n.table, Bound(n)), |n.line.log|)) else n
  }

  function GreetingSent(n: Net): Net {
    match n.greeting
    case Read(state, readAt) =>
      var log := n.line.log + [Direct(Snapshot(Bound(n), state))];
      n.(line := n.line.(log := log), greeting := Sent(state, readAt, |n.line.log|))
    case _ => n
  }

  function Ticked(n: Net): Net {
    n.(line := B.Next(n.line, B.Pump(SnapshotOf(n.table, Bound(n)))))
  }

  ghost function Next(n: Net, step: Step): Net {
    match step
    case Apply(m, now) => Applied(n, m, now)
    case Sweep(idle, paneExists, now, order) => SweptBy(n, idle, paneExists, now, order)
    case PublishAt(i) => Published(n, i)
    case ReadGreeting => GreetingRead(n)
    case SendGreeting => GreetingSent(n)
    case PumpTick => Ticked(n)
    case ClientReads => if n.read < |n.line.log| then n.(read := n.read + 1) else n
  }

  ghost function Run(n: Net, steps: seq<Step>): Net
    decreases |steps|
  {
    if steps == [] then n else Next(Run(n, steps[..|steps| - 1]), steps[|steps| - 1])
  }

  /** A fresh subscription to session `id`: nothing sent yet, whatever the registry and the client hold. */
  function Subscribed(t: Table, pending: seq<Publication>, mode: Mode, id: string, capacity: nat,
                      before: State): Net {
    Net(t, pending, B.NewLine(mode, id, capacity), before, Unread, 0)
  }

  // ----- What the client believes

  function WireMsgs(log: seq<Frame>): seq<ServerMsg> {
    seq(|log|, i requires 0 <= i < |log| => OnWire(log[i]))
  }

  /** The SDK's state: everything it has read, on top of what it believed before. */
  function ClientState(n: Net): State
    requires n.read <= |n.line.log|
  {
    StateAfterAll(n.before, WireMsgs(n.line.log[..n.read]))
  }

  /** Behind the connection: held by the pump, then buffered. */
  function Tail(l: B.Line): seq<ServerMsg> {
    B.Held(l.sub.pump) + l.sub.buffer
  }

  /** The state the client will believe in once everything under way has arrived. */
  function Projected(n: Net): State {
    StateAfterAll(n.before, WireMsgs(n.line.log) + Tail(n.line))
  }

  ghost predicate Bears(msgs: seq<ServerMsg>) {
    forall i :: 0 <= i < |msgs| ==> Carried(msgs[i]).Some?
  }

  function PendingFor(pending: seq<Publication>, id: string): seq<ServerMsg> {
    if pending == [] then []
    else
      var last := pending[|pending| - 1];
      PendingFor(pending[..|pending| - 1], id) + if last.id == id then [last.msg] else []
  }

  /** The subscription is live and bound to one session, and only state-bearing messages are published. */
  ghost predicate Healthy(n: Net) {
    && Live(n.line) && LineBears(n.line) && Bears(PendingFor(n.pending, Bound(n)))
    && n.read <= |n.line.log|
  }

  predicate Live(l: B.Line) {
    && l.sub.bound != "" && l.sub.mode != ANY
    && l.registered && l.alive
    && !l.sub.pump.Failed? && !l.sub.pump.Stopped?
  }

  ghost predicate LineBears(l: B.Line) {
    Bears(Tail(l)) && Bears(l.offered) && |l.offered| == |l.kept|
  }

  // ----- Streams of states

  lemma {:induction false} StatesSplit(state: State, a: seq<ServerMsg>, b: seq<ServerMsg>)
    ensures StateAfterAll(state, a + b) == StateAfterAll(StateAfterAll(state, a), b)
    decreases |b|
  {
    if b == [] {
      assert a + b == a;
    } else {
      assert (a + b)[..|a + b| - 1] == a + b[..|b| - 1];
      StatesSplit(state, a, b[..|b| - 1]);
    }
  }

  /** A stream that ends in a state-bearing message leaves that state, whatever came before. */
  lemma LastBearerDecides(state: State, a: seq<ServerMsg>, b: seq<ServerMsg>)
    requires b != [] && Bears(b)
    ensures StateAfterAll(state, a + b) == Carried(b[|b| - 1]).value
  {
    assert (a + b)[..|a + b| - 1] == a + b[..|b| - 1];
  }

  lemma {:induction false} PendingForSplit(a: seq<Publication>, b: seq<Publication>, id: string)
    ensures PendingFor(a + b, id) == PendingFor(a, id) + PendingFor(b, id)
    decreases |b|
  {
    if b == [] {
      assert a + b == a;
    } else {
      assert (a + b)[..|a + b| - 1] == a + b[..|b| - 1];
      PendingForSplit(a, b[..|b| - 1], id);
    }
  }

  /** The sweep's listing holds at most one message for a session: "unknown", if that is what it became. */
  lemma {:induction false} WipedFor(t: Table, order: seq<string>, id: string)
    requires forall i, j :: 0 <= i < j < |order| ==> order[i] != order[j]
    ensures PendingFor(Wiped(t, order), id)
         == if id in order && id in t && t[id].state == Unknown then [Snapshot(id, Unknown)] else []
    decreases |order|
  {
    if order == [] {
    } else {
      var init, last := order[..|order| - 1], order[|order| - 1];
      WipedFor(t, init, id);
      var own := if last in t && t[last].state == Unknown then [Publication(last, Snapshot(last, Unknown))] else [];
      PendingForSplit(Wiped(t, init), own, id);
      assert id in order <==> id in init || id == last;
      assert last !in init;
      PendingForOne(own, id);
    }
  }

  lemma PendingForOne(ps: seq<Publication>, id: string)
    requires |ps| <= 1
    ensures PendingFor(ps, id) == if ps != [] && ps[0].id == id then [ps[0].msg] else []
  {
    if ps != [] {
      assert ps[..0] == [];
    }
  }

  // ----- One step at a time

  /** A notice or a resync snapshot goes out ahead of the message the pump holds, which still decides. */
  lemma InsertedFramesDoNotDecide(state: State, log: seq<Frame>, frames: seq<Frame>, tail: seq<ServerMsg>)
    requires tail != [] && Bears(tail)
    ensures StateAfterAll(state, WireMsgs(log + frames) + tail) == StateAfterAll(state, WireMsgs(log) + tail)
  {
    LastBearerDecides(state, WireMsgs(log), tail);
    LastBearerDecides(state, WireMsgs(log + frames), tail);
  }

  /** A forwarded message moves from the tail to the connection. */
  lemma MovedFramesKeepStream(log: seq<Frame>, frames: seq<Frame>, tail: seq<ServerMsg>, rest: seq<ServerMsg>)
    requires WireMsgs(frames) + rest == tail
    ensures WireMsgs(log + frames) + rest == WireMsgs(log) + tail
  {
    WireMsgsSplit(log, frames);
  }

  lemma PumpFrames(l: B.Line, snapshot: ServerMsg)
    ensures var frames := PumpStep(l.sub, l.alive, snapshot).1;
            && B.PumpOn(l, snapshot).log == l.log + frames
            && (l.sub.pump.Notifying? || l.sub.pump.Resyncing? ==>
                  Tail(B.PumpOn(l, snapshot)) == Tail(l) && Tail(l) != [])
            && (!l.sub.pump.Notifying? && !l.sub.pump.Resyncing? ==>
                  WireMsgs(frames) + Tail(B.PumpOn(l, snapshot)) == Tail(l))
  {
    var frames := PumpStep(l.sub, l.alive, snapshot).1;
    B.PumpHands(l, snapshot);
    if !l.sub.pump.Notifying? && !l.sub.pump.Resyncing? {
      assert WireMsgs(frames) == B.Sent(l);
      var l' := B.PumpOn(l, snapshot);
      assert B.Sent(l) + Tail(l') == B.Sent(l) + B.Held(l'.sub.pump) + l'.sub.buffer;
    }
  }

  /**
   The pump moves messages along; what the client will end up believing does not change, whatever a
   resync snapshot says and however old it is.
   */
  lemma PumpKeepsProjected(n: Net, state: State)
    requires Healthy(n)
    ensures var n' := n.(line := B.PumpOn(n.line, Snapshot(Bound(n), state)));
            Healthy(n') && Projected(n') == Projected(n)
  {
    PumpKeepsLive(n.line, Snapshot(Bound(n), state));
    PumpKeepsStream(n.line, Snapshot(Bound(n), state), n.before);
  }

  lemma PumpKeepsLive(l: B.Line, snapshot: ServerMsg)
    requires Live(l)
    ensures var l' := B.PumpOn(l, snapshot);
            && Live(l') && l'.sub.bound == l.sub.bound && |l.log| <= |l'.log|
            && l'.offered == l.offered && l'.kept == l.kept
  {
  }

  /** What the pump sends and what it still has to send lead, together, where they led before. */
  lemma PumpKeepsStream(l: B.Line, snapshot: ServerMsg, before: State)
    requires Bears(Tail(l))
    ensures var l' := B.PumpOn(l, snapshot);
            && Bears(Tail(l'))
            && StateAfterAll(before, WireMsgs(l'.log) + Tail(l')) == StateAfterAll(before, WireMsgs(l.log) + Tail(l))
  {
    var l', frames := B.PumpOn(l, snapshot), PumpStep(l.sub, l.alive, snapshot).1;
    PumpFrames(l, snapshot);
    if l.sub.pump.Notifying? || l.sub.pump.Resyncing? {
      InsertedFramesDoNotDecide(before, l.log, frames, Tail(l));
    } else {
      MovedFramesKeepStream(l.log, frames, Tail(l), Tail(l'));
      TailBears(Tail(l), WireMsgs(frames), Tail(l'));
    }
  }

  lemma TickKeepsProjected(n: Net)
    requires Healthy(n)
    ensures Healthy(Next(n, PumpTick)) && Projected(Next(n, PumpTick)) == Projected(n)
  {
    PumpKeepsProjected(n, StateOf(n.table, Bound(n)));
  }

  lemma TailBears(all: seq<ServerMsg>, head: seq<ServerMsg>, tail: seq<ServerMsg>)
    requires all == head + tail && Bears(all)
    ensures Bears(tail)
  {
    forall i | 0 <= i < |tail| ensures Carried(tail[i]).Some? {
      assert tail[i] == all[|head| + i];
    }
  }

  lemma WireMsgsSplit(a: seq<Frame>, b: seq<Frame>)
    ensures WireMsgs(a + b) == WireMsgs(a) + WireMsgs(b)
  {
  }

  lemma OfferExtendsTail(l: B.Line, msg: ServerMsg)
    ensures Tail(B.OfferOn(l, msg)) == if HasRoom(l.sub) then Tail(l) + [msg] else Tail(l)
  {
    Regroup(B.Held(l.sub.pump), l.sub.buffer, [msg]);
  }

  /** A publication for the session is what the client will believe in if it was kept, and changes nothing if not. */
  lemma PublishProjects(n: Net, msg: ServerMsg)
    requires Healthy(n) && Carried(msg).Some?
    ensures var n' := n.(line := B.Next(n.line, B.Publish(Bound(n), msg)));
            && n'.line == B.OfferOn(n.line, msg)
            && Healthy(n')
            && Projected(n') == if HasRoom(n.line.sub) then Carried(msg).value else Projected(n)
  {
    var l' := B.OfferOn(n.line, msg);
    OfferExtendsTail(n.line, msg);
    if HasRoom(n.line.sub) {
      LastBearerDecides(n.before, WireMsgs(n.line.log), Tail(l'));
    }
  }

  lemma OtherPublicationsPassBy(n: Net, p: Publication)
    requires Healthy(n) && p.id != Bound(n)
    ensures B.Next(n.line, B.Publish(p.id, p.msg)) == n.line
  {
  }

  /** A snapshot of a session brings a client the state the session has, whatever it believed before. */
  lemma SnapshotTellsState(t: Table, id: string, before: State)
    ensures StateAfter(before, SnapshotOf(t, id)) == StateOf(t, id) && SnapshotOf(t, id).sessionId == id
  {
  }

  /** Read and sent at once, the greeting is that snapshot. */
  lemma GreetingIsSnapshot(n: Net)
    requires n.greeting.Unread?
    ensures var n' := Next(Next(n, ReadGreeting), SendGreeting);
            n'.line.log == n.line.log + [Direct(SnapshotOf(n.table, Bound(n)))]
  {
  }

  /** A connection that was sent a snapshot last: its client believes what that says. */
  lemma LastSnapshotDecides(frames: seq<Frame>, t: Table, id: string, before: State)
    ensures StateAfterAll(before, WireMsgs(frames + [Direct(SnapshotOf(t, id))])) == StateOf(t, id)
  {
    var msgs := WireMsgs(frames + [Direct(SnapshotOf(t, id))]);
    assert msgs[..|msgs| - 1] == WireMsgs(frames) && msgs[|msgs| - 1] == SnapshotOf(t, id);
    SnapshotTellsState(t, id, StateAfterAll(before, WireMsgs(frames)));
  }

  /** On the wire a drop notice is a "dropped" message and nothing but a warning: it changes no belief. */
  lemma NoticeChangesNoBelief(id: string, state: State)
    ensures OnWire(Notice(id)) == Dropped(id) && StateAfter(state, OnWire(Notice(id))) == state
  {
  }

  lemma GreetingKeepsHealthy(n: Net)
    requires Healthy(n)
    ensures Healthy(Next(n, SendGreeting)) && Tail(Next(n, SendGreeting).line) == Tail(n.line)
  {
  }

  /** A directly sent snapshot overtakes what is under way, so it counts only if nothing is. */
  lemma GreetingProjects(n: Net)
    requires Healthy(n) && n.greeting.Read?
    ensures Healthy(Next(n, SendGreeting))
    ensures Projected(Next(n, SendGreeting)) == if Tail(n.line) == [] then n.greeting.state else Projected(n)
  {
    GreetingKeepsHealthy(n);
    var n' := Next(n, SendGreeting);
    var frame := Direct(Snapshot(Bound(n), n.greeting.state));
    WireMsgsSplit(n.line.log, [frame]);
    if Tail(n.line) == [] {
      var log := WireMsgs(n'.line.log);
      assert log + [] == log && log[..|log| - 1] == WireMsgs(n.line.log);
    } else {
      LastBearerDecides(n.before, WireMsgs(n.line.log), Tail(n.line));
      LastBearerDecides(n.before, WireMsgs(n'.line.log), Tail(n.line));
    }
  }

  /** A publication for the client's session that finds room is what the client will end up with. */
  lemma KeptPublication(n: Net, i: nat)
    requires Healthy(n) && i < |n.pending| && n.pending[i].id == Bound(n) && HasRoom(n.line.sub)
    requires Carried(n.pending[i].msg).Some? && Bears(PendingFor(Without(n.pending, i), Bound(n)))
    ensures var n' := Next(n, PublishAt(i));
            && Healthy(n') && Projected(n') == Carried(n.pending[i].msg).value
            && n'.table == n.table && n'.pending == Without(n.pending, i)
            && n'.line.kept == n.line.kept + [true]
            && n'.line.sub == n.line.sub.(buffer := n.line.sub.buffer + [n.pending[i].msg])
  {
    PublishProjects(n, n.pending[i].msg);
    PublishOwn(n, i);
    var published := n.(line := B.OfferOn(n.line, n.pending[i].msg));
    HealthyElsewhere(published, n.table, Without(n.pending, i));
  }

  /** Of the registry and what is up for publication only the session's own messages matter to its subscription. */
  lemma HealthyElsewhere(n: Net, t: Table, pending: seq<Publication>)
    requires Healthy(n) && Bears(PendingFor(pending, Bound(n)))
    ensures var n' := n.(table := t, pending := pending); Healthy(n') && Projected(n') == Projected(n)
  {
  }

  lemma PublishOwn(n: Net, i: nat)
    requires Healthy(n) && i < |n.pending| && n.pending[i].id == Bound(n)
    ensures Next(n, PublishAt(i))
         == n.(line := B.OfferOn(n.line, n.pending[i].msg), pending := Without(n.pending, i))
  {
  }

  /** What a step of the registry puts up for publication. */
  ghost function PutUp(n: Net, step: Step): seq<Publication> {
    match step
    case Apply(m, now) => PublicationOf(m, ApplyTo(n.table, m, now).1)
    case Sweep(idle, paneExists, now, order) =>
      if !Orders(n.table, order) || ReapedSet(n.table, idle, paneExists, now) == {} then []
      else Wiped(Swept(n.table, idle, paneExists, now), order)
    case _ => []
  }

  /** An emit changes the state of its own session only, and says so exactly when it does. */
  lemma ApplyReports(t: Table, m: Emit, now: int, id: string)
    ensures var (t', upd) := ApplyTo(t, m, now);
            StateOf(t', id) ==
              if upd.Applied? && upd.changed && m.sessionId == id then upd.to else StateOf(t, id)
  {
  }

  lemma ApplyAnnounces(n: Net, m: Emit, now: int, id: string)
    ensures var more, t := PutUp(n, Apply(m, now)), Next(n, Apply(m, now)).table;
            && Bears(PendingFor(more, id)) && |PendingFor(more, id)| <= 1
            && StateOf(t, id) == StateAfterAll(StateOf(n.table, id), PendingFor(more, id))
  {
    ApplyReports(n.table, m, now, id);
    PublishedChange(m, ApplyTo(n.table, m, now).1, StateOf(n.table, id), id);
  }

  lemma PublishedChange(m: Emit, upd: Update, state: State, id: string)
    ensures var own := PendingFor(PublicationOf(m, upd), id);
            && Bears(own) && |own| <= 1
            && StateAfterAll(state, own) ==
                 if upd.Applied? && upd.changed && m.sessionId == id then upd.to else state
  {
    var published := PublicationOf(m, upd);
    PendingForOne(published, id);
    if upd.Applied? && upd.changed && m.sessionId == id {
      var change := StateChange(m.sessionId, upd.from, upd.to);
      assert published[0].msg == change;
      OneChange(state, change);
    }
  }

  lemma OneChange(state: State, msg: ServerMsg)
    requires Carried(msg).Some?
    ensures Bears([msg]) && |[msg]| == 1 && StateAfterAll(state, [msg]) == Carried(msg).value
  {
    StateAfterOne(state, [msg]);
  }

  lemma SweepAnnounces(n: Net, step: Step, id: string)
    requires step.Sweep?
    ensures var more, t := PutUp(n, step), Next(n, step).table;
            && Bears(PendingFor(more, id)) && |PendingFor(more, id)| <= 1
            && StateOf(t, id) == StateAfterAll(StateOf(n.table, id), PendingFor(more, id))
  {
    if Orders(n.table, step.order) && ReapedSet(n.table, step.idle, step.paneExists, step.now) != {} {
      SweptAndWiped(n.table, step.idle, step.paneExists, step.now, step.order, id);
    } else {
      assert PutUp(n, step) == [] && Next(n, step) == n;
    }
  }

  lemma SweptAndWiped(t: Table, idle: int, paneExists: Option<PaneOracle>, now: int, order: seq<string>, id: string)
    requires Orders(t, order)
    ensures var t' := Swept(t, idle, paneExists, now);
            var own := PendingFor(Wiped(t', order), id);
            && Bears(own) && |own| <= 1
            && StateOf(t', id) == StateAfterAll(StateOf(t, id), own)
  {
    var t' := Swept(t, idle, paneExists, now);
    WipedFor(t', order, id);
    StateAfterOne(StateOf(t, id), PendingFor(Wiped(t', order), id));
  }

  /** What the registry does to the session, and what is put up for publication, say the same. */
  lemma {:induction false} RegistryStepAnnounces(n: Net, step: Step, id: string)
    requires step.Apply? || step.Sweep?
    ensures var more, n' := PutUp(n, step), Next(n, step);
            && n'.pending == n.pending + more
            && Bears(PendingFor(more, id)) && |PendingFor(more, id)| <= 1
            && StateOf(n'.table, id) == StateAfterAll(StateOf(n.table, id), PendingFor(more, id))
  {
    if step.Apply? {
      ApplyAnnounces(n, step.m, step.now, id);
    } else {
      SweepAnnounces(n, step, id);
    }
    assert n.pending + [] == n.pending;
  }

  lemma StateAfterOne(state: State, msgs: seq<ServerMsg>)
    requires |msgs| <= 1
    ensures StateAfterAll(state, msgs) == if msgs == [] then state else StateAfter(state, msgs[0])
  {
    if msgs != [] {
      assert msgs[..0] == [];
    }
  }

  // ----- What steps leave alone

  function Waiting(n: Net): seq<ServerMsg> {
    PendingFor(n.pending, Bound(n))
  }

  function Newest(msgs: seq<ServerMsg>): ServerMsg
    requires msgs != []
  {
    msgs[|msgs| - 1]
  }

  lemma RegistryLeavesLine(n: Net, step: Step)
    requires step.Apply? || step.Sweep?
    ensures var n' := Next(n, step); n' == n.(table := n'.table, pending := n'.pending)
  {
  }

  lemma TickKeepsRest(n: Net)
    requires Healthy(n)
    ensures var n' := Next(n, PumpTick);
            && n'.line.offered == n.line.offered && n'.line.kept == n.line.kept
            && (Tail(n.line) == [] ==> Tail(n'.line) == [])
  {
  }

  lemma BindingKept(n: Net, step: Step)
    requires Bound(n) != ""
    ensures Bound(Next(n, step)) == Bound(n)
  {
  }

  lemma {:induction false} BeforeKept(n: Net, steps: seq<Step>)
    ensures Run(n, steps).before == n.before
    decreases |steps|
  {
    if steps == [] {
    } else {
      BeforeKept(n, steps[..|steps| - 1]);
    }
  }

  // ----- Runs

  lemma {:induction false} RunSplit(n: Net, a: seq<Step>, b: seq<Step>)
    ensures Run(n, a + b) == Run(Run(n, a), b)
    decreases |b|
  {
    if b == [] {
      assert a + b == a;
    } else {
      assert (a + b)[..|a + b| - 1] == a + b[..|b| - 1];
      RunSplit(n, a, b[..|b| - 1]);
    }
  }

  lemma RunCons(n: Net, step: Step, steps: seq<Step>)
    ensures Run(n, [step] + steps) == Run(Next(n, step), steps)
  {
    assert [step][..0] == [];
    assert Run(n, [step]) == Next(Run(n, []), step);
    RunSplit(n, [step], steps);
  }
}
