/**
 Runs of one subscription: publishers, rebinding, unsubscribing and the pump interleave in any order.
 `offered` and `kept` record, for every publication the subscription matched, whether it was buffered
 or dropped; `log` is what reached the client's connection.
 */
module BusRuns {
  import opened Wire
  import opened Seqs
  import opened Bus

  datatype Line = Line(
    sub: SubState,
    registered: bool,
    alive: bool,
    log: seq<Frame>,
    offered: seq<ServerMsg>,
    kept: seq<bool>)

  datatype Step =
    | Publish(sessionId: string, msg: ServerMsg)
    | Rebind(sessionId: string)
    | Unsubscribe
    | Pump(snapshot: ServerMsg)
    | Stop
    | SinkDies

  function NewLine(mode: Mode, bound: string, capacity: nat): Line {
    Line(NewSub(mode, bound, capacity), true, true, [], [], [])
  }

  function OfferOn(l: Line, msg: ServerMsg): Line {
    l.(sub := Offer(l.sub, msg), offered := l.offered + [msg], kept := l.kept + [HasRoom(l.sub)])
  }

  function PumpOn(l: Line, snapshot: ServerMsg): Line {
    var (sub, frames) := PumpStep(l.sub, l.alive, snapshot);
    l.(sub := sub, log := l.log + frames)
  }

  function Next(l: Line, step: Step): Line {
    match step
    case Publish(id, msg) => if l.registered && Matches(l.sub, id) then OfferOn(l, msg) else l
    case Rebind(id) => if l.registered then l.(sub := RebindTo(l.sub, id)) else l
    case Unsubscribe => l.(registered := false, sub := l.sub.(closed := true))
    case Pump(snapshot) => PumpOn(l, snapshot)
    case Stop => l.(sub := StopStep(l.sub))
    case SinkDies => l.(alive := false)
  }

  function Run(l: Line, steps: seq<Step>): Line
    decreases |steps|
  {
    if steps == [] then l else Next(Run(l, steps[..|steps| - 1]), steps[|steps| - 1])
  }

  lemma {:induction false} RunSplit(l: Line, a: seq<Step>, b: seq<Step>)
    ensures Run(l, a + b) == Run(Run(l, a), b)
    decreases |b|
  {
    if b == [] {
      assert a + b == a;
    } else {
      assert (a + b)[..|a + b| - 1] == a + b[..|b| - 1];
      RunSplit(l, a, b[..|b| - 1]);
    }
  }

  // ----- Conservation and order

  /** The offered messages that were buffered, in order. */
  function Picked(offered: seq<ServerMsg>, kept: seq<bool>): seq<ServerMsg>
    requires |offered| == |kept|
  {
    if offered == [] then []
    else
      var n := |offered| - 1;
      Picked(offered[..n], kept[..n]) + if kept[n] then [offered[n]] else []
  }

  function Drops(kept: seq<bool>): nat {
    if kept == [] then 0
    else Drops(kept[..|kept| - 1]) + if kept[|kept| - 1] then 0 else 1
  }

  function Forwarded(log: seq<Frame>): seq<ServerMsg> {
    if log == [] then []
    else
      var n := |log| - 1;
      Forwarded(log[..n]) + if log[n].Forward? then [log[n].msg] else []
  }

  /** The message the pump has taken from the buffer and not handed to the connection. */
  function Held(pump: PumpState): seq<ServerMsg> {
    match pump
    case Idle => []
    case Stopped => []
    case Holding(msg) => [msg]
    case Notifying(msg) => [msg]
    case Resyncing(msg) => [msg]
    case Sending(msg) => [msg]
    case Failed(msg) => [msg]
  }

  /** Delivered, then held, then buffered: everything that was kept, in the order it was published. */
  function Flow(l: Line): seq<ServerMsg> {
    Forwarded(l.log) + Held(l.sub.pump) + l.sub.buffer
  }

  ghost predicate Conserved(l: Line) {
    && |l.offered| == |l.kept|
    && Flow(l) == Picked(l.offered, l.kept)
    && |l.sub.buffer| <= l.sub.capacity
  }

  lemma PickedAppend(offered: seq<ServerMsg>, kept: seq<bool>, msg: ServerMsg, keep: bool)
    requires |offered| == |kept|
    ensures Picked(offered + [msg], kept + [keep]) == Picked(offered, kept) + if keep then [msg] else []
  {
    assert (offered + [msg])[..|offered|] == offered && (kept + [keep])[..|kept|] == kept;
  }

  lemma ForwardedAppend(log: seq<Frame>, f: Frame)
    ensures Forwarded(log + [f]) == Forwarded(log) + if f.Forward? then [f.msg] else []
  {
    assert (log + [f])[..|log|] == log;
  }

  /** The message a pump step hands to the connection, if any. */
  function Sent(l: Line): seq<ServerMsg> {
    if l.alive && l.sub.pump.Sending? then [l.sub.pump.msg] else []
  }

  lemma PumpForwards(l: Line, snapshot: ServerMsg)
    ensures Forwarded(PumpOn(l, snapshot).log) == Forwarded(l.log) + Sent(l)
  {
    var frames := PumpStep(l.sub, l.alive, snapshot).1;
    if frames == [] {
      assert l.log + frames == l.log;
    } else {
      ForwardedAppend(l.log, frames[0]);
    }
  }

  lemma PumpHands(l: Line, snapshot: ServerMsg)
    ensures var sub := PumpOn(l, snapshot).sub;
            Sent(l) + Held(sub.pump) + sub.buffer == Held(l.sub.pump) + l.sub.buffer
  {
    if l.sub.pump == Idle && l.sub.buffer != [] {
      assert [l.sub.buffer[0]] + l.sub.buffer[1..] == l.sub.buffer;
    }
  }

  /** A pump step moves the flow along without losing, adding or reordering anything. */
  lemma PumpKeepsFlow(l: Line, snapshot: ServerMsg)
    ensures Flow(PumpOn(l, snapshot)) == Flow(l)
  {
    var l' := PumpOn(l, snapshot);
    PumpForwards(l, snapshot);
    PumpHands(l, snapshot);
    FlowRegroups(Forwarded(l.log), Sent(l), Held(l'.sub.pump), l'.sub.buffer, Held(l.sub.pump), l.sub.buffer);
  }

  lemma FlowRegroups<T>(done: seq<T>, sent: seq<T>, held: seq<T>, rest: seq<T>, held0: seq<T>, rest0: seq<T>)
    requires sent + held + rest == held0 + rest0
    ensures done + sent + held + rest == done + held0 + rest0
  {
    assert done + sent + held + rest == done + (sent + held + rest);
    assert done + held0 + rest0 == done + (held0 + rest0);
  }

  lemma OfferKeepsConserved(l: Line, msg: ServerMsg)
    requires Conserved(l)
    ensures Conserved(OfferOn(l, msg))
  {
    PickedAppend(l.offered, l.kept, msg, HasRoom(l.sub));
    var before := Forwarded(l.log) + Held(l.sub.pump);
    assert before + (l.sub.buffer + [msg]) == before + l.sub.buffer + [msg];
    assert Picked(l.offered, l.kept) + [] == Picked(l.offered, l.kept);
  }

  lemma NextKeepsConserved(l: Line, step: Step)
    requires Conserved(l)
    ensures Conserved(Next(l, step))
  {
    match step {
      case Publish(id, msg) =>
        OfferKeepsConserved(l, msg);
      case Pump(snapshot) =>
        PumpKeepsConserved(l, snapshot);
      case _ =>
        OthersLeaveFlow(l, step);
    }
  }

  lemma PumpKeepsConserved(l: Line, snapshot: ServerMsg)
    requires Conserved(l)
    ensures Conserved(PumpOn(l, snapshot))
  {
    PumpKeepsFlow(l, snapshot);
    PumpKeepsCounts(l, snapshot);
  }

  lemma PumpKeepsCounts(l: Line, snapshot: ServerMsg)
    ensures var l' := PumpOn(l, snapshot);
            && l'.offered == l.offered && l'.kept == l.kept && l'.sub.capacity == l.sub.capacity
            && |l'.sub.buffer| <= |l.sub.buffer|
  {
  }

  lemma OthersLeaveFlow(l: Line, step: Step)
    requires !step.Publish? && !step.Pump?
    ensures var l' := Next(l, step);
            && Flow(l') == Flow(l) && l'.offered == l.offered && l'.kept == l.kept
            && l'.sub.buffer == l.sub.buffer && l'.sub.capacity == l.sub.capacity
  {
  }

  /**
   Conservation, over every run: delivered, held and buffered messages are together exactly the
   publications that were kept, in publication order, and everything else was counted as dropped.
   */
  lemma {:induction false} RunConserves(mode: Mode, bound: string, capacity: nat, steps: seq<Step>)
    ensures var l := Run(NewLine(mode, bound, capacity), steps);
            && Conserved(l)
            && |l.offered| == |Forwarded(l.log)| + |Held(l.sub.pump)| + |l.sub.buffer| + Drops(l.kept)
            && (Drops(l.kept) == 0 ==> Flow(l) == l.offered)
    decreases |steps|
  {
    if steps == [] {
    } else {
      RunConserves(mode, bound, capacity, steps[..|steps| - 1]);
      NextKeepsConserved(Run(NewLine(mode, bound, capacity), steps[..|steps| - 1]), steps[|steps| - 1]);
    }
    var l := Run(NewLine(mode, bound, capacity), steps);
    PickedCounts(l.offered, l.kept);
  }

  lemma {:induction false} PickedCounts(offered: seq<ServerMsg>, kept: seq<bool>)
    requires |offered| == |kept|
    ensures |offered| == |Picked(offered, kept)| + Drops(kept)
    ensures Drops(kept) == 0 ==> Picked(offered, kept) == offered
    decreases |offered|
  {
    if offered == [] {
    } else {
      PickedCounts(offered[..|offered| - 1], kept[..|kept| - 1]);
    }
  }

  /** The positions of the kept messages among the offered ones. */
  function Positions(kept: seq<bool>): (r: seq<nat>)
    ensures forall k :: 0 <= k < |r| ==> r[k] < |kept|
  {
    if kept == [] then []
    else Positions(kept[..|kept| - 1]) + if kept[|kept| - 1] then [|kept| - 1] else []
  }

  /** `part` is what `all` holds at the increasing positions `at`. */
  ghost predicate SubsequenceAt(part: seq<ServerMsg>, all: seq<ServerMsg>, at: seq<nat>) {
    && |at| == |part|
    && (forall k :: 0 <= k < |at| ==> at[k] < |all| && part[k] == all[at[k]])
    && (forall j, k :: 0 <= j < k < |at| ==> at[j] < at[k])
  }

  lemma SubsequenceGrows(part: seq<ServerMsg>, all: seq<ServerMsg>, at: seq<nat>, msg: ServerMsg)
    requires SubsequenceAt(part, all, at)
    ensures SubsequenceAt(part, all + [msg], at)
    ensures SubsequenceAt(part + [msg], all + [msg], at + [|all|])
  {
  }

  /** Kept messages are an order-preserving subsequence of the offered ones. */
  lemma {:induction false} PickedIsSubsequence(offered: seq<ServerMsg>, kept: seq<bool>)
    requires |offered| == |kept|
    ensures SubsequenceAt(Picked(offered, kept), offered, Positions(kept))
    decreases |offered|
  {
    if offered == [] {
    } else {
      var n := |offered| - 1;
      PickedIsSubsequence(offered[..n], kept[..n]);
      SubsequenceGrows(Picked(offered[..n], kept[..n]), offered[..n], Positions(kept[..n]), offered[n]);
      InitAndLast(offered);
      assert Picked(offered[..n], kept[..n]) + [] == Picked(offered[..n], kept[..n]);
      assert Positions(kept[..n]) + [] == Positions(kept[..n]);
    }
  }

  // ----- Which publications a subscription is offered

  /** The published messages of a run, all of them or those for one session. */
  function Publications(steps: seq<Step>, only: string): seq<ServerMsg> {
    if steps == [] then []
    else
      var n := |steps| - 1;
      Publications(steps[..n], only) +
      if steps[n].Publish? && (only == "" || steps[n].sessionId == only) then [steps[n].msg] else []
  }

  ghost predicate StaysSubscribed(steps: seq<Step>) {
    forall i :: 0 <= i < |steps| ==> !steps[i].Unsubscribe?
  }

  ghost predicate NeverRebound(steps: seq<Step>) {
    forall i :: 0 <= i < |steps| ==> !steps[i].Rebind?
  }

  lemma BoundStep(l: Line, step: Step)
    requires l.sub.bound != ""
    ensures var l' := Next(l, step);
            && l'.sub.bound == l.sub.bound && l'.sub.mode == l.sub.mode
            && (!step.Unsubscribe? ==> l'.registered == l.registered)
            && (l.registered ==>
                  l'.offered == l.offered +
                    if step.Publish? && (l.sub.mode == ANY || step.sessionId == l.sub.bound) then [step.msg] else [])
  {
  }

  /**
   A binding never changes over a run, and a bound subscription is offered its session's messages and
   no others - or, in mode "any", all of them.
   */
  lemma {:induction false} BindingIsStable(l: Line, steps: seq<Step>)
    requires l.sub.bound != ""
    ensures Run(l, steps).sub.bound == l.sub.bound && Run(l, steps).sub.mode == l.sub.mode
    ensures StaysSubscribed(steps) && l.registered ==> Run(l, steps).registered
    ensures StaysSubscribed(steps) && l.registered ==>
              Run(l, steps).offered
              == l.offered + Publications(steps, if l.sub.mode == ANY then "" else l.sub.bound)
    decreases |steps|
  {
    if steps == [] {
    } else {
      var init, last := steps[..|steps| - 1], steps[|steps| - 1];
      BindingIsStable(l, init);
      BoundStep(Run(l, init), last);
    }
  }

  lemma AnyOfferedStep(l: Line, step: Step)
    requires l.sub.mode == ANY && l.registered && !step.Unsubscribe?
    ensures var l' := Next(l, step);
            && l'.sub.mode == ANY && l'.registered
            && l'.offered == l.offered + if step.Publish? then [step.msg] else []
  {
  }

  /** A subscription of mode "any" is offered everything, bound or not. */
  lemma {:induction false} AnyHearsAll(l: Line, steps: seq<Step>)
    requires l.sub.mode == ANY && l.registered && StaysSubscribed(steps)
    ensures Run(l, steps).sub.mode == ANY && Run(l, steps).registered
    ensures Run(l, steps).offered == l.offered + Publications(steps, "")
    decreases |steps|
  {
    if steps == [] {
    } else {
      AnyHearsAll(l, steps[..|steps| - 1]);
      AnyOfferedStep(Run(l, steps[..|steps| - 1]), steps[|steps| - 1]);
    }
  }

  lemma UnboundOfferedStep(l: Line, step: Step)
    requires l.sub.bound == "" && l.registered && !step.Unsubscribe? && !step.Rebind?
    ensures var l' := Next(l, step);
            && l'.sub.bound == "" && l'.sub.mode == l.sub.mode && l'.registered
            && l'.offered == l.offered + if step.Publish? then [step.msg] else []
  {
  }

  /** An unbound subscription follows everything as long as it is not rebound. */
  lemma {:induction false} UnboundHearsAll(l: Line, steps: seq<Step>)
    requires l.sub.bound == "" && l.registered
    requires StaysSubscribed(steps) && NeverRebound(steps)
    ensures Run(l, steps).sub.bound == "" && Run(l, steps).sub.mode == l.sub.mode && Run(l, steps).registered
    ensures Run(l, steps).offered == l.offered + Publications(steps, "")
    decreases |steps|
  {
    if steps == [] {
    } else {
      var init, last := steps[..|steps| - 1], steps[|steps| - 1];
      UnboundHearsAll(l, init);
      UnboundOfferedStep(Run(l, init), last);
    }
  }

  /** The set of matched sessions narrows once: everything before the rebind, one session after it. */
  lemma RebindNarrowsOnce(capacity: nat, before: seq<Step>, id: string, after: seq<Step>)
    requires id != "" && NeverRebound(before) && StaysSubscribed(before) && StaysSubscribed(after)
    ensures var l := Run(NewLine(AUTO, "", capacity), before + [Rebind(id)] + after);
            && l.sub.bound == id
            && l.offered == Publications(before, "") + Publications(after, id)
  {
    var start := NewLine(AUTO, "", capacity);
    RunSplit(start, before + [Rebind(id)], after);
    JustRebound(capacity, before, id);
    BindingIsStable(Run(start, before + [Rebind(id)]), after);
  }

  lemma JustRebound(capacity: nat, before: seq<Step>, id: string)
    requires NeverRebound(before) && StaysSubscribed(before)
    ensures var l := Run(NewLine(AUTO, "", capacity), before + [Rebind(id)]);
            && l.sub.bound == id && l.sub.mode == AUTO && l.registered
            && l.offered == Publications(before, "")
  {
    var start := NewLine(AUTO, "", capacity);
    UnboundHearsAll(start, before);
    RunSnoc(start, before, Rebind(id));
    assert [] + Publications(before, "") == Publications(before, "");
  }

  lemma RunSnoc(l: Line, steps: seq<Step>, step: Step)
    ensures Run(l, steps + [step]) == Next(Run(l, steps), step)
  {
    assert (steps + [step])[..|steps|] == steps;
  }

  /** After an unsubscription nothing more is offered, and nothing can take it back. */
  lemma {:induction false} UnsubscribedHearsNothing(l: Line, steps: seq<Step>)
    ensures var u := Run(Next(l, Unsubscribe), steps);
            !u.registered && u.sub.closed && u.offered == l.offered && u.kept == l.kept
    decreases |steps|
  {
    if steps == [] {
    } else {
      UnsubscribedHearsNothing(l, steps[..|steps| - 1]);
      ClosedStep(Run(Next(l, Unsubscribe), steps[..|steps| - 1]), steps[|steps| - 1]);
    }
  }

  lemma ClosedStep(l: Line, step: Step)
    requires !l.registered && l.sub.closed
    ensures var l' := Next(l, step);
            !l'.registered && l'.sub.closed && l'.offered == l.offered && l'.kept == l.kept
  {
  }

  /** A closed subscription's pump can end whenever it is back at the top of its loop, and then sends no more. */
  lemma {:induction false} StoppedSendsNothing(l: Line, steps: seq<Step>)
    requires l.sub.closed && l.sub.pump == Idle
    ensures Run(Next(l, Stop), steps).sub.pump == Stopped && Run(Next(l, Stop), steps).log == l.log
    decreases |steps|
  {
    if steps == [] {
    } else {
      StoppedSendsNothing(l, steps[..|steps| - 1]);
      StoppedStep(Run(Next(l, Stop), steps[..|steps| - 1]), steps[|steps| - 1]);
    }
  }

  lemma StoppedStep(l: Line, step: Step)
    requires l.sub.pump == Stopped
    ensures Next(l, step).sub.pump == Stopped && Next(l, step).log == l.log
  {
    assert l.log + [] == l.log;
  }

  // ----- Room

  ghost predicate Roomy(l: Line, capacity: nat) {
    && l.sub.capacity == capacity && |l.offered| == |l.kept| && |l.sub.buffer| <= |l.offered|
    && (|l.offered| <= capacity ==> Drops(l.kept) == 0)
  }

  lemma StepKeepsRoomy(l: Line, step: Step, capacity: nat)
    requires Roomy(l, capacity)
    ensures Roomy(Next(l, step), capacity)
  {
    if step.Publish? {
      DropsAppend(l.kept, HasRoom(l.sub));
    }
  }

  lemma {:induction false} RunIsRoomy(mode: Mode, bound: string, capacity: nat, steps: seq<Step>)
    ensures Roomy(Run(NewLine(mode, bound, capacity), steps), capacity)
    decreases |steps|
  {
    if steps == [] {
    } else {
      RunIsRoomy(mode, bound, capacity, steps[..|steps| - 1]);
      StepKeepsRoomy(Run(NewLine(mode, bound, capacity), steps[..|steps| - 1]), steps[|steps| - 1], capacity);
    }
  }

  /**
   As many publications as the buffer has places are kept, whatever the pump does: a subscription on the
   bus drops none of its first 64.
   */
  lemma FirstPublicationsAreKept(mode: Mode, bound: string, steps: seq<Step>)
    ensures var l := Run(NewLine(mode, bound, SUB_BUFFER_SIZE), steps);
            |l.offered| <= 64 ==> Drops(l.kept) == 0 && Flow(l) == l.offered
  {
    RunConserves(mode, bound, SUB_BUFFER_SIZE, steps);
    RunIsRoomy(mode, bound, SUB_BUFFER_SIZE, steps);
  }

  // ----- A connection that has died

  /** Nothing is ever written to a dead connection. */
  lemma {:induction false} DeadConnectionGetsNothing(l: Line, steps: seq<Step>)
    requires !l.alive
    ensures !Run(l, steps).alive && Run(l, steps).log == l.log
    decreases |steps|
  {
    if steps == [] {
    } else {
      DeadConnectionGetsNothing(l, steps[..|steps| - 1]);
      DeadStep(Run(l, steps[..|steps| - 1]), steps[|steps| - 1]);
    }
  }

  /** A pump that fails to send a message ends: it takes no further message and sends nothing more. */
  lemma {:induction false} FailedSendEndsPump(l: Line, snapshot: ServerMsg, steps: seq<Step>)
    requires !l.alive && l.sub.pump.Sending?
    ensures var f := Next(l, Pump(snapshot));
            && f.sub.pump == Failed(l.sub.pump.msg)
            && Run(f, steps).sub.pump == f.sub.pump && f.sub.buffer <= Run(f, steps).sub.buffer
    decreases |steps|
  {
    if steps == [] {
    } else {
      FailedSendEndsPump(l, snapshot, steps[..|steps| - 1]);
      FailedStep(Run(Next(l, Pump(snapshot)), steps[..|steps| - 1]), steps[|steps| - 1]);
    }
  }

  lemma FailedStep(l: Line, step: Step)
    requires l.sub.pump.Failed?
    ensures Next(l, step).sub.pump == l.sub.pump && l.sub.buffer <= Next(l, step).sub.buffer
  {
  }

  lemma DeadStep(l: Line, step: Step)
    requires !l.alive
    ensures !Next(l, step).alive && Next(l, step).log == l.log
  {
  }

  // ----- Notices

  ghost predicate Drained(l: Line) {
    l.sub.pump == Idle && l.sub.buffer == []
  }

  /** A notice is never sent without a drop: no drop, no notice and no resync. */
  lemma {:induction false} NoNoticeWithoutDrop(mode: Mode, bound: string, capacity: nat, steps: seq<Step>)
    requires Drops(Run(NewLine(mode, bound, capacity), steps).kept) == 0
    ensures Quiet(Run(NewLine(mode, bound, capacity), steps))
    decreases |steps|
  {
    if steps == [] {
    } else {
      var init, last := steps[..|steps| - 1], steps[|steps| - 1];
      var l := Run(NewLine(mode, bound, capacity), init);
      KeptGrows(l, last);
      NoNoticeWithoutDrop(mode, bound, capacity, init);
      assert !Next(l, last).sub.overflow;
      QuietStep(l, last);
    }
  }

  /** No sign of a drop anywhere: the flag is down and only publications were sent. */
  ghost predicate Quiet(l: Line) {
    && !l.sub.overflow && !l.sub.pump.Notifying? && !l.sub.pump.Resyncing?
    && forall i :: 0 <= i < |l.log| ==> l.log[i].Forward?
  }

  lemma DropsAppend(kept: seq<bool>, keep: bool)
    ensures Drops(kept + [keep]) == Drops(kept) + if keep then 0 else 1
  {
    assert (kept + [keep])[..|kept|] == kept;
  }

  lemma KeptGrows(l: Line, step: Step)
    ensures Drops(l.kept) <= Drops(Next(l, step).kept)
    ensures Drops(Next(l, step).kept) == 0 && Next(l, step).sub.overflow ==> l.sub.overflow
  {
    if step.Publish? {
      DropsAppend(l.kept, HasRoom(l.sub));
    }
  }

  lemma QuietStep(l: Line, step: Step)
    requires Quiet(l) && !Next(l, step).sub.overflow
    ensures Quiet(Next(l, step))
  {
  }

  // ----- Draining

  /** Steps the pump needs until it is idle with nothing buffered. */
  function Work(s: SubState): nat {
    5 * |s.buffer| + match s.pump
      case Idle => 0
      case Holding(_) => 4
      case Notifying(_) => 3
      case Resyncing(_) => 2
      case Sending(_) => 1
      case _ => 0
  }

  ghost predicate PumpOnly(steps: seq<Step>) {
    forall i :: 0 <= i < |steps| ==> steps[i].Pump?
  }

  /** A live pump left to itself always drains. */
  lemma {:induction false} PumpDrains(l: Line, snapshot: ServerMsg) returns (steps: seq<Step>)
    requires l.alive && !l.sub.pump.Failed? && !l.sub.pump.Stopped?
    ensures PumpOnly(steps) && Drained(Run(l, steps))
    ensures Run(l, steps).offered == l.offered && Run(l, steps).kept == l.kept && Run(l, steps).alive
    decreases Work(l.sub)
  {
    if Drained(l) {
      steps := [];
    } else {
      var l' := PumpOn(l, snapshot);
      var rest := PumpDrains(l', snapshot);
      steps := [Pump(snapshot)] + rest;
      assert [Pump(snapshot)][..0] == [];
      assert Run(l, [Pump(snapshot)]) == Next(Run(l, []), Pump(snapshot));
      RunSplit(l, [Pump(snapshot)], rest);
    }
  }
}
