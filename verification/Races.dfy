/**
 Runs of one subscription with `Publish` taken apart: it finds the buffer full and raises the overflow
 flag in two steps (daemon/internal/bus/bus.go:154-158). In between the bus mutex keeps every other
 publication, rebind and unsubscription out, but not the pump, which does not take it.
 */
module Races {
  import opened Wire
  import opened Bus
  import B = BusRuns

  /** A subscription and whether a publisher is about to raise its flag. */
  datatype Race = Race(line: B.Line, raising: bool)

  datatype Step =
    | Check(sessionId: string, msg: ServerMsg)
    | Raise
    | Rebind(sessionId: string)
    | Unsubscribe
    | Pump(snapshot: ServerMsg)
    | Stop
    | SinkDies

  function Start(mode: Mode, bound: string, capacity: nat): Race {
    Race(B.NewLine(mode, bound, capacity), false)
  }

  /** Whether a publication gets as far as looking at the buffer. */
  predicate Reaches(r: Race, sessionId: string) {
    !r.raising && r.line.registered && Matches(r.line.sub, sessionId)
  }

  /** The non-blocking send: the message is kept or dropped; a drop leaves the flag to be raised. */
  function Checked(l: B.Line, msg: ServerMsg): Race {
    if HasRoom(l.sub) then Race(B.OfferOn(l, msg), false)
    else Race(l.(offered := l.offered + [msg], kept := l.kept + [false]), true)
  }

  function Raised(l: B.Line): B.Line {
    l.(sub := l.sub.(overflow := true))
  }

  function Next(r: Race, step: Step): Race {
    match step
    case Check(id, msg) => if Reaches(r, id) then Checked(r.line, msg) else r
    case Raise => if r.raising then Race(Raised(r.line), false) else r
    case Rebind(id) => if r.raising then r else r.(line := B.Next(r.line, B.Rebind(id)))
    case Unsubscribe => if r.raising then r else r.(line := B.Next(r.line, B.Unsubscribe))
    case Pump(snapshot) => r.(line := B.Next(r.line, B.Pump(snapshot)))
    case Stop => r.(line := B.Next(r.line, B.Stop))
    case SinkDies => r.(line := B.Next(r.line, B.SinkDies))
  }

  function Run(r: Race, steps: seq<Step>): Race
    decreases |steps|
  {
    if steps == [] then r else Next(Run(r, steps[..|steps| - 1]), steps[|steps| - 1])
  }

  lemma {:induction false} RunSplit(r: Race, a: seq<Step>, b: seq<Step>)
    ensures Run(r, a + b) == Run(Run(r, a), b)
    decreases |b|
  {
    if b == [] {
      assert a + b == a;
    } else {
      assert (a + b)[..|a + b| - 1] == a + b[..|b| - 1];
      RunSplit(r, a, b[..|b| - 1]);
    }
  }

  lemma RunSnoc(r: Race, steps: seq<Step>, step: Step)
    ensures Run(r, steps + [step]) == Next(Run(r, steps), step)
  {
    assert (steps + [step])[..|steps|] == steps;
  }

  // ----- Publishing in one step is a special case

  /** A step of `BusRuns` in these terms: publishing is a check with the flag raised right behind it. */
  function Split(step: B.Step): seq<Step> {
    match step
    case Publish(id, msg) => [Check(id, msg), Raise]
    case Rebind(id) => [Rebind(id)]
    case Unsubscribe => [Unsubscribe]
    case Pump(snapshot) => [Pump(snapshot)]
    case Stop => [Stop]
    case SinkDies => [SinkDies]
  }

  function SplitAll(steps: seq<B.Step>): seq<Step> {
    if steps == [] then [] else SplitAll(steps[..|steps| - 1]) + Split(steps[|steps| - 1])
  }

  lemma RunOfSplit(r: Race, step: B.Step)
    ensures !r.raising || step.Pump? ==> Run(r, Split(step)) == r.(line := B.Next(r.line, step))
  {
    match step {
      case Publish(id, msg) =>
        RunSnoc(r, [Check(id, msg)], Raise);
        RunOfOne(r, Check(id, msg));
      case _ =>
        RunOfOne(r, Split(step)[0]);
    }
  }

  lemma RunOfOne(r: Race, step: Step)
    ensures Run(r, [step]) == Next(r, step)
  {
    RunSnoc(r, [], step);
    assert [] + [step] == [step];
  }

  /** Every run that publishes in one step is one of these runs. */
  lemma {:induction false} AtomicRunsAreRuns(l: B.Line, steps: seq<B.Step>)
    ensures Run(Race(l, false), SplitAll(steps)) == Race(B.Run(l, steps), false)
    decreases |steps|
  {
    if steps == [] {
    } else {
      var init, last := steps[..|steps| - 1], steps[|steps| - 1];
      AtomicRunsAreRuns(l, init);
      RunSplit(Race(l, false), SplitAll(init), Split(last));
      RunOfSplit(Race(B.Run(l, init), false), last);
    }
  }

  /** The pump runs on while a flag is being raised. */
  lemma {:induction false} PumpRunsOn(r: Race, steps: seq<B.Step>)
    requires B.PumpOnly(steps)
    ensures Run(r, SplitAll(steps)) == r.(line := B.Run(r.line, steps))
    decreases |steps|
  {
    if steps == [] {
    } else {
      var init, last := steps[..|steps| - 1], steps[|steps| - 1];
      PumpRunsOn(r, init);
      RunSplit(r, SplitAll(init), Split(last));
      RunOfSplit(r.(line := B.Run(r.line, init)), last);
    }
  }

  // ----- Conservation

  lemma NextKeepsConserved(r: Race, step: Step)
    requires B.Conserved(r.line)
    ensures B.Conserved(Next(r, step).line)
  {
    match step {
      case Check(id, msg) =>
        B.OfferKeepsConserved(r.line, msg);
      case Raise =>
      case Rebind(id) => B.NextKeepsConserved(r.line, B.Rebind(id));
      case Unsubscribe => B.NextKeepsConserved(r.line, B.Unsubscribe);
      case Pump(snapshot) => B.NextKeepsConserved(r.line, B.Pump(snapshot));
      case Stop => B.NextKeepsConserved(r.line, B.Stop);
      case SinkDies => B.NextKeepsConserved(r.line, B.SinkDies);
    }
  }

  /** Nothing is lost, added or reordered in these runs either, and every drop is counted. */
  lemma {:induction false} RunConserves(mode: Mode, bound: string, capacity: nat, steps: seq<Step>)
    ensures var l := Run(Start(mode, bound, capacity), steps).line;
            && B.Conserved(l)
            && |l.offered| == |B.Forwarded(l.log)| + |B.Held(l.sub.pump)| + |l.sub.buffer| + B.Drops(l.kept)
    decreases |steps|
  {
    var start := Start(mode, bound, capacity);
    if steps == [] {
    } else {
      RunConserves(mode, bound, capacity, steps[..|steps| - 1]);
      NextKeepsConserved(Run(start, steps[..|steps| - 1]), steps[|steps| - 1]);
    }
    var l := Run(start, steps).line;
    B.PickedCounts(l.offered, l.kept);
  }

  // ----- When the flag comes too late

  /** Nothing is there that would make the pump look at the flag. */
  predicate Unwatched(l: B.Line) {
    l.sub.buffer == [] && !l.sub.pump.Holding?
  }

  /** The last flag was raised with nothing there to make the pump look at it, and nothing was kept since. */
  predicate RaisedLate(start: Race, steps: seq<Step>)
    decreases |steps|
  {
    if steps == [] then false
    else
      var init, last := steps[..|steps| - 1], steps[|steps| - 1];
      var r := Run(start, init);
      match last
      case Raise => if r.raising then Unwatched(r.line) else RaisedLate(start, init)
      case Check(id, _) => RaisedLate(start, init) && !(Reaches(r, id) && HasRoom(r.line.sub))
      case _ => RaisedLate(start, init)
  }

  /** In every reachable state a flag is up unwatched exactly if it was raised late. */
  lemma {:induction false} RaisedLateIff(mode: Mode, bound: string, capacity: nat, steps: seq<Step>)
    ensures var start := Start(mode, bound, capacity);
            var l := Run(start, steps).line;
            RaisedLate(start, steps) <==> l.sub.overflow && Unwatched(l)
    decreases |steps|
  {
    if steps == [] {
    } else {
      RaisedLateIff(mode, bound, capacity, steps[..|steps| - 1]);
      StepKeepsWatched(Run(Start(mode, bound, capacity), steps[..|steps| - 1]), steps[|steps| - 1]);
    }
  }

  lemma StepKeepsWatched(r: Race, step: Step)
    ensures var l, l' := r.line, Next(r, step).line;
            (l'.sub.overflow && Unwatched(l')) ==
              match step
              case Raise => if r.raising then Unwatched(l) else l.sub.overflow && Unwatched(l)
              case Check(id, _) => l.sub.overflow && Unwatched(l) && !(Reaches(r, id) && HasRoom(l.sub))
              case _ => l.sub.overflow && Unwatched(l)
  {
  }

  /** Once the pump has drained, the flag is up exactly if it was raised late. */
  lemma FlagAtRestIff(mode: Mode, bound: string, capacity: nat, steps: seq<Step>)
    requires B.Drained(Run(Start(mode, bound, capacity), steps).line)
    ensures var start := Start(mode, bound, capacity);
            Run(start, steps).line.sub.overflow <==> RaisedLate(start, steps)
  {
    RaisedLateIff(mode, bound, capacity, steps);
  }

  /** A flag raised right behind its check is never late: the buffer that was found full is not empty yet. */
  lemma {:induction false} PromptFlagsAreNotLate(mode: Mode, bound: string, capacity: nat, steps: seq<B.Step>)
    requires capacity >= 1
    ensures !RaisedLate(Start(mode, bound, capacity), SplitAll(steps))
    ensures B.Drained(B.Run(B.NewLine(mode, bound, capacity), steps)) ==>
              !B.Run(B.NewLine(mode, bound, capacity), steps).sub.overflow
    decreases |steps|
  {
    var l := B.NewLine(mode, bound, capacity);
    AtomicRunsAreRuns(l, steps);
    RaisedLateIff(mode, bound, capacity, SplitAll(steps));
    if steps == [] {
    } else {
      var init := steps[..|steps| - 1];
      PromptFlagsAreNotLate(mode, bound, capacity, init);
      AtomicRunsAreRuns(l, init);
      RaisedLateIff(mode, bound, capacity, SplitAll(init));
      CapacityKept(l, init);
      StepKeepsFlagWatched(B.Run(l, init), steps[|steps| - 1]);
    }
  }

  lemma StepKeepsFlagWatched(l: B.Line, step: B.Step)
    requires l.sub.capacity >= 1 && !(l.sub.overflow && Unwatched(l))
    ensures var l' := B.Next(l, step); !(l'.sub.overflow && Unwatched(l'))
  {
  }

  lemma {:induction false} CapacityKept(l: B.Line, steps: seq<B.Step>)
    ensures B.Run(l, steps).sub.capacity == l.sub.capacity
    decreases |steps|
  {
    if steps == [] {
    } else {
      CapacityKept(l, steps[..|steps| - 1]);
      StepKeepsCapacity(B.Run(l, steps[..|steps| - 1]), steps[|steps| - 1]);
    }
  }

  lemma StepKeepsCapacity(l: B.Line, step: B.Step)
    ensures B.Next(l, step).sub.capacity == l.sub.capacity
  {
  }

  // ----- No drop goes unannounced, unless its flag comes too late

  /** Step `i` of the run dropped its message. */
  predicate DropsAt(start: Race, steps: seq<Step>, i: nat)
    requires i < |steps|
  {
    var r := Run(start, steps[..i]);
    steps[i].Check? && Reaches(r, steps[i].sessionId) && !HasRoom(r.line.sub)
  }

  /** Behind position `from` the client was sent a drop notice and, later, a resync snapshot. */
  ghost predicate Announced(log: seq<Frame>, from: nat) {
    exists a, b :: from <= a < b < |log| && log[a].Notice? && log[b].Resync?
  }

  ghost predicate Noticed(log: seq<Frame>, from: nat) {
    exists a :: from <= a < |log| && log[a].Notice?
  }

  /**
   Drop `i` is the last publication that got as far as the buffer, and it came when the flag was down
   and no notice was about to be sent.
   */
  predicate OverlookedAt(start: Race, steps: seq<Step>, i: nat)
    requires i < |steps|
    decreases |steps|
  {
    var init, last := steps[..|steps| - 1], steps[|steps| - 1];
    var r := Run(start, init);
    if i == |steps| - 1 then
      && last.Check? && Reaches(r, last.sessionId) && !HasRoom(r.line.sub)
      && !r.line.sub.overflow && !r.line.sub.pump.Notifying?
    else
      OverlookedAt(start, init, i) && !(last.Check? && Reaches(r, last.sessionId))
  }

  /** Where a drop stands that happened when the log was `from` frames long. */
  ghost predicate DropPending(r: Race, from: nat, overlooked: bool) {
    || Announced(r.line.log, from)
    || r.line.sub.pump.Notifying?
    || (r.line.sub.pump.Resyncing? && Noticed(r.line.log, from))
    || (r.line.sub.overflow && !Unwatched(r.line))
    || (overlooked && (r.raising || r.line.sub.overflow))
  }

  lemma PumpKeepsDropPending(r: Race, snapshot: ServerMsg, from: nat, overlooked: bool)
    requires r.line.alive && DropPending(r, from, overlooked) && from <= |r.line.log|
    ensures DropPending(Next(r, Pump(snapshot)), from, overlooked)
  {
    var l, l' := r.line, Next(r, Pump(snapshot)).line;
    if Announced(l.log, from) {
      var a, b :| from <= a < b < |l.log| && l.log[a].Notice? && l.log[b].Resync?;
      assert l'.log[a].Notice? && l'.log[b].Resync?;
    } else if l.sub.pump.Notifying? {
      assert l'.log[|l.log|].Notice?;
    } else if l.sub.pump.Resyncing? && Noticed(l.log, from) {
      var a :| from <= a < |l.log| && l.log[a].Notice?;
      assert l'.log[a].Notice? && l'.log[|l.log|].Resync?;
    } else if l.sub.overflow && l.sub.pump.Holding? {
      assert l'.sub.pump.Notifying?;
    }
  }

  lemma OthersKeepDropPending(r: Race, step: Step, from: nat, overlooked: bool)
    requires DropPending(r, from, overlooked) && !step.Pump? && r.line.sub.capacity >= 1
    ensures Next(r, step).line.log == r.line.log
    ensures DropPending(Next(r, step), from,
                        overlooked && !(step.Check? && Reaches(r, step.sessionId)))
  {
  }

  lemma DropIsPending(r: Race, id: string, msg: ServerMsg)
    requires Reaches(r, id) && !HasRoom(r.line.sub) && r.line.sub.capacity >= 1
    ensures DropPending(Next(r, Check(id, msg)), |r.line.log|,
                        !r.line.sub.overflow && !r.line.sub.pump.Notifying?)
  {
  }

  lemma {:induction false} RaceKeepsCapacity(r: Race, steps: seq<Step>)
    ensures Run(r, steps).line.sub.capacity == r.line.sub.capacity
    decreases |steps|
  {
    if steps == [] {
    } else {
      RaceKeepsCapacity(r, steps[..|steps| - 1]);
      RaceStepKeepsCapacity(Run(r, steps[..|steps| - 1]), steps[|steps| - 1]);
    }
  }

  lemma RaceStepKeepsCapacity(r: Race, step: Step)
    ensures Next(r, step).line.sub.capacity == r.line.sub.capacity
  {
  }

  /** How long the log was when step `i` was taken. */
  function LogBefore(start: Race, steps: seq<Step>, i: nat): nat
    requires i < |steps|
  {
    |Run(start, steps[..i]).line.log|
  }

  lemma {:induction false} DropStaysPending(start: Race, steps: seq<Step>, i: nat)
    requires i < |steps| && DropsAt(start, steps, i) && start.line.sub.capacity >= 1
    requires Run(start, steps).line.alive
    ensures LogBefore(start, steps, i) <= |Run(start, steps).line.log|
    ensures DropPending(Run(start, steps), LogBefore(start, steps, i), OverlookedAt(start, steps, i))
    decreases |steps|
  {
    var init, last := steps[..|steps| - 1], steps[|steps| - 1];
    var r := Run(start, init);
    RaceKeepsCapacity(start, init);
    if i == |steps| - 1 {
      DropIsPending(r, last.sessionId, last.msg);
    } else {
      assert init[..i] == steps[..i];
      DropStaysPending(start, init, i);
      var overlooked := OverlookedAt(start, init, i);
      match last
      case Pump(snapshot) => PumpKeepsDropPending(r, snapshot, LogBefore(start, steps, i), overlooked);
      case step => OthersKeepDropPending(r, step, LogBefore(start, steps, i), overlooked);
    }
  }

  /** No notice since the log was `from` frames long, and none coming. */
  ghost predicate Silent(r: Race, from: nat) {
    && from <= |r.line.log| && !Noticed(r.line.log, from) && !r.line.sub.pump.Notifying?
    && (r.raising ==> !r.line.sub.overflow)
  }

  lemma StepStaysSilent(r: Race, step: Step, from: nat)
    requires Silent(r, from) && !(step.Check? && Reaches(r, step.sessionId))
    requires r.line.sub.overflow ==> Unwatched(r.line)
    ensures Silent(Next(r, step), from)
  {
    var log, log' := r.line.log, Next(r, step).line.log;
    forall a | from <= a < |log'| ensures !log'[a].Notice? {
      assert a < |log| ==> log'[a] == log[a];
    }
  }

  /** After an overlooked drop the pump stays silent while the flag is being raised, and on if it comes late. */
  lemma {:induction false} OverlookedStaysSilent(mode: Mode, bound: string, capacity: nat, steps: seq<Step>, i: nat)
    requires var start := Start(mode, bound, capacity);
             && i < |steps| && OverlookedAt(start, steps, i)
             && (Run(start, steps).raising || RaisedLate(start, steps))
    ensures var start := Start(mode, bound, capacity);
            Silent(Run(start, steps), LogBefore(start, steps, i))
    decreases |steps|
  {
    var start, init := Start(mode, bound, capacity), steps[..|steps| - 1];
    if i == |steps| - 1 {
    } else {
      assert init[..i] == steps[..i];
      OverlookedStaysSilent(mode, bound, capacity, init, i);
      RaisedLateIff(mode, bound, capacity, init);
      StepStaysSilent(Run(start, init), steps[|steps| - 1], LogBefore(start, steps, i));
    }
  }

  /**
   Exactly which drops are announced, in every run: once the live pump has drained and no flag is being
   raised, a dropped publication has been followed by a drop notice and, after that, by a snapshot -
   both sent after the drop - unless it was overlooked and the last flag came too late.
   */
  lemma {:induction false} DropAnnouncedIff(mode: Mode, bound: string, capacity: nat, steps: seq<Step>, i: nat)
    requires capacity >= 1 && i < |steps| && DropsAt(Start(mode, bound, capacity), steps, i)
    requires var r := Run(Start(mode, bound, capacity), steps);
             r.line.alive && B.Drained(r.line) && !r.raising
    ensures var start := Start(mode, bound, capacity);
            Announced(Run(start, steps).line.log, LogBefore(start, steps, i))
            <==> !(RaisedLate(start, steps) && OverlookedAt(start, steps, i))
  {
    var start := Start(mode, bound, capacity);
    DropStaysPending(start, steps, i);
    FlagAtRestIff(mode, bound, capacity, steps);
    if RaisedLate(start, steps) && OverlookedAt(start, steps, i) {
      OverlookedStaysSilent(mode, bound, capacity, steps, i);
    }
  }

  /** All drops are announced exactly if none was overlooked or the last flag did not come late. */
  lemma {:induction false} AllDropsAnnouncedIff(mode: Mode, bound: string, capacity: nat, steps: seq<Step>)
    requires capacity >= 1
    requires var r := Run(Start(mode, bound, capacity), steps);
             r.line.alive && B.Drained(r.line) && !r.raising
    ensures var start := Start(mode, bound, capacity);
            (forall i: nat :: i < |steps| && DropsAt(start, steps, i) ==>
               Announced(Run(start, steps).line.log, LogBefore(start, steps, i)))
            <==> !(RaisedLate(start, steps) && exists i: nat :: i < |steps| && OverlookedAt(start, steps, i))
  {
    var start := Start(mode, bound, capacity);
    if RaisedLate(start, steps) && exists i: nat :: i < |steps| && OverlookedAt(start, steps, i) {
      var i: nat :| i < |steps| && OverlookedAt(start, steps, i);
      OverlookedIsDrop(start, steps, i);
      DropAnnouncedIff(mode, bound, capacity, steps, i);
      assert DropsAt(start, steps, i) && !Announced(Run(start, steps).line.log, LogBefore(start, steps, i));
    } else {
      forall i: nat | i < |steps| && DropsAt(start, steps, i)
        ensures Announced(Run(start, steps).line.log, LogBefore(start, steps, i)) {
        DropAnnouncedIff(mode, bound, capacity, steps, i);
      }
    }
  }

  lemma {:induction false} OverlookedIsDrop(start: Race, steps: seq<Step>, i: nat)
    requires i < |steps| && OverlookedAt(start, steps, i)
    ensures DropsAt(start, steps, i)
    decreases |steps|
  {
    if i == |steps| - 1 {
    } else {
      OverlookedIsDrop(start, steps[..|steps| - 1], i);
      assert steps[..|steps| - 1][..i] == steps[..i];
    }
  }

  /** At most one drop is ever overlooked at a time: the last one. */
  lemma {:induction false} OneDropIsOverlooked(start: Race, steps: seq<Step>, i: nat, j: nat)
    requires i < |steps| && j < |steps| && OverlookedAt(start, steps, i) && OverlookedAt(start, steps, j)
    ensures i == j
    decreases |steps|
  {
    if i == |steps| - 1 || j == |steps| - 1 {
    } else {
      OneDropIsOverlooked(start, steps[..|steps| - 1], i, j);
    }
  }

  /** In particular no drop goes unannounced unless the last flag was raised late. */
  lemma NoDropUnannounced(mode: Mode, bound: string, capacity: nat, steps: seq<Step>, i: nat)
    requires capacity >= 1 && i < |steps| && DropsAt(Start(mode, bound, capacity), steps, i)
    requires var start := Start(mode, bound, capacity);
             var r := Run(start, steps);
             r.line.alive && B.Drained(r.line) && !r.raising && !RaisedLate(start, steps)
    ensures var start := Start(mode, bound, capacity);
            Announced(Run(start, steps).line.log, LogBefore(start, steps, i))
  {
    DropAnnouncedIff(mode, bound, capacity, steps, i);
  }

  // ----- A late flag

  /** `k` publications in a row. */
  function Burst(id: string, msg: ServerMsg, k: nat): seq<Step> {
    if k == 0 then [] else Burst(id, msg, k - 1) + [Check(id, msg)]
  }

  lemma {:induction false} BurstFills(r: Race, id: string, msg: ServerMsg, k: nat)
    requires Reaches(r, id) && r.line.sub.pump == Idle && r.line.sub.buffer == [] && k <= r.line.sub.capacity
    ensures var r' := Run(r, Burst(id, msg, k));
            && Reaches(r', id) && |r'.line.sub.buffer| == k && r'.line.sub.pump == Idle
            && r'.line.sub.capacity == r.line.sub.capacity && r'.line.alive == r.line.alive
            && r'.line.sub.overflow == r.line.sub.overflow && r'.line.log == r.line.log
    decreases k
  {
    if k == 0 {
    } else {
      BurstFills(r, id, msg, k - 1);
      RunSnoc(r, Burst(id, msg, k - 1), Check(id, msg));
    }
  }

  lemma {:induction false} PumpWithoutFlag(l: B.Line, steps: seq<B.Step>)
    requires B.PumpOnly(steps) && !l.sub.overflow && !l.sub.pump.Notifying? && !l.sub.pump.Resyncing?
    ensures var l' := B.Run(l, steps);
            && !l'.sub.overflow && !l'.sub.pump.Notifying? && !l'.sub.pump.Resyncing?
            && |l.log| <= |l'.log| && !Noticed(l'.log, |l.log|)
    decreases |steps|
  {
    if steps == [] {
    } else {
      PumpWithoutFlag(l, steps[..|steps| - 1]);
    }
  }

  /**
   A flag can come too late, at every capacity: a burst of one message more than the buffer holds, all
   of it drained before the flag is raised. The drop is recorded, the pump is at rest with nobody left
   to look at the flag, and no notice was ever sent.
   */
  lemma LateFlagIsNotSeen(mode: Mode, bound: string, capacity: nat, id: string, msg: ServerMsg,
                          snapshot: ServerMsg) returns (steps: seq<Step>)
    requires capacity >= 1 && Matches(NewSub(mode, bound, capacity), id)
    ensures var start := Start(mode, bound, capacity);
            var r := Run(start, steps);
            && capacity < |steps| && DropsAt(start, steps, capacity)
            && r.line.alive && r.line.registered && B.Drained(r.line) && !r.raising
            && r.line.sub.overflow && RaisedLate(start, steps) && !Noticed(r.line.log, 0)
  {
    var start := Start(mode, bound, capacity);
    var burst := Burst(id, msg, capacity);
    BurstFills(start, id, msg, capacity);
    var full := Run(start, burst);
    var dropped := burst + [Check(id, msg)];
    RunSnoc(start, burst, Check(id, msg));
    var r := Run(start, dropped);
    var pumps := B.PumpDrains(r.line, snapshot);
    PumpWithoutFlag(r.line, pumps);
    PumpRunsOn(r, pumps);
    RunSplit(start, dropped, SplitAll(pumps));
    var drained := dropped + SplitAll(pumps);
    steps := drained + [Raise];
    RunSnoc(start, drained, Raise);
    BurstLength(id, msg, capacity);
    assert steps[..capacity] == burst && steps[capacity] == Check(id, msg);
    PumpKeepsRegistered(r.line, pumps);
    FlagAtRestIff(mode, bound, capacity, steps);
  }

  lemma {:induction false} BurstLength(id: string, msg: ServerMsg, k: nat)
    ensures |Burst(id, msg, k)| == k
    decreases k
  {
    if k == 0 {
    } else {
      BurstLength(id, msg, k - 1);
    }
  }

  lemma {:induction false} PumpKeepsRegistered(l: B.Line, steps: seq<B.Step>)
    requires B.PumpOnly(steps)
    ensures B.Run(l, steps).registered == l.registered
    decreases |steps|
  {
    if steps == [] {
    } else {
      PumpKeepsRegistered(l, steps[..|steps| - 1]);
    }
  }

  /** A flag raised late is not lost: the next publication that is kept makes the pump see it. */
  lemma LateFlagIsSeenNext(r: Race, id: string, msg: ServerMsg, snapshot: ServerMsg)
    requires Reaches(r, id) && HasRoom(r.line.sub) && r.line.alive && B.Drained(r.line) && r.line.sub.overflow
    ensures var l := r.line;
            var l' := B.PumpOn(B.PumpOn(B.PumpOn(B.PumpOn(Next(r, Check(id, msg)).line, snapshot), snapshot),
                                        snapshot), snapshot);
            l'.log == l.log + [Notice(l.sub.bound), Resync(snapshot)] && l'.sub.pump == Sending(msg)
  {
  }
}
