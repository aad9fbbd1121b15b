/**
 The conditions of `Agreement` are needed: runs after which everything has settled and the client believes
 something else than the registry.
 */
module Losses {
  import opened Wrappers
  import opened Wire
  import opened Seqs
  import opened Sessions
  import opened Bus
  import opened Sdk
  import B = BusRuns
  import opened EndToEnd
  import opened Agreement

  /** The subscription with its greeting just read and sent. */
  ghost function Greeted(t: Table, mode: Mode, id: string, capacity: nat, before: State): Net {
    Next(Next(Subscribed(t, [], mode, id, capacity, before), ReadGreeting), SendGreeting)
  }

  lemma GreetedTracks(t: Table, mode: Mode, id: string, capacity: nat, before: State)
    requires id != "" && mode != ANY
    ensures var n := Greeted(t, mode, id, capacity, before);
            && Tracks(n) && n.table == t && n.pending == [] && n.before == before && n.greeting.Sent?
            && n.line.sub == NewSub(mode, id, capacity) && n.line.offered == [] && n.line.kept == []
            && n.line.registered
  {
    var start := Subscribed(t, [], mode, id, capacity, before);
    StartTracks(t, [], mode, id, capacity, before);
    StepKeepsTracks(start, ReadGreeting);
    StepKeepsTracks(Next(start, ReadGreeting), SendGreeting);
  }

  /** Always the publication at the head of the queue. */
  ghost predicate HeadFirst(steps: seq<Step>) {
    forall k :: 0 <= k < |steps| && steps[k].PublishAt? ==> steps[k].i == 0
  }

  lemma {:induction false} HeadFirstIsInOrder(n: Net, steps: seq<Step>)
    requires HeadFirst(steps)
    ensures InOrder(n, steps)
    decreases |steps|
  {
    if steps == [] {
    } else {
      HeadFirstIsInOrder(n, steps[..|steps| - 1]);
    }
  }

  lemma {:induction false} InOrderSplit(n: Net, a: seq<Step>, b: seq<Step>)
    requires InOrder(n, a) && InOrder(Run(n, a), b)
    ensures InOrder(n, a + b)
    decreases |b|
  {
    if b == [] {
      assert a + b == a;
    } else {
      var init := b[..|b| - 1];
      assert (a + b)[..|a + b| - 1] == a + init;
      InOrderSplit(n, a, init);
      RunSplit(n, a, init);
    }
  }

  // ----- Overflow loses the last state

  /** The `k`-th emit of a session that goes back and forth, starting with work. */
  function Alternating(id: string, k: nat): Emit {
    Emit(if k % 2 == 1 then EVENT_AGENT_WORKING else EVENT_AGENT_NEEDS_ATTENTION, id, k, "", "", "")
  }

  function AlternatingState(k: nat): State {
    if k == 0 then Unknown else if k % 2 == 1 then Working else NeedsAttention
  }

  /** The `k`-th transition, published at once; the pump takes the first message and then stalls. */
  function FloodSteps(id: string, k: nat): seq<Step> {
    [Apply(Alternating(id, k), 0), PublishAt(0)] + if k == 1 then [PumpTick] else []
  }

  /** After `k` transitions: all were kept, but for the one after the buffer was full. */
  ghost predicate Flooded(n: Net, id: string, capacity: nat, k: nat) {
    && n.pending == [] && FloodedTable(n.table, id, k) && FloodedSub(n.line, id, capacity, k)
    && FloodedStream(n.line, if k <= capacity + 1 then k else capacity + 1, k)
  }

  ghost predicate FloodedTable(t: Table, id: string, k: nat) {
    if k == 0 then id !in t else id in t && (t[id].lastSeq, t[id].state) == (k, AlternatingState(k))
  }

  /** The pump holds the first message; as long as there was room the buffer holds the others. */
  ghost predicate FloodedSub(l: B.Line, id: string, capacity: nat, k: nat) {
    && (l.sub.bound, l.sub.mode, l.sub.capacity, l.registered) == (id, SESSION, capacity, true)
    && (if k == 0 then l.sub.pump == Idle && l.sub.buffer == [] else l.sub.pump.Holding?)
    && (0 < k <= capacity + 1 ==> |l.sub.buffer| == k - 1)
  }

  /** `all` were offered, `some` of them kept, and the kept ones lead to where the `some`-th transition led. */
  ghost predicate FloodedStream(l: B.Line, some: nat, all: nat) {
    && |l.offered| == |l.kept| == all && B.Drops(l.kept) + some == all
    && StateAfterAll(Unknown, B.Picked(l.offered, l.kept)) == AlternatingState(some)
  }

  /** The net after the `k`-th transition was applied and published. */
  ghost function FloodStep(n: Net, id: string, k: nat): Net {
    var a := Next(Next(n, Apply(Alternating(id, k), 0)), PublishAt(0));
    if k == 1 then Next(a, PumpTick) else a
  }

  lemma FloodOnce(n: Net, id: string, capacity: nat, k: nat)
    requires capacity >= 1 && id != "" && k <= capacity + 1 && Flooded(n, id, capacity, k)
    ensures Flooded(FloodStep(n, id, k + 1), id, capacity, k + 1)
  {
    var t := Next(n, Apply(Alternating(id, k + 1), 0)).table;
    PublishedAtOnce(n, id, capacity, k);
    FloodOffered(n, t, id, capacity, k);
  }

  lemma PublishedAtOnce(n: Net, id: string, capacity: nat, k: nat)
    requires id != "" && Flooded(n, id, capacity, k)
    ensures var b := Next(n, Apply(Alternating(id, k + 1), 0));
            FloodedTable(b.table, id, k + 1) && Next(b, PublishAt(0)) == Offered(n, b.table, id, k)
  {
    var b := Next(n, Apply(Alternating(id, k + 1), 0));
    AppliedOnce(n, id, k);
    assert Without(b.pending, 0) == [];
  }

  function Offered(n: Net, t: Table, id: string, k: nat): Net {
    var change := StateChange(id, AlternatingState(k), AlternatingState(k + 1));
    n.(table := t, line := B.OfferOn(n.line, change))
  }

  lemma FloodOffered(n: Net, t: Table, id: string, capacity: nat, k: nat)
    requires capacity >= 1 && id != "" && k <= capacity + 1 && Flooded(n, id, capacity, k)
    requires FloodedTable(t, id, k + 1)
    ensures var a := Offered(n, t, id, k);
            && (k > 0 ==> Flooded(a, id, capacity, k + 1))
            && (k == 0 ==> Flooded(Next(a, PumpTick), id, capacity, k + 1))
  {
    var change := StateChange(id, AlternatingState(k), AlternatingState(k + 1));
    OfferKeeps(n.line, change, Unknown);
    B.DropsAppend(n.line.kept, HasRoom(n.line.sub));
    if k == 0 {
      FirstTakenByPump(Offered(n, t, id, k));
    }
  }

  lemma FirstTakenByPump(n: Net)
    requires n.line.sub.pump == Idle && |n.line.sub.buffer| == 1
    ensures var n' := Next(n, PumpTick);
            && n'.pending == n.pending && n'.table == n.table
            && n'.line == n.line.(sub := n'.line.sub)
            && n'.line.sub == n.line.sub.(buffer := [], pump := Holding(n.line.sub.buffer[0]))
  {
    assert n.line.log + [] == n.line.log;
  }

  /** A subscription that was offered nothing, for a session nobody has heard of. */
  ghost predicate Dry(n: Net, id: string, capacity: nat) {
    && (n.pending, n.line.sub, n.line.registered) == ([], NewSub(SESSION, id, capacity), true)
    && (n.line.offered, n.line.kept) == ([], []) && id !in n.table
  }

  /** The net after `k` transitions in a row. */
  ghost function FloodNet(n: Net, id: string, k: nat): Net
    decreases k
  {
    if k == 0 then n else FloodStep(FloodNet(n, id, k - 1), id, k)
  }

  lemma {:induction false} FloodFills(n: Net, id: string, capacity: nat, k: nat)
    requires capacity >= 1 && id != "" && k <= capacity + 2 && Dry(n, id, capacity)
    ensures Flooded(FloodNet(n, id, k), id, capacity, k)
    decreases k
  {
    if k == 0 {
      NoFlood(n, id, capacity);
    } else {
      FloodFills(n, id, capacity, k - 1);
      FloodOnce(FloodNet(n, id, k - 1), id, capacity, k - 1);
    }
  }

  ghost predicate TracksUnknown(n: Net) {
    Tracks(n) && n.before == Unknown
  }

  lemma FloodTracks(n: Net, id: string, k: nat)
    requires TracksUnknown(n)
    ensures TracksUnknown(FloodNet(n, id, k))
  {
    var steps := FloodPath(n, id, k);
    RunTracks(n, steps);
    BeforeKept(n, steps);
  }

  lemma {:induction false} FloodPath(n: Net, id: string, k: nat) returns (steps: seq<Step>)
    ensures InOrder(n, steps) && Run(n, steps) == FloodNet(n, id, k)
    decreases k
  {
    if k == 0 {
      return [];
    }
    var earlier := FloodPath(n, id, k - 1);
    FloodRun(n, earlier, FloodNet(n, id, k - 1), id, k);
    return earlier + FloodSteps(id, k);
  }

  lemma NoFlood(n: Net, id: string, capacity: nat)
    requires Dry(n, id, capacity)
    ensures Flooded(n, id, capacity, 0)
  {
  }

  lemma FloodRun(n: Net, earlier: seq<Step>, mid: Net, id: string, k: nat)
    requires mid == Run(n, earlier) && InOrder(n, earlier)
    ensures Run(n, earlier + FloodSteps(id, k)) == FloodStep(mid, id, k)
    ensures InOrder(n, earlier + FloodSteps(id, k))
  {
    FloodStepsInOrder(mid, id, k);
    InOrderSplit(n, earlier, FloodSteps(id, k));
    var apply, last := Apply(Alternating(id, k), 0), if k == 1 then [PumpTick] else [];
    RunSplit(n, earlier, FloodSteps(id, k));
    assert FloodSteps(id, k) == [apply] + ([PublishAt(0)] + last);
    RunCons(mid, apply, [PublishAt(0)] + last);
    RunCons(Next(mid, apply), PublishAt(0), last);
    if k == 1 {
      assert last == [PumpTick] + [];
      RunCons(Next(Next(mid, apply), PublishAt(0)), PumpTick, []);
    }
  }

  lemma FloodStepsInOrder(n: Net, id: string, k: nat)
    ensures InOrder(n, FloodSteps(id, k))
  {
    HeadFirstIsInOrder(n, FloodSteps(id, k));
  }

  lemma QuietIsInOrder(n: Net, steps: seq<Step>)
    requires Quiet(steps)
    ensures InOrder(n, steps)
  {
    HeadFirstIsInOrder(n, steps);
  }

  lemma {:induction false} AllKept(kept: seq<bool>)
    requires forall i :: 0 <= i < |kept| ==> kept[i]
    ensures B.Drops(kept) == 0
    decreases |kept|
  {
    if kept == [] {
    } else {
      AllKept(kept[..|kept| - 1]);
    }
  }

  /**
   Drops can cost the last state, at every capacity: with a buffer of `capacity` messages there is a run of
   `capacity + 2` transitions, published in order, with a single drop, after which everything has
   settled and the client believes the opposite of the registry. The snapshot that answers the drop
   is sent ahead of the older queued messages.
   */
  lemma {:induction false} OverflowLosesLastState(id: string, capacity: nat) returns (steps: seq<Step>)
    requires id != "" && capacity >= 1
    ensures InOrder(Greeted(map[], SESSION, id, capacity, Unknown), steps)
    ensures BelievesOlder(Run(Greeted(map[], SESSION, id, capacity, Unknown), steps), id, capacity)
  {
    GreetedTracks(map[], SESSION, id, capacity, Unknown);
    var n: Net;
    steps, n := FloodSettles(Greeted(map[], SESSION, id, capacity, Unknown), id, capacity, capacity + 2);
  }

  lemma FloodSettles(start: Net, id: string, capacity: nat, k: nat) returns (steps: seq<Step>, n: Net)
    requires capacity >= 1 && k == capacity + 2 && id != "" && Dry(start, id, capacity) && TracksUnknown(start)
    ensures InOrder(start, steps) && n == Run(start, steps) && BelievesOlder(n, id, capacity)
  {
    var flood, flooded := FloodReached(start, id, capacity, k);
    var quiet;
    quiet, n := SettleFlood(flooded, id, capacity, k);
    steps := flood + quiet;
    OneAfterTheOther(start, flood, quiet);
  }

  ghost predicate FloodedOver(n: Net, id: string, capacity: nat, k: nat) {
    Flooded(n, id, capacity, k) && TracksUnknown(n)
  }

  lemma FloodReached(start: Net, id: string, capacity: nat, k: nat) returns (flood: seq<Step>, flooded: Net)
    requires capacity >= 1 && id != "" && k <= capacity + 2 && Dry(start, id, capacity) && TracksUnknown(start)
    ensures InOrder(start, flood) && flooded == Run(start, flood)
    ensures FloodedOver(flooded, id, capacity, k)
  {
    flooded := FloodNet(start, id, k);
    FloodFills(start, id, capacity, k);
    FloodTracks(start, id, k);
    flood := FloodPath(start, id, k);
  }

  lemma OneAfterTheOther(n: Net, a: seq<Step>, b: seq<Step>)
    requires InOrder(n, a) && InOrder(Run(n, a), b)
    ensures InOrder(n, a + b) && Run(n, a + b) == Run(Run(n, a), b)
  {
    RunSplit(n, a, b);
    InOrderSplit(n, a, b);
  }

  /**
   Settled one transition behind the registry, with a single drop: as the transitions alternate, the client
   believes the opposite of what the registry says.
   */
  ghost predicate BelievesOlder(n: Net, id: string, capacity: nat) {
    && Settled(n) && (Bound(n), |n.line.offered|, B.Drops(n.line.kept)) == (id, capacity + 2, 1)
    && (ClientState(n), StateOf(n.table, id)) == (AlternatingState(capacity + 1), AlternatingState(capacity + 2))
  }

  lemma SettleFlood(n: Net, id: string, capacity: nat, k: nat) returns (quiet: seq<Step>, n': Net)
    requires capacity >= 1 && k == capacity + 2 && FloodedOver(n, id, capacity, k)
    ensures InOrder(n, quiet) && n' == Run(n, quiet) && BelievesOlder(n', id, capacity)
  {
    quiet := Settles(n);
    QuietIsInOrder(n, quiet);
    n' := Run(n, quiet);
    QuietKeepsProjected(n, quiet);
    SettledClient(n');
  }

  // ----- Publishing out of order

  /**
   Publishing in order is needed, too, at every capacity: two emits applied in one order and published
   in the other - which the code allows, as it publishes after releasing the registry - leave a settled
   client with the older state although nothing was dropped.
   */
  lemma OutOfOrderLosesLastState(id: string, capacity: nat) returns (steps: seq<Step>)
    requires id != "" && capacity >= 1
    ensures var n := Run(Greeted(map[], SESSION, id, capacity, Unknown), steps);
            && Settled(n) && Bound(n) == id && B.Drops(n.line.kept) == 0
            && StateOf(n.table, id) == NeedsAttention && ClientState(n) == Working
  {
    var start := Greeted(map[], SESSION, id, capacity, Unknown);
    GreetedTracks(map[], SESSION, id, capacity, Unknown);
    var n := Swapped(start, id);
    var quiet := Settles(n);
    QuietKeepsProjected(n, quiet);
    SettledClient(Run(n, quiet));
    steps := SwappedSteps(id) + quiet;
    SwappedRun(start, id);
    RunSplit(start, SwappedSteps(id), quiet);
  }

  /** The pump takes the newer change before the older one is published, so one place in the buffer will do. */
  function SwappedSteps(id: string): seq<Step> {
    [Apply(Alternating(id, 1), 0), Apply(Alternating(id, 2), 0), PublishAt(1), PumpTick, PublishAt(0)]
  }

  ghost function Applied2(n: Net, id: string): Net {
    Next(Next(n, Apply(Alternating(id, 1), 0)), Apply(Alternating(id, 2), 0))
  }

  ghost function NewerTaken(n: Net, id: string): Net {
    Next(Next(Applied2(n, id), PublishAt(1)), PumpTick)
  }

  lemma SwappedRun(n: Net, id: string)
    ensures Run(n, SwappedSteps(id)) == Next(NewerTaken(n, id), PublishAt(0))
  {
    var steps := SwappedSteps(id);
    assert steps == [steps[0]] + steps[1..] && steps[1..] == [steps[1]] + steps[2..];
    assert steps[2..] == [steps[2]] + steps[3..] && steps[3..] == [steps[3]] + steps[4..];
    assert steps[4..] == [steps[4]] + [];
    RunCons(n, steps[0], steps[1..]);
    RunCons(Next(n, steps[0]), steps[1], steps[2..]);
    RunCons(Applied2(n, id), steps[2], steps[3..]);
    RunCons(Next(Applied2(n, id), steps[2]), steps[3], steps[4..]);
    RunCons(NewerTaken(n, id), steps[4], []);
  }

  /** Two transitions applied, then published the other way round. */
  lemma Swapped(n: Net, id: string) returns (n': Net)
    requires Healthy(n) && Bound(n) == id && id !in n.table && n.pending == []
    requires n.line.sub == NewSub(SESSION, id, n.line.sub.capacity) && n.line.sub.capacity >= 1
    requires n.line.kept == []
    ensures n' == Next(NewerTaken(n, id), PublishAt(0))
    ensures Healthy(n') && Bound(n') == id && n'.pending == [] && B.Drops(n'.line.kept) == 0
    ensures StateOf(n'.table, id) == NeedsAttention && Projected(n') == Working
  {
    NewerPublished(n, id);
    PumpTakes(Next(Applied2(n, id), PublishAt(1)));
    n' := LastPublished(NewerTaken(n, id), StateChange(id, Unknown, Working));
    AllKept([true, true]);
  }

  lemma PumpTakes(n: Net)
    requires Healthy(n) && n.line.sub.pump == Idle && |n.line.sub.buffer| == 1 && n.line.sub.capacity >= 1
    ensures var n' := Next(n, PumpTick);
            && Healthy(n') && HasRoom(n'.line.sub) && Bound(n') == Bound(n)
            && n'.pending == n.pending && n'.table == n.table && n'.line.kept == n.line.kept
  {
    TickKeepsProjected(n);
  }

  lemma LastPublished(n: Net, msg: ServerMsg) returns (n': Net)
    requires Healthy(n) && n.pending == [Publication(Bound(n), msg)] && Carried(msg).Some?
    requires HasRoom(n.line.sub) && n.line.kept == [true]
    ensures n' == Next(n, PublishAt(0))
    ensures Healthy(n') && n'.pending == [] && n'.line.kept == [true, true]
    ensures Bound(n') == Bound(n) && n'.table == n.table && Projected(n') == Carried(msg).value
  {
    assert Without(n.pending, 0) == [];
    KeptPublication(n, 0);
    n' := Next(n, PublishAt(0));
  }

  lemma NewerPublished(n: Net, id: string)
    requires Healthy(n) && Bound(n) == id && id !in n.table && n.pending == []
    requires n.line.sub == NewSub(SESSION, id, n.line.sub.capacity) && n.line.sub.capacity >= 1
    ensures var n3 := Next(Applied2(n, id), PublishAt(1));
            && Healthy(n3) && Bound(n3) == id && StateOf(n3.table, id) == NeedsAttention
            && n3.pending == [Publication(id, StateChange(id, Unknown, Working))]
            && n3.line.kept == n.line.kept + [true]
            && n3.line.sub.pump == Idle && |n3.line.sub.buffer| == 1 && n3.line.sub.capacity >= 1
  {
    var n2 := Applied2(n, id);
    BothPending(n, id);
    assert Without(n2.pending, 1) == [Publication(id, StateChange(id, Unknown, Working))];
    PendingForOne(Without(n2.pending, 1), id);
    KeptPublication(n2, 1);
  }

  lemma BothPending(n: Net, id: string)
    requires Healthy(n) && Bound(n) == id && id !in n.table && n.pending == []
    ensures var n2 := Applied2(n, id);
            && n2.pending == [Publication(id, StateChange(id, Unknown, Working)),
                              Publication(id, StateChange(id, Working, NeedsAttention))]
            && StateOf(n2.table, id) == NeedsAttention
            && n2 == n.(table := n2.table, pending := n2.pending) && Healthy(n2)
  {
    var n2 := Applied2(n, id);
    AppliedTwice(n, id);
    PendingOfTwo(id, StateChange(id, Unknown, Working), StateChange(id, Working, NeedsAttention));
    HealthyElsewhere(n, n2.table, n2.pending);
  }

  lemma AppliedTwice(n: Net, id: string)
    requires id !in n.table && n.pending == []
    ensures var n2 := Applied2(n, id);
            && n2.pending == [Publication(id, StateChange(id, Unknown, Working)),
                              Publication(id, StateChange(id, Working, NeedsAttention))]
            && StateOf(n2.table, id) == NeedsAttention
            && n2 == n.(table := n2.table, pending := n2.pending)
  {
    AppliedOnce(n, id, 0);
    AppliedOnce(Next(n, Apply(Alternating(id, 1), 0)), id, 1);
  }

  lemma AppliedOnce(n: Net, id: string, k: nat)
    requires if k == 0 then id !in n.table
             else id in n.table && n.table[id].lastSeq == k && n.table[id].state == AlternatingState(k)
    ensures var n' := Next(n, Apply(Alternating(id, k + 1), 0));
            var change := Publication(id, StateChange(id, AlternatingState(k), AlternatingState(k + 1)));
            && n' == n.(table := n'.table, pending := n.pending + [change])
            && id in n'.table && n'.table[id].lastSeq == k + 1 && n'.table[id].state == AlternatingState(k + 1)
  {
    AlternatingApplied(n.table, id, k);
  }

  /** An emit of the alternating session is accepted and changes the state. */
  lemma AlternatingApplied(t: Table, id: string, k: nat)
    requires if k == 0 then id !in t else id in t && t[id].lastSeq == k && t[id].state == AlternatingState(k)
    ensures var (t', upd) := ApplyTo(t, Alternating(id, k + 1), 0);
            && upd.Applied? && upd.changed && upd.from == AlternatingState(k) && upd.to == AlternatingState(k + 1)
            && id in t' && t'[id].lastSeq == k + 1 && t'[id].state == AlternatingState(k + 1)
  {
  }

  lemma PendingOfTwo(id: string, a: ServerMsg, b: ServerMsg)
    ensures PendingFor([Publication(id, a), Publication(id, b)], id) == [a, b]
  {
    PendingForSplit([Publication(id, a)], [Publication(id, b)], id);
    PendingForOne([Publication(id, a)], id);
    PendingForOne([Publication(id, b)], id);
    assert [Publication(id, a)] + [Publication(id, b)] == [Publication(id, a), Publication(id, b)];
  }

  // ----- A greeting that comes late

  /**
   Reading the state and sending it are two steps, and so a greeting can come late, at every capacity: a
   change that is published and forwarded in between reaches the client first, and the greeting then takes
   it back. Nothing was dropped, and everything was published in order.
   */
  lemma LateGreetingLosesLastState(id: string, capacity: nat) returns (steps: seq<Step>)
    requires id != "" && capacity >= 1
    ensures var start := Subscribed(map[], [], SESSION, id, capacity, Unknown);
            var n := Run(start, steps);
            && InOrder(start, steps) && Settled(n) && Bound(n) == id && B.Drops(n.line.kept) == 0
            && StateOf(n.table, id) == Working && ClientState(n) == Unknown
  {
    FreshIsHealthy(id, capacity);
    steps := LateGreetingSettles(Subscribed(map[], [], SESSION, id, capacity, Unknown), id);
  }

  lemma LateGreetingSettles(start: Net, id: string) returns (steps: seq<Step>)
    requires Healthy(start) && Bound(start) == id && id !in start.table && start.pending == []
    requires start.greeting.Unread?
    requires start.line == B.NewLine(SESSION, id, start.line.sub.capacity) && start.line.sub.capacity >= 1
    ensures InOrder(start, steps)
    ensures var n := Run(start, steps);
            && Settled(n) && Bound(n) == id && B.Drops(n.line.kept) == 0
            && StateOf(n.table, id) == Working && ClientState(n) == Unknown
  {
    var n := LateGreeting(start, id);
    var quiet := Settles(n);
    QuietKeepsProjected(n, quiet);
    SettledClient(Run(n, quiet));
    steps := LateSteps(id) + quiet;
    LateRun(start, id);
    LateIsInOrder(start, id);
    RunSplit(start, LateSteps(id), quiet);
    QuietIsInOrder(n, quiet);
    InOrderSplit(start, LateSteps(id), quiet);
  }

  lemma LateIsInOrder(n: Net, id: string)
    ensures InOrder(n, LateSteps(id))
  {
    HeadFirstIsInOrder(n, LateSteps(id));
  }

  lemma FreshIsHealthy(id: string, capacity: nat)
    requires id != ""
    ensures Healthy(Subscribed(map[], [], SESSION, id, capacity, Unknown))
  {
  }

  function LateSteps(id: string): seq<Step> {
    [ReadGreeting, Apply(Alternating(id, 1), 0), PublishAt(0), PumpTick, PumpTick, PumpTick, SendGreeting]
  }

  ghost function Changed(n: Net, id: string): Net {
    Next(Next(Next(n, ReadGreeting), Apply(Alternating(id, 1), 0)), PublishAt(0))
  }

  ghost function Forwarded(n: Net): Net {
    Next(Next(Next(n, PumpTick), PumpTick), PumpTick)
  }

  lemma LateRun(n: Net, id: string)
    ensures Run(n, LateSteps(id)) == Next(Forwarded(Changed(n, id)), SendGreeting)
  {
    var first := [ReadGreeting, Apply(Alternating(id, 1), 0), PublishAt(0)];
    var later := [PumpTick, PumpTick, PumpTick, SendGreeting];
    assert LateSteps(id) == first + later;
    RunSplit(n, first, later);
    RunOfThree(n, first[0], first[1], first[2], []);
    assert first == [first[0], first[1], first[2]] + [];
    RunOfThree(Changed(n, id), PumpTick, PumpTick, PumpTick, [SendGreeting]);
    assert later == [PumpTick, PumpTick, PumpTick] + [SendGreeting];
    RunCons(Forwarded(Changed(n, id)), SendGreeting, []);
    assert [SendGreeting] + [] == [SendGreeting];
  }

  lemma RunOfThree(n: Net, a: Step, b: Step, c: Step, more: seq<Step>)
    ensures Run(n, [a, b, c] + more) == Run(Next(Next(Next(n, a), b), c), more)
  {
    assert [a, b, c] + more == [a] + ([b] + ([c] + more));
    RunCons(n, a, [b] + ([c] + more));
    RunCons(Next(n, a), b, [c] + more);
    RunCons(Next(Next(n, a), b), c, more);
  }

  lemma LateGreeting(n: Net, id: string) returns (n': Net)
    requires Healthy(n) && Bound(n) == id && id !in n.table && n.pending == [] && n.greeting.Unread?
    requires n.line == B.NewLine(SESSION, id, n.line.sub.capacity) && n.line.sub.capacity >= 1
    ensures n' == Next(Forwarded(Changed(n, id)), SendGreeting)
    ensures Healthy(n') && Bound(n') == id && n'.pending == [] && B.Drops(n'.line.kept) == 0
    ensures StateOf(n'.table, id) == Working && Projected(n') == Unknown
  {
    ChangedOnce(n, id);
    ForwardedOnce(Changed(n, id), id);
    n' := SentLate(Forwarded(Changed(n, id)));
  }

  lemma SentLate(n: Net) returns (n': Net)
    requires Healthy(n) && n.greeting.Read? && Tail(n.line) == [] && n.line.kept == [true]
    ensures n' == Next(n, SendGreeting)
    ensures Healthy(n') && Bound(n') == Bound(n) && n'.pending == n.pending && n'.table == n.table
    ensures B.Drops(n'.line.kept) == 0 && Projected(n') == n.greeting.state
  {
    GreetingProjects(n);
    AllKept([true]);
    n' := Next(n, SendGreeting);
  }

  lemma ChangedOnce(n: Net, id: string)
    requires Healthy(n) && Bound(n) == id && id !in n.table && n.pending == [] && n.greeting.Unread?
    requires n.line == B.NewLine(SESSION, id, n.line.sub.capacity) && n.line.sub.capacity >= 1
    ensures var c := Changed(n, id);
            && Healthy(c) && Bound(c) == id && c.pending == [] && c.line.kept == [true]
            && StateOf(c.table, id) == Working && c.greeting == Read(Unknown, 0)
            && c.line.sub.pump == Idle && |c.line.sub.buffer| == 1 && !c.line.sub.overflow
  {
    ReadUnknown(n);
    var r := Next(n, ReadGreeting);
    AppliedFirst(r, id);
    PublishedFirst(Next(r, Apply(Alternating(id, 1), 0)), StateChange(id, Unknown, Working));
  }

  lemma ReadUnknown(n: Net)
    requires Healthy(n) && Bound(n) !in n.table && n.greeting.Unread?
    ensures Next(n, ReadGreeting) == n.(greeting := Read(Unknown, |n.line.log|)) && Healthy(Next(n, ReadGreeting))
  {
  }

  lemma AppliedFirst(n: Net, id: string)
    requires Healthy(n) && Bound(n) == id && id !in n.table && n.pending == []
    ensures var a := Next(n, Apply(Alternating(id, 1), 0));
            && a == n.(table := a.table, pending := [Publication(id, StateChange(id, Unknown, Working))])
            && Healthy(a) && StateOf(a.table, id) == Working
  {
    var a := Next(n, Apply(Alternating(id, 1), 0));
    AppliedAlone(n, id);
    OnePendingIsHealthy(n, a.table, StateChange(id, Unknown, Working));
  }

  lemma OnePendingIsHealthy(n: Net, t: Table, msg: ServerMsg)
    requires Healthy(n) && Carried(msg).Some?
    ensures Healthy(n.(table := t, pending := [Publication(Bound(n), msg)]))
  {
    PendingForOne([Publication(Bound(n), msg)], Bound(n));
    HealthyElsewhere(n, t, [Publication(Bound(n), msg)]);
  }

  lemma AppliedAlone(n: Net, id: string)
    requires id !in n.table && n.pending == []
    ensures var a := Next(n, Apply(Alternating(id, 1), 0));
            && a == n.(table := a.table, pending := [Publication(id, StateChange(id, Unknown, Working))])
            && StateOf(a.table, id) == Working
  {
    AppliedOnce(n, id, 0);
  }

  lemma PublishedFirst(n: Net, msg: ServerMsg)
    requires Healthy(n) && n.pending == [Publication(Bound(n), msg)] && Carried(msg).Some?
    requires HasRoom(n.line.sub) && n.line.sub.buffer == []
    ensures var n' := Next(n, PublishAt(0));
            && Healthy(n') && n'.pending == [] && n'.table == n.table && n'.greeting == n.greeting
            && n'.line.kept == n.line.kept + [true] && n'.line.sub == n.line.sub.(buffer := [msg])
  {
    assert Without(n.pending, 0) == [];
    KeptPublication(n, 0);
    PublishOwn(n, 0);
    assert [] + [msg] == [msg];
  }

  /** Three steps of the pump: it takes the message, finds the flag down, and forwards it. */
  lemma ForwardedOnce(n: Net, id: string)
    requires Healthy(n) && n.line.sub.pump == Idle && |n.line.sub.buffer| == 1 && !n.line.sub.overflow
    ensures var f := Forwarded(n);
            && Healthy(f) && Tail(f.line) == [] && Bound(f) == Bound(n) && f.table == n.table
            && f.pending == n.pending && f.greeting == n.greeting && f.line.kept == n.line.kept
  {
    PumpGoesOn(n, Holding(n.line.sub.buffer[0]));
    PumpGoesOn(Next(n, PumpTick), Sending(n.line.sub.buffer[0]));
    PumpGoesOn(Next(Next(n, PumpTick), PumpTick), Idle);
  }

  lemma PumpGoesOn(n: Net, pump: PumpState)
    requires Healthy(n) && !n.line.sub.overflow
    requires match n.line.sub.pump
             case Idle => |n.line.sub.buffer| == 1 && pump == Holding(n.line.sub.buffer[0])
             case Holding(msg) => n.line.sub.buffer == [] && pump == Sending(msg)
             case Sending(_) => n.line.sub.buffer == [] && pump == Idle
             case _ => false
    ensures var n' := Next(n, PumpTick);
            && Healthy(n') && n'.line.sub == n.line.sub.(buffer := [], pump := pump)
            && n'.table == n.table && n'.pending == n.pending && n'.greeting == n.greeting
            && n'.line.kept == n.line.kept
  {
    TickKeepsProjected(n);
    TickKeepsRest(n);
  }
}
