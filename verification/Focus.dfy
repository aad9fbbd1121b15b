/**
 The focus protocol (daemon/internal/server/core.go). Every accepted state change spawns a goroutine
 that takes the focus mutex, re-reads the session's state, and either drops itself or focuses a pane;
 explicit focus requests compete for the same mutex. Each of these is a separate atomic step, and the
 steps of any number of goroutines, emits, sweeps and subscriptions interleave in any order.
 */
module Focus {
  import opened Wrappers
  import opened Wire
  import opened Sessions

  /** A goroutine (or the handler about to spawn it) and where it stands. */
  datatype Task =
    | Spawning(id: string, to: State)                // the change is applied, the goroutine not started
    | Waiting(id: string, to: State)                 // wants the mutex
    | Checking(id: string, to: State)                // holds it, about to re-read the state
    | Picking(id: string)                            // passed for "working", about to look for the activity
    | Focusing(id: string, to: State, pane: string)  // about to call tmux
    | RequestWaiting(id: string)
    | RequestReading(id: string)
    | RequestFocusing(id: string, pane: string)
    | Releasing                                      // done, about to unlock

  /** What was done under the mutex; `called` tells whether tmux was asked to focus the pane. */
  datatype Entry =
    | Decided(id: string, to: State, pane: string, called: bool)
    | Requested(id: string, pane: string, called: bool)

  datatype SubInfo = SubInfo(bound: string, activityPane: string)

  datatype World = World(
    table: Table,
    subs: map<string, SubInfo>,  // by connection
    tasks: map<nat, Task>,
    next: nat,                   // the next goroutine's number
    holder: Option<nat>,         // who holds the focus mutex
    log: seq<Entry>)

  datatype Step =
    | Emitted(m: Emit, now: int)
    | Swept(idle: int, paneExists: Option<PaneOracle>, now: int)
    | Subscribe(sink: string, bound: string, activityPane: string)
    | Rebind(sink: string, id: string)
    | Unsubscribe(sink: string)
    | Request(sink: string)
    | Spawn(t: nat)
    | Lock(t: nat)
    | Check(t: nat)
    | Pick(t: nat, choice: Option<string>)
    | Focus(t: nat, available: bool)
    | Unlock(t: nat)

  const START := World(map[], map[], map[], 0, None, [])

  function AddTask(w: World, task: Task): World {
    w.(tasks := w.tasks[w.next := task], next := w.next + 1)
  }

  predicate Offers(w: World, sink: string, id: string) {
    sink in w.subs && w.subs[sink].bound == id && w.subs[sink].activityPane != ""
  }

  /** The connection `activityPaneFor` may settle on: any bound one with a pane, none only if there is none. */
  predicate MayPick(w: World, id: string, choice: Option<string>) {
    match choice
    case Some(sink) => Offers(w, sink, id)
    case None => forall sink :: sink in w.subs ==> !Offers(w, sink, id)
  }

  /** The re-read under the mutex: a change that is no longer the session's state is dropped. */
  function Recheck(w: World, id: string, to: State): Task {
    if id !in w.table || w.table[id].state != to then Releasing
    else
      match to
      case NeedsAttention => Focusing(id, to, w.table[id].tmuxPane)
      case Working => Picking(id)
      case Unknown => Releasing
  }

  function Next(w: World, step: Step): World {
    match step
    case Emitted(m, now) =>
      var (t, upd) := ApplyTo(w.table, m, now);
      var w' := w.(table := t);
      if upd.Applied? && upd.changed then AddTask(w', Spawning(m.sessionId, upd.to)) else w'
    case Swept(idle, paneExists, now) => w.(table := Sessions.Swept(w.table, idle, paneExists, now))
    case Subscribe(sink, bound, pane) => w.(subs := w.subs[sink := SubInfo(bound, pane)])
    case Rebind(sink, id) =>
      if sink in w.subs && w.subs[sink].bound == "" then
        w.(subs := w.subs[sink := w.subs[sink].(bound := id)])
      else w
    case Unsubscribe(sink) => w.(subs := w.subs - {sink})
    case Request(sink) =>
      if sink in w.subs && w.subs[sink].bound != "" then AddTask(w, RequestWaiting(w.subs[sink].bound)) else w
    case Spawn(t) =>
      if t in w.tasks && w.tasks[t].Spawning? then
        w.(tasks := w.tasks[t := Waiting(w.tasks[t].id, w.tasks[t].to)])
      else w
    case Lock(t) =>
      if w.holder.Some? || t !in w.tasks then w
      else
        (match w.tasks[t]
         case Waiting(id, to) => w.(holder := Some(t), tasks := w.tasks[t := Checking(id, to)])
         case RequestWaiting(id) => w.(holder := Some(t), tasks := w.tasks[t := RequestReading(id)])
         case _ => w)
    case Check(t) =>
      if t !in w.tasks then w
      else
        (match w.tasks[t]
         case Checking(id, to) => w.(tasks := w.tasks[t := Recheck(w, id, to)])
         case RequestReading(id) =>
           w.(tasks := w.tasks[t := if id in w.table then RequestFocusing(id, w.table[id].tmuxPane) else Releasing])
         case _ => w)
    case Pick(t, choice) =>
      if t in w.tasks && w.tasks[t].Picking? && MayPick(w, w.tasks[t].id, choice) then
        var pane := if choice.Some? then w.subs[choice.value].activityPane else "";
        w.(tasks := w.tasks[t := Focusing(w.tasks[t].id, Working, pane)])
      else w
    case Focus(t, available) =>
      if t !in w.tasks then w
      else
        (match w.tasks[t]
         case Focusing(id, to, pane) =>
           w.(tasks := w.tasks[t := Releasing], log := w.log + [Decided(id, to, pane, pane != "" && available)])
         case RequestFocusing(id, pane) =>
           w.(tasks := w.tasks[t := Releasing], log := w.log + [Requested(id, pane, pane != "" && available)])
         case _ => w)
    case Unlock(t) =>
      if t in w.tasks && w.tasks[t].Releasing? && w.holder == Some(t) then
        w.(tasks := w.tasks - {t}, holder := None)
      else w
  }

  function Run(w: World, steps: seq<Step>): World
    decreases |steps|
  {
    if steps == [] then w else Next(Run(w, steps[..|steps| - 1]), steps[|steps| - 1])
  }

  // ----- Mutual exclusion

  predicate Critical(task: Task) {
    match task
    case Spawning(_, _) => false
    case Waiting(_, _) => false
    case RequestWaiting(_) => false
    case _ => true
  }

  /** Exactly the holder of the mutex is between lock and unlock. */
  ghost predicate Exclusive(w: World) {
    && (forall t :: t in w.tasks ==> t < w.next)
    && (forall t :: t in w.tasks ==> (Critical(w.tasks[t]) <==> w.holder == Some(t)))
    && (w.holder.Some? ==> w.holder.value in w.tasks)
  }

  lemma NextKeepsExclusive(w: World, step: Step)
    requires Exclusive(w)
    ensures Exclusive(Next(w, step))
  {
  }

  // ----- Last state wins

  /** A change to `state` that has not been re-checked yet. */
  predicate Unchecked(task: Task, id: string, state: State) {
    task == Spawning(id, state) || task == Waiting(id, state) || task == Checking(id, state)
  }

  /** The decision a goroutine has made under the mutex and not carried out yet. */
  function InHand(task: Task, id: string): Option<State> {
    match task
    case Picking(i) => if i == id then Some(Working) else None
    case Focusing(i, to, _) => if i == id then Some(to) else None
    case _ => None
  }

  function LastDecided(log: seq<Entry>, id: string): Option<State> {
    if log == [] then None
    else
      var last := log[|log| - 1];
      if last.Decided? && last.id == id then Some(last.to) else LastDecided(log[..|log| - 1], id)
  }

  /** The latest decision for a session, carried out or in hand. */
  function Decision(w: World, id: string): Option<State> {
    if w.holder.Some? && w.holder.value in w.tasks && InHand(w.tasks[w.holder.value], id).Some?
    then InHand(w.tasks[w.holder.value], id)
    else LastDecided(w.log, id)
  }

  ghost predicate Covered(w: World, id: string) {
    id in w.table && w.table[id].state != Unknown ==>
      || (exists t :: t in w.tasks && Unchecked(w.tasks[t], id, w.table[id].state))
      || Decision(w, id) == Some(w.table[id].state)
  }

  lemma LastDecidedAppend(log: seq<Entry>, e: Entry, id: string)
    ensures LastDecided(log + [e], id) == if e.Decided? && e.id == id then Some(e.to) else LastDecided(log, id)
  {
    assert (log + [e])[..|log|] == log;
  }

  lemma EmitKeepsCovered(w: World, m: Emit, now: int, id: string)
    requires Exclusive(w) && Covered(w, id)
    ensures Covered(Next(w, Emitted(m, now)), id)
  {
    var w' := Next(w, Emitted(m, now));
    var upd := ApplyTo(w.table, m, now).1;
    if id in w'.table && w'.table[id].state != Unknown {
      if upd.Applied? && upd.changed && m.sessionId == id {
        assert Unchecked(w'.tasks[w.next], id, w'.table[id].state);
      } else {
        assert id in w.table && w.table[id].state == w'.table[id].state;
        TasksSurvive(w, w', id);
      }
    }
  }

  /** More tasks do not take away a pending one, nor the decision. */
  lemma TasksSurvive(w: World, w': World, id: string)
    requires Exclusive(w) && Covered(w, id)
    requires w'.holder == w.holder && w'.log == w.log
    requires forall t :: t in w.tasks ==> t in w'.tasks && w'.tasks[t] == w.tasks[t]
    requires id in w.table && id in w'.table && w.table[id].state == w'.table[id].state
    ensures Covered(w', id)
  {
    if w.table[id].state != Unknown {
      if t :| t in w.tasks && Unchecked(w.tasks[t], id, w.table[id].state) {
        assert t in w'.tasks && Unchecked(w'.tasks[t], id, w'.table[id].state);
      }
    }
  }

  /** One goroutine moves; the table stays. */
  lemma TaskMoveKeepsCovered(w: World, w': World, t: nat, id: string)
    requires Exclusive(w) && Covered(w, id) && t in w.tasks && w'.table == w.table
    requires forall u :: u in w.tasks && u != t ==> u in w'.tasks && w'.tasks[u] == w.tasks[u]
    requires id in w.table && w.table[id].state != Unknown && Unchecked(w.tasks[t], id, w.table[id].state) ==>
               || (t in w'.tasks && Unchecked(w'.tasks[t], id, w.table[id].state))
               || Decision(w', id) == Some(w.table[id].state)
    requires id in w.table ==> Decision(w', id) == Decision(w, id) || Decision(w', id) == Some(w.table[id].state)
    ensures Covered(w', id)
  {
    if id in w.table && w.table[id].state != Unknown {
      if u :| u in w.tasks && Unchecked(w.tasks[u], id, w.table[id].state) {
        if u != t {
          assert u in w'.tasks && Unchecked(w'.tasks[u], id, w'.table[id].state);
        }
      }
    }
  }

  lemma FocusKeepsDecision(w: World, t: nat, available: bool, id: string)
    requires Exclusive(w)
    ensures Decision(Next(w, Focus(t, available)), id) == Decision(w, id)
  {
    if t in w.tasks && (w.tasks[t].Focusing? || w.tasks[t].RequestFocusing?) {
      var entry := match w.tasks[t]
        case Focusing(i, to, pane) => Decided(i, to, pane, pane != "" && available)
        case RequestFocusing(i, pane) => Requested(i, pane, pane != "" && available);
      CarriedOut(w, t, entry, id);
    } else {
      assert Next(w, Focus(t, available)) == w;
    }
  }

  /** Carrying a decision out moves it from the goroutine's hand to the log. */
  lemma CarriedOut(w: World, t: nat, entry: Entry, id: string)
    requires t in w.tasks && w.holder == Some(t)
    requires match w.tasks[t]
             case Focusing(i, to, pane) => entry.Decided? && entry.id == i && entry.to == to
             case RequestFocusing(_, _) => entry.Requested?
             case _ => false
    ensures var w' := w.(tasks := w.tasks[t := Releasing], log := w.log + [entry]);
            Decision(w', id) == Decision(w, id)
  {
    LastDecidedAppend(w.log, entry, id);
  }

  lemma SpawnKeepsCovered(w: World, t: nat, id: string)
    requires Exclusive(w) && Covered(w, id)
    ensures Covered(Next(w, Spawn(t)), id)
  {
    var w' := Next(w, Spawn(t));
    if w' != w {
      TaskMoveKeepsCovered(w, w', t, id);
    }
  }

  lemma PickKeepsCovered(w: World, t: nat, choice: Option<string>, id: string)
    requires Exclusive(w) && Covered(w, id)
    ensures Covered(Next(w, Pick(t, choice)), id)
  {
    var w' := Next(w, Pick(t, choice));
    if w' != w {
      TaskMoveKeepsCovered(w, w', t, id);
    }
  }

  lemma FocusKeepsCovered(w: World, t: nat, available: bool, id: string)
    requires Exclusive(w) && Covered(w, id)
    ensures Covered(Next(w, Focus(t, available)), id)
  {
    var w' := Next(w, Focus(t, available));
    FocusKeepsDecision(w, t, available, id);
    if w' != w {
      TaskMoveKeepsCovered(w, w', t, id);
    }
  }

  lemma UnlockKeepsCovered(w: World, t: nat, id: string)
    requires Exclusive(w) && Covered(w, id)
    ensures Covered(Next(w, Unlock(t)), id)
  {
    var w' := Next(w, Unlock(t));
    if w' != w {
      TaskMoveKeepsCovered(w, w', t, id);
    }
  }

  lemma LockKeepsCovered(w: World, t: nat, id: string)
    requires Exclusive(w) && Covered(w, id)
    ensures Covered(Next(w, Lock(t)), id)
  {
    var w' := Next(w, Lock(t));
    if w' != w {
      TaskMoveKeepsCovered(w, w', t, id);
    }
  }

  lemma CheckKeepsCovered(w: World, t: nat, id: string)
    requires Exclusive(w) && Covered(w, id)
    ensures Covered(Next(w, Check(t)), id)
  {
    var w' := Next(w, Check(t));
    if w' != w {
      TaskMoveKeepsCovered(w, w', t, id);
    }
  }

  lemma NextKeepsCovered(w: World, step: Step, id: string)
    requires Exclusive(w) && Covered(w, id)
    ensures Covered(Next(w, step), id)
  {
    var w' := Next(w, step);
    match step {
      case Emitted(m, now) => EmitKeepsCovered(w, m, now, id);
      case Request(_) =>
        if id in w.table {
          TasksSurvive(w, w', id);
        }
      case Swept(_, _, _) =>
        if id in w'.table && w'.table[id].state != Unknown {
          TasksSurvive(w, w', id);
        }
      case Spawn(t) => SpawnKeepsCovered(w, t, id);
      case Lock(t) => LockKeepsCovered(w, t, id);
      case Check(t) => CheckKeepsCovered(w, t, id);
      case Pick(t, choice) => PickKeepsCovered(w, t, choice, id);
      case Focus(t, available) => FocusKeepsCovered(w, t, available, id);
      case Unlock(t) => UnlockKeepsCovered(w, t, id);
      case _ =>
        if id in w.table {
          TasksSurvive(w, w', id);
        }
    }
  }

  lemma {:induction false} RunCovered(steps: seq<Step>, id: string)
    ensures Exclusive(Run(START, steps)) && Covered(Run(START, steps), id)
    decreases |steps|
  {
    if steps == [] {
    } else {
      var w := Run(START, steps[..|steps| - 1]);
      RunCovered(steps[..|steps| - 1], id);
      NextKeepsExclusive(w, steps[|steps| - 1]);
      NextKeepsCovered(w, steps[|steps| - 1], id);
    }
  }

  /** No goroutine of a state change of this session is left; requests may be. */
  ghost predicate QuietFor(w: World, id: string) {
    forall t :: t in w.tasks ==>
      && (forall state :: !Unchecked(w.tasks[t], id, state))
      && InHand(w.tasks[t], id) == None
  }

  /**
   Last state wins, for every schedule: once no goroutine of a session's state changes is left, the
   last decision carried out for that session is for exactly the state it is in.
   */
  lemma {:induction false} LastStateWins(steps: seq<Step>, id: string)
    requires var w := Run(START, steps);
             QuietFor(w, id) && id in w.table && w.table[id].state != Unknown
    ensures var w := Run(START, steps);
            LastDecided(w.log, id) == Some(w.table[id].state)
  {
    RunCovered(steps, id);
  }

  // ----- Provenance

  /** Step `i` was an emit of the session that was accepted and reported the pane. */
  ghost predicate RegisteredAt(steps: seq<Step>, i: nat, id: string, pane: string)
    requires i < |steps|
  {
    && steps[i].Emitted? && steps[i].m.sessionId == id && steps[i].m.tmuxPane == pane
    && StateForEvent(steps[i].m.event).Some?
    && !Ignored(RecordFor(Run(START, steps[..i]).table, id, steps[i].now),
                steps[i].m.seqNo, StateForEvent(steps[i].m.event).value)
  }

  ghost predicate Registered(steps: seq<Step>, id: string, pane: string) {
    exists i :: 0 <= i < |steps| && RegisteredAt(steps, i, id, pane)
  }

  /** Step `i` subscribed `sink` with that pane, and the connection has not subscribed again since. */
  ghost predicate SubscribedAt(steps: seq<Step>, i: nat, sink: string, pane: string)
    requires i < |steps|
  {
    && steps[i].Subscribe? && steps[i].sink == sink && steps[i].activityPane == pane
    && forall k :: i < k < |steps| ==> !(steps[k].Subscribe? && steps[k].sink == sink)
  }

  /** A subscription with that pane was bound to the session: from the start, or by a later rebind. */
  ghost predicate BoundAt(steps: seq<Step>, i: nat, id: string)
    requires i < |steps| && steps[i].Subscribe?
  {
    || steps[i].bound == id
    || (steps[i].bound == "" && exists j :: i < j < |steps| && steps[j] == Rebind(steps[i].sink, id))
  }

  ghost predicate Supplied(steps: seq<Step>, id: string, pane: string) {
    exists n, i :: 0 <= i < n <= |steps| && SuppliedBy(steps[..n], i, id, pane)
  }

  /** At the end of `steps` the connection of step `i` has a subscription with that pane, bound to the session. */
  ghost predicate SuppliedBy(steps: seq<Step>, i: nat, id: string, pane: string) {
    && i < |steps| && steps[i].Subscribe? && SubscribedAt(steps, i, steps[i].sink, pane) && BoundAt(steps, i, id)
    && var subs := Run(START, steps).subs; steps[i].sink in subs && subs[steps[i].sink] == SubInfo(id, pane)
  }

  /** Where the panes in the world come from. */
  ghost predicate Traced(steps: seq<Step>, w: World) {
    && (forall id :: id in w.table && w.table[id].tmuxPane != "" ==> Registered(steps, id, w.table[id].tmuxPane))
    && (forall sink :: sink in w.subs ==> SubTraced(steps, sink, w.subs[sink]))
    && (forall t :: t in w.tasks ==> TaskTraced(steps, w.tasks[t]))
    && (forall k :: 0 <= k < |w.log| ==> EntryTraced(steps, w.log[k]))
  }

  ghost predicate SubTraced(steps: seq<Step>, sink: string, info: SubInfo) {
    exists i :: 0 <= i < |steps| && SubscribedAt(steps, i, sink, info.activityPane) && BoundAt(steps, i, info.bound)
  }

  ghost predicate PaneTraced(steps: seq<Step>, id: string, to: State, pane: string) {
    pane != "" ==> if to == Working then Supplied(steps, id, pane) else Registered(steps, id, pane)
  }

  ghost predicate TaskTraced(steps: seq<Step>, task: Task) {
    match task
    case Focusing(id, to, pane) => PaneTraced(steps, id, to, pane)
    case RequestFocusing(id, pane) => PaneTraced(steps, id, NeedsAttention, pane)
    case _ => true
  }

  ghost predicate EntryTraced(steps: seq<Step>, e: Entry) {
    match e
    case Decided(id, to, pane, _) => PaneTraced(steps, id, to, pane)
    case Requested(id, pane, _) => PaneTraced(steps, id, NeedsAttention, pane)
  }

  lemma RegisteredGrows(steps: seq<Step>, e: Step, id: string, pane: string)
    requires Registered(steps, id, pane)
    ensures Registered(steps + [e], id, pane)
  {
    var i :| 0 <= i < |steps| && RegisteredAt(steps, i, id, pane);
    assert (steps + [e])[..i] == steps[..i];
    assert RegisteredAt(steps + [e], i, id, pane);
  }

  lemma SuppliedGrows(steps: seq<Step>, e: Step, id: string, pane: string)
    requires Supplied(steps, id, pane)
    ensures Supplied(steps + [e], id, pane)
  {
    var n, i :| 0 <= i < n <= |steps| && SuppliedBy(steps[..n], i, id, pane);
    assert (steps + [e])[..n] == steps[..n];
  }

  lemma SubTracedGrows(steps: seq<Step>, e: Step, sink: string, info: SubInfo)
    requires SubTraced(steps, sink, info) && !(e.Subscribe? && e.sink == sink)
    ensures SubTraced(steps + [e], sink, info)
    ensures e.Rebind? && e.sink == sink && info.bound == "" ==> SubTraced(steps + [e], sink, info.(bound := e.id))
  {
    var all := steps + [e];
    var i :| 0 <= i < |steps| && SubscribedAt(steps, i, sink, info.activityPane) && BoundAt(steps, i, info.bound);
    assert all[i] == steps[i];
    assert SubscribedAt(all, i, sink, info.activityPane);
    if steps[i].bound != info.bound {
      var j :| i < j < |steps| && steps[j] == Rebind(sink, info.bound);
      assert all[j] == Rebind(sink, info.bound);
    }
    assert BoundAt(all, i, info.bound);
    if e.Rebind? && e.sink == sink && info.bound == "" {
      assert all[|steps|] == Rebind(sink, e.id);
      if steps[i].bound == "" {
        assert BoundAt(all, i, e.id);
      }
    }
  }

  lemma PaneTracedGrows(steps: seq<Step>, e: Step, id: string, to: State, pane: string)
    requires PaneTraced(steps, id, to, pane)
    ensures PaneTraced(steps + [e], id, to, pane)
  {
    if pane != "" {
      if to == Working {
        SuppliedGrows(steps, e, id, pane);
      } else {
        RegisteredGrows(steps, e, id, pane);
      }
    }
  }

  lemma TableTraced(steps: seq<Step>, e: Step, id: string)
    requires Traced(steps, Run(START, steps))
    ensures var t := Next(Run(START, steps), e).table;
            id in t && t[id].tmuxPane != "" ==> Registered(steps + [e], id, t[id].tmuxPane)
  {
    var w := Run(START, steps);
    var t := Next(w, e).table;
    TablePanes(w, e, id);
    if id in t && t[id].tmuxPane != "" {
      if id in w.table && t[id].tmuxPane == w.table[id].tmuxPane {
        RegisteredGrows(steps, e, id, t[id].tmuxPane);
      } else {
        assert (steps + [e])[..|steps|] == steps;
        assert RegisteredAt(steps + [e], |steps|, id, t[id].tmuxPane);
      }
    }
  }

  /** A record's pane only ever comes from an accepted emit of its session. */
  lemma TablePanes(w: World, e: Step, id: string)
    ensures var t := Next(w, e).table;
            id in t && t[id].tmuxPane != "" ==>
              || (id in w.table && t[id].tmuxPane == w.table[id].tmuxPane)
              || (e.Emitted? && e.m.sessionId == id && e.m.tmuxPane == t[id].tmuxPane
                  && StateForEvent(e.m.event).Some?
                  && !Ignored(RecordFor(w.table, id, e.now), e.m.seqNo, StateForEvent(e.m.event).value))
  {
    match e
    case Emitted(m, now) =>
    case Swept(idle, paneExists, now) =>
    case _ => assert Next(w, e).table == w.table;
  }

  lemma SubsTraced(steps: seq<Step>, e: Step, sink: string)
    requires Traced(steps, Run(START, steps))
    ensures var subs := Next(Run(START, steps), e).subs; sink in subs ==> SubTraced(steps + [e], sink, subs[sink])
  {
    var w := Run(START, steps);
    var subs := Next(w, e).subs;
    if sink in subs {
      if e.Subscribe? && e.sink == sink {
        assert SubscribedAt(steps + [e], |steps|, sink, e.activityPane);
        assert BoundAt(steps + [e], |steps|, e.bound);
      } else {
        SubTracedGrows(steps, e, sink, w.subs[sink]);
      }
    }
  }

  /** A bound subscription vouches for its pane. */
  lemma PickedIsSupplied(steps: seq<Step>, sink: string, info: SubInfo)
    requires SubTraced(steps, sink, info)
    requires var subs := Run(START, steps).subs; sink in subs && subs[sink] == info
    ensures Supplied(steps, info.bound, info.activityPane)
  {
    var i :| 0 <= i < |steps| && SubscribedAt(steps, i, sink, info.activityPane) && BoundAt(steps, i, info.bound);
    assert steps[..|steps|] == steps;
    assert SuppliedBy(steps[..|steps|], i, info.bound, info.activityPane);
  }

  lemma TaskTracedGrows(steps: seq<Step>, e: Step, task: Task)
    requires TaskTraced(steps, task)
    ensures TaskTraced(steps + [e], task)
  {
    match task
    case Focusing(id, to, pane) => PaneTracedGrows(steps, e, id, to, pane);
    case RequestFocusing(id, pane) => PaneTracedGrows(steps, e, id, NeedsAttention, pane);
    case _ =>
  }

  predicate HoldsPane(task: Task) {
    task.Focusing? || task.RequestFocusing?
  }

  /** A pane enters a goroutine in two places: from the record at the check, from a subscription at the pick. */
  lemma PaneSource(w: World, e: Step, t: nat)
    requires t in Next(w, e).tasks && HoldsPane(Next(w, e).tasks[t])
    ensures || (t in w.tasks && w.tasks[t] == Next(w, e).tasks[t])
            || (t in w.tasks && (e == Check(t) || (e.Pick? && e.t == t)))
  {
  }

  lemma CheckTraced(steps: seq<Step>, w: World, t: nat)
    requires Traced(steps, w) && t in w.tasks
    ensures TaskTraced(steps, Next(w, Check(t)).tasks[t])
  {
    match w.tasks[t]
    case Checking(id, to) =>
    case RequestReading(id) =>
    case _ => assert Next(w, Check(t)) == w;
  }

  lemma PickTraced(steps: seq<Step>, w: World, t: nat, choice: Option<string>)
    requires Traced(steps, w) && t in w.tasks && w == Run(START, steps)
    ensures TaskTraced(steps, Next(w, Pick(t, choice)).tasks[t])
  {
    if choice.Some? && choice.value in w.subs {
      PickedIsSupplied(steps, choice.value, w.subs[choice.value]);
    }
  }

  lemma NewPanes(steps: seq<Step>, w: World, e: Step, t: nat)
    requires Traced(steps, w) && t in Next(w, e).tasks && w == Run(START, steps)
    ensures TaskTraced(steps, Next(w, e).tasks[t])
  {
    if HoldsPane(Next(w, e).tasks[t]) {
      PaneSource(w, e, t);
      if e == Check(t) {
        CheckTraced(steps, w, t);
      } else if e.Pick? && e.t == t {
        PickTraced(steps, w, t, e.choice);
      }
    }
  }

  lemma TasksTraced(steps: seq<Step>, e: Step, t: nat)
    requires Traced(steps, Run(START, steps))
    ensures var tasks := Next(Run(START, steps), e).tasks; t in tasks ==> TaskTraced(steps + [e], tasks[t])
  {
    var w := Run(START, steps);
    if t in Next(w, e).tasks {
      NewPanes(steps, w, e, t);
      TaskTracedGrows(steps, e, Next(w, e).tasks[t]);
    }
  }

  lemma LogTraced(steps: seq<Step>, e: Step, k: nat)
    requires Traced(steps, Run(START, steps))
    ensures var log := Next(Run(START, steps), e).log; k < |log| ==> EntryTraced(steps + [e], log[k])
  {
    var w := Run(START, steps);
    var log := Next(w, e).log;
    if k < |log| {
      if k < |w.log| {
        assert log[k] == w.log[k];
      } else {
        assert e.Focus? && e.t in w.tasks && TaskTraced(steps, w.tasks[e.t]);
      }
      match log[k]
      case Decided(id, to, pane, _) => PaneTracedGrows(steps, e, id, to, pane);
      case Requested(id, pane, _) => PaneTracedGrows(steps, e, id, NeedsAttention, pane);
    }
  }

  lemma {:induction false} RunTraced(steps: seq<Step>)
    ensures Traced(steps, Run(START, steps))
    decreases |steps|
  {
    if steps == [] {
    } else {
      var init, e := steps[..|steps| - 1], steps[|steps| - 1];
      RunTraced(init);
      assert steps == init + [e];
      var w := Next(Run(START, init), e);
      forall id | id in w.table && w.table[id].tmuxPane != ""
        ensures Registered(steps, id, w.table[id].tmuxPane) {
        TableTraced(init, e, id);
      }
      forall sink | sink in w.subs ensures SubTraced(steps, sink, w.subs[sink]) {
        SubsTraced(init, e, sink);
      }
      forall t | t in w.tasks ensures TaskTraced(steps, w.tasks[t]) {
        TasksTraced(init, e, t);
      }
      forall k | 0 <= k < |w.log| ensures EntryTraced(steps, w.log[k]) {
        LogTraced(init, e, k);
      }
    }
  }

  /**
   Provenance, over every run: whenever tmux was asked to focus a pane for a session, that pane was
   reported by an accepted emit of the same session (on "needs attention" or an explicit request), or
   came with a subscription bound to that session (on "working").
   */
  lemma FocusedPanesAreKnown(steps: seq<Step>, k: nat)
    requires k < |Run(START, steps).log| && Run(START, steps).log[k].called
    ensures var e := Run(START, steps).log[k];
            && (e.Requested? || e.to != Working ==> Registered(steps, e.id, e.pane))
            && (e.Decided? && e.to == Working ==> Supplied(steps, e.id, e.pane))
  {
    RunTraced(steps);
    CalledHasPane(steps, k);
  }

  lemma {:induction false} CalledHasPane(steps: seq<Step>, k: nat)
    requires k < |Run(START, steps).log| && Run(START, steps).log[k].called
    ensures Run(START, steps).log[k].pane != ""
    decreases |steps|
  {
    if steps == [] {
    } else {
      var w := Run(START, steps[..|steps| - 1]);
      if k < |w.log| {
        assert Run(START, steps).log[k] == w.log[k];
        CalledHasPane(steps[..|steps| - 1], k);
      }
    }
  }

  // ----- Every run can come to rest

  /** Steps a goroutine still needs. */
  function Remaining(task: Task): nat {
    match task
    case Spawning(_, _) => 6
    case Waiting(_, _) => 5
    case Checking(_, _) => 4
    case Picking(_) => 3
    case Focusing(_, _, _) => 2
    case RequestWaiting(_) => 5
    case RequestReading(_) => 4
    case RequestFocusing(_, _) => 2
    case Releasing => 1
  }

  function Total(tasks: map<nat, Task>, n: nat): nat {
    if n == 0 then 0
    else Total(tasks, n - 1) + if n - 1 in tasks then Remaining(tasks[n - 1]) else 0
  }

  lemma {:induction false} TotalShrinks(a: map<nat, Task>, b: map<nat, Task>, t: nat, n: nat)
    requires t < n && t in a && (t in b ==> Remaining(b[t]) < Remaining(a[t]))
    requires b == a - {t} || (t in b && b == a[t := b[t]])
    ensures Total(b, n) < Total(a, n)
    decreases n
  {
    if t < n - 1 {
      TotalShrinks(a, b, t, n - 1);
    } else {
      TotalSame(a, b, n - 1);
    }
  }

  lemma {:induction false} TotalSame(a: map<nat, Task>, b: map<nat, Task>, n: nat)
    requires forall u :: u < n ==> (u in a <==> u in b) && (u in a ==> a[u] == b[u])
    ensures Total(a, n) == Total(b, n)
    decreases n
  {
    if n == 0 {
    } else {
      TotalSame(a, b, n - 1);
    }
  }

  /** The step a goroutine can always take when it is its turn. */
  ghost function StepOf(w: World, t: nat): Step
    requires t in w.tasks
  {
    match w.tasks[t]
    case Spawning(_, _) => Spawn(t)
    case Waiting(_, _) => Lock(t)
    case RequestWaiting(_) => Lock(t)
    case Checking(_, _) => Check(t)
    case RequestReading(_) => Check(t)
    case Picking(id) => Pick(t, SomeChoice(w, id))
    case Focusing(_, _, _) => Focus(t, true)
    case RequestFocusing(_, _) => Focus(t, true)
    case Releasing => Unlock(t)
  }

  ghost function SomeChoice(w: World, id: string): (choice: Option<string>)
    ensures MayPick(w, id, choice)
  {
    var candidates := set sink | sink in w.subs && Offers(w, sink, id);
    if candidates == {} then
      assert forall sink :: sink in w.subs ==> sink !in candidates;
      None
    else
      var sink :| sink in candidates;
      Some(sink)
  }

  /** The mutex holder if there is one, else any goroutine: its step is enabled and brings it closer to its end. */
  lemma StepMakesProgress(w: World, t: nat)
    requires Exclusive(w) && t in w.tasks && (w.holder.Some? ==> w.holder == Some(t))
    ensures var w' := Next(w, StepOf(w, t));
            && Exclusive(w') && w'.next == w.next && w'.table == w.table
            && Total(w'.tasks, w.next) < Total(w.tasks, w.next)
  {
    NextKeepsExclusive(w, StepOf(w, t));
    OwnStep(w, t);
    TotalShrinks(w.tasks, Next(w, StepOf(w, t)).tasks, t, w.next);
  }

  /** Only the goroutine itself moves, or goes. */
  lemma OwnStep(w: World, t: nat)
    requires Exclusive(w) && t in w.tasks && (w.holder.Some? ==> w.holder == Some(t))
    ensures var w' := Next(w, StepOf(w, t));
            && w'.next == w.next && w'.table == w.table
            && if w.tasks[t].Releasing? then w'.tasks == w.tasks - {t}
               else t in w'.tasks && w'.tasks == w.tasks[t := w'.tasks[t]]
                    && Remaining(w'.tasks[t]) < Remaining(w.tasks[t])
  {
    match w.tasks[t]
    case Checking(_, _) => CheckMoves(w, t);
    case RequestReading(_) => CheckMoves(w, t);
    case Releasing =>
    case _ =>
  }

  lemma CheckMoves(w: World, t: nat)
    requires t in w.tasks && (w.tasks[t].Checking? || w.tasks[t].RequestReading?)
    ensures var w' := Next(w, Check(t));
            && w'.next == w.next && w'.table == w.table
            && t in w'.tasks && w'.tasks == w.tasks[t := w'.tasks[t]]
            && Remaining(w'.tasks[t]) < Remaining(w.tasks[t])
  {
  }

  ghost predicate TasksOnly(steps: seq<Step>) {
    forall i :: 0 <= i < |steps| ==>
      steps[i].Spawn? || steps[i].Lock? || steps[i].Check? || steps[i].Pick? || steps[i].Focus? || steps[i].Unlock?
  }

  lemma {:induction false} RunSplit(w: World, a: seq<Step>, b: seq<Step>)
    ensures Run(w, a + b) == Run(Run(w, a), b)
    decreases |b|
  {
    if b == [] {
      assert a + b == a;
    } else {
      assert (a + b)[..|a + b| - 1] == a + b[..|b| - 1];
      RunSplit(w, a, b[..|b| - 1]);
    }
  }

  /** No deadlock: from wherever a run stands, the goroutines alone can finish, leaving the sessions as they are. */
  lemma {:induction false} ComesToRest(w: World) returns (steps: seq<Step>)
    requires Exclusive(w)
    ensures TasksOnly(steps) && Run(w, steps).tasks == map[] && Run(w, steps).table == w.table
    decreases Total(w.tasks, w.next)
  {
    if w.tasks == map[] {
      steps := [];
    } else {
      var t: nat;
      if w.holder.Some? {
        t := w.holder.value;
      } else {
        t :| t in w.tasks;
      }
      StepMakesProgress(w, t);
      var step := StepOf(w, t);
      var rest := ComesToRest(Next(w, step));
      steps := [step] + rest;
      assert [step][..0] == [];
      assert Run(w, [step]) == Next(Run(w, []), step);
      RunSplit(w, [step], rest);
    }
  }

  /** So every run extends, without further events, to one whose last decision matches every known session's state. */
  lemma EveryRunSettlesOnLastState(steps: seq<Step>) returns (more: seq<Step>)
    ensures TasksOnly(more)
    ensures var w, w' := Run(START, steps), Run(START, steps + more);
            && w'.tasks == map[] && w'.table == w.table
            && forall id :: id in w.table && w.table[id].state != Unknown ==>
                 LastDecided(w'.log, id) == Some(w.table[id].state)
  {
    RunCovered(steps, "");
    more := ComesToRest(Run(START, steps));
    RunSplit(START, steps, more);
    var w' := Run(START, steps + more);
    forall id | id in w'.table && w'.table[id].state != Unknown
      ensures LastDecided(w'.log, id) == Some(w'.table[id].state) {
      LastStateWins(steps + more, id);
    }
  }
}
