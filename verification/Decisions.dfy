/**
 What the goroutines of `Focus` do, entry by entry of the log: which pane each focus is for, whether tmux
 was asked, and that no change and no request is forgotten. The conditions speak about the world as it was
 before a step - the record, the subscriptions, the goroutine - and about the entry itself.
 */
module Decisions {
  import opened Wrappers
  import opened Wire
  import opened Sessions
  import opened Focus
  import S = SessionRuns

  /** The world before step `i`. */
  function Before(steps: seq<Step>, i: nat): World
    requires i <= |steps|
  {
    Run(START, steps[..i])
  }

  lemma BeforeGrows(steps: seq<Step>, e: Step, i: nat)
    requires i <= |steps|
    ensures Before(steps + [e], i) == Before(steps, i)
  {
    assert (steps + [e])[..i] == steps[..i];
  }

  lemma BeforeLast(steps: seq<Step>, e: Step)
    ensures Before(steps + [e], |steps|) == Run(START, steps)
    ensures Run(START, steps + [e]) == Next(Run(START, steps), e)
  {
    assert (steps + [e])[..|steps|] == steps;
  }

  // ----- Where a pane comes from

  /** At step `c` goroutine `t` re-read the session and found it still in the state it was spawned for. */
  ghost predicate PassedAt(steps: seq<Step>, c: nat, t: nat, id: string, to: State) {
    && c < |steps| && steps[c] == Check(t)
    && var w := Before(steps, c);
       t in w.tasks && w.tasks[t] == Checking(id, to) && id in w.table && w.table[id].state == to
  }

  /** There the record held the pane. */
  ghost predicate AttentionAt(steps: seq<Step>, c: nat, t: nat, id: string, pane: string) {
    PassedAt(steps, c, t, id, NeedsAttention) && Before(steps, c).table[id].tmuxPane == pane
  }

  /** The pane is some bound activity's; it is empty only if none of them has one. */
  ghost predicate PaneOfBound(w: World, id: string, pane: string) {
    if pane == "" then forall sink :: sink in w.subs && w.subs[sink].bound == id ==> w.subs[sink].activityPane == ""
    else exists sink :: sink in w.subs && w.subs[sink] == SubInfo(id, pane)
  }

  /** At step `p` goroutine `t`, which had passed for "working", looked for the pane of a bound activity. */
  ghost predicate PickedAt(steps: seq<Step>, p: nat, t: nat, id: string, pane: string) {
    && p < |steps| && steps[p].Pick? && steps[p].t == t
    && t in Before(steps, p).tasks && Before(steps, p).tasks[t] == Picking(id)
    && PaneOfBound(Before(steps, p), id, pane)
    && exists c: nat :: c < p && PassedAt(steps, c, t, id, Working)
  }

  /** At step `c` goroutine `t` of a request read the session's record, which held the pane. */
  ghost predicate ReadAt(steps: seq<Step>, c: nat, t: nat, id: string, pane: string) {
    && c < |steps| && steps[c] == Check(t)
    && var w := Before(steps, c);
       t in w.tasks && w.tasks[t] == RequestReading(id) && id in w.table && w.table[id].tmuxPane == pane
  }

  ghost predicate AttentionFound(steps: seq<Step>, t: nat, id: string, pane: string) {
    exists c: nat :: AttentionAt(steps, c, t, id, pane)
  }

  ghost predicate ActivityFound(steps: seq<Step>, t: nat, id: string, pane: string) {
    exists p: nat :: PickedAt(steps, p, t, id, pane)
  }

  ghost predicate RequestFound(steps: seq<Step>, t: nat, id: string, pane: string) {
    exists c: nat :: ReadAt(steps, c, t, id, pane)
  }

  ghost predicate PassedForWork(steps: seq<Step>, t: nat, id: string) {
    exists c: nat :: PassedAt(steps, c, t, id, Working)
  }

  ghost predicate TaskExplained(steps: seq<Step>, t: nat, task: Task) {
    match task
    case Picking(id) => PassedForWork(steps, t, id)
    case Focusing(id, to, pane) =>
      || (to == NeedsAttention && AttentionFound(steps, t, id, pane))
      || (to == Working && ActivityFound(steps, t, id, pane))
    case RequestFocusing(id, pane) => RequestFound(steps, t, id, pane)
    case _ => true
  }

  lemma PassedGrows(steps: seq<Step>, e: Step, c: nat, t: nat, id: string, to: State)
    requires PassedAt(steps, c, t, id, to)
    ensures PassedAt(steps + [e], c, t, id, to)
  {
    BeforeGrows(steps, e, c);
  }

  lemma PickedGrows(steps: seq<Step>, e: Step, p: nat, t: nat, id: string, pane: string)
    requires PickedAt(steps, p, t, id, pane)
    ensures PickedAt(steps + [e], p, t, id, pane)
  {
    BeforeGrows(steps, e, p);
    var c: nat :| c < p && PassedAt(steps, c, t, id, Working);
    PassedGrows(steps, e, c, t, id, Working);
  }

  lemma TaskExplainedGrows(steps: seq<Step>, e: Step, t: nat, task: Task)
    requires TaskExplained(steps, t, task)
    ensures TaskExplained(steps + [e], t, task)
  {
    match task {
      case Picking(id) =>
        var c: nat :| PassedAt(steps, c, t, id, Working);
        PassedGrows(steps, e, c, t, id, Working);
      case Focusing(id, to, pane) =>
        if to == NeedsAttention {
          var c: nat :| AttentionAt(steps, c, t, id, pane);
          PassedGrows(steps, e, c, t, id, NeedsAttention);
          BeforeGrows(steps, e, c);
          assert AttentionAt(steps + [e], c, t, id, pane);
        } else {
          var p: nat :| PickedAt(steps, p, t, id, pane);
          PickedGrows(steps, e, p, t, id, pane);
        }
      case RequestFocusing(id, pane) =>
        var c: nat :| ReadAt(steps, c, t, id, pane);
        BeforeGrows(steps, e, c);
        assert ReadAt(steps + [e], c, t, id, pane);
      case _ =>
    }
  }

  /** Goroutines get where they need an explanation by a check or a pick only. */
  lemma TaskSource(w: World, e: Step, t: nat)
    requires t in Next(w, e).tasks
    ensures var task := Next(w, e).tasks[t];
            || task.Spawning? || task.Waiting? || task.Checking? || task.RequestWaiting? || task.RequestReading?
            || task.Releasing?
            || (t in w.tasks && (w.tasks[t] == task || e == Check(t) || (e.Pick? && e.t == t)))
  {
  }

  lemma CheckExplained(steps: seq<Step>, t: nat)
    requires var w := Run(START, steps);
             t in w.tasks && (w.tasks[t].Checking? || w.tasks[t].RequestReading?)
    ensures var all := steps + [Check(t)]; TaskExplained(all, t, Run(START, all).tasks[t])
  {
    var w, all := Run(START, steps), steps + [Check(t)];
    BeforeLast(steps, Check(t));
    match w.tasks[t] {
      case Checking(id, to) =>
        if id in w.table && w.table[id].state == to {
          assert PassedAt(all, |steps|, t, id, to);
          if to == NeedsAttention {
            assert AttentionAt(all, |steps|, t, id, w.table[id].tmuxPane);
          }
        }
      case RequestReading(id) =>
        if id in w.table {
          assert ReadAt(all, |steps|, t, id, w.table[id].tmuxPane);
        }
    }
  }

  lemma PickExplained(steps: seq<Step>, t: nat, choice: Option<string>)
    requires var w := Run(START, steps);
             && t in w.tasks && w.tasks[t].Picking? && MayPick(w, w.tasks[t].id, choice)
             && TaskExplained(steps, t, w.tasks[t])
    ensures var all := steps + [Pick(t, choice)]; TaskExplained(all, t, Run(START, all).tasks[t])
  {
    var w := Run(START, steps);
    var id := w.tasks[t].id;
    var pane := if choice.Some? then w.subs[choice.value].activityPane else "";
    PickResult(steps, t, choice);
    PickIsBound(w, id, choice);
    PickFinds(steps, t, choice, id, pane);
  }

  lemma PickResult(steps: seq<Step>, t: nat, choice: Option<string>)
    requires var w := Run(START, steps);
             t in w.tasks && w.tasks[t].Picking? && MayPick(w, w.tasks[t].id, choice)
    ensures var w, tasks := Run(START, steps), Run(START, steps + [Pick(t, choice)]).tasks;
            var pane := if choice.Some? then w.subs[choice.value].activityPane else "";
            t in tasks && tasks[t] == Focusing(w.tasks[t].id, Working, pane)
  {
    BeforeLast(steps, Pick(t, choice));
  }

  lemma PickFinds(steps: seq<Step>, t: nat, choice: Option<string>, id: string, pane: string)
    requires var w := Run(START, steps); t in w.tasks && w.tasks[t] == Picking(id) && PaneOfBound(w, id, pane)
    requires PassedForWork(steps, t, id)
    ensures ActivityFound(steps + [Pick(t, choice)], t, id, pane)
  {
    var e := Pick(t, choice);
    var c: nat :| PassedAt(steps, c, t, id, Working);
    PassedGrows(steps, e, c, t, id, Working);
    BeforeLast(steps, e);
    assert PickedAt(steps + [e], |steps|, t, id, pane);
  }

  lemma PickIsBound(w: World, id: string, choice: Option<string>)
    requires MayPick(w, id, choice)
    ensures PaneOfBound(w, id, if choice.Some? then w.subs[choice.value].activityPane else "")
  {
    if choice.Some? {
      assert w.subs[choice.value] == SubInfo(id, w.subs[choice.value].activityPane);
    } else {
      forall sink | sink in w.subs && w.subs[sink].bound == id ensures w.subs[sink].activityPane == "" {
        assert !Offers(w, sink, id);
      }
    }
  }

  ghost predicate TasksExplained(steps: seq<Step>) {
    var w := Run(START, steps);
    forall t :: t in w.tasks ==> TaskExplained(steps, t, w.tasks[t])
  }

  lemma StepExplained(steps: seq<Step>, e: Step, t: nat)
    requires TasksExplained(steps) && t in Next(Run(START, steps), e).tasks
    ensures TaskExplained(steps + [e], t, Next(Run(START, steps), e).tasks[t])
  {
    var w := Run(START, steps);
    var task := Next(w, e).tasks[t];
    TaskSource(w, e, t);
    if t in w.tasks && w.tasks[t] == task {
      TaskExplainedGrows(steps, e, t, task);
    } else if e == Check(t) && t in w.tasks && (w.tasks[t].Checking? || w.tasks[t].RequestReading?) {
      CheckExplained(steps, t);
      BeforeLast(steps, e);
    } else if e.Pick? && e.t == t && t in w.tasks && w.tasks[t].Picking? && MayPick(w, w.tasks[t].id, e.choice) {
      PickExplained(steps, t, e.choice);
      BeforeLast(steps, e);
    }
  }

  lemma {:induction false} RunExplained(steps: seq<Step>)
    ensures TasksExplained(steps)
    decreases |steps|
  {
    if steps == [] {
    } else {
      var init, e := steps[..|steps| - 1], steps[|steps| - 1];
      assert steps == init + [e];
      RunExplained(init);
      forall t | t in Run(START, steps).tasks ensures TaskExplained(steps, t, Run(START, steps).tasks[t]) {
        StepExplained(init, e, t);
      }
    }
  }

  // ----- The entries of the log

  /** Step `f` wrote entry `k` of the log: tmux was asked exactly if there was a pane and tmux was available. */
  ghost predicate WrittenAt(steps: seq<Step>, f: nat, k: nat, entry: Entry) {
    && f < |steps| && steps[f].Focus? && |Before(steps, f).log| == k
    && (entry.called <==> entry.pane != "" && steps[f].available)
    && match entry
       case Decided(id, to, pane, _) =>
         || (to == NeedsAttention && AttentionFound(steps[..f], steps[f].t, id, pane))
         || (to == Working && ActivityFound(steps[..f], steps[f].t, id, pane))
       case Requested(id, pane, _) => RequestFound(steps[..f], steps[f].t, id, pane)
  }

  ghost predicate Written(steps: seq<Step>, k: nat, entry: Entry) {
    exists f: nat :: WrittenAt(steps, f, k, entry)
  }

  lemma WrittenGrows(steps: seq<Step>, e: Step, k: nat, entry: Entry)
    requires Written(steps, k, entry)
    ensures Written(steps + [e], k, entry)
  {
    var f: nat :| WrittenAt(steps, f, k, entry);
    BeforeGrows(steps, e, f);
    assert (steps + [e])[..f] == steps[..f];
    assert WrittenAt(steps + [e], f, k, entry);
  }

  /** What carrying out a goroutine's decision or request writes. */
  function EntryOf(task: Task, available: bool): Entry
    requires task.Focusing? || task.RequestFocusing?
  {
    match task
    case Focusing(id, to, pane) => Decided(id, to, pane, pane != "" && available)
    case RequestFocusing(id, pane) => Requested(id, pane, pane != "" && available)
  }

  lemma FocusAppends(w: World, t: nat, available: bool)
    requires t in w.tasks && (w.tasks[t].Focusing? || w.tasks[t].RequestFocusing?)
    ensures Next(w, Focus(t, available)).log == w.log + [EntryOf(w.tasks[t], available)]
  {
  }

  lemma ExplainedIsWritten(steps: seq<Step>, t: nat, task: Task, available: bool)
    requires (task.Focusing? || task.RequestFocusing?) && TaskExplained(steps, t, task)
    ensures Written(steps + [Focus(t, available)], |Run(START, steps).log|, EntryOf(task, available))
  {
    var e := Focus(t, available);
    BeforeLast(steps, e);
    assert (steps + [e])[..|steps|] == steps;
    assert WrittenAt(steps + [e], |steps|, |Run(START, steps).log|, EntryOf(task, available));
  }

  lemma FocusWrites(steps: seq<Step>, e: Step, k: nat)
    requires var w := Run(START, steps);
             && e.Focus? && e.t in w.tasks && (w.tasks[e.t].Focusing? || w.tasks[e.t].RequestFocusing?)
             && k == |w.log|
    ensures k < |Run(START, steps + [e]).log|
    ensures Written(steps + [e], k, Run(START, steps + [e]).log[k])
  {
    var w := Run(START, steps);
    RunExplained(steps);
    BeforeLast(steps, e);
    FocusAppends(w, e.t, e.available);
    ExplainedIsWritten(steps, e.t, w.tasks[e.t], e.available);
  }

  /** The log grows by carrying out what a goroutine holds, and in no other way. */
  lemma LogStep(w: World, e: Step)
    ensures var w' := Next(w, e);
            || w'.log == w.log
            || (e.Focus? && e.t in w.tasks && (w.tasks[e.t].Focusing? || w.tasks[e.t].RequestFocusing?)
                && |w'.log| == |w.log| + 1 && w'.log[..|w.log|] == w.log)
  {
  }

  lemma EntryStays(steps: seq<Step>, e: Step, k: nat)
    requires k < |Run(START, steps).log|
    ensures var w, w' := Run(START, steps), Run(START, steps + [e]); k < |w'.log| && w'.log[k] == w.log[k]
  {
    BeforeLast(steps, e);
    LogStep(Run(START, steps), e);
  }

  /**
   Every entry of the log, over every run: on attention the pane is the one in the session's record when
   the goroutine re-read it, still waiting for its user; on work it is a bound activity's when the goroutine
   looked for one, and empty only if none had one; on a request it is the one in the record. tmux was asked
   exactly if there was a pane and tmux was available.
   */
  lemma {:induction false} EntriesAreWritten(steps: seq<Step>, k: nat)
    requires k < |Run(START, steps).log|
    ensures Written(steps, k, Run(START, steps).log[k])
    decreases |steps|
  {
    var init, e := steps[..|steps| - 1], steps[|steps| - 1];
    assert steps == init + [e];
    LogStep(Run(START, init), e);
    if k < |Run(START, init).log| {
      EntriesAreWritten(init, k);
    }
    EntryStep(init, e, k);
  }

  lemma EntryStep(steps: seq<Step>, e: Step, k: nat)
    requires k < |Run(START, steps + [e]).log|
    requires k < |Run(START, steps).log| ==> Written(steps, k, Run(START, steps).log[k])
    ensures Written(steps + [e], k, Run(START, steps + [e]).log[k])
  {
    if k < |Run(START, steps).log| {
      WrittenGrows(steps, e, k, Run(START, steps).log[k]);
      EntryStays(steps, e, k);
    } else {
      NewEntry(steps, e, k);
    }
  }

  lemma NewEntry(steps: seq<Step>, e: Step, k: nat)
    requires |Run(START, steps).log| <= k < |Run(START, steps + [e]).log|
    ensures Written(steps + [e], k, Run(START, steps + [e]).log[k])
  {
    BeforeLast(steps, e);
    LogStep(Run(START, steps), e);
    FocusWrites(steps, e, k);
  }

  // ----- The last focus

  /** The last decision for the session in the log. */
  ghost predicate LastAt(log: seq<Entry>, id: string, k: nat) {
    && k < |log| && log[k].Decided? && log[k].id == id
    && forall j :: k < j < |log| ==> !(log[j].Decided? && log[j].id == id)
  }

  lemma {:induction false} LastDecidedAt(log: seq<Entry>, id: string) returns (k: nat)
    requires LastDecided(log, id).Some?
    ensures LastAt(log, id, k) && log[k].to == LastDecided(log, id).value
    decreases |log|
  {
    var init, last := log[..|log| - 1], log[|log| - 1];
    if last.Decided? && last.id == id {
      k := |log| - 1;
    } else {
      k := LastDecidedAt(init, id);
      forall j | k < j < |log| ensures !(log[j].Decided? && log[j].id == id) {
        assert j < |init| ==> log[j] == init[j];
      }
    }
  }

  /** No emit that was accepted after step `c` reported another pane for the session. */
  ghost predicate NoOtherPaneSince(steps: seq<Step>, c: nat, id: string, pane: string) {
    forall j: nat, other: string :: c < j < |steps| && RegisteredAt(steps, j, id, other) ==>
      other == "" || other == pane
  }

  lemma {:induction false} PaneStays(steps: seq<Step>, c: nat, id: string, pane: string)
    requires c < |steps| && steps[c].Check?
    requires id in Before(steps, c).table && Before(steps, c).table[id].tmuxPane == pane
    requires NoOtherPaneSince(steps, c, id, pane)
    ensures id in Run(START, steps).table && Run(START, steps).table[id].tmuxPane == pane
    decreases |steps|
  {
    var init, e := steps[..|steps| - 1], steps[|steps| - 1];
    assert steps == init + [e] && steps[..|steps| - 1] == init;
    if c < |init| {
      assert init[..c] == steps[..c];
      forall j: nat, other: string | c < j < |init| && RegisteredAt(init, j, id, other)
        ensures other == "" || other == pane {
        assert init[..j] == steps[..j];
        assert RegisteredAt(steps, j, id, other);
      }
      PaneStays(init, c, id, pane);
      if RegisteredAt(steps, |steps| - 1, id, if e.Emitted? then e.m.tmuxPane else "") {
        assert e.m.tmuxPane == "" || e.m.tmuxPane == pane;
      }
      TableStep(Run(START, init), e, id);
    }
  }

  lemma TableStep(w: World, e: Step, id: string)
    requires id in w.table
    ensures id in Next(w, e).table
    ensures Next(w, e).table[id].tmuxPane == w.table[id].tmuxPane
            || (e.Emitted? && e.m.sessionId == id && e.m.tmuxPane != ""
                && e.m.tmuxPane == Next(w, e).table[id].tmuxPane && StateForEvent(e.m.event).Some?
                && !Ignored(w.table[id], e.m.seqNo, StateForEvent(e.m.event).value))
  {
    match e
    case Emitted(m, now) =>
    case Swept(idle, paneExists, now) =>
    case _ => assert Next(w, e).table == w.table;
  }

  /** The pane was the record's at a check, and is still, unless an emit accepted since reported another one. */
  ghost predicate PaneCurrent(steps: seq<Step>, id: string, pane: string) {
    exists c: nat, t: nat :: AttentionAt(steps, c, t, id, pane) && PaneCurrentSince(steps, c, id, pane)
  }

  ghost predicate PaneCurrentSince(steps: seq<Step>, c: nat, id: string, pane: string) {
    NoOtherPaneSince(steps, c, id, pane) ==>
      id in Run(START, steps).table && pane == Run(START, steps).table[id].tmuxPane
  }

  /**
   The last decision for the session is for the state it is in. On work it was for the pane of an activity
   bound to it then, on attention for the pane in its record then - which is the one in it now, unless
   another one was reported since.
   */
  ghost predicate FocusedLast(steps: seq<Step>, id: string) {
    var w := Run(START, steps);
    id in w.table && exists k: nat :: FocusedLastBy(steps, w, id, k)
  }

  ghost predicate FocusedLastBy(steps: seq<Step>, w: World, id: string, k: nat)
    requires id in w.table
  {
    && LastAt(w.log, id, k) && w.log[k].to == w.table[id].state && Written(steps, k, w.log[k])
    && (w.table[id].state == NeedsAttention ==> PaneCurrent(steps, id, w.log[k].pane))
  }

  lemma WrittenIsCurrent(steps: seq<Step>, k: nat, id: string, pane: string, called: bool)
    requires Written(steps, k, Decided(id, NeedsAttention, pane, called))
    ensures PaneCurrent(steps, id, pane)
  {
    var f: nat :| WrittenAt(steps, f, k, Decided(id, NeedsAttention, pane, called));
    var t := steps[f].t;
    var c: nat :| AttentionAt(steps[..f], c, t, id, pane);
    assert steps[..f][..c] == steps[..c];
    assert AttentionAt(steps, c, t, id, pane);
    if NoOtherPaneSince(steps, c, id, pane) {
      PaneStays(steps, c, id, pane);
    }
  }

  /** Last state wins, and with the right pane: for every schedule, once the session's goroutines are done. */
  lemma {:induction false} LastFocusWins(steps: seq<Step>, id: string)
    requires var w := Run(START, steps);
             QuietFor(w, id) && id in w.table && w.table[id].state != Unknown
    ensures FocusedLast(steps, id)
  {
    var w := Run(START, steps);
    LastStateWins(steps, id);
    var k := LastDecidedAt(w.log, id);
    EntriesAreWritten(steps, k);
    if w.table[id].state == NeedsAttention {
      WrittenIsCurrent(steps, k, id, w.log[k].pane, w.log[k].called);
    }
    assert FocusedLastBy(steps, w, id, k);
  }

  /** Every run extends, without further events, to one that has focused the right pane for every known session. */
  lemma {:induction false} EveryRunSettlesOnLastFocus(steps: seq<Step>) returns (more: seq<Step>)
    ensures TasksOnly(more)
    ensures var w, w' := Run(START, steps), Run(START, steps + more);
            && w'.tasks == map[] && w'.table == w.table
            && forall id :: id in w.table && w.table[id].state != Unknown ==> FocusedLast(steps + more, id)
  {
    more := EveryRunSettlesOnLastState(steps);
    var w := Run(START, steps + more);
    forall id | id in w.table && w.table[id].state != Unknown ensures FocusedLast(steps + more, id) {
      LastFocusWins(steps + more, id);
    }
  }

  // ----- Nothing is forgotten

  /** Step `i` was an emit that changed the session's state, and `t` the number of its goroutine. */
  ghost predicate ChangeAt(steps: seq<Step>, i: nat, t: nat, id: string, to: State) {
    && i < |steps| && steps[i].Emitted? && steps[i].m.sessionId == id && Before(steps, i).next == t
    && var upd := ApplyTo(Before(steps, i).table, steps[i].m, steps[i].now).1;
       upd.Applied? && upd.from != upd.to && upd.to == to
  }

  /** Step `i` was a focus request on a connection bound to the session, and `t` the number of its goroutine. */
  ghost predicate RequestAt(steps: seq<Step>, i: nat, t: nat, id: string) {
    && i < |steps| && steps[i].Request? && Before(steps, i).next == t && id != ""
    && var subs := Before(steps, i).subs; steps[i].sink in subs && subs[steps[i].sink].bound == id
  }

  predicate OnItsWay(task: Task, id: string, to: State) {
    || task == Spawning(id, to) || task == Waiting(id, to) || task == Checking(id, to)
    || (to == Working && task == Picking(id))
    || (task.Focusing? && task.id == id && task.to == to)
  }

  predicate RequestOnItsWay(task: Task, id: string) {
    task == RequestWaiting(id) || task == RequestReading(id) || (task.RequestFocusing? && task.id == id)
  }

  /** At step `c` the goroutine found the session in another state, and dropped itself. */
  ghost predicate GaveUpAt(steps: seq<Step>, c: nat, t: nat, id: string, to: State) {
    && c < |steps| && steps[c] == Check(t)
    && var w := Before(steps, c);
       t in w.tasks && w.tasks[t] == Checking(id, to) && (id !in w.table || w.table[id].state != to)
  }

  /** At step `c` the request found no record of its session. */
  ghost predicate RequestGaveUpAt(steps: seq<Step>, c: nat, t: nat, id: string) {
    && c < |steps| && steps[c] == Check(t)
    && var w := Before(steps, c); t in w.tasks && w.tasks[t] == RequestReading(id) && id !in w.table
  }

  /** Step `f` of the goroutine added a decision for this state to the log. */
  ghost predicate CarriedOutAt(steps: seq<Step>, f: nat, t: nat, id: string, to: State) {
    && f < |steps| && steps[f].Focus? && steps[f].t == t
    && var log, log' := Before(steps, f).log, Before(steps, f + 1).log;
       |log'| == |log| + 1 && log'[|log|].Decided? && log'[|log|].id == id && log'[|log|].to == to
  }

  ghost predicate RequestCarriedOutAt(steps: seq<Step>, f: nat, t: nat, id: string) {
    && f < |steps| && steps[f].Focus? && steps[f].t == t
    && var log, log' := Before(steps, f).log, Before(steps, f + 1).log;
       |log'| == |log| + 1 && log'[|log|].Requested? && log'[|log|].id == id
  }

  /** What has become of a change. */
  ghost predicate ChangeFollowed(steps: seq<Step>, t: nat, id: string, to: State) {
    || (t in Run(START, steps).tasks && OnItsWay(Run(START, steps).tasks[t], id, to))
    || (exists c: nat :: GaveUpAt(steps, c, t, id, to))
    || (exists f: nat :: CarriedOutAt(steps, f, t, id, to))
  }

  ghost predicate RequestFollowed(steps: seq<Step>, t: nat, id: string) {
    || (t in Run(START, steps).tasks && RequestOnItsWay(Run(START, steps).tasks[t], id))
    || (exists c: nat :: RequestGaveUpAt(steps, c, t, id))
    || (exists f: nat :: RequestCarriedOutAt(steps, f, t, id))
  }

  lemma ChangeMoves(steps: seq<Step>, e: Step, t: nat, id: string, to: State)
    requires var w := Run(START, steps); t in w.tasks && OnItsWay(w.tasks[t], id, to) && t < w.next
    requires to != Unknown
    ensures ChangeFollowed(steps + [e], t, id, to)
  {
    var w, all := Run(START, steps), steps + [e];
    BeforeLast(steps, e);
    assert all[..|steps| + 1] == all;
    if e == Check(t) && w.tasks[t].Checking? && (id !in w.table || w.table[id].state != to) {
      assert GaveUpAt(all, |steps|, t, id, to);
    } else if e.Focus? && e.t == t && w.tasks[t].Focusing? {
      assert CarriedOutAt(all, |steps|, t, id, to);
    } else {
      StaysOnItsWay(w, e, t, id, to);
    }
  }

  lemma StaysOnItsWay(w: World, e: Step, t: nat, id: string, to: State)
    requires t in w.tasks && OnItsWay(w.tasks[t], id, to) && t < w.next && to != Unknown
    requires !(e == Check(t) && w.tasks[t].Checking? && (id !in w.table || w.table[id].state != to))
    requires !(e.Focus? && e.t == t && w.tasks[t].Focusing?)
    ensures t in Next(w, e).tasks && OnItsWay(Next(w, e).tasks[t], id, to)
  {
  }

  lemma RequestMoves(steps: seq<Step>, e: Step, t: nat, id: string)
    requires var w := Run(START, steps); t in w.tasks && RequestOnItsWay(w.tasks[t], id) && t < w.next
    ensures RequestFollowed(steps + [e], t, id)
  {
    var w, all := Run(START, steps), steps + [e];
    BeforeLast(steps, e);
    assert all[..|steps| + 1] == all;
    if e == Check(t) && w.tasks[t].RequestReading? && id !in w.table {
      assert RequestGaveUpAt(all, |steps|, t, id);
    } else if e.Focus? && e.t == t && w.tasks[t].RequestFocusing? {
      assert RequestCarriedOutAt(all, |steps|, t, id);
    } else {
      RequestStaysOnItsWay(w, e, t, id);
    }
  }

  lemma RequestStaysOnItsWay(w: World, e: Step, t: nat, id: string)
    requires t in w.tasks && RequestOnItsWay(w.tasks[t], id) && t < w.next
    requires !(e == Check(t) && w.tasks[t].RequestReading? && id !in w.table)
    requires !(e.Focus? && e.t == t && w.tasks[t].RequestFocusing?)
    ensures t in Next(w, e).tasks && RequestOnItsWay(Next(w, e).tasks[t], id)
  {
  }

  lemma EndsStay(steps: seq<Step>, e: Step, i: nat)
    requires i < |steps|
    ensures (steps + [e])[i] == steps[i]
    ensures Before(steps + [e], i) == Before(steps, i) && Before(steps + [e], i + 1) == Before(steps, i + 1)
  {
    BeforeGrows(steps, e, i);
    BeforeGrows(steps, e, i + 1);
  }

  lemma ChangeStaysFollowed(steps: seq<Step>, e: Step, t: nat, id: string, to: State)
    requires ChangeFollowed(steps, t, id, to) && to != Unknown
    ensures ChangeFollowed(steps + [e], t, id, to)
  {
    RunCovered(steps, id);
    if c: nat :| GaveUpAt(steps, c, t, id, to) {
      EndsStay(steps, e, c);
      assert GaveUpAt(steps + [e], c, t, id, to);
    } else if f: nat :| CarriedOutAt(steps, f, t, id, to) {
      EndsStay(steps, e, f);
      assert CarriedOutAt(steps + [e], f, t, id, to);
    } else {
      ChangeMoves(steps, e, t, id, to);
    }
  }

  lemma RequestStaysFollowed(steps: seq<Step>, e: Step, t: nat, id: string)
    requires RequestFollowed(steps, t, id)
    ensures RequestFollowed(steps + [e], t, id)
  {
    RunCovered(steps, id);
    if c: nat :| RequestGaveUpAt(steps, c, t, id) {
      EndsStay(steps, e, c);
      assert RequestGaveUpAt(steps + [e], c, t, id);
    } else if f: nat :| RequestCarriedOutAt(steps, f, t, id) {
      EndsStay(steps, e, f);
      assert RequestCarriedOutAt(steps + [e], f, t, id);
    } else {
      RequestMoves(steps, e, t, id);
    }
  }

  /**
   No change is forgotten, over every run: its goroutine is still on its way, or found the session in
   another state, or has carried out the decision for it. Once it is gone it is one of the latter two.
   */
  lemma {:induction false} NoChangeIsForgotten(steps: seq<Step>, i: nat, t: nat, id: string, to: State)
    requires ChangeAt(steps, i, t, id, to)
    ensures ChangeFollowed(steps, t, id, to)
    decreases |steps|
  {
    var init, e := steps[..|steps| - 1], steps[|steps| - 1];
    assert steps == init + [e];
    if i < |init| {
      EndsStay(init, e, i);
      NoChangeIsForgotten(init, i, t, id, to);
      NeverUnknown(init, i);
      ChangeStaysFollowed(init, e, t, id, to);
    } else {
      BeforeLast(init, e);
      assert Run(START, steps).tasks[t] == Spawning(id, to);
    }
  }

  lemma NeverUnknown(steps: seq<Step>, i: nat)
    requires i < |steps| && steps[i].Emitted?
    ensures var upd := ApplyTo(Before(steps, i).table, steps[i].m, steps[i].now).1;
            upd.Applied? && upd.from != upd.to ==> upd.to != Unknown
  {
  }

  /** Nor is a focus request, unless its session has no record. */
  lemma {:induction false} NoRequestIsForgotten(steps: seq<Step>, i: nat, t: nat, id: string)
    requires RequestAt(steps, i, t, id)
    ensures RequestFollowed(steps, t, id)
    decreases |steps|
  {
    var init, e := steps[..|steps| - 1], steps[|steps| - 1];
    assert steps == init + [e];
    if i < |init| {
      EndsStay(init, e, i);
      NoRequestIsForgotten(init, i, t, id);
      RequestStaysFollowed(init, e, t, id);
    } else {
      BeforeLast(init, e);
      assert Run(START, steps).tasks[t] == RequestWaiting(id);
    }
  }

  // ----- Nothing is made up

  ghost predicate HasOrigin(steps: seq<Step>, t: nat, task: Task) {
    match task
    case Releasing => true
    case Picking(id) => ChangeKnown(steps, t, id, Working)
    case RequestWaiting(id) => RequestKnown(steps, t, id)
    case RequestReading(id) => RequestKnown(steps, t, id)
    case RequestFocusing(id, _) => RequestKnown(steps, t, id)
    case _ => ChangeKnown(steps, t, task.id, task.to)
  }

  ghost predicate ChangeKnown(steps: seq<Step>, t: nat, id: string, to: State) {
    exists i: nat :: ChangeAt(steps, i, t, id, to)
  }

  ghost predicate RequestKnown(steps: seq<Step>, t: nat, id: string) {
    exists i: nat :: RequestAt(steps, i, t, id)
  }

  lemma ChangeKnownGrows(steps: seq<Step>, e: Step, t: nat, id: string, to: State)
    requires ChangeKnown(steps, t, id, to)
    ensures ChangeKnown(steps + [e], t, id, to)
  {
    var i: nat :| ChangeAt(steps, i, t, id, to);
    EndsStay(steps, e, i);
    assert ChangeAt(steps + [e], i, t, id, to);
  }

  lemma RequestKnownGrows(steps: seq<Step>, e: Step, t: nat, id: string)
    requires RequestKnown(steps, t, id)
    ensures RequestKnown(steps + [e], t, id)
  {
    var i: nat :| RequestAt(steps, i, t, id);
    EndsStay(steps, e, i);
    assert RequestAt(steps + [e], i, t, id);
  }

  lemma OriginGrows(steps: seq<Step>, e: Step, t: nat, task: Task)
    requires HasOrigin(steps, t, task)
    ensures HasOrigin(steps + [e], t, task)
  {
    match task {
      case Releasing =>
      case Picking(id) => ChangeKnownGrows(steps, e, t, id, Working);
      case RequestWaiting(id) => RequestKnownGrows(steps, e, t, id);
      case RequestReading(id) => RequestKnownGrows(steps, e, t, id);
      case RequestFocusing(id, _) => RequestKnownGrows(steps, e, t, id);
      case _ => ChangeKnownGrows(steps, e, t, task.id, task.to);
    }
  }

  /** A goroutine keeps its session and state through all its stages; new ones come from emits and requests only. */
  lemma StagesKeepOrigin(w: World, e: Step, t: nat)
    requires t in Next(w, e).tasks
    ensures var task := Next(w, e).tasks[t];
            || (t == w.next && (e.Emitted? || e.Request?))
            || (t in w.tasks && (task.Releasing? || SameCause(w.tasks[t], task)))
  {
  }

  predicate IsRequest(task: Task) {
    task.RequestWaiting? || task.RequestReading? || task.RequestFocusing?
  }

  /** Both are stages of one request, or of one change. */
  predicate SameCause(a: Task, b: Task) {
    && !a.Releasing? && !b.Releasing? && a.id == b.id && (IsRequest(a) <==> IsRequest(b))
    && (!IsRequest(a) ==> (if a.Picking? then Working else a.to) == (if b.Picking? then Working else b.to))
  }

  lemma SameCauseSameOrigin(steps: seq<Step>, t: nat, a: Task, b: Task)
    requires HasOrigin(steps, t, a) && SameCause(a, b)
    ensures HasOrigin(steps, t, b)
  {
  }

  lemma NewTask(w: World, e: Step)
    requires w.next in Next(w, e).tasks && w.next !in w.tasks
    ensures match e
            case Emitted(m, now) =>
              var upd := ApplyTo(w.table, m, now).1;
              upd.Applied? && upd.from != upd.to && Next(w, e).tasks[w.next] == Spawning(m.sessionId, upd.to)
            case Request(sink) =>
              && sink in w.subs && w.subs[sink].bound != ""
              && Next(w, e).tasks[w.next] == RequestWaiting(w.subs[sink].bound)
            case _ => false
  {
  }

  lemma NewHasOrigin(steps: seq<Step>, e: Step)
    requires var w := Run(START, steps); w.next in Next(w, e).tasks && w.next !in w.tasks
    ensures var w := Run(START, steps); HasOrigin(steps + [e], w.next, Next(w, e).tasks[w.next])
  {
    var w, all := Run(START, steps), steps + [e];
    BeforeLast(steps, e);
    NewTask(w, e);
    if e.Emitted? {
      var upd := ApplyTo(w.table, e.m, e.now).1;
      assert ChangeAt(all, |steps|, w.next, e.m.sessionId, upd.to);
    } else {
      assert RequestAt(all, |steps|, w.next, w.subs[e.sink].bound);
    }
  }

  ghost predicate AllHaveOrigin(steps: seq<Step>) {
    var w := Run(START, steps);
    forall t :: t in w.tasks ==> HasOrigin(steps, t, w.tasks[t])
  }

  lemma StepKeepsOrigin(steps: seq<Step>, e: Step, t: nat)
    requires AllHaveOrigin(steps) && t in Next(Run(START, steps), e).tasks
    ensures HasOrigin(steps + [e], t, Next(Run(START, steps), e).tasks[t])
  {
    var w := Run(START, steps);
    RunCovered(steps, "");
    StagesKeepOrigin(w, e, t);
    if t in w.tasks {
      if !Next(w, e).tasks[t].Releasing? {
        OriginGrows(steps, e, t, w.tasks[t]);
        SameCauseSameOrigin(steps + [e], t, w.tasks[t], Next(w, e).tasks[t]);
      }
    } else {
      NewHasOrigin(steps, e);
    }
  }

  lemma {:induction false} RunHasOrigin(steps: seq<Step>)
    ensures AllHaveOrigin(steps)
    decreases |steps|
  {
    if steps == [] {
    } else {
      var init, e := steps[..|steps| - 1], steps[|steps| - 1];
      assert steps == init + [e];
      RunHasOrigin(init);
      forall t | t in Run(START, steps).tasks ensures HasOrigin(steps, t, Run(START, steps).tasks[t]) {
        StepKeepsOrigin(init, e, t);
      }
    }
  }

  /** Which change or request an entry of the log is for. */
  ghost predicate Caused(steps: seq<Step>, entry: Entry) {
    match entry
    case Decided(id, to, _, _) => exists t: nat :: ChangeKnown(steps, t, id, to)
    case Requested(id, _, _) => exists t: nat :: RequestKnown(steps, t, id)
  }

  /** Nothing is made up, over every run: each decision is for a change, each requested focus for a request. */
  lemma {:induction false} EntriesAreCaused(steps: seq<Step>, k: nat)
    requires k < |Run(START, steps).log|
    ensures Caused(steps, Run(START, steps).log[k])
    decreases |steps|
  {
    var init, e := steps[..|steps| - 1], steps[|steps| - 1];
    assert steps == init + [e];
    if k < |Run(START, init).log| {
      EntriesAreCaused(init, k);
    }
    CausedStep(init, e, k);
  }

  lemma CausedStep(steps: seq<Step>, e: Step, k: nat)
    requires k < |Run(START, steps + [e]).log|
    requires k < |Run(START, steps).log| ==> Caused(steps, Run(START, steps).log[k])
    ensures Caused(steps + [e], Run(START, steps + [e]).log[k])
  {
    var w, w' := Run(START, steps), Run(START, steps + [e]);
    BeforeLast(steps, e);
    LogStep(w, e);
    if k < |w.log| {
      CausedGrows(steps, e, w.log[k]);
      EntryStays(steps, e, k);
    } else {
      LastIsCaused(steps, e, k);
    }
  }

  lemma CausedGrows(steps: seq<Step>, e: Step, entry: Entry)
    requires Caused(steps, entry)
    ensures Caused(steps + [e], entry)
  {
    match entry {
      case Decided(id, to, _, _) =>
        var t: nat :| ChangeKnown(steps, t, id, to);
        ChangeKnownGrows(steps, e, t, id, to);
      case Requested(id, _, _) =>
        var t: nat :| RequestKnown(steps, t, id);
        RequestKnownGrows(steps, e, t, id);
    }
  }

  lemma LastIsCaused(steps: seq<Step>, e: Step, k: nat)
    requires var w := Run(START, steps);
             && e.Focus? && e.t in w.tasks && (w.tasks[e.t].Focusing? || w.tasks[e.t].RequestFocusing?)
             && k == |w.log|
    ensures k < |Run(START, steps + [e]).log|
    ensures Caused(steps + [e], Run(START, steps + [e]).log[k])
  {
    var w := Run(START, steps);
    RunHasOrigin(steps);
    OriginGrows(steps, e, e.t, w.tasks[e.t]);
    BeforeLast(steps, e);
    FocusAppends(w, e.t, e.available);
  }

  // ----- The registry and the subscriptions underneath

  function EventsOf(steps: seq<Step>): seq<S.Event>
    decreases |steps|
  {
    if steps == [] then []
    else
      EventsOf(steps[..|steps| - 1]) +
      match steps[|steps| - 1]
      case Emitted(m, now) => [S.Deliver(m, now)]
      case Swept(idle, paneExists, now) => [S.Collect(idle, paneExists, now)]
      case _ => []
  }

  /** The registry goes through the emits and sweeps of the run, and nothing else touches it. */
  lemma {:induction false} RegistryRuns(steps: seq<Step>)
    ensures Run(START, steps).table == S.Run(map[], EventsOf(steps))
    decreases |steps|
  {
    if steps == [] {
    } else {
      var init, step := steps[..|steps| - 1], steps[|steps| - 1];
      RegistryRuns(init);
      RegistryStep(Run(START, init), step);
      var more := EventsOf(steps)[|EventsOf(init)|..];
      assert EventsOf(steps) == EventsOf(init) + more;
      S.RunSplit(map[], EventsOf(init), more);
      if more != [] {
        assert more == [more[0]];
        S.RunOfOne(S.Run(map[], EventsOf(init)), more[0]);
      }
    }
  }

  lemma RegistryStep(w: World, step: Step)
    ensures match step
            case Emitted(m, now) => Next(w, step).table == S.Next(w.table, S.Deliver(m, now))
            case Swept(idle, paneExists, now) =>
              Next(w, step).table == S.Next(w.table, S.Collect(idle, paneExists, now))
            case _ => Next(w, step).table == w.table
  {
  }

  /** Since step `i` the connection neither subscribed nor unsubscribed. */
  ghost predicate UntouchedSince(steps: seq<Step>, i: nat, sink: string) {
    forall k :: i < k < |steps| ==>
      !(steps[k].Subscribe? && steps[k].sink == sink) && !(steps[k].Unsubscribe? && steps[k].sink == sink)
  }

  lemma SubsStep(w: World, e: Step, sink: string)
    requires !(e.Subscribe? && e.sink == sink) && !(e.Unsubscribe? && e.sink == sink)
    ensures var w' := Next(w, e);
            && (sink in w'.subs <==> sink in w.subs)
            && (sink in w.subs ==>
                  && w'.subs[sink].activityPane == w.subs[sink].activityPane
                  && w'.subs[sink].bound ==
                       if e.Rebind? && e.sink == sink && w.subs[sink].bound == "" then e.id else w.subs[sink].bound)
  {
  }

  /**
   A subscription stands until the connection subscribes anew or unsubscribes, with its pane; its binding,
   once there is one, does not change. After an unsubscription there is none.
   */
  lemma {:induction false} SubscriptionStands(steps: seq<Step>, i: nat, sink: string)
    requires i < |steps| && UntouchedSince(steps, i, sink)
    ensures steps[i].Subscribe? && steps[i].sink == sink ==>
              var subs := Run(START, steps).subs;
              && sink in subs && subs[sink].activityPane == steps[i].activityPane
              && (steps[i].bound != "" ==> subs[sink].bound == steps[i].bound)
    ensures steps[i] == Unsubscribe(sink) ==> sink !in Run(START, steps).subs
    decreases |steps|
  {
    var init, e := steps[..|steps| - 1], steps[|steps| - 1];
    if i < |init| {
      SubscriptionStands(init, i, sink);
      SubsStep(Run(START, init), e, sink);
    }
  }

  /** An unbound subscription takes the first binding it is given, and keeps it. */
  lemma {:induction false} FirstBindingStands(steps: seq<Step>, j: nat, sink: string)
    requires j < |steps| && UntouchedSince(steps, j, sink)
    requires steps[j].Rebind? && steps[j].sink == sink && steps[j].id != ""
    requires sink in Before(steps, j).subs && Before(steps, j).subs[sink].bound == ""
    ensures sink in Run(START, steps).subs && Run(START, steps).subs[sink].bound == steps[j].id
    decreases |steps|
  {
    var init, e := steps[..|steps| - 1], steps[|steps| - 1];
    SubsStep(Run(START, init), e, sink);
    if j < |init| {
      assert init[..j] == steps[..j];
      FirstBindingStands(init, j, sink);
    }
  }
}
