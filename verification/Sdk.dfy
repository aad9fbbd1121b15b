/**
 The activity side (packages/sdk/src/activity.ts): which state an activity believes in and which
 callbacks it fires, as a function of the messages it receives.
 */
module Sdk {
  import opened Wrappers
  import opened Wire
  import opened Seqs

  /** What a state-change callback is told about the transition. */
  datatype Info = Info(from: State, to: State)

  /** A callback invocation; callbacks are named by the order of their registration. */
  datatype Call =
    | StateCall(callback: nat, state: State, info: Info)
    | PauseCall(callback: nat)
    | ResumeCall(callback: nat)

  /** How many callbacks of each kind are registered. */
  datatype Callbacks = Callbacks(state: nat, pause: nat, resume: nat)

  function StateCalls(n: nat, state: State, info: Info): seq<Call> {
    seq(n, i requires 0 <= i => StateCall(i, state, info))
  }

  function PauseCalls(n: nat): seq<Call> {
    seq(n, i requires 0 <= i => PauseCall(i))
  }

  function ResumeCalls(n: nat): seq<Call> {
    seq(n, i requires 0 <= i => ResumeCall(i))
  }

  /** The calls made when the state becomes `next`: observers first, then the pause or resume callbacks. */
  function CallsFor(cbs: Callbacks, next: State, info: Info): seq<Call> {
    StateCalls(cbs.state, next, info) +
    match next
    case NeedsAttention => PauseCalls(cbs.pause)
    case Working => ResumeCalls(cbs.resume)
    case Unknown => []
  }

  /** A message's own account of the transition; a snapshot has none and the client's view is used. */
  function InfoOf(state: State, msg: ServerMsg): Info
    requires Carried(msg).Some?
  {
    match msg
    case StateChange(_, from, to) => Info(from, to)
    case _ => Info(state, Carried(msg).value)
  }

  function StateAfter(state: State, msg: ServerMsg): State {
    match Carried(msg)
    case Some(next) => next
    case None => state
  }

  function CallsOn(cbs: Callbacks, state: State, msg: ServerMsg): seq<Call> {
    match Carried(msg)
    case Some(next) => if next == state then [] else CallsFor(cbs, next, InfoOf(state, msg))
    case None => []
  }

  /** State and calls after a stream of messages; reconnecting in between changes neither. */
  function StateAfterAll(state: State, msgs: seq<ServerMsg>): State {
    if msgs == [] then state
    else StateAfter(StateAfterAll(state, msgs[..|msgs| - 1]), msgs[|msgs| - 1])
  }

  function CallsAfterAll(cbs: Callbacks, state: State, msgs: seq<ServerMsg>): seq<Call> {
    if msgs == [] then []
    else
      var init := msgs[..|msgs| - 1];
      CallsAfterAll(cbs, state, init) + CallsOn(cbs, StateAfterAll(state, init), msgs[|msgs| - 1])
  }

  lemma AfterOneMore(cbs: Callbacks, state: State, msgs: seq<ServerMsg>, i: nat)
    requires i < |msgs|
    ensures var before := StateAfterAll(state, msgs[..i]);
            && StateAfterAll(state, msgs[..i + 1]) == StateAfter(before, msgs[i])
            && CallsAfterAll(cbs, state, msgs[..i + 1])
               == CallsAfterAll(cbs, state, msgs[..i]) + CallsOn(cbs, before, msgs[i])
  {
    assert msgs[..i + 1][..i] == msgs[..i];
  }

  class LiveActivity {
    var state: State
    var stateCbs: nat
    var pauseCbs: nat
    var resumeCbs: nat
    /** Every callback invocation so far. */
    var calls: seq<Call>

    constructor ()
      ensures state == Unknown && Registered() == Callbacks(0, 0, 0) && calls == []
    {
      state, calls := Unknown, [];
      stateCbs, pauseCbs, resumeCbs := 0, 0, 0;
    }

    function Registered(): Callbacks
      reads this
    {
      Callbacks(stateCbs, pauseCbs, resumeCbs)
    }

    method OnPause()
      modifies `pauseCbs
      ensures Registered() == old(Registered()).(pause := old(pauseCbs) + 1)
    {
      pauseCbs := pauseCbs + 1;
    }

    method OnResume()
      modifies `resumeCbs
      ensures Registered() == old(Registered()).(resume := old(resumeCbs) + 1)
    {
      resumeCbs := resumeCbs + 1;
    }

    method OnStateChange()
      modifies `stateCbs
      ensures Registered() == old(Registered()).(state := old(stateCbs) + 1)
    {
      stateCbs := stateCbs + 1;
    }

    method ApplyState(next: State, info: Option<Info>)
      modifies `state, `calls
      ensures state == next
      ensures calls == old(calls) +
                if next == old(state) then []
                else CallsFor(Registered(), next, if info.Some? then info.value else Info(old(state), next))
    {
      if next == state {
        return;
      }
      var from := state;
      state := next;
      var change := if info.Some? then info.value else Info(from, next);
      ghost var start := calls;
      for i := 0 to stateCbs
        invariant state == next
        invariant calls == start + StateCalls(i, next, change)
      {
        calls := calls + [StateCall(i, next, change)];
      }
      ghost var observed := calls;
      if next == NeedsAttention {
        for i := 0 to pauseCbs
          invariant state == next
          invariant calls == observed + PauseCalls(i)
        {
          calls := calls + [PauseCall(i)];
        }
      } else if next == Working {
        for i := 0 to resumeCbs
          invariant state == next
          invariant calls == observed + ResumeCalls(i)
        {
          calls := calls + [ResumeCall(i)];
        }
      }
    }

    method OnMessage(msg: ServerMsg)
      modifies `state, `calls
      ensures state == StateAfter(old(state), msg)
      ensures calls == old(calls) + CallsOn(Registered(), old(state), msg)
    {
      match msg {
        case Snapshot(_, s) => ApplyState(s, None);
        case StateChange(_, from, to) => ApplyState(to, Some(Info(from, to)));
        case _ =>
      }
    }

    /** A message stream received while no callback is added. */
    method OnMessages(msgs: seq<ServerMsg>)
      modifies `state, `calls
      ensures state == StateAfterAll(old(state), msgs)
      ensures calls == old(calls) + CallsAfterAll(Registered(), old(state), msgs)
    {
      ghost var cbs, state0, made := Registered(), state, [];
      for i := 0 to |msgs|
        invariant state == StateAfterAll(state0, msgs[..i])
        invariant made == CallsAfterAll(cbs, state0, msgs[..i]) && calls == old(calls) + made
      {
        AfterOneMore(cbs, state0, msgs, i);
        ghost var more := CallsOn(cbs, state, msgs[i]);
        Regroup(old(calls), made, more);
        made := made + more;
        OnMessage(msgs[i]);
      }
      assert msgs[..|msgs|] == msgs;
    }
  }

  // ----- The pause flag

  /** The states received, in order. */
  function Received(msgs: seq<ServerMsg>): seq<State> {
    if msgs == [] then []
    else
      var last := Carried(msgs[|msgs| - 1]);
      Received(msgs[..|msgs| - 1]) + if last.Some? then [last.value] else []
  }

  /** An activity's pause flag: set by its pause callback `p`, cleared by its resume callback `r`. */
  function FlagAfter(flag: bool, calls: seq<Call>, p: nat, r: nat): bool {
    if calls == [] then flag
    else
      var last := calls[|calls| - 1];
      if last == PauseCall(p) then true
      else if last == ResumeCall(r) then false
      else FlagAfter(flag, calls[..|calls| - 1], p, r)
  }

  /** The last state that was not "unknown"; `state` if there was none. */
  function LastKnown(state: State, states: seq<State>): State {
    if states == [] then state
    else
      var last := states[|states| - 1];
      if last != Unknown then last else LastKnown(state, states[..|states| - 1])
  }

  function LastOr(state: State, states: seq<State>): State {
    if states == [] then state else states[|states| - 1]
  }

  /** The states without immediate repetitions, starting from the client's initial one. */
  function Stutterless(state: State, states: seq<State>): seq<State> {
    if states == [] then []
    else
      var init, last := states[..|states| - 1], states[|states| - 1];
      Stutterless(state, init) + if last == LastOr(state, init) then [] else [last]
  }

  /** The states a given observer was told. */
  function Observed(calls: seq<Call>, callback: nat): seq<State> {
    if calls == [] then []
    else
      var last := calls[|calls| - 1];
      Observed(calls[..|calls| - 1], callback) +
      if last.StateCall? && last.callback == callback then [last.state] else []
  }

  lemma {:induction false} FlagSplit(flag: bool, a: seq<Call>, b: seq<Call>, p: nat, r: nat)
    ensures FlagAfter(flag, a + b, p, r) == FlagAfter(FlagAfter(flag, a, p, r), b, p, r)
    decreases |b|
  {
    if b == [] {
      assert a + b == a;
    } else {
      assert (a + b)[..|a + b| - 1] == a + b[..|b| - 1];
      FlagSplit(flag, a, b[..|b| - 1], p, r);
    }
  }

  lemma {:induction false} PauseCallsSetFlag(flag: bool, n: nat, p: nat, r: nat)
    ensures FlagAfter(flag, PauseCalls(n), p, r) == (p < n || flag)
    decreases n
  {
    if n == 0 {
    } else {
      assert PauseCalls(n)[..n - 1] == PauseCalls(n - 1);
      PauseCallsSetFlag(flag, n - 1, p, r);
    }
  }

  lemma {:induction false} ResumeCallsClearFlag(flag: bool, n: nat, p: nat, r: nat)
    ensures FlagAfter(flag, ResumeCalls(n), p, r) == (r >= n && flag)
    decreases n
  {
    if n == 0 {
    } else {
      assert ResumeCalls(n)[..n - 1] == ResumeCalls(n - 1);
      ResumeCallsClearFlag(flag, n - 1, p, r);
    }
  }

  lemma {:induction false} ObservedSplit(a: seq<Call>, b: seq<Call>, callback: nat)
    ensures Observed(a + b, callback) == Observed(a, callback) + Observed(b, callback)
    decreases |b|
  {
    if b == [] {
      assert a + b == a;
    } else {
      assert (a + b)[..|a + b| - 1] == a + b[..|b| - 1];
      ObservedSplit(a, b[..|b| - 1], callback);
    }
  }

  lemma {:induction false} StateCallsKeepFlag(flag: bool, n: nat, state: State, info: Info, p: nat, r: nat)
    ensures FlagAfter(flag, StateCalls(n, state, info), p, r) == flag
    decreases n
  {
    if n == 0 {
    } else {
      assert StateCalls(n, state, info)[..n - 1] == StateCalls(n - 1, state, info);
      StateCallsKeepFlag(flag, n - 1, state, info, p, r);
    }
  }

  lemma {:induction false} StateCallsObserved(n: nat, state: State, info: Info, callback: nat)
    ensures Observed(StateCalls(n, state, info), callback) == if callback < n then [state] else []
    decreases n
  {
    if n == 0 {
    } else {
      assert StateCalls(n, state, info)[..n - 1] == StateCalls(n - 1, state, info);
      StateCallsObserved(n - 1, state, info, callback);
    }
  }

  lemma {:induction false} OtherCallsNotObserved(calls: seq<Call>, callback: nat)
    requires forall i :: 0 <= i < |calls| ==> !calls[i].StateCall?
    ensures Observed(calls, callback) == []
    decreases |calls|
  {
    if calls == [] {
    } else {
      OtherCallsNotObserved(calls[..|calls| - 1], callback);
    }
  }

  lemma CallsForEffect(cbs: Callbacks, next: State, info: Info, flag: bool, p: nat, r: nat, callback: nat)
    requires p < cbs.pause && r < cbs.resume
    ensures FlagAfter(flag, CallsFor(cbs, next, info), p, r) ==
              if next == Unknown then flag else next == NeedsAttention
    ensures Observed(CallsFor(cbs, next, info), callback) == if callback < cbs.state then [next] else []
  {
    var told := StateCalls(cbs.state, next, info);
    var rest := match next
      case NeedsAttention => PauseCalls(cbs.pause)
      case Working => ResumeCalls(cbs.resume)
      case Unknown => [];
    FlagSplit(flag, told, rest, p, r);
    StateCallsKeepFlag(flag, cbs.state, next, info, p, r);
    PauseCallsSetFlag(flag, cbs.pause, p, r);
    ResumeCallsClearFlag(flag, cbs.resume, p, r);
    ObservedSplit(told, rest, callback);
    StateCallsObserved(cbs.state, next, info, callback);
    OtherCallsNotObserved(rest, callback);
  }

  /** Every callback is called once, and only on the states it is for. */
  lemma EachCallbackOnce(cbs: Callbacks, next: State, info: Info, k: nat)
    ensures var calls := multiset(CallsFor(cbs, next, info));
            && calls[PauseCall(k)] == (if next == NeedsAttention && k < cbs.pause then 1 else 0)
            && calls[ResumeCall(k)] == (if next == Working && k < cbs.resume then 1 else 0)
            && calls[StateCall(k, next, info)] == (if k < cbs.state then 1 else 0)
  {
    StateCallsCount(cbs.state, next, info, k);
    PauseCallsCount(cbs.pause, k, next, info);
    ResumeCallsCount(cbs.resume, k, next, info);
  }

  /** First the observers, then the pause or the resume callbacks, each kind in the order of registration. */
  lemma CallsInOrder(cbs: Callbacks, next: State, info: Info, k: nat)
    ensures var calls := CallsFor(cbs, next, info);
            && |calls| == cbs.state +
                 (if next == NeedsAttention then cbs.pause else if next == Working then cbs.resume else 0)
            && (k < cbs.state ==> calls[k] == StateCall(k, next, info))
            && (next == NeedsAttention && k < cbs.pause ==> calls[cbs.state + k] == PauseCall(k))
            && (next == Working && k < cbs.resume ==> calls[cbs.state + k] == ResumeCall(k))
  {
  }

  lemma {:induction false} StateCallsCount(n: nat, state: State, info: Info, k: nat)
    ensures var calls := multiset(StateCalls(n, state, info));
            && calls[StateCall(k, state, info)] == (if k < n then 1 else 0)
            && calls[PauseCall(k)] == 0 && calls[ResumeCall(k)] == 0
    decreases n
  {
    if n == 0 {
    } else {
      StateCallsCount(n - 1, state, info, k);
      assert StateCalls(n, state, info) == StateCalls(n - 1, state, info) + [StateCall(n - 1, state, info)];
    }
  }

  lemma {:induction false} PauseCallsCount(n: nat, k: nat, state: State, info: Info)
    ensures var calls := multiset(PauseCalls(n));
            && calls[PauseCall(k)] == (if k < n then 1 else 0)
            && calls[ResumeCall(k)] == 0 && calls[StateCall(k, state, info)] == 0
    decreases n
  {
    if n == 0 {
    } else {
      PauseCallsCount(n - 1, k, state, info);
      assert PauseCalls(n) == PauseCalls(n - 1) + [PauseCall(n - 1)];
    }
  }

  lemma {:induction false} ResumeCallsCount(n: nat, k: nat, state: State, info: Info)
    ensures var calls := multiset(ResumeCalls(n));
            && calls[ResumeCall(k)] == (if k < n then 1 else 0)
            && calls[PauseCall(k)] == 0 && calls[StateCall(k, state, info)] == 0
    decreases n
  {
    if n == 0 {
    } else {
      ResumeCallsCount(n - 1, k, state, info);
      assert ResumeCalls(n) == ResumeCalls(n - 1) + [ResumeCall(n - 1)];
    }
  }

  /**
   What observers are told about a change: a state change's own account of it, and for a snapshot, which
   has none, the step from what the activity believed before.
   */
  lemma ObserversAreTold(cbs: Callbacks, state: State, id: string, from: State, to: State, k: nat)
    requires k < cbs.state && to != state
    ensures StateCall(k, to, Info(from, to)) in CallsOn(cbs, state, StateChange(id, from, to))
    ensures StateCall(k, to, Info(state, to)) in CallsOn(cbs, state, Snapshot(id, to))
  {
    assert StateCalls(cbs.state, to, Info(from, to))[k] == StateCall(k, to, Info(from, to));
    assert StateCalls(cbs.state, to, Info(state, to))[k] == StateCall(k, to, Info(state, to));
  }

  /** The client's state is the last one received. */
  lemma {:induction false} StateIsLastReceived(state: State, msgs: seq<ServerMsg>)
    ensures StateAfterAll(state, msgs) == LastOr(state, Received(msgs))
    decreases |msgs|
  {
    if msgs == [] {
    } else {
      StateIsLastReceived(state, msgs[..|msgs| - 1]);
    }
  }

  /**
   With a pause callback `p`, a resume callback `r` and an observer registered while the activity is in
   state `start`, and a flag that starts from that state and is kept by these two, over any stream of
   messages from then on: the activity is paused exactly when the last state that was not "unknown" is
   "needs attention", and the observer sees the received states without stuttering.
   */
  lemma {:induction false} PauseFlagFollowsState(cbs: Callbacks, start: State, msgs: seq<ServerMsg>,
                                                 p: nat, r: nat, observer: nat)
    requires p < cbs.pause && r < cbs.resume
    ensures FlagAfter(start == NeedsAttention, CallsAfterAll(cbs, start, msgs), p, r)
         == (LastKnown(start, Received(msgs)) == NeedsAttention)
    ensures Observed(CallsAfterAll(cbs, start, msgs), observer)
         == if observer < cbs.state then Stutterless(start, Received(msgs)) else []
    decreases |msgs|
  {
    if msgs == [] {
    } else {
      var init, msg := msgs[..|msgs| - 1], msgs[|msgs| - 1];
      PauseFlagFollowsState(cbs, start, init, p, r, observer);
      StateIsLastReceived(start, init);
      var before, state := CallsAfterAll(cbs, start, init), StateAfterAll(start, init);
      FlagSplit(start == NeedsAttention, before, CallsOn(cbs, state, msg), p, r);
      ObservedSplit(before, CallsOn(cbs, state, msg), observer);
      OneMessage(cbs, state, msg, FlagAfter(start == NeedsAttention, before, p, r), p, r, observer);
      ReceiveOne(start, Received(init), Carried(msg));
      if Carried(msg).None? {
        assert Received(msgs) == Received(init);
        assert Observed(before, observer) + [] == Observed(before, observer);
      } else {
        assert Received(msgs) == Received(init) + [Carried(msg).value];
      }
    }
  }

  /** What one message does to a pause flag and to an observer. */
  lemma OneMessage(cbs: Callbacks, state: State, msg: ServerMsg, flag: bool, p: nat, r: nat, observer: nat)
    requires p < cbs.pause && r < cbs.resume
    ensures var calls, next := CallsOn(cbs, state, msg), Carried(msg);
            && Observed(calls, observer) ==
                 (if next.None? || next.value == state || observer >= cbs.state then [] else [next.value])
            && FlagAfter(flag, calls, p, r) ==
                 if next.None? || next.value == state || next.value == Unknown then flag
                 else next.value == NeedsAttention
  {
    if Carried(msg).Some? && Carried(msg).value != state {
      CallsForEffect(cbs, Carried(msg).value, InfoOf(state, msg), flag, p, r, observer);
    }
  }

  lemma ReceiveOne(start: State, states: seq<State>, next: Option<State>)
    ensures next.Some? ==>
              && LastOr(start, states + [next.value]) == next.value
              && LastKnown(start, states + [next.value])
              == (if next.value != Unknown then next.value else LastKnown(start, states))
              && Stutterless(start, states + [next.value])
              == Stutterless(start, states) + (if next.value == LastOr(start, states) then [] else [next.value])
    ensures LastOr(start, states) != Unknown ==> LastKnown(start, states) == LastOr(start, states)
  {
    if next.Some? {
      assert (states + [next.value])[..|states|] == states;
    }
  }

  /**
   The starting value matters: a flag that starts out cleared misses a "needs attention" that came
   before `onPause` was called. No callback fires until the state changes, whatever repeats it.
   */
  lemma {:induction false} LateCallbackMissesPause(msgs: seq<ServerMsg>, later: seq<ServerMsg>, cbs: Callbacks)
    requires StateAfterAll(Unknown, msgs) == NeedsAttention
    requires forall i :: 0 <= i < |later| ==>
               Carried(later[i]) == None || Carried(later[i]) == Some(NeedsAttention)
    ensures CallsAfterAll(cbs, StateAfterAll(Unknown, msgs), later) == []
    ensures StateAfterAll(StateAfterAll(Unknown, msgs), later) == NeedsAttention
    decreases later
  {
    if later == [] {
    } else {
      LateCallbackMissesPause(msgs, later[..|later| - 1], cbs);
    }
  }
}
