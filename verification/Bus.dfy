/**
 The publish/subscribe bus (daemon/internal/bus/bus.go). `SubState` is the abstract state of one
 subscription together with its pump goroutine; the classes are the mutable objects. The bus methods
 run under the bus mutex; `Sub.Pump` is one atomic step of the pump's loop.
 */
module Bus {
  import opened Wire

  /**
   What reaches a client's connection: the pump's forwarded publications, its drop notice and the
   resync snapshot behind it, and the answers and snapshots the core sends directly.
   */
  datatype Frame =
    | Forward(msg: ServerMsg)
    | Notice(sessionId: string)
    | Resync(msg: ServerMsg)
    | Direct(msg: ServerMsg)

  function OnWire(f: Frame): ServerMsg {
    match f
    case Notice(id) => Dropped(id)
    case Forward(msg) => msg
    case Resync(msg) => msg
    case Direct(msg) => msg
  }

  /** Where the pump stands: it receives a message, swaps the overflow flag, and only then sends. */
  datatype PumpState =
    | Idle
    | Holding(msg: ServerMsg)
    | Notifying(msg: ServerMsg)
    | Resyncing(msg: ServerMsg)
    | Sending(msg: ServerMsg)
    | Failed(msg: ServerMsg)
    | Stopped

  datatype SubState = SubState(
    mode: Mode,
    bound: string,
    capacity: nat,
    buffer: seq<ServerMsg>,
    overflow: bool,
    pump: PumpState,
    closed: bool)

  /** The binding modes "auto", "any" and "session". */
  datatype Mode = AUTO | ANY | SESSION

  function NewSub(mode: Mode, bound: string, capacity: nat): SubState {
    SubState(mode, bound, capacity, [], false, Idle, false)
  }

  predicate Matches(s: SubState, sessionId: string) {
    s.mode == ANY || s.bound == "" || s.bound == sessionId
  }

  predicate HasRoom(s: SubState) {
    |s.buffer| < s.capacity
  }

  /** A matching publication: buffered if there is room, else dropped and flagged. */
  function Offer(s: SubState, msg: ServerMsg): SubState {
    if HasRoom(s) then s.(buffer := s.buffer + [msg]) else s.(overflow := true)
  }

  function PublishTo(s: SubState, sessionId: string, msg: ServerMsg): SubState {
    if Matches(s, sessionId) then Offer(s, msg) else s
  }

  function RebindTo(s: SubState, sessionId: string): SubState {
    if s.bound == "" then s.(bound := sessionId) else s
  }

  /** One step of the pump: its new state and the frame it sends; a dead sink takes nothing. */
  function PumpStep(s: SubState, alive: bool, snapshot: ServerMsg): (SubState, seq<Frame>) {
    match s.pump
    case Idle =>
      if s.buffer == [] then (s, [])
      else (s.(buffer := s.buffer[1..], pump := Holding(s.buffer[0])), [])
    case Holding(msg) =>
      if s.overflow then (s.(overflow := false, pump := Notifying(msg)), [])
      else (s.(pump := Sending(msg)), [])
    case Notifying(msg) =>
      (s.(pump := Resyncing(msg)), if alive then [Notice(s.bound)] else [])
    case Resyncing(msg) =>
      (s.(pump := Sending(msg)), if alive then [Resync(snapshot)] else [])
    case Sending(msg) =>
      if alive then (s.(pump := Idle), [Forward(msg)]) else (s.(pump := Failed(msg)), [])
    case _ => (s, [])
  }

  /** The pump's other choice when it is back at the top of its loop and the subscription is closed. */
  function StopStep(s: SubState): SubState {
    if s.pump == Idle && s.closed then s.(pump := Stopped) else s
  }

  // ----- The objects

  class Sink {
    var alive: bool
    var frames: seq<Frame>

    constructor ()
      ensures alive && frames == []
    {
      alive, frames := true, [];
    }

    method Send(f: Frame) returns (ok: bool)
      modifies `frames
      ensures ok == alive
      ensures frames == if alive then old(frames) + [f] else old(frames)
    {
      if alive {
        frames := frames + [f];
      }
      return alive;
    }
  }

  class Sub {
    const mode: Mode
    const activityPane: string
    const activityId: string
    const title: string
    const capacity: nat
    const sink: Sink
    var boundSession: string
    var ch: seq<ServerMsg>
    var overflow: bool
    var pump: PumpState
    var done: bool

    constructor (mode: Mode, boundSession: string, activityPane: string, activityId: string, title: string,
                 sink: Sink, capacity: nat)
      ensures View() == NewSub(mode, boundSession, capacity)
      ensures this.activityPane == activityPane && this.activityId == activityId && this.title == title
      ensures this.sink == sink
    {
      this.mode, this.boundSession, this.capacity := mode, boundSession, capacity;
      this.activityPane, this.activityId, this.title, this.sink := activityPane, activityId, title, sink;
      ch, overflow, pump, done := [], false, Idle, false;
    }

    function View(): SubState
      reads this
    {
      SubState(mode, boundSession, capacity, ch, overflow, pump, done)
    }

    predicate Hears(sessionId: string)
      reads this
      ensures Hears(sessionId) <==> Matches(View(), sessionId)
    {
      if mode == ANY || boundSession == "" then true else boundSession == sessionId
    }

    /** The non-blocking send of `Publish` to this subscription. */
    method TrySend(msg: ServerMsg)
      modifies `ch, `overflow
      ensures View() == Offer(old(View()), msg)
    {
      if |ch| < capacity {
        ch := ch + [msg];
      } else {
        overflow := true;
      }
    }

    /** The next atomic step of the pump; `snapshot` is what the resync callback reads at this moment. */
    method Pump(snapshot: ServerMsg)
      modifies this, sink`frames
      ensures View() == PumpStep(old(View()), sink.alive, snapshot).0
      ensures sink.frames == old(sink.frames) + PumpStep(old(View()), sink.alive, snapshot).1
    {
      match pump {
        case Idle =>
          if ch != [] {
            pump := Holding(ch[0]);
            ch := ch[1..];
          }
        case Holding(msg) =>
          if overflow {
            overflow := false;
            pump := Notifying(msg);
          } else {
            pump := Sending(msg);
          }
        case Notifying(msg) =>
          var _ := sink.Send(Notice(boundSession));
          pump := Resyncing(msg);
        case Resyncing(msg) =>
          var _ := sink.Send(Resync(snapshot));
          pump := Sending(msg);
        case Sending(msg) =>
          var ok := sink.Send(Forward(msg));
          pump := if ok then Idle else Failed(msg);
        case _ =>
      }
    }

    method Stop()
      modifies `pump
      ensures View() == StopStep(old(View()))
    {
      if pump == Idle && done {
        pump := Stopped;
      }
    }
  }

  const SUB_BUFFER_SIZE := 64

  class Bus {
    var subs: set<Sub>

    constructor ()
      ensures subs == {}
    {
      subs := {};
    }

    method Subscribe(mode: Mode, boundSession: string, activityPane: string, activityId: string, title: string,
                     sink: Sink) returns (s: Sub)
      modifies `subs
      ensures fresh(s) && subs == old(subs) + {s}
      ensures s.View() == NewSub(mode, boundSession, SUB_BUFFER_SIZE)
      ensures s.activityPane == activityPane && s.activityId == activityId && s.title == title && s.sink == sink
    {
      s := new Sub(mode, boundSession, activityPane, activityId, title, sink, SUB_BUFFER_SIZE);
      subs := subs + {s};
    }

    static ghost function NonNull(s: Sub?): set<Sub> {
      if s == null then {} else {s}
    }

    method Rebind(s: Sub?, sessionId: string)
      modifies NonNull(s)`boundSession
      ensures s != null ==> s.View() == if s in subs then RebindTo(old(s.View()), sessionId) else old(s.View())
    {
      if s == null || s !in subs {
        return;
      }
      if s.boundSession == "" {
        s.boundSession := sessionId;
      }
    }

    method Unsubscribe(s: Sub?)
      modifies `subs, NonNull(s)`done
      ensures subs == if s == null then old(subs) else old(subs) - {s}
      ensures s != null ==> s.View() == old(s.View()).(closed := true)
    {
      if s == null {
        return;
      }
      subs := subs - {s};
      s.done := true;
    }

    method UnregisterSink(sink: Sink)
      modifies `subs, subs`done
      ensures subs == set s | s in old(subs) && s.sink != sink
      ensures forall s :: s in old(subs) ==>
                s.View() == if s.sink == sink then old(s.View()).(closed := true) else old(s.View())
    {
      var doomed := set s | s in subs && s.sink == sink;
      var todo := doomed;
      while todo != {}
        invariant todo <= doomed && subs == old(subs) - (doomed - todo)
        invariant forall s :: s in old(subs) ==>
                    s.View() == if s in doomed - todo then old(s.View()).(closed := true) else old(s.View())
        decreases |todo|
      {
        var s :| s in todo;
        todo := todo - {s};
        Unsubscribe(s);
      }
      assert forall s :: s in old(subs) ==> (s in doomed <==> s.sink == sink);
    }

    method Publish(sessionId: string, msg: ServerMsg)
      modifies subs`ch, subs`overflow
      ensures forall s :: s in subs ==> s.View() == PublishTo(old(s.View()), sessionId, msg)
    {
      var todo := subs;
      while todo != {}
        invariant todo <= subs
        invariant forall s :: s in todo ==> s.View() == old(s.View())
        invariant forall s :: s in subs - todo ==> s.View() == PublishTo(old(s.View()), sessionId, msg)
        decreases |todo|
      {
        var s :| s in todo;
        todo := todo - {s};
        if !s.Hears(sessionId) {
          continue;
        }
        s.TrySend(msg);
      }
    }
  }
}
