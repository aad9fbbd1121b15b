/** The protocol messages the daemon's state machine works with (daemon/internal/wire/wire.go). */
module Wire {
  import opened Wrappers

  datatype State = Unknown | Working | NeedsAttention

  const EVENT_AGENT_WORKING := "agent_working"
  const EVENT_AGENT_NEEDS_ATTENTION := "agent_needs_attention"
  const EVENT_AGENT_HEARTBEAT := "agent_heartbeat"

  /** Events are absolute declarations; none declares "unknown", and other event names are rejected. */
  function StateForEvent(event: string): (declared: Option<State>)
    ensures declared != Some(Unknown)
  {
    if event == EVENT_AGENT_WORKING || event == EVENT_AGENT_HEARTBEAT then Some(Working)
    else if event == EVENT_AGENT_NEEDS_ATTENTION then Some(NeedsAttention)
    else None
  }

  datatype Emit = Emit(
    event: string,
    sessionId: string,
    seqNo: int,
    tmuxPane: string,
    tmuxSession: string,
    tmuxSocket: string)

  datatype ServerMsg =
    | Ack(ok: bool)
    | Snapshot(sessionId: string, state: State)
    | StateChange(sessionId: string, from: State, to: State)
    | Dropped(sessionId: string)

  /** The state a message brings to a client, if it is state-bearing. */
  function Carried(msg: ServerMsg): Option<State> {
    match msg
    case Snapshot(_, state) => Some(state)
    case StateChange(_, _, to) => Some(to)
    case _ => None
  }
}
