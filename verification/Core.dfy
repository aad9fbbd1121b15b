/**
 The daemon's message handlers and the janitor (daemon/internal/server/core.go, janitor.go), each
 executed without interleaving. The interleavings are the subject of `EndToEnd` and `Focus`.
 */
module Core {
  import opened Wrappers
  import opened Wire
  import opened Sessions
  import opened Bus
  import opened Tmux
  import opened Sdk
  import opened EndToEnd
  import B = BusRuns

  /** What asking tmux about its panes yields. */
  datatype Topology = NoFactory | Unavailable | ListingFailed | Listed(panes: seq<PaneInfo>)

  /** The window of the first pane with that id, "" if there is none. */
  function WindowOf(panes: seq<PaneInfo>, pane: string): string {
    if panes == [] then ""
    else if panes[0].id == pane then panes[0].windowId
    else WindowOf(panes[1..], pane)
  }

  predicate InWindow(panes: seq<PaneInfo>, pane: string, window: string) {
    exists i :: 0 <= i < |panes| && panes[i].id == pane && panes[i].windowId == window
  }

  /** A session whose Claude pane is in the window. */
  predicate Shares(s: Session, panes: seq<PaneInfo>, window: string) {
    s.tmuxPane != "" && InWindow(panes, s.tmuxPane, window)
  }

  /** The session an activity may be bound to: of those sharing its window one with the latest event. */
  ghost predicate BestSharing(t: Table, panes: seq<PaneInfo>, window: string, id: string) {
    && id in t && Shares(t[id], panes, window)
    && forall k :: k in t && Shares(t[k], panes, window) ==> t[k].lastEventAt <= t[id].lastEventAt
  }

  ghost predicate Latest(t: Table, id: string) {
    id in t && forall k :: k in t ==> t[k].lastEventAt <= t[id].lastEventAt
  }

  /**
   The result of auto-binding. With a listing: unbound exactly when the activity's pane has no window
   or no session shares it, else bound to a best sharing session. Without one: the most recent session.
   */
  ghost predicate Resolves(t: Table, topology: Topology, activityPane: string, bound: string) {
    if topology.Listed? && activityPane != "" then
      var window := WindowOf(topology.panes, activityPane);
      if window == "" || (forall id :: id in t ==> !Shares(t[id], topology.panes, window)) then bound == ""
      else BestSharing(t, topology.panes, window, bound)
    else if t == map[] then bound == ""
    else Latest(t, bound)
  }

  /** The snapshot sent for a binding; an unbound subscriber is told about the most recent session. */
  ghost predicate IsSnapshotFor(t: Table, bound: string, msg: ServerMsg) {
    if bound != "" then msg == SnapshotOf(t, bound)
    else if t == map[] then msg == Snapshot("", Unknown)
    else msg.Snapshot? && Latest(t, msg.sessionId) && msg.state == t[msg.sessionId].state
  }

  /** The mode a subscribe message asks for; an empty one means "auto", other texts are refused. */
  function ModeFor(requested: string): Option<Mode> {
    if requested == "" || requested == "auto" then Some(AUTO)
    else if requested == "any" then Some(ANY)
    else if requested == "session" then Some(SESSION)
    else None
  }

  /** What a subscription hears, by the text of the mode it asked for. */
  ghost predicate HearsAsAsked(requested: string, sessionId: string, s: SubState) {
    && (requested == "any" ==> forall id :: Matches(s, id))
    && (requested == "session" ==> forall id :: Matches(s, id) <==> sessionId == "" || id == sessionId)
    && (requested == "" || requested == "auto" ==>
          s.mode == AUTO && forall id :: Matches(s, id) <==> s.bound == "" || id == s.bound)
  }

  lemma AskedModes(requested: string, sessionId: string, bound: string, capacity: nat)
    ensures ModeFor(requested) == None <==>
              requested != "" && requested != "auto" && requested != "any" && requested != "session"
    ensures ModeFor(requested).Some? && (ModeFor(requested) != Some(AUTO) ==> bound == sessionId) ==>
              HearsAsAsked(requested, sessionId, NewSub(ModeFor(requested).value, bound, capacity))
  {
  }

  /**
   Over every run, in spite of any rebinds: whoever asked for "any" is offered everything, whoever asked
   for a session exactly that session's publications.
   */
  lemma AskedIsHeardThroughout(requested: string, sessionId: string, steps: seq<B.Step>)
    requires requested == "any" || (requested == "session" && sessionId != "")
    requires B.StaysSubscribed(steps)
    ensures ModeFor(requested).Some?
    ensures var l := B.Run(B.NewLine(ModeFor(requested).value, sessionId, SUB_BUFFER_SIZE), steps);
            && (requested == "any" ==> l.offered == B.Publications(steps, ""))
            && (requested == "session" ==> l.offered == B.Publications(steps, sessionId))
  {
    var start := B.NewLine(ModeFor(requested).value, sessionId, SUB_BUFFER_SIZE);
    if requested == "any" {
      B.AnyHearsAll(start, steps);
      assert [] + B.Publications(steps, "") == B.Publications(steps, "");
    } else {
      B.BindingIsStable(start, steps);
      assert [] + B.Publications(steps, sessionId) == B.Publications(steps, sessionId);
    }
  }

  /** What the connection is told when its subscription is bound. */
  function Told(t: Table, bound: string, alive: bool): seq<Frame> {
    if bound != "" && alive then [Direct(SnapshotOf(t, bound))] else []
  }

  /** Whatever it believed before, a client that has read these frames believes in this state. */
  ghost predicate ClientBelieves(frames: seq<Frame>, state: State) {
    forall before :: StateAfterAll(before, WireMsgs(frames)) == state
  }

  lemma SnapshotIsBelieved(frames: seq<Frame>, t: Table, id: string)
    ensures ClientBelieves(frames + [Direct(SnapshotOf(t, id))], StateOf(t, id))
  {
    forall before ensures StateAfterAll(before, WireMsgs(frames + [Direct(SnapshotOf(t, id))])) == StateOf(t, id) {
      LastSnapshotDecides(frames, t, id, before);
    }
  }

  predicate Unbound(s: SubState) {
    s.mode == AUTO && s.bound == ""
  }

  class Server {
    const reg: Registry
    const bus: Bus
    var subs: map<Sink, Sub>

    constructor ()
      ensures Valid() && subs == map[] && reg.View() == map[] && bus.subs == {}
      ensures fresh(reg) && fresh(bus)
    {
      reg := new Registry();
      bus := new Bus();
      subs := map[];
      new;
      assert reg.sessions.Keys == reg.View().Keys;
    }

    /** Each connection's subscription writes to that connection and is on the bus. */
    ghost predicate Valid()
      reads this, reg, bus
    {
      && reg.Valid()
      && (forall sink :: sink in subs ==> subs[sink].sink == sink && subs[sink] in bus.subs)
    }

    method MostRecentId() returns (id: string)
      requires reg.Valid()
      ensures if reg.View() == map[] then id == "" else Latest(reg.View(), id)
    {
      var s := reg.MostRecent();
      id := if s.Some? then s.value.id else "";
    }

    method ResolveAutoBind(activityPane: string, topology: Topology) returns (bound: string)
      requires reg.Valid()
      ensures Resolves(reg.View(), topology, activityPane, bound)
    {
      if topology.NoFactory? || activityPane == "" || topology.Unavailable? || topology.ListingFailed? {
        bound := MostRecentId();
        return;
      }
      var panes := topology.panes;
      var window := "";
      for i := 0 to |panes|
        invariant window == "" && WindowOf(panes, activityPane) == WindowOf(panes[i..], activityPane)
      {
        if panes[i].id == activityPane {
          window := panes[i].windowId;
          break;
        }
      }
      assert window == WindowOf(panes, activityPane);
      if window == "" {
        return "";
      }
      var sessions := reg.List();
      bound := PickSharing(reg.View(), sessions, panes, window);
    }

    /** Whether a pane of the listing is the session's and in the window. */
    static method SharesWindow(s: Session, panes: seq<PaneInfo>, window: string) returns (found: bool)
      ensures found <==> Shares(s, panes, window)
    {
      if s.tmuxPane == "" {
        return false;
      }
      for i := 0 to |panes|
        invariant forall k :: 0 <= k < i ==> !(panes[k].id == s.tmuxPane && panes[k].windowId == window)
      {
        if panes[i].id == s.tmuxPane && panes[i].windowId == window {
          return true;
        }
      }
      return false;
    }

    /** Collects the sharing sessions and settles on one with the latest event. */
    static method PickSharing(ghost t: Table, sessions: seq<Session>, panes: seq<PaneInfo>, window: string)
      returns (bound: string)
      requires Lists(t, sessions)
      ensures if forall id :: id in t ==> !Shares(t[id], panes, window) then bound == ""
              else BestSharing(t, panes, window, bound)
    {
      var candidates: seq<Session> := [];
      for i := 0 to |sessions|
        invariant forall s :: s in candidates <==> s in sessions[..i] && Shares(s, panes, window)
      {
        var shares := SharesWindow(sessions[i], panes, window);
        assert sessions[..i + 1] == sessions[..i] + [sessions[i]];
        if shares {
          candidates := candidates + [sessions[i]];
        }
      }
      assert sessions[..|sessions|] == sessions;
      ListedSessions(t, sessions);
      if |candidates| == 0 {
        return "";
      }
      var best := candidates[0];
      for i := 1 to |candidates|
        invariant best in candidates
        invariant forall k :: 0 <= k < i ==> candidates[k].lastEventAt <= best.lastEventAt
      {
        if candidates[i].lastEventAt > best.lastEventAt {
          best := candidates[i];
        }
      }
      bound := best.id;
      assert Shares(t[bound], panes, window);
      forall k | k in t && Shares(t[k], panes, window) ensures t[k].lastEventAt <= t[bound].lastEventAt {
        assert t[k] in candidates;
      }
    }

    /** The state of the bound session, or the most recent session for an unbound subscriber. */
    method SnapshotInto(sink: Sink, bound: string) returns (ghost msg: ServerMsg)
      requires reg.Valid()
      modifies sink`frames
      ensures IsSnapshotFor(reg.View(), bound, msg)
      ensures sink.frames == old(sink.frames) + if sink.alive then [Direct(msg)] else []
      ensures bound != "" && sink.alive ==> ClientBelieves(sink.frames, StateOf(reg.View(), bound))
    {
      var state, sid := Unknown, bound;
      if bound != "" {
        var s := reg.Get(bound);
        if s.Some? {
          state := s.value.state;
        }
      } else {
        var latest := reg.MostRecent();
        if latest.Some? {
          sid, state := latest.value.id, latest.value.state;
        }
      }
      msg := Snapshot(sid, state);
      SnapshotIsBelieved(sink.frames, reg.View(), bound);
      var _ := sink.Send(Direct(Snapshot(sid, state)));
    }

    method HandleEmit(sink: Sink, m: Emit, now: int) returns (upd: Update)
      requires Valid()
      modifies reg, reg.Records(), bus.subs`ch, bus.subs`overflow, sink`frames
      ensures Valid()
      ensures (reg.View(), upd) == ApplyTo(old(reg.View()), m, now)
      ensures sink.frames == old(sink.frames) + if sink.alive then [Direct(Ack(upd.Applied?))] else []
      ensures forall s :: s in bus.subs ==>
                s.View() ==
                  if upd.Applied? && upd.changed then
                    PublishTo(old(s.View()), m.sessionId, StateChange(m.sessionId, upd.from, upd.to))
                  else old(s.View())
    {
      upd := reg.Apply(m, now);
      label applied:
      var _ := sink.Send(Direct(Ack(upd.Applied?)));
      PublishUpdate(m.sessionId, upd);
      reg.Framed@applied();
    }

    method PublishUpdate(sessionId: string, upd: Update)
      modifies bus.subs`ch, bus.subs`overflow
      ensures forall s :: s in bus.subs ==>
                s.View() ==
                  if upd.Applied? && upd.changed then
                    PublishTo(old(s.View()), sessionId, StateChange(sessionId, upd.from, upd.to))
                  else old(s.View())
    {
      if upd.Applied? && upd.changed {
        bus.Publish(sessionId, StateChange(sessionId, upd.from, upd.to));
      }
    }

    /** The session a new subscription is bound to. */
    method BindingFor(mode: Mode, sessionId: string, activityPane: string, topology: Topology)
      returns (bound: string)
      requires Valid()
      ensures if mode == AUTO then Resolves(reg.View(), topology, activityPane, bound) else bound == sessionId
    {
      bound := sessionId;
      if mode == AUTO {
        bound := ResolveAutoBind(activityPane, topology);
      }
    }

    /** Registers the subscription, acknowledges it and answers with a snapshot. */
    method Register(sink: Sink, mode: Mode, bound: string, activityPane: string, activityId: string, title: string)
      returns (sub: Sub, ghost snapshot: ServerMsg)
      requires Valid()
      modifies this, bus, sink`frames
      ensures Valid() && fresh(sub) && subs == old(subs)[sink := sub] && bus.subs == old(bus.subs) + {sub}
      ensures sub.View() == NewSub(mode, bound, SUB_BUFFER_SIZE)
      ensures sub.activityPane == activityPane && sub.activityId == activityId && sub.title == title
      ensures IsSnapshotFor(reg.View(), bound, snapshot)
      ensures sink.frames == old(sink.frames) + if sink.alive then [Direct(Ack(true)), Direct(snapshot)] else []
      ensures bound != "" && sink.alive ==> ClientBelieves(sink.frames, StateOf(reg.View(), bound))
    {
      sub := bus.Subscribe(mode, bound, activityPane, activityId, title, sink);
      subs := subs[sink := sub];
      var _ := sink.Send(Direct(Ack(true)));
      snapshot := SnapshotInto(sink, bound);
    }

    /** An invalid mode is refused and leaves everything as it is. */
    method HandleSubscribe(sink: Sink, requestedMode: string, sessionId: string, activityPane: string,
                           activityId: string, title: string, topology: Topology)
      returns (sub: Sub?, ghost snapshot: ServerMsg)
      requires Valid()
      modifies this, bus, sink`frames
      ensures Valid()
      ensures sub == null <==>
                requestedMode != "" && requestedMode != "auto" && requestedMode != "any" && requestedMode != "session"
      ensures sub == null ==>
                && subs == old(subs) && bus.subs == old(bus.subs)
                && sink.frames == old(sink.frames) + if sink.alive then [Direct(Ack(false))] else []
      ensures sub != null ==>
                && fresh(sub) && subs == old(subs)[sink := sub] && bus.subs == old(bus.subs) + {sub}
                && sub.View() == NewSub(sub.mode, sub.boundSession, SUB_BUFFER_SIZE)
                && HearsAsAsked(requestedMode, sessionId, sub.View())
                && sub.activityPane == activityPane && sub.activityId == activityId && sub.title == title
                && (if sub.mode == AUTO then Resolves(reg.View(), topology, activityPane, sub.boundSession)
                    else sub.boundSession == sessionId)
                && IsSnapshotFor(reg.View(), sub.boundSession, snapshot)
                && sink.frames == old(sink.frames) +
                     (if sink.alive then [Direct(Ack(true)), Direct(snapshot)] else [])
                && (sub.boundSession != "" && sink.alive ==>
                      ClientBelieves(sink.frames, StateOf(reg.View(), sub.boundSession)))
    {
      snapshot := Ack(false);
      var mode := ModeFor(requestedMode);
      if mode == None {
        var _ := sink.Send(Direct(Ack(false)));
        return null, snapshot;
      }
      var bound := BindingFor(mode.value, sessionId, activityPane, topology);
      AskedModes(requestedMode, sessionId, bound, SUB_BUFFER_SIZE);
      sub, snapshot := Register(sink, mode.value, bound, activityPane, activityId, title);
      reg.Framed();
    }

    method HandleUnsubscribe(sink: Sink)
      requires Valid()
      modifies this, bus, Subs()`done
      ensures Valid() && subs == old(subs) - {sink}
      ensures bus.subs == if sink in old(subs) then old(bus.subs) - {old(subs)[sink]} else old(bus.subs)
      ensures forall s :: s in old(bus.subs) ==>
                s.View() == if sink in old(subs) && s == old(subs)[sink] then old(s.View()).(closed := true)
                            else old(s.View())
    {
      var sub: Sub? := if sink in subs then subs[sink] else null;
      subs := subs - {sink};
      bus.Unsubscribe(sub);
    }

    method Closed(sink: Sink)
      requires Valid()
      modifies this, bus, bus.subs`done
      ensures Valid() && subs == old(subs) - {sink}
      ensures bus.subs == set s | s in old(bus.subs) && s.sink != sink
      ensures forall s :: s in old(bus.subs) ==>
                s.View() == if s.sink == sink then old(s.View()).(closed := true) else old(s.View())
    {
      bus.UnregisterSink(sink);
      subs := subs - {sink};
    }

    ghost function Subs(): set<Sub>
      reads this
    {
      set sink | sink in subs :: subs[sink]
    }

    /** The unbound auto subscriptions, in some order. */
    method UnboundSubs() returns (work: seq<Sub>)
      requires Valid()
      ensures WorkList(work)
      ensures forall sink :: sink in subs && Unbound(subs[sink].View()) ==> subs[sink] in work
    {
      work := [];
      var todo := subs.Keys;
      while todo != {}
        invariant todo <= subs.Keys && WorkList(work)
        invariant forall i :: 0 <= i < |work| ==> work[i].sink !in todo
        invariant forall sink :: sink in subs && sink !in todo && Unbound(subs[sink].View()) ==> subs[sink] in work
        decreases |todo|
      {
        var sink :| sink in todo;
        todo := todo - {sink};
        if subs[sink].mode == AUTO && subs[sink].boundSession == "" {
          work := work + [subs[sink]];
        }
      }
    }

    ghost predicate WorkList(work: seq<Sub>)
      reads this, bus, work
    {
      && (forall i :: 0 <= i < |work| ==>
            && Unbound(work[i].View()) && work[i] in bus.subs
            && work[i].sink in subs && subs[work[i].sink] == work[i])
      && (forall i, j :: 0 <= i < j < |work| ==> work[i].sink != work[j].sink)
    }

    /** The subscription is bound as auto-binding resolves, and its connection, at `frames` before, was told. */
    static ghost predicate Served(t: Table, topology: Topology, sub: Sub, frames: seq<Frame>)
      reads sub, sub.sink
    {
      && Resolves(t, topology, sub.activityPane, sub.boundSession)
      && sub.sink.frames == frames + Told(t, sub.boundSession, sub.sink.alive)
      && (sub.boundSession != "" && sub.sink.alive ==>
            ClientBelieves(sub.sink.frames, StateOf(t, sub.boundSession)))
    }

    static ghost function Sinks(work: seq<Sub>): set<Sink> {
      set i | 0 <= i < |work| :: work[i].sink
    }

    /**
     Every unbound auto subscription takes what auto-binding resolves to and is told that session's
     state - so afterwards none is left that has a candidate - and nothing else is touched. The panes
     are listed anew for each of them.
     */
    method RebindUnbound(hasFactory: bool, topologyAt: nat -> Topology) returns (work: seq<Sub>)
      requires Valid()
      modifies Subs()`boundSession, subs.Keys`frames
      ensures Valid()
      ensures !hasFactory ==> work == []
      ensures hasFactory ==>
                forall sink :: sink in subs && Unbound(old(subs[sink].View())) ==> subs[sink] in work
      ensures forall i :: 0 <= i < |work| ==>
                && work[i].sink in subs && subs[work[i].sink] == work[i] && Unbound(old(work[i].View()))
                && Served(reg.View(), topologyAt(i), work[i], old(work[i].sink.frames))
      ensures forall sink :: sink in subs && subs[sink] !in work ==>
                subs[sink].View() == old(subs[sink].View()) && sink.frames == old(sink.frames)
    {
      work := [];
      if !hasFactory {
        return;
      }
      work := UnboundSubs();
      ghost var t := reg.View();
      label listed:
      RebindWork(t, work, topologyAt);
      reg.Framed@listed();
      assert reg.View() == t;
    }

    method RebindWork(ghost t: Table, work: seq<Sub>, topologyAt: nat -> Topology)
      requires reg.Valid() && reg.View() == t
      requires forall i :: 0 <= i < |work| ==> work[i] in bus.subs && work[i].boundSession == ""
      requires forall i, j :: 0 <= i < j < |work| ==> work[i].sink != work[j].sink
      modifies work`boundSession, Sinks(work)`frames
      ensures forall i :: 0 <= i < |work| ==> Served(t, topologyAt(i), work[i], old(work[i].sink.frames))
    {
      label start:
      for i := 0 to |work|
        invariant forall k :: 0 <= k < i ==> Served(t, topologyAt(k), work[k], old(work[k].sink.frames))
        invariant forall k :: i <= k < |work| ==>
                    work[k].boundSession == "" && work[k].sink.frames == old(work[k].sink.frames)
      {
        reg.Framed@start();
        assert forall k :: 0 <= k < |work| && k != i ==> work[k].sink != work[i].sink;
        RebindOne(t, work[i], topologyAt(i));
      }
    }

    method RebindOne(ghost t: Table, sub: Sub, topology: Topology)
      requires reg.Valid() && sub in bus.subs && reg.View() == t && sub.boundSession == ""
      modifies sub`boundSession, sub.sink`frames
      ensures Served(t, topology, sub, old(sub.sink.frames))
    {
      var sid := ResolveAutoBind(sub.activityPane, topology);
      if sid != "" {
        BindAndTell(t, sub, sid);
      }
    }

    method BindAndTell(ghost t: Table, sub: Sub, sid: string)
      requires reg.Valid() && sub in bus.subs && reg.View() == t && sid != ""
      modifies sub`boundSession, sub.sink`frames
      ensures sub.View() == RebindTo(old(sub.View()), sid)
      ensures sub.sink.frames == old(sub.sink.frames) + if sub.sink.alive then [Direct(SnapshotOf(t, sid))] else []
      ensures sub.sink.alive ==> ClientBelieves(sub.sink.frames, StateOf(t, sid))
    {
      bus.Rebind(sub, sid);
      reg.Framed();
      ghost var msg := SnapshotInto(sub.sink, sid);
      reg.Framed();
    }

    /** The pane of an activity bound to the session; "" only if no bound activity has one. */
    ghost predicate IsActivityPane(sessionId: string, pane: string)
      reads this, Subs()
    {
      if pane == "" then
        forall sink :: sink in subs && subs[sink].boundSession == sessionId ==> subs[sink].activityPane == ""
      else
        exists sink :: sink in subs && subs[sink].boundSession == sessionId && subs[sink].activityPane == pane
    }

    method ActivityPaneFor(sessionId: string) returns (pane: string)
      requires Valid()
      ensures IsActivityPane(sessionId, pane)
    {
      var todo := subs.Keys;
      while todo != {}
        invariant todo <= subs.Keys
        invariant forall sink :: sink in subs && sink !in todo ==>
                    !(subs[sink].boundSession == sessionId && subs[sink].activityPane != "")
        decreases |todo|
      {
        var sink :| sink in todo;
        todo := todo - {sink};
        if subs[sink].boundSession == sessionId && subs[sink].activityPane != "" {
          return subs[sink].activityPane;
        }
      }
      return "";
    }

    /** What is done under the focus mutex for a pane; no pane, no tmux or no listing means nothing. */
    static method FocusPaneLocked(pane: string, topology: Topology, succeeds: Command -> bool)
      returns (issued: seq<Command>)
      ensures issued == FocusCommands(topology, pane, succeeds)
    {
      if pane == "" || topology.NoFactory? || topology.Unavailable? {
        return [];
      }
      var listing := if topology.Listed? then Some(topology.panes) else None;
      var ok;
      issued, ok := FocusPane(listing, pane, succeeds);
      if topology.Listed? {
        FirstPaneGetsFocus(topology.panes, pane, succeeds, issued);
      }
    }

    /** The pane that gets the focus when the session has become `to`. */
    ghost predicate IsPaneFor(sessionId: string, to: State, pane: string)
      reads this, Subs(), reg, reg.Records()
    {
      if to == NeedsAttention then sessionId in reg.View() && pane == reg.View()[sessionId].tmuxPane
      else IsActivityPane(sessionId, pane)
    }

    /**
     A change is acted upon only if it is still the session's state: attention focuses the session's own
     pane, work the pane of an activity bound to it.
     */
    method ApplyFocus(sessionId: string, to: State, hasFactory: bool, topologyOf: string -> Topology,
                      succeeds: Command -> bool) returns (issued: seq<Command>)
      requires Valid()
      ensures var t := reg.View();
              if !hasFactory || to == Unknown || sessionId !in t || t[sessionId].state != to then issued == []
              else exists pane :: IsPaneFor(sessionId, to, pane)
                     && issued == FocusCommands(topologyOf(t[sessionId].tmuxSocket), pane, succeeds)
    {
      issued := [];
      if !hasFactory {
        return;
      }
      var s := reg.Get(sessionId);
      if s.None? || s.value.state != to {
        return;
      }
      var target;
      match to {
        case NeedsAttention => target := s.value.tmuxPane;
        case Working => target := ActivityPaneFor(sessionId);
        case Unknown => return;
      }
      assert IsPaneFor(sessionId, to, target);
      issued := FocusPaneLocked(target, topologyOf(s.value.tmuxSocket), succeeds);
    }

    /** The goroutine of an accepted focus request: the session's own pane, whatever state it is in. */
    method FocusTarget(sessionId: string, topologyOf: string -> Topology, succeeds: Command -> bool)
      returns (issued: seq<Command>)
      requires Valid()
      ensures var t := reg.View();
              issued == if sessionId !in t then []
                        else FocusCommands(topologyOf(t[sessionId].tmuxSocket), t[sessionId].tmuxPane, succeeds)
    {
      issued := [];
      var s := reg.Get(sessionId);
      if s.Some? {
        issued := FocusPaneLocked(s.value.tmuxPane, topologyOf(s.value.tmuxSocket), succeeds);
      }
    }

    /**
     Whose Claude pane a focus request is for; refused for a connection that is not bound. Without tmux
     the request is acknowledged, but nothing is focused.
     */
    method HandleFocusRequest(sink: Sink, hasFactory: bool) returns (target: Option<string>)
      requires Valid()
      modifies sink`frames
      ensures var bound := sink in subs && subs[sink].boundSession != "";
              && target == (if bound && hasFactory then Some(subs[sink].boundSession) else None)
              && sink.frames == old(sink.frames) + if sink.alive then [Direct(Ack(bound))] else []
    {
      if sink !in subs || subs[sink].boundSession == "" {
        var _ := sink.Send(Direct(Ack(false)));
        return None;
      }
      target := if hasFactory then Some(subs[sink].boundSession) else None;
      var _ := sink.Send(Direct(Ack(true)));
    }
  }

  /** The commands that focus a pane, as far as they get. */
  function FocusCommands(topology: Topology, pane: string, succeeds: Command -> bool): seq<Command> {
    if pane == "" || !topology.Listed? || !(exists p :: p in topology.panes && p.id == pane) then []
    else
      var window := SelectWindow(WindowOf(topology.panes, pane));
      if succeeds(window) then [window, SelectPane(pane)] else [window]
  }

  lemma {:induction false} FirstPaneHasWindow(panes: seq<PaneInfo>, pane: string, i: nat)
    requires i < |panes| && panes[i].id == pane && forall k :: 0 <= k < i ==> panes[k].id != pane
    ensures WindowOf(panes, pane) == panes[i].windowId
  {
    if i == 0 {
    } else {
      FirstPaneHasWindow(panes[1..], pane, i - 1);
    }
  }

  /** A pane without a window is one that is not listed, or listed without one. */
  lemma {:induction false} UnlistedPaneHasNoWindow(panes: seq<PaneInfo>, pane: string)
    requires forall i :: 0 <= i < |panes| ==> panes[i].id != pane
    ensures WindowOf(panes, pane) == ""
  {
    if panes == [] {
    } else {
      UnlistedPaneHasNoWindow(panes[1..], pane);
    }
  }

  /** The pane that gets the focus is the first one with that id. */
  lemma FirstPaneGetsFocus(panes: seq<PaneInfo>, pane: string, succeeds: Command -> bool, issued: seq<Command>)
    requires pane != ""
    requires !(exists p :: p in panes && p.id == pane) ==> issued == []
    requires (exists p :: p in panes && p.id == pane) ==>
               exists i :: 0 <= i < |panes| && panes[i].id == pane
                 && (forall k :: 0 <= k < i ==> panes[k].id != pane)
                 && issued <= [SelectWindow(panes[i].windowId), SelectPane(pane)]
                 && issued != []
                 && (|issued| == 1 <==> !succeeds(SelectWindow(panes[i].windowId)))
    ensures issued == FocusCommands(Listed(panes), pane, succeeds)
  {
    if exists p :: p in panes && p.id == pane {
      var i :| 0 <= i < |panes| && panes[i].id == pane
               && (forall k :: 0 <= k < i ==> panes[k].id != pane)
               && issued <= [SelectWindow(panes[i].windowId), SelectPane(pane)]
               && issued != []
               && (|issued| == 1 <==> !succeeds(SelectWindow(panes[i].windowId)));
      FirstPaneHasWindow(panes, pane, i);
      if |issued| == 1 {
        assert issued == [SelectWindow(panes[i].windowId)];
      } else {
        assert issued == [SelectWindow(panes[i].windowId), SelectPane(pane)];
      }
    }
  }

  lemma ListedSessions(t: Table, sessions: seq<Session>)
    requires Lists(t, sessions)
    ensures forall s :: s in sessions ==> s.id in t && t[s.id] == s
    ensures forall id :: id in t ==> t[id] in sessions
  {
  }

  /** The oracle the janitor asks: no socket or no tmux spares the session, a failing listing does not. */
  function JanitorOracle(topologyOf: string -> Topology): PaneOracle {
    (pane: string, socket: string) =>
      if socket == "" then true
      else
        match topologyOf(socket)
        case NoFactory => true
        case Unavailable => true
        case ListingFailed => false
        case Listed(panes) => exists i :: 0 <= i < |panes| && panes[i].id == pane
  }

  /** Whether tmux shows that the pane is gone - or, on a socket where it runs, does not show anything. */
  predicate CountsAsGone(topology: Topology, pane: string) {
    || topology.ListingFailed?
    || (topology.Listed? && forall i :: 0 <= i < |topology.panes| ==> topology.panes[i].id != pane)
  }

  /**
   Which sessions a sweep wipes: those with a socket and a pane, idle for too long, whose pane tmux does
   not list - among them every such session on a server whose listing fails, be its pane alive or not.
   */
  lemma SweepWipesIff(t: Table, topologyOf: string -> Topology, idle: int, now: int, id: string)
    requires id in t && t[id].state != Unknown
    ensures var s := t[id];
            Swept(t, idle, Some(JanitorOracle(topologyOf)), now)[id].state == Unknown
            <==> idle > 0 && now - s.lastEventAt > idle && s.tmuxPane != "" && s.tmuxSocket != ""
                 && CountsAsGone(topologyOf(s.tmuxSocket), s.tmuxPane)
  {
    var s := t[id];
    var topology := topologyOf(s.tmuxSocket);
    if s.tmuxSocket != "" && topology.Listed? {
      assert JanitorOracle(topologyOf)(s.tmuxPane, s.tmuxSocket)
        <==> exists i :: 0 <= i < |topology.panes| && topology.panes[i].id == s.tmuxPane;
    }
  }

  function PublishAll(s: SubState, ps: seq<Publication>): SubState
    decreases |ps|
  {
    if ps == [] then s
    else
      var last := ps[|ps| - 1];
      PublishTo(PublishAll(s, ps[..|ps| - 1]), last.id, last.msg)
  }

  /** What a sweep publishes: if it reaped anything, every session that is unknown after it. */
  function Announced(t: Table, order: seq<string>, reaped: nat): seq<Publication> {
    if reaped > 0 then Wiped(t, order) else []
  }

  class Janitor {
    const reg: Registry
    const bus: Bus
    var idleLimit: int

    constructor (reg: Registry, bus: Bus, idleLimit: int)
      ensures this.reg == reg && this.bus == bus && this.idleLimit == idleLimit
    {
      this.reg, this.bus, this.idleLimit := reg, bus, idleLimit;
    }

    method Sweep(topologyOf: string -> Topology, now: int) returns (reaped: nat, ghost order: seq<string>)
      requires reg.Valid()
      modifies reg.Records(), bus.subs`ch, bus.subs`overflow
      ensures reg.Valid()
      ensures reg.View() == Swept(old(reg.View()), idleLimit, Some(JanitorOracle(topologyOf)), now)
      ensures reaped == |ReapedSet(old(reg.View()), idleLimit, Some(JanitorOracle(topologyOf)), now)|
      ensures Orders(reg.View(), order)
      ensures forall s :: s in bus.subs ==>
                s.View() == PublishAll(old(s.View()), Announced(reg.View(), order, reaped))
    {
      var sessions: seq<Session>;
      reaped, sessions, order := Collect(Some(JanitorOracle(topologyOf)), now);
      label swept:
      Broadcast(reg.View(), sessions, reaped);
      reg.Framed@swept();
    }

    /** If something was reaped, every session that is unknown now is published. */
    method Broadcast(ghost t: Table, sessions: seq<Session>, reaped: nat)
      requires Lists(t, sessions)
      modifies bus.subs`ch, bus.subs`overflow
      ensures forall s :: s in bus.subs ==>
                s.View() == PublishAll(old(s.View()), Announced(t, Ids(sessions), reaped))
    {
      if reaped > 0 {
        PublishWiped(t, sessions);
      }
    }

    method Collect(paneExists: Option<PaneOracle>, now: int)
      returns (reaped: nat, sessions: seq<Session>, ghost order: seq<string>)
      requires reg.Valid()
      modifies reg.Records()
      ensures reg.Valid() && unchanged(reg)
      ensures reg.View() == Swept(old(reg.View()), idleLimit, paneExists, now)
      ensures reaped == |ReapedSet(old(reg.View()), idleLimit, paneExists, now)|
      ensures Lists(reg.View(), sessions) && order == Ids(sessions) && Orders(reg.View(), order)
    {
      reaped := reg.GC(idleLimit, paneExists, now);
      sessions := reg.List();
      order := Ids(sessions);
      IdsAreOrder(reg.View(), sessions);
    }

    method PublishWiped(ghost t: Table, sessions: seq<Session>)
      requires Lists(t, sessions)
      modifies bus.subs`ch, bus.subs`overflow
      ensures forall s :: s in bus.subs ==> s.View() == PublishAll(old(s.View()), Wiped(t, Ids(sessions)))
    {
      ghost var order := Ids(sessions);
      for i := 0 to |sessions|
        invariant forall s :: s in bus.subs ==> s.View() == PublishAll(old(s.View()), Wiped(t, order[..i]))
      {
        WipedStep(t, order, i);
        if sessions[i].state == Unknown {
          bus.Publish(sessions[i].id, Snapshot(sessions[i].id, Unknown));
        }
      }
      assert order[..|order|] == order;
    }
  }

  function Ids(sessions: seq<Session>): seq<string> {
    seq(|sessions|, i requires 0 <= i < |sessions| => sessions[i].id)
  }

  lemma IdsAreOrder(t: Table, sessions: seq<Session>)
    requires Lists(t, sessions)
    ensures Orders(t, Ids(sessions))
  {
    forall id ensures id in Ids(sessions) <==> id in t {
      if id in t {
        var i :| 0 <= i < |sessions| && sessions[i].id == id;
        assert Ids(sessions)[i] == id;
      }
    }
  }

  lemma WipedStep(t: Table, order: seq<string>, i: nat)
    requires i < |order|
    ensures var more := if order[i] in t && t[order[i]].state == Unknown
                        then [Publication(order[i], Snapshot(order[i], Unknown))] else [];
            && Wiped(t, order[..i + 1]) == Wiped(t, order[..i]) + more
            && forall s :: PublishAll(s, Wiped(t, order[..i]) + more)
                        == if more == [] then PublishAll(s, Wiped(t, order[..i]))
                           else PublishTo(PublishAll(s, Wiped(t, order[..i])), order[i], Snapshot(order[i], Unknown))
  {
    assert order[..i + 1][..i] == order[..i];
    var ps := Wiped(t, order[..i]);
    if order[i] in t && t[order[i]].state == Unknown {
      assert (ps + [Publication(order[i], Snapshot(order[i], Unknown))])[..|ps|] == ps;
    } else {
      assert ps + [] == ps;
    }
  }

  /** For a subscription bound to one session a sweep is one publication: "unknown", if that is what it became. */
  lemma {:induction false} BoundSubHearsItsWipe(s: SubState, ps: seq<Publication>)
    requires s.bound != "" && s.mode != ANY
    ensures PublishAll(s, ps).bound == s.bound && PublishAll(s, ps).mode == s.mode
    ensures |PendingFor(ps, s.bound)| <= 1 ==>
              PublishAll(s, ps) ==
                if PendingFor(ps, s.bound) == [] then s else Offer(s, PendingFor(ps, s.bound)[0])
    decreases |ps|
  {
    if ps == [] {
    } else {
      BoundSubHearsItsWipe(s, ps[..|ps| - 1]);
    }
  }

  /** So a sweep that reaped something tells a bound subscription its session's state if that is unknown now, once. */
  lemma BoundSubAfterSweep(s: SubState, t: Table, order: seq<string>)
    requires s.bound != "" && s.mode != ANY && Orders(t, order)
    ensures PublishAll(s, Wiped(t, order)) ==
              if s.bound in t && t[s.bound].state == Unknown then Offer(s, Snapshot(s.bound, Unknown)) else s
  {
    WipedFor(t, order, s.bound);
    BoundSubHearsItsWipe(s, Wiped(t, order));
  }
}
