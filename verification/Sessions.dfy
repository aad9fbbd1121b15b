/**
 The session registry and its garbage collection (daemon/internal/session). `Table` is the abstract
 content; `Registry` is the mutable object whose methods run under the registry's mutex.
 */
module Sessions {
  import opened Wrappers
  import opened Wire

  datatype Session = Session(
    id: string,
    state: State,
    lastSeq: int,
    tmuxPane: string,
    tmuxSession: string,
    tmuxSocket: string,
    firstSeenAt: int,
    lastEventAt: int)

  type Table = map<string, Session>

  datatype Update = Rejected | Applied(session: Session, from: State, to: State, changed: bool)

  /** Whether a pane is on its tmux server, asked with (pane id, socket path). */
  type PaneOracle = (string, string) -> bool

  function Fresh(id: string, now: int): Session {
    Session(id, Unknown, 0, "", "", "", now, now)
  }

  function RecordFor(t: Table, id: string, now: int): Session {
    if id in t then t[id] else Fresh(id, now)
  }

  /** A session's state as others see it: a session nobody has heard of is unknown. */
  function StateOf(t: Table, id: string): State {
    if id in t then t[id].state else Unknown
  }

  /** Stale, or a tie that is not a fresh "working" against a held "needs attention". */
  predicate Ignored(s: Session, seqNo: int, declared: State) {
    || seqNo < s.lastSeq
    || (seqNo == s.lastSeq && !(declared == Working && s.state == NeedsAttention))
  }

  function Override(held: string, reported: string): string {
    if reported != "" then reported else held
  }

  function Absorb(s: Session, m: Emit, declared: State, now: int): Session {
    s.(state := declared,
       lastSeq := m.seqNo,
       lastEventAt := now,
       tmuxPane := Override(s.tmuxPane, m.tmuxPane),
       tmuxSession := Override(s.tmuxSession, m.tmuxSession),
       tmuxSocket := Override(s.tmuxSocket, m.tmuxSocket))
  }

  /** One emit: an unknown event is rejected; the first valid one creates the record even when it is ignored. */
  function ApplyTo(t: Table, m: Emit, now: int): (Table, Update) {
    match StateForEvent(m.event)
    case None => (t, Rejected)
    case Some(declared) =>
      var s := RecordFor(t, m.sessionId, now);
      if Ignored(s, m.seqNo, declared) then
        (t[m.sessionId := s], Applied(s, s.state, s.state, false))
      else
        var s' := Absorb(s, m, declared, now);
        (t[m.sessionId := s'], Applied(s', s.state, declared, s.state != declared))
  }

  /** Stale and its pane gone; sweeps run with a positive idle threshold only. */
  predicate Reapable(s: Session, idle: int, paneExists: Option<PaneOracle>, now: int) {
    && idle > 0
    && s.state != Unknown
    && now - s.lastEventAt > idle
    && s.tmuxPane != "" && paneExists.Some? && !paneExists.value(s.tmuxPane, s.tmuxSocket)
  }

  function Collected(s: Session, idle: int, paneExists: Option<PaneOracle>, now: int): Session {
    if Reapable(s, idle, paneExists, now) then s.(state := Unknown) else s
  }

  function ReapedSet(t: Table, idle: int, paneExists: Option<PaneOracle>, now: int): set<string> {
    set id | id in t && Reapable(t[id], idle, paneExists, now)
  }

  function Swept(t: Table, idle: int, paneExists: Option<PaneOracle>, now: int): Table {
    map id | id in t :: Collected(t[id], idle, paneExists, now)
  }

  /** Without a positive threshold a sweep reaps nothing, however dead a pane is. */
  lemma NoThresholdNoReaping(t: Table, idle: int, paneExists: Option<PaneOracle>, now: int)
    requires idle <= 0
    ensures Swept(t, idle, paneExists, now) == t && ReapedSet(t, idle, paneExists, now) == {}
  {
  }

  /** The record with a session's latest event, as the registry's `MostRecent` may return it. */
  ghost predicate IsMostRecent(t: Table, s: Session) {
    s.id in t && t[s.id] == s && forall id :: id in t ==> t[id].lastEventAt <= s.lastEventAt
  }

  class SessionRecord {
    const id: string
    var state: State
    var lastSeq: int
    var tmuxPane: string
    var tmuxSession: string
    var tmuxSocket: string
    const firstSeenAt: int
    var lastEventAt: int

    constructor (id: string, now: int)
      ensures View() == Fresh(id, now) && this.id == id
    {
      this.id := id;
      state, lastSeq := Unknown, 0;
      tmuxPane, tmuxSession, tmuxSocket := "", "", "";
      firstSeenAt, lastEventAt := now, now;
    }

    /** The transition of an emit on its record, with the ordering rule. */
    method Fold(m: Emit, newState: State, now: int) returns (upd: Update)
      modifies this
      ensures Ignored(old(View()), m.seqNo, newState) ==>
                View() == old(View()) && upd == Applied(View(), View().state, View().state, false)
      ensures !Ignored(old(View()), m.seqNo, newState) ==>
                && View() == Absorb(old(View()), m, newState, now)
                && upd == Applied(View(), old(state), newState, old(state) != newState)
    {
      if m.seqNo < lastSeq {
        return Applied(View(), state, state, false);
      }
      if m.seqNo == lastSeq && !(newState == Working && state == NeedsAttention) {
        return Applied(View(), state, state, false);
      }
      var from := state;
      lastSeq := m.seqNo;
      lastEventAt := now;
      if m.tmuxPane != "" {
        tmuxPane := m.tmuxPane;
      }
      if m.tmuxSession != "" {
        tmuxSession := m.tmuxSession;
      }
      if m.tmuxSocket != "" {
        tmuxSocket := m.tmuxSocket;
      }
      if newState != state {
        state := newState;
      }
      upd := Applied(View(), from, state, from != state);
    }

    /** The body of the sweep's loop, for this record. */
    method Collect(idle: int, paneExists: Option<PaneOracle>, now: int) returns (hit: bool)
      requires idle > 0
      modifies `state
      ensures View() == Collected(old(View()), idle, paneExists, now)
      ensures hit <==> Reapable(old(View()), idle, paneExists, now)
    {
      if state == Unknown {
        return false;
      }
      var stale := now - lastEventAt > idle;
      var paneDead := tmuxPane != "" && paneExists.Some? && !paneExists.value(tmuxPane, tmuxSocket);
      hit := stale && paneDead;
      if hit {
        state := Unknown;
      }
    }

    function View(): Session
      reads this
    {
      Session(id, state, lastSeq, tmuxPane, tmuxSession, tmuxSocket, firstSeenAt, lastEventAt)
    }
  }

  class Registry {
    var sessions: map<string, SessionRecord>

    constructor ()
      ensures Valid() && View() == map[] && fresh(Records())
    {
      sessions := map[];
    }

    /** Records are kept under their own id, so no two keys share one. */
    ghost predicate Valid()
      reads this
    {
      forall id :: id in sessions ==> sessions[id].id == id
    }

    ghost function Records(): set<SessionRecord>
      reads this
    {
      set id | id in sessions :: sessions[id]
    }

    ghost function View(): Table
      reads this, Records()
    {
      map id | id in sessions :: sessions[id].View()
    }

    /** What does not touch the records leaves the table as it is. */
    twostate lemma Framed()
      requires unchanged(this) && forall r :: r in old(Records()) ==> unchanged(r)
      ensures View() == old(View()) && Records() == old(Records()) && Valid() == old(Valid())
    {
      forall id | id in sessions ensures sessions[id].View() == old(sessions[id].View()) {
        assert sessions[id] in old(Records());
      }
    }

    /** Changing one record changes the table at its id only. */
    twostate lemma ViewAfterChange(s: SessionRecord)
      requires old(Valid()) && unchanged(this) && s.id in sessions && sessions[s.id] == s
      requires forall r :: r in old(Records()) && r != s ==> unchanged(r)
      ensures View() == old(View())[s.id := s.View()]
    {
      forall id | id in sessions && id != s.id ensures sessions[id].View() == old(sessions[id].View()) {
        assert sessions[id] in old(Records());
      }
    }

    method Apply(m: Emit, now: int) returns (upd: Update)
      requires Valid()
      modifies this, Records()
      ensures Valid() && fresh(Records() - old(Records()))
      ensures (View(), upd) == ApplyTo(old(View()), m, now)
    {
      var newState := StateForEvent(m.event);
      if newState.None? {
        return Rejected;
      }
      var s := FindOrCreate(m.sessionId, now);
      ghost var held := s.View();
      label found:
      upd := s.Fold(m, newState.value, now);
      ViewAfterChange@found(s);
      SetTwice(old(View()), m.sessionId, held, s.View());
    }

    method FindOrCreate(id: string, now: int) returns (s: SessionRecord)
      requires Valid()
      modifies this
      ensures Valid() && id in sessions && sessions[id] == s && s.id == id
      ensures fresh(Records() - old(Records())) && old(Records()) <= Records()
      ensures s.View() == RecordFor(old(View()), id, now)
      ensures View() == old(View())[id := s.View()]
    {
      if id !in sessions {
        var created := new SessionRecord(id, now);
        sessions := sessions[id := created];
      }
      s := sessions[id];
      forall r | r in old(Records()) ensures r in Records() {
        var k :| k in old(sessions) && old(sessions)[k] == r;
        assert k in sessions && sessions[k] == r;
      }
    }

    method Get(id: string) returns (s: Option<Session>)
      requires Valid()
      ensures s == if id in View() then Some(View()[id]) else None
    {
      if id !in sessions {
        return None;
      }
      return Some(sessions[id].View());
    }

    /** Visits the records in an order of its own choosing, as ranging over a Go map does. */
    method MostRecent() returns (s: Option<Session>)
      requires Valid()
      ensures s.None? <==> View() == map[]
      ensures s.Some? ==> IsMostRecent(View(), s.value)
    {
      var todo := sessions.Keys;
      var best: SessionRecord? := null;
      while todo != {}
        invariant todo <= sessions.Keys
        invariant best == null <==> todo == sessions.Keys
        invariant best != null ==> best.id in sessions && sessions[best.id] == best
        invariant best != null ==>
                    forall id :: id in sessions && id !in todo ==> sessions[id].lastEventAt <= best.lastEventAt
        decreases |todo|
      {
        var id :| id in todo;
        todo := todo - {id};
        var r := sessions[id];
        if best == null || r.lastEventAt > best.lastEventAt {
          best := r;
        }
      }
      if best == null {
        assert sessions.Keys == {} ==> View() == map[];
        return None;
      }
      assert best.id in View();
      s := Some(best.View());
      forall id | id in View() ensures View()[id].lastEventAt <= s.value.lastEventAt {
        assert id in sessions;
      }
    }

    method List() returns (out: seq<Session>)
      requires Valid()
      ensures Lists(View(), out)
    {
      out := [];
      var todo := sessions.Keys;
      while todo != {}
        invariant todo <= sessions.Keys
        invariant forall i :: 0 <= i < |out| ==>
                    out[i].id in sessions && out[i].id !in todo && out[i] == sessions[out[i].id].View()
        invariant forall i, j :: 0 <= i < j < |out| ==> out[i].id != out[j].id
        invariant forall id :: id in sessions && id !in todo ==> HasId(out, id)
        decreases |todo|
      {
        var id :| id in todo;
        todo := todo - {id};
        HasIdGrows(out, sessions[id].View());
        out := out + [sessions[id].View()];
      }
    }

    method CollectAt(id: string, idle: int, paneExists: Option<PaneOracle>, now: int) returns (hit: bool)
      requires Valid() && id in sessions && idle > 0
      modifies Records()
      ensures Valid() && unchanged(this)
      ensures View() == old(View())[id := Collected(old(View()[id]), idle, paneExists, now)]
      ensures hit <==> Reapable(old(View()[id]), idle, paneExists, now)
    {
      var s := sessions[id];
      hit := s.Collect(idle, paneExists, now);
      ViewAfterChange(s);
    }

    method GC(idle: int, paneExists: Option<PaneOracle>, now: int) returns (reaped: nat)
      requires Valid()
      modifies Records()
      ensures Valid() && unchanged(this)
      ensures View() == Swept(old(View()), idle, paneExists, now)
      ensures reaped == |ReapedSet(old(View()), idle, paneExists, now)|
    {
      if idle <= 0 {
        assert ReapedSet(View(), idle, paneExists, now) == {};
        return 0;
      }
      reaped := ScanRecords(idle, paneExists, now);
    }

    method ScanRecords(idle: int, paneExists: Option<PaneOracle>, now: int) returns (reaped: nat)
      requires Valid() && idle > 0
      modifies Records()
      ensures Valid() && unchanged(this)
      ensures View() == Swept(old(View()), idle, paneExists, now)
      ensures reaped == |ReapedSet(old(View()), idle, paneExists, now)|
    {
      reaped := 0;
      ghost var before := View();
      var todo := sessions.Keys;
      PartlySweptStart(before, todo, idle, paneExists, now);
      while todo != {}
        invariant Valid() && unchanged(this) && todo <= sessions.Keys
        invariant View() == PartlySwept(before, todo, idle, paneExists, now)
        invariant reaped == |ReapedSet(before, idle, paneExists, now) - todo|
        decreases |todo|
      {
        var id :| id in todo;
        ghost var middle := View();
        SweepOne(before, middle, todo, id, idle, paneExists, now);
        CountOne(before, todo, id, idle, paneExists, now);
        var hit := CollectAt(id, idle, paneExists, now);
        todo := todo - {id};
        if hit {
          reaped := reaped + 1;
        }
      }
    }
  }

  lemma SetTwice(t: Table, id: string, a: Session, b: Session)
    ensures t[id := a][id := b] == t[id := b]
  {
  }

  ghost predicate HasId(out: seq<Session>, id: string) {
    exists i :: 0 <= i < |out| && out[i].id == id
  }

  lemma HasIdGrows(out: seq<Session>, s: Session)
    ensures HasId(out + [s], s.id)
    ensures forall id :: HasId(out, id) ==> HasId(out + [s], id)
  {
    assert (out + [s])[|out|] == s;
    forall id | HasId(out, id) ensures HasId(out + [s], id) {
      var i :| 0 <= i < |out| && out[i].id == id;
      assert (out + [s])[i].id == id;
    }
  }

  lemma PartlySweptStart(t: Table, todo: set<string>, idle: int, paneExists: Option<PaneOracle>, now: int)
    requires todo == t.Keys
    ensures PartlySwept(t, todo, idle, paneExists, now) == t
    ensures PartlySwept(t, {}, idle, paneExists, now) == Swept(t, idle, paneExists, now)
    ensures ReapedSet(t, idle, paneExists, now) - todo == {}
  {
  }

  lemma SweepOne(t: Table, middle: Table, todo: set<string>, id: string,
                 idle: int, paneExists: Option<PaneOracle>, now: int)
    requires id in todo && id in t && middle == PartlySwept(t, todo, idle, paneExists, now)
    ensures middle[id] == t[id]
    ensures middle[id := Collected(middle[id], idle, paneExists, now)]
         == PartlySwept(t, todo - {id}, idle, paneExists, now)
  {
  }

  lemma CountOne(t: Table, todo: set<string>, id: string, idle: int, paneExists: Option<PaneOracle>, now: int)
    requires id in todo && id in t
    ensures |ReapedSet(t, idle, paneExists, now) - (todo - {id})|
         == |ReapedSet(t, idle, paneExists, now) - todo| + if Reapable(t[id], idle, paneExists, now) then 1 else 0
  {
    LeaveOut(ReapedSet(t, idle, paneExists, now), todo, id);
  }

  lemma LeaveOut<T>(a: set<T>, todo: set<T>, x: T)
    requires x in todo
    ensures |a - (todo - {x})| == |a - todo| + if x in a then 1 else 0
  {
    assert a - (todo - {x}) == if x in a then (a - todo) + {x} else a - todo;
  }

  /** The table in the middle of a sweep, with `todo` still to visit. */
  ghost function PartlySwept(t: Table, todo: set<string>, idle: int, paneExists: Option<PaneOracle>, now: int): Table {
    map id | id in t :: if id in todo then t[id] else Collected(t[id], idle, paneExists, now)
  }

  /** Every record exactly once, in some order. */
  ghost predicate Lists(t: Table, out: seq<Session>) {
    && (forall i :: 0 <= i < |out| ==> out[i].id in t && t[out[i].id] == out[i])
    && (forall i, j :: 0 <= i < j < |out| ==> out[i].id != out[j].id)
    && (forall id :: id in t ==> HasId(out, id))
  }
}
