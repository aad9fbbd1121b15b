# Verified model of the waiting-room daemon and its clients

waiting-room tells terminal activities (a snake game, a maths quiz) whether Claude Code is working
or waiting for its user. Hooks *emit* declarations to a daemon; the daemon keeps one record per
session, publishes state changes to subscribed activities, moves the tmux focus, and reaps sessions
whose pane is gone; a client library frames the stream, believes in a state and calls back.

This project models that chain in Dafny and proves what it guarantees: which emit wins, what the bus
loses and announces, when a client's state is the daemon's, which focus change comes last and with which
pane, and what the clients' own algorithms keep.

## Modules

| module | models |
|---|---|
| `Wire` | the states, the events and the messages that the state machine exchanges |
| `Sessions`, `SessionRuns` | the registry, its garbage collection, and every run of emits and sweeps |
| `Places` | which pane, tmux session and socket are recorded for a session, and when that depends on the order of delivery |
| `Bus`, `BusRuns` | subscriptions, publication, the pump goroutine, and every run of one subscription |
| `Races` | the same runs with the overflow flag raised some time after the buffer was found full |
| `Sdk` | the state an activity believes in and the callbacks it fires |
| `EndToEnd` | registry, bus, pump, connection and client together, step by step |
| `Agreement`, `Losses` | when the client's state is the registry's, and runs after which it is not |
| `Focus` | the focus protocol: emits, goroutines, the focus mutex and explicit requests |
| `Decisions` | what that protocol carries out: for which change or request, with which pane, and that none is forgotten |
| `Core` | the daemon's message handlers, auto-binding and the janitor |
| `Framing`, `Tmux`, `Text` | the client's line framing, the pane listing, and splitting and joining of text |
| `Snake`, `Quiz` | the two activities' algorithms |
| `Pigeonhole`, `Seqs`, `Wrappers` | counting, regrouping of sequences, `Option` |

## How to read it

Mutable objects are classes (`Registry`, `Sub`, `Bus`, `Sink`, `Server`, `Janitor`, `LiveActivity`,
`IpcClient`). Each has a function `View` from its fields to a value, and each method is proved to move
that value as a specification function says: `ApplyTo`, `Swept`, `Offer`, `PublishTo`, `RebindTo`,
`PumpStep`, `StateAfter`, `Take`, `Shuffled`, `Spawned`. The properties are proved about those functions
and about state machines built from them:

* `SessionRuns.Next` - one emit applied, or one sweep.
* `BusRuns.Next` - one publication, rebind, unsubscription or death of the connection, or one atomic
  step of the pump: receive, swap the overflow flag, notice, snapshot, send.
* `Races.Next` - the same, but a publication that finds the buffer full only starts to raise the flag;
  until it has, the bus mutex keeps other publications, rebinds and unsubscriptions out, and the pump,
  which does not take it, runs on.
* `EndToEnd.Next` - one emit applied, one sweep, one publication, one pump step, one message read by the
  client, or one of the two steps of the snapshot that answers a subscription: reading the state and
  sending it. Applying and publishing are separate steps, too: the code releases the registry's mutex in
  between (`daemon/internal/server/core.go:94-104`), and what is applied but not yet published is
  `pending`. A sweep and the listing of the wiped sessions are one step.
* `Focus.Next` - one emit, sweep, subscription, rebind or request, or one step of a goroutine: spawn,
  lock, re-check, look for the activity, call tmux, unlock.

`Run` folds a list of such steps, so a statement about every `steps` is one about every interleaving at
that granularity. Choices the code leaves open - map iteration order, random draws, the clock, tmux's
answers, which goroutine moves - are parameters, and the statements hold for all their values.

`EndToEnd`, `Agreement` and `Losses` follow a session with a non-empty id - the emit command refuses to
send an empty one (`daemon/cmd/waiting-room/emit.go:81-87`) - and a connection that subscribes once.

## Where the code falls short of its comments

The model follows the code. Each point is a lemma that gives the failing case, a condition that says
exactly when the code does what its comments promise, or both.

* **A resync can lose the last state** (`Losses.OverflowLosesLastState`). The snapshot behind a drop
  notice is sent before the older messages still queued, so for every buffer size there is a run, all
  published in order and with one drop, after which an idle client believes the opposite of the registry.
* **Two connections can publish out of order** (`Losses.OutOfOrderLosesLastState`), as publishing comes
  after the registry's mutex is released. Nothing needs to be dropped, and any buffer size will do.
* **A greeting can come late** (`Losses.LateGreetingLosesLastState`). The snapshot that answers a
  subscription is read and sent in two steps (`daemon/internal/server/core.go:193-204`), and a change that
  reaches the client in between is taken back by it, in order and without any drop.
  `Agreement.AgreementIff` says for every run, with all three of these, when client and registry agree;
  `Agreement.ClientAgreesWithRegistry` says that excluding the three is enough.
* **A drop may go unannounced for a while** (`Races.LateFlagIsNotSeen`). Finding the buffer full and
  raising the flag are two steps (`daemon/internal/bus/bus.go:154-158`), and the pump may drain the buffer
  in between. `Races.DropAnnouncedIff` says exactly which drops are announced - all of them unless the
  last flag came late (`Races.NoDropUnannounced`) - `Races.FlagAtRestIff` when a flag is left up, and `Races.LateFlagIsSeenNext` that the next publication that is kept makes up for it.
* **Panes can depend on the order of delivery** (`Places.PlaceDependsOnOrder`), and so can tmux sessions and
  sockets, though states and sequence numbers do not: what is reported only by an emit that arrives late is
  not recorded. `Places.OrderIndependentIff` says for which emits the order does not matter.
* **A question may have fewer than four options** (`Quiz.StuckGeneratorGivesTwo`): the loop gives up after
  a hundred rounds. `Quiz.FourOptionsIff` says when there are four.
* **A tab or newline in a tmux name** breaks the pane listing; `Tmux.ListingRoundTrip` holds if and only if
  there is none, and `Tmux.TabsInNameShiftFields` says what a tab does.
* **A failing listing counts as a dead pane.** The janitor spares a session when tmux is unavailable, but
  not when listing the panes fails (`daemon/internal/tmux/tmux.go:127-131`). `Core.SweepWipesIff` says
  exactly which sessions are wiped.
* **The idle threshold.** The comment at `daemon/internal/session/gc.go:19` says that zero means no
  threshold; the code then reaps nothing (`Sessions.NoThresholdNoReaping`).

## Model

| member | source | states |
|---|---|---|
| Wire.StateForEvent | daemon/internal/wire/wire.go:41-50 | "agent_working" and "agent_heartbeat" declare working, "agent_needs_attention" declares needs attention, and any other event declares nothing; over runs `SessionRuns.StateWasSaid` |
| Sessions.SessionRecord.Fold | daemon/internal/session/registry.go:79-103 | a stale emit, or a tie other than "working" against a held "needs attention", leaves the record alone; any other one moves number, state, time and the reported panes, and reports the change exactly |
| Sessions.Registry.Apply | daemon/internal/session/registry.go:63-104 | the registry after an emit and the update returned are those of `ApplyTo`: other sessions untouched, an unknown event rejected, a record created even for an ignored first emit |
| Sessions.Registry.Get | daemon/internal/session/registry.go:107-115 | a copy of the record, or nothing for an unknown id |
| Sessions.Registry.MostRecent | daemon/internal/session/registry.go:119-132 | nothing exactly for an empty registry, else a record whose last event no other record's is later than |
| Sessions.Registry.List | daemon/internal/session/registry.go:135-143 | every record exactly once |
| Sessions.SessionRecord.Collect | daemon/internal/session/gc.go:28-38 | one record of a sweep is wiped exactly if it is known, idle for too long and its pane is gone |
| Sessions.Registry.GC | daemon/internal/session/gc.go:20-40 | the registry after a sweep: exactly the reapable records have become unknown, nothing else has changed, and the count is their number |
| Sessions.NoThresholdNoReaping | daemon/internal/session/gc.go:19-23 | without a positive threshold a sweep changes nothing and counts nothing |
| SessionRuns.RunExplained | daemon/internal/session/registry.go:63-104 | after every run of emits and sweeps a session is known exactly if a valid emit of it was delivered, its number is the greatest delivered (0 if none is positive), and its state is unknown if a sweep reaped it after the last emit accepted, else what the greatest emit declares |
| SessionRuns.DeliverKeepsExplains | daemon/internal/session/registry.go:79-103 | the same, for one more emit at any point of a run |
| SessionRuns.StateWasSaid | daemon/internal/wire/wire.go:41-50 | in every run a session needs attention only if an "agent_needs_attention" with the number it holds was delivered for it, and works only if an "agent_working" or "agent_heartbeat" was |
| SessionRuns.NewerEmitDecides | daemon/internal/wire/wire.go:41-50 | an emit with a greater number leaves the session in the state its event names, by the literal event texts |
| SessionRuns.HeartbeatKeepsWorking | daemon/internal/wire/wire.go:41-50 | a newer heartbeat of a working session is accepted, moves the number, and changes and publishes nothing |
| SessionRuns.OtherEventsAreRefused | daemon/internal/wire/wire.go:41-50 | an event that is none of the three texts is rejected and leaves the registry alone |
| SessionRuns.UpdateIsTruth | daemon/internal/session/registry.go:63-104 | the update returned tells the state before, the state after, whether they differ, and the record as it is now |
| SessionRuns.OtherSessionsStay | daemon/internal/session/registry.go:63-104 | an emit of one session neither adds, removes nor alters another one |
| SessionRuns.TimesAreEmits | daemon/internal/session/registry.go:63-104 | in every run a record's first and last times are those of the first valid and of the last accepted emit of its session; sweeps move neither |
| SessionRuns.DeliveryOrderIsIrrelevant | daemon/internal/session/registry.go:56-63 | convergence: runs that delivered the same emits, in any order and any number of times each, agree on every session's state and number |
| SessionRuns.PermutationsConverge | daemon/internal/session/registry.go:56-63 | in particular any two orders of one finite collection of emits end alike |
| Places.OrderIndependentIff | daemon/internal/session/registry.go:79-99 | exactly when the recorded pane, tmux session or socket does not depend on the order: all orders of the same emits record the same if and only if no emit with a positive number reports it, or all emits that settle the session report the same |
| Places.SettledIsRecorded | daemon/internal/session/registry.go:79-99 | under that condition any two runs that delivered these emits, each any number of times, record the same |
| Places.PlaceDependsOnOrder | daemon/internal/session/registry.go:91-99 | without it there are two orders, each emit once, that record different things |
| Places.LateReportIsUnsettled | daemon/internal/session/registry.go:79-99 | something reported once, followed by an emit that does not report it, is such a case |
| SessionRuns.RevivalNeedsGreaterSeq | daemon/internal/session/registry.go:79-86 | an unknown session stays as it is until an emit with a strictly greater number arrives, so a sweep is not undone by a late delivery or a tie |
| SessionRuns.RunsOnlyAdd | daemon/internal/session/gc.go:28-38 | no run forgets a session, lowers its number, or empties a registered pane, session name or socket |
| SessionRuns.RedeliveryChangesNothing | daemon/cmd/waiting-room/emit.go:157-174 | an emit that was delivered before, redelivered at any later point of any run, changes no record and publishes nothing |
| SessionRuns.RetryIsInvisible | daemon/cmd/waiting-room/emit.go:157-174 | at-least-once is exactly-once: inserting a retry anywhere after its emit changes neither the final registry nor the list of changes published in the whole run |
| SessionRuns.ChangesFormChain | daemon/internal/server/core.go:101-104 | without sweeps a session's published changes form a chain from unknown to its state, each starting where the last one ended |
| Bus.Sub.TrySend | daemon/internal/bus/bus.go:154-158 | a message is queued if there is room, else dropped and flagged |
| Bus.Bus.Subscribe | daemon/internal/bus/bus.go:81-98 | a fresh, empty subscription with the given mode and binding joins the bus |
| Bus.Bus.Rebind | daemon/internal/bus/bus.go:103-115 | only an unbound subscription that is on the bus takes the binding |
| Bus.Bus.Unsubscribe | daemon/internal/bus/bus.go:118-126 | the subscription leaves the bus and its pump is told to stop; nothing for no subscription |
| Bus.Bus.UnregisterSink | daemon/internal/bus/bus.go:130-142 | exactly the connection's subscriptions leave the bus and stop; every other one is unchanged |
| Bus.Bus.Publish | daemon/internal/bus/bus.go:147-160 | every matching subscription on the bus is offered the message, no other one changes |
| Bus.Sub.Pump | daemon/internal/bus/bus.go:164-181 | one atomic step of the pump: receive, then swap the flag, then notice, snapshot and message, in this order; a failed send of the message ends it |
| Bus.Sub.Stop | daemon/internal/bus/bus.go:166-168 | a pump ends only at the top of its loop and only once its subscription is closed |
| BusRuns.RunConserves | daemon/internal/bus/bus.go:147-181 | conservation over every run: delivered, held and queued messages are, in order, exactly the kept publications, offered = delivered + held + queued + dropped, and without a drop the flow is everything offered |
| BusRuns.PumpKeepsFlow | daemon/internal/bus/bus.go:164-181 | no pump step loses, adds or reorders a message |
| BusRuns.PickedIsSubsequence | daemon/internal/bus/bus.go:154-158 | the kept messages are an order-preserving subsequence of the offered ones |
| BusRuns.BindingIsStable | daemon/internal/bus/bus.go:60-65 | over every run a binding never changes, and a bound subscription is offered exactly its session's publications, or all of them in mode "any" |
| BusRuns.UnboundHearsAll | daemon/internal/bus/bus.go:60-65 | an unbound subscription is offered every publication until it is rebound |
| BusRuns.AnyHearsAll | daemon/internal/bus/bus.go:60-65 | in mode "any" a subscription is offered every publication of every run, whatever it is bound to and whatever rebinds it |
| BusRuns.UnsubscribedHearsNothing | daemon/internal/bus/bus.go:118-126 | nothing is offered after an unsubscription, whatever follows |
| BusRuns.StoppedSendsNothing | daemon/internal/bus/bus.go:164-168 | a pump that has stopped sends nothing more in any run |
| BusRuns.FailedSendEndsPump | daemon/internal/bus/bus.go:176-179 | a failed send ends the pump for good with the message in its hand, and what is queued stays queued |
| BusRuns.DeadConnectionGetsNothing | daemon/internal/bus/bus.go:162-179 | no run delivers anything to a connection that has died |
| BusRuns.FirstPublicationsAreKept | daemon/internal/bus/bus.go:20-23 | a subscription that was offered at most 64 publications has lost none, however slow its pump is |
| BusRuns.RebindNarrowsOnce | daemon/internal/bus/bus.go:103-115 | with one rebind in a run: everything published before it, its session's publications after it, whatever rebinds follow |
| BusRuns.NoNoticeWithoutDrop | daemon/internal/bus/bus.go:169-175 | without a drop only publications were sent: no notice, no resync |
| BusRuns.PumpDrains | daemon/internal/bus/bus.go:164-181 | a live pump left to itself always reaches the drained state |
| Races.AtomicRunsAreRuns | daemon/internal/bus/bus.go:147-160 | a run that publishes in one step is the run of `Races` that raises each flag at once |
| Races.RunConserves | daemon/internal/bus/bus.go:147-181 | conservation holds with the flag raised separately, too |
| Races.RaisedLateIff | daemon/internal/bus/bus.go:154-170 | in every reachable state the flag is up with nothing queued or just received behind it exactly if it was raised with nothing there, and nothing has been kept since |
| Races.FlagAtRestIff | daemon/internal/bus/bus.go:154-181 | once the pump has drained, the flag is up exactly in that case |
| Races.PromptFlagsAreNotLate | daemon/internal/bus/bus.go:144-160 | a flag raised right after the check is never late, so none is left up by a drained pump |
| Races.DropAnnouncedIff | daemon/internal/bus/bus.go:144-181 | exactly which drops are announced, in every run, once the live pump has drained: a dropped publication has been followed by a notice and, behind it, a snapshot if and only if it is not the case that the last flag came late and the drop came last, with the flag down and no notice about to be sent |
| Races.AllDropsAnnouncedIff | daemon/internal/bus/bus.go:144-181 | every drop is announced if and only if none was overlooked in this way or the last flag did not come late |
| Races.OneDropIsOverlooked | daemon/internal/bus/bus.go:154-158 | at most one drop is overlooked at a time |
| Races.LateFlagIsNotSeen | daemon/internal/bus/bus.go:154-181 | for every capacity there is a run from a fresh subscription that drops a message and ends drained, with the flag up and no notice sent |
| Races.LateFlagIsSeenNext | daemon/internal/bus/bus.go:169-175 | the next publication that is kept then brings notice and snapshot ahead of itself |
| Sdk.LiveActivity.ApplyState | packages/sdk/src/activity.ts:137-148 | no callback for a repeated state; else the observers, then the pause or the resume callbacks, each once and in order of registration |
| Sdk.LiveActivity.OnMessage | packages/sdk/src/activity.ts:117-130 | snapshots and state changes bring a state, other messages nothing |
| Sdk.LiveActivity.OnMessages | packages/sdk/src/activity.ts:117-148 | state and callback history after any stream of messages are those of the specification |
| Sdk.EachCallbackOnce | packages/sdk/src/activity.ts:137-148 | a change of state calls each observer, and each pause or each resume callback, exactly once and no other one |
| Sdk.CallsInOrder | packages/sdk/src/activity.ts:137-148 | observers come first, then the pause or resume callbacks, each list in order of registration |
| Sdk.ObserversAreTold | packages/sdk/src/activity.ts:117-130 | observers are handed the daemon's own from and to with a state change, and the state held before with a snapshot |
| Sdk.StateIsLastReceived | packages/sdk/src/activity.ts:137-140 | the state an activity believes in is the last one it was sent |
| Sdk.PauseFlagFollowsState | packages/game-snake/src/App.tsx:41-50 | a flag that starts from the state at registration, is set by the pause and cleared by the resume callback the activity registered, whichever others there are, means "the last state that was not unknown is needs attention" after every stream, and an observer sees the states without stuttering |
| Sdk.LateCallbackMissesPause | packages/sdk/src/activity.ts:137-148 | no callback fires for a state reached before registration, so the flag's starting value matters |
| EndToEnd.RegistryStepAnnounces | daemon/internal/server/core.go:94-104 | what an emit or a sweep does to a session and what it puts up for publication for it say the same, in at most one message |
| EndToEnd.WipedFor | daemon/internal/server/janitor.go:96-100 | a sweep's publications carry one "unknown" for each session that is unknown and nothing else, in whatever order the sessions are listed |
| EndToEnd.PublishProjects | daemon/internal/bus/bus.go:147-160 | a publication decides what the client will end up believing if it was kept, and nothing if it was dropped |
| EndToEnd.PumpKeepsProjected | daemon/internal/bus/bus.go:164-181 | no pump step changes what the client will end up believing, whatever a resync snapshot says and however long ago it was read |
| EndToEnd.GreetingProjects | daemon/internal/server/core.go:193-204 | the greeting snapshot, when it is sent, decides with the state that was read if nothing is queued, and changes nothing otherwise |
| EndToEnd.SnapshotTellsState | daemon/internal/server/core.go:193-204 | whatever a client believed, a snapshot of a session leaves it believing that session's state in the registry, unknown if there is none |
| EndToEnd.GreetingIsSnapshot | daemon/internal/server/core.go:193-204 | reading and sending the greeting puts exactly this snapshot, of the binding, on the connection |
| Agreement.RunStaysInStep | daemon/internal/server/core.go:93-107 | invariant of every run that publishes the session's messages in order: the newest publication still waiting carries the registry's state; with none waiting, the client is on its way to that state unless the newest publication was dropped or the greeting came late |
| Agreement.ClientAgreesWithRegistry | daemon/internal/bus/bus.go:144-181 | end-to-end agreement: after every such run, once nothing is under way, the SDK's state is the registry's, after sweeps and across overflows, unless the newest publication was dropped, or something reached the client between the greeting's two steps and nothing since |
| Agreement.PausedIffAttentionNeeded | packages/game-snake/src/App.tsx:41-50 | whenever a settled client agrees, an activity's pause flag is set exactly if the registry has the session waiting for its user, as long as the registry knows its state |
| Agreement.RunTracks | daemon/internal/bus/bus.go:147-181 | throughout every run, whatever the order of publication and of the greeting's steps, the client is heading for its greeting if nothing is behind that, else for the last publication kept |
| Agreement.RegistryFollowsPutUp | daemon/internal/server/core.go:93-104 | after every run the registry is where everything put up for publication leads, published or not |
| Agreement.RegistryRuns | daemon/internal/server/core.go:93-104 | the registry of an end-to-end run is what its emits and sweeps alone lead to, so what `SessionRuns` says of registries holds there |
| Agreement.AgreementIff | daemon/internal/server/core.go:93-107 | over every run, publications leaving in any order and the greeting read and sent at any time, a settled client agrees if and only if what it was heading for is where everything put up for its session, in the order of its causes, leads |
| Agreement.InOrderOffersPutUp | daemon/internal/bus/bus.go:147-160 | in order, what was offered and what waits is what was put up |
| Agreement.InOrderAgreementIff | daemon/internal/bus/bus.go:144-181 | in order, what it was heading for has to be where the offered publications lead |
| Agreement.Settles | daemon/internal/bus/bus.go:164-181 | from every healthy state the pump and the client alone can settle, with nothing published or lost |
| Agreement.QuietKeepsProjected | daemon/internal/bus/bus.go:164-181 | any steps of pump and client alone leave what the client will end up believing unchanged |
| Losses.OverflowLosesLastState | daemon/internal/bus/bus.go:154-176 | for every capacity there is a run of capacity + 2 alternating transitions, published in order with one drop, that settles with the client one transition behind the registry |
| Losses.OutOfOrderLosesLastState | daemon/internal/server/core.go:94-104 | for every capacity two transitions published out of order leave a settled client with the older state without any drop |
| Losses.LateGreetingLosesLastState | daemon/internal/server/core.go:193-204 | for every capacity there is a run, in order and without any drop, in which a change is forwarded between reading and sending the greeting and the settled client believes the state before it |
| Focus.NextKeepsExclusive | daemon/internal/server/core.go:300-301 | in every interleaving exactly the holder of the focus mutex is between lock and unlock |
| Focus.NextKeepsCovered | daemon/internal/server/core.go:305-308 | every step keeps: a known session's state is covered by a goroutine that has not re-checked it yet, or is the latest decision |
| Focus.LastStateWins | daemon/internal/server/core.go:303-320 | last state wins: for every schedule of emits, sweeps, goroutines and requests, once no goroutine of a session's changes is left, the last decision carried out for it is for exactly its state; with which pane is `Decisions.LastFocusWins` |
| Focus.RunTraced | daemon/internal/server/core.go:295-369 | every pane in a record, a goroutine or the log of every run has a step that brought it in |
| Focus.FocusedPanesAreKnown | daemon/internal/server/core.go:295-369 | provenance over every run: a pane tmux was asked to focus for a session was reported by an accepted emit of that session (attention, request) or belonged to a subscription that was bound to that session at some moment (working) |
| Focus.StepMakesProgress | daemon/internal/server/core.go:112-117 | the holder of the mutex, or with none any goroutine, can always take its next step and comes closer to its end |
| Focus.ComesToRest | daemon/internal/server/core.go:295-341 | no deadlock: from every state the goroutines alone can all finish, without changing a session |
| Focus.EveryRunSettlesOnLastState | daemon/internal/server/core.go:303-320 | every run extends, without further events, to one in which every known session's last decision is for its state |
| Decisions.EntriesAreWritten | daemon/internal/server/core.go:295-359 | every entry of the log of every run: a decision was re-checked against the session's state; for attention its pane is the session record's at that step, for work that of a connection bound to the session when it was looked for, empty only if none has one, for a request the record's when it was read; tmux was called exactly if the pane is not empty and tmux was available at that step |
| Decisions.LastFocusWins | daemon/internal/server/core.go:303-320 | last focus wins: once no goroutine of a session's changes is left, the last decision is for its state and with its pane: on attention the pane in its record now unless another one was reported since the check, on work that of an activity bound to it |
| Decisions.EveryRunSettlesOnLastFocus | daemon/internal/server/core.go:303-320 | every run extends, without further events, to one in which this holds for every known session |
| Decisions.NoChangeIsForgotten | daemon/internal/server/core.go:101-117 | in every run, each accepted change of a session is still on its way, was found stale at a re-check, or has been carried out by the goroutine spawned for it |
| Decisions.NoRequestIsForgotten | daemon/internal/server/core.go:324-342 | the same for each request of a bound connection |
| Decisions.EntriesAreCaused | daemon/internal/server/core.go:101-117 | the converse: every entry goes back to an emit that changed its session to that state, or to a request of a connection bound to it |
| Decisions.PaneStays | daemon/internal/session/registry.go:91-93 | a record's pane stays what it was at a check until an accepted emit of the session reports another one |
| Decisions.RegistryRuns | daemon/internal/server/core.go:93-104 | the registry of a run of the focus protocol is what its emits and sweeps alone lead to |
| Decisions.SubscriptionStands | daemon/internal/server/core.go:119-165 | a connection's subscription keeps the pane and, once it has one, the binding it subscribed with, until it subscribes anew or leaves, and is gone after an unsubscribe |
| Decisions.FirstBindingStands | daemon/internal/bus/bus.go:103-115 | the first rebind of an unbound subscription stands through every run until it subscribes anew or leaves |
| Core.Server.MostRecentId | daemon/internal/server/core.go:381-386 | the id of a session with the latest event, empty for an empty registry |
| Core.Server.ResolveAutoBind | daemon/internal/server/core.go:209-262 | with a listing: unbound exactly if the pane has no window or no session's pane shares it, else bound to a sharing session with the latest event; without one: the most recent session |
| Core.FirstPaneHasWindow | daemon/internal/server/core.go:223-229 | a pane's window is that of the first line that lists it |
| Core.UnlistedPaneHasNoWindow | daemon/internal/server/core.go:223-232 | a pane that is not listed has none |
| Core.Server.PickSharing | daemon/internal/server/core.go:234-261 | the choice among the sessions that share the window |
| Core.Server.SnapshotInto | daemon/internal/server/core.go:193-204 | one snapshot of the bound session, "unknown" if there is no such session, or of a most recent one for an unbound subscriber; a client that reads it ends in the bound session's state, whatever it believed before |
| Core.Server.HandleEmit | daemon/internal/server/core.go:93-105 | registry, acknowledgement and every subscription after an emit: published exactly if the state changed |
| Core.Server.BindingFor | daemon/internal/server/core.go:136-139 | an "auto" subscription is bound as auto-binding resolves, any other one as it asks |
| Core.Server.HandleSubscribe | daemon/internal/server/core.go:119-157 | any mode but "", "auto", "any" and "session" is refused and changes nothing; otherwise one fresh subscription, an acknowledgement, then the snapshot for its binding, by which a client of a bound one ends in that session's state; "any" hears every session, "session" exactly the one asked for, "" and "auto" the one resolved |
| Core.AskedIsHeardThroughout | daemon/internal/server/core.go:119-157 | over every run, whatever rebinds it, a subscription asked for as "any" is offered every publication and one asked for as "session" exactly that session's |
| Core.Server.HandleUnsubscribe | daemon/internal/server/core.go:159-165 | exactly this connection's subscription goes; nothing if it has none |
| Core.Server.Closed | daemon/internal/server/core.go:86-91 | exactly the dead connection's subscriptions go and stop |
| Core.Server.RebindUnbound | daemon/internal/server/core.go:266-290 | every unbound "auto" subscription takes what auto-binding resolves to, with panes listed anew for each, and is told that session's state, by which a client ends in it, so that none is left that has a candidate; every other one and its connection are untouched |
| Core.Server.ActivityPaneFor | daemon/internal/server/core.go:362-369 | the pane of an activity bound to the session, empty only if none of them has one |
| Core.Server.HandleFocusRequest | daemon/internal/server/core.go:324-342 | refused exactly without a binding; otherwise acknowledged and, with tmux, aimed at the bound session |
| Core.Server.FocusTarget | daemon/internal/server/core.go:333-339 | its goroutine focuses the session's own pane, whatever state the session is in |
| Core.Server.ApplyFocus | daemon/internal/server/core.go:295-320 | a change that is no longer the session's state does nothing; attention focuses the session's own pane, work the pane of an activity bound to it |
| Core.Server.FocusPaneLocked | daemon/internal/server/core.go:345-359 | no pane, no tmux, no listing or an unknown pane issues nothing; else the pane's window, then the pane |
| Core.SweepWipesIff | daemon/internal/server/janitor.go:79-90 | a sweep wipes exactly the sessions with a pane and a socket, idle for too long, whose pane is not listed or whose server's listing fails |
| Core.Janitor.Sweep | daemon/internal/server/janitor.go:73-103 | the registry after the sweep, the number reaped, and for every subscription the publications of all unknown sessions in the listed order, if anything was reaped |
| Core.Janitor.PublishWiped | daemon/internal/server/janitor.go:96-100 | the loop publishes one "unknown" snapshot for each unknown session listed |
| Core.BoundSubAfterSweep | daemon/internal/server/janitor.go:90-101 | a bound subscription hears of its own session only: one "unknown" if that is what it is now, else nothing |
| Framing.IpcClient.RunOnce | packages/sdk/src/client.ts:84-86 | a new connection starts with an empty buffer |
| Framing.IpcClient.HandOver | packages/sdk/src/client.ts:123-131 | a blank or malformed line, or one of another protocol version, is skipped; any other one is delivered |
| Framing.IpcClient.OnData | packages/sdk/src/client.ts:117-133 | a chunk delivers the messages of all lines it completes, in order, and leaves what follows the last newline |
| Framing.FramingAppend | packages/sdk/src/client.ts:117-133 | framing a text in two pieces, carrying the unfinished line over, is framing it whole |
| Framing.ChunksDoNotMatter | packages/sdk/src/client.ts:117-133 | chunk independence: only the concatenation of the chunks matters, for any chunking of any text |
| Framing.ReconnectsNeverMixLines | packages/sdk/src/client.ts:79-133 | over any number of reconnects exactly the complete lines of each connection's own text are delivered |
| Framing.AnyChunkingRoundTrips | packages/sdk/src/client.ts:117-133 | however a stream of encoded messages is cut, exactly the messages sent come out and the buffer is empty |
| Framing.JunkIsSkipped | packages/sdk/src/client.ts:120-132 | blank lines, malformed lines and lines of another protocol version than 1, anywhere between the messages, are skipped under any chunking, and every message is still delivered |
| Framing.BrokenConnectionDeliversPrefix | packages/sdk/src/client.ts:84-86 | a stream that breaks off anywhere has delivered exactly the messages whose lines arrived in full, and what is left over is the beginning of the next line |
| Tmux.ParsePanes | daemon/internal/tmux/tmux.go:83-104 | the panes of the lines that are one, in order |
| Tmux.PaneExists | daemon/internal/tmux/tmux.go:127-138 | found exactly if there is a listing and the pane is in it |
| Tmux.FocusPane | daemon/internal/tmux/tmux.go:107-123 | the window of the first pane with that id is selected before the pane; a failing command stops, an unknown pane or a failing listing issues nothing |
| Tmux.ListingRoundTrip | daemon/internal/tmux/tmux.go:71-104 | printing panes in the listing format, with any blank or short lines between them, and parsing gives the same panes if and only if no field of any of them holds a tab or a newline |
| Tmux.LineFields | daemon/internal/tmux/tmux.go:90-101 | six fields without tabs, joined by tabs, are read back in their places, the last two as "1" or not |
| Tmux.NoiseLineParses | daemon/internal/tmux/tmux.go:87-93 | a blank line, or one with fewer than six fields, is no pane |
| Tmux.TabsInNameShiftFields | daemon/internal/tmux/tmux.go:71-104 | with tabs in the session name the name is cut at the first one and the piece behind it is taken for the window id |
| Text.SplitJoin | daemon/internal/tmux/tmux.go:90 | splitting what was joined from parts without the separator gives the parts |
| Text.JoinSplit | daemon/internal/tmux/tmux.go:90 | joining what a text was split into gives the text |
| Snake.SpawnFood | packages/game-snake/src/game.ts:27-44 | the food is the first free random cell of the tries, else the first free cell of the row-by-row scan, else the corner |
| Snake.FoodIsFree | packages/game-snake/src/game.ts:27-44 | whatever is drawn, food lies on the board and off the snake unless the snake has as many segments as the board has cells |
| Snake.FirstFreeDrawIsTaken | packages/game-snake/src/game.ts:29-35 | the first drawn cell that is off the snake is the food |
| Snake.ScanTakesFirstRowFirst | packages/game-snake/src/game.ts:36-43 | with no such draw it is the first free cell, rows from the top and each from the left |
| Snake.TakenBoardIsFull | packages/game-snake/src/game.ts:36-43 | if the scan finds nothing, the snake covers the board |
| Snake.SnakeFits | packages/game-snake/src/game.ts:75-93 | a snake that does not overlap has at most as many segments as the board has cells |
| Snake.TurnKeepsValid | packages/game-snake/src/game.ts:63-72 | no key reverses a living snake into its neck |
| Snake.KeySteers | packages/game-snake/src/game.ts:64-84 | a key that is not towards the neck decides the next tick: if it does not end the game the new head is the old one moved by the key; a key towards the neck, or after the end, changes nothing |
| Snake.TickMoves | packages/game-snake/src/game.ts:75-93 | a tick that does not end the game puts the new head, one cell on in the direction held, before the body; on food the body stays whole and the score rises by one, else the last segment goes |
| Snake.EveryTickFollowsKeys | packages/game-snake/src/game.ts:63-93 | after every sequence of keys and ticks from the initial state, a tick that does not end the game moves the head one cell in the direction of the last key not refused, to the right if there was none, and the rest follows |
| Snake.StepKeepsValid | packages/game-snake/src/game.ts:74-93 | a tick keeps the snake on the board, connected and free of overlaps, its length three more than the score, the food free, and the next move off the neck |
| Snake.BoardInvariant | packages/game-snake/src/game.ts:46-93 | all of that after every sequence of keys and ticks from the initial state, with the length bounded by the board |
| Snake.StepEndsGameIff | packages/game-snake/src/game.ts:75-93 | a tick ends the game exactly when the head leaves the board, meets a segment from the fourth to the last but one, or bites food that a full board had no room for |
| Snake.GameOverIsFinal | packages/game-snake/src/game.ts:65-76 | no input changes a finished game |
| Quiz.Shuffle | packages/exercise-math/src/math.ts:25-32 | the loop of swaps computes `Shuffled` for the choices drawn, on a copy |
| Quiz.SwapAt | packages/exercise-math/src/math.ts:29 | the two elements change places and no other one moves |
| Quiz.ShufflePermutes | packages/exercise-math/src/math.ts:25-32 | every output has the elements of the input, each as often |
| Quiz.ShuffleReaches | packages/exercise-math/src/math.ts:25-32 | every rearrangement of the input is the output for some choices |
| Quiz.ShuffleInjective | packages/exercise-math/src/math.ts:25-32 | for distinct elements the choices can be read off the output |
| Quiz.ShuffleIsBijection | packages/exercise-math/src/math.ts:25-32 | Fisher-Yates: choices and rearrangements correspond one to one |
| Quiz.PickReachesAll | packages/exercise-math/src/math.ts:28 | every index in range is drawn for some value of the generator |
| Quiz.PickIff | packages/exercise-math/src/math.ts:28 | which index is drawn: exactly the one whose interval of width 1/n holds the random value |
| Quiz.EveryCandidateIsPossible | packages/exercise-math/src/math.ts:47-49 | every candidate from nine below to nine above the answer, other than the answer, is drawn for some random values |
| Quiz.DrawOptions | packages/exercise-math/src/math.ts:44-50 | the guarded loop collects the answer and the first new non-negative candidates drawn, and uses exactly the draws of its rounds |
| Quiz.DrawnIsGood | packages/exercise-math/src/math.ts:34-50 | these options are distinct, non-negative, within nine of the answer and contain it; if they are fewer than four every guarded round was wasted |
| Quiz.FourOptionsIff | packages/exercise-math/src/math.ts:34-50 | there are four exactly if the guarded rounds have at least three different non-negative candidates |
| Quiz.StuckGeneratorGivesTwo | packages/exercise-math/src/math.ts:46-50 | a generator that always returns zero yields two options |
| Quiz.DrawnStops | packages/exercise-math/src/math.ts:46 | once four options are found nothing more is drawn |
| Quiz.KeepsGoodOptions | packages/exercise-math/src/math.ts:51 | shuffling keeps all of that |
| Quiz.DrawOperands | packages/exercise-math/src/math.ts:39-41 | operands from 2 to 19, swapped where a difference would be negative |
| Quiz.EvaluateLaws | packages/exercise-math/src/math.ts:14-23 | the laws that determine sum, difference and product: adding and multiplying by recursion on the second operand, subtraction undoing addition |
| Quiz.GenerateQuestion | packages/exercise-math/src/math.ts:36-52 | the question is the one its draws determine: the answer is right and not negative, the options are the collected ones, shuffled by the draws behind theirs, with all that is said above, four exactly under the condition above |

## Left out

- Sockets, credentials, locks, info files, signals, timeouts and starting the daemon: operating-system calls.
- JSON and message envelopes: messages are datatypes and parsing a line is a function parameter.
- Running tmux: its listing, its availability and the success of its commands are parameters.
- Decoding chunks: `client.ts` decodes each chunk on its own, so a character split between two chunks is damaged before framing; framing is stated over decoded text.
- The clock is a parameter of each call and of each step; nothing relies on its monotonicity.
- Random generators are arbitrary values in range: no probabilities, and real-number draws without rounding.
- Sequence numbers are unbounded integers: the code only compares and stores them, and never computes with them.
- Snake's set of occupied cells is keyed by points instead of their text form.
- Status replies, pings, the reason text of a state change, error texts, logging, backoff, configuration and discovery.
- Data races within Go's memory model: reads of a subscription's binding are atomic, and so is looking for an activity's pane.
- Agreement.ClientAgreesWithRegistry: does not cover unbound and "any" subscriptions, because the SDK ignores session ids and there is no one session to agree with.
- Agreement.AgreementIff: takes each publication as one step; `Races` takes it apart for one subscription. A resync snapshot is read and sent in one step, too, which does not matter here (`EndToEnd.PumpKeepsProjected`).
- Core.Server.RebindUnbound: does not cover interleaving with other handlers, where the snapshot is sent even if a concurrent rebind came first; the interleaved rebinds are in `BusRuns` and `Focus`.
- Core.Server.HandleFocusRequest: does not perform the focus, which is the goroutine's (`Core.Server.FocusTarget`, a task of `Focus`); the task reads the binding when the request arrives, not later, as a binding does not change once it is there.
- Focus.LastStateWins: leaves out a daemon without tmux support, where no goroutine gets to the mutex, and says nothing about explicit requests, which may focus the Claude pane at any time.
- Callbacks that register further callbacks or throw while a message is handled, callbacks on disconnect, and disposing of an activity.
- The terminal user interfaces, the command line, packaging, and the hooks' installation.
