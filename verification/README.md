# A verified model of the Discord–Matrix voice bridge

The bridge joins Discord voice channels to Matrix calls. A Go process owns a pool of sidecar processes
(one Discord bot each), decides which channel gets which sidecar, talks to the sidecars over a small binary
protocol, moves audio both ways, and mirrors Discord presence into Matrix rooms. This project models the
parts of it that keep state or do byte and sample arithmetic, and proves what they keep.

Each component has a specification on values (functions and relations), laws about it, and, where the
program updates objects in place, a class whose methods have the program's own loops and branches and are
proved equal to the specification.

| file | what it covers |
|---|---|
| `SlotPool.dfy` | the sidecar slots and active bridges, one lock-protected section at a time, in any interleaving |
| `BridgeManager.dfy` | call membership, debounce timers, slot deaths, manual commands: handlers run through, over whole runs |
| `Effects.dfy` | exactly what each of those events does to users, names, timers, callbacks, slots, bridges and rooms |
| `Interleavings.dfy` | the same, section by section: handlers, callbacks, stops and deaths interleaved in any way |
| `Races.dfy` | what those sections can do to each other: late stops, newer bridges, when a debounced stop is final |
| `Manager.dfy` | the manager object; every handler is the specification's step |
| `Bytes.dfy`, `Ipc.dfy`, `Payloads.dfy` | little-endian fields, framing at both ends of the socket, nested length-prefixed payloads |
| `Limiter.dfy`, `OpusOutput.dfy` | limiter and downmix arithmetic; the loop that cuts samples into 960-sample blocks |
| `TrackModes.dfy`, `Subscriber.dfy` | the passthrough/mixer machine, its mixer inputs and its cancel channels |
| `FrameStream.dfy` | the sidecar's bounded playback queue under backpressure |
| `Participants.dfy` | LiveKit connections per Discord user, in any interleaving |
| `Presence.dfy` | Discord voice states as Matrix call-member events, with renewal |
| `Rooms.dfy` | the two room maps, the table they are reloaded from, and the scan when it has no rows |
| `Wrappers.dfy`, `Ids.dfy` | shared types |

`dafny verify dfyconfig.toml` checks everything.

## Where the program does not keep a promise

The model follows the code. Where a natural promise fails, the project says exactly when it holds.

- A published bridge can share its slot: publishing a started bridge is unconditional, so a stop of the same
  channel between claim and publish leaves a bridge on a slot that is handed out again
  (`SlotPool.StoppedStartSharesItsSlot`); `SlotPool.PublishIsSafeExactly` gives the exact condition.
- A published bridge can land on a dead slot for good: if the slot dies, its death run through, while a start is
  in hand on it, the publish puts the bridge there, and the guard against a second death keeps later reports of
  the death from taking it off (`SlotPool.PublishOutlivesItsSlot`). Exactly then, or when the slot was dead with a
  bridge before, does a death fail to keep its slot empty (`SlotPool.DeathLeavesNoBridge`).
- The debounce callback looks and stops in two sections. With handlers run through, users are left without a bridge
  exactly when somebody joined the channel in between and stayed (`BridgeManager.LateStopLosesExactlyTheJoins`). Section
  by section the join may even have begun before the look: users are left without a bridge exactly when somebody was
  tracked in between and stayed (`Races.LateStopLosesExactlyTheTracked`, with a run in `Races.JoinAcrossTheLookIsLost`
  from a state that `Races.EmptiedIsReached` reaches).
- A death, and a sidecar's leave, stop a bridge by channel id after dropping the lock, so the stop can take down a newer
  bridge of that channel on a live slot: exactly when the channel was claimed a slot anew in between
  (`Races.DeathHitsANewerBridgeExactly`, with a run in `Races.DeathStopsTheNewBridge`).
- A debounced stop is not final while a start of the channel is in hand: after it the channel can get a bridge again
  without a new join or manual start exactly when the handler in hand is still to start or publish it
  (`Races.StopIsFinalExactly`).
- A user who switches channels stops the channel left behind even if other users remain there: a join takes a bridge
  from under a channel's users exactly when its user switches away and somebody else is still there
  (`BridgeManager.SwitchLeavesUsersBehindExactly`, with a run from the start in `BridgeManager.SwitchStrandsTheOther`).
- Go sends a payload of more than 65535 bytes with a truncated length; the round trips hold exactly up to that
  size (`Ipc.RoundTripExactly`, `Payloads.UserListArrivesExactly`).
- The payload parsers cut names out with 16-bit sums, which would panic on a payload no frame can carry
  (`Payloads.VoiceStatePanicsExactly`, `Payloads.UserInfoPanicsExactly`).
- Subscribing a track under an id that is in use loses a cancel channel
  (`TrackModes.SubscribeKeepsAccountedExactly`), though none is ever closed twice (`TrackModes.RunClosesOnce`);
  `Close` leaves the output unmuted if the mixer was on (`TrackModes.CloseKeepsModesExactly`).
- A LiveKit room lost while its connect is in flight is published all the same (`Participants.HeldAliveExactly`,
  with a run from the start in `Participants.LostInFlightIsHeld`). After `Close` the map can fill again without a new
  connect exactly when a connect was under way, dialling or dialled (`Participants.CloseIsFinalExactly`).
- When the send that takes a call-member event down fails, the signaller forgets the event
  (`Presence.VoiceStateKeepsAgreementExactly`, with a run from the start in `Presence.FailedLeaveStaysInBothRooms`);
  leaving for everyone leaves standing exactly the events whose send failed (`Presence.LeaveAllLeavesTheFailed`).
- A restart with rows in the table forgets a created room whose row was not saved; one without rows scans the m.bridge
  events, and forgets a room whose event was not sent (`Rooms.RestartIsExactWhenAllSaved`, with a run from the start in
  `Rooms.UnsavedRoomIsForgotten`).
- `docs/ipc-protocol.md` lists a shorter VOICE_STATE payload and fewer message types than the code; the model
  follows the code.

## Model

| member | source | states |
|---|---|---|
| SlotPool.ClaimOutcome | pkg/bridge/manager.go:461-497 | a claim either leaves the pool untouched (already bridged, no room, nothing free) or takes the lowest free slot and leaves a sentinel on it |
| SlotPool.ClaimKeepsCoherent | pkg/bridge/manager.go:461-497 | the claiming section keeps bridges and slots in agreement |
| SlotPool.StopKeepsCoherent | pkg/bridge/manager.go:551-568 | the stopping section keeps the agreement and leaves the bridge's slot not busy |
| SlotPool.NextKeepsCoherent | pkg/bridge/manager.go:460-568 | every section keeps the agreement, given that no stop hits the channel being started |
| SlotPool.InterleavingsKeepCoherent | pkg/bridge/manager.go:460-568 | in every interleaving of claims, publishes, stops, deaths and added slots where no stop of a channel falls between its claim and its publish: each bridge's slot holds its channel or is dead, each busy slot's channel is bridged on it, no two bridges share a slot |
| SlotPool.SearchHasOneAnswer | pkg/bridge/manager.go:401-408 | in those interleavings at most one bridge is on a slot, so the search in map order has one possible answer |
| SlotPool.WhileStarting | pkg/bridge/manager.go:497-538 | between claim and publish: the sentinel is gone exactly if the channel was stopped, the slot is dead exactly if it died, and no other bridge gets onto it |
| SlotPool.PublishIsSafeExactly | pkg/bridge/manager.go:538-540 | after a claim, any sections of other goroutines and the publish, the pool is coherent if and only if none of them stopped the channel, or the claimed slot died |
| SlotPool.StoppedStartSharesItsSlot | pkg/bridge/manager.go:538-540 | a concrete run in which a stop between claim and publish ends with two bridges on one slot |
| SlotPool.DeathIsAbsorbing | pkg/bridge/manager.go:467-475 | in every interleaving, with no hypothesis: a dead slot stays dead, slots are only added, bridges are keyed by their own channel and their indices stay in range |
| SlotPool.DeadSlotStaysEmpty | pkg/bridge/manager.go:731-764 | in every interleaving, a dead slot without a bridge and without a start in hand on it never gets one again |
| SlotPool.DeathEmptiesTheSlot | pkg/bridge/manager.go:731-764 | the first death of a slot leaves no bridge on it, and a second one changes nothing |
| SlotPool.DeathLeavesNoBridge | pkg/bridge/manager.go:731-764 | whatever start is in hand: after a death run through, no bridge is ever on the slot again if and only if no start is in hand on that slot and it was not dead with a bridge before |
| SlotPool.PublishOutlivesItsSlot | pkg/bridge/manager.go:538-540 | a concrete run that ends with a published bridge on a dead slot, which another report of the death leaves there |
| SlotPool.OnlyItsStopEndsABridge | pkg/bridge/manager.go:551-568 | in every interleaving a bridge stays until its channel is stopped |
| SlotPool.DeathTouchesOneSlot | pkg/bridge/manager.go:731-764 | a death run through changes its own slot and removes the bridges on it, and nothing else |
| SlotPool.HandlersAreRuns | pkg/bridge/manager.go:460-547 | a start run through is claim then publish, a death is marking then stop, an added bot is one section: the handlers are runs of the sections |
| SlotPool.KindsAddUp | pkg/bridge/manager.go:769-778 | free + dead + busy slots are all the slots, and a free slot is found exactly when there is one |
| SlotPool.BusySlotsAreBridges | pkg/bridge/manager.go:767-779 | between handlers the busy slots are as many as the active bridges |
| SlotPool.StartOutcome | pkg/bridge/manager.go:460-547 | a start changes nothing or adds one published bridge on the lowest free slot |
| SlotPool.StartKeepsSettled | pkg/bridge/manager.go:460-547 | a start run through keeps the state between handlers well formed, with every bridge published and on a live slot |
| SlotPool.BuryKeepsSettled | pkg/bridge/manager.go:731-764 | so does a slot death |
| SlotPool.StartSucceedsExactly | pkg/bridge/manager.go:461-497 | a start of an inactive channel with a room succeeds if and only if there are fewer bridges than live slots, on the lowest free index; otherwise the pool is unchanged |
| SlotPool.AddSlotMakesRoom | pkg/bridge/manager.go:166-168 | an added slot is one more free slot at the end, and after it the next such start succeeds, however full the pool was |
| SlotPool.StartWithoutRoomRestores | pkg/bridge/manager.go:488-493 | without a room, or with a bridge there already, the pool ends exactly as it was |
| SlotPool.StopUndoesStart | pkg/bridge/manager.go:551-568 | start then stop restores the pool |
| SlotPool.StopAllOneMore | pkg/bridge/manager.go:836-848 | stopping channels one at a time, in any order, has the effect of stopping the set |
| SlotPool.StopAllKeepsSettled | pkg/bridge/manager.go:592-607 | stopping any set of channels keeps the state well formed |
| SlotPool.LowestFree | pkg/bridge/manager.go:468-475 | the slot search returns the first free index, and none only if no slot is free |
| SlotPool.ChannelIds | pkg/bridge/manager.go:467-475 | a channel id is any uint64 but 0, which marks a free slot, and 2^64-1, which marks a dead one |
| BridgeManager.TakeOutKeepsRoster | pkg/bridge/manager.go:638-653 | taking a user out of channels drops exactly that user there, drops emptied channels, and keeps each user in at most one channel |
| BridgeManager.JoinKeepsGood | pkg/bridge/manager.go:628-688 | a join keeps the whole invariant |
| BridgeManager.LeaveKeepsGood | pkg/bridge/manager.go:689-725 | a leave keeps the whole invariant |
| BridgeManager.StepKeepsGood | pkg/bridge/manager.go:592-863 | every handler keeps it |
| BridgeManager.RunKeepsGood | pkg/bridge/manager.go:616-779 | over every run of handlers: each Matrix user is in at most one channel, no listed channel is empty, no "@discord_" user is tracked, no channel has both a stop timer and users, and free + dead + active bridges == total slots |
| BridgeManager.Victim | pkg/bridge/manager.go:738-745 | the search over active bridges returns a bridge on the slot, or none when there is none |
| BridgeManager.BridgeOutlivesExactly | pkg/bridge/manager.go:592-863 | a bridge outlives an event, unchanged, if and only if the event is not one that ends it: a switch by one of its users, a callback over an empty channel, its sidecar's leave, its slot's death or removal, a manual leave, a close |
| BridgeManager.JoinBridgesExactly | pkg/bridge/manager.go:680-688 | a first join brings a bridge up if and only if the room is known and a live slot is free once the user's other channels are stopped |
| BridgeManager.BridgeStaysUntilFiredEmpty | pkg/bridge/manager.go:708-725 | over runs: if nothing but timers can end it, the bridge stays, on the same slot, until a callback sees no users |
| BridgeManager.NoTimerBeatsAUser | pkg/bridge/manager.go:715-723 | over runs: while a user stays, no timer ends the bridge, even one cancelled too late or one whose entry a stale callback removed |
| BridgeManager.UserStays | pkg/bridge/manager.go:638-693 | a user leaves a channel's list only by that user's own leave or switch |
| BridgeManager.WhoIsThereAfter | pkg/bridge/manager.go:616-727 | who is in a channel after any run: exactly those who were there and were kept, and those who joined and stayed |
| BridgeManager.JoinTracks | pkg/bridge/manager.go:660-678 | a join adds the user under the resolved name, once, and keeps the others |
| BridgeManager.RejoinKeepsTheBridge | pkg/bridge/manager.go:630-634 | leave, then anything that does not otherwise end the bridge, then rejoin before a callback has seen the channel empty: whatever fires afterwards the bridge is the one from before the leave |
| BridgeManager.SwitchLeavesUsersBehindExactly | pkg/bridge/manager.go:638-657 | a join leaves users of another channel without their bridge if and only if its user switches away from that channel and somebody else is still there |
| BridgeManager.SwitchStrandsTheOther | pkg/bridge/manager.go:638-657 | a concrete run from the start in which a user who stayed has no bridge |
| BridgeManager.LastLeaveArms | pkg/bridge/manager.go:697-725 | the leave that empties a channel registers a fresh timer and arms its callback; any other leave touches no timer |
| BridgeManager.CountdownGoesOn | pkg/bridge/manager.go:710-725 | an event that does not join, leave or kill the channel's own bridge leaves the armed callback armed |
| BridgeManager.DebouncedStopHappens | pkg/bridge/manager.go:715-723 | over runs of handlers that are such events the callback does its work: when it fires the bridge is gone |
| BridgeManager.JoinCancels | pkg/bridge/manager.go:630-634 | a join unregisters the timer; the callback is still to come exactly when the cancellation lost the race |
| BridgeManager.LateStopLosesExactlyTheJoins | pkg/bridge/manager.go:715-723 | after any run of handlers between the callback's look and its stop, users are left without a bridge if and only if somebody joined the channel in that run and stayed |
| BridgeManager.CloseEmpties | pkg/bridge/manager.go:592-607 | after a close: no bridges, no timers, every slot free unless dead |
| Effects.PuppetsAreIgnored | pkg/bridge/manager.go:616-626 | a call-member event of a user whose id starts with "@discord_", or for an unknown room, changes nothing at all |
| Effects.OthersAreTracked | pkg/bridge/manager.go:616-693 | every other user is tracked in the room's channel after a join and not after a leave |
| Effects.NoPuppetIsTracked | pkg/bridge/manager.go:616-619 | in every run no user whose id starts with "@discord_" is tracked |
| Effects.UsersExactly | pkg/bridge/manager.go:616-727 | after any event exactly those are in a channel who were there and were not taken out, or were put in; who was there keeps the name, a newcomer has the name of the join |
| Effects.TimersExactly | pkg/bridge/manager.go:592-756 | for every event, exactly: which timers are registered afterwards and under which number, which callbacks are still to come, and which numbers are used; a stopped callback survives exactly if its stop came too late, and a callback that runs leaves no entry for its channel |
| Effects.DeathDisarms | pkg/bridge/manager.go:746-752 | a slot's death, and a close, unregister the bridged channel's timer; its callback is still to come exactly when the cancellation lost the race |
| Effects.SlotsExactly | pkg/bridge/manager.go:127-764 | for every event: exactly a death or removal kills a slot, its own; exactly an added bot appends one, free |
| Effects.ManualJoinExactly | pkg/bridge/manager.go:818-833 | a manual join of an inactive channel brings a bridge up if and only if the room is known and there are fewer bridges than live slots; it takes the lowest free slot, and nothing else moves |
| Effects.BridgeComesUpExactly | pkg/bridge/manager.go:616-833 | a channel without a bridge has one after an event if and only if that is a first join or a manual join of it, its room is known, and a live slot is free once the user's other channels are stopped |
| Effects.RoomsExactly | pkg/bridge/manager.go:953-954 | only a discovery changes the room maps, one entry in each, and it changes nothing else |
| Interleavings.NextKeeps | pkg/bridge/manager.go:628-725 | every section of a join, a leave or a callback, and every stop, death or cancellation from elsewhere, keeps the membership and timer invariant and what the /sync goroutine relies on when it takes the lock again |
| Interleavings.InterleavingsKeepMembership | pkg/bridge/manager.go:616-764 | in every interleaving of sections, with no hypothesis: each Matrix user is in at most one channel, no listed channel is empty, no "@discord_" user is tracked, no channel has both a registered timer and users |
| Interleavings.NoPuppetIsTracked | pkg/bridge/manager.go:616-619 | in every interleaving no user whose id starts with "@discord_" is tracked |
| Interleavings.PuppetsAreIgnored | pkg/bridge/manager.go:616-619 | a join or a leave of such a user does not begin |
| Interleavings.FreshIsKept | pkg/bridge/manager.go:92-118 | a new manager meets every hypothesis of the laws over interleavings, so they hold of all that can be reached from it |
| Interleavings.BridgeEndsExactly | pkg/bridge/manager.go:551-568 | a section ends a bridge if and only if it is a stop of its channel: one from elsewhere, a callback's that was decided, or a switch's that was collected |
| Interleavings.NoCallbackBeatsATrackedUser | pkg/bridge/manager.go:671-723 | in every interleaving: once a user is tracked and no stop of the channel is decided already, no callback ends the bridge while the user stays |
| Interleavings.RunsThePool | pkg/bridge/manager.go:460-568 | the slot pool inside the whole manager sees a run of its own sections |
| Interleavings.InterleavingsKeepThePool | pkg/bridge/manager.go:460-764 | so in every interleaving of the whole manager dead slots stay dead and indices in range, and bridges and slots agree if no stop hits a channel being started |
| Interleavings.SwitchStops | pkg/bridge/manager.go:655-657 | the stops of a switch, in any order, stop exactly what was collected |
| Interleavings.JoinIsARun | pkg/bridge/manager.go:628-688 | a join run through is its sections one after the other |
| Interleavings.LeaveIsARun | pkg/bridge/manager.go:689-725 | so is a leave |
| Interleavings.FiringIsARun | pkg/bridge/manager.go:715-723 | so is a callback |
| Interleavings.DeathIsARun | pkg/bridge/manager.go:731-764 | so is a slot death, of a live slot with or without a bridge, or of a dead one: the sections run through are the whole event, timer cancellation included |
| Interleavings.ManualJoinIsARun | pkg/bridge/manager.go:818-833 | a manual join run through is its beginning, claim and publish |
| Interleavings.CloseIsARun | pkg/bridge/manager.go:592-607 | a close run through cancels the timers and stops every bridged channel, in any order |
| Interleavings.OneSectionEvents | pkg/bridge/manager.go:372-848 | a manual leave, a sidecar's leave and an added bot are one section each |
| Races.WhoIsThereAfter | pkg/bridge/manager.go:628-693 | who is in a channel after any sections: exactly those who were there and stayed, and those who were tracked and stayed |
| Races.LateStopLosesExactlyTheTracked | pkg/bridge/manager.go:715-723 | in every interleaving: a callback's stop leaves users without a bridge if and only if somebody was tracked since its channel was empty and stayed, whenever that join began |
| Races.EmptiedIsReached | pkg/bridge/manager.go:616-725 | a run from the start to an empty bridged channel with its timer armed |
| Races.JoinAcrossTheLookIsLost | pkg/bridge/manager.go:715-723 | a concrete run from there: a join that begins before the look and tracks its user after it ends without a bridge |
| Races.DeathHitsANewerBridgeExactly | pkg/bridge/manager.go:753-761 | a death's stop by channel id hits a bridge on another slot if and only if the channel was claimed a slot anew since the slot was marked |
| Races.DeathStopsTheNewBridge | pkg/bridge/manager.go:753-761 | a concrete run in which it does |
| Races.ArmsStartsCounting | pkg/bridge/manager.go:710-724 | in every state that can be reached, the section that arms a timer leaves the channel empty with that callback still to come |
| Races.CountingGoesOn | pkg/bridge/manager.go:710-725 | sections that begin no join or leave of the channel, do not kill its slot and cancel nothing leave it so |
| Races.DebouncedStopHappens | pkg/bridge/manager.go:715-723 | in every interleaving: after such sections, the look, and anything until its stop, the bridge is gone |
| Races.GoneForGood | pkg/bridge/manager.go:460-547 | with no start of the channel in hand, it stays without a bridge until a new join or manual start |
| Races.StopIsFinalExactly | pkg/bridge/manager.go:551-568 | without a new join or manual start the channel can get a bridge again if and only if the handler in hand is still to start or publish it |
| Manager.Manager.constructor | pkg/bridge/manager.go:92-118 | a new manager has free slots and empty maps, and meets the invariant |
| Manager.Manager.ClaimSlot | pkg/bridge/manager.go:461-497 | the section in place is the specification's claim, result included |
| Manager.Manager.PublishBridge | pkg/bridge/manager.go:528-540 | the section in place is the specification's publish |
| Manager.Manager.StartBridge | pkg/bridge/manager.go:460-547 | claim and publish together are the specification's start |
| Manager.Manager.StopBridgeForChannel | pkg/bridge/manager.go:551-568 | the section in place is the specification's stop: the bridge goes, its slot is freed unless dead |
| Manager.Manager.StopChannels | pkg/bridge/manager.go:655-657 | the loop of stops over collected channels has the effect of stopping the set |
| Manager.Manager.BridgeForSlot | pkg/bridge/manager.go:401-408 | returns a bridge on the slot, and none only when no bridge is on it |
| Manager.Manager.HandleSlotDeath | pkg/bridge/manager.go:731-764 | the handler is the specification's death for a bridge found on the slot, timer cancellation included |
| Manager.Manager.RemoveBot | pkg/bridge/manager.go:191-222 | fails without effect exactly for a slot that does not exist or is dead; otherwise it is a slot death |
| Manager.Manager.AddBot | pkg/bridge/manager.go:127-188 | appends one free slot and returns its index, or changes nothing when the sidecar does not start |
| Manager.Manager.Stats | pkg/bridge/manager.go:767-779 | counts bridges, busy slots and slots; between handlers busy slots equal bridges |
| Manager.Manager.CancelTimer | pkg/bridge/manager.go:631-634 | unregisters a channel's timer and disarms its callback if the stop comes in time |
| Manager.Manager.FireTimer | pkg/bridge/manager.go:715-723 | the callback is the specification's firing |
| Manager.Manager.OnMatrixCallMember | pkg/bridge/manager.go:616-727 | the handler is the specification's join or leave; an id that starts with "@discord_" and an unknown room change nothing |
| Manager.Manager.OnJoin | pkg/bridge/manager.go:628-688 | the join branch, section by section, is the specification's join |
| Manager.Manager.LeaveOthers | pkg/bridge/manager.go:635-653 | the loop takes the user out of exactly the other channels they were in, cancels those timers, and returns those channels |
| Manager.Manager.LeaveOne | pkg/bridge/manager.go:639-652 | one turn of that loop |
| Manager.Manager.OnLeave | pkg/bridge/manager.go:689-725 | the leave branch is the specification's leave |
| Manager.Manager.OnSidecarLeave | pkg/bridge/manager.go:372-382 | stops a bridge found on the slot, if there is one |
| Manager.Manager.ManualLeaveAll | pkg/bridge/manager.go:837-848 | stops every bridge |
| Manager.Manager.CancelAll | pkg/bridge/manager.go:595-598 | the loop unregisters every timer and disarms the callbacks whose stop comes in time |
| Manager.Manager.Close | pkg/bridge/manager.go:592-607 | cancels every timer and stops every bridge |
| Manager.OneVictim | pkg/bridge/manager.go:740-745 | in a coherent pool every answer of the map-order search is the same |
| Manager.Manager.Handle | pkg/bridge/manager.go:592-863 | every handler, as a program over the fields, is the specification's step and keeps the invariant |
| Bytes.LowByteFirst | pkg/ipc/protocol.go:91-94 | fixed-width numbers are written low byte first |
| Ipc.HeadIsAFrame | pkg/ipc/protocol.go:61-77 | a buffer that is long enough starts with the frame of the message read off it |
| Ipc.HeadOfFrame | pkg/ipc/protocol.go:56-105 | a written frame with anything after it reads back as its message, leaving exactly what came after |
| Ipc.RoundTripExactly | pkg/ipc/protocol.go:83-105 | write then read returns the message if and only if its payload has at most 65535 bytes |
| Ipc.FrameLayout | pkg/ipc/protocol.go:91-94 | type, user id, length and payload stand at offsets 0, 1, 9 and 11, numbers low byte first |
| Ipc.IncompleteIsStrictPrefix | sidecar/index.mjs:119-122 | the parser waits if and only if its buffer is a strict prefix of some frame |
| Ipc.DecodingIsUnique | pkg/ipc/protocol.go:56-80 | a byte stream has at most one decoding into messages and a remainder |
| Ipc.DecodingExists | pkg/ipc/protocol.go:56-80 | and it has one |
| Ipc.DecodingContinues | sidecar/index.mjs:117-134 | decoding the remainder with the next chunk continues the decoding of the whole stream |
| Ipc.PartOfAStream | sidecar/index.mjs:117-134 | any part of a stream of frames decodes to the first messages and a strict prefix of the next frame |
| Ipc.Conn.ReadFull | pkg/ipc/protocol.go:62-76 | gives the next n bytes, or an error once the stream is short, having swallowed it |
| Ipc.Conn.ReadMessage | pkg/ipc/protocol.go:56-80 | consumes exactly one frame and returns its message; fails exactly when no whole frame is left, in the header or in the payload |
| Ipc.Conn.Write | pkg/ipc/protocol.go:96-102 | all the data, or on an error the prefix that fitted |
| Ipc.Conn.WriteMessage | pkg/ipc/protocol.go:83-105 | the peer gets a prefix of the frame, and all of it exactly when no error is returned |
| Ipc.FillHeader | pkg/ipc/protocol.go:91-94 | the eleven bytes filled in place are type, user id and truncated length |
| Ipc.ReadAll | pkg/ipc/protocol.go:56-80 | reading until an error returns the one decoding of the stream, and the error tells where it was cut |
| Ipc.ReadLoop | cmd/bridge/main.go:226-256 | a slot's read loop hands over exactly the messages of the stream before the first SHUTDOWN, READY left out, and reports the slot dead exactly when the stream has no SHUTDOWN and the bridge is not stopping |
| Ipc.HandledExactly | cmd/bridge/main.go:244-255 | message by message: 0x05 is passed over, 0x06 ends the loop, every other message is handed on, in order |
| Ipc.SidecarWrite | sidecar/index.mjs:58-68 | produces the same frame as Go, and throws exactly for payloads over 65535 bytes |
| Ipc.IPCReader.constructor | sidecar/index.mjs:112-115 | starts with an empty buffer and nothing delivered |
| Ipc.IPCReader.TakeFrames | sidecar/index.mjs:119-133 | the loop delivers every whole frame at the head of the buffer and keeps the rest |
| Ipc.IPCReader.Feed | sidecar/index.mjs:117-134 | for any chunk: everything received so far is the frames of everything delivered, in order, followed by the buffer, which holds no whole frame |
| Ipc.OnData | sidecar/index.mjs:272 | however a stream is cut into chunks, its one decoding comes out |
| Ipc.SendInChunks | sidecar/index.mjs:117-134 | messages with payloads up to 65535 bytes, framed and cut into any chunks, are delivered exactly |
| Ipc.ReadersAgree | sidecar/index.mjs:117-134 | on every byte stream, whole or cut off and in any chunks, the sidecar's parser and Go's blocking reader return the same messages: its one decoding |
| Payloads.VoiceStatePayload | sidecar/index.mjs:101-109 | the buffer filled by offset is the layout, or an exception for a name over 65535 bytes |
| Payloads.VoiceStatePanicsExactly | pkg/bridge/manager.go:300-308 | the parse goes out of range exactly when 18 + nameLen wraps and the bytes are there; never on a payload a frame can carry |
| Payloads.VoiceStateParsesBack | pkg/bridge/manager.go:297-309 | the parse returns the ids and the name of any payload built from a name of at most 65517 bytes |
| Payloads.VoiceStateLayout | sidecar/index.mjs:101-109 | channel, category and name length stand at offsets 0, 8 and 16, low byte first, then the name |
| Payloads.CutVoiceStateParses | pkg/bridge/manager.go:297-309 | any part of a payload, or one with bytes after it, parses to the ids that are whole and to the name if all of it is there, and to zeros and an empty name otherwise |
| Payloads.SendVoiceState | sidecar/index.mjs:58-109 | end to end: the message leaves if and only if the name has at most 65517 bytes, and what leaves is framed, read and parsed back to the same ids and name |
| Payloads.UserInfoPayload | sidecar/index.mjs:82-91 | the buffer filled by offset is the layout, or an exception for an oversized part |
| Payloads.UserInfoPanicsExactly | pkg/bridge/manager.go:355-367 | the parse goes out of range exactly when 2 + nameLen wraps and the bytes are there; never on a payload a frame can carry |
| Payloads.UserInfoParsesBack | pkg/bridge/manager.go:353-368 | the parse returns name and avatar of any payload that fits a frame |
| Payloads.UserInfoLayout | sidecar/index.mjs:82-91 | name and avatar, each after its length, low byte first |
| Payloads.CutUserInfoParses | pkg/bridge/manager.go:353-368 | any part of a payload is ignored without a whole name length, and otherwise gives the strings that are whole |
| Payloads.SendUserInfo | sidecar/index.mjs:58-98 | end to end, as for voice states, if and only if name and avatar together have at most 65531 bytes |
| Payloads.SizeUserList | pkg/bridge/manager.go:886-889 | the first loop computes the size of the encoding |
| Payloads.PutEntry | pkg/bridge/manager.go:894-897 | one turn of the second loop writes one entry and keeps what is before it |
| Payloads.FillEntries | pkg/bridge/manager.go:892-898 | the second loop fills the buffer that was sized for the entries, keeps the count in front, and ends exactly at its end |
| Payloads.EncodeUserList | pkg/bridge/manager.go:885-898 | the buffer is the encoding of the names and the final offset is exactly its size |
| Payloads.DecodeUserList | sidecar/index.mjs:188-201 | the loop returns the entries, skips one cut off by the end, ignores short payloads and throws on a cut length |
| Payloads.EntriesDecodeBack | sidecar/index.mjs:194-201 | entries decode to the names that were encoded, from any offset |
| Payloads.UserListLayout | pkg/bridge/manager.go:885-893 | the count, low byte first, and then the entries |
| Payloads.EntryLayout | pkg/bridge/manager.go:894-897 | entry k is name k after its length, low byte first |
| Payloads.CutEntriesDecode | sidecar/index.mjs:194-201 | of entries that are cut off, exactly the whole names are returned; a cut length throws, a cut name is skipped |
| Payloads.DecodedFits | sidecar/index.mjs:194-201 | whatever the decoder returns fits in the bytes it read |
| Payloads.UserListDecodesBack | sidecar/index.mjs:188-201 | the decoder returns the same list, empty names included, for every encoding of at most 65535 bytes |
| Payloads.UserListArrivesExactly | pkg/bridge/manager.go:885-903 | through the frame and back, the list arrives as sent if and only if its encoding has at most 65535 bytes |
| Limiter.SoftLimitMeaning | pkg/livekit/subscriber.go:36-61 | unchanged exactly up to 8192, above it the sign stays and ten units of excess make one; the result is within 10649, so the clamp plays no part |
| Limiter.SoftLimitIsMonotone | pkg/livekit/subscriber.go:36-61 | monotone and non-expansive over all int16 pairs |
| Limiter.SoftLimitIsOdd | pkg/livekit/subscriber.go:36-61 | odd except at -32768 |
| Limiter.GainIsThirteenTwentieths | pkg/livekit/subscriber.go:361 | under float64 rounding of the constant and of the product, the gain is exactly 13/20 truncated toward zero, within 21299 |
| Limiter.ExactIsARounding | pkg/livekit/subscriber.go:361 | what is asked of a rounding can be met |
| Limiter.DownmixNeverWraps | pkg/livekit/subscriber.go:358-362 | downmix and gain stay within 21299, which is reached, so the int16 conversion never wraps |
| Limiter.DownmixFrame | pkg/livekit/subscriber.go:359-362 | the loop fills the first n mono samples from the interleaved ones and leaves the rest of the buffer alone |
| OpusOutput.Write | pkg/livekit/subscriber.go:127-153 | the call ends (remaining input, then fullness), takes all its input unless refused, and leaves a full buffer only after a refusal |
| OpusOutput.WriteConserves | pkg/livekit/subscriber.go:127-153 | under any failures the call appends exactly the samples it consumed to what is settled or buffered |
| OpusOutput.WriteTriesFullBlocks | pkg/livekit/subscriber.go:132-152 | only 960-sample blocks reach the encoder, and a refused block is still in the buffer |
| OpusOutput.RefusedBlockComesFirst | pkg/livekit/subscriber.go:148-150 | with a full buffer the next call encodes that block before taking any sample, and returns at once if it is refused again |
| OpusOutput.CutsDoNotMatter | pkg/livekit/subscriber.go:127-153 | cutting the input of a call in two changes nothing unless the first part is refused |
| OpusOutput.RunConserves | pkg/livekit/subscriber.go:122-155 | over any calls, mutes and failures: settled blocks followed by the buffer are the samples taken in |
| OpusOutput.RunIsOneWrite | pkg/livekit/subscriber.go:122-155 | without refusals a run of calls is one call on the concatenated unmuted input |
| OpusOutput.Reframes | pkg/livekit/subscriber.go:122-155 | without refusals the k-th block tried is the k-th 960 samples of the unmuted input, and pos is the total mod 960 |
| OpusOutput.HeardBlocks | pkg/livekit/subscriber.go:133-139 | the encoder gets every block limited and doubled to stereo |
| OpusOutput.PacketsFollowBlocks | pkg/livekit/subscriber.go:139-151 | packets sent plus failures are the blocks tried: a failure costs one packet and nothing else does |
| OpusOutput.RunAsksTheSink | pkg/livekit/subscriber.go:139-150 | over any run, what is recorded of a block is what encoder and handler answered for it |
| OpusOutput.FramesFollowTheInput | pkg/livekit/subscriber.go:122-155 | without refusals, the frames sent are the encodings of the 960-sample blocks of the unmuted input, limited and doubled, in order, less those the encoder failed on; pos is the remainder |
| OpusOutput.FrameIsItsBlock | pkg/livekit/subscriber.go:122-155 | with no encoder error either, frame k is the encoding of block k, there are total / 960 of them, and pos is the total mod 960 |
| OpusOutput.RefusalsOnlyDelay | pkg/livekit/subscriber.go:122-155 | over any calls, mutes, encoder errors and refusals: the k-th block settled is the k-th 960 samples taken in, its fate is the answer for it, the frames sent are those of the settled blocks in order, and the rest is in the buffer |
| OpusOutput.Output.constructor | pkg/livekit/subscriber.go:96-116 | starts empty; muted, as NewSubscriber leaves it |
| OpusOutput.Output.FillStereo | pkg/livekit/subscriber.go:133-137 | the loop limits the mono buffer into both channels of the stereo one |
| OpusOutput.Output.Deliver | pkg/livekit/subscriber.go:139-150 | one block to the encoder, and its packet to the handler |
| OpusOutput.Output.Copy | pkg/livekit/subscriber.go:128-130 | takes what fits or what there is into the buffer |
| OpusOutput.Output.Turn | pkg/livekit/subscriber.go:127-152 | one turn of the loop, with its three outcomes |
| OpusOutput.Output.WriteSample | pkg/livekit/subscriber.go:122-155 | the method in place is the specification's call; muted, it changes nothing |
| TrackModes.MixerKeepsAccounted | pkg/livekit/subscriber.go:371-380 | switching to the mixer keeps inputs and cancel channels accounted for |
| TrackModes.PassthroughKeepsAccounted | pkg/livekit/subscriber.go:383-393 | so does switching to passthrough |
| TrackModes.SubscribeKeepsAccountedExactly | pkg/livekit/subscriber.go:236-256 | subscribing keeps the account if and only if the track id is new |
| TrackModes.OverwrittenCancelIsLost | pkg/livekit/subscriber.go:242 | an overwritten entry's cancel channel belongs to no track and was never closed |
| TrackModes.UnsubscribeKeepsAccounted | pkg/livekit/subscriber.go:261-285 | unsubscribing, known id or not, keeps the account |
| TrackModes.SubscribeKeepsModes | pkg/livekit/subscriber.go:241-256 | after subscribing the mode follows the number of tracks |
| TrackModes.UnsubscribeKeepsModes | pkg/livekit/subscriber.go:261-285 | after unsubscribing too |
| TrackModes.InputsAreDistinct | pkg/livekit/subscriber.go:372-376 | no two tracks share a mixer input |
| TrackModes.CloseKeepsAccounted | pkg/livekit/subscriber.go:396-405 | closing keeps the account |
| TrackModes.CloseReleasesAll | pkg/livekit/subscriber.go:396-405 | after Close every cancel channel ever made is closed, no track is left and no input is registered |
| TrackModes.RunKeepsAccounted | pkg/livekit/subscriber.go:221-413 | in every run in which subscribed ids are new, Close included: the mixer's inputs are exactly the tracks', and each cancel channel ever made belongs to one track or was closed once |
| TrackModes.RunClosesOnce | pkg/livekit/subscriber.go:221-405 | in every run, Close included and track ids reused or not: no cancel channel is closed twice |
| TrackModes.SubscribesExactly | pkg/livekit/subscriber.go:221-242 | an identity that starts with "discord:" or "@discord_", or is "discord-bridge-listener", and a track that is not audio change nothing; any other track is there afterwards |
| TrackModes.NoBridgeTrack | pkg/livekit/subscriber.go:221-228 | in every run each track was brought in by such a subscription: nothing the bridge publishes itself is ever there |
| TrackModes.SubscribeSpares | pkg/livekit/subscriber.go:241-256 | a subscription closes nothing, and the other tracks keep their cancel channels and, in the mixer, their inputs |
| TrackModes.CancelIsNew | pkg/livekit/subscriber.go:234-242 | it gets a cancel channel never used before |
| TrackModes.UnsubscribesExactly | pkg/livekit/subscriber.go:261-277 | the end of a track closes its channel and no other, and takes out its entry and no other |
| TrackModes.RunKeepsModes | pkg/livekit/subscriber.go:221-293 | before Close: two or more tracks means all mixed and unmuted, one means passthrough and muted, none means muted |
| TrackModes.CloseKeepsModesExactly | pkg/livekit/subscriber.go:396-405 | Close leaves the output muted if and only if at most one track was there |
| Subscriber.Subscriber.constructor | pkg/livekit/subscriber.go:172-192 | starts without tracks, muted |
| Subscriber.Subscriber.OnTrackSubscribed | pkg/livekit/subscriber.go:221-256 | the handler is the specification's subscription; bridge identities and video are ignored |
| Subscriber.Subscriber.OnTrackUnsubscribed | pkg/livekit/subscriber.go:261-285 | the handler is the specification's unsubscription |
| Subscriber.Subscriber.MixOne | pkg/livekit/subscriber.go:372-378 | one turn of the loop gives a track an input unless it has one |
| Subscriber.Subscriber.MixEvery | pkg/livekit/subscriber.go:372-378 | the loop does so for every track, in any order |
| Subscriber.Subscriber.ActivateMixerLocked | pkg/livekit/subscriber.go:371-380 | all tracks mixed, old inputs kept, output unmuted |
| Subscriber.Subscriber.PassOne | pkg/livekit/subscriber.go:384-391 | one turn of the loop takes a track's input out of the mixer |
| Subscriber.Subscriber.PassEvery | pkg/livekit/subscriber.go:384-391 | the loop does so for every track, in any order |
| Subscriber.Subscriber.ActivatePassthroughLocked | pkg/livekit/subscriber.go:383-393 | all tracks in passthrough without inputs, output muted |
| Subscriber.Subscriber.CloseOne | pkg/livekit/subscriber.go:398-404 | one turn closes a channel not closed in this loop before |
| Subscriber.Subscriber.CloseEvery | pkg/livekit/subscriber.go:398-404 | the loop does so for every track, in any order |
| Subscriber.Subscriber.Close | pkg/livekit/subscriber.go:396-405 | closes exactly the tracks' channels, each once, and drops every track and its input |
| FrameStream.FlushDelivers | sidecar/index.mjs:156-165 | a flush delivers from the front and stops at the first refusal of more, if there is one |
| FrameStream.PushKeepsGood | sidecar/index.mjs:146-154 | a push drops one frame, the oldest, exactly when five are queued; with a read outstanding the frame goes straight through |
| FrameStream.ReadKeepsGood | sidecar/index.mjs:167-170 | a read delivers at least one queued frame and takes all of them exactly when every push has room |
| FrameStream.RunKeepsGood | sidecar/index.mjs:139-171 | under any answers: at most five queued, the queue is a suffix of what was pushed, an outstanding read means an empty queue, exits are final |
| FrameStream.FramesAreConserved | sidecar/index.mjs:139-171 | over every run pushed = delivered + dropped + queued |
| FrameStream.DropsMeanBackpressure | sidecar/index.mjs:146-171 | after any run with any answers: a push drops a frame exactly when five are queued, and frames are queued only if nothing has asked yet or the last answer was a refusal |
| FrameStream.NoDropWithoutBackpressure | sidecar/index.mjs:146-165 | with a read outstanding and pushes that report room, nothing is dropped or queued |
| FrameStream.UnpressedReaderGetsEverything | sidecar/index.mjs:139-171 | such a reader gets every frame in order |
| FrameStream.UnreadQueueKeepsTheLastFive | sidecar/index.mjs:146-150 | while nothing reads, the queue is the last five frames pushed |
| FrameStream.OpusFrameStream.constructor | sidecar/index.mjs:140-144 | starts empty with no read outstanding |
| FrameStream.OpusFrameStream.DeliverOne | sidecar/index.mjs:158-159 | moves the front frame to the reader and reports its answer |
| FrameStream.OpusFrameStream.FlushQueue | sidecar/index.mjs:156-165 | the loop in place is the specification's flush |
| FrameStream.OpusFrameStream.DropOldest | sidecar/index.mjs:147-149 | the loop drops from the front until four are left, and nothing when fewer than five are queued |
| FrameStream.OpusFrameStream.PushOne | sidecar/index.mjs:146-154 | the method in place is the specification's push |
| FrameStream.OpusFrameStream.ReadMore | sidecar/index.mjs:167-170 | the method in place is the specification's read |
| Participants.KeepsOnePerUser | pkg/livekit/manager.go:67-147 | every section keeps: connected and connecting are disjoint, and each connecting user has exactly one connect in flight |
| Participants.KeepsConserved | pkg/livekit/manager.go:67-203 | every section keeps: each room ever connected is held, in flight, being hung up or gone |
| Participants.RunKeepsParticipants | pkg/livekit/manager.go:67-203 | both, in every interleaving |
| Participants.PublishedRoomsAreAccountedFor | pkg/livekit/manager.go:131-203 | every room ever published is still held, being hung up, or gone |
| Participants.EntrySurvivesExactly | pkg/livekit/manager.go:100-107 | an entry survives a section if and only if it is not the loss of its own room, its removal or a close; publishing never overwrites an entry, a stale callback removes nothing |
| Participants.EntryStays | pkg/livekit/manager.go:67-203 | over runs without those, the user keeps the same room |
| Participants.HeldAliveExactly | pkg/livekit/manager.go:131-134 | no held room is gone, after every section, unless it publishes a room that was lost in flight |
| Participants.CloseIsFinalWithoutFlights | pkg/livekit/manager.go:193-203 | over runs: with an empty map and no connect in flight the map stays empty until a new connect begins |
| Participants.CloseMissesTheConnectInFlight | pkg/livekit/manager.go:131-134 | a connect in flight over a close ends up held |
| Participants.CloseMissesTheDial | pkg/livekit/manager.go:93-134 | so does one that was still dialling |
| Participants.CloseIsFinalExactly | pkg/livekit/manager.go:193-203 | after a close the map can become non-empty without a new connect if and only if a connect was under way |
| Participants.LostInFlightIsHeld | pkg/livekit/manager.go:100-134 | a concrete run from the start that ends with a room both held and gone |
| Participants.SectionsRun | pkg/livekit/manager.go:67-141 | uninterrupted, a connect leaves the two maps as they were or with the one new participant |
| Participants.SectionsExactly | pkg/livekit/manager.go:67-203 | what every section does, exactly: who is connecting, who is connected and with which room, which rooms are being hung up and which are gone |
| Participants.LiveKitManager.constructor | pkg/livekit/manager.go:41-48 | starts with both maps empty |
| Participants.LiveKitManager.BeginConnect | pkg/livekit/manager.go:68-78 | goes on to connect exactly if the user is neither connected nor connecting |
| Participants.LiveKitManager.ClearConnecting | pkg/livekit/manager.go:143-147 | a connect that failed early gives the user's flag back |
| Participants.LiveKitManager.GiveUp | pkg/livekit/manager.go:122-127 | a room whose track cannot be published is disconnected and the flag given back |
| Participants.LiveKitManager.PublishParticipant | pkg/livekit/manager.go:129-134 | the section in place is the specification's publish |
| Participants.LiveKitManager.EnsureParticipant | pkg/livekit/manager.go:67-141 | run through, it is its sequence of sections for each outcome of the two network calls, and nothing for a user already there |
| Participants.LiveKitManager.OnDisconnected | pkg/livekit/manager.go:100-105 | the callback in place is the specification's loss: only its own room's entry goes |
| Participants.LiveKitManager.RemoveParticipant | pkg/livekit/manager.go:178-190 | removes the entry and disconnects exactly that room |
| Participants.LiveKitManager.Close | pkg/livekit/manager.go:193-203 | empties the map and disconnects exactly the rooms that were in it |
| Presence.VoiceStateKeepsAgreement | pkg/bridge/manager.go:413-450 | a voice state keeps at most one event per user, in the room of the user's channel, on the signaller's record |
| Presence.VoiceStateKeepsAgreementExactly | pkg/bridge/manager.go:427-450 | it does so if and only if no needed take-down failed, or the new channel has the same room |
| Presence.VoiceStateMovesTheUser | pkg/bridge/manager.go:413-450 | where the user ends up for every channel, room and send result; other users are untouched |
| Presence.VoiceStateExactly | pkg/bridge/manager.go:413-450 | everything a voice state does, whichever sends fail: the user's channel, record and events, an expiry four hours on for a new event, and nothing of anybody else or of the clock |
| Presence.StepKeepsAgreement | pkg/matrix/signalling.go:118-423 | joins, leaves, renewals and waits keep the agreement; leaving for everyone with successful sends empties both sides |
| Presence.LeaveAllLeavesTheFailed | pkg/matrix/signalling.go:212-228 | leaving for everyone empties the record, and leaves standing exactly the events whose send failed |
| Presence.RenewalExactly | pkg/matrix/signalling.go:376-419 | a renewal gives an active user's event four hours from now if its send succeeds and leaves it as it was if the send fails; no other event and no record changes |
| Presence.TimePasses | pkg/matrix/signalling.go:367-374 | over runs the clock is what was waited |
| Presence.FailedLeaveStaysInBothRooms | pkg/bridge/manager.go:427-450 | a concrete run from the start that ends with the user's events in two rooms |
| Presence.RunKeepsAgreement | pkg/bridge/manager.go:413-450 | over every run in which the take-downs that are needed succeed, whether joins and renewals fail or not |
| Presence.StepKeepsFresh | pkg/matrix/signalling.go:367-423 | every active event is at least as young as the last renewal |
| Presence.RenewalKeepsEventsAlive | pkg/matrix/signalling.go:367-423 | with at most three hours from one renewal to the next, renewals that are sent and needed take-downs that succeed, no active event ever comes within an hour of its four-hour expiry |
| Presence.Signaller.constructor | pkg/matrix/signalling.go:57-80 | starts with nobody active |
| Presence.Signaller.Join | pkg/matrix/signalling.go:118-181 | the method in place is the specification's join; a failed send changes nothing |
| Presence.Signaller.Leave | pkg/matrix/signalling.go:184-209 | the method in place is the specification's leave; inactive users succeed without effect |
| Presence.Signaller.LeaveOne | pkg/matrix/signalling.go:220-221 | one turn of the loop takes down one user's event, unless the send fails |
| Presence.Signaller.LeaveEveryone | pkg/matrix/signalling.go:212-228 | the loop leaves for every active user, and goes on after a failed send |
| Presence.Signaller.RenewOne | pkg/matrix/signalling.go:388-418 | one turn of the loop rewrites one user's event, unless the send fails |
| Presence.Signaller.RenewEach | pkg/matrix/signalling.go:376-419 | the loop does so for every user that was active, and touches no other event |
| Presence.Signaller.RenewEveryone | pkg/matrix/signalling.go:376-419 | one tick rewrites the event of every active user whose send succeeds, and no other |
| Presence.VoiceTracker.OnVoice | pkg/bridge/manager.go:413-450 | the handler in place, over both objects, is the specification's voice state |
| Rooms.LearnKeepsInverseExactly | pkg/bridge/manager.go:953-954 | the pair of assignments keeps the two maps inverse if and only if no other channel has that room |
| Rooms.RepeatKeepsTheRoom | pkg/bridge/manager.go:913-919 | a repeated CHANNEL_LIST keeps the same room and changes nothing |
| Rooms.EnsureExactly | pkg/bridge/manager.go:912-1005 | a created room is the channel's in both maps, saved and marked if those writes succeed, and nothing else changes; a failed one changes nothing |
| Rooms.LearnLeavesNoStaleExactly | pkg/bridge/manager.go:953-954 | the second map keeps an entry that is out of date if and only if the channel had another room |
| Rooms.LoadRebuilds | pkg/bridge/manager.go:1246-1253 | loading the rest of a listing completes the maps, in whatever order the rows come |
| Rooms.RestartRebuilds | pkg/bridge/manager.go:1241-1258 | a restart with rows in the table puts exactly the table back in memory, with inverse maps |
| Rooms.RestartRecovers | pkg/bridge/manager.go:1260-1343 | a restart with an empty table puts exactly the marked rooms back in memory, with inverse maps, and saves those whose write succeeds |
| Rooms.RestartKeepsBacked | pkg/bridge/manager.go:1235-1347 | either way the invariant of maps, table and marks is kept |
| Rooms.RestartLosesNothingExactly | pkg/bridge/manager.go:1235-1347 | a restart loses nothing if and only if the table has rows and equals memory, or has none and every room in memory is marked |
| Rooms.StepKeepsBacked | pkg/bridge/manager.go:912-967 | every event keeps the maps inverse and the table within memory |
| Rooms.RunKeepsRooms | pkg/bridge/manager.go:912-967 | in every reachable state roomChannels[channelRooms[c]] == c, and a saved channel keeps its room for good, over lists and restarts |
| Rooms.UnsavedRoomsAreMissing | pkg/store/store.go:141-151 | memory and table agree if and only if every room created was saved |
| Rooms.UnmarkedRoomsAreMissing | pkg/bridge/manager.go:974-1005 | every room in memory is marked if and only if every room created was |
| Rooms.RestartIsExactWhenAllSaved | pkg/bridge/manager.go:1235-1347 | over runs: with rows in the table a restart loses nothing if and only if every room was saved, without rows if and only if every room was marked |
| Rooms.UnsavedRoomIsForgotten | pkg/bridge/manager.go:957-967 | a concrete run from the start in which a room whose row was not written is forgotten although it is marked |
| Rooms.RoomMaps.EnsureMatrixRoom | pkg/bridge/manager.go:912-1005 | the method in place is the specification's; it returns the channel's room, or nothing when creating fails |
| Rooms.RoomMaps.LoadFromTable | pkg/bridge/manager.go:1246-1253 | the loop in place loads every row |
| Rooms.RoomMaps.ScanRooms | pkg/bridge/manager.go:1325-1343 | the loop in place learns every room found and saves it if its write succeeds |
| Rooms.RoomMaps.DiscoverExistingRooms | pkg/bridge/manager.go:1235-1347 | the rows of the table if there are any, and otherwise the scan |

## Left out

- Matrix HTTP calls, Space and category discovery, profiles and avatars, SQLite itself, configuration, process
  start and signals, sockets and deadlines, logging: input and output. The rooms table is a map keyed by channel.
- Opus encoding and decoding, the media-sdk mixer, the LiveKit SDK, WebRTC and discord.js: unseen libraries. They
  appear as arbitrary functions of the call number (encoder and handler, the readable side's answers), as fresh
  mixer inputs, or as outcomes passed in.
- The sidecar's joinChannel/leaveChannel retries: they depend on event ordering inside @discordjs/voice.
- LiveKit room aliases, puppet user ids and identity strings: hashing and formatting.
- Admin command text, channel names and categories, nickname formatting, sync backoff and retry counts: little state
  and no hard property. A manual join or leave is given its channel instead of a name to look up.
- WriteOpus and the JoinedUsers sets: one lookup each; the connect that WriteOpus may begin is covered.
- How a scan reads a room's state and picks out its m.bridge event; RebuildDB, which runs the same scan on demand.
- `BridgeManager.RunKeepsGood`: handlers run through one at a time, and likewise in the other laws of that module.
  `Interleavings` and `Races` prove membership, the timer invariant, what can end a bridge, the debounced stop and the
  pool's laws for every interleaving of sections; that Stats adds up is stated between handlers only.
- `Manager.Manager.Stats`: the number of tracked voice users is not among the results, because voice states are kept
  in `Presence`.
- `Manager.Manager.AddBot`: its two sections are run through; nothing else appends slots in between, since bots are
  added on the one /sync goroutine.
- `SlotPool.InterleavingsKeepCoherent`: all starts run on the one /sync goroutine, so at most one start is pending.
  Channel ids are neither 0 nor 2^64-1, the two values that mark free and dead slots.
- `Subscriber.Subscriber.Close`: a track entry is a value in the map, since every write to one is made under the
  subscriber's lock; what the entry's read goroutine sees without the lock is not captured. Cancel channels are
  numbered; closing one is recording its number.
- `Limiter.GainIsThirteenTwentieths`: float64 rounding is any function that keeps order and leaves multiples of 1/32
  alone; the bits of a float64 are not modelled.
- `Ipc.IPCReader.Feed`: messages are recorded; a callback that throws or feeds the reader again, and the sharing
  of memory between payload and buffer, are not modelled, nor is the sidecar's own exit on SHUTDOWN.
- `Rooms.RunKeepsRooms`: the query and the scan of a restart succeed, and created rooms are new.
- `FrameStream.RunKeepsGood`: no push is made from inside the readable side's own push.
- `Payloads.SendVoiceState`: names and avatars are byte strings; UTF-8 encoding is not modelled.
- `Presence.RunKeepsAgreement`: the channel's room does not change during a run, a failed join has no effect on the
  server, and a renewal does not overlap a leave.
- `Participants.LiveKitManager.Close`: the disconnects after the map is swapped are run through; other sections
  falling between them are covered by the section HungUp.
