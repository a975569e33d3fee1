# Verification of the Pi remote coordinator and daemon

Dafny models of the parts of the system that carry session history from a Pi process to a phone, with proofs of what
they promise. `dafny verify dfyconfig.toml` checks the whole project.

The path of one byte: tmux writes it escaped (`Tmux`), the daemon removes terminal-title sequences (`SanitizerSpec`,
`SanitizerProps`, `SanitizerBytes`, `Sanitizers`), gives the chunk the next number of its session (`MuxSpec`,
`MuxEffects`, `Multiplexes`), while its own session registry decides which sessions live (`DaemonSpec`,
`DaemonEffects`, `DaemonRegistries`). The link to the coordinator may break anywhere (`Link`); what the coordinator
makes of the frames of one connection is exact for every interleaving (`LinkGate`, `LinkHandshake`), and nothing fresh
is refused, or missing once the link is idle, under the conditions the daemon aims at (`LinkResume`, `LinkDrain`); the
daemon's end of the link is the multiplex (`LinkCallbacks`). The coordinator reads each connection in a loop
(`DaemonWs`), lets only advancing numbers through (`IngestSpec`, `IngestRuns`, `IngestEffects`, `IngestSends`,
`Ingestors`), stores entries in one ring per session (`Ring`, `RingBuffers`) inside a registry (`RegistrySpec`,
`RegistryRuns`, `SessionRegistry`) under a global byte budget (`Balance`, `BalanceProps`, `BalanceLoss`,
`LruBalancer`), and hands history and live frames to phones (`Sessions`, `Handover`, `ClientWs`, `Attachments`). Each
module is in the file of its name.

## How the models are built

Where the Go code updates objects in place, so does the model: `RingBuffer`, `Session`, `ClientConn`, the two
`Registry` classes, `Ingestor`, `DaemonHandler`, `ClientHandler`, `Sanitizer`, `SeqAllocator`, `Multiplex` are
classes, and each method is proved to take the object's value to the value that a specification function gives.
`Ring`, `RegistrySpec`, `IngestSpec`, `SanitizerSpec`, `DaemonSpec` and `MuxSpec` hold these functions; the properties
of whole histories are lemmas about them. What one call means is said a second time without these functions: on the
fields of the result (`IngestEffects`, `DaemonEffects`, `MuxEffects`), client by client (`IngestSends`), entry by
entry (`Ring`), or in plain bytes (`SanitizerBytes`, `Tmux`). Methods that would have to reason about many objects
take the value before the call as a ghost argument `v`, with `Is(v)` saying that the object holds it; `members` are
the clients of every session, and methods give both back, so that one call can follow another:
`DaemonWs.DaemonHandler.Serve` handles all frames of a connection. What clients are sent is the ghost map
`CallsOf(cs)` of all `Send` calls of the connections `cs`; methods state it whole, so that nobody else is sent
anything.

Locks are atomic steps. Where the granularity matters the steps are finer than one call: `Handover` interleaves the
single steps of `Publish`, `Broadcast`, `AttachWithReplay` and `Detach`; `Link` separates taking a number from writing
the frame; `Attachments` separates the three steps of an attach frame. Time is a number given from outside. The order
in which Go walks a map is arbitrary and appears as a ghost listing `order`. Ghost state records what the program
itself forgets: every entry ever appended to a ring, every `Send`, every callback, which registration made a session
object.

Integer widths are written out where they can matter: sequence numbers are `uint64` with the wrap of `lastSeq + 1`,
the coordinator's numbers are `int`, the octal arithmetic is on bytes. The three float conversions of the cache policy
are functions with `grow(m) >= m`, `0 <= shrink(m) < m` for `m > 0`, and `mark(m) <= m`; for budgets below 2^50 they
are off by less than two from eleven, nine and eight tenths of `m`.

## Where code and documentation differ

The models follow the code.

- The system specification in `pi-remote-spec`, sections 8.6 and 18.3: a shrunk session evicts on its next append, and
  with every session at its floor the most recently touched one is evicted further. The code evicts at once and then
  stops, if need be over the cap. It gets under the cap if and only if the ended rings and what each live ring can
  keep within the floor are together under it (`BalanceProps.BalanceMeetsCapExactly`,
  `RegistryRuns.RebalanceMeetsCapExactly`); `RegistryRuns.LateFrameStaysOverCap` is a run that stays over it.
- The same, sections 8.6 and 18.1: the floor keeps a quiet session from being evicted completely. A live ring is
  emptied if and only if its newest entry alone is larger than the floor and, beside what the other rings then hold,
  what it keeps just before losing that entry exceeds the cap (`BalanceLoss.BalanceEmptiesExactly`, computed from the
  rings before balancing; `RegistryRuns.RebalanceEmptiesExactly`). `BalanceProps.LargeEntryIsLost` is an instance.
- The same, section 18.4: a stale attach to a fully evicted ring is answered with `replay_unavailable`. For
  `RingBuffer` alone, which stores any `uint64`, there is one exception: an emptied ring whose newest number is the
  last one (`Ring.ReplayComplete` states it exactly, `Ring.RunReplayComplete` over runs). The coordinator's numbers
  come from an `int`, and it has no exception (`IngestRuns.ReplayIsComplete`).
- `pi-remote-coordinator/internal/broker/broker.go:157-158`: a gap exists if and only if the first number the client
  needs precedes the oldest entry. State changes take numbers and are never stored, so a client can be refused with
  nothing missing: if and only if the oldest live entry is not its next number and nothing beyond its own is gone
  (`Ring.RefusalExactly`; `Ring.RefusedWithNothingMissing` is an instance). What is answered is complete
  (`IngestRuns.ReplayIsComplete`).
- `pi-remote-daemon/internal/session/registry.go:92-94`: the end callback fires once per session ending. It fires if
  and only if no end of the same id was reported before (`DaemonSpec.EndReportedExactly`): the code remembers ended
  ids for ever, so the second life of an id ends unreported (`DaemonSpec.SecondEndIsLost` is such a run).
- `pi-remote-daemon/internal/session/multiplex.go:22-27`: a dropped frame still takes its number, so that numbers
  match after a reconnect. With number and frame taken in one step every frame of an announced session that arrives
  after a handshake is accepted, whatever was lost (`LinkResume.EveryLaterFrameIsAccepted`). With concurrent producers
  a frame can be overtaken and is refused (`LinkResume.OvertakenFrameIsRefused`); a frame is accepted if and only if
  its session is known and its number exceeds the coordinator's and those ahead of it on the wire
  (`LinkHandshake.ArrivalDecidedInRun`).

## Model

| member | source | states |
|---|---|---|
| Ring.FitFits | pi-remote-coordinator/internal/broker/broker.go:57-62 | what eviction keeps is a suffix of the contents, and it fits the room unless nothing is left |
| Ring.FitLongest | pi-remote-coordinator/internal/broker/broker.go:57-62 | no longer suffix would have fitted: eviction drops no entry without need |
| Ring.AppendKeeps | pi-remote-coordinator/internal/broker/broker.go:51-93 | after an append the contents are the newest part of the history, the reported window describes them, and bytes are within budget except for one oversized entry; how much it keeps is `Ring.AppendDropsOnlyWhatMust` |
| Ring.AppendDropsOnlyWhatMust | pi-remote-coordinator/internal/broker/broker.go:51-93 | an append drops nothing that still fits: with room for all it adds the entry, and otherwise any longer part of the old contents would be too much beside it; the budget stays |
| Ring.EvictKeeps | pi-remote-coordinator/internal/broker/broker.go:96-114 | eviction, to empty if need be, keeps the window consistent with the history, meets the budget, and changes nothing under it |
| Ring.EvictDropsOnlyWhatMust | pi-remote-coordinator/internal/broker/broker.go:96-114 | an eviction keeps the longest part that fits the budget; budget, newest number and history stay |
| Ring.EvictEmptiesExactly | pi-remote-coordinator/internal/broker/broker.go:96-114 | a ring is emptied if and only if its newest entry alone exceeds the budget; otherwise that entry stays |
| Ring.ReplayComplete | pi-remote-coordinator/internal/broker/broker.go:146-171 | for ascending appends an accepted replay returns every entry ever appended beyond lastSeq, if and only if the ring is not an emptied one at the last uint64 |
| Ring.RefusalHasCause | pi-remote-coordinator/internal/broker/broker.go:157-162 | for a history numbered from 1, a refusal means that the first needed entry was appended and evicted, if and only if lastSeq + 1 does not wrap |
| Ring.ReplayAnsweredExactly | pi-remote-coordinator/internal/broker/broker.go:146-171 | for every window of positive numbers, gaps included: a replay is answered if and only if the oldest live entry is at most the first number needed, or with none live the newest ever appended is no news, the last uint64 apart; a refusal reports the true window |
| Ring.RefusalExactly | pi-remote-coordinator/internal/broker/broker.go:157-161 | a client is refused whenever an entry it has not seen is gone, and refused without cause exactly when the oldest live entry is not its next number and nothing beyond its own is gone |
| Ring.RefusedWithNothingMissing | pi-remote-coordinator/internal/broker/broker.go:157-161 | events 7 and 9 with a state change between them, the first evicted: a client that has seen 7 is refused, though all it has not seen is still there |
| Ring.RunKeeps | pi-remote-coordinator/internal/broker/broker.go:51-114 | over every sequence of appends, evictions and budget changes the window stays consistent and the history is what was appended |
| Ring.RunReplayComplete | pi-remote-coordinator/internal/broker/broker.go:146-171 | over every such sequence: what is replayed is everything appended beyond lastSeq, or a refusal, if and only if the ring is not an emptied one at the last uint64 |
| RingBuffers.RingBuffer.Grow | pi-remote-coordinator/internal/broker/broker.go:67-83 | doubling the circular slice keeps the live entries in order and makes room |
| RingBuffers.RingBuffer.Place | pi-remote-coordinator/internal/broker/broker.go:57-87 | evict, grow and store over wraparound: the longest fitting suffix of the old contents, then the new entry; Bytes is the sum of live payloads |
| RingBuffers.RingBuffer.Append | pi-remote-coordinator/internal/broker/broker.go:51-93 | the circular buffer refines the plain sequence operation, sequence window included, and so drops only what must go (`Ring.AppendDropsOnlyWhatMust`) |
| RingBuffers.RingBuffer.EvictLocked | pi-remote-coordinator/internal/broker/broker.go:96-114 | in-place eviction refines the sequence operation, with the window of an emptied ring kept |
| RingBuffers.RingBuffer.AllEntriesLocked | pi-remote-coordinator/internal/broker/broker.go:124-138 | walking the slots from tail to head yields the live entries, oldest first |
| RingBuffers.RingBuffer.Replay | pi-remote-coordinator/internal/broker/broker.go:146-171 | the filter loop returns the entries beyond lastSeq, or the refusal with the window, each exactly when `Ring.ReplayAnsweredExactly` says |
| Balance.ShrinkReducesExcess | pi-remote-coordinator/internal/broker/broker.go:244-256 | one shrink step strictly lowers a candidate's distance from the floor, both when its budget is above the floor and when it is reset to it |
| Balance.ShrinkTerminates | pi-remote-coordinator/internal/broker/broker.go:210-258 | the shrink loop has a falling measure for every set of rings and every floor |
| BalanceProps.ShrinkReduces | pi-remote-coordinator/internal/broker/broker.go:222-257 | every ring ends with a suffix of what it had; ended rings and rings at or below the floor keep everything |
| BalanceProps.ShrinkMeetsBudget | pi-remote-coordinator/internal/broker/broker.go:210-242 | the loop stops only under the cap or with every live ring at or below the floor |
| BalanceProps.ShrinkMeetsCapExactly | pi-remote-coordinator/internal/broker/broker.go:210-258 | the loop ends under the cap if and only if the rings would be under it with every live one cut to the floor, a condition on its input |
| BalanceProps.ShrinkToFloor | pi-remote-coordinator/internal/broker/broker.go:210-258 | if not, every live ring ends with exactly its newest entries that fit the floor |
| BalanceProps.ShrinkIsFair | pi-remote-coordinator/internal/broker/broker.go:222-237 | if a ring loses an entry, every live ring touched strictly earlier ends at or below the floor |
| BalanceProps.ShrinkEvictsOnlyOverCap | pi-remote-coordinator/internal/broker/broker.go:218-257 | putting back what the last eviction took would exceed the cap |
| BalanceProps.ShrinkKeepsBudgets | pi-remote-coordinator/internal/broker/broker.go:246-256 | budgets stay between floor and cap and bytes within budgets through the whole loop |
| BalanceProps.FloorKeepsNewest | pi-remote-coordinator/internal/broker/broker.go:246-256 | a newest entry that fits the floor survives any balancing |
| BalanceProps.LargeEntryIsLost | pi-remote-coordinator/internal/broker/broker.go:246-256 | a ring holding one entry larger than the cap is emptied despite the floor |
| BalanceProps.GrowOrShrink | pi-remote-coordinator/internal/broker/broker.go:190-220 | under the mark nothing is evicted and over the cap nothing grows; which ring grows and how far is `BalanceProps.GrowExactly` |
| BalanceProps.GrowExactly | pi-remote-coordinator/internal/broker/broker.go:190-207 | which ring grows and by how much: the one with the active id, only under the mark, to the grown budget or the cap; no other budget changes |
| BalanceProps.BalanceGrowsExactly | pi-remote-coordinator/internal/broker/broker.go:182-259 | under the mark the whole policy does just that |
| BalanceProps.ShrinkRingExactly | pi-remote-coordinator/internal/broker/broker.go:244-256 | one shrink step sets the budget to the shrunk one or the floor and evicts no more than that demands |
| BalanceProps.PolicyByTenths | pi-remote-coordinator/internal/broker/broker.go:190-248 | up to two bytes of rounding: under eight tenths of the cap the active budget grows by a tenth or to the cap, over them none grows, and a shrink step takes a tenth or goes to the floor |
| BalanceProps.BalanceIsFair | pi-remote-coordinator/internal/broker/broker.go:182-259 | with growth before: if a ring loses an entry, every live ring touched strictly earlier ends at or below the floor |
| BalanceProps.BalanceKeepsBudgets | pi-remote-coordinator/internal/broker/broker.go:194-256 | growth clamped at the cap and shrinking both keep every ring's budget and bytes in bounds |
| BalanceProps.BalanceKeepsContents | pi-remote-coordinator/internal/broker/broker.go:182-259 | the whole policy only evicts oldest entries of live rings over the floor |
| BalanceProps.BalanceMeetsBudget | pi-remote-coordinator/internal/broker/broker.go:182-259 | afterwards the total is at most the cap, or ended bytes plus one floor per live ring |
| BalanceProps.BalanceMeetsCapExactly | pi-remote-coordinator/internal/broker/broker.go:182-259 | the whole policy ends under the cap if and only if ended rings and floor-sized live rings fit it |
| BalanceLoss.ShrinkEmptiesCrowded | pi-remote-coordinator/internal/broker/broker.go:210-258 | the loop empties a live ring whose newest entry exceeds the floor if and only if the rings shrunk before it, cut to the floor, all others whole, and the most it holds before its newest entry goes are together over the cap |
| BalanceLoss.BalanceEmptiesExactly | pi-remote-coordinator/internal/broker/broker.go:182-259 | exactly which rings the whole policy empties, from its input: live, newest entry over the floor, and crowded out in this way; when the cap cannot be met, that entry decides alone |
| BalanceProps.EndedRingStaysOverCap | pi-remote-coordinator/internal/broker/broker.go:222-228 | an ended ring larger than the cap keeps the total over it |
| LruBalancer.ShrinkUntilFits | pi-remote-coordinator/internal/broker/broker.go:211-258 | the loop over ring objects, all distinct, computes the shrinking of their values and terminates |
| LruBalancer.BalanceGlobalLRU | pi-remote-coordinator/internal/broker/broker.go:182-259 | the in-place policy over ring objects refines the policy on values, which grows exactly the active ring (`BalanceProps.BalanceGrowsExactly`) |
| Handover.StepKeeps | pi-remote-coordinator/internal/sessions/session.go:93-135 | each single step of publish, broadcast, attach, detach and cache eviction keeps what every client is owed |
| Handover.RunKeeps | pi-remote-coordinator/internal/sessions/session.go:93-135 | so does every interleaving of these steps |
| Handover.HandoverIsExact | pi-remote-coordinator/internal/sessions/session.go:93-135 | at any moment the history frames sent to an attached client plus the one in flight are its backlog followed by everything published since |
| Handover.ResumedClientGetsHistory | pi-remote-coordinator/internal/sessions/session.go:118-135 | attached with an available lastSeq, at every moment of every interleaving: what was sent and what is in flight is exactly the published history beyond lastSeq, in order, no gap, no duplicate, if and only if the ring was not an emptied one at the last uint64 |
| Handover.FreshOrLateClientGetsTheRest | pi-remote-coordinator/internal/sessions/session.go:126-134 | attached from 0: the ring, then everything since; attached too late: one notice, then everything since |
| Handover.AttachedClientIsServed | pi-remote-coordinator/internal/sessions/session.go:118-135 | at every moment of every interleaving an attached client has been sent one of three things, decided by the entries alone: the ring, all history beyond its number, or a notice with the true window; and then everything published since |
| Handover.AttachUninterrupted | pi-remote-coordinator/internal/sessions/session.go:118-135 | an attach run to its end sends the backlog to this client alone and attaches it; a detach then takes it out |
| Handover.AwayIsSentNothing | pi-remote-coordinator/internal/sessions/session.go:54-62 | a client that has left, or never came, is sent nothing by whatever follows until it attaches again |
| Handover.GapWithoutPublishMu | pi-remote-coordinator/internal/sessions/session.go:24-28 | a publish between replay and attach is forbidden by the lock; if it happened, no later run that keeps the client attached would ever send it that entry, while it is sent everything published after |
| Handover.PublishUninterrupted | pi-remote-coordinator/internal/sessions/session.go:93-100 | a publish run to its end appends once and sends once to each attached client, in whatever order |
| Sessions.ClientConn.Send | pi-remote-coordinator/internal/http/client_ws.go:36-42 | every call is recorded; a full queue drops the frame and never blocks |
| Sessions.Session.GetAttachedClients | pi-remote-coordinator/internal/sessions/session.go:65-73 | every attached client exactly once |
| Sessions.Session.Publish | pi-remote-coordinator/internal/sessions/session.go:93-100 | ring appended, one data frame to each attached client and none to anybody else |
| Sessions.Session.Broadcast | pi-remote-coordinator/internal/sessions/session.go:106-112 | one control frame to each attached client and none to anybody else, ring untouched |
| Sessions.Session.AttachWithReplay | pi-remote-coordinator/internal/sessions/session.go:118-135 | the client is sent the backlog of the ring as it is and is attached; the counts returned are those of the replay; whether that is history or a notice is `Ring.ReplayAnsweredExactly` |
| RegistrySpec.PauseInAnyOrder | pi-remote-coordinator/internal/sessions/registry.go:149-176 | pausing one by one in any map order: paused are exactly the sessions that were and the machine's sessions that have not ended, nothing else changes, and a second pause changes nothing |
| RegistrySpec.TotalOfListing | pi-remote-coordinator/internal/sessions/registry.go:193-208 | the byte total is the same for every iteration order of the session map |
| RegistryRuns.PublishKeeps | pi-remote-coordinator/internal/sessions/registry.go:215-229 | publishing keeps the global budget and every ring's budget |
| RegistryRuns.RegisterKeeps | pi-remote-coordinator/internal/sessions/registry.go:59-86 | a fresh or replacing registration keeps them, its initial budget included |
| RegistryRuns.OpKeeps | pi-remote-coordinator/internal/sessions/registry.go:69-229 | every registry operation keeps them, and so does a client that attaches or leaves |
| RegistryRuns.RunMeetsBudget | pi-remote-coordinator/internal/sessions/registry.go:215-229 | after every step of every run: total at most the cap, or ended bytes plus one floor per live ring; every ring between floor and cap and within its budget or holding one entry |
| RegistryRuns.RebalanceMeetsCapExactly | pi-remote-coordinator/internal/sessions/registry.go:215-229 | balancing the registry ends under the cap if and only if its ended sessions and what its live ones can keep within the floor are together under it |
| RegistryRuns.RebalanceEmptiesExactly | pi-remote-coordinator/internal/sessions/registry.go:215-229 | balancing the registry empties a live session's ring if and only if its newest entry alone exceeds the floor and the ring is crowded out beside the others; when the cap cannot be met, that entry decides alone |
| RegistryRuns.LateFrameStaysOverCap | pi-remote-coordinator/internal/sessions/registry.go:215-229 | a run that stays over the cap: a session ends and a frame larger than the cap still arrives |
| RegistryRuns.RebalanceEvictsOnly | pi-remote-coordinator/internal/sessions/registry.go:215-229 | balancing touches nothing of a session but its ring's budget and oldest entries |
| RegistryRuns.RebalanceGrowsExactly | pi-remote-coordinator/internal/sessions/registry.go:215-229 | under the mark the active session's budget grows, never beyond the cap, and nothing else of any session changes |
| RegistryRuns.RebalanceIsFair | pi-remote-coordinator/internal/sessions/registry.go:193-229 | whichever session loses an entry, every live one touched strictly earlier ends at or below the floor |
| SessionRegistry.Registry.WithLimits | pi-remote-coordinator/internal/sessions/registry.go:40-53 | limits that are not positive are replaced by the defaults |
| SessionRegistry.Registry.Register | pi-remote-coordinator/internal/sessions/registry.go:69-86 | the new object has its own ring and slice, distinct from those of all other sessions, and no clients; every other session keeps its object and its clients |
| SessionRegistry.Registry.AdvanceSeq | pi-remote-coordinator/internal/sessions/registry.go:102-117 | true exactly when the number was ahead, and then LastSeq is that number |
| SessionRegistry.Registry.RestoreLastSeq | pi-remote-coordinator/internal/sessions/registry.go:179-190 | LastSeq becomes the greater number |
| SessionRegistry.Registry.LRUItems | pi-remote-coordinator/internal/sessions/registry.go:193-208 | one item per session with its own ring, in some order |
| SessionRegistry.Registry.PauseAllForMachine | pi-remote-coordinator/internal/sessions/registry.go:149-176 | the in-place loop pauses exactly the machine's live sessions, keeps rings and clients, and tells each client of a session it paused, in map order, and nobody else |
| SessionRegistry.Registry.Publish | pi-remote-coordinator/internal/sessions/registry.go:215-229 | append, fan-out, touch and balance over the objects refine the value operation; each client of the session is sent the entry once and nobody else anything; every session keeps its object and its clients |
| IngestSpec.IngestSeq | pi-remote-coordinator/internal/machines/ingest.go:257-340 | an accepted frame leaves every session's ring ascending and at most LastSeq, raises only its own session's number, and extends histories only |
| IngestRuns.HandleStep | pi-remote-coordinator/internal/machines/ingest.go:142-190 | every frame of any kind keeps the invariant, and histories and numbers only grow |
| IngestRuns.CloseStep | pi-remote-coordinator/internal/http/daemon_ws.go:93-101 | so does the end of a connection, which pauses its machine's sessions and forgets it |
| IngestRuns.GateHolds | pi-remote-coordinator/internal/machines/ingest.go:159-164 | before its registration a connection changes nothing and gets an error |
| IngestRuns.RingsFollowTheGate | pi-remote-coordinator/internal/machines/ingest.go:257-340 | in every run ring numbers are strictly ascending, positive and at most LastSeq |
| IngestRuns.LastSeqNeverFalls | pi-remote-coordinator/internal/sessions/registry.go:102-117 | LastSeq never falls and history is never rewritten for the same session object |
| IngestRuns.OneEventPushPerNumber | pi-remote-coordinator/internal/machines/ingest.go:257-283 | at most one event push per session object and number, whatever is received twice |
| IngestRuns.ReplayIsComplete | pi-remote-coordinator/internal/broker/broker.go:146-171 | for rings filled through the gate an accepted replay has no gap, without any condition on numbers |
| IngestRuns.ReplayAnswered | pi-remote-coordinator/internal/broker/broker.go:146-171 | in every run a client is answered if and only if the oldest entry of its session is at most the first number it needs, or there is none and none is news |
| IngestRuns.RunMeetsBudget | pi-remote-coordinator/internal/sessions/registry.go:215-229 | the cache budget over every run of received frames |
| IngestRuns.OthersOnlyEvicted | pi-remote-coordinator/internal/machines/ingest.go:166-189 | a frame about one session changes another at most by evicting its oldest entries |
| IngestEffects.ErrorExactly | pi-remote-coordinator/internal/machines/ingest.go:142-190 | exactly which error every frame gets, before and after the registration |
| IngestEffects.OtherFrameEffect | pi-remote-coordinator/internal/machines/ingest.go:142-190 | a machine_register binds its connection to its machine and touches no session; malformed and unknown frames and spawn answers change nothing |
| IngestEffects.StartedEffect | pi-remote-coordinator/internal/sessions/registry.go:59-86 | a started session is running, without number or entries, with a tenth of the cap or the floor as budget; all others stay |
| IngestEffects.ResumeEffect | pi-remote-coordinator/internal/machines/ingest.go:416-442 | a resumed session runs: a known one keeps everything but state, stamp and the greater number; an unknown one is fresh, under the connection's machine, with the daemon's number if positive |
| IngestEffects.StateChangeEffect | pi-remote-coordinator/internal/machines/ingest.go:342-357 | the state is the one sent, the number the greater one, stale or not; idle and unresponsive are pushed; nothing else of the registry changes |
| IngestEffects.EndedEffect | pi-remote-coordinator/internal/machines/ingest.go:386-414 | the session is ended, its number the greater one, and the end pushed; nothing else changes |
| IngestEffects.SuspendingEffect | pi-remote-coordinator/internal/machines/ingest.go:444-451 | exactly the sessions of the connection's machine that have not ended and are not paused become paused, and nothing else changes |
| IngestEffects.CloseEffect | pi-remote-coordinator/internal/http/daemon_ws.go:93-101 | the same when a registered connection is lost; the connection is forgotten and no other one is |
| IngestEffects.StaleEffect | pi-remote-coordinator/internal/machines/ingest.go:257-340 | an entry with a stale number, or for an unknown session, changes nothing at all |
| IngestEffects.AcceptedEffect | pi-remote-coordinator/internal/machines/ingest.go:257-340 | an entry with a number ahead stamps its session, sets the number, adds exactly this entry to the history, and is pushed if it is an event of one of the five kinds; other sessions lose oldest entries at most |
| IngestEffects.FittingEntryIsStored | pi-remote-coordinator/internal/sessions/registry.go:215-229 | an entry that fits its ring and the cap joins the live ones and costs no session any; under the mark its session's budget grows and no other changes |
| IngestEffects.AcceptedIsFair | pi-remote-coordinator/internal/sessions/registry.go:215-229 | if a frame costs another session an entry, every live session touched before that one ends at or below the floor |
| Ingestors.Ingestor.Ingest | pi-remote-coordinator/internal/machines/ingest.go:262-277 | gate and publication on the objects refine the value step; an accepted entry goes once to each client of its session, a stale one to nobody, and no other client is sent anything |
| Ingestors.Ingestor.HandleEvent | pi-remote-coordinator/internal/machines/ingest.go:257-283 | stale events change nothing and reach nobody; accepted ones are stored, sent to exactly the session's clients, and may push |
| Ingestors.Ingestor.HandlePty | pi-remote-coordinator/internal/machines/ingest.go:320-340 | the same for pty chunks, without pushes |
| Ingestors.Ingestor.HandleStateChange | pi-remote-coordinator/internal/machines/ingest.go:342-385 | the state is set and exactly the session's clients are told, even when the number is stale |
| Ingestors.Ingestor.HandleEnded | pi-remote-coordinator/internal/machines/ingest.go:386-414 | the session is marked ended and exactly its clients are told, even when the number is stale |
| Ingestors.Ingestor.HandleResume | pi-remote-coordinator/internal/machines/ingest.go:416-442 | a known session keeps its object, its clients, its ring and the greater number; an unknown one starts under the connection's machine, with a new object and no clients; all others stay; the session runs afterwards (`IngestEffects.ResumeEffect`) |
| Ingestors.Ingestor.Handle | pi-remote-coordinator/internal/machines/ingest.go:142-190 | the whole dispatch over the objects, error cases included, refines one step of the frame machine; every Send to every client is the one that step calls for; session objects and their clients stay, except that a started session gets a new object without clients |
| Ingestors.Ingestor.ConnClosed | pi-remote-coordinator/internal/http/daemon_ws.go:93-101 | a lost connection pauses the sessions of the machine it had registered, tells exactly their clients, and is forgotten; an unregistered one is only forgotten; all clients stay |
| IngestSends.EntrySent | pi-remote-coordinator/internal/machines/ingest.go:257-340 | client by client: an entry with a number ahead goes once to each client of its session, and otherwise nobody is sent anything |
| IngestSends.MarkSent | pi-remote-coordinator/internal/machines/ingest.go:342-405 | a state change or an end goes once to each client of a known session, stale or not, with its machine's id |
| IngestSends.PauseSent | pi-remote-coordinator/internal/sessions/registry.go:149-176 | a client of one session is told once when that is paused, with the state it had, in whatever order the map is walked, and otherwise nothing |
| IngestSends.NothingElseSent | pi-remote-coordinator/internal/machines/ingest.go:142-190 | no other frame, and no frame before the registration, sends anything to anybody |
| DaemonWs.DaemonHandler.Serve | pi-remote-coordinator/internal/http/daemon_ws.go:93-137 | the read loop and its end: frames are handled in order until the first that is refused, the objects go through the steps of the frame machine and every client is sent what each step calls for; afterwards the clients of every session are known again |
| DaemonWs.ServingProlongsRun | pi-remote-coordinator/internal/http/daemon_ws.go:93-137 | serving a connection prolongs a run of the frame machine, so that what holds over all its runs holds of the objects |
| ClientWs.ClientHandler.HandleAttach | pi-remote-coordinator/internal/http/client_ws.go:307-346 | an unknown session changes nothing; otherwise the old object loses the connection, the registered one gains it, both are stamped, the registry's value changes in these stamps alone, and the client is sent its backlog |
| ClientWs.ClientHandler.HandleDetach | pi-remote-coordinator/internal/http/client_ws.go:348-359 | only a frame that names the attached session detaches, also from an object no longer registered, and stamps that object alone |
| ClientWs.ClientHandler.Close | pi-remote-coordinator/internal/http/client_ws.go:267-282 | a closed connection is in no client set it was in, and the object it was attached to is stamped |
| Attachments.StepKeeps | pi-remote-coordinator/internal/http/client_ws.go:266-359 | every single step of any connection, or a re-registration, keeps client sets and attached sessions mirrored |
| Attachments.AttachedToAtMostOne | pi-remote-coordinator/internal/http/client_ws.go:266-359 | over every interleaving a connection is among an object's clients exactly when attached to it, in at most one, in none after close |
| Attachments.AttachMoves | pi-remote-coordinator/internal/http/client_ws.go:307-346 | an attach frame moves its connection from wherever it was to the registered object of its id, and no other connection; an unknown id moves none |
| Attachments.DetachMoves | pi-remote-coordinator/internal/http/client_ws.go:267-359 | a detach that names the attached session takes the connection out, another one does nothing, and closing always takes it out |
| Attachments.ClosedStaysOut | pi-remote-coordinator/internal/http/client_ws.go:267-282 | a closed connection is in no client set ever after |
| SanitizerSpec.RunConcat | pi-remote-daemon/internal/ptymux/sanitize.go:50-150 | a stream in two parts gives the two outputs and the same final state |
| SanitizerSpec.ChunkIndependence | pi-remote-daemon/internal/ptymux/sanitize.go:43-155 | however a stream is cut into chunks, output and final state are those of one call |
| SanitizerSpec.TokensCoverInput | pi-remote-daemon/internal/ptymux/sanitize.go:7-15 | the reference lexer's tokens and incomplete rest are the input, and the rest holds no token |
| SanitizerProps.TitleBodyRun | pi-remote-daemon/internal/ptymux/sanitize.go:119-132 | the dropping states stop exactly where the title body of the grammar ends and put out nothing |
| SanitizerProps.PassBodyRun | pi-remote-daemon/internal/ptymux/sanitize.go:133-148 | the passing states stop exactly where another body of the grammar ends and put out all of it |
| SanitizerProps.AfterParamRun | pi-remote-daemon/internal/ptymux/sanitize.go:72-118 | from the end of the parameter the machine drops what makes a title and passes everything else, terminators and aborted prefixes included |
| SanitizerProps.FilterFirst | pi-remote-daemon/internal/ptymux/sanitize.go:50-150 | the first token is dropped if it is a title and put out otherwise, and the machine goes on as from the start |
| SanitizerProps.MachineIsTokenFilter | pi-remote-daemon/internal/ptymux/sanitize.go:43-155 | over any stream the output is the concatenation of all tokens that are not titles, then the rest if it can no longer become one; held bytes are exactly an undecided rest; what a title is in bytes is `SanitizerBytes.TitlesVanish` |
| SanitizerBytes.TitlesVanish | pi-remote-daemon/internal/ptymux/sanitize.go:50-132 | in plain bytes: ESC ] with 0, 1 or 2, and any text after a semicolon or none, vanishes up to its BEL or string terminator, and the machine starts afresh |
| SanitizerBytes.OtherCommandsPass | pi-remote-daemon/internal/ptymux/sanitize.go:72-148 | ESC ] with any other first byte comes out whole, with either terminator |
| SanitizerBytes.TwoDigitsPass | pi-remote-daemon/internal/ptymux/sanitize.go:72-90 | a number of two digits is no title |
| SanitizerBytes.BrokenTitlePasses | pi-remote-daemon/internal/ptymux/sanitize.go:103-118 | a title broken off after its digit by another escape comes out with it |
| SanitizerBytes.OtherEscapesPass | pi-remote-daemon/internal/ptymux/sanitize.go:59-71 | ESC before any byte but ] and ESC comes out with it |
| SanitizerBytes.NineDigitsPass | pi-remote-daemon/internal/ptymux/sanitize.go:72-77 | eight digits are held back, the ninth lets all of them out |
| SanitizerBytes.TextPasses | pi-remote-daemon/internal/ptymux/sanitize.go:43-58 | bytes without ESC come out as they are |
| SanitizerProps.CompleteStream | pi-remote-daemon/internal/ptymux/sanitize.go:43-155 | the machine is back at its start if and only if the stream is made of complete tokens, and then exactly the titles are missing |
| SanitizerProps.Conservation | pi-remote-daemon/internal/ptymux/sanitize.go:52-118 | at every byte the input is an interleaving of output, held bytes and dropped titles; output and held bytes are the input if and only if no title has begun to be dropped |
| SanitizerProps.LagBound | pi-remote-daemon/internal/ptymux/sanitize.go:72-98 | at most eleven bytes are ever held back |
| Sanitizers.ContainsEsc | pi-remote-daemon/internal/ptymux/sanitize.go:161-168 | true exactly when there is an ESC |
| Sanitizers.Sanitizer.Take | pi-remote-daemon/internal/ptymux/sanitize.go:50-149 | one byte through the three fields is one step of the machine, stale pending and param bytes notwithstanding |
| Sanitizers.Sanitizer.Sanitize | pi-remote-daemon/internal/ptymux/sanitize.go:43-155 | a call, fast path included, is the machine over the chunk, so that titles vanish from it and nothing else does (`SanitizerBytes.TitlesVanish`, `SanitizerProps.MachineIsTokenFilter`) |
| Tmux.DeescapeTmux | pi-remote-daemon/internal/tmux/tmux.go:625-659 | the index loop computes the decoding by pieces, with its two errors |
| Tmux.DecodeUndoesEscaping | pi-remote-daemon/internal/tmux/tmux.go:625-659 | whichever way each byte was escaped, decoding returns the bytes |
| Tmux.DecodeUndoesTmux | pi-remote-daemon/internal/tmux/tmux.go:625-659 | decoding what tmux writes of any bytes, controls and backslash in octal, gives the bytes |
| Tmux.BackslashExactly | pi-remote-daemon/internal/tmux/tmux.go:625-659 | what a backslash may be followed by, and the error at its place otherwise, in plain bytes |
| Tmux.OctalDoesNotWrap | pi-remote-daemon/internal/tmux/tmux.go:646-647 | the uint8 arithmetic gives the octal number if and only if the first digit is at most 3, and that number modulo 256 otherwise |
| Tmux.DecodesExactly | pi-remote-daemon/internal/tmux/tmux.go:625-659 | decoding succeeds on exactly the concatenations of valid pieces; an error names the place where the readable part ends |
| DaemonSpec.EndCallbacks | pi-remote-daemon/internal/session/registry.go:234-321 | over every run: one end callback per id at most, after a registration of that id, with its time stamped; an id counts as ended exactly when reported, and an entry in state ended was reported or registered so |
| DaemonSpec.OpKeeps | pi-remote-daemon/internal/session/registry.go:154-321 | every operation keeps this |
| DaemonSpec.ReapOnlyRecordedEnds | pi-remote-daemon/internal/session/registry.go:284-295 | reaping forgets exactly the entries ended longer than the ttl ago; their ends had been reported unless they were registered as ended |
| DaemonSpec.SecondLifeIsNotReported | pi-remote-daemon/internal/session/registry.go:234-321 | an id that has ended is never reported again, whatever registers under it later |
| DaemonSpec.EndReportedExactly | pi-remote-daemon/internal/session/registry.go:234-321 | after any run, ending a session in either way fires its end callback if and only if no end of its id was reported before |
| DaemonSpec.SecondEndIsLost | pi-remote-daemon/internal/session/registry.go:234-321 | the run register, end, reap, register, end: two registrations and one end are reported, and the second end leaves the session live |
| DaemonSpec.SweepFlipsExactly | pi-remote-daemon/internal/session/registry.go:258-278 | in any map order a sweep flips exactly the running and idle sessions silent too long, and announces each once from its former state |
| DaemonEffects.RegisterEffect | pi-remote-daemon/internal/session/registry.go:154-179 | refused exactly when another process holds the id; otherwise stored with a heartbeat, and announced only if new |
| DaemonEffects.HeartbeatEffect | pi-remote-daemon/internal/session/registry.go:181-208 | the heartbeat is noted and announced, an unresponsive session is revived and that announced before, and no other changes |
| DaemonEffects.EndEffect | pi-remote-daemon/internal/session/registry.go:234-321 | what the two endings do to entry, record and trace, and that for an id ended before one only forgets and the other does nothing |
| DaemonEffects.SweepEffect | pi-remote-daemon/internal/session/registry.go:258-278 | in any map order: unresponsive become exactly the running and idle sessions without a heartbeat in the last timeout, each announced from its former state |
| DaemonEffects.ReapEffect | pi-remote-daemon/internal/session/registry.go:284-295 | forgotten is exactly what ended longer ago than the ttl |
| DaemonEffects.LiveExactly | pi-remote-daemon/internal/session/registry.go:344-355 | live is everything registered that has not ended |
| DaemonEffects.GracePeriod | pi-remote-daemon/internal/session/registry.go:154-163 | a session that has just registered, or beaten, is not flipped before a whole timeout has passed, and a silent one is afterwards |
| DaemonRegistries.Registry.Register | pi-remote-daemon/internal/session/registry.go:154-179 | refused exactly when another process holds the id; only a first registration fires the callback |
| DaemonRegistries.Registry.UpdateHeartbeat | pi-remote-daemon/internal/session/registry.go:181-208 | a heartbeat revives an unresponsive session and announces it; an unknown id is an error |
| DaemonRegistries.Registry.RemoveWithReason | pi-remote-daemon/internal/session/registry.go:234-251 | the entry is gone and its end reported unless it had been |
| DaemonRegistries.Registry.MarkEnded | pi-remote-daemon/internal/session/registry.go:304-321 | the entry stays, ended and stamped, unless its id had ended before |
| DaemonRegistries.Registry.SweepHeartbeats | pi-remote-daemon/internal/session/registry.go:258-278 | the in-place loop refines the sweep and returns the flipped ids in order |
| DaemonRegistries.Registry.ReapEnded | pi-remote-daemon/internal/session/registry.go:284-295 | the deleting loop removes exactly the reapable entries and counts them |
| DaemonRegistries.Registry.Snapshot | pi-remote-daemon/internal/session/registry.go:344-355 | each session that is not ended exactly once, with its current value |
| MuxSpec.EachFrameTakesTheNextNumber | pi-remote-daemon/internal/session/multiplex.go:170-276 | until a session ends its counter grows by one for each valid event, chunk and state change, connected or not, and by nothing else |
| MuxSpec.NumberingRestartsAfterEnd | pi-remote-daemon/internal/session/multiplex.go:212-226 | after a session's end its next numbered frame carries 1 and each later one the next number, whatever came before and in between, until it ends again |
| MuxSpec.PtyStreamIsFiltered | pi-remote-daemon/internal/session/multiplex.go:253-261 | the chunks sent for a session carry the filter of its whole pty stream, however cut and mixed with other callbacks |
| MuxEffects.KnownKindsAreNamed | pi-remote-daemon/internal/session/multiplex.go:342-354 | a kind is known exactly when it is one of the nine names, and then is that one |
| MuxEffects.NumberedExactly | pi-remote-daemon/internal/session/multiplex.go:170-190 | an event takes a number exactly when it decodes and its kind is one of the nine |
| MuxEffects.EventFrameExactly | pi-remote-daemon/internal/session/multiplex.go:190-195 | an event's frame carries the next number, its kind, and its time or else the present |
| MuxEffects.ChunkFrameExactly | pi-remote-daemon/internal/session/multiplex.go:253-270 | a chunk's frame carries the next number and what its session's own filter lets through |
| MuxEffects.TitleIsNotSent | pi-remote-daemon/internal/session/multiplex.go:251-270 | a title that arrives in one chunk is not in its frame |
| MuxEffects.MarkFramesExactly | pi-remote-daemon/internal/session/multiplex.go:212-249 | a state change and an end carry the next number; after the end the session has none |
| MuxEffects.FramesCarryNumbers | pi-remote-daemon/internal/coordinator/frames.go:162-225 | numbers below 2^63 arrive as they are, greater ones make a frame that does not decode |
| MuxEffects.AnnouncedExactly | pi-remote-daemon/internal/session/multiplex.go:294-313 | announced are the sessions not ended whose process is not known dead |
| Multiplexes.SeqAllocator.Next | pi-remote-daemon/internal/session/seq.go:25-27 | the counter is advanced and returned, wrapping at 2^64 |
| Multiplexes.Multiplex.AllocFor | pi-remote-daemon/internal/session/multiplex.go:126-135 | one allocator per session, made on first use, never shared |
| Multiplexes.Multiplex.OnEvent | pi-remote-daemon/internal/session/multiplex.go:170-205 | malformed and unknown events take no number; others take one whether or not the frame leaves |
| Multiplexes.Multiplex.OnEnded | pi-remote-daemon/internal/session/multiplex.go:212-226 | the end takes a number, and the allocator is gone even when the frame is not sent |
| Multiplexes.Multiplex.OnStateChange | pi-remote-daemon/internal/session/multiplex.go:231-249 | a state change takes a number and is sent only while connected |
| Multiplexes.Multiplex.SendPty | pi-remote-daemon/internal/session/multiplex.go:253-276 | the chunk passes the session's own sanitizer and takes a number; being disconnected is no error |
| Multiplexes.Multiplex.LiveSessions | pi-remote-daemon/internal/session/multiplex.go:294-313 | announced are exactly the sessions not ended whose process is not known dead, once each, with their last numbers |
| LinkCallbacks.CallbacksAreSteps | pi-remote-daemon/internal/session/multiplex.go:146-276 | whatever callbacks the multiplex receives: their steps are steps of the link, which then holds exactly the frames the multiplex built, in order, and every session's number is the multiplex's |
| LinkCallbacks.HandshakeIsConnect | pi-remote-daemon/internal/coordinator/client.go:252-262 | the handshake over the sessions the multiplex lists is the link's: machine_register, then one resume for exactly the announced sessions, each with its last number |
| Link.HandleHistory | pi-remote-coordinator/internal/machines/ingest.go:166-189 | a received frame starts a session's history, keeps it, or adds itself, and the last only when ahead of LastSeq |
| Link.StepKeeps | pi-remote-daemon/internal/session/multiplex.go:170-276 | every step of producers, link and coordinator keeps that all frames held, on the wire or accepted are what took their numbers |
| Link.AcceptedInAllocationOrder | pi-remote-daemon/internal/session/multiplex.go:170-276 | over every interleaving with disconnects, reconnects and coordinator restarts, what a session's ring accepted is a subsequence of the daemon's allocation order, each entry with its own number, its last frames and its end included |
| LinkGate.HandleReads | pi-remote-coordinator/internal/machines/ingest.go:166-189 | any frame on a registered connection moves a session's number in exactly one way: to 0, to the greater number, or not at all |
| LinkGate.HandleDecides | pi-remote-coordinator/internal/machines/ingest.go:257-340 | a numbered frame is accepted if and only if its session is known and its number ahead; otherwise number and history stay |
| LinkGate.ReadAllExceeds | pi-remote-coordinator/internal/machines/ingest.go:257-340 | the fold over any frames on the way and the comparison with each of their numbers since the last session_started say the same |
| LinkGate.ArrivalDecided | pi-remote-coordinator/internal/machines/ingest.go:166-189 | whatever is interleaved, the frame at any place of the wire is accepted when its turn comes if and only if its session is known by then and its number exceeds the coordinator's and all those ahead of it |
| LinkHandshake.ArrivalDecidedInRun | pi-remote-coordinator/internal/machines/ingest.go:166-189 | the same from any moment of any run |
| LinkHandshake.HandshakeSyncs | pi-remote-daemon/internal/coordinator/client.go:252-269 | in every run, with anything interleaved, once a session's resume has been read the coordinator knows it and its LastSeq is the daemon's number at the handshake, whatever was lost before |
| LinkResume.AtomicStepKeeps | pi-remote-daemon/internal/coordinator/client.go:252-269 | with number and frame taken in one step, every frame on the way is ahead of the coordinator and of all frames before it |
| LinkResume.EveryLaterFrameIsAccepted | pi-remote-daemon/internal/coordinator/client.go:252-269 | in every run with number and frame taken in one step: after each handshake that announces a session, every frame of it that arrives on the connection is accepted, whatever was lost before or since |
| LinkResume.NoFreshFrameIsRefused | pi-remote-coordinator/internal/machines/ingest.go:257-340 | on every connection of such a run, announced or not: an arriving frame is accepted if and only if its session is known, the frames still on their way at the session's end included |
| LinkResume.AtomicRunIsRun | pi-remote-daemon/internal/session/multiplex.go:170-276 | such a run is a run of the finer steps and reaches the same states, so that everything proved of all interleavings holds of it |
| LinkResume.KnownStaysKnown | pi-remote-coordinator/internal/sessions/registry.go:69-190 | a session once known stays known until the coordinator restarts |
| LinkDrain.ConnectCarries | pi-remote-daemon/internal/coordinator/client.go:252-269 | a handshake alone makes up for everything lost before: its resume brings the daemon's last number |
| LinkDrain.StepCarries | pi-remote-daemon/internal/session/multiplex.go:170-276 | every step that loses nothing of the session, producers writing in any order, keeps its last number at the coordinator, on the wire or held |
| LinkDrain.DrainedLinkIsInSync | pi-remote-daemon/internal/session/multiplex.go:22-27 | in every run, with nothing of the session lost since a handshake that announced it, whenever nothing of it is on the way the coordinator knows it and LastSeq is its last number taken, whatever other sessions lost |
| LinkResume.OvertakenFrameIsRefused | pi-remote-daemon/internal/session/multiplex.go:190-204 | when two producers write in the other order than they took numbers, the higher number is accepted and the lower, read next, changes neither number nor history |

## Left out

- JSON decoding and field validation, base64, HTTP and WebSocket transport, logging, configuration, authentication and encryption: frames are modelled after decoding, with the two decode failures as frames of their own.
- The machine registry, push text, machine lists, focus tracking, spawning, suspend watchers, state directories and everything of the Android application.
- Session metadata, the `from` state and the end reason: only forwarded, never decided on.
- Delivery after `Send`: draining the queue of a client connection and its write errors.
- Float rounding in the cache policy: only the inequalities named above are used; the first three hold for budgets below 2^53, those in tenths below 2^50.
- Overflow of the int64 byte counters, and duration arithmetic that saturates.
- Serving two daemon connections at once on the objects: `DaemonWs.DaemonHandler.Serve` reads one after another; the frame machine of `IngestRuns` interleaves them.
- Running the same session's frames through two daemon connections at once: the number gate and the publication are separate lock regions there; `Ingestors.Ingestor.Handle` is one step.
- Interleaving of callbacks that fire after the daemon registry's lock is released: one registry call with its callbacks is one step.
- Panicking callbacks and absent hooks.
- tmux command matching and the splitting of output lines; only the decoding of one argument is modelled.
- Numbering across a daemon restart, and sending before the handshake has been written: the handshake is one step, and its optional machine_resumed frame, which the coordinator ignores, is not sent.
- Handover.ResumedClientGetsHistory: for ascending numbers from 1, which `IngestRuns.RingsFollowTheGate` proves for numbers that come through the gate.
- Link.AcceptedInAllocationOrder: speaks of a session until it takes a number again after its end, since numbering restarts there, and of fewer than 2^63 numbers.
- LinkResume.EveryLaterFrameIsAccepted: the same bounds, and number and frame taken in one step; `LinkResume.OvertakenFrameIsRefused` is what happens otherwise.
- LinkResume.NoFreshFrameIsRefused: the same bounds; a session that took a number again after its end starts under an already known id, and `LinkHandshake.ArrivalDecidedInRun` says what is accepted then.
- LinkDrain.DrainedLinkIsInSync: a session_started written after the handshake resets the coordinator's number and is excluded; the next numbered frame is accepted all the same.
- MuxSpec.NumberingRestartsAfterEnd: fewer than 2^63 numbers, as frames carry an int64.
- MuxSpec.EachFrameTakesTheNextNumber: fewer than 2^64 numbers.
- Multiplexes.Coord.Send: the outcome of the network write is a parameter.
