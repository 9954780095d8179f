# Verification of the llama.cpp KV-memory server's stateful cores

This project models the stateful protocols behind the server's speculative decoding, lane
scheduling and cache tiers, and proves what they promise. Each module belongs to one source file.
Code that changes state in place is modelled as classes and loops; these are proved against
functions on values, and the theorems are about those functions.

`dafny verify dfyconfig.toml` checks everything.

## What is modelled

**Speculative generation** (`SpeculativeGeneration`, `SpeculativeLoop`). The target model and the
sampler are arbitrary deterministic functions. The model's choice may look at the attention rows and
at the rows folded into the recurrent state, which are kept apart because a rollback can truncate
one without the other. Draft proposals are arbitrary. Whatever is proposed, rejected or interrupted,
what the caller sees is a prefix of one-token-at-a-time sampling, and all of it when the loop
finishes.

The loop finishes, and then within 2 * n_predict rounds, if and only if no loop head is a *trap*: no
draft is carried, and the proposal is at least as long as what one-at-a-time sampling has still to
say, agrees with all of it but perhaps the last token, which is an end token, and a draft of that
length uses the host checkpoint. The round then restores, carries the sampled tokens as its next
draft, cuts that draft at the end token and restores again for ever, because the trim at lines
383-388 runs before the restore test at line 389. Asked of the call before it starts: it finishes
with every draft source if and only if it is not the case that one-at-a-time sampling ends in an end
token before n_predict tokens and within the context, in so many tokens that a draft of that length
uses the host checkpoint. The imperative loop is tied to this: which loop head ends a call and how
is determined by the deadline and the library calls that fail, and a call without failures never
fails, finishes if it meets no trap, and always finishes in replay mode.

**Lane catalog** (`LaneOwnership`, `StoreAccounting`, `LaneEviction`, `LaneEntries`, `LaneState`,
`LaneRun`, `LaneRace`, `LaneOverrun`, `LaneCatalog`). Several requests interleave `select`,
`attach`, `reserve_payload` and `finish`; each region under the catalog mutex is one step. Ownership
of lanes is a bijection, a busy store serves one request, and a store in handover is left alone, as
long as every flag that `finish` clears is still that request's own. `finish` does not test that:
line 287 clears `switching` on the displaced store even if another lane has since reserved the lane
that store moved to. The condition is exact: a step breaks the invariant if and only if it clears a
foreign flag. `LaneOwnership` proves this of a step relation that allows any eligible choice;
`LaneRun` proves it of the steps on full entries in which store and lane are the ones `select` picks
and what is given up is what the eviction loops take. With one lane every run keeps ownership. With
two it can be lost: `LaneRace` gives a run of six requests from startup, each choice the one
`select` makes, after which a lane's resident store says it is parked. The payload budget is decided
for every run from startup, valid or not: it is kept exactly if no request is admitted beside
attachments of its own store that do not fit as well. No run whose flags are own admits such a
request; the run of `LaneRace`, carried on in `LaneOverrun`, does and ends above the budget. The
catch block (290-300) is one of the steps; what the request had committed does not survive it. The
class `LaneCatalog` holds the entries, and each of its methods takes one of these steps.

**Lane pool** (`LanePool`). Tickets, leases and the admission queue. Along every run from startup no
two lanes are held under one key and the requests of a key are served in the order they were
enqueued; no grant overtakes an earlier request which was ready, unblocked and selectable.

**Cache directory** (`ChunkNames`, `CacheDirectory`, `CacheCleanup`). Processes start, scan, claim,
clean, register, write, exit and crash in any interleaving, one system call at a time; strangers may
drop files into run directories. A live run keeps its files, a directory that holds chunks stays
marked and so reclaimable, and a directory with an unexpected entry is left whole. A scan that has
come to its end has removed every leftover it listed and did not fail at, whatever happened
elsewhere.

**Session transfer** (`TransferPlan`, `TransferPlanner`, `MapSums`, `SessionFiles`,
`SessionTransfer`, `TransferRun`, `TransferExchange`, `SessionGrouping`). The RAM and disk planner,
the charged ledger of chunk files, spilling and restoring with a fault at any point, and planning
followed by execution. On the disk-first and ram-first routes a plan is found exactly if any order
of the moves fits. On the exchange route that holds where the reads are alike in size and the writes
are alike; otherwise the greedy planner can miss an order. `TransferExchange` reaches such a state
from an empty ledger with chunks and files of the sizes the code gives them, and the transfer then
finds no plan although an order fits.

**Embedding cache** (`EmbeddingCache`), **Hadamard rotation** (`Hadamard`, `HadamardRows`),
**conversation selection** (`ConversationStore`), **response events** (`ResponseStream`) and the
**key list** (`KeyList`) model the remaining cores.

## Where the code does not do what it is for

- Speculation does not always terminate: once in a trap only a caller that aborts ends it.
- The comment at `tools/kvmem-lane-conversations.h:241-242` retains the displaced store's node until
  the handover ends. That holds against the request's own reservation; after line 209 another
  request may erase the node or own it, and `finish` does not tell the cases apart.
- `reserve_payload` leaves its own store out of what it compares with the budget (lines 226-229),
  attachments included. In a valid state there are none; once ownership is lost another request may
  have charged them, and the budget is passed (`LaneOverrun.BudgetCanBePassed`).
- The planner's exchange route is greedy and can give up although an order of the moves exists, if
  chunks differ in size.
- `kvmem_responses_stream_done` counts positions for reasoning and message instead of using the
  indices handed out when they opened, and names a call by the final message's id. Its closing
  events name the right items exactly if reasoning, when there is any, opened first of all items and
  the message right after it, or first without reasoning, and every call closes
  (`ResponseStream.Stream.Done`); where the calls' ids differ that says that each was opened under
  its own id. It fails when a content delta comes before a reasoning delta
  (`ResponseStream.HeadOutOfOrder`), when a call opens before or between them, and when a call is
  named without an id (`ResponseStream.CallWithoutId`), which the server prevents by giving every
  call an id first.
- Unlike section 2 of RFC 4180, the key list drops empty fields and takes a quote inside an unquoted
  field literally.

## Model

| member | source | states |
|---|---|---|
| SpeculativeGeneration.SampleAndAccept | tools/kvmem-spec.cpp:379 | Contract of the library's sample-and-accept: the ids are a prefix of the draft followed by one sampled token. |
| SpeculativeGeneration.ReferenceStops | tools/kvmem-spec.cpp:458-473 | If an end token is among the next k sampled tokens, one-at-a-time sampling yields exactly those up to and including the first. |
| SpeculativeGeneration.ReferenceContinues | tools/kvmem-spec.cpp:458-473 | If not, it yields those k tokens and then goes on from the sampler and text they lead to. |
| SpeculativeGeneration.VerifiedFacts | tools/kvmem-spec.cpp:371-388 | For every draft, the ids of a round, cut at the limit and the first end token, are what the reference samples next, and the reference continues where they stop. |
| SpeculativeGeneration.RoundKeepsTrack | tools/kvmem-spec.cpp:290-489 | A round, restoring or accepting, keeps the loop-head invariant: sent tokens plus what the reference would still sample are the whole reference, the accepted count is at most the drafted one, and a restored draft is what the reference samples next. |
| SpeculativeGeneration.RunKeepsTrack | tools/kvmem-spec.cpp:290-489 | That invariant holds at every loop head of every run. |
| SpeculativeGeneration.SpeculationIsLossless | tools/kvmem-spec.cpp:290-489 | At every loop head the shown tokens are a prefix of one-at-a-time sampling, and all of it when the loop is done; n_gen stays within n_predict and n_accept within n_drafted. |
| SpeculativeGeneration.CountersCount | tools/kvmem-spec.cpp:438-448 | What the statistics are, at every loop head: n_drafted is the sum of the accepting rounds' draft lengths and n_restore the number of restored rounds, and the text is as long as the prompt, n_accept and one token for each accepting round; n_accept is at most n_drafted. |
| SpeculativeGeneration.RestoresIff | tools/kvmem-spec.cpp:371-389 | A round goes back to the checkpoint if and only if it has not taken its whole draft and the device cannot undo it: always without planes or a recording, and else when the draft is longer than they are. |
| SpeculativeGeneration.RestoredRoundRestoresIffStuck | tools/kvmem-spec.cpp:383-416 | The round after a restored one restores again if and only if the restored draft still uses the host checkpoint and ends in an end token. |
| SpeculativeGeneration.StuckForever | tools/kvmem-spec.cpp:383-416 | Such a generation stays stuck at every later loop head and shows nothing more. |
| SpeculativeGeneration.SettledWithin | tools/kvmem-spec.cpp:290-489 | After k rounds a generation is done, stuck, or has at most 2 * n_predict - k units of work left. |
| SpeculativeGeneration.TrapRound | tools/kvmem-spec.cpp:371-416 | The round of a trap leaves a stuck generation. |
| SpeculativeGeneration.FinishesIffNeverTrapped | tools/kvmem-spec.cpp:290-489 | Generation finishes at some round if and only if it does within 2 * n_predict, and if and only if no loop head is a trap. |
| SpeculativeGeneration.FinishesWithEveryDraft | tools/kvmem-spec.cpp:290-489 | It finishes with every draft source if and only if one-at-a-time sampling does not end in an end token before the limit and within the context in so many tokens that a draft of that length uses the host checkpoint. |
| SpeculativeGeneration.FinishesWithoutHostCheckpoint | tools/kvmem-spec.cpp:125-152 | In the modes in which no proposal needs the host checkpoint, no round restores and the loop finishes within 2 * n_predict rounds. |
| SpeculativeGeneration.LivelockExample | tools/kvmem-spec.cpp:383-416 | A target that ends at once and a one-token draft of another token, in host-checkpoint mode, never finish. |
| SpeculativeLoop.TrimAtEnd | tools/kvmem-spec.cpp:383-388 | The trim loop keeps everything up to and including the first end token. |
| SpeculativeLoop.ProposeDraft | tools/kvmem-spec.cpp:295-326 | A carried draft is used again with its checkpoint; a new one is the longest part of the proposal that the context and the limit leave room for, and the checkpoint holds the loop head's rows whenever it may be needed. |
| SpeculativeLoop.Verify | tools/kvmem-spec.cpp:339-379 | It succeeds exactly if decoding does and a replay recording is long enough for the draft; then the last token and the draft are appended, recorded or folded according to the mode, and sampling sees the rows of each position. |
| SpeculativeLoop.Restore | tools/kvmem-spec.cpp:394-416 | After a restore attention rows and recurrent rows both equal the loop head's prompt again. |
| SpeculativeLoop.Settle | tools/kvmem-spec.cpp:430-457 | After a commit and rollback both row sequences equal the prompt plus exactly the kept rows, in every mode, and exactly when it succeeds. |
| SpeculativeLoop.Abandon | tools/kvmem-spec.cpp:418-429 | A disconnected replay round folds nothing, fails exactly if the commit or the removal does, and goes back to the rows of the loop head. |
| SpeculativeLoop.Deliver | tools/kvmem-spec.cpp:458-473 | The delivery loop extends prompt, last token and shown tokens by the ids and stops at an end token. |
| SpeculativeLoop.AcceptIds | tools/kvmem-spec.cpp:418-488 | The tail of an accepting round: it fails exactly if commit or removal does, is aborted exactly if disconnected in replay mode without such a failure, and else produces the next loop head with its rows settled; the draft and the accepted tokens are counted once the commit has worked, also if the removal then fails. |
| SpeculativeLoop.PlayRound | tools/kvmem-spec.cpp:290-489 | One pass of the loop body over the mutable context: exactly when it fails or is aborted and what it has counted by then, and otherwise it is one round on values, at whose end n_past, both row sequences and the checkpoint agree with the prompt. |
| SpeculativeLoop.CleanCallEnds | tools/kvmem-spec.cpp:290-489 | Without failing library calls and with replay drafts no longer than the recording, a call never fails; given the polls for 2 * n_predict rounds it finishes if and only if no loop head is a trap, and always in replay mode. |
| SpeculativeLoop.Generate | tools/kvmem-spec.cpp:238-509 | One call under any deadline and any failing library calls: the loop head that ends it is the first at which it is done, out of polls, disconnected or failing, and the outcome is the one that says; the emitted tokens are a prefix of the reference, all of it when finished; statistics and cached rows are those of that loop head, so that, unless it fails, n_past + 1 is the prompt's length plus n_accept plus one for each round that was not restored, and also that length plus n_gen and the end token; n_drafted and n_restore are sums over the rounds; an aborted call has played as many rounds as the polls allow; and, without failures, it ends as CleanCallEnds says. |
| LaneOwnership.ReserveKeeps | tools/kvmem-lane-conversations.h:124-136 | Reserving an eligible or new store keeps ownership, busy flags and handovers consistent. |
| LaneOwnership.OwnKeeps | tools/kvmem-lane-conversations.h:171-197 | Both locked regions of attach that give the lane away keep the invariant. |
| LaneOwnership.SettleKeeps | tools/kvmem-lane-conversations.h:209-213 | So does the end of attach, which releases the displaced store. |
| LaneOwnership.AdmitKeeps | tools/kvmem-lane-conversations.h:230-252 | So does giving up any parked stores during admission. |
| LaneOwnership.FinishKeeps | tools/kvmem-lane-conversations.h:271-289 | finish keeps the invariant, with or without an exception, if the flag it clears on the displaced store is its own. |
| LaneOwnership.FinishExact | tools/kvmem-lane-conversations.h:271-289 | And only then: finish keeps the invariant if and only if that flag is its own. |
| LaneOwnership.CatchExact | tools/kvmem-lane-conversations.h:290-300 | The catch block keeps it if and only if the busy and switching flags it clears are its own. |
| LaneOwnership.StepKeeps | tools/kvmem-lane-conversations.h:86-302 | Every step of every request whose flags are its own keeps lane ownership, one request per store, and handovers. |
| LaneOwnership.ForeignFlagBreaks | tools/kvmem-lane-conversations.h:255-302 | For any enabled step: its flags are its own if and only if the invariant holds after it. |
| LaneOwnership.ForeignStoresAreLeftAlone | tools/kvmem-lane-conversations.h:86-302 | No such step erases, moves, reserves or unflags a store that another request has flagged. |
| LaneOwnership.StartupHolds | tools/kvmem-lane-conversations.h:48-68 | The invariant holds when every lane has its own empty store. |
| LaneOwnership.RunKeeps | tools/kvmem-lane-conversations.h:86-302 | It holds along every interleaving of own-flag steps. |
| LaneOwnership.OwnershipHolds | tools/kvmem-lane-conversations.h:48-302 | From startup, every such interleaving leaves each lane's resident naming that lane and no other store naming it, each busy store with one request, and each switching store in one handover. |
| StoreAccounting.FindOldest | tools/kvmem-lane-conversations.h:505-516 | One pass over the stores finds the least recently used candidate, the lower id among equals, or none if there is none. |
| StoreAccounting.ChargedSplit | tools/kvmem-lane-conversations.h:336-346 | Taking a store away takes its own charge from the sum, the larger of native and reserved bytes and its attachments. |
| StoreAccounting.NothingCharged | tools/kvmem-lane-conversations.h:336-346 | Stores without native, reserved or attachment bytes are charged nothing, which with the former makes the charge the sum. |
| LaneEviction.EnforceSessions | tools/kvmem-lane-conversations.h:457-497 | Exactly as many idle histories as are over the limit are given up, none newer than an idle one that stays unless that one's lane was locked; it throws only if every store that still has one is in use or on a lane that is locked. |
| LaneEviction.SweepKeepsHistories | tools/kvmem-lane-conversations.h:498-503 | The sweep of empty parked stores loses no history. |
| LaneEviction.EnforceBytes | tools/kvmem-lane-conversations.h:505-524 | The stores dropped are the shortest least-recently-used run of victims after which the byte target is met, or all victims. |
| LaneEviction.Enforce | tools/kvmem-lane-conversations.h:287-289 | The lookup of the displaced store and both loops in sequence: when it throws and with what left, what is given up in which order, and that only parked stores go. |
| LaneEviction.HistoryRules | tools/kvmem-lane-conversations.h:457-503 | In the terms of the entries: histories go only from stores nobody uses, from another lane only if its lock was free, and the older of two first unless its lane was in use; nothing else goes but empty parked stores and what the byte target takes. |
| LaneEviction.ByteRules | tools/kvmem-lane-conversations.h:505-524 | The byte target takes only parked stores that have not been spilled and that nobody pins or waits for, the older first, all of them if it is not met, and none once it is. |
| LaneEviction.MakeRoom | tools/kvmem-lane-conversations.h:222-252 | The reservation loop ends; it succeeds if and only if dropping every evictable store would make the reservation fit, drops least recently used stores first, and none beyond the last one needed. |
| LaneEviction.MadeRoomRules | tools/kvmem-lane-conversations.h:230-252 | In the terms of the entries: only parked stores with a charge that nobody pins or waits for are given up, the owner never, the older first, and all of them if the reservation fails. |
| LaneEntries.PickedRules | tools/kvmem-lane-conversations.h:89-109 | The store a request gets: the one it extends, else the first of its key, else the first empty one that may be taken, else in a full table the least recently used one that may be taken and that nobody pins or waits for, else a new one. |
| LaneEntries.DecidedRules | tools/kvmem-lane-conversations.h:110-123 | It waits if and only if the store is busy, switching or on a leased lane, or the table is full without a store to take, or no lane is free, a free lane being one that is not leased and whose store nobody has flagged; else its lane is the store's own or the first free one. |
| LaneState.ChosenFits | tools/kvmem-lane-conversations.h:110-122 | What select tests of a store and a lane is what reserving them needs. |
| LaneState.ReserveKeeps | tools/kvmem-lane-conversations.h:124-136 | On whole entries: reserving is the ownership step, keeps the state valid and leaves the charge as it was. |
| LaneState.PublishKeeps | tools/kvmem-lane-conversations.h:187-200 | Publication is the ownership step and does not raise the charge. |
| LaneState.DemoteKeeps | tools/kvmem-lane-conversations.h:376-392 | Spilling a displaced store's chunk changes the charge by exactly its attachment bytes and no owner. |
| LaneState.CommitKeeps | tools/kvmem-lane-conversations.h:271-287 | The commit is the ownership step, ends the reservation, does not raise the charge, and loses the displaced store exactly if it had been erased. |
| LaneState.LeaveKeeps | tools/kvmem-lane-conversations.h:255-302 | After commit and enforcement the state is valid if and only if the displaced store's flag was the request's own. |
| LaneState.CatchKeeps | tools/kvmem-lane-conversations.h:290-300 | After the catch block the state is valid if and only if the cleared flags were its own, and neither the active nor the displaced store has anything committed. |
| LaneState.InitialValid | tools/kvmem-lane-conversations.h:48-68 | Startup is valid and is the ownership startup. |
| LaneRun.StepKeeps | tools/kvmem-lane-conversations.h:86-302 | Every step of every request in a valid state within the budget, with the choices select and the eviction loops make: the charge stays within the budget, and the state stays valid if and only if the flags the step clears are its own. |
| LaneRun.RunKeeps | tools/kvmem-lane-conversations.h:86-302 | Along every interleaving of own-flag steps validity and budget are kept. |
| LaneRun.StepStaysWithin | tools/kvmem-lane-conversations.h:86-302 | In any state, whoever owns what: a step from within the budget stays within it if and only if it is no such admission. |
| LaneRun.BudgetHolds | tools/kvmem-lane-conversations.h:48-302 | From any startup within the budget: along every interleaving retained plus reserved bytes stay within it if and only if no request is admitted beside attachments of its own store that do not fit as well; where all flags are own that is so, and each lane is with the store that names it. |
| LaneRun.OneLaneHolds | tools/kvmem-lane-conversations.h:86-302 | With one lane every enabled run is an own-flag run, so all of this holds without a condition. |
| LaneRace.OwnershipCanBeLost | tools/kvmem-lane-conversations.h:287 | From startup with two lanes a run of six requests, every store and lane the one select picks, reaches a state in which a lane's resident store is marked as parked. |
| LaneOverrun.BudgetCanBePassed | tools/kvmem-lane-conversations.h:217-254 | From startup with two lanes and nothing charged a run of the same six requests ends above the budget: after a second request has spilled a chunk of a store that is over the byte target, the store's own request is admitted beside it. |
| LaneCatalog.LaneCatalog.constructor | tools/kvmem-lane-conversations.h:48-68 | Builds the startup state with the measured sizes of each lane's store recorded; it is within the budget exactly if their charge is. |
| LaneCatalog.LaneCatalog.Choose | tools/kvmem-lane-conversations.h:90-110 | The planned store, else the first with the client's key, else the first eligible empty one, else in a full table the least recently used unprotected one; and exactly when the request must wait. |
| LaneCatalog.LaneCatalog.FreeLane | tools/kvmem-lane-conversations.h:115-122 | The first lane that is not leased and whose store is unflagged, or none if there is none. |
| LaneCatalog.LaneCatalog.Place | tools/kvmem-lane-conversations.h:110-122 | The lane of the chosen store or the first free one; no lane exactly if the request must wait or, its media being ready, no lane is free; media are asked for exactly if only they lack. |
| LaneCatalog.LaneCatalog.Select | tools/kvmem-lane-conversations.h:86-137 | The store the rules pick gets its own lane or the first free one; it waits exactly if its store may not be taken or no lane is free, and asks for media exactly if only they lack; nothing changes unless it reserves, and then the store is busy, the lane's own one switching, a new store empty, and nothing else has changed. |
| LaneCatalog.LaneCatalog.Handover | tools/kvmem-lane-conversations.h:171-178 | The first locked region of attach: the lane is the request's store's, the displaced one is parked, every other field of every store is as it was; keeps validity and budget. |
| LaneCatalog.LaneCatalog.Publish | tools/kvmem-lane-conversations.h:187-200 | The second region: the same, with client and measured size of the incoming store and rows, bytes and size of the displaced one recorded, and every other field of every store as it was; keeps validity and budget. |
| LaneCatalog.LaneCatalog.DemoteChunk | tools/kvmem-lane-conversations.h:376-391 | A chunk is charged if and only if it fits the payload budget, before it is spilled, and a failed spill charges what is on disk. |
| LaneCatalog.LaneCatalog.Settle | tools/kvmem-lane-conversations.h:205-213 | The end of attach: the displaced store's flag is released, its bytes are those measured, and nothing else of any store changes. |
| LaneCatalog.LaneCatalog.ReservePayload | tools/kvmem-lane-conversations.h:217-254 | Success puts retained plus reserved bytes within the budget and reserves the larger of required and native bytes; failure means that dropping every evictable owner would not do; what is given up goes, but the displaced store keeps an empty node, and nothing else changes. |
| LaneCatalog.LaneCatalog.Finish | tools/kvmem-lane-conversations.h:255-289 | The commit, the exact condition under which it throws, what enforcement gives up and in which order, and the byte target; every field of every store that is left, so that of a request that never became ready its own store and, if attached, the displaced one have nothing committed, and of one that did what was measured; validity afterwards if and only if the displaced store's flag was the request's own. |
| LaneCatalog.LaneCatalog.Catch | tools/kvmem-lane-conversations.h:290-300 | The catch block: its flags and its reservation are gone, its active store and the displaced one have nothing committed, a store it added and never attached is gone, and nothing else changes; exact validity condition, and the budget kept. |
| LanePool.WithoutKeepsOrder | tools/kvmem-lane-pool.h:144-148 | Erasing a waiter removes that ticket only and keeps the queue in order. |
| LanePool.EnqueueKeeps | tools/kvmem-lane-pool.h:62-68 | A new ticket keeps the pool's invariant: one lane per key, same-key grants in order, busy exactly while leased. |
| LanePool.EraseKeeps | tools/kvmem-lane-pool.h:144-148 | So does giving up a ticket. |
| LanePool.GrantKeeps | tools/kvmem-lane-pool.h:106-121 | So does granting a free lane to an unblocked waiter. |
| LanePool.ReleaseKeeps | tools/kvmem-lane-pool.h:42-52 | So does releasing a lease. |
| LanePool.GrantIsAlone | tools/kvmem-lane-pool.h:149-157 | An unblocked request shares its key with no leased lane. |
| LanePool.GrantIsNext | tools/kvmem-lane-pool.h:149-157 | An unblocked waiter precedes every other waiter of its key and follows every earlier grant of it. |
| LanePool.UnblockedIff | tools/kvmem-lane-pool.h:149-157 | A request is blocked if and only if one of its key holds a lane or waits ahead of it, or, once it has left the queue, waits at all. |
| LanePool.FirstIs | tools/kvmem-lane-pool.h:99-106 | Being first is exactly to wait, to be ready, unblocked and selectable, while of the waiting requests enqueued earlier none that is ready and unblocked is selectable. |
| LanePool.HeadIsUnblocked | tools/kvmem-lane-pool.h:149-157 | With no lane leased the head of the queue is unblocked. |
| LanePool.EveryRunIsFair | tools/kvmem-lane-pool.h:42-148 | After any run of enqueuing, giving up, granting and releasing from startup: a lane is busy exactly while a request holds it, no two lanes are held under one key, and the requests of a key are granted in the order they came, before those still waiting. |
| LanePool.LanePool.GroupReady | tools/kvmem-lane-pool.h:149-157 | The scan decides exactly whether the request is unblocked: no request of its key holds a lane or waits ahead of it. |
| LanePool.LanePool.FirstSelectable | tools/kvmem-lane-pool.h:99-105 | The scan finds the earliest request that waits, is ready, unblocked and selectable, or none exactly if there is none. |
| LanePool.LanePool.TryAcquire | tools/kvmem-lane-pool.h:83-125 | One pass of acquire grants if and only if it is not cancelled, no media are missing, the lane is valid and free, the request waits, is unblocked and selectable, and no earlier one that is ready and unblocked is selectable; when exactly it cancels or asks for media; and the new queue, leases, readiness and rotation, a grant being a step of the runs above. |
| LanePool.LanePool.WaitTurn | tools/kvmem-lane-pool.h:70-78 | One pass of wait_turn: done and turn exactly, and a cancelled blocked waiter leaves the queue. |
| LanePool.LanePool.Release | tools/kvmem-lane-pool.h:42-52 | The lane is free again and nothing else changes. |
| LanePool.LanePool.Rotate | tools/kvmem-lane-pool.h:127-136 | The default callback finds the first free lane in rotation, or reports none exactly when all are busy. |
| ChunkNames.ChunkName | tools/kvmem-session-cache-dir.h:228-234 | The test as the code performs it. |
| ChunkNames.ChunkNameIsTwoNumbers | tools/kvmem-session-cache-dir.h:228-234 | Accepted names are exactly two digit runs joined by a dash with extension .kv or .tmp. |
| ChunkNames.WrittenNamesAreRecognised | tools/kvmem-session-files.h:103-105 | A written name is recognised by cleanup if and only if the conversation id is not negative. |
| ChunkNames.NamesAreDistinct | tools/kvmem-session-files.h:103-105 | Different chunks, and the two forms of one chunk, never share a name. |
| ChunkNames.NameParts | tools/kvmem-session-files.h:103-105 | A name gives back id, chunk and form. |
| CacheDirectory.StepKeeps | tools/kvmem-session-cache-dir.h:148-261 | Every system call of every process, a crash and a stranger's file keep the protocol's invariant: one user per directory, locks with their users, and any directory that holds a chunk marked. |
| CacheDirectory.RunKeeps | tools/kvmem-session-cache-dir.h:148-261 | Hence along every interleaving leftover data stays reclaimable. |
| CacheDirectory.StartupHolds | tools/kvmem-session-cache-dir.h:148-152 | The invariant holds of an empty root. |
| CacheDirectory.EndKeeps | tools/kvmem-session-cache-dir.h:192-199 | A process that ends or crashes anywhere frees its locks and keeps the invariant. |
| CacheDirectory.LiveRunsAreLeftAlone | tools/kvmem-session-cache-dir.h:155-165 | No step of another process removes a file or the marker of a run whose owner is alive. |
| CacheDirectory.LiveRunsKeepTheirFiles | tools/kvmem-session-cache-dir.h:148-261 | Nor does any sequence of steps of others, crashes included. |
| CacheDirectory.CleanupRemovesChunksOnly | tools/kvmem-session-cache-dir.h:235-261 | Whatever disappears from a directory was removed by its one user, and by cleanup only if it is a plain chunk file. |
| CacheDirectory.UnexpectedIsLeftWhole | tools/kvmem-session-cache-dir.h:237-248 | A directory listed with an unexpected entry is unchanged and let go. |
| CacheDirectory.MarkerGoesLast | tools/kvmem-session-cache-dir.h:257-260 | When a marker disappears, no chunk is left in that directory. |
| CacheDirectory.LeftoversAreReclaimed | tools/kvmem-session-cache-dir.h:148-165 | Whatever directories the next process to start lists, it has a run of its own that removes every one of them that crashed processes left with chunks only, leaves all others as they were, and fails at no system call. |
| CacheDirectory.EveryScanReclaims | tools/kvmem-session-cache-dir.h:148-165 | Every scan, with the steps of all others anywhere in between: once it has come to the end of its list, each leftover directory it listed is gone, unless a call on that directory failed, a stranger dropped a file in it, or the process died. |
| CacheCleanup.RemoveFiles | tools/kvmem-session-cache-dir.h:249-257 | The removal loop is a run of protocol steps; exactly the files that could not be removed stay, and the bytes counted are those removed. |
| CacheCleanup.CloseDown | tools/kvmem-session-cache-dir.h:257-260 | Marker and directory go only after every file did, and each outcome leaves exactly the state it should. |
| CacheCleanup.CleanUp | tools/kvmem-session-cache-dir.h:235-261 | The whole cleanup is a run of protocol steps, with its outcome, remaining files and removed bytes for every combination of failures. |
| TransferPlan.PrefixesStayWithin | tools/kvmem-session-transfer.h:166-186 | Every prefix of a feasible order stays within RAM and disk and below the peaks. |
| TransferPlan.PeaksAreReached | tools/kvmem-session-transfer.h:176-177 | Each peak is reached by some prefix. |
| TransferPlan.NetOfAnyOrder | tools/kvmem-session-transfer.h:173-175 | What the moves come to does not depend on their order. |
| TransferPlan.OrdersBalance | tools/kvmem-session-transfer.h:166-186 | An order that fits exists only if RAM and disk balance in the end. |
| TransferPlan.OneWayFits | tools/kvmem-session-transfer.h:168-179 | Moves of one kind that fit in total fit after any feasible prefix. |
| TransferPlan.OrderFitsIffBalanced | tools/kvmem-session-transfer.h:160-161 | On the disk-first and ram-first routes an order that fits exists if and only if the moves balance. |
| TransferPlan.ScanKeeps | tools/kvmem-session-transfer.h:168-179 | A scheduling pass loses no move, and what it takes fits, one after the other. |
| TransferPlan.ScanLeaves | tools/kvmem-session-transfer.h:168-179 | What a pass leaves does not fit when the pass is over. |
| TransferPlan.ScanTakesAll | tools/kvmem-session-transfer.h:168-179 | A pass with room for all its moves takes them all. |
| TransferPlan.ScheduleFacts | tools/kvmem-session-transfer.h:166-186 | The schedule takes each move at most once, is feasible throughout, and stops early exactly when moves are left of which none fits. |
| TransferPlan.ScheduleIsComplete | tools/kvmem-session-transfer.h:160-186 | On the disk-first and ram-first routes the schedule takes every move if and only if some order of all moves fits. |
| TransferPlan.ScheduleIsCompleteIfAlike | tools/kvmem-session-transfer.h:158-186 | Where all reads are alike in size and all writes are, the schedule takes every move if and only if some order of all moves fits, on every route. |
| TransferPlan.PlansAreInRouteOrder | tools/kvmem-session-transfer.h:160-185 | The order of a plan: all writes and then all reads, as given, if the disk has room for all writes; if not, but RAM has room for all reads, all reads and then all writes; else it begins with a pass over the writes and one over the reads. |
| TransferPlanner.Planner.Take | tools/kvmem-session-transfer.h:173-177 | Taking a move keeps free RAM, used disk and both peaks equal to what the moves taken so far come to. |
| TransferPlanner.Planner.Pass | tools/kvmem-session-transfer.h:168-179 | The loop over done flags is a scheduling pass over the moves that are not done. |
| TransferPlanner.Planner.Turn | tools/kvmem-session-transfer.h:167-185 | Both passes in the order of the route; the disk subtraction never wraps. |
| TransferPlanner.Plan | tools/kvmem-session-transfer.h:158-188 | The planner finds exactly the schedule: the route by disk room first and RAM room second, the moves writes first or reads first accordingly; a feasible permutation of all moves with exact peaks; on the first two routes, and where reads are alike and writes are alike, if and only if any order fits; otherwise nothing that is left fits. |
| SessionFiles.Files.Erase | tools/kvmem-session-files.h:66-77 | A removal that fails stays charged and recorded; one that works gives back exactly its bytes. |
| SessionFiles.Files.Save | tools/kvmem-session-files.h:81-125 | The ledger equals the sum of the records and never passes the limit; when exactly quota, space or a write fails; a failed write leaves nothing, or an unready file charged in full. |
| SessionFiles.Files.Load | tools/kvmem-session-files.h:129-162 | Only a ready file can be loaded, and it gives back what was written. |
| SessionTransfer.AnnouncedIsWritten | tools/kvmem-session-transfer.h:11-16 | The size announced for a chunk is the sum of its single writes, header fields and each buffer after its length, as the ledger checks before it adds a checksum of eight bytes. |
| SessionTransfer.SessionStore.WriteOut | tools/kvmem-session-transfer.h:79-85 | A complete ready file exists before any buffer is released. |
| SessionTransfer.SessionStore.Spill | tools/kvmem-session-transfer.h:75-89 | Whatever fails, every chunk is in RAM or in a complete ready file with its contents; it works exactly if the session is valid and, where no finished file is there, an unfinished one can go, the write works and the file fits disk and quota; what it charges, and that no other chunk changes. |
| SessionTransfer.SessionStore.ReadBack | tools/kvmem-session-transfer.h:94-106 | Reading gives back the original contents, or releases again what it had read. |
| SessionTransfer.SessionStore.Restore | tools/kvmem-session-transfer.h:90-112 | Every chunk stays safe; it works exactly if the session is valid, the chunk is in RAM or its file can be read to its checksum, and the file can be removed; the file goes only after every buffer is back, and a file that cannot be removed stays charged beside the RAM copy. |
| SessionTransfer.SessionStore.SpillAndRestore | tools/kvmem-session-transfer.h:75-112 | A spill followed by a restore gives back the same sessions, files and charge. |
| SessionTransfer.FeasibleAt | tools/kvmem-session-transfer.h:192-198 | Each move of a feasible plan fits in the state its predecessors leave. |
| SessionTransfer.NextOnTrack | tools/kvmem-session-transfer.h:192-198 | From the planned state the next move works and charges exactly the simulated bytes. |
| SessionTransfer.MoveKeepsOthers | tools/kvmem-session-transfer.h:192-198 | It leaves the moves after it ready and those before it done. |
| SessionTransfer.SessionStore.Execute | tools/kvmem-session-transfer.h:190-199 | Wherever execution stops every chunk is safe and unnamed chunks are untouched; from the planned state without faults every move is done and the charge is the simulated one. |
| TransferRun.CollectReads | tools/kvmem-session-transfer.h:137-147 | The reads collected, and exactly when the target is refused. |
| TransferRun.CollectAll | tools/kvmem-session-transfer.h:148-157 | The writes collected, and exactly when an outgoing session is refused. |
| TransferRun.RefusedIff | tools/kvmem-session-transfer.h:137-157 | What is refused: exactly an invalid session, a target chunk neither in RAM nor in a finished file, and an outgoing chunk whose unfinished file still takes disk. |
| TransferRun.ReadsAre | tools/kvmem-session-transfer.h:140-147 | The reads are exactly the chunks that are not in RAM, at the RAM of their buffers, and those that still have a file, at none, each with the disk its file is charged. |
| TransferRun.WritesAre | tools/kvmem-session-transfer.h:150-157 | The writes are exactly the chunks in RAM, with the RAM they take and the disk of a full file, or none where a finished file is there. |
| TransferRun.AllMoves | tools/kvmem-session-transfer.h:137-157 | The lists name each chunk at most once, as the executor expects it, and what they leave out is already where it should be. |
| TransferRun.ReadsCharged | tools/kvmem-session-transfer.h:174 | The disk bytes of all reads are part of the ledger, so the planner's subtraction never wraps. |
| TransferRun.AllArrived | tools/kvmem-session-transfer.h:190-199 | Once every move is done the target is complete in RAM without files and every outgoing chunk is on disk. |
| TransferRun.Transfer | tools/kvmem-session-transfer.h:132-199 | Planning and executing: when it is refused; that otherwise it runs exactly if the schedule takes every move, and executes that schedule, writes first if the disk has room for them all, else reads first if RAM has; that if not no order fits, on the first two routes or with alike reads and writes; that every chunk is safe wherever it stops, and that without faults it arrives and the ledger shows what the plan said. |
| TransferExchange.CollectedMoves | tools/kvmem-session-transfer.h:10-23 | The moves collected from a spilled chunk of 50 bytes, one of 90 and one of 90 in RAM have files of 98 and 138 bytes, as the chunk sizes say. |
| TransferExchange.ExchangeCanMissAnOrder | tools/kvmem-session-transfer.h:158-186 | With these moves, 100 bytes of RAM free and the quota used up, the state is safe and the request accepted, the route is exchange, an order of all moves fits, and the schedule stops after one. |
| TransferExchange.ExchangeGivesUp | tools/kvmem-session-transfer.h:132-187 | From an empty ledger: the two files are saved, and the transfer then finds no plan. |
| SessionGrouping.Group | tools/kvmem-session-transfer.h:34-43 | Buffers are grouped once each and in order, no chunk is empty or larger than the group size allows, and a buffer opens a new chunk if and only if it does not fit the one before. |
| EmbeddingCache.DivisionTestsTheProduct | tools/kvmem-vision.cpp:174 | The division test accepts exactly the token counts whose product is within the limit. |
| EmbeddingCache.EmbeddingCache.FindVictim | tools/kvmem-vision.cpp:190-194 | The least recently used entry that no prompt holds, or none exactly if all are held. |
| EmbeddingCache.EmbeddingCache.Evict | tools/kvmem-vision.cpp:195-197 | Live bytes stay equal to cached bytes; a held embedding is never evicted. |
| EmbeddingCache.EmbeddingCache.MakeRoom | tools/kvmem-vision.cpp:189-202 | Evictions are least recently used first and no more than needed; it gives up only with patience used up and no room, and waiting happens only when what other prompts and this one hold leaves no room. |
| EmbeddingCache.NeededIs | tools/kvmem-vision.cpp:168-171 | What counts towards the limit is each media id once of a range that ends after begin or that the prompt already holds. |
| EmbeddingCache.EmbeddingCache.Request | tools/kvmem-vision.cpp:166-179 | The request is refused exactly if its distinct media together pass the limit. |
| EmbeddingCache.EmbeddingCache.Encode | tools/kvmem-vision.cpp:203-218 | A new embedding enters within the limit. |
| EmbeddingCache.EmbeddingCache.Hold | tools/kvmem-vision.cpp:220-221 | The prompt holds the cached embedding, now the most recently used. |
| EmbeddingCache.NeverStuck | tools/kvmem-vision.cpp:180-202 | If no other prompt holds embeddings, what is pinned leaves room for whatever the request still needs. |
| EmbeddingCache.EmbeddingCache.PrepareOne | tools/kvmem-vision.cpp:180-222 | One media range: a hit evicts nothing and is ready; on a miss exactly when the encoder fails, cancelled only with patience used up and no room, and alone it neither waits nor is cancelled. |
| EmbeddingCache.EmbeddingCache.Prepare | tools/kvmem-vision.cpp:158-225 | Too large exactly if the distinct media pass the limit; a failure or cancellation has its cause at the range where it stopped; when ready every range from begin on is held with its own media; it keeps what it held, others only let go, and the limit is never passed; alone, fitting, undisturbed and with a working encoder it is ready without waiting. |
| Hadamard.Symmetric | src/adapter/llama-kvmem-quant.h:52-61 | The matrix is symmetric. |
| Hadamard.Squared | src/adapter/llama-kvmem-quant.h:52-61 | Its square is n times the identity, for every power of two. |
| Hadamard.Spread | src/adapter/llama-kvmem-quant.h:55-58 | One step copies an entry into the three other quarters and changes nothing else. |
| Hadamard.Matrix | src/adapter/llama-kvmem-quant.h:42-63 | The in-place doubling loops build exactly that matrix, scaled. |
| HadamardRows.RotatedTwice | src/adapter/llama-kvmem-quant.h:82-90 | Rotating a chunk twice gives it back. |
| HadamardRows.RowsTwice | src/adapter/llama-kvmem-quant.h:67-94 | So does rotating all rows twice. |
| HadamardRows.RowsAt | src/adapter/llama-kvmem-quant.h:81-90 | Each entry of the rotated rows is the scaled product of its row of the matrix and its own chunk. |
| HadamardRows.RotateChunk | src/adapter/llama-kvmem-quant.h:81-90 | One chunk is multiplied by the matrix in place and nothing else changes. |
| HadamardRows.RotateRows | src/adapter/llama-kvmem-quant.h:67-94 | The nested loops rotate every chunk of every head of every row once, or nothing exactly if there are no rows or heads, or the rotation size is not positive or does not divide the width. |
| HadamardRows.RotateThereAndBack | src/adapter/llama-kvmem-quant.h:67-94 | The same call twice leaves the rows as they were. |
| HadamardRows.RotationSize | src/adapter/llama-kvmem-quant.h:30-36 | The rotation size is the largest power of two that divides an accepted head width. |
| ConversationStore.Checkpoint | tools/kvmem-conversation-store.h:103-113 | The largest checkpoint row at or below the cap, or none. |
| ConversationStore.BestIsMaximal | tools/kvmem-conversation-store.h:189-211 | The choice resumes furthest, the most recent among equals and the first of those; there is none exactly if no candidate can resume. |
| ConversationStore.ResumesAtACheckpoint | tools/kvmem-conversation-store.h:96-122 | A request resumes in a store exactly at its largest checkpoint row within the matched prefix, the live rows and what it evaluates, one row less unless it speculates, and only if that is positive and the store is a continuation. |
| ConversationStore.PlanFollowsRules | tools/kvmem-conversation-store.h:166-231 | In the terms of the stores: the plan extends a store of the client wherever the client has any, at a checkpoint row within reach of a continuation, and no such row of any candidate is larger; it starts afresh only if there is no such row. |
| ConversationStore.ChoiceIgnoresOrder | tools/kvmem-conversation-store.h:189-211 | With distinct stamps the choice does not depend on the order of stores or of checkpoints. |
| ConversationStore.UnknownClientIsNone | tools/kvmem-conversation-store.h:166-231 | An unknown client id gives the whole plan of no id: action, row, evictions and reason. |
| ConversationStore.VictimsAre | tools/kvmem-conversation-store.h:135-143 | The victims are the unprotected stores, each once, least recently used first and by id among equals. |
| ConversationStore.PlanEvictions | tools/kvmem-conversation-store.h:132-162 | The list is the shortest run of victims after which both caps hold, or all of them: before the last one went a cap did not hold, and afterwards both do or nothing is left to evict. |
| ConversationStore.EvictionsAreSafe | tools/kvmem-conversation-store.h:124-131 | It never names the target or the attached store, never repeats an id and names only live stores. |
| ConversationStore.Choose | tools/kvmem-conversation-store.h:189-211 | The selection loop computes that choice, the largest observed prefix, and how far the candidates' checkpoints reached. |
| ConversationStore.Select | tools/kvmem-conversation-store.h:166-231 | The plan: extend exactly if some candidate can resume, where, what to evict, and a reason that is true of the stores. |
| ResponseStream.OneMore | tools/kvmem-responses-stream.cpp:87-94 | Sending the next number with an item or part that has been announced keeps the log well formed: consecutive numbers, indices once each without gaps, every delta placed. |
| ResponseStream.EventInOrder | tools/kvmem-responses-stream.cpp:83-94 | In a well-formed log, in terms of the events alone: numbers count from zero, item indices count from zero, an item is announced before its part and its deltas, and a part before the deltas that go into it. |
| ResponseStream.HeadIndices | tools/kvmem-responses-stream.cpp:252-297 | The positions counted at the end name reasoning and message exactly if these opened there. |
| ResponseStream.CallsCloseIffOpened | tools/kvmem-responses-stream.cpp:299-322 | Where the calls of a message have ids of their own, every call closes exactly if every call was opened under its own id. |
| ResponseStream.ClientRebuildsTheOutput | tools/kvmem-responses-stream.cpp:238-336 | When items opened as reasoning, message, calls and the message is what the deltas said, the client's array is the final output. |
| ResponseStream.Stream.Created | tools/kvmem-responses-stream.cpp:96-113 | The two opening events, numbered. |
| ResponseStream.Stream.Reason | tools/kvmem-responses-stream.cpp:123-169 | The client's reasoning text and summary both grow by the delta, opening item and part first if needed. |
| ResponseStream.Stream.Say | tools/kvmem-responses-stream.cpp:171-204 | The client's message grows by the delta, opening item and part first if needed. |
| ResponseStream.Stream.CallTool | tools/kvmem-responses-stream.cpp:206-233 | A call opens exactly when its name is known, its arguments grow by the delta, and no other call changes. |
| ResponseStream.Stream.Events | tools/kvmem-responses-stream.cpp:115-236 | One delta keeps the stream well formed and the client's items equal to the texts sent so far. |
| ResponseStream.Stream.CloseHead | tools/kvmem-responses-stream.cpp:252-297 | Reasoning and message close their text, then their part, then the item, each with the whole text; the events name the right items exactly if the client has these at the counted positions, and agree with what it has there if they opened in order. |
| ResponseStream.Stream.Done | tools/kvmem-responses-stream.cpp:238-336 | The items reported as done, and the output of the last event, are the final message; reasoning and message close exactly one text and one part before their item, opened calls their arguments, each with the full text, which is what the deltas have built at the client; the closing events name the right items if and only if reasoning opened first and the message right after it and every call closes; if the calls were said and opened in order too the client already has the output. |
| ResponseStream.HeadOutOfOrder | tools/kvmem-responses-stream.cpp:252-297 | A content delta, then a reasoning delta, then the message they make up: some closing event names the wrong item. |
| ResponseStream.CallWithoutId | tools/kvmem-responses-stream.cpp:206-322 | A call named without an id opens under the response's id and is reported as done under none, so some closing event names the wrong item. |
| KeyList.ScanQuoted | tools/kvmem-server-options.h:128-132 | A doubled key inside quotes is read back as the key. |
| KeyList.PrintRoundTrip | tools/kvmem-server-options.h:122-147 | Printing any non-empty list and reading it gives the list, with no quote left open. |
| KeyList.UnquotedIsLiteral | tools/kvmem-server-options.h:132-136 | A quote inside an unquoted field stands for itself. |
| KeyList.Options.AddKey | tools/kvmem-server-options.h:114-120 | Exactly the non-empty printable keys without whitespace are appended; any other changes nothing. |
| KeyList.Options.AddKeys | tools/kvmem-server-options.h:121-147 | Each outcome exactly when the value's fields call for it, and the keys appended in each case, those before an error included. |
| KeyList.Options.AddPrinted | tools/kvmem-server-options.h:114-147 | Adding a printed list of valid keys appends exactly that list. |

## Left out

- SpeculativeLoop.Generate: when it fails, nothing is said of n_past or of the context's rows; a failing removal of rows is observed in replay mode only, as in the source, where the other modes ignore its result.
- SpeculativeLoop.TargetContext.ReplayBegin: a recording that was poisoned by an earlier error is not modelled.
- SpeculativeLoop.TargetContext.RemoveLogical: its success result is the parameter `fault`; the branch for the draft context and the test that positions are consecutive are not modelled.
- SpeculativeLoop.Verify: the position offset, the draft context's own rows, the draft driver's state and the batch size limit are not modelled.
- SpeculativeLoop.Deliver: the from-draft flag passed to the token callback is not modelled.
- LaneCatalog.LaneCatalog.Select: the selection plan is a parameter that `ConversationStore` specifies separately; pins and waiting keys are arbitrary.
- LaneCatalog.LaneCatalog.Publish: sizes reported by native calls are parameters, assumed no larger than what the catalog charges for the stores involved; the eviction, switch, fork and extend counters and the 64-bit overflow check of the charge are not modelled.
- LaneCatalog.LaneCatalog.Finish: the size measured at the end is assumed to be within the request's charge, and clearing a store is assumed not to make it larger.
- LaneCatalog.LaneCatalog.DemoteChunk: freezing and thawing of the native bundle are not modelled.
- LanePool.LanePool.TryAcquire: timed waits are passes that may be repeated; the notifications are not modelled.
- CacheDirectory.StepKeeps: names of run directories, permissions and link checks appear only as "plain" or not; statistics of the scan are not modelled.
- ChunkNames.WrittenNamesAreRecognised: that ids are not negative is up to the callers; a file of a negative id would make its directory ineligible for cleanup.
- SessionFiles.Files.Save: private-directory mode only; the shared spill file, header contents, checksums and the guard against payload sizes near 2^64 are not modelled, and storage is assumed to return what was written.
- TransferPlan.ScheduleIsCompleteIfAlike: on the exchange route with sizes that differ, the condition is sufficient and not necessary; the greedy order may still succeed.
- TransferPlanner.Plan: disk use that already includes planned removals is a parameter, required to cover the disk bytes of all reads.
- TransferRun.Transfer: takes disk use from the ledger; payload ids are distinct.
- EmbeddingCache.EmbeddingCache.Prepare: the encoder's failures, cancellation and which prompts let go during a wait are parameters; the size of an embedding is fixed by its media id, and the encoder's output and timing are not modelled.
- HadamardRows.RotateRows: the test for a null pointer is not modelled.
- Hadamard.Matrix: exact reals with c * c * n == 1; the cache of matrices, its mutex and the environment switch are not modelled, nor is rounding.
- ResponseStream.Stream.Done: JSON text, item fields other than ids and texts, timestamps and usage are not modelled.
- The bookkeeping table of stores (tools/kvmem-conversation-store.h:240 and on) would add only easy members.
- HTTP serving, authentication, device probing, logging, option validation and the native KV store, snapshot and spill-file classes are not part of this model.
- Thread scheduling inside a locked region: a region under a mutex is one step.
