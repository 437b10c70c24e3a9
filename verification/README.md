# Verification of the scope cache

This project models the write paths, the bulk operations and the concurrency protocols of an in-memory,
scope-partitioned item cache, and proves what they keep. All of it is written in Dafny; nothing here runs the
original program.

How the parts fit together:

- `Types`, `ScopeSpec`, `ScopeLaws`, `ScopeAnswers`: items, costs, every operation on one scope as an operation on a
  plain list, and what each of them refuses, leaves and shows, stated on items, caps and requests alone.
- `Budgets`, `Buffer`: the scope buffer as a class over a real array with slack, heap items shared by three hash
  indexes, and incremental counters, proved to refine the list operations.
- `Protocol`, `ProtocolSafety`, `Overshoot`, `LowerBound`, `Undershoot`: the store as threads taking atomic steps
  with stale buffer pointers, a byte reservation apart from the change it pays for, and a ledger of what is in
  flight; how high and how low the byte counter can go, each with a run that gets there.
- `ProtocolAlone`, `BatchesAlone`: a thread that nobody races with takes those same steps to exactly the store that
  the specification of the whole operation, warm or rebuild gives.
- `Validation`, `StoreSpec`, `StoreLaws`, `BulkSpec`, `Stores` (in `Store.dfy`): the public operations as loops and
  counter updates, proved against a specification in which each happens in full or not at all.
- `Answers`, `BulkAnswers`, `EventAnswers`: what a client is answered and finds afterwards, refusal by refusal, for
  every public command and batch, and what is announced.
- `Emissions`: threads that commit first and write their event later, with other commits, batches and whole resets
  in between, and what the event accounts then are.
- `Replay`, `ReplayLimits`, `ReplayRuns`: the event stream carried out again on an empty store, exactly when that
  fails, and concrete runs that show it.
- `Counters`, `Subscriptions`, `Locks`: the counter cell, the wake-up channel and the lock order.
- `Draining`, `ScopeLists`, `Uuids`: paging and consuming a scope, listing scopes by cursor, and uuid text
  (RFC 9562, sections 4 and 5.7).

What is assumed, as parameters or preconditions: the JSON library and the key-shape checks (a `Codec` of
functions), the clock, the shard of a name (any fixed function), a mint that hands out no uuid already in use, and
a slice growth policy that grows only when full and to about twice the length at most.

## Where the code differs from what is said of it

- The comment at buffer_replace.go:223-241 calls the byte cap strict across batch replacements. It is not:
  `Overshoot.WarmCanOvershoot` is a run that exceeds it, and `ProtocolSafety.OvershootsExactlyOnShrunkCommits` says
  exactly when that happens.
- The comment at store.go:430-438 says the byte counter is never negative when a positive change is reserved. It can
  be, between a warm reservation and its commits: `Undershoot.WarmCanUndershoot` is a run from boot that gets there,
  and `LowerBound.NeverBelowOutstanding` says how low it can go and when it cannot happen. The 64-bit check then
  refuses rather than admits too much (`Budgets.SubtractiveCheckIsExact`).
- The header of subscribe.go recommends draining with tail and delete. A run of such a loop is lossless if and only
  if it never deletes up to a window that said older items remain (`Draining.LosslessExactly`);
  `Draining.TailLoopLoses` is a run that loses one. The loop that is always lossless reads from the head.
- The unsubscribe function is described as idempotent. It is as long as nobody re-subscribes
  (`Subscriptions.UnsubscribeCloses`, `Subscriptions.StaleUnsubscribe`).
- Events are described as replayable. They are for commands addressed by id or sequence number and recorded in the
  order of their commits (`Emissions.CommitOrderReplays`). `ReplayLimits.UuidDeletionReplays`, `UuidDrainReplays` and
  `UuidUpdateReplays` say exactly when a record that names its item by uuid replays, and `ReplayRuns.CrossedRun` is a
  run recorded in another order than its commits that does not.
- Every commit is said to leave one event or one counted drop. Because the event is written after the lock is
  released, a wipe or rebuild in between separates the two: `Emissions.PlainEquationExactly` says when the plain
  count holds, `ReplayRuns.WipeBreaksTheEquation` is a run where it does not.
- Rebuild does not copy the total length of the ids into its buffers (`Buffer.ScopeBuffer.InstallRebuilt`). Nothing
  but statistics reads that total.

## Model

| member | source | states |
|---|---|---|
| Buffer.ScopeBuffer.constructor | buffer.go:137-154 | a new buffer represents the empty scope, is live, and owns no counters beyond its own |
| Buffer.ScopeBuffer.IndexBySeqLocked | buffer_locked.go:122-130 | binary search over the live slice agrees with the first match of a linear scan, hit or miss |
| Buffer.ScopeBuffer.InsertNewItemLocked | buffer_write.go:319-399 | one heap item enters slice and all three indexes, or the item-size or byte-budget refusal leaves everything as it was |
| Buffer.ScopeBuffer.AppendItem | buffer_write.go:30-57 | refines the list append: detached, item-cap, duplicate-id, item-size and budget refusals change nothing; success pushes one entry and moves store counters and stamps by exactly its cost |
| Buffer.ScopeBuffer.UpsertById | buffer_write.go:65-133 | refines replace-or-insert on the list and says which of the two happened |
| Buffer.ScopeBuffer.UpdateById | buffer_write.go:142-177 | refines in-place replacement by id; a miss changes nothing |
| Buffer.ScopeBuffer.UpdateBySeq | buffer_write.go:181-237 | refines in-place replacement by sequence number, with the item measured again before the budget is asked |
| Buffer.ScopeBuffer.UpdateByUuid | buffer_write.go:243-291 | refines in-place replacement by uuid; the change is seen through every index because they share the item |
| Buffer.ScopeBuffer.ReplaceItemAtIndexLocked | buffer_locked.go:99-113 | writing through the shared item changes exactly one entry of the list and keeps all indexes valid |
| Buffer.ScopeBuffer.Reserve | buffer_locked.go:47-56 | a size change is either reserved in full against the store or refused without trace; an orphan buffer reserves nothing |
| Buffer.ScopeBuffer.AtomicCounterAdd | buffer_counter.go:96-119 | an addition to an existing cell keeps the range, takes the later timestamp and leaves byte counters and stamps alone |
| Buffer.ScopeBuffer.CounterAdd | buffer_counter.go:62-82 | refines the list operation over all branches: found cell, promotion, creation and every refusal |
| Buffer.ScopeBuffer.Promote | buffer_counter.go:141-213 | an integer item becomes a counter in place, paying the fixed cell cost instead of its payload |
| Buffer.ScopeBuffer.CreateCounter | buffer_counter.go:215-280 | a missing id becomes a new counter entry in slice and indexes |
| Buffer.ScopeBuffer.DeleteIndexLocked | buffer_delete.go:36-66 | tail shift removes one position from slice and indexes and releases exactly its cost |
| Buffer.ScopeBuffer.ShrinkIfSparseLocked | buffer_delete.go:87-125 | a sparse slice moves to an exact array with all indexes rebuilt over the same items; the copies made so far never exceed the items deleted one by one |
| Buffer.ScopeBuffer.ResetIfEmptyLocked | buffer_delete.go:142-154 | an emptied buffer drops its array and maps but keeps its cursor |
| Buffer.ScopeBuffer.DeleteById | buffer_delete.go:156-176 | refines removal by id, with counters and stamps moved by what was removed |
| Buffer.ScopeBuffer.DeleteBySeq | buffer_delete.go:178-197 | refines removal by sequence number |
| Buffer.ScopeBuffer.DeleteByUuid | buffer_delete.go:199-219 | refines removal by uuid |
| Buffer.ScopeBuffer.DeleteUpToSeqLocked | buffer_delete.go:260-306 | a prefix drain keeps exactly the entries beyond the boundary, in a fresh array, and returns how many went |
| Buffer.ScopeBuffer.DeleteUpToSeq | buffer_delete.go:228-236 | a drain of a detached buffer is refused; otherwise it is the prefix drain |
| Buffer.ScopeBuffer.DeleteUpToUuid | buffer_delete.go:242-254 | the uuid names the boundary entry; an unknown uuid drains nothing |
| Buffer.ScopeBuffer.TailOffset | buffer_read.go:59-88 | as many entries as asked for or as there are before the newest offset, each shown as stored or as its counter stands, and whether older entries remain |
| Buffer.ScopeBuffer.SinceSeq | buffer_read.go:99-131 | the oldest entries beyond a sequence number, each shown as stored or as its counter stands, and whether more remain |
| Buffer.ScopeBuffer.CopyWindow | buffer_read.go:40-47 | a window is copied out by value; each entry is shown as stored, a counter with its number and its own timestamp |
| Buffer.ScopeBuffer.GetById | buffer_read.go:133-141 | a hit if and only if some entry has that id; what is shown is that entry, a counter with its number and its own timestamp |
| Buffer.ScopeBuffer.GetBySeq | buffer_read.go:143-151 | the same by sequence number |
| Buffer.ScopeBuffer.GetByUuid | buffer_read.go:153-161 | the same by uuid |
| Buffer.BuildItems | buffer_replace.go:77-126 | the build loop yields one heap item per request, numbered from one, and stops exactly when two requests share an id |
| Buffer.BuildReplacementState | buffer_replace.go:70-170 | a replacement is built if and only if ids and uuids are unique, and then represents the specified scope with all indexes and totals |
| Buffer.SumItemBytes | buffer_replace.go:174-180 | the total cost of the built items |
| Buffer.ScopeBuffer.CommitReplacement | buffer_replace.go:194-221 | wholesale swap charging the difference to what the scope holds at commit |
| Buffer.ScopeBuffer.CommitReplacementPreReserved | buffer_replace.go:242-268 | wholesale swap settling only the drift since the snapshot |
| Buffer.ScopeBuffer.InstallRebuilt | bulk.go:308-316 | rebuild copies every field but the id bytes: the buffer is valid and holds the built scope, and its total of id lengths is right if and only if no item has an id |
| Buffer.ScopeBuffer.Detach | buffer.go:57-100 | a detached buffer keeps its content and loses its store |
| Budgets.Budget.ReserveBytes | store.go:439-454 | a positive change is admitted if and only if it fits, a negative one always; refusal changes nothing |
| Budgets.Budget.BumpLastWriteTs | store.go:178-188 | the freshness stamp only ever moves forward |
| Budgets.SubtractiveCheckIsExact | store.go:425-454 | in 64-bit arithmetic the cap check is exact if and only if the free space fits in 64 bits, and it never admits too much |
| Budgets.AdditiveCheckFailsOpen | store.go:430-438 | the additive form of the check would admit a write past the cap exactly when the sum overflows |
| Budgets.AddClamped | store.go:460-468 | the sum, saturated at the ends of the 64-bit range |
| Types.Config.WithDefaults | types.go:233-259 | every derived configuration is usable and has room for the reserved scopes; each field given is kept, each other one gets its default |
| ScopeSpec.WriteIsSound | buffer_write.go:293-399 | every planned write keeps seqs ascending, ids and uuids unique, changes the bytes by exactly what it reserves and touches one entry |
| ScopeSpec.RemovalIsSound | buffer_delete.go:20-66 | every removal keeps the scope well formed, its cursor and uuid span, and never costs bytes |
| ScopeLaws.RemovalRemovesExactly | buffer_delete.go:156-306 | an entry survives a removal if and only if it was there and the removal does not name it |
| ScopeLaws.WriteIsReadBack | buffer_write.go:59-133 | what a write stored is found again through the address it was made with, with the payload, render bytes and stamp it asked for; a new entry is made exactly by appends and missing ids |
| ScopeLaws.WriteIsLocal | buffer_locked.go:86-113 | every other entry keeps its value and position |
| ScopeAnswers.RenderedExactly | buffer_locked.go:26-39 | render bytes are kept exactly for payloads whose first byte that is not blank is a quote: the decoded string |
| ScopeAnswers.AppendRefusals | buffer_write.go:30-57 | an append is refused by its scope exactly when the scope is full, else when its id is taken, else when its stored size exceeds the cap |
| ScopeAnswers.UpsertRefusals | buffer_write.go:65-133 | an upsert of a stored id is never refused by its scope and overwrites that entry alone; a new one is refused like an append; it creates exactly if the id is missing |
| ScopeAnswers.UpdateRefusals | buffer_write.go:142-291 | an update overwrites exactly the entry addressed; by sequence number or uuid it is refused exactly when the entry would become too large |
| ScopeAnswers.UpdateMisses | buffer_write.go:142-291 | an update misses exactly when nothing has its address |
| ScopeAnswers.CounterAddsUp | buffer_counter.go:62-213 | an addition to a stored id is refused exactly when the item holds no number or the sum leaves the range; otherwise that item counts to the sum under the later timestamp |
| ScopeAnswers.CounterStarts | buffer_counter.go:215-280 | an addition to a missing id is refused exactly by a full scope; otherwise it is a new last entry that counts to the increment |
| ScopeAnswers.AdditionIsRead | buffer_read.go:24-33 | whoever reads a counter after an addition sees the number it started from plus the increment |
| ScopeAnswers.BudgetDecides | buffer_locked.go:47-56 | a buffer refuses everything once detached; a ready write is refused by the budget exactly when it grows the store past its cap; otherwise the total moves by what the scope moved |
| ScopeAnswers.SpanFollows | buffer_write.go:379-390 | the first uuid a scope ever held stays, the last one is that of the newest entry |
| ScopeAnswers.RemovedFromScope | buffer_delete.go:36-66 | a removal leaves exactly what it does not name, in order, and is shorter exactly if something was named |
| ScopeAnswers.TailWindowIs | buffer_read.go:59-88 | the tail window entry by entry, and when older ones remain, for all limits and offsets |
| ScopeAnswers.HeadWindowIs | buffer_read.go:99-131 | the head window starts at the first entry beyond the cursor, and more remain exactly when it ends before the last |
| ScopeAnswers.BuildableExactly | buffer_replace.go:77-126 | a batch is refused exactly when two of its items share an id or would have the same uuid |
| ScopeAnswers.BatchedLikeAppended | buffer_replace.go:77-126 | an item that comes with a batch is stored with the same content, render bytes and cost as the same item appended |
| ProtocolSafety.StepKeepsBalance | bulk.go:177-244 | each step keeps total bytes equal to the mapped scopes plus the ledger of reserved changes, and the item and scope counters exact |
| ProtocolSafety.StepKeepsSafe | store.go:588-610 | each step keeps lock exclusion, unique names, stale pointers harmless and lock holders' snapshots true |
| ProtocolSafety.RunIsSafe | store.go:541-567 | every reachable state of every interleaving satisfies both invariants |
| ProtocolSafety.QuiescentCountersAreExact | store.go:1028-1061 | when nothing is between reservation and change, the three counters are the true sums |
| ProtocolSafety.OvershootsExactlyOnShrunkCommits | buffer_replace.go:223-251 | a step leaves the counter above its old value and the cap if and only if it is a warm commit on a scope that shrank by more than the cap can absorb, and the rise is that shrinkage |
| ProtocolSafety.CapHolds | store.go:425-454 | in every run without such a commit the counter never exceeds the cap, through boot, wipe and rebuild |
| Overshoot.WarmCanOvershoot | buffer_replace.go:242-268 | a twelve-step run from boot that ends one scope overhead above the cap |
| LowerBound.BoundedBelow | buffer_replace.go:223-268 | in a safe state the counter is at least the overhead of the mapped scopes plus what warm batches in flight have yet to add, new bytes less old snapshots |
| LowerBound.NeverBelowOutstanding | store.go:430-438 | in every reachable state the counter is below zero only while a warm batch is reserved, not fully committed, and owes more than it will add; never below what such batches owe; never negative without one |
| Undershoot.WarmCanUndershoot | bulk.go:183-244 | a ten-step run from boot that ends below zero, exactly on that bound |
| ProtocolAlone.WriteAlone | store.go:645-656 | a write nobody races with, on a stored or missing scope, refused or not, takes steps that end in the store the specification gives; a scope created for nothing is gone again |
| ProtocolAlone.RemoveAlone | buffer_delete.go:156-236 | the same for a removal |
| ProtocolAlone.DeleteScopeAlone | store.go:1028-1061 | the same for deleting a scope |
| BatchesAlone.LaidIsWithScopes | bulk.go:216-244 | exchanging the scopes of a batch one after the other gives the content and the true sums of laying it over the store at once |
| BatchesAlone.WarmAlone | bulk.go:177-244 | a warm request nobody races with, snapshots, reservation and commits, ends with its whole batch laid over the store if the bytes allow, and with the store it found otherwise |
| BatchesAlone.RebuildAlone | bulk.go:349-364 | a rebuild or wipe nobody races with ends with exactly its content and two empty reserved scopes, whatever was there before |
| ProtocolSafety.CommitLandsInMappedBuffer | buffer_write.go:42-44 | a write that succeeds lands in the one buffer mapped under its name |
| ProtocolSafety.DetachedIsFrozen | bulk.go:53-63 | no step changes a detached buffer's items or moves the counters for it |
| ProtocolSafety.DetachedForever | store.go:1046-1059 | over a whole run a buffer never changes again once detached |
| ProtocolSafety.NothingInFlight | bulk.go:349-364 | when a wipe or rebuild has detached every mapped buffer, no other thread has anything reserved or holds a shard |
| ProtocolSafety.NameStable | bulk.go:155-176 | only the holder of a name's shard can map or unmap it |
| ProtocolSafety.RecreatingFreezesTotal | bulk.go:78-82 | while reserved scopes are being re-created no other step moves the byte counter |
| ProtocolSafety.DecidedAtThatMoment | store.go:439-454 | a thread is let through or turned away, never both: a write, a batch or a new scope exactly by the room there is at that moment, and a live buffer refuses only what its scope refuses |
| Validation.WriteItemAccepted | validation.go:304-334 | an item is accepted if and only if its scope, id and payload are in shape, it brings no seq or timestamp, a uuid only where one may come, and its size as stored, uuid included, fits the cap |
| Validation.UpsertItemAccepted | validation.go:336-360 | the same for an upsert: exactly when scope and id are given, the scope is not reserved, no uuid comes with it and the stored size fits |
| Validation.UpdateItemAccepted | validation.go:362-380 | the same for an update: exactly when one of id, sequence number and uuid is given, the scope is not reserved and the stored size fits |
| Validation.CounterAddAccepted | validation.go:391-426 | an addition is accepted if and only if it names a user scope and an id, is not zero, lies in the range, negative or not, and its counter fits the cap; a scope deletion if and only if it names a user scope |
| Validation.DeletionAccepted | validation.go:428-461 | a delete or drain request is accepted if and only if it names exactly one well-formed address or boundary |
| Validation.GroupItemsByScope | validation.go:463-469 | each scope named gets exactly its items, in request order |
| Validation.GroupingIsAPartition | validation.go:463-469 | grouping neither loses nor invents items |
| Stores.Store.constructor | store.go:321-352 | boot: two empty reserved scopes, exact counters, a configuration with defaults applied |
| Stores.Store.InitReservedScopes | store.go:283-319 | the missing reserved scopes are created and charged, the others left alone |
| Stores.Store.GetOrCreateScope | store.go:510-568 | an existing scope is found, a missing one is created and charged, or the store is left as it was when the overhead does not fit |
| Stores.Store.CleanupIfEmptyAndUnused | store.go:588-610 | an empty scope is taken back with its overhead, a used one is kept |
| Stores.Store.WriteCreating | store.go:645-656 | create, write and roll back together look like one step: scope and item appear together or nothing changes |
| Stores.Store.EmitEvent | events.go:99-120 | one entry in the event scope, or one counted drop |
| Stores.Store.Announce | events.go:124-126 | off mode and the event scope itself announce nothing |
| Stores.Store.AppendOneTrusted | store.go:645-673 | the append and its event; the recursion is one level deep |
| Stores.Store.AppendOne | store.go:618-623 | carries out the specified command, refusals included, and keeps the store invariant |
| Stores.Store.UpsertOne | store.go:679-696 | carries out the specified command, says whether the item was created, and keeps the store invariant |
| Stores.Store.CounterAddOne | store.go:704-735 | carries out the specified command, says whether the item was created, and keeps the store invariant |
| Stores.Store.UpdateOne | store.go:749-776 | carries out the specified command; a miss neither creates nor announces |
| Stores.Store.DeleteOne | store.go:785-815 | carries out the specified command, a malformed uuid refused, announced only on a hit |
| Stores.Store.DeleteUpTo | store.go:823-850 | carries out the specified command, a malformed uuid refused, announced only on a hit |
| Stores.Store.DeleteScope | store.go:1011-1067 | removes a scope with all it is charged for, announced whenever it existed |
| Stores.Store.Wipe | bulk.go:46-85 | leaves the boot content and reports the true sums of what went |
| Stores.Store.BuildPlans | bulk.go:100-153 | invalid input wins, otherwise all scopes over their cap are reported together, otherwise every scope is built |
| Stores.Store.SnapshotPlans | bulk.go:183-207 | the net change of a batch is the difference of the true sums before and after |
| Stores.Store.CommitPlans | bulk.go:216-244 | every planned scope is exchanged and counted, no other is touched |
| Stores.Store.ReplaceScopes | bulk.go:87-257 | carries out the specified warm request and keeps the store invariant |
| Stores.Store.RebuildAll | bulk.go:263-370 | carries out the specified rebuild and keeps the store invariant |
| Stores.CreateThenWrite | store.go:574-610 | creating the scope first changes neither the effect nor the answer of the write, and a failed write after it is undone exactly |
| StoreLaws.PlannedItemFits | validation.go:190-207 | whichever path put it there, a stored item never exceeds its scope's per-item cap, nor the scope its item cap |
| StoreLaws.ValidatedIsAdmitted | validation.go:304-426 | the pre-mint measurement covers the size after the write for append, upsert, update and counters |
| StoreLaws.TryWriteKeeps | store.go:645-673 | a write keeps the store invariant, changes one scope at most, and changes nothing unless it succeeds |
| StoreLaws.EmitKeeps | events.go:99-120 | an emission before the next commit changes no scope but the event scope and accounts for its commit by one entry or one drop |
| StoreLaws.ExecKeeps | store.go:645-850 | every command that emits before the next commits keeps the store invariant and the event accounts: commits since reset equal the event cursor plus the drops since; refused or idle commands change nothing; only the target and the event scope change |
| Answers.AppendAnswer | store.go:618-673 | an append is refused for its shape, else for room for its scope, else by a full scope, else for a taken id, else for room, each exactly when; otherwise the answer is the new last item of its scope as asked for |
| Answers.UpsertAnswer | store.go:679-696 | the same for an upsert; a stored id is overwritten in place and not reported as created, a new one is a new last item and reported as created |
| Answers.UpdateAnswer | store.go:749-776 | an update misses without a trace exactly when nothing has its one address, and otherwise overwrites that entry or is refused exactly by size or room |
| Answers.CounterAnswer | store.go:704-735 | an addition is refused for its shape, a payload that is no number, a sum out of range, a full scope or room, each exactly when; readers then see the sum, and a new counter is reported as created |
| Answers.DeleteAnswer | store.go:785-815 | a deletion leaves exactly the items its one address does not mean, in order, and answers whether there was one |
| Answers.DrainAnswer | store.go:823-850 | a drain leaves exactly the items beyond the boundary, given as a number or as the uuid of a stored item, and answers how many went |
| Answers.DeleteScopeAnswer | store.go:1011-1067 | deleting a scope removes it and answers how many items it held; a missing one is a miss, a reserved one is refused |
| Answers.BufferWriteIsStoreWrite | store.go:645-656 | what the buffer of a scope does with a write is what the store says of it: same refusal, same content, same total |
| EventAnswers.EventAnswer | events.go:99-235 | a command that changed something is announced by exactly what it asked for and the address of what it stored, without the payload in notify mode, or counted as dropped exactly when the event is too large or there is no room |
| EventAnswers.WarmEventAnswer | bulk.go:248-257 | a warm request that named a scope is announced once, one that named none is not |
| BulkSpec.BuiltHoldsTheBatch | buffer_replace.go:70-170 | a built scope is the batch in order with its render bytes, numbered from one, uuids kept or minted and distinct, its span that of first and last item |
| BulkSpec.WarmIsAllOrNothing | bulk.go:87-257 | on any error the store is unchanged; on success each named scope holds exactly its batch and all others but the event scope are untouched |
| BulkSpec.RebuildIsTotal | bulk.go:263-370 | on any error the store is unchanged; on success exactly the input scopes remain beside two empty reserved ones |
| BulkSpec.WipeIsBoot | bulk.go:65-82 | a wiped store is the boot store with its drop counter kept and its event log empty |
| BulkAnswers.VerdictExactly | bulk.go:100-153 | a batch is refused as invalid exactly when a scope name, an item or a clash is, else all scopes over their cap are reported |
| BulkAnswers.WarmAnswer | bulk.go:87-214 | a warm request is refused exactly for such a verdict or when what it adds does not fit; a refusal leaves the store as it was |
| BulkAnswers.RebuildAnswer | bulk.go:263-347 | a rebuild is refused exactly for such a verdict or when its content does not fit beside two empty reserved scopes, however full the store is |
| Emissions.StepKeepsInv | store.go:645-673 | each commit, batch, emission and reset keeps the store invariant and the account: commits since reset plus emissions carried over it equal entries, drops and pending emissions |
| Emissions.EventsAreAccountedFor | events.go:7-29 | that account holds in every state of every interleaving, with events on or off |
| Emissions.PlainEquationExactly | events.go:99-120 | with nothing pending, commits since the reset equal entries plus drops if and only if no event was pending at the last reset |
| Emissions.CarriedIsPendingAtReset | bulk.go:46-85 | the emissions carried over a reset are those of the commits whose event was not yet written |
| Emissions.WipeIsAStep | bulk.go:46-85 | a wipe is a reset step of this machine |
| Emissions.RebuildIsAStep | bulk.go:263-370 | a rebuild that succeeds is a reset step of this machine |
| Emissions.CommandIsTwoSteps | store.go:645-673 | every command is its commit and its emission, one right after the other |
| Emissions.WarmIsAStep | bulk.go:216-257 | a warm request that succeeds is a batch commit and its emission, one right after the other |
| Emissions.StreamIsHistory | events.go:99-120 | in full mode, without a reset or drop, the log of a run at rest is a permutation of the events in commit order |
| Emissions.HistoryReplays | events.go:47-71 | at any moment of any interleaving, the events in commit order, written or pending, are never refused on a replica and make it a mirror |
| Emissions.CommitOrderReplays | events.go:47-71 | every run whose log is in commit order replays from its log, however commits and emissions were interleaved |
| Replay.SamePlan | events.go:47-71 | the same write on two copies of a scope costs the same and leaves two copies |
| Replay.CopiesReadAlike | events.go:47-71 | a client cannot tell a scope from its copy: ids and numbers find the same place and show the same payload and render bytes |
| Replay.SameMutation | events.go:47-71 | a command that changed the original is accepted by the replica, which has at least as much room, and changes it alike |
| Replay.RecordIsTheCommand | events.go:131-204 | a full record says exactly which command to repeat |
| Replay.ReplayRebuilds | events.go:47-71 | the records of any run of commands one after the other, without drops, repeated in order on a mirror without events, are never refused and mirror the result |
| Replay.ReplayFromBoot | events.go:47-71 | the same from boot to an empty replica with the same caps |
| ReplayLimits.UuidDeletionReplays | events.go:182-189 | a recorded deletion by uuid replays if and only if the uuid names the same position on the replica |
| ReplayLimits.UuidDrainReplays | events.go:197-204 | a recorded drain bounded by uuid replays if and only if the uuid cuts the replica at the same position |
| ReplayLimits.UuidUpdateReplays | events.go:157-164 | a recorded update by uuid replays if and only if the uuid names the same position on the replica, or nothing that is compared changes on either side |
| ReplayLimits.SwappedUpserts | events.go:28-30 | two upserts of one id repeated in the opposite order of their commits leave a mirror of the store if and only if their payloads are equal |
| ReplayRuns.UuidFromBoot | events.go:182-189 | a concrete store and replica, both from boot, that a deletion by uuid sets apart |
| ReplayRuns.SwapFromBoot | events.go:28-30 | two concrete upserts from boot whose two orders leave different stores |
| ReplayRuns.OneRecordReplays | events.go:47-71 | the replay theorem applies to a run that does something: one upsert leaves one record and no drop, and replays |
| ReplayRuns.WipeBreaksTheEquation | bulk.go:65-82 | a three-step run, commit, wipe, emission, that ends at rest with no commit since the reset and one event settled |
| ReplayRuns.CrossedRun | events.go:26-30 | a run from boot, at rest and without a drop, whose log has two upserts in the opposite order of their commits and does not replay to its store |
| Counters.StepKeepsInv | buffer_counter.go:96-119 | each atomic step keeps value, range, timestamp, locks, history and bytes in agreement |
| Counters.CounterRun | buffer_counter.go:62-213 | in every interleaving the id holds what its history of additions, overwrites and removals says, so no addition is lost or counted twice |
| Counters.AdditionsLand | buffer_counter.go:96-119 | a successful swap is made to the cell the id points to and adds exactly its increment, within 64 bits |
| Counters.RefusalsChangeNothing | buffer_counter.go:97-102 | an overflow refusal happens only when the sum is out of range at that moment, and changes nothing |
| Counters.DetachedIsFrozen | buffer_counter.go:62-140 | in every run a thread under the write lock is alone on the cell, and once the scope is detached no addition, overwrite or removal goes through any more |
| Counters.SequentialAddition | buffer_counter.go:128-281 | the addition a scope makes in one piece is the same event, with the same refusals |
| Counters.AdditionAlone | buffer_counter.go:62-281 | the steps of a thread that nobody races with end in the number, timestamp and bytes the scope has when it adds in one piece, or in nothing at all |
| Subscriptions.StepKeepsInv | subscribe.go:79-155 | each step keeps channels open exactly while attached, and every committed item covered |
| Subscriptions.NoLostWakeUp | subscribe.go:146-155 | in every run no closed channel is sent to or closed again, and no attached reader can sleep through an item |
| Subscriptions.UnreadMeansAwake | subscribe.go:127-145 | with no writer about to notify, a reader behind its scope has a token or is awake |
| Subscriptions.RunCounts | subscribe.go:79-155 | in every run the items are those committed, readers have counted no item that was not, only reserved scopes are subscribed, and no more wake-ups are received than were sent |
| Subscriptions.UnsubscribeCloses | subscribe.go:115-125 | an unsubscribe function closes a channel other than its own if and only if the scope was subscribed again |
| Subscriptions.SecondUnsubscribeIsIdle | subscribe.go:98-101 | a second call is a no-op while nobody re-subscribed |
| Subscriptions.StaleUnsubscribe | subscribe.go:94 | a four-step run in which a stale unsubscribe closes the newer channel |
| Locks.ShardsForScopes | store.go:375-387 | exactly the shards the scopes need, ascending, none twice |
| Locks.ProgramIsDisciplined | buffer.go:4-17 | every operation acquires shards in ascending order, then one buffer at a time, and releases all |
| Locks.SomebodyCanStep | store.go:389-423 | with writer-preferring locks, whenever somebody has work left somebody can step |
| Locks.NoDeadlock | store.go:389-423 | for any number of threads running any operations: writers exclude, nobody is stuck for good, every run is finite |
| Locks.NobodyOvertakes | store.go:389-423 | a writer that has announced itself is not overtaken in any run, and can go in once those inside have left |
| Locks.WrongOrderDeadlocks | buffer.go:10-17 | a buffer-to-shard acquisition would deadlock with a scope deletion |
| Draining.HeadPagingIsExact | buffer_read.go:90-131 | paging by last sequence number returns every entry once, in order, and more is reported exactly when entries remain |
| Draining.TailPagingIsExact | buffer_read.go:49-88 | paging by offset returns every entry once, and more is reported exactly when older entries remain |
| Draining.HeadLoopIsLossless | buffer_delete.go:260-306 | head-then-delete interleaved with appends consumes every entry exactly once in order, and no sequence number is ever reused |
| Draining.LosslessExactly | subscribe.go:3-7 | over whole runs with arrivals in between, a consumer reading from either end loses nothing if and only if it never deleted up to a window that said older items remain |
| Draining.TailLoopLoses | subscribe.go:3-7 | a concrete run of tail and delete that leaves one of two items unread and gone |
| ScopeLists.ScopeList | store.go:1217-1274 | one page is the first names of the sorted listing, whatever the shard assignment, and truncation is reported exactly |
| ScopeLists.SortingSorts | store.go:1247 | sorting distinct names yields the ascending list of the same names |
| ScopeLists.AscendingIsUnique | store.go:1208-1274 | an ascending list is determined by its members |
| ScopeLists.WalkIsExact | store.go:1217-1274 | feeding the last name back as the cursor enumerates the listing, each scope once |
| ScopeLists.TruncatedExactly | store.go:1217-1274 | a page reports truncation exactly when asking again from its last name gives something |
| ScopeLists.WholeWalk | store.go:1217-1274 | from the empty cursor the walk is exactly the scopes with the prefix, ascending |
| Uuids.AppendUuidHex | uuid.go:173-181 | appends the canonical 8-4-4-4-12 lower-case text |
| Uuids.ParseUuidV7 | uuid.go:204-232 | returns the one v7 value whose text it is given, or refuses |
| Uuids.AcceptedExactly | uuid.go:200-232 | a text is accepted if and only if it is in the canonical form with version 7 and variant binary 10 |
| Uuids.ParseOfFormat | uuid.go:196-232 | printing then parsing returns every v7 value |
| Uuids.FormatOfParse | uuid.go:196-232 | parsing then printing returns every accepted text |
| Uuids.NewUuidV7 | uuid.go:86-109 | a mint is valid v7 and carries the low 48 bits of the clock and all its random bits |
| Uuids.HexVal | uuid.go:242-251 | exactly the lower-case hexadecimal digits decode |

## Left out

- HTTP handlers, response envelopes, gateway cloning, addons, processes and sockets: formatting and I/O.
- JSON validity, marshalling and string decoding, and the shape of keys and payloads: functions given as parameters; that every event fits the event scope's item cap is not claimed.
- Timestamps as wall-clock time: only maxima and order matter; the store-wide freshness stamp is modelled at the buffer and budget, not in `Stores`.
- The render endpoint's choice between render bytes and payload, read bookkeeping (access times, read counts) and the size estimates for statistics: observability only.
- Sequence numbers as 64-bit words: they are unbounded here, so exhaustion after 2^64 writes is not modelled.
- Garbage collection and the exact growth of slices: the array length is a parameter within the stated policy.
- Types.Config.WithDefaults: an events mode outside the three known ones, which the source turns off, is not a value of the type here.
- Buffer.ScopeBuffer.AtomicCounterAdd: the compare-and-swap loop is one step here; its retries and interleavings are the subject of `Counters`.
- Buffer.ScopeBuffer.CounterAdd: the read-locked fast path and the second look under the write lock are one sequential call here; the race between them is the subject of `Counters`.
- Buffer.BuildReplacementState: mints are always given; the variant for a buffer without a store, which mints none, is not modelled.
- Budgets.Budget.ReserveBytes: one uncontended turn of the compare-and-swap loop; other threads' reservations in between are steps of `Protocol`.
- Budgets.Budget.BumpLastWriteTs: one uncontended turn of the compare-and-swap loop.
- ProtocolSafety.StepKeepsBalance: a section under a buffer's write lock that ends by moving the byte, item and scope counters moves them together in one step; the code moves these separate atomics one after the other, so a reader between two of them can see one moved and another not.
- ProtocolSafety.RunIsSafe: has the same granularity, and takes the locks of a batch in one step; taking them one by one is the subject of `Locks`. Item caps and the content of events are not part of this state machine.
- Stores.Store.GetOrCreateScope: sequential; losing the race to create a scope and stale pointers are the subject of `Protocol`.
- Stores.Store.CleanupIfEmptyAndUnused: a map of scopes is a value here, so the check that the buffer is still the same one, and its detach, are the subject of `Protocol`.
- Stores.Store.WriteCreating: sequential; another writer using the scope before the roll-back is the subject of `Protocol`.
- Stores.Store.EmitEvent: the drop when an event cannot be marshalled is not modelled, since marshalling is a total function here.
- Stores.Store.AppendOneTrusted: commit and emission follow each other at once; their separation is the subject of `Emissions`, the wake-up that of `Subscriptions`.
- Stores.Store.CounterAddOne: the freshness stamp a created scope leaves on the store is not modelled.
- Stores.Store.DeleteScope: the lock order and the detach of the buffer are the subject of `Locks` and `Protocol`.
- Stores.Store.Wipe: the detach of the buffers is the subject of `Protocol`.
- Stores.Store.RebuildAll: the detach of the old buffers is the subject of `Protocol`.
- Stores.Store.CommitPlans: the drift since the snapshot is zero in a sequential store; it is settled in `Buffer` and `Protocol`.
- Stores.Store.ReplaceScopes: a map of scopes is a value here, so aliasing and update in place are the subject of `Buffer`, stale pointers and drift of `Protocol`; which of several faulty scopes is named first, and the error texts, are not modelled.
- StoreLaws.EmitKeeps: the commit it accounts for is the one just before; commits and emissions that interleave are the subject of `Emissions.StepKeepsInv`.
- StoreLaws.ExecKeeps: holds of commands whose emission comes before the next commit or reset; for all others see `Emissions.EventsAreAccountedFor`.
- BulkSpec.WarmIsAllOrNothing: no other writer runs during the batch; writers that do are the subject of `Protocol`.
- Emissions.StepKeepsInv: a mutation is one step under its scope's lock; creating the scope first and the byte reservation apart from the change are the subject of `Protocol`.
- Replay.ReplayRebuilds: covers commands one after the other, each with its event; interleaved ones are covered by `Emissions.CommitOrderReplays`. Warm, wipe and rebuild leave no per-item record. Timestamps and uuids are not compared, because replay mints its own.
- Replay.ReplayFromBoot: the same, from boot.
- Emissions.CommitOrderReplays: covers runs of repeatable commands; warm, wipe and rebuild leave no per-item record.
- Counters.AdditionAlone: the scope's item cap is not reached; `ScopeAnswers.CounterStarts` says what happens when it is.
- ProtocolAlone.WriteAlone: one thread alone; what holds when others interleave is `ProtocolSafety.RunIsSafe`.
- Counters.CounterRun: does not count that every successful addition has published its timestamp; it says that the timestamp is the latest of those published.
- Subscriptions.NoLostWakeUp: that an awake reader goes on to read is its own loop, not the cache's.
- Locks.NoDeadlock: lists only lock actions; that a scheduler eventually lets an enabled thread step is assumed.
- Draining.LosslessExactly: the scope changes only by appends and by the consumer's own deletions during the run.
- Draining.HeadLoopIsLossless: the same.
- ScopeLists.WalkIsExact: the set of scopes does not change during the walk.
- Uuids.NewUuidV7: uniqueness of mints is probabilistic and only assumed.
