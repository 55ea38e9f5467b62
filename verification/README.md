# GoSessionEngine: a verified model of its concurrent and stateful core

This project models, in Dafny, the parts of GoSessionEngine whose correctness depends on
interleavings, on in-place updates or on Go's unordered maps, and proves what they
guarantee. `dafny verify dfyconfig.toml` checks everything.

| part | modules |
|---|---|
| the per-key lock (`cluster/lock.go`) | `LockTable`, `LockObjects`, `LockProtocol`, `LockTheorems`, `LockProgress` |
| the cookie jar and its broadcasts (`cluster/controller.go`) | `CookieJar`, `BroadcastProtocol`, `BroadcastInvariant`, `BroadcastTheorems`, `BroadcastOrder`, `BroadcastDelivery`, `BroadcastOverlap`, `BroadcastProgress`, `BroadcastObjects` |
| schema learning and comparison (`payload/validator.go`) | `JsonSchema`, `SchemaOrder`, `SchemaTheorems`, `SchemaKeys`, `SchemaDiff`, `Validator` |
| ordered headers (`client/ordered_header.go`) | `HeaderSpec`, `HeaderKeys`, `OrderedHeaders` |
| session states and cookie merging (`token/heartbeat.go`) | `CookieMerge`, `ResponseTokens`, `SessionStates` |
| the worker pool and its scheduler (`worker/pool.go`, `scheduler/scheduler.go`, `main.go`) | `WorkerPool`, `Dispatch`, `PoolObjects` |
| session creation and proxy rotation (`session/manager.go`, `proxy/proxy.go`) | `ProxyRotation`, `SessionCreation`, `SessionOutcome` |

How it is built:

* A concurrent component is a transition system. One event is one mutex critical section,
  one atomic operation or one channel operation of the code; `Enabled` says when the code
  can take it, `Step` what it does. Runs are arbitrary sequences of events, so every
  theorem about runs is about all interleavings of any number of calls. Cancellation,
  failing sends and failing constructors are events that may or may not happen.
* The objects the code updates in place are classes, and each method is proved to do what
  a function of the old state says. Those functions are the ones that the transition
  systems and the theorems use.
* Ranging over a Go map is choosing any key not ranged over yet. `JsonSchema.Flattens` is
  the relation of all outcomes that some iteration order yields.
* History fields (marked as such in the datatypes) record what happened; no step's choice
  or result depends on them.

Where the code does less than its comments say, the model follows the code:

* `Snapshot` is not atomic with respect to `Store` (`cluster/controller.go:77`):
  `SnapshotIsAtomicIff` says exactly when it is, `SnapshotCanRunAhead` shows it is not.
* `Unlock` is not always "a no-op if the key is not currently locked"
  (`cluster/lock.go:50-52`): `UnlockIsNoOpIff` says exactly when it is, and
  `UnlockOfFreeKeyIsUnsafe` shows a pending `Lock` losing its entry. All guarantees of the
  lock assume that `Unlock` is called by the owner.
* `TryLock` can return false on a key that nobody holds (`cluster/lock.go:46-48`):
  `TryLockFailsIff`, `TryLockFailsSpuriously`.
* Keys with dots, and an empty key at the top, are confused with others by the dotted
  paths of `payload/validator.go:194-197`: `OrderIndependentIff`, `DottedKeyIsAmbiguous`,
  `ExactIffNoneAlike`, `ExactIffDotFree`, `ExactIffNoEmptyTopKey`.
* What a client gets need not come in the order of its versions or contents
  (`cluster/controller.go:156-168`): `PushesInVersionOrderIff`, `PushesInContentOrderIff`,
  `ReceivedInVersionOrderIff`, `ReceivedInContentOrderIff` and `PushIsNewestIff` say exactly
  when it does, `LastPushCanBeStale` shows a run.
* A stream that registers under the `pc_id` of a live one costs broadcasts
  (`cluster/controller.go:204-215`): `RegisterKeepsNoGapIff`, `OverlapLosesSubscription`.
* That Submit is not called after Stop (`worker/pool.go:61-68`) is not enough: a Submit
  that is still blocked when Stop closes the channel panics, and its job is lost.
  `EveryJobIsDoneIff` and `CloseIsSafeIff` give the exact condition, `BlockedSubmitPanics`
  a run.
* The shutdown order of `main.go:154-161` can submit to a closed pool:
  `CrashIffStillSubmitting`, `MainCanCrash`.
* "A job for each registered session" (`scheduler/scheduler.go:59-60`) holds only for ids
  0 to n-1, and a failed creation leaves others: `AllServedIff`, `FailedCreationStarves`.
* Overlapping extractions can lose cookies and tokens (`token/heartbeat.go:166-206`):
  `ExtractLosesNothingIff` says exactly when, `OverlapLosesCookies` shows a run.

## Model

| member | source | states |
|---|---|---|
| LockTheorems.MutualExclusion | cluster/lock.go:88-193 | whatever has been pruned and made anew, and with cancelled calls, orphans and probes about, two calls that own the same key are the same call |
| LockTheorems.MutualExclusionByRefinement | cluster/lock.go:88-193 | every run of the protocol, seen through Lock returning nil, TryLock returning true and Unlock, is a run of a map from key to at most one owner, and the owners at the end are those of the map |
| LockTheorems.RunSimulates | cluster/lock.go:88-193 | the same from any state of the invariant and any related owners: an acquisition happens only on an unowned key, a release only by its owner |
| LockTheorems.WithLockIsExclusive | cluster/lock.go:195-211 | whatever runs while WithLock's function does, its call stays the only owner of the key, and its deferred Unlock will find the keyMutex it holds |
| LockTheorems.CancelledLockNeverOwns | cluster/lock.go:205-207 | a call whose Lock gives up never owns the key afterwards, in any run, so WithLock does not run its function |
| LockProgress.CancelReturns | cluster/lock.go:113-139 | from any state of the invariant a waiting Lock, behind an owner or not and whatever its helper does, can return its error by three events of its own that wait for nobody; they change no other call and no mutex and give exactly its reference back |
| LockProgress.CancelIsNeverBlocked | cluster/lock.go:113-139 | the same with any events in between: once cancelled, its il.mu section and then its return are enabled at every moment, change only this call, and leave an orphan or a discard |
| LockProgress.CancelBehindOwner | cluster/lock.go:113-139 | the run of a Lock behind an owner whose context expires: it returns, call 0 still owns the key, and the count is one |
| LockProgress.FreeKeyIsAcquired | cluster/lock.go:106-115 | a pending Lock whose mutex is free becomes the owner by three events of its own and its helper's |
| LockProgress.LockCanStart | cluster/lock.go:101-147 | Lock, TryLock and IsLocked can start in any state and on any key, without touching other calls |
| LockProtocol.ReachableInv | cluster/lock.go:58-193 | in every reachable state references go through the map, counts equal referencing calls, a mutex is locked exactly while one call holds it, and unreferenced entries are gone |
| LockProtocol.StepKeepsInv | cluster/lock.go:88-193 | the joint invariant of map, mutex objects and call phases is kept by every critical section, mutex operation and channel operation |
| LockProtocol.OwnerUnlocksItsOwn | cluster/lock.go:163-176 | looking up by key, the owner's Unlock gets the very keyMutex the owner holds, never one made since |
| LockProtocol.NeverUnlocksFreeMutex | cluster/lock.go:128-137 | no discard by a cancelled call or its orphan, no release and no probe ever unlocks a free mutex |
| LockTheorems.CountsAreExact | cluster/lock.go:58-63 | waiters is the number of uncancelled pending Locks, TryLocks under way and the owner, and there is an entry exactly while it is positive |
| LockTheorems.DeleteSparesLiveMutexes | cluster/lock.go:120-125 | the delete by key in all three sections removes only the entry of the leaving call's own keyMutex, and only when no call references it |
| LockTheorems.MapIsBounded | cluster/lock.go:69-75 | the map never has more entries than calls with a reference: the memory bound of the design comment |
| LockTheorems.RunIsBounded | cluster/lock.go:101-176 | without new calls no run is longer than the steps its calls have left, orphans included |
| LockTheorems.QuiescentPhase | cluster/lock.go:101-193 | where nothing internal can happen each call is over, an owner, or has its helper blocked on a locked mutex |
| LockTheorems.PendingCallWaitsForOwner | cluster/lock.go:106-140 | no deadlock: a call still pending then waits on a keyMutex that some owner holds, an owner of the same key unless the caller has been cancelled |
| LockTheorems.NothingLeaks | cluster/lock.go:116-137 | where nothing internal can happen and nobody owns a key, all calls and orphans are over, every mutex ever made is free with count zero, and the map is empty |
| LockTheorems.TryLockFailsIff | cluster/lock.go:144-159 | over both ways to fail, seeing the mutex locked and losing its compare-and-swap: TryLock can fail if and only if another call on that keyMutex owns the key, holds the mutex in passing or is queued on it, and must fail if and only if one holds it; alone it cannot fail |
| LockTheorems.TryLockFailsSpuriously | cluster/lock.go:46-48 | a run in which TryLock fails though nobody ever owned the key |
| LockTheorems.UnlockIsNoOpIff | cluster/lock.go:163-169 | Unlock does nothing if and only if no pending or owning call references the key |
| LockTheorems.UnlockOfFreeKeyIsUnsafe | cluster/lock.go:50-52 | with one pending Lock on a free key, Unlock prunes its entry and goes on to unlock a free mutex |
| LockObjects.InMemoryLock.GetOrCreate | cluster/lock.go:90-98 | in place, the lookup-or-insert with the count raised by one that the protocol uses; a new object only for an absent key |
| LockObjects.InMemoryLock.Leave | cluster/lock.go:120-125 | in place, the section that gives a reference back, including the delete by key at zero |
| LockObjects.InMemoryLock.UnlockSection | cluster/lock.go:163-174 | in place, Unlock's section: null and no change for an absent key, otherwise the keyMutex that is to be unlocked |
| LockObjects.InMemoryLock.Find | cluster/lock.go:180-186 | IsLocked's lookup changes nothing and gives the entry of the key |
| CookieJar.LastWriteWins | cluster/controller.go:52-54 | after storing a batch, a name maps to the last cookie of that name in it |
| CookieJar.GlobalCookieJar.StoreEntries | cluster/controller.go:68-73 | in place, the fold of the batch into the entries; names no cookie of the batch has keep their entries (UnstoredNameStays) |
| CookieJar.GlobalCookieJar.Snapshot | cluster/controller.go:77-87 | in any map order, the copy lists each name once and storing it into an empty jar gives the entries back |
| BroadcastInvariant.RunInv | cluster/controller.go:149-235 | after every run in which no two live streams share a pc_id: jar = replay of the stored batches, stores minus version = Stores not yet at Add, versions handed out once each, channels FIFO, fan-outs accounted for once per live stream |
| BroadcastInvariant.StepKeepsInv | cluster/controller.go:149-235 | each critical section, atomic operation and channel operation keeps that invariant |
| BroadcastProgress.BroadcastCompletes | cluster/controller.go:149-171 | from any state with subMu free, any non-empty batch can be broadcast to the end without waiting for anybody; every live stream has then been offered the whole new jar under the new version: at the end of its channel if fewer than 32 were pending, and otherwise nothing has changed there |
| BroadcastProgress.ReadIsPresent | cluster/controller.go:185-190 | GetGlobalCookies can be called in any state and adds a response with everything stored so far and the number of bumps |
| BroadcastProgress.FirstIsPresent | cluster/controller.go:218 | the first snapshot of a stream is the jar of the moment it is taken |
| BroadcastProgress.ResponseIsPresent | cluster/controller.go:156-158 | a broadcast's response is the jar of the moment of its snapshot with the version its own bump got |
| BroadcastProgress.StreamStarts | cluster/controller.go:204-225 | a registered stream can send the present jar and go on to forward |
| BroadcastProgress.StreamDrains | cluster/controller.go:225-234 | as many successful Sends as updates are pending drain the channel in order and leave the stream forwarding |
| BroadcastProgress.EndedStreamSendsNothing | cluster/controller.go:219-233 | after a failed Send or a lost client nothing more is sent on the stream, in any run |
| BroadcastProgress.EndedStreamLeaves | cluster/controller.go:211-215 | a stream that has ended can leave the subscriber map whenever subMu is free |
| BroadcastProgress.ClientCanLeave | cluster/controller.go:225-228 | a client can go at any moment, whatever is pending for it |
| BroadcastProgress.ClientsAreServed | cluster/controller.go:196-209 | with subMu free any non-empty pc_id can register, which adds one stream with an empty channel |
| BroadcastProgress.NothingIsStuck | cluster/controller.go:149-235 | where no event but a client's decision is possible, all broadcasts are over and every stream is closed or forwarding with nothing pending |
| BroadcastTheorems.EveryMessageIsFaithful | cluster/controller.go:68-87 | every response, first snapshot or push holds exactly the jar after some prefix of the stored batches, at least as long as the version it carries |
| BroadcastTheorems.SnapshotIsAtomicIff | cluster/controller.go:77-87 | a snapshot holds as many batches as its version plus the Stores between unlock and Add, so it is atomic if and only if there are none |
| BroadcastTheorems.SnapshotCanRunAhead | cluster/controller.go:68-87 | a run in which GetGlobalCookies returns a stored cookie with version 0 |
| BroadcastTheorems.BroadcastIncludesItsOwn | cluster/controller.go:156-158 | the response a broadcast fans out is the replay of a prefix of the batches that includes its own, so every name of its batch is in it |
| BroadcastTheorems.VersionsAreABijection | cluster/controller.go:74 | each version from 1 to the current one was given to exactly one broadcast |
| BroadcastTheorems.NoGap | cluster/controller.go:160-235 | a finished broadcast is, for each live stream past its snapshot, in the snapshot, or in the channel's sequence, or was dropped with exactly 32 pending; never in the channel twice |
| BroadcastTheorems.LosesNothingIff | cluster/controller.go:161-167 | over any run a stream loses no response if and only if every push to it finds fewer than 32 pending |
| BroadcastTheorems.HighestVersionArrives | cluster/controller.go:149-235 | all N broadcasts over, channel drained, the push of version N not dropped: the client has a message of version N and none higher, whatever order the fan-outs ran in |
| BroadcastDelivery.HighestVersionArrivesIff | cluster/controller.go:149-235 | all N broadcasts over and the channel drained: the client has a message of version N if and only if the push of the broadcast that bumped last was not dropped or the first snapshot has version N |
| BroadcastTheorems.HighestVersionIsFinal | cluster/controller.go:149-190 | all N broadcasts over, every message of version N that anyone got holds exactly the final jar |
| BroadcastDelivery.PushesInVersionOrderIff | cluster/controller.go:156-168 | over every run: a stream's pushes come with rising versions if and only if the fan-outs that reached it took subMu in the order in which they had bumped the version |
| BroadcastDelivery.PushesInContentOrderIff | cluster/controller.go:156-168 | over every run: each push holds at least the batches of those before it if and only if none of the fan-outs that reached the stream took subMu ahead of one whose snapshot was taken before a store that its own includes |
| BroadcastDelivery.ReceivedInVersionOrderIff | cluster/controller.go:204-235 | over every run: the versions a client gets, first snapshot included, never fall if and only if the fan-outs that reached it took subMu as they had bumped and none of them had bumped before the last bump its first snapshot saw |
| BroadcastDelivery.ReceivedInContentOrderIff | cluster/controller.go:204-235 | over every run: what a client gets, first snapshot included, only grows if and only if none of the fan-outs that reached it took subMu ahead of one with an older snapshot and no batch was stored between one of their snapshots and the stream's first |
| BroadcastDelivery.PushIsNewestIff | cluster/controller.go:149-235 | all N broadcasts over and the channel drained, whether or not pushes were dropped: a push the client got, such as the last one, has version N if and only if it came from the broadcast that bumped last, and then it is the final jar |
| BroadcastOrder.RunOrder | cluster/controller.go:149-235 | after every run: the prefix of each response and each first snapshot is the number of stores before it was read, and each channel's sequence follows the order of subMu |
| BroadcastTheorems.LastPushCanBeStale | cluster/controller.go:156-168 | a run in which a stream's pushes arrive with versions 2 and then 1, the last one out of date |
| BroadcastOverlap.RegisterKeepsSubsIff | cluster/controller.go:204-215 | a registration keeps the subscriber map equal to the live streams if and only if no live stream has that pc_id |
| BroadcastOverlap.RegisterKeepsNoGapIff | cluster/controller.go:204-235 | from any state of the invariant a registration keeps no-gap, for all live streams and all runs that follow without further overlaps, if and only if no live stream has its pc_id |
| BroadcastOverlap.OverlapLosesSubscription | cluster/controller.go:207-215 | with overlapping pc_ids, a run in which a live stream gets a finished broadcast neither in its snapshot nor in its channel nor as a drop |
| BroadcastObjects.MasterController.Register | cluster/controller.go:200-209 | an empty pc_id is refused; otherwise a new subscriber with an empty channel replaces whatever the pc_id had |
| BroadcastObjects.MasterController.FanOut | cluster/controller.go:160-168 | in any map order, every subscriber with room gets the message at the end of its channel, the others keep theirs |
| BroadcastObjects.MasterController.BroadcastCookie | cluster/controller.go:149-171 | an empty batch is refused and changes nothing; otherwise the version goes up by one and the message offered to all stands for the whole new jar |
| JsonSchema.SchemaMap.Flatten | payload/validator.go:191-216 | the recursion that writes into the shared map ends in one of the outcomes of Flattens |
| JsonSchema.FlattensOutcome | payload/validator.go:191-216 | for any keys and any order: a path string that some key paths are written as gets the type of one of them, any other stays as it was |
| SchemaOrder.OrderIndependentIff | payload/validator.go:191-216 | every iteration order gives the same schema if and only if no two key paths written alike (and not as the empty string) have different types |
| SchemaOrder.NodeCanWin | payload/validator.go:193-216 | each of several nodes written alike is the one recorded under some iteration order |
| SchemaOrder.DottedKeyIsAmbiguous | payload/validator.go:194-216 | a document with a nested a.b and a key "a.b" of another type: its schema depends on the iteration order |
| SchemaTheorems.PathStringIsInjective | payload/validator.go:194-197 | dotted paths split back to one key path, for dot-free keys with a non-empty first key |
| SchemaTheorems.CleanIsOrderIndependent | payload/validator.go:191-216 | documents with dot-free keys and no empty top key have one schema for all iteration orders |
| SchemaTheorems.NodeIsInSchema | payload/validator.go:198-214 | in a document whose key paths are all written differently, such as a clean one, every node is in the schema with its type |
| SchemaTheorems.NodeIsNamed | payload/validator.go:198-214 | where key paths are written apart, the entry of a node is "object", "array", "string", "number", "bool" or "null" if and only if the node is of that kind |
| SchemaTheorems.TypeNameIff | payload/validator.go:198-214 | two values have the same type name if and only if they are of the same of the six kinds |
| SchemaTheorems.SchemaEntryHasNode | payload/validator.go:198-214 | in any document every schema entry belongs to a node of that type |
| SchemaTheorems.ParentIsObject | payload/validator.go:194-201 | in a clean document every nested path splits into a last key and a parent that is in the schema as an object |
| SchemaTheorems.SchemasEqualIffSameSkeleton | payload/validator.go:177-216 | clean documents have equal schemas if and only if they have the same keys and the same of the six kinds of values all the way down, arrays opaque |
| SchemaTheorems.ApartSchemasEqualIff | payload/validator.go:177-216 | the same for any two documents whose key paths are written apart, within and across them |
| SchemaKeys.ExactIffNoneAlike | payload/validator.go:191-216 | for any set of keys allowed at the top and any allowed further down: schemas tell all such documents apart correctly if and only if no two lists of those keys are written as the same path |
| SchemaKeys.ExactIffDotFree | payload/validator.go:194-197 | documents that may use a key k beside dot-free ones are told apart correctly by their schemas if and only if k has no dot |
| SchemaKeys.ExactIffNoEmptyTopKey | payload/validator.go:194-197 | for any set of keys allowed at the top, documents with dot-free keys are told apart correctly by their schemas if and only if the empty key is not in the set |
| SchemaDiff.DiffSchemas | payload/validator.go:220-263 | for any iteration orders, all and only the true mismatches, strictly sorted by field |
| SchemaDiff.DiffIsUnique | payload/validator.go:255-262 | that list is determined by the two schemas |
| SchemaDiff.SortedPermutationIsStrict | payload/validator.go:256-261 | any sorted permutation of mismatches with distinct fields is strictly sorted by field: the kind never breaks a tie |
| SchemaDiff.DiffPatchesBaseline | payload/validator.go:220-263 | applying the mismatches to the baseline gives exactly the current schema |
| SchemaDiff.DiffUndoes | payload/validator.go:220-253 | undoing the mismatches on the current schema gives exactly the baseline, so both recorded types are right |
| SchemaDiff.LessIff | payload/validator.go:257-260 | the order of fields: at the first difference the smaller character, or the shorter string, comes first |
| SchemaDiff.EmptyDiffIff | payload/validator.go:128-130 | the list is empty if and only if the schemas are equal |
| Validator.EmptyReportIffSameSkeleton | payload/validator.go:128-151 | for clean documents Validate after Learn reports nothing if and only if the skeletons are the same |
| Validator.ReportIsDeterministic | payload/validator.go:255-262 | for unambiguous documents two reports on the same pair are equal, whatever the iteration orders of all maps involved |
| Validator.Validator.Learn | payload/validator.go:109-118 | anything but a JSON object is an error that keeps the baseline; otherwise the baseline is a schema of the data |
| Validator.Validator.Validate | payload/validator.go:135-151 | an error keeps the baseline; without a baseline it learns and reports nothing; otherwise it reports the diff and keeps the baseline |
| Validator.Validator.Reset | payload/validator.go:168-173 | forgets the baseline, so that the next Validate learns |
| Validator.LearnThenValidate | payload/validator.go:104-151 | learning one clean document and validating another reports nothing exactly for equal skeletons |
| OrderedHeaders.OrderedHeader.Set | client/ordered_header.go:44-63 | compacting into the array it reads, it leaves the new entry at the first match or at the end, later matches gone, the others in order |
| OrderedHeaders.OrderedHeader.Del | client/ordered_header.go:66-75 | compacting into the array it reads, it leaves the order-preserving filter of the other keys |
| OrderedHeaders.OrderedHeader.Add | client/ordered_header.go:34-36 | appends one entry, in place or in a larger array |
| OrderedHeaders.OrderedHeader.Get | client/ordered_header.go:79-87 | the value of the first entry with the key, or the empty string |
| OrderedHeaders.OrderedHeader.Clone | client/ordered_header.go:93-97 | the same entries in a backing array of its own |
| OrderedHeaders.OrderedHeader.ToHTTPHeader | client/ordered_header.go:124-130 | under each raw key exactly its values in order, and no other keys |
| HeaderSpec.SetLeavesOne | client/ordered_header.go:38-40 | after Set the key has exactly one entry, with the new casing and value, and Get returns it |
| HeaderSpec.SetAppendsIfAbsent | client/ordered_header.go:38-62 | Set of an absent key puts its entry at the end, behind all entries |
| HeaderSpec.SetTakesFirstPlace | client/ordered_header.go:38-62 | Set of a present key keeps the entries before the first match, puts its entry there, and then the others of different keys |
| HeaderSpec.ValuesOfAt | client/ordered_header.go:124-130 | under each raw key the values stand in the order of the entries, each at the rank of its entry |
| HeaderSpec.SetKeepsOthers | client/ordered_header.go:38-63 | Set keeps all entries of other keys in order, and Del after Set is Del |
| HeaderSpec.OtherKeysAreUntouched | client/ordered_header.go:44-87 | Set and Del do not change what Get returns for any other key |
| HeaderSpec.LastSetWins | client/ordered_header.go:42-43 | of two Sets of the same key the second wins, casing included, as if alone |
| HeaderKeys.SameKeyIff | client/ordered_header.go:45-49 | field names count as the same key if and only if they are equal up to case (sections 5.1 and 5.6.2 of RFC 9110), other strings if and only if they are equal |
| HeaderKeys.OrdinaryKeys | client/ordered_header.go:45-49 | a key of letters, digits and hyphens is the same as another if and only if they differ only in the case of letters |
| HeaderKeys.StrangeKeys | client/ordered_header.go:45-49 | a key with a space, colon, control or non-ASCII character is the same only as itself |
| CookieMerge.MergeCookies | token/heartbeat.go:211-229 | the nested loops compute the fold that puts each update at the first cookie of its name or at the end |
| CookieMerge.MergeSplits | token/heartbeat.go:211-229 | merging two batches in turn is merging their concatenation |
| CookieMerge.LatestUpdateWins | token/heartbeat.go:208-210 | first-match lookup after a merge gives the last update of the name, or else the old cookie |
| CookieMerge.NamesKeepOrder | token/heartbeat.go:208-229 | all old names keep their places and new names follow, each once, in order of first appearance |
| CookieMerge.MergeAt | token/heartbeat.go:208-229 | position by position, what an old cookie becomes: only the first of a name is replaced, by its last update |
| CookieMerge.MergeKeepsUnique | token/heartbeat.go:211-229 | a list with one cookie per name stays one |
| CookieMerge.MergeIsIdempotent | token/heartbeat.go:211-229 | merging a batch again changes nothing, for any lists |
| CookieMerge.MergesAgreeIff | token/heartbeat.go:211-229 | merging one batch into two lists gives the same lookups if and only if the lists agreed on every name the batch does not update |
| ResponseTokens.TokenOfIs | token/heartbeat.go:191-203 | without a bearer header the token is the value of the first cookie whose lower-cased name contains jwt or token, or there is none |
| ResponseTokens.BearerToken | token/heartbeat.go:200-203 | for any cookies, the header "Bearer " followed by t brings the token t |
| ResponseTokens.TokenCookieIff | token/heartbeat.go:192-198 | a cookie counts as a token if and only if some stretch of its name is "jwt" or "token" up to case |
| ResponseTokens.FindToken | token/heartbeat.go:191-203 | the loop and the header check find the bearer token, else the first token cookie's value |
| SessionStates.StepConserves | token/heartbeat.go:105-206 | available installs of a session = successful claims + available states replaced + one if it is available now |
| SessionStates.ClaimsNeverExceedInstalls | token/heartbeat.go:135-153 | in every interleaving of stores, extractions and claims, successful claims plus one if available now never exceed the available installs |
| SessionStates.AtMostOneWinner | token/heartbeat.go:135-153 | over any run without a store for the session at most one claim succeeds, and one does only if the session was available and is not afterwards |
| SessionStates.ClaimWinsIff | token/heartbeat.go:138-153 | over any run between its load and its compare-and-swap, a claim wins if and only if nothing was stored for the session and no other claim of it won, given that SetState does not store the loaded pointer again; the session is available until then and not afterwards |
| SessionStates.ExtractLosesNothingIff | token/heartbeat.go:175-205 | over any run between load and store, an extraction agrees with merging into the state of the moment it stores, name by name if and only if the two states agree on every name the response does not update, and on the token if and only if the response brings one or they have the same |
| SessionStates.ExtractedState | token/heartbeat.go:166-206 | over any run between load and store, what is stored, field by field: available, the id of the state it had or of the call, each name's last update or else its old cookie, and the bearer token or, with no token in the response, the old one |
| SessionStates.EmptyResponseChangesNothing | token/heartbeat.go:171-174 | a response without cookies changes nothing, whatever its Authorization header |
| SessionStates.SetThenGet | token/heartbeat.go:105-117 | GetState returns what SetState stored until something is stored or claimed for that session |
| SessionStates.SetAgainThenGet | token/heartbeat.go:105-117 | the same for a pointer that was stored before |
| SessionStates.ClaimOfUnavailableLoses | token/heartbeat.go:138-146 | a claim of a session that is missing or not available loses at once and changes nothing else |
| SessionStates.RunKeepsUnique | token/heartbeat.go:176-189 | no state ever has two cookies of one name, overlapping extractions included, if SetState is given none |
| SessionStates.UndisturbedExtractMerges | token/heartbeat.go:166-206 | an extraction during which nothing is stored or claimed for its session stores exactly the merge into the state of that moment |
| SessionStates.OverlapLosesCookies | token/heartbeat.go:175-205 | two overlapping extractions after which only the second one's cookies are left |
| SessionStates.HeartbeatManager.ClaimSession | token/heartbeat.go:138-153 | alone, it wins exactly on an available session and then only clears its availability |
| SessionStates.HeartbeatManager.ExtractFromResponse | token/heartbeat.go:166-206 | alone, no cookies change nothing; otherwise the session's state is the merged one, available, with the token the response brings, and no other session changes |
| WorkerPool.StepKeepsInv | worker/pool.go:31-72 | sent = started followed by queued, started = finished plus running, capacity 4*workers, exits only from a closed empty queue |
| WorkerPool.JobsAreConserved | worker/pool.go:46-64 | every accepted job is in exactly one place, queued, running on one worker or done once, and no other job anywhere; the queue stays within 4*workers |
| WorkerPool.SubmitIsNeverStuck | worker/pool.go:59-64 | a blocked Submit on an open pool can go ahead or a worker can |
| WorkerPool.SubmitGoesInIff | worker/pool.go:35-41 | on an open pool of n workers a waiting Submit goes in, behind all queued jobs, if and only if fewer than 4n are queued |
| WorkerPool.CallersAreServed | worker/pool.go:62-70 | Submit can be called in any state, and Stop's close waits for nobody |
| WorkerPool.IdleWorkerCanTake | worker/pool.go:49-55 | an idle worker can take the oldest job whenever one is queued |
| WorkerPool.JobsCanBeDone | worker/pool.go:46-57 | from any state the workers alone can bring every accepted job to its end, each exactly once |
| WorkerPool.StopIsNeverStuck | worker/pool.go:66-72 | while Stop waits some worker, or Stop itself, can go on |
| WorkerPool.DrainIsBounded | worker/pool.go:66-72 | the workers' steps are bounded by a measure, so with terminating jobs Stop returns |
| WorkerPool.StopDrains | worker/pool.go:66-72 | when Stop has returned the queue is empty and every accepted job is done exactly once |
| WorkerPool.EveryJobIsDone | worker/pool.go:31-72 | in every run in which no Submit follows Stop and none is blocked on the channel when Stop closes it, nothing panics, and after Stop each submitted job is done exactly once |
| WorkerPool.EveryJobIsDoneIff | worker/pool.go:59-72 | in every run in which no Submit follows Stop, once Stop has returned: each submitted job is done exactly once if and only if no Submit was blocked on the channel when Stop closed it |
| WorkerPool.CloseIsSafeIff | worker/pool.go:62-72 | closing the channel leaves no run without further Submits that panics if and only if no Submit is blocked on it |
| WorkerPool.BlockedSubmitPanics | worker/pool.go:62-72 | a run in which no Submit follows Stop, one is blocked when the channel is closed, and it panics |
| PoolObjects.JobQueue.Send | worker/pool.go:62-64 | in place, the send goes through exactly when the protocol allows it and is its step |
| PoolObjects.JobQueue.Receive | worker/pool.go:52-54 | in place, a worker's receive gives the oldest job, the end exactly on a closed empty channel, or neither |
| PoolObjects.Scheduler.DispatchJobs | scheduler/scheduler.go:63-76 | one undisturbed pass submits exactly the registered ids below the count, in increasing order |
| PoolObjects.RegisteredIff | scheduler/scheduler.go:64-69 | those ids are exactly the registered ones from 0 up to the count, each once |
| Dispatch.DispatchIsFair | scheduler/scheduler.go:46-76 | for any set of registered sessions, at every point of every run while they stay: ids below their number have been submitted once per completed loop or once more, lower ids ahead, and no other id ever |
| Dispatch.ServedIff | scheduler/scheduler.go:59-76 | some run submits a session if and only if it is registered and its id is below the number of registered sessions |
| Dispatch.AllServedIff | scheduler/scheduler.go:59-76 | every registered session can be served if and only if the ids are exactly 0..n-1 |
| Dispatch.FailedCreationStarves | session/manager.go:42-45 | a creation of two sessions whose first fails: the second stays registered and no run ever submits it |
| Dispatch.CreatedSessionsAreDispatchedFairly | session/manager.go:46-90 | while the sessions that a successful CreateSessions leaves in an empty manager stay registered, the submit counts of any two differ by at most one, for every interleaving of creation and dispatch |
| Dispatch.StopEndsDispatch | scheduler/scheduler.go:78-85 | once Stop has been called, in every run: the control goroutine has a bounded number of steps left, completes no iteration but the one under way and submits no more than the sessions that one has ahead of it |
| Dispatch.StopAllEndsSubmitting | main.go:160-161 | after SessionManager.StopAll nothing more is submitted in any run |
| Dispatch.StopIsIdempotent | scheduler/scheduler.go:78-85 | Scheduler.Stop can be called at any time, and again, without waiting |
| Dispatch.ControlIsNeverStuck | scheduler/scheduler.go:46-57 | until it has exited it can always take a step or a worker can make room for its Submit |
| Dispatch.CrashIffStillSubmitting | main.go:154-158 | both Stops called: a send on the closed channel is possible if and only if the control goroutine has still something to submit |
| Dispatch.MainCanCrash | main.go:154-158 | a run of main.go's shutdown order after which the panic is possible |
| Dispatch.CleanShutdown | main.go:154-161 | if the goroutine has nothing left to submit, nothing panics and after WorkerPool.Stop every job ever submitted is done exactly once |
| ProxyRotation.RotationIsBalanced | proxy/proxy.go:64-74 | from any index, n calls hand out each of m positions floor(n/m) or ceil(n/m) times |
| ProxyRotation.CountTurn | proxy/proxy.go:58-74 | every m further calls hand out each position exactly once more |
| ProxyRotation.AdvanceIsModulo | proxy/proxy.go:71-72 | after n calls the index is (start + n) mod m |
| ProxyRotation.ProxyManager.GetNextProxy | proxy/proxy.go:64-74 | the proxy at the index and one step of the rotation, or the empty string and no change without proxies |
| ProxyRotation.ProxyManager.LoadProxies | proxy/proxy.go:31-56 | an open or read error leaves the proxies alone; otherwise they are the trimmed lines that are neither blank nor comments, in order, starting at the first |
| ProxyRotation.LoadedIff | proxy/proxy.go:24-46 | an address is loaded if and only if it is neither blank nor a comment and some line is it up to white space at the ends |
| ProxyRotation.LoadedSplits | proxy/proxy.go:40-46 | the proxies of two parts of a file follow one another, so order and repetitions are those of the lines |
| ProxyRotation.LoadedOne | proxy/proxy.go:41-45 | a line gives its trimmed text, or nothing if that is empty or starts with # |
| ProxyRotation.TrimmedIsSlice | proxy/proxy.go:41 | what is left of a line is one stretch of it with only white space around |
| ProxyRotation.AsciiSpaces | proxy/proxy.go:41 | the ASCII white space is tab, line feed, vertical tab, form feed, carriage return and blank |
| SessionCreation.ProxiesAreBalanced | session/manager.go:56-67 | for every interleaving of the goroutines the positions handed out are those of the rotation, and each proxy goes to floor(count/m) or ceil(count/m) sessions |
| SessionCreation.CreateSessionsRegisters | session/manager.go:38-90 | for every interleaving: registered afterwards are the old sessions and those created, each under its id and with the address loaded at the position its goroutine took, or none if none is loaded; no error exactly if ids 0..count-1 were all created |
| SessionCreation.FreshIdsAreContiguous | session/manager.go:46-90 | on an empty manager success leaves exactly the ids 0..count-1 |
| SessionOutcome.AddressesAreBalanced | session/manager.go:56-90 | from an empty manager with distinct proxies: after a successful creation, in whatever interleaving, the number of registered sessions that use a given address is floor(count/m) or ceil(count/m) |
| SessionOutcome.NoProxiesNoProxy | session/manager.go:60-64 | with no proxies loaded every created session is registered without one |
| SessionOutcome.CreationCanSucceed | session/manager.go:46-90 | from any state without a failure pending, a run in which no NewSession fails ends the creation without further errors |
| SessionOutcome.CreationIsNeverStuck | session/manager.go:56-83 | until it is done something can happen, whether NewSession succeeds or fails |
| SessionOutcome.CreationEnds | session/manager.go:69-83 | every event uses up one of finitely many steps, so CreateSessions returns |
| SessionCreation.SessionManager.CollectAll | session/manager.go:75-84 | in place, the collecting loop registers what the transition system registers and counts the failures |

## Left out

- Unlock by a caller that is not the owner, as a step of the protocol: the invariant does not survive it; `UnlockIsNoOpIff` and `UnlockOfFreeKeyIsUnsafe` treat its critical section alone.
- WithLock's timeout: a cancellation that may come at any time.
- IsLocked's answer, which its comment calls advisory: modelled as a probe that may hold the mutex for a moment.
- The fairness of Go's scheduler and of sync.Mutex: termination is stated as bounded runs and absence of stuck states.
- Snapshot's two reads under the read lock are one step: the entries cannot change in between, so the moment of the version load stands for both.
- The wrap-around of the 64-bit version counter; UpdateStatus, GetAllStatus and ToHTTPCookies, which are plain maps and an expiry filter; the gRPC transport and the worker side in cluster/worker_client.go, which discards the version.
- JSON text parsing: the model starts from a decoded tree. The "unknown" type of payload/validator.go:213 cannot occur for such a tree.
- Validator: its calls are sequential here, each of them one or two sections of the lock; copySchema needs no counterpart because maps are values in the model; BaselineFields and the formatting of mismatches.
- SortSlice: an insertion sort stands for sort.Slice; `SortedPermutationIsStrict` and `DiffIsUnique` show that any sort gives the same list.
- http.CanonicalHeaderKey is a parameter of all header results, and a concrete function only in `HeaderKeys`.
- ApplyToRequest, which is ToHTTPHeader on a request, the Chrome header tables, and copies of an OrderedHeader struct that share a backing array.
- SetState with a nil state, the keep-alive loop, concurrent Stop calls, LastRefreshed, FindAvailable, AllStates and ApplyCookiesToRequest of token/heartbeat.go. Cookie names are ASCII, as net/http only parses such names.
- The pool is modelled as started once before the first Submit and stopped once; jobs are opaque and terminate.
- What NewSession does: it fails or succeeds. A negative session count, for which CreateSessions panics in `make(chan result, count)`. Closing sessions in StopAll.
- The file system and the line splitting behind LoadProxies: a file is unopened, or lines up to its end or to a read error.
- client/client.go, client/tls_dialer.go, client/h2_transport.go, fingerprint/, jschallenge/, token/refresh.go, config/, logger/, metrics/, dashboard/, frontend/ and the rest of main.go: wiring, I/O, user interface, counters and tables.
