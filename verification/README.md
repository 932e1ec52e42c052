# A verified model of the config server's stores, watches and lists

The config server keeps its objects in watchable in-memory stores, pushes configuration to targets through a
two-party write protocol, and carries two small list algorithms (condition sets and finalizers) in its API objects.
This project models these four parts in Dafny and proves what they promise over every input, every run and every
interleaving. Where the code does not keep a promise, the exact condition under which it does is proved, with a concrete
run or list for each way of breaking it.

**The watchable store.**
`IdAllocator`, `WatchTable`, `WatchRegistry` and `MemStore` model the id allocator, the watcher table and the store:
classes with the source's fields and loops, each method proved to do exactly what a function on values says
(`StoreSpec`). The functions are then shown to keep every watcher's event stream truthful and equal, when replayed, to
the store. `Interleaving` models the same operations as goroutines that interleave at lock and channel granularity:
one action is one critical section or one channel send, so a write is several actions and every send of a notification
is one of its own. `StoreSolo` ties the two models together: every run of one goroutine's actions that starts with an
operation, ends with its return and is not interrupted has exactly the effect `StoreSpec` gives that operation, whatever
the other goroutines are in the middle of; and such runs exist. `ChannelLife`,
`StoreReplica`, `StoreTruthful`, `StoreReplicaLimits` and `WatchSnapshot` prove what interleavings preserve, and what
they do not.

**The Config REST protocol.**
`ConfigKeys`, `ConfigSpec`, `ConfigRuns` and `ConfigRest` model Create, Update, Delete and Watch of the REST layer:
tell the target, commit to the store, notify a second table of watchers, with an early return at each step that can
fail. `ConfigAnswers` says exactly when each answer is given and what each request leaves behind. `ConfigLimits` holds
the concrete runs in which targets, store and streams come apart. `ConfigInterleaving` and
`ConfigInterleavingLimits` let any number of requests interleave between those steps. `IntentNames` shows when intents
may be identified with keys.

**Condition sets.**
`Conditions`, `ConditionEquality`, `ConditionRepeats` and `ConditionStatus` model SetConditions, GetCondition and
Equal. Both API groups (`apis/inv/v1alpha1/condition.go` and `apis/config/v1alpha1/condition.go`) carry the same
algorithms; one model serves both.

**Finalizer lists.**
`Finalizers` models the removal loop that shifts the backing array while it ranges over the old slice.

## What the proofs bring out

- Four rules decide what interleavings of the store keep: writers of one key do not overlap (`OneWriterPerKey`), no
  notification starts between a Watch's List and its Add (`NoNotifyInWatch`), no Watch lists while a Delete has
  notified and not yet removed (`NoListInDelete`), and none lists while a Create or Update has stored and not yet
  notified (`NoListInCommit`). The store enforces none of them. Streams replay to the store in all runs that obey a set
  of rules if and only if the set has the first three; they are truthful if and only if it has all four. A watcher that
  has come to disagree with the store about a key disagrees until somebody writes the key again.
- A Watch of a store that holds more than 10 entries never returns, because nobody holds its channel yet; with at most
  10 it is never held up by its own snapshot.
- A repeated Stop is harmless until the released id has been handed out again. From then on it stops somebody
  else's watcher (`StaleStopIff` is the exact condition).
- The code of SetConditions and Equal ignores the observed generation as well as the transition time; their comments
  name only the latter. The model follows the code.
- Equal is meant for lists with one condition per type. On other lists the unstable sort can make it refuse a
  list and itself; `AlwaysAcceptedIff` says exactly when it cannot.
- RemoveFinalizer skips the entry after each one it removes, and panics exactly when the last entry is a repeated
  occurrence. It removes what it should, and only that, if and only if neither this nor an adjacent repetition occurs.
- Create sets the target's intent before the store refuses a duplicate, and Update leaves the intent of the previous
  target behind when the target labels change. One request at a time, these are the only two ways in which targets and
  store come to differ (`StepMirroredIff`). With requests that overlap there is a third: two requests for one key can
  call the target in one order and write in the other. Targets and store agree in all interleavings that obey a set of
  rules if and only if the set excludes all three; and every stored config keeps an intent if and only if requests for
  one key do not overlap.
- Update labels its event Added, so a watched Update is the one request that makes a REST-layer stream untruthful
  (`RestTruthfulIff`); replaying the stream still gives the store.
- With `forceAllowCreate` an Update of a missing key is still refused: the nil object fails the type assertion. The
  create arm of Update cannot be reached and has no counterpart in the model.
- Stop of the REST layer's watch does not close the channel, although the watch interface says that Stop does.

## Model

| member | source | states |
|---|---|---|
| IdAllocator.Allocator.constructor | pkg/store/watch/id_allocator.go:31-42 | all ids 0..maxID are free, in ascending order, and none is in use |
| IdAllocator.Allocator.IsExhausted | pkg/store/watch/id_allocator.go:44-48 | true exactly when an allocation would fail |
| IdAllocator.Allocator.AllocateID | pkg/store/watch/id_allocator.go:51-69 | hands out the oldest free id and marks it used, or fails and changes nothing; keeps the partition of the ids |
| IdAllocator.Allocator.ReleaseID | pkg/store/watch/id_allocator.go:72-88 | an id in use goes to the back of the queue, any other is refused without effect; keeps the partition |
| IdAllocator.AllocateKeepsPartition | pkg/store/watch/id_allocator.go:51-69 | after an allocation the free ids are duplicate-free and with the used ids partition 0..maxID |
| IdAllocator.ReleaseKeepsPartition | pkg/store/watch/id_allocator.go:72-88 | the same after a release, accepted or refused |
| IdAllocator.PartitionSize | pkg/store/watch/id_allocator.go:31-88 | no id is ever lost: free and used ids number maxID + 1 |
| IdAllocator.RunKeepsPartition | pkg/store/watch/id_allocator.go:51-88 | the partition holds after every run of allocations and releases |
| IdAllocator.QueueLaw | pkg/store/watch/id_allocator.go:51-88 | over any run, ids free at the start followed by ids released are, in order, ids handed out followed by ids still free |
| IdAllocator.FifoReuse | pkg/store/watch/id_allocator.go:51-88 | an id released behind q free ids is returned by exactly the (q+1)-th later successful allocation, whatever is released in between, and stays free until then |
| WatchTable.RegisterKeepsValid | pkg/store/watch/watchers.go:55-66 | Add keeps the used ids equal to the registered ids, fails exactly when all maxID + 1 ids are registered, and never overwrites a watcher |
| WatchTable.UnregisterKeepsValid | pkg/store/watch/watchers.go:68-79 | Del of any id, registered or not, keeps the used ids equal to the registered ids |
| WatchTable.UnregistersAgree | pkg/config/watch.go:58-63 | ignoring the allocator's refusal, as the REST layer does, has the effect of the store's guarded Del |
| WatchTable.RegisterAddsOnly | pkg/store/watch/watchers.go:55-66 | Add takes the longest free id, registers the watcher under it and leaves the others alone; with no free id it changes nothing |
| WatchTable.UnregisterRemovesOnly | pkg/store/watch/watchers.go:68-79 | Del removes the id and nothing else, and queues it behind the ids that are free |
| WatchTable.RunKeepsValid | pkg/store/watch/watchers.go:55-79 | over every run of Adds and Dels, failed and stale ones included: ids partitioned, table keys are the used ids, free plus registered is maxID + 1 |
| WatchTable.StaleStopHarmless | pkg/store/watch/wctx.go:24-26 | a repeated Stop changes nothing while at most as many Adds have succeeded as ids were free at the first Stop |
| WatchTable.StaleStopHitsAnother | pkg/store/watch/wctx.go:24-26 | after one Add more, the repeated Stop removes a watcher that a later Add registered |
| WatchTable.StaleStopRemovesC | pkg/store/watch/watchers.go:68-79 | a concrete run: one Add more than ids were free, and stopping the first watcher again removes the third |
| WatchTable.StaleStopIff | pkg/store/watch/watchers.go:68-79 | the exact condition: the repeated Stop changes the table if and only if more Adds have succeeded than ids were free |
| WatchRegistry.WatchCtx.Stop | pkg/store/watch/wctx.go:24-26 | removes whatever is registered under the remembered id and closes its channel |
| WatchRegistry.Watchers.constructor | pkg/store/watch/watchers.go:25-30 | an empty table with every id free |
| WatchRegistry.Watchers.GetWatchContext | pkg/store/watch/watchers.go:38-43 | a context of this table with an open, empty channel of its own |
| WatchRegistry.Watchers.IsExhausted | pkg/store/watch/watchers.go:45-47 | true exactly when no id is free |
| WatchRegistry.Watchers.Len | pkg/store/watch/watchers.go:49-53 | the number of registered watchers |
| WatchRegistry.Watchers.Add | pkg/store/watch/watchers.go:55-66 | registers the context under the oldest free id, which the context remembers, or fails and changes no registration |
| WatchRegistry.Watchers.Del | pkg/store/watch/watchers.go:68-79 | unregisters, frees the id and closes the channel, once; an unknown id is ignored |
| WatchRegistry.Watchers.NotifyWatchers | pkg/store/watch/watchers.go:81-90 | every registered watcher's stream grows by exactly the event; no channel it sends on is closed, and no other channel changes |
| MemStore.Mem.constructor | pkg/store/memory/memory.go:35-40 | an empty store without watchers, ids 0..32 free |
| MemStore.Mem.List | pkg/store/memory/memory.go:60-69 | visits every stored key exactly once, in some order |
| MemStore.Mem.Create | pkg/store/memory/memory.go:71-85 | fails and changes nothing on a stored key; otherwise stores and sends Added to every watcher |
| MemStore.Mem.Update | pkg/store/memory/memory.go:88-113 | stores; sends Added for a new key, Modified for a different value, nothing for an equal one |
| MemStore.Mem.Delete | pkg/store/memory/memory.go:128-146 | sends Deleted with the stored value and removes the entry; an absent key is a success without effect |
| MemStore.Mem.Watch | pkg/store/memory/memory.go:148-180 | refused exactly when no id is free, stuck for ever exactly when an id is free and more than 10 entries are stored; otherwise a fresh registered watcher whose stream is one Added per stored entry |
| MemStore.Mem.SendSnapshot | pkg/store/memory/memory.go:165-170 | the loop over the listed items sends one Added event for each, and is stuck after 10 when there are more |
| MemStore.TakesThirtyThree | pkg/store/memory/memory.go:38 | a store takes 33 watchers at a time: the next is refused if and only if 33 are registered |
| StoreSpec.SnapshotReplays | pkg/store/memory/memory.go:159-170 | a snapshot is truthful and replays to the listed entries |
| StoreSpec.SnapshotIsStore | pkg/store/memory/memory.go:159-170 | listing everything, the snapshot replays to the store |
| StoreSpec.BroadcastMirrors | pkg/store/watch/watchers.go:81-90 | an event that is true of the store keeps every stream truthful, and all streams replay to its effect |
| StoreSpec.ReadYourWrites | pkg/store/memory/memory.go:71-146 | the written key reads as written, unless it is a Create of a stored key; every other key reads as before |
| StoreSpec.WritesTellTheChange | pkg/store/memory/memory.go:79-141 | each registered watcher is told exactly the change of the written key between before and after: Added, Modified, Deleted or nothing |
| StoreSpec.WatchersComeAndGo | pkg/store/memory/memory.go:148-180 | Watch and Stop leave the store alone, and the other watchers with what they have been sent |
| StoreSpec.StepMirrors | pkg/store/memory/memory.go:71-180 | each operation keeps every stream truthful and its replay equal to the store, equal updates that send nothing included |
| StoreSpec.RunMirrors | pkg/store/memory/memory.go:71-180 | over every sequential run: Added only for absent keys, Modified only for a different value, Deleted only with the value just before, and every replay equals the store |
| StoreSpec.StreamsOnlyGrow | pkg/store/watch/watchers.go:55-90 | a watcher that nobody stops keeps its id, and what it has been sent stays sent, in order |
| Interleaving.StepKeepsSafe | pkg/store/watch/watchers.go:55-90 | every action of every goroutine keeps: valid table, registered channels open and unshared, a Watch alone on the channel it fills, a notifier sending to registered watchers only |
| Interleaving.RunsAreSafe | pkg/store/watch/watchers.go:55-90 | no interleaving, stale and repeated Stops included, sends on a closed channel or closes one twice; a channel is open while it is registered |
| ChannelLife.ClosedIff | pkg/store/watch/watchers.go:68-79 | a channel is closed after an action exactly when it was closed before or the action stops the watcher registered with it |
| ChannelLife.RegisteredOrClosed | pkg/store/watch/watchers.go:55-79 | after every run, a channel that was registered is still registered or has been closed |
| ChannelLife.UnstoppedStays | pkg/store/watch/watchers.go:55-79 | a watcher that nobody stops stays registered under its id, with its channel |
| ChannelLife.TableIsFixed | pkg/store/watch/watchers.go:81-90 | while a goroutine is inside NotifyWatchers nobody is added or removed |
| ChannelLife.PanicsIff | pkg/store/watch/watchers.go:78-88 | an action brings the program down exactly when it sends on, or closes, a channel that is closed |
| ChannelLife.TouchedIsOpen | pkg/store/watch/watchers.go:78-88 | in no interleaving is there such an action: what the next action sends on or closes is open |
| ChannelLife.HistoryGrows | pkg/store/watch/watchers.go:81-90 | what has been sent stays sent, in order; a closed channel gets nothing more; a client receives one event at a time, and only by receiving |
| ChannelLife.RunsAreBounded | pkg/store/watch/watchers.go:38-43 | no channel ever holds more than 10 events that its client has not received |
| ChannelLife.ReceivesIff | pkg/store/watch/wctx.go:28-30 | the client of a running or stopped watcher can receive exactly when something is left |
| WatchSnapshot.ListedKept | pkg/store/memory/memory.go:159-170 | whatever the other goroutines do, entries sent plus entries left of a snapshot stay the entries listed |
| WatchSnapshot.SmallSnapshotNeverWaits | pkg/store/memory/memory.go:165-170 | with at most 10 listed entries the snapshot loop is never blocked |
| WatchSnapshot.LargeSnapshotNeverReturns | pkg/store/memory/memory.go:165-174 | with more than 10 the Watch never reaches its Add, in any interleaving |
| StoreReplica.ViewKept | pkg/store/memory/memory.go:71-146 | a watcher that is sent nothing in a step stays faithful to the store, whatever the step writes |
| StoreReplica.StepKeepsInvariant | pkg/store/memory/memory.go:71-180 | every disciplined action keeps the replica invariant, in the middle of writes, notifications and watches |
| StoreReplica.StreamsMirrorStore | pkg/store/memory/memory.go:71-180 | in every disciplined interleaving, for every registered watcher and every key with no write in flight, the replay gives exactly the store's entry |
| StoreReplica.QuietStreamsAreTheStore | pkg/store/memory/memory.go:71-180 | when no write is in flight the replay is the store |
| StoreReplica.ApartRunsAreDisciplined | pkg/store/memory/memory.go:148-180 | a caller who keeps writers of one key apart and watches apart from writes runs disciplined interleavings |
| StoreTruthful.StepKeepsTruth | pkg/store/watch/watchers.go:81-90 | every action that obeys the four rules keeps every stream truthful, and every event still owed to a watcher, registered or about to be, true of what that watcher will have been told |
| StoreTruthful.CarefulRunsAreTruthful | apis/generated/openapi/zz_generated.openapi.go:1948 | in every interleaving that obeys the four rules, every stream, of stopped watchers too, is truthful event by event |
| StoreTruthful.ApartRunsAreTruthful | pkg/store/memory/memory.go:71-180 | in particular when writers of one key are kept apart and watches apart from writes |
| StoreReplicaLimits.DisagreementLasts | pkg/store/watch/watchers.go:81-90 | a disagreement between a watcher and the store about a key survives every run in which nobody starts to write the key and the watcher is not stopped |
| StoreReplicaLimits.NotifyInsideWatchDiverges | pkg/store/memory/memory.go:161-174 | an event between List and Add is missed: a run that breaks only NoNotifyInWatch ends with nothing in flight and a watcher that disagrees with the store after every run that leaves the key alone |
| StoreReplicaLimits.NotifyInsideWatchMisleads | pkg/store/memory/memory.go:161-174 | and the next change of the key is announced to that watcher as Modified, though it was never told of it |
| StoreReplicaLimits.ListInsideDeleteDiverges | pkg/store/memory/memory.go:138-144 | a Watch that lists between a Delete's notification and its removal keeps the deleted entry in the same lasting way |
| StoreReplicaLimits.ListInsideDeleteMisleads | pkg/store/memory/memory.go:138-144 | and is told Added about it when it is created again |
| StoreReplicaLimits.ListInsideCommitMisleads | pkg/store/memory/memory.go:77-83 | a Watch that lists between a write's commit and its notification is told Added twice, although the other three rules are obeyed |
| StoreReplicaLimits.OverlappingWritersDiverge | pkg/store/memory/memory.go:73-83 | two Creates of one key both pass the check and may announce in the other order: a watcher is left with the overwritten value, in the same lasting way |
| StoreReplicaLimits.OverlappingWritersMislead | pkg/store/memory/memory.go:73-83 | and has been told Added twice |
| StoreReplicaLimits.MirrorsUnderIff | pkg/store/memory/memory.go:71-180 | the exact condition on sets of rules: all interleavings that obey them leave every watcher replaying to the store whenever nothing is in flight, if and only if the set has the first three |
| StoreReplicaLimits.TruthfulUnderIff | pkg/store/memory/memory.go:71-180 | all interleavings that obey them keep every stream truthful at every moment, if and only if the set has all four |
| StoreSolo.InitIsNew | pkg/store/memory/memory.go:35-40 | interleavings start from the new store |
| StoreSolo.NotifySolo | pkg/store/watch/watchers.go:81-90 | however far a NotifyWatchers call has come, in whatever order it sends: the watchers visited have the event once, the others not; when it has returned the effect is the sequential broadcast |
| StoreSolo.WriteSolo | pkg/store/memory/memory.go:71-146 | every uninterrupted run of a Create, Update or Delete, from its first action to its return, has the sequential effect and leaves the other goroutines alone |
| StoreSolo.CreateSolo | pkg/store/memory/memory.go:71-85 | in particular every run of Create |
| StoreSolo.UpdateSolo | pkg/store/memory/memory.go:88-113 | every run of Update |
| StoreSolo.DeleteSolo | pkg/store/memory/memory.go:128-146 | every run of Delete |
| StoreSolo.WatchSolo | pkg/store/memory/memory.go:148-180 | every uninterrupted run of Watch has the effect of the sequential Watch that lists in the order in which the run sent the entries |
| StoreSolo.WriteRunExists | pkg/store/memory/memory.go:71-146 | such a run of a write exists whenever the channels of the registered watchers have room |
| StoreSolo.WatchRunExists | pkg/store/memory/memory.go:148-180 | such a run of Watch exists whenever nobody is notifying and the store fits the channel |
| StoreSolo.RefusedAtOnce | pkg/store/memory/memory.go:73-75 | a Create of a stored key, a Delete of an absent one and a Watch of a full table end in one step without effect |
| StoreSolo.StopSolo | pkg/store/watch/watchers.go:68-79 | Stop has the sequential effect |
| ConfigKeys.GetKeyIff | pkg/config/keys.go:28-39 | a request has a key if and only if it is made in a namespace exactly when the resource is namespaced; the key has the request's name and that namespace |
| ConfigKeys.GetTargetKeyIff | pkg/config/keys.go:41-51 | labels name a target if and only if they hold both target labels with non-empty values, and then it is the target of exactly those two values |
| ConfigKeys.GetKeysIff | pkg/config/keys.go:53-69 | an object has both keys if and only if the scope fits and its labels name a target |
| ConfigKeys.LabelNames | pkg/config/config.go:52-53 | the two labels are called targetName and targetNamespace; either one alone, or an empty one, names no target |
| ConfigKeys.TargetIsLabels | pkg/config/keys.go:41-51 | labels that name targets name the same one exactly when both values agree |
| IntentNames.NamesAreKeys | pkg/target/context.go:35-41 | with dot-free namespaces, and both keys in a namespace or neither, intent names and target names coincide exactly for equal keys |
| IntentNames.NameExamples | pkg/target/context.go:35-41 | how names are written: slashes of the API version replaced, then kind, namespace if any, and name, joined by dots |
| IntentNames.NamesCollide | pkg/store/key.go:27-32 | without that condition two keys can share a name |
| ConfigRest.MWatch.Stop | pkg/config/watch.go:80-82 | removes whatever is registered under the remembered id |
| ConfigRest.RestWatchers.Add | pkg/config/watch.go:46-56 | registers under the oldest free id, which the watch remembers, or fails and changes no registration |
| ConfigRest.RestWatchers.Del | pkg/config/watch.go:58-63 | unregisters and frees the id; an unknown id has no effect |
| ConfigRest.RestWatchers.NotifyWatchers | pkg/config/watch.go:65-72 | every registered watcher's stream grows by exactly the event |
| ConfigRest.Cfg.Create | pkg/config/config.go:231-285 | the handler's effect on targets, store and both event layers, and its status, are those of the protocol step for every input and every failure |
| ConfigRest.Cfg.Update | pkg/config/config.go:287-383 | the same for Update; its event is labelled Added |
| ConfigRest.Cfg.Delete | pkg/config/config.go:385-442 | the same for Delete |
| ConfigRest.Cfg.Listed | pkg/config/config.go:190-229 | a new channel with one Added event for every stored object of whatever namespace, or stuck when there are more than 10 |
| ConfigRest.Cfg.Watch | pkg/config/config.go:480-520 | refused exactly when the table is full or the scope does not fit, stuck exactly when it is not refused and more than 10 objects are stored; otherwise registered with the snapshot of the store |
| ConfigRuns.SucceedsIff | pkg/config/config.go:231-442 | which Creates, Updates and Deletes succeed, in terms of the state before them and the target's answer |
| ConfigAnswers.AnswerIff | pkg/config/config.go:231-442 | for Create, Update and Delete, exactly when each answer is given: success, bad request, not found, internal error, the error of the store or of the update handed on, panic |
| ConfigAnswers.StoreAfter | pkg/config/config.go:276-431 | the store reads as written at the key of a request that succeeds (with the fresh UID on Create) and as before everywhere else |
| ConfigAnswers.TargetsAfter | pkg/config/config.go:271-426 | from every state, a request tells at most one target, about its own config only; all other intents stay |
| ConfigAnswers.EventsAfter | pkg/config/config.go:280-438 | the REST layer's watchers hear of a request that succeeds, in one event, and of no other; the store's watchers hear the change of the key |
| ConfigAnswers.StopRemovesOnly | pkg/config/watch.go:80-82 | Stop removes the watcher of its id and nothing else, and frees the id |
| ConfigAnswers.WatchAddsOnly | pkg/config/config.go:480-520 | Watch is refused exactly when the table is full or the scope does not fit; otherwise it adds one watcher, truthfully told the whole store |
| ConfigRuns.FailureChangesNothingElse | pkg/config/config.go:231-442 | a failing write leaves the store and all streams unchanged, and changes the targets if and only if it is a Create of a stored key that told its target something new |
| ConfigRuns.KeysChangeOnlySo | pkg/config/config.go:231-442 | the stored keys grow only by a successful Create of an absent key and shrink only by a successful Delete; Update never creates |
| ConfigRuns.CreateKeeps | pkg/config/config.go:246-283 | Create keeps: both tables valid, both layers mirror the store, every stored config has valid target labels and an intent on that target |
| ConfigRuns.UpdateKeeps | pkg/config/config.go:345-369 | Update keeps the same, label moves included |
| ConfigRuns.DeleteKeeps | pkg/config/config.go:406-438 | Delete keeps the same |
| ConfigRuns.StepKeeps | pkg/config/config.go:231-520 | every request keeps the same |
| ConfigRuns.RunsKeepInvariant | pkg/config/config.go:231-520 | on every sequential run, duplicate Creates and label moves included, every stored config carries both target labels, with values, and the target they name has an intent for it |
| ConfigRuns.LayersAgree | pkg/config/config.go:276-283 | on every run each REST-layer watcher and each store-layer watcher replay to the same map, the store |
| ConfigRuns.RestTruthfulIff | pkg/config/config.go:365-368 | a request keeps the REST layer's streams truthful event by event if and only if it is not an Update that passes every check while somebody watches; its event says Added about a stored key |
| ConfigRuns.CreateMirroredIff | pkg/config/config.go:267-278 | a Create keeps targets and store in agreement if and only if it does not tell a target about a stored key something else than the store holds |
| ConfigRuns.UpdateMirroredIff | pkg/config/config.go:345-364 | an Update keeps them in agreement if and only if some check stops it or it keeps both target labels |
| ConfigRuns.DeleteMirrored | pkg/config/config.go:406-433 | a Delete always keeps them in agreement |
| ConfigRuns.StepMirroredIff | pkg/config/config.go:246-433 | the exact condition for all requests and all answers of the targets |
| ConfigRuns.StrictRunsMirror | pkg/config/config.go:246-433 | on every run without such requests, with any pattern of target failures, each target holds exactly the stored configs whose labels name it, with equal contents |
| ConfigRuns.TargetsAreTheStore | pkg/config/config.go:246-433 | the same, from an empty store, empty targets and no watchers |
| ConfigLimits.DuplicateCreateStrays | pkg/config/config.go:271-278 | a run from the start in which a refused duplicate Create leaves other contents on the target than in the store |
| ConfigLimits.LabelMoveStrays | pkg/config/config.go:345-364 | a run from the start in which an Update moves a config and the old target keeps its intent |
| ConfigLimits.WatchedUpdateMisleads | pkg/config/config.go:365-368 | a run from the start in which a watcher is told Added twice about one config |
| ConfigInterleaving.RequestSolo | pkg/config/config.go:246-433 | every uninterrupted run of a request's steps has on targets and store the effect of the sequential protocol |
| ConfigInterleaving.MirroringStep | pkg/config/config.go:246-433 | every step that obeys the rules keeps: free keys mirrored, keys of requests that have not called the target mirrored, keys of the others mirrored once they write |
| ConfigInterleaving.RunsMirror | pkg/config/config.go:246-433 | in every interleaving of requests that obeys the rules, with any target failures, each target holds, at every key without a request in flight, exactly what the store holds |
| ConfigInterleaving.BackingStep | pkg/config/config.go:246-433 | every step keeps an intent behind every stored config that no Delete has given up |
| ConfigInterleaving.RunsBack | pkg/config/config.go:246-433 | in every interleaving with one request per key at a time, duplicate Creates and label moves included, every stored config has an intent on its target unless a Delete of it is past its call of the target |
| ConfigInterleavingLimits.OverlappingUpdatesStray | pkg/config/config.go:358-364 | two Updates of one key call the target in one order and write in the other: target and store are left with different configs |
| ConfigInterleavingLimits.OverlappingDeleteUnbacks | pkg/config/config.go:426-433 | a Delete between an Update's call of the target and its write leaves a stored config that no target has been told of |
| ConfigInterleavingLimits.MirrorsUnderIff | pkg/config/config.go:246-433 | the exact condition on sets of rules: targets and store agree after all interleavings that obey them if and only if requests for one key do not overlap, no Create duplicates and no Update moves |
| ConfigInterleavingLimits.BacksUnderIff | pkg/config/config.go:246-433 | every stored config has an intent after all interleavings that obey them if and only if requests for one key do not overlap |
| Conditions.FoldForgets | apis/inv/v1alpha1/condition.go:115-135 | once a type has been set, what an entry of the type said before does not matter |
| Conditions.SetAllIsStable | apis/inv/v1alpha1/condition.go:115-135 | after SetConditions every argument type is present and no entry would change if the arguments were set again |
| Conditions.OldEntriesFold | apis/inv/v1alpha1/condition.go:118-130 | entries keep their places and are updated each for itself; nothing is appended for present types |
| Conditions.SetAllIdempotent | apis/inv/v1alpha1/condition.go:112-135 | setting the same list again changes nothing, times included, for every list and every argument list |
| Conditions.SetAllKinds | apis/inv/v1alpha1/condition.go:115-135 | old positions keep their types; new types are appended in order of first appearance |
| Conditions.SetAllKeepsUnique | apis/inv/v1alpha1/condition.go:86-87 | one condition per type stays one condition per type |
| Conditions.EntriesAreGiven | apis/inv/v1alpha1/condition.go:128-132 | every entry is, time and generation included, one that was there or one that was supplied |
| Conditions.SetOneReplaces | apis/inv/v1alpha1/condition.go:116-134 | one condition: entries of its type that said something else become exactly it; all others stay exactly; it is appended if there was none of its type |
| Conditions.FoldIsLastChange | apis/inv/v1alpha1/condition.go:115-135 | transition times: an entry ends as exactly the argument that last changed what its type says, or stays exactly what it was |
| Conditions.NewEntriesFold | apis/inv/v1alpha1/condition.go:131-133 | an appended entry is what becomes, in that sense, of the first argument of its type |
| Conditions.FindsEntry | apis/inv/v1alpha1/condition.go:103-110 | GetCondition answers the first entry of the type, or a condition that says False |
| Conditions.LastWriteWins | apis/inv/v1alpha1/condition.go:101-135 | afterwards GetCondition and every entry of a supplied type say what the last supplied one says; types not supplied answer exactly as before |
| Conditions.SetOneNoOpIff | apis/inv/v1alpha1/condition.go:112-114 | setting a condition is a no-op exactly when its type is present and all its entries already say the same, times and generations ignored |
| ConditionEquality.LessIff | apis/inv/v1alpha1/condition.go:155 | the order of types is lexicographic: a proper prefix, or smaller at the first difference |
| ConditionEquality.LessTotal | apis/inv/v1alpha1/condition.go:155 | the lexicographic order of types is total |
| ConditionEquality.LessTransitive | apis/inv/v1alpha1/condition.go:155 | and transitive |
| ConditionEquality.IncreasingIsCanonical | apis/inv/v1alpha1/condition.go:155-156 | sorting a set of types has one result |
| ConditionEquality.PermutationMeans | apis/inv/v1alpha1/condition.go:148-156 | sorting keeps what a set says about each type |
| ConditionEquality.PairwiseIsMeaning | apis/inv/v1alpha1/condition.go:154-163 | with one condition per type, and whatever permutation the unstable sort picks, the comparison succeeds exactly when both sets say the same about the same types |
| ConditionEquality.SetAllMeans | apis/inv/v1alpha1/condition.go:115-135 | SetConditions is map override: what was said, overridden by the last supplied condition of each type |
| ConditionEquality.OrderIrrelevant | apis/inv/v1alpha1/condition.go:115-135 | conditions of distinct types set in any two orders, on any set, give sets that say the same about the same types |
| ConditionEquality.OrdersAreAccepted | apis/inv/v1alpha1/condition.go:139-164 | and Equal accepts them, whatever the sort does |
| ConditionRepeats.ContentsDecide | apis/inv/v1alpha1/condition.go:139-164 | for all lists: Equal accepts only lists with the same entries equally often, and surely accepts them if entries of one type agree |
| ConditionRepeats.AlwaysAcceptedIff | apis/inv/v1alpha1/condition.go:139-164 | the exact condition under which Equal accepts whatever the sort does |
| ConditionRepeats.RefusesItself | apis/inv/v1alpha1/condition.go:154-163 | a list with two conditions of one type that Equal may refuse although it is compared with itself |
| ConditionStatus.ConditionedStatus.constructor | apis/inv/v1alpha1/condition.go:95-99 | the arguments set on an empty list |
| ConditionStatus.ConditionedStatus.GetCondition | apis/inv/v1alpha1/condition.go:103-110 | the first condition of the type, or one that says False |
| ConditionStatus.ConditionedStatus.SetConditions | apis/inv/v1alpha1/condition.go:115-135 | the in-place nested loops set all arguments, left to right |
| ConditionStatus.ConditionedStatus.Equal | apis/inv/v1alpha1/condition.go:139-164 | equality of what the sets say for one condition per type, the contents-based bounds for all lists, nil equal only to nil; neither list changes |
| Finalizers.SkipIsWithoutIff | pkg/reconcilers/resource/finalizer.go:75-79 | what the loop keeps is the list without the finalizer exactly when no two occurrences are adjacent |
| Finalizers.RemovalIsExactIff | pkg/reconcilers/resource/finalizer.go:73-81 | for every list: removal succeeds and leaves the other entries in order if and only if no occurrences are adjacent and the last entry is not a repeated one |
| Finalizers.RemovalPanics | pkg/reconcilers/resource/finalizer.go:75-79 | a list with a repeated last entry on which the loop slices out of range |
| Finalizers.RemovalLeavesOne | pkg/reconcilers/resource/finalizer.go:75-79 | a list with adjacent repetitions of which one is left |
| Finalizers.RemovalOfSingle | pkg/reconcilers/resource/finalizer.go:73-81 | in particular when the finalizer occurs at most once: no slice out of range, exactly the other entries, in order |
| Finalizers.AddAppends | pkg/reconcilers/resource/finalizer.go:62-70 | the old list is a prefix of the new one, which is longer by at most one; a finalizer that was not on it is the last |
| Finalizers.AddedStaysBehind | pkg/reconcilers/resource/finalizer.go:62-81 | over runs: an entry on the list when a fresh finalizer is added stays before it while nobody removes either |
| Finalizers.LoopRemoves | pkg/reconcilers/resource/finalizer.go:73-81 | the loop over the shifting array panics exactly when the last entry is a repeated occurrence, and otherwise leaves the closed form |
| Finalizers.RunsStayDistinct | pkg/reconcilers/resource/finalizer.go:62-81 | over every run of calls of any controllers from a duplicate-free list: no panic, still duplicate-free |
| Finalizers.OwnCallsDecide | pkg/reconcilers/resource/finalizer.go:62-93 | a finalizer is present exactly as the last call about it says, or as at the start |
| Finalizers.OthersKeepOrder | pkg/reconcilers/resource/finalizer.go:62-81 | entries nobody removes stay, in their order |
| Finalizers.AddThenRemove | pkg/reconcilers/resource/finalizer.go:62-81 | removing a freshly added finalizer restores the list |
| Finalizers.Meta.FinalizerExists | pkg/reconcilers/resource/finalizer.go:85-93 | true exactly when the finalizer is on the list |
| Finalizers.Meta.AddFinalizer | pkg/reconcilers/resource/finalizer.go:62-70 | appends unless present, into spare capacity or a new array |
| Finalizers.Meta.RemoveFinalizer | pkg/reconcilers/resource/finalizer.go:73-81 | the in-place loop panics exactly when the specification does, and leaves its list |
| Finalizers.CopyDown | pkg/reconcilers/resource/finalizer.go:77 | the effect of the append on the cells of the old slice, the stale last cell included |
| Finalizers.APIFinalizer.AddFinalizer | pkg/reconcilers/resource/finalizer.go:45-51 | the API server is asked exactly when the list changed |
| Finalizers.APIFinalizer.RemoveFinalizer | pkg/reconcilers/resource/finalizer.go:53-59 | the API server is asked exactly when the finalizer was there; an object that is gone counts as updated |

## Assumptions

- Values are compared by Dafny equality where the program uses `reflect.DeepEqual`.
- An event carries the store key it is about. The program's event carries only the object; the key is an annotation
  that lets a stream be replayed, and nothing reads it.
- SetIntent and DeleteIntent of a target either succeed or leave the target unchanged; which of the two is a
  parameter of each request. That covers an unavailable client or datastore, an invalid path, and a failed call to
  the data server. Targets are not removed during a run.
- Objects handed to the REST layer have the name and namespace of the request.
- UIDs and clock values are opaque parameters.
- The order in which a loop over a Go map visits its keys is arbitrary: every order is covered.

## Left out

- Objects mutated through pointers that the store, its clients and the watch events share.
- Progress: a send on a full channel is an action that cannot be taken; deadlock freedom and delivery are not claimed, nor is the preference that Go's RWMutex gives to waiting writers.
- ConfigInterleaving.Next: the watchers of both layers are left out, so the order of the REST layer's events under overlapping requests is not modelled; the look-ups before the call of the target are one step, because nothing removes targets and the rest touches only the request itself.
- WatchRegistry.Watchers.Add: has the precondition that the context was never added before, as `Watch` guarantees; the program's Add would register the closed channel of a stopped context again.
- ConfigRest.RestWatchers.Add: has the same precondition.
- MemStore.Mem.Watch: a call that never returns is an outcome, `stuck`, with the state the call leaves behind; ConfigRest.Cfg.Watch returns null for either error.
- WatchRegistry.Channel: the sequential classes record what is sent and whether the channel is closed; receiving and a full buffer are in `Interleaving` only.
- Finalizers.Meta.RemoveFinalizer: says nothing about the list after a panic, which is not written back.
- ConditionStatus.ConditionedStatus.Equal: for lists with a type that occurs twice with different contents the answer depends on the library's sort; `ConditionRepeats.AlwaysAcceptedIff` says so exactly.
- ConditionStatus.SortByKind: stands for the library's `sort.Slice`; only its contract, a sorted permutation, is used.
- Sharing of one backing array by two condition slices or two finalizer slices, and the exact growth policy of `append`.
- The finalizers' client call is an answer parameter; conflict handling of the API server is not modelled.
- DeleteCollection (`pkg/config/config.go:444-478`): lists without deleting anything.
- `pkg/store/file`, `pkg/filepath`: file system and codec calls.
- `pkg/config/watcher.go`, `pkg/dataserver/client`, `cmd/apiserver`, the reconcilers: reconnect loops, gRPC forwarding and wiring.
- Condition constructors, WithMessage, profile defaults, generated and registration code: one-branch facts.
- Logging, tracing and error texts; errors are reduced to their kind.
