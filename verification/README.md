# Verified models of the Kubernetes client and BPF map cores

The repository vendors `kube-rs` and `libbpf-rs`. This project models the parts of them whose
correctness is not visible from reading one function, and proves what they are for. Each
component has its own modules:

- **Structural schema rewriter** (`Schema`, `SchemaNormal`, `SchemaMeaning`,
  `SchemaPruning`, `SchemaFrame`, `SchemaPanics`, `SchemaUntagged`, `SchemaNode`): the pass
  that makes a JSON Schema structural by moving the contents of `oneOf` and `anyOf` branches to their
  parent. `SchemaNode` edits nodes in place and is proved equal to a function on trees; about that
  function, meaning preservation, idempotence and the exact panic condition are proved. Acceptance
  follows JSON Schema draft-07 Validation, sections 6.1.1, 6.1.2, 6.4.1,
  6.5.3, 6.5.4, 6.5.6, 6.7.2 and 6.7.3.
- **Finalizer protocol** (`Finalizer`, `FinalizerProtocol`, `FinalizerProgress`,
  `FinalizerReports`): the helper's decision on a snapshot and the
  JSON Patches it sends (RFC 6902), and the interleaving of any number of reconcilers on stale
  snapshots, lost, late and refused patches, users and foreign controllers.
- **Watcher and waiters** (`Watcher`, `WatcherRecovery`, `WatcherProgress`, `Wait`): the list/watch recovery machine against a server seen as a
  history of versioned changes, the store fed by its events, and waiting for deletion on top.
- **Port forwarding** (`PortForward`, `Forwarder`, `PortForwardRuns`,
  `PortForwardSuccess`): the port check, the readers, and the
  loop that multiplexes all ports over one WebSocket, for every interleaving of the producers.
- **Scheduler** (`SchedulerSpec`, `Scheduler`): delay queue, index and held set, refining a map from message
  to earliest time.
- **Entry commit** (`Entry`, `EntryRuns`, `EntrySaves`): get, modify and commit with optimistic concurrency.
- **Versions** (`Version`, `VersionOrder`), **per-CPU maps** (`PerCpuMap`) and **CRD merging** (`Crd`).

Code that changes things step by step is modelled by classes and loops, proved equal to functions on
values; the results over whole runs are lemmas about those functions.

## Where the code and its documentation differ

- The rewriter's documentation (schema.rs:24-27) forbids properties that overlap between branches. The
  code merges identical ones and panics only on different ones; `HoistPropertiesPanicsIff` states when one
  list of branches does, `RewritePanicsIff` when the pass over a whole tree does.
- Hoisting an untagged enum changes what is accepted: fields that one branch types and another leaves open are
  typed for all afterwards. `UntaggedNarrows` says exactly which values stay, `UntaggedLosesValue` shows one that
  does not.
- The watcher's documentation (watcher.rs:258-262) says an invalid resource version leads to a fresh list.
  The code falls back to a list only on an error *event* with code 410, and retries a refused watch
  request with the same version: `RefusedAsGone` is the step at which the documented recovery fails,
  `RefusedForever` what follows from it, `RelistsExactlyOnGone` when a fresh list does come.
- `delete_and_finalize` promises that the object is gone. A delete answered by a status whose details leave
  out the uid (response.rs:118-119 reads that as the empty string) makes the wait succeed at once;
  `EmptyUidSucceeds` gives the run, `TrustworthyIff` the replies for which the promise holds.
- `lookup_percpu` on a map with value size 0 splits its buffer into chunks of length 0, which panics;
  the model reports `Panicked` there, and the round trip holds for every other size.

## What is assumed of the world

- Finalizers: one incarnation of the object; nobody but the helper removes its finalizer (foreign
  controllers may change the list otherwise as they like); a JSON Patch `test` of an absent list against
  null succeeds, which is the behaviour the code relies on although RFC 6902 section 4.6 reads differently.
- Watching: a list returns the current objects, each once, and the current version; a watch delivers exactly the later changes
  in order until it ends or fails, and an error does not lose a change that it skipped.
- Deletion: a uid is not used again after it has gone, and the server gives every object a uid.
- Per-CPU maps: the kernel answers that a key is missing only when it is.
- Port forwarding: messages of one producer arrive in order; a call that fails has no further effect.
- Entries: clients leave the resource version alone; a request or its answer may be lost.

## Model

| member | source | states |
|---|---|---|
| `SchemaMeaning.RewritePreserves` | ebpf-pod-resize-libbpf-rs-CO-RE/kube/kube-core/src/schema.rs:31-188 | for every schema built from leaves, arrays, open structs, plain enums with disjoint values and externally tagged enums, nested to any depth, and every value: the pass does not panic, whatever the original accepts the result accepts, and whatever the result accepts the original accepts once unknown fields are pruned |
| `SchemaMeaning.RewriteTotal` | ebpf-pod-resize-libbpf-rs-CO-RE/kube/kube-core/src/schema.rs:31-188 | on every such schema the pass finishes without a panic |
| `SchemaMeaning.EnumPreserves` | ebpf-pod-resize-libbpf-rs-CO-RE/kube/kube-core/src/schema.rs:73-103 | hoisting the values of a plain enum changes no acceptance in either direction, and the result prunes nothing from what it accepts |
| `SchemaMeaning.EnumOneOf` | ebpf-pod-resize-libbpf-rs-CO-RE/kube/kube-core/src/schema.rs:69-103 | with disjoint values, exactly one branch accepts precisely when some branch lists the value |
| `SchemaMeaning.TaggedAccepts` | ebpf-pod-resize-libbpf-rs-CO-RE/kube/kube-core/src/schema.rs:105-160 | what a rewritten tagged enum accepts, said without the rewriter: both types allow the value, exactly one tag is shown, and every tag present has an acceptable content |
| `SchemaMeaning.TaggedForward` | ebpf-pod-resize-libbpf-rs-CO-RE/kube/kube-core/src/schema.rs:105-160 | a value accepted by a tagged enum stays accepted after its branches were emptied into the parent |
| `SchemaMeaning.TaggedBackward` | ebpf-pod-resize-libbpf-rs-CO-RE/kube/kube-core/src/schema.rs:105-160 | a value accepted by the rewritten tagged enum is, pruned, accepted by the original |
| `SchemaMeaning.ContributionMeaning` | ebpf-pod-resize-libbpf-rs-CO-RE/kube/kube-core/src/schema.rs:122-135 | moving a branch description onto its only property changes no acceptance and no pruning of that property |
| `SchemaPruning.PrunesUndescribed` | ebpf-pod-resize-libbpf-rs-CO-RE/kube/kube-core/src/schema.rs:31-188 | for every supported schema and every value, pruning under the rewritten schema leaves exactly what the original, or a branch of it, describes, at every depth |
| `SchemaPruning.FlattenedMapKeepsAll` | ebpf-pod-resize-libbpf-rs-CO-RE/kube/kube-core/src/schema.rs:53-65 | a struct with a flattened map keeps every field it is given after the pass, and the unnamed ones unchanged |
| `SchemaFrame.BranchesGiveUp` | ebpf-pod-resize-libbpf-rs-CO-RE/kube/kube-core/src/schema.rs:112-158 | after hoisting a branch with object rules has no properties, no additional ones, no type and no description, and everything else it had; other branches are untouched |
| `SchemaFrame.DescriptionMoves` | ebpf-pod-resize-libbpf-rs-CO-RE/kube/kube-core/src/schema.rs:122-135 | the description of a branch with one property is afterwards that property's description; every other property arrives unchanged |
| `SchemaFrame.EnumsInOrder` | ebpf-pod-resize-libbpf-rs-CO-RE/kube/kube-core/src/schema.rs:78-102 | the values of listing branches are appended in the order of the branches, and the other branches stay, in order |
| `SchemaFrame.NodeKeeps` | ebpf-pod-resize-libbpf-rs-CO-RE/kube/kube-core/src/schema.rs:31-66 | the pass over any node keeps its metadata, items, required fields and extensions; additional properties stay too, except that "anything" beside some property becomes the preserve flag, which is set in no other case |
| `SchemaNormal.RewriteNormal` | ebpf-pod-resize-libbpf-rs-CO-RE/kube/kube-core/src/schema.rs:31-160 | whatever the pass returns is structural: every hoisted branch is empty of what Kubernetes forbids there, at every depth |
| `SchemaNormal.RewriteFixed` | ebpf-pod-resize-libbpf-rs-CO-RE/kube/kube-core/src/schema.rs:31-160 | a structural schema comes through the pass unchanged |
| `SchemaNormal.RewriteIdempotent` | ebpf-pod-resize-libbpf-rs-CO-RE/kube/kube-core/src/schema.rs:31-188 | if the first pass over any schema tree succeeds, a second one succeeds and changes nothing |
| `SchemaNormal.HoistPropertiesUnion` | ebpf-pod-resize-libbpf-rs-CO-RE/kube/kube-core/src/schema.rs:105-160 | after hoisting, the parent holds exactly the union of its own properties and the branches', its type is the one all agree on, and each branch that had object rules keeps none of its properties, type or description |
| `SchemaNormal.HoistPropertiesPanicsIff` | ebpf-pod-resize-libbpf-rs-CO-RE/kube/kube-core/src/schema.rs:136-188 | hoisting panics exactly when two sources give different schemas for one property or different types; identical schemas are merged |
| `SchemaPanics.HoistEnumsPanicsIff` | ebpf-pod-resize-libbpf-rs-CO-RE/kube/kube-core/src/schema.rs:79-102 | hoisting values panics exactly when the types named by the listing branches and by the node are not one; otherwise that is the node's type afterwards |
| `SchemaPanics.HoistNodePanicsIff` | ebpf-pod-resize-libbpf-rs-CO-RE/kube/kube-core/src/schema.rs:33-66 | one node, children visited: it panics exactly when two of its own properties, its `oneOf` branches' and its `anyOf` branches' differ under one name, or when they name two types |
| `SchemaPanics.RewritePanicsIff` | ebpf-pod-resize-libbpf-rs-CO-RE/kube/kube-core/src/schema.rs:31-188 | for every schema tree the pass panics if and only if some node of it, its children visited, has such a clash |
| `SchemaNodes.MoveProperties` | ebpf-pod-resize-libbpf-rs-CO-RE/kube/kube-core/src/schema.rs:136-152 | the insertion loop over a branch's properties ends with the merged map, or clashes when there is none |
| `SchemaNodes.SchemaNode.MergeMetadata` | ebpf-pod-resize-libbpf-rs-CO-RE/kube/kube-core/src/schema.rs:170-188 | in place: the common type becomes the merged one, or the types clash |
| `SchemaNodes.SchemaNode.HoistVariant` | ebpf-pod-resize-libbpf-rs-CO-RE/kube/kube-core/src/schema.rs:112-158 | in place: one branch emptied, its properties and type now on the node |
| `SchemaNodes.SchemaNode.HoistSubschemaProperties` | ebpf-pod-resize-libbpf-rs-CO-RE/kube/kube-core/src/schema.rs:107-160 | in place, over the array of branches: the node and every branch end as the recursive specification says |
| `SchemaNodes.SchemaNode.HoistSubschemaEnumValues` | ebpf-pod-resize-libbpf-rs-CO-RE/kube/kube-core/src/schema.rs:73-103 | in place: values of plain enum branches move to the node in order, the other branches are kept in order |
| `SchemaNodes.SchemaNode.VisitSchemaObject` | ebpf-pod-resize-libbpf-rs-CO-RE/kube/kube-core/src/schema.rs:32-66 | the in-place pass over a node, children first, computes the tree function all other results are about, and fails exactly where that panics |
| `SchemaUntagged.UntaggedNarrows` | ebpf-pod-resize-libbpf-rs-CO-RE/kube/kube-core/src/schema.rs:31-160 | an untagged enum (open `anyOf`), its children visited: the rewritten node accepts a value if and only if the enum does and the value also fits the type and the fields of every branch; so it never accepts more |
| `SchemaUntagged.UntaggedLosesValue` | ebpf-pod-resize-libbpf-rs-CO-RE/kube/kube-core/src/schema.rs:31-160 | a concrete untagged enum and a value it accepts that its rewritten form refuses |
| `Finalizer.IndexOf` | ebpf-pod-resize-libbpf-rs-CO-RE/kube/kube-runtime/src/finalizer.rs:39-42 | the first position of the finalizer, absent exactly when the name is not in the list |
| `Finalizer.AddPatchEffect` | ebpf-pod-resize-libbpf-rs-CO-RE/kube/kube-runtime/src/finalizer.rs:151-188 | the add patch is all or nothing: it appends the name when the list equals the snapshot and fails otherwise |
| `Finalizer.RemovePatchEffect` | ebpf-pod-resize-libbpf-rs-CO-RE/kube/kube-runtime/src/finalizer.rs:131-148 | the remove patch applies exactly when the tested index still holds the name; then it deletes that one occurrence and keeps all other names in order |
| `Finalizer.RemoveFailsOnlyOnChange` | ebpf-pod-resize-libbpf-rs-CO-RE/kube/kube-runtime/src/finalizer.rs:131-148 | a remove patch made from a snapshot fails only if the list changed since |
| `FinalizerProtocol.RunInv` | ebpf-pod-resize-libbpf-rs-CO-RE/kube/kube-runtime/src/finalizer.rs:101-199 | the protocol invariant holds after every run of stale reconcilers, lost and late patches, cancelled helpers, users and foreign controllers |
| `FinalizerProtocol.CleanupBeforeRemoval` | ebpf-pod-resize-libbpf-rs-CO-RE/kube/kube-runtime/src/finalizer.rs:73-84 | if Apply ever started on the object, some Cleanup succeeded before the server removed it |
| `FinalizerProtocol.NeverTwice` | ebpf-pod-resize-libbpf-rs-CO-RE/kube/kube-runtime/src/finalizer.rs:151-188 | our finalizer occurs at most once in every version of every run that starts so |
| `FinalizerProtocol.NoApplyAfterCleanup` | ebpf-pod-resize-libbpf-rs-CO-RE/kube/kube-runtime/src/finalizer.rs:35-47 | a reconciler that sees versions in order never starts Apply after it started Cleanup |
| `FinalizerProtocol.SuccessMeansRemoved` | ebpf-pod-resize-libbpf-rs-CO-RE/kube/kube-runtime/src/finalizer.rs:123-148 | when the helper returns success for a deleting object, the server has stored a list without our finalizer since |
| `FinalizerProgress.CleanupCompletes` | ebpf-pod-resize-libbpf-rs-CO-RE/kube/kube-runtime/src/finalizer.rs:118-148 | from every reachable state with our finalizer on a deleting object, one undisturbed pass with a successful Cleanup removes exactly our finalizer, reports success, and ends the object if no other finalizer is left |
| `FinalizerProgress.AdoptionCompletes` | ebpf-pod-resize-libbpf-rs-CO-RE/kube/kube-runtime/src/finalizer.rs:149-195 | from every reachable state with a live object that lacks our finalizer, one undisturbed pass appends it without calling Apply, and the next look starts Apply |
| `FinalizerReports.LooksReported` | ebpf-pod-resize-libbpf-rs-CO-RE/kube/kube-runtime/src/finalizer.rs:112-199 | in every run, what a look at the object reports, told by whether it has our finalizer, is being deleted and has a name |
| `FinalizerReports.CallsReported` | ebpf-pod-resize-libbpf-rs-CO-RE/kube/kube-runtime/src/finalizer.rs:116-130 | in every run, a successful Apply returns its action and a failed one `ApplyFailed`; a failed Cleanup returns `CleanupFailed` and a successful one goes on to the patch |
| `FinalizerReports.AnswersReported` | ebpf-pod-resize-libbpf-rs-CO-RE/kube/kube-runtime/src/finalizer.rs:131-195 | in every run, an answered patch returns success exactly if the server's list still matched and the request was not refused: the action of the Cleanup, or waiting for a change; otherwise `RemoveFinalizer` or `AddFinalizer` |
| `FinalizerReports.LossesReported` | ebpf-pod-resize-libbpf-rs-CO-RE/kube/kube-runtime/src/finalizer.rs:131-195 | in every run, a patch given up is reported as failed |
| `Watcher.RelistsIff` | ebpf-pod-resize-libbpf-rs-CO-RE/kube/kube-runtime/src/watcher.rs:151-187 | the machine goes back to a full list exactly on an error event with code 410 |
| `WatcherProgress.EndedStreamResumes` | ebpf-pod-resize-libbpf-rs-CO-RE/kube/kube-runtime/src/watcher.rs:191-195 | from every reachable world, when a stream ends the machine asks for a new watch at the version held, emitting nothing, and that watch then shows every later change, each leaving the store at the server's snapshot |
| `WatcherProgress.RefusalResumes` | ebpf-pod-resize-libbpf-rs-CO-RE/kube/kube-runtime/src/watcher.rs:147-157 | a refused watch request is reported and asked again; the watch that starts then misses nothing |
| `WatcherProgress.FailureGoesOn` | ebpf-pod-resize-libbpf-rs-CO-RE/kube/kube-runtime/src/watcher.rs:176-194 | a failed poll and an error event other than 410 are reported, and the same stream goes on without a gap |
| `WatcherProgress.BookmarkGoesOn` | ebpf-pod-resize-libbpf-rs-CO-RE/kube/kube-runtime/src/watcher.rs:172-175 | a bookmark moves the held version on without a sound |
| `WatcherProgress.GoneRelists` | ebpf-pod-resize-libbpf-rs-CO-RE/kube/kube-runtime/src/watcher.rs:140-187 | a 410 is reported and leads to a list; a failed list is reported and tried again, a successful one brings the store to the current snapshot and on to a watch there |
| `WatcherProgress.CatchesUp` | ebpf-pod-resize-libbpf-rs-CO-RE/kube/kube-runtime/src/watcher.rs:110-198 | from every reachable world some sequence of answers leads to a store equal to the server's current object set |
| `WatcherProgress.CallEmitsOnce` | ebpf-pod-resize-libbpf-rs-CO-RE/kube/kube-runtime/src/watcher.rs:201-212 | one call of the trampoline is a run of polls that emits exactly one item, the one it returns |
| `WatcherRecovery.RelistsExactlyOnGone` | ebpf-pod-resize-libbpf-rs-CO-RE/kube/kube-runtime/src/watcher.rs:110-198 | in every run, of two successes with none between them the later one is a fresh list if and only if an error event with code 410 was reported between them |
| `WatcherRecovery.RestartsNeedGone` | ebpf-pod-resize-libbpf-rs-CO-RE/kube/kube-runtime/src/watcher.rs:110-198 | in every run, between any two fresh lists a 410 event was reported |
| `WatcherRecovery.NoGoneNoRestart` | ebpf-pod-resize-libbpf-rs-CO-RE/kube/kube-runtime/src/watcher.rs:147-198 | once listed, a run without a 410 event never lists again, whatever else fails |
| `WatcherRecovery.RefusedForever` | ebpf-pod-resize-libbpf-rs-CO-RE/kube/kube-runtime/src/watcher.rs:147-157 | while its watch requests are refused, with any code, the machine keeps asking for the same version, reports each refusal and emits no event |
| `WatcherRecovery.RefusedAsGone` | ebpf-pod-resize-libbpf-rs-CO-RE/kube/kube-runtime/src/watcher.rs:147-157 | the documented recovery fails here: a watch request refused with 410 is followed by a request for the same version |
| `Watcher.CollectSnapshot` | ebpf-pod-resize-libbpf-rs-CO-RE/kube/kube-runtime/src/reflector/store.rs:64-74 | replacing the store by a listed snapshot, in any order, gives exactly that snapshot |
| `Watcher.Writer.ApplyWatcherEvent` | ebpf-pod-resize-libbpf-rs-CO-RE/kube/kube-runtime/src/reflector/store.rs:52-75 | in place: the store after an event is the old one with the object inserted, removed, or everything replaced |
| `Watcher.PollKeeps` | ebpf-pod-resize-libbpf-rs-CO-RE/kube/kube-runtime/src/watcher.rs:135-198 | every reply to every state keeps the store equal to the server's snapshot at the held version, and never lowers that version |
| `Watcher.StoreIsSnapshot` | ebpf-pod-resize-libbpf-rs-CO-RE/kube/kube-runtime/src/watcher.rs:33-50 | in every run, through errors, ended streams, bookmarks, 410 answers and re-lists, the fold of the emitted events is the server's object set at exactly the version held |
| `Watcher.VersionsAdvance` | ebpf-pod-resize-libbpf-rs-CO-RE/kube/kube-runtime/src/watcher.rs:110-198 | over any stretch of a run the held version never goes backwards and the history only grows |
| `Watcher.Step` | ebpf-pod-resize-libbpf-rs-CO-RE/kube/kube-runtime/src/watcher.rs:201-212 | the loop steps until something is emitted and returns that item and state |
| `Wait.AwaitsFirst` | ebpf-pod-resize-libbpf-rs-CO-RE/kube/kube-runtime/src/wait.rs:49-67 | the wait answers with the first item that fails or satisfies the condition, and with nothing while there is none |
| `Wait.AwaitOr` | ebpf-pod-resize-libbpf-rs-CO-RE/kube/kube-runtime/src/wait.rs:238-273 | waiting for either of two conditions ends as soon as one of the two waits would; Not and And give the dual |
| `Wait.ShowsObject` | ebpf-pod-resize-libbpf-rs-CO-RE/kube/kube-runtime/src/watcher.rs:282-301 | each event shows the watched object exactly as the server has it at the version then held, or its absence |
| `Wait.DeleteAndFinalizeAnswers` | ebpf-pod-resize-libbpf-rs-CO-RE/kube/kube-runtime/src/wait.rs:298-316 | how the call answers for every reply and stream: refused, without a uid, failed by the first failing item, ended by the first look without the uid, or still waiting |
| `Wait.DeletionEndsWait` | ebpf-pod-resize-libbpf-rs-CO-RE/kube/kube-runtime/src/wait.rs:298-316 | a wait that met no error ends with success at the latest on an event at whose version the uid is absent |
| `Wait.ReportedAbsent` | ebpf-pod-resize-libbpf-rs-CO-RE/kube/kube-runtime/src/wait.rs:175-184 | an event on which `is_deleted` holds proves the uid absent at that version, also when the name was recreated |
| `Wait.SuccessSawAbsence` | ebpf-pod-resize-libbpf-rs-CO-RE/kube/kube-runtime/src/wait.rs:298-316 | if delete-and-wait succeeds, for any reply and history, then the uid it waited for is absent at a version that a reply showed, no older than the start of the wait |
| `Wait.DeleteAndFinalizeSound` | ebpf-pod-resize-libbpf-rs-CO-RE/kube/kube-runtime/src/wait.rs:298-316 | if moreover that uid belonged to an object before the wait and uids are not reused, it is absent at every version from there on |
| `Wait.TrustworthyIff` | ebpf-pod-resize-libbpf-rs-CO-RE/kube/kube-runtime/src/wait.rs:298-316 | success always means that the object deleted is gone, if and only if the reply carries that object's uid, or carries none so that there is no success |
| `Wait.EmptyUidSucceeds` | ebpf-pod-resize-libbpf-rs-CO-RE/kube/kube-core/src/response.rs:114-119 | a status with details but no uid is read as the empty uid: a run in which the wait succeeds while the object is still there |
| `PortForward.ValidatePorts` | ebpf-pod-resize-libbpf-rs-CO-RE/kube/kube-core/src/subresource.rs:381-399 | accepted exactly for 1 to 128 distinct ports; each error exactly in its case, and the reported duplicate is one |
| `PortForward.ChannelsFit` | ebpf-pod-resize-libbpf-rs-CO-RE/kube/kube-client/src/api/portforward.rs:177-181 | with a validated port list channel numbers do not wrap, are distinct, and index the table of channel states |
| `PortForward.ChannelsClash` | ebpf-pod-resize-libbpf-rs-CO-RE/kube/kube-client/src/api/portforward.rs:177-181 | without the limit the 129th port would share a channel with the first |
| `PortForward.ToPodLoop` | ebpf-pod-resize-libbpf-rs-CO-RE/kube/kube-client/src/api/portforward.rs:191-215 | a port's reader sends its non-empty chunks in order and then one close |
| `PortForward.FromPodLoop` | ebpf-pod-resize-libbpf-rs-CO-RE/kube/kube-client/src/api/portforward.rs:217-251 | the WebSocket reader sends channel and payload of every binary frame longer than one byte, in order, and one close at a close frame, after which it stops |
| `PortForwardSuccess.FirstFrame` | ebpf-pod-resize-libbpf-rs-CO-RE/kube/kube-client/src/api/portforward.rs:284-301 | the first frame of a channel is accepted exactly if it is the port number, low byte first; otherwise it is an error about its size or about the number it spells |
| `PortForwardSuccess.TextIff` | ebpf-pod-resize-libbpf-rs-CO-RE/kube/kube-client/src/api/portforward.rs:306-310 | an error text is accepted exactly if it encodes a sequence of Unicode scalar values |
| `PortForwardSuccess.SucceedsIff` | ebpf-pod-resize-libbpf-rs-CO-RE/kube/kube-client/src/api/portforward.rs:277-354 | in every interleaving the loop gets through all messages if and only if every one of them fits (known channel, correct first frame, well-formed error text) and every call made for it succeeds |
| `PortForwardSuccess.FailsAs` | ebpf-pod-resize-libbpf-rs-CO-RE/kube/kube-client/src/api/portforward.rs:277-354 | the first message that does not fit ends the loop, with the error that names what was wrong with it |
| `Forwarders.Forwarder.HandleMessage` | ebpf-pod-resize-libbpf-rs-CO-RE/kube/kube-client/src/api/portforward.rs:281-354 | in place: one message changes tables, writers, error senders and socket as the step function says, or ends with the same error |
| `Forwarders.Forwarder.ForwarderLoop` | ebpf-pod-resize-libbpf-rs-CO-RE/kube/kube-client/src/api/portforward.rs:257-356 | in place: the loop over all messages ends in the state or error of the run |
| `Forwarders.ErrorSticks` | ebpf-pod-resize-libbpf-rs-CO-RE/kube/kube-client/src/api/portforward.rs:257-356 | the first error ends the loop whatever comes later |
| `PortForwardRuns.PortReceives` | ebpf-pod-resize-libbpf-rs-CO-RE/kube/kube-client/src/api/portforward.rs:282-318 | in every interleaving each local stream has received exactly the in-order payloads of its data channel after the init frame and before its close, and its error future at most one message, the first after the init frame |
| `PortForwardRuns.PortGetsFrames` | ebpf-pod-resize-libbpf-rs-CO-RE/kube/kube-client/src/api/portforward.rs:217-318 | end to end: each local stream has received a prefix of the bytes that the WebSocket frames carry for its data channel after the first, all of them once every frame is handled and the channel is open; its error message is the one in the second frame of its error channel |
| `PortForwardRuns.FramesInOrder` | ebpf-pod-resize-libbpf-rs-CO-RE/kube/kube-client/src/api/portforward.rs:319-327 | the frames sent on a channel are what arrived from its reader, in order |
| `PortForwardRuns.PortSends` | ebpf-pod-resize-libbpf-rs-CO-RE/kube/kube-client/src/api/portforward.rs:191-215 | in every interleaving the frames sent on a channel are a prefix of its reader's non-empty chunks |
| `PortForwardRuns.PortSendsBytes` | ebpf-pod-resize-libbpf-rs-CO-RE/kube/kube-client/src/api/portforward.rs:191-215 | end to end: the bytes sent for a port are a prefix of the bytes its reader read, and all of them after its close |
| `PortForwardRuns.NonEmptyBytes` | ebpf-pod-resize-libbpf-rs-CO-RE/kube/kube-client/src/api/portforward.rs:198-212 | skipping empty chunks loses no byte |
| `PortForwardRuns.ReaderMessages` | ebpf-pod-resize-libbpf-rs-CO-RE/kube/kube-client/src/api/portforward.rs:191-215 | a reader sends each chunk as one message on its channel and then exactly one close |
| `PortForwardRuns.ReaderReportsClose` | ebpf-pod-resize-libbpf-rs-CO-RE/kube/kube-client/src/api/portforward.rs:217-251 | the WebSocket reader reports a close exactly if a close frame came, as its last message |
| `PortForwardRuns.ClosesLast` | ebpf-pod-resize-libbpf-rs-CO-RE/kube/kube-client/src/api/portforward.rs:328-353 | the close frame is sent exactly when every data channel was closed by its reader, at most once, and is the last frame (RFC 6455 section 5.5.1); the counter equals the number of closed ports |
| `PortForwardRuns.OnlyThePodFails` | ebpf-pod-resize-libbpf-rs-CO-RE/kube/kube-client/src/api/portforward.rs:257-356 | when the awaited calls succeed, the loop ends with an error only because of what the pod sent |
| `SchedulerSpec.EarliestWins` | ebpf-pod-resize-libbpf-rs-CO-RE/kube/kube-runtime/src/scheduler.rs:58-83 | after any history a waiting message is stored with the minimum of the times requested since it last left; waiting and held messages are disjoint |
| `SchedulerSpec.PollStoresMinimum` | ebpf-pod-resize-libbpf-rs-CO-RE/kube/kube-runtime/src/scheduler.rs:58-83 | after a poll a waiting message is stored with the minimum over the requests outstanding before and those the poll accepted, and none of the latter is earlier |
| `SchedulerSpec.NoBlocking` | ebpf-pod-resize-libbpf-rs-CO-RE/kube/kube-runtime/src/scheduler.rs:85-111 | a poll is never pending while a held or due message passes the predicate |
| `SchedulerSpec.PendingHoldsDue` | ebpf-pod-resize-libbpf-rs-CO-RE/kube/kube-runtime/src/scheduler.rs:97-108 | a pending poll has moved exactly the due messages to the held set and left the others with their times |
| `SchedulerSpec.ScheduleAllKnows` | ebpf-pod-resize-libbpf-rs-CO-RE/kube/kube-runtime/src/scheduler.rs:131-137 | requests add exactly their messages to what is known and never touch the held set |
| `Schedulers.Scheduler.ScheduleMessage` | ebpf-pod-resize-libbpf-rs-CO-RE/kube/kube-runtime/src/scheduler.rs:58-83 | in place on queue and index: refines the plain map from message to earliest time, and keeps queue and index in bijection, disjoint from the held set |
| `Schedulers.Scheduler.Expire` | ebpf-pod-resize-libbpf-rs-CO-RE/kube/kube-runtime/src/scheduler.rs:97-107 | an expired entry is always in the index, so the `expect` cannot fire; it is emitted or held |
| `Schedulers.Scheduler.PollExpired` | ebpf-pod-resize-libbpf-rs-CO-RE/kube/kube-runtime/src/scheduler.rs:96-110 | the pop loop ends and conserves messages, emitting only a due one that passes the predicate; its events are the messages held and at the end the one emitted |
| `Schedulers.Scheduler.PollPopQueueMessage` | ebpf-pod-resize-libbpf-rs-CO-RE/kube/kube-runtime/src/scheduler.rs:86-111 | one attempt over held and due messages: conservation, dueness, the predicate, when it is pending, and which events happened |
| `Schedulers.Scheduler.PollNext` | ebpf-pod-resize-libbpf-rs-CO-RE/kube/kube-runtime/src/scheduler.rs:127-144 | one poll: known after plus emitted is known before plus requested; the history grows by exactly the requests in order and then the messages held and the one emitted; nothing is popped once the request stream has ended |
| `Entries.OccupiedEntry.AndModify` | ebpf-pod-resize-libbpf-rs-CO-RE/kube/kube-client/src/api/entry.rs:146-161 | in place: modifying marks a clean entry dirty and leaves a new one new |
| `Entries.OccupiedEntry.PrepareForCommit` | ebpf-pod-resize-libbpf-rs-CO-RE/kube/kube-client/src/api/entry.rs:213-245 | in place: name and namespace defaulted, or the first of the three validation errors |
| `Entries.OccupiedEntry.CommitTo` | ebpf-pod-resize-libbpf-rs-CO-RE/kube/kube-client/src/api/entry.rs:182-208 | in place on entry and server: create, replace or nothing according to dirtiness, clean afterwards unless it was a dry run |
| `Entries.DryRunKeepsPending` | ebpf-pod-resize-libbpf-rs-CO-RE/kube/kube-client/src/api/entry.rs:182-208 | a dry-run commit changes nothing on the server and leaves the pending save pending |
| `Entries.DryRunThenCommit` | ebpf-pod-resize-libbpf-rs-CO-RE/kube/kube-client/src/api/entry.rs:182-208 | after a successful dry run the real commit succeeds and stores the same data, for that name only |
| `Entries.CommitSucceedsIff` | ebpf-pod-resize-libbpf-rs-CO-RE/kube/kube-client/src/api/entry.rs:182-245 | over a reliable network a commit succeeds exactly when validation passes and the object is missing (new) or at the version sent (dirty) |
| `EntrySaves.StoredAsAsked` | ebpf-pod-resize-libbpf-rs-CO-RE/kube/kube-client/src/api/entry.rs:182-245 | whatever a commit stores is the entry's data under the entry's name and in the namespace of the API, at a new version, and nothing else on the server changes |
| `EntrySaves.ModifyThenCommit` | ebpf-pod-resize-libbpf-rs-CO-RE/kube/kube-client/src/api/entry.rs:146-208 | an existing object that is fetched, modified and committed is stored as modified |
| `EntrySaves.InsertThenCommit` | ebpf-pod-resize-libbpf-rs-CO-RE/kube/kube-client/src/api/entry.rs:182-208 | a missing object that is inserted, modified or not, and committed is created |
| `EntrySaves.UnmodifiedNotSent` | ebpf-pod-resize-libbpf-rs-CO-RE/kube/kube-client/src/api/entry.rs:137-208 | an object that is fetched and not modified is not sent |
| `EntrySaves.CommitReports` | ebpf-pod-resize-libbpf-rs-CO-RE/kube/kube-client/src/api/entry.rs:182-245 | which validation or save error a commit reports |
| `EntrySaves.ModifiedIsSaved` | ebpf-pod-resize-libbpf-rs-CO-RE/kube/kube-client/src/api/entry.rs:146-208 | in every run, a client that modifies an up-to-date entry and commits it has its modification on the server |
| `EntryRuns.CommitStores` | ebpf-pod-resize-libbpf-rs-CO-RE/kube/kube-client/src/api/entry.rs:182-208 | a commit leaves the server alone or stores the prepared object where the server allows it |
| `EntryRuns.CommitLeaves` | ebpf-pod-resize-libbpf-rs-CO-RE/kube/kube-client/src/api/entry.rs:182-208 | after a successful real commit the entry is clean and holds what was stored; otherwise it keeps its dirtiness and its version |
| `EntryRuns.NoLostUpdate` | ebpf-pod-resize-libbpf-rs-CO-RE/kube/kube-client/src/api/entry.rs:48-58 | in every run of many clients every accepted save creates a missing object or replaces exactly the version its entry last received |
| `Versions.ParseRender` | ebpf-pod-resize-libbpf-rs-CO-RE/kube/kube-core/src/version.rs:65-101 | parsing inverts the canonical rendering of every stable, beta and alpha version over all of u32 |
| `Versions.ReparseStable` | ebpf-pod-resize-libbpf-rs-CO-RE/kube/kube-core/src/version.rs:65-101 | rendering and re-parsing whatever was parsed changes nothing |
| `Versions.ParseSpelled` | ebpf-pod-resize-libbpf-rs-CO-RE/kube/kube-core/src/version.rs:65-92 | what a spelled-out version parses to, from its digits, word and suffix |
| `Versions.SpelledMeans` | ebpf-pod-resize-libbpf-rs-CO-RE/kube/kube-core/src/version.rs:65-92 | what each string of the grammar parses to: the word gives the kind, the digits the numbers, leading zeros and plus aside |
| `Versions.WordsMean` | ebpf-pod-resize-libbpf-rs-CO-RE/kube/kube-core/src/version.rs:65-92 | the same for numbers written in decimal |
| `Versions.ConformantIff` | ebpf-pod-resize-libbpf-rs-CO-RE/kube/kube-core/src/version.rs:96-101 | nonconformant comes out exactly for strings outside the grammar or above the u32 bound, and keeps the string |
| `VersionOrder.PriorityTotal` | ebpf-pod-resize-libbpf-rs-CO-RE/kube/kube-core/src/version.rs:122-129 | the priority order is total and transitive, and only equal versions compare equal |
| `VersionOrder.GenerationTotal` | ebpf-pod-resize-libbpf-rs-CO-RE/kube/kube-core/src/version.rs:131-137 | the generation order is total and transitive, and only equal versions compare equal |
| `VersionOrder.PriorityIs` | ebpf-pod-resize-libbpf-rs-CO-RE/kube/kube-core/src/version.rs:122-129 | one version has priority over another exactly if it is more stable, or as stable with a higher major, or then a later minor; other strings go alphabetically |
| `VersionOrder.GenerationIs` | ebpf-pod-resize-libbpf-rs-CO-RE/kube/kube-core/src/version.rs:131-137 | one version is a later generation than another exactly if it has the higher major, or then is more stable, or then has a later minor; every other string comes after, alphabetically |
| `VersionOrder.Ranking` | ebpf-pod-resize-libbpf-rs-CO-RE/kube/kube-core/src/version.rs:160-231 | priority puts stable above beta above alpha above nonconformant; generation puts every conformant version above every other string and then goes by major |
| `PerCpuMaps.RoundUpLeast` | ebpf-pod-resize-libbpf-rs-CO-RE/libbpf-rs/libbpf-rs/src/util.rs:32-34 | the result is the least multiple of `r` not below the number |
| `PerCpuMaps.SizesFit` | ebpf-pod-resize-libbpf-rs-CO-RE/libbpf-rs/libbpf-rs/src/map.rs:184-196 | for u32 value sizes and i32 CPU counts all sizes and offsets stay within 64 bits, and every slot lies in the buffer |
| `PerCpuMaps.FillSlots` | ebpf-pod-resize-libbpf-rs-CO-RE/libbpf-rs/libbpf-rs/src/map.rs:415-436 | the copying loop fills every CPU's own slot, or reports the first value of the wrong size |
| `PerCpuMaps.FilledSlots` | ebpf-pod-resize-libbpf-rs-CO-RE/libbpf-rs/libbpf-rs/src/map.rs:258-271 | what was filled in reads back unchanged for every CPU count and value size |
| `PerCpuMaps.ReadSlots` | ebpf-pod-resize-libbpf-rs-CO-RE/libbpf-rs/libbpf-rs/src/map.rs:262-271 | the chunking loop returns the values of the slots without their padding |
| `PerCpuMaps.PerCpuMap.UpdatePerCpu` | ebpf-pod-resize-libbpf-rs-CO-RE/libbpf-rs/libbpf-rs/src/map.rs:399-437 | stores exactly the given values under the key, or changes nothing; succeeds exactly when type, counts, sizes and the system call allow it, and each other outcome has its exact condition |
| `PerCpuMaps.PerCpuMap.LookupPerCpu` | ebpf-pod-resize-libbpf-rs-CO-RE/libbpf-rs/libbpf-rs/src/map.rs:250-272 | returns exactly the stored values for every value size of at least 1; `None` exactly when the kernel reports a missing key, which then is missing; panics exactly on value size 0 |
| `Crds.MergeCrds` | ebpf-pod-resize-libbpf-rs-CO-RE/kube/kube-core/src/crd.rs:92-139 | succeeds exactly on a non-empty list of single-version definitions that agree in group, kind and scope and contain the stored version; the result has that version first and alone in storage and the same multiset of versions, the others from the last definition to the first; every failure is the first one in the order of the checks |
| `Crds.Combine` | ebpf-pod-resize-libbpf-rs-CO-RE/kube/kube-core/src/crd.rs:130-137 | the popping loops append every other version once, with its storage flag cleared |
| `Crds.PoppedAllSame` | ebpf-pod-resize-libbpf-rs-CO-RE/kube/kube-core/src/crd.rs:130-137 | popping from the end neither loses nor repeats a version |
| `Crds.FailureExcludesMerge` | ebpf-pod-resize-libbpf-rs-CO-RE/kube/kube-core/src/crd.rs:92-128 | no list both merges and has an explanation for a failure |
| `Crds.ErrorUnique` | ebpf-pod-resize-libbpf-rs-CO-RE/kube/kube-core/src/crd.rs:92-128 | a failure has one explanation only |

## Left out

- SchemaMeaning.RewritePreserves: does not cover untagged enums, whose acceptance changes as `UntaggedNarrows` says, nor
  flattened enums beside own closed properties, `oneOf` branches that stay open, or both kinds of branch on one
  node; idempotence, normal form and the panic condition cover every tree.
- SchemaUntagged.UntaggedNarrows: compares one node before and after hoisting, its children visited already; what the
  visit does to the meaning of the children is `RewritePreserves`, or this lemma again.
- SchemaNodes.SchemaNode.VisitSchemaObject: says nothing about the node after a panic, since the caller never
  sees it; all panics are one outcome. Child schemas are values, visited through a fresh node each.
- Keywords outside type, enum, properties, required, additionalProperties, items, `oneOf` and `anyOf`
  (`allOf`, `not`, `patternProperties`, formats, `nullable`) and the traversal that visits them.
- FinalizerProtocol.CleanupBeforeRemoval: does not cover re-creation of the object under the same name, because a
  run follows one incarnation.
- FinalizerProtocol.NoApplyAfterCleanup: does not hold for a reconciler that may see an older version after a newer one, so
  it is stated for those that see versions in order, as a watch delivers them.
- Watcher.Step: takes the replies as a finite list that ends with an output; an endless wait without output is not modelled.
- Wait.DeleteAndFinalizeSound: does not promise that the wait ends, because the server may fail for ever.
- List parameters with `limit` or `continue`, which watch requests reject, and the event iterators and `modify`
  of `watcher::Event`.
- PortForwardRuns.ClosesLast: speaks of the frames the loop sends; the transport below it, TLS and the WebSocket
  handshake are not modelled.
- Forwarders.Forwarder.HandleMessage: a write that fails after part of the bytes went out counts as no write, and a failing
  shutdown at the pod's close ends the loop without saying which writers were shut down.
- `DelayQueue` and task wake-ups: the queue is a map from fresh keys to messages and deadlines, due entries may
  come in any order, and a poll is given the current time.
- Schedulers.Scheduler.PollNext: does not model the time passing during one poll, which sees a single instant.
- Entries.OccupiedEntry.CommitTo: does not model admission or defaulting, so the server stores the object as sent with
  a new version.
- PerCpuMaps.PerCpuMap.UpdatePerCpu: does not model map flags or the kernel's internals; the system call's result is an input.
- Names of CRDs other than group, kind and scope, and every field of a version except name, served, storage and schema.
- Remote command execution, which demultiplexes like port forwarding; request and URL builders; admission,
  discovery and derive macros; reflector streams and controllers.
- The other wrappers of `libbpf-rs`, the skeleton generator, the eBPF programs and the demo drivers: calls into
  libraries that are not part of this model.
