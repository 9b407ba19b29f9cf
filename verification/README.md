# OpenSOVD core, verified

A Dafny model of the parts of OpenSOVD where several pieces of state have to
agree: the topology registry with its reverse indexes and event log, the
discovery loop that feeds it, the TLS accept loop, data providers and their
filter on the wire, the entity endpoints and their links, and the helper of the
end-to-end suite that waits for a line of output. `dafny verify dfyconfig.toml`
checks everything.

## How it is organised

| file | what it holds |
|---|---|
| `Sequences.dfy`, `IndexMap.dfy`, `Entities.dfy` | sequences and filters, insertion-ordered maps, components, apps and areas |
| `ReverseIndex.dfy` | one reverse index on its own: table, claims and buckets, and when an insert, a removal or a cleared bucket keeps them in step |
| `TopologyModel.dfy` | the registry as a value: six maps, six operations, the queries; the three indexes are instances of `ReverseIndex` |
| `TopologyRuns.dfy` | what the registry keeps over whole runs |
| `TopologyState.dfy` | the mutable registry, the event channel and the write guard, as classes proved against `TopologyModel` |
| `TopologyEvents.dfy`, `TopologyGuards.dfy` | replaying events; any number of readers, writers and subscribers as a state machine |
| `IndexDiff.dfy`, `Discovery.dfy`, `DiffEffects.dfy`, `Interleavings.dfy`, `DiscoveryTask.dfy` | what a diff does to an index and to the tables, several providers at once, the loop itself, and the loop as a task that can be shut down |
| `TlsListener.dfy` | the TLS accept loop as a state machine |
| `DataProvider.dfy`, `ProviderBuilder.dfy` | the trait's default queries, the builder, the built provider's overrides |
| `PercentEncoding.dfy`, `FilterQuery.dfy`, `EntityRoutes.dfy` | percent-encoding (section 2.1 of RFC 3986), the client's query and form decoding (section 5.1 of the URL Standard), entity endpoints, links and routes |
| `OutputWaiter.dfy` | the reader thread and one waiter as a state machine |

Concurrent parts are state machines whose schedules are arbitrary sequences of
steps, where a step that is not enabled does nothing; a statement about every
schedule is therefore a statement about every interleaving. The step rules
assume the documented contracts of the primitives: a lock held by many readers
or one writer, a broadcast channel that delivers in order and makes a slow
receiver skip, a bounded channel that blocks its senders, a select that may
choose any ready branch and can be cancelled only where it awaits.

Strings are sequences of octets. `Id` is any such string, the empty one too.

## What the code does not keep

The following promises fail, the last one only if a dependency reads queries in
one of two ways. Each has a concrete run and, next to it, the exact condition
under which it holds.

* `apps_of_component` equals the scan of all apps: not after an app is
  overwritten with another host, since the insert leaves the id in the old
  bucket (`RehomedAppStaysListed`, `AddAppKeepsHostQueriesIff`).
* The members of an area are the entities that name it: not after an occupied
  area is removed and added again (`ReaddedAreaHasLostItsMembers`,
  `StepKeepsSetExactIff`).
* Buckets are in table order: not when a live entity without an area joins one
  that a later entity is already in (`LateJoinIsListedLast`,
  `StepKeepsExactIff`).
* Interleavings of providers that own disjoint refs end alike: the tables and the
  hosts do, the members of areas do not when one provider removes an area to
  which another adds a member for good (`IndexesAreNotConfluent`,
  `BucketsConfluentIff`).
* "Process exited before pattern matched": the closed flag is read after the
  lines were, so the matching line may have come in between. The report is bound
  to be right exactly when the flag is up by the end of the drain
  (`ExitCanMissAMatch`, `ExitIsFinalIff`).
* The `tags` parameter filters entities: is-located-on takes it and answers the
  component whatever its tags (`LocationIgnoresTags`, `TagsNarrowIff`).
* The server filters by what the client was told to ask for: if the query
  deserializer reads a lone `key=` as an absent list, a list of one empty value
  is lost on the way. What that dependency does is a parameter, and the condition
  is given for either reading (`LoneEmptyTagIsLost`, `FilterRoundTrip`).

Where comments and code disagree the model follows the code: there is no
`flush_events` (opensovd-core/src/topology.rs:401), events are flushed only when
the guard is dropped; and the server's encode set
(opensovd-server/src/routes/entities/mod.rs:77-94) leaves alone many characters
that are not unreserved, such as `&`, `=`, `+` and `;`.

## Model

| member | source | states |
|---|---|---|
| TopologyStore.EntryInsert | opensovd-core/src/topology.rs:60-65 | the id ends up in its bucket, keeping its place if it was there; no other bucket changes |
| TopologyStore.ShiftRemove | opensovd-core/src/topology.rs:71-78 | the id leaves its bucket, the others keep their order, and an emptied bucket is dropped |
| TopologyStore.TopologyState.InsertComponent | opensovd-core/src/topology.rs:59-67 | the new state of all six maps, as the model's operation |
| TopologyStore.TopologyState.RemoveComponent | opensovd-core/src/topology.rs:69-80 | the new state, and the removed entity if there was one |
| TopologyStore.TopologyState.InsertApp | opensovd-core/src/topology.rs:82-96 | the new state: only the new buckets are touched |
| TopologyStore.TopologyState.RemoveApp | opensovd-core/src/topology.rs:98-117 | the new state, and the removed app if there was one |
| TopologyStore.TopologyState.InsertArea | opensovd-core/src/topology.rs:119-121 | the new state: no bucket changes |
| TopologyStore.TopologyState.RemoveArea | opensovd-core/src/topology.rs:123-128 | the new state: the area's two buckets go, its members stay |
| TopologyStore.TopologyWriteGuard.AddComponent | opensovd-core/src/topology.rs:298-303 | mutates at once and queues exactly one addition of the entity, whether it was there or not |
| TopologyStore.TopologyWriteGuard.AddApp | opensovd-core/src/topology.rs:306-310 | mutates at once and queues exactly one addition of the entity, whether it was there or not |
| TopologyStore.TopologyWriteGuard.AddArea | opensovd-core/src/topology.rs:313-317 | mutates at once and queues exactly one addition of the entity, whether it was there or not |
| TopologyStore.TopologyWriteGuard.RemoveComponent | opensovd-core/src/topology.rs:320-325 | mutates at once and queues exactly one removal if the id was live, nothing otherwise |
| TopologyStore.TopologyWriteGuard.RemoveApp | opensovd-core/src/topology.rs:328-333 | mutates at once and queues exactly one removal if the id was live, nothing otherwise |
| TopologyStore.TopologyWriteGuard.RemoveArea | opensovd-core/src/topology.rs:336-341 | mutates at once and queues exactly one removal if the id was live, nothing otherwise |
| TopologyStore.TopologyWriteGuard.Drop | opensovd-core/src/topology.rs:344-350 | every queued event is sent once, in order, and none is left |
| ReverseIndex.PutKeepsSetExactIff | opensovd-core/src/topology.rs:59-96 | inserting an id keeps an exact index exact, as sets, if and only if no live id leaves the key it claims |
| ReverseIndex.PutKeepsExactIff | opensovd-core/src/topology.rs:59-96 | the same with order: in addition a first claim of a live id must not come behind a later claimant |
| ReverseIndex.DeleteKeepsExact | opensovd-core/src/topology.rs:69-117 | removing an id keeps every bucket equal to the ordered scan |
| ReverseIndex.ClearKeepsExactIff | opensovd-core/src/topology.rs:123-128 | dropping a bucket keeps the index exact if and only if nothing claims its key |
| ReverseIndex.StepWellFormed | opensovd-core/src/topology.rs:59-128 | no bucket is ever empty or holds an id twice, whatever happens to the index |
| TopologyModel.ApplyOnIndex | opensovd-core/src/topology.rs:59-128 | every operation acts on each of the three indexes as one insert, removal, clear or not at all, so what is proved of one index holds of all |
| TopologyRuns.ReachableInv | opensovd-core/src/topology.rs:59-128 | over all runs, host-changing overwrites included: keys are the ids of their entities, no bucket is empty or repeats an id, every live app is in its current host's bucket |
| TopologyRuns.QueriesYieldLive | opensovd-core/src/topology.rs:165-206 | relationship queries yield live entities only, each once |
| TopologyRuns.HostListsItsApps | opensovd-core/src/topology.rs:165-222 | if the component of an app is `c`, the app is among the apps of `c` |
| TopologyRuns.LookupsAnswer | opensovd-core/src/topology.rs:135-182 | a lookup finds the live entity under its id, and an error names the kind and id that is not live |
| TopologyRuns.RelationsAnswer | opensovd-core/src/topology.rs:213-254 | the host or area of an entity is the live one it names, none if that is not live, and an error exactly if the entity itself is not live |
| TopologyRuns.HostQueriesOverRuns | opensovd-core/src/topology.rs:82-171 | over every run that changes no live app's host, `apps_of_component` is the scan of `apps` filtered by host, in the same order |
| TopologyRuns.AddAppKeepsHostQueriesIff | opensovd-core/src/topology.rs:82-96 | adding an app keeps all host queries equal to the scan if and only if it changes no live app's host |
| TopologyRuns.RehomedAppStaysListed | opensovd-core/src/topology.rs:82-96 | two adds after which the old host lists an app that is located elsewhere |
| TopologyRuns.SoundOverRuns | opensovd-core/src/topology.rs:59-128 | over every run without re-homing, removals of occupied areas included, each id in a bucket is live and claims that key now |
| TopologyRuns.StepKeepsExactIff | opensovd-core/src/topology.rs:59-128 | one operation keeps an index equal to the ordered scan if and only if it neither re-homes, nor removes an occupied area, nor joins an area out of order |
| TopologyRuns.StepKeepsSetExactIff | opensovd-core/src/topology.rs:59-128 | the same for buckets as sets, where order does not matter |
| TopologyRuns.AreasExactOverRuns | opensovd-core/src/topology.rs:59-128 | over every run without re-homing and without removals of occupied areas, all buckets are exact as sets, and in order if no entity joins out of order |
| TopologyRuns.AreaQueriesOverRuns | opensovd-core/src/topology.rs:191-206 | over such runs `components_of_area` and `apps_of_area` are the ordered scans by area |
| TopologyRuns.AreaQueriesAreInverse | opensovd-core/src/topology.rs:191-254 | with exact indexes, an entity is listed by an existing area if and only if that area is the one it belongs to |
| TopologyRuns.LateJoinIsListedLast | opensovd-core/src/topology.rs:59-67 | three adds after which a bucket and the table disagree on order |
| TopologyRuns.ReaddedAreaHasLostItsMembers | opensovd-core/src/topology.rs:119-128 | a run after which a component belongs to an area that does not list it |
| TopologyRuns.RemovedAreaStaysEmpty | opensovd-core/src/topology.rs:123-128 | a removed area's queries are empty and stay so through every continuation that adds nothing naming it, even when the area itself returns |
| TopologyEvents.ReplayFollowsApply | opensovd-core/src/topology.rs:296-342 | replaying the events of one operation moves the three ordered key lists exactly as the operation does |
| TopologyEvents.EventsCountOps | opensovd-core/src/topology.rs:296-342 | a run announces each ref as often as it is added, overwrites included, and its removal as often as it is removed while live |
| TopologyEvents.OverlapIsHarmless | opensovd-core/src/topology.rs:380-386 | applying events to a snapshot that already reflects some of them gives the same set as applying every event once |
| TopologyGuards.SystemInvAlways | opensovd-core/src/topology.rs:282-410 | at every step of every interleaving, in the middle of a flush too, the events sent followed by those the holder still has replay to the ordered key lists of the tables; the state is that of the complete guards followed by the open one |
| TopologyGuards.ReadersSeeCommittedState | opensovd-core/src/topology.rs:262-286 | whenever a read guard can be held the sent log alone replays to the visible state, which is a whole number of guards |
| TopologyGuards.TraceAlways | opensovd-core/src/topology.rs:282-350 | over every schedule: the state is that of all mutations taken, in order; what was sent and is pending is exactly what they announce; each finished guard has one batch with its writer and what was done while it held the lock |
| TopologyGuards.BatchesHaveAll | opensovd-core/src/topology.rs:282-350 | the finished batches and the open guard together have every mutation, in order |
| TopologyGuards.LogCountsOps | opensovd-core/src/topology.rs:296-350 | over every schedule, each ref has as many additions sent or pending as it was added in batches and open guard, and as many removals as it was removed while live |
| TopologyGuards.LockAdmits | opensovd-core/src/topology.rs:388-410 | a new reader gets in exactly while no writer holds the lock, a writer exactly while nobody does |
| TopologyGuards.ReadersHoldStill | opensovd-core/src/topology.rs:262-267 | while one read guard is held, state and log stay as they are through every continuation |
| TopologyGuards.DroppingOnlyFlushes | opensovd-core/src/topology.rs:344-350 | a guard being dropped changes no table and only moves its pending events to the log, through every continuation up to its release |
| TopologyGuards.GuardRuns | opensovd-core/src/topology.rs:282-350 | from a free lock any operations can be done under one guard: all take effect, all are announced, one batch results |
| TopologyGuards.PictureIsHistory | opensovd-core/src/topology.rs:380-386 | a snapshot taken after subscribing, brought forward by everything received since subscribing, is the history up to the receiver's position |
| TopologyGuards.SubscribersConverge | opensovd-core/src/topology.rs:344-410 | a caught-up subscriber that never lagged holds exactly the live refs once it applies what the current writer has yet to flush, and without a writer at once |
| TopologyGuards.SubscriptionStarts | opensovd-core/src/topology.rs:380-386 | over every schedule, a subscription counts from the number of events sent when it was made |
| TopologyGuards.SnapshotIs | opensovd-core/src/topology.rs:388-395 | a snapshot has exactly the live refs at the time it is taken |
| TopologyGuards.ReceiveIs | opensovd-core/src/topology.rs:371-386 | a receiver gets the next event, or, having fallen behind, skips to the oldest the channel keeps |
| TopologyGuards.LaggedIff | opensovd-core/src/topology.rs:366-378 | a receiver has lagged if and only if one of its receives found more events waiting than the capacity |
| DiscoveryTask.StartProviders | opensovd-server/src/server.rs:427-435 | the streams of the providers that started, in order; a failing one is skipped |
| DiscoveryTask.RemoveEach | opensovd-server/src/server.rs:446-452 | the loop makes one removal per ref, by kind, with its state and its queued events |
| DiscoveryTask.ApplyUnderGuard | opensovd-server/src/server.rs:444-461 | one diff under one guard: the diff as a whole, queueing the effective removals in list order and then one addition per listed component, app and area |
| DiscoveryTask.ProcessEvents | opensovd-server/src/server.rs:441-468 | the loop leaves the registry as the items applied one after the other, errors skipped, and sends their events in order |
| DiscoveryTask.ItemsAreAnnounced | opensovd-server/src/server.rs:441-468 | the events the loop sends are those of all its calls, and replaying them follows the tables |
| Discovery.RemovesAsSet | opensovd-server/src/server.rs:446-452 | a list of removes takes the registry, tables and all three indexes, to one closed form that only depends on the set of refs |
| Discovery.RemoveOrderIrrelevant | opensovd-server/src/server.rs:446-452 | the order of refs in a remove list and repeats in it make no difference |
| Discovery.DiffKeepsIndexExactIff | opensovd-server/src/server.rs:444-461 | a diff leaves an exact index exact, as sets, if and only if the entities it lists under one id agree, an id that stays is not re-homed, and every member of a removed area is removed or listed |
| Discovery.DiffTables | opensovd-server/src/server.rs:444-461 | over the calls of a diff: live refs are (live minus removed) plus added, and the last add of a ref wins; `DiffEffects` says the same of the listed entities |
| DiffEffects.DiffComponents | opensovd-server/src/server.rs:444-461 | an id is among the components after a diff if and only if the diff lists it, or it was there and is not removed; the last listed entity with the id is found under it, an unlisted one is as it was |
| DiffEffects.DiffApps | opensovd-server/src/server.rs:444-461 | an id is among the apps after a diff if and only if the diff lists it, or it was there and is not removed; the last listed entity with the id is found under it, an unlisted one is as it was |
| DiffEffects.DiffAreas | opensovd-server/src/server.rs:444-461 | an id is among the areas after a diff if and only if the diff lists it, or it was there and is not removed; the last listed entity with the id is found under it, an unlisted one is as it was |
| DiffEffects.DiffKeys | opensovd-server/src/server.rs:444-461 | each table has the surviving keys in their old order and then the new ids in the order they first occur in the list |
| DiffEffects.DiffEvents | opensovd-server/src/server.rs:444-461 | the events of a diff are one removal per live ref at its first mention, in list order, then one addition per listed component, app and area |
| Discovery.LastOpDecides | opensovd-core/src/topology.rs:59-128 | what a run leaves under a ref is the outcome of the last operation on it |
| Interleavings.OwnerDecides | opensovd-server/src/server.rs:440-467 | with disjoint owners, what ends up under a ref is what its owner's stream alone would leave |
| Interleavings.InterleavingsConfluent | opensovd-server/src/server.rs:427-467 | any two interleavings of streams over disjoint refs end with the same three tables |
| Interleavings.StreamsDecide | opensovd-server/src/server.rs:440-467 | unless two providers race for it, whether a bucket lists an id follows from the owners' streams run alone |
| Interleavings.BucketsConfluentIff | opensovd-server/src/server.rs:427-467 | all interleavings of streams over disjoint refs leave the same ids in the same buckets if and only if there is no area and member with different owners such that the area's owner alone would remove the live area and the member's owner alone would put the member there and not delete it again while it is there |
| Interleavings.RaceWon | opensovd-server/src/server.rs:427-467 | with the member's owner after all others, the area lists the member of a race |
| Interleavings.RaceLost | opensovd-server/src/server.rs:427-467 | with the member's owner before all others, it does not |
| Interleavings.HostQueriesConfluent | opensovd-server/src/server.rs:427-467 | disjoint refs alone make the host index and every component's set of apps end alike |
| Interleavings.IndexesAreNotConfluent | opensovd-server/src/server.rs:427-467 | two interleavings of the same two streams over disjoint refs that leave an area with and without its member |
| DiscoveryTask.TaskInvAlways | opensovd-server/src/server.rs:441-476 | at every point of every interleaving with other users and shutdown, the discovery task's guards did exactly the diffs it pulled, less the one in flight or abandoned |
| DiscoveryTask.ReadersSeeWholeDiffs | opensovd-server/src/server.rs:441-476 | every state a reader can see is made of whole diffs; cancellation drops a diff entirely or keeps it entirely |
| DiscoveryTask.ReadersSeeExactIndexes | opensovd-server/src/server.rs:441-476 | with discovery the only writer and coherent diffs, no reader ever sees an inexact index, although single calls within a diff may break one |
| DiscoveryTask.StoppedIsFinal | opensovd-server/src/server.rs:469-476 | after shutdown the discovery task neither pulls nor writes again, whatever others do |
| DiscoveryTask.ShutDownIff | opensovd-server/src/server.rs:469-476 | in every reachable state shutdown can be taken if and only if discovery runs and does not hold the lock |
| DiscoveryTask.WholeDiffRuns | opensovd-server/src/server.rs:441-468 | with the lock free the next diff can be pulled, applied, announced and recorded in whole, with the effect of the loop |
| DiscoveryTask.OthersAreFree | opensovd-server/src/server.rs:441-468 | discovery keeps others from nothing but the lock while it holds it |
| TlsListener.InvAlways | opensovd-server/src/tls.rs:35-102 | in every reachable state streams and permits are conserved, the queue is bounded, and hand-over is first in, first out |
| TlsListener.HistoryIs | opensovd-server/src/tls.rs:58-84 | a stream counts as arrived, completed, failed or timed out if and only if that step was taken for it |
| TlsListener.RejectedIff | opensovd-server/src/tls.rs:60-89 | a stream is turned away if and only if it arrives while 256 tasks are live |
| TlsListener.CallsReturnOne | opensovd-server/src/tls.rs:53-102 | streams are queued in the order they are sent, each call of `accept` returns one, each TCP error pauses once |
| TlsListener.SelectIsOpen | opensovd-server/src/tls.rs:53-102 | a waiting `accept` is open to every TCP event and to the head of the queue; a send waits only while 256 are queued; every handshake can complete, fail or time out |
| TlsListener.ConnectionIsReturned | opensovd-server/src/tls.rs:53-102 | the whole life of a successful connection at an idle listener, and nothing else changed by it |
| TlsListener.ConnectionIsDropped | opensovd-server/src/tls.rs:53-102 | a failed or timed-out connection gives its permit back and leaves nothing in the queue |
| TlsListener.EachStreamInOnePlace | opensovd-server/src/tls.rs:35-102 | each stream that was accepted is in exactly one place; none is returned twice, or unless a completed handshake of it was among the steps and no failed or timed-out one; order of returns is order of sends; permits and live tasks make 256; at most 512 streams are held inside |
| TlsListener.StalledHandshakesDoNotBlock | opensovd-server/src/tls.rs:53-95 | in every reachable state the select can take a new connection, however many handshakes stall, and rejects it if and only if 256 tasks are live |
| TlsListener.QuietStepExists | opensovd-server/src/tls.rs:53-102 | short of a drained listener some step other than a TCP event can be taken, so no sender is stuck for good |
| TlsListener.QuietRunsDrain | opensovd-server/src/tls.rs:53-102 | without new TCP events every run is bounded by a measure and can go no further if and only if the listener is drained; by then exactly the streams whose handshake completed among the steps have been returned, in the order they were sent, and 256 permits are free |
| DataProvider.FilterSeenIsFirsts | opensovd-core/src/data.rs:96-100 | filtering by a mutable `seen` set keeps exactly the first occurrence of each key, in order |
| DataProvider.FilterSeenKeys | opensovd-core/src/data.rs:96-100 | every key that was not seen before is kept, once, and nothing else |
| DataProvider.DefaultsKeepFirsts | opensovd-core/src/data.rs:92-145 | each default query is the first-occurrence list of the categories, groups or tags in list order |
| DataProvider.FirstsInOrder | opensovd-core/src/data.rs:96-100 | what is kept stands in the order of first occurrence |
| DataProvider.CategoryEntryIs | opensovd-core/src/data.rs:94-105 | each category entry has the category and translation of the first resource of that category, in the order of those resources |
| DataProvider.CategoriesAreListed | opensovd-core/src/data.rs:94-105 | a category is listed if and only if some resource has it |
| DataProvider.GroupsOfOneMore | opensovd-core/src/data.rs:109-128 | the groups gathered from one more resource that fits the filter come last, in its own order, with its category |
| DataProvider.TagsOfOneMore | opensovd-core/src/data.rs:132-145 | the tags gathered from one more resource come last, in its own order |
| DataProvider.TagsAreDistinct | opensovd-core/src/data.rs:130-145 | the tags listed are exactly the tags of some resource, each once |
| DataProvider.GroupsAreDistinct | opensovd-core/src/data.rs:109-128 | group ids are distinct and each entry carries the category of a resource that has the group |
| DataProvider.GroupIdsAre | opensovd-core/src/data.rs:109-128 | a group is listed if and only if some resource of the category asked for has it |
| DataProvider.GroupsAreUnionOverCategories | opensovd-core/src/data.rs:109-128 | the ids of all groups are exactly the union over categories of that category's, whose entries all carry it |
| ProviderBuilder.DataProviderBuilder.ReadData | opensovd-providers/src/data/builder.rs:113-137 | appends a readable resource without groups, tags or translation |
| ProviderBuilder.DataProviderBuilder.WriteData | opensovd-providers/src/data/builder.rs:143-167 | appends a writable resource without groups, tags or translation |
| ProviderBuilder.DataProviderBuilder.Data | opensovd-providers/src/data/builder.rs:174-199 | appends a readable and writable resource without groups, tags or translation |
| ProviderBuilder.DataProviderBuilder.Groups | opensovd-providers/src/data/builder.rs:203-208 | sets the groups of the last resource only, and does nothing if there is none |
| ProviderBuilder.DataProviderBuilder.Tags | opensovd-providers/src/data/builder.rs:212-217 | sets the tags of the last resource only, and does nothing if there is none |
| ProviderBuilder.DataProviderBuilder.TranslationId | opensovd-providers/src/data/builder.rs:221-226 | sets the translation of the last resource only, and does nothing if there is none |
| ProviderBuilder.DataProviderBuilder.Schema | opensovd-providers/src/data/builder.rs:233-238 | sets the schema of the last resource only, and does nothing if there is none |
| ProviderBuilder.DataProviderBuilder.Build | opensovd-providers/src/data/builder.rs:245-254 | fails if and only if ids repeat, naming the earliest entry that repeats a previous one; otherwise keeps all resources in registration order |
| ProviderBuilder.SettersMakeOneResource | opensovd-providers/src/data/builder.rs:113-238 | a registration and the setters up to the next make one resource: its own id, name, category and adapter, and of each other attribute what was set last; earlier resources stay |
| ProviderBuilder.NothingToSet | opensovd-providers/src/data/builder.rs:203-238 | setters before any registration do nothing |
| ProviderBuilder.FlagsAgreeOverCalls | opensovd-providers/src/data/builder.rs:59-100 | over every sequence of builder calls, setters included, a resource is flagged readable or writable if and only if its adapter does not refuse that access; the flags set on registration are stated by `ReadData`, `WriteData` and `Data` |
| ProviderBuilder.ListPredictsAccess | opensovd-providers/src/data/builder.rs:281-312 | a read or write of a listed resource is refused if and only if the listed flag says so, a write as read-only and a read as an internal error |
| ProviderBuilder.UnlistedIsNotFound | opensovd-providers/src/data/builder.rs:263-312 | an access is answered with not found if and only if the unfiltered list has no such id |
| ProviderBuilder.BuiltDataProvider.Categories | opensovd-providers/src/data/builder.rs:315-326 | the override equals the trait's default computed from the unfiltered list |
| ProviderBuilder.BuiltDataProvider.Groups | opensovd-providers/src/data/builder.rs:328-350 | the override equals the trait's default, for every category filter |
| ProviderBuilder.BuiltDataProvider.Tags | opensovd-providers/src/data/builder.rs:352-365 | the override equals the trait's default |
| ProviderBuilder.KeepUnseen | opensovd-providers/src/data/builder.rs:316-320 | threading the set through a stretch of entries keeps the meaning of what is still to come |
| ProviderBuilder.ListIsSublist | opensovd-providers/src/data/builder.rs:267-288 | a filtered list is the sublist, in registration order, of the resources that match |
| ProviderBuilder.ListIsUnionOverTags | opensovd-providers/src/data/builder.rs:267-288 | a list over several tags is the union of the lists over each |
| PercentEncoding.DecodeEncode | opensovd-client/src/client.rs:406-409 | decoding undoes encoding for every set that encodes the percent sign |
| PercentEncoding.EncodedOctets | opensovd-client/src/client.rs:406-409 | encoded text holds only octets outside the set, hex digits and percent signs |
| PercentEncoding.PathSegmentSetIs | opensovd-server/src/routes/entities/mod.rs:79-94 | the server encodes all but unreserved octets, sub-delimiters and three more; the client in addition encodes all but letters and digits |
| PercentEncoding.EscapesAre | opensovd-client/src/client.rs:406-409 | an escape is a percent sign and two upper-case hexadecimal digits |
| PercentEncoding.DecodesOnlyEscapes | opensovd-server/src/routes/mod.rs:97-116 | only a percent sign before two hexadecimal digits starts an escape, any other octet stands for itself |
| PercentEncoding.DecodesEitherCase | opensovd-server/src/routes/mod.rs:97-116 | decoding reads hexadecimal letters of either case |
| PercentEncoding.SegmentsRoundTrip | opensovd-server/src/routes/entities/mod.rs:79-99 | the server's and the client's encodings of any id both decode to it, and neither contains a delimiter |
| FilterQuery.TrailingSlashIrrelevant | opensovd-client/src/client.rs:411-426 | a base URI with and without a trailing slash gives the same URI |
| FilterQuery.BuildUriWithQuery | opensovd-client/src/client.rs:411-435 | base, path and query joined with one slash, one question mark and ampersands |
| FilterQuery.QueriesJoin | opensovd-client/src/client.rs:428-435 | pairs are printed as key, equals sign and value, joined by ampersands |
| FilterQuery.RequestUriIs | opensovd-client/src/data.rs:65-84 | a request that asks for nothing has no query, any other has it after one question mark |
| FilterQuery.ListDataRequest.Send | opensovd-client/src/data.rs:65-84 | the URI printed: groups, categories and tags in order, then the schema flag, each value encoded |
| FilterQuery.ParsePrintedQuery | opensovd-client/src/client.rs:428-435 | form decoding a printed query gives back keys and values, in order |
| FilterQuery.PlusIsSpace | opensovd-server/src/routes/data.rs:156-164 | form decoding reads a plus sign as a space |
| FilterQuery.FragmentIsIgnored | opensovd-server/src/routes/data.rs:156-164 | a fragment is no part of the query |
| FilterQuery.QueryRoundTrip | opensovd-client/src/data.rs:64-84 | for every request, empty values included, parsing the printed query gives back all its pairs |
| FilterQuery.FilterRoundTrip | opensovd-server/src/routes/data.rs:134-154 | for every request, the server resolves the client's URI to the groups scope if any, else the categories scope if any, else none, with the same tags and schema flag, over the lists the deserializer sees; that is exactly what was asked for if and only if a lone empty value is seen or no deciding list consists of one |
| FilterQuery.LoneEmptyTagIsLost | opensovd-client/src/data.rs:65-84 | a request for one empty tag that resolves to no filter if a lone empty value is read as an absent list |
| FilterQuery.ServerListsWhatWasAsked | opensovd-server/src/routes/data.rs:156-194 | end to end, for every request: the provider lists, in registration order, exactly the resources in a group that was asked for and seen, or else category, and with such a tag |
| EntityRoutes.CollectArea | opensovd-server/src/routes/entities/component.rs:173-209 | an unknown entity is an error, no area an empty answer, an area that passes the tag filter the one item |
| EntityRoutes.CollectContents | opensovd-server/src/routes/entities/area.rs:105-162 | an unknown area is an error, otherwise components and then apps, each filtered |
| EntityRoutes.SegmentRoutes | opensovd-server/src/routes/mod.rs:97-116 | a path of mount path, version, collection and one encoded segment routes to its id, unless that is empty |
| EntityRoutes.HrefRoutesIff | opensovd-server/src/routes/mod.rs:80-95 | for every mount path, the path of a link, which ends at a query or fragment, routes back to the entity the link was made for if and only if the id is not empty |
| EntityRoutes.HrefIs | opensovd-server/src/routes/mod.rs:80-95 | a link is scheme, host, mount path, version 1, the collection of the kind and the encoded id |
| EntityRoutes.PathEndsAtQuery | opensovd-server/src/routes/mod.rs:97-116 | neither a query nor a fragment is part of a path that is routed |
| EntityRoutes.ClientPathRoutes | opensovd-client/src/client.rs:406-409 | the client's stricter encoding reaches the same entity |
| EntityRoutes.EveryLinkLeads | opensovd-server/src/routes/entities/component.rs:40-209 | in every reachable topology every link of every list, hosts, location, belongs-to and contents answer leads to a live entity with that id |
| EntityRoutes.TagsNarrowIff | opensovd-server/src/routes/entities/app.rs:118-146 | with tags an endpoint answers the items of its untagged answer that carry one of them, in order, and fails in the same cases, if and only if it is not asked for the location of an app on a component that carries none of them |
| EntityRoutes.TaggedAnswersAre | opensovd-server/src/routes/entities/component.rs:49-52 | an item is in a tagged answer if and only if it is in the untagged one and carries at least one of the tags |
| EntityRoutes.TagsAreUnion | opensovd-server/src/routes/entities/component.rs:49-52 | the answer for several tags has the items of the answers for each |
| EntityRoutes.RequestsFailIff | opensovd-server/src/routes/entities/component.rs:129-209 | a request about an entity fails, naming its id, if and only if the entity is not live, or for a location if its host is not; lists never fail |
| EntityRoutes.HostsAreApps | opensovd-server/src/routes/entities/component.rs:132-166 | without tags the hosts of a component are all its apps, in order |
| EntityRoutes.BelongsToIsArea | opensovd-server/src/routes/entities/component.rs:173-209 | without tags an entity belongs to its live area, if any |
| EntityRoutes.LocationIgnoresTags | opensovd-server/src/routes/entities/app.rs:118-146 | an app whose location is answered although its component carries no tag at all |
| EntityRoutes.HostsInverseOfLocation | opensovd-server/src/routes/entities/app.rs:118-146 | an app is among a component's hosts if and only if its location is that component |
| EntityRoutes.ContentsInTwoParts | opensovd-server/src/routes/entities/area.rs:105-162 | an area's contents are all its components and then all its apps |
| EntityRoutes.ContentsInverseOfComponentArea | opensovd-server/src/routes/entities/component.rs:173-209 | a component is among an area's contents if and only if it belongs to that area |
| EntityRoutes.ContentsInverseOfAppArea | opensovd-server/src/routes/entities/app.rs:151-187 | an app is among an area's contents if and only if it belongs to that area |
| EntityRoutes.ItemsDescribe | opensovd-server/src/routes/entities/component.rs:52-65 | an item gives its entity's id, name, translation and non-empty tags, and a link that leads back |
| EntityRoutes.ComponentsListed | opensovd-server/src/routes/entities/component.rs:40-70 | the collection lists the whole table, position by position |
| EntityRoutes.AppsListed | opensovd-server/src/routes/entities/app.rs:37-68 | the collection lists the whole table, position by position |
| EntityRoutes.AreasListed | opensovd-server/src/routes/entities/area.rs:36-67 | the collection lists the whole table, position by position |
| OutputWaiter.ProcessUnderTest.Drain | opensovd-e2e/src/opensovd_e2e/process.py:235-240 | finds the first unread match and reads no further, or reads everything and finds that nothing matches |
| OutputWaiter.InvAlways | opensovd-e2e/src/opensovd_e2e/process.py:209-283 | in every interleaving, past the drain an unread line or a close has set the event or is about to, and calls keep to the order of lines |
| OutputWaiter.NoLostWakeUp | opensovd-e2e/src/opensovd_e2e/process.py:231-248 | a blocked waiter with a line to read or a close to see can wake now or after the reader's next step |
| OutputWaiter.CallsReadInOrder | opensovd-e2e/src/opensovd_e2e/process.py:209-248 | across all calls each line is examined at most once and in order, each call starts where the last ended, each match is the first since |
| OutputWaiter.StepEnds | opensovd-e2e/src/opensovd_e2e/process.py:229-248 | a step ends a call as matched, exited or timed out, and records it, only with a matching line, the flag up, or the deadline past; no other step touches the outcomes |
| OutputWaiter.OutcomesHaveCauses | opensovd-e2e/src/opensovd_e2e/process.py:229-248 | over every schedule, each recorded outcome was caused so by a step that was taken |
| OutputWaiter.ChecksThenWaits | opensovd-e2e/src/opensovd_e2e/process.py:241-248 | with the flag down the waiter goes on to the deadline, and before that it waits; with the flag up, or late, it gives up |
| OutputWaiter.LoopOrder | opensovd-e2e/src/opensovd_e2e/process.py:229-248 | every step of the waiter comes right after one that precedes it in the loop: clear, drain, flag, deadline, wait |
| OutputWaiter.SharedStateIs | opensovd-e2e/src/opensovd_e2e/process.py:269-283 | lines, event and flag are exactly what the steps taken made them |
| OutputWaiter.LockExcludes | opensovd-e2e/src/opensovd_e2e/process.py:235-240 | no line is appended while the waiter drains, and nothing else keeps the reader from going on |
| OutputWaiter.WaiterMoves | opensovd-e2e/src/opensovd_e2e/process.py:229-248 | a waiter in a call always has a step to take |
| OutputWaiter.ExitIsReported | opensovd-e2e/src/opensovd_e2e/process.py:235-242 | a waiter that finds the closed flag up reports an exit, having examined just the lines that were there when its drain ended |
| OutputWaiter.ExitIsFinalIff | opensovd-e2e/src/opensovd_e2e/process.py:231-242 | at the end of a drain, however the reader goes on, a report of an exit will be right if and only if the closed flag is up by then, or no line can match the pattern at all |
| OutputWaiter.ExitCanMissAMatch | opensovd-e2e/src/opensovd_e2e/process.py:241-242 | an interleaving in which the awaited line was printed and the exit is reported |

## Left out

- FilterQuery.FilterRoundTrip: which of the two readings of a lone empty value the deserializer has, because that code is not part of this repository; base URIs and paths that already hold a query or a fragment.
- TopologyGuards.SubscribersConverge: receivers that lag are excluded; one that skipped events has no way to know what it missed. The channel's capacity is a parameter, and its rounding by the library is not modelled.
- DiscoveryTask.TaskInvAlways: the discovery task starts with its merged stream in hand. Starting the providers is `StartProviders`, which shutdown cannot interrupt; the merge is an arbitrary interleaving, and having no stream at all is the empty one.
- TlsListener.InvAlways: the TLS listener is a state machine on values, not a class, because its tasks run beside the accept loop. Sockets, addresses, the length of the timeout and of the pause after a TCP error, and tasks that outlive a dropped listener are not modelled.
- OutputWaiter.ProcessUnderTest.Drain: only the part of `wait_for` that runs under the lock is a method on a mutable object; the loop around it interleaves with the reader thread and is a state machine. One waiter at a time; deadlines are a nondeterministic choice.
- EntityRoutes.EveryLinkLeads: entities with an empty id are passed over, as nothing routes to them (`HrefRoutesIff`); dot segments (`.` and `..`) that a client may normalise are not modelled, nor are non-UTF-8 escapes, nor hosts, schemes and mount paths that hold a delimiter of their own.
- EntityRoutes.CollectArea: axum extractors, JSON and the schema flag are left out; list handlers are functions of one snapshot, as in the source they are iterator expressions.
- The capability endpoints: a few branches over the same queries.
- Reading and writing data resources: user code behind a trait; only what the adapter or the lookup answers without it is kept.
- Entity metadata maps, the data providers of entities, and conversion of categories: carried along unchanged.
- Authentication, authorization, mTLS setup, CORS, mount path normalisation and mapping of errors to status codes.
- The client's transport, timeouts and cached discovery, the MCP server, the command line, logging and signals.
