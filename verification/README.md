# Drasi: streams, views and configuration, verified

A Dafny model of the parts of the Drasi platform whose correctness spans several components, with
proofs about whole runs.

* A change stream over a Redis consumer group (`ChangeStream`, `RedisChangeStream`): pending entries
  are reread first, new ones are prefetched into a bounded buffer, one entry is held until it is
  acknowledged, and sessions end at any moment.
* The view store (`ViewCollection`, `ViewStore`): query results kept as rows with validity intervals,
  read at a timestamp. `ReplayAbsorption` shows what interrupted and repeated recordings leave behind,
  `TimeTravel` what a read at a past time shows, `SnapshotReads` what a read shows while a writer is at
  work, `GarbageCollection` what trimming an expiring view does to later reads.
* The view worker over both (`ViewService`): the rows are those of the acknowledged events applied
  once, in log order, through every crash, restart and failed acknowledgement. `ViewWorker` is the
  worker's program on the stream object and the store, whose lives are runs of that machine, and
  `ViewActor` what starts it again.
* The query worker over the stream (`QueryHost`), its loop as a program (`QueryLoop`), its life
  (`QueryWorker`), its sequence numbers (`SequenceManager`), and the sorting of query contexts into an
  event (`Splitting`).
* The whole way (`EndToEnd`): what the view endpoint returns is the fold of the query's contexts.
* Smaller cores: the result table of the command line tool (`ResultTable`), stores as environment
  variables (`StorageConfig`), ingress settings (`IngressAnnotations`), the debounced reconcile loop
  (`Debounce`). `Results` and `Wrappers` hold shared definitions.

Rows are sequences of named JSON values in the order of the map that holds them. The hash of a row is
modelled by what is fed into the hasher, field by field. Timestamps are unbounded integers up to
`MAX_TIMESTAMP`. Clocks, the failure of calls and the outcome of query processing are parameters or
free choices of a step.

## What holds only under a condition

* A read at a past time is right if and only if no write hit a row opened at an earlier timestamp
  (`TimeTravel.TimeTravelExact`): such a write replaces the row in place, and the reads between the old
  start and the write lose it for good. Two changes that add the same row are enough
  (`EndToEnd.SameRowTwiceLosesHistory`).
* A header and the rows read with it belong together, in every interleaving, if and only if each call is
  unseen from the metadata time: it removes no row opened by then, and at that very time it changes
  nothing (`SnapshotReads.NeverTornExact`, `SnapshotReads.ReaderExact`). Two changes in one millisecond can
  break it (`SnapshotReads.EqualTimesTear`).
* Trimming is invisible to every read still accepted if and only if each round spares the rows valid at
  the metadata time (`GarbageCollection.CollectorExact`). Between events this always holds
  (`GarbageCollection.CollectorInvisible`); in the middle of an event whose time lies before the epoch it
  can fail (`GarbageCollection.MidEventLoss`).
* If Redis has acknowledged an event but the reply is lost, the event is served again. Ending that
  replay halfway is seen by no read if and only if every key it touched was left as the whole event
  leaves it (`ViewService.UnnoticedAckExact`, `ReplayAbsorption.AbandonedReplay`). There is a run that
  loses a row this way, and nothing serves the event a third time (`ViewService.UnnoticedAckLosesRow`).
* Over whole runs the view's effect is exactly once, whenever no attempt is under way, if and only if no
  such replay ended harmfully (`ViewService.ExactlyOnceExact`).
* An acknowledged source change has its results in the result topic, or had none, if and only if it was
  not acknowledged on an answer with an error status while nothing had arrived
  (`QueryHost.NothingLostExact`): the publisher takes any answer for a success, whatever its status. There
  is a run that loses results this way (`QueryHost.ErrorStatusLosesResults`); without error statuses
  nothing is lost (`QueryHost.SuccessLosesNothing`).
* The sorted lists of an event have the effect of the query's contexts if and only if they end each key
  with the same call and, where history is kept, begin it with one of the same kind
  (`Splitting.StoreOrderExact`, `Splitting.ToolOrderExact`).
* A sequence manager closed without an increment overwrites the stored number with the default
  (`SequenceManager.ClosedStoresLast`, `SequenceManager.ClosedUnusedLosesNumber`).
* Annotations survive the string form if and only if keys and values are trimmed and without commas,
  and keys without `=` (`IngressAnnotations.AnnotationRoundTrip`).
* The result table puts a new group into slot 0, because its first result names no old row. A message
  is shown rightly if and only if it brings no more new groups than slot 0 has room for
  (`ResultTable.TableReplaysContexts`); the second group takes the slot from the first
  (`ResultTable.TwoNewGroupsLoseARow`).

## Model

| member | source | states |
|---|---|---|
| ChangeStream.LogDecomposition | query-container/query-host/src/change_stream/redis_change_stream.rs:70-198 | In every state of every run with crashes and restarts, acknowledged, held, dropped, buffered, in-flight, unread pending and unclaimed entries concatenate to the log |
| ChangeStream.PrefetchBound | query-container/query-host/src/change_stream/redis_change_stream.rs:61-132 | Claimed but unacknowledged entries never exceed one plus the buffer size plus the batch size, over all sessions |
| ChangeStream.ServesNext | query-container/query-host/src/change_stream/redis_change_stream.rs:147-169 | What the consumer is handed is the first unacknowledged entry, except for an entry whose acknowledgement went unanswered |
| ChangeStream.RestartServesUnacked | query-container/query-host/src/change_stream/redis_change_stream.rs:81-109 | A new session rereads exactly the unacknowledged part of the log, in order |
| ChangeStream.Delivery | query-container/query-host/src/change_stream/redis_change_stream.rs:81-132 | The reader is never stuck: an unacknowledged entry reaches a waiting consumer within four steps |
| ChangeStream.AckEffect | query-container/query-host/src/change_stream/redis_change_stream.rs:171-198 | An acknowledgement moves exactly the held entry to the acknowledged ones, or nothing if Redis already had it |
| RedisChangeStream.RedisChangeStream.constructor | query-container/query-host/src/change_stream/redis_change_stream.rs:37-142 | A new stream object is the protocol's new session, with nothing held or buffered |
| RedisChangeStream.RedisChangeStream.ReadPendingBatch | query-container/query-host/src/change_stream/redis_change_stream.rs:82-109 | One round of recovery is the protocol's ReadPending step |
| RedisChangeStream.RedisChangeStream.ReadNewBatch | query-container/query-host/src/change_stream/redis_change_stream.rs:111-131 | One read of new entries is the protocol's ReadNew step |
| RedisChangeStream.RedisChangeStream.PushNext | query-container/query-host/src/change_stream/redis_change_stream.rs:223-245 | Handing one entry to the channel is the protocol's Push step |
| RedisChangeStream.RedisChangeStream.Recv | query-container/query-host/src/change_stream/redis_change_stream.rs:147-169 | Serves the held entry again, else takes the next one; an undecodable entry is dropped with an error |
| RedisChangeStream.RedisChangeStream.Ack | query-container/view-svc/src/change_stream/redis_change_stream.rs:172-199 | Only the held entry can be acknowledged, and it stays held unless Redis confirms |
| Results.GroupKeyExact | query-container/view-svc/src/mongo_view_store.rs:458-469 | Rows of an aggregation share a key exactly when they agree on every grouping field |
| ViewCollection.OneOpenKept | query-container/view-svc/src/mongo_view_store.rs:157-294 | At most one open row per key, after any calls |
| ReplayAbsorption.BatchEffect | query-container/view-svc/src/mongo_view_store.rs:157-294 | Of the calls of one event, the last on a key decides its open row and the first decides whether the old row becomes history |
| ReplayAbsorption.ReplayAbsorbed | query-container/view-svc/src/mongo_view_store.rs:141-318 | Any number of interrupted attempts and then the whole event leave the view of the event applied once, under every policy |
| ReplayAbsorption.PrefixThenWhole | query-container/view-svc/src/mongo_view_store.rs:141-318 | After any prefix of the calls and then all of them, every read gives the rows of a single application |
| ReplayAbsorption.AbandonedReplay | query-container/view-svc/src/mongo_view_store.rs:141-318 | Calls repeated after the complete event and abandoned are seen by no read exactly when each touched key ends as the event leaves it |
| ReplayAbsorption.SameViewReads | query-container/view-svc/src/mongo_view_store.rs:362-370 | Collections that differ in documents with an empty interval only answer every read alike |
| ReplayAbsorption.SameViewExact | query-container/view-svc/src/mongo_view_store.rs:353-370 | Two collections answer all reads alike if and only if they have the same open rows and the same non-empty history |
| TimeTravel.IntervalInvariant | query-container/view-svc/src/mongo_view_store.rs:157-294 | With nondecreasing times the non-empty intervals of a key are disjoint and at most one row is open |
| TimeTravel.OpenRowsPolicyFree | query-container/view-svc/src/mongo_view_store.rs:157-294 | The open rows after the same calls are the same under Latest, Expire and All |
| TimeTravel.PresentReads | query-container/view-svc/src/mongo_view_store.rs:353-370 | Under every policy, a read at or after all calls shows the plain fold, each row once, even if the times of the calls are not in order |
| TimeTravel.HistoryReads | query-container/view-svc/src/mongo_view_store.rs:353-370 | Without a write on a row opened earlier, a read at any time shows the fold of the calls up to that time |
| TimeTravel.TimeTravelExact | query-container/view-svc/src/mongo_view_store.rs:141-370 | Reads at all times are right if and only if no write hit a row opened at an earlier time |
| TimeTravel.CallUnseenExact | query-container/view-svc/src/mongo_view_store.rs:157-294 | Under every policy, one call leaves the reads at all times up to m right if and only if it is unseen from m |
| SnapshotReads.ReaderExact | query-container/view-svc/src/mongo_view_store.rs:141-370 | A reader with its header in hand keeps finding the state it names if and only if each call issued meanwhile is unseen from the header time |
| SnapshotReads.NeverTornExact | query-container/view-svc/src/mongo_view_store.rs:141-370 | In every state of a run header and rows belong together if and only if each call was unseen from the metadata time in force |
| SnapshotReads.SnapshotRead | query-container/view-svc/src/mongo_view_store.rs:320-370 | When each change is later than the metadata and no write hits a row opened earlier, the row query, at the requested time or at the header time if that is earlier, returns the fold the header named, in every interleaving |
| SnapshotReads.LiveAbsorbs | query-container/view-svc/src/mongo_view_store.rs:157-294 | Cut-off attempts do not show in the fold once the whole event has been applied |
| SnapshotReads.EqualTimesTear | query-container/view-svc/src/mongo_view_store.rs:141-370 | A run with two changes at one time, in which a reader finds neither the state before the second nor the one after it |
| GarbageCollection.TrimExact | query-container/view-svc/src/mongo_view_store.rs:512-547 | Trimming is invisible to all reads still accepted exactly when no row valid at the metadata time ended more than the retention time before now |
| GarbageCollection.CollectorExact | query-container/view-svc/src/mongo_view_store.rs:353-370 | Over whole runs with a collector at any moment, all accepted reads are right if and only if each round spares the rows valid at the metadata time |
| GarbageCollection.CollectorInvisible | query-container/view-svc/src/mongo_view_store.rs:353-370 | A collector that runs between events, or behind the metadata, changes no accepted read over whole runs |
| GarbageCollection.MidEventLoss | query-container/view-svc/src/mongo_view_store.rs:512-547 | A run in which the collector, in the middle of an event older than the epoch, removes a row that the metadata still names |
| ViewStore.MongoViewStore.constructor | query-container/view-svc/src/mongo_view_store.rs:48-73 | A new store knows no policy and no collection |
| ViewStore.MongoViewStore.InitView | query-container/view-svc/src/mongo_view_store.rs:86-112 | The policy is set even when creating the indexes fails |
| ViewStore.MongoViewStore.DeleteView | query-container/view-svc/src/mongo_view_store.rs:124-139 | The policy is forgotten first, then the collection is dropped; other views are untouched |
| ViewStore.MongoViewStore.RecordChange | query-container/view-svc/src/mongo_view_store.rs:141-318 | Without a policy nothing happens; else exactly the calls before a failure take effect, deletes, updates, adds, and on success the metadata name the change and keep the state |
| ViewStore.EventOpsAt | query-container/view-svc/src/mongo_view_store.rs:157-294 | The calls of an event: each deleted row is closed under its values first, each added row is put under its values last, the updates in between |
| ViewStore.MongoViewStore.GetView | query-container/view-svc/src/mongo_view_store.rs:320-397 | Header and rows, each document valid at the requested time once, or at the metadata time if that is earlier; and each error case, the refusal for age exactly when the requested time lies more than the retention time, in seconds, before now |
| ViewStore.MongoViewStore.SetState | query-container/view-svc/src/mongo_view_store.rs:399-431 | Replaces the metadata and leaves the rows |
| ViewStore.MongoViewStore.CollectGarbage | query-container/view-svc/src/mongo_view_store.rs:512-547 | In exactly the expiring views whose deletion does not fail, exactly the documents that ended more than the retention time, in seconds, before now are gone; nothing else changes |
| ViewService.ExactlyOnceEffect | query-container/view-svc/src/view_worker.rs:109-191 | Whenever no attempt is under way, through crashes within recording, between recording and acknowledging, refused acknowledgements and restarts, reads at every timestamp give the acknowledged events applied once, unless a replay of an event acknowledged unnoticed ended harmfully |
| ViewService.ExactlyOnceExact | query-container/view-svc/src/view_worker.rs:109-191 | Over whole runs all states without an attempt under way are exact if and only if no such replay ended harmfully |
| ViewService.MetadataNamesLast | query-container/view-svc/src/mongo_view_store.rs:296-317 | Whenever no attempt is under way and a change was acknowledged last, the stored metadata name that change |
| ViewService.UnnoticedAckExact | query-container/view-svc/src/view_worker.rs:179-181 | Ending a replay of an event acknowledged unnoticed keeps every read right if and only if each key its calls touched ends as the event leaves it |
| ViewService.UnnoticedAckLosesRow | query-container/view-svc/src/view_worker.rs:129-181 | A run that ends with the whole log acknowledged and a written row lost |
| ViewService.RejectedUntilRestart | query-container/view-svc/src/view_worker.rs:147-170 | After the view is deleted no change is recorded until the worker starts again |
| ViewWorker.Worker.Process | query-container/view-svc/src/view_worker.rs:145-176 | By signal: a change is recorded if there is a policy; the start of a bootstrap and the deletion of the query leave no policy, and without a fault no row and no metadata; the other signals leave policy and rows and store the state of that name. Each failure is a step of the machine |
| ViewWorker.Worker.Turn | query-container/view-svc/src/view_worker.rs:129-184 | One message, received, processed and acknowledged in that order, with every way it can fail |
| ViewWorker.Worker.Start | query-container/view-svc/src/view_worker.rs:59-191 | The store, the stream and the reason of a whole life follow step by step from what happens during it; other views are untouched |
| ViewWorker.LoopEndings | query-container/view-svc/src/view_worker.rs:129-191 | A loop ends with an error after an event that could not be recorded or cleared, without one after a command or an undecodable event, and with no reason where the process ends |
| ViewWorker.LivedReaches | query-container/view-svc/src/view_worker.rs:59-191 | Every life, however it ends, is a run of the machine |
| ViewWorker.LivesAreExact | query-container/view-svc/src/view_worker.rs:59-191 | After any lives with results published in between, once no attempt is under way the rows are those of the acknowledged events applied once, unless a replay of an event acknowledged unnoticed was cut off harmfully |
| ViewWorker.ChangeAfterDropRejected | query-container/view-svc/src/mongo_view_store.rs:124-147 | Once the start of a bootstrap or the deletion of the query is served, no change is recorded or acknowledged to the end of the same life, whatever is served and whatever fails |
| ViewWorker.RejectTurn | query-container/view-svc/src/view_worker.rs:145-151 | A change served without a policy ends the life with an error, and stays pending |
| ViewWorker.NextLifeRecords | query-container/view-svc/src/view_worker.rs:59-191 | The next life serves the first pending change first, records it and has it acknowledged |
| ViewActor.ViewActor.OnReminder | query-container/view-svc/src/view_actor.rs:70-100 | Starts a new life exactly after an error; a worker that left its loop stays stopped |
| ViewActor.ViewActor.OnActivate | query-container/view-svc/src/view_actor.rs:51-58 | A saved configuration is enough to start a life |
| ViewActor.ViewActor.Configure | query-container/view-svc/src/view_actor.rs:124-154 | A life starts only once the configuration is saved and the reminder registered |
| EndToEnd.ReadsAreFolds | query-container/view-svc/src/view_worker.rs:109-191 | While the view is at rest, through crashes and replays, row queries at all times give the fold of the acknowledged changes up to then, if and only if no write hit a row opened earlier |
| EndToEnd.PresentIsFold | query-container/view-svc/src/mongo_view_store.rs:362-370 | Under every policy, a row query at or after all changes gives the fold of all of them, in whatever order their times come |
| EndToEnd.QueryToView | query-container/query-host/src/api.rs:427-456 | If the changes were made from separate contexts, those row queries give what the contexts leave alive in the query's own order |
| EndToEnd.ReadView | query-container/view-svc/src/mongo_view_store.rs:320-397 | What the endpoint returns at rest after a change: nothing exactly without a policy, on a fault, or when the requested time lies more than the retention time before now; else a header that names the change, and the fold up to the requested time, or up to the change if the request is later |
| EndToEnd.ClearedBySignal | query-container/view-svc/src/view_worker.rs:155-173 | The start of a bootstrap and the deletion of the query leave neither rows nor changes to be read; the other signals and undecodable events change nothing |
| EndToEnd.ChangeIsLast | query-container/view-svc/src/view_worker.rs:147-154 | A change event is the last change to be read, and its calls are applied to the rows there are |
| EndToEnd.LivesCatchUp | query-container/view-svc/src/view_worker.rs:59-191 | Any lives lead to such a state of rest, once no attempt is under way or the log is acknowledged |
| EndToEnd.TopicToView | query-container/query-host/src/query_worker.rs:502-586 | With the topic's events acknowledged by the view, its reads give the fold of what the query reported, and each source change acknowledged by the host is among it, unless it had no results or they were refused |
| EndToEnd.SameRowTwiceLosesHistory | query-container/view-svc/src/mongo_view_store.rs:244-260 | Two changes that add the same row: the read at the first one's time finds nothing, though the fold has the row |
| QueryHost.NoLostChange | query-container/query-host/src/query_worker.rs:363-416 | The entries tried and those completed, repetitions aside, are the acknowledged ones that name the query, in order, and at most the next; each acknowledged one was completed, its results sent right after they were reported and answered, with whatever status |
| QueryHost.NothingLostExact | query-container/query-host/src/result_publisher.rs:62-69 | Over whole runs each acknowledged change has its results in the topic, or had none, if and only if none was acknowledged on an error status with nothing arrived |
| QueryHost.SuccessLosesNothing | query-container/query-host/src/result_publisher.rs:62-69 | Without answers with an error status each acknowledged change has its results in the topic, or had none |
| QueryHost.ErrorStatusLosesResults | query-container/query-host/src/result_publisher.rs:62-69 | A run that ends with a change acknowledged and its results nowhere |
| QueryHost.FailedIsServedFirst | query-container/query-host/src/query_worker.rs:400-407 | An entry whose processing fails, or whose publication is not answered, stays pending and comes first in the next life |
| QueryLoop.Host.ProcessChange | query-container/query-host/src/query_worker.rs:502-586 | Results reach the topic exactly when the change names the query, processing succeeds with results and the publication arrives; any answer counts as a success |
| QueryLoop.Host.Turn | query-container/query-host/src/query_worker.rs:363-416 | One message, received, processed, published and acknowledged in that order, with every way it can fail and every answer to the publication |
| QueryLoop.Host.Loop | query-container/query-host/src/query_worker.rs:317-422 | Stream, topic and end of a whole loop follow step by step from what happens during it |
| QueryLoop.LivesLoseOnlyRefused | query-container/query-host/src/result_publisher.rs:62-69 | After any lives each acknowledged change that names the query has results in the topic, or had none, exactly if some attempt at it arrived or had none; otherwise an error status was taken for a success |
| QueryLoop.SameEnding | query-container/query-host/src/query_worker.rs:317-422 | For the inputs taken here, the loop of QueryWorker attempts as many publications, ends the same way and leaves the same state |
| QueryWorker.Worker.Start | query-container/query-host/src/query_worker.rs:97-447 | The publications of a life and the state it leaves follow from its script: with every initialization done it starts with a bootstrap exactly if it was configured, bootstrapping, or running on a volatile store; a failed initialization publishes nothing. Numbers have no gap |
| QueryWorker.Worker.Bootstrap | query-container/query-host/src/query_worker.rs:590-722 | A bootstrap succeeds exactly when all data arrives and every publication does, and then publishes one change per item between its two signals; otherwise it stops at the first item or publication that fails |
| QueryWorker.Worker.Loop | query-container/query-host/src/query_worker.rs:317-422 | How many changes are published, and whether and how the loop is left |
| QueryWorker.LoopEndingExact | query-container/query-host/src/query_worker.rs:317-422 | The first input that does not let the loop go on decides how it ends and in which state; each message with results before it was published |
| QueryWorker.Worker.ProcessChange | query-container/query-host/src/query_worker.rs:502-586 | A number is taken and an event published only when there are results |
| QueryWorker.ShapesArePrefixes | query-container/query-host/src/query_worker.rs:216-446 | The reachable publication sequences are exactly the prefixes of start, changes, complete, running, changes, deleted, stopped |
| QueryWorker.LivesAreWords | query-container/query-host/src/query_worker.rs:216-446 | Complete lives are exactly the words of an automaton over the signals, and lives so far exactly what it has not refused |
| SequenceManager.Manager.Increment | query-container/query-host/src/query_worker.rs:853-858 | Issues the next number with its change and hands both to the channel as its new value, as a step of the machine |
| SequenceManager.StoredIsIssued | query-container/query-host/src/query_worker.rs:820-847 | What is stored is the initial value, or a number together with the change it was issued for |
| SequenceManager.StoredMonotone | query-container/query-host/src/query_worker.rs:820-847 | Stored numbers never decrease, if an increment comes before the close |
| SequenceManager.ClosedStoresLast | query-container/query-host/src/query_worker.rs:827-845 | After closing and a successful last write the last issued number is stored, exactly if one was issued or the initial value was the default |
| SequenceManager.ClosedUnusedLosesNumber | query-container/query-host/src/query_worker.rs:822-845 | A run without an increment, after which the default is stored in place of the number |
| SequenceManager.WriterProgress | query-container/query-host/src/query_worker.rs:827-845 | Once closed, the writer always has a step, and each brings it closer to its end |
| Splitting.FromQueryResults | query-container/query-host/src/api.rs:416-467 | The loop sorts the contexts into the three lists, each list in context order and with nothing else in it; an updated entry has grouping keys exactly if it comes from an aggregation, and then those of the aggregation |
| Splitting.SplitExact | query-container/query-host/src/api.rs:427-456 | Where the entry of each context stands, with its rows and keys, how long the lists are, and that each updated entry stands for a context |
| Splitting.UpdateMeansContext | query-container/query-host/src/api.rs:435-453 | The entry of an update or an aggregation asks for the calls that the context means: end the row before, under its group key or its values, and write the row after |
| Splitting.SplitKeepsEnds | query-container/query-host/src/api.rs:427-456 | If no key is touched by two contexts, both replay orders have each key's first and last call in common with the contexts |
| Splitting.StoreReplaysContexts | query-container/view-svc/src/mongo_view_store.rs:157-294 | Recording the sorted event gives the view of applying the contexts in order |
| Splitting.LiveRowsKept | cli/output/query_results/query_results.go:133-144 | Adds, updates, deletes and deletes, updates, adds both keep alive the rows that the contexts keep alive |
| Splitting.StoreOrderExact | query-container/view-svc/src/mongo_view_store.rs:157-294 | Recording the sorted event has the effect of the contexts on every collection if and only if the calls match on each key, last and, with history, first |
| Splitting.ToolOrderExact | cli/output/query_results/query_results.go:133-144 | Adds, updates, deletes leave alive what the contexts leave alive, from any rows, if and only if each key ends with the same call |
| Splitting.OverlapBreaks | query-container/query-host/src/api.rs:427-456 | Two contexts on one row make each replay order wrong for one change and right for another |
| ResultTable.ResultContainer.constructor | cli/output/query_results/query_results.go:57-66 | A hundred nil slots and an empty index |
| ResultTable.ResultContainer.Add | cli/output/query_results/results_container.go:29-33 | Appends and indexes the row; the index stays exact if and only if the row was absent |
| ResultTable.ResultContainer.Delete | cli/output/query_results/results_container.go:35-40 | Leaves a nil slot; the index stays exact if and only if the row was there or slot 0 is nil |
| ResultTable.ResultContainer.Update | cli/output/query_results/results_container.go:42-49 | Replaces in place, a nil or absent row in slot 0; the index stays exact if and only if that slot is free or the old row's, and the new row is not elsewhere |
| ResultTable.ResultContainer.ApplyChanges | cli/output/query_results/query_results.go:133-144 | Adds, then updates, then deletes, each as its own function says |
| ResultTable.ShowMessages | cli/output/query_results/query_results.go:133-152 | After any messages the rows to be drawn are the non-nil slots; if the index is exact, each indexed row once |
| ResultTable.TableReplaysContexts | cli/output/query_results/query_results.go:133-144 | After a message from separate, truthful contexts the indexed rows are what the contexts leave alive, and each is in its slot if and only if the new groups fit into slot 0 |
| ResultTable.CallExact | cli/output/query_results/results_container.go:29-49 | Exactly which calls keep the index exact |
| ResultTable.TableExact | cli/output/query_results/results_container.go:29-49 | After truthful calls on separate rows the index is exact if and only if each call fitted at its turn; what is lost stays lost |
| ResultTable.TwoNewGroupsLoseARow | cli/output/query_results/results_container.go:42-49 | Two new groups in one message: the first is indexed but no longer shown |
| ResultTable.TwoMissesLoseARow | cli/output/query_results/results_container.go:42-49 | Two updates of absent rows lose the first new row |
| StorageConfig.BuildEnv | control-planes/kubernetes_provider/src/spec_builder/query_container.rs:88-207 | For each store, by variable name, exactly the variables its kind calls for with their texts; beside the stores exactly identity, results and default store, the later over the earlier |
| StorageConfig.EncodedStore | control-planes/kubernetes_provider/src/spec_builder/query_container.rs:104-206 | The variables of one store by name, and those it does not have |
| StorageConfig.EnvDetermined | control-planes/kubernetes_provider/src/spec_builder/query_container.rs:88-207 | These two descriptions determine the environment |
| StorageConfig.VarInjective | control-planes/kubernetes_provider/src/spec_builder/query_container.rs:105-204 | No two stores or fields share a variable name |
| StorageConfig.MapEnvVars | control-planes/kubernetes_provider/src/spec_builder/mod.rs:184-210 | One entry for each variable, inline or as a reference to a secret |
| StorageConfig.ContainerValues | control-planes/kubernetes_provider/src/spec_builder/mod.rs:144-170 | Whatever the order of the list, a container sees each variable with its resolved value |
| StorageConfig.NewFactory | query-container/query-host/src/index_factory.rs:60-183 | Stores are read up to the first missing number, with the error cases left out and one memory store without archive if there is none; without a default store it is the first name in order |
| StorageConfig.ReadSpecExact | query-container/query-host/src/index_factory.rs:64-155 | What one store is read as from its named variables: kinds in any case, a missing or unknown kind and a missing connection leave it out, a flag counts only as true, a cache size only as a positive number |
| StorageConfig.ReadSpecsNames | query-container/query-host/src/index_factory.rs:60-155 | The factory has exactly the names of the stores that could be read |
| StorageConfig.ReadSpecsLast | query-container/query-host/src/index_factory.rs:60-155 | Of several stores with one name the last counts |
| StorageConfig.UsizeExact | query-container/query-host/src/index_factory.rs:101-110 | A text is read as n exactly if it is n in decimal, possibly after a plus sign and zeros, and n fits into 64 bits |
| StorageConfig.LessExact | query-container/query-host/src/index_factory.rs:168-178 | The order that picks the default: a proper prefix first, else by the first difference |
| StorageConfig.ReadsBack | query-container/query-host/src/index_factory.rs:64-155 | Each store written is read back under its name, without storage class, cache size 0 as none |
| StorageConfig.StorageRoundTrip | control-planes/kubernetes_provider/src/spec_builder/query_container.rs:85-207 | From the specification, in any order, to the factory: each store under its name with archive, connection, cache size (0 as none) and direct I/O as specified, one memory store if there is none, and the same default store |
| StorageConfig.VolatileAsSpecified | query-container/query-host/src/index_factory.rs:289-305 | Exactly the stores specified in memory are volatile |
| IngressAnnotations.ParseFlags | cli/cmd/ingress.go:106-112 | A key is in the map exactly if a flag names it before its first =, and has the trimmed rest of the last such flag |
| IngressAnnotations.TrimCuts | cli/cmd/ingress.go:106-112 | Trimming takes white space off both ends, and nothing else |
| IngressAnnotations.UpdateIngressConfig | cli/sdk/platform_client.go:375-409 | The five ingress entries, by name, are replaced by what is given, and all other entries stay |
| IngressAnnotations.GetDynamicIngressConfig | control-planes/kubernetes_provider/src/controller/reconciler.rs:451-517 | Entries over defaults, and the annotations parsed pair by pair |
| IngressAnnotations.AnnotationRoundTrip | control-planes/kubernetes_provider/src/controller/reconciler.rs:491-499 | The printed pairs, in any order, are parsed to the same map if and only if the map is clean |
| IngressAnnotations.WriteThenRead | cli/sdk/platform_client.go:388-409 | Settings written are settings read, empty ones fall back, annotations survive exactly when clean |
| IngressAnnotations.FlagsSurvive | cli/cmd/ingress.go:106-112 | Flags without commas survive from the command line to the reconciler |
| Debounce.Handler.TopOfLoop | control-planes/kubernetes_provider/src/monitor/mod.rs:50-68 | More than 1500 ms after the last flush the set is drained and each of its resources reconciled once; before that nothing changes |
| Debounce.Handler.SleepOver | control-planes/kubernetes_provider/src/monitor/mod.rs:69-71 | A wait without an event takes 500 ms |
| Debounce.Handler.HandleEvent | control-planes/kubernetes_provider/src/monitor/mod.rs:72-86 | The first event since the flush reconciles at once, later ones are put off |
| Debounce.NothingLost | control-planes/kubernetes_provider/src/monitor/mod.rs:48-94 | After every flush each event received so far was followed by a reconcile of its resource |
| Debounce.OneImmediate | control-planes/kubernetes_provider/src/monitor/mod.rs:72-86 | At most one immediate reconcile of a resource between flushes |
| Debounce.FlushInTime | control-planes/kubernetes_provider/src/monitor/mod.rs:51-71 | With instantaneous calls a flush comes at most 2000 ms after the one before |

## Left out

- Row hashes: SipHash and SHA-256 are taken to be injective on what is fed into them field by field; the byte feed itself is not injective.
- Machine integers: timestamps and sequence numbers are unbounded, so the casts between `u64` and `i64` and an overflowing retention time are not modelled.
- `unsubscribe`: deleting the consumer also drops its pending entries; a run ends before it.
- Redis reads that fail are taken to claim nothing, and an old session's reader to have stopped before the next session starts.
- More than one writer on a view.
- Event times that decrease: `TimeTravel`, `SnapshotReads` and `GarbageCollection` cover times that never do.
- ViewService.ExactlyOnceEffect: the retention policy is configured once and the collector does not run; the collector has its own theorems.
- SnapshotReads.SnapshotRead: the row query is one step, while the store streams a cursor; what a cursor sees of writes made during the stream is up to the database.
- EndToEnd.TopicToView: the transport from the publisher to the view's stream is taken to keep the order of what arrived; event identifiers, sequence numbers and times are given.
- QueryWorker.Worker.Start: a publication succeeds when it is answered, with whatever status, so what is published here are attempts.
- ResultTable.ShowMessages: drawing the rows is left out; it indexes a slice of a row's own length by a column number shared by all rows, and fails on a row that lacks an earlier column and has a later one.
- ResultTable.TableReplaysContexts: rows without any field are left out, because they share their hash with a nil row.
- QueryHost.NoLostChange: the query engine is free to report anything, so what a repeated processing reports is not related to the first one.
- The lifecycle states within a life and their persistence: only the publications and the last state are observed.
- StorageConfig.NewFactory: letters are put into lower case for ASCII only.
- IngressAnnotations.FlagsSurvive: the quoting rules by which a flag value may contain a comma are not modelled.
- ViewWorker.Worker.Start: messages are decoded and served one after the other; the command to reconfigure a running worker is left out, and so is a worker that is still alive when the actor acts.
- QueryLoop.Host.Loop: serves decoded messages one after the other; the delete command and the actor's commands are only in QueryWorker.
- The query actor's restart rule: in the runs of QueryHost a life may start whenever none is running.
- `deprovision` and the query actor's `configure`: a worker may still be running when the next one starts, so nothing is claimed about that.
- The copy of the change stream in the management API: the same algorithm with a choice of the first position.
- The query engine, index implementations, message decoding, tracing, metrics, Dapr and HTTP: external or without bearing on the properties.
- Reconcile passes, other spec builders, resource mappings, installers, terminal UI, reactions and sources: mostly plumbing.
