# QuePasa: stateful cores, modelled and proved

A Dafny model of the parts of QuePasa that keep state or transform text, with proofs of what they
guarantee and, where they guarantee less than it seems, of exactly when.
`dafny verify dfyconfig.toml` checks everything.

What the outside decides (broker, network, operating system, database, clock, JSON encoder) comes in
as parameters or as labels of steps; every result holds for all of its answers. Code that changes
things in place is a class whose methods are tied to functions on values; the results are proved
about those functions and about runs of any length.

| file | what it models |
|---|---|
| `RabbitProtocol.dfy`, `RabbitTheorems.dfy`, `RabbitClient.dfy`, `RabbitDelivery.dfy`, `QueueRecord.dfy` | the store-and-forward client: producers, connection monitor and cache drainer as a transition system of atomic steps; its theorems, on order, closing and delivery; the code itself, each method shown to be a schedule of that system; what a dispatching records of a call against what became of its message |
| `ClientManager.dfy`, `ManagerWithClients.dfy` | the double-checked-lock map of clients; the manager and its clients running together |
| `Cache.dfy`, `CacheInterleaving.dfy`, `CleanUps.dfy` | the expiring cache with its separate 64-bit counter, sequentially and under interleaving, clean-ups included |
| `Duplicates.dfy`, `Messages.dfy`, `Handler.dfy` | duplicate suppression, the message and status caches, the handler that filters, caches, evicts and triggers |
| `DispatchingTable.dfy`, `DispatchingObjects.dfy`, `Fanout.dfy` | the in-memory list of shared dispatching objects over a database table, and the fan-out of one message to them |
| `ServerLifecycle.dfy` | start, stop, restart and the computed state of one server |
| `RtpProxy.dfy` | the allocator of media port pairs |
| `Annotations.dfy`, `Waveform.dfy`, `ChatId.dfy` | the annotation tokenizer, the waveform binning, the chat-id normaliser |
| `Text.dfy`, `Wrappers.dfy` | shared helpers |

## Findings

Statements one would expect of the code that are false of it, each with its exact condition.

- Cached messages can be overtaken: a failed publish puts its message behind those still queued
  (`PutBackOvertakes`); order is kept along a run exactly when that never happens (`RunOrder`).
- `Close` can hang: the drainer polls for a channel after the monitor has left (`CloseCanHang`); once
  closed, it can still return exactly when not in that state (`CloseReturns`). While the manager
  closes a client, one or all, it will never again answer anything but a get of the empty string
  exactly when that client is in that state (`StuckCloseBlocksAll`), which happens (`StuckCloseReachable`).
- A queued message is left behind exactly if the drainer has left, or the monitor without a channel
  (`PublishedExactly`); in a client nobody has closed, never (`OpenClientDelivers`).
- A synopsis length below 4 means that no preview is ever cut (`SynopsisFits`).
- `CleanUp` empties the cache when the limit exceeds the size by more than 2^63 (`EvictionsExact`);
  with a limit above 2^63 + 1 not even the first message stays (`HugeLimitLosesTheFirst`). Without a
  limit nothing is evicted (`NothingEvictedInRun`).
- Clean-ups that overlap can delete more than the excess (`TooManyDeleted`). Of entries that expire at
  different times, min(size, max) are left exactly if there was no excess, or somebody lists and every
  listing that leads to deletions finds as many items as the counter had said (`CleanUpsExactly`); where
  all have read the counter before anything is deleted: if every listing finds everything, as it does
  when all end before the first deletion (`ReadFirstExactly`).
- `GetAny` can delete a live entry exactly where two goroutines or more use the cache (`LossExactly`).
- The duplicate relation is not transitive (`NotTransitive`, with the exact exception in `TransitiveUnless`).
- List and table part exactly when a read fails while other rows are stored for the token, as for a
  server just constructed (`FailedFirstRead`), or a change that alters the rows of the context is made
  and then reported as failed (`StepAgreement`); and when a listed entry is edited and cannot be saved
  (`EditedEntry`).
- A queue's recorded success says nothing of the message (`QueueRecordIsNoProof`). In every interleaving
  of the call it is right exactly if the channel is up at its end and the message published, by the
  call or from the queue, or neither (`RecordExactly`); undisturbed, exactly if the channel was down or
  encoding and publishing both worked (`PublishMessageToExchange`).
- A stop does not keep the link down exactly when it meets a client that is not connected
  (`StopHoldsExactly`). A stop does nothing exactly while one is pending (`StopTwice`), so a stopped
  server that is handed a connection cannot be stopped again (`UnstoppableServer`); that is the one
  step which gives a stopped server a handler (`StepSilent`).
- A start can report success with no handler left (`SilentSuccess`; exactly when, in `AdmittedStart`).
  No code of the repository raises `*whatsapp.UnAuthorizedError`, so that branch waits for another
  connection type.
- `CreateRTPStreamWithLocalPort` never compares the caller's port with the active ones: a port is taken
  twice exactly when the stream can be opened on a port in use (`LocalDistinctExactly`), which takes
  port 0 (`PortZeroTakenTwice`) or a stream that has ended by itself (`HungUpPortTakenTwice`), and
  nothing else will do (`DistinctWithoutHangUps`).
- `FormatEndpoint` is not idempotent on a text with a plus and a suffix of its own
  (`FormatIdempotentExactly`, `UncheckedSuffix`).
- Stripping a session id leaves a session mark exactly where the domain has one (`StrippedOnce`);
  a@b:c becomes a@b@b:c (`MarkLeftBehind`).
- `parseParam` does not give back a name exactly when it starts with a space other than blank and
  tab (`ParamRoundTrip`).
- Samples behind the last full block never reach the waveform (`BlockOf`), and its peak is 100 exactly
  from 0.000995 on, not only above 0.001 (`FullScaleExactly`).

## Model

| member | source | states |
|---|---|---|
| RabbitProtocol.StepMoves | src/rabbitmq/rabbitmq_client.go:65-260 | no atomic step of a producer, the drainer or the monitor duplicates a message or lets one vanish; only a submission adds one |
| RabbitProtocol.StepCounted | src/rabbitmq/rabbitmq_client.go:188-354 | every step keeps the metrics accounted for: cached is processed, queued, in hand or dropped after caching |
| RabbitProtocol.StepConnected | src/rabbitmq/rabbitmq_client.go:65-148 | every step keeps channel, connection and the monitor's place in step |
| RabbitProtocol.StepInv | src/rabbitmq/rabbitmq_client.go:65-354 | every step keeps conservation, the queue bound and the accounting |
| RabbitProtocol.RunInv | src/rabbitmq/rabbitmq_client.go:65-354 | so does every schedule |
| RabbitTheorems.EveryMessageInOnePlace | src/rabbitmq/rabbitmq_client.go:167-354 | in every reachable state each submitted message is in exactly one place, the queue is within its bound, and the client's own increments of the three metrics account for all endings |
| RabbitTheorems.RoomMeansNoDrop | src/rabbitmq/rabbitmq_client.go:167-246 | while undelivered messages never exceed the capacity, neither caching nor put-back drops one |
| RabbitTheorems.StepOrder | src/rabbitmq/rabbitmq_client.go:204-256 | a step keeps cached messages in order exactly when it is not a put-back behind waiting ones |
| RabbitTheorems.RunOrder | src/rabbitmq/rabbitmq_client.go:188-260 | a run is ordered all along exactly when it never makes that step |
| RabbitTheorems.FaultFreeFifo | src/rabbitmq/rabbitmq_client.go:188-260 | if no publish and no marshalling of a cached message fails, cached messages are published in the order they were cached, none missing |
| RabbitTheorems.OrderFromTheStart | src/rabbitmq/rabbitmq_client.go:36-260 | both, for every schedule from the client's construction |
| RabbitTheorems.PutBackOvertakes | src/rabbitmq/rabbitmq_client.go:238-246 | a reachable state in which the order is lost |
| RabbitTheorems.StuckForever | src/rabbitmq/rabbitmq_client.go:151-163 | a drainer polling for a channel after the monitor has left never gets one, and Close never returns |
| RabbitTheorems.CloseCanHang | src/rabbitmq/rabbitmq_client.go:263-266 | such a state is reachable with the client closed |
| RabbitTheorems.CloseReturns | src/rabbitmq/rabbitmq_client.go:104-266 | a closed client can still finish exactly when it is not in such a state |
| RabbitTheorems.LeftBehind | src/rabbitmq/rabbitmq_client.go:193-197 | once the drainer has left, the queue only grows and nothing is published from it |
| RabbitDelivery.NobodyLeavesAnOpenClient | src/rabbitmq/rabbitmq_client.go:104-197 | in every reachable state drainer and monitor have left only a closed client |
| RabbitDelivery.PublishedExactly | src/rabbitmq/rabbitmq_client.go:65-260 | a message in the queue can still be published, once nothing fails any more, exactly if the drainer has not left and the monitor has not left without a channel |
| RabbitDelivery.OpenClientDelivers | src/rabbitmq/rabbitmq_client.go:65-260 | so in a client nobody has closed every queued message can be |
| RabbitDelivery.QueueWaits | src/rabbitmq/rabbitmq_client.go:198-202 | until a channel is opened a sleeping drainer takes nothing out of the queue |
| RabbitClient.RabbitMQClient.AddToCache | src/rabbitmq/rabbitmq_client.go:167-186 | accepts exactly while there is room, appends at the end, and is one step of the protocol |
| RabbitClient.RabbitMQClient.PublishMessageToExchange | src/rabbitmq/rabbitmq_client.go:291-354 | for any answers of encoder and broker: published, cached or dropped, with queue and metrics to match, by a schedule of the protocol; the channel being up afterwards means published exactly if it was down before or encoding and publishing both worked |
| RabbitClient.RabbitMQClient.PublishCached | src/rabbitmq/rabbitmq_client.go:206-252 | one cached message is skipped, published or put back; the drainer goes on or to sleep accordingly, by a schedule of the protocol |
| RabbitClient.RabbitMQClient.ProcessCache | src/rabbitmq/rabbitmq_client.go:188-260 | one burst over the queue ends asleep with the queue and the metric of the recursive specification, by a schedule of the protocol |
| RabbitClient.BurstUntilFailure | src/rabbitmq/rabbitmq_client.go:204-257 | a burst publishes every encodable message and drops the others up to the first publish that fails, and moves that message behind the rest |
| ClientManager.StepInv | src/rabbitmq/rabbitmq_defaults.go:39-105 | every step of get, close and close-all keeps the lock exclusive and the map in agreement with the clients made and closed |
| ClientManager.MapHoldsTheOpenClients | src/rabbitmq/rabbitmq_defaults.go:39-105 | in every interleaving: with the lock free the map holds exactly the unclosed clients, at most one per connection string ever, none closed twice |
| ClientManager.GetsAgree | src/rabbitmq/rabbitmq_defaults.go:39-83 | two gets of one connection string return the same client unless one of them was closed |
| ClientManager.ReturnsOpen | src/rabbitmq/rabbitmq_defaults.go:39-83 | what a get returns is open and in the map at that moment; nothing for the empty string |
| ClientManager.CloseAllClosesAll | src/rabbitmq/rabbitmq_defaults.go:97-105 | a goroutine leaves close-all only when every client made so far has been closed and the map is empty |
| ManagerWithClients.RunInv | src/rabbitmq/rabbitmq_defaults.go:39-105 | in every run of manager and clients the manager's invariant holds and every client made is in a state that client can reach by itself |
| ManagerWithClients.CloseHoldsTheLock | src/rabbitmq/rabbitmq_defaults.go:39-105 | while a Close runs, of one client or of all, the manager can only answer gets of the empty string, until that Close returns |
| ManagerWithClients.StuckCloseBlocksAll | src/rabbitmq/rabbitmq_defaults.go:86-105 | from such a state it never does anything else again exactly when the client being closed is stuck |
| ManagerWithClients.StuckCloseReachable | src/rabbitmq/rabbitmq_defaults.go:86-94 | a reachable state of manager and client in which that is so |
| QueueRecord.RecordExactly | src/models/qp_dispatching.go:318-359 | in every interleaving of one call: published exactly by the call or from the queue; a success recorded exactly if the channel is up at the end; so the record is right exactly if both or neither |
| QueueRecord.ChannelAt | src/rabbitmq/rabbitmq_client.go:65-148 | the channel is up after a run exactly if it was and is not taken away, or is opened and not taken away after that |
| Duplicates.DuplicateIsSymmetric | src/models/qp_cache_fuck_unoapi.go:76-129 | the duplicate relation is reflexive and symmetric |
| Duplicates.TransitiveUnless | src/models/qp_cache_fuck_unoapi.go:88-119 | and transitive except around a plain content between two differing advertisements |
| Duplicates.NotTransitive | src/models/qp_cache_fuck_unoapi.go:76-124 | that exception exists for every way of printing a content |
| Duplicates.RetryIsDuplicate | src/models/qp_cache_fuck_unoapi.go:88-115 | an advertisement sent again with other delays and device info is a duplicate, for every printer |
| Duplicates.ExtendedDuplicates | src/models/qp_cache_fuck_unoapi.go:76-119 | two extended texts are duplicates exactly if nothing but delays and device info differs |
| Duplicates.PlainDuplicates | src/models/qp_cache_fuck_unoapi.go:28-83 | of two plain contents only the conversations count, or the printed texts where there are none |
| Duplicates.TriggersAreStutterFree | src/models/qp_cache.go:25-34 | among contents of one kind, a content is denied exactly when it repeats the last one triggered, although denied ones overwrite the cache |
| Cache.AcceptedAreStutterFree | src/models/qp_cache_fuck_unoapi.go:14-133 | while an id stays in the map, exactly the messages that differ from the one before are accepted; among contents of one kind, exactly those that differ from the last accepted one |
| Cache.EvictionsExact | src/models/qp_cache.go:81-102 | with an exact counter the clean-up leaves min(size, max) entries exactly when the wrapped difference fits an int; otherwise it empties the cache |
| Cache.PrefixEvicted | src/models/qp_cache.go:91-99 | deleting the first n of the ordered items leaves no survivor that expires before an evicted one |
| Cache.QpCache.SetCacheItem | src/models/qp_cache.go:25-34 | stores the item, keeps the counter equal to the size modulo 2^64, and answers by the duplicate rule |
| Cache.QpCache.DeleteByKey | src/models/qp_cache.go:52-57 | removes the key; adding 2^64 - 1 keeps the counter exact |
| Cache.QpCache.GetAny | src/models/qp_cache.go:36-46 | returns the value while it lives; an expired one is removed |
| Cache.FindsWhatItLeaves | src/models/qp_cache.go:36-46 | a lookup finds the value exactly if the entry is still there afterwards, which is while it lives; other keys are left alone |
| Cache.QpCache.GetSliceOfCachedItems | src/models/qp_cache.go:60-67 | lists every cached item exactly once |
| Cache.QpCache.GetOrdered | src/models/qp_cache.go:70-78 | lists every cached item exactly once, by expiration |
| Cache.Sort | src/models/qp_cache_ordering.go:4-14 | the sorted permutation that ordering by expiration asks for |
| Cache.QpCache.CleanUp | src/models/qp_cache.go:81-102 | evicts as many entries as the wrapped difference says, the earliest to expire; without a limit, or up to it, nothing goes, and beyond it max entries stay |
| CacheInterleaving.StepExact | src/models/qp_cache.go:25-102 | every atomic step, those of a clean-up included, keeps counter plus pending updates equal to the map size modulo 2^64 |
| CacheInterleaving.CounterCounts | src/models/qp_cache.go:15-57 | so in every interleaving, and with nothing in flight the counter is the number of entries |
| CacheInterleaving.LiveEntryLostOnlyIfReplaced | src/models/qp_cache.go:36-46 | the delayed delete of a lookup takes a live entry only if the expired one was replaced in between |
| CacheInterleaving.LiveEntryCanBeLost | src/models/qp_cache.go:36-46 | for any two goroutines or more, any key and time, a schedule in which it does |
| CacheInterleaving.LossExactly | src/models/qp_cache.go:36-46 | a live entry can be lost exactly where two goroutines or more use the cache |
| CacheInterleaving.OverlappingCleanUps | src/models/qp_cache.go:81-102 | the instance in which clean-ups have all read the counter and then list and delete in turn, equal expirations included: exactly if there was no excess or only one of them |
| CleanUps.EarliestGoesOn | src/models/qp_cache.go:60-78 | a listing that is no snapshot but misses nothing still there: deleting its keys in order of expiration keeps what is deleted a prefix of that order |
| CleanUps.StepInv | src/models/qp_cache.go:81-102 | every step of any number of clean-ups leaves deleted a prefix of the order by expiration, with somebody on the way to the farthest listing |
| CleanUps.LeftOver | src/models/qp_cache.go:81-102 | however clean-ups of any limits overlap, in the end the entries to expire first are gone, as many as the farthest listing reached |
| CleanUps.CleanUpsExactly | src/models/qp_cache.go:81-102 | any number of clean-ups of one limit, in any interleaving: min(size, max) entries are left exactly if there was no excess, or somebody lists and every listing that leads to deletions finds as many items as the counter it read |
| CleanUps.ReadFirstExactly | src/models/qp_cache.go:81-102 | where all read the counter before anything is deleted: exactly if there was no excess, or somebody lists and every listing finds everything there was; it does when all end before the first deletion |
| CleanUps.NoLimitNothingDeleted | src/models/qp_cache.go:81-102 | clean-ups without a limit delete nothing, whatever they overlap with |
| CleanUps.TooManyDeleted | src/models/qp_cache.go:81-102 | from an empty cache, a run of two goroutines that empties a cache of two entries under a limit of one; with equal expirations even though every listing finds what was counted |
| Messages.UpperFolds | src/models/qp_whatsapp_messages.go:36-54 | two ids share a cache key exactly when they differ at most in letter case |
| Messages.StatusIsHighest | src/models/qp_whatsapp_messages.go:112-149 | within expiration the stored rank of an id is the highest submitted in any letter case and order |
| Messages.AnswersTrueOnIncrease | src/models/qp_whatsapp_messages.go:135-149 | an update answers true exactly when it raises that highest rank |
| Messages.StatusDecided | src/whatsapp/whatsapp_message_status.go:13-25 | whatever the order of the calls: read stays once submitted, delivered gives way to read alone, imported to these, an error to any |
| Messages.FewIncreases | src/whatsapp/whatsapp_message_status.go:13-25 | so at most four times per id |
| Messages.MessageCarriesStatus | src/models/qp_whatsapp_messages.go:138-145 | the status the calls determine for a cached message is the remembered one once one has been raised |
| Messages.UpdateRunCarries | src/models/qp_whatsapp_messages.go:135-149 | a message object live under its id at every call carries exactly that status, by what each call promises |
| Messages.MessageFollows | src/models/qp_whatsapp_messages.go:135-149 | so it ends with the highest status submitted for its id, in any letter case |
| Messages.DeniedExactly | src/models/qp_cache_fuck_unoapi.go:14-133 | a message is denied exactly if its id is cached, in any letter case, with content that it repeats |
| Messages.QpWhatsappMessages.Append | src/models/qp_whatsapp_messages.go:33-41 | stores the message under its upper-case id and answers by the duplicate rule |
| Messages.QpWhatsappMessages.GetById | src/models/qp_whatsapp_messages.go:51-67 | finds the live message under any letter case of its id |
| Messages.QpWhatsappMessages.MessageStatusUpdate | src/models/qp_whatsapp_messages.go:135-149 | raises the status, and only then sets it on the one live message of that id; no other message changes |
| Handler.AcceptedSurvives | src/models/dispatching_handler.go:191-205 | an accepted message survives its own clean-up and the bound holds, exactly while the limit is within 2^63 of the size |
| Handler.NewestStays | src/models/qp_cache.go:81-102 | of the items kept, the one expiring last is one |
| Handler.RunIsBounded | src/models/dispatching_handler.go:61-205 | in every run on an increasing clock the cache holds at most the limit, and the message that has just arrived is found |
| Handler.HugeLimitLosesTheFirst | src/models/qp_cache.go:81-102 | with a limit above 2^63 + 1 the first message is evicted by its own clean-up |
| Handler.NothingEvictedInRun | src/models/dispatching_handler.go:191-205 | along every run without a limit, the default, the last arrival of each key is stored exactly unless a later one replied to it once expired |
| Handler.FoundWhileItLives | src/models/dispatching_handler.go:191-205 | so it is found as long as it lives |
| Handler.OnlyArrivals | src/models/dispatching_handler.go:191-205 | with any limit the cache holds nothing but the last arrivals of their keys |
| Handler.WithoutIsFilter | src/models/dispatching_handler.go:276-290 | unregistering removes that handler and no other |
| Handler.WithoutInOrder | src/models/dispatching_handler.go:276-290 | and the others stay in order around its place |
| Handler.DispatchingHandler.Register | src/models/dispatching_handler.go:265-273 | appends a handler unless it is registered already |
| Handler.DispatchingHandler.UnRegister | src/models/dispatching_handler.go:276-290 | leaves the other handlers in order |
| Handler.DispatchingHandler.IsRegistered | src/models/dispatching_handler.go:308-316 | finds a handler exactly when it is registered |
| Handler.SkipsByChat | src/models/dispatching_handler.go:61-71 | messages of groups and of newsletters or statuses are skipped exactly where these are not handled, those of users never |
| Handler.DispatchedExactly | src/models/qp_whatsapp_handlers_extensions.go:22-52 | a text message goes on exactly if trimming leaves something of it or it removes a reaction; an unhandled one never, unless everything is to |
| Handler.DispatchingHandler.Trigger | src/models/dispatching_handler.go:215-262 | a dispatchable message starts one dispatch per registered handler, in order; any other none |
| Handler.DispatchingHandler.AppendMsgToCache | src/models/dispatching_handler.go:191-205 | stores; an accepted message alone is followed by clean-up and trigger |
| Handler.DispatchingHandler.Preview | src/models/dispatching_handler.go:73-88 | titles the chat where it has no title and previews the live message replied to |
| Handler.SynopsisFits | src/models/dispatching_handler.go:78-87 | a cut preview has exactly the configured length and begins like the text; below a length of 4 nothing is cut, for the subtraction wraps |
| Handler.UnhandledIdsDiffer | src/models/dispatching_handler.go:322-325 | with suffixes of one length, two unhandled messages share a cache key exactly if ids and suffixes are the same up to letter case |
| Handler.UnhandledStandsAlone | src/models/qp_whatsapp_handlers_extensions.go:22-52 | an unhandled message whose key is not cached is accepted, replaces nothing, and is dispatched exactly if unhandled messages are |
| Handler.DispatchingHandler.Message | src/models/dispatching_handler.go:61-103 | a skipped message changes nothing; any other gets title, preview, id and text, goes through the cache and triggers when accepted |
| DispatchingTable.PutAgrees | src/models/qp_data_dispatching.go:46-67 | storing and listing the merged entry keeps list and table in agreement, the preserved track id and type in both |
| DispatchingTable.UpsertPreserves | src/models/qp_data_server_dispatching_sql.go:155-198 | after an upsert the row has the given track id and type, or the earlier ones where these are empty; the other columns are the given ones, and no other row changes |
| DispatchingTable.RunFilled | src/models/qp_data_server_dispatching_sql.go:173-183 | once stored with a track id, or a type, a connection string has one in table and list until it is removed, the table is cleared or the context changes, in every run |
| DispatchingTable.MergeKeepsAgreeing | src/models/qp_data_server_dispatching_sql.go:173-183 | the preservation of fields changes no entry that agrees with its row |
| DispatchingTable.DropAgrees | src/models/qp_data_dispatching.go:69-100 | removing from both keeps the agreement |
| DispatchingTable.EditedEntry | src/models/qp_whatsapp_server_dispatching.go:72-77 | an entry edited in the list agrees again once saved, and disagrees when saving fails |
| DispatchingTable.OtherContext | src/models/qp_data_dispatching.go:15-27 | a list that agrees with one context agrees with another exactly when both store the same rows |
| DispatchingTable.FailedFirstRead | src/models/qp_data_dispatching.go:23-27 | a newly constructed list whose read fails disagrees with the rows stored for its token |
| DispatchingTable.StepAgreement | src/models/qp_data_dispatching.go:15-120 | an operation keeps the agreement exactly unless a read fails while the two contexts store different rows, or an upsert, removal or clearing that alters the rows of the context is made and then reported as failed; other contexts are untouched |
| DispatchingTable.UnseenRow | src/models/qp_data_dispatching.go:46-67 | a row stored without the list agrees with it exactly when it was stored like that before |
| DispatchingTable.UnseenClear | src/models/qp_data_dispatching.go:102-120 | a table cleared without the list agrees with it exactly when nothing was stored for the context |
| DispatchingTable.RunDistinct | src/models/qp_data_dispatching.go:46-120 | in every run, whatever the database does, no connection string is listed twice |
| DispatchingTable.RunAgrees | src/models/qp_data_dispatching.go:15-120 | so after every run without those, whatever else the database refuses |
| DispatchingObjects.QpDataServerDispatchingSql.FindAll | src/models/qp_data_server_dispatching_sql.go:33-42 | lists exactly the rows of the context, each once |
| DispatchingObjects.QpDataServerDispatchingSql.DispatchingAddOrUpdate | src/models/qp_data_server_dispatching_sql.go:155-198 | stores the row with the earlier track id and type where the given ones are empty, and writes these into the given object, even when the write then fails; may store and report a failure |
| DispatchingObjects.QpDataServerDispatchingSql.DispatchingRemove | src/models/qp_data_server_dispatching_sql.go:201-219 | deletes the row and reports how many; may delete and fail to report |
| DispatchingObjects.QpDataDispatching.DispatchingFill | src/models/qp_data_dispatching.go:15-44 | a step of the table's state machine with new objects, or the old list under the new context |
| DispatchingObjects.QpDataDispatching.DispatchingAddOrUpdate | src/models/qp_data_dispatching.go:46-67 | a step of the state machine; the preserved fields reach the list through the shared object |
| DispatchingObjects.QpDataDispatching.MoveUp | src/models/qp_data_dispatching.go:84-92 | the compaction in place keeps exactly the other entries, in order |
| DispatchingObjects.QpDataDispatching.DispatchingRemove | src/models/qp_data_dispatching.go:69-100 | a step of the state machine; the client of a removed queue is closed once, only when the removal succeeded |
| DispatchingObjects.QpDataDispatching.DispatchingClear | src/models/qp_data_dispatching.go:102-120 | a step of the state machine; all queue clients are closed even when the table cannot be cleared, or is cleared and reported as failed |
| DispatchingObjects.QpDataDispatching.ToggleForwardInternal | src/models/qp_whatsapp_server_dispatching.go:72-77 | flips the flag of the one listed entry in memory, and in the table exactly when saving works |
| DispatchingObjects.KeptRows | src/models/qp_data_dispatching.go:84-92 | the objects kept by the compaction are the rows kept by the removal |
| Fanout.GateIsSafe | src/models/qp_whatsapp_server_extensions.go:31-51 | options in -1, 0, 1 never panic; an internal message never goes back to an entry with its track id |
| Fanout.AdmittedExactly | src/models/qp_whatsapp_server_extensions.go:31-51 | an entry is tried exactly if every option that applies is unset or true and the message is external, or forwarding is on and the entry is not of the system that sent it |
| Fanout.PanicsExactlyWhen | src/whatsapp/whatsapp_boolean.go:59-68 | a panic needs an applicable option out of range that no earlier filter has forestalled |
| Fanout.AdmittedInOrder | src/models/qp_whatsapp_server_extensions.go:23-57 | exactly the admitted entries, each once, in list order |
| Fanout.ExceptionsSinceSuccess | src/models/qp_dispatching.go:226-362 | a message ends with the failures after the last success, behind its old ones when nothing succeeded |
| Fanout.WebhookTimes | src/models/qp_dispatching.go:226-247 | over any attempts a webhook shows its last positive answer and the first failure since it |
| Fanout.QueueTimes | src/models/qp_dispatching.go:288-359 | a queue shows the end of its last attempt and nothing else |
| Fanout.NowhereToSend | src/models/qp_dispatching.go:151-300 | a queue without a connection string shows its first failure whatever is tried later; entries of an unknown kind show nothing |
| Fanout.QueueRecordIsNoProof | src/models/qp_dispatching.go:318-364 | the failing cases: a success is recorded for messages dropped as full or not encodable, and a failure for a published one, by reachable clients of any capacity |
| Fanout.Dispatch | src/models/qp_dispatching.go:151-369 | what one attempt records on the entry and on the message, by type and outcome |
| Fanout.PostToDispatching | src/models/qp_whatsapp_server_extensions.go:14-60 | the loop attempts, in order, exactly the entries that want the message by its id, chat id, kind and origin, up to the first that makes it panic, despite errors; exceptions and, for distinct objects, the times of every entry to match |
| ServerLifecycle.RunInv | src/models/qp_whatsapp_server.go:307-538 | every run keeps at most one handler, and none without a connection |
| ServerLifecycle.OneDispatchPerTrigger | src/models/dispatching_handler.go:259-300 | from construction on, one trigger reaches dispatching at most once |
| ServerLifecycle.GateExact | src/models/qp_whatsapp_server.go:376-388 | a start passes its gate exactly on a condition on connection, marks and pending stop that a caller can check |
| ServerLifecycle.RefusedStart | src/models/qp_whatsapp_server.go:372-388 | a refused start changes neither handlers nor the stop mark, and nothing at all where a connection exists |
| ServerLifecycle.FirstStart | src/models/qp_whatsapp_server.go:329-388 | a server never started before gets through exactly when verified; the refused one keeps the opened connection |
| ServerLifecycle.AdmittedStart | src/models/qp_whatsapp_server.go:390-488 | once through: exactly one handler if dialling raised no error, none otherwise; which connection is kept, when the server counts as verified, and when the result is nil |
| ServerLifecycle.StartedByDial | src/models/qp_whatsapp_server.go:390-429 | an admitted start without a fault ends with the link of the first dial if that is connected, else of the second; it is Ready exactly if that is connected and logged in, Connected if only connected, and a login makes it verified |
| ServerLifecycle.StartFailedByDial | src/models/qp_whatsapp_server.go:409-488 | one whose last dial fails gives up a link that came up and marks any other as failed; only an unauthorized fault costs the verified mark |
| ServerLifecycle.NothingToOpen | src/models/qp_whatsapp_server.go:329-370 | where no connection can be opened, start and EnsureReady change nothing but the verified mark, and that only when the stored device is gone |
| ServerLifecycle.LoggedOutCannotStart | src/models/qp_whatsapp_server.go:329-470 | after a logout a server with a wid is neither started nor made ready until it is reported connected again |
| ServerLifecycle.SilentSuccess | src/models/qp_whatsapp_server.go:475-488 | a nil result with no handler attached exists |
| ServerLifecycle.ReadyOutcome | src/models/qp_whatsapp_server.go:432-472 | EnsureReady attaches on any state unless opening or connecting fails |
| ServerLifecycle.ReadyByDial | src/models/qp_whatsapp_server.go:432-472 | EnsureReady dials once, only where the link is down; without a fault the server is verified and shows that link, with one it is left like after a failed start |
| ServerLifecycle.FailedStartCanBeRetried | src/models/qp_whatsapp_server.go:475-488 | after a failed start the kept connection shows as failed, and the next start is admitted exactly when one was kept or the server is verified |
| ServerLifecycle.StopLeavesStopped | src/models/qp_whatsapp_server.go:490-508 | an effective stop leaves Stopped or UnVerified, and which; no handler; a connected link is disposed |
| ServerLifecycle.StopTwice | src/models/qp_whatsapp_server.go:490-508 | a stop does nothing exactly when one is pending |
| ServerLifecycle.AfterStopping | src/models/qp_whatsapp_server.go:148-179 | after a stop, while only the outside moves, no handler; the state is Stopping exactly while an undisposed link is up |
| ServerLifecycle.StopHoldsExactly | src/models/qp_whatsapp_server.go:490-538 | after a stop the outside alone can bring the link up exactly when there is a client and it was not connected |
| ServerLifecycle.StopWhileConnecting | src/models/qp_whatsapp_server.go:526-538 | for instance one that was connecting |
| ServerLifecycle.RestartIsAdmitted | src/models/qp_whatsapp_server.go:510-523 | whatever the outside does in the second between stop and start, a restart finds Stopped or Stopping at the gate whenever there is an underlying connection, so the gate never refuses it |
| ServerLifecycle.ToggleIsAdmitted | src/models/qp_whatsapp_server.go:604-611 | nor a toggle |
| ServerLifecycle.StepSilent | src/models/qp_whatsapp_server.go:307-508 | the one step that leaves a stopped server with a handler is handing it a connection |
| ServerLifecycle.StoppedMeansSilent | src/models/qp_whatsapp_server.go:307-508 | in every run without that step a pending stop means no handler |
| ServerLifecycle.UnstoppableServer | src/models/qp_whatsapp_server.go:307-327 | after that step, handler and connection outlast every further stop |
| ServerLifecycle.QpWhatsappServer.Start | src/models/qp_whatsapp_server.go:372-429 | new state and result are those of the start function, for all answers of the outside |
| ServerLifecycle.QpWhatsappServer.EnsureReady | src/models/qp_whatsapp_server.go:432-472 | likewise for EnsureReady |
| ServerLifecycle.QpWhatsappServer.Stop | src/models/qp_whatsapp_server.go:490-508 | likewise for Stop |
| ServerLifecycle.QpWhatsappServer.Restart | src/models/qp_whatsapp_server.go:510-523 | likewise for Restart, with what the outside does while it waits |
| ServerLifecycle.QpWhatsappServer.UpdateConnection | src/models/qp_whatsapp_server.go:307-327 | the old connection is disposed, also when it is the one handed in; a handler is attached if none was |
| RtpProxy.LeastIsLeast | src/sipproxy/rtp_proxy.go:118-183 | the search returns the least even port that is free and bindable, and fails exactly when there is none |
| RtpProxy.RTPProxy.FindAvailablePort | src/sipproxy/rtp_proxy.go:118-183 | the loop over ports and streams returns that port |
| RtpProxy.CreateOutcome | src/sipproxy/rtp_proxy.go:47-115 | a known call gets its stream back unchanged; a failure leaves streams and open sockets as they were |
| RtpProxy.CreatedPorts | src/sipproxy/rtp_proxy.go:47-115 | a new call gets the least even port that no stream uses and the first probe finds bindable, and the least other one that the second does, with open sockets on both |
| RtpProxy.LocalPorts | src/sipproxy/rtp_proxy.go:391-447 | with a caller's port: that port, and the least even one beside it |
| RtpProxy.FirstPorts | src/sipproxy/sipproxy_settings.go:9-16 | where all is granted the first call gets 10000 and 10002 |
| RtpProxy.RunInv | src/sipproxy/rtp_proxy.go:47-455 | in every run all ports are even, in range and pairwise distinct and every open socket belongs to an active stream, a caller's own port being unused, even and in range |
| RtpProxy.LocalDistinctExactly | src/sipproxy/rtp_proxy.go:391-455 | with a caller's port, a port is taken twice exactly when the call is new, a second port is found, both listeners are allowed, the caller's port is 0 or nothing is bound on it, and yet an active stream goes by it |
| RtpProxy.DistinctWithoutHangUps | src/sipproxy/rtp_proxy.go:391-455 | while no stream ends by itself and no caller names port 0, no port is ever taken twice, whatever other ports callers name |
| RtpProxy.PortZeroTakenTwice | src/sipproxy/rtp_proxy.go:391-447 | two calls that name port 0 both get a stream, and both go by port 0 |
| RtpProxy.HungUpPortTakenTwice | src/sipproxy/rtp_proxy.go:186-188 | once a stream has ended by itself its port can be taken again |
| RtpProxy.StopUndoesCreate | src/sipproxy/rtp_proxy.go:312-329 | stopping a created call restores streams and sockets |
| RtpProxy.AtMost2500 | src/sipproxy/sipproxy_settings.go:9-16 | at most 2500 streams |
| RtpProxy.CapacityExact | src/sipproxy/rtp_proxy.go:47-183 | where the system grants every port, a new call succeeds exactly while fewer than 2500 are active |
| RtpProxy.RTPProxy.CreateRTPStream | src/sipproxy/rtp_proxy.go:47-115 | result, streams and sockets of the creation function; the very object of a known call |
| RtpProxy.RTPProxy.CreateRTPStreamWithLocalPort | src/sipproxy/rtp_proxy.go:391-455 | likewise with the caller's port |
| RtpProxy.RTPProxy.StopRTPStream | src/sipproxy/rtp_proxy.go:312-329 | closes both sockets, removes the call, deactivates that stream and no other |
| Annotations.SplitRespectingQuotes | src/mcp/mcp_swagger_parser.go:268-294 | the loop computes the tokens |
| Annotations.TokensKeepTheText | src/mcp/mcp_swagger_parser.go:268-294 | the tokens make up the text without its unquoted blanks, for every text |
| Annotations.SplitUndoesPrint | src/mcp/mcp_swagger_parser.go:268-294 | well-formed tokens come back whatever the blanks between them |
| Annotations.SplitExactly | src/mcp/mcp_swagger_parser.go:268-294 | a list is the tokens of a text exactly when it is well-formed and the text prints it |
| Annotations.SplitUndoesJoin | src/mcp/mcp_swagger_parser.go:268-294 | splitting inverts joining with single blanks, so splitting twice is splitting once |
| Annotations.BlankOrTab | src/mcp/mcp_swagger_parser.go:268-294 | a blank and a tab separate two tokens alike |
| Annotations.ParamOfTokens | src/mcp/mcp_swagger_parser.go:241-264 | a printed annotation is read as its tokens |
| Annotations.ParamOfWords | src/mcp/mcp_swagger_parser.go:250-264 | fewer than four words give nothing; unquoted words behind the fourth are the description, joined by single blanks |
| Annotations.ParamRoundTrip | src/mcp/mcp_swagger_parser.go:241-264 | all five fields come back exactly when the name starts with no space character |
| Annotations.ParseParam | src/mcp/mcp_swagger_parser.go:241-264 | computes the parameter of that specification |
| Waveform.GenerateWaveform | src/media/tools.go:340-399 | the loops stay in bounds and give 64 values, each that of the specification |
| Waveform.Bin | src/media/tools.go:359-384 | the block peaks and the scale |
| Waveform.ValueIsShare | src/media/tools.go:386-397 | value i is the rounded percentage of block i's peak in the scale, within 0..100; the clamps never cut |
| Waveform.WithinOneHalf | src/media/tools.go:386-397 | value i is within one half of that percentage |
| Waveform.ScaleIs | src/media/tools.go:365-383 | the scale is the larger of 0.001 and the loudest block |
| Waveform.LouderIsHigher | src/media/tools.go:386-397 | a louder block never gets the smaller value |
| Waveform.BlockOf | src/media/tools.go:359-372 | which samples a block covers; a remainder belongs to none |
| Waveform.FullScaleExactly | src/media/tools.go:365-397 | some value is 100 exactly when a covered sample reaches 0.000995 |
| Waveform.GainInvariant | src/media/tools.go:365-397 | changing the volume leaves the waveform as it is when some block is above the floor before and after |
| ChatId.FormatIdempotentExactly | src/whatsapp/whatsapp_extensions.go:36-82 | formatting twice is formatting once exactly unless a plus comes with a suffix that would not be accepted by itself |
| ChatId.UncheckedSuffix | src/whatsapp/whatsapp_extensions.go:51-55 | every other suffix behind a plus is accepted once and refused the second time |
| ChatId.SuffixesAllowed | src/whatsapp/whatsapp_extensions.go:57-63 | without a plus a suffix is accepted exactly if it is that of a group, a user or a lid |
| ChatId.BareNumber | src/whatsapp/whatsapp_extensions.go:73-77 | a bare number of 9 to 15 digits gets the id of a user, the one it gets behind a plus |
| ChatId.NumberOfOtherLength | src/whatsapp/whatsapp_extensions.go:73-81 | one of 8 or of more than 15 digits is taken for a group |
| ChatId.GroupOfCreator | src/whatsapp/whatsapp_extensions.go:65-71 | with a dash, the number in front of it decides between a group and a refusal |
| ChatId.WidIdempotent | src/whatsapp/whatsapp_extensions.go:24-33 | making a wid of a wid changes nothing |
| ChatId.PhonesToWids | src/whatsapp/whatsapp_extensions.go:13-21 | converts each element |
| ChatId.PhoneRoundTrip | src/library/phone.go:41-57 | every valid number is found again in the id made of it |
| ChatId.PhoneIsFixed | src/whatsapp/whatsapp_extensions.go:98-118 | what is accepted as a phone is a plus and a valid number and stays as it is |
| ChatId.PhonesAccepted | src/library/phone.go:41-57 | of the digits behind a plus, exactly 7 to 15 that do not start with 0 are a phone |
| ChatId.SessionMakesNoDifference | src/library/wid.go:11-18 | stripping the session id of a user's id first changes nothing in the number read |
| ChatId.StrippedOnce | src/library/wid.go:11-18 | what stripping yields never makes it panic; a session mark is left, and would be stripped further, exactly where the piece behind the first @ has one |
| ChatId.MarkLeftBehind | src/library/wid.go:11-18 | the failing case: of a@b:c the mark is left and b is written twice |
| ChatId.RemoveDigit9Once | src/library/phone.go:60-76 | the shortened number is valid, putting the 9 back restores it, and nothing is removed twice |
| ChatId.NinthDigit | src/library/phone.go:60-76 | the 9 behind the area code is removed exactly for area codes from 31 on without a 0 |

## Left out

- HTTP, SignalR, MCP transport, forms, metrics other than what the client adds to its three counters, logging and wall-clock waits: request plumbing; of the waits only their order remains.
- whatsmeow, AMQP, SQL, UDP, ffmpeg and the audio decoders: outcomes given as parameters.
- `EnsureExchangeAndQueues` and `quepasaSetupDone`: declared once per connection, no message passes through them.
- `RabbitMQClientInstance`: a singleton beside the manager's map.
- `src/library/cache.go`: a twin of the cache modelled here.
- RabbitMQ connection: a second loss before the monitor has noticed the first, and reads of the channel field without the lock tearing, are not distinguished from one atomic change.
- RabbitClient.RabbitMQClient.ProcessCache: one burst with the channel up; losing it in the middle is covered by the transition system, not by the method.
- ClientManager: waiting for a connection is one step; writer preference of the lock is not modelled. A Close that never returns only takes steps away, so what holds in every interleaving holds with it too.
- RabbitMQ capacity: any capacity is allowed; that a size of 0 means 100000 and that making a channel of an absurd size panics is construction.
- DispatchingTable.RunAgrees: leaves out Extra, Calls, Wid, timestamps and log entries, which are not columns of their own or not compared.
- DispatchingObjects.QpDataServerDispatchingSql.DispatchingAddOrUpdate: a nil dispatching, which is refused like one without a connection string; nil servers and nil handlers elsewhere are refused in the same way and not modelled.
- DispatchingObjects.QpDataDispatching.MoveUp: the list is a sequence, so a second slice sharing the array during the compaction is not modelled.
- Fanout.PostToDispatching: several fan-outs at once and a list changed while one runs.
- Messages.UpperFolds: letter case of ASCII letters only.
- Handler.RunIsBounded: the expiration period is a parameter, so the overflow of a huge number of cache days is outside; the clock is strictly increasing.
- Handler.DispatchingHandler.Message: how the connection knows a chat title and how a content is described; both are parameters. The id of the own number and the last-message times written by a trigger are not kept.
- Metrics: the counters are global to the package, added to by every client, and `MessagesPublished` also by the dispatching that made the call (src/models/qp_dispatching.go:341 and 350); the model counts one client's own increments.
- CleanUps.CleanUpsExactly: no other operation runs meanwhile, and no two entries expire at the same time. With equal expirations it also matters which of them each listing puts first (`EqualExpirations`).
- CacheInterleaving.OverlappingCleanUps: one family of schedules; all of them, for different expirations, in `CleanUps`.
- Duplicates: the printer of a protobuf message is any function, and deep equality is equality of the modelled fields.
- Cache.Sort: an insertion sort stands for the library's; both give a sorted permutation, and the order among equal expirations stays open in what is proved of the clean-up.
- ServerLifecycle.StopHoldsExactly: the outside may bring up any client that is left, also one the server never dialled, since asking for a pairing code dials it (src/whatsmeow/whatsmeow_connection.go:684, 720 and 766).
- ServerLifecycle.RunInv: runs are sequential; concurrent operations of one server, its deletion, and a connection interface holding a nil pointer are not modelled.
- RtpProxy: the port the system really picks for a caller's port 0 is not recorded by the source either, and not modelled; a port bound by another program between probe and listening is covered by the listeners being refused; forwarding itself; only that it may end by itself and close the sockets of its call.
- Annotations.SplitRespectingQuotes: text is a sequence of characters, so malformed UTF-8 is outside.
- ChatId.SessionMakesNoDifference: strings are bytes, and the white space trimmed is that of ASCII.
- `GetByTime`, `GetByPrefix`, `GetLeading`, `DetermineRoutingKey`, `GenerateToolName`: single reads or pure choices that would only add easy members.
