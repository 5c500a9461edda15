# NodePassDash verification

NodePassDash mirrors the tunnels of remote NodePass masters in a database. This project models the
parts of its Go backend that are algorithms or state machines in their own right and proves what
they promise, in Dafny 4.11. `dafny verify dfyconfig.toml` checks all of it.

Most components come as two modules. The first holds the state as values, one function per step and
the theorems over every input, every run or every interleaving. The second, named `...Code` or
`...Manager`, holds the methods with their loops, shared objects and in-place updates, each proved
to be the step, or the part of a step under one lock, or the function that the theorems are about.

- **Tunnel URLs** (`Text`, `Decimal`, `QueryEscape`, `HostPort`, `TunnelOptions`, `OptionTexts`,
  `TunnelUrl`, `TunnelUrlCode`, `TunnelConfigUrl`, `TunnelConfigCode`, `ParameterOrder`): the parser and both
  printers of `type://password@addr:port/target:port,more?params`. The round trip holds exactly for
  well-formed tunnels, a condition that looks at one field at a time; when the order of the
  parameters matters has an exact condition as well.
- **Traffic history** (`TrafficHistory`, `TrafficPipeline`, `TrafficManager`): hour cache, bounded
  channel, buffer and upserts, in every interleaving.
- **Tunnel cache** (`TunnelCache`, `TunnelCacheCode`): the write-behind dirty set, the index by
  instance id and the sorted view.
- **Archive manager** (`Archive`, `ArchiveCode`): W workers, a timer and a closer around one buffer.
- **History worker** (`HistoryWorker`, `HistoryWorkerCode`): batches of twelve points per instance
  and their aggregation over real numbers.
- **Hourly trend** (`TrafficTrend`, `TrafficTrendCode`): group, sort, difference, sum, cut off.
- **Service totals** (`ServiceView`, `ServiceViewCode`): totals kept as a materialised view.
- **SSE manager** (`SseManager`, `SseManagerCode`): connections and listener contexts.
- **Reconciliation** (`TunnelRefresh`): the table against a remote list, in one transaction.
- **Hub, memory, scheduler** (`WebSocketHub`, `MemoryLedger`, `TaskScheduler`).

`Wrappers`, `Tunnels` and `Sequences` hold what several of these share.

## Where the code falls short of a plain promise

These are proved with their exact condition or with a concrete run.

- A refresh is not idempotent for newly created tunnels: an insert fills in the column defaults, and
  the empty log level that a URL without `log=` gives is stored as `inherit`, while the update of the
  next refresh stores it empty; an empty service id is kept by an insert and cleared by an update
  (`TunnelRefresh.IdempotentExactly`).
- The password ends at the first '@' of the URL, even one inside a parameter, so the order of the
  parameters can change it (`ParameterOrder.PasswordIsFixedExactly`,
  `ParameterOrder.NameServerWithAt`). Likewise the type ends at the first "://", so without a scheme
  in front a parameter that holds one takes over (`ParameterOrder.SchemeIsCut`,
  `ParameterOrder.NameServerWithScheme`).
- A persist clears the whole dirty set after its transaction, so updates in between are not written
  until the tunnel is touched again (`TunnelCache.UpdatesDuringPersist`,
  `TunnelCache.UpdateDuringPersist`).
- A disconnect does not last when the daemon already has the endpoint in hand: its reconnect revives
  it (`SseManager.DisconnectLastsExactly`, `SseManager.DisconnectCanBeUndone`).
- A clean-up of idle piles can fall between the lookup of a pile and the append of a new point, which
  then goes with the pile (`HistoryWorker.CleanupBetweenDropsPoint`, `HistoryWorker.RecentPileSurvives`).
- A tick starts what it collected even if a forced run has served the moment meanwhile
  (`TaskScheduler.StillDueExactly`, `TaskScheduler.ForcedRunCanRepeat`).
- The hub requests removals on a queue that only the hub itself serves, and blocks for good when it
  is full (`WebSocketHub.BroadcastBlocksExactly`, `WebSocketHub.HubCanBlock`).
- The traffic snapshot belongs to the endpoint although readings come per instance
  (`MemoryLedger.SharedIsSumExactly`, `MemoryLedger.IdleInstancesAccumulate`).
- The fallback speed without elapsed time is not aware of resets and can be negative
  (`HistoryWorker.NegativeSpeed`).
- The two URL printers disagree on a dial address or name server that is set but empty
  (`TunnelConfigUrl.PrintersAgree`).
- An update without a peer changes a tunnel's counters but not the totals of the service that the
  tunnel still belongs to, and a changed peer leaves the old service's totals behind
  (`ServiceView.StepIsRightExactly`, `ServiceView.UpdateWithoutPeerIsForgotten`).
- Two events of one service handled at a time can store a stale total (`ServiceView.StaleTotal`).
- `Close` of the archive manager does not drain its queue (`Archive.QueueAtCancelDecides`,
  `Archive.CloseLeavesRecord`).
- A failed traffic batch is dropped (`TrafficPipeline.KeyIsWholeExactly`,
  `TrafficPipeline.NewestIsLatestExactly`, `TrafficPipeline.FailedBatchLosesPoints`).

Comments in the Go code speak of thirty points per batch of the history worker; the constant is
twelve, and the model follows the constant.

## Model

| member | source | states |
|---|---|---|
| `QueryEscape.RoundTrip` | internal/nodepass/parse.go:752-758 | percent-encoding with '+' for space is undone by decoding, on every byte text |
| `QueryEscape.UnescapeMeans` | internal/nodepass/parse.go:171-184 | decoding reads a text as exactly the bytes it spells: '+' as a space, '%' with two hex digits of either case as their byte, any other byte as itself |
| `QueryEscape.MalformedExactly` | internal/nodepass/parse.go:171-184 | decoding succeeds exactly when every '%' is followed by two hex digits |
| `QueryEscape.EscapeMeans` | internal/nodepass/parse.go:752-758 | encoding writes letters, digits and '-', '_', '.', '~' as they are, a space as '+', and any other byte as '%' with two upper-case hex digits |
| `Decimal.RoundTrip` | internal/nodepass/parse.go:760-770 | every 64-bit integer written with %d is read back by ParseInt and Atoi |
| `Decimal.ParseMeans` | internal/nodepass/parse.go:185-218 | a text is read as a 64-bit integer exactly when it denotes one: digits, perhaps behind a sign, leading zeros allowed, in range |
| `HostPort.Exact` | internal/nodepass/parse.go:633-692 | parsing a printed host and port gives them back exactly when the address is separable: empty, bracketed or colon-free host, or a bare IPv6 host with a port in 1..65535, without white space at either end, and no lone host that reads as a number |
| `HostPort.BracketDropsRest` | internal/nodepass/parse.go:633-692 | behind a bracketed host a colon starts the port, and anything else is dropped |
| `HostPort.BareHostReads` | internal/nodepass/parse.go:633-692 | behind a host with colons of its own a number from 1 to 65535 is the port, and any other text stays part of the host |
| `Text.SpacesAreWhite` | internal/nodepass/parse.go:633-640 | what is trimmed from an address are the UTF-8 encodings of exactly the characters with Unicode's white-space property |
| `Text.SpecialLetters` | internal/nodepass/parse.go:153-170 | the two characters beyond ASCII whose lower-case form is an ASCII letter read as that letter, wherever they stand |
| `HostPort.ReprintExact` | internal/nodepass/parse.go:116-123 | an extra target comes back unchanged exactly when it is a host:port text, without white space at either end, that splits at its port's colon |
| `HostPort.ParseKeeps` | internal/nodepass/parse.go:633-692 | the address parser puts no byte into host or port that was not in the text |
| `HostPort.ParseShrinks` | internal/nodepass/parse.go:633-692 | a parsed address that has a host, or came from a text with a colon, prints no longer than that text |
| `TunnelOptions.ScanIsValues` | internal/nodepass/parse.go:129-263 | with distinct parameter names the parsing loop computes the order-free view of name and value |
| `TunnelOptions.OrderDoesNotMatter` | internal/nodepass/parse.go:129-287 | permuting parameters with distinct names never changes the parsed options |
| `TunnelOptions.ReadListed` | internal/nodepass/parse.go:129-287 | a query printed in any parameter order reads as the values that were printed |
| `TunnelOptions.ListenTypeReads` | internal/nodepass/parse.go:264-287 | the notcp/noudp encoding of the listen type is undone exactly for unset, TCP, UDP and ALL |
| `OptionTexts.ListenTypeMeans` | internal/nodepass/parse.go:262-287 | for any query of distinct names: TCP counts unless a `notcp=1` is there, UDP unless a `noudp=1` is, as soon as one of the two names is there, and without either the listen type is unset |
| `OptionTexts.LogReads` | internal/nodepass/parse.go:153-170 | an ASCII log parameter reads as the known level with the same letters in either case, and as no level if there is none |
| `OptionTexts.PathsRead` | internal/nodepass/parse.go:171-241 | certificate path, key path and dial address read as what they spell, or as they stand when an escape in them is malformed |
| `OptionTexts.PlainSpellsItself` | internal/nodepass/parse.go:171-184 | so a path without '%' and '+' reads as it stands |
| `OptionTexts.NumbersReadText` | internal/nodepass/parse.go:185-218 | min, max, rate and slot read as the 64-bit integer that their text denotes, and as missing when it denotes none |
| `OptionTexts.SmallNumbersRead` | internal/nodepass/parse.go:244-256 | the pool type and the blocking read as the number that their text denotes, as long as it is in range |
| `OptionTexts.ChoicesRead` | internal/nodepass/parse.go:193-228 | run mode and proxy flag read as the digits they know, and as missing for any other text |
| `OptionTexts.TlsReads` | internal/nodepass/parse.go:142-152 | the TLS mode is read for servers only, and only from 0, 1 and 2 |
| `OptionTexts.TextsReadAsTheyStand` | internal/nodepass/parse.go:205-251 | name server, server name and read timeout read as they stand; an empty read timeout counts as missing |
| `OptionTexts.MissingReadsDefault` | internal/nodepass/parse.go:129-262 | a parameter whose name does not occur reads as unset |
| `OptionTexts.LastCounts` | internal/nodepass/parse.go:129-262 | when a name occurs again the later one counts: a later name server always, a later minimum if its text denotes a number |
| `TunnelOptions.FieldsExact` | internal/nodepass/parse.go:739-820 | all eighteen printed parameters read back as the same options exactly when the option values are in range |
| `TunnelUrl.SectionsRead` | internal/nodepass/parse.go:57-127 | with every delimiter in its place, type, password, tunnel address, targets and query are each read on their own |
| `TunnelUrl.OtherKindReads` | internal/nodepass/parse.go:57-68 | a scheme other than client and server is dropped and leaves no type |
| `TunnelUrl.NoKindReads` | internal/nodepass/parse.go:57-68 | a text without ':' is read on from its start, without a type |
| `TunnelUrl.EmptyPasswordReads` | internal/nodepass/parse.go:70-80 | an '@' with nothing before it is dropped and leaves no password |
| `TunnelUrl.PathExact` | internal/nodepass/parse.go:105-127 | the target list comes back exactly when the first target is separable and every extra one is a host:port text |
| `TunnelUrl.QueryExact` | internal/nodepass/parse.go:739-825 | the query comes back exactly when the options are in range |
| `TunnelUrl.ParsedIsSeparatorFree` | internal/nodepass/parse.go:43-290 | whatever text is parsed, the fields it gives hold no delimiter of the sections they came from |
| `TunnelUrl.AtBreaks` | internal/nodepass/parse.go:70-80 | without a password, a printed tunnel that comes back has no '@' anywhere |
| `TunnelUrl.RoundTrip` | internal/nodepass/parse.go:696-828 | `ParseTunnelURL(BuildTunnelURLs(t))` returns a well-formed tunnel on every configuration field |
| `TunnelUrl.RoundTripExact` | internal/nodepass/parse.go:43-290 | the round trip holds exactly for well-formed tunnels, for every tunnel whose integers fit Go's types |
| `TunnelUrl.BuildIsInjective` | internal/nodepass/parse.go:696-828 | two well-formed tunnels with the same URL are the same tunnel |
| `TunnelUrl.QuestionMarkExactly` | internal/nodepass/parse.go:822-825 | a question mark is printed exactly when some option is, for a tunnel with none in its other fields |
| `TunnelUrlCode.ParseParameters` | internal/nodepass/parse.go:129-287 | the parameter loop equals the option reader that the round trip and the laws about option texts are about |
| `TunnelUrlCode.ParseTargets` | internal/nodepass/parse.go:105-127 | the loop over comma-separated targets equals the path reader |
| `TunnelUrlCode.ParseTunnelURL` | internal/nodepass/parse.go:43-290 | the whole parser, written with its loops, equals the specification `ParseUrl` |
| `TunnelUrlCode.PrintParameters` | internal/nodepass/parse.go:739-820 | the conditional appends produce the parameters in the printer's order, none more and none less |
| `TunnelUrlCode.BuildTunnelURLs` | internal/nodepass/parse.go:696-828 | the appended and joined parts are the URL that the round trip is about |
| `TunnelConfigUrl.PrintersAgree` | internal/nodepass/parse.go:505-631 | for a well-formed tunnel the two printers' URLs parse to the same tunnel exactly when neither dial nor dns is set but empty, which only one of them prints |
| `ParameterOrder.ParametersMayBePermuted` | internal/nodepass/parse.go:43-290 | permuting parameters with distinct names changes nothing in the parsed tunnel but the stored command line, provided the text before them has a scheme or none occurs anywhere, and it has an '@' or no parameter has one |
| `ParameterOrder.PasswordIsFixedExactly` | internal/nodepass/parse.go:70-80 | the password is the same for every order of the parameters exactly when an '@' stands before them, none of them holds one, or all hold one behind the same text |
| `ParameterOrder.SwapChangesPassword` | internal/nodepass/parse.go:70-80 | with no '@' in front, swapping a parameter that holds one with a parameter that does not changes the password |
| `ParameterOrder.NameServerWithAt` | internal/nodepass/parse.go:70-80 | `client://h:1?dns=a@b&log=info` and its other order have different passwords |
| `ParameterOrder.SchemeIsCut` | internal/nodepass/parse.go:57-68 | with no scheme in front and one in a parameter, all up to that scheme is dropped: the parameter behind it is read on with the address, the one before it is not read |
| `ParameterOrder.SwapChangesTunnel` | internal/nodepass/parse.go:57-127 | in that case, with a plain address behind the parameter's scheme, swapping the two parameters changes the password or the tunnel address |
| `ParameterOrder.NameServerWithScheme` | internal/nodepass/parse.go:57-127 | `h?dns=x://y&log=info` and its other order differ in password or tunnel address |
| `TunnelConfigCode.BuildTunnelConfigURL` | internal/nodepass/parse.go:505-631 | the second printer's appended parts are the URL that the agreement is about |
| `TrafficPipeline.HourOf` | internal/traffic/history.go:129-130 | the hour of a point is the full hour at or before it |
| `TrafficPipeline.ChannelWithinCapacity` | internal/traffic/history.go:182-198 | the bounded channel never holds more than its capacity |
| `TrafficHistory.CacheKeyInjective` | internal/traffic/history.go:426-428 | equal cache keys come from equal endpoint, instance and hour, although instance ids may contain '_' |
| `TrafficHistory.UpsertAllMeans` | internal/traffic/history.go:268-323 | after a batch the table has at most one row per key, holding the sum of all increments and the latest absolute totals of that key |
| `TrafficHistory.PartitionDoesNotMatter` | internal/traffic/history.go:268-323 | any split of a record sequence into committed batches leaves the same table as upserting one by one |
| `TrafficPipeline.StepHolds` | internal/traffic/history.go:121-265 | one step of any goroutine changes what the stages hold for a key by exactly the point it adds |
| `TrafficPipeline.Conservation` | internal/traffic/history.go:121-323 | in every interleaving the increments and sample counts of each endpoint, instance and hour in cache, channel, buffer, table and failed batches are those of all points added |
| `TrafficPipeline.NewestIsLatest` | internal/traffic/history.go:121-323 | when no failed batch held the key, the newest stage that holds it carries the absolute totals of its last point |
| `TrafficPipeline.NothingMissingExactly` | internal/traffic/history.go:121-323 | over every run from the empty state, cache, channel, buffer and table hold all points of every key exactly when no failed flush met a buffer with records in it |
| `TrafficPipeline.KeyIsWholeExactly` | internal/traffic/history.go:121-323 | for one endpoint, instance and hour they hold all its points exactly when no failed flush met a record of it |
| `TrafficPipeline.NewestIsLatestExactly` | internal/traffic/history.go:121-323 | for one endpoint, instance and hour the newest stage holding it carries the totals of its last point, unless a failed flush took its newest record and no point followed; then only the table is left, with its older totals |
| `TrafficPipeline.EmptyConserves` | internal/traffic/history.go:121-323 | conservation from the empty state, with nothing assumed |
| `TrafficPipeline.FailedBatchLosesPoints` | internal/traffic/history.go:121-265 | for any point, the run that adds, moves and receives it and then fails to write it leaves it in no stage |
| `TrafficPipeline.PointsReachTable` | internal/traffic/history.go:121-323 | after any run in which no failed flush takes a record of the key, moving every cached record with room in the channel, receiving all and one committed flush leave cache, channel and buffer empty and the key's row with the sums and last totals of all its points |
| `TrafficPipeline.DrainFillsTable` | internal/traffic/history.go:182-323 | from any state that keeps the invariant, such a drain puts into the table, key by key, everything that cache, channel, buffer and table held, and the newest totals |
| `TrafficPipeline.MovesMean` | internal/traffic/history.go:182-198 | moving cached records one by one takes each out of the cache and to the channel's end in order as long as there is room, and keeps the rest cached |
| `TrafficPipeline.AddMerges` | internal/traffic/history.go:121-180 | an added point is summed into the record of its own hour, whose totals become its own, and no other record changes |
| `TrafficManager.HistoryManager.AddTrafficPoint` | internal/traffic/history.go:121-180 | a point is summed into the record of its hour, its totals become that record's, and every other record stays |
| `TrafficManager.HistoryManager.FlushAggregateCache` | internal/traffic/history.go:182-198 | the loop over the cache visits every key once and moves each record, or keeps it when the channel is full |
| `TrafficManager.HistoryManager.ReceiveRecord` | internal/traffic/history.go:218-243 | receiving appends the channel's head to the buffer and asks for a flush from one hundred records on |
| `TrafficManager.HistoryManager.BatchWrite` | internal/traffic/history.go:268-323 | the transaction's loop is the upsert of the whole batch, or nothing when it fails |
| `TrafficManager.HistoryManager.FlushBuffer` | internal/traffic/history.go:246-265 | a flush empties the buffer: committed, every key's row gains exactly the buffer's sums and last totals and nothing is lost; failed, the table stays and the lost records gain exactly the buffer |
| `TunnelCache.WriteRowsSettles` | internal/tunnelcache/shared.go:559-605 | a persisted tunnel agrees with its row on status, counters and every optional that is not nil, and a persist never writes names or sort orders |
| `TunnelCache.TrafficReachesRow` | internal/tunnelcache/shared.go:342-365 | from a settled state the four counters given to a traffic update are, each in its own column, what a forced persist leaves in the row, beside the cached status |
| `TunnelCache.UpdatesStore` | internal/tunnelcache/shared.go:307-379 | a status or traffic update of a listed tunnel stores exactly the values given, each in its place, marks it dirty, and changes no other tunnel |
| `TunnelCache.MetricsStore` | internal/tunnelcache/shared.go:381-412 | a metrics update of a listed tunnel stores each value given in its own place, keeps those not given, and changes no other tunnel |
| `TunnelCache.FieldStores` | internal/tunnelcache/shared.go:428-476 | a field update writes a value of the right type into the named field only, and with an unsupported name changes nothing |
| `TunnelCache.PersistSettles` | internal/tunnelcache/shared.go:534-624 | a persist that is too early, commits or rolls back keeps clean tunnels in agreement with their rows |
| `TunnelCache.ForcePersistSettles` | internal/tunnelcache/shared.go:626-638 | a forced persist without error leaves every tunnel in agreement with its row, nothing dirty, and the interval restored; with an error it changes nothing |
| `TunnelCache.PersistWaits` | internal/tunnelcache/shared.go:534-547 | after a persist that ran, even with nothing to write, the next does nothing until the interval has passed, whatever the cache was told in between, while a failed one may be repeated at once |
| `TunnelCache.RowsExactly` | internal/tunnelcache/shared.go:559-605 | in every run the cache neither adds nor removes rows: there are exactly those that others inserted and did not remove |
| `TunnelCache.StepSettles` | internal/tunnelcache/shared.go:243-638 | every cache operation keeps the dirty set inside the list and clean tunnels in agreement with their rows |
| `TunnelCache.RunSettles` | internal/tunnelcache/shared.go:243-638 | the same over every run of operations, row inserts and removals, persists and reloads |
| `TunnelCache.AddSettlesExactly` | internal/tunnelcache/shared.go:245-266 | adding a tunnel keeps the agreement exactly when it carries the values of its row or is dirty already |
| `TunnelCache.UpdatesDuringPersist` | internal/tunnelcache/shared.go:541-617 | a persist writes and clears under separate locks: whatever run of events falls in between, the result is settled exactly when every tunnel touched in between still agrees with its row |
| `TunnelCache.UpdateDuringPersist` | internal/tunnelcache/shared.go:541-617 | for any one update in between, of status, traffic, metrics, field or the whole tunnel, the result is settled exactly when the update left the persisted values as they were |
| `TunnelCache.LoadedStaysRight` | internal/tunnelcache/shared.go:42-102 | from a freshly loaded cache, in every run that keeps to the callers' discipline clean tunnels agree with their rows, and index and view are right |
| `TunnelCache.PersistScheduleDoesNotMatter` | internal/tunnelcache/shared.go:534-638 | runs that differ only in their persists leave the same tunnels with the same status and counters in the table after a forced persist |
| `TunnelCache.IndexAfterAdd` | internal/tunnelcache/shared.go:245-256 | adding keeps lookup by instance id equal to a scan exactly when no other tunnel has the name and the id leaves no other name behind |
| `TunnelCache.IndexAfterDelete` | internal/tunnelcache/shared.go:268-280 | deleting keeps lookup by instance id equal to a scan |
| `TunnelCache.IndexAfterReplace` | internal/tunnelcache/shared.go:478-516 | replacing a tunnel keeps lookup equal to a scan exactly when no other tunnel carries the new name |
| `TunnelCache.IndexAfterReload` | internal/tunnelcache/shared.go:72-102 | loading gives a right index exactly when the table's instance names are distinct |
| `TunnelCache.RunIndexes` | internal/tunnelcache/shared.go:150-161 | with distinct names, lookup by instance id equals a linear scan of the list in every reachable state |
| `TunnelCache.StepViews` | internal/tunnelcache/shared.go:104-124 | each step keeps every id once and newest first, and says exactly when the stamps stay current |
| `TunnelCache.RunViews` | internal/tunnelcache/shared.go:104-124 | the sorted view holds each id of the list exactly once, newest first, in every reachable state |
| `TunnelCacheCode.TunnelShared.SortList` | internal/tunnelcache/shared.go:104-124 | the rebuilt view holds each listed tunnel once, newest first |
| `TunnelCacheCode.TunnelShared.GetByInstanceID` | internal/tunnelcache/shared.go:150-161 | with a right index the answer is the tunnel a scan would find, or none when a scan finds none |
| `TunnelCacheCode.TunnelShared.AddTunnel` | internal/tunnelcache/shared.go:245-266 | adding is the model's add step, with the view it sorts |
| `TunnelCacheCode.TunnelShared.DeleteTunnel` | internal/tunnelcache/shared.go:268-291 | deleting is the model's delete step: list, index, view and dirty set |
| `TunnelCacheCode.TunnelShared.UpdateStatus` | internal/tunnelcache/shared.go:307-326 | a status update writes one shared object and marks it dirty |
| `TunnelCacheCode.TunnelShared.UpdateStatusByInstanceID` | internal/tunnelcache/shared.go:328-340 | the update by name reaches the indexed tunnel, or nothing |
| `TunnelCacheCode.TunnelShared.UpdateTraffic` | internal/tunnelcache/shared.go:342-365 | a traffic update writes the four counters of one object and marks it dirty |
| `TunnelCacheCode.TunnelShared.UpdateMetrics` | internal/tunnelcache/shared.go:381-412 | a metrics update writes the given values only and marks the tunnel dirty |
| `TunnelCacheCode.TunnelShared.UpdateField` | internal/tunnelcache/shared.go:428-476 | an unsupported field leaves the tunnel clean, a value of the wrong type marks it dirty unchanged |
| `TunnelCacheCode.TunnelShared.UpdateFullTunnel` | internal/tunnelcache/shared.go:478-522 | replacing the object moves its name in the index and keeps the old object in the sorted view |
| `TunnelCacheCode.TunnelShared.PersistIfNeeded` | internal/tunnelcache/shared.go:534-624 | the transaction's loop over the dirty ids is the model's persist, with its error result |
| `TunnelCacheCode.TunnelShared.Force` | internal/tunnelcache/shared.go:626-638 | a forced persist ignores the interval and restores it; without error everything agrees |
| `TunnelCacheCode.TunnelShared.LoadFromDB` | internal/tunnelcache/shared.go:72-102 | loading replaces list and index by the table's rows |
| `TunnelCacheCode.TunnelShared.ReloadAll` | internal/tunnelcache/shared.go:810-828 | a reload replaces list, index and view and forgets what was dirty |
| `Archive.StepBounded` | internal/scheduler/archive_manager.go:192-297 | every step keeps the buffer and every batch within the bound given by the pending workers |
| `Archive.RunBounded` | internal/scheduler/archive_manager.go:192-297 | in every interleaving of W workers and the timer, the shared buffer, every flushed batch and the running average are at most BatchSize - 1 + W |
| `Archive.StartBounded` | internal/scheduler/archive_manager.go:173-297 | from the start, with the configured number of workers and two by default, the buffer and every batch are at most BatchSize - 1 + W, and no batch is empty |
| `Archive.CancelledExactly` | internal/scheduler/archive_manager.go:521-533 | in every run the manager is cancelled exactly from the first cancellation on |
| `Archive.AverageHalves` | internal/scheduler/archive_manager.go:280-284 | writing a batch moves the running average half the way to its length, rounded down, and nothing else moves it |
| `Archive.TickFlushes` | internal/scheduler/archive_manager.go:255-297 | an undisturbed tick of the timer empties the buffer, whatever its length, into one committed or failed batch |
| `Archive.BoundIsReached` | internal/scheduler/archive_manager.go:192-267 | for every batch size and number of workers some interleaving does reach BatchSize - 1 + W |
| `Archive.Conservation` | internal/scheduler/archive_manager.go:192-348 | in every interleaving each accepted record is queued, held by a worker, buffered, in flight, committed or in a failed batch, as often as it was accepted |
| `Archive.QueueWithinCapacity` | internal/scheduler/archive_manager.go:121-127 | the archive queue never holds more than its capacity |
| `Archive.CopiesMember` | internal/scheduler/archive_manager.go:192-348 | a record counts as present exactly when it is in the sequence |
| `Archive.RunCounts` | internal/scheduler/archive_manager.go:299-348 | in every run the tables hold the committed traffic and status records in order, and the counters equal what was committed and what failed |
| `Archive.TotalIsSum` | internal/scheduler/archive_manager.go:338-345 | TotalArchived equals TrafficRecords + StatusChanges exactly when no committed record is of another type |
| `Archive.ProducersCount` | internal/scheduler/archive_manager.go:406-491 | with the two existing producers TotalArchived = TrafficRecords + StatusChanges in every run |
| `Archive.RunCloses` | internal/scheduler/archive_manager.go:521-533 | the closer starts once workers and timer have stopped, and then the buffer stays empty |
| `Archive.AfterClose` | internal/scheduler/archive_manager.go:521-533 | after Close the buffer is empty and no goroutine carries a record: everything accepted is committed, failed or still queued |
| `Archive.AllCommittedExactly` | internal/scheduler/archive_manager.go:521-533 | after Close everything accepted has been committed exactly when no batch failed and the queue is empty |
| `Archive.QueueAtCancelDecides` | internal/scheduler/archive_manager.go:521-533 | the state at cancellation decides: with no later offer and every write committing, everything is committed in every completion of Close exactly when the queue was empty then |
| `Archive.CloseLeavesRecord` | internal/scheduler/archive_manager.go:521-533 | with one worker and room in the queue, a run of Close ends with an accepted record still queued |
| `ArchiveCode.ArchiveManager.Send` | internal/scheduler/archive_manager.go:484-490 | a producer's send is accepted exactly when the queue has room |
| `ArchiveCode.ArchiveManager.AddToBatch` | internal/scheduler/archive_manager.go:235-245 | for every worker that holds the record, appending it is the shared part of the model's append step |
| `ArchiveCode.ArchiveManager.ShouldFlushBatch` | internal/scheduler/archive_manager.go:247-253 | the answer is what the model's check step decides for every worker that has appended |
| `ArchiveCode.ArchiveManager.TakeBuffer` | internal/scheduler/archive_manager.go:255-267 | for every goroutine about to flush, last or not, this is the model's taking step, and the batch is what it then writes |
| `ArchiveCode.ArchiveManager.ProcessBatch` | internal/scheduler/archive_manager.go:299-348 | the grouping loop inserts both groups and counts them, or counts one error |
| `ArchiveCode.ArchiveManager.FlushBatch` | internal/scheduler/archive_manager.go:255-297 | for every goroutine about to flush, last or not, an undisturbed flush is its taking and its writing step; a batch that was not empty joins the committed or the failed ones |
| `HistoryWorker.DataKeyInjective` | internal/sse/history_worker.go:364-367 | two instances never share a key, although instance ids may contain '_' |
| `HistoryWorker.RemoveEndpointExact` | internal/sse/history_worker.go:378-390 | removing an endpoint hits exactly its own keys with a non-empty instance id |
| `HistoryWorker.InstancesAreIndependent` | internal/sse/history_worker.go:154-232 | after any interleaved stream an instance's emitted batches and its pile are those of its own sub-stream run alone |
| `HistoryWorker.RunInv` | internal/sse/history_worker.go:202-232 | in every run every batch has exactly twelve points of one instance and every pile fewer than twelve |
| `HistoryWorker.AllAreAppended` | internal/sse/history_worker.go:151-207 | in every run, whatever is removed, the points taken up for an instance are its appended points and the one in hand, in order |
| `HistoryWorker.NothingLost` | internal/sse/history_worker.go:151-232 | without removals the batches of an instance followed by its pile are exactly its appended points in order |
| `HistoryWorker.PileIsRest` | internal/sse/history_worker.go:151-232 | without removals an instance with n appended points has n / 12 batches and its pile is the last n % 12 points |
| `HistoryWorker.BatchesAreTwelves` | internal/sse/history_worker.go:151-232 | without removals the i-th batch of an instance is points 12i to 12i + 11 of its appended points |
| `HistoryWorker.OnlyPilesAreLost` | internal/sse/history_worker.go:151-232 | in every run the appended points are kept or were dropped with a pile, at most eleven a removal, even for a removal between a lookup and its append |
| `HistoryWorker.RecentPileSurvives` | internal/sse/history_worker.go:480-495 | after an append a pile survives a clean-up exactly if it had not left the map since its lookup and the clean-up is within ten minutes |
| `HistoryWorker.CleanupBetweenDropsPoint` | internal/sse/history_worker.go:151-207 | a clean-up between the lookup and the append of an idle instance's next point leaves nothing of the pile and the point |
| `HistoryWorker.RowIsOwn` | internal/sse/history_worker.go:245-252 | the history row of a batch names the instance of every point in it and counts twelve |
| `HistoryWorker.AggregateMeans` | internal/sse/history_worker.go:236-343 | the history row column by column: with a later last point, each speed times the time is the rise of its own two counters, where a counter that fell gives its last reading; counters, pool and connections are the last point's; the ping is the average of the pings that are there |
| `HistoryWorker.PingsAddUp` | internal/sse/history_worker.go:308-323 | the sum and the number of pings add up over the parts of a batch, each ping that is present counting once with its value |
| `HistoryWorker.RemovalMeans` | internal/sse/history_worker.go:369-495 | each removal drops exactly its own piles, a clean-up those idle for more than six hundred seconds, and every pile that stays is as it was |
| `HistoryWorker.NegativeSpeed` | internal/sse/history_worker.go:259-306 | for non-negative readings an average speed is negative exactly when the clock did not advance and the two counters together fell |
| `HistoryWorker.SpeedTimesTime` | internal/sse/history_worker.go:262-289 | speed times time is the change of the counters exactly when neither fell |
| `HistoryWorker.PingIsAverage` | internal/sse/history_worker.go:308-323 | the average ping lies between any bounds of the pings that are present, and is zero without any |
| `HistoryWorkerCode.Worker.GetOrCreate` | internal/sse/history_worker.go:154-179 | the first half of the processing is the model's lookup, whatever else is in hand |
| `HistoryWorkerCode.Worker.AppendToPile` | internal/sse/history_worker.go:181-207 | the second half, for a pile still in the map, is the model's append; the twelfth point empties the pile into a batch |
| `HistoryWorkerCode.Worker.ProcessMonitoringData` | internal/sse/history_worker.go:151-207 | with nothing in between a point is looked up and appended |
| `HistoryWorkerCode.Worker.TriggerBatchWrite` | internal/sse/history_worker.go:209-232 | a short pile is left alone, a full one becomes a batch and is emptied |
| `HistoryWorkerCode.Worker.RemoveInstanceStatus` | internal/sse/history_worker.go:369-376 | exactly the instance's own pile is dropped |
| `HistoryWorkerCode.Worker.RemoveEndpointStatus` | internal/sse/history_worker.go:378-390 | the prefix loop drops exactly the keys under the endpoint |
| `HistoryWorkerCode.Worker.CleanupIdleEntries` | internal/sse/history_worker.go:480-495 | exactly the piles idle for more than ten minutes are dropped |
| `HistoryWorkerCode.AggregatePoints` | internal/sse/history_worker.go:236-343 | the aggregation with its ping loop gives the row that the aggregation lemmas describe, with every column tied to the points; an empty batch gives none |
| `TrafficTrend.HourlyHolds` | internal/dashboard/service.go:427-484 | there is an item for exactly the hours with a neighbouring pair, holding the sums and the count over the pairs of that hour |
| `TrafficTrend.ItemMeans` | internal/dashboard/service.go:430-484 | from the readings alone: there is an item for exactly the hours at which a pair of an instance's neighbouring records ends, it counts these pairs, and each counter is the sum of current minus previous over those of them that do not fall |
| `TrafficTrend.GroupingIsUnique` | internal/dashboard/service.go:403-425 | when (instance, hour) pairs are unique, permuted input gives the same sorted groups |
| `TrafficTrend.OrderDoesNotMatter` | internal/dashboard/service.go:430-484 | the order in which the map gives the instances changes no hour's sum or count |
| `TrafficTrend.InputOrderDoesNotMatter` | internal/dashboard/service.go:393-508 | when (instance, hour) pairs are unique the result depends neither on the input order nor on the map's iteration order |
| `TrafficTrend.TrendShape` | internal/dashboard/service.go:486-507 | items are non-negative, strictly ascending by hour, at most `hours` of them, and every hour left out is older |
| `TrafficTrend.TrendTelescopes` | internal/dashboard/service.go:432-484 | over all hours before the cut-off a counter sums to last minus first over the instances plus all that its falls bring it down, hence to last minus first exactly when it never falls |
| `TrafficTrendCode.Group` | internal/dashboard/service.go:403-416 | grouping keeps each instance's records in input order |
| `TrafficTrendCode.SortByHour` | internal/dashboard/service.go:418-425 | sorting gives an ascending arrangement of the same records |
| `TrafficTrendCode.AddGroup` | internal/dashboard/service.go:430-484 | the inner loop adds to each hour the number of the group's neighbouring pairs that end at it, and to each counter their differences that are no falls |
| `TrafficTrendCode.ListItems` | internal/dashboard/service.go:486-495 | the list holds every item of the map once, ascending by hour |
| `TrafficTrendCode.ProcessTrafficRecords` | internal/dashboard/service.go:393-508 | the result is the latest hours of a list with an item for exactly the hours at which a pair ends, each counting its pairs and summing their differences that are no falls, over some sorted grouping of the records |
| `ServiceView.SumIsBothEnds` | internal/sse/service.go:610-703 | for a two-ended service, a row's own traffic plus that of the first row of the other end is the sum over all its rows |
| `ServiceView.StepIsRightExactly` | internal/sse/service.go:189-309 | with one tunnel per end, an initial, create or update event keeps every two-ended service's totals equal to TCP plus UDP over its rows exactly when it recounts what it changes: the report names the row's service, or it has no peer and the same amounts, or the row counted nothing |
| `ServiceView.StepIsRight` | internal/sse/service.go:189-309 | corollary of the exact condition: an event whose report carries the peer that its row has always keeps every two-ended service right |
| `ServiceView.RunIsRight` | internal/sse/service.go:189-309 | a run keeps the totals right throughout exactly when each of its events recounts what it changes |
| `ServiceView.RunFromEmpty` | internal/sse/service.go:189-309 | the same from empty tables, with nothing assumed of the start, and with sort positions distinct |
| `ServiceView.UpdateWithoutPeerIsForgotten` | internal/sse/service.go:395-430 | after an update without a peer, whose row keeps the peer it had, the service's totals are right exactly when the counters' sums did not change |
| `ServiceView.StepKeepsSorts` | internal/sse/service.go:705-725 | an event keeps every service's key and sort position; a new service gets one more than the largest, and the first one zero |
| `ServiceView.RunKeepsSorts` | internal/sse/service.go:705-725 | sort positions never change and stay pairwise distinct over every run |
| `ServiceView.OneEndedIsOwn` | internal/sse/service.go:583-609 | a one-ended service has its client's own totals, and a server that claims one is ignored |
| `ServiceView.TwoEndedTotals` | internal/sse/service.go:610-703 | an event that names a service of kind 1, 2, 3, 4, 6 or 7 stores its own traffic plus that of the first row of the other end, in each direction |
| `ServiceView.OneEndedTotals` | internal/sse/service.go:583-609 | kinds 0 and 5 store the client's own traffic, and a server's event changes no service |
| `ServiceView.OtherKindTotals` | internal/sse/service.go:557-582 | a service of any other kind starts at zero and is never written again |
| `ServiceView.UnnamedChangesNoService` | internal/sse/service.go:557-580 | a report whose peer is missing, or lacks an id or a kind, changes no service |
| `ServiceView.RowsAfter` | internal/sse/service.go:189-430 | what an event leaves in the tunnels, field by field: nothing for an untyped initial event or an update of an unknown tunnel, otherwise one row from the report, where an insert keeps the type of a row it meets and any other event the peer that the report lacks |
| `ServiceView.StaleTotal` | internal/sse/service.go:610-703 | when the other end's event runs between reading and writing the totals, the stored total misses exactly that end's gain |
| `ServiceViewCode.FindEnd` | internal/sse/service.go:629-634 | the query finds the first row of the other end, and none only if there is none |
| `ServiceViewCode.LargestSorts` | internal/sse/service.go:710-713 | the largest sort position in use, or -1 without services |
| `ServiceViewCode.SseService.HandleEvent` | internal/sse/service.go:189-309 | one event is one step of the model, and a right view stays right exactly when the event recounts what it changes |
| `ServiceViewCode.SseService.UpsertService` | internal/sse/service.go:557-730 | the branches by service type store the totals of the model |
| `ServiceViewCode.SseService.StoreService` | internal/sse/service.go:705-727 | an existing service keeps its position, a new one is appended behind all |
| `SseManager.SingleListener` | internal/sse/manager.go:259-330 | in every interleaving an endpoint has at most one live listener context, and it belongs to the connection in the map |
| `SseManager.DisconnectLeavesNone` | internal/sse/manager.go:310-330 | after `DisconnectEndpoint` the endpoint has no live context |
| `SseManager.OnlyConnectsRevive` | internal/sse/manager.go:125-330 | a context that is live after a step which connects nothing was live before it |
| `SseManager.ConnectRevives` | internal/sse/manager.go:259-307 | a connect leaves a live context exactly when the daemon has not been stopped |
| `SseManager.ReconnectRevives` | internal/sse/manager.go:171-181 | a reconnect that was decided on leaves a live context exactly when the daemon has not been stopped, even after a disconnect |
| `SseManager.DisconnectLastsExactly` | internal/sse/manager.go:125-330 | over every run up to a disconnect: no context of the endpoint is ever live again before someone connects it, exactly when the daemon is stopped or has not let a connection of the endpoint past its first read |
| `SseManager.DisconnectCanBeUndone` | internal/sse/manager.go:136-181 | a run that connects once and then disconnects ends with a live context, since the disconnect falls between the daemon's decision and its connect |
| `SseManager.NoneAfterClose` | internal/sse/manager.go:475-490 | in every run that has stopped the daemon, as `Close` does first, no context is live, whatever was called since |
| `SseManager.CloseMarksAll` | internal/sse/manager.go:475-488 | in every run `Close` empties the map and leaves every connection ever made marked as manually disconnected |
| `SseManager.RunFlagged` | internal/sse/manager.go:125-330 | in every run a connection is marked as manually disconnected exactly when it is not in the map |
| `SseManager.CheckPassesExactly` | internal/sse/manager.go:136-145 | in every run the daemon lets exactly those connections of its list past its first read that are still in the map |
| `SseManager.RoundReconnectsExactly` | internal/sse/manager.go:125-181 | in every run an undisturbed round of the daemon cancels and replaces the context of the next connection exactly when it is in the map, not connected and due, and otherwise changes nothing |
| `SseManager.SweepReconnectsExactly` | internal/sse/manager.go:125-181 | in every run, working off the daemon's whole list undisturbed ends exactly the live contexts of listed connections that are not connected, and then the daemon rests |
| `SseManager.CancelledIsOver` | internal/sse/manager.go:171-176 | once the daemon has cancelled what it decided to reconnect, no context of that connection is live |
| `SseManager.ConnectedExactly` | internal/sse/manager.go:259-460 | in every run a connection counts as connected exactly when its listener's latest report says so and it was not connected, disconnected or reconnected since |
| `SseManager.HealthyLastsExactly` | internal/sse/manager.go:125-181 | the live context of a connected endpoint outlasts every run without a connect, disconnect, reported loss or stop of its own, exactly when the daemon has at most this connection in hand and not past its second read |
| `SseManager.RunInv` | internal/sse/manager.go:125-330 | in every run each uncancelled context is the one its connection would cancel, and that connection is in the map |
| `SseManagerCode.Manager.ConnectTo` | internal/sse/manager.go:259-307 | connecting cancels the old context, or makes a connection, and attaches a new context |
| `SseManagerCode.Manager.AttachTo` | internal/sse/manager.go:292-303 | the connection's cancel function ends the new context, a child of the daemon's |
| `SseManagerCode.Manager.Reconnect` | internal/sse/manager.go:171-181 | an undisturbed reconnect is a decision, a cancellation and a connect of the model |
| `SseManagerCode.Manager.Disconnect` | internal/sse/manager.go:310-330 | disconnecting cancels, marks and removes the connection |
| `SseManagerCode.Manager.Stop` | internal/sse/manager.go:81-86 | stopping ends the daemon's context |
| `SseManagerCode.Manager.CloseAllConnections` | internal/sse/manager.go:475-490 | the closing loop cancels and marks every connection and replaces the map |
| `TunnelRefresh.ApplyAllAt` | internal/api/endpoint.go:687-726 | after the loop a key exists exactly if it did or was reported with a type, with the content of its reports in order |
| `TunnelRefresh.Reconciles` | internal/api/endpoint.go:682-752 | a committed refresh leaves exactly one row per remote instance of non-empty type, no other named row of the endpoint, and other endpoints and unnamed rows untouched |
| `TunnelRefresh.LastReportWins` | internal/api/endpoint.go:718-725 | for a row that was there, the last report decides the fixed columns and the optional ones it sets; others keep their values |
| `TunnelRefresh.NewRowHolds` | internal/api/endpoint.go:687-726 | what a new instance's row holds, column by column: from a single report its values with the two defaults for empty ones, from several the last report's |
| `TunnelRefresh.RefreshNumbers` | internal/api/endpoint.go:703-717 | a refresh never gives two rows one id and numbers new rows above all that were there |
| `TunnelRefresh.SecondContent` | internal/api/endpoint.go:703-725 | a second refresh changes a row exactly if a single report had created it from a tunnel with an empty status, log level or service id |
| `TunnelRefresh.IdempotentExactly` | internal/api/endpoint.go:682-752 | running a committed refresh again changes nothing exactly when no instance was newly created from such a tunnel |
| `TunnelRefresh.ThirdRunChangesNothing` | internal/api/endpoint.go:682-752 | from the second run on, the same list changes nothing |
| `TunnelRefresh.NewTunnelIsRewritten` | internal/api/endpoint.go:707-719 | one new tunnel without a log level is rewritten by the second refresh |
| `TunnelRefresh.EndpointHandler.RefreshTunnels` | internal/api/endpoint.go:682-752 | the transaction is the model's refresh; an error or a missing alias changes nothing |
| `TunnelRefresh.DeleteMissing` | internal/api/endpoint.go:728-748 | the sweep deletes exactly the endpoint's named rows that were not reported |
| `WebSocketHub.RegisterExactly` | internal/websocket/hub.go:62-86 | a registration keeps channels sound exactly when the client's channel has not been closed before |
| `WebSocketHub.UnregisterInv` | internal/websocket/hub.go:88-120 | removing a registered client closes its channel once and takes it out of its group |
| `WebSocketHub.MembersExactly` | internal/websocket/hub.go:34-120 | in every run a system client stands in its endpoint's group and a tunnel client in its instance's, exactly from registration to removal, and in no other |
| `WebSocketHub.BroadcastServes` | internal/websocket/hub.go:122-160 | in every run a broadcast that does not block gives each member one message if it has room, asks for the removal of exactly the full members, and leaves every other client alone |
| `WebSocketHub.RunBalances` | internal/websocket/hub.go:34-160 | conservation: with single registrations, until the hub blocks, the messages delivered to a client are those waiting and those it took, and the removal queue is the requests in order without those carried out |
| `WebSocketHub.PanicsExactly` | internal/websocket/hub.go:88-160 | the hub panics exactly at the removal of, or a broadcast that reaches, a registered client whose channel was closed before |
| `WebSocketHub.RunIsSafe` | internal/websocket/hub.go:34-160 | with each client registered at most once, in every run registered channels are open, none is closed twice, no broadcast sends on a closed one and no empty group remains |
| `WebSocketHub.RunWithin` | internal/websocket/hub.go:122-160 | no client's channel and no removal queue ever holds more than its capacity |
| `WebSocketHub.BroadcastBlocksExactly` | internal/websocket/hub.go:122-160 | a broadcast blocks the hub on its own removal queue exactly when queued requests and full clients exceed the capacity |
| `WebSocketHub.HubCanBlock` | internal/websocket/hub.go:122-160 | 513 broadcasts in a row to one client that reads nothing block the hub for good, and 512 do not |
| `WebSocketHub.Hub.RegisterOne` | internal/websocket/hub.go:62-86 | registering is the model's step |
| `WebSocketHub.Hub.UnregisterOne` | internal/websocket/hub.go:88-120 | removal deletes the client, closes its channel and drops an empty group |
| `WebSocketHub.Hub.RunRemoval` | internal/websocket/hub.go:41-42 | the main loop takes the queue's head and removes it |
| `WebSocketHub.Hub.BroadcastTo` | internal/websocket/hub.go:122-160 | a broadcast serves every member of the group once |
| `WebSocketHub.Hub.SendMessage` | internal/websocket/hub.go:132-139 | a full client is queued for removal |
| `MemoryLedger.Ledger` | internal/memory/shared.go:178-235 | accumulated delta plus initial last value is the final reading plus every reading that stood just before a reset |
| `MemoryLedger.UnstartedLedger` | internal/memory/shared.go:188-200 | without a snapshot the first reading counts for nothing and the ledger starts from it |
| `MemoryLedger.DeltaNeverFalls` | internal/memory/shared.go:202-226 | with non-negative readings the accumulated delta never falls |
| `MemoryLedger.DeltaIsDifferenceExactly` | internal/memory/shared.go:202-226 | the accumulated delta is final minus initial exactly when there was no reset, and more otherwise |
| `MemoryLedger.SharedIsSumExactly` | internal/memory/shared.go:179-226 | for non-negative readings the endpoint's delta is the sum of its instances' own deltas at every point of a run exactly when each reading meets equal last values, or looks like a first reading or a reset against both |
| `MemoryLedger.SharedSnapshotOvercounts` | internal/memory/shared.go:179-226 | whatever a snapshot has accumulated, two different readings that come in turn add the larger one every round |
| `MemoryLedger.OneInstanceIsRight` | internal/memory/shared.go:179-226 | with a single reporting instance the endpoint's delta is that instance's own |
| `MemoryLedger.IdleInstancesAccumulate` | internal/memory/shared.go:179-226 | two idle instances reporting in turn add the larger reading every round, while their own deltas stand still |
| `MemoryLedger.UpdateReplacesShare` | internal/memory/shared.go:160-176 | an update replaces exactly that tunnel's share of the totals |
| `MemoryLedger.StatusesAddUp` | internal/memory/shared.go:283-296 | running, stopped and error counts add up to the total exactly when every tunnel has one of the three statuses |
| `MemoryLedger.StatusesAreCounted` | internal/memory/shared.go:283-296 | running, stopped and error counts are the numbers of tunnels with these statuses |
| `MemoryLedger.StatsWith` | internal/memory/shared.go:283-304 | the statistics do not depend on the order in which the map is walked |
| `MemoryLedger.RecalculateStats` | internal/memory/shared.go:269-304 | the counting loop yields the statistics of the map: its size, and the numbers of tunnels of each known status |
| `MemoryLedger.EndpointState.CalculateTrafficDelta` | internal/memory/shared.go:178-235 | each counter's delta gains the rise since the last reading, or the reading itself after a fall; a missing snapshot is started with no delta |
| `MemoryLedger.EndpointState.UpdateTunnelState` | internal/memory/shared.go:160-176 | the statistics are always those of the tunnel map |
| `TaskScheduler.NextMorning` | internal/scheduler/scheduler.go:299-304 | the daily time is the first 03:30 not before now, less than a day ahead |
| `TaskScheduler.NextSunday` | internal/scheduler/scheduler.go:310-316 | the weekly search stops within seven steps at the first Sunday 02:00 not before now |
| `TaskScheduler.NextRunIsFirst` | internal/scheduler/scheduler.go:292-322 | the closed form of the next run is the first moment that its expression allows |
| `TaskScheduler.CalculateNextRun` | internal/scheduler/scheduler.go:292-322 | every known expression gives the first moment it allows, within its period; others give now plus one hour |
| `TaskScheduler.RunsAreSingle` | internal/scheduler/scheduler.go:201-255 | in every interleaving of ticks and forced runs a task has at most one active run, TotalTaskRuns = SuccessfulRuns + FailedRuns, and every counter counts its runs |
| `TaskScheduler.StartsExactly` | internal/scheduler/scheduler.go:201-209 | in every run a start is accepted exactly when no run of the task is active |
| `TaskScheduler.RegisteredRuns` | internal/scheduler/scheduler.go:124-162 | the same from the registered tasks before any run, with nothing assumed |
| `TaskScheduler.NoMomentSkipped` | internal/scheduler/scheduler.go:201-322 | in every interleaving a task is planned for the first moment its expression allows after its registration or the end of its latest run |
| `TaskScheduler.OneRunForEachMoment` | internal/scheduler/scheduler.go:181-255 | in every interleaving each run that a tick starts belongs to a moment its expression allows, and the next ticked run of the task to a later one, not before the first one's tick: no moment is served twice |
| `TaskScheduler.StillDueExactly` | internal/scheduler/scheduler.go:181-209 | in every run a collected task is still due when the tick comes to start it exactly when no forced run of it has ended since |
| `TaskScheduler.ForcedRunCanRepeat` | internal/scheduler/scheduler.go:181-255 | a forced run between a tick's collection and its start makes the task run twice for one moment |
| `TaskScheduler.TickStartsDue` | internal/scheduler/scheduler.go:181-199 | a tick with nothing in between starts exactly the tasks that are due and idle, each once |
| `TaskScheduler.Scheduler.Collect` | internal/scheduler/scheduler.go:181-194 | the first loop collects exactly the tasks that are due and idle, each once |
| `TaskScheduler.Scheduler.CheckAndExecuteTasks` | internal/scheduler/scheduler.go:181-199 | a tick with nothing in between is the model's collection followed by all its starts |
| `TaskScheduler.Scheduler.ExecuteTask` | internal/scheduler/scheduler.go:201-211 | the guarded start is the model's step |
| `TaskScheduler.Scheduler.ForceExecuteTask` | internal/scheduler/scheduler.go:405-419 | a forced run is the same guarded start, and reports an unknown task |
| `TaskScheduler.Scheduler.FinishRun` | internal/scheduler/scheduler.go:233-253 | the report at the end of a run updates statistics and error count |
| `TaskScheduler.Scheduler.ReleaseTask` | internal/scheduler/scheduler.go:212-219 | the deferred release frees the task, counts the run and plans the first moment allowed from then on |

## Left out

Contracts that say less than the code does:

- TunnelUrl.RoundTripExact: requires the integer options to fit Go's `int` and `int64` and texts to be byte texts, as every Go value does.
- TrafficPipeline.Conservation: counters are unbounded integers, so wrap-around of 64-bit sums is not modelled.
- TrafficManager.HistoryManager.FlushAggregateCache: one call is a run of single moves with nothing in between; the interleavings with other goroutines are covered by the run theorems. Statistics, timestamps and row ids are not modelled.
- TunnelCache.RunIndexes: adding, deleting and looking up by instance id take several locks one after another in the source and are one step here, so a reader between two of them is not modelled.
- TunnelCache.PersistScheduleDoesNotMatter: excludes reloads, which replace the cache by the table, and speaks of status and counters only, since a nil optional leaves its column as it was.
- TunnelCacheCode.TunnelShared.UpdateMetrics: the caller's pointers are stored as values, so later writes through them are not modelled; `updated_at` and the columns that no cache operation reads are left out.
- TunnelCacheCode.TunnelShared.SortList: the library sort is modelled by insertion; only its contract, some descending arrangement, is used.
- Archive.RunBounded: an unbuffered queue (capacity zero) accepts nothing in the model, while a waiting worker could take a record directly.
- ArchiveCode.ArchiveManager.ProcessBatch: the columns extracted from a record's data map are not modelled; rows keep the record.
- HistoryWorkerCode.Worker.ProcessMonitoringData: with nothing in between; a removal between its halves is a step of the model only, since the class stores piles as values and not as objects of their own.
- TrafficTrendCode.ProcessTrafficRecords: an hour key is its time in seconds, so keys that do not parse are not modelled, and the display text is left out.
- ServiceView.StepIsRightExactly: assumes that no other row claims the end that the row takes, since only the first row of an end is counted; database failures between the two writes, deletions, and the host, port, alias and instance columns are left out.
- SseManager.SingleListener: speaks of contexts; a stale listener may still flip the connected flag, and a listener may end on a timeout before its context does.
- SseManagerCode.Manager.CloseAllConnections: waiting for the daemons is not modelled; the call starts when they have ended.
- TunnelRefresh.Reconciles: the columns that an update always writes and those it writes only when set are two maps, not forty fields; operation logs and timestamps are left out.
- WebSocketHub.RunIsSafe: eventual removal of a client is not claimed, since the hub does not guarantee it.
- MemoryLedger.Ledger: the endpoint exists; the memory service calls this method while holding the lock it takes, which is outside this model.
- TaskScheduler.RunsAreSingle: registering a name again replaces its task, and a second run could then be active; the model registers each name once. The timeout of a run is left out.
- TaskScheduler.CalculateNextRun: time zones and clock changes; weekdays count from a Sunday at time zero.

Not modelled at all:

- `ParseTunnelConfig`: it relies on Go's URL library and drops the ports of extra targets, so it has no round trip.
- HTTP handlers other than `refreshTunnels`, JSON binding, SQL text and the ORM, and the network and file operations.
- `endpointcache` and `servicecache`: they repeat the tunnel cache.
- `cleanup`, `metrics`, `group`, retention of old history rows, version comparison and byte formatting: they would only add easy members.
- The traffic history manager's `Close`, which does not drain its channel; no claim is made about what is in the table afterwards.
- Go's memory model: locked sections and channel operations are atomic steps that every goroutine sees in one order, and where a tunnel cache operation takes several locks, all of it is one step.
