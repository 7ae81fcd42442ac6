# Durable Functions tracing and monitoring, modelled in Dafny

This project models the tracing and monitoring core of the Durable Functions extension for
Azure Functions. It covers five parts:

- **Correlation sort** (`correlation_sort.dfy`, `correlation_sort_examples.dfy`). The end-to-end
  tests put a flat list of operation telemetry in causal order. The records are stable-sorted by
  timestamp and the earliest one becomes the root. A depth-first walk then takes each parent's
  children, in timestamp order, out of one shared working list, and records the walk never
  reaches are dropped. The list and its in-place removal are a class; the recursive walk is a
  method proved equal to the specification functions `SubtreeOrder`/`SiblingsOrder`.
- **Test telemetry channel** (`test_telemetry_channel.dfy`). This is the in-memory channel that
  queues every item it is sent, and the loop that drains the queue into a list.
- **WebJobs telemetry module** (`webjobs_telemetry.dfy`). It listens to the extension's activity
  source and turns every finished activity into a request or dependency record. The record's
  id, parent id, timestamp and properties come from the activity's span ids, baggage and tags.
  The module also flushes its client when disposed.
- **Telemetry activator** (`telemetry_activator.dfy`). It chooses between no tracing, the V1
  correlation protocol (process-wide settings, a telemetry client and trace callbacks) and the
  V2 pipeline (the durable telemetry module and the WebJobs module). It disposes whichever
  modules it built.
- **Failure-details converter** (`failure_details.dfy`). It turns an exception chain into the
  failure-details message of the isolated worker protocol.
- **Metrics provider** (`metrics_provider.dfy`). This is the scale-controller metrics of the
  Azure Storage back end. The monitor's pulse is throttled to once every five seconds and its
  last heartbeat is cached. A storage request failure is swallowed and logged; anything else
  propagates.

`wrappers.dfy` holds the `Option` and `Result` types.

Time is counted in integer ticks of 100 ns. Clock readings, the monitor's pulse, JSON and
`TimeSpan` formatting, and the configuration of the host are parameters of the model.

## Model

| member | source | states |
|---|---|---|
| `CorrelationSorting.InsertByTimestamp` | test/FunctionsV2/CorrelationEndToEndTests.cs:329 | inserting lengthens the list by one; `InsertByTimestampPerm` and `InsertByTimestampSorted` state what it adds and that it keeps the order |
| `CorrelationSorting.OrderByTimestamp` | test/FunctionsV2/CorrelationEndToEndTests.cs:329 | the ordered list is as long as the input; `OrderByTimestampPerm`, `OrderByTimestampSorted` and `OrderByTimestampFirst` state that it is a sorted permutation whose head is the first earliest record |
| `CorrelationSorting.InsertByTimestampPerm` | test/FunctionsV2/CorrelationEndToEndTests.cs:329 | inserting into the timestamp order adds exactly the one record |
| `CorrelationSorting.InsertByTimestampSorted` | test/FunctionsV2/CorrelationEndToEndTests.cs:329 | inserting into a list sorted by timestamp keeps it sorted |
| `CorrelationSorting.OrderByTimestampPerm` | test/FunctionsV2/CorrelationEndToEndTests.cs:329 | ordering by timestamp is a permutation of the input |
| `CorrelationSorting.OrderByTimestampSorted` | test/FunctionsV2/CorrelationEndToEndTests.cs:329 | the ordered list is non-decreasing in timestamp |
| `CorrelationSorting.EarliestIndex` | test/FunctionsV2/CorrelationEndToEndTests.cs:329-332 | the index of the first record with the smallest timestamp: no record is earlier, and every record before it is strictly later |
| `CorrelationSorting.OrderByTimestampFirst` | test/FunctionsV2/CorrelationEndToEndTests.cs:329-332 | the root picked after the stable sort is the first record with the earliest timestamp |
| `CorrelationSorting.LastIndexOf` | test/FunctionsV2/CorrelationEndToEndTests.cs:344-351 | the scan's index is -1 or a valid index of a record with the id |
| `CorrelationSorting.LastIndexOfIsLast` | test/FunctionsV2/CorrelationEndToEndTests.cs:344-356 | the index is -1 exactly when no record has the id; otherwise no later record has it |
| `CorrelationSorting.MemberFound` | test/FunctionsV2/CorrelationEndToEndTests.cs:344-356 | the id of a record in the list is always found |
| `CorrelationSorting.RemoveAt` | test/FunctionsV2/CorrelationEndToEndTests.cs:358 | removing at an index shortens the list by one |
| `CorrelationSorting.RemoveAtPerm` | test/FunctionsV2/CorrelationEndToEndTests.cs:358 | removing at an index takes out exactly the record at that index |
| `CorrelationSorting.RemoveAtOrder` | test/FunctionsV2/CorrelationEndToEndTests.cs:358 | the records before the index keep their places and the later ones shift down by one |
| `CorrelationSorting.WithoutId` | test/FunctionsV2/CorrelationEndToEndTests.cs:342-360 | removal by id shortens the list by one when the id is present and not at all otherwise |
| `CorrelationSorting.WithoutIdContents` | test/FunctionsV2/CorrelationEndToEndTests.cs:342-360 | removal by id leaves the list alone when no record has the id; otherwise it removes the last record with the id, keeping the order of the rest |
| `CorrelationSorting.OperationList.constructor` | test/FunctionsV2/CorrelationEndToEndTests.cs:329 | the list holds the given records |
| `CorrelationSorting.OperationList.RemoveOperationTelemetry` | test/FunctionsV2/CorrelationEndToEndTests.cs:342-360 | returns true exactly when some record has the id, and the list becomes the removal by id of the old list |
| `CorrelationSorting.ChildrenOf` | test/FunctionsV2/CorrelationEndToEndTests.cs:367 | no more children than records, and every one has the parent's id as its parent id; `ChildrenOfMembers` adds the converse |
| `CorrelationSorting.ChildrenOfSub` | test/FunctionsV2/CorrelationEndToEndTests.cs:367 | the selected children are a sub-multiset of the working list |
| `CorrelationSorting.ChildrenOfMembers` | test/FunctionsV2/CorrelationEndToEndTests.cs:367 | a record is selected exactly when it is in the working list and its parent id is the parent's id |
| `CorrelationSorting.OrderedChildren` | test/FunctionsV2/CorrelationEndToEndTests.cs:367 | the ordered children are drawn from the working list and are exactly the records whose parent id is the parent's id |
| `CorrelationSorting.SubtreeOrder` | test/FunctionsV2/CorrelationEndToEndTests.cs:362-378 | the expansion of a parent never grows the working list; `SubtreeLinked`, `SubtreePartition` and `SubtreeChildren` state its order and what it consumes |
| `CorrelationSorting.SiblingsOrder` | test/FunctionsV2/CorrelationEndToEndTests.cs:368-374 | the sibling loop never grows the working list; `SiblingsLinked`, `SiblingsPartition` and `SiblingsChildren` state its order and what it consumes |
| `CorrelationSorting.GetCorrelationSortedList` | test/FunctionsV2/CorrelationEndToEndTests.cs:362-378 | the in-place recursive walk returns exactly the subtree order and leaves exactly the records that order leaves |
| `CorrelationSorting.SubtreeLinked` | test/FunctionsV2/CorrelationEndToEndTests.cs:362-378 | every record the walk emits has as parent the walk's parent or a record emitted before it |
| `CorrelationSorting.SiblingsLinked` | test/FunctionsV2/CorrelationEndToEndTests.cs:368-374 | the same for the sibling loop, given that every sibling is a child of the parent |
| `CorrelationSorting.SubtreePartition` | test/FunctionsV2/CorrelationEndToEndTests.cs:362-378 | with distinct ids, what is emitted and what is left together are the working list, and nothing left is a child of the parent or of an emitted record |
| `CorrelationSorting.SiblingsPartition` | test/FunctionsV2/CorrelationEndToEndTests.cs:368-374 | with distinct ids, the sibling loop emits and leaves a partition of the list, every sibling is consumed, and nothing left is a child of an emitted record |
| `CorrelationSorting.SiblingsChildren` | test/FunctionsV2/CorrelationEndToEndTests.cs:368-374 | with distinct ids, the direct children of the parent in the loop's output are exactly the siblings, in the order given |
| `CorrelationSorting.SubtreeChildren` | test/FunctionsV2/CorrelationEndToEndTests.cs:362-378 | with distinct ids, a parent's children appear in its expansion in timestamp order, each exactly once |
| `CorrelationSorting.WithoutMember` | test/FunctionsV2/CorrelationEndToEndTests.cs:342-360 | with distinct ids, removing by a member's id removes that member and only it |
| `CorrelationSorting.CorrelationSorted` | test/FunctionsV2/CorrelationEndToEndTests.cs:320-340 | the sorted list is empty exactly when the input is; `CorrelationSortedFirst`, `CorrelationSortedLinked` and `CorrelationSortedPartition` state its head, its causal order and what it drops |
| `CorrelationSorting.CorrelationSortedFirst` | test/FunctionsV2/CorrelationEndToEndTests.cs:329-332 | a non-empty sorted list starts with the first record of the earliest timestamp |
| `CorrelationSorting.CorrelationSort` | test/FunctionsV2/CorrelationEndToEndTests.cs:320-340 | the sort returns the specified order; it is empty exactly when the input is, and starts with the first earliest record |
| `CorrelationSorting.CorrelationSortedLinked` | test/FunctionsV2/CorrelationEndToEndTests.cs:320-340 | every record after the first has a parent id naming a record earlier in the output |
| `CorrelationSorting.CorrelationSortedPartition` | test/FunctionsV2/CorrelationEndToEndTests.cs:320-340 | with unique ids, the output is taken from the input without duplicates, and no dropped record is a child of an emitted one |
| `CorrelationSortExamples.SubtreeBeforeSibling` | test/FunctionsV2/CorrelationEndToEndTests.cs:320-378 | on a root with two children, the first with a child of its own, plus an orphan: the first child's subtree comes before the second child, and the orphan is dropped |
| `CorrelationSortExamples.RepeatedIdsEmitTwice` | test/FunctionsV2/CorrelationEndToEndTests.cs:320-378 | when ids repeat, the sort can emit one record twice, because removal by id takes the last record with that id |
| `TestTelemetry.TelemetryQueue.constructor` | test/FunctionsV2/CorrelationEndToEndTests.cs:388 | a new queue is empty |
| `TestTelemetry.TelemetryQueue.IsEmpty` | test/FunctionsV2/CorrelationEndToEndTests.cs:304 | the queue is empty exactly when it holds no item |
| `TestTelemetry.TelemetryQueue.Enqueue` | test/FunctionsV2/CorrelationEndToEndTests.cs:396 | the item is appended at the tail |
| `TestTelemetry.TelemetryQueue.TryDequeue` | test/FunctionsV2/CorrelationEndToEndTests.cs:307 | on an empty queue nothing is returned and the queue stays empty; otherwise the oldest item is returned and removed |
| `TestTelemetry.TestTelemetryChannel.constructor` | test/FunctionsV2/CorrelationEndToEndTests.cs:388 | the channel starts with a fresh, empty queue |
| `TestTelemetry.TestTelemetryChannel.Send` | test/FunctionsV2/CorrelationEndToEndTests.cs:394-397 | every sent item is appended to the queue |
| `TestTelemetry.ConvertTo` | test/FunctionsV2/CorrelationEndToEndTests.cs:301-314 | the drained list holds every queued item in the order sent, and the queue ends empty |
| `WebJobsTelemetry.FromHexToHex` | src/WebJobs.Extensions.DurableTask/Correlation/WebJobsTelemetryModule.cs:85 | the hex text of the span id bytes reads back as exactly those bytes |
| `WebJobsTelemetry.SpanIdText` | src/WebJobs.Extensions.DurableTask/Correlation/WebJobsTelemetryModule.cs:85 | a span id's text has 16 characters and reads back as its 8 bytes |
| `WebJobsTelemetry.LastValue` | src/WebJobs.Extensions.DurableTask/Correlation/WebJobsTelemetryModule.cs:97-105 | a key has a last assigned value exactly when some entry has that key, and that value is the one of the last entry with the key |
| `WebJobsTelemetry.SetProperties` | src/WebJobs.Extensions.DurableTask/Correlation/WebJobsTelemetryModule.cs:97-105 | assigning the entries in turn gives the old keys plus the keys of the entries; `SetPropertiesLookup` states the values |
| `WebJobsTelemetry.ActivityProperties` | src/WebJobs.Extensions.DurableTask/Correlation/WebJobsTelemetryModule.cs:97-105 | the property keys are those of baggage and tags; `PropertiesMerge` states the values |
| `WebJobsTelemetry.SetPropertiesLookup` | src/WebJobs.Extensions.DurableTask/Correlation/WebJobsTelemetryModule.cs:97-105 | after assigning the entries in turn, a key is present exactly when it was before or some entry has it, and its value is the last entry's value, or else the old one |
| `WebJobsTelemetry.PropertiesMerge` | src/WebJobs.Extensions.DurableTask/Correlation/WebJobsTelemetryModule.cs:97-105 | the properties hold the keys of baggage and tags; a tag overrides a baggage item with the same key, and the last entry with a key wins |
| `WebJobsTelemetry.CreateTelemetryCore` | src/WebJobs.Extensions.DurableTask/Correlation/WebJobsTelemetryModule.cs:79-108 | name, timestamp, duration and operation id are copied; the id is the span id's hex; the parent id is set exactly when the parent span id is not the default, as its hex; the id has 16 characters and a default span id gives sixteen zeros; the properties are exactly those assigned from baggage and then tags |
| `WebJobsTelemetry.CreateTelemetry` | src/WebJobs.Extensions.DurableTask/Correlation/WebJobsTelemetryModule.cs:50-77 | server and consumer activities give requests and all others dependencies; success means the status is not error; a request's code is 200 or 500; a dependency's type is InProc for internal activities and DurableTask otherwise |
| `WebJobsTelemetry.StartsWith` | src/WebJobs.Extensions.DurableTask/Correlation/WebJobsTelemetryModule.cs:30 | true exactly when the prefix is the text's beginning |
| `WebJobsTelemetry.ShouldListenTo` | src/WebJobs.Extensions.DurableTask/Correlation/WebJobsTelemetryModule.cs:30 | only sources whose names start with the extension's name are listened to |
| `WebJobsTelemetry.WebJobsTelemetryModule.constructor` | src/WebJobs.Extensions.DurableTask/Correlation/WebJobsTelemetryModule.cs:18-19 | a new module has no client and no listener |
| `WebJobsTelemetry.WebJobsTelemetryModule.Initialize` | src/WebJobs.Extensions.DurableTask/Correlation/WebJobsTelemetryModule.cs:22-37 | installs a fresh client over the configuration and a registered listener |
| `WebJobsTelemetry.WebJobsTelemetryModule.OnEndActivity` | src/WebJobs.Extensions.DurableTask/Correlation/WebJobsTelemetryModule.cs:39-48 | a finished activity with all data requested is tracked as its telemetry record; any other is ignored |
| `WebJobsTelemetry.WebJobsTelemetryModule.DisposeAsync` | src/WebJobs.Extensions.DurableTask/Correlation/WebJobsTelemetryModule.cs:110-125 | the listener, if any, is unregistered; the client, if any, is asked to flush once; disposal never fails |
| `TelemetryActivation.SelectProtocol` | src/WebJobs.Extensions.DurableTask/Correlation/TelemetryActivator.cs:106-109 | W3C trace context is chosen exactly when the configured name is its name; anything else, including no name, gives the HTTP correlation protocol |
| `TelemetryActivation.SelectProtocolName` | src/WebJobs.Extensions.DurableTask/Correlation/TelemetryActivator.cs:106-109 | configuring a protocol by its own name selects that protocol |
| `TelemetryActivation.ToLower` | src/WebJobs.Extensions.DurableTask/Correlation/TelemetryActivator.cs:114 | lower-casing keeps the length; `ToLowerLetters` and `ToLowerIdempotent` state which characters change and that a second pass changes nothing |
| `TelemetryActivation.ToLowerLetters` | src/WebJobs.Extensions.DurableTask/Correlation/TelemetryActivator.cs:114 | lower-casing keeps the length, leaves no upper-case letter, and changes only upper-case letters, into their lower-case form |
| `TelemetryActivation.ToLowerIdempotent` | src/WebJobs.Extensions.DurableTask/Correlation/TelemetryActivator.cs:114 | lower-casing twice is lower-casing once |
| `TelemetryActivation.NameResolver.Resolve` | src/WebJobs.Extensions.DurableTask/Correlation/TelemetryActivator.cs:114 | a setting resolves exactly when it is defined |
| `TelemetryActivation.ResolveSiteName` | src/WebJobs.Extensions.DurableTask/Correlation/TelemetryActivator.cs:114 | the site name is lower-case; it is empty without a resolver or without the setting, and otherwise is the setting with each upper-case ASCII letter replaced by its lower-case letter and every other character kept |
| `TelemetryActivation.CorrelationTraceClient.SetUp` | src/WebJobs.Extensions.DurableTask/Correlation/TelemetryActivator.cs:116-133 | the callbacks are installed, replacing any earlier ones |
| `TelemetryActivation.TelemetryActivator.constructor` | src/WebJobs.Extensions.DurableTask/Correlation/TelemetryActivator.cs:31-35 | keeps the options and the resolver; no client and no modules yet |
| `TelemetryActivation.TelemetryActivator.Initialize` | src/WebJobs.Extensions.DurableTask/Correlation/TelemetryActivator.cs:66-99 | nothing changes when tracing is off or the version is None; V2 builds and initialises both modules over the configuration; V1 sets the process-wide settings, a client over the configuration, and the callbacks with the resolved site name |
| `TelemetryActivation.TelemetryActivator.SetUpV1DistributedTracing` | src/WebJobs.Extensions.DurableTask/Correlation/TelemetryActivator.cs:101-110 | the process-wide flag mirrors the options and the protocol is the one selected by name |
| `TelemetryActivation.TelemetryActivator.SetUpTelemetryCallbacks` | src/WebJobs.Extensions.DurableTask/Correlation/TelemetryActivator.cs:112-134 | the trace client gets callbacks that carry the resolved, lower-cased site name |
| `TelemetryActivation.TelemetryActivator.SetUpTelemetryClient` | src/WebJobs.Extensions.DurableTask/Correlation/TelemetryActivator.cs:136-139 | a fresh client over the configuration replaces the old one, and the modules are untouched |
| `TelemetryActivation.TelemetryActivator.DisposeAsync` | src/WebJobs.Extensions.DurableTask/Correlation/TelemetryActivator.cs:42-55 | each module that was built is disposed once |
| `TelemetryActivation.TelemetryActivator.Dispose` | src/WebJobs.Extensions.DurableTask/Correlation/TelemetryActivator.cs:58-61 | the same as the asynchronous disposal |
| `FailureDetails.TaskFailureFromException` | src/Worker.Extensions.DurableTask/TaskFailureDetailsConverter.cs:12-26 | no exception gives no details; otherwise type name, message and stack trace are copied, the failure is retriable, and an inner failure is present exactly when there is an inner exception |
| `FailureDetails.ExceptionFromFailure` | src/Worker.Extensions.DurableTask/TaskFailureDetailsConverter.cs:12-26 | the reading back of a failure chain: present exactly when the details are |
| `FailureDetails.ConversionKeepsDepth` | src/Worker.Extensions.DurableTask/TaskFailureDetailsConverter.cs:23 | the failure chain is as deep as the exception chain |
| `FailureDetails.ConversionAllRetriable` | src/Worker.Extensions.DurableTask/TaskFailureDetailsConverter.cs:24 | no level of a converted chain is non-retriable |
| `FailureDetails.ConversionRoundTrip` | src/Worker.Extensions.DurableTask/TaskFailureDetailsConverter.cs:12-26 | reading the exception back from its failure details gives the exception itself, at every level |
| `FailureDetails.ConvertedIffAllRetriable` | src/Worker.Extensions.DurableTask/TaskFailureDetailsConverter.cs:12-26 | failure details are the conversion of an exception exactly when every level is retriable |
| `DurableTaskMetrics.MetricsFrom` | src/WebJobs.Extensions.DurableTask/Listener/DurableTaskMetricsProvider.cs:59-69 | without a heartbeat the metrics are the defaults; with one, the counts are copied and the queue figures serialized; the latency text is present exactly when the latency is positive |
| `DurableTaskMetrics.Collect` | src/WebJobs.Extensions.DurableTask/Listener/DurableTaskMetricsProvider.cs:38-71 | a logged warning comes only with a successful result and an unchanged cache |
| `DurableTaskMetrics.NeedsPulse` | src/WebJobs.Extensions.DurableTask/Listener/DurableTaskMetricsProvider.cs:48 | the monitor is pulsed when there is no heartbeat, and otherwise exactly when more than five seconds have passed since the last one |
| `DurableTaskMetrics.Throttled` | src/WebJobs.Extensions.DurableTask/Listener/DurableTaskMetricsProvider.cs:47-48 | within five seconds of a heartbeat, the monitor is not consulted and the cached figures are returned |
| `DurableTaskMetrics.AtMostOnePulsePerInterval` | src/WebJobs.Extensions.DurableTask/Listener/DurableTaskMetricsProvider.cs:47-52 | after a pulse that returned a heartbeat, no collection within five seconds pulses again; after one that returned none, the next collection pulses |
| `DurableTaskMetrics.SwallowedFailureKeepsCache` | src/WebJobs.Extensions.DurableTask/Listener/DurableTaskMetricsProvider.cs:54-57 | a storage request failure is logged, the old heartbeat kept, and its figures returned |
| `DurableTaskMetrics.ReportsCachedHeartbeat` | src/WebJobs.Extensions.DurableTask/Listener/DurableTaskMetricsProvider.cs:59-69 | a successful collection reports the figures of the heartbeat it leaves cached |
| `DurableTaskMetrics.DurableTaskMetricsProvider.constructor` | src/WebJobs.Extensions.DurableTask/Listener/DurableTaskMetricsProvider.cs:24-36 | keeps hub, monitor and provider; no heartbeat, timestamp at the minimum, nothing logged |
| `DurableTaskMetrics.DurableTaskMetricsProvider.GetPerformanceMonitor` | src/WebJobs.Extensions.DurableTask/Listener/DurableTaskMetricsProvider.cs:74-91 | returns the cached monitor, else builds and keeps one for the hub; without a storage provider it fails with the argument exception; a monitor is built at most once |
| `DurableTaskMetrics.DurableTaskMetricsProvider.GetMetricsAsync` | src/WebJobs.Extensions.DurableTask/Listener/DurableTaskMetricsProvider.cs:38-71 | result, new cache and logged warnings are those of one collection over the old cache; an existing monitor is kept as it is; otherwise one is built for the hub when a storage provider is configured and none is built without one; the count of built monitors grows by exactly the one built |

## Where the model follows the code over the documented intent

- `TelemetryActivation.TelemetryActivator.Initialize` does not make re-activation idempotent. A
  second call builds new modules (V2) or installs new callbacks (V1) without disposing the
  earlier ones, as the code does.
- Removal by id takes the *last* record with that id, not the record being emitted. With
  repeated ids, the correlation sort can emit one record twice and drop another
  (`CorrelationSortExamples.RepeatedIdsEmitTwice`).
- On the V1 path, the second check of the process-wide tracing flag at
  TelemetryActivator.cs:92 always passes: the flag was just set from the option, which is on
  in that branch. The model keeps both tests of the flag, as the code does; on that path the
  second test always succeeds, so the callbacks are always installed.

## Left out

- Concurrency and `async`: the telemetry queue is used by one thread at a time, so
  `TryDequeue` never fails on a non-empty queue. Awaiting is modelled as a plain call.
- `TestTelemetryChannel` `Flush`, `Dispose`, `DeveloperMode` and `EndpointAddress` hold no
  logic and are not modelled. The test's `OfType` and `FilterOperationTelemetry` filtering is
  not modelled either.
- The process-wide `ActivitySource` registration and the sampling callbacks are a registered
  flag on the listener.
- `TelemetryClient.Track` and `FlushAsync` are a record of what was tracked and how often a flush
  was requested. The 5-second cancellation and the swallowed flush error have no effect.
- `DateTime` and `TimeSpan` are integer ticks. The overflow of `AddSeconds` near
  `DateTime.MaxValue` is not modelled.
- Tag values are modelled as their rendered text. A null tag value, which would throw in
  `ToString`, is not modelled. Neither is a null baggage value: baggage values are plain text,
  so the model never stores a null property.
- `TelemetryActivation.ResolveSiteName`: lower-casing maps only the ASCII letters A to Z, not
  the culture-sensitive Unicode mapping of `ToLower`. Its contract states each character of the
  name under that ASCII mapping.
- `WebJobsTelemetry.StartsWith` and `WebJobsTelemetry.ShouldListenTo`: the prefix test is an
  ordinal comparison of characters. `string.StartsWith(string)` compares with the current
  culture, which can match text that differs in ignorable or equivalent characters; that is
  not modelled.
- The bodies of the V1 request, dependency and exception callbacks call into code that is not
  part of this model. Only the site name they capture is recorded.
- `DurableTelemetryModule` is not part of this model beyond being initialised with the
  configuration and disposed.
- `CorrelationSettings.Current` and the static `CorrelationTraceClient` are process-wide
  singletons. They are passed to the activator as objects.
- `PulseAsync`, JSON serialization and `TimeSpan.ToString` are parameters. The logger is a list
  of logged warnings. The exception filter is a flag saying whether the inner exception is a
  storage request failure. Building a `DisconnectedPerformanceMonitor` never fails.
- `CorrelationSorting.OrderByTimestamp`: stability (`OrderBy` keeps equal timestamps in input
  order) is proved only for the first position (`OrderByTimestampFirst`), not for the whole
  list.
- `CorrelationSorting.SubtreePartition`, `SiblingsPartition`, `SiblingsChildren`,
  `SubtreeChildren` and `CorrelationSortedPartition` are proved only for records with distinct
  ids. `CorrelationSortExamples.RepeatedIdsEmitTwice` shows they fail otherwise.
- `FailureDetails.TaskFailureFromException`: protobuf's handling of null string fields (a null
  stack trace) is modelled as an absent value, not as an exception.
