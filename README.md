# Aspire plugin: session host metric store and IDE registries

A Dafny model of the logic at the core of the Aspire plugin for Rider:

- In the .NET session host:
  - the OpenTelemetry metric store: the 300-slot point ring, the per-resource metric dictionaries, and the resource managers keyed by `serviceId ?? serviceName`;
  - the two ingestion loops (`MetricService`, `RdMetricService`) behind their drop-oldest queues of 100 requests;
  - the attribute helpers of `OTelUtils`, including the branch-free lower-case hex encoder;
  - the session registry.
- On the Kotlin side:
  - the OTel server registry and its event filters;
  - the host and resource registries of the services view;
  - the resource property reader;
  - the run-configuration selection rule;
  - the run-state factory and the runner's reading of the environment back, which together round-trip `DEBUG_SESSION_PORT` as `localhost:<port>`;
  - the trace diagram's edge generation and node colours;
  - the web-help url mapping.

Each source file has its own module:

- State that the source updates in place is a `class`: a dictionary or list is a `map`/`seq` field, and the ring buffer is an `array`.
- Each method is proved against a pure specification function. These are folds over the calls a loop makes, such as `MetricService.ConsumeCalls`, `RdResource.AddAll` and `DiagramService.AllEdges`.
- The lemmas about those functions carry the properties the source promises.

Shared modules hold the common parts:

- `Common`: Option and Result.
- `Text`: decimal text, Kotlin's `toInt` and C#'s `long` reader over ASCII digits, `substringAfter`, ASCII `equals(ignoreCase = true)`.
- `Common` also holds `IndexOf`, the first-position search shared by the session and run-configuration lookups, `Project` (Kotlin `map`), and `KeysOf`, the ids of a run of (id, metric) calls shared by both resource stores.
- `OTelProto`: the OTLP request shapes.
- `Channel`: the bounded drop-oldest FIFO of `System.Threading.Channels` with capacity 100.

Concurrent dictionaries and locks are modelled as sequential maps. A lifetime-scoped subscription is an explicit add event and remove event. IDE message-bus events are appended to a `published` list.

Source paths below are relative to the repository root.

## Model

| member | source | states |
|---|---|---|
| Channel.Enqueue | src/dotnet/aspire-session-host/OTel/MetricService.cs:16-22 | writing to the queue keeps at most 100 requests, and the written request is the newest; when full, the oldest is dropped |
| Channel.EnqueueAllKeepsNewest | src/dotnet/aspire-session-host/OTel/MetricService.cs:16-22 | after any run of writes the queue holds exactly the newest 100 requests of the old contents followed by the written ones, in order |
| Channel.BoundedChannel.TryWrite | src/dotnet/aspire-session-host/OTel/MetricService.cs:37-40 | a write never fails or blocks; the queue becomes the drop-oldest enqueue of the request |
| Channel.BoundedChannel.TryRead | src/dotnet/aspire-session-host/OTel/MetricService.cs:46 | reads are first-in first-out: the oldest request is removed and returned; an empty queue yields nothing and stays empty |
| OTelMetricStream.NextIndex | src/dotnet/aspire-session-host/OTel/OTelMetricStream.cs:38 | the advanced cursor is always a slot in 0..299 |
| OTelMetricStream.IndexAfterIsModulo | src/dotnet/aspire-session-host/OTel/OTelMetricStream.cs:8-10 | the cursor is -1 before any put and (n - 1) mod 300 after n puts, so older slots are overwritten beyond 300 puts |
| OTelMetricStream.NumberPoint | src/dotnet/aspire-session-host/OTel/OTelMetricStream.cs:15-27 | an `AsInt` value gives a Long point and an `AsDouble` value a Double point with the same value; the timestamp is the whole number of seconds in `TimeUnixNano`; neither case gives no point |
| OTelMetricStream.OTelMetricStream.constructor | src/dotnet/aspire-session-host/OTel/OTelMetricStream.cs:8-11 | a new stream has cursor -1 and no history |
| OTelMetricStream.OTelMetricStream.Put | src/dotnet/aspire-session-host/OTel/OTelMetricStream.cs:34-41 | the cursor advances with wrap-around, the slot it lands on holds the point, every other slot is unchanged, and the ring keeps the last 300 points |
| OTelMetricStream.OTelMetricStream.GetCurrentPoint | src/dotnet/aspire-session-host/OTel/OTelMetricStream.cs:43-54 | null before the first put, otherwise exactly the point of the most recent put |
| OTelMetricStream.OTelMetricStream.AddNumberDataPoint | src/dotnet/aspire-session-host/OTel/OTelMetricStream.cs:13-28 | a point with a value is put; one with neither value case leaves cursor, slots and history unchanged |
| OTelMetricStream.OTelMetricStream.AddHistogramDataPoint | src/dotnet/aspire-session-host/OTel/OTelMetricStream.cs:30-32 | a histogram point changes nothing and the ring stays valid |
| OTelResource.OTelResource.constructor | src/dotnet/aspire-session-host/OTel/OTelResource.cs:6-11 | a new resource has the given id and no metrics |
| OTelResource.OTelResource.Id | src/dotnet/aspire-session-host/OTel/OTelResource.cs:11 | the key the resource was created under |
| OTelResource.Map | src/dotnet/aspire-session-host/OTel/OTelResource.cs:35-41 | a metric is typed Gauge, Sum or Histogram exactly when its data case is that case, and Other exactly for every other case |
| OTelResource.OTelResource.AddMetric | src/dotnet/aspire-session-host/OTel/OTelResource.cs:13-33 | a known id returns the stored metric with added = false and changes nothing; a new id stores exactly one metric built from the id, the mapped data case, description and unit, and returns it with added = true |
| OTelResource.AddAllGrows | src/dotnet/aspire-session-host/OTel/OTelResource.cs:13-33 | after any run of calls the keys are the old keys plus the called ids, and every stored metric is unchanged, so type, description and unit are fixed at the first sighting |
| OTelResource.AddAllFirstSighting | src/dotnet/aspire-session-host/OTel/OTelResource.cs:17-31 | a call reports added iff its id was neither stored nor called before; the metric stored then is the one built from that call |
| OTelResource.AddedAtMostOnce | src/dotnet/aspire-session-host/OTel/OTelResource.cs:17-31 | over any call sequence added = true is returned at most once per id |
| OTelResource.AddAllAppend | src/dotnet/aspire-session-host/OTel/OTelResource.cs:13-33 | two batches of calls have the same effect as the one batch of both |
| OTelResourceManager.ResourceKeyChoice | src/dotnet/aspire-session-host/OTel/OtelResourceManager.cs:11 | the key is the service id when present, whatever the service name, and the service name otherwise |
| OTelResourceManager.OTelResourceManager.GetOrAddResource | src/dotnet/aspire-session-host/OTel/OtelResourceManager.cs:9-14 | a known key returns its stored resource and changes nothing; a new key stores and returns one fresh empty resource whose id is the key; no entry is removed or replaced |
| OTelUtils.ServiceNameIndex | src/dotnet/aspire-session-host/OTel/OTelUtils.cs:15-21 | the position of the first `service.name` attribute with a string value, none before it, or none at all |
| OTelUtils.GetServiceName | src/dotnet/aspire-session-host/OTel/OTelUtils.cs:13-24 | null iff no `service.name` attribute has a string value; otherwise the value of the first such attribute |
| OTelUtils.ToStringValue | src/dotnet/aspire-session-host/OTel/OTelUtils.cs:47-54 | a string value is its own text; a bool is "true" exactly when true and "false" exactly when false; an integer's text starts with '-' exactly when it is negative |
| OTelUtils.ToStringValueOfInt | src/dotnet/aspire-session-host/OTel/OTelUtils.cs:51 | the invariant text of any 64-bit `IntValue` reads back as that integer, and two different integers never share a text |
| OTelUtils.LastValueAbsent | src/dotnet/aspire-session-host/OTel/OTelUtils.cs:31-42 | a key has no last value iff no attribute carries it |
| OTelUtils.LastValueIsLast | src/dotnet/aspire-session-host/OTel/OTelUtils.cs:31-42 | the last value of a key is carried by an attribute with that key after which the key does not occur |
| OTelUtils.ServiceIdAndNameDefaults | src/dotnet/aspire-session-host/OTel/OTelUtils.cs:26-45 | without `service.name` the name is "Unknown"; the id is null iff there is no `service.instance.id` |
| OTelUtils.ServiceIdIsLast | src/dotnet/aspire-session-host/OTel/OTelUtils.cs:31-42 | the id is the text of the last `service.instance.id` attribute |
| OTelUtils.GetServiceIdAndName | src/dotnet/aspire-session-host/OTel/OTelUtils.cs:26-45 | the loop yields the last-wins (name, id) pair with the "Unknown" default |
| OTelUtils.HexCode | src/dotnet/aspire-session-host/OTel/OTelUtils.cs:80-81 | the code of a nibble is an ASCII code between '0' and 'f' |
| OTelUtils.HexDigit | src/dotnet/aspire-session-host/OTel/OTelUtils.cs:78-85 | every nibble becomes a lower-case hex digit '0'-'9' or 'a'-'f' |
| OTelUtils.NibbleTrick | src/dotnet/aspire-session-host/OTel/OTelUtils.cs:80-84 | the branch-free arithmetic puts the lower-case hex code of the high nibble above bit 8 and that of the low nibble in the low byte, on 32-bit unsigned wrap-around |
| OTelUtils.ToCharsBuffer | src/dotnet/aspire-session-host/OTel/OTelUtils.cs:78-85 | the high digit goes to `startingIndex`, the low digit to the next slot, and no other slot changes |
| OTelUtils.HexEncodeAt | src/dotnet/aspire-session-host/OTel/OTelUtils.cs:71-74 | characters 2k and 2k+1 of the text are the high and low digits of byte k |
| OTelUtils.ToHexString | src/dotnet/aspire-session-host/OTel/OTelUtils.cs:56-76 | the filled text has exactly 2 characters per byte (empty for no bytes) and is the hex encoding of the bytes |
| OTelUtils.NibbleOfHexDigit | src/dotnet/aspire-session-host/OTel/OTelUtils.cs:80-84 | each emitted digit reads back as its nibble |
| OTelUtils.DecodePairOfByte | src/dotnet/aspire-session-host/OTel/OTelUtils.cs:80-84 | the two digits of a byte decode back to the byte |
| OTelUtils.HexRoundTrip | src/dotnet/aspire-session-host/OTel/OTelUtils.cs:56-85 | decoding the hex text gives back the bytes, so the encoding loses nothing |
| MetricService.ReadCount | src/dotnet/aspire-session-host/OTel/MetricService.cs:42-55 | the loop reads the smaller of the queued count and the reads allowed before cancellation |
| MetricService.ConsumeCallsAppend | src/dotnet/aspire-session-host/OTel/MetricService.cs:67-88 | consuming two batches of metrics has the same store and events as consuming both at once |
| MetricService.DiscoveryExactlyOnce | src/dotnet/aspire-session-host/OTel/MetricService.cs:73-78 | a metric id is announced (`MetricIds.Add`) exactly once if it was not stored and occurs in the input, and never otherwise |
| MetricService.PushesOnlySubscribed | src/dotnet/aspire-session-host/OTel/MetricService.cs:80-85 | a value is pushed for an id iff the id is in the subscription set and occurs in the input |
| MetricService.DiscoveryBeforePush | src/dotnet/aspire-session-host/OTel/MetricService.cs:59-87 | for a new id, its announcement comes before every value push for it |
| MetricService.ConsumeBlocksKeys | src/dotnet/aspire-session-host/OTel/MetricService.cs:59-64 | after a request the resource keys are the old keys plus the `serviceId ?? serviceName` key of each of its blocks |
| MetricService.ConsumeBlocksKeepsDetails | src/dotnet/aspire-session-host/OTel/MetricService.cs:95-104 | consuming a request never changes the details of a metric already known |
| MetricService.ConsumeRequestsKeepsDetails | src/dotnet/aspire-session-host/OTel/MetricService.cs:42-65 | the details of a known metric survive any number of consumed requests |
| MetricService.SubscribedWhileAlive | src/dotnet/aspire-session-host/OTel/MetricService.cs:90-93 | an id is subscribed iff a view added it and no end of that lifetime has removed it since |
| MetricService.MetricService.constructor | src/dotnet/aspire-session-host/OTel/MetricService.cs:12-24 | the service starts with an empty queue, no subscriptions and nothing sent |
| MetricService.MetricService.Send | src/dotnet/aspire-session-host/OTel/MetricService.cs:37-40 | the queue becomes the drop-oldest enqueue of the request |
| MetricService.MetricService.ViewMetricSubscription | src/dotnet/aspire-session-host/OTel/MetricService.cs:90-93 | the id joins the subscription set |
| MetricService.MetricService.EndMetricSubscription | src/dotnet/aspire-session-host/OTel/MetricService.cs:92 | at the end of its lifetime the id leaves the subscription set |
| MetricService.MetricService.ConsumeScopeMetrics | src/dotnet/aspire-session-host/OTel/MetricService.cs:71-86 | the metric loop of one scope leaves the resource and the sent events as the fold of its calls |
| MetricService.MetricService.ConsumeResourceMetrics | src/dotnet/aspire-session-host/OTel/MetricService.cs:67-88 | the scope loop leaves the resource and the sent events as the fold of all its calls, scope by scope |
| MetricService.MetricService.ConsumeIntoResource | src/dotnet/aspire-session-host/OTel/MetricService.cs:63 | consuming into the routed resource updates that resource's entry of the store and no other |
| MetricService.MetricService.ConsumeResourceBlock | src/dotnet/aspire-session-host/OTel/MetricService.cs:59-64 | one block is routed to its resource by key and consumed; store and events follow the block's specification |
| MetricService.MetricService.ConsumeRequest | src/dotnet/aspire-session-host/OTel/MetricService.cs:57-65 | the blocks of a request are consumed in order; store and events follow the fold over blocks |
| MetricService.MetricService.ConsumeNext | src/dotnet/aspire-session-host/OTel/MetricService.cs:46-48 | one loop step: an empty queue changes nothing, otherwise the oldest request is dequeued and consumed |
| MetricService.MetricService.ConsumeMetrics | src/dotnet/aspire-session-host/OTel/MetricService.cs:42-55 | the loop consumes the queued requests in FIFO order until cancellation or an empty queue; the rest stays queued |
| MetricService.MetricService.GetMetricDetails | src/dotnet/aspire-session-host/OTel/MetricService.cs:95-104 | null for an unknown resource or metric, otherwise the id with the stored description and unit; nothing changes |
| RdMetric.AddMetricValueAsWrittenCases | src/dotnet/aspire-session-host/OTel/RdMetric.cs:20-39 | as written, the dispatch reads a null data field iff the stored type is not Other and differs from the metric's data case; Other dispatches nothing |
| RdMetric.AddMetricValueAsWrittenFails | src/dotnet/aspire-session-host/OTel/RdMetric.cs:24-25 | a Gauge metric given a metric with Sum data dereferences the null `Gauge` field |
| RdMetric.AddMetricValueRefines | src/dotnet/aspire-session-host/OTel/RdMetric.cs:20-39 | the corrected dispatch agrees with the original wherever the original succeeds, and adds nothing exactly when the type is Other or the original would fail |
| RdMetric.RdMetric.Type | src/dotnet/aspire-session-host/OTel/RdMetric.cs:18 | the type given at construction |
| RdResource.Map | src/dotnet/aspire-session-host/OTel/RdResource.cs:38-44 | Gauge, Sum and Histogram map to the same-named type and every other data case to Other |
| RdResource.AddAllGrows | src/dotnet/aspire-session-host/OTel/RdResource.cs:14-29 | after `AddMetrics` every (scope, metric) pair of the input is a key, no other key is added, and existing metrics are never replaced |
| RdResource.AddAllFirstSighting | src/dotnet/aspire-session-host/OTel/RdResource.cs:19-29 | a pair seen for the first time is stored with the type, description and unit of that first metric |
| RdResource.DispatchedIffNotOther | src/dotnet/aspire-session-host/OTel/RdResource.cs:31-33 | a value is dispatched for an id iff it occurs in the input and its stored metric is not of type Other |
| RdResource.AddAllAppend | src/dotnet/aspire-session-host/OTel/RdResource.cs:12-36 | two batches of calls have the same effect as the one batch of both |
| RdResource.RdResource.constructor | src/dotnet/aspire-session-host/OTel/RdResource.cs:8-10 | a new resource has the given id and no metrics |
| RdResource.RdResource.AddMetrics | src/dotnet/aspire-session-host/OTel/RdResource.cs:12-36 | the nested loops leave the dictionary and the dispatched ids as the fold of all (scope, metric) calls |
| RdResource.RdResource.AddMetric | src/dotnet/aspire-session-host/OTel/RdResource.cs:18-33 | one metric: get-or-add, then a dispatch unless the stored type is Other |
| RdResource.RdResource.AddScopeMetrics | src/dotnet/aspire-session-host/OTel/RdResource.cs:16-34 | the inner loop over one scope's metrics is the fold of its calls |
| RdResource.RdResource.GetMetricIds | src/dotnet/aspire-session-host/OTel/RdResource.cs:46-50 | one id per key: no duplicates, every key present, only keys present, as many as there are keys |
| RdResource.StepAsWrittenCases | src/dotnet/aspire-session-host/OTel/RdResource.cs:18-33 | one call as written throws exactly when its id is stored with a type other than Other that differs from the incoming data case; otherwise it does what the corrected call does |
| RdResource.AddAllAsWrittenRefines | src/dotnet/aspire-session-host/OTel/RdResource.cs:12-36 | where the walk as written completes, it leaves the dictionary and the dispatched ids exactly as the corrected walk does |
| RdResource.AddAllAsWrittenFails | src/dotnet/aspire-session-host/OTel/RdResource.cs:12-36 | the walk as written throws exactly when some call meets a mismatch in the dictionary built by the calls before it; a first sighting never throws |
| RdResource.AddAllAsWrittenDropsLater | src/dotnet/aspire-session-host/OTel/RdResource.cs:14-33 | a Gauge metric sighted again with Sum data and followed by a new metric: the walk as written throws at the second call, so the new metric is never stored, while the corrected walk stores it |
| RdResourceManager.RdResourceManager.GetOrAddResource | src/dotnet/aspire-session-host/OTel/RdResourceManager.cs:9-14 | a known key returns its stored resource and changes nothing; a new key stores and returns one fresh empty resource whose id is the key |
| RdMetricService.MapMetricTypeAgrees | src/dotnet/aspire-session-host/OTel/RdMetricService.cs:89-95 | the transport type is Gauge, Sum or Histogram exactly when the data case is, and Unknown exactly when `RdResource.Map` gives Other |
| RdMetricService.MapResource | src/dotnet/aspire-session-host/OTel/RdMetricService.cs:73-77 | the record carries the (name, id) pair of `GetServiceIdAndName`: name "Unknown" without a `service.name`, no id exactly when there is no `service.instance.id` |
| RdMetricService.MapMetric | src/dotnet/aspire-session-host/OTel/RdMetricService.cs:79-87 | name, description and unit are copied; the type is Gauge, Sum or Histogram exactly for that data case and Unknown for every other |
| RdMetricService.MapBlocksAppend | src/dotnet/aspire-session-host/OTel/RdMetricService.cs:49-70 | mapping two lists of blocks is mapping each in turn |
| RdMetricService.MapRequestsOnePerBlock | src/dotnet/aspire-session-host/OTel/RdMetricService.cs:47-71 | exactly one message per resource block, in input order, each the mapping of its block |
| RdMetricService.RdMetricService.Send | src/dotnet/aspire-session-host/OTel/RdMetricService.cs:27-30 | the queue becomes the drop-oldest enqueue of the request |
| RdMetricService.RdMetricService.ConsumeMetric | src/dotnet/aspire-session-host/OTel/RdMetricService.cs:47-71 | the sent messages grow by the mapping of the request's blocks |
| RdMetricService.RdMetricService.ConsumeMetrics | src/dotnet/aspire-session-host/OTel/RdMetricService.cs:32-45 | the queued requests are consumed in FIFO order until cancellation; what is sent is the mapping of the consumed ones |
| SessionService.GuidText | src/dotnet/aspire-session-host/Sessions/SessionService.cs:14 | the string form of an id has 36 characters with dashes at 8, 13, 18 and 23 |
| SessionService.GuidTextRoundTrip | src/dotnet/aspire-session-host/Sessions/SessionService.cs:13-14 | the string form of an id reads back as the id |
| SessionService.GuidTextInjective | src/dotnet/aspire-session-host/Sessions/SessionService.cs:14 | two ids have the same string key iff they are equal |
| SessionService.FilterEnvsAppend | src/dotnet/aspire-session-host/Sessions/SessionService.cs:16-19 | filtering two lists is filtering each in turn |
| SessionService.FilterEnvsKeepsValued | src/dotnet/aspire-session-host/Sessions/SessionService.cs:16-19 | variables with values are all kept, in order, with name and value |
| SessionService.FilterEnvsDropsNull | src/dotnet/aspire-session-host/Sessions/SessionService.cs:16-19 | variables without values are all dropped |
| Common.IndexOf | src/main/kotlin/me/rafaelldi/aspire/run/AspireHostRunManager.kt:69 | the position of the first element equal to the key, with none equal before it, or none at all when no element is equal |
| SessionService.ServiceNameOf | src/dotnet/aspire-session-host/Sessions/SessionService.cs:15-26 | no environment or no `OTEL_SERVICE_NAME` variable gives null; otherwise the value of the first such variable |
| SessionService.BuildModel | src/dotnet/aspire-session-host/Sessions/SessionService.cs:20-27 | the model has the key, path, debug flag and arguments of the session, a null environment exactly when the session has none (otherwise the filtered one), and the picked service name |
| SessionService.SessionService.Create | src/dotnet/aspire-session-host/Sessions/SessionService.cs:11-33 | returns the id iff its key was absent, and then stores the model under it; otherwise returns null and changes nothing |
| SessionService.SessionService.Delete | src/dotnet/aspire-session-host/Sessions/SessionService.cs:35-39 | returns whether the key was present; afterwards it is absent |
| OTelService.RemovesNeverDelivered | src/main/kotlin/me/rafaelldi/aspire/otel/OTelService.kt:50 | a remove event anywhere in any stream delivers nothing: the stream delivers exactly what it delivers without it |
| OTelService.OtherResourcesNeverDelivered | src/main/kotlin/me/rafaelldi/aspire/otel/OTelService.kt:46 | an event for another resource id (ignoring case) anywhere in any stream delivers nothing: the stream delivers exactly what it delivers without it |
| OTelService.MatchingAddsDelivered | src/main/kotlin/me/rafaelldi/aspire/otel/OTelService.kt:43-48 | an add for the resource anywhere in any stream is delivered as its (scope, metric) pair, after what the events before it deliver and before what the events after it deliver |
| OTelService.DeliveredIdsAppend | src/main/kotlin/me/rafaelldi/aspire/otel/OTelService.kt:43-50 | delivery over two runs of events is delivery over the first then the second |
| OTelService.DeliveredIdsInsert | src/main/kotlin/me/rafaelldi/aspire/otel/OTelService.kt:43-50 | one event inside any stream contributes its own callback output between the output of the events before it and that of the events after it |
| OTelService.DeliveredIdsMembers | src/main/kotlin/me/rafaelldi/aspire/otel/OTelService.kt:43-50 | over any stream, a (scope, metric) pair is delivered exactly when some add in the stream carries it for the resource id, ignoring case |
| OTelService.DeliveredValuesMatch | src/main/kotlin/me/rafaelldi/aspire/otel/OTelService.kt:62-65 | the value callback only receives metrics of the subscribed id |
| OTelService.DeliveredValuesComplete | src/main/kotlin/me/rafaelldi/aspire/otel/OTelService.kt:62-65 | over any stream, each metric of the subscribed id is delivered as many times as it was received, and no other metric is delivered |
| OTelService.DeliveredValuesAppend | src/main/kotlin/me/rafaelldi/aspire/otel/OTelService.kt:62-65 | delivery over two runs of signals is delivery over the first then the second, so values arrive in the order received |
| OTelService.OTelService.AddOTelServer | src/main/kotlin/me/rafaelldi/aspire/otel/OTelService.kt:26-34 | a known key is never replaced; a new key is stored |
| OTelService.RemoveLast | src/main/kotlin/me/rafaelldi/aspire/otel/OTelService.kt:43 | the subscriber a lifetime's end detaches: exactly one equal entry leaves the list (multiset difference), nothing changes when there is none, and ending the latest subscription restores the list as it was before it |
| OTelService.OTelService.SubscribeToMetricIds | src/main/kotlin/me/rafaelldi/aspire/otel/OTelService.kt:36-53 | an unknown key does nothing; otherwise that model gains the id subscriber, and its value subscribers, subscription set and metric details are kept; other models are unchanged |
| OTelService.OTelService.EndMetricIdsSubscription | src/main/kotlin/me/rafaelldi/aspire/otel/OTelService.kt:43 | at the end of the lifetime passed to `adviseAddRemove`, one subscriber for the resource id leaves that model; nothing else changes |
| OTelService.OTelService.SubscribeToMetricValues | src/main/kotlin/me/rafaelldi/aspire/otel/OTelService.kt:55-67 | an unknown key does nothing; otherwise that model gains the value subscriber and the id joins its `metricSubscriptions`, and its id subscribers and metric details are kept; other models are unchanged |
| OTelService.OTelService.EndMetricValuesSubscription | src/main/kotlin/me/rafaelldi/aspire/otel/OTelService.kt:62-66 | at the end of the lifetime passed to `advise` and `addUnique`, one value subscriber for the id leaves that model and the id leaves its `metricSubscriptions`; nothing else changes |
| OTelService.OTelService.GetMetricDetails | src/main/kotlin/me/rafaelldi/aspire/otel/OTelService.kt:69-72 | null for an unknown key or an unknown metric, otherwise the model's details |
| AspireHost.AspireHost.constructor | src/main/kotlin/me/rafaelldi/aspire/services/AspireHost.kt:16-37 | a new host has its name and path and is inactive, with no url, model, lifetime or console |
| AspireHost.AspireHost.Start | src/main/kotlin/me/rafaelldi/aspire/services/AspireHost.kt:39-48 | active, with the three arguments stored; name and console unchanged |
| AspireHost.AspireHost.Stop | src/main/kotlin/me/rafaelldi/aspire/services/AspireHost.kt:50-55 | inactive with no url, model or lifetime, whatever the prior state; name and console unchanged |
| AspireHost.AspireHost.UpdateName | src/main/kotlin/me/rafaelldi/aspire/services/AspireHost.kt:57-59 | only the display name changes |
| AspireHost.AspireHost.UpdateConsole | src/main/kotlin/me/rafaelldi/aspire/services/AspireHost.kt:61-69 | only the console changes |
| AspireServiceManager.OfTypePartition | src/main/kotlin/me/rafaelldi/aspire/services/AspireServiceManager.kt:48 | sorting by type is a permutation |
| AspireServiceManager.SortedByTypeSorted | src/main/kotlin/me/rafaelldi/aspire/services/AspireServiceManager.kt:48 | the sorted list is ordered by type |
| AspireServiceManager.SortedByTypeStable | src/main/kotlin/me/rafaelldi/aspire/services/AspireServiceManager.kt:48 | the sort is stable: resources of one type keep their order |
| AspireServiceManager.ShownMembers | src/main/kotlin/me/rafaelldi/aspire/services/AspireServiceManager.kt:46-47 | a resource is shown iff it is listed, its type is not Unknown and its state is not Hidden |
| AspireServiceManager.ListResourcesSpec | src/main/kotlin/me/rafaelldi/aspire/services/AspireServiceManager.kt:43-50 | the listing holds exactly the shown resources, each as often as before, sorted by type |
| AspireServiceManager.RemoveIdMembers | src/main/kotlin/me/rafaelldi/aspire/services/AspireServiceManager.kt:160 | removing an id keeps exactly the entries with other ids |
| AspireServiceManager.RemoveIdIds | src/main/kotlin/me/rafaelldi/aspire/services/AspireServiceManager.kt:160 | removing an id removes exactly that id from the key set |
| AspireServiceManager.RemoveIdUnique | src/main/kotlin/me/rafaelldi/aspire/services/AspireServiceManager.kt:160 | removal keeps keys unique |
| AspireServiceManager.ResourceTable.AddUnique | src/main/kotlin/me/rafaelldi/aspire/services/AspireServiceManager.kt:160 | an absent id is appended; a present id leaves the map unchanged; keys stay unique |
| AspireServiceManager.ResourceTable.Remove | src/main/kotlin/me/rafaelldi/aspire/services/AspireServiceManager.kt:160 | at the end of the resource's lifetime its entry is removed and nothing else |
| AspireServiceManager.AspireServiceManager.GetResources | src/main/kotlin/me/rafaelldi/aspire/services/AspireServiceManager.kt:43-50 | empty for an unknown host, otherwise the filtered and sorted listing of its resources |
| AspireServiceManager.AspireServiceManager.AddAspireHost | src/main/kotlin/me/rafaelldi/aspire/services/AspireServiceManager.kt:54-67 | a known path changes nothing; a new path maps to the host and to a fresh empty resource map, and one SERVICE_ADDED event is published |
| AspireServiceManager.AspireServiceManager.RemoveAspireHost | src/main/kotlin/me/rafaelldi/aspire/services/AspireServiceManager.kt:69-83 | both entries for the path are removed; SERVICE_REMOVED is published iff the host was present |
| AspireServiceManager.AspireServiceManager.UpdateAspireHostName | src/main/kotlin/me/rafaelldi/aspire/services/AspireServiceManager.kt:85-93 | an unknown path changes nothing; otherwise only that host's name changes and SERVICE_CHANGED is published |
| AspireServiceManager.AspireServiceManager.UpdateAspireHostConsole | src/main/kotlin/me/rafaelldi/aspire/services/AspireServiceManager.kt:95-103 | an unknown path changes nothing; otherwise only that host's console changes and SERVICE_CHANGED is published |
| AspireServiceManager.AspireServiceManager.ViewResource | src/main/kotlin/me/rafaelldi/aspire/services/AspireServiceManager.kt:149-174 | no resource map for the host does nothing; otherwise the resource is added if its id is new and SERVICE_STRUCTURE_CHANGED is published |
| AspireResourceService.IsRunningCases | src/main/kotlin/me/rafaelldi/aspire/services/AspireResourceService.kt:84 | "running" in any letter case is running; null and other states are not |
| AspireResourceService.FillAllNoOps | src/main/kotlin/me/rafaelldi/aspire/services/AspireResourceService.kt:101-152 | properties with null values or unrecognised names change nothing |
| AspireResourceService.FillAllKeepsUnnamed | src/main/kotlin/me/rafaelldi/aspire/services/AspireResourceService.kt:100-154 | a field no property of the list sets (every property with its name has a null value) keeps its old value, whatever else the list holds and even when reading stops early |
| AspireResourceService.ApplyKeepsTextField | src/main/kotlin/me/rafaelldi/aspire/services/AspireResourceService.kt:101-152 | a property leaves every text field with another name unchanged |
| AspireResourceService.FillAllFails | src/main/kotlin/me/rafaelldi/aspire/services/AspireResourceService.kt:117-119 | reading fails iff some `executable.pid` value is not an `Int` |
| AspireResourceService.TextFieldLastWins | src/main/kotlin/me/rafaelldi/aspire/services/AspireResourceService.kt:113-151 | a text field holds the value of the last non-null property with its name |
| AspireResourceService.PidLastWins | src/main/kotlin/me/rafaelldi/aspire/services/AspireResourceService.kt:117-119 | the process id is the last non-null `executable.pid` value, parsed |
| AspireResourceService.FillAllStops | src/main/kotlin/me/rafaelldi/aspire/services/AspireResourceService.kt:100-154 | an unparsable process id stops reading with the fields read before it |
| AspireResourceService.FillAllFailedStays | src/main/kotlin/me/rafaelldi/aspire/services/AspireResourceService.kt:100-154 | nothing after the failure is read |
| AspireResourceService.AspireResourceService.constructor | src/main/kotlin/me/rafaelldi/aspire/services/AspireResourceService.kt:78-98 | without a model the names are "", the type Unknown, the arrays empty and no field read; with one the fields copy it and the properties are read; no metrics |
| AspireResourceService.AspireResourceService.FillFromProperties | src/main/kotlin/me/rafaelldi/aspire/services/AspireResourceService.kt:100-154 | the loop leaves the property fields as the fold over the properties |
| AspireResourceService.AspireResourceService.SetModel | src/main/kotlin/me/rafaelldi/aspire/services/AspireResourceService.kt:157-164 | the model fields are overwritten and `isRunning` follows the new state |
| AspireResourceService.AspireResourceService.Update | src/main/kotlin/me/rafaelldi/aspire/services/AspireResourceService.kt:156-176 | the model fields are overwritten; the property fields are the fold of the new list over the old fields (so, by `FillAllKeepsUnnamed`, fields the list does not set keep their old values); metrics are kept |
| AspireResourceService.AspireResourceService.MetricReceived | src/main/kotlin/me/rafaelldi/aspire/services/AspireResourceService.kt:186-189 | the metric replaces whatever was stored under its (scope, name) |
| AspireResourceService.AspireResourceService.GetMetrics | src/main/kotlin/me/rafaelldi/aspire/services/AspireResourceService.kt:76 | a snapshot of exactly the metrics stored so far, one per (scope, name) key |
| AspireHostRunManager.ExecutorFor | src/main/kotlin/me/rafaelldi/aspire/run/AspireHostRunManager.kt:42-43 | the debug executor exactly under debug |
| AspireHostRunManager.CandidatesMembers | src/main/kotlin/me/rafaelldi/aspire/run/AspireHostRunManager.kt:55-60 | candidates are exactly the listed Aspire host configurations for the host's path |
| AspireHostRunManager.AspireHostRunManager.SaveRunConfiguration | src/main/kotlin/me/rafaelldi/aspire/run/AspireHostRunManager.kt:32-39 | both the name and the lifetime stored for the path are overwritten |
| AspireHostRunManager.AspireHostRunManager.ConfigurationForHost | src/main/kotlin/me/rafaelldi/aspire/run/AspireHostRunManager.kt:41-78 | the selected configuration when it is for the host; otherwise the first candidate with the remembered name, or the first candidate; nothing iff there is no candidate |
| AspireHostRunManager.AspireHostRunManager.StopConfigurationForHost | src/main/kotlin/me/rafaelldi/aspire/run/AspireHostRunManager.kt:80-90 | stops iff a live lifetime is remembered for the host; only that lifetime is terminated |
| AspireHostExecutorFactory.AssociateKeys | src/main/kotlin/me/rafaelldi/aspire/run/AspireHostExecutorFactory.kt:56-58 | a key is in the map iff some project variable has it |
| AspireHostExecutorFactory.AssociateLastWins | src/main/kotlin/me/rafaelldi/aspire/run/AspireHostExecutorFactory.kt:56-58 | a repeated key keeps its last value |
| AspireHostExecutorFactory.SingleMatching | src/main/kotlin/me/rafaelldi/aspire/run/AspireHostExecutorFactory.kt:40-42 | a project is picked iff exactly one Aspire host project has the path, and then it is that project |
| AspireHostExecutorFactory.BuildEnvironment | src/main/kotlin/me/rafaelldi/aspire/run/AspireHostExecutorFactory.kt:56-66 | the project's variables, overridden by the token, by `localhost:<port>`, and by the OTLP url when telemetry is collected; every other key as in the project |
| AspireHostExecutorFactory.GetDotNetExecutable | src/main/kotlin/me/rafaelldi/aspire/run/AspireHostExecutorFactory.kt:53-82 | fails exactly when the project has no output; otherwise the first output's path, framework, directory and arguments, with the environment built from the project's variables, token, port and OTLP setting |
| AspireHostExecutorFactory.Create | src/main/kotlin/me/rafaelldi/aspire/run/AspireHostExecutorFactory.kt:29-51 | the errors in order (no runtime, solution loading, not exactly one project, no output, unknown executor); when every check passes, the run and the debug executor both get a run state of the single project's first output with the built environment |
| AspireHostProgramRunner.ParsePort | src/main/kotlin/me/rafaelldi/aspire/run/AspireHostProgramRunner.kt:61-63 | a parsed port is an `Int` |
| AspireHostProgramRunner.Execute | src/main/kotlin/me/rafaelldi/aspire/run/AspireHostProgramRunner.kt:59-94 | an unparsable port fails first, then a missing token or port, then missing parameters; otherwise the config carries the token, port, paths, the urls found and `isDebug` iff the executor is the debug one |
| AspireHostProgramRunner.PortRoundTrip | src/main/kotlin/me/rafaelldi/aspire/run/AspireHostProgramRunner.kt:61-63 | the text `localhost:<port>` reads back as the port |
| AspireHostProgramRunner.FactoryThenRunner | src/main/kotlin/me/rafaelldi/aspire/run/AspireHostProgramRunner.kt:59-78 | on an environment the factory built, the runner gets the token and port back and succeeds iff the parameters are present |
| Text.ParseIntOfIntToDecimal | src/main/kotlin/me/rafaelldi/aspire/run/AspireHostProgramRunner.kt:63 | `toInt` reads back the decimal text of every `Int` (ASCII digits) |
| Text.SubstringAfterFirst | src/main/kotlin/me/rafaelldi/aspire/run/AspireHostProgramRunner.kt:62 | `substringAfter(':')` of a text whose first ':' follows a colon-free prefix is what follows that colon |
| DiagramService.NodeMapMembers | src/main/kotlin/me/rafaelldi/aspire/diagram/DiagramService.kt:82 | the id map has exactly the nodes' ids, each mapped to a node with that id |
| DiagramService.NodeMapLastWins | src/main/kotlin/me/rafaelldi/aspire/diagram/DiagramService.kt:82 | for a duplicated id the last node with that id is kept |
| DiagramService.GenerateEdges | src/main/kotlin/me/rafaelldi/aspire/diagram/DiagramService.kt:80-92 | the nested loops produce the edges parent by parent and then child by child |
| DiagramService.AllEdgesMembers | src/main/kotlin/me/rafaelldi/aspire/diagram/DiagramService.kt:84-89 | an edge is generated iff some node has a child whose id is mapped, from that node to the mapped node, weighted by the child's connection count |
| DiagramService.GeneratedEdgeShape | src/main/kotlin/me/rafaelldi/aspire/diagram/DiagramService.kt:84-88 | every edge runs between input nodes; the source has a child with the target's id and the edge's weight |
| DiagramService.GeneratedEdgeComplete | src/main/kotlin/me/rafaelldi/aspire/diagram/DiagramService.kt:84-88 | every child whose id matches a node gives an edge |
| DiagramService.AllEdgesCount | src/main/kotlin/me/rafaelldi/aspire/diagram/DiagramService.kt:81-91 | there are at most as many edges as child entries |
| DiagramService.AllEdgesAppend | src/main/kotlin/me/rafaelldi/aspire/diagram/DiagramService.kt:84-89 | the edges of two node lists are those of each in turn |
| DiagramService.NodeBackground | src/main/kotlin/me/rafaelldi/aspire/diagram/DiagramService.kt:108-114 | no incoming edge gives the entry colour; otherwise no children gives the leaf colour; otherwise no colour |
| DiagramService.IncomingIffReferenced | src/main/kotlin/me/rafaelldi/aspire/diagram/DiagramService.kt:108 | a node has an incoming generated edge iff it is the kept node for its id and some child references that id |
| DiagramService.DiagramService.StoreState | src/main/kotlin/me/rafaelldi/aspire/diagram/DiagramService.kt:74 | the state is stored under its title; other titles are unchanged |
| DiagramService.DiagramService.GetDiagramState | src/main/kotlin/me/rafaelldi/aspire/diagram/DiagramService.kt:94 | the last state stored for the title, or null |
| AspireHelpProvider.GetHelpPageUrl | src/main/kotlin/me/rafaelldi/aspire/AspireHelpProvider.kt:12-21 | null iff the topic lacks the `me.rafaelldi.aspire.` prefix; a url always starts with the docs root and "/" and is the main or the run-configuration page |
| AspireHelpProvider.TopicPages | src/main/kotlin/me/rafaelldi/aspire/AspireHelpProvider.kt:16-20 | "run-config" maps to the run-configuration page and every other topic, "main" included, to the main page |

## Left out

- Concurrency: locks, `ConcurrentDictionary`/`ConcurrentHashMap` atomicity, async/await and coroutines are modelled as one sequential caller.
- Queue cancellation: the consume loops take a bound on the number of reads (`readsBeforeCancel`) instead of a cancellation token.
- Queue blocking: reading an empty channel does not wait; the loop stops instead.
- Lifetimes: `AddLifetimed`, `addUnique`, `advise` and `adviseAddRemove` lifetimes are modelled as explicit add and remove calls (`ViewMetricSubscription`/`EndMetricSubscription`, `ResourceTable.AddUnique`/`Remove`, `SubscribeToMetricIds`/`EndMetricIdsSubscription`, `SubscribeToMetricValues`/`EndMetricValuesSubscription`). Ending a lifetime that never subscribed is the caller's error and is not guarded against.
- Rd protocol: model sets and signals are modelled as plain fields and event lists (`sent`, `published`, the subscriber lists of `SessionHostModel`). The message-bus events of `AspireServiceManager` that the model covers (SERVICE_ADDED, SERVICE_REMOVED, SERVICE_CHANGED, and SERVICE_STRUCTURE_CHANGED when a resource is viewed) are appended to its `published` list. Three are not modelled: SERVICE_STRUCTURE_CHANGED when a resource's lifetime ends (`AspireServiceManager.kt:169-173`), `resourceCreated`/`resourceUpdated`, and SERVICE_CHILDREN_CHANGED from `AspireResourceService`.
- MetricService.MetricService.ConsumeScopeMetrics: the payload `1.0, 1716751794002` of a pushed value is not modelled; only the fact of a push and its id are.
- MetricService.MetricService.ConsumeScopeMetrics: the call to `oTelMetric.AddMetricValue` is not modelled. `OTelMetric.cs` declares no such member, and its 7-field record disagrees with the 5-argument construction at `OTelResource.cs:22-28`. The model follows `OTelResource.cs` and stores the 5 fields built there.
- MetricService.MetricService.GetMetricDetails: `resourceManager.Get` and `resource.GetMetric` are not in `OtelResourceManager.cs` or `OTelResource.cs`. They are modelled as plain lookups in the two dictionaries.
- Floating point: double values are opaque. `ToStringValue` of a double takes its invariant text as given. The `exitCode` (`toDouble().roundToInt()`) and `createTime` (`Instant.parse`) properties are treated as unread names, together with their parse failures.
- `ToStringValue` of a kind other than string, bool, int or double returns protobuf's `ToString()`; this is modelled as opaque text.
- Random and probed values: the session GUID, the debug-session token and the free ports from `NetUtils.findFreePort` are parameters.
- Paths: `absolutePathString()` and `Path(...)` are identity on strings; paths are compared as strings.
- DotNetExecutable: `ParametersListUtil.join` of the default arguments is kept as the argument list. The constant flags of the `DotNetExecutable` constructor are not modelled.
- Host start and logs: `startAspireHost`, `logReceived` and console creation are not modelled; a console is an opaque handle.
- AspireServiceManager: `ResourceType`'s sort order is taken to be its declaration order in the generated protocol model, which is not part of this model.
- OTelService.OTelService.SubscribeToMetricValues: a second subscription for an id already in `metricSubscriptions` leaves the set unchanged. The Rd `addUnique` exception on duplicates is not modelled.
- AspireServiceManager.ResourceTable.AddUnique: a duplicate id leaves the map unchanged, as the Rd `addUnique` does. Its exception on duplicates is not modelled.
- DiagramService: the fields of `TraceNode`, `TraceNodeChild` and `TraceEdge` are taken from their uses. The generated protocol model is not part of this model.
- DiagramService: `showDiagram`, the graph-chart builders, painters, toolbar actions and `DiagramState` grouping are UI code and are not modelled. A diagram state is an opaque value.
- AspireHostProgramRunner.Execute: only the reading of the environment and parameters (lines 59-94) is modelled. Protocol start, session host launch and the log flow are not.
- Histogram storage and the `RdMetric` adders have empty bodies, so dispatching a value stores nothing. The model records only which ids were dispatched.
- UI and view code (panels, trees, view descriptors, icons) and the IDE services are not modelled.
- RdResource.RdResource.AddMetrics: the loop uses the corrected dispatch of the finding below, so it does not model the as-written abort, in which a type mismatch throws out of the loop and no later metric is added or dispatched. The as-written walk is `RdResource.AddAllAsWritten`, related to the corrected one by `AddAllAsWrittenRefines` and `AddAllAsWrittenFails`.
- RdResource.RdResource.AddMetric: dispatches through the corrected `AddMetricValue`; the as-written call that throws is `RdResource.StepAsWritten`.
- RdResource.RdResource.AddScopeMetrics: the inner loop also follows the corrected dispatch and never stops early.
- RdResource.AddAllGrows: stated for the corrected walk. As written, the keys grow only by the calls before the first mismatch.
- RdResource.DispatchedIffNotOther: stated for the corrected walk. As written, nothing is dispatched from the first mismatch on.
- RdResource.AddAllAppend: stated for the corrected walk; the as-written walk stays failed once it has thrown.
- MetricService.MetricService.ConsumeResourceBlock: `ResourceMetrics.Resource` and `ScopeMetrics.Scope` are taken to be present. In protobuf an unset message field is null, and dereferencing it throws out of the consume loop, which catches only cancellation. The model does not capture that end of the consumer.
- RdMetricService.MapBlock: the same assumption for `ResourceMetrics.Resource` and `ScopeMetrics.Scope`, and in `RdResource.RdResource.AddMetrics` for `ScopeMetrics.Scope`.
- OTelUtils.GetServiceIdAndName: `KeyValue.Value` is taken to be present; a null value would throw in `ToStringValue`.
- Text.ParseInt: accepts ASCII digits only. The JVM's `Integer.parseInt` behind Kotlin's `toInt` also accepts other Unicode decimal digits (for example a full-width '3'). This affects `AspireHostProgramRunner.ParsePort` and the process-id property of `AspireResourceService`.
- Text.ParseLong: accepts only the sign and ASCII digits; it stands for the reader that inverts invariant-culture `long` text.
- Text.EqualsIgnoreCase: folds ASCII letters only, while Kotlin's `equals(ignoreCase = true)` folds Unicode case. This affects `AspireResourceService.IsRunning` and the resource-id filter of `OTelService.IdsCallback`.

## Findings

| source | as written | input that shows it | evidently intended | confidence | as-written member | corrected member |
|---|---|---|---|---|---|---|
| src/dotnet/aspire-session-host/OTel/RdMetric.cs:20-39 | `AddMetricValue` switches on the type stored at the metric's first sighting but reads `metric.Gauge`/`Sum`/`Histogram` of the incoming metric, which protobuf leaves null for an inactive data case | a metric first seen as a Gauge, then received again under the same (scope, name) with Sum data: `metric.Gauge` is null and `.DataPoints` throws a null reference | read the data points of the incoming metric's own case, or skip a metric whose case differs from the stored type | high, not executed | RdMetric.AddMetricValueAsWrittenFails | RdMetric.AddMetricValueRefines |
