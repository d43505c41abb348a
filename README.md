# aqserver core, modelled in Dafny

aqserver collects air-quality samples from sensor boards and pushes each one
through a message pipeline. The Root stage hands the message to the
Calculate stage. Calculate looks up the calibration record in effect for the
board (by SysID) at the message's receive time, fills in an empty DeviceID
from it and turns the raw AFE3 ADC codes into a temperature and NO2, O3 and
NO concentrations. Persist stores the message and records its storage ID; Log
writes a log line. The `fetch` command pages backwards through the data
stored for a collection in batches of at most 500 items. It publishes every
decodable item newer than a stop time through a Root, Calculate, Persist
pipeline without Log. The one item that repeats the previous batch's first
item is skipped.

The model has eight modules:

- `Types` (types.dfy): machine integers, Go's int32 wrap-around, uint16/uint8
  narrowing, Go's truncating division, and float64 results as
  `Finite(real) | NonFinite`.
- `Model` (model.dfy): the calibration record `Cal` (pkg/model/cal.go) and
  the `Message` record, with `MessageRef` standing for a `*Message` shared by
  the stages.
- `Store` (store.dfy): the store, seen only through what `ListCals` and
  `PutMessage` answer.
- `ModelUtil` (util.dfy): `MessageFromProtobuf`.
- `Calc` (calc.dfy): the sensor transform of pkg/model/calc.go.
- `Calibration` (calibration.dfy): what the Calculate stage's cache means.
  - The records are grouped by SysID, and each group is sorted newest first.
  - A scan picks the record in effect at a given time.
  - A throttle rule decides when a lookup may reload the cache.
- `Pipeline` (pipeline.dfy): the Root, Calculate, Persist and Log stages.
  - Each stage is a class with a `next` field.
  - `Stage` is a datatype over the four classes and stands in for the Go
    `Pipeline` interface.
  - Every `Publish` takes the chain it heads as a ghost argument. It returns
    a ghost trace with one visit per stage: the stage, the message it
    received, the message it passed on and, for Calculate, the cache it
    looked in.
  - Every `Publish` also takes a ghost `before`: the state of each stage at
    some moment before the message went in. For Calculate that state is the
    cache, its time stamp and the store's ListCals answer; for Persist it is
    the store's PutMessage answer; for both it also holds the messages the
    store held.
  - `AllWorked` ties the trace to `before`. Each Calculate stage did the one
    lookup its earlier cache, time stamp and store answer allow, and the
    cache in its visit is the cache the stage now holds. Each Persist
    stage's store has had the message that stage received appended since,
    and the stage passed the message on with the storage ID from the
    store's PutMessage answer, or unchanged when that answer is a failure.
- `Fetch` (fetch.dfy): the helpers and the batch loop of cmd/aq/fetch.go.
  - `reverse` works on arrays.
  - The millisecond and time conversions.
  - Decimal parsing and printing of timestamps.
  - The per-item skip/stop rule, the per-batch walk and the loop over
    batches.

Floating-point values are reals. The clock is a parameter: `now` in
milliseconds for the pipeline, a `Time` for fetch. The piecewise-linear
interpolation library is an uninterpreted function. The network answers of
the fetch loop are a given sequence, and the base64 and protobuf decoders
are given functions.

Two consequences of the code spelled out:

- When a message's time lies before every record of a known SysID, the scan
  at pkg/pipeline/calculate/calculate.go:114-119 finds no record to stop at
  and returns the oldest record. Only an unknown SysID gets the zero record
  (`EffectiveBeforeAll`).
- 500000 ADC codes are 298.0232239 mV raw, and 198.0232239 mV after the
  100 mV calibration terms (`WorkedExampleNO2`).

## Model

| member | source | states |
|---|---|---|
| Types.WrapI32 | pkg/model/calc.go:74 | the result is congruent to the exact sum modulo 2^32 and equals it when it fits in int32 |
| Types.Low16 | pkg/model/util.go:42-47 | uint16(x) keeps x modulo 2^16, and keeps x itself when it already fits |
| Types.Low8 | pkg/model/util.go:48 | uint8(x) keeps x modulo 2^8, and keeps x itself when it already fits |
| Types.GoDiv | cmd/aq/fetch.go:167 | Go's integer division truncates toward zero: q*b <= a < q*b+b for a >= 0 and q*b-b < a <= q*b for a < 0 |
| Types.Quotient | pkg/model/calc.go:55 | float division is finite exactly when the divisor is nonzero, and then result times divisor gives the dividend |
| Types.Minus | pkg/model/calc.go:62 | float subtraction is finite exactly when both operands are, and then adding back the subtrahend gives the minuend |
| ModelUtil.NarrowBins | pkg/model/util.go:49-72 | each of the 24 OPC bins keeps the low 16 bits of the sample's bin |
| ModelUtil.FromProtobufCopies | pkg/model/util.go:13-41 | SysID, the board, GPS and AFE3 raw fields and the PM fields are copied verbatim |
| ModelUtil.FromProtobufNarrows | pkg/model/util.go:42-72 | the six OPC housekeeping fields and all bins are the sample values modulo 2^16; SampleValid is modulo 2^8 |
| ModelUtil.MessageFromProtobuf | pkg/model/util.go:10-85 | ID, DeviceID, ReceivedTime, PacketSize, the temperature and the three ppb fields are zero, because the conversion does not set them |
| ModelUtil.FromProtobufRecoversTruncated | pkg/model/util.go:10-74 | reading the sample fields back from the Message gives the sample with its narrowed fields truncated |
| ModelUtil.FromProtobufRoundTrip | pkg/model/util.go:10-74 | when every narrowed field fits, the sample is recovered exactly |
| ModelUtil.FromProtobufSameMessage | pkg/model/util.go:10-74 | two samples give the same Message if and only if they agree after truncation |
| Calc.CorrectionFuncFromName | pkg/model/calc.go:77-89 | succeeds exactly for a known name whose table fits the temperature list; an unknown name is the "sensor name not found" failure; the function's values are the table and its breakpoints the strictly ascending prefix of the temperature list of the same length |
| Calc.KnownNamesResolve | pkg/model/calc.go:20-31 | every table fits, so a name resolves if and only if it is one of the ten known sensor types |
| Calc.CorrectSensor1 | pkg/model/calc.go:34 | correctSensor1 is the NO-A4 correction function, with nine breakpoints |
| Calc.PackageInitSucceeds | pkg/model/calc.go:34-36 | building the NO-A4, NO2-A4 and O3-A4 correction functions at package load never panics |
| Calc.CalculateSensorValues | pkg/model/calc.go:41-71 | the message afterwards is `Transformed(old message)`, whose properties the lemmas below state |
| Calc.AfeTemperature | pkg/model/calc.go:45 | the temperature is at least (0.02 − Vt20Offset) × 1000 and below that plus 2560000, the most a uint32 code can add |
| Calc.AfeTemperatureMonotonic | pkg/model/calc.go:45 | a larger raw temperature code gives a strictly higher temperature for the same record |
| Calc.Voltage | pkg/model/calc.go:73-75 | the result plus the int32-wrapped sum of the two terms lies in [0, 2560000) mV; when the sum fits in int32 it is codes × scaling factor × 1000 minus the sum |
| Calc.ChannelPpb | pkg/model/calc.go:52-56 | the concentration is finite exactly when the sensitivity is nonzero, and then concentration × sensitivity = working voltage − auxiliary voltage × correction |
| Calc.Transformed | pkg/model/calc.go:41-71 | only the temperature and the NO2, O3 and NO fields change; every other field is as before |
| Calc.TransformDependsOnlyOnRaw | pkg/model/calc.go:45-70 | the four derived values depend only on the seven raw AFE3 codes and the record |
| Calc.TransformIdempotent | pkg/model/calc.go:41-71 | running the transform again with the same record changes nothing |
| Calc.TransformUsesOnlyNoA4 | pkg/model/calc.go:47-49 | all three channels use correctSensor1: interpolators that agree on the NO-A4 table at the computed temperature give the same message |
| Calc.O3AddsBackToChannel2 | pkg/model/calc.go:59-63 | when O3 is finite, O3 plus NO2 is the channel-2 concentration |
| Calc.O3WhenNO2IsZero | pkg/model/calc.go:60-62 | with NO2 at zero, O3 is the unadjusted channel-2 concentration |
| Calc.TransformFiniteness | pkg/model/calc.go:53-69 | NO2 and NO are finite exactly when their sensitivity is nonzero; O3 exactly when both channel 1's and channel 2's are |
| Calc.ZeroCalGivesNonFinite | pkg/pipeline/calculate/calculate.go:113-121 | with the zero-valued record, all three concentrations are Inf or NaN |
| Calc.VoltageSumWraps | pkg/model/calc.go:73-75 | the two int32 terms are added in int32: 0x7fffffff + 1 wraps and raises the voltage instead of lowering it |
| Calc.WorkedExampleNO2 | pkg/model/calc.go:52-56 | 500000 codes with terms 100 and 0 are 198.0232239 mV; with a zero auxiliary electrode and sensitivity 0.2 that is 990.1161195 ppb |
| Calibration.Filter | pkg/pipeline/calculate/calculate.go:56-57 | a SysID's group is never longer than the input and holds only records of the input that carry that SysID |
| Calibration.FilterCounts | pkg/pipeline/calculate/calculate.go:56-57 | a group holds each record of its SysID as often as the input does, and no other record |
| Calibration.FilterNonEmpty | pkg/pipeline/calculate/calculate.go:56-57 | a SysID has a non-empty group exactly when some record carries it |
| Calibration.InsertDesc | pkg/pipeline/calculate/calculate.go:65-69 | inserting a record adds exactly that record to the multiset |
| Calibration.InsertDescSorted | pkg/pipeline/calculate/calculate.go:65-69 | inserting into a newest-first group keeps it newest first |
| Calibration.SortDesc | pkg/pipeline/calculate/calculate.go:65-69 | the result is a permutation of the group and is sorted newest first |
| Calibration.Lookup | pkg/pipeline/calculate/calculate.go:83 | a missing SysID reads as the empty group, a present one as its entry |
| Calibration.CacheGroupsExactly | pkg/pipeline/calculate/calculate.go:53-71 | in a cache built from the records, each group holds exactly its SysID's records, as a multiset |
| Calibration.CacheMembership | pkg/pipeline/calculate/calculate.go:53-71 | a record is in the group of `id` if and only if it is one of the records and carries `id` |
| Calibration.CacheKeys | pkg/pipeline/calculate/calculate.go:53-71 | the cache has a key for a SysID if and only if some record carries it |
| Calibration.FilterSnoc | pkg/pipeline/calculate/calculate.go:56-57 | appending one record extends the group of its SysID by that record and leaves every other group as it was |
| Calibration.GroupBySysID | pkg/pipeline/calculate/calculate.go:54-58 | the grouping loop yields a key for exactly the SysIDs that occur, each holding its records in input order |
| Calibration.SortGroups | pkg/pipeline/calculate/calculate.go:65-69 | the sorting loop keeps the keys and each group's contents, and leaves every group newest first |
| Calibration.EffectiveIsFirstQualifying | pkg/pipeline/calculate/calculate.go:113-119 | the scan returns the first record whose ValidFrom is not after t |
| Calibration.EffectiveWhenNoneQualifies | pkg/pipeline/calculate/calculate.go:113-121 | when every record is after t, the scan returns the last record |
| Calibration.Effective | pkg/pipeline/calculate/calculate.go:113-121 | an empty group gives the zero record; otherwise the result is a record of the group, valid at t unless it is the group's last record |
| Calibration.EffectiveIsLatestValid | pkg/pipeline/calculate/calculate.go:75-121 | on a newest-first group with some record valid at t, the result is valid at t and no record valid at t is newer |
| Calibration.EffectiveBeforeAll | pkg/pipeline/calculate/calculate.go:113-121 | on a newest-first group with t before every record, the result is the oldest record, not the zero record |
| Calibration.ScanEntries | pkg/pipeline/calculate/calculate.go:113-121 | the scan loop returns `Effective(entries, t)` |
| Store.Store.ListCals | pkg/pipeline/calculate/calculate.go:43 | answers what the store holds and counts the call |
| Store.Store.PutMessage | pkg/pipeline/persist/persist.go:27 | answers the storage ID or a failure, and records the message handed over |
| Pipeline.Calibrated | pkg/pipeline/calculate/calculate.go:131-135 | DeviceID is taken from the record only when the message's is empty, and otherwise kept |
| Pipeline.RootCalculatePersist | cmd/aq/fetch.go:67-72 | through Root, Calculate and Persist: the Calculate stage's cache is what one lookup of the message's SysID leaves from its earlier cache, time stamp and store answer; the message comes out as the received message calibrated with `Effective(Lookup(cache, SysID), ReceivedTime)` from that cache, with the ID the Persist stage's store answered when PutMessage succeeded and unchanged otherwise; and that calibrated message was appended to the Persist stage's store |
| Pipeline.PublishFetched | cmd/aq/fetch.go:151 | publishing into Root, Calculate and Persist linked as at cmd/aq/fetch.go:71-72: the Calculate stage's cache and time stamp are what one lookup of the message's SysID leaves from their old values and the store's answer; the message comes out calibrated from that cache, with the storage ID when PutMessage succeeds and its own ID otherwise; the calibrated message is appended to the Persist stage's store; the result is nil |
| Pipeline.PublishTo | pkg/pipeline/pipeline.go:9-13 | publishing to any stage of a finite acyclic chain visits every stage once, in chain order, each doing only its own kind of change; every Calculate stage's cache is what its one lookup left, and its visit used that cache; every Persist stage's store has the message it received appended, and the stage passes it on with the store's storage ID when PutMessage succeeds and unchanged otherwise; every store keeps what it held; the result is nil |
| Pipeline.Forward | pkg/pipeline/root.go:32-36 | with a next stage, the trace is this stage's visit followed by the downstream trace, and this stage's work still holds afterwards; without one, this stage's visit alone; the result is nil |
| Pipeline.PassOn | pkg/pipeline/root.go:32-34 | the rest of the chain handles the message and does its work from its states at the call; the stage that hands it on keeps its fields, and its store, if a later stage shares it, keeps what it held |
| Pipeline.Root.constructor | pkg/pipeline/root.go:23-28 | a new Root has no next stage |
| Pipeline.Root.AddNext | pkg/pipeline/root.go:39-41 | the next stage becomes `pe`, replacing any earlier one |
| Pipeline.Root.Next | pkg/pipeline/root.go:44-46 | returns the next stage |
| Pipeline.Root.Publish | pkg/pipeline/root.go:31-36 | passes the message on unchanged; every stage of the chain is visited once, in order, and did its work as in `PublishTo`; the result is nil |
| Pipeline.Calculate.constructor | pkg/pipeline/calculate/calculate.go:29-33 | a new stage has its store, no next stage and an empty cache |
| Pipeline.Calculate.New | pkg/pipeline/calculate/calculate.go:29-40 | one ListCals call; its failure is the stage's failure; otherwise the cache is built from the records and stamped with the clock |
| Pipeline.Calculate.LoadCache | pkg/pipeline/calculate/calculate.go:42-51 | on success the cache is rebuilt from the records and stamped now; on failure the error is returned and cache and time stamp are unchanged |
| Pipeline.Calculate.PopulateCache | pkg/pipeline/calculate/calculate.go:53-73 | the cache is replaced by the cache of the records (exact groups, newest first) and stamped with the clock |
| Pipeline.Calculate.FindCacheEntry | pkg/pipeline/calculate/calculate.go:77-122 | at most one reload, and only for a missing SysID when the last load is at least 5 s old; the result is the record in effect at t in the group after any reload |
| Pipeline.Calculate.CalibrateMessage | pkg/pipeline/calculate/calculate.go:125-135 | the cache changes only as one lookup allows, and the message is calibrated with the record in effect at its receive time |
| Pipeline.Calculate.CalibrateStep | pkg/pipeline/calculate/calculate.go:125-135 | the stage's own work as a visit: the message is calibrated from the cache its lookup left, and that lookup started from the given earlier state; no store's messages or ListCals answer change |
| Pipeline.Calculate.CalibrateInChain | pkg/pipeline/calculate/calculate.go:125-135 | the stage's own work leaves the rest of the chain intact and its states no earlier than `before`; the visit records the cache the lookup left and the message calibrated from that cache |
| Pipeline.Calculate.AddNext | pkg/pipeline/calculate/calculate.go:144-146 | the next stage becomes `pe`, replacing any earlier one |
| Pipeline.Calculate.Next | pkg/pipeline/calculate/calculate.go:149-151 | returns the next stage |
| Pipeline.Calculate.Publish | pkg/pipeline/calculate/calculate.go:125-141 | the cache changes only as one lookup allows; the message passed on is calibrated with `Effective(Lookup(cache, SysID), ReceivedTime)` from the cache after the lookup; then every later stage is visited once, in order, and did its work as in `PublishTo`; the result is nil |
| Pipeline.Persist.constructor | pkg/pipeline/persist/persist.go:19-23 | a new Persist has its store and no next stage |
| Pipeline.Persist.AddNext | pkg/pipeline/persist/persist.go:42-44 | the next stage becomes `pe`, replacing any earlier one |
| Pipeline.Persist.Next | pkg/pipeline/persist/persist.go:47-49 | returns the next stage |
| Pipeline.Persist.Publish | pkg/pipeline/persist/persist.go:26-39 | the received message is appended to the store and stays there while later stages run, which do their work as in `PublishTo`; the ID is set only when the store succeeds and nothing else changes; the message is forwarded whether or not the store failed; the result is nil |
| Pipeline.Persist.StoreInChain | pkg/pipeline/persist/persist.go:27-33 | the store afterwards holds what it held plus the received message; the message takes the storage ID exactly when the store gives one; the chain stays a chain and its states are no earlier than `before` |
| Pipeline.Log.constructor | pkg/pipeline/pipelog/pipelog.go:17-19 | a new Log has no next stage |
| Pipeline.Log.AddNext | pkg/pipeline/pipelog/pipelog.go:32-34 | the next stage becomes `pe`, replacing any earlier one |
| Pipeline.Log.Next | pkg/pipeline/pipelog/pipelog.go:37-39 | returns the next stage |
| Pipeline.Log.Publish | pkg/pipeline/pipelog/pipelog.go:22-29 | passes the message on unchanged; every stage of the chain is visited once, in order, and did its work as in `PublishTo`; the result is nil |
| Fetch.TimeToMilliseconds | cmd/aq/fetch.go:166-168 | the milliseconds truncate UnixNano toward zero, bounded on both sides |
| Fetch.MillisecondsToTime | cmd/aq/fetch.go:170-172 | the time has zero nanoseconds and its whole seconds are within one second of ms, toward zero |
| Fetch.MillisecondsRoundTrip | cmd/aq/fetch.go:166-172 | back-conversion gives the whole seconds in ms; it returns ms exactly when ms is a whole second, otherwise moves toward zero |
| Fetch.TimeToMillisecondsTruncates | cmd/aq/fetch.go:167 | one nanosecond before the epoch is millisecond 0, where a flooring division would give −1 |
| Fetch.TimeToMillisecondsMonotonic | cmd/aq/fetch.go:166-168 | a later time never gives fewer milliseconds |
| Fetch.ParseInt | cmd/aq/fetch.go:122 | a parsed string is non-empty, starts with a digit or a sign, ends with a digit and has only digits after the first character; a negative result comes from a leading minus |
| Fetch.ParseIntDecimal | cmd/aq/fetch.go:122 | an optional sign followed by decimal digits parses to their signed value exactly when that value fits in int64, and fails otherwise |
| Fetch.FormatInt | cmd/aq/fetch.go:49 | the printed form is non-empty, starts with a minus exactly for a negative number, and is otherwise all digits |
| Fetch.Digits | cmd/aq/fetch.go:49 | the decimal digits are non-empty, all digits, and without a leading zero |
| Fetch.DigitsValue | cmd/aq/fetch.go:49 | the digits printed for n have the value n |
| Fetch.ParseFormatRoundTrip | cmd/aq/fetch.go:49-122 | parsing a printed int64 gives it back |
| Fetch.ParseIntRejects | cmd/aq/fetch.go:122-126 | the empty string, a lone sign and a string with a non-digit after the sign do not parse |
| Fetch.Reversed | cmd/aq/fetch.go:174-184 | reversal keeps the length |
| Fetch.ReversedIndex | cmd/aq/fetch.go:174-184 | reversal keeps the length and puts item len−1−i at position i |
| Fetch.ReversedTwice | cmd/aq/fetch.go:174-184 | reversing twice gives the items back |
| Fetch.ReversedByIndex | cmd/aq/fetch.go:178-181 | any sequence holding the items back to front is their reversal |
| Fetch.SwapHalves | cmd/aq/fetch.go:178-181 | the swap loop leaves the array reversed |
| Fetch.Reverse | cmd/aq/fetch.go:174-184 | the result is a new array holding the argument's items reversed; the argument is not written |
| Fetch.ReceivedMs | cmd/aq/fetch.go:122-126 | a parsable Received is the item's time; otherwise the current time in milliseconds is used |
| Fetch.MessageFor | cmd/aq/fetch.go:146-149 | the message carries the item's DeviceID, the receive time and the payload's byte count, and is otherwise exactly `MessageFromProtobuf` of the sample |
| Fetch.ItemFate | cmd/aq/fetch.go:117-132 | an item is the overlap exactly when it matches the previous batch's first item in Received and Payload; it stops the batch exactly when it is not the overlap and its time is at or before StopAt |
| Fetch.ItemFateDecodes | cmd/aq/fetch.go:134-150 | an item after the overlap and stop checks is skipped exactly when its base64 or its protobuf decoding fails; otherwise it is published, as `MessageFor` of the decoded sample, the decoded bytes and its receive time |
| Fetch.Walk | cmd/aq/fetch.go:116-152 | a batch publishes at most one message per item; which ones, and in what order, is `WalkPublishesEmitted` |
| Fetch.WalkSeenOldest | cmd/aq/fetch.go:128-131 | the oldest is seen if and only if some item of the batch stops it |
| Fetch.WalkStopsAtFirstLimit | cmd/aq/fetch.go:128-132 | nothing after the first stopping item is published |
| Fetch.WalkPublishesOnlyNew | cmd/aq/fetch.go:116-150 | every published message comes from an item of the batch that is not the overlap and is newer than StopAt |
| Fetch.WalkPublishesEmitted | cmd/aq/fetch.go:116-152 | up to the first stopping item, a batch publishes exactly the messages of its publishable items, in batch order |
| Fetch.WalkPublishesEveryNew | cmd/aq/fetch.go:116-150 | every publishable item before the first stopping item has its message published |
| Fetch.WalkIgnoresSkipped | cmd/aq/fetch.go:117-144 | removing an overlap item or one that does not decode leaves the batch's outcome unchanged |
| Fetch.HandleItem | cmd/aq/fetch.go:117-150 | the loop body decides each item's fate as `ItemFate` does |
| Fetch.ProcessBatch | cmd/aq/fetch.go:116-152 | reverses the batch and walks it: the messages and the seen-oldest flag are those of `Walk` over the reversed batch |
| Fetch.FetchFrom | cmd/aq/fetch.go:90-160 | at most one request per answer, the first ending at the given End |
| Fetch.FetchStep | cmd/aq/fetch.go:90-159 | one round of the loop: a failed request ends the run with its error, an empty batch ends it, and a non-empty batch is walked reversed and then ends the run or continues from the batch's oldest item |
| Fetch.FetchContinuesPastFullBatches | cmd/aq/fetch.go:154-159 | the loop goes on only after a full batch that did not reach StopAt, and each later request ends at the previous batch's oldest Received |
| Fetch.FetchEndsAtLastBatch | cmd/aq/fetch.go:154-158 | a run completes exactly when its last batch was short or reached StopAt; a run that used up every answer made one request per answer |
| Fetch.FetchBacklog | cmd/aq/fetch.go:49-160 | the loop's requests, published messages and outcome are those of `FetchFrom`, starting at the current second in milliseconds |

## Left out

- Concurrency: the cache is read and rebuilt without a lock while listeners
  publish. The model is single-threaded.
- Floating-point rounding: arithmetic is over reals. Inf and NaN are merged
  into one `NonFinite` value, which only a zero sensitivity produces.
- The piecewise-linear library's evaluation is an uninterpreted function, so
  nothing is claimed about the correction factor's value.
- Logging: the log lines of findCacheEntry, Persist, Log and fetch are not
  modelled. `log.Fatalf` in `New` becomes an error result.
- The MQTT stage, the listeners, the HTTP API, the SQL store and the
  protobuf wrappers `ProtobufFromData`/`DataFromProtobuf` are not part of
  this model. The store is an oracle whose ListCals ignores offset and limit.
- Pipeline.Calculate.FindCacheEntry: times are whole milliseconds. The
  source's `t*1e6` nanosecond conversion overflows int64 for times after
  the year 2262, and the model does not reproduce that overflow.
- Pipeline.Calculate.FindCacheEntry: the source reads the clock once per
  loop round. The model uses one `now` per lookup.
- Pipeline.Calculate.Publish: the result is stated as nil. Every stage in
  the core returns nil or its next stage's result, so nil is also the
  downstream result.
- Pipeline.Root.Publish: the result is nil because `Stage` is closed over the
  four core stages; a downstream MQTT or stream stage, whose Publish can
  fail, is not part of this model.
- Pipeline.Persist.Publish: the result is nil for the same reason; a failed
  store call is only logged, as in the source.
- Pipeline.Log.Publish: the result is nil for the same reason.
- Pipeline.Calculate.New: the source's `maxint` arguments to ListCals are
  not modelled, because the store ignores them.
- Fetch.FetchBacklog: the network answers are a given sequence. Running out
  of answers is its own outcome, and a failed request returns its error.
- Fetch.FetchBacklog: an empty batch is an `EmptyBatch` outcome. The source
  indexes `items.Data[0]` and panics there.
- Fetch.FetchBacklog: the fetched messages are returned in publishing order
  instead of being published. The source ignores the pipeline's result
  there.
- Fetch.FetchBacklog: one `now` is used for the whole run, both for the
  first request and for items whose Received does not parse.
- Fetch.FetchBacklog: the StopAt default from the newest stored message
  (cmd/aq/fetch.go:51-63) is not modelled; StopAt is a parameter.
- Fetch.FetchBacklog: the running `total`, the timing, the parse of the
  batch's own Received for the log line, and loading the calibration files
  are not modelled.
- Fetch.Walk: base64 and protobuf decoding are given functions, so which
  payloads decode is not modelled.
