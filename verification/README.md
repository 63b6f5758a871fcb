# APIGuard: a verified model

APIGuard is an API gateway. Most of it passes requests on; this project models the parts that keep state of
their own and whose correctness depends on whole runs, and proves what they keep.

* **Event streams.** `EventStream` is the reference: how a client parses and interprets a server-sent-event
  stream (sections 9.2.5 and 9.2.6 of the WHATWG HTML Living Standard). `LineScanner` is Go's line scanner with
  its 64 KiB limit. `Reframe`, `ReframeLines`, `ReframeMeaning` and `ReframeStability` treat the copying of a
  backend's stream, `ErrorScan` the search for an error in it. `Grouping`, `StreamMessages`, `StreamProtocol`,
  `StreamFraming` and `StreamPayload` treat the multiplexed stream: a state machine of workers, forwarders,
  closer, ticker and reader loop around a bounded channel, and what a client makes of its output under every
  schedule.
* **Alarms.** `Ring`, `Counter`, `Decay` and `Alarms` model the bounded lists, the window count, the decaying
  average and the check made for a request; `AlarmRuns` and `AlarmReports` treat whole runs with cleanups,
  `AlarmBursts` when exactly the alarm goes off.
* **Caches.** `ReReading` and `CacheId` model the rewinding body and the cache ids, `FileCache` and
  `RedisCache` the two stores, `Replay` responses delivered again from the cache, `Merge` the two handlers that
  cache the run of events they have put together, and `MergeFraming` what these contribute to a multiplexed stream.
* **Sessions and fan-out.** `Auth` is the evaluation of a request by the CNC guard, `Reauth` the interleavings
  of the shared fallback cookie, `Cookies` the rewriting of cookies, `FanOut` the concurrent Treq answers.

A `char` stands for a byte. Times are real numbers of seconds, clock readings are parameters. JSON, gob and SHA
appear as parameters, as a small self-delimiting code, and as the bytes that are hashed. Code that updates
objects in place is modelled by classes whose methods are tied to functions of the old state; the properties are
proved about those functions. Concurrency is modelled by atomic steps that may happen in any order.

Where the code and what is said about it differ, the model follows the code:

* The combined stream relies on every streaming handler to flush its writer once (`wagstream/handler.go:159-164`).
  Only the MQuery routes see to that (`services/backend/mquery/factory.go:121-127`); Treq's handlers return
  early without flushing, WSS's collocations never flush (`services/backend/wss/factory.go:104-113`), and then the
  stream is never closed (`StreamProtocol.MaximalRunCloses`, `StreamProtocol.RefusedRequestHangs`,
  `MergeFraming.UnflushedAnswersNeverClose`). A second flush panics; the server's routes recover from that
  (`server/service.go:74-75`), so it costs only the handler what it would have written afterwards.
* The evaluation's `RequiresFallbackCookie` is described as implying that the fallback cookie is defined
  (`guard/guard.go:90-100`); it is also set when there is none and the request brings no accepted session
  (`Auth.FallbackIsDefinedIff`).
* Treq applies the fallback cookie before it maps the frontend cookie, so a frontend cookie that names no
  session replaces the fallback again (`Cookies.FallbackReachesBackendIff`).
* The two minutes between reports about a user hold over whole runs only if the longest interval is no shorter,
  because cleanup forgets the last report (`AlarmReports.TwoMinutesKeptIff`).
* Flushing part of a service type in the file cache reaches every type that begins with it: `1/k` takes the items
  of `1/kontext` and of `1/kwords`, though not those of `10/kontext` (`FileCache.ServiceFlushReaches`). None of
  the nine types begins another, so a whole key reaches its own service alone (`FileCache.WholeKeyReachesOwn`).
  Flushing in Redis reaches the very tag only (`RedisCache.FlushKeepsOtherTags`), but not what is queued
  (`RedisCache.FlushSticksIff`).
* Caching per session never finds a response of the proxied path again for whoever has one of the session cookies:
  lookups respect these cookies (`services/cnc/common.go:148-164`), storing does not (`Replay.HitIff`).
* The cached answer of `MergeFreqs` contains the tile's label, which comes from a header that is no part of the cache
  id (`services/backend/mquery/mergefreq.go:121-172`): a hit repeats the label of the request it was cached for
  (`MergeFraming.HitInStreamIff`).
* `OtherTileQueryIdx` is described as the query to read in the other tile (`wagstream/conf.go:47-50`); it is never
  used: a dependent request joins the other tile's request for its own query index (`Grouping.DependentsShareKey`).
* Updating the session cookie from `X-Api-Key` (`services/backend/treq/handler.go:240-247`) assigns to a copy
  and has no effect on the request; the model has no such step.

## Model

| member | source | states |
|---|---|---|
| LineScanner.Scanner.Scan | proxy/response.go:180-181 | one call delivers the next line without its terminator, or ends at the end of input and at a line that reaches the limit |
| LineScanner.ScanStopsAtLongLine | proxy/response.go:178-181 | nothing from an overlong line on is delivered |
| Reframe.WriteSSEResponse | proxy/response.go:176-213 | one write per group of non-blank lines, in order; what is cached is the concatenation of exactly these writes, for a success status only |
| Reframe.WriteResponse | proxy/response.go:216-250 | streamed or not, the bytes handed to the cache are the bytes written, for a success status only |
| Reframe.CacheableIff | proxy/response.go:73-75 | what is handed to the cache has a three-digit status that begins with 2 |
| Replay.HitRepeatsMiss | proxy/response.go:97-102 | while the time to live lasts a later GET request without the respected cookies is a hit and writes byte for byte what the miss wrote; for a stream its client reads the backend's own events |
| Replay.FoundIff | services/cnc/common.go:148-164 | for any lookup options of the proxied path, the stored item is the one looked for if and only if the request has none of the respected cookies |
| Replay.HitIff | services/cnc/common.go:148-170 | after a stored response the next request for the same is a hit if and only if it has none of the respected cookies, and a miss otherwise |
| Replay.SamePlaceIff | proxy/cache.go:35-66 | a response is stored where a lookup looks if and only if its target is the lookup's target followed by the lookup's respected cookies |
| Replay.OtherTargetMisses | proxy/cache.go:35-66 | after a stored response a lookup without respected cookies is a hit if and only if path and query are the same, and a miss otherwise |
| ReframeLines.LinesOfScanned | proxy/response.go:178-181 | the lines a client reads are those of the scanned lines, and a blank one wherever a carriage return is left at a line's end |
| ReframeLines.LinesOfOutput | proxy/response.go:181-203 | the lines of the output are those of the scanned lines, without redundant blank ones and with one at the end |
| ReframeLines.LinesKeptIff | proxy/response.go:178-203 | for every stream within the scanner's limit, input and output have the same lines up to redundant and final blank ones if and only if no line that keeps a carriage return after text is directly followed by text; every such place loses one boundary |
| ReframeMeaning.ReframingKeepsRun | proxy/response.go:178-203 | under that condition a client that ignores byte order marks ends in the state it reaches on the backend's stream followed by a blank line |
| ReframeMeaning.ReframingPreservesMeaning | proxy/response.go:178-203 | the same for a client that takes off a byte order mark, which must not come to the front by the loss of leading blank lines: the same events, the last one included if it was left unfinished |
| ReframeMeaning.CompleteStreamKeepsEvents | proxy/response.go:178-203 | such a stream that ends after a blank line keeps exactly its own events |
| ReframeStability.ReframingIsIdempotent | proxy/response.go:181-203 | re-framing twice equals re-framing once if and only if no scanned line still ends with a carriage return |
| ReframeStability.OverlongLineTruncates | proxy/response.go:178-203 | a line over the scanner's limit cuts the answer off silently |
| ReframeStability.WritesAreWhole | proxy/response.go:183-190 | every single write consists of complete lines and ends with a blank one |
| ReframeStability.DoubleCarriageReturnLosesBoundary | proxy/response.go:181-196 | the smallest streams on which an event boundary is lost, with the lines before and after |
| ErrorScan.FindErrorMsgInStream | wagstream/errdetect.go:56-90 | the loop computes the first-match function over terminated blocks |
| ErrorScan.BlockErrorIff | wagstream/errdetect.go:30-50 | a block with data has an error if and only if its data decodes to an object with a non-empty error entry, which is the message, or does not decode at all |
| ErrorScan.OneEventIsJudged | wagstream/errdetect.go:30-90 | what is reported about the bytes of a stream with one event, for each outcome of decoding its data |
| ErrorScan.AccumulatedData | wagstream/errdetect.go:78-85 | adding a newline only between data lines yields, after trimming, the trimmed join of all data lines |
| ErrorScan.SilentWhenNoError | wagstream/errdetect.go:61-77 | empty strings are returned if and only if no terminated block fails to decode or carries an error |
| ErrorScan.ReportsFirstError | wagstream/errdetect.go:61-77 | a reported message is that of the first block with an error |
| ErrorScan.ReportsTypeOf | wagstream/errdetect.go:61-80 | what is reported is the first erroneous block's message, and its type as carried into it |
| ErrorScan.ReportedTypeIsOwnIff | wagstream/errdetect.go:61-80 | unlike in the standard, a block without data leaves its type to the next: the reported type is the block's own if and only if it names one or the blocks since the last one with data leave none |
| ErrorScan.TypeOutlivesEmptyBlock | wagstream/errdetect.go:61-80 | the smallest input on which another block's type is reported |
| ErrorScan.ReframedStreamIsFullyExamined | wagstream/errdetect.go:61-77 | on every re-framed stream all blocks are examined, also one the backend left unterminated; the answer is that for the backend's own blocks unless one of their lines is a bare carriage return |
| Grouping.KeysIdentifyTargets | wagstream/conf.go:85-94 | keys are equal if and only if the query indices are and some tile is the target of both: the tile named as the one to read from, or else the own one |
| Grouping.DependentsShareKey | wagstream/conf.go:85-94 | a request that reads from an independent one's tile has its key; two independent ones share a key if and only if tile and query agree |
| Grouping.LabelRoundTrip | wagstream/handler.go:224-226 | an event's type tells the tile and query it is about |
| Grouping.LabelNamesRequest | wagstream/handler.go:181-188 | the label of a request's answer names that request's tile and query |
| Grouping.GroupedRequests.Register | wagstream/dupreq.go:33-49 | a request is put at the front or the back of its key's group, other groups unchanged |
| Grouping.GroupedRequests.ValIter | wagstream/dupreq.go:75-85 | every group is visited once, with its leader and its members' identities in order |
| Grouping.GroupRequests | wagstream/handler.go:123-126 | registering a list of requests builds the grouping function of it |
| Grouping.GroupsAreByKey | wagstream/dupreq.go:33-49 | a group holds exactly the requests of its key, independent ones first |
| Grouping.GroupingIsPartition | wagstream/dupreq.go:33-49 | every request lies in its own key's group as often as it was given, and in no other |
| Grouping.IndependentFirst | wagstream/dupreq.go:38-48 | no dependent request precedes an independent one |
| Grouping.DependentJoinsItsTile | wagstream/dupreq.go:33-49 | a dependent request is in the group of the tile it reads from, and an independent request for that tile and query leads the group |
| Grouping.LeadersHaveDistinctLabels | wagstream/dupreq.go:75-85 | distinct requests give distinct event labels of the group leaders |
| Grouping.NoMoreGroupsThanRequests | wagstream/handler.go:111 | the channel, sized by the requests, is large enough for the groups |
| StreamProtocol.StepKeepsInv | wagstream/handler.go:123-220 | every step of every goroutine keeps the invariant: no send after close, exact wait-group count, bounded queue, every payload accounted for, and no panic but that of a handler that misuses its writer where nobody recovers |
| StreamProtocol.HandlerStepAccounted | wagstream/eswriter.go:53-83 | what a handler writes before it flushes reaches the pipe in order and within its capacity, nothing after it does, and a handler may return without flushing |
| StreamProtocol.RunIsSafe | wagstream/handler.go:130-209 | in every run the wait group counts the unfinished workers, the channel is within capacity, after close every worker has reported, and a panic needs a misused writer |
| StreamProtocol.PanicsIff | wagstream/handler.go:130-209 | what takes the process down: sending on or closing a closed channel, reporting too often, an unrecovered misuse |
| StreamProtocol.ChannelFills | wagstream/handler.go:111 | the channel takes twice as many messages as there are requests before a sender waits |
| StreamProtocol.HeldUpIff | wagstream/eswriter.go:53-65 | a handler is held up only by a write to an open pipe that is full |
| StreamProtocol.NothingIsWrittenEarly | wagstream/handler.go:128-211 | nothing is written before all workers have been started |
| StreamProtocol.RunDelivers | wagstream/handler.go:130-264 | when the close event is out, every handler has flushed and each group's payloads have been written exactly once, in order |
| StreamProtocol.RunIsBounded | wagstream/handler.go:130-264 | a run is no longer than a fixed bound plus two steps per ping |
| StreamProtocol.RunsComeToRest | wagstream/handler.go:130-264 | every run can be continued without pings until only pings are possible |
| StreamProtocol.NeverStuck | wagstream/handler.go:159-164 | if all handlers flush, some goroutine other than the ticker can move until the close event |
| StreamProtocol.MaximalRunCloses | wagstream/handler.go:159-264 | a run that only pings could extend has delivered everything; it has written the close event if and only if the handler of every streaming group flushes, and has panicked if and only if one writes or flushes again and nobody recovers |
| StreamProtocol.UnflushedHandlerHangs | wagstream/handler.go:159-164 | with a handler that never flushes no run writes the close event, and there is one after which only pings happen |
| StreamProtocol.RefusedRequestHangs | services/backend/treq/withexamples.go:205-232 | a handler that sets status 401, writes an error and returns is such a handler |
| StreamProtocol.MisusePanics | wagstream/eswriter.go:81-83 | a handler that writes or flushes after flushing panics in some run if nobody recovers |
| StreamProtocol.NoTicksAfterStop | wagstream/handler.go:205-209 | once the ticker has stopped every continuation ends within the measure |
| StreamFraming.MultiplexingKeepsFraming | wagstream/handler.go:165-264 | for every interleaving the client's events are an interleaving of all groups' own events, each complete and in order, with an error event for each chunk that is forwarded with an error status, with nothing else but pings, then one close event |
| StreamFraming.RefusalIsReported | wagstream/handler.go:238-254 | a handler that sets an error status before it writes yields one error event for each of its writes, whatever these say |
| StreamMessages.ErrorRoundTrip | wagstream/handler.go:55-67 | an error event's data is an object with an error entry that tells the status received |
| StreamMessages.SuccessIff | wagstream/handler.go:238 | statuses of success are those of three digits that begin with 2 |
| StreamFraming.StreamedBackend | wagstream/handler.go:165-178 | a group that streams a re-framed backend answer is well framed and yields the backend's own events, read without taking off a byte order mark |
| StreamPayload.OneLinePayload | wagstream/handler.go:211-255 | an event text delivers its payload as one event if and only if the payload has no line break |
| Ring.CircularList.Append | monitoring/counter.go:88-91 | the ring array keeps the last items, oldest first |
| Counter.NumReqSince | monitoring/counter.go:185-195 | the loop counts the kept requests strictly inside the window |
| Counter.BoundedCounterRefinesHistory | monitoring/counter.go:185-195 | for ordered times the count over the bounded list is the count over the whole history, capped by the capacity |
| Counter.BoundedCountIsExactWhen | monitoring/counter.go:185-195 | for any order of times, exactly when the bounded count is right |
| Counter.AppendAllKeepsLast | monitoring/alarms.go:323 | after any sequence of appends the list holds the last ones |
| Counter.UnsortedHistoryUndercounts | monitoring/counter.go:185-195 | requests out of order can be undercounted |
| Decay.LimitExceedings.RegisterMeasurement | monitoring/counter.go:76-92 | the lists after a measurement are the specified ones |
| Decay.MeasurementStored | monitoring/counter.go:76-92 | below the limit nothing is stored; otherwise the interval's list ends with exactly the number of requests beyond the limit, after the newest measurements that were there, and other intervals are left alone |
| Decay.CountsIff | monitoring/counter.go:129-138 | a measurement has weight if and only if it is no older than the interval and overran the limit |
| Decay.WeightLeftIff | monitoring/counter.go:129-138 | how a measurement fades: a k-th of its weight is left if and only if nine times the square of its age is k - 1 intervals |
| Decay.LimitExceedings.RelativeExceeding | monitoring/counter.go:119-142 | the loop computes the relative weighted mean |
| Decay.LimitExceedings.AbsoluteExceeding | monitoring/counter.go:144-163 | the loop computes the absolute weighted mean |
| Decay.WeightBounds | monitoring/counter.go:134-138 | weights in the window lie between 1 / (1 + 9 * interval) and 1 |
| Decay.RelativeBounds | monitoring/counter.go:119-142 | the mean lies between 0 and the largest overflow over the limit |
| Decay.RelativeNeverGrows | monitoring/counter.go:119-142 | without new measurements the mean never grows |
| Decay.RelativeIsAbsoluteOverLimit | monitoring/counter.go:119-163 | the two means differ by the factor of the limit |
| Decay.ThresholdIsBacked | monitoring/counter.go:119-142 | a mean that reaches the threshold is backed by a measurement in the window that reaches it too |
| Alarms.UserActivity.CheckServiceUsage | monitoring/alarms.go:183-235 | the loop over the limits computes the outcome function: counts, measurements, reports and the last report's time |
| Alarms.ReportsAreThrottled | monitoring/alarms.go:210-232 | reports from one activity are more than two minutes apart, for arbitrary clock readings and any order of limits |
| Alarms.ReportedIff | monitoring/alarms.go:185-232 | a request is reported if and only if some limit's mean reaches the threshold and the last report is old enough; the report is about the first such limit |
| Alarms.OverrunIsReported | monitoring/alarms.go:183-235 | a user without measurements for an interval who has made at least 1 + threshold times the limit in it is reported, unless reported in the last 120 seconds |
| Alarms.OneReportPerRequest | monitoring/alarms.go:185-235 | at most one report per request |
| AlarmRuns.AlarmTicker.ProcessRequest | monitoring/alarms.go:306-330 | the request step on the map of users' objects: a new user if needed, the request appended and the checks made in place; all other users stay as they are |
| AlarmRuns.AlarmTicker.RemoveUsersWithNoRecentActivity | monitoring/alarms.go:157-181 | exactly the users whose last request is older than the longest interval are removed from the map |
| AlarmRuns.MaxInterval | monitoring/alarms.go:159-165 | the longest interval is found |
| AlarmRuns.MaxIs | monitoring/alarms.go:159-165 | it is the greatest interval, or zero without limits |
| AlarmRuns.TailAverages | monitoring/alarms.go:157-181 | forgetting measurements outside the window never lowers the mean |
| AlarmRuns.EventRelated | monitoring/alarms.go:157-235 | every step keeps the simulation between the run with cleanups and the run without |
| AlarmRuns.EveryRequestIsMeasured | monitoring/alarms.go:183-235 | over whole runs every request is measured against every limit visited |
| AlarmRuns.CleanupHidesNothing | monitoring/alarms.go:157-181 | over whole runs cleanup leaves all counts equal and all means at least as large |
| AlarmRuns.CleanupHidesNoAlarm | monitoring/alarms.go:157-181 | every check that reaches the threshold without cleanups reaches it with them |
| AlarmReports.ReportsAreBacked | monitoring/alarms.go:183-235 | behind each report of each run is a request of that user, at most an interval earlier, up to which the user's requests in the window, counted over the whole run, exceed the limit by the threshold |
| AlarmBursts.BurstReportedIff | monitoring/alarms.go:183-235 | in the run in which a new user sends n requests at one instant, the first request reported is the first whose overrun is twice the threshold's share of the limit, and no other is |
| AlarmBursts.BurstAlarmsIff | monitoring/counter.go:119-142 | such a burst is reported if and only if n - limit is at least twice threshold times limit |
| AlarmReports.ReportsAreSpaced | monitoring/alarms.go:210-232 | over runs with cleanups reports are further apart than the smaller of two minutes and the longest interval |
| AlarmReports.TwoMinutesKeptIff | monitoring/alarms.go:157-232 | two minutes are kept in all runs of all services if and only if the longest interval is at least two minutes |
| AlarmReports.ForgottenReport | monitoring/alarms.go:157-232 | the run in which a user is reported again too early |
| ReReading.ReReader.Read | proxy/reread.go:36-45 | delivers the next bytes and advances, or reports the end and rewinds |
| ReReading.ReReader.ReadAll | proxy/cache.go:57-62 | reading to the end terminates, yields the rest and rewinds, for any non-empty buffers |
| ReReading.DrainYieldsRest | proxy/reread.go:36-45 | the same for the function that follows the buffer sizes |
| ReReading.FullReadsAgree | proxy/reread.go:36-45 | of any number of full reads the first yields the rest and all others the whole data |
| CacheId.GenerateCacheId | proxy/cache.go:35-66 | the bytes hashed for a request, and where the body is left |
| CacheId.IdsAgreeIff | proxy/cache.go:56-65 | two ids of a request agree if and only if the body is not part of them or stands at the same position |
| CacheId.TargetsIdentify | proxy/cache.go:35-66 | requests with the same respected cookies, options and body have one id if and only if path and query, written one after the other, agree |
| CacheId.PathAndQueryMatter | proxy/cache.go:37-38 | another path or another query gives another id |
| CacheId.BodyMatters | proxy/cache.go:56-65 | which body makes a difference to the id, and when |
| CacheId.RespectedCookieMatters | proxy/cache.go:39-55 | with one respected cookie, ids agree if and only if both requests have it with one value or lack it |
| CacheId.CookiesIdentify | proxy/cache.go:39-55 | ids of requests for one target agree if and only if they have the same respected cookies with the same values, in whatever order |
| CacheId.ReadableIff | proxy/cache.go:69-74 | which requests may be answered from the cache |
| CacheId.WritableIff | proxy/cache.go:76-88 | what may be read may be stored with status 200 or 201, and nothing else |
| CacheId.CookieOrderIsIrrelevant | proxy/cache.go:39-55 | listing the respected cookies in another order gives the same id |
| FileCache.FileStore.Get | proxy/cache/file/file.go:49-92 | a lookup: miss, expiry with deletion, or a hit that touches the file |
| FileCache.FileStore.Set | proxy/cache/file/file.go:94-110 | an eligible entry is written over the file's beginning, without truncation |
| FileCache.FileStore.Flush | proxy/cache/file/file.go:112-150 | exactly the files whose path begins with the tag are deleted and counted |
| FileCache.RoundTrip | proxy/cache/file/file.go:83-90 | an entry is read back whatever longer content was left after it |
| FileCache.FilesRefineSlots | proxy/cache/file/file.go:49-150 | in every run the cache answers as a map with sliding expiry does |
| FileCache.LastSetIsServed | proxy/cache/file/file.go:49-110 | the value last set is served for the time to live, whatever happens to other items |
| FileCache.HitProlongsLife | proxy/cache/file/file.go:64-82 | what was found once is found again within the time to live from then on, however long ago it was stored |
| FileCache.LookUpRenews | proxy/cache/file/file.go:64-82 | a lookup deletes an expired item and renews the time of one it finds, and changes no other |
| FileCache.StoreKeepsEnd | proxy/cache/file/file.go:94-110 | storing writes one file from its start and leaves the end of longer content |
| FileCache.BypassesCache | proxy/cache.go:69-88 | errors, unlisted methods and respected prohibitions never touch the cache |
| FileCache.DirectoryOf | proxy/cache/file/file.go:40-47 | items without a tag have a directory of their own, all others lie below their tag |
| FileCache.FlushReaches | proxy/cache/file/file.go:133-135 | a flushed tag no deeper than an item's tag reaches the item if and only if the tag's directory begins with it |
| FileCache.ServiceFlushReaches | server/service.go:257-260 | flushing a service's key deletes an item if and only if its service has the same number and a type that begins with the flushed one |
| FileCache.WholeKeyReachesOwn | services/backend/treq/factory.go:65 | among the nine service types a whole key reaches exactly its own service |
| FileCache.PartOfTypeReachesSeveral | proxy/cache/file/file.go:133-135 | a flush that empties two services of one number and spares one of another |
| FileCache.TagsHaveOwnItems | proxy/cache/file/file.go:40-47 | items of different tags of one depth, or of different ids, never share a file |
| FileCache.ServicesHaveOwnItems | services/backend/treq/factory.go:65 | items share a file if and only if number, type and id agree |
| RedisCache.Redis.Get | proxy/cache/redis/redis.go:73-109 | a lookup at the server, and the queued refresh of the time to live after a hit |
| RedisCache.Redis.Set | proxy/cache/redis/redis.go:144-168 | an eligible entry is queued, or refused when the queue is full |
| RedisCache.Redis.WriterCarryOut | proxy/cache/redis/redis.go:111-142 | the writer carries out the operation it received |
| RedisCache.Redis.Flush | proxy/cache/redis/redis.go:170-192 | exactly the tag's keys are deleted from the server and counted |
| RedisCache.StepKeepsInv | proxy/cache/redis/redis.go:73-168 | bounded queue; accepted operations are carried out in order of acceptance; keys hold the last value carried out |
| RedisCache.RunKeepsInv | proxy/cache/redis/redis.go:73-168 | the same in every state of every run |
| RedisCache.HitsWereSet | proxy/cache/redis/redis.go:73-168 | every hit of every run returns a value an earlier set for the same key got accepted, the last one carried out |
| RedisCache.DrainedHoldsLastSet | proxy/cache/redis/redis.go:111-168 | once nothing is pending, each present key holds its last accepted set |
| RedisCache.WrittenIsServed | proxy/cache/redis/redis.go:111-142 | in every run a value carried out, with no later one and no flush, is served exactly until the time to live has passed since then or since the last refresh that came in time |
| RedisCache.ServedUntilRefreshed | proxy/cache/redis/redis.go:111-142 | with a time to live of zero it is served exactly until the first refresh is carried out |
| RedisCache.FlushSticksIff | proxy/cache/redis/redis.go:111-192 | after a flush and the writer's pass an item is back if and only if a write for it was pending |
| RedisCache.FlushedItemReturns | proxy/cache/redis/redis.go:111-192 | a run from the empty cache in which a flushed item is served again |
| RedisCache.FlushKeepsOtherTags | proxy/cache/redis/redis.go:170-174 | a flush reaches a tag's keys if and only if it is that tag |
| RedisCache.KeysIdentify | proxy/cache/redis/redis.go:68-71 | keys agree if and only if tag and id do |
| RedisCache.LookUpAsks | proxy/cache/redis/redis.go:73-109 | a lookup queues a refresh if it finds a value and the queue has room, and does nothing otherwise |
| RedisCache.HitProlongsLife | proxy/cache/redis/redis.go:73-142 | after a hit and the writer's pass the key can be had for the whole time to live from then on |
| Merge.MergeFreqs | services/backend/mquery/mergefreq.go:157-240 | the loop writes an event per part and stops at the first failure; only complete runs are cached, with the bytes written |
| Merge.MergedAnswerAt | services/backend/mquery/mergefreq.go:211-222 | event k carries exactly the first k parts and their first non-empty error |
| Merge.CollocationsTT | services/backend/wss/handler.go:153-250 | the same loop with parts kept by text type |
| Merge.CollectedAnswerAt | services/backend/wss/handler.go:218-228 | event k carries the first k parts by type and their first non-empty error |
| Merge.LastOfType | services/backend/wss/handler.go:218 | of several parts of one type the last counts |
| Merge.TypesOf | services/backend/wss/handler.go:218 | exactly the types asked for are there |
| Merge.FirstErrorIff | services/backend/mquery/mergefreq.go:213-215 | the error carried is that of the first part with one, and empty if and only if all are |
| Merge.AnswerEvents | services/backend/mquery/mergefreq.go:108-233 | for a client the answer is one event per part, in both modes, and nothing else |
| MergeFraming.FreqsInStream | services/backend/mquery/mergefreq.go:108-233 | in every finished stream the group's events for a client are the growing answers up to the first failure, under the group's label; what is written about a failure is ignored |
| MergeFraming.FreshWritesAgree | services/backend/mquery/mergefreq.go:157-240 | the single writes of a miss make up the bytes the handler's method writes |
| MergeFraming.FailureLines | services/backend/mquery/mergefreq.go:175-212 | the lines a client reads about each kind of failure |
| MergeFraming.HitInStreamIff | services/backend/mquery/mergefreq.go:121-172 | a hit's events carry the label of the request they were cached for, which is the group's own if and only if tile and query are the same |
| MergeFraming.UnflushedAnswersNeverClose | services/backend/wss/factory.go:104-113 | a stream with a handler that never flushes delivers its answers and never closes |
| Merge.ReplayIff | services/backend/mquery/mergefreq.go:140-245 | after a successful miss the same request is answered from the cache, with the same bytes, if and only if the partial requests left the shared body at its start |
| Auth.Guard.EvaluateRequest | guard/cncauth/cncauth.go:192-285 | the evaluation is the specified one, and a token is taken from the specified limiter |
| Auth.StatusIff | guard/cncauth/cncauth.go:192-285 | the exact condition for each of the five statuses: who is found, the rate, the ban, failures |
| Auth.ReportsWhom | guard/cncauth/cncauth.go:192-285 | which user and session are reported, and when the fallback cookie is asked for |
| Auth.AcceptedMeans | guard/cncauth/cncauth.go:235-285 | a request accepted for a user is neither banned nor over the limit |
| Auth.WhoIsAsked | guard/cncauth/cncauth.go:128-138 | the session looked up is the frontend cookie's, or else the backend cookie's, or else the fallback's |
| Auth.TokenIff | guard/cncauth/cncauth.go:235-247 | a token is taken if and only if there are limits and a valid user is found |
| Auth.FallbackIsRequired | guard/cncauth/cncauth.go:196-285 | status 401 asks for the fallback cookie; any other status does so only if it is there and was used |
| Auth.FallbackIsDefinedIff | guard/guard.go:90-100 | the cookie asked for is defined if and only if it is given or the request's own session is accepted |
| Auth.FirstRequestLacksFallback | guard/cncauth/cncauth.go:199-214 | a request without cookies before the first login asks for a cookie that is not there |
| Auth.UselessCookieHidesFallback | services/backend/treq/handler.go:121-238 | requests accepted with status 200 on behalf of the fallback user whose fallback session never reaches the backend |
| Auth.CookieXHidesFallback | services/backend/treq/handler.go:121-238 | one such request |
| Auth.FallbackValueIsKeptIff | guard/cncauth/cncauth.go:215-218 | a fallback value is looked up unchanged if and only if it has a dash or sessions are not plain values |
| Auth.CNCRoundTrip | session/cnc.go:41-54 | a session value survives printing and parsing if and only if its selector has no dash |
| Auth.CNCTextRoundTrip | session/cnc.go:41-58 | a text survives parsing and printing if and only if it has a dash |
| Reauth.StepKeepsInv | services/backend/treq/handler.go:121-191 | every step keeps the invariant of the shared fallback cookie |
| Reauth.FallbackStays | services/backend/treq/handler.go:141-144 | the fallback cookie once set stays set |
| Reauth.FallbackIsNeverMissing | services/backend/treq/withexamples.go:169-239 | in every interleaving it is set whenever it is used, and a request that goes on after status 401 uses it |
| Reauth.NobodyWaitsForever | services/backend/treq/subsets.go:81-158 | whoever waits is released by the login under way; only finished requests cannot move |
| Reauth.OnlyAcceptedGoOn | services/backend/treq/handler.go:121-191 | in every interleaving a request that goes on was evaluated as accepted, and then neither banned nor over the limit, or goes on after a login |
| Reauth.HowItGoesOn | services/backend/treq/handler.go:121-191 | from its arrival on: which evaluations go on at once, end, or wait for the login, and what the login's result leads to |
| Cookies.ClientRequest.MapFrontendCookieToBackend | services/backend/common.go:42-73 | the rebuilt header is the mapping function of the old one |
| Cookies.ClientRequest.DeleteCookie | services/cnc/proxy.go:82-98 | all cookies of the name are gone, the others keep their order |
| Cookies.OthersKeepNamed | services/cnc/proxy.go:82-98 | of every other name all cookies are kept, in order |
| Cookies.ClientRequest.ProcessReqHeaders | services/cnc/common.go:101-122 | the session goes into a header of its own or under the backend's cookie name |
| Cookies.HeaderEqualsCookie | services/cnc/common.go:99-122 | the session in the header is the value the backend would find under its cookie's name |
| Cookies.MappingPassesSession | services/backend/common.go:42-73 | the backend finds the first frontend value; other cookies keep order and value, the number is unchanged |
| Cookies.MappingTwice | services/backend/treq/handler.go:194-238 | mapping twice equals mapping once |
| Cookies.ReplacedIsOnlyOne | services/backend/treq/handler.go:186-192 | after delete and add the cookie is the only one of its name |
| Cookies.FallbackReachesBackendIff | services/backend/treq/handler.go:186-238 | exactly when the backend receives the fallback session |
| FanOut.EnterKeepsInv | services/backend/treq/withexamples.go:422-431 | entering a part under the lock extends the chain of snapshots by that part alone |
| FanOut.RunKeepsInv | services/backend/treq/withexamples.go:364-450 | the invariant of answer, snapshots and events holds in every schedule, failures included |
| FanOut.SnapshotsGrow | services/backend/treq/withexamples.go:422-431 | snapshots form a chain, each adding one key with its own result |
| FanOut.AllPartsArrive | services/backend/treq/subsets.go:159-231 | if all workers succeed there are n events of n different snapshots, one complete, and the answer does not depend on the schedule |
| FanOut.TranslationsInOrder | services/backend/treq/withexamples.go:349-450 | the complete answer holds translation i in slot i |
| FanOut.SlotsAreOwn | services/backend/treq/withexamples.go:422-431 | in every event a slot holds its own translation or nothing |
| FanOut.SubsetsComplete | services/backend/treq/subsets.go:199-207 | the complete answer has exactly the requested subsets |
| FanOut.CompleteRun | services/backend/treq/subsets.go:159-231 | for any results there is a schedule in which every worker writes its event |

## Left out

- HTTP clients, routing, SQL, mail, signals, configuration, reporting and logging: no property of their own.
- JSON, gob, SHA-1 and base64: parameters, a small self-delimiting code, or the hashed bytes. Two ids are equal
  when the hashed bytes are, so hash collisions are not modelled.
- Client disconnects and failing writes of a stream, and errors of the Redis server or the file system: runs
  without them only.
- The moment between a ping goroutine's tick and its send: a ping is one atomic step while the ticker runs.
- ReframeMeaning.ReframingPreservesMeaning: the exact condition is proved for the lines a client reads
  (`ReframeLines.LinesKeptIff`); whether a lost boundary changes events depends on what the lines say. A byte
  order mark that comes to the front because blank lines before it are dropped is excluded.
- StreamFraming.MultiplexingKeepsFraming: speaks of the types and data of events; the last event ID is shared by
  all groups of one connection and is not attributed to a group. A byte order mark at the very start of the
  combined stream would be taken off; the statement about such a client is for chunks without one. Handlers that
  may succeed are taken to leave no event open with any of their writes, and single answers to have no line break.
- ErrorScan.FindErrorMsgInStream: trimming removes ASCII white space, not that of other Unicode characters.
- AlarmRuns.AlarmTicker: all clock readings of one step are equal there, and a request's creation time is the time
  it is processed; `Alarms` itself allows arbitrary readings.
- AlarmBursts.BurstReportedIff: for bursts that the two bounded lists of a user can hold.
- Rounding of floating-point numbers: averages are real numbers.
- Saving and loading of alarm state, the allow list of users, and the mails.
- RedisCache.Redis.Flush: scanning and deleting in batches is one step; a tag is taken literally, without
  characters that have a meaning in patterns.
- FileCache.FileStore: a missing root directory, and tags with empty parts or parts made of dots only, which joining
  paths would change.
- FileCache.FlushReaches: flushed tags that go deeper than an item's directory, into the name of its file; there is
  no caller that flushes one.
- Merge.MergeFreqs, Merge.CollocationsTT: encoding an answer as JSON does not fail; if it did, the handler would
  return without caching.
- Replay.HitRepeatsMiss: lookups whose options make the body part of the id; the proxied path has none.
- MergeFraming.FreqsInStream: details of failures and encoded answers that contain line breaks are excluded; the
  web framework's rule that a status set after the first write is ignored is part of the model.
- Panics in goroutines that a handler starts itself: those of handlers only.
- Merge.ReplayIff: stated for the file cache; with Redis a full queue may drop the entry. Responses of the
  generic proxy path, whose cache options are not kept, are the subject of `Replay.HitIff`.
- The token bucket and the ban test: their outcomes are inputs of `Auth.Evaluate`.
- Sanitizing of cookie names and values by Go's HTTP library.
- Header differences between a cache hit and a miss: bodies and what is stored are compared. A response with any
  status of success is cached, and answered again, as one with status 200 (`proxy/response.go:202-209`).
- Cookies.ClientRequest.ProcessReqHeaders: covers the session only; the host and user id headers are left out.
- FanOut.AllPartsArrive: says nothing about the order in which snapshots are written, which happens after the
  lock has been released.
