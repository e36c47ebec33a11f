# A verified model of bedjet-local

bedjet-local is a daemon that holds the one BLE link a BedJet heater offers, publishes what the heater
reports, and commands it through a write path that has to see each command take effect. This project
models its service stack in Dafny 4.11 and proves what that stack promises, from the connection lease
down to the packet checksum. Check it with `dafny verify dfyconfig.toml`.

## How it is organised

| files | what they model |
|---|---|
| `Constants`, `Packets`, `PacketFields`, `Checksums`, `Encode`, `DeviceState` | the codec: decoding byte by byte, trust, the checksum, the half-degree and five-percent grids |
| `ReaderSteps`, `ReaderTheorems`, `StatusReader` | split notifications, follow-up reads, stops, and polling |
| `CommandRules`, `Commander`, `Api` | the verified write path and the classification of every outcome |
| `Lease`, `LeaseSafety`, `LeaseTheorems`, `LeasePacing`, `LeaseProgress`, `DeviceSession` | the link lease: supervisor, yields, back-off, adapter power-on |
| `Caches` | the session's and the commander's cache, over joint runs of both layers |
| `SnapshotQueues` | the bounded newest-wins queue in front of each adapter |

**The lease and the reader** are transition systems. One step is one piece of code between two awaits, and
every `await` may suspend, so a run (a list of events; an event that is not possible leaves the state alone)
can be any interleaving. `DeviceSession.Session` and `StatusReaders.StatusReader` are the source's classes:
each method is one such piece of code, and is proved to be exactly that step.

**The commander** keeps its deadline loop. Its awaits are methods whose bodies let the environment run for
any number of steps. At every await the segment just run must satisfy the guarantee that the other commands
rely on, so the contracts hold for any number of overlapping commands; `SuspensionIsSound` shows that what
an await promises covers every run of other commands' segments, deliveries and passing time. A call begins
its own segment in any steady state, so calls follow one another: `Serve` makes any number of them.

How and when a write call comes back is the environment's doing: `Commander.back` is its record, filled by the
await and by nothing else, and what a command answers is proved against that record.

Every reading the commander is given means what its bytes say; `DeliveredIsBelievable` proves that of the
reader, which delivers nothing else. Trust is not taken for granted there: both layers check it.

**The environment** may fail or drop anything at any time. One thing is assumed of the transport: after
`disconnect`, even a failing one, it holds no client and no subscription (ble.py clears its client before it
awaits). Times and temperatures are reals. A coroutine woken by an event runs before the clock moves on. A
`wait_for` on an event already set may suspend, as on Python 3.11, or not, as from 3.12. The number of readings
delivered to one commander is finite, though any finite number.

## Where the code does less than its comments say

- `session.py` adopts a live link as CONNECTED. If a reconnect gets its link but `commander.start` fails, the
  next check adopts it and nobody is reading: `AdoptedLinkCanBeDeaf` is such a run, `DeafnessLasts` says that
  only a drop or a yield ends it, and `ReaderRunsIffStartSucceeded` is the exact condition.
- A session started under an outstanding yield stays off the link but reports CONNECTING instead of YIELDED:
  `YieldNeverLosesARace` says when the label is right, in both directions, and `StartUnderYieldSaysConnecting`
  is a run on which it is not.
- `reader.py` states that only one follow-up read is outstanding. `stop` can forget a read that a fragment
  started while it awaited the cancelled one; after a restart the next fragment starts a second
  (`StopCanForgetARead`, `ForgottenReadAllowsASecond`). From a start to the next stop the rule holds exactly
  when that start found no forgotten read (`OneReadUntilStopIff`, `OneReadFromStartToStop`).
- A whole packet with extra bytes behind it is not split-transparent once the head covers the declared size;
  `SplitIsTransparentIff` gives the exact range of split points.
- The checksum does not see a length byte shortened by one when the byte dropped is 0xFF, nor bytes past the
  declared span (`ShortenedLengthSurvivesIff`, `TailIsNotCovered`).
- Under overlapping commands the assertions after a wait can fail (`OverlapCanEmptyTheCache`): exactly when
  another command has called write, meanwhile, on the last reading delivered (`CacheIsEmptyIff`). A command on
  its own never sees that.
- When a quiet-interval timer fires at the very instant a reading arrives, the wait counts as timed out. At
  the deadline such a reading is never looked at. `FairVerdict`, which `Commander.SendVerified` ensures, says
  exactly when a command succeeds; a reading delivered before the deadline is always looked at.

## Model

| member | source | states |
|---|---|---|
| LeaseTheorems.YieldNeverLosesARace | src/bedjet_local/service/session.py:260-288 | over every run, an outstanding yield that no call is still carrying out means no connection, no subscription and nobody taking the link, even if a reconnect was in flight; the link reads YIELDED exactly when the session was not started under that yield |
| LeaseTheorems.StartUnderYieldSaysConnecting | src/bedjet_local/service/session.py:242-273 | a run with a completed yield outstanding and the link down on which the session, started under it, reports CONNECTING |
| LeaseTheorems.YieldReturnsReleased | src/bedjet_local/service/session.py:317-331 | every `yield_link` call that returns leaves the link down, the reader stopped and the link YIELDED, even if resumed, overtaken or expired meanwhile |
| LeaseTheorems.YieldLasts | src/bedjet_local/service/session.py:348-393 | until its deadline only a resume or another yield can end a completed yield |
| LeaseProgress.YieldStands | src/bedjet_local/service/session.py:317-358 | over every run from a call of `yield_link(seconds)`: the yield stands exactly until the first check at least `seconds` later, or a resume; from the return of the call to that end the link stays given away |
| LeaseProgress.YieldUntilIsOutstanding | src/bedjet_local/service/session.py:317-358 | over every run the outstanding deadline is the one that its calls, resumes and checks leave |
| LeaseTheorems.TurnIsServed | src/bedjet_local/service/session.py:152-154 | bounded waiting on the link lock, for yields and the supervisor alike: a turn is over once as many lock events happened as were ahead of it, whatever competes |
| LeaseTheorems.YieldIsServed | src/bedjet_local/service/session.py:317-331 | so a `yield_link` call has returned by then |
| LeaseTheorems.LockNeverStuck | src/bedjet_local/service/session.py:278-288 | while any task holds or awaits the lock, some event that moves the lock on is possible |
| LeaseTheorems.OneSectionOneSubscription | src/bedjet_local/service/session.py:21-24 | connect and teardown sections never overlap; at most one status subscription; none while the link is being taken |
| LeaseTheorems.CheckIsHonest | src/bedjet_local/service/session.py:354-376 | after a check with no yield outstanding the link is CONNECTED exactly when the transport is connected and LOST otherwise |
| LeaseTheorems.CheckStaysHonest | src/bedjet_local/service/session.py:354-393 | from such a check until the next drop or yield, over every run: CONNECTED is said of a live link only, and a live link called LOST is one whose subscription is to come or has failed |
| LeaseTheorems.LinkNeverOverclaims | src/bedjet_local/service/session.py:219-248 | in every state: CONNECTED only at rest, of a client held or just being yielded; LOST all through a reconnect, CONNECTING all through a boot, STOPPED after a failed one, unless a yield has completed since |
| LeaseTheorems.ReaderRunsIffStartSucceeded | src/bedjet_local/service/session.py:274-276 | a held client at rest has a running reader exactly when its own `commander.start` did not fail |
| LeaseTheorems.AdoptedLinkCanBeDeaf | src/bedjet_local/service/session.py:360-364 | a run that ends reporting CONNECTED on a live link with no reader |
| LeaseTheorems.DeafnessLasts | src/bedjet_local/service/session.py:354-376 | once so, every run without a drop or a yield stays so, whatever checks it makes |
| LeaseSafety.RunIsSafe | src/bedjet_local/service/session.py:260-393 | lock, radio and lease agree in every state any run reaches |
| LeasePacing.ReconnectRateBound | src/bedjet_local/service/session.py:378-411 | the k-th wait of a streak is min(initial·2^k, max), cut waits never outnumber power-on edges, and n failures with e edges took at least the n−e smallest waits |
| LeasePacing.UncutWaitsAreWaited | src/bedjet_local/service/session.py:395-411 | whatever the configuration, a streak has lasted at least as long as its uncut waits were planned |
| LeasePacing.PlannedOverMaximum | src/bedjet_local/service/session.py:350-385 | with an initial back-off above the maximum only the first wait is that long |
| LeasePacing.EarlyAttemptsBounded | src/bedjet_local/transport/ble.py:380-391 | over a whole run early reconnect attempts never outnumber the off-to-on transitions among the adapter's reports, the first report being none |
| LeasePacing.CacheIsLastPublished | src/bedjet_local/service/session.py:213-217 | the cached reading and its time are those of the last publication; no link change, drop, yield or teardown alters them |
| LeaseProgress.EveryFindingIsActedOn | src/bedjet_local/service/session.py:352-393 | over every run: each check that found the link down, whatever the link said, led to exactly one attempt unless a yield intervened or it is on its way; each attempt succeeded, was backed off after, or is in hand |
| LeaseProgress.FailureIsTriedAgain | src/bedjet_local/service/session.py:352-393 | after a finished back-off, one interval later and not before, the next check is possible, and goes for the link again unless a yield is outstanding or the link is up |
| LeaseProgress.ChecksAreSpaced | src/bedjet_local/service/session.py:352-353 | every sleep between checks is exactly one interval, after a back-off as after a check |
| LeaseProgress.BackoffFollowsFailures | src/bedjet_local/service/session.py:350-393 | over every run the back-off stands at min(initial·2^n, max) for the n failures since the last success, found link or abandoned reconnect |
| LeaseProgress.CutIffPoweredOn | src/bedjet_local/service/session.py:378-411 | a back-off can be cut short exactly when an off-to-on report came since its attempt was armed |
| LeaseProgress.LiveLinkSaysSo | src/bedjet_local/service/session.py:274-276 | in every state a live link whose reader was started is reported CONNECTED |
| DeviceSession.Session.Supervise | src/bedjet_local/service/session.py:352-374 | one turn of the supervisor is the lease's check, in all its branches; a link found down with no yield outstanding, whatever its label, queues the supervisor for a teardown |
| DeviceSession.Session.LockGranted | src/bedjet_local/service/session.py:270-288 | what runs when the link lock is handed over: a teardown begins, or the link is taken unless it was yielded |
| DeviceSession.Session.CommanderStopped | src/bedjet_local/transport/ble.py:225-233 | the client is forgotten before the disconnect is awaited |
| DeviceSession.Session.Disconnected | src/bedjet_local/service/session.py:330-379 | the end of a teardown: YIELDED for a yield, the power-on event armed for a reconnect |
| DeviceSession.Session.CommanderStarted | src/bedjet_local/service/session.py:275-276 | a reader that started makes the link CONNECTED and ends the streak; one that did not backs off, or stops a boot |
| DeviceSession.Session.BackedOff | src/bedjet_local/service/session.py:382-411 | a finished wait doubles the back-off up to its maximum whatever ended it |
| DeviceSession.Session.YieldLink | src/bedjet_local/service/session.py:317-330 | a positive yield sets its deadline to now + seconds before anything is awaited; others are refused and change nothing |
| DeviceSession.Session.AdapterState | src/bedjet_local/transport/ble.py:384-391 | the event is set on an observed off-to-on transition only |
| CommandRules.SuspensionIsSound | src/bedjet_local/service/commander.py:159-171 | what an await lets a command assume covers every run of deliveries and other commands' segments |
| CommandRules.CacheIsEmptyIff | src/bedjet_local/service/commander.py:196-280 | over every run: a command woken by a reading finds the cache empty exactly when another one called write on the last reading delivered while it was suspended |
| CommandRules.OverlapCanEmptyTheCache | src/bedjet_local/service/commander.py:196-280 | from any state, a run in which a believable reading wakes the command and another one, running first, writes on it, so that the assertion fails |
| CommandRules.TurnKeepsExamined | src/bedjet_local/service/commander.py:269-294 | one turn of the verification loop leaves no reading before the deadline unexamined |
| CommandRules.TargetPayloadIsSendable | src/bedjet_local/service/commander.py:359-377 | a temperature that passed the check lies between bytes 13 and 14 of the packet it was checked on |
| CommandRules.OffWrittenIff | src/bedjet_local/service/commander.py:305-312 | off is written exactly when a believable packet reports a mode byte other than standby |
| CommandRules.ConfirmedIffShown | src/bedjet_local/service/commander.py:284-294 | a write is confirmed by exactly those believable packets that report the byte sent: mode operands 1, 2, 3, 5 as status bytes 0, 4, 1, 5; a target in byte 8; a fan step in byte 10 |
| CommandRules.ModeWrittenIff | src/bedjet_local/service/commander.py:331-344 | a mode is written exactly when a believable packet does not report it already, in bytes |
| CommandRules.TargetWrittenIff | src/bedjet_local/service/commander.py:359-383 | in bytes: a temperature is written exactly when a believable packet of a running unit allows the rounded byte and does not report it already |
| CommandRules.FanWrittenIff | src/bedjet_local/service/commander.py:400-413 | in bytes: a fan speed is written exactly when a believable packet of a running unit does not report the snapped step already |
| Commanders.Commander.WaitForState | src/bedjet_local/service/commander.py:179-197 | the cached reading at once, or the next one within the settle timeout; silence is exactly that timeout; the assertion fails exactly when another command has written, meanwhile, on the last reading delivered |
| Commanders.Commander.CheckBaseline | src/bedjet_local/service/commander.py:215-239 | refused, satisfied and dry-run ends are exactly those the baseline decides, before anything is written |
| Commanders.Commander.WaitUpdated | src/bedjet_local/service/commander.py:268-279 | a wait costs no time when the event is set, though it may suspend, never outlasts its timeout, and may time out at the instant of a delivery |
| Commanders.Commander.SendVerified | src/bedjet_local/service/commander.py:199-303 | whoever overlaps: the end follows from the baseline, and a write happens exactly when the baseline does not decide; the write is reported failed exactly when the call raised; after a call that returned the command gives up no sooner than settle and ends within settle + 0.5 s; success means one write of these bytes on a trustworthy unsatisfied baseline and a trustworthy confirming reading delivered after it; alone, it succeeds, and at once, if the last reading before the deadline confirms |
| Commanders.Commander.Verify | src/bedjet_local/service/commander.py:268-294 | the deadline loop is bounded in time and loses no wake-up before the deadline |
| Commanders.Commander.SendOff | src/bedjet_local/service/commander.py:305-312 | accounted for as every command is; a success sent `01 01` |
| Commanders.Commander.ChangeMode | src/bedjet_local/service/commander.py:314-344 | turbo and extended heat are refused before anything is awaited, and only they; off, cool, heat and dry send `01 01`, `01 02`, `01 03`, `01 05` and are verified against their status mode |
| Commanders.Commander.ChangeTarget | src/bedjet_local/service/commander.py:346-383 | `03` and the rounded byte, which lies within the bounds of the very packet returned as baseline, is all it can send, and the rounded value is what is verified |
| Commanders.Commander.ChangeFan | src/bedjet_local/service/commander.py:385-413 | `07` and the snapped step is all it can send, to a running unit, and the snapped percent is what is verified |
| Api.BedJetAPI.Command | src/bedjet_local/api/service.py:137-281 | refused, unavailable, satisfied and dry-run answers made no write call; unverified made exactly one; changed made exactly one, of the bytes the call stands for, and was confirmed; a write call that raised is unverified, and one that returned is answered no sooner than settle if unverified and within settle + 0.5 s; alone the answer is changed, at once, if the last reading before the deadline confirms; it crashes only when another command wrote on the last reading delivered |
| Api.AnswerInBytes | src/bedjet_local/api/service.py:216-281 | on a baseline, by its bytes: refused unless the packet is believable and allows the call, unchanged if it shows what is asked for or nothing is to be sent, otherwise what comes of the write |
| Api.RefusedAtOnceIff | src/bedjet_local/api/service.py:145-211 | the calls refused whatever the link: modes other than off, cool, heat and dry; two units or none; targets below −0.25 °C or from 127.75 °C; fan percentages outside 5 to 100 |
| Api.BytesForCall | src/bedjet_local/protocol/encode.py:68-191 | the bytes of each call: the four mode commands; `03` and the half-even byte nearest twice the Celsius target; `07` and the step within two percent |
| Api.CelsiusIsAffine | src/bedjet_local/api/service.py:186-186 | 32 °F is 0 °C, 212 °F is 100 °C, and it is affine between and beyond |
| Api.TranslationIsExact | src/bedjet_local/api/service.py:241-281 | the translation of ends into answers keeps the count of write calls exact |
| Api.Serve | src/bedjet_local/service/commander.py:68-70 | from a new session, over any sequence of calls, any deliveries and any overlapping commands: every write ever made is `01 m` (m in 1, 2, 3, 5), `03 t` or `07 s` (s up to 19), called on the last reading delivered before it, a believable one that did not report that byte; fan and temperature found power ON, t lies between bytes 13 and 14 of that packet; exactly the believable packets that report the byte confirm it; without overlap the answers, in order, account for every write made, each of the bytes its call stands for |
| Caches.CachesAgree | src/bedjet_local/service/commander.py:159-171 | over every joint run of the lease and any commands: session and commander follow one log of deliveries; the session holds the last one and its time, the commander the same reading, or nothing exactly when none was delivered or a write call came after it |
| ReaderTheorems.NotificationsAreConserved | src/bedjet_local/service/reader.py:340-421 | over every run, stops included, every notification has one fate and every begun packet is published, rejected, lost with its read, or still awaited |
| ReaderTheorems.OneReadInFlight | src/bedjet_local/service/reader.py:353-358 | from any state whose reads the reader knows of: at most one follow-up read is outstanding, and the reader knows it, until a stop forgets one |
| ReaderTheorems.OneReadFromStartToStop | src/bedjet_local/service/reader.py:162-230 | whatever came before, between a start that finds nothing in flight and the next stop there is at most one read |
| ReaderTheorems.OneReadUntilStopIff | src/bedjet_local/service/reader.py:354-372 | a stretch without stops keeps to one read if and only if the reader knew of every read in flight when it began |
| ReaderTheorems.NoStopForgetsNothing | src/bedjet_local/service/reader.py:187-230 | a run without a stop, begun outside one, forgets no read |
| ReaderTheorems.StopCanForgetARead | src/bedjet_local/service/reader.py:224-230 | a run with a stop and a restart after which the running reader has two reads outstanding |
| ReaderTheorems.ForgottenReadAllowsASecond | src/bedjet_local/service/reader.py:354-372 | whenever a stop forgets a read the next fragment starts a second one |
| ReaderTheorems.EveryStopUnsubscribes | src/bedjet_local/service/reader.py:187-230 | over every run: the reader runs exactly from a start to the next stop, and every stop of a running reader unsubscribes once |
| ReaderTheorems.WholeIsPublished | src/bedjet_local/service/reader.py:340-375 | a believable packet that arrives whole is published at once, whatever read is in flight |
| ReaderTheorems.DeliveredIsBelievable | src/bedjet_local/service/reader.py:402-421 | nothing that fails its checksum ever reaches the callback, and what does is what its bytes decode to |
| ReaderTheorems.SplitIsTransparentIff | src/bedjet_local/service/reader.py:351-398 | a trustworthy packet split at k and completed is published as if whole exactly for 2 ≤ k below the declared size, or k at the end |
| ReaderTheorems.SplitSurvivesInterleaving | src/bedjet_local/service/reader.py:351-398 | whatever happens while the read is in flight, the remainder completes its own fragment: what is published is the whole packet |
| ReaderTheorems.PollAccounting | src/bedjet_local/service/reader.py:251-330 | polls = whole + partial + alien = packets_seen, whole = callbacks + rejected, each counter counts its shape, and the round trips are bracketed |
| ReaderTheorems.PollsDeliverExactly | src/bedjet_local/service/reader.py:268-325 | polling publishes every believable packet it reads, in order, and nothing else |
| ReaderTheorems.RttsAreExact | src/bedjet_local/service/reader.py:272-330 | the counters hold the true minimum, maximum and sum of the round trips |
| ReaderTheorems.RttIsOrdered | src/bedjet_local/service/reader.py:145-160 | the reported minimum, mean and maximum are those of the round trips, in milliseconds and in order |
| StatusReaders.StatusReader.Notification | src/bedjet_local/service/reader.py:340-375 | `_on_notify` is the reader's step |
| StatusReaders.StatusReader.Completed | src/bedjet_local/service/reader.py:377-398 | a completed read publishes the join of its own fragment and the remainder |
| StatusReaders.StatusReader.Stop | src/bedjet_local/service/reader.py:187-230 | `stop` to its first await: nothing if not running, else cancel or unsubscribe |
| StatusReaders.StatusReader.PollLoop | src/bedjet_local/service/reader.py:251-325 | the loop classifies its reads in order, and survives failing ones |
| Packets.DecodeStatus | src/bedjet_local/protocol/decode.py:56-226 | the step-by-step decoder computes the specified value of every field, and the anomalies in order, for any byte string |
| PacketFields.PacketStarts | src/bedjet_local/protocol/decode.py:252-261 | only 0x56 and 0x05 in byte 1 begin a packet |
| PacketFields.HeaderFields | src/bedjet_local/protocol/decode.py:64-76 | the header fields of any byte string are bytes 0 to 3 |
| PacketFields.ShortPacketFields | src/bedjet_local/protocol/decode.py:93-103 | below eleven bytes nothing but the header is told |
| PacketFields.WorkingFields | src/bedjet_local/protocol/decode.py:104-181 | time from bytes 4-6, actual temperature 7, target 8, mode 9, fan 10, by number and value |
| PacketFields.LimitFields | src/bedjet_local/protocol/decode.py:117-226 | runtime from 11-12, bounds 13-14, turbo 15-16 high byte first, ambient 17, shutdown 18, and 26-29, each as far as the packet reaches |
| PacketFields.UnknownRegionField | src/bedjet_local/protocol/decode.py:197-197 | bytes 19-25 are kept as far as the packet reaches |
| PacketFields.ChecksumField | src/bedjet_local/protocol/decode.py:183-195 | the checksum is judged once the packet is whole, over its declared span |
| PacketFields.AnomalyIff | src/bedjet_local/protocol/decode.py:78-195 | each of the anomalies is recorded exactly when its bytes are odd |
| PacketFields.ShortAnomalyIff | src/bedjet_local/protocol/decode.py:64-103 | the anomalies of a short packet, in both directions |
| PacketFields.StateFields | src/bedjet_local/device/state.py:70-95 | the device model's fields by byte number; off exactly in standby, on exactly in modes 1, 2, 4, 5 |
| Packets.TrustworthyIff | src/bedjet_local/protocol/packets.py:98-123 | a packet is trustworthy exactly when it is long enough, whole by its length byte, and sums to zero over its declared span |
| Checksums.ChecksumIsUnique | src/bedjet_local/protocol/constants.py:220-227 | one byte completes a body, and `compute_checksum` gives it |
| Checksums.OneByteIsCaught | src/bedjet_local/protocol/decode.py:187-195 | no single changed byte of the declared span survives, the length byte apart |
| Checksums.TailIsNotCovered | src/bedjet_local/protocol/decode.py:188-190 | bytes past the declared span may change freely |
| Checksums.ShortenedLengthSurvivesIff | src/bedjet_local/protocol/decode.py:187-190 | a length byte shortened by one survives exactly when the dropped byte is 0xFF |
| Checksums.MisjoinSurvivesIff | src/bedjet_local/protocol/decode.py:264-272 | a head joined to another packet's tail is believed exactly when the two heads' sums agree mod 256 |
| Encode.RoundIsHalfEven | src/bedjet_local/protocol/encode.py:140-145 | rounding gives the one nearest integer, the even one on ties |
| Encode.SnapRefusesIff | src/bedjet_local/protocol/encode.py:140-159 | a target is unsendable exactly below −0.25 °C or from 127.75 °C up |
| Encode.SnapIsNearest | src/bedjet_local/protocol/encode.py:148-159 | snapping moves a target by at most 0.25 °C, to the nearest grid point, half to even |
| Encode.SnapIsMonotone | src/bedjet_local/protocol/encode.py:148-159 | snapping keeps the order of targets |
| Encode.SnapIsIdempotent | src/bedjet_local/api/service.py:186-192 | snapping in the API and again in the commander changes nothing |
| Encode.TemperatureAcceptedIff | src/bedjet_local/protocol/encode.py:162-191 | a snapped request is sent exactly when its byte lies between the two reported bytes, and as that byte |
| Encode.InBoundsIsNeverRefused | src/bedjet_local/service/commander.py:372-377 | a request inside the device's own bounds is never refused |
| Encode.TargetConfirmedIff | src/bedjet_local/service/commander.py:381-381 | the device confirms a target exactly by reporting the byte sent |
| Encode.FanSnapIsNearest | src/bedjet_local/protocol/encode.py:106-137 | for 5 to 100 percent: the one grid point within 2, idempotent, and the inner step check never fires |
| Encode.FanConfirmedIff | src/bedjet_local/service/commander.py:407-413 | the device confirms a fan command exactly by reporting the step sent |
| Encode.FanRefusesIff | src/bedjet_local/protocol/encode.py:106-137 | a fan percentage is refused exactly outside 5 to 100 |
| SnapshotQueues.QueueRefinesLog | src/bedjet_local/integrations/mqtt.py:243-255 | over any puts and gets: at most 16 items, the newest, in order; consumers see strictly increasing log positions; every entry is seen, queued or evicted; without eviction a plain FIFO; the newest is present after every put |
| SnapshotQueues.OnlyFullPutsEvict | src/bedjet_local/integrations/mqtt.py:245-311 | evictions are exactly the puts on sixteen waiting items, and a get hands out the oldest item |
| SnapshotQueues.EvictsOnlyWhenFull | src/bedjet_local/integrations/http_ws.py:413-426 | a put evicts one item when sixteen wait and none otherwise |
| SnapshotQueues.NewestWins.Enqueue | src/bedjet_local/integrations/mqtt.py:248-255 | the evict-and-retry loop terminates with the item queued, the oldest gone if sixteen waited |

## Left out

- `DeviceSession.stop` and cancellation: the runs are those of a session that is not stopped, with one `start` call at a time and no cancelled `yield_link`. (A cancellation that reaches the supervisor while it awaits the reader's own cancelled read is suppressed there, so `stop` is not certain to end it.)
- Polling inside the lease: there the reader subscribes, as it does by default.
- Listeners, snapshots, staleness, `wait_until_connected` and `wait_for_reading`: single expressions, or isolation of raising callbacks.
- `poke` and the poll interval: they only change when a poll read happens.
- Notifications before the first `start`: nothing is subscribed then.
- Exceptions other than `TransportError` out of a write, and a link that changes while a command is being classified.
- Commanders.Commander.SendVerified: the deadline claims need time to move only when no woken coroutine is waiting to run; scheduling delay is not modelled.
- LeasePacing.ReconnectRateBound: is for an initial back-off not above the maximum, as the defaults are; the other case is covered by `UncutWaitsAreWaited` and `PlannedOverMaximum`.
- Api.BedJetAPI.Command: the texts and the before and after snapshots of an outcome, and the normalisation of mode names, are not modelled; a mode name is a known mode or none.
- Packets.DecodeStatus: anomalies are kinds without text.
- Encode.RoundIsHalfEven: rounding is over reals, so floating-point error, infinities and NaN are outside the model.
- `set_timer`, `press`, `describe`, discovery payloads, HTTP authentication, the registry and the command line: outside the service stack's promises.
