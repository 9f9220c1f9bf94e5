# Verified model of the camera daemon's stateful core

This project models, in Dafny 4.11, the parts of the daemon whose correctness is a matter of state
and sequence rather than of system calls, and proves what those parts are for. Run
`dafny verify dfyconfig.toml` to verify all of it. Code that updates objects in place is a class whose methods are
proved equal to a function of the old state; the theorems are lemmas about those functions and about
runs of them. Concurrent parts are transition systems whose steps are the regions the program keeps
under a mutex, or single atomic accesses outside it; every system call is an arbitrary input of a step.

| files | subject |
|---|---|
| `HookState`, `HookLedger`, `HookInvariants`, `HookProgress`, `HookProtocol`, `HookChannel`, `HookTheorems`, `HookScheduling`, `HookResponses`, `HookSubmissions`, `HookSupervision`, `HookEscalation`, `HookDeadlines`, `HookIteration`, `HookExecutor`, `HookExecutorFacts` | the hook executor, its supervisor and the socket between them |
| `HookCodec`, `HookDecoding`, `HookCommand` | launch requests on that socket; the command line of a hook |
| `PacketRing`, `TimestampNormalizer` | the pre-roll ring and timestamp repair |
| `WireProtocol`, `WireLimit`, `WireReceiver`, `MediaFormat`, `MediaParser`, `MediaRoundTrip`, `MediaLimit`, `CameraStream`, `StreamCipher` | Baichuan framing, media records, both together, and stream ciphers |
| `PacketWindow`, `PacketViewers` | the packet windows behind `/video.mp4` and `/timelapse.mp4` |
| `StateTracker`, `EventMachine`, `EventHistory`, `MotionGlue`, `FrameVerdicts`, `StaleEvents`, `HardLimit` | ONVIF states, event grouping and the two threads between them |
| `MotionScan` | the despeckling scan over the change map |
| `Bytes`, `WireStream`, `Prelude` | octets and little-endian integers, chunked streams, options |

## How to read the main results

**Hook executor.** `HookState.Exec` is the executor's state with four history fields: a ledger that
records what became of every submission (its ticket is the value of `submitted_`), the launches in
order, every callback ever queued and every signal sent to a child. `HookExecutor.Executor` holds the same
fields and every method equates `View()` with a function of `HookState`; `Valid()` is the invariant
`HookInvariants.Inv`. `HookProtocol.World` adds the bytes on the socket in both directions, the
supervisor's child table, a record of what the supervisors did and the ids they forked; `Next` interleaves submissions,
`stop`, worker steps, supervisor steps, message deliveries, losses and restarts in any order. Its
steps are finer than the worker's locked iteration, which `HookIteration.IterationIsRun` shows to be one of
its runs. The theorems in the other hook modules hold of every world that some run reaches: `HookTheorems` says what
stays true, `HookSubmissions`, `HookScheduling`, `HookSupervision`, `HookResponses` and `HookDeadlines` what each
step does, in terms of the queues, the child table and the ledger rather than of the functions that compute it.

**Where a promise fails.** Some properties one might expect of the code are false. Each comes with an
input that shows it and the exact condition under which the code does meet it.

- The receive buffer's safety limit can refuse a legal stream, such as a largest packet with any packet
  behind it (`WireLimit.LargestPacketCanBeRefused`). A stream of packets arrives under every cut into reads
  exactly when each packet, short of its last byte, leaves room for the read that completes it
  (`WireLimit.ArrivesExactlyWhenRoomy`).
- The media parser's limit can refuse well-formed records in payloads that packets may carry, such as two
  keyframes of 32 MiB (`MediaLimit.LargestRecordCanBeRefused`). `MediaLimit.TakenExactlyWhenRoomy` gives the
  exact condition on the lengths of the records; payloads of at most 31 MiB - 8 KiB always meet it.
- Repaired timestamps can run more than two seconds ahead of arrival when packets arrive together
  (`TimestampNormalizer.DriftBoundNeedsGrowingArrivals`). An output is within two seconds of its arrival
  exactly when the tick after the previous output is, and so is a whole run (`RunInBandExactly`). On the
  arrivals alone, every source stays within two seconds exactly when they are steady (`SteadyArrivalsDecide`):
  with e_n the ticks from the first arrival to packet n and T the ticks of a second, e_2 > 0,
  e_2 > min(e_1, 4 e_1 - 2T) and e_n > e_(n-1) for n > 2, counting packets from zero.
- The README of the daemon says that a lease of 30 s and a gap of 30 s close a stale ONVIF event about 60 s
  after the last `true`, subject to frame cadence. `StaleEvents.StaleEventCloses` makes this exact: lease
  plus gap, plus the delay between a frame's expiry pass and its event update. Read without that delay the
  bound holds in every run exactly when `StaleEvents.SlipIsHidden` does (`PlainBoundExactly`): ONVIF events
  are off; or the delay, which cannot exceed the lease less one tick, is at most one tick (none if the gap
  is zero); or a positive maximum duration is at most gap + 1 tick - delay. A first frame that comes a lease
  and a gap after the `true` still starts an event (`LateFirstFrame`).
- The same text says that under the hard limit an ONVIF-only event is stopped when the timeout expires. The
  pass that expires the last state may belong to a packet that is skipped. Unless a `true` is accepted in
  between, the next analysed frame leaves an event active exactly when ONVIF events are on, a trigger was still
  waiting before that pass and no maximum duration is reached (`HardLimit.HardLimitStopsExactly`); a `true`
  repeated just before the limit brings that about (`HardLimit.RepeatOutlivesLimit`). Otherwise the event stays
  stopped through all refused repeats (`HardLimit.HardLimitStopsForGood`). `HardLimit.SurvivesExactly` is the
  condition for everything that can arrive in between.

## Model

| member | source | states |
|---|---|---|
| HookTheorems.Conservation | src/hooks.cpp:411-724 | In every reachable state submitted = completed + dropped + coalesced + pending + running, through coalescing, eviction, oversize, backpressure, send failure, supervisor loss and stop. |
| HookTheorems.CountersCountFates | src/hooks.cpp:456-474 | Each published counter is the number of submissions that met the fates it stands for. |
| HookTheorems.ExactlyOnceResults | src/hooks.cpp:590-658 | The k-th launch is either in the child table under id k, with its own job, or finished under id k; no submission is launched twice; while no child is left every launch has been finished. |
| HookTheorems.ExitSettlesEverything | src/hooks.cpp:808-829 | In every run, once the worker has left its loop nothing is pending or running, every submission has met its final fate, every launch has been finished under its own id and no callback is undelivered, whatever is still submitted. |
| HookTheorems.FinalFateStays | src/hooks.cpp:577-658 | A submission that was rejected, coalesced, evicted, failed, finished or discarded never changes again in any continuation. |
| HookTheorems.OwnResult | src/hooks.cpp:660-695 | A job finished by a response carries the pid, status, errno and argv that a supervisor recorded for that very job. |
| HookTheorems.NothingRunsTwice | src/hooks.cpp:95-183 | Through any number of failures and restarts no job id is forked twice, only ids of launched jobs are forked, and the forked ids are exactly those whose start is on record. |
| HookTheorems.RecordMovesForward | src/hooks.cpp:95-206 | What was refused or has ended stays so; what was started can only end, as the same process with the same argv. |
| HookTheorems.CallbackExactlyOnce | src/hooks.cpp:543-588 | Exactly one callback is ever queued for each submission with a callback that was coalesced, evicted, failed or finished, none for any other; undelivered ones are the newest, in order. |
| HookTheorems.CallbackCarriesOwnResult | src/hooks.cpp:577-588 | The callback of a submission carries the outcome of that submission. |
| HookTheorems.SerialMutualExclusion | src/hooks.cpp:510-530 | Two running children never share a non-empty serial key, and the concurrency limit is kept. |
| HookTheorems.SerialOrder | src/hooks.cpp:792-807 | Jobs of one class with the same serial key launch in submission order, even though a backpressured job is pushed back at the front. |
| HookTheorems.QueueAdmission | src/hooks.cpp:427-441 | Pending never exceeds its limit, no coalesce key is pending twice across both queues, each queue holds exactly the pending jobs of its class. |
| HookTheorems.CriticalJobsAreKept | src/hooks.cpp:532-575 | A critical job without a coalesce key is never coalesced or evicted. |
| HookTheorems.LossFinishesEveryChild | src/hooks.cpp:697-724 | While the supervisor is down no job is in flight. |
| HookTheorems.RunKeeps | src/hooks.cpp:781-829 | Every interleaving of steps keeps the executor's and the channel's invariants. |
| HookSubmissions.SubmissionFate | src/hooks.cpp:411-443 | In every reachable world a submission with a usable command line is refused if the worker is to stop; else replaces the pending job with its coalesce key, of either class; else joins the back of its queue if there is room; else, if critical, evicts the oldest normal job that has a coalesce key; else is refused. In each case the queues, the ledger and the callbacks afterwards. |
| HookSubmissions.StopIs | src/hooks.cpp:482-504 | Stopping discards exactly the pending jobs, without callbacks, keeps every other entry, and terminates exactly the running jobs with a known pid that were not terminated before. |
| HookSubmissions.RestartsAfterDelay | src/hooks.cpp:697-791 | After a loss a new supervisor can be had exactly from the restart delay on, and after a failed attempt exactly from the delay after that; it is counted once, and finds the queues as they were and no job in flight. |
| HookSubmissions.CallbacksComeInOrder | src/hooks.cpp:809-819 | In every reachable world the next callback delivered is the oldest undelivered one, and it alone. |
| HookSubmissions.LeavesExactly | src/hooks.cpp:820-825 | The worker leaves its loop exactly when it is to stop and nothing is pending, running or undelivered. |
| HookScheduling.LaunchTakesNextInLine | src/hooks.cpp:510-633 | In every reachable world a launch is attempted exactly when the worker has a place and some pending job is not held back by a running child with its serial key; the job taken is the first such in its queue, a normal one only if every pending critical job is held back; what becomes of it, the queues, the table and the ledger for each result of the send. |
| HookScheduling.SentJobIsRequested | src/hooks.cpp:606-633 | In every reachable world a sent launch puts the encoding of its own job under its own id behind the requests in transit; one that is not sent adds none. |
| HookScheduling.LaunchLoopLeavesNothing | src/hooks.cpp:792-807 | Given enough sends without backpressure the launch loop leaves off only when the worker must not launch, the places are taken, or every pending job is held back. |
| HookSupervision.RequestIsServed | src/hooks.cpp:89-183 | In every reachable world the supervisor serves the request at the front as the job it was sent for: a fork starts that job's command line once and is acknowledged with its pid, a failed one refuses it with exit code 127 and the error. |
| HookSupervision.EndIsReported | src/hooks.cpp:185-206 | The end of a child is reported once, under its own id, with its pid, status and exec error. |
| HookResponses.ResponseSettlesJob | src/hooks.cpp:635-695 | In every reachable world an acknowledgement gives the child it names its pid and changes nothing else; a report removes that child, files its outcome under its id, counts it and queues its callback; a response that names no child changes nothing. |
| HookResponses.InboxSettlesJob | src/hooks.cpp:660-695 | In every reachable world, with the supervisor moving between the calls, the first report for a running job that a loop of recvs reads before it runs dry or breaks settles that job with that report's outcome. |
| HookResponses.InboxNamesProcess | src/hooks.cpp:660-686 | An acknowledgement among responses for other jobs leaves its own child with that pid and otherwise as it was. |
| HookResponses.LossSettlesEveryJob | src/hooks.cpp:697-724 | Losing the supervisor finishes every running job with exit code 127 and the failure, queues its callback, leaves the queues alone and makes a restart due after the delay. |
| HookEscalation.EscalationIsOrderly | src/hooks.cpp:711-750 | In every run the executor terminates a job at most once, kills it by escalation at most once and at least the grace time after its termination, and kills it for a lost supervisor at most once, after which it sends that job nothing; a child counts as timed out exactly when its termination was sent. |
| HookEscalation.FinishedJobsAreLeftAlone | src/hooks.cpp:635-658 | The executor sends no signal for a job id whose job has been finished, in any continuation. |
| HookDeadlines.TerminationsAreTimely | src/hooks.cpp:711-750 | In every run each running child keeps the clock reading of its launch, and until stop no job is sent a termination before its timeout has passed since its launch. |
| HookDeadlines.ExpiryIsExact | src/hooks.cpp:730-749 | In every reachable state an expiry pass gives the supervisor up if and only if some child has waited the response timeout for its pid, and then kills every child whose pid is known; otherwise the signals it sends are exactly those due: a termination to each child with a known pid, none sent before, whose timeout has passed or that is to stop, and a kill to each child terminated at least the grace time ago and not yet killed. |
| HookDeadlines.LossKillsEveryChild | src/hooks.cpp:697-724 | Losing the supervisor for any reason sends a kill to every child whose pid is known and empties the child table. |
| HookIteration.IterationIsRun | src/hooks.cpp:781-808 | Whatever a locked iteration of the worker does, with the supervisor moving before every send and every recv and an inbox the socket can then offer, some sequence of protocol steps does. |
| HookInvariants.SubmitKeeps | src/hooks.cpp:411-443 | A submission keeps the invariant in all its branches. |
| HookInvariants.LaunchKeeps | src/hooks.cpp:590-633 | A launch attempt keeps the invariant whatever the send returns. |
| HookInvariants.FailKeeps | src/hooks.cpp:697-724 | Losing the supervisor keeps the invariant. |
| HookInvariants.ReceiveKeeps | src/hooks.cpp:660-695 | Any response, also a late or unknown one, keeps the invariant. |
| HookInvariants.ExpireKeeps | src/hooks.cpp:730-749 | The expiry pass keeps the invariant. |
| HookInvariants.StopKeeps | src/hooks.cpp:482-504 | Stopping keeps the invariant. |
| HookChannel.ReadKeepsChannel | src/hooks.cpp:91-183 | Reading a request keeps the channel invariant: requests in transit encode the jobs of their ids in increasing order, none acted on yet, and every answer is true of the job it names. |
| HookChannel.EndKeepsChannel | src/hooks.cpp:185-206 | Reporting a child's end keeps the channel invariant: the report carries that child's own id, pid and status. |
| HookExecutor.Executor.Submit | src/hooks.cpp:411-443 | Rejects an argv without a program or with a NUL; otherwise the new state is the specified submission and the answer says whether the job was accepted. |
| HookExecutor.Executor.CoalescePending | src/hooks.cpp:532-557 | Withdraws the first pending job with the same key, critical queue first, and queues its cancellation. |
| HookExecutor.Executor.EvictCoalescibleJob | src/hooks.cpp:559-575 | Withdraws the oldest normal job that has a coalesce key, if there is one. |
| HookExecutor.Executor.PopNextJob | src/hooks.cpp:510-530 | Takes the first job, critical before normal, whose serial key no running child holds. |
| HookExecutor.Executor.LaunchJob | src/hooks.cpp:590-633 | The three outcomes of a send and the oversize case; the packet is the encoding of the job. |
| HookExecutor.Executor.LaunchLoop | src/hooks.cpp:792-807 | The worker's launch loop equals its specification, stopping at backpressure. |
| HookExecutor.Executor.FinishChild | src/hooks.cpp:635-658 | Removes the child, counts its result and queues its callback. |
| HookExecutor.Executor.ReceiveSupervisorResults | src/hooks.cpp:660-695 | Reads until nothing is left or the stream breaks. |
| HookExecutor.Executor.FailSupervisor | src/hooks.cpp:697-724 | Finishes every child with the failure, once, and schedules a restart unless stopping. |
| HookExecutor.Executor.PopCompletion | src/hooks.cpp:809-811 | Takes the oldest undelivered callback. |
| HookExecutor.Executor.ReapAndExpire | src/hooks.cpp:726-750 | Receives, reaps and escalates in that order. |
| HookExecutor.Executor.Stop | src/hooks.cpp:482-504 | Discards what is pending without callbacks and terminates what runs. |
| HookExecutor.Executor.RunOnce | src/hooks.cpp:781-829 | One iteration of the worker equals restart, launches, results and expiry, and keeps the invariant. |
| HookCodec.MeasureRequest | src/hooks.cpp:592-606 | The overflow-safe size loop refuses exactly the requests beyond 64 KiB and otherwise computes the true length. |
| HookCodec.EncodeLaunch | src/hooks.cpp:607-617 | Filling the buffer at a moving offset yields the specified encoding. |
| HookDecoding.RequestLayout | src/hooks.cpp:607-617 | Every octet of a launch request: the kind, the number of arguments, the job id, then each argument behind its length, the integers little-endian. |
| HookDecoding.CodecInverse | src/hooks.cpp:100-126 | A packet decodes to a launch of an argv if and only if it is the encoding of that launch and the argv names a program. |
| HookDecoding.DecodeArguments | src/hooks.cpp:100-126 | The decoding loop with its early count test accepts exactly the well-formed bodies. |
| HookDecoding.DecodeRequest | src/hooks.cpp:89-134 | The supervisor's reading of one message. |
| HookDecoding.StopDecodes | src/hooks.cpp:766-771 | The stop message is read as one. |
| HookCommand.ParseHookCommand | src/hooks.cpp:228-281 | The scanning loop equals the specified parse. |
| HookCommand.ParsesToItsWords | src/hooks.cpp:228-281 | However a command is written with plain characters, escapes and quotes, it parses to its words, or to the empty-command error when the first word is missing or empty. |
| HookCommand.UnterminatedExactly | src/hooks.cpp:273-275 | The unterminated error is raised exactly for texts that cannot be written in that language. |
| HookCommand.QuotingRoundTrip | src/hooks.cpp:228-281 | An argv can be quoted into one command and read back if and only if it names a program; otherwise the command is refused as empty. |
| PacketRing.IncrementalEqualsFromScratch | src/media.cpp:1104-1136 | For every history in time order the ring is the suffix from the newest keyframe at or before last minus preroll, else from the first keyframe, else everything; beyond the hard cap it starts at the first keyframe among the newest packets up to the cap, else at the cap itself. |
| PacketRing.DefaultCapacitySuffices | src/media.cpp:1093-1097 | With packets at least 1/240 s apart and a keyframe among any 8192 the time-aligned window fits the default capacity and is kept whole. |
| PacketRing.HardCapNeverFires | src/media.cpp:1128-1135 | Under the same conditions no push takes the hard-cap branch. |
| PacketRing.Ring.Create | src/media.cpp:1088-1098 | Refuses a preroll outside 0 to 60 s and supplies the default capacity. |
| PacketRing.Ring.Push | src/media.cpp:1104-1136 | Ignores an invalid packet; otherwise appends, aligns and caps. |
| PacketRing.Ring.Align | src/media.cpp:1111-1126 | The time and keyframe trim in place. |
| PacketRing.Ring.Cap | src/media.cpp:1128-1135 | The hard cap in place. |
| PacketRing.Ring.Snapshot | src/media.cpp:1143-1160 | The packets from the first keyframe on. |
| TimestampNormalizer.RepairsExactly | src/media.cpp:278-314 | In every run an output advances by the source's delta where both timestamps are there and it is plausible, and by the arrival delta otherwise, or as far as the two-second band and strict growth allow. |
| TimestampNormalizer.UnbelievedFollowsArrivals | src/media.cpp:282-309 | Where the source is never believed, as without timestamps, and arrivals grow, outputs are the arrivals since the first. |
| TimestampNormalizer.RebasesExactly | src/media.cpp:266-276 | Without repair output n is the largest of n and, over the timed packets k up to it, the timestamp of k since the first timed packet plus n - k. |
| TimestampNormalizer.StrictlyIncreasing | src/media.cpp:254-314 | Outputs strictly increase in every run, repaired or not. |
| TimestampNormalizer.DriftBelow | src/media.cpp:300-309 | An output is never more than two seconds behind arrival. |
| TimestampNormalizer.DriftAbove | src/media.cpp:300-309 | An output is at most the greatest e_k + 2T + (n - k) over earlier packets k. |
| TimestampNormalizer.InBandExactlyWithRoom | src/media.cpp:304-309 | An output is at most two seconds ahead of arrival if and only if the tick after the previous output is, whatever the source says. |
| TimestampNormalizer.RunInBandExactly | src/media.cpp:304-309 | A whole run stays in the band if and only if every packet finds that room on arrival. |
| TimestampNormalizer.SteadyArrivalsDecide | src/media.cpp:278-309 | For every sequence of arrivals: every source whatsoever stays at most two seconds ahead if and only if the elapsed arrivals grow from the fourth packet on and the third arrives after the first and after what the second output can be ahead beyond two seconds. |
| TimestampNormalizer.BoundedDrift | src/media.cpp:300-309 | With strictly increasing arrivals every packet finds room, so the drift is within two seconds either way. |
| TimestampNormalizer.DriftBoundNeedsGrowingArrivals | src/media.cpp:300-309 | Three packets that arrive together: the third finds no room and leaves the band. |
| TimestampNormalizer.TrustedSourceIsKept | src/media.cpp:278-309 | A source with plausible deltas within 2T of arrival is only rebased. |
| TimestampNormalizer.UnrepairedSourceIsKept | src/media.cpp:266-276 | Without repair an increasing source is only rebased. |
| TimestampNormalizer.Normalizer.Normalize | src/media.cpp:254-314 | One call in place equals the specified step. |
| TimestampNormalizer.Normalizer.Restart | src/media.cpp:242-252 | Reset forgets the run and clamps the tick rate to at least one. |
| StreamCipher.CfbRoundTrip | src/baichuan.cpp:487-516 | Decrypting what was encrypted gives the input, for any length, key stream function and start value. |
| StreamCipher.FollowsTheStandard | src/baichuan.cpp:499-513 | Every full block obeys the recurrence of section 6.3 of NIST SP 800-38A with a 128-bit segment. |
| StreamCipher.PartialBlock | src/baichuan.cpp:501-507 | A partial last block is the plaintext xor the front of the next key stream. |
| StreamCipher.AesCfb128 | src/baichuan.cpp:487-516 | The in-place loop equals that cipher. |
| StreamCipher.ScrambleIs | src/baichuan.cpp:457-465 | Every octet is xored with the key octet at its index plus the offset and with the offset's low octet. |
| StreamCipher.BcXor | src/baichuan.cpp:457-465 | The loop xors each byte with its key byte and the offset's low byte. |
| StreamCipher.ScrambleTwice | src/baichuan.cpp:457-465 | The cipher is its own inverse for one offset. |
| MediaFormat.ChunkIndependence | src/baichuan.cpp:280-382 | For any stream and any split into appends the records and the failure are those of a single append. |
| MediaFormat.DrainSplit | src/baichuan.cpp:288-382 | Draining early never changes what a later drain finds. |
| MediaFormat.LookStable | src/baichuan.cpp:295-380 | A decision taken on a prefix is not changed by more bytes. |
| MediaFormat.LengthsAlwaysFit | src/baichuan.cpp:339-342 | The two total-length errors cannot occur; only the frame-size error can. |
| MediaFormat.WaitIsBounded | src/baichuan.cpp:343-347 | The parser never waits for more than one longest record. |
| MediaRoundTrip.SeesExactly | src/baichuan.cpp:295-380 | The parser sees a record exactly where a well-formed one stands whole at the front, and then that one; steps over one byte exactly where none can begin; fails exactly on a frame beyond the size limits. |
| MediaParser.Parser.Append | src/baichuan.cpp:280-286 | Refused without a change exactly when the buffer would exceed 64 MiB. |
| MediaParser.Parser.Compact | src/baichuan.cpp:384-392 | Compaction never changes the unread bytes. |
| MediaParser.Parser.Next | src/baichuan.cpp:288-382 | The resynchronising loop over buffer and offset equals the specified next record. |
| MediaParser.NextDrains | src/baichuan.cpp:288-382 | Calling next until it has nothing drains the buffer and leaves the specified read offset. |
| MediaParser.Parser.ReceiveMedia | src/baichuan.cpp:875-905 | One wait for a record in place: result, payloads used, unread bytes and read offset are those of the specified wait. |
| MediaLimit.WaitsAmountToFeed | src/baichuan.cpp:875-905 | Repeated waits give the records, the ending and the buffer of feeding the payloads within the limit, so the results about feeding are about the method. |
| MediaLimit.TakenExactlyWhenRoomy | src/baichuan.cpp:280-392 | Every record of a well-formed stream comes back in order under every cut into payloads of 1 byte to 32 MiB if and only if for every stretch of records shorter than the 1 MiB compaction threshold and the record behind it, their length less one plus the smaller of 32 MiB and one more than the bytes behind them is within 64 MiB. |
| MediaLimit.ModestPayloadsAreTaken | src/baichuan.cpp:280-392 | Under payloads of at most 31 MiB - 8 KiB every record of every well-formed stream comes back in order. |
| MediaLimit.LargestRecordCanBeRefused | src/baichuan.cpp:280-286 | Two keyframes of 32 MiB and a cut into payloads of at most 32 MiB that is refused. |
| CameraStream.RecordsIgnoreReads | src/baichuan.cpp:632-905 | When every packet finds room the media records do not depend on how reads cut the connection; unless refused they and the failure are those of draining all payloads at once. |
| CameraStream.RecordsArrive | src/baichuan.cpp:632-905 | When both buffers find room every record of a camera comes back in order with every field intact, however records are spread over packets and packets over reads. |
| MediaRoundTrip.StreamParsesBack | src/baichuan.cpp:288-380 | Information and video records written with padding, among audio records and noise without a media magic, come back in order with every field intact. |
| MediaRoundTrip.ChunkedStreamParsesBack | src/baichuan.cpp:280-380 | The same for every way of cutting the stream. |
| Bytes.LittleEndian | src/baichuan.cpp:54-76 | The octet at place k of a written integer has the weight 256 to the k. |
| WireProtocol.HeaderLayout | src/baichuan.cpp:402-417 | Every header begins with the octets f0 de bc 0a, and where each octet of each field stands. |
| WireProtocol.DecodesExactly | src/baichuan.cpp:419-455 | Which octets begin with a header, and which of the four errors others are refused with. |
| WireProtocol.EncodeHeader | src/baichuan.cpp:402-417 | The bytes appended field by field are the specified header. |
| WireProtocol.HeaderRoundTrip | src/baichuan.cpp:402-455 | A header survives encoding and decoding if and only if its length fields and its payload-offset flag are consistent with its class. |
| WireProtocol.DecodedHeaderIsEncoding | src/baichuan.cpp:419-455 | What decodes is the encoding of what it decoded to. |
| WireReceiver.Receiver.ReceivePacket | src/baichuan.cpp:627-688 | One wait in place: result, deliveries used and buffer left are those of the specified wait. |
| WireReceiver.ReceiptIsFirstDecision | src/baichuan.cpp:632-687 | A wait ends at the first decision on what has arrived: a packet or bad header at the front, a hang-up, the first chunk over the limit, or the deadline once every delivery is used. |
| WireReceiver.WaitsAmountToFeed | src/baichuan.cpp:627-688 | Repeated waits give the packets, the rest and the failure of feeding the chunks, so the results about feeding are about the method. |
| WireProtocol.ReassemblyIsChunkIndependent | src/baichuan.cpp:633-683 | Absent an overflow the packets do not depend on how reads cut the stream. |
| WireLimit.ArrivesExactlyWhenRoomy | src/baichuan.cpp:670-678 | The packets of a sendable stream arrive complete and in order under every cut into reads of 1 to 65536 bytes if and only if for every packet its length less one, plus the smaller of 65536 and one more than the bytes behind it, is within the limit. |
| WireLimit.PacketBehindLargestIsRefused | src/baichuan.cpp:670-678 | Some cut of a largest packet with any sendable packet behind it makes feeding fail. |
| WireLimit.LargestPacketCanBeRefused | src/baichuan.cpp:670-678 | The same for a packet of 32 MiB of zeros and an empty packet. |
| WireLimit.PacketsArrive | src/baichuan.cpp:627-688 | Packets with bodies of at most 32 MiB less one read arrive complete and in order through any reads of at most 64 KiB. |
| WireProtocol.SentIsReceived | src/baichuan.cpp:402-417 | A stream of sendable packets drains to exactly those packets. |
| WireProtocol.ReceivedWasSent | src/baichuan.cpp:649-661 | The bytes taken from the buffer are the encoding of the packets returned. |
| PacketWindow.Window.Publish | src/http.cpp:197-215 | Appends with the next version, evicts, and never evicts the packet just published. |
| PacketWindow.WindowIsRecentHistory | src/http.cpp:208-213 | With nondecreasing times the window is exactly the packets among the newest 4096 and at most ten seconds older than the newest. |
| PacketViewers.JoinsExactly | src/http.cpp:579-645 | In every run a viewer joins exactly when the window has a keyframe for live video, any packet for timelapse; a live viewer then takes everything from the newest keyframe on, a timelapse viewer nothing. |
| PacketViewers.FetchesExactly | src/http.cpp:584-603 | In every run a waiting viewer fetches exactly when something newer has been published: it is overrun if its next packet is gone, else a live viewer takes that packet alone and a timelapse viewer everything up to the newest. |
| PacketViewers.WritesNextExactly | src/http.cpp:605-736 | In every run the packet written next is the one after the last written; a write sends exactly it, passes over it while a timelapse viewer awaits a keyframe, or fails and ends the stream. |
| PacketViewers.StopsExactly | src/http.cpp:587-595 | In every run a stop ends exactly the viewers that wait, and they have been sent all they had taken. |
| PacketViewers.VersionsNeverRestart | src/http.cpp:217-233 | In every run the next version is one more than the number of packets ever published. |
| PacketViewers.NoSilentGap | src/http.cpp:579-736 | In every run a viewer was sent consecutive versions beginning at a keyframe: the newest it found, or for timelapse the first after it joined. |
| PacketViewers.OverrunMeansLoss | src/http_internal.hpp:8-10 | In every run the overrun error is raised if and only if the next undelivered packet has left the window; otherwise that packet is fetched next. |
| PacketViewers.CaughtUpMeansComplete | src/http.cpp:711-736 | A viewer with nothing left to fetch was sent everything since its stream began. |
| PacketViewers.Delivery.FetchNext | src/http.cpp:594-604 | The locked part of a delivery pass. |
| PacketViewers.Delivery.WriteNext | src/http.cpp:605-612 | Writing one pending packet, with the keyframe wait of timelapse viewers and the failure case. |
| PacketViewers.Delivery.constructor | src/http.cpp:627-645 | What a new viewer starts with. |
| StateTracker.LegacyReplay | src/runtime_util.hpp:104-138 | Under the hard limit a state lives from its first true since the last false or clear; repeats never extend it; expired it stays suppressed until false or clear. |
| StateTracker.RenewableReplay | src/runtime_util.hpp:104-138 | Under a lease a state lives from its latest true and is never suppressed. |
| StateTracker.RefusedWhileSuppressed | src/runtime_util.hpp:111-113 | A true is refused exactly while its state has run out and was not reset. |
| StateTracker.AssertedXorSuppressed | src/runtime_util.hpp:104-147 | No key is asserted and suppressed at once, in any mixture of modes. |
| StateTracker.OnvifStateTracker.UpdateState | src/runtime_util.hpp:104-122 | One notification in place. |
| StateTracker.OnvifStateTracker.ExpireStates | src/runtime_util.hpp:124-138 | The erasing loop removes exactly the states whose time is up and lists each once. |
| StateTracker.OnvifStateTracker.IsActive | src/runtime_util.hpp:140-142 | Says whether any state is asserted. |
| EventMachine.EventStateMachine.Create | src/event.cpp:8-13 | Refuses exactly the invalid settings. |
| EventMachine.EventStateMachine.UpdateFrame | src/event.cpp:15-74 | One frame in place equals the specified step. |
| EventMachine.EventStateMachine.StopNow | src/event.cpp:76-88 | Stopping in place. |
| EventHistory.StartsAndEndsAlternate | src/event.cpp:15-88 | Starts and ends alternate, starts are numbered 1, 2, ..., each end carries its start's number and the event number is the number of starts. |
| EventHistory.StartsExactly | src/event.cpp:31-58 | A frame starts an event exactly when none is active and it has motion that is forced or completes the required run of consecutive motion frames since the last reset. |
| EventHistory.EndsExactly | src/event.cpp:19-71 | A frame ends an event exactly when it reaches the maximum duration, or has no motion and lies at least the gap after the latest motion frame. |
| EventHistory.DetectsExactly | src/event.cpp:31-48 | In every run a frame reports motion exactly when it has motion, does not end the event, and closes an unbroken streak of such frames that contains a forced one or is as long as required, whether or not an event is active. |
| EventHistory.RecordsExactly | src/event.cpp:48-70 | A frame is recorded exactly while an event is active after it and it closes such a streak itself or comes at most the post-capture count after the latest frame that did. |
| MotionGlue.FlagMatchesTracker | src/runtime.cpp:614-671 | Whenever the mutex is free the published flag says whether the tracker is active, in every interleaving. |
| FrameVerdicts.MachineIsHistory | src/runtime.cpp:1212-1246 | The event machine of every worker run is that of the history of its analysed frames and stops, so the results about histories hold of it. |
| FrameVerdicts.FrameStartsExactly | src/runtime.cpp:1212-1246 | In every run and interleaving an analysed frame starts an event if and only if none is active, it has local motion or, with ONVIF events on, a trigger not yet seen when it loads them or the flag set when it loads that, and it closes the required streak or carries such a trigger with ONVIF events on. |
| FrameVerdicts.FrameEndsExactly | src/runtime.cpp:1212-1246 | An active event ends at an analysed frame if and only if the maximum duration is reached, or the frame has no motion and lies the gap after the latest, or it has seen a timeout with neither motion in the picture nor anything asserted. |
| FrameVerdicts.LocalMotionHolds | src/runtime.cpp:1234-1243 | Motion in the picture carries an event on and renews its last motion, whatever has timed out, up to the maximum duration. |
| StaleEvents.NoEventsNoEvent | src/runtime.cpp:1235 | With ONVIF events off only motion in the picture starts events, whatever is asserted. |
| FrameVerdicts.AssertionReachesFrame | src/runtime.cpp:612-1246 | Once an accepted true has been raised, the next frame to load its counters sees it and has an event unless that reaches its maximum duration, whatever happens before and meanwhile. |
| FrameVerdicts.TrackerReplays | src/runtime.cpp:612-688 | The tracker of every run is the replay of its notifications, disconnects and expiry passes, where smart topics count only under leases. |
| FrameVerdicts.TimeoutsCountEmptyings | src/runtime.cpp:656-688 | The timeout counter counts exactly the passes under the hard limit that find the last state run out, and never moves under leases. |
| FrameVerdicts.SeenAtLastLoad | src/runtime.cpp:1215-1225 | In every run the triggers and timeouts already seen are exactly those counted before the latest frame loaded the counters, so each is new to one frame only. |
| StaleEvents.StaleEventCloses | src/runtime.cpp:1186-1247 | Under leases and under the hard limit, with ONVIF as only trigger and frames less than a state's lifetime apart, no event is active once a frame was analysed at the last accepted true + lifetime + judging delay + gap, or + maximum duration if that is positive and shorter; refused repeats do not count. |
| StaleEvents.PlainBoundExactly | src/runtime.cpp:1186-1247 | For every valid configuration with a lease and every delay: no event outlives last true + lease + gap in any such run if and only if ONVIF events are off, or the delay (capped at lease - 1 tick) is at most one tick, zero ticks when the gap is zero, or a positive maximum duration is at most gap + 1 - delay. |
| StaleEvents.SlippingRun | src/runtime.cpp:1186-1247 | In every other case a run in which an event is active after a frame at last true + lease + gap or later. |
| StaleEvents.LateFirstFrame | src/runtime.cpp:1218-1235 | A run with one true and a first frame a lease and a gap later, after which an event is active: the trigger counter outlives the lease. |
| HardLimit.HardLimitStopsExactly | src/runtime.cpp:1186-1239 | In every run under the hard limit, from an expiry pass that empties the tracker, for an analysed frame or a skipped packet, to the next analysed frame, with anything in between except an accepted true (skipped packets, further passes, a lost source, refused repeats): no event is active after that frame unless a trigger was waiting before the pass; with ONVIF events on one is active if and only if such a trigger was and the event, unless the source was lost, has not reached its maximum duration. |
| HardLimit.SurvivesExactly | src/runtime.cpp:1186-1239 | The same stretch of any run with ONVIF events on and the source kept, accepted trues included: the event survives if and only if the next analysed frame finds a trigger not yet seen when it loads them, or the flag set when it loads that, and the maximum duration is not reached. |
| HardLimit.HardLimitStopsForGood | src/runtime.cpp:1186-1239 | With no trigger waiting before that pass, no event is active after the frame or any continuation and none has been started, as long as every further true is refused and no frame sees motion in the picture. |
| HardLimit.RepeatOutlivesLimit | src/runtime.cpp:1218-1235 | A run in which one state is asserted once and repeated one tick before its limit, and the frame that expires it leaves the event active. |
| MotionScan.Detect | src/detection.cpp:199-277 | Count, bounding box and centroid are those of the changed border pixels and the changed interior pixels with two changed neighbours, or nothing when lightswitch suppression applies. |
| MotionScan.ScanImage | src/detection.cpp:218-262 | The nested loops keep exactly the pixels of that definition. |
| MotionScan.CountNeighbours | src/detection.cpp:239-247 | The sum of eight flags is the number of changed neighbours. |
| MotionScan.CentroidInsideBox | src/detection.cpp:269-276 | The centroid lies inside the box. |

## Left out

- System calls (`poll`, `recv`, `send`, `fork`, `execvp`, `waitpid`, `kill`, sockets, clocks): their outcomes are free inputs of the steps; the supervisor's pipe for exec errors is the errno a child's end carries.
- 64-bit wrap-around of counters, versions and timestamps: numbers are unbounded, except the job id, whose 64 bits the launch step respects.
- Liveness: that a supervisor answers, that a viewer catches up, that the worker is scheduled. Waiting on condition variables appears only as the guard of a step.
- The order of assignments inside one locked region, and the `status_` and log output around them.
- Signals the supervisor process sends: when it is stopping it kills its own children, repeatedly (src/hooks.cpp:203); and the SIGKILL to the supervisor itself. `signals` lists what the executor sends to children. Processes a dead supervisor leaves behind.
- `HookExecutor.Executor.LaunchJob`: takes a job id below 2^64 as given; the program's counter would wrap.
- `expand_hook_tokens`, `kind` labels and the string form of `submit`: text substitution and display only.
- `HookDecoding.RequestLayout`: the program copies the integers in the host's order, taken to be little-endian.
- The supervisor's own loop is modelled as steps of `HookProtocol`, not as a method; request decoding is a method.
- `TimestampNormalizer.Normalizer.Normalize`: integer overflow of extreme timestamps.
- `WireReceiver.Receiver.ReceivePacket`: the inbox lists what the socket delivers before the deadline, so a timeout is the end of the list; other socket errors are the `Closed` case.
- `MediaRoundTrip.StreamParsesBack`: noise is any bytes that show no media magic before the next record; noise that contains a magic can swallow records, in the daemon as in the model.
- AES and MD5 themselves: the block cipher is an arbitrary function. Login, XML and encryption negotiation.
- The order in which an `unordered_map` yields expired states: `ExpireStates` returns them in any order.
- Viewer counts per camera, MJPEG streaming and the muxer behind a viewer: a write either succeeds or fails.
- `CameraStream.RecordsArrive`: which payloads the packets carry, and their decryption with its state, is an arbitrary function of the packets; streams are whole records without noise between them.
- `MediaParser.Parser.ReceiveMedia`: keep-alive replies and packets of other kinds are left out; `payloads` lists the media payloads that arrive before the wait ends for whatever reason.
- `StaleEvents.StaleEventCloses`: the pending trigger time under the same mutex only names the event's start and is not modelled; frames count from the start of the loop, so the first must come within a state's lifetime.
- Noise tuning, thresholds and the background of the motion detector: `MotionScan` starts from the change map, which a mask has already blanked.
- `MotionScan.Detect`: 64-bit overflow of the pixel sums.
- FFmpeg objects, transcoding, JPEG, ONVIF transport, configuration, packaging and the metrics exporter.
