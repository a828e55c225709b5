# Verified core of the SmartIDS engine

This project models the deterministic core of the SmartIDS engine and proves what its parts promise over
every input, every run and every interleaving. Each stateful component comes in three layers: a machine on
values, theorems about all of its runs, and a class whose methods change their fields in place and are
proved to do exactly what the machine does.

| component | machine | theorems | objects |
|---|---|---|---|
| Running statistics | `RunningStats` | `RunningStats` | `RunningStats` |
| Sessions | `TrafficSession`, `Sessionizer` | `FlowSegmentation`, `SessionGuarantees`, `FlowIndependence`, `Connections`, `Predictions`, `EmissionOrder` | `TrafficSession`, `SessionBuilder` |
| Features | `Features` | `Features` | a loop over the compared fields |
| Spill file | `Text`, `SpillLines` | `Text`, `SpillLines` | `DiskSpillStore` |
| Publisher | `PublisherProtocol` | `PublisherGuarantees`, `PublisherPool` | `BackgroundPublisher` |
| Heuristic detector | `SlidingWindows` | `WindowGuarantees`, `Scoring` | `HeuristicDetector` |
| Blocking ledger | `BlockLedger` | `LedgerGuarantees` | `AutoBlocker` |
| Backend commands | `Commands` | `CommandGuarantees` | `CommandProcessor` |
| Train/test split | `DatasetSplit` | `SplitGuarantees` | the methods of `DatasetSplit` |
| Confusion matrix | `ConfusionMatrix`, `Metrics` | `Metrics` | the methods of `ConfusionMatrix` |

Times, statistics, shares and metrics are exact reals. Clock readings, publish results, firewall results and
random draws are parameters that range over all values; so is the text encoding of payloads, of which only
one non-blank line per payload and decoding of encoded payloads are assumed.

`PublisherProtocol` has one worker, and every theorem of `PublisherGuarantees` is about one worker. That is how
the engine builds each publisher with a spill store (packet_capture/sniffer_service.py:441-447, default at
packet_capture/forwarding/background_publisher.py:24). The secondary-model publishers have several workers and
no store (ml/runtime/completed_flow_predictor.py:90-97). `PublisherPool` runs any number of workers on the same
steps: conservation and the drop count stay, order holds with one worker only, and on a spill store two
workers can lose a payload.

## Where a promise has an exact condition

- The sessions of a flow depend on its own packets alone if and only if the stream is undisturbed
  (`InterleavingIndependence`); non-decreasing timestamps are sufficient (`OrderedIsUndisturbed`) and not
  necessary (`OutOfOrderTimesBreakIndependence`). Conservation, session shape and settledness hold in any
  time order.
- `fwd_iat_total` is the flow duration if and only if the first packet is the earliest and the last one the
  latest (`TotalIsDurationIff`).
- The docstring of the spill store calls an append atomic enough; `AppendAddsLineIff` says it adds its record
  if and only if the previous write was a whole one, and `AppendCompletesLine` what it does to any file.
- The rules equal the live ledger after a sweep if and only if no orphan rule existed and no delete of an
  expired address failed (`SweepIsExactIff`); expiry drops the entry even when the delete fails, so such a
  rule stays for good (`OrphansStay`, `FailedDeleteOrphans`).
- The block cooldown is cut short by the expiry of the entry (`CooldownIff`, `ShortBlockEndsCooldown`).
- Live deliveries keep the submission order if and only if there is one worker (`LiveOrderIff`); with n workers a
  delivery overtakes fewer than n (`OvertakesFewerThanWorkers`).
- The window results hold for sources that were never evicted; at most max_tracked_ips distinct sources
  guarantee that (`FewSourcesNeverEvict`).
- A command id is protected until max_command_ids distinct other ids have succeeded (`AtMostOnce`).

## Model

| member | source | states |
|---|---|---|
| RunningStats.PushRefinesTwoPass | traffic_engine/session_builder/running_stats.py:21-33 | one incremental update takes count, mean, sum of squared deviations, least and greatest of a list to those of the list with the value appended, by the two-pass definitions |
| RunningStats.WelfordRefinesTwoPass | traffic_engine/session_builder/running_stats.py:4-33 | after any sequence of updates every field equals its two-pass value over that sequence |
| RunningStats.WelfordOrderIrrelevant | traffic_engine/session_builder/running_stats.py:21-33 | two sequences with the same multiset of values leave the same state |
| RunningStats.RunningStats.Update | traffic_engine/session_builder/running_stats.py:21-33 | the in-place update is `Push` on the abstract value |
| RunningStats.RunningStats.Variance | traffic_engine/session_builder/running_stats.py:44-48 | the getter returns m2 over count, and 0 below two samples |
| RunningStats.RunningStats.GetMin | traffic_engine/session_builder/running_stats.py:35-36 | 0 when nothing was seen, else the least sample |
| RunningStats.RunningStats.GetMax | traffic_engine/session_builder/running_stats.py:38-39 | 0 when nothing was seen, else the greatest sample |
| RunningStats.RunningStats.GetMean | traffic_engine/session_builder/running_stats.py:41-42 | 0 when nothing was seen, else the mean |
| TrafficSession.TrafficSession.Update | traffic_engine/session_builder/traffic_session.py:52-89 | updating the session object in place refines `UpdateSession` on its value, in both directions of traffic |
| TrafficSession.TrafficSession.UpdateTcpFlags | traffic_engine/session_builder/traffic_session.py:91-110 | each flag bit raises its own counter; FIN or RST finishes the session |
| TrafficSession.SessionRecordsItsPackets | traffic_engine/session_builder/traffic_session.py:52-68 | a session built from packets of one flow lists their sizes and times in order, its counters and running statistics agree with the lists, and every forward list, count and statistic equals its whole-flow counterpart; it is finished exactly when some packet has FIN or RST |
| TrafficSession.SessionRecordsTransport | traffic_engine/session_builder/traffic_session.py:70-110 | each flag counter is the number of packets with that flag, header length and data packets are totals, the initial window is that of the first packet with one, and the least segment is the smallest positive payload |
| TrafficSession.FinishedIff | traffic_engine/session_builder/traffic_session.py:95-104 | a session of one flow is finished exactly when it has counted a FIN or a RST |
| TrafficSession.SessionSplitsDirections | traffic_engine/session_builder/traffic_session.py:52-87 | whatever packets a session is given, its lists record all of them, and its forward lists, counters, statistics and transport fields exactly those with the source and destination address of the first |
| Packets.FlagsAreBits | traffic_engine/session_builder/traffic_session.py:95-110 | testing a flag finds exactly the bit: FIN 1, SYN 2, RST 4, PSH 8, ACK 16, URG 32 |
| Packets.BitsAreFlags | traffic_engine/session_builder/traffic_session.py:95-110 | every number is the flags it tests positive for and the rest above |
| Connections.KeyIff | traffic_engine/session_builder/session_key.py:13-21 | two packets share a key if and only if source address, destination address, protocol, source port and destination port all agree |
| Connections.FlowIsConnection | traffic_engine/session_builder/session_key.py:13-21 | the flow of a packet is the packets that agree with it in these five fields |
| Connections.ConnectionConservation | traffic_engine/session_builder/session_builder.py:24-36 | in every run the sessions of a connection hold exactly its packets in order, and each names its five fields in their places |
| Connections.EverySessionIsOneConnection | traffic_engine/session_builder/session_builder.py:24-36 | every session a run has made, emitted or active, records packets of one connection only, which it names field by field |
| FlowSegmentation.RunConsistent | traffic_engine/session_builder/session_builder.py:21-49 | in every reachable state the keys of sessions and prediction state coincide with the insertion order, without duplicates, and nothing is pending between packets |
| FlowSegmentation.OthersShow | traffic_engine/session_builder/session_builder.py:127-153 | a packet of another flow only moves the clock of a flow, and emits of it what that makes stale |
| FlowSegmentation.OwnShows | traffic_engine/session_builder/session_builder.py:21-49 | a packet of the flow joins or opens its last session, which is emitted at once exactly when the packet ends it |
| FlowSegmentation.ProcessShows | packet_capture/processor/packet_processor.py:402-532 | one packet of any flow moves the processor state and the per-flow trace in step, and what is emitted for the flow is what the trace closes |
| FlowSegmentation.TailKeeps | traffic_engine/session_builder/session_builder.py:59-125 | prediction and finalization leave every other flow alone, and the packet's own session goes exactly when it has ended |
| FlowSegmentation.FlowProjection | packet_capture/processor/packet_processor.py:402-532 | for every stream, in any time order, the sessions made of a flow are those of the projection of the stream onto it, where other packets only move the clock |
| FlowIndependence.LiveIff | traffic_engine/session_builder/session_builder.py:114-153 | a flow's last segment is active if and only if it has not ended and no packet after it found it stale |
| FlowIndependence.ProjectIsSegment | traffic_engine/session_builder/session_builder.py:127-153 | for every stream in any time order, the cuts of a flow are those of its own packets (after FIN or RST, at a gap of 30 s or more, at 120 s or more from the segment's start) if and only if the stream is undisturbed: no packet of another flow comes between two packets of one such segment and finds it stale |
| FlowIndependence.InterleavingIndependence | traffic_engine/session_builder/session_builder.py:21-49 | for every stream the emitted sessions of a flow followed by its active one are the sessions of a segmenter that sees only that flow, if and only if the stream is undisturbed; and exactly when the flow still has an active session |
| FlowIndependence.OrderedIsUndisturbed | traffic_engine/session_builder/session_builder.py:127-140 | non-decreasing timestamps leave every flow undisturbed |
| FlowIndependence.OrderedTimesAreIndependent | traffic_engine/session_builder/session_builder.py:21-49 | so under them the sessions are those of the flow alone, and the last is active unless it ended or is stale at the last packet of any flow |
| FlowIndependence.DisturbedIff | traffic_engine/session_builder/session_builder.py:127-140 | two packets of a flow with one other packet between them are cut apart by it if and only if it finds the first stale and the second would not |
| FlowIndependence.SameFlowSameSessions | traffic_engine/session_builder/session_builder.py:21-49 | two undisturbed streams with the same packets of a flow make the same sessions of it, whatever else they carry |
| FlowIndependence.OutOfOrderTimesBreakIndependence | traffic_engine/session_builder/session_builder.py:127-140 | two concrete out-of-order streams: in one another flow's packet splits the flow's session, in the other it does not |
| SessionGuarantees.SegmentsPartitionFlow | traffic_engine/session_builder/session_builder.py:21-49 | for every stream, the segments of a flow concatenate to exactly its packets in arrival order |
| SessionGuarantees.SegmentsWellShaped | traffic_engine/session_builder/session_builder.py:127-153 | even with out-of-order times every segment has all consecutive gaps below 30 s, every packet less than 120 s after the first, and no packet after FIN or RST |
| SessionGuarantees.PacketConservation | traffic_engine/session_builder/traffic_session.py:52-59 | at every reachable state the emitted records of a flow and its active one hold exactly its packets in order, and packet and byte totals add up |
| SessionGuarantees.EverySessionIsSound | traffic_engine/session_builder/traffic_session.py:52-110 | every record ever made has well-shaped timing, counters that agree with its lists, and the flags and transport fields of its packets |
| SessionGuarantees.SettledBetweenPackets | packet_capture/processor/packet_processor.py:402-532 | after each packet no active session is finished, none is stale at that packet's time, no finalization is pending |
| SessionGuarantees.ProcessNothingDue | traffic_engine/session_builder/session_builder.py:59-103 | a packet leaves no prediction overdue, and one that ends its session triggers a prediction |
| SessionGuarantees.NoOverduePrediction | traffic_engine/session_builder/session_builder.py:59-103 | in every reachable state a session that is old and long enough was predicted less than 5 of its packets and less than 1 s of its time ago |
| Predictions.PredictsExactly | traffic_engine/session_builder/session_builder.py:59-103 | in every run a packet triggers a prediction if and only if it ends its session, or its session has at least five packets and 1 s and had no prediction for five packets or 1 s: a function of the session's own packets |
| Predictions.NeverTooEarly | traffic_engine/session_builder/session_builder.py:72-91 | no prediction before the fifth packet and the first second, except at the end of the flow |
| SessionGuarantees.EmissionsExplained | traffic_engine/session_builder/session_builder.py:105-153 | each finalized record is finished exactly when its reason is flow_end; idle_timeout means idle for 30 s at the triggering packet, max_duration 120 s old and not idle |
| EmissionOrder.ExpiredInOpeningOrder | traffic_engine/session_builder/session_builder.py:127-153 | with each packet, expired sessions of different flows are handed on in the order in which they were opened, the packet's own ended session last |
| SessionBuilder.SessionBuilder.CollectStale | traffic_engine/session_builder/session_builder.py:129-140 | the first loop lists exactly the stale keys in insertion order, each with its reason |
| SessionBuilder.SessionBuilder.ExpireStaleSessions | traffic_engine/session_builder/session_builder.py:127-153 | the two loops on the object refine `Expire` |
| SessionBuilder.SessionBuilder.ProcessPacket | traffic_engine/session_builder/session_builder.py:21-49 | the method refines `ProcessPacket` on values and returns the updated session |
| SessionBuilder.SessionBuilder.ShouldPredict | traffic_engine/session_builder/session_builder.py:59-103 | the method returns and records what the value function says |
| SessionBuilder.SessionBuilder.FinalizeSessionIfNeeded | traffic_engine/session_builder/session_builder.py:105-125 | the method removes and returns the packet's session exactly when it has ended |
| SessionBuilder.SessionBuilder.DrainFinalizedSessions | traffic_engine/session_builder/session_builder.py:155-159 | returns all pending records and leaves none |
| SessionBuilder.PacketProcessor.Process | packet_capture/processor/packet_processor.py:402-532 | build, drain, predict, finalize in this order refine `Process` on values, the machine of the run theorems |
| Features.GapTotalTelescopes | feature_engine/stats.py:45-75 | after sorting no gap is negative, so cleaning drops none, and the total is the greatest timestamp minus the least |
| Features.IatStatsAre | feature_engine/stats.py:55-75 | the gap statistics are the least and greatest gap between neighbours of the sorted times, the span over their number, and the deviation of the gaps |
| Features.SortedIsPermutation | feature_engine/stats.py:55-56 | the sorted timestamps are an ordered permutation of the given ones |
| Features.TotalIsDurationIff | feature_engine/extractors/session_feature_extractor.py:36-72 | `fwd_iat_total` equals `flow_duration` if and only if the first packet is the earliest and the last the latest; so always under non-decreasing times |
| Features.LateFirstPacketBreaksTotal | feature_engine/extractors/session_feature_extractor.py:36-72 | packets at 10 s and 0 s make a session of duration 0 and inter-arrival total 10 |
| Features.ForwardFeaturesCollapse | feature_engine/extractors/session_feature_extractor.py:42-72 | for a session of one directional key every forward length, gap and rate feature equals its flow counterpart, and the average packet size equals the mean packet length |
| Features.RatesAreTotals | feature_engine/extractors/session_feature_extractor.py:48-72 | each rate times the duration is the session's bytes, packets or forward packets; without duration rates are 0 |
| Features.LengthFeatures | feature_engine/extractors/session_feature_extractor.py:53-58 | the length features are bounds met by some packet, the mean and the population variance of the packet sizes, and its square root |
| Features.NineComparisons | feature_engine/extractors/session_feature_extractor.py:102-112 | nine statistics are compared |
| Features.CloseIff | feature_engine/extractors/session_feature_extractor.py:116-121 | close means within one millionth, absolutely or relative to either value |
| Features.ValidateAgainstIncrementalStats | feature_engine/extractors/session_feature_extractor.py:96-141 | the loop reports exactly the compared fields that are not close |
| Features.StatisticsNeverDiverge | feature_engine/extractors/session_feature_extractor.py:96-122 | in exact arithmetic every compared pair is equal, so nothing is ever reported |
| Features.EverySessionsFeatures | feature_engine/extractors/session_feature_extractor.py:36-94 | all of this holds of every session any packet stream produces: forward features and rate equal the flow ones, nothing diverges, the total telescopes; and under non-decreasing times `fwd_iat_total` is `flow_duration` |
| Text.AppendAddsLineIff | packet_capture/forwarding/disk_spill_store.py:46-52 | appending a line adds exactly that line to what is read back if and only if the file was empty or ended with a newline |
| Text.TornAppendMerges | packet_capture/forwarding/disk_spill_store.py:46-52 | after a torn write the new record becomes the tail of the torn line |
| Text.AppendCompletesLine | packet_capture/forwarding/disk_spill_store.py:46-52 | in every file, whole or torn, the lines after an append are those before the torn part and one line of the torn part and the record |
| Text.StripIs | response_engine/processed_command_store.py:42-43 | stripping takes exactly the white space off both ends |
| Text.LinesOfJoin | packet_capture/forwarding/disk_spill_store.py:138-149 | writing lines and reading them back gives the same lines |
| Text.ReadLinesAreWritable | packet_capture/forwarding/disk_spill_store.py:138-149 | every line read from any file can be written back unchanged |
| SpillLines.CutIsKth | packet_capture/forwarding/disk_spill_store.py:81-92 | the cut of discard falls right after the k-th decodable line |
| SpillLines.CutBeyond | packet_capture/forwarding/disk_spill_store.py:81-92 | with fewer decodable lines than asked, the whole file goes |
| SpillLines.DiscardDropsPrefix | packet_capture/forwarding/disk_spill_store.py:71-93 | discarding k removes exactly the first k payloads; the rest stay in order |
| SpillLines.CorruptLineHarmless | packet_capture/forwarding/disk_spill_store.py:125-136 | a corrupt line anywhere changes no payload |
| SpillLines.CompactionSplits | packet_capture/forwarding/disk_spill_store.py:154-158 | compaction keeps exactly the newest lines and evicts exactly the payloads of the others |
| DiskSpillStore.DiskSpillStore.Append | packet_capture/forwarding/disk_spill_store.py:46-54 | for any file, torn or not, the new lines and counter: the record completes the torn part if there is one, and the newest max lines stay exactly when 10·count exceeds 11·max; after a whole write with an honest counter, the counter stays the number of lines and within the bound |
| DiskSpillStore.DiskSpillStore.Compact | packet_capture/forwarding/disk_spill_store.py:154-158 | the file holds the newest max lines and the counter their number |
| DiskSpillStore.DiskSpillStore.PeekBatch | packet_capture/forwarding/disk_spill_store.py:56-69 | returns the first decodable payloads, at most max_items, corrupt lines skipped |
| DiskSpillStore.DiskSpillStore.FindCut | packet_capture/forwarding/disk_spill_store.py:81-90 | the search loop finds the position right after the count-th decodable line, or the end |
| DiskSpillStore.DiskSpillStore.DiscardBatch | packet_capture/forwarding/disk_spill_store.py:71-93 | the file becomes the `Discard` of its old lines and the counter the number left; nothing happens for count 0 or less |
| BackgroundPublisher.BackgroundPublisher.Submit | packet_capture/forwarding/background_publisher.py:64-85 | accepted exactly when the queue has room; otherwise only the drop counter changes, by one |
| BackgroundPublisher.BackgroundPublisher.RunOnce | packet_capture/forwarding/background_publisher.py:87-111 | one turn of the worker over any spill file, torn or not: the new queue, drop counter, lines and line counter, and the payloads delivered in order; a torn file is mended exactly by a turn that writes it |
| BackgroundPublisher.BackgroundPublisher.RunTurns | packet_capture/forwarding/background_publisher.py:87-111 | the worker loop for any number of turns over any spill file: queue, counters, lines, deliveries and whether the file is still torn are those of the turn function iterated |
| BackgroundPublisher.TurnsKeepCount | packet_capture/forwarding/disk_spill_store.py:43-54 | over any number of turns an honest line counter stays honest and within its bound |
| BackgroundPublisher.DrainsUpToRefusal | packet_capture/forwarding/background_publisher.py:110-144 | a live success replays the oldest payloads on disk, at most fifty, up to the first refusal, and exactly those leave the file |
| BackgroundPublisher.FailureSpills | packet_capture/forwarding/background_publisher.py:105-108 | a failed publish delivers nothing and appends its payload to the file, the newest lines staying past eleven tenths of the limit; without a store it is discarded |
| BackgroundPublisher.BackgroundPublisher.DrainSpillBacklog | packet_capture/forwarding/background_publisher.py:113-144 | the delivered prefix of the batch, up to the first failure, and nothing else leaves the file; the line counter is the number of lines left, or unchanged if nothing was delivered |
| BackgroundPublisher.TurnIsRunOnce | packet_capture/forwarding/background_publisher.py:87-144 | the protocol's steps for one uninterrupted turn leave exactly the queue, counters and lines that `RunOnce` leaves, and record the same deliveries |
| BackgroundPublisher.TurnsAreRunTurns | packet_capture/forwarding/background_publisher.py:87-144 | any number of uninterrupted turns of the protocol leaves what `RunTurns` leaves |
| PublisherGuarantees.ExactlyOnePlace | packet_capture/forwarding/background_publisher.py:64-144 | with one worker, in every interleaving with crashes and corrupt lines, each submitted payload is in exactly one of: refused, queued, in flight, delivered live, discarded without a store, lost from memory in a crash, evicted, on disk, replayed and removed |
| PublisherGuarantees.DropsAreCounted | packet_capture/forwarding/background_publisher.py:64-72 | with one worker the drop counter summed over restarts is the number of refused submissions, and the queue never exceeds its capacity |
| PublisherGuarantees.SpilledSurvivesCrashes | packet_capture/forwarding/disk_spill_store.py:46-93 | with one worker no crash costs a spilled payload: it is on disk, was evicted by compaction, or was replayed |
| PublisherGuarantees.RepeatsBounded | packet_capture/forwarding/background_publisher.py:113-144 | a payload is replayed at most once plus once for each crash, and all crashes together cause at most one batch of 50 repeats each |
| PublisherGuarantees.CrashRepeatsOneBatch | packet_capture/forwarding/background_publisher.py:121-144 | in every reachable state a crash causes repeats of at most 50 payloads, the first ones on disk, each of them once |
| PublisherGuarantees.DeliveriesInSubmissionOrder | packet_capture/forwarding/background_publisher.py:113-144 | with one worker, apart from repeats, replayed payloads are delivered in submission order, and live ones among themselves too |
| PublisherGuarantees.SpillFileBounded | packet_capture/forwarding/disk_spill_store.py:43-54 | while nobody else writes the file the counter is the number of lines and 10·lines is at most 11·max; the payloads on disk are in submission order |
| PublisherGuarantees.RefusedIffFull | packet_capture/forwarding/background_publisher.py:64-72 | a submission is refused exactly when the queue is full |
| PublisherGuarantees.NothingDiscardedWithStore | packet_capture/forwarding/background_publisher.py:105-108 | with a store no run discards a payload for a failed publish |
| PublisherGuarantees.EvictsOnlyOverLimit | packet_capture/forwarding/disk_spill_store.py:52-54 | only a spill that takes the counter past eleven tenths of the limit evicts, and it keeps the newest lines, as many as the limit |
| PublisherGuarantees.ConcurrentDrainsSafeIff | packet_capture/forwarding/disk_spill_store.py:71-93 | discarding two prefixes of the same file one after the other removes exactly the longer one if and only if one is empty or the longer is everything |
| PublisherPool.OneWorkerPool | packet_capture/forwarding/background_publisher.py:35-44 | the pool with one worker is the one-worker protocol, action for action |
| PublisherPool.PoolConserves | packet_capture/forwarding/background_publisher.py:64-144 | for any number of workers, with or without a store, each submitted payload is in exactly one place or was spilled once |
| PublisherPool.PoolExactlyOnePlace | ml/runtime/completed_flow_predictor.py:90-97 | any number of workers without a store: each submitted payload is in exactly one of: refused, queued, in flight, delivered, discarded on failure, lost from memory in a crash |
| PublisherPool.PoolDropsAreCounted | packet_capture/forwarding/background_publisher.py:64-72 | for any number of workers the drop counter over restarts is the number of refused submissions, and the queue keeps its bound |
| PublisherPool.OvertakesFewerThanWorkers | packet_capture/forwarding/background_publisher.py:37-43 | with n workers each live delivery overtakes fewer than n payloads submitted before it |
| PublisherPool.LiveOrderIff | packet_capture/forwarding/background_publisher.py:87-92 | live deliveries are in submission order in every run if and only if there is one worker |
| PublisherPool.SecondFirst | packet_capture/forwarding/background_publisher.py:87-92 | a concrete run of two or more workers that delivers the second payload before the first |
| PublisherPool.ConcurrentDiscardsSafeIff | packet_capture/forwarding/background_publisher.py:121-144 | two workers that peeked the same file and discard in turn remove exactly the replayed payloads if and only if one replayed none or the longer prefix was everything |
| PublisherPool.TwoDrainsLosePayload | packet_capture/forwarding/background_publisher.py:113-144 | a reachable state of two workers on one store in which a spilled payload is neither on disk, evicted nor ever delivered: why a store needs one worker |
| PublisherGuarantees.InvariantNext | packet_capture/forwarding/background_publisher.py:64-144 | every action of submitter, the one worker, crash or corruption keeps the protocol's invariant |
| WindowGuarantees.RunConsistent | threat_detection/heuristic.py:63-151 | in every reachable state the last-seen keys are the keys of the packet times and contain the keys of the other two maps |
| WindowGuarantees.StepDeque | threat_detection/heuristic.py:63-134 | what one packet, and the sweep it may trigger, does to any deque of any source |
| WindowGuarantees.WindowsSandwichHistory | threat_detection/heuristic.py:63-172 | for non-decreasing times and a source never evicted, each deque lies between the exact window of the full history and that window widened by one prune interval, and is exact in a window the packet itself entered; so the burst window of the packet's source always is |
| WindowGuarantees.ScoreSandwich | threat_detection/heuristic.py:153-213 | the score lies between those of the exact and of the widened deques, and equals the exact one when the packet enters all three windows |
| Scoring.ScoreIsByRules | threat_detection/heuristic.py:174-206 | for an ordered stream and a source never evicted, the score is the sum over the rules, stated over the packets: 2 without ports, 3 for an empty packet, 1 below 40 bytes, 1 for a sensitive port, 3 for 40 packets in 2 s, 3 for 15 ports in 5 s, 4 for 20 SYN-only packets in 3 s; between the sums for the exact and the widened windows, and exact when the packet enters all windows |
| Scoring.FewSourcesScore | threat_detection/heuristic.py:174-206 | the same in every run of a stream with at most max_tracked_ips sources |
| Scoring.FloodsAreSuspicious | threat_detection/heuristic.py:174-206 | twenty SYN-only packets in 3 s score at least 4, forty packets in 2 s or fifteen ports in 5 s at least 3, a packet without ports at least 2, an empty one at least 4 |
| Scoring.CleanIff | threat_detection/heuristic.py:174-206 | a score of 0 means that no rule applies to the exact windows; no rule on the widened windows means 0; an equivalence when the packet enters all windows |
| Scoring.TwentiethSyn | threat_detection/heuristic.py:201-206 | in a flood of SYN packets to port 8080 the nineteenth scores 0 and the twentieth exactly 4 |
| WindowGuarantees.FewSourcesNeverEvict | threat_detection/heuristic.py:139-151 | a stream with at most max_tracked_ips distinct sources evicts nobody in any run |
| WindowGuarantees.FewSourcesSandwich | threat_detection/heuristic.py:63-213 | so for such an ordered stream both sandwiches hold in every run, with no hypothesis on evictions |
| WindowGuarantees.ValidRunExists | threat_detection/heuristic.py:136-151 | every stream has a run: a sweep always finds the victims it needs |
| WindowGuarantees.SweepCountsSources | threat_detection/heuristic.py:104-151 | after a sweep max_tracked_ips sources remain if more were active, all active ones otherwise |
| WindowGuarantees.SweepClock | threat_detection/heuristic.py:167-172 | in every run the first packet sweeps and then each packet at least one interval after the last sweep, and nobody is evicted at any other |
| WindowGuarantees.SurvivorsAreActive | threat_detection/heuristic.py:113-134 | every survivor of a sweep has an event inside one of its windows |
| WindowGuarantees.LastSeenIsLastPacket | threat_detection/heuristic.py:63-66 | in every run the last-seen time of a tracked source is the time of its last packet |
| WindowGuarantees.EvictsLeastRecentlySeen | threat_detection/heuristic.py:139-151 | in every run the last packet of a source evicted for overflow is no later than that of any source still tracked |
| WindowGuarantees.SweptRunIsBounded | threat_detection/heuristic.py:167-172 | in every run, after each packet that made a sweep due, at most max_tracked_ips sources are tracked, each has an event inside a window, and no evicted source has a later last packet |
| HeuristicDetector.PopOlder | threat_detection/heuristic.py:68-70 | the popleft loop drops exactly the leading events before the cutoff |
| HeuristicDetector.SortByLastSeen | threat_detection/heuristic.py:143-146 | the order lists each source once, least recently seen first |
| HeuristicDetector.FirstOldestMayGo | threat_detection/heuristic.py:139-147 | the first sources of that order, as many as overflow, are a lawful choice of victims |
| HeuristicDetector.CollectEveryone | threat_detection/heuristic.py:113-134 | visiting each tracked source once, in any order, is the whole trim-and-forget sweep |
| HeuristicDetector.HeuristicDetector.AppendTime | threat_detection/heuristic.py:63-70 | appends, records the last-seen time and trims in place |
| HeuristicDetector.HeuristicDetector.AppendDstPort | threat_detection/heuristic.py:72-82 | the same for ports; nothing without a destination port |
| HeuristicDetector.HeuristicDetector.AppendSynOnly | threat_detection/heuristic.py:84-102 | the same for packets with SYN and without ACK; nothing otherwise |
| HeuristicDetector.HeuristicDetector.PruneTrackedIps | threat_detection/heuristic.py:104-151 | the sweep on the object is `Collect`, then forgetting a lawful choice of victims |
| HeuristicDetector.HeuristicDetector.EvaluatePacket | threat_detection/heuristic.py:153-213 | one packet on the object is a lawful `Step`; the decision carries the score of the new state and is suspicious from 2 on |
| HeuristicDetector.HeuristicDetector.EvaluatePackets | threat_detection/heuristic.py:153-213 | a detector over a stream decides, packet by packet, what a valid run of the model scores, suspicious from 2 on |
| AutoBlocker.FirewallAdapter.BlockIp | response_engine/firewall/linux_adapter.py:7-17 | adds one copy of the rule unless its own check finds one; a failed command changes nothing |
| AutoBlocker.FirewallAdapter.UnblockIp | response_engine/firewall/linux_adapter.py:19-23 | removes one copy; fails without a rule or when the command fails |
| LedgerGuarantees.BlockOrphans | response_engine/firewall/linux_adapter.py:7-27 | a block makes an orphan rule only by adding a second copy for an address that has its entry, when both existence checks failed to run; it adopts an orphan exactly when it finds one without an entry |
| AutoBlocker.AutoBlocker.SweepExpired | response_engine/auto_blocker.py:119-142 | the loop removes every expired entry from both maps, and the rules of those whose delete succeeded |
| AutoBlocker.AutoBlocker.TempBlock | response_engine/auto_blocker.py:49-113 | the method refines the value step: refusals, sweep, cooldown, already-blocked, block |
| AutoBlocker.AutoBlocker.ManualUnblock | response_engine/auto_blocker.py:29-47 | both entries go exactly when the firewall succeeded |
| AutoBlocker.AutoBlocker.IsCurrentlyBlocked | response_engine/auto_blocker.py:201-208 | the ledger answers before its deadline, else the firewall |
| AutoBlocker.AutoBlocker.WatchlistIp | response_engine/auto_blocker.py:172-183 | a routable address joins the watchlist; nothing else changes |
| AutoBlocker.AutoBlocker.UnwatchlistIp | response_engine/auto_blocker.py:185-196 | a watched address leaves the watchlist, any other is refused |
| LedgerGuarantees.LedgerWithinFirewall | response_engine/auto_blocker.py:29-142 | in every run, whatever fails, the two maps have the same keys; without outside edits each key has a rule |
| LedgerGuarantees.FirewallIsLedger | response_engine/auto_blocker.py:29-142 | with no failures and no outside edits the rules are exactly the ledger's keys, once each |
| LedgerGuarantees.SweepIsExactIff | response_engine/auto_blocker.py:115-142 | for every ledger and firewall, the rules after a sweep are exactly the addresses with a later deadline if and only if each live entry had one copy, each expired one at most one and a working delete or none, and no other address had any; in reachable states: no orphan rule before and no failed delete of an expired address |
| LedgerGuarantees.ExpireOrphans | response_engine/auto_blocker.py:120-142 | a sweep creates one orphan rule for exactly each expired address whose delete failed |
| LedgerGuarantees.OrphansStay | response_engine/auto_blocker.py:115-142 | while no operation names the address, no sweep ever removes an orphan rule |
| LedgerGuarantees.FailedDeleteOrphans | response_engine/auto_blocker.py:122-142 | a concrete run where one failed delete leaves an address blocked after the ledger forgot it |
| LedgerGuarantees.EntryStandsUntilSwept | response_engine/auto_blocker.py:115-142 | while no operation names an address its entry is unchanged if no sweep ran at or past its deadline, and gone if one did |
| LedgerGuarantees.CooldownIff | response_engine/auto_blocker.py:56-61 | after a block, a later attempt on the address is refused for cooldown if and only if no sweep has reached the deadline and less than 60 s have passed |
| LedgerGuarantees.ShortBlockEndsCooldown | response_engine/auto_blocker.py:56-61 | a block of one second is renewed two seconds later, its cooldown gone with its entry |
| LedgerGuarantees.BlockSetsEntry | response_engine/auto_blocker.py:63-78 | a successful block leaves a rule, and an entry that ends the requested seconds after it, one second at least |
| LedgerGuarantees.BlockIsEffective | response_engine/auto_blocker.py:49-113 | after a successful block, whatever else fails, the rule is present and the address reported blocked at every time before those seconds are over, until an operation names it |
| LedgerGuarantees.BlockEnds | response_engine/auto_blocker.py:115-142 | without failures the first sweep at or after that end removes the entry and the rule |
| LedgerGuarantees.BlockSucceedsIff | response_engine/auto_blocker.py:49-113 | a block succeeds if and only if, after the sweep, no cooldown of 60 s runs and a check finds a rule or the add works; otherwise only the sweep happened |
| LedgerGuarantees.CooldownAfterBlockIff | response_engine/auto_blocker.py:56-61 | after a block a further attempt is refused for cooldown if and only if no sweep has reached its end and less than 60 s have passed |
| LedgerGuarantees.Refusals | response_engine/auto_blocker.py:29-54 | without a firewall or for an address that is not routable, blocks and unblocks fail and change nothing |
| LedgerGuarantees.UnblockActs | response_engine/auto_blocker.py:29-47 | an unblock succeeds if and only if the delete works and there is a rule; then one copy and both entries of the address go, and nothing else |
| LedgerGuarantees.WatchlistActs | response_engine/auto_blocker.py:172-196 | the watchlist gains or loses exactly the address, and nothing else changes |
| LedgerGuarantees.CountsBlocks | response_engine/auto_blocker.py:75-79 | the block counter counts the successful attempts that got past the first check |
| LedgerGuarantees.AnswerIsRightIff | response_engine/auto_blocker.py:201-208 | in every reachable state the answer yes is right; the answer is wrong if and only if the firewall could not be asked about a rule whose entry has run out or that is an orphan |
| CommandGuarantees.LoadOfSaved | response_engine/processed_command_store.py:55-81 | loading a saved list gives it back, its newest max_command_ids if it is longer, from an object or a bare list; anything else is no list |
| CommandGuarantees.CleanKeepsFirst | response_engine/processed_command_store.py:68-75 | loading keeps exactly the nonblank ids, each at its first occurrence |
| CommandGuarantees.RestartUnobservable | response_engine/processed_command_store.py:30-81 | in every reachable state, whatever the file held at first, a restart leaves the id list and the file unchanged |
| CommandGuarantees.RemembersNewest | response_engine/processed_command_store.py:30-39 | the remembered ids are exactly the newest max_command_ids of all that succeeded |
| CommandGuarantees.ForgottenIff | response_engine/processed_command_store.py:34-39 | an id is forgotten if and only if at least max_command_ids distinct ids came after its last success |
| CommandGuarantees.AtMostOnce | packet_capture/processor/packet_processor.py:147-174 | after any deliveries, duplicates, failures, local operations and restarts, a command whose id succeeded before acts again if and only if at least max_command_ids distinct other ids have succeeded since |
| CommandGuarantees.ExecutesIff | packet_capture/processor/packet_processor.py:154-171 | a command acts if and only if it is well formed with a known action and its id is blank or not remembered |
| CommandGuarantees.OnlyExecutionActs | packet_capture/processor/packet_processor.py:154-174 | a command that is not executed changes nothing; an executed one acts on the ledger as its operation does |
| CommandGuarantees.BlockCommand | packet_capture/processor/packet_processor.py:149-163 | an executed block that succeeds leaves a rule and an entry for the requested seconds, 300 if none or zero are named, one at least; one that fails only sweeps |
| CommandGuarantees.UnblockCommand | packet_capture/processor/packet_processor.py:164-165 | an executed unblock succeeds exactly when firewall, routable address, working delete and rule are there; then one copy of the rule and both entries go |
| CommandGuarantees.WatchlistCommands | packet_capture/processor/packet_processor.py:166-169 | the two watchlist commands add and remove exactly the address |
| CommandGuarantees.RefusedCommands | packet_capture/processor/packet_processor.py:151-171 | blank action or address, processed id, and any action text but the four are refused, each with its own answer, and change nothing |
| CommandGuarantees.RestartKeepsRules | response_engine/auto_blocker.py:12-21 | a restart forgets entries, counters and watchlist and keeps the rules |
| CommandGuarantees.RedeliveryIsIdempotent | packet_capture/processor/packet_processor.py:156-174 | delivering an accepted command again at once changes nothing and is answered duplicate_command |
| CommandProcessor.ProcessedCommandStore.constructor | response_engine/processed_command_store.py:8-21 | the store starts with the list loaded from its file |
| CommandProcessor.ProcessedCommandStore.LoadIds | response_engine/processed_command_store.py:55-75 | the loop with a seen-set keeps the distinct nonblank ids in first-occurrence order, newest max |
| CommandProcessor.ProcessedCommandStore.Contains | response_engine/processed_command_store.py:23-28 | true exactly for a nonblank id in the list |
| CommandProcessor.ProcessedCommandStore.Add | response_engine/processed_command_store.py:30-39 | the list gains a new nonblank id at its end, is cut to the newest max and saved; otherwise list and file are unchanged |
| CommandProcessor.CommandProcessor.ApplyBackendCommand | packet_capture/processor/packet_processor.py:147-199 | the handler over store and blocker refines `Apply` on values |
| DatasetSplit.SelectRow | ml/datasets/split_prepared_cicids2018.py:99-118 | the decision and counters of one row |
| DatasetSplit.SplitChunk | ml/datasets/split_prepared_cicids2018.py:96-118 | the index lists of a chunk are the places of each side of the selection mask |
| DatasetSplit.CountLabels | ml/datasets/split_prepared_cicids2018.py:177-202 | the counting pass yields the label counts of the cleaned rows over all files, one map for any chunk size |
| DatasetSplit.CountsAreOccurrences | ml/datasets/split_prepared_cicids2018.py:187-197 | each label is counted as often as it occurs; no counts mean no rows |
| DatasetSplit.ComputeTestTargets | ml/datasets/split_prepared_cicids2018.py:205-214 | the loop gives each counted label its target |
| DatasetSplit.SplitPreparedDataset | ml/datasets/split_prepared_cicids2018.py:48-144 | the program rejects bad sizes and empty data; otherwise outputs and counters are `SplitOf` the cleaned rows, the share and the draws |
| SplitGuarantees.ChunkingIsUnobservable | ml/datasets/split_prepared_cicids2018.py:94-144 | two runs over the same rows in different files and chunks agree in everything they produce |
| SplitGuarantees.SplitIsExact | ml/datasets/split_prepared_cicids2018.py:94-118 | for every sequence of draws each label sends exactly its target number of rows to test and the rest to train |
| SplitGuarantees.OutputsAreStratified | ml/datasets/split_prepared_cicids2018.py:94-144 | end to end: each label has its target share of rows in the test file and all others in the training file |
| SplitGuarantees.PartitionInOrder | ml/datasets/split_prepared_cicids2018.py:96-138 | every row is at exactly one place of one output, and both outputs keep the order of the rows |
| SplitGuarantees.NeverDividesByZero | ml/datasets/split_prepared_cicids2018.py:100-109 | the number of rows left is at least one whenever it could be divided by |
| SplitGuarantees.TargetIsNearest | ml/datasets/split_prepared_cicids2018.py:205-214 | a target is within the count, leaves a training row when the label has two, and is the rounded share except where that would take all rows |
| SplitGuarantees.RoundIsNearest | ml/datasets/split_prepared_cicids2018.py:208 | rounding is to nearest, ties to even |
| SplitGuarantees.PicksBelowChance | ml/datasets/split_prepared_cicids2018.py:103-109 | with draws in [0,1) the forced and the skipped branches agree with the plain rule: test if the draw is below test rows outstanding over rows left |
| SplitGuarantees.LoopRatios | ml/datasets/split_prepared_cicids2018.py:101-102 | the loop's counters give the ratio that the probability of a decision multiplies by |
| SplitGuarantees.SplitIsUniform | ml/datasets/split_prepared_cicids2018.py:99-118 | under independent uniform draws every choice of the right number of a label's rows has the same probability, one over the binomial coefficient |
| SplitGuarantees.EverySplitPossible | ml/datasets/split_prepared_cicids2018.py:99-118 | every division with the right counts is produced by some draws in [0,1) |
| ConfusionMatrix.StreamConfusionMatrix | ml/training/train_xgboost_cicids2018.py:299-329 | cell (i, j) of the array is the number of cleaned rows labelled with class i and predicted as class j; the pass fails exactly when some cleaned row has an unknown label |
| ConfusionMatrix.StreamEvaluationConfusion | ml/evaluation/test_xgboost_cicids2018.py:141-186 | cell (i, j) of the array is the number of cleaned rows labelled with class i and predicted as class j; the rows evaluated are those with a known label, the others are counted as filtered |
| ConfusionMatrix.Encode | ml/evaluation/test_xgboost_cicids2018.py:168 | a known label is encoded as its first position among the classes |
| ConfusionMatrix.CountRows | ml/evaluation/test_xgboost_cicids2018.py:176-178 | the inner loop adds the pairs of one chunk to the matrix |
| Metrics.WeightedRecallIsAccuracy | ml/training/train_xgboost_cicids2018.py:347-364 | weighted recall equals accuracy for every matrix |
| Metrics.MetricsInRange | ml/training/train_xgboost_cicids2018.py:341-364 | precision, recall, F1 and all averages lie in [0,1], and each F1 lies between its precision and recall |
| Metrics.HarmonicBetween | ml/training/train_xgboost_cicids2018.py:353-358 | F1 is zero exactly when precision or recall is |
| Metrics.F1IsDice | ml/training/train_xgboost_cicids2018.py:353-358 | F1 is twice the diagonal cell over row plus column |
| Metrics.AccuracyIsAgreement | ml/training/train_xgboost_cicids2018.py:364 | on the matrix of the counted pairs accuracy is the share of rows predicted right |
| Metrics.FprsAgree | ml/evaluation/test_xgboost_cicids2018.py:131-138 | on the matrix of the counted pairs the false-positive rate equals the rate counted row by row over the same pairs |
| Metrics.StreamedFprOverRows | ml/evaluation/test_xgboost_cicids2018.py:131-138 | on the array the loops fill, the false-positive rate is the share, among the rows of a known class other than "Normal Traffic", of those predicted as it; 0 if there are none or no such class |
| Metrics.WeightedIsMeanOverRows | ml/training/train_xgboost_cicids2018.py:360-363 | every weighted average is the mean over the evaluated rows of the metric of the row's own class |
| Metrics.PrecisionRecallOverPairs | ml/training/train_xgboost_cicids2018.py:341-352 | precision is the share of right ones among the rows predicted as the class, recall among the rows of the class |
| Metrics.CellsDecideMetrics | ml/training/train_xgboost_cicids2018.py:336-364 | every metric depends on the cells of the classes only |
| Metrics.CellsDecideFpr | ml/evaluation/test_xgboost_cicids2018.py:135-138 | so does the false-positive rate |
| Metrics.CountedArrayMetrics | ml/evaluation/test_xgboost_cicids2018.py:93-101 | on the array that the counting loops fill, read as a list of rows, accuracy is the share of rows predicted right and the false-positive rate the one counted row by row |
| Metrics.CountsSplit | ml/evaluation/evaluate_cicids2018.py:88-93 | the row-by-row counts: predicted normals are false positives plus the diagonal cell, and all rows are actual normals, false positives or true negatives |

## Left out

- Session objects inside the builder: the builder's dictionary holds session values, so a caller that keeps the returned session and sees later updates through it is not captured. The in-place update of one session object is proved separately in the class `TrafficSession`.
- Deques, the last-seen map and the id list are fields holding sequences and maps that the methods reassign; sharing of one deque between callers does not occur in the source and is not modelled.
- Locks: each lock region and each publish call is one atomic step. Races on the unlocked fields of the blocker and of sessions are not modelled.
- Floating point: rounding, infinities, NaN and overflow; `std` enters only through a square-root parameter with sqrt(0) = 0.
- JSON text, universal newlines and character encodings: payloads go through an abstract codec, command files through a small payload type. A `command_ids` entry that is not a list makes the original raise and is not modelled.
- A crash in the middle of a file operation, apart from the torn append; and a crash between a command's effect and the saving of its id, after which the command acts again.
- Firewall subprocesses: a failed command is taken to change nothing and a successful one to take effect. The rule multiset follows iptables; deleting by name on Windows removes all copies at once.
- The address check, lower-casing of action texts, the row cleaner and the model's predictions are arbitrary functions.
- Malformed numbers in packets and commands, for which the original raises.
- Reasons of a heuristic decision as text, and the disabled state of the detector, which no code sets.
- Block records, activity tracking, alerts, telemetry, logging, and block events published after a command.
- Features copied from the session unchanged: destination port, protocol, flag counts, header length, window, data packets and least segment; what they are in the session is proved.
- Packet capture, parsing, HTTP and WebSocket transport, registration, model training and loading, report files.
- `ResponsePolicy`, the telemetry collector and the activity tracker: bounded counters simpler than the ones proved here.
- Order between a live delivery and older backlog: the original sends the live payload first; order is claimed within each kind.
- Existing-output checks, headers, hashes and metadata text of the split program.
- Several workers on one spill store: beyond conservation of submissions, the drop count, the overtaking bound and the concurrent discards nothing is claimed; the engine builds no such publisher.
- Damage to the spill file from outside is the insertion of corrupt lines; overwriting or deleting stored payloads while the engine runs is not modelled.
- SplitGuarantees.SplitIsUniform: the probability of a decision is the product of the loop's ratios per label; independence and uniformity of the draws themselves are not modelled.
