# StrikeMQ, modelled and proved

StrikeMQ is a single-process broker that speaks the Kafka protocol. This project models its cores in
Dafny and proves what they promise: for every input, every run, and every interleaving.

| file | what it models |
|---|---|
| `Options.dfy`, `Bits.dfy`, `Bytes.dfy` | optional values, 64-bit counters that wrap, bitwise operators on words, big-endian integers |
| `SpscRing.dfy`, `MpscRing.dfy` | the two lock-free queues, one step per atomic load, store and compare-and-swap |
| `ConsumerGroups.dfy`, `GroupRuns.dfy`, `GroupMembers.dfy`, `GroupManager.dfy` | the group coordinator: its requests on values, facts over whole runs, who is a member and what replies say, the manager in place |
| `ByteRing.dfy`, `Frames.dfy` | the circular buffer, and frame extraction on top of it |
| `Varint.dfy`, `RecordBatch.dfy`, `KafkaRecords.dfy` | zigzag varints, the batch writer and the Kafka decoder, records of every shape the format has (the v2 format, sections 5.3.1 and 5.3.2 of the Apache Kafka documentation) |
| `LogModel.dfy`, `LogRuns.dfy`, `LogReads.dfy`, `PartitionLog.dfy` | the partition log: the scan of a segment, appends and rolls, what a read returns of the whole log, the log in place |
| `LogReader.dfy` | lock-free readers racing the appender, step by step |
| `RestPeek.dfy`, `RestRuns.dfy` | the REST record writer and the REST peek; produce, then peek, through rolls and the index |
| `Grouping.dfy`, `Responses.dfy` | the four responses grouped by topic, field by field, with a typed reader of each |
| `ShardedMap.dfy` | the sharded registry of logs, with iterations among other operations |
| `BlockPool.dfy` | the intrusive freelist allocator and the buffers that own its blocks |
| `Wakeup.dfy` | handing connections to workers through rings and wakeup pipes |

How it is built:

- Code that changes state in place is a class or a method with loops, proved against functions on
  values. The theorems are about those functions and about runs of them.
- Concurrent code is a step machine: a run is any sequence of enabled steps of any threads. Fields
  called history record what happened; no step of the code reads them. Memory is sequentially
  consistent; the interleavings are all there, weak memory orders are not.
- Clock readings, generated member ids, the order in which a hash map is walked, what a socket
  delivers and where a mapping lies are inputs, so every theorem holds for all of them.
- Counters are explicit 64-bit words where the code lets them wrap.

Where the code does not do what its comments or its other half suggest, the code is kept, a lemma
shows a run or an input, and another says exactly when it does work:

- The multi-producer `try_pop` compares wrapped counters with `>=`, which is right exactly while both
  are in one lap (`PopTestIffSameLap`). When the head passes 2^64 the queue stalls (`WrapStalls`) and stays
  so (`StalledForever`): from then on at most the pop in progress completes
  (`NothingPoppedAfterWrap`), so no run ever delivers 2^64 items (`NeverDelivered`). A run gets there, and
  its last push is accepted and never delivered (`AcceptedAndLost`).
- Its `try_push` may refuse on an empty ring (`StaleHeadRefused`): it refuses exactly when the ring is
  full, or when its own copy of the head has fallen behind the tail (`RefusedIff`).
- After a segment roll `read` looks only at the active segment, and its index still holds positions of
  old ones. It returns what the whole log holds from the start on exactly when the log never rolled, or the
  start is behind the first active batch, or behind all earlier batches while the last entry
  before the roll is at byte 0 (`ReadsWholeLogIff`). After three messages posted over REST, a read of
  offset 2 gets nothing, and a read of offset 0 silently skips to offset 2 (`ReadersAtRoll`).
- `read` says it finds the batch that contains or follows the start. Over every run each offset is in
  exactly one batch, and the first batch returned is that one exactly when the start is its base and no
  empty batch has the same; from inside a batch that batch is skipped (`StartInsideBatchIff`). After one request of two
  messages a read of offset 1 gets nothing (`SecondMessageSkipped`).
- A sync that succeeds answers an assignment given at its own generation exactly when a sync of that
  generation taken over so far names the member; otherwise the member is answered without error what it
  has held throughout the generation (`SyncAnswersCurrentIff`). Two runs answer a follower the
  previous generation's assignment: it syncs before its leader (`OldAssignmentAnswered`), or after a
  leader whose list leaves it out, the group being stable (`LeftOutAnswered`).
- A heartbeat's 0 means that the group is stable, unless member and generation match and everybody, its
  caller included, expires in that very heartbeat (`HeartbeatOkMeansStableIff`, `HeartbeatOkToNobody`).
- A readable event that sees the end of the stream closes without routing: it loses exactly the frames
  its own bytes complete (`EndLosesItsOwnFrames`), so a client that sends a request and finishes is
  answered or not by timing (`RequestThenEnd`).
- A frame larger than the read ring but below the limit is never refused and never completes
  (`FullRingStuckIff`).
- A drain that finds more than 64 descriptors forgets the rest (`LostWakeup`, `DrainForgetsIff`).
- The peek reads the first timestamp two bytes early (`PeekedTimestamp`), and right only where the two
  numbers coincide (`PeekedTimestampRightIff`).

## Model

| member | source | states |
|---|---|---|
| `Bits.MaskIsMod` | include/utils/ring_buffer.h:32 | masking with a power of two less one is the remainder, for every word |
| `Bits.CapacityDividesWord` | include/utils/ring_buffer.h:15-19 | a capacity divides 2^64, so wrapped counters still name the same slots |
| `Bits.XorOnes` | src/http/http_server.cpp:981 | exclusive or with all ones is the complement, for every word |
| `Bits.OrDisjoint` | src/http/http_server.cpp:787 | or of numbers without a common bit is their sum |
| `SpscRing.StepKeeps` | include/utils/ring_buffer.h:25-69 | every atomic step of either thread keeps cached tail <= tail <= cached head <= head <= cached tail + capacity, each slot of a waiting item holds it, and the wrapped counters are those counters modulo 2^64 |
| `SpscRing.StepRefinesFifo` | include/utils/ring_buffer.h:25-69 | every step is a step of a bounded first-in first-out queue or changes nothing; a push is refused only when the queue is full at its load of the tail, a pop finds nothing only when it is empty at its load of the head |
| `SpscRing.BatchTakesAllQueued` | include/utils/ring_buffer.h:60-64 | a batch takes everything queued at its load of the head, up to its limit |
| `SpscRing.RunIsFifo` | include/utils/ring_buffer.h:25-69 | over every interleaving of any length, also across counter wraparound: what was popped is a prefix of what was pushed, and at most a capacity lies between |
| `SpscRing.HoldsArgument` | include/utils/ring_buffer.h:25-35 | in every run the producer is in a call from its start exactly until it returns, with the item it was called with |
| `SpscRing.PushedIsArgument` | include/utils/ring_buffer.h:25-35 | what a push reports as taken is the item it was called with |
| `SpscRing.BatchReturnsAsked` | include/utils/ring_buffer.h:60-69 | over every interleaving a batch returns as many items as it was asked for, or as were queued when it loaded the head |
| `SpscRing.IsWaitFree` | include/utils/ring_buffer.h:25-69 | every own step brings a push, pop or batch nearer to its end, no step of the other side sets it back, and it ends with an answer |
| `SpscRing.PopEachTakes` | include/utils/ring_buffer.h:60-69 | a batch pop equals that many single pops |
| `SpscRing.SpscQueue.TryPush` | include/utils/ring_buffer.h:25-35 | in place, undisturbed: true exactly if there was room, and then the contents have the item at the end |
| `SpscRing.SpscQueue.TryPop` | include/utils/ring_buffer.h:49-58 | in place, undisturbed: the oldest item, or nothing exactly when empty |
| `SpscRing.SpscQueue.TryPopBatch` | include/utils/ring_buffer.h:60-69 | in place, undisturbed: the oldest items up to the limit, in order, and the rest stays |
| `MpscRing.StepKeeps` | include/utils/ring_buffer.h:95-116 | for any number of producers, every step keeps at most a capacity of tickets outstanding, each owned by at most one producer, and a committed slot holding its ticket's item |
| `MpscRing.OwnSlotsDiffer` | include/utils/ring_buffer.h:95-106 | no two producers ever own the same slot |
| `MpscRing.RunDeliversInTicketOrder` | include/utils/ring_buffer.h:95-116 | over every interleaving below 2^64 tickets, the popped items are a prefix, in ticket order, of the items whose compare-and-swap won |
| `MpscRing.HoldsArgument` | include/utils/ring_buffer.h:95-106 | in every run a producer is in a call from its start exactly until it returns, through lost swaps and retries, with the item it was called with |
| `MpscRing.AcceptedIsArgument` | include/utils/ring_buffer.h:95-106 | the item a ticket is won with, and the item reported as accepted, is that of the producer's last call, with no return since |
| `MpscRing.PushIsLockFree` | include/utils/ring_buffer.h:95-106 | every step of a push brings it nearer to its end, except a swap that fails spuriously or because somebody has won a ticket since the push last read the head, which it then reads again |
| `MpscRing.PopIsWaitFree` | include/utils/ring_buffer.h:108-116 | every step of a pop brings it nearer to its end, and it ends with an answer |
| `MpscRing.NoItemIff` | include/utils/ring_buffer.h:108-112 | in every run below 2^64 tickets a pop finds nothing exactly if every ticket is popped, or the oldest that is not is still being written |
| `MpscRing.AcceptedHasItsTicket` | include/utils/ring_buffer.h:95-106 | a push that returned true has its item in that order under its ticket |
| `MpscRing.AcceptedTicketsDiffer` | include/utils/ring_buffer.h:95-106 | no ticket is accepted twice in a run |
| `MpscRing.GivenBackStaysOut` | include/utils/ring_buffer.h:95-106 | a ticket issued and committed is never owned again |
| `MpscRing.QuietPopReturnsNext` | include/utils/ring_buffer.h:108-116 | with no push in progress a pop returns the oldest waiting item: nothing is lost |
| `MpscRing.StaleHeadRefused` | include/utils/ring_buffer.h:96-98 | a run in which a push is refused although the ring is empty |
| `MpscRing.RefusedIff` | include/utils/ring_buffer.h:96-98 | in every run below 2^64 tickets, a push is refused exactly when the ring is full to the head it loaded, or that head has fallen behind the tail by at most 2^64 less the capacity |
| `MpscRing.PopTestIffSameLap` | include/utils/ring_buffer.h:109-110 | the wrapped emptiness test is the true one exactly while head and tail are in the same lap |
| `MpscRing.WrapStalls` | include/utils/ring_buffer.h:95-116 | the compare-and-swap that takes ticket 2^64 - 1 enters the stalled state from every invariant state, whatever other producers and the consumer are doing |
| `MpscRing.StalledForever` | include/utils/ring_buffer.h:95-116 | every step of any thread, a stale producer or the pop in progress included, keeps the stalled state, and the pops done or under way never grow |
| `MpscRing.NothingPoppedAfterWrap` | include/utils/ring_buffer.h:95-116 | in every run, after the head has passed 2^64 at most the pop then in progress completes |
| `MpscRing.NeverDelivered` | include/utils/ring_buffer.h:95-116 | in every run that issues 2^64 tickets there is such a passing, and fewer than 2^64 items are popped however long the run goes on |
| `MpscRing.AcceptedAndLost` | include/utils/ring_buffer.h:95-116 | for every capacity below 2^63 a run of 2^64 pushes whose last is accepted and, by the lemma above, never popped |
| `GroupRuns.RespondMoves` | include/storage/consumer_group.h:98-333 | every request keeps a group well-formed (empty exactly without members, leader a member, offsets and metadata with the same keys, never dead), and membership or leader change only with a new generation or to nobody |
| `GroupRuns.RunWellFormed` | include/storage/consumer_group.h:98-424 | in every reachable state every group is well-formed |
| `GroupRuns.GenerationsGrow` | include/storage/consumer_group.h:179-187 | over every run generations never decrease |
| `GroupRuns.MembershipFixed` | include/storage/consumer_group.h:98-424 | as long as a generation lasts with members present, membership and leader are fixed |
| `GroupMembers.SessionIs` | include/storage/consumer_group.h:98-424 | in every reachable state, who is a member, with which clock reading, timeout and protocols, is what a reference of that member's own requests says: it joined and was let in, has not left, and was not late at any heartbeat of its group |
| `GroupMembers.MemberJoined` | include/storage/consumer_group.h:98-315 | every member joined, was let in, and has been a member and not left since |
| `GroupMembers.LeftStaysOut` | include/storage/consumer_group.h:288-315 | who has left is no member at any later time unless it joins again |
| `GroupMembers.HeartbeatThrowsOutLate` | include/storage/consumer_group.h:266-286 | a matching heartbeat throws out exactly the members that are late, its caller judged by the new clock reading |
| `GroupMembers.GenerationCountsRebalances` | include/storage/consumer_group.h:98-424 | in every run the generation is the number of joins let in that were no rejoin of a stable group, leaves of members, and heartbeats that found some but not all members late |
| `GroupMembers.PhaseIs` | include/storage/consumer_group.h:98-424 | a group with members that is not stable is completing a rebalance if the last one was started by a join, preparing one if not |
| `GroupMembers.LeaderLeads` | include/storage/consumer_group.h:98-424 | the leader leads as long as it is a member, over all generations |
| `GroupMembers.JoinAnswers` | include/storage/consumer_group.h:98-215 | a join is refused with 25 exactly if it names an id that a group with members does not know, and then changes nothing of it; otherwise it is a member and is told generation, protocol and leader, the generation new unless it rejoined a stable group |
| `GroupMembers.MetadataIsFirst` | include/storage/consumer_group.h:98-215 | a member's metadata for a protocol is its first entry of that name |
| `GroupMembers.LeaderListCarries` | include/storage/consumer_group.h:98-215 | the leader is given for each member listed what that member last said of the protocol chosen |
| `GroupMembers.JoinChoosesCommon` | include/storage/consumer_group.h:179-187 | a join that starts a generation answers a protocol that all members support, if there is one |
| `GroupMembers.SyncAnswersError` | include/storage/consumer_group.h:217-264 | a sync is answered 25 from who is no member, 22 for another generation, otherwise 0 |
| `GroupMembers.HeartbeatAnswersError` | include/storage/consumer_group.h:266-286 | a heartbeat is answered the same, or 27 if members are left and the group is not stable |
| `GroupMembers.LeaveAnswers` | include/storage/consumer_group.h:288-315 | a leave of a member takes out that member alone, in a new generation, keeps the offsets, and the leader unless it is the one that leaves; of anybody else it changes nothing, and is answered 25 if the group exists |
| `GroupRuns.OneAssignerPerGeneration` | include/storage/consumer_group.h:217-264 | all assignments taken over in one generation come from one member |
| `GroupRuns.LeaderKnowsMembership` | include/storage/consumer_group.h:98-264 | when a leader's sync of a generation is taken over, the member list its join reply of that generation gave is exactly the membership, each member once |
| `GroupRuns.Fenced` | include/storage/consumer_group.h:217-286 | once a generation has passed, no later sync or heartbeat carrying it succeeds or changes anything |
| `GroupRuns.StableIsAssigned` | include/storage/consumer_group.h:217-264 | a stable group has had a sync of its leader taken over at exactly its generation and with its present members; every member that sync names holds what it gave, every other what it held before |
| `GroupRuns.AssignedIsStable` | include/storage/consumer_group.h:217-264 | conversely, in every run, while a generation whose sync was taken over lasts and has members the group is stable |
| `GroupRuns.SyncedIsStableIff` | include/storage/consumer_group.h:217-264 | after a successful sync the group is stable exactly when some sync of its generation has been taken over |
| `GroupRuns.MemberHolds` | include/storage/consumer_group.h:98-264 | in every reachable state every member holds what the last sync that named it since it became a member gave it, or nothing |
| `GroupRuns.SyncAnswersCurrentIff` | include/storage/consumer_group.h:217-264 | in every run, the answer of a successful sync was given at its generation exactly when a sync of that generation taken over so far, itself included, names the member, and then it is what the last of these gave; otherwise it is what the member has held at every moment of the generation |
| `GroupRuns.OldAssignmentAnswered` | include/storage/consumer_group.h:253-262 | a run in which a follower syncs at generation 3 and is answered its assignment of generation 2 without error |
| `GroupRuns.LeftOutAnswered` | include/storage/consumer_group.h:245-262 | a run in which the group is stable at generation 3, its leader having left the follower out, and the follower is answered its assignment of generation 2 without error |
| `GroupRuns.HeartbeatOk` | include/storage/consumer_group.h:266-286 | heartbeat answers 0 exactly when member and generation match and after the purge the group is stable or empty |
| `GroupRuns.HeartbeatOkMeansStableIff` | include/storage/consumer_group.h:266-286 | 0 is the same as matching member and generation in a group stable after the purge, exactly unless they match and every member, the caller with its new timestamp included, is expired at the second clock reading |
| `GroupRuns.HeartbeatOkIffStable` | include/storage/consumer_group.h:266-286 | so a session timeout that covers the gap between the two clock readings is enough |
| `GroupRuns.HeartbeatOkToNobody` | include/storage/consumer_group.h:400-424 | a run with a ten second timeout in which a heartbeat expires the last member, its caller, answers 0 and keeps the generation |
| `GroupRuns.FullVoteIsUnanimous` | include/storage/consumer_group.h:381-398 | with no name listed twice, as many votes as members means that all list the protocol, both ways |
| `GroupRuns.ChosenIsCommon` | include/storage/consumer_group.h:381-398 | if the members share a protocol the chosen one is shared by all, whatever order the maps are walked in |
| `GroupRuns.FetchAnswersLastOfRun` | include/storage/consumer_group.h:317-365 | at every point of every run a fetch answers the last offset and metadata committed for that partition in that group, or -1, whatever other requests and groups did |
| `GroupManager.ChooseByVotes` | include/storage/consumer_group.h:381-398 | the vote-counting loops choose what the specification chooses |
| `GroupManager.EraseExpired` | include/storage/consumer_group.h:400-411 | the erasing walk leaves exactly the members whose session has not expired and says whether any had |
| `GroupManager.GroupManager.JoinGroup` | include/storage/consumer_group.h:98-215 | in place: new groups and reply are those of the specified join |
| `GroupManager.GroupManager.SyncGroup` | include/storage/consumer_group.h:217-264 | in place: those of the specified sync |
| `GroupManager.GroupManager.HeartbeatGroup` | include/storage/consumer_group.h:266-286 | in place: those of the specified heartbeat, purge included |
| `GroupManager.GroupManager.LeaveGroup` | include/storage/consumer_group.h:288-315 | in place: those of the specified leave, which `LeaveAnswers` and `LeftStaysOut` are about |
| `GroupManager.GroupManager.OffsetCommit` | include/storage/consumer_group.h:317-333 | in place: those of the specified commit, each partition acknowledged once in order |
| `GroupManager.GroupManager.OffsetFetch` | include/storage/consumer_group.h:335-365 | each partition asked for is answered with its committed offset, or -1 |
| `ByteRing.WindowAppend` | include/utils/circular_buffer.h:93-106 | bytes copied in at the head, in one piece or around the end, extend the queue by exactly those bytes |
| `ByteRing.FixedCircularBuffer.WriteHead` | include/utils/circular_buffer.h:80-85 | where the free piece starts and that it is all of it up to the end of the buffer; none exactly when full |
| `ByteRing.FixedCircularBuffer.Write` | include/utils/circular_buffer.h:93-106 | as many bytes as fit go behind the contents, the rest is dropped |
| `ByteRing.FixedCircularBuffer.ReadHead` | include/utils/circular_buffer.h:112-117 | the bytes there are a prefix of the contents; none exactly when empty |
| `ByteRing.FixedCircularBuffer.Peek` | include/utils/circular_buffer.h:127-139 | the first bytes of the contents, wrapped or not, and nothing changes |
| `ByteRing.FixedCircularBuffer.Read` | include/utils/circular_buffer.h:142-146 | the first bytes, which then are gone |
| `Frames.SplitConcat` | src/network/tcp_server.cpp:206-259 | splitting a stream is splitting its front, then what is left of it with the rest |
| `Frames.SplitEncode` | src/network/tcp_server.cpp:206-259 | the split of encoded frames and a tail is those frames and the split of the tail |
| `Frames.ResponsesThatFit` | include/network/tcp_server.h:45-47 | responses that fit the write ring are all queued, in order |
| `Frames.Connection.ProcessFrames` | src/network/tcp_server.cpp:206-259 | in place, on the contiguous and the wrapped path: the frames routed, the bytes left and the refusal are those of the reference split of the ring |
| `Frames.Connection.HandleRead` | src/network/tcp_server.cpp:182-204 | a readable event takes what fits from the socket, in any pieces, and routes the whole frames; at the end of the stream or on a failed receive it closes and routes none |
| `Frames.LifeAccounted` | src/network/tcp_server.cpp:182-259 | at every moment of every connection, frames routed plus bytes in ring and socket, or dropped in the ring at the end, account for the whole stream |
| `Frames.ChunkingIrrelevant` | src/network/tcp_server.cpp:182-259 | however the stream is cut into arrivals and events, once the socket is empty and the end not seen, the frames routed and the bytes left are the reference split of the whole stream |
| `Frames.EndLosesItsOwnFrames` | src/network/tcp_server.cpp:192-200 | in every life, the event that sees the end loses exactly the frames that its own bytes complete; every frame sent was routed exactly when they complete none |
| `Frames.EndIsFinal` | src/network/tcp_server.cpp:192-200 | after it nothing changes any more |
| `Frames.RequestThenEnd` | src/network/tcp_server.cpp:192-200 | a request and the end of the stream in one event: not routed; in two: routed |
| `Frames.FullRingHasFrame` | src/network/tcp_server.cpp:182-259 | if the frames fit, a full ring holds a complete frame |
| `Frames.FullRingStuckIff` | include/network/tcp_server.h:38-101 | a full ring is stuck, and stays so, exactly when it starts with a frame longer than itself that is not refused |
| `Frames.PollingDrains` | src/network/tcp_server.cpp:182-259 | a fitting stream is drained: as many readable events as bytes waiting empty the socket or close the connection |
| `Varint.ZigZagIsBits` | src/http/http_server.cpp:981 | the shift and exclusive or of the writer, on 64-bit words, are the zigzag numbering |
| `Varint.UnZigZagIsBits` | src/http/http_server.cpp:792-793 | the shift and exclusive or of the readers, on words of any width, are its inverse |
| `Varint.OrIsAcc` | src/http/http_server.cpp:787 | shifting a group into place and or-ing it in is adding it with its weight modulo the word |
| `Varint.WriteVarint` | src/http/http_server.cpp:980-987 | the loop, with its bit operations, appends the zigzag groups of the value |
| `Varint.ReadLoop` | src/http/http_server.cpp:782-794 | the loop, with its bit operations, computes the signed value of the groups modulo the word and where they end |
| `Varint.PeekReadsBack` | src/http/http_server.cpp:782-794 | every int64 written, anywhere, is read back by the peek's reader, with the bytes it took |
| `Varint.ReadersAgree` | include/protocol/kafka_codec.h:62-71 | every int32 written is read back alike by both readers, over the same bytes |
| `RecordBatch.BodyIsWholeIff` | include/storage/partition_log.h:237-242 | all records are written exactly if the batch is shorter than the buffer |
| `RecordBatch.SerializeBatch` | include/storage/partition_log.h:206-250 | in place: header, the records that fit, the length patched in |
| `RecordBatch.DecodeRecordBatch` | src/protocol/kafka_codec.cpp:39-68 | the cursor reads, field by field, header by header and record by record, compute the specified decoding, which `RecordDecodes` and `ContentsRoundTrip` are about |
| `RecordBatch.RecordEmbeds` | src/protocol/kafka_codec.cpp:52-65 | a record parses the same wherever it lies in other bytes |
| `RecordBatch.BatchRoundTrip` | src/protocol/kafka_codec.cpp:39-68 | a version-2 batch of well-formed records that fits is written in exactly its serialized size, and decodes to the same fields, crc 0, last offset base + n - 1, byte-identical records, and of each what the decoder makes of it by itself |
| `RecordBatch.OtherVersionDecodes` | src/protocol/kafka_codec.cpp:39-45 | of a batch of any other version only base offset, epoch and version are read |
| `KafkaRecords.RecordDecodes` | src/protocol/kafka_codec.cpp:52-65 | every record of the format, with any deltas, null, empty or other key and value, and any headers, wherever it lies, is taken to its last byte, for its timestamp delta, key length, value offset and value length |
| `KafkaRecords.ContentsRoundTrip` | src/protocol/kafka_codec.cpp:39-68 | a batch of such records as the log writes it decodes to the timestamp, key length, value offset and value length of each of them, in order |
| `LogModel.SerializedIsStored` | include/storage/partition_log.h:206-250 | what append writes has its base offset, length and record count where the scan reads them |
| `LogModel.ScanFrom` | include/storage/partition_log.h:152-189 | the loop computes the specified scan of any bytes from any position |
| `LogModel.ScanFromBatch` | include/storage/partition_log.h:152-189 | from any batch at or before the first wanted one, the scan finds whole batches from the first base not below the start to the first boundary with the bytes asked for |
| `LogRuns.LookupPosition` | include/storage/partition_log.h:90-96 | binary search finds the last entry below the target, or the first entry |
| `LogRuns.AppendKeeps` | include/storage/partition_log.h:117-134 | every append, with or without a roll or room, keeps bases ascending and the index sorted, its new entries at the batches they name and the first at byte 0 |
| `LogRuns.RunKeeps` | include/storage/partition_log.h:117-134 | so in every state of every run of appends |
| `LogRuns.LookupSeeksRight` | include/storage/partition_log.h:143-146 | in a log that never rolled, or behind the active segment's first batch, the index never leads past the first wanted batch |
| `LogRuns.RunStores` | include/storage/partition_log.h:117-134 | with segments not shorter than the buffer, every batch appended is stored, empty ones too, in order, with the number of records before it as base |
| `LogRuns.RollsIff` | include/storage/partition_log.h:126-131 | an append starts a segment, at the next offset, exactly if the batch does not fit behind what the active one holds |
| `LogRuns.StartInsideBatchIff` | include/storage/partition_log.h:136-182 | in every such run each offset below the next is in exactly one batch; the first base not below it is that of the batch behind, unless it is itself that batch's base, and then that batch's or that of an empty one in front; so the first batch returned contains the start exactly when the start is its base and no empty batch is in front |
| `LogRuns.RunIsDense` | include/storage/partition_log.h:117-134 | with nonempty batches and segments not shorter than the buffer: every append is stored, the batches of all segments in order are those appended, each with the number of records before it as base, each later segment's base is its first batch's, and bases strictly rise |
| `LogRuns.RunExists` | include/storage/partition_log.h:117-134 | every list of batches and segment size has a run |
| `LogReads.RunWhole` | include/storage/partition_log.h:117-134 | in every state of every run, all segments hold stored batches with rising bases, and the entries made before the last roll are below the active segment |
| `LogReads.ReadsWholeLogIff` | include/storage/partition_log.h:136-190 | in every such log and below the next offset, the batches returned are those the whole log holds from the first base not below the start, up to the bytes asked for, exactly when there is no earlier batch, or the start is behind the first active batch, or it is behind the last earlier batch and the last entry before the roll is at byte 0 (with nothing in the active segment: exactly when the start is behind the last earlier batch) |
| `LogReads.ReadersAtRoll` | include/storage/partition_log.h:143-149 | a run of three messages posted over REST after which a read at the active base offset gets nothing and a read at 0 returns the third batch only |
| `PartitionLog.LogSegment.Append` | include/storage/partition_log.h:59-65 | the bytes go behind what is there, or -1 and nothing changes if they do not fit |
| `PartitionLog.PartitionLog.Append` | include/storage/partition_log.h:117-134 | in place: the offset returned was the next one, and the log is the specified log with the batch appended |
| `PartitionLog.PartitionLog.Read` | include/storage/partition_log.h:136-190 | in place: high watermark; the bytes of the active segment that the specified lookup and scan find, in every case; nothing from the next offset on; and whenever the condition of `ReadsWholeLogIff` holds, exactly the bytes of the batches of the whole log |
| `LogReader.StepKeeps` | include/storage/partition_log.h:59-190 | every step of the appender, down to each copied byte, and of any reader keeps the race's invariant |
| `LogReader.ReadIsWholeBatches` | include/storage/partition_log.h:136-190 | in every state of every run, a finished read holds whole, contiguous batches from the first base not below the start it was called with to the first boundary with the bytes it was called with, whatever was appended since; below that budget, or if it holds none, every batch below the next offset at its call is among them |
| `LogReader.NothingMissed` | include/storage/partition_log.h:138-141 | a read that returns early was called for nothing below the next offset at its call |
| `LogReader.ReportsNextAtCall` | include/storage/partition_log.h:136-141 | in every run a read reports as high watermark the next offset there was when it was called, and keeps the start and budget it was called with |
| `LogReader.EarlyReturnIff` | include/storage/partition_log.h:138-141 | it returns early exactly if its start is not below the next offset at its second look |
| `LogReader.NextCountsAppends` | include/storage/partition_log.h:117-134 | in every state the next offset counts the records of the appends done, and the batches are theirs, in order |
| `LogReader.ReadIsWaitFree` | include/storage/partition_log.h:136-190 | every own step of a read goes on to a later stage, or further in the bytes it measured |
| `RestPeek.WriteRecord` | src/http/http_server.cpp:964-1009 | the writer's pushes make the record: length, then the content |
| `RestPeek.WriteRecords` | src/http/http_server.cpp:964-1009 | the loop makes one record a message, each with its place as offset delta |
| `RestPeek.RestIsWellFormed` | src/http/http_server.cpp:964-1009 | the Kafka decoder takes every record the REST writer makes as one record, to its last byte, with its key and value lengths |
| `RestPeek.PeekReturnsRecord` | src/http/http_server.cpp:796-828 | the peek shows a REST record, wherever it lies, with its offset delta, key and value |
| `RestPeek.PeekMessages` | src/http/http_server.cpp:738-845 | the nested parsing loops show exactly the specified messages |
| `RestPeek.BudgetSuffices` | src/http/http_server.cpp:732 | a budget of 65536 bytes a message never cuts a read off before that many messages |
| `RestRuns.PeekReturnsWhatWasPosted` | src/http/http_server.cpp:732-844 | after any run of produce requests that fit, with any number of rolls, on the bytes the lookup and scan of `read` return, wherever the condition of `ReadsWholeLogIff` holds: a peek of n from an offset of a request shows exactly the first n messages from that request on, or from the next one if the offset is not its base, with their offsets, keys and values |
| `RestRuns.UnrolledIsComplete` | include/storage/partition_log.h:143-149 | in a log that never rolled that condition holds for every start |
| `RestRuns.SecondMessageSkipped` | include/storage/partition_log.h:168-179 | a run of one request with two messages after which a read of offset 1 gets nothing, for every budget |
| `RestPeek.PeekedTimestamp` | src/http/http_server.cpp:769-772 | what the peek reads as first timestamp of any stored batch: the low half of its record count less one, then the timestamp without its last two bytes, as a signed word |
| `RestPeek.PeekedTimestampRightIff` | src/http/http_server.cpp:769-772 | for every batch it is the stored timestamp exactly when the timestamp less its own 2^16th is the record count less one times 2^48, as words |
| `RestPeek.SingleTimestampRightIff` | src/http/http_server.cpp:769-772 | so a single message's exactly when it is 0 |
| `Grouping.TopicsAreThoseSeen` | src/protocol/kafka_codec.cpp:261-266 | no topic twice, each that occurs, and none else |
| `Grouping.TopicsInFirstSeenOrder` | src/protocol/kafka_codec.cpp:261-266 | topics are in the order in which they are first seen |
| `Grouping.GroupHoldsItsParts` | src/protocol/kafka_codec.cpp:269-287 | a group holds exactly its topic's parts, each once and in order |
| `Grouping.CountsSum` | src/protocol/kafka_codec.cpp:269-275 | the counts written sum to the number of parts |
| `Grouping.ResponseReadsBack` | src/protocol/kafka_codec.cpp:252-293 | for every list that fits, the size prefix is what follows, and a reader of the schema recovers each topic with its own bodies and stops at the tail |
| `Grouping.BinaryWriter.PatchSize` | include/protocol/kafka_codec.h:96-101 | the placeholder gets the number of bytes behind it; nothing else changes |
| `Grouping.EncodeGrouped` | src/protocol/kafka_codec.cpp:252-293 | the nested loops, one write a field, write exactly the specified response |
| `Grouping.TypedReadsBack` | src/protocol/kafka_codec.cpp:252-293 | if each body decodes to its record, a reader of the whole response gets the correlation id and, for each topic in first-seen order, exactly its records in order |
| `Responses.ListOffsetReadsBack` | src/protocol/kafka_codec.cpp:276-287 | the fields of an answer are read back in every version; version 0 loses the timestamp |
| `Responses.ListOffsetsReadBack` | src/protocol/kafka_codec.cpp:252-293 | a typed reader gets back the correlation id, the throttle time and, for each topic in first-seen order, its answers in order; version 0 without timestamps |
| `Responses.FetchedReadsBack` | src/protocol/kafka_codec.cpp:318-332 | the fields and record bytes of a fetch answer are read back in every version |
| `Responses.FetchReadsBack` | src/protocol/kafka_codec.cpp:295-338 | the same of Fetch, record bytes included |
| `Responses.CommittedReadsBack` | src/protocol/kafka_codec.cpp:536-540 | the fields of a commit answer are read back |
| `Responses.OffsetCommitReadsBack` | src/protocol/kafka_codec.cpp:515-545 | the same of OffsetCommit |
| `Responses.StoredReadsBack` | src/protocol/kafka_codec.cpp:569-575 | the fields and metadata of an offset-fetch answer are read back |
| `Responses.OffsetFetchReadsBack` | src/protocol/kafka_codec.cpp:547-583 | the same of OffsetFetch, metadata included, and the group error code at the end |
| `Responses.EncodeListOffsets` | src/protocol/kafka_codec.cpp:252-293 | in place: the calls of the encoder write the response that `ListOffsetsReadBack` reads |
| `Responses.EncodeFetch` | src/protocol/kafka_codec.cpp:295-338 | in place: the same of Fetch |
| `Responses.EncodeOffsetCommit` | src/protocol/kafka_codec.cpp:515-545 | in place: the same of OffsetCommit |
| `Responses.EncodeOffsetFetch` | src/protocol/kafka_codec.cpp:547-583 | in place: the same of OffsetFetch |
| `ShardedMap.ComputeHash` | include/core/types.h:20-32 | the loop computes the FNV-1a fold of topic bytes and partition |
| `ShardedMap.FnvOfA` | include/core/types.h:20-32 | the fold gives the published FNV-1a value of "a" |
| `ShardedMap.FindIsWhole` | include/storage/sharded_log_map.h:31-36 | looking only in a key's own shard is looking in the whole map |
| `ShardedMap.PutIsWhole` | include/storage/sharded_log_map.h:41-55 | creating acts on the whole map and keeps every key in its own shard |
| `ShardedMap.DropIsWhole` | include/storage/sharded_log_map.h:81-85 | so does erasing |
| `ShardedMap.RunKeeps` | include/storage/sharded_log_map.h:31-105 | in every state of every run of operations and iterations, each key is in its own shard, each iteration has seen distinct keys, and what it erased is gone for good |
| `ShardedMap.IterationSeesAll` | include/storage/sharded_log_map.h:60-67 | a whole iteration, whatever happens between its shards, sees no key twice and every key present throughout, with a log it had |
| `ShardedMap.EraseIfLeavesNone` | include/storage/sharded_log_map.h:91-105 | after a whole erase_if no entry of its predicate is left but those created since it began |
| `ShardedMap.ShardedLogMap.Find` | include/storage/sharded_log_map.h:31-36 | in place: found exactly if in the one map, and then its log |
| `ShardedMap.ShardedLogMap.GetOrCreate` | include/storage/sharded_log_map.h:41-55 | in place: the log there is, or a new one added; new exactly if there was none |
| `ShardedMap.ShardedLogMap.Erase` | include/storage/sharded_log_map.h:81-85 | in place: true exactly if it was there, and it is gone |
| `ShardedMap.ShardedLogMap.ForEach` | include/storage/sharded_log_map.h:60-67 | undisturbed: every entry exactly once |
| `ShardedMap.ShardedLogMap.EraseIf` | include/storage/sharded_log_map.h:91-105 | undisturbed: exactly the predicate's entries are erased and listed, each once |
| `BlockPool.AlignUpIsLeastMultiple` | include/utils/memory_pool.h:98 | rounding up gives the least multiple not below |
| `BlockPool.BlocksApart` | include/utils/memory_pool.h:53-57 | blocks do not overlap and lie in the pool |
| `BlockPool.AllAligned` | include/utils/memory_pool.h:17-58 | on a base aligned to 64 bytes every block is |
| `BlockPool.OwnsBlocks` | include/utils/memory_pool.h:92-95 | the pool owns each of its blocks to the last byte |
| `BlockPool.CountsAddUp` | include/utils/memory_pool.h:89-90 | live count plus freelist length is the number of blocks |
| `BlockPool.AllocateKeeps` | include/utils/memory_pool.h:67-73 | null exactly when all blocks are live; otherwise a free block becomes live and the list in memory stays acyclic |
| `BlockPool.DeallocateKeeps` | include/utils/memory_pool.h:75-81 | a live block goes in front of the list, and free and live blocks still partition the pool |
| `BlockPool.WriteKeeps` | include/utils/memory_pool.h:11-15 | what an owner writes into a live block, also over the link word, leaves the freelist alone |
| `BlockPool.HugePagePool.constructor` | include/utils/memory_pool.h:17-58 | the linking loop makes a freelist of all blocks, 64-byte-sized, on an aligned base 64-byte-aligned, and not shorter than asked for |
| `BlockPool.HugePagePool.Allocate` | include/utils/memory_pool.h:67-73 | in place: a block nobody holds, on an aligned base aligned, or null exactly when all are live |
| `BlockPool.HugePagePool.Deallocate` | include/utils/memory_pool.h:75-81 | in place: the block is free again; null is ignored |
| `BlockPool.RunKeeps` | include/utils/memory_pool.h:101-126 | over every run of buffers made, moved, assigned, written and destroyed, each live block has exactly one owner |
| `BlockPool.ReleasedOnce` | include/utils/memory_pool.h:101-126 | a block given back is always live, no buffer holds it afterwards, and with the last buffer gone every block is free |
| `BlockPool.StepPasses` | include/utils/memory_pool.h:101-126 | a move or assignment hands the block over whole and leaves nothing behind; otherwise it stays where it is or is given back |
| `BlockPool.BlockFollowsMoves` | include/utils/memory_pool.h:101-126 | over every run the block of a buffer is in the buffer its moves and assignments have taken it to, until it is given back |
| `BlockPool.NewGetsBlock` | include/utils/memory_pool.h:101-126 | a new buffer gets a block nobody held, or none exactly if every block is held |
| `Wakeup.StepIsSafe` | src/network/tcp_server.cpp:87-121 | every step keeps: waiting descriptors a running pop will not take have a byte in the pipe, a write to come or a pop that has not loaded the head, if no load finds more than 64 |
| `Wakeup.NoLostWakeup` | src/network/tcp_server.cpp:87-121 | over every such run no worker is left asleep with descriptors in its ring, an empty pipe and no write to come |
| `Wakeup.DrainForgetsIff` | src/network/tcp_server.cpp:95-102 | with nothing in the pipe and none to come, a drain forgets descriptors exactly if it finds more than 64 |
| `Wakeup.LostWakeup` | src/network/tcp_server.cpp:95-102 | a run of 65 connections after which one is forgotten |
| `Wakeup.DrainReadsAll` | src/network/tcp_server.cpp:87-102 | a drain empties the pipe 128 bytes a read, and goes on to its ring at the first read that finds nothing |
| `Wakeup.RunAccounts` | src/network/tcp_server.cpp:656-672 | in every state each accepted descriptor is in hand, closed, or given to exactly one worker, which registers what it was given in order |
| `Wakeup.ClosedOnlyIfAllFull` | src/network/tcp_server.cpp:656-672 | a connection is closed only when every worker's ring was found full for it |
| `Wakeup.FoundFull` | src/network/tcp_server.cpp:656-672 | a worker counted as full for a descriptor was tried for it, and its ring was full then |
| `Wakeup.PlacedInTurn` | src/network/tcp_server.cpp:656-672 | in every run a descriptor goes to the first worker with room, counted from the one behind the worker that took the last; all before it in that order were found full |
| `Wakeup.RoundRobin` | src/network/tcp_server.cpp:656-672 | in every run in which no ring is found full, descriptor number fd goes to worker fd modulo their number |

## Left out

- Sockets, event loops, hang-up and error events, pipe creation, signals, threads and shutdown: receiving is "some bytes arrive", a pipe is a byte count.
- Files, mmap, huge pages and recovery: a segment is a byte array; two segments with the same base offset would share a file, which `RunIsDense` rules out by its strictly rising bases.
- C++ memory orders and data races on the index vector and the segment list: steps interleave, the index is read and extended atomically, and `LogReader` has no roll.
- HTTP parsing and JSON text: the REST theorems start from key and value bytes.
- Request decoders, Produce, Metadata, ApiVersions and FindCoordinator responses: flat field lists.
- Timers and liveness of rebalances: nothing in the code drives them.
- `next_power_of_2` of the byte ring: the buffer is built with a power-of-two capacity, as the server does.
- The multi-producer queue and the hand-over to workers have no class; they are step machines only, since calls overlap. Buffers that own blocks are states of a machine too, so moves between them are seen together.
- Integer overflow of offsets: appends require the next offset to stay below 2^63. The casts of segment positions and sizes to 32 bits in `read` are not modelled; a segment of the default size, 2^30 bytes, stays below them.
- Lengths of 2^32 and more in records the peek parses: the casts to 32 bits are not modelled.
- DecodeRecordBatch: a record whose negative header key lengths move the cursor behind its own start, or that runs past the buffer, gives no result; the source goes on with what is in memory there.
- PeekReturnsWhatWasPosted: says nothing of timestamps, which are read from the wrong bytes, and covers records without headers, the only ones the REST writer makes.
- Varint groups shifted past the word, which C++ leaves undefined: they add nothing here, as for a shift that drops the bits.
- GroupRuns.GenerationsGrow: generations are unbounded, while generation_id is an int32; after 2^31 - 1 rebalances of one group the source overflows.
- NothingPoppedAfterWrap: requires at most 2^64 less twice the capacity producers inside their compare-and-swap at once.
- WrapStalls: the same.
- NeverDelivered: the same.
- NoLostWakeup: requires that no drain finds more than 64 waiting, because with more it is false (`LostWakeup`).
- RunDeliversInTicketOrder: requires fewer than 2^64 tickets, because beyond that the queue stops (`NothingPoppedAfterWrap`).
- Benchmarks, DPDK, configuration and logging.
