# SevLamQ: verified models of replication, storage, groups and codecs

SevLamQ is a partitioned message broker written in Rust. This project models its hard parts in Dafny and proves what
they are for. `dafny verify dfyconfig.toml` checks everything.

**Replication and leadership.** `Cluster` has replica placement and the rule by which a registry takes an entry.
`Election` runs the registry protocol fully asynchronously: reads, sends, receipts and writes are separate steps, and
messages are lost, repeated and reordered at will. `Replica` is what a broker does with a replicated record and an
announcement. `Durability` puts logs, replication, commit, promotion, metadata sync, recovery and crashes together;
its predicate `Allowed` lists every premise that the code does not establish, and `DataLoss` shows for each of them a run
that keeps the others and loses an acknowledged record. `Epochs` shows that every run of `Durability`, premises or not, is one
of `Election`. `Selection` and `Promotion` choose and install a leader, `CatchUp` is the leader's and the follower's side of
replication as objects updated in place, `Simulation` shows that a leader which replicates a record and a follower which
recovers take steps of `Durability`, and `LeadershipText` and `Leadership` are the registry with its text file.

**Storage.** `Bytes`, `Utf8` and `RecordCodec` are the record format. `LogModel` is the abstract log: a sequence of
frames (encoded records), the sparse index over them and the idempotent-producer table. `Recovery` and `SegmentFiles`
are recovery of one file and of a directory, `FlatRead` says what a read returns without segments or indexes, `LogState`
is the invariant of one partition log, `PartitionLogs.PartitionLog` is the class whose methods work on segments and files
in place, and `StorageLimits` has logs on which it falls short.

**Consumer groups.** `Rebalance` deals partitions to members, `GroupModel` says what each request does to the
coordinator and proves fencing over whole runs, `Groups.GroupCoordinator` is the coordinator updated in place.

**Wire formats and retries.** `Frames` extracts frames from a stream, `Fields` has the fields frames are made of,
`Requests`, `Responses` and `ReplicationCodec` are the messages, `RequestForms` and `ResponseForms` say that nothing else
decodes, `WireBytes` has their bytes, `Streams` joins them, `Retry` is the envelope and the
routing of a failure, and `RetryChain` follows a failing message through the broker to the dead-letter topic.

Every method is proved against a function of its inputs or of the old state; the lemmas are about those functions.
The checksum, the compression library, the clock, replies over the network and the iteration order of hash maps are
parameters. Sequences of `byte` stand for byte buffers and, in codecs, for strings.

## What turned out different from what one might expect

* A promotion keeps every live log a prefix of the new leader's exactly when no live broker that cuts nothing has records
  beyond the end of the new leader's log (`Durability.PromotionKeepsPrefixesIff`). A controller that is not the candidate and
  a broker that the broadcast misses cut nothing: the broadcast skips the controller and goes on after a failed send. If it
  misses the candidate, the new leader keeps its log; otherwise its log ends at the high watermark the controller knows.
* A promotion keeps every committed record exactly when the new leader's log reaches the newest high watermark
  (`Durability.PromotionKeepsCommittedIff`), which is sure if the controller knows that high watermark.
* Six things that the code does not prevent lose an acknowledged record, each of them alone: the tail of a controller that is
  not the candidate (`DataLoss.ControllerTailLosesRecord`), a broker that the broadcast of a promotion misses
  (`DataLoss.MissedBrokerLosesRecord`), a commit whose announcement misses the controller
  (`DataLoss.LostAnnouncementLosesRecord`), a commit overtaken by a change of leader
  (`DataLoss.OvertakenCommitLosesRecord`: the acknowledgements are from the old epoch, the leadership entry that is raised is
  the new one), a record appended after a change of leader on a check before it (`DataLoss.LateAppendLosesRecord`), and a
  record sent after a change of leader (`DataLoss.StaleSenderLosesRecord`: it carries the leader and epoch
  that the registry of the old leader gives by then, and so passes the fence).
* After retention has removed a segment, `open` fails (`LogState.OpensIffLowWatermarkZero`), and `truncate_to` to any
  offset below the log end but 0 does not leave the log at that offset (the last clause of
  `PartitionLogs.PartitionLog.TruncateTo`). `StorageLimits.RetainedLog` has such logs, and
  `StorageLimits.RetentionStopsReopening` makes both happen.
* `truncate_to` encodes records anew, so a record of version 1 within 12 bytes of the size limit makes it fail
  (`StorageLimits.V1IsReadButNotRewritten` and the clause about `AllFit` of `TruncateTo`). `StorageLimits.OldRecordLog` has
  such logs, and `StorageLimits.OldRecordStopsTruncation` makes it happen. The broker itself does not write such a record: the
  limit of a record is 16 MiB, and the protocol caps a message at 1 MiB (crates/protocol/src/lib.rs:6); the storage engine
  does not check that cap.
* A retry is published under a producer id made of a checksum and the attempt. Two failures whose ids collide are both
  acknowledged and only the first is stored (`RetryChain.BothKeptIffIdsDiffer`, `RetryChain.SameIdIff`). Whatever the
  checksum, there are such failures (`RetryChain.SomeIdsCollide`, `RetryChain.SomeFailureIsLost`).
* An empty replication key arrives as no key (`ReplicationCodec.RecordRoundTrip`), and a batch acknowledgement of no or
  more than 1,000 records is encoded but not decoded (`Responses.ResponseRoundTrip`).
* A registry file restores its entries exactly when no topic name has a tab or a newline
  (`LeadershipText.ParseRestoresIffClean`).
* A message whose value starts with the envelope magic is never taken for itself (`Retry.OriginalIffNoMagic`).

## Model

| member | source | states |
|---|---|---|
| Cluster.Topology.ReplicaPlacement | crates/broker/src/lib.rs:1229-1239 | a partition has exactly `replicationFactor` distinct replicas, its deterministic leader among them |
| Cluster.Topology.FollowersAreOtherReplicas | crates/broker/src/lib.rs:857-864 | a leader sends to every other replica, to each once |
| Cluster.Topology.ReplicasByPosition | crates/broker/src/lib.rs:1229-1239 | the replicas are the `replicationFactor` nodes from the deterministic leader on, cyclically upwards; the controller has the lowest id |
| Cluster.Topology.FollowersInOrder | crates/broker/src/lib.rs:857-864 | a leader sends to the other replicas in the order of their placement |
| Leadership.OrderDoesNotMatter | crates/broker/src/leadership.rs:102-138 | announcements in any order and number leave the one entry that may follow all of them |
| Cluster.AdoptsIff | crates/broker/src/leadership.rs:107-134 | an entry is taken exactly if its leader is a member and it has a newer epoch, or the same leader and no lower high watermark; the refusal says which fails |
| Election.ElectionSafety | crates/broker/src/lib.rs:544-595 | in every interleaving with lost, repeated and reordered messages and concurrent promotions, any two entries, reads or messages of one epoch name one leader, and no epoch exceeds the controller's |
| Election.LeaderOfEpochIsForever | crates/broker/src/leadership.rs:102-138 | the leader of an epoch is the same at any two times of a run |
| Election.StepKeepsConsistent | crates/broker/src/lib.rs:825-855 | every step of the registry protocol (ensure, commit, replicate, announce, sync, promote) keeps election safety |
| Election.PromotionElects | crates/broker/src/lib.rs:563-595 | who is elected: a promotion writes and announces its candidate in the next epoch, with the high watermark that was read, exactly if the candidate is a replica and the registry has not moved on; any other changes nothing |
| Election.CurrentPromotionElects | crates/broker/src/lib.rs:563-595 | with a current read below the last epoch exactly the replicas can be elected |
| Election.OwnSteps | crates/broker/src/lib.rs:825-836 | what a broker does on its own: the first entry of a topic, reads, commits at what was read, and sends in its name |
| Election.TakenSteps | crates/broker/src/lib.rs:1320-1336 | what a broker takes from an announcement, a record of a newer epoch, or the controller, and exactly when |
| Epochs.StepSimulated | crates/broker/src/lib.rs:496-595 | every step of the durability model, within its premises or not, is some steps of the election model |
| Epochs.OneLeaderInEveryRun | crates/broker/src/lib.rs:544-595 | so in every run of the durability model, whatever is lost, late or promoted, brokers of one epoch name one leader and none is ahead of the controller |
| Replica.ReplicatedEntry | crates/broker/src/lib.rs:1320-1336 | a replicated record never changes the known high watermark; leader and epoch change exactly for a newer epoch of a member, also if the record is then refused |
| Replica.ReplicatedLog | crates/broker/src/lib.rs:1303-1347 | what becomes of the log and what is replied to a replicated record, in every case |
| Replica.AnnouncedOutcome | crates/broker/src/lib.rs:496-518 | when an announcement is taken, why it is refused, and when it cuts the log |
| Durability.AcknowledgedRecordsSurvive | crates/broker/src/lib.rs:775-855 | after any number of leader changes every live log is a prefix of the leader's and every acknowledged record is at its offset, unchanged and committed |
| Durability.ServedRecordsNeverChange | crates/broker/src/lib.rs:342-358 | a record below the high watermark that any live broker serves stays committed, and no broker later serves another one at that offset |
| Durability.HighWatermarkIsHeld | crates/broker/src/lib.rs:815-818 | everything below the high watermark is stored by `minInSync` distinct replicas |
| Durability.OneEpochKeepsPrefixes | crates/broker/src/lib.rs:1337-1344 | within one epoch, without any assumption on delivery, follower logs stay prefixes of the leader's and no high watermark passes what `minInSync` replicas store |
| Durability.StepKeeps | crates/broker/src/lib.rs:496-518 | each of the eleven steps keeps the replication invariant |
| Durability.CrashesAndAcknowledgements | crates/broker/src/lib.rs:815-823 | only a crash stops a broker, and only a counted commit acknowledges a record |
| Durability.SendsExactly | crates/broker/src/lib.rs:866-889 | exactly which messages a step sends, by kind; nothing sent is lost |
| Durability.LogsGrow | crates/broker/src/lib.rs:1241-1283 | an append adds its record, and recovery a fetched record exactly at the log end of a replica |
| Durability.SyncTakesNewer | crates/broker/src/lib.rs:1181-1194 | the controller's entry is taken exactly if it is newer and may follow the own one |
| Durability.CommitRaisesOnly | crates/broker/src/lib.rs:825-855 | a commit raises its own high watermark, and the controller handles the announcement it gets; nobody else changes |
| Durability.PromotionLeaves | crates/broker/src/lib.rs:583-595 | what a promotion leaves of each broker: the controller cuts its log only for itself, a broker that is told handles the announcement |
| Durability.StoppedStays | crates/broker/src/lib.rs:653-675 | a broker that has stopped never changes again in any run |
| Durability.PromotionKeepsPrefixesIff | crates/broker/src/lib.rs:583-595 | whoever the broadcast reaches, a promotion leaves all live logs prefixes of the new leader's exactly when no live broker that cuts nothing has records beyond the end of the new leader's log |
| Durability.PromotionKeepsCommittedIff | crates/broker/src/lib.rs:573-582 | whoever the broadcast reaches, a promotion keeps every committed record exactly when the new leader's log reaches the newest high watermark |
| DataLoss.PremisesAreAllowed | crates/broker/src/lib.rs:583-595 | the six premises below are together what the durability theorems assume |
| DataLoss.ControllerTailLosesRecord | crates/broker/src/lib.rs:583-595 | a run that keeps all premises but one, in which the tail a non-candidate controller keeps overwrites an acknowledged record |
| DataLoss.MissedBrokerLosesRecord | crates/broker/src/lib.rs:653-675 | a run that keeps all premises but one, in which the tail of a broker the broadcast missed overwrites an acknowledged record |
| DataLoss.LostAnnouncementLosesRecord | crates/broker/src/lib.rs:837-853 | a run that keeps all premises but one, in which a commit not announced to the controller is lost by the next promotion |
| DataLoss.LateAppendLosesRecord | crates/broker/src/lib.rs:405-431 | a run that keeps all premises but one, in which a record that a former leader appends after its check overwrites an acknowledged record |
| DataLoss.OvertakenCommitLosesRecord | crates/broker/src/lib.rs:815-836 | a run that keeps all premises but one, in which a commit after a change of leader acknowledges a record that nobody holds any more |
| DataLoss.StaleSenderLosesRecord | crates/broker/src/lib.rs:866-889 | a run that keeps all premises but one, in which a record that a former leader sends in the new leader's name overwrites an acknowledged record |
| Selection.CollectOffsets | crates/broker/src/lib.rs:604-627 | the log ends of exactly the replicas that reply, each once |
| Selection.RespondersIff | crates/broker/src/lib.rs:1093-1134 | who counts as replying: the replicas that do, never the failed leader |
| Selection.ChooseAutomaticCandidate | crates/broker/src/lib.rs:1136-1149 | nobody if too few answer or none holds the high watermark, otherwise the greatest offset, ties to the lowest id |
| Selection.SelectAutomaticCandidate | crates/broker/src/lib.rs:1093-1134 | the same over the replicas that reply, without the failed leader |
| Selection.VerifyPromotionCandidate | crates/broker/src/lib.rs:598-642 | succeeds exactly if the candidate and `minInSync` replicas reply and the candidate holds the high watermark; the error says how many replied and the highest offset |
| Selection.QuorumsMeetIffMajority | crates/broker/src/lib.rs:1141-1143 | every answering quorum without the leader meets every storing quorum exactly when `2 * minInSync > replicationFactor` |
| Selection.QuorumHasCandidate | crates/broker/src/lib.rs:1093-1149 | under a majority policy and with enough replies, some reply holds the high watermark, so a candidate is found |
| Selection.PickPassesCheck | crates/broker/src/lib.rs:1065-1077 | the replica automatic fail-over picks passes the check of its promotion |
| Promotion.PromotingBroker.PromoteLeader | crates/broker/src/lib.rs:544-596 | succeeds exactly at the controller for a verified replica below the last epoch; the new entry and the controller's log; a refusal changes nothing and names the first reason; at the controller it is the promotion step of the durability model and of the election model |
| Promotion.PromotingBroker.FailOver | crates/broker/src/lib.rs:1065-1077 | a replica is picked exactly if enough reply and one holds the high watermark; what promoting it leaves; with the same replies it never fails below the last epoch |
| Promotion.PickKeepsCommitted | crates/broker/src/lib.rs:1065-1149 | with a controller that knows the newest high watermark, the replica that fail-over picks may be promoted, and its promotion keeps every committed record whoever the broadcast reaches |
| Promotion.FailOverIsSafe | crates/broker/src/lib.rs:1093-1149 | at any point of an allowed run under a majority policy, if `minInSync` live replicas beside the leader reply, fail-over has a replica to pick, and every pick keeps every committed record |
| CatchUp.FollowerServer.Receive | crates/broker/src/lib.rs:1301-1347 | a replicated record at a follower does exactly what the protocol is proved for |
| CatchUp.FollowerServer.ApplyLeadership | crates/broker/src/lib.rs:496-518 | an announcement at a follower does exactly what the protocol is proved for |
| CatchUp.FollowerServer.SyncMetadata | crates/broker/src/lib.rs:1181-1194 | a newer controller entry is adopted, the log untouched |
| CatchUp.FollowerServer.RecoverPartition | crates/broker/src/lib.rs:1241-1283 | from any log and any leader: without a gap the log ends at the committed end with the old records and behind them the leader's, and equals the leader's exactly if it was a prefix; a gap left by retention is reported |
| CatchUp.RecoveredHolds | crates/broker/src/lib.rs:1241-1283 | what recovery makes of any log, and when it changes nothing |
| CatchUp.ReceiveInStep | crates/broker/src/lib.rs:1327-1344 | a record at a follower in step is reported missing, confirmed or stored, and the follower stays a prefix of the leader |
| CatchUp.ConfirmsIff | crates/broker/src/lib.rs:1327-1344 | a follower in any state confirms a record exactly if it accepts the leader and has nothing beyond it and nothing else in its place, and then holds the leader's records up to it exactly if it had no others |
| CatchUp.RefusesBecause | crates/broker/src/lib.rs:1303-1344 | why a follower does not confirm; its high watermark stays |
| CatchUp.Replicator.ReplicateToFollower | crates/broker/src/lib.rs:866-889 | terminates for a follower in any state; the reply or error, and the follower brought up to the record |
| CatchUp.Replicator.CountAcknowledgements | crates/broker/src/lib.rs:783-814 | counts the leader and exactly the followers that confirm, and says what becomes of each broker |
| CatchUp.AcknowledgementsAreReplicas | crates/broker/src/lib.rs:815-818 | the acknowledgements come from that many distinct replicas |
| CatchUp.AvailableCounts | crates/broker/src/lib.rs:783-814 | a commit counts the leader and exactly the reachable replicas that accept it and have nothing beyond or instead of the record |
| CatchUp.ReplicateOutcome | crates/broker/src/lib.rs:775-855 | when `Replicate` raises the high watermark, what the confirming replicas then hold and know, and who is untouched |
| CatchUp.ConfirmedIsHeld | crates/broker/src/lib.rs:815-855 | a confirming follower holds the record, and all of the leader's records up to it exactly if it had no others, also after the commit is announced |
| CatchUp.Replicator.Replicate | crates/broker/src/lib.rs:775-823 | for brokers in any state: commits exactly when `minInSync` replicas confirm, refuses a durable append exactly otherwise, and what becomes of every broker |
| CatchUp.Replicator.Commit | crates/broker/src/lib.rs:825-855 | the high watermark only rises, and every broker that can be reached handles the announcement, the others are untouched |
| Simulation.ReplicateIsRun | crates/broker/src/lib.rs:775-889 | what `Replicate` does to any state in which the broker leads is a run of the durability model within one epoch, which acknowledges the record if enough replicas hold it |
| Simulation.ReplicateKeepsInvariant | crates/broker/src/lib.rs:775-889 | so `Replicate` keeps the prefix and high-watermark invariants of an epoch |
| Simulation.ReplicateExtendsRun | crates/broker/src/lib.rs:775-889 | after any allowed run, if the controller is reachable or down, `Replicate` continues that run, so its acknowledged record survives whatever allowed steps follow |
| Simulation.CatchUpIsRun | crates/broker/src/lib.rs:866-889 | catching up one follower is a run of sends and receipts that ends in its acknowledgement if it confirms |
| Simulation.RecoveryIsRun | crates/broker/src/lib.rs:1241-1283 | what `RecoverPartition` does to a follower in any state is a run of fetches of the durability model |
| Simulation.RecoveryExtendsRun | crates/broker/src/lib.rs:1241-1283 | so recovery continues any allowed run and changes nothing but the follower's log |
| LeadershipText.ParseDecimal | crates/broker/src/leadership.rs:176-194 | a decimal number is parsed back exactly if it fits its type |
| LeadershipText.LineParsesIff | crates/broker/src/leadership.rs:169-194 | which lines are entries: topic, partition, leader and epoch, and a high watermark or none |
| LeadershipText.BadLineFails | crates/broker/src/leadership.rs:172-199 | one line that is no entry makes the file unreadable |
| LeadershipText.LineHasFields | crates/broker/src/leadership.rs:220-229 | the written line has the topic and the four numbers in this order |
| LeadershipText.ParseText | crates/broker/src/leadership.rs:169-209 | reading the lines written for some keys adds exactly their entries |
| LeadershipText.ParsedTopicsAreClean | crates/broker/src/leadership.rs:173-175 | no topic read from any text has a tab or a newline |
| LeadershipText.ParseRestoresIffClean | crates/broker/src/leadership.rs:169-232 | the file restores the entries exactly when no topic has a tab or a newline |
| Leadership.ParseEntries | crates/broker/src/leadership.rs:169-209 | the parsing loop computes `Parse` |
| Leadership.PersistEntries | crates/broker/src/leadership.rs:211-232 | the file has a line for each entry, in the order of the keys |
| LeadershipText.TextLeIff | crates/broker/src/leadership.rs:216-218 | the order of topics in the file |
| Leadership.EnsuredAdds | crates/broker/src/leadership.rs:49-60 | known entries stay and exactly the missing partitions get their deterministic leader at epoch 0 |
| Leadership.HistoryOnlyAdvances | crates/broker/src/leadership.rs:42-138 | over every run with restarts `(epoch, highWatermark)` of a partition never falls and a restart finds every entry |
| Leadership.LeaderFixedWithinEpoch | crates/broker/src/leadership.rs:123-129 | at any two times of one epoch a registry names one leader |
| Leadership.NextIsDurable | crates/broker/src/leadership.rs:61-63 | after each operation the file restores what is in memory |
| Leadership.LeadershipRegistry.Open | crates/broker/src/leadership.rs:24-40 | a registry opens with the entries of its file, or not at all |
| Leadership.LeadershipRegistry.EnsureTopic | crates/broker/src/leadership.rs:42-65 | the whole new state; the file is written only if an entry is new |
| Leadership.LeadershipRegistry.Topic | crates/broker/src/leadership.rs:67-86 | one entry for each partition, created first if missing; never an error |
| Leadership.LeadershipRegistry.Apply | crates/broker/src/leadership.rs:102-138 | the whole new state, and when and why an entry is refused |
| RecordCodec.RoundTrip | crates/storage/src/lib.rs:695-830 | a record that encodes decodes to itself, the bytes behind it untouched |
| RecordCodec.ProperPrefixIsIncomplete | crates/storage/src/lib.rs:695-712 | no proper prefix of a record decodes |
| RecordCodec.AsksForMoreIff | crates/storage/src/lib.rs:695-716 | more bytes are asked for exactly while the length field or what it measures is incomplete |
| RecordCodec.DecodesOnlyRecords | crates/storage/src/lib.rs:695-784 | whatever decodes has a proper length, the checksum of its body, and exactly the fields of its record in version 1 or 2 |
| RecordCodec.BodyLayout | crates/storage/src/lib.rs:802-829 | each field of an encoded record at its place, big-endian |
| RecordCodec.FitsIff | crates/storage/src/lib.rs:786-796 | the record limit in bytes |
| RecordCodec.ProducerIdIsValidIff | crates/protocol/src/lib.rs:1718-1728 | which producer ids are valid |
| RecordCodec.DecodeIsLocal | crates/storage/src/lib.rs:695-784 | decoding does not look past the record |
| RecordCodec.RecordFormatIsLawful | crates/storage/src/lib.rs:786-830 | the record format, whatever the checksum function, meets all that the log is proved from |
| LogModel.SparseIndexShape | crates/storage/src/lib.rs:282-301 | index entries point at records, in ascending order, the first at the segment's start |
| LogModel.SparseIndexBound | crates/storage/src/lib.rs:406-411 | fewer than the interval lies between the entry a lookup picks and its record |
| LogModel.SparseIndexIsSparse | crates/storage/src/lib.rs:282-301 | any two index entries are at least the interval apart |
| LogModel.ChainedIsExactlyOnce | crates/storage/src/lib.rs:584-604 | recovery's check accepts exactly the logs in which each producer's records have sequences 0, 1, 2, ... |
| LogModel.TableIsLatest | crates/storage/src/lib.rs:306-309 | the producer table holds the last sequence and its offset |
| LogModel.SequencesAreDistinct | crates/storage/src/lib.rs:246-266 | no producer uses a sequence for two records |
| LogModel.RetryFindsOriginal | crates/storage/src/lib.rs:248-256 | a retry of a producer's latest record gets its original offset, a retry of an older one is refused |
| LogModel.JudgesByCount | crates/storage/src/lib.rs:246-266 | a producer's next sequence is accepted if the record fits, its latest is answered with that record's offset, any other is refused with the expected one |
| LogModel.AcceptedAgain | crates/storage/src/lib.rs:368-374 | replay accepts every record of a log again unless it exceeds the size limit |
| LogState.ExactlyOnceAlways | crates/storage/src/lib.rs:245-311 | every state a log can be in holds each producer's records once and in sequence |
| Recovery.RecoversAllFrames | crates/storage/src/lib.rs:563-625 | recovery reads all records of a log and rebuilds next offset, length, index and producer table |
| Recovery.RecoversOnlyFrames | crates/storage/src/lib.rs:563-625 | whatever bytes recovery accepts are a well-formed log and an incomplete rest |
| Recovery.CutLeavesWholeRecords | crates/storage/src/lib.rs:614-622 | a file cut at any byte is its whole records and an incomplete rest |
| SegmentFiles.CrashRecovery | crates/storage/src/lib.rs:193-226 | opening after a cut at any byte gives exactly the records that end at or before it |
| SegmentFiles.ReopenChangesNothing | crates/storage/src/lib.rs:193-226 | opening the files of a log from offset 0 restores it and changes no file |
| SegmentFiles.OpensOnlyLogs | crates/storage/src/lib.rs:193-226 | any directory that opens, of any content, holds a well-formed log |
| LogState.OpenAfterCrash | crates/storage/src/lib.rs:166-243 | crash recovery of a whole directory with the matching state, and opening again changes nothing |
| LogState.OpensIffLowWatermarkZero | crates/storage/src/lib.rs:197-202 | a log opens again exactly if it starts at offset 0, and then to the same state |
| LogState.EmptyDirectoryOpens | crates/storage/src/lib.rs:182-186 | an empty directory opens as an empty log |
| PartitionLogs.RecoverSegment | crates/storage/src/lib.rs:563-625 | the recovery loop computes `RecoverFrom` |
| PartitionLogs.PartitionLog.Open | crates/storage/src/lib.rs:166-243 | the opened log or the error, for any files; what opens is valid |
| PartitionLogs.PartitionLog.OpenNext | crates/storage/src/lib.rs:196-226 | one segment: base check, recovery, cut of an incomplete tail of the active one only |
| LogState.RotatedHolds | crates/storage/src/lib.rs:499-513 | the file that a rotation creates never exists already, and the log is the same after it |
| LogState.PlacesIff | crates/storage/src/lib.rs:270-278 | a record starts a new segment exactly if the active one has records and would go past the limit |
| LogState.SegmentsStayWithin | crates/storage/src/lib.rs:270-301 | a segment goes past the limit only with a single record that is too large for any |
| PartitionLogs.PartitionLog.Rotate | crates/storage/src/lib.rs:499-513 | a new segment at the next offset; the log is the same |
| PartitionLogs.PartitionLog.RotateFor | crates/storage/src/lib.rs:270-278 | when a record of a size starts a new segment |
| PartitionLogs.PartitionLog.Write | crates/storage/src/lib.rs:280-301 | the file, the length and the sparse index after an append |
| PartitionLogs.PartitionLog.Append | crates/storage/src/lib.rs:245-311 | duplicates and refusals change nothing; an accepted record is the log's next one, and when it rotates; at the last offset the record is written but not counted |
| PartitionLogs.PartitionLog.AppendEncoded | crates/storage/src/lib.rs:267-310 | the log with one record more, all invariants kept, or at the last offset the record written and not counted |
| PartitionLogs.PartitionLog.AppendReplica | crates/storage/src/lib.rs:313-335 | confirms, refuses or appends exactly as the replication model does on a log from offset 0 |
| PartitionLogs.StoresLikeReplica | crates/storage/src/lib.rs:313-335 | the replication model's view of each case of a replicated append |
| PartitionLogs.TruncatesLikeReplica | crates/storage/src/lib.rs:337-376 | truncation commutes with the replication model's view of a log |
| PartitionLogs.PartitionLog.Read | crates/storage/src/lib.rs:390-432 | an indexed read over all segments equals the flat specification, in every valid state |
| PartitionLogs.PartitionLog.ReadSegment | crates/storage/src/lib.rs:398-429 | what one segment contributes, and whether the limit ends the read there |
| PartitionLogs.TakeRecords | crates/storage/src/lib.rs:416-428 | decoding a segment from an index entry skips, takes and stops at the right records |
| PartitionLogs.KeepBefore | crates/storage/src/lib.rs:347-351 | the longest front of records before an offset |
| FlatRead.RunIsLongest | crates/storage/src/lib.rs:424-426 | a read's run is the longest within the limit, or its first record alone |
| FlatRead.LookupIsNear | crates/storage/src/lib.rs:406-411 | a read decodes fewer than the interval's bytes before its record |
| FlatRead.ReadReturns | crates/storage/src/lib.rs:390-432 | a read returns consecutive records with their offsets from the first stored one at or behind the offset, and none exactly if there is none |
| PartitionLogs.PartitionLog.TruncateTo | crates/storage/src/lib.rs:337-376 | keeps exactly the records before the offset; it does so exactly when the log starts at 0 and all kept records still fit, or the offset is 0 |
| PartitionLogs.PartitionLog.Replay | crates/storage/src/lib.rs:368-374 | replay neither drops nor refuses a kept record that fits |
| PartitionLogs.PartitionLog.Clear | crates/storage/src/lib.rs:352-367 | an empty valid log |
| PartitionLogs.PartitionLog.ApplyRetention | crates/storage/src/lib.rs:463-497 | removes exactly the oldest segments while the stored log is over the limit or they are too old; the active one stays and the rest is a valid log |
| PartitionLogs.TotalIsSize | crates/storage/src/lib.rs:463-469 | what retention measures is the size of the log that is still stored |
| StorageLimits.V1IsReadButNotRewritten | crates/storage/src/lib.rs:695-830 | every record of version 1 within the limit is read, and can be written again exactly if it is 12 bytes below it |
| StorageLimits.OldRecordLog | crates/storage/src/lib.rs:368-374 | any such record that is too large, with any other record behind it, is a log from offset 0 whose front `TruncateTo` cannot write again |
| StorageLimits.RetainedDoesNotOpen | crates/storage/src/lib.rs:197-202 | whatever retention leaves of a log of several segments does not open |
| StorageLimits.RetainedLog | crates/storage/src/lib.rs:463-497 | two records in two segments from which retention removes exactly the first: what is left is a valid log from offset 1 that does not open |
| Rebalance.DealPartitions | crates/broker/src/groups.rs:355-363 | the dealing loop computes `Deal` |
| Rebalance.DealtTo | crates/broker/src/groups.rs:356-362 | partition `p` goes to the member at position `p` modulo the member count and to nobody else |
| Rebalance.DealtEvenly | crates/broker/src/groups.rs:355-363 | the exact size of each member's share |
| Rebalance.DealCoversExactly | crates/broker/src/groups.rs:345-365 | shares are disjoint, cover exactly the partitions, ascend, and differ by at most one in size |
| Groups.ExpireMembers | crates/broker/src/groups.rs:337-343 | drops exactly the silent members and says whether there were any |
| Groups.RebalanceGroup | crates/broker/src/groups.rs:345-365 | the next generation with the new assignment, or nothing at the last generation |
| GroupModel.FencedByGeneration | crates/broker/src/groups.rs:124-166 | over any run, two successful commits or fetches for one partition in one generation come from one member |
| GroupModel.GenerationFixesAssignment | crates/broker/src/groups.rs:55-201 | generations only grow, and a generation's assignment never changes |
| GroupModel.ReachableGroupsAreCovered | crates/broker/src/groups.rs:345-365 | in every reachable state the members share exactly the partitions of the last rebalance, evenly |
| GroupModel.NextKeeps | crates/broker/src/groups.rs:55-217 | every request keeps the invariants and only advances generations |
| GroupModel.SilentMembersAreRemoved | crates/broker/src/groups.rs:254-265 | a request first removes exactly the members silent for longer than the timeout |
| GroupModel.ActivatesIff | crates/broker/src/groups.rs:254-265 | when looking a group up fails, and that nothing but that group changes |
| GroupModel.AuthorizesIff | crates/broker/src/groups.rs:151-166 | a fetch is allowed exactly if, without the silent members, generation and member are current and the partition is anywhere in its share; a refusal says what is wrong |
| GroupModel.CommitsIff | crates/broker/src/groups.rs:124-149 | a commit succeeds exactly when a fetch would, and stores its offset in memory and on disk and nothing else |
| GroupModel.BeatsIff | crates/broker/src/groups.rs:95-108 | a heartbeat succeeds exactly for a known member, and only notes the time |
| GroupModel.LeavesIff | crates/broker/src/groups.rs:110-122 | a leave succeeds exactly for a known member below the last generation |
| GroupModel.JoinsIff | crates/broker/src/groups.rs:55-93 | when a join is refused, when it starts a generation, and who is then in the group |
| GroupModel.ValidIdIff | crates/broker/src/groups.rs:380-390 | the names that groups, topics and members may have |
| GroupModel.ExpiresExactly | crates/broker/src/groups.rs:188-201 | an expiry that runs through removes exactly the silent members of every group |
| GroupModel.ResizesExactly | crates/broker/src/groups.rs:203-217 | an announced partition count changes the offsets of the topic's groups and nothing else |
| GroupModel.JoinAssigns | crates/broker/src/groups.rs:55-93 | a joining member is told its share; a new one starts a generation that covers all partitions |
| GroupModel.LeaveHandsOver | crates/broker/src/groups.rs:110-122 | a leaving member is gone and the others share everything |
| GroupModel.SessionLasts | crates/broker/src/groups.rs:95-108 | after a heartbeat only its own leaving can end a membership before the session timeout, whatever else happens in the run |
| GroupModel.CommitSurvivesRestart | crates/broker/src/groups.rs:267-304 | a coordinator restarted on the same files knows a committed offset, beyond the default partition count once the topic's count is announced |
| GroupModel.RestartsWith | crates/broker/src/groups.rs:267-304 | what a restarted coordinator starts with: every stored group, empty, with the offsets below the default count |
| GroupModel.DiskHoldsLastCommit | crates/broker/src/groups.rs:124-186 | at any point of any run the stored offset of a partition is that of the last successful commit for it |
| Groups.GroupCoordinator.Join | crates/broker/src/groups.rs:55-93 | state and reply as in the model |
| Groups.GroupCoordinator.Heartbeat | crates/broker/src/groups.rs:95-108 | state and reply as in the model |
| Groups.GroupCoordinator.Leave | crates/broker/src/groups.rs:110-122 | state and reply as in the model |
| Groups.GroupCoordinator.Commit | crates/broker/src/groups.rs:124-149 | state, offset file and reply as in the model |
| Groups.GroupCoordinator.AuthorizeFetch | crates/broker/src/groups.rs:151-166 | state and reply as in the model |
| Groups.GroupCoordinator.ExpireSessions | crates/broker/src/groups.rs:188-201 | all groups in turn until a generation is exhausted |
| Groups.GroupCoordinator.SetTopicPartitions | crates/broker/src/groups.rs:203-217 | the new count and the offsets of all groups of the topic; generations and assignments stay |
| Groups.GroupCoordinator.ActiveGroup | crates/broker/src/groups.rs:254-265 | expiry and rebalance before a request |
| Groups.GroupCoordinator.LoadOffsets | crates/broker/src/groups.rs:306-328 | the offset files below a partition count |
| Frames.TakeFramed | crates/protocol/src/lib.rs:621-642 | a frame is taken out of a stream exactly if its body is neither empty nor beyond the limit |
| Frames.TakesIff | crates/protocol/src/lib.rs:621-642 | what is at the front of any buffer: a frame, a bad length, or something incomplete |
| Frames.TakeFrameIsLocal | crates/protocol/src/lib.rs:621-642 | more bytes change nothing about a frame or an error once seen |
| Frames.DrainInTwo | crates/broker/src/lib.rs:245-254 | decoding before more bytes arrive changes neither messages nor error |
| Frames.ChunkingDoesNotMatter | crates/broker/src/lib.rs:245-254 | any cut of a stream into chunks gives the same messages, the same error and the same rest |
| Frames.DrainLeavesIncomplete | crates/protocol/src/lib.rs:637-639 | what decoding leaves is incomplete and stays untouched |
| Frames.DrainsFrames | crates/broker/src/lib.rs:254-256 | encoded frames back to back are decoded in order |
| Frames.DrainStopsAtError | crates/broker/src/lib.rs:254-256 | decoding delivers what is before the first bad frame and stops there |
| Frames.Buffer.SetFrameLength | crates/protocol/src/lib.rs:1693-1701 | the length is patched into the header in place |
| Frames.Buffer.PutFrame | crates/protocol/src/lib.rs:1654-1667 | a frame is appended behind what the buffer holds |
| Frames.Buffer.Take | crates/protocol/src/lib.rs:621-642 | a whole frame is consumed; otherwise the buffer is untouched |
| Frames.Buffer.DecodeAll | crates/broker/src/lib.rs:254-256 | the decode-until-None loop computes `Drain` |
| Frames.Serve | crates/broker/src/lib.rs:245-256 | a connection delivers what its whole stream decodes to, and reports a stream that ends inside a frame |
| Fields.FieldsReadBack | crates/protocol/src/lib.rs:1730-1750 | every field is read back with the rest untouched |
| Fields.StringReadBack | crates/protocol/src/lib.rs:1681-1691 | a string is read back with the rest untouched |
| Fields.TopicIsValidIff | crates/protocol/src/lib.rs:1710-1716 | which topic names the protocol accepts |
| Utf8.ValidIffText | crates/protocol/src/lib.rs:1681-1691 | the valid texts are exactly the encodings of sequences of Unicode scalar values |
| Fields.AllReadBack | crates/protocol/src/lib.rs:1245-1266 | a repeated group of fields is read back with the rest untouched |
| Fields.PutEach | crates/protocol/src/lib.rs:1370-1377 | an encoder's loop appends all items |
| Fields.GetEach | crates/protocol/src/lib.rs:1251-1263 | a decoder's loop reads the items or fails at the first bad one |
| Requests.ProduceRoundTrip | crates/protocol/src/lib.rs:1111-1165 | the fields of a produce request decode to it |
| Requests.BatchRecordsRoundTrip | crates/protocol/src/lib.rs:1245-1266 | the records of a batch decode to themselves |
| Requests.BatchRoundTrip | crates/protocol/src/lib.rs:1207-1243 | a batch that encodes decodes to itself, plain or compressed |
| Requests.BatchesIff | crates/protocol/src/lib.rs:1245-1266 | which batches are accepted: 1 to 1,000 records, each and all within their limits |
| Requests.FetchesIff | crates/protocol/src/lib.rs:1268-1285 | which fetches are accepted |
| Requests.ProducesIff | crates/protocol/src/lib.rs:1111-1165 | which produce requests are accepted |
| Requests.RequestOpcode | crates/protocol/src/lib.rs:15-45 | the first byte of each request |
| Requests.RequestRoundTrip | crates/protocol/src/lib.rs:644-771 | each of the sixteen requests that encodes decodes to itself |
| RequestForms.DecodesOnlyRequests | crates/protocol/src/lib.rs:644-771 | whatever decodes is a well-formed request, and but for produce requests and batches its frame is exactly its encoding |
| RequestForms.ProduceForms | crates/protocol/src/lib.rs:1111-1165 | a produce request that decodes stood on the wire as it is encoded, but for the numbers in place of an absent producer or partition |
| RequestForms.BatchForms | crates/protocol/src/lib.rs:1207-1243 | a batch that decodes stood on the wire as it is encoded, its records plain or compressed |
| Responses.ResponseRoundTrip | crates/protocol/src/lib.rs:773-1031 | each of the eleven responses that encodes decodes to itself, a batch acknowledgement exactly if it has 1 to 1,000 entries |
| Responses.ResponseOpcode | crates/protocol/src/lib.rs:16-41 | the first byte of each response |
| ResponseForms.DecodesOnlyResponses | crates/protocol/src/lib.rs:847-1031 | whatever decodes is a response whose encoding is exactly its frame, but for the number in place of an absent offset |
| Responses.TopicReadBack | crates/protocol/src/lib.rs:1033-1081 | topic metadata with its lists is read back |
| ReplicationCodec.RecordRoundTrip | crates/protocol/src/lib.rs:141-210 | a replicated record decodes to itself exactly if its key is not an empty one |
| ReplicationCodec.AckRoundTrip | crates/protocol/src/lib.rs:212-231 | an acknowledgement decodes to itself |
| ReplicationCodec.DecodesOnlyRecords | crates/protocol/src/lib.rs:172-210 | whatever decodes is a replicated record whose encoding is exactly its frame |
| ReplicationCodec.DecodesOnlyAcks | crates/protocol/src/lib.rs:220-231 | exactly the encodings of acknowledgements decode |
| Streams.RequestArrives | crates/protocol/src/lib.rs:644-771 | a request arrives as sent, the bytes behind it untouched, exactly if its frame is within 4 MiB |
| Streams.ResponseArrives | crates/protocol/src/lib.rs:847-879 | a response arrives as sent exactly if its frame is within 4 MiB and it is not a bad batch acknowledgement |
| Streams.ReplicationArrives | crates/protocol/src/lib.rs:176-210 | a replicated record arrives, an empty key as none |
| Streams.AckArrives | crates/protocol/src/lib.rs:220-231 | a replication acknowledgement arrives as sent |
| WireBytes.ProduceBytes | crates/protocol/src/lib.rs:1287-1330 | a produce request byte by byte |
| WireBytes.FetchBytes | crates/protocol/src/lib.rs:720-771 | a fetch byte by byte |
| WireBytes.GroupBytes | crates/protocol/src/lib.rs:720-771 | group requests byte by byte |
| WireBytes.LeaderBytes | crates/protocol/src/lib.rs:720-771 | promotions and announcements byte by byte |
| WireBytes.SmallResponseBytes | crates/protocol/src/lib.rs:773-845 | acknowledgements, offsets, assignments and errors byte by byte |
| WireBytes.ReplicationBytes | crates/protocol/src/lib.rs:141-170 | a replicated record byte by byte |
| WireBytes.GroupFetchBytes | crates/protocol/src/lib.rs:720-771 | a group fetch byte by byte |
| WireBytes.FetchCommittedBytes | crates/protocol/src/lib.rs:720-771 | a request for a committed offset byte by byte |
| WireBytes.TopicBytes | crates/protocol/src/lib.rs:720-771 | topic requests byte by byte |
| WireBytes.LeadershipBytes | crates/protocol/src/lib.rs:773-845 | a leadership change byte by byte |
| WireBytes.FetchedBytes | crates/protocol/src/lib.rs:773-845 | a fetched record byte by byte, with a key and without |
| WireBytes.TopicMetadataBytes | crates/protocol/src/lib.rs:1033-1081 | topic metadata byte by byte |
| WireBytes.NodeBytes | crates/protocol/src/lib.rs:773-845 | a cluster node byte by byte |
| WireBytes.ReplicationAckBytes | crates/protocol/src/lib.rs:212-219 | a replication acknowledgement byte by byte |
| Bytes.BigEndian | crates/protocol/src/lib.rs:1730-1750 | numbers on the wire are big-endian |
| Streams.RequestsSurviveAnyChunking | crates/broker/src/lib.rs:245-256 | requests sent back to back are received in order however the stream is cut, an incomplete one is kept |
| Streams.PutRequest | crates/protocol/src/lib.rs:720-771 | a request is appended as one frame |
| Streams.PutResponse | crates/protocol/src/lib.rs:773-845 | a response is appended as one frame |
| Retry.EncodeEnvelope | bin/sevlamq-cli/src/commands/retry.rs:142-175 | the envelope, or an error exactly if it exceeds the size limit |
| Retry.EnvelopeRoundTrip | bin/sevlamq-cli/src/commands/retry.rs:142-217 | an envelope opens to the original message with the new attempt and time |
| Retry.EnvelopeLayout | bin/sevlamq-cli/src/commands/retry.rs:142-175 | each field of an envelope at its place, the reported error among them |
| Retry.ReportedIsFront | bin/sevlamq-cli/src/commands/retry.rs:148-149 | up to 4,096 bytes of the error are reported |
| Retry.OpensOnlyEnvelopes | bin/sevlamq-cli/src/commands/retry.rs:177-217 | whatever opens as an envelope has exactly that layout |
| Retry.RoutesTo | bin/sevlamq-cli/src/commands/retry.rs:103-120 | where a failure goes, as which attempt, and when it is available: the delay is added to the time and saturates |
| Retry.OriginalIffNoMagic | bin/sevlamq-cli/src/commands/retry.rs:27-45 | a record is taken for itself exactly if its value does not start with the magic |
| Retry.TakenForItself | bin/sevlamq-cli/src/commands/retry.rs:27-45 | what message a record is that is taken for itself |
| Retry.TopicsAreDistinct | bin/sevlamq-cli/src/commands/retry.rs:235-241 | different delays have different retry topics, none of them the dead-letter topic |
| Retry.FormatDelayText | bin/sevlamq-cli/src/commands/retry.rs:235-241 | whole seconds are written as seconds, everything else as milliseconds |
| Retry.TopicNames | bin/sevlamq-cli/src/commands/retry.rs:103-120 | the names of retry and dead-letter topics, byte by byte |
| Retry.NameText | bin/sevlamq-cli/src/commands/retry.rs:219-233 | the generated producer id: the checksum in hexadecimal and the attempt in decimal |
| Retry.ProducerIdIsValid | bin/sevlamq-cli/src/commands/retry.rs:219-233 | the producer id of a retry always passes validation |
| Retry.PublishesIff | bin/sevlamq-cli/src/commands/retry.rs:95-140 | a produce request is made for a failure exactly if its envelope fits and topic and key are acceptable |
| RetryChain.StoredIffUnused | crates/storage/src/lib.rs:246-266 | a publication is stored exactly if its producer id is unused in the partition |
| RetryChain.RepublishIsAnswered | bin/sevlamq-cli/src/commands/retry.rs:121-138 | publishing the same failure again is acknowledged with the stored record's offset |
| RetryChain.BothKeptIffIdsDiffer | bin/sevlamq-cli/src/commands/retry.rs:219-233 | two publications in one partition are both stored exactly if their generated ids differ; otherwise the second is acknowledged with the first one's offset |
| RetryChain.SameIdIff | bin/sevlamq-cli/src/commands/retry.rs:219-233 | two generated ids, of whatever groups and delays, are the same exactly if attempts are and checksums collide |
| RetryChain.SomeIdsCollide | bin/sevlamq-cli/src/commands/retry.rs:219-233 | for every checksum function, among 2^32 + 1 offsets of one partition two failures share an id |
| RetryChain.SomeFailureIsLost | bin/sevlamq-cli/src/commands/retry.rs:95-140 | for every checksum function there are two messages whose failures are both acknowledged, and only the first is stored |
| RetryChain.ChainEndsInDeadLetters | bin/sevlamq-cli/src/commands/retry.rs:95-140 | with unused producer ids a failing message is stored in the retry topic of each remaining delay once, attempts rising by one and available at the time of the failure plus that delay, then in the dead-letter topic; its original fields are unchanged and its key, or the generated id, routes it |
| RetryChain.RetriedOncePerDelay | bin/sevlamq-cli/src/commands/retry.rs:27-140 | the same from the first consumption on, for a message that does not look like an envelope |

## Left out

* Sockets, tasks, timeouts, channels, metrics, the admin server, configuration parsing and the command line.
* I/O errors, `fsync` and rename atomicity: writes succeed whole; a crash is a cut of the active file at any byte.
* `.idx` files: they are written and rewritten but never read, so they are not part of the model.
* The moment between a promotion at the controller and the arrival of its broadcast: they are one step of `Durability`; a broker that the broadcast misses may hear of it at any later time.
* Topic and partition lookup, topic creation and metadata, partition selection and long polling around the storage engine.
* Topic-name validation of the storage engine and segment-name validation in `discover_segments`: files are keyed by base offset.
* File lengths beyond 64 bits, and a `JoinGroup` response of more than 2^30 partitions, whose length field wraps around.
* File ages: retention gets the set of files that are too old.
* Registry entries from before high watermarks were stored: the parser's `u64::MAX` for a missing fifth field is modelled, the migration that replaces it is not.
* Contents of offset files: they hold numbers; a malformed file, which makes the coordinator fail, is not modelled.
* Poisoned locks, and a registry whose file could not be written after its memory changed.
* Bytes that a failed protocol encoder leaves at the end of its buffer.
* The bodies of protocol frames are built and read as values, not by moving a cursor; buffers, frame extraction, the patched length field and the decode loop are updated in place.
- Durability.AcknowledgedRecordsSurvive: holds under the premises in `Durability.Allowed` (fail-stop brokers; records are appended by the leader; they are sent, acknowledged and committed in the epoch in which they were taken for replication; a commit reaches a live controller; promotion and its broadcast are one step that reaches all live brokers; a non-candidate controller has no uncommitted tail); `DataLoss` shows what goes wrong without each of the premises in `Allowed`
- Durability.ServedRecordsNeverChange: holds under the same premises
- Durability.HighWatermarkIsHeld: holds under the same premises
- Durability.StepKeeps: for the steps that these premises, or within one epoch `Durability.Steady`, permit
- PartitionLogs.PartitionLog.Read: assumes files are as the log wrote them; corruption while the broker runs is not modelled
- CatchUp.Replicator.Replicate: a follower either answers every message of one call or none; partial delivery, and other steps in between, are part of `Durability`
- CatchUp.FollowerServer.RecoverPartition: the leader's log and watermarks do not change during one call; interleavings are part of `Durability`
- RetryChain.ChainEndsInDeadLetters: the incidents say which partition a publication goes to and what it holds; the broker's choice of a partition by key is not modelled
- Leadership.LeadershipRegistry.Apply: topic names are without tab and newline, as validated before they reach the registry
