/** What one broker does with a replicated record and with a leadership announcement. */
module Replica {
  import opened Wrappers
  import opened Bytes
  import opened Cluster

  /** The part of a record that replication carries: replicas drop the producer identity. */
  datatype Payload = Payload(timestamp: u64, key: Option<bytes>, value: bytes)

  type Log = seq<Payload>

  datatype ReplicaError =
    | ReplicaDiverged(offset: nat)
    | UnexpectedOffset(expected: nat, actual: nat)
    | StaleLeaderEpoch
    | Registry(cause: LeadershipError)
    | InvalidReplicationAck

  /** A record on its way to a follower. */
  datatype Replication = Replication(offset: nat, record: Payload, leader: nat, epoch: nat)

  /** A broker's state for one partition: its log and its registry entry. */
  datatype Broker = Broker(log: Log, entry: Entry)

  /** `PartitionLog::append_replica` on the abstract log. */
  function AppendReplica(log: Log, offset: nat, record: Payload): Result<Log, ReplicaError> {
    if offset < |log| then
      if log[offset] == record then Success(log) else Failure(ReplicaDiverged(offset))
    else if offset != |log| then Failure(UnexpectedOffset(|log|, offset))
    else Success(log + [record])
  }

  function Truncated(log: Log, length: nat): Log {
    if |log| > length then log[..length] else log
  }

  /** A broker after handling a request, and its reply; a failing request may already have changed the broker. */
  datatype Handled<+T> = Handled(broker: Broker, reply: Result<T, ReplicaError>)

  /**
   A replicated record at a follower: fence stale epochs, on a newer epoch cut the tail from the record's offset and
   adopt the epoch, then store the record or, after a gap, only report the offset that is missing.
   */
  function HandleReplication(nodes: seq<nat>, b: Broker, m: Replication): Handled<nat> {
    if m.epoch < b.entry.epoch || (m.epoch == b.entry.epoch && m.leader != b.entry.leader) then
      Handled(b, Failure(StaleLeaderEpoch))
    else if m.epoch > b.entry.epoch then
      var fenced := HandleEpoch(nodes, b, Entry(m.leader, m.epoch, b.entry.highWatermark), m.offset);
      if fenced.reply.Failure? then Handled(fenced.broker, Failure(fenced.reply.error)) else Store(fenced.broker, m)
    else
      Store(b, m)
  }

  function Store(b: Broker, m: Replication): Handled<nat> {
    if m.offset > |b.log| then Handled(b, Success(|b.log|))
    else
      match AppendReplica(b.log, m.offset, m.record)
      case Success(log) => Handled(b.(log := log), Success(|log|))
      case Failure(error) => Handled(b, Failure(error))
  }

  /** Cut the log down to `length`, then offer `offered` to the registry. */
  function HandleEpoch(nodes: seq<nat>, b: Broker, offered: Entry, length: nat): Handled<Entry> {
    var log := Truncated(b.log, length);
    match Adopt(nodes, Some(b.entry), offered)
    case Success(entry) => Handled(Broker(log, entry), Success(entry))
    case Failure(cause) => Handled(b.(log := log), Failure(Registry(cause)))
  }

  /** A record from before the broker's epoch, or from another leader of it. */
  predicate Stale(b: Broker, m: Replication) {
    m.epoch < b.entry.epoch || (m.epoch == b.entry.epoch && m.leader != b.entry.leader)
  }

  /**
   A replicated record never changes the high watermark that the broker knows; leader and epoch change exactly if the record
   is of a newer epoch and its leader a member of the cluster, also when the record itself is then refused.
   */
  lemma ReplicatedEntry(nodes: seq<nat>, b: Broker, m: Replication)
    ensures var after := HandleReplication(nodes, b, m).broker.entry;
            && after.highWatermark == b.entry.highWatermark
            && (after == b.entry || (after.leader == m.leader && after.epoch == m.epoch))
            && (after != b.entry <==> m.epoch > b.entry.epoch && m.leader in nodes)
  {
  }

  /**
   What becomes of the log, and the reply: a stale record changes nothing; one of a newer epoch first cuts the log to the
   records before it, even if its leader is then refused; of the rest, one behind a gap is reported missing, the next one is
   stored, and an earlier one is confirmed exactly if the same record is there.
   */
  lemma ReplicatedLog(nodes: seq<nat>, b: Broker, m: Replication)
    ensures var h := HandleReplication(nodes, b, m);
            var kept := if m.epoch > b.entry.epoch && m.offset < |b.log| then m.offset else |b.log|;
            && (h.reply == Failure(StaleLeaderEpoch) <==> Stale(b, m))
            && (Stale(b, m) ==> h.broker == b)
            && (!Stale(b, m) && m.epoch > b.entry.epoch && m.leader !in nodes ==>
                  h.reply == Failure(Registry(UnknownBroker)) && h.broker.log == b.log[..kept])
            && (!Stale(b, m) && (m.epoch == b.entry.epoch || m.leader in nodes) ==>
                  if m.offset > kept then h.reply == Success(kept) && h.broker.log == b.log
                  else if m.offset == kept then h.reply == Success(kept + 1) && h.broker.log == b.log[..kept] + [m.record]
                  else h.broker.log == b.log
                       && h.reply == if b.log[m.offset] == m.record then Success(kept) else Failure(ReplicaDiverged(m.offset)))
  {
  }

  /**
   A leadership announcement: the entry is taken exactly if it names a member and may follow the known one, and a newer epoch
   cuts the log to the announced high watermark whether the entry is taken or not.
   */
  lemma AnnouncedOutcome(nodes: seq<nat>, b: Broker, offered: Entry)
    ensures var h := HandleApply(nodes, b, offered);
            && (h.reply == Success(offered) <==> offered.leader in nodes && Follows(offered, b.entry))
            && (h.reply == Success(offered) || h.reply == Failure(Registry(if offered.leader in nodes then StaleEpoch else UnknownBroker)))
            && h.broker.entry == (if h.reply.Success? then offered else b.entry)
            && h.broker.log
               == if offered.epoch > b.entry.epoch && offered.highWatermark < |b.log| then b.log[..offered.highWatermark] else b.log
  {
    AdoptsIff(nodes, Some(b.entry), offered);
  }

  /** The `ApplyLeadership` request: a newer epoch first cuts the local tail down to the announced high watermark. */
  function HandleApply(nodes: seq<nat>, b: Broker, offered: Entry): Handled<Entry> {
    HandleEpoch(nodes, b, offered, if offered.epoch > b.entry.epoch then offered.highWatermark else |b.log|)
  }
}
