/** Both ends of replication: the follower's handler, and the leader that brings followers up to date and commits. */
module CatchUp {
  import opened Wrappers
  import opened Cluster
  import opened Replica

  /** A follower for one partition. */
  class FollowerServer {
    const nodes: seq<nat>
    var log: Log
    var entry: Entry

    function State(): Broker
      reads this
    {
      Broker(log, entry)
    }

    constructor (nodes: seq<nat>, log: Log, entry: Entry)
      ensures this.nodes == nodes && State() == Broker(log, entry)
    {
      this.nodes, this.log, this.entry := nodes, log, entry;
    }

    method ApplyToRegistry(offered: Entry) returns (r: Result<Unit, ReplicaError>)
      modifies this`entry
      ensures match Adopt(nodes, Some(old(entry)), offered)
              case Success(adopted) => r == Success(Done) && entry == adopted
              case Failure(cause) => r == Failure(Registry(cause)) && entry == old(entry)
    {
      match Adopt(nodes, Some(entry), offered)
      case Success(adopted) =>
        entry := adopted;
        r := Success(Done);
      case Failure(cause) =>
        r := Failure(Registry(cause));
    }

    /** A replicated record arrives. */
    method Receive(m: Replication) returns (r: Result<nat, ReplicaError>)
      modifies this
      ensures Handled(State(), r) == HandleReplication(nodes, old(State()), m)
    {
      if m.epoch < entry.epoch || (m.epoch == entry.epoch && m.leader != entry.leader) {
        return Failure(StaleLeaderEpoch);
      }
      if m.epoch > entry.epoch {
        if |log| > m.offset {
          log := log[..m.offset];
        }
        var applied := ApplyToRegistry(Entry(m.leader, m.epoch, entry.highWatermark));
        if applied.Failure? {
          return Failure(applied.error);
        }
      }
      if m.offset > |log| {
        return Success(|log|);
      }
      var stored := AppendReplica(log, m.offset, m.record);
      if stored.Failure? {
        return Failure(stored.error);
      }
      log := stored.value;
      return Success(|log|);
    }

    /** A leadership announcement arrives. */
    method ApplyLeadership(offered: Entry) returns (r: Result<Entry, ReplicaError>)
      modifies this
      ensures Handled(State(), r) == HandleApply(nodes, old(State()), offered)
    {
      if offered.epoch > entry.epoch {
        if |log| > offered.highWatermark {
          log := log[..offered.highWatermark];
        }
      }
      var applied := ApplyToRegistry(offered);
      if applied.Failure? {
        return Failure(applied.error);
      }
      return Success(offered);
    }

    /** Take over what the controller knows, when that is newer; the log stays as it is. */
    method SyncMetadata(theirs: Entry) returns (r: Result<Unit, ReplicaError>)
      modifies this`entry
      ensures var newer := theirs.epoch > old(entry).epoch
                           || (theirs.epoch == old(entry).epoch && theirs.highWatermark > old(entry).highWatermark);
              if newer && Adopt(nodes, Some(old(entry)), theirs).Success? then r == Success(Done) && entry == theirs
              else entry == old(entry) && (r.Failure? <==> newer)
    {
      if theirs.epoch > entry.epoch || (theirs.epoch == entry.epoch && theirs.highWatermark > entry.highWatermark) {
        r := ApplyToRegistry(theirs);
      } else {
        r := Success(Done);
      }
    }

    /**
     Fetch from the leader, batch after batch from the end of the own log, until it has nothing more to give. The leader
     gives records from its low watermark on and below its high watermark, at least one while there are any. The records
     are appended unseen behind whatever the follower has; a gap left by the leader's retention is an error.
     */
    method RecoverPartition(leader: Log, low: nat, highWatermark: nat, more: nat -> nat) returns (r: Result<Unit, ReplicaError>)
      modifies this`log
      ensures r == if |old(log)| < low < Smaller(highWatermark, |leader|) then Failure(UnexpectedOffset(|old(log)|, low))
                   else Success(Done)
      ensures log == Recovered(old(log), leader, low, highWatermark)
      ensures old(log) <= log
      ensures low <= |old(log)| <= highWatermark <= |leader| && low < highWatermark ==>
                && r == Success(Done) && |log| == highWatermark
                && (forall i :: |old(log)| <= i < highWatermark ==> log[i] == leader[i])
                && (old(log) <= leader <==> log == leader[..highWatermark])
    {
      RecoveredHolds(log, leader, low, highWatermark);
      var offset, committed := |log|, Smaller(highWatermark, |leader|);
      ghost var before := log;
      while true
        invariant |before| <= offset == |log| && (offset <= committed || log == before)
        invariant log == before + Beyond(leader, |before|, offset)
        invariant offset > |before| ==> low <= |before| && low < committed
        decreases if committed > offset then committed - offset else 0
      {
        var first := if offset < low then low else offset;
        if first >= committed {
          if low < committed {
            BeyondEnd(leader, |before|, offset, committed);
          } else {
            assert before + [] == before;
          }
          return Success(Done);
        }
        var end := Smaller(first + 1 + more(offset), committed);
        for i := first to end
          invariant |before| <= |log| && |log| == (if first == offset then i else offset)
          invariant first > offset ==> i == first
          invariant log == before + Beyond(leader, |before|, |log|)
          invariant |log| <= committed
        {
          var stored := AppendReplica(log, i, leader[i]);
          match stored {
            case Success(longer) =>
              BeyondGrows(leader, before, i);
              log := longer;
            case Failure(error) =>
              return Failure(error);
          }
        }
        offset := |log|;
      }
    }
  }

  /** The records of `log` from `from` up to `to`, as far as there are any. */
  function Beyond(log: Log, from: nat, to: nat): Log {
    if from <= to <= |log| then log[from..to] else []
  }

  /** What recovery makes of `log`: nothing behind a gap, and otherwise the leader's committed records are appended. */
  function Recovered(log: Log, leader: Log, low: nat, highWatermark: nat): Log {
    var committed := Smaller(highWatermark, |leader|);
    if low <= |log| && low < committed then log + Beyond(leader, |log|, committed) else log
  }

  /**
   What a recovered follower holds: its own records, unseen, and behind them the leader's records up to the high watermark,
   each at its offset. A follower that was a prefix of the committed log is then the whole of it.
   */
  lemma RecoveredHolds(log: Log, leader: Log, low: nat, highWatermark: nat)
    ensures var after, committed := Recovered(log, leader, low, highWatermark), if highWatermark <= |leader| then highWatermark else |leader|;
            && log <= after
            && (|log| < low || low >= committed || |log| >= committed ==> after == log)
            && (low <= |log| <= committed && low < committed ==>
                  && |after| == committed
                  && (forall i :: |log| <= i < committed ==> after[i] == leader[i])
                  && (log <= leader <==> after == leader[..committed]))
  {
    var after, committed := Recovered(log, leader, low, highWatermark), Smaller(highWatermark, |leader|);
    if low <= |log| <= committed && low < committed {
      assert after[..|log|] == log;
      if log <= leader {
        assert forall i :: 0 <= i < |log| ==> after[i] == leader[i];
      }
      if after == leader[..committed] {
        assert log == leader[..committed][..|log|];
      }
    }
  }

  lemma BeyondGrows(log: Log, before: Log, i: nat)
    requires |before| <= i < |log|
    ensures before + Beyond(log, |before|, i) + [log[i]] == before + Beyond(log, |before|, i + 1)
  {
  }

  lemma BeyondEnd(log: Log, from: nat, to: nat, committed: nat)
    requires from <= to && (to == committed <= |log| || (to == from && (to >= committed || committed > |log|)))
    ensures Beyond(log, from, committed) == Beyond(log, from, to)
  {
  }

  function Smaller(a: nat, b: nat): nat {
    if a <= b then a else b
  }

  datatype ReplicateError = NotEnoughInSyncReplicas(required: nat, available: nat)

  /** The log a follower has once it accepted the epoch of a record at `offset`. */
  function FencedLog(b: Broker, epoch: nat, offset: nat): Log {
    if epoch > b.entry.epoch then Truncated(b.log, offset) else b.log
  }

  /** A follower that does not know a newer leader. */
  predicate Accepts(b: Broker, leadership: Entry) {
    b.entry.epoch < leadership.epoch || (b.entry.epoch == leadership.epoch && b.entry.leader == leadership.leader)
  }

  function RecordAt(log: Log, leadership: Entry, offset: nat): Replication
    requires offset < |log|
  {
    Replication(offset, log[offset], leadership.leader, leadership.epoch)
  }

  /**
   What becomes of a follower to which a leader brings the record at `offset`: it gets that record, and if it then asks
   for earlier ones, everything from the one it asks for.
   */
  function CaughtUp(nodes: seq<nat>, log: Log, leadership: Entry, b: Broker, offset: nat): Handled<Unit>
    requires offset < |log|
  {
    var first := HandleReplication(nodes, b, RecordAt(log, leadership, offset));
    match first.reply
    case Failure(error) => Handled(first.broker, Failure(error))
    case Success(next) =>
      if next > offset + 1 then Handled(first.broker, Failure(InvalidReplicationAck))
      else Handled(Broker(first.broker.log + Beyond(log, |first.broker.log|, offset + 1), first.broker.entry), Success(Done))
  }

  /**
   A follower confirms a record exactly if it accepts the leader and has nothing beyond the record and nothing else in
   its place. It then ends with the record, and with the leader's records up to there exactly if it had no others.
   */
  lemma ConfirmsIff(nodes: seq<nat>, log: Log, leadership: Entry, b: Broker, offset: nat)
    requires leadership.leader in nodes && offset < |log|
    ensures var before, after := FencedLog(b, leadership.epoch, offset), CaughtUp(nodes, log, leadership, b, offset);
            && (after.reply.Success?
                <==> Accepts(b, leadership) && |before| <= offset + 1 && (|before| == offset + 1 ==> before[offset] == log[offset]))
            && (after.reply.Success? ==>
                  && after.broker.entry.epoch == leadership.epoch && after.broker.entry.leader == leadership.leader
                  && |after.broker.log| == offset + 1 && after.broker.log[offset] == log[offset]
                  && (after.broker.log == log[..offset + 1] <==> before <= log))
            && (after.reply.Failure? ==> after.broker.log == if Accepts(b, leadership) then before else b.log)
  {
    if CaughtUp(nodes, log, leadership, b, offset).reply.Success? {
      var first := HandleReplication(nodes, b, RecordAt(log, leadership, offset));
      SuffixAppended(log, first.broker.log, FencedLog(b, leadership.epoch, offset), offset);
    }
  }

  /** Why a follower does not confirm, and what it then knows: its high watermark never changes. */
  lemma RefusesBecause(nodes: seq<nat>, log: Log, leadership: Entry, b: Broker, offset: nat)
    requires leadership.leader in nodes && offset < |log|
    ensures var before, after := FencedLog(b, leadership.epoch, offset), CaughtUp(nodes, log, leadership, b, offset);
            && (after.reply == Failure(StaleLeaderEpoch) <==> !Accepts(b, leadership))
            && (after.reply == Failure(ReplicaDiverged(offset))
                <==> Accepts(b, leadership) && offset < |before| && before[offset] != log[offset])
            && (after.reply == Failure(InvalidReplicationAck)
                <==> Accepts(b, leadership) && offset + 1 < |before| && before[offset] == log[offset])
            && after.broker.entry.highWatermark == b.entry.highWatermark
            && (Accepts(b, leadership) ==>
                  after.broker.entry.leader == leadership.leader && after.broker.entry.epoch == leadership.epoch)
            && (!Accepts(b, leadership) ==> after.broker == b)
  {
  }

  lemma SuffixAppended(log: Log, stored: Log, before: Log, offset: nat)
    requires offset < |log| && |before| <= offset + 1 && (|before| == offset + 1 ==> before[offset] == log[offset])
    requires stored == if |before| == offset then before + [log[offset]] else before
    ensures var after := stored + Beyond(log, |stored|, offset + 1);
            && |after| == offset + 1 && after[offset] == log[offset]
            && (after == log[..offset + 1] <==> before <= log)
  {
    var after := stored + Beyond(log, |stored|, offset + 1);
    assert after[..|before|] == before;
    if before <= log {
      assert forall i :: 0 <= i < |before| ==> after[i] == before[i];
      assert after == log[..offset + 1];
    }
  }

  /** A follower that accepts this leader and, once it did, holds a prefix of the leader's log. */
  predicate FollowsLeader(log: Log, leadership: Entry, b: Broker, offset: nat) {
    Accepts(b, leadership) && FencedLog(b, leadership.epoch, offset) <= log
  }

  /** A follower of the current epoch that holds a prefix of the leader's log. */
  predicate InStep(log: Log, leadership: Entry, b: Broker) {
    b.entry.leader == leadership.leader && b.entry.epoch == leadership.epoch && b.log <= log
  }

  /** One record at a follower in step: what it lacks is reported, what it has is confirmed, and the next one is stored. */
  lemma ReceiveInStep(nodes: seq<nat>, log: Log, leadership: Entry, b: Broker, offset: nat)
    requires leadership.leader in nodes && offset < |log| && FollowsLeader(log, leadership, b, offset)
    ensures var handled := HandleReplication(nodes, b, RecordAt(log, leadership, offset));
            var before := FencedLog(b, leadership.epoch, offset);
            && InStep(log, leadership, handled.broker)
            && handled.broker.log == (if offset == |before| then log[..offset + 1] else before)
            && handled.reply == Success(|handled.broker.log|)
  {
    var before := FencedLog(b, leadership.epoch, offset);
    if offset == |before| {
      assert before + [log[offset]] == log[..offset + 1];
    } else if offset < |before| {
      assert before[offset] == log[offset];
    }
  }

  /** The next record that a follower of this epoch asked for is simply appended. */
  lemma NextIsAppended(nodes: seq<nat>, log: Log, leadership: Entry, b: Broker)
    requires b.entry.epoch == leadership.epoch && b.entry.leader == leadership.leader && |b.log| < |log|
    ensures HandleReplication(nodes, b, RecordAt(log, leadership, |b.log|))
            == Handled(b.(log := b.log + [log[|b.log|]]), Success(|b.log| + 1))
  {
  }

  /** After a first reply of success the follower is in the leader's epoch and has replied the end of its log. */
  lemma FirstReply(nodes: seq<nat>, log: Log, leadership: Entry, b: Broker, offset: nat)
    requires leadership.leader in nodes && offset < |log|
    ensures var first := HandleReplication(nodes, b, RecordAt(log, leadership, offset));
            first.reply.Success? ==>
              && first.broker.entry.epoch == leadership.epoch && first.broker.entry.leader == leadership.leader
              && first.reply.value == |first.broker.log|
  {
  }

  /** What becomes of each broker to which the record is brought. */
  type Outcomes = nat -> Handled<Unit>

  function OutcomesOf(top: Topology, log: Log, leadership: Entry, brokers: map<nat, Broker>, offset: nat): Outcomes
    requires offset < |log|
  {
    b => if b in brokers then CaughtUp(top.nodes, log, leadership, brokers[b], offset)
         else Handled(Broker([], leadership), Failure(InvalidReplicationAck))
  }

  /** The followers that confirm the record. */
  ghost function Confirming(outcome: Outcomes, reachable: set<nat>, followers: seq<nat>): set<nat> {
    set f | f in followers && f in reachable && outcome(f).reply.Success?
  }

  /** What replication leaves of broker `b`. */
  function Replicated(outcome: Outcomes, reachable: set<nat>, followers: seq<nat>, b: nat, broker: Broker): Broker {
    if b in followers && b in reachable then outcome(b).broker else broker
  }

  /** What an announcement leaves of broker `b`. */
  function Announced(top: Topology, entry: Entry, reachable: set<nat>, broker: Broker, b: nat): Broker {
    if b in reachable then HandleApply(top.nodes, broker, entry).broker else broker
  }

  function Raised(entry: Entry, highWatermark: nat): Entry {
    if highWatermark > entry.highWatermark then entry.(highWatermark := highWatermark) else entry
  }

  /** How many replicas will hold the record, the leader included. */
  ghost function Available(top: Topology, id: nat, log: Log, entry: Entry, brokers: map<nat, Broker>, offset: nat,
                           reachable: set<nat>): nat
    requires top.Valid() && offset < |log|
  {
    1 + |Confirming(OutcomesOf(top, log, entry, brokers, offset), reachable, top.Followers(id))|
  }

  /** The entry and the other brokers after replicating the record at `offset` and, with enough replicas, committing it. */
  ghost predicate Leaves(top: Topology, id: nat, log: Log, entry: Entry, brokers: map<nat, Broker>, offset: nat,
                         reachable: set<nat>, entry': Entry, brokers': map<nat, Broker>)
    requires top.Valid() && offset < |log|
  {
    && entry' == (if Available(top, id, log, entry, brokers, offset, reachable) >= top.minInSync then Raised(entry, offset + 1)
                  else entry)
    && brokers'.Keys == brokers.Keys
    && forall b :: b in brokers ==>
         var outcome := OutcomesOf(top, log, entry, brokers, offset);
         var after := Replicated(outcome, reachable, top.Followers(id), b, brokers[b]);
         brokers'[b] == if entry' == entry then after else Announced(top, entry', reachable, after, b)
  }

  /** The leader of one partition. `brokers` are the other brokers, as they are at the far end of the connections. */
  class Replicator {
    const top: Topology
    const id: nat
    var log: Log
    var entry: Entry
    var brokers: map<nat, Broker>

    ghost predicate Valid()
      reads this
    {
      && top.Valid() && id in top.Replicas() && entry.leader == id
      && brokers.Keys == (set b | b in top.nodes && b != id)
    }

    constructor (top: Topology, id: nat, log: Log, entry: Entry, brokers: map<nat, Broker>)
      requires top.Valid() && id in top.Replicas() && entry.leader == id
      requires brokers.Keys == (set b | b in top.nodes && b != id)
      ensures Valid() && this.top == top && this.id == id
      ensures this.log == log && this.entry == entry && this.brokers == brokers
    {
      this.top, this.id, this.log, this.entry, this.brokers := top, id, log, entry, brokers;
    }

    /** Send one record and wait for the reply. */
    method Send(f: nat, offset: nat) returns (reply: Result<nat, ReplicaError>)
      requires f in brokers && offset < |log|
      modifies this`brokers
      ensures var handled := HandleReplication(top.nodes, old(brokers)[f], RecordAt(log, entry, offset));
              brokers == old(brokers)[f := handled.broker] && reply == handled.reply
    {
      var handled := HandleReplication(top.nodes, brokers[f], RecordAt(log, entry, offset));
      brokers := brokers[f := handled.broker];
      reply := handled.reply;
    }

    /**
     Send a record to a follower in any state, and after a gap every record from the one it asks for. This ends, and
     leaves the follower caught up or the error that stopped it.
     */
    method ReplicateToFollower(f: nat, offset: nat) returns (r: Result<Unit, ReplicaError>)
      requires entry.leader in top.nodes && f in brokers && offset < |log|
      modifies this`brokers
      ensures f in brokers && brokers == old(brokers)[f := brokers[f]]
      ensures Handled(brokers[f], r) == CaughtUp(top.nodes, log, entry, old(brokers)[f], offset)
    {
      ghost var before := brokers;
      FirstReply(top.nodes, log, entry, brokers[f], offset);
      var reply := Send(f, offset);
      if reply.Failure? {
        return Failure(reply.error);
      }
      var nextOffset := reply.value;
      if nextOffset > offset + 1 {
        return Failure(InvalidReplicationAck);
      }
      ghost var first := brokers[f].log;
      assert first + Beyond(log, |first|, |first|) == first;
      while nextOffset <= offset
        invariant f in brokers && brokers == before[f := brokers[f]]
        invariant brokers[f].entry.epoch == entry.epoch && brokers[f].entry.leader == entry.leader
        invariant brokers[f].entry == HandleReplication(top.nodes, before[f], RecordAt(log, entry, offset)).broker.entry
        invariant |first| <= nextOffset == |brokers[f].log| <= offset + 1
        invariant brokers[f].log == first + Beyond(log, |first|, nextOffset)
        decreases offset + 1 - nextOffset
      {
        NextIsAppended(top.nodes, log, entry, brokers[f]);
        BeyondGrows(log, first, nextOffset);
        reply := Send(f, nextOffset);
        match reply {
          case Failure(error) => return Failure(error);
          case Success(next) => nextOffset := next;
        }
      }
      return Success(Done);
    }

    lemma LeaderIsNode()
      requires Valid()
      ensures id in top.nodes
    {
      top.ReplicaPlacement();
    }

    /** Bring a record to a follower for which the outcome is known. */
    method BringTo(f: nat, offset: nat, ghost outcome: Handled<Unit>) returns (r: Result<Unit, ReplicaError>)
      requires entry.leader in top.nodes && f in brokers && offset < |log|
      requires outcome == CaughtUp(top.nodes, log, entry, brokers[f], offset)
      modifies this`brokers
      ensures brokers == old(brokers)[f := outcome.broker] && r == outcome.reply
    {
      r := ReplicateToFollower(f, offset);
    }

    /**
     Replicate a record and commit it once enough replicas hold it: the reply, the high watermark, and what becomes of
     every other broker, whatever state it was in.
     */
    method Replicate(offset: nat, durable: bool, reachable: set<nat>) returns (r: Result<Unit, ReplicateError>)
      requires Valid() && offset < |log|
      modifies this`brokers, this`entry
      ensures Valid()
      ensures var available := Available(top, id, log, old(entry), old(brokers), offset, reachable);
              r == if durable && available < top.minInSync then Failure(NotEnoughInSyncReplicas(top.minInSync, available))
                   else Success(Done)
      ensures Leaves(top, id, log, old(entry), old(brokers), offset, reachable, entry, brokers)
    {
      var acknowledgements := CountAcknowledgements(offset, reachable);
      if acknowledgements >= top.minInSync {
        Commit(offset + 1, reachable);
      }
      if durable && acknowledgements < top.minInSync {
        return Failure(NotEnoughInSyncReplicas(top.minInSync, acknowledgements));
      }
      return Success(Done);
    }

    /** Replicate to one follower after the other and count the leader and those that confirm. */
    method CountAcknowledgements(offset: nat, reachable: set<nat>) returns (acknowledgements: nat)
      requires Valid() && offset < |log|
      modifies this`brokers
      ensures Valid()
      ensures var outcome := OutcomesOf(top, log, entry, old(brokers), offset);
              && acknowledgements == 1 + |Confirming(outcome, reachable, top.Followers(id))|
              && forall b :: b in brokers ==> brokers[b] == Replicated(outcome, reachable, top.Followers(id), b, old(brokers)[b])
    {
      top.FollowersAreOtherReplicas(id);
      ReplicasAreBrokers();
      LeaderIsNode();
      acknowledgements := CountAmong(top.Followers(id), offset, reachable, OutcomesOf(top, log, entry, brokers, offset));
    }

    method CountAmong(followers: seq<nat>, offset: nat, reachable: set<nat>, ghost outcome: Outcomes)
      returns (acknowledgements: nat)
      requires entry.leader in top.nodes && offset < |log|
      requires forall i, j :: 0 <= i < j < |followers| ==> followers[i] != followers[j]
      requires forall i :: 0 <= i < |followers| ==> followers[i] in brokers
      requires forall b :: b in brokers ==> outcome(b) == CaughtUp(top.nodes, log, entry, brokers[b], offset)
      modifies this`brokers
      ensures brokers.Keys == old(brokers.Keys)
      ensures acknowledgements == 1 + |Confirming(outcome, reachable, followers)|
      ensures forall b :: b in brokers ==> brokers[b] == Replicated(outcome, reachable, followers, b, old(brokers)[b])
    {
      ghost var start := brokers;
      acknowledgements := 1;
      for i := 0 to |followers|
        invariant acknowledgements == 1 + |Confirming(outcome, reachable, followers[..i])|
        invariant AllReplicated(outcome, reachable, followers[..i], start, brokers)
      {
        var f := followers[i];
        OneMoreFollower(outcome, reachable, followers, i);
        OneMoreReplicated(outcome, reachable, followers, i, start, brokers);
        if f in reachable {
          var replicated := BringTo(f, offset, outcome(f));
          if replicated.Success? {
            acknowledgements := acknowledgements + 1;
          }
        }
      }
      assert followers[..|followers|] == followers;
    }

    lemma ReplicasAreBrokers()
      requires Valid()
      ensures forall b :: b in top.Replicas() && b != id ==> b in brokers
    {
      top.ReplicaPlacement();
    }

    /** Move the high watermark forward and announce it to every broker that can be reached. */
    method Commit(highWatermark: nat, reachable: set<nat>)
      requires Valid()
      modifies this`brokers, this`entry
      ensures Valid() && entry == Raised(old(entry), highWatermark)
      ensures forall b :: b in brokers ==>
                brokers[b] == if entry == old(entry) then old(brokers)[b]
                              else Announced(top, entry, reachable, old(brokers)[b], b)
    {
      if highWatermark <= entry.highWatermark {
        return;
      }
      entry := entry.(highWatermark := highWatermark);
      Broadcast(reachable);
    }

    /** Announce the entry to every other broker that can be reached. */
    method Broadcast(reachable: set<nat>)
      requires Valid()
      modifies this`brokers
      ensures Valid() && AllAnnounced(top, id, entry, reachable, top.nodes, old(brokers), brokers)
    {
      ghost var start := brokers;
      for i := 0 to |top.nodes|
        invariant Valid() && AllAnnounced(top, id, entry, reachable, top.nodes[..i], start, brokers)
      {
        var b := top.nodes[i];
        if b != id {
          OneMoreAnnounced(top, id, entry, reachable, start, brokers, i);
          if b in reachable {
            brokers := brokers[b := HandleApply(top.nodes, brokers[b], entry).broker];
          }
        } else {
          assert top.nodes[..i + 1] == top.nodes[..i] + [id];
        }
      }
      assert top.nodes[..|top.nodes|] == top.nodes;
    }
  }

  ghost predicate AllReplicated(outcome: Outcomes, reachable: set<nat>, followers: seq<nat>, start: map<nat, Broker>,
                                brokers: map<nat, Broker>)
  {
    && brokers.Keys == start.Keys
    && forall b :: b in brokers ==> brokers[b] == Replicated(outcome, reachable, followers, b, start[b])
  }

  lemma OneMoreReplicated(outcome: Outcomes, reachable: set<nat>, followers: seq<nat>, i: nat, start: map<nat, Broker>,
                          brokers: map<nat, Broker>)
    requires i < |followers| && forall j, k :: 0 <= j < k < |followers| ==> followers[j] != followers[k]
    requires AllReplicated(outcome, reachable, followers[..i], start, brokers) && followers[i] in brokers
    ensures brokers[followers[i]] == start[followers[i]]
    ensures AllReplicated(outcome, reachable, followers[..i + 1], start,
              if followers[i] in reachable then brokers[followers[i] := outcome(followers[i]).broker] else brokers)
  {
    assert followers[..i + 1] == followers[..i] + [followers[i]];
  }

  lemma OneMoreFollower(outcome: Outcomes, reachable: set<nat>, followers: seq<nat>, i: nat)
    requires i < |followers| && forall j, k :: 0 <= j < k < |followers| ==> followers[j] != followers[k]
    ensures |Confirming(outcome, reachable, followers[..i + 1])|
            == |Confirming(outcome, reachable, followers[..i])|
               + (if followers[i] in reachable && outcome(followers[i]).reply.Success? then 1 else 0)
  {
    var f := followers[i];
    assert followers[..i + 1] == followers[..i] + [f];
    assert Confirming(outcome, reachable, followers[..i + 1])
        == Confirming(outcome, reachable, followers[..i]) + (if f in reachable && outcome(f).reply.Success? then {f} else {});
  }

  /** The brokers in `done` other than `id` handled the announcement of `e` if they could be reached. */
  ghost predicate AllAnnounced(top: Topology, id: nat, e: Entry, reachable: set<nat>, done: seq<nat>, start: map<nat, Broker>,
                               brokers: map<nat, Broker>)
  {
    && brokers.Keys == start.Keys
    && forall b :: b in brokers ==>
         brokers[b] == if b in done && b != id then Announced(top, e, reachable, start[b], b) else start[b]
  }

  lemma OneMoreAnnounced(top: Topology, id: nat, e: Entry, reachable: set<nat>, start: map<nat, Broker>,
                         brokers: map<nat, Broker>, k: nat)
    requires top.Valid() && k < |top.nodes| && top.nodes[k] in brokers
    requires AllAnnounced(top, id, e, reachable, top.nodes[..k], start, brokers)
    ensures var b := top.nodes[k];
            AllAnnounced(top, id, e, reachable, top.nodes[..k + 1], start,
              if b != id && b in reachable then brokers[b := HandleApply(top.nodes, brokers[b], e).broker] else brokers)
  {
    assert top.nodes[..k + 1] == top.nodes[..k] + [top.nodes[k]];
    assert top.nodes[k] !in top.nodes[..k];
  }

  /** A follower will confirm: it accepts the leader and has nothing beyond the record and nothing else in its place. */
  predicate WillConfirm(log: Log, leadership: Entry, b: Broker, offset: nat)
    requires offset < |log|
  {
    var before := FencedLog(b, leadership.epoch, offset);
    Accepts(b, leadership) && |before| <= offset + 1 && (|before| == offset + 1 ==> before[offset] == log[offset])
  }

  /** The leader, and the other replicas that can be reached and will confirm. */
  ghost function WillHold(top: Topology, id: nat, log: Log, entry: Entry, brokers: map<nat, Broker>, offset: nat,
                          reachable: set<nat>): set<nat>
    requires top.Valid() && offset < |log|
  {
    set b | b in top.Replicas()
            && (b == id || (b in reachable && b in brokers && WillConfirm(log, entry, brokers[b], offset)))
  }

  /** A commit counts the leader and exactly the other replicas that can be reached and will confirm, each once. */
  lemma AvailableCounts(top: Topology, id: nat, log: Log, entry: Entry, brokers: map<nat, Broker>, offset: nat,
                        reachable: set<nat>)
    requires top.Valid() && id in top.Replicas() && offset < |log| && entry.leader in top.nodes
    requires brokers.Keys == (set b | b in top.nodes && b != id)
    ensures Available(top, id, log, entry, brokers, offset, reachable)
            == |WillHold(top, id, log, entry, brokers, offset, reachable)|
  {
    ReplicasAreNodes(top);
    forall b | b in brokers
      ensures OutcomesOf(top, log, entry, brokers, offset)(b).reply.Success? <==> WillConfirm(log, entry, brokers[b], offset)
    {
      OutcomeConfirms(top, log, entry, brokers, offset, b);
    }
    ConfirmingAndLeader(top, id, OutcomesOf(top, log, entry, brokers, offset), reachable,
                        WillHold(top, id, log, entry, brokers, offset, reachable));
  }

  lemma ReplicasAreNodes(top: Topology)
    requires top.Valid()
    ensures forall b :: b in top.Replicas() ==> b in top.nodes
  {
    top.ReplicaPlacement();
  }

  lemma OutcomeConfirms(top: Topology, log: Log, entry: Entry, brokers: map<nat, Broker>, offset: nat, b: nat)
    requires offset < |log| && entry.leader in top.nodes && b in brokers
    ensures OutcomesOf(top, log, entry, brokers, offset)(b).reply.Success? <==> WillConfirm(log, entry, brokers[b], offset)
  {
    ConfirmsIff(top.nodes, log, entry, brokers[b], offset);
  }

  lemma ConfirmingAndLeader(top: Topology, id: nat, outcome: Outcomes, reachable: set<nat>, all: set<nat>)
    requires top.Valid() && id in top.Replicas()
    requires forall b :: b in all <==> b in top.Replicas() && (b == id || (b in reachable && outcome(b).reply.Success?))
    ensures |all| == 1 + |Confirming(outcome, reachable, top.Followers(id))|
  {
    top.FollowersAreOtherReplicas(id);
    assert all == {id} + Confirming(outcome, reachable, top.Followers(id));
  }

  /**
   What replicating a record does, said without the code's own terms: the high watermark is raised exactly if enough replicas
   will hold the record; those that will end with it at their log end, and know the raised high watermark unless they know a
   higher one; brokers that cannot be reached are untouched; the other brokers that can be reached take the raised entry
   exactly if it may follow theirs.
   */
  lemma ReplicateOutcome(top: Topology, id: nat, log: Log, entry: Entry, brokers: map<nat, Broker>, offset: nat,
                         reachable: set<nat>, entry': Entry, brokers': map<nat, Broker>)
    requires top.Valid() && id in top.Replicas() && offset < |log| && entry.leader == id
    requires brokers.Keys == (set b | b in top.nodes && b != id)
    requires Leaves(top, id, log, entry, brokers, offset, reachable, entry', brokers')
    ensures entry' == if |WillHold(top, id, log, entry, brokers, offset, reachable)| >= top.minInSync
                         && offset + 1 > entry.highWatermark
                      then Entry(id, entry.epoch, offset + 1) else entry
    ensures brokers'.Keys == brokers.Keys
    ensures forall b :: b in brokers ==>
              Served(log, entry, entry', offset, b in reachable, b in top.Replicas(), brokers[b], brokers'[b])
  {
    ReplicasAreNodes(top);
    AvailableCounts(top, id, log, entry, brokers, offset, reachable);
    forall b | b in brokers
      ensures Served(log, entry, entry', offset, b in reachable, b in top.Replicas(), brokers[b], brokers'[b])
    {
      FollowersAreReplicas(top, id);
      ServedOne(top, log, entry, entry', offset, b in reachable, b in top.Replicas(), brokers[b], brokers'[b]);
    }
  }

  lemma FollowersAreReplicas(top: Topology, id: nat)
    requires top.Valid()
    ensures forall b :: b in top.Followers(id) <==> b in top.Replicas() && b != id
  {
    top.FollowersAreOtherReplicas(id);
  }

  /** What becomes of one broker. */
  ghost predicate Served(log: Log, entry: Entry, entry': Entry, offset: nat, reached: bool, replica: bool, b: Broker, b': Broker)
    requires offset < |log|
  {
    && (!reached ==> b' == b)
    && (reached && replica && WillConfirm(log, entry, b, offset) ==>
          && |b'.log| == offset + 1 && b'.log[offset] == log[offset]
          && b'.entry.leader == entry.leader && b'.entry.epoch == entry.epoch
          && b'.entry.highWatermark
             == if entry' != entry && b.entry.highWatermark <= offset + 1 then offset + 1 else b.entry.highWatermark)
    && (reached && !replica && entry' == entry ==> b' == b)
    && (reached && !replica && entry' != entry ==>
          b'.entry == if Follows(entry', b.entry) then entry' else b.entry)
  }

  lemma ServedOne(top: Topology, log: Log, entry: Entry, entry': Entry, offset: nat, reached: bool, replica: bool, b: Broker,
                  b': Broker)
    requires offset < |log| && entry.leader in top.nodes
    requires entry' == entry || entry' == entry.(highWatermark := offset + 1)
    requires var after := if replica && reached then CaughtUp(top.nodes, log, entry, b, offset).broker else b;
             b' == if entry' == entry || !reached then after else HandleApply(top.nodes, after, entry').broker
    ensures Served(log, entry, entry', offset, reached, replica, b, b')
  {
    if reached && replica {
      ConfirmsIff(top.nodes, log, entry, b, offset);
      RefusesBecause(top.nodes, log, entry, b, offset);
      AnnouncedOutcome(top.nodes, CaughtUp(top.nodes, log, entry, b, offset).broker, entry');
    } else {
      AnnouncedOutcome(top.nodes, b, entry');
    }
  }

  /** The leader and the followers that confirm are distinct replicas, one for each acknowledgement. */
  lemma AcknowledgementsAreReplicas(top: Topology, id: nat, outcome: Outcomes, reachable: set<nat>)
    requires top.Valid() && id in top.Replicas()
    ensures var confirming := Confirming(outcome, reachable, top.Followers(id));
            {id} + confirming <= top.Replicas() && |{id} + confirming| == 1 + |confirming|
  {
    top.FollowersAreOtherReplicas(id);
  }

  /**
   Each follower that confirms holds the record, and all of the leader's records up to it exactly if it had no others, also
   after the commit was announced to it.
   */
  lemma ConfirmedIsHeld(nodes: seq<nat>, log: Log, leadership: Entry, b: Broker, offset: nat, committed: Entry)
    requires leadership.leader in nodes && offset < |log| && CaughtUp(nodes, log, leadership, b, offset).reply.Success?
    requires committed.epoch == leadership.epoch
    ensures var after := HandleApply(nodes, CaughtUp(nodes, log, leadership, b, offset).broker, committed).broker;
            && |after.log| == offset + 1 && after.log[offset] == log[offset]
            && (after.log == log[..offset + 1] <==> FencedLog(b, leadership.epoch, offset) <= log)
  {
    ConfirmsIff(nodes, log, leadership, b, offset);
  }
}
