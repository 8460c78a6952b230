/**
 Election safety of partition leadership, in the fully asynchronous setting.

 A run is any sequence of steps. Every registry read, message send, message
 receipt and registry write is a step of its own. Values that were read or sent
 are never removed, so a message may be lost, delayed, duplicated or reordered,
 tasks may run concurrently or die halfway, and a broker may restart at any
 moment: its registry is persisted before any task can observe a change.
 */
module Election {
  import opened Wrappers
  import opened Cluster

  /** A registry value that some task of `broker` has read and may still act on. */
  datatype Snapshot = Snapshot(broker: nat, entry: Entry)

  datatype Message =
    | ApplyLeadership(entry: Entry)
    | ReplicateRecord(leader: nat, epoch: nat)
    | TopicMetadata(entry: Entry)

  datatype State = State(registry: map<nat, Entry>, views: set<Snapshot>, sent: set<Message>)

  datatype Step =
    | EnsureTopic(broker: nat)
    | ReadRegistry(broker: nat)
    | Commit(read: Snapshot, highWatermark: nat)
    | SendReplicate(read: Snapshot)
    | ReceiveReplicate(read: Snapshot, leader: nat, epoch: nat)
    | ReceiveApply(broker: nat, entry: Entry)
    | ReplyMetadata
    | SyncMetadata(read: Snapshot, entry: Entry)
    | Promote(read: Snapshot, candidate: nat)

  const EMPTY: State := State(map[], {}, {})

  function Current(s: State, broker: nat): Option<Entry> {
    if broker in s.registry then Some(s.registry[broker]) else None
  }

  /** Registry write at `broker`, followed by a broadcast when `broadcast` holds and the write succeeds. */
  function Write(top: Topology, s: State, broker: nat, entry: Entry, broadcast: bool): State {
    match Adopt(top.nodes, Current(s, broker), entry)
    case Failure(_) => s
    case Success(e) =>
      s.(registry := s.registry[broker := e],
         sent := if broadcast then s.sent + {ApplyLeadership(e)} else s.sent)
  }

  /** The effect of one step; a step whose guard fails changes nothing. */
  function Next(top: Topology, s: State, step: Step): State
    requires top.Valid()
  {
    match step
    case EnsureTopic(b) =>
      if b in top.nodes && b !in s.registry
      then s.(registry := s.registry[b := Entry(top.DeterministicLeader(), 0, 0)])
      else s
    case ReadRegistry(b) =>
      if b in s.registry then s.(views := s.views + {Snapshot(b, s.registry[b])}) else s
    case Commit(r, hw) =>
      if r in s.views && hw > r.entry.highWatermark
      then Write(top, s, r.broker, r.entry.(highWatermark := hw), true)
      else s
    case SendReplicate(r) =>
      if r in s.views then s.(sent := s.sent + {ReplicateRecord(r.entry.leader, r.entry.epoch)}) else s
    case ReceiveReplicate(r, leader, epoch) =>
      if r in s.views && ReplicateRecord(leader, epoch) in s.sent && epoch > r.entry.epoch
      then Write(top, s, r.broker, Entry(leader, epoch, r.entry.highWatermark), false)
      else s
    case ReceiveApply(b, e) =>
      if b in s.registry && ApplyLeadership(e) in s.sent then Write(top, s, b, e, false) else s
    case ReplyMetadata =>
      if top.Controller() in s.registry
      then s.(sent := s.sent + {TopicMetadata(s.registry[top.Controller()])})
      else s
    case SyncMetadata(r, e) =>
      if r in s.views && TopicMetadata(e) in s.sent && r.broker != top.Controller()
         && (e.epoch > r.entry.epoch || (e.epoch == r.entry.epoch && e.highWatermark > r.entry.highWatermark))
      then Write(top, s, r.broker, e, false)
      else s
    case Promote(r, candidate) =>
      if r in s.views && r.broker == top.Controller() && top.IsReplica(candidate) && r.entry.epoch < U64_MAX
      then Write(top, s, r.broker, Entry(candidate, r.entry.epoch + 1, r.entry.highWatermark), true)
      else s
  }

  /** What a registry write leaves: the entry if it names a member and may follow what is there, otherwise the state as it was. */
  lemma WritesIff(top: Topology, s: State, b: nat, e: Entry, broadcast: bool)
    ensures Write(top, s, b, e, broadcast)
            == if e.leader in top.nodes && (b in s.registry ==> Follows(e, s.registry[b]))
               then State(s.registry[b := e], s.views, if broadcast then s.sent + {ApplyLeadership(e)} else s.sent)
               else s
  {
    AdoptsIff(top.nodes, Current(s, b), e);
  }

  /**
   Who is elected: a promotion installs and announces its candidate in the epoch behind the one that was read at the
   controller, exactly if the candidate is a replica, there is a next epoch, and the registry has not moved past it since;
   any other promotion changes nothing.
   */
  lemma PromotionElects(top: Topology, s: State, read: Snapshot, candidate: nat)
    requires top.Valid() && read in s.views
    ensures var c, e := top.Controller(), Entry(candidate, read.entry.epoch + 1, read.entry.highWatermark);
            Next(top, s, Promote(read, candidate))
            == if read.broker == c && candidate in top.Replicas() && read.entry.epoch < U64_MAX
                  && (c in s.registry ==> Follows(e, s.registry[c]))
               then State(s.registry[c := e], s.views, s.sent + {ApplyLeadership(e)})
               else s
  {
    top.ReplicaPlacement();
    WritesIff(top, s, read.broker, Entry(candidate, read.entry.epoch + 1, read.entry.highWatermark), true);
  }

  /** With a current read below the last epoch, exactly the replicas can be elected. */
  lemma CurrentPromotionElects(top: Topology, s: State, candidate: nat)
    requires top.Valid() && top.Controller() in s.registry && s.registry[top.Controller()].epoch < U64_MAX
    requires Snapshot(top.Controller(), s.registry[top.Controller()]) in s.views
    ensures var c := top.Controller();
            var known := s.registry[c];
            var s', e := Next(top, s, Promote(Snapshot(c, known), candidate)), Entry(candidate, known.epoch + 1, known.highWatermark);
            if candidate in top.Replicas()
            then s'.registry == s.registry[c := e] && s'.views == s.views && s'.sent == s.sent + {ApplyLeadership(e)}
            else s' == s
  {
    PromotionElects(top, s, Snapshot(top.Controller(), s.registry[top.Controller()]), candidate);
  }

  /**
   What every other step does. A broker that hears of a topic gives it its deterministic leader at epoch 0, once. A read is
   kept as it was; a commit at it raises and announces the high watermark, in the epoch that was read; a record is sent in the
   name of the leader and epoch that were read.
   */
  lemma OwnSteps(top: Topology, s: State, b: nat, read: Snapshot, highWatermark: nat)
    requires top.Valid()
    ensures Next(top, s, EnsureTopic(b))
            == if b in top.nodes && b !in s.registry
               then s.(registry := s.registry[b := Entry(top.DeterministicLeader(), 0, 0)]) else s
    ensures Next(top, s, ReadRegistry(b))
            == if b in s.registry then s.(views := s.views + {Snapshot(b, s.registry[b])}) else s
    ensures Next(top, s, SendReplicate(read))
            == if read in s.views then s.(sent := s.sent + {ReplicateRecord(read.entry.leader, read.entry.epoch)}) else s
    ensures Next(top, s, ReplyMetadata)
            == if top.Controller() in s.registry
               then s.(sent := s.sent + {TopicMetadata(s.registry[top.Controller()])}) else s
    ensures var e := Entry(read.entry.leader, read.entry.epoch, highWatermark);
            Next(top, s, Commit(read, highWatermark))
            == if read in s.views && highWatermark > read.entry.highWatermark && e.leader in top.nodes
                  && (read.broker in s.registry ==> Follows(e, s.registry[read.broker]))
               then State(s.registry[read.broker := e], s.views, s.sent + {ApplyLeadership(e)})
               else s
  {
    WritesIff(top, s, read.broker, Entry(read.entry.leader, read.entry.epoch, highWatermark), true);
  }

  /**
   What a broker takes from others: an announcement that was sent; leader and epoch of a record that was sent in a newer epoch
   than it has read, with the high watermark it has read; and the controller's entry if that is newer than what it has read.
   Each is written exactly if it names a member and may follow what is in the registry by then.
   */
  lemma TakenSteps(top: Topology, s: State, b: nat, read: Snapshot, e: Entry)
    requires top.Valid() && b in s.registry && read in s.views && read.broker in s.registry
    ensures Next(top, s, ReceiveApply(b, e))
            == if ApplyLeadership(e) in s.sent && e.leader in top.nodes && Follows(e, s.registry[b])
               then s.(registry := s.registry[b := e]) else s
    ensures var taken := Entry(e.leader, e.epoch, read.entry.highWatermark);
            Next(top, s, ReceiveReplicate(read, e.leader, e.epoch))
            == if ReplicateRecord(e.leader, e.epoch) in s.sent && e.epoch > read.entry.epoch
                  && e.leader in top.nodes && Follows(taken, s.registry[read.broker])
               then s.(registry := s.registry[read.broker := taken]) else s
    ensures Next(top, s, SyncMetadata(read, e))
            == if TopicMetadata(e) in s.sent && read.broker != top.Controller()
                  && (e.epoch > read.entry.epoch || (e.epoch == read.entry.epoch && e.highWatermark > read.entry.highWatermark))
                  && e.leader in top.nodes && Follows(e, s.registry[read.broker])
               then s.(registry := s.registry[read.broker := e]) else s
  {
    WritesIff(top, s, b, e, false);
    WritesIff(top, s, read.broker, e, false);
    WritesIff(top, s, read.broker, Entry(e.leader, e.epoch, read.entry.highWatermark), false);
  }

  function Run(top: Topology, s: State, steps: seq<Step>): State
    requires top.Valid()
  {
    if steps == [] then s else Next(top, Run(top, s, steps[..|steps| - 1]), steps[|steps| - 1])
  }

  /** Some registry, task or message of `s` says that `leader` leads in `epoch`. */
  ghost predicate Claims(s: State, leader: nat, epoch: nat) {
    || (exists b :: b in s.registry && s.registry[b].leader == leader && s.registry[b].epoch == epoch)
    || (exists r :: r in s.views && r.entry.leader == leader && r.entry.epoch == epoch)
    || (exists m :: m in s.sent && MessageClaim(m) == (leader, epoch))
  }

  function MessageClaim(m: Message): (nat, nat) {
    match m
    case ApplyLeadership(e) => (e.leader, e.epoch)
    case ReplicateRecord(l, e) => (l, e)
    case TopicMetadata(e) => (e.leader, e.epoch)
  }

  function ControllerEpoch(top: Topology, s: State): nat
    requires top.Valid()
  {
    if top.Controller() in s.registry then s.registry[top.Controller()].epoch else 0
  }

  ghost predicate Elected(elected: seq<nat>, leader: nat, epoch: nat) {
    epoch < |elected| && elected[epoch] == leader
  }

  /** `elected[e]` is the one leader of epoch `e`, up to the controller's epoch. */
  ghost predicate Consistent(top: Topology, s: State, elected: seq<nat>)
    requires top.Valid()
  {
    && |elected| == ControllerEpoch(top, s) + 1
    && elected[0] == top.DeterministicLeader()
    && (forall b :: b in s.registry ==> Elected(elected, s.registry[b].leader, s.registry[b].epoch))
    && (forall r :: r in s.views ==> Elected(elected, r.entry.leader, r.entry.epoch))
    && (forall m :: m in s.sent ==> Elected(elected, MessageClaim(m).0, MessageClaim(m).1))
  }

  /** Only a promotion at the controller can start an epoch, and it can start each epoch once. */
  lemma StepKeepsConsistent(top: Topology, s: State, elected: seq<nat>, step: Step) returns (elected': seq<nat>)
    requires top.Valid() && Consistent(top, s, elected)
    ensures Consistent(top, Next(top, s, step), elected') && elected <= elected'
  {
    if step.Promote? {
      elected' := PromoteKeepsConsistent(top, s, elected, step);
    } else {
      elected' := elected;
    }
  }

  lemma PromoteKeepsConsistent(top: Topology, s: State, elected: seq<nat>, step: Step) returns (elected': seq<nat>)
    requires top.Valid() && Consistent(top, s, elected) && step.Promote?
    ensures Consistent(top, Next(top, s, step), elected') && elected <= elected'
  {
    var s' := Next(top, s, step);
    elected' := elected;
    if s' != s && ControllerEpoch(top, s') > ControllerEpoch(top, s) {
      elected' := elected + [step.candidate];
    }
  }

  lemma {:induction false} RunKeepsConsistent(top: Topology, steps: seq<Step>) returns (elected: seq<nat>)
    requires top.Valid()
    ensures Consistent(top, Run(top, EMPTY, steps), elected)
  {
    if steps == [] {
      elected := [top.DeterministicLeader()];
    } else {
      var before := RunKeepsConsistent(top, steps[..|steps| - 1]);
      elected := StepKeepsConsistent(top, Run(top, EMPTY, steps[..|steps| - 1]), before, steps[|steps| - 1]);
    }
  }

  /** Election safety: in every run one epoch has one leader, and no epoch runs ahead of the controller. */
  lemma ElectionSafety(top: Topology, steps: seq<Step>)
    requires top.Valid()
    ensures forall l: nat, l': nat, e: nat :: Claims(Run(top, EMPTY, steps), l, e) && Claims(Run(top, EMPTY, steps), l', e) ==> l == l'
    ensures forall l: nat, e: nat :: Claims(Run(top, EMPTY, steps), l, e) ==> e <= ControllerEpoch(top, Run(top, EMPTY, steps))
  {
    var elected := RunKeepsConsistent(top, steps);
  }

  /** Across a whole run: a leader once claimed for an epoch is the only one any later state can claim for it. */
  lemma {:induction false} LeaderOfEpochIsForever(top: Topology, steps: seq<Step>, later: seq<Step>, l: nat, l': nat, e: nat)
    requires top.Valid()
    requires Claims(Run(top, EMPTY, steps), l, e)
    requires Claims(Run(top, EMPTY, steps + later), l', e)
    ensures l == l'
  {
    var elected := RunKeepsConsistent(top, steps);
    var elected' := ConsistentExtends(top, steps, elected, later);
  }

  lemma {:induction false} ConsistentExtends(top: Topology, steps: seq<Step>, elected: seq<nat>, later: seq<Step>)
    returns (elected': seq<nat>)
    requires top.Valid() && Consistent(top, Run(top, EMPTY, steps), elected)
    ensures Consistent(top, Run(top, EMPTY, steps + later), elected') && elected <= elected'
    decreases |later|
  {
    if later == [] {
      assert steps + later == steps;
      elected' := elected;
    } else {
      var init, last := later[..|later| - 1], later[|later| - 1];
      var mid := ConsistentExtends(top, steps, elected, init);
      elected' := StepKeepsConsistent(top, Run(top, EMPTY, steps + init), mid, last);
      assert steps + later == steps + init + [last];
      RunUnfolds(top, steps + init, last);
    }
  }

  lemma RunUnfolds(top: Topology, init: seq<Step>, last: Step)
    requires top.Valid()
    ensures Run(top, EMPTY, init + [last]) == Next(top, Run(top, EMPTY, init), last)
  {
    assert (init + [last])[..|init|] == init;
  }
}
