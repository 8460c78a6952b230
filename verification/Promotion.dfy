/** Promotion at the controller, and its place in the durability model. */
module Promotion {
  import opened Wrappers
  import opened Cluster
  import opened Replica
  import opened Selection
  import Durability
  import Election

  datatype Refusal =
    | NotController(controller: nat)
    | NotReplica
    | Unverified(cause: PromotionError)
    | LeaderEpochOverflow
    | NotApplied(error: LeadershipError)

  /** The conditions under which a promotion succeeds. */
  ghost predicate Promotable(top: Topology, entry: Entry, candidate: nat, replies: Replies)
    requires top.Valid()
  {
    && top.IsReplica(candidate)
    && candidate in Responders(top, None, replies)
    && |Responders(top, None, replies)| >= top.minInSync
    && replies(candidate).value >= entry.highWatermark
    && entry.epoch < U64_MAX
  }

  /** A state of the durability model in which the controller is `b` and the replies are those of live brokers. */
  ghost predicate Describes(s: Durability.State, controller: nat, b: Broker, replies: Replies) {
    && controller in s.live && controller in s.brokers && s.brokers[controller] == b
    && forall r :: replies(r).Some? ==> r in s.live && r in s.brokers && replies(r).value == |s.brokers[r].log|
  }

  /** The promotion step of the durability model, with the replicas that answered, is enabled or not and leaves the controller as `after`. */
  ghost predicate TakesStep(top: Topology, s: Durability.State, candidate: nat, answered: set<nat>, told: set<nat>,
                            enabled: bool, after: Broker)
    requires top.Valid()
  {
    var c := top.Controller();
    var s' := Durability.Next(top, s, Durability.Promote(candidate, answered, told));
    && (enabled <==> Durability.MayPromote(top, s, candidate, answered))
    && (enabled ==> s'.latest == after.entry)
    && (!enabled ==> s' == s)
    && c in s'.brokers && s'.brokers[c] == after
  }

  /** What a promotion leaves of the controller. */
  ghost function AfterPromoting(top: Topology, b: Broker, candidate: nat, replies: Replies): Broker
    requires top.Valid()
  {
    if Promotable(top, b.entry, candidate, replies) then
      Broker(if candidate == top.Controller() then Truncated(b.log, b.entry.highWatermark) else b.log,
             Entry(candidate, b.entry.epoch + 1, b.entry.highWatermark))
    else b
  }

  /** A state of the election model in which the controller has just read `entry`, which is current. */
  ghost predicate HasRead(s: Election.State, controller: nat, entry: Entry) {
    controller in s.registry && s.registry[controller] == entry && Election.Snapshot(controller, entry) in s.views
  }

  /** The promotion step of the election model makes `after` of the controller's `entry` and announces it, or changes nothing. */
  ghost predicate Elects(top: Topology, s: Election.State, entry: Entry, candidate: nat, elected: bool, after: Entry)
    requires top.Valid()
  {
    var c := top.Controller();
    var s' := Election.Next(top, s, Election.Promote(Election.Snapshot(c, entry), candidate));
    if elected then s'.registry == s.registry[c := after] && s'.sent == s.sent + {Election.ApplyLeadership(after)}
    else after == entry && (candidate !in top.Replicas() || entry.epoch >= U64_MAX ==> s' == s)
  }

  lemma PromotionElects(top: Topology, s: Election.State, entry: Entry, candidate: nat, replies: Replies)
    requires top.Valid() && HasRead(s, top.Controller(), entry)
    ensures Elects(top, s, entry, candidate, Promotable(top, entry, candidate, replies),
              if Promotable(top, entry, candidate, replies) then Entry(candidate, entry.epoch + 1, entry.highWatermark) else entry)
  {
    top.ReplicaPlacement();
    Election.PromotionElects(top, s, Election.Snapshot(top.Controller(), entry), candidate);
  }

  lemma PromotionIsStep(top: Topology, s: Durability.State, candidate: nat, replies: Replies, told: set<nat>)
    requires top.Valid() && top.Controller() in s.brokers
    requires Describes(s, top.Controller(), s.brokers[top.Controller()], replies)
    ensures var b := s.brokers[top.Controller()];
            TakesStep(top, s, candidate, Responders(top, None, replies), told, Promotable(top, b.entry, candidate, replies),
              AfterPromoting(top, b, candidate, replies))
  {
    assert forall r :: r in Responders(top, None, replies) ==> r in s.live && r in s.brokers && top.IsReplica(r);
    Durability.PromotedState(top, s, candidate, told);
  }

  // ---------------------------------------------------------------- automatic fail-over

  /** Every committed record of `s` is in the log with which `candidate` starts as leader, whoever hears of it. */
  ghost predicate KeepsCommitted(top: Topology, s: Durability.State, candidate: nat)
    requires top.Valid() && top.Controller() in s.brokers && s.latest.leader in s.brokers && candidate in s.brokers
  {
    forall told ::
      var s' := Durability.Promoted(top, s, candidate, told);
      candidate in s'.brokers && Durability.Holds(s, Durability.LeaderLog(s'), s.latest.highWatermark)
  }

  /** A live controller below the last epoch that knows the newest high watermark. */
  ghost predicate InformedController(top: Topology, s: Durability.State)
    requires top.Valid()
  {
    var c := top.Controller();
    && c in s.live && c in s.brokers && s.brokers[c].entry.epoch < U64_MAX
    && s.brokers[c].entry.highWatermark == s.latest.highWatermark
  }

  /** The replica that fail-over picks may be promoted, and its promotion keeps every committed record. */
  lemma PickKeepsCommitted(top: Topology, s: Durability.State, replies: Replies, pick: nat)
    requires top.Valid() && Durability.Invariant(Durability.WithinEpoch(top), s) && InformedController(top, s)
    requires Describes(s, top.Controller(), s.brokers[top.Controller()], replies)
    requires Picked(top, s.latest.leader, s.latest.highWatermark, replies, pick)
    ensures Durability.MayPromote(top, s, pick, Responders(top, None, replies))
    ensures pick in s.brokers && KeepsCommitted(top, s, pick)
  {
    PickPassesCheck(top, s.latest.leader, s.latest.highWatermark, pick, replies);
    PromotionIsStep(top, s, pick, replies, {});
    forall told
      ensures var s' := Durability.Promoted(top, s, pick, told);
              pick in s'.brokers && Durability.Holds(s, Durability.LeaderLog(s'), s.latest.highWatermark)
    {
      Durability.PromotionKeepsCommittedIff(top, s, pick, Responders(top, None, replies), told);
      Durability.PromotedLeaderLog(top, s, pick, Responders(top, None, replies), told);
    }
  }

  /** Under a majority policy fail-over has somebody to pick whenever enough replicas other than the leader reply. */
  lemma FailOverFinds(top: Topology, s: Durability.State, replies: Replies)
    requires top.Valid() && 2 * top.minInSync > top.replicationFactor
    requires Durability.Invariant(Durability.WithinEpoch(top), s) && top.Controller() in s.live
    requires Describes(s, top.Controller(), s.brokers[top.Controller()], replies)
    requires |Responders(top, Some(s.latest.leader), replies)| >= top.minInSync
    ensures exists b :: b in Responders(top, Some(s.latest.leader), replies) && replies(b).value >= s.latest.highWatermark
  {
    var holders :| Durability.HeldBy(Durability.WithinEpoch(top), s, holders);
    QuorumHasCandidate(top, s.latest.leader, s.latest.highWatermark, holders, replies);
  }

  /**
   At any point of an allowed run under a majority policy, with a live controller: if enough replicas other than the leader
   reply, automatic fail-over has a replica to pick, and any replica it can pick may be promoted and keeps every committed
   record.
   */
  lemma FailOverIsSafe(top: Topology, steps: seq<Durability.Step>, replies: Replies)
    requires top.Valid() && 2 * top.minInSync > top.replicationFactor && Durability.AllowedRun(top, steps)
    requires var s := Durability.Run(top, steps);
             && top.Controller() in s.live && s.latest.epoch < U64_MAX && top.Controller() in s.brokers
             && Describes(s, top.Controller(), s.brokers[top.Controller()], replies)
             && |Responders(top, Some(s.latest.leader), replies)| >= top.minInSync
    ensures var s := Durability.Run(top, steps);
            && (exists b :: b in Responders(top, Some(s.latest.leader), replies) && replies(b).value >= s.latest.highWatermark)
            && s.latest.leader in s.brokers
            && (forall pick :: Picked(top, s.latest.leader, s.latest.highWatermark, replies, pick) ==>
                  && pick in s.live && pick in s.brokers && pick != s.latest.leader
                  && Durability.MayPromote(top, s, pick, Responders(top, None, replies))
                  && KeepsCommitted(top, s, pick))
  {
    var s := Durability.Run(top, steps);
    Durability.RunKeeps(top, steps);
    Durability.AcrossIsWithin(top, s);
    FailOverFinds(top, s, replies);
    forall pick | Picked(top, s.latest.leader, s.latest.highWatermark, replies, pick)
      ensures pick in s.live && pick in s.brokers && pick != s.latest.leader
      ensures Durability.MayPromote(top, s, pick, Responders(top, None, replies))
      ensures KeepsCommitted(top, s, pick)
    {
      RespondersIff(top, Some(s.latest.leader), replies, pick);
      PickKeepsCommitted(top, s, replies, pick);
    }
  }

  /** Why a promotion is refused: the first that holds of these, in this order. */
  ghost predicate RefusedFor(top: Topology, id: nat, entry: Entry, candidate: nat, replies: Replies, why: Refusal)
    requires top.Valid()
  {
    if id != top.Controller() then why == NotController(top.Controller())
    else if candidate !in top.Replicas() then why == NotReplica
    else if candidate !in Responders(top, None, replies) then why == Unverified(PromotionCandidateUnavailable)
    else if |Responders(top, None, replies)| < top.minInSync || replies(candidate).value < entry.highWatermark then
      why.Unverified? && why.cause.UnsafePromotion?
      && why.cause.candidate == replies(candidate).value && why.cause.available == |Responders(top, None, replies)|
    else entry.epoch >= U64_MAX && why == LeaderEpochOverflow
  }

  /** A broker asked to promote: its log and registry entry for the partition. */
  class PromotingBroker {
    const top: Topology
    const id: nat
    var log: Log
    var entry: Entry

    constructor (top: Topology, id: nat, log: Log, entry: Entry)
      ensures this.top == top && this.id == id && this.log == log && this.entry == entry
    {
      this.top, this.id, this.log, this.entry := top, id, log, entry;
    }

    /**
     Start a new epoch under `candidate`; a controller that promotes itself first drops its uncommitted tail. At the
     controller this is the promotion step of the durability model and of the election model.
     */
    method PromoteLeader(candidate: nat, replies: Replies) returns (r: Result<Entry, Refusal>)
      requires top.Valid()
      modifies this
      ensures r.Success? <==> id == top.Controller() && Promotable(top, old(entry), candidate, replies)
      ensures r.Success? ==>
                && r.value == entry == Entry(candidate, old(entry).epoch + 1, old(entry).highWatermark)
                && log == if candidate == id then Truncated(old(log), entry.highWatermark) else old(log)
      ensures r.Failure? ==> log == old(log) && entry == old(entry)
      ensures r.Failure? ==> RefusedFor(top, id, old(entry), candidate, replies, r.error)
      ensures id == top.Controller() ==>
                forall s: Durability.State, told: set<nat> :: Describes(s, id, Broker(old(log), old(entry)), replies) ==>
                  TakesStep(top, s, candidate, Responders(top, None, replies), told, r.Success?, Broker(log, entry))
      ensures id == top.Controller() ==>
                forall s: Election.State :: HasRead(s, id, old(entry)) ==> Elects(top, s, old(entry), candidate, r.Success?, entry)
    {
      ghost var before := Broker(log, entry);
      r := Decide(candidate, replies);
      forall s: Durability.State, told: set<nat> | id == top.Controller() && Describes(s, id, before, replies)
        ensures TakesStep(top, s, candidate, Responders(top, None, replies), told, r.Success?, Broker(log, entry))
      {
        PromotionIsStep(top, s, candidate, replies, told);
      }
      forall s: Election.State | id == top.Controller() && HasRead(s, id, before.entry)
        ensures Elects(top, s, before.entry, candidate, r.Success?, entry)
      {
        PromotionElects(top, s, before.entry, candidate, replies);
      }
    }

    /**
     Automatic fail-over at the controller once the leader has stopped answering: pick a replica by the replies `asked`, if
     there is one to pick, and promote it, for which the replicas are asked again.
     */
    method FailOver(asked: Replies, checked: Replies) returns (r: Option<Result<Entry, Refusal>>)
      requires top.Valid() && id == top.Controller()
      modifies this
      ensures var responders := Responders(top, Some(old(entry).leader), asked);
              r.None? <==> |responders| < top.minInSync
                           || forall b :: b in responders ==> asked(b).value < old(entry).highWatermark
      ensures r.None? ==> log == old(log) && entry == old(entry)
      ensures r.Some? ==>
                exists pick :: && Picked(top, old(entry).leader, old(entry).highWatermark, asked, pick)
                               && (r.value.Success? <==> Promotable(top, old(entry), pick, checked))
                               && Broker(log, entry) == AfterPromoting(top, Broker(old(log), old(entry)), pick, checked)
      ensures r.Some? && asked == checked && old(entry).epoch < U64_MAX ==> r.value.Success?
    {
      var picked := SelectAutomaticCandidate(top, entry.leader, entry.highWatermark, asked);
      if picked.None? {
        return None;
      }
      PickPassesCheck(top, entry.leader, entry.highWatermark, picked.value, asked);
      var promoted := PromoteLeader(picked.value, checked);
      return Some(promoted);
    }

    method Decide(candidate: nat, replies: Replies) returns (r: Result<Entry, Refusal>)
      requires top.Valid()
      modifies this
      ensures r.Success? <==> id == top.Controller() && Promotable(top, old(entry), candidate, replies)
      ensures r.Success? ==> r.value == entry
      ensures r.Failure? ==> RefusedFor(top, id, old(entry), candidate, replies, r.error)
      ensures Broker(log, entry) == if id == top.Controller() then AfterPromoting(top, Broker(old(log), old(entry)), candidate, replies)
                                    else Broker(old(log), old(entry))
    {
      if id != top.Controller() {
        return Failure(NotController(top.Controller()));
      }
      top.ReplicaPlacement();
      if !top.IsReplica(candidate) {
        return Failure(NotReplica);
      }
      var verified := VerifyPromotionCandidate(top, candidate, entry.highWatermark, replies);
      if verified.Failure? {
        return Failure(Unverified(verified.error));
      }
      if entry.epoch >= U64_MAX {
        return Failure(LeaderEpochOverflow);
      }
      var leadership := Entry(candidate, entry.epoch + 1, entry.highWatermark);
      if candidate == id {
        if |log| > leadership.highWatermark {
          log := log[..leadership.highWatermark];
        }
      }
      match Adopt(top.nodes, Some(entry), leadership)
      case Success(adopted) =>
        entry := adopted;
        r := Success(adopted);
      case Failure(cause) =>
        r := Failure(NotApplied(cause));
    }
  }
}
