/**
 A leader that replicates a record, and a follower that recovers, take steps of the durability model, so what is proved there
 holds for them.
 */
module Simulation {
  import opened Wrappers
  import opened Cluster
  import opened Replica
  import opened CatchUp
  import opened Durability

  lemma {:induction false} ContinueJoins(top: Topology, s: State, a: seq<Step>, b: seq<Step>)
    requires top.Valid()
    ensures Continue(top, s, a + b) == Continue(top, Continue(top, s, a), b)
    ensures SteadyRun(top, s, a) && SteadyRun(top, Continue(top, s, a), b) ==> SteadyRun(top, s, a + b)
    decreases |b|
  {
    if b == [] {
      assert a + b == a;
    } else {
      var init := b[..|b| - 1];
      assert (a + b)[..|a + b| - 1] == a + init;
      ContinueJoins(top, s, a, init);
    }
  }

  lemma OneStep(top: Topology, s: State, step: Step)
    requires top.Valid()
    ensures Continue(top, s, [step]) == Next(top, s, step)
    ensures Steady(top, s, step) ==> SteadyRun(top, s, [step])
  {
    assert [step][..0] == [];
  }

  /** No commit among `steps`. */
  predicate Quiet(steps: seq<Step>) {
    forall x :: x in steps ==> !x.Commit?
  }

  /** Each commit among `steps` tells the controller at once, or none does. */
  predicate Announcing(steps: seq<Step>, reached: bool) {
    forall x :: x in steps && x.Commit? ==> x.reached == reached
  }

  /** `id` is up and leads, by its own registry. */
  ghost predicate Leading(top: Topology, s: State, id: nat) {
    && top.Valid() && s.brokers.Keys == (set b | b in top.nodes)
    && id in top.Replicas() && id in s.brokers && Leads(s, id)
  }

  /** Nothing but broker `f` changed, and messages were added. */
  ghost predicate OnlyAt(s: State, s': State, f: nat) {
    && f in s.brokers && f in s'.brokers && s'.brokers == s.brokers[f := s'.brokers[f]]
    && s'.live == s.live && s'.latest == s.latest && s'.acked == s.acked && s.messages <= s'.messages
  }

  /** A record read back, sent and received. */
  lemma DeliveryIsRun(top: Topology, s: State, id: nat, f: nat, o: nat) returns (steps: seq<Step>)
    requires Leading(top, s, id) && f in top.Followers(id) && f in s.live && f in s.brokers && o < |s.brokers[id].log|
    ensures SteadyRun(top, s, steps) && Quiet(steps) && OnlyAt(s, Continue(top, s, steps), f)
    ensures var s' := Continue(top, s, steps);
            var h := HandleReplication(top.nodes, s.brokers[f], RecordAt(s.brokers[id].log, s.brokers[id].entry, o));
            && s'.brokers[f] == h.broker
            && (h.reply.Success? ==> Acknowledge(f, s.brokers[id].entry.epoch, h.reply.value) in s'.messages)
  {
    var sent := RecordAt(s.brokers[id].log, s.brokers[id].entry, o);
    var send, receive := SendRecord(id, f, o, sent.record), ReceiveRecord(f, sent);
    var taken := TakenRun(top, s, id, o);
    var s1 := Continue(top, s, taken);
    OneStep(top, s1, send);
    OneStep(top, Next(top, s1, send), receive);
    ContinueJoins(top, s, taken, [send]);
    ContinueJoins(top, s, taken + [send], [receive]);
    SentThenReceived(top, s1, id, f, o, sent);
    steps := taken + [send] + [receive];
  }

  /** A record read back for replication. */
  lemma TakenRun(top: Topology, s: State, id: nat, o: nat) returns (steps: seq<Step>)
    requires Leading(top, s, id) && o < |s.brokers[id].log|
    ensures SteadyRun(top, s, steps) && Quiet(steps)
    ensures var pending := Pending(id, s.brokers[id].entry.epoch, o, s.brokers[id].log[o]);
            Continue(top, s, steps) == s.(messages := s.messages + {pending})
  {
    steps := [ReadBack(id, o)];
    OneStep(top, s, ReadBack(id, o));
  }

  lemma SentThenReceived(top: Topology, s: State, id: nat, f: nat, o: nat, sent: Replication)
    requires Leading(top, s, id) && f in top.Followers(id) && f in s.live && f in s.brokers && o < |s.brokers[id].log|
    requires sent == RecordAt(s.brokers[id].log, s.brokers[id].entry, o)
    requires Pending(id, s.brokers[id].entry.epoch, o, sent.record) in s.messages
    ensures var s1 := Next(top, s, SendRecord(id, f, o, sent.record));
            var s2 := Next(top, s1, ReceiveRecord(f, sent));
            var h := HandleReplication(top.nodes, s.brokers[f], sent);
            && s1 == s.(messages := s.messages + {Message.Replicate(f, sent)})
            && s2 == s1.(brokers := s.brokers[f := h.broker],
                         messages := if h.reply.Success? then s1.messages + {Acknowledge(f, sent.epoch, h.reply.value)}
                                     else s1.messages)
  {
  }

  lemma FollowersDiffer(top: Topology, id: nat)
    requires top.Valid()
    ensures id !in top.Followers(id)
    ensures forall i, j :: 0 <= i < j < |top.Followers(id)| ==> top.Followers(id)[i] != top.Followers(id)[j]
    ensures forall f :: f in top.Followers(id) ==> f in top.nodes
  {
    top.FollowersAreOtherReplicas(id);
    top.ReplicaPlacement();
  }

  lemma OnlyAtTwice(s: State, s': State, s'': State, f: nat)
    requires OnlyAt(s, s', f) && OnlyAt(s', s'', f)
    ensures OnlyAt(s, s'', f)
  {
    assert s''.brokers == s.brokers[f := s''.brokers[f]];
  }

  lemma StillLeading(top: Topology, s: State, s': State, id: nat, f: nat)
    requires Leading(top, s, id) && OnlyAt(s, s', f) && f != id
    ensures Leading(top, s', id) && s'.brokers[id] == s.brokers[id]
  {
  }

  lemma OneThenRest(log: Log, before: Log, o: nat)
    requires |before| <= o < |log|
    ensures before + [log[|before|]] + Beyond(log, |before| + 1, o + 1) == before + Beyond(log, |before|, o + 1)
  {
  }

  /** The records a follower of the leader's epoch lacks, one after the other. */
  lemma {:induction false} MissingIsRun(top: Topology, s: State, id: nat, f: nat, o: nat) returns (steps: seq<Step>)
    requires Leading(top, s, id) && f in top.Followers(id) && f in s.live && f in s.brokers && o < |s.brokers[id].log|
    requires s.brokers[f].entry.epoch == s.brokers[id].entry.epoch && s.brokers[f].entry.leader == id
    requires |s.brokers[f].log| <= o
    ensures SteadyRun(top, s, steps) && Quiet(steps) && OnlyAt(s, Continue(top, s, steps), f)
    ensures var s' := Continue(top, s, steps);
            && s'.brokers[f] == Broker(s.brokers[f].log + Beyond(s.brokers[id].log, |s.brokers[f].log|, o + 1), s.brokers[f].entry)
            && Acknowledged(s', f, s.brokers[id].entry.epoch, o)
    decreases o - |s.brokers[f].log|
  {
    var log, n := s.brokers[id].log, |s.brokers[f].log|;
    FollowersDiffer(top, id);
    NextIsAppended(top.nodes, log, s.brokers[id].entry, s.brokers[f]);
    var first := DeliveryIsRun(top, s, id, f, n);
    var s1 := Continue(top, s, first);
    if n == o {
      assert Beyond(log, n, o + 1) == [log[n]];
      steps := first;
      assert Acknowledge(f, s.brokers[id].entry.epoch, n + 1) in s1.messages;
    } else {
      StillLeading(top, s, s1, id, f);
      var rest := MissingIsRun(top, s1, id, f, o);
      ContinueJoins(top, s, first, rest);
      OnlyAtTwice(s, s1, Continue(top, s1, rest), f);
      OneThenRest(log, s.brokers[f].log, o);
      steps := first + rest;
    }
  }

  /** Bringing a record to one follower. */
  lemma CatchUpIsRun(top: Topology, s: State, id: nat, f: nat, o: nat) returns (steps: seq<Step>)
    requires Leading(top, s, id) && f in top.Followers(id) && f in s.live && f in s.brokers && o < |s.brokers[id].log|
    ensures SteadyRun(top, s, steps) && Quiet(steps) && OnlyAt(s, Continue(top, s, steps), f)
    ensures var s' := Continue(top, s, steps);
            var after := CaughtUp(top.nodes, s.brokers[id].log, s.brokers[id].entry, s.brokers[f], o);
            && s'.brokers[f] == after.broker
            && (after.reply.Success? ==> Acknowledged(s', f, s.brokers[id].entry.epoch, o))
  {
    var log, entry := s.brokers[id].log, s.brokers[id].entry;
    FollowersDiffer(top, id);
    top.ReplicaPlacement();
    FirstReply(top.nodes, log, entry, s.brokers[f], o);
    var h := HandleReplication(top.nodes, s.brokers[f], RecordAt(log, entry, o));
    steps := DeliveryIsRun(top, s, id, f, o);
    if h.reply.Success? && h.reply.value <= o {
      steps := MissingAfter(top, s, id, f, o, steps, h.broker);
    } else if h.reply.Success? && h.reply.value == o + 1 {
      NothingMissing(log, h.broker.log, o);
      assert Acknowledge(f, entry.epoch, o + 1) in Continue(top, s, steps).messages;
    }
  }

  /** The records that a first delivery showed to be missing. */
  lemma MissingAfter(top: Topology, s: State, id: nat, f: nat, o: nat, first: seq<Step>, stored: Broker) returns (steps: seq<Step>)
    requires Leading(top, s, id) && f in top.Followers(id) && f in s.live && f in s.brokers && o < |s.brokers[id].log|
    requires SteadyRun(top, s, first) && Quiet(first) && OnlyAt(s, Continue(top, s, first), f) && f != id
    requires Continue(top, s, first).brokers[f] == stored && |stored.log| <= o
    requires stored.entry.epoch == s.brokers[id].entry.epoch && stored.entry.leader == id
    ensures SteadyRun(top, s, steps) && Quiet(steps) && OnlyAt(s, Continue(top, s, steps), f)
    ensures Continue(top, s, steps).brokers[f]
            == Broker(stored.log + Beyond(s.brokers[id].log, |stored.log|, o + 1), stored.entry)
    ensures Acknowledged(Continue(top, s, steps), f, s.brokers[id].entry.epoch, o)
  {
    var s1 := Continue(top, s, first);
    StillLeading(top, s, s1, id, f);
    var rest := MissingIsRun(top, s1, id, f, o);
    ContinueJoins(top, s, first, rest);
    OnlyAtTwice(s, s1, Continue(top, s1, rest), f);
    steps := first + rest;
  }

  lemma NothingMissing(log: Log, stored: Log, o: nat)
    requires o < |log| && |stored| == o + 1
    ensures stored + Beyond(log, |stored|, o + 1) == stored
  {
  }

  /** Later, with the same brokers up and the same history, and with messages added. */
  ghost predicate MoreMessages(s: State, s': State) {
    s'.live == s.live && s'.latest == s.latest && s'.acked == s.acked && s.messages <= s'.messages
  }

  ghost predicate AllAcknowledged(s: State, followers: set<nat>, epoch: nat, o: nat) {
    forall f :: f in followers ==> Acknowledged(s, f, epoch, o)
  }

  lemma StayAcknowledged(s: State, s': State, followers: set<nat>, epoch: nat, o: nat)
    requires AllAcknowledged(s, followers, epoch, o) && s.messages <= s'.messages
    ensures AllAcknowledged(s', followers, epoch, o)
  {
    forall f | f in followers
      ensures Acknowledged(s', f, epoch, o)
    {
      assert Acknowledged(s, f, epoch, o);
    }
  }

  /** Bringing a record to the first `k` followers. */
  lemma {:induction false} AllIsRun(top: Topology, s: State, id: nat, o: nat, reachable: set<nat>, outcome: Outcomes, k: nat)
    returns (steps: seq<Step>)
    requires Leading(top, s, id) && o < |s.brokers[id].log| && k <= |top.Followers(id)|
    requires forall f :: f in top.Followers(id) ==>
               && f in s.brokers && (f in reachable ==> f in s.live)
               && outcome(f) == CaughtUp(top.nodes, s.brokers[id].log, s.brokers[id].entry, s.brokers[f], o)
    ensures SteadyRun(top, s, steps) && Quiet(steps) && MoreMessages(s, Continue(top, s, steps))
    ensures AllReplicated(outcome, reachable, top.Followers(id)[..k], s.brokers, Continue(top, s, steps).brokers)
    ensures AllAcknowledged(Continue(top, s, steps), Confirming(outcome, reachable, top.Followers(id)[..k]),
                            s.brokers[id].entry.epoch, o)
  {
    if k == 0 {
      steps := [];
    } else {
      steps := AllIsRun(top, s, id, o, reachable, outcome, k - 1);
      steps := OneMoreRun(top, s, id, o, reachable, outcome, k - 1, steps);
    }
  }

  lemma OneMoreRun(top: Topology, s: State, id: nat, o: nat, reachable: set<nat>, outcome: Outcomes, k: nat, sofar: seq<Step>)
    returns (steps: seq<Step>)
    requires Leading(top, s, id) && o < |s.brokers[id].log| && k < |top.Followers(id)|
    requires var f := top.Followers(id)[k];
             && f in s.brokers && (f in reachable ==> f in s.live)
             && outcome(f) == CaughtUp(top.nodes, s.brokers[id].log, s.brokers[id].entry, s.brokers[f], o)
    requires SteadyRun(top, s, sofar) && Quiet(sofar) && MoreMessages(s, Continue(top, s, sofar))
    requires AllReplicated(outcome, reachable, top.Followers(id)[..k], s.brokers, Continue(top, s, sofar).brokers)
    requires AllAcknowledged(Continue(top, s, sofar), Confirming(outcome, reachable, top.Followers(id)[..k]),
                             s.brokers[id].entry.epoch, o)
    ensures SteadyRun(top, s, steps) && Quiet(steps) && MoreMessages(s, Continue(top, s, steps))
    ensures AllReplicated(outcome, reachable, top.Followers(id)[..k + 1], s.brokers, Continue(top, s, steps).brokers)
    ensures AllAcknowledged(Continue(top, s, steps), Confirming(outcome, reachable, top.Followers(id)[..k + 1]),
                            s.brokers[id].entry.epoch, o)
  {
    var followers, s1 := top.Followers(id), Continue(top, s, sofar);
    var f := followers[k];
    FollowersDiffer(top, id);
    OneMoreReplicated(outcome, reachable, followers, k, s.brokers, s1.brokers);
    assert followers[..k + 1] == followers[..k] + [f];
    assert f in followers && id !in followers[..k];
    if f in reachable {
      assert Leading(top, s1, id) && s1.brokers[id] == s.brokers[id];
      var more := CatchUpIsRun(top, s1, id, f, o);
      ContinueJoins(top, s, sofar, more);
      StayAcknowledged(s1, Continue(top, s1, more), Confirming(outcome, reachable, followers[..k]), s.brokers[id].entry.epoch, o);
      steps := sofar + more;
    } else {
      steps := sofar;
    }
  }

  lemma AnnouncementStep(top: Topology, s: State, b: nat, e: Entry)
    requires top.Valid() && b in s.live && b in s.brokers && Announce(e) in s.messages
    ensures Next(top, s, ReceiveAnnouncement(b, e))
            == s.(brokers := s.brokers[b := HandleApply(top.nodes, s.brokers[b], e).broker])
  {
  }

  /** Announcing to the first `k` brokers, of which the first, the controller, has heard already. */
  lemma {:induction false} AnnounceIsRun(top: Topology, s: State, id: nat, e: Entry, reachable: set<nat>, start: map<nat, Broker>,
                                         k: nat)
    returns (steps: seq<Step>)
    requires top.Valid() && s.brokers.Keys == (set b | b in top.nodes) && 1 <= k <= |top.nodes|
    requires forall b :: b in top.nodes && b in reachable ==> b in s.live
    requires Announce(e) in s.messages && AllAnnounced(top, id, e, reachable, top.nodes[..1], start, s.brokers)
    ensures SteadyRun(top, s, steps) && Quiet(steps) && MoreMessages(s, Continue(top, s, steps))
    ensures AllAnnounced(top, id, e, reachable, top.nodes[..k], start, Continue(top, s, steps).brokers)
  {
    if k == 1 {
      steps := [];
    } else {
      var sofar := AnnounceIsRun(top, s, id, e, reachable, start, k - 1);
      var more := OneAnnouncementIsRun(top, Continue(top, s, sofar), id, e, reachable, start, k - 1);
      ContinueJoins(top, s, sofar, more);
      steps := sofar + more;
    }
  }

  lemma OneAnnouncementIsRun(top: Topology, s: State, id: nat, e: Entry, reachable: set<nat>, start: map<nat, Broker>, k: nat)
    returns (steps: seq<Step>)
    requires top.Valid() && k < |top.nodes| && top.nodes[k] in s.brokers && (top.nodes[k] in reachable ==> top.nodes[k] in s.live)
    requires Announce(e) in s.messages && AllAnnounced(top, id, e, reachable, top.nodes[..k], start, s.brokers)
    ensures SteadyRun(top, s, steps) && Quiet(steps) && MoreMessages(s, Continue(top, s, steps))
    ensures AllAnnounced(top, id, e, reachable, top.nodes[..k + 1], start, Continue(top, s, steps).brokers)
  {
    var b := top.nodes[k];
    OneMoreAnnounced(top, id, e, reachable, start, s.brokers, k);
    if b != id && b in reachable {
      OneStep(top, s, ReceiveAnnouncement(b, e));
      AnnouncementStep(top, s, b, e);
      steps := [ReceiveAnnouncement(b, e)];
    } else {
      steps := [];
    }
  }

  /** The commit itself, which the controller, if it can be reached, hears of first. */
  lemma CommitStep(top: Topology, s: State, id: nat, o: nat, ackers: set<nat>, reachable: set<nat>)
    requires Leading(top, s, id) && o < |s.brokers[id].log|
    requires InEpoch(top, s, id, o, s.brokers[id].log[o], ackers)
    requires forall b :: b in top.nodes && b in reachable ==> b in s.live
    ensures var log, entry := s.brokers[id].log, s.brokers[id].entry;
            var s' := Next(top, s, Commit(id, o, log[o], ackers, top.Controller() in reachable));
            && s'.live == s.live && (o, log[o]) in s'.acked
            && if o + 1 <= entry.highWatermark then s'.brokers == s.brokers
               else
                 var e := entry.(highWatermark := o + 1);
                 && Announce(e) in s'.messages
                 && AllAnnounced(top, id, e, reachable, top.nodes[..1], s.brokers[id := Broker(log, e)], s'.brokers)
  {
    var c := top.Controller();
    assert top.nodes[..1] == [c] && c in top.nodes;
  }

  /** Committing a record that a quorum has acknowledged, and announcing the new high watermark. */
  lemma CommitIsRun(top: Topology, s: State, id: nat, o: nat, ackers: set<nat>, reachable: set<nat>) returns (steps: seq<Step>)
    requires Leading(top, s, id) && o < |s.brokers[id].log|
    requires InEpoch(top, s, id, o, s.brokers[id].log[o], ackers)
    requires forall b :: b in top.nodes && b in reachable ==> b in s.live
    ensures SteadyRun(top, s, steps) && Announcing(steps, top.Controller() in reachable)
    ensures var s', e := Continue(top, s, steps), Raised(s.brokers[id].entry, o + 1);
            && (o, s.brokers[id].log[o]) in s'.acked && s'.brokers.Keys == s.brokers.Keys
            && s'.brokers[id] == Broker(s.brokers[id].log, e)
            && forall b :: b in s.brokers && b != id ==>
                 s'.brokers[b] == if e == s.brokers[id].entry then s.brokers[b] else Announced(top, e, reachable, s.brokers[b], b)
  {
    var entry, c := s.brokers[id].entry, top.Controller();
    var commit := Commit(id, o, s.brokers[id].log[o], ackers, c in reachable);
    OneStep(top, s, commit);
    var s1 := Next(top, s, commit);
    CommitStep(top, s, id, o, ackers, reachable);
    if o + 1 <= entry.highWatermark {
      steps := [commit];
    } else {
      var e := entry.(highWatermark := o + 1);
      var led := s.brokers[id := Broker(s.brokers[id].log, e)];
      var rest := AnnounceIsRun(top, s1, id, e, reachable, led, |top.nodes|);
      assert top.nodes[..|top.nodes|] == top.nodes;
      ContinueJoins(top, s, [commit], rest);
      steps := [commit] + rest;
    }
  }

  /** The brokers other than `id`, as the leader sees them. */
  function Others(s: State, id: nat): map<nat, Broker> {
    map b | b in s.brokers && b != id :: s.brokers[b]
  }

  /**
   What `Replicator.Replicate` does is a run of the durability model within one epoch: in any state in which `id` leads, some
   steps of that model leave the leader's entry and every other broker exactly as `Replicate` leaves them, and acknowledge
   the record if enough replicas hold it.
   */
  lemma ReplicateIsRun(top: Topology, s: State, id: nat, o: nat, reachable: set<nat>) returns (steps: seq<Step>)
    requires Leading(top, s, id) && o < |s.brokers[id].log|
    requires forall b :: b in top.nodes && b in reachable ==> b in s.live
    ensures SteadyRun(top, s, steps) && Announcing(steps, top.Controller() in reachable)
    ensures var s', log, entry := Continue(top, s, steps), s.brokers[id].log, s.brokers[id].entry;
            && id in s'.brokers && s'.brokers[id].log == log
            && Leaves(top, id, log, entry, Others(s, id), o, reachable, s'.brokers[id].entry, Others(s', id))
            && (Available(top, id, log, entry, Others(s, id), o, reachable) >= top.minInSync ==> (o, log[o]) in s'.acked)
  {
    var log, entry, followers := s.brokers[id].log, s.brokers[id].entry, top.Followers(id);
    var outcome := OutcomesOf(top, log, entry, Others(s, id), o);
    FollowersDiffer(top, id);
    steps := AllIsRun(top, s, id, o, reachable, outcome, |followers|);
    assert followers[..|followers|] == followers;
    var s1 := Continue(top, s, steps);
    var ackers := Confirming(outcome, reachable, followers);
    assert Leading(top, s1, id) && s1.brokers[id] == s.brokers[id];
    if 1 + |ackers| >= top.minInSync {
      var taken := TakenRun(top, s1, id, o);
      var s2 := Continue(top, s1, taken);
      StayAcknowledged(s1, s2, ackers, entry.epoch, o);
      var rest := CommitIsRun(top, s2, id, o, ackers, reachable);
      ContinueJoins(top, s1, taken, rest);
      ContinueJoins(top, s, steps, taken + rest);
      steps := steps + (taken + rest);
    }
  }

  /** So `Replicate` keeps everything that is proved of an epoch: prefixes, and high watermarks that enough replicas hold. */
  lemma ReplicateKeepsInvariant(top: Topology, s: State, id: nat, o: nat, reachable: set<nat>) returns (s': State)
    requires Leading(top, s, id) && o < |s.brokers[id].log| && Invariant(WithinEpoch(top), s)
    requires forall b :: b in top.nodes && b in reachable ==> b in s.live
    ensures Invariant(WithinEpoch(top), s') && id in s'.brokers
    ensures Leaves(top, id, s.brokers[id].log, s.brokers[id].entry, Others(s, id), o, reachable, s'.brokers[id].entry, Others(s', id))
  {
    var steps := ReplicateIsRun(top, s, id, o, reachable);
    SteadyRunKeeps(top, s, steps);
    s' := Continue(top, s, steps);
  }

  /** A run of one epoch continues an allowed run if its commits reach the controller or the controller is down. */
  lemma {:induction false} ExtendsRun(top: Topology, before: seq<Step>, steps: seq<Step>, reached: bool)
    requires top.Valid() && AllowedRun(top, before) && SteadyRun(top, Run(top, before), steps) && Announcing(steps, reached)
    requires reached || top.Controller() !in Run(top, before).live
    ensures AllowedRun(top, before + steps)
    ensures Run(top, before + steps) == Continue(top, Run(top, before), steps)
    ensures Run(top, before + steps).live <= Run(top, before).live
    decreases |steps|
  {
    if steps == [] {
      assert before + steps == before;
    } else {
      var init, last := steps[..|steps| - 1], steps[|steps| - 1];
      assert last in steps && forall x :: x in init ==> x in steps;
      ExtendsRun(top, before, init, reached);
      LastOfAll(before, steps);
      ExtendsByOne(top, before + steps, before + init, last, reached);
    }
  }

  lemma ExtendsByOne(top: Topology, all: seq<Step>, init: seq<Step>, last: Step, reached: bool)
    requires top.Valid() && all == init + [last] && AllowedRun(top, init)
    requires Steady(top, Run(top, init), last) && (last.Commit? ==> last.reached == reached)
    requires reached || top.Controller() !in Run(top, init).live
    ensures AllowedRun(top, all) && Run(top, all) == Next(top, Run(top, init), last)
    ensures Run(top, all).live <= Run(top, init).live
  {
    RunUnfolds(top, all, init, last);
    SteadyIsAllowed(top, Run(top, init), last, reached);
    AllowedExtends(top, all, init, last);
  }

  lemma SteadyIsAllowed(top: Topology, s: State, step: Step, reached: bool)
    requires top.Valid() && Steady(top, s, step) && (step.Commit? ==> step.reached == reached)
    requires reached || top.Controller() !in s.live
    ensures Allowed(top, s, step) && Next(top, s, step).live <= s.live
  {
  }

  lemma AllowedExtends(top: Topology, all: seq<Step>, init: seq<Step>, last: Step)
    requires top.Valid() && all == init + [last] && AllowedRun(top, init) && Allowed(top, Run(top, init), last)
    ensures AllowedRun(top, all)
  {
    assert all[..|all| - 1] == init;
  }

  /**
   After any allowed run, `Replicate` at its leader is a continuation of that run, if the controller is reachable or down: all
   that is proved of allowed runs holds across it and afterwards, for the record it acknowledges too.
   */
  lemma ReplicateExtendsRun(top: Topology, before: seq<Step>, id: nat, o: nat, reachable: set<nat>) returns (steps: seq<Step>)
    requires top.Valid() && AllowedRun(top, before) && Leading(top, Run(top, before), id)
    requires o < |Run(top, before).brokers[id].log|
    requires forall b :: b in top.nodes && b in reachable ==> b in Run(top, before).live
    requires top.Controller() in reachable || top.Controller() !in Run(top, before).live
    ensures AllowedRun(top, before + steps)
    ensures var s, s' := Run(top, before), Run(top, before + steps);
            var log, entry := s.brokers[id].log, s.brokers[id].entry;
            && id in s'.brokers && s'.brokers[id].log == log
            && Leaves(top, id, log, entry, Others(s, id), o, reachable, s'.brokers[id].entry, Others(s', id))
            && (Available(top, id, log, entry, Others(s, id), o, reachable) >= top.minInSync ==> (o, log[o]) in s'.acked)
  {
    steps := ReplicateIsRun(top, Run(top, before), id, o, reachable);
    ExtendsRun(top, before, steps, top.Controller() in reachable);
  }

  // ---------------------------------------------------------------- recovery

  /** The leader serves its record at `o` and the follower, whose log ends there, appends it. */
  lemma FetchIsRun(top: Topology, s: State, id: nat, f: nat) returns (steps: seq<Step>)
    requires Leading(top, s, id) && f in s.live && f in s.brokers && f != id && top.IsReplica(f)
    requires |s.brokers[f].log| < |s.brokers[id].log| && |s.brokers[f].log| < s.brokers[id].entry.highWatermark
    ensures SteadyRun(top, s, steps) && Quiet(steps) && OnlyAt(s, Continue(top, s, steps), f)
    ensures Continue(top, s, steps).brokers[f]
            == Broker(s.brokers[f].log + [s.brokers[id].log[|s.brokers[f].log|]], s.brokers[f].entry)
  {
    var o := |s.brokers[f].log|;
    var serve, recover := ServeFetch(id, o), Recover(f, o, s.brokers[id].log[o]);
    OneStep(top, s, serve);
    OneStep(top, Next(top, s, serve), recover);
    ContinueJoins(top, s, [serve], [recover]);
    ServedThenStored(top, s, id, f, o);
    steps := [serve] + [recover];
  }

  lemma ServedThenStored(top: Topology, s: State, id: nat, f: nat, o: nat)
    requires Leading(top, s, id) && f in s.live && f in s.brokers && f != id && top.IsReplica(f)
    requires o == |s.brokers[f].log| < |s.brokers[id].log| && o < s.brokers[id].entry.highWatermark
    ensures var r := s.brokers[id].log[o];
            var s1 := Next(top, s, ServeFetch(id, o));
            && s1 == s.(messages := s.messages + {Fetched(o, r)})
            && Next(top, s1, Recover(f, o, r))
               == s1.(brokers := s.brokers[f := Broker(s.brokers[f].log + [r], s.brokers[f].entry)])
  {
  }

  /** Recovery of a follower in any state up to offset `end` is a run of fetches. */
  lemma {:induction false} FetchesAreRun(top: Topology, s: State, id: nat, f: nat, end: nat) returns (steps: seq<Step>)
    requires Leading(top, s, id) && f in s.live && f in s.brokers && f != id && top.IsReplica(f)
    requires end <= |s.brokers[id].log| && end <= s.brokers[id].entry.highWatermark
    ensures SteadyRun(top, s, steps) && Quiet(steps) && OnlyAt(s, Continue(top, s, steps), f)
    ensures Continue(top, s, steps).brokers[f]
            == Broker(s.brokers[f].log + Beyond(s.brokers[id].log, |s.brokers[f].log|, end), s.brokers[f].entry)
    decreases end - |s.brokers[f].log|
  {
    var log, before := s.brokers[id].log, s.brokers[f].log;
    if |before| >= end {
      steps := [];
      assert before + Beyond(log, |before|, end) == before;
      assert s.brokers == s.brokers[f := s.brokers[f]];
    } else {
      var first := FetchIsRun(top, s, id, f);
      var s1 := Continue(top, s, first);
      StillLeading(top, s, s1, id, f);
      var rest := FetchesAreRun(top, s1, id, f, end);
      ContinueJoins(top, s, first, rest);
      OnlyAtTwice(s, s1, Continue(top, s1, rest), f);
      OneThenRest(log, before, end - 1);
      steps := first + rest;
    }
  }

  /** What `FollowerServer.RecoverPartition` does to a follower of any leader is a run of the durability model. */
  lemma RecoveryIsRun(top: Topology, s: State, id: nat, f: nat, low: nat) returns (steps: seq<Step>)
    requires Leading(top, s, id) && f in s.live && f in s.brokers && f != id && top.IsReplica(f)
    ensures SteadyRun(top, s, steps) && Quiet(steps) && OnlyAt(s, Continue(top, s, steps), f)
    ensures Continue(top, s, steps).brokers[f]
            == Broker(Recovered(s.brokers[f].log, s.brokers[id].log, low, s.brokers[id].entry.highWatermark), s.brokers[f].entry)
  {
    var log, committed := s.brokers[id].log, Smaller(s.brokers[id].entry.highWatermark, |s.brokers[id].log|);
    if |s.brokers[f].log| < low || low >= committed {
      steps := [];
      assert s.brokers == s.brokers[f := s.brokers[f]];
    } else {
      steps := FetchesAreRun(top, s, id, f, committed);
    }
  }

  /** So recovery continues any allowed run. */
  lemma RecoveryExtendsRun(top: Topology, before: seq<Step>, id: nat, f: nat, low: nat) returns (steps: seq<Step>)
    requires top.Valid() && AllowedRun(top, before) && Leading(top, Run(top, before), id)
    requires f in Run(top, before).live && f in Run(top, before).brokers && f != id && top.IsReplica(f)
    ensures AllowedRun(top, before + steps)
    ensures var s, s' := Run(top, before), Run(top, before + steps);
            && OnlyAt(s, s', f)
            && s'.brokers[f].log == Recovered(s.brokers[f].log, s.brokers[id].log, low, s.brokers[id].entry.highWatermark)
  {
    steps := RecoveryIsRun(top, Run(top, before), id, f, low);
    ExtendsRun(top, before, steps, true);
  }
}
