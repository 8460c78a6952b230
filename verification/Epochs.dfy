/**
 Every run of the durability model, within its premises or not, is a run of the election model, so what is proved of
 elections holds for it: one epoch has one leader, whatever is lost, late or promoted.
 */
module Epochs {
  import opened Wrappers
  import opened Cluster
  import opened Replica
  import D = Durability
  import E = Election

  /** The election model knows every registry entry of `s`, and everything that was sent in it. */
  ghost predicate Covers(top: Topology, s: D.State, t: E.State) {
    && s.brokers.Keys == t.registry.Keys
    && (forall b :: b in s.brokers ==> t.registry[b] == s.brokers[b].entry && s.brokers[b].entry.leader in top.nodes)
    && (forall m :: m in s.messages ==> Sent(m, t))
  }

  ghost predicate Sent(m: D.Message, t: E.State) {
    match m
    case Announce(e) => E.ApplyLeadership(e) in t.sent
    case Replicate(_, body) => E.ReplicateRecord(body.leader, body.epoch) in t.sent
    case _ => true
  }

  lemma {:induction false} RunJoins(top: Topology, t: E.State, a: seq<E.Step>, b: seq<E.Step>)
    requires top.Valid()
    ensures E.Run(top, t, a + b) == E.Run(top, E.Run(top, t, a), b)
    decreases |b|
  {
    if b == [] {
      assert a + b == a;
    } else {
      var init := b[..|b| - 1];
      assert (a + b)[..|a + b| - 1] == a + init;
      RunJoins(top, t, a, init);
    }
  }

  lemma OneStep(top: Topology, t: E.State, step: E.Step)
    requires top.Valid()
    ensures E.Run(top, t, [step]) == E.Next(top, t, step)
  {
    assert [step][..0] == [];
  }

  lemma TwoSteps(top: Topology, t: E.State, x: E.Step, y: E.Step)
    requires top.Valid()
    ensures E.Run(top, t, [x, y]) == E.Next(top, E.Next(top, t, x), y)
  {
    OneStep(top, t, x);
    assert [x, y][..1] == [x];
  }

  lemma ThreeSteps(top: Topology, t: E.State, x: E.Step, y: E.Step, z: E.Step)
    requires top.Valid()
    ensures E.Run(top, t, [x, y, z]) == E.Next(top, E.Next(top, E.Next(top, t, x), y), z)
  {
    TwoSteps(top, t, x, y);
    assert [x, y, z][..2] == [x, y];
  }

  // ---------------------------------------------------------------- registry writes

  /** A broker reads its registry. */
  lemma Reads(top: Topology, s: D.State, t: E.State, b: nat) returns (t': E.State, read: E.Snapshot)
    requires top.Valid() && Covers(top, s, t) && b in s.brokers
    ensures t' == E.Next(top, t, E.ReadRegistry(b)) && read == E.Snapshot(b, s.brokers[b].entry)
    ensures read in t'.views && Covers(top, s, t') && t'.registry == t.registry
  {
    t', read := E.Next(top, t, E.ReadRegistry(b)), E.Snapshot(b, t.registry[b]);
  }

  /** A registry write keeps the cover if the broker adopts the same entry. */
  lemma WriteCovers(top: Topology, s: D.State, t: E.State, b: nat, after: Broker, e: Entry, broadcast: bool)
    requires Covers(top, s, t) && b in s.brokers
    requires after.entry == match Adopt(top.nodes, Some(s.brokers[b].entry), e) case Success(x) => x case Failure(_) => s.brokers[b].entry
    ensures Covers(top, s.(brokers := s.brokers[b := after]), E.Write(top, t, b, e, broadcast))
    ensures broadcast && Adopt(top.nodes, Some(s.brokers[b].entry), e).Success? ==>
              E.ApplyLeadership(e) in E.Write(top, t, b, e, broadcast).sent
  {
  }

  /** A broker handles an announcement that was sent. */
  lemma Applies(top: Topology, s: D.State, t: E.State, b: nat, e: Entry) returns (steps: seq<E.Step>)
    requires top.Valid() && Covers(top, s, t) && b in s.brokers && E.ApplyLeadership(e) in t.sent
    ensures Covers(top, s.(brokers := s.brokers[b := HandleApply(top.nodes, s.brokers[b], e).broker]), E.Run(top, t, steps))
    ensures t.sent <= E.Run(top, t, steps).sent
  {
    steps := [E.ReceiveApply(b, e)];
    OneStep(top, t, E.ReceiveApply(b, e));
    WriteCovers(top, s, t, b, HandleApply(top.nodes, s.brokers[b], e).broker, e, false);
  }

  lemma MessageCovers(top: Topology, s: D.State, t: E.State, m: D.Message)
    requires Covers(top, s, t) && Sent(m, t)
    ensures Covers(top, s.(messages := s.messages + {m}), t)
  {
  }

  /** Logs, messages that are not about leadership, acknowledgements and crashes do not matter. */
  lemma SameEntriesCover(top: Topology, s: D.State, s': D.State, t: E.State)
    requires Covers(top, s, t) && s'.brokers.Keys == s.brokers.Keys
    requires forall b :: b in s.brokers ==> s'.brokers[b].entry == s.brokers[b].entry
    requires forall m :: m in s'.messages ==> m in s.messages || Sent(m, t)
    ensures Covers(top, s', t)
  {
  }

  // ---------------------------------------------------------------- the steps

  lemma SendSimulated(top: Topology, s: D.State, t: E.State, step: D.Step) returns (steps: seq<E.Step>)
    requires top.Valid() && Covers(top, s, t) && step.SendRecord?
    ensures Covers(top, D.Next(top, s, step), E.Run(top, t, steps))
  {
    var s' := D.Next(top, s, step);
    if s' == s {
      steps := [];
    } else {
      var e := s.brokers[step.broker].entry;
      var t1, read := Reads(top, s, t, step.broker);
      var t2 := E.Next(top, t1, E.SendReplicate(read));
      steps := [E.ReadRegistry(step.broker), E.SendReplicate(read)];
      TwoSteps(top, t, E.ReadRegistry(step.broker), E.SendReplicate(read));
      assert t2 == t1.(sent := t1.sent + {E.ReplicateRecord(e.leader, e.epoch)});
      MessageCovers(top, s, t2, D.Replicate(step.to, Replication(step.offset, step.record, e.leader, e.epoch)));
    }
  }

  lemma ReceiveSimulated(top: Topology, s: D.State, t: E.State, to: nat, body: Replication) returns (steps: seq<E.Step>)
    requires top.Valid() && Covers(top, s, t)
    ensures Covers(top, D.Next(top, s, D.ReceiveRecord(to, body)), E.Run(top, t, steps))
  {
    steps := [];
    if to in s.live && to in s.brokers && D.Replicate(to, body) in s.messages {
      assert Sent(D.Replicate(to, body), t);
      ReplicatedEntry(top.nodes, s.brokers[to], body);
      var stored := s.(brokers := s.brokers[to := HandleReplication(top.nodes, s.brokers[to], body).broker]);
      if body.epoch > s.brokers[to].entry.epoch {
        steps := FenceSimulated(top, s, t, to, body);
      } else {
        SameEntriesCover(top, s, stored, t);
      }
      AnsweredCovers(top, s, stored, to, body, E.Run(top, t, steps));
    }
  }

  /** The acknowledgement is no matter of leadership. */
  lemma AnsweredCovers(top: Topology, s: D.State, stored: D.State, to: nat, body: Replication, t: E.State)
    requires top.Valid() && to in s.live && to in s.brokers && D.Replicate(to, body) in s.messages
    requires stored == s.(brokers := s.brokers[to := HandleReplication(top.nodes, s.brokers[to], body).broker])
    requires Covers(top, stored, t)
    ensures Covers(top, D.Next(top, s, D.ReceiveRecord(to, body)), t)
  {
    SameEntriesCover(top, stored, D.Next(top, s, D.ReceiveRecord(to, body)), t);
  }

  lemma FenceSimulated(top: Topology, s: D.State, t: E.State, to: nat, body: Replication) returns (steps: seq<E.Step>)
    requires top.Valid() && Covers(top, s, t) && to in s.brokers && body.epoch > s.brokers[to].entry.epoch
    requires E.ReplicateRecord(body.leader, body.epoch) in t.sent
    ensures Covers(top, s.(brokers := s.brokers[to := HandleReplication(top.nodes, s.brokers[to], body).broker]),
                   E.Run(top, t, steps))
  {
    var h := HandleReplication(top.nodes, s.brokers[to], body);
    var t1, read := Reads(top, s, t, to);
    var receive := E.ReceiveReplicate(read, body.leader, body.epoch);
    var e := Entry(body.leader, body.epoch, s.brokers[to].entry.highWatermark);
    steps := [E.ReadRegistry(to), receive];
    TwoSteps(top, t, E.ReadRegistry(to), receive);
    AdoptsIff(top.nodes, Some(s.brokers[to].entry), e);
    ReplicatedEntry(top.nodes, s.brokers[to], body);
    WriteCovers(top, s, t1, to, h.broker, e, false);
  }

  lemma CommitSimulated(top: Topology, s: D.State, t: E.State, step: D.Step) returns (steps: seq<E.Step>)
    requires top.Valid() && Covers(top, s, t) && step.Commit?
    ensures Covers(top, D.Next(top, s, step), E.Run(top, t, steps))
  {
    var s' := D.Next(top, s, step);
    var b, o, c := step.broker, step.offset, top.Controller();
    steps := [];
    if s' != s && o + 1 > s.brokers[b].entry.highWatermark {
      steps := RaiseSimulated(top, s, t, step);
    }
  }

  lemma CommitTakesEffect(top: Topology, s: D.State, step: D.Step)
    requires top.Valid() && step.Commit? && D.Next(top, s, step) != s && step.broker in s.brokers
    ensures D.Next(top, s, step) == D.CommitAt(top, s, step.broker, step.offset, step.record, step.reached)
  {
  }

  lemma RaiseSimulated(top: Topology, s: D.State, t: E.State, step: D.Step) returns (steps: seq<E.Step>)
    requires top.Valid() && Covers(top, s, t) && step.Commit? && D.Next(top, s, step) != s
    requires step.broker in s.brokers && step.offset + 1 > s.brokers[step.broker].entry.highWatermark
    ensures Covers(top, D.Next(top, s, step), E.Run(top, t, steps))
  {
    var b, o, c := step.broker, step.offset, top.Controller();
    CommitTakesEffect(top, s, step);
    var led, e;
    steps, led, e := OwnRaise(top, s, t, b, o);
    var t2 := E.Run(top, t, steps);
    if step.reached && c in s.live && c in s.brokers && c != b {
      var more := Applies(top, led, t2, c, e);
      RunJoins(top, t, steps, more);
      steps := steps + more;
      CommittedCovers(top, s, led.(brokers := led.brokers[c := HandleApply(top.nodes, led.brokers[c], e).broker]), step, e,
                      E.Run(top, t, steps), t2);
    } else {
      CommittedCovers(top, s, led, step, e, t2, t2);
    }
  }

  /** The committing broker raises its own entry and announces it. */
  lemma OwnRaise(top: Topology, s: D.State, t: E.State, b: nat, o: nat) returns (steps: seq<E.Step>, led: D.State, e: Entry)
    requires top.Valid() && Covers(top, s, t) && b in s.brokers && o + 1 > s.brokers[b].entry.highWatermark
    ensures e == s.brokers[b].entry.(highWatermark := o + 1) && led == s.(brokers := s.brokers[b := s.brokers[b].(entry := e)])
    ensures Covers(top, led, E.Run(top, t, steps)) && E.ApplyLeadership(e) in E.Run(top, t, steps).sent
  {
    e := s.brokers[b].entry.(highWatermark := o + 1);
    led := s.(brokers := s.brokers[b := s.brokers[b].(entry := e)]);
    var t1, read := Reads(top, s, t, b);
    steps := [E.ReadRegistry(b), E.Commit(read, o + 1)];
    TwoSteps(top, t, E.ReadRegistry(b), E.Commit(read, o + 1));
    AdoptsIff(top.nodes, Some(s.brokers[b].entry), e);
    WriteCovers(top, s, t1, b, s.brokers[b].(entry := e), e, true);
  }

  lemma CommittedCovers(top: Topology, s: D.State, told: D.State, step: D.Step, e: Entry, t: E.State, announced: E.State)
    requires top.Valid() && step.Commit? && step.broker in s.brokers
    requires e == s.brokers[step.broker].entry.(highWatermark := step.offset + 1)
    requires step.offset + 1 > s.brokers[step.broker].entry.highWatermark
    requires told.messages == s.messages
    requires told.brokers == D.CommitAt(top, s, step.broker, step.offset, step.record, step.reached).brokers
    requires Covers(top, told, t) && E.ApplyLeadership(e) in announced.sent && announced.sent <= t.sent
    ensures Covers(top, D.CommitAt(top, s, step.broker, step.offset, step.record, step.reached), t)
  {
    SameEntriesCover(top, told, D.CommitAt(top, s, step.broker, step.offset, step.record, step.reached), t);
  }

  lemma SyncSimulated(top: Topology, s: D.State, t: E.State, b: nat) returns (steps: seq<E.Step>)
    requires top.Valid() && Covers(top, s, t)
    ensures Covers(top, D.Next(top, s, D.SyncMetadata(b)), E.Run(top, t, steps))
  {
    var s', c := D.Next(top, s, D.SyncMetadata(b)), top.Controller();
    steps := [];
    if s' != s {
      var theirs := s.brokers[c].entry;
      var t1 := E.Next(top, t, E.ReplyMetadata);
      assert t1 == t.(sent := t.sent + {E.TopicMetadata(theirs)}) && Covers(top, s, t1);
      var t2, read := Reads(top, s, t1, b);
      steps := [E.ReplyMetadata, E.ReadRegistry(b), E.SyncMetadata(read, theirs)];
      ThreeSteps(top, t, E.ReplyMetadata, E.ReadRegistry(b), E.SyncMetadata(read, theirs));
      WriteCovers(top, s, t2, b, s'.brokers[b], theirs, false);
    }
  }

  /** The controller and the first `k` nodes are as in `after`, the others as in `before`. */
  ghost predicate UpTo(nodes: seq<nat>, k: nat, c: nat, before: map<nat, Broker>, after: map<nat, Broker>, brokers: map<nat, Broker>)
    requires k <= |nodes|
  {
    && brokers.Keys == before.Keys == after.Keys
    && forall b :: b in brokers ==> brokers[b] == if b == c || b in nodes[..k] then after[b] else before[b]
  }

  /** The brokers in `hearing` other than the controller handle the announcement of `e`. */
  ghost predicate Told(nodes: seq<nat>, c: nat, e: Entry, hearing: set<nat>, before: map<nat, Broker>, after: map<nat, Broker>) {
    && before.Keys == after.Keys
    && forall b :: b in before && b != c ==>
         after[b] == if b in hearing then HandleApply(nodes, before[b], e).broker else before[b]
  }

  /** The broadcast reaches the first `k` nodes. */
  lemma {:induction false} TellSimulated(top: Topology, e: Entry, hearing: set<nat>, before: map<nat, Broker>,
                                         after: map<nat, Broker>, led: D.State, t: E.State, k: nat)
    returns (steps: seq<E.Step>, brokers: map<nat, Broker>)
    requires top.Valid() && 1 <= k <= |top.nodes| && before.Keys == (set b | b in top.nodes)
    requires Told(top.nodes, top.Controller(), e, hearing, before, after)
    requires Covers(top, led, t) && UpTo(top.nodes, 1, top.Controller(), before, after, led.brokers)
    requires E.ApplyLeadership(e) in t.sent
    ensures Covers(top, led.(brokers := brokers), E.Run(top, t, steps)) && t.sent <= E.Run(top, t, steps).sent
    ensures UpTo(top.nodes, k, top.Controller(), before, after, brokers)
  {
    if k == 1 {
      steps, brokers := [], led.brokers;
      assert led.(brokers := brokers) == led;
    } else {
      steps, brokers := TellSimulated(top, e, hearing, before, after, led, t, k - 1);
      var more;
      more, brokers := OneTold(top, e, hearing, before, after, led.(brokers := brokers), E.Run(top, t, steps), k - 1);
      RunJoins(top, t, steps, more);
      steps := steps + more;
    }
  }

  lemma OneTold(top: Topology, e: Entry, hearing: set<nat>, before: map<nat, Broker>, after: map<nat, Broker>, s: D.State,
                t: E.State, k: nat)
    returns (steps: seq<E.Step>, brokers: map<nat, Broker>)
    requires top.Valid() && 1 <= k < |top.nodes| && before.Keys == (set b | b in top.nodes)
    requires Told(top.nodes, top.Controller(), e, hearing, before, after)
    requires Covers(top, s, t) && UpTo(top.nodes, k, top.Controller(), before, after, s.brokers)
    requires E.ApplyLeadership(e) in t.sent
    ensures Covers(top, s.(brokers := brokers), E.Run(top, t, steps)) && t.sent <= E.Run(top, t, steps).sent
    ensures UpTo(top.nodes, k + 1, top.Controller(), before, after, brokers)
  {
    var b := top.nodes[k];
    NextTold(top.nodes, k, top.Controller(), before, after, s.brokers);
    if b in hearing {
      steps := Applies(top, s, t, b, e);
      brokers := s.brokers[b := HandleApply(top.nodes, s.brokers[b], e).broker];
    } else {
      steps, brokers := [], s.brokers;
      assert s.(brokers := brokers) == s;
    }
  }

  lemma NextTold(nodes: seq<nat>, k: nat, c: nat, before: map<nat, Broker>, after: map<nat, Broker>, brokers: map<nat, Broker>)
    requires 1 <= k < |nodes| && nodes[0] == c && (forall i, j :: 0 <= i < j < |nodes| ==> nodes[i] < nodes[j])
    requires nodes[k] in before && UpTo(nodes, k, c, before, after, brokers)
    ensures nodes[k] != c && brokers[nodes[k]] == before[nodes[k]]
    ensures UpTo(nodes, k + 1, c, before, after, brokers[nodes[k] := after[nodes[k]]])
    ensures before[nodes[k]] == after[nodes[k]] ==> UpTo(nodes, k + 1, c, before, after, brokers)
  {
    assert nodes[..k + 1] == nodes[..k] + [nodes[k]];
    assert nodes[k] !in nodes[..k];
  }

  lemma PromoteSimulated(top: Topology, s: D.State, t: E.State, step: D.Step) returns (steps: seq<E.Step>)
    requires top.Valid() && Covers(top, s, t) && step.Promote? && s.brokers.Keys == (set b | b in top.nodes)
    ensures Covers(top, D.Next(top, s, step), E.Run(top, t, steps))
  {
    steps := [];
    if D.MayPromote(top, s, step.candidate, step.answered) {
      steps := ElectedAndTold(top, s, t, step.candidate, step.answered, step.told);
    }
  }

  lemma ElectedAndTold(top: Topology, s: D.State, t: E.State, candidate: nat, answered: set<nat>, told: set<nat>)
    returns (steps: seq<E.Step>)
    requires top.Valid() && Covers(top, s, t) && s.brokers.Keys == (set b | b in top.nodes)
    requires D.MayPromote(top, s, candidate, answered)
    ensures Covers(top, D.Promoted(top, s, candidate, told), E.Run(top, t, steps))
  {
    var e, t1, led, elected := Elects(top, s, t, candidate, answered, told);
    D.PromotedState(top, s, candidate, told);
    var after := D.Promoted(top, s, candidate, told).brokers;
    TellsLive(top, s, candidate, told);
    var more, brokers := TellSimulated(top, e, s.live * told, s.brokers, after, led, t1, |top.nodes|);
    RunJoins(top, t, elected, more);
    steps := elected + more;
    AllTold(top.nodes, top.Controller(), s.brokers, after, brokers);
    PromotedCovers(top, led.(brokers := brokers), s, candidate, told, E.Run(top, t, steps));
  }

  lemma TellsLive(top: Topology, s: D.State, candidate: nat, told: set<nat>)
    requires top.Valid() && top.Controller() in s.brokers
    ensures Told(top.nodes, top.Controller(), D.PromotedEntry(top, s, candidate), s.live * told, s.brokers,
                 D.Promoted(top, s, candidate, told).brokers)
  {
    D.PromotedState(top, s, candidate, told);
  }

  lemma AllTold(nodes: seq<nat>, c: nat, before: map<nat, Broker>, after: map<nat, Broker>, brokers: map<nat, Broker>)
    requires before.Keys == (set b | b in nodes) && UpTo(nodes, |nodes|, c, before, after, brokers)
    ensures brokers == after
  {
    assert nodes[..|nodes|] == nodes;
  }

  lemma PromotedCovers(top: Topology, led: D.State, s: D.State, candidate: nat, told: set<nat>, t: E.State)
    requires top.Valid() && top.Controller() in s.brokers && Covers(top, led, t)
    requires led.brokers == D.Promoted(top, s, candidate, told).brokers && led.messages == s.messages
    requires E.ApplyLeadership(D.PromotedEntry(top, s, candidate)) in t.sent
    ensures Covers(top, D.Promoted(top, s, candidate, told), t)
  {
    SameEntriesCover(top, led, D.Promoted(top, s, candidate, told), t);
  }

  /** The controller's own part of a promotion. */
  lemma Elects(top: Topology, s: D.State, t: E.State, candidate: nat, answered: set<nat>, told: set<nat>)
    returns (e: Entry, t': E.State, led: D.State, steps: seq<E.Step>)
    requires top.Valid() && Covers(top, s, t) && D.MayPromote(top, s, candidate, answered)
    ensures t' == E.Run(top, t, steps) && Covers(top, led, t') && led.messages == s.messages
    ensures e == D.PromotedEntry(top, s, candidate) && E.ApplyLeadership(e) in t'.sent
    ensures UpTo(top.nodes, 1, top.Controller(), s.brokers, D.Promoted(top, s, candidate, told).brokers, led.brokers)
  {
    var c := top.Controller();
    e := D.PromotedEntry(top, s, candidate);
    var t1, read := Reads(top, s, t, c);
    steps := [E.ReadRegistry(c), E.Promote(read, candidate)];
    TwoSteps(top, t, E.ReadRegistry(c), E.Promote(read, candidate));
    t' := E.Run(top, t, steps);
    MayElect(top, s, candidate, answered);
    E.CurrentPromotionElects(top, t1, candidate);
    led := s.(brokers := s.brokers[c := D.AfterPromotion(top, s, e, told, c)]);
    ElectedCovers(top, s, t1, t', c, D.AfterPromotion(top, s, e, told, c), e);
    ControllerFirst(top, s, candidate, told);
  }

  lemma MayElect(top: Topology, s: D.State, candidate: nat, answered: set<nat>)
    requires top.Valid() && D.MayPromote(top, s, candidate, answered)
    ensures candidate in top.Replicas() && candidate in top.nodes
    ensures top.Controller() in s.brokers && s.brokers[top.Controller()].entry.epoch < U64_MAX
  {
    D.ReplicaIsNode(top, candidate);
  }

  lemma ElectedCovers(top: Topology, s: D.State, t: E.State, t': E.State, c: nat, after: Broker, e: Entry)
    requires Covers(top, s, t) && c in s.brokers && after.entry == e && e.leader in top.nodes
    requires t'.registry == t.registry[c := e] && t.sent <= t'.sent
    ensures Covers(top, s.(brokers := s.brokers[c := after]), t')
  {
  }

  lemma ControllerFirst(top: Topology, s: D.State, candidate: nat, told: set<nat>)
    requires top.Valid() && top.Controller() in s.brokers
    ensures var c := top.Controller();
            UpTo(top.nodes, 1, c, s.brokers, D.Promoted(top, s, candidate, told).brokers,
              s.brokers[c := D.AfterPromotion(top, s, D.PromotedEntry(top, s, candidate), told, c)])
  {
    D.PromotedState(top, s, candidate, told);
    assert top.nodes[..1] == [top.Controller()];
  }

  /** Every step of the durability model is some steps of the election model, whether its premises hold or not. */
  lemma StepSimulated(top: Topology, s: D.State, t: E.State, step: D.Step) returns (steps: seq<E.Step>)
    requires top.Valid() && Covers(top, s, t) && s.brokers.Keys == (set b | b in top.nodes)
    ensures Covers(top, D.Next(top, s, step), E.Run(top, t, steps))
  {
    match step
    case SendRecord(_, _, _, _) => steps := SendSimulated(top, s, t, step);
    case ReceiveRecord(to, body) => steps := ReceiveSimulated(top, s, t, to, body);
    case Commit(_, _, _, _, _) => steps := CommitSimulated(top, s, t, step);
    case ReceiveAnnouncement(b, e) => steps := AnnouncementSimulated(top, s, t, b, e);
    case SyncMetadata(b) => steps := SyncSimulated(top, s, t, b);
    case Promote(_, _, _) => steps := PromoteSimulated(top, s, t, step);
    case _ =>
      steps := [];
      OthersSimulated(top, s, t, step);
  }

  lemma OthersSimulated(top: Topology, s: D.State, t: E.State, step: D.Step)
    requires top.Valid() && Covers(top, s, t)
    requires step.Append? || step.ReadBack? || step.ServeFetch? || step.Recover? || step.Crash?
    ensures Covers(top, D.Next(top, s, step), t)
  {
    SameEntriesCover(top, s, D.Next(top, s, step), t);
  }

  lemma AnnouncementSimulated(top: Topology, s: D.State, t: E.State, b: nat, e: Entry) returns (steps: seq<E.Step>)
    requires top.Valid() && Covers(top, s, t)
    ensures Covers(top, D.Next(top, s, D.ReceiveAnnouncement(b, e)), E.Run(top, t, steps))
  {
    steps := [];
    if b in s.live && b in s.brokers && D.Announce(e) in s.messages {
      assert Sent(D.Announce(e), t);
      steps := Applies(top, s, t, b, e);
    }
  }

  lemma StepKeepsBrokers(top: Topology, s: D.State, step: D.Step)
    requires top.Valid()
    ensures D.Next(top, s, step).brokers.Keys == s.brokers.Keys
  {
  }

  // ---------------------------------------------------------------- runs

  /** Every broker starts with the entry that placement gives. */
  lemma {:induction false} InitSimulated(top: Topology, k: nat) returns (steps: seq<E.Step>)
    requires top.Valid() && k <= |top.nodes|
    ensures var t := E.Run(top, E.EMPTY, steps);
            t.registry.Keys == (set b | b in top.nodes[..k])
            && forall b :: b in t.registry ==> t.registry[b] == Entry(top.DeterministicLeader(), 0, 0)
  {
    if k == 0 {
      steps := [];
    } else {
      steps := InitSimulated(top, k - 1);
      var t, b := E.Run(top, E.EMPTY, steps), top.nodes[k - 1];
      RunJoins(top, E.EMPTY, steps, [E.EnsureTopic(b)]);
      OneStep(top, t, E.EnsureTopic(b));
      assert top.nodes[..k] == top.nodes[..k - 1] + [b];
      steps := steps + [E.EnsureTopic(b)];
    }
  }

  lemma {:induction false} RunSimulated(top: Topology, steps: seq<D.Step>) returns (elections: seq<E.Step>)
    requires top.Valid()
    ensures D.Run(top, steps).brokers.Keys == (set b | b in top.nodes)
    ensures Covers(top, D.Run(top, steps), E.Run(top, E.EMPTY, elections))
  {
    if steps == [] {
      elections := InitSimulated(top, |top.nodes|);
      assert top.nodes[..|top.nodes|] == top.nodes;
      top.ReplicaPlacement();
    } else {
      var init, last := steps[..|steps| - 1], steps[|steps| - 1];
      elections := RunSimulated(top, init);
      var more := StepSimulated(top, D.Run(top, init), E.Run(top, E.EMPTY, elections), last);
      StepKeepsBrokers(top, D.Run(top, init), last);
      RunJoins(top, E.EMPTY, elections, more);
      elections := elections + more;
    }
  }

  /**
   In every run of the durability model, also outside all of its premises, any two brokers that are in one epoch name one
   leader for it, and no broker is ahead of the controller.
   */
  lemma OneLeaderInEveryRun(top: Topology, steps: seq<D.Step>)
    requires top.Valid()
    ensures var s := D.Run(top, steps);
            && top.Controller() in s.brokers
            && (forall b, b' :: b in s.brokers && b' in s.brokers && s.brokers[b].entry.epoch == s.brokers[b'].entry.epoch ==>
                  s.brokers[b].entry.leader == s.brokers[b'].entry.leader)
            && (forall b :: b in s.brokers ==> s.brokers[b].entry.epoch <= s.brokers[top.Controller()].entry.epoch)
  {
    var elections := RunSimulated(top, steps);
    var s, t := D.Run(top, steps), E.Run(top, E.EMPTY, elections);
    E.ElectionSafety(top, elections);
    forall b, b' | b in s.brokers && b' in s.brokers && s.brokers[b].entry.epoch == s.brokers[b'].entry.epoch
      ensures s.brokers[b].entry.leader == s.brokers[b'].entry.leader
    {
      EntryIsClaimed(top, s, t, b);
      EntryIsClaimed(top, s, t, b');
    }
    forall b | b in s.brokers
      ensures s.brokers[b].entry.epoch <= E.ControllerEpoch(top, t)
    {
      EntryIsClaimed(top, s, t, b);
    }
    ControllerIsNode(top);
  }

  lemma ControllerIsNode(top: Topology)
    requires top.Valid()
    ensures top.Controller() in top.nodes
  {
  }

  lemma EntryIsClaimed(top: Topology, s: D.State, t: E.State, b: nat)
    requires Covers(top, s, t) && b in s.brokers
    ensures E.Claims(t, s.brokers[b].entry.leader, s.brokers[b].entry.epoch)
  {
    assert t.registry[b] == s.brokers[b].entry;
  }
}
