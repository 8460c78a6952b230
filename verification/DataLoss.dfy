/**
 Every premise of durability is needed: without it there is a run, with all the other premises kept, in which an acknowledged
 record is lost.
 */
module DataLoss {
  import opened Wrappers
  import opened Cluster
  import opened Replica
  import opened Durability

  /** What `Allowed` assumes beyond the code. */
  datatype Premise =
    | AppendsAsLeader
    | SendsAsLeader
    | CommitsInEpoch
    | CommitIsAnnounced
    | BroadcastReaches
    | ControllerCuts

  /** All premises but `p`. */
  predicate AllowedWithout(top: Topology, p: Premise, s: State, step: Step)
    requires top.Valid()
  {
    match step
    case Append(b, _) => p == AppendsAsLeader || Leads(s, b)
    case SendRecord(b, _, o, r) => p == SendsAsLeader || TakenAsLeader(s, b, o, r)
    case Commit(b, o, r, ackers, reached) =>
      && (p == CommitsInEpoch || InEpoch(top, s, b, o, r, ackers))
      && (p == CommitIsAnnounced || reached || top.Controller() !in s.live)
    case Promote(candidate, _, told) =>
      && (p == BroadcastReaches || s.live <= told)
      && (p == ControllerCuts || ControllerHasNoTail(top, s, candidate))
    case _ => true
  }

  /** Together the premises are what the durability theorems assume. */
  lemma PremisesAreAllowed(top: Topology, s: State, step: Step)
    requires top.Valid()
    ensures Allowed(top, s, step) <==> forall p :: AllowedWithout(top, p, s, step)
  {
    if forall p :: AllowedWithout(top, p, s, step) {
      assert AllowedWithout(top, ControllerCuts, s, step) && AllowedWithout(top, CommitIsAnnounced, s, step);
      assert AllowedWithout(top, CommitsInEpoch, s, step) && AllowedWithout(top, BroadcastReaches, s, step);
    }
  }

  ghost predicate RunWithout(top: Topology, p: Premise, steps: seq<Step>)
    requires top.Valid()
  {
    steps != [] ==>
      && RunWithout(top, p, steps[..|steps| - 1])
      && AllowedWithout(top, p, Run(top, steps[..|steps| - 1]), steps[|steps| - 1])
  }

  /**
   A run that keeps all premises but `p`: record `acked` was acknowledged in it, and the leader at its end does not have
   that record.
   */
  ghost predicate LosesAcked(top: Topology, p: Premise, steps: seq<Step>, acked: (nat, Payload))
    requires top.Valid()
  {
    RunWithout(top, p, steps) && Lost(Run(top, steps), acked)
  }

  ghost predicate Lost(s: State, acked: (nat, Payload)) {
    && acked in s.acked
    && Leads(s, s.latest.leader)
    && !(acked.0 < |LeaderLog(s)| && LeaderLog(s)[acked.0] == acked.1)
  }

  /** A step from `s` to `s'` that keeps all premises but `p`. */
  ghost predicate Takes(top: Topology, p: Premise, s: State, step: Step, s': State)
    requires top.Valid()
  {
    Next(top, s, step) == s' && AllowedWithout(top, p, s, step)
  }

  ghost predicate Path(top: Topology, p: Premise, states: seq<State>, steps: seq<Step>)
    requires top.Valid()
  {
    |states| == |steps| + 1 && forall i :: 0 <= i < |steps| ==> Takes(top, p, states[i], steps[i], states[i + 1])
  }

  ghost predicate Trace(top: Topology, p: Premise, states: seq<State>, steps: seq<Step>)
    requires top.Valid()
  {
    Path(top, p, states, steps) && states[0] == Init(top)
  }

  lemma {:induction false} TraceIsRun(top: Topology, p: Premise, states: seq<State>, steps: seq<Step>)
    requires top.Valid() && Trace(top, p, states, steps)
    ensures Run(top, steps) == states[|steps|] && RunWithout(top, p, steps)
  {
    if steps != [] {
      var n := |steps| - 1;
      TraceIsRun(top, p, states[..n + 1], steps[..n]);
      assert Takes(top, p, states[n], steps[n], states[n + 1]);
    }
  }

  /** A trace and a path that goes on from its end make a trace. */
  lemma TraceJoins(top: Topology, p: Premise, states: seq<State>, steps: seq<Step>, more: seq<State>, rest: seq<Step>)
    requires top.Valid() && Trace(top, p, states, steps) && Path(top, p, more, rest) && more[0] == states[|steps|]
    ensures Trace(top, p, states + more[1..], steps + rest) && (states + more[1..])[|steps + rest|] == more[|rest|]
  {
    var all, both := states + more[1..], steps + rest;
    forall i | 0 <= i < |both|
      ensures Takes(top, p, all[i], both[i], all[i + 1])
    {
      if i >= |steps| {
        assert all[i] == more[i - |steps|] && all[i + 1] == more[i - |steps| + 1];
      }
    }
  }

  /** Two more steps of a trace, after which a record is lost. */
  lemma TraceEnds(top: Topology, p: Premise, states: seq<State>, steps: seq<Step>, x: Step, s1: State, y: Step, s2: State,
                  acked: (nat, Payload))
    requires top.Valid() && Trace(top, p, states, steps)
    requires Takes(top, p, states[|steps|], x, s1) && Takes(top, p, s1, y, s2) && Lost(s2, acked)
    ensures LosesAcked(top, p, steps + [x, y], acked)
  {
    var more, rest := [states[|steps|], s1, s2], [x, y];
    TraceJoins(top, p, states, steps, more, rest);
    TraceIsRun(top, p, states + more[1..], steps + rest);
  }

  lemma ThreeSteps(top: Topology, p: Premise, s0: State, s1: State, s2: State, s3: State, x: Step, y: Step, z: Step)
    returns (steps: seq<Step>, states: seq<State>)
    requires top.Valid() && Takes(top, p, s0, x, s1) && Takes(top, p, s1, y, s2) && Takes(top, p, s2, z, s3)
    ensures |steps| == 3 && states == [s0, s1, s2, s3] && Path(top, p, states, steps)
  {
    steps, states := [x, y, z], [s0, s1, s2, s3];
  }

  const ALL: set<nat> := {1, 2, 3}

  /** Three brokers, replicated on all of them, with a quorum of two. */
  function Three(partition: nat): Topology {
    Topology([1, 2, 3], partition, 3, 2)
  }

  function Trio(b1: Broker, b2: Broker, b3: Broker): map<nat, Broker> {
    map[1 := b1, 2 := b2, 3 := b3]
  }

  ghost predicate ThreeBrokers(top: Topology) {
    && top.Valid() && top.nodes == [1, 2, 3] && top.minInSync == 2
    && (forall b :: b in ALL ==> top.IsReplica(b))
    && (forall x, f :: x in ALL && f in ALL && x != f ==> f in top.Followers(x))
  }

  predicate Up(s: State) {
    s.live == ALL && s.brokers.Keys == ALL
  }

  lemma ThreeFacts(partition: nat)
    requires partition <= 1
    ensures ThreeBrokers(Three(partition)) && Three(partition).DeterministicLeader() == partition + 1
  {
    ThreePlaces(partition);
    var top := Three(partition);
    top.ReplicaPlacement();
    forall x, f | x in ALL && f in ALL && x != f
      ensures f in top.Followers(x)
    {
      assert top.IsReplica(f);
      top.FollowersAreOtherReplicas(x);
    }
  }

  lemma ThreePlaces(partition: nat)
    requires partition <= 1
    ensures Three(partition).Valid() && Three(partition).DeterministicLeader() == partition + 1
    ensures forall b :: Three(partition).IsReplica(b) <==> b in ALL
  {
    var top := Three(partition);
    assert top.Replica(0) == partition + 1;
    assert top.Replica(1) == partition + 2;
    assert top.Replica(2) == if partition == 0 then 3 else 1;
  }

  /** All brokers empty in epoch 0, under the broker that placement prefers. */
  function Fresh(leader: nat): State {
    var e := Entry(leader, 0, 0);
    State(ALL, Trio(Broker([], e), Broker([], e), Broker([], e)), {}, e, {})
  }

  lemma ThreeInit(partition: nat)
    requires partition <= 1
    ensures ThreeBrokers(Three(partition)) && Init(Three(partition)) == Fresh(partition + 1)
  {
    ThreeFacts(partition);
  }

  // ---------------------------------------------------------------- what happens in the runs

  /** A broker with an empty log appends. */
  lemma FirstAppend(top: Topology, p: Premise, s: State, b: nat, r: Payload)
    requires top.Valid() && Up(s) && b in ALL && (p == AppendsAsLeader || Leads(s, b)) && s.brokers[b].log == []
    ensures Takes(top, p, s, Append(b, r), WithFirst(s, b, r))
  {
    assert s.brokers[b].log + [r] == [r];
    SameBrokers(s.brokers[b := Broker([r], s.brokers[b].entry)], WithFirst(s, b, r).brokers);
  }

  function WithFirst(s: State, b: nat, r: Payload): State
    requires Up(s)
  {
    s.(brokers := Trio(if b == 1 then Broker([r], s.brokers[1].entry) else s.brokers[1],
                       if b == 2 then Broker([r], s.brokers[2].entry) else s.brokers[2],
                       if b == 3 then Broker([r], s.brokers[3].entry) else s.brokers[3]))
  }

  function Sent(s: State, x: nat, r: Payload): Replication
    requires x in s.brokers
  {
    Replication(0, r, s.brokers[x].entry.leader, s.brokers[x].entry.epoch)
  }

  /** Broker `x`, which leads, takes its first record and sends it to `f`, which stores and acknowledges it. */
  lemma Replicated(top: Topology, p: Premise, s: State, x: nat, f: nat, r: Payload)
    returns (steps: seq<Step>, states: seq<State>)
    requires ThreeBrokers(top) && Up(s) && x in ALL && f in ALL && x != f
    requires Leads(s, x) && s.brokers[x].log == [r] && s.brokers[f] == Broker([], s.brokers[x].entry)
    ensures Path(top, p, states, steps) && |steps| == 3 && states[0] == s
    ensures var e := s.brokers[x].entry;
            states[3] == s.(brokers := s.brokers[f := Broker([r], e)],
                            messages := s.messages + {Pending(x, e.epoch, 0, r)} + {Replicate(f, Sent(s, x, r))}
                                        + {Acknowledge(f, e.epoch, 1)})
  {
    var e := s.brokers[x].entry;
    var s1 := s.(messages := s.messages + {Pending(x, e.epoch, 0, r)});
    var s2 := s1.(messages := s1.messages + {Replicate(f, Sent(s, x, r))});
    var s3 := s2.(brokers := s.brokers[f := Broker([r], e)], messages := s2.messages + {Acknowledge(f, e.epoch, 1)});
    assert Takes(top, p, s, ReadBack(x, 0), s1);
    assert Takes(top, p, s1, SendRecord(x, f, 0, r), s2);
    Stored(top, p, s2, f, Sent(s, x, r));
    steps, states := ThreeSteps(top, p, s, s1, s2, s3, ReadBack(x, 0), SendRecord(x, f, 0, r),
                                ReceiveRecord(f, Sent(s, x, r)));
  }

  /** An empty follower of the epoch stores a first record. */
  lemma Stored(top: Topology, p: Premise, s: State, f: nat, m: Replication)
    requires top.Valid() && Up(s) && f in ALL && Replicate(f, m) in s.messages && m.offset == 0
    requires s.brokers[f].log == [] && s.brokers[f].entry.epoch == m.epoch && s.brokers[f].entry.leader == m.leader
    ensures Takes(top, p, s, ReceiveRecord(f, m),
              s.(brokers := s.brokers[f := Broker([m.record], s.brokers[f].entry)],
                 messages := s.messages + {Acknowledge(f, m.epoch, 1)}))
  {
    assert HandleReplication(top.nodes, s.brokers[f], m)
        == Handled(Broker([m.record], s.brokers[f].entry), Success(1));
  }

  /** Broker `x` commits its first record in its epoch; if that is announced, a controller in the epoch learns of it. */
  lemma Commits(top: Topology, p: Premise, s: State, x: nat, f: nat, r: Payload, reached: bool) returns (s': State)
    requires ThreeBrokers(top) && Up(s) && x in ALL && f in ALL && x != f && (reached || p == CommitIsAnnounced)
    requires Leads(s, x) && s.brokers[x].entry.highWatermark == 0 && s.latest == s.brokers[x].entry == s.brokers[1].entry
    requires Pending(x, s.latest.epoch, 0, r) in s.messages && Acknowledge(f, s.latest.epoch, 1) in s.messages
    ensures Takes(top, p, s, Commit(x, 0, r, {f}, reached), s') && Up(s')
    ensures var e := s.latest.(highWatermark := 1);
            && s'.latest == e && s'.acked == s.acked + {(0, r)} && s'.brokers[x] == Broker(s.brokers[x].log, e)
            && (x != 1 ==> s'.brokers[1] == Broker(s.brokers[1].log, if reached then e else s.latest))
            && (forall b :: b in ALL && b != x && b != 1 ==> s'.brokers[b] == s.brokers[b])
  {
    s' := CommitAt(top, s, x, 0, r, reached);
    assert Acknowledged(s, f, s.latest.epoch, 0);
    assert InEpoch(top, s, x, 0, r, {f});
    assert Taken(s, x, 0, r) && Counted(top, s, x, 0, {f});
    CommitTells(top, s, x, r, reached);
  }

  lemma CommitTells(top: Topology, s: State, x: nat, r: Payload, reached: bool)
    requires ThreeBrokers(top) && Up(s) && x in ALL
    requires s.latest == s.brokers[x].entry == s.brokers[1].entry && s.latest.highWatermark == 0 && s.latest.leader == x
    ensures var s', e := CommitAt(top, s, x, 0, r, reached), s.latest.(highWatermark := 1);
            && Up(s') && s'.latest == e && s'.acked == s.acked + {(0, r)} && s'.brokers[x] == Broker(s.brokers[x].log, e)
            && (x != 1 ==> s'.brokers[1] == Broker(s.brokers[1].log, if reached then e else s.latest))
            && (forall b :: b in ALL && b != x && b != 1 ==> s'.brokers[b] == s.brokers[b])
  {
    var e := s.latest.(highWatermark := 1);
    assert HandleApply(top.nodes, s.brokers[1], e) == Handled(Broker(s.brokers[1].log, e), Success(e));
  }

  /** A promotion that the controller accepts, and what it leaves of the brokers that it reaches. */
  lemma Promotes(top: Topology, p: Premise, s: State, candidate: nat, other: nat, told: set<nat>) returns (s': State)
    requires ThreeBrokers(top) && Up(s) && candidate in ALL && other in ALL && other != candidate
    requires var known := s.brokers[1].entry;
             known.epoch < U64_MAX && known.highWatermark <= |s.brokers[candidate].log|
             && s.brokers[2].entry.epoch <= known.epoch && s.brokers[3].entry.epoch <= known.epoch
    requires p == BroadcastReaches || told == ALL
    requires p == ControllerCuts || ControllerHasNoTail(top, s, candidate)
    ensures Takes(top, p, s, Promote(candidate, {candidate, other}, told), s')
    ensures var known := s.brokers[1].entry;
            s' == NewEpoch(s, Entry(candidate, known.epoch + 1, known.highWatermark), told)
  {
    s' := Promoted(top, s, candidate, told);
    MayBePromoted(top, s, candidate, other);
    PromoteTakes(top, p, s, candidate, {candidate, other}, told);
    PromotedBrokers(top, s, candidate, told);
  }

  /** What the promotion to `e` leaves. */
  function NewEpoch(s: State, e: Entry, told: set<nat>): State
    requires Up(s)
  {
    s.(brokers := Trio(Broker(if e.leader == 1 then Truncated(s.brokers[1].log, e.highWatermark) else s.brokers[1].log, e),
                       Hearing(s.brokers[2], e, 2 in told), Hearing(s.brokers[3], e, 3 in told)),
       messages := s.messages + {Announce(e)}, latest := e)
  }

  lemma PromoteTakes(top: Topology, p: Premise, s: State, candidate: nat, answered: set<nat>, told: set<nat>)
    requires top.Valid() && MayPromote(top, s, candidate, answered)
    requires p == BroadcastReaches || s.live <= told
    requires p == ControllerCuts || ControllerHasNoTail(top, s, candidate)
    ensures Takes(top, p, s, Promote(candidate, answered, told), Promoted(top, s, candidate, told))
  {
  }

  lemma PromotedBrokers(top: Topology, s: State, candidate: nat, told: set<nat>)
    requires ThreeBrokers(top) && Up(s) && candidate in ALL
    requires s.brokers[2].entry.epoch <= s.brokers[1].entry.epoch && s.brokers[3].entry.epoch <= s.brokers[1].entry.epoch
    ensures Promoted(top, s, candidate, told) == NewEpoch(s, PromotedEntry(top, s, candidate), told)
  {
    var e, s' := PromotedEntry(top, s, candidate), Promoted(top, s, candidate, told);
    forall b | b in ALL
      ensures AfterPromotion(top, s, e, told, b) == NewEpoch(s, e, told).brokers[b]
    {
      AfterOne(top, s, e, told, b);
    }
    PromotedState(top, s, candidate, told);
    SameBrokers(s'.brokers, NewEpoch(s, e, told).brokers);
  }

  lemma SameBrokers(x: map<nat, Broker>, y: map<nat, Broker>)
    requires x.Keys == y.Keys && forall b :: b in x ==> x[b] == y[b]
    ensures x == y
  {
  }

  lemma AfterOne(top: Topology, s: State, e: Entry, told: set<nat>, b: nat)
    requires ThreeBrokers(top) && Up(s) && b in ALL && e.leader in ALL
    requires s.brokers[2].entry.epoch < e.epoch && s.brokers[3].entry.epoch < e.epoch
    ensures AfterPromotion(top, s, e, told, b) == NewEpoch(s, e, told).brokers[b]
  {
    if b != 1 {
      HearingIsHandled(top, s.brokers[b], e);
    }
  }

  lemma MayBePromoted(top: Topology, s: State, candidate: nat, other: nat)
    requires ThreeBrokers(top) && Up(s) && candidate in ALL && other in ALL && other != candidate
    requires s.brokers[1].entry.epoch < U64_MAX && s.brokers[1].entry.highWatermark <= |s.brokers[candidate].log|
    ensures MayPromote(top, s, candidate, {candidate, other})
  {
    assert |{candidate, other}| == 2;
  }

  /** A broker that hears of a newer epoch. */
  function Hearing(b: Broker, e: Entry, told: bool): Broker {
    if told then Broker(Truncated(b.log, e.highWatermark), e) else b
  }

  lemma HearingIsHandled(top: Topology, b: Broker, e: Entry)
    requires e.leader in top.nodes && b.entry.epoch < e.epoch
    ensures HandleApply(top.nodes, b, e).broker == Hearing(b, e, true)
  {
  }

  /**
   A commit of `r` by `x`, and then a promotion of a broker that has another record at its offset or, as far as the controller
   knows, needs none.
   */
  lemma LossAfterCommit(top: Topology, p: Premise, states: seq<State>, first: seq<Step>, s: State, x: nat, f: nat, r: Payload,
                        reached: bool, candidate: nat, other: nat) returns (steps: seq<Step>)
    requires ThreeBrokers(top) && Trace(top, p, states, first) && states[|first|] == s && Up(s)
    requires x in ALL && f in ALL && x != f && (reached || p == CommitIsAnnounced)
    requires Leads(s, x) && s.latest == s.brokers[x].entry == s.brokers[1].entry
    requires s.latest.highWatermark == 0 && s.latest.epoch < U64_MAX
    requires Pending(x, s.latest.epoch, 0, r) in s.messages && Acknowledge(f, s.latest.epoch, 1) in s.messages
    requires s.brokers[2].entry.epoch <= s.latest.epoch && s.brokers[3].entry.epoch <= s.latest.epoch
    requires candidate in ALL && other in ALL && other != candidate && candidate != x
    requires var known := if x == 1 || reached then 1 else 0;
             && |s.brokers[candidate].log| == known && (known == 1 ==> s.brokers[candidate].log[0] != r)
             && (p == ControllerCuts || candidate == 1 || |s.brokers[1].log| <= known)
    ensures LosesAcked(top, p, steps, (0, r))
  {
    var s1 := Commits(top, p, s, x, f, r, reached);
    var s2 := PromotionLoses(top, p, s1, r, candidate, other);
    TraceEnds(top, p, states, first, Commit(x, 0, r, {f}, reached), s1, Promote(candidate, {candidate, other}, ALL), s2, (0, r));
    steps := first + [Commit(x, 0, r, {f}, reached), Promote(candidate, {candidate, other}, ALL)];
  }

  lemma PromotionLoses(top: Topology, p: Premise, s: State, r: Payload, candidate: nat, other: nat) returns (s': State)
    requires ThreeBrokers(top) && Up(s) && (0, r) in s.acked && candidate in ALL && other in ALL && other != candidate
    requires s.brokers[2].entry.epoch <= s.brokers[1].entry.epoch && s.brokers[3].entry.epoch <= s.brokers[1].entry.epoch
    requires var known := s.brokers[1].entry;
             && known.epoch < U64_MAX && known.highWatermark <= 1 && |s.brokers[candidate].log| == known.highWatermark
             && (known.highWatermark == 1 ==> s.brokers[candidate].log[0] != r)
             && (p == ControllerCuts || candidate == 1 || |s.brokers[1].log| <= known.highWatermark)
    ensures Takes(top, p, s, Promote(candidate, {candidate, other}, ALL), s') && Lost(s', (0, r))
  {
    s' := Promotes(top, p, s, candidate, other, ALL);
    assert s'.brokers[candidate].log == s.brokers[candidate].log;
  }

  // ---------------------------------------------------------------- the runs

  /**
   Broker 1 is controller and first leader. It appends `a` and is demoted without cutting that tail, broker 2 commits
   `b` at the same offset with broker 3, and a promotion back to broker 1 accepts its log by length alone.
   */
  lemma ControllerTailLosesRecord(a: Payload, b: Payload) returns (steps: seq<Step>)
    requires a != b
    ensures Three(0).Valid() && LosesAcked(Three(0), ControllerCuts, steps, (0, b))
  {
    ThreeInit(0);
    steps := ControllerTailRun(Three(0), a, b);
  }

  lemma ControllerTailRun(top: Topology, a: Payload, b: Payload) returns (steps: seq<Step>)
    requires ThreeBrokers(top) && Init(top) == Fresh(1)
    requires a != b
    ensures LosesAcked(top, ControllerCuts, steps, (0, b))
  {
    var p := ControllerCuts;
    var begin, first, s := Demoted(top, a, b);
    var rest, more := Replicated(top, p, s, 2, 3, b);
    TraceJoins(top, p, begin, first, more, rest);
    steps := LossAfterCommit(top, p, begin + more[1..], first + rest, more[3], 2, 3, b, true, 1, 3);
  }

  lemma Demoted(top: Topology, a: Payload, b: Payload) returns (states: seq<State>, steps: seq<Step>, s: State)
    requires ThreeBrokers(top) && Init(top) == Fresh(1)
    ensures Trace(top, ControllerCuts, states, steps) && s == states[|steps|]
    ensures var e := Entry(2, 1, 0);
            s == State(ALL, Trio(Broker([a], e), Broker([b], e), Broker([], e)), {Announce(e)}, e, {})
  {
    var p, e0, e := ControllerCuts, Entry(1, 0, 0), Entry(2, 1, 0);
    var s0, s1 := Fresh(1), State(ALL, Trio(Broker([a], e0), Broker([], e0), Broker([], e0)), {}, e0, {});
    FirstAppend(top, p, s0, 1, a);
    var s2 := Promotes(top, p, s1, 2, 1, ALL);
    FirstAppend(top, p, s2, 2, b);
    s := State(ALL, Trio(Broker([a], e), Broker([b], e), Broker([], e)), {Announce(e)}, e, {});
    assert {Announce(e)} == {} + {Announce(e)};
    steps, states := ThreeSteps(top, p, s0, s1, s2, s, Append(1, a), Promote(2, {2, 1}, ALL), Append(2, b));
  }

  /** Broker 2 leads and appends `a`. */
  function Begun(a: Payload): State {
    var e := Entry(2, 0, 0);
    State(ALL, Trio(Broker([], e), Broker([a], e), Broker([], e)), {}, e, {})
  }

  lemma Begins(top: Topology, p: Premise, a: Payload)
    requires ThreeBrokers(top) && Init(top) == Fresh(2)
    ensures Takes(top, p, Fresh(2), Append(2, a), Begun(a)) && Trace(top, p, [Fresh(2), Begun(a)], [Append(2, a)])
  {
    FirstAppend(top, p, Fresh(2), 2, a);
  }

  /** Broker 2 leads, and its record is acknowledged by broker 3. */
  lemma BegunAndReplicated(top: Topology, p: Premise, a: Payload)
    returns (states: seq<State>, steps: seq<Step>, s: State)
    requires ThreeBrokers(top) && Init(top) == Fresh(2)
    ensures Trace(top, p, states, steps) && s == states[|steps|]
    ensures var e := Entry(2, 0, 0);
            && s == State(ALL, Trio(Broker([], e), Broker([a], e), Broker([a], e)), s.messages, e, {})
            && Pending(2, 0, 0, a) in s.messages && Acknowledge(3, 0, 1) in s.messages
  {
    Begins(top, p, a);
    var rest, more := Replicated(top, p, Begun(a), 2, 3, a);
    TraceJoins(top, p, [Fresh(2), Begun(a)], [Append(2, a)], more, rest);
    states, steps, s := [Fresh(2), Begun(a)] + more[1..], [Append(2, a)] + rest, more[3];
    assert s.brokers == Trio(Broker([], Entry(2, 0, 0)), Broker([a], Entry(2, 0, 0)), Broker([a], Entry(2, 0, 0)));
  }

  /**
   Broker 2 leads and commits `b` with broker 3, but the announcement does not reach the controller, whose next
   promotion still trusts high watermark 0 and picks itself, with an empty log.
   */
  lemma LostAnnouncementLosesRecord(b: Payload) returns (steps: seq<Step>)
    ensures Three(1).Valid() && LosesAcked(Three(1), CommitIsAnnounced, steps, (0, b))
  {
    ThreeInit(1);
    steps := LostAnnouncementRun(Three(1), b);
  }

  lemma LostAnnouncementRun(top: Topology, b: Payload) returns (steps: seq<Step>)
    requires ThreeBrokers(top) && Init(top) == Fresh(2)
    ensures LosesAcked(top, CommitIsAnnounced, steps, (0, b))
  {
    var p := CommitIsAnnounced;
    var states, first, s := BegunAndReplicated(top, p, b);
    steps := LossAfterCommit(top, p, states, first, s, 2, 3, b, false, 1, 3);
  }

  /**
   Broker 2, the first leader, appends `a` and is cut off. The broadcast of broker 1's promotion misses it, so it keeps
   that tail; broker 1 commits `b` at the same offset with broker 3, and a promotion of broker 2 accepts its log by length.
   */
  lemma MissedBrokerLosesRecord(a: Payload, b: Payload) returns (steps: seq<Step>)
    requires a != b
    ensures Three(1).Valid() && LosesAcked(Three(1), BroadcastReaches, steps, (0, b))
  {
    ThreeInit(1);
    steps := MissedBrokerRun(Three(1), a, b);
  }

  lemma MissedBrokerRun(top: Topology, a: Payload, b: Payload) returns (steps: seq<Step>)
    requires ThreeBrokers(top) && Init(top) == Fresh(2)
    requires a != b
    ensures LosesAcked(top, BroadcastReaches, steps, (0, b))
  {
    var p := BroadcastReaches;
    var begin, first, s := Missed(top, a, b);
    var rest, more := Replicated(top, p, s, 1, 3, b);
    TraceJoins(top, p, begin, first, more, rest);
    steps := LossAfterCommit(top, p, begin + more[1..], first + rest, more[3], 1, 3, b, true, 2, 1);
  }

  /** Broker 1 leads epoch 1 with `b`, broker 2 still has `a` in epoch 0. */
  lemma Missed(top: Topology, a: Payload, b: Payload) returns (states: seq<State>, steps: seq<Step>, s: State)
    requires ThreeBrokers(top) && Init(top) == Fresh(2)
    ensures Trace(top, BroadcastReaches, states, steps) && s == states[|steps|]
    ensures var e := Entry(1, 1, 0);
            s == State(ALL, Trio(Broker([b], e), Broker([a], Entry(2, 0, 0)), Broker([], e)), {Announce(e)}, e, {})
  {
    var p, e := BroadcastReaches, Entry(1, 1, 0);
    Begins(top, p, a);
    var s2 := Promotes(top, p, Begun(a), 1, 3, {1, 3});
    FirstAppend(top, p, s2, 1, b);
    s := State(ALL, Trio(Broker([b], e), Broker([a], Entry(2, 0, 0)), Broker([], e)), {Announce(e)}, e, {});
    assert {Announce(e)} == {} + {Announce(e)};
    steps, states := ThreeSteps(top, p, Fresh(2), Begun(a), s2, s, Append(2, a), Promote(1, {1, 3}, {1, 3}), Append(1, b));
  }

  /**
   Broker 2, the first leader, has checked a request to append `a` when broker 1 is promoted; it appends `a` after that.
   Broker 1 commits `b` at the same offset with broker 3, and a promotion of broker 2 accepts its log by length.
   */
  lemma LateAppendLosesRecord(a: Payload, b: Payload) returns (steps: seq<Step>)
    requires a != b
    ensures Three(1).Valid() && LosesAcked(Three(1), AppendsAsLeader, steps, (0, b))
  {
    ThreeInit(1);
    steps := LateAppendRun(Three(1), a, b);
  }

  lemma LateAppendRun(top: Topology, a: Payload, b: Payload) returns (steps: seq<Step>)
    requires ThreeBrokers(top) && Init(top) == Fresh(2)
    requires a != b
    ensures LosesAcked(top, AppendsAsLeader, steps, (0, b))
  {
    var p := AppendsAsLeader;
    var begin, first, s := AppendedLate(top, a, b);
    var rest, more := Replicated(top, p, s, 1, 3, b);
    TraceJoins(top, p, begin, first, more, rest);
    steps := LossAfterCommit(top, p, begin + more[1..], first + rest, more[3], 1, 3, b, true, 2, 1);
  }

  lemma AppendedLate(top: Topology, a: Payload, b: Payload) returns (states: seq<State>, steps: seq<Step>, s: State)
    requires ThreeBrokers(top) && Init(top) == Fresh(2)
    ensures Trace(top, AppendsAsLeader, states, steps) && s == states[|steps|]
    ensures var e := Entry(1, 1, 0);
            s == State(ALL, Trio(Broker([b], e), Broker([a], e), Broker([], e)), {Announce(e)}, e, {})
  {
    var p, e := AppendsAsLeader, Entry(1, 1, 0);
    var s1 := Promotes(top, p, Fresh(2), 1, 3, ALL);
    FirstAppend(top, p, s1, 2, a);
    var s2 := WithFirst(s1, 2, a);
    FirstAppend(top, p, s2, 1, b);
    s := State(ALL, Trio(Broker([b], e), Broker([a], e), Broker([], e)), {Announce(e)}, e, {});
    assert {Announce(e)} == {} + {Announce(e)};
    steps, states := ThreeSteps(top, p, Fresh(2), s1, s2, s, Promote(1, {1, 3}, ALL), Append(2, a), Append(1, b));
  }

  /**
   Broker 2 leads, and broker 3 acknowledges its record `a`. Before broker 2 commits, broker 1 is promoted and everybody
   cuts `a`. Broker 2 then counts the acknowledgement, raises the high watermark of the new epoch past the end of the new
   leader's log, and acknowledges `a`.
   */
  lemma OvertakenCommitLosesRecord(a: Payload) returns (steps: seq<Step>)
    ensures Three(1).Valid() && LosesAcked(Three(1), CommitsInEpoch, steps, (0, a))
  {
    ThreeInit(1);
    steps := OvertakenCommitRun(Three(1), a);
  }

  lemma OvertakenCommitRun(top: Topology, a: Payload) returns (steps: seq<Step>)
    requires ThreeBrokers(top) && Init(top) == Fresh(2)
    ensures LosesAcked(top, CommitsInEpoch, steps, (0, a))
  {
    var p := CommitsInEpoch;
    var states, first, s := BegunAndReplicated(top, p, a);
    var s1 := Promotes(top, p, s, 1, 3, ALL);
    var s2 := CommitsTooLate(top, p, s1, a);
    TraceEnds(top, p, states, first, Promote(1, {1, 3}, ALL), s1, Commit(2, 0, a, {3}, true), s2, (0, a));
    steps := first + [Promote(1, {1, 3}, ALL), Commit(2, 0, a, {3}, true)];
  }

  lemma CommitsTooLate(top: Topology, p: Premise, s: State, a: Payload) returns (s': State)
    requires ThreeBrokers(top) && p == CommitsInEpoch
    requires var e := Entry(1, 1, 0);
             s == State(ALL, Trio(Broker([], e), Broker([], e), Broker([], e)), s.messages, e, {})
    requires Pending(2, 0, 0, a) in s.messages && Acknowledge(3, 0, 1) in s.messages
    ensures Takes(top, p, s, Commit(2, 0, a, {3}, true), s') && Lost(s', (0, a))
  {
    s' := CommitAt(top, s, 2, 0, a, true);
    assert Taken(s, 2, 0, a) && Counted(top, s, 2, 0, {3});
    var e := Entry(1, 1, 1);
    assert HandleApply(top.nodes, s.brokers[1], e) == Handled(Broker([], e), Success(e));
  }

  /**
   Broker 2 leads and has taken its record `a` for replication when broker 1 is promoted and everybody cuts `a`. Broker 2
   then sends `a` to broker 3 in the name of the new epoch, which its registry gives by now, and broker 3 stores it. Broker
   1 commits `b` at the same offset with broker 2, and a promotion of broker 3 accepts its log by length.
   */
  lemma StaleSenderLosesRecord(a: Payload, b: Payload) returns (steps: seq<Step>)
    requires a != b
    ensures Three(1).Valid() && LosesAcked(Three(1), SendsAsLeader, steps, (0, b))
  {
    ThreeInit(1);
    steps := StaleSenderRun(Three(1), a, b);
  }

  lemma StaleSenderRun(top: Topology, a: Payload, b: Payload) returns (steps: seq<Step>)
    requires ThreeBrokers(top) && Init(top) == Fresh(2)
    requires a != b
    ensures LosesAcked(top, SendsAsLeader, steps, (0, b))
  {
    var p := SendsAsLeader;
    var begin, first, s := TakenThenCut(top, a);
    var rest, more, s3 := StaleRecordStored(top, a, b, s);
    TraceJoins(top, p, begin, first, more, rest);
    var further, last := Replicated(top, p, s3, 1, 2, b);
    TraceJoins(top, p, begin + more[1..], first + rest, last, further);
    steps := LossAfterCommit(top, p, begin + more[1..] + last[1..], first + rest + further, last[3], 1, 2, b, true, 3, 1);
  }

  lemma TakenThenCut(top: Topology, a: Payload) returns (states: seq<State>, steps: seq<Step>, s: State)
    requires ThreeBrokers(top) && Init(top) == Fresh(2)
    ensures Trace(top, SendsAsLeader, states, steps) && s == states[|steps|]
    ensures var e := Entry(1, 1, 0);
            s == State(ALL, Trio(Broker([], e), Broker([], e), Broker([], e)), s.messages, e, {})
    ensures Pending(2, 0, 0, a) in s.messages
  {
    var p := SendsAsLeader;
    Begins(top, p, a);
    var s2 := Begun(a).(messages := Begun(a).messages + {Pending(2, 0, 0, a)});
    assert Takes(top, p, Begun(a), ReadBack(2, 0), s2);
    s := Promotes(top, p, s2, 1, 3, ALL);
    steps, states := ThreeSteps(top, p, Fresh(2), Begun(a), s2, s, Append(2, a), ReadBack(2, 0), Promote(1, {1, 3}, ALL));
  }

  /** The record of the old leader reaches broker 3 in the new epoch; the new leader then appends its own. */
  lemma StaleRecordStored(top: Topology, a: Payload, b: Payload, s: State)
    returns (steps: seq<Step>, states: seq<State>, s': State)
    requires ThreeBrokers(top) && Pending(2, 0, 0, a) in s.messages
    requires var e := Entry(1, 1, 0);
             s == State(ALL, Trio(Broker([], e), Broker([], e), Broker([], e)), s.messages, e, {})
    ensures Path(top, SendsAsLeader, states, steps) && |steps| == 3 && states[0] == s && s' == states[3]
    ensures var e := Entry(1, 1, 0);
            s' == State(ALL, Trio(Broker([b], e), Broker([], e), Broker([a], e)), s'.messages, e, {})
  {
    var p, e, sent := SendsAsLeader, Entry(1, 1, 0), Replication(0, a, 1, 1);
    var s1 := s.(messages := s.messages + {Replicate(3, sent)});
    assert Takes(top, p, s, SendRecord(2, 3, 0, a), s1);
    Stored(top, p, s1, 3, sent);
    var s2 := State(ALL, Trio(Broker([], e), Broker([], e), Broker([a], e)), s1.messages + {Acknowledge(3, 1, 1)}, e, {});
    assert s2.brokers == s1.brokers[3 := Broker([a], e)];
    FirstAppend(top, p, s2, 1, b);
    s' := WithFirst(s2, 1, b);
    steps, states := ThreeSteps(top, p, s, s1, s2, s', SendRecord(2, 3, 0, a), ReceiveRecord(3, sent), Append(1, b));
  }
}
