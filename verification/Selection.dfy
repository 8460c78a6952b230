/** Choosing a new leader: who answers with which log end, which replica is picked, and when a pick is sure to be safe. */
module Selection {
  import opened Wrappers
  import opened Cluster

  /** What a broker asked for the end of its log replies, if it replies. */
  type Replies = nat -> Option<nat>

  datatype PromotionError =
    | PromotionCandidateUnavailable
    | UnsafePromotion(candidate: nat, highest: nat, available: nat)

  datatype Answer = Answer(id: nat, offset: nat)

  /** The replicas, without `excluded`, that reply. */
  ghost function Responders(top: Topology, excluded: Option<nat>, replies: Replies): set<nat>
    requires top.Valid()
  {
    set b | b in top.nodes && excluded != Some(b) && top.IsReplica(b) && replies(b).Some?
  }

  /** Who counts as replying: the replicas that reply, but never the failed leader. */
  lemma RespondersIff(top: Topology, excluded: Option<nat>, replies: Replies, b: nat)
    requires top.Valid()
    ensures b in Responders(top, excluded, replies)
            <==> b in top.Replicas() && replies(b).Some? && !(excluded.Some? && excluded.value == b)
    ensures Asked(top, excluded, replies)(b)
            == if b in top.Replicas() && !(excluded.Some? && excluded.value == b) then replies(b) else None
  {
    top.ReplicaPlacement();
  }

  /** Only the replicas without `excluded` are asked. */
  function Asked(top: Topology, excluded: Option<nat>, replies: Replies): Replies
    requires top.Valid()
  {
    b => if excluded != Some(b) && top.IsReplica(b) then replies(b) else None
  }

  /** One answer for each of `nodes` that is asked and replies. */
  ghost predicate Collected(nodes: seq<nat>, asked: Replies, answers: seq<Answer>) {
    && (forall i, j :: 0 <= i < j < |answers| ==> answers[i].id != answers[j].id)
    && (forall a :: a in answers ==> a.id in nodes && asked(a.id) == Some(a.offset))
    && (forall b :: b in nodes && asked(b).Some? ==> Answer(b, asked(b).value) in answers)
  }

  /** Ask every replica but `excluded`, in the order of their ids. */
  method CollectOffsets(top: Topology, excluded: Option<nat>, replies: Replies) returns (answers: seq<Answer>)
    requires top.Valid()
    ensures Collected(top.nodes, Asked(top, excluded, replies), answers)
    ensures |answers| == |Responders(top, excluded, replies)|
  {
    answers := [];
    for i := 0 to |top.nodes|
      invariant Collected(top.nodes[..i], Asked(top, excluded, replies), answers)
    {
      var b := top.nodes[i];
      OneMoreAsked(top.nodes, i, Asked(top, excluded, replies), answers);
      if excluded != Some(b) && top.IsReplica(b) {
        var offset := replies(b);
        if offset.Some? {
          answers := answers + [Answer(b, offset.value)];
        }
      }
    }
    assert top.nodes[..|top.nodes|] == top.nodes;
    AnswersAreResponders(top, excluded, replies, answers);
  }

  lemma AnswersAreResponders(top: Topology, excluded: Option<nat>, replies: Replies, answers: seq<Answer>)
    requires top.Valid() && Collected(top.nodes, Asked(top, excluded, replies), answers)
    ensures |answers| == |Responders(top, excluded, replies)|
  {
    CountAnswers(answers);
    assert (set a | a in answers :: a.id) == Responders(top, excluded, replies);
  }

  lemma OneMoreAsked(nodes: seq<nat>, i: nat, asked: Replies, answers: seq<Answer>)
    requires forall j, k :: 0 <= j < k < |nodes| ==> nodes[j] != nodes[k]
    requires i < |nodes| && Collected(nodes[..i], asked, answers)
    ensures var b := nodes[i];
            Collected(nodes[..i + 1], asked, if asked(b).Some? then answers + [Answer(b, asked(b).value)] else answers)
  {
    assert nodes[..i + 1] == nodes[..i] + [nodes[i]];
    assert nodes[i] !in nodes[..i];
  }

  lemma {:induction false} CountAnswers(answers: seq<Answer>)
    requires forall i, j :: 0 <= i < j < |answers| ==> answers[i].id != answers[j].id
    ensures |set a | a in answers :: a.id| == |answers|
  {
    if answers != [] {
      var init, last := answers[..|answers| - 1], answers[|answers| - 1];
      CountAnswers(init);
      assert (set a | a in answers :: a.id) == (set a | a in init :: a.id) + {last.id};
    }
  }

  /** `a` is a better pick than `b`: more records, then the lower id. */
  predicate Beats(a: Answer, b: Answer) {
    a.offset > b.offset || (a.offset == b.offset && a.id <= b.id)
  }

  /** Of the answers that hold the high watermark the best one, if enough replicas answered. */
  method ChooseAutomaticCandidate(answers: seq<Answer>, minInSync: nat, highWatermark: nat) returns (r: Option<nat>)
    ensures r.None? <==> |answers| < minInSync || forall a :: a in answers ==> a.offset < highWatermark
    ensures r.Some? ==>
              exists a :: && a in answers && a.id == r.value && a.offset >= highWatermark
                          && forall b :: b in answers ==> b.offset < a.offset || (b.offset == a.offset && a.id <= b.id)
  {
    if |answers| < minInSync {
      return None;
    }
    var best: Option<Answer> := None;
    for i := 0 to |answers|
      invariant best.None? ==> forall a :: a in answers[..i] ==> a.offset < highWatermark
      invariant best.Some? ==> best.value in answers[..i] && best.value.offset >= highWatermark
      invariant best.Some? ==> forall b :: b in answers[..i] ==> Beats(best.value, b)
    {
      var a := answers[i];
      assert answers[..i + 1] == answers[..i] + [a];
      if a.offset >= highWatermark && (best.None? || Beats(a, best.value)) {
        best := Some(a);
      }
    }
    assert answers[..|answers|] == answers;
    return if best.Some? then Some(best.value.id) else None;
  }

  /** `pick` is the best of enough replicas that reply, and it holds the high watermark. */
  ghost predicate Picked(top: Topology, leader: nat, highWatermark: nat, replies: Replies, pick: nat)
    requires top.Valid()
  {
    var asked := Responders(top, Some(leader), replies);
    && |asked| >= top.minInSync && pick in asked && replies(pick).value >= highWatermark
    && forall b :: b in asked ==>
         replies(b).value < replies(pick).value || (replies(b).value == replies(pick).value && pick <= b)
  }

  /** Automatic fail-over asks the replicas other than the failed leader. */
  method SelectAutomaticCandidate(top: Topology, leader: nat, highWatermark: nat, replies: Replies) returns (r: Option<nat>)
    requires top.Valid()
    ensures r.None? <==> || |Responders(top, Some(leader), replies)| < top.minInSync
                         || forall b :: b in Responders(top, Some(leader), replies) ==> replies(b).value < highWatermark
    ensures r.Some? ==> Picked(top, leader, highWatermark, replies, r.value)
  {
    var answers := CollectOffsets(top, Some(leader), replies);
    assert forall b :: b in Responders(top, Some(leader), replies) ==> Answer(b, replies(b).value) in answers;
    assert forall a :: a in answers ==> a.id in Responders(top, Some(leader), replies);
    r := ChooseAutomaticCandidate(answers, top.minInSync, highWatermark);
  }

  /** The check before a promotion: the candidate and enough replicas answer, and the candidate holds what is committed. */
  method VerifyPromotionCandidate(top: Topology, candidate: nat, highWatermark: nat, replies: Replies)
    returns (r: Result<Unit, PromotionError>)
    requires top.Valid()
    ensures r.Success? <==>
            && candidate in Responders(top, None, replies)
            && |Responders(top, None, replies)| >= top.minInSync
            && replies(candidate).value >= highWatermark
    ensures r == Failure(PromotionCandidateUnavailable) <==> candidate !in Responders(top, None, replies)
    ensures r.Failure? && r.error.UnsafePromotion? ==>
              && r.error.candidate == replies(candidate).value && r.error.available == |Responders(top, None, replies)|
              && (exists b :: b in Responders(top, None, replies) && replies(b).value == r.error.highest)
              && (forall b :: b in Responders(top, None, replies) ==> replies(b).value <= r.error.highest)
  {
    var answers := CollectOffsets(top, None, replies);
    assert forall b :: b in Responders(top, None, replies) ==> Answer(b, replies(b).value) in answers;
    assert forall a :: a in answers ==> a.id in Responders(top, None, replies) && replies(a.id) == Some(a.offset);
    var found := FindAnswer(answers, candidate);
    if found.None? {
      return Failure(PromotionCandidateUnavailable);
    }
    var highest := HighestOffset(answers);
    if |answers| < top.minInSync || found.value < highWatermark {
      return Failure(UnsafePromotion(found.value, highest, |answers|));
    }
    return Success(Done);
  }

  method FindAnswer(answers: seq<Answer>, id: nat) returns (r: Option<nat>)
    ensures r.Some? ==> Answer(id, r.value) in answers
    ensures r.None? ==> forall a :: a in answers ==> a.id != id
  {
    for i := 0 to |answers|
      invariant forall j :: 0 <= j < i ==> answers[j].id != id
    {
      if answers[i].id == id {
        return Some(answers[i].offset);
      }
    }
    return None;
  }

  method HighestOffset(answers: seq<Answer>) returns (highest: nat)
    ensures forall a :: a in answers ==> a.offset <= highest
    ensures answers != [] ==> exists a :: a in answers && a.offset == highest
    ensures answers == [] ==> highest == 0
  {
    highest := 0;
    for i := 0 to |answers|
      invariant forall j :: 0 <= j < i ==> answers[j].offset <= highest
      invariant if i == 0 then highest == 0 else exists j :: 0 <= j < i && answers[j].offset == highest
    {
      if answers[i].offset > highest || i == 0 {
        highest := answers[i].offset;
      }
    }
  }

  // ---------------------------------------------------------------- quorums

  /** Enough replicas other than the leader, or enough replicas that hold a record. */
  ghost predicate QuorumOf(top: Topology, members: set<nat>, without: Option<nat>)
    requires top.Valid()
  {
    members <= top.Replicas() && |members| >= top.minInSync && forall b :: b in members ==> without != Some(b)
  }

  lemma SizeOfUnion(a: set<nat>, b: set<nat>, all: set<nat>)
    requires a <= all && b <= all && |a| + |b| > |all|
    ensures a * b != {}
  {
    if a * b == {} {
      assert |a + b| == |a| + |b|;
      SizeOfSubset(a + b, all);
    }
  }

  lemma SizeOfSubset(a: set<nat>, b: set<nat>)
    requires a <= b
    ensures |a| <= |b|
  {
    assert b == a + (b - a);
  }

  lemma {:induction false} SubsetOfSize(s: set<nat>, n: nat) returns (t: set<nat>)
    requires n <= |s|
    ensures t <= s && |t| == n
  {
    if n == 0 {
      t := {};
    } else {
      var x :| x in s;
      var rest := SubsetOfSize(s - {x}, n - 1);
      t := rest + {x};
    }
  }

  /** Every quorum that answers without the leader meets every quorum that stored a record, exactly under a majority policy. */
  lemma QuorumsMeetIffMajority(top: Topology, leader: nat)
    requires top.Valid() && leader in top.Replicas()
    ensures 2 * top.minInSync > top.replicationFactor
            <==> forall stored, answered ::
                   QuorumOf(top, stored, None) && QuorumOf(top, answered, Some(leader)) ==> stored * answered != {}
  {
    top.ReplicaPlacement();
    if 2 * top.minInSync > top.replicationFactor {
      forall stored, answered | QuorumOf(top, stored, None) && QuorumOf(top, answered, Some(leader))
        ensures stored * answered != {}
      {
        SizeOfUnion(stored, answered, top.Replicas());
      }
    } else {
      var answered := SubsetOfSize(top.Replicas() - {leader}, top.minInSync);
      var stored := top.Replicas() - answered;
      assert top.Replicas() == answered + stored;
      assert QuorumOf(top, stored, None) && QuorumOf(top, answered, Some(leader)) && stored * answered == {};
    }
  }

  /**
   Under a majority policy a committed record is never lost to automatic fail-over: if enough other replicas reply, the
   conditions under which `SelectAutomaticCandidate` returns nobody do not hold.
   */
  lemma QuorumHasCandidate(top: Topology, leader: nat, highWatermark: nat, holders: set<nat>, replies: Replies)
    requires top.Valid() && 2 * top.minInSync > top.replicationFactor
    requires QuorumOf(top, holders, None)
    requires forall b :: b in holders && replies(b).Some? ==> replies(b).value >= highWatermark
    requires |Responders(top, Some(leader), replies)| >= top.minInSync
    ensures exists b :: b in Responders(top, Some(leader), replies) && b in holders && replies(b).value >= highWatermark
  {
    top.ReplicaPlacement();
    var answered := Responders(top, Some(leader), replies);
    assert answered <= top.Replicas();
    SizeOfUnion(holders, answered, top.Replicas());
    var b :| b in holders * answered;
    assert b in answered && b in holders;
  }

  /** The replica that automatic fail-over picks also passes the check before its promotion, if the same replicas still reply. */
  lemma PickPassesCheck(top: Topology, leader: nat, highWatermark: nat, pick: nat, replies: Replies)
    requires top.Valid() && Picked(top, leader, highWatermark, replies, pick)
    ensures pick in Responders(top, None, replies) && |Responders(top, None, replies)| >= top.minInSync
  {
    SizeOfSubset(Responders(top, Some(leader), replies), Responders(top, None, replies));
  }
}
