/**
 Durability of acknowledged records across leader changes.

 `Next` allows each handler at least what it can do in the code. Replicated records, acknowledgements, fetched records and
 leadership announcements travel as messages that may be lost, delayed, duplicated or reordered, within an epoch and
 across epochs. Brokers fail by stopping. `Allowed` holds everything the durability theorems assume beyond the code; for
 each of its premises `DataLoss` has a run that keeps the others and loses an acknowledged record.
 */
module Durability {
  import opened Wrappers
  import opened Cluster
  import opened Replica

  /** `Pending` is not sent: it is a record that a broker read back at its offset, in an epoch, to replicate it. */
  datatype Message =
    | Pending(broker: nat, epoch: nat, offset: nat, record: Payload)
    | Replicate(to: nat, body: Replication)
    | Acknowledge(from: nat, epoch: nat, nextOffset: nat)
    | Fetched(offset: nat, record: Payload)
    | Announce(entry: Entry)

  /** `latest` and `acked` are history: the newest leadership entry, and every durable acknowledgement given so far. */
  datatype State = State(
    live: set<nat>,
    brokers: map<nat, Broker>,
    messages: set<Message>,
    latest: Entry,
    acked: set<(nat, Payload)>)

  datatype Step =
    | Append(broker: nat, record: Payload)
    | ReadBack(broker: nat, offset: nat)
    | SendRecord(broker: nat, to: nat, offset: nat, record: Payload)
    | ReceiveRecord(to: nat, body: Replication)
    | Commit(broker: nat, offset: nat, record: Payload, ackers: set<nat>, reached: bool)
    | ReceiveAnnouncement(broker: nat, entry: Entry)
    | SyncMetadata(broker: nat)
    | Promote(candidate: nat, answered: set<nat>, told: set<nat>)
    | ServeFetch(broker: nat, offset: nat)
    | Recover(broker: nat, offset: nat, record: Payload)
    | Crash(broker: nat)

  ghost function Init(top: Topology): State
    requires top.Valid()
  {
    var entry := Entry(top.DeterministicLeader(), 0, 0);
    State((set b | b in top.nodes), (map b | b in top.nodes :: Broker([], entry)), {}, entry, {})
  }

  /** `b` is up and its registry names it leader. */
  predicate Leads(s: State, b: nat) {
    b in s.live && b in s.brokers && s.brokers[b].entry.leader == b
  }

  predicate Acknowledged(s: State, from: nat, epoch: nat, through: nat) {
    exists m :: m in s.messages && m.Acknowledge? && m.from == from && m.epoch == epoch && m.nextOffset > through
  }

  /** The code's guard of a commit: enough followers of `b` acknowledged offset `o`, in whatever epochs. */
  predicate Counted(top: Topology, s: State, b: nat, o: nat, ackers: set<nat>)
    requires top.Valid()
  {
    && |ackers| + 1 >= top.minInSync
    && (forall f :: f in ackers ==>
          f in top.Followers(b) && exists m :: m in s.messages && m.Acknowledge? && m.from == f && m.nextOffset > o)
  }

  /** `b` took record `r` at offset `o` for replication. */
  predicate Taken(s: State, b: nat, o: nat, r: Payload) {
    exists m :: m in s.messages && m.Pending? && m.broker == b && m.offset == o && m.record == r
  }

  /** Enough followers of `b` acknowledged offset `o` to records sent in `epoch`. */
  predicate Quorum(top: Topology, s: State, b: nat, o: nat, ackers: set<nat>, epoch: nat)
    requires top.Valid()
  {
    && |ackers| + 1 >= top.minInSync
    && (forall f :: f in ackers ==> f in top.Followers(b) && Acknowledged(s, f, epoch, o))
  }

  /** The promotion guard: a replica that holds the committed records, and enough replicas that answered. */
  predicate MayPromote(top: Topology, s: State, candidate: nat, answered: set<nat>)
    requires top.Valid()
  {
    var c := top.Controller();
    && c in s.live && c in s.brokers && s.brokers[c].entry.epoch < U64_MAX
    && candidate in answered && top.IsReplica(candidate)
    && (forall b :: b in answered ==> b in s.live && b in s.brokers && top.IsReplica(b))
    && |answered| >= top.minInSync
    && |s.brokers[candidate].log| >= s.brokers[c].entry.highWatermark
  }

  /**
   What promotion leaves at broker `b`: the controller cuts its own tail only when it is the candidate; the other live
   brokers that the broadcast reaches handle the announcement.
   */
  function AfterPromotion(top: Topology, s: State, entry: Entry, told: set<nat>, b: nat): Broker
    requires top.Valid() && b in s.brokers
  {
    if b == top.Controller() then
      Broker(if entry.leader == b then Truncated(s.brokers[b].log, entry.highWatermark) else s.brokers[b].log, entry)
    else if b in s.live && b in told then HandleApply(top.nodes, s.brokers[b], entry).broker
    else s.brokers[b]
  }

  function PromotedEntry(top: Topology, s: State, candidate: nat): Entry
    requires top.Valid() && top.Controller() in s.brokers
  {
    var current := s.brokers[top.Controller()].entry;
    Entry(candidate, current.epoch + 1, current.highWatermark)
  }

  /** The premise the code does not establish: a controller that is not the candidate has no uncommitted tail. */
  predicate ControllerHasNoTail(top: Topology, s: State, candidate: nat)
    requires top.Valid()
  {
    var c := top.Controller();
    c in s.brokers && (c == candidate || |s.brokers[c].log| <= s.brokers[c].entry.highWatermark)
  }

  /** The effect of a step as the handlers perform it; a step whose guard fails changes nothing. */
  function Next(top: Topology, s: State, step: Step): State
    requires top.Valid()
  {
    match step
    case Append(b, r) =>
      if b in s.live && b in s.brokers
      then s.(brokers := s.brokers[b := s.brokers[b].(log := s.brokers[b].log + [r])])
      else s
    case ReadBack(b, o) =>
      if b in s.live && b in s.brokers && o < |s.brokers[b].log|
      then s.(messages := s.messages + {Pending(b, s.brokers[b].entry.epoch, o, s.brokers[b].log[o])})
      else s
    case SendRecord(b, to, o, r) =>
      if b in s.live && b in s.brokers && to in top.Followers(b) && Taken(s, b, o, r) then
        var e := s.brokers[b].entry;
        s.(messages := s.messages + {Replicate(to, Replication(o, r, e.leader, e.epoch))})
      else s
    case ReceiveRecord(to, body) =>
      if to in s.live && to in s.brokers && Replicate(to, body) in s.messages then
        var h := HandleReplication(top.nodes, s.brokers[to], body);
        s.(brokers := s.brokers[to := h.broker],
           messages := if h.reply.Success? then s.messages + {Acknowledge(to, body.epoch, h.reply.value)} else s.messages)
      else s
    case Commit(b, o, r, ackers, reached) =>
      if b in s.live && b in s.brokers && Taken(s, b, o, r) && Counted(top, s, b, o, ackers)
      then CommitAt(top, s, b, o, r, reached)
      else s
    case ReceiveAnnouncement(b, e) =>
      if b in s.live && b in s.brokers && Announce(e) in s.messages
      then s.(brokers := s.brokers[b := HandleApply(top.nodes, s.brokers[b], e).broker])
      else s
    case SyncMetadata(b) =>
      var c := top.Controller();
      if b in s.live && b in s.brokers && c in s.live && c in s.brokers && b != c
         && (var mine, theirs := s.brokers[b].entry, s.brokers[c].entry;
             || theirs.epoch > mine.epoch
             || (theirs.epoch == mine.epoch && theirs.highWatermark > mine.highWatermark))
      then match Adopt(top.nodes, Some(s.brokers[b].entry), s.brokers[c].entry)
           case Success(e) => s.(brokers := s.brokers[b := s.brokers[b].(entry := e)])
           case Failure(_) => s
      else s
    case Promote(candidate, answered, told) =>
      if MayPromote(top, s, candidate, answered) then Promoted(top, s, candidate, told) else s
    case ServeFetch(b, o) =>
      if Leads(s, b) && o < |s.brokers[b].log| && o < s.brokers[b].entry.highWatermark
      then s.(messages := s.messages + {Fetched(o, s.brokers[b].log[o])})
      else s
    case Recover(b, o, r) =>
      if b in s.live && b in s.brokers && top.IsReplica(b) && Fetched(o, r) in s.messages
      then match AppendReplica(s.brokers[b].log, o, r)
           case Success(log) => s.(brokers := s.brokers[b := s.brokers[b].(log := log)])
           case Failure(_) => s
      else s
    case Crash(b) => s.(live := s.live - {b})
  }

  /**
   Raise the high watermark past `o` at the committing broker, whatever its log holds by now, announce it, and
   acknowledge the record. `reached` says whether the announcement gets to the controller before anything else happens.
   */
  function CommitAt(top: Topology, s: State, b: nat, o: nat, r: Payload, reached: bool): State
    requires top.Valid() && b in s.brokers
  {
    var acked := s.acked + {(o, r)};
    if o + 1 <= s.brokers[b].entry.highWatermark then s.(acked := acked)
    else
      var e := s.brokers[b].entry.(highWatermark := o + 1);
      var led := s.brokers[b := s.brokers[b].(entry := e)];
      var c := top.Controller();
      s.(brokers := if reached && c in s.live && c in led && c != b
                    then led[c := HandleApply(top.nodes, led[c], e).broker]
                    else led,
         messages := s.messages + {Announce(e)},
         latest := if e.epoch >= s.latest.epoch then e else s.latest,
         acked := acked)
  }

  function Promoted(top: Topology, s: State, candidate: nat, told: set<nat>): State
    requires top.Valid() && top.Controller() in s.brokers
  {
    var entry := PromotedEntry(top, s, candidate);
    s.(brokers := map b | b in s.brokers :: AfterPromotion(top, s, entry, told, b),
       messages := s.messages + {Announce(entry)},
       latest := entry)
  }

  /** `b` leads, and took the record in the epoch that it still leads. */
  predicate TakenAsLeader(s: State, b: nat, o: nat, r: Payload) {
    Leads(s, b) && Pending(b, s.brokers[b].entry.epoch, o, r) in s.messages
  }

  /** `b` took the record and had it acknowledged in the epoch in which it commits it. */
  predicate InEpoch(top: Topology, s: State, b: nat, o: nat, r: Payload, ackers: set<nat>)
    requires top.Valid()
  {
    TakenAsLeader(s, b, o, r) && Quorum(top, s, b, o, ackers, s.brokers[b].entry.epoch)
  }

  /** The premises of durability that the code does not establish. */
  predicate Allowed(top: Topology, s: State, step: Step)
    requires top.Valid()
  {
    match step
    case Append(b, _) => Leads(s, b)
    case SendRecord(b, _, o, r) => TakenAsLeader(s, b, o, r)
    case Commit(b, o, r, ackers, reached) => InEpoch(top, s, b, o, r, ackers) && (reached || top.Controller() !in s.live)
    case Promote(candidate, _, told) => s.live <= told && ControllerHasNoTail(top, s, candidate)
    case _ => true
  }

  // ---------------------------------------------------------------- what the steps do

  /** Who stops, and what is acknowledged: a crash stops its broker and no other, a commit acknowledges its record and no other. */
  lemma CrashesAndAcknowledgements(top: Topology, s: State, step: Step)
    requires top.Valid()
    ensures Next(top, s, step).live == if step.Crash? then s.live - {step.broker} else s.live
    ensures Next(top, s, step).acked
            == if step.Commit? && step.broker in s.live && step.broker in s.brokers
                  && Taken(s, step.broker, step.offset, step.record)
                  && Counted(top, s, step.broker, step.offset, step.ackers)
               then s.acked + {(step.offset, step.record)} else s.acked
  {
  }

  /** Why a message is sent in a step. */
  ghost predicate Sends(top: Topology, s: State, step: Step, m: Message)
    requires top.Valid()
  {
    match m
    case Pending(b, epoch, o, r) =>
      && step == ReadBack(b, o) && b in s.live && b in s.brokers
      && epoch == s.brokers[b].entry.epoch && o < |s.brokers[b].log| && r == s.brokers[b].log[o]
    case Replicate(to, body) =>
      && step.SendRecord? && step.to == to && step.offset == body.offset && step.record == body.record
      && step.broker in s.live && step.broker in s.brokers && to in top.Followers(step.broker)
      && Taken(s, step.broker, body.offset, body.record)
      && body.leader == s.brokers[step.broker].entry.leader && body.epoch == s.brokers[step.broker].entry.epoch
    case Acknowledge(from, epoch, n) =>
      && step.ReceiveRecord? && step.to == from && step.body.epoch == epoch
      && from in s.live && from in s.brokers && Replicate(from, step.body) in s.messages
      && HandleReplication(top.nodes, s.brokers[from], step.body).reply == Success(n)
    case Fetched(o, r) =>
      && step.ServeFetch? && step.offset == o && Leads(s, step.broker)
      && o < |s.brokers[step.broker].log| && o < s.brokers[step.broker].entry.highWatermark
      && r == s.brokers[step.broker].log[o]
    case Announce(e) =>
      || (&& step.Commit? && step.broker in s.live && step.broker in s.brokers
          && Taken(s, step.broker, step.offset, step.record) && Counted(top, s, step.broker, step.offset, step.ackers)
          && step.offset >= s.brokers[step.broker].entry.highWatermark
          && e == Entry(s.brokers[step.broker].entry.leader, s.brokers[step.broker].entry.epoch, step.offset + 1))
      || (&& step.Promote? && MayPromote(top, s, step.candidate, step.answered)
          && e == Entry(step.candidate, s.brokers[top.Controller()].entry.epoch + 1,
                        s.brokers[top.Controller()].entry.highWatermark))
  }

  /** A step sends exactly that, and nothing that was sent is lost. */
  lemma SendsExactly(top: Topology, s: State, step: Step)
    requires top.Valid()
    ensures forall m :: m in Next(top, s, step).messages <==> m in s.messages || Sends(top, s, step, m)
  {
    match step
    case Commit(_, _, _, _, _) => CommitSends(top, s, step);
    case Promote(_, _, _) => PromoteSends(top, s, step);
    case _ => OthersSend(top, s, step);
  }

  lemma CommitSends(top: Topology, s: State, step: Step)
    requires top.Valid() && step.Commit?
    ensures forall m :: m in Next(top, s, step).messages <==> m in s.messages || Sends(top, s, step, m)
  {
  }

  lemma PromoteSends(top: Topology, s: State, step: Step)
    requires top.Valid() && step.Promote?
    ensures forall m :: m in Next(top, s, step).messages <==> m in s.messages || Sends(top, s, step, m)
  {
  }

  lemma OthersSend(top: Topology, s: State, step: Step)
    requires top.Valid() && !step.Commit? && !step.Promote?
    ensures forall m :: m in Next(top, s, step).messages <==> m in s.messages || Sends(top, s, step, m)
  {
  }

  /** The broker at which a step happens, if only one changes. */
  function At(step: Step): nat
    requires !step.Commit? && !step.Promote?
  {
    match step
    case Append(b, _) => b
    case ReadBack(b, _) => b
    case SendRecord(b, _, _, _) => b
    case ReceiveRecord(to, _) => to
    case ReceiveAnnouncement(b, _) => b
    case SyncMetadata(b) => b
    case ServeFetch(b, _) => b
    case Recover(b, _, _) => b
    case Crash(b) => b
  }

  /** A step at one broker changes no other, and none that is stopped. */
  lemma OnlyOneChanges(top: Topology, s: State, step: Step)
    requires top.Valid() && !step.Commit? && !step.Promote?
    ensures Next(top, s, step).brokers.Keys == s.brokers.Keys
    ensures forall b :: b in s.brokers && (b != At(step) || b !in s.live) ==> Next(top, s, step).brokers[b] == s.brokers[b]
  {
  }

  /** What appending and recovery do at a live broker: logs only grow at their ends, whoever leads. */
  lemma LogsGrow(top: Topology, s: State, b: nat, o: nat, r: Payload)
    requires top.Valid() && b in s.live && b in s.brokers
    ensures Next(top, s, Append(b, r)).brokers[b] == Broker(s.brokers[b].log + [r], s.brokers[b].entry)
    ensures Next(top, s, Recover(b, o, r)).brokers[b]
            == Broker(if top.IsReplica(b) && Fetched(o, r) in s.messages && o == |s.brokers[b].log| then s.brokers[b].log + [r]
                      else s.brokers[b].log, s.brokers[b].entry)
  {
  }

  /** A live broker takes the controller's entry exactly if it is newer and may follow its own; no log changes. */
  lemma SyncTakesNewer(top: Topology, s: State, b: nat)
    requires top.Valid() && b in s.live && b in s.brokers
    ensures var c, mine := top.Controller(), s.brokers[b];
            Next(top, s, SyncMetadata(b)).brokers[b]
            == if c in s.live && c in s.brokers && b != c && s.brokers[c].entry != mine.entry
                  && s.brokers[c].entry.leader in top.nodes && Follows(s.brokers[c].entry, mine.entry)
               then Broker(mine.log, s.brokers[c].entry) else mine
  {
    if top.Controller() in s.brokers {
      AdoptsIff(top.nodes, Some(s.brokers[b].entry), s.brokers[top.Controller()].entry);
    }
  }

  /** A commit raises the high watermark of its broker, and of the controller if it reaches that; no log changes. */
  lemma CommitRaisesOnly(top: Topology, s: State, step: Step)
    requires top.Valid() && step.Commit? && step.broker in s.live && step.broker in s.brokers
    requires Taken(s, step.broker, step.offset, step.record) && Counted(top, s, step.broker, step.offset, step.ackers)
    ensures var b, c, s' := step.broker, top.Controller(), Next(top, s, step);
            var e := s.brokers[b].entry;
            var raised := if step.offset >= e.highWatermark then e.(highWatermark := step.offset + 1) else e;
            && s'.brokers.Keys == s.brokers.Keys
            && s'.brokers[b] == Broker(s.brokers[b].log, raised)
            && (forall x :: x in s.brokers && x != b && x != c ==> s'.brokers[x] == s.brokers[x])
            && (c != b && c in s.brokers ==>
                  s'.brokers[c] == if raised != e && step.reached && c in s.live then HandleApply(top.nodes, s.brokers[c], raised).broker
                                   else s.brokers[c])
  {
  }

  /**
   What a promotion leaves: the controller has the new entry and cuts its log exactly if it is the candidate itself; another
   live broker that is told handles the announcement; the others are as they were.
   */
  lemma PromotionLeaves(top: Topology, s: State, step: Step, b: nat)
    requires top.Valid() && step.Promote? && MayPromote(top, s, step.candidate, step.answered) && b in s.brokers
    ensures var c, before, after := top.Controller(), s.brokers[b], Next(top, s, step).brokers;
            var e := Entry(step.candidate, s.brokers[c].entry.epoch + 1, s.brokers[c].entry.highWatermark);
            && after.Keys == s.brokers.Keys
            && (b == c ==> after[b].entry == e
                           && after[b].log == if step.candidate == c && e.highWatermark < |before.log|
                                              then before.log[..e.highWatermark] else before.log)
            && (b != c ==> after[b] == if b in s.live && b in step.told then HandleApply(top.nodes, before, e).broker else before)
  {
    PromotedState(top, s, step.candidate, step.told);
  }

  /** A broker that has stopped never changes again. */
  lemma {:induction false} StoppedStays(top: Topology, s: State, steps: seq<Step>, b: nat)
    requires top.Valid() && b !in s.live && b in s.brokers
    ensures b !in Continue(top, s, steps).live
    ensures b in Continue(top, s, steps).brokers && Continue(top, s, steps).brokers[b] == s.brokers[b]
  {
    if steps != [] {
      var init, last := steps[..|steps| - 1], steps[|steps| - 1];
      StoppedStays(top, s, init, b);
      StoppedStep(top, Continue(top, s, init), last, b);
    }
  }

  lemma StoppedStep(top: Topology, s: State, step: Step, b: nat)
    requires top.Valid() && b !in s.live && b in s.brokers
    ensures b !in Next(top, s, step).live && b in Next(top, s, step).brokers && Next(top, s, step).brokers[b] == s.brokers[b]
  {
    match step
    case Promote(candidate, answered, told) =>
      if MayPromote(top, s, candidate, answered) {
        PromotionLeaves(top, s, step, b);
      }
    case Commit(_, _, _, _, _) =>
    case _ => OnlyOneChanges(top, s, step);
  }

  ghost function Run(top: Topology, steps: seq<Step>): State
    requires top.Valid()
  {
    if steps == [] then Init(top) else Next(top, Run(top, steps[..|steps| - 1]), steps[|steps| - 1])
  }

  ghost predicate AllowedRun(top: Topology, steps: seq<Step>)
    requires top.Valid()
  {
    steps != [] ==>
      && AllowedRun(top, steps[..|steps| - 1])
      && Allowed(top, Run(top, steps[..|steps| - 1]), steps[|steps| - 1])
  }

  // ---------------------------------------------------------------- invariant

  /** What the invariant needs to know of the topology. The `informed` brokers always know the newest high watermark. */
  datatype View = View(nodes: set<nat>, replicas: set<nat>, informed: set<nat>, minInSync: nat)

  /** Across epochs the controller has to be informed. */
  ghost function AcrossEpochs(top: Topology): View
    requires top.Valid()
  {
    View((set b | b in top.nodes), top.Replicas(), {top.Controller()}, top.minInSync)
  }

  ghost function WithinEpoch(top: Topology): View
    requires top.Valid()
  {
    AcrossEpochs(top).(informed := {})
  }

  ghost predicate WellFormed(v: View, s: State) {
    && s.brokers.Keys == v.nodes
    && s.live <= v.nodes
    && v.replicas <= v.nodes
    && s.latest.leader in v.replicas
  }

  ghost function LeaderLog(s: State): Log
    requires s.latest.leader in s.brokers
  {
    s.brokers[s.latest.leader].log
  }

  /** `log` holds the leader's first `n` records. */
  ghost predicate Holds(s: State, log: Log, n: nat)
    requires s.latest.leader in s.brokers
  {
    n <= |log| && n <= |LeaderLog(s)| && log[..n] == LeaderLog(s)[..n]
  }

  /** A live broker agrees on leader and epoch; the leader and the informed brokers also know the high watermark. */
  ghost predicate EntryOk(v: View, s: State, b: nat, e: Entry) {
    && e.leader == s.latest.leader && e.epoch == s.latest.epoch
    && e.highWatermark <= s.latest.highWatermark
    && (b in v.informed || b == s.latest.leader ==> e == s.latest)
  }

  ghost predicate Agreement(v: View, s: State)
    requires WellFormed(v, s)
  {
    forall b :: b in s.live ==> EntryOk(v, s, b, s.brokers[b].entry)
  }

  ghost predicate LogsArePrefixes(v: View, s: State)
    requires WellFormed(v, s)
  {
    && s.latest.highWatermark <= |LeaderLog(s)|
    && (forall b :: b in s.live ==> s.brokers[b].log <= LeaderLog(s))
    && (forall b :: b in s.brokers && b !in v.replicas ==> s.brokers[b].log == [])
  }

  ghost predicate MessageOk(v: View, s: State, m: Message)
    requires WellFormed(v, s)
  {
    match m
    case Pending(b, epoch, o, r) =>
      && epoch <= s.latest.epoch
      && (epoch == s.latest.epoch && b == s.latest.leader ==> o < |LeaderLog(s)| && LeaderLog(s)[o] == r)
    case Replicate(to, body) =>
      && to in v.replicas && to != body.leader
      && body.epoch <= s.latest.epoch
      && (body.epoch == s.latest.epoch ==>
            && body.leader == s.latest.leader
            && body.offset < |LeaderLog(s)| && LeaderLog(s)[body.offset] == body.record)
    case Acknowledge(from, epoch, n) =>
      && from in v.replicas
      && epoch <= s.latest.epoch
      && (epoch == s.latest.epoch ==> from != s.latest.leader && Holds(s, s.brokers[from].log, n))
    case Fetched(o, r) => Committed(s, o, r)
    case Announce(e) =>
      && e.epoch <= s.latest.epoch
      && (e.epoch == s.latest.epoch ==> e.leader == s.latest.leader && e.highWatermark <= s.latest.highWatermark)
  }

  /** Below the high watermark, in the latest leader's log. */
  ghost predicate Committed(s: State, o: nat, r: Payload)
    requires s.latest.leader in s.brokers
  {
    o < s.latest.highWatermark && o < |LeaderLog(s)| && LeaderLog(s)[o] == r
  }

  /** `holders` are enough replicas, live or stopped, that store everything below the high watermark. */
  ghost predicate HeldBy(v: View, s: State, holders: set<nat>)
    requires WellFormed(v, s)
  {
    && holders <= v.replicas && |holders| >= v.minInSync
    && (forall b :: b in holders ==> Holds(s, s.brokers[b].log, s.latest.highWatermark))
  }

  ghost predicate Invariant(v: View, s: State) {
    && WellFormed(v, s)
    && Agreement(v, s)
    && LogsArePrefixes(v, s)
    && (forall m :: m in s.messages ==> MessageOk(v, s, m))
    && (forall a :: a in s.acked ==> Committed(s, a.0, a.1))
    && (exists holders :: HeldBy(v, s, holders))
  }

  // ---------------------------------------------------------------- the five ways a step changes the state

  lemma SentKeeps(v: View, s: State, m: Message)
    requires Invariant(v, s) && MessageOk(v, s, m)
    ensures Invariant(v, s.(messages := s.messages + {m}))
  {
    var s' := s.(messages := s.messages + {m});
    var holders :| HeldBy(v, s, holders);
    assert HeldBy(v, s', holders);
    assert forall x :: MessageOk(v, s, x) ==> MessageOk(v, s', x);
  }

  /** One live broker learns or stores something. */
  lemma UpdateKeeps(v: View, s: State, b: nat, after: Broker)
    requires Invariant(v, s)
    requires b in s.live && EntryOk(v, s, b, after.entry)
    requires s.brokers[b].log <= after.log
    requires b in v.replicas || after.log == s.brokers[b].log
    requires b == s.latest.leader || after.log <= LeaderLog(s)
    ensures Invariant(v, s.(brokers := s.brokers[b := after]))
  {
    var s' := s.(brokers := s.brokers[b := after]);
    assert LeaderLog(s) <= LeaderLog(s');
    forall log, n | Holds(s, log, n)
      ensures Holds(s', log, n)
    {
    }
    assert forall m :: m in s.messages ==> MessageOk(v, s', m);
    var holders :| HeldBy(v, s, holders);
    assert HeldBy(v, s', holders);
  }

  /** The leader raises the high watermark to what enough replicas hold. */
  lemma RaiseKeeps(v: View, s: State, s': State, e: Entry, holders: set<nat>)
    requires Invariant(v, s)
    requires e == s.latest.(highWatermark := e.highWatermark) && e.highWatermark >= s.latest.highWatermark
    requires s'.latest == e && s'.live == s.live && s'.acked == s.acked && s'.messages == s.messages + {Announce(e)}
    requires s'.brokers.Keys == s.brokers.Keys
    requires forall b :: b in s.brokers ==> s'.brokers[b].log == s.brokers[b].log
    requires forall b :: b in s.live ==> EntryOk(v, s', b, s'.brokers[b].entry)
    requires holders <= v.replicas && |holders| >= v.minInSync
    requires forall b :: b in holders ==> Holds(s, s.brokers[b].log, e.highWatermark)
    requires e.highWatermark <= |LeaderLog(s)|
    ensures Invariant(v, s')
  {
    assert forall m :: m in s.messages ==> MessageOk(v, s', m);
    assert HeldBy(v, s', holders);
  }

  /** A new epoch in which every live broker keeps at most the committed records. */
  lemma NewEpochKeeps(v: View, s: State, s': State, e: Entry)
    requires Invariant(v, s)
    requires e.leader in s.live && e.leader in v.replicas
    requires e.epoch == s.latest.epoch + 1 && e.highWatermark == s.latest.highWatermark
    requires e.highWatermark <= |s.brokers[e.leader].log|
    requires s'.latest == e && s'.live == s.live && s'.acked == s.acked && s'.messages == s.messages + {Announce(e)}
    requires s'.brokers.Keys == s.brokers.Keys
    requires forall b :: b in s.brokers && b !in s.live ==> s'.brokers[b] == s.brokers[b]
    requires forall b :: b in s.live ==> s'.brokers[b] == Broker(Truncated(s.brokers[b].log, e.highWatermark), e)
    ensures Invariant(v, s')
  {
    NewEpochLogs(v, s, s', e);
    assert forall m :: m in s.messages ==> MessageOk(v, s', m);
    var holders :| HeldBy(v, s, holders);
    assert HeldBy(v, s', holders);
  }

  lemma NewEpochLogs(v: View, s: State, s': State, e: Entry)
    requires WellFormed(v, s) && Agreement(v, s) && LogsArePrefixes(v, s)
    requires e.leader in s.live && e.leader in v.replicas && e.highWatermark == s.latest.highWatermark
    requires e.highWatermark <= |s.brokers[e.leader].log|
    requires s'.latest == e && s'.live == s.live && s'.brokers.Keys == s.brokers.Keys
    requires forall b :: b in s.brokers && b !in s.live ==> s'.brokers[b] == s.brokers[b]
    requires forall b :: b in s.live ==> s'.brokers[b] == Broker(Truncated(s.brokers[b].log, e.highWatermark), e)
    ensures WellFormed(v, s') && Agreement(v, s') && LogsArePrefixes(v, s')
    ensures LeaderLog(s') == LeaderLog(s)[..e.highWatermark]
  {
    assert s.brokers[e.leader].log <= LeaderLog(s);
    forall b | b in s.live
      ensures s'.brokers[b].log <= LeaderLog(s)[..e.highWatermark]
    {
      assert s.brokers[b].log <= LeaderLog(s);
      PrefixByLength(s.brokers[b].log, LeaderLog(s), e.highWatermark);
    }
  }

  lemma StopKeeps(v: View, s: State, live: set<nat>)
    requires Invariant(v, s) && live <= s.live
    ensures Invariant(v, s.(live := live))
  {
    var s' := s.(live := live);
    assert forall m :: m in s.messages ==> MessageOk(v, s', m);
    var holders :| HeldBy(v, s, holders);
    assert HeldBy(v, s', holders);
  }

  // ---------------------------------------------------------------- every step keeps the invariant

  ghost predicate Fits(top: Topology, v: View)
    requires top.Valid()
  {
    v == AcrossEpochs(top) || v == WithinEpoch(top)
  }

  /** Steps of one epoch: no promotion, and only the leader replicates and commits. Nothing is assumed to arrive. */
  predicate Steady(top: Topology, s: State, step: Step)
    requires top.Valid()
  {
    match step
    case Append(b, _) => Leads(s, b)
    case SendRecord(b, _, o, r) => TakenAsLeader(s, b, o, r)
    case Commit(b, o, r, ackers, _) => InEpoch(top, s, b, o, r, ackers)
    case Promote(_, _, _) => false
    case _ => true
  }

  ghost predicate Permitted(top: Topology, v: View, s: State, step: Step)
    requires top.Valid()
  {
    if v == AcrossEpochs(top) then Allowed(top, s, step) else Steady(top, s, step)
  }

  lemma InitInvariant(top: Topology, v: View)
    requires top.Valid() && Fits(top, v)
    ensures Invariant(v, Init(top))
  {
    top.ReplicaPlacement();
    assert HeldBy(v, Init(top), top.Replicas());
  }

  lemma AppendKeeps(top: Topology, v: View, s: State, b: nat, r: Payload)
    requires top.Valid() && Fits(top, v) && Invariant(v, s) && Leads(s, b)
    ensures Invariant(v, Next(top, s, Append(b, r)))
  {
    UpdateKeeps(v, s, b, s.brokers[b].(log := s.brokers[b].log + [r]));
  }

  lemma ReadBackKeeps(top: Topology, v: View, s: State, b: nat, o: nat)
    requires top.Valid() && Fits(top, v) && Invariant(v, s)
    ensures Invariant(v, Next(top, s, ReadBack(b, o)))
  {
    if b in s.live && b in s.brokers && o < |s.brokers[b].log| {
      SentKeeps(v, s, Pending(b, s.brokers[b].entry.epoch, o, s.brokers[b].log[o]));
    }
  }

  lemma ServeKeeps(top: Topology, v: View, s: State, b: nat, o: nat)
    requires top.Valid() && Fits(top, v) && Invariant(v, s)
    ensures Invariant(v, Next(top, s, ServeFetch(b, o)))
  {
    if Leads(s, b) && o < |s.brokers[b].log| && o < s.brokers[b].entry.highWatermark {
      SentKeeps(v, s, Fetched(o, s.brokers[b].log[o]));
    }
  }

  lemma FollowerIsOther(top: Topology, b: nat, to: nat)
    requires top.Valid() && to in top.Followers(b)
    ensures to in top.Replicas() && to != b
  {
    top.FollowersAreOtherReplicas(b);
  }

  lemma TakenIsSent(v: View, s: State, b: nat, to: nat, o: nat, r: Payload)
    requires Invariant(v, s) && TakenAsLeader(s, b, o, r) && to in v.replicas && to != b
    ensures MessageOk(v, s, Replicate(to, Replication(o, r, b, s.brokers[b].entry.epoch)))
  {
    assert EntryOk(v, s, b, s.brokers[b].entry);
    assert MessageOk(v, s, Pending(b, s.brokers[b].entry.epoch, o, r));
  }

  lemma SendKeeps(top: Topology, v: View, s: State, b: nat, to: nat, o: nat, r: Payload)
    requires top.Valid() && Fits(top, v) && Invariant(v, s) && TakenAsLeader(s, b, o, r)
    ensures Invariant(v, Next(top, s, SendRecord(b, to, o, r)))
  {
    if to in top.Followers(b) {
      FollowerIsOther(top, b, to);
      SendSends(top, s, b, to, o, r);
      TakenIsSent(v, s, b, to, o, r);
      SentKeeps(v, s, Replicate(to, Replication(o, r, b, s.brokers[b].entry.epoch)));
    }
  }

  lemma SendSends(top: Topology, s: State, b: nat, to: nat, o: nat, r: Payload)
    requires top.Valid() && TakenAsLeader(s, b, o, r) && to in top.Followers(b)
    ensures Next(top, s, SendRecord(b, to, o, r))
            == s.(messages := s.messages + {Replicate(to, Replication(o, r, b, s.brokers[b].entry.epoch))})
  {
  }

  lemma ReceiveKeeps(top: Topology, v: View, s: State, to: nat, body: Replication)
    requires top.Valid() && Fits(top, v) && Invariant(v, s)
    ensures Invariant(v, Next(top, s, ReceiveRecord(to, body)))
  {
    if to in s.live && to in s.brokers && Replicate(to, body) in s.messages {
      StoreKeeps(v, top.nodes, s, to, body);
    }
  }

  /** Fencing admits only records of the current epoch, and those the current leader holds at their offset. */
  lemma StoreKeeps(v: View, nodes: seq<nat>, s: State, to: nat, body: Replication)
    requires Invariant(v, s) && to in s.live && Replicate(to, body) in s.messages
    ensures var h := HandleReplication(nodes, s.brokers[to], body);
            var messages := if h.reply.Success? then s.messages + {Acknowledge(to, body.epoch, h.reply.value)} else s.messages;
            Invariant(v, s.(brokers := s.brokers[to := h.broker], messages := messages))
  {
    var b := s.brokers[to];
    var h := HandleReplication(nodes, b, body);
    assert MessageOk(v, s, Replicate(to, body));
    if h.reply.Success? {
      assert body.epoch == s.latest.epoch && to != s.latest.leader;
      assert b.log <= h.broker.log <= LeaderLog(s) && h.reply.value == |h.broker.log|;
      UpdateKeeps(v, s, to, h.broker);
      var s1 := s.(brokers := s.brokers[to := h.broker]);
      assert LeaderLog(s1) == LeaderLog(s);
      SentKeeps(v, s1, Acknowledge(to, body.epoch, h.reply.value));
    } else {
      assert h.broker == b;
      assert s.brokers[to := b] == s.brokers;
      assert s.(brokers := s.brokers[to := h.broker], messages := s.messages) == s;
    }
  }

  lemma CommitKeeps(top: Topology, v: View, s: State, step: Step)
    requires top.Valid() && Fits(top, v) && Invariant(v, s) && step.Commit? && Permitted(top, v, s, step)
    ensures Invariant(v, Next(top, s, step))
  {
    var b, o, r := step.broker, step.offset, step.record;
    if Taken(s, b, o, r) && Counted(top, s, b, o, step.ackers) {
      top.FollowersAreOtherReplicas(b);
      CommitAtKeeps(top, v, s, b, o, r, step.ackers, step.reached);
    }
  }

  lemma CommitAtKeeps(top: Topology, v: View, s: State, b: nat, o: nat, r: Payload, ackers: set<nat>, reached: bool)
    requires top.Valid() && Invariant(v, s) && v.informed <= {top.Controller()} && s.latest.leader in top.nodes
    requires Leads(s, b) && Pending(b, s.brokers[b].entry.epoch, o, r) in s.messages && |ackers| + 1 >= v.minInSync
    requires forall f :: f in ackers ==> f in v.replicas && f != b && Acknowledged(s, f, s.brokers[b].entry.epoch, o)
    requires reached || v.informed == {} || top.Controller() !in s.live
    ensures Invariant(v, CommitAt(top, s, b, o, r, reached))
  {
    assert b == s.latest.leader && s.brokers[b].entry == s.latest;
    assert MessageOk(v, s, Pending(b, s.latest.epoch, o, r));
    if o + 1 > s.latest.highWatermark {
      var e := s.latest.(highWatermark := o + 1);
      forall f | f in ackers
        ensures Holds(s, s.brokers[f].log, o + 1)
      {
        AckerHolds(v, s, f, o);
      }
      CommitRaises(top, v, s, b, o, r, reached, e);
      var s' := CommitAt(top, s, b, o, r, reached).(acked := s.acked);
      RaiseKeeps(v, s, s', e, ackers + {b});
      AckKeeps(v, s', o);
    } else {
      AckKeeps(v, s, o);
    }
  }

  lemma AckerHolds(v: View, s: State, f: nat, o: nat)
    requires Invariant(v, s) && Acknowledged(s, f, s.latest.epoch, o)
    ensures f in s.brokers && Holds(s, s.brokers[f].log, o + 1)
  {
    var m :| m in s.messages && m.Acknowledge? && m.from == f && m.epoch == s.latest.epoch && m.nextOffset > o;
    assert MessageOk(v, s, m);
    PrefixHolds(s, s.brokers[f].log, m.nextOffset, o + 1);
  }

  lemma CommitRaises(top: Topology, v: View, s: State, b: nat, o: nat, r: Payload, reached: bool, e: Entry)
    requires top.Valid() && Invariant(v, s) && v.informed <= {top.Controller()} && s.latest.leader in top.nodes
    requires b in s.live && b == s.latest.leader && s.brokers[b].entry == s.latest
    requires e == s.latest.(highWatermark := o + 1) && o + 1 > s.latest.highWatermark
    requires reached || v.informed == {} || top.Controller() !in s.live
    ensures var s' := CommitAt(top, s, b, o, r, reached);
            && s'.latest == e && s'.live == s.live && s'.messages == s.messages + {Announce(e)}
            && s'.brokers.Keys == s.brokers.Keys
            && (forall x :: x in s.brokers ==> s'.brokers[x].log == s.brokers[x].log)
            && (forall x :: x in s.live ==> EntryOk(v, s', x, s'.brokers[x].entry))
  {
    var s', c := CommitAt(top, s, b, o, r, reached), top.Controller();
    assert forall x :: x in s.live ==> EntryOk(v, s, x, s.brokers[x].entry);
    if c in s.live && reached && c != b {
      assert Adopt(top.nodes, Some(s.brokers[c].entry), e) == Success(e);
      assert s'.brokers[c] == Broker(s.brokers[c].log, e);
    }
  }

  /** The client is told that a record below the high watermark is durable. */
  lemma AckKeeps(v: View, s: State, o: nat)
    requires Invariant(v, s) && o < s.latest.highWatermark
    ensures Invariant(v, s.(acked := s.acked + {(o, LeaderLog(s)[o])}))
  {
    var s' := s.(acked := s.acked + {(o, LeaderLog(s)[o])});
    assert forall m :: m in s.messages ==> MessageOk(v, s', m);
    var holders :| HeldBy(v, s, holders);
    assert HeldBy(v, s', holders);
  }

  lemma PrefixHolds(s: State, log: Log, n: nat, k: nat)
    requires s.latest.leader in s.brokers && Holds(s, log, n) && k <= n
    ensures Holds(s, log, k)
  {
    assert log[..k] == log[..n][..k];
    assert LeaderLog(s)[..k] == LeaderLog(s)[..n][..k];
  }

  lemma AnnouncementKeeps(top: Topology, v: View, s: State, b: nat, e: Entry)
    requires top.Valid() && Fits(top, v) && Invariant(v, s)
    ensures Invariant(v, Next(top, s, ReceiveAnnouncement(b, e)))
  {
    if b in s.live && b in s.brokers && Announce(e) in s.messages {
      assert MessageOk(v, s, Announce(e));
      UpdateKeeps(v, s, b, HandleApply(top.nodes, s.brokers[b], e).broker);
    }
  }

  lemma SyncKeeps(top: Topology, v: View, s: State, b: nat)
    requires top.Valid() && Fits(top, v) && Invariant(v, s)
    ensures Invariant(v, Next(top, s, SyncMetadata(b)))
  {
    var s' := Next(top, s, SyncMetadata(b));
    if s' != s {
      UpdateKeeps(v, s, b, s'.brokers[b]);
    }
  }

  lemma PromoteKeeps(top: Topology, v: View, s: State, step: Step)
    requires top.Valid() && v == AcrossEpochs(top) && Invariant(v, s) && step.Promote? && Allowed(top, s, step)
    ensures Invariant(v, Next(top, s, step))
  {
    if MayPromote(top, s, step.candidate, step.answered) {
      ReplicaIsNode(top, step.candidate);
      PromotedKeeps(top, v, s, step.candidate, step.told);
    }
  }

  lemma ReplicaIsNode(top: Topology, b: nat)
    requires top.Valid() && top.IsReplica(b)
    ensures b in top.Replicas() && b in top.nodes
  {
    top.ReplicaPlacement();
  }

  lemma PromotedKeeps(top: Topology, v: View, s: State, candidate: nat, told: set<nat>)
    requires top.Valid() && Invariant(v, s) && v.informed == {top.Controller()}
    requires top.Controller() in s.live && candidate in s.live && candidate in v.replicas && candidate in top.nodes
    requires |s.brokers[candidate].log| >= s.latest.highWatermark
    requires s.live <= told && ControllerHasNoTail(top, s, candidate)
    ensures Invariant(v, Promoted(top, s, candidate, told))
  {
    var s', e := Promoted(top, s, candidate, told), PromotedEntry(top, s, candidate);
    forall b | b in s.live
      ensures s'.brokers[b] == Broker(Truncated(s.brokers[b].log, e.highWatermark), e)
    {
      assert EntryOk(v, s, b, s.brokers[b].entry);
    }
    NewEpochKeeps(v, s, s', e);
  }

  lemma RecoverKeeps(top: Topology, v: View, s: State, b: nat, o: nat, r: Payload)
    requires top.Valid() && Fits(top, v) && Invariant(v, s)
    ensures Invariant(v, Next(top, s, Recover(b, o, r)))
  {
    if b in s.live && b in s.brokers && top.IsReplica(b) && Fetched(o, r) in s.messages {
      top.ReplicaPlacement();
      RecoveredKeeps(v, s, b, o, r);
    }
  }

  lemma RecoveredKeeps(v: View, s: State, b: nat, o: nat, r: Payload)
    requires Invariant(v, s) && b in s.live && b in v.replicas && Fetched(o, r) in s.messages
    ensures var stored := AppendReplica(s.brokers[b].log, o, r);
            stored.Success? ==> Invariant(v, s.(brokers := s.brokers[b := s.brokers[b].(log := stored.value)]))
  {
    assert MessageOk(v, s, Fetched(o, r));
    var stored := AppendReplica(s.brokers[b].log, o, r);
    if stored.Success? {
      UpdateKeeps(v, s, b, s.brokers[b].(log := stored.value));
    }
  }

  lemma StepKeeps(top: Topology, v: View, s: State, step: Step)
    requires top.Valid() && Fits(top, v) && Invariant(v, s) && Permitted(top, v, s, step)
    ensures Invariant(v, Next(top, s, step))
  {
    match step
    case Append(b, r) => AppendKeeps(top, v, s, b, r);
    case ReadBack(b, o) => ReadBackKeeps(top, v, s, b, o);
    case SendRecord(b, to, o, r) => SendKeeps(top, v, s, b, to, o, r);
    case ReceiveRecord(to, body) => ReceiveKeeps(top, v, s, to, body);
    case Commit(_, _, _, _, _) => CommitKeeps(top, v, s, step);
    case ReceiveAnnouncement(b, e) => AnnouncementKeeps(top, v, s, b, e);
    case SyncMetadata(b) => SyncKeeps(top, v, s, b);
    case Promote(_, _, _) => PromoteKeeps(top, v, s, step);
    case ServeFetch(b, o) => ServeKeeps(top, v, s, b, o);
    case Recover(b, o, r) => RecoverKeeps(top, v, s, b, o, r);
    case Crash(b) => StopKeeps(v, s, s.live - {b});
  }

  lemma {:induction false} RunKeeps(top: Topology, steps: seq<Step>)
    requires top.Valid() && AllowedRun(top, steps)
    ensures Invariant(AcrossEpochs(top), Run(top, steps))
  {
    if steps == [] {
      InitInvariant(top, AcrossEpochs(top));
    } else {
      var init := steps[..|steps| - 1];
      RunKeeps(top, init);
      StepKeeps(top, AcrossEpochs(top), Run(top, init), steps[|steps| - 1]);
    }
  }

  /** Across epochs more is kept: a live controller also knows the newest leadership entry. */
  lemma AcrossIsWithin(top: Topology, s: State)
    requires top.Valid() && Invariant(AcrossEpochs(top), s)
    ensures Invariant(WithinEpoch(top), s)
    ensures top.Controller() in s.live ==> s.brokers[top.Controller()].entry == s.latest
  {
    var across, within := AcrossEpochs(top), WithinEpoch(top);
    var holders :| HeldBy(across, s, holders);
    assert HeldBy(within, s, holders);
    assert forall b :: b in s.live ==> EntryOk(across, s, b, s.brokers[b].entry);
    assert forall m :: MessageOk(across, s, m) ==> MessageOk(within, s, m);
  }

  // ---------------------------------------------------------------- theorems

  /**
   Committed records survive any number of leader changes: in every allowed run each live log is a prefix of the
   current leader's, and a record acknowledged at any earlier point is at its offset, unchanged and committed, there.
   */
  lemma {:induction false} AcknowledgedRecordsSurvive(top: Topology, steps: seq<Step>, later: seq<Step>)
    requires top.Valid() && AllowedRun(top, steps + later)
    ensures var s := Run(top, steps + later);
            && s.latest.leader in s.brokers
            && (forall b :: b in s.live ==> b in s.brokers && s.brokers[b].log <= LeaderLog(s))
            && (forall a :: a in Run(top, steps).acked ==> Committed(s, a.0, a.1))
  {
    RunKeeps(top, steps + later);
    AckedOnlyGrows(top, steps, later);
  }

  lemma {:induction false} AckedOnlyGrows(top: Topology, steps: seq<Step>, later: seq<Step>)
    requires top.Valid()
    ensures Run(top, steps).acked <= Run(top, steps + later).acked
    decreases |later|
  {
    if later == [] {
      assert steps + later == steps;
    } else {
      var init := later[..|later| - 1];
      AckedOnlyGrows(top, steps, init);
      assert (steps + later)[..|steps + later| - 1] == steps + init;
      AckedByStep(top, Run(top, steps + init), later[|later| - 1]);
    }
  }

  lemma AckedByStep(top: Topology, s: State, step: Step)
    requires top.Valid()
    ensures s.acked <= Next(top, s, step).acked
  {
  }

  /** What a live broker serves to consumers at offset `o`: a record below the high watermark it knows. */
  ghost predicate Serves(s: State, b: nat, o: nat, r: Payload) {
    && b in s.live && b in s.brokers && o < |s.brokers[b].log| && o < s.brokers[b].entry.highWatermark
    && r == s.brokers[b].log[o]
  }

  lemma CommittedStays(top: Topology, s: State, step: Step, o: nat, r: Payload)
    requires top.Valid() && Invariant(AcrossEpochs(top), s) && Allowed(top, s, step) && Committed(s, o, r)
    ensures Committed(Next(top, s, step), o, r)
  {
    var v, noted := AcrossEpochs(top), s.(acked := s.acked + {(o, r)});
    NotedKeeps(v, s, o, r);
    StepKeeps(top, v, noted, step);
    AckedByStep(top, noted, step);
    assert Committed(Next(top, noted, step), o, r);
    AckedIsHistory(top, s, step, noted.acked);
  }

  lemma NotedKeeps(v: View, s: State, o: nat, r: Payload)
    requires Invariant(v, s) && Committed(s, o, r)
    ensures Invariant(v, s.(acked := s.acked + {(o, r)}))
  {
    var noted := s.(acked := s.acked + {(o, r)});
    var holders :| HeldBy(v, s, holders);
    assert HeldBy(v, noted, holders);
    assert forall m :: MessageOk(v, s, m) ==> MessageOk(v, noted, m);
  }

  /** No step depends on what was acknowledged. */
  lemma AckedIsHistory(top: Topology, s: State, step: Step, acked: set<(nat, Payload)>)
    requires top.Valid()
    ensures var a, b := Next(top, s, step), Next(top, s.(acked := acked), step);
            a.brokers == b.brokers && a.latest == b.latest
  {
    match step
    case Promote(_, _, _) => PromoteIgnoresAcked(top, s, step, acked);
    case Commit(_, _, _, _, _) => CommitIgnoresAcked(top, s, step, acked);
    case _ =>
  }

  lemma PromoteIgnoresAcked(top: Topology, s: State, step: Step, acked: set<(nat, Payload)>)
    requires top.Valid() && step.Promote?
    ensures var a, b := Next(top, s, step), Next(top, s.(acked := acked), step);
            a.brokers == b.brokers && a.latest == b.latest
  {
  }

  lemma CommitIgnoresAcked(top: Topology, s: State, step: Step, acked: set<(nat, Payload)>)
    requires top.Valid() && step.Commit?
    ensures var a, b := Next(top, s, step), Next(top, s.(acked := acked), step);
            a.brokers == b.brokers && a.latest == b.latest
  {
  }

  /**
   Consumers never see a record change: whatever any live broker serves at any point of an allowed run stays committed at
   its offset, and every broker that serves that offset later serves the same record.
   */
  lemma ServedRecordsNeverChange(top: Topology, steps: seq<Step>, later: seq<Step>, b: nat, o: nat, r: Payload)
    requires top.Valid() && AllowedRun(top, steps + later) && Serves(Run(top, steps), b, o, r)
    ensures Run(top, steps + later).latest.leader in Run(top, steps + later).brokers
    ensures Committed(Run(top, steps + later), o, r)
    ensures forall b', r' :: Serves(Run(top, steps + later), b', o, r') ==> r' == r
  {
    ServedStaysCommitted(top, steps, later, b, o, r);
    RunKeeps(top, steps + later);
    forall b', r' | Serves(Run(top, steps + later), b', o, r')
      ensures r' == r
    {
      ServedIsCommitted(AcrossEpochs(top), Run(top, steps + later), b', o, r');
    }
  }

  lemma ServedIsCommitted(v: View, s: State, b: nat, o: nat, r: Payload)
    requires Invariant(v, s) && Serves(s, b, o, r)
    ensures Committed(s, o, r)
  {
    assert EntryOk(v, s, b, s.brokers[b].entry);
    assert s.brokers[b].log <= LeaderLog(s);
  }

  lemma {:induction false} ServedStaysCommitted(top: Topology, steps: seq<Step>, later: seq<Step>, b: nat, o: nat, r: Payload)
    requires top.Valid() && AllowedRun(top, steps + later) && Serves(Run(top, steps), b, o, r)
    ensures Run(top, steps + later).latest.leader in Run(top, steps + later).brokers
    ensures Committed(Run(top, steps + later), o, r)
    decreases |later|
  {
    if later == [] {
      assert steps + later == steps;
      RunKeeps(top, steps);
      ServedIsCommitted(AcrossEpochs(top), Run(top, steps), b, o, r);
    } else {
      LastStep(top, steps, later);
      ServedStaysCommitted(top, steps, later[..|later| - 1], b, o, r);
      RunKeeps(top, steps + later[..|later| - 1]);
      CommittedSurvivesStep(top, Run(top, steps + later[..|later| - 1]), later[|later| - 1], o, r);
    }
  }

  lemma LastStep(top: Topology, steps: seq<Step>, later: seq<Step>)
    requires top.Valid() && later != []
    ensures var init, last := steps + later[..|later| - 1], later[|later| - 1];
            && Run(top, steps + later) == Next(top, Run(top, init), last)
            && (AllowedRun(top, steps + later) ==> AllowedRun(top, init) && Allowed(top, Run(top, init), last))
  {
    LastOfAll(steps, later);
    RunUnfolds(top, steps + later, steps + later[..|later| - 1], later[|later| - 1]);
  }

  lemma LastOfAll(steps: seq<Step>, later: seq<Step>)
    requires later != []
    ensures steps + later == steps + later[..|later| - 1] + [later[|later| - 1]]
  {
  }

  lemma RunUnfolds(top: Topology, all: seq<Step>, init: seq<Step>, last: Step)
    requires top.Valid() && all == init + [last]
    ensures Run(top, all) == Next(top, Run(top, init), last)
    ensures AllowedRun(top, all) ==> AllowedRun(top, init) && Allowed(top, Run(top, init), last)
  {
    assert all[..|all| - 1] == init;
  }

  lemma CommittedSurvivesStep(top: Topology, s: State, step: Step, o: nat, r: Payload)
    requires top.Valid() && Invariant(AcrossEpochs(top), s) && Allowed(top, s, step) && Committed(s, o, r)
    ensures var s' := Next(top, s, step); s'.latest.leader in s'.brokers && Committed(s', o, r)
  {
    StepKeeps(top, AcrossEpochs(top), s, step);
    CommittedStays(top, s, step, o, r);
  }

  /** Everything below the high watermark is stored by `minInSync` distinct replicas, identically and in every allowed run. */
  lemma HighWatermarkIsHeld(top: Topology, steps: seq<Step>) returns (holders: set<nat>)
    requires top.Valid() && AllowedRun(top, steps)
    ensures var s := Run(top, steps);
            && holders <= top.Replicas() && |holders| >= top.minInSync
            && s.latest.leader in s.brokers
            && (forall b :: b in holders ==> b in s.brokers && Holds(s, s.brokers[b].log, s.latest.highWatermark))
            && (forall b :: b in s.live ==> b in s.brokers && s.brokers[b].entry.highWatermark <= s.latest.highWatermark)
  {
    RunKeeps(top, steps);
    holders :| HeldBy(AcrossEpochs(top), Run(top, steps), holders);
  }

  /** `n` steps of one epoch from `s`. */
  ghost function Continue(top: Topology, s: State, steps: seq<Step>): State
    requires top.Valid()
  {
    if steps == [] then s else Next(top, Continue(top, s, steps[..|steps| - 1]), steps[|steps| - 1])
  }

  ghost predicate SteadyRun(top: Topology, s: State, steps: seq<Step>)
    requires top.Valid()
  {
    steps != [] ==>
      && SteadyRun(top, s, steps[..|steps| - 1])
      && Steady(top, Continue(top, s, steps[..|steps| - 1]), steps[|steps| - 1])
  }

  /**
   Within one epoch no delivery is assumed. From any state whose live logs are prefixes of the leader's, every
   interleaving of appends, lost, repeated or reordered replication, catch-up, recovery and crashes keeps them so, and
   no broker's high watermark passes what `minInSync` distinct replicas store.
   */
  lemma {:induction false} OneEpochKeepsPrefixes(top: Topology, s: State, steps: seq<Step>) returns (holders: set<nat>)
    requires top.Valid() && Invariant(WithinEpoch(top), s) && SteadyRun(top, s, steps)
    ensures var s' := Continue(top, s, steps);
            && Invariant(WithinEpoch(top), s')
            && s'.latest.leader == s.latest.leader && s'.latest.epoch == s.latest.epoch
            && holders <= top.Replicas() && |holders| >= top.minInSync
            && (forall b :: b in s'.live ==>
                              && b in s'.brokers && s'.brokers[b].log <= LeaderLog(s')
                              && forall h :: h in holders ==>
                                               && h in s'.brokers
                                               && s'.brokers[b].entry.highWatermark <= |s'.brokers[h].log|)
  {
    SteadyRunKeeps(top, s, steps);
    holders := WatermarksAreHeld(WithinEpoch(top), Continue(top, s, steps));
  }

  lemma WatermarksAreHeld(v: View, s: State) returns (holders: set<nat>)
    requires Invariant(v, s)
    ensures holders <= v.replicas && |holders| >= v.minInSync
    ensures forall b :: b in s.live ==>
                          && s.brokers[b].log <= LeaderLog(s)
                          && forall h :: h in holders ==> s.brokers[b].entry.highWatermark <= |s.brokers[h].log|
  {
    holders :| HeldBy(v, s, holders);
    assert forall b :: b in s.live ==> EntryOk(v, s, b, s.brokers[b].entry);
  }

  lemma {:induction false} SteadyRunKeeps(top: Topology, s: State, steps: seq<Step>)
    requires top.Valid() && Invariant(WithinEpoch(top), s) && SteadyRun(top, s, steps)
    ensures Invariant(WithinEpoch(top), Continue(top, s, steps))
    ensures var l := Continue(top, s, steps).latest; l.leader == s.latest.leader && l.epoch == s.latest.epoch
  {
    if steps != [] {
      var init := steps[..|steps| - 1];
      SteadyRunKeeps(top, s, init);
      StepKeeps(top, WithinEpoch(top), Continue(top, s, init), steps[|steps| - 1]);
      SteadyKeepsEpoch(top, Continue(top, s, init), steps[|steps| - 1]);
    }
  }

  lemma SteadyKeepsEpoch(top: Topology, s: State, step: Step)
    requires top.Valid() && Invariant(WithinEpoch(top), s) && Steady(top, s, step)
    ensures var l := Next(top, s, step).latest; l.leader == s.latest.leader && l.epoch == s.latest.epoch
  {
    if step.Commit? {
      assert EntryOk(WithinEpoch(top), s, step.broker, s.brokers[step.broker].entry);
    }
  }

  // ---------------------------------------------------------------- what one promotion keeps, and when

  /** The brokers that cut nothing: a controller that is not the candidate, and those that the broadcast misses. */
  predicate KeepsLog(top: Topology, candidate: nat, told: set<nat>, b: nat)
    requires top.Valid()
  {
    if b == top.Controller() then candidate != b else b !in told
  }

  /** Where the new leader's log ends: at the high watermark the controller knows, unless it does not hear of its promotion. */
  function NewEnd(top: Topology, s: State, candidate: nat, told: set<nat>): nat
    requires top.Valid() && top.Controller() in s.brokers && candidate in s.brokers
  {
    if KeepsLog(top, candidate, told, candidate) then |s.brokers[candidate].log|
    else s.brokers[top.Controller()].entry.highWatermark
  }

  /** No live broker keeps records beyond the end of the new leader's log. */
  predicate NoTailSurvives(top: Topology, s: State, candidate: nat, told: set<nat>)
    requires top.Valid() && top.Controller() in s.brokers && candidate in s.brokers && s.live <= s.brokers.Keys
  {
    forall b :: b in s.live && KeepsLog(top, candidate, told, b) ==> |s.brokers[b].log| <= NewEnd(top, s, candidate, told)
  }

  /** What a promotion leaves of a live broker's log. */
  lemma PromotedLog(top: Topology, s: State, candidate: nat, told: set<nat>, b: nat)
    requires top.Valid() && Invariant(WithinEpoch(top), s) && top.Controller() in s.live && b in s.live
    ensures top.Controller() in s.brokers && b in s.brokers
    ensures b in Promoted(top, s, candidate, told).brokers
    ensures Promoted(top, s, candidate, told).brokers[b].log
            == if KeepsLog(top, candidate, told, b) then s.brokers[b].log
               else Truncated(s.brokers[b].log, s.brokers[top.Controller()].entry.highWatermark)
  {
    assert EntryOk(WithinEpoch(top), s, b, s.brokers[b].entry);
    assert EntryOk(WithinEpoch(top), s, top.Controller(), s.brokers[top.Controller()].entry);
    PromotedState(top, s, candidate, told);
  }

  /** The new leader starts with the old leader's records up to its new end. */
  lemma PromotedLeaderLog(top: Topology, s: State, candidate: nat, answered: set<nat>, told: set<nat>)
    requires top.Valid() && Invariant(WithinEpoch(top), s) && MayPromote(top, s, candidate, answered)
    ensures candidate in s.brokers
    ensures var end := NewEnd(top, s, candidate, told);
            && s.brokers[top.Controller()].entry.highWatermark <= end <= |LeaderLog(s)|
            && LeaderLog(Promoted(top, s, candidate, told)) == LeaderLog(s)[..end]
  {
    CandidateHolds(top, s, candidate, answered);
    PromotedLog(top, s, candidate, told, candidate);
    EndOfLeader(s, Promoted(top, s, candidate, told), candidate, KeepsLog(top, candidate, told, candidate),
                s.brokers[top.Controller()].entry.highWatermark);
  }

  lemma CandidateHolds(top: Topology, s: State, candidate: nat, answered: set<nat>)
    requires top.Valid() && Invariant(WithinEpoch(top), s) && MayPromote(top, s, candidate, answered)
    ensures top.Controller() in s.live && candidate in s.live
    ensures s.brokers[top.Controller()].entry.highWatermark <= |s.brokers[candidate].log|
    ensures s.brokers[candidate].log <= LeaderLog(s)
  {
  }

  lemma EndOfLeader(s: State, s': State, candidate: nat, keeps: bool, known: nat)
    requires s.latest.leader in s.brokers && candidate in s.brokers && candidate in s'.brokers && s'.latest.leader == candidate
    requires s.brokers[candidate].log <= LeaderLog(s) && known <= |s.brokers[candidate].log|
    requires s'.brokers[candidate].log == if keeps then s.brokers[candidate].log else Truncated(s.brokers[candidate].log, known)
    ensures LeaderLog(s') == LeaderLog(s)[..if keeps then |s.brokers[candidate].log| else known]
  {
    CutByLength(s.brokers[candidate].log, LeaderLog(s), known);
  }

  lemma CutByLength(log: Log, whole: Log, n: nat)
    requires log <= whole && n <= |log|
    ensures Truncated(log, n) == whole[..n]
  {
  }

  /** A promotion leaves every live log a prefix of the new leader's exactly when no tail survives it. */
  lemma PromotionKeepsPrefixesIff(top: Topology, s: State, candidate: nat, answered: set<nat>, told: set<nat>)
    requires top.Valid() && Invariant(WithinEpoch(top), s) && MayPromote(top, s, candidate, answered)
    ensures (forall b :: b in s.live ==> StaysPrefix(top, s, candidate, told, b)) <==> NoTailSurvives(top, s, candidate, told)
  {
    forall b | b in s.live
      ensures StaysPrefix(top, s, candidate, told, b)
              <==> (KeepsLog(top, candidate, told, b) ==> |s.brokers[b].log| <= NewEnd(top, s, candidate, told))
    {
      PrefixIffNoTail(top, s, candidate, answered, told, b);
    }
  }

  ghost predicate StaysPrefix(top: Topology, s: State, candidate: nat, told: set<nat>, b: nat)
    requires top.Valid() && top.Controller() in s.brokers && candidate in s.brokers
  {
    var s' := Promoted(top, s, candidate, told);
    b in s'.brokers && s'.brokers[b].log <= LeaderLog(s')
  }

  lemma PrefixIffNoTail(top: Topology, s: State, candidate: nat, answered: set<nat>, told: set<nat>, b: nat)
    requires top.Valid() && Invariant(WithinEpoch(top), s) && MayPromote(top, s, candidate, answered) && b in s.live
    ensures candidate in s.brokers && b in s.brokers
    ensures StaysPrefix(top, s, candidate, told, b)
            <==> (KeepsLog(top, candidate, told, b) ==> |s.brokers[b].log| <= NewEnd(top, s, candidate, told))
  {
    PromotedLeaderLog(top, s, candidate, answered, told);
    PromotedLog(top, s, candidate, told, b);
    assert s.brokers[b].log <= LeaderLog(s);
    PrefixByLength(s.brokers[b].log, LeaderLog(s), NewEnd(top, s, candidate, told));
    CutIsPrefix(s.brokers[b].log, LeaderLog(s), s.brokers[top.Controller()].entry.highWatermark, NewEnd(top, s, candidate, told));
  }

  lemma PrefixByLength(log: Log, whole: Log, n: nat)
    requires log <= whole && n <= |whole|
    ensures log <= whole[..n] <==> |log| <= n
    ensures Truncated(log, n) <= whole[..n]
  {
  }

  lemma CutIsPrefix(log: Log, whole: Log, known: nat, n: nat)
    requires log <= whole && known <= n <= |whole|
    ensures Truncated(log, known) <= whole[..n]
  {
  }

  /**
   A promotion keeps every committed record exactly when the new leader's log reaches the newest high watermark: only a
   commit whose announcement missed the controller can be undone.
   */
  lemma PromotionKeepsCommittedIff(top: Topology, s: State, candidate: nat, answered: set<nat>, told: set<nat>)
    requires top.Valid() && Invariant(WithinEpoch(top), s) && MayPromote(top, s, candidate, answered)
    ensures candidate in s.brokers && candidate in Promoted(top, s, candidate, told).brokers
    ensures Holds(s, LeaderLog(Promoted(top, s, candidate, told)), s.latest.highWatermark)
            <==> NewEnd(top, s, candidate, told) >= s.latest.highWatermark
  {
    PromotedLeaderLog(top, s, candidate, answered, told);
    CommittedPart(LeaderLog(Promoted(top, s, candidate, told)), LeaderLog(s), NewEnd(top, s, candidate, told),
                  s.latest.highWatermark);
  }

  lemma CommittedPart(log: Log, whole: Log, end: nat, committed: nat)
    requires end <= |whole| && committed <= |whole| && log == whole[..end]
    ensures committed <= |log| && log[..committed] == whole[..committed] <==> committed <= end
  {
  }

  lemma PromotedState(top: Topology, s: State, candidate: nat, told: set<nat>)
    requires top.Valid() && top.Controller() in s.brokers
    ensures var s', e := Promoted(top, s, candidate, told), PromotedEntry(top, s, candidate);
            && s'.live == s.live && s'.acked == s.acked && s'.latest == e && s'.brokers.Keys == s.brokers.Keys
            && (forall b :: b in s.brokers ==> s'.brokers[b] == AfterPromotion(top, s, e, told, b))
  {
  }
}
