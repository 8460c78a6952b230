/** Consumer groups as values: what each request does to the coordinator, and why a generation fences its members. */
module GroupModel {
  import opened Wrappers
  import opened Rebalance

  const U64_MAX: nat := 0xFFFF_FFFF_FFFF_FFFF

  /** Group and topic. */
  type Key = (string, string)
  type Offsets = map<nat, nat>

  datatype GroupError =
    | InvalidId
    | UnknownGroup
    | UnknownMember
    | StaleGeneration(expected: nat, actual: nat)
    | PartitionNotAssigned(partition: nat)
    | GenerationOverflow

  /** `members` maps each member to the time of its last heartbeat. */
  datatype Group = Group(generation: nat, members: map<string, nat>, assignments: Assignments, committed: Offsets)

  datatype Settings = Settings(defaultPartitions: nat, sessionTimeout: nat)

  /** `saved` holds the offset files, `counts` the partition counts announced for topics. */
  datatype Coordinator = Coordinator(groups: map<Key, Group>, saved: map<Key, Offsets>, counts: map<string, nat>) {
    function With(key: Key, g: Group): Coordinator {
      this.(groups := groups[key := g])
    }
  }

  datatype Identity = Identity(group: string, topic: string, member: string, generation: nat) {
    function Key(): Key {
      (group, topic)
    }
  }

  /** The coordinator after a request, and the reply; a refused request may still have changed the coordinator. */
  datatype Outcome<+T> = Outcome(state: Coordinator, reply: Result<T, GroupError>)

  predicate ValidId(id: string) {
    && 0 < |id| <= 249
    && forall c :: c in id ==> '0' <= c <= '9' || 'A' <= c <= 'Z' || 'a' <= c <= 'z' || c in "._-"
  }

  function PartitionCount(settings: Settings, s: Coordinator, topic: string): nat {
    if topic in s.counts then s.counts[topic] else settings.defaultPartitions
  }

  function Elapsed(now: nat, since: nat): nat {
    if now >= since then now - since else 0
  }

  function Alive(g: Group, timeout: nat, now: nat): Group {
    g.(members := map m | m in g.members && Elapsed(now, g.members[m]) <= timeout :: g.members[m])
  }

  ghost function Dealt(members: set<string>, partitions: nat): Assignments {
    if members == {} then map[] else
      assert OrderOf(members) != [] by { SomeoneIsFirst(members); }
      Deal(OrderOf(members), partitions)
  }

  ghost function Rebalanced(g: Group, partitions: nat): Result<Group, GroupError> {
    if g.generation >= U64_MAX then Failure(GenerationOverflow)
    else Success(g.(generation := g.generation + 1, assignments := Dealt(g.members.Keys, partitions)))
  }

  /** Store a group that lost or gained members, rebalanced unless its generation is exhausted. */
  ghost function Resettled(settings: Settings, s: Coordinator, key: Key, g: Group): (o: Outcome<Unit>)
    ensures key in o.state.groups
  {
    match Rebalanced(g, PartitionCount(settings, s, key.1))
    case Success(g') => Outcome(s.With(key, g'), Success(Done))
    case Failure(error) => Outcome(s.With(key, g), Failure(error))
  }

  /** Look a group up; members whose sessions ran out are removed first. */
  ghost function Activate(settings: Settings, s: Coordinator, key: Key, now: nat): (o: Outcome<Unit>)
    ensures o.reply.Success? ==> key in o.state.groups
  {
    if key !in s.groups then Outcome(s, Failure(UnknownGroup))
    else
      var alive := Alive(s.groups[key], settings.sessionTimeout, now);
      if alive == s.groups[key] then Outcome(s, Success(Done)) else Resettled(settings, s, key, alive)
  }

  function Validate(g: Group, member: string, generation: nat): Result<Unit, GroupError> {
    if generation != g.generation then Failure(StaleGeneration(g.generation, generation))
    else if member !in g.members then Failure(UnknownMember)
    else Success(Done)
  }

  /** The offset files of a group for the partitions below `partitions`. */
  function Loaded(saved: map<Key, Offsets>, key: Key, partitions: nat): Offsets {
    if key in saved then map p | p in saved[key] && p < partitions :: saved[key][p] else map[]
  }

  function Saved(saved: map<Key, Offsets>, key: Key, partition: nat, offset: nat): map<Key, Offsets> {
    saved[key := (if key in saved then saved[key] else map[])[partition := offset]]
  }

  /** The group a member joins: a new one starts with the offsets on disk. */
  function Entered(settings: Settings, s: Coordinator, key: Key): Group {
    if key in s.groups then s.groups[key]
    else Group(0, map[], map[], Loaded(s.saved, key, PartitionCount(settings, s, key.1)))
  }

  // ---------------------------------------------------------------- requests

  ghost function Join(settings: Settings, s: Coordinator, key: Key, member: string, now: nat): Outcome<(nat, seq<nat>)> {
    if !ValidId(key.0) || !ValidId(key.1) || !ValidId(member) then Outcome(s, Failure(InvalidId))
    else
      var g := Entered(settings, s, key);
      var alive := Alive(g, settings.sessionTimeout, now);
      var joined := alive.(members := alive.members[member := now]);
      if member !in alive.members || alive != g || g.generation == 0 then
        var o := Resettled(settings, s, key, joined);
        if o.reply.Failure? then Outcome(o.state, Failure(o.reply.error))
        else
          Outcome(o.state, Success((o.state.groups[key].generation, ShareOf(o.state.groups[key].assignments, member))))
      else
        Outcome(s.With(key, joined), Success((g.generation, ShareOf(g.assignments, member))))
  }

  ghost function Heartbeat(settings: Settings, s: Coordinator, id: Identity, now: nat): Outcome<Unit> {
    var o := Activate(settings, s, id.Key(), now);
    if o.reply.Failure? then o
    else
      var g := o.state.groups[id.Key()];
      match Validate(g, id.member, id.generation)
      case Failure(error) => Outcome(o.state, Failure(error))
      case Success(_) => Outcome(o.state.With(id.Key(), g.(members := g.members[id.member := now])), Success(Done))
  }

  ghost function Leave(settings: Settings, s: Coordinator, id: Identity, now: nat): Outcome<Unit> {
    var o := Activate(settings, s, id.Key(), now);
    if o.reply.Failure? then o
    else
      var g := o.state.groups[id.Key()];
      match Validate(g, id.member, id.generation)
      case Failure(error) => Outcome(o.state, Failure(error))
      case Success(_) => Resettled(settings, o.state, id.Key(), g.(members := g.members - {id.member}))
  }

  ghost function AuthorizeFetch(settings: Settings, s: Coordinator, id: Identity, partition: nat, now: nat): (r: Outcome<Unit>)
    ensures r.reply.Success? ==> id.Key() in r.state.groups
  {
    var o := Activate(settings, s, id.Key(), now);
    if o.reply.Failure? then o
    else
      var g := o.state.groups[id.Key()];
      match Validate(g, id.member, id.generation)
      case Failure(error) => Outcome(o.state, Failure(error))
      case Success(_) =>
        if partition in ShareOf(g.assignments, id.member) then Outcome(o.state, Success(Done))
        else Outcome(o.state, Failure(PartitionNotAssigned(partition)))
  }

  ghost function Commit(settings: Settings, s: Coordinator, id: Identity, partition: nat, offset: nat, now: nat): Outcome<Unit> {
    var o := AuthorizeFetch(settings, s, id, partition, now);
    if o.reply.Failure? then o
    else
      var g := o.state.groups[id.Key()];
      var s' := o.state.With(id.Key(), g.(committed := g.committed[partition := offset]));
      Outcome(s'.(saved := Saved(s.saved, id.Key(), partition, offset)), Success(Done))
  }

  /** Every group in turn, in the order of the hash map, until a generation is exhausted. */
  ghost function ExpireSessions(settings: Settings, s: Coordinator, order: seq<Key>, now: nat): Outcome<Unit>
    decreases |order|
  {
    if order == [] then Outcome(s, Success(Done))
    else
      var o := Activate(settings, s, order[0], now);
      if o.reply.Failure? then o else ExpireSessions(settings, o.state, order[1..], now)
  }

  function SetTopicPartitions(s: Coordinator, topic: string, partitions: nat): Coordinator {
    s.(counts := s.counts[topic := partitions],
       groups := map k | k in s.groups ::
         if k.1 == topic then s.groups[k].(committed := s.groups[k].committed + Loaded(s.saved, k, partitions))
         else s.groups[k])
  }

  /** A coordinator that starts on the offset files of an earlier one. */
  function Recovered(settings: Settings, saved: map<Key, Offsets>): Coordinator {
    Coordinator(map k | k in saved :: Group(0, map[], map[], Loaded(saved, k, settings.defaultPartitions)), saved, map[])
  }

  datatype Event =
    | Joins(key: Key, member: string, now: nat)
    | Beats(id: Identity, now: nat)
    | Leaves(id: Identity, now: nat)
    | Fetches(id: Identity, partition: nat, now: nat)
    | Commits(id: Identity, partition: nat, offset: nat, now: nat)
    | Expires(order: seq<Key>, now: nat)
    | Resizes(topic: string, partitions: nat)

  ghost function Next(settings: Settings, s: Coordinator, e: Event): Coordinator {
    match e
    case Joins(key, member, now) => Join(settings, s, key, member, now).state
    case Beats(id, now) => Heartbeat(settings, s, id, now).state
    case Leaves(id, now) => Leave(settings, s, id, now).state
    case Fetches(id, partition, now) => AuthorizeFetch(settings, s, id, partition, now).state
    case Commits(id, partition, offset, now) => Commit(settings, s, id, partition, offset, now).state
    case Expires(order, now) => ExpireSessions(settings, s, order, now).state
    case Resizes(topic, partitions) => SetTopicPartitions(s, topic, partitions)
  }

  ghost function Run(settings: Settings, saved: map<Key, Offsets>, events: seq<Event>): Coordinator {
    if events == [] then Recovered(settings, saved)
    else Next(settings, Run(settings, saved, events[..|events| - 1]), events[|events| - 1])
  }

  // ---------------------------------------------------------------- invariants

  /** No partition is assigned to two members. */
  ghost predicate Exclusive(a: Assignments) {
    forall m1, m2, p :: p in ShareOf(a, m1) && p in ShareOf(a, m2) ==> m1 == m2
  }

  /**
   Until the generation is exhausted the assignment is the deal to exactly the current members; offsets in memory are
   those on disk.
   */
  ghost predicate GroupOk(g: Group) {
    && g.generation <= U64_MAX
    && Exclusive(g.assignments)
    && (g.generation == 0 ==> g.members == map[] && g.assignments == map[])
    && (0 < g.generation < U64_MAX ==> exists partitions :: g.assignments == Dealt(g.members.Keys, partitions))
  }

  ghost predicate OffsetsOk(s: Coordinator, k: Key)
    requires k in s.groups
  {
    forall p :: p in s.groups[k].committed ==> k in s.saved && p in s.saved[k] && s.saved[k][p] == s.groups[k].committed[p]
  }

  ghost predicate Ok(s: Coordinator) {
    forall k :: k in s.groups ==> GroupOk(s.groups[k]) && OffsetsOk(s, k)
  }

  /** What time may do to a group: a generation is never taken back and never changes its assignment. */
  ghost predicate Later(g: Group, g': Group) {
    g'.generation >= g.generation && (g'.generation == g.generation ==> g'.assignments == g.assignments)
  }

  ghost predicate Advances(s: Coordinator, s': Coordinator) {
    forall k :: k in s.groups ==> k in s'.groups && Later(s.groups[k], s'.groups[k])
  }

  lemma DealtIsExclusive(members: set<string>, partitions: nat)
    ensures Exclusive(Dealt(members, partitions))
  {
    if members != {} {
      DealCoversExactly(members, partitions);
    }
  }

  /** Replacing a group by a later one with the same committed offsets. */
  lemma WithKeeps(s: Coordinator, key: Key, g: Group)
    requires Ok(s) && GroupOk(g) && (key in s.groups ==> Later(s.groups[key], g))
    requires forall p :: p in g.committed ==> key in s.saved && p in s.saved[key] && s.saved[key][p] == g.committed[p]
    ensures Ok(s.With(key, g)) && Advances(s, s.With(key, g))
  {
    assert OffsetsOk(s.With(key, g), key);
    assert forall k :: k in s.groups && k != key ==> OffsetsOk(s, k) ==> OffsetsOk(s.With(key, g), k);
  }

  lemma RebalancedIsOk(g: Group, partitions: nat)
    requires Rebalanced(g, partitions).Success?
    ensures GroupOk(Rebalanced(g, partitions).value)
  {
    DealtIsExclusive(g.members.Keys, partitions);
  }

  /** A group whose members changed is later once it is resettled. */
  lemma ResettledKeeps(settings: Settings, s: Coordinator, key: Key, g: Group)
    requires Ok(s) && g.generation <= U64_MAX && Exclusive(g.assignments)
    requires key in s.groups ==> Later(s.groups[key], g)
    requires forall p :: p in g.committed ==> key in s.saved && p in s.saved[key] && s.saved[key][p] == g.committed[p]
    ensures Ok(Resettled(settings, s, key, g).state) && Advances(s, Resettled(settings, s, key, g).state)
    ensures Resettled(settings, s, key, g).state.saved == s.saved
  {
    match Rebalanced(g, PartitionCount(settings, s, key.1))
    case Success(g') =>
      RebalancedIsOk(g, PartitionCount(settings, s, key.1));
      WithKeeps(s, key, g');
    case Failure(_) =>
      WithKeeps(s, key, g);
  }

  lemma ActivateKeeps(settings: Settings, s: Coordinator, key: Key, now: nat)
    requires Ok(s)
    ensures Ok(Activate(settings, s, key, now).state) && Advances(s, Activate(settings, s, key, now).state)
    ensures Activate(settings, s, key, now).state.saved == s.saved
  {
    if key in s.groups {
      assert OffsetsOk(s, key);
      ResettledKeeps(settings, s, key, Alive(s.groups[key], settings.sessionTimeout, now));
    }
  }

  lemma AdvancesTwice(a: Coordinator, b: Coordinator, c: Coordinator)
    requires Advances(a, b) && Advances(b, c)
    ensures Advances(a, c)
  {
  }

  lemma JoinKeeps(settings: Settings, s: Coordinator, key: Key, member: string, now: nat)
    requires Ok(s)
    ensures Ok(Join(settings, s, key, member, now).state) && Advances(s, Join(settings, s, key, member, now).state)
  {
    if ValidId(key.0) && ValidId(key.1) && ValidId(member) {
      var g := Entered(settings, s, key);
      assert key in s.groups ==> OffsetsOk(s, key);
      var alive := Alive(g, settings.sessionTimeout, now);
      var joined := alive.(members := alive.members[member := now]);
      if member !in alive.members || alive != g || g.generation == 0 {
        ResettledKeeps(settings, s, key, joined);
      } else {
        assert joined.members.Keys == g.members.Keys;
        WithKeeps(s, key, joined);
      }
    }
  }

  lemma HeartbeatKeeps(settings: Settings, s: Coordinator, id: Identity, now: nat)
    requires Ok(s)
    ensures Ok(Heartbeat(settings, s, id, now).state) && Advances(s, Heartbeat(settings, s, id, now).state)
  {
    var o := Activate(settings, s, id.Key(), now);
    ActivateKeeps(settings, s, id.Key(), now);
    if o.reply.Success? && Validate(o.state.groups[id.Key()], id.member, id.generation).Success? {
      var g := o.state.groups[id.Key()];
      assert OffsetsOk(o.state, id.Key());
      var g' := g.(members := g.members[id.member := now]);
      assert g'.members.Keys == g.members.Keys;
      WithKeeps(o.state, id.Key(), g');
      AdvancesTwice(s, o.state, o.state.With(id.Key(), g'));
    }
  }

  lemma LeaveKeeps(settings: Settings, s: Coordinator, id: Identity, now: nat)
    requires Ok(s)
    ensures Ok(Leave(settings, s, id, now).state) && Advances(s, Leave(settings, s, id, now).state)
  {
    var o := Activate(settings, s, id.Key(), now);
    ActivateKeeps(settings, s, id.Key(), now);
    if o.reply.Success? && Validate(o.state.groups[id.Key()], id.member, id.generation).Success? {
      var g := o.state.groups[id.Key()];
      assert OffsetsOk(o.state, id.Key());
      var left := g.(members := g.members - {id.member});
      ResettledKeeps(settings, o.state, id.Key(), left);
      AdvancesTwice(s, o.state, Resettled(settings, o.state, id.Key(), left).state);
    }
  }

  lemma FetchKeeps(settings: Settings, s: Coordinator, id: Identity, partition: nat, now: nat)
    requires Ok(s)
    ensures Ok(AuthorizeFetch(settings, s, id, partition, now).state)
    ensures Advances(s, AuthorizeFetch(settings, s, id, partition, now).state)
    ensures AuthorizeFetch(settings, s, id, partition, now).state.saved == s.saved
  {
    ActivateKeeps(settings, s, id.Key(), now);
  }

  lemma CommittedKeeps(s: Coordinator, key: Key, partition: nat, offset: nat)
    requires Ok(s) && key in s.groups
    ensures var g := s.groups[key];
            var s' := s.With(key, g.(committed := g.committed[partition := offset])).(saved := Saved(s.saved, key, partition, offset));
            Ok(s') && Advances(s, s')
  {
    var g := s.groups[key];
    var s' := s.With(key, g.(committed := g.committed[partition := offset])).(saved := Saved(s.saved, key, partition, offset));
    assert OffsetsOk(s, key);
    forall k | k in s'.groups
      ensures GroupOk(s'.groups[k]) && OffsetsOk(s', k)
    {
      assert k in s.groups && OffsetsOk(s, k);
    }
  }

  lemma CommitKeeps(settings: Settings, s: Coordinator, id: Identity, partition: nat, offset: nat, now: nat)
    requires Ok(s)
    ensures Ok(Commit(settings, s, id, partition, offset, now).state)
    ensures Advances(s, Commit(settings, s, id, partition, offset, now).state)
  {
    FetchKeeps(settings, s, id, partition, now);
    var o := AuthorizeFetch(settings, s, id, partition, now);
    if o.reply.Success? {
      CommittedKeeps(o.state, id.Key(), partition, offset);
      AdvancesTwice(s, o.state, Commit(settings, s, id, partition, offset, now).state);
    }
  }

  lemma {:induction false} ExpireKeeps(settings: Settings, s: Coordinator, order: seq<Key>, now: nat)
    requires Ok(s)
    ensures Ok(ExpireSessions(settings, s, order, now).state) && Advances(s, ExpireSessions(settings, s, order, now).state)
    decreases |order|
  {
    if order != [] {
      var o := Activate(settings, s, order[0], now);
      ActivateKeeps(settings, s, order[0], now);
      if o.reply.Success? {
        ExpireKeeps(settings, o.state, order[1..], now);
        AdvancesTwice(s, o.state, ExpireSessions(settings, o.state, order[1..], now).state);
      }
    }
  }

  lemma ResizeKeeps(s: Coordinator, topic: string, partitions: nat)
    requires Ok(s)
    ensures Ok(SetTopicPartitions(s, topic, partitions)) && Advances(s, SetTopicPartitions(s, topic, partitions))
  {
    var s' := SetTopicPartitions(s, topic, partitions);
    forall k | k in s'.groups
      ensures GroupOk(s'.groups[k]) && OffsetsOk(s', k)
    {
      assert OffsetsOk(s, k);
      assert s'.groups[k].members == s.groups[k].members && s'.groups[k].assignments == s.groups[k].assignments;
    }
  }

  lemma NextKeeps(settings: Settings, s: Coordinator, e: Event)
    requires Ok(s)
    ensures Ok(Next(settings, s, e)) && Advances(s, Next(settings, s, e))
  {
    match e
    case Joins(key, member, now) => JoinKeeps(settings, s, key, member, now);
    case Beats(id, now) => HeartbeatKeeps(settings, s, id, now);
    case Leaves(id, now) => LeaveKeeps(settings, s, id, now);
    case Fetches(id, partition, now) => FetchKeeps(settings, s, id, partition, now);
    case Commits(id, partition, offset, now) => CommitKeeps(settings, s, id, partition, offset, now);
    case Expires(order, now) => ExpireKeeps(settings, s, order, now);
    case Resizes(topic, partitions) => ResizeKeeps(s, topic, partitions);
  }

  lemma {:induction false} RunIsOk(settings: Settings, saved: map<Key, Offsets>, events: seq<Event>)
    ensures Ok(Run(settings, saved, events))
  {
    if events == [] {
      var s := Recovered(settings, saved);
      forall k | k in s.groups
        ensures GroupOk(s.groups[k]) && OffsetsOk(s, k)
      {
      }
    } else {
      RunIsOk(settings, saved, events[..|events| - 1]);
      NextKeeps(settings, Run(settings, saved, events[..|events| - 1]), events[|events| - 1]);
    }
  }

  /** Over a whole run generations only grow, and while a generation lasts its assignment does not change. */
  lemma {:induction false} GenerationFixesAssignment(settings: Settings, saved: map<Key, Offsets>, events: seq<Event>, i: nat)
    requires i <= |events|
    ensures Advances(Run(settings, saved, events[..i]), Run(settings, saved, events))
  {
    if i == |events| {
      assert events[..i] == events;
    } else {
      var init := events[..|events| - 1];
      assert init[..i] == events[..i];
      GenerationFixesAssignment(settings, saved, init, i);
      RunIsOk(settings, saved, init);
      NextKeeps(settings, Run(settings, saved, init), events[|events| - 1]);
      AdvancesTwice(Run(settings, saved, events[..i]), Run(settings, saved, init), Run(settings, saved, events));
    }
  }

  /** In state `s` the request `e` is a commit or a fetch for `partition` that succeeds. */
  ghost predicate Authorizes(settings: Settings, s: Coordinator, e: Event, id: Identity, partition: nat) {
    match e
    case Fetches(i, p, now) => i == id && p == partition && AuthorizeFetch(settings, s, id, partition, now).reply.Success?
    case Commits(i, p, offset, now) => i == id && p == partition && Commit(settings, s, id, partition, offset, now).reply.Success?
    case _ => false
  }

  /** The generation is current, and the partition is in the member's share. */
  ghost predicate Entitled(s: Coordinator, id: Identity, partition: nat) {
    && id.Key() in s.groups && s.groups[id.Key()].generation == id.generation
    && id.member in s.groups[id.Key()].members && partition in ShareOf(s.groups[id.Key()].assignments, id.member)
  }

  lemma AuthorizedIsEntitled(settings: Settings, s: Coordinator, e: Event, id: Identity, partition: nat)
    requires Authorizes(settings, s, e, id, partition)
    ensures Entitled(Next(settings, s, e), id, partition)
  {
  }

  lemma EntitledAfter(settings: Settings, saved: map<Key, Offsets>, events: seq<Event>, i: nat, id: Identity, partition: nat)
    requires i < |events| && Authorizes(settings, Run(settings, saved, events[..i]), events[i], id, partition)
    ensures Entitled(Run(settings, saved, events[..i + 1]), id, partition)
  {
    assert events[..i + 1][..i] == events[..i];
    AuthorizedIsEntitled(settings, Run(settings, saved, events[..i]), events[i], id, partition);
  }

  lemma OneEntitled(s: Coordinator, s': Coordinator, a: Identity, b: Identity, partition: nat)
    requires Advances(s, s') && Ok(s') && a.Key() == b.Key() && a.generation == b.generation
    requires Entitled(s, a, partition) && Entitled(s', b, partition)
    ensures a.member == b.member
  {
    assert GroupOk(s'.groups[b.Key()]);
  }

  /**
   Fencing: in one lifetime of the coordinator, whatever happens in between, two successful commits or fetches for one
   partition of a group in the same generation come from the same member.
   */
  lemma FencedByGeneration(settings: Settings, saved: map<Key, Offsets>, events: seq<Event>, i: nat, j: nat,
                           a: Identity, b: Identity, partition: nat)
    requires i <= j < |events| && a.Key() == b.Key() && a.generation == b.generation
    requires Authorizes(settings, Run(settings, saved, events[..i]), events[i], a, partition)
    requires Authorizes(settings, Run(settings, saved, events[..j]), events[j], b, partition)
    ensures a.member == b.member
  {
    var after := events[..j + 1];
    assert after[..i + 1] == events[..i + 1];
    EntitledAfter(settings, saved, events, i, a, partition);
    EntitledAfter(settings, saved, events, j, b, partition);
    GenerationFixesAssignment(settings, saved, after, i + 1);
    RunIsOk(settings, saved, after);
    OneEntitled(Run(settings, saved, after[..i + 1]), Run(settings, saved, after), a, b, partition);
  }

  /**
   In every reachable state the members of a group share exactly the partitions of its last rebalance, evenly, unless
   the generation counter is exhausted.
   */
  lemma ReachableGroupsAreCovered(settings: Settings, saved: map<Key, Offsets>, events: seq<Event>, key: Key)
    returns (partitions: nat)
    requires var s := Run(settings, saved, events);
             key in s.groups && 0 < s.groups[key].generation < U64_MAX && s.groups[key].members != map[]
    ensures var g := Run(settings, saved, events).groups[key]; ExactCover(g.assignments, g.members.Keys, partitions)
  {
    RunIsOk(settings, saved, events);
    var g := Run(settings, saved, events).groups[key];
    assert GroupOk(g);
    partitions :| g.assignments == Dealt(g.members.Keys, partitions);
    assert g.members.Keys != {} by {
      var m :| m in g.members;
      assert m in g.members.Keys;
    }
    DealCoversExactly(g.members.Keys, partitions);
  }

  /** A request first removes exactly the members that were silent for longer than the session timeout. */
  lemma SilentMembersAreRemoved(settings: Settings, s: Coordinator, key: Key, now: nat, m: string)
    requires key in s.groups && Activate(settings, s, key, now).reply.Success?
    ensures var g, g' := s.groups[key], Activate(settings, s, key, now).state.groups[key];
            && (m in g'.members <==> m in g.members && Elapsed(now, g.members[m]) <= settings.sessionTimeout)
            && (m in g'.members ==> g'.members[m] == g.members[m])
            && (g'.members != g.members ==>
                  && g'.generation == g.generation + 1
                  && (g'.members != map[] ==>
                        ExactCover(g'.assignments, g'.members.Keys, PartitionCount(settings, s, key.1))))
  {
    var g' := Activate(settings, s, key, now).state.groups[key];
    ResettledCovers(g'.members, PartitionCount(settings, s, key.1));
  }

  lemma ResettledCovers(members: map<string, nat>, partitions: nat)
    ensures members != map[] ==> ExactCover(Dealt(members.Keys, partitions), members.Keys, partitions)
  {
    if members != map[] {
      var m :| m in members;
      assert m in members.Keys;
      DealCoversExactly(members.Keys, partitions);
    }
  }

  /** The members silent for longer than the session timeout. */
  function Silent(g: Group, timeout: nat, now: nat): set<string> {
    set m | m in g.members && now > g.members[m] + timeout
  }

  /**
   Looking a group up fails exactly if there is none, or if members are silent and the generation is exhausted; without
   silent members nothing changes, and otherwise no other group, offset or partition count does.
   */
  lemma ActivatesIff(settings: Settings, s: Coordinator, key: Key, now: nat)
    ensures var o := Activate(settings, s, key, now);
            && (key !in s.groups ==> o == Outcome(s, Failure(UnknownGroup)))
            && (key in s.groups ==>
                  var g, silent := s.groups[key], Silent(s.groups[key], settings.sessionTimeout, now);
                  && key in o.state.groups
                  && o.reply == (if silent == {} || g.generation < U64_MAX then Success(Done) else Failure(GenerationOverflow))
                  && (silent == {} ==> o.state == s)
                  && o.state.groups[key].members.Keys == g.members.Keys - silent
                  && o.state.groups[key].committed == g.committed
                  && o.state.groups[key].generation
                     == (if silent == {} || g.generation >= U64_MAX then g.generation else g.generation + 1)
                  && (o.reply.Failure? ==> o.state.groups[key].assignments == g.assignments)
                  && o.state == s.(groups := s.groups[key := o.state.groups[key]]))
  {
    if key in s.groups {
      SilentOrAlive(s.groups[key], settings.sessionTimeout, now);
      assert s.groups[key := s.groups[key]] == s.groups;
    }
  }

  lemma SilentOrAlive(g: Group, timeout: nat, now: nat)
    ensures Alive(g, timeout, now).members.Keys == g.members.Keys - Silent(g, timeout, now)
    ensures Silent(g, timeout, now) == {} <==> Alive(g, timeout, now) == g
  {
    var alive := Alive(g, timeout, now);
    if Silent(g, timeout, now) == {} {
      assert forall m :: m in g.members ==> m !in Silent(g, timeout, now);
      assert alive.members == g.members;
    } else {
      var m :| m in Silent(g, timeout, now);
      assert m in g.members && m !in alive.members;
    }
  }

  /** A request of a member is refused for its identity: the reply says for which part. */
  ghost predicate RefusesIdentity(s: Coordinator, id: Identity, error: GroupError)
    requires id.Key() in s.groups
  {
    var g := s.groups[id.Key()];
    if g.generation != id.generation then error == StaleGeneration(g.generation, id.generation)
    else id.member !in g.members && error == UnknownMember
  }

  /** The generation is current and the member is in it. */
  ghost predicate Known(s: Coordinator, id: Identity) {
    && id.Key() in s.groups && s.groups[id.Key()].generation == id.generation && id.member in s.groups[id.Key()].members
  }

  /**
   A fetch is allowed exactly if, once the silent members are removed, the generation is the group's own, the member is in
   it, and the partition is anywhere in its share; it changes nothing else, and a refusal says what is wrong.
   */
  lemma AuthorizesIff(settings: Settings, s: Coordinator, id: Identity, partition: nat, now: nat)
    ensures var active, o := Activate(settings, s, id.Key(), now), AuthorizeFetch(settings, s, id, partition, now);
            && o.state == active.state
            && (active.reply.Failure? ==> o.reply == active.reply)
            && (active.reply.Success? ==>
                  && (o.reply.Success? <==>
                        Known(o.state, id) && id.member in o.state.groups[id.Key()].assignments
                        && exists i :: 0 <= i < |o.state.groups[id.Key()].assignments[id.member]|
                                       && o.state.groups[id.Key()].assignments[id.member][i] == partition)
                  && (o.reply.Failure? ==>
                        if Known(o.state, id) then o.reply.error == PartitionNotAssigned(partition)
                        else RefusesIdentity(o.state, id, o.reply.error)))
  {
  }

  /** A commit succeeds exactly when a fetch would, and then stores the offset, in memory and on disk, and nothing else. */
  lemma CommitsIff(settings: Settings, s: Coordinator, id: Identity, partition: nat, offset: nat, now: nat)
    ensures var fetch, o := AuthorizeFetch(settings, s, id, partition, now), Commit(settings, s, id, partition, offset, now);
            && o.reply == fetch.reply
            && (o.reply.Failure? ==> o.state == fetch.state)
            && (o.reply.Success? ==>
                  && id.Key() in fetch.state.groups && o.state.counts == s.counts
                  && o.state.groups
                     == fetch.state.groups[id.Key() := fetch.state.groups[id.Key()].(committed := o.state.groups[id.Key()].committed)]
                  && o.state.groups[id.Key()].committed == fetch.state.groups[id.Key()].committed[partition := offset]
                  && (forall k, p :: OnDisk(o.state.saved, k, p)
                                     == if k == id.Key() && p == partition then Some(offset) else OnDisk(s.saved, k, p)))
  {
    ActivatesIff(settings, s, id.Key(), now);
  }

  /** A heartbeat succeeds exactly for a known member, for which it notes the time, and changes nothing else. */
  lemma BeatsIff(settings: Settings, s: Coordinator, id: Identity, now: nat)
    ensures var active, o := Activate(settings, s, id.Key(), now), Heartbeat(settings, s, id, now);
            && (active.reply.Failure? ==> o == active)
            && (active.reply.Success? ==>
                  && (o.reply.Success? <==> Known(active.state, id))
                  && (o.reply.Failure? ==> o.state == active.state && RefusesIdentity(o.state, id, o.reply.error))
                  && (o.reply.Success? ==>
                        var g := active.state.groups[id.Key()];
                        o.state == active.state.With(id.Key(), g.(members := g.members[id.member := now]))))
  {
  }

  /** A leave succeeds exactly for a known member of a group with a next generation; at the last one the member is gone all the same. */
  lemma LeavesIff(settings: Settings, s: Coordinator, id: Identity, now: nat)
    ensures var active, o := Activate(settings, s, id.Key(), now), Leave(settings, s, id, now);
            && (active.reply.Failure? ==> o == active)
            && (active.reply.Success? && !Known(active.state, id) ==>
                  o.reply.Failure? && o.state == active.state && RefusesIdentity(o.state, id, o.reply.error))
            && (active.reply.Success? && Known(active.state, id) ==>
                  && o.reply == (if id.generation < U64_MAX then Success(Done) else Failure(GenerationOverflow))
                  && id.Key() in o.state.groups
                  && o.state.groups[id.Key()].members == active.state.groups[id.Key()].members - {id.member}
                  && o.state.groups[id.Key()].committed == active.state.groups[id.Key()].committed
                  && o.state == active.state.With(id.Key(), o.state.groups[id.Key()]))
  {
  }

  /** The offsets a group knows, or will when somebody joins it: those on disk below the partition count. */
  function KnownOffsets(settings: Settings, s: Coordinator, key: Key): Offsets {
    if key in s.groups then s.groups[key].committed
    else if key !in s.saved then map[]
    else map p: nat | p in s.saved[key] && PartitionCount(settings, s, key.1) > p :: s.saved[key][p]
  }

  /** A restart knows every group that has offsets on disk: nobody is in it, and it has the offsets below the default count. */
  lemma RestartsWith(settings: Settings, saved: map<Key, Offsets>, key: Key)
    ensures var s := Recovered(settings, saved);
            && s.saved == saved && s.counts == map[] && s.groups.Keys == saved.Keys
            && (key in saved ==>
                  var g := s.groups[key];
                  && g.generation == 0 && g.members == map[] && g.assignments == map[]
                  && forall p: nat :: (if p in g.committed then Some(g.committed[p]) else None)
                                      == if p < settings.defaultPartitions then OnDisk(saved, key, p) else None)
  {
  }

  /** A join is refused exactly for an invalid name, or if a rebalance is due and there is no next generation. */
  lemma JoinsIff(settings: Settings, s: Coordinator, key: Key, member: string, now: nat)
    ensures var o := Join(settings, s, key, member, now);
            var named := ValidId(key.0) && ValidId(key.1) && ValidId(member);
            var due := key !in s.groups || member !in s.groups[key].members || s.groups[key].generation == 0
                       || Silent(s.groups[key], settings.sessionTimeout, now) != {};
            && (o.reply == Failure(InvalidId) <==> !named)
            && (o.reply == Failure(GenerationOverflow)
                <==> named && due && key in s.groups && s.groups[key].generation >= U64_MAX)
            && (o.reply.Failure? ==> o.reply.error in {InvalidId, GenerationOverflow})
            && (!named ==> o.state == s)
            && (named ==>
                  && key in o.state.groups && o.state == s.With(key, o.state.groups[key])
                  && o.state.groups[key].members.Keys
                     == (if key in s.groups then s.groups[key].members.Keys - Silent(s.groups[key], settings.sessionTimeout, now) else {})
                        + {member}
                  && o.state.groups[key].members[member] == now
                  && o.state.groups[key].committed == KnownOffsets(settings, s, key))
            && (o.reply.Success? && !due ==>
                  o.state.groups[key].generation == s.groups[key].generation
                  && o.state.groups[key].assignments == s.groups[key].assignments)
            && (o.reply.Success? && due ==>
                  o.state.groups[key].generation == (if key in s.groups then s.groups[key].generation else 0) + 1)
  {
    if ValidId(key.0) && ValidId(key.1) && ValidId(member) {
      var g := Entered(settings, s, key);
      SilentOrAlive(g, settings.sessionTimeout, now);
      if key !in s.groups {
        assert g.members.Keys == {};
        assert Silent(g, settings.sessionTimeout, now) == {};
      }
    }
  }

  /** A valid name has 1 to 249 characters, each a letter or digit of ASCII, a hyphen, a dot or an underscore, by its code. */
  lemma ValidIdIff(id: string)
    ensures ValidId(id) <==>
            1 <= |id| < 250
            && forall i :: 0 <= i < |id| ==>
                 NameCode(id[i] as int)
  {
    forall i | 0 <= i < |id|
      ensures id[i] in id
      ensures ('0' <= id[i] <= '9' || 'A' <= id[i] <= 'Z' || 'a' <= id[i] <= 'z' || id[i] in "._-") <==> NameCode(id[i] as int)
    {
      DotAndDashes(id[i]);
    }
  }

  predicate NameCode(n: int) {
    n == 45 || n == 46 || 48 <= n <= 57 || 65 <= n <= 90 || n == 95 || 97 <= n <= 122
  }

  lemma DotAndDashes(c: char)
    ensures c in "._-" <==> c as int == 45 || c as int == 46 || c as int == 95
  {
    var s := "._-";
    assert s[0] == '.' && s[1] == '_' && s[2] == '-' && |s| == 3;
  }

  /** A member that joins is told its share; one that was not there before starts a generation that covers all partitions. */
  lemma JoinAssigns(settings: Settings, s: Coordinator, key: Key, member: string, now: nat)
    requires Ok(s) && Join(settings, s, key, member, now).reply.Success?
    ensures var o := Join(settings, s, key, member, now);
            && key in o.state.groups
            && var g := o.state.groups[key];
               && o.reply.value == (g.generation, ShareOf(g.assignments, member))
               && member in g.members && g.members[member] == now
               && (key !in s.groups || member !in s.groups[key].members ==>
                     && g.generation == (if key in s.groups then s.groups[key].generation else 0) + 1
                     && ExactCover(g.assignments, g.members.Keys, PartitionCount(settings, s, key.1)))
  {
    var g := Join(settings, s, key, member, now).state.groups[key];
    assert member in g.members;
    ResettledCovers(g.members, PartitionCount(settings, s, key.1));
  }

  /** A member that leaves is gone, and the others share everything in the next generation. */
  lemma LeaveHandsOver(settings: Settings, s: Coordinator, id: Identity, now: nat)
    requires Leave(settings, s, id, now).reply.Success?
    ensures var s' := Leave(settings, s, id, now).state;
            && id.Key() in s'.groups
            && var g := s'.groups[id.Key()];
               && id.member !in g.members && g.generation == id.generation + 1
               && (if g.members == map[] then g.assignments == map[]
                   else ExactCover(g.assignments, g.members.Keys, PartitionCount(settings, s, id.topic)))
  {
    var g := Leave(settings, s, id, now).state.groups[id.Key()];
    ResettledCovers(g.members, PartitionCount(settings, s, id.topic));
    if g.members == map[] {
      assert g.members.Keys == {};
    }
  }

  /** A heartbeat extends the session by the whole timeout and changes nothing else in its group. */
  lemma HeartbeatExtends(settings: Settings, s: Coordinator, id: Identity, now: nat, later: nat)
    requires Heartbeat(settings, s, id, now).reply.Success? && later <= now + settings.sessionTimeout
    ensures var s' := Heartbeat(settings, s, id, now).state;
            && id.Key() in s'.groups
            && var g := s'.groups[id.Key()];
               && g.generation == id.generation && id.member in Alive(g, settings.sessionTimeout, later).members
               && g.assignments == Activate(settings, s, id.Key(), now).state.groups[id.Key()].assignments
               && Present(s', id.Key(), id.member, now)
  {
  }

  /** The member is in its group, last heard of at `since` or later. */
  predicate Present(s: Coordinator, key: Key, member: string, since: nat) {
    key in s.groups && member in s.groups[key].members && s.groups[key].members[member] >= since
  }

  /** Anything that happens by `until` but the member's own leaving; its own joins and heartbeats are not before `since`. */
  predicate During(e: Event, key: Key, member: string, since: nat, until: nat) {
    match e
    case Joins(k, m, now) => now <= until && (k == key && m == member ==> now >= since)
    case Beats(id, now) => now <= until && (id.Key() == key && id.member == member ==> now >= since)
    case Leaves(id, now) => now <= until && !(id.Key() == key && id.member == member)
    case Fetches(_, _, now) => now <= until
    case Commits(_, _, _, now) => now <= until
    case Expires(_, now) => now <= until
    case Resizes(_, _) => true
  }

  lemma ResettledMembers(settings: Settings, s: Coordinator, key: Key, g: Group)
    ensures var s' := Resettled(settings, s, key, g).state;
            && s'.groups.Keys == s.groups.Keys + {key} && s'.groups[key].members == g.members
            && forall k :: k in s.groups && k != key ==> s'.groups[k] == s.groups[k]
  {
  }

  lemma ActivateKeepsSession(settings: Settings, s: Coordinator, k: Key, now: nat, key: Key, member: string, since: nat)
    requires Present(s, key, member, since) && now <= since + settings.sessionTimeout
    ensures Present(Activate(settings, s, k, now).state, key, member, since)
  {
    if k in s.groups {
      ResettledMembers(settings, s, k, Alive(s.groups[k], settings.sessionTimeout, now));
    }
  }

  lemma JoinKeepsSession(settings: Settings, s: Coordinator, k: Key, m: string, now: nat, key: Key, member: string, since: nat)
    requires Present(s, key, member, since) && now <= since + settings.sessionTimeout
    requires k == key && m == member ==> now >= since
    ensures Present(Join(settings, s, k, m, now).state, key, member, since)
  {
    var g := Entered(settings, s, k);
    var alive := Alive(g, settings.sessionTimeout, now);
    var joined := alive.(members := alive.members[m := now]);
    ResettledMembers(settings, s, k, joined);
    StoredKeepsSession(s, k, joined, key, member, since);
    JoinStores(settings, s, k, m, now, joined);
  }

  lemma StoredKeepsSession(s: Coordinator, k: Key, g: Group, key: Key, member: string, since: nat)
    requires Present(s, key, member, since) && (k == key ==> member in g.members && g.members[member] >= since)
    ensures Present(s.With(k, g), key, member, since)
  {
  }

  lemma JoinStores(settings: Settings, s: Coordinator, k: Key, m: string, now: nat, joined: Group)
    requires var alive := Alive(Entered(settings, s, k), settings.sessionTimeout, now);
             joined == alive.(members := alive.members[m := now])
    ensures var s' := Join(settings, s, k, m, now).state;
            s' == s || s' == s.With(k, joined) || s' == Resettled(settings, s, k, joined).state
  {
  }

  lemma LeaveKeepsSession(settings: Settings, s: Coordinator, id: Identity, now: nat, key: Key, member: string, since: nat)
    requires Present(s, key, member, since) && now <= since + settings.sessionTimeout
    requires !(id.Key() == key && id.member == member)
    ensures Present(Leave(settings, s, id, now).state, key, member, since)
  {
    ActivateKeepsSession(settings, s, id.Key(), now, key, member, since);
    var o := Activate(settings, s, id.Key(), now);
    if o.reply.Success? {
      var g := o.state.groups[id.Key()];
      ResettledMembers(settings, o.state, id.Key(), g.(members := g.members - {id.member}));
    }
  }

  lemma {:induction false} ExpireKeepsSession(settings: Settings, s: Coordinator, order: seq<Key>, now: nat, key: Key,
                                              member: string, since: nat)
    requires Present(s, key, member, since) && now <= since + settings.sessionTimeout
    ensures Present(ExpireSessions(settings, s, order, now).state, key, member, since)
    decreases |order|
  {
    if order != [] {
      ActivateKeepsSession(settings, s, order[0], now, key, member, since);
      var o := Activate(settings, s, order[0], now);
      if o.reply.Success? {
        ExpireKeepsSession(settings, o.state, order[1..], now, key, member, since);
      }
    }
  }

  lemma NextKeepsSession(settings: Settings, s: Coordinator, e: Event, key: Key, member: string, since: nat)
    requires Present(s, key, member, since) && During(e, key, member, since, since + settings.sessionTimeout)
    ensures Present(Next(settings, s, e), key, member, since)
  {
    match e
    case Joins(k, m, now) => JoinKeepsSession(settings, s, k, m, now, key, member, since);
    case Beats(id, now) => ActivateKeepsSession(settings, s, id.Key(), now, key, member, since);
    case Leaves(id, now) => LeaveKeepsSession(settings, s, id, now, key, member, since);
    case Fetches(id, _, now) => ActivateKeepsSession(settings, s, id.Key(), now, key, member, since);
    case Commits(id, _, _, now) => ActivateKeepsSession(settings, s, id.Key(), now, key, member, since);
    case Expires(order, now) => ExpireKeepsSession(settings, s, order, now, key, member, since);
    case Resizes(_, _) =>
  }

  lemma RunUnfolds(settings: Settings, saved: map<Key, Offsets>, all: seq<Event>, init: seq<Event>, last: Event)
    requires all == init + [last]
    ensures Run(settings, saved, all) == Next(settings, Run(settings, saved, init), last)
  {
    assert all[..|all| - 1] == init;
  }

  lemma LastOfAll(start: seq<Event>, events: seq<Event>)
    requires events != []
    ensures start + events == start + events[..|events| - 1] + [events[|events| - 1]]
  {
  }

  lemma {:induction false} StaysPresent(settings: Settings, saved: map<Key, Offsets>, start: seq<Event>, events: seq<Event>,
                                        key: Key, member: string, since: nat)
    requires Present(Run(settings, saved, start), key, member, since)
    requires forall e :: e in events ==> During(e, key, member, since, since + settings.sessionTimeout)
    ensures Present(Run(settings, saved, start + events), key, member, since)
    decreases |events|
  {
    if events == [] {
      assert start + events == start;
    } else {
      var init, last := events[..|events| - 1], events[|events| - 1];
      assert last in events && forall e :: e in init ==> e in events;
      StaysPresent(settings, saved, start, init, key, member, since);
      LastOfAll(start, events);
      RunUnfolds(settings, saved, start + events, start + init, last);
      NextKeepsSession(settings, Run(settings, saved, start + init), last, key, member, since);
    }
  }

  /**
   A heartbeat that succeeds keeps the member in its group for the whole session timeout: whatever happens until then in a
   run, in this group and others, only its own leaving can end its membership.
   */
  lemma SessionLasts(settings: Settings, saved: map<Key, Offsets>, before: seq<Event>, id: Identity, now: nat,
                     events: seq<Event>)
    requires Heartbeat(settings, Run(settings, saved, before), id, now).reply.Success?
    requires forall e :: e in events ==> During(e, id.Key(), id.member, now, now + settings.sessionTimeout)
    ensures Present(Run(settings, saved, before + [Beats(id, now)] + events), id.Key(), id.member, now)
  {
    RunUnfolds(settings, saved, before + [Beats(id, now)], before, Beats(id, now));
    HeartbeatExtends(settings, Run(settings, saved, before), id, now, now);
    StaysPresent(settings, saved, before + [Beats(id, now)], events, id.Key(), id.member, now);
  }

  /** What the offset file of a partition says. */
  function OnDisk(saved: map<Key, Offsets>, key: Key, partition: nat): Option<nat> {
    if key in saved && partition in saved[key] then Some(saved[key][partition]) else None
  }

  /** In state `s` the request `e` commits an offset for the partition. */
  ghost predicate CommitsTo(settings: Settings, s: Coordinator, e: Event, key: Key, partition: nat) {
    && e.Commits? && e.id.Key() == key && e.partition == partition
    && Commit(settings, s, e.id, partition, e.offset, e.now).reply.Success?
  }

  /** The offset of the last successful commit for the partition in a run, or the one found at its start. */
  ghost function LastCommit(settings: Settings, saved: map<Key, Offsets>, events: seq<Event>, key: Key, partition: nat): Option<nat> {
    if events == [] then OnDisk(saved, key, partition)
    else
      var init, e := events[..|events| - 1], events[|events| - 1];
      if CommitsTo(settings, Run(settings, saved, init), e, key, partition) then Some(e.offset)
      else LastCommit(settings, saved, init, key, partition)
  }

  lemma {:induction false} ExpiryWritesNothing(settings: Settings, s: Coordinator, order: seq<Key>, now: nat)
    ensures ExpireSessions(settings, s, order, now).state.saved == s.saved
    decreases |order|
  {
    if order != [] && Activate(settings, s, order[0], now).reply.Success? {
      ExpiryWritesNothing(settings, Activate(settings, s, order[0], now).state, order[1..], now);
    }
  }

  lemma OnlyCommitsWrite(settings: Settings, s: Coordinator, e: Event, key: Key, partition: nat)
    ensures OnDisk(Next(settings, s, e).saved, key, partition)
            == if CommitsTo(settings, s, e, key, partition) then Some(e.offset) else OnDisk(s.saved, key, partition)
  {
    if e.Commits? {
      CommitWrites(settings, s, e, key, partition);
    } else {
      OthersWriteNothing(settings, s, e);
    }
  }

  lemma CommitWrites(settings: Settings, s: Coordinator, e: Event, key: Key, partition: nat)
    requires e.Commits?
    ensures OnDisk(Commit(settings, s, e.id, e.partition, e.offset, e.now).state.saved, key, partition)
            == if CommitsTo(settings, s, e, key, partition) then Some(e.offset) else OnDisk(s.saved, key, partition)
  {
  }

  lemma OthersWriteNothing(settings: Settings, s: Coordinator, e: Event)
    requires !e.Commits?
    ensures Next(settings, s, e).saved == s.saved
  {
    match e
    case Joins(key, member, now) => JoinWritesNothing(settings, s, key, member, now);
    case Beats(id, now) => MembersWriteNothing(settings, s, id, now);
    case Leaves(id, now) => MembersWriteNothing(settings, s, id, now);
    case Fetches(id, partition, now) =>
    case Expires(order, now) => ExpiryWritesNothing(settings, s, order, now);
    case Resizes(topic, partitions) =>
  }

  lemma JoinWritesNothing(settings: Settings, s: Coordinator, key: Key, member: string, now: nat)
    ensures Join(settings, s, key, member, now).state.saved == s.saved
  {
  }

  lemma MembersWriteNothing(settings: Settings, s: Coordinator, id: Identity, now: nat)
    ensures Heartbeat(settings, s, id, now).state.saved == s.saved
    ensures Leave(settings, s, id, now).state.saved == s.saved
  {
  }

  /** At any point of any run the offset file of a partition says what was last committed for it, by whomever. */
  lemma {:induction false} DiskHoldsLastCommit(settings: Settings, saved: map<Key, Offsets>, events: seq<Event>, key: Key, partition: nat)
    ensures OnDisk(Run(settings, saved, events).saved, key, partition) == LastCommit(settings, saved, events, key, partition)
  {
    if events != [] {
      var init := events[..|events| - 1];
      DiskHoldsLastCommit(settings, saved, init, key, partition);
      OnlyCommitsWrite(settings, Run(settings, saved, init), events[|events| - 1], key, partition);
    }
  }

  predicate Knows(s: Coordinator, key: Key, partition: nat, offset: nat) {
    key in s.groups && partition in s.groups[key].committed && s.groups[key].committed[partition] == offset
  }

  /** An announced partition count: the groups of the topic learn the stored offsets below it, and nothing else changes. */
  lemma ResizesExactly(s: Coordinator, topic: string, partitions: nat, key: Key)
    ensures var s' := SetTopicPartitions(s, topic, partitions);
            && s'.saved == s.saved && s'.groups.Keys == s.groups.Keys
            && (forall t :: PartitionCount(Settings(0, 0), s', t) == if t == topic then partitions else PartitionCount(Settings(0, 0), s, t))
            && (key in s.groups ==>
                  var g, g' := s.groups[key], s'.groups[key];
                  && g'.generation == g.generation && g'.members == g.members && g'.assignments == g.assignments
                  && (forall p: nat :: p in g'.committed <==>
                        p in g.committed || (key.1 == topic && p < partitions && OnDisk(s.saved, key, p).Some?))
                  && (forall p: nat :: p in g'.committed ==>
                        g'.committed[p] == if key.1 == topic && p < partitions && OnDisk(s.saved, key, p).Some?
                                           then OnDisk(s.saved, key, p).value else g.committed[p]))
  {
  }

  /** What is in `order` has lost exactly its silent members, if the expiry ran through; the other groups are as they were. */
  lemma {:induction false} ExpiresExactly(settings: Settings, s: Coordinator, order: seq<Key>, now: nat, key: Key)
    requires (forall k :: k in order ==> k in s.groups) && (forall i, j :: 0 <= i < j < |order| ==> order[i] != order[j])
    requires key in s.groups && ExpireSessions(settings, s, order, now).reply.Success?
    ensures var s' := ExpireSessions(settings, s, order, now).state;
            && s'.saved == s.saved && s'.counts == s.counts && s'.groups.Keys == s.groups.Keys
            && s'.groups[key] == if key in order then Activate(settings, s, key, now).state.groups[key] else s.groups[key]
    decreases |order|
  {
    if order != [] {
      ActivatesIff(settings, s, order[0], now);
      var s1 := Activate(settings, s, order[0], now).state;
      assert forall k :: k in order[1..] ==> k in order && k in s1.groups;
      ExpiresExactly(settings, s1, order[1..], now, key);
      if key != order[0] {
        ActivatesAlone(settings, s, s1, key, now);
      } else {
        assert key !in order[1..];
      }
      assert key in order <==> key == order[0] || key in order[1..];
    }
  }

  /** What becomes of a group when it is looked up depends on nothing but the group and the topic's partitions. */
  lemma ActivatesAlone(settings: Settings, s: Coordinator, s1: Coordinator, key: Key, now: nat)
    requires key in s.groups && key in s1.groups && s1.groups[key] == s.groups[key] && s1.counts == s.counts
    ensures key in Activate(settings, s, key, now).state.groups && key in Activate(settings, s1, key, now).state.groups
    ensures Activate(settings, s1, key, now).state.groups[key] == Activate(settings, s, key, now).state.groups[key]
  {
  }

  /**
   A committed offset is what a coordinator started on the same files knows for the partition: at once below the default
   count, and beyond it when the topic's count is announced.
   */
  lemma CommitSurvivesRestart(settings: Settings, s: Coordinator, id: Identity, partition: nat, offset: nat, now: nat)
    requires Commit(settings, s, id, partition, offset, now).reply.Success?
    ensures var s' := Recovered(settings, Commit(settings, s, id, partition, offset, now).state.saved);
            && id.Key() in s'.groups
            && (partition < settings.defaultPartitions ==> Knows(s', id.Key(), partition, offset))
            && (forall count :: partition < count ==> Knows(SetTopicPartitions(s', id.topic, count), id.Key(), partition, offset))
  {
    RestartKnows(settings, Commit(settings, s, id, partition, offset, now).state.saved, id.Key(), partition);
  }

  lemma RestartKnows(settings: Settings, saved: map<Key, Offsets>, key: Key, partition: nat)
    requires key in saved && partition in saved[key]
    ensures var s, offset := Recovered(settings, saved), saved[key][partition];
            && key in s.groups
            && (partition < settings.defaultPartitions ==> Knows(s, key, partition, offset))
            && (forall count :: partition < count ==> Knows(SetTopicPartitions(s, key.1, count), key, partition, offset))
  {
  }
}
