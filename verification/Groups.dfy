/** The group coordinator, which keeps its groups, offset files and partition counts up to date in place. */
module Groups {
  import opened Wrappers
  import opened Rebalance
  import opened GroupModel

  /** Drop the members whose last heartbeat is too old; answer whether there were any. */
  method ExpireMembers(g: Group, timeout: nat, now: nat) returns (g': Group, expired: bool)
    ensures g' == Alive(g, timeout, now) && (expired <==> g' != g)
  {
    g' := g.(members := map m | m in g.members && Elapsed(now, g.members[m]) <= timeout :: g.members[m]);
    FewerMembers(g'.members, g.members);
    expired := |g.members| != |g'.members|;
  }

  lemma FewerMembers(a: map<string, nat>, b: map<string, nat>)
    requires a.Keys <= b.Keys && forall m :: m in a ==> a[m] == b[m]
    ensures |a| == |b| <==> a == b
  {
    assert |a.Keys| == |a| && |b.Keys| == |b|;
    if |a| == |b| {
      assert b.Keys == a.Keys + (b.Keys - a.Keys);
      assert |b.Keys - a.Keys| == 0;
    }
  }

  method RebalanceGroup(g: Group, partitions: nat) returns (g': Group, r: Result<Unit, GroupError>)
    ensures match Rebalanced(g, partitions)
            case Success(dealt) => g' == dealt && r == Success(Done)
            case Failure(error) => g' == g && r == Failure(error)
  {
    g' := g;
    if g.generation >= U64_MAX {
      return g, Failure(GenerationOverflow);
    }
    g' := g'.(generation := g.generation + 1, assignments := map[]);
    if g.members == map[] {
      assert g.members.Keys == {};
      return g', Success(Done);
    }
    assert g.members.Keys != {} by {
      var m :| m in g.members;
      assert m in g.members.Keys;
    }
    SomeoneIsFirst(g.members.Keys);
    var order := OrderedNames(g.members.Keys);
    var assignments := DealPartitions(order, partitions);
    g' := g'.(assignments := assignments);
    r := Success(Done);
  }

  /** The groups of the topic that are not in `rest` know the offsets on disk below `partitions`. */
  ghost predicate Extended(saved: map<Key, Offsets>, topic: string, partitions: nat, before: map<Key, Group>, rest: set<Key>,
                           groups: map<Key, Group>)
  {
    && groups.Keys == before.Keys
    && forall k :: k in groups ==>
         groups[k] == if k.1 == topic && k !in rest
                      then before[k].(committed := before[k].committed + Loaded(saved, k, partitions)) else before[k]
  }

  lemma OneMoreExtended(saved: map<Key, Offsets>, topic: string, partitions: nat, before: map<Key, Group>, rest: set<Key>,
                        groups: map<Key, Group>, key: Key)
    requires Extended(saved, topic, partitions, before, rest, groups) && key in rest && key in before
    ensures var g := groups[key];
            Extended(saved, topic, partitions, before, rest - {key},
              if key.1 == topic then groups[key := g.(committed := g.committed + Loaded(saved, key, partitions))] else groups)
  {
  }

  lemma AllExtended(s: Coordinator, topic: string, partitions: nat, groups: map<Key, Group>)
    requires Extended(s.saved, topic, partitions, s.groups, {}, groups)
    ensures groups == GroupModel.SetTopicPartitions(s, topic, partitions).groups
  {
  }

  class GroupCoordinator {
    const settings: Settings
    var groups: map<Key, Group>
    var saved: map<Key, Offsets>
    var counts: map<string, nat>

    function State(): Coordinator
      reads this
    {
      Coordinator(groups, saved, counts)
    }

    /** Start on the offset files of an earlier coordinator. */
    constructor (settings: Settings, saved: map<Key, Offsets>)
      ensures this.settings == settings && State() == Recovered(settings, saved)
    {
      this.settings, this.saved, this.counts := settings, saved, map[];
      groups := map k | k in saved :: Group(0, map[], map[], Loaded(saved, k, settings.defaultPartitions));
    }

    /** Store a group whose members changed, after dealing the partitions anew. */
    method Resettle(key: Key, g: Group) returns (r: Result<Unit, GroupError>)
      modifies this`groups
      ensures Outcome(State(), r) == Resettled(settings, old(State()), key, g)
    {
      var g';
      g', r := RebalanceGroup(g, PartitionCount(settings, State(), key.1));
      groups := groups[key := g'];
    }

    method ActiveGroup(key: Key, now: nat) returns (r: Result<Unit, GroupError>)
      modifies this`groups
      ensures Outcome(State(), r) == Activate(settings, old(State()), key, now)
    {
      if key !in groups {
        return Failure(UnknownGroup);
      }
      var alive, expired := ExpireMembers(groups[key], settings.sessionTimeout, now);
      if !expired {
        return Success(Done);
      }
      r := Resettle(key, alive);
    }

    method LoadOffsets(key: Key, partitions: nat) returns (offsets: Offsets)
      ensures offsets == Loaded(saved, key, partitions)
    {
      offsets := map[];
      for p := 0 to partitions
        invariant offsets == Loaded(saved, key, p)
      {
        if key in saved && p in saved[key] {
          offsets := offsets[p := saved[key][p]];
        }
      }
    }

    method Enter(key: Key) returns (g: Group)
      ensures g == Entered(settings, State(), key)
    {
      if key in groups {
        return groups[key];
      }
      var offsets := LoadOffsets(key, PartitionCount(settings, State(), key.1));
      return Group(0, map[], map[], offsets);
    }

    method Join(group: string, topic: string, member: string, now: nat) returns (r: Result<(nat, seq<nat>), GroupError>)
      modifies this`groups
      ensures Outcome(State(), r) == GroupModel.Join(settings, old(State()), (group, topic), member, now)
    {
      if !ValidId(group) || !ValidId(topic) || !ValidId(member) {
        return Failure(InvalidId);
      }
      var key := (group, topic);
      var g := Enter(key);
      var alive, expired := ExpireMembers(g, settings.sessionTimeout, now);
      var isNew := member !in alive.members;
      var joined := alive.(members := alive.members[member := now]);
      if isNew || expired || joined.generation == 0 {
        var settled := Resettle(key, joined);
        if settled.Failure? {
          return Failure(settled.error);
        }
      } else {
        groups := groups[key := joined];
      }
      return Success((groups[key].generation, ShareOf(groups[key].assignments, member)));
    }

    /** The group of a request, once its member and generation are found valid. */
    method Admit(id: Identity, now: nat) returns (r: Result<Group, GroupError>)
      modifies this`groups
      ensures var o := Activate(settings, old(State()), id.Key(), now);
              && State() == o.state
              && r == (if o.reply.Failure? then Failure(o.reply.error)
                       else if Validate(groups[id.Key()], id.member, id.generation).Failure? then
                         Failure(Validate(groups[id.Key()], id.member, id.generation).error)
                       else Success(groups[id.Key()]))
    {
      var active := ActiveGroup(id.Key(), now);
      if active.Failure? {
        return Failure(active.error);
      }
      var g := groups[id.Key()];
      if id.generation != g.generation {
        return Failure(StaleGeneration(g.generation, id.generation));
      }
      if id.member !in g.members {
        return Failure(UnknownMember);
      }
      return Success(g);
    }

    method Heartbeat(id: Identity, now: nat) returns (r: Result<Unit, GroupError>)
      modifies this`groups
      ensures Outcome(State(), r) == GroupModel.Heartbeat(settings, old(State()), id, now)
    {
      var admitted := Admit(id, now);
      match admitted {
        case Failure(error) =>
          r := Failure(error);
        case Success(g) =>
          groups := groups[id.Key() := g.(members := g.members[id.member := now])];
          r := Success(Done);
      }
    }

    method Leave(id: Identity, now: nat) returns (r: Result<Unit, GroupError>)
      modifies this`groups
      ensures Outcome(State(), r) == GroupModel.Leave(settings, old(State()), id, now)
    {
      var admitted := Admit(id, now);
      match admitted {
        case Failure(error) =>
          r := Failure(error);
        case Success(g) =>
          r := Resettle(id.Key(), g.(members := g.members - {id.member}));
      }
    }

    method AuthorizeFetch(id: Identity, partition: nat, now: nat) returns (r: Result<Unit, GroupError>)
      modifies this`groups
      ensures Outcome(State(), r) == GroupModel.AuthorizeFetch(settings, old(State()), id, partition, now)
    {
      var admitted := Admit(id, now);
      match admitted {
        case Failure(error) =>
          r := Failure(error);
        case Success(g) =>
          if id.member !in g.assignments || partition !in g.assignments[id.member] {
            return Failure(PartitionNotAssigned(partition));
          }
          r := Success(Done);
      }
    }

    method Commit(id: Identity, partition: nat, offset: nat, now: nat) returns (r: Result<Unit, GroupError>)
      modifies this`groups, this`saved
      ensures Outcome(State(), r) == GroupModel.Commit(settings, old(State()), id, partition, offset, now)
    {
      var admitted := Admit(id, now);
      match admitted {
        case Failure(error) =>
          r := Failure(error);
        case Success(g) =>
          if id.member !in g.assignments || partition !in g.assignments[id.member] {
            return Failure(PartitionNotAssigned(partition));
          }
          saved := Saved(saved, id.Key(), partition, offset);
          groups := groups[id.Key() := g.(committed := g.committed[partition := offset])];
          r := Success(Done);
      }
    }

    /** What the offset file of a partition says. */
    method CommittedOffset(group: string, topic: string, partition: nat) returns (r: Result<Option<nat>, GroupError>)
      ensures r.Failure? <==> !ValidId(group) || !ValidId(topic)
      ensures r.Success? ==> r.value == OnDisk(saved, (group, topic), partition)
    {
      if !ValidId(group) || !ValidId(topic) {
        return Failure(InvalidId);
      }
      var key := (group, topic);
      if key in saved && partition in saved[key] {
        return Success(Some(saved[key][partition]));
      }
      return Success(None);
    }

    /** `order` is the order in which the hash map is walked. */
    method ExpireSessions(order: seq<Key>, now: nat) returns (r: Result<Unit, GroupError>)
      requires forall k :: k in order <==> k in groups
      modifies this`groups
      ensures Outcome(State(), r) == GroupModel.ExpireSessions(settings, old(State()), order, now)
    {
      ghost var result := GroupModel.ExpireSessions(settings, State(), order, now);
      assert order[0..] == order;
      for i := 0 to |order|
        invariant GroupModel.ExpireSessions(settings, State(), order[i..], now) == result
      {
        assert order[i..][0] == order[i] && order[i..][1..] == order[i + 1..];
        var active := ActiveGroup(order[i], now);
        if active.Failure? {
          return active;
        }
      }
      return Success(Done);
    }

    method SetTopicPartitions(topic: string, partitions: nat)
      modifies this`groups, this`counts
      ensures State() == GroupModel.SetTopicPartitions(old(State()), topic, partitions)
    {
      counts := counts[topic := partitions];
      ghost var before := groups;
      var rest := groups.Keys;
      while rest != {}
        invariant rest <= before.Keys && counts == old(counts)[topic := partitions]
        invariant Extended(saved, topic, partitions, before, rest, groups)
      {
        var key :| key in rest;
        OneMoreExtended(saved, topic, partitions, before, rest, groups, key);
        if key.1 == topic {
          var loaded := LoadOffsets(key, partitions);
          groups := groups[key := groups[key].(committed := groups[key].committed + loaded)];
        }
        rest := rest - {key};
      }
      AllExtended(old(State()), topic, partitions, groups);
    }
  }
}
