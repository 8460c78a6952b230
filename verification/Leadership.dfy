/** The leadership registry of a broker: its entries in memory and the file they are saved to. */
module Leadership {
  import opened Wrappers
  import opened Cluster
  import opened LeadershipText

  datatype Registry = Registry(entries: Entries, file: Option<string>)

  datatype Event =
    | EnsureTopic(topic: string, partitions: nat)
    | Apply(topic: string, partition: nat, offered: Entry)
    | Reopen

  /** The members of a cluster, in ascending order of their ids. */
  predicate Members(nodes: seq<nat>) {
    nodes != [] && forall n :: n in nodes ==> n <= U32_MAX
  }

  /** Unknown partitions below `partitions` get their deterministic leader at epoch 0. */
  function Ensured(nodes: seq<nat>, entries: Entries, topic: string, partitions: nat): Entries
    requires nodes != []
  {
    if partitions == 0 then entries
    else
      var p, done := partitions - 1, Ensured(nodes, entries, topic, partitions - 1);
      if (topic, p) in done then done else done[(topic, p) := Entry(nodes[p % |nodes|], 0, 0)]
  }

  function Applied(nodes: seq<nat>, entries: Entries, key: Key, offered: Entry): Result<Entries, LeadershipError> {
    match Adopt(nodes, if key in entries then Some(entries[key]) else None, offered)
    case Failure(error) => Failure(error)
    case Success(entry) => Success(entries[key := entry])
  }

  function Loaded(file: Option<string>): Result<Entries, LeadershipError> {
    match file
    case None => Success(map[])
    case Some(text) => Parse(text)
  }

  /** The file is written anew exactly when an entry changed. */
  ghost predicate Saved(s: Registry, s': Registry) {
    if s'.entries == s.entries then s'.file == s.file
    else s'.file.Some? && Writes(s'.entries, s'.file.value)
  }

  ghost predicate Next(nodes: seq<nat>, s: Registry, event: Event, s': Registry)
    requires nodes != []
  {
    match event
    case EnsureTopic(topic, partitions) => s'.entries == Ensured(nodes, s.entries, topic, partitions) && Saved(s, s')
    case Apply(topic, partition, offered) =>
      (match Applied(nodes, s.entries, (topic, partition), offered)
       case Failure(_) => s' == s
       case Success(entries) => s'.entries == entries && Saved(s, s'))
    case Reopen => Loaded(s.file) == Success(s'.entries) && s'.file == s.file
  }

  /** Topic names are validated before they reach the registry; the other fields are machine integers. */
  predicate Proper(event: Event) {
    match event
    case EnsureTopic(topic, partitions) => CleanTopic(topic) && partitions <= U32_MAX
    case Apply(topic, partition, offered) => CleanTopic(topic) && InRange((topic, partition), offered)
    case Reopen => true
  }

  ghost predicate Storable(entries: Entries) {
    forall k :: k in entries ==> CleanTopic(k.0) && InRange(k, entries[k])
  }

  /** A restart would find exactly the entries in memory. */
  ghost predicate Durable(s: Registry) {
    Storable(s.entries) && Loaded(s.file) == Success(s.entries)
  }

  ghost predicate Advances(before: Entries, after: Entries) {
    forall k :: k in before ==> k in after && Follows(after[k], before[k])
  }

  /** An entry is taken exactly if it names a member and may follow what is known; an older one never replaces it. */
  lemma AppliesIff(nodes: seq<nat>, entries: Entries, key: Key, offered: Entry)
    ensures Applied(nodes, entries, key, offered).Success?
            <==> offered.leader in nodes && (key in entries ==> Follows(offered, entries[key]))
    ensures Applied(nodes, entries, key, offered).Success? ==>
              Applied(nodes, entries, key, offered).value == entries[key := offered]
  {
  }

  /** The registry after an entry was offered to it, taken or not. */
  function Offered(nodes: seq<nat>, entries: Entries, key: Key, offered: Entry): Entries {
    match Applied(nodes, entries, key, offered)
    case Success(taken) => taken
    case Failure(_) => entries
  }

  function OfferedAll(nodes: seq<nat>, entries: Entries, key: Key, offers: seq<Entry>): Entries {
    if offers == [] then entries
    else Offered(nodes, OfferedAll(nodes, entries, key, offers[..|offers| - 1]), key, offers[|offers| - 1])
  }

  /** One of the two may follow the other, as election safety makes sure for any two entries of a partition. */
  predicate Comparable(a: Entry, b: Entry) {
    Follows(a, b) || Follows(b, a)
  }

  /** `e` is offered or known, and may follow everything offered and known. */
  ghost predicate Greatest(entries: Entries, key: Key, offers: seq<Entry>, e: Entry) {
    && (e in offers || (key in entries && e == entries[key]))
    && (forall i :: 0 <= i < |offers| ==> Follows(e, offers[i]))
    && (key in entries ==> Follows(e, entries[key]))
  }

  /**
   Announcements may arrive in any order and any number of times: of entries that members of the cluster sent, the registry
   ends with the one that follows all of them, and that one is unique.
   */
  lemma {:induction false} OrderDoesNotMatter(nodes: seq<nat>, entries: Entries, key: Key, offers: seq<Entry>)
    requires offers != [] && forall i :: 0 <= i < |offers| ==> offers[i].leader in nodes
    requires forall i, j :: 0 <= i < |offers| && 0 <= j < |offers| ==> Comparable(offers[i], offers[j])
    requires key in entries ==> forall i :: 0 <= i < |offers| ==> Comparable(entries[key], offers[i])
    ensures key in OfferedAll(nodes, entries, key, offers)
    ensures Greatest(entries, key, offers, OfferedAll(nodes, entries, key, offers)[key])
    ensures forall e :: Greatest(entries, key, offers, e) ==> e == OfferedAll(nodes, entries, key, offers)[key]
  {
    var init, offer := offers[..|offers| - 1], offers[|offers| - 1];
    if init != [] {
      OrderDoesNotMatter(nodes, entries, key, init);
      assert forall i :: 0 <= i < |init| ==> init[i] == offers[i];
      var before := OfferedAll(nodes, entries, key, init)[key];
      assert Comparable(before, offer) by {
        if before in init {
          var i :| 0 <= i < |init| && init[i] == before;
          assert offers[i] == before;
        }
      }
    }
    AppliesIff(nodes, OfferedAll(nodes, entries, key, init), key, offer);
    assert offer in offers;
  }

  lemma SavedIsDurable(s: Registry, s': Registry)
    requires Durable(s) && Saved(s, s') && Storable(s'.entries)
    ensures Durable(s')
  {
    if s'.entries != s.entries {
      ParseRestoresIffClean(s'.entries, s'.file.value);
    }
  }

  lemma NextIsDurable(nodes: seq<nat>, s: Registry, event: Event, s': Registry)
    requires Members(nodes) && Durable(s) && Proper(event) && Next(nodes, s, event, s')
    ensures Durable(s') && Advances(s.entries, s'.entries)
  {
    match event
    case EnsureTopic(topic, partitions) =>
      EnsuredIsStorable(nodes, s.entries, topic, partitions);
      SavedIsDurable(s, s');
    case Apply(topic, partition, offered) =>
      if Applied(nodes, s.entries, (topic, partition), offered).Success? {
        SavedIsDurable(s, s');
      }
    case Reopen =>
  }

  /** Nothing known changes, and exactly the missing partitions below `partitions` are added. */
  lemma {:induction false} EnsuredAdds(nodes: seq<nat>, entries: Entries, topic: string, partitions: nat, k: Key)
    requires nodes != []
    ensures var all := Ensured(nodes, entries, topic, partitions);
            && (k in all <==> k in entries || (k.0 == topic && k.1 < partitions))
            && (k in entries ==> all[k] == entries[k])
            && (k in all && k !in entries ==> all[k] == Entry(nodes[k.1 % |nodes|], 0, 0))
  {
    if partitions > 0 {
      EnsuredAdds(nodes, entries, topic, partitions - 1, k);
      EnsuredAdds(nodes, entries, topic, partitions - 1, (topic, partitions - 1));
    }
  }

  lemma EnsuredIsStorable(nodes: seq<nat>, entries: Entries, topic: string, partitions: nat)
    requires Members(nodes) && Storable(entries) && CleanTopic(topic) && partitions <= U32_MAX
    ensures Storable(Ensured(nodes, entries, topic, partitions))
    ensures Advances(entries, Ensured(nodes, entries, topic, partitions))
  {
    forall k: Key
      ensures k in entries ==> k in Ensured(nodes, entries, topic, partitions)
                               && Ensured(nodes, entries, topic, partitions)[k] == entries[k]
      ensures k in Ensured(nodes, entries, topic, partitions) ==>
                CleanTopic(k.0) && InRange(k, Ensured(nodes, entries, topic, partitions)[k])
    {
      EnsuredAdds(nodes, entries, topic, partitions, k);
      assert nodes[k.1 % |nodes|] in nodes;
    }
  }

  ghost predicate Trace(nodes: seq<nat>, states: seq<Registry>, events: seq<Event>)
    requires nodes != []
  {
    && |states| == |events| + 1
    && states[0] == Registry(map[], None)
    && (forall i :: 0 <= i < |events| ==> Proper(events[i]) && Next(nodes, states[i], events[i], states[i + 1]))
  }

  /**
   Over every run of the registry, restarts included, the epoch of a partition never falls, its leader is fixed and its
   high watermark never falls within an epoch, and a restart at any point finds every entry.
   */
  lemma {:induction false} HistoryOnlyAdvances(nodes: seq<nat>, states: seq<Registry>, events: seq<Event>, i: nat, j: nat)
    requires Members(nodes) && Trace(nodes, states, events) && i <= j < |states|
    ensures Durable(states[j]) && Advances(states[i].entries, states[j].entries)
    decreases j
  {
    if j == 0 {
      assert Loaded(states[0].file) == Success(states[0].entries);
    } else if i == j {
      HistoryOnlyAdvances(nodes, states, events, j - 1, j - 1);
      NextIsDurable(nodes, states[j - 1], events[j - 1], states[j]);
    } else {
      HistoryOnlyAdvances(nodes, states, events, i, j - 1);
      NextIsDurable(nodes, states[j - 1], events[j - 1], states[j]);
    }
  }

  /** Two entries that a broker's registry holds for a partition at any two times in one epoch name the same leader. */
  lemma LeaderFixedWithinEpoch(nodes: seq<nat>, states: seq<Registry>, events: seq<Event>, i: nat, j: nat, k: Key)
    requires Members(nodes) && Trace(nodes, states, events) && i < |states| && j < |states|
    requires k in states[i].entries && k in states[j].entries
    requires states[i].entries[k].epoch == states[j].entries[k].epoch
    ensures states[i].entries[k].leader == states[j].entries[k].leader
  {
    HistoryOnlyAdvances(nodes, states, events, if i <= j then i else j, if i <= j then j else i);
  }

  // ---------------------------------------------------------------- the file

  method ParseEntries(contents: string) returns (r: Result<Entries, LeadershipError>)
    ensures r == Parse(contents)
  {
    var lines, entries := Lines(contents), map[];
    var i := 0;
    while i < |lines|
      invariant i <= |lines| && ParseLines(lines[i..], entries) == Parse(contents)
    {
      assert lines[i..][0] == lines[i] && lines[i..][1..] == lines[i + 1..];
      if lines[i] != "" {
        var parsed := ParseLine(lines[i]);
        if parsed.Failure? {
          return Failure(parsed.error);
        }
        entries := entries[parsed.value.0 := parsed.value.1];
      }
      i := i + 1;
    }
    return Success(entries);
  }

  method OrderedKeys(entries: Entries) returns (keys: seq<Key>)
    ensures InOrder(keys) && forall k :: k in keys <==> k in entries
  {
    var rest := entries.Keys;
    keys := [];
    while rest != {}
      invariant rest <= entries.Keys && InOrder(keys)
      invariant forall k :: k in keys <==> k in entries && k !in rest
    {
      var key :| key in rest;
      keys, rest := Insert(key, keys), rest - {key};
    }
  }

  lemma TextStep(keys: seq<Key>, entries: Entries, i: nat, text: string)
    requires i < |keys| && forall k :: k in keys ==> k in entries
    ensures text + Text(keys[i..], entries) == text + LineOf(keys[i], entries[keys[i]]) + "\n" + Text(keys[i + 1..], entries)
  {
    assert keys[i..][0] == keys[i] && keys[i..][1..] == keys[i + 1..];
  }

  method PersistEntries(entries: Entries) returns (text: string)
    ensures Writes(entries, text)
  {
    var keys := OrderedKeys(entries);
    text := "";
    var i := 0;
    assert keys[0..] == keys;
    while i < |keys|
      invariant i <= |keys| && text + Text(keys[i..], entries) == Text(keys, entries)
    {
      TextStep(keys, entries, i, text);
      text := text + LineOf(keys[i], entries[keys[i]]) + "\n";
      i := i + 1;
    }
  }

  class LeadershipRegistry {
    const nodes: seq<nat>
    var entries: Entries
    var file: Option<string>

    ghost function State(): Registry
      reads this
    {
      Registry(entries, file)
    }

    ghost predicate Valid()
      reads this
    {
      Members(nodes) && Durable(State())
    }

    constructor (nodes: seq<nat>, entries: Entries, file: Option<string>)
      ensures this.nodes == nodes && State() == Registry(entries, file)
    {
      this.nodes, this.entries, this.file := nodes, entries, file;
    }

    static method Open(nodes: seq<nat>, file: Option<string>) returns (r: Result<LeadershipRegistry, LeadershipError>)
      ensures match Loaded(file)
              case Failure(error) => r == Failure(error)
              case Success(entries) =>
                r.Success? && fresh(r.value) && r.value.State() == Registry(entries, file) && r.value.nodes == nodes
    {
      var entries := map[];
      if file.Some? {
        var parsed := ParseEntries(file.value);
        if parsed.Failure? {
          return Failure(parsed.error);
        }
        entries := parsed.value;
      }
      var registry := new LeadershipRegistry(nodes, entries, file);
      return Success(registry);
    }

    method InsertMissing(topic: string, partitions: nat) returns (changed: bool)
      requires nodes != []
      modifies this`entries
      ensures entries == Ensured(nodes, old(entries), topic, partitions)
      ensures changed <==> entries != old(entries)
    {
      ghost var before, added := entries, (topic, 0);
      var partition := 0;
      changed := false;
      while partition < partitions
        invariant partition <= partitions && entries == Ensured(nodes, before, topic, partition)
        invariant if changed then added in entries && added !in before else entries == before
      {
        if (topic, partition) !in entries {
          EnsuredAdds(nodes, before, topic, partition, (topic, partition));
          entries := entries[(topic, partition) := Entry(nodes[partition % |nodes|], 0, 0)];
          changed, added := true, (topic, partition);
        }
        partition := partition + 1;
      }
    }

    method EnsureTopic(topic: string, partitions: nat)
      requires Valid() && Proper(Event.EnsureTopic(topic, partitions))
      modifies this
      ensures Valid() && Next(nodes, old(State()), Event.EnsureTopic(topic, partitions), State())
    {
      ghost var before := State();
      var changed := InsertMissing(topic, partitions);
      if changed {
        var text := PersistEntries(entries);
        file := Some(text);
      }
      NextIsDurable(nodes, before, Event.EnsureTopic(topic, partitions), State());
    }

    method Partition(topic: string, partition: nat) returns (r: Result<Entry, LeadershipError>)
      ensures r == if (topic, partition) in entries then Success(entries[(topic, partition)]) else Failure(MissingPartition)
    {
      if (topic, partition) in entries {
        return Success(entries[(topic, partition)]);
      }
      return Failure(MissingPartition);
    }

    /** The leaderships of all partitions of a topic; unknown ones are created first. */
    method Topic(topic: string, partitions: nat) returns (r: Result<seq<Entry>, LeadershipError>)
      requires Valid() && Proper(Event.EnsureTopic(topic, partitions))
      modifies this
      ensures Valid() && Next(nodes, old(State()), Event.EnsureTopic(topic, partitions), State())
      ensures r.Success? && |r.value| == partitions
      ensures forall p :: 0 <= p < partitions ==> (topic, p) in entries && r.value[p] == entries[(topic, p)]
    {
      ghost var before := entries;
      EnsureTopic(topic, partitions);
      forall p | 0 <= p < partitions
        ensures (topic, p) in entries
      {
        EnsuredAdds(nodes, before, topic, partitions, (topic, p));
      }
      r := Collect(topic, partitions);
    }

    method Collect(topic: string, partitions: nat) returns (r: Result<seq<Entry>, LeadershipError>)
      requires forall p :: 0 <= p < partitions ==> (topic, p) in entries
      ensures r.Success? && |r.value| == partitions
      ensures forall p :: 0 <= p < partitions ==> r.value[p] == entries[(topic, p)]
    {
      var found := [];
      for p := 0 to partitions
        invariant |found| == p && forall q :: 0 <= q < p ==> found[q] == entries[(topic, q)]
      {
        var entry := Partition(topic, p);
        match entry {
          case Success(e) => found := found + [e];
          case Failure(error) => return Failure(error);
        }
      }
      return Success(found);
    }

    method Apply(topic: string, partition: nat, offered: Entry) returns (r: Result<Unit, LeadershipError>)
      requires Valid() && Proper(Event.Apply(topic, partition, offered))
      modifies this
      ensures Valid() && Next(nodes, old(State()), Event.Apply(topic, partition, offered), State())
      ensures r.Success? <==> Applied(nodes, old(entries), (topic, partition), offered).Success?
      ensures r.Success? ==> (topic, partition) in entries && entries[(topic, partition)] == offered
      ensures r.Failure? ==> r.error == Applied(nodes, old(entries), (topic, partition), offered).error
    {
      var key := (topic, partition);
      ghost var before := State();
      if offered.leader !in nodes {
        return Failure(UnknownBroker);
      }
      if key in entries {
        var current := entries[key];
        if offered.epoch < current.epoch
           || (offered.epoch == current.epoch
               && (offered.leader != current.leader || offered.highWatermark < current.highWatermark)) {
          return Failure(StaleEpoch);
        }
        if offered == current {
          assert entries[key := offered] == entries;
          return Success(Done);
        }
      }
      entries := entries[key := offered];
      assert entries[key] == offered;
      var text := PersistEntries(entries);
      file := Some(text);
      NextIsDurable(nodes, before, Event.Apply(topic, partition, offered), State());
      return Success(Done);
    }
  }
}
