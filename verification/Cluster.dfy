/** Cluster membership, replica placement and the per-partition leadership entry. */
module Cluster {
  import opened Wrappers

  const U64_MAX: nat := 0xFFFF_FFFF_FFFF_FFFF

  /** A partition's leadership as every broker's registry stores it. */
  datatype Entry = Entry(leader: nat, epoch: nat, highWatermark: nat)

  datatype LeadershipError = UnknownBroker | StaleEpoch | MissingPartition | InvalidMetadata

  lemma LeaderPosition(partition: nat, n: nat)
    requires n > 0
    ensures partition % n == partition - n * (partition / n)
  {
  }

  lemma WrapOnce(x: nat, n: nat)
    requires 0 < n && x < 2 * n
    ensures x % n == if x < n then x else x - n
  {
  }

  /** One partition of a cluster: the node ids in ascending order and the replication policy. */
  datatype Topology = Topology(nodes: seq<nat>, partition: nat, replicationFactor: nat, minInSync: nat) {

    /** What configuration validation establishes. */
    ghost predicate Valid() {
      && (forall i, j :: 0 <= i < j < |nodes| ==> nodes[i] < nodes[j])
      && 1 <= minInSync <= replicationFactor <= |nodes|
    }

    function Controller(): nat
      requires |nodes| > 0
    {
      nodes[0]
    }

    function DeterministicLeader(): nat
      requires |nodes| > 0
    {
      nodes[partition % |nodes|]
    }

    function Replica(i: nat): nat
      requires |nodes| > 0
    {
      nodes[(partition % |nodes| + i) % |nodes|]
    }

    function Replicas(): set<nat>
      requires |nodes| > 0
    {
      set i | 0 <= i < replicationFactor :: Replica(i)
    }

    predicate IsReplica(broker: nat)
      requires |nodes| > 0
    {
      exists i :: 0 <= i < replicationFactor && Replica(i) == broker
    }

    function Followers(responder: nat): seq<nat>
      requires |nodes| > 0
    {
      FollowersFrom(responder, 0)
    }

    function FollowersFrom(responder: nat, i: nat): seq<nat>
      requires |nodes| > 0
      decreases replicationFactor - i
    {
      if i >= replicationFactor then []
      else if Replica(i) != responder then [Replica(i)] + FollowersFrom(responder, i + 1)
      else FollowersFrom(responder, i + 1)
    }

    /**
     The replicas are the `replicationFactor` nodes from the deterministic leader on, cyclically upwards: with the leader at
     position `l`, the nodes at `l`, `l + 1` and so on, and from the lowest node on after the highest.
     */
    lemma ReplicasByPosition()
      requires Valid()
      ensures var n := |nodes|; var l := partition - n * (partition / n);
              && l < n && DeterministicLeader() == nodes[l]
              && (forall i :: 0 <= i < replicationFactor ==> Replica(i) == nodes[if l + i < n then l + i else l + i - n])
              && (forall b :: b in Replicas() <==> exists k :: 0 <= k < n && nodes[k] == b && Placed(k))
              && (forall k: nat :: Placed(k) <==> l <= k < l + replicationFactor || k + n < l + replicationFactor)
      ensures forall b :: b in nodes ==> Controller() <= b
    {
      LeaderPosition(partition, |nodes|);
      forall i | 0 <= i < replicationFactor
        ensures Replica(i) == nodes[Position(i)]
      {
        ReplicaAt(i);
      }
      forall b
        ensures b in Replicas() <==> exists k :: 0 <= k < |nodes| && nodes[k] == b && Placed(k)
      {
        PlacedIff(b);
      }
    }

    /** Where the `i`th replica is. */
    function Position(i: nat): (k: nat)
      requires |nodes| > 0 && i < |nodes|
      ensures k < |nodes|
    {
      var l := partition % |nodes|;
      if l + i < |nodes| then l + i else l + i - |nodes|
    }

    predicate Placed(k: nat)
      requires |nodes| > 0
    {
      var l := partition % |nodes|;
      l <= k < l + replicationFactor || k + |nodes| < l + replicationFactor
    }

    lemma ReplicaAt(i: nat)
      requires Valid() && i < replicationFactor
      ensures Replica(i) == nodes[Position(i)] && Placed(Position(i))
    {
      WrapOnce(partition % |nodes| + i, |nodes|);
    }

    lemma PlacedIff(b: nat)
      requires Valid()
      ensures b in Replicas() <==> exists k :: 0 <= k < |nodes| && nodes[k] == b && Placed(k)
    {
      if b in Replicas() {
        var i :| 0 <= i < replicationFactor && Replica(i) == b;
        ReplicaAt(i);
        assert nodes[Position(i)] == b;
      }
      if k :| 0 <= k < |nodes| && nodes[k] == b && Placed(k) {
        var l := partition % |nodes|;
        var i := if l <= k < l + replicationFactor then k - l else k + |nodes| - l;
        ReplicaAt(i);
        assert Replica(i) == b;
      }
    }

    function ReplicasFrom(from: nat, count: nat): (s: seq<nat>)
      requires |nodes| > 0
      ensures |s| == count && forall j :: 0 <= j < count ==> s[j] == Replica(from + j)
      decreases count
    {
      if count == 0 then [] else [Replica(from)] + ReplicasFrom(from + 1, count - 1)
    }

    /** A leader sends to the others in the order of their placement, leaving itself out. */
    lemma FollowersInOrder(k: nat)
      requires Valid() && k < replicationFactor
      ensures Followers(Replica(k)) == ReplicasFrom(0, k) + ReplicasFrom(k + 1, replicationFactor - 1 - k)
    {
      FollowersBefore(k, 0);
    }

    lemma {:induction false} FollowersBefore(k: nat, i: nat)
      requires Valid() && i <= k < replicationFactor
      ensures FollowersFrom(Replica(k), i) == ReplicasFrom(i, k - i) + ReplicasFrom(k + 1, replicationFactor - 1 - k)
      decreases k - i
    {
      if i == k {
        FollowersBehind(k, k + 1);
      } else {
        ReplicaInjective(i, k);
        FollowersBefore(k, i + 1);
      }
    }

    lemma {:induction false} FollowersBehind(k: nat, i: nat)
      requires Valid() && k < i <= replicationFactor
      ensures FollowersFrom(Replica(k), i) == ReplicasFrom(i, replicationFactor - i)
      decreases replicationFactor - i
    {
      if i < replicationFactor {
        ReplicaInjective(k, i);
        FollowersBehind(k, i + 1);
      }
    }

    lemma ReplicaInjective(i: nat, j: nat)
      requires Valid()
      requires i < j < replicationFactor
      ensures Replica(i) != Replica(j)
    {
      var n, a := |nodes|, partition % |nodes|;
      WrapOnce(a + i, n);
      WrapOnce(a + j, n);
      var x, y := (a + i) % n, (a + j) % n;
      assert Replica(i) == nodes[x] && Replica(j) == nodes[y];
      assert x < y || y < x;
    }

    /** Placement picks exactly `replicationFactor` distinct brokers, the deterministic leader among them. */
    lemma {:induction false} ReplicaPlacement()
      requires Valid()
      ensures |Replicas()| == replicationFactor
      ensures DeterministicLeader() in Replicas()
      ensures forall b :: b in Replicas() <==> IsReplica(b)
      ensures forall b :: b in Replicas() ==> b in nodes
    {
      PlacementPrefix(replicationFactor);
      WrapOnce(partition % |nodes|, |nodes|);
      assert Replica(0) == DeterministicLeader();
      forall i | 0 <= i < replicationFactor
        ensures Replica(i) in nodes
      {
        var x := (partition % |nodes| + i) % |nodes|;
        assert nodes[x] in nodes;
      }
    }

    lemma PlacementPrefix(k: nat)
      requires Valid()
      requires k <= replicationFactor
      ensures |set i | 0 <= i < k :: Replica(i)| == k
    {
      forall i: nat, j: nat | i < j < k
        ensures Replica(i) != Replica(j)
      {
        ReplicaInjective(i, j);
      }
      var f, images := (i: nat) => Replica(i), set i | 0 <= i < k :: Replica(i);
      forall b
        ensures b in images <==> exists i: nat :: i < k && f(i) == b
      {
        if b in images {
          var i :| 0 <= i < k && Replica(i) == b;
          assert f(i) == b;
        }
        if i: nat :| i < k && f(i) == b {
          assert Replica(i) == b;
        }
      }
      CountOf(f, images, k);
    }

    lemma CountOf(f: nat -> nat, images: set<nat>, k: nat)
      requires forall i: nat, j: nat :: i < j < k ==> f(i) != f(j)
      requires forall b :: b in images <==> exists i: nat :: i < k && f(i) == b
      ensures |images| == k
    {
      CountImages(f, k);
      assert images == set i: nat | i < k :: f(i);
    }

    lemma {:induction false} CountImages(f: nat -> nat, k: nat)
      requires forall i: nat, j: nat :: i < j < k ==> f(i) != f(j)
      ensures |set i: nat | i < k :: f(i)| == k
    {
      if k > 0 {
        CountImages(f, k - 1);
        assert (set i: nat | i < k :: f(i)) == (set i: nat | i < k - 1 :: f(i)) + {f(k - 1)};
      }
    }

    /** The followers a leader sends to: every replica but itself, each exactly once. */
    lemma {:induction false} FollowersAreOtherReplicas(responder: nat)
      requires Valid()
      ensures forall b :: b in Followers(responder) <==> b in Replicas() && b != responder
      ensures forall i, j :: 0 <= i < j < |Followers(responder)| ==> Followers(responder)[i] != Followers(responder)[j]
    {
      FollowersSuffix(responder, 0);
    }

    lemma {:induction false} FollowersSuffix(responder: nat, k: nat)
      requires Valid()
      requires k <= replicationFactor
      ensures forall b :: b in FollowersFrom(responder, k)
                     <==> b != responder && exists i :: k <= i < replicationFactor && Replica(i) == b
      ensures forall i, j :: 0 <= i < j < |FollowersFrom(responder, k)|
                        ==> FollowersFrom(responder, k)[i] != FollowersFrom(responder, k)[j]
      decreases replicationFactor - k
    {
      if k < replicationFactor {
        FollowersSuffix(responder, k + 1);
        if Replica(k) != responder {
          forall i | k < i < replicationFactor
            ensures Replica(i) != Replica(k)
          {
            ReplicaInjective(k, i);
          }
          assert Replica(k) !in FollowersFrom(responder, k + 1);
        }
      }
    }
  }

  /** `later` may follow `earlier`: a newer epoch, or the same leader with at least the same high watermark. */
  predicate Follows(later: Entry, earlier: Entry) {
    || later.epoch > earlier.epoch
    || (later.epoch == earlier.epoch && later.leader == earlier.leader && later.highWatermark >= earlier.highWatermark)
  }

  /** An entry is taken exactly if it names a member and may follow what is known; a refusal says which of the two fails. */
  lemma AdoptsIff(nodes: seq<nat>, current: Option<Entry>, offered: Entry)
    ensures Adopt(nodes, current, offered)
            == if offered.leader !in nodes then Failure(UnknownBroker)
               else if current.None? || Follows(offered, current.value) then Success(offered)
               else Failure(StaleEpoch)
  {
  }

  /** The outcome of offering `offered` to a registry that holds `current` for the partition. */
  function Adopt(nodes: seq<nat>, current: Option<Entry>, offered: Entry): (r: Result<Entry, LeadershipError>)
    ensures r.Success? ==> r.value == offered && offered.leader in nodes
  {
    if offered.leader !in nodes then Failure(UnknownBroker)
    else if current.Some?
         && (|| offered.epoch < current.value.epoch
             || (offered.epoch == current.value.epoch
                 && (offered.leader != current.value.leader
                     || offered.highWatermark < current.value.highWatermark)))
    then Failure(StaleEpoch)
    else Success(offered)
  }
}
