/** Dealing the partitions of a topic to the members of a consumer group. */
module Rebalance {
  import opened LeadershipText

  type Assignments = map<string, seq<nat>>

  ghost predicate Ascending(names: seq<string>) {
    forall i, j :: 0 <= i < j < |names| ==> names[i] != names[j] && TextLe(names[i], names[j])
  }

  function InsertName(name: string, names: seq<string>): (r: seq<string>)
    requires Ascending(names) && name !in names
    ensures Ascending(r)
    ensures forall n :: n in r <==> n == name || n in names
  {
    if names == [] then [name]
    else if TextLe(name, names[0]) then
      assert forall i :: 0 <= i < |names| ==> TextLe(name, names[i]) && name != names[i] by {
        forall i | 0 <= i < |names|
          ensures TextLe(name, names[i]) && name != names[i]
        {
          assert names[i] in names;
          if i > 0 {
            TextLeTransitive(name, names[0], names[i]);
          }
        }
      }
      [name] + names
    else
      assert TextLe(names[0], name) by { TextLeTotal(name, names[0]); }
      var rest := InsertName(name, names[1..]);
      assert forall i :: 0 <= i < |rest| ==> rest[i] in rest && names[0] != rest[i] && TextLe(names[0], rest[i]) by {
        forall i | 0 <= i < |rest|
          ensures rest[i] in rest && names[0] != rest[i] && TextLe(names[0], rest[i])
        {
          assert rest[i] in rest;
        }
      }
      [names[0]] + rest
  }

  /** The keys of a `BTreeMap` in iteration order. */
  ghost function OrderOf(names: set<string>): (order: seq<string>)
    ensures Ascending(order) && forall n :: n in order <==> n in names
  {
    if names == {} then []
    else
      var name :| name in names;
      InsertName(name, OrderOf(names - {name}))
  }

  lemma {:induction false} AscendingIsUnique(a: seq<string>, b: seq<string>)
    requires Ascending(a) && Ascending(b) && forall n :: n in a <==> n in b
    ensures a == b
  {
    assert |a| > 0 ==> a[0] in a;
    assert |b| > 0 ==> b[0] in b;
    if |a| > 0 && |b| > 0 {
      assert a[0] in b && b[0] in a;
      TextLeTotal(a[0], b[0]);
      assert a[0] == b[0];
      forall n
        ensures n in a[1..] <==> n in b[1..]
      {
        assert n in a <==> n == a[0] || n in a[1..];
        assert n in b <==> n == b[0] || n in b[1..];
      }
      AscendingIsUnique(a[1..], b[1..]);
    }
  }

  method OrderedNames(names: set<string>) returns (order: seq<string>)
    ensures order == OrderOf(names)
  {
    var rest := names;
    order := [];
    while rest != {}
      invariant rest <= names && Ascending(order)
      invariant forall n :: n in order <==> n in names && n !in rest
    {
      var name :| name in rest;
      order, rest := InsertName(name, order), rest - {name};
    }
    AscendingIsUnique(order, OrderOf(names));
  }

  function ShareOf(a: Assignments, member: string): seq<nat> {
    if member in a then a[member] else []
  }

  /** Partition after partition goes to the members in turn. */
  function Deal(order: seq<string>, partitions: nat): Assignments
    requires order != []
  {
    if partitions == 0 then map[]
    else
      var p, dealt := partitions - 1, Deal(order, partitions - 1);
      var member := order[p % |order|];
      dealt[member := ShareOf(dealt, member) + [p]]
  }

  method DealPartitions(order: seq<string>, partitions: nat) returns (assignments: Assignments)
    requires order != []
    ensures assignments == Deal(order, partitions)
  {
    assignments := map[];
    for p := 0 to partitions
      invariant assignments == Deal(order, p)
    {
      var member := order[p % |order|];
      assignments := assignments[member := (if member in assignments then assignments[member] else []) + [p]];
    }
  }

  /** Partition `p` belongs to the member at position `p % |order|` and to nobody else. */
  lemma {:induction false} DealtTo(order: seq<string>, partitions: nat, i: nat, p: nat)
    requires Ascending(order) && i < |order|
    ensures p in ShareOf(Deal(order, partitions), order[i]) <==> p < partitions && p % |order| == i
  {
    if partitions > 0 {
      DealtTo(order, partitions - 1, i, p);
    }
  }

  lemma {:induction false} DealtToMembers(order: seq<string>, partitions: nat)
    requires order != []
    ensures forall m :: m in Deal(order, partitions) ==> m in order
  {
    if partitions > 0 {
      DealtToMembers(order, partitions - 1);
    }
  }

  ghost predicate Increasing(share: seq<nat>) {
    forall j, k :: 0 <= j < k < |share| ==> share[j] < share[k]
  }

  lemma {:induction false} DealtInOrder(order: seq<string>, partitions: nat, member: string)
    requires order != []
    ensures var share := ShareOf(Deal(order, partitions), member);
            && (forall k :: 0 <= k < |share| ==> share[k] < partitions)
            && Increasing(share)
  {
    if partitions > 0 {
      DealtInOrder(order, partitions - 1, member);
      var p, before := partitions - 1, ShareOf(Deal(order, partitions - 1), member);
      assert ShareOf(Deal(order, partitions), member) == if order[p % |order|] == member then before + [p] else before;
    }
  }

  lemma DivisionStep(p: nat, n: nat)
    requires n > 0
    ensures if p % n == n - 1 then (p + 1) / n == p / n + 1 && (p + 1) % n == 0
            else (p + 1) / n == p / n && (p + 1) % n == p % n + 1
  {
    var q, r := p / n, p % n;
    assert p == q * n + r;
    if r == n - 1 {
      assert p + 1 == (q + 1) * n;
      Quotient(p + 1, n, q + 1, 0);
    } else {
      Quotient(p + 1, n, q, r + 1);
    }
  }

  lemma AtLeastOnce(k: int, n: nat)
    ensures k > 0 ==> k * n >= n
  {
    if k > 0 {
      assert k * n == (k - 1) * n + n;
    }
  }

  lemma NoRoomBetween(k: int, n: nat)
    requires n > 0 && 0 - n < k * n < n
    ensures k == 0
  {
    AtLeastOnce(k, n);
    AtLeastOnce(-k, n);
    assert (-k) * n == -(k * n);
  }

  lemma Quotient(x: nat, n: nat, q: nat, r: nat)
    requires n > 0 && x == q * n + r && r < n
    ensures x / n == q && x % n == r
  {
    var q', r' := x / n, x % n;
    assert x == q' * n + r';
    assert (q - q') * n == q * n - q' * n;
    NoRoomBetween(q - q', n);
  }

  lemma {:induction false} DealtEvenly(order: seq<string>, partitions: nat, i: nat)
    requires Ascending(order) && i < |order|
    ensures |ShareOf(Deal(order, partitions), order[i])|
            == partitions / |order| + (if i < partitions % |order| then 1 else 0)
  {
    var n := |order|;
    if partitions == 0 {
      Quotient(0, n, 0, 0);
    } else {
      var p := partitions - 1;
      DealtEvenly(order, p, i);
      DivisionStep(p, n);
      assert order[p % n] == order[i] <==> p % n == i;
    }
  }

  ghost predicate Owned(a: Assignments, members: set<string>, p: nat) {
    exists m :: m in members && p in ShareOf(a, m)
  }

  /**
   Every partition below `partitions` belongs to exactly one member, nobody has any other partition, every share is in
   ascending order, and the shares of any two members differ by at most one partition.
   */
  ghost predicate ExactCover(a: Assignments, members: set<string>, partitions: nat) {
    && a.Keys <= members
    && (forall p: nat :: p < partitions <==> Owned(a, members, p))
    && (forall m1, m2, p :: m1 in members && m2 in members && p in ShareOf(a, m1) && p in ShareOf(a, m2) ==> m1 == m2)
    && (forall m :: m in a ==> Increasing(a[m]))
    && (forall m1, m2 :: m1 in members && m2 in members ==> |ShareOf(a, m1)| <= |ShareOf(a, m2)| + 1)
  }

  lemma SomeoneIsFirst(members: set<string>)
    requires members != {}
    ensures OrderOf(members) != []
  {
    assert exists m :: m in members && m in OrderOf(members);
  }

  lemma DealCoversExactly(members: set<string>, partitions: nat)
    requires members != {}
    ensures OrderOf(members) != [] && ExactCover(Deal(OrderOf(members), partitions), members, partitions)
  {
    var order := OrderOf(members);
    SomeoneIsFirst(members);
    var a := Deal(order, partitions);
    DealtToMembers(order, partitions);
    forall p: nat
      ensures p < partitions <==> Owned(a, members, p)
    {
      Owner(members, partitions, p);
    }
    forall m1, m2, p | m1 in members && m2 in members && p in ShareOf(a, m1) && p in ShareOf(a, m2)
      ensures m1 == m2
    {
      OwnersAgree(members, partitions, p, m1, m2);
    }
    forall m | m in a
      ensures Increasing(a[m])
    {
      DealtInOrder(order, partitions, m);
    }
    forall m1, m2 | m1 in members && m2 in members
      ensures |ShareOf(a, m1)| <= |ShareOf(a, m2)| + 1
    {
      SharesDifferByOne(members, partitions, m1, m2);
    }
  }

  lemma Owner(members: set<string>, partitions: nat, p: nat)
    requires OrderOf(members) != []
    ensures p < partitions <==> Owned(Deal(OrderOf(members), partitions), members, p)
  {
    var order := OrderOf(members);
    var a := Deal(order, partitions);
    DealtTo(order, partitions, p % |order|, p);
    assert order[p % |order|] in members;
    if m :| m in members && p in ShareOf(a, m) {
      var i :| 0 <= i < |order| && order[i] == m;
      DealtTo(order, partitions, i, p);
    }
  }

  lemma OwnersAgree(members: set<string>, partitions: nat, p: nat, m1: string, m2: string)
    requires OrderOf(members) != [] && m1 in members && m2 in members
    requires p in ShareOf(Deal(OrderOf(members), partitions), m1) && p in ShareOf(Deal(OrderOf(members), partitions), m2)
    ensures m1 == m2
  {
    var order := OrderOf(members);
    var i :| 0 <= i < |order| && order[i] == m1;
    var j :| 0 <= j < |order| && order[j] == m2;
    DealtTo(order, partitions, i, p);
    DealtTo(order, partitions, j, p);
  }

  lemma SharesDifferByOne(members: set<string>, partitions: nat, m1: string, m2: string)
    requires OrderOf(members) != [] && m1 in members && m2 in members
    ensures |ShareOf(Deal(OrderOf(members), partitions), m1)| <= |ShareOf(Deal(OrderOf(members), partitions), m2)| + 1
  {
    var order := OrderOf(members);
    var i :| 0 <= i < |order| && order[i] == m1;
    var j :| 0 <= j < |order| && order[j] == m2;
    DealtEvenly(order, partitions, i);
    DealtEvenly(order, partitions, j);
  }
}
