// The ring of service instances: a list sorted by instance id, and the owner of a calculator
// as the entry at its jump-hash bucket.  Ids are numbered in the order of their collation.
module HashRing {
  import opened Wrappers
  import opened JumpHash

  datatype Instance = Instance(id: int, url: string)

  /** What an instance publishes about itself; without a url it takes no part in routing. */
  datatype Snapshot = Snapshot(id: int, url: Option<string>)

  predicate Sorted(ring: seq<Instance>) {
    forall i, j :: 0 <= i < j < |ring| ==> ring[i].id < ring[j].id
  }

  ghost function Members(ring: seq<Instance>): set<Instance> {
    set i | i in ring
  }

  // ---------------------------------------------------------------- building the ring

  /** The entries of the snapshots that can be routed to, and self if it is not among them. */
  ghost predicate IsEntry(snapshots: seq<Snapshot>, self: Instance, i: Instance) {
    || Snapshot(i.id, Some(i.url)) in snapshots
    || (i == self && forall s :: s in snapshots && s.url.Some? ==> s.id != self.id)
  }

  /** Snapshots come out of an object keyed by instance id. */
  predicate DistinctIds(snapshots: seq<Snapshot>) {
    forall i, j :: 0 <= i < j < |snapshots| ==> snapshots[i].id != snapshots[j].id
  }

  function Place(ring: seq<Instance>, x: Instance): (p: nat)
    ensures p <= |ring|
    ensures forall k :: 0 <= k < p ==> ring[k].id < x.id
    ensures p < |ring| ==> ring[p].id >= x.id
  {
    if |ring| > 0 && ring[0].id < x.id then 1 + Place(ring[1..], x) else 0
  }

  function Inserted(ring: seq<Instance>, x: Instance): seq<Instance> {
    ring[..Place(ring, x)] + [x] + ring[Place(ring, x)..]
  }

  lemma InsertedMembers(ring: seq<Instance>, x: Instance)
    ensures forall i :: i in Inserted(ring, x) <==> i in ring || i == x
    ensures |Inserted(ring, x)| == |ring| + 1
  {
    var p := Place(ring, x);
    assert ring == ring[..p] + ring[p..];
  }

  lemma InsertedSorted(ring: seq<Instance>, x: Instance)
    requires Sorted(ring) && forall k :: 0 <= k < |ring| ==> ring[k].id != x.id
    ensures Sorted(Inserted(ring, x))
  {
    var p, r := Place(ring, x), Inserted(ring, x);
    forall i, j | 0 <= i < j < |r| ensures r[i].id < r[j].id {
      assert r[i] == if i < p then ring[i] else if i == p then x else ring[i - 1];
      assert r[j] == if j < p then ring[j] else if j == p then x else ring[j - 1];
    }
  }

  predicate Distinct(list: seq<Instance>) {
    forall i, j :: 0 <= i < j < |list| ==> list[i].id != list[j].id
  }

  method SortById(list: seq<Instance>) returns (r: seq<Instance>)
    requires Distinct(list)
    ensures Sorted(r) && |r| == |list| && forall i :: i in r <==> i in list
  {
    r := [];
    for k := 0 to |list|
      invariant Sorted(r) && |r| == k
      invariant forall i :: i in r <==> i in list[..k]
    {
      assert list[..k + 1] == list[..k] + [list[k]];
      forall m | 0 <= m < |r| ensures r[m].id != list[k].id {
        assert r[m] in list[..k];
      }
      InsertedSorted(r, list[k]);
      InsertedMembers(r, list[k]);
      r := Inserted(r, list[k]);
    }
    assert list[..|list|] == list;
  }

  lemma SameEmptiness(a: seq<Instance>, b: seq<Instance>)
    requires Members(a) == Members(b)
    ensures |a| == 0 <==> |b| == 0
  {
    if |a| > 0 {
      assert a[0] in Members(b);
    }
    if |b| > 0 {
      assert b[0] in Members(a);
    }
  }

  /** Two sorted rings with the same members are the same list. */
  lemma {:induction false} SortedUnique(a: seq<Instance>, b: seq<Instance>)
    requires Sorted(a) && Sorted(b) && Members(a) == Members(b)
    ensures a == b
  {
    SameEmptiness(a, b);
    if |a| > 0 {
      var i: nat :| i < |b| && b[i] == a[0] by { assert a[0] in Members(b); }
      var j: nat :| j < |a| && a[j] == b[0] by { assert b[0] in Members(a); }
      assert a[0] == b[0];
      TailMembers(a);
      TailMembers(b);
      SortedUnique(a[1..], b[1..]);
      assert a == [a[0]] + a[1..] && b == [b[0]] + b[1..];
    }
  }

  lemma TailMembers(a: seq<Instance>)
    requires Sorted(a) && |a| > 0
    ensures Members(a[1..]) == Members(a) - {a[0]} && Sorted(a[1..])
  {
    forall i ensures i in a[1..] <==> i in a && i != a[0] {
      if i in a && i != a[0] {
        var k :| 0 <= k < |a| && a[k] == i;
        assert a[1..][k - 1] == i;
      }
    }
  }

  /** A new member takes a place in the list and moves the rest behind it up by one. */
  lemma JoinInserts(ring: seq<Instance>, x: Instance, grown: seq<Instance>)
    requires Sorted(ring) && Sorted(grown) && forall k :: 0 <= k < |ring| ==> ring[k].id != x.id
    requires Members(grown) == Members(ring) + {x}
    ensures grown == Inserted(ring, x)
  {
    InsertedMembers(ring, x);
    InsertedSorted(ring, x);
    assert Members(Inserted(ring, x)) == Members(grown);
    SortedUnique(Inserted(ring, x), grown);
  }

  lemma SelfListed(snapshots: seq<Snapshot>, list: seq<Instance>, self: Instance)
    requires forall i :: i in list <==> Snapshot(i.id, Some(i.url)) in snapshots
    ensures (exists i :: i in list && i.id == self.id)
       <==> (exists s :: s in snapshots && s.url.Some? && s.id == self.id)
  {
    if s :| s in snapshots && s.url.Some? && s.id == self.id {
      assert Instance(s.id, s.url.value) in list;
    }
  }

  ghost function OwnerIn(rnd: real -> real, ring: seq<Instance>, seed: nat): Instance
    requires Rounding(rnd) && 1 <= |ring| <= EXACT
  {
    BucketInRange(rnd, seed, |ring|);
    ring[Bucket(rnd, seed, |ring|)]
  }

  class Ring {
    var instances: seq<Instance>
    var selfIndex: int
    const self: Instance
    const rnd: real -> real

    ghost predicate Valid()
      reads this
    {
      && Rounding(rnd) && Sorted(instances) && |instances| <= EXACT
      && (|instances| > 0 ==> 0 <= selfIndex < |instances| && instances[selfIndex].id == self.id)
    }

    constructor (self: Instance, rnd: real -> real)
      requires Rounding(rnd)
      ensures Valid() && instances == [] && this.self == self && this.rnd == rnd
    {
      this.self, this.rnd, instances, selfIndex := self, rnd, [], -1;
    }

    /** A refresh from the published snapshots; None when they could not be fetched. */
    method Refresh(fetched: Option<seq<Snapshot>>)
      requires Valid()
      requires fetched.Some? ==> DistinctIds(fetched.value) && |fetched.value| < EXACT
      modifies this
      ensures Valid()
      ensures fetched.None? ==> instances == old(instances) && selfIndex == old(selfIndex)
      ensures fetched.Some? ==> |instances| > 0 && forall i :: i in instances <==> IsEntry(fetched.value, self, i)
    {
      if fetched.None? {
        return;
      }
      var snapshots := fetched.value;
      var list: seq<Instance> := [];
      var selfPresent := false;
      for k := 0 to |snapshots|
        invariant |list| <= k
        invariant Distinct(list)
        invariant forall i :: i in list <==> Snapshot(i.id, Some(i.url)) in snapshots[..k]
        invariant selfPresent <==> exists i :: i in list && i.id == self.id
      {
        var snap := snapshots[k];
        assert snapshots[..k + 1] == snapshots[..k] + [snap];
        if snap.url.Some? {
          var entry := Instance(snap.id, snap.url.value);
          forall m | 0 <= m < |list| ensures list[m].id != snap.id {
            assert Snapshot(list[m].id, Some(list[m].url)) in snapshots[..k];
          }
          ghost var was := list;
          list := list + [entry];
          assert entry in list && forall i :: i in list <==> i in was || i == entry;
          selfPresent := selfPresent || snap.id == self.id;
        }
      }
      assert snapshots[..|snapshots|] == snapshots;
      assert selfPresent <==> exists s :: s in snapshots && s.url.Some? && s.id == self.id by {
        SelfListed(snapshots, list, self);
      }
      if !selfPresent {
        list := list + [self];
        assert self in list;
      }
      instances := SortById(list);
      selfIndex := FindSelf(instances);
    }

    method FindSelf(list: seq<Instance>) returns (k: int)
      requires Sorted(list) && exists i :: i in list && i.id == self.id
      ensures 0 <= k < |list| && list[k].id == self.id
    {
      k := 0;
      while list[k].id != self.id
        invariant 0 <= k < |list|
        invariant exists j :: k <= j < |list| && list[j].id == self.id
      {
        k := k + 1;
      }
    }

    ghost function Owner(seed: nat): Instance
      requires Valid() && |instances| > 0
      reads this
    {
      OwnerIn(rnd, instances, seed)
    }

    /** Without a ring everything is handled locally. */
    ghost predicate Mine(seed: nat)
      requires Valid()
      reads this
    {
      |instances| > 0 ==> Owner(seed).id == self.id
    }

    method GetOwner(seed: nat) returns (owner: Option<Instance>)
      requires Valid()
      ensures |instances| == 0 ==> owner == None
      ensures |instances| > 0 ==> owner == Some(Owner(seed))
    {
      if |instances| == 0 {
        return None;
      }
      var k := Compute(rnd, seed, |instances|);
      owner := Some(instances[k]);
    }

    method IsSelf(seed: nat) returns (mine: bool)
      requires Valid()
      ensures mine <==> Mine(seed)
    {
      if |instances| == 0 {
        return true;
      }
      var k := Compute(rnd, seed, |instances|);
      mine := k == selfIndex;
    }
  }

  // ---------------------------------------------------------------- which keys move

  lemma InsertedAt(ring: seq<Instance>, x: Instance, k: nat)
    requires k <= |ring|
    ensures Inserted(ring, x)[k]
         == if k < Place(ring, x) then ring[k] else if k == Place(ring, x) then x else ring[k - 1]
  {
  }

  lemma OtherEntry(ring: seq<Instance>, i: nat, j: nat)
    requires Sorted(ring) && i < |ring| && j < |ring| && i != j
    ensures ring[i] != ring[j]
  {
  }

  /** When instance `x` joins at place `p`, a key keeps its owner or goes to `x` exactly if its
      bucket in the grown ring is not past `p`, or it moved from the last old bucket to the new one. */
  lemma JoinMoves(rnd: real -> real, ring: seq<Instance>, x: Instance, seed: nat)
    requires Rounding(rnd) && 1 <= |ring| < EXACT && Sorted(ring)
    requires forall k :: 0 <= k < |ring| ==> ring[k].id != x.id
    ensures var p := Place(ring, x);
            var grown := Inserted(ring, x);
            var b, b' := Bucket(rnd, seed, |ring|), Bucket(rnd, seed, |grown|);
            (OwnerIn(rnd, grown, seed) == OwnerIn(rnd, ring, seed) || OwnerIn(rnd, grown, seed) == x)
            <==> (b' <= p || (b' == |ring| && b == |ring| - 1))
  {
    var p := Place(ring, x);
    var grown := Inserted(ring, x);
    var b, b' := Bucket(rnd, seed, |ring|), Bucket(rnd, seed, |grown|);
    BucketInRange(rnd, seed, |ring|);
    BucketInRange(rnd, seed, |grown|);
    MinimalMovement(rnd, seed, |ring|, |ring| + 1);
    InsertedAt(ring, x, b');
    if b' > p && b' != b + 1 {
      OtherEntry(ring, b' - 1, b);
    }
  }

  /** An instance that sorts last takes keys over and moves no other key. */
  lemma JoinAtEnd(rnd: real -> real, ring: seq<Instance>, x: Instance, seed: nat)
    requires Rounding(rnd) && 1 <= |ring| < EXACT && Sorted(ring)
    requires forall i :: i in ring ==> i.id < x.id
    ensures Sorted(ring + [x])
    ensures OwnerIn(rnd, ring + [x], seed) == OwnerIn(rnd, ring, seed) || OwnerIn(rnd, ring + [x], seed) == x
  {
    BucketInRange(rnd, seed, |ring|);
    BucketInRange(rnd, seed, |ring| + 1);
    MinimalMovement(rnd, seed, |ring|, |ring| + 1);
  }

  /** An instance that sorts first makes a key move between two instances that were there before:
      with seed 4 from "b" to "a", although only "new" joined. */
  lemma JoinInFrontMovesOthers()
    ensures var rnd := (x: real) => x;
            var a, b, newcomer := Instance(1, "a"), Instance(2, "b"), Instance(0, "new");
            && Inserted([a, b], newcomer) == [newcomer, a, b]
            && OwnerIn(rnd, [a, b], 4) == b
            && OwnerIn(rnd, [newcomer, a, b], 4) == a
  {
    var rnd := (x: real) => x;
    var a, b, newcomer := Instance(1, "a"), Instance(2, "b"), Instance(0, "new");
    assert Place([a, b], newcomer) == 0;
    assert NextSeed(4) == 11451734223111767029;
    assert Draw(11451734223111767029) == 1333157325;
    ExactIsJump(0, 1333157325);
    assert Jump(rnd, 0, 1333157325) == 1;
    assert NextSeed(11451734223111767029) == 3046205559933245730;
    assert Draw(3046205559933245730) == 354625000;
    ExactIsJump(1, 354625000);
    assert Jump(rnd, 1, 354625000) == 12;
    forall n | n == 2 || n == 3 ensures Bucket(rnd, 4, n) == 1 {
      assert Walk(rnd, 11451734223111767029, 1, n, 0) == Walk(rnd, 3046205559933245730, 12, n, 1);
    }
  }

  // ---------------------------------------------------------------- several instances

  /** Instances that know the same members, whatever order they learned them in. */
  ghost predicate Agree(rings: seq<Ring>)
    reads set ring | ring in rings
  {
    && (forall k :: 0 <= k < |rings| ==> rings[k].Valid() && |rings[k].instances| > 0)
    && (forall j, k :: 0 <= j < |rings| && 0 <= k < |rings| ==>
          rings[j].rnd == rings[k].rnd && Members(rings[j].instances) == Members(rings[k].instances))
    && (forall j, k :: 0 <= j < k < |rings| ==> rings[j].self.id != rings[k].self.id)
  }

  lemma SameRing(rings: seq<Ring>, j: nat, k: nat, seed: nat)
    requires Agree(rings) && j < |rings| && k < |rings|
    ensures rings[j].instances == rings[k].instances && rings[j].Owner(seed) == rings[k].Owner(seed)
  {
    SortedUnique(rings[j].instances, rings[k].instances);
  }

  /** They name the same owner for every key, and no two of them take the key for their own. */
  lemma OneOwner(rings: seq<Ring>, seed: nat, j: nat, k: nat)
    requires Agree(rings) && j < |rings| && k < |rings|
    ensures rings[j].Owner(seed) == rings[k].Owner(seed)
    ensures rings[j].Mine(seed) && rings[k].Mine(seed) ==> j == k
    ensures rings[j].Mine(seed) <==> rings[j].self.id == rings[k].Owner(seed).id
  {
    SameRing(rings, j, k, seed);
  }

  lemma OwnerListed(ring: Ring, seed: nat)
    requires ring.Valid() && |ring.instances| > 0
    ensures ring.Owner(seed) in ring.instances
  {
    BucketInRange(ring.rnd, seed, |ring.instances|);
  }

  ghost predicate Runs(rings: seq<Ring>, i: Instance)
  {
    exists m :: 0 <= m < |rings| && rings[m].self.id == i.id
  }

  /** If every member runs, exactly one of them takes the key for its own. */
  lemma ExactlyOne(rings: seq<Ring>, seed: nat) returns (k: nat)
    requires Agree(rings) && rings != [] && forall i :: i in rings[0].instances ==> Runs(rings, i)
    ensures k < |rings| && rings[k].Mine(seed)
    ensures forall j :: 0 <= j < |rings| && rings[j].Mine(seed) ==> j == k
  {
    k := OwnerRuns(rings, seed);
    forall j | 0 <= j < |rings| && rings[j].Mine(seed) ensures j == k {
      OneOwner(rings, seed, j, k);
    }
  }

  lemma OwnerRuns(rings: seq<Ring>, seed: nat) returns (k: nat)
    requires Agree(rings) && rings != [] && forall i :: i in rings[0].instances ==> Runs(rings, i)
    ensures k < |rings| && rings[k].Mine(seed)
  {
    var owner := rings[0].Owner(seed);
    OwnerListed(rings[0], seed);
    assert Runs(rings, owner);
    k :| 0 <= k < |rings| && rings[k].self.id == owner.id;
    OneOwner(rings, seed, k, 0);
  }
}
