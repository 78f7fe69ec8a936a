/** Joins lease states with the hash ring: the available shards are the nodes. */
module RingFromLeases {
  import opened Prelude
  import opened HashRing
  import opened ConsistentHash
  import opened Leases

  /** The shard a key belongs to under a list of leases; empty if no shard is available. */
  function ShardFor(hash: HashFunc, leases: seq<Lease>, now: int, key: string): (shard: string)
  {
    Place(hash, DEFAULT_TOKENS_PER_NODE, AvailableIDs(leases, now), key)
  }

  method FromLeases(defaultHash: HashFunc, leases: seq<Lease>, now: int) returns (ring: Ring, shards: seq<Shard>)
    ensures ring.Valid() && fresh(ring)
    ensures ring.hash == defaultHash && ring.tokensPerNode == DEFAULT_TOKENS_PER_NODE
    ensures ring.added == AvailableIDs(leases, now)
    ensures shards == ShardsOf(leases, now)
  {
    shards := ToShards(leases, now);
    var available := AvailableShards(shards);
    var ids := IDs(available);
    ring := new Ring(None, defaultHash, 0, ids);
  }

  /** What the webhook and the resync compute for a key: build the ring, then look the key up. */
  method LookUp(defaultHash: HashFunc, leases: seq<Lease>, now: int, key: string) returns (shard: string)
    ensures shard == ShardFor(defaultHash, leases, now, key)
    ensures shard != "" <==> exists l :: l in leases && Held(l)
  {
    var ring, _ := FromLeases(defaultHash, leases, now);
    shard := ring.Hash(key);
    ShardForAvailable(defaultHash, leases, now, key);
  }

  /** No two available shards own the position on the ring that the key belongs to. */
  ghost predicate UncontestedAmong(hash: HashFunc, leases: seq<Lease>, key: string)
  {
    Uncontested(hash, DEFAULT_TOKENS_PER_NODE, AvailableIDs(leases, 0), key)
  }

  ghost predicate SameLeases(a: seq<Lease>, b: seq<Lease>)
  {
    forall l :: l in a <==> l in b
  }

  /** Two lists that make the same shards available place an uncontested key alike, whatever the clocks say. */
  lemma SameAvailability(hash: HashFunc, a: seq<Lease>, b: seq<Lease>, t1: int, t2: int, key: string)
    requires UncontestedAmong(hash, a, key)
    requires SameNodes(AvailableIDs(a, 0), AvailableIDs(b, 0))
    ensures ShardFor(hash, a, t1, key) == ShardFor(hash, b, t2, key)
  {
    ClockIndependent(a, 0, t1);
    ClockIndependent(b, 0, t2);
    OrderIndependence(hash, DEFAULT_TOKENS_PER_NODE, AvailableIDs(a, t1), AvailableIDs(b, t2), key);
  }

  lemma SameLeasesSameNodes(a: seq<Lease>, b: seq<Lease>)
    requires SameLeases(a, b)
    ensures SameNodes(AvailableIDs(a, 0), AvailableIDs(b, 0))
  {
    forall x ensures x in AvailableIDs(a, 0) <==> x in AvailableIDs(b, 0) {
      AvailableIDsMember(a, 0, x);
      AvailableIDsMember(b, 0, x);
    }
  }

  lemma ReorderedLeases(hash: HashFunc, a: seq<Lease>, b: seq<Lease>, t1: int, t2: int, key: string)
    requires UncontestedAmong(hash, a, key) && SameLeases(a, b)
    ensures ShardFor(hash, a, t1, key) == ShardFor(hash, b, t2, key)
  {
    SameLeasesSameNodes(a, b);
    SameAvailability(hash, a, b, t1, t2, key);
  }

  lemma SameMultisetSameLeases(a: seq<Lease>, b: seq<Lease>)
    requires multiset(a) == multiset(b)
    ensures SameLeases(a, b)
  {
    forall l ensures l in a <==> l in b {
      assert l in a <==> l in multiset(a);
      assert l in b <==> l in multiset(b);
    }
  }

  /** The owners of a key's position are available shards, and each gets the key from some order of the leases. */
  lemma OwnerCanBeChosen(hash: HashFunc, leases: seq<Lease>, t: int, key: string, a: string) returns (p: seq<Lease>)
    requires OwnsSuccessor(hash, DEFAULT_TOKENS_PER_NODE, AvailableIDs(leases, 0), key, a)
    ensures multiset(p) == multiset(leases) && ShardFor(hash, p, t, key) == a && a != ""
  {
    var n := DEFAULT_TOKENS_PER_NODE;
    var e :| IsNearest(Entries(hash, n, AvailableIDs(leases, 0)), hash(key), e) && e.node == a;
    EntriesMember(hash, n, AvailableIDs(leases, 0), e);
    AvailableIDsMember(leases, 0, a);
    var l :| l in leases && Held(l) && l.name == a;
    var rest := MoveToEnd(leases, l);
    p := rest + [l];
    SameMultisetSameLeases(leases, p);
    SameLeasesSameNodes(leases, p);
    SameOwners(hash, n, AvailableIDs(leases, 0), AvailableIDs(p, 0), key, a);
    NodesAround(rest, l, [], 0);
    assert p + [] == p && AvailableIDs([], 0) == [];
    assert AvailableIDs(p, 0) == AvailableIDs(rest, 0) + [a];
    ClockIndependent(p, 0, t);
    LastOwnerWins(hash, n, AvailableIDs(rest, 0), a, key);
  }

  /** The shard of a key is the same for every order of the leases and all clock readings. */
  ghost predicate ChosenAlike(hash: HashFunc, leases: seq<Lease>, key: string)
  {
    forall p, q, t1, t2 :: multiset(p) == multiset(leases) && multiset(q) == multiset(leases)
                           ==> ShardFor(hash, p, t1, key) == ShardFor(hash, q, t2, key)
  }

  /** The order of the leases is irrelevant for a key exactly when its position on the ring is not contested. */
  lemma ChosenAlikeIff(hash: HashFunc, leases: seq<Lease>, key: string)
    ensures ChosenAlike(hash, leases, key) <==> UncontestedAmong(hash, leases, key)
  {
    if UncontestedAmong(hash, leases, key) {
      forall p, t | multiset(p) == multiset(leases)
        ensures ShardFor(hash, p, t, key) == ShardFor(hash, leases, 0, key)
      {
        SameMultisetSameLeases(leases, p);
        ReorderedLeases(hash, leases, p, 0, t, key);
      }
    } else {
      var nodes := AvailableIDs(leases, 0);
      var a, b :| OwnsSuccessor(hash, DEFAULT_TOKENS_PER_NODE, nodes, key, a)
               && OwnsSuccessor(hash, DEFAULT_TOKENS_PER_NODE, nodes, key, b) && a != b;
      var p := OwnerCanBeChosen(hash, leases, 0, key, a);
      var q := OwnerCanBeChosen(hash, leases, 0, key, b);
    }
  }

  /** A shard is found exactly when one is available, and it is available. */
  lemma ShardForAvailable(hash: HashFunc, leases: seq<Lease>, now: int, key: string)
    ensures ShardFor(hash, leases, now, key) != "" <==> exists l :: l in leases && Held(l)
    ensures ShardFor(hash, leases, now, key) != "" ==>
              exists l :: l in leases && Held(l) && l.name == ShardFor(hash, leases, now, key)
  {
    var ids := AvailableIDs(leases, now);
    AvailableIDsMember(leases, now, "");
    assert "" !in ids;
    PlaceIsSuccessor(hash, DEFAULT_TOKENS_PER_NODE, ids, key);
    if ids != [] {
      AvailableIDsMember(leases, now, ShardFor(hash, leases, now, key));
    } else if l :| l in leases && Held(l) {
      AvailableIDsMember(leases, now, l.name);
      assert false;
    }
  }

  /**
   When one lease changes its holder, and whatever the two clock readings, a key stays where
   it was, moves to that shard because it became available, or leaves that shard because it
   became unavailable. This needs nothing of the hash function.
   */
  lemma HolderChange(hash: HashFunc, pre: seq<Lease>, l: Lease, l': Lease, post: seq<Lease>,
                     t1: int, t2: int, key: string)
    requires l'.name == l.name
    ensures var before, after := ShardFor(hash, pre + [l] + post, t1, key), ShardFor(hash, pre + [l'] + post, t2, key);
            || before == after
            || (after == l.name && !Held(l) && Held(l'))
            || (before == l.name && Held(l) && !Held(l'))
  {
    var n := DEFAULT_TOKENS_PER_NODE;
    NodesAround(pre, l, post, t1);
    NodesAround(pre, l', post, t2);
    ClockIndependent(pre, t1, t2);
    ClockIndependent(post, t1, t2);
    var a, b := AvailableIDs(pre, t1), AvailableIDs(post, t1);
    assert a + [] == a;
    if Held(l) != Held(l') {
      MinimalDisruption(hash, n, a, l.name, b, key);
    }
  }

  lemma NodesAround(pre: seq<Lease>, l: Lease, post: seq<Lease>, now: int)
    ensures AvailableIDs(pre + [l] + post, now)
         == AvailableIDs(pre, now) + (if Held(l) then [l.name] else []) + AvailableIDs(post, now)
  {
    AvailableIDsConcat(pre + [l], post, now);
    AvailableIDsConcat(pre, [l], now);
    AvailableIDsCons(l, [], now);
    assert [l] + [] == [l];
    assert AvailableIDs([], now) == [];
  }

  lemma {:induction false} ClockIndependent(leases: seq<Lease>, t1: int, t2: int)
    ensures AvailableIDs(leases, t1) == AvailableIDs(leases, t2)
  {
    if leases != [] {
      ClockIndependent(leases[1..], t1, t2);
      AvailableIDsCons(leases[0], leases[1..], t1);
      AvailableIDsCons(leases[0], leases[1..], t2);
      assert leases == [leases[0]] + leases[1..];
    }
  }
}
