/**
 The meaning of a consistent hash ring, independent of how it is stored.

 Every node puts `count` tokens on a circle of 2^64 positions. A key belongs to the
 entry that is nearest in clockwise direction; if two entries sit on the same
 position, the one that was added last wins.
 */
module HashRing {
  import opened Prelude

  const CIRCLE: nat := 0x1_0000_0000_0000_0000

  /** A 64-bit digest. */
  type Token = t: nat | t < CIRCLE

  /** Any function computing a 64-bit digest. */
  type HashFunc = string -> Token

  datatype Entry = Entry(token: Token, node: string)

  function DigitChar(d: nat): (c: char)
    requires d < 10
  {
    (48 + d) as char
  }

  /** Decimal representation without leading zeros. */
  function Decimal(n: nat): (s: string)
  {
    if n < 10 then [DigitChar(n)] else Decimal(n / 10) + [DigitChar(n % 10)]
  }

  predicate IsDigit(c: char)
  {
    '0' <= c <= '9'
  }

  /** The number that a string of digits stands for. */
  function Number(s: string): (n: int)
  {
    if s == "" then 0 else 10 * Number(s[..|s| - 1]) + (s[|s| - 1] as int - '0' as int)
  }

  /** The representation consists of digits, stands for the number, and has no leading zero. */
  lemma {:induction false} DecimalMeaning(n: nat)
    ensures Decimal(n) != "" && forall c :: c in Decimal(n) ==> IsDigit(c)
    ensures Number(Decimal(n)) == n
    ensures n > 0 ==> Decimal(n)[0] != '0'
  {
    if n < 10 {
      assert Decimal(n)[..0] == "";
    } else {
      DecimalMeaning(n / 10);
      assert Decimal(n)[..|Decimal(n)| - 1] == Decimal(n / 10);
      assert Decimal(n)[0] == Decimal(n / 10)[0];
    }
  }

  /** The string that is hashed for the i-th token of a node. */
  function TokenName(node: string, i: nat): (s: string)
  {
    node + Decimal(i)
  }

  /** The first `count` entries of one node, in the order they are added. */
  function NodeEntries(hash: HashFunc, count: nat, node: string): (es: seq<Entry>)
  {
    if count == 0 then []
    else NodeEntries(hash, count - 1, node) + [Entry(hash(TokenName(node, count - 1)), node)]
  }

  /** The entries of the first k nodes of a list, in the order they are added. */
  function EntriesUpTo(hash: HashFunc, count: nat, nodes: seq<string>, k: nat): (es: seq<Entry>)
    requires k <= |nodes|
  {
    if k == 0 then [] else EntriesUpTo(hash, count, nodes, k - 1) + NodeEntries(hash, count, nodes[k - 1])
  }

  /** All entries of a list of nodes. */
  function Entries(hash: HashFunc, count: nat, nodes: seq<string>): (es: seq<Entry>)
  {
    EntriesUpTo(hash, count, nodes, |nodes|)
  }

  /** How far one has to walk clockwise from position h to reach token t. */
  function Dist(h: Token, t: Token): (d: nat)
    ensures d < CIRCLE
  {
    if t >= h then t - h else t + CIRCLE - h
  }

  /** The nearer of two candidates; the later one wins a tie. */
  function Nearer(h: Token, earlier: Option<Entry>, later: Option<Entry>): (r: Option<Entry>)
  {
    if later.None? then earlier
    else if earlier.None? then later
    else if Dist(h, later.value.token) <= Dist(h, earlier.value.token) then later
    else earlier
  }

  /** The entry that a key hashed to h belongs to. */
  function Winner(es: seq<Entry>, h: Token): (r: Option<Entry>)
  {
    if es == [] then None else Nearer(h, Winner(es[..|es| - 1], h), Some(es[|es| - 1]))
  }

  /** The node that a key belongs to, or the empty string if there is none. */
  function Place(hash: HashFunc, count: nat, nodes: seq<string>, key: string): (node: string)
  {
    match Winner(Entries(hash, count, nodes), hash(key))
    case None => ""
    case Some(e) => e.node
  }

  // ------------------------------------------------------------------ structure

  lemma DistInjective(h: Token, s: Token, t: Token)
    requires Dist(h, s) == Dist(h, t)
    ensures s == t
  {
  }

  lemma {:induction false} EntriesPrefix(hash: HashFunc, count: nat, a: seq<string>, b: seq<string>, k: nat)
    requires k <= |a|
    ensures EntriesUpTo(hash, count, a + b, k) == EntriesUpTo(hash, count, a, k)
  {
    if k > 0 {
      EntriesPrefix(hash, count, a, b, k - 1);
    }
  }

  lemma {:induction false} EntriesExtend(hash: HashFunc, count: nat, a: seq<string>, b: seq<string>, k: nat)
    requires k <= |b|
    ensures EntriesUpTo(hash, count, a + b, |a| + k) == Entries(hash, count, a) + EntriesUpTo(hash, count, b, k)
  {
    if k == 0 {
      EntriesPrefix(hash, count, a, b, |a|);
    } else {
      EntriesExtend(hash, count, a, b, k - 1);
    }
  }

  lemma EntriesConcat(hash: HashFunc, count: nat, a: seq<string>, b: seq<string>)
    ensures Entries(hash, count, a + b) == Entries(hash, count, a) + Entries(hash, count, b)
  {
    EntriesExtend(hash, count, a, b, |b|);
  }

  lemma {:induction false} WinnerConcat(a: seq<Entry>, b: seq<Entry>, h: Token)
    ensures Winner(a + b, h) == Nearer(h, Winner(a, h), Winner(b, h))
  {
    if b == [] {
      assert a + b == a;
    } else {
      var init := b[..|b| - 1];
      assert (a + b)[..|a + b| - 1] == a + init;
      WinnerConcat(a, init, h);
    }
  }

  lemma {:induction false} NodeEntriesAt(hash: HashFunc, count: nat, node: string, i: nat)
    requires i < count
    ensures |NodeEntries(hash, count, node)| == count
    ensures NodeEntries(hash, count, node)[i] == Entry(hash(TokenName(node, i)), node)
  {
    if i < count - 1 {
      NodeEntriesAt(hash, count - 1, node, i);
    } else if count > 1 {
      NodeEntriesAt(hash, count - 1, node, 0);
    }
  }

  ghost predicate IsEntryOf(hash: HashFunc, count: nat, e: Entry, node: string)
  {
    e.node == node && exists i: nat :: i < count && e.token == hash(TokenName(node, i))
  }

  lemma {:induction false} NodeEntriesMember(hash: HashFunc, count: nat, node: string, e: Entry)
    ensures e in NodeEntries(hash, count, node) <==> IsEntryOf(hash, count, e, node)
  {
    if IsEntryOf(hash, count, e, node) {
      var i: nat :| i < count && e.token == hash(TokenName(node, i));
      NodeEntriesAt(hash, count, node, i);
    }
    if e in NodeEntries(hash, count, node) {
      NodeEntriesOnly(hash, count, node, e);
    }
  }

  lemma {:induction false} NodeEntriesOnly(hash: HashFunc, count: nat, node: string, e: Entry)
    requires e in NodeEntries(hash, count, node)
    ensures IsEntryOf(hash, count, e, node)
  {
    if e in NodeEntries(hash, count - 1, node) {
      NodeEntriesOnly(hash, count - 1, node, e);
    }
  }

  lemma {:induction false} EntriesUpToOnly(hash: HashFunc, count: nat, nodes: seq<string>, k: nat, e: Entry)
    requires k <= |nodes| && e in EntriesUpTo(hash, count, nodes, k)
    ensures e.node in nodes && IsEntryOf(hash, count, e, e.node)
  {
    var before, own := EntriesUpTo(hash, count, nodes, k - 1), NodeEntries(hash, count, nodes[k - 1]);
    InConcat(before, own, e);
    if e in before {
      EntriesUpToOnly(hash, count, nodes, k - 1, e);
    } else {
      NodeEntriesOnly(hash, count, nodes[k - 1], e);
    }
  }

  lemma {:induction false} EntriesUpToHas(hash: HashFunc, count: nat, nodes: seq<string>, k: nat, i: nat, e: Entry)
    requires i < k <= |nodes| && IsEntryOf(hash, count, e, nodes[i])
    ensures e in EntriesUpTo(hash, count, nodes, k)
  {
    var before, own := EntriesUpTo(hash, count, nodes, k - 1), NodeEntries(hash, count, nodes[k - 1]);
    InConcat(before, own, e);
    if i < k - 1 {
      EntriesUpToHas(hash, count, nodes, k - 1, i, e);
    } else {
      NodeEntriesMember(hash, count, nodes[i], e);
    }
  }

  /** The entries are exactly those of the listed nodes. */
  lemma EntriesMember(hash: HashFunc, count: nat, nodes: seq<string>, e: Entry)
    ensures e in Entries(hash, count, nodes) <==> e.node in nodes && IsEntryOf(hash, count, e, e.node)
  {
    if e in Entries(hash, count, nodes) {
      EntriesUpToOnly(hash, count, nodes, |nodes|, e);
    }
    if e.node in nodes && IsEntryOf(hash, count, e, e.node) {
      var i :| 0 <= i < |nodes| && nodes[i] == e.node;
      EntriesUpToHas(hash, count, nodes, |nodes|, i, e);
    }
  }

  /** The winner is one of the entries and no entry is nearer. */
  lemma {:induction false} WinnerIsNearest(es: seq<Entry>, h: Token)
    ensures Winner(es, h).None? <==> es == []
    ensures es != [] ==> Winner(es, h).value in es
    ensures es != [] ==> forall e :: e in es ==> Dist(h, Winner(es, h).value.token) <= Dist(h, e.token)
  {
    if es != [] {
      SnocSplit(es);
      WinnerIsNearest(es[..|es| - 1], h);
    }
  }

  /** Among the entries on the winner's position, the winner was added last. */
  lemma {:induction false} WinnerIsLast(es: seq<Entry>, h: Token) returns (i: nat)
    requires es != []
    ensures i < |es| && Winner(es, h) == Some(es[i])
    ensures forall j :: i < j < |es| ==> es[j].token != es[i].token
  {
    var init, last := es[..|es| - 1], es[|es| - 1];
    WinnerIsNearest(init, h);
    if init == [] || Dist(h, last.token) <= Dist(h, Winner(init, h).value.token) {
      i := |es| - 1;
    } else {
      i := WinnerIsLast(init, h);
    }
  }

  // ------------------------------------------------------------------ successor specification

  /** t is the least token that is at least h, or the least token at all if there is none. */
  ghost predicate IsSuccessor(es: seq<Entry>, h: Token, t: Token)
  {
    if exists e :: e in es && e.token >= h then
      t >= h && forall e :: e in es && e.token >= h ==> t <= e.token
    else
      forall e :: e in es ==> t <= e.token
  }

  /**
   A key is placed on the last-added owner of the successor of its hash. For non-empty
   node names, only an empty ring places a key nowhere.
   */
  lemma PlaceIsSuccessor(hash: HashFunc, count: nat, nodes: seq<string>, key: string)
    requires count > 0
    ensures nodes == [] ==> Place(hash, count, nodes, key) == ""
    ensures var es := Entries(hash, count, nodes);
            nodes != [] ==> exists i :: 0 <= i < |es|
                                    && es[i].node == Place(hash, count, nodes, key)
                                    && IsSuccessor(es, hash(key), es[i].token)
                                    && forall j :: i < j < |es| ==> es[j].token != es[i].token
    ensures nodes != [] ==> Place(hash, count, nodes, key) in nodes
    ensures "" !in nodes ==> (Place(hash, count, nodes, key) == "" <==> nodes == [])
  {
    if nodes != [] {
      var es, h := Entries(hash, count, nodes), hash(key);
      NodeEntriesAt(hash, count, nodes[|nodes| - 1], 0);
      WinnerIsNearest(es, h);
      var i := WinnerIsLast(es, h);
      EntriesMember(hash, count, nodes, es[i]);
      assert IsSuccessor(es, h, es[i].token) by {
        forall e | e in es && e.token >= h ensures h <= es[i].token <= e.token {
          assert Dist(h, es[i].token) <= Dist(h, e.token);
        }
        if forall e :: e in es ==> e.token < h {
          forall e | e in es ensures es[i].token <= e.token {
            assert Dist(h, es[i].token) <= Dist(h, e.token);
          }
        }
      }
    }
  }

  // ------------------------------------------------------------------ minimal disruption

  /**
   Inserting a node anywhere in the list leaves each key where it was or moves it to
   that node; read from right to left, removing a node moves only its own keys. This
   needs nothing of the hash function, not even that tokens are distinct.
   */
  lemma MinimalDisruption(hash: HashFunc, count: nat, pre: seq<string>, x: string, post: seq<string>, key: string)
    ensures Place(hash, count, pre + [x] + post, key) == Place(hash, count, pre + post, key)
         || Place(hash, count, pre + [x] + post, key) == x
  {
    var h := hash(key);
    var a, b, c := Entries(hash, count, pre), Entries(hash, count, [x]), Entries(hash, count, post);
    EntriesConcat(hash, count, pre, post);
    EntriesConcat(hash, count, pre + [x], post);
    EntriesConcat(hash, count, pre, [x]);
    WinnerConcat(a, c, h);
    WinnerConcat(a + b, c, h);
    WinnerConcat(a, b, h);
    WinnerIsNearest(b, h);
    if b != [] {
      EntriesMember(hash, count, [x], Winner(b, h).value);
    }
  }

  // ------------------------------------------------------------------ order independence

  ghost predicate ShareToken(hash: HashFunc, count: nat, a: string, b: string)
  {
    exists i: nat, j: nat :: i < count && j < count && hash(TokenName(a, i)) == hash(TokenName(b, j))
  }

  /** No two different nodes of the list sit on the same position. */
  ghost predicate NoSharedTokens(hash: HashFunc, count: nat, nodes: seq<string>)
  {
    forall a, b :: a in nodes && b in nodes && a != b ==> !ShareToken(hash, count, a, b)
  }

  ghost predicate SameNodes(a: seq<string>, b: seq<string>)
  {
    forall x :: x in a <==> x in b
  }

  /** No entry is nearer to h. */
  ghost predicate IsNearest(es: seq<Entry>, h: Token, e: Entry)
  {
    e in es && forall f :: f in es ==> Dist(h, e.token) <= Dist(h, f.token)
  }

  /** The node owns the position that a key belongs to. */
  ghost predicate OwnsSuccessor(hash: HashFunc, count: nat, nodes: seq<string>, key: string, node: string)
  {
    exists e :: IsNearest(Entries(hash, count, nodes), hash(key), e) && e.node == node
  }

  /** No two different nodes own the position that the key belongs to. */
  ghost predicate Uncontested(hash: HashFunc, count: nat, nodes: seq<string>, key: string)
  {
    forall a, b :: OwnsSuccessor(hash, count, nodes, key, a) && OwnsSuccessor(hash, count, nodes, key, b) ==> a == b
  }

  lemma SameEntries(hash: HashFunc, count: nat, nodes: seq<string>, other: seq<string>, e: Entry)
    requires SameNodes(nodes, other)
    ensures e in Entries(hash, count, nodes) <==> e in Entries(hash, count, other)
  {
    EntriesMember(hash, count, nodes, e);
    EntriesMember(hash, count, other, e);
  }

  /** The nodes that own a key's position depend only on which nodes are listed. */
  lemma SameOwners(hash: HashFunc, count: nat, nodes: seq<string>, other: seq<string>, key: string, node: string)
    requires SameNodes(nodes, other) && OwnsSuccessor(hash, count, nodes, key, node)
    ensures OwnsSuccessor(hash, count, other, key, node)
  {
    var h, es, fs := hash(key), Entries(hash, count, nodes), Entries(hash, count, other);
    forall e ensures e in es <==> e in fs {
      SameEntries(hash, count, nodes, other, e);
    }
    var e :| IsNearest(es, h, e) && e.node == node;
    assert IsNearest(fs, h, e);
  }

  /** A key is placed on an owner of its position. */
  lemma PlaceOwns(hash: HashFunc, count: nat, nodes: seq<string>, key: string)
    ensures Entries(hash, count, nodes) == [] ==> Place(hash, count, nodes, key) == ""
    ensures Entries(hash, count, nodes) != [] ==> OwnsSuccessor(hash, count, nodes, key, Place(hash, count, nodes, key))
  {
    var h, es := hash(key), Entries(hash, count, nodes);
    WinnerIsNearest(es, h);
    if es != [] {
      assert IsNearest(es, h, Winner(es, h).value);
    }
  }

  /** An uncontested key is placed alike by all lists of the same nodes. */
  lemma OrderIndependence(hash: HashFunc, count: nat, nodes: seq<string>, other: seq<string>, key: string)
    requires Uncontested(hash, count, nodes, key)
    requires SameNodes(nodes, other)
    ensures Place(hash, count, nodes, key) == Place(hash, count, other, key)
  {
    var es, fs := Entries(hash, count, nodes), Entries(hash, count, other);
    PlaceOwns(hash, count, nodes, key);
    PlaceOwns(hash, count, other, key);
    if es != [] {
      SameEntries(hash, count, nodes, other, es[0]);
    }
    if fs != [] {
      SameEntries(hash, count, nodes, other, fs[0]);
      SameOwners(hash, count, other, nodes, key, Place(hash, count, other, key));
    }
  }

  /** An owner of a key's position gets the key when it is listed last. */
  lemma LastOwnerWins(hash: HashFunc, count: nat, rest: seq<string>, a: string, key: string)
    requires OwnsSuccessor(hash, count, rest + [a], key, a)
    ensures Place(hash, count, rest + [a], key) == a
  {
    var h := hash(key);
    var es, fs := Entries(hash, count, rest), Entries(hash, count, [a]);
    EntriesConcat(hash, count, rest, [a]);
    WinnerConcat(es, fs, h);
    WinnerIsNearest(es, h);
    WinnerIsNearest(fs, h);
    var e :| IsNearest(es + fs, h, e) && e.node == a;
    EntriesMember(hash, count, rest + [a], e);
    EntriesMember(hash, count, [a], e);
    EntriesMember(hash, count, [a], Winner(fs, h).value);
    assert es != [] ==> Winner(es, h).value in es + fs;
  }

  /** An owner of a key's position gets the key from some permutation of the list. */
  lemma OwnerCanWin(hash: HashFunc, count: nat, nodes: seq<string>, a: string, key: string) returns (p: seq<string>)
    requires OwnsSuccessor(hash, count, nodes, key, a)
    ensures multiset(p) == multiset(nodes) && Place(hash, count, p, key) == a
  {
    var e :| IsNearest(Entries(hash, count, nodes), hash(key), e) && e.node == a;
    EntriesMember(hash, count, nodes, e);
    var rest := MoveToEnd(nodes, a);
    p := rest + [a];
    SameMultisetSameNodes(nodes, p);
    SameOwners(hash, count, nodes, p, key, a);
    LastOwnerWins(hash, count, rest, a, key);
  }

  lemma SameMultisetSameNodes(a: seq<string>, b: seq<string>)
    requires multiset(a) == multiset(b)
    ensures SameNodes(a, b)
  {
    forall x ensures x in a <==> x in b {
      assert x in a <==> x in multiset(a);
      assert x in b <==> x in multiset(b);
    }
  }

  /** Every permutation of the node list places the key alike. */
  ghost predicate OrderIrrelevantFor(hash: HashFunc, count: nat, nodes: seq<string>, key: string)
  {
    forall p, q :: multiset(p) == multiset(nodes) && multiset(q) == multiset(nodes)
                   ==> Place(hash, count, p, key) == Place(hash, count, q, key)
  }

  /** For one key, the order of the list is irrelevant exactly when no two nodes own the position the key belongs to. */
  lemma PerKeyIff(hash: HashFunc, count: nat, nodes: seq<string>, key: string)
    ensures OrderIrrelevantFor(hash, count, nodes, key) <==> Uncontested(hash, count, nodes, key)
  {
    if Uncontested(hash, count, nodes, key) {
      forall p | multiset(p) == multiset(nodes) ensures Place(hash, count, p, key) == Place(hash, count, nodes, key) {
        SameMultisetSameNodes(nodes, p);
        OrderIndependence(hash, count, nodes, p, key);
      }
    } else {
      var a, b :| OwnsSuccessor(hash, count, nodes, key, a) && OwnsSuccessor(hash, count, nodes, key, b) && a != b;
      var p := OwnerCanWin(hash, count, nodes, a, key);
      var q := OwnerCanWin(hash, count, nodes, b, key);
    }
  }

  /** Without shared tokens no key is contested. */
  lemma NoSharedTokensUncontested(hash: HashFunc, count: nat, nodes: seq<string>, key: string)
    requires NoSharedTokens(hash, count, nodes)
    ensures Uncontested(hash, count, nodes, key)
  {
    var h, es := hash(key), Entries(hash, count, nodes);
    forall e, f | IsNearest(es, h, e) && IsNearest(es, h, f) ensures e.node == f.node {
      DistInjective(h, e.token, f.token);
      EntriesMember(hash, count, nodes, e);
      EntriesMember(hash, count, nodes, f);
      assert e.node != f.node ==> ShareToken(hash, count, e.node, f.node);
    }
  }

  /** A key that hashes to a token belongs to all nodes that own the token. */
  lemma TokenContested(hash: HashFunc, count: nat, nodes: seq<string>, a: string, i: nat, key: string)
    requires a in nodes && i < count && hash(key) == hash(TokenName(a, i))
    ensures OwnsSuccessor(hash, count, nodes, key, a)
  {
    var e := Entry(hash(key), a);
    assert IsEntryOf(hash, count, e, a);
    EntriesMember(hash, count, nodes, e);
    assert Dist(hash(key), e.token) == 0;
    assert IsNearest(Entries(hash, count, nodes), hash(key), e);
  }

  /** The order of the list is irrelevant for all keys exactly when no two of its nodes share a token. */
  lemma OrderIrrelevantIff(hash: HashFunc, count: nat, nodes: seq<string>)
    ensures (forall key :: OrderIrrelevantFor(hash, count, nodes, key)) <==> NoSharedTokens(hash, count, nodes)
  {
    if NoSharedTokens(hash, count, nodes) {
      forall key ensures OrderIrrelevantFor(hash, count, nodes, key) {
        NoSharedTokensUncontested(hash, count, nodes, key);
        PerKeyIff(hash, count, nodes, key);
      }
    } else {
      var a, b :| a in nodes && b in nodes && a != b && ShareToken(hash, count, a, b);
      var i: nat, j: nat :| i < count && j < count && hash(TokenName(a, i)) == hash(TokenName(b, j));
      var key := TokenName(a, i);
      TokenContested(hash, count, nodes, a, i, key);
      TokenContested(hash, count, nodes, b, j, key);
      PerKeyIff(hash, count, nodes, key);
    }
  }

  // ------------------------------------------------------------------ which names share tokens

  const DEFAULT_TOKENS_PER_NODE: nat := 100

  predicate IsNonZeroDigit(c: char)
  {
    '1' <= c <= '9'
  }

  ghost predicate ExtendsByDigit(short: string, long: string)
  {
    |long| == |short| + 1 && long[..|short|] == short && IsNonZeroDigit(long[|short|])
  }

  /** The hash function does not map two different token names of a and b to one token. */
  ghost predicate CollisionFree(hash: HashFunc, a: string, b: string)
  {
    forall i: nat, j: nat :: i < DEFAULT_TOKENS_PER_NODE && j < DEFAULT_TOKENS_PER_NODE
                             && hash(TokenName(a, i)) == hash(TokenName(b, j))
                             ==> TokenName(a, i) == TokenName(b, j)
  }

  lemma DecimalBelow100(n: nat)
    requires n < 100
    ensures n < 10 ==> Decimal(n) == [DigitChar(n)]
    ensures n >= 10 ==> Decimal(n) == [DigitChar(n / 10), DigitChar(n % 10)] && IsNonZeroDigit(Decimal(n)[0])
  {
  }

  lemma LongerTokenName(a: string, i: nat, b: string, j: nat)
    requires i < 100 && j < 100 && a != b && |a| <= |b|
    requires TokenName(a, i) == TokenName(b, j)
    ensures ExtendsByDigit(a, b)
  {
    DecimalBelow100(i);
    DecimalBelow100(j);
    var s := TokenName(a, i);
    assert s[..|a|] == a && s[..|b|] == b;
    assert |b| == |a| + 1;
    assert b == s[..|b|];
    assert b[|a|] == s[|a|] == Decimal(i)[0];
    assert b[..|a|] == s[..|a|];
  }

  lemma SharedNameIndex(short: string, long: string) returns (i: nat)
    requires ExtendsByDigit(short, long)
    ensures i < 100 && TokenName(short, i) == TokenName(long, 0)
  {
    var d := long[|short|] as int - 48;
    i := 10 * d;
    DecimalBelow100(i);
    DecimalBelow100(0);
    assert i / 10 == d && i % 10 == 0;
    assert long == short + [long[|short|]];
    assert short + [DigitChar(d), DigitChar(0)] == long + [DigitChar(0)];
  }

  /**
   With 100 tokens per node and no accidental collision, two different names share a
   token exactly when one is the other followed by one non-zero digit.
   */
  lemma SharedTokenNames(hash: HashFunc, a: string, b: string)
    requires a != b && CollisionFree(hash, a, b)
    ensures ShareToken(hash, DEFAULT_TOKENS_PER_NODE, a, b) <==> ExtendsByDigit(a, b) || ExtendsByDigit(b, a)
  {
    if ShareToken(hash, DEFAULT_TOKENS_PER_NODE, a, b) {
      var i: nat, j: nat :| i < 100 && j < 100 && hash(TokenName(a, i)) == hash(TokenName(b, j));
      if |a| <= |b| {
        LongerTokenName(a, i, b, j);
      } else {
        LongerTokenName(b, j, a, i);
      }
    }
    if ExtendsByDigit(a, b) {
      var i := SharedNameIndex(a, b);
      assert hash(TokenName(a, i)) == hash(TokenName(b, 0));
    }
    if ExtendsByDigit(b, a) {
      var i := SharedNameIndex(b, a);
      assert hash(TokenName(a, 0)) == hash(TokenName(b, i));
    }
  }
}
