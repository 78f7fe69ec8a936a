/**
 The stored form of a hash ring: a sorted token list that is searched by bisection, and a
 map from token to node in which a later node overwrites an earlier one.
 */
module ConsistentHash {
  import opened Prelude
  import opened HashRing

  ghost predicate Sorted(s: seq<Token>)
  {
    forall i, j :: 0 <= i < j < |s| ==> s[i] <= s[j]
  }

  function Insert(t: Token, s: seq<Token>): (r: seq<Token>)
    ensures multiset(r) == multiset(s) + multiset{t}
  {
    if s == [] then [t]
    else if t <= s[0] then [t] + s
    else
      assert s == [s[0]] + s[1..];
      [s[0]] + Insert(t, s[1..])
  }

  lemma {:induction false} InsertMember(t: Token, s: seq<Token>, i: nat)
    requires i < |Insert(t, s)|
    ensures Insert(t, s)[i] == t || Insert(t, s)[i] in s
  {
    if s == [] || t <= s[0] {
      assert i > 0 ==> Insert(t, s)[i] == s[i - 1];
    } else if i > 0 {
      InsertMember(t, s[1..], i - 1);
      assert Insert(t, s)[i] == Insert(t, s[1..])[i - 1];
    }
  }

  lemma ConsSorted(x: Token, s: seq<Token>)
    requires Sorted(s) && forall i :: 0 <= i < |s| ==> x <= s[i]
    ensures Sorted([x] + s)
  {
  }

  lemma {:induction false} InsertSorted(t: Token, s: seq<Token>)
    requires Sorted(s)
    ensures Sorted(Insert(t, s))
  {
    if s == [] {
    } else if t <= s[0] {
      ConsSorted(t, s);
    } else {
      InsertSorted(t, s[1..]);
      var rest := Insert(t, s[1..]);
      forall i | 0 <= i < |rest| ensures s[0] <= rest[i] {
        InsertMember(t, s[1..], i);
      }
      ConsSorted(s[0], rest);
    }
  }

  function Sort(s: seq<Token>): (r: seq<Token>)
    ensures Sorted(r) && multiset(r) == multiset(s)
  {
    if s == [] then []
    else
      assert s == [s[0]] + s[1..];
      InsertSorted(s[0], Sort(s[1..]));
      Insert(s[0], Sort(s[1..]))
  }

  function TokensOf(es: seq<Entry>): (ts: seq<Token>)
    ensures |ts| == |es| && forall i :: 0 <= i < |es| ==> ts[i] == es[i].token
  {
    seq(|es|, i requires 0 <= i < |es| => es[i].token)
  }

  function OwnersUpTo(es: seq<Entry>, k: nat): (m: map<Token, string>)
    requires k <= |es|
  {
    if k == 0 then map[] else OwnersUpTo(es, k - 1)[es[k - 1].token := es[k - 1].node]
  }

  /** Which node owns each token, the last writer winning. */
  function Owners(es: seq<Entry>): (m: map<Token, string>)
  {
    OwnersUpTo(es, |es|)
  }

  /** The stored form holds exactly the tokens of the entries, each with its last owner. */
  ghost predicate Stores(tokens: seq<Token>, owners: map<Token, string>, es: seq<Entry>)
  {
    multiset(tokens) == multiset(TokensOf(es)) && owners == Owners(es)
  }

  // What the loops of AddNodes have done to the stored form after i tokens, and after k nodes.

  function NodeTokens(hash: HashFunc, i: nat, node: string): (ts: seq<Token>)
  {
    if i == 0 then [] else NodeTokens(hash, i - 1, node) + [hash(TokenName(node, i - 1))]
  }

  function NodeOwners(owners: map<Token, string>, hash: HashFunc, i: nat, node: string): (m: map<Token, string>)
  {
    if i == 0 then owners else NodeOwners(owners, hash, i - 1, node)[hash(TokenName(node, i - 1)) := node]
  }

  function ListTokens(hash: HashFunc, count: nat, nodes: seq<string>, k: nat): (ts: seq<Token>)
    requires k <= |nodes|
  {
    if k == 0 then [] else ListTokens(hash, count, nodes, k - 1) + NodeTokens(hash, count, nodes[k - 1])
  }

  function ListOwners(owners: map<Token, string>, hash: HashFunc, count: nat,
                      nodes: seq<string>, k: nat): (m: map<Token, string>)
    requires k <= |nodes|
  {
    if k == 0 then owners else NodeOwners(ListOwners(owners, hash, count, nodes, k - 1), hash, count, nodes[k - 1])
  }

  lemma {:induction false} OwnersPrefix(a: seq<Entry>, b: seq<Entry>, k: nat)
    requires k <= |a|
    ensures OwnersUpTo(a + b, k) == OwnersUpTo(a, k)
  {
    if k > 0 {
      OwnersPrefix(a, b, k - 1);
    }
  }

  lemma TokensConcat(a: seq<Entry>, b: seq<Entry>)
    ensures TokensOf(a + b) == TokensOf(a) + TokensOf(b)
  {
  }

  lemma {:induction false} NodeEntriesTokens(hash: HashFunc, i: nat, node: string)
    ensures TokensOf(NodeEntries(hash, i, node)) == NodeTokens(hash, i, node)
  {
    if i > 0 {
      NodeEntriesTokens(hash, i - 1, node);
      TokensConcat(NodeEntries(hash, i - 1, node), [Entry(hash(TokenName(node, i - 1)), node)]);
    }
  }

  lemma {:induction false} NodeEntriesOwners(es: seq<Entry>, hash: HashFunc, i: nat, node: string)
    ensures Owners(es + NodeEntries(hash, i, node)) == NodeOwners(Owners(es), hash, i, node)
  {
    if i == 0 {
      assert es + NodeEntries(hash, i, node) == es;
    } else {
      NodeEntriesOwners(es, hash, i - 1, node);
      var fs, e := es + NodeEntries(hash, i - 1, node), Entry(hash(TokenName(node, i - 1)), node);
      OwnersPrefix(fs, [e], |fs|);
      ConcatAssoc(es, NodeEntries(hash, i - 1, node), [e]);
    }
  }

  lemma StoreNode(es: seq<Entry>, hash: HashFunc, i: nat, node: string)
    ensures TokensOf(es + NodeEntries(hash, i, node)) == TokensOf(es) + NodeTokens(hash, i, node)
    ensures Owners(es + NodeEntries(hash, i, node)) == NodeOwners(Owners(es), hash, i, node)
  {
    NodeEntriesTokens(hash, i, node);
    TokensConcat(es, NodeEntries(hash, i, node));
    NodeEntriesOwners(es, hash, i, node);
  }

  lemma {:induction false} StoreList(es: seq<Entry>, hash: HashFunc, count: nat, nodes: seq<string>, k: nat)
    requires k <= |nodes|
    ensures TokensOf(es + EntriesUpTo(hash, count, nodes, k)) == TokensOf(es) + ListTokens(hash, count, nodes, k)
    ensures Owners(es + EntriesUpTo(hash, count, nodes, k)) == ListOwners(Owners(es), hash, count, nodes, k)
  {
    if k == 0 {
      assert es + EntriesUpTo(hash, count, nodes, k) == es;
    } else {
      StoreList(es, hash, count, nodes, k - 1);
      var fs := es + EntriesUpTo(hash, count, nodes, k - 1);
      StoreNode(fs, hash, count, nodes[k - 1]);
      ConcatAssoc(es, EntriesUpTo(hash, count, nodes, k - 1), NodeEntries(hash, count, nodes[k - 1]));
      ConcatAssoc(TokensOf(es), ListTokens(hash, count, nodes, k - 1), NodeTokens(hash, count, nodes[k - 1]));
    }
  }

  lemma PermutationAppend<T>(a: seq<T>, b: seq<T>, c: seq<T>)
    requires multiset(a) == multiset(b)
    ensures multiset(a + c) == multiset(b + c)
  {
  }

  lemma StoreNodes(tokens: seq<Token>, owners: map<Token, string>, added: seq<string>,
                   hash: HashFunc, count: nat, nodes: seq<string>)
    requires Stores(tokens, owners, Entries(hash, count, added))
    ensures Stores(Sort(tokens + ListTokens(hash, count, nodes, |nodes|)),
                   ListOwners(owners, hash, count, nodes, |nodes|),
                   Entries(hash, count, added + nodes))
  {
    StoreList(Entries(hash, count, added), hash, count, nodes, |nodes|);
    EntriesConcat(hash, count, added, nodes);
    PermutationAppend(tokens, TokensOf(Entries(hash, count, added)), ListTokens(hash, count, nodes, |nodes|));
  }

  lemma TokensMember(es: seq<Entry>, t: Token)
    ensures t in TokensOf(es) <==> exists e :: e in es && e.token == t
  {
  }

  lemma {:induction false} OwnersAt(es: seq<Entry>, k: nat, i: nat)
    requires i < k <= |es|
    requires forall j :: i < j < k ==> es[j].token != es[i].token
    ensures es[i].token in OwnersUpTo(es, k) && OwnersUpTo(es, k)[es[i].token] == es[i].node
  {
    if i < k - 1 {
      OwnersAt(es, k - 1, i);
    }
  }

  /** The map knows exactly the tokens on the ring. */
  lemma {:induction false} OwnersKeys(es: seq<Entry>, k: nat)
    requires k <= |es|
    ensures OwnersUpTo(es, k).Keys == set i | 0 <= i < k :: es[i].token
  {
    if k > 0 {
      OwnersKeys(es, k - 1);
    }
  }

  /** The position that bisection yields, wrapped around, carries the winner's token. */
  lemma SearchHitsWinner(tokens: seq<Token>, es: seq<Entry>, h: Token, i: nat)
    requires es != [] && Sorted(tokens) && multiset(tokens) == multiset(TokensOf(es))
    requires i <= |tokens|
    requires forall k :: 0 <= k < i ==> tokens[k] < h
    requires forall k :: i <= k < |tokens| ==> tokens[k] >= h
    ensures |tokens| == |es| && Winner(es, h).Some?
    ensures tokens[if i == |tokens| then 0 else i] == Winner(es, h).value.token
  {
    assert |tokens| == |multiset(tokens)| == |TokensOf(es)|;
    var p := if i == |tokens| then 0 else i;
    WinnerIsNearest(es, h);
    var w := Winner(es, h).value;
    TokensMember(es, w.token);
    assert w.token in multiset(TokensOf(es));
    assert w.token in tokens;
    var k :| 0 <= k < |tokens| && tokens[k] == w.token;
    assert tokens[p] in multiset(tokens);
    TokensMember(es, tokens[p]);
    assert Dist(h, w.token) <= Dist(h, tokens[p]);
    assert Dist(h, tokens[p]) <= Dist(h, tokens[k]);
    DistInjective(h, w.token, tokens[p]);
  }

  /** Position of the first token that is at least h. */
  method BinarySearch(s: seq<Token>, h: Token) returns (i: nat, found: bool)
    requires Sorted(s)
    ensures i <= |s|
    ensures forall k :: 0 <= k < i ==> s[k] < h
    ensures forall k :: i <= k < |s| ==> s[k] >= h
    ensures found <==> h in s
  {
    i := 0;
    var j := |s|;
    while i < j
      invariant 0 <= i <= j <= |s|
      invariant forall k :: 0 <= k < i ==> s[k] < h
      invariant forall k :: j <= k < |s| ==> s[k] >= h
    {
      var m := (i + j) / 2;
      if s[m] < h {
        i := m + 1;
      } else {
        j := m;
      }
    }
    found := i < |s| && s[i] == h;
  }

  class Ring {
    const hash: HashFunc
    const tokensPerNode: nat
    var tokens: seq<Token>
    var tokenToNode: map<Token, string>
    /** Every node ever added, in order. */
    ghost var added: seq<string>

    ghost predicate Valid()
      reads this
    {
      && tokensPerNode > 0
      && Sorted(tokens)
      && Stores(tokens, tokenToNode, Entries(hash, tokensPerNode, added))
    }

    constructor (hash: Option<HashFunc>, defaultHash: HashFunc, tokensPerNode: int, initialNodes: seq<string>)
      ensures Valid()
      ensures this.hash == if hash.Some? then hash.value else defaultHash
      ensures this.tokensPerNode == if tokensPerNode <= 0 then DEFAULT_TOKENS_PER_NODE else tokensPerNode
      ensures added == initialNodes
    {
      var h: HashFunc := if hash.Some? then hash.value else defaultHash;
      this.hash := h;
      this.tokensPerNode := if tokensPerNode <= 0 then DEFAULT_TOKENS_PER_NODE else tokensPerNode;
      this.tokens := [];
      this.tokenToNode := map[];
      this.added := [];
      new;
      AddNodes(initialNodes);
    }

    /** The tokens of one node, not yet in order. */
    method AppendNode(node: string)
      modifies this`tokens, this`tokenToNode
      ensures tokens == old(tokens) + NodeTokens(hash, tokensPerNode, node)
      ensures tokenToNode == NodeOwners(old(tokenToNode), hash, tokensPerNode, node)
    {
      var i := 0;
      while i < tokensPerNode
        invariant i <= tokensPerNode
        invariant tokens == old(tokens) + NodeTokens(hash, i, node)
        invariant tokenToNode == NodeOwners(old(tokenToNode), hash, i, node)
      {
        var t := hash(node + Decimal(i));
        ConcatAssoc(old(tokens), NodeTokens(hash, i, node), [t]);
        tokens := tokens + [t];
        tokenToNode := tokenToNode[t := node];
        i := i + 1;
      }
    }

    /** The tokens of all nodes of a list, not yet in order. */
    method AppendNodes(nodes: seq<string>)
      modifies this`tokens, this`tokenToNode
      ensures tokens == old(tokens) + ListTokens(hash, tokensPerNode, nodes, |nodes|)
      ensures tokenToNode == ListOwners(old(tokenToNode), hash, tokensPerNode, nodes, |nodes|)
    {
      var k := 0;
      while k < |nodes|
        invariant k <= |nodes|
        invariant tokens == old(tokens) + ListTokens(hash, tokensPerNode, nodes, k)
        invariant tokenToNode == ListOwners(old(tokenToNode), hash, tokensPerNode, nodes, k)
      {
        ConcatAssoc(old(tokens), ListTokens(hash, tokensPerNode, nodes, k), NodeTokens(hash, tokensPerNode, nodes[k]));
        AppendNode(nodes[k]);
        k := k + 1;
      }
    }

    method AddNodes(nodes: seq<string>)
      requires Valid()
      modifies this
      ensures Valid() && added == old(added) + nodes
    {
      StoreNodes(tokens, tokenToNode, added, hash, tokensPerNode, nodes);
      AppendNodes(nodes);
      tokens := Sort(tokens);
      added := added + nodes;
    }

    /** No nodes means no tokens. */
    method IsEmpty() returns (empty: bool)
      requires Valid()
      ensures empty <==> added == []
    {
      empty := |tokens| == 0;
      assert |tokens| == |multiset(tokens)| == |Entries(hash, tokensPerNode, added)|;
      if added != [] {
        NodeEntriesAt(hash, tokensPerNode, added[|added| - 1], 0);
      }
    }

    /** Bisection over the sorted tokens finds the node that the ring's meaning prescribes. */
    method Hash(key: string) returns (node: string)
      requires Valid()
      ensures node == Place(hash, tokensPerNode, added, key)
    {
      var empty := IsEmpty();
      if empty {
        return "";
      }
      var h := hash(key);
      var i, _ := BinarySearch(tokens, h);
      NodeEntriesAt(hash, tokensPerNode, added[|added| - 1], 0);
      SearchHitsWinner(tokens, Entries(hash, tokensPerNode, added), h, i);
      ghost var w := WinnerIsLast(Entries(hash, tokensPerNode, added), h);
      OwnersAt(Entries(hash, tokensPerNode, added), |Entries(hash, tokensPerNode, added)|, w);
      if i == |tokens| {
        i := 0;
      }
      node := tokenToNode[tokens[i]];
    }
  }
}
