// Block headers form a tree rooted at the genesis block; a block's branch is
// its path from the root. Fork point of two blocks.
module HeaderTree {
  import opened ChainLedger

  datatype Header = Header(hash: Hash, prev: Hash, height: Height, timestamp: nat, cumulativeDifficulty: nat)

  type Headers = map<Hash, Header>

  /** One header and its parent. */
  ghost predicate Rooted(t: Headers, genesis: Hash, h: Hash)
    requires h in t
  {
    && t[h].hash == h
    && (h == genesis ==> t[h].height == 0)
    && (h != genesis ==> t[h].prev in t && t[h].height == t[t[h].prev].height + 1)
  }

  ghost predicate Tree(t: Headers, genesis: Hash) {
    forall h {:trigger Rooted(t, genesis, h)} :: h in t ==> Rooted(t, genesis, h)
  }

  ghost function Branch(t: Headers, genesis: Hash, h: Hash): (r: seq<Hash>)
    requires Tree(t, genesis) && h in t
    ensures |r| == t[h].height + 1 && r[|r| - 1] == h
    decreases t[h].height
  {
    assert Rooted(t, genesis, h);
    if h == genesis then [h] else Branch(t, genesis, t[h].prev) + [h]
  }

  /** A branch holds at each height the block of that height, linked to the one below. */
  ghost predicate Linked(t: Headers, genesis: Hash, chain: seq<Hash>) {
    && (forall i :: 0 <= i < |chain| ==> chain[i] in t && t[chain[i]].height == i)
    && (chain != [] ==> chain[0] == genesis)
    && (forall i :: 0 < i < |chain| ==> t[chain[i]].prev == chain[i - 1] && chain[i] != genesis)
  }

  lemma {:induction false} BranchLinked(t: Headers, genesis: Hash, h: Hash)
    requires Tree(t, genesis) && h in t
    ensures Linked(t, genesis, Branch(t, genesis, h))
    decreases t[h].height
  {
    assert Rooted(t, genesis, h);
    if h != genesis {
      BranchLinked(t, genesis, t[h].prev);
    }
  }

  /** A linked chain is the branch of its last block. */
  lemma {:induction false} LinkedIsBranch(t: Headers, genesis: Hash, chain: seq<Hash>)
    requires Tree(t, genesis) && Linked(t, genesis, chain) && chain != []
    ensures Branch(t, genesis, chain[|chain| - 1]) == chain
  {
    if |chain| > 1 {
      LinkedIsBranch(t, genesis, chain[..|chain| - 1]);
    }
  }

  lemma {:induction false} BranchExtends(t: Headers, t': Headers, genesis: Hash, h: Hash)
    requires Tree(t, genesis) && Tree(t', genesis) && h in t
    requires forall x :: x in t ==> x in t' && t'[x] == t[x]
    ensures Branch(t', genesis, h) == Branch(t, genesis, h)
    decreases t[h].height
  {
    assert Rooted(t, genesis, h);
    assert Rooted(t', genesis, h);
    if h != genesis {
      BranchExtends(t, t', genesis, t[h].prev);
    }
  }

  function Reversed(s: seq<Hash>): (r: seq<Hash>)
    ensures |r| == |s|
    ensures forall i :: 0 <= i < |s| ==> r[i] == s[|s| - 1 - i]
  {
    if s == [] then [] else Reversed(s[1..]) + [s[0]]
  }

  /** Where two branches part: `c` ends their common prefix, the two lists are
      the remainders from the tips downwards and share no block. */
  ghost predicate Fork(t: Headers, genesis: Hash, h1: Hash, h2: Hash, c: Hash, chain1: seq<Hash>, chain2: seq<Hash>)
    requires Tree(t, genesis) && h1 in t && h2 in t
  {
    && c in t
    && Branch(t, genesis, h1) == Branch(t, genesis, c) + Reversed(chain1)
    && Branch(t, genesis, h2) == Branch(t, genesis, c) + Reversed(chain2)
    && (forall x :: x in chain1 ==> x !in chain2)
  }

  lemma InReversed(s: seq<Hash>, x: Hash)
    ensures x in Reversed(s) <==> x in s
  {
    if x in s {
      var i :| 0 <= i < |s| && s[i] == x;
      assert Reversed(s)[|s| - 1 - i] == x;
    }
  }

  /** The fork point is the highest block on both branches. */
  lemma ForkHighest(t: Headers, genesis: Hash, h1: Hash, h2: Hash, c: Hash, chain1: seq<Hash>, chain2: seq<Hash>, x: Hash)
    requires Tree(t, genesis) && h1 in t && h2 in t && Fork(t, genesis, h1, h2, c, chain1, chain2)
    requires x in Branch(t, genesis, h1) && x in Branch(t, genesis, h2)
    ensures x in Branch(t, genesis, c) && x in t && t[x].height <= t[c].height
  {
    InReversed(chain1, x);
    InReversed(chain2, x);
    BranchLinked(t, genesis, c);
  }

  /** Two branches of one height that end differently, extended: nothing shared above. */
  lemma DisjointAbove(t: Headers, genesis: Hash, h1: Hash, h2: Hash, chain1: seq<Hash>, chain2: seq<Hash>)
    requires Tree(t, genesis) && h1 in t && h2 in t
    requires forall x :: x in chain1 ==> x in t && t[x].height > t[h1].height
    requires forall x :: x in chain2 ==> x in t && t[x].height > t[h2].height
    requires t[h1].height == t[h2].height && h1 != h2
    requires forall x :: x in chain1 ==> x !in chain2
    ensures forall x :: x in chain1 + [h1] ==> x !in chain2 + [h2]
  {
  }

  lemma ReversedAppend(s: seq<Hash>, x: Hash)
    ensures Reversed(s + [x]) == [x] + Reversed(s)
  {
  }

  /** Taking one step down one branch. */
  lemma StepDown(t: Headers, genesis: Hash, h: Hash, tip: Hash, chain: seq<Hash>)
    requires Tree(t, genesis) && h in t && h != genesis && t[h].prev in t && tip in t
    requires Branch(t, genesis, tip) == Branch(t, genesis, h) + Reversed(chain)
    ensures Branch(t, genesis, tip) == Branch(t, genesis, t[h].prev) + Reversed(chain + [h])
  {
    ReversedAppend(chain, h);
  }

  /** What one of the two walks has found so far. */
  ghost predicate Walked(t: Headers, genesis: Hash, tip: Hash, h: Hash, chain: seq<Hash>)
    requires Tree(t, genesis) && tip in t
  {
    && h in t
    && Branch(t, genesis, tip) == Branch(t, genesis, h) + Reversed(chain)
    && (forall x :: x in chain ==> x in t && t[x].height > t[h].height)
  }

  /** Both chains as far as they were walked, and still disjoint. */
  lemma WalkedStep(t: Headers, genesis: Hash, tip: Hash, h: Hash, chain: seq<Hash>)
    requires Tree(t, genesis) && tip in t && Walked(t, genesis, tip, h, chain) && h != genesis
    ensures Walked(t, genesis, tip, t[h].prev, chain + [h]) && t[h].height == t[t[h].prev].height + 1
  {
    assert Rooted(t, genesis, h);
    StepDown(t, genesis, h, tip, chain);
  }

  lemma GenesisOnly(t: Headers, genesis: Hash, h: Hash)
    requires Tree(t, genesis) && h in t && t[h].height == 0
    ensures h == genesis
  {
    assert Rooted(t, genesis, h);
  }

  /** get_common_block. */
  method GetCommonBlock(t: Headers, ghost genesis: Hash, bid1: Hash, bid2: Hash)
    returns (common: Hash, chain1: seq<Hash>, chain2: seq<Hash>)
    requires Tree(t, genesis) && bid1 in t && bid2 in t
    ensures Fork(t, genesis, bid1, bid2, common, chain1, chain2)
  {
    var hid1, hid2 := bid1, bid2;
    var ha1, ha2 := t[hid1], t[hid2];
    chain1, chain2 := [], [];
    while ha1.height > ha2.height
      invariant Walked(t, genesis, bid1, hid1, chain1) && ha1 == t[hid1] 
      invariant chain1 != [] ==> ha1.height >= ha2.height
      decreases ha1.height
    {
      WalkedStep(t, genesis, bid1, hid1, chain1);
      chain1 := chain1 + [hid1];
      hid1 := ha1.prev;
      ha1 := t[hid1];
    }
    while ha2.height > ha1.height
      invariant Walked(t, genesis, bid2, hid2, chain2) && ha2 == t[hid2] && ha2.height >= ha1.height
      invariant chain1 != [] ==> ha1.height == ha2.height && chain2 == []
      decreases ha2.height
    {
      WalkedStep(t, genesis, bid2, hid2, chain2);
      chain2 := chain2 + [hid2];
      hid2 := ha2.prev;
      ha2 := t[hid2];
    }
    while hid1 != hid2
      invariant Walked(t, genesis, bid1, hid1, chain1) && ha1 == t[hid1]
      invariant Walked(t, genesis, bid2, hid2, chain2) && ha2 == t[hid2]
      invariant ha1.height == ha2.height
      invariant forall x :: x in chain1 ==> x !in chain2
      decreases ha1.height
    {
      if ha1.height == 0 {
        GenesisOnly(t, genesis, hid1);
        GenesisOnly(t, genesis, hid2);
        assert false;
      }
      DisjointAbove(t, genesis, hid1, hid2, chain1, chain2);
      WalkedStep(t, genesis, bid1, hid1, chain1);
      WalkedStep(t, genesis, bid2, hid2, chain2);
      chain1 := chain1 + [hid1];
      hid1 := ha1.prev;
      ha1 := t[hid1];
      chain2 := chain2 + [hid2];
      hid2 := ha2.prev;
      ha2 := t[hid2];
    }
    return hid1, chain1, chain2;
  }
}
