// Chain sync between two nodes: a sparse chain of one node's hashes, and the
// run of its own main chain the other node answers with.
module Locator {
  import opened Basics
  import opened ChainLedger
  import opened HeaderTree

  function Pow2(n: nat): (r: nat)
    ensures r >= 1
  {
    if n == 0 then 1 else 2 * Pow2(n - 1)
  }

  // ----- the sparse chain -----

  /** How far below the tip the k-th hash is: ten single steps, then doubling ones. */
  function Jump(k: nat): nat {
    if k <= 10 then k else 8 + Pow2(k - 9)
  }

  lemma JumpGrows(k: nat)
    ensures Jump(k) < Jump(k + 1)
    ensures Jump(k + 1) == Jump(k) + if k < 10 then 1 else Pow2(k + 1 - 10)
  {
    if k == 10 {
      assert Pow2(2) == 4 && Pow2(1) == 2;
    }
  }

  /** The number of jumps that stay on the chain. */
  function Steps(tip: nat, k: nat): (n: nat)
    ensures n >= k && Jump(n) > tip && forall j :: k <= j < n ==> Jump(j) <= tip
    decreases Max(0, tip + 1 - Jump(k))
  {
    JumpGrows(k);
    if Jump(k) > tip then k else Steps(tip, k + 1)
  }

  function Picks(chain: seq<Hash>, n: nat): (r: seq<Hash>)
    requires forall k :: 0 <= k < n ==> Jump(k) < |chain|
    ensures |r| == n
  {
    if n == 0 then [] else Picks(chain, n - 1) + [chain[|chain| - 1 - Jump(n - 1)]]
  }

  lemma {:induction false} PicksAt(chain: seq<Hash>, n: nat, k: nat)
    requires k < n && forall j :: 0 <= j < n ==> Jump(j) < |chain|
    ensures Picks(chain, n)[k] == chain[|chain| - 1 - Jump(k)]
    decreases n
  {
    if k < n - 1 {
      PicksAt(chain, n - 1, k);
    }
  }

  /** get_sparse_chain. */
  function SparseChain(chain: seq<Hash>, genesis: Hash): seq<Hash>
    requires chain != []
  {
    var p := Picks(chain, Steps(|chain| - 1, 0));
    if p[|p| - 1] != genesis then p + [genesis] else p
  }

  lemma {:induction false} Pow2Grows(m: nat, n: nat)
    requires m < n
    ensures Pow2(m) < Pow2(n)
    decreases n
  {
    if m < n - 1 {
      Pow2Grows(m, n - 1);
    }
  }

  lemma Pow2At29()
    ensures Pow2(29) == 536870912
  {
    assert Pow2(10) == 1024;
    assert Pow2(20) == 1024 * Pow2(10);
    assert Pow2(29) == 512 * Pow2(20);
  }

  /** The loop: neither the 32-bit counter nor the shift of a 32-bit one can
      overflow. */
  method GetSparseChain(chain: seq<Hash>, genesis: Hash) returns (tipPath: seq<Hash>)
    requires 0 < |chain| <= MAX_BLOCK_HEIGHT + 1
    ensures tipPath == SparseChain(chain, genesis)
  {
    var tipHeight := |chain| - 1;
    var jump := 0;
    tipPath := [];
    assert jump == Jump(0) && Picks(chain, 0) == [];
    hide Jump, Pow2, Steps, SparseChain, Picks;
    while tipHeight >= jump
      invariant jump == Jump(|tipPath|) && (tipPath == [] ==> jump == 0)
      invariant |tipPath| <= Steps(tipHeight, 0)
      invariant forall k :: 0 <= k < |tipPath| ==> Jump(k) < |chain|
      invariant tipPath == Picks(chain, |tipPath|)
      decreases Steps(tipHeight, 0) - |tipPath|
    {
      assert |tipPath| < Steps(tipHeight, 0);
      PicksNext(chain, |tipPath|);
      tipPath := tipPath + [chain[tipHeight - jump]];
      jump := NextJump(jump, |tipPath|, tipHeight);
    }
    assert |tipPath| == Steps(tipHeight, 0);
    assert |tipPath| > 0;
    SparseChainIs(chain, genesis);
    if tipPath[|tipPath| - 1] != genesis {
      tipPath := tipPath + [genesis];
    }
  }

  lemma PicksNext(chain: seq<Hash>, n: nat)
    requires forall k :: 0 <= k <= n ==> Jump(k) < |chain|
    ensures Picks(chain, n + 1) == Picks(chain, n) + [chain[|chain| - 1 - Jump(n)]]
  {
  }

  /** The next jump after this many hashes: in 32 bits, with a shift of less
      than 31. */
  method NextJump(jump: nat, size: nat, ghost tip: nat) returns (next: nat)
    requires size >= 1 && jump == Jump(size - 1) <= tip <= MAX_BLOCK_HEIGHT
    ensures next == Jump(size) < WORD32
    ensures size > 10 ==> size - 10 < 31
  {
    JumpGrows(size - 1);
    if size <= 10 {
      next := jump + 1;
    } else {
      ShiftSmall(size - 1, tip);
      next := jump + Pow2(size - 10);
    }
  }

  lemma SparseChainIs(chain: seq<Hash>, genesis: Hash)
    requires chain != []
    ensures var p := Picks(chain, Steps(|chain| - 1, 0));
            p != [] && SparseChain(chain, genesis) == if p[|p| - 1] != genesis then p + [genesis] else p
  {
  }

  lemma ShiftSmall(k: nat, tip: nat)
    requires k >= 10 && Jump(k) <= tip <= MAX_BLOCK_HEIGHT
    ensures k + 1 - 10 < 31 && Jump(k) + Pow2(k + 1 - 10) < WORD32
  {
    JumpGrows(k);
    Pow2At29();
    if k - 9 >= 29 {
      if k - 9 > 29 {
        Pow2Grows(29, k - 9);
      }
      assert false;
    }
    assert Pow2(k + 1 - 9) == 2 * Pow2(k - 9);
  }

  // ----- the answer -----

  /** The highest block of a known block's branch that is on the main chain. */
  function Anchor(t: Headers, genesis: Hash, chain: seq<Hash>, h: Hash): Hash
    requires Tree(t, genesis) && h in t
    decreases t[h].height
  {
    assert Rooted(t, genesis, h);
    if t[h].height == 0 || (t[h].height < |chain| && chain[t[h].height] == h) then h
    else Anchor(t, genesis, chain, t[h].prev)
  }

  datatype Answer = Answer(startHeight: nat, hashes: seq<Hash>)

  function RunFrom(chain: seq<Hash>, start: nat, maxCount: nat): seq<Hash> {
    if start >= |chain| then [] else chain[start..Min(|chain|, start + maxCount)]
  }

  /** get_sync_headers_chain. */
  function SyncChain(t: Headers, genesis: Hash, chain: seq<Hash>, locator: seq<Hash>, maxCount: nat): Answer
    requires Tree(t, genesis)
  {
    if locator == [] then Answer(|chain|, [])
    else if locator[0] !in t then SyncChain(t, genesis, chain, locator[1..], maxCount)
    else
      var a := Anchor(t, genesis, chain, locator[0]);
      AnchorKnown(t, genesis, chain, locator[0]);
      Answer(t[a].height, RunFrom(chain, t[a].height, maxCount))
  }

  lemma {:induction false} AnchorKnown(t: Headers, genesis: Hash, chain: seq<Hash>, h: Hash)
    requires Tree(t, genesis) && h in t
    ensures var a := Anchor(t, genesis, chain, h); a in t && t[a].height <= t[h].height
    decreases t[h].height
  {
    assert Rooted(t, genesis, h);
    if !(t[h].height == 0 || (t[h].height < |chain| && chain[t[h].height] == h)) {
      AnchorKnown(t, genesis, chain, t[h].prev);
    }
  }

  method GetSyncHeadersChain(t: Headers, ghost genesis: Hash, chain: seq<Hash>, locator: seq<Hash>, maxCount: nat)
    returns (startHeight: nat, result: seq<Hash>)
    requires Tree(t, genesis)
    ensures Answer(startHeight, result) == SyncChain(t, genesis, chain, locator, maxCount)
  {
    for n := 0 to |locator|
      invariant SyncChain(t, genesis, chain, locator, maxCount) == SyncChain(t, genesis, chain, locator[n..], maxCount)
    {
      assert locator[n..][0] == locator[n] && locator[n..][1..] == locator[n + 1..];
      if locator[n] in t {
        var header := locator[n];
        while t[header].height != 0
          invariant header in t && Anchor(t, genesis, chain, header) == Anchor(t, genesis, chain, locator[n])
          decreases t[header].height
        {
          assert Rooted(t, genesis, header);
          if t[header].height < |chain| && chain[t[header].height] == header {
            break;
          }
          header := t[header].prev;
        }
        startHeight := t[header].height;
        result := [];
        var minHeight := startHeight;
        while |result| < maxCount && minHeight < |chain|
          invariant minHeight == startHeight + |result|
          invariant startHeight < |chain| ==> minHeight <= |chain| && result == chain[startHeight..minHeight]
          invariant startHeight >= |chain| ==> result == []
          invariant |result| <= maxCount
        {
          result := result + [chain[minHeight]];
          minHeight := minHeight + 1;
        }
        return;
      }
    }
    return |chain|, [];
  }

  // ----- two nodes -----

  /** Two main chains with the same first block that part after `common`. */
  ghost predicate Parting(mine: seq<Hash>, theirs: seq<Hash>, common: nat) {
    && 0 < common <= |mine| && common <= |theirs| && mine[..common] == theirs[..common]
    && (common < |mine| && common < |theirs| ==> mine[common] != theirs[common])
  }

  /** A hash determines its header. */
  ghost predicate SameHeaders(t: Headers, u: Headers) {
    forall h :: h in t && h in u ==> t[h] == u[h]
  }

  /** Above the fork nothing of mine is on their main chain. */
  lemma {:induction false} ApartAbove(t: Headers, u: Headers, genesis: Hash, mine: seq<Hash>, theirs: seq<Hash>, common: nat, i: nat)
    requires Linked(t, genesis, mine) && Linked(u, genesis, theirs) && SameHeaders(t, u) && Parting(mine, theirs, common)
    requires common <= i < |mine| && i < |theirs|
    ensures mine[i] != theirs[i]
    decreases i
  {
    if i > common {
      ApartAbove(t, u, genesis, mine, theirs, common, i - 1);
      SameBelow(t, u, genesis, mine, theirs, i);
    }
  }

  lemma SameBelow(t: Headers, u: Headers, genesis: Hash, mine: seq<Hash>, theirs: seq<Hash>, i: nat)
    requires Linked(t, genesis, mine) && Linked(u, genesis, theirs) && SameHeaders(t, u)
    requires 0 < i < |mine| && i < |theirs|
    ensures mine[i] == theirs[i] ==> mine[i - 1] == theirs[i - 1]
  {
    assert t[mine[i]].prev == mine[i - 1] && u[theirs[i]].prev == theirs[i - 1];
  }

  lemma {:induction false} AnchorOfMine(t: Headers, u: Headers, genesis: Hash, mine: seq<Hash>, theirs: seq<Hash>, common: nat, i: nat)
    requires Linked(t, genesis, mine) && Linked(u, genesis, theirs) && Tree(u, genesis) && SameHeaders(t, u)
    requires Parting(mine, theirs, common) && i < |mine| && mine[i] in u
    ensures Anchor(u, genesis, theirs, mine[i]) == mine[Min(i, common - 1)]
    decreases i
  {
    assert Rooted(u, genesis, mine[i]);
    assert u[mine[i]] == t[mine[i]];
    if i < common {
      assert mine[..common][i] == theirs[..common][i];
    } else {
      if i < |theirs| {
        ApartAbove(t, u, genesis, mine, theirs, common, i);
      }
      assert u[mine[i]].prev == mine[i - 1];
      AnchorOfMine(t, u, genesis, mine, theirs, common, i - 1);
    }
  }

  /** Some jump is at least d and at most twice d. */
  lemma {:induction false} JumpNear(d: nat, k: nat)
    requires Jump(k) <= d
    ensures exists j :: j >= k && d <= Jump(j) <= 2 * d && forall i :: k <= i < j ==> Jump(i) < d
    decreases d - Jump(k)
  {
    if Jump(k) == d {
      assert d <= Jump(k) <= 2 * d;
    } else {
      JumpGrows(k);
      if Jump(k + 1) <= d {
        JumpNear(d, k + 1);
        var j :| j >= k + 1 && d <= Jump(j) <= 2 * d && forall i :: k + 1 <= i < j ==> Jump(i) < d;
        assert forall i :: k <= i < j ==> Jump(i) < d;
      } else {
        assert Jump(k + 1) <= 2 * d by { JumpNext(k, d); }
        assert forall i :: k <= i < k + 1 ==> Jump(i) < d;
      }
    }
  }

  lemma JumpNext(k: nat, d: nat)
    requires Jump(k) < d < Jump(k + 1)
    ensures Jump(k + 1) <= 2 * d
  {
    JumpGrows(k);
    if k > 10 {
      assert Pow2(k + 1 - 9) == 2 * Pow2(k - 9);
    } else if k == 10 {
      assert Pow2(1) == 2;
    }
  }

  /** The answer for a locator whose first known hash is the n-th. */
  lemma {:induction false} SyncSkips(u: Headers, genesis: Hash, chain: seq<Hash>, locator: seq<Hash>, maxCount: nat, n: nat)
    requires Tree(u, genesis) && n < |locator| && locator[n] in u && forall k :: 0 <= k < n ==> locator[k] !in u
    ensures SyncChain(u, genesis, chain, locator, maxCount) == SyncChain(u, genesis, chain, [locator[n]], maxCount)
    decreases n
  {
    if n > 0 {
      SyncSkips(u, genesis, chain, locator[1..], maxCount, n - 1);
    }
  }

  lemma {:induction false} FirstKnown(u: Headers, locator: seq<Hash>, m: nat) returns (n: nat)
    requires m < |locator| && locator[m] in u
    ensures n <= m && locator[n] in u && forall k :: 0 <= k < n ==> locator[k] !in u
  {
    n := 0;
    while locator[n] !in u
      invariant n <= m && forall k :: 0 <= k < n ==> locator[k] !in u
      decreases m - n
    {
      n := n + 1;
    }
  }

  /** The hash at a place of the sparse chain, and its height. */
  ghost predicate At(mine: seq<Hash>, l: seq<Hash>, k: nat, i: nat) {
    k < |l| && i < |mine| && l[k] == mine[i]
  }

  lemma SparseAll(mine: seq<Hash>, genesis: Hash, k: nat) returns (i: nat)
    requires mine != [] && mine[0] == genesis && k < |SparseChain(mine, genesis)|
    ensures At(mine, SparseChain(mine, genesis), k, i)
  {
    if k < Steps(|mine| - 1, 0) {
      PicksAt(mine, Steps(|mine| - 1, 0), k);
      i := |mine| - 1 - Jump(k);
    } else {
      i := 0;
    }
  }

  /** Some hash of the sparse chain is at or below a given depth but not twice
      as deep again. */
  lemma SparseNear(mine: seq<Hash>, genesis: Hash, d: nat) returns (m: nat, i: nat)
    requires mine != [] && mine[0] == genesis && d < |mine|
    ensures At(mine, SparseChain(mine, genesis), m, i) && |mine| - 1 - 2 * d <= i <= |mine| - 1 - d
  {
    var tip := |mine| - 1;
    var l := SparseChain(mine, genesis);
    JumpNear(d, 0);
    var j :| j >= 0 && d <= Jump(j) <= 2 * d && forall i :: 0 <= i < j ==> Jump(i) < d;
    if j < Steps(tip, 0) {
      PicksAt(mine, Steps(tip, 0), j);
      m, i := j, tip - Jump(j);
    } else {
      GenesisLast(mine, genesis);
      StepsPast(tip, j);
      m, i := |l| - 1, 0;
    }
  }

  lemma GenesisLast(mine: seq<Hash>, genesis: Hash)
    requires mine != []
    ensures var l := SparseChain(mine, genesis); l[|l| - 1] == genesis
  {
  }

  lemma {:induction false} StepsPast(tip: nat, j: nat)
    requires j >= Steps(tip, 0)
    ensures Jump(j) > tip
    decreases j
  {
    if j > Steps(tip, 0) {
      StepsPast(tip, j - 1);
      JumpGrows(j - 1);
    }
  }

  lemma SyncOne(t: Headers, u: Headers, genesis: Hash, mine: seq<Hash>, theirs: seq<Hash>, common: nat, maxCount: nat, x: nat)
    requires Linked(t, genesis, mine) && Linked(u, genesis, theirs) && Tree(u, genesis) && SameHeaders(t, u)
    requires Parting(mine, theirs, common) && x < |mine| && mine[x] in u
    ensures var a := Min(x, common - 1);
            SyncChain(u, genesis, theirs, [mine[x]], maxCount) == Answer(a, RunFrom(theirs, a, maxCount))
  {
    hide Tree, Anchor;
    AnchorOfMine(t, u, genesis, mine, theirs, common, x);
    var a := Min(x, common - 1);
    assert mine[..common][a] == theirs[..common][a];
    assert u[theirs[a]].height == a;
  }

  /** A node whose main chain leaves another's at depth d below its tip gets a
      contiguous run of the other's main chain, whose first block is on both
      chains and at most d below the fork. */
  lemma SyncReachesFork(t: Headers, u: Headers, genesis: Hash, mine: seq<Hash>, theirs: seq<Hash>, common: nat, maxCount: nat)
    requires Linked(t, genesis, mine) && Linked(u, genesis, theirs) && Tree(u, genesis) && SameHeaders(t, u)
    requires Parting(mine, theirs, common) && maxCount > 0
    ensures var a := SyncChain(u, genesis, theirs, SparseChain(mine, genesis), maxCount);
            var d := |mine| - common;
            && common - 1 - d <= a.startHeight <= common - 1
            && mine[a.startHeight] == theirs[a.startHeight]
            && a.hashes == theirs[a.startHeight..Min(|theirs|, a.startHeight + maxCount)]
  {
    hide Tree, SparseChain, SyncChain, SameHeaders;
    var d := |mine| - common;
    var l := SparseChain(mine, genesis);
    var m, i := SparseNear(mine, genesis, d);
    assert mine[..common][i] == theirs[..common][i];
    var n := FirstKnown(u, l, m);
    SyncSkips(u, genesis, theirs, l, maxCount, n);
    var x := SparseAll(mine, genesis, n);
    SyncOne(t, u, genesis, mine, theirs, common, maxCount, x);
    SparseDescends(t, genesis, mine, n, m, x, i);
    var a := Min(x, common - 1);
    assert mine[..common][a] == theirs[..common][a];
  }

  /** Earlier hashes of the sparse chain are higher. */
  lemma SparseDescends(t: Headers, genesis: Hash, mine: seq<Hash>, n: nat, m: nat, x: nat, i: nat)
    requires Linked(t, genesis, mine) && mine != [] && n <= m < |SparseChain(mine, genesis)| && x < |mine| && i < |mine|
    requires SparseChain(mine, genesis)[n] == mine[x] && SparseChain(mine, genesis)[m] == mine[i]
    ensures i <= x
  {
    var l, steps := SparseChain(mine, genesis), Steps(|mine| - 1, 0);
    assert t[mine[x]].height == x && t[mine[i]].height == i;
    if m < steps {
      JumpOrder(n, m);
      PicksAt(mine, steps, n);
      PicksAt(mine, steps, m);
      assert l[n] == mine[|mine| - 1 - Jump(n)] && l[m] == mine[|mine| - 1 - Jump(m)];
      assert t[mine[|mine| - 1 - Jump(n)]].height == |mine| - 1 - Jump(n);
      assert t[mine[|mine| - 1 - Jump(m)]].height == |mine| - 1 - Jump(m);
    } else {
      assert l[m] == genesis && mine[0] == genesis;
      assert t[mine[0]].height == 0;
    }
  }

  lemma {:induction false} JumpOrder(n: nat, m: nat)
    requires n <= m
    ensures Jump(n) <= Jump(m)
    decreases m - n
  {
    if n < m {
      JumpGrows(n);
      JumpOrder(n + 1, m);
    }
  }
}
