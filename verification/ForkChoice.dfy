// Which chain a node is on after add_block: the branch with more work, or as
// much of it as goes through.
module ForkChoice {
  import opened Basics
  import opened ChainLedger
  import opened Redo
  import opened BlockRedo
  import opened HeaderTree
  import opened ChainIndex
  import opened BlockChain
  import opened ChainEnds

  /** The next block of a branch above this chain is refused on its state. */
  ghost predicate NextRefused(env: Env, t: Node, branch: seq<Hash>) {
    && |t.chain| < |branch| && branch[|t.chain|] in t.blocks
    && RedoIndexed(env.rules, t.indexed, t.blocks[branch[|t.chain|]], |t.chain|, env.ChecksAt(|t.chain|)).Refused?
  }

  /** The chain is the whole branch, or its part from no lower than where `was`
      left it up to a block that is refused. */
  ghost predicate OnBranch(env: Env, was: seq<Hash>, t: Node, branch: seq<Hash>) {
    || t.chain == branch
    || (CommonPrefix(was, branch) <= |t.chain| && t.chain == branch[..Min(|t.chain|, |branch|)] && NextRefused(env, t, branch))
  }

  /** A redo of a stretch stops only at a block that is refused. */
  lemma {:induction false} RedoAllStops(env: Env, s: Node, hs: seq<Hash>)
    requires RedoAll(env, s, hs).Some? && forall i :: 0 <= i < |hs| ==> hs[i] in s.blocks
    ensures var p := RedoAll(env, s, hs).value;
            p.count <= |hs| && (p.count < |hs| ==> RedoTip(env, p.node, hs[p.count]).Refused?)
    decreases |hs|
  {
    hide RedoTip;
    if hs != [] && RedoTip(env, s, hs[0]).Done? {
      RedoTipSame(env, s, hs[0]);
      RedoAllStops(env, RedoTip(env, s, hs[0]).value, hs[1..]);
    }
  }

  lemma RefusedIs(env: Env, t: Node, h: Hash)
    requires RedoTip(env, t, h).Refused?
    ensures h in t.headers && h in t.blocks
    ensures RedoIndexed(env.rules, t.indexed, t.blocks[h], t.headers[h].height, env.ChecksAt(t.headers[h].height)).Refused?
  {
  }

  lemma BranchHeights(env: Env, headers: Headers, target: Hash, i: nat)
    requires Tree(headers, env.genesis) && target in headers && i < |Branch(headers, env.genesis, target)|
    ensures Branch(headers, env.genesis, target)[i] in headers && headers[Branch(headers, env.genesis, target)[i]].height == i
  {
    BranchLinked(headers, env.genesis, target);
  }

  /** The blocks of a branch above the fork redone. */
  lemma RedoneOn(env: Env, u: Node, was: seq<Hash>, target: Hash, keyImageOf: PublicKey -> KeyImage)
    requires Tree(u.headers, env.genesis) && target in u.headers
    requires var branch := Branch(u.headers, env.genesis, target);
             var n := CommonPrefix(was, branch);
             && u.chain == branch[..n] && Ready(env, u, branch[n..], keyImageOf)
             && (forall h :: h in branch[n..] ==> h in u.blocks) && RedoAll(env, u, branch[n..]).Some?
    ensures var branch := Branch(u.headers, env.genesis, target);
            var r := RedoAll(env, u, branch[CommonPrefix(was, branch)..]).value.node;
            r.headers == u.headers && r.blocks == u.blocks && OnBranch(env, was, r, branch)
  {
    hide Ready, RedoAll, RedoTip, Inv;
    var branch := Branch(u.headers, env.genesis, target);
    var n := CommonPrefix(was, branch);
    RedoAllKeeps(env, u, branch[n..], keyImageOf);
    RedoAllStops(env, u, branch[n..]);
    var p := RedoAll(env, u, branch[n..]).value;
    TakeMore(branch, n, p.count);
    StoppedOn(env, was, p, branch, n, target);
  }

  lemma ReorganizedOn(env: Env, t: Node, target: Hash, keyImageOf: PublicKey -> KeyImage)
    requires Inv(env, t, keyImageOf) && t.chain != [] && target in t.headers
    requires Sound(env.rules, keyImageOf) && Trusted(env, t.headers, t.blocks, keyImageOf)
    requires Reorganize(env, t, target).Some?
    ensures var r := Reorganize(env, t, target).value.node;
            && r.headers == t.headers && r.blocks == t.blocks && OnBranch(env, t.chain, r, Branch(t.headers, env.genesis, target))
  {
    var n := CommonPrefix(t.chain, Branch(t.headers, env.genesis, target));
    hide Inv, UndoTo, Ready, Trusted, Sound, RedoAll, Reorganize, OnBranch;
    UndoToFork(env, t, target, keyImageOf);
    ReorganizeIs(env, t, target, keyImageOf);
    StoredBlocks(env, t, target, n, keyImageOf);
    RedoneOn(env, UndoTo(t, n).value, t.chain, target, keyImageOf);
  }

  lemma StoredBlocks(env: Env, t: Node, target: Hash, n: nat, keyImageOf: PublicKey -> KeyImage)
    requires Inv(env, t, keyImageOf) && target in t.headers && n <= |Branch(t.headers, env.genesis, target)|
    ensures forall h :: h in Branch(t.headers, env.genesis, target)[n..] ==> h in t.blocks
  {
    BranchHasBlocks(env, t, target, n);
  }

  lemma ReorganizeIs(env: Env, t: Node, target: Hash, keyImageOf: PublicKey -> KeyImage)
    requires Inv(env, t, keyImageOf) && target in t.headers
    requires UndoTo(t, CommonPrefix(t.chain, Branch(t.headers, env.genesis, target))).Some?
    ensures var branch := Branch(t.headers, env.genesis, target);
            var n := CommonPrefix(t.chain, branch);
            Reorganize(env, t, target) == RedoAll(env, UndoTo(t, n).value, branch[n..])
  {
    BranchHasBlocks(env, t, target, CommonPrefix(t.chain, Branch(t.headers, env.genesis, target)));
    hide Inv, UndoTo, RedoAll;
  }

  lemma StoppedOn(env: Env, was: seq<Hash>, p: Progress, branch: seq<Hash>, n: nat, target: Hash)
    requires Tree(p.node.headers, env.genesis) && target in p.node.headers && branch == Branch(p.node.headers, env.genesis, target)
    requires n == CommonPrefix(was, branch)
    requires n + p.count <= |branch| && p.node.chain == branch[..n + p.count]
    requires p.count < |branch[n..]| ==> RedoTip(env, p.node, branch[n..][p.count]).Refused?
    ensures OnBranch(env, was, p.node, branch)
  {
    if p.count < |branch[n..]| {
      var h := branch[n + p.count];
      hide RedoTip, RedoIndexed;
      RefusedIs(env, p.node, h);
      BranchHeights(env, p.node.headers, target, n + p.count);
    }
  }

  /** After a new block that is not the first one: with no more work than the
      tip nothing moves. With more, the main chain is the branch of the block, or
      ends on it no lower than it left it, below a block that is refused. The
      answer is to broadcast exactly when the block is the tip, and to ban its
      sender exactly when it was refused on top of the tip. */
  lemma HeavierWins(env: Env, s: Node, b: Block, cd: nat, keyImageOf: PublicKey -> KeyImage)
    requires Inv(env, s, keyImageOf) && Sound(env.rules, keyImageOf) && AddBlock(env, s, b, Valid(cd)).Some?
    requires var t := AddBlock(env, s, b, Valid(cd)).value.node; Trusted(env, t.headers, t.blocks, keyImageOf)
    requires IsStored(env, s, b, Valid(cd)) && b.hash != env.genesis
    ensures var a := AddBlock(env, s, b, Valid(cd)).value;
            && Tree(a.node.headers, env.genesis) && b.hash in a.node.headers && b.hash in a.node.blocks
            && (cd <= s.tipDifficulty ==> a.node.chain == s.chain && a.node.indexed == s.indexed)
            && (cd > s.tipDifficulty ==> OnBranch(env, s.chain, a.node, Branch(a.node.headers, env.genesis, b.hash)))
            && (a.action == BroadcastAll <==> a.node.HasTip(b.hash))
            && (a.action == Ban <==> cd > s.tipDifficulty && s.HasTip(b.prev) && !a.node.HasTip(b.hash))
  {
    assert Tree(s.headers, env.genesis);
    hide Trusted, Sound, Stored, Replayed, RedoTip, Reorganize, OnBranch;
    AddBlockTree(env, s, b, Valid(cd));
    StoreKeeps(env, s, b, cd, keyImageOf);
    StoreKeepsTree(env, s, b, cd);
    StoredChain(env, s);
    var t := StoreBlock(env, s, b, cd);
    assert b.hash !in s.chain;
    if cd > t.tipDifficulty {
      if t.HasTip(b.prev) {
        RedoTipSame(env, t, b.hash);
        ExtendedOn(env, t, b.hash);
      } else {
        ReorganizeSame(env, t, b.hash);
        ReorganizedOn(env, t, b.hash, keyImageOf);
      }
    }
  }

  /** A stored block is written with its header, one higher than its parent and
      with the work it was found to have; no other header or block changes. */
  lemma StoredAs(env: Env, s: Node, b: Block, cd: nat)
    requires Tree(s.headers, env.genesis) && IsStored(env, s, b, Valid(cd)) && AddBlock(env, s, b, Valid(cd)).Some?
    ensures var t := AddBlock(env, s, b, Valid(cd)).value.node;
            var height := if b.hash == env.genesis then 0 else s.headers[b.prev].height + 1;
            && t.headers == s.headers[b.hash := Header(b.hash, b.prev, height, b.timestamp, cd)]
            && t.blocks == s.blocks[b.hash := b]
  {
    hide RedoTip, Reorganize;
    StoreKeepsTree(env, s, b, cd);
    var t := StoreBlock(env, s, b, cd);
    RedoTipSame(env, t, b.hash);
    ReorganizeSame(env, t, b.hash);
  }

  /** After any run the tip's work is what it was found to have when it was
      submitted. */
  lemma TipWork(env: Env, subs: seq<Submission>, keyImageOf: PublicKey -> KeyImage)
    requires Sound(env.rules, keyImageOf) && Run(env, subs).Some? && Run(env, subs).value.chain != []
    requires Trusted(env, Run(env, subs).value.headers, Run(env, subs).value.blocks, keyImageOf)
    ensures var s := Run(env, subs).value;
            exists i :: 0 <= i < |subs| && s.HasTip(subs[i].block.hash) && subs[i].verdict == Valid(s.tipDifficulty)
                        && subs[i].block.hash in s.blocks && s.blocks[subs[i].block.hash] == subs[i].block
  {
    hide Run, Trusted, Sound, Stored, Replayed;
    RunReplays(env, subs, keyImageOf);
    var s := Run(env, subs).value;
    HeaderFrom(env, subs, s.chain[|s.chain| - 1]);
  }

  lemma {:induction false} HeaderFrom(env: Env, subs: seq<Submission>, h: Hash)
    requires Run(env, subs).Some? && h in Run(env, subs).value.headers
    ensures var s := Run(env, subs).value;
            exists i :: 0 <= i < |subs| && subs[i].block.hash == h && h in s.blocks && s.blocks[h] == subs[i].block
                        && subs[i].verdict == Valid(s.headers[h].cumulativeDifficulty)
    decreases |subs|
  {
    hide AddBlock, Stored;
    if subs != [] {
      var front, sub := subs[..|subs| - 1], subs[|subs| - 1];
      RunStored(env, front);
      var p, s := Run(env, front).value, Run(env, subs).value;
      HeaderStep(env, p, sub, h);
      if h in p.headers {
        HeaderFrom(env, front, h);
        var i :| 0 <= i < |front| && front[i].block.hash == h && h in p.blocks && p.blocks[h] == front[i].block
                 && front[i].verdict == Valid(p.headers[h].cumulativeDifficulty);
        assert subs[i] == front[i];
      } else {
        assert subs[|front|] == sub;
      }
    }
  }

  lemma HeaderStep(env: Env, p: Node, sub: Submission, h: Hash)
    requires Stored(env, p.headers, p.blocks) && AddBlock(env, p, sub.block, sub.verdict).Some?
    requires h in AddBlock(env, p, sub.block, sub.verdict).value.node.headers
    ensures var s := AddBlock(env, p, sub.block, sub.verdict).value.node;
            if h in p.headers then s.headers[h] == p.headers[h] && h in p.blocks && h in s.blocks && s.blocks[h] == p.blocks[h]
            else sub.block.hash == h && h in s.blocks && s.blocks[h] == sub.block && sub.verdict == Valid(s.headers[h].cumulativeDifficulty)
  {
    AddBlockTree(env, p, sub.block, sub.verdict);
    if h !in p.headers {
      hide RedoTip, Reorganize;
      StoredAs(env, p, sub.block, sub.verdict.cumulativeDifficulty);
    }
  }

  /** The first block is the chain. */
  lemma FirstBlock(env: Env, s: Node, b: Block, cd: nat, keyImageOf: PublicKey -> KeyImage)
    requires Inv(env, s, keyImageOf) && IsStored(env, s, b, Valid(cd)) && b.hash == env.genesis
    requires AddBlock(env, s, b, Valid(cd)).Some?
    ensures var a := AddBlock(env, s, b, Valid(cd)).value; a.node.chain == [b.hash] && a.action == BroadcastAll
  {
    StoredChain(env, s);
    hide Stored, Replayed, RedoIndexed;
  }

  lemma ExtendedOn(env: Env, t: Node, h: Hash)
    requires Tree(t.headers, env.genesis) && Linked(t.headers, env.genesis, t.chain) && h in t.headers && h in t.blocks
    requires t.chain != [] && h != env.genesis && t.headers[h].prev == t.chain[|t.chain| - 1]
    ensures var branch := Branch(t.headers, env.genesis, h);
            && (RedoTip(env, t, h).Done? ==> OnBranch(env, t.chain, RedoTip(env, t, h).value, branch) && RedoTip(env, t, h).value.HasTip(h))
            && (RedoTip(env, t, h).Refused? ==> OnBranch(env, t.chain, t, branch))
  {
    var branch := Branch(t.headers, env.genesis, h);
    FitsTipBelow(env, t, h);
    LinkedIsBranch(t.headers, env.genesis, t.chain + [h]);
    assert branch == t.chain + [h];
    PrefixOfMore(t.chain, h);
    if RedoTip(env, t, h).Done? {
      TipRedone(env, t, h);
    } else if RedoTip(env, t, h).Refused? {
      RefusedIs(env, t, h);
    }
  }

  lemma {:induction false} PrefixOfMore(chain: seq<Hash>, h: Hash)
    ensures CommonPrefix(chain, chain + [h]) == |chain|
    decreases |chain|
  {
    if chain != [] {
      assert (chain + [h])[1..] == chain[1..] + [h];
      PrefixOfMore(chain[1..], h);
    }
  }

  /** Everything else leaves the node as it was: a block that is known or whose
      parent is not, and a block the checks turn down, which bans its sender. */
  lemma NotStored(env: Env, s: Node, b: Block, verdict: Verdict, keyImageOf: PublicKey -> KeyImage)
    requires Inv(env, s, keyImageOf) && !IsStored(env, s, b, verdict)
    ensures AddBlock(env, s, b, verdict)
            == Some(Added(s, if b.hash in s.headers || (b.hash != env.genesis && b.prev !in s.headers) then Nothing else Ban))
  {
    assert b.hash in s.headers <==> b.hash in s.blocks;
  }

  /** Blocks without competition, and a heavier branch that goes through: the new
      block is the tip exactly when its whole branch was redone. */
  lemma WholeBranchWins(env: Env, s: Node, b: Block, cd: nat, keyImageOf: PublicKey -> KeyImage)
    requires Inv(env, s, keyImageOf) && Sound(env.rules, keyImageOf) && AddBlock(env, s, b, Valid(cd)).Some?
    requires var t := AddBlock(env, s, b, Valid(cd)).value.node; Trusted(env, t.headers, t.blocks, keyImageOf)
    requires IsStored(env, s, b, Valid(cd)) && b.hash != env.genesis && cd > s.tipDifficulty
    ensures var t := AddBlock(env, s, b, Valid(cd)).value.node;
            && Tree(t.headers, env.genesis) && b.hash in t.headers
            && (t.HasTip(b.hash) <==> !NextRefused(env, t, Branch(t.headers, env.genesis, b.hash)))
  {
    assert Tree(s.headers, env.genesis);
    hide Inv, AddBlock, Trusted, Sound, NextRefused, IsStored;
    HeavierWins(env, s, b, cd, keyImageOf);
    var t := AddBlock(env, s, b, Valid(cd)).value.node;
    TipOrRefused(env, s.chain, t, b.hash);
  }

  lemma TipOrRefused(env: Env, was: seq<Hash>, t: Node, h: Hash)
    requires Tree(t.headers, env.genesis) && h in t.headers && OnBranch(env, was, t, Branch(t.headers, env.genesis, h))
    ensures t.HasTip(h) <==> !NextRefused(env, t, Branch(t.headers, env.genesis, h))
  {
    hide RedoIndexed;
    var branch := Branch(t.headers, env.genesis, h);
    if t.chain != branch && t.HasTip(h) {
      BranchHeights(env, t.headers, h, |t.chain| - 1);
    }
  }
}
