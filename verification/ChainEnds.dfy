// When a run of add_block ends: no undo fails, and a redo ends the run only
// for key images or transaction hashes that clash.
module ChainEnds {
  import opened Basics
  import opened ChainLedger
  import opened Redo
  import opened BlockRedo
  import opened HeaderTree
  import opened ChainIndex
  import opened BlockEnds
  import opened BlockChain

  // ----- what the indexes hold -----

  /** Records are of blocks of the chain, at the heights below its length. */
  ghost predicate Recorded(x: Indexed, chain: seq<Hash>) {
    && (forall h :: h in x.gis ==> h in chain)
    && (forall st :: st in x.stamps ==> st.height < |chain|)
  }

  lemma {:induction false} ReplayRecorded(blocks: map<Hash, Block>, chain: seq<Hash>)
    requires Replay(blocks, chain).Some? && forall h :: h in blocks ==> blocks[h].hash == h
    ensures Recorded(Replay(blocks, chain).value, chain)
    decreases |chain|
  {
    if chain != [] {
      var front, tip := chain[..|chain| - 1], chain[|chain| - 1];
      ReplayRecorded(blocks, front);
      assert forall h :: h in front ==> h in chain;
      assert tip in chain;
    }
  }

  // ----- one block on the tip -----

  /** Redoing a stored block on the tip would end the run. */
  ghost predicate TipClashes(env: Env, s: Node, h: Hash)
    requires h in s.headers && h in s.blocks
  {
    var b, x, ht := s.blocks[h], s.indexed, s.headers[h].height;
    || ImagesClash(x.ledger, b.txs, ht, b.timestamp, env.ChecksAt(ht))
    || (RedoBlock(env.rules, x.ledger, b.base, b.txs, ht, b.timestamp, env.ChecksAt(ht)).Done?
        && !Unused(x.txs.Keys, TxIds(b)))
  }

  ghost predicate Fair(env: Env, s: Node, keyImageOf: PublicKey -> KeyImage) {
    && Stored(env, s.headers, s.blocks) && Linked(s.headers, env.genesis, s.chain) && Replayed(s, keyImageOf)
    && Sound(env.rules, keyImageOf) && Trusted(env, s.headers, s.blocks, keyImageOf)
  }

  lemma RedoTipEnds(env: Env, s: Node, h: Hash, keyImageOf: PublicKey -> KeyImage)
    requires Fair(env, s, keyImageOf) && FitsTip(env, s, h)
    ensures RedoTip(env, s, h).Dead? <==> TipClashes(env, s, h)
  {
    var b, x, ht := s.blocks[h], s.indexed, s.headers[h].height;
    FitsTipBelow(env, s, h);
    HonestReplay(s.blocks, s.chain, keyImageOf);
    ReplayRecorded(s.blocks, s.chain);
    if !env.ChecksAt(ht) {
      assert TrustedBlock(env, s.headers, s.blocks, h, keyImageOf);
      BoundBelow(x.ledger, b.txs, keyImageOf);
    }
    assert h !in s.chain;
    hide Unused, ImagesClash, RedoBlock, BelowSet, SpentByTxs;
    RedoIndexedEnds(env.rules, x, b, ht, env.ChecksAt(ht));
  }

  // ----- a stretch of blocks -----

  /** The blocks before the one at `k` go through, and that one ends the run. */
  ghost predicate EndsAt(env: Env, s: Node, hs: seq<Hash>, k: nat) {
    k < |hs| &&
    var p := RedoAll(env, s, hs[..k]);
    && p.Some? && p.value.count == k
    && hs[k] in p.value.node.headers && hs[k] in p.value.node.blocks
    && TipClashes(env, p.value.node, hs[k])
  }

  lemma EndsLater(env: Env, s: Node, t: Node, hs: seq<Hash>, k: nat)
    requires hs != [] && hs[0] in s.blocks && RedoTip(env, s, hs[0]) == Done(t)
    ensures EndsAt(env, s, hs, k + 1) <==> EndsAt(env, t, hs[1..], k)
  {
    hide RedoTip, TipClashes;
    if k + 1 < |hs| {
      assert hs[..k + 1][1..] == hs[1..][..k];
      assert hs[..k + 1][0] == hs[0];
    }
  }

  lemma EndsNow(env: Env, s: Node, hs: seq<Hash>)
    requires hs != [] && hs[0] in s.headers && hs[0] in s.blocks
    ensures EndsAt(env, s, hs, 0) <==> TipClashes(env, s, hs[0])
  {
    hide TipClashes;
    assert hs[..0] == [];
  }

  lemma StuckAfter(env: Env, s: Node, hs: seq<Hash>, k: nat)
    requires hs != [] && !RedoTip(env, s, hs[0]).Done? && k > 0
    ensures !EndsAt(env, s, hs, k)
  {
    hide RedoTip, TipClashes;
    if k < |hs| {
      assert hs[..k][0] == hs[0];
    }
  }

  ghost predicate SomeEnds(env: Env, s: Node, hs: seq<Hash>) {
    exists k: nat :: EndsAt(env, s, hs, k)
  }

  lemma SomeEndsFirst(env: Env, s: Node, hs: seq<Hash>)
    requires hs != [] && hs[0] in s.headers && hs[0] in s.blocks && !RedoTip(env, s, hs[0]).Done?
    ensures SomeEnds(env, s, hs) <==> TipClashes(env, s, hs[0])
  {
    hide RedoTip, TipClashes, EndsAt;
    EndsNow(env, s, hs);
    forall k: nat | k > 0
      ensures !EndsAt(env, s, hs, k)
    {
      StuckAfter(env, s, hs, k);
    }
  }

  lemma SomeEndsNext(env: Env, s: Node, t: Node, hs: seq<Hash>)
    requires hs != [] && hs[0] in s.headers && hs[0] in s.blocks && RedoTip(env, s, hs[0]) == Done(t)
    ensures SomeEnds(env, s, hs) <==> TipClashes(env, s, hs[0]) || SomeEnds(env, t, hs[1..])
  {
    hide RedoTip, TipClashes, EndsAt;
    EndsNow(env, s, hs);
    if k: nat :| EndsAt(env, t, hs[1..], k) {
      EndsLater(env, s, t, hs, k);
    }
    if k: nat :| EndsAt(env, s, hs, k) {
      if k > 0 {
        EndsLater(env, s, t, hs, k - 1);
      }
    }
  }

  lemma {:induction false} RedoAllEnds(env: Env, s: Node, hs: seq<Hash>, keyImageOf: PublicKey -> KeyImage)
    requires Ready(env, s, hs, keyImageOf)
    ensures RedoAll(env, s, hs).None? <==> SomeEnds(env, s, hs)
    decreases |hs|
  {
    if hs == [] {
      assert forall k: nat :: !EndsAt(env, s, hs, k);
    } else {
      hide RedoTip, Ready, TipClashes, SomeEnds;
      ReadyTipEnds(env, s, hs, keyImageOf);
      if RedoTip(env, s, hs[0]).Done? {
        var t := RedoTip(env, s, hs[0]).value;
        ReadyTip(env, s, hs, t, keyImageOf);
        RedoAllEnds(env, t, hs[1..], keyImageOf);
        SomeEndsNext(env, s, t, hs);
      } else {
        SomeEndsFirst(env, s, hs);
      }
    }
  }

  lemma ReadyTipEnds(env: Env, s: Node, hs: seq<Hash>, keyImageOf: PublicKey -> KeyImage)
    requires Ready(env, s, hs, keyImageOf) && hs != []
    ensures hs[0] in s.headers && hs[0] in s.blocks
    ensures RedoTip(env, s, hs[0]).Dead? <==> TipClashes(env, s, hs[0])
  {
    hide RedoTip, TipClashes;
    assert s.headers[hs[0]].prev == s.chain[|s.chain| - 1];
    RedoTipEnds(env, s, hs[0], keyImageOf);
  }

  // ----- add_block -----

  /** A new block that is stored: its parent is known and it stands the checks
      that look at the block alone. */
  ghost predicate IsStored(env: Env, s: Node, b: Block, verdict: Verdict) {
    && b.hash !in s.headers && (b.hash != env.genesis ==> b.prev in s.headers)
    && verdict.Valid? && SingleCoinbase(b.base)
  }

  /** Undone to the fork with the branch of a block, one of the blocks above the
      fork ends the run. */
  ghost predicate ReorganizationEnds(env: Env, t: Node, target: Hash)
    requires Tree(t.headers, env.genesis) && target in t.headers
  {
    var branch := Branch(t.headers, env.genesis, target);
    var n := CommonPrefix(t.chain, branch);
    UndoTo(t, n).Some? && SomeEnds(env, UndoTo(t, n).value, branch[n..])
  }

  lemma ReorganizeEnds(env: Env, t: Node, target: Hash, keyImageOf: PublicKey -> KeyImage)
    requires Inv(env, t, keyImageOf) && t.chain != [] && target in t.headers
    requires Sound(env.rules, keyImageOf) && Trusted(env, t.headers, t.blocks, keyImageOf)
    ensures Reorganize(env, t, target).None? <==> ReorganizationEnds(env, t, target)
  {
    var branch := Branch(t.headers, env.genesis, target);
    var n := CommonPrefix(t.chain, branch);
    UndoToFork(env, t, target, keyImageOf);
    BranchHasBlocks(env, t, target, n);
    hide Inv, UndoTo, RedoAll, Ready, SomeEnds, Trusted, Sound;
    RedoAllEnds(env, UndoTo(t, n).value, branch[n..], keyImageOf);
  }

  /** What ends the run once the block is stored. The first block may not even
      be refused. */
  ghost predicate StoredEnds(env: Env, t: Node, b: Block, cd: nat)
    requires Tree(t.headers, env.genesis) && b.hash in t.headers && b.hash in t.blocks
  {
    if b.hash == env.genesis then TipClashes(env, t, b.hash) || RedoTip(env, t, b.hash).Refused?
    else cd > t.tipDifficulty &&
         if t.HasTip(b.prev) then TipClashes(env, t, b.hash) else ReorganizationEnds(env, t, b.hash)
  }

  /** add_block ends the run exactly when a block it redoes has key images or
      transaction hashes that clash, or the genesis block is refused. */
  lemma AddBlockEnds(env: Env, s: Node, b: Block, verdict: Verdict, keyImageOf: PublicKey -> KeyImage)
    requires Inv(env, s, keyImageOf) && Sound(env.rules, keyImageOf)
    requires IsStored(env, s, b, verdict) ==>
               var t := StoreBlock(env, s, b, verdict.cumulativeDifficulty); Trusted(env, t.headers, t.blocks, keyImageOf)
    ensures IsStored(env, s, b, verdict) ==> Tree(StoreBlock(env, s, b, verdict.cumulativeDifficulty).headers, env.genesis)
    ensures AddBlock(env, s, b, verdict).None? <==>
            IsStored(env, s, b, verdict)
            && StoredEnds(env, StoreBlock(env, s, b, verdict.cumulativeDifficulty), b, verdict.cumulativeDifficulty)
  {
    assert Tree(s.headers, env.genesis);
    assert b.hash in s.headers <==> b.hash in s.blocks;
    hide Stored, Replayed, RedoTip, TipClashes, ReorganizationEnds, Reorganize, Trusted, Sound;
    if IsStored(env, s, b, verdict) {
      var cd := verdict.cumulativeDifficulty;
      var t := StoreBlock(env, s, b, cd);
      StoreKeeps(env, s, b, cd, keyImageOf);
      StoreKeepsTree(env, s, b, cd);
      StoredChain(env, s);
      if b.hash == env.genesis || t.HasTip(b.prev) {
        RedoTipEnds(env, t, b.hash, keyImageOf);
      } else {
        ReorganizeEnds(env, t, b.hash, keyImageOf);
      }
    }
  }

  // ----- a block that ends the run -----

  /** From every state: a block on the tip that spends one output twice, with one
      key image, passes all preliminary checks and ends the run. */
  lemma RepeatEnds(env: Env, s: Node, b: Block, cd: nat, k: OutKey, ki: KeyImage, keyImageOf: PublicKey -> KeyImage)
    requires Inv(env, s, keyImageOf) && Sound(env.rules, keyImageOf) && IsStored(env, s, b, Valid(cd))
    requires var t := StoreBlock(env, s, b, cd); Trusted(env, t.headers, t.blocks, keyImageOf)
    requires s.HasTip(b.prev) && cd > s.tipDifficulty && env.ChecksAt(|s.chain|)
    requires Repeats(s.indexed.ledger, b.txs, k, ki, |s.chain|, b.timestamp)
    ensures AddBlock(env, s, b, Valid(cd)).None?
  {
    var t := StoreBlock(env, s, b, cd);
    assert s.headers[b.prev].height == |s.chain| - 1;
    AddBlockEnds(env, s, b, Valid(cd), keyImageOf);
    RepeatsStart(s.indexed.ledger, b.txs, k, ki, |s.chain|, b.timestamp);
    assert TipClashes(env, t, b.hash);
  }
}
