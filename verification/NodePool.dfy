// Chain and pool together: add_block and add_transaction in any order. The
// spent set the pool must avoid is that of the chain, and a transaction is
// redone on the tip before it enters.
module NodePool {
  import opened Basics
  import opened ChainLedger
  import opened Overlay
  import opened Redo
  import opened RedoChecked
  import opened BlockRedo
  import opened HeaderTree
  import opened ChainIndex
  import opened BlockEnds
  import opened BlockChain
  import M = Mempool
  import PC = PoolContents

  /** A hash names one transaction; whether that stands the checks on its own. */
  datatype Known = Known(body: Hash -> Transaction, fee: Hash -> nat, size: Hash -> nat, sound: Hash -> bool) {
    function PoolTx(h: Hash): M.PoolTx {
      M.PoolTx(KeyImagesIn(body(h).inputs), fee(h), size(h))
    }

    ghost predicate Sized() {
      forall h :: size(h) > 0
    }
  }

  datatype Full = Full(node: Node, pool: M.Pool)

  function Spent(s: Node): set<KeyImage> {
    s.indexed.ledger.keyImages.Keys
  }

  function TipTime(s: Node): nat {
    if s.chain != [] && s.chain[|s.chain| - 1] in s.headers then s.headers[s.chain[|s.chain| - 1]].timestamp else 0
  }

  /** redo_transaction_get_error on the tip, above an empty overlay. */
  function RedoOnTip(env: Env, s: Node, tx: Transaction): Outcome<(Delta, seq<nat>)> {
    RedoTx(env.rules, true, tx, EmptyDelta(|s.chain|), Base(s.indexed.ledger), TipTime(s))
  }

  function Redoable(env: Env, known: Known, s: Node): Hash -> bool {
    (h: Hash) => RedoOnTip(env, s, known.body(h)).Done?
  }

  // ----- add_transaction -----

  function AddTx(env: Env, known: Known, s: Full, h: Hash): M.Added {
    M.AddTransaction(s.pool, Spent(s.node), h, known.PoolTx(h), known.sound(h), Redoable(env, known, s.node)(h))
  }

  // ----- add_block -----

  function BlockImages(blocks: map<Hash, Block>, hs: seq<Hash>): seq<KeyImage>
    decreases |hs|
  {
    if hs == [] then [] else
    var tip := hs[|hs| - 1];
    BlockImages(blocks, hs[..|hs| - 1]) + if tip in blocks then KeyImagesOf(AllTxs(blocks[tip])) else []
  }

  function BlockTxHashes(blocks: map<Hash, Block>, hs: seq<Hash>): set<Hash> {
    set h, tx | h in hs && h in blocks && tx in blocks[h].txs :: tx.hash
  }

  /** store_keyimage for every key image of the blocks put on the chain. */
  function StoreAll(p: M.Pool, kis: seq<KeyImage>): M.Pool
    decreases |kis|
  {
    if kis == [] then p else M.StoreKeyimage(StoreAll(p, kis[..|kis| - 1]), kis[|kis| - 1])
  }

  function Ascending(hs: set<Hash>): (r: seq<Hash>)
    ensures forall h :: h in r <==> h in hs
    decreases |hs|
  {
    if hs == {} then [] else [Least(hs)] + Ascending(hs - {Least(hs)})
  }

  function Undone(env: Env, known: Known, t: Node, hs: seq<Hash>): (r: seq<M.Again>)
    ensures |r| == |hs| && forall i :: 0 <= i < |r| ==> r[i].h == hs[i] && r[i].t == known.PoolTx(hs[i])
    decreases |hs|
  {
    if hs == [] then [] else
    var h := hs[|hs| - 1];
    Undone(env, known, t, hs[..|hs| - 1])
    + [M.Again(h, known.PoolTx(h), known.sound(h), Redoable(env, known, t)(h))]
  }

  /** What the pool becomes when the chain of `s` becomes that of `t`: the key
      images of the blocks redone are stored; when blocks were undone, the pool
      is filled anew with its own transactions and those of the undone blocks
      that are in none of the redone ones. */
  function PoolAfter(env: Env, known: Known, s: Node, pool: M.Pool, t: Node): M.Pool {
    var n := CommonPrefix(s.chain, t.chain);
    var stored := StoreAll(pool, BlockImages(t.blocks, t.chain[n..]));
    if n == |s.chain| then stored else
    var left := BlockTxHashes(t.blocks, s.chain[n..]) - BlockTxHashes(t.blocks, t.chain[n..]);
    M.OnReorganization(stored, Spent(t), true, known.sound, Redoable(env, known, t), Undone(env, known, t, Ascending(left)))
  }

  datatype Event = Submit(block: Block, verdict: Verdict) | Offer(h: Hash)

  ghost function Step(env: Env, known: Known, s: Full, e: Event): Option<Full>
    requires Tree(s.node.headers, env.genesis)
  {
    match e
    case Submit(b, v) =>
      var a :- AddBlock(env, s.node, b, v);
      Some(Full(a.node, PoolAfter(env, known, s.node, s.pool, a.node)))
    case Offer(h) => Some(s.(pool := AddTx(env, known, s, h).pool))
  }

  function Submissions(es: seq<Event>): seq<Submission>
    decreases |es|
  {
    if es == [] then [] else
    Submissions(es[..|es| - 1]) + if es[|es| - 1].Submit? then [Submission(es[|es| - 1].block, es[|es| - 1].verdict)] else []
  }

  /** A run on a fresh node. The chain does not see the pool, so its part of the
      run is that of the submitted blocks alone. */
  ghost function RunAll(env: Env, known: Known, es: seq<Event>): (r: Option<Full>)
    ensures r.Some? ==> Run(env, Submissions(es)) == Some(r.value.node)
    decreases |es|
  {
    if es == [] then Some(Full(FRESH_NODE, M.EMPTY_POOL)) else
    var s :- RunAll(env, known, es[..|es| - 1]);
    SubmitLast(env, es);
    Step(env, known, s, es[|es| - 1])
  }

  lemma SubmitLast(env: Env, es: seq<Event>)
    requires es != []
    ensures var front, e := Submissions(es[..|es| - 1]), es[|es| - 1];
            if e.Submit? then Submissions(es) != [] && Submissions(es)[..|Submissions(es)| - 1] == front
                              && Submissions(es)[|Submissions(es)| - 1] == Submission(e.block, e.verdict)
            else Submissions(es) == front
  {
  }

  // ----- the invariant -----

  /** Pool transactions are what their hashes name. */
  ghost predicate Bodied(known: Known, p: M.Pool) {
    forall h :: h in p.tx ==> p.tx[h] == known.PoolTx(h)
  }

  ghost predicate Agrees(known: Known, s: Full) {
    M.PoolInv(s.pool, Spent(s.node)) && Bodied(known, s.pool)
  }

  lemma SpentFewer(p: M.Pool, spent: set<KeyImage>, fewer: set<KeyImage>)
    requires M.PoolInv(p, spent) && fewer <= spent
    ensures M.PoolInv(p, fewer)
  {
    hide M.Derived, M.Bounded;
  }

  lemma {:induction false} StoreAllKeeps(known: Known, p: M.Pool, spent: set<KeyImage>, kis: seq<KeyImage>)
    requires M.PoolInv(p, spent) && Bodied(known, p)
    ensures M.PoolInv(StoreAll(p, kis), spent + Elements(kis)) && Bodied(known, StoreAll(p, kis))
    decreases |kis|
  {
    hide M.PoolInv;
    if kis == [] {
      assert spent + Elements(kis) == spent;
    } else {
      var front, ki := kis[..|kis| - 1], kis[|kis| - 1];
      StoreAllKeeps(known, p, spent, front);
      M.StoreKeyimageKeeps(StoreAll(p, front), spent + Elements(front), ki);
      assert front + [ki] == kis;
      ElementsJoin(front, [ki]);
      assert spent + Elements(kis) == spent + Elements(front) + {ki};
    }
  }

  lemma {:induction false} AddAllBodied(known: Known, p: M.Pool, spent: set<KeyImage>, ts: seq<M.Again>)
    requires M.PoolInv(p, spent) && Bodied(known, p)
    requires forall i :: 0 <= i < |ts| ==> ts[i].t.size > 0 && ts[i].t == known.PoolTx(ts[i].h)
    ensures Bodied(known, M.AddAll(p, spent, ts))
    decreases |ts|
  {
    hide M.PoolInv, M.AddTransaction;
    if ts != [] {
      var front, a := ts[..|ts| - 1], ts[|ts| - 1];
      AddAllBodied(known, p, spent, front);
      M.AddAllKeeps(p, spent, front);
      M.AddTransactionKeeps(M.AddAll(p, spent, front), spent, a.h, a.t, a.sound, a.redone);
    }
  }

  lemma ReorganizedBodied(known: Known, p: M.Pool, spent: set<KeyImage>, redone: Hash -> bool, undone: seq<M.Again>)
    requires known.Sized() && M.WellMade(p) && Bodied(known, p)
    requires forall i :: 0 <= i < |undone| ==> undone[i].t == known.PoolTx(undone[i].h)
    ensures M.PoolInv(M.OnReorganization(p, spent, true, known.sound, redone, undone), spent)
    ensures Bodied(known, M.OnReorganization(p, spent, true, known.sound, redone, undone))
  {
    assert forall h {:trigger known.PoolTx(h)} :: known.PoolTx(h).size == known.size(h);
    M.OnReorganizationKeeps(p, spent, true, known.sound, redone, undone);
    var own := M.Own(p.tx, known.sound, redone);
    M.EmptyPool(spent);
    hide M.PoolInv, M.AddAll;
    assert forall i :: 0 <= i < |own| ==> own[i].t == known.PoolTx(own[i].h);
    AddAllBodied(known, M.EMPTY_POOL, spent, own);
    M.AddAllKeeps(M.EMPTY_POOL, spent, own);
    AddAllBodied(known, M.AddAll(M.EMPTY_POOL, spent, own), spent, undone);
  }

  // ----- what the chain has spent -----

  lemma ExecSpent(x: Indexed, b: Block, h: Height)
    requires ExecIndexed(x, b, h).Some?
    ensures ExecIndexed(x, b, h).value.ledger.keyImages.Keys == x.ledger.keyImages.Keys + Elements(KeyImagesOf(AllTxs(b)))
  {
    hide KeyImagesOf, Elements, Unused;
    ExecTxsWhen(x.ledger, AllTxs(b), h);
  }

  lemma ReplayLast(blocks: map<Hash, Block>, chain: seq<Hash>)
    requires chain != [] && Replay(blocks, chain).Some?
    ensures var front, tip := chain[..|chain| - 1], chain[|chain| - 1];
            && Replay(blocks, front).Some? && tip in blocks
            && ExecIndexed(Replay(blocks, front).value, blocks[tip], |front|) == Replay(blocks, chain)
            && BlockImages(blocks, chain) == BlockImages(blocks, front) + KeyImagesOf(AllTxs(blocks[tip]))
  {
    hide ExecIndexed, KeyImagesOf;
  }

  lemma {:induction false} ReplaySpent(blocks: map<Hash, Block>, chain: seq<Hash>)
    requires Replay(blocks, chain).Some?
    ensures Replay(blocks, chain).value.ledger.keyImages.Keys == Elements(BlockImages(blocks, chain))
    decreases |chain|
  {
    if chain != [] {
      hide ExecIndexed, Elements, KeyImagesOf, AllTxs, Replay, BlockImages;
      var front, tip := chain[..|chain| - 1], chain[|chain| - 1];
      ReplayLast(blocks, chain);
      ReplaySpent(blocks, front);
      ExecSpent(Replay(blocks, front).value, blocks[tip], |front|);
      ElementsJoin(BlockImages(blocks, front), KeyImagesOf(AllTxs(blocks[tip])));
    }
  }

  lemma {:induction false} ImagesJoin(blocks: map<Hash, Block>, s: seq<Hash>, t: seq<Hash>)
    ensures BlockImages(blocks, s + t) == BlockImages(blocks, s) + BlockImages(blocks, t)
    decreases |t|
  {
    if t == [] {
      assert s + t == s;
    } else {
      assert (s + t)[..|s + t| - 1] == s + t[..|t| - 1];
      ImagesJoin(blocks, s, t[..|t| - 1]);
    }
  }

  lemma {:induction false} ImagesSame(blocks: map<Hash, Block>, blocks': map<Hash, Block>, hs: seq<Hash>)
    requires forall h :: h in hs ==> h in blocks && h in blocks' && blocks'[h] == blocks[h]
    ensures BlockImages(blocks', hs) == BlockImages(blocks, hs)
    decreases |hs|
  {
    if hs != [] {
      assert hs[|hs| - 1] in hs;
      ImagesSame(blocks, blocks', hs[..|hs| - 1]);
    }
  }

  lemma StateSpent(env: Env, s: Node, keyImageOf: PublicKey -> KeyImage)
    requires Inv(env, s, keyImageOf)
    ensures Spent(s) == Elements(BlockImages(s.blocks, s.chain))
    ensures forall h :: h in s.chain ==> h in s.blocks
  {
    hide HonestChain, Elements, BlockImages;
    ReplaySpent(s.blocks, s.chain);
  }

  lemma ForkImages(blocks: map<Hash, Block>, s: seq<Hash>, t: seq<Hash>)
    ensures Elements(BlockImages(blocks, t)) <= Elements(BlockImages(blocks, s)) + Elements(BlockImages(blocks, t[CommonPrefix(s, t)..]))
  {
    var n := CommonPrefix(s, t);
    assert t == t[..n] + t[n..] && s == t[..n] + s[n..];
    hide Elements, BlockImages, CommonPrefix;
    ImagesJoin(blocks, t[..n], t[n..]);
    ImagesJoin(blocks, t[..n], s[n..]);
    ElementsJoin(BlockImages(blocks, t[..n]), BlockImages(blocks, t[n..]));
    ElementsJoin(BlockImages(blocks, t[..n]), BlockImages(blocks, s[n..]));
  }

  /** Everything spent after a step was spent before it or by a block that was
      put on the chain above the fork. */
  lemma SpentGrows(env: Env, s: Node, t: Node, keyImageOf: PublicKey -> KeyImage)
    requires Inv(env, s, keyImageOf) && Inv(env, t, keyImageOf)
    requires forall h :: h in s.blocks ==> h in t.blocks && t.blocks[h] == s.blocks[h]
    ensures Spent(t) <= Spent(s) + Elements(BlockImages(t.blocks, t.chain[CommonPrefix(s.chain, t.chain)..]))
  {
    hide Inv, Elements, BlockImages, CommonPrefix, Spent;
    StateSpent(env, s, keyImageOf);
    StateSpent(env, t, keyImageOf);
    ImagesSame(s.blocks, t.blocks, s.chain);
    ForkImages(t.blocks, s.chain, t.chain);
  }

  // ----- every step keeps it -----

  lemma PoolFollows(env: Env, known: Known, s: Full, t: Node, keyImageOf: PublicKey -> KeyImage)
    requires known.Sized() && Inv(env, s.node, keyImageOf) && Inv(env, t, keyImageOf) && Agrees(known, s)
    requires forall h :: h in s.node.blocks ==> h in t.blocks && t.blocks[h] == s.node.blocks[h]
    ensures Agrees(known, Full(t, PoolAfter(env, known, s.node, s.pool, t)))
  {
    hide Inv, M.OnReorganization, Redoable, BlockTxHashes, BlockImages, Elements, CommonPrefix, Spent, M.PoolInv, M.WellMade;
    hide StoreAll, Bodied, Undone, Ascending, Known.PoolTx;
    SpentGrows(env, s.node, t, keyImageOf);
    var n := CommonPrefix(s.node.chain, t.chain);
    var kis := BlockImages(t.blocks, t.chain[n..]);
    StoreAllKeeps(known, s.pool, Spent(s.node), kis);
    var stored := StoreAll(s.pool, kis);
    if n == |s.node.chain| {
      SpentFewer(stored, Spent(s.node) + Elements(kis), Spent(t));
    } else {
      var left := BlockTxHashes(t.blocks, s.node.chain[n..]) - BlockTxHashes(t.blocks, t.chain[n..]);
      PoolWellMade(stored, Spent(s.node) + Elements(kis));
      ReorganizedBodied(known, stored, Spent(t), Redoable(env, known, t), Undone(env, known, t, Ascending(left)));
    }
  }

  lemma PoolWellMade(p: M.Pool, spent: set<KeyImage>)
    requires M.PoolInv(p, spent)
    ensures M.WellMade(p)
  {
  }

  lemma OfferKeeps(env: Env, known: Known, s: Full, h: Hash)
    requires known.Sized() && Agrees(known, s)
    ensures Agrees(known, s.(pool := AddTx(env, known, s, h).pool))
  {
    hide M.PoolInv, M.AddTransaction, RedoOnTip;
    assert known.PoolTx(h).size == known.size(h);
    M.AddTransactionKeeps(s.pool, Spent(s.node), h, known.PoolTx(h), known.sound(h), Redoable(env, known, s.node)(h));
  }

  /** In every run of submitted blocks and offered transactions, whatever is
      reorganised: the chain is in its invariant, the pool's structures agree, it
      is bounded, and no transaction in it has a key image the chain has spent. */
  lemma {:induction false} RunAllKeeps(env: Env, known: Known, es: seq<Event>, keyImageOf: PublicKey -> KeyImage)
    requires known.Sized() && Sound(env.rules, keyImageOf) && RunAll(env, known, es).Some?
    requires var s := RunAll(env, known, es).value.node; Trusted(env, s.headers, s.blocks, keyImageOf)
    ensures var s := RunAll(env, known, es).value;
            Inv(env, s.node, keyImageOf) && Agrees(known, s)
    decreases |es|
  {
    var s := RunAll(env, known, es).value;
    if es == [] {
      M.EmptyPool({});
      RunReplays(env, [], keyImageOf);
    } else {
      hide AddBlock, Stored, Trusted, Inv, Sound, Agrees, Run, PoolAfter, AddTx;
      var front, e := es[..|es| - 1], es[|es| - 1];
      var p := RunAll(env, known, front).value;
      SubmitLast(env, es);
      RunReplays(env, Submissions(es), keyImageOf);
      if e.Submit? {
        RunStored(env, Submissions(front));
        RunStored(env, Submissions(es));
        RunGrows(env, p.node, Submission(e.block, e.verdict));
        TrustedEarlier(env, p.node, s.node, keyImageOf);
        RunAllKeeps(env, known, front, keyImageOf);
        PoolFollows(env, known, p, s.node, keyImageOf);
      } else {
        RunAllKeeps(env, known, front, keyImageOf);
        OfferKeeps(env, known, p, e.h);
      }
    }
  }

  // ----- what a step of the chain does to the pool -----

  /** Storing key images removes exactly the transactions that have one of them. */
  lemma {:induction false} StoreAllLeft(p: M.Pool, kis: seq<KeyImage>, x: Hash)
    requires M.KeyImagesDerived(p)
    ensures M.KeyImagesDerived(StoreAll(p, kis))
    ensures x in StoreAll(p, kis).tx <==> x in p.tx && p.tx[x].KeyImages() !! Elements(kis)
    ensures x in StoreAll(p, kis).tx ==> StoreAll(p, kis).tx[x] == p.tx[x]
    decreases |kis|
  {
    if kis == [] {
      assert Elements(kis) == {};
    } else {
      var front, ki := kis[..|kis| - 1], kis[|kis| - 1];
      StoreAllLeft(p, front, x);
      assert front + [ki] == kis;
      ElementsJoin(front, [ki]);
      assert Elements([ki]) == {ki};
      StoreLeft(StoreAll(p, front), ki, x);
    }
  }

  lemma StoreLeft(p: M.Pool, ki: KeyImage, x: Hash)
    requires M.KeyImagesDerived(p)
    ensures M.KeyImagesDerived(M.StoreKeyimage(p, ki))
    ensures x in M.StoreKeyimage(p, ki).tx <==> x in p.tx && ki !in p.tx[x].KeyImages()
    ensures x in M.StoreKeyimage(p, ki).tx ==> M.StoreKeyimage(p, ki).tx[x] == p.tx[x]
  {
    if ki in p.kiTx {
      M.RemovedKeyImages(p, p.kiTx[ki]);
      if x in p.tx && ki in p.tx[x].KeyImages() {
        assert p.kiTx[ki] == x;
      }
      assert ki in p.tx[p.kiTx[ki]].KeyImages();
    }
  }

  /** The transactions of the undone blocks that are in no redone block, in the
      order of their hashes. */
  function LeftOver(env: Env, known: Known, s: Node, t: Node): seq<M.Again> {
    var n := CommonPrefix(s.chain, t.chain);
    Undone(env, known, t, Ascending(BlockTxHashes(t.blocks, s.chain[n..]) - BlockTxHashes(t.blocks, t.chain[n..])))
  }

  lemma {:induction false} UndoneTx(env: Env, known: Known, t: Node, hs: seq<Hash>)
    ensures forall h :: h in hs ==> h in PC.TxOf(Undone(env, known, t, hs)) && PC.TxOf(Undone(env, known, t, hs))[h] == known.PoolTx(h)
    decreases |hs|
  {
    hide RedoOnTip;
    if hs != [] {
      UndoneTx(env, known, t, hs[..|hs| - 1]);
      assert hs == hs[..|hs| - 1] + [hs[|hs| - 1]];
      var r := Undone(env, known, t, hs);
      assert r[..|r| - 1] == Undone(env, known, t, hs[..|hs| - 1]);
    }
  }

  /** After a reorganisation, when what is offered to the pool is acceptable,
      apart and small enough: every transaction of an undone block is in the pool
      or in a redone block, and of the pool's own all stay that share no key image
      with the redone blocks. */
  lemma NothingLost(env: Env, known: Known, s: Node, pool: M.Pool, t: Node)
    requires M.KeyImagesDerived(pool) && CommonPrefix(s.chain, t.chain) < |s.chain|
    requires var kis := BlockImages(t.blocks, t.chain[CommonPrefix(s.chain, t.chain)..]);
             PC.AllFit(M.EMPTY_POOL, Spent(t),
                       M.Own(StoreAll(pool, kis).tx, known.sound, Redoable(env, known, t)) + LeftOver(env, known, s, t))
    ensures var q, n := PoolAfter(env, known, s, pool, t), CommonPrefix(s.chain, t.chain);
            && (forall h, tx :: h in s.chain[n..] && h in t.blocks && tx in t.blocks[h].txs ==>
                  tx.hash in q.tx || tx.hash in BlockTxHashes(t.blocks, t.chain[n..]))
            && (forall x :: x in pool.tx && pool.tx[x].KeyImages() !! Elements(BlockImages(t.blocks, t.chain[n..])) ==> x in q.tx)
  {
    hide M.OnReorganization, Redoable, BlockImages, Elements, CommonPrefix, StoreAll, PC.AllFit, PC.TxOf, M.KeyImagesDerived, Undone;
    var n := CommonPrefix(s.chain, t.chain);
    var kis := BlockImages(t.blocks, t.chain[n..]);
    var q := PoolAfter(env, known, s, pool, t);
    var stored := StoreAll(pool, kis);
    PC.ReorganizationRefills(stored, Spent(t), known.sound, Redoable(env, known, t), LeftOver(env, known, s, t));
    UndoneTx(env, known, t, Ascending(BlockTxHashes(t.blocks, s.chain[n..]) - BlockTxHashes(t.blocks, t.chain[n..])));
    forall x | x in pool.tx && pool.tx[x].KeyImages() !! Elements(kis)
      ensures x in q.tx
    {
      StoreAllLeft(pool, kis, x);
    }
    forall h, tx | h in s.chain[n..] && h in t.blocks && tx in t.blocks[h].txs
      ensures tx.hash in q.tx || tx.hash in BlockTxHashes(t.blocks, t.chain[n..])
    {
      assert tx.hash in BlockTxHashes(t.blocks, s.chain[n..]);
    }
  }

  // ----- what an accepted transaction is worth -----

  /** A transaction that enters the pool passes every input check on the tip and
      can be executed there. */
  lemma AcceptedExecutes(env: Env, known: Known, s: Full, h: Hash)
    requires Agrees(known, s) && s.node.indexed.ledger.Valid() && AddTx(env, known, s, h).result == M.BroadcastAll
    ensures var l, ht := s.node.indexed.ledger, |s.node.chain|;
            && ExecTx(l, known.body(h), ht).Some?
            && InputsPass(env.rules, known.body(h), |known.body(h).inputs|, Over(EmptyDelta(ht), Base(l)), ht, TipTime(s.node))
  {
    var l, ht := s.node.indexed.ledger, |s.node.chain|;
    M.AcceptedIff(s.pool, Spent(s.node), h, known.PoolTx(h), known.sound(h), Redoable(env, known, s.node)(h));
    ApplyEmpty(ht, l);
    hide M.AddTransaction;
    RedoTxChecked(env.rules, known.body(h), EmptyDelta(ht), TipTime(s.node), l);
  }

  function Bodies(known: Known, hs: seq<Hash>): (r: seq<Transaction>)
    ensures |r| == |hs|
    decreases |hs|
  {
    if hs == [] then [] else Bodies(known, hs[..|hs| - 1]) + [known.body(hs[|hs| - 1])]
  }

  lemma {:induction false} PoolImagesUnused(known: Known, s: Full, hs: seq<Hash>)
    requires Agrees(known, s) && Distinct(hs) && forall h :: h in hs ==> h in s.pool.tx
    ensures Unused(Spent(s.node), KeyImagesOf(Bodies(known, hs)))
    ensures forall k :: k in KeyImagesOf(Bodies(known, hs)) ==> k in s.pool.kiTx && s.pool.kiTx[k] in hs
    decreases |hs|
  {
    if hs == [] {
      NoneUnused(Spent(s.node));
    } else {
      var front, h := hs[..|hs| - 1], hs[|hs| - 1];
      DistinctFront(hs);
      hide Agrees, Unused, Distinct, KeyImagesIn;
      PoolImagesUnused(known, s, front);
      OneUnused(known, s, h);
      assert Bodies(known, hs)[..|hs| - 1] == Bodies(known, front);
      OneMore(s, h, front, KeyImagesOf(Bodies(known, front)), KeyImagesIn(known.body(h).inputs));
    }
  }

  lemma DistinctFront(hs: seq<Hash>)
    requires hs != [] && Distinct(hs)
    ensures Distinct(hs[..|hs| - 1]) && hs[|hs| - 1] !in hs[..|hs| - 1]
    ensures forall x :: x in hs <==> x in hs[..|hs| - 1] || x == hs[|hs| - 1]
  {
    assert hs == hs[..|hs| - 1] + [hs[|hs| - 1]];
  }

  lemma OneUnused(known: Known, s: Full, h: Hash)
    requires Agrees(known, s) && h in s.pool.tx
    ensures Unused(Spent(s.node), KeyImagesIn(known.body(h).inputs))
    ensures forall k :: k in KeyImagesIn(known.body(h).inputs) ==> k in s.pool.kiTx && s.pool.kiTx[k] == h
  {
    hide M.Bounded, M.FeesDerived;
    assert s.pool.tx[h].inputs == KeyImagesIn(known.body(h).inputs);
  }

  lemma OneMore(s: Full, h: Hash, front: seq<Hash>, images: seq<KeyImage>, more: seq<KeyImage>)
    requires Unused(Spent(s.node), images) && Unused(Spent(s.node), more) && h !in front
    requires forall k :: k in images ==> k in s.pool.kiTx && s.pool.kiTx[k] in front
    requires forall k :: k in more ==> k in s.pool.kiTx && s.pool.kiTx[k] == h
    ensures Unused(Spent(s.node), images + more)
    ensures forall k :: k in images + more ==> k in s.pool.kiTx && (s.pool.kiTx[k] in front || s.pool.kiTx[k] == h)
  {
    UnusedJoin(Spent(s.node), images, more);
    assert forall k :: k in images + more ==> k in images || k in more;
  }

  /** Any different transactions of the pool, in any order, can be executed on
      the tip: no block made of them ends the run for its key images. */
  lemma PoolExecutes(known: Known, s: Full, hs: seq<Hash>, ht: Height)
    requires Agrees(known, s) && Distinct(hs) && forall h :: h in hs ==> h in s.pool.tx
    ensures ExecTxs(s.node.indexed.ledger, Bodies(known, hs), ht).Some?
    ensures !ImagesClash(s.node.indexed.ledger, Bodies(known, hs), ht, TipTime(s.node), true)
  {
    PoolImagesUnused(known, s, hs);
    ExecTxsWhen(s.node.indexed.ledger, Bodies(known, hs), ht);
  }
}
