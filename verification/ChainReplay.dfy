// What the database holds for a main chain, said of the blocks themselves and
// not of the execution that puts it there.
module ChainReplay {
  import opened Basics
  import opened ChainLedger
  import opened Redo
  import opened BlockRedo
  import opened ChainIndex
  import opened HeaderTree
  import opened BlockChain
  import opened BlockEnds

  /** An output as its amount's stack has it, the spent flag aside. */
  datatype Minted = Minted(unlock: nat, key: PublicKey, height: Height)

  function MintedBy(outs: seq<Output>, unlock: nat, h: Height, a: Amount): seq<Minted>
    decreases |outs|
  {
    if outs == [] then [] else
    var o := outs[|outs| - 1];
    MintedBy(outs[..|outs| - 1], unlock, h, a) + if o.amount == a then [Minted(unlock, o.key, h)] else []
  }

  function MintedTxs(txs: seq<Transaction>, h: Height, a: Amount): seq<Minted>
    decreases |txs|
  {
    if txs == [] then [] else
    var tx := txs[|txs| - 1];
    MintedTxs(txs[..|txs| - 1], h, a) + MintedBy(tx.outputs, tx.unlock, h, a)
  }

  ghost predicate AllStored(blocks: map<Hash, Block>, chain: seq<Hash>) {
    forall i :: 0 <= i < |chain| ==> chain[i] in blocks
  }

  /** The transactions of the block at a height. */
  ghost function TxsAt(blocks: map<Hash, Block>, chain: seq<Hash>, i: nat): seq<Transaction>
    requires AllStored(blocks, chain) && i < |chain|
  {
    AllTxs(blocks[chain[i]])
  }

  ghost function MintedChain(blocks: map<Hash, Block>, chain: seq<Hash>, a: Amount): seq<Minted>
    requires AllStored(blocks, chain)
    decreases |chain|
  {
    if chain == [] then [] else
    var front := chain[..|chain| - 1];
    MintedChain(blocks, front, a) + MintedTxs(TxsAt(blocks, chain, |front|), |front|, a)
  }

  ghost function Stack(l: Ledger, a: Amount): seq<Minted>
    requires l.Valid()
  {
    seq(l.Next(a), n requires 0 <= n < l.Next(a) =>
      var r := l.outs[OutKey(a, n)];
      Minted(r.unlock, r.key, r.height))
  }

  ghost predicate SameStacks(l: Ledger, m: Ledger) {
    l.Valid() && m.Valid() && forall a :: Stack(m, a) == Stack(l, a)
  }

  function Flagged(l: Ledger): set<OutKey> {
    set k | k in l.outs && l.outs[k].spent
  }

  // ----- outputs -----

  lemma StackPush(l: Ledger, a: Amount, unlock: nat, h: Height, key: PublicKey, b: Amount)
    requires l.Valid()
    ensures var m := Push(l, a, unlock, h, key);
            && m.Valid() && Flagged(m) == Flagged(l)
            && Stack(m, b) == Stack(l, b) + if a == b then [Minted(unlock, key, h)] else []
  {
    var m := Push(l, a, unlock, h, key);
    PushValid(l, a, unlock, h, key);
    assert OutKey(a, l.Next(a)) !in l.outs;
    assert forall k :: k in l.outs ==> m.outs[k] == l.outs[k];
    assert Flagged(m) == Flagged(l);
    assert m.Next(b) == l.Next(b) + if a == b then 1 else 0;
  }

  lemma {:induction false} OutputsMint(l: Ledger, outs: seq<Output>, unlock: nat, h: Height, a: Amount)
    requires l.Valid()
    ensures var m := ExecOutputs(l, outs, unlock, h);
            m.Valid() && Flagged(m) == Flagged(l) && Stack(m, a) == Stack(l, a) + MintedBy(outs, unlock, h, a)
    decreases |outs|
  {
    if outs != [] {
      hide Flagged, Stack, Push;
      var front, o := outs[..|outs| - 1], outs[|outs| - 1];
      OutputsMint(l, front, unlock, h, a);
      StackPush(ExecOutputs(l, front, unlock, h), o.amount, unlock, h, o.key, a);
    }
  }

  // ----- inputs -----

  lemma SpendFlags(l: Ledger, k: OutKey)
    requires l.Valid()
    ensures var m := Spend(l, k, true);
            SameStacks(l, m) && m.keyImages == l.keyImages && Flagged(m) == Flagged(l) + ({k} * l.outs.Keys)
  {
    var m := Spend(l, k, true);
    forall a ensures Stack(m, a) == Stack(l, a) {
    }
  }

  /** `m` has the key images of `l` as they were and `kis` with a height. */
  ghost predicate StoredAt(l: Ledger, m: Ledger, kis: seq<KeyImage>, h: Height) {
    && (forall ki :: ki in m.keyImages <==> ki in l.keyImages || ki in kis)
    && (forall ki :: ki in kis ==> m.keyImages[ki] == h)
    && (forall ki :: ki in m.keyImages && ki !in kis ==> m.keyImages[ki] == l.keyImages[ki])
  }

  /** Key images stored and outputs flagged, and nothing else. */
  ghost predicate Spends(l: Ledger, m: Ledger, kis: seq<KeyImage>, ks: set<OutKey>, h: Height) {
    && SameStacks(l, m) && m.outs.Keys == l.outs.Keys
    && Flagged(m) == Flagged(l) + (ks * l.outs.Keys)
    && StoredAt(l, m, kis, h)
  }

  lemma {:induction false} InputsFlag(l: Ledger, ins: seq<Input>, h: Height)
    requires l.Valid() && ExecInputs(l, ins, h).Some?
    ensures Spends(l, ExecInputs(l, ins, h).value, KeyImagesIn(ins), SpentByInputs(ins), h)
    decreases |ins|
  {
    if ins == [] {
      SpendsNothing(l, h);
    } else {
      hide Spends, ExecInput;
      var front, i := ins[..|ins| - 1], ins[|ins| - 1];
      InputsFlag(l, front, h);
      var m := ExecInputs(l, front, h).value;
      ExecInputsValid(l, front, h);
      InputFlags(m, i, h);
      SpendsMore(l, m, ExecInput(m, i, h).value, KeyImagesIn(front), SpentByInputs(front), ImagesIn(i), SpentBy(i), h);
    }
  }

  function ImagesIn(i: Input): seq<KeyImage> {
    if i.KeyInput? then [i.keyImage] else []
  }

  lemma SpendsNothing(l: Ledger, h: Height)
    requires l.Valid()
    ensures Spends(l, l, [], {}, h)
  {
  }

  lemma SpendsMore(l: Ledger, m: Ledger, n: Ledger, kis: seq<KeyImage>, ks: set<OutKey>, more: seq<KeyImage>, named: set<OutKey>, h: Height)
    requires Spends(l, m, kis, ks, h) && Spends(m, n, more, named, h)
    ensures Spends(l, n, kis + more, ks + named, h)
  {
    hide Flagged, Stack, StoredAt;
    StoredMore(l, m, n, kis, more, h);
  }

  lemma InputFlags(l: Ledger, i: Input, h: Height)
    requires l.Valid() && ExecInput(l, i, h).Some?
    ensures Spends(l, ExecInput(l, i, h).value, ImagesIn(i), SpentBy(i), h)
  {
    if i.KeyInput? {
      var n := if |i.offsets| == 1 then Spend(l, OutKey(i.amount, i.offsets[0]), true) else l;
      if |i.offsets| == 1 {
        SpendFlags(l, OutKey(i.amount, i.offsets[0]));
      }
      var m := ExecInput(l, i, h).value;
      assert m == n.(keyImages := n.keyImages[i.keyImage := h]);
      forall a ensures Stack(m, a) == Stack(n, a) {
      }
    }
  }

  lemma StoredMore(l: Ledger, m: Ledger, n: Ledger, kis: seq<KeyImage>, more: seq<KeyImage>, h: Height)
    requires StoredAt(l, m, kis, h) && StoredAt(m, n, more, h)
    ensures StoredAt(l, n, kis + more, h)
  {
    assert forall ki :: ki in kis + more <==> ki in kis || ki in more;
  }

  // ----- transactions -----

  /** What executing transactions adds to a ledger. */
  ghost predicate Adds(l: Ledger, m: Ledger, txs: seq<Transaction>, h: Height) {
    && l.Valid() && m.Valid()
    && (forall a :: Stack(m, a) == Stack(l, a) + MintedTxs(txs, h, a))
    && StoredAt(l, m, KeyImagesOf(txs), h)
    && (BelowSet(SpentByTxs(txs), l) ==> Flagged(m) == Flagged(l) + SpentByTxs(txs))
  }

  lemma TxAdds(l: Ledger, tx: Transaction, h: Height, a: Amount)
    requires l.Valid() && ExecTx(l, tx, h).Some?
    ensures var m := ExecTx(l, tx, h).value;
            && m.Valid()
            && Stack(m, a) == Stack(l, a) + MintedBy(tx.outputs, tx.unlock, h, a)
            && StoredAt(l, m, KeyImagesIn(tx.inputs), h)
            && Flagged(m) == Flagged(l) + (SpentByInputs(tx.inputs) * l.outs.Keys)
  {
    hide Flagged, Stack, ExecOutputs, ExecInputs;
    InputsFlag(l, tx.inputs, h);
    var n := ExecInputs(l, tx.inputs, h).value;
    OutputsMint(n, tx.outputs, tx.unlock, h, a);
    ExecOutputsKeyImages(n, tx.outputs, tx.unlock, h);
  }

  lemma {:induction false} TxsAdd(l: Ledger, txs: seq<Transaction>, h: Height)
    requires l.Valid() && ExecTxs(l, txs, h).Some?
    ensures Adds(l, ExecTxs(l, txs, h).value, txs, h)
    decreases |txs|
  {
    if txs == [] {
      NoTxsAdd(l, h);
    } else {
      hide ExecTx, Adds;
      var front, tx := txs[..|txs| - 1], txs[|txs| - 1];
      TxsAdd(l, front, h);
      IndicesOccupied(l, front, h);
      OneMoreTx(l, ExecTxs(l, front, h).value, txs, h);
    }
  }

  lemma NoTxsAdd(l: Ledger, h: Height)
    requires l.Valid()
    ensures Adds(l, l, [], h)
  {
  }

  lemma OneMoreTx(l: Ledger, m: Ledger, txs: seq<Transaction>, h: Height)
    requires txs != [] && Keeps(l, m) && Adds(l, m, txs[..|txs| - 1], h) && ExecTx(m, txs[|txs| - 1], h).Some?
    ensures Adds(l, ExecTx(m, txs[|txs| - 1], h).value, txs, h)
  {
    hide ExecTx, Flagged, Stack, StoredAt, KeyImagesIn, SpentByInputs, MintedBy, Keeps;
    var front, tx := txs[..|txs| - 1], txs[|txs| - 1];
    var n := ExecTx(m, tx, h).value;
    TxAdds(m, tx, h, 0);
    forall a
      ensures Stack(n, a) == Stack(l, a) + MintedTxs(txs, h, a)
    {
      TxAdds(m, tx, h, a);
      Reassociate(Stack(l, a), MintedTxs(front, h, a), MintedBy(tx.outputs, tx.unlock, h, a));
    }
    StoredMore(l, m, n, KeyImagesOf(front), KeyImagesIn(tx.inputs), h);
    KeepsNamed(l, m, SpentByInputs(tx.inputs));
  }

  lemma Reassociate(r: seq<Minted>, s: seq<Minted>, t: seq<Minted>)
    ensures r + s + t == r + (s + t)
  {
  }

  lemma KeepsNamed(l: Ledger, m: Ledger, ks: set<OutKey>)
    requires Keeps(l, m)
    ensures ks <= l.outs.Keys ==> ks * m.outs.Keys == ks
  {
  }

  // ----- the chain -----

  ghost function SpentByChain(blocks: map<Hash, Block>, chain: seq<Hash>): set<OutKey>
    requires AllStored(blocks, chain)
    decreases |chain|
  {
    if chain == [] then {} else
    var front := chain[..|chain| - 1];
    SpentByChain(blocks, front) + SpentByTxs(TxsAt(blocks, chain, |front|))
  }

  /** Each amount's stack is what the blocks minted, in their order; each key
      image has the height of the block it is in; the spent outputs are those
      named by a ring of one. */
  ghost predicate LedgerIs(l: Ledger, blocks: map<Hash, Block>, chain: seq<Hash>) {
    && AllStored(blocks, chain) && l.Valid()
    && (forall a :: Stack(l, a) == MintedChain(blocks, chain, a))
    && (forall i :: 0 <= i < |chain| ==> ImagesAt(l, TxsAt(blocks, chain, i), i))
    && (forall ki :: ki in l.keyImages ==> l.keyImages[ki] < |chain| && ki in KeyImagesOf(TxsAt(blocks, chain, l.keyImages[ki])))
    && Flagged(l) == SpentByChain(blocks, chain)
  }

  ghost predicate ImagesAt(l: Ledger, txs: seq<Transaction>, h: Height) {
    forall ki :: ki in KeyImagesOf(txs) ==> ki in l.keyImages && l.keyImages[ki] == h
  }

  lemma ImagesKept(l: Ledger, m: Ledger, txs: seq<Transaction>, i: Height, kis: seq<KeyImage>, h: Height)
    requires ImagesAt(l, txs, i) && StoredAt(l, m, kis, h) && Unused(l.keyImages.Keys, kis)
    ensures ImagesAt(m, txs, i)
  {
    assert forall ki :: ki in kis ==> ki in Elements(kis);
  }

  lemma LedgerNext(l: Ledger, m: Ledger, blocks: map<Hash, Block>, chain: seq<Hash>)
    requires chain != [] && AllStored(blocks, chain) && LedgerIs(l, blocks, chain[..|chain| - 1])
    requires var txs := TxsAt(blocks, chain, |chain| - 1);
             Adds(l, m, txs, |chain| - 1) && BelowSet(SpentByTxs(txs), l) && Unused(l.keyImages.Keys, KeyImagesOf(txs))
    ensures LedgerIs(m, blocks, chain)
  {
    hide Flagged, Stack, KeyImagesOf, SpentByTxs, MintedTxs, BelowSet, Unused;
    var front, h := chain[..|chain| - 1], |chain| - 1;
    forall i | 0 <= i < |front|
      ensures TxsAt(blocks, front, i) == TxsAt(blocks, chain, i)
      ensures ImagesAt(m, TxsAt(blocks, chain, i), i)
    {
      ImagesKept(l, m, TxsAt(blocks, front, i), i, KeyImagesOf(TxsAt(blocks, chain, h)), h);
    }
    forall ki | ki in m.keyImages
      ensures m.keyImages[ki] < |chain| && ki in KeyImagesOf(TxsAt(blocks, chain, m.keyImages[ki]))
    {
      if ki !in KeyImagesOf(TxsAt(blocks, chain, h)) {
        assert TxsAt(blocks, front, l.keyImages[ki]) == TxsAt(blocks, chain, l.keyImages[ki]);
      }
    }
    forall a
      ensures Stack(m, a) == MintedChain(blocks, chain, a)
    {
    }
  }

  lemma LedgerStep(x: Indexed, blocks: map<Hash, Block>, chain: seq<Hash>, keyImageOf: PublicKey -> KeyImage)
    requires chain != [] && LedgerIs(x.ledger, blocks, chain[..|chain| - 1]) && chain[|chain| - 1] in blocks
    requires var b := blocks[chain[|chain| - 1]];
             Honest(x, b, keyImageOf) && ExecIndexed(x, b, |chain| - 1).Some?
    ensures LedgerIs(ExecIndexed(x, blocks[chain[|chain| - 1]], |chain| - 1).value.ledger, blocks, chain)
  {
    var b, h := blocks[chain[|chain| - 1]], |chain| - 1;
    hide ExecTxs, Adds, BelowSet, Unused, Flagged, Stack, AllTxs, KeyImagesOf, SpentByTxs, ImagesAt;
    StoredLast(blocks, chain, x.ledger);
    TxsAdd(x.ledger, AllTxs(b), h);
    ExecTxsWhen(x.ledger, AllTxs(b), h);
    HonestBelow(x, b, keyImageOf);
    LedgerNext(x.ledger, ExecIndexed(x, b, h).value.ledger, blocks, chain);
  }

  /** The ledger after a replay is what the blocks of the chain say. */
  lemma {:induction false} ReplayLedger(blocks: map<Hash, Block>, chain: seq<Hash>, keyImageOf: PublicKey -> KeyImage)
    requires HonestChain(blocks, chain, keyImageOf) && Replay(blocks, chain).Some?
    ensures LedgerIs(Replay(blocks, chain).value.ledger, blocks, chain)
    decreases |chain|
  {
    if chain == [] {
      NoBlocks(blocks);
    } else {
      hide LedgerIs, ExecIndexed, Honest;
      var front := chain[..|chain| - 1];
      ReplayLedger(blocks, front, keyImageOf);
      LedgerStep(Replay(blocks, front).value, blocks, chain, keyImageOf);
    }
  }

  lemma NoBlocks(blocks: map<Hash, Block>)
    ensures LedgerIs(EMPTY_LEDGER, blocks, [])
  {
  }

  lemma StoredLast(blocks: map<Hash, Block>, chain: seq<Hash>, l: Ledger)
    requires chain != [] && LedgerIs(l, blocks, chain[..|chain| - 1]) && chain[|chain| - 1] in blocks
    ensures AllStored(blocks, chain)
  {
    assert forall i :: 0 <= i < |chain| - 1 ==> chain[i] == chain[..|chain| - 1][i];
  }

  lemma HonestBelow(x: Indexed, b: Block, keyImageOf: PublicKey -> KeyImage)
    requires Honest(x, b, keyImageOf)
    ensures BelowSet(SpentByTxs(AllTxs(b)), x.ledger)
  {
    SpentByPrepended(b.base, b.txs);
    BoundBelow(x.ledger, b.txs, keyImageOf);
  }

  // ----- the indexes -----

  /** The positions of a block's outputs: for each, how many outputs of its
      amount the chain below, the transactions before and the outputs before it
      have minted. */
  ghost predicate PositionsAre(gis: seq<seq<nat>>, below: Amount -> nat, txs: seq<Transaction>, h: Height) {
    && |gis| == |txs|
    && forall t :: 0 <= t < |txs| ==> TxPositionsAre(gis[t], below, txs, t, h)
  }

  ghost predicate TxPositionsAre(gi: seq<nat>, below: Amount -> nat, txs: seq<Transaction>, t: nat, h: Height)
    requires t < |txs|
  {
    && |gi| == |txs[t].outputs|
    && forall o :: 0 <= o < |gi| ==>
         var a := txs[t].outputs[o].amount;
         gi[o] == below(a) + |MintedTxs(txs[..t], h, a)| + |MintedBy(txs[t].outputs[..o], txs[t].unlock, h, a)|
  }

  lemma {:induction false} OutputPosition(l: Ledger, outs: seq<Output>, unlock: nat, h: Height, o: nat)
    requires l.Valid() && o < |outs|
    ensures ExecIndices(l, outs, unlock, h)[o] == l.Next(outs[o].amount) + |MintedBy(outs[..o], unlock, h, outs[o].amount)|
    decreases |outs|
  {
    hide ExecOutputs, MintedBy;
    var front := outs[..|outs| - 1];
    if o < |front| {
      OutputPosition(l, front, unlock, h, o);
      assert front[..o] == outs[..o];
    } else {
      NextMinted(l, front, unlock, h, outs[o].amount);
    }
  }

  lemma NextMinted(l: Ledger, outs: seq<Output>, unlock: nat, h: Height, a: Amount)
    requires l.Valid()
    ensures ExecOutputs(l, outs, unlock, h).Next(a) == l.Next(a) + |MintedBy(outs, unlock, h, a)|
  {
    hide Stack, Flagged, ExecOutputs, MintedBy;
    OutputsMint(l, outs, unlock, h, a);
    MintedCount(l, ExecOutputs(l, outs, unlock, h), a, MintedBy(outs, unlock, h, a));
  }

  lemma MintedCount(l: Ledger, m: Ledger, a: Amount, more: seq<Minted>)
    requires l.Valid() && m.Valid() && Stack(m, a) == Stack(l, a) + more
    ensures m.Next(a) == l.Next(a) + |more|
  {
    assert |Stack(m, a)| == |Stack(l, a)| + |more|;
  }

  lemma {:induction false} BlockPositions(l: Ledger, txs: seq<Transaction>, h: Height)
    requires l.Valid() && ExecTxs(l, txs, h).Some?
    ensures PositionsAre(BlockIndices(l, txs, h), a => l.Next(a), txs, h)
    decreases |txs|
  {
    if txs != [] {
      hide ExecTx, Adds, PositionsAre, TxPositionsAre, ExecIndices, ExecInputs;
      var front, tx := txs[..|txs| - 1], txs[|txs| - 1];
      var m := ExecTxs(l, front, h).value;
      BlockPositions(l, front, h);
      TxsAdd(l, front, h);
      HasInputs(m, tx, h);
      LastPositions(l, m, txs, h);
      var gi := ExecIndices(ExecInputs(m, tx.inputs, h).value, tx.outputs, tx.unlock, h);
      PositionsMore(BlockIndices(l, front, h), gi, a => l.Next(a), txs, h);
    }
  }

  lemma HasInputs(l: Ledger, tx: Transaction, h: Height)
    requires ExecTx(l, tx, h).Some?
    ensures ExecInputs(l, tx.inputs, h).Some?
  {
  }

  lemma PositionsMore(gis: seq<seq<nat>>, gi: seq<nat>, below: Amount -> nat, txs: seq<Transaction>, h: Height)
    requires txs != [] && PositionsAre(gis, below, txs[..|txs| - 1], h) && TxPositionsAre(gi, below, txs, |txs| - 1, h)
    ensures PositionsAre(gis + [gi], below, txs, h)
  {
    hide MintedBy, MintedTxs;
    forall t | 0 <= t < |txs| - 1
      ensures TxPositionsAre(gis[t], below, txs, t, h)
    {
      assert txs[..|txs| - 1][..t] == txs[..t];
      assert TxPositionsAre(gis[t], below, txs[..|txs| - 1], t, h);
    }
  }

  lemma LastPositions(l: Ledger, m: Ledger, txs: seq<Transaction>, h: Height)
    requires txs != [] && Adds(l, m, txs[..|txs| - 1], h) && ExecInputs(m, txs[|txs| - 1].inputs, h).Some?
    ensures var tx := txs[|txs| - 1];
            var gi := ExecIndices(ExecInputs(m, tx.inputs, h).value, tx.outputs, tx.unlock, h);
            TxPositionsAre(gi, a => l.Next(a), txs, |txs| - 1, h)
  {
    hide Stack, StoredAt, Flagged, ExecIndices, ExecInputs, MintedBy, MintedTxs, KeyImagesOf, SpentByTxs;
    var tx := txs[|txs| - 1];
    var n := ExecInputs(m, tx.inputs, h).value;
    ExecInputsValid(m, tx.inputs, h);
    forall o | 0 <= o < |tx.outputs|
      ensures ExecIndices(n, tx.outputs, tx.unlock, h)[o]
           == n.Next(tx.outputs[o].amount) + |MintedBy(tx.outputs[..o], tx.unlock, h, tx.outputs[o].amount)|
    {
      OutputPosition(n, tx.outputs, tx.unlock, h, o);
    }
    forall a
      ensures n.Next(a) == l.Next(a) + |MintedTxs(txs[..|txs| - 1], h, a)|
    {
      MintedCount(l, m, a, MintedTxs(txs[..|txs| - 1], h, a));
    }
  }

  /** Each block's timestamp under its height, each transaction under its hash
      with height and place, each block's output positions under its hash, and
      nothing else. */
  ghost predicate IndexesAre(x: Indexed, blocks: map<Hash, Block>, chain: seq<Hash>) {
    && AllStored(blocks, chain)
    && x.stamps == (set i | 0 <= i < |chain| :: Stamp(blocks[chain[i]].timestamp, i))
    && TxIndexIs(x, blocks, chain)
    && PositionsIndexed(x, blocks, chain)
  }

  ghost predicate TxIndexIs(x: Indexed, blocks: map<Hash, Block>, chain: seq<Hash>)
    requires AllStored(blocks, chain)
  {
    && (forall i :: 0 <= i < |chain| ==> TxsIndexed(x, blocks[chain[i]], i))
    && (forall id :: id in x.txs ==> x.txs[id].height < |chain| && id in TxIds(blocks[chain[x.txs[id].height]]))
  }

  ghost predicate PositionsIndexed(x: Indexed, blocks: map<Hash, Block>, chain: seq<Hash>)
    requires AllStored(blocks, chain)
  {
    && (forall i :: 0 <= i < |chain| ==> PositionsAt(x, blocks, chain, i))
    && x.gis.Keys == (set i | 0 <= i < |chain| :: blocks[chain[i]].hash)
  }

  ghost predicate TxsIndexed(x: Indexed, b: Block, h: Height) {
    forall j :: 0 <= j < |TxIds(b)| ==> TxIds(b)[j] in x.txs && x.txs[TxIds(b)[j]] == TxPos(h, j)
  }

  ghost predicate PositionsAt(x: Indexed, blocks: map<Hash, Block>, chain: seq<Hash>, i: nat)
    requires AllStored(blocks, chain) && i < |chain|
  {
    && blocks[chain[i]].hash in x.gis
    && PositionsAre(x.gis[blocks[chain[i]].hash], a => |MintedChain(blocks, chain[..i], a)|, TxsAt(blocks, chain, i), i)
  }

  lemma PutIs(x: Indexed, b: Block, h: Height)
    requires ExecIndexed(x, b, h).Some?
    ensures var y := ExecIndexed(x, b, h).value;
            && b.hash !in x.gis && y.gis == x.gis[b.hash := BlockIndices(x.ledger, AllTxs(b), h)]
            && y.stamps == x.stamps + {Stamp(b.timestamp, h)}
            && TxsIndexed(y, b, h)
            && (forall id :: id in x.txs ==> id in y.txs && y.txs[id] == x.txs[id])
            && (forall id :: id in y.txs && id !in x.txs ==> y.txs[id].height == h && id in TxIds(b))
  {
    hide ExecTxs, AllTxs, BlockIndices;
    PutTxsKeys(x.txs, TxIds(b), h);
  }

  lemma IndexStep(x: Indexed, y: Indexed, blocks: map<Hash, Block>, chain: seq<Hash>)
    requires chain != [] && AllStored(blocks, chain) && IndexesAre(x, blocks, chain[..|chain| - 1])
    requires LedgerIs(x.ledger, blocks, chain[..|chain| - 1])
    requires ExecIndexed(x, blocks[chain[|chain| - 1]], |chain| - 1) == Some(y)
    ensures IndexesAre(y, blocks, chain)
  {
    hide ExecIndexed, TxIds, TxsIndexed, LedgerIs, TxIndexIs, PositionsIndexed;
    PutIs(x, blocks[chain[|chain| - 1]], |chain| - 1);
    TxIndexStep(x, y, blocks, chain);
    PositionsStep(x, y, blocks, chain);
  }

  lemma TxIndexStep(x: Indexed, y: Indexed, blocks: map<Hash, Block>, chain: seq<Hash>)
    requires chain != [] && AllStored(blocks, chain) && TxIndexIs(x, blocks, chain[..|chain| - 1])
    requires ExecIndexed(x, blocks[chain[|chain| - 1]], |chain| - 1) == Some(y)
    ensures TxIndexIs(y, blocks, chain)
  {
    hide ExecIndexed, TxIds, TxsIndexed;
    var front, h := chain[..|chain| - 1], |chain| - 1;
    PutIs(x, blocks[chain[h]], h);
    forall i | 0 <= i < h
      ensures TxsIndexed(y, blocks[chain[i]], i)
    {
      assert TxsIndexed(x, blocks[front[i]], i);
      TxsStay(x, y, blocks[chain[i]], i);
    }
  }

  lemma PositionsStep(x: Indexed, y: Indexed, blocks: map<Hash, Block>, chain: seq<Hash>)
    requires chain != [] && AllStored(blocks, chain) && PositionsIndexed(x, blocks, chain[..|chain| - 1])
    requires LedgerIs(x.ledger, blocks, chain[..|chain| - 1])
    requires ExecIndexed(x, blocks[chain[|chain| - 1]], |chain| - 1) == Some(y)
    ensures PositionsIndexed(y, blocks, chain)
  {
    hide ExecIndexed, TxIds, TxsIndexed, PositionsAre, MintedChain, LedgerIs, AllTxs;
    var front, h := chain[..|chain| - 1], |chain| - 1;
    PutIs(x, blocks[chain[h]], h);
    LastPositionsAt(x, y, blocks, chain);
    forall i | 0 <= i < h
      ensures PositionsAt(y, blocks, chain, i)
    {
      assert front[i] == chain[i] && front[..i] == chain[..i];
      assert PositionsAt(x, blocks, front, i);
    }
  }

  lemma TxsStay(x: Indexed, y: Indexed, b: Block, h: Height)
    requires TxsIndexed(x, b, h) && forall id :: id in x.txs ==> id in y.txs && y.txs[id] == x.txs[id]
    ensures TxsIndexed(y, b, h)
  {
  }

  lemma LastPositionsAt(x: Indexed, y: Indexed, blocks: map<Hash, Block>, chain: seq<Hash>)
    requires chain != [] && AllStored(blocks, chain) && LedgerIs(x.ledger, blocks, chain[..|chain| - 1])
    requires ExecIndexed(x, blocks[chain[|chain| - 1]], |chain| - 1) == Some(y)
    ensures PositionsAt(y, blocks, chain, |chain| - 1)
  {
    hide MintedChain, Flagged, AllTxs, ExecTxs, ImagesAt, SpentByChain, BlockIndices, TxPositionsAre;
    var h, b := |chain| - 1, blocks[chain[|chain| - 1]];
    BlockPositions(x.ledger, AllTxs(b), h);
    forall a
      ensures x.ledger.Next(a) == |MintedChain(blocks, chain[..h], a)|
    {
      assert |Stack(x.ledger, a)| == x.ledger.Next(a);
    }
    PositionsFrom(BlockIndices(x.ledger, AllTxs(b), h), a => x.ledger.Next(a), a => |MintedChain(blocks, chain[..h], a)|, AllTxs(b), h);
  }

  lemma PositionsFrom(gis: seq<seq<nat>>, below: Amount -> nat, below': Amount -> nat, txs: seq<Transaction>, h: Height)
    requires PositionsAre(gis, below, txs, h) && forall a :: below(a) == below'(a)
    ensures PositionsAre(gis, below', txs, h)
  {
  }

  /** Everything the database holds for a main chain after any run is what the
      blocks of that chain say. */
  lemma {:induction false} ReplayIs(blocks: map<Hash, Block>, chain: seq<Hash>, keyImageOf: PublicKey -> KeyImage)
    requires HonestChain(blocks, chain, keyImageOf) && Replay(blocks, chain).Some?
    ensures var x := Replay(blocks, chain).value;
            LedgerIs(x.ledger, blocks, chain) && IndexesAre(x, blocks, chain)
    decreases |chain|
  {
    hide LedgerIs, ExecIndexed, Honest, IndexesAre;
    ReplayLedger(blocks, chain, keyImageOf);
    if chain == [] {
      NoIndexes(blocks);
    } else {
      var front := chain[..|chain| - 1];
      ReplayIs(blocks, front, keyImageOf);
      StoredLast(blocks, chain, Replay(blocks, front).value.ledger);
      IndexStep(Replay(blocks, front).value, Replay(blocks, chain).value, blocks, chain);
    }
  }

  lemma NoIndexes(blocks: map<Hash, Block>)
    ensures IndexesAre(EMPTY_INDEXED, blocks, [])
  {
  }

  /** So it is for the state after any sequence of submitted blocks. */
  lemma RunIs(env: Env, subs: seq<Submission>, keyImageOf: PublicKey -> KeyImage)
    requires Sound(env.rules, keyImageOf) && Run(env, subs).Some?
    requires Trusted(env, Run(env, subs).value.headers, Run(env, subs).value.blocks, keyImageOf)
    ensures var s := Run(env, subs).value;
            LedgerIs(s.indexed.ledger, s.blocks, s.chain) && IndexesAre(s.indexed, s.blocks, s.chain)
  {
    hide Run, Trusted, Sound, LedgerIs, IndexesAre;
    RunReplays(env, subs, keyImageOf);
    var s := Run(env, subs).value;
    ReplayIs(s.blocks, s.chain, keyImageOf);
  }
}
