// When a block ends the run: the key images and transaction hashes that make
// redo_block fail an invariant(...) instead of refusing the block.
module BlockEnds {
  import opened Basics
  import opened ChainLedger
  import opened Overlay
  import opened Redo
  import opened BlockRedo
  import opened ChainIndex

  // ----- the key images of a block -----

  function KeyImagesIn(ins: seq<Input>): seq<KeyImage>
    decreases |ins|
  {
    if ins == [] then [] else
    KeyImagesIn(ins[..|ins| - 1]) + if ins[|ins| - 1].KeyInput? then [ins[|ins| - 1].keyImage] else []
  }

  function KeyImagesOf(txs: seq<Transaction>): seq<KeyImage>
    decreases |txs|
  {
    if txs == [] then [] else KeyImagesOf(txs[..|txs| - 1]) + KeyImagesIn(txs[|txs| - 1].inputs)
  }

  function Elements(s: seq<nat>): set<nat> {
    set k | k in s
  }

  /** All different from each other and from those used. */
  predicate Unused(used: set<nat>, s: seq<nat>) {
    Distinct(s) && Elements(s) !! used
  }

  lemma UnusedJoin(used: set<nat>, s: seq<nat>, t: seq<nat>)
    ensures Elements(s + t) == Elements(s) + Elements(t)
    ensures Unused(used, s + t) <==> Unused(used, s) && Unused(used + Elements(s), t)
  {
    assert forall k :: k in s + t <==> k in s || k in t;
    if Unused(used, s) && Unused(used + Elements(s), t) {
      forall i, j | 0 <= i < j < |s + t|
        ensures (s + t)[i] != (s + t)[j]
      {
        if i < |s| <= j {
          assert s[i] in Elements(s) && t[j - |s|] in Elements(t);
        }
      }
    }
    if Unused(used, s + t) {
      assert forall i :: 0 <= i < |s| ==> (s + t)[i] == s[i];
      assert forall i :: 0 <= i < |t| ==> (s + t)[|s| + i] == t[i];
      forall k | k in Elements(t)
        ensures k !in used + Elements(s)
      {
        var i :| 0 <= i < |t| && t[i] == k;
        assert (s + t)[|s| + i] == k;
      }
    }
  }

  lemma {:induction false} ExecInputsWhen(l: Ledger, ins: seq<Input>, h: Height)
    ensures ExecInputs(l, ins, h).Some? <==> Unused(l.keyImages.Keys, KeyImagesIn(ins))
    ensures ExecInputs(l, ins, h).Some? ==>
              ExecInputs(l, ins, h).value.keyImages.Keys == l.keyImages.Keys + Elements(KeyImagesIn(ins))
    decreases |ins|
  {
    if ins != [] {
      var front, i := ins[..|ins| - 1], ins[|ins| - 1];
      ExecInputsWhen(l, front, h);
      if i.KeyInput? {
        UnusedJoin(l.keyImages.Keys, KeyImagesIn(front), [i.keyImage]);
        assert Elements([i.keyImage]) == {i.keyImage};
      } else {
        assert KeyImagesIn(ins) == KeyImagesIn(front);
      }
    }
  }

  /** A block can be executed exactly when its key images are all different and
      none is on the chain; then they are what it adds. */
  lemma {:induction false} ExecTxsWhen(l: Ledger, txs: seq<Transaction>, h: Height)
    ensures ExecTxs(l, txs, h).Some? <==> Unused(l.keyImages.Keys, KeyImagesOf(txs))
    ensures ExecTxs(l, txs, h).Some? ==>
              ExecTxs(l, txs, h).value.keyImages.Keys == l.keyImages.Keys + Elements(KeyImagesOf(txs))
    decreases |txs|
  {
    hide Unused, Elements;
    if txs == [] {
      NoneUnused(l.keyImages.Keys);
    } else {
      var front, tx := txs[..|txs| - 1], txs[|txs| - 1];
      ExecTxsWhen(l, front, h);
      UnusedJoin(l.keyImages.Keys, KeyImagesOf(front), KeyImagesIn(tx.inputs));
      var m := ExecTxs(l, front, h);
      if m.Some? {
        ExecInputsWhen(m.value, tx.inputs, h);
        if ExecInputs(m.value, tx.inputs, h).Some? {
          ExecOutputsKeyImages(ExecInputs(m.value, tx.inputs, h).value, tx.outputs, tx.unlock, h);
        }
      }
    }
  }

  lemma NoneUnused(used: set<nat>)
    ensures Unused(used, []) && used + Elements([]) == used
  {
  }

  lemma {:induction false} CoinbaseNoImages(ins: seq<Input>)
    requires forall i :: i in ins ==> i.Coinbase?
    ensures KeyImagesIn(ins) == []
    decreases |ins|
  {
    if ins != [] {
      assert ins[|ins| - 1] in ins;
      CoinbaseNoImages(ins[..|ins| - 1]);
    }
  }

  lemma {:induction false} ImagesPrepended(base: Transaction, txs: seq<Transaction>)
    requires CoinbaseOnly(base)
    ensures KeyImagesOf([base] + txs) == KeyImagesOf(txs)
    decreases |txs|
  {
    var all := [base] + txs;
    if txs == [] {
      assert all[..0] == [];
      CoinbaseNoImages(base.inputs);
    } else {
      assert all[..|all| - 1] == [base] + txs[..|txs| - 1];
      ImagesPrepended(base, txs[..|txs| - 1]);
    }
  }

  // ----- redo_block -----

  lemma {:induction false} InputsImages(rules: Rules, tx: Transaction, n: nat, p: View, h: Height, time: nat)
    requires n <= |tx.inputs| && RedoInputs(rules, false, tx, n, p, h, time).Done?
    ensures RedoInputs(rules, false, tx, n, p, h, time).value.keyImages.Keys <= Elements(KeyImagesIn(tx.inputs[..n]))
  {
    if n > 0 {
      assert tx.inputs[..n][..n - 1] == tx.inputs[..n - 1];
      InputsImages(rules, tx, n - 1, p, h, time);
    }
  }

  lemma {:induction false} TxsImages(rules: Rules, txs: seq<Transaction>, pp: View, h: Height, time: nat)
    requires RedoTxs(rules, false, txs, pp, h, time).Done?
    ensures RedoTxs(rules, false, txs, pp, h, time).value.0.keyImages.Keys <= Elements(KeyImagesOf(txs))
    decreases |txs|
  {
    if txs != [] {
      var front, tx := txs[..|txs| - 1], txs[|txs| - 1];
      TxsImages(rules, front, pp, h, time);
      var d := RedoTxs(rules, false, front, pp, h, time).value.0;
      InputsImages(rules, tx, |tx.inputs|, Over(d, pp), d.height, time);
      assert tx.inputs[..|tx.inputs|] == tx.inputs;
      ElementsJoin(KeyImagesOf(front), KeyImagesIn(tx.inputs));
    }
  }

  lemma ElementsJoin(s: seq<nat>, t: seq<nat>)
    ensures Elements(s + t) == Elements(s) + Elements(t)
  {
    assert forall k :: k in s + t <==> k in s || k in t;
  }

  lemma {:induction false} StartTxFree(l: Ledger, tx: Transaction, n: nat, h: Height, time: nat)
    requires n <= |tx.inputs| && StartWorkTx(l, tx, n, h, time).Done?
    ensures Elements(KeyImagesIn(tx.inputs[..n])) !! l.keyImages.Keys
  {
    if n > 0 {
      assert tx.inputs[..n][..n - 1] == tx.inputs[..n - 1];
      StartTxFree(l, tx, n - 1, h, time);
    }
  }

  /** The preliminary checks let no key image of the chain through. */
  lemma {:induction false} StartWorkFree(l: Ledger, txs: seq<Transaction>, h: Height, time: nat)
    requires StartWork(l, txs, h, time).Done?
    ensures Elements(KeyImagesOf(txs)) !! l.keyImages.Keys
    decreases |txs|
  {
    if txs != [] {
      var tx := txs[|txs| - 1];
      StartWorkFree(l, txs[..|txs| - 1], h, time);
      StartTxFree(l, tx, |tx.inputs|, h, time);
      assert tx.inputs[..|tx.inputs|] == tx.inputs;
      ElementsJoin(KeyImagesOf(txs[..|txs| - 1]), KeyImagesIn(tx.inputs));
    }
  }

  /** What ends the run in redo_block: with the checks on, two inputs of the
      block with one key image; without them, one that the chain has too. */
  ghost predicate ImagesClash(l: Ledger, txs: seq<Transaction>, h: Height, time: nat, check: bool) {
    if check then StartWork(l, txs, h, time).Done? && !Distinct(KeyImagesOf(txs))
    else !Unused(l.keyImages.Keys, KeyImagesOf(txs))
  }

  lemma RedoBlockEnds(rules: Rules, l: Ledger, base: Transaction, txs: seq<Transaction>, h: Height, time: nat, check: bool)
    requires l.Valid() && CoinbaseOnly(base)
    requires check || BelowSet(SpentByTxs(txs), l)
    ensures RedoBlock(rules, l, base, txs, h, time, check).Dead? <==> ImagesClash(l, txs, h, time, check)
  {
    hide Distinct, Elements, KeyImagesOf, BelowSet, SpentByTxs;
    RedoBlockRefines(rules, l, base, txs, h, time, check);
    ExecTxsWhen(l, [base] + txs, h);
    ImagesPrepended(base, txs);
    if check && StartWork(l, txs, h, time).Done? {
      StartWorkFree(l, txs, h, time);
      if !Distinct(KeyImagesOf(txs)) {
        RepeatDies(rules, l, base, txs, h, time);
      }
    }
  }

  /** A key image twice in one block is met while the overlays are built. */
  lemma RepeatDies(rules: Rules, l: Ledger, base: Transaction, txs: seq<Transaction>, h: Height, time: nat)
    requires l.Valid() && CoinbaseOnly(base) && StartWork(l, txs, h, time).Done? && !Distinct(KeyImagesOf(txs))
    ensures RedoTxs(rules, false, [base] + txs, Base(l), h, time).Dead?
  {
    hide Distinct, Elements, KeyImagesOf;
    ExecTxsWhen(l, [base] + txs, h);
    ImagesPrepended(base, txs);
    StartWorkFree(l, txs, h, time);
    StartWorkBelow(l, txs, h, time);
    SpentByPrepended(base, txs);
    RedoTxsRefines(rules, [base] + txs, l, h, time);
    if RedoTxs(rules, false, [base] + txs, Base(l), h, time).Done? {
      TxsImages(rules, [base] + txs, Base(l), h, time);
    }
  }

  /** A block of two transactions that spend one output through rings of one,
      with the same key image. */
  ghost predicate Repeats(l: Ledger, txs: seq<Transaction>, k: OutKey, ki: KeyImage, h: Height, time: nat) {
    && k in l.outs && SpendUnlocked(l.outs[k].unlock, h, time) && ki !in l.keyImages && k.index < WORD32
    && |txs| == 2 && txs[0].inputs == txs[1].inputs == [KeyInput(k.amount, [k.index], ki)]
  }

  lemma RingOfOutput(l: Ledger, k: OutKey, ki: KeyImage, h: Height, time: nat)
    requires k in l.outs && SpendUnlocked(l.outs[k].unlock, h, time) && ki !in l.keyImages && k.index < WORD32
    ensures CheckInput(Base(l), KeyInput(k.amount, [k.index], ki), h, time) == Done([l.outs[k].key])
  {
    var one: seq<nat> := [k.index];
    var offsets: seq<u32> := [k.index];
    assert AbsoluteIndexes(offsets) == one;
    assert one[..0] == [] && k == OutKey(k.amount, one[0]);
    assert RingKeys(Base(l), k.amount, one[..0], h, time) == Done([]);
    assert one[..|one| - 1] == [] && OutKey(k.amount, one[|one| - 1]) == k;
    assert ReadOutput(Base(l), k) == Some(l.outs[k]);
    var none: seq<PublicKey> := [];
    assert none + [l.outs[k].key] == [l.outs[k].key];
    assert RingKeys(Base(l), k.amount, one, h, time) == Done([l.outs[k].key]);
  }

  lemma RepeatedImages(txs: seq<Transaction>, i: Input)
    requires i.KeyInput? && |txs| == 2 && txs[0].inputs == txs[1].inputs == [i]
    ensures KeyImagesOf(txs) == [i.keyImage, i.keyImage] && !Distinct(KeyImagesOf(txs))
  {
    assert txs[..1][..0] == [] && txs[..1][0] == txs[0] && [i][..0] == [];
    assert KeyImagesIn([i][..0]) == [] && KeyImagesIn([i]) == [i.keyImage];
    assert KeyImagesOf(txs[..1][..0]) == [];
    assert KeyImagesOf(txs[..1]) == [i.keyImage];
    assert KeyImagesOf(txs)[0] == KeyImagesOf(txs)[1];
  }

  /** The preliminary checks let it through, whatever the ledger. */
  lemma RepeatsStart(l: Ledger, txs: seq<Transaction>, k: OutKey, ki: KeyImage, h: Height, time: nat)
    requires Repeats(l, txs, k, ki, h, time)
    ensures ImagesClash(l, txs, h, time, true)
  {
    var i := KeyInput(k.amount, [k.index], ki);
    RingOfOutput(l, k, ki, h, time);
    RepeatedImages(txs, i);
    StartsOne(l, txs[0], i, h, time);
    StartsOne(l, txs[1], i, h, time);
    hide CheckInput, StartWorkTx, KeyImagesOf, Distinct;
    assert txs[..1][..0] == [] && txs[..1][0] == txs[0];
    assert StartWork(l, txs[..1][..0], h, time) == Done([]);
    assert StartWork(l, txs[..1], h, time).Done?;
    assert StartWork(l, txs, h, time).Done?;
  }

  lemma StartsOne(l: Ledger, tx: Transaction, i: Input, h: Height, time: nat)
    requires tx.inputs == [i] && i.KeyInput? && CheckInput(Base(l), i, h, time).Done?
    ensures StartWorkTx(l, tx, 1, h, time).Done?
  {
    assert StartWorkTx(l, tx, 0, h, time) == Done([]);
  }

  /** One output of amount 1, and two transactions that spend it: redo_block
      fails an invariant(...) whatever the signatures are worth. */
  lemma RepeatExample(rules: Rules, h: Height, time: nat)
    ensures var l := Ledger(map[], map[OutKey(1, 0) := OutputRecord(0, 7, 0, false)], map[1 := 1]);
            var base := Transaction(100, 0, [Coinbase(1)], []);
            var txs := [Transaction(1, 0, [KeyInput(1, [0], 9)], []), Transaction(2, 0, [KeyInput(1, [0], 9)], [])];
            l.Valid() && CoinbaseOnly(base) && RedoBlock(rules, l, base, txs, h, time, true).Dead?
  {
    var l := Ledger(map[], map[OutKey(1, 0) := OutputRecord(0, 7, 0, false)], map[1 := 1]);
    var base := Transaction(100, 0, [Coinbase(1)], []);
    var txs := [Transaction(1, 0, [KeyInput(1, [0], 9)], []), Transaction(2, 0, [KeyInput(1, [0], 9)], [])];
    assert forall k: OutKey :: k == OutKey(k.amount, k.index);
    RepeatsStart(l, txs, OutKey(1, 0), 9, h, time);
    RedoBlockEnds(rules, l, base, txs, h, time, true);
  }

  // ----- the indexes -----

  lemma {:induction false} PutTxsWhen(m: map<Hash, TxPos>, ids: seq<Hash>, h: Height)
    ensures PutTxs(m, ids, h).Some? <==> Unused(m.Keys, ids)
    ensures PutTxs(m, ids, h).Some? ==> PutTxs(m, ids, h).value.Keys == m.Keys + Elements(ids)
    decreases |ids|
  {
    if ids != [] {
      var front, id := ids[..|ids| - 1], ids[|ids| - 1];
      PutTxsWhen(m, front, h);
      UnusedJoin(m.Keys, front, [id]);
      assert front + [id] == ids;
      assert Elements([id]) == {id};
    }
  }

  /** What ends the run on any state: key images, or an accepted block of which
      a hash is already indexed. */
  ghost predicate Clashes(rules: Rules, x: Indexed, b: Block, h: Height, check: bool) {
    || ImagesClash(x.ledger, b.txs, h, b.timestamp, check)
    || (RedoBlock(rules, x.ledger, b.base, b.txs, h, b.timestamp, check).Done?
        && (b.hash in x.gis || Stamp(b.timestamp, h) in x.stamps || !Unused(x.txs.Keys, TxIds(b))))
  }

  lemma RedoIndexedEnds(rules: Rules, x: Indexed, b: Block, h: Height, check: bool)
    requires x.ledger.Valid() && CoinbaseOnly(b.base)
    requires check || BelowSet(SpentByTxs(b.txs), x.ledger)
    ensures RedoIndexed(rules, x, b, h, check).Dead? <==> Clashes(rules, x, b, h, check)
  {
    hide ImagesClash, RedoBlock, Unused, BelowSet, SpentByTxs, CoinbaseOnly;
    RedoBlockEnds(rules, x.ledger, b.base, b.txs, h, b.timestamp, check);
    PutTxsWhen(x.txs, TxIds(b), h);
  }
}
