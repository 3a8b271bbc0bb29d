// A whole block: the ring checker's preliminary checks, redo in overlays,
// signature verdict, apply; and what an applied block guarantees.
module BlockRedo {
  import opened Basics
  import opened ChainLedger
  import opened Overlay
  import opened Redo

  /** One ring signature to verify. */
  datatype RingArg = RingArg(tx: Transaction, input: nat, keys: seq<PublicKey>)

  /** start_work_get_error over the first `n` inputs of a transaction. */
  function StartWorkTx(l: Ledger, tx: Transaction, n: nat, h: Height, time: nat): (r: Outcome<seq<RingArg>>)
    requires n <= |tx.inputs|
    ensures !r.Dead?
  {
    if n == 0 then Done([]) else
    var args :- StartWorkTx(l, tx, n - 1, h, time);
    var i := tx.inputs[n - 1];
    if i.Coinbase? then Done(args) else
    var keys :- CheckInput(Base(l), i, h, time);
    Done(args + [RingArg(tx, n - 1, keys)])
  }

  function StartWork(l: Ledger, txs: seq<Transaction>, h: Height, time: nat): (r: Outcome<seq<RingArg>>)
    ensures !r.Dead?
  {
    if txs == [] then Done([]) else
    var args :- StartWork(l, txs[..|txs| - 1], h, time);
    var more :- StartWorkTx(l, txs[|txs| - 1], |txs[|txs| - 1].inputs|, h, time);
    Done(args + more)
  }

  predicate SignaturesValid(rules: Rules, args: seq<RingArg>) {
    forall a :: a in args ==> rules.ring(a.tx, a.input, a.keys) == SigOk
  }

  datatype Redone = Redone(ledger: Ledger, indices: seq<seq<nat>>)

  /** redo_block: `check` is false inside the checkpoint zone. Putting a key
      image the database already holds ends the run. */
  function RedoBlock(rules: Rules, l: Ledger, base: Transaction, txs: seq<Transaction>, h: Height, time: nat, check: bool)
    : Outcome<Redone>
  {
    var args :- if check then StartWork(l, txs, h, time) else Done([]);
    var (d, gis) :- RedoTxs(rules, false, [base] + txs, Base(l), h, time);
    if check && !SignaturesValid(rules, args) then Refused(InputInvalidSignatures) else
    match ApplyToLedger(d, l)
    case None => Dead
    case Some(m) => Done(Redone(m, gis))
  }

  ghost predicate CoinbaseOnly(tx: Transaction) {
    forall i :: i in tx.inputs ==> i.Coinbase?
  }

  // ----- what the checks establish -----

  /** A ring of one with the key image `keyImageOf` gives to its key. */
  ghost predicate Bound(l: Ledger, i: Input, keyImageOf: PublicKey -> KeyImage) {
    i.KeyInput? && |i.offsets| == 1 ==>
      OutKey(i.amount, i.offsets[0]) in l.outs &&
      i.keyImage == keyImageOf(l.outs[OutKey(i.amount, i.offsets[0])].key)
  }

  ghost predicate AllBound(l: Ledger, txs: seq<Transaction>, keyImageOf: PublicKey -> KeyImage) {
    forall t, j :: 0 <= t < |txs| && 0 <= j < |txs[t].inputs| ==> Bound(l, txs[t].inputs[j], keyImageOf)
  }

  /** A valid signature over a ring of one fixes the key image. */
  ghost predicate Sound(rules: Rules, keyImageOf: PublicKey -> KeyImage) {
    forall tx: Transaction, j: nat, key ::
      j < |tx.inputs| && tx.inputs[j].KeyInput? && rules.ring(tx, j, [key]) == SigOk ==>
        tx.inputs[j].keyImage == keyImageOf(key)
  }

  lemma RingOfOne(l: Ledger, i: Input, h: Height, time: nat)
    requires i.KeyInput? && |i.offsets| == 1 && CheckInput(Base(l), i, h, time).Done?
    ensures var k := OutKey(i.amount, i.offsets[0]);
            k in l.outs && CheckInput(Base(l), i, h, time).value == [l.outs[k].key]
  {
    var one: seq<nat> := [i.offsets[0]];
    assert AbsoluteIndexes(i.offsets) == one;
    assert one[..0] == [];
    assert RingKeys(Base(l), i.amount, one[..0], h, time) == Done([]);
  }

  lemma {:induction false} StartWorkTxBound(rules: Rules, l: Ledger, tx: Transaction, n: nat, h: Height, time: nat, keyImageOf: PublicKey -> KeyImage)
    requires n <= |tx.inputs| && Sound(rules, keyImageOf)
    requires StartWorkTx(l, tx, n, h, time).Done? && SignaturesValid(rules, StartWorkTx(l, tx, n, h, time).value)
    ensures forall j :: 0 <= j < n ==> Bound(l, tx.inputs[j], keyImageOf)
  {
    if n > 0 {
      var args := StartWorkTx(l, tx, n - 1, h, time).value;
      assert args <= StartWorkTx(l, tx, n, h, time).value;
      StartWorkTxBound(rules, l, tx, n - 1, h, time, keyImageOf);
      var i := tx.inputs[n - 1];
      if i.KeyInput? && |i.offsets| == 1 {
        var keys := CheckInput(Base(l), i, h, time).value;
        RingOfOne(l, i, h, time);
        assert RingArg(tx, n - 1, keys) in StartWorkTx(l, tx, n, h, time).value;
      }
    }
  }

  lemma {:induction false} StartWorkBound(rules: Rules, l: Ledger, txs: seq<Transaction>, h: Height, time: nat, keyImageOf: PublicKey -> KeyImage)
    requires Sound(rules, keyImageOf)
    requires StartWork(l, txs, h, time).Done? && SignaturesValid(rules, StartWork(l, txs, h, time).value)
    ensures AllBound(l, txs, keyImageOf)
  {
    if txs != [] {
      var front, tx := txs[..|txs| - 1], txs[|txs| - 1];
      var args, more := StartWork(l, front, h, time).value, StartWorkTx(l, tx, |tx.inputs|, h, time).value;
      assert StartWork(l, txs, h, time).value == args + more;
      assert SignaturesValid(rules, args) && SignaturesValid(rules, more);
      StartWorkBound(rules, l, front, h, time, keyImageOf);
      StartWorkTxBound(rules, l, tx, |tx.inputs|, h, time, keyImageOf);
    }
  }

  lemma {:induction false} StartWorkTxBelow(l: Ledger, tx: Transaction, n: nat, h: Height, time: nat)
    requires n <= |tx.inputs| && StartWorkTx(l, tx, n, h, time).Done?
    ensures BelowSet(SpentByInputs(tx.inputs[..n]), l)
  {
    if n > 0 {
      assert tx.inputs[..n][..n - 1] == tx.inputs[..n - 1];
      StartWorkTxBelow(l, tx, n - 1, h, time);
      var i := tx.inputs[n - 1];
      if i.KeyInput? && |i.offsets| == 1 {
        RingOfOne(l, i, h, time);
      }
    }
  }

  lemma {:induction false} StartWorkBelow(l: Ledger, txs: seq<Transaction>, h: Height, time: nat)
    requires StartWork(l, txs, h, time).Done?
    ensures BelowSet(SpentByTxs(txs), l)
  {
    if txs != [] {
      var tx := txs[|txs| - 1];
      StartWorkBelow(l, txs[..|txs| - 1], h, time);
      StartWorkTxBelow(l, tx, |tx.inputs|, h, time);
      assert tx.inputs[..|tx.inputs|] == tx.inputs;
    }
  }

  lemma {:induction false} CoinbaseSpendsNothing(ins: seq<Input>)
    requires forall i :: i in ins ==> i.Coinbase?
    ensures SpentByInputs(ins) == {}
  {
    if ins != [] {
      assert ins[|ins| - 1] in ins;
      CoinbaseSpendsNothing(ins[..|ins| - 1]);
    }
  }

  lemma {:induction false} SpentByPrepended(base: Transaction, txs: seq<Transaction>)
    requires CoinbaseOnly(base)
    ensures SpentByTxs([base] + txs) == SpentByTxs(txs)
  {
    var all := [base] + txs;
    if txs == [] {
      assert all[..0] == [];
      CoinbaseSpendsNothing(base.inputs);
    } else {
      assert all[..|all| - 1] == [base] + txs[..|txs| - 1];
      SpentByPrepended(base, txs[..|txs| - 1]);
    }
  }

  /** A block that redo_block applies was executed exactly as if directly on
      the chain, and the recorded indices are those of direct execution. The
      run ends only where direct execution meets a repeated key image. */
  lemma RedoBlockRefines(rules: Rules, l: Ledger, base: Transaction, txs: seq<Transaction>, h: Height, time: nat, check: bool)
    requires l.Valid() && CoinbaseOnly(base)
    requires check || BelowSet(SpentByTxs(txs), l)
    ensures var r := RedoBlock(rules, l, base, txs, h, time, check);
            var e := ExecTxs(l, [base] + txs, h);
            && (r.Done? ==> e == Some(r.value.ledger) && r.value.indices == BlockIndices(l, [base] + txs, h))
            && (r.Dead? ==> e.None?)
            && (!check ==> !r.Refused? && (e.Some? ==> r.Done?))
            && (check && e.Some? ==>
                  (r.Done? <==> var w := StartWork(l, txs, h, time); w.Done? && SignaturesValid(rules, w.value)))
  {
    SpentByPrepended(base, txs);
    if check {
      var w := StartWork(l, txs, h, time);
      if w.Done? {
        StartWorkBelow(l, txs, h, time);
        RedoTxsRefines(rules, [base] + txs, l, h, time);
      }
    } else {
      RedoTxsRefines(rules, [base] + txs, l, h, time);
    }
  }

  // ----- recorded global indices -----

  /** Every output of `l` is still there, its spent flag aside. */
  ghost predicate Keeps(l: Ledger, m: Ledger) {
    forall k :: k in l.outs ==> k in m.outs && m.outs[k].(spent := l.outs[k].spent) == l.outs[k]
  }

  lemma {:induction false} ExecInputsKeeps(l: Ledger, ins: seq<Input>, h: Height)
    requires ExecInputs(l, ins, h).Some?
    ensures Keeps(l, ExecInputs(l, ins, h).value)
  {
    if ins != [] {
      ExecInputsKeeps(l, ins[..|ins| - 1], h);
    }
  }

  lemma {:induction false} ExecOutputsKeeps(l: Ledger, outs: seq<Output>, unlock: nat, h: Height)
    requires l.Valid()
    ensures Keeps(l, ExecOutputs(l, outs, unlock, h))
  {
    if outs != [] {
      ExecOutputsKeeps(l, outs[..|outs| - 1], unlock, h);
      ExecOutputsValid(l, outs[..|outs| - 1], unlock, h);
    }
  }

  /** The outputs of `tx` sit at their recorded positions, which were free in `l`. */
  ghost predicate Occupied(l: Ledger, m: Ledger, tx: Transaction, gi: seq<nat>, h: Height) {
    && |gi| == |tx.outputs|
    && forall o :: 0 <= o < |gi| ==>
         var k := OutKey(tx.outputs[o].amount, gi[o]);
         && k !in l.outs && k in m.outs
         && m.outs[k].(spent := false) == OutputRecord(tx.unlock, tx.outputs[o].key, h, false)
  }

  lemma {:induction false} ExecOutputsOccupied(l: Ledger, tx: Transaction, outs: seq<Output>, h: Height)
    requires l.Valid() && outs <= tx.outputs
    ensures Occupied(l, ExecOutputs(l, outs, tx.unlock, h), tx.(outputs := outs), ExecIndices(l, outs, tx.unlock, h), h)
  {
    if outs != [] {
      var front := outs[..|outs| - 1];
      ExecOutputsOccupied(l, tx, front, h);
      ExecOutputsValid(l, front, tx.unlock, h);
      ExecOutputsKeeps(l, front, tx.unlock, h);
      var m := ExecOutputs(l, front, tx.unlock, h);
      assert OutKey(outs[|outs| - 1].amount, m.Next(outs[|outs| - 1].amount)) !in m.outs;
    }
  }

  lemma ExecTxOccupied(l: Ledger, tx: Transaction, h: Height)
    requires l.Valid() && ExecTx(l, tx, h).Some?
    ensures Keeps(l, ExecTx(l, tx, h).value)
    ensures Occupied(l, ExecTx(l, tx, h).value, tx, ExecIndices(ExecInputs(l, tx.inputs, h).value, tx.outputs, tx.unlock, h), h)
  {
    var n := ExecInputs(l, tx.inputs, h).value;
    ExecInputsValid(l, tx.inputs, h);
    ExecInputsKeeps(l, tx.inputs, h);
    ExecOutputsKeeps(n, tx.outputs, tx.unlock, h);
    ExecOutputsOccupied(n, tx, tx.outputs, h);
    assert tx.(outputs := tx.outputs) == tx;
  }

  lemma OccupiedEarlier(l: Ledger, l': Ledger, m: Ledger, tx: Transaction, gi: seq<nat>, h: Height)
    requires Keeps(l, l') && Occupied(l', m, tx, gi, h)
    ensures Occupied(l, m, tx, gi, h)
  {
  }

  /** Every index recorded for a block is the position its output really
      occupies once the block is applied. */
  lemma {:induction false} IndicesOccupied(l: Ledger, txs: seq<Transaction>, h: Height)
    requires l.Valid() && ExecTxs(l, txs, h).Some?
    ensures Keeps(l, ExecTxs(l, txs, h).value)
    ensures forall t :: 0 <= t < |txs| ==> Occupied(l, ExecTxs(l, txs, h).value, txs[t], BlockIndices(l, txs, h)[t], h)
  {
    if txs != [] {
      var front, tx := txs[..|txs| - 1], txs[|txs| - 1];
      var m := ExecTxs(l, front, h).value;
      var gi := ExecIndices(ExecInputs(m, tx.inputs, h).value, tx.outputs, tx.unlock, h);
      IndicesOccupied(l, front, h);
      ExecTxsValid(l, front, h);
      ExecTxOccupied(m, tx, h);
      OccupiedEarlier(l, m, ExecTx(m, tx, h).value, tx, gi, h);
      LaterOccupied(l, m, ExecTx(m, tx, h).value, front, BlockIndices(l, front, h), h);
    }
  }

  lemma LaterOccupied(l: Ledger, m: Ledger, n: Ledger, txs: seq<Transaction>, gis: seq<seq<nat>>, h: Height)
    requires Keeps(m, n) && |gis| == |txs|
    requires forall t :: 0 <= t < |txs| ==> Occupied(l, m, txs[t], gis[t], h)
    ensures forall t :: 0 <= t < |txs| ==> Occupied(l, n, txs[t], gis[t], h)
  {
  }

  // ----- spent outputs and key images -----

  /** Whatever is marked spent has its key image on the chain. */
  ghost predicate SpentRecorded(l: Ledger, keyImageOf: PublicKey -> KeyImage) {
    forall k :: k in l.outs && l.outs[k].spent ==> keyImageOf(l.outs[k].key) in l.keyImages
  }

  lemma {:induction false} ExecInputsFresh(l: Ledger, ins: seq<Input>, h: Height)
    requires ExecInputs(l, ins, h).Some?
    ensures l.keyImages.Keys <= ExecInputs(l, ins, h).value.keyImages.Keys
    ensures forall i :: i in ins && i.KeyInput? ==>
              i.keyImage !in l.keyImages && i.keyImage in ExecInputs(l, ins, h).value.keyImages
  {
    if ins != [] {
      ExecInputsFresh(l, ins[..|ins| - 1], h);
    }
  }

  lemma {:induction false} ExecOutputsKeyImages(l: Ledger, outs: seq<Output>, unlock: nat, h: Height)
    ensures ExecOutputs(l, outs, unlock, h).keyImages == l.keyImages
  {
    if outs != [] {
      ExecOutputsKeyImages(l, outs[..|outs| - 1], unlock, h);
    }
  }

  lemma {:induction false} ExecTxsFresh(l: Ledger, txs: seq<Transaction>, h: Height)
    requires ExecTxs(l, txs, h).Some?
    ensures l.keyImages.Keys <= ExecTxs(l, txs, h).value.keyImages.Keys
    ensures forall t, i :: 0 <= t < |txs| && i in txs[t].inputs && i.KeyInput? ==>
              i.keyImage !in l.keyImages && i.keyImage in ExecTxs(l, txs, h).value.keyImages
  {
    if txs != [] {
      var tx, m := txs[|txs| - 1], ExecTxs(l, txs[..|txs| - 1], h).value;
      ExecTxsFresh(l, txs[..|txs| - 1], h);
      ExecInputsFresh(m, tx.inputs, h);
      ExecOutputsKeyImages(ExecInputs(m, tx.inputs, h).value, tx.outputs, tx.unlock, h);
    }
  }

  lemma {:induction false} SpentByInputsAt(ins: seq<Input>, k: OutKey)
    requires k in SpentByInputs(ins)
    ensures exists j :: 0 <= j < |ins| && k in SpentBy(ins[j])
  {
    if k !in SpentBy(ins[|ins| - 1]) {
      SpentByInputsAt(ins[..|ins| - 1], k);
      var j :| 0 <= j < |ins| - 1 && k in SpentBy(ins[..|ins| - 1][j]);
      assert k in SpentBy(ins[j]);
    }
  }

  lemma {:induction false} SpentByTxsAt(txs: seq<Transaction>, k: OutKey) returns (t: nat, j: nat)
    requires k in SpentByTxs(txs)
    ensures t < |txs| && j < |txs[t].inputs| && k in SpentBy(txs[t].inputs[j])
  {
    var tx := txs[|txs| - 1];
    if k in SpentByInputs(tx.inputs) {
      SpentByInputsAt(tx.inputs, k);
      var x :| 0 <= x < |tx.inputs| && k in SpentBy(tx.inputs[x]);
      t, j := |txs| - 1, x;
    } else {
      t, j := SpentByTxsAt(txs[..|txs| - 1], k);
    }
  }

  /** No ring-of-one input of an executed block names a spent output, when key
      images are bound to outputs and spent outputs are recorded. */
  lemma BoundNoneSpent(l: Ledger, txs: seq<Transaction>, h: Height, keyImageOf: PublicKey -> KeyImage)
    requires AllBound(l, txs, keyImageOf) && SpentRecorded(l, keyImageOf) && ExecTxs(l, txs, h).Some?
    ensures NoneSpent(l, SpentByTxs(txs))
  {
    ExecTxsFresh(l, txs, h);
    forall k | k in SpentByTxs(txs) && k in l.outs
      ensures !l.outs[k].spent
    {
      var t, j := SpentByTxsAt(txs, k);
      assert Bound(l, txs[t].inputs[j], keyImageOf);
      assert txs[t].inputs[j].keyImage !in l.keyImages;
    }
  }

  /** The flags set by a block are exactly those of outputs named by rings of one. */
  lemma {:induction false} ExecInputsFlags(l: Ledger, ins: seq<Input>, h: Height)
    requires ExecInputs(l, ins, h).Some?
    ensures var m := ExecInputs(l, ins, h).value;
            forall k :: k in m.outs ==>
              k in l.outs && m.outs[k].spent == (l.outs[k].spent || k in SpentByInputs(ins))
  {
    if ins != [] {
      ExecInputsFlags(l, ins[..|ins| - 1], h);
    }
  }

  lemma {:induction false} ExecOutputsFlags(l: Ledger, outs: seq<Output>, unlock: nat, h: Height)
    requires l.Valid()
    ensures var m := ExecOutputs(l, outs, unlock, h);
            forall k :: k in m.outs && m.outs[k].spent ==> k in l.outs && l.outs[k].spent
  {
    if outs != [] {
      ExecOutputsFlags(l, outs[..|outs| - 1], unlock, h);
    }
  }

  lemma {:induction false} ExecTxsFlags(l: Ledger, txs: seq<Transaction>, h: Height)
    requires l.Valid() && ExecTxs(l, txs, h).Some?
    ensures var m := ExecTxs(l, txs, h).value;
            forall k :: k in m.outs && m.outs[k].spent ==> k in SpentByTxs(txs) || (k in l.outs && l.outs[k].spent)
  {
    if txs != [] {
      var tx, m := txs[|txs| - 1], ExecTxs(l, txs[..|txs| - 1], h).value;
      ExecTxsFlags(l, txs[..|txs| - 1], h);
      ExecTxsValid(l, txs[..|txs| - 1], h);
      ExecInputsFlags(m, tx.inputs, h);
      ExecInputsValid(m, tx.inputs, h);
      ExecOutputsFlags(ExecInputs(m, tx.inputs, h).value, tx.outputs, tx.unlock, h);
    }
  }

  lemma ExecSpentRecorded(l: Ledger, txs: seq<Transaction>, h: Height, keyImageOf: PublicKey -> KeyImage)
    requires l.Valid() && AllBound(l, txs, keyImageOf) && SpentRecorded(l, keyImageOf) && ExecTxs(l, txs, h).Some?
    ensures SpentRecorded(ExecTxs(l, txs, h).value, keyImageOf)
  {
    var m := ExecTxs(l, txs, h).value;
    ExecTxsFresh(l, txs, h);
    ExecTxsFlags(l, txs, h);
    IndicesOccupied(l, txs, h);
    forall k | k in m.outs && m.outs[k].spent
      ensures keyImageOf(m.outs[k].key) in m.keyImages
    {
      if k in l.outs && l.outs[k].spent {
        assert m.outs[k].key == l.outs[k].key;
      } else {
        var t, j := SpentByTxsAt(txs, k);
        assert Bound(l, txs[t].inputs[j], keyImageOf);
      }
    }
  }
}
