// What redo_block lets through: every input of every transaction, ring by ring
// and signature by signature, against the chain below the block.
module BlockChecks {
  import opened Basics
  import opened ChainLedger
  import opened Overlay
  import opened Redo
  import opened RedoChecked
  import opened BlockRedo
  import opened BlockEnds

  // ----- a ring -----

  /** A ring is stored as a first index and differences. */
  function OffsetSum(offsets: seq<u32>, n: nat): nat
    requires n <= |offsets|
  {
    if n == 0 then 0 else OffsetSum(offsets, n - 1) + offsets[n - 1]
  }

  function RingOutput(i: Input, n: nat): OutKey
    requires i.KeyInput? && n < |i.offsets|
  {
    OutKey(i.amount, OffsetSum(i.offsets, n + 1) % WORD32)
  }

  lemma {:induction false} AbsoluteIndexesAre(offsets: seq<u32>)
    ensures forall n :: 0 <= n < |offsets| ==> AbsoluteIndexes(offsets)[n] == OffsetSum(offsets, n + 1) % WORD32
    decreases |offsets|
  {
    if |offsets| == 1 {
      assert OffsetSum(offsets, 1) == OffsetSum(offsets, 0) + offsets[0];
    } else if |offsets| > 1 {
      var front := offsets[..|offsets| - 1];
      AbsoluteIndexesAre(front);
      forall n | 0 <= n < |offsets|
        ensures AbsoluteIndexes(offsets)[n] == OffsetSum(offsets, n + 1) % WORD32
      {
        if n < |front| {
          SumFront(offsets, n + 1);
        } else {
          SumFront(offsets, n);
          WrapAdd(OffsetSum(offsets, n), offsets[n]);
        }
      }
    }
  }

  lemma {:induction false} SumFront(offsets: seq<u32>, n: nat)
    requires n < |offsets|
    ensures OffsetSum(offsets[..|offsets| - 1], n) == OffsetSum(offsets, n)
  {
    if n > 0 {
      SumFront(offsets, n - 1);
    }
  }

  lemma WrapAdd(x: nat, y: nat)
    ensures (x % WORD32 + y) % WORD32 == (x + y) % WORD32
  {
  }

  /** The unlock height is at most the next one, or the unlock time at most a
      minute ahead; where adding that overflows only height zero is open. */
  lemma SpendUnlockedIs(unlock: nat, h: Height, time: nat)
    requires h < WORD32 && time < WORD32
    ensures SpendUnlocked(unlock, h, time) <==>
            if unlock < 500000000 then unlock == 0 || unlock <= h + 1 < WORD32 else unlock <= time + 60 < WORD32
  {
  }

  lemma {:induction false} RingKeysAre(l: Ledger, a: Amount, indexes: seq<nat>, h: Height, time: nat)
    ensures var r := RingKeys(Base(l), a, indexes, h, time);
            && (r.Done? <==> forall n :: 0 <= n < |indexes| ==>
                  OutKey(a, indexes[n]) in l.outs && SpendUnlocked(l.outs[OutKey(a, indexes[n])].unlock, h, time))
            && (r.Done? ==> |r.value| == |indexes| && forall n :: 0 <= n < |indexes| ==> r.value[n] == l.outs[OutKey(a, indexes[n])].key)
    decreases |indexes|
  {
    hide SpendUnlocked;
    if indexes != [] {
      var front := indexes[..|indexes| - 1];
      RingKeysAre(l, a, front, h, time);
      assert forall n :: 0 <= n < |front| ==> front[n] == indexes[n];
    }
  }

  ghost predicate RingGood(l: Ledger, k: OutKey, h: Height, time: nat) {
    k in l.outs && SpendUnlocked(l.outs[k].unlock, h, time)
  }

  /** A refused ring is refused for its first output that is missing or locked,
      and says which of the two. */
  lemma {:induction false} RingRefused(l: Ledger, a: Amount, indexes: seq<nat>, h: Height, time: nat) returns (n: nat)
    requires RingKeys(Base(l), a, indexes, h, time).Refused?
    ensures n < |indexes| && !RingGood(l, OutKey(a, indexes[n]), h, time)
    ensures forall m :: 0 <= m < n ==> RingGood(l, OutKey(a, indexes[m]), h, time)
    ensures RingKeys(Base(l), a, indexes, h, time).error
            == if OutKey(a, indexes[n]) in l.outs then InputSpendLockedOut else InputInvalidGlobalIndex
    decreases |indexes|
  {
    hide SpendUnlocked;
    var front := indexes[..|indexes| - 1];
    if RingKeys(Base(l), a, front, h, time).Refused? {
      n := RingRefused(l, a, front, h, time);
    } else {
      RingKeysAre(l, a, front, h, time);
      n := |front|;
      forall m | 0 <= m < n
        ensures RingGood(l, OutKey(a, indexes[m]), h, time)
      {
        assert front[m] == indexes[m];
      }
    }
  }

  // ----- an input -----

  /** Every output of the ring is there and unlocked. */
  ghost predicate RingThere(l: Ledger, i: Input, h: Height, time: nat)
    requires i.KeyInput?
  {
    forall n :: 0 <= n < |i.offsets| ==>
      RingOutput(i, n) in l.outs && SpendUnlocked(l.outs[RingOutput(i, n)].unlock, h, time)
  }

  ghost predicate KeysOfRing(l: Ledger, i: Input, keys: seq<PublicKey>)
    requires i.KeyInput?
  {
    |keys| == |i.offsets| && forall n :: 0 <= n < |keys| ==> RingOutput(i, n) in l.outs && keys[n] == l.outs[RingOutput(i, n)].key
  }

  /** The input may spend: its key image is new, its ring is there, and its
      signature is valid for the keys of the outputs in the ring. */
  ghost predicate MaySpend(rules: Rules, l: Ledger, tx: Transaction, j: nat, h: Height, time: nat)
    requires j < |tx.inputs|
  {
    var i := tx.inputs[j];
    i.KeyInput? ==>
      && i.keyImage !in l.keyImages && i.offsets != [] && RingThere(l, i, h, time)
      && exists keys :: KeysOfRing(l, i, keys) && rules.ring(tx, j, keys) == SigOk
  }

  lemma CheckInputIs(l: Ledger, i: Input, h: Height, time: nat)
    requires i.KeyInput?
    ensures var r := CheckInput(Base(l), i, h, time);
            && (r.Done? <==> i.keyImage !in l.keyImages && i.offsets != [] && RingThere(l, i, h, time))
            && (r.Done? ==> KeysOfRing(l, i, r.value))
            && (r == Refused(InputKeyimageAlreadySpent) <==> i.keyImage in l.keyImages)
            && (r == Refused(InputUnknownType) <==> i.keyImage !in l.keyImages && i.offsets == [])
  {
    AbsoluteIndexesAre(i.offsets);
    RingKeysAre(l, i.amount, AbsoluteIndexes(i.offsets), h, time);
    if RingKeys(Base(l), i.amount, AbsoluteIndexes(i.offsets), h, time).Refused? {
      var _ := RingRefused(l, i.amount, AbsoluteIndexes(i.offsets), h, time);
    }
    hide SpendUnlocked, RingKeys, AbsoluteIndexes;
    assert forall n :: 0 <= n < |i.offsets| ==> RingOutput(i, n) == OutKey(i.amount, AbsoluteIndexes(i.offsets)[n]);
  }

  lemma OneKeys(l: Ledger, i: Input, keys: seq<PublicKey>, keys': seq<PublicKey>)
    requires i.KeyInput? && KeysOfRing(l, i, keys) && KeysOfRing(l, i, keys')
    ensures keys == keys'
  {
  }

  lemma MaySpendIs(rules: Rules, l: Ledger, tx: Transaction, j: nat, h: Height, time: nat)
    requires j < |tx.inputs|
    ensures MaySpend(rules, l, tx, j, h, time) <==> InputPasses(rules, tx, j, Base(l), h, time)
  {
    var i := tx.inputs[j];
    if i.KeyInput? {
      CheckInputIs(l, i, h, time);
      hide CheckInput, RingThere;
      if MaySpend(rules, l, tx, j, h, time) {
        var keys :| KeysOfRing(l, i, keys) && rules.ring(tx, j, keys) == SigOk;
        OneKeys(l, i, keys, CheckInput(Base(l), i, h, time).value);
      }
    }
  }

  // ----- a block -----

  ghost predicate TxMaySpend(rules: Rules, l: Ledger, tx: Transaction, h: Height, time: nat) {
    forall j :: 0 <= j < |tx.inputs| ==> MaySpend(rules, l, tx, j, h, time)
  }

  ghost predicate AllMaySpend(rules: Rules, l: Ledger, txs: seq<Transaction>, h: Height, time: nat) {
    forall t :: 0 <= t < |txs| ==> TxMaySpend(rules, l, txs[t], h, time)
  }

  /** Every input of a transaction is posted with its ring. */
  lemma {:induction false} StartWorkTxIs(rules: Rules, l: Ledger, tx: Transaction, n: nat, h: Height, time: nat)
    requires n <= |tx.inputs|
    ensures var w := StartWorkTx(l, tx, n, h, time);
            w.Done? && SignaturesValid(rules, w.value) <==> InputsPass(rules, tx, n, Base(l), h, time)
  {
    hide CheckInput;
    if n > 0 {
      StartWorkTxIs(rules, l, tx, n - 1, h, time);
      assert InputsPass(rules, tx, n, Base(l), h, time)
        <==> InputsPass(rules, tx, n - 1, Base(l), h, time) && InputPasses(rules, tx, n - 1, Base(l), h, time);
      var w, i := StartWorkTx(l, tx, n - 1, h, time), tx.inputs[n - 1];
      if w.Done? && i.KeyInput? && CheckInput(Base(l), i, h, time).Done? {
        ValidMore(rules, w.value, [RingArg(tx, n - 1, CheckInput(Base(l), i, h, time).value)]);
      }
    }
  }

  lemma ValidMore(rules: Rules, args: seq<RingArg>, more: seq<RingArg>)
    ensures SignaturesValid(rules, args + more) <==> SignaturesValid(rules, args) && SignaturesValid(rules, more)
  {
    assert forall a :: a in args + more <==> a in args || a in more;
  }

  lemma PassesAre(rules: Rules, l: Ledger, tx: Transaction, h: Height, time: nat)
    ensures InputsPass(rules, tx, |tx.inputs|, Base(l), h, time)
            <==> TxMaySpend(rules, l, tx, h, time)
  {
    hide MaySpend, InputPasses;
    forall j | 0 <= j < |tx.inputs|
      ensures MaySpend(rules, l, tx, j, h, time) <==> InputPasses(rules, tx, j, Base(l), h, time)
    {
      MaySpendIs(rules, l, tx, j, h, time);
    }
  }

  /** Everything posted is valid exactly when every input may spend. */
  lemma {:induction false} StartWorkIs(rules: Rules, l: Ledger, txs: seq<Transaction>, h: Height, time: nat)
    ensures var w := StartWork(l, txs, h, time);
            w.Done? && SignaturesValid(rules, w.value) <==> AllMaySpend(rules, l, txs, h, time)
    decreases |txs|
  {
    hide TxMaySpend, SignaturesValid, StartWorkTx, InputsPass;
    if txs == [] {
      assert SignaturesValid(rules, []) by { NoneInvalid(rules); }
    } else {
      var front, tx := txs[..|txs| - 1], txs[|txs| - 1];
      StartWorkIs(rules, l, front, h, time);
      StartWorkTxIs(rules, l, tx, |tx.inputs|, h, time);
      PassesAre(rules, l, tx, h, time);
      var w, more := StartWork(l, front, h, time), StartWorkTx(l, tx, |tx.inputs|, h, time);
      if w.Done? && more.Done? {
        ValidMore(rules, w.value, more.value);
      }
      MaySpendLast(rules, l, txs, h, time);
    }
  }

  lemma NoneInvalid(rules: Rules)
    ensures SignaturesValid(rules, [])
  {
  }

  lemma MaySpendLast(rules: Rules, l: Ledger, txs: seq<Transaction>, h: Height, time: nat)
    requires txs != []
    ensures AllMaySpend(rules, l, txs, h, time)
            <==> AllMaySpend(rules, l, txs[..|txs| - 1], h, time)
                 && TxMaySpend(rules, l, txs[|txs| - 1], h, time)
  {
    hide TxMaySpend;
    var front := txs[..|txs| - 1];
    assert forall t :: 0 <= t < |front| ==> front[t] == txs[t];
  }

  /** With the checks on, a block is redone exactly when every input of its
      transactions may spend and no key image comes twice in it. */
  lemma RedoneWhen(rules: Rules, l: Ledger, base: Transaction, txs: seq<Transaction>, h: Height, time: nat)
    requires l.Valid() && CoinbaseOnly(base)
    ensures RedoBlock(rules, l, base, txs, h, time, true).Done?
            <==> AllMaySpend(rules, l, txs, h, time) && Distinct(KeyImagesOf(txs))
  {
    hide AllMaySpend, StartWork, SignaturesValid, KeyImagesOf, Distinct;
    RedoBlockRefines(rules, l, base, txs, h, time, true);
    StartWorkIs(rules, l, txs, h, time);
    ExecTxsWhen(l, [base] + txs, h);
    ImagesPrepended(base, txs);
    if StartWork(l, txs, h, time).Done? {
      StartWorkFree(l, txs, h, time);
    }
    if RedoBlock(rules, l, base, txs, h, time, true).Done? {
      RedoneStarted(rules, l, base, txs, h, time);
    }
  }

  lemma RedoneStarted(rules: Rules, l: Ledger, base: Transaction, txs: seq<Transaction>, h: Height, time: nat)
    requires RedoBlock(rules, l, base, txs, h, time, true).Done?
    ensures var w := StartWork(l, txs, h, time); w.Done? && SignaturesValid(rules, w.value)
  {
  }
}
