// The part of BlockChainState that blocks change: spent key images and the
// per-amount stacks of outputs, with direct execution of a block and its undo.
module ChainLedger {
  import opened Basics

  type Amount = nat
  type Height = nat
  type Hash = nat
  type KeyImage = nat
  type PublicKey = nat

  type u32 = n: nat | n < WORD32

  /** `offsets` are a first global index followed by differences. */
  datatype Input =
    | Coinbase(blockIndex: Height)
    | KeyInput(amount: Amount, offsets: seq<u32>, keyImage: KeyImage)

  datatype Output = Output(amount: Amount, key: PublicKey)

  datatype Transaction = Transaction(hash: Hash, unlock: nat, inputs: seq<Input>, outputs: seq<Output>)

  /** Position of an output: its amount and its global index in that amount's stack. */
  datatype OutKey = OutKey(amount: Amount, index: nat)

  datatype OutputRecord = OutputRecord(unlock: nat, key: PublicKey, height: Height, spent: bool)

  /** `next` holds the stack sizes; an amount without outputs has no entry. */
  datatype Ledger = Ledger(
    keyImages: map<KeyImage, Height>,
    outs: map<OutKey, OutputRecord>,
    next: map<Amount, nat>)
  {
    function Next(a: Amount): nat {
      if a in next then next[a] else 0
    }

    ghost predicate Valid() {
      && (forall k :: k in outs <==> k.index < Next(k.amount))
      && (forall a :: a in next ==> next[a] > 0)
    }
  }

  const EMPTY_LEDGER := Ledger(map[], map[], map[])

  // ----- single changes -----

  function Store(l: Ledger, ki: KeyImage, h: Height): Option<Ledger> {
    if ki in l.keyImages then None else Some(l.(keyImages := l.keyImages[ki := h]))
  }

  function Delete(l: Ledger, ki: KeyImage): Option<Ledger> {
    if ki !in l.keyImages then None else Some(l.(keyImages := l.keyImages - {ki}))
  }

  function Push(l: Ledger, a: Amount, unlock: nat, h: Height, key: PublicKey): Ledger {
    l.(outs := l.outs[OutKey(a, l.Next(a)) := OutputRecord(unlock, key, h, false)],
       next := l.next[a := l.Next(a) + 1])
  }

  /** Underflow and popping a spent or different output are failed invariants. */
  function Pop(l: Ledger, a: Amount, unlock: nat, key: PublicKey): Option<Ledger> {
    if l.Next(a) == 0 then None else
    var k := OutKey(a, l.Next(a) - 1);
    if k !in l.outs then None else
    var r := l.outs[k];
    if r.spent || r.unlock != unlock || r.key != key then None else
    Some(l.(outs := l.outs - {k},
            next := if l.Next(a) == 1 then l.next - {a} else l.next[a := l.Next(a) - 1]))
  }

  /** An output that does not exist is left alone. */
  function Spend(l: Ledger, k: OutKey, spent: bool): Ledger {
    if k in l.outs then l.(outs := l.outs[k := l.outs[k].(spent := spent)]) else l
  }

  // ----- direct execution -----

  function ExecInput(l: Ledger, i: Input, h: Height): Option<Ledger> {
    match i
    case Coinbase(_) => Some(l)
    case KeyInput(a, offsets, ki) =>
      Store(if |offsets| == 1 then Spend(l, OutKey(a, offsets[0]), true) else l, ki, h)
  }

  function ExecInputs(l: Ledger, ins: seq<Input>, h: Height): Option<Ledger> {
    if ins == [] then Some(l) else
    var m :- ExecInputs(l, ins[..|ins| - 1], h);
    ExecInput(m, ins[|ins| - 1], h)
  }

  function ExecOutputs(l: Ledger, outs: seq<Output>, unlock: nat, h: Height): Ledger {
    if outs == [] then l else
    var o := outs[|outs| - 1];
    Push(ExecOutputs(l, outs[..|outs| - 1], unlock, h), o.amount, unlock, h, o.key)
  }

  function ExecTx(l: Ledger, tx: Transaction, h: Height): Option<Ledger> {
    var m :- ExecInputs(l, tx.inputs, h);
    Some(ExecOutputs(m, tx.outputs, tx.unlock, h))
  }

  function ExecTxs(l: Ledger, txs: seq<Transaction>, h: Height): Option<Ledger> {
    if txs == [] then Some(l) else
    var m :- ExecTxs(l, txs[..|txs| - 1], h);
    ExecTx(m, txs[|txs| - 1], h)
  }

  // ----- undo, in the reverse order -----

  function UndoInput(l: Ledger, i: Input): Option<Ledger> {
    match i
    case Coinbase(_) => Some(l)
    case KeyInput(a, offsets, ki) =>
      var m :- Delete(l, ki);
      Some(if |offsets| == 1 then Spend(m, OutKey(a, offsets[0]), false) else m)
  }

  function UndoInputs(l: Ledger, ins: seq<Input>): Option<Ledger>
    decreases |ins|
  {
    if ins == [] then Some(l) else
    var m :- UndoInput(l, ins[|ins| - 1]);
    UndoInputs(m, ins[..|ins| - 1])
  }

  function UndoOutputs(l: Ledger, outs: seq<Output>, unlock: nat): Option<Ledger>
    decreases |outs|
  {
    if outs == [] then Some(l) else
    var o := outs[|outs| - 1];
    var m :- Pop(l, o.amount, unlock, o.key);
    UndoOutputs(m, outs[..|outs| - 1], unlock)
  }

  function UndoTx(l: Ledger, tx: Transaction): Option<Ledger> {
    var m :- UndoOutputs(l, tx.outputs, tx.unlock);
    UndoInputs(m, tx.inputs)
  }

  function UndoTxs(l: Ledger, txs: seq<Transaction>): Option<Ledger>
    decreases |txs|
  {
    if txs == [] then Some(l) else
    var m :- UndoTx(l, txs[|txs| - 1]);
    UndoTxs(m, txs[..|txs| - 1])
  }

  // ----- outputs named by inputs with a ring of one -----

  function SpentBy(i: Input): set<OutKey> {
    if i.KeyInput? && |i.offsets| == 1 then {OutKey(i.amount, i.offsets[0])} else {}
  }

  function SpentByInputs(ins: seq<Input>): set<OutKey> {
    if ins == [] then {} else SpentByInputs(ins[..|ins| - 1]) + SpentBy(ins[|ins| - 1])
  }

  function SpentByTxs(txs: seq<Transaction>): set<OutKey> {
    if txs == [] then {} else SpentByTxs(txs[..|txs| - 1]) + SpentByInputs(txs[|txs| - 1].inputs)
  }

  /** `l` with the spent flags of `ks` taken down. */
  function Unspent(l: Ledger, ks: set<OutKey>): Ledger {
    l.(outs := map k | k in l.outs :: if k in ks then l.outs[k].(spent := false) else l.outs[k])
  }

  // ----- validity is kept -----

  lemma PushValid(l: Ledger, a: Amount, unlock: nat, h: Height, key: PublicKey)
    requires l.Valid()
    ensures Push(l, a, unlock, h, key).Valid()
  {
  }

  lemma {:induction false} ExecInputsValid(l: Ledger, ins: seq<Input>, h: Height)
    requires l.Valid()
    ensures var r := ExecInputs(l, ins, h);
            r.Some? ==> r.value.Valid() && r.value.next == l.next && r.value.outs.Keys == l.outs.Keys
  {
    if ins != [] {
      ExecInputsValid(l, ins[..|ins| - 1], h);
    }
  }

  lemma {:induction false} ExecOutputsValid(l: Ledger, outs: seq<Output>, unlock: nat, h: Height)
    requires l.Valid()
    ensures ExecOutputs(l, outs, unlock, h).Valid()
  {
    if outs != [] {
      ExecOutputsValid(l, outs[..|outs| - 1], unlock, h);
      var o := outs[|outs| - 1];
      PushValid(ExecOutputs(l, outs[..|outs| - 1], unlock, h), o.amount, unlock, h, o.key);
    }
  }

  lemma ExecTxValid(l: Ledger, tx: Transaction, h: Height)
    requires l.Valid() && ExecTx(l, tx, h).Some?
    ensures ExecTx(l, tx, h).value.Valid()
  {
    ExecInputsValid(l, tx.inputs, h);
    ExecOutputsValid(ExecInputs(l, tx.inputs, h).value, tx.outputs, tx.unlock, h);
  }

  lemma {:induction false} ExecTxsValid(l: Ledger, txs: seq<Transaction>, h: Height)
    requires l.Valid() && ExecTxs(l, txs, h).Some?
    ensures ExecTxs(l, txs, h).value.Valid()
  {
    if txs != [] {
      ExecTxsValid(l, txs[..|txs| - 1], h);
      ExecTxValid(ExecTxs(l, txs[..|txs| - 1], h).value, txs[|txs| - 1], h);
    }
  }

  // ----- undo inverts execution -----

  lemma PopPush(l: Ledger, a: Amount, unlock: nat, h: Height, key: PublicKey)
    requires l.Valid()
    ensures Pop(Push(l, a, unlock, h, key), a, unlock, key) == Some(l)
  {
    var p := Push(l, a, unlock, h, key);
    assert OutKey(a, l.Next(a)) !in l.outs;
    assert p.outs - {OutKey(a, l.Next(a))} == l.outs;
    if l.Next(a) == 0 {
      assert p.next - {a} == l.next;
    } else {
      assert p.next[a := l.Next(a)] == l.next;
    }
  }

  lemma {:induction false} UndoOutputsInverts(l: Ledger, outs: seq<Output>, unlock: nat, h: Height)
    requires l.Valid()
    ensures UndoOutputs(ExecOutputs(l, outs, unlock, h), outs, unlock) == Some(l)
  {
    if outs != [] {
      var o, m := outs[|outs| - 1], ExecOutputs(l, outs[..|outs| - 1], unlock, h);
      ExecOutputsValid(l, outs[..|outs| - 1], unlock, h);
      PopPush(m, o.amount, unlock, h, o.key);
      UndoOutputsInverts(l, outs[..|outs| - 1], unlock, h);
    }
  }

  lemma UndoInputInverts(l: Ledger, i: Input, h: Height)
    requires ExecInput(l, i, h).Some?
    ensures UndoInput(ExecInput(l, i, h).value, i) == Some(Unspent(l, SpentBy(i)))
  {
    if i.KeyInput? {
      assert l.keyImages[i.keyImage := h] - {i.keyImage} == l.keyImages;
      assert UndoInput(ExecInput(l, i, h).value, i).value.outs == Unspent(l, SpentBy(i)).outs;
    } else {
      assert Unspent(l, {}).outs == l.outs;
    }
  }

  // Taking flags down commutes with every undo step, so an output spent by
  // two inputs of one block does no harm.

  lemma UndoInputUnspent(l: Ledger, i: Input, ks: set<OutKey>)
    requires UndoInput(l, i).Some?
    ensures UndoInput(Unspent(l, ks), i) == Some(Unspent(UndoInput(l, i).value, ks))
  {
    if i.KeyInput? {
      assert UndoInput(Unspent(l, ks), i).value.outs == Unspent(UndoInput(l, i).value, ks).outs;
    }
  }

  lemma {:induction false} UndoInputsUnspent(l: Ledger, ins: seq<Input>, ks: set<OutKey>)
    requires UndoInputs(l, ins).Some?
    ensures UndoInputs(Unspent(l, ks), ins) == Some(Unspent(UndoInputs(l, ins).value, ks))
    decreases |ins|
  {
    if ins != [] {
      var i := ins[|ins| - 1];
      UndoInputUnspent(l, i, ks);
      UndoInputsUnspent(UndoInput(l, i).value, ins[..|ins| - 1], ks);
    }
  }

  lemma PopUnspent(l: Ledger, a: Amount, unlock: nat, key: PublicKey, ks: set<OutKey>)
    requires Pop(l, a, unlock, key).Some?
    ensures Pop(Unspent(l, ks), a, unlock, key) == Some(Unspent(Pop(l, a, unlock, key).value, ks))
  {
    assert Pop(Unspent(l, ks), a, unlock, key).value.outs == Unspent(Pop(l, a, unlock, key).value, ks).outs;
  }

  lemma {:induction false} UndoOutputsUnspent(l: Ledger, outs: seq<Output>, unlock: nat, ks: set<OutKey>)
    requires UndoOutputs(l, outs, unlock).Some?
    ensures UndoOutputs(Unspent(l, ks), outs, unlock) == Some(Unspent(UndoOutputs(l, outs, unlock).value, ks))
    decreases |outs|
  {
    if outs != [] {
      var o := outs[|outs| - 1];
      PopUnspent(l, o.amount, unlock, o.key, ks);
      UndoOutputsUnspent(Pop(l, o.amount, unlock, o.key).value, outs[..|outs| - 1], unlock, ks);
    }
  }

  lemma UndoTxUnspent(l: Ledger, tx: Transaction, ks: set<OutKey>)
    requires UndoTx(l, tx).Some?
    ensures UndoTx(Unspent(l, ks), tx) == Some(Unspent(UndoTx(l, tx).value, ks))
  {
    UndoOutputsUnspent(l, tx.outputs, tx.unlock, ks);
    UndoInputsUnspent(UndoOutputs(l, tx.outputs, tx.unlock).value, tx.inputs, ks);
  }

  lemma {:induction false} UndoTxsUnspent(l: Ledger, txs: seq<Transaction>, ks: set<OutKey>)
    requires UndoTxs(l, txs).Some?
    ensures UndoTxs(Unspent(l, ks), txs) == Some(Unspent(UndoTxs(l, txs).value, ks))
    decreases |txs|
  {
    if txs != [] {
      var tx := txs[|txs| - 1];
      UndoTxUnspent(l, tx, ks);
      UndoTxsUnspent(UndoTx(l, tx).value, txs[..|txs| - 1], ks);
    }
  }

  lemma UnspentTwice(l: Ledger, ks: set<OutKey>, ks': set<OutKey>)
    ensures Unspent(Unspent(l, ks), ks') == Unspent(l, ks + ks')
  {
    assert Unspent(Unspent(l, ks), ks').outs == Unspent(l, ks + ks').outs;
  }

  lemma UnspentNone(l: Ledger)
    ensures Unspent(l, {}) == l
  {
    assert Unspent(l, {}).outs == l.outs;
  }

  lemma {:induction false} UndoInputsInverts(l: Ledger, ins: seq<Input>, h: Height)
    requires ExecInputs(l, ins, h).Some?
    ensures UndoInputs(ExecInputs(l, ins, h).value, ins) == Some(Unspent(l, SpentByInputs(ins)))
  {
    if ins == [] {
      UnspentNone(l);
    } else {
      var i, front := ins[|ins| - 1], ins[..|ins| - 1];
      var m := ExecInputs(l, front, h).value;
      UndoInputInverts(m, i, h);
      UndoInputsInverts(l, front, h);
      UndoInputsUnspent(m, front, SpentBy(i));
      UnspentTwice(l, SpentByInputs(front), SpentBy(i));
    }
  }

  /** Undo of executed transactions gives the ledger back with exactly the
      outputs they spent by a ring of one marked unspent. */
  lemma {:induction false} UndoTxsInverts(l: Ledger, txs: seq<Transaction>, h: Height)
    requires l.Valid() && ExecTxs(l, txs, h).Some?
    ensures UndoTxs(ExecTxs(l, txs, h).value, txs) == Some(Unspent(l, SpentByTxs(txs)))
  {
    if txs == [] {
      UnspentNone(l);
    } else {
      var tx, front := txs[|txs| - 1], txs[..|txs| - 1];
      var m := ExecTxs(l, front, h).value;
      ExecTxsValid(l, front, h);
      ExecInputsValid(m, tx.inputs, h);
      UndoOutputsInverts(ExecInputs(m, tx.inputs, h).value, tx.outputs, tx.unlock, h);
      UndoInputsInverts(m, tx.inputs, h);
      UndoTxsInverts(l, front, h);
      UndoTxsUnspent(m, front, SpentByInputs(tx.inputs));
      UnspentTwice(l, SpentByTxs(front), SpentByInputs(tx.inputs));
    }
  }

  ghost predicate NoneSpent(l: Ledger, ks: set<OutKey>) {
    forall k :: k in ks && k in l.outs ==> !l.outs[k].spent
  }

  /** Undo inverts execution exactly when no ring-of-one input of the block
      names an output that was already marked spent. */
  lemma UndoTxsExactlyInverts(l: Ledger, txs: seq<Transaction>, h: Height)
    requires l.Valid() && ExecTxs(l, txs, h).Some?
    ensures UndoTxs(ExecTxs(l, txs, h).value, txs) == Some(l) <==> NoneSpent(l, SpentByTxs(txs))
  {
    UndoTxsInverts(l, txs, h);
    var u := Unspent(l, SpentByTxs(txs));
    if NoneSpent(l, SpentByTxs(txs)) {
      assert u.outs == l.outs;
    } else {
      var k :| k in SpentByTxs(txs) && k in l.outs && l.outs[k].spent;
      assert !u.outs[k].spent;
    }
  }
}
