// redo_transaction_get_error and redo_block: a block is executed inside
// overlays and then applied. Refinement to direct execution.
module Redo {
  import opened Basics
  import opened ChainLedger
  import opened Overlay

  const LOCKED_TX_ALLOWED_DELTA_BLOCKS := 1
  const LOCKED_TX_ALLOWED_DELTA_SECONDS := 60

  datatype SigResult = SigOk | SigCorrupted | SigInvalid

  /** Ring signature check of one input against the keys of its ring. */
  datatype Rules = Rules(ring: (Transaction, nat, seq<PublicKey>) -> SigResult)

  function SpendUnlocked(unlock: nat, h: Height, time: nat): bool {
    if unlock < MAX_BLOCK_HEIGHT then (h + LOCKED_TX_ALLOWED_DELTA_BLOCKS) % WORD32 >= unlock
    else (time + LOCKED_TX_ALLOWED_DELTA_SECONDS) % WORD32 >= unlock
  }

  /** Global indexes of a ring from its stored differences, in 32-bit arithmetic. */
  function AbsoluteIndexes(offsets: seq<u32>): (r: seq<nat>)
    ensures |r| == |offsets|
    ensures offsets != [] ==> r[0] == offsets[0]
  {
    if |offsets| <= 1 then offsets
    else
      var front := AbsoluteIndexes(offsets[..|offsets| - 1]);
      front + [(front[|front| - 1] + offsets[|offsets| - 1]) % WORD32]
  }

  // ----- checks of one input -----

  function RingKeys(v: View, a: Amount, indexes: seq<nat>, h: Height, time: nat): (r: Outcome<seq<PublicKey>>)
    ensures !r.Dead?
  {
    if indexes == [] then Done([]) else
    var front :- RingKeys(v, a, indexes[..|indexes| - 1], h, time);
    match ReadOutput(v, OutKey(a, indexes[|indexes| - 1]))
    case None => Refused(InputInvalidGlobalIndex)
    case Some(r) =>
      if SpendUnlocked(r.unlock, h, time) then Done(front + [r.key]) else Refused(InputSpendLockedOut)
  }

  /** Everything about the input but its signature; the ring's keys when fine. */
  function CheckInput(v: View, i: Input, h: Height, time: nat): (r: Outcome<seq<PublicKey>>)
    requires i.KeyInput?
    ensures !r.Dead?
  {
    if ReadKeyImage(v, i.keyImage).Some? then Refused(InputKeyimageAlreadySpent)
    else if i.offsets == [] then Refused(InputUnknownType)
    else RingKeys(v, i.amount, AbsoluteIndexes(i.offsets), h, time)
  }

  function CheckSignature(rules: Rules, tx: Transaction, j: nat, keys: seq<PublicKey>): (r: Outcome<()>)
    ensures !r.Dead?
  {
    match rules.ring(tx, j, keys)
    case SigOk => Done(())
    case SigCorrupted => Refused(InputCorruptedSignatures)
    case SigInvalid => Refused(InputInvalidSignatures)
  }

  // ----- one transaction in its own overlay -----

  function RedoInput(rules: Rules, check: bool, tx: Transaction, j: nat, d: Delta, p: View, time: nat): Outcome<Delta>
    requires j < |tx.inputs|
  {
    var i := tx.inputs[j];
    if i.Coinbase? then Done(d) else
    var _ :- (if check then
                var keys :- CheckInput(Over(d, p), i, d.height, time);
                CheckSignature(rules, tx, j, keys)
              else Done(()));
    var m := if |i.offsets| == 1 then DeltaSpend(d, OutKey(i.amount, i.offsets[0])) else d;
    match DeltaStore(m, i.keyImage, d.height)
    case None => Dead
    case Some(s) => Done(s)
  }

  /** The first `n` inputs, on an empty overlay. */
  function RedoInputs(rules: Rules, check: bool, tx: Transaction, n: nat, p: View, h: Height, time: nat): (r: Outcome<Delta>)
    requires n <= |tx.inputs|
    ensures r.Done? ==> r.value.height == h
  {
    if n == 0 then Done(EmptyDelta(h)) else
    var d :- RedoInputs(rules, check, tx, n - 1, p, h, time);
    RedoInput(rules, check, tx, n - 1, d, p, time)
  }

  function RedoOutputs(d: Delta, outs: seq<Output>, unlock: nat): (r: Delta)
    ensures r.height == d.height && r.spends == d.spends && r.keyImages == d.keyImages
  {
    if outs == [] then d else
    var o := outs[|outs| - 1];
    DeltaPush(RedoOutputs(d, outs[..|outs| - 1], unlock), o.amount, unlock, o.key)
  }

  /** The global indices handed out by those pushes, above the parent `p`. */
  function RedoIndices(d: Delta, p: View, outs: seq<Output>, unlock: nat): seq<nat> {
    if outs == [] then [] else
    var a, front := outs[|outs| - 1].amount, outs[..|outs| - 1];
    RedoIndices(d, p, front, unlock) + [NextIndex(p, a) + |RedoOutputs(d, front, unlock).Pushed(a)|]
  }

  function RedoTx(rules: Rules, check: bool, tx: Transaction, under: Delta, pp: View, time: nat): Outcome<(Delta, seq<nat>)> {
    var p := Over(under, pp);
    var d :- RedoInputs(rules, check, tx, |tx.inputs|, p, under.height, time);
    match Merge(RedoOutputs(d, tx.outputs, tx.unlock), under)
    case None => Dead
    case Some(m) => Done((m, RedoIndices(d, p, tx.outputs, tx.unlock)))
  }

  function RedoTxs(rules: Rules, check: bool, txs: seq<Transaction>, pp: View, h: Height, time: nat)
    : (r: Outcome<(Delta, seq<seq<nat>>)>)
  {
    if txs == [] then Done((EmptyDelta(h), [])) else
    var (d, gis) :- RedoTxs(rules, check, txs[..|txs| - 1], pp, h, time);
    var (m, gi) :- RedoTx(rules, check, txs[|txs| - 1], d, pp, time);
    Done((m, gis + [gi]))
  }

  // ----- conflict_height -----

  /** While a ring is read: the height of the highest output so far; for a
      missing one the highest height there is. */
  function RingConflict(v: View, a: Amount, indexes: seq<nat>, h: Height, time: nat, c: Height): Height {
    if indexes == [] then c else
    var front := indexes[..|indexes| - 1];
    var before := RingConflict(v, a, front, h, time, c);
    if !RingKeys(v, a, front, h, time).Done? then before else
    match ReadOutput(v, OutKey(a, indexes[|indexes| - 1]))
    case None => MAX_BLOCK_HEIGHT
    case Some(r) => if before < r.height then r.height else before
  }

  /** For a key image that is spent, where it was. */
  function InputConflict(v: View, i: Input, h: Height, time: nat, c: Height): Height
    requires i.KeyInput?
  {
    var spent := ReadKeyImage(v, i.keyImage);
    if spent.Some? then spent.value
    else if i.offsets == [] then c
    else RingConflict(v, i.amount, AbsoluteIndexes(i.offsets), h, time, c)
  }

  /** After the first `n` inputs, or the one that was refused. */
  function TxConflict(rules: Rules, check: bool, tx: Transaction, n: nat, p: View, h: Height, time: nat): Height
    requires n <= |tx.inputs|
  {
    if n == 0 || !check then 0 else
    var before := TxConflict(rules, check, tx, n - 1, p, h, time);
    var d := RedoInputs(rules, check, tx, n - 1, p, h, time);
    if !d.Done? || tx.inputs[n - 1].Coinbase? then before else InputConflict(Over(d.value, p), tx.inputs[n - 1], h, time, before)
  }

  // ----- global indices of direct execution -----

  function ExecIndices(l: Ledger, outs: seq<Output>, unlock: nat, h: Height): (r: seq<nat>)
    ensures |r| == |outs|
  {
    if outs == [] then [] else
    var front := outs[..|outs| - 1];
    ExecIndices(l, front, unlock, h) + [ExecOutputs(l, front, unlock, h).Next(outs[|outs| - 1].amount)]
  }

  function BlockIndices(l: Ledger, txs: seq<Transaction>, h: Height): (r: seq<seq<nat>>)
    requires ExecTxs(l, txs, h).Some?
    ensures |r| == |txs|
  {
    if txs == [] then [] else
    var tx, m := txs[|txs| - 1], ExecTxs(l, txs[..|txs| - 1], h).value;
    BlockIndices(l, txs[..|txs| - 1], h) + [ExecIndices(ExecInputs(m, tx.inputs, h).value, tx.outputs, tx.unlock, h)]
  }

  // ----- one change: overlay then apply is apply then change -----

  ghost predicate BelowSet(ks: set<OutKey>, l: Ledger) {
    ks <= l.outs.Keys
  }

  lemma ApplyEmpty(h: Height, l: Ledger)
    requires l.Valid()
    ensures ApplyToLedger(EmptyDelta(h), l) == Some(l)
  {
    var m := ApplyToLedger(EmptyDelta(h), l).value;
    assert m.outs == l.outs;
    assert m.next == l.next;
    assert m.keyImages == l.keyImages;
  }

  lemma NewOutsSame(d: Delta, e: Delta, l: Ledger)
    requires d.pushed == e.pushed && d.height == e.height
    ensures NewOuts(e, l) == NewOuts(d, l) && NewNext(e, l) == NewNext(d, l)
  {
    assert NewKeys(e, l) == NewKeys(d, l);
  }

  lemma ApplyStore(d: Delta, l: Ledger, ki: KeyImage)
    requires ki !in d.keyImages
    ensures ApplyToLedger(DeltaStore(d, ki, d.height).value, l)
            == (var m := ApplyToLedger(d, l); if m.None? then None else Store(m.value, ki, d.height))
  {
    var e := DeltaStore(d, ki, d.height).value;
    assert e.keyImages.Keys == d.keyImages.Keys + {ki};
    assert (l.keyImages + d.keyImages)[ki := d.height] == l.keyImages + e.keyImages;
    NewOutsSame(d, e, l);
  }

  lemma MarkSpentMore(outs: map<OutKey, OutputRecord>, ks: seq<OutKey>, k: OutKey)
    ensures MarkSpent(outs, ks + [k])
            == (var m := MarkSpent(outs, ks); if k in m then m[k := m[k].(spent := true)] else m)
  {
  }

  lemma ApplySpend(d: Delta, l: Ledger, k: OutKey)
    requires ApplyToLedger(d, l).Some?
    ensures ApplyToLedger(DeltaSpend(d, k), l) == Some(Spend(ApplyToLedger(d, l).value, k, true))
  {
    NewOutsSame(d, DeltaSpend(d, k), l);
    hide NewOuts, NewNext, MarkSpent;
    MarkSpentMore(l.outs + NewOuts(d, l), d.spends, k);
  }

  lemma PushedAt(d: Delta, a: Amount, unlock: nat, key: PublicKey, b: Amount)
    ensures DeltaPush(d, a, unlock, key).Pushed(b)
            == if a == b then d.Pushed(a) + [PushedOutput(unlock, key)] else d.Pushed(b)
  {
  }

  lemma ApplyToLedgerHas(d: Delta, l: Ledger, k: OutKey)
    requires l.Valid() && ApplyToLedger(d, l).Some?
    ensures k in ApplyToLedger(d, l).value.outs <==> k.index < l.Next(k.amount) + |d.Pushed(k.amount)|
    ensures ApplyToLedger(d, l).value.Next(k.amount) == l.Next(k.amount) + |d.Pushed(k.amount)|
  {
  }

  lemma ApplyPushAt(d: Delta, l: Ledger, a: Amount, unlock: nat, key: PublicKey, k: OutKey)
    requires l.Valid() && ApplyToLedger(d, l).Some? && Below(d.spends, l)
    requires ApplyToLedger(DeltaPush(d, a, unlock, key), l).Some?
    ensures var n := ApplyToLedger(DeltaPush(d, a, unlock, key), l).value;
            var x := Push(ApplyToLedger(d, l).value, a, unlock, d.height, key);
            (k in x.outs <==> k in n.outs) && (k in x.outs ==> x.outs[k] == n.outs[k])
  {
    var e := DeltaPush(d, a, unlock, key);
    PushedAt(d, a, unlock, key, k.amount);
    ApplyToLedgerHas(d, l, k);
    ApplyToLedgerHas(e, l, k);
    ApplyToLedgerAt(d, l, k);
    ApplyToLedgerAt(e, l, k);
    assert k == OutKey(k.amount, k.index);
    if k.amount == a {
      assert OutKey(a, ApplyToLedger(d, l).value.Next(a)) == k <==> k.index == l.Next(a) + |d.Pushed(a)|;
    }
  }

  lemma ApplyPushNext(d: Delta, l: Ledger, a: Amount, unlock: nat, key: PublicKey)
    requires l.Valid() && ApplyToLedger(d, l).Some?
    ensures NewNext(DeltaPush(d, a, unlock, key), l) == Push(ApplyToLedger(d, l).value, a, unlock, d.height, key).next
  {
    var x, n := Push(ApplyToLedger(d, l).value, a, unlock, d.height, key).next, NewNext(DeltaPush(d, a, unlock, key), l);
    forall b
      ensures b in x <==> b in n
      ensures b in x ==> x[b] == n[b]
    {
      PushedAt(d, a, unlock, key, b);
      ApplyToLedgerHas(d, l, OutKey(b, 0));
    }
  }

  lemma ApplyPush(d: Delta, l: Ledger, a: Amount, unlock: nat, key: PublicKey)
    requires l.Valid() && ApplyToLedger(d, l).Some? && Below(d.spends, l)
    ensures ApplyToLedger(DeltaPush(d, a, unlock, key), l)
            == Some(Push(ApplyToLedger(d, l).value, a, unlock, d.height, key))
  {
    var x, n := Push(ApplyToLedger(d, l).value, a, unlock, d.height, key), ApplyToLedger(DeltaPush(d, a, unlock, key), l).value;
    forall k
      ensures k in x.outs <==> k in n.outs
      ensures k in x.outs ==> x.outs[k] == n.outs[k]
    {
      ApplyPushAt(d, l, a, unlock, key, k);
    }
    assert x.outs == n.outs;
    ApplyPushNext(d, l, a, unlock, key);
  }

  // ----- inputs, outputs, transactions, blocks -----

  lemma {:induction false} SpentByTake(ins: seq<Input>, n: nat)
    requires n <= |ins|
    ensures SpentByInputs(ins[..n]) <= SpentByInputs(ins)
    decreases |ins|
  {
    if n < |ins| {
      assert ins[..|ins| - 1][..n] == ins[..n];
      SpentByTake(ins[..|ins| - 1], n);
    } else {
      assert ins[..n] == ins;
    }
  }

  lemma {:induction false} RedoInputsRefines(rules: Rules, tx: Transaction, n: nat, p: View, h: Height, time: nat, l: Ledger)
    requires n <= |tx.inputs| && l.Valid() && BelowSet(SpentByInputs(tx.inputs[..n]), l)
    ensures var r := RedoInputs(rules, false, tx, n, p, h, time);
            match r
            case Done(d) => ExecInputs(l, tx.inputs[..n], h) == ApplyToLedger(d, l) && d.pushed == map[] && Below(d.spends, l)
            case Refused(_) => false
            case Dead => ExecInputs(l, tx.inputs[..n], h).None?
  {
    if n == 0 {
      ApplyEmpty(h, l);
    } else {
      assert tx.inputs[..n][..n - 1] == tx.inputs[..n - 1];
      RedoInputsRefines(rules, tx, n - 1, p, h, time, l);
      var i := tx.inputs[n - 1];
      var r := RedoInputs(rules, false, tx, n - 1, p, h, time);
      if r.Done? && i.KeyInput? {
        RedoInputRefines(r.value, i, l);
      }
    }
  }

  lemma RedoInputRefines(d: Delta, i: Input, l: Ledger)
    requires l.Valid() && i.KeyInput? && BelowSet(SpentBy(i), l)
    ensures var m := if |i.offsets| == 1 then DeltaSpend(d, OutKey(i.amount, i.offsets[0])) else d;
            var before := ApplyToLedger(d, l);
            var after := if before.None? then None else ExecInput(before.value, i, d.height);
            if i.keyImage in m.keyImages then after.None?
            else ApplyToLedger(DeltaStore(m, i.keyImage, d.height).value, l) == after
  {
    var m := if |i.offsets| == 1 then DeltaSpend(d, OutKey(i.amount, i.offsets[0])) else d;
    if ApplyToLedger(d, l).Some? && |i.offsets| == 1 {
      ApplySpend(d, l, OutKey(i.amount, i.offsets[0]));
    }
    if i.keyImage !in m.keyImages {
      ApplyStore(m, l, i.keyImage);
    }
  }

  lemma PushRefines(e: Delta, p: View, o: Output, unlock: nat, l: Ledger, x: Ledger)
    requires l.Valid() && ApplyToLedger(e, l) == Some(x) && Below(e.spends, l)
    requires NextIndex(p, o.amount) == l.Next(o.amount)
    ensures ApplyToLedger(DeltaPush(e, o.amount, unlock, o.key), l) == Some(Push(x, o.amount, unlock, e.height, o.key))
    ensures NextIndex(p, o.amount) + |e.Pushed(o.amount)| == x.Next(o.amount)
  {
    ApplyPush(e, l, o.amount, unlock, o.key);
    ApplyToLedgerHas(e, l, OutKey(o.amount, 0));
  }

  lemma RedoIndicesLast(d: Delta, p: View, outs: seq<Output>, unlock: nat)
    requires outs != []
    ensures var a, front := outs[|outs| - 1].amount, outs[..|outs| - 1];
            RedoIndices(d, p, outs, unlock)
            == RedoIndices(d, p, front, unlock) + [NextIndex(p, a) + |RedoOutputs(d, front, unlock).Pushed(a)|]
  {
  }

  lemma {:induction false} RedoOutputsRefines(d: Delta, p: View, outs: seq<Output>, unlock: nat, l: Ledger, m: Ledger)
    requires l.Valid() && ApplyToLedger(d, l) == Some(m) && Below(d.spends, l)
    requires forall a :: NextIndex(p, a) == l.Next(a)
    ensures ApplyToLedger(RedoOutputs(d, outs, unlock), l) == Some(ExecOutputs(m, outs, unlock, d.height))
    ensures RedoIndices(d, p, outs, unlock) == ExecIndices(m, outs, unlock, d.height)
  {
    hide ApplyToLedger, DeltaPush, Push, NextIndex, Delta.Pushed, Ledger.Next, Ledger.Valid;
    if outs != [] {
      var o, front := outs[|outs| - 1], outs[..|outs| - 1];
      RedoOutputsRefines(d, p, front, unlock, l, m);
      var x := ExecOutputs(m, front, unlock, d.height);
      PushRefines(RedoOutputs(d, front, unlock), p, o, unlock, l, x);
      RedoIndicesLast(d, p, outs, unlock);
    }
  }

  lemma RedoTxRefines(rules: Rules, tx: Transaction, under: Delta, time: nat, l: Ledger)
    requires l.Valid() && Below(under.spends, l) && BelowSet(SpentByInputs(tx.inputs), l)
    ensures var r := RedoTx(rules, false, tx, under, Base(l), time);
            var before := ApplyToLedger(under, l);
            var after := if before.None? then None else ExecTx(before.value, tx, under.height);
            match r
            case Done((m, gi)) =>
              && ApplyToLedger(m, l) == after && Below(m.spends, l) && m.height == under.height
              && (after.Some? ==>
                    gi == ExecIndices(ExecInputs(before.value, tx.inputs, under.height).value, tx.outputs, tx.unlock, under.height))
            case Refused(_) => false
            case Dead => after.None?
  {
    var p, before := Over(under, Base(l)), ApplyToLedger(under, l);
    assert tx.inputs[..|tx.inputs|] == tx.inputs;
    RedoInputsRefines(rules, tx, |tx.inputs|, p, under.height, time, l);
    var rd := RedoInputs(rules, false, tx, |tx.inputs|, p, under.height, time);
    if before.Some? {
      var m := before.value;
      ApplyToLedgerValid(under, l);
      RedoInputsRefines(rules, tx, |tx.inputs|, p, under.height, time, m);
      if rd.Done? {
        var e := RedoOutputs(rd.value, tx.outputs, tx.unlock);
        if ApplyToLedger(rd.value, m).Some? {
          RedoOutputsRefines(rd.value, p, tx.outputs, tx.unlock, m, ApplyToLedger(rd.value, m).value);
        }
        if Merge(e, under).Some? {
          ApplyMerged(e, under, l);
        }
      }
    }
  }

  /** Executing a block in overlays and applying them is executing it directly,
      with the same global indices, when ring-of-one inputs name outputs that
      the chain already had. */
  lemma {:induction false} RedoTxsRefines(rules: Rules, txs: seq<Transaction>, l: Ledger, h: Height, time: nat)
    requires l.Valid() && BelowSet(SpentByTxs(txs), l)
    ensures match RedoTxs(rules, false, txs, Base(l), h, time)
            case Done((d, gis)) =>
              && ApplyToLedger(d, l) == ExecTxs(l, txs, h) && Below(d.spends, l) && d.height == h
              && (ExecTxs(l, txs, h).Some? ==> gis == BlockIndices(l, txs, h))
            case Refused(_) => false
            case Dead => ExecTxs(l, txs, h).None?
  {
    if txs == [] {
      ApplyEmpty(h, l);
    } else {
      RedoTxsRefines(rules, txs[..|txs| - 1], l, h, time);
      var r := RedoTxs(rules, false, txs[..|txs| - 1], Base(l), h, time);
      if r.Done? {
        RedoTxRefines(rules, txs[|txs| - 1], r.value.0, time, l);
      }
    }
  }
}
