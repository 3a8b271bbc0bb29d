// redo_transaction_get_error with its checks on, as add_transaction calls it:
// when it accepts a transaction, and that what it accepts can be executed.
module RedoChecked {
  import opened Basics
  import opened ChainLedger
  import opened Overlay
  import opened Redo

  /** One input against the state below the transaction: its key image is not
      spent, its ring is there and unlocked, its signature is valid. */
  ghost predicate InputPasses(rules: Rules, tx: Transaction, j: nat, p: View, h: Height, time: nat)
    requires j < |tx.inputs|
  {
    tx.inputs[j].KeyInput? ==>
      var keys := CheckInput(p, tx.inputs[j], h, time);
      keys.Done? && rules.ring(tx, j, keys.value) == SigOk
  }

  ghost predicate InputsPass(rules: Rules, tx: Transaction, n: nat, p: View, h: Height, time: nat)
    requires n <= |tx.inputs|
  {
    forall j :: 0 <= j < n ==> InputPasses(rules, tx, j, p, h, time)
  }

  // ----- the overlay of the transaction itself adds no outputs to rings -----

  lemma ReadBeyond(under: Delta, l: Ledger, k: OutKey)
    requires l.Valid() && k.index >= NextIndex(Over(under, Base(l)), k.amount)
    ensures ReadOutput(Over(under, Base(l)), k).None?
  {
  }

  lemma {:induction false} RingThrough(d: Delta, under: Delta, l: Ledger, a: Amount, indexes: seq<nat>, h: Height, time: nat)
    requires l.Valid() && d.pushed == map[]
    ensures var p := Over(under, Base(l)); RingKeys(Over(d, p), a, indexes, h, time) == RingKeys(p, a, indexes, h, time)
    decreases |indexes|
  {
    hide SpendUnlocked, ReadOutput;
    if indexes != [] {
      RingThrough(d, under, l, a, indexes[..|indexes| - 1], h, time);
      ReadThrough(d, under, l, OutKey(a, indexes[|indexes| - 1]));
    }
  }

  lemma ReadThrough(d: Delta, under: Delta, l: Ledger, k: OutKey)
    requires l.Valid() && d.pushed == map[]
    ensures var p := Over(under, Base(l)); ReadOutput(Over(d, p), k) == ReadOutput(p, k)
  {
    if k.index >= NextIndex(Over(under, Base(l)), k.amount) {
      ReadBeyond(under, l, k);
    }
  }

  lemma CheckThrough(d: Delta, under: Delta, l: Ledger, i: Input, h: Height, time: nat)
    requires i.KeyInput? && l.Valid() && d.pushed == map[]
    ensures var p := Over(under, Base(l));
            CheckInput(Over(d, p), i, h, time)
            == if i.keyImage in d.keyImages then Refused(InputKeyimageAlreadySpent) else CheckInput(p, i, h, time)
  {
    RingThrough(d, under, l, i.amount, AbsoluteIndexes(i.offsets), h, time);
  }

  // ----- the inputs -----

  /** The key images stored so far were free below. */
  ghost predicate FreeBelow(d: Delta, p: View) {
    forall ki :: ki in d.keyImages ==> ReadKeyImage(p, ki).None?
  }

  /** With the checks on, the inputs go through exactly when they do without and
      each passes; and no invariant(...) fails. */
  lemma {:induction false} InputsChecked(rules: Rules, tx: Transaction, n: nat, under: Delta, l: Ledger, h: Height, time: nat)
    requires n <= |tx.inputs| && l.Valid()
    ensures var p := Over(under, Base(l));
            var r, plain := RedoInputs(rules, true, tx, n, p, h, time), RedoInputs(rules, false, tx, n, p, h, time);
            && !r.Dead?
            && (r.Done? <==> plain.Done? && InputsPass(rules, tx, n, p, h, time))
            && (r.Done? ==> r == plain && r.value.pushed == map[] && FreeBelow(r.value, p))
  {
    if n > 0 {
      InputsChecked(rules, tx, n - 1, under, l, h, time);
      var p := Over(under, Base(l));
      var r := RedoInputs(rules, true, tx, n - 1, p, h, time);
      if r.Done? {
        InputChecked(rules, tx, n - 1, r.value, under, l, h, time);
      }
    }
  }

  lemma InputChecked(rules: Rules, tx: Transaction, j: nat, d: Delta, under: Delta, l: Ledger, h: Height, time: nat)
    requires j < |tx.inputs| && l.Valid() && d.height == h && d.pushed == map[] && FreeBelow(d, Over(under, Base(l)))
    ensures var p := Over(under, Base(l));
            var r, plain := RedoInput(rules, true, tx, j, d, p, time), RedoInput(rules, false, tx, j, d, p, time);
            && !r.Dead?
            && (r.Done? <==> plain.Done? && InputPasses(rules, tx, j, p, h, time))
            && (r.Done? ==> r == plain && r.value.pushed == map[] && FreeBelow(r.value, p))
  {
    hide RingKeys, AbsoluteIndexes;
    var i := tx.inputs[j];
    if i.KeyInput? {
      CheckThrough(d, under, l, i, h, time);
    }
  }

  // ----- the outputs a ring of one names -----

  lemma OneBelow(under: Delta, l: Ledger, i: Input, h: Height, time: nat)
    requires i.KeyInput? && |i.offsets| == 1 && l.Valid() && under.pushed == map[]
    requires CheckInput(Over(under, Base(l)), i, h, time).Done?
    ensures OutKey(i.amount, i.offsets[0]) in l.outs
  {
    var one: seq<nat> := [i.offsets[0]];
    assert AbsoluteIndexes(i.offsets) == one;
    assert one[..0] == [];
    assert RingKeys(Over(under, Base(l)), i.amount, one[..0], h, time) == Done([]);
  }

  lemma {:induction false} PassBelow(rules: Rules, tx: Transaction, n: nat, under: Delta, l: Ledger, h: Height, time: nat)
    requires n <= |tx.inputs| && l.Valid() && under.pushed == map[]
    requires InputsPass(rules, tx, n, Over(under, Base(l)), h, time)
    ensures BelowSet(SpentByInputs(tx.inputs[..n]), l)
  {
    if n > 0 {
      assert tx.inputs[..n][..n - 1] == tx.inputs[..n - 1];
      PassBelow(rules, tx, n - 1, under, l, h, time);
      var i := tx.inputs[n - 1];
      assert InputPasses(rules, tx, n - 1, Over(under, Base(l)), h, time);
      if i.KeyInput? && |i.offsets| == 1 {
        OneBelow(under, l, i, h, time);
      }
    }
  }

  // ----- the transaction -----

  /** A checked transaction is never a failed invariant(...). It is accepted
      exactly when every input passes and executing it directly succeeds, and
      then its overlay, applied, is that execution, with the same indexes. */
  lemma RedoTxChecked(rules: Rules, tx: Transaction, under: Delta, time: nat, l: Ledger)
    requires l.Valid() && Below(under.spends, l) && ApplyToLedger(under, l).Some?
    requires under.pushed == map[] || BelowSet(SpentByInputs(tx.inputs), l)
    ensures var r := RedoTx(rules, true, tx, under, Base(l), time);
            var before := ApplyToLedger(under, l).value;
            var after := ExecTx(before, tx, under.height);
            && !r.Dead?
            && (r.Done? <==> after.Some? && InputsPass(rules, tx, |tx.inputs|, Over(under, Base(l)), under.height, time))
            && (r.Done? ==> ApplyToLedger(r.value.0, l) == after
                            && r.value.1 == ExecIndices(ExecInputs(before, tx.inputs, under.height).value, tx.outputs, tx.unlock, under.height))
  {
    var p, h := Over(under, Base(l)), under.height;
    InputsChecked(rules, tx, |tx.inputs|, under, l, h, time);
    assert tx.inputs[..|tx.inputs|] == tx.inputs;
    if InputsPass(rules, tx, |tx.inputs|, p, h, time) {
      if under.pushed == map[] {
        PassBelow(rules, tx, |tx.inputs|, under, l, h, time);
      }
      RedoTxRefines(rules, tx, under, time, l);
      MergeFree(rules, tx, under, time, l);
    }
  }

  lemma FreeMerges(e: Delta, under: Delta, l: Ledger)
    requires FreeBelow(e, Over(under, Base(l))) && Disjoint(under.keyImages, l.keyImages)
    ensures Merge(e, under).Some? && Disjoint(Merge(e, under).value.keyImages, l.keyImages)
  {
    forall ki | ki in e.keyImages
      ensures ki !in under.keyImages && ki !in l.keyImages
    {
      assert ReadKeyImage(Over(under, Base(l)), ki).None?;
      assert ki !in under.keyImages ==> ReadKeyImage(Base(l), ki).None?;
    }
  }

  /** What the checks let through neither the block's overlay nor the chain has. */
  lemma MergeFree(rules: Rules, tx: Transaction, under: Delta, time: nat, l: Ledger)
    requires l.Valid() && ApplyToLedger(under, l).Some?
    requires InputsPass(rules, tx, |tx.inputs|, Over(under, Base(l)), under.height, time)
    ensures var p := Over(under, Base(l));
            var r, plain := RedoTx(rules, true, tx, under, Base(l), time), RedoTx(rules, false, tx, under, Base(l), time);
            && !r.Dead?
            && (r.Done? <==> RedoInputs(rules, false, tx, |tx.inputs|, p, under.height, time).Done?)
            && (r.Done? ==> r == plain && ApplyToLedger(r.value.0, l).Some?)
            && (plain.Done? ==> r.Done?)
  {
    hide InputsPass;
    var p, h := Over(under, Base(l)), under.height;
    InputsChecked(rules, tx, |tx.inputs|, under, l, h, time);
    var d := RedoInputs(rules, true, tx, |tx.inputs|, p, h, time);
    if d.Done? {
      var e := RedoOutputs(d.value, tx.outputs, tx.unlock);
      FreeMerges(e, under, l);
    }
  }

  // ----- conflict_height -----

  /** An output at this height is in the ring. */
  ghost predicate InRing(p: View, a: Amount, indexes: seq<nat>, ht: Height) {
    exists i :: 0 <= i < |indexes| && AtHeight(p, OutKey(a, indexes[i]), ht)
  }

  ghost predicate AtHeight(p: View, k: OutKey, ht: Height) {
    ReadOutput(p, k).Some? && ReadOutput(p, k).value.height == ht
  }

  ghost predicate InputAt(i: Input, p: View, ht: Height) {
    i.KeyInput? && InRing(p, i.amount, AbsoluteIndexes(i.offsets), ht)
  }

  /** It is in a ring of one of the inputs. */
  ghost predicate RingHeight(ins: seq<Input>, p: View, ht: Height) {
    exists j :: 0 <= j < |ins| && InputAt(ins[j], p, ht)
  }

  lemma InRingNext(p: View, a: Amount, indexes: seq<nat>)
    requires indexes != []
    ensures forall ht: Height :: InRing(p, a, indexes, ht) <==>
              InRing(p, a, indexes[..|indexes| - 1], ht) || AtHeight(p, OutKey(a, indexes[|indexes| - 1]), ht)
  {
    hide AtHeight;
    var front := indexes[..|indexes| - 1];
    forall ht: Height | InRing(p, a, front, ht)
      ensures InRing(p, a, indexes, ht)
    {
      var i :| 0 <= i < |front| && AtHeight(p, OutKey(a, front[i]), ht);
      assert indexes[i] == front[i];
    }
    forall ht: Height | InRing(p, a, indexes, ht) && !AtHeight(p, OutKey(a, indexes[|indexes| - 1]), ht)
      ensures InRing(p, a, front, ht)
    {
      var i :| 0 <= i < |indexes| && AtHeight(p, OutKey(a, indexes[i]), ht);
      assert i < |front| && front[i] == indexes[i];
    }
  }

  lemma RingHeightNext(ins: seq<Input>, p: View)
    requires ins != []
    ensures forall ht: Height :: RingHeight(ins, p, ht) <==> RingHeight(ins[..|ins| - 1], p, ht) || InputAt(ins[|ins| - 1], p, ht)
  {
    hide InputAt;
    var front := ins[..|ins| - 1];
    forall ht: Height | RingHeight(front, p, ht)
      ensures RingHeight(ins, p, ht)
    {
      var j :| 0 <= j < |front| && InputAt(front[j], p, ht);
      assert ins[j] == front[j];
    }
    forall ht: Height | RingHeight(ins, p, ht) && !InputAt(ins[|ins| - 1], p, ht)
      ensures RingHeight(front, p, ht)
    {
      var j :| 0 <= j < |ins| && InputAt(ins[j], p, ht);
      assert j < |front| && front[j] == ins[j];
    }
  }

  lemma {:induction false} RingConflictIs(d: Delta, under: Delta, l: Ledger, a: Amount, indexes: seq<nat>, h: Height, time: nat, c: Height)
    requires l.Valid() && d.pushed == map[]
    requires RingKeys(Over(d, Over(under, Base(l))), a, indexes, h, time).Done?
    ensures var p := Over(under, Base(l));
            var r := RingConflict(Over(d, p), a, indexes, h, time, c);
            && c <= r && (r == c || InRing(p, a, indexes, r))
            && forall ht: Height :: InRing(p, a, indexes, ht) ==> ht <= r
    decreases |indexes|
  {
    hide SpendUnlocked, ReadOutput;
    if indexes != [] {
      var p := Over(under, Base(l));
      InRingNext(p, a, indexes);
      RingConflictIs(d, under, l, a, indexes[..|indexes| - 1], h, time, c);
      ReadThrough(d, under, l, OutKey(a, indexes[|indexes| - 1]));
      hide InRing;
    }
  }

  /** For an accepted transaction the conflict height is that of the highest
      output in its rings, or zero without any. */
  lemma {:induction false} ConflictIs(rules: Rules, tx: Transaction, n: nat, under: Delta, l: Ledger, h: Height, time: nat)
    requires n <= |tx.inputs| && l.Valid() && RedoInputs(rules, true, tx, n, Over(under, Base(l)), h, time).Done?
    ensures var p := Over(under, Base(l));
            var c := TxConflict(rules, true, tx, n, p, h, time);
            && (c == 0 || RingHeight(tx.inputs[..n], p, c))
            && forall ht: Height :: RingHeight(tx.inputs[..n], p, ht) ==> ht <= c
  {
    if n > 0 {
      var p, i := Over(under, Base(l)), tx.inputs[n - 1];
      assert tx.inputs[..n][..n - 1] == tx.inputs[..n - 1];
      RingHeightNext(tx.inputs[..n], p);
      hide RingKeys, RingConflict, InRing, AbsoluteIndexes, RingHeight;
      ConflictIs(rules, tx, n - 1, under, l, h, time);
      InputsChecked(rules, tx, n - 1, under, l, h, time);
      var d := RedoInputs(rules, true, tx, n - 1, p, h, time).value;
      if i.KeyInput? {
        RingConflictIs(d, under, l, i.amount, AbsoluteIndexes(i.offsets), h, time, TxConflict(rules, true, tx, n - 1, p, h, time));
      }
    }
  }

  /** For one that names an output that is not there it is the highest height. */
  lemma {:induction false} ConflictMissing(v: View, a: Amount, indexes: seq<nat>, h: Height, time: nat, c: Height)
    requires RingKeys(v, a, indexes, h, time) == Refused(InputInvalidGlobalIndex)
    ensures RingConflict(v, a, indexes, h, time, c) == MAX_BLOCK_HEIGHT
    decreases |indexes|
  {
    hide SpendUnlocked, ReadOutput;
    if !RingKeys(v, a, indexes[..|indexes| - 1], h, time).Done? {
      ConflictMissing(v, a, indexes[..|indexes| - 1], h, time, c);
    }
  }
}
