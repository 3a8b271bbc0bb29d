// BlockChainState and DeltaState in their own form: database maps with a
// cache, overlays changed in place, redo and undo as loops. Every method is
// tied to the functions of ChainLedger, Overlay, Redo and BlockRedo.
module ChainState {
  import opened Basics
  import opened ChainLedger
  import opened Overlay
  import opened Redo
  import opened BlockRedo

  /** The database cursor at the last output key of an amount. */
  function LastIndex(outputs: map<OutKey, OutputRecord>, a: Amount): (r: Option<nat>)
    ensures r.None? ==> forall k :: k in outputs ==> k.amount != a
    ensures r.Some? ==> OutKey(a, r.value) in outputs && forall k :: k in outputs && k.amount == a ==> k.index <= r.value
  {
    var s := set k | k in outputs && k.amount == a :: k.index;
    if s == {} then
      assert forall k :: k in outputs && k.amount == a ==> k.index in s;
      None
    else
      var m := Largest(s);
      assert forall k :: k in outputs && k.amount == a ==> k.index in s;
      assert forall k: OutKey :: k == OutKey(k.amount, k.index);
      Some(m)
  }

  class ChainDb {
    var keyImages: map<KeyImage, Height>
    var outputs: map<OutKey, OutputRecord>
    var nextGi: map<Amount, nat>  // m_next_gi_for_amount
    ghost var ledger: Ledger

    /** The database holds the ledger; whatever is cached is right. */
    ghost predicate Valid()
      reads this
    {
      && ledger.Valid()
      && keyImages == ledger.keyImages
      && outputs == ledger.outs
      && forall a :: a in nextGi ==> nextGi[a] == ledger.Next(a)
    }

    constructor ()
      ensures Valid() && ledger == EMPTY_LEDGER
    {
      keyImages, outputs, nextGi, ledger := map[], map[], map[], EMPTY_LEDGER;
    }

    method NextGlobalIndexForAmount(a: Amount) returns (n: nat)
      requires Valid()
      modifies this`nextGi
      ensures Valid() && n == ledger.Next(a) && a in nextGi
    {
      if a in nextGi {
        return nextGi[a];
      }
      var last := LastIndex(outputs, a);
      n := if last.None? then 0 else last.value + 1;
      assert n == ledger.Next(a) by {
        if ledger.Next(a) > 0 {
          assert OutKey(a, ledger.Next(a) - 1) in outputs;
        }
      }
      nextGi := nextGi[a := n];
    }

    method StoreKeyimage(ki: KeyImage, h: Height) returns (ok: bool)
      requires Valid()
      modifies this`keyImages, this`ledger
      ensures Valid() && ok == Store(old(ledger), ki, h).Some?
      ensures ledger == if ok then Store(old(ledger), ki, h).value else old(ledger)
    {
      ok := ki !in keyImages;
      if ok {
        keyImages := keyImages[ki := h];
        ledger := Store(ledger, ki, h).value;
      }
    }

    method DeleteKeyimage(ki: KeyImage) returns (ok: bool)
      requires Valid()
      modifies this`keyImages, this`ledger
      ensures Valid() && ok == Delete(old(ledger), ki).Some?
      ensures ledger == if ok then Delete(old(ledger), ki).value else old(ledger)
    {
      ok := ki in keyImages;
      if ok {
        keyImages := keyImages - {ki};
        ledger := Delete(ledger, ki).value;
      }
    }

    method PushAmountOutput(a: Amount, unlock: nat, h: Height, key: PublicKey) returns (gi: nat)
      requires Valid()
      modifies this`outputs, this`nextGi, this`ledger
      ensures Valid() && gi == old(ledger).Next(a) && ledger == Push(old(ledger), a, unlock, h, key)
    {
      gi := NextGlobalIndexForAmount(a);
      PushValid(ledger, a, unlock, h, key);
      outputs := outputs[OutKey(a, gi) := OutputRecord(unlock, key, h, false)];
      nextGi := nextGi[a := nextGi[a] + 1];
      ledger := Push(ledger, a, unlock, h, key);
    }

    method PopAmountOutput(a: Amount, unlock: nat, key: PublicKey) returns (ok: bool)
      requires Valid()
      modifies this`outputs, this`nextGi, this`ledger
      ensures ok == Pop(old(ledger), a, unlock, key).Some?
      ensures ok ==> Valid() && ledger == Pop(old(ledger), a, unlock, key).value
    {
      var next := NextGlobalIndexForAmount(a);
      if next == 0 {
        return false;
      }
      nextGi := nextGi[a := nextGi[a] - 1];
      var k := OutKey(a, next - 1);
      if k !in outputs || outputs[k].spent || outputs[k].unlock != unlock || outputs[k].key != key {
        return false;
      }
      outputs := outputs - {k};
      PopValid(ledger, a, unlock, key);
      ledger := Pop(ledger, a, unlock, key).value;
      return true;
    }

    method SpendOutput(k: OutKey, spent: bool)
      requires Valid()
      modifies this`outputs, this`ledger
      ensures Valid() && ledger == Spend(old(ledger), k, spent)
    {
      if k in outputs {
        outputs := outputs[k := outputs[k].(spent := spent)];
      }
      ledger := Spend(ledger, k, spent);
    }

    method UndoTxOutputs(tx: Transaction) returns (ok: bool)
      requires Valid()
      modifies this
      ensures ok == UndoOutputs(old(ledger), tx.outputs, tx.unlock).Some?
      ensures ok ==> Valid() && ledger == UndoOutputs(old(ledger), tx.outputs, tx.unlock).value
    {
      hide Pop;
      ghost var was := ledger;
      var n := |tx.outputs|;
      assert tx.outputs[..n] == tx.outputs;
      while n > 0
        invariant 0 <= n <= |tx.outputs| && Valid()
        invariant UndoOutputs(was, tx.outputs, tx.unlock) == UndoOutputs(ledger, tx.outputs[..n], tx.unlock)
      {
        n := n - 1;
        assert tx.outputs[..n + 1][..n] == tx.outputs[..n];
        ok := PopAmountOutput(tx.outputs[n].amount, tx.unlock, tx.outputs[n].key);
        if !ok {
          return;
        }
      }
      return true;
    }

    method UndoTxInputs(tx: Transaction) returns (ok: bool)
      requires Valid()
      modifies this
      ensures ok == UndoInputs(old(ledger), tx.inputs).Some?
      ensures ok ==> Valid() && ledger == UndoInputs(old(ledger), tx.inputs).value
    {
      ghost var was := ledger;
      var n := |tx.inputs|;
      assert tx.inputs[..n] == tx.inputs;
      while n > 0
        invariant 0 <= n <= |tx.inputs| && Valid()
        invariant UndoInputs(was, tx.inputs) == UndoInputs(ledger, tx.inputs[..n])
      {
        n := n - 1;
        assert tx.inputs[..n + 1][..n] == tx.inputs[..n];
        var i := tx.inputs[n];
        if i.KeyInput? {
          ok := DeleteKeyimage(i.keyImage);
          if !ok {
            return;
          }
          if |i.offsets| == 1 {
            SpendOutput(OutKey(i.amount, i.offsets[0]), false);
          }
        }
      }
      return true;
    }

    /** undo_transaction: outputs, then inputs, each from the last. */
    method UndoTransaction(tx: Transaction) returns (ok: bool)
      requires Valid()
      modifies this
      ensures ok == UndoTx(old(ledger), tx).Some?
      ensures ok ==> Valid() && ledger == UndoTx(old(ledger), tx).value
    {
      ok := UndoTxOutputs(tx);
      if ok {
        ok := UndoTxInputs(tx);
      }
    }

    /** The transactions of undo_block, the base transaction last. */
    method UndoTransactions(txs: seq<Transaction>) returns (ok: bool)
      requires Valid()
      modifies this
      ensures ok == UndoTxs(old(ledger), txs).Some?
      ensures ok ==> Valid() && ledger == UndoTxs(old(ledger), txs).value
    {
      ghost var was := ledger;
      var n := |txs|;
      assert txs[..n] == txs;
      while n > 0
        invariant 0 <= n <= |txs| && Valid()
        invariant UndoTxs(was, txs) == UndoTxs(ledger, txs[..n])
      {
        n := n - 1;
        assert txs[..n + 1][..n] == txs[..n];
        ok := UndoTransaction(txs[n]);
        if !ok {
          return;
        }
      }
      return true;
    }
  }

  lemma PopValid(l: Ledger, a: Amount, unlock: nat, key: PublicKey)
    requires l.Valid() && Pop(l, a, unlock, key).Some?
    ensures Pop(l, a, unlock, key).value.Valid()
    ensures forall b :: Pop(l, a, unlock, key).value.Next(b) == if b == a then l.Next(a) - 1 else l.Next(b)
  {
    var p := Pop(l, a, unlock, key).value;
    assert forall k: OutKey :: k == OutKey(k.amount, k.index);
    assert forall b :: p.Next(b) == if b == a then l.Next(a) - 1 else l.Next(b);
  }

  class DeltaState {
    var keyImages: map<KeyImage, Height>
    var globalAmounts: map<Amount, seq<PushedOutput>>
    var spentOutputs: seq<OutKey>
    const blockHeight: Height
    const parent: View

    function D(): Delta
      reads this
    {
      Delta(keyImages, globalAmounts, spentOutputs, blockHeight)
    }

    ghost predicate Valid()
      reads this
    {
      D().Uniform() && forall a :: a in globalAmounts ==> globalAmounts[a] != []
    }

    constructor (h: Height, parent: View)
      ensures Valid() && D() == EmptyDelta(h) && this.parent == parent && blockHeight == h
    {
      keyImages, globalAmounts, spentOutputs := map[], map[], [];
      blockHeight := h;
      this.parent := parent;
    }

    method StoreKeyimage(ki: KeyImage) returns (ok: bool)
      requires Valid()
      modifies this`keyImages
      ensures Valid() && ok == DeltaStore(old(D()), ki, blockHeight).Some?
      ensures D() == if ok then DeltaStore(old(D()), ki, blockHeight).value else old(D())
    {
      ok := ki !in keyImages;
      if ok {
        keyImages := keyImages[ki := blockHeight];
      }
    }

    method PushAmountOutput(a: Amount, unlock: nat, key: PublicKey) returns (gi: nat)
      requires Valid()
      modifies this`globalAmounts
      ensures Valid() && D() == DeltaPush(old(D()), a, unlock, key)
      ensures gi == NextIndex(parent, a) + |old(D()).Pushed(a)|
    {
      globalAmounts := globalAmounts[a := D().Pushed(a) + [PushedOutput(unlock, key)]];
      gi := NextIndex(parent, a) + |globalAmounts[a]| - 1;
    }

    method SpendOutput(k: OutKey)
      requires Valid()
      modifies this`spentOutputs
      ensures Valid() && D() == DeltaSpend(old(D()), k)
    {
      spentOutputs := spentOutputs + [k];
    }

    /** The pushes of apply for one amount. */
    method PushAll(a: Amount, items: seq<PushedOutput>)
      requires Valid() && items != []
      modifies this`globalAmounts
      ensures Valid() && D() == old(D()).(pushed := old(D()).pushed[a := old(D()).Pushed(a) + items])
    {
      ghost var was := D();
      for n := 0 to |items|
        invariant Valid() && keyImages == was.keyImages && spentOutputs == was.spends
        invariant globalAmounts == if n == 0 then was.pushed else was.pushed[a := was.Pushed(a) + items[..n]]
      {
        assert D().Pushed(a) == was.Pushed(a) + items[..n];
        assert was.Pushed(a) + items[..n] + [items[n]] == was.Pushed(a) + items[..n + 1];
        var _ := PushAmountOutput(a, items[n].unlock, items[n].key);
      }
      assert items[..|items|] == items;
    }

    method ApplyKeyImages(under: DeltaState) returns (ok: bool)
      requires Valid() && under.Valid() && under != this && under.blockHeight == blockHeight
      modifies under`keyImages
      ensures under.Valid() && ok == Disjoint(keyImages, old(under.keyImages))
      ensures ok ==> under.keyImages == old(under.keyImages) + keyImages
    {
      ghost var was := under.keyImages;
      var todo := keyImages.Keys;
      while todo != {}
        invariant under.Valid() && todo <= keyImages.Keys && (keyImages.Keys - todo) !! was.Keys
        invariant under.keyImages == was + (keyImages - todo)
        decreases todo
      {
        var ki :| ki in todo;
        ok := under.StoreKeyimage(ki);
        if !ok {
          return;
        }
        todo := todo - {ki};
      }
      assert keyImages - {} == keyImages;
      return true;
    }

    method ApplyOutputs(under: DeltaState)
      requires Valid() && under.Valid() && under != this
      modifies under`globalAmounts
      ensures under.Valid() && under.globalAmounts.Keys == old(under.globalAmounts).Keys + globalAmounts.Keys
      ensures forall a :: under.D().Pushed(a) == old(under.D()).Pushed(a) + D().Pushed(a)
    {
      ghost var was := under.D();
      var amounts := globalAmounts.Keys;
      while amounts != {}
        invariant under.Valid() && amounts <= globalAmounts.Keys
        invariant under.globalAmounts.Keys == was.pushed.Keys + (globalAmounts.Keys - amounts)
        invariant forall a :: under.D().Pushed(a) == was.Pushed(a) + (if a in amounts then [] else D().Pushed(a))
        decreases amounts
      {
        var a :| a in amounts;
        assert under.D().Pushed(a) == was.Pushed(a);
        under.PushAll(a, globalAmounts[a]);
        amounts := amounts - {a};
      }
    }

    /** apply, the parent being the overlay of the block. */
    method ApplyTo(under: DeltaState) returns (ok: bool)
      requires Valid() && under.Valid() && under != this && under.blockHeight == blockHeight
      modifies under
      ensures under.Valid() && ok == Merge(D(), old(under.D())).Some?
      ensures ok ==> under.D() == Merge(D(), old(under.D())).value
    {
      ghost var was := under.D();
      ok := ApplyKeyImages(under);
      if ok {
        ApplyOutputs(under);
        ghost var mid := under.D();
        for n := 0 to |spentOutputs|
          invariant under.Valid() && under.D() == mid.(spends := was.spends + spentOutputs[..n])
        {
          under.SpendOutput(spentOutputs[n]);
        }
        assert spentOutputs[..|spentOutputs|] == spentOutputs;
        MergeIs(D(), was, under.D());
      }
    }

    method KeyImagesToChain(db: ChainDb) returns (ok: bool)
      requires Valid() && db.Valid()
      modifies db
      ensures db.Valid() && ok == Disjoint(keyImages, old(db.ledger).keyImages)
      ensures ok ==> ApplyToLedger(EmptyDelta(blockHeight).(keyImages := keyImages), old(db.ledger)) == Some(db.ledger)
    {
      ghost var l := db.ledger;
      ghost var e := EmptyDelta(blockHeight);  // the part applied so far
      ApplyEmpty(blockHeight, l);
      hide ApplyToLedger;
      var todo := keyImages.Keys;
      while todo != {}
        invariant db.Valid() && todo <= keyImages.Keys && (keyImages.Keys - todo) !! l.keyImages.Keys
        invariant db.ledger.keyImages == l.keyImages + (keyImages - todo)
        invariant e == EmptyDelta(blockHeight).(keyImages := keyImages - todo) && ApplyToLedger(e, l) == Some(db.ledger)
        decreases todo
      {
        var ki :| ki in todo;
        ApplyStore(e, l, ki);
        ok := db.StoreKeyimage(ki, keyImages[ki]);
        if !ok {
          assert ki in l.keyImages;
          return;
        }
        e := DeltaStore(e, ki, blockHeight).value;
        todo := todo - {ki};
        assert e.keyImages == keyImages - todo;
      }
      assert keyImages - {} == keyImages;
      return true;
    }

    method PushAllToChain(db: ChainDb, a: Amount, items: seq<PushedOutput>, ghost l: Ledger, ghost e0: Delta) returns (ghost e: Delta)
      requires db.Valid() && l.Valid() && items != []
      requires e0.height == blockHeight && e0.spends == [] && a !in e0.pushed && ApplyToLedger(e0, l) == Some(db.ledger)
      modifies db
      ensures db.Valid() && e == e0.(pushed := e0.pushed[a := items]) && ApplyToLedger(e, l) == Some(db.ledger)
    {
      hide ApplyToLedger, Push;
      e := e0;
      for n := 0 to |items|
        invariant db.Valid() && ApplyToLedger(e, l) == Some(db.ledger)
        invariant e == if n == 0 then e0 else e0.(pushed := e0.pushed[a := items[..n]])
      {
        assert e.Pushed(a) == items[..n];
        ApplyPush(e, l, a, items[n].unlock, items[n].key);
        var _ := db.PushAmountOutput(a, items[n].unlock, blockHeight, items[n].key);
        e := DeltaPush(e, a, items[n].unlock, items[n].key);
        assert items[..n] + [items[n]] == items[..n + 1];
      }
      assert items[..|items|] == items;
    }

    method OutputsToChain(db: ChainDb, ghost l: Ledger)
      requires Valid() && db.Valid() && l.Valid()
      requires ApplyToLedger(EmptyDelta(blockHeight).(keyImages := keyImages), l) == Some(db.ledger)
      modifies db
      ensures db.Valid() && ApplyToLedger(D().(spends := []), l) == Some(db.ledger)
    {
      hide ApplyToLedger;
      ghost var e := EmptyDelta(blockHeight).(keyImages := keyImages);
      var amounts := globalAmounts.Keys;
      while amounts != {}
        invariant db.Valid() && amounts <= globalAmounts.Keys
        invariant e == Delta(keyImages, map a | a in globalAmounts && a !in amounts :: globalAmounts[a], [], blockHeight)
        invariant ApplyToLedger(e, l) == Some(db.ledger)
        decreases amounts
      {
        var a :| a in amounts;
        e := PushAllToChain(db, a, globalAmounts[a], l, e);
        amounts := amounts - {a};
        assert e.pushed == map b | b in globalAmounts && b !in amounts :: globalAmounts[b];
      }
      assert e.pushed == globalAmounts;
    }

    /** apply, the parent being the chain. */
    method ApplyToChain(db: ChainDb) returns (ok: bool)
      requires Valid() && db.Valid()
      modifies db
      ensures ok == ApplyToLedger(D(), old(db.ledger)).Some?
      ensures ok ==> db.Valid() && db.ledger == ApplyToLedger(D(), old(db.ledger)).value
    {
      ghost var l := db.ledger;
      ok := KeyImagesToChain(db);
      if ok {
        OutputsToChain(db, l);
        SpendsToChain(db, l);
      }
    }

    method SpendsToChain(db: ChainDb, ghost l: Ledger)
      requires Valid() && db.Valid() && ApplyToLedger(D().(spends := []), l) == Some(db.ledger)
      modifies db
      ensures db.Valid() && ApplyToLedger(D(), l) == Some(db.ledger)
    {
      hide ApplyToLedger;
      assert spentOutputs[..0] == [];
      for n := 0 to |spentOutputs|
        invariant db.Valid() && ApplyToLedger(D().(spends := spentOutputs[..n]), l) == Some(db.ledger)
      {
        ApplySpend(D().(spends := spentOutputs[..n]), l, spentOutputs[n]);
        db.SpendOutput(spentOutputs[n], true);
        assert spentOutputs[..n] + [spentOutputs[n]] == spentOutputs[..n + 1];
      }
      assert D().(spends := spentOutputs[..|spentOutputs|]) == D();
    }
  }

  lemma MergeIs(d: Delta, under: Delta, r: Delta)
    requires Merge(d, under).Some? && r.height == under.height
    requires r.keyImages == under.keyImages + d.keyImages && r.spends == under.spends + d.spends
    requires r.pushed.Keys == under.pushed.Keys + d.pushed.Keys
    requires forall a :: r.Pushed(a) == under.Pushed(a) + d.Pushed(a)
    ensures r == Merge(d, under).value
  {
    forall a | a in r.pushed
      ensures r.pushed[a] == Merge(d, under).value.pushed[a]
    {
      assert r.pushed[a] == r.Pushed(a);
    }
    assert r.pushed == Merge(d, under).value.pushed;
  }

  /** The global indexes of a ring, each added to the one before. */
  method GlobalIndexes(offsets: seq<u32>) returns (indexes: seq<nat>)
    requires offsets != []
    ensures indexes == AbsoluteIndexes(offsets)
  {
    indexes := [offsets[0]];
    for n := 1 to |offsets|
      invariant indexes == AbsoluteIndexes(offsets[..n])
    {
      assert offsets[..n + 1][..n] == offsets[..n];
      indexes := indexes + [(indexes[n - 1] + offsets[n]) % WORD32];
    }
    assert offsets[..|offsets|] == offsets;
  }

  lemma RingKeysNone(v: View, a: Amount, indexes: seq<nat>, h: Height, time: nat)
    ensures RingKeys(v, a, indexes[..0], h, time) == Done([])
  {
  }

  lemma RingKeysNext(v: View, a: Amount, indexes: seq<nat>, n: nat, h: Height, time: nat)
    requires n < |indexes| && RingKeys(v, a, indexes[..n], h, time).Done?
    ensures var keys, o := RingKeys(v, a, indexes[..n], h, time).value, ReadOutput(v, OutKey(a, indexes[n]));
            RingKeys(v, a, indexes[..n + 1], h, time)
            == if o.None? then Refused(InputInvalidGlobalIndex)
               else if SpendUnlocked(o.value.unlock, h, time) then Done(keys + [o.value.key]) else Refused(InputSpendLockedOut)
  {
    hide SpendUnlocked, ReadOutput;
    assert indexes[..n + 1][..n] == indexes[..n];
  }

  /** The loops over one ring: absolute indexes, then keys. */
  method ReadRing(v: View, i: Input, h: Height, time: nat, conflict0: Height) returns (r: Outcome<seq<PublicKey>>, conflict: Height)
    requires i.KeyInput? && i.offsets != []
    ensures r == RingKeys(v, i.amount, AbsoluteIndexes(i.offsets), h, time)
    ensures conflict == RingConflict(v, i.amount, AbsoluteIndexes(i.offsets), h, time, conflict0)
  {
    hide RingKeys, SpendUnlocked, RingConflict;
    var globalIndexes := GlobalIndexes(i.offsets);
    RingKeysNone(v, i.amount, globalIndexes, h, time);
    RingConflictNone(v, i.amount, globalIndexes, h, time, conflict0);
    var keys: seq<PublicKey> := [];
    conflict := conflict0;
    for n := 0 to |globalIndexes|
      invariant RingKeys(v, i.amount, globalIndexes[..n], h, time) == Done(keys)
      invariant conflict == RingConflict(v, i.amount, globalIndexes[..n], h, time, conflict0)
    {
      RingKeysNext(v, i.amount, globalIndexes, n, h, time);
      RingConflictNext(v, i.amount, globalIndexes, n, h, time, conflict0);
      var o := ReadOutput(v, OutKey(i.amount, globalIndexes[n]));
      conflict := if o.None? then MAX_BLOCK_HEIGHT else if conflict < o.value.height then o.value.height else conflict;
      if o.None? || !SpendUnlocked(o.value.unlock, h, time) {
        r := Refused(if o.None? then InputInvalidGlobalIndex else InputSpendLockedOut);
        RingKeysStop(v, i.amount, globalIndexes, n + 1, h, time);
        RingConflictStop(v, i.amount, globalIndexes, n + 1, h, time, conflict0);
        return;
      }
      keys := keys + [o.value.key];
    }
    assert globalIndexes[..|globalIndexes|] == globalIndexes;
    r := Done(keys);
  }

  lemma RingConflictNone(v: View, a: Amount, indexes: seq<nat>, h: Height, time: nat, c: Height)
    ensures RingConflict(v, a, indexes[..0], h, time, c) == c
  {
  }

  lemma RingConflictNext(v: View, a: Amount, indexes: seq<nat>, n: nat, h: Height, time: nat, c: Height)
    requires n < |indexes| && RingKeys(v, a, indexes[..n], h, time).Done?
    ensures var before, o := RingConflict(v, a, indexes[..n], h, time, c), ReadOutput(v, OutKey(a, indexes[n]));
            RingConflict(v, a, indexes[..n + 1], h, time, c)
            == if o.None? then MAX_BLOCK_HEIGHT else if before < o.value.height then o.value.height else before
  {
    hide ReadOutput, RingKeys;
    assert indexes[..n + 1][..n] == indexes[..n];
  }

  lemma {:induction false} RingConflictStop(v: View, a: Amount, indexes: seq<nat>, n: nat, h: Height, time: nat, c: Height)
    requires n <= |indexes| && RingKeys(v, a, indexes[..n], h, time).Refused?
    ensures RingConflict(v, a, indexes, h, time, c) == RingConflict(v, a, indexes[..n], h, time, c)
    decreases |indexes|
  {
    if n < |indexes| {
      var front := indexes[..|indexes| - 1];
      assert front[..n] == indexes[..n];
      RingKeysStop(v, a, front, n, h, time);
      RingConflictStop(v, a, front, n, h, time, c);
    } else {
      assert indexes[..n] == indexes;
    }
  }

  /** A refusal on a part of the ring is the refusal of the whole. */
  lemma {:induction false} RingKeysStop(v: View, a: Amount, indexes: seq<nat>, n: nat, h: Height, time: nat)
    requires n <= |indexes| && RingKeys(v, a, indexes[..n], h, time).Refused?
    ensures RingKeys(v, a, indexes, h, time) == RingKeys(v, a, indexes[..n], h, time)
    decreases |indexes|
  {
    if n < |indexes| {
      assert indexes[..|indexes| - 1][..n] == indexes[..n];
      RingKeysStop(v, a, indexes[..|indexes| - 1], n, h, time);
    } else {
      assert indexes[..n] == indexes;
    }
  }

  lemma {:induction false} RedoInputsStop(rules: Rules, check: bool, tx: Transaction, n: nat, m: nat, p: View, h: Height, time: nat)
    requires n <= m <= |tx.inputs| && !RedoInputs(rules, check, tx, n, p, h, time).Done?
    ensures RedoInputs(rules, check, tx, m, p, h, time) == RedoInputs(rules, check, tx, n, p, h, time)
    decreases m
  {
    if n < m {
      RedoInputsStop(rules, check, tx, n, m - 1, p, h, time);
    }
  }

  lemma {:induction false} TxConflictStop(rules: Rules, check: bool, tx: Transaction, n: nat, m: nat, p: View, h: Height, time: nat)
    requires n <= m <= |tx.inputs| && !RedoInputs(rules, check, tx, n, p, h, time).Done?
    ensures TxConflict(rules, check, tx, m, p, h, time) == TxConflict(rules, check, tx, n, p, h, time)
    decreases m
  {
    if n < m {
      RedoInputsStop(rules, check, tx, n, m - 1, p, h, time);
      TxConflictStop(rules, check, tx, n, m - 1, p, h, time);
    }
  }

  lemma {:induction false} RedoTxsStop(rules: Rules, check: bool, txs: seq<Transaction>, n: nat, pp: View, h: Height, time: nat)
    requires n <= |txs| && !RedoTxs(rules, check, txs[..n], pp, h, time).Done?
    ensures !RedoTxs(rules, check, txs, pp, h, time).Done?
    ensures RedoTxs(rules, check, txs, pp, h, time) == RedoTxs(rules, check, txs[..n], pp, h, time)
    decreases |txs|
  {
    if n < |txs| {
      assert txs[..|txs| - 1][..n] == txs[..n];
      RedoTxsStop(rules, check, txs[..|txs| - 1], n, pp, h, time);
    } else {
      assert txs[..n] == txs;
    }
  }

  /** What one input makes of conflict_height. */
  function NextConflict(check: bool, i: Input, v: View, h: Height, time: nat, c: Height): Height {
    if !check || i.Coinbase? then c else InputConflict(v, i, h, time, c)
  }

  method RedoInputInPlace(rules: Rules, check: bool, tx: Transaction, j: nat, txDelta: DeltaState, time: nat, conflict0: Height)
    returns (r: Outcome<()>, conflict: Height)
    requires txDelta.Valid() && j < |tx.inputs|
    modifies txDelta
    ensures txDelta.Valid()
    ensures var s := RedoInput(rules, check, tx, j, old(txDelta.D()), txDelta.parent, time);
            match s
            case Done(d) => r == Done(()) && txDelta.D() == d
            case Refused(e) => r == Refused(e)
            case Dead => r == Dead
    ensures conflict
            == NextConflict(check, tx.inputs[j], Over(old(txDelta.D()), txDelta.parent), txDelta.blockHeight, time, conflict0)
  {
    hide RingKeys, RingConflict, AbsoluteIndexes;
    var i := tx.inputs[j];
    conflict := conflict0;
    if i.Coinbase? {
      return Done(()), conflict;
    }
    if check {
      var v := Over(txDelta.D(), txDelta.parent);
      var spent := ReadKeyImage(v, i.keyImage);
      if spent.Some? {
        return Refused(InputKeyimageAlreadySpent), spent.value;
      }
      if i.offsets == [] {
        return Refused(InputUnknownType), conflict;
      }
      var keys;
      keys, conflict := ReadRing(v, i, txDelta.blockHeight, time, conflict);
      if !keys.Done? {
        return if keys.Refused? then Refused(keys.error) else Dead, conflict;
      }
      var verdict := rules.ring(tx, j, keys.value);
      if !verdict.SigOk? {
        return Refused(if verdict.SigCorrupted? then InputCorruptedSignatures else InputInvalidSignatures), conflict;
      }
    }
    if |i.offsets| == 1 {
      txDelta.SpendOutput(OutKey(i.amount, i.offsets[0]));
    }
    var ok := txDelta.StoreKeyimage(i.keyImage);
    return if ok then Done(()) else Dead, conflict;
  }

  method RedoInputsInPlace(rules: Rules, check: bool, tx: Transaction, txDelta: DeltaState, time: nat)
    returns (r: Outcome<()>, conflict: Height)
    requires txDelta.Valid() && txDelta.D() == EmptyDelta(txDelta.blockHeight)
    modifies txDelta
    ensures txDelta.Valid()
    ensures match RedoInputs(rules, check, tx, |tx.inputs|, txDelta.parent, txDelta.blockHeight, time)
            case Done(d) => r == Done(()) && txDelta.D() == d
            case Refused(e) => r == Refused(e)
            case Dead => r == Dead
    ensures conflict == TxConflict(rules, check, tx, |tx.inputs|, txDelta.parent, txDelta.blockHeight, time)
  {
    hide RedoInput, InputConflict;
    conflict := 0;
    for n := 0 to |tx.inputs|
      invariant txDelta.Valid()
      invariant RedoInputs(rules, check, tx, n, txDelta.parent, txDelta.blockHeight, time) == Done(txDelta.D())
      invariant conflict == TxConflict(rules, check, tx, n, txDelta.parent, txDelta.blockHeight, time)
    {
      r, conflict := RedoInputInPlace(rules, check, tx, n, txDelta, time, conflict);
      if !r.Done? {
        RedoInputsStop(rules, check, tx, n + 1, |tx.inputs|, txDelta.parent, txDelta.blockHeight, time);
        TxConflictStop(rules, check, tx, n + 1, |tx.inputs|, txDelta.parent, txDelta.blockHeight, time);
        return;
      }
    }
    r := Done(());
  }

  method RedoOutputsInPlace(tx: Transaction, txDelta: DeltaState) returns (indices: seq<nat>)
    requires txDelta.Valid()
    modifies txDelta
    ensures txDelta.Valid() && txDelta.D() == RedoOutputs(old(txDelta.D()), tx.outputs, tx.unlock)
    ensures indices == RedoIndices(old(txDelta.D()), txDelta.parent, tx.outputs, tx.unlock)
  {
    ghost var d := txDelta.D();
    indices := [];
    for n := 0 to |tx.outputs|
      invariant txDelta.Valid() && txDelta.D() == RedoOutputs(d, tx.outputs[..n], tx.unlock)
      invariant indices == RedoIndices(d, txDelta.parent, tx.outputs[..n], tx.unlock)
    {
      assert tx.outputs[..n + 1][..n] == tx.outputs[..n];
      var gi := txDelta.PushAmountOutput(tx.outputs[n].amount, tx.unlock, tx.outputs[n].key);
      indices := indices + [gi];
    }
    assert tx.outputs[..|tx.outputs|] == tx.outputs;
  }

  /** redo_transaction_get_error: the block's overlay changes only on success. */
  method RedoTransaction(rules: Rules, check: bool, tx: Transaction, delta: DeltaState, time: nat)
    returns (r: Outcome<seq<nat>>, conflict: Height)
    requires delta.Valid()
    modifies delta
    ensures delta.Valid()
    ensures match RedoTx(rules, check, tx, old(delta.D()), delta.parent, time)
            case Done((d, gi)) => r == Done(gi) && delta.D() == d
            case Refused(e) => r == Refused(e) && delta.D() == old(delta.D())
            case Dead => r == Dead
    ensures conflict
            == TxConflict(rules, check, tx, |tx.inputs|, Over(old(delta.D()), delta.parent), delta.blockHeight, time)
  {
    hide RedoInputs, RedoOutputs, RedoIndices, Merge, TxConflict;
    var txDelta := new DeltaState(delta.blockHeight, Over(delta.D(), delta.parent));
    var s;
    s, conflict := RedoInputsInPlace(rules, check, tx, txDelta, time);
    if !s.Done? {
      return if s.Refused? then Refused(s.error) else Dead, conflict;
    }
    var indices := RedoOutputsInPlace(tx, txDelta);
    var ok := txDelta.ApplyTo(delta);
    return if ok then Done(indices) else Dead, conflict;
  }

  method RedoTransactions(rules: Rules, check: bool, txs: seq<Transaction>, delta: DeltaState, time: nat) returns (r: Outcome<seq<seq<nat>>>)
    requires delta.Valid() && delta.D() == EmptyDelta(delta.blockHeight)
    modifies delta
    ensures delta.Valid()
    ensures match RedoTxs(rules, check, txs, delta.parent, delta.blockHeight, time)
            case Done((d, gis)) => r == Done(gis) && delta.D() == d
            case Refused(e) => r == Refused(e)
            case Dead => r == Dead
  {
    hide RedoTx;
    var gis: seq<seq<nat>> := [];
    for n := 0 to |txs|
      invariant delta.Valid()
      invariant RedoTxs(rules, check, txs[..n], delta.parent, delta.blockHeight, time) == Done((delta.D(), gis))
    {
      assert txs[..n + 1][..n] == txs[..n];
      var s, _ := RedoTransaction(rules, check, txs[n], delta, time);
      if !s.Done? {
        RedoTxsStop(rules, check, txs, n + 1, delta.parent, delta.blockHeight, time);
        return if s.Refused? then Refused(s.error) else Dead;
      }
      gis := gis + [s.value];
    }
    assert txs[..|txs|] == txs;
    return Done(gis);
  }

  /** redo_block on the database: a refused block changes nothing. */
  method RedoBlockInPlace(rules: Rules, db: ChainDb, base: Transaction, txs: seq<Transaction>, h: Height, time: nat, check: bool)
    returns (r: Outcome<seq<seq<nat>>>)
    requires db.Valid()
    modifies db
    ensures match RedoBlock(rules, old(db.ledger), base, txs, h, time, check)
            case Done(x) => r == Done(x.indices) && db.Valid() && db.ledger == x.ledger
            case Refused(e) => r == Refused(e) && db.Valid() && db.ledger == old(db.ledger)
            case Dead => r == Dead
  {
    hide RedoTxs, ApplyToLedger, StartWork;
    var l := Ledger(db.keyImages, db.outputs, CachedNext(db));
    var args: seq<RingArg> := [];
    if check {
      var w := StartWork(l, txs, h, time);
      if !w.Done? {
        return Refused(w.error);
      }
      args := w.value;
    }
    var delta := new DeltaState(h, Base(l));
    var s := RedoTransactions(rules, false, [base] + txs, delta, time);
    if !s.Done? {
      return if s.Refused? then Refused(s.error) else Dead;
    }
    if check && !SignaturesValid(rules, args) {
      return Refused(InputInvalidSignatures);
    }
    var ok := delta.ApplyToChain(db);
    return if ok then s else Dead;
  }

  /** Stack sizes as the cursor reads them, for a snapshot of the database. */
  function CachedNext(db: ChainDb): (r: map<Amount, nat>)
    requires db.Valid()
    reads db
    ensures r == db.ledger.next
  {
    var amounts := set k | k in db.outputs :: k.amount;
    var r := map a | a in amounts && LastIndex(db.outputs, a).Some? :: LastIndex(db.outputs, a).value + 1;
    SizesFromKeys(db.ledger, r);
    r
  }

  lemma SizesFromKeys(l: Ledger, r: map<Amount, nat>)
    requires l.Valid()
    requires forall a :: a in r <==> a in (set k | k in l.outs :: k.amount)
    requires forall a :: a in r ==> LastIndex(l.outs, a).Some? && r[a] == LastIndex(l.outs, a).value + 1
    ensures r == l.next
  {
    forall a
      ensures a in r <==> a in l.next
      ensures a in r ==> r[a] == l.next[a]
    {
      if a in l.next {
        assert OutKey(a, l.next[a] - 1) in l.outs;
      }
    }
  }
}
