// Everything a block changes in the database besides the header store: the
// ledger, global-index records, timestamp index and transaction index.
module ChainIndex {
  import opened Basics
  import opened ChainLedger
  import opened Overlay
  import opened Redo
  import opened BlockRedo
  import opened HeaderTree

  datatype Block = Block(hash: Hash, prev: Hash, timestamp: nat, base: Transaction, txs: seq<Transaction>)

  datatype TxPos = TxPos(height: Height, index: nat)

  datatype Stamp = Stamp(timestamp: nat, height: Height)

  datatype Indexed = Indexed(
    ledger: Ledger,
    gis: map<Hash, seq<seq<nat>>>,
    stamps: set<Stamp>,
    txs: map<Hash, TxPos>)

  const EMPTY_INDEXED := Indexed(EMPTY_LEDGER, map[], {}, map[])

  function AllTxs(b: Block): seq<Transaction> {
    [b.base] + b.txs
  }

  function TxIds(b: Block): seq<Hash> {
    seq(|b.txs| + 1, i requires 0 <= i < |b.txs| + 1 => AllTxs(b)[i].hash)
  }

  /** Putting over an existing key, like deleting a missing one, ends the run. */
  function PutTxs(m: map<Hash, TxPos>, ids: seq<Hash>, h: Height): Option<map<Hash, TxPos>> {
    if ids == [] then Some(m) else
    var n :- PutTxs(m, ids[..|ids| - 1], h);
    if ids[|ids| - 1] in n then None else Some(n[ids[|ids| - 1] := TxPos(h, |ids| - 1)])
  }

  function DelTxs(m: map<Hash, TxPos>, ids: seq<Hash>): Option<map<Hash, TxPos>> {
    if ids == [] then Some(m) else
    var n :- DelTxs(m, ids[..|ids| - 1]);
    if ids[|ids| - 1] !in n then None else Some(n - {ids[|ids| - 1]})
  }

  function PutIndexes(x: Indexed, l: Ledger, gis: seq<seq<nat>>, b: Block, h: Height): Option<Indexed> {
    if b.hash in x.gis || Stamp(b.timestamp, h) in x.stamps then None else
    var txs :- PutTxs(x.txs, TxIds(b), h);
    Some(Indexed(l, x.gis[b.hash := gis], x.stamps + {Stamp(b.timestamp, h)}, txs))
  }

  function RedoIndexed(rules: Rules, x: Indexed, b: Block, h: Height, check: bool): Outcome<Indexed> {
    var r :- RedoBlock(rules, x.ledger, b.base, b.txs, h, b.timestamp, check);
    match PutIndexes(x, r.ledger, r.indices, b, h)
    case None => Dead
    case Some(y) => Done(y)
  }

  function UndoIndexed(x: Indexed, b: Block, h: Height): Option<Indexed> {
    var l :- UndoTxs(x.ledger, AllTxs(b));
    if b.hash !in x.gis || Stamp(b.timestamp, h) !in x.stamps then None else
    var txs :- DelTxs(x.txs, TxIds(b));
    Some(Indexed(l, x.gis - {b.hash}, x.stamps - {Stamp(b.timestamp, h)}, txs))
  }

  /** The same change without overlays, checks or signatures. */
  function ExecIndexed(x: Indexed, b: Block, h: Height): Option<Indexed> {
    var l :- ExecTxs(x.ledger, AllTxs(b), h);
    PutIndexes(x, l, BlockIndices(x.ledger, AllTxs(b), h), b, h)
  }

  // ----- the transaction index is restored -----

  lemma {:induction false} PutTxsKeys(m: map<Hash, TxPos>, ids: seq<Hash>, h: Height)
    requires PutTxs(m, ids, h).Some?
    ensures var p := PutTxs(m, ids, h).value;
            && (forall i :: 0 <= i < |ids| ==> ids[i] !in m && ids[i] in p && p[ids[i]] == TxPos(h, i))
            && (forall i, j :: 0 <= i < j < |ids| ==> ids[i] != ids[j])
            && (forall k :: k in m ==> k in p && p[k] == m[k])
            && (forall k :: k in p ==> k in m || k in ids)
  {
    if ids != [] {
      PutTxsKeys(m, ids[..|ids| - 1], h);
    }
  }

  lemma {:induction false} DelTxsKeys(p: map<Hash, TxPos>, ids: seq<Hash>)
    requires forall i :: 0 <= i < |ids| ==> ids[i] in p
    requires forall i, j :: 0 <= i < j < |ids| ==> ids[i] != ids[j]
    ensures DelTxs(p, ids).Some?
    ensures forall k :: k in DelTxs(p, ids).value <==> k in p && k !in ids
    ensures forall k :: k in DelTxs(p, ids).value ==> DelTxs(p, ids).value[k] == p[k]
  {
    if ids != [] {
      DelTxsKeys(p, ids[..|ids| - 1]);
    }
  }

  lemma DelPutTxs(m: map<Hash, TxPos>, ids: seq<Hash>, h: Height)
    requires PutTxs(m, ids, h).Some?
    ensures DelTxs(PutTxs(m, ids, h).value, ids) == Some(m)
  {
    PutTxsKeys(m, ids, h);
    DelTxsKeys(PutTxs(m, ids, h).value, ids);
    assert DelTxs(PutTxs(m, ids, h).value, ids).value == m;
  }

  // ----- redo is direct execution, undo takes it back -----

  /** What a block needs of the state below it so that redo means direct
      execution and can be undone. */
  ghost predicate Honest(x: Indexed, b: Block, keyImageOf: PublicKey -> KeyImage) {
    CoinbaseOnly(b.base) && AllBound(x.ledger, b.txs, keyImageOf)
  }

  lemma {:induction false} BoundBelow(l: Ledger, txs: seq<Transaction>, keyImageOf: PublicKey -> KeyImage)
    requires AllBound(l, txs, keyImageOf)
    ensures BelowSet(SpentByTxs(txs), l)
  {
    forall k | k in SpentByTxs(txs)
      ensures k in l.outs
    {
      var t, j := SpentByTxsAt(txs, k);
      assert Bound(l, txs[t].inputs[j], keyImageOf);
    }
  }

  lemma BoundAll(l: Ledger, b: Block, keyImageOf: PublicKey -> KeyImage)
    requires CoinbaseOnly(b.base) && AllBound(l, b.txs, keyImageOf)
    ensures AllBound(l, AllTxs(b), keyImageOf)
  {
    forall t, j | 0 <= t < |AllTxs(b)| && 0 <= j < |AllTxs(b)[t].inputs|
      ensures Bound(l, AllTxs(b)[t].inputs[j], keyImageOf)
    {
      if t > 0 {
        assert Bound(l, b.txs[t - 1].inputs[j], keyImageOf);
      } else {
        assert b.base.inputs[j] in b.base.inputs;
      }
    }
  }

  lemma RedoIndexedRefines(rules: Rules, x: Indexed, b: Block, h: Height, check: bool, keyImageOf: PublicKey -> KeyImage)
    requires x.ledger.Valid() && CoinbaseOnly(b.base) && Sound(rules, keyImageOf)
    requires check || Honest(x, b, keyImageOf)
    ensures var r := RedoIndexed(rules, x, b, h, check);
            r.Done? ==> ExecIndexed(x, b, h) == Some(r.value) && Honest(x, b, keyImageOf)
  {
    if !check {
      BoundBelow(x.ledger, b.txs, keyImageOf);
    }
    RedoBlockRefines(rules, x.ledger, b.base, b.txs, h, b.timestamp, check);
    if check && RedoIndexed(rules, x, b, h, check).Done? {
      StartWorkBound(rules, x.ledger, b.txs, h, b.timestamp, keyImageOf);
    }
  }

  lemma ExecIndexedKeeps(x: Indexed, b: Block, h: Height, keyImageOf: PublicKey -> KeyImage)
    requires x.ledger.Valid() && SpentRecorded(x.ledger, keyImageOf) && Honest(x, b, keyImageOf)
    requires ExecIndexed(x, b, h).Some?
    ensures var y := ExecIndexed(x, b, h).value;
            y.ledger.Valid() && SpentRecorded(y.ledger, keyImageOf)
  {
    BoundAll(x.ledger, b, keyImageOf);
    ExecTxsValid(x.ledger, AllTxs(b), h);
    ExecSpentRecorded(x.ledger, AllTxs(b), h, keyImageOf);
  }

  /** undo_block exactly inverts redo_block, indexes included. */
  lemma UndoIndexedInverts(x: Indexed, b: Block, h: Height, keyImageOf: PublicKey -> KeyImage)
    requires x.ledger.Valid() && SpentRecorded(x.ledger, keyImageOf) && Honest(x, b, keyImageOf)
    requires ExecIndexed(x, b, h).Some?
    ensures UndoIndexed(ExecIndexed(x, b, h).value, b, h) == Some(x)
  {
    var y := ExecIndexed(x, b, h).value;
    BoundAll(x.ledger, b, keyImageOf);
    BoundNoneSpent(x.ledger, AllTxs(b), h, keyImageOf);
    UndoTxsExactlyInverts(x.ledger, AllTxs(b), h);
    DelPutTxs(x.txs, TxIds(b), h);
    assert y.gis - {b.hash} == x.gis;
    assert y.stamps - {Stamp(b.timestamp, h)} == x.stamps;
  }
}
