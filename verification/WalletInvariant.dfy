// The wallet ledger invariant and its preservation by every operation.
module WalletInvariant {
  import opened Basics
  import opened Int128
  import opened WalletTypes
  import opened WalletLedger

  // ----- the invariant, in parts -----

  /** The two unspent indexes match one to one. */
  ghost predicate Indexed(w: Wallet) {
    && (forall h :: h in w.unspent ==> w.unspent[h].Hag() == h)
    && (forall k :: k in w.unspentByAddress <==> k.hag in w.unspent && w.unspent[k.hag].address == k.address)
  }

  /** The lock indexes and the key-image lock index match. */
  ghost predicate Locks(w: Wallet) {
    && (forall k :: k in w.locked ==> LockKeyOf(w.locked[k]) == k && w.locked[k].unlock != 0)
    && (forall k :: k in w.locked && w.locked[k].keyImage != NO_KEY_IMAGE ==> KeyImageKeyOf(w.locked[k]) in w.lockedByKeyImage)
    && (forall q :: q in w.lockedByKeyImage ==> q.keyImage != NO_KEY_IMAGE && LockEntry(w, q))
  }

  ghost predicate LockEntry(w: Wallet, q: KeyImageKey) {
    var c := LockedCoin(w, q.keyImage, CoinId(q.amount, q.gi));
    c.Some? && KeyImageKeyOf(c.value) == q && c.value.unlock == w.lockedByKeyImage[q]
  }

  /** An amount and global index name one output, which is in one place. */
  ghost predicate Placed(w: Wallet, seen: set<CoinId>) {
    && (forall h :: h in w.unspent ==> CoinId(h.amount, h.gi) in seen)
    && (forall h, h' :: h in w.unspent && h' in w.unspent && h.amount == h'.amount && h.gi == h'.gi ==> h == h')
    && (forall k :: k in w.locked ==> CoinId(k.amount, k.gi) in seen)
    && (forall k, k' :: k in w.locked && k' in w.locked && k.amount == k'.amount && k.gi == k'.gi ==> k == k')
    && (forall u :: u in w.unlocked ==> CoinId(u.amount, u.gi) in seen)
    && (forall u, u' :: u in w.unlocked && u' in w.unlocked && u.amount == u'.amount && u.gi == u'.gi ==> u == u')
    && (forall h, k :: h in w.unspent && k in w.locked ==> CoinId(h.amount, h.gi) != CoinId(k.amount, k.gi))
    && (forall u, k :: u in w.unlocked && k in w.locked ==> CoinId(u.amount, u.gi) != CoinId(k.amount, k.gi))
    && (forall i :: i in w.byKeyImage ==> CoinId(w.byKeyImage[i].amount, w.byKeyImage[i].gi) in seen)
    && (forall i, k :: i in w.byKeyImage && k in w.locked ==>
          CoinId(w.byKeyImage[i].amount, w.byKeyImage[i].gi) != CoinId(k.amount, k.gi))
  }

  /** A key image has at most one unspent output, the one its entry points to. */
  ghost predicate Keyed(w: Wallet) {
    && NO_KEY_IMAGE !in w.byKeyImage
    && (forall i :: i in w.byKeyImage && w.byKeyImage[i] in w.unspent ==> w.unspent[w.byKeyImage[i]].keyImage == i)
    && (forall h :: h in w.unspent && w.unspent[h].keyImage != NO_KEY_IMAGE ==>
          w.unspent[h].keyImage in w.byKeyImage && w.byKeyImage[w.unspent[h].keyImage] == h)
  }

  /** A spent key image has no locked output left. */
  ghost predicate SpentUnlocked(w: Wallet) {
    forall q :: q in w.lockedByKeyImage ==> !Spent(w, q.keyImage)
  }

  /** The record of an unlocked output agrees with the unspent output it became. */
  ghost predicate Recent(w: Wallet) {
    && (forall u :: u in w.unlocked ==> w.unlocked[u].gi == u.gi)
    && (forall u, h :: u in w.unlocked && h in w.unspent && u.amount == h.amount && u.gi == h.gi ==>
          w.unlocked[u].height == h.height && w.unlocked[u].address == w.unspent[h].address
          && w.unlocked[u].keyImage == w.unspent[h].keyImage)
  }

  /** Every stored balance is the sum over the unspent and lock indexes. */
  ghost predicate Balanced(w: Wallet) {
    forall a :: BalanceIn(w.balances, a) == Expected(w.unspent, w.locked, a)
  }

  ghost predicate Inv(w: Wallet, seen: set<CoinId>) {
    && Indexed(w) && Locks(w) && Placed(w, seen) && Keyed(w) && SpentUnlocked(w) && Recent(w) && Balanced(w)
  }

  /** Nothing in the wallet has this amount and global index. */
  ghost predicate Free(w: Wallet, id: CoinId) {
    && (forall h :: h in w.unspent ==> CoinId(h.amount, h.gi) != id)
    && (forall k :: k in w.locked ==> CoinId(k.amount, k.gi) != id)
    && (forall u :: u in w.unlocked ==> CoinId(u.amount, u.gi) != id)
    && (forall i :: i in w.byKeyImage ==> CoinId(w.byKeyImage[i].amount, w.byKeyImage[i].gi) != id)
  }

  lemma FreshIsFree(w: Wallet, seen: set<CoinId>, id: CoinId)
    requires Placed(w, seen) && id !in seen
    ensures Free(w, id)
  {
  }

  // ----- balances -----

  /** modify_balance keeps every address right when the combined figures of the
      two records it writes are balances of indexes. */
  lemma ModifyKeepsBalances<K(!new), L(!new)>(w: Wallet, o: Coin, lockedOp: int, spendableOp: int, unspent: map<K, Coin>, locked: map<L, Coin>)
    requires forall a :: Expected(unspent, locked, a)
                         == if Matches(a, o) then CombineBalance(w.BalanceOf(a), o, lockedOp, spendableOp) else w.BalanceOf(a)
    ensures forall a :: BalanceIn(ModifyBalance(w, o, lockedOp, spendableOp).balances, a) == Expected(unspent, locked, a)
  {
    ExpectedNone(unspent, locked, o.address);
    ExpectedNone(unspent, locked, "");
    var b := CombineBalance(w.BalanceOf(o.address), o, lockedOp, spendableOp);
    var b2 := CombineBalance(w.BalanceOf(""), o, lockedOp, spendableOp);
    hide Expected, CombineBalance, Balance.Total, PutBalance;
    assert Matches(o.address, o) && Matches("", o);
    assert b == Expected(unspent, locked, o.address) && b2 == Expected(unspent, locked, "");
    forall a
      ensures BalanceIn(ModifyBalance(w, o, lockedOp, spendableOp).balances, a) == Expected(unspent, locked, a)
    {
      PutBalanceAt(w.balances, o.address, b, a);
      PutBalanceAt(PutBalance(w.balances, o.address, b), "", b2, a);
    }
  }

  lemma PutBalanceAt(m: map<Address, Balance>, a: Address, b: Balance, x: Address)
    requires b.Total() == ZERO && b.TotalOutputs() == 0 ==> b == NO_BALANCE
    ensures BalanceIn(PutBalance(m, a, b), x) == if x == a then b else BalanceIn(m, x)
  {
    hide Balance.Total, Balance.TotalOutputs;
  }

  lemma ExpectedNone<K(!new), L(!new)>(unspent: map<K, Coin>, locked: map<L, Coin>, a: Address)
    ensures var b := Expected(unspent, locked, a);
            b.Total() == ZERO && b.TotalOutputs() == 0 ==> b == NO_BALANCE
  {
    if Expected(unspent, locked, a).TotalOutputs() == 0 {
      ExpectedEmpty(unspent, locked, a);
    }
  }

  lemma UnspentAddBalanced(w: Wallet, o: Coin)
    requires Balanced(w) && o.Hag() !in w.unspent
    ensures forall a :: BalanceIn(ModifyBalance(w, o, 0, 1).balances, a) == Expected(w.unspent[o.Hag() := o], w.locked, a)
  {
    forall a {
      ExpectedUnspentAdd(w.unspent, w.locked, a, o.Hag(), o);
    }
    hide Expected, CombineBalance, ModifyBalance;
    ModifyKeepsBalances(w, o, 0, 1, w.unspent[o.Hag() := o], w.locked);
  }

  lemma UnspentRemoveBalanced(w: Wallet, o: Coin)
    requires Balanced(w) && o.Hag() in w.unspent && w.unspent[o.Hag()] == o
    ensures forall a :: BalanceIn(ModifyBalance(w, o, 0, -1).balances, a) == Expected(w.unspent - {o.Hag()}, w.locked, a)
  {
    forall a {
      ExpectedUnspentRemove(w.unspent, w.locked, a, o.Hag());
    }
    hide Expected, CombineBalance, ModifyBalance;
    ModifyKeepsBalances(w, o, 0, -1, w.unspent - {o.Hag()}, w.locked);
  }

  lemma LockedAddBalanced(w: Wallet, o: Coin)
    requires Balanced(w) && LockKeyOf(o) !in w.locked
    ensures forall a :: BalanceIn(ModifyBalance(w, o, 1, 0).balances, a) == Expected(w.unspent, w.locked[LockKeyOf(o) := o], a)
  {
    forall a {
      ExpectedLockedAdd(w.unspent, w.locked, a, LockKeyOf(o), o);
    }
    hide Expected, CombineBalance, ModifyBalance, LockKeyOf;
    ModifyKeepsBalances(w, o, 1, 0, w.unspent, w.locked[LockKeyOf(o) := o]);
  }

  lemma LockedRemoveBalanced(w: Wallet, o: Coin)
    requires Balanced(w) && LockKeyOf(o) in w.locked && w.locked[LockKeyOf(o)] == o
    ensures forall a :: BalanceIn(ModifyBalance(w, o, -1, 0).balances, a) == Expected(w.unspent, w.locked - {LockKeyOf(o)}, a)
  {
    forall a {
      ExpectedLockedRemove(w.unspent, w.locked, a, LockKeyOf(o));
    }
    hide Expected, CombineBalance, ModifyBalance, LockKeyOf;
    ModifyKeepsBalances(w, o, -1, 0, w.unspent, w.locked - {LockKeyOf(o)});
  }

  // ----- the four index changes -----

  /** All fields but balances and the two unspent indexes. */
  ghost predicate SameLocks(w: Wallet, m: Wallet) {
    m.byKeyImage == w.byKeyImage && m.unlocked == w.unlocked && m.lockedByKeyImage == w.lockedByKeyImage && m.locked == w.locked
  }

  /** All fields but balances and the lock indexes. */
  ghost predicate SameUnspent(w: Wallet, m: Wallet) {
    m.byKeyImage == w.byKeyImage && m.unlocked == w.unlocked && m.unspent == w.unspent && m.unspentByAddress == w.unspentByAddress
  }

  lemma AddToUnspentKeeps(w: Wallet, o: Coin)
    requires Indexed(w) && Balanced(w) && o.Hag() !in w.unspent
    ensures var r := AddToUnspent(w, o);
            r.Some? && Indexed(r.value) && Balanced(r.value) && r.value.unspent == w.unspent[o.Hag() := o] && SameLocks(w, r.value)
  {
    AddToUnspentIs(w, o);
    UnspentAddBalanced(w, o);
    hide Expected, ModifyBalance, AddToUnspent, Indexed, SameLocks;
  }

  lemma AddToUnspentIs(w: Wallet, o: Coin)
    requires Indexed(w) && o.Hag() !in w.unspent
    ensures var r := AddToUnspent(w, o);
            && r.Some? && Indexed(r.value) && SameLocks(w, r.value)
            && r.value.unspent == w.unspent[o.Hag() := o] && r.value.locked == w.locked
            && r.value.balances == ModifyBalance(w, o, 0, 1).balances
  {
    hide CombineBalance, PutBalance;
  }

  lemma RemoveFromUnspentKeeps(w: Wallet, o: Coin)
    requires Indexed(w) && Balanced(w) && o.Hag() in w.unspent && w.unspent[o.Hag()] == o
    ensures var r := RemoveFromUnspent(w, o);
            r.Some? && Indexed(r.value) && Balanced(r.value) && r.value.unspent == w.unspent - {o.Hag()} && SameLocks(w, r.value)
  {
    UnspentRemoveBalanced(w, o);
    hide Expected, CombineBalance, PutBalance;
    assert AddressKey(o.address, o.Hag()) in w.unspentByAddress;
  }

  lemma LocksAdd(w: Wallet, m: Wallet, o: Coin)
    requires Locks(w) && LockKeyOf(o) !in w.locked && o.unlock != 0
    requires forall k :: k in w.locked ==> CoinId(k.amount, k.gi) != o.Pair()
    requires m.locked == w.locked[LockKeyOf(o) := o]
    requires m.lockedByKeyImage ==
             if o.keyImage == NO_KEY_IMAGE then w.lockedByKeyImage else w.lockedByKeyImage[KeyImageKeyOf(o) := o.unlock]
    ensures Locks(m) && KeyImageKeyOf(o) !in w.lockedByKeyImage
  {
    forall q | q in w.lockedByKeyImage
      ensures CoinId(q.amount, q.gi) != o.Pair()
    {
      assert LockEntry(w, q);
    }
    forall q | q in m.lockedByKeyImage
      ensures q.keyImage != NO_KEY_IMAGE && LockEntry(m, q)
    {
      if q in w.lockedByKeyImage {
        assert LockEntry(w, q);
      }
    }
  }

  lemma LocksRemove(w: Wallet, m: Wallet, o: Coin)
    requires Locks(w) && LockKeyOf(o) in w.locked && w.locked[LockKeyOf(o)] == o
    requires forall k :: k in w.locked && CoinId(k.amount, k.gi) == o.Pair() ==> k == LockKeyOf(o)
    requires m.locked == w.locked - {LockKeyOf(o)}
    requires m.lockedByKeyImage ==
             if o.keyImage == NO_KEY_IMAGE then w.lockedByKeyImage else w.lockedByKeyImage - {KeyImageKeyOf(o)}
    ensures Locks(m) && (o.keyImage != NO_KEY_IMAGE ==> KeyImageKeyOf(o) in w.lockedByKeyImage)
  {
    forall q | q in m.lockedByKeyImage
      ensures q.keyImage != NO_KEY_IMAGE && LockEntry(m, q)
    {
      assert LockEntry(w, q);
    }
    forall k | k in m.locked && m.locked[k].keyImage != NO_KEY_IMAGE
      ensures KeyImageKeyOf(m.locked[k]) in m.lockedByKeyImage
    {
      assert CoinId(k.amount, k.gi) != o.Pair();
    }
  }

  lemma AddToLockKeeps(w: Wallet, o: Coin)
    requires Locks(w) && Balanced(w) && LockKeyOf(o) !in w.locked && o.unlock != 0
    requires forall k :: k in w.locked ==> CoinId(k.amount, k.gi) != o.Pair()
    ensures var r := AddToLock(w, o);
            r.Some? && Locks(r.value) && Balanced(r.value) && r.value.locked == w.locked[LockKeyOf(o) := o] && SameUnspent(w, r.value)
            && r.value.lockedByKeyImage.Keys == w.lockedByKeyImage.Keys + (if o.keyImage == NO_KEY_IMAGE then {} else {KeyImageKeyOf(o)})
  {
    var m := w.(locked := w.locked[LockKeyOf(o) := o],
                lockedByKeyImage := if o.keyImage == NO_KEY_IMAGE then w.lockedByKeyImage else w.lockedByKeyImage[KeyImageKeyOf(o) := o.unlock]);
    LocksAdd(w, m, o);
    LockedAddBalanced(w, o);
    hide Expected, CombineBalance, PutBalance, LockEntry, LockKeyOf, KeyImageKeyOf;
    LocksSame(m, AddToLock(w, o).value);
  }

  lemma LocksSame(w: Wallet, m: Wallet)
    requires Locks(w) && m.locked == w.locked && m.lockedByKeyImage == w.lockedByKeyImage
    ensures Locks(m)
  {
    forall q | q in m.lockedByKeyImage
      ensures LockEntry(m, q)
    {
      assert LockEntry(w, q);
    }
  }

  lemma RemoveFromLockKeeps(w: Wallet, o: Coin)
    requires Locks(w) && Balanced(w) && LockKeyOf(o) in w.locked && w.locked[LockKeyOf(o)] == o
    requires forall k :: k in w.locked && CoinId(k.amount, k.gi) == o.Pair() ==> k == LockKeyOf(o)
    ensures var r := RemoveFromLock(w, o);
            r.Some? && Locks(r.value) && Balanced(r.value) && r.value.locked == w.locked - {LockKeyOf(o)} && SameUnspent(w, r.value)
            && r.value.lockedByKeyImage.Keys == w.lockedByKeyImage.Keys - (if o.keyImage == NO_KEY_IMAGE then {} else {KeyImageKeyOf(o)})
  {
    var m := w.(locked := w.locked - {LockKeyOf(o)},
                lockedByKeyImage := if o.keyImage == NO_KEY_IMAGE then w.lockedByKeyImage else w.lockedByKeyImage - {KeyImageKeyOf(o)});
    LocksRemove(w, m, o);
    LockedRemoveBalanced(w, o);
    hide Expected, CombineBalance, PutBalance, LockEntry, LockKeyOf, KeyImageKeyOf;
    LocksSame(m, RemoveFromLock(w, o).value);
  }

  // ----- one output arriving -----

  /** The unspent index once `o` came in, possibly displacing `existing`. */
  ghost function Displaced(w: Wallet, o: Coin, existing: Option<Coin>): map<HeightAmountGi, Coin> {
    (if existing.Some? then w.unspent - {existing.value.Hag()} else w.unspent)[o.Hag() := o]
  }

  ghost predicate CameIn(w: Wallet, m: Wallet, o: Coin, existing: Option<Coin>) {
    && existing == UnspentOf(w, o.keyImage) && !Spent(w, o.keyImage)
    && m.unspent == Displaced(w, o, existing)
    && m.byKeyImage == (if o.keyImage == NO_KEY_IMAGE then w.byKeyImage else w.byKeyImage[o.keyImage := o.Hag()])
    && m.unlocked == w.unlocked && m.lockedByKeyImage == w.lockedByKeyImage && m.locked == w.locked
  }

  lemma CameInPlaced(w: Wallet, m: Wallet, o: Coin, existing: Option<Coin>, seen: set<CoinId>)
    requires CameIn(w, m, o, existing) && Placed(w, seen) && Free(w, o.Pair())
    ensures Placed(m, seen + {o.Pair()})
  {
  }

  lemma CameInKeyed(w: Wallet, m: Wallet, o: Coin, existing: Option<Coin>)
    requires CameIn(w, m, o, existing) && Indexed(w) && Keyed(w) && Free(w, o.Pair())
    ensures Keyed(m)
  {
    assert forall i :: i in w.byKeyImage ==> w.byKeyImage[i] != o.Hag();
    if existing.Some? {
      assert existing.value.Hag() == w.byKeyImage[o.keyImage];
    }
  }

  lemma CameInSpentUnlocked(w: Wallet, m: Wallet, o: Coin, existing: Option<Coin>)
    requires CameIn(w, m, o, existing) && Indexed(w) && Keyed(w) && SpentUnlocked(w) && Free(w, o.Pair())
    ensures SpentUnlocked(m)
  {
    if existing.Some? {
      assert existing.value.Hag() == w.byKeyImage[o.keyImage];
    }
    forall q | q in m.lockedByKeyImage
      ensures !Spent(m, q.keyImage)
    {
      assert !Spent(w, q.keyImage);
    }
  }

  lemma CameInRecent(w: Wallet, m: Wallet, o: Coin, existing: Option<Coin>)
    requires CameIn(w, m, o, existing) && Recent(w) && Free(w, o.Pair())
    ensures Recent(m)
  {
  }

  /** add_incoming_output when it reaches the unspent index. */
  lemma ComeIn(w: Wallet, o: Coin, justUnlocked: bool, seen: set<CoinId>)
    requires Inv(w, seen) && Free(w, o.Pair())
    requires o.unlock == 0 || justUnlocked
    ensures var r := AddIncomingOutput(w, o, justUnlocked);
            && r.Some? && Inv(r.value.wallet, seen + {o.Pair()})
            && r.value.wallet.locked == w.locked && r.value.wallet.lockedByKeyImage == w.lockedByKeyImage
            && r.value.wallet.unlocked == w.unlocked
            && (CameIn(w, r.value.wallet, o, UnspentOf(w, o.keyImage)) || r.value.wallet == w)
  {
    var existing := UnspentOf(w, o.keyImage);
    PlacedMore(w, seen, o.Pair());
    hide Locks, LockEntry, Balanced, Placed, Keyed, SpentUnlocked, Recent, Indexed, Free, CameIn;
    if Enters(w, o) {
      ComeInIndexes(w, o, existing);
      ComeInIs(w, o, justUnlocked);
      hide AddIncomingOutput, AddToUnspent, Removed, Pointed, Enters, UnspentOf, Spent;
      var m := Pointed(AddToUnspent(Removed(w, existing).value, o).value, o);
      CameInPlaced(w, m, o, existing, seen);
      CameInKeyed(w, m, o, existing);
      CameInSpentUnlocked(w, m, o, existing);
      CameInRecent(w, m, o, existing);
      CameInLocks(w, m, o, existing);
    }
  }

  /** The output goes into the unspent index: its key image is not spent, and of
      the output that had it before it is the larger one at the same address. */
  predicate Enters(w: Wallet, o: Coin) {
    var existing := UnspentOf(w, o.keyImage);
    && !Spent(w, o.keyImage)
    && !(existing.Some? && (o.amount <= w.byKeyImage[o.keyImage].amount || o.address != existing.value.address))
  }

  lemma ComeInIs(w: Wallet, o: Coin, justUnlocked: bool)
    requires Enters(w, o) && (o.unlock == 0 || justUnlocked)
    requires var p := Removed(w, UnspentOf(w, o.keyImage)); p.Some? && AddToUnspent(p.value, o).Some?
    ensures var p := Removed(w, UnspentOf(w, o.keyImage));
            var r := AddIncomingOutput(w, o, justUnlocked);
            r.Some? && r.value.wallet == Pointed(AddToUnspent(p.value, o).value, o)
  {
    hide AddToUnspent, RemoveFromUnspent, Spent;
  }

  lemma CameInLocks(w: Wallet, m: Wallet, o: Coin, existing: Option<Coin>)
    requires CameIn(w, m, o, existing)
    ensures m.locked == w.locked && m.lockedByKeyImage == w.lockedByKeyImage && m.unlocked == w.unlocked
  {
  }

  lemma PlacedMore(w: Wallet, seen: set<CoinId>, id: CoinId)
    requires Placed(w, seen)
    ensures Placed(w, seen + {id})
  {
  }

  /** The output displaced, if any, leaves the unspent index. */
  function Removed(w: Wallet, existing: Option<Coin>): Option<Wallet> {
    if existing.Some? then RemoveFromUnspent(w, existing.value) else Some(w)
  }

  lemma RemovedKeeps(w: Wallet, o: Coin, existing: Option<Coin>)
    requires Indexed(w) && Balanced(w) && Free(w, o.Pair()) && existing == UnspentOf(w, o.keyImage)
    ensures var p := Removed(w, existing);
            && p.Some? && Indexed(p.value) && Balanced(p.value) && SameLocks(w, p.value)
            && p.value.unspent == (if existing.Some? then w.unspent - {existing.value.Hag()} else w.unspent)
            && o.Hag() !in p.value.unspent
  {
    assert o.Hag() !in w.unspent by {
      assert o.Hag() in w.unspent ==> CoinId(o.Hag().amount, o.Hag().gi) != o.Pair();
    }
    hide RemoveFromUnspent, Balanced, Free;
    if existing.Some? {
      RemoveFromUnspentKeeps(w, existing.value);
    }
  }

  /** The key-image entry written after an arrival. */
  function Pointed(w: Wallet, o: Coin): Wallet {
    if o.keyImage == NO_KEY_IMAGE then w else w.(byKeyImage := w.byKeyImage[o.keyImage := o.Hag()])
  }

  lemma PointedKeeps(w: Wallet, o: Coin)
    requires Indexed(w) && Balanced(w) && Locks(w)
    ensures Indexed(Pointed(w, o)) && Balanced(Pointed(w, o)) && Locks(Pointed(w, o))
  {
    LocksSame(w, Pointed(w, o));
    hide Locks, Balanced;
    BalancedSame(w, Pointed(w, o));
  }

  lemma ComeInIndexes(w: Wallet, o: Coin, existing: Option<Coin>)
    requires Indexed(w) && Balanced(w) && Locks(w) && Free(w, o.Pair())
    requires existing == UnspentOf(w, o.keyImage) && !Spent(w, o.keyImage)
    ensures var p := Removed(w, existing);
            && p.Some? && AddToUnspent(p.value, o).Some?
            && var m := Pointed(AddToUnspent(p.value, o).value, o);
               Indexed(m) && Balanced(m) && Locks(m) && CameIn(w, m, o, existing)
  {
    RemovedKeeps(w, o, existing);
    hide Removed, AddToUnspent, Balanced, Locks, Indexed, Free;
    var p := Removed(w, existing).value;
    AddToUnspentKeeps(p, o);
    var n := AddToUnspent(p, o).value;
    LocksSame(w, n);
    PointedKeeps(n, o);
  }

  lemma BalancedSame(w: Wallet, m: Wallet)
    requires Balanced(w) && m.balances == w.balances && m.unspent == w.unspent && m.locked == w.locked
    ensures Balanced(m)
  {
  }
}
