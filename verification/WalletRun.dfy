// Whole operations and whole runs: the ledger invariant is kept, no database
// error can end a run, and the predictors foretell what the operations do.
module WalletRun {
  import opened Basics
  import opened WalletTypes
  import opened WalletLedger
  import opened WalletInvariant
  import Int128

  /** An output that is not unlocked yet goes to the lock index. */
  lemma GoIntoLock(w: Wallet, o: Coin, seen: set<CoinId>)
    requires Inv(w, seen) && Free(w, o.Pair()) && o.unlock != 0 && !Spent(w, o.keyImage)
    ensures var r := AddToLock(w, o); r.Some? && Inv(r.value, seen + {o.Pair()})
  {
    AddToLockKeeps(w, o);
    hide AddToLock;
    var m := AddToLock(w, o).value;
    LockPlaced(w, m, o, seen);
    hide Locks, Balanced;
    IndexedSame(w, m);
  }

  lemma LockPlaced(w: Wallet, m: Wallet, o: Coin, seen: set<CoinId>)
    requires Placed(w, seen) && Free(w, o.Pair()) && SameUnspent(w, m) && m.locked == w.locked[LockKeyOf(o) := o]
    ensures Placed(m, seen + {o.Pair()})
  {
    assert CoinId(LockKeyOf(o).amount, LockKeyOf(o).gi) == o.Pair();
    hide LockKeyOf;
  }

  lemma IndexedSame(w: Wallet, m: Wallet)
    requires SameUnspent(w, m) && Indexed(w) && Keyed(w) && Recent(w)
    ensures Indexed(m) && Keyed(m) && Recent(m)
  {
  }

  /** add_incoming_output of a new output never fails and keeps the ledger. */
  lemma AddIncomingKeeps(w: Wallet, o: Coin, seen: set<CoinId>)
    requires Inv(w, seen) && o.Pair() !in seen
    ensures var r := AddIncomingOutput(w, o, false); r.Some? && Inv(r.value.wallet, seen + {o.Pair()})
  {
    FreshIsFree(w, seen, o.Pair());
    PlacedMore(w, seen, o.Pair());
    if Spent(w, o.keyImage) {
    } else if o.unlock != 0 {
      GoIntoLock(w, o, seen);
    } else {
      ComeIn(w, o, false, seen);
    }
  }

  // ----- unlocking -----

  ghost predicate IsLocked(w: Wallet, o: Coin) {
    LockKeyOf(o) in w.locked && w.locked[LockKeyOf(o)] == o
  }

  lemma TakePlaced(w: Wallet, m: Wallet, o: Coin, seen: set<CoinId>)
    requires Placed(w, seen) && IsLocked(w, o) && SameUnspent(w, m) && m.locked == w.locked - {LockKeyOf(o)}
    ensures Placed(m, seen) && Free(m, o.Pair()) && o.Pair() in seen
  {
    assert CoinId(LockKeyOf(o).amount, LockKeyOf(o).gi) == o.Pair();
    hide LockKeyOf;
  }

  lemma LockKeyUnique(w: Wallet, o: Coin, seen: set<CoinId>)
    requires Placed(w, seen) && IsLocked(w, o)
    ensures forall k :: k in w.locked && CoinId(k.amount, k.gi) == o.Pair() ==> k == LockKeyOf(o)
  {
    assert CoinId(LockKeyOf(o).amount, LockKeyOf(o).gi) == o.Pair();
    hide LockKeyOf;
  }

  lemma FewerLocked(w: Wallet, m: Wallet)
    requires SpentUnlocked(w) && SameUnspent(w, m) && m.lockedByKeyImage.Keys <= w.lockedByKeyImage.Keys
    ensures SpentUnlocked(m)
  {
    forall q | q in m.lockedByKeyImage
      ensures !Spent(m, q.keyImage)
    {
      assert q in w.lockedByKeyImage;
    }
  }

  /** Taking an output out of the lock index frees its amount and global index. */
  lemma TakeFromLock(w: Wallet, o: Coin, seen: set<CoinId>)
    requires Inv(w, seen) && IsLocked(w, o)
    ensures var r := RemoveFromLock(w, o);
            && r.Some? && Inv(r.value, seen) && Free(r.value, o.Pair()) && SameUnspent(w, r.value)
            && r.value.locked == w.locked - {LockKeyOf(o)} && o.Pair() in seen
  {
    LockKeyUnique(w, o, seen);
    RemoveFromLockKeeps(w, o);
    hide RemoveFromLock, Locks, Balanced, Placed, Free, Indexed, Keyed, Recent, SpentUnlocked;
    var m := RemoveFromLock(w, o).value;
    IndexedSame(w, m);
    TakePlaced(w, m, o, seen);
    FewerLocked(w, m);
  }

  ghost predicate JustUnlocked(w: Wallet, m: Wallet, o: Coin) {
    && m.locked == w.locked - {LockKeyOf(o)}
    && (if Spent(w, o.keyImage) then UnspentOf(m, o.keyImage).None?
        else !Spent(m, o.keyImage) && (o.keyImage != NO_KEY_IMAGE ==> UnspentOf(m, o.keyImage) == Better(UnspentOf(w, o.keyImage), o)))
  }

  lemma SpentSame(w: Wallet, m: Wallet, ki: KeyImage)
    requires m.byKeyImage == w.byKeyImage && m.unspent == w.unspent
    ensures Spent(m, ki) == Spent(w, ki) && UnspentOf(m, ki) == UnspentOf(w, ki)
  {
  }

  /** What one arrival does to the key image's candidate. */
  lemma ComeInCandidate(w: Wallet, o: Coin, seen: set<CoinId>)
    requires Inv(w, seen) && Free(w, o.Pair())
    requires AddIncomingOutput(w, o, true).Some?
    ensures var m := AddIncomingOutput(w, o, true).value.wallet;
            if Spent(w, o.keyImage) then m == w
            else !Spent(m, o.keyImage)
                 && (o.keyImage != NO_KEY_IMAGE ==> UnspentOf(m, o.keyImage) == Better(UnspentOf(w, o.keyImage), o))
  {
    hide Locks, Balanced, Placed, SpentUnlocked, Recent, Free, AddToUnspent, RemoveFromUnspent;
    ComeIn(w, o, true, seen);
    var m := AddIncomingOutput(w, o, true).value.wallet;
    assert NO_KEY_IMAGE !in m.byKeyImage;
    if UnspentOf(w, o.keyImage).Some? {
      assert UnspentOf(w, o.keyImage).value.Hag() == w.byKeyImage[o.keyImage];
    }
  }

  /** The first two steps of unlock: out of the lock index, in as a new output. */
  lemma UnlockArrives(w: Wallet, o: Coin, seen: set<CoinId>)
    requires Inv(w, seen) && IsLocked(w, o)
    ensures RemoveFromLock(w, o).Some?
    ensures var m := RemoveFromLock(w, o).value;
            var r := AddIncomingOutput(m, o, true);
            && r.Some? && Inv(r.value.wallet, seen) && o.Pair() in seen && Free(m, o.Pair())
            && r.value.wallet.unlocked == m.unlocked && r.value.wallet.locked == m.locked == w.locked - {LockKeyOf(o)}
            && (CameIn(m, r.value.wallet, o, UnspentOf(m, o.keyImage)) || r.value.wallet == m)
            && JustUnlocked(w, r.value.wallet, o)
  {
    hide Indexed, Locks, Placed, Keyed, SpentUnlocked, Recent, Balanced;
    TakeFromLock(w, o, seen);
    var m := RemoveFromLock(w, o).value;
    assert seen + {o.Pair()} == seen;
    ComeIn(m, o, true, seen);
    ComeInCandidate(m, o, seen);
    SpentSame(w, m, o.keyImage);
    hide RemoveFromLock, AddIncomingOutput, Inv, Better, Free, CameIn;
  }

  function Recorded(c: Change, now: Height, o: Coin): Wallet {
    c.wallet.(unlocked := c.wallet.unlocked[UnlockKey(now, o.amount, o.gi) := o.(amount := c.amount)])
  }

  lemma UnlockCoinIs(w: Wallet, now: Height, o: Coin, m: Wallet, c: Change)
    requires RemoveFromLock(w, o) == Some(m) && AddIncomingOutput(m, o, true) == Some(c)
    requires UnlockKey(now, o.amount, o.gi) !in c.wallet.unlocked
    ensures UnlockCoin(w, now, o) == Some(Recorded(c, now, o))
  {
    hide RemoveFromLock, AddIncomingOutput;
  }

  /** unlock of one output. */
  lemma UnlockCoinKeeps(w: Wallet, now: Height, o: Coin, seen: set<CoinId>)
    requires Inv(w, seen) && IsLocked(w, o)
    ensures var r := UnlockCoin(w, now, o);
            r.Some? && Inv(r.value, seen) && JustUnlocked(w, r.value, o)
  {
    UnlockArrives(w, o, seen);
    hide RemoveFromLock, AddIncomingOutput, UnlockCoin, Inv, Better, Free, CameIn, IsLocked, Spent, UnspentOf, LockKeyOf;
    var m := RemoveFromLock(w, o).value;
    var c := AddIncomingOutput(m, o, true).value;
    RecordUnlocked(m, c.wallet, Recorded(c, now, o), UnlockKey(now, o.amount, o.gi), o, c.amount, seen);
    UnlockCoinIs(w, now, o, m, c);
    SpentSame(c.wallet, Recorded(c, now, o), o.keyImage);
  }

  lemma RecordPlaced(m: Wallet, w: Wallet, x: Wallet, u: UnlockKey, o: Coin, amount: Amount, seen: set<CoinId>)
    requires Free(m, o.Pair()) && w.locked == m.locked && w.unlocked == m.unlocked
    requires u.amount == o.amount && u.gi == o.gi && o.Pair() in seen
    requires x == w.(unlocked := w.unlocked[u := o.(amount := amount)]) && Placed(w, seen)
    ensures Placed(x, seen) && u !in w.unlocked
  {
    assert forall v :: v in w.unlocked ==> CoinId(v.amount, v.gi) != o.Pair();
  }

  lemma RecordRecent(m: Wallet, w: Wallet, x: Wallet, u: UnlockKey, o: Coin, amount: Amount)
    requires Free(m, o.Pair())
    requires CameIn(m, w, o, UnspentOf(m, o.keyImage)) || w == m
    requires u.amount == o.amount && u.gi == o.gi
    requires x == w.(unlocked := w.unlocked[u := o.(amount := amount)]) && Recent(w)
    ensures Recent(x)
  {
    hide Spent, UnspentOf;
    forall h | h in w.unspent && h.amount == o.amount && h.gi == o.gi
      ensures h == o.Hag() && w.unspent[h] == o
    {
      assert CoinId(h.amount, h.gi) == o.Pair();
      assert h !in m.unspent;
    }
  }

  lemma RecordRest(w: Wallet, x: Wallet)
    requires SpentUnlocked(w) && Indexed(w) && Keyed(w) && Locks(w) && Balanced(w)
    requires x == w.(unlocked := x.unlocked)
    ensures SpentUnlocked(x) && Indexed(x) && Keyed(x) && Locks(x) && Balanced(x)
  {
    LocksSame(w, x);
    hide Locks, Balanced;
    BalancedSame(w, x);
    assert forall q :: q in w.lockedByKeyImage ==> !Spent(w, q.keyImage);
  }

  lemma RecordUnlocked(m: Wallet, w: Wallet, x: Wallet, u: UnlockKey, o: Coin, amount: Amount, seen: set<CoinId>)
    requires Free(m, o.Pair()) && w.locked == m.locked && w.unlocked == m.unlocked
    requires CameIn(m, w, o, UnspentOf(m, o.keyImage)) || w == m
    requires u.amount == o.amount && u.gi == o.gi && o.Pair() in seen
    requires x == w.(unlocked := w.unlocked[u := o.(amount := amount)])
    requires Inv(w, seen)
    ensures Inv(x, seen) && u !in w.unlocked
  {
    hide Placed, Recent, Free, CameIn, SpentUnlocked, Indexed, Keyed, Locks, Balanced;
    RecordPlaced(m, w, x, u, o, amount, seen);
    RecordRecent(m, w, x, u, o, amount);
    RecordRest(w, x);
  }

  // ----- unlocking several -----

  ghost predicate AllLocked(w: Wallet, coins: seq<Coin>) {
    && (forall i :: 0 <= i < |coins| ==> IsLocked(w, coins[i]))
    && (forall i, j :: 0 <= i < j < |coins| ==> LockKeyOf(coins[i]) != LockKeyOf(coins[j]))
  }

  ghost predicate LockedLess(w: Wallet, m: Wallet, coins: seq<Coin>) {
    && (forall k :: k in m.locked <==> k in w.locked && forall i :: 0 <= i < |coins| ==> k != LockKeyOf(coins[i]))
    && (forall k :: k in m.locked ==> m.locked[k] == w.locked[k])
  }

  lemma StillLocked(w: Wallet, m: Wallet, coins: seq<Coin>)
    requires coins != [] && AllLocked(w, coins) && LockedLess(w, m, coins[..|coins| - 1])
    ensures IsLocked(m, coins[|coins| - 1]) && AllLocked(w, coins[..|coins| - 1])
  {
    hide LockKeyOf;
    var n := |coins| - 1;
    assert IsLocked(w, coins[n]);
    assert forall i :: 0 <= i < n ==> LockKeyOf(coins[i]) != LockKeyOf(coins[n]);
    assert forall i :: 0 <= i < n ==> coins[..n][i] == coins[i] && IsLocked(w, coins[i]);
  }

  lemma LockedLessNext(w: Wallet, m: Wallet, x: Wallet, coins: seq<Coin>)
    requires coins != [] && LockedLess(w, m, coins[..|coins| - 1]) && x.locked == m.locked - {LockKeyOf(coins[|coins| - 1])}
    ensures LockedLess(w, x, coins)
  {
    hide LockKeyOf;
    var front := coins[..|coins| - 1];
    forall k
      ensures k in x.locked <==> k in w.locked && forall i :: 0 <= i < |coins| ==> k != LockKeyOf(coins[i])
    {
      if k in x.locked {
        forall i | 0 <= i < |coins|
          ensures k != LockKeyOf(coins[i])
        {
          if i < |front| {
            assert front[i] == coins[i];
          }
        }
      } else if k in w.locked && k !in m.locked {
        var i :| 0 <= i < |front| && k == LockKeyOf(front[i]);
        assert coins[i] == front[i];
      }
    }
  }

  lemma {:induction false} UnlockCoinsKeeps(w: Wallet, now: Height, coins: seq<Coin>, seen: set<CoinId>)
    requires Inv(w, seen) && AllLocked(w, coins)
    ensures var r := UnlockCoins(w, now, coins);
            r.Some? && Inv(r.value, seen) && LockedLess(w, r.value, coins)
  {
    if coins != [] {
      var front, o := coins[..|coins| - 1], coins[|coins| - 1];
      assert AllLocked(w, front);
      hide Inv, LockKeyOf, UnlockCoin, AllLocked, LockedLess, Spent, UnspentOf, Better, IsLocked;
      UnlockCoinsKeeps(w, now, front, seen);
      var m := UnlockCoins(w, now, front).value;
      StillLocked(w, m, coins);
      UnlockCoinKeeps(m, now, o, seen);
      LockedLessNext(w, m, UnlockCoin(m, now, o).value, coins);
    }
  }

  lemma UnlockBestStep(m: Wallet, now: Height, o: Coin, ki: KeyImage, seen: set<CoinId>)
    requires Inv(m, seen) && IsLocked(m, o) && o.keyImage == ki != NO_KEY_IMAGE && !Spent(m, ki)
    ensures var r := UnlockCoin(m, now, o);
            r.Some? && !Spent(r.value, ki) && UnspentOf(r.value, ki) == Better(UnspentOf(m, ki), o)
  {
    hide Inv, LockKeyOf, UnlockCoin, Better, UnspentOf, Spent, IsLocked;
    UnlockCoinKeeps(m, now, o, seen);
  }

  /** The key image's candidate after the unlock loop is the predictor's. */
  lemma {:induction false} UnlockCoinsBest(w: Wallet, now: Height, coins: seq<Coin>, ki: KeyImage, seen: set<CoinId>)
    requires Inv(w, seen) && AllLocked(w, coins) && ki != NO_KEY_IMAGE && !Spent(w, ki)
    requires forall i :: 0 <= i < |coins| ==> coins[i].keyImage == ki
    ensures var r := UnlockCoins(w, now, coins);
            r.Some? && !Spent(r.value, ki) && UnspentOf(r.value, ki) == Best(UnspentOf(w, ki), coins)
  {
    if coins != [] {
      var front, o := coins[..|coins| - 1], coins[|coins| - 1];
      assert AllLocked(w, front);
      assert forall i :: 0 <= i < |front| ==> front[i] == coins[i];
      hide Inv, LockKeyOf, UnlockCoin, Better, UnspentOf, Spent, AllLocked, LockedLess, IsLocked;
      UnlockCoinsKeeps(w, now, front, seen);
      UnlockCoinsBest(w, now, front, ki, seen);
      var m := UnlockCoins(w, now, front).value;
      StillLocked(w, m, coins);
      UnlockBestStep(m, now, o, ki, seen);
    }
  }

  // ----- a key image arriving -----

  lemma {:induction false} LockedCoinsFound(w: Wallet, ki: KeyImage, ids: seq<CoinId>)
    requires Locks(w)
    requires forall i :: 0 <= i < |ids| ==> KeyImageKey(ki, ids[i].amount, ids[i].gi) in w.lockedByKeyImage
    requires forall i, j :: 0 <= i < j < |ids| ==> Before(ids[i], ids[j])
    ensures var r := LockedCoins(w, ki, ids);
            && r.Some? && AllLocked(w, r.value)
            && (forall i :: 0 <= i < |ids| ==> r.value[i].keyImage == ki && r.value[i].Pair() == ids[i])
  {
    if ids != [] {
      var front, id := ids[..|ids| - 1], ids[|ids| - 1];
      LockedCoinsFound(w, ki, front);
      assert LockEntry(w, KeyImageKey(ki, id.amount, id.gi));
      var r, c := LockedCoins(w, ki, front).value, LockedCoin(w, ki, id).value;
      AllLockedNext(w, r, c, front, id);
    }
  }

  lemma AllLockedNext(w: Wallet, coins: seq<Coin>, c: Coin, ids: seq<CoinId>, id: CoinId)
    requires AllLocked(w, coins) && IsLocked(w, c) && c.Pair() == id && |ids| == |coins|
    requires forall i :: 0 <= i < |ids| ==> coins[i].Pair() == ids[i] && Before(ids[i], id)
    ensures AllLocked(w, coins + [c])
  {
  }

  /** Every locked output with the key image is among those collected. */
  lemma LockedIdsComplete(w: Wallet, ki: KeyImage)
    ensures forall i :: 0 <= i < |LockedIds(w, ki)| ==>
              KeyImageKey(ki, LockedIds(w, ki)[i].amount, LockedIds(w, ki)[i].gi) in w.lockedByKeyImage
    ensures forall q :: q in w.lockedByKeyImage && q.keyImage == ki ==> CoinId(q.amount, q.gi) in LockedIds(w, ki)
  {
    var ids := LockedIds(w, ki);
    forall i | 0 <= i < |ids|
      ensures KeyImageKey(ki, ids[i].amount, ids[i].gi) in w.lockedByKeyImage
    {
      assert ids[i] in ids;
      var k :| k in w.lockedByKeyImage && k.keyImage == ki && ids[i] == CoinId(k.amount, k.gi);
      assert k == KeyImageKey(ki, ids[i].amount, ids[i].gi);
    }
  }

  /** The entry of a key image in the lock indexes leads to a collected output. */
  lemma EntryCollected(w: Wallet, ki: KeyImage, coins: seq<Coin>, c: Coin, seen: set<CoinId>) returns (i: nat)
    requires Locks(w) && Placed(w, seen) && IsLocked(w, c) && c.keyImage == ki != NO_KEY_IMAGE
    requires LockedCoins(w, ki, LockedIds(w, ki)) == Some(coins)
    ensures i < |coins| && LockKeyOf(coins[i]) == LockKeyOf(c)
  {
    LockedIdsComplete(w, ki);
    LockedCoinsFound(w, ki, LockedIds(w, ki));
    LockKeyUnique(w, c, seen);
    hide Locks, Placed, LockedCoins, LockedIds;
    var ids := LockedIds(w, ki);
    assert KeyImageKeyOf(c) in w.lockedByKeyImage by {
      LockedIndexed(w, c);
    }
    assert c.Pair() in ids;
    i :| 0 <= i < |ids| && ids[i] == c.Pair();
    assert IsLocked(w, coins[i]) && coins[i].Pair() == c.Pair();
    assert CoinId(LockKeyOf(coins[i]).amount, LockKeyOf(coins[i]).gi) == coins[i].Pair();
  }

  lemma LockedIndexed(w: Wallet, c: Coin)
    requires Locks(w) && IsLocked(w, c) && c.keyImage != NO_KEY_IMAGE
    ensures KeyImageKeyOf(c) in w.lockedByKeyImage
  {
  }

  /** Once a key image's outputs are unlocked, none is left in the lock index. */
  lemma NoneLeft(w: Wallet, m: Wallet, ki: KeyImage, coins: seq<Coin>, seen: set<CoinId>)
    requires Inv(w, seen) && Locks(m)
    requires LockedCoins(w, ki, LockedIds(w, ki)) == Some(coins) && LockedLess(w, m, coins)
    ensures forall q :: q in m.lockedByKeyImage ==> q.keyImage != ki
  {
    hide Placed, Keyed, SpentUnlocked, Recent, Balanced, Indexed, LockedCoins, LockedIds;
    forall q | q in m.lockedByKeyImage
      ensures q.keyImage != ki
    {
      assert LockEntry(m, q);
      if q.keyImage == ki {
        var c := LockedCoin(m, ki, CoinId(q.amount, q.gi)).value;
        var i := EntryCollected(w, ki, coins, c, seen);
        assert false;
      }
    }
  }

  lemma SpendKeeps(w: Wallet, ki: KeyImage, o: Coin, seen: set<CoinId>)
    requires Inv(w, seen) && UnspentOf(w, ki) == Some(o)
    requires forall q :: q in w.lockedByKeyImage ==> q.keyImage != ki
    ensures var r := RemoveFromUnspent(w, o);
            r.Some? && Inv(r.value, seen) && Spent(r.value, ki)
            && r.value.unspent == w.unspent - {o.Hag()} && r.value.locked == w.locked
            && r.value.lockedByKeyImage == w.lockedByKeyImage && o.keyImage == ki && o.Hag() in w.unspent
  {
    RemoveFromUnspentKeeps(w, o);
    hide RemoveFromUnspent, Balanced, Locks;
    var m := RemoveFromUnspent(w, o).value;
    LocksSame(w, m);
    SpendKeyed(w, m, ki, o);
    SpendPlaced(w, m, o, seen);
  }

  lemma SpendKeyed(w: Wallet, m: Wallet, ki: KeyImage, o: Coin)
    requires Keyed(w) && SpentUnlocked(w) && Indexed(w) && UnspentOf(w, ki) == Some(o)
    requires m.unspent == w.unspent - {o.Hag()} && SameLocks(w, m)
    requires forall q :: q in w.lockedByKeyImage ==> q.keyImage != ki
    ensures Keyed(m) && SpentUnlocked(m)
  {
    forall q | q in m.lockedByKeyImage
      ensures !Spent(m, q.keyImage)
    {
      assert !Spent(w, q.keyImage);
    }
  }

  lemma SpendPlaced(w: Wallet, m: Wallet, o: Coin, seen: set<CoinId>)
    requires Placed(w, seen) && Recent(w) && m.unspent == w.unspent - {o.Hag()} && SameLocks(w, m)
    ensures Placed(m, seen) && Recent(m)
  {
  }

  /** add_incoming_keyimage never fails, keeps the ledger, and does what
      try_adding_incoming_keyimage foretold: the foretold output is the one
      unlocked or found unspent and then removed; nothing is removed exactly
      when none was foretold. */
  lemma KeyimageForetold(w: Wallet, height: Height, ki: KeyImage, seen: set<CoinId>)
    requires Inv(w, seen) && ki != NO_KEY_IMAGE
    ensures LockedCoins(w, ki, LockedIds(w, ki)).Some? && TryAddingIncomingKeyimage(w, ki).Some?
    ensures var coins := LockedCoins(w, ki, LockedIds(w, ki)).value;
            var t, r, unlockedState := TryAddingIncomingKeyimage(w, ki).value, AddIncomingKeyimage(w, height, ki), UnlockCoins(w, height, coins);
            && r.Some? && Inv(r.value.wallet, seen)
            && (forall q :: q in r.value.wallet.lockedByKeyImage ==> q.keyImage != ki)
            && unlockedState.Some? && UnspentOf(unlockedState.value, ki) == t
            && match t
               case None => r.value.amount == 0 && r.value.wallet == unlockedState.value
               case Some(o) =>
                 && r.value.amount == o.amount && o.keyImage == ki
                 && o.Hag() in unlockedState.value.unspent
                 && r.value.wallet.unspent == unlockedState.value.unspent - {o.Hag()}
                 && Spent(r.value.wallet, ki)
                 && (UnspentOf(w, ki) == Some(o) || o in coins)
  {
    hide Indexed, Locks, Placed, Keyed, SpentUnlocked, Recent, Balanced;
    UnlockedForetold(w, height, ki, seen);
    var coins := LockedCoins(w, ki, LockedIds(w, ki)).value;
    var m := UnlockCoins(w, height, coins).value;
    hide LockedIds, LockedCoins, UnlockCoins, RemoveFromUnspent, UnspentOf, Spent, Best;
    if UnspentOf(m, ki).Some? {
      SpendKeeps(m, ki, UnspentOf(m, ki).value, seen);
    }
  }

  /** The locked outputs of a key image unlocked: the predictor names the one
      unspent output of it that there is then. */
  lemma UnlockedForetold(w: Wallet, height: Height, ki: KeyImage, seen: set<CoinId>)
    requires Inv(w, seen) && ki != NO_KEY_IMAGE
    ensures LockedCoins(w, ki, LockedIds(w, ki)).Some? && TryAddingIncomingKeyimage(w, ki).Some?
    ensures var coins := LockedCoins(w, ki, LockedIds(w, ki)).value;
            var t, m := TryAddingIncomingKeyimage(w, ki).value, UnlockCoins(w, height, coins);
            && m.Some? && Inv(m.value, seen) && UnspentOf(m.value, ki) == t
            && (forall q :: q in m.value.lockedByKeyImage ==> q.keyImage != ki)
            && (t.Some? ==> UnspentOf(w, ki) == t || t.value in coins)
  {
    hide Indexed, Locks, Placed, Keyed, SpentUnlocked, Recent, Balanced;
    LockedIdsComplete(w, ki);
    LockedCoinsFound(w, ki, LockedIds(w, ki));
    var coins := LockedCoins(w, ki, LockedIds(w, ki)).value;
    UnlockCoinsKeeps(w, height, coins, seen);
    var m := UnlockCoins(w, height, coins).value;
    NoneLeft(w, m, ki, coins, seen);
    if Spent(w, ki) {
      SpentNoneLocked(w, ki);
      assert LockedIds(w, ki) == [];
    } else {
      UnlockCoinsBest(w, height, coins, ki, seen);
    }
    BestFrom(UnspentOf(w, ki), coins);
    hide LockedIds, LockedCoins, UnlockCoins, Best, LockedLess, AllLocked;
  }

  lemma SpentNoneLocked(w: Wallet, ki: KeyImage)
    requires SpentUnlocked(w) && Spent(w, ki)
    ensures LockedIds(w, ki) == []
  {
    var s := set k | k in w.lockedByKeyImage && k.keyImage == ki :: CoinId(k.amount, k.gi);
    assert forall k :: k in w.lockedByKeyImage ==> k.keyImage != ki;
    assert s == {};
  }

  lemma {:induction false} BestFrom(candidate: Option<Coin>, coins: seq<Coin>)
    ensures Best(candidate, coins) == candidate || (Best(candidate, coins).Some? && Best(candidate, coins).value in coins)
  {
    if coins != [] {
      BestFrom(candidate, coins[..|coins| - 1]);
    }
  }

  lemma LockedNew(w: Wallet, o: Coin, seen: set<CoinId>)
    requires Inv(w, seen) && Free(w, o.Pair()) && o.unlock != 0 && !Spent(w, o.keyImage)
    ensures AddToLock(w, o).Some? && AddToLock(w, o).value != w
  {
    GoIntoLock(w, o, seen);
    AddToLockKeeps(w, o);
    hide Inv, AddToLock;
    assert LockKeyOf(o) in AddToLock(w, o).value.locked && CoinId(LockKeyOf(o).amount, LockKeyOf(o).gi) == o.Pair();
  }

  lemma EnteredNew(w: Wallet, o: Coin, seen: set<CoinId>)
    requires Inv(w, seen) && Free(w, o.Pair()) && o.unlock == 0 && Enters(w, o)
    ensures AddIncomingOutput(w, o, false).Some? && AddIncomingOutput(w, o, false).value.wallet != w
  {
    ComeInIndexes(w, o, UnspentOf(w, o.keyImage));
    ComeInIs(w, o, false);
    hide Inv, AddIncomingOutput, AddToUnspent, WalletInvariant.Removed, Pointed;
    assert o.Hag() in AddIncomingOutput(w, o, false).value.wallet.unspent && CoinId(o.Hag().amount, o.Hag().gi) == o.Pair();
  }

  /** try_add_incoming_output tells the amount add_incoming_output reports, and
      "ignored" exactly when that call changes nothing. */
  lemma OutputForetold(w: Wallet, o: Coin, seen: set<CoinId>)
    requires Inv(w, seen) && o.Pair() !in seen
    ensures var t, r := TryAddIncomingOutput(w, o), AddIncomingOutput(w, o, false);
            && r.Some?
            && (t.Some? ==> r.value.amount == t.value)
            && (t.None? ==> r.value == Change(w, 0))
            && (t.None? <==> r.value.wallet == w)
  {
    hide Indexed, Locks, Placed, Keyed, SpentUnlocked, Recent, Balanced;
    AddIncomingKeeps(w, o, seen);
    if TryAddIncomingOutput(w, o).Some? {
      FreshIsFree(w, seen, o.Pair());
      if o.unlock != 0 {
        LockedNew(w, o, seen);
      } else {
        EnteredNew(w, o, seen);
      }
    }
    hide Inv, AddToLock, AddToUnspent, RemoveFromUnspent;
  }

  // ----- unlock by height and time -----

  lemma DueCoinFound(w: Wallet, height: Height, time: nat, id: CoinId, seen: set<CoinId>)
    requires Locks(w) && Placed(w, seen)
    requires exists k :: k in w.locked && Due(k, height, time) && CoinId(k.amount, k.gi) == id
    ensures var r := DueCoin(w, height, time, id);
            r.Some? && IsLocked(w, r.value) && r.value.Pair() == id && Due(LockKeyOf(r.value), height, time)
  {
    var k :| k in w.locked && Due(k, height, time) && CoinId(k.amount, k.gi) == id;
    var s := set q | q in w.locked && Due(q, height, time) && q.amount == id.amount && q.gi == id.gi;
    assert s == {k};
  }

  lemma DueIdsAre(w: Wallet, height: Height, time: nat)
    ensures var ids := DueIds(w, height, time);
            && (forall i :: 0 <= i < |ids| ==> exists k :: k in w.locked && Due(k, height, time) && CoinId(k.amount, k.gi) == ids[i])
            && (forall k :: k in w.locked && Due(k, height, time) ==> CoinId(k.amount, k.gi) in ids)
  {
    var ids := DueIds(w, height, time);
    forall i | 0 <= i < |ids|
      ensures exists k :: k in w.locked && Due(k, height, time) && CoinId(k.amount, k.gi) == ids[i]
    {
      assert ids[i] in ids;
    }
  }

  lemma {:induction false} DueCoinsFound(w: Wallet, height: Height, time: nat, ids: seq<CoinId>, seen: set<CoinId>)
    requires Locks(w) && Placed(w, seen)
    requires forall i :: 0 <= i < |ids| ==> exists k :: k in w.locked && Due(k, height, time) && CoinId(k.amount, k.gi) == ids[i]
    requires forall i, j :: 0 <= i < j < |ids| ==> Before(ids[i], ids[j])
    ensures var r := DueCoins(w, height, time, ids);
            && r.Some? && |r.value| == |ids| && AllLocked(w, r.value)
            && (forall i :: 0 <= i < |ids| ==> r.value[i].Pair() == ids[i] && Due(LockKeyOf(r.value[i]), height, time))
  {
    if ids != [] {
      var front, id := ids[..|ids| - 1], ids[|ids| - 1];
      assert forall i :: 0 <= i < |front| ==> front[i] == ids[i];
      DueCoinsFound(w, height, time, front, seen);
      DueCoinFound(w, height, time, id, seen);
      AllLockedNext(w, DueCoins(w, height, time, front).value, DueCoin(w, height, time, id).value, front, id);
    }
  }

  /** unlock(height, time) never fails, keeps the ledger and leaves locked
      exactly what is not due yet. */
  lemma UnlockKeeps(w: Wallet, height: Height, time: nat, seen: set<CoinId>)
    requires Inv(w, seen)
    ensures var r := Unlock(w, height, time);
            && r.Some? && Inv(r.value, seen)
            && (forall k :: k in r.value.locked <==> k in w.locked && !Due(k, height, time))
            && (forall k :: k in r.value.locked ==> r.value.locked[k] == w.locked[k])
  {
    var ids := DueIds(w, height, time);
    DueIdsAre(w, height, time);
    DueCoinsFound(w, height, time, ids, seen);
    var coins := DueCoins(w, height, time, ids).value;
    UnlockCoinsKeeps(w, height, coins, seen);
    var m := UnlockCoins(w, height, coins).value;
    hide UnlockCoins, DueCoins, DueIds, Locks, Keyed, SpentUnlocked, Recent, Balanced, Indexed, Placed;
    forall k | k in w.locked
      ensures k in m.locked <==> !Due(k, height, time)
    {
      if Due(k, height, time) {
        assert CoinId(k.amount, k.gi) in ids;
        var i :| 0 <= i < |ids| && ids[i] == CoinId(k.amount, k.gi);
        assert IsLocked(w, coins[i]);
        OneLockKey(w, k, coins[i], seen);
      }
    }
  }

  lemma OneLockKey(w: Wallet, k: LockKey, c: Coin, seen: set<CoinId>)
    requires Placed(w, seen) && k in w.locked && IsLocked(w, c) && c.Pair() == CoinId(k.amount, k.gi)
    ensures k == LockKeyOf(c)
  {
    LockKeyUnique(w, c, seen);
  }

  // ----- runs -----

  datatype Event =
    | Arrives(coin: Coin)
    | Spends(height: Height, keyImage: KeyImage)
    | Unlocks(height: Height, time: nat)

  function Step(w: Wallet, e: Event): Option<Wallet> {
    match e
    case Arrives(o) => var c :- AddIncomingOutput(w, o, false); Some(c.wallet)
    case Spends(h, ki) => var c :- AddIncomingKeyimage(w, h, ki); Some(c.wallet)
    case Unlocks(h, t) => Unlock(w, h, t)
  }

  function Run(events: seq<Event>): Option<Wallet> {
    if events == [] then Some(EMPTY_WALLET) else
    var w :- Run(events[..|events| - 1]);
    Step(w, events[|events| - 1])
  }

  ghost function Seen(events: seq<Event>): set<CoinId> {
    set i | 0 <= i < |events| && events[i].Arrives? :: events[i].coin.Pair()
  }

  /** Every output on the chain has its own amount and global index; key images
      of inputs are never all zero. */
  ghost predicate Fresh(events: seq<Event>) {
    && (forall i, j :: 0 <= i < j < |events| && events[i].Arrives? && events[j].Arrives? ==>
          events[i].coin.Pair() != events[j].coin.Pair())
    && (forall i :: 0 <= i < |events| && events[i].Spends? ==> events[i].keyImage != NO_KEY_IMAGE)
  }

  function Adds(e: Event): set<CoinId> {
    if e.Arrives? then {e.coin.Pair()} else {}
  }

  lemma StepKeeps(w: Wallet, e: Event, seen: set<CoinId>)
    requires Inv(w, seen) && seen !! Adds(e) && (e.Spends? ==> e.keyImage != NO_KEY_IMAGE)
    ensures Step(w, e).Some? && Inv(Step(w, e).value, seen + Adds(e))
  {
    hide Inv, Unlock, AddIncomingOutput, AddIncomingKeyimage;
    assert seen + {} == seen;
    match e {
      case Arrives(o) => AddIncomingKeeps(w, o, seen);
      case Spends(h, ki) => KeyimageForetold(w, h, ki, seen);
      case Unlocks(h, t) => UnlockKeeps(w, h, t, seen);
    }
  }

  lemma SeenNext(events: seq<Event>)
    requires events != [] && Fresh(events)
    ensures var front, e := events[..|events| - 1], events[|events| - 1];
            && Fresh(front) && Seen(front) !! Adds(e) && Seen(events) == Seen(front) + Adds(e)
            && (e.Spends? ==> e.keyImage != NO_KEY_IMAGE)
  {
    var front, e := events[..|events| - 1], events[|events| - 1];
    forall id
      ensures id in Seen(events) <==> id in Seen(front) || id in Adds(e)
    {
      if id in Seen(front) {
        var i :| 0 <= i < |front| && front[i].Arrives? && front[i].coin.Pair() == id;
        assert events[i].Arrives? && events[i].coin.Pair() == id;
      }
      if id in Seen(events) {
        var i :| 0 <= i < |events| && events[i].Arrives? && events[i].coin.Pair() == id;
        assert i < |front| ==> front[i].Arrives? && front[i].coin.Pair() == id;
      }
      if id in Adds(e) {
        assert events[|front|].Arrives? && events[|front|].coin.Pair() == id;
      }
    }
  }

  /** Over every run of outputs, spends and unlocks no database error occurs and
      the ledger invariant holds: balances, indexes, key images. */
  lemma {:induction false} RunKeeps(events: seq<Event>)
    requires Fresh(events)
    ensures Run(events).Some? && Inv(Run(events).value, Seen(events))
  {
    hide Inv, Step, Seen, Fresh, Adds;
    if events == [] {
      EmptyKeeps();
    } else {
      var front := events[..|events| - 1];
      SeenNext(events);
      RunKeeps(front);
      StepKeeps(Run(front).value, events[|events| - 1], Seen(front));
    }
  }

  lemma EmptyKeeps()
    ensures Inv(EMPTY_WALLET, Seen([]))
  {
    assert Int128.FromInt(0) == Int128.ZERO;
    assert Balanced(EMPTY_WALLET);
  }
}
