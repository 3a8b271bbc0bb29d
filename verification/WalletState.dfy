// WalletStateBasic in place: the ledger's indexes as fields of one object,
// each method proved against the ledger function of the same operation.
module WalletState {
  import opened Basics
  import opened Int128
  import opened WalletTypes
  import L = WalletLedger
  import opened WalletInvariant

  lemma LockedCoinNamed(w: L.Wallet, ki: KeyImage, id: CoinId)
    requires Locks(w) && L.LockedCoin(w, ki, id).Some?
    ensures L.LockedCoin(w, ki, id).value.Pair() == id
  {
    assert LockEntry(w, L.KeyImageKey(ki, id.amount, id.gi));
  }

  class WalletStateBasic {
    var balances: map<Address, Balance>
    var byKeyImage: map<KeyImage, HeightAmountGi>
    var unspent: map<HeightAmountGi, Coin>
    var unspentByAddress: set<L.AddressKey>
    var unlocked: map<L.UnlockKey, Coin>
    var lockedByKeyImage: map<L.KeyImageKey, nat>
    var locked: map<L.LockKey, Coin>

    function Contents(): L.Wallet
      reads this
    {
      L.Wallet(balances, byKeyImage, unspent, unspentByAddress, unlocked, lockedByKeyImage, locked)
    }

    constructor ()
      ensures Contents() == L.EMPTY_WALLET
    {
      balances, byKeyImage, unspent, unspentByAddress := map[], map[], map[], {};
      unlocked, lockedByKeyImage, locked := map[], map[], map[];
    }

    method ModifyBalance(o: Coin, lockedOp: int, spendableOp: int)
      modifies this`balances
      ensures Contents() == L.ModifyBalance(old(Contents()), o, lockedOp, spendableOp)
    {
      hide CombineBalance, Add;
      var balance, balance2 := NO_BALANCE, NO_BALANCE;
      if o.address in balances {
        balance := balances[o.address];
      }
      if "" in balances {
        balance2 := balances[""];
      }
      balance := CombineBalance(balance, o, lockedOp, spendableOp);
      balance2 := CombineBalance(balance2, o, lockedOp, spendableOp);
      if balance.Total() == ZERO && balance.TotalOutputs() == 0 {
        balances := balances - {o.address};
      } else {
        balances := balances[o.address := balance];
      }
      if balance2.Total() == ZERO && balance2.TotalOutputs() == 0 {
        balances := balances - {""};
      } else {
        balances := balances["" := balance2];
      }
    }

    method AddToUnspentIndex(o: Coin) returns (ok: bool)
      modifies this
      ensures ok == L.AddToUnspent(old(Contents()), o).Some?
      ensures ok ==> Contents() == L.AddToUnspent(old(Contents()), o).value
    {
      ModifyBalance(o, 0, 1);
      if o.Hag() in unspent {
        return false;
      }
      unspent := unspent[o.Hag() := o];
      var k := L.AddressKey(o.address, o.Hag());
      if k in unspentByAddress {
        return false;
      }
      unspentByAddress := unspentByAddress + {k};
      return true;
    }

    method RemoveFromUnspentIndex(o: Coin) returns (ok: bool)
      modifies this
      ensures ok == L.RemoveFromUnspent(old(Contents()), o).Some?
      ensures ok ==> Contents() == L.RemoveFromUnspent(old(Contents()), o).value
    {
      ModifyBalance(o, 0, -1);
      if o.Hag() !in unspent {
        return false;
      }
      unspent := unspent - {o.Hag()};
      var k := L.AddressKey(o.address, o.Hag());
      if k !in unspentByAddress {
        return false;
      }
      unspentByAddress := unspentByAddress - {k};
      return true;
    }

    method AddToLockIndex(o: Coin) returns (ok: bool)
      modifies this
      ensures ok == L.AddToLock(old(Contents()), o).Some?
      ensures ok ==> Contents() == L.AddToLock(old(Contents()), o).value
    {
      ModifyBalance(o, 1, 0);
      if L.LockKeyOf(o) in locked {
        return false;
      }
      locked := locked[L.LockKeyOf(o) := o];
      if o.keyImage != NO_KEY_IMAGE {
        if L.KeyImageKeyOf(o) in lockedByKeyImage {
          return false;
        }
        lockedByKeyImage := lockedByKeyImage[L.KeyImageKeyOf(o) := o.unlock];
      }
      return true;
    }

    method RemoveFromLockIndex(o: Coin) returns (ok: bool)
      modifies this
      ensures ok == L.RemoveFromLock(old(Contents()), o).Some?
      ensures ok ==> Contents() == L.RemoveFromLock(old(Contents()), o).value
    {
      ModifyBalance(o, -1, 0);
      if L.LockKeyOf(o) !in locked {
        return false;
      }
      locked := locked - {L.LockKeyOf(o)};
      if o.keyImage != NO_KEY_IMAGE {
        if L.KeyImageKeyOf(o) !in lockedByKeyImage {
          return false;
        }
        lockedByKeyImage := lockedByKeyImage - {L.KeyImageKeyOf(o)};
      }
      return true;
    }

    method AddIncomingOutput(o: Coin, justUnlocked: bool) returns (ok: bool, added: Amount)
      modifies this
      ensures ok == L.AddIncomingOutput(old(Contents()), o, justUnlocked).Some?
      ensures ok ==> L.Change(Contents(), added) == L.AddIncomingOutput(old(Contents()), o, justUnlocked).value
    {
      var kiExists := o.keyImage in byKeyImage;
      var existing: Option<Coin> := None;
      if kiExists {
        if byKeyImage[o.keyImage] !in unspent {
          return true, 0;
        }
        existing := Some(unspent[byKeyImage[o.keyImage]]);
      }
      if o.unlock != 0 && !justUnlocked {
        ok := AddToLockIndex(o);
        return ok, o.amount;
      }
      added := o.amount;
      if kiExists {
        var amount := byKeyImage[o.keyImage].amount;
        if o.amount <= amount || o.address != existing.value.address {
          return true, 0;
        }
        added := o.amount - amount;
        ok := RemoveFromUnspentIndex(existing.value);
        if !ok {
          return;
        }
      }
      ok := AddToUnspentIndex(o);
      if ok && o.keyImage != NO_KEY_IMAGE {
        byKeyImage := byKeyImage[o.keyImage := o.Hag()];
      }
    }

    method UnlockOutput(now: Height, o: Coin) returns (ok: bool)
      modifies this
      ensures ok == L.UnlockCoin(old(Contents()), now, o).Some?
      ensures ok ==> Contents() == L.UnlockCoin(old(Contents()), now, o).value
    {
      ok := RemoveFromLockIndex(o);
      if !ok {
        return;
      }
      var adjusted: Amount;
      ok, adjusted := AddIncomingOutput(o, true);
      if !ok {
        return;
      }
      var k := L.UnlockKey(now, o.amount, o.gi);
      if k in unlocked {
        return false;
      }
      unlocked := unlocked[k := o.(amount := adjusted)];
    }

    method UnlockAll(now: Height, coins: seq<Coin>) returns (ok: bool)
      modifies this
      ensures ok == L.UnlockCoins(old(Contents()), now, coins).Some?
      ensures ok ==> Contents() == L.UnlockCoins(old(Contents()), now, coins).value
    {
      hide L.UnlockCoin;
      var n := 0;
      ok := true;
      while n < |coins|
        invariant n <= |coins|
        invariant ok == L.UnlockCoins(old(Contents()), now, coins[..n]).Some?
        invariant ok ==> Contents() == L.UnlockCoins(old(Contents()), now, coins[..n]).value
      {
        assert coins[..n + 1][..n] == coins[..n];
        if ok {
          ok := UnlockOutput(now, coins[n]);
        }
        n := n + 1;
      }
      assert coins[..n] == coins;
    }

    /** The cursor over the locked outputs with a key image. */
    method FoundInLocked(ki: KeyImage) returns (found: Option<seq<Coin>>)
      ensures found == L.LockedCoins(Contents(), ki, L.LockedIds(Contents(), ki))
    {
      var ids := L.LockedIds(Contents(), ki);
      var n := 0;
      found := Some([]);
      while n < |ids|
        invariant n <= |ids|
        invariant found == L.LockedCoins(Contents(), ki, ids[..n])
      {
        assert ids[..n + 1][..n] == ids[..n];
        var coin := L.LockedCoin(Contents(), ki, ids[n]);
        found := if found.Some? && coin.Some? then Some(found.value + [coin.value]) else None;
        n := n + 1;
      }
      assert ids[..n] == ids;
    }

    method AddIncomingKeyimage(height: Height, ki: KeyImage) returns (ok: bool, removed: Amount)
      modifies this
      ensures ok == L.AddIncomingKeyimage(old(Contents()), height, ki).Some?
      ensures ok ==> L.Change(Contents(), removed) == L.AddIncomingKeyimage(old(Contents()), height, ki).value
    {
      removed := 0;
      var found := FoundInLocked(ki);
      if found.None? {
        return false, 0;
      }
      ok := UnlockAll(height, found.value);
      if ok && ki in byKeyImage && byKeyImage[ki] in unspent {
        var existing := unspent[byKeyImage[ki]];
        removed := existing.amount;
        ok := RemoveFromUnspentIndex(existing);
      }
    }

    method ConsiderCandidate(candidate: Option<Coin>, ki: KeyImage, id: CoinId) returns (ok: bool, spending: Option<Coin>)
      ensures Locks(Contents()) && L.LockedCoin(Contents(), ki, id).Some? ==>
                ok && spending == L.Better(candidate, L.LockedCoin(Contents(), ki, id).value)
    {
      hide Locks, L.LockedCoin;
      if candidate.Some? && id.amount <= candidate.value.amount {
        if Locks(Contents()) && L.LockedCoin(Contents(), ki, id).Some? {
          LockedCoinNamed(Contents(), ki, id);
        }
        return true, candidate;
      }
      var coin := L.LockedCoin(Contents(), ki, id);
      if Locks(Contents()) && coin.Some? {
        LockedCoinNamed(Contents(), ki, id);
      }
      if coin.None? || coin.value.Pair() != id {
        return false, candidate;
      }
      if candidate.Some? && coin.value.address != candidate.value.address {
        return true, candidate;
      }
      return true, coin;
    }

    /** The read-only predictor: it stops reading early where the ledger
        function does not, so it answers whenever that one does. */
    method TryAddingIncomingKeyimage(ki: KeyImage) returns (ok: bool, spending: Option<Coin>)
      ensures Locks(Contents()) && L.TryAddingIncomingKeyimage(Contents(), ki).Some? ==>
                ok && spending == L.TryAddingIncomingKeyimage(Contents(), ki).value
    {
      ghost var w := Contents();
      hide Locks, L.LockedCoin, L.LockedIds, L.Better;
      spending := None;
      if ki in byKeyImage && byKeyImage[ki] in unspent {
        spending := Some(unspent[byKeyImage[ki]]);
      }
      var ids := L.LockedIds(Contents(), ki);
      ok := true;
      var n := 0;
      while n < |ids|
        invariant n <= |ids|
        invariant Locks(w) && L.LockedCoins(w, ki, ids[..n]).Some? ==>
            ok && spending == L.Best(L.UnspentOf(w, ki), L.LockedCoins(w, ki, ids[..n]).value)
      {
        assert ids[..n + 1][..n] == ids[..n];
        var fine: bool;
        fine, spending := ConsiderCandidate(spending, ki, ids[n]);
        ok := ok && fine;
        n := n + 1;
      }
      assert ids[..n] == ids;
    }

    method Unlock(height: Height, time: nat) returns (ok: bool)
      modifies this
      ensures ok == L.Unlock(old(Contents()), height, time).Some?
      ensures ok ==> Contents() == L.Unlock(old(Contents()), height, time).value
    {
      var coins := L.DueCoins(Contents(), height, time, L.DueIds(Contents(), height, time));
      if coins.None? {
        return false;
      }
      ok := UnlockAll(height, coins.value);
    }
  }
}
