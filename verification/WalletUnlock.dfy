// When a locked output unlocks: by its own unlock height or time, and along
// whole runs.
module WalletUnlock {
  import opened Basics
  import opened WalletTypes
  import opened WalletLedger
  import opened WalletInvariant
  import opened WalletRun

  /** The unlock height of an output is still to come, or its time. */
  predicate Waits(o: Coin, height: Height, time: nat) {
    if o.unlock < 500000000 then o.unlock > height else Min(o.unlock, 0xFFFF_FFFF) > time
  }

  lemma DueIs(o: Coin, height: Height, time: nat)
    ensures Due(LockKeyOf(o), height, time) <==> !Waits(o, height, time)
  {
  }

  lemma KeyOfLocked(w: Wallet, k: LockKey)
    requires Locks(w) && k in w.locked
    ensures LockKeyOf(w.locked[k]) == k
  {
  }

  /** Of the locked outputs exactly those that still wait stay locked. */
  lemma UnlockWhen(w: Wallet, height: Height, time: nat, seen: set<CoinId>)
    requires Inv(w, seen)
    ensures Unlock(w, height, time).Some?
    ensures forall o :: IsLocked(Unlock(w, height, time).value, o) <==> IsLocked(w, o) && Waits(o, height, time)
  {
    UnlockKeeps(w, height, time, seen);
    hide Unlock, Indexed, Locks, Placed, Keyed, SpentUnlocked, Recent, Balanced, LockKeyOf, Due, Waits;
    forall o
      ensures IsLocked(Unlock(w, height, time).value, o) <==> IsLocked(w, o) && Waits(o, height, time)
    {
      DueIs(o, height, time);
    }
  }

  // ----- what one step does to the locked outputs -----

  lemma ArrivesLocks(w: Wallet, c: Coin, o: Coin, seen: set<CoinId>)
    requires Inv(w, seen) && c.Pair() !in seen
    ensures AddIncomingOutput(w, c, false).Some?
    ensures IsLocked(AddIncomingOutput(w, c, false).value.wallet, o)
            <==> IsLocked(w, o) || (o == c && c.unlock != 0 && !Spent(w, c.keyImage))
  {
    AddIncomingKeeps(w, c, seen);
    FreshIsFree(w, seen, c.Pair());
    if Spent(w, c.keyImage) {
      assert AddIncomingOutput(w, c, false).value.wallet == w by { hide Inv; }
      NotYetLocked(w, c);
    } else if c.unlock != 0 {
      LockedArrives(w, c, o);
    } else {
      EnteredLocks(w, c, o, seen);
    }
  }

  lemma NotYetLocked(w: Wallet, c: Coin)
    requires Free(w, c.Pair())
    ensures LockKeyOf(c) !in w.locked
  {
    assert CoinId(LockKeyOf(c).amount, LockKeyOf(c).gi) == c.Pair();
  }

  lemma LockedArrives(w: Wallet, c: Coin, o: Coin)
    requires Locks(w) && Balanced(w) && Free(w, c.Pair()) && c.unlock != 0 && !Spent(w, c.keyImage)
    ensures AddIncomingOutput(w, c, false).Some?
    ensures IsLocked(AddIncomingOutput(w, c, false).value.wallet, o) <==> IsLocked(w, o) || o == c
  {
    NotYetLocked(w, c);
    AddToLockKeeps(w, c);
    hide AddToLock, Locks, Balanced, Free, LockKeyOf;
  }

  lemma EnteredLocks(w: Wallet, c: Coin, o: Coin, seen: set<CoinId>)
    requires Inv(w, seen) && Free(w, c.Pair()) && c.unlock == 0
    ensures AddIncomingOutput(w, c, false).Some?
    ensures IsLocked(AddIncomingOutput(w, c, false).value.wallet, o) <==> IsLocked(w, o)
  {
    ComeIn(w, c, false, seen);
    hide Inv, AddIncomingOutput, LockKeyOf;
  }

  /** A spend unlocks what is locked with its key image and nothing else. */
  lemma SpendsLocks(w: Wallet, height: Height, ki: KeyImage, o: Coin, seen: set<CoinId>)
    requires Inv(w, seen) && ki != NO_KEY_IMAGE
    ensures AddIncomingKeyimage(w, height, ki).Some?
    ensures IsLocked(AddIncomingKeyimage(w, height, ki).value.wallet, o) <==> IsLocked(w, o) && o.keyImage != ki
  {
    hide Indexed, Locks, Placed, Keyed, SpentUnlocked, Recent, Balanced;
    KeyimageForetold(w, height, ki, seen);
    LockedIdsComplete(w, ki);
    LockedCoinsFound(w, ki, LockedIds(w, ki));
    var coins := LockedCoins(w, ki, LockedIds(w, ki)).value;
    UnlockCoinsKeeps(w, height, coins, seen);
    var m := UnlockCoins(w, height, coins).value;
    hide LockedIds, LockedCoins, UnlockCoins, LockKeyOf, UnspentOf, Best, TryAddingIncomingKeyimage;
    var r := AddIncomingKeyimage(w, height, ki).value.wallet;
    assert r.locked == m.locked by { SpentLocks(m, ki); }
    hide AddIncomingKeyimage;
    SpendsOthers(w, m, coins, ki, o);
    if IsLocked(r, o) && o.keyImage == ki {
      LockedIndexed(r, o);
    }
  }

  lemma SpentLocks(m: Wallet, ki: KeyImage)
    ensures forall o :: RemoveFromUnspent(m, o).Some? ==> RemoveFromUnspent(m, o).value.locked == m.locked
  {
  }

  lemma SpendsOthers(w: Wallet, m: Wallet, coins: seq<Coin>, ki: KeyImage, o: Coin)
    requires AllLocked(w, coins) && LockedLess(w, m, coins) && forall i :: 0 <= i < |coins| ==> coins[i].keyImage == ki
    ensures IsLocked(m, o) ==> IsLocked(w, o)
    ensures IsLocked(w, o) && o.keyImage != ki ==> IsLocked(m, o)
  {
    hide LockKeyOf;
    if IsLocked(w, o) && o.keyImage != ki {
      forall i | 0 <= i < |coins|
        ensures LockKeyOf(o) != LockKeyOf(coins[i])
      {
        assert IsLocked(w, coins[i]);
      }
    }
  }

  // ----- along a run -----

  /** It arrived at step `i` to be locked, and no later step unlocked it. */
  ghost predicate LockedSince(events: seq<Event>, i: nat, o: Coin) {
    && i < |events| && events[i] == Arrives(o) && o.unlock != 0
    && Run(events[..i]).Some? && !Spent(Run(events[..i]).value, o.keyImage)
    && forall j :: i < j < |events| ==> Spares(events[j], o)
  }

  ghost predicate Spares(e: Event, o: Coin) {
    match e
    case Arrives(_) => true
    case Spends(_, ki) => ki != o.keyImage
    case Unlocks(h, t) => Waits(o, h, t)
  }

  lemma StepLocks(w: Wallet, e: Event, o: Coin, seen: set<CoinId>)
    requires Inv(w, seen) && seen !! Adds(e) && (e.Spends? ==> e.keyImage != NO_KEY_IMAGE)
    ensures Step(w, e).Some?
    ensures IsLocked(Step(w, e).value, o)
            <==> (IsLocked(w, o) && Spares(e, o)) || (e == Arrives(o) && o.unlock != 0 && !Spent(w, o.keyImage))
  {
    hide Inv, Unlock, AddIncomingOutput, AddIncomingKeyimage, IsLocked, Spent, Waits;
    match e {
      case Arrives(c) => ArrivesLocks(w, c, o, seen);
      case Spends(h, ki) => SpendsLocks(w, h, ki, o, seen);
      case Unlocks(h, t) => UnlockWhen(w, h, t, seen);
    }
  }

  lemma SinceNext(events: seq<Event>, o: Coin)
    requires events != []
    ensures var front, e := events[..|events| - 1], events[|events| - 1];
            (exists i :: LockedSince(events, i, o)) <==>
            ((exists i :: LockedSince(front, i, o)) && Spares(e, o))
            || (e == Arrives(o) && o.unlock != 0 && Run(front).Some? && !Spent(Run(front).value, o.keyImage))
  {
    hide Run, Spent, Spares;
    var front, n := events[..|events| - 1], |events| - 1;
    forall i: nat | i < n
      ensures LockedSince(events, i, o) <==> LockedSince(front, i, o) && Spares(events[n], o)
    {
      assert front[..i] == events[..i];
      assert forall j :: i < j < n ==> front[j] == events[j];
    }
    assert LockedSince(events, n, o)
      <==> events[n] == Arrives(o) && o.unlock != 0 && Run(front).Some? && !Spent(Run(front).value, o.keyImage);
    if i: nat :| LockedSince(front, i, o) && Spares(events[n], o) {
      assert LockedSince(events, i, o);
    }
    if i: nat :| LockedSince(events, i, o) {
      assert i < n ==> LockedSince(front, i, o);
    }
  }

  /** After any run, an output is locked exactly when it arrived to be locked and
      neither a spend of its key image nor its height or time has come since. */
  lemma {:induction false} RunLocks(events: seq<Event>, o: Coin)
    requires Fresh(events)
    ensures Run(events).Some?
    ensures IsLocked(Run(events).value, o) <==> exists i :: LockedSince(events, i, o)
    decreases |events|
  {
    hide Inv, Step, Seen, Fresh, Adds, LockedSince, Spares, Spent;
    if events == [] {
      NoneLocked(o);
    } else {
      var front := events[..|events| - 1];
      SeenNext(events);
      RunKeeps(front);
      RunLocks(front, o);
      StepLocks(Run(front).value, events[|events| - 1], o, Seen(front));
      SinceNext(events, o);
    }
  }

  lemma NoneLocked(o: Coin)
    ensures !IsLocked(EMPTY_WALLET, o) && !exists i :: LockedSince([], i, o)
  {
  }

  // ----- which of two outputs with one key image stays -----

  /** Unlocked in, an output takes the place of the one with its key image exactly
      when it is larger and at the same address. */
  lemma LargerStays(w: Wallet, o: Coin, seen: set<CoinId>)
    requires Inv(w, seen) && Free(w, o.Pair()) && o.keyImage != NO_KEY_IMAGE && !Spent(w, o.keyImage)
    ensures AddIncomingOutput(w, o, true).Some?
    ensures var before, after := UnspentOf(w, o.keyImage), UnspentOf(AddIncomingOutput(w, o, true).value.wallet, o.keyImage);
            && (before.None? ==> after == Some(o))
            && (before.Some? && o.amount > before.value.amount && o.address == before.value.address ==> after == Some(o))
            && (before.Some? && !(o.amount > before.value.amount && o.address == before.value.address) ==> after == before)
  {
    ComeIn(w, o, true, seen);
    hide Inv, AddIncomingOutput, Spent, UnspentOf;
    ComeInCandidate(w, o, seen);
  }
}
