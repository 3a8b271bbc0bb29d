// Which outputs a wallet holds: what arrived and was not spent is locked or
// unspent, or a better output with its key image is unspent, along whole runs.
module WalletHoldings {
  import opened Basics
  import opened WalletTypes
  import opened WalletLedger
  import opened WalletInvariant
  import opened WalletRun
  import opened WalletUnlock

  ghost predicate IsUnspent(w: Wallet, o: Coin) {
    o.Hag() in w.unspent && w.unspent[o.Hag()] == o
  }

  ghost predicate Has(w: Wallet, o: Coin) {
    IsLocked(w, o) || IsUnspent(w, o)
  }

  /** With one key image only one output can be spent; `p` is kept and not `o`. */
  predicate Outdoes(p: Coin, o: Coin) {
    p.keyImage == o.keyImage != NO_KEY_IMAGE && (p.address != o.address || p.amount >= o.amount)
  }

  ghost predicate Covered(w: Wallet, o: Coin) {
    IsUnspent(w, o) || exists p :: IsUnspent(w, p) && Outdoes(p, o)
  }

  ghost predicate SameSpent(w: Wallet, m: Wallet) {
    forall ki :: Spent(m, ki) <==> Spent(w, ki)
  }

  // ----- outputs that come to the unspent index -----

  /** `coins` came, and nothing was lost or appeared with them. */
  ghost predicate Came(w: Wallet, m: Wallet, coins: seq<Coin>) {
    && (forall p :: IsUnspent(m, p) ==> IsUnspent(w, p) || p in coins)
    && (forall p :: Covered(w, p) ==> Covered(m, p))
    && (forall p :: p in coins ==> Spent(w, p.keyImage) || Covered(m, p))
    && SameSpent(w, m)
  }

  lemma NoneCame(w: Wallet, m: Wallet)
    requires m.unspent == w.unspent && m.byKeyImage == w.byKeyImage
    ensures Came(w, m, [])
  {
    forall p | Covered(w, p)
      ensures Covered(m, p)
    {
      if !IsUnspent(w, p) {
        var q :| IsUnspent(w, q) && Outdoes(q, p);
        assert IsUnspent(m, q);
      }
    }
  }

  lemma CameThen(w: Wallet, m: Wallet, x: Wallet, coins: seq<Coin>, more: seq<Coin>)
    requires Came(w, m, coins) && Came(m, x, more)
    ensures Came(w, x, coins + more)
  {
    hide IsUnspent, Covered, Spent;
  }

  lemma FreeHag(w: Wallet, o: Coin)
    requires Free(w, o.Pair())
    ensures o.Hag() !in w.unspent
  {
    assert o.Hag() in w.unspent ==> CoinId(o.Hag().amount, o.Hag().gi) != o.Pair();
  }

  lemma Displaces(w: Wallet, m: Wallet, o: Coin)
    requires Indexed(w) && Keyed(w) && Free(w, o.Pair()) && Enters(w, o) && CameIn(w, m, o, UnspentOf(w, o.keyImage))
    ensures IsUnspent(m, o)
    ensures forall p :: IsUnspent(m, p) ==> IsUnspent(w, p) || p == o
    ensures forall p :: IsUnspent(w, p) ==> IsUnspent(m, p) || (Outdoes(o, p) && o.address == p.address && o.amount > p.amount)
  {
    FreeHag(w, o);
    hide Free;
  }

  lemma CoverMoves(w: Wallet, m: Wallet, o: Coin)
    requires IsUnspent(m, o)
    requires forall p :: IsUnspent(w, p) ==> IsUnspent(m, p) || (Outdoes(o, p) && o.address == p.address && o.amount > p.amount)
    ensures forall p :: Covered(w, p) ==> Covered(m, p)
  {
    hide IsUnspent;
    forall p | Covered(w, p)
      ensures Covered(m, p)
    {
      if !IsUnspent(w, p) {
        var q :| IsUnspent(w, q) && Outdoes(q, p);
        assert IsUnspent(m, q) || Outdoes(o, p);
      }
    }
  }

  lemma DisplacesSpent(w: Wallet, m: Wallet, o: Coin)
    requires Indexed(w) && Keyed(w) && Free(w, o.Pair()) && CameIn(w, m, o, UnspentOf(w, o.keyImage))
    ensures SameSpent(w, m)
  {
    FreeHag(w, o);
    forall ki | ki in w.byKeyImage
      ensures w.byKeyImage[ki] != o.Hag()
    {
      assert CoinId(w.byKeyImage[ki].amount, w.byKeyImage[ki].gi) != o.Pair();
    }
    hide Free;
  }

  lemma EnteredCame(w: Wallet, m: Wallet, o: Coin)
    requires Indexed(w) && Keyed(w) && Free(w, o.Pair()) && Enters(w, o) && CameIn(w, m, o, UnspentOf(w, o.keyImage))
    ensures Came(w, m, [o])
  {
    Displaces(w, m, o);
    DisplacesSpent(w, m, o);
    hide Indexed, Keyed, Free, Enters, CameIn, IsUnspent, Covered, SameSpent, Spent;
    CoverMoves(w, m, o);
    CoveredByItself(m, o);
  }

  lemma EntryIs(w: Wallet, o: Coin, justUnlocked: bool, seen: set<CoinId>)
    requires Inv(w, seen) && Free(w, o.Pair()) && (o.unlock == 0 || justUnlocked)
    ensures AddIncomingOutput(w, o, justUnlocked).Some?
    ensures var m := AddIncomingOutput(w, o, justUnlocked).value.wallet;
            if Enters(w, o) then CameIn(w, m, o, UnspentOf(w, o.keyImage)) else m == w
  {
    hide Indexed, Keyed, Locks, Balanced, Placed, SpentUnlocked, Recent, Free, CameIn;
    ComeIn(w, o, justUnlocked, seen);
    if Enters(w, o) {
      ComeInIndexes(w, o, UnspentOf(w, o.keyImage));
      ComeInIs(w, o, justUnlocked);
    }
  }

  /** One output that reaches the unspent index. */
  lemma EntryCame(w: Wallet, o: Coin, justUnlocked: bool, seen: set<CoinId>)
    requires Inv(w, seen) && Free(w, o.Pair()) && (o.unlock == 0 || justUnlocked)
    ensures AddIncomingOutput(w, o, justUnlocked).Some?
    ensures Came(w, AddIncomingOutput(w, o, justUnlocked).value.wallet, [o])
  {
    hide Indexed, Keyed, Locks, Balanced, Placed, SpentUnlocked, Recent, Free, CameIn, Enters, Covered, IsUnspent, Spent,
      UnspentOf, AddIncomingOutput;
    EntryIs(w, o, justUnlocked, seen);
    if Enters(w, o) {
      EnteredCame(w, AddIncomingOutput(w, o, justUnlocked).value.wallet, o);
    } else {
      NoneCame(w, w);
      KeptOther(w, o);
    }
  }

  lemma CoveredByItself(w: Wallet, o: Coin)
    requires IsUnspent(w, o)
    ensures Covered(w, o)
  {
  }

  lemma KeptOther(w: Wallet, o: Coin)
    requires Indexed(w) && Keyed(w) && !Enters(w, o)
    ensures Spent(w, o.keyImage) || Covered(w, o)
  {
    if !Spent(w, o.keyImage) {
      var e := UnspentOf(w, o.keyImage).value;
      assert IsUnspent(w, e) && Outdoes(e, o);
    }
  }

  lemma RecordedSame(w: Wallet, now: Height, o: Coin)
    requires UnlockCoin(w, now, o).Some?
    ensures RemoveFromLock(w, o).Some?
    ensures var c := AddIncomingOutput(RemoveFromLock(w, o).value, o, true);
            && c.Some?
            && UnlockCoin(w, now, o).value.unspent == c.value.wallet.unspent
            && UnlockCoin(w, now, o).value.byKeyImage == c.value.wallet.byKeyImage
  {
    hide RemoveFromLock, AddIncomingOutput;
  }

  lemma UnlockedCame(w: Wallet, now: Height, o: Coin, seen: set<CoinId>)
    requires Inv(w, seen) && IsLocked(w, o)
    ensures UnlockCoin(w, now, o).Some? && Came(w, UnlockCoin(w, now, o).value, [o])
  {
    hide RemoveFromLock, AddIncomingOutput, UnlockCoin, Inv, Came, IsLocked, JustUnlocked, Free, LockKeyOf;
    UnlockCoinKeeps(w, now, o, seen);
    TakeFromLock(w, o, seen);
    var m := RemoveFromLock(w, o).value;
    NoneCame(w, m);
    EntryCame(m, o, true, seen);
    RecordedSame(w, now, o);
    var c := AddIncomingOutput(m, o, true).value;
    var x := UnlockCoin(w, now, o).value;
    NoneCame(c.wallet, x);
    CameThen(w, m, c.wallet, [], [o]);
    CameThen(w, c.wallet, x, [] + [o], []);
    assert [] + [o] + [] == [o];
  }

  lemma AllLockedFront(w: Wallet, coins: seq<Coin>)
    requires AllLocked(w, coins) && coins != []
    ensures AllLocked(w, coins[..|coins| - 1])
  {
    hide LockKeyOf, IsLocked;
    assert forall i :: 0 <= i < |coins| - 1 ==> coins[..|coins| - 1][i] == coins[i];
  }

  lemma {:induction false} UnlockedAllCame(w: Wallet, now: Height, coins: seq<Coin>, seen: set<CoinId>)
    requires Inv(w, seen) && AllLocked(w, coins)
    ensures UnlockCoins(w, now, coins).Some? && Came(w, UnlockCoins(w, now, coins).value, coins)
    decreases |coins|
  {
    hide Inv, LockKeyOf, UnlockCoin, AllLocked, LockedLess, IsLocked, Came;
    if coins == [] {
      NoneCame(w, w);
    } else {
      var front, o := coins[..|coins| - 1], coins[|coins| - 1];
      AllLockedFront(w, coins);
      UnlockCoinsKeeps(w, now, front, seen);
      UnlockedAllCame(w, now, front, seen);
      var m := UnlockCoins(w, now, front).value;
      StillLocked(w, m, coins);
      UnlockedCame(m, now, o, seen);
      CameThen(w, m, UnlockCoin(m, now, o).value, front, [o]);
      assert front + [o] == coins;
    }
  }

  lemma LockedNotSpent(w: Wallet, o: Coin, seen: set<CoinId>)
    requires Inv(w, seen) && IsLocked(w, o)
    ensures !Spent(w, o.keyImage)
  {
    if o.keyImage != NO_KEY_IMAGE {
      LockedIndexed(w, o);
    }
  }

  // ----- the three steps -----

  /** unlock: what was locked and waits no longer is unspent or outdone. */
  lemma UnlockHolds(w: Wallet, height: Height, time: nat, seen: set<CoinId>)
    requires Inv(w, seen)
    ensures Unlock(w, height, time).Some?
    ensures var m := Unlock(w, height, time).value;
            && (forall p :: IsUnspent(m, p) ==> IsUnspent(w, p) || IsLocked(w, p))
            && (forall p :: Covered(w, p) ==> Covered(m, p))
            && (forall p :: IsLocked(w, p) && !IsLocked(m, p) ==> Covered(m, p))
            && SameSpent(w, m)
  {
    var ids := DueIds(w, height, time);
    DueIdsAre(w, height, time);
    DueCoinsFound(w, height, time, ids, seen);
    var coins := DueCoins(w, height, time, ids).value;
    UnlockCoinsKeeps(w, height, coins, seen);
    UnlockedAllCame(w, height, coins, seen);
    var m := UnlockCoins(w, height, coins).value;
    assert forall p :: p in coins ==> IsLocked(w, p);
    hide Inv, UnlockCoins, DueCoins, DueIds, Covered, IsUnspent, SameSpent;
    forall p | IsLocked(w, p) && !IsLocked(m, p)
      ensures Covered(m, p)
    {
      LeftIsOne(w, m, coins, p);
      LockedNotSpent(w, p, seen);
    }
  }

  lemma LeftIsOne(w: Wallet, m: Wallet, coins: seq<Coin>, p: Coin)
    requires AllLocked(w, coins) && LockedLess(w, m, coins) && IsLocked(w, p) && !IsLocked(m, p)
    ensures p in coins
  {
    hide LockKeyOf;
    var i :| 0 <= i < |coins| && LockKeyOf(p) == LockKeyOf(coins[i]);
    assert IsLocked(w, coins[i]);
  }

  /** A spend takes the one unspent output of its key image and no other. */
  lemma SpendHolds(w: Wallet, height: Height, ki: KeyImage, seen: set<CoinId>)
    requires Inv(w, seen) && ki != NO_KEY_IMAGE
    ensures AddIncomingKeyimage(w, height, ki).Some?
    ensures var r := AddIncomingKeyimage(w, height, ki).value.wallet;
            && (forall p :: IsUnspent(r, p) ==> IsUnspent(w, p) && p.keyImage != ki)
            && (forall p :: Covered(w, p) && p.keyImage != ki ==> Covered(r, p))
            && (forall k :: Spent(r, k) <==> Spent(w, k) || (k == ki && exists p :: Has(w, p) && p.keyImage == ki))
  {
    hide Indexed, Locks, Placed, Keyed, SpentUnlocked, Recent, Balanced;
    KeyimageForetold(w, height, ki, seen);
    LockedIdsComplete(w, ki);
    LockedCoinsFound(w, ki, LockedIds(w, ki));
    var coins := LockedCoins(w, ki, LockedIds(w, ki)).value;
    UnlockCoinsKeeps(w, height, coins, seen);
    UnlockedAllCame(w, height, coins, seen);
    var m := UnlockCoins(w, height, coins).value;
    AllOfKeyImage(w, coins, ki, seen);
    var r := AddIncomingKeyimage(w, height, ki).value.wallet;
    hide LockedIds, LockedCoins, UnlockCoins, LockKeyOf, Best, TryAddingIncomingKeyimage, LockedLess;
    SpendTakes(m, ki, seen);
    assert SpendLeaves(m, r, ki) by {
      assert UnspentOf(m, ki).None? ==> r == m;
      assert UnspentOf(m, ki).Some? ==> RemoveFromUnspent(m, UnspentOf(m, ki).value) == Some(r);
    }
    hide AddIncomingKeyimage, UnspentOf, RemoveFromUnspent, Inv, AllLocked;
    SpendThrough(w, m, r, coins, ki);
  }

  lemma AllOfKeyImage(w: Wallet, coins: seq<Coin>, ki: KeyImage, seen: set<CoinId>)
    requires Inv(w, seen) && ki != NO_KEY_IMAGE && AllLocked(w, coins)
    requires LockedCoins(w, ki, LockedIds(w, ki)) == Some(coins) && forall i :: 0 <= i < |coins| ==> coins[i].keyImage == ki
    ensures forall p :: p in coins <==> IsLocked(w, p) && p.keyImage == ki
    ensures forall p :: p in coins ==> !Spent(w, ki)
  {
    hide Indexed, Keyed, SpentUnlocked, Recent, Balanced, LockedCoins, LockedIds, LockKeyOf;
    forall p
      ensures p in coins <==> IsLocked(w, p) && p.keyImage == ki
    {
      if p in coins {
        var i :| 0 <= i < |coins| && coins[i] == p;
        assert IsLocked(w, coins[i]);
      }
      if IsLocked(w, p) && p.keyImage == ki {
        var i := EntryCollected(w, ki, coins, p, seen);
        assert IsLocked(w, coins[i]);
        assert coins[i] == p;
      }
    }
    forall p | p in coins
      ensures !Spent(w, ki)
    {
      LockedNotSpent(w, p, seen);
    }
  }

  /** The output a key image points to is gone, and the key image spent. */
  ghost predicate SpendLeaves(m: Wallet, r: Wallet, ki: KeyImage) {
    && (forall p :: IsUnspent(r, p) <==> IsUnspent(m, p) && p.keyImage != ki)
    && (forall k :: Spent(r, k) <==> Spent(m, k) || (k == ki && exists p :: IsUnspent(m, p) && p.keyImage == ki))
  }

  lemma SpendTakes(m: Wallet, ki: KeyImage, seen: set<CoinId>)
    requires Inv(m, seen) && ki != NO_KEY_IMAGE
    ensures UnspentOf(m, ki).None? ==> SpendLeaves(m, m, ki)
    ensures UnspentOf(m, ki).Some? && RemoveFromUnspent(m, UnspentOf(m, ki).value).Some? ==>
              SpendLeaves(m, RemoveFromUnspent(m, UnspentOf(m, ki).value).value, ki)
  {
    hide Locks, Placed, SpentUnlocked, Recent, Balanced, Keyed, Indexed;
    if UnspentOf(m, ki).Some? {
      var o := UnspentOf(m, ki).value;
      if r :| RemoveFromUnspent(m, o) == Some(r) {
        SpendTakesOne(m, r, o, ki);
      }
    } else {
      SpendTakesNone(m, ki);
    }
  }

  lemma SpendTakesOne(m: Wallet, r: Wallet, o: Coin, ki: KeyImage)
    requires Keyed(m) && Indexed(m) && UnspentOf(m, ki) == Some(o) && ki != NO_KEY_IMAGE
    requires r.unspent == m.unspent - {o.Hag()} && r.byKeyImage == m.byKeyImage
    ensures SpendLeaves(m, r, ki)
  {
    assert IsUnspent(m, o) && o.keyImage == ki;
  }

  lemma SpendTakesNone(m: Wallet, ki: KeyImage)
    requires Keyed(m) && Indexed(m) && UnspentOf(m, ki).None? && ki != NO_KEY_IMAGE
    ensures SpendLeaves(m, m, ki)
  {
  }

  lemma SpendThrough(w: Wallet, m: Wallet, r: Wallet, coins: seq<Coin>, ki: KeyImage)
    requires Came(w, m, coins) && SpendLeaves(m, r, ki) && ki != NO_KEY_IMAGE
    requires forall p :: p in coins <==> IsLocked(w, p) && p.keyImage == ki
    requires forall p :: p in coins ==> !Spent(w, ki)
    ensures forall p :: IsUnspent(r, p) ==> IsUnspent(w, p) && p.keyImage != ki
    ensures forall p :: Covered(w, p) && p.keyImage != ki ==> Covered(r, p)
    ensures forall k :: Spent(r, k) <==> Spent(w, k) || (k == ki && exists p :: Has(w, p) && p.keyImage == ki)
  {
    hide IsUnspent, Spent, IsLocked;
    forall p | Covered(w, p) && p.keyImage != ki
      ensures Covered(r, p)
    {
      if !IsUnspent(m, p) {
        var q :| IsUnspent(m, q) && Outdoes(q, p);
        assert IsUnspent(r, q);
      }
    }
    if p :| IsUnspent(m, p) && p.keyImage == ki {
      assert Has(w, p);
    }
    if p :| Has(w, p) && p.keyImage == ki {
      assert p in coins || Covered(w, p);
      if !Spent(w, ki) {
        assert Covered(m, p);
        if !IsUnspent(m, p) {
          var q :| IsUnspent(m, q) && Outdoes(q, p);
        }
      }
    }
  }

  // ----- along a run -----

  /** It arrived at step `i`, its key image not spent, and has not been spent since. */
  ghost predicate Held(events: seq<Event>, i: nat, o: Coin) {
    && i < |events| && events[i] == Arrives(o)
    && Run(events[..i]).Some? && !Spent(Run(events[..i]).value, o.keyImage)
    && forall j :: i < j < |events| ==> !SpendsOf(events[j], o.keyImage)
  }

  predicate SpendsOf(e: Event, ki: KeyImage) {
    e.Spends? && e.keyImage == ki
  }

  lemma ArrivesHolds(w: Wallet, c: Coin, seen: set<CoinId>)
    requires Inv(w, seen) && c.Pair() !in seen
    ensures AddIncomingOutput(w, c, false).Some?
    ensures var m := AddIncomingOutput(w, c, false).value.wallet;
            && (forall p :: IsUnspent(m, p) ==> IsUnspent(w, p) || (p == c && !Spent(w, c.keyImage)))
            && (forall p :: Covered(w, p) ==> Covered(m, p))
            && (!Spent(w, c.keyImage) ==> IsLocked(m, c) || Covered(m, c))
            && SameSpent(w, m)
  {
    FreshIsFree(w, seen, c.Pair());
    ArrivesLocks(w, c, c, seen);
    if Spent(w, c.keyImage) {
      assert AddIncomingOutput(w, c, false).value.wallet == w by { hide Inv; }
    } else if c.unlock != 0 {
      AddToLockKeeps(w, c);
      hide Inv, AddToLock, Covered, IsUnspent, Spent;
      NoneCame(w, AddToLock(w, c).value);
    } else {
      EntryCame(w, c, false, seen);
      hide Inv, AddIncomingOutput, Covered, IsUnspent, Spent;
    }
  }

  /** One step: who is held before and after, both ways. */
  lemma StepHolds(w: Wallet, e: Event, o: Coin, seen: set<CoinId>)
    requires Inv(w, seen) && seen !! Adds(e) && (e.Spends? ==> e.keyImage != NO_KEY_IMAGE)
    ensures Step(w, e).Some?
    ensures var m, arrived := Step(w, e).value, e == Arrives(o) && !Spent(w, o.keyImage);
            && (Has(m, o) ==> (Has(w, o) && !SpendsOf(e, o.keyImage)) || arrived)
            && (((IsLocked(w, o) || Covered(w, o)) && !SpendsOf(e, o.keyImage)) || arrived ==> IsLocked(m, o) || Covered(m, o))
            && (forall k :: Spent(m, k) <==> Spent(w, k) || (SpendsOf(e, k) && exists p :: Has(w, p) && p.keyImage == k))
  {
    StepLocks(w, e, o, seen);
    hide Inv, Unlock, AddIncomingOutput, AddIncomingKeyimage, IsLocked, Spent, Waits, Covered, IsUnspent;
    match e {
      case Arrives(c) => ArrivesHolds(w, c, seen);
      case Spends(h, ki) => SpendHolds(w, h, ki, seen);
      case Unlocks(h, t) => UnlockHolds(w, h, t, seen);
    }
  }

  lemma HeldNext(events: seq<Event>, o: Coin)
    requires events != []
    ensures var front, e := events[..|events| - 1], events[|events| - 1];
            (exists i :: Held(events, i, o)) <==>
            ((exists i :: Held(front, i, o)) && !SpendsOf(e, o.keyImage))
            || (e == Arrives(o) && Run(front).Some? && !Spent(Run(front).value, o.keyImage))
  {
    hide Run, Spent;
    var front, n := events[..|events| - 1], |events| - 1;
    forall i: nat | i < n
      ensures Held(events, i, o) <==> Held(front, i, o) && !SpendsOf(events[n], o.keyImage)
    {
      assert front[..i] == events[..i];
      assert forall j :: i < j < n ==> front[j] == events[j];
    }
    assert Held(events, n, o) <==> events[n] == Arrives(o) && Run(front).Some? && !Spent(Run(front).value, o.keyImage);
    if i: nat :| Held(front, i, o) && !SpendsOf(events[n], o.keyImage) {
      assert Held(events, i, o);
    }
    if i: nat :| Held(events, i, o) {
      assert i < n ==> Held(front, i, o);
    }
  }

  /** After any run, what is locked or unspent arrived and was not spent since; and
      whatever did so is locked, unspent, or outdone by an unspent output with
      its key image. */
  lemma {:induction false} RunHolds(events: seq<Event>, o: Coin)
    requires Fresh(events)
    ensures Run(events).Some?
    ensures var w := Run(events).value;
            && (Has(w, o) ==> exists i :: Held(events, i, o))
            && ((exists i :: Held(events, i, o)) ==> IsLocked(w, o) || Covered(w, o))
    decreases |events|
  {
    hide Inv, Step, Seen, Fresh, Adds, Held, SpendsOf, Spent, IsLocked, Covered, Has;
    if events == [] {
      NoneHeld(o);
    } else {
      var front := events[..|events| - 1];
      SeenNext(events);
      RunKeeps(front);
      RunHolds(front, o);
      StepHolds(Run(front).value, events[|events| - 1], o, Seen(front));
      HeldNext(events, o);
    }
  }

  lemma NoneHeld(o: Coin)
    ensures !Has(EMPTY_WALLET, o) && !exists i :: Held([], i, o)
  {
  }

  /** A spend that found an output of its key image. */
  ghost predicate SpentBy(events: seq<Event>, j: nat, ki: KeyImage) {
    && j < |events| && SpendsOf(events[j], ki)
    && exists i, o :: Held(events[..j], i, o) && o.keyImage == ki
  }

  lemma SomeHeld(events: seq<Event>, ki: KeyImage)
    requires Fresh(events) && ki != NO_KEY_IMAGE
    ensures Run(events).Some?
    ensures (exists o :: Has(Run(events).value, o) && o.keyImage == ki) <==> (exists i, o :: Held(events, i, o) && o.keyImage == ki)
  {
    hide Run, Fresh, Held, IsLocked, IsUnspent;
    RunKeeps(events);
    var w := Run(events).value;
    if o :| Has(w, o) && o.keyImage == ki {
      RunHolds(events, o);
    }
    if i, o :| Held(events, i, o) && o.keyImage == ki {
      RunHolds(events, o);
      if !Has(w, o) {
        var p :| IsUnspent(w, p) && Outdoes(p, o);
        assert Has(w, p);
      }
    }
  }

  /** After any run a key image is spent exactly when a spend of it came while an
      output of it was held. */
  lemma {:induction false} RunSpends(events: seq<Event>, ki: KeyImage)
    requires Fresh(events) && ki != NO_KEY_IMAGE
    ensures Run(events).Some?
    ensures Spent(Run(events).value, ki) <==> exists j :: SpentBy(events, j, ki)
    decreases |events|
  {
    hide Inv, Step, Seen, Fresh, Adds, Held, SpendsOf, Spent, Has, SpentBy;
    if events == [] {
      NoneSpent(ki);
    } else {
      var front, e := events[..|events| - 1], events[|events| - 1];
      SeenNext(events);
      RunKeeps(front);
      RunSpends(front, ki);
      SomeHeld(front, ki);
      StepSpends(Run(front).value, e, ki, Seen(front));
      SpentNext(events, ki);
    }
  }

  lemma StepSpends(w: Wallet, e: Event, ki: KeyImage, seen: set<CoinId>)
    requires Inv(w, seen) && seen !! Adds(e) && (e.Spends? ==> e.keyImage != NO_KEY_IMAGE)
    ensures Step(w, e).Some?
    ensures Spent(Step(w, e).value, ki) <==> Spent(w, ki) || (SpendsOf(e, ki) && exists p :: Has(w, p) && p.keyImage == ki)
  {
    var any: Coin := Coin(0, 0, 0, 0, ki, "", false);
    hide Inv, Step, Spent, Has, IsLocked, Covered;
    StepHolds(w, e, any, seen);
  }

  lemma NoneSpent(ki: KeyImage)
    ensures !Spent(EMPTY_WALLET, ki) && !exists j :: SpentBy([], j, ki)
  {
  }

  lemma SpentNext(events: seq<Event>, ki: KeyImage)
    requires events != []
    ensures var front, e := events[..|events| - 1], events[|events| - 1];
            (exists j :: SpentBy(events, j, ki)) <==>
            (exists j :: SpentBy(front, j, ki)) || (SpendsOf(e, ki) && exists i, o :: Held(front, i, o) && o.keyImage == ki)
  {
    hide Held, SpendsOf;
    var front, n := events[..|events| - 1], |events| - 1;
    forall j: nat | j < n
      ensures SpentBy(events, j, ki) <==> SpentBy(front, j, ki)
    {
      assert front[..j] == events[..j];
    }
    assert SpentBy(events, n, ki) <==> SpendsOf(events[n], ki) && exists i, o :: Held(front, i, o) && o.keyImage == ki;
    if j: nat :| SpentBy(front, j, ki) {
      assert SpentBy(events, j, ki);
    }
    if j: nat :| SpentBy(events, j, ki) {
      assert j < n ==> SpentBy(front, j, ki);
    }
  }
}
