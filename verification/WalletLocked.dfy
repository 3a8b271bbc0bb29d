// The locked_or_unconfirmed figure of get_balance and the outputs that
// api_get_locked_or_unconfirmed_unspent lists for it.
module WalletLocked {
  import opened Basics
  import opened WalletTypes
  import opened WalletLedger
  import opened WalletInvariant
  import opened WalletRun
  import opened WalletBalance

  // ----- what is listed -----

  /** Records of recent unlocks. Each is looked up under the amount it recorded,
      which is what the unlock added. */
  function Records(w: Wallet, used: set<KeyImage>, a: Address, confirmed: Height): map<UnlockKey, Coin> {
    map u | u in w.unlocked && u.height >= Above(confirmed) && Matches(a, w.unlocked[u])
            && HeightAmountGi(w.unlocked[u].height, w.unlocked[u].amount, w.unlocked[u].gi) in w.unspent
            && w.unlocked[u].keyImage !in used && w.unlocked[u].height <= confirmed
      :: w.unlocked[u]
  }

  /** Outputs of the lock indexes that are not spent in the pool. */
  function StillLocked(w: Wallet, used: set<KeyImage>, a: Address): map<LockKey, Coin> {
    Unused(OfAddress(w.locked, a), used)
  }

  ghost function ListedLocked(w: Wallet, used: set<KeyImage>, a: Address, confirmed: Height): int {
    Sum(Unused(Unconfirmed(w, a, confirmed), used)) + Sum(Records(w, used, a, confirmed)) + Sum(StillLocked(w, used, a))
  }

  /** One loop that lists outputs. */
  method ListAll<K(!new)>(m: map<K, Coin>, result0: seq<Coin>) returns (result: seq<Coin>)
    ensures result0 <= result && |result| == |result0| + |m|
    ensures forall o :: o in result <==> o in result0 || o in m.Values
    ensures SumOf(result, Meter("", AnyAmount)) == SumOf(result0, Meter("", AnyAmount)) + Sum(m)
  {
    hide Total, SumOf;
    result := result0;
    var todo := m;
    ghost var done: map<K, Coin> := map[];
    SumNone<K>();
    while todo != map[]
      invariant (forall k :: k in m <==> k in done || k in todo) && done.Keys !! todo.Keys
      invariant (forall k :: k in done ==> done[k] == m[k]) && (forall k :: k in todo ==> todo[k] == m[k])
      invariant result0 <= result && |result| == |result0| + |done|
      invariant forall o :: o in result <==> o in result0 || o in done.Values
      invariant SumOf(result, Meter("", AnyAmount)) == SumOf(result0, Meter("", AnyAmount)) + Sum(done)
      decreases |todo|
    {
      var k :| k in todo;
      var o := todo[k];
      SumOfAppend(result, o);
      TotalAdd(done, k, o, Meter("", AnyAmount));
      ValuesMore(done, k, o);
      result := result + [o];
      todo := todo - {k};
      done := done[k := o];
    }
    assert done == m;
  }

  lemma SumNone<K(!new)>()
    ensures Sum<K>(map[]) == 0
  {
  }

  lemma ValuesMore<K(!new)>(m: map<K, Coin>, k: K, o: Coin)
    requires k !in m
    ensures m[k := o].Values == m.Values + {o} && |m[k := o]| == |m| + 1
  {
    forall x
      ensures x in m[k := o].Values <==> x in m.Values || x == o
    {
      if x in m.Values {
        var j :| j in m && m[j] == x;
        assert m[k := o][j] == x;
      }
      assert m[k := o][k] == o;
    }
  }

  /** api_get_locked_or_unconfirmed_unspent. */
  method ApiGetLockedOrUnconfirmedUnspent(w: Wallet, used: set<KeyImage>, a: Address, confirmed: Height) returns (result: seq<Coin>)
    ensures SumOf(result, Meter("", AnyAmount)) == ListedLocked(w, used, a, confirmed)
    ensures forall o :: o in result <==> o in Unused(Unconfirmed(w, a, confirmed), used).Values
                                         || o in Records(w, used, a, confirmed).Values || o in StillLocked(w, used, a).Values
  {
    var l1, l2, l3 := Unused(Unconfirmed(w, a, confirmed), used), Records(w, used, a, confirmed), StillLocked(w, used, a);
    SumOfNone();
    hide Total, SumOf, Unused, Unconfirmed, Records, StillLocked;
    result := ListAll(l1, []);
    result := ListAll(l2, result);
    result := ListAll(l3, result);
  }

  // ----- the figure and the list -----

  /** The record of an unlock that displaced a smaller output has the difference
      of the two amounts, and that of one that was ignored has none. */
  predicate Whole(w: Wallet, u: UnlockKey) {
    u in w.unlocked && w.unlocked[u].amount == u.amount
  }

  function WholeOf(w: Wallet, m: map<UnlockKey, Coin>): map<UnlockKey, Coin> {
    map u | u in m && Whole(w, u) :: m[u]
  }

  function PartialOf(w: Wallet, m: map<UnlockKey, Coin>): map<UnlockKey, Coin> {
    map u | u in m && !Whole(w, u) :: m[u]
  }

  function SpentLocked(w: Wallet, used: set<KeyImage>, a: Address): map<LockKey, Coin> {
    map k | k in w.locked && Matches(a, w.locked[k]) && w.locked[k].keyImage in used :: w.locked[k]
  }

  /** In the balance, but not found for the list. */
  function Missed(w: Wallet, used: set<KeyImage>, a: Address, confirmed: Height): map<UnlockKey, Coin> {
    PartialOf(w, RecentlyUnlocked(w, used, a, confirmed))
  }

  /** Found for the list under the amount of another output. */
  function Stray(w: Wallet, used: set<KeyImage>, a: Address, confirmed: Height): map<UnlockKey, Coin> {
    PartialOf(w, Records(w, used, a, confirmed))
  }

  lemma {:induction false} SumParts<K(!new)>(m: map<K, Coin>, p: map<K, Coin>, q: map<K, Coin>)
    requires forall k :: k in m <==> k in p || k in q
    requires p.Keys !! q.Keys && (forall k :: k in p ==> p[k] == m[k]) && (forall k :: k in q ==> q[k] == m[k])
    ensures Sum(m) == Sum(p) + Sum(q)
    decreases |q|
  {
    hide Total;
    if q == map[] {
      SumNone<K>();
      assert m == p;
    } else {
      var k :| k in q;
      TotalRemove(q, k, Meter("", AnyAmount));
      TotalRemove(m, k, Meter("", AnyAmount));
      SumParts(m - {k}, p, q - {k});
    }
  }

  lemma {:induction false} SameAmounts<K(!new)>(m: map<K, Coin>, n: map<K, Coin>)
    requires m.Keys == n.Keys && forall k :: k in m ==> m[k].amount == n[k].amount
    ensures Sum(m) == Sum(n)
    decreases |m|
  {
    hide Total;
    if m == map[] {
      assert n == map[];
    } else {
      var k :| k in m;
      TotalRemove(m, k, Meter("", AnyAmount));
      TotalRemove(n, k, Meter("", AnyAmount));
      SameAmounts(m - {k}, n - {k});
    }
  }

  lemma LockedParts(w: Wallet, used: set<KeyImage>, a: Address)
    ensures Total(w.locked, Meter(a, AnyAmount)) == Sum(StillLocked(w, used, a)) + Sum(SpentLocked(w, used, a))
  {
    TotalOfAddress(w.locked, a, AnyAmount);
    hide Total;
    SumParts(OfAddress(w.locked, a), StillLocked(w, used, a), SpentLocked(w, used, a));
  }

  lemma RecordsParts(w: Wallet, m: map<UnlockKey, Coin>)
    ensures Sum(m) == Sum(WholeOf(w, m)) + Sum(PartialOf(w, m))
  {
    hide Total, Whole;
    SumParts(m, WholeOf(w, m), PartialOf(w, m));
  }

  /** A recent output that is in the pool's way by its record is so itself. */
  lemma RecentUnused(w: Wallet, used: set<KeyImage>, a: Address, confirmed: Height)
    requires Recent(w)
    ensures Unused(RecentlyUnlocked(w, used, a, confirmed), used) == RecentlyUnlocked(w, used, a, confirmed)
  {
    var m := RecentlyUnlocked(w, used, a, confirmed);
    forall u | u in m
      ensures m[u].keyImage !in used
    {
      var h := HeightAmountGi(w.unlocked[u].height, u.amount, u.gi);
      assert h in w.unspent && u.amount == h.amount && u.gi == h.gi;
    }
  }

  /** Whole records are visited by both loops, with the same amounts. */
  lemma WholeSame(w: Wallet, used: set<KeyImage>, a: Address, confirmed: Height)
    requires Indexed(w) && Recent(w)
    ensures Sum(WholeOf(w, RecentlyUnlocked(w, used, a, confirmed))) == Sum(WholeOf(w, Records(w, used, a, confirmed)))
  {
    hide Total;
    var p, q := WholeOf(w, RecentlyUnlocked(w, used, a, confirmed)), WholeOf(w, Records(w, used, a, confirmed));
    forall u
      ensures u in p <==> u in q
    {
      WholeVisited(w, used, a, confirmed, u);
    }
    forall u | u in p
      ensures p[u].amount == q[u].amount
    {
      WholeVisited(w, used, a, confirmed, u);
    }
    hide WholeOf, RecentlyUnlocked, Records;
    SameAmounts(p, q);
  }

  lemma WholeVisited(w: Wallet, used: set<KeyImage>, a: Address, confirmed: Height, u: UnlockKey)
    requires Indexed(w) && Recent(w)
    ensures var m, n := RecentlyUnlocked(w, used, a, confirmed), Records(w, used, a, confirmed);
            Whole(w, u) ==> (u in m <==> u in n) && (u in m ==> m[u].amount == n[u].amount)
  {
  }

  /** The figure exceeds the list by the locked outputs spent in the pool and the
      recent ones with a partial record, less what such records find by mistake;
      so the two agree exactly when these are the same. */
  lemma LockedGap(w: Wallet, used: set<KeyImage>, a: Address, confirmed: Height, seen: set<CoinId>)
    requires Inv(w, seen)
    ensures var figure, listed := Reported(w, used, a, confirmed).locked, ListedLocked(w, used, a, confirmed);
            var hidden, stray := Sum(SpentLocked(w, used, a)) + Sum(Missed(w, used, a, confirmed)), Sum(Stray(w, used, a, confirmed));
            && figure == listed + hidden - stray
            && (figure == listed <==> hidden == stray)
  {
    LockedParts(w, used, a);
    RecentUnused(w, used, a, confirmed);
    WholeSame(w, used, a, confirmed);
    RecordsParts(w, RecentlyUnlocked(w, used, a, confirmed));
    RecordsParts(w, Records(w, used, a, confirmed));
    SumNone<KeyImage>();
    hide Inv, Total, WholeOf, PartialOf, Unconfirmed, RecentlyUnlocked, SpentInPool, Unused, Records, StillLocked, SpentLocked;
  }

  /** No locked output spent in the pool and no recent unlock that displaced
      another output: then the list is the figure. */
  lemma LockedListed(w: Wallet, used: set<KeyImage>, a: Address, confirmed: Height, seen: set<CoinId>)
    requires Inv(w, seen)
    requires forall k :: k in w.locked && Matches(a, w.locked[k]) ==> w.locked[k].keyImage !in used
    requires forall u :: u in w.unlocked && u.height >= Above(confirmed) && Matches(a, w.unlocked[u]) ==> Whole(w, u)
    ensures Reported(w, used, a, confirmed).locked == ListedLocked(w, used, a, confirmed)
  {
    hide Inv, Total, Sum, Reported, ListedLocked, Whole;
    LockedGap(w, used, a, confirmed, seen);
    assert SpentLocked(w, used, a) == map[];
    assert Missed(w, used, a, confirmed) == map[] && Stray(w, used, a, confirmed) == map[];
    SumNone<LockKey>();
    SumNone<UnlockKey>();
  }

  // ----- an output that is in no list -----

  const SMALL := Coin(3, 0, 1, 0, 9, "a", false)
  const LARGE := Coin(5, 1, 2, 10, 9, "a", false)

  ghost predicate AfterSmall(w: Wallet) {
    w.unspent == map[SMALL.Hag() := SMALL] && w.byKeyImage == map[9 := SMALL.Hag()] && w.locked == map[] && w.unlocked == map[]
  }

  ghost predicate AfterLarge(w: Wallet) {
    && w.unspent == map[SMALL.Hag() := SMALL] && w.byKeyImage == map[9 := SMALL.Hag()]
    && w.locked == map[LockKeyOf(LARGE) := LARGE] && w.unlocked == map[]
  }

  ghost predicate AfterUnlock(w: Wallet) {
    && w.unspent == map[LARGE.Hag() := LARGE] && w.locked == map[]
    && w.unlocked == map[UnlockKey(10, 5, 1) := LARGE.(amount := 2)]
  }

  lemma SmallArrives()
    ensures var r := Step(EMPTY_WALLET, Arrives(SMALL)); r.Some? && Inv(r.value, {SMALL.Pair()}) && AfterSmall(r.value)
  {
    EmptyKeeps();
    assert Seen([]) == {} && {} + {SMALL.Pair()} == {SMALL.Pair()};
    assert Enters(EMPTY_WALLET, SMALL) && UnspentOf(EMPTY_WALLET, 9) == None;
    FreshIsFree(EMPTY_WALLET, {}, SMALL.Pair());
    hide Inv, AddIncomingOutput, AddToUnspent, Pointed;
    AddIncomingKeeps(EMPTY_WALLET, SMALL, {});
    ComeInEmpty();
  }

  lemma ComeInEmpty()
    requires Inv(EMPTY_WALLET, {}) && Free(EMPTY_WALLET, SMALL.Pair()) && Enters(EMPTY_WALLET, SMALL)
    ensures AddIncomingOutput(EMPTY_WALLET, SMALL, false).Some?
    ensures CameIn(EMPTY_WALLET, AddIncomingOutput(EMPTY_WALLET, SMALL, false).value.wallet, SMALL, None)
  {
    ComeInIndexes(EMPTY_WALLET, SMALL, None);
    ComeInIs(EMPTY_WALLET, SMALL, false);
  }

  lemma LargeArrives(w: Wallet)
    requires Inv(w, {SMALL.Pair()}) && AfterSmall(w)
    ensures var r := Step(w, Arrives(LARGE));
            r.Some? && Inv(r.value, {SMALL.Pair()} + {LARGE.Pair()}) && AfterLarge(r.value)
  {
    hide Indexed, Placed, Keyed, SpentUnlocked, Recent;
    AddIncomingKeeps(w, LARGE, {SMALL.Pair()});
    AddToLockKeeps(w, LARGE);
    hide Inv, AddToLock;
    assert !Spent(w, 9);
  }

  /** It is unlocked at height 10 and takes the place of the small one. */
  lemma LargeUnlocks(w: Wallet, seen: set<CoinId>)
    requires Inv(w, seen) && AfterLarge(w)
    ensures UnlockCoin(w, 10, LARGE).Some? && AfterUnlock(UnlockCoin(w, 10, LARGE).value)
  {
    hide Inv, RemoveFromLock, AddIncomingOutput, Free;
    assert IsLocked(w, LARGE);
    TakeFromLock(w, LARGE, seen);
    var m := RemoveFromLock(w, LARGE).value;
    assert UnspentOf(m, 9) == Some(SMALL) && Enters(m, LARGE);
    LargeEnters(m, seen);
    hide Enters;
    var c := AddIncomingOutput(m, LARGE, true).value;
    UnlockCoinIs(w, 10, LARGE, m, c);
    LargeRecorded(w, m, c);
  }

  lemma LargeRecorded(w: Wallet, m: Wallet, c: Change)
    requires AfterLarge(w) && SameUnspent(w, m) && m.locked == w.locked - {LockKeyOf(LARGE)}
    requires c.amount == 2 && CameIn(m, c.wallet, LARGE, Some(SMALL))
    ensures AfterUnlock(Recorded(c, 10, LARGE))
  {
  }

  lemma LargeEnters(m: Wallet, seen: set<CoinId>)
    requires Inv(m, seen) && Free(m, LARGE.Pair()) && Enters(m, LARGE) && UnspentOf(m, 9) == Some(SMALL)
    requires m.byKeyImage == map[9 := SMALL.Hag()]
    ensures var c := AddIncomingOutput(m, LARGE, true);
            c.Some? && c.value.amount == 2 && CameIn(m, c.value.wallet, LARGE, Some(SMALL))
  {
    ComeInIndexes(m, LARGE, Some(SMALL));
    ComeInIs(m, LARGE, true);
    hide Inv, AddToUnspent, RemoveFromUnspent, CameIn;
  }

  lemma LargeDue(w: Wallet)
    requires AfterLarge(w)
    ensures Unlock(w, 10, 0) == UnlockCoin(w, 10, LARGE)
  {
    var id, ids := LARGE.Pair(), DueIds(w, 10, 0);
    DueIdsAre(w, 10, 0);
    assert LockKeyOf(LARGE) in w.locked;
    assert id in ids;
    assert forall i :: 0 <= i < |ids| ==> ids[i] == id;
    assert |ids| >= 2 ==> WalletLedger.Before(ids[0], ids[1]);
    assert ids == [id];
    DueLarge(w);
    hide UnlockCoin, DueIds, DueCoin;
    assert ids[..0] == [] && [LARGE][..0] == [];
    assert DueCoins(w, 10, 0, ids[..0]) == Some([]);
    assert UnlockCoins(w, 10, [LARGE][..0]) == Some(w);
  }

  lemma DueLarge(w: Wallet)
    requires AfterLarge(w)
    ensures DueCoin(w, 10, 0, LARGE.Pair()) == Some(LARGE)
  {
    var s := set k | k in w.locked && Due(k, 10, 0) && k.amount == 5 && k.gi == 1;
    assert s == {LockKeyOf(LARGE)};
  }

  /** Such a wallet: what was unlocked is in no figure but the locked one, and in
      neither list. */
  lemma UnlockedNowhere(w: Wallet, seen: set<CoinId>)
    requires Inv(w, seen) && AfterUnlock(w)
    ensures Reported(w, {}, "", 5).locked == 5 && ListedLocked(w, {}, "", 5) == 0 && Listed(w, {}, "", 5) == map[]
  {
    hide Inv, Total, Reported, ListedLocked, Sum;
    assert Unconfirmed(w, "", 5) == map[] && Unused(Unconfirmed(w, "", 5), {}) == map[];
    assert Records(w, {}, "", 5) == map[];
    assert StillLocked(w, {}, "") == map[] && SpentLocked(w, {}, "") == map[];
    var u := UnlockKey(10, 5, 1);
    assert u in RecentlyUnlocked(w, {}, "", 5) && RecentlyUnlocked(w, {}, "", 5) == map[u := LARGE];
    assert Missed(w, {}, "", 5) == map[u := LARGE] && Stray(w, {}, "", 5) == map[];
    assert CoinId(5, 1) in RecentIds(w, "", 5);
    assert Listed(w, {}, "", 5) == map[];
    hide RecentlyUnlocked, Records, StillLocked, SpentLocked, Missed, Stray, Listed, Unconfirmed, Unused;
    LockedGap(w, {}, "", 5, seen);
    UnlockedSums(w, u);
  }

  lemma UnlockedSums(w: Wallet, u: UnlockKey)
    requires Unused(Unconfirmed(w, "", 5), {}) == map[] && Records(w, {}, "", 5) == map[] && StillLocked(w, {}, "") == map[]
    requires SpentLocked(w, {}, "") == map[] && Missed(w, {}, "", 5) == map[u := LARGE] && Stray(w, {}, "", 5) == map[]
    ensures ListedLocked(w, {}, "", 5) == 0
    ensures Sum(SpentLocked(w, {}, "")) + Sum(Missed(w, {}, "", 5)) - Sum(Stray(w, {}, "", 5)) == 5
  {
    SumNone<HeightAmountGi>();
    SumNone<UnlockKey>();
    SumNone<LockKey>();
    TotalAdd<UnlockKey>(map[], u, LARGE, Meter("", AnyAmount));
  }

  /** A run that gets there: an output of 3 is there when a locked one of 5 with
      its key image arrives, and is unlocked and displaces it. */
  lemma LockedListFails()
    ensures var events := [Arrives(SMALL), Arrives(LARGE), Unlocks(10, 0)];
            && Run(events).Some?
            && var w := Run(events).value;
               Reported(w, {}, "", 5).locked == 5 && ListedLocked(w, {}, "", 5) == 0 && Listed(w, {}, "", 5) == map[]
  {
    var seen := {SMALL.Pair()} + {LARGE.Pair()};
    hide Inv, AfterSmall, AfterLarge, AfterUnlock, AddIncomingOutput, UnlockCoin, Unlock, Reported, ListedLocked, Listed, Run;
    SmallArrives();
    var w1 := Step(EMPTY_WALLET, Arrives(SMALL)).value;
    LargeArrives(w1);
    var w2 := Step(w1, Arrives(LARGE)).value;
    LargeDue(w2);
    LargeUnlocks(w2, seen);
    UnlockKeeps(w2, 10, 0, seen);
    var w3 := Unlock(w2, 10, 0).value;
    ThreeSteps(Arrives(SMALL), Arrives(LARGE), Unlocks(10, 0), w1, w2, w3);
    UnlockedNowhere(w3, seen);
  }

  lemma ThreeSteps(e1: Event, e2: Event, e3: Event, w1: Wallet, w2: Wallet, w3: Wallet)
    requires Step(EMPTY_WALLET, e1) == Some(w1) && Step(w1, e2) == Some(w2) && Step(w2, e3) == Some(w3)
    ensures Run([e1, e2, e3]) == Some(w3)
  {
    hide Step;
    var events := [e1, e2, e3];
    assert events[..2] == [e1, e2] && [e1, e2][..1] == [e1] && [e1][..0] == [];
    assert Run([e1]) == Some(w1);
    assert Run([e1, e2]) == Some(w2);
  }
}
