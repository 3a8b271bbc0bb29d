// WalletStateBasic's indexes: unspent outputs, locked outputs, key images,
// recently unlocked outputs and balances, and what the wallet does to them.
module WalletLedger {
  import opened Basics
  import opened WalletTypes

  const CLAMP := WORD32 - 1

  datatype LockKind = ByHeight | ByTime

  /** Keys of the two lock indexes, by height and by timestamp. */
  datatype LockKey = LockKey(kind: LockKind, clamped: nat, amount: Amount, gi: nat)

  datatype KeyImageKey = KeyImageKey(keyImage: KeyImage, amount: Amount, gi: nat)

  datatype AddressKey = AddressKey(address: Address, hag: HeightAmountGi)

  datatype UnlockKey = UnlockKey(height: Height, amount: Amount, gi: nat)

  function LockKeyOf(o: Coin): LockKey {
    LockKey(if o.unlock < MAX_BLOCK_HEIGHT then ByHeight else ByTime, Min(o.unlock, CLAMP), o.amount, o.gi)
  }

  function KeyImageKeyOf(o: Coin): KeyImageKey {
    KeyImageKey(o.keyImage, o.amount, o.gi)
  }

  datatype Wallet = Wallet(
    balances: map<Address, Balance>,
    byKeyImage: map<KeyImage, HeightAmountGi>,
    unspent: map<HeightAmountGi, Coin>,
    unspentByAddress: set<AddressKey>,
    unlocked: map<UnlockKey, Coin>,
    lockedByKeyImage: map<KeyImageKey, nat>,
    locked: map<LockKey, Coin>)
  {
    function BalanceOf(a: Address): Balance {
      BalanceIn(balances, a)
    }
  }

  function BalanceIn(m: map<Address, Balance>, a: Address): Balance {
    if a in m then m[a] else NO_BALANCE
  }

  const EMPTY_WALLET := Wallet(map[], map[], map[], {}, map[], map[], map[])

  // ----- the operations; None is a failed put or del, which ends the run -----

  function PutBalance(m: map<Address, Balance>, a: Address, b: Balance): map<Address, Balance> {
    if b.Total() == Int128.ZERO && b.TotalOutputs() == 0 then m - {a} else m[a := b]
  }

  /** modify_balance: the address's record, then the whole wallet's. */
  function ModifyBalance(w: Wallet, o: Coin, lockedOp: int, spendableOp: int): Wallet {
    var b := CombineBalance(w.BalanceOf(o.address), o, lockedOp, spendableOp);
    var b2 := CombineBalance(w.BalanceOf(""), o, lockedOp, spendableOp);
    w.(balances := PutBalance(PutBalance(w.balances, o.address, b), "", b2))
  }

  function AddToUnspent(w: Wallet, o: Coin): Option<Wallet> {
    var m := ModifyBalance(w, o, 0, 1);
    if o.Hag() in m.unspent || AddressKey(o.address, o.Hag()) in m.unspentByAddress then None else
    Some(m.(unspent := m.unspent[o.Hag() := o], unspentByAddress := m.unspentByAddress + {AddressKey(o.address, o.Hag())}))
  }

  function RemoveFromUnspent(w: Wallet, o: Coin): Option<Wallet> {
    var m := ModifyBalance(w, o, 0, -1);
    if o.Hag() !in m.unspent || AddressKey(o.address, o.Hag()) !in m.unspentByAddress then None else
    Some(m.(unspent := m.unspent - {o.Hag()}, unspentByAddress := m.unspentByAddress - {AddressKey(o.address, o.Hag())}))
  }

  function AddToLock(w: Wallet, o: Coin): Option<Wallet> {
    var m := ModifyBalance(w, o, 1, 0);
    if LockKeyOf(o) in m.locked then None else
    var n := m.(locked := m.locked[LockKeyOf(o) := o]);
    if o.keyImage == NO_KEY_IMAGE then Some(n)
    else if KeyImageKeyOf(o) in n.lockedByKeyImage then None
    else Some(n.(lockedByKeyImage := n.lockedByKeyImage[KeyImageKeyOf(o) := o.unlock]))
  }

  function RemoveFromLock(w: Wallet, o: Coin): Option<Wallet> {
    var m := ModifyBalance(w, o, -1, 0);
    if LockKeyOf(o) !in m.locked then None else
    var n := m.(locked := m.locked - {LockKeyOf(o)});
    if o.keyImage == NO_KEY_IMAGE then Some(n)
    else if KeyImageKeyOf(o) !in n.lockedByKeyImage then None
    else Some(n.(lockedByKeyImage := n.lockedByKeyImage - {KeyImageKeyOf(o)}))
  }

  /** The unspent output a key image points to. */
  function UnspentOf(w: Wallet, ki: KeyImage): Option<Coin> {
    if ki in w.byKeyImage && w.byKeyImage[ki] in w.unspent then Some(w.unspent[w.byKeyImage[ki]]) else None
  }

  function Spent(w: Wallet, ki: KeyImage): bool {
    ki in w.byKeyImage && w.byKeyImage[ki] !in w.unspent
  }

  datatype Change = Change(wallet: Wallet, amount: Amount)

  /** add_incoming_output: what was added, less what it displaced. */
  function AddIncomingOutput(w: Wallet, o: Coin, justUnlocked: bool): Option<Change> {
    var existing := UnspentOf(w, o.keyImage);
    if Spent(w, o.keyImage) then Some(Change(w, 0))
    else if o.unlock != 0 && !justUnlocked then
      var m :- AddToLock(w, o);
      Some(Change(m, o.amount))
    else if existing.Some? && (o.amount <= w.byKeyImage[o.keyImage].amount || o.address != existing.value.address) then
      Some(Change(w, 0))
    else
      var added := if existing.Some? then o.amount - w.byKeyImage[o.keyImage].amount else o.amount;
      var m :- if existing.Some? then RemoveFromUnspent(w, existing.value) else Some(w);
      var n :- AddToUnspent(m, o);
      Some(Change(if o.keyImage == NO_KEY_IMAGE then n else n.(byKeyImage := n.byKeyImage[o.keyImage := o.Hag()]), added))
  }

  /** unlock of one output at a height. */
  function UnlockCoin(w: Wallet, now: Height, o: Coin): Option<Wallet> {
    var m :- RemoveFromLock(w, o);
    var c :- AddIncomingOutput(m, o, true);
    var k := UnlockKey(now, o.amount, o.gi);
    if k in c.wallet.unlocked then None else
    Some(c.wallet.(unlocked := c.wallet.unlocked[k := o.(amount := c.amount)]))
  }

  function UnlockCoins(w: Wallet, now: Height, coins: seq<Coin>): Option<Wallet> {
    if coins == [] then Some(w) else
    var m :- UnlockCoins(w, now, coins[..|coins| - 1]);
    UnlockCoin(m, now, coins[|coins| - 1])
  }

  // ----- database cursors: ascending by amount, then global index -----

  predicate Before(a: CoinId, b: CoinId) {
    a.amount < b.amount || (a.amount == b.amount && a.gi < b.gi)
  }

  lemma HasFirst(s: set<CoinId>)
    requires s != {}
    ensures exists a :: a in s && forall b :: b in s && b != a ==> Before(a, b)
  {
    var a :| a in s;
    var rest := s - {a};
    assert s == rest + {a};
    if rest != {} {
      HasFirst(rest);
      var b :| b in rest && forall c :: c in rest && c != b ==> Before(b, c);
      if Before(b, a) {
        assert forall c :: c in s && c != b ==> Before(b, c);
      } else {
        assert forall c :: c in s && c != a ==> Before(a, c);
      }
    }
  }

  function Ascending(s: set<CoinId>): (r: seq<CoinId>)
    ensures forall a :: a in r <==> a in s
    ensures forall i, j :: 0 <= i < j < |r| ==> Before(r[i], r[j])
    decreases s
  {
    if s == {} then [] else
    HasFirst(s);
    var a :| a in s && forall b :: b in s && b != a ==> Before(a, b);
    [a] + Ascending(s - {a})
  }

  /** The output in the lock index with a key image, an amount and a global index. */
  function LockedCoin(w: Wallet, ki: KeyImage, id: CoinId): Option<Coin> {
    var k := KeyImageKey(ki, id.amount, id.gi);
    if k !in w.lockedByKeyImage then None else
    var u := w.lockedByKeyImage[k];
    var l := LockKey(if u < MAX_BLOCK_HEIGHT then ByHeight else ByTime, Min(u, CLAMP), id.amount, id.gi);
    if l in w.locked then Some(w.locked[l]) else None
  }

  function LockedIds(w: Wallet, ki: KeyImage): seq<CoinId> {
    Ascending(set k | k in w.lockedByKeyImage && k.keyImage == ki :: CoinId(k.amount, k.gi))
  }

  /** The locked outputs with a key image; a dangling index entry ends the run. */
  function LockedCoins(w: Wallet, ki: KeyImage, ids: seq<CoinId>): (r: Option<seq<Coin>>)
    ensures r.Some? ==> |r.value| == |ids|
  {
    if ids == [] then Some([]) else
    var front :- LockedCoins(w, ki, ids[..|ids| - 1]);
    var c :- LockedCoin(w, ki, ids[|ids| - 1]);
    Some(front + [c])
  }

  /** add_incoming_keyimage: unlock what waits for the key image, then spend. */
  function AddIncomingKeyimage(w: Wallet, height: Height, ki: KeyImage): Option<Change> {
    var coins :- LockedCoins(w, ki, LockedIds(w, ki));
    var m :- UnlockCoins(w, height, coins);
    match UnspentOf(m, ki)
    case None => Some(Change(m, 0))
    case Some(o) =>
      var n :- RemoveFromUnspent(m, o);
      Some(Change(n, o.amount))
  }

  // ----- the read-only predictors -----

  /** try_add_incoming_output: None is "will be ignored". */
  function TryAddIncomingOutput(w: Wallet, o: Coin): Option<Amount> {
    var existing := UnspentOf(w, o.keyImage);
    if Spent(w, o.keyImage) then None
    else if o.unlock != 0 then Some(o.amount)
    else if existing.Some? then
      if o.amount <= w.byKeyImage[o.keyImage].amount || o.address != existing.value.address then None
      else Some(o.amount - w.byKeyImage[o.keyImage].amount)
    else Some(o.amount)
  }

  /** One step of try_adding_incoming_keyimage's loop. */
  function Better(candidate: Option<Coin>, o: Coin): Option<Coin> {
    if candidate.Some? && o.amount <= candidate.value.amount then candidate
    else if candidate.Some? && o.address != candidate.value.address then candidate
    else Some(o)
  }

  function Best(candidate: Option<Coin>, coins: seq<Coin>): Option<Coin> {
    if coins == [] then candidate else Better(Best(candidate, coins[..|coins| - 1]), coins[|coins| - 1])
  }

  /** try_adding_incoming_keyimage: the outer None is a dangling index entry. */
  function TryAddingIncomingKeyimage(w: Wallet, ki: KeyImage): Option<Option<Coin>> {
    var coins :- LockedCoins(w, ki, LockedIds(w, ki));
    Some(Best(UnspentOf(w, ki), coins))
  }

  // ----- unlock by height and time -----

  predicate Due(k: LockKey, height: Height, time: nat) {
    if k.kind == ByHeight then k.clamped <= height else k.clamped <= time
  }

  function DueIds(w: Wallet, height: Height, time: nat): seq<CoinId> {
    Ascending(set k | k in w.locked && Due(k, height, time) :: CoinId(k.amount, k.gi))
  }

  /** The due output with that amount and index (read_unlock_index refuses two). */
  function DueCoin(w: Wallet, height: Height, time: nat, id: CoinId): Option<Coin> {
    var s := set k | k in w.locked && Due(k, height, time) && k.amount == id.amount && k.gi == id.gi;
    if |s| != 1 then None else
    OnlyOne(s);
    var k :| k in s;
    Some(w.locked[k])
  }

  lemma OnlyOne<T>(s: set<T>)
    requires |s| == 1
    ensures forall a, b :: a in s && b in s ==> a == b
  {
    forall a | a in s
      ensures s == {a}
    {
      assert |s - {a}| == 0;
    }
  }

  function DueCoins(w: Wallet, height: Height, time: nat, ids: seq<CoinId>): Option<seq<Coin>> {
    if ids == [] then Some([]) else
    var front :- DueCoins(w, height, time, ids[..|ids| - 1]);
    var c :- DueCoin(w, height, time, ids[|ids| - 1]);
    Some(front + [c])
  }

  function Unlock(w: Wallet, height: Height, time: nat): Option<Wallet> {
    var coins :- DueCoins(w, height, time, DueIds(w, height, time));
    UnlockCoins(w, height, coins)
  }
}
