// get_balance and api_add_unspent: the balance a wallet reports and the
// outputs it lists agree.
module WalletBalance {
  import opened Basics
  import opened Int128
  import opened WalletTypes
  import opened WalletLedger
  import opened WalletInvariant
  import opened WalletRun

  const MAX_HEIGHT := WORD32 - 1

  /** api_add_unspent lists at least this many before it stops for the amount. */
  const MIN_COUNT := 10000

  /** The first height above `h`, in 32-bit arithmetic. */
  function Above(h: Height): Height {
    (h + 1) % WORD32
  }

  // ----- what each correction loop visits -----

  /** Outputs above the confirmed height. */
  function Unconfirmed(w: Wallet, a: Address, confirmed: Height): map<HeightAmountGi, Coin> {
    map h | h in w.unspent && Matches(a, w.unspent[h]) && h.height >= Above(confirmed) :: w.unspent[h]
  }

  /** Recently unlocked outputs, still unspent, confirmed and not spent in the pool. */
  function RecentlyUnlocked(w: Wallet, used: set<KeyImage>, a: Address, confirmed: Height): map<UnlockKey, Coin> {
    map u | u in w.unlocked && u.height >= Above(confirmed) && Matches(a, w.unlocked[u])
            && HeightAmountGi(w.unlocked[u].height, u.amount, u.gi) in w.unspent
            && w.unlocked[u].keyImage !in used && w.unlocked[u].height <= confirmed
      :: w.unspent[HeightAmountGi(w.unlocked[u].height, u.amount, u.gi)]
  }

  /** Confirmed outputs spent in the pool, by their key image. */
  function SpentInPool(w: Wallet, used: set<KeyImage>, a: Address, confirmed: Height): map<KeyImage, Coin> {
    map i | i in used && i in w.byKeyImage && w.byKeyImage[i] in w.unspent
            && w.unspent[w.byKeyImage[i]].height <= confirmed && Matches(a, w.unspent[w.byKeyImage[i]])
      :: w.unspent[w.byKeyImage[i]]
  }

  function RecentIds(w: Wallet, a: Address, confirmed: Height): set<CoinId> {
    set u | u in w.unlocked && u.height >= Above(confirmed) && Matches(a, w.unlocked[u]) :: CoinId(u.amount, u.gi)
  }

  /** What api_add_unspent lists. */
  function Listed(w: Wallet, used: set<KeyImage>, a: Address, confirmed: Height): map<HeightAmountGi, Coin> {
    map h | h in w.unspent && Matches(a, w.unspent[h]) && h.height <= confirmed
            && w.unspent[h].keyImage !in used && CoinId(h.amount, h.gi) !in RecentIds(w, a, confirmed)
      :: w.unspent[h]
  }

  // ----- the loops -----

  /** The figures of a balance as sums of integers and counts. */
  datatype Figures = Figures(plain: int, dust: int, locked: int, nPlain: int, nDust: int, nLocked: int)

  ghost predicate Shows(b: Balance, f: Figures) {
    && b.spendable == FromInt(f.plain) && b.dust == FromInt(f.dust) && b.locked == FromInt(f.locked)
    && b.nSpendable == f.nPlain && b.nDust == f.nDust && b.nLocked == f.nLocked
  }

  /** One output leaves the spendable figures and may go to the locked ones. */
  ghost function Moved(f: Figures, o: Coin, toLocked: bool): Figures {
    Figures(f.plain - Reads(Meter("", PlainAmount), o), f.dust - Reads(Meter("", DustAmount), o),
            f.locked + (if toLocked then o.amount else 0),
            f.nPlain - Reads(Meter("", PlainCount), o), f.nDust - Reads(Meter("", DustCount), o),
            f.nLocked + if toLocked then 1 else 0)
  }

  lemma CombineShows(b: Balance, f: Figures, o: Coin, toLocked: bool)
    requires Shows(b, f)
    ensures Shows(CombineBalance(b, o, if toLocked then 1 else 0, -1), Moved(f, o, toLocked))
  {
    SubInts(f.plain, o.amount);
    SubInts(f.dust, o.amount);
    AddInts(f.locked, o.amount);
  }

  ghost function PlainSum<K(!new)>(m: map<K, Coin>): int {
    Total(m, Meter("", PlainAmount))
  }

  ghost function DustSum<K(!new)>(m: map<K, Coin>): int {
    Total(m, Meter("", DustAmount))
  }

  ghost function Sum<K(!new)>(m: map<K, Coin>): int {
    Total(m, Meter("", AnyAmount))
  }

  ghost function Count<K(!new)>(m: map<K, Coin>, what: What): int {
    Total(m, Meter("", CountOf(what)))
  }

  /** Those not spent in the pool. */
  function Unused<K>(m: map<K, Coin>, used: set<KeyImage>): map<K, Coin> {
    map k | k in m && m[k].keyImage !in used :: m[k]
  }

  /** All visited outputs leave the spendable figures; those `kept` become locked. */
  ghost function Less<K(!new)>(f: Figures, visited: map<K, Coin>, kept: map<K, Coin>): Figures {
    Figures(f.plain - PlainSum(visited), f.dust - DustSum(visited), f.locked + Sum(kept),
            f.nPlain - Count(visited, PlainAmount), f.nDust - Count(visited, DustAmount), f.nLocked + Count(kept, AnyAmount))
  }

  lemma LessNone<K(!new)>(f: Figures)
    ensures Less<K>(f, map[], map[]) == f
  {
  }

  lemma LessMore<K(!new)>(f: Figures, visited: map<K, Coin>, kept: map<K, Coin>, k: K, o: Coin, toLocked: bool)
    requires k !in visited && k !in kept
    ensures Less(f, visited[k := o], if toLocked then kept[k := o] else kept) == Moved(Less(f, visited, kept), o, toLocked)
  {
    hide Total;
    TotalAddAll(visited, k, o);
    TotalAddAll(kept, k, o);
  }

  lemma TotalAddAll<K(!new)>(m: map<K, Coin>, k: K, o: Coin)
    requires k !in m
    ensures forall what :: Total(m[k := o], Meter("", what)) == Total(m, Meter("", what)) + Reads(Meter("", what), o)
  {
    forall what {
      TotalAdd(m, k, o, Meter("", what));
    }
  }

  /** One correction loop: every visited output leaves the spendable figures,
      and is counted as locked if the loop says so and it is not spent in the
      pool. */
  method Correct<K(!new)>(b0: Balance, visited: map<K, Coin>, used: set<KeyImage>, toLocked: bool, ghost f: Figures)
    returns (b: Balance)
    requires Shows(b0, f)
    ensures Shows(b, Less(f, visited, if toLocked then Unused(visited, used) else map[]))
  {
    b := b0;
    var todo := visited;
    ghost var done: map<K, Coin>, kept: map<K, Coin> := map[], map[];
    LessNone<K>(f);
    hide Shows, Less;
    while todo != map[]
      invariant (forall k :: k in visited <==> k in done || k in todo) && done.Keys !! todo.Keys
      invariant (forall k :: k in done ==> done[k] == visited[k]) && (forall k :: k in todo ==> todo[k] == visited[k])
      invariant kept == if toLocked then Unused(done, used) else map[]
      invariant Shows(b, Less(f, done, kept))
      decreases |todo|
    {
      var k :| k in todo;
      var o := todo[k];
      var lock := toLocked && o.keyImage !in used;
      CombineShows(b, Less(f, done, kept), o, lock);
      LessMore(f, done, kept, k, o, lock);
      b := CombineBalance(b, o, if lock then 1 else 0, -1);
      todo := todo - {k};
      done, kept := done[k := o], if lock then kept[k := o] else kept;
    }
    assert done == visited;
  }

  /** get_balance. */
  method GetBalance(w: Wallet, used: set<KeyImage>, a: Address, confirmed: Height) returns (b: Balance)
    requires Balanced(w)
    ensures Shows(b, Reported(w, used, a, confirmed))
  {
    hide Stored, Shows, Less, Unconfirmed, RecentlyUnlocked, SpentInPool, Unused, Balanced;
    b := w.BalanceOf(a);
    StoredShows(w, a);
    ghost var f := Stored(w, a);
    var v1, v2, v3 := Unconfirmed(w, a, confirmed), RecentlyUnlocked(w, used, a, confirmed), SpentInPool(w, used, a, confirmed);
    b := Correct(b, v1, used, true, f);
    f := Less(f, v1, Unused(v1, used));
    b := Correct(b, v2, used, true, f);
    f := Less(f, v2, Unused(v2, used));
    b := Correct(b, v3, used, false, f);
  }

  /** What the stored balance shows. */
  ghost function Stored(w: Wallet, a: Address): Figures {
    Figures(Total(w.unspent, Meter(a, PlainAmount)), Total(w.unspent, Meter(a, DustAmount)), Total(w.locked, Meter(a, AnyAmount)),
            Total(w.unspent, Meter(a, PlainCount)), Total(w.unspent, Meter(a, DustCount)), Total(w.locked, Meter(a, AnyCount)))
  }

  lemma StoredShows(w: Wallet, a: Address)
    requires Balanced(w)
    ensures Shows(w.BalanceOf(a), Stored(w, a))
  {
  }

  /** What get_balance reports. */
  ghost function Reported(w: Wallet, used: set<KeyImage>, a: Address, confirmed: Height): Figures {
    var v1, v2, v3 := Unconfirmed(w, a, confirmed), RecentlyUnlocked(w, used, a, confirmed), SpentInPool(w, used, a, confirmed);
    var none: map<KeyImage, Coin> := map[];
    Less(Less(Less(Stored(w, a), v1, Unused(v1, used)), v2, Unused(v2, used)), v3, none)
  }

  ghost function ReportedPlain(w: Wallet, used: set<KeyImage>, a: Address, confirmed: Height): int {
    Reported(w, used, a, confirmed).plain
  }

  ghost function ReportedDust(w: Wallet, used: set<KeyImage>, a: Address, confirmed: Height): int {
    Reported(w, used, a, confirmed).dust
  }

  // ----- listing -----

  ghost function SumOf(coins: seq<Coin>, mt: Meter): int {
    if coins == [] then 0 else SumOf(coins[..|coins| - 1], mt) + Reads(mt, coins[|coins| - 1])
  }

  lemma SumOfAppend(coins: seq<Coin>, o: Coin)
    ensures forall what :: SumOf(coins + [o], Meter("", what)) == SumOf(coins, Meter("", what)) + Reads(Meter("", what), o)
  {
    assert (coins + [o])[..|coins|] == coins;
  }

  lemma TotalRemoveAll(m: map<HeightAmountGi, Coin>, h: HeightAmountGi)
    requires h in m
    ensures forall what :: Total(m, Meter("", what)) == Total(m - {h}, Meter("", what)) + Reads(Meter("", what), m[h])
  {
    forall what {
      TotalRemove(m, h, Meter("", what));
    }
  }

  /** The order of the unspent index. */
  predicate Before(x: HeightAmountGi, y: HeightAmountGi) {
    x.height < y.height || (x.height == y.height && (x.amount < y.amount || (x.amount == y.amount && x.gi < y.gi)))
  }

  function First(keys: set<HeightAmountGi>): (r: HeightAmountGi)
    requires keys != {}
    ensures r in keys && forall k :: k in keys && k != r ==> Before(r, k)
  {
    HasFirst(keys);
    var r :| r in keys && forall k :: k in keys && k != r ==> Before(r, k);
    r
  }

  lemma {:induction false} HasFirst(keys: set<HeightAmountGi>)
    requires keys != {}
    ensures exists r :: r in keys && forall k :: k in keys && k != r ==> Before(r, k)
    decreases |keys|
  {
    var k :| k in keys;
    var rest := keys - {k};
    assert keys == rest + {k};
    if rest != {} {
      HasFirst(rest);
      var m :| m in rest && forall j :: j in rest && j != m ==> Before(m, j);
      var r := if Before(k, m) then k else m;
      assert r in keys && forall j :: j in keys && j != r ==> Before(r, j);
    }
  }

  /** Enough was found to stop early. */
  predicate Capped(total: Amount, count: nat, maxAmount: Amount) {
    total >= maxAmount && count >= MIN_COUNT
  }

  ghost predicate InOrder(coins: seq<Coin>) {
    forall i, j :: 0 <= i < j < |coins| ==> Before(coins[i].Hag(), coins[j].Hag())
  }

  /** total_amount after these outputs, in 64 bits. */
  ghost function TotalAfter(total0: Amount, coins: seq<Coin>): Amount {
    (total0 + SumOf(coins, Meter("", PlainAmount))) % WORD
  }

  /** No shorter list was enough. */
  ghost predicate NotCapped(coins: seq<Coin>, total0: Amount, count0: nat, maxAmount: Amount) {
    forall n :: 0 < n < |coins| ==> !Capped(TotalAfter(total0, coins[..n]), count0 + n, maxAmount)
  }

  /** What one call adds to a list: outputs in the order of the index, none
      before them left out, up to the first place where there is enough. */
  ghost predicate Adds(taken: seq<Coin>, all: map<HeightAmountGi, Coin>) {
    && InOrder(taken)
    && (forall o :: o in taken ==> o.Hag() in all && all[o.Hag()] == o)
    && (forall o, h :: o in taken && h in all && Before(h, o.Hag()) ==> all[h] in taken)
  }

  /** api_add_unspent: it adds to a list and to a 64-bit amount, and stops when
      both are large enough; the result says that it did not stop. */
  method ApiAddUnspent(w: Wallet, used: set<KeyImage>, a: Address, confirmed: Height, maxAmount: Amount,
                       result0: seq<Coin>, total0: Amount) returns (complete: bool, result: seq<Coin>, total: Amount)
    requires Indexed(w) && total0 < WORD
    ensures result0 <= result
    ensures var all, taken := Listed(w, used, a, confirmed), result[|result0|..];
            && Adds(taken, all)
            && NotCapped(taken, total0, |result0|, maxAmount)
            && total == TotalAfter(total0, taken)
            && (complete ==> (forall h :: h in all ==> all[h] in taken)
                             && forall what :: SumOf(taken, Meter("", what)) == Total(all, Meter("", what)))
            && (!complete ==> taken != [] && Capped(total, |result|, maxAmount))
  {
    var all := Listed(w, used, a, confirmed);
    assert forall h :: h in all ==> all[h].Hag() == h;
    hide Total, SumOf, Listed, Listing, Capped, Adds, NotCapped;
    var taken;
    ghost var todo;
    complete, taken, total, todo := Take(all, maxAmount, |result0|, total0);
    result := result0 + taken;
    assert result[|result0|..] == taken;
    ListingIs(taken, todo, all, total, total0, |result0|, maxAmount);
  }

  /** total_amount after one more output, in 64 bits. */
  function WithPlain(total: Amount, o: Coin): Amount {
    if o.dust then total else (total + o.amount) % WORD
  }

  /** The loop over the index. */
  method Take(all: map<HeightAmountGi, Coin>, maxAmount: Amount, count0: nat, total0: Amount)
    returns (complete: bool, taken: seq<Coin>, total: Amount, ghost todo: map<HeightAmountGi, Coin>)
    requires total0 < WORD && forall h :: h in all ==> all[h].Hag() == h
    ensures Listing(taken, todo, all, total, total0, count0, maxAmount)
    ensures complete ==> todo == map[]
    ensures !complete ==> taken != [] && Capped(total, count0 + |taken|, maxAmount)
  {
    ListingNone(all, total0, count0, maxAmount);
    hide Listing, Capped, WithPlain;
    var rest := all;
    complete, taken, total, todo := true, [], total0, all;
    while rest != map[] && complete
      invariant todo == rest && Listing(taken, todo, all, total, total0, count0, maxAmount)
      invariant taken != [] ==> complete == !Capped(total, count0 + |taken|, maxAmount)
      invariant taken == [] ==> complete
      decreases |rest|
    {
      var h := First(rest.Keys);
      var o := rest[h];
      ListingStep(taken, rest, all, h, total, total0, count0, maxAmount);
      taken := taken + [o];
      total := WithPlain(total, o);
      rest := rest - {h};
      todo := rest;
      complete := !Capped(total, count0 + |taken|, maxAmount);
    }
  }

  ghost predicate Listing(taken: seq<Coin>, todo: map<HeightAmountGi, Coin>, all: map<HeightAmountGi, Coin>, total: Amount,
                          total0: Amount, count0: nat, maxAmount: Amount) {
    && Collected(taken, todo, all) && Summed(taken, todo, all) && InOrder(taken) && Later(taken, todo)
    && NotCapped(taken, total0, count0, maxAmount)
    && total == TotalAfter(total0, taken)
  }

  lemma ListingNone(all: map<HeightAmountGi, Coin>, total0: Amount, count0: nat, maxAmount: Amount)
    requires total0 < WORD && forall h :: h in all ==> all[h].Hag() == h
    ensures Listing([], all, all, total0, total0, count0, maxAmount)
  {
    SumOfNone();
    assert SumOf([], Meter("", PlainAmount)) == 0;
  }

  lemma ListingStep(taken: seq<Coin>, todo: map<HeightAmountGi, Coin>, all: map<HeightAmountGi, Coin>, h: HeightAmountGi,
                    total: Amount, total0: Amount, count0: nat, maxAmount: Amount)
    requires Listing(taken, todo, all, total, total0, count0, maxAmount)
    requires taken != [] ==> !Capped(total, count0 + |taken|, maxAmount)
    requires h in todo && forall k :: k in todo && k != h ==> Before(h, k)
    ensures Listing(taken + [todo[h]], todo - {h}, all, WithPlain(total, todo[h]), total0, count0, maxAmount)
  {
    hide SumOf, Capped, Collected, Summed, InOrder, Later, NotCapped, Before;
    CollectedStep(taken, todo, all, h);
    SummedStep(taken, todo, all, h);
    LaterStep(taken, todo, all, h);
    NotCappedStep(taken, todo[h], total0, count0, maxAmount);
    SumOfAppend(taken, todo[h]);
    TotalWraps(total0 + SumOf(taken, Meter("", PlainAmount)), todo[h].amount);
  }

  lemma ListingIs(taken: seq<Coin>, todo: map<HeightAmountGi, Coin>, all: map<HeightAmountGi, Coin>, total: Amount,
                  total0: Amount, count0: nat, maxAmount: Amount)
    requires Listing(taken, todo, all, total, total0, count0, maxAmount)
    ensures Adds(taken, all) && NotCapped(taken, total0, count0, maxAmount)
    ensures total == TotalAfter(total0, taken)
    ensures todo == map[] ==> (forall h :: h in all ==> all[h] in taken)
                              && forall what :: SumOf(taken, Meter("", what)) == Total(all, Meter("", what))
  {
    AddsSome(taken, todo, all);
    if todo == map[] {
      CollectedAll(taken, all);
    }
  }

  lemma TotalWraps(x: int, y: nat)
    ensures (x % WORD + y) % WORD == (x + y) % WORD
  {
  }

  lemma NotCappedStep(taken: seq<Coin>, o: Coin, total0: Amount, count0: nat, maxAmount: Amount)
    requires NotCapped(taken, total0, count0, maxAmount)
    requires taken != [] ==> !Capped(TotalAfter(total0, taken), count0 + |taken|, maxAmount)
    ensures NotCapped(taken + [o], total0, count0, maxAmount)
  {
    hide TotalAfter, Capped;
    forall n | 0 < n < |taken + [o]|
      ensures !Capped(TotalAfter(total0, (taken + [o])[..n]), count0 + n, maxAmount)
    {
      assert (taken + [o])[..n] == taken[..n];
      assert taken[..|taken|] == taken;
    }
  }

  /** What is still to come is later in the index than what was taken. */
  ghost predicate Later(taken: seq<Coin>, todo: map<HeightAmountGi, Coin>) {
    forall o, h :: o in taken && h in todo ==> Before(o.Hag(), h)
  }

  lemma LaterStep(taken: seq<Coin>, todo: map<HeightAmountGi, Coin>, all: map<HeightAmountGi, Coin>, h: HeightAmountGi)
    requires InOrder(taken) && Later(taken, todo) && Collected(taken, todo, all)
    requires h in todo && forall k :: k in todo && k != h ==> Before(h, k)
    ensures InOrder(taken + [todo[h]]) && Later(taken + [todo[h]], todo - {h})
  {
    hide Before;
    assert todo[h].Hag() == h;
    forall o | o in taken
      ensures Before(o.Hag(), h)
    {
    }
    var more := taken + [todo[h]];
    forall i, j | 0 <= i < j < |more|
      ensures Before(more[i].Hag(), more[j].Hag())
    {
      assert taken[i] in taken;
    }
  }

  lemma AddsSome(taken: seq<Coin>, todo: map<HeightAmountGi, Coin>, all: map<HeightAmountGi, Coin>)
    requires InOrder(taken) && Later(taken, todo) && Collected(taken, todo, all)
    ensures Adds(taken, all)
  {
    hide InOrder;
    forall o, h | o in taken && h in all && Before(h, o.Hag())
      ensures all[h] in taken
    {
      assert h in todo ==> Before(o.Hag(), h);
    }
  }

  /** The coins taken so far are those of `all` no longer in `todo`. */
  ghost predicate Collected(result: seq<Coin>, todo: map<HeightAmountGi, Coin>, all: map<HeightAmountGi, Coin>) {
    && (forall h :: h in todo ==> h in all && todo[h] == all[h])
    && (forall h :: h in all ==> all[h].Hag() == h)
    && (forall o :: o in result ==> o.Hag() in all && all[o.Hag()] == o)
    && (forall h :: h in all && h !in todo ==> all[h] in result)
  }

  ghost predicate Summed(result: seq<Coin>, todo: map<HeightAmountGi, Coin>, all: map<HeightAmountGi, Coin>) {
    forall what :: SumOf(result, Meter("", what)) + Total(todo, Meter("", what)) == Total(all, Meter("", what))
  }

  lemma CollectedStep(result: seq<Coin>, todo: map<HeightAmountGi, Coin>, all: map<HeightAmountGi, Coin>, h: HeightAmountGi)
    requires Collected(result, todo, all) && h in todo
    ensures Collected(result + [todo[h]], todo - {h}, all)
  {
  }

  lemma SummedStep(result: seq<Coin>, todo: map<HeightAmountGi, Coin>, all: map<HeightAmountGi, Coin>, h: HeightAmountGi)
    requires Summed(result, todo, all) && h in todo
    ensures Summed(result + [todo[h]], todo - {h}, all)
  {
    TotalRemoveAll(todo, h);
    SumOfAppend(result, todo[h]);
  }

  lemma CollectedAll(result: seq<Coin>, all: map<HeightAmountGi, Coin>)
    requires Collected(result, map[], all) && Summed(result, map[], all)
    ensures forall o :: o in result ==> o.Hag() in all && all[o.Hag()] == o
    ensures forall h :: h in all ==> all[h] in result
    ensures forall what :: SumOf(result, Meter("", what)) == Total(all, Meter("", what))
  {
    TotalNone();
  }

  lemma SumOfNone()
    ensures forall what :: SumOf([], Meter("", what)) == 0
  {
  }

  lemma TotalNone()
    ensures forall what :: Total<HeightAmountGi>(map[], Meter("", what)) == 0
  {
  }

  // ----- the two agree -----

  /** Visited outputs are distinct outputs of `base`. */
  ghost predicate Among<K(!new)>(visited: map<K, Coin>, base: map<HeightAmountGi, Coin>) {
    && (forall k :: k in visited ==> visited[k].Hag() in base && base[visited[k].Hag()] == visited[k])
    && (forall k, k' :: k in visited && k' in visited && visited[k].Hag() == visited[k'].Hag() ==> k == k')
  }

  ghost function Hags<K(!new)>(visited: map<K, Coin>): set<HeightAmountGi> {
    set k | k in visited :: visited[k].Hag()
  }

  lemma HagsSplit<K(!new)>(visited: map<K, Coin>, k: K)
    requires k in visited
    ensures Hags(visited) == Hags(visited - {k}) + {visited[k].Hag()}
  {
    forall h
      ensures h in Hags(visited) <==> h in Hags(visited - {k}) || h == visited[k].Hag()
    {
      if h in Hags(visited) {
        var j :| j in visited && visited[j].Hag() == h;
        assert j == k || j in visited - {k};
      }
    }
  }

  lemma OneApart<K(!new)>(base: map<HeightAmountGi, Coin>, visited: map<K, Coin>, k: K)
    requires Among(visited, base) && k in visited
    ensures var rest, h := visited - {k}, visited[k].Hag();
            && Among(rest, base) && h in base - Hags(rest) && base[h] == visited[k]
            && base - Hags(rest) - {h} == base - Hags(visited)
  {
    HagsSplit(visited, k);
  }

  lemma NoneVisited<K(!new)>(base: map<HeightAmountGi, Coin>, visited: map<K, Coin>, mt: Meter)
    requires visited == map[]
    ensures base - Hags(visited) == base && Total(visited, mt) == 0
  {
  }

  lemma {:induction false} TotalWithout<K(!new)>(base: map<HeightAmountGi, Coin>, visited: map<K, Coin>, mt: Meter)
    requires Among(visited, base)
    ensures Total(base, mt) == Total(base - Hags(visited), mt) + Total(visited, mt)
    decreases |visited|
  {
    hide Total, Hags, Among;
    if visited == map[] {
      NoneVisited(base, visited, mt);
    } else {
      var k :| k in visited;
      OneApart(base, visited, k);
      TotalRemove(visited, k, mt);
      TotalWithout(base, visited - {k}, mt);
      TotalRemove(base - Hags(visited - {k}), visited[k].Hag(), mt);
    }
  }

  function OfAddress<K>(m: map<K, Coin>, a: Address): map<K, Coin> {
    map h | h in m && Matches(a, m[h]) :: m[h]
  }

  lemma OfAddressSplit<K(!new)>(m: map<K, Coin>, a: Address, k: K)
    requires k in m
    ensures Matches(a, m[k]) ==> k in OfAddress(m, a) && OfAddress(m, a)[k] == m[k] && OfAddress(m, a) - {k} == OfAddress(m - {k}, a)
    ensures !Matches(a, m[k]) ==> OfAddress(m, a) == OfAddress(m - {k}, a)
  {
  }

  lemma {:induction false} TotalOfAddress<K(!new)>(m: map<K, Coin>, a: Address, what: What)
    ensures Total(m, Meter(a, what)) == Total(OfAddress(m, a), Meter("", what))
    decreases |m|
  {
    if m == map[] {
      assert OfAddress(m, a) == map[];
    } else {
      hide Total, OfAddress;
      var k :| k in m;
      OfAddressSplit(m, a, k);
      TotalRemove(m, k, Meter(a, what));
      TotalOfAddress(m - {k}, a, what);
      if Matches(a, m[k]) {
        TotalRemove(OfAddress(m, a), k, Meter("", what));
      }
    }
  }

  /** What is left when all three loops took their outputs away. */
  lemma LeftIsListed(w: Wallet, used: set<KeyImage>, a: Address, confirmed: Height,
                     h1: set<HeightAmountGi>, h2: set<HeightAmountGi>, h3: set<HeightAmountGi>)
    requires var base := OfAddress(w.unspent, a);
             && (forall h :: h in base ==> (h in h1 <==> h.height > confirmed))
             && (forall h :: h in base && h.height <= confirmed ==>
                   (h in h2 <==> CoinId(h.amount, h.gi) in RecentIds(w, a, confirmed) && w.unspent[h].keyImage !in used))
             && (forall h :: h in base && h.height <= confirmed ==> (h in h3 <==> w.unspent[h].keyImage in used))
    ensures OfAddress(w.unspent, a) - h1 - h2 - h3 == Listed(w, used, a, confirmed)
  {
    hide RecentIds;
  }

  /** Each unspent output is visited by at most one loop, at most once, and what
      no loop visits is listed. */
  lemma VisitedOnce(w: Wallet, used: set<KeyImage>, a: Address, confirmed: Height, seen: set<CoinId>)
    requires Inv(w, seen) && confirmed < MAX_HEIGHT && NO_KEY_IMAGE !in used
    ensures var base := OfAddress(w.unspent, a);
            var base1 := base - Hags(Unconfirmed(w, a, confirmed));
            var base2 := base1 - Hags(RecentlyUnlocked(w, used, a, confirmed));
            && Among(Unconfirmed(w, a, confirmed), base)
            && Among(RecentlyUnlocked(w, used, a, confirmed), base1)
            && Among(SpentInPool(w, used, a, confirmed), base2)
            && base2 - Hags(SpentInPool(w, used, a, confirmed)) == Listed(w, used, a, confirmed)
  {
    hide Locks, Balanced, SpentUnlocked;
    Visited1(w, a, confirmed);
    LaterLoops(w, used, a, confirmed, Hags(Unconfirmed(w, a, confirmed)), seen);
  }

  lemma Visited1(w: Wallet, a: Address, confirmed: Height)
    requires Indexed(w) && confirmed < MAX_HEIGHT
    ensures Among(Unconfirmed(w, a, confirmed), OfAddress(w.unspent, a))
    ensures forall h :: h in OfAddress(w.unspent, a) ==> (h in Hags(Unconfirmed(w, a, confirmed)) <==> h.height > confirmed)
  {
    var v := Unconfirmed(w, a, confirmed);
    forall h | h in OfAddress(w.unspent, a)
      ensures h in Hags(v) <==> h.height > confirmed
    {
      if h.height > confirmed {
        assert h in v && v[h].Hag() == h;
      }
    }
  }

  ghost predicate AtMost<K(!new)>(visited: map<K, Coin>, confirmed: Height) {
    forall k :: k in visited ==> visited[k].height <= confirmed
  }

  lemma Visited2(w: Wallet, used: set<KeyImage>, a: Address, confirmed: Height, seen: set<CoinId>)
    requires Indexed(w) && Recent(w) && Placed(w, seen)
    ensures Among(RecentlyUnlocked(w, used, a, confirmed), OfAddress(w.unspent, a))
    ensures AtMost(RecentlyUnlocked(w, used, a, confirmed), confirmed)
    ensures forall h :: h in OfAddress(w.unspent, a) && h.height <= confirmed ==>
              (h in Hags(RecentlyUnlocked(w, used, a, confirmed)) <==>
               CoinId(h.amount, h.gi) in RecentIds(w, a, confirmed) && w.unspent[h].keyImage !in used)
  {
    var v := RecentlyUnlocked(w, used, a, confirmed);
    forall h | h in OfAddress(w.unspent, a) && h.height <= confirmed
      ensures h in Hags(v) <==> CoinId(h.amount, h.gi) in RecentIds(w, a, confirmed) && w.unspent[h].keyImage !in used
    {
      if CoinId(h.amount, h.gi) in RecentIds(w, a, confirmed) && w.unspent[h].keyImage !in used {
        var u :| u in w.unlocked && u.height >= Above(confirmed) && Matches(a, w.unlocked[u]) && CoinId(u.amount, u.gi) == CoinId(h.amount, h.gi);
        assert u in v && v[u].Hag() == h;
      }
      if h in Hags(v) {
        var u :| u in v && v[u].Hag() == h;
        assert CoinId(u.amount, u.gi) in RecentIds(w, a, confirmed);
      }
    }
  }

  lemma Visited3(w: Wallet, used: set<KeyImage>, a: Address, confirmed: Height)
    requires Indexed(w) && Keyed(w) && NO_KEY_IMAGE !in used
    ensures Among(SpentInPool(w, used, a, confirmed), OfAddress(w.unspent, a))
    ensures AtMost(SpentInPool(w, used, a, confirmed), confirmed)
    ensures forall h :: h in OfAddress(w.unspent, a) && h.height <= confirmed ==>
              (h in Hags(SpentInPool(w, used, a, confirmed)) <==> w.unspent[h].keyImage in used)
  {
    var v := SpentInPool(w, used, a, confirmed);
    forall h | h in OfAddress(w.unspent, a) && h.height <= confirmed
      ensures h in Hags(v) <==> w.unspent[h].keyImage in used
    {
      if w.unspent[h].keyImage in used {
        assert w.unspent[h].keyImage in v && v[w.unspent[h].keyImage].Hag() == h;
      }
    }
  }

  /** The second and third loop take distinct outputs from those up to the
      confirmed height, whatever `h1` the first one took above it. */
  lemma LaterLoops(w: Wallet, used: set<KeyImage>, a: Address, confirmed: Height, h1: set<HeightAmountGi>, seen: set<CoinId>)
    requires Indexed(w) && Recent(w) && Placed(w, seen) && Keyed(w) && NO_KEY_IMAGE !in used
    requires forall h :: h in OfAddress(w.unspent, a) ==> (h in h1 <==> h.height > confirmed)
    ensures var base1 := OfAddress(w.unspent, a) - h1;
            var base2 := base1 - Hags(RecentlyUnlocked(w, used, a, confirmed));
            && Among(RecentlyUnlocked(w, used, a, confirmed), base1)
            && Among(SpentInPool(w, used, a, confirmed), base2)
            && base2 - Hags(SpentInPool(w, used, a, confirmed)) == Listed(w, used, a, confirmed)
  {
    hide Placed, Keyed, Recent, Indexed, RecentlyUnlocked, SpentInPool, Listed, RecentIds, OfAddress, Hags, Among, AtMost;
    Visited2(w, used, a, confirmed, seen);
    Visited3(w, used, a, confirmed);
    var v2, v3 := RecentlyUnlocked(w, used, a, confirmed), SpentInPool(w, used, a, confirmed);
    var base := OfAddress(w.unspent, a);
    LeftIsListed(w, used, a, confirmed, h1, Hags(v2), Hags(v3));
    AmongRest(v2, base, h1, confirmed);
    AmongRest(v3, base, h1 + Hags(v2), confirmed);
    assert base - h1 - Hags(v2) == base - (h1 + Hags(v2));
  }

  lemma AmongRest<K(!new)>(visited: map<K, Coin>, base: map<HeightAmountGi, Coin>, taken: set<HeightAmountGi>, confirmed: Height)
    requires Among(visited, base) && AtMost(visited, confirmed)
    requires forall h :: h in base && h.height <= confirmed && h in taken ==> h !in Hags(visited)
    ensures Among(visited, base - taken)
  {
  }

  lemma ListedTotal(w: Wallet, used: set<KeyImage>, a: Address, confirmed: Height, seen: set<CoinId>, what: What)
    requires Inv(w, seen) && confirmed < MAX_HEIGHT && NO_KEY_IMAGE !in used
    ensures Total(w.unspent, Meter(a, what)) - Total(Unconfirmed(w, a, confirmed), Meter("", what))
            - Total(RecentlyUnlocked(w, used, a, confirmed), Meter("", what))
            - Total(SpentInPool(w, used, a, confirmed), Meter("", what))
            == Total(Listed(w, used, a, confirmed), Meter("", what))
  {
    VisitedOnce(w, used, a, confirmed, seen);
    hide Total, Inv, Unconfirmed, RecentlyUnlocked, SpentInPool, Listed, OfAddress, Hags, Among;
    var base := OfAddress(w.unspent, a);
    TotalOfAddress(w.unspent, a, what);
    TotalWithout(base, Unconfirmed(w, a, confirmed), Meter("", what));
    LaterTotal(w, used, a, confirmed, Hags(Unconfirmed(w, a, confirmed)), what);
  }

  lemma LaterTotal(w: Wallet, used: set<KeyImage>, a: Address, confirmed: Height, h1: set<HeightAmountGi>, what: What)
    requires var base1 := OfAddress(w.unspent, a) - h1;
             var base2 := base1 - Hags(RecentlyUnlocked(w, used, a, confirmed));
             && Among(RecentlyUnlocked(w, used, a, confirmed), base1)
             && Among(SpentInPool(w, used, a, confirmed), base2)
             && base2 - Hags(SpentInPool(w, used, a, confirmed)) == Listed(w, used, a, confirmed)
    ensures Total(OfAddress(w.unspent, a) - h1, Meter("", what))
            == Total(RecentlyUnlocked(w, used, a, confirmed), Meter("", what))
               + Total(SpentInPool(w, used, a, confirmed), Meter("", what))
               + Total(Listed(w, used, a, confirmed), Meter("", what))
  {
    hide Total, RecentlyUnlocked, SpentInPool, Listed, OfAddress, Hags, Among;
    var base1 := OfAddress(w.unspent, a) - h1;
    TotalWithout(base1, RecentlyUnlocked(w, used, a, confirmed), Meter("", what));
    TotalWithout(base1 - Hags(RecentlyUnlocked(w, used, a, confirmed)), SpentInPool(w, used, a, confirmed), Meter("", what));
  }

  /** The listed outputs sum to the spendable figures of the balance, plain and
      dust, for every address and every confirmed height but the last. */
  lemma ListedIsSpendable(w: Wallet, used: set<KeyImage>, a: Address, confirmed: Height, seen: set<CoinId>)
    requires Inv(w, seen) && confirmed < MAX_HEIGHT && NO_KEY_IMAGE !in used
    ensures ReportedPlain(w, used, a, confirmed) == PlainSum(Listed(w, used, a, confirmed))
    ensures ReportedDust(w, used, a, confirmed) == DustSum(Listed(w, used, a, confirmed))
  {
    hide Total, Inv, Unconfirmed, RecentlyUnlocked, SpentInPool, Listed;
    ListedTotal(w, used, a, confirmed, seen, PlainAmount);
    ListedTotal(w, used, a, confirmed, seen, DustAmount);
  }

  // ----- the last height -----

  /** The heights of unspent outputs in 32 bits. */
  ghost predicate Fits(w: Wallet) {
    forall h :: h in w.unspent ==> h.height <= MAX_HEIGHT
  }

  /** At the last height the first loop wraps around to every output. */
  lemma LastTotal(w: Wallet, used: set<KeyImage>, a: Address, seen: set<CoinId>, what: What)
    requires Inv(w, seen) && Fits(w) && NO_KEY_IMAGE !in used
    ensures Unconfirmed(w, a, MAX_HEIGHT) == OfAddress(w.unspent, a)
    ensures Total(OfAddress(w.unspent, a), Meter("", what)) == Total(w.unspent, Meter(a, what))
    ensures Total(w.unspent, Meter(a, what))
            == Total(RecentlyUnlocked(w, used, a, MAX_HEIGHT), Meter("", what))
               + Total(SpentInPool(w, used, a, MAX_HEIGHT), Meter("", what))
               + Total(Listed(w, used, a, MAX_HEIGHT), Meter("", what))
  {
    var base := OfAddress(w.unspent, a);
    assert Unconfirmed(w, a, MAX_HEIGHT) == base;
    TotalOfAddress(w.unspent, a, what);
    assert base - {} == base;
    hide Locks, Balanced, SpentUnlocked, Total, Listed, RecentlyUnlocked, SpentInPool, Unconfirmed, Hags, Among;
    LaterLoops(w, used, a, MAX_HEIGHT, {}, seen);
    LaterTotal(w, used, a, MAX_HEIGHT, {}, what);
  }

  /** At the last height every unspent output is taken off the balance, and
      those recently unlocked or spent in the pool once more; listed are all the
      others. So balance and list agree exactly when the address has nothing
      unspent that counts. */
  lemma LastHeightWraps(w: Wallet, used: set<KeyImage>, a: Address, seen: set<CoinId>)
    requires Inv(w, seen) && Fits(w) && NO_KEY_IMAGE !in used
    ensures var listed := Listed(w, used, a, MAX_HEIGHT);
            var plain, dust := Total(w.unspent, Meter(a, PlainAmount)), Total(w.unspent, Meter(a, DustAmount));
            && ReportedPlain(w, used, a, MAX_HEIGHT) == PlainSum(listed) - plain
            && ReportedDust(w, used, a, MAX_HEIGHT) == DustSum(listed) - dust
            && (ReportedPlain(w, used, a, MAX_HEIGHT) == PlainSum(listed) <==> plain == 0)
            && (ReportedDust(w, used, a, MAX_HEIGHT) == DustSum(listed) <==> dust == 0)
  {
    hide Inv, Total, Unconfirmed, RecentlyUnlocked, SpentInPool, Listed, OfAddress;
    LastTotal(w, used, a, seen, PlainAmount);
    LastTotal(w, used, a, seen, DustAmount);
  }

  /** A wallet of one unspent output, 5 at height 7: it is listed, and the
      balance says that nothing is spendable. */
  lemma LastHeightFails(o: Coin, a: Address, events: seq<Event>)
    requires o.amount == 5 && o.unlock == 0 && !o.dust && o.height == 7 && Matches(a, o)
    requires events == [Arrives(o)]
    ensures Run(events).Some?
    ensures var w := Run(events).value;
            && Listed(w, {}, a, MAX_HEIGHT) == map[o.Hag() := o]
            && PlainSum(Listed(w, {}, a, MAX_HEIGHT)) == 5 && ReportedPlain(w, {}, a, MAX_HEIGHT) == 0
            && ReportedPlain(w, {}, a, MAX_HEIGHT - 1) == 5
  {
    hide Run, Inv, Listed, PlainSum, ReportedPlain;
    RunKeeps(events);
    OneArrival(o, events);
    OneCoin(Run(events).value, o, a, Seen(events));
  }

  lemma OneCoin(w: Wallet, o: Coin, a: Address, seen: set<CoinId>)
    requires o.amount == 5 && !o.dust && o.height == 7 && Matches(a, o)
    requires Inv(w, seen) && w.unspent == map[o.Hag() := o] && w.unlocked == map[]
    ensures Listed(w, {}, a, MAX_HEIGHT) == map[o.Hag() := o]
    ensures PlainSum(Listed(w, {}, a, MAX_HEIGHT)) == 5 && ReportedPlain(w, {}, a, MAX_HEIGHT) == 0
    ensures ReportedPlain(w, {}, a, MAX_HEIGHT - 1) == 5
  {
    hide Inv, Total, ReportedPlain;
    assert Listed(w, {}, a, MAX_HEIGHT) == map[o.Hag() := o] && Listed(w, {}, a, MAX_HEIGHT - 1) == map[o.Hag() := o];
    hide Listed;
    LastHeightWraps(w, {}, a, seen);
    ListedIsSpendable(w, {}, a, MAX_HEIGHT - 1, seen);
    TotalOne(w.unspent, o.Hag(), a);
  }

  lemma TotalOne(m: map<HeightAmountGi, Coin>, h: HeightAmountGi, a: Address)
    requires h in m && m == map[h := m[h]] && Matches(a, m[h])
    ensures Total(m, Meter("", PlainAmount)) == Total(m, Meter(a, PlainAmount)) == if m[h].dust then 0 else m[h].amount
  {
    TotalRemove(m, h, Meter("", PlainAmount));
    TotalRemove(m, h, Meter(a, PlainAmount));
    assert m - {h} == map[];
  }

  lemma OneArrival(o: Coin, events: seq<Event>)
    requires o.unlock == 0 && events == [Arrives(o)]
    ensures Run(events).Some?
    ensures Run(events).value.unspent == map[o.Hag() := o] && Run(events).value.unlocked == map[]
  {
    assert events[..0] == [];
    assert Run(events) == Step(EMPTY_WALLET, Arrives(o));
  }
}
