// The transaction pool: transactions by hash, by key image and by fee rate,
// and their total size.
module Mempool {
  import opened Basics

  type Hash = nat
  type KeyImage = nat

  const MAX_POOL_SIZE := 2000000

  /** A transaction with the key images of its inputs in their order. */
  datatype PoolTx = PoolTx(inputs: seq<KeyImage>, fee: nat, size: nat)
  {
    function FeePerByte(): nat
    {
      if size == 0 then 0 else fee / size
    }

    function KeyImages(): set<KeyImage> {
      set k | k in inputs
    }
  }

  datatype Pool = Pool(tx: map<Hash, PoolTx>, kiTx: map<KeyImage, Hash>, feeTx: map<nat, set<Hash>>, totalSize: int)

  const EMPTY_POOL := Pool(map[], map[], map[], 0)

  datatype AddResult = AlreadyInPool | IncreaseFee | OutputAlreadySpent | Ban | FailedToRedo | BroadcastAll

  // ----- the operations -----

  function WithoutFee(feeTx: map<nat, set<Hash>>, f: nat, h: Hash): map<nat, set<Hash>> {
    var row := (if f in feeTx then feeTx[f] else {}) - {h};
    if row == {} then feeTx - {f} else feeTx[f := row]
  }

  function WithFee(feeTx: map<nat, set<Hash>>, f: nat, h: Hash): map<nat, set<Hash>> {
    feeTx[f := (if f in feeTx then feeTx[f] else {}) + {h}]
  }

  /** remove_from_pool. */
  function Removed(p: Pool, h: Hash): Pool {
    if h !in p.tx then p else
    var t := p.tx[h];
    Pool(p.tx - {h}, p.kiTx - t.KeyImages(), WithoutFee(p.feeTx, t.FeePerByte(), h), p.totalSize - t.size)
  }

  function WithKeyImages(kiTx: map<KeyImage, Hash>, kis: set<KeyImage>, h: Hash): map<KeyImage, Hash> {
    kiTx + map k | k in kis :: h
  }

  function Inserted(p: Pool, h: Hash, t: PoolTx): Pool {
    Pool(p.tx[h := t], WithKeyImages(p.kiTx, t.KeyImages(), h), WithFee(p.feeTx, t.FeePerByte(), h), p.totalSize + t.size)
  }

  /** By fee rate, then by hash. */
  predicate Below(t: PoolTx, h: Hash, t': PoolTx, h': Hash) {
    t.FeePerByte() < t'.FeePerByte() || (t.FeePerByte() == t'.FeePerByte() && h < h')
  }

  /** The first hash of the lowest fee rate. */
  function Cheapest(p: Pool): Option<Hash> {
    if p.feeTx == map[] then None else
    var row := p.feeTx[Least(p.feeTx.Keys)];
    if row == {} then None else Some(Least(row))
  }

  /** The first input, in their order, whose key image the pool holds. */
  function FirstConflict(p: Pool, inputs: seq<KeyImage>): Option<KeyImage>
    decreases |inputs|
  {
    if inputs == [] then None else
    var front := FirstConflict(p, inputs[..|inputs| - 1]);
    if front.Some? then front
    else if inputs[|inputs| - 1] in p.kiTx then Some(inputs[|inputs| - 1]) else None
  }

  /** Whether the transaction of a key image must give way to a new one. */
  predicate Yields(p: Pool, ki: KeyImage, h: Hash, t: PoolTx) {
    ki in p.kiTx && p.kiTx[ki] in p.tx ==> !Below(t, h, p.tx[p.kiTx[ki]], p.kiTx[ki])
  }

  datatype Displaced = Displaced(ok: bool, pool: Pool)

  /** Conflicting transactions removed in the order of the key images, up to
      the first that does not yield. */
  function Displace(p: Pool, todo: set<KeyImage>, h: Hash, t: PoolTx): Displaced
    decreases |todo|
  {
    if todo == {} then Displaced(true, p) else
    var ki := Least(todo);
    if ki !in p.kiTx then Displace(p, todo - {ki}, h, t)
    else if !Yields(p, ki, h, t) then Displaced(false, p)
    else Displace(Removed(p, p.kiTx[ki]), todo - {ki}, h, t)
  }

  /** The cheapest removed until removing one more would leave too little. */
  function Evict(p: Pool): Pool
    decreases |p.tx|
  {
    var c := Cheapest(p);
    if p.totalSize <= MAX_POOL_SIZE || c.None? || c.value !in p.tx then p
    else if p.totalSize < MAX_POOL_SIZE + p.tx[c.value].size then p
    else Evict(Removed(p, c.value))
  }

  predicate TooCheap(p: Pool, h: Hash, t: PoolTx) {
    var c := Cheapest(p);
    && p.totalSize >= MAX_POOL_SIZE
    && c.Some? && c.value in p.tx && Below(t, h, p.tx[c.value], c.value)
  }

  datatype Added = Added(result: AddResult, pool: Pool)

  /** The checks before anything changes. Whether the transaction stands the
      checks on its own, other than that of repeated key images, and whether it
      can be redone on the tip, is given. */
  function Refusal(p: Pool, spent: set<KeyImage>, h: Hash, t: PoolTx, sound: bool, redone: bool): Option<AddResult> {
    var first := FirstConflict(p, t.inputs);
    if h in p.tx then Some(AlreadyInPool)
    else if TooCheap(p, h, t) then Some(IncreaseFee)
    else if first.Some? && !Yields(p, first.value, h, t) then Some(IncreaseFee)
    else if t.KeyImages() * spent != {} then Some(OutputAlreadySpent)
    else if !sound || !Distinct(t.inputs) then Some(Ban)
    else if !redone then Some(FailedToRedo)
    else None
  }

  /** add_transaction. */
  function AddTransaction(p: Pool, spent: set<KeyImage>, h: Hash, t: PoolTx, sound: bool, redone: bool): Added {
    var refusal := Refusal(p, spent, h, t, sound, redone);
    if refusal.Some? then Added(refusal.value, p) else
    var d := Displace(p, t.KeyImages(), h, t);
    if !d.ok then Added(IncreaseFee, d.pool) else Added(BroadcastAll, Evict(Inserted(d.pool, h, t)))
  }

  /** store_keyimage, as far as the pool goes. */
  function StoreKeyimage(p: Pool, ki: KeyImage): Pool {
    if ki in p.kiTx then Removed(p, p.kiTx[ki]) else p
  }

  // ----- the invariant -----

  ghost function SizeOf(m: map<Hash, PoolTx>): int {
    if m == map[] then 0 else
    var h :| h in m;
    m[h].size + SizeOf(m - {h})
  }

  lemma {:induction false} SizeRemove(m: map<Hash, PoolTx>, h: Hash)
    requires h in m
    ensures SizeOf(m) == m[h].size + SizeOf(m - {h})
    decreases |m|
  {
    var j :| j in m && SizeOf(m) == m[j].size + SizeOf(m - {j});
    if j != h {
      SizeRemove(m - {j}, h);
      SizeRemove(m - {h}, j);
      assert m - {j} - {h} == m - {h} - {j};
    }
  }

  lemma SizeAdd(m: map<Hash, PoolTx>, h: Hash, t: PoolTx)
    requires h !in m
    ensures SizeOf(m[h := t]) == SizeOf(m) + t.size
  {
    SizeRemove(m[h := t], h);
    assert m[h := t] - {h} == m;
  }

  /** The key-image map is the one the transactions make; no two of them share
      a key image. */
  ghost predicate KeyImagesDerived(p: Pool) {
    && (forall h, i :: h in p.tx && 0 <= i < |p.tx[h].inputs| ==> p.tx[h].inputs[i] in p.kiTx && p.kiTx[p.tx[h].inputs[i]] == h)
    && (forall k :: k in p.kiTx ==> p.kiTx[k] in p.tx && k in p.tx[p.kiTx[k]].inputs)
  }

  ghost predicate FeesDerived(p: Pool) {
    && (forall f :: f in p.feeTx ==> p.feeTx[f] != {})
    && (forall f, h :: f in p.feeTx && h in p.feeTx[f] ==> h in p.tx && p.tx[h].FeePerByte() == f)
    && (forall h :: h in p.tx ==> p.tx[h].FeePerByte() in p.feeTx && h in p.feeTx[p.tx[h].FeePerByte()])
  }

  ghost predicate WellMade(p: Pool) {
    forall h :: h in p.tx ==> p.tx[h].size > 0 && Distinct(p.tx[h].inputs)
  }

  /** The four structures agree. */
  ghost predicate Derived(p: Pool) {
    KeyImagesDerived(p) && FeesDerived(p) && WellMade(p) && p.totalSize == SizeOf(p.tx)
  }

  /** Too large only by less than the cheapest transaction. */
  ghost predicate Bounded(p: Pool) {
    var c := Cheapest(p);
    p.totalSize <= MAX_POOL_SIZE || (c.Some? && c.value in p.tx && p.totalSize < MAX_POOL_SIZE + p.tx[c.value].size)
  }

  ghost predicate Unspent(p: Pool, spent: set<KeyImage>) {
    p.kiTx.Keys !! spent
  }

  ghost predicate PoolInv(p: Pool, spent: set<KeyImage>) {
    Derived(p) && Bounded(p) && Unspent(p, spent)
  }

  // ----- removing and inserting -----

  lemma RemovedKeyImages(p: Pool, h: Hash)
    requires KeyImagesDerived(p) && h in p.tx
    ensures KeyImagesDerived(Removed(p, h))
    ensures p.tx[h].KeyImages() <= p.kiTx.Keys
  {
  }

  lemma RemovedFees(p: Pool, h: Hash)
    requires FeesDerived(p) && h in p.tx
    ensures FeesDerived(Removed(p, h))
    ensures h in p.feeTx[p.tx[h].FeePerByte()]
  {
  }

  /** Nothing remove_from_pool erases is missing, and the four structures
      still agree. */
  lemma RemovedDerived(p: Pool, h: Hash)
    requires Derived(p)
    ensures Derived(Removed(p, h))
  {
    hide KeyImagesDerived, FeesDerived;
    if h in p.tx {
      RemovedKeyImages(p, h);
      RemovedFees(p, h);
      SizeRemove(p.tx, h);
    }
  }

  lemma InsertedKeyImages(p: Pool, h: Hash, t: PoolTx)
    requires KeyImagesDerived(p) && h !in p.tx && t.KeyImages() !! p.kiTx.Keys
    ensures KeyImagesDerived(Inserted(p, h, t))
  {
    var q := Inserted(p, h, t);
    assert forall i :: 0 <= i < |t.inputs| ==> t.inputs[i] in t.KeyImages();
  }

  lemma InsertedFees(p: Pool, h: Hash, t: PoolTx)
    requires FeesDerived(p) && h !in p.tx
    ensures FeesDerived(Inserted(p, h, t))
  {
  }

  lemma InsertedDerived(p: Pool, h: Hash, t: PoolTx)
    requires Derived(p) && h !in p.tx && t.KeyImages() !! p.kiTx.Keys && t.size > 0 && Distinct(t.inputs)
    ensures Derived(Inserted(p, h, t))
  {
    hide KeyImagesDerived, FeesDerived, Distinct;
    InsertedKeyImages(p, h, t);
    InsertedFees(p, h, t);
    SizeAdd(p.tx, h, t);
  }

  // ----- the cheapest -----

  ghost predicate IsCheapest(p: Pool, c: Hash) {
    c in p.tx && forall h :: h in p.tx && h != c ==> Below(p.tx[c], c, p.tx[h], h)
  }

  lemma CheapestIs(p: Pool)
    requires FeesDerived(p)
    ensures var c := Cheapest(p);
            && (c.None? <==> p.tx == map[])
            && (c.Some? ==> IsCheapest(p, c.value))
  {
    if p.feeTx == map[] {
      assert forall h :: h !in p.tx;
    } else {
      var f := Least(p.feeTx.Keys);
      var c := Least(p.feeTx[f]);
      assert c in p.tx;
      forall h | h in p.tx && h != c
        ensures Below(p.tx[c], c, p.tx[h], h)
      {
        assert p.tx[h].FeePerByte() in p.feeTx.Keys;
      }
    }
  }

  lemma RemovedBounded(p: Pool, h: Hash)
    requires Derived(p) && Bounded(p)
    ensures Bounded(Removed(p, h))
  {
    if h in p.tx {
      hide KeyImagesDerived, FeesDerived, Cheapest;
      var q := Removed(p, h);
      RemovedDerived(p, h);
      CheapestIs(p);
      CheapestIs(q);
      var c := Cheapest(p).value;
      if h != c {
        assert c in q.tx && q.tx[c] == p.tx[c];
        assert Cheapest(q) == Some(c);
      }
    }
  }

  lemma RemovedKeeps(p: Pool, h: Hash, spent: set<KeyImage>)
    requires PoolInv(p, spent)
    ensures PoolInv(Removed(p, h), spent)
  {
    hide Derived, Bounded;
    RemovedDerived(p, h);
    RemovedBounded(p, h);
  }

  // ----- displacing and evicting -----

  lemma {:induction false} SizeWithin(m: map<Hash, PoolTx>, n: map<Hash, PoolTx>, h: Hash)
    requires forall x :: x in m ==> x in n && n[x] == m[x]
    requires h in n && h !in m
    ensures SizeOf(m) + n[h].size <= SizeOf(n)
    decreases |n|
  {
    SizeRemove(n, h);
    if m == map[] {
      SizeNatural(n - {h});
    } else {
      var x :| x in m;
      SizeRemove(m, x);
      SizeRemove(n - {h}, x);
      SizeRemove(n, x);
      SizeRemove(n - {x}, h);
      assert n - {x} - {h} == n - {h} - {x};
      SizeWithin(m - {x}, n - {x}, h);
    }
  }

  lemma {:induction false} SizeNatural(m: map<Hash, PoolTx>)
    ensures SizeOf(m) >= 0
    decreases |m|
  {
    if m != map[] {
      var h :| h in m;
      SizeRemove(m, h);
      SizeNatural(m - {h});
    }
  }

  /** A pool with some transactions fewer. */
  ghost predicate Part(q: Pool, p: Pool) {
    forall x :: x in q.tx ==> x in p.tx && q.tx[x] == p.tx[x]
  }

  /** Every transaction that left was cheaper than the new one and had one of
      these key images. */
  ghost predicate LeftFor(p: Pool, q: Pool, kis: set<KeyImage>, h: Hash, t: PoolTx) {
    forall x :: x in p.tx && x !in q.tx ==> Below(p.tx[x], x, t, h) && p.tx[x].KeyImages() * kis != {}
  }

  lemma {:induction false} DisplaceKeeps(p: Pool, todo: set<KeyImage>, h: Hash, t: PoolTx, spent: set<KeyImage>)
    requires PoolInv(p, spent) && h !in p.tx
    ensures var d := Displace(p, todo, h, t);
            && PoolInv(d.pool, spent) && Part(d.pool, p) && LeftFor(p, d.pool, todo, h, t)
            && (d.ok ==> todo !! d.pool.kiTx.Keys)
    decreases |todo|
  {
    hide Bounded, FeesDerived, WellMade;
    if todo != {} {
      var ki := Least(todo);
      if ki !in p.kiTx {
        DisplaceKeeps(p, todo - {ki}, h, t, spent);
        DisplacedKeys(p, Displace(p, todo - {ki}, h, t).pool);
      } else if Yields(p, ki, h, t) {
        var q := Removed(p, p.kiTx[ki]);
        RemovedKeeps(p, p.kiTx[ki], spent);
        RemovedKey(p, ki);
        DisplaceKeeps(q, todo - {ki}, h, t, spent);
        DisplacedKeys(q, Displace(q, todo - {ki}, h, t).pool);
        assert ki in p.tx[p.kiTx[ki]].KeyImages() * todo;
        LeftStep(p, q, Displace(q, todo - {ki}, h, t).pool, ki, todo, h, t);
      }
    }
  }

  lemma DisplacedKeys(p: Pool, q: Pool)
    requires KeyImagesDerived(p) && KeyImagesDerived(q) && Part(q, p)
    ensures q.kiTx.Keys <= p.kiTx.Keys
  {
    forall k | k in q.kiTx
      ensures k in p.kiTx
    {
      var x := q.kiTx[k];
      assert x in q.tx && k in q.tx[x].inputs;
    }
  }

  lemma RemovedKey(p: Pool, ki: KeyImage)
    requires KeyImagesDerived(p) && ki in p.kiTx
    ensures ki !in Removed(p, p.kiTx[ki]).kiTx
  {
  }

  lemma LeftStep(p: Pool, q: Pool, r: Pool, ki: KeyImage, todo: set<KeyImage>, h: Hash, t: PoolTx)
    requires KeyImagesDerived(p) && ki in p.kiTx && h !in p.tx
    requires q == Removed(p, p.kiTx[ki]) && Yields(p, ki, h, t) && ki in todo
    requires LeftFor(q, r, todo - {ki}, h, t)
    ensures LeftFor(p, r, todo, h, t)
  {
    forall x | x in p.tx && x !in r.tx
      ensures Below(p.tx[x], x, t, h) && p.tx[x].KeyImages() * todo != {}
    {
      if x == p.kiTx[ki] {
        assert ki in p.tx[x].KeyImages() * todo;
      } else {
        assert q.tx[x] == p.tx[x];
        assert p.tx[x].KeyImages() * (todo - {ki}) <= p.tx[x].KeyImages() * todo;
      }
    }
  }

  /** There is room for a transaction: without it the pool is below its limit,
      or would be with a cheaper one gone. */
  ghost predicate Room(q: Pool, h: Hash, m: Hash) {
    && h in q.tx
    && (|| q.totalSize - q.tx[h].size < MAX_POOL_SIZE
        || (m in q.tx && Below(q.tx[m], m, q.tx[h], h) && q.totalSize - q.tx[h].size < MAX_POOL_SIZE + q.tx[m].size))
  }

  lemma CheapestHasRoom(q: Pool, h: Hash, m: Hash)
    requires Derived(q) && Room(q, h, m) && Cheapest(q) == Some(h)
    ensures q.totalSize < MAX_POOL_SIZE + q.tx[h].size
  {
    hide Cheapest, KeyImagesDerived;
    CheapestIs(q);
  }

  lemma {:induction false} EvictKeeps(q: Pool, h: Hash, m: Hash, spent: set<KeyImage>)
    requires Derived(q) && Unspent(q, spent) && Room(q, h, m)
    ensures var e := Evict(q);
            && PoolInv(e, spent) && Part(e, q) && h in e.tx
            && (forall x :: x in q.tx && x !in e.tx ==> Below(q.tx[x], x, q.tx[h], h))
    decreases |q.tx|
  {
    hide KeyImagesDerived, FeesDerived, WellMade, Cheapest;
    CheapestOfDerived(q);
    var c := Cheapest(q).value;
    if q.totalSize > MAX_POOL_SIZE && q.totalSize >= MAX_POOL_SIZE + q.tx[c].size {
      if c == h {
        CheapestHasRoom(q, h, m);
        assert false;
      }
      RemovedDerived(q, c);
      EvictKeeps(Removed(q, c), h, m, spent);
    }
  }

  lemma CheapestOfDerived(q: Pool)
    requires Derived(q) && q.tx != map[]
    ensures Cheapest(q).Some? && IsCheapest(q, Cheapest(q).value)
  {
    CheapestIs(q);
  }

  /** Displacing succeeds exactly when every conflicting transaction yields. */
  lemma {:induction false} DisplaceOk(p: Pool, todo: set<KeyImage>, h: Hash, t: PoolTx)
    requires KeyImagesDerived(p)
    ensures Displace(p, todo, h, t).ok <==> AllYield(p, todo, h, t)
    decreases |todo|
  {
    if todo != {} {
      var ki := Least(todo);
      if ki !in p.kiTx {
        DisplaceOk(p, todo - {ki}, h, t);
      } else if Yields(p, ki, h, t) {
        var q := Removed(p, p.kiTx[ki]);
        RemovedKeyImages(p, p.kiTx[ki]);
        DisplaceOk(q, todo - {ki}, h, t);
        forall k | k in todo
          ensures Yields(p, k, h, t) <==> k == ki || Yields(q, k, h, t)
        {
          YieldsAfter(p, ki, k, h, t);
        }
      }
    }
  }

  lemma YieldsAfter(p: Pool, ki: KeyImage, k: KeyImage, h: Hash, t: PoolTx)
    requires KeyImagesDerived(p) && ki in p.kiTx && Yields(p, ki, h, t)
    ensures Yields(p, k, h, t) <==> k == ki || Yields(Removed(p, p.kiTx[ki]), k, h, t)
  {
    var x := p.kiTx[ki];
    assert x in p.tx && ki in p.tx[x].inputs;
    if k in p.kiTx {
      if p.kiTx[k] == x {
        assert k in p.tx[x].inputs;
      } else {
        assert k !in p.tx[x].KeyImages();
      }
    }
  }

  /** The conflicting transaction of the least key image goes first: a failed
      displacement has removed something exactly when that one yields. */
  lemma {:induction false} DisplaceLoses(p: Pool, todo: set<KeyImage>, h: Hash, t: PoolTx, spent: set<KeyImage>)
    requires PoolInv(p, spent) && h !in p.tx && todo * p.kiTx.Keys != {}
    ensures Displace(p, todo, h, t).pool != p <==> Yields(p, Least(todo * p.kiTx.Keys), h, t)
    decreases |todo|
  {
    hide PoolInv, Yields;
    var ki := Least(todo);
    if ki !in p.kiTx {
      assert (todo - {ki}) * p.kiTx.Keys == todo * p.kiTx.Keys;
      DisplaceLoses(p, todo - {ki}, h, t, spent);
    } else {
      assert ki in todo * p.kiTx.Keys;
      assert Least(todo * p.kiTx.Keys) == ki;
      if Yields(p, ki, h, t) {
        OwnerThere(p, ki, spent);
        RemovedKeeps(p, p.kiTx[ki], spent);
        var q := Removed(p, p.kiTx[ki]);
        DisplaceKeeps(q, todo - {ki}, h, t, spent);
        assert p.kiTx[ki] !in Displace(q, todo - {ki}, h, t).pool.tx;
      }
    }
  }

  lemma OwnerThere(p: Pool, ki: KeyImage, spent: set<KeyImage>)
    requires PoolInv(p, spent) && ki in p.kiTx
    ensures p.kiTx[ki] in p.tx
  {
  }

  // ----- add_transaction -----

  /** No key image of the transaction is spent on the chain, none is repeated,
      and it stands every check. */
  predicate Acceptable(spent: set<KeyImage>, t: PoolTx, sound: bool, redone: bool) {
    t.KeyImages() * spent == {} && Distinct(t.inputs) && sound && redone
  }

  ghost predicate AllYield(p: Pool, kis: set<KeyImage>, h: Hash, t: PoolTx) {
    forall k :: k in kis ==> Yields(p, k, h, t)
  }

  /** The key images the pool already holds. */
  function Conflicts(p: Pool, t: PoolTx): set<KeyImage> {
    t.KeyImages() * p.kiTx.Keys
  }

  /** What the check of the first conflict lets through. */
  predicate FirstYields(p: Pool, h: Hash, t: PoolTx) {
    var first := FirstConflict(p, t.inputs);
    first.Some? ==> Yields(p, first.value, h, t)
  }

  lemma {:induction false} FirstConflictIs(p: Pool, inputs: seq<KeyImage>)
    ensures var c := FirstConflict(p, inputs); c.Some? ==> c.value in inputs && c.value in p.kiTx
    decreases |inputs|
  {
    if inputs != [] {
      FirstConflictIs(p, inputs[..|inputs| - 1]);
      assert inputs == inputs[..|inputs| - 1] + [inputs[|inputs| - 1]];
    }
  }

  lemma RefusalIs(p: Pool, spent: set<KeyImage>, h: Hash, t: PoolTx, sound: bool, redone: bool)
    ensures var r := Refusal(p, spent, h, t, sound, redone);
            && (r.None? <==> h !in p.tx && !TooCheap(p, h, t) && FirstYields(p, h, t) && Acceptable(spent, t, sound, redone))
            && (AllYield(p, t.KeyImages(), h, t) ==> FirstYields(p, h, t))
            && r != Some(BroadcastAll)
  {
    hide Yields, Distinct, TooCheap, FirstConflict;
    FirstConflictIs(p, t.inputs);
  }

  /** A new transaction enters the pool exactly when it is acceptable, not
      cheaper than all there is in a full pool, and every pool transaction it
      conflicts with yields. */
  lemma AcceptedIff(p: Pool, spent: set<KeyImage>, h: Hash, t: PoolTx, sound: bool, redone: bool)
    requires PoolInv(p, spent)
    ensures AddTransaction(p, spent, h, t, sound, redone).result == BroadcastAll <==>
            h !in p.tx && !TooCheap(p, h, t) && AllYield(p, t.KeyImages(), h, t) && Acceptable(spent, t, sound, redone)
  {
    hide Yields, Acceptable, TooCheap, Displace, Refusal, FirstYields;
    RefusalIs(p, spent, h, t, sound, redone);
    DisplaceOk(p, t.KeyImages(), h, t);
  }

  lemma AcceptedHasRoom(p: Pool, q: Pool, h: Hash, t: PoolTx, spent: set<KeyImage>)
    requires PoolInv(p, spent) && Derived(q) && Part(q, p) && h !in p.tx && !TooCheap(p, h, t)
    ensures Room(Inserted(q, h, t), h, if Cheapest(p).Some? then Cheapest(p).value else h)
  {
    hide Cheapest, KeyImagesDerived, FeesDerived;
    var r := Inserted(q, h, t);
    if p.tx == map[] {
      assert q.tx == map[];
    } else {
      CheapestOfDerived(p);
      var m := Cheapest(p).value;
      if m !in q.tx {
        SizeWithin(q.tx, p.tx, m);
      } else {
        assert q.tx[m] == p.tx[m];
        SizePart(q.tx, p.tx);
      }
    }
  }

  lemma {:induction false} SizePart(m: map<Hash, PoolTx>, n: map<Hash, PoolTx>)
    requires forall x :: x in m ==> x in n && n[x] == m[x]
    ensures SizeOf(m) <= SizeOf(n)
  {
    if x :| x in n && x !in m {
      SizeWithin(m, n, x);
    } else {
      assert m == n;
    }
  }

  /** On every return path the four structures still agree, the pool is
      bounded and disjoint from what the chain has spent. A transaction that
      was accepted is in the pool, and stays there through the eviction. One
      that was refused is not, and every transaction that left, even then, was
      cheaper than it. */
  lemma AddTransactionKeeps(p: Pool, spent: set<KeyImage>, h: Hash, t: PoolTx, sound: bool, redone: bool)
    requires PoolInv(p, spent) && t.size > 0
    ensures var a := AddTransaction(p, spent, h, t, sound, redone);
            && PoolInv(a.pool, spent)
            && (a.result == BroadcastAll ==> h in a.pool.tx && a.pool.tx[h] == t)
            && (a.result != BroadcastAll && a.result != IncreaseFee ==> a.pool == p)
            && (forall x :: x in a.pool.tx && !(a.result == BroadcastAll && x == h) ==> x in p.tx && a.pool.tx[x] == p.tx[x])
            && (forall x :: x in p.tx && x !in a.pool.tx ==> Below(p.tx[x], x, t, h))
  {
    hide PoolInv, TooCheap, Displace, Below, Evict, Inserted, Refusal, FirstYields, Distinct;
    RefusalIs(p, spent, h, t, sound, redone);
    if Refusal(p, spent, h, t, sound, redone).None? {
      DisplaceKeeps(p, t.KeyImages(), h, t, spent);
      var d := Displace(p, t.KeyImages(), h, t);
      if d.ok {
        EnterKeeps(p, d.pool, spent, h, t);
      }
    }
  }

  lemma InsertedUnspent(q: Pool, h: Hash, t: PoolTx, spent: set<KeyImage>)
    requires Unspent(q, spent) && t.KeyImages() * spent == {}
    ensures Unspent(Inserted(q, h, t), spent)
  {
    forall k | k in Inserted(q, h, t).kiTx
      ensures k !in spent
    {
      assert k in t.KeyImages() ==> k !in t.KeyImages() * spent;
    }
  }

  lemma EnterKeeps(p: Pool, q: Pool, spent: set<KeyImage>, h: Hash, t: PoolTx)
    requires PoolInv(p, spent) && PoolInv(q, spent) && Part(q, p) && h !in p.tx && !TooCheap(p, h, t)
    requires t.size > 0 && Distinct(t.inputs) && t.KeyImages() !! q.kiTx.Keys && t.KeyImages() * spent == {}
    ensures var e := Evict(Inserted(q, h, t));
            && PoolInv(e, spent) && h in e.tx && e.tx[h] == t
            && (forall x :: x in e.tx && x != h ==> x in q.tx && e.tx[x] == q.tx[x])
            && (forall x :: x in q.tx && x !in e.tx ==> Below(q.tx[x], x, t, h))
  {
    hide Derived, Bounded, TooCheap, Evict, Cheapest, Room;
    InsertedDerived(q, h, t);
    InsertedUnspent(q, h, t, spent);
    AcceptedHasRoom(p, q, h, t, spent);
    EvictKeeps(Inserted(q, h, t), h, if Cheapest(p).Some? then Cheapest(p).value else h, spent);
  }

  /** A transaction is refused for its fee after another one was removed exactly
      when it is new, passes every check and the check of its first conflict,
      not all it conflicts with yields, but the conflict of the least key image
      does. */
  lemma RefusalLoses(p: Pool, spent: set<KeyImage>, h: Hash, t: PoolTx, sound: bool, redone: bool)
    requires PoolInv(p, spent)
    ensures var a := AddTransaction(p, spent, h, t, sound, redone);
            a.result == IncreaseFee && a.pool != p <==>
            && h !in p.tx && !TooCheap(p, h, t) && FirstYields(p, h, t) && Acceptable(spent, t, sound, redone)
            && Conflicts(p, t) != {} && !AllYield(p, t.KeyImages(), h, t) && Yields(p, Least(Conflicts(p, t)), h, t)
  {
    hide KeyImagesDerived, Bounded, Acceptable, TooCheap, Yields, Refusal, FirstYields, Displace, AllYield;
    RefusalIs(p, spent, h, t, sound, redone);
    if Refusal(p, spent, h, t, sound, redone).None? {
      DisplaceOk(p, t.KeyImages(), h, t);
      if Conflicts(p, t) == {} {
        NothingDisplaced(p, t.KeyImages(), h, t);
      } else {
        DisplaceLoses(p, t.KeyImages(), h, t, spent);
      }
    }
  }

  lemma {:induction false} NothingDisplaced(p: Pool, todo: set<KeyImage>, h: Hash, t: PoolTx)
    requires todo * p.kiTx.Keys == {}
    ensures Displace(p, todo, h, t) == Displaced(true, p)
    decreases |todo|
  {
    if todo != {} {
      assert forall k :: k in p.kiTx && k in todo ==> k in todo * p.kiTx.Keys;
      NothingDisplaced(p, todo - {Least(todo)}, h, t);
    }
  }

  /** store_keyimage keeps the invariant when the chain spends a key image. */
  lemma StoreKeyimageKeeps(p: Pool, spent: set<KeyImage>, ki: KeyImage)
    requires PoolInv(p, spent)
    ensures PoolInv(StoreKeyimage(p, ki), spent + {ki})
  {
    hide Bounded, FeesDerived, WellMade;
    if ki in p.kiTx {
      RemovedKeeps(p, p.kiTx[ki], spent);
      RemovedKey(p, ki);
    }
  }

  /** delete_keyimage frees a key image on the chain. */
  lemma DeleteKeyimageKeeps(p: Pool, spent: set<KeyImage>, ki: KeyImage)
    requires PoolInv(p, spent)
    ensures PoolInv(p, spent - {ki})
  {
    hide Derived, Bounded;
  }

  // ----- on_reorganization -----

  /** A transaction put back, and whether it still stands the checks and can be
      redone on the new tip. */
  datatype Again = Again(h: Hash, t: PoolTx, sound: bool, redone: bool)

  function AddAll(p: Pool, spent: set<KeyImage>, ts: seq<Again>): Pool
    decreases |ts|
  {
    if ts == [] then p else
    var a := ts[|ts| - 1];
    AddTransaction(AddAll(p, spent, ts[..|ts| - 1]), spent, a.h, a.t, a.sound, a.redone).pool
  }

  /** The pool's own transactions in the order of their hashes. */
  function Own(m: map<Hash, PoolTx>, sound: Hash -> bool, redone: Hash -> bool): (r: seq<Again>)
    ensures forall i :: 0 <= i < |r| ==> r[i].h in m && r[i].t == m[r[i].h]
    decreases |m|
  {
    if m == map[] then [] else
    var h := Least(m.Keys);
    [Again(h, m[h], sound(h), redone(h))] + Own(m - {h}, sound, redone)
  }

  /** on_reorganization: when blocks were undone the pool is emptied and its
      own transactions come first, then those of the undone blocks. */
  function OnReorganization(p: Pool, spent: set<KeyImage>, undoneBlocks: bool, sound: Hash -> bool, redone: Hash -> bool,
                            undone: seq<Again>): Pool
  {
    AddAll(if undoneBlocks then AddAll(EMPTY_POOL, spent, Own(p.tx, sound, redone)) else p, spent, undone)
  }

  lemma {:induction false} AddAllKeeps(p: Pool, spent: set<KeyImage>, ts: seq<Again>)
    requires PoolInv(p, spent) && forall i :: 0 <= i < |ts| ==> ts[i].t.size > 0
    ensures PoolInv(AddAll(p, spent, ts), spent)
    decreases |ts|
  {
    hide PoolInv, AddTransaction;
    if ts != [] {
      AddAllKeeps(p, spent, ts[..|ts| - 1]);
      var a := ts[|ts| - 1];
      AddTransactionKeeps(AddAll(p, spent, ts[..|ts| - 1]), spent, a.h, a.t, a.sound, a.redone);
    }
  }

  /** Whatever the chain has spent by now: when blocks were undone the pool
      need not have been disjoint from it. */
  lemma OnReorganizationKeeps(p: Pool, spent: set<KeyImage>, undoneBlocks: bool, sound: Hash -> bool, redone: Hash -> bool,
                              undone: seq<Again>)
    requires WellMade(p) && (undoneBlocks || PoolInv(p, spent))
    requires forall i :: 0 <= i < |undone| ==> undone[i].t.size > 0
    ensures PoolInv(OnReorganization(p, spent, undoneBlocks, sound, redone, undone), spent)
  {
    hide PoolInv, AddAll;
    if undoneBlocks {
      var own := Own(p.tx, sound, redone);
      assert PoolInv(EMPTY_POOL, spent) by { EmptyPool(spent); }
      AddAllKeeps(EMPTY_POOL, spent, own);
      AddAllKeeps(AddAll(EMPTY_POOL, spent, own), spent, undone);
    } else {
      AddAllKeeps(p, spent, undone);
    }
  }

  lemma EmptyPool(spent: set<KeyImage>)
    ensures PoolInv(EMPTY_POOL, spent)
  {
  }

  // ----- a refusal that costs another transaction its place -----

  const CHEAP := PoolTx([10], 100, 100)
  const DEAR := PoolTx([20], 300, 100)
  const BETWEEN := PoolTx([10, 20], 200, 100)

  function TwoPool(): Pool {
    Inserted(Inserted(EMPTY_POOL, 1, CHEAP), 2, DEAR)
  }

  lemma OnePoolIs()
    ensures var p := Inserted(EMPTY_POOL, 1, CHEAP);
            Derived(p) && p.tx == map[1 := CHEAP] && p.kiTx == map[10 := 1] && p.totalSize == 100
  {
    assert CHEAP.KeyImages() == {10};
    assert Derived(EMPTY_POOL) by { EmptyPool({}); }
    hide Derived;
    InsertedDerived(EMPTY_POOL, 1, CHEAP);
  }

  lemma TwoPoolIs()
    ensures PoolInv(TwoPool(), {}) && TwoPool().kiTx == map[10 := 1, 20 := 2] && TwoPool().totalSize == 200
    ensures TwoPool().tx == map[1 := CHEAP, 2 := DEAR]
  {
    hide Derived, WithFee, Cheapest;
    OnePoolIs();
    assert DEAR.KeyImages() == {20};
    InsertedDerived(Inserted(EMPTY_POOL, 1, CHEAP), 2, DEAR);
  }

  /** The second check against each conflicting transaction is not dead code:
      here it refuses the new transaction when a cheaper one is already gone. */
  lemma RefusalCosts()
    ensures PoolInv(TwoPool(), {}) && 1 in TwoPool().tx
    ensures var a := AddTransaction(TwoPool(), {}, 3, BETWEEN, true, true);
            a.result == IncreaseFee && a.pool != TwoPool() && 3 !in a.pool.tx
  {
    hide PoolInv, TwoPool, Displace, Refusal, Evict;
    var p := TwoPool();
    TwoPoolIs();
    assert BETWEEN.KeyImages() == {10, 20};
    assert FirstConflict(p, [10]) == Some(10) by { assert [10][..0] == []; }
    assert BETWEEN.inputs[..1] == [10];
    assert !Yields(p, 20, 3, BETWEEN) && Yields(p, 10, 3, BETWEEN);
    RefusalIs(p, {}, 3, BETWEEN, true, true);
    AcceptedIff(p, {}, 3, BETWEEN, true, true);
    DisplaceOk(p, BETWEEN.KeyImages(), 3, BETWEEN);
    assert 20 in BETWEEN.KeyImages();
    RefusalLoses(p, {}, 3, BETWEEN, true, true);
    assert Conflicts(p, BETWEEN) == {10, 20};
    AddTransactionKeeps(p, {}, 3, BETWEEN, true, true);
  }
}
