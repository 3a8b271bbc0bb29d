// What is in the pool after a reorganisation and an eviction, and what
// add_transaction answers.
module PoolContents {
  import opened Basics
  import opened Mempool

  // ----- what is in the pool afterwards -----

  /** A transaction that conflicts with nothing, stands the checks and fits. */
  ghost predicate Fits(p: Pool, spent: set<KeyImage>, a: Again) {
    && a.h !in p.tx && a.t.size > 0 && a.t.KeyImages() !! p.kiTx.Keys && Acceptable(spent, a.t, a.sound, a.redone)
    && p.totalSize + a.t.size <= MAX_POOL_SIZE
  }

  /** It enters, and nothing else changes. */
  lemma FitsEnters(p: Pool, spent: set<KeyImage>, a: Again)
    requires PoolInv(p, spent) && Fits(p, spent, a)
    ensures AddTransaction(p, spent, a.h, a.t, a.sound, a.redone) == Added(BroadcastAll, Inserted(p, a.h, a.t))
  {
    hide Acceptable, PoolInv;
    assert forall k :: k in a.t.KeyImages() ==> k !in p.kiTx;
    NoConflict(p, a.t.inputs);
    RefusalIs(p, spent, a.h, a.t, a.sound, a.redone);
    NothingDisplaced(p, a.t.KeyImages(), a.h, a.t);
    hide Refusal, Inserted, Displace;
    assert Inserted(p, a.h, a.t).totalSize <= MAX_POOL_SIZE by { InsertedSize(p, a.h, a.t); }
  }

  lemma InsertedSize(p: Pool, h: Hash, t: PoolTx)
    ensures Inserted(p, h, t).totalSize == p.totalSize + t.size
  {
  }

  lemma {:induction false} NoConflict(p: Pool, inputs: seq<KeyImage>)
    requires forall k :: k in inputs ==> k !in p.kiTx
    ensures FirstConflict(p, inputs).None?
    decreases |inputs|
  {
    FirstConflictIs(p, inputs);
  }

  function TxOf(ts: seq<Again>): map<Hash, PoolTx>
    decreases |ts|
  {
    if ts == [] then map[] else TxOf(ts[..|ts| - 1])[ts[|ts| - 1].h := ts[|ts| - 1].t]
  }

  function SizesOf(ts: seq<Again>): nat
    decreases |ts|
  {
    if ts == [] then 0 else SizesOf(ts[..|ts| - 1]) + ts[|ts| - 1].t.size
  }

  /** Different hashes, and no key image in two of them. */
  ghost predicate Apart(ts: seq<Again>) {
    forall i, j :: 0 <= i < j < |ts| ==> ts[i].h != ts[j].h && ts[i].t.KeyImages() !! ts[j].t.KeyImages()
  }

  /** All of them new to the pool, apart from each other, acceptable, and small
      enough together with what is there. */
  ghost predicate AllFit(p: Pool, spent: set<KeyImage>, ts: seq<Again>) {
    && Apart(ts) && p.totalSize + SizesOf(ts) <= MAX_POOL_SIZE
    && forall i :: 0 <= i < |ts| ==>
         && ts[i].h !in p.tx && ts[i].t.size > 0 && ts[i].t.KeyImages() !! p.kiTx.Keys
         && Acceptable(spent, ts[i].t, ts[i].sound, ts[i].redone)
  }

  /** The pool has these transactions and their key images on top. */
  ghost predicate Holds(q: Pool, p: Pool, ts: seq<Again>) {
    && q.tx == p.tx + TxOf(ts) && q.totalSize == p.totalSize + SizesOf(ts)
    && forall k :: k in q.kiTx ==> k in p.kiTx || exists i :: 0 <= i < |ts| && k in ts[i].t.KeyImages()
  }

  lemma {:induction false} AllEnter(p: Pool, spent: set<KeyImage>, ts: seq<Again>)
    requires PoolInv(p, spent) && AllFit(p, spent, ts)
    ensures PoolInv(AddAll(p, spent, ts), spent) && Holds(AddAll(p, spent, ts), p, ts)
    decreases |ts|
  {
    if ts == [] {
      assert p.tx + TxOf(ts) == p.tx;
    } else {
      var front, a := ts[..|ts| - 1], ts[|ts| - 1];
      FrontFits(p, spent, ts);
      hide PoolInv, AllFit, AddTransaction;
      AllEnter(p, spent, front);
      var q := AddAll(p, spent, front);
      LastFits(p, q, spent, ts);
      FitsEnters(q, spent, a);
      AddTransactionKeeps(q, spent, a.h, a.t, a.sound, a.redone);
      hide Fits;
      HoldsMore(p, q, ts);
    }
  }

  lemma FrontFits(p: Pool, spent: set<KeyImage>, ts: seq<Again>)
    requires AllFit(p, spent, ts) && ts != []
    ensures AllFit(p, spent, ts[..|ts| - 1]) && ts[|ts| - 1].t.size > 0
  {
    hide Acceptable, PoolTx.KeyImages;
  }

  lemma LastFits(p: Pool, q: Pool, spent: set<KeyImage>, ts: seq<Again>)
    requires ts != [] && AllFit(p, spent, ts) && Holds(q, p, ts[..|ts| - 1])
    ensures Fits(q, spent, ts[|ts| - 1])
  {
    hide Acceptable, PoolTx.KeyImages;
    var front, a := ts[..|ts| - 1], ts[|ts| - 1];
    assert forall i :: 0 <= i < |front| ==> front[i] == ts[i];
    TxOfIn(front);
    assert a.h !in q.tx;
    assert forall i :: 0 <= i < |front| ==> front[i].t.KeyImages() !! a.t.KeyImages();
  }

  lemma {:induction false} TxOfIn(ts: seq<Again>)
    ensures forall h :: h in TxOf(ts) ==> exists i :: 0 <= i < |ts| && ts[i].h == h && TxOf(ts)[h] == ts[i].t
    decreases |ts|
  {
    if ts != [] {
      var front := ts[..|ts| - 1];
      TxOfIn(front);
      forall h | h in TxOf(ts)
        ensures exists i :: 0 <= i < |ts| && ts[i].h == h && TxOf(ts)[h] == ts[i].t
      {
        if h != ts[|ts| - 1].h {
          var i :| 0 <= i < |front| && front[i].h == h && TxOf(front)[h] == front[i].t;
          assert ts[i] == front[i];
        }
      }
    }
  }

  lemma HoldsMore(p: Pool, q: Pool, ts: seq<Again>)
    requires ts != [] && Holds(q, p, ts[..|ts| - 1])
    ensures Holds(Inserted(q, ts[|ts| - 1].h, ts[|ts| - 1].t), p, ts)
  {
    hide PoolTx.KeyImages, WithFee;
    var front, a := ts[..|ts| - 1], ts[|ts| - 1];
    var r := Inserted(q, a.h, a.t);
    assert r.tx == p.tx + TxOf(ts);
    forall k | k in r.kiTx && k !in p.kiTx
      ensures exists i :: 0 <= i < |ts| && k in ts[i].t.KeyImages()
    {
      if k in a.t.KeyImages() {
        assert ts[|ts| - 1] == a;
      } else {
        var i :| 0 <= i < |front| && k in front[i].t.KeyImages();
        assert ts[i] == front[i];
      }
    }
  }

  /** Nothing is made up: a transaction of the pool was there or was put back. */
  lemma {:induction false} AddAllFrom(p: Pool, spent: set<KeyImage>, ts: seq<Again>)
    requires PoolInv(p, spent) && forall i :: 0 <= i < |ts| ==> ts[i].t.size > 0
    ensures var q := AddAll(p, spent, ts);
            forall h :: h in q.tx ==>
              (h in p.tx && q.tx[h] == p.tx[h]) || exists i :: 0 <= i < |ts| && ts[i].h == h && ts[i].t == q.tx[h]
    decreases |ts|
  {
    hide PoolInv, AddTransaction;
    if ts != [] {
      var front, a := ts[..|ts| - 1], ts[|ts| - 1];
      AddAllFrom(p, spent, front);
      AddAllKeeps(p, spent, front);
      var m, q := AddAll(p, spent, front), AddAll(p, spent, ts);
      AddTransactionKeeps(m, spent, a.h, a.t, a.sound, a.redone);
      forall h | h in q.tx && !(h in p.tx && q.tx[h] == p.tx[h])
        ensures exists i :: 0 <= i < |ts| && ts[i].h == h && ts[i].t == q.tx[h]
      {
        if h in m.tx && q.tx[h] == m.tx[h] {
          var i :| 0 <= i < |front| && front[i].h == h && front[i].t == m.tx[h];
          assert ts[i] == front[i];
        } else {
          assert ts[|ts| - 1].h == h;
        }
      }
    }
  }

  lemma OwnNext(m: map<Hash, PoolTx>, sound: Hash -> bool, redone: Hash -> bool)
    requires m != map[]
    ensures var h := Least(m.Keys);
            Own(m, sound, redone) == [Again(h, m[h], sound(h), redone(h))] + Own(m - {h}, sound, redone)
  {
  }

  lemma TxOfOne(a: Again)
    ensures TxOf([a]) == map[a.h := a.t]
  {
    assert [a][..0] == [];
  }

  lemma {:induction false} OwnIs(m: map<Hash, PoolTx>, sound: Hash -> bool, redone: Hash -> bool)
    ensures TxOf(Own(m, sound, redone)) == m
    decreases |m|
  {
    if m != map[] {
      var h := Least(m.Keys);
      var first := Again(h, m[h], sound(h), redone(h));
      OwnIs(m - {h}, sound, redone);
      OwnNext(m, sound, redone);
      hide Own, TxOf;
      TxOfJoin([first], Own(m - {h}, sound, redone));
      TxOfOne(first);
      assert map[h := m[h]] + (m - {h}) == m;
    }
  }

  /** In the order of their hashes, each with what the checks say of it. */
  lemma {:induction false} OwnOrder(m: map<Hash, PoolTx>, sound: Hash -> bool, redone: Hash -> bool)
    ensures var r := Own(m, sound, redone);
            && (forall i :: 0 <= i < |r| ==> r[i].h in m && r[i].sound == sound(r[i].h) && r[i].redone == redone(r[i].h))
            && (forall i, j :: 0 <= i < j < |r| ==> r[i].h < r[j].h)
    decreases |m|
  {
    if m != map[] {
      var h := Least(m.Keys);
      var rest := Own(m - {h}, sound, redone);
      OwnOrder(m - {h}, sound, redone);
      OwnNext(m, sound, redone);
      var r := Own(m, sound, redone);
      hide Own;
      forall j | 0 <= j < |rest|
        ensures h < rest[j].h && r[j + 1] == rest[j]
      {
        assert rest[j].h in m.Keys && rest[j].h != h;
      }
      assert forall i :: 0 < i < |r| ==> r[i] == rest[i - 1];
    }
  }

  lemma {:induction false} TxOfJoin(s: seq<Again>, t: seq<Again>)
    ensures TxOf(s + t) == TxOf(s) + TxOf(t)
    decreases |t|
  {
    if t == [] {
      assert s + t == s;
    } else {
      assert (s + t)[..|s + t| - 1] == s + t[..|t| - 1];
      TxOfJoin(s, t[..|t| - 1]);
    }
  }

  lemma {:induction false} AddAllJoin(p: Pool, spent: set<KeyImage>, s: seq<Again>, t: seq<Again>)
    ensures AddAll(p, spent, s + t) == AddAll(AddAll(p, spent, s), spent, t)
    decreases |t|
  {
    hide AddTransaction;
    if t == [] {
      assert s + t == s;
    } else {
      assert (s + t)[..|s + t| - 1] == s + t[..|t| - 1];
      AddAllJoin(p, spent, s, t[..|t| - 1]);
    }
  }

  /** When blocks were undone and all that is offered, the pool's own and what
      was undone, is acceptable, apart and small enough, the pool holds exactly
      that. */
  lemma ReorganizationRefills(p: Pool, spent: set<KeyImage>, sound: Hash -> bool, redone: Hash -> bool, undone: seq<Again>)
    requires AllFit(EMPTY_POOL, spent, Own(p.tx, sound, redone) + undone)
    ensures OnReorganization(p, spent, true, sound, redone, undone).tx == p.tx + TxOf(undone)
  {
    var own := Own(p.tx, sound, redone);
    EmptyPool(spent);
    AddAllJoin(EMPTY_POOL, spent, own, undone);
    hide PoolInv, AllFit, AddAll;
    AllEnter(EMPTY_POOL, spent, own + undone);
    OwnIs(p.tx, sound, redone);
    TxOfJoin(own, undone);
    assert EMPTY_POOL.tx + TxOf(own + undone) == TxOf(own + undone);
  }

  /** And without undone blocks what was there stays, and what fits is added. */
  lemma ReorganizationAdds(p: Pool, spent: set<KeyImage>, sound: Hash -> bool, redone: Hash -> bool, undone: seq<Again>)
    requires PoolInv(p, spent) && AllFit(p, spent, undone)
    ensures OnReorganization(p, spent, false, sound, redone, undone).tx == p.tx + TxOf(undone)
  {
    hide PoolInv, AllFit, AddAll;
    AllEnter(p, spent, undone);
  }

  /** In any case all there is was there before or was undone. */
  lemma ReorganizationFrom(p: Pool, spent: set<KeyImage>, undoneBlocks: bool, sound: Hash -> bool, redone: Hash -> bool,
                           undone: seq<Again>)
    requires WellMade(p) && (undoneBlocks || PoolInv(p, spent))
    requires forall i :: 0 <= i < |undone| ==> undone[i].t.size > 0
    ensures var q := OnReorganization(p, spent, undoneBlocks, sound, redone, undone);
            forall h :: h in q.tx ==>
              (h in p.tx && q.tx[h] == p.tx[h]) || exists i :: 0 <= i < |undone| && undone[i].h == h && undone[i].t == q.tx[h]
  {
    hide PoolInv, AddAll;
    if undoneBlocks {
      var own := Own(p.tx, sound, redone);
      EmptyPool(spent);
      AddAllKeeps(EMPTY_POOL, spent, own);
      AddAllFrom(EMPTY_POOL, spent, own);
      AddAllFrom(AddAll(EMPTY_POOL, spent, own), spent, undone);
    } else {
      AddAllFrom(p, spent, undone);
    }
  }

  /** The transaction of an undone block comes back to an empty pool. */
  lemma UndoneComesBack()
    ensures OnReorganization(EMPTY_POOL, {}, true, _ => true, _ => true, [Again(5, PoolTx([9], 100, 100), true, true)]).tx
            == map[5 := PoolTx([9], 100, 100)]
  {
    var a := Again(5, PoolTx([9], 100, 100), true, true);
    assert Own(map[], _ => true, _ => true) + [a] == [a];
    assert [a][..0] == [];
    assert a.t.KeyImages() == {9};
    assert SizesOf([a]) == 100 && TxOf([a]) == map[5 := a.t];
    assert AllFit(EMPTY_POOL, {}, [a]);
    ReorganizationRefills(EMPTY_POOL, {}, _ => true, _ => true, [a]);
  }

  // ----- eviction takes no more than it must -----

  /** Whatever left is cheaper than whatever stayed. */
  ghost predicate CheaperLeft(q: Pool, e: Pool) {
    forall x, y :: x in q.tx && x !in e.tx && y in e.tx ==> y in q.tx && Below(q.tx[x], x, q.tx[y], y)
  }

  lemma CheapestLeft(q: Pool, c: Hash, e: Pool)
    requires IsCheapest(q, c) && CheaperLeft(Removed(q, c), e) && Part(e, Removed(q, c))
    ensures CheaperLeft(q, e) && Part(e, q)
  {
    hide Below;
  }

  /** What is evicted are the cheapest, only from a pool that is too large, and no
      further than to its limit. */
  lemma {:induction false} EvictOnly(q: Pool)
    requires Derived(q)
    ensures var e := Evict(q);
            && (q.totalSize <= MAX_POOL_SIZE ==> e == q)
            && (e != q ==> e.totalSize >= MAX_POOL_SIZE)
            && CheaperLeft(q, e) && Part(e, q)
    decreases |q.tx|
  {
    hide KeyImagesDerived, FeesDerived, WellMade, Cheapest, CheaperLeft, Part, IsCheapest;
    NoneLeft(q);
    if q.totalSize > MAX_POOL_SIZE && q.tx != map[] {
      CheapestOfDerived(q);
      var c := Cheapest(q).value;
      CheapestThere(q, c);
      if q.totalSize >= MAX_POOL_SIZE + q.tx[c].size {
        RemovedDerived(q, c);
        RemovedOne(q, c);
        hide Removed;
        EvictOnly(Removed(q, c));
        CheapestLeft(q, c, Evict(Removed(q, c)));
      }
    } else if q.tx == map[] {
      CheapestIs(q);
    }
  }

  lemma RemovedOne(q: Pool, c: Hash)
    requires c in q.tx
    ensures Removed(q, c).totalSize == q.totalSize - q.tx[c].size && |Removed(q, c).tx| < |q.tx|
  {
  }

  lemma CheapestThere(q: Pool, c: Hash)
    requires IsCheapest(q, c)
    ensures c in q.tx
  {
  }

  lemma NoneLeft(q: Pool)
    ensures CheaperLeft(q, q) && Part(q, q)
  {
  }

  // ----- the answers -----

  /** Which check turned a transaction down. */
  lemma AnswersAre(p: Pool, spent: set<KeyImage>, h: Hash, t: PoolTx, sound: bool, redone: bool)
    requires PoolInv(p, spent)
    ensures var r := AddTransaction(p, spent, h, t, sound, redone).result;
            var dear := h !in p.tx && !TooCheap(p, h, t) && FirstYields(p, h, t);
            && (r == AlreadyInPool <==> h in p.tx)
            && (r == OutputAlreadySpent <==> dear && t.KeyImages() * spent != {})
            && (r == Ban <==> dear && t.KeyImages() * spent == {} && !(sound && Distinct(t.inputs)))
            && (r == FailedToRedo <==> dear && t.KeyImages() * spent == {} && sound && Distinct(t.inputs) && !redone)
  {
    hide PoolInv, Yields, Distinct, TooCheap, Displace, Evict;
  }

  /** The fee rate is the fee by the size, rounded down. */
  lemma FeePerByteIs(t: PoolTx)
    requires t.size > 0
    ensures t.FeePerByte() * t.size <= t.fee < (t.FeePerByte() + 1) * t.size
  {
    var r := t.fee / t.size;
    assert t.fee == r * t.size + t.fee % t.size;
    assert (r + 1) * t.size == r * t.size + t.size;
  }

  /** A full pool turns down what pays less than all there is in it. */
  lemma TooCheapIs(p: Pool, h: Hash, t: PoolTx)
    requires Derived(p)
    ensures TooCheap(p, h, t)
            <==> p.totalSize >= MAX_POOL_SIZE && p.tx != map[] && forall x :: x in p.tx ==> Below(t, h, p.tx[x], x)
  {
    hide KeyImagesDerived, FeesDerived, WellMade, Cheapest;
    if p.tx == map[] {
      EmptyCheapest(p);
    } else {
      CheapestOfDerived(p);
    }
  }

  lemma EmptyCheapest(p: Pool)
    requires FeesDerived(p) && p.tx == map[]
    ensures Cheapest(p).None?
  {
    CheapestIs(p);
  }
}
