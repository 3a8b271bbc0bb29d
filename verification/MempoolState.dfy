// The pool in place: BlockChainState's four memory-state structures, each
// method proved against the pool function of the same operation.
module MempoolState {
  import opened Basics
  import opened P = Mempool

  class TransactionPool {
    var memoryStateTx: map<Hash, PoolTx>
    var memoryStateKiTx: map<KeyImage, Hash>
    var memoryStateFeeTx: map<nat, set<Hash>>
    var memoryStateTotalSize: int
    /** The key images the chain has spent. */
    var spent: set<KeyImage>

    function Contents(): Pool
      reads this
    {
      Pool(memoryStateTx, memoryStateKiTx, memoryStateFeeTx, memoryStateTotalSize)
    }

    constructor ()
      ensures Contents() == EMPTY_POOL && spent == {} && PoolInv(Contents(), spent)
    {
      memoryStateTx, memoryStateKiTx, memoryStateFeeTx, memoryStateTotalSize, spent := map[], map[], map[], 0, {};
      new;
      EmptyPool({});
    }

    /** Erases what a transaction has in every structure; with the structures
        in agreement nothing is missing. */
    method RemoveFromPool(h: Hash) returns (allErased: bool)
      modifies this`memoryStateTx, this`memoryStateKiTx, this`memoryStateFeeTx, this`memoryStateTotalSize
      ensures Contents() == Removed(old(Contents()), h)
      ensures Derived(old(Contents())) ==> allErased
    {
      allErased := true;
      if h !in memoryStateTx {
        return;
      }
      var t := memoryStateTx[h];
      for n := 0 to |t.inputs|
        invariant memoryStateKiTx == old(memoryStateKiTx) - set k | k in t.inputs[..n]
        invariant memoryStateTx == old(memoryStateTx) && memoryStateFeeTx == old(memoryStateFeeTx)
        invariant memoryStateTotalSize == old(memoryStateTotalSize)
        invariant Derived(old(Contents())) ==> allErased
      {
        assert t.inputs[..n + 1] == t.inputs[..n] + [t.inputs[n]];
        if t.inputs[n] !in memoryStateKiTx {
          MissingInput(old(Contents()), h, n);
          allErased := false;
        }
        memoryStateKiTx := memoryStateKiTx - {t.inputs[n]};
      }
      assert t.inputs[..|t.inputs|] == t.inputs;
      var erased := EraseFee(t.FeePerByte(), h);
      allErased := allErased && erased;
      memoryStateTotalSize := memoryStateTotalSize - t.size;
      memoryStateTx := memoryStateTx - {h};
    }

    method EraseFee(f: nat, h: Hash) returns (erased: bool)
      modifies this`memoryStateFeeTx
      ensures memoryStateFeeTx == WithoutFee(old(memoryStateFeeTx), f, h)
      ensures erased <==> f in old(memoryStateFeeTx) && h in old(memoryStateFeeTx)[f]
    {
      var row := if f in memoryStateFeeTx then memoryStateFeeTx[f] else {};
      erased := h in row;
      memoryStateFeeTx := memoryStateFeeTx[f := row - {h}];
      if memoryStateFeeTx[f] == {} {
        memoryStateFeeTx := memoryStateFeeTx - {f};
      }
    }

    // ----- add_transaction -----

    /** minimum_pool_fee_per_byte: the lowest rate in the pool and, of the
        transactions that pay it, the one of the least hash; its invariant(...)
        cannot fail. */
    method MinimumPoolFeePerByte() returns (rate: nat, minimal: Option<Hash>)
      requires FeesDerived(Contents())
      ensures minimal.None? ==> memoryStateTx == map[] && rate == 0
      ensures minimal.Some? ==> IsCheapest(Contents(), minimal.value) && rate == memoryStateTx[minimal.value].FeePerByte()
      ensures forall h :: h in memoryStateTx ==> rate <= memoryStateTx[h].FeePerByte()
      ensures minimal == Cheapest(Contents())
    {
      CheapestIs(Contents());
      if memoryStateFeeTx == map[] {
        return 0, None;
      }
      rate := Least(memoryStateFeeTx.Keys);
      return rate, Some(Least(memoryStateFeeTx[rate]));
    }

    /** The check of the first conflict, in the order of the inputs. */
    method FirstConflictYields(h: Hash, t: PoolTx) returns (ok: bool)
      requires KeyImagesDerived(Contents())
      ensures ok == FirstYields(Contents(), h, t)
    {
      for n := 0 to |t.inputs|
        invariant FirstConflict(Contents(), t.inputs[..n]).None?
      {
        assert t.inputs[..n + 1][..n] == t.inputs[..n];
        var ki := t.inputs[n];
        if ki in memoryStateKiTx {
          FirstAt(Contents(), t.inputs, n);
          var other := memoryStateKiTx[ki];
          assert other in memoryStateTx;
          return !Below(t, h, memoryStateTx[other], other);
        }
      }
      assert t.inputs[..|t.inputs|] == t.inputs;
      return true;
    }

    method AnySpent(t: PoolTx) returns (found: bool)
      ensures found <==> t.KeyImages() * spent != {}
    {
      for n := 0 to |t.inputs|
        invariant forall i :: 0 <= i < n ==> t.inputs[i] !in spent
      {
        if t.inputs[n] in spent {
          assert t.inputs[n] in t.KeyImages() * spent;
          return true;
        }
      }
      return false;
    }

    method DisplaceConflicts(h: Hash, t: PoolTx) returns (ok: bool)
      requires PoolInv(Contents(), spent) && h !in memoryStateTx
      modifies this`memoryStateTx, this`memoryStateKiTx, this`memoryStateFeeTx, this`memoryStateTotalSize
      ensures Displaced(ok, Contents()) == Displace(old(Contents()), t.KeyImages(), h, t)
      ensures PoolInv(Contents(), spent)
    {
      hide Bounded, FeesDerived, WellMade;
      var todo := t.KeyImages();
      while todo != {}
        invariant Displace(Contents(), todo, h, t) == Displace(old(Contents()), t.KeyImages(), h, t)
        invariant PoolInv(Contents(), spent)
        decreases todo
      {
        var ki := Least(todo);
        if ki in memoryStateKiTx {
          var other := memoryStateKiTx[ki];
          OwnerThere(Contents(), ki, spent);
          if Below(t, h, memoryStateTx[other], other) {
            return false;
          }
          RemovedKeeps(Contents(), other, spent);
          var allErased := RemoveFromPool(other);
          assert allErased;
        }
        todo := todo - {ki};
      }
      return true;
    }

    method InsertKeyImages(h: Hash, kis: set<KeyImage>) returns (allInserted: bool)
      modifies this`memoryStateKiTx
      ensures allInserted <==> kis * old(memoryStateKiTx).Keys == {}
      ensures allInserted ==> memoryStateKiTx == WithKeyImages(old(memoryStateKiTx), kis, h)
    {
      allInserted := true;
      ghost var before := memoryStateKiTx;
      var todo := kis;
      ghost var done := {};
      while todo != {}
        invariant done + todo == kis && done !! todo
        invariant memoryStateKiTx.Keys == before.Keys + done
        invariant allInserted <==> done * before.Keys == {}
        invariant allInserted ==> memoryStateKiTx == WithKeyImages(before, done, h)
        decreases todo
      {
        var ki := Least(todo);
        if ki in memoryStateKiTx {
          assert ki in (done + {ki}) * before.Keys;
          allInserted := false;
        } else {
          memoryStateKiTx := memoryStateKiTx[ki := h];
          assert (done + {ki}) * before.Keys == done * before.Keys;
        }
        done := done + {ki};
        todo := todo - {ki};
      }
      assert done == kis;
    }

    method Insert(h: Hash, t: PoolTx) returns (allInserted: bool)
      modifies this`memoryStateTx, this`memoryStateKiTx, this`memoryStateFeeTx, this`memoryStateTotalSize
      ensures allInserted <==> t.KeyImages() * old(memoryStateKiTx).Keys == {} && h !in old(memoryStateTx)
                               && !(t.FeePerByte() in old(memoryStateFeeTx) && h in old(memoryStateFeeTx)[t.FeePerByte()])
      ensures allInserted ==> Contents() == Inserted(old(Contents()), h, t)
    {
      hide WithKeyImages;
      allInserted := InsertKeyImages(h, t.KeyImages());
      allInserted := allInserted && h !in memoryStateTx;
      memoryStateTx := memoryStateTx[h := t];
      var row := if t.FeePerByte() in memoryStateFeeTx then memoryStateFeeTx[t.FeePerByte()] else {};
      allInserted := allInserted && h !in row;
      memoryStateFeeTx := memoryStateFeeTx[t.FeePerByte() := row + {h}];
      memoryStateTotalSize := memoryStateTotalSize + t.size;
    }

    method EvictCheapest()
      requires Derived(Contents())
      modifies this`memoryStateTx, this`memoryStateKiTx, this`memoryStateFeeTx, this`memoryStateTotalSize
      ensures Contents() == Evict(old(Contents()))
    {
      hide KeyImagesDerived, FeesDerived, WellMade, Cheapest;
      while memoryStateTotalSize > MAX_POOL_SIZE
        invariant Derived(Contents()) && Evict(Contents()) == Evict(old(Contents()))
        decreases |memoryStateTx|
      {
        NotEmpty(Contents());
        CheapestOfDerived(Contents());
        var _, c := MinimumPoolFeePerByte();
        if memoryStateTotalSize < MAX_POOL_SIZE + memoryStateTx[c.value].size {
          return;
        }
        RemovedDerived(Contents(), c.value);
        var allErased := RemoveFromPool(c.value);
        assert allErased;
      }
    }

    /** No invariant(...) of add_transaction can fail. */
    method AddTransaction(h: Hash, t: PoolTx, sound: bool, redone: bool) returns (r: AddResult)
      requires PoolInv(Contents(), spent) && t.size > 0
      modifies this`memoryStateTx, this`memoryStateKiTx, this`memoryStateFeeTx, this`memoryStateTotalSize
      ensures Added(r, Contents()) == P.AddTransaction(old(Contents()), spent, h, t, sound, redone)
      ensures PoolInv(Contents(), spent)
    {
      hide Displace, Evict, Inserted, Cheapest, KeyImagesDerived, FeesDerived, WellMade, Bounded, Distinct;
      AddTransactionKeeps(Contents(), spent, h, t, sound, redone);
      if h in memoryStateTx {
        return AlreadyInPool;
      }
      var rate, minimal := MinimumPoolFeePerByte();
      if memoryStateTotalSize >= MAX_POOL_SIZE && minimal.Some?
         && (t.FeePerByte() < rate || (t.FeePerByte() == rate && h < minimal.value)) {
        return IncreaseFee;
      }
      var givesWay := FirstConflictYields(h, t);
      if !givesWay {
        return IncreaseFee;
      }
      var found := AnySpent(t);
      if found {
        return OutputAlreadySpent;
      }
      if !sound || !Distinct(t.inputs) {
        return Ban;
      }
      if !redone {
        return FailedToRedo;
      }
      DisplaceKeeps(Contents(), t.KeyImages(), h, t, spent);
      var ok := DisplaceConflicts(h, t);
      if !ok {
        return IncreaseFee;
      }
      ghost var q := Contents();
      NewHash(q, h);
      var allInserted := Insert(h, t);
      assert allInserted;
      InsertedDerived(q, h, t);
      EvictCheapest();
      return BroadcastAll;
    }

    // ----- the chain -----

    method StoreKeyimage(ki: KeyImage)
      requires PoolInv(Contents(), spent)
      modifies this
      ensures Contents() == P.StoreKeyimage(old(Contents()), ki) && spent == old(spent) + {ki}
      ensures PoolInv(Contents(), spent)
    {
      hide Bounded, FeesDerived, WellMade;
      StoreKeyimageKeeps(Contents(), spent, ki);
      spent := spent + {ki};
      if ki in memoryStateKiTx {
        var allErased := RemoveFromPool(memoryStateKiTx[ki]);
      }
    }

    method DeleteKeyimage(ki: KeyImage)
      requires PoolInv(Contents(), spent)
      modifies this`spent
      ensures spent == old(spent) - {ki} && PoolInv(Contents(), spent)
    {
      DeleteKeyimageKeeps(Contents(), spent, ki);
      spent := spent - {ki};
    }

    method AddEach(ts: seq<Again>)
      requires PoolInv(Contents(), spent) && forall i :: 0 <= i < |ts| ==> ts[i].t.size > 0
      modifies this`memoryStateTx, this`memoryStateKiTx, this`memoryStateFeeTx, this`memoryStateTotalSize
      ensures Contents() == AddAll(old(Contents()), spent, ts) && PoolInv(Contents(), spent)
    {
      hide PoolInv, P.AddTransaction;
      for n := 0 to |ts|
        invariant Contents() == AddAll(old(Contents()), spent, ts[..n]) && PoolInv(Contents(), spent)
      {
        assert ts[..n + 1][..n] == ts[..n];
        var r := AddTransaction(ts[n].h, ts[n].t, ts[n].sound, ts[n].redone);
      }
      assert ts[..|ts|] == ts;
    }

    method OwnTransactions(sound: Hash -> bool, redone: Hash -> bool) returns (own: seq<Again>)
      ensures own == Own(memoryStateTx, sound, redone)
    {
      own := [];
      var rest := memoryStateTx;
      while rest != map[]
        invariant own + Own(rest, sound, redone) == Own(memoryStateTx, sound, redone)
        decreases |rest|
      {
        var h := Least(rest.Keys);
        own := own + [Again(h, rest[h], sound(h), redone(h))];
        rest := rest - {h};
      }
    }

    method OnReorganization(undoneBlocks: bool, sound: Hash -> bool, redone: Hash -> bool, undone: seq<Again>)
      requires PoolInv(Contents(), spent)
      requires forall i :: 0 <= i < |undone| ==> undone[i].t.size > 0
      modifies this`memoryStateTx, this`memoryStateKiTx, this`memoryStateFeeTx, this`memoryStateTotalSize
      ensures Contents() == P.OnReorganization(old(Contents()), spent, undoneBlocks, sound, redone, undone)
      ensures PoolInv(Contents(), spent)
    {
      hide PoolInv, AddAll, Own;
      if undoneBlocks {
        var own := OwnTransactions(sound, redone);
        assert forall i :: 0 <= i < |own| ==> own[i].t.size > 0 by { AllSized(Contents(), spent); }
        memoryStateTx, memoryStateKiTx, memoryStateFeeTx, memoryStateTotalSize := map[], map[], map[], 0;
        EmptyPool(spent);
        AddEach(own);
      }
      AddEach(undone);
    }
  }

  lemma AllSized(p: Pool, spent: set<KeyImage>)
    requires PoolInv(p, spent)
    ensures forall h :: h in p.tx ==> p.tx[h].size > 0
  {
  }

  lemma FirstAt(p: Pool, inputs: seq<KeyImage>, n: nat)
    requires n < |inputs| && inputs[n] in p.kiTx && FirstConflict(p, inputs[..n]).None?
    ensures FirstConflict(p, inputs) == Some(inputs[n])
    decreases |inputs|
  {
    if n < |inputs| - 1 {
      assert inputs[..|inputs| - 1][..n] == inputs[..n];
      FirstAt(p, inputs[..|inputs| - 1], n);
    }
  }

  lemma NotEmpty(p: Pool)
    requires Derived(p) && p.totalSize > 0
    ensures p.tx != map[]
  {
  }

  lemma NewHash(p: Pool, h: Hash)
    requires Derived(p) && h !in p.tx
    ensures forall f :: f in p.feeTx ==> h !in p.feeTx[f]
  {
  }

  lemma MissingInput(p: Pool, h: Hash, n: nat)
    requires h in p.tx && n < |p.tx[h].inputs|
    ensures Derived(p) ==> p.tx[h].inputs[n] in p.kiTx && forall m :: 0 <= m < n ==> p.tx[h].inputs[m] != p.tx[h].inputs[n]
  {
  }
}
