// The amounts of a transaction WalletNode creates: transfers combined by
// address, outputs selected for them, the change added and everything split.
module Payment {
  import opened Basics
  import opened Amounts
  import T = WalletTypes
  import opened CoinStore
  import opened CoinSelector

  type PublicAddress = nat

  datatype Transfer = Transfer(to: PublicAddress, amount: Amount)

  datatype TxOut = TxOut(to: PublicAddress, amount: Amount)

  // ----- amounts by address -----

  function Owed(m: map<PublicAddress, Amount>, a: PublicAddress): Amount {
    if a in m then m[a] else 0
  }

  function Add(m: map<PublicAddress, Amount>, a: PublicAddress, x: Amount): map<PublicAddress, Amount> {
    m[a := Owed(m, a) + x]
  }

  function Combined(ts: seq<Transfer>): map<PublicAddress, Amount>
    decreases |ts|
  {
    if ts == [] then map[] else
    Add(Combined(ts[..|ts| - 1]), ts[|ts| - 1].to, ts[|ts| - 1].amount)
  }

  function SumTransfers(ts: seq<Transfer>): nat
    decreases |ts|
  {
    if ts == [] then 0 else SumTransfers(ts[..|ts| - 1]) + ts[|ts| - 1].amount
  }

  function SumOwed(m: map<PublicAddress, Amount>): nat
    decreases |m|
  {
    if m == map[] then 0 else
    var a := Least(m.Keys);
    m[a] + SumOwed(m - {a})
  }

  lemma {:induction false} SumOwedSplit(m: map<PublicAddress, Amount>, a: PublicAddress)
    requires a in m
    ensures SumOwed(m) == m[a] + SumOwed(m - {a})
    decreases |m|
  {
    var b := Least(m.Keys);
    if a != b {
      SumOwedSplit(m - {b}, a);
      SumOwedSplit(m - {a}, b);
      assert m - {a} - {b} == m - {b} - {a};
    }
  }

  lemma SumOwedAdd(m: map<PublicAddress, Amount>, a: PublicAddress, x: Amount)
    ensures SumOwed(Add(m, a, x)) == SumOwed(m) + x
    ensures forall b :: Owed(Add(m, a, x), b) == Owed(m, b) + if b == a then x else 0
  {
    SumOwedSplit(Add(m, a, x), a);
    assert Add(m, a, x) - {a} == m - {a};
    if a in m {
      SumOwedSplit(m, a);
    } else {
      assert m - {a} == m;
    }
  }

  lemma SumOwedBounds(m: map<PublicAddress, Amount>, a: PublicAddress)
    ensures Owed(m, a) <= SumOwed(m)
  {
    if a in m {
      SumOwedSplit(m, a);
    }
  }

  /** The loop over the transfers. */
  method Combine(transfers: seq<Transfer>) returns (combined: map<PublicAddress, Amount>, total: Amount)
    ensures combined == Combined(transfers) && total == SumTransfers(transfers) == SumOwed(combined)
  {
    combined, total := map[], 0;
    hide Add;
    for n := 0 to |transfers|
      invariant combined == Combined(transfers[..n]) && total == SumTransfers(transfers[..n]) == SumOwed(combined)
    {
      assert transfers[..n + 1][..n] == transfers[..n];
      SumOwedAdd(combined, transfers[n].to, transfers[n].amount);
      combined := Add(combined, transfers[n].to, transfers[n].amount);
      total := total + transfers[n].amount;
    }
    assert transfers[..|transfers|] == transfers;
  }

  // ----- outputs -----

  function To(a: PublicAddress, pieces: seq<Amount>): (r: seq<TxOut>)
    ensures |r| == |pieces| && forall i :: 0 <= i < |r| ==> r[i] == TxOut(a, pieces[i])
    decreases |pieces|
  {
    if pieces == [] then [] else To(a, pieces[..|pieces| - 1]) + [TxOut(a, pieces[|pieces| - 1])]
  }

  function TotalOut(outs: seq<TxOut>): nat
    decreases |outs|
  {
    if outs == [] then 0 else TotalOut(outs[..|outs| - 1]) + outs[|outs| - 1].amount
  }

  function SumTo(outs: seq<TxOut>, a: PublicAddress): nat
    decreases |outs|
  {
    if outs == [] then 0 else
    SumTo(outs[..|outs| - 1], a) + if outs[|outs| - 1].to == a then outs[|outs| - 1].amount else 0
  }

  lemma {:induction false} OutsMore(outs: seq<TxOut>, a: PublicAddress, pieces: seq<Amount>)
    ensures TotalOut(outs + To(a, pieces)) == TotalOut(outs) + Sum(pieces)
    ensures forall b :: SumTo(outs + To(a, pieces), b) == SumTo(outs, b) + if b == a then Sum(pieces) else 0
    decreases |pieces|
  {
    if pieces == [] {
      assert outs + To(a, pieces) == outs;
    } else {
      var front := pieces[..|pieces| - 1];
      OutsMore(outs, a, front);
      var all := outs + To(a, pieces);
      assert all[..|all| - 1] == outs + To(a, front);
    }
  }

  /** Nothing sent to this address is dust. */
  ghost predicate CleanTo(outs: seq<TxOut>, a: PublicAddress) {
    forall o :: o in outs && o.to == a ==> !IsDust(o.amount)
  }

  /** Every address gets what it is owed, and round amounts leave no dust. */
  ghost predicate Pays(outs: seq<TxOut>, m: map<PublicAddress, Amount>) {
    && TotalOut(outs) == SumOwed(m)
    && (forall a :: SumTo(outs, a) == Owed(m, a))
    && (forall a :: Owed(m, a) % DUST_FLOOR == 0 ==> CleanTo(outs, a))
  }

  ghost predicate Fitting(m: map<PublicAddress, Amount>) {
    forall a :: a in m ==> m[a] < WORD
  }

  /** The loop that splits every amount, in the order of the addresses. */
  method AddOutputs(combined: map<PublicAddress, Amount>) returns (outs: seq<TxOut>)
    requires Fitting(combined)
    ensures Pays(outs, combined)
  {
    outs := [];
    var todo := combined.Keys;
    ghost var done: map<PublicAddress, Amount> := map[];
    PaysNone();
    hide Pays;
    while todo != {}
      invariant todo <= combined.Keys && done == combined - todo && Pays(outs, done)
      decreases todo
    {
      var a := Least(todo);
      var pieces := DecomposeAmount(combined[a], DUST_FLOOR);
      PaysMore(outs, done, a, pieces, combined[a]);
      outs := outs + To(a, pieces);
      todo := todo - {a};
      done := done[a := combined[a]];
    }
    assert done == combined;
  }

  lemma PaysNone()
    ensures Pays([], map[])
  {
  }

  lemma PaysMore(outs: seq<TxOut>, done: map<PublicAddress, Amount>, a: PublicAddress, pieces: seq<Amount>, amount: Amount)
    requires Pays(outs, done) && a !in done && Sum(pieces) == amount && (amount % DUST_FLOOR == 0 ==> NoDust(pieces))
    ensures Pays(outs + To(a, pieces), done[a := amount])
  {
    var all, m := outs + To(a, pieces), done[a := amount];
    OutsMore(outs, a, pieces);
    SumOwedSplit(m, a);
    assert m - {a} == done;
    forall b | Owed(m, b) % DUST_FLOOR == 0
      ensures CleanTo(all, b)
    {
      CleanMore(outs, a, pieces, b, done, amount);
    }
  }

  lemma CleanMore(outs: seq<TxOut>, a: PublicAddress, pieces: seq<Amount>, b: PublicAddress, done: map<PublicAddress, Amount>,
                  amount: Amount)
    requires Pays(outs, done) && a !in done && (amount % DUST_FLOOR == 0 ==> NoDust(pieces))
    requires Owed(done[a := amount], b) % DUST_FLOOR == 0
    ensures CleanTo(outs + To(a, pieces), b)
  {
    hide IsDust;
    assert Owed(done, b) % DUST_FLOOR == 0;
    assert CleanTo(outs, b);
  }

  // ----- the payment -----

  ghost predicate Balances(outs: seq<TxOut>, transfers: seq<Transfer>, changeTo: PublicAddress, change: Amount, usedTotal: nat,
                           paid: nat) {
    && TotalOut(outs) + paid == usedTotal
    && (forall a :: SumTo(outs, a) == Owed(Combined(transfers), a) + if a == changeTo then change else 0)
    && (changeTo !in Combined(transfers) ==> CleanTo(outs, changeTo))
  }

  /** A selection that is good for these outputs. */
  ghost predicate Chosen(selector: UnspentSelector, from: seq<T.Coin>, total: Amount, fee: Amount, dustFee: Amount,
                         change: Amount, sizeFee: nat)
    reads selector
  {
    && multiset(selector.usedUnspents) <= multiset(from)
    && TotalOf(selector.usedUnspents) == total + fee + dustFee + change <= TotalOf(from)
    && change % DUST_FLOOR == 0 && fee + dustFee >= sizeFee
  }

  /** One call of select_optimal_outputs. */
  method SelectOnce(selector: UnspentSelector, blockHeight: T.Height, blockTime: nat, confirmedHeight: T.Height, medianSize: nat,
                    anonymity: nat, total: Amount, totalOutputs: nat, feePerByte: Amount, level: Level)
    returns (verdict: Verdict, change: Amount, fee: Amount, dustFee: Amount)
    requires Flagged(selector.unspents)
    requires selector.Contents() == Coins(map[], map[], [], 0, 0) && selector.usedUnspents == [] && selector.raAmounts == []
    modifies selector
    ensures verdict == Selected ==>
              Chosen(selector, old(selector.unspents), total, fee, dustFee, change,
                     SizeFee(|selector.usedUnspents|, totalOutputs, anonymity, feePerByte))
    ensures var e := Eligible(old(selector.unspents), blockHeight, blockTime, confirmedHeight);
            verdict == NotEnoughFunds <==> TotalOf(Usable(e, anonymity)) < total + fee
  {
    hide Flagged, FeeFits, Eligible, Usable, TxSize, SizeFee, TotalOf, IsDust;
    ghost var coins := selector.unspents;
    verdict, change, fee, dustFee :=
      selector.SelectOptimalOutputs(blockHeight, blockTime, confirmedHeight, medianSize, anonymity, total, totalOutputs, feePerByte, level);
    if verdict == Selected {
      ghost var e := Eligible(coins, blockHeight, blockTime, confirmedHeight);
      UsedFits(selector.usedUnspents, coins, e, anonymity, blockHeight, blockTime, confirmedHeight);
    }
  }

  /** The middle of create_transaction: outputs are selected from a capped list
      and, when that fails, from all there are. When one succeeds, the outputs of
      the transaction and its fee are exactly what the selected ones hold; every
      address gets its transfers and one the change; and change to an address of
      its own is never dust. None is a refused request: no transfer, or one of
      nothing. */
  method Pay(selector: UnspentSelector, all: seq<T.Coin>, transfers: seq<Transfer>, changeTo: PublicAddress, blockHeight: T.Height,
             blockTime: nat, confirmedHeight: T.Height, medianSize: nat, anonymity: nat, feePerByte: Amount, level: Level)
    returns (verdict: Option<Verdict>, outs: seq<TxOut>, change: Amount, paid: Amount, totalOutputs: nat)
    requires Flagged(selector.unspents) && Flagged(all)
    requires selector.Contents() == Coins(map[], map[], [], 0, 0) && selector.usedUnspents == [] && selector.raAmounts == []
    requires SumTransfers(transfers) < WORD && TotalOf(selector.unspents) < WORD && TotalOf(all) < WORD
    modifies selector
    ensures verdict.None? <==> transfers == [] || exists tr :: tr in transfers && tr.amount == 0
    ensures verdict == Some(Selected) ==>
              && Balances(outs, transfers, changeTo, change, TotalOf(selector.usedUnspents), paid)
              && paid >= SizeFee(|selector.usedUnspents|, totalOutputs, anonymity, feePerByte)
              && (multiset(selector.usedUnspents) <= multiset(old(selector.unspents)) || multiset(selector.usedUnspents) <= multiset(all))
    ensures verdict != Some(Selected) ==> outs == []
    ensures verdict == Some(NotEnoughFunds) ==>
              TotalOf(Usable(Eligible(all, blockHeight, blockTime, confirmedHeight), anonymity)) < SumTransfers(transfers) + paid
  {
    hide Flagged, Eligible, Usable, TxSize, SizeFee, TotalOf, Pays, Fitting, Balances, IsDust, Chosen;
    outs, change, paid, totalOutputs := [], 0, 0, 0;
    if transfers == [] || exists tr :: tr in transfers && tr.amount == 0 {
      return None, outs, change, paid, totalOutputs;
    }
    var combined, total := Combine(transfers);
    AllFit(combined);
    var pieces := AddOutputs(combined);
    totalOutputs := |pieces|;
    ghost var from := selector.unspents;
    var v, fee, dustFee;
    v, change, fee, dustFee :=
      SelectOnce(selector, blockHeight, blockTime, confirmedHeight, medianSize, anonymity, total, totalOutputs, feePerByte, level);
    if v != Selected {
      selector.Reset(all);
      from := all;
      v, change, fee, dustFee :=
        SelectOnce(selector, blockHeight, blockTime, confirmedHeight, medianSize, anonymity, total, totalOutputs, feePerByte, level);
    }
    verdict := Some(v);
    if v != Selected {
      paid := fee;
      return;
    }
    paid := fee + dustFee;
    ChosenIs(selector, from, total, fee, dustFee, change, SizeFee(|selector.usedUnspents|, totalOutputs, anonymity, feePerByte));
    SumOwedAdd(combined, changeTo, change);
    var owed := if change > 0 then Add(combined, changeTo, change) else combined;
    AllFit(owed);
    outs := AddOutputs(owed);
    PaidBalances(outs, owed, combined, transfers, changeTo, change, TotalOf(selector.usedUnspents), paid);
  }

  lemma ChosenIs(selector: UnspentSelector, from: seq<T.Coin>, total: Amount, fee: Amount, dustFee: Amount,
                 change: Amount, sizeFee: nat)
    requires Chosen(selector, from, total, fee, dustFee, change, sizeFee)
    ensures multiset(selector.usedUnspents) <= multiset(from) && change % DUST_FLOOR == 0 && fee + dustFee >= sizeFee
    ensures TotalOf(selector.usedUnspents) == total + fee + dustFee + change <= TotalOf(from)
  {
  }

  lemma AllFit(m: map<PublicAddress, Amount>)
    requires SumOwed(m) < WORD
    ensures Fitting(m)
  {
    forall a | a in m
      ensures m[a] < WORD
    {
      SumOwedBounds(m, a);
    }
  }

  lemma UsedFits(used: seq<T.Coin>, coins: seq<T.Coin>, e: seq<T.Coin>, anonymity: nat, blockHeight: T.Height, blockTime: nat,
                 confirmedHeight: T.Height)
    requires e == Eligible(coins, blockHeight, blockTime, confirmedHeight)
    requires multiset(used) <= multiset(Usable(e, anonymity))
    ensures multiset(used) <= multiset(coins) && TotalOf(used) <= TotalOf(coins)
  {
    hide TotalOf;
    EligibleWithin(coins, blockHeight, blockTime, confirmedHeight);
    forall o
      ensures multiset(Usable(e, anonymity))[o] <= multiset(e)[o]
    {
      UsableCount(e, anonymity, o);
    }
    TotalWithin(used, coins);
  }

  lemma {:induction false} EligibleWithin(s: seq<T.Coin>, blockHeight: T.Height, blockTime: nat, confirmedHeight: T.Height)
    ensures multiset(Eligible(s, blockHeight, blockTime, confirmedHeight)) <= multiset(s)
    decreases |s|
  {
    if s != [] {
      EligibleWithin(s[1..], blockHeight, blockTime, confirmedHeight);
      assert s == [s[0]] + s[1..];
    }
  }

  lemma PaidBalances(outs: seq<TxOut>, owed: map<PublicAddress, Amount>, combined: map<PublicAddress, Amount>,
                     transfers: seq<Transfer>, changeTo: PublicAddress, change: Amount, usedTotal: nat, paid: nat)
    requires Pays(outs, owed) && combined == Combined(transfers) && usedTotal == SumOwed(combined) + paid + change
    requires owed == if change > 0 then Add(combined, changeTo, change) else combined
    requires change % DUST_FLOOR == 0
    ensures Balances(outs, transfers, changeTo, change, usedTotal, paid)
  {
    hide CleanTo;
    SumOwedAdd(combined, changeTo, change);
    if changeTo !in combined {
      assert Owed(owed, changeTo) == change;
    }
  }
}
