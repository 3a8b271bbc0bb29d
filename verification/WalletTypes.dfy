// Records of the wallet database, balances, and totals over an index.
module WalletTypes {
  import opened Int128

  type Amount = nat
  type Height = nat
  type KeyImage = nat
  type Address = string

  /** The all-zero key image of a view-only wallet. */
  const NO_KEY_IMAGE: KeyImage := 0

  /** api::Output as far as the wallet database uses it. */
  datatype Coin = Coin(amount: Amount, gi: nat, height: Height, unlock: nat, keyImage: KeyImage, address: Address, dust: bool)
  {
    function Pair(): CoinId {
      CoinId(amount, gi)
    }

    function Hag(): HeightAmountGi {
      HeightAmountGi(height, amount, gi)
    }
  }

  datatype CoinId = CoinId(amount: Amount, gi: nat)

  datatype HeightAmountGi = HeightAmountGi(height: Height, amount: Amount, gi: nat)

  datatype Balance = Balance(spendable: Uint128, dust: Uint128, locked: Uint128, nSpendable: int, nDust: int, nLocked: int)
  {
    function Total(): Uint128 {
      Add(Add(spendable, dust), locked)
    }

    function TotalOutputs(): int {
      nSpendable + nDust + nLocked
    }
  }

  const NO_BALANCE := Balance(ZERO, ZERO, ZERO, 0, 0, 0)

  function Apply(x: Uint128, amount: Amount, op: int): Uint128 {
    if op > 0 then Add(x, FromInt(amount)) else if op < 0 then Sub(x, FromInt(amount)) else x
  }

  /** combine_balance: each op is -1, 0 or 1. */
  function CombineBalance(b: Balance, o: Coin, lockedOp: int, spendableOp: int): Balance {
    var l := b.(locked := Apply(b.locked, o.amount, lockedOp), nLocked := b.nLocked + lockedOp);
    if o.dust then l.(dust := Apply(b.dust, o.amount, spendableOp), nDust := b.nDust + spendableOp)
    else l.(spendable := Apply(b.spendable, o.amount, spendableOp), nSpendable := b.nSpendable + spendableOp)
  }

  // ----- totals -----

  datatype What = PlainAmount | DustAmount | AnyAmount | PlainCount | DustCount | AnyCount

  /** What is added up, and over whose coins; the empty address is the whole wallet. */
  datatype Meter = Meter(address: Address, what: What)

  function Matches(a: Address, o: Coin): bool {
    a == "" || o.address == a
  }

  function Reads(m: Meter, o: Coin): int {
    if !Matches(m.address, o) then 0 else
    match m.what
    case PlainAmount => if o.dust then 0 else o.amount
    case DustAmount => if o.dust then o.amount else 0
    case AnyAmount => o.amount
    case PlainCount => if o.dust then 0 else 1
    case DustCount => if o.dust then 1 else 0
    case AnyCount => 1
  }

  ghost function Total<K(!new)>(m: map<K, Coin>, mt: Meter): int {
    if m == map[] then 0 else
    var k :| k in m;
    Reads(mt, m[k]) + Total(m - {k}, mt)
  }

  lemma {:induction false} TotalRemove<K(!new)>(m: map<K, Coin>, k: K, mt: Meter)
    requires k in m
    ensures Total(m, mt) == Reads(mt, m[k]) + Total(m - {k}, mt)
    decreases |m|
  {
    var j :| j in m && Total(m, mt) == Reads(mt, m[j]) + Total(m - {j}, mt);
    if j != k {
      TotalRemove(m - {j}, k, mt);
      TotalRemove(m - {k}, j, mt);
      assert m - {j} - {k} == m - {k} - {j};
    }
  }

  lemma TotalAdd<K(!new)>(m: map<K, Coin>, k: K, o: Coin, mt: Meter)
    requires k !in m
    ensures Total(m[k := o], mt) == Total(m, mt) + Reads(mt, o)
  {
    TotalRemove(m[k := o], k, mt);
    assert m[k := o] - {k} == m;
  }

  function CountOf(w: What): What {
    match w
    case PlainAmount => PlainCount
    case DustAmount => DustCount
    case AnyAmount => AnyCount
    case _ => w
  }

  /** Nothing counted, nothing added up. */
  lemma {:induction false} TotalCounted<K(!new)>(m: map<K, Coin>, a: Address, w: What)
    ensures Total(m, Meter(a, CountOf(w))) >= 0
    ensures Total(m, Meter(a, CountOf(w))) == 0 ==> Total(m, Meter(a, w)) == 0
    decreases |m|
  {
    if m != map[] {
      var k :| k in m;
      TotalRemove(m, k, Meter(a, w));
      TotalRemove(m, k, Meter(a, CountOf(w)));
      TotalCounted(m - {k}, a, w);
    }
  }

  // ----- balances of two indexes -----

  ghost function Expected<K(!new), L(!new)>(unspent: map<K, Coin>, locked: map<L, Coin>, a: Address): Balance {
    Balance(FromInt(Total(unspent, Meter(a, PlainAmount))),
            FromInt(Total(unspent, Meter(a, DustAmount))),
            FromInt(Total(locked, Meter(a, AnyAmount))),
            Total(unspent, Meter(a, PlainCount)),
            Total(unspent, Meter(a, DustCount)),
            Total(locked, Meter(a, AnyCount)))
  }

  lemma ExpectedUnspentAdd<K(!new), L(!new)>(unspent: map<K, Coin>, locked: map<L, Coin>, a: Address, k: K, o: Coin)
    requires k !in unspent
    ensures Expected(unspent[k := o], locked, a)
            == if Matches(a, o) then CombineBalance(Expected(unspent, locked, a), o, 0, 1) else Expected(unspent, locked, a)
  {
    forall w: What {
      TotalAdd(unspent, k, o, Meter(a, w));
    }
    AddInts(Total(unspent, Meter(a, PlainAmount)), o.amount);
    AddInts(Total(unspent, Meter(a, DustAmount)), o.amount);
  }

  lemma ExpectedUnspentRemove<K(!new), L(!new)>(unspent: map<K, Coin>, locked: map<L, Coin>, a: Address, k: K)
    requires k in unspent
    ensures var o := unspent[k];
            Expected(unspent - {k}, locked, a)
            == if Matches(a, o) then CombineBalance(Expected(unspent, locked, a), o, 0, -1) else Expected(unspent, locked, a)
  {
    var o := unspent[k];
    forall w: What {
      TotalRemove(unspent, k, Meter(a, w));
    }
    SubInts(Total(unspent, Meter(a, PlainAmount)), o.amount);
    SubInts(Total(unspent, Meter(a, DustAmount)), o.amount);
  }

  lemma ExpectedLockedAdd<K(!new), L(!new)>(unspent: map<K, Coin>, locked: map<L, Coin>, a: Address, k: L, o: Coin)
    requires k !in locked
    ensures Expected(unspent, locked[k := o], a)
            == if Matches(a, o) then CombineBalance(Expected(unspent, locked, a), o, 1, 0) else Expected(unspent, locked, a)
  {
    forall w: What {
      TotalAdd(locked, k, o, Meter(a, w));
    }
    AddInts(Total(locked, Meter(a, AnyAmount)), o.amount);
  }

  lemma ExpectedLockedRemove<K(!new), L(!new)>(unspent: map<K, Coin>, locked: map<L, Coin>, a: Address, k: L)
    requires k in locked
    ensures var o := locked[k];
            Expected(unspent, locked - {k}, a)
            == if Matches(a, o) then CombineBalance(Expected(unspent, locked, a), o, -1, 0) else Expected(unspent, locked, a)
  {
    var o := locked[k];
    forall w: What {
      TotalRemove(locked, k, Meter(a, w));
    }
    SubInts(Total(locked, Meter(a, AnyAmount)), o.amount);
  }

  /** A balance without outputs is the default one, so deleting its record loses nothing. */
  lemma ExpectedEmpty<K(!new), L(!new)>(unspent: map<K, Coin>, locked: map<L, Coin>, a: Address)
    requires Expected(unspent, locked, a).TotalOutputs() == 0
    ensures Expected(unspent, locked, a) == NO_BALANCE
  {
    assert FromInt(0) == ZERO;
    hide Total, FromInt;
    TotalCounted(unspent, a, PlainAmount);
    TotalCounted(unspent, a, DustAmount);
    TotalCounted(locked, a, AnyAmount);
  }
}
