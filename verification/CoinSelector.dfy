// UnspentSelector: which outputs a transaction spends, and what they cost.
module CoinSelector {
  import opened Basics
  import opened Amounts
  import opened WalletTypes
  import opened CoinStore
  import R = Redo

  const FAKE_LARGE := 1000000000000000000
  const OPTIMIZATIONS_PER_TX := 50
  const OPTIMIZATIONS_PER_TX_AGGRESSIVE := 200
  const OPTIMIZATIONS_MINIMAL := 9
  const MEDIAN_PERCENT := 12
  const MEDIAN_PERCENT_AGGRESSIVE := 30
  const STACK_OPTIMIZATION_THRESHOLD := 20
  const TWO_THRESHOLD := 10
  const MINIMUM_FEE: Amount := 1000000

  datatype Level = Minimal | Normal | Aggressive

  datatype Verdict = Selected | NotEnoughFunds | DoesNotFitInBlock

  predicate IsEligible(o: Coin, blockHeight: Height, blockTime: nat, confirmedHeight: Height) {
    o.height < confirmedHeight && R.SpendUnlocked(o.unlock, blockHeight, blockTime)
  }

  /** The outputs a selection may consider, last first. */
  function Eligible(s: seq<Coin>, blockHeight: Height, blockTime: nat, confirmedHeight: Height): (r: seq<Coin>)
    ensures forall o :: o in r ==> o in s
  {
    if s == [] then [] else
    Eligible(s[1..], blockHeight, blockTime, confirmedHeight)
    + if IsEligible(s[0], blockHeight, blockTime, confirmedHeight) then [s[0]] else []
  }

  /** Every output carries the dust flag its amount has. */
  ghost predicate Flagged(s: seq<Coin>) {
    forall o :: o in s ==> o.dust == IsDust(o.amount)
  }

  // ----- what optimize_amounts looks for in one row of stacks -----

  /** Two stacks whose digits add up to a round sum, one of them deep. */
  predicate Fits(row: Row, am: nat, a: nat, b: nat) {
    a in row && b in row && (a + b + am) % 10 == 0 && (|row[a]| >= TWO_THRESHOLD || |row[b]| >= TWO_THRESHOLD)
  }

  function Depth(row: Row, a: nat, b: nat): nat {
    (if a in row then |row[a]| else 0) + (if b in row then |row[b]| else 0)
  }

  ghost predicate DeepestPair(row: Row, am: nat, a: nat, b: nat) {
    Fits(row, am, a, b) && forall x: nat, y: nat :: Fits(row, am, x, y) ==> Depth(row, x, y) <= Depth(row, a, b)
  }

  ghost predicate DeepestAbove(row: Row, lead: nat, l: nat) {
    l in row && l > lead && forall x: nat :: x in row && x > lead ==> |row[x]| <= |row[l]|
  }

  method FindPair(row: Row, am: nat) returns (found: bool, first: nat, second: nat)
    requires forall l :: l in row ==> l <= 9
    ensures found ==> DeepestPair(row, am, first, second)
    ensures !found ==> !exists a: nat, b: nat :: Fits(row, am, a, b)
  {
    var weight: nat := 0;
    first, second := 0, 0;
    for a := 0 to 10
      invariant weight != 0 ==> Fits(row, am, first, second) && weight == Depth(row, first, second)
      invariant forall x: nat, y: nat :: x < a && Fits(row, am, x, y) ==> 0 < Depth(row, x, y) <= weight
    {
      for b := 0 to 10
        invariant weight != 0 ==> Fits(row, am, first, second) && weight == Depth(row, first, second)
        invariant forall x: nat, y: nat :: x < a && Fits(row, am, x, y) ==> 0 < Depth(row, x, y) <= weight
        invariant forall y: nat :: y < b && Fits(row, am, a, y) ==> 0 < Depth(row, a, y) <= weight
      {
        if Fits(row, am, a, b) && Depth(row, a, b) > weight {
          weight, first, second := Depth(row, a, b), a, b;
        }
      }
    }
    found := weight != 0;
  }

  /** The exact digit if there is one, or else the deepest stack above it. */
  method FindSingle(row: Row, am: nat) returns (single: nat)
    requires 1 <= am <= 9
    requires forall l :: l in row ==> 1 <= l <= 9 && row[l] != []
    ensures single != 0 ==> single in row && single >= 10 - am
    ensures single == 0 ==> forall l: nat :: l in row ==> l < 10 - am
    ensures 10 - am in row ==> single == 10 - am
    ensures 10 - am !in row && single != 0 ==> DeepestAbove(row, 10 - am, single)
  {
    single := 0;
    var weight := 0;
    for l := 0 to 10
      invariant single == 0 <==> weight == 0
      invariant single != 0 ==> single in row && single > 10 - am && weight == |row[single]|
      invariant forall x :: x in row && x < l ==> x != 10 - am
      invariant forall x :: x in row && x < l && x > 10 - am ==> |row[x]| <= weight
    {
      if l in row {
        if (l + am) % 10 == 0 {
          return l;
        }
        if l > 10 - am && |row[l]| > weight {
          single, weight := l, |row[l]|;
        }
      }
    }
  }

  /** 64-bit arithmetic: the digit, 1 to 10, that is missing at a place, from ten. */
  function Missing(total: nat, used: nat, digitAmount: nat): (am: nat)
    requires digitAmount >= 1
    ensures 1 <= am <= 10
  {
    10 - (FAKE_LARGE + total + digitAmount - 1 - used) % WORD / digitAmount % 10
  }

  ghost predicate PickedPair(c: Coins, c': Coins, digit: nat, a: nat, b: nat) {
    && StackOf(c.have, digit, a) != [] && StackOf(PickHave(c, digit, a).have, digit, b) != []
    && c' == PickHave(PickHave(c, digit, a), digit, b)
  }

  ghost predicate PickedOne(c: Coins, c': Coins, digit: nat, l: nat) {
    StackOf(c.have, digit, l) != [] && c' == PickHave(c, digit, l)
  }

  /** What optimize_amounts does at one place. */
  ghost predicate Optimized(c: Coins, c': Coins, digit: nat, am: nat)
    requires digit in c.have
  {
    var row := c.have[digit];
    if exists a: nat, b: nat :: Fits(row, am, a, b) then
      exists a: nat, b: nat :: DeepestPair(row, am, a, b) && PickedPair(c, c', digit, a, b)
    else if am == 10 then c' == c
    else if am < 10 && 10 - am in row then PickedOne(c, c', digit, 10 - am)
    else if am < 10 && exists l: nat :: l in row && l > 10 - am then
      exists l: nat :: DeepestAbove(row, 10 - am, l) && PickedOne(c, c', digit, l)
    else c' == c
  }

  /** More picked coins, none of the new ones dust. */
  ghost predicate Adds(s: seq<Coin>, t: seq<Coin>) {
    s <= t && forall i :: |s| <= i < |t| ==> !IsDust(t[i].amount)
  }

  // ----- the selector -----

  class UnspentSelector {
    var unspents: seq<Coin>
    var usedUnspents: seq<Coin>
    var raAmounts: seq<Amount>
    var haveCoins: map<nat, Row>
    var dustCoins: map<Amount, seq<Coin>>
    var optimizationUnspents: seq<Coin>
    var usedTotal: nat
    var inputsCount: nat

    function Contents(): Coins
      reads this
    {
      Coins(haveCoins, dustCoins, optimizationUnspents, usedTotal, inputsCount)
    }

    constructor (outputs: seq<Coin>)
      ensures unspents == outputs && usedUnspents == [] && raAmounts == [] && Contents() == Coins(map[], map[], [], 0, 0)
    {
      unspents, usedUnspents, raAmounts := outputs, [], [];
      haveCoins, dustCoins, optimizationUnspents, usedTotal, inputsCount := map[], map[], [], 0, 0;
    }

    method Reset(outputs: seq<Coin>)
      modifies this
      ensures unspents == outputs && usedUnspents == [] && raAmounts == [] && Contents() == Coins(map[], map[], [], 0, 0)
    {
      unspents, usedUnspents, raAmounts := outputs, [], [];
      haveCoins, dustCoins, optimizationUnspents, usedTotal, inputsCount := map[], map[], [], 0, 0;
    }

    // ----- moving one coin -----

    method PutInHave(o: Coin)
      modifies this`haveCoins
      ensures haveCoins == PutHave(old(haveCoins), o)
    {
      var digit, lead := SplitLead(o.amount);
      var row := if digit in haveCoins then haveCoins[digit] else map[];
      var uns := if lead in row then row[lead] else [];
      haveCoins := haveCoins[digit := row[lead := uns + [o]]];
    }

    method PutInDust(o: Coin)
      modifies this`dustCoins
      ensures dustCoins == PutDust(old(dustCoins), o)
    {
      var uns := if o.amount in dustCoins then dustCoins[o.amount] else [];
      dustCoins := dustCoins[o.amount := uns + [o]];
    }

    method UseCoin(o: Coin)
      modifies this`optimizationUnspents, this`usedTotal, this`inputsCount
      ensures Contents() == Pick(old(Contents()), o)
    {
      optimizationUnspents := optimizationUnspents + [o];
      usedTotal := usedTotal + o.amount;
      inputsCount := inputsCount + 1;
    }

    method TakeHave(digit: nat, lead: nat, ghost e: seq<Coin>)
      requires Holds(Contents(), e) && StackOf(haveCoins, digit, lead) != []
      modifies this`haveCoins, this`optimizationUnspents, this`usedTotal, this`inputsCount
      ensures Contents() == PickHave(old(Contents()), digit, lead) && Holds(Contents(), e)
      ensures !IsDust(optimizationUnspents[|optimizationUnspents| - 1].amount)
    {
      PickHaveKeeps(Contents(), digit, lead, e);
      var uns := haveCoins[digit][lead];
      UseCoin(uns[|uns| - 1]);
      var row := if |uns| == 1 then haveCoins[digit] - {lead} else haveCoins[digit][lead := uns[..|uns| - 1]];
      haveCoins := if row == map[] then haveCoins - {digit} else haveCoins[digit := row];
    }

    method TakeDust(a: Amount, ghost e: seq<Coin>)
      requires Holds(Contents(), e) && DustOf(dustCoins, a) != []
      modifies this`dustCoins, this`optimizationUnspents, this`usedTotal, this`inputsCount
      ensures Contents() == PickDust(old(Contents()), a) && Holds(Contents(), e)
    {
      PickDustKeeps(Contents(), a, e);
      var uns := dustCoins[a];
      UseCoin(uns[|uns| - 1]);
      dustCoins := if |uns| == 1 then dustCoins - {a} else dustCoins[a := uns[..|uns| - 1]];
    }

    // ----- create_have_coins and unoptimize_amounts -----

    method CreateHaveCoins(blockHeight: Height, blockTime: nat, confirmedHeight: Height) returns (maxDigit: nat)
      requires Flagged(unspents)
      requires Contents() == Coins(map[], map[], [], 0, 0)
      modifies this`haveCoins, this`dustCoins
      ensures Holds(Contents(), Eligible(unspents, blockHeight, blockTime, confirmedHeight))
      ensures optimizationUnspents == []
      ensures forall d :: d in haveCoins ==> d <= maxDigit
    {
      maxDigit := 0;
      var n := |unspents|;
      assert unspents[n..] == [];
      while n > 0
        invariant n <= |unspents|
        invariant Holds(Contents(), Eligible(unspents[n..], blockHeight, blockTime, confirmedHeight))
        invariant optimizationUnspents == []
        invariant forall d :: d in haveCoins ==> d <= maxDigit
      {
        n := n - 1;
        var un := unspents[n];
        ghost var c := Contents();
        assert unspents[n..][0] == un && unspents[n..][1..] == unspents[n + 1..];
        if un.height >= confirmedHeight || !R.SpendUnlocked(un.unlock, blockHeight, blockTime) {
        } else {
          if !IsDust(un.amount) {
            PutInHave(un);
            maxDigit := Max(maxDigit, DigitOf(un.amount));
          } else {
            PutInDust(un);
          }
          PutBackHolds(c, un, Eligible(unspents[n + 1..], blockHeight, blockTime, confirmedHeight));
        }
      }
      assert unspents[0..] == unspents;
    }

    method UnoptimizeAmounts(ghost e: seq<Coin>)
      requires Holds(Contents(), e) && Flagged(e)
      modifies this`haveCoins, this`dustCoins, this`optimizationUnspents, this`usedTotal, this`inputsCount
      ensures Holds(Contents(), e) && optimizationUnspents == [] && usedTotal == 0 && inputsCount == 0
    {
      hide Holds, PutHave, PutDust, IsDust, Flagged;
      var n := 0;
      assert optimizationUnspents[0..] == optimizationUnspents;
      while n < |optimizationUnspents|
        invariant n <= |optimizationUnspents| && optimizationUnspents == old(optimizationUnspents)
        invariant Holds(Contents().(picked := optimizationUnspents[n..]), e)
      {
        var un := optimizationUnspents[n];
        ghost var c := Contents().(picked := optimizationUnspents[n..]);
        UnpickHolds(c, e);
        usedTotal := usedTotal - un.amount;
        inputsCount := inputsCount - 1;
        if !un.dust {
          PutInHave(un);
        } else {
          PutInDust(un);
        }
        n := n + 1;
        assert c.picked[1..] == optimizationUnspents[n..];
      }
      assert optimizationUnspents[n..] == [];
      optimizationUnspents := [];
      NothingPicked(Contents(), e);
    }

    // ----- optimize_amounts -----

    method TakePair(digit: nat, first: nat, second: nat, am: nat, ghost e: seq<Coin>)
      requires Holds(Contents(), e) && digit in haveCoins && Fits(haveCoins[digit], am, first, second)
      modifies this`haveCoins, this`optimizationUnspents, this`usedTotal, this`inputsCount
      ensures Holds(Contents(), e) && PickedPair(old(Contents()), Contents(), digit, first, second)
      ensures Adds(old(optimizationUnspents), optimizationUnspents) && usedTotal >= old(usedTotal)
    {
      hide Holds, IsDust, PopHave, Fits;
      RowDigits(Contents(), digit, e);
      SecondStays(Contents(), digit, first, second, am);
      TakeHave(digit, first, e);
      TakeHave(digit, second, e);
    }

    method TakeSingle(digit: nat, lead: nat, ghost e: seq<Coin>)
      requires Holds(Contents(), e) && digit in haveCoins && lead in haveCoins[digit]
      modifies this`haveCoins, this`optimizationUnspents, this`usedTotal, this`inputsCount
      ensures Holds(Contents(), e) && PickedOne(old(Contents()), Contents(), digit, lead)
      ensures Adds(old(optimizationUnspents), optimizationUnspents) && usedTotal >= old(usedTotal)
    {
      hide Holds, IsDust, PopHave;
      RowDigits(Contents(), digit, e);
      TakeHave(digit, lead, e);
    }

    method OptimizeDigit(digit: nat, am: nat, ghost e: seq<Coin>)
      requires Holds(Contents(), e) && digit in haveCoins && 1 <= am <= 10
      modifies this`haveCoins, this`optimizationUnspents, this`usedTotal, this`inputsCount
      ensures Holds(Contents(), e) && Optimized(old(Contents()), Contents(), digit, am)
      ensures Adds(old(optimizationUnspents), optimizationUnspents) && usedTotal >= old(usedTotal)
    {
      hide Holds, IsDust, Fits, PickedPair, PickedOne;
      RowDigits(Contents(), digit, e);
      var row := haveCoins[digit];
      var found, first, second := FindPair(row, am);
      if found {
        TakePair(digit, first, second, am, e);
      } else if am != 10 {
        var single := FindSingle(row, am);
        if single != 0 {
          TakeSingle(digit, single, e);
        }
      }
    }

    method OptimizeAmounts(maxDigit: nat, total: nat, ghost e: seq<Coin>)
      requires Holds(Contents(), e)
      modifies this`haveCoins, this`optimizationUnspents, this`usedTotal, this`inputsCount
      ensures Holds(Contents(), e)
      ensures Adds(old(optimizationUnspents), optimizationUnspents) && usedTotal >= old(usedTotal)
    {
      hide Holds, IsDust, Optimized;
      var digitAmount := 1;
      for digit := 0 to maxDigit + 1
        invariant Holds(Contents(), e) && digitAmount == Pow10(digit)
        invariant Adds(old(optimizationUnspents), optimizationUnspents) && usedTotal >= old(usedTotal)
      {
        if usedTotal >= total && digitAmount > usedTotal {
          break;
        }
        if digit in haveCoins {
          OptimizeDigit(digit, Missing(total, usedTotal, digitAmount), e);
        }
        digitAmount := digitAmount * 10;
      }
    }

    // ----- the inner select_optimal_outputs -----

    method UseDust(total: nat, count: nat, ghost e: seq<Coin>) returns (left: nat)
      requires Holds(Contents(), e)
      modifies this`dustCoins, this`optimizationUnspents, this`usedTotal, this`inputsCount
      ensures Holds(Contents(), e) && left <= count
      ensures usedTotal >= total || dustCoins == map[] || left == 0
      ensures |optimizationUnspents| <= |old(optimizationUnspents)| + 1 + count - left
    {
      hide Holds;
      left := count;
      if usedTotal < total {
        var a := Smallest(dustCoins.Keys, total - usedTotal);
        if a.Some? {
          DustThere(Contents(), a.value, e);
          TakeDust(a.value, e);
        }
      }
      while usedTotal < total && dustCoins != map[] && left >= 1
        invariant Holds(Contents(), e) && left <= count
        invariant |optimizationUnspents| <= |old(optimizationUnspents)| + 1 + count - left
        decreases left
      {
        var a := Largest(dustCoins.Keys);
        DustThere(Contents(), a, e);
        TakeDust(a, e);
        left := left - 1;
      }
    }

    /** The deepest stack of more than the threshold. */
    method DeepestStack(ghost e: seq<Coin>) returns (found: bool, digit: nat, lead: nat)
      requires Holds(Contents(), e)
      ensures found ==> |StackOf(haveCoins, digit, lead)| > STACK_OPTIMIZATION_THRESHOLD
      ensures forall d: nat, l: nat :: |StackOf(haveCoins, d, l)| <=
                if found then |StackOf(haveCoins, digit, lead)| else STACK_OPTIMIZATION_THRESHOLD
    {
      hide Holds;
      found, digit, lead := false, 0, 0;
      var weight := STACK_OPTIMIZATION_THRESHOLD;
      var top := if haveCoins == map[] then 0 else Largest(haveCoins.Keys) + 1;
      for d := 0 to top
        invariant weight == if found then |StackOf(haveCoins, digit, lead)| else STACK_OPTIMIZATION_THRESHOLD
        invariant weight >= STACK_OPTIMIZATION_THRESHOLD && (found ==> weight > STACK_OPTIMIZATION_THRESHOLD)
        invariant forall x: nat, l: nat :: x < d ==> |StackOf(haveCoins, x, l)| <= weight
      {
        if d in haveCoins {
          RowDigits(Contents(), d, e);
          for l := 0 to 10
            invariant weight == if found then |StackOf(haveCoins, digit, lead)| else STACK_OPTIMIZATION_THRESHOLD
            invariant weight >= STACK_OPTIMIZATION_THRESHOLD && (found ==> weight > STACK_OPTIMIZATION_THRESHOLD)
            invariant forall x: nat, l: nat :: x < d ==> |StackOf(haveCoins, x, l)| <= weight
            invariant forall x: nat :: x < l ==> |StackOf(haveCoins, d, x)| <= weight
          {
            if l in haveCoins[d] && |haveCoins[d][l]| > weight {
              found, digit, lead, weight := true, d, l, |haveCoins[d][l]|;
            }
          }
        }
      }
    }

    /** Ten coins off one stack, which is deep enough not to become empty. */
    method TakeTen(digit: nat, lead: nat, ghost e: seq<Coin>)
      requires Holds(Contents(), e) && |StackOf(haveCoins, digit, lead)| > STACK_OPTIMIZATION_THRESHOLD
      modifies this`haveCoins, this`optimizationUnspents, this`usedTotal, this`inputsCount
      ensures Holds(Contents(), e) && |optimizationUnspents| == |old(optimizationUnspents)| + 10
      ensures Adds(old(optimizationUnspents), optimizationUnspents) && usedTotal >= old(usedTotal)
      ensures NoneEmptied(old(haveCoins), haveCoins)
    {
      hide Holds, IsDust, PopHave;
      ghost var deep := |StackOf(haveCoins, digit, lead)|;
      for i := 0 to 10
        invariant Holds(Contents(), e) && |StackOf(haveCoins, digit, lead)| == deep - i
        invariant |optimizationUnspents| == |old(optimizationUnspents)| + i
        invariant Adds(old(optimizationUnspents), optimizationUnspents) && usedTotal >= old(usedTotal)
        invariant NoneEmptied(old(haveCoins), haveCoins)
      {
        PopDeep(old(haveCoins), haveCoins, digit, lead);
        PopHaveStacks(haveCoins, digit, lead, digit, lead);
        TakeHave(digit, lead, e);
      }
    }

    /** Tens of coins while the count allows and some stack is deep enough. */
    method UseStacks(count: nat, ghost e: seq<Coin>)
      requires Holds(Contents(), e)
      modifies this`haveCoins, this`optimizationUnspents, this`usedTotal, this`inputsCount
      ensures Holds(Contents(), e)
      ensures Adds(old(optimizationUnspents), optimizationUnspents) && usedTotal >= old(usedTotal)
      ensures NoneEmptied(old(haveCoins), haveCoins)
      ensures var taken := |optimizationUnspents| - |old(optimizationUnspents)|;
              && taken % 10 == 0 && taken <= count
              && (count - taken < 10 || forall d: nat, l: nat :: |StackOf(haveCoins, d, l)| <= STACK_OPTIMIZATION_THRESHOLD)
    {
      hide Holds, IsDust, PopHave, NoneEmptied;
      var left := count;
      NoneEmptiedSame(haveCoins);
      while left >= 10
        invariant Holds(Contents(), e) && 0 <= left <= count
        invariant |optimizationUnspents| - |old(optimizationUnspents)| == count - left && (count - left) % 10 == 0
        invariant Adds(old(optimizationUnspents), optimizationUnspents) && usedTotal >= old(usedTotal)
        invariant NoneEmptied(old(haveCoins), haveCoins)
      {
        var found, digit, lead := DeepestStack(e);
        if !found {
          return;
        }
        ghost var before := haveCoins;
        TakeTen(digit, lead, e);
        NoneEmptiedThen(old(haveCoins), before, haveCoins);
        left := left - 10;
      }
    }

    /** The first coin, by digit and leading digit, that alone is enough. */
    method FindLargeCoin(maxDigit: nat, total: nat, ghost e: seq<Coin>)
      requires Holds(Contents(), e) && usedTotal < total
      modifies this`haveCoins, this`optimizationUnspents, this`usedTotal, this`inputsCount
      ensures Holds(Contents(), e)
      ensures Adds(old(optimizationUnspents), optimizationUnspents)
      ensures if AnyEnough(old(haveCoins), maxDigit, total - old(usedTotal)) then
                |optimizationUnspents| == |old(optimizationUnspents)| + 1 && usedTotal >= total
              else Contents() == old(Contents())
    {
      hide Holds, IsDust, PopHave;
      ghost var needed := total - usedTotal;
      var digitAmount := 1;
      for digit := 0 to maxDigit + 1
        invariant Contents() == old(Contents()) && digitAmount == Pow10(digit)
        invariant forall d: nat, l: nat :: d < digit ==> !Enough(haveCoins, d, l, needed)
      {
        if digit in haveCoins {
          RowDigits(Contents(), digit, e);
          for lead := 1 to 10
            invariant Contents() == old(Contents())
            invariant forall d: nat, l: nat :: d < digit ==> !Enough(haveCoins, d, l, needed)
            invariant forall l: nat :: l < lead ==> !Enough(haveCoins, digit, l, needed)
          {
            if lead in haveCoins[digit] && lead * digitAmount >= total - usedTotal {
              assert Enough(haveCoins, digit, lead, needed);
              EnoughIs(Contents(), digit, lead, e);
              TakeHave(digit, lead, e);
              return;
            }
          }
        }
        digitAmount := digitAmount * 10;
      }
    }

    /** The largest usable coin: the last of the topmost stack, unless the
        largest dust is as large. */
    method TakeTop(anonymity: nat, ghost e: seq<Coin>)
      requires Holds(Contents(), e) && (haveCoins != map[] || (anonymity == 0 && dustCoins != map[]))
      modifies this`haveCoins, this`dustCoins, this`optimizationUnspents, this`usedTotal, this`inputsCount
      ensures Holds(Contents(), e) && |optimizationUnspents| == |old(optimizationUnspents)| + 1
      ensures anonymity != 0 ==> Adds(old(optimizationUnspents), optimizationUnspents)
      ensures LargestUsable(old(Contents()), anonymity, optimizationUnspents[|optimizationUnspents| - 1].amount)
    {
      hide Holds, IsDust, PopHave, PopDust, LargestHave;
      var haAmount, duAmount := 0, 0;
      var digit, lead := 0, 0;
      if haveCoins != map[] {
        digit, lead := TopStack(e);
        haAmount := haveCoins[digit][lead][|haveCoins[digit][lead]| - 1].amount;
        TopLargest(Contents(), digit, lead, e);
      } else {
        NoHave(Contents());
      }
      if anonymity == 0 && dustCoins != map[] {
        var a := Largest(dustCoins.Keys);
        DustThere(Contents(), a, e);
        duAmount := dustCoins[a][|dustCoins[a]| - 1].amount;
      }
      if haAmount > duAmount {
        LargestMore(Contents(), haAmount, haAmount);
        TakeHave(digit, lead, e);
      } else {
        var a := Largest(dustCoins.Keys);
        DustThere(Contents(), a, e);
        LargestMore(Contents(), haAmount, duAmount);
        TakeDust(a, e);
      }
    }

    method TopStack(ghost e: seq<Coin>) returns (digit: nat, lead: nat)
      requires Holds(Contents(), e) && haveCoins != map[]
      ensures StackOf(haveCoins, digit, lead) != [] && haveCoins[digit][lead][|haveCoins[digit][lead]| - 1].amount > 0
      ensures forall d: nat, l: nat :: StackOf(haveCoins, d, l) != [] ==> d < digit || (d == digit && l <= lead)
    {
      hide Holds;
      digit := Largest(haveCoins.Keys);
      RowDigits(Contents(), digit, e);
      lead := Largest(haveCoins[digit].Keys);
      LastPlain(Contents(), digit, lead, e);
    }

    /** Coins from the largest down, until there is enough or nothing left. */
    method FillUp(total: nat, anonymity: nat, ghost e: seq<Coin>) returns (ok: bool)
      requires Holds(Contents(), e) && optimizationUnspents == []
      modifies this`haveCoins, this`dustCoins, this`optimizationUnspents, this`usedTotal, this`inputsCount
      ensures Holds(Contents(), e) && (anonymity != 0 ==> NoDustPicked(optimizationUnspents))
      ensures ok ==> usedTotal >= total
      ensures !ok ==> usedTotal < total && usedTotal == TotalOf(Usable(e, anonymity))
    {
      hide Holds, IsDust;
      while usedTotal < total
        invariant Holds(Contents(), e) && (anonymity != 0 ==> NoDustPicked(optimizationUnspents))
        decreases |e| - |optimizationUnspents|
      {
        PickedUsable(Contents(), e, anonymity);
        if haveCoins == map[] && (anonymity != 0 || dustCoins == map[]) {
          AllPicked(Contents(), e, anonymity);
          return false;
        }
        TakeTop(anonymity, e);
        PickedUsable(Contents(), e, anonymity);
      }
      return true;
    }

    /** True exactly when the usable coins are enough. */
    method SelectCoins(maxDigit: nat, total: nat, anonymity: nat, count: nat, ghost e: seq<Coin>) returns (ok: bool)
      requires Holds(Contents(), e) && Flagged(e) && optimizationUnspents == []
      modifies this`haveCoins, this`dustCoins, this`optimizationUnspents, this`usedTotal, this`inputsCount
      ensures Holds(Contents(), e) && (anonymity != 0 ==> NoDustPicked(optimizationUnspents))
      ensures ok <==> TotalOf(Usable(e, anonymity)) >= total
      ensures ok ==> total <= usedTotal <= TotalOf(Usable(e, anonymity))
    {
      hide Holds, IsDust, Flagged;
      var left := count;
      if anonymity == 0 {
        left := UseDust(total, count, e);
      }
      UseStacks(left, e);
      OptimizeAmounts(maxDigit, total, e);
      if usedTotal < total {
        FindLargeCoin(maxDigit, total, e);
      }
      if usedTotal < total {
        UnoptimizeAmounts(e);
        var filled := FillUp(total, anonymity, e);
        if !filled {
          return false;
        }
        OptimizeAmounts(maxDigit, total, e);
      }
      PickedUsable(Contents(), e, anonymity);
      return true;
    }

    // ----- the outer select_optimal_outputs -----

    method CombineOptimizedUnspents()
      modifies this`optimizationUnspents, this`usedUnspents, this`raAmounts
      ensures usedUnspents == old(usedUnspents) + old(optimizationUnspents) && optimizationUnspents == []
      ensures raAmounts == old(raAmounts) + AmountsOf(old(optimizationUnspents))
    {
      for n := 0 to |optimizationUnspents|
        invariant optimizationUnspents == old(optimizationUnspents) && usedUnspents == old(usedUnspents)
        invariant raAmounts == old(raAmounts) + AmountsOf(optimizationUnspents[..n])
      {
        assert optimizationUnspents[..n + 1][..n] == optimizationUnspents[..n];
        raAmounts := raAmounts + [optimizationUnspents[n].amount];
      }
      assert optimizationUnspents[..|optimizationUnspents|] == optimizationUnspents;
      usedUnspents := usedUnspents + optimizationUnspents;
      optimizationUnspents := [];
    }

    method Finish(total: Amount, fee: Amount, changeDustFee: Amount, ghost sizeFee: nat, ghost anonymity: nat, ghost e: seq<Coin>)
      returns (change: Amount)
      requires Holds(Contents(), e) && (anonymity != 0 ==> NoDustPicked(optimizationUnspents))
      requires usedUnspents == [] && raAmounts == [] && usedTotal >= total + fee
      requires changeDustFee == (usedTotal - total - fee) % DUST_FLOOR && fee + changeDustFee >= sizeFee
      modifies this`optimizationUnspents, this`usedUnspents, this`raAmounts
      ensures GoodSelection(usedUnspents, raAmounts, usedTotal, inputsCount, Usable(e, anonymity), total, fee, changeDustFee, change, sizeFee)
    {
      hide Tidy, HeldCount, Usable, IsDust, AmountsOf, TotalOf;
      PickedUsable(Contents(), e, anonymity);
      ghost var picked := optimizationUnspents;
      change := usedTotal - total - fee - changeDustFee;
      Rounded(usedTotal - total - fee);
      CombineOptimizedUnspents();
      assert usedUnspents == picked && raAmounts == AmountsOf(picked);
    }

    /** The loop: fewer optimizations while the transaction is too long, a
        higher fee while it is too cheap. */
    method TrySelections(maxDigit: nat, median: nat, optimizationMedian: nat, anonymity: nat, total: Amount, outputs: nat,
                         feePerByte: Amount, optimizationCount: nat, ghost e: seq<Coin>)
      returns (verdict: Verdict, change: Amount, fee: Amount, changeDustFee: Amount)
      requires Holds(Contents(), e) && Flagged(e) && optimizationUnspents == [] && usedUnspents == [] && raAmounts == []
      modifies this`haveCoins, this`dustCoins, this`optimizationUnspents, this`usedTotal, this`inputsCount
      modifies this`usedUnspents, this`raAmounts
      ensures FeeFits(fee, |e|, outputs, anonymity, feePerByte)
      ensures verdict == NotEnoughFunds <==> TotalOf(Usable(e, anonymity)) < total + fee
      ensures verdict == DoesNotFitInBlock ==> TxSize(inputsCount, outputs, anonymity) > median
      ensures verdict == Selected ==>
                && GoodSelection(usedUnspents, raAmounts, usedTotal, inputsCount, Usable(e, anonymity), total, fee, changeDustFee,
                                 change, SizeFee(inputsCount, outputs, anonymity, feePerByte))
                && TxSize(inputsCount, outputs, anonymity) <= median
    {
      assert FeeFits(MINIMUM_FEE, |e|, outputs, anonymity, feePerByte);
      hide Holds, IsDust, Flagged, FeeFits, Usable, TxSize, SizeFee, NextFee, TotalOf, GoodSelection, NoDustPicked;
      ghost var funds := TotalOf(Usable(e, anonymity));
      fee, change, changeDustFee := MINIMUM_FEE, 0, 0;
      var optimizations := optimizationCount;
      while true
        invariant usedUnspents == [] && raAmounts == [] && optimizationUnspents == []
        invariant Holds(Contents(), e)
        invariant MINIMUM_FEE <= fee && FeeFits(fee, |e|, outputs, anonymity, feePerByte)
        decreases optimizations, funds - total - fee
      {
        var ok := SelectCoins(maxDigit, total + fee, anonymity, optimizations, e);
        if !ok {
          return NotEnoughFunds, change, fee, changeDustFee;
        }
        PickedUsable(Contents(), e, anonymity);
        changeDustFee := (usedTotal - total - fee) % DUST_FLOOR;
        var txSize := TxSize(inputsCount, outputs, anonymity);
        if txSize > optimizationMedian && optimizations > 0 {
          UnoptimizeAmounts(e);
          optimizations := optimizations / 2;
          if optimizations < 10 {
            optimizations := 0;
          }
        } else {
          if txSize > median {
            return DoesNotFitInBlock, change, fee, changeDustFee;
          }
          var sizeFee := SizeFee(inputsCount, outputs, anonymity, feePerByte);
          if fee + changeDustFee >= sizeFee {
            change := Finish(total, fee, changeDustFee, sizeFee, anonymity, e);
            return Selected, change, fee, changeDustFee;
          }
          Asked(fee, changeDustFee, inputsCount, |e|, outputs, anonymity, feePerByte);
          fee := NextFee(sizeFee, changeDustFee);
          UnoptimizeAmounts(e);
        }
      }
    }

    /** Selects outputs for a payment, or says that there is not enough or that
        the transaction would be too large. The fee returned is the last one
        tried. */
    method SelectOptimalOutputs(blockHeight: Height, blockTime: nat, confirmedHeight: Height, medianSize: nat, anonymity: nat,
                                total: Amount, totalOutputs: nat, feePerByte: Amount, level: Level)
      returns (verdict: Verdict, change: Amount, fee: Amount, changeDustFee: Amount)
      requires Flagged(unspents)
      requires Contents() == Coins(map[], map[], [], 0, 0) && usedUnspents == [] && raAmounts == []
      modifies this
      ensures unspents == old(unspents)
      ensures var e := Eligible(unspents, blockHeight, blockTime, confirmedHeight);
              && FeeFits(fee, |e|, totalOutputs, anonymity, feePerByte)
              && (verdict == NotEnoughFunds <==> TotalOf(Usable(e, anonymity)) < total + fee)
              && (verdict == DoesNotFitInBlock ==> TxSize(inputsCount, totalOutputs, anonymity) > 120 * medianSize / 100)
              && (verdict == Selected ==>
                  && GoodSelection(usedUnspents, raAmounts, usedTotal, inputsCount, Usable(e, anonymity), total, fee,
                                   changeDustFee, change, SizeFee(inputsCount, totalOutputs, anonymity, feePerByte))
                  && TxSize(inputsCount, totalOutputs, anonymity) <= 120 * medianSize / 100)
    {
      hide Holds, Flagged, FeeFits, Eligible, Usable, TxSize, SizeFee, TotalOf, GoodSelection;
      var median := 120 * medianSize / 100;
      EligibleFlagged(unspents, blockHeight, blockTime, confirmedHeight);
      var maxDigit := CreateHaveCoins(blockHeight, blockTime, confirmedHeight);
      var optimizations := match level case Aggressive => OPTIMIZATIONS_PER_TX_AGGRESSIVE
        case Minimal => OPTIMIZATIONS_MINIMAL case Normal => OPTIMIZATIONS_PER_TX;
      var percent := if level == Aggressive then MEDIAN_PERCENT_AGGRESSIVE else MEDIAN_PERCENT;
      verdict, change, fee, changeDustFee :=
        TrySelections(maxDigit, median, median * percent / 100, anonymity, total, totalOutputs, feePerByte, optimizations,
                      Eligible(unspents, blockHeight, blockTime, confirmedHeight));
    }
  }

  function AmountsOf(s: seq<Coin>): seq<Amount>
    decreases |s|
  {
    if s == [] then [] else AmountsOf(s[..|s| - 1]) + [s[|s| - 1].amount]
  }

  /** Coins that pay for everything: their total is the payment, the fee and
      the change, and the change a multiple of the dust threshold. */
  ghost predicate GoodSelection(used: seq<Coin>, ra: seq<Amount>, usedTotal: nat, inputs: nat, usable: seq<Coin>, total: Amount,
                                fee: Amount, changeDustFee: Amount, change: Amount, sizeFee: nat) {
    && multiset(used) <= multiset(usable)
    && usedTotal == TotalOf(used) && inputs == |used| && ra == AmountsOf(used)
    && usedTotal == total + fee + changeDustFee + change
    && changeDustFee < DUST_FLOOR && change % DUST_FLOOR == 0
    && fee + changeDustFee >= sizeFee
  }

  /** The size a transaction is reckoned with: eight outputs for the change. */
  function TxSize(inputs: nat, outputs: nat, anonymity: nat): nat {
    MaximumTxSize(inputs, outputs + 8, anonymity)
  }

  function SizeFee(inputs: nat, outputs: nat, anonymity: nat, feePerByte: Amount): nat {
    feePerByte * TxSize(inputs, outputs, anonymity)
  }

  /** The fee the size of an earlier selection called for. */
  ghost predicate FeeAsked(fee: Amount, inputs: nat, dustFee: Amount, outputs: nat, anonymity: nat, feePerByte: Amount) {
    var due := SizeFee(inputs, outputs, anonymity, feePerByte) - dustFee;
    dustFee < DUST_FLOOR && due <= fee < due + DUST_FLOOR && fee % DUST_FLOOR == 0
  }

  /** The smallest fee, or one that a selection of at most n inputs called for. */
  ghost predicate FeeFits(fee: Amount, n: nat, outputs: nat, anonymity: nat, feePerByte: Amount) {
    && MINIMUM_FEE <= fee
    && (fee == MINIMUM_FEE || exists i: nat, d: nat :: i <= n && FeeAsked(fee, i, d, outputs, anonymity, feePerByte))
  }

  function NextFee(sizeFee: Amount, dustFee: Amount): int {
    (sizeFee - dustFee + DUST_FLOOR - 1) / DUST_FLOOR * DUST_FLOOR
  }

  lemma Asked(fee: Amount, dustFee: Amount, inputs: nat, n: nat, outputs: nat, anonymity: nat, feePerByte: Amount)
    requires fee + dustFee < SizeFee(inputs, outputs, anonymity, feePerByte)
    requires dustFee < DUST_FLOOR && MINIMUM_FEE <= fee && inputs <= n
    ensures var next := NextFee(SizeFee(inputs, outputs, anonymity, feePerByte), dustFee);
            next > fee && FeeFits(next, n, outputs, anonymity, feePerByte)
  {
    hide SizeFee;
    assert FeeAsked(NextFee(SizeFee(inputs, outputs, anonymity, feePerByte), dustFee), inputs, dustFee, outputs, anonymity, feePerByte);
  }

  lemma Rounded(a: nat)
    ensures (a - a % DUST_FLOOR) % DUST_FLOOR == 0
  {
  }

  /** Of the outputs given, those below the confirmed height whose unlock height
      is at most the next one, or unlock time at most a minute ahead, each as
      often as it was given. */
  lemma {:induction false} EligibleAre(s: seq<Coin>, blockHeight: Height, blockTime: nat, confirmedHeight: Height, o: Coin)
    requires blockHeight + 1 < WORD32 && blockTime + 60 < WORD32
    ensures var open := if o.unlock < 500000000 then o.unlock <= blockHeight + 1 else o.unlock <= blockTime + 60;
            multiset(Eligible(s, blockHeight, blockTime, confirmedHeight))[o]
            == if o.height < confirmedHeight && open then multiset(s)[o] else 0
    decreases |s|
  {
    if s != [] {
      assert s == [s[0]] + s[1..];
      EligibleAre(s[1..], blockHeight, blockTime, confirmedHeight, o);
    }
  }

  lemma EligibleFlagged(s: seq<Coin>, blockHeight: Height, blockTime: nat, confirmedHeight: Height)
    requires Flagged(s)
    ensures Flagged(Eligible(s, blockHeight, blockTime, confirmedHeight))
  {
    hide Eligible, IsDust;
  }

  lemma DustThere(c: Coins, a: Amount, e: seq<Coin>)
    requires Holds(c, e) && a in c.dust
    ensures DustOf(c.dust, a) != [] && c.dust[a][|c.dust[a]| - 1].amount == a
  {
    assert GoodDust(c.dust[a], a);
  }

  lemma LastPlain(c: Coins, digit: nat, lead: nat, e: seq<Coin>)
    requires Holds(c, e) && digit in c.have && lead in c.have[digit]
    ensures StackOf(c.have, digit, lead) != [] && c.have[digit][lead][|c.have[digit][lead]| - 1].amount > 0
  {
    var uns: seq<Coin> := c.have[digit][lead];
    assert GoodRow(c.have[digit], digit);
    assert GoodStack(uns, digit, lead);
    assert InPlace(uns[|uns| - 1], digit, lead);
  }

  ghost predicate LargestHave(c: Coins, amount: Amount) {
    forall d: nat, l: nat, i: nat :: i < |StackOf(c.have, d, l)| ==> StackOf(c.have, d, l)[i].amount <= amount
  }

  ghost predicate LargestUsable(c: Coins, anonymity: nat, amount: Amount) {
    LargestHave(c, amount) && (anonymity == 0 ==> forall a :: a in c.dust ==> a <= amount)
  }

  lemma NoHave(c: Coins)
    requires c.have == map[]
    ensures LargestHave(c, 0)
  {
  }

  lemma LargestMore(c: Coins, amount: Amount, more: Amount)
    requires LargestHave(c, amount) && amount <= more
    ensures LargestHave(c, more)
  {
  }

  /** Coins of the topmost stack are the largest: what is not dust is its first
      digit and zeros. */
  lemma TopLargest(c: Coins, digit: nat, lead: nat, e: seq<Coin>)
    requires Holds(c, e) && StackOf(c.have, digit, lead) != []
    requires forall d: nat, l: nat :: StackOf(c.have, d, l) != [] ==> d < digit || (d == digit && l <= lead)
    ensures LargestHave(c, c.have[digit][lead][|c.have[digit][lead]| - 1].amount)
  {
    hide Holds, IsDust;
    var last := |StackOf(c.have, digit, lead)| - 1;
    CoinIs(c, digit, lead, last, e);
    forall d: nat, l: nat, i: nat | i < |StackOf(c.have, d, l)|
      ensures StackOf(c.have, d, l)[i].amount <= StackOf(c.have, digit, lead)[last].amount
    {
      CoinIs(c, d, l, i, e);
      if d < digit || l < lead {
        RoundLess(l, d, lead, digit);
      }
    }
  }

  lemma CoinIs(c: Coins, digit: nat, lead: nat, i: nat, e: seq<Coin>)
    requires Holds(c, e) && i < |StackOf(c.have, digit, lead)|
    ensures 1 <= lead <= 9 && StackOf(c.have, digit, lead)[i].amount == lead * Pow10(digit)
  {
    hide IsDust;
    var uns: seq<Coin> := c.have[digit][lead];
    assert GoodRow(c.have[digit], digit);
    assert GoodStack(uns, digit, lead);
    assert InPlace(uns[i], digit, lead);
    DustIff(uns[i].amount);
    LeadBounds(uns[i].amount);
  }

  /** No stack that had coins has none now. */
  ghost predicate NoneEmptied(have: map<nat, Row>, have': map<nat, Row>) {
    forall d: nat, l: nat :: StackOf(have, d, l) != [] ==> StackOf(have', d, l) != []
  }

  lemma NoneEmptiedSame(have: map<nat, Row>)
    ensures NoneEmptied(have, have)
  {
  }

  lemma NoneEmptiedThen(have: map<nat, Row>, have': map<nat, Row>, have'': map<nat, Row>)
    requires NoneEmptied(have, have') && NoneEmptied(have', have'')
    ensures NoneEmptied(have, have'')
  {
  }

  lemma PopDeep(have: map<nat, Row>, have': map<nat, Row>, digit: nat, lead: nat)
    requires NoneEmptied(have, have') && |StackOf(have', digit, lead)| > 1
    ensures NoneEmptied(have, PopHave(have', digit, lead))
  {
    hide PopHave;
    forall d: nat, l: nat | StackOf(have, d, l) != []
      ensures StackOf(PopHave(have', digit, lead), d, l) != []
    {
      PopHaveStacks(have', digit, lead, d, l);
    }
  }

  /** A stack whose coins are known, by their first digit alone, to be enough. */
  ghost predicate Enough(have: map<nat, Row>, digit: nat, lead: nat, needed: int) {
    StackOf(have, digit, lead) != [] && lead * Pow10(digit) >= needed
  }

  ghost predicate AnyEnough(have: map<nat, Row>, maxDigit: nat, needed: int) {
    exists d: nat, l: nat :: d <= maxDigit && Enough(have, d, l, needed)
  }

  lemma EnoughIs(c: Coins, digit: nat, lead: nat, e: seq<Coin>)
    requires Holds(c, e) && StackOf(c.have, digit, lead) != []
    ensures c.have[digit][lead][|c.have[digit][lead]| - 1].amount >= lead * Pow10(digit)
  {
    var uns: seq<Coin> := c.have[digit][lead];
    assert GoodRow(c.have[digit], digit);
    assert GoodStack(uns, digit, lead);
    assert InPlace(uns[|uns| - 1], digit, lead);
    LeadBounds(uns[|uns| - 1].amount);
  }

  lemma RowDigits(c: Coins, digit: nat, e: seq<Coin>)
    requires Holds(c, e) && digit in c.have
    ensures forall l :: l in c.have[digit] ==> 1 <= l <= 9 && c.have[digit][l] != []
    ensures c.have[digit] != map[]
  {
    var row: Row := c.have[digit];
    forall l | l in row
      ensures 1 <= l <= 9 && row[l] != []
    {
      assert GoodRow(row, digit);
      assert GoodStack(row[l], digit, l);
      assert InPlace(row[l][0], digit, l);
      LeadBounds(row[l][0].amount);
    }
  }

  /** Taking the first coin of a pair leaves the second one there. */
  lemma SecondStays(c: Coins, digit: nat, a: nat, b: nat, am: nat)
    requires digit in c.have && Fits(c.have[digit], am, a, b)
    requires forall l :: l in c.have[digit] ==> c.have[digit][l] != []
    ensures StackOf(c.have, digit, a) != [] && StackOf(PickHave(c, digit, a).have, digit, b) != []
  {
    hide PopHave;
    PopHaveStacks(c.have, digit, a, digit, b);
  }

  lemma PutBackHolds(c: Coins, o: Coin, e: seq<Coin>)
    requires Holds(c, e) && o.dust == IsDust(o.amount)
    ensures Holds(PutBack(c, o), e + [o])
  {
    hide Tidy, IsDust;
    PutBackTidy(c, o);
    forall p
      ensures HeldCount(PutBack(c, o), p) == multiset(e + [o])[p]
    {
      hide HeldCount;
      PutBackCounts(c, o, p);
      assert HeldCount(c, p) == multiset(e)[p];
    }
  }

  lemma NothingPicked(c: Coins, e: seq<Coin>)
    requires Holds(c, e) && c.picked == []
    ensures c.usedTotal == 0 && c.inputsCount == 0
  {
  }

  /** The first of the picked coins put back. */
  lemma UnpickHolds(c: Coins, e: seq<Coin>)
    requires Holds(c, e) && Flagged(e) && c.picked != []
    ensures var o := c.picked[0];
            && o.amount <= c.usedTotal && c.inputsCount > 0 && o.dust == IsDust(o.amount)
            && Holds(PutBack(c, o).(picked := c.picked[1..], usedTotal := c.usedTotal - o.amount, inputsCount := c.inputsCount - 1), e)
  {
    hide Tidy, IsDust, PutBack;
    var o, rest := c.picked[0], c.picked[1..];
    assert c.picked == [o] + rest;
    TotalFront(o, rest);
    assert o in e by {
      assert HeldCount(c, o) == multiset(e)[o];
      assert o in multiset(e);
    }
    PutBackTidy(c, o);
    PutBackPicked(c, o);
    var c' := PutBack(c, o).(picked := rest, usedTotal := c.usedTotal - o.amount, inputsCount := c.inputsCount - 1);
    assert Tidy(c') by { TidyPicked(PutBack(c, o), c'); }
    forall p
      ensures HeldCount(c', p) == multiset(e)[p]
    {
      PutBackCounts(c, o, p);
      assert HeldCount(c, p) == multiset(e)[p];
      PickedCounts(PutBack(c, o), c', o, p);
    }
  }

  lemma PickedCounts(c: Coins, c': Coins, o: Coin, p: Coin)
    requires c'.have == c.have && c'.dust == c.dust && c.picked == [o] + c'.picked
    ensures HeldCount(c, p) == HeldCount(c', p) + (if p == o then 1 else 0)
  {
  }

  lemma PutBackPicked(c: Coins, o: Coin)
    ensures PutBack(c, o).picked == c.picked
  {
  }

  lemma TidyPicked(c: Coins, c': Coins)
    requires Tidy(c) && c'.have == c.have && c'.dust == c.dust
    ensures Tidy(c')
  {
  }
}
