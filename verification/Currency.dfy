// Block rewards: the base reward, the penalty for large blocks, and the coins
// issued along a chain.
module Currency {
  import opened Basics
  import opened WideInt
  import Numerals

  const MONEY_SUPPLY := 0xFFFF_FFFF_FFFF_FFFF
  const EMISSION_DIVISOR := 0x1_0000 // a shift by emission_speed_factor, 16
  const DIFFICULTY_SCATTER_V2 := 32
  const MAX_BLOCK_SIZE_INITIAL := 20480
  const GROWTH_NUMERATOR := 102400
  const GROWTH_DENOMINATOR := 525600
  const UPGRADE_HEIGHT_V2 := 1
  const UPGRADE_HEIGHT_V3 := 2
  const UPGRADE_HEIGHT_V4 := 7080

  /** calc_base_reward. */
  function BaseReward(version: nat, issued: nat): nat
    requires issued <= MONEY_SUPPLY
  {
    var base := (MONEY_SUPPLY - issued) / EMISSION_DIVISOR;
    if version >= 4 && base >= DIFFICULTY_SCATTER_V2 then base / DIFFICULTY_SCATTER_V2 else base
  }

  /** What the source asserts of a block's size. */
  predicate SizeOk(median: nat, size: nat) {
    size <= 2 * median && median < WORD32 && size < WORD32
  }

  /** The penalty in exact arithmetic. */
  function Penalized(amount: nat, median: nat, size: nat): nat
    requires SizeOk(median, size)
  {
    if size <= median then amount else
    MulBound(1, 1, median, median);
    MulBound(0, 0, size, 2 * median - size);
    MulBound(0, 0, amount, size * (2 * median - size));
    Quotient(amount * (size * (2 * median - size)), median * median)
  }

  function Quotient(x: nat, d: nat): nat
    requires d > 0
  {
    x / d
  }

  lemma MulBelow(a: nat, b: nat, m: nat)
    requires a <= b
    ensures a * m <= b * m
  {
  }

  lemma {:induction false} MulBelowStrict(a: nat, b: nat, m: nat)
    requires a < b && m > 0
    ensures a * m < b * m
  {
    MulBelow(a + 1, b, m);
    assert (a + 1) * m == a * m + m;
  }

  /** The factor of the penalty is the square of the median less the square of
      the excess. */
  lemma Factor(m: nat, s: nat)
    requires m <= s <= 2 * m
    ensures s * (2 * m - s) == m * m - (s - m) * (s - m)
  {
    var e := s - m;
    assert s == m + e && 2 * m - s == m - e;
    assert (m + e) * (m - e) == m * (m - e) + e * (m - e);
    assert m * (m - e) == m * m - m * e && e * (m - e) == e * m - e * e;
  }

  lemma FactorFits(m: nat, s: nat)
    requires m < s <= 2 * m && m < WORD32
    ensures 0 <= s * (2 * m - s) < m * m <= (WORD32 - 1) * (WORD32 - 1)
  {
    Factor(m, s);
    MulBound(1, 1, s - m, s - m);
    MulBound(m, m, WORD32 - 1, WORD32 - 1);
    MulBound(s - m, s - m, m, m);
  }

  lemma DivByTwice(x: nat, m: nat)
    requires m > 0
    ensures x / m / m == x / (m * m)
  {
    var q := x / m;
    var p, r, t := q / m, q % m, x % m;
    DivModIs(x, m);
    DivModIs(q, m);
    assert (p * m + r) * m + t == p * (m * m) + (r * m + t);
    MulBelow(r + 1, m, m);
    assert (r + 1) * m == r * m + m;
    Numerals.DivMod(p, m * m, r * m + t);
  }

  /** get_penalized_amount: a 128-bit product divided by the median twice;
      neither assert at its end can fail. */
  method GetPenalizedAmount(amount: nat, median: nat, size: nat) returns (penalized: nat)
    requires amount < WORD && SizeOk(median, size)
    ensures penalized == Penalized(amount, median, size)
    ensures size > median && amount > 0 ==> penalized < amount
  {
    hide Mul128;
    if amount == 0 {
      if size > median {
        Zero(median, size);
      }
      return 0;
    }
    if size <= median {
      return amount;
    }
    FactorFits(median, size);
    var factor := size * (2 * median - size);
    Mul128Exact(amount, factor);
    var product := Mul128(amount, factor);
    var once, r1 := Div128By32(product, median);
    var twice, r2 := Div128By32(once, median);
    DivByTwice(amount * factor, median);
    PenaltyStrict(amount, median, size);
    assert twice.Value() == Penalized(amount, median, size);
    assert twice.hi == 0;
    return twice.lo;
  }

  lemma Zero(median: nat, size: nat)
    requires SizeOk(median, size) && size > median
    ensures Penalized(0, median, size) == 0
  {
    assert median * median > 0;
    Numerals.DivMod(0, median * median, 0);
  }

  /** Strictly less than a positive amount. */
  lemma PenaltyStrict(amount: nat, median: nat, size: nat)
    requires SizeOk(median, size) && size > median && amount > 0
    ensures Penalized(amount, median, size) < amount
  {
    FactorFits(median, size);
    var f, mm := size * (2 * median - size), median * median;
    MulBelowStrict(f, mm, amount);
    DivBelow(amount * f, amount, mm);
  }

  lemma DivBelow(x: nat, a: nat, d: nat)
    requires d > 0 && x < a * d
    ensures x / d < a
  {
    Numerals.DivLess(x, d, a);
  }

  /** The larger the block, the less is left. */
  lemma PenaltyFalls(amount: nat, median: nat, s: nat, t: nat)
    requires SizeOk(median, s) && SizeOk(median, t) && s <= t
    ensures Penalized(amount, median, t) <= Penalized(amount, median, s)
  {
    if t > median && amount > 0 {
      if s <= median {
        PenaltyStrict(amount, median, t);
      } else {
        Factor(median, s);
        Factor(median, t);
        MulBound(s - median, s - median, t - median, t - median);
        FactorFits(median, s);
        FactorFits(median, t);
        var f, g := s * (2 * median - s), t * (2 * median - t);
        MulBelow(g, f, amount);
        DivMono(amount * g, amount * f, median * median);
      }
    } else if t > median {
      Zero(median, t);
    }
  }

  lemma DivMono(x: nat, y: nat, d: nat)
    requires d > 0 && x <= y
    ensures x / d <= y / d
  {
    DivModIs(x, d);
    DivModIs(y, d);
    Numerals.MulStrict(y / d, x / d, d);
  }

  // ----- rewards and emission -----

  datatype Reward = Reward(reward: int, emission: int)

  function PaidBase(version: nat, median: nat, size: nat, issued: nat): nat
    requires SizeOk(median, size) && issued <= MONEY_SUPPLY
  {
    Penalized(BaseReward(version, issued), median, size)
  }

  /** The fee pays the penalty too from version 2 on. */
  function PaidFee(version: nat, median: nat, size: nat, fee: nat): nat
    requires SizeOk(median, size)
  {
    if version >= 2 then Penalized(fee, median, size) else fee
  }

  /** get_block_reward; None is a failed assert. */
  function BlockReward(version: nat, median: nat, size: nat, issued: nat, fee: nat): Option<Reward> {
    if !SizeOk(median, size) || issued > MONEY_SUPPLY then None else
    var base, paid := PaidBase(version, median, size, issued), PaidFee(version, median, size, fee);
    Some(Reward(base + paid, base - (fee - paid)))
  }

  /** The sum of already_generated_coins and emission_change in 64 bits. */
  function Sum64(issued: nat, emission: int): nat {
    (issued + emission % WORD) % WORD
  }

  lemma PenaltyAtMost(amount: nat, median: nat, size: nat)
    requires SizeOk(median, size)
    ensures Penalized(amount, median, size) <= amount
  {
    if size > median && amount > 0 {
      PenaltyStrict(amount, median, size);
    } else if size > median {
      Zero(median, size);
    }
  }

  /** The miner gets what is issued and the fees, and the supply is never
      passed. The 64-bit sum is exact exactly when the part of the fees that the
      penalty takes away does not exceed the coins there are with this block's;
      fees no larger than the coins already issued are one such case, and then
      the reward fits in 64 bits too. */
  lemma RewardBalanced(version: nat, median: nat, size: nat, issued: nat, fee: nat)
    ensures BlockReward(version, median, size, issued, fee).Some? <==> SizeOk(median, size) && issued <= MONEY_SUPPLY
    ensures BlockReward(version, median, size, issued, fee).Some? ==>
            var r := BlockReward(version, median, size, issued, fee).value;
            var taken := fee - PaidFee(version, median, size, fee);
            && r.reward == r.emission + fee
            && issued + r.emission <= MONEY_SUPPLY
            && (Sum64(issued, r.emission) == issued + r.emission <==> taken <= issued + PaidBase(version, median, size, issued))
            && (fee <= issued ==> 0 <= r.reward < WORD && taken <= issued)
  {
    hide Penalized;
    if SizeOk(median, size) && issued <= MONEY_SUPPLY {
      PenaltyAtMost(BaseReward(version, issued), median, size);
      PenaltyAtMost(fee, median, size);
    }
  }

  /** The coins not issued yet. */
  function Left(issued: nat): nat
    requires issued <= MONEY_SUPPLY
  {
    MONEY_SUPPLY - issued
  }

  /** What the base reward is a fraction of: the divisor grows from version 4 on,
      until the reward would be less than one. */
  function Divisor(version: nat, issued: nat): (d: nat)
    requires issued <= MONEY_SUPPLY
    ensures d > 0
  {
    if version < 4 || Left(issued) < 0x20_0000 then 0x1_0000 else 0x20_0000
  }

  /** The base reward is the coins left over the divisor, rounded down, and ends
      exactly when fewer than 65536 are left. */
  lemma BaseRewardIs(version: nat, issued: nat)
    requires issued <= MONEY_SUPPLY
    ensures var r, d := BaseReward(version, issued), Divisor(version, issued);
            && r * d <= Left(issued) < (r + 1) * d
            && (r == 0 <==> Left(issued) < 0x1_0000)
            && r <= Left(issued)
  {
  }

  /** As coins are issued the base reward falls, except from version 4 on where
      the larger divisor is given up: there it can rise from one to 31. */
  lemma BaseRewardFalls(version: nat, issued: nat, later: nat)
    requires issued <= later <= MONEY_SUPPLY
    ensures BaseReward(version, later) <= BaseReward(version, issued) <==>
            || Divisor(version, later) == Divisor(version, issued)
            || Left(later) / 0x1_0000 <= Left(issued) / 0x20_0000
  {
    var p, q := Left(later), Left(issued);
    DivMono(p, q, 0x1_0000);
    DivMono(p, q, 0x20_0000);
    assert q / 0x1_0000 / 32 == q / 0x20_0000 && p / 0x1_0000 / 32 == p / 0x20_0000;
    assert q < 0x20_0000 ==> q / 0x20_0000 == 0;
  }

  lemma BaseRewardRises()
    ensures BaseReward(4, MONEY_SUPPLY - 0x20_0000) == 1
    ensures BaseReward(4, MONEY_SUPPLY - 0x20_0000 + 1) == 31
  {
  }

  /** The reward is all of base reward and fees up to the median, falls with the
      size above it, and version 1 takes nothing off the fees. */
  lemma RewardFalls(version: nat, median: nat, s: nat, t: nat, issued: nat, fee: nat)
    requires SizeOk(median, s) && SizeOk(median, t) && s <= t && issued <= MONEY_SUPPLY
    ensures var base, all := BaseReward(version, issued), BaseReward(version, issued) + fee;
            var small, large := BlockReward(version, median, s, issued, fee), BlockReward(version, median, t, issued, fee);
            && small.Some? && large.Some?
            && large.value.reward <= small.value.reward
            && (t <= median ==> large.value.reward == all)
            && (t > median ==> (large.value.reward == all <==> base == 0 && (version < 2 || fee == 0)))
            && (version < 2 ==> fee <= large.value.reward)
  {
    var base := BaseReward(version, issued);
    PenaltyFalls(base, median, s, t);
    PenaltyFalls(fee, median, s, t);
    if t > median {
      Zero(median, t);
      if base > 0 { PenaltyStrict(base, median, t); }
      if fee > 0 { PenaltyStrict(fee, median, t); }
    }
    hide Penalized, BaseReward;
  }

  datatype Mined = Mined(version: nat, median: nat, size: nat, fee: nat)

  predicate InSupply(issued: int) {
    0 <= issued <= MONEY_SUPPLY
  }

  /** What the penalty takes off the fees is there to be taken. */
  predicate LossCovered(before: int, b: Mined) {
    SizeOk(b.median, b.size) && InSupply(before) &&
    b.fee - PaidFee(b.version, b.median, b.size, b.fee) <= before + PaidBase(b.version, b.median, b.size, before)
  }

  function RewardOf(before: int, b: Mined): Option<Reward> {
    if before < 0 then None else BlockReward(b.version, b.median, b.size, before, b.fee)
  }

  /** already_generated_coins along a chain, in the source's 64 bits; None when an
      assert failed on the way. */
  function Issued(chain: seq<Mined>): Option<nat>
    decreases |chain|
  {
    if chain == [] then Some(0) else
    var before :- Issued(chain[..|chain| - 1]);
    var r :- RewardOf(before, chain[|chain| - 1]);
    Some(Sum64(before, r.emission))
  }

  /** The same without the limit of 64 bits; a step without a reward issues
      nothing. */
  function Emitted(chain: seq<Mined>): int
    decreases |chain|
  {
    if chain == [] then 0 else
    var before := Emitted(chain[..|chain| - 1]);
    var r := RewardOf(before, chain[|chain| - 1]);
    before + if r.Some? then r.value.emission else 0
  }

  ghost predicate SizesOk(chain: seq<Mined>) {
    forall i :: 0 <= i < |chain| ==> SizeOk(chain[i].median, chain[i].size)
  }

  ghost predicate FeesCovered(chain: seq<Mined>) {
    forall i :: 0 <= i < |chain| ==> LossCovered(Emitted(chain[..i]), chain[i])
  }

  ghost predicate AlwaysInSupply(chain: seq<Mined>) {
    forall n :: 0 <= n <= |chain| ==> InSupply(Emitted(chain[..n]))
  }

  lemma CoveredFront(chain: seq<Mined>)
    requires chain != []
    ensures var front, last := chain[..|chain| - 1], chain[|chain| - 1];
            && (SizesOk(chain) <==> SizesOk(front) && SizeOk(last.median, last.size))
            && (FeesCovered(chain) <==> FeesCovered(front) && LossCovered(Emitted(front), last))
            && (AlwaysInSupply(chain) <==> AlwaysInSupply(front) && InSupply(Emitted(chain)))
  {
    hide Emitted, SizeOk, LossCovered;
    var front := chain[..|chain| - 1];
    assert chain[..|chain|] == chain;
    assert forall i :: 0 <= i < |chain| ==> front[..i] == chain[..i];
  }

  lemma EmittedNext(before: int, b: Mined)
    requires SizeOk(b.median, b.size) && InSupply(before)
    ensures RewardOf(before, b).Some?
    ensures var r := RewardOf(before, b).value;
            && (InSupply(before + r.emission) <==> LossCovered(before, b))
            && (LossCovered(before, b) ==> Sum64(before, r.emission) == before + r.emission)
            && r.reward == r.emission + b.fee
  {
    hide PaidBase, PaidFee;
    RewardBalanced(b.version, b.median, b.size, before, b.fee);
  }

  /** Only a block over twice its median ends the run: the counter itself never
      passes the supply. */
  lemma {:induction false} IssuedWhen(chain: seq<Mined>)
    ensures Issued(chain).Some? <==> SizesOk(chain)
    ensures Issued(chain).Some? ==> InSupply(Issued(chain).value)
    decreases |chain|
  {
    hide SizesOk, BlockReward;
    if chain == [] {
      NothingMined();
    } else {
      var front, last := chain[..|chain| - 1], chain[|chain| - 1];
      CoveredFront(chain);
      IssuedWhen(front);
      if Issued(front).Some? {
        RewardBalanced(last.version, last.median, last.size, Issued(front).value, last.fee);
      }
    }
  }

  /** Along a chain the coins issued stay between nothing and the supply exactly
      when every block's loss is covered; then its 64-bit counter is right. */
  lemma {:induction false} IssuedBounded(chain: seq<Mined>)
    requires Issued(chain).Some?
    ensures AlwaysInSupply(chain) <==> FeesCovered(chain)
    ensures FeesCovered(chain) ==> Issued(chain).value == Emitted(chain)
    decreases |chain|
  {
    hide RewardOf, LossCovered, FeesCovered, AlwaysInSupply, SizesOk;
    if chain == [] {
      NothingMined();
    } else {
      var front, last := chain[..|chain| - 1], chain[|chain| - 1];
      IssuedWhen(chain);
      CoveredFront(chain);
      IssuedBounded(front);
      if AlwaysInSupply(front) {
        NowInSupply(front);
        EmittedNext(Emitted(front), last);
      }
    }
  }

  lemma NothingMined()
    ensures AlwaysInSupply([]) && FeesCovered([]) && SizesOk([])
  {
  }

  lemma NowInSupply(chain: seq<Mined>)
    requires AlwaysInSupply(chain)
    ensures InSupply(Emitted(chain))
  {
    assert chain[..|chain|] == chain;
  }

  /** Fees no larger than the coins already issued are covered. */
  lemma {:induction false} BackedCovered(chain: seq<Mined>)
    requires Issued(chain).Some? && forall i :: 0 <= i < |chain| ==> chain[i].fee <= Emitted(chain[..i])
    ensures FeesCovered(chain)
    decreases |chain|
  {
    hide RewardOf, LossCovered, AlwaysInSupply;
    if chain == [] {
      NothingMined();
    } else {
      var front, last := chain[..|chain| - 1], chain[|chain| - 1];
      IssuedWhen(chain);
      CoveredFront(chain);
      assert forall i :: 0 <= i < |front| ==> front[..i] == chain[..i];
      hide FeesCovered, SizesOk;
      BackedCovered(front);
      IssuedBounded(front);
      NowInSupply(front);
      BackedLoss(Emitted(front), last);
    }
  }

  lemma BackedLoss(before: int, b: Mined)
    requires SizeOk(b.median, b.size) && InSupply(before) && b.fee <= before
    ensures LossCovered(before, b)
  {
    hide PaidFee, PaidBase, BlockReward;
    RewardBalanced(b.version, b.median, b.size, before, b.fee);
  }

  /** What the miners got, in the 64-bit chain. */
  function Rewards(chain: seq<Mined>): Option<int>
    decreases |chain|
  {
    if chain == [] then Some(0) else
    var all :- Rewards(chain[..|chain| - 1]);
    var before :- Issued(chain[..|chain| - 1]);
    var r :- RewardOf(before, chain[|chain| - 1]);
    Some(all + r.reward)
  }

  function Fees(chain: seq<Mined>): nat
    decreases |chain|
  {
    if chain == [] then 0 else Fees(chain[..|chain| - 1]) + chain[|chain| - 1].fee
  }

  /** And all rewards together are the coins issued and the fees. */
  lemma {:induction false} RewardsAreIssuedAndFees(chain: seq<Mined>)
    requires Issued(chain).Some? && FeesCovered(chain)
    ensures Rewards(chain) == Some(Issued(chain).value + Fees(chain))
    decreases |chain|
  {
    hide RewardOf, LossCovered, FeesCovered, AlwaysInSupply, SizesOk;
    if chain != [] {
      var front := chain[..|chain| - 1];
      IssuedWhen(chain);
      CoveredFront(chain);
      IssuedBounded(chain);
      IssuedBounded(front);
      NowInSupply(front);
      RewardsAreIssuedAndFees(front);
      EmittedNext(Emitted(front), chain[|chain| - 1]);
    }
  }

  // ----- the size the consensus rules let through -----

  /** max_block_cumulative_size. */
  function MaxBlockSize(height: nat): nat {
    MAX_BLOCK_SIZE_INITIAL + height * GROWTH_NUMERATOR / GROWTH_DENOMINATOR
  }

  predicate Admitted(size: nat, height: nat) {
    size <= MaxBlockSize(height)
  }

  /** get_block_major_version_for_height. */
  function VersionAt(height: nat): nat {
    if height <= UPGRADE_HEIGHT_V2 then 1
    else if height <= UPGRADE_HEIGHT_V3 then 2
    else if height <= UPGRADE_HEIGHT_V4 then 3
    else 4
  }

  /** block_granted_full_reward_zone_by_block_version. */
  function RewardZone(version: nat): nat {
    if version >= 3 then 100000 else if version == 2 then 20000 else 10000
  }

  function EffectiveMedian(median: nat, height: nat): nat {
    Max(median, RewardZone(VersionAt(height)))
  }

  /** A block that the size rule admits is at most twice its effective median,
      whatever the median of the blocks before it, exactly at these heights. */
  lemma SizesAdmitted(height: nat)
    ensures (forall size: nat, median: nat :: Admitted(size, height) ==> size <= 2 * EffectiveMedian(median, height))
            <==> 2 <= height <= 921447
  {
    var size := MaxBlockSize(height);
    assert Admitted(size, height);
    assert EffectiveMedian(0, height) == RewardZone(VersionAt(height));
  }

  /** A product in 64 bits; a negative factor wraps around before it. */
  function Times64(a: nat, b: int): nat {
    a * (b % WORD) % WORD
  }

  /** The factor of get_penalized_amount as the source computes it. */
  function Factor64(median: nat, size: nat): nat {
    Times64(size, 2 * median - size)
  }

  /** Above the median the 64-bit factor is the true one exactly for blocks of at
      most twice the median; past that the difference wraps around. */
  lemma FactorWraps(median: nat, size: nat)
    requires median < size < WORD32
    ensures Factor64(median, size) == size * (2 * median - size) <==> size <= 2 * median
    ensures size > 2 * median ==> Factor64(median, size) == WORD - size * (size - 2 * median)
  {
    hide Times64;
    if size <= 2 * median {
      FactorFits(median, size);
      TimesFits(size, 2 * median - size);
    } else {
      TimesWraps(size, size - 2 * median);
      Negated(size, size - 2 * median);
    }
  }

  lemma Negated(a: int, b: int)
    ensures a * (0 - b) == -(a * b)
  {
  }

  lemma TimesFits(a: nat, b: nat)
    requires a * b < WORD && b < WORD
    ensures Times64(a, b) == a * b
  {
    assert b % WORD == b;
  }

  lemma TimesWraps(size: nat, d: nat)
    requires 0 < size < WORD32 && 0 < d < WORD32
    ensures 0 < size * d < WORD && Times64(size, 0 - d) == WORD - size * d
  {
    MulBound(1, 1, size, d);
    MulBound(size, d, WORD32 - 1, WORD32 - 1);
    SpreadOut(size, d);
    Numerals.DivMod(size - 1, WORD, WORD - size * d);
    assert (0 - d) % WORD == WORD - d;
  }

  lemma SpreadOut(size: nat, d: nat)
    requires 0 < size
    ensures size * (WORD - d) == (size - 1) * WORD + (WORD - size * d)
  {
    assert size * (WORD - d) == size * WORD - size * d;
  }

  /** The first height where a block can be too large: one byte over twice the
      least median passes the size rule and fails the assert, and the factor
      wraps to almost 2 to the 64. */
  lemma AdmittedTooLarge()
    ensures var height, size, median := 921448, 200001, EffectiveMedian(100000, 921448);
            && Admitted(size, height) && median == 100000 && !SizeOk(median, size)
            && (2 * median - size) % WORD == WORD - 1 && Factor64(median, size) == WORD - 200001
  {
    FactorWraps(100000, 200001);
  }
}
