// Decimal structure of amounts: is_dust, decompose_amount, and the largest
// size a transaction can have.
module Amounts {
  import opened Basics

  type Amount = nat

  const DUST_FLOOR: Amount := 1000000

  function Pow10(n: nat): (r: nat)
    ensures r >= 1
  {
    if n == 0 then 1 else 10 * Pow10(n - 1)
  }

  lemma {:induction false} Pow10Grows(m: nat, n: nat)
    requires m < n
    ensures 10 * Pow10(m) <= Pow10(n)
    decreases n
  {
    if m < n - 1 {
      Pow10Grows(m, n - 1);
    }
  }

  // ----- the first digit and its place -----

  /** How many digits follow the first. */
  function DigitOf(a: Amount): nat {
    if a <= 9 then 0 else 1 + DigitOf(a / 10)
  }

  /** The first digit. */
  function LeadOf(a: Amount): nat {
    if a <= 9 then a else LeadOf(a / 10)
  }

  lemma MulMono(a: nat, b: nat, p: nat)
    requires a <= b
    ensures a * p <= b * p
  {
  }

  lemma {:induction false} LeadBounds(a: Amount)
    ensures LeadOf(a) <= 9 && (a > 0 ==> LeadOf(a) > 0)
    ensures LeadOf(a) * Pow10(DigitOf(a)) <= a < (LeadOf(a) + 1) * Pow10(DigitOf(a))
  {
    if a > 9 {
      LeadBounds(a / 10);
      LeadBoundsStep(a, LeadOf(a / 10), Pow10(DigitOf(a / 10)));
    }
  }

  lemma LeadBoundsStep(a: Amount, lead: nat, p: nat)
    requires lead * p <= a / 10 < (lead + 1) * p
    ensures lead * (10 * p) <= a < (lead + 1) * (10 * p)
  {
    assert lead * (10 * p) == 10 * (lead * p);
    assert (lead + 1) * (10 * p) == 10 * ((lead + 1) * p);
  }

  /** The loop create_have_coins and unoptimize_amounts run. */
  method SplitLead(amount: Amount) returns (digit: nat, lead: nat)
    ensures digit == DigitOf(amount) && lead == LeadOf(amount)
  {
    lead, digit := amount, 0;
    while lead > 9
      invariant digit + DigitOf(lead) == DigitOf(amount) && LeadOf(lead) == LeadOf(amount)
    {
      digit := digit + 1;
      lead := lead / 10;
    }
  }

  // ----- dust -----

  const PRETTY_COUNT := 172

  /** The table of round amounts, in its order. */
  function PrettyAt(i: nat): Amount {
    (i % 9 + 1) * Pow10(i / 9)
  }

  predicate Pretty(a: Amount) {
    exists i :: 0 <= i < PRETTY_COUNT && PrettyAt(i) == a
  }

  predicate IsDust(a: Amount) {
    !Pretty(a) || a < DUST_FLOOR
  }

  lemma RoundLess(d: nat, k: nat, e: nat, m: nat)
    requires 1 <= d <= 9 && 1 <= e && (k < m || (k == m && d < e))
    ensures d * Pow10(k) < e * Pow10(m)
  {
    if k < m {
      Pow10Grows(k, m);
      MulMono(d, 9, Pow10(k));
      MulMono(1, e, Pow10(m));
    } else {
      MulMono(d + 1, e, Pow10(m));
      assert (d + 1) * Pow10(m) == d * Pow10(m) + Pow10(m);
    }
  }

  /** The table is ascending, so that binary search finds what it holds. */
  lemma PrettyAscends(i: nat, j: nat)
    requires i < j
    ensures PrettyAt(i) < PrettyAt(j)
  {
    RoundLess(i % 9 + 1, i / 9, j % 9 + 1, j / 9);
  }

  lemma {:induction false} RoundDigits(d: nat, k: nat)
    requires 1 <= d <= 9
    ensures LeadOf(d * Pow10(k)) == d && DigitOf(d * Pow10(k)) == k
  {
    if k > 0 {
      RoundDigits(d, k - 1);
      assert d * Pow10(k) == 10 * (d * Pow10(k - 1));
      MulMono(1, d, Pow10(k - 1));
    }
  }

  lemma Ten19()
    ensures Pow10(19) == 10000000000000000000 && Pow10(6) == DUST_FLOOR
  {
    assert Pow10(6) == 1000000;
    assert Pow10(12) == 1000000 * Pow10(6);
    assert Pow10(18) == 1000000 * Pow10(12);
  }

  lemma RoundPretty(d: nat, k: nat)
    requires 1 <= d <= 9 && (k < 19 || (k == 19 && d == 1))
    ensures Pretty(d * Pow10(k))
  {
    var i := 9 * k + d - 1;
    assert i / 9 == k && i % 9 == d - 1;
    assert PrettyAt(i) == d * Pow10(k);
  }

  /** An amount is not dust exactly when it is one digit and at least six
      zeros, up to ten to the nineteenth. */
  lemma DustIff(a: Amount)
    ensures !IsDust(a) <==> a == LeadOf(a) * Pow10(DigitOf(a)) && DUST_FLOOR <= a <= Pow10(19)
  {
    if Pretty(a) {
      PrettyIsRound(a);
    }
    if a == LeadOf(a) * Pow10(DigitOf(a)) && DUST_FLOOR <= a <= Pow10(19) {
      LeadBounds(a);
      var d, k := LeadOf(a), DigitOf(a);
      if k > 19 || (k == 19 && d > 1) {
        RoundLess(1, 19, d, k);
        assert false;
      }
      RoundPretty(d, k);
    }
  }

  lemma PrettyIsRound(a: Amount)
    requires Pretty(a)
    ensures a == LeadOf(a) * Pow10(DigitOf(a)) && a <= Pow10(19)
  {
    hide Pow10;
    var i :| 0 <= i < PRETTY_COUNT && PrettyAt(i) == a;
    RoundDigits(i % 9 + 1, i / 9);
    if i < 171 {
      RoundLess(i % 9 + 1, i / 9, 1, 19);
    }
  }

  // ----- decompose_amount -----

  function Sum(s: seq<Amount>): (r: nat)
    decreases |s|
  {
    if s == [] then 0 else Sum(s[..|s| - 1]) + s[|s| - 1]
  }

  lemma SumPush(s: seq<Amount>, a: Amount)
    ensures Sum(s + [a]) == Sum(s) + a
  {
    assert (s + [a])[..|s|] == s;
  }

  /** What dust_handler pushes. */
  function DustPieces(dust: Amount): (r: seq<Amount>)
  {
    var du0 := dust % 1000;
    var du1 := dust - du0;
    var first := if du0 != 0 then [du0] else [];
    if du1 != 0 then first + [du1] else first
  }

  lemma DustPiecesSum(dust: Amount)
    ensures Sum(DustPieces(dust)) == dust
  {
    var du0 := dust % 1000;
    var first := if du0 != 0 then [du0] else [];
    SumPush([], du0);
    SumPush(first, dust - du0);
  }

  ghost predicate NoDust(s: seq<Amount>) {
    forall i :: 0 <= i < |s| ==> !IsDust(s[i])
  }

  lemma SumConcat(s: seq<Amount>, t: seq<Amount>)
    ensures Sum(s + t) == Sum(s) + Sum(t)
    decreases |t|
  {
    if t == [] {
      assert s + t == s;
    } else {
      assert (s + t)[..|s + t| - 1] == s + t[..|t| - 1];
      SumConcat(s, t[..|t| - 1]);
    }
  }

  /** One digit taken off the amount. */
  lemma DigitOff(rest: nat, order: nat)
    requires order >= 1
    ensures rest % 10 * order + rest / 10 * (order * 10) == rest * order
    ensures rest % 10 * order < order * 10
    ensures rest % 10 == 0 || rest % 10 * order >= order
  {
    var d, r := rest % 10, rest / 10;
    assert rest == d + 10 * r;
    assert (d + 10 * r) * order == d * order + 10 * r * order;
    assert d * order <= 9 * order;
    if d > 0 {
      assert (d - 1) * order >= 0;
    }
  }

  lemma TooBig(d: nat, k: nat)
    requires d >= 1 && (k > 19 || (k == 19 && d > 1))
    ensures d * Pow10(k) >= WORD
  {
    hide Pow10;
    Ten19();
    if k > 19 {
      Pow10Grows(19, k);
      MulMono(1, d, Pow10(k));
    } else {
      MulMono(2, d, Pow10(19));
    }
  }

  lemma RoundPieces(d: nat, k: nat)
    requires 1 <= d <= 9 && k >= 6
    requires d * Pow10(k) < WORD
    ensures !IsDust(d * Pow10(k)) && d * Pow10(k) >= DUST_FLOOR
    ensures k > 6 || d > 1 ==> d * Pow10(k) > DUST_FLOOR
    ensures k == 6 && d == 1 ==> d * Pow10(k) == DUST_FLOOR
  {
    hide Pow10;
    Ten19();
    if k > 19 || (k == 19 && d > 1) {
      TooBig(d, k);
      assert false;
    }
    RoundPretty(d, k);
    if k > 6 || d > 1 {
      RoundLess(1, 6, d, k);
    }
  }

  lemma LowDigit(rest: nat, k: nat, amount: Amount)
    requires k < 6 && rest * Pow10(k) == amount && amount % DUST_FLOOR == 0
    ensures rest % 10 == 0
  {
    if k == 0 {
    } else if k == 1 {
      assert Pow10(1) == 10;
    } else if k == 2 {
      assert Pow10(2) == 100;
    } else if k == 3 {
      assert Pow10(3) == 1000;
    } else if k == 4 {
      assert Pow10(4) == 10000;
    } else {
      assert Pow10(5) == 100000;
    }
  }

  /** A round amount, k digits in, with this much of it left: nothing but a
      round million of dust so far. */
  ghost predicate Clean(left: nat, dust: nat, k: nat, amount: Amount) {
    && (dust == 0 || dust == DUST_FLOOR)
    && (k <= 6 ==> left == amount)
    && left <= amount < WORD
    && amount % DUST_FLOOR == 0
  }

  lemma ChunkRound(rest: nat, k: nat, amount: Amount)
    requires amount % DUST_FLOOR == 0 && rest * Pow10(k) <= amount < WORD
    requires k <= 6 ==> rest * Pow10(k) == amount
    ensures var chunk := rest % 10 * Pow10(k);
            chunk == 0 || (k >= 6 && !IsDust(chunk) && chunk >= DUST_FLOOR)
  {
    hide IsDust, Pow10;
    DigitOff(rest, Pow10(k));
    if k < 6 {
      LowDigit(rest, k, amount);
    } else if rest % 10 > 0 {
      RoundPieces(rest % 10, k);
    }
  }

  /** Where the next digit of a round amount goes. */
  lemma ChunkClean(left: nat, dust: nat, k: nat, amount: Amount, chunk: nat)
    requires Clean(left, dust, k, amount) && chunk <= left
    requires chunk == 0 || (k >= 6 && chunk >= DUST_FLOOR)
    ensures dust + chunk <= DUST_FLOOR ==> Clean(left - chunk, dust + chunk, k + 1, amount)
    ensures dust + chunk > DUST_FLOOR ==> Clean(left - chunk, dust, k + 1, amount)
  {
  }

  /** How much of the amount the digits not yet taken stand for. */
  ghost function Left(rest: nat, k: nat): nat {
    rest * Pow10(k)
  }

  method TakeDigit(rest: nat, order: nat, ghost k: nat) returns (chunk: nat, rest': nat, order': nat)
    requires order == Pow10(k) && rest != 0
    ensures order' == order * 10 && order' == Pow10(k + 1)
    ensures chunk + Left(rest', k + 1) == Left(rest, k) && rest' < rest
    ensures chunk < order' && (chunk == 0 || chunk >= order)
    ensures forall amount: Amount :: Clean(Left(rest, k), 0, k, amount) ==>
              chunk == 0 || (k >= 6 && !IsDust(chunk) && chunk >= DUST_FLOOR)
  {
    hide IsDust;
    DigitOff(rest, order);
    chunk := rest % 10 * order;
    rest' := rest / 10;
    order' := order * 10;
    forall amount: Amount | Clean(Left(rest, k), 0, k, amount)
      ensures chunk == 0 || (k >= 6 && !IsDust(chunk) && chunk >= DUST_FLOOR)
    {
      ChunkRound(rest, k, amount);
    }
  }

  /** The pieces add up to the amount, whatever the threshold; with the
      network's threshold a multiple of it leaves no piece that is dust. */
  method DecomposeAmount(amount: Amount, threshold: Amount) returns (pieces: seq<Amount>)
    requires amount < WORD
    ensures Sum(pieces) == amount
    ensures threshold == DUST_FLOOR && amount % DUST_FLOOR == 0 ==> NoDust(pieces)
  {
    pieces := [];
    var rest, handled, dust: nat, order: nat := amount, false, 0, 1;
    ghost var k, round := 0, threshold == DUST_FLOOR && amount % DUST_FLOOR == 0;
    assert Left(rest, k) == amount;
    hide IsDust, DustPieces, Pow10, Left;
    while rest != 0
      invariant order == Pow10(k)
      invariant Sum(pieces) + (if handled then 0 else dust) + Left(rest, k) == amount
      invariant handled ==> dust + order > threshold
      invariant round ==> NoDust(pieces) && Clean(Left(rest, k), dust, k, amount)
      decreases rest
    {
      ghost var left := Left(rest, k);
      var chunk: nat;
      chunk, rest, order := TakeDigit(rest, order, k);
      if round {
        assert Clean(left, 0, k, amount);
        ChunkClean(left, dust, k, amount, chunk);
      }
      k := k + 1;
      if dust + chunk <= threshold {
        dust := dust + chunk;
      } else {
        if !handled && dust != 0 {
          pieces := PushDust(pieces, dust, round);
          handled := true;
        }
        if chunk != 0 {
          SumPush(pieces, chunk);
          pieces := pieces + [chunk];
        }
      }
    }
    assert Left(0, k) == 0 by { LeftNone(k); }
    if !handled && dust != 0 {
      pieces := PushDust(pieces, dust, round);
    }
  }

  lemma LeftNone(k: nat)
    ensures Left(0, k) == 0
  {
  }

  method PushDust(pieces: seq<Amount>, dust: Amount, ghost round: bool) returns (r: seq<Amount>)
    requires round ==> NoDust(pieces) && dust == DUST_FLOOR
    ensures Sum(r) == Sum(pieces) + dust
    ensures round ==> NoDust(r)
  {
    hide IsDust;
    SumConcat(pieces, DustPieces(dust));
    DustPiecesSum(dust);
    r := pieces + DustPieces(dust);
    if round {
      RoundPieces(1, 6);
      assert DustPieces(dust) == [DUST_FLOOR];
    }
  }

  // ----- get_maximum_tx_size -----

  const HEADER_SIZE := 1 + 8 + 1 + 32
  const OUTPUT_SIZE := 1 + 32 + 10

  function InputSize(mixin: nat): nat {
    1 + 10 + 32 + 64 + 1 + 4 + mixin * (4 + 64)
  }

  function MaximumTxSize(inputs: nat, outputs: nat, mixin: nat): nat {
    HEADER_SIZE + outputs * OUTPUT_SIZE + InputSize(mixin) * inputs
  }
}
