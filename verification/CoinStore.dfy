// The coins a selection works on: usable outputs by digit and leading digit,
// dust by amount, and what has been picked so far.
module CoinStore {
  import opened Basics
  import opened Amounts
  import opened WalletTypes

  type Row = map<nat, seq<Coin>>

  datatype Coins = Coins(have: map<nat, Row>, dust: map<Amount, seq<Coin>>, picked: seq<Coin>, usedTotal: nat, inputsCount: nat)

  function StackOf(have: map<nat, Row>, digit: nat, lead: nat): seq<Coin> {
    if digit in have && lead in have[digit] then have[digit][lead] else []
  }

  function DustOf(dust: map<Amount, seq<Coin>>, a: Amount): seq<Coin> {
    if a in dust then dust[a] else []
  }

  // ----- the moves -----

  function PutHave(have: map<nat, Row>, o: Coin): map<nat, Row> {
    var d, l := DigitOf(o.amount), LeadOf(o.amount);
    var row := if d in have then have[d] else map[];
    have[d := row[l := StackOf(have, d, l) + [o]]]
  }

  function PutDust(dust: map<Amount, seq<Coin>>, o: Coin): map<Amount, seq<Coin>> {
    dust[o.amount := DustOf(dust, o.amount) + [o]]
  }

  function PopHave(have: map<nat, Row>, digit: nat, lead: nat): map<nat, Row>
    requires StackOf(have, digit, lead) != []
  {
    var uns := have[digit][lead];
    var row := if |uns| == 1 then have[digit] - {lead} else have[digit][lead := uns[..|uns| - 1]];
    if row == map[] then have - {digit} else have[digit := row]
  }

  function PopDust(dust: map<Amount, seq<Coin>>, a: Amount): map<Amount, seq<Coin>>
    requires DustOf(dust, a) != []
  {
    var uns := dust[a];
    if |uns| == 1 then dust - {a} else dust[a := uns[..|uns| - 1]]
  }

  // ----- what they keep -----

  function TotalOf(s: seq<Coin>): nat
    decreases |s|
  {
    if s == [] then 0 else TotalOf(s[..|s| - 1]) + s[|s| - 1].amount
  }

  ghost predicate GoodStack(uns: seq<Coin>, digit: nat, lead: nat) {
    uns != [] && forall i :: 0 <= i < |uns| ==> InPlace(uns[i], digit, lead)
  }

  ghost predicate GoodDust(uns: seq<Coin>, a: Amount) {
    uns != [] && IsDust(a) && forall i :: 0 <= i < |uns| ==> uns[i].amount == a
  }

  ghost predicate GoodRow(row: Row, digit: nat) {
    row != map[] && forall l :: l in row ==> GoodStack(row[l], digit, l)
  }

  /** No empty stack or row, every coin in the stack its amount names, and the
      same for dust. */
  ghost predicate Tidy(c: Coins) {
    && (forall d :: d in c.have ==> GoodRow(c.have[d], d))
    && (forall a :: a in c.dust ==> GoodDust(c.dust[a], a))
  }

  ghost predicate InPlace(o: Coin, digit: nat, lead: nat) {
    !IsDust(o.amount) && DigitOf(o.amount) == digit && LeadOf(o.amount) == lead
  }

  /** How often an output occurs, over all three places. */
  ghost function HeldCount(c: Coins, o: Coin): nat {
    multiset(StackOf(c.have, DigitOf(o.amount), LeadOf(o.amount)))[o] + multiset(DustOf(c.dust, o.amount))[o]
    + multiset(c.picked)[o]
  }

  /** The three places together hold exactly these outputs; the running total
      and count are those of what is picked. */
  ghost predicate Holds(c: Coins, eligible: seq<Coin>) {
    && Tidy(c)
    && (forall o :: HeldCount(c, o) == multiset(eligible)[o])
    && c.usedTotal == TotalOf(c.picked) && c.inputsCount == |c.picked|
  }

  function Pick(c: Coins, o: Coin): Coins {
    c.(picked := c.picked + [o], usedTotal := c.usedTotal + o.amount, inputsCount := c.inputsCount + 1)
  }

  function PickHave(c: Coins, digit: nat, lead: nat): Coins
    requires StackOf(c.have, digit, lead) != []
  {
    var uns := c.have[digit][lead];
    Pick(c.(have := PopHave(c.have, digit, lead)), uns[|uns| - 1])
  }

  function PickDust(c: Coins, a: Amount): Coins
    requires DustOf(c.dust, a) != []
  {
    Pick(c.(dust := PopDust(c.dust, a)), c.dust[a][|c.dust[a]| - 1])
  }

  lemma PopHaveStacks(have: map<nat, Row>, digit: nat, lead: nat, d: nat, l: nat)
    requires StackOf(have, digit, lead) != []
    ensures var uns := have[digit][lead];
            StackOf(PopHave(have, digit, lead), d, l) == if d == digit && l == lead then uns[..|uns| - 1] else StackOf(have, d, l)
  {
    var uns := have[digit][lead];
    var row := if |uns| == 1 then have[digit] - {lead} else have[digit][lead := uns[..|uns| - 1]];
    assert uns[..0] == [];
    assert l != lead ==> (l in row <==> l in have[digit]);
    assert lead in row <==> |uns| > 1;
    if d == digit {
      assert (if l in row then row[l] else []) == if l == lead then uns[..|uns| - 1] else StackOf(have, d, l);
    }
  }

  lemma PutHaveStacks(have: map<nat, Row>, o: Coin, d: nat, l: nat)
    ensures StackOf(PutHave(have, o), d, l)
            == if d == DigitOf(o.amount) && l == LeadOf(o.amount) then StackOf(have, d, l) + [o] else StackOf(have, d, l)
  {
  }

  lemma LastOff(s: seq<Coin>)
    requires s != []
    ensures multiset(s) == multiset(s[..|s| - 1]) + multiset{s[|s| - 1]}
  {
    assert s == s[..|s| - 1] + [s[|s| - 1]];
  }

  lemma TotalPush(s: seq<Coin>, o: Coin)
    ensures TotalOf(s + [o]) == TotalOf(s) + o.amount
  {
    assert (s + [o])[..|s|] == s;
  }

  lemma PickHaveKeeps(c: Coins, digit: nat, lead: nat, eligible: seq<Coin>)
    requires Holds(c, eligible) && StackOf(c.have, digit, lead) != []
    ensures Holds(PickHave(c, digit, lead), eligible)
    ensures InPlace(PickHave(c, digit, lead).picked[|c.picked|], digit, lead)
  {
    hide GoodRow, GoodDust, PopHave;
    PopHaveTidy(c, digit, lead);
    var uns := c.have[digit][lead];
    assert InPlace(uns[|uns| - 1], digit, lead) by { assert GoodRow(c.have[digit], digit); StackGood(c.have[digit], digit, lead); }
    TotalPush(c.picked, uns[|uns| - 1]);
    forall p
      ensures HeldCount(PickHave(c, digit, lead), p) == HeldCount(c, p)
    {
      PickHaveCount(c, digit, lead, p);
    }
  }

  lemma StackGood(row: Row, digit: nat, lead: nat)
    requires GoodRow(row, digit) && lead in row
    ensures GoodStack(row[lead], digit, lead)
  {
  }

  lemma PickHaveCount(c: Coins, digit: nat, lead: nat, p: Coin)
    requires StackOf(c.have, digit, lead) != []
    requires var uns := c.have[digit][lead]; InPlace(uns[|uns| - 1], digit, lead)
    ensures HeldCount(PickHave(c, digit, lead), p) == HeldCount(c, p)
  {
    hide PopHave, IsDust, DigitOf, LeadOf;
    PopHaveStacks(c.have, digit, lead, DigitOf(p.amount), LeadOf(p.amount));
    LastOff(c.have[digit][lead]);
  }

  lemma PopHaveTidy(c: Coins, digit: nat, lead: nat)
    requires Tidy(c) && StackOf(c.have, digit, lead) != []
    ensures Tidy(c.(have := PopHave(c.have, digit, lead)))
  {
    hide InPlace;
    var uns := c.have[digit][lead];
    var row := if |uns| == 1 then c.have[digit] - {lead} else c.have[digit][lead := uns[..|uns| - 1]];
    assert GoodStack(uns, digit, lead);
    assert row != map[] ==> GoodRow(row, digit);
  }

  lemma PickDustKeeps(c: Coins, a: Amount, eligible: seq<Coin>)
    requires Holds(c, eligible) && DustOf(c.dust, a) != []
    ensures Holds(PickDust(c, a), eligible)
    ensures PickDust(c, a).picked[|c.picked|].amount == a && IsDust(a)
  {
    hide GoodRow, IsDust;
    var uns := c.dust[a];
    assert GoodDust(uns, a);
    TotalPush(c.picked, uns[|uns| - 1]);
    forall p
      ensures HeldCount(PickDust(c, a), p) == HeldCount(c, p)
    {
      PickDustCount(c, a, p);
    }
  }

  lemma PickDustCount(c: Coins, a: Amount, p: Coin)
    requires DustOf(c.dust, a) != []
    requires c.dust[a][|c.dust[a]| - 1].amount == a
    ensures HeldCount(PickDust(c, a), p) == HeldCount(c, p)
  {
    hide StackOf, DigitOf, LeadOf;
    LastOff(c.dust[a]);
  }

  /** One picked coin put back where its amount belongs. */
  function PutBack(c: Coins, o: Coin): Coins {
    if o.dust then c.(dust := PutDust(c.dust, o)) else c.(have := PutHave(c.have, o))
  }

  lemma PutBackTidy(c: Coins, o: Coin)
    requires Tidy(c) && o.dust == IsDust(o.amount)
    ensures Tidy(PutBack(c, o))
  {
    hide IsDust, DigitOf, LeadOf;
    if o.dust {
      assert c.dust.Keys <= PutBack(c, o).dust.Keys;
      assert GoodDust(DustOf(c.dust, o.amount) + [o], o.amount);
    } else {
      var d, l := DigitOf(o.amount), LeadOf(o.amount);
      var row := if d in c.have then c.have[d] else map[];
      PushGood(StackOf(c.have, d, l), o);
      assert l in row[l := StackOf(c.have, d, l) + [o]];
      assert GoodRow(row[l := StackOf(c.have, d, l) + [o]], d);
    }
  }

  lemma PushGood(uns: seq<Coin>, o: Coin)
    requires !IsDust(o.amount)
    requires uns == [] || GoodStack(uns, DigitOf(o.amount), LeadOf(o.amount))
    ensures GoodStack(uns + [o], DigitOf(o.amount), LeadOf(o.amount))
  {
  }

  lemma PutBackCounts(c: Coins, o: Coin, p: Coin)
    requires o.dust == IsDust(o.amount)
    ensures HeldCount(PutBack(c, o), p) == HeldCount(c, p) + (if p == o then 1 else 0)
  {
    hide IsDust, PutHave;
    if !o.dust {
      PutHaveStacks(c.have, o, DigitOf(p.amount), LeadOf(p.amount));
    }
  }

  // ----- totals of what is held -----

  lemma {:induction false} TotalFront(o: Coin, s: seq<Coin>)
    ensures TotalOf([o] + s) == o.amount + TotalOf(s)
    decreases |s|
  {
    if s == [] {
      assert [o] + s == [o];
      assert TotalOf([]) == 0;
      assert [o][..0] == [];
    } else {
      TotalFront(o, s[..|s| - 1]);
      assert ([o] + s)[..|s|] == [o] + s[..|s| - 1];
    }
  }

  lemma {:induction false} TotalJoin(s: seq<Coin>, t: seq<Coin>)
    ensures TotalOf(s + t) == TotalOf(s) + TotalOf(t)
    decreases |t|
  {
    if t == [] {
      assert s + t == s;
    } else {
      TotalJoin(s, t[..|t| - 1]);
      assert (s + t)[..|s + t| - 1] == s + t[..|t| - 1];
    }
  }

  /** A collection of coins drawn from another is no longer and no richer. */
  lemma {:induction false} TotalWithin(s: seq<Coin>, t: seq<Coin>)
    requires multiset(s) <= multiset(t)
    ensures TotalOf(s) <= TotalOf(t) && |s| <= |t|
    decreases |s|
  {
    if s != [] {
      var o := s[|s| - 1];
      LastOff(s);
      assert o in multiset(s);
      var i :| 0 <= i < |t| && t[i] == o;
      TakenOut(t, i);
      Cancel(multiset(s[..|s| - 1]), multiset(t[..i] + t[i + 1..]), o);
      TotalWithin(s[..|s| - 1], t[..i] + t[i + 1..]);
    }
  }

  lemma Cancel(a: multiset<Coin>, b: multiset<Coin>, o: Coin)
    requires a + multiset{o} <= b + multiset{o}
    ensures a <= b
  {
    forall p
      ensures a[p] <= b[p]
    {
      assert (a + multiset{o})[p] <= (b + multiset{o})[p];
    }
  }

  lemma TakenOut(t: seq<Coin>, i: nat)
    requires i < |t|
    ensures var u := t[..i] + t[i + 1..];
            TotalOf(t) == TotalOf(u) + t[i].amount && multiset(t) == multiset(u) + multiset{t[i]}
  {
    assert t == t[..i] + ([t[i]] + t[i + 1..]);
    TotalJoin(t[..i], [t[i]] + t[i + 1..]);
    TotalFront(t[i], t[i + 1..]);
    TotalJoin(t[..i], t[i + 1..]);
  }

  /** The coins a selection may use: with mixing, no dust. */
  function Usable(e: seq<Coin>, anonymity: nat): seq<Coin>
    decreases |e|
  {
    if e == [] then [] else
    var o := e[|e| - 1];
    Usable(e[..|e| - 1], anonymity) + if anonymity == 0 || !IsDust(o.amount) then [o] else []
  }

  lemma {:induction false} UsableCount(e: seq<Coin>, anonymity: nat, o: Coin)
    ensures multiset(Usable(e, anonymity))[o] == if anonymity == 0 || !IsDust(o.amount) then multiset(e)[o] else 0
    decreases |e|
  {
    hide IsDust;
    if e != [] {
      UsableCount(e[..|e| - 1], anonymity, o);
      LastOff(e);
    }
  }

  ghost predicate NoDustPicked(s: seq<Coin>) {
    forall i :: 0 <= i < |s| ==> !IsDust(s[i].amount)
  }

  lemma PickedUsable(c: Coins, e: seq<Coin>, anonymity: nat)
    requires Holds(c, e) && (anonymity != 0 ==> NoDustPicked(c.picked))
    ensures multiset(c.picked) <= multiset(Usable(e, anonymity)) && multiset(c.picked) <= multiset(e)
    ensures c.usedTotal <= TotalOf(Usable(e, anonymity)) && c.inputsCount == |c.picked| <= |e|
  {
    hide Tidy, IsDust;
    forall o
      ensures multiset(c.picked)[o] <= multiset(e)[o] && multiset(c.picked)[o] <= multiset(Usable(e, anonymity))[o]
    {
      assert HeldCount(c, o) == multiset(e)[o];
      UsableCount(e, anonymity, o);
      if multiset(c.picked)[o] > 0 {
        assert o in c.picked;
      }
    }
    TotalWithin(c.picked, Usable(e, anonymity));
    TotalWithin(c.picked, e);
  }

  /** When nothing usable is left, everything usable is picked. */
  lemma AllPicked(c: Coins, e: seq<Coin>, anonymity: nat)
    requires Holds(c, e) && (anonymity != 0 ==> NoDustPicked(c.picked))
    requires c.have == map[] && (anonymity == 0 ==> c.dust == map[])
    ensures c.usedTotal == TotalOf(Usable(e, anonymity))
  {
    PickedUsable(c, e, anonymity);
    forall o
      ensures multiset(Usable(e, anonymity))[o] <= multiset(c.picked)[o]
    {
      hide IsDust;
      assert HeldCount(c, o) == multiset(e)[o];
      UsableCount(e, anonymity, o);
      if !IsDust(o.amount) {
        DustHasNone(c, o);
      }
    }
    TotalWithin(Usable(e, anonymity), c.picked);
  }

  lemma DustHasNone(c: Coins, o: Coin)
    requires Tidy(c) && !IsDust(o.amount)
    ensures DustOf(c.dust, o.amount) == []
  {
    hide GoodRow, IsDust;
    assert o.amount in c.dust ==> GoodDust(c.dust[o.amount], o.amount);
  }
}
