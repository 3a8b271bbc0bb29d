// Fixed-length big-endian numerals in any base.
module Numerals {
  type Byte = b: nat | b < 256

  function Pow(b: nat, n: nat): (r: nat)
    requires b >= 1
    ensures r >= 1
  {
    if n == 0 then 1 else b * Pow(b, n - 1)
  }

  ghost predicate Numeral(b: nat, ds: seq<nat>) {
    forall i :: 0 <= i < |ds| ==> ds[i] < b
  }

  function Value(b: nat, ds: seq<nat>): nat
    decreases |ds|
  {
    if ds == [] then 0 else Value(b, ds[..|ds| - 1]) * b + ds[|ds| - 1]
  }

  /** The n-digit numeral of a number, leading zeros included. */
  function Digits(b: nat, n: nat, v: nat): (r: seq<nat>)
    requires b >= 1
    ensures |r| == n && Numeral(b, r)
  {
    if n == 0 then [] else Digits(b, n - 1, v / b) + [v % b]
  }

  function Bytes(ds: seq<nat>): (r: seq<Byte>)
    requires Numeral(256, ds)
    ensures r == ds
    decreases |ds|
  {
    if ds == [] then [] else Bytes(ds[..|ds| - 1]) + [ds[|ds| - 1] as Byte]
  }

  lemma {:induction false} MulStrict(p: nat, q: nat, b: nat)
    ensures p < q ==> p * b + b <= q * b
    ensures p <= q ==> p * b <= q * b
    decreases q
  {
    if p < q {
      MulStrict(p, q - 1, b);
      assert q * b == (q - 1) * b + b;
    }
  }

  lemma DivIs(v: nat, b: nat)
    requires b >= 1
    ensures v == v / b * b + v % b
  {
  }

  lemma DivLess(v: nat, b: nat, p: nat)
    requires b >= 1 && v < b * p
    ensures v / b < p
  {
    MulStrict(p, v / b, b);
    DivIs(v, b);
  }

  lemma ValuePush(b: nat, front: seq<nat>, last: nat)
    ensures Value(b, front + [last]) == Value(b, front) * b + last
  {
    assert (front + [last])[..|front|] == front;
  }

  lemma {:induction false} ValueOfDigits(b: nat, n: nat, v: nat)
    requires b >= 1 && v < Pow(b, n)
    ensures Value(b, Digits(b, n, v)) == v
    decreases n
  {
    if n > 0 {
      DivLess(v, b, Pow(b, n - 1));
      ValueOfDigits(b, n - 1, v / b);
      DivIs(v, b);
      var front, last := Digits(b, n - 1, v / b), v % b;
      assert Digits(b, n, v) == front + [last];
      ValuePush(b, front, last);
    }
  }

  lemma DivMod(q: nat, b: nat, r: nat)
    requires b >= 1 && r < b
    ensures (q * b + r) / b == q && (q * b + r) % b == r
  {
    var x := q * b + r;
    var y := x / b;
    DivIs(x, b);
    MulStrict(q, y, b);
    MulStrict(y, q, b);
  }

  lemma {:induction false} DigitsOfValue(b: nat, ds: seq<nat>)
    requires b >= 1 && Numeral(b, ds)
    ensures Digits(b, |ds|, Value(b, ds)) == ds && Value(b, ds) < Pow(b, |ds|)
    decreases |ds|
  {
    if ds != [] {
      var front, last := ds[..|ds| - 1], ds[|ds| - 1];
      DigitsOfValue(b, front);
      DivMod(Value(b, front), b, last);
      ValueBelow(Value(b, front), b, last, Pow(b, |front|));
    }
  }

  lemma ValueBelow(q: nat, b: nat, r: nat, p: nat)
    requires q < p && r < b
    ensures q * b + r < b * p
  {
    assert (q + 1) * b <= p * b;
    assert (q + 1) * b == q * b + b;
  }

  lemma {:induction false} PowGrows(b: nat, m: nat, n: nat)
    requires b >= 1 && m <= n
    ensures Pow(b, m) <= Pow(b, n)
    decreases n
  {
    if m < n {
      PowGrows(b, m, n - 1);
      assert b * Pow(b, n - 1) >= Pow(b, n - 1);
    }
  }

  lemma {:induction false} PowAdd(b: nat, m: nat, n: nat)
    requires b >= 1
    ensures Pow(b, m + n) == Pow(b, m) * Pow(b, n)
    decreases n
  {
    if n > 0 {
      PowAdd(b, m, n - 1);
      assert b * (Pow(b, m) * Pow(b, n - 1)) == Pow(b, m) * (b * Pow(b, n - 1));
    }
  }

  /** A numeral read as its first digit and the rest. */
  lemma {:induction false} ValueFirst(b: nat, d: nat, ds: seq<nat>)
    requires b >= 1
    ensures Value(b, [d] + ds) == d * Pow(b, |ds|) + Value(b, ds)
    decreases |ds|
  {
    if ds == [] {
      assert [d] + ds == [d];
      assert [d][..0] == [];
    } else {
      var front, last := ds[..|ds| - 1], ds[|ds| - 1];
      ValueFirst(b, d, front);
      assert ([d] + ds)[..|ds|] == [d] + front;
      assert (d * Pow(b, |front|) + Value(b, front)) * b == d * (b * Pow(b, |front|)) + Value(b, front) * b;
    }
  }
}
