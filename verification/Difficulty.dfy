// The proof-of-work comparison: a 256-bit hash times a 64-bit difficulty.
module Difficulty {
  import opened Basics
  import opened WideInt

  /** a + b overflows 64 bits. */
  predicate Cadd(a: nat, b: nat) {
    (a + b) % WORD < a
  }

  predicate Cadc(a: nat, b: nat, c: bool) {
    (a + b) % WORD < a || (c && (a + b) % WORD == WORD - 1)
  }

  lemma CaddExact(a: nat, b: nat)
    requires a < WORD && b < WORD
    ensures Cadd(a, b) <==> a + b >= WORD
  {
  }

  lemma CadcExact(a: nat, b: nat, c: bool)
    requires a < WORD && b < WORD
    ensures Cadc(a, b, c) <==> a + b + (if c then 1 else 0) >= WORD
  {
  }

  /** The four words of a hash, least significant first. */
  datatype Hash = Hash(w0: nat, w1: nat, w2: nat, w3: nat)
  {
    predicate Valid() {
      w0 < WORD && w1 < WORD && w2 < WORD && w3 < WORD
    }

    function Value(): nat {
      w0 + w1 * WORD + w2 * (WORD * WORD) + w3 * (WORD * WORD * WORD)
    }
  }

  /** check_hash. */
  predicate CheckHash(h: Hash, difficulty: nat) {
    var t := Mul128(h.w3, difficulty);
    if t.hi != 0 then false else
    var p0 := Mul128(h.w0, difficulty);
    var p1 := Mul128(h.w1, difficulty);
    var carry1 := Cadd(p0.hi, p1.lo);
    var p2 := Mul128(h.w2, difficulty);
    var carry2 := Cadc(p1.hi, p2.lo, carry1);
    !Cadc(p2.hi, t.lo, carry2)
  }

  lemma Columns(h: Hash, d: nat)
    ensures h.Value() * d == h.w0 * d + h.w1 * d * WORD + h.w2 * d * (WORD * WORD) + h.w3 * d * (WORD * WORD * WORD)
  {
  }

  /** With the carries where they belong, the last one says whether the four
      words overflow. */
  lemma Overflows(p0: Wide, p1: Wide, p2: Wide, t: nat)
    requires p0.hi < WORD && p0.lo < WORD && p1.hi < WORD && p1.lo < WORD && p2.hi < WORD && p2.lo < WORD && t < WORD
    ensures Cadc(p2.hi, t, Cadc(p1.hi, p2.lo, Cadd(p0.hi, p1.lo))) <==>
            p0.Value() + p1.Value() * WORD + p2.Value() * (WORD * WORD) + t * (WORD * WORD * WORD) >= WORD * WORD * WORD * WORD
  {
    var c1 := Cadd(p0.hi, p1.lo);
    var c2 := Cadc(p1.hi, p2.lo, c1);
    var c3 := Cadc(p2.hi, t, c2);
    CaddExact(p0.hi, p1.lo);
    CadcExact(p1.hi, p2.lo, c1);
    CadcExact(p2.hi, t, c2);
    hide Cadd, Cadc;
    var x1 := p0.hi + p1.lo - if c1 then WORD else 0;
    var x2 := p1.hi + p2.lo + (if c1 then 1 else 0) - if c2 then WORD else 0;
    var x3 := p2.hi + t + (if c2 then 1 else 0) - if c3 then WORD else 0;
    Words(p0.lo, x1, x2, x3);
    assert p0.Value() + p1.Value() * WORD + p2.Value() * (WORD * WORD) + t * (WORD * WORD * WORD)
        == p0.lo + x1 * WORD + x2 * (WORD * WORD) + x3 * (WORD * WORD * WORD)
           + if c3 then WORD * WORD * WORD * WORD else 0;
  }

  lemma Words(x0: int, x1: int, x2: int, x3: int)
    requires 0 <= x0 < WORD && 0 <= x1 < WORD && 0 <= x2 < WORD && 0 <= x3 < WORD
    ensures 0 <= x0 + x1 * WORD + x2 * (WORD * WORD) + x3 * (WORD * WORD * WORD) < WORD * WORD * WORD * WORD
  {
  }

  /** A hash passes exactly when its product with the difficulty stays below
      two to the 256. */
  lemma CheckHashExact(h: Hash, difficulty: nat)
    requires h.Valid() && difficulty < WORD
    ensures CheckHash(h, difficulty) <==> h.Value() * difficulty < WORD * WORD * WORD * WORD
  {
    hide Mul128, Cadd, Cadc;
    Mul128Exact(h.w0, difficulty);
    Mul128Exact(h.w1, difficulty);
    Mul128Exact(h.w2, difficulty);
    Mul128Exact(h.w3, difficulty);
    Columns(h, difficulty);
    Overflows(Mul128(h.w0, difficulty), Mul128(h.w1, difficulty), Mul128(h.w2, difficulty), Mul128(h.w3, difficulty).lo);
  }
}
