// common::Uint128: two 64-bit words with carry, the type of every balance.
module Int128 {
  import opened Basics

  type u64 = n: nat | n < WORD

  datatype Uint128 = Uint128(hi: u64, lo: u64) {
    function Value(): nat {
      hi * WORD + lo
    }
  }

  const ZERO := Uint128(0, 0)

  function Word(n: int): (r: u64)
    ensures r == n % WORD
  {
    n % WORD
  }

  /** operator+= : the carry is seen as the low word getting smaller. */
  function Add(a: Uint128, b: Uint128): Uint128 {
    var hi := Word(a.hi + b.hi);
    var lo := Word(a.lo + b.lo);
    Uint128(if lo < a.lo then Word(hi + 1) else hi, lo)
  }

  /** operator-= : the borrow is decided before the low words are subtracted. */
  function Sub(a: Uint128, b: Uint128): Uint128 {
    var hi := Word(a.hi - b.hi);
    Uint128(if a.lo < b.lo then Word(hi - 1) else hi, Word(a.lo - b.lo))
  }

  function Less(a: Uint128, b: Uint128): bool {
    a.hi < b.hi || (a.hi == b.hi && a.lo < b.lo)
  }

  /** An integer in 128-bit arithmetic. */
  function FromInt(n: int): Uint128 {
    Uint128(Word(n / WORD), Word(n))
  }

  lemma DivMod(x: int, q: int, r: int)
    requires x == q * WORD + r && 0 <= r < WORD
    ensures x / WORD == q && x % WORD == r
  {
  }

  lemma WordShift(x: int, k: int)
    ensures Word(x + k * WORD) == Word(x)
  {
    DivMod(x + k * WORD, x / WORD + k, x % WORD);
  }

  lemma WordSum(m: int, n: int)
    ensures Word(Word(m) + n) == Word(m + n) && Word(m + Word(n)) == Word(m + n) && Word(Word(m) - Word(n)) == Word(m - n)
  {
    WordShift(m + n, -(m / WORD));
    WordShift(m + n, -(n / WORD));
    WordShift(m - n, n / WORD - m / WORD);
  }

  /** Addition of balances is addition of integers, modulo 2^128. */
  lemma AddInts(m: int, n: int)
    ensures Add(FromInt(m), FromInt(n)) == FromInt(m + n)
  {
    var carry := if m % WORD + n % WORD >= WORD then 1 else 0;
    DivMod(m + n, m / WORD + n / WORD + carry, m % WORD + n % WORD - carry * WORD);
    DivMod(m % WORD + n % WORD, carry, m % WORD + n % WORD - carry * WORD);
    WordSum(m / WORD, n / WORD);
    WordSum(m / WORD, Word(n / WORD));
    WordSum(m / WORD + n / WORD, 1);
  }

  lemma SubInts(m: int, n: int)
    ensures Sub(FromInt(m), FromInt(n)) == FromInt(m - n)
  {
    var borrow := if m % WORD < n % WORD then 1 else 0;
    DivMod(m - n, m / WORD - n / WORD - borrow, m % WORD - n % WORD + borrow * WORD);
    DivMod(m % WORD - n % WORD, -borrow, m % WORD - n % WORD + borrow * WORD);
    WordSum(m / WORD, n / WORD);
    WordSum(m / WORD - n / WORD, -1);
  }

  lemma ValueOfInt(n: int)
    ensures FromInt(n).Value() == n % (WORD * WORD)
  {
  }

  lemma IntOfValue(a: Uint128)
    ensures FromInt(a.Value()) == a
  {
  }

  /** The word-wise operators are arithmetic modulo 2^128, and the comparison of
      words is the comparison of values. */
  lemma OperatorsExact(a: Uint128, b: Uint128)
    ensures Add(a, b).Value() == (a.Value() + b.Value()) % (WORD * WORD)
    ensures Sub(a, b).Value() == (a.Value() - b.Value()) % (WORD * WORD)
    ensures Less(a, b) <==> a.Value() < b.Value()
    ensures Sub(Add(a, b), b) == a
  {
    IntOfValue(a);
    IntOfValue(b);
    AddInts(a.Value(), b.Value());
    SubInts(a.Value(), b.Value());
    SubInts(a.Value() + b.Value(), b.Value());
    ValueOfInt(a.Value() + b.Value());
    ValueOfInt(a.Value() - b.Value());
  }
}
