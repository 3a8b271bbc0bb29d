// Base58 in blocks of eight bytes: each block is one number, written in a
// fixed number of letters.
module Base58 {
  import opened Basics
  import opened Numerals

  const FULL_BLOCK := 8
  const FULL_ENCODED_BLOCK := 11

  function EncodedSize(n: nat): nat
    requires n <= FULL_BLOCK
  {
    [0, 2, 3, 5, 6, 7, 9, 10, 11][n]
  }

  /** decoded_block_sizes: no block has the other lengths. */
  function DecodedSize(n: nat): (r: Option<nat>)
    ensures r.Some? ==> r.value <= FULL_BLOCK && EncodedSize(r.value) == n
    ensures r.None? ==> forall k :: 0 <= k <= FULL_BLOCK ==> EncodedSize(k) != n
  {
    match n
    case 0 => Some(0)
    case 2 => Some(1)
    case 3 => Some(2)
    case 5 => Some(3)
    case 6 => Some(4)
    case 7 => Some(5)
    case 9 => Some(6)
    case 10 => Some(7)
    case 11 => Some(8)
    case _ => None
  }

  // ----- letters -----

  function Shift(c: char, d: nat): char
    requires d < 26 && c <= 'm'
  {
    ((c as int) + d) as char
  }

  /** The nine digits, the capitals without I and O, the small letters
      without l. */
  function Letter(d: nat): char
    requires d < 58
  {
    if d < 9 then Shift('1', d)
    else if d < 17 then Shift('A', d - 9)
    else if d < 22 then Shift('J', d - 17)
    else if d < 33 then Shift('P', d - 22)
    else if d < 44 then Shift('a', d - 33)
    else Shift('m', d - 44)
  }

  /** The alphabet ascends, so no letter stands for two digits. */
  lemma LettersDiffer(i: nat, j: nat)
    requires i < j < 58
    ensures Letter(i) < Letter(j)
  {
  }

  /** reverse_alphabet; None is -1. */
  function DigitOf(c: char): (r: Option<nat>)
    ensures r.Some? ==> r.value < 58 && Letter(r.value) == c
    ensures r.None? ==> forall d :: 0 <= d < 58 ==> Letter(d) != c
  {
    Search(c, 58)
  }

  function Search(c: char, n: nat): (r: Option<nat>)
    requires n <= 58
    ensures r.Some? ==> r.value < n && Letter(r.value) == c
    ensures r.None? ==> forall d :: 0 <= d < n ==> Letter(d) != c
  {
    if n == 0 then None
    else if Letter(n - 1) == c then Some(n - 1) else Search(c, n - 1)
  }

  lemma DigitOfLetter(d: nat)
    requires d < 58
    ensures DigitOf(Letter(d)) == Some(d)
  {
    var r := DigitOf(Letter(d)).value;
    if r < d {
      LettersDiffer(r, d);
    } else if d < r {
      LettersDiffer(d, r);
    }
  }

  function Letters(ds: seq<nat>): (r: string)
    requires Numeral(58, ds)
    ensures |r| == |ds| && forall i :: 0 <= i < |r| ==> r[i] == Letter(ds[i])
    decreases |ds|
  {
    if ds == [] then [] else Letters(ds[..|ds| - 1]) + [Letter(ds[|ds| - 1])]
  }

  function DigitsOf(s: string): (r: Option<seq<nat>>)
    ensures r.Some? ==> |r.value| == |s| && Numeral(58, r.value)
    decreases |s|
  {
    if s == [] then Some([]) else
    var front :- DigitsOf(s[..|s| - 1]);
    var d :- DigitOf(s[|s| - 1]);
    Some(front + [d])
  }

  lemma {:induction false} DigitsOfLetters(ds: seq<nat>)
    requires Numeral(58, ds)
    ensures DigitsOf(Letters(ds)) == Some(ds)
    decreases |ds|
  {
    hide Letter, DigitOf;
    if ds != [] {
      var front := ds[..|ds| - 1];
      DigitsOfLetters(front);
      DigitOfLetter(ds[|ds| - 1]);
      assert Letters(ds) == Letters(front) + [Letter(ds[|ds| - 1])];
      assert Letters(ds)[..|ds| - 1] == Letters(front);
      assert ds == front + [ds[|ds| - 1]];
    }
  }

  lemma {:induction false} LettersOfDigits(s: string)
    requires DigitsOf(s).Some?
    ensures Letters(DigitsOf(s).value) == s
    decreases |s|
  {
    hide Letter, DigitOf;
    if s != [] {
      LettersOfDigits(s[..|s| - 1]);
      var ds := DigitsOf(s).value;
      assert ds[..|ds| - 1] == DigitsOf(s[..|s| - 1]).value;
    }
  }

  // ----- one block -----

  function EncodeBlock(b: seq<Byte>): (r: string)
    requires 1 <= |b| <= FULL_BLOCK
    ensures |r| == EncodedSize(|b|)
  {
    Letters(Digits(58, EncodedSize(|b|), Value(256, b)))
  }

  /** decode_block: None for a wrong length, a wrong letter or a number too
      large for its bytes. */
  function DecodeBlock(s: string): (r: Option<seq<Byte>>)
    ensures r.Some? ==> 1 <= |r.value| <= FULL_BLOCK && EncodedSize(|r.value|) == |s|
  {
    var size :- DecodedSize(|s|);
    if size == 0 then None else
    var ds :- DigitsOf(s);
    var v := Value(58, ds);
    if v >= WORD || (size < FULL_BLOCK && v >= Pow(256, size)) then None
    else Some(Bytes(Digits(256, size, v)))
  }

  lemma Powers()
    ensures Pow(256, 1) == 0x100 && Pow(256, 2) == 0x1_0000 && Pow(256, 3) == 0x100_0000 && Pow(256, 4) == 0x1_0000_0000
    ensures Pow(256, 5) == 0x100_0000_0000 && Pow(256, 6) == 0x1_0000_0000_0000 && Pow(256, 7) == 0x100_0000_0000_0000
    ensures Pow(256, 8) == WORD
  {
    assert Pow(256, 2) == 256 * Pow(256, 1);
    assert Pow(256, 4) == 0x1_0000 * Pow(256, 2);
    assert Pow(256, 6) == 0x1_0000 * Pow(256, 4);
    assert Pow(256, 8) == 0x1_0000 * Pow(256, 6);
  }

  lemma Powers58()
    ensures Pow(58, 2) == 3364 && Pow(58, 3) == 195112 && Pow(58, 5) == 656356768 && Pow(58, 6) == 38068692544
    ensures Pow(58, 7) == 2207984167552 && Pow(58, 9) == 7427658739644928 && Pow(58, 10) == 430804206899405824
    ensures Pow(58, 11) == 24986644000165537792
  {
    assert Pow(58, 2) == 58 * Pow(58, 1);
    assert Pow(58, 4) == 58 * Pow(58, 3) == 11316496;
    assert Pow(58, 6) == 3364 * Pow(58, 4);
    assert Pow(58, 8) == 3364 * Pow(58, 6) == 128063081718016;
    assert Pow(58, 10) == 3364 * Pow(58, 8);
  }

  /** The letters of a block are enough for every value of its bytes. */
  lemma BlockFits(n: nat)
    requires 1 <= n <= FULL_BLOCK
    ensures Pow(256, n) <= Pow(58, EncodedSize(n)) && Pow(256, n) <= WORD
    ensures n == FULL_BLOCK ==> Pow(256, n) == WORD
  {
    hide Pow;
    Powers();
    Powers58();
  }

  lemma BlockRoundTrip(b: seq<Byte>)
    requires 1 <= |b| <= FULL_BLOCK
    ensures DecodeBlock(EncodeBlock(b)) == Some(b)
  {
    hide Digits, Value, Pow, DigitsOf, Letters;
    var n, v := EncodedSize(|b|), Value(256, b);
    DigitsOfValue(256, b);
    BlockFits(|b|);
    ValueOfDigits(58, n, v);
    DigitsOfLetters(Digits(58, n, v));
    SizeBack(|b|);
  }

  lemma SizeBack(n: nat)
    requires n <= FULL_BLOCK
    ensures DecodedSize(EncodedSize(n)) == Some(n)
  {
  }

  lemma BlockCanonical(s: string)
    requires DecodeBlock(s).Some?
    ensures EncodeBlock(DecodeBlock(s).value) == s
  {
    hide Digits, Value, Pow, DigitsOf, Letters;
    var size := DecodedSize(|s|).value;
    var ds := DigitsOf(s).value;
    var v := Value(58, ds);
    BlockFits(size);
    ValueOfDigits(256, size, v);
    DigitsOfValue(58, ds);
    LettersOfDigits(s);
  }

  // ----- whole strings -----

  function Encode(d: seq<Byte>): string
    decreases |d|
  {
    if d == [] then []
    else if |d| < FULL_BLOCK then EncodeBlock(d)
    else EncodeBlock(d[..FULL_BLOCK]) + Encode(d[FULL_BLOCK..])
  }

  function Decode(s: string): Option<seq<Byte>>
    decreases |s|
  {
    if s == [] then Some([])
    else if |s| < FULL_ENCODED_BLOCK then DecodeBlock(s)
    else
      var first :- DecodeBlock(s[..FULL_ENCODED_BLOCK]);
      var rest :- Decode(s[FULL_ENCODED_BLOCK..]);
      Some(first + rest)
  }

  /** Every byte string decodes to itself. */
  lemma {:induction false} RoundTrip(d: seq<Byte>)
    ensures Decode(Encode(d)) == Some(d)
    decreases |d|
  {
    hide EncodeBlock, DecodeBlock;
    if d != [] && |d| < FULL_BLOCK {
      BlockRoundTrip(d);
    } else if d != [] {
      var first, rest := d[..FULL_BLOCK], d[FULL_BLOCK..];
      BlockRoundTrip(first);
      RoundTrip(rest);
      assert Encode(d)[..FULL_ENCODED_BLOCK] == EncodeBlock(first);
      assert Encode(d)[FULL_ENCODED_BLOCK..] == Encode(rest);
      assert d == first + rest;
    }
  }

  /** Every accepted string is the encoding of what it decodes to. */
  lemma {:induction false} Canonical(s: string)
    requires Decode(s).Some?
    ensures Encode(Decode(s).value) == s
    decreases |s|
  {
    hide EncodeBlock, DecodeBlock;
    if s != [] && |s| < FULL_ENCODED_BLOCK {
      BlockCanonical(s);
    } else if s != [] {
      var first := DecodeBlock(s[..FULL_ENCODED_BLOCK]).value;
      var rest := Decode(s[FULL_ENCODED_BLOCK..]).value;
      BlockCanonical(s[..FULL_ENCODED_BLOCK]);
      Canonical(s[FULL_ENCODED_BLOCK..]);
      assert |first| == FULL_BLOCK;
      assert (first + rest)[..FULL_BLOCK] == first && (first + rest)[FULL_BLOCK..] == rest;
    }
  }
}
