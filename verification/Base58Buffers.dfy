// Base58 as it is computed: letters written in place from the back of a
// buffer, 64-bit arithmetic with overflow detection on the way in.
module Base58Buffers {
  import opened Basics
  import opened Numerals
  import opened Base58

  // ----- uint_8be_to_64 and uint_64_to_8be -----

  method Uint8beTo64(data: seq<Byte>) returns (res: nat)
    requires 1 <= |data| <= FULL_BLOCK
    ensures res == Value(256, data) < WORD
  {
    res := 0;
    for n := 0 to |data|
      invariant res == Value(256, data[..n]) < Pow(256, n)
    {
      assert data[..n + 1][..n] == data[..n];
      Below64(n, |data|);
      DigitsOfValue(256, data[..n + 1]);
      res := res * 256 % WORD + data[n];
    }
    assert data[..|data|] == data;
    BlockFits(|data|);
  }

  lemma Below64(n: nat, size: nat)
    requires n < size <= FULL_BLOCK
    ensures forall v: nat :: v < Pow(256, n) ==> v * 256 < WORD
  {
    BlockFits(n + 1);
    assert Pow(256, n + 1) == 256 * Pow(256, n);
  }

  /** The last bytes of the eight. */
  method Uint64To8be(num: nat, size: nat) returns (data: seq<Byte>)
    requires 1 <= size <= FULL_BLOCK && num < WORD
    ensures data == Digits(256, size, num)
  {
    var eight := Digits(256, FULL_BLOCK, num);
    DigitsTail(256, FULL_BLOCK, size, num);
    data := Bytes(eight[FULL_BLOCK - size..]);
  }

  lemma {:induction false} DigitsTail(b: nat, n: nat, m: nat, v: nat)
    requires b >= 1 && m <= n
    ensures Digits(b, n, v)[n - m..] == Digits(b, m, v)
    decreases m
  {
    if m > 0 {
      DigitsTail(b, n - 1, m - 1, v / b);
      assert Digits(b, n, v) == Digits(b, n - 1, v / b) + [v % b];
    }
  }

  // ----- one block -----

  /** Only the letters up to the first digit that is not zero are written. */
  method EncodeBlockAt(block: seq<Byte>, res: array<char>, off: nat)
    requires 1 <= |block| <= FULL_BLOCK && off + EncodedSize(|block|) <= res.Length
    requires forall k :: off <= k < off + EncodedSize(|block|) ==> res[k] == Letter(0)
    modifies res
    ensures res[off..off + EncodedSize(|block|)] == EncodeBlock(block)
    ensures forall k :: 0 <= k < res.Length && !(off <= k < off + EncodedSize(|block|)) ==> res[k] == old(res[k])
  {
    var num := Uint8beTo64(block);
    DigitsOfValue(256, block);
    BlockFits(|block|);
    hide Pow, Value, Digits, Letter;
    WriteDigits(num, EncodedSize(|block|), res, off);
    assert res[off..off + EncodedSize(|block|)] == EncodeBlock(block);
  }

  method WriteDigits(value: nat, size: nat, res: array<char>, off: nat)
    requires off + size <= res.Length && value < Pow(58, size)
    requires forall k :: off <= k < off + size ==> res[k] == Letter(0)
    modifies res
    ensures forall k :: off <= k < off + size ==> res[k] == Letter(Digits(58, size, value)[k - off])
    ensures forall k :: 0 <= k < res.Length && !(off <= k < off + size) ==> res[k] == old(res[k])
  {
    hide Pow, Digits, Letter;
    ghost var ds := Digits(58, size, value);
    var num: nat := value;
    var i: int := size - 1;
    while 0 < num
      invariant -1 <= i < size && num < Pow(58, i + 1)
      invariant ds[..i + 1] == Digits(58, i + 1, num)
      invariant forall k :: off <= k <= off + i ==> res[k] == Letter(0)
      invariant forall k :: off + i < k < off + size ==> res[k] == Letter(ds[k - off])
      invariant forall k :: 0 <= k < res.Length && !(off <= k < off + size) ==> res[k] == old(res[k])
      decreases num
    {
      OneDigit(i + 1, num);
      assert ds[i] == ds[..i + 1][i];
      assert ds[..i] == ds[..i + 1][..i];
      var remainder := num % 58;
      num := num / 58;
      res[off + i] := Letter(remainder);
      i := i - 1;
    }
    ZeroDigits(58, i + 1);
    assert forall k :: 0 <= k <= i ==> ds[k] == ds[..i + 1][k];
  }

  lemma OneDigit(n: nat, num: nat)
    requires 0 < num < Pow(58, n)
    ensures n > 0 && num / 58 < Pow(58, n - 1) && num / 58 < num
    ensures Digits(58, n, num)[n - 1] == num % 58 && Digits(58, n, num)[..n - 1] == Digits(58, n - 1, num / 58)
  {
    DivLess(num, 58, Pow(58, n - 1));
  }

  lemma {:induction false} ZeroDigits(b: nat, n: nat)
    requires b >= 1
    ensures forall k :: 0 <= k < n ==> Digits(b, n, 0)[k] == 0
    decreases n
  {
    if n > 0 {
      ZeroDigits(b, n - 1);
    }
  }

  lemma {:induction false} ValueJoin(b: nat, front: seq<nat>, back: seq<nat>)
    requires b >= 1
    ensures Value(b, front + back) == Value(b, front) * Pow(b, |back|) + Value(b, back)
    decreases |front|
  {
    if front == [] {
      assert front + back == back;
    } else {
      assert front + back == [front[0]] + (front[1..] + back);
      assert front == [front[0]] + front[1..];
      ValueFirst(b, front[0], front[1..] + back);
      ValueFirst(b, front[0], front[1..]);
      ValueJoin(b, front[1..], back);
      PowAdd(b, |front| - 1, |back|);
      Distribute(front[0], Pow(b, |front| - 1), Value(b, front[1..]), Pow(b, |back|));
    }
  }

  lemma Distribute(d: nat, p: nat, v: nat, q: nat)
    ensures (d * p + v) * q == d * (p * q) + v * q
  {
    assert (d * p) * q == d * (p * q);
  }

  /** One letter more, in 64-bit arithmetic: None is a detected overflow. */
  function AddDigit(resNum: nat, order: nat, digit: nat): Option<nat> {
    var product := order * digit;
    var tmp := (resNum + product % WORD) % WORD;
    if tmp < resNum || product / WORD != 0 then None else Some(tmp)
  }

  /** The detection is exact. */
  lemma AddDigitExact(resNum: nat, order: nat, digit: nat)
    requires resNum < WORD
    ensures AddDigit(resNum, order, digit) == if resNum + order * digit < WORD then Some(resNum + order * digit) else None
  {
    var product := order * digit;
    assert product == product / WORD * WORD + product % WORD;
  }

  method TakeDigit(resNum: nat, order: nat, digit: nat, ghost ds: seq<nat>) returns (tmp: Option<nat>)
    requires resNum == Value(58, ds) < WORD && order == Pow(58, |ds|)
    ensures tmp == if Value(58, [digit] + ds) < WORD then Some(Value(58, [digit] + ds)) else None
  {
    hide Pow, Value, AddDigit;
    ValueFirst(58, digit, ds);
    AddDigitExact(resNum, order, digit);
    Commute(order, digit);
    tmp := AddDigit(resNum, order, digit);
  }

  lemma Commute(a: nat, b: nat)
    ensures a * b == b * a
  {
  }

  method NextOrder(order: nat, ghost n: nat) returns (next: nat)
    requires order == Pow(58, n)
    ensures n < FULL_ENCODED_BLOCK - 1 ==> next == Pow(58, n + 1)
  {
    OrderFits(n);
    hide Pow;
    next := order * 58 % WORD;
  }

  lemma NoDigits()
    ensures DigitsOf([]) == Some([])
  {
  }

  /** The number a block of letters stands for, or None for a wrong letter or
      an overflow. */
  method BlockNumber(block: string) returns (res: Option<nat>)
    requires 1 <= |block| <= FULL_ENCODED_BLOCK
    ensures res == match DigitsOf(block) case None => None case Some(ds) => if Value(58, ds) < WORD then Some(Value(58, ds)) else None
  {
    var resNum, order := 0, 1;
    var i := |block|;
    ghost var ds: seq<nat> := [];
    hide Pow, Value, Letter, DigitsOf, DigitOf;
    assert DigitsOf([]) == Some(ds) by { NoDigits(); }
    assert resNum == Value(58, ds) && order == Pow(58, 0) by { EmptyValue(); }
    assert block[i..] == [];
    while i > 0
      invariant 0 <= i <= |block| && |ds| == |block| - i && Numeral(58, ds)
      invariant DigitsOf(block[i..]) == Some(ds)
      invariant resNum == Value(58, ds) < WORD
      invariant i > 0 ==> order == Pow(58, |ds|)
    {
      var digit := DigitOf(block[i - 1]);
      if digit.None? {
        BadLetter(block, i - 1);
        return None;
      }
      FrontDigit(block, i - 1, digit.value, ds);
      var tmp := TakeDigit(resNum, order, digit.value, ds);
      if tmp.None? {
        TooLarge(block, i - 1);
        return None;
      }
      resNum := tmp.value;
      order := NextOrder(order, |ds|);
      ds := [digit.value] + ds;
      i := i - 1;
    }
    assert block[0..] == block;
    return Some(resNum);
  }

  lemma EmptyValue()
    ensures Value(58, []) == 0 && Pow(58, 0) == 1
  {
  }

  /** 58 to the tenth still fits; what comes after it is not used. */
  lemma OrderFits(n: nat)
    ensures n < FULL_ENCODED_BLOCK - 1 ==> Pow(58, n + 1) < WORD && Pow(58, n + 1) == Pow(58, n) * 58
  {
    if n < FULL_ENCODED_BLOCK - 1 {
      Powers58();
      PowGrows(58, n + 1, 10);
      assert Pow(58, 10) == 430804206899405824;
    }
  }

  lemma {:induction false} BadLetter(s: string, i: nat)
    requires i < |s| && DigitOf(s[i]).None?
    ensures DigitsOf(s).None?
    decreases |s|
  {
    if i < |s| - 1 {
      BadLetter(s[..|s| - 1], i);
    }
  }

  function Joined(a: Option<seq<nat>>, b: Option<seq<nat>>): Option<seq<nat>> {
    if a.Some? && b.Some? then Some(a.value + b.value) else None
  }

  lemma {:induction false} DigitsOfJoin(a: string, b: string)
    ensures DigitsOf(a + b) == Joined(DigitsOf(a), DigitsOf(b))
    decreases |b|
  {
    hide DigitOf;
    if b == [] {
      assert a + b == a;
      assert DigitsOf(a).Some? ==> DigitsOf(a).value + [] == DigitsOf(a).value;
    } else {
      var front, last := b[..|b| - 1], b[|b| - 1];
      DigitsOfJoin(a, front);
      assert (a + b)[..|a + b| - 1] == a + front;
      if DigitsOf(a).Some? && DigitsOf(b).Some? {
        JoinPush(DigitsOf(a).value, DigitsOf(front).value, DigitOf(last).value);
      }
    }
  }

  lemma JoinPush(a: seq<nat>, b: seq<nat>, d: nat)
    ensures (a + b) + [d] == a + (b + [d])
  {
  }

  lemma FrontDigit(s: string, i: nat, digit: nat, ds: seq<nat>)
    requires i < |s| && DigitOf(s[i]) == Some(digit) && DigitsOf(s[i + 1..]) == Some(ds)
    ensures DigitsOf(s[i..]) == Some([digit] + ds)
  {
    hide DigitOf;
    var first := [s[i]];
    assert s[i..] == first + s[i + 1..];
    DigitsOfJoin(first, s[i + 1..]);
    assert first[..0] == [];
    assert DigitsOf(first[..0]) == Some([]);
    assert [] + [digit] == [digit];
  }

  /** What does not fit from the back does not fit at all. */
  lemma TooLarge(s: string, i: nat)
    requires i <= |s| && DigitsOf(s[i..]).Some? && Value(58, DigitsOf(s[i..]).value) >= WORD
    ensures DigitsOf(s).Some? ==> Value(58, DigitsOf(s).value) >= WORD
  {
    hide DigitsOf, Value, Pow;
    DigitsOfJoin(s[..i], s[i..]);
    assert s == s[..i] + s[i..];
    if DigitsOf(s).Some? {
      ValueJoin(58, DigitsOf(s[..i]).value, DigitsOf(s[i..]).value);
    }
  }

  method DecodeBlockTo(block: string, data: array<Byte>, off: nat, ghost count: nat) returns (ok: bool)
    requires 1 <= |block| <= FULL_ENCODED_BLOCK && off + count <= data.Length
    requires DecodedSize(|block|) == Some(count)
    modifies data
    ensures ok == DecodeBlock(block).Some?
    ensures ok ==> data[off..off + count] == DecodeBlock(block).value
    ensures forall k :: 0 <= k < data.Length && !(off <= k < off + count) ==> data[k] == old(data[k])
  {
    hide Value, Digits, Pow, DigitsOf;
    var size := DecodedSize(|block|).value;
    if size == 0 {
      return false;
    }
    var num := BlockNumber(block);
    if num.None? || (size < FULL_BLOCK && Pow(256, size) <= num.value) {
      return false;
    }
    var bytes := Uint64To8be(num.value, size);
    for n := 0 to size
      invariant forall k :: 0 <= k < n ==> data[off + k] == bytes[k]
      invariant forall k :: 0 <= k < data.Length && !(off <= k < off + size) ==> data[k] == old(data[k])
    {
      data[off + n] := bytes[n];
    }
    return true;
  }

  // ----- whole strings -----

  lemma {:induction false} EncodeJoin(d: seq<Byte>, e: seq<Byte>)
    requires |d| % FULL_BLOCK == 0
    ensures Encode(d + e) == Encode(d) + Encode(e)
    decreases |d|
  {
    hide EncodeBlock;
    if d == [] {
      assert d + e == e;
    } else {
      var first, rest := d[..FULL_BLOCK], d[FULL_BLOCK..];
      EncodeJoin(rest, e);
      assert (d + e)[..FULL_BLOCK] == first && (d + e)[FULL_BLOCK..] == rest + e;
      assert Encode(d + e) == EncodeBlock(first) + Encode(rest + e);
    }
  }

  lemma EncodeOne(d: seq<Byte>)
    requires 1 <= |d| <= FULL_BLOCK
    ensures Encode(d) == EncodeBlock(d)
  {
    if |d| == FULL_BLOCK {
      assert d[..FULL_BLOCK] == d && d[FULL_BLOCK..] == [];
    }
  }

  /** One more full block written. */
  method EncodeFull(data: seq<Byte>, res: array<char>, i: nat)
    requires (i + 1) * FULL_BLOCK <= |data| && (i + 1) * FULL_ENCODED_BLOCK <= res.Length
    requires res[..i * FULL_ENCODED_BLOCK] == Encode(data[..i * FULL_BLOCK])
    requires forall k :: i * FULL_ENCODED_BLOCK <= k < res.Length ==> res[k] == Letter(0)
    modifies res
    ensures res[..(i + 1) * FULL_ENCODED_BLOCK] == Encode(data[..(i + 1) * FULL_BLOCK])
    ensures forall k :: (i + 1) * FULL_ENCODED_BLOCK <= k < res.Length ==> res[k] == Letter(0)
  {
    hide EncodeBlock, Encode, Letter;
    var block := data[i * FULL_BLOCK..(i + 1) * FULL_BLOCK];
    ghost var before := res[..i * FULL_ENCODED_BLOCK];
    EncodeBlockAt(block, res, i * FULL_ENCODED_BLOCK);
    assert data[..(i + 1) * FULL_BLOCK] == data[..i * FULL_BLOCK] + block;
    EncodeJoin(data[..i * FULL_BLOCK], block);
    EncodeOne(block);
    assert res[..(i + 1) * FULL_ENCODED_BLOCK] == before + res[i * FULL_ENCODED_BLOCK..(i + 1) * FULL_ENCODED_BLOCK];
  }

  method EncodeToString(data: seq<Byte>) returns (res: array<char>)
    ensures fresh(res) && res[..] == Encode(data)
  {
    var full, last := |data| / FULL_BLOCK, |data| % FULL_BLOCK;
    res := new char[full * FULL_ENCODED_BLOCK + EncodedSize(last)](_ => Letter(0));
    hide EncodeBlock, Encode, Letter;
    assert Encode(data[..0]) == [] by { EncodeNone(); }
    for i := 0 to full
      invariant res[..i * FULL_ENCODED_BLOCK] == Encode(data[..i * FULL_BLOCK])
      invariant forall k :: i * FULL_ENCODED_BLOCK <= k < res.Length ==> res[k] == Letter(0)
    {
      EncodeFull(data, res, i);
    }
    if 0 < last {
      EncodeLast(data, res, full);
    } else {
      assert data[..full * FULL_BLOCK] == data;
    }
    assert res[..res.Length] == res[..];
  }

  method EncodeLast(data: seq<Byte>, res: array<char>, full: nat)
    requires full * FULL_BLOCK < |data| < (full + 1) * FULL_BLOCK
    requires res.Length == full * FULL_ENCODED_BLOCK + EncodedSize(|data| - full * FULL_BLOCK)
    requires res[..full * FULL_ENCODED_BLOCK] == Encode(data[..full * FULL_BLOCK])
    requires forall k :: full * FULL_ENCODED_BLOCK <= k < res.Length ==> res[k] == Letter(0)
    modifies res
    ensures res[..] == Encode(data)
  {
    hide EncodeBlock, Encode, Letter;
    var block := data[full * FULL_BLOCK..];
    ghost var before := res[..full * FULL_ENCODED_BLOCK];
    EncodeBlockAt(block, res, full * FULL_ENCODED_BLOCK);
    EncodeOne(block);
    assert data == data[..full * FULL_BLOCK] + block;
    EncodeJoin(data[..full * FULL_BLOCK], block);
    assert res[..] == before + res[full * FULL_ENCODED_BLOCK..res.Length];
  }

  lemma EncodeNone()
    ensures Encode([]) == []
  {
  }

  function Both(a: Option<seq<Byte>>, b: Option<seq<Byte>>): Option<seq<Byte>> {
    if a.Some? && b.Some? then Some(a.value + b.value) else None
  }

  lemma BothJoin(a: Option<seq<Byte>>, b: Option<seq<Byte>>, c: Option<seq<Byte>>)
    ensures Both(a, Both(b, c)) == Both(Both(a, b), c)
  {
    if a.Some? && b.Some? && c.Some? {
      assert a.value + (b.value + c.value) == (a.value + b.value) + c.value;
    }
  }

  lemma DecodeFirst(s: string)
    requires |s| >= FULL_ENCODED_BLOCK
    ensures Decode(s) == Both(DecodeBlock(s[..FULL_ENCODED_BLOCK]), Decode(s[FULL_ENCODED_BLOCK..]))
  {
    hide DecodeBlock;
  }

  /** A string of full blocks decodes block by block. */
  lemma {:induction false} DecodeJoin(s: string, e: string)
    requires |s| % FULL_ENCODED_BLOCK == 0
    ensures Decode(s + e) == Both(Decode(s), Decode(e))
    decreases |s|
  {
    hide DecodeBlock, Decode;
    if s == [] {
      assert s + e == e;
      DecodeNone();
      assert Decode(e).Some? ==> [] + Decode(e).value == Decode(e).value;
    } else {
      var first, rest := s[..FULL_ENCODED_BLOCK], s[FULL_ENCODED_BLOCK..];
      DecodeJoin(rest, e);
      DecodeFirst(s);
      DecodeFirst(s + e);
      assert (s + e)[..FULL_ENCODED_BLOCK] == first && (s + e)[FULL_ENCODED_BLOCK..] == rest + e;
      BothJoin(DecodeBlock(first), Decode(rest), Decode(e));
    }
  }

  lemma DecodeOne(s: string)
    requires 1 <= |s| <= FULL_ENCODED_BLOCK
    ensures Decode(s) == DecodeBlock(s)
  {
    hide DecodeBlock;
    if |s| == FULL_ENCODED_BLOCK {
      assert s[..FULL_ENCODED_BLOCK] == s && s[FULL_ENCODED_BLOCK..] == [];
      assert Decode([]) == Some([]);
      assert DecodeBlock(s).Some? ==> DecodeBlock(s).value + [] == DecodeBlock(s).value;
    }
  }

  /** One more full block read. */
  method DecodeFull(enc: string, data: array<Byte>, i: nat) returns (ok: bool)
    requires (i + 1) * FULL_ENCODED_BLOCK <= |enc| && (i + 1) * FULL_BLOCK <= data.Length
    requires Decode(enc[..i * FULL_ENCODED_BLOCK]) == Some(data[..i * FULL_BLOCK])
    modifies data
    ensures ok ==> Decode(enc[..(i + 1) * FULL_ENCODED_BLOCK]) == Some(data[..(i + 1) * FULL_BLOCK])
    ensures !ok ==> Decode(enc).None?
  {
    hide DecodeBlock, Decode;
    var done, block := enc[..i * FULL_ENCODED_BLOCK], enc[i * FULL_ENCODED_BLOCK..(i + 1) * FULL_ENCODED_BLOCK];
    ghost var before := data[..i * FULL_BLOCK];
    DecodeOne(block);
    DecodeJoin(done, block);
    assert enc[..(i + 1) * FULL_ENCODED_BLOCK] == done + block;
    DecodeJoin(done + block, enc[(i + 1) * FULL_ENCODED_BLOCK..]);
    assert enc == done + block + enc[(i + 1) * FULL_ENCODED_BLOCK..];
    ok := DecodeBlockTo(block, data, i * FULL_BLOCK, FULL_BLOCK);
    assert data[..(i + 1) * FULL_BLOCK] == before + data[i * FULL_BLOCK..(i + 1) * FULL_BLOCK];
  }

  method DecodeLast(enc: string, data: array<Byte>, full: nat, ghost count: nat) returns (ok: bool)
    requires full * FULL_ENCODED_BLOCK < |enc| < (full + 1) * FULL_ENCODED_BLOCK
    requires DecodedSize(|enc| - full * FULL_ENCODED_BLOCK) == Some(count) && data.Length == full * FULL_BLOCK + count
    requires Decode(enc[..full * FULL_ENCODED_BLOCK]) == Some(data[..full * FULL_BLOCK])
    modifies data
    ensures ok == Decode(enc).Some? && (ok ==> data[..] == Decode(enc).value)
  {
    hide DecodeBlock, Decode;
    var done, tail := enc[..full * FULL_ENCODED_BLOCK], enc[full * FULL_ENCODED_BLOCK..];
    ghost var before := data[..full * FULL_BLOCK];
    assert enc == done + tail;
    DecodeJoin(done, tail);
    DecodeOne(tail);
    ok := DecodeBlockTo(tail, data, full * FULL_BLOCK, count);
    assert data[..] == before + data[full * FULL_BLOCK..data.Length];
  }

  /** A string whose last block has no valid length does not decode. */
  lemma BadLength(enc: string, full: nat)
    requires full * FULL_ENCODED_BLOCK < |enc| < (full + 1) * FULL_ENCODED_BLOCK
    requires DecodedSize(|enc| - full * FULL_ENCODED_BLOCK).None?
    ensures Decode(enc).None?
  {
    hide DigitsOf;
    var done, tail := enc[..full * FULL_ENCODED_BLOCK], enc[full * FULL_ENCODED_BLOCK..];
    assert enc == done + tail;
    DecodeJoin(done, tail);
    DecodeOne(tail);
  }

  method DecodeToBytes(enc: string) returns (ok: bool, data: array<Byte>)
    ensures ok == Decode(enc).Some? && (ok ==> data[..] == Decode(enc).value)
  {
    var full, last := |enc| / FULL_ENCODED_BLOCK, |enc| % FULL_ENCODED_BLOCK;
    var lastSize := DecodedSize(last);
    if lastSize.None? {
      BadLength(enc, full);
      ok, data := false, new Byte[0];
      return;
    }
    data := new Byte[full * FULL_BLOCK + lastSize.value](_ => 0);
    hide DecodeBlock, Decode;
    assert Decode(enc[..0]) == Some(data[..0]) by { DecodeNone(); }
    for i := 0 to full
      invariant Decode(enc[..i * FULL_ENCODED_BLOCK]) == Some(data[..i * FULL_BLOCK])
    {
      ok := DecodeFull(enc, data, i);
      if !ok {
        return;
      }
    }
    if 0 < last {
      ok := DecodeLast(enc, data, full, lastSize.value);
    } else {
      assert enc[..full * FULL_ENCODED_BLOCK] == enc && data[..full * FULL_BLOCK] == data[..];
      ok := true;
    }
  }

  lemma DecodeNone()
    ensures Decode([]) == Some([])
  {
  }
}
