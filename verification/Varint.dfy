// The SQLite4-style integers in database keys: one to nine bytes, in an order
// that is the numbers' own.
module Varint {
  import opened Basics
  import opened Numerals

  /** get_varint_sqlite4_size. */
  function Size(v: nat): nat
    requires v < WORD
  {
    if v <= 240 then 1
    else if v <= 2287 then 2
    else if v <= 67823 then 3
    else if v <= 16777215 then 4
    else if v <= 4294967295 then 5
    else if v <= 1099511627775 then 6
    else if v <= 281474976710655 then 7
    else if v <= 72057594037927935 then 8
    else 9
  }

  /** write_varint_sqlite4. */
  function Write(v: nat): (r: seq<Byte>)
    requires v < WORD
    ensures |r| == Size(v)
  {
    if v <= 240 then [v]
    else if v <= 2287 then [(v - 240) / 256 + 241, (v - 240) % 256]
    else if v <= 67823 then [249, (v - 2288) / 256, (v - 2288) % 256]
    else
      var k := Size(v) - 1;
      [247 + k] + Bytes(Digits(256, k, v))
  }

  datatype Parsed = Parsed(value: nat, rest: seq<Byte>)

  /** read_varint_sqlite4 at the beginning of some bytes; None is the end of
      them too soon. */
  function Read(s: seq<Byte>): Option<Parsed> {
    if s == [] then None else
    var a0: nat := s[0];
    if a0 <= 240 then Some(Parsed(a0, s[1..]))
    else if a0 <= 248 then
      if |s| < 2 then None else
      var a1: nat := s[1];
      Some(Parsed(240 + 256 * (a0 - 241) + a1, s[2..]))
    else if a0 == 249 then
      if |s| < 3 then None else
      var b0: nat, b1: nat := s[1], s[2];
      Some(Parsed(2288 + 256 * b0 + b1, s[3..]))
    else
      var k := 3 + a0 - 250;
      if |s| < 1 + k then None else Some(Parsed(Value(256, s[1..1 + k]), s[1 + k..]))
  }

  lemma Powers()
    ensures Pow(256, 3) == 16777216 && Pow(256, 4) == 4294967296 && Pow(256, 5) == 1099511627776
    ensures Pow(256, 6) == 281474976710656 && Pow(256, 7) == 72057594037927936 && Pow(256, 8) == WORD
  {
    assert Pow(256, 2) == 65536;
    assert Pow(256, 4) == 65536 * Pow(256, 2);
    assert Pow(256, 6) == 65536 * Pow(256, 4);
    assert Pow(256, 8) == 65536 * Pow(256, 6);
  }

  /** Reading gives back what was written and leaves the rest: for every 64-bit
      value, whatever follows. */
  lemma RoundTrip(v: nat, tail: seq<Byte>)
    requires v < WORD
    ensures Read(Write(v) + tail) == Some(Parsed(v, tail))
  {
    hide Digits, Value, Pow;
    var s := Write(v) + tail;
    assert s[|Write(v)|..] == tail;
    if v > 67823 {
      var k := Size(v) - 1;
      Powers();
      ValueOfDigits(256, k, v);
      assert s[1..1 + k] == Digits(256, k, v);
    }
  }

  /** No integer's bytes begin another's. */
  lemma PrefixFree(a: nat, b: nat, t: seq<Byte>, u: seq<Byte>)
    requires a < WORD && b < WORD
    requires Write(a) + t == Write(b) + u
    ensures a == b && t == u
  {
    RoundTrip(a, t);
    RoundTrip(b, u);
  }

  // ----- order -----

  /** Bytewise less, at the first difference. */
  ghost predicate Less(s: seq<nat>, t: seq<nat>) {
    exists i: nat :: LessAt(s, t, i)
  }

  ghost predicate LessAt(s: seq<nat>, t: seq<nat>, i: nat) {
    i < |s| && i < |t| && s[..i] == t[..i] && s[i] < t[i]
  }

  lemma LessAfter(p: seq<nat>, s: seq<nat>, t: seq<nat>)
    requires Less(s, t)
    ensures Less(p + s, p + t)
  {
    var i: nat :| LessAt(s, t, i);
    assert (p + s)[..|p| + i] == p + s[..i] && (p + t)[..|p| + i] == p + t[..i];
    assert LessAt(p + s, p + t, |p| + i);
  }

  lemma LessThen(s: seq<nat>, t: seq<nat>, u: seq<nat>, w: seq<nat>)
    requires Less(s, t)
    ensures Less(s + u, t + w)
  {
    var i: nat :| LessAt(s, t, i);
    assert (s + u)[..i] == s[..i] && (t + w)[..i] == t[..i];
    assert LessAt(s + u, t + w, i);
  }

  lemma LessFirst(s: seq<nat>, t: seq<nat>)
    requires s != [] && t != [] && s[0] < t[0]
    ensures Less(s, t)
  {
    assert LessAt(s, t, 0);
  }

  /** Numerals of one length are in the order of their numbers. */
  lemma {:induction false} DigitsOrder(b: nat, n: nat, u: nat, v: nat)
    requires b >= 1 && u < v < Pow(b, n)
    ensures Less(Digits(b, n, u), Digits(b, n, v))
    decreases n
  {
    DivIs(u, b);
    DivIs(v, b);
    MulStrict(v / b, u / b, b);
    if n > 0 {
      DivLess(v, b, Pow(b, n - 1));
      if u / b < v / b {
        DigitsOrder(b, n - 1, u / b, v / b);
        LessThen(Digits(b, n - 1, u / b), Digits(b, n - 1, v / b), [u % b], [v % b]);
      } else {
        LessFirst([u % b], [v % b]);
        LessAfter(Digits(b, n - 1, u / b), [u % b], [v % b]);
      }
    }
  }

  lemma FirstByte(a: nat, b: nat)
    requires a < b < WORD && Size(a) < Size(b)
    ensures Write(a)[0] < Write(b)[0]
  {
    hide Digits;
  }

  /** Keys compare as the numbers do. */
  lemma Order(a: nat, b: nat)
    requires a < b < WORD
    ensures Less(Write(a), Write(b))
  {
    hide Less, Write;
    if Size(a) < Size(b) {
      FirstByte(a, b);
      LessFirst(Write(a), Write(b));
    } else if b <= 67823 {
      OrderShort(a, b);
    } else {
      OrderLong(a, b);
    }
  }

  lemma OrderShort(a: nat, b: nat)
    requires a < b <= 67823 && Size(a) == Size(b)
    ensures Less(Write(a), Write(b))
  {
    hide Less, Digits;
    if b <= 240 {
      LessFirst(Write(a), Write(b));
    } else if b <= 2287 {
      ShiftFirst(a, b);
    } else {
      OrderTwo(a - 2288, b - 2288);
      LessAfter([249], [(a - 2288) / 256, (a - 2288) % 256], [(b - 2288) / 256, (b - 2288) % 256]);
      assert Write(a) == [249] + [(a - 2288) / 256, (a - 2288) % 256];
      assert Write(b) == [249] + [(b - 2288) / 256, (b - 2288) % 256];
    }
  }

  lemma OrderLong(a: nat, b: nat)
    requires 67823 < a < b < WORD && Size(a) == Size(b)
    ensures Less(Write(a), Write(b))
  {
    hide Less, Digits, Pow;
    var k := Size(b) - 1;
    Powers();
    DigitsOrder(256, k, a, b);
    LessAfter([247 + k], Digits(256, k, a), Digits(256, k, b));
  }

  lemma OrderTwo(x: nat, y: nat)
    requires x < y
    ensures Less([x / 256, x % 256], [y / 256, y % 256])
  {
    var s, t := [x / 256, x % 256], [y / 256, y % 256];
    if x / 256 < y / 256 {
      assert LessAt(s, t, 0);
    } else {
      assert s[..1] == t[..1];
      assert LessAt(s, t, 1);
    }
  }

  lemma ShiftFirst(a: nat, b: nat)
    requires 240 < a < b <= 2287
    ensures Less(Write(a), Write(b))
  {
    var s, t := Write(a), Write(b);
    if (a - 240) / 256 < (b - 240) / 256 {
      assert LessAt(s, t, 0);
    } else {
      assert s[..1] == t[..1];
      assert LessAt(s, t, 1);
    }
  }

  // ----- keys of outputs of one amount -----

  function OutputKey(prefix: seq<Byte>, amount: nat, gi: nat): seq<Byte>
    requires amount < WORD && gi < WORD
  {
    prefix + Write(amount) + Write(gi)
  }

  /** A cursor over an amount's prefix meets that amount's keys only. */
  lemma OnlyThisAmount(prefix: seq<Byte>, amount: nat, other: nat, gi: nat)
    requires amount < WORD && other < WORD && gi < WORD
    requires prefix + Write(amount) <= OutputKey(prefix, other, gi)
    ensures other == amount
  {
    hide Write;
    var k := OutputKey(prefix, other, gi);
    var p := prefix + Write(amount);
    assert k == prefix + (Write(other) + Write(gi));
    DropPrefix(k, prefix, Write(other) + Write(gi));
    assert k == p + k[|p|..];
    assert k == prefix + (Write(amount) + k[|p|..]);
    DropPrefix(k, prefix, Write(amount) + k[|p|..]);
    PrefixFree(other, amount, Write(gi), k[|p|..]);
  }

  lemma DropPrefix(k: seq<Byte>, p: seq<Byte>, s: seq<Byte>)
    requires k == p + s
    ensures k[|p|..] == s
  {
  }

  /** The last key under it is the greatest global index, so that one more is
      the number of outputs. */
  lemma LastIsGreatest(prefix: seq<Byte>, amount: nat, count: nat, gi: nat)
    requires amount < WORD && 0 < count <= WORD && gi < count - 1
    ensures Less(OutputKey(prefix, amount, gi), OutputKey(prefix, amount, count - 1))
    ensures Read(OutputKey(prefix, amount, count - 1)[|prefix + Write(amount)|..]) == Some(Parsed(count - 1, []))
  {
    hide Write, Less;
    Order(gi, count - 1);
    LessAfter(prefix + Write(amount), Write(gi), Write(count - 1));
    RoundTrip(count - 1, []);
    assert OutputKey(prefix, amount, count - 1)[|prefix + Write(amount)|..] == Write(count - 1) + [];
  }

  // ----- the same in buffers -----

  /** uint_be_to_bytes: from the last byte back. */
  method UintBeToBytes(buf: array<Byte>, off: nat, si: nat, val: nat)
    requires off + si <= buf.Length
    modifies buf
    ensures buf[off..off + si] == Digits(256, si, val)
    ensures forall k :: 0 <= k < buf.Length && !(off <= k < off + si) ==> buf[k] == old(buf[k])
  {
    hide Digits;
    ghost var ds := Digits(256, si, val);
    var v, i: nat := val, si;
    while i > 0
      invariant 0 <= i <= si && ds[..i] == Digits(256, i, v)
      invariant forall k :: off + i <= k < off + si ==> buf[k] == ds[k - off]
      invariant forall k :: 0 <= k < buf.Length && !(off <= k < off + si) ==> buf[k] == old(buf[k])
    {
      LastDigit(256, i, v);
      assert ds[i - 1] == ds[..i][i - 1] && ds[..i - 1] == ds[..i][..i - 1];
      i := i - 1;
      buf[off + i] := v % 256;
      v := v / 256;
    }
  }

  lemma LastDigit(b: nat, n: nat, v: nat)
    requires b >= 1 && n > 0
    ensures Digits(b, n, v)[n - 1] == v % b && Digits(b, n, v)[..n - 1] == Digits(b, n - 1, v / b)
  {
  }

  /** uint_be_from_bytes. */
  method UintBeFromBytes(buf: seq<Byte>) returns (result: nat)
    requires |buf| <= 8
    ensures result == Value(256, buf) < WORD
  {
    result := 0;
    for i := 0 to |buf|
      invariant result == Value(256, buf[..i]) < Pow(256, i)
    {
      assert buf[..i + 1][..i] == buf[..i];
      DigitsOfValue(256, buf[..i + 1]);
      NoOverflow(i, result);
      result := result * 256 % WORD + buf[i];
    }
    assert buf[..|buf|] == buf;
    Powers();
    PowGrows(256, |buf|, 8);
  }

  lemma NoOverflow(i: nat, v: nat)
    requires i < 8 && v < Pow(256, i)
    ensures v * 256 < WORD
  {
    Powers();
    PowGrows(256, i + 1, 8);
    assert Pow(256, i + 1) == 256 * Pow(256, i);
  }

  method WriteVarint(val: nat) returns (r: seq<Byte>)
    requires val < WORD
    ensures r == Write(val)
  {
    hide Digits;
    var buf := new Byte[9](_ => 0);
    if val <= 240 {
      buf[0] := val;
      return buf[..1];
    }
    if val <= 2287 {
      buf[0] := (val - 240) / 256 + 241;
      buf[1] := (val - 240) % 256;
      return buf[..2];
    }
    if val <= 67823 {
      buf[0] := 249;
      buf[1] := (val - 2288) / 256;
      buf[2] := (val - 2288) % 256;
      return buf[..3];
    }
    var k := Size(val) - 1;
    buf[0] := 247 + k;
    UintBeToBytes(buf, 1, k, val);
    assert buf[..1 + k] == [buf[0]] + buf[1..1 + k];
    return buf[..1 + k];
  }

  /** The position moves past what was read. */
  method ReadVarint(s: seq<Byte>, begin: nat) returns (ok: bool, value: nat, next: nat)
    requires begin <= |s|
    ensures ok == Read(s[begin..]).Some?
    ensures ok ==> begin < next <= |s| && Read(s[begin..]) == Some(Parsed(value, s[next..]))
  {
    ghost var t := s[begin..];
    if begin == |s| {
      return false, 0, begin;
    }
    var a0: nat := s[begin];
    if a0 <= 240 {
      assert t[1..] == s[begin + 1..];
      return true, a0, begin + 1;
    }
    var count: nat := if a0 <= 248 then 1 else if a0 == 249 then 2 else 3 + a0 - 250;
    if |s| < begin + 1 + count {
      return false, 0, begin;
    }
    var buf := s[begin + 1..begin + 1 + count];
    assert t[1..1 + count] == buf && t[1 + count..] == s[begin + 1 + count..];
    var b0: nat := buf[0];
    assert t[1] == buf[0];
    if a0 <= 248 {
      return true, 240 + 256 * (a0 - 241) + b0, begin + 2;
    }
    var b1: nat := buf[1];
    assert t[2] == buf[1];
    if a0 == 249 {
      return true, 2288 + 256 * b0 + b1, begin + 3;
    }
    value := UintBeFromBytes(buf);
    return true, value, begin + 1 + count;
  }
}
