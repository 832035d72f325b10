/** Bytes, machine words, exclusive-or and little-endian fields. */
module Bytes {
  type byte = b: int | 0 <= b < 256
  type uint32 = n: int | 0 <= n < 0x1_0000_0000
  type uint64 = n: int | 0 <= n < 0x1_0000_0000_0000_0000

  const U32: nat := 0x1_0000_0000
  const U64: nat := 0x1_0000_0000_0000_0000

  /** Conversion to an unsigned 32-bit or 64-bit word. */
  function Lo32(n: nat): uint32 {
    n % 0x1_0000_0000
  }

  function Lo64(n: nat): uint64 {
    n % 0x1_0000_0000_0000_0000
  }

  function Pow2(k: nat): (p: nat)
    ensures p > 0
  {
    if k == 0 then 1 else 2 * Pow2(k - 1)
  }

  /** Bitwise exclusive or of two naturals. */
  function Xor(a: nat, b: nat): nat
    decreases a + b
  {
    if a == 0 && b == 0 then 0 else (a + b) % 2 + 2 * Xor(a / 2, b / 2)
  }

  lemma {:induction false} XorBound(a: nat, b: nat, k: nat)
    requires a < Pow2(k) && b < Pow2(k)
    ensures Xor(a, b) < Pow2(k)
  {
    if k > 0 {
      XorBound(a / 2, b / 2, k - 1);
    }
  }

  lemma {:induction false} XorCancels(a: nat, b: nat)
    ensures Xor(Xor(a, b), b) == a
    decreases a + b
  {
    if a != 0 || b != 0 {
      XorCancels(a / 2, b / 2);
      XorLowBit((a + b) % 2, Xor(a / 2, b / 2), b);
      LowBitCancels(a, b);
    }
  }

  lemma {:induction false} XorLowBit(low: nat, high: nat, b: nat)
    requires low < 2
    ensures Xor(low + 2 * high, b) == (low + b) % 2 + 2 * Xor(high, b / 2)
  {
    assert (low + 2 * high) / 2 == high;
    assert (low + 2 * high + b) % 2 == (low + b) % 2;
  }

  lemma {:induction false} LowBitCancels(a: nat, b: nat)
    ensures ((a + b) % 2 + b) % 2 + 2 * (a / 2) == a
  {
  }

  lemma {:induction false} XorZero(a: nat)
    ensures Xor(a, 0) == a
  {
    if a != 0 {
      XorZero(a / 2);
    }
  }

  lemma {:induction false} XorFixesOnlyByZero(a: nat, b: nat)
    requires Xor(a, b) == a
    ensures b == 0
    decreases a + b
  {
    if a != 0 || b != 0 {
      XorFixesOnlyByZero(a / 2, b / 2);
    }
  }

  lemma {:induction false} XorCommutes(a: nat, b: nat)
    ensures Xor(a, b) == Xor(b, a)
    decreases a + b
  {
    if a != 0 || b != 0 {
      XorCommutes(a / 2, b / 2);
    }
  }

  /** Exclusive or, one bit at a time from the low end. */
  lemma {:induction false} XorDouble(a: nat, x: nat, b: nat, y: nat)
    requires x < 2 && y < 2
    ensures Xor(x + 2 * a, y + 2 * b) == (if x == y then 0 else 1) + 2 * Xor(a, b)
  {
    assert (x + 2 * a) / 2 == a && (y + 2 * b) / 2 == b;
    assert (x + 2 * a + y + 2 * b) % 2 == (x + y) % 2;
  }

  lemma {:induction false} XorTopBit(a: nat, b: nat, k: nat)
    requires a < Pow2(k) <= b < Pow2(k + 1)
    ensures Xor(a, b) >= Pow2(k)
  {
    if k > 0 {
      XorTopBit(a / 2, b / 2, k - 1);
    }
  }

  lemma {:induction false} Pow2Of31()
    ensures Pow2(31) == 0x8000_0000 && Pow2(32) == 0x1_0000_0000
  {
    assert Pow2(4) == 16;
    assert Pow2(8) == 256;
    assert Pow2(12) == 4096;
    assert Pow2(16) == 65536;
    assert Pow2(20) == 1048576;
    assert Pow2(24) == 16777216;
    assert Pow2(28) == 268435456;
  }

  /** Bit k, counted from the low end. */
  predicate Bit(a: nat, k: nat)
    decreases k
  {
    if k == 0 then a % 2 == 1 else Bit(a / 2, k - 1)
  }

  /** Bit by bit, exclusive or is inequality. */
  lemma {:induction false} XorBits(a: nat, b: nat, k: nat)
    ensures Bit(Xor(a, b), k) <==> Bit(a, k) != Bit(b, k)
    decreases k
  {
    XorDouble(a / 2, a % 2, b / 2, b % 2);
    assert a == a % 2 + 2 * (a / 2) && b == b % 2 + 2 * (b / 2);
    var low := if a % 2 == b % 2 then 0 else 1;
    assert (low + 2 * Xor(a / 2, b / 2)) / 2 == Xor(a / 2, b / 2) && (low + 2 * Xor(a / 2, b / 2)) % 2 == low;
    if k > 0 {
      XorBits(a / 2, b / 2, k - 1);
    }
  }

  function XorByte(a: byte, b: byte): byte {
    assert Pow2(8) == 256 by { assert Pow2(4) == 16; }
    XorBound(a, b, 8);
    Xor(a, b)
  }

  function XorWord(a: uint32, b: uint32): uint32 {
    assert Pow2(32) == U32 by {
      assert Pow2(4) == 16; assert Pow2(8) == 256; assert Pow2(12) == 4096; assert Pow2(16) == 65536;
      assert Pow2(20) == 1048576; assert Pow2(24) == 16777216; assert Pow2(28) == 268435456;
    }
    XorBound(a, b, 32);
    Xor(a, b)
  }

  // ---- little-endian fields (encoding/binary.LittleEndian) ----

  function Le32(v: uint32): (r: seq<byte>)
    ensures |r| == 4
  {
    [v % 256, v / 256 % 256, v / 65536 % 256, v / 16777216]
  }

  function GetLe32(s: seq<byte>, at: nat): uint32
    requires at + 4 <= |s|
  {
    s[at] as int + 256 * (s[at + 1] as int) + 65536 * (s[at + 2] as int) + 16777216 * (s[at + 3] as int)
  }

  function Le64(v: uint64): (r: seq<byte>)
    ensures |r| == 8
  {
    Le32(Lo32(v)) + Le32(v / 0x1_0000_0000)
  }

  function GetLe64(s: seq<byte>, at: nat): uint64
    requires at + 8 <= |s|
  {
    GetLe32(s, at) + 0x1_0000_0000 * GetLe32(s, at + 4)
  }

  /** `e` lies in `s` at offset `at`. */
  predicate HasAt(s: seq<byte>, at: nat, e: seq<byte>) {
    at + |e| <= |s| && s[at..at + |e|] == e
  }

  lemma {:induction false} ByteAt(s: seq<byte>, at: nat, e: seq<byte>, i: nat)
    requires HasAt(s, at, e) && i < |e|
    ensures s[at + i] == e[i]
  {
    assert s[at..at + |e|][i] == e[i];
  }

  /** A slice of what lies at an offset is a slice there. */
  lemma {:induction false} SliceAt(s: seq<byte>, at: nat, e: seq<byte>, lo: nat, hi: nat)
    requires HasAt(s, at, e) && lo <= hi <= |e|
    ensures s[at + lo..at + hi] == e[lo..hi]
  {
    forall i | 0 <= i < hi - lo
      ensures s[at + lo..at + hi][i] == e[lo..hi][i]
    {
      ByteAt(s, at, e, lo + i);
    }
  }

  lemma {:induction false} Le32Digits(v: uint32)
    ensures v == v % 256 + 256 * (v / 256 % 256) + 65536 * (v / 65536 % 256) + 16777216 * (v / 16777216)
  {
    var a := v / 256;
    var b := a / 256;
    assert b == v / 65536 && b / 256 == v / 16777216;
    assert v == 256 * a + v % 256 && a == 256 * b + a % 256 && b == 256 * (b / 256) + b % 256;
  }

  lemma {:induction false} Le32RoundTrip(s: seq<byte>, at: nat, v: uint32)
    requires HasAt(s, at, Le32(v))
    ensures GetLe32(s, at) == v
  {
    var e := Le32(v);
    ByteAt(s, at, e, 0);
    ByteAt(s, at, e, 1);
    ByteAt(s, at, e, 2);
    ByteAt(s, at, e, 3);
    Le32Digits(v);
  }

  lemma {:induction false} Le64RoundTrip(s: seq<byte>, at: nat, v: uint64)
    requires HasAt(s, at, Le64(v))
    ensures GetLe64(s, at) == v
  {
    assert s[at..at + 4] == s[at..at + 8][..4] == Le32(Lo32(v));
    assert s[at + 4..at + 8] == s[at..at + 8][4..] == Le32(v / 0x1_0000_0000);
    Le32RoundTrip(s, at, Lo32(v));
    Le32RoundTrip(s, at + 4, v / 0x1_0000_0000);
  }

  /** A tail that starts with `e` has `e` at its start and the rest after it. */
  lemma {:induction false} SplitTail(s: seq<byte>, at: nat, e: seq<byte>, rest: seq<byte>)
    requires at <= |s| && s[at..] == e + rest
    ensures HasAt(s, at, e) && s[at + |e|..] == rest
  {
    assert s[at..at + |e|] == s[at..][..|e|] == e;
    assert s[at + |e|..] == s[at..][|e|..] == rest;
  }

  /** `s` with `e` stored at offset `at` (Go's copy into a slice). */
  function Patch(s: seq<byte>, at: nat, e: seq<byte>): (r: seq<byte>)
    requires at + |e| <= |s|
    ensures |r| == |s|
  {
    s[..at] + e + s[at + |e|..]
  }

  /** The low byte comes first. */
  lemma {:induction false} LowByteFirst()
    ensures Le32(0x0403_0201) == [1, 2, 3, 4] && GetLe32([1, 2, 3, 4], 0) == 0x0403_0201
    ensures GetLe64([1, 2, 3, 4, 5, 6, 7, 8], 0) == 0x0807_0605_0403_0201
  {
  }
}
