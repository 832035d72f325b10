/** CRC-32 as hash/crc32 computes it with the IEEE polynomial (section 8 of RFC 1952). */
module Crc32 {
  import opened Bytes

  const POLY: uint32 := 0xEDB8_8320

  function Complement(c: uint32): uint32 {
    0xFFFF_FFFF - c
  }

  /** One shift of the reflected register. */
  function Round(c: uint32): uint32 {
    if c % 2 == 1 then XorWord(c / 2, POLY) else c / 2
  }

  function Rounds(c: uint32, n: nat): uint32
    decreases n
  {
    if n == 0 then c else Round(Rounds(c, n - 1))
  }

  /** The bytes are folded left to right into the register. */
  function Fold(c: uint32, p: seq<byte>): uint32 {
    if p == [] then c
    else Rounds(XorWord(Fold(c, p[..|p| - 1]), p[|p| - 1]), 8)
  }

  /** crc32.Update */
  function Update(crc: uint32, p: seq<byte>): uint32 {
    Complement(Fold(Complement(crc), p))
  }

  /** crc32.ChecksumIEEE */
  function Checksum(p: seq<byte>): uint32 {
    Update(0, p)
  }

  lemma {:induction false} FoldAppend(c: uint32, a: seq<byte>, b: seq<byte>)
    ensures Fold(c, a + b) == Fold(Fold(c, a), b)
    decreases |b|
  {
    if b == [] {
      assert a + b == a;
    } else {
      assert (a + b)[..|a + b| - 1] == a + b[..|b| - 1];
      FoldAppend(c, a, b[..|b| - 1]);
    }
  }

  /** The incremental digest of an append is the digest of the whole region. */
  lemma {:induction false} UpdateIsChecksumOfAppend(a: seq<byte>, b: seq<byte>)
    ensures Update(Checksum(a), b) == Checksum(a + b)
  {
    FoldAppend(Complement(0), a, b);
  }

  // ---- the digest depends on every byte ----

  lemma {:induction false} RoundInjective(c: uint32, d: uint32)
    requires Round(c) == Round(d)
    ensures c == d
  {
    hide Xor;
    HighBit(c / 2);
    HighBit(d / 2);
    XorCancels(c / 2, POLY);
    XorCancels(d / 2, POLY);
  }

  /** The polynomial has the top bit, a shifted register has not. */
  lemma {:induction false} HighBit(c: nat)
    requires c < 0x8000_0000
    ensures Xor(c, POLY) >= 0x8000_0000
  {
    hide Xor;
    Pow2Of31();
    XorTopBit(c, POLY, 31);
  }

  lemma {:induction false} RoundsInjective(c: uint32, d: uint32, n: nat)
    requires Rounds(c, n) == Rounds(d, n)
    ensures c == d
  {
    hide Round;
    if n > 0 {
      RoundInjective(Rounds(c, n - 1), Rounds(d, n - 1));
      RoundsInjective(c, d, n - 1);
    }
  }

  /** From one register different bytes lead to different registers, and from different registers one byte does. */
  lemma {:induction false} StepInjective(c: uint32, d: uint32, x: byte, y: byte)
    requires Rounds(XorWord(c, x), 8) == Rounds(XorWord(d, y), 8)
    ensures c == d <==> x == y
  {
    hide Rounds, Xor;
    RoundsInjective(XorWord(c, x), XorWord(d, y), 8);
    XorCancels(c, x);
    XorCancels(d, y);
    XorCommutes(c, x);
    XorCommutes(d, y);
    XorCancels(x, c);
    XorCancels(y, d);
  }

  lemma {:induction false} FoldInjective(c: uint32, d: uint32, p: seq<byte>)
    requires c != d
    ensures Fold(c, p) != Fold(d, p)
  {
    hide Rounds, XorWord;
    if p != [] {
      var n := |p| - 1;
      FoldInjective(c, d, p[..n]);
      if Fold(c, p) == Fold(d, p) {
        StepInjective(Fold(c, p[..n]), Fold(d, p[..n]), p[n], p[n]);
      }
    }
  }

  /** Changing one byte, and no other, always changes the digest. */
  lemma {:induction false} OneByteChangesDigest(p: seq<byte>, k: nat, x: byte)
    requires k < |p| && x != p[k]
    ensures Checksum(p[k := x]) != Checksum(p)
  {
    hide Rounds, XorWord, Fold;
    var a, b, c := p[..k], p[k + 1..], Fold(Complement(0), p[..k]);
    assert p == a + [p[k]] + b && p[k := x] == a + [x] + b;
    FoldAppend(Complement(0), a + [p[k]], b);
    FoldAppend(Complement(0), a + [x], b);
    FoldOne(Complement(0), a, p[k]);
    FoldOne(Complement(0), a, x);
    if Fold(Complement(0), a + [p[k]]) == Fold(Complement(0), a + [x]) {
      StepInjective(c, c, p[k], x);
    }
    FoldInjective(Fold(Complement(0), a + [p[k]]), Fold(Complement(0), a + [x]), b);
  }

  lemma {:induction false} FoldOne(c: uint32, a: seq<byte>, x: byte)
    ensures Fold(c, a + [x]) == Rounds(XorWord(Fold(c, a), x), 8)
  {
    hide Rounds, XorWord;
    assert (a + [x])[..|a + [x]| - 1] == a;
  }
}
