/**
 The digest on the standard check string, computed on machine words: the arithmetic
 register of Crc32 follows a register of bits.
 */
module Crc32Check {
  import opened Bytes
  import opened Crc32

  function Low(c: bv32): nat {
    if c & 1 == 1 then 1 else 0
  }

  function Half(c: bv32): bv32 {
    c >> 1
  }

  function WordXor(c: bv32, d: bv32): bv32 {
    c ^ d
  }

  /** The natural number of the low n bits of a machine word. */
  function Val(c: bv32, n: nat): nat
    decreases n
  {
    if n == 0 then 0 else Low(c) + 2 * Val(Half(c), n - 1)
  }

  lemma {:induction false} ShiftXor(c: bv32, d: bv32)
    ensures Half(WordXor(c, d)) == WordXor(Half(c), Half(d))
    ensures Low(WordXor(c, d)) == if Low(c) == Low(d) then 0 else 1
  {
  }

  lemma {:induction false} ValUnfolds(c: bv32, n: nat)
    requires n > 0
    ensures Val(c, n) == Low(c) + 2 * Val(Half(c), n - 1)
  {
  }

  lemma {:induction false} ValXor(c: bv32, d: bv32, n: nat)
    ensures Val(WordXor(c, d), n) == Xor(Val(c, n), Val(d, n))
    decreases n
  {
    hide Xor, Low, Val, Half, WordXor;
    if n == 0 {
      NoBits(c);
      NoBits(d);
      NoBits(WordXor(c, d));
      XorZero(0);
    } else {
      LowIsBit(c);
      LowIsBit(d);
      ShiftXor(c, d);
      ValXor(Half(c), Half(d), n - 1);
      XorDouble(Val(Half(c), n - 1), Low(c), Val(Half(d), n - 1), Low(d));
      ValUnfolds(c, n);
      ValUnfolds(d, n);
      ValUnfolds(WordXor(c, d), n);
    }
  }

  lemma {:induction false} LowIsBit(c: bv32)
    ensures Low(c) < 2
  {
  }

  /** No bit at n or above. */
  predicate Fits(c: bv32, n: nat)
    decreases n
  {
    if n == 0 then c == 0 else Fits(Half(c), n - 1)
  }

  lemma {:induction false} ValStable(c: bv32, n: nat)
    requires Fits(c, n)
    ensures Val(c, n + 1) == Val(c, n)
  {
    hide Low;
    if n == 0 {
      assert Low(0) == 0 by { LowOfZero(); }
    } else {
      ValStable(Half(c), n - 1);
    }
  }

  lemma {:induction false} LowOfZero()
    ensures Low(0) == 0
  {
  }

  function Shift4(c: bv32): bv32 {
    Half(Half(Half(Half(c))))
  }

  lemma {:induction false} FitsFour(c: bv32, n: nat)
    ensures Fits(c, n + 4) <==> Fits(Shift4(c), n)
  {
    hide Half;
    assert Fits(c, n + 4) <==> Fits(Half(c), n + 3);
    assert Fits(Half(c), n + 3) <==> Fits(Half(Half(c)), n + 2);
    assert Fits(Half(Half(c)), n + 2) <==> Fits(Half(Half(Half(c))), n + 1);
  }

  lemma {:induction false} ShiftedFits(c: bv32)
    ensures Fits(Half(c), 31)
  {
    hide Fits;
    var c1 := Shift4(Half(c));
    var c2 := Shift4(c1);
    var c3 := Shift4(c2);
    var c4 := Shift4(c3);
    var c5 := Shift4(c4);
    var c6 := Shift4(c5);
    FitsFour(Half(c), 27);
    FitsFour(c1, 23);
    FitsFour(c2, 19);
    FitsFour(c3, 15);
    FitsFour(c4, 11);
    FitsFour(c5, 7);
    FitsFour(c6, 3);
    FitsThree(Shift4(c6));
  }

  lemma {:induction false} FitsThree(c: bv32)
    requires Half(Half(Half(c))) == 0
    ensures Fits(c, 3)
  {
  }

  function Nibble(c: bv32): nat {
    Low(c) + 2 * Low(Half(c)) + 4 * Low(Half(Half(c))) + 8 * Low(Half(Half(Half(c))))
  }

  lemma {:induction false} ValFour(c: bv32, n: nat)
    ensures Val(c, n + 4) == Nibble(c) + 16 * Val(Shift4(c), n)
  {
    hide Low, Val, Half;
    ValUnfolds(c, n + 4);
    ValUnfolds(Half(c), n + 3);
    ValUnfolds(Half(Half(c)), n + 2);
    ValUnfolds(Half(Half(Half(c))), n + 1);
  }

  lemma {:induction false} ValHex(c: bv32)
    ensures var c1 := Shift4(c);
            var c2 := Shift4(c1);
            var c3 := Shift4(c2);
            var c4 := Shift4(c3);
            var c5 := Shift4(c4);
            var c6 := Shift4(c5);
            Val(c, 32) == Nibble(c) + 0x10 * Nibble(c1) + 0x100 * Nibble(c2) + 0x1000 * Nibble(c3)
                          + 0x1_0000 * Nibble(c4) + 0x10_0000 * Nibble(c5)
                          + 0x100_0000 * Nibble(c6) + 0x1000_0000 * Nibble(Shift4(c6))
  {
    hide Nibble, Val, Shift4, Half;
    var c1 := Shift4(c);
    var c2 := Shift4(c1);
    var c3 := Shift4(c2);
    var c4 := Shift4(c3);
    var c5 := Shift4(c4);
    var c6 := Shift4(c5);
    ValFour(c, 28);
    ValFour(c1, 24);
    ValFour(c2, 20);
    ValFour(c3, 16);
    ValFour(c4, 12);
    ValFour(c5, 8);
    ValFour(c6, 4);
    ValFour(Shift4(c6), 0);
    NoBits(Shift4(Shift4(c6)));
  }

  lemma {:induction false} NoBits(c: bv32)
    ensures Val(c, 0) == 0
  {
  }

  lemma {:induction false} PolyVal()
    ensures Val(0xEDB8_8320, 32) == POLY
  {
    hide Val;
    ValHex(0xEDB8_8320);
  }

  function WordRound(c: bv32): bv32 {
    if c & 1 == 1 then WordXor(Half(c), 0xEDB8_8320) else Half(c)
  }

  lemma {:induction false} RoundOnWords(c: bv32)
    ensures Val(c, 32) < U32 && Round(Val(c, 32)) == Val(WordRound(c), 32)
  {
    hide Xor, Val, Low, WordXor;
    ValBound(c, 32);
    Pow2Of31();
    ValUnfolds(c, 32);
    LowIsBit(c);
    LowIs(c);
    ShiftedFits(c);
    ValStable(Half(c), 31);
    PolyVal();
    ValXor(Half(c), 0xEDB8_8320, 32);
  }

  lemma {:induction false} LowIs(c: bv32)
    ensures Low(c) == 1 <==> c & 1 == 1
  {
  }

  lemma {:induction false} ValBound(c: bv32, n: nat)
    ensures Val(c, n) < Pow2(n)
    decreases n
  {
    hide Low;
    if n > 0 {
      LowIsBit(c);
      ValBound(Half(c), n - 1);
    }
  }

  function WordStep(c: bv32, b: bv32): bv32 {
    WordRound(WordRound(WordRound(WordRound(WordRound(WordRound(WordRound(WordRound(WordXor(c, b)))))))))
  }

  lemma {:induction false} StepOnWords(c: bv32, b: bv32, x: byte)
    requires Val(b, 32) == x
    ensures Val(c, 32) < U32 && Rounds(XorWord(Val(c, 32), x), 8) == Val(WordStep(c, b), 32)
  {
    hide Xor, Val, WordRound, Round, WordXor;
    var d := WordXor(c, b);
    ValXor(c, b, 32);
    var d1 := WordRound(d);
    var d2 := WordRound(d1);
    var d3 := WordRound(d2);
    var d4 := WordRound(d3);
    var d5 := WordRound(d4);
    var d6 := WordRound(d5);
    var d7 := WordRound(d6);
    RoundOnWords(c);
    RoundOnWords(d);
    RoundOnWords(d1);
    RoundOnWords(d2);
    RoundOnWords(d3);
    RoundOnWords(d4);
    RoundOnWords(d5);
    RoundOnWords(d6);
    RoundOnWords(d7);
    assert Rounds(Val(d, 32), 1) == Val(d1, 32) && Rounds(Val(d, 32), 2) == Val(d2, 32);
    assert Rounds(Val(d, 32), 4) == Val(d4, 32) && Rounds(Val(d, 32), 6) == Val(d6, 32);
  }

  /** One more character of the check string: the register goes from c to d. */
  lemma {:induction false} DigestStep(p: seq<byte>, c: bv32, b: bv32, x: byte, d: bv32, q: seq<byte>)
    requires q == p + [x] && Fold(Complement(0), p) == Val(c, 32) && Val(b, 32) == x && WordStep(c, b) == d
    ensures Fold(Complement(0), q) == Val(d, 32)
  {
    hide Fold, Val, WordRound, Rounds, XorWord;
    FoldOne(Complement(0), p, x);
    StepOnWords(c, b, x);
  }

  /** The characters 1 to 9, as words and as naturals. */
  lemma {:induction false} CheckDigits()
    ensures Val(49, 32) == 49 && Val(50, 32) == 50 && Val(51, 32) == 51 && Val(52, 32) == 52 && Val(53, 32) == 53
    ensures Val(54, 32) == 54 && Val(55, 32) == 55 && Val(56, 32) == 56 && Val(57, 32) == 57
  {
    hide Val;
    SmallVal(49);
    SmallVal(50);
    SmallVal(51);
    SmallVal(52);
    SmallVal(53);
    SmallVal(54);
    SmallVal(55);
    SmallVal(56);
    SmallVal(57);
  }

  lemma {:induction false} SmallVal(c: bv32)
    requires c < 256
    ensures Val(c, 32) == Nibble(c) + 16 * Nibble(Shift4(c))
  {
    hide Val, Low;
    ValHex(c);
    assert Shift4(Shift4(c)) == 0;
    assert Nibble(0) == 0 && Shift4(0) == 0 by { LowOfZero(); }
  }

  /** The first and the last register. */
  lemma {:induction false} CheckRegisters()
    ensures Val(0xFFFF_FFFF, 32) == 0xFFFF_FFFF && Val(0x340B_C6D9, 32) == 0x340B_C6D9
  {
    hide Val;
    ValHex(0xFFFF_FFFF);
    ValHex(0x340B_C6D9);
  }

  /** The check value of CRC-32: the digest of the ASCII digits 1 to 9. */
  lemma {:induction false} CheckValue()
    ensures Checksum([49, 50, 51, 52, 53, 54, 55, 56, 57]) == 0xCBF4_3926
  {
    hide Fold, Val;
    CheckDigits();
    CheckRegisters();
    EmptyFold();
    DigestStep([], 0xFFFF_FFFF, 49, 49, 0x7C23_1048, [49]);
    DigestStep([49], 0x7C23_1048, 50, 50, 0xB0AC_BB32, [49, 50]);
    DigestStep([49, 50], 0xB0AC_BB32, 51, 51, 0x77B7_9C2D, [49, 50, 51]);
    DigestStep([49, 50, 51], 0x77B7_9C2D, 52, 52, 0x641C_1F5C, [49, 50, 51, 52]);
    DigestStep([49, 50, 51, 52], 0x641C_1F5C, 53, 53, 0x340A_C5E3, [49, 50, 51, 52, 53]);
    DigestStep([49, 50, 51, 52, 53], 0x340A_C5E3, 54, 54, 0xF68D_2C9E, [49, 50, 51, 52, 53, 54]);
    DigestStep([49, 50, 51, 52, 53, 54], 0xF68D_2C9E, 55, 55, 0xAFFC_9660, [49, 50, 51, 52, 53, 54, 55]);
    DigestStep([49, 50, 51, 52, 53, 54, 55], 0xAFFC_9660, 56, 56, 0x651F_2550, [49, 50, 51, 52, 53, 54, 55, 56]);
    var digits := [49, 50, 51, 52, 53, 54, 55, 56, 57];
    DigestStep([49, 50, 51, 52, 53, 54, 55, 56], 0x651F_2550, 57, 57, 0x340B_C6D9, digits);
  }

  lemma {:induction false} EmptyFold()
    ensures Fold(Complement(0), []) == 0xFFFF_FFFF
  {
  }
}
