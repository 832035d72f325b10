/**
 CFB-128 over an arbitrary block function: the block definition of section 6.3 of
 NIST SP 800-38A, and the byte loops of aesCFB that keep a feedback register.
 */
module Cfb {
  import opened Bytes
  import opened Meta

  /** The forward cipher function under a fixed key. */
  type Cipher = Block -> Block

  /** The bytes of `p` xor-ed with the leading bytes of the keystream block. */
  function Mask(p: seq<byte>, ks: Block): (c: seq<byte>)
    requires |p| <= 16
    ensures |c| == |p|
  {
    seq(|p|, i requires 0 <= i < |p| => XorByte(p[i], ks[i]))
  }

  /** C_1 = P_1 xor CIPH(IV), C_j = P_j xor CIPH(C_{j-1}), the last block truncated. */
  function Encrypt(ciph: Cipher, iv: Block, p: seq<byte>): (c: seq<byte>)
    ensures |c| == |p|
    decreases |p|
  {
    if |p| < 16 then Mask(p, ciph(iv))
    else
      var c := Mask(p[..16], ciph(iv));
      c + Encrypt(ciph, c, p[16..])
  }

  /** P_1 = C_1 xor CIPH(IV), P_j = C_j xor CIPH(C_{j-1}). */
  function Decrypt(ciph: Cipher, iv: Block, c: seq<byte>): (p: seq<byte>)
    ensures |p| == |c|
    decreases |c|
  {
    if |c| < 16 then Mask(c, ciph(iv))
    else Mask(c[..16], ciph(iv)) + Decrypt(ciph, c[..16], c[16..])
  }

  lemma {:induction false} MaskCancels(p: seq<byte>, ks: Block)
    requires |p| <= 16
    ensures Mask(Mask(p, ks), ks) == p
  {
    forall i | 0 <= i < |p|
      ensures Mask(Mask(p, ks), ks)[i] == p[i]
    {
      XorCancels(p[i], ks[i]);
    }
  }

  lemma {:induction false} DecryptInvertsEncrypt(ciph: Cipher, iv: Block, p: seq<byte>)
    ensures Decrypt(ciph, iv, Encrypt(ciph, iv, p)) == p
    decreases |p|
  {
    hide Mask;
    if |p| < 16 {
      MaskCancels(p, ciph(iv));
    } else {
      var c := Mask(p[..16], ciph(iv));
      var rest := Encrypt(ciph, c, p[16..]);
      MaskCancels(p[..16], ciph(iv));
      DecryptInvertsEncrypt(ciph, c, p[16..]);
      assert (c + rest)[..16] == c && (c + rest)[16..] == rest;
    }
  }

  lemma {:induction false} MaskPrefix(p: seq<byte>, ks: Block, n: nat)
    requires n <= |p| <= 16
    ensures Mask(p[..n], ks) == Mask(p, ks)[..n]
  {
  }

  /** Encrypting a prefix gives a prefix of the encryption. */
  lemma {:induction false} EncryptPrefix(ciph: Cipher, iv: Block, p: seq<byte>, n: nat)
    requires n <= |p|
    ensures Encrypt(ciph, iv, p[..n]) == Encrypt(ciph, iv, p)[..n]
    decreases |p|
  {
    hide Mask;
    if |p| < 16 {
      MaskPrefix(p, ciph(iv), n);
    } else {
      var c := Mask(p[..16], ciph(iv));
      if n < 16 {
        MaskPrefix(p[..16], ciph(iv), n);
        assert p[..16][..n] == p[..n];
      } else {
        EncryptPrefix(ciph, c, p[16..], n - 16);
        assert p[..n][..16] == p[..16];
        assert p[..n][16..] == p[16..][..n - 16];
      }
    }
  }

  lemma {:induction false} DecryptPrefix(ciph: Cipher, iv: Block, c: seq<byte>, n: nat)
    requires n <= |c|
    ensures Decrypt(ciph, iv, c[..n]) == Decrypt(ciph, iv, c)[..n]
    decreases |c|
  {
    hide Mask;
    if |c| < 16 {
      MaskPrefix(c, ciph(iv), n);
    } else if n < 16 {
      MaskPrefix(c[..16], ciph(iv), n);
      assert c[..16][..n] == c[..n];
    } else {
      DecryptPrefix(ciph, c[..16], c[16..], n - 16);
      assert c[..n][..16] == c[..16];
      assert c[..n][16..] == c[16..][..n - 16];
    }
  }

  // ---- byte-wise view ----

  /** The input of the block function for the block starting at b: the block before it, at first the IV. */
  function Feedback(iv: Block, c: seq<byte>, b: nat): Block
    requires b <= |c| && (b == 0 || b >= 16)
  {
    if b == 0 then iv else c[b - 16..b]
  }

  /** The start of the block of byte k. */
  function BlockStart(k: nat): (b: nat)
    ensures b <= k && (b == 0 || b >= 16)
  {
    k - k % 16
  }

  /** Byte k of the keystream under ciphertext c. */
  function Keystream(ciph: Cipher, iv: Block, c: seq<byte>, k: nat): byte
    requires k < |c|
  {
    ciph(Feedback(iv, c, BlockStart(k)))[k % 16]
  }

  lemma {:induction false} SliceOfTail(c: seq<byte>, lo: nat)
    requires lo + 32 <= |c|
    ensures c[16..][lo..lo + 16] == c[lo + 16..lo + 32]
  {
  }

  lemma {:induction false} KeystreamShift(ciph: Cipher, iv: Block, c: seq<byte>, k: nat)
    requires k + 16 < |c|
    ensures Keystream(ciph, iv, c, k + 16) == Keystream(ciph, c[..16], c[16..], k)
  {
    var b := BlockStart(k);
    assert (k + 16) % 16 == k % 16 && BlockStart(k + 16) == b + 16;
    if b == 0 {
      assert c[b..b + 16] == c[..16];
    } else {
      SliceOfTail(c, b - 16);
    }
  }

  lemma {:induction false} KeystreamOfFirstBlock(ciph: Cipher, iv: Block, c: seq<byte>, k: nat)
    requires k < |c| && k < 16
    ensures Keystream(ciph, iv, c, k) == ciph(iv)[k]
  {
  }

  /** Each plaintext byte is its ciphertext byte under the keystream of the block before. */
  lemma {:induction false} DecryptBytewise(ciph: Cipher, iv: Block, c: seq<byte>, k: nat)
    requires k < |c|
    ensures Decrypt(ciph, iv, c)[k] == XorByte(c[k], Keystream(ciph, iv, c, k))
    decreases |c|
  {
    hide XorByte, Keystream;
    if k < 16 {
      KeystreamOfFirstBlock(ciph, iv, c, k);
    } else {
      DecryptBytewise(ciph, c[..16], c[16..], k - 16);
      KeystreamShift(ciph, iv, c, k - 16);
    }
  }

  /** Each ciphertext byte is its plaintext byte under the keystream fed back from the output. */
  lemma {:induction false} EncryptBytewise(ciph: Cipher, iv: Block, p: seq<byte>, k: nat)
    requires k < |p|
    ensures Encrypt(ciph, iv, p)[k] == XorByte(p[k], Keystream(ciph, iv, Encrypt(ciph, iv, p), k))
    decreases |p|
  {
    hide XorByte, Keystream;
    var whole := Encrypt(ciph, iv, p);
    if k < 16 {
      KeystreamOfFirstBlock(ciph, iv, whole, k);
    } else {
      var c := Mask(p[..16], ciph(iv));
      hide Mask;
      EncryptBytewise(ciph, c, p[16..], k - 16);
      KeystreamShift(ciph, iv, whole, k - 16);
      assert whole[..16] == c && whole[16..] == Encrypt(ciph, c, p[16..]);
    }
  }

  /**
   Section 6.3 of NIST SP 800-38A byte by byte: the block of byte k starts at b; its input
   is the IV for the first block and the ciphertext block before it for every other.
   */
  lemma {:induction false} BlockEquations(ciph: Cipher, iv: Block, p: seq<byte>, k: nat, b: nat)
    requires k < |p| && b <= k < b + 16 && b % 16 == 0
    ensures var c := Encrypt(ciph, iv, p);
            var input := if b == 0 then iv else c[b - 16..b];
            c[k] == XorByte(p[k], ciph(input)[k - b]) && p[k] == XorByte(c[k], ciph(input)[k - b])
  {
    hide Encrypt, Decrypt, XorByte, Keystream;
    var c := Encrypt(ciph, iv, p);
    KeystreamOfBlock(ciph, iv, c, k, b);
    EncryptBytewise(ciph, iv, p, k);
    DecryptInvertsEncrypt(ciph, iv, p);
    DecryptBytewise(ciph, iv, c, k);
  }

  lemma {:induction false} KeystreamOfBlock(ciph: Cipher, iv: Block, c: seq<byte>, k: nat, b: nat)
    requires k < |c| && b <= k < b + 16 && b % 16 == 0
    ensures Keystream(ciph, iv, c, k) == ciph(if b == 0 then iv else c[b - 16..b])[k - b]
  {
    hide BlockStart;
    BlockStartIs(k, b);
  }

  lemma {:induction false} BlockStartIs(k: nat, b: nat)
    requires b <= k < b + 16 && b % 16 == 0
    ensures BlockStart(k) == b && (b == 0 || b >= 16)
  {
  }

  // ---- the byte loops ----

  /** (n + 1) & 15 */
  function NextIndex(n: nat): (r: nat)
    ensures r < 16
  {
    (n + 1) % 16
  }

  /** The register and the keystream block before byte i = b + n, where b starts its block. */
  ghost predicate LoopState(ciph: Cipher, iv: Block, c: seq<byte>, i: nat, n: nat, reg: seq<byte>, ks: seq<byte>) {
    && n < 16 && n == i % 16 && i <= |c| && |reg| == 16 && |ks| == 16
    && var b := BlockStart(i);
    && reg[..n] == c[b..i]
    && (n == 0 ==> reg == Feedback(iv, c, i))
    && (n > 0 ==> ks == ciph(Feedback(iv, c, b)))
  }

  lemma {:induction false} LoopStarts(ciph: Cipher, iv: Block, c: seq<byte>, ks: Block)
    ensures LoopState(ciph, iv, c, 0, 0, iv, ks)
  {
  }

  lemma {:induction false} LoopAdvances(
      ciph: Cipher, iv: Block, c: seq<byte>, i: nat, n: nat, reg: seq<byte>, ks: seq<byte>, ks': seq<byte>)
    requires i < |c| && LoopState(ciph, iv, c, i, n, reg, ks)
    requires ks' == if n == 0 then ciph(reg) else ks
    ensures ks'[n] == Keystream(ciph, iv, c, i)
    ensures LoopState(ciph, iv, c, i + 1, NextIndex(n), reg[n := c[i]], ks')
  {
    var b, reg' := BlockStart(i), reg[n := c[i]];
    assert ks' == ciph(Feedback(iv, c, b));
    assert reg'[..n + 1] == reg[..n] + [c[i]] == c[b..i + 1];
    if n == 15 {
      assert BlockStart(i + 1) == i + 1 == b + 16;
      assert reg' == reg'[..16];
    } else {
      assert BlockStart(i + 1) == b;
    }
  }

  /** block.Encrypt(dst, src) */
  method EncryptBlock(ciph: Cipher, dst: array<byte>, src: array<byte>)
    requires dst.Length == 16 && src.Length == 16
    modifies dst
    ensures dst[..] == ciph(old(src[..]))
  {
    var out := ciph(src[..]);
    forall j | 0 <= j < 16 {
      dst[j] := out[j];
    }
    assert dst[..] == out;
  }

  method CopyBlock(b: Block) returns (a: array<byte>)
    ensures fresh(a) && a.Length == 16 && a[..] == b
  {
    a := new byte[16](j requires 0 <= j < 16 => b[j]);
    assert a[..] == b;
  }

  /** The keystream byte at n; the block function runs at the start of each block. */
  method TakeKeystream(ciph: Cipher, ghost iv: Block, ghost ct: seq<byte>, ghost i: nat,
                       reg: array<byte>, ks: array<byte>, n: nat) returns (k: byte)
    requires reg != ks && reg.Length == 16 && ks.Length == 16
    requires n < 16 && i < |ct| && LoopState(ciph, iv, ct, i, n, reg[..], ks[..])
    modifies ks
    ensures k == Keystream(ciph, iv, ct, i)
    ensures LoopState(ciph, iv, ct, i + 1, NextIndex(n), reg[..][n := ct[i]], ks[..])
  {
    hide LoopState, Keystream;
    ghost var ks0 := ks[..];
    if n == 0 {
      EncryptBlock(ciph, ks, reg);
    }
    LoopAdvances(ciph, iv, ct, i, n, reg[..], ks0, ks[..]);
    k := ks[n];
  }

  method FeedBack(reg: array<byte>, n: nat, c: byte)
    requires n < reg.Length
    modifies reg
    ensures reg[..] == old(reg[..])[n := c]
  {
    reg[n] := c;
  }

  /** One turn of the decryption loop. */
  method DecryptByte(ciph: Cipher, ct: seq<byte>, i: nat, ghost iv: Block, reg: array<byte>, ks: array<byte>, n: nat)
    returns (p: byte, n': nat)
    requires reg != ks && reg.Length == 16 && ks.Length == 16
    requires n < 16 && i < |ct| && LoopState(ciph, iv, ct, i, n, reg[..], ks[..])
    modifies reg, ks
    ensures p == Decrypt(ciph, iv, ct)[i]
    ensures n' < 16 && LoopState(ciph, iv, ct, i + 1, n', reg[..], ks[..])
  {
    hide Decrypt, LoopState, Keystream, XorByte, NextIndex;
    var k := TakeKeystream(ciph, iv, ct, i, reg, ks, n);
    DecryptBytewise(ciph, iv, ct, i);
    p := XorByte(ct[i], k);
    FeedBack(reg, n, ct[i]);
    n' := NextIndex(n);
  }

  /** One turn of the encryption loop: what is fed back is the byte just made. */
  method EncryptByte(ciph: Cipher, pt: seq<byte>, i: nat, ghost iv: Block, reg: array<byte>, ks: array<byte>, n: nat)
    returns (c: byte, n': nat)
    requires reg != ks && reg.Length == 16 && ks.Length == 16
    requires n < 16 && i < |pt| && LoopState(ciph, iv, Encrypt(ciph, iv, pt), i, n, reg[..], ks[..])
    modifies reg, ks
    ensures c == Encrypt(ciph, iv, pt)[i]
    ensures n' < 16 && LoopState(ciph, iv, Encrypt(ciph, iv, pt), i + 1, n', reg[..], ks[..])
  {
    hide Encrypt, LoopState, Keystream, XorByte, NextIndex;
    ghost var ct := Encrypt(ciph, iv, pt);
    var k := TakeKeystream(ciph, iv, ct, i, reg, ks, n);
    EncryptBytewise(ciph, iv, pt, i);
    c := XorByte(pt[i], k);
    FeedBack(reg, n, c);
    n' := NextIndex(n);
  }

  method DecryptRegion(ciph: Cipher, ct: seq<byte>, iv: Block) returns (out: array<byte>)
    ensures fresh(out) && out[..] == Decrypt(ciph, iv, ct)
  {
    hide Decrypt, LoopState, Zeros;
    out := new byte[|ct|];
    var n := 0;
    var reg := CopyBlock(iv);
    var ks := CopyBlock(Zeros(16));
    LoopStarts(ciph, iv, ct, ks[..]);
    for i := 0 to |ct|
      invariant 0 <= n < 16 && LoopState(ciph, iv, ct, i, n, reg[..], ks[..])
      invariant forall j | 0 <= j < i :: out[j] == Decrypt(ciph, iv, ct)[j]
    {
      var p;
      p, n := DecryptByte(ciph, ct, i, iv, reg, ks, n);
      out[i] := p;
    }
  }

  method EncryptRegion(ciph: Cipher, pt: seq<byte>, iv: Block) returns (out: array<byte>)
    ensures fresh(out) && out[..] == Encrypt(ciph, iv, pt)
  {
    hide Encrypt, LoopState, Zeros;
    out := new byte[|pt|];
    var n := 0;
    var reg := CopyBlock(iv);
    var ks := CopyBlock(Zeros(16));
    LoopStarts(ciph, iv, Encrypt(ciph, iv, pt), ks[..]);
    for i := 0 to |pt|
      invariant 0 <= n < 16 && LoopState(ciph, iv, Encrypt(ciph, iv, pt), i, n, reg[..], ks[..])
      invariant forall j | 0 <= j < i :: out[j] == Encrypt(ciph, iv, pt)[j]
    {
      var c;
      c, n := EncryptByte(ciph, pt, i, iv, reg, ks, n);
      out[i] := c;
    }
  }
}
