/**
 Removing one key from an encrypted store appends the tombstone as plaintext. Exactly
 when such a store still reloads to the map without the key.
 */
module EncryptedRemove {
  import opened Bytes
  import opened Crc32
  import opened Wire
  import opened LogRegion
  import opened Meta
  import opened KeyOrder
  import opened Store
  import opened Coherence
  import opened Operations
  import opened Recovery
  import Cfb

  /** A replay that loses a key holds its tombstone, and a tail no longer than that is the tombstone. */
  lemma {:induction false} LosingAKeyTakesItsTombstone(s: seq<byte>, pos: nat, d: Dict, key: Key)
    requires pos <= |s| && key in d && key != [] && |key| < U32
    requires Replay(s, pos, d).Done? && key !in Replay(s, pos, d).dict
    ensures |s| - pos >= |Pair(key, [])|
    ensures |s| - pos == |Pair(key, [])| ==> s[pos..] == Pair(key, [])
    decreases |s| - pos
  {
    hide ReadBytes, Data;
    var k := ReadBytes(s, pos);
    if k.value == [] {
      LosingAKeyTakesItsTombstone(s, k.next, d, key);
    } else {
      var v := ReadBytes(s, k.next);
      if key in Put(d, k.value, v.value) {
        LosingAKeyTakesItsTombstone(s, v.next, Put(d, k.value, v.value), key);
      } else {
        ReadBytesConsumes(s, pos);
        ReadBytesConsumes(s, k.next);
        if |s| - pos == |Pair(key, [])| {
          ReadBytesCanonical(s, pos, key);
          ReadBytesCanonical(s, k.next, []);
          assert s[pos..] == s[pos..k.next] + s[k.next..v.next];
        }
      }
    }
  }

  /** Appending bytes as long as a tombstone removes the key only if they are that tombstone. */
  lemma {:induction false} TailRemovesIff(plain: seq<byte>, tail: seq<byte>, key: Key)
    requires plain != [] && Parse(plain).Done? && key in Parse(plain).dict
    requires key != [] && |key| < U32 && |tail| == |Pair(key, [])|
    ensures Parse(plain + tail) == Done(Parse(plain).dict - {key}) <==> tail == Pair(key, [])
  {
    hide Pair, Replay;
    ParseAppend(plain, tail);
    if Parse(plain + tail) == Done(Parse(plain).dict - {key}) {
      LosingAKeyTakesItsTombstone(plain + tail, |plain|, Parse(plain).dict, key);
      assert (plain + tail)[|plain|..] == tail;
    }
    ParseAppendPair(plain, key, []);
  }

  /** The keystream that decryption will apply to the appended tombstone is zero. */
  ghost predicate KeystreamVanishes(ciph: Cfb.Cipher, iv: Block, region: seq<byte>, tomb: seq<byte>) {
    forall k | |region| <= k < |region + tomb| :: Cfb.Keystream(ciph, iv, region + tomb, k) == 0
  }

  lemma {:induction false} TailDecryptsToItselfIff(ciph: Cfb.Cipher, iv: Block, region: seq<byte>, tomb: seq<byte>)
    ensures Cfb.Decrypt(ciph, iv, region + tomb)[|region|..] == tomb <==> KeystreamVanishes(ciph, iv, region, tomb)
  {
    hide Cfb.Decrypt, Cfb.Keystream;
    var c := region + tomb;
    var p := Cfb.Decrypt(ciph, iv, c);
    forall k | |region| <= k < |c|
      ensures p[k] == c[k] <==> Cfb.Keystream(ciph, iv, c, k) == 0
    {
      var ks := Cfb.Keystream(ciph, iv, c, k);
      Cfb.DecryptBytewise(ciph, iv, c, k);
      XorZero(c[k]);
      if p[k] == c[k] {
        XorFixesOnlyByZero(c[k], ks);
      }
    }
    assert forall k | |region| <= k < |c| :: c[k] == tomb[k - |region|] && p[k] == p[|region|..][k - |region|];
    if p[|region|..] == tomb {
      assert forall k | |region| <= k < |c| :: p[k] == c[k];
    }
  }

  lemma {:induction false} DecryptSplits(ciph: Cfb.Cipher, iv: Block, region: seq<byte>, tomb: seq<byte>)
    ensures var p := Cfb.Decrypt(ciph, iv, region + tomb);
            p == Cfb.Decrypt(ciph, iv, region) + p[|region|..]
  {
    hide Cfb.Decrypt;
    assert (region + tomb)[..|region|] == region;
    Cfb.DecryptPrefix(ciph, iv, region + tomb, |region|);
  }

  /** After an appended record the reload takes the first branch; it agrees exactly when that branch decodes to d. */
  lemma {:induction false} AppendedAgreesIff(st: Store, tomb: seq<byte>, d: Dict)
    requires Coherent(st) && OnDisk(st) && st.inst.info.version == VERSION_FLAG
    requires 4 + st.inst.actual + |tomb| <= |st.files.data| <= SIZE_LIMIT
    ensures var i, st' := st.inst, AppendRaw(WithDict(st, d), tomb);
            Coherent(st') <==> Parse(Plain(i.crypt, i.info.iv, Region(st.files, i.actual) + tomb)) == Done(d)
  {
    hide ParseMeta, Parse, Plain, Poke, Patch, Checksum, Update;
    var cut := WithDict(st, d);
    var st' := AppendRaw(cut, tomb);
    CoherentFacts(st);
    AppendedRegion(cut, tomb);
    UpdateIsChecksumOfAppend(Region(st.files, st.inst.actual), tomb);
    ParsePoked(st.files.meta, st'.inst.crc, st'.inst.actual);
  }

  /**
   Within the 32-bit limit, removing a live key of an encrypted store leaves a store that
   reloads to the map without it if and only if the removal compacts, or the keystream
   under the appended tombstone happens to be all zero.
   */
  lemma {:induction false} EncryptedRemoveAgreesIff(st: Store, key: Key, iv: Block)
    requires Coherent(st) && st.inst.crypt.Some? && key in st.inst.dict && |st.files.data| <= SIZE_LIMIT
    ensures Did(RemoveKey(st, key, iv), st, Abs(st.inst.dict - {key}, st.inst.expire, st.inst.seconds))
            <==> (AppendsTombstone(st, key) ==>
                    && 4 + st.inst.actual <= |st.files.data|
                    && KeystreamVanishes(st.inst.crypt.value, st.inst.info.iv,
                                         Region(st.files, st.inst.actual), Pair(key, [])))
  {
    hide Coherent, Pair, Parse, KeystreamVanishes, AppendRaw, WriteBack, OnDisk;
    if !AppendsTombstone(st, key) {
      RemoveDid(st, key, iv);
    } else {
      var i, tomb := st.inst, Pair(key, []);
      EncryptedFacts(st, key);
      var region := Region(st.files, i.actual);
      var plain := Plain(i.crypt, i.info.iv, region);
      var p := Cfb.Decrypt(i.crypt.value, i.info.iv, region + tomb);
      DecryptSplits(i.crypt.value, i.info.iv, region, tomb);
      TailRemovesIff(plain, p[|region|..], key);
      TailDecryptsToItselfIff(i.crypt.value, i.info.iv, region, tomb);
      AppendedAgreesIff(st, tomb, i.dict - {key});
      AppendedFields(WithDict(st, i.dict - {key}), tomb);
      AppendedRegion(WithDict(st, i.dict - {key}), tomb);
    }
  }

  /** The same for every store and key: only the tombstone appended to a live key's ciphertext can fail. */
  lemma {:induction false} RemoveAgreesIff(st: Store, key: Key, iv: Block)
    requires Coherent(st) && |st.files.data| <= SIZE_LIMIT
    ensures Did(RemoveKey(st, key, iv), st, Abs(st.inst.dict - {key}, st.inst.expire, st.inst.seconds))
            <==> (st.inst.crypt.Some? && key in st.inst.dict && AppendsTombstone(st, key) ==>
                    && 4 + st.inst.actual <= |st.files.data|
                    && KeystreamVanishes(st.inst.crypt.value, st.inst.info.iv,
                                         Region(st.files, st.inst.actual), Pair(key, [])))
  {
    hide Coherent, Pair, KeystreamVanishes, Did, RemoveKey, AppendsTombstone, Region;
    if st.inst.crypt.Some? && key in st.inst.dict {
      EncryptedRemoveAgreesIff(st, key, iv);
    } else {
      RemoveDid(st, key, iv);
    }
  }

  lemma {:induction false} AppendedFields(st: Store, pair: seq<byte>)
    requires Mapped(st) && 4 + st.inst.actual + |pair| <= |st.files.data|
    ensures var st' := AppendRaw(st, pair);
            && st'.cfg == st.cfg && st'.inst.dict == st.inst.dict
            && st'.inst.needFull == st.inst.needFull
            && st'.inst.expire == st.inst.expire && st'.inst.seconds == st.inst.seconds
  {
    hide Poke, Patch, Update;
  }

  lemma {:induction false} EncryptedFacts(st: Store, key: Key)
    requires Coherent(st) && key in st.inst.dict && AppendsTombstone(st, key) && |st.files.data| <= SIZE_LIMIT
    ensures var i := st.inst;
            && Mapped(st) && OnDisk(st) && i.info.version == VERSION_FLAG
            && key != [] && |key| < U32 && 4 + i.actual <= |st.files.data|
            && Parse(Plain(i.crypt, i.info.iv, Region(st.files, i.actual))) == Done(i.dict)
            && Plain(i.crypt, i.info.iv, Region(st.files, i.actual)) != []
  {
    hide LoadData, Weight, Pair;
    CoherentFacts(st);
    CoherentDict(st);
    WeightBoundsLengths(st.inst.dict);
    EmptyParse();
  }

  // ---- the failure is real ----

  /** A keystream of ones, never zero. */
  function Ones(b: Block): Block {
    seq(16, _ => 1)
  }

  /** A new encrypted store, one set, one remove: the files no longer carry the map. */
  lemma {:induction false} EncryptedRemoveCounterexample(cfg: Config, iv: Block)
    requires cfg.page <= SIZE_LIMIT - 16
    ensures var blank := Store(cfg, FreshFiles(cfg.page), Blank(Some(Ones)));
            var st := SetBlob(blank, [107], [1], iv).st;
            && Coherent(st) && st.inst.dict == map[[107] := [1]]
            && !Did(RemoveKey(st, [107], iv), st, Abs(map[], st.inst.expire, st.inst.seconds))
  {
    hide Coherent, Pair, KeystreamVanishes, WriteBack, Settled, Floor, Region, Ones, SetBlob, RemoveKey, Zeros;
    var blank := Store(cfg, FreshFiles(cfg.page), Blank(Some(Ones)));
    FreshIsCoherent(cfg, Some(Ones));
    SmallPairs();
    SetBlobDid(blank, [107], [1], iv);
    var st := SetBlob(blank, [107], [1], iv).st;
    var d := map[[107] := [1]];
    assert st.inst.dict == d && d - {[107]} == map[];
    FirstSet(blank, [107], [1], iv);
    EncryptedRemoveAgreesIff(st, [107], iv);
    OnesNeverVanish(st.inst.info.iv, Region(st.files, st.inst.actual), Pair([107], []));
  }

  lemma {:induction false} SmallPairs()
    ensures |Pair([107], [1])| == 4 && |Pair([107], [])| == 3
  {
  }

  lemma {:induction false} OnesNeverVanish(iv: Block, region: seq<byte>, tomb: seq<byte>)
    requires tomb != []
    ensures !KeystreamVanishes(Ones, iv, region, tomb)
  {
    assert Cfb.Keystream(Ones, iv, region + tomb, |region|) == 1;
  }

  /** The first set of an empty encrypted store is a rewrite that keeps the file's size. */
  lemma {:induction false} FirstSet(st: Store, key: Key, blob: Blob, iv: Block)
    requires Coherent(st) && st.inst.crypt.Some? && st.inst.dict == map[] && |Pair(key, blob)| == 4
    requires |st.files.data| == st.cfg.page && |st.files.data| + 4 <= SIZE_LIMIT && key != [] && blob != []
    ensures var out := SetBlob(st, key, blob, iv).st;
            && |out.files.data| == |st.files.data| && out.inst.actual == 8
            && out.inst.info.version == VERSION_FLAG && !out.inst.needFull && out.inst.crypt == st.inst.crypt
  {
    hide Coherent, Recorded, Pair, WriteBack, Weight, Packed;
    CoherentPackable(st);
    var d := map[key := blob];
    assert st.inst.dict[key := blob] == d;
    SetPackable(st, key, blob);
    WriteBackKeepsCoherent(WithDict(st, d), false, 4, iv);
    WriteBackFits(WithDict(st, d), false, 4, iv);
    WeightRemove(d, key);
    assert d - {key} == map[];
    EmptyWeight();
    PackedLength(d);
  }
}
