/**
 A new key reaches the process that chose it and the processes that open later with it. A
 process that was already attached goes on with the old key: when it still reads the map.
 */
module SharedKey {
  import opened Bytes
  import opened Crc32
  import opened Wire
  import opened LogRegion
  import opened KeyOrder
  import opened Meta
  import opened Growth
  import opened Store
  import opened Coherence
  import opened Operations
  import opened Recovery
  import EncryptedRemove
  import Cfb

  // ---- what an attached process serves after a re-key ----

  /** The canary a re-key leaves differs from the process's: in the sequence, or else in the size. */
  ghost predicate Notices(st: Store, i: Inst) {
    i.needLoad || i.info.sequence != Lo32(st.inst.info.sequence + 1) || i.actual != 4 + Weight(st.inst.dict)
  }

  /** The dictionary sealed under the new key, read under another one. */
  ghost function ReadUnder(st: Store, crypt: Option<Cfb.Cipher>, iv: Block, other: Option<Cfb.Cipher>): Parsed {
    Parse(Plain(other, if crypt.Some? then iv else st.inst.info.iv, Sealed(crypt, iv, Packed(st.inst.dict))))
  }

  /** The region a rewrite leaves is the sealed packing. */
  lemma {:induction false} RewrittenIsSealed(st: Store, iv: Block)
    requires Mapped(st) && 4 + |Packed(st.inst.dict)| < U32
    ensures var f := WriteBack(st, true, 0, iv).st.files;
            && 4 + |Packed(st.inst.dict)| <= |f.data|
            && Region(f, |Packed(st.inst.dict)|) == Sealed(st.inst.crypt, iv, Packed(st.inst.dict))
  {
    hide Packed, GrownSize, Parse, Checksum, StoreMeta, Resize, Rewritten, Cfb.Encrypt;
    PayloadFits(st.cfg.page, |st.files.data|, |Packed(st.inst.dict)|, |st.inst.dict|, true, 0);
    RewrittenRegion(Resize(st.files.data, NewSize(st, true, 0)), Sealed(st.inst.crypt, iv, Packed(st.inst.dict)));
  }

  lemma {:induction false} RewriteIv(st: Store, iv: Block)
    requires Mapped(st)
    ensures WriteBack(st, true, 0, iv).st.inst.info.iv == if st.inst.crypt.Some? then iv else st.inst.info.iv
  {
    hide Packed, Parse, NewSize, Sealed, Rewritten, Resize, StoreMeta, Lo32;
  }

  lemma {:induction false} CoherentExpire(st: Store)
    requires Coherent(st)
    ensures Mapped(st) && !st.inst.needLoad && st.inst.expire == ExpireEnabled(st.inst.info)
  {
    hide LoadData;
    CoherentFacts(st);
  }

  /** The files after a re-key: recorded, one sequence on, holding the sealed packing. */
  lemma {:induction false} KeyChanged(st: Store, crypt: Option<Cfb.Cipher>, iv: Block)
    requires Coherent(st) && Packable(st.inst.dict)
    ensures Mapped(st)
    ensures var out := ChangeKey(st, crypt, iv);
            && out.ok && Recorded(out.st) && Mapped(out.st) && out.st.cfg == st.cfg
            && out.st.inst.dict == st.inst.dict && out.st.inst.crypt == crypt
            && out.st.inst.actual == |Packed(st.inst.dict)| == 4 + Weight(st.inst.dict)
            && out.st.inst.info.sequence == Lo32(st.inst.info.sequence + 1)
            && out.st.inst.info.iv == (if crypt.Some? then iv else st.inst.info.iv)
            && 4 + out.st.inst.actual <= |out.st.files.data|
            && Region(out.st.files, out.st.inst.actual) == Sealed(crypt, iv, Packed(st.inst.dict))
  {
    hide Coherent, Recorded, WriteBack, Packed, Weight, Sealed, Lo32;
    var next := st.(inst := st.inst.(crypt := crypt));
    CoherentExpire(st);
    PackedLength(st.inst.dict);
    WriteBackKeepsCoherent(next, true, 0, iv);
    WriteBackFits(next, true, 0, iv);
    WrittenMeta(next, true, 0, iv);
    RewrittenIsSealed(next, iv);
    RewriteIv(next, iv);
  }

  /** A noticed change of a recorded store: the region is decoded under the process's own key. */
  lemma {:induction false} ReloadUnderOwnKey(st: Store, i: Inst)
    requires Recorded(st) && st.cfg.multiProcess
    requires i.needLoad || i.info.sequence != st.inst.info.sequence || i.actual != st.inst.actual
    ensures 4 + st.inst.actual <= |st.files.data|
    ensures var other := CheckLoadData(Store(st.cfg, st.files, i)).inst;
            other.dict == match Parse(Plain(i.crypt, st.inst.info.iv, Region(st.files, st.inst.actual)))
                          case Done(d) => d
                          case Stuck(_) => i.dict
  {
    hide ParseMeta, Parse, Plain, Checksum;
  }

  /**
   Re-keying seen from another process: what it serves next is what its own key makes of
   the dictionary sealed under the new one, and if that is no log, what it had.
   */
  lemma {:induction false} OtherServes(st: Store, crypt: Option<Cfb.Cipher>, iv: Block, i: Inst)
    requires Coherent(st) && Packable(st.inst.dict) && st.cfg.multiProcess && Notices(st, i)
    ensures Mapped(st) && ChangeKey(st, crypt, iv).ok && Mapped(ChangeKey(st, crypt, iv).st)
    ensures CheckLoadData(Store(st.cfg, ChangeKey(st, crypt, iv).st.files, i)).inst.dict ==
            match ReadUnder(st, crypt, iv, i.crypt)
            case Done(d) => d
            case Stuck(_) => i.dict
  {
    hide Coherent, Packable, ChangeKey, Recorded, CheckLoadData, Parse, Plain, Sealed, Packed, Region, Lo32, Weight;
    KeyChanged(st, crypt, iv);
    ReloadUnderOwnKey(ChangeKey(st, crypt, iv).st, i);
  }

  /**
   So it serves the map exactly when its key decodes the new ciphertext to the map, or
   decodes nothing while it already had the map.
   */
  lemma {:induction false} OtherFollowsIff(st: Store, crypt: Option<Cfb.Cipher>, iv: Block, i: Inst)
    requires Coherent(st) && Packable(st.inst.dict) && st.cfg.multiProcess && Notices(st, i)
    ensures Mapped(st) && Mapped(ChangeKey(st, crypt, iv).st)
    ensures CheckLoadData(Store(st.cfg, ChangeKey(st, crypt, iv).st.files, i)).inst.dict == st.inst.dict <==>
            var read := ReadUnder(st, crypt, iv, i.crypt);
            read == Done(st.inst.dict) || (read.Stuck? && i.dict == st.inst.dict)
  {
    hide Coherent, Packable, ChangeKey, CheckLoadData, ReadUnder;
    OtherServes(st, crypt, iv, i);
  }

  /** Re-keying to the key the other process has keeps it in step, whatever it had read before. */
  lemma {:induction false} SameKeyFollows(st: Store, crypt: Option<Cfb.Cipher>, iv: Block, i: Inst)
    requires Coherent(st) && Packable(st.inst.dict) && st.cfg.multiProcess && Notices(st, i) && i.crypt == crypt
    ensures Mapped(st) && Mapped(ChangeKey(st, crypt, iv).st)
    ensures CheckLoadData(Store(st.cfg, ChangeKey(st, crypt, iv).st.files, i)).inst.dict == st.inst.dict
  {
    hide Coherent, ChangeKey, CheckLoadData, Parse, Plain, Sealed, Packed, Weight;
    OtherFollowsIff(st, crypt, iv, i);
    PackableIsStorable(st.inst.dict);
    PackedParses(st.inst.dict);
    SealedOpens(crypt, iv, Packed(st.inst.dict));
    PlainIv(crypt, iv, if crypt.Some? then iv else st.inst.info.iv, Sealed(crypt, iv, Packed(st.inst.dict)));
  }

  // ---- both failures are real ----

  const ONE_KEY: Dict := map[[107] := [1]]

  /** The region of one key, and what a keystream of ones makes of it. */
  const ONE_REGION: seq<byte> := [0x80, 0x80, 0x80, 1, 1, 107, 1, 1]
  const ONE_SEALED: seq<byte> := [0x81, 0x81, 0x81, 0, 0, 106, 0, 0]

  lemma {:induction false} OneRegion()
    ensures Packed(ONE_KEY) == ONE_REGION
  {
    hide Packed;
    PackedOne([107], [1]);
    assert Pair([107], [1]) == [1, 107, 1, 1];
  }

  lemma {:induction false} SmallXors()
    ensures XorByte(0x80, 1) == 0x81 && XorByte(1, 1) == 0 && XorByte(107, 1) == 106
  {
    XorZero(0x40);
    XorZero(53);
    XorZero(0);
  }

  lemma {:induction false} OneSealed(iv: Block)
    ensures Sealed(Some(EncryptedRemove.Ones), iv, ONE_REGION) == ONE_SEALED
  {
    hide XorByte;
    SmallXors();
    var c := Cfb.Encrypt(EncryptedRemove.Ones, iv, ONE_REGION);
    forall k | 0 <= k < 8
      ensures c[k] == XorByte(ONE_REGION[k], 1)
    {
      Cfb.EncryptBytewise(EncryptedRemove.Ones, iv, ONE_REGION, k);
      Cfb.KeystreamOfFirstBlock(EncryptedRemove.Ones, iv, c, k);
    }
  }

  /** Read without the key, the ciphertext is not a log: a record claims 106 bytes and two are left. */
  lemma {:induction false} SealedDoesNotParse()
    ensures Parse(ONE_SEALED).Stuck?
  {
    var s := ONE_SEALED;
    assert RawVarint(s, 3, 3) == Ok(0, 4);
    assert RawVarint(s, 2, 2).next == 4;
    assert RawVarint(s, 0, 0).next == 4;
    assert RawVarint(s, 4, 0) == Ok(0, 5) && s[5..5] == [];
    assert ReadBytes(s, 4) == Ok([], 5);
    assert RawVarint(s, 5, 0) == Ok(106, 6);
    assert ReadBytes(s, 5).Err?;
    assert Replay(s, 5, map[]).Stuck?;
    assert Replay(s, 4, map[]) == Replay(s, 5, map[]);
  }

  lemma {:induction false} OnePackable()
    ensures Packable(ONE_KEY) && Weight(ONE_KEY) == 4
  {
    hide Weight, Pair;
    EncryptedRemove.SmallPairs();
    WeightRemove(ONE_KEY, [107]);
    assert ONE_KEY - {[107]} == map[];
    EmptyWeight();
  }

  /** Read without the key, the region sealed by its own bytes is eight empty fields. */
  function OwnBytes(b: Block): Block {
    ONE_REGION + [0, 0, 0, 0, 0, 0, 0, 0]
  }

  const EMPTY_FIELDS: seq<byte> := [0, 0, 0, 0, 0, 0, 0, 0]

  lemma {:induction false} SelfXors()
    ensures XorByte(0x80, 0x80) == 0 && XorByte(1, 1) == 0 && XorByte(107, 107) == 0
  {
    XorCancels(0, 0x80);
    XorCancels(0, 1);
    XorCancels(0, 107);
  }

  lemma {:induction false} SealedByOwnBytes(iv: Block)
    ensures Sealed(Some(OwnBytes), iv, ONE_REGION) == EMPTY_FIELDS
  {
    hide XorByte;
    SelfXors();
    var c := Cfb.Encrypt(OwnBytes, iv, ONE_REGION);
    forall k | 0 <= k < 8
      ensures c[k] == XorByte(ONE_REGION[k], ONE_REGION[k])
    {
      Cfb.EncryptBytewise(OwnBytes, iv, ONE_REGION, k);
      Cfb.KeystreamOfFirstBlock(OwnBytes, iv, c, k);
    }
  }

  lemma {:induction false} EmptyField(s: seq<byte>, pos: nat)
    requires pos < |s| && s[pos] == 0
    ensures ReadVarint(s, pos) == Ok(0, pos + 1) && ReadBytes(s, pos) == Ok([], pos + 1)
  {
    assert s[pos + 1..pos + 1] == [];
  }

  lemma {:induction false} EmptyFieldsReplay(s: seq<byte>, pos: nat)
    requires pos <= |s| && forall i | 0 <= i < |s| :: s[i] == 0
    ensures Replay(s, pos, map[]) == Done(map[])
    decreases |s| - pos
  {
    hide ReadBytes, ReadVarint;
    if pos < |s| {
      EmptyField(s, pos);
      EmptyFieldsReplay(s, pos + 1);
    }
  }

  lemma {:induction false} EmptyFieldsParse()
    ensures Parse(EMPTY_FIELDS) == Done(map[])
  {
    hide ReadBytes, ReadVarint, Replay;
    EmptyField(EMPTY_FIELDS, 0);
    EmptyFieldsReplay(EMPTY_FIELDS, 1);
  }

  /** One process on a new plaintext store has set one key. */
  lemma {:induction false} OneKeySet(cfg: Config, iv: Block)
    requires cfg.page <= SIZE_LIMIT - 16
    ensures var blank := Store(cfg, FreshFiles(cfg.page), Blank(None));
            && Mapped(blank) && SetBlob(blank, [107], [1], iv).ok
            && var st := SetBlob(blank, [107], [1], iv).st;
            && Mapped(st) && Coherent(st) && st.cfg == cfg && st.inst.dict == ONE_KEY && !st.inst.needLoad
  {
    hide Coherent, SetBlob, FreshFiles, ZERO_INFO;
    var blank := Store(cfg, FreshFiles(cfg.page), Blank(None));
    FreshIsCoherent(cfg, None);
    FreshSize(cfg.page);
    EncryptedRemove.SmallPairs();
    SetBlobDid(blank, [107], [1], iv);
    CoherentExpire(SetBlob(blank, [107], [1], iv).st);
    assert blank.inst.dict[[107] := [1]] == ONE_KEY;
  }

  /**
   Two processes attach to a new plaintext store; one sets a key and encrypts the store.
   The other's next reload fails and it goes on serving the empty map.
   */
  lemma {:induction false} ReKeyStrandsOthers(cfg: Config, iv: Block)
    requires cfg.page <= SIZE_LIMIT - 16 && cfg.multiProcess
    ensures var blank := Store(cfg, FreshFiles(cfg.page), Blank(None));
            Mapped(blank) &&
            var st := SetBlob(blank, [107], [1], iv).st;
            Mapped(st) &&
            var out := ChangeKey(st, Some(EncryptedRemove.Ones), iv);
            Mapped(out.st) &&
            var other := CheckLoadData(Store(cfg, out.st.files, blank.inst));
            out.ok && st.inst.dict == ONE_KEY && other.inst.dict == map[]
  {
    hide Coherent, SetBlob, FreshFiles, ZERO_INFO, CheckLoadData, ChangeKey, Parse, Packed, Weight, Sealed;
    var blank := Store(cfg, FreshFiles(cfg.page), Blank(None));
    OneKeySet(cfg, iv);
    OnePackable();
    OneRegion();
    OneSealed(iv);
    SealedDoesNotParse();
    OtherServes(SetBlob(blank, [107], [1], iv).st, Some(EncryptedRemove.Ones), iv, blank.inst);
  }

  /**
   The other process may even have had the map: under a block function whose first block
   is the packed map itself, it reloads without an error to the empty map.
   */
  lemma {:induction false} ReKeyEmptiesOthers(cfg: Config, iv: Block)
    requires cfg.page <= SIZE_LIMIT - 16 && cfg.multiProcess
    ensures var blank := Store(cfg, FreshFiles(cfg.page), Blank(None));
            Mapped(blank) &&
            var st := SetBlob(blank, [107], [1], iv).st;
            Mapped(st) &&
            var out := ChangeKey(st, Some(OwnBytes), iv);
            Mapped(out.st) &&
            var other := CheckLoadData(Store(cfg, out.st.files, st.inst));
            out.ok && st.inst.dict == ONE_KEY && other.inst.dict == map[]
  {
    hide Coherent, SetBlob, FreshFiles, ZERO_INFO, CheckLoadData, ChangeKey, Parse, Packed, Weight, Sealed, Lo32;
    var blank := Store(cfg, FreshFiles(cfg.page), Blank(None));
    OneKeySet(cfg, iv);
    var st := SetBlob(blank, [107], [1], iv).st;
    SequenceMoves(st.inst.info.sequence);
    OnePackable();
    OneRegion();
    SealedByOwnBytes(iv);
    EmptyFieldsParse();
    PlaintextKept(blank, iv);
    OtherServes(st, Some(OwnBytes), iv, st.inst);
  }

  lemma {:induction false} PlaintextKept(st: Store, iv: Block)
    requires Mapped(st)
    ensures SetBlob(st, [107], [1], iv).st.inst.crypt == st.inst.crypt
  {
    hide WriteBack, Pair, Poke, Patch, Checksum, Update;
    WriteBackFits(WithDict(st, st.inst.dict[[107] := [1]]), |st.inst.dict| > 0, |Pair([107], [1])|, iv);
  }
}
