/**
 The store invariant: loading the current bytes again changes nothing in memory. Every
 write path keeps it, so the files always carry exactly the in-memory dictionary.
 */
module Coherence {
  import opened Bytes
  import opened Crc32
  import opened LogRegion
  import opened KeyOrder
  import opened Meta
  import opened Growth
  import opened Store
  import Cfb

  /** A reload would leave every in-memory field as it is. */
  ghost predicate ReloadAgrees(st: Store) {
    Mapped(st) && LoadData(st.cfg, st.files, st.inst) == Loaded(st.inst)
  }

  /** The expiration bit is meaningful only from the version that has flags. */
  predicate FlagsSettled(info: MetaInfo) {
    info.version < VERSION_FLAG ==> !ExpireEnabled(info)
  }

  ghost predicate Coherent(st: Store) {
    ReloadAgrees(st) && !st.inst.needLoad && FlagsSettled(st.inst.info)
  }

  /** The region of this size and digest is on disk and decodes to the dictionary. */
  ghost predicate Carries(f: Files, crypt: Option<Cfb.Cipher>, iv: Block, actual: nat, crc: uint32, d: Dict) {
    CrcValid(f, actual, crc) && Parse(Plain(crypt, iv, Region(f, actual))) == Done(d)
  }

  ghost predicate OnDisk(st: Store) {
    Carries(st.files, st.inst.crypt, st.inst.info.iv, st.inst.actual, st.inst.crc, st.inst.dict)
  }

  lemma {:induction false} EmptyRegionCarriesNothing(f: Files, crypt: Option<Cfb.Cipher>, iv: Block)
    requires |f.data| >= 4
    ensures Carries(f, crypt, iv, 0, 0, map[])
  {
    assert Region(f, 0) == [];
    assert Plain(crypt, iv, []) == [];
  }

  /** What a reload that agrees says about the bytes. */
  lemma {:induction false} CoherentFacts(st: Store)
    requires ReloadAgrees(st)
    ensures var i, live := st.inst, ParseMeta(st.files.meta);
            && i.info.version <= VERSION_FLAG
            && i.info == live.(actualSize := i.info.actualSize, crcDigest := i.info.crcDigest)
            && i.expire == (i.info.version >= VERSION_FLAG && ExpireEnabled(i.info))
            && (!i.needFull ==> OnDisk(st))
  {
    hide ParseMeta, Checksum, Parse, Plain, GetLe32;
    EmptyRegionCarriesNothing(st.files, st.inst.crypt, st.inst.info.iv);
  }

  lemma {:induction false} PlainLength(crypt: Option<Cfb.Cipher>, iv: Block, region: seq<byte>)
    ensures |Plain(crypt, iv, region)| == |region|
  {
  }

  /** A loaded dictionary is clean and light enough to be packed into its own file. */
  lemma {:induction false} CoherentDict(st: Store)
    requires ReloadAgrees(st)
    ensures Clean(st.inst.dict)
    ensures 5 + Weight(st.inst.dict) <= |st.files.data|
    ensures st.inst.actual == 0 ==> st.inst.dict == map[]
  {
    hide ParseMeta, Checksum, Parse, Plain, GetLe32, Weight, LoadData;
    var i := st.inst;
    LoadedFrom(st);
    if OnDisk(st) {
      DictOfRegion(st.files, i.crypt, i.info.iv, i.actual);
    } else {
      DictOfRegion(st.files, i.crypt, i.info.iv, Clamped(st.files, i.actual));
    }
  }

  lemma {:induction false} DictOfRegion(f: Files, crypt: Option<Cfb.Cipher>, iv: Block, n: nat)
    requires |f.data| >= 4096 && 4 + n <= |f.data|
    ensures var d := Parse(Plain(crypt, iv, Region(f, n))).dict;
            && Clean(d) && 5 + Weight(d) <= |f.data| && (n == 0 ==> d == map[])
  {
    hide Parse, Weight, Plain;
    var plain := Plain(crypt, iv, Region(f, n));
    PlainLength(crypt, iv, Region(f, n));
    ParseClean(plain);
    ParseWeight(plain);
    EmptyParse();
  }

  lemma {:induction false} EmptyParse()
    ensures Parse([]) == Done(map[])
  {
  }

  /** Apart from a salvage, every outcome of a load leaves its region on disk. */
  lemma {:induction false} LoadedFrom(st: Store)
    requires ReloadAgrees(st)
    ensures var i := st.inst;
            || OnDisk(st)
            || i.dict == Parse(Plain(i.crypt, i.info.iv, Region(st.files, Clamped(st.files, i.actual)))).dict
  {
    hide ParseMeta, Checksum, Parse, Plain, GetLe32;
    EmptyRegionCarriesNothing(st.files, st.inst.crypt, st.inst.info.iv);
  }

  /** The region is on disk and the meta file, of the current version, records it. */
  ghost predicate Recorded(st: Store) {
    var i := st.inst;
    && Mapped(st) && OnDisk(st)
    && ParseMeta(st.files.meta) == i.info && i.info.version == VERSION_FLAG
    && i.info.actualSize == i.actual && i.info.crcDigest == i.crc
  }

  lemma {:induction false} RecordedRegionReloads(st: Store)
    requires Recorded(st)
    requires st.inst.expire == ExpireEnabled(st.inst.info)
    ensures ReloadAgrees(st)
  {
    hide ParseMeta, Checksum, Parse, Plain;
  }

  // ---- append ----

  lemma {:induction false} AppendedRegion(st: Store, pair: seq<byte>)
    requires Mapped(st) && 4 + st.inst.actual + |pair| <= |st.files.data| <= SIZE_LIMIT
    ensures var st' := AppendRaw(st, pair);
            && Mapped(st') && st'.inst.actual == st.inst.actual + |pair|
            && Region(st'.files, st'.inst.actual) == Region(st.files, st.inst.actual) + pair
  {
    hide Poke, Update;
    var f, n := st.files, st.inst.actual;
    assert Lo32(n + |pair|) == n + |pair|;
    var data := Patch(f.data, 4 + n, pair);
    assert data[4..4 + n + |pair|] == f.data[4..4 + n] + pair;
  }

  /** One appended record keeps reload agreement; a plaintext store only. */
  lemma {:induction false} AppendKeepsCoherent(st: Store, key: Key, blob: Blob)
    requires Coherent(st) && FastOk(st.inst)
    requires 4 + st.inst.actual + |Pair(key, blob)| <= |st.files.data| <= SIZE_LIMIT
    requires key != [] && st.inst.actual > 0
    ensures var st' := WithDict(AppendRaw(st, Pair(key, blob)), Put(st.inst.dict, key, blob));
            Coherent(st') && Recorded(st')
  {
    hide ParseMeta, Poke, Parse, Checksum, Update, Pair, Patch;
    var i, pair := st.inst, Pair(key, blob);
    CoherentFacts(st);
    AppendedRegion(st, pair);
    var st' := WithDict(AppendRaw(st, pair), Put(i.dict, key, blob));
    var region := Region(st.files, i.actual);
    UpdateIsChecksumOfAppend(region, pair);
    PairLengths(key, blob);
    ParseAppendPair(region, key, blob);
    ParsePoked(st.files.meta, st'.inst.crc, st'.inst.actual);
    RecordedRegionReloads(st');
  }

  lemma {:induction false} PairLengths(key: Key, blob: Blob)
    ensures |Pair(key, blob)| > |key| + |blob|
  {
  }

  // ---- override ----

  lemma {:induction false} OverrideKeepsCoherent(st: Store, key: Key, blob: Blob)
    requires Coherent(st) && FastOk(st.inst)
    requires 8 + |Pair(key, blob)| <= |st.files.data| <= SIZE_LIMIT
    requires key != [] && blob != [] && st.inst.dict.Keys <= {key}
    ensures var st' := OverrideRaw(st, key, blob);
            Coherent(st') && Recorded(st') && st'.inst.dict == map[key := blob]
  {
    hide ParseMeta, Poke, Parse, Checksum, Pair;
    var st', region := OverrideRaw(st, key, blob), HOLDER + Pair(key, blob);
    CoherentFacts(st);
    assert Lo32(|region|) == |region|;
    assert Region(st'.files, |region|) == region;
    PairLengths(key, blob);
    PackedOne(key, blob);
    PackedParses(map[key := blob]);
    ParsePoked(st.files.meta, st'.inst.crc, st'.inst.actual);
    RecordedRegionReloads(st');
  }

  /** The override leaves the region, size and digest a rewrite of the same one-key store would. */
  lemma {:induction false} OverrideIsRewrite(st: Store, key: Key, blob: Blob, iv: Block)
    requires Mapped(st) && st.inst.crypt.None? && st.inst.dict.Keys <= {key}
    requires 8 + |Pair(key, blob)| <= |st.files.data| <= SIZE_LIMIT
    ensures var fast, region := OverrideRaw(st, key, blob), HOLDER + Pair(key, blob);
            var slow := WriteBack(WithDict(st, map[key := blob]), true, 0, iv).st;
            && fast.inst.actual == slow.inst.actual == |region| && fast.inst.crc == slow.inst.crc
            && HasAt(fast.files.data, 4, region) && HasAt(slow.files.data, 4, region)
  {
    hide Poke, Parse, Checksum, Pair, Marshal, GrownSize, Zeros, Packed, Rewritten;
    var region := HOLDER + Pair(key, blob);
    PackedOne(key, blob);
    var one := WithDict(st, map[key := blob]);
    PayloadFits(st.cfg.page, |st.files.data|, |region|, 1, true, 0);
    assert Lo32(|region|) == |region|;
    RewrittenRegion(Resize(st.files.data, NewSize(one, true, 0)), region);
  }

  // ---- full write-back ----

  lemma {:induction false} RewrittenRegion(data: seq<byte>, payload: seq<byte>)
    requires 4 + |payload| <= |data|
    ensures Rewritten(data, payload)[4..4 + |payload|] == payload
  {
  }

  lemma {:induction false} SealedOpens(crypt: Option<Cfb.Cipher>, iv: Block, region: seq<byte>)
    ensures Plain(crypt, iv, Sealed(crypt, iv, region)) == region
  {
    if crypt.Some? {
      Cfb.DecryptInvertsEncrypt(crypt.value, iv, region);
    }
  }

  lemma {:induction false} StoreMetaParses(meta: seq<byte>, info: MetaInfo)
    requires |meta| >= META_SIZE
    ensures ParseMeta(StoreMeta(meta, info)) == info
  {
    MetaRoundTrip(info, meta[META_SIZE..]);
  }

  /** The dictionary fits a region whose end is a 32-bit offset. */
  ghost predicate Packable(d: Dict) {
    Clean(d) && 8 + Weight(d) < U32
  }

  lemma {:induction false} PackableIsStorable(d: Dict)
    requires Packable(d)
    ensures Storable(d)
  {
    WeightBoundsLengths(d);
  }

  /** A rewrite of any packable dictionary succeeds, keeps it, and leaves a coherent store. */
  lemma {:induction false} WriteBackKeepsCoherent(st: Store, needSync: bool, incoming: nat, iv: Block)
    requires Mapped(st) && !st.inst.needLoad
    requires st.inst.expire == ExpireEnabled(st.inst.info)
    requires Packable(st.inst.dict)
    ensures var out := WriteBack(st, needSync, incoming, iv);
            && out.ok && Coherent(out.st) && Recorded(out.st) && !out.st.inst.needFull
            && out.st.inst.dict == st.inst.dict
            && out.st.inst.actual == 4 + Weight(st.inst.dict)
  {
    hide Packed, Parse, Checksum, Marshal, ParseMeta, Weight, GrownSize, Zeros, Sealed, Plain, Rewritten, StoreMeta;
    var i, region := st.inst, Packed(st.inst.dict);
    PackableIsStorable(i.dict);
    PackedParses(i.dict);
    PackedLength(i.dict);
    assert Lo32(|region|) == |region|;
    PayloadFits(st.cfg.page, |st.files.data|, |region|, |i.dict|, needSync, incoming);
    var payload := Sealed(i.crypt, iv, region);
    var out := WriteBack(st, needSync, incoming, iv).st;
    RewrittenRegion(Resize(st.files.data, NewSize(st, needSync, incoming)), payload);
    assert Region(out.files, out.inst.actual) == payload;
    SealedOpens(i.crypt, iv, region);
    PlainIv(i.crypt, iv, out.inst.info.iv, payload);
    StoreMetaParses(st.files.meta, out.inst.info);
    RecordedRegionReloads(out);
  }

  /** A plaintext region does not depend on the IV. */
  lemma {:induction false} PlainIv(crypt: Option<Cfb.Cipher>, iv: Block, iv': Block, s: seq<byte>)
    requires crypt.Some? ==> iv == iv'
    ensures Plain(crypt, iv, s) == Plain(crypt, iv', s)
  {
  }

  lemma {:induction false} ClearKeepsCoherent(st: Store)
    requires Mapped(st) && !st.inst.needLoad
    requires st.inst.expire == ExpireEnabled(st.inst.info)
    ensures Coherent(ClearAll(st)) && Recorded(ClearAll(st))
    ensures ClearAll(st).inst.dict == map[]
  {
    hide Parse, Checksum, Marshal, ParseMeta, Zeros, Plain, StoreMeta, PageRoundUp;
    PageRoundUpBounds(st.cfg.page, 0);
    var st' := ClearAll(st);
    EmptyRegionCarriesNothing(st'.files, st'.inst.crypt, st'.inst.info.iv);
    StoreMetaParses(st.files.meta, st'.inst.info);
    RecordedRegionReloads(st');
  }

  // ---- trim ----

  lemma {:induction false} ShrinkKeepsCoherent(st: Store)
    requires Coherent(st) && Recorded(st)
    ensures var out := Shrink(st);
            && out.ok && Coherent(out.st) && Recorded(out.st) && out.st.inst == st.inst
            && |out.st.files.data| == TrimmedSize(st.cfg.page, |st.files.data|, st.inst.actual)
  {
    hide Parse, Checksum, ParseMeta, Plain, PageRoundUp, Halved, Zeros;
    var i, size := st.inst, |st.files.data|;
    CoherentFacts(st);
    TrimBounds(st.cfg.page, size, i.actual);
    var target := TrimTarget(st.cfg.page, size, i.actual);
    if target < size {
      var data := Resize(st.files.data, PageRoundUp(st.cfg.page, target));
      assert data[4..4 + i.actual] == st.files.data[4..4 + i.actual];
      RecordedRegionReloads(Shrink(st).st);
    }
  }
}
