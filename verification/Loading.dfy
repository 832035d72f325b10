/**
 The four outcomes of a load, each with the bytes that lead to it: the recorded region, the
 last confirmed one, what can be salvaged, or nothing. What damage to a single byte does.
 */
module Loading {
  import opened Bytes
  import opened Crc32
  import opened LogRegion
  import opened Meta
  import opened Store
  import opened Coherence
  import opened Recovery
  import Cfb

  /** The first so many bytes behind the header are there and carry the digest. */
  predicate Intact(f: Files, size: nat, digest: uint32) {
    4 + size <= |f.data| && Checksum(f.data[4..4 + size]) == digest
  }

  /** The size a meta of this version records: in the struct, or before version 3 in the data header. */
  function SizeOnRecord(f: Files, info: MetaInfo): nat
    requires |f.data| >= 4
  {
    if info.version < 3 then Header(f.data) else info.actualSize
  }

  /** The four header bytes as a number, low byte first. */
  function Header(data: seq<byte>): nat
    requires |data| >= 4
  {
    (data[0] as int) + 0x100 * (data[1] as int) + 0x1_0000 * (data[2] as int) + 0x100_0000 * (data[3] as int)
  }

  predicate Readable(f: Files) {
    |f.data| >= 4 && |f.meta| >= 112 && ParseMeta(f.meta).version <= 4
  }

  /** An instance after a load of this meta, with this dictionary, size and digest. */
  function After(i: Inst, info: MetaInfo, d: Dict, actual: uint32, crc: uint32): Inst {
    i.(info := info, expire := info.version == 4 && ExpireEnabled(info), dict := d, actual := actual, crc := crc)
  }

  /** The recorded region is intact: it is taken if it decodes, and is an error if not. */
  lemma {:induction false} Accepted(cfg: Config, f: Files, i: Inst)
    requires Readable(f)
    requires var info := ParseMeta(f.meta); Intact(f, SizeOnRecord(f, info), info.crcDigest)
    ensures var info := ParseMeta(f.meta);
            var size := SizeOnRecord(f, info);
            match Parse(Plain(i.crypt, info.iv, f.data[4..4 + size]))
            case Done(d) => LoadData(cfg, f, i) == Loaded(After(i, info, d, size, info.crcDigest))
            case Stuck(_) => LoadData(cfg, f, i).Failed?
  {
    hide ParseMeta, Parse, Plain, Checksum;
  }

  /** It is not, but the last confirmed one is: the load goes back to that, in memory. */
  lemma {:induction false} RolledBack(cfg: Config, f: Files, i: Inst)
    requires Readable(f)
    requires var info := ParseMeta(f.meta);
             !Intact(f, SizeOnRecord(f, info), info.crcDigest) && Intact(f, info.lastActualSize, info.lastCRCDigest)
    ensures var info := ParseMeta(f.meta);
            var size, digest := info.lastActualSize, info.lastCRCDigest;
            match Parse(Plain(i.crypt, info.iv, f.data[4..4 + size]))
            case Done(d) =>
              LoadData(cfg, f, i) ==
              Loaded(After(i, info.(actualSize := size, crcDigest := digest), d, size, digest))
            case Stuck(_) => LoadData(cfg, f, i).Failed?
  {
    hide ParseMeta, Parse, Plain, Checksum;
  }

  /** Neither is, and recovery is off: everything is dropped. */
  lemma {:induction false} Discarded(cfg: Config, f: Files, i: Inst)
    requires Readable(f) && !cfg.recover
    requires var info := ParseMeta(f.meta);
             !Intact(f, SizeOnRecord(f, info), info.crcDigest) && !Intact(f, info.lastActualSize, info.lastCRCDigest)
    ensures LoadData(cfg, f, i) == Loaded(After(i, ParseMeta(f.meta), map[], 0, 0))
  {
    hide ParseMeta, Parse, Plain, Checksum;
  }

  /** Neither is, and recovery is on: what the region still says is kept, and marked for rewriting. */
  lemma {:induction false} Salvaged(cfg: Config, f: Files, i: Inst, n: nat)
    requires Readable(f) && cfg.recover
    requires var info := ParseMeta(f.meta);
             && !Intact(f, SizeOnRecord(f, info), info.crcDigest) && !Intact(f, info.lastActualSize, info.lastCRCDigest)
             && n == (if 4 + info.actualSize <= |f.data| then info.actualSize else |f.data| - 4)
    ensures var info := ParseMeta(f.meta);
            var d := Parse(Plain(i.crypt, info.iv, f.data[4..4 + n])).dict;
            LoadData(cfg, f, i) == Loaded(After(i, info, d, info.actualSize, info.crcDigest).(needFull := true))
  {
    hide ParseMeta, Parse, Plain, Checksum;
  }

  /** A version that is not known is an error, whatever the rest. */
  lemma {:induction false} UnknownVersion(cfg: Config, f: Files, i: Inst)
    requires |f.data| >= 4 && |f.meta| >= 112 && ParseMeta(f.meta).version > 4
    ensures LoadData(cfg, f, i).Failed? && LoadData(cfg, f, i).inst.dict == i.dict
  {
    hide ParseMeta;
  }

  // ---- the legacy header ----

  /** A store older than the size field: the header says how much of the log counts. */
  lemma {:induction false} LegacyStoreLoads(cfg: Config, region: seq<byte>, rest: seq<byte>, meta: seq<byte>)
    requires |region| < U32 && |meta| >= 112 && Parse(region).Done?
    requires ParseMeta(meta).version <= 2 && ParseMeta(meta).crcDigest == Checksum(region)
    ensures var load := LoadData(cfg, Files(Le32(|region|) + region + rest, meta), Blank(None));
            load.Loaded? && load.inst.dict == Parse(region).dict && load.inst.actual == |region| && !load.inst.needFull
  {
    hide ParseMeta, Parse, Checksum, ZERO_INFO;
    var f := Files(Le32(|region|) + region + rest, meta);
    LegacySize(f.data, region, rest);
    Accepted(cfg, f, Blank(None));
  }

  lemma {:induction false} LegacySize(data: seq<byte>, region: seq<byte>, rest: seq<byte>)
    requires |region| < U32 && data == Le32(|region|) + region + rest
    ensures |data| >= 4 + |region| && data[4..4 + |region|] == region
    ensures Header(data) == |region|
  {
    hide Le32;
    assert HasAt(data, 0, Le32(|region|));
    HeaderBytes(data, |region|);
  }

  lemma {:induction false} HeaderBytes(data: seq<byte>, n: uint32)
    requires HasAt(data, 0, Le32(n))
    ensures Header(data) == n
  {
    hide Le32;
    Le32RoundTrip(data, 0, n);
  }

  // ---- a torn log, opened for recovery ----

  /**
   A writable recovering open of a log that was cut anywhere behind its placeholder, with
   both digests spoilt, keeps exactly the records that are whole: n is the recorded size
   where the file has that many bytes, and the rest of the file where it has not.
   */
  lemma {:induction false} RecoveringOpenKeepsWholeRecords(
      cfg: Config, f: Files, crypt: Option<Cfb.Cipher>, iv: Block, ps: seq<Rec>, n: nat)
    requires Readable(f) && cfg.recover && cfg.page <= |f.data| <= SIZE_LIMIT
    requires forall r | r in ps :: r.key != [] && Fits(r)
    requires var info := ParseMeta(f.meta);
             && !Intact(f, SizeOnRecord(f, info), info.crcDigest) && !Intact(f, info.lastActualSize, info.lastCRCDigest)
             && n == (if 4 + info.actualSize <= |f.data| then info.actualSize else |f.data| - 4)
             && 4 <= n <= 4 + |Records(ps)|
             && Plain(crypt, info.iv, f.data[4..4 + n]) == (HOLDER + Records(ps))[..n]
    ensures var out := OpenStore(cfg, f, crypt, iv);
            && out.ok && out.st.inst.dict == LogRegion.Fold(map[], ps[..WholeRecords(ps, n - 4)])
            && LoadData(cfg, out.st.files, Blank(crypt)).inst.dict == out.st.inst.dict
  {
    hide ParseMeta, Parse, Plain, Checksum, LoadData, ZERO_INFO, WriteBack, Records, Coherent, ReloadAgrees;
    Salvaged(cfg, f, Blank(crypt), n);
    SalvageOfTornLog(ps, n);
    LoadedAgrees(cfg, f, Blank(crypt));
    LoadedInfo(cfg, f, Blank(crypt));
    var st := Store(cfg, f, LoadData(cfg, f, Blank(crypt)).inst);
    RepairedBySalvage(st, iv);
    RepairedReloads(st, iv);
  }

  lemma {:induction false} RepairedReloads(st: Store, iv: Block)
    requires ReloadAgrees(st) && !st.inst.needLoad && |st.files.data| <= SIZE_LIMIT
    requires st.inst.expire == (st.inst.info.version >= VERSION_FLAG && ExpireEnabled(st.inst.info))
    ensures var out := WriteBack(st, true, 0, iv).st;
            LoadData(st.cfg, out.files, Blank(st.inst.crypt)).inst.dict == st.inst.dict && |out.files.data| >= 4
  {
    hide LoadData, WriteBack, Weight, Recorded, ZERO_INFO;
    CoherentDict(st);
    var e := ExpireEnabled(st.inst.info);
    var fixed := st.(inst := st.inst.(expire := e));
    WriteBackIgnoresExpire(st, e, true, 0, iv);
    WriteBackKeepsCoherent(fixed, true, 0, iv);
    WriteBackKeepsFlags(fixed, true, 0, iv);
    WriteBackKeepsFlags(st, true, 0, iv);
    RecordedLoads(WriteBack(fixed, true, 0, iv).st, st.cfg, Blank(st.inst.crypt));
  }

  // ---- one damaged byte ----

  function Damaged(f: Files, k: nat, x: byte): Files
    requires 4 + k < |f.data|
  {
    f.(data := f.data[4 + k := x])
  }

  /** A region with a changed byte does not carry its digest any more; one that ends before it does. */
  lemma {:induction false} DamageShows(f: Files, k: nat, x: byte, size: nat, digest: uint32)
    requires 4 + k < |f.data| && x != f.data[4 + k] && Intact(f, size, digest)
    ensures Intact(Damaged(f, k, x), size, digest) <==> size <= k
  {
    hide Checksum;
    var region, broken := f.data[4..4 + size], Damaged(f, k, x).data[4..4 + size];
    if size <= k {
      assert broken == region;
    } else {
      assert broken == region[k := x];
      OneByteChangesDigest(region, k, x);
    }
  }

  /**
   One changed byte anywhere in the region of a store with its confirmed point is never
   served: behind that point the load goes back to it, before it the load drops everything
   or, if asked to recover, salvages.
   */
  lemma {:induction false} DamageIsNeverServed(st: Store, k: nat, x: byte, cfg: Config, i: Inst)
    requires Settled(st) && Floor(st) && st.inst.info.version == 4
    requires k < st.inst.actual && i.crypt == st.inst.crypt
    ensures 4 + st.inst.actual <= |st.files.data|
    ensures x != st.files.data[4 + k] ==>
              var load := LoadData(cfg, Damaged(st.files, k, x), i);
              && load.Loaded?
              && (st.inst.info.lastActualSize <= k ==>
                    load.inst.dict == FloorDict(st) && load.inst.actual == st.inst.info.lastActualSize)
              && (k < st.inst.info.lastActualSize && !cfg.recover ==> load.inst.dict == map[] && load.inst.actual == 0)
              && (k < st.inst.info.lastActualSize && cfg.recover ==> load.inst.needFull)
  {
    hide ParseMeta, Parse, Plain, Checksum, LoadData, Coherent;
    var info := st.inst.info;
    SettledRecords(st);
    if x != st.files.data[4 + k] {
      var f := Damaged(st.files, k, x);
      DamageShows(st.files, k, x, st.inst.actual, st.inst.crc);
      DamageShows(st.files, k, x, info.lastActualSize, info.lastCRCDigest);
      if info.lastActualSize <= k {
        assert f.data[4..4 + info.lastActualSize] == st.files.data[4..4 + info.lastActualSize];
        RolledBack(cfg, f, i);
      } else if cfg.recover {
        Salvaged(cfg, f, i, info.actualSize);
      } else {
        Discarded(cfg, f, i);
      }
    }
  }

  lemma {:induction false} SettledRecords(st: Store)
    requires Settled(st) && Floor(st) && st.inst.info.version == 4
    ensures var i, info := st.inst, st.inst.info;
            && Readable(st.files) && ParseMeta(st.files.meta) == info
            && info.actualSize == i.actual && info.crcDigest == i.crc
            && Intact(st.files, i.actual, i.crc) && Intact(st.files, info.lastActualSize, info.lastCRCDigest)
  {
    hide ParseMeta, Parse, Plain, Checksum, Coherent;
    SettledIsMapped(st);
  }

  lemma {:induction false} SettledIsMapped(st: Store)
    requires Settled(st)
    ensures Mapped(st)
  {
    hide LoadData, ParseMeta, OnDisk;
  }

  // ---- when a load happens at all ----

  /** Two instances with one key read one dictionary. */
  lemma {:induction false} LoadReadsFiles(cfg: Config, f: Files, i: Inst, j: Inst)
    requires |f.data| >= 4 && i.crypt == j.crypt
    ensures LoadData(cfg, f, i).Loaded? == LoadData(cfg, f, j).Loaded?
    ensures LoadData(cfg, f, i).Loaded? ==> LoadData(cfg, f, i).inst.dict == LoadData(cfg, f, j).inst.dict
  {
    hide LoadData, ParseMeta, Parse, Plain, Checksum, Loadable;
    LoadSucceeds(cfg, f, i);
    LoadSucceeds(cfg, f, j);
    if LoadData(cfg, f, i).Loaded? {
      LoadableIsReadable(cfg, f, i.crypt);
      var info := ParseMeta(f.meta);
      if Intact(f, SizeOnRecord(f, info), info.crcDigest) {
        Accepted(cfg, f, i);
        Accepted(cfg, f, j);
      } else if Intact(f, info.lastActualSize, info.lastCRCDigest) {
        RolledBack(cfg, f, i);
        RolledBack(cfg, f, j);
      } else if cfg.recover {
        var n := if 4 + info.actualSize <= |f.data| then info.actualSize else |f.data| - 4;
        Salvaged(cfg, f, i, n);
        Salvaged(cfg, f, j, n);
      } else {
        Discarded(cfg, f, i);
        Discarded(cfg, f, j);
      }
    }
  }

  lemma {:induction false} LoadableIsReadable(cfg: Config, f: Files, crypt: Option<Cfb.Cipher>)
    requires Loadable(cfg, f, crypt)
    ensures Readable(f)
  {
    hide ParseMeta, Parse, Plain, Checksum;
  }

  /** After the cache is dropped the next access reads the files, whatever was done to them behind it. */
  lemma {:induction false} DroppedCacheReadsFiles(st: Store, f: Files)
    requires Mapped(Store(st.cfg, f, st.inst)) && LoadData(st.cfg, f, Blank(st.inst.crypt)).Loaded?
    ensures ClearMemoryCache(st).files == st.files && ClearMemoryCache(st).inst.dict == map[]
    ensures var next := CheckLoadData(Store(st.cfg, f, ClearMemoryCache(st).inst)).inst;
            next.dict == LoadData(st.cfg, f, Blank(st.inst.crypt)).inst.dict && !next.needLoad
  {
    hide LoadData, ZERO_INFO;
    var i := ClearMemoryCache(st).inst.(needLoad := false);
    LoadReadsFiles(st.cfg, f, i, Blank(st.inst.crypt));
    LoadKeepsNeed(st.cfg, f, i);
  }

  lemma {:induction false} LoadKeepsNeed(cfg: Config, f: Files, i: Inst)
    requires |f.data| >= 4
    ensures LoadData(cfg, f, i).inst.needLoad == i.needLoad
  {
    hide ParseMeta, CrcValid, Parse, Plain, ReadActualSize, Region, Clamped;
  }

  /** Otherwise a single-process instance trusts its memory and never looks. */
  lemma {:induction false} SingleProcessTrustsMemory(st: Store)
    requires Mapped(st) && !st.cfg.multiProcess && !st.inst.needLoad
    ensures CheckLoadData(st) == st
  {
  }
}
