/**
 What survives when things go wrong: the rollback floor that multi-process writes keep,
 a crash inside an append, and the repair of arbitrary files by a recovering open.
 */
module Recovery {
  import opened Bytes
  import opened Crc32
  import opened LogRegion
  import opened KeyOrder
  import opened Meta
  import opened Growth
  import opened Store
  import opened Coherence
  import opened Expiry
  import opened Operations
  import Cfb

  /** In memory is what the files record, by the first branch of the load. */
  ghost predicate Settled(st: Store) {
    var i := st.inst;
    && Coherent(st) && OnDisk(st)
    && ParseMeta(st.files.meta) == i.info
    && ReadActualSize(st.files, i.info) == i.actual && i.info.crcDigest == i.crc
  }

  lemma {:induction false} RecordedIsSettled(st: Store)
    requires Coherent(st) && Recorded(st)
    ensures Settled(st)
  {
    hide ParseMeta, OnDisk, Coherent;
  }

  // ---- what a multi-process write does to the files ----

  /** The region grew at its end; size of the file, sequence and confirmed point are as before. */
  ghost predicate Extends(st: Store, st': Store) {
    var i, j := st.inst, st'.inst;
    && |st'.files.data| == |st.files.data|
    && j.info == i.info.(actualSize := j.info.actualSize, crcDigest := j.info.crcDigest)
    && i.expire == j.expire && i.actual < j.actual && 4 + j.actual <= |st.files.data|
    && Region(st'.files, i.actual) == Region(st.files, i.actual)
  }

  /** The region was rewritten: the sequence moved on and the confirmed point is the whole region. */
  ghost predicate Bumps(st: Store, st': Store) {
    var j := st'.inst;
    && j.info.sequence == Lo32(st.inst.info.sequence + 1)
    && j.info.lastActualSize == j.actual && j.info.lastCRCDigest == j.crc
  }

  /** What a write may do, under the key it leaves. */
  ghost predicate Effect(st: Store, st': Store, key: Option<Cfb.Cipher>) {
    || (st' == st && key == st.inst.crypt)
    || (&& Coherent(st') && Recorded(st') && st'.cfg == st.cfg
        && st'.inst.crypt == key && (st'.inst.needFull ==> st.inst.needFull)
        && ((Extends(st, st') && key == st.inst.crypt) || Bumps(st, st')))
  }

  lemma {:induction false} RewriteEffect(st: Store, i: Inst, needSync: bool, incoming: nat, iv: Block)
    requires Mapped(st) && !i.needLoad && i.expire == ExpireEnabled(i.info) && Packable(i.dict)
    requires i.info.sequence == st.inst.info.sequence
    ensures Effect(st, WriteBack(st.(inst := i), needSync, incoming, iv).st, i.crypt)
    ensures Recorded(WriteBack(st.(inst := i), needSync, incoming, iv).st)
    ensures Bumps(st, WriteBack(st.(inst := i), needSync, incoming, iv).st)
  {
    hide Coherent, Recorded, Packable, WriteBack, Lo32;
    WriteBackKeepsCoherent(st.(inst := i), needSync, incoming, iv);
    WrittenMeta(st.(inst := i), needSync, incoming, iv);
    WriteBackFits(st.(inst := i), needSync, incoming, iv);
  }

  lemma {:induction false} AppendEffect(st: Store, key: Key, blob: Blob)
    requires Coherent(st) && FastOk(st.inst)
    requires 4 + st.inst.actual + |Pair(key, blob)| <= |st.files.data| <= SIZE_LIMIT
    requires key != [] && st.inst.actual > 0
    ensures Effect(st, WithDict(AppendRaw(st, Pair(key, blob)), Put(st.inst.dict, key, blob)), st.inst.crypt)
  {
    hide Coherent, Recorded, Pair, Poke, Patch, Update, Lo32;
    AppendKeepsCoherent(st, key, blob);
    CoherentMapped(st);
    PairLengths(key, blob);
    AppendedRegion(st, Pair(key, blob));
    var st' := AppendRaw(st, Pair(key, blob));
    PrefixOfRegion(st'.files, st.inst.actual, st'.inst.actual);
  }

  lemma {:induction false} PrefixOfRegion(f: Files, n: nat, m: nat)
    requires n <= m && 4 + m <= |f.data|
    ensures Region(f, m)[..n] == Region(f, n)
  {
  }

  lemma {:induction false} SetEffect(st: Store, key: Key, blob: Blob, iv: Block)
    requires Coherent(st) && LegalSet(st, key, blob) && st.cfg.multiProcess
    ensures Effect(st, SetBlob(st, key, blob, iv).st, st.inst.crypt)
  {
    hide Coherent, Effect, Pair, AppendRaw, Weight, WriteBack;
    var i := st.inst;
    CoherentPackable(st);
    CoherentActual(st);
    if TakesAppend(st, key, blob) {
      AppendEffect(st, key, blob);
    } else {
      SetPackable(st, key, blob);
      RewriteEffect(st, i.(dict := i.dict[key := blob]), |i.dict| > 0, |Pair(key, blob)|, iv);
    }
  }

  lemma {:induction false} RemoveEffect(st: Store, key: Key, iv: Block)
    requires Coherent(st) && |st.files.data| <= SIZE_LIMIT
    requires st.inst.crypt.None? || key !in st.inst.dict || !AppendsTombstone(st, key)
    ensures Effect(st, RemoveKey(st, key, iv).st, st.inst.crypt)
  {
    hide Coherent, Effect, Pair, Weight, WriteBack, Recorded;
    var i := st.inst;
    CoherentPackable(st);
    if key in i.dict && AppendsTombstone(st, key) {
      AppendEffect(st, key, []);
      AppendKeepsDict(st, Pair(key, []), i.dict - {key});
    } else if key in i.dict {
      WeightRemove(i.dict, key);
      RewriteEffect(st, i.(dict := i.dict - {key}), true, 0, iv);
    } else {
      Unchanged(st);
    }
  }

  lemma {:induction false} Unchanged(st: Store)
    ensures Effect(st, st, st.inst.crypt)
  {
  }

  lemma {:induction false} AppendKeepsDict(st: Store, pair: seq<byte>, d: Dict)
    requires Mapped(st) && 4 + st.inst.actual + |pair| <= |st.files.data|
    ensures AppendRaw(WithDict(st, d), pair) == WithDict(AppendRaw(st, pair), d)
  {
    hide Poke, Patch, Update;
  }

  lemma {:induction false} RemoveManyEffect(st: Store, keys: seq<Key>, iv: Block)
    requires Coherent(st) && |st.files.data| <= SIZE_LIMIT
    ensures Effect(st, RemoveKeys(st, keys, iv).st, st.inst.crypt)
  {
    hide Coherent, Effect, Weight, WriteBack, Recorded;
    var i := st.inst;
    var gone := set k | k in keys;
    CoherentPackable(st);
    Unchanged(st);
    if !(gone !! i.dict.Keys) {
      WeightSubset(i.dict, gone);
      RewriteEffect(st, i.(dict := i.dict - gone), true, 0, iv);
    }
  }

  lemma {:induction false} ClearEffect(st: Store)
    requires Coherent(st) && |st.files.data| <= SIZE_LIMIT
    ensures Effect(st, ClearAll(st), st.inst.crypt)
  {
    hide Coherent, Recorded, Lo32, StoreMeta, Rewritten, Resize, PageRoundUp;
    CoherentPackable(st);
    ClearKeepsCoherent(st);
    PageRoundUpBounds(st.cfg.page, 0);
  }

  lemma {:induction false} TrimEffect(st: Store, iv: Block)
    requires Coherent(st) && |st.files.data| <= SIZE_LIMIT
    ensures Effect(st, TrimFile(st, iv).st, st.inst.crypt)
  {
    hide Coherent, Recorded, WriteBack, Shrink, ClearAll, Lo32, Packable;
    CoherentPackable(st);
    if st.inst.actual == 0 {
      ClearEffect(st);
    } else {
      var out := WriteBack(st, true, 0, iv);
      assert st.(inst := st.inst) == st;
      RewriteEffect(st, st.inst, true, 0, iv);
      WriteBackKeepsCoherent(st, true, 0, iv);
      WriteBackFits(st, true, 0, iv);
      ShrinkKeepsCoherent(out.st);
      ShrinkConfig(out.st);
    }
  }

  /** Everything but an import writes at most once. */
  predicate Single(op: Op) {
    !op.DropCache? && (op.Import? ==> op.items == [])
  }

  ghost function KeyAfter(st: Store, op: Op): Option<Cfb.Cipher> {
    if op.ReKey? then op.crypt else st.inst.crypt
  }

  /** A multi-process operation leaves the files alone, extends the region, or rewrites it and moves the sequence. */
  lemma {:induction false} ActEffect(st: Store, op: Op, ivs: IvSource)
    requires Coherent(st) && Legal(st, op, ivs) && st.cfg.multiProcess && Single(op)
    ensures Effect(st, Act(st, op, ivs).st, KeyAfter(st, op))
  {
    var i := st.inst;
    Unchanged(st);
    match op
    case Set(key, blob, now) =>
      SetEffect(st, key, Stored(i.expire, i.seconds, blob, now), ivs(0));
    case Remove(key) => RemoveEffect(st, key, ivs(0));
    case RemoveMany(keys) => RemoveManyEffect(st, keys, ivs(0));
    case Clear => ClearEffect(st);
    case Trim => TrimEffect(st, ivs(0));
    case ReKey(crypt) =>
      CoherentPackable(st);
      RewriteDid(st, i.(crypt := crypt), true, 0, ivs(0));
      RewriteEffect(st, i.(crypt := crypt), true, 0, ivs(0));
    case Import(_, _) =>
    case EnableExpire(seconds) => EnableEffect(st, seconds, ivs(0));
    case DisableExpire(at) => if i.expire { DisableEffect(st, at, ivs(0)); }
  }

  lemma {:induction false} EnableEffect(st: Store, seconds: uint32, iv: Block)
    requires Coherent(st) && |st.files.data| <= SIZE_LIMIT
    requires Packable(if st.inst.expire then st.inst.dict else StampAll(st.inst.dict))
    ensures Effect(st, Enable(st, seconds, iv).st, st.inst.crypt)
  {
    hide Coherent, Effect, WriteBack, StampAll, Packable;
    var i := st.inst;
    CoherentPackable(st);
    var flags := if ExpireEnabled(i.info) then i.info.flags else i.info.flags + 1;
    var d := if i.expire then i.dict else StampAll(i.dict);
    RewriteEffect(st, i.(seconds := seconds, expire := true, compare := false,
                         info := i.info.(flags := flags), dict := d), true, 0, iv);
  }

  lemma {:induction false} DisableEffect(st: Store, at: Clock, iv: Block)
    requires Coherent(st) && |st.files.data| <= SIZE_LIMIT
    requires st.inst.expire && NoEmptyVisible(st.inst.dict, at)
    ensures Effect(st, Disable(st, at, iv).st, st.inst.crypt)
  {
    hide Coherent, Effect, WriteBack, VisibleAt, NoEmptyVisible, Packable;
    var i := st.inst;
    CoherentPackable(st);
    StrippedPackable(i.dict, at);
    RewriteEffect(st, i.(seconds := 0, expire := false, info := i.info.(flags := i.info.flags - 1),
                         dict := VisibleAt(i.dict, true, at)), true, 0, iv);
  }

  // ---- the rollback floor ----

  /** The last confirmed region lies under the current one, is intact, and decodes. */
  ghost predicate Floor(st: Store) {
    var i := st.inst;
    && CrcValid(st.files, i.info.lastActualSize, i.info.lastCRCDigest)
    && i.info.lastActualSize <= i.actual
    && Parse(Plain(i.crypt, i.info.iv, Region(st.files, i.info.lastActualSize))).Done?
  }

  /** The map a rollback would restore. */
  ghost function FloorDict(st: Store): Dict
    requires Floor(st)
  {
    var i := st.inst;
    Parse(Plain(i.crypt, i.info.iv, Region(st.files, i.info.lastActualSize))).dict
  }

  /** Appends keep the floor where it is; a rewrite moves it to the new contents. */
  lemma {:induction false} EffectKeepsFloor(st: Store, st': Store)
    requires Settled(st) && Floor(st) && Effect(st, st', st'.inst.crypt)
    ensures Settled(st') && Floor(st')
    ensures FloorDict(st') == (if Bumps(st, st') then st'.inst.dict else FloorDict(st))
  {
    hide Coherent, Parse, Plain, ParseMeta, Lo32, Checksum;
    if st' == st {
      SequenceMoves(st.inst.info.sequence);
    } else {
      RecordedIsSettled(st');
      if !Bumps(st, st') {
        PrefixOfRegion(st.files, st.inst.info.lastActualSize, st.inst.actual);
        PrefixOfRegion(st'.files, st.inst.info.lastActualSize, st.inst.actual);
      }
    }
  }

  lemma {:induction false} SequenceMoves(s: uint32)
    ensures Lo32(s + 1) != s
  {
  }

  // ---- a crash inside an append ----

  /**
   The files when a process dies inside appendRaw: the first j bytes of the pair are in
   the tail and, once all are, the crc slot may hold anything a torn store leaves.
   */
  function CrashedAppend(st: Store, pair: seq<byte>, j: nat, crcSlot: Option<uint32>): Files
    requires Mapped(st) && 4 + st.inst.actual + |pair| <= |st.files.data|
    requires j <= |pair|
  {
    Files(Patch(st.files.data, 4 + st.inst.actual, pair[..j]),
          match crcSlot case None => st.files.meta case Some(c) => Patch(st.files.meta, OFF_CRC, Le32(c)))
  }

  lemma {:induction false} CrashKeepsRegions(st: Store, pair: seq<byte>, j: nat, crcSlot: Option<uint32>, n: nat)
    requires Mapped(st) && 4 + st.inst.actual + |pair| <= |st.files.data|
    requires j <= |pair| && n <= st.inst.actual
    ensures var f := CrashedAppend(st, pair, j, crcSlot);
            && |f.data| == |st.files.data| && |f.meta| == |st.files.meta|
            && Region(f, n) == Region(st.files, n)
  {
    hide Le32;
  }

  lemma {:induction false} CrashedMeta(st: Store, pair: seq<byte>, j: nat, crcSlot: Option<uint32>)
    requires Mapped(st) && 4 + st.inst.actual + |pair| <= |st.files.data| && j <= |pair|
    ensures var f := CrashedAppend(st, pair, j, crcSlot);
            var live := ParseMeta(st.files.meta);
            && |f.meta| == |st.files.meta|
            && ParseMeta(f.meta) == live.(crcDigest := match crcSlot case None => live.crcDigest case Some(c) => c)
  {
    hide Le32, ParseMeta, Patch;
    if crcSlot.Some? {
      ParsePokedCrc(st.files.meta, crcSlot.value);
    }
  }

  /**
   Dying anywhere before the last store of an append leaves files that load to the map
   before it or to the last confirmed map: never to an error, a salvage or the empty discard.
   */
  lemma {:induction false} CrashInAppend(
      st: Store, pair: seq<byte>, j: nat, crcSlot: Option<uint32>, cfg: Config, i: Inst)
    requires Settled(st) && Floor(st) && st.inst.info.version == VERSION_FLAG
    requires 4 + st.inst.actual + |pair| <= |st.files.data| && j <= |pair|
    requires i.crypt == st.inst.crypt
    ensures var load := LoadData(cfg, CrashedAppend(st, pair, j, crcSlot), i);
            && load.Loaded? && load.inst.needFull == i.needFull
            && ((load.inst.actual == st.inst.actual && load.inst.dict == st.inst.dict)
                || (load.inst.actual == st.inst.info.lastActualSize && load.inst.dict == FloorDict(st)))
  {
    hide Coherent, Parse, Plain, ParseMeta, Checksum, CrashedAppend;
    CoherentMapped(st);
    CrashKeepsRegions(st, pair, j, crcSlot, st.inst.actual);
    CrashKeepsRegions(st, pair, j, crcSlot, st.inst.info.lastActualSize);
    CrashedMeta(st, pair, j, crcSlot);
  }

  /** Once the last store is done the files load to the map after the append. */
  lemma {:induction false} CompletedAppend(st: Store, key: Key, blob: Blob, cfg: Config, i: Inst)
    requires Settled(st) && FastOk(st.inst) && st.inst.actual > 0 && key != []
    requires 4 + st.inst.actual + |Pair(key, blob)| <= |st.files.data| <= SIZE_LIMIT
    requires i.crypt.None?
    ensures var load := LoadData(cfg, AppendRaw(st, Pair(key, blob)).files, i);
            load.Loaded? && load.inst.dict == Put(st.inst.dict, key, blob)
  {
    hide Coherent, Recorded, Parse, ParseMeta, Pair, Poke, Patch, Update, Lo32;
    CoherentMapped(st);
    AppendKeepsCoherent(st, key, blob);
    RecordedLoads(WithDict(AppendRaw(st, Pair(key, blob)), Put(st.inst.dict, key, blob)), cfg, i);
  }

  /** Any open of a recorded store with the same key reads its dictionary. */
  lemma {:induction false} RecordedLoads(st: Store, cfg: Config, i: Inst)
    requires Recorded(st) && i.crypt == st.inst.crypt
    ensures LoadData(cfg, st.files, i) ==
            Loaded(i.(info := st.inst.info, dict := st.inst.dict, actual := st.inst.actual, crc := st.inst.crc,
                      expire := ExpireEnabled(st.inst.info)))
  {
    hide Parse, Plain, ParseMeta, Checksum;
  }

  // ---- repair by a recovering open ----

  const ZERO_INFO := MetaInfo(0, 0, 0, Zeros(16), 0, 0, 0, 0)

  /** The fields of a new instance before its first load. */
  function Blank(crypt: Option<Cfb.Cipher>): Inst {
    Inst(crypt, ZERO_INFO, map[], 0, 0, false, false, false, 0, false)
  }

  /** A writable open: load, then rewrite at once if the load had to salvage. */
  ghost function OpenStore(cfg: Config, f: Files, crypt: Option<Cfb.Cipher>, iv: Block): Outcome
    requires |f.data| >= cfg.page && |f.meta| >= META_SIZE
  {
    var load := LoadData(cfg, f, Blank(crypt));
    var st := Store(cfg, f, load.inst);
    if load.Failed? then Outcome(st, false)
    else if load.inst.needFull then WriteBack(st, true, 0, iv)
    else Outcome(st, true)
  }

  /** Loading twice is loading once. */
  lemma {:induction false} LoadedAgrees(cfg: Config, f: Files, i: Inst)
    requires |f.data| >= cfg.page && |f.meta| >= META_SIZE
    requires LoadData(cfg, f, i).Loaded?
    ensures ReloadAgrees(Store(cfg, f, LoadData(cfg, f, i).inst))
  {
    hide ParseMeta, CrcValid, Parse, Plain, ReadActualSize, Region, Clamped;
  }

  /** What a load makes of the meta file. */
  lemma {:induction false} LoadedInfo(cfg: Config, f: Files, i: Inst)
    requires |f.data| >= 4 && |f.meta| >= META_SIZE
    ensures var j, live := LoadData(cfg, f, i).inst, ParseMeta(f.meta);
            && j.info.version == live.version && j.info.flags == live.flags && j.needLoad == i.needLoad
            && (LoadData(cfg, f, i).Loaded? ==> j.expire == (live.version >= VERSION_FLAG && ExpireEnabled(live)))
  {
    hide ParseMeta, CrcValid, Parse, Plain, ReadActualSize, Region, Clamped;
  }

  /** An accepted or rolled back load does not depend on the recovery option. */
  lemma {:induction false} LoadWithoutRecover(cfg: Config, cfg': Config, f: Files, i: Inst)
    requires |f.data| >= 4
    requires LoadData(cfg, f, i).Loaded? && !LoadData(cfg, f, i).inst.needFull && cfg.recover
    ensures LoadData(cfg', f, i) == LoadData(cfg, f, i)
  {
    hide ParseMeta, CrcValid, Parse, Plain, ReadActualSize, Region, Clamped;
  }

  /** The expiration setting in memory does not reach the bytes of a rewrite. */
  lemma {:induction false} WriteBackIgnoresExpire(st: Store, e: bool, needSync: bool, incoming: nat, iv: Block)
    requires Mapped(st)
    ensures var a := WriteBack(st, needSync, incoming, iv);
            var b := WriteBack(st.(inst := st.inst.(expire := e)), needSync, incoming, iv);
            a.ok == b.ok && b.st == a.st.(inst := a.st.inst.(expire := e))
  {
    hide Packed, Parse, GrownSize, Sealed, Rewritten, Resize, StoreMeta;
    PayloadFits(st.cfg.page, |st.files.data|, |Packed(st.inst.dict)|, |st.inst.dict|, needSync, incoming);
  }

  /**
   Total repair: for any data and meta bytes, a writable recovering open fails exactly
   when the version is unknown or the region that passes its digest does not decode.
   Otherwise a later default open reads the same map, and the store invariant holds if
   and only if the flags field was meaningful for the recorded version.
   */
  lemma {:induction false} TotalRepair(cfg: Config, f: Files, crypt: Option<Cfb.Cipher>, iv: Block)
    requires |f.data| >= cfg.page && |f.meta| >= META_SIZE && |f.data| <= SIZE_LIMIT
    requires cfg.recover
    ensures var out := OpenStore(cfg, f, crypt, iv);
            && (out.ok <==> Loadable(cfg, f, crypt))
            && (out.ok ==>
                  var later := LoadData(cfg.(recover := false), out.st.files, Blank(crypt));
                  && later.Loaded? && later.inst.dict == out.st.inst.dict == LoadData(cfg, f, Blank(crypt)).inst.dict
                  && (Coherent(out.st) <==> FlagsSettled(ParseMeta(f.meta))))
  {
    hide ParseMeta, LoadData, Loadable, WriteBack, Coherent;
    var load := LoadData(cfg, f, Blank(crypt));
    LoadSucceeds(cfg, f, Blank(crypt));
    if load.Loaded? {
      LoadedAgrees(cfg, f, Blank(crypt));
      LoadedInfo(cfg, f, Blank(crypt));
      LoadKeepsCrypt(cfg, f, Blank(crypt));
      if load.inst.needFull {
        RepairedBySalvage(Store(cfg, f, load.inst), iv);
      } else {
        LoadWithoutRecover(cfg, cfg.(recover := false), f, Blank(crypt));
        CoherentIff(Store(cfg, f, load.inst));
      }
    }
  }

  lemma {:induction false} CoherentIff(st: Store)
    requires ReloadAgrees(st) && !st.inst.needLoad
    ensures Coherent(st) <==> FlagsSettled(st.inst.info)
  {
    hide LoadData;
  }

  lemma {:induction false} RepairedBySalvage(st: Store, iv: Block)
    requires ReloadAgrees(st) && !st.inst.needLoad && |st.files.data| <= SIZE_LIMIT
    requires st.inst.expire == (st.inst.info.version >= VERSION_FLAG && ExpireEnabled(st.inst.info))
    ensures var out := WriteBack(st, true, 0, iv);
            var later := LoadData(st.cfg.(recover := false), out.st.files, Blank(st.inst.crypt));
            && out.ok && later.Loaded? && later.inst.dict == out.st.inst.dict == st.inst.dict
            && (Coherent(out.st) <==> FlagsSettled(st.inst.info))
  {
    hide LoadData, WriteBack, Weight, Recorded;
    CoherentDict(st);
    var e := ExpireEnabled(st.inst.info);
    var fixed := st.(inst := st.inst.(expire := e));
    WriteBackIgnoresExpire(st, e, true, 0, iv);
    WriteBackKeepsCoherent(fixed, true, 0, iv);
    WrittenMeta(fixed, true, 0, iv);
    WriteBackKeepsFlags(fixed, true, 0, iv);
    WriteBackKeepsFlags(st, true, 0, iv);
    var out, good := WriteBack(st, true, 0, iv).st, WriteBack(fixed, true, 0, iv).st;
    RecordedLoads(good, st.cfg.(recover := false), Blank(st.inst.crypt));
    CoherentUpToExpire(good, out);
  }

  /** With a stale flag bit the rewrite turns expiration on for every later reader, but not for the writer. */
  lemma {:induction false} StaleFlagFlipsExpire(st: Store, iv: Block)
    requires ReloadAgrees(st) && !st.inst.needLoad && |st.files.data| <= SIZE_LIMIT
    requires st.inst.info.version < VERSION_FLAG && ExpireEnabled(st.inst.info) && !st.inst.expire
    ensures var out := WriteBack(st, true, 0, iv).st;
            var later := LoadData(st.cfg, out.files, Blank(st.inst.crypt));
            !out.inst.expire && later.Loaded? && later.inst.dict == out.inst.dict && later.inst.expire
  {
    hide LoadData, WriteBack, Weight, Recorded;
    CoherentDict(st);
    var fixed := st.(inst := st.inst.(expire := true));
    WriteBackIgnoresExpire(st, true, true, 0, iv);
    WriteBackKeepsCoherent(fixed, true, 0, iv);
    WriteBackKeepsFlags(fixed, true, 0, iv);
    WriteBackKeepsFlags(st, true, 0, iv);
    RecordedLoads(WriteBack(fixed, true, 0, iv).st, st.cfg, Blank(st.inst.crypt));
  }

  /** Files of version 0 with flag bit 0 set are such a store. */
  lemma {:induction false} StaleFlagCounterexample(cfg: Config, crypt: Option<Cfb.Cipher>, iv: Block)
    requires cfg.page <= SIZE_LIMIT
    ensures var f := Files(Zeros(cfg.page), Marshal(ZERO_INFO.(flags := 1)));
            var st := OpenStore(cfg, f, crypt, iv);
            && st.ok && !st.st.inst.expire
            && LoadData(cfg, WriteBack(st.st, true, 0, iv).st.files, Blank(crypt)).inst.expire
  {
    hide WriteBack, Zeros, Marshal, ParseMeta, Carries;
    var stale := ZERO_INFO.(flags := 1);
    var f := Files(Zeros(cfg.page), Marshal(stale));
    MetaRoundTrip(stale, []);
    assert Marshal(stale) + [] == Marshal(stale);
    StaleFilesLoadEmpty(cfg, f, crypt);
    StaleFlagFlipsExpire(Store(cfg, f, Blank(crypt).(info := stale)), iv);
  }

  lemma {:induction false} StaleFilesLoadEmpty(cfg: Config, f: Files, crypt: Option<Cfb.Cipher>)
    requires f.data == Zeros(cfg.page) && |f.meta| >= META_SIZE && ParseMeta(f.meta) == ZERO_INFO.(flags := 1)
    ensures var i := Blank(crypt).(info := ZERO_INFO.(flags := 1));
            LoadData(cfg, f, Blank(crypt)) == LoadData(cfg, f, i) == Loaded(i)
  {
    hide ParseMeta;
    EmptyRegionCarriesNothing(f, crypt, ZERO_INFO.iv);
  }

  /** A store that is recorded except for its expiration setting is coherent when that agrees too. */
  lemma {:induction false} CoherentUpToExpire(good: Store, st: Store)
    requires Coherent(good) && Recorded(good)
    requires good == st.(inst := st.inst.(expire := ExpireEnabled(good.inst.info)))
    ensures Coherent(st) <==> st.inst.expire == ExpireEnabled(good.inst.info)
  {
    hide LoadData, OnDisk, ParseMeta;
    RecordedLoads(good, good.cfg, st.inst);
  }

  lemma {:induction false} WriteBackKeepsFlags(st: Store, needSync: bool, incoming: nat, iv: Block)
    requires Mapped(st)
    ensures var out := WriteBack(st, needSync, incoming, iv).st;
            && out.cfg == st.cfg && out.inst.info.flags == st.inst.info.flags && out.inst.crypt == st.inst.crypt
            && out.inst.needLoad == st.inst.needLoad && out.inst.expire == st.inst.expire && Mapped(out)
  {
    hide Packed, Parse, NewSize, Sealed, Rewritten, StoreMeta, Lo32;
    WriteBackFits(st, needSync, incoming, iv);
  }

  // ---- a new store ----

  function FreshFiles(page: PageSize): Files {
    Files(Zeros(page), Zeros(page))
  }

  /** A newly created store opens settled, empty, and on its own floor. */
  lemma {:induction false} FreshIsSettled(cfg: Config, crypt: Option<Cfb.Cipher>)
    ensures var st := Store(cfg, FreshFiles(cfg.page), Blank(crypt));
            && LoadData(cfg, st.files, st.inst) == Loaded(st.inst)
            && Settled(st) && Floor(st) && FloorDict(st) == map[] == st.inst.dict
  {
    var f := FreshFiles(cfg.page);
    assert ParseMeta(f.meta) == ZERO_INFO;
    EmptyRegionCarriesNothing(f, crypt, ZERO_INFO.iv);
  }

  lemma {:induction false} FreshIsCoherent(cfg: Config, crypt: Option<Cfb.Cipher>)
    ensures var st := Store(cfg, FreshFiles(cfg.page), Blank(crypt)); Mapped(st) && Coherent(st)
  {
    hide Coherent, LoadData, Floor;
    FreshIsSettled(cfg, crypt);
    CoherentMapped(Store(cfg, FreshFiles(cfg.page), Blank(crypt)));
  }

  // ---- two promises that fail on a new store ----

  /** An empty key is set in memory and lost by the files. */
  lemma {:induction false} SetCounterexample(cfg: Config, crypt: Option<Cfb.Cipher>, iv: Block)
    requires cfg.page <= SIZE_LIMIT - 16
    ensures var st := Store(cfg, FreshFiles(cfg.page), Blank(crypt));
            && Coherent(st)
            && !Did(SetBlob(st, [], [1], iv), st, Abs(map[[] := [1]], false, 0))
  {
    hide Coherent, SetBlob, Did, FreshFiles, ZERO_INFO;
    var st := Store(cfg, FreshFiles(cfg.page), Blank(crypt));
    FreshIsCoherent(cfg, crypt);
    FreshSize(cfg.page);
    assert |Pair([], [1])| == 3;
    SetAgreesIff(st, [], [1], iv);
    assert st.inst.dict[[] := [1]] == map[[] := [1]];
  }

  lemma {:induction false} FreshSize(page: PageSize)
    ensures |FreshFiles(page).data| == page
  {
  }

  lemma {:induction false} EmptyWeight()
    ensures Weight(map[]) == 0
  {
  }

  /** What a process finds that reopens a store of version 0 with flag bit 0 set, after one set. */
  lemma {:induction false} StaleReopened(cfg: Config, st: Store, key: Key, blob: Blob, iv: Block)
    requires ReloadAgrees(st) && !st.inst.needLoad && st.cfg == cfg && st.inst.dict == map[]
    requires st.inst.info.version < VERSION_FLAG && ExpireEnabled(st.inst.info) && !st.inst.expire
    requires Packable(map[key := blob])
    ensures Mapped(st) && SetBlob(st, key, blob, iv).ok
    ensures Mapped(SetBlob(st, key, blob, iv).st) && SetBlob(st, key, blob, iv).st.cfg == cfg
    ensures var again := OpenStore(cfg, SetBlob(st, key, blob, iv).st.files, st.inst.crypt, iv);
            && again.ok && Coherent(again.st) && again.st.inst.dict == map[key := blob] && again.st.inst.expire
  {
    hide LoadData, WriteBack, Packable, Recorded, Pair, Coherent;
    var pair, written := |Pair(key, blob)|, WithDict(st, map[key := blob]);
    assert st.inst.dict[key := blob] == map[key := blob];
    var fixed := written.(inst := written.inst.(expire := true));
    WriteBackIgnoresExpire(written, true, false, pair, iv);
    WriteBackKeepsCoherent(fixed, false, pair, iv);
    WriteBackKeepsFlags(fixed, false, pair, iv);
    WriteBackKeepsFlags(written, false, pair, iv);
    WriteBackFits(written, false, pair, iv);
    var good := WriteBack(fixed, false, pair, iv).st;
    RecordedLoads(good, cfg, Blank(st.inst.crypt));
    ReopenedIsCoherent(cfg, good.files, st.inst.crypt);
  }

  lemma {:induction false} ReopenedIsCoherent(cfg: Config, f: Files, crypt: Option<Cfb.Cipher>)
    requires |f.data| >= cfg.page && |f.meta| >= META_SIZE
    requires var load := LoadData(cfg, f, Blank(crypt)); load.Loaded? && load.inst.info.version == VERSION_FLAG
    ensures Coherent(Store(cfg, f, LoadData(cfg, f, Blank(crypt)).inst))
  {
    hide LoadData, ReloadAgrees;
    LoadedAgrees(cfg, f, Blank(crypt));
    LoadedInfo(cfg, f, Blank(crypt));
    CoherentIff(Store(cfg, f, LoadData(cfg, f, Blank(crypt)).inst));
  }

  /**
   Files of version 0 with flag bit 0 set, one SetFloat32 of 0.0, a reopen: the four bytes
   of the value are now taken for a timestamp, and disabling expiration loses the key.
   */
  lemma {:induction false} DisableCounterexample(cfg: Config, crypt: Option<Cfb.Cipher>, at: Clock, iv: Block)
    requires cfg.page <= SIZE_LIMIT
    ensures var f := Files(Zeros(cfg.page), Marshal(ZERO_INFO.(flags := 1)));
            var first := OpenStore(cfg, f, crypt, iv);
            first.ok && Mapped(first.st) &&
            var written := SetBlob(first.st, [107], [0, 0, 0, 0], iv);
            written.ok && Mapped(written.st) &&
            var st := OpenStore(cfg, written.st.files, crypt, iv).st;
            && Coherent(st) && VisibleAt(st.inst.dict, st.inst.expire, at) == map[[107] := []]
            && !Did(Disable(st, at, iv), st, Abs(map[[107] := []], false, 0))
  {
    hide Zeros, Marshal, ParseMeta, Carries, Coherent, SetBlob, Disable, WriteBack, GetLe32, Weight;
    var stale := ZERO_INFO.(flags := 1);
    var f := Files(Zeros(cfg.page), Marshal(stale));
    MetaRoundTrip(stale, []);
    assert Marshal(stale) + [] == Marshal(stale);
    StaleFilesLoadEmpty(cfg, f, crypt);
    var first := Store(cfg, f, Blank(crypt).(info := stale));
    ZeroBlobPacks();
    StaleReopened(cfg, first, [107], [0, 0, 0, 0], iv);
    var st := OpenStore(cfg, SetBlob(first, [107], [0, 0, 0, 0], iv).st.files, crypt, iv).st;
    ZeroBlobIsStamp(at([107]));
    assert VisibleAt(st.inst.dict, true, at) == map[[107] := []];
    assert !NoEmptyVisible(st.inst.dict, at) by { assert [107] in st.inst.dict; }
    CoherentMapped(st);
    DisableLosesEmpty(st, at, iv);
  }

  lemma {:induction false} ZeroBlobPacks()
    ensures Packable(map[[107] := [0, 0, 0, 0]])
  {
    hide Weight;
    var d: Dict := map[[107] := [0, 0, 0, 0]];
    assert |Pair([107], [0, 0, 0, 0])| == 7;
    WeightRemove(d, [107]);
    assert d - {[107]} == map[];
    EmptyWeight();
  }

  lemma {:induction false} ZeroBlobIsStamp(now: uint32)
    ensures Visible([0, 0, 0, 0], true, now) == Present([])
  {
  }
}
