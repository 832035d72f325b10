/**
 One store instance over its two files, as a pure state machine: loading with recovery,
 the three physical write paths, and the public operations. The class MMKV refines it.
 */
module Store {
  import opened Bytes
  import opened Crc32
  import opened LogRegion
  import opened KeyOrder
  import opened Meta
  import opened Growth
  import Cfb

  datatype Option<+T> = None | Some(value: T)

  /** Up to this file size every offset 4 + actualSize, also of a rewritten region, is a 32-bit word. */
  const SIZE_LIMIT: nat := 0xFFFF_FFFC

  /** Options fixed when the instance is opened. */
  datatype Config = Config(page: PageSize, multiProcess: bool, recover: bool)

  /** The bytes of the data file and of the meta file. */
  datatype Files = Files(data: seq<byte>, meta: seq<byte>)

  /** The in-memory fields of an instance. */
  datatype Inst = Inst(
    crypt: Option<Cfb.Cipher>,
    info: MetaInfo,
    dict: Dict,
    actual: uint32,
    crc: uint32,
    needLoad: bool,
    needFull: bool,
    expire: bool,
    seconds: uint32,
    compare: bool)

  datatype Store = Store(cfg: Config, files: Files, inst: Inst)

  /** A load either installs a new in-memory state or reports an error. */
  datatype Load = Loaded(inst: Inst) | Failed(inst: Inst)

  /** An operation's new state and whether it reported success. */
  datatype Outcome = Outcome(st: Store, ok: bool)

  /** A mapped writable store: at least a page of data, at least a meta struct. */
  predicate Mapped(st: Store) {
    |st.files.data| >= st.cfg.page && |st.files.meta| >= META_SIZE
  }

  // ---- loading ----

  function Region(f: Files, actual: nat): seq<byte>
    requires 4 + actual <= |f.data|
  {
    f.data[4..4 + actual]
  }

  /** The region lies in the file and carries the wanted digest. */
  predicate CrcValid(f: Files, actual: nat, want: uint32) {
    4 + actual <= |f.data| && Checksum(Region(f, actual)) == want
  }

  function Plain(crypt: Option<Cfb.Cipher>, iv: Block, region: seq<byte>): seq<byte> {
    match crypt
    case None => region
    case Some(ciph) => Cfb.Decrypt(ciph, iv, region)
  }

  function Sealed(crypt: Option<Cfb.Cipher>, iv: Block, region: seq<byte>): (r: seq<byte>)
    ensures |r| == |region|
  {
    match crypt
    case None => region
    case Some(ciph) => Cfb.Encrypt(ciph, iv, region)
  }

  function ReadActualSize(f: Files, info: MetaInfo): uint32 {
    if info.version >= VERSION_ACTUAL_SIZE then info.actualSize
    else if |f.data| >= 4 then GetLe32(f.data, 0)
    else 0
  }

  function DecodeRegion(f: Files, i: Inst, actual: uint32, crc: uint32): Load
    requires 4 + actual <= |f.data|
  {
    match Parse(Plain(i.crypt, i.info.iv, Region(f, actual)))
    case Done(d) => Loaded(i.(dict := d, actual := actual, crc := crc))
    case Stuck(_) => Failed(i)
  }

  /** The size the salvage decodes: the recorded one, clamped to the file. */
  function Clamped(f: Files, actual: uint32): nat {
    if 4 + actual <= |f.data| then actual else if |f.data| >= 4 then |f.data| - 4 else 0
  }

  function Salvage(f: Files, i: Inst): Inst
    requires |f.data| >= 4
  {
    var region := Region(f, Clamped(f, i.info.actualSize));
    i.(dict := Parse(Plain(i.crypt, i.info.iv, region)).dict,
       actual := i.info.actualSize, crc := i.info.crcDigest, needFull := true)
  }

  function LoadInfo(i: Inst, info: MetaInfo): Inst {
    i.(info := info, expire := info.version >= VERSION_FLAG && ExpireEnabled(info))
  }

  /** Accept the recorded region, else roll back to the last confirmed one, else salvage or discard. */
  function ChooseRegion(cfg: Config, f: Files, j: Inst): Load
    requires |f.data| >= 4
  {
    var info := j.info;
    var actual := ReadActualSize(f, info);
    if CrcValid(f, actual, info.crcDigest) then DecodeRegion(f, j, actual, info.crcDigest)
    else if CrcValid(f, info.lastActualSize, info.lastCRCDigest) then
      var back := info.(actualSize := info.lastActualSize, crcDigest := info.lastCRCDigest);
      DecodeRegion(f, j.(info := back), info.lastActualSize, info.lastCRCDigest)
    else if cfg.recover then Loaded(Salvage(f, j))
    else Loaded(j.(dict := map[], actual := 0, crc := 0))
  }

  function LoadData(cfg: Config, f: Files, i: Inst): Load
    requires |f.data| >= 4
  {
    if |f.meta| < META_SIZE then Failed(i)
    else
      var info := ParseMeta(f.meta);
      if info.version > VERSION_FLAG then Failed(i.(info := info)) else ChooseRegion(cfg, f, LoadInfo(i, info))
  }

  /** What makes a load succeed: the first region whose digest matches, if any, decodes. */
  predicate Loadable(cfg: Config, f: Files, crypt: Option<Cfb.Cipher>) {
    && |f.data| >= 4 && |f.meta| >= META_SIZE
    && var info := ParseMeta(f.meta);
    && info.version <= VERSION_FLAG
    && var actual := ReadActualSize(f, info);
    if CrcValid(f, actual, info.crcDigest) then Parse(Plain(crypt, info.iv, Region(f, actual))).Done?
    else CrcValid(f, info.lastActualSize, info.lastCRCDigest) ==>
           Parse(Plain(crypt, info.iv, Region(f, info.lastActualSize))).Done?
  }

  lemma {:induction false} LoadSucceeds(cfg: Config, f: Files, i: Inst)
    requires |f.data| >= 4
    ensures LoadData(cfg, f, i).Loaded? <==> Loadable(cfg, f, i.crypt)
  {
    hide ParseMeta, Parse, Plain, ReadActualSize, Checksum;
  }

  lemma {:induction false} LoadKeepsCrypt(cfg: Config, f: Files, i: Inst)
    requires |f.data| >= 4
    ensures LoadData(cfg, f, i).inst.crypt == i.crypt
  {
    hide ParseMeta, Parse, Plain, ReadActualSize, Checksum;
  }

  // ---- the three write paths ----

  /** appendRaw: the pair lands in the free tail, two meta fields are poked. */
  function AppendRaw(st: Store, pair: seq<byte>): Store
    requires Mapped(st) && 4 + st.inst.actual + |pair| <= |st.files.data|
  {
    var i := st.inst;
    var actual, crc := Lo32(i.actual + |pair|), Update(i.crc, pair);
    st.(files := Files(Patch(st.files.data, 4 + i.actual, pair), Poke(st.files.meta, crc, actual)),
        inst := i.(actual := actual, crc := crc, info := i.info.(actualSize := actual, crcDigest := crc)))
  }

  /** overrideRaw: the region restarts as placeholder and pair. */
  function OverrideRaw(st: Store, key: Key, blob: Blob): Store
    requires Mapped(st) && 8 + |Pair(key, blob)| <= |st.files.data|
  {
    var i, region := st.inst, HOLDER + Pair(key, blob);
    var actual, crc := Lo32(|region|), Checksum(region);
    st.(files := Files(Patch(st.files.data, 4, region), Poke(st.files.meta, crc, actual)),
        inst := i.(actual := actual, crc := crc, info := i.info.(actualSize := actual, crcDigest := crc),
                   dict := i.dict[key := blob]))
  }

  function Resize(data: seq<byte>, n: nat): (r: seq<byte>)
    ensures |r| == n
  {
    if n <= |data| then data[..n] else data + Zeros(n - |data|)
  }

  /** The meta struct after a rewrite whose region has this size and digest. */
  function Confirmed(info: MetaInfo, actual: uint32, crc: uint32): MetaInfo {
    info.(sequence := Lo32(info.sequence + 1), version := VERSION_FLAG,
          actualSize := actual, crcDigest := crc, lastActualSize := actual, lastCRCDigest := crc)
  }

  function StoreMeta(meta: seq<byte>, info: MetaInfo): (r: seq<byte>)
    requires |meta| >= META_SIZE
    ensures |r| == |meta|
  {
    Marshal(info) + meta[META_SIZE..]
  }

  /** The data file after a rewrite: zeroed header, payload, whatever was behind it. */
  function Rewritten(data: seq<byte>, payload: seq<byte>): (r: seq<byte>)
    requires 4 + |payload| <= |data|
    ensures |r| == |data|
  {
    Zeros(4) + payload + data[4 + |payload|..]
  }

  ghost function NewSize(st: Store, needSync: bool, incoming: nat): nat {
    GrownSize(st.cfg.page, |st.files.data|, |Packed(st.inst.dict)|, |st.inst.dict|, needSync, incoming)
  }

  /** fullWritebackGrow: re-pack the dictionary, grow if needed, confirm, decode again. */
  ghost function WriteBack(st: Store, needSync: bool, incoming: nat, iv: Block): Outcome
    requires Mapped(st)
  {
    var i, region := st.inst, Packed(st.inst.dict);
    var sealing := if i.crypt.Some? then i.info.(iv := iv) else i.info;
    var payload := Sealed(i.crypt, iv, region);
    PayloadFits(st.cfg.page, |st.files.data|, |region|, |i.dict|, needSync, incoming);
    var data := Rewritten(Resize(st.files.data, NewSize(st, needSync, incoming)), payload);
    var actual, crc := Lo32(|payload|), Checksum(payload);
    var info := Confirmed(sealing, actual, crc);
    var j := i.(info := info, actual := actual, crc := crc);
    var st' := st.(files := Files(data, StoreMeta(st.files.meta, info)));
    match Parse(region)
    case Done(d) => Outcome(st'.(inst := j.(dict := d, needFull := false)), true)
    case Stuck(_) => Outcome(st'.(inst := j), false)
  }

  ghost function WithDict(st: Store, d: Dict): Store {
    st.(inst := st.inst.(dict := d))
  }

  // ---- operations behind checkLoadData ----

  predicate FastOk(i: Inst) {
    i.crypt.None? && !i.needFull && i.info.version >= VERSION_FLAG
  }

  predicate TakesOverride(st: Store, key: Key, blob: Blob) {
    var i := st.inst;
    && FastOk(i) && !st.cfg.multiProcess && 8 + |Pair(key, blob)| <= |st.files.data|
    && ((key in i.dict && |i.dict| == 1) || (|i.dict| == 0 && i.actual > 0))
  }

  predicate TakesAppend(st: Store, key: Key, blob: Blob) {
    FastOk(st.inst) && 4 + st.inst.actual + |Pair(key, blob)| <= |st.files.data| && |st.inst.dict| > 0
  }

  ghost function SetBlob(st: Store, key: Key, blob: Blob, iv: Block): Outcome
    requires Mapped(st)
  {
    var d := st.inst.dict[key := blob];
    if TakesOverride(st, key, blob) then Outcome(OverrideRaw(st, key, blob), true)
    else if TakesAppend(st, key, blob) then Outcome(WithDict(AppendRaw(st, Pair(key, blob)), d), true)
    else WriteBack(WithDict(st, d), |st.inst.dict| > 0, |Pair(key, blob)|, iv)
  }

  /** A removal that appends its tombstone; it does not ask whether the store is encrypted. */
  predicate AppendsTombstone(st: Store, key: Key) {
    var i := st.inst;
    && 4 + i.actual + |Pair(key, [])| <= |st.files.data|
    && i.info.version >= VERSION_FLAG && i.actual > 0 && !i.needFull
  }

  ghost function RemoveKey(st: Store, key: Key, iv: Block): Outcome
    requires Mapped(st)
  {
    if key !in st.inst.dict then Outcome(st, true)
    else
      var cut := WithDict(st, st.inst.dict - {key});
      if AppendsTombstone(st, key) then Outcome(AppendRaw(cut, Pair(key, [])), true)
      else WriteBack(cut, true, 0, iv)
  }

  ghost function RemoveKeys(st: Store, keys: seq<Key>, iv: Block): Outcome
    requires Mapped(st)
  {
    var gone := set k | k in keys;
    if gone !! st.inst.dict.Keys then Outcome(st, true)
    else WriteBack(WithDict(st, st.inst.dict - gone), true, 0, iv)
  }

  function ClearAll(st: Store): Store
    requires Mapped(st)
  {
    var data := Resize(st.files.data, PageRoundUp(st.cfg.page, 0));
    var info := Confirmed(st.inst.info, 0, 0);
    st.(files := Files(Rewritten(data, []), StoreMeta(st.files.meta, info)),
        inst := st.inst.(dict := map[], actual := 0, crc := 0, info := info, needFull := false))
  }

  ghost function TrimFile(st: Store, iv: Block): Outcome
    requires Mapped(st)
  {
    if st.inst.actual == 0 then Outcome(ClearAll(st), true)
    else
      var out := WriteBack(st, true, 0, iv);
      WriteBackFits(st, true, 0, iv);
      if !out.ok then out else Shrink(out.st)
  }

  lemma {:induction false} WriteBackFits(st: Store, needSync: bool, incoming: nat, iv: Block)
    requires Mapped(st)
    ensures var out := WriteBack(st, needSync, incoming, iv).st;
            && Mapped(out) && 4 + out.inst.actual <= |out.files.data|
            && |out.files.data| == NewSize(st, needSync, incoming)
            && out.cfg == st.cfg && out.inst.crypt == st.inst.crypt && out.inst.info.version == VERSION_FLAG
  {
    hide Packed, GrownSize, Cfb.Encrypt, Checksum, Marshal, Parse;
    PayloadFits(st.cfg.page, |st.files.data|, |Packed(st.inst.dict)|, |st.inst.dict|, needSync, incoming);
  }

  /** Trim's second half: truncate and decode the region again in the new mapping. */
  function Shrink(st: Store): Outcome
    requires Mapped(st) && 4 + st.inst.actual <= |st.files.data|
  {
    var size := |st.files.data|;
    var target := TrimTarget(st.cfg.page, size, st.inst.actual);
    if target >= size then Outcome(st, true)
    else
      TrimBounds(st.cfg.page, size, st.inst.actual);
      var cut := st.(files := st.files.(data := Resize(st.files.data, PageRoundUp(st.cfg.page, target))));
      match DecodeRegion(cut.files, cut.inst, st.inst.actual, st.inst.crc)
      case Loaded(i) => Outcome(cut.(inst := i), true)
      case Failed(i) => Outcome(cut.(inst := i), false)
  }

  /** ReKey: the new key is kept only when the rewrite succeeds. */
  ghost function ChangeKey(st: Store, crypt: Option<Cfb.Cipher>, iv: Block): Outcome
    requires Mapped(st)
  {
    var out := WriteBack(st.(inst := st.inst.(crypt := crypt)), true, 0, iv);
    if out.ok then out else Outcome(out.st.(inst := out.st.inst.(crypt := st.inst.crypt)), false)
  }

  function ClearMemoryCache(st: Store): Store {
    st.(inst := st.inst.(dict := map[], actual := 0, crc := 0, needLoad := true))
  }

  /** reloadBestEffort: an error leaves the dictionary as it was. */
  function Reload(st: Store): Store
    requires Mapped(st)
  {
    st.(inst := LoadData(st.cfg, st.files, st.inst).inst)
  }

  /** checkLoadData: a forced reload, or the multi-process canary. */
  function CheckLoadData(st: Store): Store
    requires Mapped(st)
  {
    if st.inst.needLoad then Reload(st.(inst := st.inst.(needLoad := false)))
    else if !st.cfg.multiProcess then st
    else
      var live := ParseMeta(st.files.meta);
      if live.sequence != st.inst.info.sequence || live.crcDigest != st.inst.crc || live.actualSize != st.inst.actual
      then Reload(st)
      else st
  }
}
