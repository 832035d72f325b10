/**
 The public operations over a store, each behind checkLoadData, and the plain map they
 refine: after any run of them the files reload to exactly the map the run specifies.
 */
module Operations {
  import opened Bytes
  import opened Crc32
  import opened Wire
  import opened LogRegion
  import opened KeyOrder
  import opened Meta
  import opened Growth
  import opened Store
  import opened Coherence
  import opened Expiry
  import Cfb

  datatype Op =
    | Set(key: Key, blob: Blob, now: uint32)
    | Remove(key: Key)
    | RemoveMany(keys: seq<Key>)
    | Clear
    | Trim
    | ReKey(crypt: Option<Cfb.Cipher>)
    | EnableExpire(seconds: uint32)
    | DisableExpire(at: Clock)
    | DropCache
    | Import(items: seq<Rec>, at: Clock)

  /** The random IVs an operation draws, one per encrypted rewrite. */
  type IvSource = nat -> Block

  // ---- the code ----

  /** What a set stores: under expiration the value is stamped first. */
  function Stored(expire: bool, seconds: uint32, blob: Blob, now: uint32): Blob {
    if expire then Stamp(blob, ExpireAt(seconds, now)) else blob
  }

  /** setValueLocked */
  ghost function SetValue(st: Store, key: Key, blob: Blob, now: uint32, iv: Block): Outcome
    requires Mapped(st)
  {
    var i := st.inst;
    if i.compare && !i.expire && key in i.dict && i.dict[key] == blob then Outcome(st, true)
    else SetBlob(st, key, Stored(i.expire, i.seconds, blob, now), iv)
  }

  ghost function ImportItems(st: Store, items: seq<Rec>, at: Clock, ivs: IvSource): Outcome
    requires Mapped(st)
    decreases |items|
  {
    if items == [] then Outcome(st, true)
    else
      var out := SetValue(st, items[0].key, items[0].val, at(items[0].key), ivs(|items|));
      SetValueMapped(st, items[0].key, items[0].val, at(items[0].key), ivs(|items|));
      if out.ok then ImportItems(out.st, items[1..], at, ivs) else out
  }

  ghost function Enable(st: Store, seconds: uint32, iv: Block): Outcome
    requires Mapped(st)
  {
    var i := st.inst;
    var flags := if ExpireEnabled(i.info) then i.info.flags else i.info.flags + 1;
    var d := if i.expire then i.dict else StampAll(i.dict);
    var on := i.(seconds := seconds, expire := true, compare := false, info := i.info.(flags := flags), dict := d);
    WriteBack(st.(inst := on), true, 0, iv)
  }

  ghost function Disable(st: Store, at: Clock, iv: Block): Outcome
    requires Mapped(st)
  {
    var i := st.inst;
    if !i.expire then Outcome(st, true)
    else
      var flags := if ExpireEnabled(i.info) then i.info.flags - 1 else i.info.flags;
      var off := i.(seconds := 0, expire := false, info := i.info.(flags := flags),
                    dict := VisibleAt(i.dict, true, at));
      WriteBack(st.(inst := off), true, 0, iv)
  }

  ghost function Act(st: Store, op: Op, ivs: IvSource): Outcome
    requires Mapped(st)
  {
    match op
    case Set(key, blob, now) => SetValue(st, key, blob, now, ivs(0))
    case Remove(key) => RemoveKey(st, key, ivs(0))
    case RemoveMany(keys) => RemoveKeys(st, keys, ivs(0))
    case Clear => Outcome(ClearAll(st), true)
    case Trim => TrimFile(st, ivs(0))
    case ReKey(crypt) => ChangeKey(st, crypt, ivs(0))
    case EnableExpire(seconds) => Enable(st, seconds, ivs(0))
    case DisableExpire(at) => Disable(st, at, ivs(0))
    case DropCache => Outcome(ClearMemoryCache(st), true)
    case Import(items, at) => ImportItems(st, items, at, ivs)
  }

  ghost function Apply(st: Store, op: Op, ivs: IvSource): Outcome
    requires Mapped(st)
  {
    if op.DropCache? then Act(st, op, ivs) else Act(CheckLoadData(st), op, ivs)
  }

  lemma {:induction false} SetBlobMapped(st: Store, key: Key, blob: Blob, iv: Block)
    requires Mapped(st)
    ensures Mapped(SetBlob(st, key, blob, iv).st) && SetBlob(st, key, blob, iv).st.cfg == st.cfg
  {
    hide WriteBack, Pair, Poke, Patch;
    var d := WithDict(st, st.inst.dict[key := blob]);
    WriteBackFits(d, |st.inst.dict| > 0, |Pair(key, blob)|, iv);
    WriteBackConfig(d, |st.inst.dict| > 0, |Pair(key, blob)|, iv);
  }

  lemma {:induction false} WriteBackConfig(st: Store, needSync: bool, incoming: nat, iv: Block)
    requires Mapped(st)
    ensures WriteBack(st, needSync, incoming, iv).st.cfg == st.cfg
  {
    hide Packed, Parse, NewSize, Sealed, Rewritten, Resize, StoreMeta;
  }

  lemma {:induction false} SetValueMapped(st: Store, key: Key, blob: Blob, now: uint32, iv: Block)
    requires Mapped(st)
    ensures Mapped(SetValue(st, key, blob, now, iv).st) && SetValue(st, key, blob, now, iv).st.cfg == st.cfg
  {
    hide SetBlob;
    SetBlobMapped(st, key, Stored(st.inst.expire, st.inst.seconds, blob, now), iv);
  }

  // ---- the map ----

  /** The stored blobs and the expiration setting, as an access would find them. */
  datatype Abs = Abs(dict: Dict, expire: bool, seconds: uint32)

  ghost function AbsOf(st: Store): Abs
    requires Mapped(st)
  {
    var i := CheckLoadData(st).inst;
    Abs(i.dict, i.expire, i.seconds)
  }

  function SpecSet(a: Abs, key: Key, blob: Blob, now: uint32): Abs {
    a.(dict := a.dict[key := Stored(a.expire, a.seconds, blob, now)])
  }

  function SpecImport(a: Abs, items: seq<Rec>, at: Clock): Abs
    decreases |items|
  {
    if items == [] then a else SpecImport(SpecSet(a, items[0].key, items[0].val, at(items[0].key)), items[1..], at)
  }

  /** The effect of an operation on a plain map. */
  function Spec(a: Abs, op: Op): Abs {
    match op
    case Set(key, blob, now) => SpecSet(a, key, blob, now)
    case Remove(key) => a.(dict := a.dict - {key})
    case RemoveMany(keys) => a.(dict := map k | k in a.dict && k !in keys :: a.dict[k])
    case Clear => a.(dict := map[])
    case Trim => a
    case ReKey(_) => a
    case EnableExpire(seconds) => Abs(if a.expire then a.dict else StampAll(a.dict), true, seconds)
    case DisableExpire(at) => if a.expire then Abs(VisibleAt(a.dict, true, at), false, 0) else a
    case DropCache => a
    case Import(items, at) => SpecImport(a, items, at)
  }

  // ---- what callers owe ----

  /** A non-empty key, a non-empty stored blob, and a file that stays within 32 bits. */
  ghost predicate LegalSet(st: Store, key: Key, stored: Blob) {
    key != [] && stored != [] && |st.files.data| + |Pair(key, stored)| <= SIZE_LIMIT
  }

  ghost predicate LegalImport(st: Store, items: seq<Rec>, at: Clock, ivs: IvSource)
    requires Mapped(st)
    decreases |items|
  {
    items == [] ||
    (var i := st.inst;
     SetValueMapped(st, items[0].key, items[0].val, at(items[0].key), ivs(|items|));
     && LegalSet(st, items[0].key, Stored(i.expire, i.seconds, items[0].val, at(items[0].key)))
     && LegalImport(SetValue(st, items[0].key, items[0].val, at(items[0].key), ivs(|items|)).st, items[1..], at, ivs))
  }

  ghost predicate Legal(st: Store, op: Op, ivs: IvSource)
    requires Mapped(st)
  {
    var i := st.inst;
    && |st.files.data| <= SIZE_LIMIT
    && match op
       case Set(key, blob, now) => LegalSet(st, key, Stored(i.expire, i.seconds, blob, now))
       case Remove(key) => i.crypt.None? || key !in i.dict || !AppendsTombstone(st, key)
       case EnableExpire(_) => Packable(if i.expire then i.dict else StampAll(i.dict))
       case DisableExpire(at) => i.expire ==> NoEmptyVisible(i.dict, at)
       case Import(items, at) => LegalImport(st, items, at, ivs)
       case _ => true
  }

  // ---- refinement ----

  ghost predicate Inv(st: Store) {
    Mapped(st) && Coherent(CheckLoadData(st))
  }

  /** A load overwrites everything it decodes. */
  lemma {:induction false} LoadForgets(cfg: Config, f: Files, i: Inst, j: Inst)
    requires |f.data| >= 4
    requires LoadData(cfg, f, i).Loaded?
    requires j == i.(info := j.info, dict := j.dict, actual := j.actual, crc := j.crc, expire := j.expire)
    ensures LoadData(cfg, f, j) == LoadData(cfg, f, i)
  {
    hide ParseMeta, CrcValid, Parse, Plain, ReadActualSize, Region, Clamped;
  }

  lemma {:induction false} CheckedIsCoherent(st: Store)
    requires Coherent(st)
    ensures CheckLoadData(st) == st
  {
    hide ParseMeta, LoadData;
  }

  lemma {:induction false} CoherentIsInv(st: Store)
    requires Coherent(st)
    ensures Inv(st) && AbsOf(st) == Abs(st.inst.dict, st.inst.expire, st.inst.seconds)
  {
    hide CheckLoadData, Coherent, ReloadAgrees;
    CheckedIsCoherent(st);
    CoherentMapped(st);
  }

  lemma {:induction false} CoherentMapped(st: Store)
    requires Coherent(st)
    ensures Mapped(st)
  {
  }

  /** A coherent store's dictionary can be packed whenever its file is within 32 bits. */
  lemma {:induction false} CoherentPackable(st: Store)
    requires Coherent(st) && |st.files.data| <= SIZE_LIMIT
    ensures Packable(st.inst.dict) && st.inst.expire == ExpireEnabled(st.inst.info)
    ensures Mapped(st) && !st.inst.needLoad && OffsetsFit(st.inst)
  {
    hide LoadData, Weight;
    CoherentDict(st);
    CoherentFacts(st);
  }

  /** No offset into the region wraps at 32 bits; a salvaged store's size is not used as one. */
  predicate OffsetsFit(i: Inst) {
    !i.needFull ==> 4 + i.actual < U32
  }

  /** The operation succeeded, its files reload to its memory, and that is the abstract state a. */
  ghost predicate Did(out: Outcome, st: Store, a: Abs) {
    && out.ok && Coherent(out.st) && out.st.cfg == st.cfg && OffsetsFit(out.st.inst)
    && Abs(out.st.inst.dict, out.st.inst.expire, out.st.inst.seconds) == a
  }

  /** A rewrite of st with the fields of i replaced. */
  lemma {:induction false} RewriteDid(st: Store, i: Inst, needSync: bool, incoming: nat, iv: Block)
    requires Mapped(st) && !i.needLoad && i.expire == ExpireEnabled(i.info) && Packable(i.dict)
    ensures Did(WriteBack(st.(inst := i), needSync, incoming, iv), st, Abs(i.dict, i.expire, i.seconds))
  {
    var next := st.(inst := i);
    WriteBackKeepsCoherent(next, needSync, incoming, iv);
    hide Packed, Parse, NewSize, Sealed, Rewritten, Resize, StoreMeta, Coherent, Packable;
  }

  /** Live keys imply a non-empty region, so its placeholder is there whenever a pair is appended. */
  lemma {:induction false} CoherentActual(st: Store)
    requires Coherent(st)
    ensures st.inst.actual == 0 ==> st.inst.dict == map[]
  {
    hide LoadData;
    CoherentDict(st);
  }

  lemma {:induction false} SetBlobDid(st: Store, key: Key, blob: Blob, iv: Block)
    requires Coherent(st) && LegalSet(st, key, blob)
    ensures Did(SetBlob(st, key, blob, iv), st, Abs(st.inst.dict[key := blob], st.inst.expire, st.inst.seconds))
  {
    hide Coherent, Recorded, Pair, LoadData, Poke, Patch, Weight, WriteBack, Lo32, Update, Checksum;
    var i, d := st.inst, st.inst.dict[key := blob];
    CoherentPackable(st);
    CoherentActual(st);
    if TakesOverride(st, key, blob) {
      OnlyKey(i.dict, key);
      OverrideKeepsCoherent(st, key, blob);
      OverrideFits(st, key, blob);
    } else if TakesAppend(st, key, blob) {
      AppendKeepsCoherent(st, key, blob);
      AppendedRegion(st, Pair(key, blob));
    } else {
      SetPackable(st, key, blob);
      RewriteDid(st, i.(dict := d), |i.dict| > 0, |Pair(key, blob)|, iv);
    }
  }

  lemma {:induction false} OverrideFits(st: Store, key: Key, blob: Blob)
    requires Mapped(st) && 8 + |Pair(key, blob)| <= |st.files.data| <= SIZE_LIMIT
    ensures 4 + OverrideRaw(st, key, blob).inst.actual < U32
  {
    hide Pair, Poke, Patch;
  }

  lemma {:induction false} OnlyKey<T>(d: map<Key, T>, key: Key)
    requires |d| == 0 || (key in d && |d| == 1)
    ensures d.Keys <= {key}
  {
    if |d| == 1 {
      assert |d.Keys| == |d| && {key} <= d.Keys;
      assert |d.Keys - {key}| == 0;
    }
  }

  lemma {:induction false} SetPackable(st: Store, key: Key, blob: Blob)
    requires Coherent(st) && LegalSet(st, key, blob)
    ensures Packable(st.inst.dict[key := blob])
  {
    hide LoadData, Weight, Pair;
    CoherentDict(st);
    WeightPut(st.inst.dict, key, blob);
  }

  lemma {:induction false} PlainStored(seconds: uint32, blob: Blob, now: uint32)
    ensures Stored(false, seconds, blob, now) == blob
  {
  }

  lemma {:induction false} SetValueDid(st: Store, key: Key, blob: Blob, now: uint32, iv: Block)
    requires Coherent(st) && LegalSet(st, key, Stored(st.inst.expire, st.inst.seconds, blob, now))
    ensures var a := Abs(st.inst.dict, st.inst.expire, st.inst.seconds);
            Did(SetValue(st, key, blob, now, iv), st, SpecSet(a, key, blob, now))
  {
    hide SetBlob, Coherent, Stored, Packable, Pair;
    var i := st.inst;
    CoherentPackable(st);
    SetBlobDid(st, key, Stored(i.expire, i.seconds, blob, now), iv);
    PlainStored(i.seconds, blob, now);
    if i.compare && !i.expire && key in i.dict && i.dict[key] == blob {
      assert i.dict[key := blob] == i.dict;
    }
  }

  lemma {:induction false} ImportDid(st: Store, items: seq<Rec>, at: Clock, ivs: IvSource)
    requires Coherent(st) && OffsetsFit(st.inst) && LegalImport(st, items, at, ivs)
    ensures var a := Abs(st.inst.dict, st.inst.expire, st.inst.seconds);
            Did(ImportItems(st, items, at, ivs), st, SpecImport(a, items, at))
    decreases |items|
  {
    hide Coherent, SetValue, LegalSet, Stored;
    CoherentMapped(st);
    if items != [] {
      SetValueDid(st, items[0].key, items[0].val, at(items[0].key), ivs(|items|));
      var out := SetValue(st, items[0].key, items[0].val, at(items[0].key), ivs(|items|));
      ImportDid(out.st, items[1..], at, ivs);
    }
  }

  /** What an import stores for each live value of the other store. */
  function StoredAll(a: Abs, d: Dict, at: Clock): Dict {
    map k | k in d :: Stored(a.expire, a.seconds, d[k], at(k))
  }

  function StoredListed(a: Abs, order: seq<Key>, d: Dict, at: Clock): Dict
    requires forall k | k in order :: k in d
  {
    map k | k in order :: Stored(a.expire, a.seconds, d[k], at(k))
  }

  lemma {:induction false} FirstOfListed(a: Abs, order: seq<Key>, d: Dict, at: Clock)
    requires order != [] && DistinctKeys(order)
    requires forall k | k in order :: k in d
    ensures forall k | k in order[1..] :: k in d
    ensures SpecSet(a, order[0], d[order[0]], at(order[0])).dict + StoredListed(a, order[1..], d, at) ==
            a.dict + StoredListed(a, order, d, at)
  {
    hide Stored, StoredListed;
    var k := order[0];
    ListedHead(a, order, d, at);
    UpdateBefore(a.dict, StoredListed(a, order[1..], d, at), k, Stored(a.expire, a.seconds, d[k], at(k)));
  }

  lemma {:induction false} ListedHead(a: Abs, order: seq<Key>, d: Dict, at: Clock)
    requires order != [] && DistinctKeys(order)
    requires forall k | k in order :: k in d
    ensures forall k | k in order[1..] :: k in d
    ensures var k := order[0];
            var rest := StoredListed(a, order[1..], d, at);
            k !in rest && StoredListed(a, order, d, at) == rest[k := Stored(a.expire, a.seconds, d[k], at(k))]
  {
    hide Stored;
    var k, rest := order[0], order[1..];
    assert forall x :: x in order <==> x == k || x in rest;
    assert k !in rest;
  }

  lemma {:induction false} UpdateBefore(d: Dict, e: Dict, k: Key, v: Blob)
    requires k !in e
    ensures d[k := v] + e == d + e[k := v]
  {
  }

  lemma {:induction false} ImportAddsListed(a: Abs, order: seq<Key>, d: Dict, at: Clock)
    requires DistinctKeys(order)
    requires forall k | k in order :: k in d
    ensures SpecImport(a, RecsOf(order, d), at) == a.(dict := a.dict + StoredListed(a, order, d, at))
    decreases |order|
  {
    hide Stored, StoredListed;
    if order == [] {
      NoneListed(a, d, at);
    } else {
      FirstOfListed(a, order, d, at);
      var next := SpecSet(a, order[0], d[order[0]], at(order[0]));
      ImportAddsListed(next, order[1..], d, at);
      SameListed(next, a, order[1..], d, at);
      assert RecsOf(order, d)[1..] == RecsOf(order[1..], d);
    }
  }

  lemma {:induction false} NoneListed(a: Abs, d: Dict, at: Clock)
    ensures a.dict + StoredListed(a, [], d, at) == a.dict
  {
  }

  lemma {:induction false} SameListed(a: Abs, b: Abs, order: seq<Key>, d: Dict, at: Clock)
    requires a.expire == b.expire && a.seconds == b.seconds
    requires forall k | k in order :: k in d
    ensures StoredListed(a, order, d, at) == StoredListed(b, order, d, at)
  {
  }

  /** In whatever order the live values of the other store are listed, importing them is one merge. */
  lemma {:induction false} ImportIsMerge(a: Abs, order: seq<Key>, d: Dict, at: Clock)
    requires Lists(order, d)
    ensures SpecImport(a, RecsOf(order, d), at) == a.(dict := a.dict + StoredAll(a, d, at))
  {
    hide Stored;
    ImportAddsListed(a, order, d, at);
    assert StoredListed(a, order, d, at) == StoredAll(a, d, at);
  }

  /** While the imported values live, a reader sees the other store's map laid over this one's. */
  lemma {:induction false} ImportVisible(a: Abs, order: seq<Key>, d: Dict, at: Clock, t: uint32)
    requires Lists(order, d)
    requires a.expire ==> forall k | k in d :: ExpireAt(a.seconds, at(k)) == 0 || ExpireAt(a.seconds, at(k)) > t
    ensures VisibleMap(SpecImport(a, RecsOf(order, d), at).dict, a.expire, t) == VisibleMap(a.dict, a.expire, t) + d
  {
    hide Visible, Stamp, ExpireAt, SpecImport, Lists, RecsOf;
    ImportIsMerge(a, order, d, at);
    forall k | k in d
      ensures Visible(StoredAll(a, d, at)[k], a.expire, t) == Present(d[k])
    {
      if a.expire {
        StampedVisible(d[k], ExpireAt(a.seconds, at(k)), t);
      } else {
        PlainVisible(d[k], t);
      }
    }
  }

  lemma {:induction false} RemoveDid(st: Store, key: Key, iv: Block)
    requires Coherent(st) && |st.files.data| <= SIZE_LIMIT
    requires st.inst.crypt.None? || key !in st.inst.dict || !AppendsTombstone(st, key)
    ensures Did(RemoveKey(st, key, iv), st, Abs(st.inst.dict - {key}, st.inst.expire, st.inst.seconds))
  {
    hide Coherent, Recorded, Pair, LoadData, Poke, Patch, Weight, WriteBack;
    var i := st.inst;
    CoherentPackable(st);
    if key !in i.dict {
      assert i.dict - {key} == i.dict;
    } else if AppendsTombstone(st, key) {
      AppendKeepsCoherent(st, key, []);
    } else {
      WeightRemove(i.dict, key);
      RewriteDid(st, i.(dict := i.dict - {key}), true, 0, iv);
    }
  }

  lemma {:induction false} WeightSubset(d: Dict, gone: set<Key>)
    ensures Weight(d - gone) <= Weight(d)
    decreases |gone|
  {
    if gone == {} {
      assert d - gone == d;
    } else {
      var k :| k in gone;
      var rest := gone - {k};
      WeightSubset(d, rest);
      if k in d {
        assert k in d - rest;
        WeightRemove(d - rest, k);
        assert d - rest - {k} == d - gone;
      } else {
        assert d - rest == d - gone;
      }
    }
  }

  lemma {:induction false} SubtractKeys(d: Dict, keys: seq<Key>)
    ensures var gone, left := set k | k in keys, map k | k in d && k !in keys :: d[k];
            d - gone == left && (gone !! d.Keys ==> left == d)
  {
  }

  lemma {:induction false} RemoveManyDid(st: Store, keys: seq<Key>, iv: Block)
    requires Coherent(st) && |st.files.data| <= SIZE_LIMIT
    ensures Did(RemoveKeys(st, keys, iv), st,
                Spec(Abs(st.inst.dict, st.inst.expire, st.inst.seconds), Op.RemoveMany(keys)))
  {
    hide Coherent, Recorded, Weight, WriteBack;
    var i := st.inst;
    var gone := set k | k in keys;
    CoherentPackable(st);
    SubtractKeys(i.dict, keys);
    var left := map k | k in i.dict && k !in keys :: i.dict[k];
    if !(gone !! i.dict.Keys) {
      WeightSubset(i.dict, gone);
      RewriteDid(st, i.(dict := left), true, 0, iv);
    }
  }

  lemma {:induction false} TrimDid(st: Store, iv: Block)
    requires Coherent(st) && |st.files.data| <= SIZE_LIMIT
    ensures Did(TrimFile(st, iv), st, Abs(st.inst.dict, st.inst.expire, st.inst.seconds))
  {
    hide Coherent, Recorded, LoadData, Weight, WriteBack, Shrink;
    CoherentActual(st);
    CoherentPackable(st);
    if st.inst.actual == 0 {
      ClearKeepsCoherent(st);
    } else {
      WriteBackKeepsCoherent(st, true, 0, iv);
      WriteBackFits(st, true, 0, iv);
      RewriteDid(st, st.inst, true, 0, iv);
      WrittenMeta(st, true, 0, iv);
      assert st.(inst := st.inst) == st;
      ShrinkKeepsCoherent(WriteBack(st, true, 0, iv).st);
      ShrinkConfig(WriteBack(st, true, 0, iv).st);
    }
  }

  lemma {:induction false} ShrinkConfig(st: Store)
    requires Mapped(st) && 4 + st.inst.actual <= |st.files.data|
    ensures Shrink(st).st.cfg == st.cfg
  {
    hide TrimTarget, DecodeRegion, PageRoundUp, Resize;
  }

  /** After a rewrite the meta file parses to the in-memory struct. */
  lemma {:induction false} WrittenMeta(st: Store, needSync: bool, incoming: nat, iv: Block)
    requires Mapped(st)
    ensures var out := WriteBack(st, needSync, incoming, iv).st;
            && |out.files.meta| >= META_SIZE && ParseMeta(out.files.meta) == out.inst.info
            && out.inst.info.version == VERSION_FLAG
            && out.inst.info.actualSize == out.inst.actual == out.inst.info.lastActualSize
            && out.inst.info.crcDigest == out.inst.crc == out.inst.info.lastCRCDigest
            && out.inst.info.sequence == Lo32(st.inst.info.sequence + 1)
  {
    hide Packed, Parse, NewSize, Sealed, Rewritten, Resize, StoreMeta, ParseMeta, Lo32;
    StoreMetaParses(st.files.meta, WriteBack(st, needSync, incoming, iv).st.inst.info);
  }

  /** Stripped values are lighter than the stored ones, and fewer. */
  lemma {:induction false} WeightShrinks(d: Dict, e: Dict)
    requires Storable(d)
    requires forall k | k in e :: k in d && |e[k]| <= |d[k]|
    ensures Weight(e) <= Weight(d)
    decreases |d|
  {
    if d == map[] {
      assert e == map[];
    } else {
      assert d.Keys != {};
      var k :| k in d;
      WeightRemove(d, k);
      if k in e {
        WeightRemove(e, k);
        PairShrinks(k, e[k], d[k]);
      } else {
        assert e - {k} == e;
      }
      WeightShrinks(d - {k}, e - {k});
    }
  }

  lemma {:induction false} PairShrinks(k: Key, v: Blob, w: Blob)
    requires |v| <= |w| < U32
    ensures |Pair(k, v)| <= |Pair(k, w)|
  {
    VarintLengthMonotone(|v|, |w|);
    assert Lo32(|v|) == |v| && Lo32(|w|) == |w|;
  }

  lemma {:induction false} StrippedPackable(d: Dict, at: Clock)
    requires Packable(d) && NoEmptyVisible(d, at)
    ensures Packable(VisibleAt(d, true, at))
  {
    hide GetLe32, Weight;
    PackableIsStorable(d);
    WeightShrinks(d, VisibleAt(d, true, at));
  }

  lemma {:induction false} EnableDid(st: Store, seconds: uint32, iv: Block)
    requires Coherent(st) && |st.files.data| <= SIZE_LIMIT
    requires Packable(if st.inst.expire then st.inst.dict else StampAll(st.inst.dict))
    ensures Did(Enable(st, seconds, iv), st,
                Abs(if st.inst.expire then st.inst.dict else StampAll(st.inst.dict), true, seconds))
  {
    hide Coherent, WriteBack, StampAll, Packable;
    var i := st.inst;
    CoherentPackable(st);
    var flags := if ExpireEnabled(i.info) then i.info.flags else i.info.flags + 1;
    var d := if i.expire then i.dict else StampAll(i.dict);
    RewriteDid(st, i.(seconds := seconds, expire := true, compare := false,
                      info := i.info.(flags := flags), dict := d), true, 0, iv);
  }

  lemma {:induction false} DisableDid(st: Store, at: Clock, iv: Block)
    requires Coherent(st) && |st.files.data| <= SIZE_LIMIT
    requires st.inst.expire && NoEmptyVisible(st.inst.dict, at)
    ensures Did(Disable(st, at, iv), st, Abs(VisibleAt(st.inst.dict, true, at), false, 0))
  {
    hide Coherent, WriteBack, VisibleAt, NoEmptyVisible, Packable;
    var i := st.inst;
    CoherentPackable(st);
    StrippedPackable(i.dict, at);
    RewriteDid(st, i.(seconds := 0, expire := false, info := i.info.(flags := i.info.flags - 1),
                      dict := VisibleAt(i.dict, true, at)), true, 0, iv);
  }

  lemma {:induction false} DropCacheDid(st: Store)
    requires Inv(st)
    ensures Inv(ClearMemoryCache(st)) && AbsOf(ClearMemoryCache(st)) == AbsOf(st)
  {
    hide ParseMeta, LoadData;
    var checked, i := CheckLoadData(st), st.inst.(needLoad := false);
    LoadKeepsCrypt(st.cfg, st.files, i);
    LoadSucceeds(st.cfg, st.files, i);
    LoadSucceeds(st.cfg, st.files, checked.inst);
    hide Loadable;
    LoadForgets(st.cfg, st.files, i, ClearMemoryCache(st).inst.(needLoad := false));
  }

  lemma {:induction false} ActDid(st: Store, op: Op, ivs: IvSource)
    requires Coherent(st) && Legal(st, op, ivs) && !op.DropCache?
    ensures Did(Act(st, op, ivs), st, Spec(Abs(st.inst.dict, st.inst.expire, st.inst.seconds), op))
  {
    var i := st.inst;
    if op.Set? || op.Remove? || op.Import? {
      match op
      case Set(key, blob, now) => SetValueDid(st, key, blob, now, ivs(0));
      case Remove(key) => RemoveDid(st, key, ivs(0));
      case Import(items, at) =>
        CoherentPackable(st);
        ImportDid(st, items, at, ivs);
    } else {
      CoherentPackable(st);
      match op
      case RemoveMany(keys) => RemoveManyDid(st, keys, ivs(0));
      case Clear => ClearKeepsCoherent(st);
      case Trim => TrimDid(st, ivs(0));
      case ReKey(crypt) => RewriteDid(st, i.(crypt := crypt), true, 0, ivs(0));
      case EnableExpire(seconds) => EnableDid(st, seconds, ivs(0));
      case DisableExpire(at) => if i.expire { DisableDid(st, at, ivs(0)); }
    }
  }

  /** Every legal operation succeeds, keeps the invariant and does to the map what it specifies. */
  lemma {:induction false} ApplyRefines(st: Store, op: Op, ivs: IvSource)
    requires Inv(st) && Legal(CheckLoadData(st), op, ivs)
    ensures var out := Apply(st, op, ivs);
            out.ok && Inv(out.st) && AbsOf(out.st) == Spec(AbsOf(st), op) && OffsetsFit(out.st.inst)
  {
    if op.DropCache? {
      DropCacheDid(st);
    } else {
      var c := CheckLoadData(st);
      ActDid(c, op, ivs);
      CoherentIsInv(Act(c, op, ivs).st);
    }
  }

  // ---- runs ----

  datatype Step = Step(op: Op, ivs: IvSource)

  ghost predicate LegalRun(st: Store, run: seq<Step>)
    decreases |run|
  {
    run == [] ||
    (&& Mapped(st) && Mapped(CheckLoadData(st)) && Legal(CheckLoadData(st), run[0].op, run[0].ivs)
     && LegalRun(Apply(st, run[0].op, run[0].ivs).st, run[1..]))
  }

  ghost function RunAll(st: Store, run: seq<Step>): Store
    requires LegalRun(st, run)
    decreases |run|
  {
    if run == [] then st else RunAll(Apply(st, run[0].op, run[0].ivs).st, run[1..])
  }

  function SpecAll(a: Abs, run: seq<Step>): Abs
    decreases |run|
  {
    if run == [] then a else SpecAll(Spec(a, run[0].op), run[1..])
  }

  /**
   Store refinement: after any legal run, reloading the files gives exactly the map the
   run specifies, whichever physical path each operation took.
   */
  lemma {:induction false} RunRefines(st: Store, run: seq<Step>)
    requires Inv(st) && LegalRun(st, run)
    ensures Inv(RunAll(st, run)) && AbsOf(RunAll(st, run)) == SpecAll(AbsOf(st), run)
    decreases |run|
  {
    hide Inv, AbsOf, Spec, Apply, Legal;
    if run != [] {
      ApplyRefines(st, run[0].op, run[0].ivs);
      RunRefines(Apply(st, run[0].op, run[0].ivs).st, run[1..]);
    }
  }

  // ---- exactly when a set survives a reload ----

  /**
   Within the 32-bit limit, a set leaves a store that reloads to the updated map if and
   only if neither the key nor the stored blob is empty.
   */
  lemma {:induction false} SetAgreesIff(st: Store, key: Key, blob: Blob, iv: Block)
    requires Coherent(st) && |st.files.data| + |Pair(key, blob)| <= SIZE_LIMIT
    ensures Did(SetBlob(st, key, blob, iv), st, Abs(st.inst.dict[key := blob], st.inst.expire, st.inst.seconds))
            <==> key != [] && blob != []
  {
    hide Coherent, SetBlob, Pair;
    if key != [] && blob != [] {
      SetBlobDid(st, key, blob, iv);
    } else {
      CoherentMapped(st);
      var out, d := SetBlob(st, key, blob, iv), st.inst.dict[key := blob];
      assert key in d && d[key] == blob;
      if Did(out, st, Abs(st.inst.dict[key := blob], st.inst.expire, st.inst.seconds)) {
        CoherentClean(out.st);
        assert false;
      }
    }
  }

  lemma {:induction false} CoherentClean(st: Store)
    requires Coherent(st)
    ensures Clean(st.inst.dict)
  {
    hide LoadData;
    CoherentDict(st);
  }

  /** Disabling expiration keeps exactly the visible map if and only if no visible value is empty. */
  lemma {:induction false} DisableAgreesIff(st: Store, at: Clock, iv: Block)
    requires Coherent(st) && st.inst.expire && |st.files.data| <= SIZE_LIMIT
    ensures Did(Disable(st, at, iv), st, Abs(VisibleAt(st.inst.dict, true, at), false, 0))
            <==> NoEmptyVisible(st.inst.dict, at)
  {
    hide Coherent, Disable, Did, VisibleAt;
    if NoEmptyVisible(st.inst.dict, at) {
      DisableDid(st, at, iv);
    } else {
      DisableLosesEmpty(st, at, iv);
    }
  }

  /** A visible empty value is lost whatever the sizes. */
  lemma {:induction false} DisableLosesEmpty(st: Store, at: Clock, iv: Block)
    requires Coherent(st) && st.inst.expire && !NoEmptyVisible(st.inst.dict, at)
    ensures !Did(Disable(st, at, iv), st, Abs(VisibleAt(st.inst.dict, true, at), false, 0))
  {
    hide Coherent, Disable, Visible;
    CoherentMapped(st);
    var out, d := Disable(st, at, iv), VisibleAt(st.inst.dict, true, at);
    var k :| k in st.inst.dict && Visible(st.inst.dict[k], true, at(k)) == Present([]);
    assert k in d && d[k] == [];
    if Did(out, st, Abs(VisibleAt(st.inst.dict, true, at), false, 0)) {
      CoherentClean(out.st);
      assert false;
    }
  }

  // ---- sizes that make an import legal ----

  /** Importing this map is legal in whatever order its keys come. */
  ghost predicate ImportAllowed(st: Store, live: Dict, at: Clock, ivs: IvSource) {
    Mapped(st) && forall order | Lists(order, live) :: Legal(st, Import(RecsOf(order, live), at), ivs)
  }

  lemma {:induction false} WeightCounts(d: Dict)
    ensures |d| <= Weight(d)
    decreases |d|
  {
    if d != map[] {
      assert d.Keys != {};
      var k :| k in d;
      WeightRemove(d, k);
      WeightCounts(d - {k});
      assert d.Keys == (d - {k}).Keys + {k};
      assert |d.Keys| == |(d - {k}).Keys| + 1;
    }
  }

  /** How far one set may grow the file. */
  lemma {:induction false} SetGrows(st: Store, key: Key, blob: Blob, iv: Block)
    requires Coherent(st) && LegalSet(st, key, blob)
    ensures Mapped(st)
    ensures var out := SetBlob(st, key, blob, iv).st;
            || |out.files.data| == |st.files.data|
            || |out.files.data| <= 18 * (8 + Weight(st.inst.dict) + 2 * |Pair(key, blob)|) + st.cfg.page
  {
    hide Coherent, Recorded, Pair, LoadData, Weight, Packed, WriteBack, GrownSize, Poke;
    var d := st.inst.dict[key := blob];
    CoherentPackable(st);
    WeightPut(st.inst.dict, key, blob);
    PackedLength(d);
    WeightCounts(d);
    WriteBackFits(WithDict(st, d), |st.inst.dict| > 0, |Pair(key, blob)|, iv);
    GrowthBounded(st.cfg.page, |st.files.data|, |Packed(d)|, |d|, |st.inst.dict| > 0, |Pair(key, blob)|);
  }

  lemma {:induction false} SetValueGrows(st: Store, key: Key, blob: Blob, now: uint32, iv: Block)
    requires Coherent(st) && LegalSet(st, key, Stored(st.inst.expire, st.inst.seconds, blob, now))
    ensures Mapped(st)
    ensures var out := SetValue(st, key, blob, now, iv).st;
            var pair := |Pair(key, Stored(st.inst.expire, st.inst.seconds, blob, now))|;
            && (|| |out.files.data| == |st.files.data|
                || |out.files.data| <= 18 * (8 + Weight(st.inst.dict) + 2 * pair) + st.cfg.page)
            && Weight(out.inst.dict) <= Weight(st.inst.dict) + pair
  {
    hide Coherent, Pair, SetBlob, Weight, Stored;
    CoherentMapped(st);
    SetValueDid(st, key, blob, now, iv);
    SetGrows(st, key, Stored(st.inst.expire, st.inst.seconds, blob, now), iv);
    WeightPutStored(st.inst.dict, key, Stored(st.inst.expire, st.inst.seconds, blob, now));
  }

  lemma {:induction false} WeightPutStored(d: Dict, key: Key, stored: Blob)
    requires stored != []
    ensures Weight(d[key := stored]) <= Weight(d) + |Pair(key, stored)|
  {
    hide Weight, Pair;
    WeightPut(d, key, stored);
  }

  /** Non-empty keys and values, in a listing. */
  predicate NonEmpty(d: Dict) {
    forall k | k in d :: k != [] && d[k] != []
  }

  /**
   Room for the imported records on top of a file that has grown as far as it may: cap is
   that size, and what the remaining records can still make of it stays below.
   */
  lemma {:induction false} ImportFits(st: Store, order: seq<Key>, live: Dict, at: Clock, ivs: IvSource, cap: nat)
    requires Coherent(st) && OffsetsFit(st.inst) && NonEmpty(live) && DistinctKeys(order)
    requires forall k | k in order :: k in live
    requires var a := Abs(st.inst.dict, st.inst.expire, st.inst.seconds);
             var records := |Records(RecsOf(order, StoredAll(a, live, at)))|;
             && |st.files.data| <= cap && cap + records <= SIZE_LIMIT
             && 18 * (8 + Weight(st.inst.dict) + 2 * records) + st.cfg.page <= cap
    ensures Mapped(st) && LegalImport(st, RecsOf(order, live), at, ivs)
    decreases |order|
  {
    hide Coherent, Pair, SetValue, Weight, Stored, Records;
    CoherentMapped(st);
    if order != [] {
      var k, rest, i := order[0], order[1..], st.inst;
      var a := Abs(i.dict, i.expire, i.seconds);
      var stored := Stored(i.expire, i.seconds, live[k], at(k));
      StoredNonEmpty(i.expire, i.seconds, live[k], at(k));
      FirstRecord(order, StoredAll(a, live, at));
      var n := |order|;
      SetValueGrows(st, k, live[k], at(k), ivs(n));
      SetValueDid(st, k, live[k], at(k), ivs(n));
      var next := SetValue(st, k, live[k], at(k), ivs(n)).st;
      ImportFits(next, rest, live, at, ivs, cap);
      assert RecsOf(order, live)[1..] == RecsOf(rest, live);
    }
  }

  lemma {:induction false} StoredNonEmpty(expire: bool, seconds: uint32, blob: Blob, now: uint32)
    requires blob != []
    ensures Stored(expire, seconds, blob, now) != []
  {
  }

  lemma {:induction false} FirstRecord(order: seq<Key>, d: Dict)
    requires order != [] && forall k | k in order :: k in d
    ensures forall k | k in order[1..] :: k in d
    ensures |Records(RecsOf(order, d))| == |Pair(order[0], d[order[0]])| + |Records(RecsOf(order[1..], d))|
  {
    hide Pair;
    assert RecsOf(order, d)[1..] == RecsOf(order[1..], d);
  }

  /**
   A condition on sizes alone: an import is legal in every order when thirty-eight times
   the file and the records to come fit the size limit.
   */
  lemma {:induction false} ImportLegalBySize(st: Store, live: Dict, at: Clock, ivs: IvSource)
    requires Coherent(st) && NonEmpty(live)
    requires var a := Abs(st.inst.dict, st.inst.expire, st.inst.seconds);
             38 * (|st.files.data| + Weight(StoredAll(a, live, at))) <= SIZE_LIMIT
    ensures ImportAllowed(st, live, at, ivs)
  {
    hide Coherent, Weight, Stored, LegalImport, Records, StoredAll;
    CoherentPackable(st);
    CoherentWeight(st);
    var a := Abs(st.inst.dict, st.inst.expire, st.inst.seconds);
    var records := Weight(StoredAll(a, live, at));
    var cap := 36 * (|st.files.data| + records) + st.cfg.page;
    forall order | Lists(order, live)
      ensures Legal(st, Import(RecsOf(order, live), at), ivs)
    {
      ListsStored(a, order, live, at);
      EncodedLength(order, StoredAll(a, live, at));
      ImportFits(st, order, live, at, ivs, cap);
    }
  }

  lemma {:induction false} CoherentWeight(st: Store)
    requires Coherent(st)
    ensures 5 + Weight(st.inst.dict) <= |st.files.data|
  {
    hide LoadData, Weight;
    CoherentDict(st);
  }

  lemma {:induction false} ListsStored(a: Abs, order: seq<Key>, live: Dict, at: Clock)
    requires Lists(order, live)
    ensures Lists(order, StoredAll(a, live, at))
  {
    hide Stored;
  }

  // ---- typed values never come to that ----

  /** No stored value is empty, and under expiration none is a bare timestamp. */
  predicate Typed(a: Abs) {
    forall k | k in a.dict :: |a.dict[k]| > if a.expire then 4 else 0
  }

  /** The values handed in are typed blobs, which have at least a byte. */
  predicate TypedOp(op: Op) {
    (op.Set? ==> op.blob != []) && (op.Import? ==> forall r | r in op.items :: r.val != [])
  }

  lemma {:induction false} TypedSet(a: Abs, key: Key, blob: Blob, now: uint32)
    requires Typed(a) && blob != []
    ensures Typed(SpecSet(a, key, blob, now))
  {
    hide ExpireAt, Le32;
  }

  lemma {:induction false} TypedImport(a: Abs, items: seq<Rec>, at: Clock)
    requires Typed(a) && forall r | r in items :: r.val != []
    ensures Typed(SpecImport(a, items, at))
    decreases |items|
  {
    hide Typed, SpecSet;
    if items != [] {
      TypedSet(a, items[0].key, items[0].val, at(items[0].key));
      TypedImport(SpecSet(a, items[0].key, items[0].val, at(items[0].key)), items[1..], at);
    }
  }

  lemma {:induction false} TypedStep(a: Abs, op: Op)
    requires Typed(a) && TypedOp(op)
    ensures Typed(Spec(a, op))
  {
    hide Le32, GetLe32;
    match op
    case Set(key, blob, now) => TypedSet(a, key, blob, now);
    case Import(items, at) => TypedImport(a, items, at);
    case _ =>
  }

  /** On a map built by typed operations, disabling expiration is always legal. */
  lemma {:induction false} TypedNeverEmpty(a: Abs, at: Clock)
    requires Typed(a) && a.expire
    ensures NoEmptyVisible(a.dict, at)
  {
    hide GetLe32;
  }

  /** Over every legal run of typed operations from a typed store, no visible value is ever empty. */
  lemma {:induction false} TypedRun(st: Store, run: seq<Step>, at: Clock)
    requires Inv(st) && LegalRun(st, run) && Typed(AbsOf(st)) && forall s | s in run :: TypedOp(s.op)
    ensures Mapped(RunAll(st, run)) && Typed(AbsOf(RunAll(st, run)))
    ensures AbsOf(RunAll(st, run)).expire ==> NoEmptyVisible(AbsOf(RunAll(st, run)).dict, at)
    decreases |run|
  {
    hide AbsOf, Spec, Apply, Legal, Typed, TypedOp, NoEmptyVisible, CheckLoadData, Coherent;
    if run == [] {
      if AbsOf(st).expire {
        TypedNeverEmpty(AbsOf(st), at);
      }
    } else {
      ApplyRefines(st, run[0].op, run[0].ivs);
      TypedStep(AbsOf(st), run[0].op);
      TypedRun(Apply(st, run[0].op, run[0].ivs).st, run[1..], at);
    }
  }

  // ---- what a get answers after an operation ----

  /**
   What a get at time t answers about a value set at time now: with expiration on and a
   duration, the value until the 32-bit sum of the two has passed, a sum of zero meaning never.
   */
  function Seen(expire: bool, seconds: uint32, blob: Blob, now: uint32, t: uint32): Lookup {
    var end := now + seconds;
    if !expire || seconds == 0 || t < end < U32 || end == U32 || (end > U32 && t < end - U32)
    then Present(blob)
    else Absent
  }

  lemma {:induction false} StoredSeen(expire: bool, seconds: uint32, blob: Blob, now: uint32, t: uint32)
    ensures Visible(Stored(expire, seconds, blob, now), expire, t) == Seen(expire, seconds, blob, now, t)
  {
    hide Visible, Stamp;
    if expire {
      StampedVisible(blob, ExpireAt(seconds, now), t);
    } else {
      PlainVisible(blob, t);
    }
  }

  /** A set is seen until its time is up, and no other key changes. */
  lemma {:induction false} SetSeen(a: Abs, key: Key, blob: Blob, now: uint32, k: Key, t: uint32)
    ensures Value(Spec(a, Set(key, blob, now)).dict, a.expire, k, t) ==
            if k == key then Seen(a.expire, a.seconds, blob, now, t) else Value(a.dict, a.expire, k, t)
  {
    hide Visible, Stored, Seen;
    StoredSeen(a.expire, a.seconds, blob, now, t);
  }

  /** The same of the store: without a 32-bit overflow, exactly for the duration. */
  lemma {:induction false} SetValueSeen(st: Store, key: Key, blob: Blob, now: uint32, iv: Block, k: Key, t: uint32)
    requires Coherent(st) && LegalSet(st, key, Stored(st.inst.expire, st.inst.seconds, blob, now))
    ensures Mapped(st)
    ensures var i, j := st.inst, SetValue(st, key, blob, now, iv).st.inst;
            && (k != key ==> Value(j.dict, j.expire, k, t) == Value(i.dict, i.expire, k, t))
            && (k == key && (!i.expire || i.seconds == 0) ==> Value(j.dict, j.expire, k, t) == Present(blob))
            && (k == key && i.expire && i.seconds > 0 && now + i.seconds < U32 ==>
                  Value(j.dict, j.expire, k, t) == if t < now + i.seconds then Present(blob) else Absent)
  {
    hide Coherent, SetValue, Value, LegalSet, Stored;
    CoherentMapped(st);
    SetValueDid(st, key, blob, now, iv);
    SetSeen(Abs(st.inst.dict, st.inst.expire, st.inst.seconds), key, blob, now, k, t);
  }

  /** Each imported value is seen until its own time is up. */
  lemma {:induction false} ImportSeen(a: Abs, order: seq<Key>, d: Dict, at: Clock, k: Key, t: uint32)
    requires Lists(order, d)
    ensures Value(Spec(a, Import(RecsOf(order, d), at)).dict, a.expire, k, t) ==
            if k in d then Seen(a.expire, a.seconds, d[k], at(k), t) else Value(a.dict, a.expire, k, t)
  {
    hide Visible, Stored, Seen, SpecImport, Lists;
    ImportIsMerge(a, order, d, at);
    if k in d {
      StoredSeen(a.expire, a.seconds, d[k], at(k), t);
    }
  }

  /** Enabling expiration, for the first time or again, changes no answer. */
  lemma {:induction false} EnableSeen(a: Abs, seconds: uint32, k: Key, t: uint32)
    ensures Value(Spec(a, EnableExpire(seconds)).dict, true, k, t) == Value(a.dict, a.expire, k, t)
  {
    hide Visible, Stamp;
    if !a.expire && k in a.dict {
      StampedVisible(a.dict[k], 0, t);
      PlainVisible(a.dict[k], t);
    }
  }

  /** Disabling fixes for good what each key answered when it was looked at. */
  lemma {:induction false} DisableSeen(a: Abs, at: Clock, k: Key, t: uint32)
    requires a.expire
    ensures Value(Spec(a, DisableExpire(at)).dict, false, k, t) == Value(a.dict, true, k, at(k))
  {
    hide Visible;
    if k in VisibleAt(a.dict, true, at) {
      PlainVisible(VisibleAt(a.dict, true, at)[k], t);
    }
  }
}
