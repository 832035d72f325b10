/**
 The MMKV object: mapped byte arrays, in-memory fields, and a dictionary of views into
 the mapping. Every method takes the abstract store to what the state machine says, so a
 view always reads as the value last set although the bytes around it are rewritten.
 */
module Instance {
  import opened Bytes
  import opened Crc32
  import opened LogRegion
  import opened KeyOrder
  import opened Replaying
  import opened Meta
  import opened Growth
  import opened Store
  import opened Expiry
  import opened Operations
  import opened Coherence
  import Recovery
  import Cfb
  import Wire

  /** A value held by the dictionary: a slice of the mapping, or bytes of its own. */
  datatype Ref = InMap(start: nat, len: nat) | OnHeap(bytes: Blob)

  predicate RefOk(m: seq<byte>, r: Ref) {
    r.InMap? ==> r.start + r.len <= |m|
  }

  predicate RefsOk(m: seq<byte>, refs: map<Key, Ref>) {
    forall k | k in refs :: RefOk(m, refs[k])
  }

  function Deref(m: seq<byte>, r: Ref): Blob
    requires RefOk(m, r)
  {
    match r
    case InMap(start, len) => m[start..start + len]
    case OnHeap(bytes) => bytes
  }

  /** The dictionary the views denote. */
  function Denotes(m: seq<byte>, refs: map<Key, Ref>): Dict
    requires RefsOk(m, refs)
  {
    map k | k in refs :: Deref(m, refs[k])
  }

  /** Every view lies in the first n bytes. */
  predicate Below(refs: map<Key, Ref>, n: nat) {
    forall k | k in refs :: refs[k].InMap? ==> refs[k].start + refs[k].len <= n
  }

  /** Views below n read the same bytes in any memory that agrees below n. */
  lemma {:induction false} ViewsStable(m: seq<byte>, m': seq<byte>, refs: map<Key, Ref>, n: nat)
    requires Below(refs, n) && n <= |m| && n <= |m'| && m[..n] == m'[..n]
    ensures RefsOk(m, refs) && RefsOk(m', refs) && Denotes(m', refs) == Denotes(m, refs)
  {
    forall k | k in refs && refs[k].InMap?
      ensures Deref(m', refs[k]) == Deref(m, refs[k])
    {
      var s, e := refs[k].start, refs[k].start + refs[k].len;
      assert m[s..e] == m[..n][s..e] && m'[s..e] == m'[..n][s..e];
    }
  }

  /** Views from a decode of the mapped region, or copies from a decode of a decrypted one. */
  function FromSlices(plain: seq<byte>, views: map<Key, Slice>, mapped: bool): map<Key, Ref>
    requires InBounds(plain, views)
  {
    map k | k in views ::
      if mapped then InMap(4 + views[k].start, views[k].len)
      else OnHeap(plain[views[k].start..views[k].start + views[k].len])
  }

  lemma {:induction false} FromSlicesDenotes(m: seq<byte>, plain: seq<byte>, views: map<Key, Slice>, mapped: bool)
    requires InBounds(plain, views)
    requires mapped ==> HasAt(m, 4, plain)
    ensures var refs := FromSlices(plain, views, mapped);
            && RefsOk(m, refs) && Below(refs, 4 + |plain|)
            && Denotes(m, refs) == Resolve(plain, views)
  {
    var refs := FromSlices(plain, views, mapped);
    forall k | k in views && mapped
      ensures Deref(m, refs[k]) == plain[views[k].start..views[k].start + views[k].len]
    {
      var s, e := views[k].start, views[k].start + views[k].len;
      SliceAt(m, 4, plain, s, e);
    }
  }

  method CopyInto(a: array<byte>, at: nat, s: seq<byte>)
    requires at + |s| <= a.Length
    modifies a
    ensures a[..] == Patch(old(a[..]), at, s)
  {
    for i := 0 to |s|
      invariant forall j | 0 <= j < i :: a[at + j] == s[j]
      invariant forall j | 0 <= j < a.Length && !(at <= j < at + i) :: a[j] == old(a[j])
    {
      a[at + i] := s[i];
    }
    ghost var p := Patch(old(a[..]), at, s);
    forall j | 0 <= j < a.Length
      ensures a[j] == p[j]
    {
      if at <= j < at + |s| {
        assert p[j] == s[j - at] == a[at + (j - at)];
      }
    }
    assert a[..] == p;
  }

  method NewArray(s: seq<byte>) returns (a: array<byte>)
    ensures fresh(a) && a[..] == s
  {
    a := new byte[|s|](i requires 0 <= i < |s| => s[i]);
    assert a[..] == s;
  }

  class MMKV {
    const cfg: Config
    var mem: array<byte>
    var metaMem: array<byte>
    var crypt: Option<Cfb.Cipher>
    var info: MetaInfo
    var dict: map<Key, Ref>
    var actualSize: uint32
    var crcDigest: uint32
    var needLoad: bool
    var needFullWriteback: bool
    var enableExpire: bool
    var expiredSeconds: uint32
    var compareBeforeSet: bool

    ghost predicate Valid()
      reads this, mem, metaMem
    {
      && mem != metaMem && mem.Length >= cfg.page && metaMem.Length >= META_SIZE
      && RefsOk(mem[..], dict)
    }

    /** The views lie in the region, so an append cannot touch them. */
    predicate Anchored()
      reads this
    {
      Below(dict, 4 + actualSize)
    }

    ghost function Fields(d: Dict): Inst
      reads this
    {
      Inst(crypt, info, d, actualSize, crcDigest, needLoad, needFullWriteback, enableExpire, expiredSeconds,
           compareBeforeSet)
    }

    ghost function State(): Store
      requires Valid()
      reads this, mem, metaMem
    {
      Store(cfg, Files(mem[..], metaMem[..]), Fields(Denotes(mem[..], dict)))
    }

    /** The object over two mapped files, before its first load. */
    constructor (cfg: Config, data: array<byte>, meta: array<byte>, crypt: Option<Cfb.Cipher>)
      requires data != meta && data.Length >= cfg.page && meta.Length >= META_SIZE
      ensures Valid() && Anchored() && mem == data && metaMem == meta
      ensures State() == Store(cfg, Files(data[..], meta[..]), Recovery.Blank(crypt))
    {
      this.cfg, mem, metaMem, this.crypt := cfg, data, meta, crypt;
      info, dict, actualSize, crcDigest := Recovery.ZERO_INFO, map[], 0, 0;
      needLoad, needFullWriteback, enableExpire, expiredSeconds, compareBeforeSet := false, false, false, 0, false;
      new;
      NothingDenoted(mem[..]);
    }

    /** appendRaw */
    method AppendPair(pair: seq<byte>)
      requires Valid() && Anchored() && 4 + actualSize + |pair| <= mem.Length <= SIZE_LIMIT
      modifies this`actualSize, this`crcDigest, this`info, mem, metaMem
      ensures Valid() && Anchored() && State() == AppendRaw(old(State()), pair)
      ensures actualSize == old(actualSize) + |pair|
    {
      hide Update, Le32, Patch, Denotes;
      var p := 4 + actualSize;
      ghost var m := mem[..];
      CopyInto(mem, p, pair);
      actualSize := Lo32(actualSize + |pair|);
      crcDigest := Update(crcDigest, pair);
      info := info.(actualSize := actualSize, crcDigest := crcDigest);
      CopyInto(metaMem, OFF_CRC, Le32(crcDigest));
      CopyInto(metaMem, OFF_ACTUAL_SIZE, Le32(actualSize));
      PatchKeepsBefore(m, p, pair);
      ViewsStable(m, mem[..], dict, p);
    }

    /** overrideRaw */
    method OverridePair(key: Key, blob: Blob)
      requires Valid() && dict.Keys <= {key} && 8 + |Pair(key, blob)| <= mem.Length <= SIZE_LIMIT
      modifies this`actualSize, this`crcDigest, this`info, this`dict, mem, metaMem
      ensures Valid() && Anchored() && State() == OverrideRaw(old(State()), key, blob)
    {
      hide Checksum, Le32, Patch, Pair, Denotes;
      ghost var m := mem[..];
      var pair := Pair(key, blob);
      CopyInto(mem, 4, HOLDER);
      CopyInto(mem, 8, pair);
      PatchTwice(m, 4, HOLDER, pair);
      actualSize := Lo32(|HOLDER| + |pair|);
      crcDigest := Checksum(HOLDER + pair);
      info := info.(actualSize := actualSize, crcDigest := crcDigest);
      CopyInto(metaMem, OFF_CRC, Le32(crcDigest));
      CopyInto(metaMem, OFF_ACTUAL_SIZE, Le32(actualSize));
      BlobInPair(m, key, blob);
      OneView(m, mem[..], dict, key, 8 + |pair| - |blob|, blob);
      dict := dict[key := InMap(8 + |pair| - |blob|, |blob|)];
      PatchLengths(m);
    }

    /** decodeRegion: the views move to the region, or to a decrypted copy of it. */
    method DecodeInto(actual: uint32, crc: uint32) returns (ok: bool)
      requires Valid() && 4 + actual <= mem.Length
      modifies this`dict, this`actualSize, this`crcDigest
      ensures Valid()
      ensures var load := DecodeRegion(old(State()).files, old(State()).inst, actual, crc);
              && State() == old(State()).(inst := load.inst) && ok == load.Loaded?
              && (ok ==> Anchored())
      ensures !ok ==> dict == old(dict) && actualSize == old(actualSize)
    {
      hide Parse, Cfb.Decrypt, Denotes, FromSlices, Resolve;
      var plain := Decoded(actual);
      var views;
      views, ok := ParseDict(plain);
      if ok {
        FromSlicesDenotes(mem[..], plain, views, crypt.None?);
        dict := FromSlices(plain, views, crypt.None?);
        actualSize, crcDigest := actual, crc;
      }
    }

    /** The plaintext of the first n bytes of the region. */
    method Decoded(n: nat) returns (plain: seq<byte>)
      requires Valid() && 4 + n <= mem.Length
      ensures plain == Plain(crypt, info.iv, mem[..][4..4 + n]) && |plain| == n
      ensures crypt.None? ==> HasAt(mem[..], 4, plain)
    {
      var region := mem[4..4 + n];
      assert mem[..][4..4 + n] == region;
      if crypt.Some? {
        var out := Cfb.DecryptRegion(crypt.value, region, info.iv);
        plain := out[..];
      } else {
        plain := region;
      }
    }

    /** salvage: whatever decodes is kept, and the next write must rewrite everything. */
    method SalvageRegion()
      requires Valid()
      modifies this`dict, this`actualSize, this`crcDigest, this`needFullWriteback
      ensures Valid() && Anchored()
      ensures State() == old(State()).(inst := Salvage(old(State()).files, old(State()).inst))
    {
      hide Parse, Cfb.Decrypt, Denotes, FromSlices, Resolve, Plain;
      var n := if 4 + info.actualSize <= mem.Length then info.actualSize else mem.Length - 4;
      var plain := Decoded(n);
      var views := ParseDictGreedy(plain);
      FromSlicesDenotes(mem[..], plain, views, crypt.None?);
      dict := FromSlices(plain, views, crypt.None?);
      actualSize, crcDigest, needFullWriteback := info.actualSize, info.crcDigest, true;
    }

    predicate CrcOk(actual: nat, want: uint32)
      reads this, mem
    {
      4 + actual <= mem.Length && Checksum(mem[4..4 + actual]) == want
    }

    /** The four outcomes of loadData once the meta is read. */
    method LoadRegion() returns (ok: bool)
      requires Valid()
      modifies this`info, this`dict, this`actualSize, this`crcDigest, this`needFullWriteback
      ensures Valid()
      ensures var load := ChooseRegion(cfg, old(State()).files, old(State()).inst);
              State() == old(State()).(inst := load.inst) && ok == load.Loaded?
      ensures ok || old(Anchored()) ==> Anchored()
    {
      hide Checksum, Denotes, DecodeRegion, Salvage, GetLe32;
      var actual := if info.version >= VERSION_ACTUAL_SIZE then info.actualSize else GetLe32(mem[..], 0);
      SameSlices(actual);
      SameSlices(info.lastActualSize);
      if CrcOk(actual, info.crcDigest) {
        ok := DecodeInto(actual, info.crcDigest);
      } else if CrcOk(info.lastActualSize, info.lastCRCDigest) {
        info := info.(actualSize := info.lastActualSize, crcDigest := info.lastCRCDigest);
        ok := DecodeInto(info.lastActualSize, info.lastCRCDigest);
      } else if cfg.recover {
        SalvageRegion();
        ok := true;
      } else {
        dict, actualSize, crcDigest := map[], 0, 0;
        NothingDenoted(mem[..]);
        ok := true;
      }
    }

    /** loadData */
    method Load() returns (ok: bool)
      requires Valid()
      modifies this`info, this`dict, this`actualSize, this`crcDigest, this`needFullWriteback, this`enableExpire
      ensures Valid()
      ensures var load := LoadData(cfg, old(State()).files, old(State()).inst);
              State() == old(State()).(inst := load.inst) && ok == load.Loaded?
      ensures ok || old(Anchored()) ==> Anchored()
    {
      hide ParseMeta, Denotes, ChooseRegion;
      info := ParseMeta(metaMem[..]);
      if info.version > VERSION_FLAG {
        return false;
      }
      enableExpire := info.version >= VERSION_FLAG && ExpireEnabled(info);
      ok := LoadRegion();
    }

    lemma {:induction false} SameSlices(n: nat)
      ensures 4 + n <= mem.Length ==> mem[4..4 + n] == mem[..][4..4 + n]
    {
    }

    /** checkLoadData; a failed reload keeps serving the dictionary it had. */
    method CheckLoad()
      requires Valid() && Anchored()
      modifies this
      ensures Valid() && Anchored() && mem == old(mem) && metaMem == old(metaMem)
      ensures State() == CheckLoadData(old(State()))
    {
      hide ParseMeta, LoadData, Denotes;
      if needLoad {
        needLoad := false;
        var ok := Load();
        return;
      }
      if !cfg.multiProcess {
        return;
      }
      var live := ParseMeta(metaMem[..]);
      if live.sequence != info.sequence || live.crcDigest != crcDigest || live.actualSize != actualSize {
        var ok := Load();
      }
    }

    /** The plaintext region of the current dictionary. */
    method Pack() returns (region: seq<byte>)
      requires Valid()
      ensures region == Packed(Denotes(mem[..], dict))
    {
      hide Deref, EncodeRegion;
      var keys := CollectKeys(dict);
      var blobs := Denotes(mem[..], dict);
      assert blobs.Keys == dict.Keys;
      region := PackRegion(keys, blobs);
    }

    method Seal(region: seq<byte>, iv: Block) returns (payload: seq<byte>)
      ensures payload == Sealed(crypt, iv, region)
    {
      if crypt.Some? {
        var out := Cfb.EncryptRegion(crypt.value, region, iv);
        payload := out[..];
      } else {
        payload := region;
      }
    }

    /** truncate: a new mapping of the resized file. */
    method Truncate(size: nat)
      requires mem.Length >= cfg.page && size >= cfg.page
      modifies this`mem
      ensures mem[..] == Resize(old(mem[..]), size)
      ensures mem == old(mem) || fresh(mem)
    {
      if size == mem.Length {
        assert mem[..size] == mem[..];
        return;
      }
      mem := NewArray(Resize(mem[..], size));
    }

    /**
     fullWritebackGrow. When the new region does not decode the error is reported after
     the files were rewritten, and the old views stay in place over the new bytes.
     */
    method FullWriteback(needSync: bool, incoming: nat, iv: Block) returns (ok: bool)
      requires Valid()
      modifies this, mem, metaMem
      ensures Valid() && metaMem == old(metaMem) && (mem == old(mem) || fresh(mem))
      ensures var out := WriteBack(old(State()), needSync, incoming, iv);
              && ok == out.ok && State().files == out.st.files
              && (ok ==> State() == out.st)
              && (ok && |Packed(old(State()).inst.dict)| < U32 ==> Anchored())
    {
      hide Packed, Parse, Checksum, Sealed, Denotes, NewSize, Lo32, Rewritten, Resize, StoreMeta, WriteBack;
      hide HasAt, Below, RefsOk, Confirmed;
      ghost var st := State();
      var region := Rewrite(needSync, incoming, iv);
      WriteBackIs(st, needSync, incoming, iv, mem[..], metaMem[..], info);
      SmallSize(|region|);
      ok := Adopt(region);
    }

    /** Everything but the decode: pack, seal, grow, write, confirm. */
    method Rewrite(needSync: bool, incoming: nat, iv: Block) returns (region: seq<byte>)
      requires Valid()
      modifies this`mem, this`info, this`actualSize, this`crcDigest, mem, metaMem
      ensures Valid() && metaMem == old(metaMem) && (mem == old(mem) || fresh(mem))
      ensures var st := old(State());
              var payload := Sealed(crypt, iv, region);
              && region == Packed(st.inst.dict) && 4 + |region| <= NewSize(st, needSync, incoming)
              && mem[..] == Rewritten(Resize(st.files.data, NewSize(st, needSync, incoming)), payload)
              && actualSize == Lo32(|payload|) && crcDigest == Checksum(payload)
              && info == Confirmed(if crypt.Some? then st.inst.info.(iv := iv) else st.inst.info, actualSize, crcDigest)
              && info.actualSize == actualSize && info.crcDigest == crcDigest
              && metaMem[..] == StoreMeta(st.files.meta, info)
      ensures crypt.None? ==> HasAt(mem[..], 4, region)
    {
      hide Packed, Checksum, Sealed, Denotes, GrownSize, Lo32, Rewritten, Resize, StoreMeta, HasAt, RefsOk;
      hide Confirmed;
      ghost var st := State();
      region := Pack();
      SameCount(mem[..], dict);
      var payload := Seal(region, iv);
      PlainPayload(crypt, iv, region);
      if crypt.Some? {
        info := info.(iv := iv);
      }
      PayloadFits(cfg.page, mem.Length, |region|, |dict|, needSync, incoming);
      var size := GrowTo(cfg.page, mem.Length, |payload|, |dict|, needSync, incoming);
      Truncate(size);
      Confirm(payload);
      RefsStillOk(st.files.data, mem[..], dict);
    }

    /** The payload and the confirmed meta reach the files. */
    method Confirm(payload: seq<byte>)
      requires mem != metaMem && 4 + |payload| <= mem.Length && metaMem.Length >= META_SIZE
      modifies this`actualSize, this`crcDigest, this`info, mem, metaMem
      ensures mem[..] == Rewritten(old(mem[..]), payload) && HasAt(mem[..], 4, payload)
      ensures actualSize == Lo32(|payload|) && crcDigest == Checksum(payload)
      ensures info == Confirmed(old(info), actualSize, crcDigest)
      ensures info.actualSize == actualSize && info.crcDigest == crcDigest
      ensures metaMem[..] == StoreMeta(old(metaMem[..]), info)
    {
      hide Checksum, Lo32, Rewritten, StoreMeta, HasAt;
      WritePayload(payload);
      actualSize, crcDigest := Lo32(|payload|), Checksum(payload);
      info := Confirmed(info, actualSize, crcDigest);
      WriteMeta();
    }

    /** The views move to the region just written; an undecodable region leaves them. */
    method Adopt(region: seq<byte>) returns (ok: bool)
      requires Valid() && (crypt.None? ==> HasAt(mem[..], 4, region))
      modifies this`dict, this`needFullWriteback
      ensures Valid() && ok == Parse(region).Done?
      ensures ok ==> !needFullWriteback && Denotes(mem[..], dict) == Parse(region).dict && Below(dict, 4 + |region|)
      ensures !ok ==> dict == old(dict) && needFullWriteback == old(needFullWriteback)
    {
      hide Parse, Denotes, FromSlices, Resolve;
      var views;
      views, ok := ParseDict(region);
      if ok {
        FromSlicesDenotes(mem[..], region, views, crypt.None?);
        dict := FromSlices(region, views, crypt.None?);
        needFullWriteback := false;
      }
    }

    /** setBlob: override, append, or rewrite. */
    method SetStored(key: Key, blob: Blob, iv: Block) returns (ok: bool)
      requires Valid() && Anchored() && mem.Length + |Pair(key, blob)| <= SIZE_LIMIT
      modifies this, mem, metaMem
      ensures Valid() && metaMem == old(metaMem) && (mem == old(mem) || fresh(mem))
      ensures var out := SetBlob(old(State()), key, blob, iv);
              && ok == out.ok && State().files == out.st.files && (ok ==> State() == out.st)
              && (ok && |Packed(old(State()).inst.dict[key := blob])| < U32 ==> Anchored())
    {
      hide Pair, Denotes, AppendRaw, OverrideRaw, WriteBack, Packed, Below;
      ghost var st := State();
      SameCount(mem[..], dict);
      SameKeys(mem[..], dict);
      var wasEmpty := |dict| == 0;
      var pair := |Pair(key, blob)|;
      var fastOk := crypt.None? && !needFullWriteback && info.version >= VERSION_FLAG;
      if fastOk && !cfg.multiProcess && 8 + pair <= mem.Length &&
         ((key in dict && |dict| == 1) || (|dict| == 0 && actualSize > 0)) {
        OnlyKey(dict, key);
        OverridePair(key, blob);
        return true;
      }
      if fastOk && 4 + actualSize + pair <= mem.Length && |dict| > 0 {
        ok := AppendView(key, blob);
        return;
      }
      PutHeap(mem[..], dict, key, blob);
      dict := dict[key := OnHeap(blob)];
      ok := FullWriteback(!wasEmpty, pair, iv);
    }

    /** The append path: the new view lies at the end of the pair just written. */
    method AppendView(key: Key, blob: Blob) returns (ok: bool)
      requires Valid() && Anchored() && 4 + actualSize + |Pair(key, blob)| <= mem.Length <= SIZE_LIMIT
      modifies this`actualSize, this`crcDigest, this`info, this`dict, mem, metaMem
      ensures Valid() && Anchored() && ok
      ensures State() == WithDict(AppendRaw(old(State()), Pair(key, blob)), old(State()).inst.dict[key := blob])
    {
      hide Pair, Denotes, Update, Poke, Lo32;
      ghost var m := mem[..];
      var pair := Pair(key, blob);
      var p := 4 + actualSize;
      AppendPair(pair);
      PatchKeepsBefore(m, p, pair);
      BlobEndsPair(mem[..], p, key, blob);
      PutMapped(mem[..], dict, key, p + |pair| - |blob|, blob);
      dict := dict[key := InMap(p + |pair| - |blob|, |blob|)];
      ok := true;
    }

    /** setValueLocked: skip an equal value, stamp under expiration, then write. */
    method SetLocked(key: Key, blob: Blob, now: uint32, iv: Block) returns (ok: bool)
      requires Valid() && Anchored()
      requires mem.Length + |Pair(key, Stored(enableExpire, expiredSeconds, blob, now))| <= SIZE_LIMIT
      modifies this, mem, metaMem
      ensures Valid() && metaMem == old(metaMem) && (mem == old(mem) || fresh(mem))
      ensures var st := old(State());
              var out := SetValue(st, key, blob, now, iv);
              && ok == out.ok && State().files == out.st.files && (ok ==> State() == out.st)
              && (ok && |Packed(st.inst.dict[key := Stored(st.inst.expire, st.inst.seconds, blob, now)])| < U32
                  ==> Anchored())
    {
      hide SetBlob, Packed, Pair, Stored, Below;
      if compareBeforeSet && !enableExpire && key in dict && Deref(mem[..], dict[key]) == blob {
        return true;
      }
      var stored := Stored(enableExpire, expiredSeconds, blob, now);
      ok := SetStored(key, stored, iv);
    }

    /** RemoveValueForKey behind checkLoadData. */
    method RemoveStored(key: Key, iv: Block) returns (ok: bool)
      requires Valid() && Anchored() && mem.Length <= SIZE_LIMIT
      modifies this, mem, metaMem
      ensures Valid() && metaMem == old(metaMem) && (mem == old(mem) || fresh(mem))
      ensures var out := RemoveKey(old(State()), key, iv);
              && ok == out.ok && State().files == out.st.files && (ok ==> State() == out.st)
              && (ok && |Packed(old(State()).inst.dict - {key})| < U32 ==> Anchored())
    {
      hide Pair, Denotes, AppendRaw, WriteBack, Packed;
      ghost var st := State();
      SameKeys(mem[..], dict);
      if key !in dict {
        return true;
      }
      var n := |Pair(key, [])|;
      DropView(mem[..], dict, key);
      dict := dict - {key};
      if 4 + actualSize + n <= mem.Length && info.version >= VERSION_FLAG && actualSize > 0 && !needFullWriteback {
        AppendPair(Pair(key, []));
        return true;
      }
      ok := FullWriteback(true, 0, iv);
    }

    /** RemoveValuesForKeys behind checkLoadData. */
    method RemoveStoredKeys(keys: seq<Key>, iv: Block) returns (ok: bool)
      requires Valid() && Anchored()
      modifies this, mem, metaMem
      ensures Valid() && metaMem == old(metaMem) && (mem == old(mem) || fresh(mem))
      ensures var out := RemoveKeys(old(State()), keys, iv);
              && ok == out.ok && State().files == out.st.files && (ok ==> State() == out.st)
              && (ok && |Packed(old(State()).inst.dict - KeySet(keys))| < U32 ==> Anchored())
    {
      hide Denotes, WriteBack, Packed;
      ghost var st := State();
      var removed := false;
      assert dict - KeySet(keys[..0]) == dict;
      for i := 0 to |keys|
        invariant Valid() && mem == old(mem) && metaMem == old(metaMem)
        invariant mem[..] == st.files.data && metaMem[..] == st.files.meta
        invariant dict == old(dict) - KeySet(keys[..i])
        invariant removed <==> !(KeySet(keys[..i]) !! old(dict).Keys)
        invariant Fields(map[]) == old(Fields(map[]))
      {
        var k := keys[i];
        KeySetSnoc(keys, i);
        if k in dict {
          DropView(mem[..], dict, k);
          dict := dict - {k};
          removed := true;
        }
      }
      assert keys[..|keys|] == keys;
      DropViews(mem[..], old(dict), KeySet(keys));
      SameKeys(mem[..], old(dict));
      if !removed {
        assert dict == old(dict);
        return true;
      }
      ok := FullWriteback(true, 0, iv);
    }

    /** clearAllLocked */
    method ClearLocked()
      requires Valid()
      modifies this, mem, metaMem
      ensures Valid() && Anchored() && metaMem == old(metaMem) && (mem == old(mem) || fresh(mem))
      ensures State() == ClearAll(old(State()))
    {
      hide StoreMeta, Zeros, Lo32, Resize, PageRoundUp, Rewritten, HasAt;
      PageRoundUpBounds(cfg.page, 0);
      Truncate(PageRoundUp(cfg.page, 0));
      WritePayload([]);
      dict, actualSize, crcDigest := map[], 0, 0;
      info := Confirmed(info, 0, 0);
      WriteMeta();
      needFullWriteback := false;
      NothingDenoted(mem[..]);
    }

    /** Trim behind checkLoadData: compact, then shrink and decode in the new mapping. */
    method TrimLocked(iv: Block) returns (ok: bool)
      requires Valid()
      modifies this, mem, metaMem
      ensures metaMem == old(metaMem) && (mem == old(mem) || fresh(mem))
      ensures Valid()
      ensures var out := TrimFile(old(State()), iv);
              && ok == out.ok && State().files == out.st.files && (ok ==> State() == out.st)
              && (ok && |Packed(old(State()).inst.dict)| < U32 ==> Anchored())
    {
      hide Denotes, WriteBack, Packed, ClearAll, Shrink;
      ghost var st := State();
      if actualSize == 0 {
        ClearLocked();
        return true;
      }
      ok := FullWriteback(true, 0, iv);
      WriteBackFits(st, true, 0, iv);
      if ok {
        ok := ShrinkMapping();
      }
    }

    /** The halving loop, the truncation, and new views; the old ones die with the old mapping. */
    method ShrinkMapping() returns (ok: bool)
      requires Valid() && 4 + actualSize <= mem.Length
      modifies this`mem, this`dict, this`actualSize, this`crcDigest
      ensures Valid() && (mem == old(mem) || fresh(mem))
      ensures var out := Shrink(old(State()));
              ok == out.ok && State().files == out.st.files && (ok ==> State() == out.st)
      ensures ok && old(Anchored()) ==> Anchored()
    {
      hide Denotes, DecodeRegion, PageRoundUp, TrimTarget, Resize;
      ghost var st := State();
      var target := ShrinkTarget(cfg.page, mem.Length, actualSize);
      TrimBounds(cfg.page, mem.Length, actualSize);
      TrimmedIs(cfg.page, mem.Length, actualSize);
      if target >= mem.Length {
        return true;
      }
      dict := map[];
      Truncate(PageRoundUp(cfg.page, target));
      NothingDenoted(mem[..]);
      ok := DecodeInto(actualSize, crcDigest);
      DecodeForgets(Files(mem[..], metaMem[..]), st.inst, st.inst.actual, st.inst.crc);
    }

    /** ReKey behind checkLoadData; the old key comes back when the rewrite fails. */
    method ReKeyLocked(key: Option<Cfb.Cipher>, iv: Block) returns (ok: bool)
      requires Valid()
      modifies this, mem, metaMem
      ensures Valid() && metaMem == old(metaMem) && (mem == old(mem) || fresh(mem))
      ensures var out := ChangeKey(old(State()), key, iv);
              && ok == out.ok && State().files == out.st.files && (ok ==> State() == out.st)
              && (ok && |Packed(old(State()).inst.dict)| < U32 ==> Anchored())
      ensures !ok ==> crypt == old(crypt)
    {
      hide Denotes, WriteBack, Packed;
      var prev := crypt;
      crypt := key;
      ok := FullWriteback(true, 0, iv);
      if !ok {
        crypt := prev;
      }
    }

    /** EnableAutoKeyExpire behind checkLoadData: every value gains a zero timestamp the first time. */
    method EnableLocked(seconds: uint32, iv: Block) returns (ok: bool)
      requires Valid()
      modifies this, mem, metaMem
      ensures Valid() && metaMem == old(metaMem) && (mem == old(mem) || fresh(mem))
      ensures var st := old(State());
              var out := Enable(st, seconds, iv);
              && ok == out.ok && State().files == out.st.files && (ok ==> State() == out.st)
              && (ok && |Packed(if st.inst.expire then st.inst.dict else StampAll(st.inst.dict))| < U32 ==> Anchored())
    {
      hide Denotes, WriteBack, Packed, StampAll, Below, RefsOk;
      var wasEnabled := enableExpire;
      TurnOn(seconds);
      if !wasEnabled {
        StampViews();
      }
      ok := FullWriteback(true, 0, iv);
    }

    method TurnOn(seconds: uint32)
      modifies this`expiredSeconds, this`enableExpire, this`compareBeforeSet, this`info
      ensures expiredSeconds == seconds && enableExpire && !compareBeforeSet
      ensures info == old(info).(flags := if ExpireEnabled(old(info)) then old(info).flags else old(info).flags + 1)
    {
      expiredSeconds, enableExpire, compareBeforeSet := seconds, true, false;
      if !ExpireEnabled(info) {
        info := info.(flags := info.flags + 1);
      }
    }

    method StampViews()
      requires Valid()
      modifies this`dict
      ensures Valid() && Denotes(mem[..], dict) == StampAll(Denotes(mem[..], old(dict)))
    {
      hide Deref;
      var left := dict.Keys;
      while left != {}
        invariant Valid() && left <= dict.Keys == old(dict).Keys
        invariant forall k | k in left :: dict[k] == old(dict)[k]
        invariant forall k | k in dict && k !in left :: dict[k] == OnHeap(Stamp(Deref(mem[..], old(dict)[k]), 0))
        decreases |left|
      {
        var k :| k in left;
        dict := dict[k := OnHeap(Deref(mem[..], dict[k]) + [0, 0, 0, 0])];
        left := left - {k};
      }
      StampedDenotes(mem[..], old(dict), dict);
    }

    /** DisableAutoKeyExpire behind checkLoadData: expired keys go, the rest lose their timestamp. */
    method DisableLocked(at: Clock, iv: Block) returns (ok: bool)
      requires Valid()
      modifies this, mem, metaMem
      ensures Valid() && metaMem == old(metaMem) && (mem == old(mem) || fresh(mem))
      ensures var st := old(State());
              var out := Disable(st, at, iv);
              && ok == out.ok && State().files == out.st.files && (ok ==> State() == out.st)
              && (ok && st.inst.expire && |Packed(VisibleAt(st.inst.dict, true, at))| < U32 ==> Anchored())
              && (!st.inst.expire && old(Anchored()) ==> Anchored())
    {
      hide Denotes, WriteBack, Packed, VisibleAt;
      if !enableExpire {
        return true;
      }
      StripViews(at);
      enableExpire, expiredSeconds := false, 0;
      if ExpireEnabled(info) {
        info := info.(flags := info.flags - 1);
      }
      ok := FullWriteback(true, 0, iv);
    }

    method StripViews(at: Clock)
      requires Valid() && enableExpire
      modifies this`dict
      ensures Valid() && Denotes(mem[..], dict) == VisibleAt(Denotes(mem[..], old(dict)), true, at)
    {
      hide Deref, Visible, Value;
      var stripped: map<Key, Ref> := map[];
      ghost var d := Denotes(mem[..], dict);
      var left := dict.Keys;
      while left != {}
        invariant dict == old(dict) && left <= dict.Keys && stripped.Keys <= dict.Keys - left
        invariant forall k | k in d && k !in left :: k in stripped <==> Visible(d[k], true, at(k)).Present?
        invariant forall k | k in stripped ::
                    var v := Visible(d[k], true, at(k)); v.Present? && stripped[k] == OnHeap(v.blob)
        decreases |left|
      {
        var k :| k in left;
        var v := Get(k, at(k));
        ValueIsVisible(d, k, at(k));
        if v.Present? {
          stripped := stripped[k := OnHeap(v.blob)];
        }
        left := left - {k};
      }
      StrippedDenotes(mem[..], d, stripped, at);
      dict := stripped;
    }

    /** ImportFrom's writing half: the snapshotted values, one set each. */
    method ImportLocked(items: seq<Rec>, at: Clock, ivs: IvSource) returns (ok: bool)
      requires Valid() && Anchored() && Coherent(State()) && LegalImport(State(), items, at, ivs)
      modifies this, mem, metaMem
      ensures ok && Valid() && Anchored() && metaMem == old(metaMem) && (mem == old(mem) || fresh(mem))
      ensures State() == ImportItems(old(State()), items, at, ivs).st
    {
      hide Coherent, SetValue, Packed, Pair, Stored, LegalSet, Did, Spec, Below;
      ghost var st := State();
      assert items[0..] == items;
      for i := 0 to |items|
        invariant Valid() && Anchored() && metaMem == old(metaMem) && (mem == old(mem) || fresh(mem))
        invariant Coherent(State()) && LegalImport(State(), items[i..], at, ivs)
        invariant ImportItems(st, items, at, ivs) == ImportItems(State(), items[i..], at, ivs)
      {
        ghost var c, r := State(), items[i];
        assert items[i..][0] == r && items[i..][1..] == items[i + 1..] && |items[i..]| == |items| - i;
        SetValueDid(c, r.key, r.val, at(r.key), ivs(|items| - i));
        SetOutcome(c, r.key, r.val, at(r.key), ivs(|items| - i));
        ok := SetLocked(items[i].key, items[i].val, at(items[i].key), ivs(|items| - i));
      }
      ok := true;
    }

    /** ImportFrom's first half: the live values, stripped and copied, in whatever order the map yields them. */
    method Snapshot(at: Clock) returns (keys: seq<Key>, items: seq<Rec>)
      requires Valid()
      ensures var live := VisibleAt(State().inst.dict, enableExpire, at);
              Lists(keys, live) && items == RecsOf(keys, live)
    {
      hide Visible, Value;
      ghost var d := Denotes(mem[..], dict);
      ghost var live := VisibleAt(d, enableExpire, at);
      keys, items := [], [];
      var left := dict.Keys;
      while left != {}
        invariant left <= dict.Keys && DistinctKeys(keys)
        invariant forall k | k in keys :: k in live && k !in left
        invariant forall k | k in live :: k in left || k in keys
        invariant items == RecsOf(keys, live)
        decreases |left|
      {
        var k :| k in left;
        var v := Get(k, at(k));
        VisibleIn(d, enableExpire, k, at);
        if v.Present? {
          RecsOfSnoc(keys, live, k);
          keys, items := keys + [k], items + [Rec(k, v.blob)];
        }
        left := left - {k};
      }
    }

    /**
     ImportFrom: every live value of the other store, stamped by this store's settings,
     laid over this store's map; the other store is only brought up to date. The clock is
     read for each key when it is looked at, and again when its copy is stamped.
     */
    method ImportFrom(src: MMKV, seen: Clock, at: Clock, ivs: IvSource) returns (n: nat, ok: bool)
      requires Valid() && Anchored() && Inv(State()) && src.Valid() && src.Anchored() && Inv(src.State())
      requires src != this ==> {src.mem, src.metaMem} !! {mem, metaMem}
      requires src != this ==> ImportAllowed(CheckLoadData(State()), Live(src.State(), seen), at, ivs)
      modifies this, mem, metaMem, src
      ensures ok && Valid() && Anchored() && Inv(State()) && src.Valid() && src.Anchored() && Inv(src.State())
      ensures src == this ==> n == 0 && State() == old(State())
      ensures src != this ==>
                var a, live := old(AbsOf(State())), old(Live(src.State(), seen));
                && n == |live| && AbsOf(State()) == a.(dict := a.dict + StoredAll(a, live, at))
                && AbsOf(src.State()) == old(AbsOf(src.State())) && src.State().files == old(src.State().files)
    {
      hide Inv, AbsOf, Below, Denotes, RefsOk, StoredAll, Live, ImportAllowed, CheckLoadData;
      if src == this {
        return 0, true;
      }
      n, ok := ImportOther(src, seen, at, ivs);
    }

    method ImportOther(src: MMKV, seen: Clock, at: Clock, ivs: IvSource) returns (n: nat, ok: bool)
      requires src != this && {src.mem, src.metaMem} !! {mem, metaMem}
      requires Valid() && Anchored() && Inv(State()) && src.Valid() && src.Anchored() && Inv(src.State())
      requires ImportAllowed(CheckLoadData(State()), Live(src.State(), seen), at, ivs)
      modifies this, mem, metaMem, src
      ensures ok && Valid() && Anchored() && Inv(State()) && src.Valid() && src.Anchored() && Inv(src.State())
      ensures var a, live := old(AbsOf(State())), old(Live(src.State(), seen));
              && n == |live| && AbsOf(State()) == a.(dict := a.dict + StoredAll(a, live, at))
              && AbsOf(src.State()) == old(AbsOf(src.State())) && src.State().files == old(src.State().files)
    {
      hide Inv, AbsOf, Legal, Below, Denotes, RefsOk, Lists, StoredAll, Live, ImportAllowed, CheckLoadData;
      hide Spec, SpecImport, RecsOf;
      ghost var st, live := State(), Live(src.State(), seen);
      var items;
      ghost var order;
      items, order := src.LiveItems(seen);
      Allowed(CheckLoadData(st), live, at, ivs, order);
      ok := Perform(Import(items, at), ivs);
      ImportIsMerge(AbsOf(st), order, live, at);
      ImportSpecIs(AbsOf(st), items, at);
      ListedCount(order, live);
      n := |items|;
    }

    /** The other store's part of an import: bring it up to date, then copy what is live. */
    method LiveItems(seen: Clock) returns (items: seq<Rec>, ghost order: seq<Key>)
      requires Valid() && Anchored() && Inv(State())
      modifies this
      ensures Valid() && Anchored() && Inv(State()) && mem == old(mem) && metaMem == old(metaMem)
      ensures AbsOf(State()) == old(AbsOf(State())) && State().files == old(State().files)
      ensures var live := old(Live(State(), seen)); Lists(order, live) && items == RecsOf(order, live)
    {
      hide Inv, AbsOf, Below, Denotes, Lists, VisibleAt, CheckLoadData;
      ghost var st := State();
      CheckedAgain(st);
      CheckLoad();
      var keys;
      keys, items := Snapshot(seen);
      order := keys;
      LiveIs(st, seen);
    }

    /** ClearMemoryCache */
    method DropMemory()
      requires Valid()
      modifies this
      ensures Valid() && Anchored() && State() == ClearMemoryCache(old(State()))
    {
      dict, actualSize, crcDigest, needLoad := map[], 0, 0, true;
      NothingDenoted(mem[..]);
    }

    /** value: through the view, stripped of its timestamp and filtered by it. */
    method Get(key: Key, now: uint32) returns (r: Lookup)
      requires Valid()
      ensures r == Value(State().inst.dict, enableExpire, key, now)
    {
      if key !in dict {
        return Absent;
      }
      var v := Deref(mem[..], dict[key]);
      if enableExpire && |v| >= 4 {
        var t := GetLe32(v, |v| - 4);
        if t != 0 && t <= now {
          return Absent;
        }
        v := v[..|v| - 4];
      }
      return Present(v);
    }

    /** open: load, and rewrite at once what had to be salvaged. */
    method Open(iv: Block) returns (ok: bool)
      requires Valid() && State().inst == Recovery.Blank(crypt) && mem.Length <= SIZE_LIMIT
      modifies this, mem, metaMem
      ensures Valid() && metaMem == old(metaMem) && (mem == old(mem) || fresh(mem))
      ensures var f := old(State()).files;
              var out := Recovery.OpenStore(cfg, f, old(crypt), iv);
              && ok == out.ok && State().files == out.st.files && (ok ==> State() == out.st && Anchored())
              && (ok && FlagsSettled(ParseMeta(f.meta)) ==> Inv(State()))
    {
      hide LoadData, WriteBack, Packed, Denotes, Below, ParseMeta, Inv;
      ghost var st := State();
      ok := Load();
      if ok {
        OpenFacts(st, iv);
        if needFullWriteback {
          ok := FullWriteback(true, 0, iv);
        }
      }
    }

    /** Any public operation behind checkLoadData, on a store that satisfies the invariant. */
    method Perform(op: Op, ivs: IvSource) returns (ok: bool)
      requires Valid() && Anchored() && Inv(State())
      requires Legal(CheckLoadData(State()), op, ivs)
      modifies this, mem, metaMem
      ensures ok && Valid() && Anchored() && Inv(State())
      ensures AbsOf(State()) == Spec(old(AbsOf(State())), op)
    {
      hide Inv, AbsOf, Legal, Spec, Act, CheckLoadData, Did, Coherent, Packed, Below, Denotes;
      ghost var st := State();
      ApplyRefines(st, op, ivs);
      if op.DropCache? {
        DropMemory();
        DropIsApply(st, op, ivs);
        return true;
      }
      InvChecked(st);
      CheckLoad();
      ghost var c := State();
      ok := PerformChecked(op, ivs);
      ApplyIsAct(st, op, ivs);
    }

    method PerformChecked(op: Op, ivs: IvSource) returns (ok: bool)
      requires Valid() && Anchored() && Coherent(State()) && Legal(State(), op, ivs) && !op.DropCache?
      modifies this, mem, metaMem
      ensures ok && Valid() && Anchored() && metaMem == old(metaMem) && (mem == old(mem) || fresh(mem))
      ensures State() == Act(old(State()), op, ivs).st
    {
      hide Coherent, Packed, Pair, Stored, Did, Spec, Below, Denotes, SetValue, RemoveKey, RemoveKeys;
      hide TrimFile, ChangeKey, Enable, Disable, ImportItems, ClearAll, NoEmptyVisible, Packable, LegalImport;
      ghost var st := State();
      ActDid(st, op, ivs);
      DidOk(Act(st, op, ivs), st, Spec(Abs(st.inst.dict, st.inst.expire, st.inst.seconds), op));
      OpSmall(st, op, ivs);
      match op
      case Set(key, blob, now) =>
        LegalSize(st, key, Stored(enableExpire, expiredSeconds, blob, now));
        ok := SetLocked(key, blob, now, ivs(0));
      case Remove(key) => ok := RemoveStored(key, ivs(0));
      case RemoveMany(keys) => ok := RemoveStoredKeys(keys, ivs(0));
      case Clear =>
        ClearLocked();
        ok := true;
      case Trim => ok := TrimLocked(ivs(0));
      case ReKey(key) => ok := ReKeyLocked(key, ivs(0));
      case EnableExpire(seconds) => ok := EnableLocked(seconds, ivs(0));
      case DisableExpire(at) => ok := DisableLocked(at, ivs(0));
      case Import(items, at) => ok := ImportLocked(items, at, ivs);
    }

    method WritePayload(payload: seq<byte>)
      requires 4 + |payload| <= mem.Length
      modifies mem
      ensures mem[..] == Rewritten(old(mem[..]), payload) && HasAt(mem[..], 4, payload)
    {
      ghost var m := mem[..];
      CopyInto(mem, 0, Zeros(4));
      CopyInto(mem, 4, payload);
      RewrittenIsPatched(m, payload);
    }

    method WriteMeta()
      requires metaMem.Length >= META_SIZE
      modifies metaMem
      ensures metaMem[..] == StoreMeta(old(metaMem[..]), info)
    {
      hide Marshal;
      CopyInto(metaMem, 0, Marshal(info));
    }
  }

  /** A rewrite, from the bytes and the struct it left. */
  lemma {:induction false} WriteBackIs(
      st: Store, needSync: bool, incoming: nat, iv: Block, data: seq<byte>, meta: seq<byte>, info: MetaInfo)
    requires Mapped(st) && 4 + |Packed(st.inst.dict)| <= NewSize(st, needSync, incoming)
    requires var payload := Sealed(st.inst.crypt, iv, Packed(st.inst.dict));
             && data == Rewritten(Resize(st.files.data, NewSize(st, needSync, incoming)), payload)
             && info == Confirmed(if st.inst.crypt.Some? then st.inst.info.(iv := iv) else st.inst.info,
                                  Lo32(|payload|), Checksum(payload))
             && meta == StoreMeta(st.files.meta, info)
    ensures var i := st.inst.(info := info, actual := info.actualSize, crc := info.crcDigest);
            WriteBack(st, needSync, incoming, iv) ==
            match Parse(Packed(st.inst.dict))
            case Done(d) => Outcome(Store(st.cfg, Files(data, meta), i.(dict := d, needFull := false)), true)
            case Stuck(_) => Outcome(Store(st.cfg, Files(data, meta), i), false)
    ensures |data| == NewSize(st, needSync, incoming) && info.actualSize == Lo32(|Packed(st.inst.dict)|)
  {
    hide Packed, Parse, Checksum, GrownSize, Lo32, StoreMeta;
  }

  lemma {:induction false} RewrittenIsPatched(m: seq<byte>, payload: seq<byte>)
    requires 4 + |payload| <= |m|
    ensures Patch(Patch(m, 0, Zeros(4)), 4, payload) == Rewritten(m, payload)
    ensures HasAt(Rewritten(m, payload), 4, payload)
  {
  }

  lemma {:induction false} PlainPayload(crypt: Option<Cfb.Cipher>, iv: Block, region: seq<byte>)
    ensures crypt.None? ==> Sealed(crypt, iv, region) == region
  {
  }

  lemma {:induction false} LegalSize(st: Store, key: Key, stored: Blob)
    requires LegalSet(st, key, stored)
    ensures |st.files.data| + |Pair(key, stored)| <= SIZE_LIMIT
  {
    hide Pair;
  }

  lemma {:induction false} SetSmall(st: Store, key: Key, stored: Blob)
    requires Coherent(st) && LegalSet(st, key, stored)
    ensures |Packed(st.inst.dict[key := stored])| < U32
  {
    hide Coherent, LegalSet, Packed, Weight;
    SetPackable(st, key, stored);
    PackedLength(st.inst.dict[key := stored]);
  }

  lemma {:induction false} DidOk(out: Outcome, st: Store, a: Abs)
    requires Did(out, st, a)
    ensures out.ok
  {
    hide Coherent;
  }

  /** What each rewriting operation packs is within 32 bits. */
  lemma {:induction false} OpSmall(st: Store, op: Op, ivs: IvSource)
    requires Coherent(st) && Legal(st, op, ivs)
    ensures var d := st.inst.dict;
            match op
            case Set(key, blob, now) =>
              |Packed(d[key := Stored(st.inst.expire, st.inst.seconds, blob, now)])| < U32
            case Remove(key) => |Packed(d - {key})| < U32
            case RemoveMany(keys) => |Packed(d - KeySet(keys))| < U32
            case EnableExpire(_) => |Packed(if st.inst.expire then d else StampAll(d))| < U32
            case DisableExpire(at) => st.inst.expire ==> |Packed(VisibleAt(d, true, at))| < U32
            case _ => |Packed(d)| < U32
  {
    hide Coherent, Packed, Weight, LegalSet, LegalImport, NoEmptyVisible, VisibleAt, StampAll, Stored;
    var d := st.inst.dict;
    CoherentPackable(st);
    match op
    case Set(key, blob, now) => SetSmall(st, key, Stored(st.inst.expire, st.inst.seconds, blob, now));
    case Remove(key) =>
      WeightSubset(d, {key});
      PackedLength(d - {key});
    case RemoveMany(keys) =>
      WeightSubset(d, KeySet(keys));
      PackedLength(d - KeySet(keys));
    case EnableExpire(_) => PackedLength(if st.inst.expire then d else StampAll(d));
    case DisableExpire(at) =>
      if st.inst.expire {
        StrippedPackable(d, at);
        PackedLength(VisibleAt(d, true, at));
      }
    case _ => PackedLength(d);
  }

  lemma {:induction false} InvChecked(st: Store)
    requires Inv(st)
    ensures Mapped(st) && Coherent(CheckLoadData(st))
  {
    hide CheckLoadData, Coherent;
  }

  lemma {:induction false} ApplyIsAct(st: Store, op: Op, ivs: IvSource)
    requires Mapped(st) && Mapped(CheckLoadData(st)) && !op.DropCache?
    ensures Apply(st, op, ivs) == Act(CheckLoadData(st), op, ivs)
  {
    hide CheckLoadData, Act;
  }

  lemma {:induction false} DropIsApply(st: Store, op: Op, ivs: IvSource)
    requires Mapped(st) && op.DropCache?
    ensures Apply(st, op, ivs).st == ClearMemoryCache(st)
  {
    hide CheckLoadData;
  }

  lemma {:induction false} SetOutcome(st: Store, key: Key, blob: Blob, now: uint32, iv: Block)
    requires Coherent(st) && LegalSet(st, key, Stored(st.inst.expire, st.inst.seconds, blob, now))
    ensures Mapped(st) && SetValue(st, key, blob, now, iv).ok && Coherent(SetValue(st, key, blob, now, iv).st)
    ensures |st.files.data| + |Pair(key, Stored(st.inst.expire, st.inst.seconds, blob, now))| <= SIZE_LIMIT
    ensures |Packed(st.inst.dict[key := Stored(st.inst.expire, st.inst.seconds, blob, now)])| < U32
  {
    hide Coherent, SetValue, LegalSet, Stored, Packed, Pair;
    CoherentMapped(st);
    SetValueDid(st, key, blob, now, iv);
    LegalSize(st, key, Stored(st.inst.expire, st.inst.seconds, blob, now));
    SetSmall(st, key, Stored(st.inst.expire, st.inst.seconds, blob, now));
  }

  lemma {:induction false} StampedDenotes(m: seq<byte>, refs: map<Key, Ref>, stamped: map<Key, Ref>)
    requires RefsOk(m, refs) && RefsOk(m, stamped) && stamped.Keys == refs.Keys
    requires forall k | k in refs :: stamped[k] == OnHeap(Stamp(Deref(m, refs[k]), 0))
    ensures Denotes(m, stamped) == StampAll(Denotes(m, refs))
  {
    hide Stamp;
  }

  lemma {:induction false} StrippedDenotes(m: seq<byte>, d: Dict, stripped: map<Key, Ref>, at: Clock)
    requires forall k :: k in stripped <==> k in d && Visible(d[k], true, at(k)).Present?
    requires forall k | k in stripped :: stripped[k] == OnHeap(Visible(d[k], true, at(k)).blob)
    ensures RefsOk(m, stripped) && Denotes(m, stripped) == VisibleAt(d, true, at)
  {
    hide Visible;
  }

  lemma {:induction false} ValueIsVisible(d: Dict, key: Key, now: uint32)
    requires key in d
    ensures Value(d, true, key, now) == Visible(d[key], true, now)
  {
  }

  /** A successful first load leaves a dictionary that packs, and a sound store when the flags were settled. */
  lemma {:induction false} OpenFacts(st: Store, iv: Block)
    requires Mapped(st) && st.inst == Recovery.Blank(st.inst.crypt) && |st.files.data| <= SIZE_LIMIT
    requires LoadData(st.cfg, st.files, st.inst).Loaded?
    ensures |Packed(LoadData(st.cfg, st.files, st.inst).inst.dict)| < U32
    ensures var out := Recovery.OpenStore(st.cfg, st.files, st.inst.crypt, iv);
            out.ok && (FlagsSettled(ParseMeta(st.files.meta)) ==> Inv(out.st))
  {
    hide LoadData, WriteBack, Packed, Weight, ParseMeta, Coherent, ReloadAgrees;
    var i := LoadData(st.cfg, st.files, st.inst).inst;
    var s := Store(st.cfg, st.files, i);
    Recovery.LoadedAgrees(st.cfg, st.files, st.inst);
    Recovery.LoadedInfo(st.cfg, st.files, st.inst);
    LoadKeepsCrypt(st.cfg, st.files, st.inst);
    CoherentDict(s);
    PackedLength(i.dict);
    if i.needFull {
      Recovery.RepairedBySalvage(s, iv);
    } else {
      Recovery.CoherentIff(s);
    }
    var out := Recovery.OpenStore(st.cfg, st.files, st.inst.crypt, iv).st;
    if FlagsSettled(ParseMeta(st.files.meta)) {
      CoherentIsInv(out);
    }
  }

  /** The map a reader of the store sees. */
  ghost function Live(st: Store, at: Clock): Dict
    requires Mapped(st)
  {
    VisibleAt(AbsOf(st).dict, AbsOf(st).expire, at)
  }

  lemma {:induction false} LiveIs(st: Store, at: Clock)
    requires Mapped(st)
    ensures Live(st, at) == VisibleAt(CheckLoadData(st).inst.dict, CheckLoadData(st).inst.expire, at)
  {
    hide CheckLoadData, VisibleAt;
  }

  lemma {:induction false} Allowed(st: Store, live: Dict, at: Clock, ivs: IvSource, order: seq<Key>)
    requires ImportAllowed(st, live, at, ivs) && Lists(order, live)
    ensures Mapped(st) && Legal(st, Import(RecsOf(order, live), at), ivs)
  {
    hide Legal;
  }

  lemma {:induction false} ImportSpecIs(a: Abs, items: seq<Rec>, at: Clock)
    ensures Spec(a, Import(items, at)) == SpecImport(a, items, at)
  {
    hide SpecImport;
  }

  lemma {:induction false} CheckedAgain(st: Store)
    requires Inv(st)
    ensures Mapped(st) && Mapped(CheckLoadData(st)) && Inv(CheckLoadData(st)) && AbsOf(CheckLoadData(st)) == AbsOf(st)
    ensures CheckLoadData(st).files == st.files
  {
    hide CheckLoadData, Coherent;
    CoherentIsInv(CheckLoadData(st));
    CoherentMapped(CheckLoadData(st));
    CheckKeepsFiles(st);
  }

  lemma {:induction false} CheckKeepsFiles(st: Store)
    requires Mapped(st)
    ensures CheckLoadData(st).files == st.files
  {
    hide LoadData, ParseMeta;
  }

  lemma {:induction false} VisibleIn(d: Dict, expire: bool, key: Key, at: Clock)
    requires key in d
    ensures Value(d, expire, key, at(key)).Present? <==> key in VisibleAt(d, expire, at)
    ensures key in VisibleAt(d, expire, at) ==>
              Value(d, expire, key, at(key)) == Present(VisibleAt(d, expire, at)[key])
  {
    hide Visible;
  }

  /** A listing has one entry per key. */
  lemma {:induction false} ListedCount(order: seq<Key>, d: Dict)
    requires Lists(order, d)
    ensures |order| == |d|
    decreases |order|
  {
    if order == [] {
      assert d.Keys == {};
    } else {
      var k, rest := order[0], order[1..];
      assert forall x :: x in order <==> x == k || x in rest;
      assert k !in rest;
      assert Lists(rest, d - {k});
      ListedCount(rest, d - {k});
      assert d.Keys == (d - {k}).Keys + {k};
      assert |d.Keys| == |(d - {k}).Keys| + 1;
    }
  }

  lemma {:induction false} SmallSize(n: nat)
    ensures n < U32 ==> Lo32(n) == n
  {
  }

  lemma {:induction false} SameKeys(m: seq<byte>, refs: map<Key, Ref>)
    requires RefsOk(m, refs)
    ensures Denotes(m, refs).Keys == refs.Keys
  {
  }

  lemma {:induction false} PutHeap(m: seq<byte>, refs: map<Key, Ref>, key: Key, blob: Blob)
    requires RefsOk(m, refs)
    ensures var refs' := refs[key := OnHeap(blob)];
            RefsOk(m, refs') && Denotes(m, refs') == Denotes(m, refs)[key := blob]
  {
  }

  lemma {:induction false} PutMapped(m: seq<byte>, refs: map<Key, Ref>, key: Key, start: nat, blob: Blob)
    requires RefsOk(m, refs) && HasAt(m, start, blob)
    ensures var refs' := refs[key := InMap(start, |blob|)];
            RefsOk(m, refs') && Denotes(m, refs') == Denotes(m, refs)[key := blob]
  {
  }

  lemma {:induction false} DropView(m: seq<byte>, refs: map<Key, Ref>, key: Key)
    requires RefsOk(m, refs)
    ensures RefsOk(m, refs - {key}) && Denotes(m, refs - {key}) == Denotes(m, refs) - {key}
  {
  }

  lemma {:induction false} DropViews(m: seq<byte>, refs: map<Key, Ref>, gone: set<Key>)
    requires RefsOk(m, refs)
    ensures RefsOk(m, refs - gone) && Denotes(m, refs - gone) == Denotes(m, refs) - gone
  {
  }

  /** The blob ends the pair that was copied in at p. */
  lemma {:induction false} BlobEndsPair(m: seq<byte>, p: nat, key: Key, blob: Blob)
    requires HasAt(m, p, Pair(key, blob))
    ensures |blob| <= |Pair(key, blob)| && HasAt(m, p + |Pair(key, blob)| - |blob|, blob)
  {
    hide Wire.Varint;
    var pair := Pair(key, blob);
    assert pair[|pair| - |blob|..] == blob;
    assert m[p + |pair| - |blob|..p + |pair|] == m[p..p + |pair|][|pair| - |blob|..];
  }

  lemma {:induction false} TrimmedIs(page: PageSize, size: nat, actual: nat)
    ensures TrimmedSize(page, size, actual) ==
            (if TrimTarget(page, size, actual) >= size then size else PageRoundUp(page, TrimTarget(page, size, actual)))
  {
    hide TrimTarget, PageRoundUp;
  }

  function KeySet(keys: seq<Key>): set<Key> {
    set k | k in keys
  }

  lemma {:induction false} KeySetSnoc(keys: seq<Key>, i: nat)
    requires i < |keys|
    ensures KeySet(keys[..i + 1]) == KeySet(keys[..i]) + {keys[i]}
  {
    assert keys[..i + 1] == keys[..i] + [keys[i]];
  }

  lemma {:induction false} DecodeForgets(f: Files, i: Inst, actual: uint32, crc: uint32)
    requires 4 + actual <= |f.data|
    ensures var a := DecodeRegion(f, i, actual, crc);
            var b := DecodeRegion(f, i.(dict := map[]), actual, crc);
            a.Loaded? == b.Loaded? && (a.Loaded? ==> a == b)
  {
    hide Parse, Plain;
  }

  lemma {:induction false} SameCount(m: seq<byte>, refs: map<Key, Ref>)
    requires RefsOk(m, refs)
    ensures |Denotes(m, refs)| == |refs|
  {
    assert Denotes(m, refs).Keys == refs.Keys;
    assert |Denotes(m, refs).Keys| == |refs.Keys|;
  }

  lemma {:induction false} RefsStillOk(m: seq<byte>, m': seq<byte>, refs: map<Key, Ref>)
    requires RefsOk(m, refs) && |m| <= |m'|
    ensures RefsOk(m', refs)
  {
  }

  lemma {:induction false} NothingDenoted(m: seq<byte>)
    ensures Denotes(m, map[]) == map[]
  {
  }

  lemma {:induction false} PatchTwice(m: seq<byte>, at: nat, a: seq<byte>, b: seq<byte>)
    requires at + |a| + |b| <= |m|
    ensures Patch(Patch(m, at, a), at + |a|, b) == Patch(m, at, a + b)
  {
  }

  lemma {:induction false} PatchLengths(m: seq<byte>)
    ensures forall at: nat, e: seq<byte> | at + |e| <= |m| :: |Patch(m, at, e)| == |m|
  {
  }

  /** The blob ends its pair. */
  lemma {:induction false} BlobInPair(m: seq<byte>, key: Key, blob: Blob)
    requires 8 + |Pair(key, blob)| <= |m|
    ensures |blob| <= |Pair(key, blob)|
    ensures HasAt(Patch(m, 4, HOLDER + Pair(key, blob)), 8 + |Pair(key, blob)| - |blob|, blob)
  {
    hide Wire.Varint;
    var pair := Pair(key, blob);
    assert pair[|pair| - |blob|..] == blob;
    var m' := Patch(m, 4, HOLDER + pair);
    assert m'[8..8 + |pair|] == pair;
    assert m'[8 + |pair| - |blob|..8 + |pair|] == m'[8..8 + |pair|][|pair| - |blob|..];
  }

  lemma {:induction false} OneView(m: seq<byte>, m': seq<byte>, refs: map<Key, Ref>, key: Key, start: nat, blob: Blob)
    requires RefsOk(m, refs) && refs.Keys <= {key} && HasAt(m', start, blob)
    ensures var refs' := refs[key := InMap(start, |blob|)];
            RefsOk(m', refs') && Denotes(m', refs') == Denotes(m, refs)[key := blob]
            && Below(refs', start + |blob|)
  {
  }

  lemma {:induction false} PatchKeepsBefore(m: seq<byte>, at: nat, e: seq<byte>)
    requires at + |e| <= |m|
    ensures Patch(m, at, e)[..at] == m[..at] && HasAt(Patch(m, at, e), at, e)
  {
  }
}
