/**
 What a write leaves in the files, byte by byte and size by size: which path each operation
 takes, what it leaves alone, and when it does nothing at all.
 */
module Writing {
  import opened Bytes
  import opened Crc32
  import opened LogRegion
  import opened KeyOrder
  import opened Meta
  import opened Growth
  import opened Store
  import opened Coherence
  import opened Expiry
  import opened Operations
  import opened Recovery
  import Cfb

  // ---- the bytes of a rewrite ----

  /** Resizing keeps every byte there is room for and fills up with zeros. */
  lemma {:induction false} ResizedBytes(data: seq<byte>, n: nat, k: nat)
    requires k < n
    ensures |Resize(data, n)| == n && Resize(data, n)[k] == if k < |data| then data[k] else 0
  {
  }

  /** After a rewrite: a zero header, the sealed records in key order, and behind them what was there. */
  lemma {:induction false} RewrittenBytes(st: Store, needSync: bool, incoming: nat, iv: Block, k: nat)
    requires Mapped(st) && k < NewSize(st, needSync, incoming)
    ensures var data := WriteBack(st, needSync, incoming, iv).st.files.data;
            var payload := Sealed(st.inst.crypt, iv, Packed(st.inst.dict));
            && |data| == NewSize(st, needSync, incoming) > 4 + |payload| + incoming
            && data[k] == (if k < 4 then 0
                           else if k < 4 + |payload| then payload[k - 4]
                           else if k < |st.files.data| then st.files.data[k]
                           else 0)
  {
    hide Packed, GrownSize, Parse, Checksum, StoreMeta, Resize, Cfb.Encrypt;
    var n := NewSize(st, needSync, incoming);
    PayloadFits(st.cfg.page, |st.files.data|, |Packed(st.inst.dict)|, |st.inst.dict|, needSync, incoming);
    ResizedBytes(st.files.data, n, k);
    RewrittenAt(Resize(st.files.data, n), Sealed(st.inst.crypt, iv, Packed(st.inst.dict)), k);
  }

  lemma {:induction false} RewrittenAt(data: seq<byte>, payload: seq<byte>, k: nat)
    requires 4 + |payload| <= |data| && k < |data|
    ensures Rewritten(data, payload)[k] ==
            if k < 4 then 0 else if k < 4 + |payload| then payload[k - 4] else data[k]
  {
  }

  // ---- sizes ----

  /** Clearing leaves one page and an empty region, one sequence on. */
  lemma {:induction false} ClearedSize(st: Store)
    requires Mapped(st)
    ensures var out := ClearAll(st);
            && |out.files.data| == st.cfg.page && out.inst.actual == 0
            && ParseMeta(out.files.meta) == out.inst.info
            && out.inst.info.sequence == Lo32(st.inst.info.sequence + 1)
            && out.inst.info.actualSize == out.inst.info.lastActualSize == 0
            && !out.inst.needFull && out.files.data[..4] == [0, 0, 0, 0]
  {
    hide StoreMeta, ParseMeta, Lo32;
    StoreMetaParses(st.files.meta, ClearAll(st).inst.info);
  }

  /** A trim ends within twice the packed records, in whole pages, and never below them; an empty store at a page. */
  lemma {:induction false} TrimmedFile(st: Store, iv: Block)
    requires Coherent(st) && |st.files.data| <= SIZE_LIMIT
    ensures Mapped(st)
    ensures var size, used := |TrimFile(st, iv).st.files.data|, 8 + Weight(st.inst.dict);
            && (st.inst.actual == 0 ==> size == st.cfg.page)
            && (st.inst.actual > 0 ==>
                  used <= size <= Max(st.cfg.page, PageRoundUp(st.cfg.page, 2 * used)))
  {
    hide Coherent, Recorded, WriteBack, Weight, ClearAll, Shrink, PageRoundUp, TrimmedSize;
    CoherentPackable(st);
    ClearedSize(st);
    if st.inst.actual > 0 {
      WriteBackKeepsCoherent(st, true, 0, iv);
      WriteBackFits(st, true, 0, iv);
      var out := WriteBack(st, true, 0, iv).st;
      ShrinkKeepsCoherent(out);
      TrimBounds(st.cfg.page, |out.files.data|, out.inst.actual);
    }
  }

  /** The first set of an empty store grows the file only for the record itself, not for headroom. */
  lemma {:induction false} FirstSetKeepsSize(st: Store, key: Key, blob: Blob, iv: Block)
    requires Mapped(st) && st.inst.dict == map[] && !TakesOverride(st, key, blob)
    requires 8 + 2 * |Pair(key, blob)| < |st.files.data|
    ensures |SetBlob(st, key, blob, iv).st.files.data| == |st.files.data|
  {
    hide Pair, WriteBack, GrownSize, Packed, TakesOverride;
    var d := map[key := blob];
    assert st.inst.dict[key := blob] == d;
    PackedOne(key, blob);
    WriteBackFits(WithDict(st, d), false, |Pair(key, blob)|, iv);
    KeptSize(st.cfg.page, |st.files.data|, |Packed(d)|, |d|, false, |Pair(key, blob)|);
  }

  // ---- the only key is overwritten in place ----

  ghost function SetEach(st: Store, key: Key, blobs: seq<Blob>, ivs: IvSource): Store
    requires Mapped(st)
    decreases |blobs|
  {
    if blobs == [] then st
    else
      SetBlobMapped(st, key, blobs[0], ivs(|blobs|));
      SetEach(SetBlob(st, key, blobs[0], ivs(|blobs|)).st, key, blobs[1..], ivs)
  }

  /** A plaintext single-process store on which this key is, or was, alone. */
  ghost predicate Alone(st: Store, key: Key) {
    && Coherent(st) && FastOk(st.inst) && !st.cfg.multiProcess && |st.files.data| <= SIZE_LIMIT
    && st.inst.dict.Keys <= {key} && st.inst.actual > 0
  }

  /**
   In single-process mode, setting the only key again and again never lengthens the log:
   the region is always the placeholder and the last record, at one sequence and file size.
   */
  lemma {:induction false} OnlyKeyStaysInPlace(st: Store, key: Key, blobs: seq<Blob>, ivs: IvSource)
    requires Alone(st, key) && key != [] && blobs != []
    requires forall b | b in blobs :: b != [] && 8 + |Pair(key, b)| <= |st.files.data|
    ensures Mapped(st)
    ensures var out, last := SetEach(st, key, blobs, ivs), blobs[|blobs| - 1];
            && out.inst.dict == map[key := last] && out.inst.actual == 4 + |Pair(key, last)|
            && out.inst.info.sequence == st.inst.info.sequence && |out.files.data| == |st.files.data|
    decreases |blobs|
  {
    hide Pair, SetBlob, Alone;
    AloneMapped(st, key);
    assert blobs[0] in blobs && forall b | b in blobs[1..] :: b in blobs;
    OverrideTaken(st, key, blobs[0], ivs(|blobs|));
    var next := SetBlob(st, key, blobs[0], ivs(|blobs|)).st;
    AloneMapped(next, key);
    if |blobs| > 1 {
      OnlyKeyStaysInPlace(next, key, blobs[1..], ivs);
      assert blobs[1..][|blobs| - 2] == blobs[|blobs| - 1];
    } else {
      NoMoreSets(next, key, blobs[1..], ivs);
    }
  }

  lemma {:induction false} NoMoreSets(st: Store, key: Key, blobs: seq<Blob>, ivs: IvSource)
    requires Mapped(st) && blobs == []
    ensures SetEach(st, key, blobs, ivs) == st
  {
  }

  lemma {:induction false} AloneMapped(st: Store, key: Key)
    requires Alone(st, key)
    ensures Mapped(st)
  {
    hide Coherent;
    CoherentMapped(st);
  }

  lemma {:induction false} OverrideTaken(st: Store, key: Key, blob: Blob, iv: Block)
    requires Alone(st, key) && key != [] && blob != [] && 8 + |Pair(key, blob)| <= |st.files.data|
    ensures Mapped(st)
    ensures var out := SetBlob(st, key, blob, iv).st;
            && Alone(out, key) && out.inst.dict == map[key := blob] && out.inst.actual == 4 + |Pair(key, blob)|
            && out.inst.info.sequence == st.inst.info.sequence && |out.files.data| == |st.files.data|
  {
    hide Coherent, Recorded, Pair, LoadData, Poke, Patch, Checksum, WriteBack;
    CoherentMapped(st);
    AtMostOne(st.inst.dict, key);
    OverrideKeepsCoherent(st, key, blob);
    assert Lo32(4 + |Pair(key, blob)|) == 4 + |Pair(key, blob)|;
  }

  lemma {:induction false} AtMostOne(d: Dict, key: Key)
    requires d.Keys <= {key}
    ensures |d| == 0 || (key in d && |d| == 1)
  {
    if key in d {
      assert d.Keys == {key};
      assert |d.Keys| == 1;
    } else {
      assert d.Keys == {};
      assert |d.Keys| == 0;
    }
  }

  // ---- which writes rewrite everything ----

  /** An encrypted store, a salvaged one and one of an older version are rewritten whole by the next set. */
  lemma {:induction false} SlowSetRewrites(st: Store, key: Key, blob: Blob, iv: Block)
    requires Coherent(st) && LegalSet(st, key, blob)
    requires st.inst.crypt.Some? || st.inst.needFull || st.inst.info.version < 4
    ensures Mapped(st)
    ensures var out := SetBlob(st, key, blob, iv).st;
            && !out.inst.needFull && out.inst.info.version == 4
            && out.inst.info.sequence == Lo32(st.inst.info.sequence + 1)
            && out.inst.actual == out.inst.info.lastActualSize == 4 + Weight(st.inst.dict[key := blob])
  {
    hide Coherent, Recorded, Pair, Weight, WriteBack, Lo32;
    var d := st.inst.dict[key := blob];
    CoherentPackable(st);
    SetPackable(st, key, blob);
    WriteBackKeepsCoherent(WithDict(st, d), |st.inst.dict| > 0, |Pair(key, blob)|, iv);
    WrittenMeta(WithDict(st, d), |st.inst.dict| > 0, |Pair(key, blob)|, iv);
  }

  /** In multi-process mode so is a store whose keys were all removed: the stale log is not appended to. */
  lemma {:induction false} SetOnEmptyRewrites(st: Store, key: Key, blob: Blob, iv: Block)
    requires Coherent(st) && LegalSet(st, key, blob) && st.inst.dict == map[] && st.cfg.multiProcess
    ensures Mapped(st)
    ensures var out := SetBlob(st, key, blob, iv).st;
            && out.inst.info.sequence == Lo32(st.inst.info.sequence + 1)
            && out.inst.actual == 4 + |Pair(key, blob)|
  {
    hide Coherent, Recorded, Pair, Weight, WriteBack, Lo32, Packed;
    var d := map[key := blob];
    assert st.inst.dict[key := blob] == d;
    CoherentPackable(st);
    SetPackable(st, key, blob);
    WriteBackKeepsCoherent(WithDict(st, d), false, |Pair(key, blob)|, iv);
    WrittenMeta(WithDict(st, d), false, |Pair(key, blob)|, iv);
    PackedLength(d);
    PackedOne(key, blob);
  }

  /** So is a salvaged store or an older one by the next removal of a live key. */
  lemma {:induction false} SlowRemoveRewrites(st: Store, key: Key, iv: Block)
    requires Coherent(st) && |st.files.data| <= SIZE_LIMIT && key in st.inst.dict
    requires st.inst.needFull || st.inst.info.version < 4
    ensures Mapped(st)
    ensures var out := RemoveKey(st, key, iv).st;
            && !out.inst.needFull && out.inst.info.version == 4
            && out.inst.info.sequence == Lo32(st.inst.info.sequence + 1)
            && out.inst.actual == out.inst.info.lastActualSize == 4 + Weight(st.inst.dict - {key})
  {
    hide Coherent, Recorded, Pair, Weight, WriteBack, Lo32;
    CoherentPackable(st);
    WeightRemove(st.inst.dict, key);
    var cut := WithDict(st, st.inst.dict - {key});
    WriteBackKeepsCoherent(cut, true, 0, iv);
    WrittenMeta(cut, true, 0, iv);
  }

  /** Removing several keys compacts once if one of them is live, and touches nothing if none is. */
  lemma {:induction false} RemoveManyCompacts(st: Store, keys: seq<Key>, iv: Block)
    requires Coherent(st) && |st.files.data| <= SIZE_LIMIT
    ensures Mapped(st)
    ensures (forall k | k in keys :: k !in st.inst.dict) ==> RemoveKeys(st, keys, iv) == Outcome(st, true)
    ensures (exists k :: k in keys && k in st.inst.dict) ==>
              var out := RemoveKeys(st, keys, iv).st;
              && out.inst.info.sequence == Lo32(st.inst.info.sequence + 1)
              && out.inst.actual == 4 + Weight(out.inst.dict)
  {
    hide Coherent, Recorded, Weight, WriteBack, Lo32;
    CoherentPackable(st);
    var gone := set k | k in keys;
    if gone !! st.inst.dict.Keys {
    } else {
      WeightSubset(st.inst.dict, gone);
      var cut := WithDict(st, st.inst.dict - gone);
      WriteBackKeepsCoherent(cut, true, 0, iv);
      WrittenMeta(cut, true, 0, iv);
    }
  }

  /** Removing a key that is not there touches nothing. */
  lemma {:induction false} RemoveMissing(st: Store, key: Key, iv: Block)
    requires Mapped(st) && key !in st.inst.dict
    ensures RemoveKey(st, key, iv) == Outcome(st, true)
  {
  }

  /** With comparing on and expiration off, setting what is there touches nothing; with expiration on it writes. */
  lemma {:induction false} CompareSkips(st: Store, key: Key, blob: Blob, now: uint32, iv: Block)
    requires Mapped(st) && st.inst.compare && key in st.inst.dict && st.inst.dict[key] == blob
    ensures !st.inst.expire ==> SetValue(st, key, blob, now, iv) == Outcome(st, true)
    ensures st.inst.expire ==>
              SetValue(st, key, blob, now, iv) ==
              SetBlob(st, key, blob + Le32(if st.inst.seconds == 0 then 0 else Lo32(now + st.inst.seconds)), iv)
  {
    hide SetBlob, Le32, Lo32;
  }

  // ---- settings ----

  /** Enabling sets flag bit 0 and no other, turns comparing off and records the duration; disabling clears the bit. */
  lemma {:induction false} ExpirationFlags(st: Store, seconds: uint32, at: Clock, iv: Block)
    requires Mapped(st)
    ensures var on := Enable(st, seconds, iv).st.inst;
            && on.info.flags / 2 == st.inst.info.flags / 2 && on.info.flags % 2 == 1
            && on.expire && !on.compare && on.seconds == seconds
    ensures var off := Disable(st, at, iv).st.inst;
            st.inst.expire ==>
              && off.info.flags / 2 == st.inst.info.flags / 2 && off.info.flags % 2 == 0
              && !off.expire && off.seconds == 0 && off.compare == st.inst.compare
    ensures !st.inst.expire ==> Disable(st, at, iv) == Outcome(st, true)
  {
    hide WriteBack, StampAll, VisibleAt;
    var i := st.inst;
    var on := if ExpireEnabled(i.info) then i.info.flags else i.info.flags + 1;
    var off := if ExpireEnabled(i.info) then i.info.flags - 1 else i.info.flags;
    var d := if i.expire then i.dict else StampAll(i.dict);
    RewriteKeepsSettings(st.(inst := i.(seconds := seconds, expire := true, compare := false,
                                        info := i.info.(flags := on), dict := d)), iv);
    RewriteKeepsSettings(st.(inst := i.(seconds := 0, expire := false, info := i.info.(flags := off),
                                        dict := VisibleAt(i.dict, true, at))), iv);
  }

  lemma {:induction false} RewriteKeepsSettings(st: Store, iv: Block)
    requires Mapped(st)
    ensures var out := WriteBack(st, true, 0, iv).st.inst;
            && out.info.flags == st.inst.info.flags && out.expire == st.inst.expire
            && out.compare == st.inst.compare && out.seconds == st.inst.seconds && out.crypt == st.inst.crypt
  {
    hide Packed, Parse, NewSize, Sealed, Rewritten, Resize, StoreMeta, Lo32;
  }

  /** A re-key that fails keeps the old key; one that succeeds has the new one. */
  lemma {:induction false} KeyKeptOnFailure(st: Store, crypt: Option<Cfb.Cipher>, iv: Block)
    requires Mapped(st)
    ensures var out := ChangeKey(st, crypt, iv); out.st.inst.crypt == if out.ok then crypt else st.inst.crypt
  {
    hide WriteBack;
    RewriteKeepsSettings(st.(inst := st.inst.(crypt := crypt)), iv);
  }
}
