/** How many bytes of records are written between two rewrites that lack of space forces. */
module Amortised {
  import opened Bytes
  import opened Crc32
  import opened LogRegion
  import opened KeyOrder
  import opened Meta
  import opened Growth
  import opened Store
  import opened Coherence
  import opened Operations

  /** The bytes behind the region. */
  function FreeTail(st: Store): int {
    |st.files.data| - 4 - st.inst.actual
  }

  /**
   A set that had to rewrite a non-empty store leaves a free tail beyond the pair and the
   headroom, and the headroom is at least 8/17 of the bytes the rewrite needed.
   */
  lemma {:induction false} HeadroomAfterRewrite(st: Store, key: Key, blob: Blob, iv: Block)
    requires Coherent(st) && LegalSet(st, key, blob) && |st.inst.dict| > 0
    requires !TakesOverride(st, key, blob) && !TakesAppend(st, key, blob)
    ensures var out, pair := SetBlob(st, key, blob, iv).st, |Pair(key, blob)|;
            var headroom := FutureUsage(4 + out.inst.actual + pair, |out.inst.dict|);
            && FreeTail(out) > pair + headroom
            && 17 * headroom >= 8 * (4 + out.inst.actual + pair)
  {
    hide Coherent, Recorded, Pair, Weight, Packed, FutureUsage, WriteBack, TakesOverride, TakesAppend, GrownSize;
    var d := st.inst.dict[key := blob];
    PairLengths(key, blob);
    CoherentPackable(st);
    SetPackable(st, key, blob);
    PackedLength(d);
    WriteBackKeepsCoherent(WithDict(st, d), true, |Pair(key, blob)|, iv);
    HeadroomIsFree(st.cfg.page, |st.files.data|, |Packed(d)|, |d|, |Pair(key, blob)|);
    HeadroomShare(4 + |Packed(d)| + |Pair(key, blob)|, |d|);
    WriteBackFits(WithDict(st, d), true, |Pair(key, blob)|, iv);
  }

  // ---- runs of sets and removals ----

  datatype Write = SetTo(key: Key, val: Blob) | Drop(key: Key)

  ghost function WriteOne(st: Store, w: Write, iv: Block): Store
    requires Mapped(st)
  {
    match w
    case SetTo(key, val) => SetBlob(st, key, val, iv).st
    case Drop(key) => RemoveKey(st, key, iv).st
  }

  lemma {:induction false} WriteOneMapped(st: Store, w: Write, iv: Block)
    requires Mapped(st)
    ensures Mapped(WriteOne(st, w, iv))
  {
    hide SetBlob, WriteBack, Pair, Poke, Patch;
    match w
    case SetTo(key, val) => SetBlobMapped(st, key, val, iv);
    case Drop(key) => WriteBackFits(WithDict(st, st.inst.dict - {key}), true, 0, iv);
  }

  ghost function WriteAll(st: Store, run: seq<Write>, ivs: IvSource): Store
    requires Mapped(st)
    decreases |run|
  {
    if run == [] then st
    else
      WriteOneMapped(st, run[0], ivs(|run|));
      WriteAll(WriteOne(st, run[0], ivs(|run|)), run[1..], ivs)
  }

  function After(d: Dict, w: Write): Dict {
    match w
    case SetTo(key, val) => d[key := val]
    case Drop(key) => d - {key}
  }

  /** The bytes a write adds to the log: a record, a tombstone, or nothing for a key that is not there. */
  function Added(d: Dict, w: Write): nat {
    match w
    case SetTo(key, val) => |Pair(key, val)|
    case Drop(key) => if key in d then |Pair(key, [])| else 0
  }

  function AddedAll(d: Dict, run: seq<Write>): nat
    decreases |run|
  {
    if run == [] then 0 else Added(d, run[0]) + AddedAll(After(d, run[0]), run[1..])
  }

  /** A set that neither starts an empty store nor may override the only key in place. */
  predicate Appending(multiProcess: bool, d: Dict, w: Write) {
    w.SetTo? ==> |d| > 0 && (multiProcess || |d| > 1 || w.key !in d)
  }

  predicate AppendingAll(multiProcess: bool, d: Dict, run: seq<Write>)
    decreases |run|
  {
    run == [] || (Appending(multiProcess, d, run[0]) && AppendingAll(multiProcess, After(d, run[0]), run[1..]))
  }

  /** Non-empty keys and values, within the size limit. */
  predicate LegalWrite(size: nat, w: Write) {
    && size <= SIZE_LIMIT
    && (w.SetTo? ==> w.key != [] && w.val != [] && size + |Pair(w.key, w.val)| <= SIZE_LIMIT)
  }

  /** A plaintext store on which sets may append. */
  ghost predicate Ready(st: Store) {
    Coherent(st) && FastOk(st.inst)
  }

  /** The write only appended. */
  ghost predicate Appended(st: Store, w: Write, out: Store) {
    && Ready(out) && out.cfg == st.cfg
    && out.inst.dict == After(st.inst.dict, w)
    && |out.files.data| == |st.files.data| && out.inst.info.sequence == st.inst.info.sequence
    && out.inst.actual == st.inst.actual + Added(st.inst.dict, w)
  }

  /** A set that fits the free tail appends: it leaves the sequence and the file's size alone. */
  lemma {:induction false} FittingSetAppends(st: Store, key: Key, val: Blob, iv: Block)
    requires Ready(st) && LegalWrite(|st.files.data|, SetTo(key, val))
    requires Appending(st.cfg.multiProcess, st.inst.dict, SetTo(key, val)) && |Pair(key, val)| <= FreeTail(st)
    ensures Mapped(st) && Appended(st, SetTo(key, val), SetBlob(st, key, val, iv).st)
  {
    hide Coherent, Recorded, Pair, LoadData, Poke, Patch, Update, Weight, Lo32;
    CoherentActual(st);
    CoherentPackable(st);
    AppendKeepsCoherent(st, key, val);
    AppendedRegion(st, Pair(key, val));
  }

  /** A removal whose tombstone fits the free tail appends it. */
  lemma {:induction false} FittingRemoveAppends(st: Store, key: Key, iv: Block)
    requires Ready(st) && |st.files.data| <= SIZE_LIMIT
    requires Added(st.inst.dict, Drop(key)) <= FreeTail(st)
    ensures Mapped(st) && Appended(st, Drop(key), RemoveKey(st, key, iv).st)
  {
    hide Coherent, Recorded, Pair, LoadData, Poke, Patch, Update, Weight, Lo32, WriteBack;
    CoherentActual(st);
    CoherentPackable(st);
    RemoveDid(st, key, iv);
    if key in st.inst.dict {
      AppendedRegion(WithDict(st, st.inst.dict - {key}), Pair(key, []));
    } else {
      assert st.inst.dict - {key} == st.inst.dict;
    }
  }

  lemma {:induction false} FittingWriteAppends(st: Store, w: Write, iv: Block)
    requires Ready(st) && LegalWrite(|st.files.data|, w)
    requires Appending(st.cfg.multiProcess, st.inst.dict, w) && Added(st.inst.dict, w) <= FreeTail(st)
    ensures Mapped(st) && Appended(st, w, WriteOne(st, w, iv))
  {
    hide Ready, Pair, SetBlob, RemoveKey, Appended;
    match w
    case SetTo(key, val) => FittingSetAppends(st, key, val, iv);
    case Drop(key) => FittingRemoveAppends(st, key, iv);
  }

  /** Writes whose bytes together fit the free tail never rewrite. */
  lemma {:induction false} NoRewriteWhileFitting(st: Store, run: seq<Write>, ivs: IvSource)
    requires Ready(st) && AppendingAll(st.cfg.multiProcess, st.inst.dict, run)
    requires forall w | w in run :: LegalWrite(|st.files.data|, w)
    requires AddedAll(st.inst.dict, run) <= FreeTail(st)
    ensures Mapped(st)
    ensures var out := WriteAll(st, run, ivs);
            && out.inst.info.sequence == st.inst.info.sequence
            && out.inst.actual == st.inst.actual + AddedAll(st.inst.dict, run)
    decreases |run|
  {
    hide Coherent, FastOk, Added, After, Appending, WriteOne, LegalWrite;
    CoherentMapped(st);
    if run != [] {
      FittingWriteAppends(st, run[0], ivs(|run|));
      NoRewriteWhileFitting(WriteOne(st, run[0], ivs(|run|)), run[1..], ivs);
    }
  }

  /**
   After a rewrite that lack of space forced, sets and removals must write more than 8/17
   of the bytes that rewrite needed before the next one.
   */
  lemma {:induction false} AmortisedRewrites(st: Store, key: Key, blob: Blob, iv: Block, run: seq<Write>, ivs: IvSource)
    requires Coherent(st) && LegalSet(st, key, blob) && |st.inst.dict| > 0 && st.inst.crypt.None?
    requires !TakesOverride(st, key, blob) && !TakesAppend(st, key, blob)
    requires var out := SetBlob(st, key, blob, iv).st;
             && AppendingAll(out.cfg.multiProcess, out.inst.dict, run)
             && forall w | w in run :: LegalWrite(|out.files.data|, w)
    ensures var out := SetBlob(st, key, blob, iv).st;
            Mapped(out) &&
            (WriteAll(out, run, ivs).inst.info.sequence != out.inst.info.sequence ==>
               17 * AddedAll(out.inst.dict, run) > 8 * (4 + out.inst.actual + |Pair(key, blob)|))
  {
    hide Coherent, Pair, SetBlob, TakesOverride, TakesAppend, FutureUsage, LegalSet, LegalWrite, AppendingAll;
    hide AddedAll, FastOk;
    CoherentMapped(st);
    var out := SetBlob(st, key, blob, iv).st;
    SetBlobMapped(st, key, blob, iv);
    HeadroomAfterRewrite(st, key, blob, iv);
    if AddedAll(out.inst.dict, run) <= FreeTail(out) {
      RewriteIsFast(st, key, blob, iv);
      NoRewriteWhileFitting(out, run, ivs);
    }
  }

  lemma {:induction false} DictGrows(d: Dict, k: Key, v: Blob)
    ensures |d[k := v]| >= |d| && |d[k := v]| > 0
  {
    assert d[k := v].Keys == d.Keys + {k};
    if k in d {
      assert d[k := v].Keys == d.Keys;
    }
  }

  lemma {:induction false} RewriteIsFast(st: Store, key: Key, blob: Blob, iv: Block)
    requires Coherent(st) && LegalSet(st, key, blob) && st.inst.crypt.None?
    requires !TakesOverride(st, key, blob) && !TakesAppend(st, key, blob)
    ensures var out := SetBlob(st, key, blob, iv).st;
            Coherent(out) && FastOk(out.inst) && |out.inst.dict| > 0
  {
    hide Coherent, Recorded, Pair, Weight, WriteBack, TakesOverride, TakesAppend, NewSize;
    var d := st.inst.dict[key := blob];
    CoherentPackable(st);
    SetPackable(st, key, blob);
    DictGrows(st.inst.dict, key, blob);
    WriteBackKeepsCoherent(WithDict(st, d), |st.inst.dict| > 0, |Pair(key, blob)|, iv);
    WriteBackFits(WithDict(st, d), |st.inst.dict| > 0, |Pair(key, blob)|, iv);
  }
}
