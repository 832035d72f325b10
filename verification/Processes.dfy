/**
 Any number of multi-process instances over one pair of files. A process reads under a
 shared flock, writes under an exclusive one, and trusts its memory when the canary
 (sequence, crc, actualSize) of the live meta matches.
 */
module Processes {
  import opened Bytes
  import opened Crc32
  import opened LogRegion
  import opened Meta
  import opened Store
  import opened Coherence
  import opened Expiry
  import opened Operations
  import opened Recovery
  import Cfb

  datatype Mode = Unlocked | Shared | Exclusive

  /** One process: its flock, the length of its data mapping, its memory, and the rewrite its memory is from. */
  datatype Proc = Proc(mode: Mode, mapped: nat, inst: Inst, epoch: nat)

  /**
   The shared files and the processes. `past` and `canon` are history: the rewrites so far
   and the memory a process in step with the files has. `fault` records a use of a mapping
   whose length is no longer the file's.
   */
  datatype World = World(cfg: Config, files: Files, procs: map<nat, Proc>, past: History, canon: Inst, fault: bool)

  /** The number of rewrites, and the map as the last one left it. */
  datatype History = History(epoch: nat, rewritten: Dict)

  datatype Event =
    | Acquire(p: nat, mode: Mode)
    | Release(p: nat)
    | Get(p: nat, key: Key, now: uint32)
    | Do(p: nat, op: Op, ivs: IvSource)
    | DropCache(p: nat)
    | Open(p: nat)

  // ---- steps ----

  ghost predicate NoneElse(w: World, p: nat, strict: bool) {
    forall q | q in w.procs && q != p :: w.procs[q].mode != Exclusive && (strict ==> w.procs[q].mode == Unlocked)
  }

  /**
   What the kernel and the callers allow. An open runs while no writer is in its critical
   section. A new key is chosen by the only process, since the others keep the old one.
   */
  ghost predicate Enabled(w: World, e: Event) {
    match e
    case Acquire(p, mode) =>
      p in w.procs && w.procs[p].mode == Unlocked && mode != Unlocked && NoneElse(w, p, mode == Exclusive)
    case Release(p) => p in w.procs && w.procs[p].mode != Unlocked
    case Get(p, _, _) => p in w.procs && w.procs[p].mode != Unlocked
    case Do(p, op, ivs) =>
      && p in w.procs && w.procs[p].mode == Exclusive && !op.DropCache?
      && (op.ReKey? ==> op.crypt == w.canon.crypt || w.procs.Keys == {p})
      && Mapped(View(w, Checked(w, p))) && Legal(View(w, Checked(w, p)), op, ivs)
    case DropCache(p) => p in w.procs
    case Open(p) => p !in w.procs && NoneElse(w, p, false)
  }

  /** The store a process operates on. */
  function View(w: World, pr: Proc): Store {
    Store(w.cfg, w.files, pr.inst)
  }

  /** checkLoadData in process p: only a forced reload or a moved sequence remaps. */
  ghost function Checked(w: World, p: nat): Proc
    requires p in w.procs
  {
    var pr := w.procs[p];
    if !Mapped(View(w, pr)) then pr
    else
      var moved := pr.inst.needLoad || ParseMeta(w.files.meta).sequence != pr.inst.info.sequence;
      var inst := CheckLoadData(View(w, pr)).inst;
      pr.(mapped := if moved then |w.files.data| else pr.mapped,
          inst := inst,
          epoch := if inst == pr.inst then pr.epoch else w.past.epoch)
  }

  /** After the check the process works through its mapping: it must be the whole file. */
  ghost function AfterCheck(w: World, p: nat): World
    requires p in w.procs
  {
    var pr := Checked(w, p);
    w.(procs := w.procs[p := pr], fault := w.fault || pr.mapped != |w.files.data|)
  }

  /** One write between two states of a store. */
  function Record(h: History, st: Store, st': Store): History {
    if st'.inst.info.sequence == st.inst.info.sequence then h else History(h.epoch + 1, st'.inst.dict)
  }

  ghost function ImportRecord(h: History, st: Store, items: seq<Rec>, at: Clock, ivs: IvSource): History
    requires Mapped(st)
    decreases |items|
  {
    if items == [] then h
    else
      SetValueMapped(st, items[0].key, items[0].val, at(items[0].key), ivs(|items|));
      var next := SetValue(st, items[0].key, items[0].val, at(items[0].key), ivs(|items|)).st;
      ImportRecord(Record(h, st, next), next, items[1..], at, ivs)
  }

  ghost function PastAfter(h: History, st: Store, op: Op, ivs: IvSource): History
    requires Mapped(st)
  {
    if op.Import? then ImportRecord(h, st, op.items, op.at, ivs) else Record(h, st, Act(st, op, ivs).st)
  }

  ghost function Next(w: World, e: Event): World
    requires Enabled(w, e)
  {
    match e
    case Acquire(p, mode) => w.(procs := w.procs[p := w.procs[p].(mode := mode)])
    case Release(p) => w.(procs := w.procs[p := w.procs[p].(mode := Unlocked)])
    case Get(p, _, _) => AfterCheck(w, p)
    case Do(p, op, ivs) =>
      var c, pr := AfterCheck(w, p), Checked(w, p);
      var out := Act(View(w, pr), op, ivs).st;
      var past := PastAfter(w.past, View(w, pr), op, ivs);
      c.(files := out.files, past := past, canon := out.inst,
         procs := c.procs[p := pr.(inst := out.inst, mapped := |out.files.data|, epoch := past.epoch)])
    case DropCache(p) =>
      var pr := w.procs[p];
      w.(procs := w.procs[p := pr.(inst := ClearMemoryCache(View(w, pr)).inst)])
    case Open(p) =>
      var inst := if |w.files.data| < 4 then Blank(w.canon.crypt)
                  else LoadData(w.cfg, w.files, Blank(w.canon.crypt)).inst;
      w.(procs := w.procs[p := Proc(Unlocked, |w.files.data|, inst, w.past.epoch)])
  }

  /** What a get returns. */
  ghost function Result(w: World, p: nat, key: Key, now: uint32): Lookup
    requires p in w.procs
  {
    var i := Checked(w, p).inst;
    Value(i.dict, i.expire, key, now)
  }

  // ---- invariant ----

  /** The memory is a prefix of the region the files now hold, and the mapping is the whole file. */
  ghost predicate InStep(w: World, pr: Proc) {
    var i, c := pr.inst, w.canon;
    && pr.mapped == |w.files.data|
    && i.info == c.info.(actualSize := i.actual, crcDigest := i.crc)
    && i.actual <= c.actual && i.expire == c.expire
    && Carries(w.files, c.crypt, c.info.iv, i.actual, i.crc, i.dict)
  }

  ghost predicate ProcOk(w: World, pr: Proc) {
    var i := pr.inst;
    && i.crypt == w.canon.crypt && !i.needFull && pr.epoch <= w.past.epoch
    && (!i.needLoad ==>
          && i.info.sequence == Lo32(pr.epoch)
          && (pr.epoch == w.past.epoch ==> InStep(w, pr)))
  }

  ghost predicate Committed(w: World) {
    var st := Store(w.cfg, w.files, w.canon);
    && Settled(st) && Floor(st) && FloorDict(st) == w.past.rewritten && !w.canon.needFull
    && w.canon.info.actualSize == w.canon.actual
    && w.canon.info.sequence == Lo32(w.past.epoch)
  }

  ghost predicate Exclusion(w: World) {
    forall p, q | p in w.procs && q in w.procs && p != q :: w.procs[p].mode == Exclusive ==> w.procs[q].mode == Unlocked
  }

  ghost predicate WInv(w: World) {
    && w.cfg.multiProcess && !w.fault && Committed(w) && Exclusion(w)
    && (forall p | p in w.procs :: ProcOk(w, w.procs[p]))
  }

  // ---- the canary is enough ----

  /** The process reloads anyway, or fewer than 2^32 rewrites were made since it last looked. */
  predicate Awake(w: World, p: nat)
    requires p in w.procs
  {
    w.procs[p].inst.needLoad || w.past.epoch < w.procs[p].epoch + U32
  }

  /** The process that comes to the files in this event is awake. */
  predicate Timely(w: World, e: Event) {
    (e.Get? || e.Do?) && e.p in w.procs ==> Awake(w, e.p)
  }

  /** The same memory, up to the settings that are never persisted. */
  ghost predicate SameMemory(i: Inst, c: Inst) {
    i == c.(seconds := i.seconds, compare := i.compare)
  }

  lemma {:induction false} SequenceNames(a: nat, b: nat)
    requires a <= b < a + U32 && Lo32(a) == Lo32(b)
    ensures a == b
  {
  }

  lemma {:induction false} SettledFacts(st: Store)
    requires Settled(st)
    ensures var i := st.inst;
            && Mapped(st) && !i.needLoad
            && LoadData(st.cfg, st.files, i) == Loaded(i)
            && ParseMeta(st.files.meta) == i.info && i.info.crcDigest == i.crc && OnDisk(st)
  {
    hide LoadData, ParseMeta, OnDisk;
  }

  /** A reload of the current files gives the committed memory. */
  lemma {:induction false} ReloadCommitted(w: World, i: Inst)
    requires Committed(w) && i.crypt == w.canon.crypt && !i.needFull && !i.needLoad
    ensures |w.files.data| >= 4
    ensures LoadData(w.cfg, w.files, i).Loaded? && SameMemory(LoadData(w.cfg, w.files, i).inst, w.canon)
    ensures LoadData(w.cfg, w.files, i).inst.seconds == i.seconds
  {
    hide LoadData, Settled, Floor;
    var st := Store(w.cfg, w.files, w.canon);
    SettledFacts(st);
    var c := w.canon.(seconds := i.seconds, compare := i.compare);
    LoadCarriesSettings(w.cfg, w.files, w.canon, i.seconds, i.compare);
    LoadForgets(w.cfg, w.files, c, i);
  }

  lemma {:induction false} LoadCarriesSettings(cfg: Config, f: Files, i: Inst, seconds: uint32, compare: bool)
    requires |f.data| >= 4 && LoadData(cfg, f, i) == Loaded(i)
    ensures var j := i.(seconds := seconds, compare := compare); LoadData(cfg, f, j) == Loaded(j)
  {
    hide ParseMeta, CrcValid, Parse, Plain, ReadActualSize, Region, Clamped;
  }

  /**
   After checkLoadData under the flock a process has exactly the committed memory and a
   mapping of the whole file: equal sequence means the same rewrite, within a rewrite the
   region only grows, so an equal size means equal contents. No digest collision matters.
   */
  lemma {:induction false} CanarySound(w: World, p: nat)
    requires Committed(w) && w.cfg.multiProcess
    requires p in w.procs && ProcOk(w, w.procs[p]) && Awake(w, p)
    ensures var pr := Checked(w, p);
            && SameMemory(pr.inst, w.canon) && pr.mapped == |w.files.data|
            && pr.mode == w.procs[p].mode && pr.inst.seconds == w.procs[p].inst.seconds
            && pr.epoch == w.past.epoch && InStep(w, pr)
  {
    hide LoadData, Settled, Floor, ParseMeta, Carries, OnDisk, Lo32;
    var pr, st := w.procs[p], Store(w.cfg, w.files, w.canon);
    SettledFacts(st);
    ReloadCommitted(w, pr.inst.(needLoad := false));
    if !pr.inst.needLoad && pr.inst.info.sequence == w.canon.info.sequence {
      SequenceNames(pr.epoch, w.past.epoch);
      if pr.inst.actual == w.canon.actual && pr.inst.crc == w.canon.crc {
        SameRegionSameDict(w, pr);
      }
    }
    SettledCarries(st);
  }

  lemma {:induction false} SequenceRepeats(a: nat, b: nat)
    requires a <= b
    ensures Lo32(a) == Lo32(b) <==> (b - a) % 0x1_0000_0000 == 0
  {
  }

  /**
   For a process that may have overslept: the check is wrong exactly when the rewrites it
   missed are a multiple of 2^32, the region has come back to the size and digest it
   knows, and its memory is not the committed one all the same.
   */
  lemma {:induction false} OversleptIff(w: World, p: nat)
    requires Committed(w) && w.cfg.multiProcess && p in w.procs && ProcOk(w, w.procs[p])
    requires !w.procs[p].inst.needLoad
    ensures var pr, c := w.procs[p], w.canon;
            SameMemory(Checked(w, p).inst, c) <==>
            || (w.past.epoch - pr.epoch) % 0x1_0000_0000 != 0
            || pr.inst.crc != c.crc || pr.inst.actual != c.actual
            || SameMemory(pr.inst, c)
  {
    hide LoadData, Settled, Floor, ParseMeta, FloorDict, Lo32, InStep;
    SettledFacts(Store(w.cfg, w.files, w.canon));
    ReloadCommitted(w, w.procs[p].inst);
    SequenceRepeats(w.procs[p].epoch, w.past.epoch);
  }

  lemma {:induction false} SettledCarries(st: Store)
    requires Settled(st)
    ensures var i := st.inst; Carries(st.files, i.crypt, i.info.iv, i.actual, i.crc, i.dict)
  {
    hide Coherent, Carries;
  }

  lemma {:induction false} SameRegionSameDict(w: World, pr: Proc)
    requires Settled(Store(w.cfg, w.files, w.canon)) && InStep(w, pr)
    requires pr.inst.actual == w.canon.actual && pr.inst.crc == w.canon.crc
    ensures pr.inst.dict == w.canon.dict
  {
    hide Parse, Plain, Coherent;
  }

  // ---- every step keeps the invariant ----

  /** The committed map, its expiration setting, and each process's default duration. */
  datatype SpecState = SpecState(dict: Dict, expire: bool, seconds: map<nat, uint32>)

  ghost function Abstract(w: World): SpecState {
    SpecState(w.canon.dict, w.canon.expire, map p | p in w.procs :: w.procs[p].inst.seconds)
  }

  /** The same events on one shared map. */
  ghost function SpecNext(s: SpecState, e: Event): SpecState {
    match e
    case Do(p, op, _) =>
      if p !in s.seconds then s
      else
        var a := Spec(Abs(s.dict, s.expire, s.seconds[p]), op);
        SpecState(a.dict, a.expire, s.seconds[p := a.seconds])
    case Open(p) => s.(seconds := s.seconds[p := 0])
    case _ => s
  }

  lemma {:induction false} SettingsDoNotSettle(st: Store, i: Inst)
    requires Settled(st) && Floor(st) && SameMemory(i, st.inst)
    ensures Settled(st.(inst := i)) && Floor(st.(inst := i)) && FloorDict(st.(inst := i)) == FloorDict(st)
  {
    hide LoadData, CrcValid, Parse, Plain, ParseMeta, ReadActualSize;
    LoadCarriesSettings(st.cfg, st.files, st.inst, i.seconds, i.compare);
  }

  /** Only the lock and the settings of p differ. */
  lemma {:induction false} OthersUntouched(w: World, w': World, p: nat)
    requires forall q | q in w.procs :: ProcOk(w, w.procs[q])
    requires p in w'.procs && ProcOk(w', w'.procs[p])
    requires w' == w.(procs := w.procs[p := w'.procs[p]], fault := w'.fault)
    ensures forall q | q in w'.procs :: ProcOk(w', w'.procs[q])
  {
    hide Carries, Lo32;
    forall q | q in w'.procs && q != p
      ensures ProcOk(w', w'.procs[q])
    {
      assert ProcOk(w, w.procs[q]);
    }
  }

  lemma {:induction false} CheckKeeps(w: World, p: nat)
    requires WInv(w) && p in w.procs && Awake(w, p)
    ensures WInv(AfterCheck(w, p)) && Abstract(AfterCheck(w, p)) == Abstract(w)
  {
    hide Committed, InStep, Checked, Lo32, CheckLoadData;
    CanarySound(w, p);
    CommittedSequence(w);
    CommittedCongruent(w, AfterCheck(w, p));
    InStepCongruent(w, AfterCheck(w, p), Checked(w, p));
    OthersUntouched(w, AfterCheck(w, p), p);
  }

  lemma {:induction false} CommittedSequence(w: World)
    requires Committed(w)
    ensures w.canon.info.sequence == Lo32(w.past.epoch) && !w.canon.needFull && !w.canon.needLoad
  {
    hide Settled, Floor;
    SettledFacts(Store(w.cfg, w.files, w.canon));
  }

  lemma {:induction false} CommittedCongruent(w: World, w': World)
    requires Committed(w) && w'.cfg == w.cfg && w'.files == w.files && w'.canon == w.canon && w'.past == w.past
    ensures Committed(w')
  {
    hide Settled, Floor;
  }

  lemma {:induction false} InStepCongruent(w: World, w': World, pr: Proc)
    requires w'.files == w.files && w'.canon == w.canon
    ensures InStep(w', pr) == InStep(w, pr)
  {
    hide Carries;
  }

  /** A process keeps its place when another extends the region or rewrites it. */
  lemma {:induction false} OthersFollow(w: World, st: Store, st': Store, past': History, q: Proc)
    requires ProcOk(w, q) && st.cfg == w.cfg && st.files == w.files && SameMemory(st.inst, w.canon)
    requires st' == st || (st'.inst.crypt == st.inst.crypt && (Extends(st, st') || Bumps(st, st')))
    requires st.inst.info.sequence == Lo32(w.past.epoch)
    requires past' == Record(w.past, st, st')
    ensures ProcOk(w.(files := st'.files, past := past', canon := st'.inst), q)
  {
    hide Parse, Plain, Checksum;
    if st' != st && !Bumps(st, st') && q.epoch == w.past.epoch && !q.inst.needLoad {
      PrefixOfRegion(st.files, q.inst.actual, st.inst.actual);
      PrefixOfRegion(st'.files, q.inst.actual, st.inst.actual);
    }
  }

  /** After a write by p every process, p included, is in order. */
  lemma {:induction false} ProcsFollow(w: World, w': World, p: nat, st: Store, out: Store)
    requires forall q | q in w.procs :: ProcOk(w, w.procs[q])
    requires p in w.procs && st.cfg == w.cfg && st.files == w.files && SameMemory(st.inst, w.canon)
    requires st.inst.info.sequence == Lo32(w.past.epoch) && (out == st || Extends(st, out) || Bumps(st, out))
    requires out.inst.crypt == st.inst.crypt || w.procs.Keys == {p}
    requires w' == w.(files := out.files, past := Record(w.past, st, out), canon := out.inst,
                      procs := w'.procs, fault := w'.fault)
    requires Committed(w.(files := out.files, past := w'.past, canon := out.inst))
    requires p in w'.procs && w'.procs == w.procs[p := w'.procs[p]]
    requires var mine := w'.procs[p];
             mine.inst == out.inst && mine.mapped == |out.files.data| && mine.epoch == w'.past.epoch
    ensures forall q | q in w'.procs :: ProcOk(w', w'.procs[q])
  {
    hide Committed, Extends, Bumps, InStep, Lo32, Record, ProcOk;
    var mine, base := w'.procs[p], w.(files := out.files, past := w'.past, canon := out.inst);
    CommittedIsInStep(base, mine);
    forall q | q in w'.procs
      ensures ProcOk(w', w'.procs[q])
    {
      if q == p {
        OwnProcOk(base, mine);
        ProcCongruent(base, w', mine);
      } else {
        assert q in w.procs.Keys;
        OthersFollow(w, st, out, w'.past, w.procs[q]);
        ProcCongruent(base, w', w.procs[q]);
      }
    }
  }

  /** A single write: the process ends with the committed memory, the rest follow. */
  lemma {:induction false} WriteKeeps(w: World, p: nat, op: Op, ivs: IvSource)
    requires WInv(w) && Enabled(w, Do(p, op, ivs)) && Awake(w, p) && Single(op)
    ensures WInv(Next(w, Do(p, op, ivs)))
    ensures Abstract(Next(w, Do(p, op, ivs))) == SpecNext(Abstract(w), Do(p, op, ivs))
  {
    hide Settled, Floor, Effect, Extends, Bumps, InStep, Checked, Lo32, CheckLoadData, Act, Legal, Spec, Did;
    hide Exclusion, Record, PastAfter, FloorDict, Mapped;
    var e, pr := Do(p, op, ivs), Checked(w, p);
    var st := View(w, pr);
    CanarySound(w, p);
    CommittedSequence(w);
    SettingsDoNotSettle(Store(w.cfg, w.files, w.canon), pr.inst);
    var out := Act(st, op, ivs).st;
    SingleRecord(w.past, st, op, ivs);
    WriteIsCommitted(w, st, op, ivs);
    var w' := Next(w, e);
    var base := w.(files := out.files, past := w'.past, canon := out.inst);
    ProcsFollow(w, w', p, st, out);
    CommittedCongruent(base, w');
    ExclusionKept(w, w', p);
    assert Abstract(w').seconds == Abstract(w).seconds[p := out.inst.seconds];
  }

  lemma {:induction false} SingleRecord(h: History, st: Store, op: Op, ivs: IvSource)
    requires Mapped(st) && Single(op)
    ensures PastAfter(h, st, op, ivs) == Record(h, st, Act(st, op, ivs).st)
  {
    hide SetValue, RemoveKey, RemoveKeys, ClearAll, TrimFile, ChangeKey, Enable, Disable;
  }

  /** The files after a legal write are committed with the writer's memory. */
  lemma {:induction false} WriteIsCommitted(w: World, st: Store, op: Op, ivs: IvSource)
    requires Committed(w) && w.cfg.multiProcess
    requires st.cfg == w.cfg && st.files == w.files && SameMemory(st.inst, w.canon)
    requires Settled(st) && Floor(st) && FloorDict(st) == w.past.rewritten
    requires Mapped(st) && Legal(st, op, ivs) && Single(op)
    ensures var out := Act(st, op, ivs).st;
            && Committed(w.(files := out.files, past := Record(w.past, st, out), canon := out.inst))
            && out.inst.crypt == KeyAfter(st, op) && (out == st || Extends(st, out) || Bumps(st, out))
            && Abs(out.inst.dict, out.inst.expire, out.inst.seconds)
               == Spec(Abs(st.inst.dict, st.inst.expire, st.inst.seconds), op)
  {
    hide Floor, Extends, Lo32, Act, Legal, Spec, LoadData, ParseMeta, OnDisk, Coherent, FloorDict;
    var out := Act(st, op, ivs).st;
    ActDid(st, op, ivs);
    ActEffect(st, op, ivs);
    EffectKeepsFloor(st, out);
    SequenceAfter(w.past.epoch);
    if out != st && !Bumps(st, out) {
      ExtendsKeepsSequence(st, out);
    }
  }

  lemma {:induction false} ExtendsKeepsSequence(st: Store, st': Store)
    requires Extends(st, st')
    ensures st'.inst.info.sequence == st.inst.info.sequence
  {
  }

  lemma {:induction false} SequenceAfter(epoch: nat)
    ensures Lo32(Lo32(epoch) + 1) == Lo32(epoch + 1) != Lo32(epoch)
  {
  }

  lemma {:induction false} CommittedIsInStep(w: World, pr: Proc)
    requires Committed(w) && pr.inst == w.canon && pr.mapped == |w.files.data|
    ensures InStep(w, pr)
  {
    hide Settled, Floor, Carries;
    SettledFacts(Store(w.cfg, w.files, w.canon));
    SettledCarries(Store(w.cfg, w.files, w.canon));
  }

  lemma {:induction false} OwnProcOk(w: World, pr: Proc)
    requires Committed(w) && pr.inst == w.canon && pr.epoch == w.past.epoch && InStep(w, pr)
    ensures ProcOk(w, pr)
  {
    hide InStep, Settled, Floor, Lo32;
  }

  lemma {:induction false} ProcCongruent(w: World, w': World, pr: Proc)
    requires w'.files == w.files && w'.canon == w.canon && w'.past.epoch == w.past.epoch
    ensures ProcOk(w', pr) == ProcOk(w, pr)
  {
    hide InStep, Lo32;
    InStepCongruent(w, w', pr);
  }

  /** Exclusion is about modes only. */
  lemma {:induction false} ExclusionKept(w: World, w': World, p: nat)
    requires Exclusion(w) && p in w.procs && w'.procs.Keys == w.procs.Keys
    requires forall q | q in w.procs :: w'.procs[q].mode == w.procs[q].mode
    ensures Exclusion(w')
  {
  }

  // ---- an import is the run of its sets inside one critical section ----

  /** After its own write a process finds the files as it left them. */
  lemma {:induction false} OwnWriteIsCurrent(w: World, p: nat)
    requires WInv(w) && p in w.procs && w.procs[p].inst == w.canon && w.procs[p].mapped == |w.files.data|
    ensures Mapped(View(w, w.procs[p])) && Checked(w, p) == w.procs[p] && AfterCheck(w, p) == w
  {
    hide Settled, Floor, CheckLoadData, ProcOk, Exclusion;
    var st := View(w, w.procs[p]);
    SettledFacts(st);
    SettledIsCoherent(st);
    CheckedIsCoherent(st);
    CurrentSequence(st);
    assert w.procs[p := w.procs[p]] == w.procs;
  }

  lemma {:induction false} SettledIsCoherent(st: Store)
    requires Settled(st)
    ensures Coherent(st)
  {
    hide Coherent;
  }

  lemma {:induction false} CurrentSequence(st: Store)
    requires Settled(st)
    ensures Mapped(st) && !st.inst.needLoad && ParseMeta(st.files.meta).sequence == st.inst.info.sequence
  {
    hide LoadData, ParseMeta, OnDisk;
  }

  /** The event of importing one item alone; it draws the IV the import would. */
  function SetEvent(p: nat, items: seq<Rec>, at: Clock, ivs: IvSource): Event
    requires items != []
  {
    Do(p, Set(items[0].key, items[0].val, at(items[0].key)), _ => ivs(|items|))
  }

  ghost predicate ImportOk(w: World, p: nat, items: seq<Rec>, at: Clock, ivs: IvSource) {
    WInv(w) && Enabled(w, Do(p, Import(items, at), ivs)) && items != [] && Awake(w, p)
  }

  lemma {:induction false} FirstSetEnabled(w: World, p: nat, items: seq<Rec>, at: Clock, ivs: IvSource)
    requires ImportOk(w, p, items, at, ivs)
    ensures Enabled(w, SetEvent(p, items, at, ivs))
  {
    hide WInv, Checked, SetValue, Mapped, LegalSet, Stored;
  }

  lemma {:induction false} CheckedIsSound(w: World, p: nat)
    requires WInv(w) && p in w.procs && Awake(w, p)
    ensures Coherent(View(w, Checked(w, p)))
  {
    hide Coherent, Checked, InStep, Lo32, Exclusion, FloorDict;
    CanarySound(w, p);
    SettingsDoNotSettle(Store(w.cfg, w.files, w.canon), Checked(w, p).inst);
  }

  lemma {:induction false} SetSucceeds(st: Store, items: seq<Rec>, at: Clock, ivs: IvSource)
    requires Coherent(st) && Mapped(st) && items != [] && LegalImport(st, items, at, ivs)
    ensures SetValue(st, items[0].key, items[0].val, at(items[0].key), ivs(|items|)).ok
  {
    hide Coherent, SetValue, LegalSet, Stored;
    SetValueDid(st, items[0].key, items[0].val, at(items[0].key), ivs(|items|));
  }

  lemma {:induction false} LegalImportSize(st: Store, items: seq<Rec>, at: Clock, ivs: IvSource)
    requires Mapped(st) && items != [] && LegalImport(st, items, at, ivs)
    ensures |st.files.data| <= SIZE_LIMIT
  {
    hide SetValue, Stored, Pair;
  }

  /** What the first set leaves: the process is current, on the store the import goes on with. */
  lemma {:induction false} AfterFirstSet(w: World, p: nat, items: seq<Rec>, at: Clock, ivs: IvSource)
    requires ImportOk(w, p, items, at, ivs)
    ensures Enabled(w, SetEvent(p, items, at, ivs))
    ensures var next, st := Next(w, SetEvent(p, items, at, ivs)), View(w, Checked(w, p));
            var out := SetValue(st, items[0].key, items[0].val, at(items[0].key), ivs(|items|));
            && out.ok && WInv(next) && p in next.procs && next.procs[p].mode == Exclusive
            && next.past == Record(w.past, st, out.st) && Awake(next, p)
            && Checked(next, p) == next.procs[p] && AfterCheck(next, p) == next
            && View(next, next.procs[p]) == out.st && Mapped(out.st)
  {
    hide WInv, Checked, SetValue, LegalSet, Stored, CheckLoadData, Mapped, LegalImport;
    FirstSetEnabled(w, p, items, at, ivs);
    var e := SetEvent(p, items, at, ivs);
    var next, st := Next(w, e), View(w, Checked(w, p));
    WriteKeeps(w, p, e.op, e.ivs);
    SetValueMapped(st, items[0].key, items[0].val, at(items[0].key), ivs(|items|));
    CheckedMode(w, p);
    OwnWriteIsCurrent(next, p);
    CheckedIsSound(w, p);
    SetSucceeds(st, items, at, ivs);
  }

  lemma {:induction false} CheckedMode(w: World, p: nat)
    requires p in w.procs
    ensures Checked(w, p).mode == w.procs[p].mode
  {
    hide CheckLoadData, ParseMeta;
  }

  lemma {:induction false} RestIsOk(w: World, p: nat, items: seq<Rec>, at: Clock, ivs: IvSource)
    requires ImportOk(w, p, items, at, ivs) && |items| > 1
    ensures Enabled(w, SetEvent(p, items, at, ivs))
    ensures ImportOk(Next(w, SetEvent(p, items, at, ivs)), p, items[1..], at, ivs)
  {
    hide WInv, Checked, SetValue, LegalSet, Stored, CheckLoadData, Mapped, Next, Record, AfterCheck, SetEvent;
    AfterFirstSet(w, p, items, at, ivs);
    var st := View(w, Checked(w, p));
    LegalImportSize(SetValue(st, items[0].key, items[0].val, at(items[0].key), ivs(|items|)).st, items[1..], at, ivs);
  }

  lemma {:induction false} OneItem(h: History, st: Store, items: seq<Rec>, at: Clock, ivs: IvSource)
    requires |items| == 1 && Mapped(st)
    requires SetValue(st, items[0].key, items[0].val, at(items[0].key), ivs(|items|)).ok
    ensures var next := SetValue(st, items[0].key, items[0].val, at(items[0].key), ivs(|items|)).st;
            ImportItems(st, items, at, ivs).st == next && ImportRecord(h, st, items, at, ivs) == Record(h, st, next)
  {
    hide SetValue, Record, Mapped;
    SetValueMapped(st, items[0].key, items[0].val, at(items[0].key), ivs(|items|));
    var next := SetValue(st, items[0].key, items[0].val, at(items[0].key), ivs(|items|)).st;
    assert items[1..] == [];
    assert ImportItems(next, [], at, ivs).st == next;
  }

  /** The first set, then the import of the rest, is the import. */
  lemma {:induction false} ImportUnfolds(w: World, p: nat, items: seq<Rec>, at: Clock, ivs: IvSource)
    requires ImportOk(w, p, items, at, ivs)
    ensures Enabled(w, SetEvent(p, items, at, ivs))
    ensures var next := Next(w, SetEvent(p, items, at, ivs));
            && (|items| == 1 ==> Next(w, Do(p, Import(items, at), ivs)) == next)
            && (|items| > 1 ==>
                  && ImportOk(next, p, items[1..], at, ivs)
                  && Next(w, Do(p, Import(items, at), ivs)) == Next(next, Do(p, Import(items[1..], at), ivs)))
  {
    hide WInv, Checked, SetValue, LegalSet, Stored, CheckLoadData, Mapped, LegalImport, Record, AfterCheck;
    AfterFirstSet(w, p, items, at, ivs);
    if |items| > 1 {
      RestIsOk(w, p, items, at, ivs);
    } else {
      OneItem(w.past, View(w, Checked(w, p)), items, at, ivs);
    }
  }

  /**
   An import, whatever it holds, is the valid run of its sets: same files, same memory,
   same history. So it is linearizable like them and may rewrite once per item.
   */
  lemma {:induction false} ImportIsSets(w: World, p: nat, items: seq<Rec>, at: Clock, ivs: IvSource)
    requires ImportOk(w, p, items, at, ivs)
    ensures var run := SetEvents(p, items, at, ivs);
            ValidRun(w, run) && RunWorld(w, run) == Next(w, Do(p, Import(items, at), ivs))
    decreases |items|
  {
    hide Enabled, Next, WInv;
    ImportUnfolds(w, p, items, at, ivs);
    var run := SetEvents(p, items, at, ivs);
    assert run[0] == SetEvent(p, items, at, ivs) && run[1..] == SetEvents(p, items[1..], at, ivs);
    if |items| > 1 {
      ImportIsSets(Next(w, SetEvent(p, items, at, ivs)), p, items[1..], at, ivs);
    }
  }

  function SetEvents(p: nat, items: seq<Rec>, at: Clock, ivs: IvSource): seq<Event>
    decreases |items|
  {
    if items == [] then [] else [SetEvent(p, items, at, ivs)] + SetEvents(p, items[1..], at, ivs)
  }

  lemma {:induction false} ImportKeeps(w: World, p: nat, items: seq<Rec>, at: Clock, ivs: IvSource)
    requires ImportOk(w, p, items, at, ivs)
    ensures var e := Do(p, Import(items, at), ivs);
            && WInv(Next(w, e)) && Abstract(Next(w, e)) == SpecNext(Abstract(w), e)
    decreases |items|
  {
    hide WInv, Next, Abstract, Enabled, SpecSet;
    var e := SetEvent(p, items, at, ivs);
    ImportUnfolds(w, p, items, at, ivs);
    WriteKeeps(w, p, e.op, e.ivs);
    if |items| > 1 {
      ImportKeeps(Next(w, e), p, items[1..], at, ivs);
    }
    ImportSpec(Abstract(w), p, items, at, ivs);
  }

  lemma {:induction false} ImportSpec(s: SpecState, p: nat, items: seq<Rec>, at: Clock, ivs: IvSource)
    requires items != []
    ensures var whole, first := Do(p, Import(items, at), ivs), SpecNext(s, SetEvent(p, items, at, ivs));
            && (|items| == 1 ==> SpecNext(s, whole) == first)
            && SpecNext(s, whole) == SpecNext(first, Do(p, Import(items[1..], at), ivs))
  {
    hide SpecSet;
    if p in s.seconds {
      var a := SpecSet(Abs(s.dict, s.expire, s.seconds[p]), items[0].key, items[0].val, at(items[0].key));
      assert SpecImport(a, [], at) == a;
      assert |items| == 1 ==> items[1..] == [];
    }
  }

  lemma {:induction false} DoKeeps(w: World, p: nat, op: Op, ivs: IvSource)
    requires WInv(w) && Enabled(w, Do(p, op, ivs)) && Awake(w, p)
    ensures WInv(Next(w, Do(p, op, ivs)))
    ensures Abstract(Next(w, Do(p, op, ivs))) == SpecNext(Abstract(w), Do(p, op, ivs))
  {
    hide WInv, Next, Abstract, SpecNext, Legal, Checked;
    if op.Import? && op.items != [] {
      ImportKeeps(w, p, op.items, op.at, ivs);
    } else {
      WriteKeeps(w, p, op, ivs);
    }
  }

  lemma {:induction false} LockKeeps(w: World, e: Event)
    requires WInv(w) && Enabled(w, e) && (e.Acquire? || e.Release?)
    ensures WInv(Next(w, e)) && Abstract(Next(w, e)) == Abstract(w)
  {
    hide Committed, InStep, Lo32;
    var w' := Next(w, e);
    CommittedCongruent(w, w');
    InStepOfMode(w, w.procs[e.p], w'.procs[e.p].mode);
    ProcCongruent(w, w', w'.procs[e.p]);
    OthersUntouched(w, w', e.p);
    assert Abstract(w').seconds == Abstract(w).seconds;
  }

  lemma {:induction false} InStepOfMode(w: World, pr: Proc, mode: Mode)
    ensures InStep(w, pr.(mode := mode)) == InStep(w, pr)
  {
    hide Carries;
  }

  lemma {:induction false} DropCacheKeeps(w: World, p: nat)
    requires Enabled(w, Event.DropCache(p)) && WInv(w)
    ensures WInv(Next(w, Event.DropCache(p))) && Abstract(Next(w, Event.DropCache(p))) == Abstract(w)
  {
    hide Committed, InStep, Lo32;
    var w' := Next(w, Event.DropCache(p));
    CommittedCongruent(w, w');
    OthersUntouched(w, w', p);
    ExclusionKept(w, w', p);
    assert Abstract(w').seconds == Abstract(w).seconds;
  }

  lemma {:induction false} OpenKeeps(w: World, p: nat)
    requires WInv(w) && Enabled(w, Open(p))
    ensures WInv(Next(w, Open(p))) && Abstract(Next(w, Open(p))) == SpecNext(Abstract(w), Open(p))
  {
    hide Committed, InStep, Lo32, LoadData, ZERO_INFO;
    var w' := Next(w, Open(p));
    CommittedSequence(w);
    ReloadCommitted(w, Blank(w.canon.crypt));
    CommittedCongruent(w, w');
    var pr := w'.procs[p];
    InStepOfSettings(w, pr);
    ProcCongruent(w, w', pr);
    OthersUntouched(w, w', p);
    assert Abstract(w').seconds == Abstract(w).seconds[p := 0];
  }

  lemma {:induction false} InStepOfSettings(w: World, pr: Proc)
    requires Committed(w) && SameMemory(pr.inst, w.canon) && pr.mapped == |w.files.data|
    ensures InStep(w, pr)
  {
    hide Carries, Settled, Floor;
    SettledFacts(Store(w.cfg, w.files, w.canon));
    SettledCarries(Store(w.cfg, w.files, w.canon));
  }

  /** Every step keeps the invariant and does to the shared map what it says. */
  lemma {:induction false} StepKeeps(w: World, e: Event)
    requires WInv(w) && Enabled(w, e) && Timely(w, e)
    ensures WInv(Next(w, e)) && Abstract(Next(w, e)) == SpecNext(Abstract(w), e)
  {
    hide WInv, Abstract;
    match e
    case Acquire(_, _) => LockKeeps(w, e);
    case Release(_) => LockKeeps(w, e);
    case Get(p, _, _) => CheckKeeps(w, p);
    case Do(p, op, ivs) => DoKeeps(w, p, op, ivs);
    case DropCache(p) => DropCacheKeeps(w, p);
    case Open(p) => OpenKeeps(w, p);
  }

  // ---- runs ----

  ghost predicate ValidRun(w: World, run: seq<Event>)
    decreases |run|
  {
    run == [] || (Enabled(w, run[0]) && ValidRun(Next(w, run[0]), run[1..]))
  }

  ghost function RunWorld(w: World, run: seq<Event>): World
    requires ValidRun(w, run)
    decreases |run|
  {
    if run == [] then w else RunWorld(Next(w, run[0]), run[1..])
  }

  /** Whenever a process comes to the files in the run, it is awake. */
  ghost predicate TimelyRun(w: World, run: seq<Event>)
    requires ValidRun(w, run)
    decreases |run|
  {
    run == [] || (Timely(w, run[0]) && TimelyRun(Next(w, run[0]), run[1..]))
  }

  lemma {:induction false} RunsJoin(w: World, a: seq<Event>, b: seq<Event>)
    requires ValidRun(w, a) && ValidRun(RunWorld(w, a), b)
    ensures ValidRun(w, a + b)
    ensures RunWorld(w, a + b) == RunWorld(RunWorld(w, a), b)
    decreases |a|
  {
    hide Enabled, Next;
    if a == [] {
      assert a + b == b;
    } else {
      assert (a + b)[1..] == a[1..] + b;
      RunsJoin(Next(w, a[0]), a[1..], b);
    }
  }

  lemma {:induction false} TimelyRunsJoin(w: World, a: seq<Event>, b: seq<Event>)
    requires ValidRun(w, a) && ValidRun(RunWorld(w, a), b)
    requires TimelyRun(w, a) && TimelyRun(RunWorld(w, a), b)
    ensures ValidRun(w, a + b) && TimelyRun(w, a + b)
    decreases |a|
  {
    hide Enabled, Next, Timely;
    RunsJoin(w, a, b);
    if a == [] {
      assert a + b == b;
    } else {
      assert (a + b)[1..] == a[1..] + b;
      TimelyRunsJoin(Next(w, a[0]), a[1..], b);
    }
  }

  /** Every get of the run returns what the one shared map holds at that point of the run. */
  ghost predicate Linearized(w: World, s: SpecState, run: seq<Event>)
    requires ValidRun(w, run)
    decreases |run|
  {
    run == [] ||
    (&& (run[0].Get? ==> Result(w, run[0].p, run[0].key, run[0].now) == Value(s.dict, s.expire, run[0].key, run[0].now))
     && Linearized(Next(w, run[0]), SpecNext(s, run[0]), run[1..]))
  }

  /** History only grows. */
  lemma {:induction false} ImportRecordGrows(h: History, st: Store, items: seq<Rec>, at: Clock, ivs: IvSource)
    requires Mapped(st)
    ensures ImportRecord(h, st, items, at, ivs).epoch >= h.epoch
    decreases |items|
  {
    hide SetValue, Mapped;
    if items != [] {
      SetValueMapped(st, items[0].key, items[0].val, at(items[0].key), ivs(|items|));
      var next := SetValue(st, items[0].key, items[0].val, at(items[0].key), ivs(|items|)).st;
      ImportRecordGrows(Record(h, st, next), next, items[1..], at, ivs);
    }
  }

  lemma {:induction false} EpochGrows(w: World, e: Event)
    requires Enabled(w, e)
    ensures Next(w, e).past.epoch >= w.past.epoch
  {
    hide Checked, Act, LoadData, CheckLoadData, Legal, ImportRecord;
    if e.Do? && e.op.Import? {
      ImportRecordGrows(w.past, View(w, Checked(w, e.p)), e.op.items, e.op.at, e.ivs);
    }
  }

  lemma {:induction false} RunGrows(w: World, run: seq<Event>)
    requires ValidRun(w, run)
    ensures RunWorld(w, run).past.epoch >= w.past.epoch
    decreases |run|
  {
    hide Next, Enabled;
    if run != [] {
      EpochGrows(w, run[0]);
      RunGrows(Next(w, run[0]), run[1..]);
    }
  }

  /** A run at whose end fewer than 2^32 rewrites were ever made lets nobody oversleep. */
  lemma {:induction false} FewRewritesAreTimely(w: World, run: seq<Event>)
    requires ValidRun(w, run) && RunWorld(w, run).past.epoch < U32
    ensures TimelyRun(w, run)
    decreases |run|
  {
    hide Next, Enabled;
    RunGrows(w, run);
    if run != [] {
      FewRewritesAreTimely(Next(w, run[0]), run[1..]);
    }
  }

  lemma {:induction false} GetReadsCommitted(w: World, p: nat, key: Key, now: uint32)
    requires WInv(w) && p in w.procs && Awake(w, p)
    ensures Result(w, p, key, now) == Value(w.canon.dict, w.canon.expire, key, now)
  {
    hide Committed, InStep, Checked, Value;
    CanarySound(w, p);
  }

  /**
   Linearizability: in every crash-free run, however long, of any number of processes none
   of which sleeps through 2^32 rewrites, every get returns the last writes in lock order.
   */
  lemma {:induction false} RunIsLinearizable(w: World, run: seq<Event>)
    requires WInv(w) && ValidRun(w, run) && TimelyRun(w, run)
    ensures Linearized(w, Abstract(w), run)
    ensures WInv(RunWorld(w, run))
    decreases |run|
  {
    hide WInv, Abstract, Next, SpecNext, Enabled, Result, Value, Awake;
    if run != [] {
      StepKeeps(w, run[0]);
      if run[0].Get? {
        GetEnabled(w, run[0]);
        GetReadsCommitted(w, run[0].p, run[0].key, run[0].now);
        AbstractDict(w);
      }
      RunIsLinearizable(Next(w, run[0]), run[1..]);
    }
  }

  lemma {:induction false} GetEnabled(w: World, e: Event)
    requires Enabled(w, e) && e.Get?
    ensures e.p in w.procs
  {
  }

  lemma {:induction false} AbstractDict(w: World)
    ensures Abstract(w).dict == w.canon.dict && Abstract(w).expire == w.canon.expire
  {
  }

  // ---- every run is a run of single writes ----

  predicate SingleEvent(e: Event) {
    e.Do? ==> Single(e.op)
  }

  /** The run with every import written out as its sets. */
  function Expand(run: seq<Event>): seq<Event>
    decreases |run|
  {
    if run == [] then [] else ExpandEvent(run[0]) + Expand(run[1..])
  }

  function ExpandEvent(e: Event): seq<Event> {
    if e.Do? && e.op.Import? && e.op.items != [] then SetEvents(e.p, e.op.items, e.op.at, e.ivs) else [e]
  }

  lemma {:induction false} SetsAreTimely(w: World, p: nat, items: seq<Rec>, at: Clock, ivs: IvSource)
    requires ImportOk(w, p, items, at, ivs)
    ensures var run := SetEvents(p, items, at, ivs);
            ValidRun(w, run) && TimelyRun(w, run)
    decreases |items|
  {
    hide Enabled, Next, WInv, Awake;
    ImportIsSets(w, p, items, at, ivs);
    ImportUnfolds(w, p, items, at, ivs);
    var run, first := SetEvents(p, items, at, ivs), SetEvent(p, items, at, ivs);
    assert run[0] == first && run[1..] == SetEvents(p, items[1..], at, ivs);
    if |items| > 1 {
      SetsAreTimely(Next(w, first), p, items[1..], at, ivs);
    } else {
      assert run[1..] == [];
    }
  }

  lemma {:induction false} ExpandedEvent(w: World, e: Event)
    requires WInv(w) && Enabled(w, e) && Timely(w, e) && (e.Do? ==> e.p in w.procs)
    ensures var run := ExpandEvent(e);
            ValidRun(w, run) && RunWorld(w, run) == Next(w, e) && TimelyRun(w, run)
  {
    hide WInv, Enabled, Next, Awake;
    if e.Do? && e.op.Import? && e.op.items != [] {
      ImportIsSets(w, e.p, e.op.items, e.op.at, e.ivs);
      SetsAreTimely(w, e.p, e.op.items, e.op.at, e.ivs);
    } else {
      assert [e][1..] == [];
      assert RunWorld(Next(w, e), []) == Next(w, e);
    }
  }

  lemma {:induction false} ExpandIsRun(w: World, run: seq<Event>)
    requires WInv(w) && ValidRun(w, run) && TimelyRun(w, run)
    ensures ValidRun(w, Expand(run)) && RunWorld(w, Expand(run)) == RunWorld(w, run) && TimelyRun(w, Expand(run))
    ensures forall e | e in Expand(run) :: SingleEvent(e)
    decreases |run|
  {
    hide WInv, Enabled, Next, Awake, ExpandEvent, SingleEvent;
    if run != [] {
      var e := run[0];
      DoIsAttached(w, e);
      ExpandedEvent(w, e);
      ExpandedSingle(w, e);
      StepKeeps(w, e);
      ExpandIsRun(Next(w, e), run[1..]);
      RunsJoin(w, ExpandEvent(e), Expand(run[1..]));
      TimelyRunsJoin(w, ExpandEvent(e), Expand(run[1..]));
    }
  }

  lemma {:induction false} DoIsAttached(w: World, e: Event)
    requires Enabled(w, e)
    ensures e.Do? ==> e.p in w.procs && !e.op.DropCache?
  {
  }

  lemma {:induction false} ExpandedSingle(w: World, e: Event)
    requires Enabled(w, e)
    ensures forall f | f in ExpandEvent(e) :: SingleEvent(f)
  {
    hide Legal, Checked;
    if e.Do? && e.op.Import? && e.op.items != [] {
      SetsAreSingle(e.p, e.op.items, e.op.at, e.ivs);
    }
  }

  lemma {:induction false} SetsAreSingle(p: nat, items: seq<Rec>, at: Clock, ivs: IvSource)
    ensures forall e | e in SetEvents(p, items, at, ivs) :: SingleEvent(e)
    decreases |items|
  {
    if items != [] {
      SetsAreSingle(p, items[1..], at, ivs);
    }
  }

  /** A newly created store with no process attached yet. */
  function FreshWorld(cfg: Config, crypt: Option<Cfb.Cipher>): World {
    World(cfg, FreshFiles(cfg.page), map[], History(0, map[]), Blank(crypt), false)
  }

  lemma {:induction false} FreshWorldInv(cfg: Config, crypt: Option<Cfb.Cipher>)
    requires cfg.multiProcess
    ensures WInv(FreshWorld(cfg, crypt)) && Abstract(FreshWorld(cfg, crypt)) == SpecState(map[], false, map[])
  {
    hide Settled, Floor;
    FreshIsSettled(cfg, crypt);
  }

  /**
   In every reachable state: writers exclude everyone else, no stale mapping was ever
   used, a fresh open reads the committed map, and the confirmed region under the current
   one is intact and decodes, so a torn append can be rolled back to it.
   */
  lemma {:induction false} ReachableIsSafe(cfg: Config, crypt: Option<Cfb.Cipher>, run: seq<Event>)
    requires cfg.multiProcess && ValidRun(FreshWorld(cfg, crypt), run) && TimelyRun(FreshWorld(cfg, crypt), run)
    ensures var w := RunWorld(FreshWorld(cfg, crypt), run);
            && Exclusion(w) && !w.fault
            && |w.files.data| >= 4
            && (var again := LoadData(w.cfg, w.files, Blank(w.canon.crypt));
                again.Loaded? && again.inst.dict == w.canon.dict)
            && Settled(Store(w.cfg, w.files, w.canon)) && Floor(Store(w.cfg, w.files, w.canon))
            && FloorDict(Store(w.cfg, w.files, w.canon)) == w.past.rewritten
  {
    hide LoadData, Exclusion, Settled, Floor, ProcOk, ZERO_INFO;
    FreshWorldInv(cfg, crypt);
    RunIsLinearizable(FreshWorld(cfg, crypt), run);
    var w := RunWorld(FreshWorld(cfg, crypt), run);
    ReloadCommitted(w, Blank(w.canon.crypt));
  }

  /**
   After every run, a process that dies inside an append, wherever it dies before the
   last store, leaves files that open to the committed map or to the map of the last
   rewrite; nothing is discarded and nothing needs salvage.
   */
  lemma {:induction false} CrashAfterRun(
      cfg: Config, crypt: Option<Cfb.Cipher>, run: seq<Event>, pair: seq<byte>, j: nat, crcSlot: Option<uint32>)
    requires cfg.multiProcess && ValidRun(FreshWorld(cfg, crypt), run) && TimelyRun(FreshWorld(cfg, crypt), run)
    requires var w := RunWorld(FreshWorld(cfg, crypt), run);
             FastOk(w.canon) && 4 + w.canon.actual + |pair| <= |w.files.data| && j <= |pair|
    ensures var w := RunWorld(FreshWorld(cfg, crypt), run);
            var st := Store(w.cfg, w.files, w.canon);
            && Mapped(st)
            && (var load := LoadData(w.cfg, CrashedAppend(st, pair, j, crcSlot), Blank(w.canon.crypt));
                && load.Loaded? && !load.inst.needFull
                && (load.inst.dict == w.canon.dict || load.inst.dict == w.past.rewritten))
  {
    hide LoadData, Exclusion, Settled, Floor, ProcOk, ZERO_INFO, CrashedAppend, RunWorld;
    var w := RunWorld(FreshWorld(cfg, crypt), run);
    ReachableIsSafe(cfg, crypt, run);
    SettledFacts(Store(w.cfg, w.files, w.canon));
    CoherentFacts(Store(w.cfg, w.files, w.canon));
    CrashInAppend(Store(w.cfg, w.files, w.canon), pair, j, crcSlot, w.cfg, Blank(w.canon.crypt));
  }
}
