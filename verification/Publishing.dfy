/**
 What a Reader's probe relies on, for every run of the processes: the canaries they commit
 are ordered versions, and a snapshot built from the files of a version is its map.
 */
module Publishing {
  import opened Bytes
  import opened Crc32
  import opened LogRegion
  import opened Meta
  import opened Store
  import opened Coherence
  import opened Operations
  import opened Recovery
  import opened Processes
  import Loading
  import Probe
  import Cfb

  datatype Snapshot = Snapshot(info: MetaInfo, dict: Dict, expire: bool) | NoSnapshot

  /** buildSnapshot: no rollback and no salvage, the recorded region or an error. */
  function BuildSnapshot(f: Files, crypt: Option<Cfb.Cipher>): Snapshot {
    if |f.meta| < META_SIZE then NoSnapshot
    else
      var info := ParseMeta(f.meta);
      if info.version > VERSION_FLAG || !CrcValid(f, ReadActualSize(f, info), info.crcDigest) then NoSnapshot
      else
        match Parse(Plain(crypt, info.iv, Region(f, ReadActualSize(f, info))))
        case Done(d) => Snapshot(info, d, info.version >= VERSION_FLAG && ExpireEnabled(info))
        case Stuck(_) => NoSnapshot
  }

  /** A snapshot taken between writes is the committed map, under the key it was written with. */
  lemma {:induction false} SnapshotIsCommitted(w: World)
    requires Committed(w)
    ensures BuildSnapshot(w.files, w.canon.crypt) == Snapshot(w.canon.info, w.canon.dict, w.canon.expire)
  {
    hide LoadData, ParseMeta, Parse, Plain, Checksum, FloorDict, Floor;
    CoherentFacts(Store(w.cfg, w.files, w.canon));
  }

  /** A store older than the size field is read by its header, like a load does. */
  lemma {:induction false} LegacySnapshot(region: seq<byte>, rest: seq<byte>, meta: seq<byte>)
    requires |region| < U32 && |meta| >= 112 && Parse(region).Done?
    requires ParseMeta(meta).version <= 2 && ParseMeta(meta).crcDigest == Checksum(region)
    ensures BuildSnapshot(Files(Le32(|region|) + region + rest, meta), None) ==
            Snapshot(ParseMeta(meta), Parse(region).dict, false)
  {
    hide ParseMeta, Parse, Checksum;
    Loading.LegacySize(Le32(|region|) + region + rest, region, rest);
  }

  /** A snapshot of a region with one changed byte is refused: there is no going back and no salvage here. */
  lemma {:induction false} DamagedSnapshot(w: World, k: nat, x: byte)
    requires Committed(w) && k < w.canon.actual
    ensures 4 + w.canon.actual <= |w.files.data|
    ensures x != w.files.data[4 + k] ==> BuildSnapshot(Loading.Damaged(w.files, k, x), w.canon.crypt) == NoSnapshot
  {
    hide LoadData, ParseMeta, Parse, Plain, Checksum, FloorDict, Floor;
    var st := Store(w.cfg, w.files, w.canon);
    CommittedCanary(w);
    CommittedSize(w);
    if x != w.files.data[4 + k] {
      Loading.DamageShows(w.files, k, x, w.canon.actual, w.canon.crc);
    }
  }

  /** Something is in the region only at the version that records its size. */
  lemma {:induction false} CommittedSize(w: World)
    requires Committed(w)
    ensures Loading.Intact(w.files, w.canon.actual, w.canon.crc) && ParseMeta(w.files.meta) == w.canon.info
    ensures ReadActualSize(w.files, w.canon.info) == w.canon.actual
  {
    hide LoadData, ParseMeta, Parse, Plain, Checksum, FloorDict, Floor;
  }

  // ---- versions ----

  /** One version of the contents: its canary, with the rewrites counted, and its map. */
  datatype Version = Version(canary: Probe.Canary, dict: Dict, expire: bool)

  function VersionOf(w: World): Version {
    Version(Probe.Canary(w.canon.crc, w.canon.actual, w.past.epoch), w.canon.dict, w.canon.expire)
  }

  function Canaries(vs: seq<Version>): seq<Probe.Canary> {
    seq(|vs|, i requires 0 <= i < |vs| => vs[i].canary)
  }

  /** The versions committed along a run, after those of vs. */
  ghost function Versions(vs: seq<Version>, w: World, run: seq<Event>): seq<Version>
    requires ValidRun(w, run)
    decreases |run|
  {
    if run == [] then vs
    else
      var next := Next(w, run[0]);
      Versions(if VersionOf(next) == VersionOf(w) then vs else vs + [VersionOf(next)], next, run[1..])
  }

  /** A single write changes nothing a reader could see, or is a write the probe's machine allows. */
  lemma {:induction false} WriteIsVersion(w: World, p: nat, op: Op, ivs: IvSource)
    requires WInv(w) && Enabled(w, Do(p, op, ivs)) && Awake(w, p) && Single(op)
    ensures var next := Next(w, Do(p, op, ivs));
            VersionOf(next) == VersionOf(w) || Probe.NextVersion(VersionOf(w).canary, VersionOf(next).canary)
  {
    hide Settled, Floor, InStep, Checked, Lo32, CheckLoadData, Act, Legal, Spec, Exclusion, PastAfter;
    hide FloorDict, Mapped;
    hide ProcOk;
    var pr := Checked(w, p);
    var st := View(w, pr);
    assert ProcOk(w, w.procs[p]);
    CanarySound(w, p);
    CommittedSequence(w);
    SettingsDoNotSettle(Store(w.cfg, w.files, w.canon), pr.inst);
    SingleRecord(w.past, st, op, ivs);
    WriteIsCommitted(w, st, op, ivs);
    SequenceMoves(st.inst.info.sequence);
  }

  lemma {:induction false} StepIsVersion(w: World, e: Event)
    requires WInv(w) && Enabled(w, e) && Timely(w, e) && SingleEvent(e)
    ensures var next := Next(w, e);
            VersionOf(next) == VersionOf(w) || Probe.NextVersion(VersionOf(w).canary, VersionOf(next).canary)
  {
    hide WInv, Checked, LoadData, Legal, Act, PastAfter, Probe.NextVersion;
    if e.Do? {
      WriteIsVersion(w, e.p, e.op, e.ivs);
    }
  }

  lemma {:induction false} VersionsOrdered(vs: seq<Version>, w: World, run: seq<Event>)
    requires WInv(w) && ValidRun(w, run) && TimelyRun(w, run) && forall e | e in run :: SingleEvent(e)
    requires vs != [] && Probe.Ordered(Canaries(vs)) && vs[|vs| - 1] == VersionOf(w)
    ensures var all := Versions(vs, w, run);
            && all != [] && Probe.Ordered(Canaries(all)) && all[|all| - 1] == VersionOf(RunWorld(w, run))
    decreases |run|
  {
    hide WInv, Enabled, Next, Awake, Probe.NextVersion, Probe.Ordered, SingleEvent, VersionOf;
    if run != [] {
      var next := Next(w, run[0]);
      StepKeeps(w, run[0]);
      StepIsVersion(w, run[0]);
      var more := if VersionOf(next) == VersionOf(w) then vs else vs + [VersionOf(next)];
      if VersionOf(next) != VersionOf(w) {
        Probe.OrderedExtends(Canaries(vs), VersionOf(next).canary);
        assert Canaries(more) == Canaries(vs) + [VersionOf(next).canary];
      }
      VersionsOrdered(more, next, run[1..]);
    }
  }

  /**
   For every run of the processes, imports written out: the committed canaries are
   versions in the probe's sense, the live meta carries the last of them, and a snapshot
   built now is that version's map.
   */
  lemma {:induction false} RunsPublishVersions(cfg: Config, crypt: Option<Cfb.Cipher>, run: seq<Event>)
    requires var w := FreshWorld(cfg, crypt); cfg.multiProcess && ValidRun(w, run) && TimelyRun(w, run)
    ensures var w, sets := FreshWorld(cfg, crypt), Expand(run);
            && ValidRun(w, sets) && RunWorld(w, sets) == RunWorld(w, run)
            && var vs, last := Versions([VersionOf(w)], w, sets), RunWorld(w, run);
            && vs != [] && Probe.Ordered(Canaries(vs))
            && BuildSnapshot(last.files, last.canon.crypt)
               == Snapshot(last.canon.info, vs[|vs| - 1].dict, vs[|vs| - 1].expire)
            && var c, info := vs[|vs| - 1].canary, last.canon.info;
            && c.crc == info.crcDigest && c.actual == info.actualSize && Lo32(c.sequence) == info.sequence
  {
    hide WInv, ValidRun, RunWorld, TimelyRun, Expand, Versions, BuildSnapshot, Lo32, ZERO_INFO;
    var w := FreshWorld(cfg, crypt);
    FreshWorldInv(cfg, crypt);
    ExpandIsRun(w, run);
    assert Canaries([VersionOf(w)]) == [VersionOf(w).canary];
    VersionsOrdered([VersionOf(w)], w, Expand(run));
    RunIsLinearizable(w, run);
    var last := RunWorld(w, run);
    InvIsCommitted(last);
    SnapshotIsCommitted(last);
    CommittedCanary(last);
  }

  lemma {:induction false} InvIsCommitted(w: World)
    requires WInv(w)
    ensures Committed(w)
  {
    hide Committed, Exclusion, ProcOk;
  }

  lemma {:induction false} CommittedCanary(w: World)
    requires Committed(w)
    ensures w.canon.crc == w.canon.info.crcDigest && w.canon.actual == w.canon.info.actualSize
    ensures w.canon.info.sequence == Lo32(w.past.epoch)
  {
    hide Floor, FloorDict, Lo32;
    SettledFacts(Store(w.cfg, w.files, w.canon));
  }
}
