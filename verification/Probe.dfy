/**
 The lockless freshness probe of a Reader: goroutines compare three fields of the live
 meta with the fields of the published snapshot, one load at a time, while writers store
 those fields one at a time and a reload publishes a snapshot one store at a time. A
 goroutine that finds the canary moved takes the reload mutex, probes again, and reloads
 under the shared flock.
 */
module Probe {
  import opened Bytes

  /**
   The change canary of one version of the contents. The sequence counts rewrites without
   bound; the field of the meta holds its low 32 bits, and only those are compared.
   */
  datatype Canary = Canary(crc: nat, actual: nat, sequence: nat)

  /** A write under the exclusive flock: crc, then sequence on a rewrite, then actualSize. */
  datatype Writer = NoWriter | StoreCrc(c: Canary) | StoreSequence(c: Canary) | StoreActual(c: Canary) | Unlocking

  /** How far a reload under the shared flock is; the flock is dropped only after the last store. */
  datatype Stage = Built | SnapStored | CrcStored | ActualStored | SequenceStored

  /** The three loads of metaTuple, the three comparisons of tupleFresh, and their verdict. */
  datatype Probing =
    | Loading
    | ReadCrc(crc: nat)
    | ReadActual(crc: nat, actual: nat, seen: nat)
    | ReadAll(crc: nat, actual: nat, sequence: nat, seen: nat)
    | CrcMatched(actual: nat, sequence: nat, seen: nat)
    | ActualMatched(sequence: nat, seen: nat)
    | Fresh(seen: nat)
    | NotFresh

  /**
   A read from its first load to the snapshot it serves. `began` is the version committed
   when it started, `seen` the one committed when the size was loaded or the flock taken.
   */
  datatype Goroutine =
    | First(began: nat, probe: Probing)
    | Second(began: nat, probe: Probing)
    | Reloading(began: nat, version: nat, stage: Stage)
    | Reloaded(began: nat, seen: nat)
    | GaveUp(began: nat)
    | Ready(began: nat, seen: nat)
    | Served(version: nat, began: nat, seen: nat)
    | ServedStale(version: nat)

  datatype Mutex = Free | HeldBy(g: nat)

  /** Versions committed so far, the live meta, the published snapshot and its canary, and the readers. */
  datatype State = State(
    versions: seq<Canary>,
    live: Canary,
    writer: Writer,
    snap: nat,
    loaded: Canary,
    mutex: Mutex,
    goroutines: map<nat, Goroutine>)

  /** An append grows the region at the same sequence; a rewrite moves the sequence. */
  predicate NextVersion(a: Canary, b: Canary) {
    || (b.sequence == a.sequence && b.actual > a.actual)
    || b.sequence > a.sequence
  }

  predicate HasVersions(s: State) {
    |s.versions| > 0
  }

  function Last(s: State): nat
    requires HasVersions(s)
  {
    |s.versions| - 1
  }

  datatype Step =
    | BeginWrite(c: Canary)
    | WriterStep
    | Spawn(g: nat)
    | GoroutineStep(g: nat)
    | FailReload(g: nat)

  /** The shared flock is held while a goroutine reloads. */
  predicate Shared(s: State) {
    exists g :: g in s.goroutines && s.goroutines[g].Reloading?
  }

  /** What the mutex and the flock let a goroutine do next. */
  predicate MayGo(s: State, g: nat)
    requires g in s.goroutines
  {
    match s.goroutines[g]
    case First(_, NotFresh) => s.mutex.Free?
    case Second(_, NotFresh) => s.writer.NoWriter?
    case Reloading(_, v, _) => v < |s.versions|
    case _ => true
  }

  predicate Enabled(s: State, e: Step)
    requires HasVersions(s)
  {
    match e
    case BeginWrite(c) => s.writer.NoWriter? && !Shared(s) && NextVersion(s.versions[Last(s)], c)
    case WriterStep => !s.writer.NoWriter?
    case Spawn(g) => g !in s.goroutines
    case GoroutineStep(g) => g in s.goroutines && MayGo(s, g)
    case FailReload(g) => g in s.goroutines && s.goroutines[g].Reloading? && s.goroutines[g].stage.Built?
  }

  function WriterNext(s: State): State {
    match s.writer
    case NoWriter => s
    case StoreCrc(c) => s.(live := s.live.(crc := c.crc), writer := StoreSequence(c))
    case StoreSequence(c) => s.(live := s.live.(sequence := c.sequence), writer := StoreActual(c))
    case StoreActual(c) =>
      s.(live := s.live.(actual := c.actual), versions := s.versions + [c], writer := Unlocking)
    case Unlocking => s.(writer := NoWriter)
  }

  function ProbeNext(s: State, p: Probing): Probing
    requires HasVersions(s)
  {
    match p
    case Loading => ReadCrc(s.live.crc)
    case ReadCrc(crc) => ReadActual(crc, s.live.actual, Last(s))
    case ReadActual(crc, actual, seen) => ReadAll(crc, actual, s.live.sequence, seen)
    case ReadAll(crc, actual, sequence, seen) =>
      if crc == s.loaded.crc then CrcMatched(actual, sequence, seen) else NotFresh
    case CrcMatched(actual, sequence, seen) =>
      if actual == s.loaded.actual then ActualMatched(sequence, seen) else NotFresh
    case ActualMatched(sequence, seen) => if Lo32(sequence) == Lo32(s.loaded.sequence) then Fresh(seen) else NotFresh
    case _ => p
  }

  /** One store of reloadFrom by goroutine g; after the last one the flock is gone. */
  function PublishNext(s: State, g: nat, r: Goroutine): State
    requires r.Reloading? && r.version < |s.versions|
  {
    var c := s.versions[r.version];
    match r.stage
    case Built => At(s.(snap := r.version), g, r.(stage := SnapStored))
    case SnapStored => At(s.(loaded := s.loaded.(crc := c.crc)), g, r.(stage := CrcStored))
    case CrcStored => At(s.(loaded := s.loaded.(actual := c.actual)), g, r.(stage := ActualStored))
    case ActualStored => At(s.(loaded := s.loaded.(sequence := c.sequence)), g, r.(stage := SequenceStored))
    case SequenceStored => At(s, g, Reloaded(r.began, r.version))
  }

  function At(s: State, g: nat, r: Goroutine): State {
    s.(goroutines := s.goroutines[g := r])
  }

  function GoroutineNext(s: State, g: nat): State
    requires HasVersions(s) && g in s.goroutines && MayGo(s, g)
  {
    match s.goroutines[g]
    case First(began, Fresh(seen)) => At(s, g, Ready(began, seen))
    case First(began, NotFresh) => At(s, g, Second(began, Loading)).(mutex := HeldBy(g))
    case First(began, p) => At(s, g, First(began, ProbeNext(s, p)))
    case Second(began, Fresh(seen)) => At(s, g, Reloaded(began, seen))
    case Second(began, NotFresh) => At(s, g, Reloading(began, Last(s), Built))
    case Second(began, p) => At(s, g, Second(began, ProbeNext(s, p)))
    case Reloading(_, _, _) => PublishNext(s, g, s.goroutines[g])
    case Reloaded(began, seen) => At(s, g, Ready(began, seen)).(mutex := Free)
    case GaveUp(_) => At(s, g, ServedStale(s.snap)).(mutex := Free)
    case Ready(began, seen) => At(s, g, Served(s.snap, began, seen))
    case Served(_, _, _) => s
    case ServedStale(_) => s
  }

  function Next(s: State, e: Step): State
    requires HasVersions(s) && Enabled(s, e)
  {
    match e
    case BeginWrite(c) => s.(writer := StoreCrc(c))
    case WriterStep => WriterNext(s)
    case Spawn(g) => At(s, g, First(Last(s), Loading))
    case GoroutineStep(g) => GoroutineNext(s, g)
    case FailReload(g) => At(s, g, GaveUp(s.goroutines[g].began))
  }

  // ---- invariant ----

  /** Later versions have a later sequence, or the same one and a larger region. */
  predicate Ordered(versions: seq<Canary>) {
    forall i, j | 0 <= i < j < |versions| :: NextVersion(versions[i], versions[j])
  }

  /** The live meta is the last version, with the fields of the write in progress stored so far. */
  predicate LiveOk(s: State)
    requires HasVersions(s)
  {
    var last := s.versions[Last(s)];
    && s.live.actual == last.actual
    && match s.writer
       case NoWriter => s.live == last
       case StoreCrc(c) => s.live == last && NextVersion(last, c)
       case StoreSequence(c) => s.live == last.(crc := c.crc) && NextVersion(last, c)
       case StoreActual(c) => s.live == last.(crc := c.crc, sequence := c.sequence) && NextVersion(last, c)
       case Unlocking => s.live == last
  }

  /** Only the mutex holder probes again, reloads, or is about to give the mutex back. */
  predicate Inside(r: Goroutine) {
    r.Second? || r.Reloading? || r.Reloaded? || r.GaveUp?
  }

  predicate MutexOk(s: State) {
    forall g | g in s.goroutines && Inside(s.goroutines[g]) :: s.mutex == HeldBy(g)
  }

  /** The reload in progress, if any. */
  function Current(s: State): Goroutine {
    if s.mutex.HeldBy? && s.mutex.g in s.goroutines then s.goroutines[s.mutex.g] else GaveUp(0)
  }

  /** While a reload publishes, no write is in progress and its version is the last one. */
  predicate PublishedOk(s: State)
    requires HasVersions(s)
  {
    && s.snap <= Last(s)
    && var r := Current(s);
    if !r.Reloading? then s.loaded == s.versions[s.snap]
    else
      && s.writer.NoWriter? && r.version == Last(s)
      && (if r.stage.Built? then s.loaded == s.versions[s.snap] else s.snap == Last(s) && CanaryOk(s, r))
  }

  /** The fields of the published canary stored so far. */
  predicate CanaryOk(s: State, r: Goroutine)
    requires HasVersions(s) && r.Reloading?
  {
    var c := s.versions[Last(s)];
    match r.stage
    case Built => true
    case SnapStored => true
    case CrcStored => s.loaded.crc == c.crc
    case ActualStored => s.loaded.crc == c.crc && s.loaded.actual == c.actual
    case SequenceStored => s.loaded == c
  }

  predicate ProbeOk(s: State, began: nat, p: Probing)
    requires HasVersions(s)
  {
    match p
    case ReadActual(_, actual, seen) => began <= seen <= Last(s) && actual == s.versions[seen].actual
    case ReadAll(_, actual, sequence, seen) =>
      && began <= seen <= Last(s) && actual == s.versions[seen].actual
      && s.versions[seen].sequence <= sequence <= s.live.sequence
    case CrcMatched(actual, sequence, seen) =>
      && began <= seen <= Last(s) && actual == s.versions[seen].actual
      && s.versions[seen].sequence <= sequence <= s.live.sequence
    case ActualMatched(sequence, seen) =>
      && began <= seen <= Last(s) && s.snap <= Last(s)
      && s.versions[seen].sequence <= sequence <= s.live.sequence
      && (s.snap >= seen || s.versions[s.snap].actual == s.versions[seen].actual)
    case Fresh(seen) => began <= seen <= s.snap
    case _ => began <= Last(s)
  }

  predicate GoroutineOk(s: State, r: Goroutine)
    requires HasVersions(s)
  {
    match r
    case First(began, p) => ProbeOk(s, began, p)
    case Second(began, p) => ProbeOk(s, began, p)
    case Reloading(began, v, stage) => began <= v <= Last(s) && (stage != Built ==> v <= s.snap)
    case Reloaded(began, seen) => began <= seen <= s.snap
    case GaveUp(_) => true
    case Ready(began, seen) => began <= seen <= s.snap
    case Served(version, began, seen) => began <= seen <= version
    case ServedStale(_) => true
  }

  predicate Inv(s: State) {
    && HasVersions(s) && Ordered(s.versions) && LiveOk(s) && MutexOk(s) && PublishedOk(s)
    && (forall g | g in s.goroutines :: GoroutineOk(s, s.goroutines[g]))
  }

  // ---- every step keeps it ----

  lemma {:induction false} OrderedExtends(versions: seq<Canary>, c: Canary)
    requires |versions| > 0 && Ordered(versions) && NextVersion(versions[|versions| - 1], c)
    ensures Ordered(versions + [c])
  {
    var vs := versions + [c];
    forall i, j | 0 <= i < j < |vs|
      ensures NextVersion(vs[i], vs[j])
    {
      if j == |versions| && i < j - 1 {
        assert NextVersion(versions[i], versions[j - 1]);
      }
    }
  }

  /** What a goroutine knows stays true when versions are added and the snapshot moves to the last one. */
  lemma {:induction false} KnowledgeLasts(s: State, s': State, r: Goroutine)
    requires HasVersions(s) && HasVersions(s') && GoroutineOk(s, r)
    requires s.versions <= s'.versions && s.snap <= Last(s)
    requires s'.snap == s.snap || s'.snap == Last(s')
    requires s.live.sequence <= s'.live.sequence
    ensures GoroutineOk(s', r)
  {
  }

  lemma {:induction false} AllKnowledgeLasts(s: State, s': State, g: nat)
    requires HasVersions(s) && HasVersions(s') && s.snap <= Last(s)
    requires forall h | h in s.goroutines :: GoroutineOk(s, s.goroutines[h])
    requires s.versions <= s'.versions && (s'.snap == s.snap || s'.snap == Last(s'))
    requires s.live.sequence <= s'.live.sequence
    requires || s'.goroutines == s.goroutines
             || (s'.goroutines.Keys == s.goroutines.Keys + {g} && GoroutineOk(s', s'.goroutines[g]))
    requires forall h | h in s.goroutines && h != g :: h in s'.goroutines && s'.goroutines[h] == s.goroutines[h]
    ensures forall h | h in s'.goroutines :: GoroutineOk(s', s'.goroutines[h])
  {
    hide GoroutineOk;
    forall h | h in s'.goroutines
      ensures GoroutineOk(s', s'.goroutines[h])
    {
      if h in s.goroutines && s'.goroutines[h] == s.goroutines[h] {
        KnowledgeLasts(s, s', s.goroutines[h]);
      }
    }
  }

  lemma {:induction false} WriterKeeps(s: State)
    requires Inv(s) && !s.writer.NoWriter?
    ensures Inv(WriterNext(s))
  {
    hide GoroutineOk;
    var s' := WriterNext(s);
    if s.writer.StoreActual? {
      OrderedExtends(s.versions, s.writer.c);
    }
    AllKnowledgeLasts(s, s', 0);
  }

  /** A goroutine that reloads holds the mutex. */
  lemma {:induction false} ReloaderIsCurrent(s: State)
    requires MutexOk(s)
    ensures Shared(s) <==> Current(s).Reloading?
  {
    if s.mutex.HeldBy? && Current(s).Reloading? {
      assert s.mutex.g in s.goroutines;
    }
  }

  lemma {:induction false} BeginKeeps(s: State, c: Canary)
    requires Inv(s) && Enabled(s, BeginWrite(c))
    ensures Inv(Next(s, BeginWrite(c)))
  {
    hide GoroutineOk;
    ReloaderIsCurrent(s);
    AllKnowledgeLasts(s, Next(s, BeginWrite(c)), 0);
  }

  /** The published snapshot is fewer than 2^32 rewrites behind the live meta. */
  predicate Awake(s: State) {
    s.snap < |s.versions| ==> s.live.sequence < s.versions[s.snap].sequence + U32
  }

  lemma {:induction false} SequenceNames(a: nat, b: nat)
    requires a <= b < a + U32 && Lo32(a) == Lo32(b)
    ensures a == b
  {
  }

  /**
   The step that decides: when a goroutine compares against a snapshot older than the
   version it saw, nothing older is still being published, so the canary it compares with
   is that snapshot's own; equal sizes at an equal sequence are then one version.
   */
  lemma {:induction false} ProbeKeeps(s: State, began: nat, p: Probing)
    requires Inv(s) && ProbeOk(s, began, p) && Awake(s)
    ensures ProbeOk(s, began, ProbeNext(s, p))
  {
    hide MutexOk, Current, GoroutineOk, Lo32;
    match p
    case ActualMatched(sequence, seen) =>
      if s.snap < seen {
        assert NextVersion(s.versions[s.snap], s.versions[seen]);
        if Lo32(sequence) == Lo32(s.versions[s.snap].sequence) {
          SequenceNames(s.versions[s.snap].sequence, sequence);
        }
      }
    case _ =>
  }

  lemma {:induction false} PublishKeeps(s: State, g: nat)
    requires Inv(s) && g in s.goroutines && s.goroutines[g].Reloading? && MayGo(s, g)
    ensures Inv(PublishNext(s, g, s.goroutines[g]))
  {
    hide Ordered;
    var s' := PublishNext(s, g, s.goroutines[g]);
    assert s.mutex == HeldBy(g);
    MutexLasts(s, s', g);
    AllKnowledgeLasts(s, s', g);
  }

  lemma {:induction false} MutexLasts(s: State, s': State, g: nat)
    requires MutexOk(s) && s'.mutex == s.mutex
    requires g in s'.goroutines && (Inside(s'.goroutines[g]) ==> s.mutex == HeldBy(g))
    requires forall h | h in s'.goroutines && h != g :: h in s.goroutines && s'.goroutines[h] == s.goroutines[h]
    ensures MutexOk(s')
  {
  }

  /** A load or a comparison of a probe in progress. */
  lemma {:induction false} ProbingKnows(s: State, g: nat)
    requires Inv(s) && g in s.goroutines && MayGo(s, g) && Awake(s)
    requires (s.goroutines[g].First? || s.goroutines[g].Second?)
    requires !s.goroutines[g].probe.Fresh? && !s.goroutines[g].probe.NotFresh?
    ensures g in GoroutineNext(s, g).goroutines && GoroutineOk(GoroutineNext(s, g), GoroutineNext(s, g).goroutines[g])
  {
    hide Ordered, LiveOk, MutexOk, PublishedOk, ProbeNext, ProbeOk;
    var s', r := GoroutineNext(s, g), s.goroutines[g];
    assert GoroutineOk(s, r);
    ProbeKeeps(s, r.began, r.probe);
    ProbeFrame(s, s', r.began, ProbeNext(s, r.probe));
  }

  lemma {:induction false} ProbeFrame(s: State, s': State, began: nat, p: Probing)
    requires HasVersions(s) && ProbeOk(s, began, p)
    requires s'.versions == s.versions && s'.snap == s.snap && s'.live == s.live
    ensures ProbeOk(s', began, p)
  {
  }

  /** A reader's own step outside a reload. */
  lemma {:induction false} ReaderKnows(s: State, g: nat)
    requires Inv(s) && g in s.goroutines && MayGo(s, g) && !s.goroutines[g].Reloading? && Awake(s)
    ensures g in GoroutineNext(s, g).goroutines && GoroutineOk(GoroutineNext(s, g), GoroutineNext(s, g).goroutines[g])
  {
    hide Ordered, LiveOk, MutexOk, PublishedOk, ProbeNext;
    var r := s.goroutines[g];
    if (r.First? || r.Second?) && !r.probe.Fresh? && !r.probe.NotFresh? {
      ProbingKnows(s, g);
    } else {
      assert GoroutineOk(s, r);
    }
  }

  lemma {:induction false} ReaderFrame(s: State, g: nat)
    requires HasVersions(s) && g in s.goroutines && MayGo(s, g) && !s.goroutines[g].Reloading?
    ensures var s' := GoroutineNext(s, g);
            && s' == s.(goroutines := s'.goroutines, mutex := s'.mutex)
            && s'.goroutines.Keys == s.goroutines.Keys
            && forall h | h in s.goroutines && h != g :: s'.goroutines[h] == s.goroutines[h]
  {
    hide ProbeNext;
  }

  lemma {:induction false} ReaderMutex(s: State, g: nat)
    requires HasVersions(s) && MutexOk(s) && g in s.goroutines && MayGo(s, g) && !s.goroutines[g].Reloading?
    ensures MutexOk(GoroutineNext(s, g))
    ensures Current(GoroutineNext(s, g)).Reloading? ==>
              || (Current(s).Reloading? && Current(GoroutineNext(s, g)) == Current(s))
              || (&& s.goroutines[g].Second? && s.writer.NoWriter? && !Current(s).Reloading?
                  && Current(GoroutineNext(s, g)) == Reloading(s.goroutines[g].began, Last(s), Built))
    ensures Current(s).Reloading? ==> Current(GoroutineNext(s, g)).Reloading?
  {
    hide ProbeNext;
    var s', r := GoroutineNext(s, g), s.goroutines[g];
    ReaderFrame(s, g);
    assert Inside(r) ==> s.mutex == HeldBy(g);
    forall h | h in s'.goroutines && Inside(s'.goroutines[h])
      ensures s'.mutex == HeldBy(h)
    {
      assert h != g ==> Inside(s.goroutines[h]);
    }
  }

  lemma {:induction false} ReaderKeeps(s: State, g: nat)
    requires Inv(s) && g in s.goroutines && MayGo(s, g) && !s.goroutines[g].Reloading? && Awake(s)
    ensures Inv(GoroutineNext(s, g))
  {
    hide Ordered, GoroutineNext, MutexOk, Current, GoroutineOk, MayGo;
    var s' := GoroutineNext(s, g);
    ReaderFrame(s, g);
    ReaderKnows(s, g);
    ReaderMutex(s, g);
    AllKnowledgeLasts(s, s', g);
  }

  lemma {:induction false} OtherKeeps(s: State, e: Step)
    requires Inv(s) && Enabled(s, e) && (e.Spawn? || e.FailReload?)
    ensures Inv(Next(s, e))
  {
    hide Ordered;
    var s' := Next(s, e);
    assert e.FailReload? ==> s.mutex == HeldBy(e.g);
    MutexLasts(s, s', e.g);
    AllKnowledgeLasts(s, s', e.g);
  }

  lemma {:induction false} StepKeeps(s: State, e: Step)
    requires Inv(s) && Enabled(s, e) && (e.GoroutineStep? ==> Awake(s))
    ensures Inv(Next(s, e))
  {
    hide Inv, MayGo, Awake;
    match e
    case BeginWrite(c) => BeginKeeps(s, c);
    case WriterStep => WriterKeeps(s);
    case GoroutineStep(g) =>
      if s.goroutines[g].Reloading? {
        PublishKeeps(s, g);
      } else {
        ReaderKeeps(s, g);
      }
    case _ => OtherKeeps(s, e);
  }

  // ---- runs ----

  predicate ValidRun(s: State, run: seq<Step>)
    decreases |run|
  {
    HasVersions(s) && (run == [] || (Enabled(s, run[0]) && ValidRun(Next(s, run[0]), run[1..])))
  }

  function RunAll(s: State, run: seq<Step>): State
    requires ValidRun(s, run)
    decreases |run|
  {
    if run == [] then s else RunAll(Next(s, run[0]), run[1..])
  }

  /** Readers come often enough: whenever one takes a step, the snapshot is not 2^32 rewrites old. */
  predicate TimelyRun(s: State, run: seq<Step>)
    requires ValidRun(s, run)
    decreases |run|
  {
    run == [] || ((run[0].GoroutineStep? ==> Awake(s)) && TimelyRun(Next(s, run[0]), run[1..]))
  }

  /** A Reader just opened: one version, loaded. */
  function Opened(c: Canary): State {
    State([c], c, NoWriter, 0, c, Free, map[])
  }

  lemma {:induction false} RunKeeps(s: State, run: seq<Step>)
    requires Inv(s) && ValidRun(s, run) && TimelyRun(s, run)
    ensures Inv(RunAll(s, run))
    decreases |run|
  {
    hide Inv, Next, Enabled, Awake;
    if run != [] {
      StepKeeps(s, run[0]);
      RunKeeps(Next(s, run[0]), run[1..]);
    }
  }

  /**
   Soundness of a read: in every run, a read that found the canary fresh, at once or under
   the mutex, or that reloaded, serves a snapshot no older than the version committed when
   its probe loaded the size or its reload took the flock, and so no older than the one
   committed when the read began. Only a read whose reload failed may serve an older one.
   */
  lemma {:induction false} FreshServesCurrent(c: Canary, run: seq<Step>, g: nat)
    requires ValidRun(Opened(c), run) && TimelyRun(Opened(c), run)
    ensures var s := RunAll(Opened(c), run);
            g in s.goroutines && s.goroutines[g].Served? ==>
              s.goroutines[g].version >= s.goroutines[g].seen >= s.goroutines[g].began
  {
    OpenedInv(c);
    RunKeeps(Opened(c), run);
  }

  lemma {:induction false} OpenedInv(c: Canary)
    ensures Inv(Opened(c))
  {
  }

  // ---- both paths are taken ----

  function Steps(g: nat, n: nat): seq<Step> {
    seq(n, _ => GoroutineStep(g))
  }

  /** Goroutine g alone, n steps from s. */
  lemma {:induction false} OneMore(s: State, g: nat, n: nat)
    requires HasVersions(s) && n > 0 && Enabled(s, GoroutineStep(g)) && ValidRun(GoroutineNext(s, g), Steps(g, n - 1))
    ensures ValidRun(s, Steps(g, n)) && RunAll(s, Steps(g, n)) == RunAll(GoroutineNext(s, g), Steps(g, n - 1))
  {
    hide GoroutineNext, MayGo;
    assert Steps(g, n)[0] == GoroutineStep(g) && Steps(g, n)[1..] == Steps(g, n - 1);
  }

  /** When the snapshot is current, the probe finds it fresh and serves it. */
  lemma {:induction false} QuietProbeIsFresh(s: State, g: nat)
    requires HasVersions(s) && s.loaded == s.live && g in s.goroutines && s.goroutines[g] == First(Last(s), Loading)
    ensures ValidRun(s, Steps(g, 8)) && g in RunAll(s, Steps(g, 8)).goroutines
    ensures RunAll(s, Steps(g, 8)).goroutines[g] == Served(s.snap, Last(s), Last(s))
  {
    ProbeFrom(s, g, 8);
  }

  /** The goroutine with n steps of a quiet read to go. */
  function QuietStage(s: State, n: nat): Goroutine
    requires HasVersions(s)
  {
    var c, b := s.live, Last(s);
    if n == 8 then First(b, Loading)
    else if n == 7 then First(b, ReadCrc(c.crc))
    else if n == 6 then First(b, ReadActual(c.crc, c.actual, b))
    else if n == 5 then First(b, ReadAll(c.crc, c.actual, c.sequence, b))
    else if n == 4 then First(b, CrcMatched(c.actual, c.sequence, b))
    else if n == 3 then First(b, ActualMatched(c.sequence, b))
    else if n == 2 then First(b, Fresh(b))
    else if n == 1 then Ready(b, b)
    else Served(s.snap, b, b)
  }

  lemma {:induction false} ProbeFrom(s: State, g: nat, n: nat)
    requires HasVersions(s) && s.loaded == s.live && n <= 8
    requires g in s.goroutines && s.goroutines[g] == QuietStage(s, n)
    ensures ValidRun(s, Steps(g, n)) && g in RunAll(s, Steps(g, n)).goroutines
    ensures RunAll(s, Steps(g, n)).goroutines[g] == Served(s.snap, Last(s), Last(s))
    decreases n
  {
    if n > 0 {
      ProbeFrom(GoroutineNext(s, g), g, n - 1);
      OneMore(s, g, n);
    }
  }

  /** A goroutine that probed in vain under the mutex, with no writer about, publishes and serves the last version. */
  lemma {:induction false} QuietReload(s: State, g: nat, began: nat)
    requires HasVersions(s) && s.writer.NoWriter?
    requires g in s.goroutines && s.goroutines[g] == Second(began, NotFresh)
    ensures ValidRun(s, Steps(g, 8)) && g in RunAll(s, Steps(g, 8)).goroutines
    ensures RunAll(s, Steps(g, 8)).goroutines[g] == Served(Last(s), began, Last(s))
    ensures RunAll(s, Steps(g, 8)).loaded == s.versions[Last(s)]
  {
    ReloadFrom(s, g, began, 8);
  }

  /** The goroutine with n steps of a quiet reload to go. */
  function ReloadStage(s: State, began: nat, n: nat): Goroutine
    requires HasVersions(s)
  {
    var v := Last(s);
    if n == 8 then Second(began, NotFresh)
    else if n == 7 then Reloading(began, v, Built)
    else if n == 6 then Reloading(began, v, SnapStored)
    else if n == 5 then Reloading(began, v, CrcStored)
    else if n == 4 then Reloading(began, v, ActualStored)
    else if n == 3 then Reloading(began, v, SequenceStored)
    else if n == 2 then Reloaded(began, v)
    else if n == 1 then Ready(began, v)
    else Served(v, began, v)
  }

  lemma {:induction false} ReloadFrom(s: State, g: nat, began: nat, n: nat)
    requires HasVersions(s) && s.writer.NoWriter? && n <= 8
    requires g in s.goroutines && s.goroutines[g] == ReloadStage(s, began, n)
    requires n < 7 ==> s.snap == Last(s)
    requires n < 6 ==> s.loaded.crc == s.versions[Last(s)].crc
    requires n < 5 ==> s.loaded.actual == s.versions[Last(s)].actual
    requires n < 4 ==> s.loaded.sequence == s.versions[Last(s)].sequence
    ensures ValidRun(s, Steps(g, n)) && g in RunAll(s, Steps(g, n)).goroutines
    ensures RunAll(s, Steps(g, n)).goroutines[g] == Served(Last(s), began, Last(s))
    ensures RunAll(s, Steps(g, n)).loaded == s.versions[Last(s)]
    decreases n
  {
    if n > 0 {
      ReloadFrom(GoroutineNext(s, g), g, began, n - 1);
      OneMore(s, g, n);
    }
  }

  /** A moved digest, size or 32-bit sequence is each enough for a probe to find the snapshot stale. */
  lemma {:induction false} EveryFieldCounts(s: State, g: nat) returns (n: nat)
    requires HasVersions(s) && g in s.goroutines && s.goroutines[g] == First(Last(s), Loading)
    requires s.live.crc != s.loaded.crc || s.live.actual != s.loaded.actual
             || Lo32(s.live.sequence) != Lo32(s.loaded.sequence)
    ensures n <= 6 && ValidRun(s, Steps(g, n)) && g in RunAll(s, Steps(g, n)).goroutines
    ensures RunAll(s, Steps(g, n)).goroutines[g] == First(Last(s), NotFresh)
  {
    hide Lo32;
    n := if s.live.crc != s.loaded.crc then 4 else if s.live.actual != s.loaded.actual then 5 else 6;
    StaleFrom(s, g, n, 0);
  }

  /** The goroutine after i loads and comparisons that did not tell. */
  function ProbeStage(s: State, i: nat): Goroutine
    requires HasVersions(s)
  {
    var c, b := s.live, Last(s);
    if i == 0 then First(b, Loading)
    else if i == 1 then First(b, ReadCrc(c.crc))
    else if i == 2 then First(b, ReadActual(c.crc, c.actual, b))
    else if i == 3 then First(b, ReadAll(c.crc, c.actual, c.sequence, b))
    else if i == 4 then First(b, CrcMatched(c.actual, c.sequence, b))
    else First(b, ActualMatched(c.sequence, b))
  }

  lemma {:induction false} StaleFrom(s: State, g: nat, n: nat, i: nat)
    requires HasVersions(s) && g in s.goroutines && i < n <= 6 && s.goroutines[g] == ProbeStage(s, i)
    requires n == 4 ==> s.live.crc != s.loaded.crc
    requires n == 5 ==> s.live.crc == s.loaded.crc && s.live.actual != s.loaded.actual
    requires n == 6 ==> && s.live.crc == s.loaded.crc && s.live.actual == s.loaded.actual
                        && Lo32(s.live.sequence) != Lo32(s.loaded.sequence)
    requires n >= 4
    ensures ValidRun(s, Steps(g, n - i)) && g in RunAll(s, Steps(g, n - i)).goroutines
    ensures RunAll(s, Steps(g, n - i)).goroutines[g] == First(Last(s), NotFresh)
    decreases n - i
  {
    hide Lo32;
    var next := GoroutineNext(s, g);
    if i + 1 < n {
      StaleFrom(next, g, n, i + 1);
    } else {
      assert Steps(g, 0) == [];
    }
    OneMore(s, g, n - i);
  }
}
