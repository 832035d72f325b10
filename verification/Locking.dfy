/**
 The processes over the flock they really use: every lock and unlock is a run of kernel
 calls, and a process may touch the store only between an acquiring and a releasing call.
 The system needs no exclusion of its own; the kernel's is enough.
 */
module Locking {
  import Flock
  import Processes
  import opened Store
  import Cfb

  /** What a descriptor allows its process: nothing while a call is pending. */
  function Section(d: Flock.Desc): Processes.Mode {
    if !d.pc.Idle? then Processes.Unlocked
    else if d.exclusive > 0 then Processes.Exclusive
    else if d.shared > 0 then Processes.Shared
    else Processes.Unlocked
  }

  datatype System = System(locks: Flock.World, world: Processes.World)

  predicate Matches(s: System) {
    && s.locks.Keys == s.world.procs.Keys
    && forall p | p in s.locks :: s.world.procs[p].mode == Section(s.locks[p])
  }

  datatype Step =
    | Call(call: Flock.Step)
    | Use(event: Processes.Event)
    | Attach(p: nat)

  // ---- a kernel step as the store sees it ----

  /** The lock event, if any, of a kernel step of process p. */
  function LockEvents(before: Flock.Desc, after: Flock.Desc, p: nat): seq<Processes.Event> {
    if Section(before) == Section(after) then []
    else if Section(after) == Processes.Unlocked then [Processes.Release(p)]
    else [Processes.Acquire(p, Section(after))]
  }

  ghost predicate Enabled(s: System, step: Step) {
    match step
    case Call(e) => !e.Open? && Flock.Enabled(s.locks, e)
    case Use(e) => (e.Get? || e.Do? || e.DropCache?) && Processes.Enabled(s.world, e)
    case Attach(p) =>
      Flock.Enabled(s.locks, Flock.Open(p)) && (forall q | q in s.locks :: Section(s.locks[q]) != Processes.Exclusive)
  }

  /** What a step is in the world of processes. */
  ghost function Events(s: System, step: Step): seq<Processes.Event>
    requires Enabled(s, step)
  {
    match step
    case Call(e) => LockEvents(s.locks[e.p], Flock.Next(s.locks, e)[e.p], e.p)
    case Use(e) => [e]
    case Attach(p) => [Processes.Open(p)]
  }

  function Locks(s: System, step: Step): Flock.World
    requires step.Call? ==> Flock.Enabled(s.locks, step.call)
    requires step.Attach? ==> step.p !in s.locks
  {
    match step
    case Call(e) => Flock.Next(s.locks, e)
    case Use(_) => s.locks
    case Attach(p) => Flock.Next(s.locks, Flock.Open(p))
  }

  ghost predicate Ok(s: System) {
    Matches(s) && Flock.Inv(s.locks)
  }

  /** A descriptor between calls holds in the kernel what its counters say. */
  lemma {:induction false} SectionIsKernel(d: Flock.Desc)
    requires Flock.DescOk(d)
    ensures Section(d) == Processes.Exclusive ==> d.kernel == Flock.EX
    ensures Section(d) == Processes.Shared ==> d.kernel == Flock.SH
    ensures d.kernel == Flock.Nothing ==> Section(d) == Processes.Unlocked
  {
  }

  /** No kernel step turns one kind of access into the other without giving it up. */
  lemma {:induction false} AccessIsGivenUp(w: Flock.World, e: Flock.Step)
    requires Flock.Enabled(w, e) && !e.Open?
    ensures var a, b := Section(w[e.p]), Section(Flock.Next(w, e)[e.p]);
            a == b || a == Processes.Unlocked || b == Processes.Unlocked
  {
  }

  /** The kernel grants an access only where the store's own rule would. */
  lemma {:induction false} AccessIsExclusive(s: System, e: Flock.Step)
    requires Ok(s) && Enabled(s, Call(e))
    ensures var mode := Section(Flock.Next(s.locks, e)[e.p]);
            mode != Processes.Unlocked ==> Processes.NoneElse(s.world, e.p, mode == Processes.Exclusive)
  {
    hide Flock.DescOk, Section;
    var next := Flock.Next(s.locks, e);
    Flock.StepKeeps(s.locks, e);
    SectionIsKernel(next[e.p]);
    forall q | q in s.world.procs && q != e.p
      ensures next[q] == s.locks[q] && (next[e.p].kernel == Flock.EX ==> next[q].kernel == Flock.Nothing)
      ensures next[e.p].kernel != Flock.Nothing ==> next[q].kernel != Flock.EX
      ensures s.world.procs[q].mode == Processes.Exclusive ==> next[q].kernel == Flock.EX
      ensures next[q].kernel == Flock.Nothing ==> s.world.procs[q].mode == Processes.Unlocked
    {
      assert q in s.locks;
      SectionIsKernel(next[q]);
    }
    if Section(next[e.p]) != Processes.Unlocked {
      SectionNeedsKernel(next[e.p]);
    }
  }

  lemma {:induction false} SectionNeedsKernel(d: Flock.Desc)
    requires Flock.DescOk(d) && Section(d) != Processes.Unlocked
    ensures d.kernel != Flock.Nothing
  {
  }

  // ---- steps and runs ----

  ghost function Next(s: System, step: Step): System
    requires Enabled(s, step) && Processes.ValidRun(s.world, Events(s, step))
  {
    System(Locks(s, step), Processes.RunWorld(s.world, Events(s, step)))
  }

  lemma {:induction false} OneEvent(w: Processes.World, e: Processes.Event)
    requires Processes.Enabled(w, e)
    ensures Processes.ValidRun(w, [e]) && Processes.RunWorld(w, [e]) == Processes.Next(w, e)
  {
    hide Processes.Enabled, Processes.Next;
    assert [e][1..] == [];
    assert Processes.RunWorld(Processes.Next(w, e), []) == Processes.Next(w, e);
  }

  /** Every kernel step is nothing or one enabled lock event, and the modes stay those of the counters. */
  lemma {:induction false} CallKeeps(s: System, e: Flock.Step)
    requires Ok(s) && Enabled(s, Call(e))
    ensures Processes.ValidRun(s.world, Events(s, Call(e))) && Ok(Next(s, Call(e)))
  {
    hide Flock.DescOk, Section, Flock.Enter, Flock.Answered, Flock.MayAnswer, Flock.Inv;
    var p, before, after := e.p, s.locks[e.p], Flock.Next(s.locks, e)[e.p];
    AccessIsGivenUp(s.locks, e);
    AccessIsExclusive(s, e);
    Flock.StepKeeps(s.locks, e);
    if Section(before) != Section(after) {
      var event := LockEvents(before, after, p)[0];
      assert Processes.Enabled(s.world, event);
      OneEvent(s.world, event);
    }
  }

  lemma {:induction false} UseKeepsModes(w: Processes.World, e: Processes.Event)
    requires (e.Get? || e.Do? || e.DropCache?) && Processes.Enabled(w, e)
    ensures var w' := Processes.Next(w, e);
            w'.procs.Keys == w.procs.Keys && forall p | p in w.procs :: w'.procs[p].mode == w.procs[p].mode
  {
    hide Processes.Checked, Processes.PastAfter;
    Processes.CheckedMode(w, e.p);
  }

  /** Every step of the system is a run of the processes' events. */
  lemma {:induction false} StepKeeps(s: System, step: Step)
    requires Ok(s) && Enabled(s, step)
    ensures Processes.ValidRun(s.world, Events(s, step)) && Ok(Next(s, step))
  {
    hide Flock.Inv, Processes.Enabled, Processes.Next, Section;
    match step
    case Call(e) => CallKeeps(s, e);
    case Use(e) =>
      OneEvent(s.world, e);
      UseKeepsModes(s.world, e);
    case Attach(p) =>
      Flock.StepKeeps(s.locks, Flock.Open(p));
      AttachIsOpen(s, p);
      OneEvent(s.world, Processes.Open(p));
  }

  lemma {:induction false} AttachIsOpen(s: System, p: nat)
    requires Ok(s) && Enabled(s, Attach(p))
    ensures Processes.Enabled(s.world, Processes.Open(p))
    ensures var w' := Processes.Next(s.world, Processes.Open(p));
            Matches(System(Flock.Next(s.locks, Flock.Open(p)), w'))
  {
  }

  ghost predicate ValidRun(s: System, run: seq<Step>)
    decreases |run|
  {
    || run == []
    || (&& Enabled(s, run[0]) && Processes.ValidRun(s.world, Events(s, run[0]))
        && ValidRun(Next(s, run[0]), run[1..]))
  }

  /** No process that comes to the files has slept through 2^32 rewrites. */
  ghost predicate TimelyRun(s: System, run: seq<Step>)
    requires ValidRun(s, run)
    decreases |run|
  {
    run == [] || ((run[0].Use? ==> Processes.Timely(s.world, run[0].event)) && TimelyRun(Next(s, run[0]), run[1..]))
  }

  ghost function RunAll(s: System, run: seq<Step>): System
    requires ValidRun(s, run)
    decreases |run|
  {
    if run == [] then s else RunAll(Next(s, run[0]), run[1..])
  }

  ghost function EventsAll(s: System, run: seq<Step>): seq<Processes.Event>
    requires ValidRun(s, run)
    decreases |run|
  {
    if run == [] then [] else Events(s, run[0]) + EventsAll(Next(s, run[0]), run[1..])
  }

  /** A run of the system is a run of the processes. */
  lemma {:induction false} RunIsProcesses(s: System, run: seq<Step>)
    requires Ok(s) && ValidRun(s, run)
    ensures var events := EventsAll(s, run);
            && Processes.ValidRun(s.world, events)
            && Processes.RunWorld(s.world, events) == RunAll(s, run).world && Ok(RunAll(s, run))
    decreases |run|
  {
    hide Ok, Enabled, Events, Processes.ValidRun, Processes.RunWorld, Locks;
    if run == [] {
      NoEvents(s.world);
    } else {
      StepKeeps(s, run[0]);
      var next := Next(s, run[0]);
      RunIsProcesses(next, run[1..]);
      Processes.RunsJoin(s.world, Events(s, run[0]), EventsAll(next, run[1..]));
    }
  }

  /** A lock call and an attachment look at no canary. */
  lemma {:induction false} StepIsTimely(s: System, step: Step)
    requires Enabled(s, step) && Processes.ValidRun(s.world, Events(s, step))
    requires step.Use? ==> Processes.Timely(s.world, step.event)
    ensures Processes.TimelyRun(s.world, Events(s, step))
  {
    hide Processes.Enabled, Processes.Next, Section, Flock.Next, Flock.Enabled;
    var events := Events(s, step);
    if events != [] {
      assert events[1..] == [];
    }
  }

  lemma {:induction false} TimelyIsTimely(s: System, run: seq<Step>)
    requires Ok(s) && ValidRun(s, run) && TimelyRun(s, run)
    ensures Processes.ValidRun(s.world, EventsAll(s, run)) && Processes.TimelyRun(s.world, EventsAll(s, run))
    decreases |run|
  {
    hide Ok, Enabled, Events, Processes.ValidRun, Processes.RunWorld, Processes.TimelyRun, Locks, Processes.Timely;
    if run == [] {
      NoEvents(s.world);
    } else {
      StepKeeps(s, run[0]);
      StepIsTimely(s, run[0]);
      var next := Next(s, run[0]);
      RunIsProcesses(next, run[1..]);
      TimelyIsTimely(next, run[1..]);
      Processes.TimelyRunsJoin(s.world, Events(s, run[0]), EventsAll(next, run[1..]));
    }
  }

  lemma {:induction false} NoEvents(w: Processes.World)
    ensures Processes.ValidRun(w, []) && Processes.RunWorld(w, []) == w && Processes.TimelyRun(w, [])
  {
  }

  /**
   From a new store, over every interleaving of kernel calls and store operations: every
   get returns the last writes in lock order, and a process inside an exclusive section
   is the only one inside any.
   */
  lemma {:induction false} SystemIsLinearizable(cfg: Config, crypt: Option<Cfb.Cipher>, run: seq<Step>)
    requires cfg.multiProcess
    requires var s := System(map[], Processes.FreshWorld(cfg, crypt));
             ValidRun(s, run) && TimelyRun(s, run)
    ensures var s := System(map[], Processes.FreshWorld(cfg, crypt));
            && Processes.ValidRun(s.world, EventsAll(s, run))
            && Processes.Linearized(s.world, Processes.Abstract(s.world), EventsAll(s, run))
            && (var locks := RunAll(s, run).locks;
                forall p, q | p in locks && q in locks && p != q ::
                  Section(locks[p]) == Processes.Exclusive ==> Section(locks[q]) == Processes.Unlocked)
  {
    hide ValidRun, EventsAll, RunAll, TimelyRun, Section;
    hide Processes.ValidRun, Processes.Linearized, Processes.Abstract, Processes.TimelyRun, Processes.WInv;
    var s := System(map[], Processes.FreshWorld(cfg, crypt));
    Processes.FreshWorldInv(cfg, crypt);
    RunIsProcesses(s, run);
    TimelyIsTimely(s, run);
    Processes.RunIsLinearizable(s.world, EventsAll(s, run));
    var last := RunAll(s, run);
    WorldExclusion(last.world);
    forall p, q | p in last.locks && q in last.locks && p != q && Section(last.locks[p]) == Processes.Exclusive
      ensures Section(last.locks[q]) == Processes.Unlocked
    {
      assert last.world.procs[p].mode == Processes.Exclusive && q in last.world.procs;
    }
  }

  lemma {:induction false} WorldExclusion(w: Processes.World)
    requires Processes.WInv(w)
    ensures Processes.Exclusion(w)
  {
    hide Processes.Exclusion, Processes.Committed, Processes.ProcOk;
  }
}
