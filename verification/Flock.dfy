/**
 Reference-counted flock on one descriptor per process, over a kernel that grants,
 refuses and converts locks. Each kernel call is a step of its own, so calls of different
 processes interleave anywhere.
 */
module Flock {
  datatype LockType = SharedLock | ExclusiveLock
  datatype Kernel = Nothing | SH | EX

  /** Where a process is inside lock, tryLock or unlock; `wait` tells the blocking call from the try. */
  datatype Pc =
    | Idle
    | WantShared(wait: bool)
    | WantExclusive(wait: bool)
    | Upgrading(wait: bool)
    | Dropping(wait: bool)
    | Retrying(wait: bool)
    | Recovering
    | ReleasingShared
    | ReleasingExclusive
    | Downgrading

  datatype Desc = Desc(shared: nat, exclusive: nat, kernel: Kernel, pc: Pc)

  datatype Call = Lock(t: LockType) | TryLock(t: LockType) | Unlock(t: LockType)

  type World = map<nat, Desc>

  // ---- entering a call ----

  function Acquire(d: Desc, t: LockType, wait: bool): Desc {
    match t
    case SharedLock =>
      if d.shared > 0 || d.exclusive > 0 then d.(shared := d.shared + 1) else d.(pc := WantShared(wait))
    case ExclusiveLock =>
      if d.exclusive > 0 then d.(exclusive := d.exclusive + 1)
      else if d.shared > 0 then d.(pc := Upgrading(wait))
      else d.(pc := WantExclusive(wait))
  }

  /** Releasing a count that is not held is an error and changes nothing. */
  function Release(d: Desc, t: LockType): Desc {
    match t
    case SharedLock =>
      if d.shared == 0 then d
      else if d.shared > 1 || d.exclusive > 0 then d.(shared := d.shared - 1)
      else d.(pc := ReleasingShared)
    case ExclusiveLock =>
      if d.exclusive == 0 then d
      else if d.exclusive > 1 then d.(exclusive := d.exclusive - 1)
      else d.(pc := ReleasingExclusive)
  }

  function Enter(d: Desc, c: Call): Desc {
    match c
    case Lock(t) => Acquire(d, t, true)
    case TryLock(t) => Acquire(d, t, false)
    case Unlock(t) => Release(d, t)
  }

  // ---- kernel answers ----

  /** No other descriptor stands in the way of this mode. */
  predicate Free(w: World, p: nat, mode: Kernel) {
    forall q | q in w && q != p :: w[q].kernel != EX && (mode == EX ==> w[q].kernel == Nothing)
  }

  datatype Answer = Granted | Refused(keptShared: bool) | Converted

  /** What the kernel may answer to the pending call of a process. */
  predicate MayAnswer(w: World, p: nat, a: Answer)
    requires p in w
  {
    match w[p].pc
    case Idle => false
    case WantShared(wait) => if a.Granted? then Free(w, p, SH) else a.Refused? && !wait && !Free(w, p, SH)
    case WantExclusive(wait) => if a.Granted? then Free(w, p, EX) else a.Refused? && !wait && !Free(w, p, EX)
    case Upgrading(_) => if a.Granted? then Free(w, p, EX) else a.Refused? && !Free(w, p, EX)
    case Dropping(_) => a.Granted?
    case Retrying(wait) => if a.Granted? then Free(w, p, EX) else a.Refused? && !wait && !Free(w, p, EX)
    case Recovering => a.Granted? && Free(w, p, SH)
    case ReleasingShared => a.Granted?
    case ReleasingExclusive => a.Granted? || (a.Converted? && w[p].shared > 0)
    case Downgrading => a.Granted? && Free(w, p, SH)
  }

  /**
   A refused non-blocking upgrade may have dropped the shared lock already. A downgrade
   may drop the exclusive lock before it gets the shared one.
   */
  function Answered(d: Desc, a: Answer): Desc {
    match d.pc
    case Idle => d
    case WantShared(_) => if a.Granted? then d.(shared := d.shared + 1, kernel := SH, pc := Idle) else d.(pc := Idle)
    case WantExclusive(_) =>
      if a.Granted? then d.(exclusive := d.exclusive + 1, kernel := EX, pc := Idle) else d.(pc := Idle)
    case Upgrading(wait) =>
      if a.Granted? then d.(exclusive := d.exclusive + 1, kernel := EX, pc := Idle)
      else d.(kernel := if a.Refused? && a.keptShared then SH else Nothing, pc := Dropping(wait))
    case Dropping(wait) => d.(kernel := Nothing, pc := Retrying(wait))
    case Retrying(_) =>
      if a.Granted? then d.(exclusive := d.exclusive + 1, kernel := EX, pc := Idle) else d.(pc := Recovering)
    case Recovering => d.(kernel := SH, pc := Idle)
    case ReleasingShared => if d.shared == 0 then d else d.(shared := d.shared - 1, kernel := Nothing, pc := Idle)
    case ReleasingExclusive =>
      if d.exclusive == 0 then d
      else if a.Converted? then d.(kernel := Nothing, pc := Downgrading)
      else d.(exclusive := d.exclusive - 1, kernel := if d.shared > 0 then SH else Nothing, pc := Idle)
    case Downgrading => if d.exclusive == 0 then d else d.(exclusive := d.exclusive - 1, kernel := SH, pc := Idle)
  }

  datatype Step = Open(p: nat) | Begin(p: nat, c: Call) | Kernel(p: nat, a: Answer)

  predicate Enabled(w: World, e: Step) {
    match e
    case Open(p) => p !in w
    case Begin(p, _) => p in w && w[p].pc.Idle?
    case Kernel(p, a) => p in w && MayAnswer(w, p, a)
  }

  function Next(w: World, e: Step): World
    requires Enabled(w, e)
  {
    match e
    case Open(p) => w[p := Desc(0, 0, Nothing, Idle)]
    case Begin(p, c) => w[p := Enter(w[p], c)]
    case Kernel(p, a) => w[p := Answered(w[p], a)]
  }

  // ---- invariant ----

  /** The kernel mode the counters stand for. */
  function Claimed(d: Desc): Kernel {
    if d.exclusive > 0 then EX else if d.shared > 0 then SH else Nothing
  }

  predicate DescOk(d: Desc) {
    match d.pc
    case Idle => d.kernel == Claimed(d)
    case WantShared(_) => d.shared == 0 && d.exclusive == 0 && d.kernel == Nothing
    case WantExclusive(_) => d.shared == 0 && d.exclusive == 0 && d.kernel == Nothing
    case Upgrading(_) => d.shared > 0 && d.exclusive == 0 && d.kernel == SH
    case Dropping(_) => d.shared > 0 && d.exclusive == 0 && d.kernel != EX
    case Retrying(_) => d.shared > 0 && d.exclusive == 0 && d.kernel == Nothing
    case Recovering => d.shared > 0 && d.exclusive == 0 && d.kernel == Nothing
    case ReleasingShared => d.shared == 1 && d.exclusive == 0 && d.kernel == SH
    case ReleasingExclusive => d.exclusive == 1 && d.kernel == EX
    case Downgrading => d.exclusive == 1 && d.shared > 0 && d.kernel == Nothing
  }

  /** flock's own rule. */
  predicate Compatible(w: World) {
    forall p, q | p in w && q in w && p != q :: w[p].kernel == EX ==> w[q].kernel == Nothing
  }

  predicate Inv(w: World) {
    Compatible(w) && forall p | p in w :: DescOk(w[p])
  }

  lemma {:induction false} StepKeeps(w: World, e: Step)
    requires Inv(w) && Enabled(w, e)
    ensures Inv(Next(w, e))
  {
    hide DescOk, Enter, Answered, MayAnswer;
    match e
    case Open(p) => NewDescOk();
    case Begin(p, c) =>
      EnterKeepsDesc(w[p], c);
    case Kernel(p, a) =>
      ConvertsOnlyWithShared(w, p, a);
      AnswerKeepsDesc(w[p], a);
      AnswerKeepsCompatible(w, p, a);
  }

  lemma {:induction false} NewDescOk()
    ensures DescOk(Desc(0, 0, Nothing, Idle))
  {
  }

  lemma {:induction false} ConvertsOnlyWithShared(w: World, p: nat, a: Answer)
    requires p in w && MayAnswer(w, p, a)
    ensures w[p].pc.ReleasingExclusive? && a.Converted? ==> w[p].shared > 0
  {
  }

  lemma {:induction false} EnterKeepsDesc(d: Desc, c: Call)
    requires DescOk(d) && d.pc.Idle?
    ensures DescOk(Enter(d, c)) && Enter(d, c).kernel == d.kernel
  {
  }

  lemma {:induction false} AnswerKeepsDesc(d: Desc, a: Answer)
    requires DescOk(d)
    requires d.pc.ReleasingExclusive? && a.Converted? ==> d.shared > 0
    ensures DescOk(Answered(d, a))
  {
  }

  /** A process gains a lock only where the kernel found the way free. */
  lemma {:induction false} AnswerKeepsCompatible(w: World, p: nat, a: Answer)
    requires Compatible(w) && p in w && DescOk(w[p]) && MayAnswer(w, p, a)
    ensures Compatible(w[p := Answered(w[p], a)])
  {
    hide DescOk;
    var w' := w[p := Answered(w[p], a)];
    GainsOnlyIfFree(w, p, a);
    forall q, r | q in w' && r in w' && q != r
      ensures w'[q].kernel == EX ==> w'[r].kernel == Nothing
    {
      assert w[q].kernel == EX ==> w[r].kernel == Nothing;
    }
  }

  lemma {:induction false} GainsOnlyIfFree(w: World, p: nat, a: Answer)
    requires p in w && DescOk(w[p]) && MayAnswer(w, p, a)
    ensures var k := Answered(w[p], a).kernel;
            k == Nothing || k == w[p].kernel || (k == SH && w[p].kernel == EX) || Free(w, p, k)
  {
  }

  // ---- runs ----

  predicate ValidRun(w: World, run: seq<Step>)
    decreases |run|
  {
    run == [] || (Enabled(w, run[0]) && ValidRun(Next(w, run[0]), run[1..]))
  }

  function RunAll(w: World, run: seq<Step>): World
    requires ValidRun(w, run)
    decreases |run|
  {
    if run == [] then w else RunAll(Next(w, run[0]), run[1..])
  }

  lemma {:induction false} RunKeeps(w: World, run: seq<Step>)
    requires Inv(w) && ValidRun(w, run)
    ensures Inv(RunAll(w, run))
    decreases |run|
  {
    hide Inv, Next, Enabled;
    if run != [] {
      StepKeeps(w, run[0]);
      RunKeeps(Next(w, run[0]), run[1..]);
    }
  }

  /** Blocked with its shared lock given up: upgrading, recovering from a refused try, or downgrading. */
  predicate GaveUpShared(d: Desc) {
    d.pc.Dropping? || d.pc.Retrying? || d.pc.Recovering? || d.pc.Downgrading?
  }

  /**
   Over every interleaving of any number of processes: between calls the kernel mode is
   exactly what the counters claim; while one process counts an exclusive lock and is not
   past its release, no other has a kernel lock, and another that still counts a lock is
   inside a call that has given its kernel lock up.
   */
  lemma {:induction false} CountersAgree(run: seq<Step>)
    requires ValidRun(map[], run)
    ensures var w := RunAll(map[], run);
            && (forall p | p in w && w[p].pc.Idle? :: w[p].kernel == Claimed(w[p]))
            && (forall p, q | p in w && q in w && p != q :: w[p].exclusive > 0 && !w[p].pc.Downgrading? ==>
                  && w[q].kernel == Nothing
                  && (w[q].shared > 0 || w[q].exclusive > 0 ==> GaveUpShared(w[q])))
  {
    RunKeeps(map[], run);
    var w := RunAll(map[], run);
    forall p, q | p in w && q in w && p != q && w[p].exclusive > 0 && !w[p].pc.Downgrading?
      ensures w[q].kernel == Nothing && (w[q].shared > 0 || w[q].exclusive > 0 ==> GaveUpShared(w[q]))
    {
      assert DescOk(w[p]) && DescOk(w[q]);
    }
  }

  /** Two shared holders, one asks for more: it may be left counting a lock the kernel took back. */
  lemma {:induction false} SharedCountWithoutLock()
    ensures var run := [Open(0), Open(1), Begin(0, Lock(SharedLock)), Kernel(0, Granted),
                        Begin(1, Lock(SharedLock)), Kernel(1, Granted),
                        Begin(0, Lock(ExclusiveLock)), Kernel(0, Refused(false))];
            && ValidRun(map[], run) && 0 in RunAll(map[], run)
            && RunAll(map[], run)[0] == Desc(1, 0, Nothing, Dropping(true))
  {
    hide ValidRun, RunAll;
    var idle, held := Desc(0, 0, Nothing, Idle), Desc(1, 0, SH, Idle);
    var open: World, half: World := map[0 := idle, 1 := idle], map[0 := held, 1 := idle];
    var both: World := map[0 := held, 1 := held];
    var ask := [Begin(0, Lock(ExclusiveLock)), Kernel(0, Refused(false))];
    var lock1 := [Begin(1, Lock(SharedLock)), Kernel(1, Granted)] + ask;
    var lock0 := [Begin(0, Lock(SharedLock)), Kernel(0, Granted)] + lock1;
    var run := [Open(0), Open(1)] + lock0;
    assert half[1 := held] == both && open[0 := held] == half;
    UpgradeRefused(both);
    SharedGranted(half, 1, ask);
    SharedGranted(open, 0, lock1);
    TwoOpens(lock0);
    assert run == [Open(0), Open(1), Begin(0, Lock(SharedLock)), Kernel(0, Granted),
                   Begin(1, Lock(SharedLock)), Kernel(1, Granted),
                   Begin(0, Lock(ExclusiveLock)), Kernel(0, Refused(false))];
  }

  lemma {:induction false} TwoOpens(rest: seq<Step>)
    requires ValidRun(map[0 := Desc(0, 0, Nothing, Idle), 1 := Desc(0, 0, Nothing, Idle)], rest)
    ensures var run := [Open(0), Open(1)] + rest;
            ValidRun(map[], run) &&
            RunAll(map[], run) == RunAll(map[0 := Desc(0, 0, Nothing, Idle), 1 := Desc(0, 0, Nothing, Idle)], rest)
  {
    var run := [Open(0), Open(1)] + rest;
    var one: World := map[0 := Desc(0, 0, Nothing, Idle)];
    assert run[1..] == [Open(1)] + rest && run[1..][1..] == rest;
    assert Next(map[], run[0]) == one;
    assert Next(one, Open(1)) == map[0 := Desc(0, 0, Nothing, Idle), 1 := Desc(0, 0, Nothing, Idle)];
    assert ValidRun(one, run[1..]);
  }

  /** A shared lock asked for and granted, then the rest of the run. */
  lemma {:induction false} SharedGranted(w: World, p: nat, rest: seq<Step>)
    requires p in w && w[p] == Desc(0, 0, Nothing, Idle) && Free(w, p, SH)
    requires ValidRun(w[p := Desc(1, 0, SH, Idle)], rest)
    ensures var run := [Begin(p, Lock(SharedLock)), Kernel(p, Granted)] + rest;
            ValidRun(w, run) && RunAll(w, run) == RunAll(w[p := Desc(1, 0, SH, Idle)], rest)
  {
    var run := [Begin(p, Lock(SharedLock)), Kernel(p, Granted)] + rest;
    var asked := w[p := Desc(0, 0, Nothing, WantShared(true))];
    assert run[1..] == [Kernel(p, Granted)] + rest && run[1..][1..] == rest;
    assert Next(w, run[0]) == asked;
    assert Free(asked, p, SH);
    assert Next(asked, Kernel(p, Granted)) == w[p := Desc(1, 0, SH, Idle)];
    assert ValidRun(asked, run[1..]);
  }

  lemma {:induction false} UpgradeRefused(w: World)
    requires w == map[0 := Desc(1, 0, SH, Idle), 1 := Desc(1, 0, SH, Idle)]
    ensures var run := [Begin(0, Lock(ExclusiveLock)), Kernel(0, Refused(false))];
            ValidRun(w, run) && 0 in RunAll(w, run) && RunAll(w, run)[0] == Desc(1, 0, Nothing, Dropping(true))
  {
    var run := [Begin(0, Lock(ExclusiveLock)), Kernel(0, Refused(false))];
    var asked := w[0 := Desc(1, 0, SH, Upgrading(true))];
    assert run[1..] == [Kernel(0, Refused(false))] && run[1..][1..] == [];
    assert Next(w, run[0]) == asked;
    assert 1 in asked && !Free(asked, 0, EX);
    var last := Next(asked, Kernel(0, Refused(false)));
    assert ValidRun(last, []);
    assert ValidRun(asked, run[1..]);
    assert RunAll(asked, run[1..]) == last;
  }

  /** Every answer is refused or delayed until another process moves. */
  predicate Blocked(w: World, p: nat)
    requires p in w
  {
    !w[p].pc.Idle? && !MayAnswer(w, p, Granted) && !MayAnswer(w, p, Refused(true))
  }

  /**
   No deadlock: over every interleaving, a process blocked in a call waits for one that
   holds a kernel lock and is not itself blocked.
   */
  lemma {:induction false} BlockedWaitsForRunner(run: seq<Step>, p: nat)
    requires ValidRun(map[], run) && p in RunAll(map[], run) && Blocked(RunAll(map[], run), p)
    ensures var w := RunAll(map[], run);
            exists q :: q in w && q != p && w[q].kernel != Nothing && !Blocked(w, q)
  {
    hide RunAll;
    RunKeeps(map[], run);
    var w := RunAll(map[], run);
    var q :| q in w && q != p && w[q].kernel != Nothing;
    HolderMoves(w, q);
  }

  /** A process with a kernel lock is between calls or about to be answered. */
  lemma {:induction false} HolderMoves(w: World, q: nat)
    requires q in w && DescOk(w[q]) && w[q].kernel != Nothing
    ensures !Blocked(w, q)
  {
  }

  // ---- one descriptor whose calls are granted ----

  /** A call, and the mode held when it was made. */
  datatype Syscall = Syscall(how: Kernel, blocking: bool, held: Kernel)

  /** The kernel is never asked to wait for the exclusive lock while a lock is held. */
  predicate NeverHoldsAndWaits(calls: seq<Syscall>) {
    forall i | 0 <= i < |calls| :: calls[i].blocking && calls[i].how == EX ==> calls[i].held == Nothing
  }

  /** How the kernel answers: two non-blocking calls, and whether a refused conversion keeps what was held. */
  datatype Answers = Answers(first: bool, kept: bool, second: bool)

  /** An upgrade: in place without waiting, else drop, ask again, and on refusal take the shared lock back. */
  function UpgradeCalls(wait: bool, a: Answers): seq<Syscall> {
    var held := if a.kept then SH else Nothing;
    var dance := [Syscall(EX, false, SH), Syscall(Nothing, true, held), Syscall(EX, wait, Nothing)];
    if a.first then dance[..1] else if wait || a.second then dance else dance + [Syscall(SH, true, Nothing)]
  }

  /** The class of flock.go, with its kernel mode and the calls it made as fields. */
  class FileLock {
    var shared: nat
    var exclusive: nat
    var kernel: Kernel
    var calls: seq<Syscall>

    constructor ()
      ensures shared == 0 && exclusive == 0 && kernel == Nothing && calls == []
    {
      shared, exclusive, kernel, calls := 0, 0, Nothing, [];
    }

    ghost predicate Agrees()
      reads this
    {
      kernel == Claimed(Desc(shared, exclusive, kernel, Idle)) && NeverHoldsAndWaits(calls)
    }

    /** flock(2): a blocking call is granted in the end; a refused one keeps or loses the lock held. */
    method Flock(how: Kernel, blocking: bool, granted: bool, kept: bool) returns (ok: bool)
      modifies this`kernel, this`calls
      ensures ok == (blocking || granted)
      ensures kernel == if ok then how else if kept then old(kernel) else Nothing
      ensures calls == old(calls) + [Syscall(how, blocking, old(kernel))]
    {
      ok := blocking || granted;
      calls := calls + [Syscall(how, blocking, kernel)];
      if ok {
        kernel := how;
      } else if !kept {
        kernel := Nothing;
      }
    }

    /** The upgrade dance: try without blocking, else drop the shared lock before asking again. */
    method PlatformLock(how: Kernel, wait: bool, unlockFirst: bool, a: Answers) returns (ok: bool)
      requires kernel == (if unlockFirst then SH else Nothing) && (unlockFirst ==> how == EX)
      modifies this`kernel, this`calls
      ensures ok == (wait || a.second || (unlockFirst && a.first))
      ensures kernel == if ok then how else old(kernel)
      ensures calls == old(calls) + (if unlockFirst then UpgradeCalls(wait, a) else [Syscall(how, wait, Nothing)])
    {
      if unlockFirst {
        ok := Flock(how, false, a.first, a.kept);
        if ok {
          return;
        }
        ok := Flock(Nothing, true, true, true);
      }
      ok := Flock(how, wait, a.second, a.kept);
      if !ok && unlockFirst {
        var recovered := Flock(SH, true, true, true);
      }
    }

    /** lock when `wait`, else tryLock. */
    method Acquire(t: LockType, wait: bool, a: Answers) returns (ok: bool)
      requires Agrees()
      modifies this
      ensures Agrees()
      ensures ok == (wait || a.second || old(exclusive) > 0 || (old(shared) > 0 && (t.SharedLock? || a.first)))
      ensures shared == old(shared) + (if ok && t.SharedLock? then 1 else 0)
      ensures exclusive == old(exclusive) + (if ok && t.ExclusiveLock? then 1 else 0)
      ensures old(exclusive) > 0 || (t.SharedLock? && old(shared) > 0) ==> calls == old(calls)
      ensures old(exclusive) == 0 && old(shared) == 0 ==>
                calls == old(calls) + [Syscall(if t.SharedLock? then SH else EX, wait, Nothing)]
      ensures old(exclusive) == 0 && old(shared) > 0 && t.ExclusiveLock? ==>
                calls == old(calls) + UpgradeCalls(wait, a)
    {
      if t.SharedLock? {
        if shared > 0 || exclusive > 0 {
          shared := shared + 1;
          return true;
        }
        ok := PlatformLock(SH, wait, false, a);
        if ok {
          shared := shared + 1;
        }
        return;
      }
      if exclusive > 0 {
        exclusive := exclusive + 1;
        return true;
      }
      ok := PlatformLock(EX, wait, shared > 0, a);
      if ok {
        exclusive := exclusive + 1;
      }
    }

    method Release(t: LockType) returns (ok: bool)
      requires Agrees()
      modifies this
      ensures Agrees()
      ensures ok == if t.SharedLock? then old(shared) > 0 else old(exclusive) > 0
      ensures shared == old(shared) - (if ok && t.SharedLock? then 1 else 0)
      ensures exclusive == old(exclusive) - (if ok && t.ExclusiveLock? then 1 else 0)
      ensures calls == if kernel == old(kernel) then old(calls) else old(calls) + [Syscall(kernel, true, old(kernel))]
    {
      if t.SharedLock? {
        if shared == 0 {
          return false;
        }
        if shared > 1 || exclusive > 0 {
          shared := shared - 1;
          return true;
        }
        ok := Flock(Nothing, true, true, true);
        shared := shared - 1;
        return;
      }
      if exclusive == 0 {
        return false;
      }
      if exclusive > 1 {
        exclusive := exclusive - 1;
        return true;
      }
      ok := Flock(if shared > 0 then SH else Nothing, true, true, true);
      exclusive := exclusive - 1;
    }
  }

  // ---- the public API's lock discipline ----

  datatype Api = PublicLock | PublicUnlock | PublicTryLock(granted: bool) | Read | Write

  /** The exclusive lock a caller still holds: unlocking without a lock is ignored. */
  function Held(n: nat, op: Api): nat {
    match op
    case PublicLock => n + 1
    case PublicTryLock(granted) => if granted || n > 0 then n + 1 else n
    case PublicUnlock => if n > 0 then n - 1 else n
    case _ => n
  }

  function HeldAfter(n: nat, run: seq<Api>): nat
    decreases |run|
  {
    if run == [] then n else HeldAfter(Held(n, run[0]), run[1..])
  }

  /** A call that the kernel grants at once. */
  function Alone(d: Desc, c: Call): Desc {
    var e := Enter(d, c);
    if e.pc.Idle? then e else Answered(e, Granted)
  }

  /** lockShared/unlockShared around a get, lockExclusive/unlockExclusive around a set. */
  function ApiNext(d: Desc, op: Api): Desc {
    match op
    case PublicLock => Alone(d, Lock(ExclusiveLock))
    case PublicTryLock(granted) =>
      var e := Enter(d, TryLock(ExclusiveLock));
      if granted || e.pc.Idle? then Alone(d, TryLock(ExclusiveLock)) else Answered(e, Refused(true))
    case PublicUnlock => Alone(d, Unlock(ExclusiveLock))
    case Read => Alone(Alone(d, Lock(SharedLock)), Unlock(SharedLock))
    case Write => Alone(Alone(d, Lock(ExclusiveLock)), Unlock(ExclusiveLock))
  }

  function ApiAll(d: Desc, run: seq<Api>): Desc
    decreases |run|
  {
    if run == [] then d else ApiAll(ApiNext(d, run[0]), run[1..])
  }

  /** The state between public calls. */
  predicate Rested(d: Desc) {
    d.pc.Idle? && d.shared == 0 && d.kernel == Claimed(d)
  }

  lemma {:induction false} ApiRests(d: Desc, op: Api)
    requires Rested(d)
    ensures Rested(ApiNext(d, op)) && ApiNext(d, op).exclusive == Held(d.exclusive, op)
  {
  }

  lemma {:induction false} ApiAllRests(d: Desc, run: seq<Api>)
    requires Rested(d)
    ensures Rested(ApiAll(d, run)) && ApiAll(d, run).exclusive == HeldAfter(d.exclusive, run)
    decreases |run|
  {
    hide ApiNext, Held, Rested;
    if run != [] {
      ApiRests(d, run[0]);
      ApiAllRests(ApiNext(d, run[0]), run[1..]);
    }
  }

  /**
   Whatever public calls came before: no shared count is left, the exclusive count is the
   number of outstanding public locks, an exclusive request never takes the upgrade path,
   and while a public lock is held a get or a set enters and leaves without a kernel call.
   */
  lemma {:induction false} LockDiscipline(run: seq<Api>)
    ensures var d := ApiAll(Desc(0, 0, Nothing, Idle), run);
            && d.shared == 0 && d.exclusive == HeldAfter(0, run)
            && !Enter(d, Lock(ExclusiveLock)).pc.Upgrading? && !Enter(d, TryLock(ExclusiveLock)).pc.Upgrading?
            && (d.exclusive > 0 ==>
                  && Enter(Enter(d, Lock(SharedLock)), Unlock(SharedLock)) == d
                  && Enter(Enter(d, Lock(ExclusiveLock)), Unlock(ExclusiveLock)) == d)
  {
    hide ApiAll, HeldAfter;
    ApiAllRests(Desc(0, 0, Nothing, Idle), run);
  }

  /** A granted call adds or takes exactly one count of its kind; releasing what is not held changes nothing. */
  lemma {:induction false} CallsCount(d: Desc, t: LockType)
    requires d.pc.Idle? && DescOk(d)
    ensures var locked, unlocked := Alone(d, Lock(t)), Alone(d, Unlock(t));
            && locked.pc.Idle? && unlocked.pc.Idle? && locked == Alone(d, TryLock(t))
            && locked.shared == d.shared + (if t.SharedLock? then 1 else 0)
            && locked.exclusive == d.exclusive + (if t.ExclusiveLock? then 1 else 0)
            && unlocked.shared == d.shared - (if t.SharedLock? && d.shared > 0 then 1 else 0)
            && unlocked.exclusive == d.exclusive - (if t.ExclusiveLock? && d.exclusive > 0 then 1 else 0)
            && locked.kernel == Claimed(locked) && unlocked.kernel == Claimed(unlocked)
  {
  }

  /** The same on the class: one public call, whatever the kernel does with refused conversions. */
  method RunOne(fl: FileLock, op: Api, kept: bool)
    requires fl.Agrees() && fl.shared == 0
    modifies fl
    ensures fl.Agrees() && fl.shared == 0
    ensures fl.exclusive == Held(old(fl.exclusive), op)
    ensures old(fl.exclusive) > 0 && (op.Read? || op.Write?) ==> fl.calls == old(fl.calls)
  {
    var ok;
    match op
    case PublicLock => ok := fl.Acquire(ExclusiveLock, true, Answers(false, kept, false));
    case PublicTryLock(granted) => ok := fl.Acquire(ExclusiveLock, false, Answers(granted, kept, granted));
    case PublicUnlock => ok := fl.Release(ExclusiveLock);
    case Read =>
      ok := fl.Acquire(SharedLock, true, Answers(false, kept, false));
      ok := fl.Release(SharedLock);
    case Write =>
      ok := fl.Acquire(ExclusiveLock, true, Answers(false, kept, false));
      ok := fl.Release(ExclusiveLock);
  }
}
