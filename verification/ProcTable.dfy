/** Process lifecycle as a machine of atomic steps (kernel/process/proc.c): fork, exit,
    reparent, wait, sleep, wakeup, kill and the scheduler, cut at the acquisition and release
    of wait_lock and of the per-process locks. */
module ProcTable {
  import opened Options

  datatype PState = UNUSED | USED | SLEEPING | RUNNABLE | RUNNING | ZOMBIE

  /** Sleep channels: the address of a process, or any other address. */
  datatype Chan = NoChan | ProcChan(proc: nat) | OtherChan(id: nat)

  /** Where a process stands in the kernel. */
  datatype Pc =
    | Idle                        // in user space or in a call that is not modelled
    | Fork1(np: nat)              // allocproc has returned np, np->lock is held
    | Fork2(np: nat)              // np->lock is released, np has no parent yet
    | Fork3(np: nat)              // np->parent is set
    | Reparent(i: nat)            // exit: next slot of the loop in reparent
    | WakeInit(i: nat, j: nat)    // in wakeup(initproc) for slot i, next slot j
    | WakeParent(j: nat)          // in wakeup(p->parent), next slot j
    | Dying                       // about to take p->lock and become a zombie
    | Exited                      // a zombie that still holds its lock
    | Gone                        // a zombie that the scheduler has switched away from
    | Scan(i: nat, kids: bool)    // wait: next slot of the scan
    | Wait1                       // about to sleep, wait_lock held
    | Wait2                       // sleep: p->lock taken as well
    | Wait3                       // sleep: wait_lock released
    | Switching                   // SLEEPING, p->lock still held
    | Asleep                      // switched away from
    | Retry                       // awake again, about to take wait_lock
    | Blocked                     // asleep in some other call

  datatype Proc = Proc(state: PState, pid: nat, parent: Option<nat>, chan: Chan, killed: bool, locked: bool, pc: Pc)

  datatype Sys = Sys(procs: seq<Proc>, init: nat, nextpid: nat, waitLock: Option<nat>)

  const FREE_SLOT: Proc := Proc(UNUSED, 0, None, NoChan, false, false, Idle)

  datatype ForkStep =
    | ForkAlloc(p: nat, np: nat) | ForkFail(p: nat) | ForkCopied(p: nat) | ForkLink(p: nat) | ForkRun(p: nat)

  datatype ExitStep =
    | ExitBegin(p: nat) | ReparentStep(p: nat) | WakeInitStep(p: nat) | WakeParentStep(p: nat) | Die(p: nat)
    | ExitSwitch(p: nat)

  datatype WaitStep =
    | WaitBegin(p: nat) | ScanStep(p: nat, copyFails: bool) | ScanDone(p: nat) | WaitAgain(p: nat)

  datatype SleepStep =
    | SleepLock(p: nat) | SleepRelease(p: nat) | SleepSet(p: nat) | SleepSwitch(p: nat)

  datatype OtherStep =
    | Schedule(p: nat) | Yield(p: nat) | OtherSleep(p: nat, id: nat) | OtherWake(p: nat) | Kill(p: nat)

  datatype Step = Fork(f: ForkStep) | Exit(e: ExitStep) | Wait(w: WaitStep) | Sleep(l: SleepStep) | Other(o: OtherStep)

  predicate HoldsWaitLock(pc: Pc) {
    pc.Reparent? || pc.WakeInit? || pc.WakeParent? || pc.Dying? || pc.Scan? || pc.Wait1? || pc.Wait2?
  }

  function Set(s: Sys, p: nat, x: Proc): Sys
    requires p < |s.procs|
  {
    s.(procs := s.procs[p := x])
  }

  function Goto(s: Sys, p: nat, pc: Pc): Sys
    requires p < |s.procs|
  {
    Set(s, p, s.procs[p].(pc := pc))
  }

  /** wakeup on one slot. */
  function Wake(x: Proc, ch: Chan): Proc {
    if x.state == SLEEPING && x.chan == ch then x.(state := RUNNABLE) else x
  }

  function ParentChan(x: Proc): Chan {
    if x.parent.Some? then ProcChan(x.parent.value) else NoChan
  }

  predicate CanFork(s: Sys, st: ForkStep) {
    && st.p < |s.procs|
    && var x := s.procs[st.p];
    x.state == RUNNING &&
    match st
    case ForkAlloc(p, np) => x.pc == Idle && np < |s.procs| && s.procs[np].state == UNUSED && !s.procs[np].locked
    case ForkFail(p) => x.pc.Fork1? && x.pc.np < |s.procs|
    case ForkCopied(p) => x.pc.Fork1? && x.pc.np < |s.procs|
    case ForkLink(p) => x.pc.Fork2? && x.pc.np < |s.procs| && s.waitLock.None?
    case ForkRun(p) => x.pc.Fork3? && x.pc.np < |s.procs| && !s.procs[x.pc.np].locked
  }

  /** allocproc, and fork from there on; ForkFail is freeproc on either error path. */
  function DoFork(s: Sys, st: ForkStep): Sys
    requires CanFork(s, st)
  {
    var x := s.procs[st.p];
    match st
    case ForkAlloc(p, np) =>
      Goto(Set(s, np, Proc(USED, s.nextpid, None, NoChan, s.procs[np].killed, true, Idle)), p, Fork1(np))
        .(nextpid := s.nextpid + 1)
    case ForkFail(p) => Goto(Set(s, x.pc.np, FREE_SLOT), p, Idle)
    case ForkCopied(p) => Goto(Set(s, x.pc.np, s.procs[x.pc.np].(locked := false)), p, Fork2(x.pc.np))
    case ForkLink(p) => Goto(Set(s, x.pc.np, s.procs[x.pc.np].(parent := Some(p))), p, Fork3(x.pc.np))
    case ForkRun(p) => Goto(Set(s, x.pc.np, s.procs[x.pc.np].(state := RUNNABLE)), p, Idle)
  }

  predicate CanExit(s: Sys, st: ExitStep) {
    && st.p < |s.procs|
    && var x := s.procs[st.p];
    match st
    case ExitBegin(p) => x.state == RUNNING && x.pc == Idle && p != s.init && s.waitLock.None?
    case ReparentStep(p) => x.state == RUNNING && x.pc.Reparent?
    case WakeInitStep(p) => x.state == RUNNING && x.pc.WakeInit?
      && (x.pc.j < |s.procs| && x.pc.j != p ==> !s.procs[x.pc.j].locked)
    case WakeParentStep(p) => x.state == RUNNING && x.pc.WakeParent?
      && (x.pc.j < |s.procs| && x.pc.j != p ==> !s.procs[x.pc.j].locked)
    case Die(p) => x.state == RUNNING && x.pc == Dying && !x.locked
    case ExitSwitch(p) => x.state == ZOMBIE && x.pc == Exited
  }

  /** exit with the loops of reparent and wakeup; ExitSwitch is the scheduler's release. */
  function DoExit(s: Sys, st: ExitStep): Sys
    requires CanExit(s, st)
  {
    var x := s.procs[st.p];
    match st
    case ExitBegin(p) => Goto(s, p, Reparent(0)).(waitLock := Some(p))
    case ReparentStep(p) =>
      if x.pc.i >= |s.procs| then Goto(s, p, WakeParent(0))
      else if s.procs[x.pc.i].parent == Some(p)
      then Goto(Set(s, x.pc.i, s.procs[x.pc.i].(parent := Some(s.init))), p, WakeInit(x.pc.i, 0))
      else Goto(s, p, Reparent(x.pc.i + 1))
    case WakeInitStep(p) =>
      if x.pc.j >= |s.procs| then Goto(s, p, Reparent(x.pc.i + 1))
      else if x.pc.j == p then Goto(s, p, WakeInit(x.pc.i, x.pc.j + 1))
      else Goto(Set(s, x.pc.j, Wake(s.procs[x.pc.j], ProcChan(s.init))), p, WakeInit(x.pc.i, x.pc.j + 1))
    case WakeParentStep(p) =>
      if x.pc.j >= |s.procs| then Goto(s, p, Dying)
      else if x.pc.j == p then Goto(s, p, WakeParent(x.pc.j + 1))
      else Goto(Set(s, x.pc.j, Wake(s.procs[x.pc.j], ParentChan(x))), p, WakeParent(x.pc.j + 1))
    case Die(p) => Set(s, p, x.(state := ZOMBIE, locked := true, pc := Exited)).(waitLock := None)
    case ExitSwitch(p) => Set(s, p, x.(locked := false, pc := Gone))
  }

  predicate CanWait(s: Sys, st: WaitStep) {
    && st.p < |s.procs|
    && var x := s.procs[st.p];
    x.state == RUNNING &&
    match st
    case WaitBegin(p) => x.pc == Idle && s.waitLock.None?
    case ScanStep(p, _) => x.pc.Scan? && x.pc.i < |s.procs|
      && (s.procs[x.pc.i].parent == Some(p) ==> !s.procs[x.pc.i].locked)
    case ScanDone(p) => x.pc.Scan? && x.pc.i >= |s.procs| && !x.locked
    case WaitAgain(p) => x.pc == Retry && s.waitLock.None?
  }

  /** wait up to its call of sleep; a zombie is freed unless the copy of its status fails. */
  function DoWait(s: Sys, st: WaitStep): Sys
    requires CanWait(s, st)
  {
    var x := s.procs[st.p];
    match st
    case WaitBegin(p) => Goto(s, p, Scan(0, false)).(waitLock := Some(p))
    case ScanStep(p, copyFails) =>
      var c := s.procs[x.pc.i];
      if c.parent != Some(p) then Goto(s, p, Scan(x.pc.i + 1, x.pc.kids))
      else if c.state != ZOMBIE then Goto(s, p, Scan(x.pc.i + 1, true))
      else if copyFails then Goto(s, p, Idle).(waitLock := None)
      else Goto(Set(s, x.pc.i, FREE_SLOT), p, Idle).(waitLock := None)
    case ScanDone(p) =>
      if !x.pc.kids || x.killed then Goto(s, p, Idle).(waitLock := None) else Goto(s, p, Wait1)
    case WaitAgain(p) => Goto(s, p, Scan(0, false)).(waitLock := Some(p))
  }

  /** What wait returns, if the step makes it return. */
  function WaitReturns(s: Sys, st: WaitStep): Option<int>
    requires CanWait(s, st)
  {
    var x := s.procs[st.p];
    match st
    case WaitBegin(p) => None
    case ScanStep(p, copyFails) =>
      var c := s.procs[x.pc.i];
      if c.parent != Some(p) || c.state != ZOMBIE then None else if copyFails then Some(-1) else Some(c.pid)
    case ScanDone(p) => if !x.pc.kids || x.killed then Some(-1) else None
    case WaitAgain(p) => None
  }

  predicate CanSleep(s: Sys, st: SleepStep) {
    && st.p < |s.procs|
    && var x := s.procs[st.p];
    match st
    case SleepLock(p) => x.state == RUNNING && x.pc == Wait1 && !x.locked
    case SleepRelease(p) => x.state == RUNNING && x.pc == Wait2
    case SleepSet(p) => x.state == RUNNING && x.pc == Wait3
    case SleepSwitch(p) => x.state == SLEEPING && x.pc == Switching
  }

  /** sleep(p, &wait_lock) as wait calls it; SleepSwitch is the scheduler's release. */
  function DoSleep(s: Sys, st: SleepStep): Sys
    requires CanSleep(s, st)
  {
    var x := s.procs[st.p];
    match st
    case SleepLock(p) => Set(s, p, x.(locked := true, pc := Wait2))
    case SleepRelease(p) => Goto(s, p, Wait3).(waitLock := None)
    case SleepSet(p) => Set(s, p, x.(chan := ProcChan(p), state := SLEEPING, pc := Switching))
    case SleepSwitch(p) => Set(s, p, x.(locked := false, pc := Asleep))
  }

  predicate CanOther(s: Sys, st: OtherStep) {
    && st.p < |s.procs|
    && var x := s.procs[st.p];
    !x.locked &&
    match st
    case Schedule(p) => x.state == RUNNABLE
    case Yield(p) => x.state == RUNNING && !HoldsWaitLock(x.pc) && !x.pc.Fork1?
    case OtherSleep(p, _) => x.state == RUNNING && x.pc == Idle
    case OtherWake(p) => x.state == SLEEPING && x.chan.OtherChan?
    case Kill(p) => true
  }

  /** The scheduler (and the rest of sleep after it), yield, sleeping in other calls, and kill, which
      for pid 0 finds a free slot. */
  function DoOther(s: Sys, st: OtherStep): Sys
    requires CanOther(s, st)
  {
    var x := s.procs[st.p];
    match st
    case Schedule(p) =>
      Set(s, p, if x.pc == Asleep then x.(state := RUNNING, chan := NoChan, pc := Retry)
                else if x.pc == Blocked then x.(state := RUNNING, chan := NoChan, pc := Idle)
                else x.(state := RUNNING))
    case Yield(p) => Set(s, p, x.(state := RUNNABLE))
    case OtherSleep(p, id) => Set(s, p, x.(state := SLEEPING, chan := OtherChan(id), pc := Blocked))
    case OtherWake(p) => Set(s, p, x.(state := RUNNABLE))
    case Kill(p) => Set(s, p, x.(killed := true, state := if x.state == SLEEPING then RUNNABLE else x.state))
  }

  predicate Enabled(s: Sys, st: Step) {
    match st
    case Fork(f) => CanFork(s, f)
    case Exit(e) => CanExit(s, e)
    case Wait(w) => CanWait(s, w)
    case Sleep(l) => CanSleep(s, l)
    case Other(o) => CanOther(s, o)
  }

  function Do(s: Sys, st: Step): Sys
    requires Enabled(s, st)
  {
    match st
    case Fork(f) => DoFork(s, f)
    case Exit(e) => DoExit(s, e)
    case Wait(w) => DoWait(s, w)
    case Sleep(l) => DoSleep(s, l)
    case Other(o) => DoOther(s, o)
  }
}
