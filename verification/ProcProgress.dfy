/** Nobody is stuck (kernel/process/proc.c): whoever holds a lock of the process table has a next step
    to take, or waits for one who has, and every process has its turn. */
module ProcProgress {
  import opened Options
  import opened ProcTable
  import opened ProcInvariant
  import opened ProcLife

  // ---- process locks ----

  /** How many steps the holder of the lock of a slot is from releasing it. */
  function Hold(x: Proc): nat {
    if !x.locked then 0 else if x.pc.Wait2? then 3 else if x.pc.Wait3? then 2 else 1
  }

  /** The holder of the lock of a slot is a process in sleep or exit that has the lock of its own slot,
      or one in fork that has its child's. */
  predicate Holds(s: Sys, st: Step, q: nat) {
    q < |s.procs| &&
    match st
    case Sleep(l) => !l.SleepLock? && l.p == q
    case Exit(e) => e == ExitSwitch(q)
    case Fork(f) => f.ForkCopied? && f.p < |s.procs| && s.procs[f.p].pc == Fork1(q)
    case _ => false
  }

  lemma Runs(s: Sys, p: nat)
    requires Inv(s) && p < |s.procs|
    ensures s.procs[p].pc.Fork1? || HoldsWaitLock(s.procs[p].pc) ==> s.procs[p].state == RUNNING
    ensures s.procs[p].locked && s.procs[p].state == RUNNING ==> s.procs[p].pc.Wait2? || s.procs[p].pc.Wait3?
    ensures s.procs[p].locked && s.procs[p].state != USED ==>
      || (s.procs[p].state == RUNNING && (s.procs[p].pc.Wait2? || s.procs[p].pc.Wait3?))
      || (s.procs[p].state == SLEEPING && s.procs[p].pc.Switching?) || (s.procs[p].state == ZOMBIE && s.procs[p].pc.Exited?)
  {
    Known(s, p, p);
    hide Inv, Forest, Wakeful, LockOk, ForkOk;
  }

  lemma ForkerOf(s: Sys, q: nat) returns (p: nat)
    requires Inv(s) && q < |s.procs| && Taken(s, q) && s.procs[q].state == USED && s.procs[q].locked
    ensures p < |s.procs| && s.procs[p].pc == Fork1(q) && s.procs[p].state == RUNNING && p != q
  {
    p :| p < |s.procs| && Forking(s.procs[p].pc) && s.procs[p].pc.np == q;
    Runs(s, p);
    Known(s, p, p);
    hide Inv, Forest, Wakeful, LockOk, SlotOk;
  }

  /** Whoever holds the lock of a process can go on, and is one step nearer to releasing it. */
  lemma HolderSteps(s: Sys, q: nat) returns (st: Step)
    requires Inv(s) && q < |s.procs| && Taken(s, q) && s.procs[q].locked
    ensures Enabled(s, st) && Holds(s, st, q)
    ensures |Do(s, st).procs| == |s.procs| && Hold(Do(s, st).procs[q]) < Hold(s.procs[q])
  {
    Runs(s, q);
    var x := s.procs[q];
    if x.state == USED {
      var p := ForkerOf(s, q);
      st := Fork(ForkCopied(p));
      hide Inv, Taken;
    } else {
      hide Inv, Taken;
      st := if x.pc.Wait2? then Sleep(SleepRelease(q)) else if x.pc.Wait3? then Sleep(SleepSet(q))
            else if x.pc.Switching? then Sleep(SleepSwitch(q)) else Exit(ExitSwitch(q));
    }
  }

  // ---- wait_lock ----

  /** The slot whose lock the holder of wait_lock needs next, if it does. */
  function Wants(s: Sys, p: nat): Option<nat>
    requires p < |s.procs|
  {
    var pc := s.procs[p].pc;
    if (pc.WakeInit? || pc.WakeParent?) && pc.j < |s.procs| && pc.j != p then Some(pc.j)
    else if pc.Scan? && pc.i < |s.procs| && s.procs[pc.i].parent == Some(p) then Some(pc.i)
    else None
  }

  /** The next step of the holder of wait_lock. */
  function Onward(s: Sys, p: nat): Step
    requires p < |s.procs|
  {
    match s.procs[p].pc
    case Reparent(_) => Exit(ReparentStep(p))
    case WakeInit(_, _) => Exit(WakeInitStep(p))
    case WakeParent(_) => Exit(WakeParentStep(p))
    case Dying => Exit(Die(p))
    case Scan(i, _) => if i < |s.procs| then Wait(ScanStep(p, false)) else Wait(ScanDone(p))
    case Wait1 => Sleep(SleepLock(p))
    case _ => Sleep(SleepRelease(p))
  }

  /** The holder of wait_lock can go on, or waits for the lock of another process. */
  lemma OnwardEnabled(s: Sys, p: nat)
    requires Inv(s) && p < |s.procs| && s.waitLock == Some(p)
    ensures Enabled(s, Onward(s, p)) <==> (Wants(s, p).Some? ==> !s.procs[Wants(s, p).value].locked)
    ensures Wants(s, p).Some? ==> Wants(s, p).value != p
  {
    Runs(s, p);
    Known(s, p, p);
    if Wants(s, p).Some? { Known(s, Wants(s, p).value, p); }
    hide Inv, Wakeful, ForkOk, SlotOk, HasParent, ForksApart, ForkedBy;
  }

  /** Steps for k slots in reparent, each with a wakeup over all of n. */
  function Rounds(n: nat, k: nat): nat {
    if k == 0 then 0 else n + 2 + Rounds(n, k - 1)
  }

  function Rest(n: nat, i: nat): nat {
    if i < n then n - i else 0
  }

  /** How many own steps the holder of wait_lock is from releasing it, at most. */
  function Far(n: nat, pc: Pc): nat {
    match pc
    case Reparent(i) => n + 3 + Rounds(n, Rest(n, i))
    case WakeInit(i, j) => n + 3 + Rounds(n, Rest(n, i + 1)) + Rest(n, j) + 1
    case WakeParent(j) => Rest(n, j) + 2
    case Dying => 1
    case Scan(i, _) => Rest(n, i) + 3
    case Wait1 => 2
    case _ => 1
  }

  lemma OnwardNearer(s: Sys, p: nat)
    requires Inv(s) && p < |s.procs| && s.waitLock == Some(p) && Enabled(s, Onward(s, p))
    ensures |Do(s, Onward(s, p)).procs| == |s.procs|
    ensures Do(s, Onward(s, p)).waitLock == None || Do(s, Onward(s, p)).waitLock == Some(p)
    ensures Do(s, Onward(s, p)).waitLock == Some(p) ==>
      Far(|s.procs|, Do(s, Onward(s, p)).procs[p].pc) < Far(|s.procs|, s.procs[p].pc)
  {
    assert HoldsWaitLock(s.procs[p].pc) by { Known(s, p, p); }
    hide Inv;
    match s.procs[p].pc
    case Reparent(_) => ExitNearer(s, ReparentStep(p));
    case WakeInit(_, _) => ExitNearer(s, WakeInitStep(p));
    case WakeParent(_) => ExitNearer(s, WakeParentStep(p));
    case Dying =>
    case Scan(_, _) => WaitNearer(s, p);
    case Wait1 =>
    case _ =>
  }

  lemma ExitNearer(s: Sys, e: ExitStep)
    requires CanExit(s, e) && (e.ReparentStep? || e.WakeInitStep? || e.WakeParentStep?)
    ensures |DoExit(s, e).procs| == |s.procs| && DoExit(s, e).waitLock == s.waitLock
    ensures Far(|s.procs|, DoExit(s, e).procs[e.p].pc) < Far(|s.procs|, s.procs[e.p].pc)
  {}

  lemma WaitNearer(s: Sys, p: nat)
    requires p < |s.procs| && s.procs[p].pc.Scan? && Enabled(s, Onward(s, p)) && s.waitLock == Some(p)
    ensures var s' := Do(s, Onward(s, p));
      && |s'.procs| == |s.procs| && (s'.waitLock == None || s'.waitLock == Some(p))
      && (s'.waitLock == Some(p) ==> Far(|s.procs|, s'.procs[p].pc) < Far(|s.procs|, s.procs[p].pc))
  {}

  /** The holder of another lock leaves wait_lock and its holder alone. */
  lemma HolderApart(s: Sys, st: Step, p: nat, q: nat)
    requires Inv(s) && p < |s.procs| && s.waitLock == Some(p) && q != p && Enabled(s, st) && Holds(s, st, q)
    ensures |Do(s, st).procs| == |s.procs| && Do(s, st).waitLock == s.waitLock && Do(s, st).procs[p].pc == s.procs[p].pc
    ensures forall c: nat :: c < |s.procs| ==> Do(s, st).procs[c].parent == s.procs[c].parent
  {
    Known(s, p, p);
    Known(s, q, q);
    hide Inv, Forest, Wakeful, SlotOk;
  }

  ghost predicate AllTaken(s: Sys) {
    forall q: nat :: q < |s.procs| ==> Taken(s, q)
  }

  lemma AllTakenStep(s: Sys, st: Step)
    requires Inv(s) && Enabled(s, st) && AllTaken(s)
    ensures AllTaken(Do(s, st))
  {
    hide Inv, Enabled, Do, Taken;
    SameSize(s, st);
    forall q: nat | q < |s.procs| ensures Taken(Do(s, st), q) { TakenStep(s, st, q); }
  }

  function Delay(s: Sys, p: nat): nat
    requires p < |s.procs|
  {
    if Wants(s, p).Some? then Hold(s.procs[Wants(s, p).value]) else 0
  }

  /** A step of the run that frees wait_lock: its holder's, or that of whoever holds the lock it needs. */
  predicate Towards(s: Sys, st: Step, p: nat)
    requires p < |s.procs|
  {
    st == Onward(s, p) || (Wants(s, p).Some? && Holds(s, st, Wants(s, p).value))
  }

  lemma OneNearer(s: Sys, p: nat) returns (st: Step)
    requires Inv(s) && AllTaken(s) && p < |s.procs| && s.waitLock == Some(p)
    ensures Enabled(s, st) && Towards(s, st, p) && |Do(s, st).procs| == |s.procs|
    ensures Do(s, st).waitLock == None ||
      (Do(s, st).waitLock == Some(p) &&
        (Far(|s.procs|, Do(s, st).procs[p].pc) < Far(|s.procs|, s.procs[p].pc)
          || (Far(|s.procs|, Do(s, st).procs[p].pc) == Far(|s.procs|, s.procs[p].pc) && Delay(Do(s, st), p) < Delay(s, p))))
  {
    OnwardEnabled(s, p);
    if Enabled(s, Onward(s, p)) {
      st := Onward(s, p);
      OnwardNearer(s, p);
    } else {
      var q := Wants(s, p).value;
      assert Taken(s, q);
      st := HolderSteps(s, q);
      HolderApart(s, st, p, q);
    }
  }

  /** Whoever steps next, wait_lock is never held for good: from every state of every run it can be
      freed by steps of its holder and of those who hold the locks that one needs. */
  lemma {:induction false} LockFrees(s: Sys, p: nat) returns (steps: seq<Step>, s': Sys)
    requires Inv(s) && AllTaken(s) && p < |s.procs| && s.waitLock == Some(p)
    ensures Reaches(s, steps, s') && s'.waitLock == None
    decreases Far(|s.procs|, s.procs[p].pc), Delay(s, p)
  {
    hide Inv, AllTaken, Enabled, Do, Far, Delay, Wants;
    var st := OneNearer(s, p);
    StepKeeps(s, st);
    AllTakenStep(s, st);
    var s1 := Do(s, st);
    if s1.waitLock == None {
      steps, s' := [st], s1;
      assert [st][1..] == [];
    } else {
      steps, s' := LockFrees(s1, p);
      assert ([st] + steps)[1..] == steps;
      steps := [st] + steps;
    }
  }

  /** In every run, a held wait_lock can be freed. */
  lemma WaitLockFrees(s0: Sys, run: seq<Step>, s: Sys) returns (steps: seq<Step>, s': Sys)
    requires Boot(s0) && Reaches(s0, run, s) && s.waitLock.Some?
    ensures Reaches(s, steps, s') && s'.waitLock == None
  {
    BootInv(s0);
    RunKeeps(s0, run, s);
    hide Boot, Reaches;
    forall q: nat | q < |s.procs| ensures Taken(s, q) {
      RunTaken(s0, run, s, q);
    }
    steps, s' := LockFrees(s, s.waitLock.value);
  }

  // ---- everyone else ----

  /** p waits for wait_lock, which another process holds. */
  predicate Queues(s: Sys, p: nat) {
    && p < |s.procs| && s.waitLock.Some? && s.waitLock != Some(p)
    && (s.procs[p].pc == Retry || s.procs[p].pc.Fork2?)
  }

  /** In every run, a process that is in use has a step to take, unless it sleeps in wait, is a zombie
      that its parent has not waited for, is being forked, or waits for a lock. */
  lemma EveryoneMoves(s: Sys, p: nat) returns (st: Step)
    requires Inv(s) && p < |s.procs| && InUse(s.procs[p]) && s.waitLock != Some(p) && !Queues(s, p)
    requires s.procs[p].state != USED && s.procs[p].pc != Gone && !(s.procs[p].state == SLEEPING && s.procs[p].pc == Asleep)
    ensures Enabled(s, st) && Actor(st) == p && st != Other(Kill(p))
  {
    Known(s, p, p);
    hide Inv, Forest, Wakeful;
    var x := s.procs[p];
    st := match x.state
      case RUNNABLE => Other(Schedule(p))
      case ZOMBIE => Exit(ExitSwitch(p))
      case SLEEPING => if x.pc.Switching? then Sleep(SleepSwitch(p)) else Other(OtherWake(p))
      case _ =>
        if x.pc.Idle? then Other(Yield(p))
        else if x.pc.Fork1? then Fork(ForkCopied(p))
        else if x.pc.Fork2? then Fork(ForkLink(p))
        else if x.pc.Fork3? then Fork(ForkRun(p))
        else if x.pc.Retry? then Wait(WaitAgain(p))
        else Sleep(SleepSet(p));
  }

  /** In every run, a process in user space can fork when there is a free slot, and can wait, and exit
      unless it is init, when wait_lock is free. */
  lemma CallsMay(s: Sys, p: nat)
    requires Inv(s) && p < |s.procs| && s.procs[p].state == RUNNING && s.procs[p].pc == Idle
    ensures forall np: nat :: np < |s.procs| && !InUse(s.procs[np]) ==> CanFork(s, ForkAlloc(p, np))
    ensures s.waitLock == None <==> CanWait(s, WaitBegin(p))
    ensures s.waitLock == None && p != s.init <==> CanExit(s, ExitBegin(p))
  {
    forall np: nat | np < |s.procs| && !InUse(s.procs[np]) ensures !s.procs[np].locked {
      Known(s, np, np);
      hide Inv, Forest, Wakeful, LockOk, ForkOk;
    }
    hide Inv;
  }
}
