/** The life of one slot of the process table in every run (kernel/process/proc.c): what brings it
    into each state, who its parent is, and who frees it. */
module ProcLife {
  import opened Options
  import opened ProcTable
  import opened ProcInvariant

  // ---- the state of a slot ----

  /** A fork gives back the slot it has taken. */
  predicate Undone(s: Sys, st: Step, q: nat) {
    st.Fork? && st.f.ForkFail? && st.f.p < |s.procs| && s.procs[st.f.p].pc == Fork1(q)
  }

  /** wait comes to a zombie child of p in slot q and returns it. */
  predicate Reaps(s: Sys, st: Step, p: nat, q: nat) {
    && st == Wait(ScanStep(p, false)) && p < |s.procs| && s.procs[p].pc.Scan? && s.procs[p].pc.i == q
    && q < |s.procs| && s.procs[q].parent == Some(p) && s.procs[q].state == ZOMBIE
  }

  predicate Freed(s: Sys, st: Step, q: nat) {
    Undone(s, st, q) || (st.Wait? && Reaps(s, st, st.w.p, q))
  }

  /** An exiting process comes to slot q, which sleeps on init's or on its parent's channel. */
  predicate Called(s: Sys, st: Step, q: nat)
    requires q < |s.procs|
  {
    && st.Exit? && st.e.p < |s.procs| && st.e.p != q && s.procs[q].state == SLEEPING
    && var x := s.procs[st.e.p];
    || (st.e.WakeInitStep? && x.pc.WakeInit? && x.pc.j == q && s.procs[q].chan == ProcChan(s.init))
    || (st.e.WakeParentStep? && x.pc.WakeParent? && x.pc.j == q && x.parent.Some? && s.procs[q].chan == ProcChan(x.parent.value))
  }

  /** What puts slot q into a state that it was not in. */
  predicate Enters(s: Sys, st: Step, q: nat, to: PState)
    requires q < |s.procs|
  {
    match to
    case UNUSED => Freed(s, st, q)
    case USED => st.Fork? && st.f.ForkAlloc? && st.f.np == q
    case SLEEPING => st == Sleep(SleepSet(q)) || (st.Other? && st.o.OtherSleep? && st.o.p == q)
    case RUNNABLE =>
      || (st.Fork? && st.f.ForkRun? && st.f.p < |s.procs| && s.procs[st.f.p].pc == Fork3(q))
      || st == Other(Yield(q)) || st == Other(OtherWake(q)) || Called(s, st, q)
      || (st == Other(Kill(q)) && s.procs[q].state == SLEEPING)
    case RUNNING => st == Other(Schedule(q))
    case ZOMBIE => st == Exit(Die(q))
  }

  predicate Turns(s: Sys, st: Step, s': Sys, q: nat, to: PState)
    requires q < |s.procs| == |s'.procs|
  {
    (s.procs[q].state != to && s'.procs[q].state == to) <==> Enters(s, st, q, to)
  }

  lemma ForkTurns(s: Sys, f: ForkStep, q: nat, to: PState)
    requires Inv(s) && CanFork(s, f) && q < |s.procs|
    ensures Turns(s, Fork(f), DoFork(s, f), q, to)
  {
    Known(s, f.p, f.p);
    hide Inv, Forest, Wakeful, LockOk, SlotOk;
  }

  lemma ExitState(s: Sys, e: ExitStep, q: nat)
    requires CanExit(s, e) && q < |s.procs| && (s.procs[q].state == SLEEPING ==> s.procs[q].chan != NoChan)
    ensures |DoExit(s, e).procs| == |s.procs|
    ensures Called(s, Exit(e), q) ==> s.procs[q].state == SLEEPING
    ensures e == Die(q) ==> s.procs[q].state == RUNNING
    ensures DoExit(s, e).procs[q].state ==
      if Called(s, Exit(e), q) then RUNNABLE else if e == Die(q) then ZOMBIE else s.procs[q].state
  {}

  lemma ExitTurns(s: Sys, e: ExitStep, q: nat, to: PState)
    requires Inv(s) && CanExit(s, e) && q < |s.procs|
    ensures Turns(s, Exit(e), DoExit(s, e), q, to)
  {
    hide Inv, CanExit, Called;
    if s.procs[q].state == SLEEPING { SleepsSomewhere(s, q); }
    ExitState(s, e, q);
    hide DoExit;
  }

  lemma SleepsSomewhere(s: Sys, q: nat)
    requires Inv(s) && q < |s.procs| && s.procs[q].state == SLEEPING
    ensures s.procs[q].chan != NoChan
  {
    Known(s, q, q);
    hide Inv, Forest, Wakeful, LockOk, ForkOk;
  }

  lemma WaitTurns(s: Sys, w: WaitStep, q: nat, to: PState)
    requires Inv(s) && CanWait(s, w) && q < |s.procs|
    ensures Turns(s, Wait(w), DoWait(s, w), q, to)
  {
    hide Inv;
  }

  lemma SleepTurns(s: Sys, l: SleepStep, q: nat, to: PState)
    requires CanSleep(s, l) && q < |s.procs|
    ensures Turns(s, Sleep(l), DoSleep(s, l), q, to)
  {}

  lemma OtherTurns(s: Sys, o: OtherStep, q: nat, to: PState)
    requires CanOther(s, o) && q < |s.procs|
    ensures Turns(s, Other(o), DoOther(s, o), q, to)
  {}

  /** In every run: a slot becomes free, taken, asleep, ready, running or a zombie exactly by the
      steps of `Enters`. */
  lemma StateTurns(s: Sys, st: Step, q: nat, to: PState)
    requires Inv(s) && Enabled(s, st) && q < |s.procs|
    ensures |Do(s, st).procs| == |s.procs| && Turns(s, st, Do(s, st), q, to)
  {
    hide Inv, Turns, CanFork, CanExit, CanWait, CanSleep, CanOther;
    SameSize(s, st);
    hide DoFork, DoExit, DoWait, DoSleep, DoOther;
    match st
    case Fork(f) => ForkTurns(s, f, q, to);
    case Exit(e) => ExitTurns(s, e, q, to);
    case Wait(w) => WaitTurns(s, w, q, to);
    case Sleep(l) => SleepTurns(s, l, q, to);
    case Other(o) => OtherTurns(s, o, q, to);
  }

  // ---- where a process stands ----

  /** The process that takes the step. */
  function Actor(st: Step): nat {
    match st
    case Fork(f) => f.p
    case Exit(e) => e.p
    case Wait(w) => w.p
    case Sleep(l) => l.p
    case Other(o) => o.p
  }

  lemma ForkOthersPc(s: Sys, f: ForkStep, q: nat)
    requires Inv(s) && CanFork(s, f) && q < |s.procs| && q != f.p
    ensures DoFork(s, f).procs[q].pc == s.procs[q].pc
  {
    Known(s, f.p, q);
    Known(s, q, q);
    if Forking(s.procs[f.p].pc) { Known(s, s.procs[f.p].pc.np, q); }
    hide Inv, Forest, Wakeful, LockOk;
  }

  /** Nobody else moves a process on, except that wait frees a zombie. */
  lemma OthersPc(s: Sys, st: Step, q: nat)
    requires Inv(s) && Enabled(s, st) && q < |s.procs| && q != Actor(st)
    ensures |Do(s, st).procs| == |s.procs|
    ensures Do(s, st).procs[q].pc == s.procs[q].pc || (s.procs[q].pc == Gone && Freed(s, st, q) && Do(s, st).procs[q].pc == Idle)
  {
    SameSize(s, st);
    match st
    case Fork(f) => ForkOthersPc(s, f, q);
    case Exit(e) => hide Inv;
    case Wait(w) => Known(s, q, q); hide Inv, Forest, Wakeful, LockOk, ForkOk;
    case Sleep(l) => hide Inv;
    case Other(o) => hide Inv;
  }

  // ---- who frees a slot, and who is forking into it ----

  /** wait that returns a child: exactly its slot is freed, and all others but the caller's stay. */
  lemma ReapsOne(s: Sys, st: Step, p: nat, q: nat)
    requires Inv(s) && Enabled(s, st) && Reaps(s, st, p, q)
    ensures p != q && Do(s, st).procs == s.procs[q := FREE_SLOT][p := s.procs[p].(pc := Idle)]
    ensures Do(s, st).waitLock == None && s.waitLock == Some(p)
  {
    Known(s, p, q);
    hide Inv, Forest, Wakeful, ForkOk;
  }

  /** Every taken slot is being forked into. */
  ghost predicate Taken(s: Sys, q: nat) {
    q < |s.procs| && s.procs[q].state == USED ==>
      exists p: nat :: p < |s.procs| && Forking(s.procs[p].pc) && s.procs[p].pc.np == q
  }

  /** p forks into q, and goes on doing so as long as q is not ready. */
  lemma ForkerStays(s: Sys, st: Step, p: nat, q: nat)
    requires Inv(s) && Enabled(s, st) && p < |s.procs| && q < |s.procs|
    requires Forking(s.procs[p].pc) && s.procs[p].pc.np == q
    ensures |Do(s, st).procs| == |s.procs|
    ensures Do(s, st).procs[q].state == USED ==> Forking(Do(s, st).procs[p].pc) && Do(s, st).procs[p].pc.np == q
  {
    SameSize(s, st);
    if st.Fork? {
      ForkerForks(s, st.f, p, q);
    } else {
      hide Inv, Do;
      if Actor(st) == p { OwnStep(s, st); } else { OthersPc(s, st, p); }
    }
  }

  lemma ForkerForks(s: Sys, f: ForkStep, p: nat, q: nat)
    requires Inv(s) && CanFork(s, f) && p < |s.procs| && q < |s.procs|
    requires Forking(s.procs[p].pc) && s.procs[p].pc.np == q
    ensures var s' := DoFork(s, f);
      s'.procs[q].state == USED ==> Forking(s'.procs[p].pc) && s'.procs[p].pc.np == q
  {
    Known(s, p, p);
    Known(s, f.p, p);
    hide Inv, Forest, Wakeful, LockOk;
  }

  /** A process that forks takes no other step but the scheduler's. */
  lemma OwnStep(s: Sys, st: Step)
    requires Enabled(s, st) && !st.Fork? && Actor(st) < |s.procs| && Forking(s.procs[Actor(st)].pc)
    ensures |Do(s, st).procs| == |s.procs| && Do(s, st).procs[Actor(st)].pc == s.procs[Actor(st)].pc
  {}

  lemma TakenStep(s: Sys, st: Step, q: nat)
    requires Inv(s) && Enabled(s, st) && Taken(s, q)
    ensures Taken(Do(s, st), q)
  {
    SameSize(s, st);
    if q < |s.procs| && Do(s, st).procs[q].state == USED {
      StateTurns(s, st, q, USED);
      hide Inv, Enabled, Do;
      if s.procs[q].state == USED {
        var p: nat :| p < |s.procs| && Forking(s.procs[p].pc) && s.procs[p].pc.np == q;
        ForkerStays(s, st, p, q);
      } else {
        TakenNow(s, st.f);
      }
    }
  }

  lemma TakenNow(s: Sys, f: ForkStep)
    requires CanFork(s, f) && f.ForkAlloc? && f.p != f.np
    ensures |DoFork(s, f).procs| == |s.procs| && DoFork(s, f).procs[f.p].pc == Fork1(f.np)
  {}

  /** In every run, pid 0 is that of the free slots, and of no other: kill(0) finds one of these. */
  lemma PidZero(s: Sys, q: nat)
    requires Inv(s) && q < |s.procs|
    ensures s.procs[q].pid == 0 <==> !InUse(s.procs[q])
  {
    Known(s, q, q);
    hide Inv, ForkOk, LockOk, Wakeful;
  }

  // ---- the parent ----

  /** A parent is set by fork, replaced by init when it exits, and forgotten when the slot is freed. */
  function ParentAfter(s: Sys, st: Step, c: nat): Option<nat>
    requires c < |s.procs|
  {
    if st.Fork? && st.f.ForkLink? && st.f.p < |s.procs| && s.procs[st.f.p].pc == Fork2(c) then Some(st.f.p)
    else if Freed(s, st, c) then None
    else if st.Exit? && st.e.ReparentStep? && st.e.p < |s.procs| && s.procs[st.e.p].pc == Reparent(c)
      && s.procs[c].parent == Some(st.e.p) then Some(s.init)
    else s.procs[c].parent
  }

  lemma ForkParent(s: Sys, f: ForkStep, c: nat)
    requires Inv(s) && CanFork(s, f) && c < |s.procs|
    ensures DoFork(s, f).procs[c].parent == ParentAfter(s, Fork(f), c)
  {
    Known(s, f.p, f.p);
    Known(s, c, c);
    hide Inv, Forest, Wakeful, LockOk;
  }

  lemma ExitParent(s: Sys, e: ExitStep, c: nat)
    requires CanExit(s, e) && c < |s.procs|
    ensures DoExit(s, e).procs[c].parent == ParentAfter(s, Exit(e), c)
  {}

  lemma ParentStep(s: Sys, st: Step, c: nat)
    requires Inv(s) && Enabled(s, st) && c < |s.procs|
    ensures |Do(s, st).procs| == |s.procs| && Do(s, st).procs[c].parent == ParentAfter(s, st, c)
  {
    SameSize(s, st);
    match st
    case Fork(f) => ForkParent(s, f, c);
    case Exit(e) => ExitParent(s, e, c);
    case Wait(w) => hide Inv;
    case Sleep(l) => hide Inv;
    case Other(o) => hide Inv;
  }

  // ---- whole runs ----

  /** Slot c is not freed on the way. */
  ghost predicate Unfreed(s: Sys, steps: seq<Step>, c: nat)
    decreases |steps|
  {
    steps != [] ==> Enabled(s, steps[0]) && !Freed(s, steps[0], c) && Unfreed(Do(s, steps[0]), steps[1..], c)
  }

  lemma {:induction false} RunTaken(s: Sys, steps: seq<Step>, s': Sys, q: nat)
    requires Inv(s) && Reaches(s, steps, s') && Taken(s, q)
    ensures Taken(s', q)
    decreases |steps|
  {
    hide Inv, Enabled, Do, Taken;
    if steps != [] {
      StepKeeps(s, steps[0]);
      TakenStep(s, steps[0], q);
      RunTaken(Do(s, steps[0]), steps[1..], s', q);
    }
  }

  /** fork leaks no slot: in every run, a slot that is taken but not ready is the one slot that some
      process is forking into. */
  lemma NoSlotLeaks(s0: Sys, steps: seq<Step>, s: Sys, q: nat) returns (p: nat)
    requires Boot(s0) && Reaches(s0, steps, s) && q < |s.procs| && s.procs[q].state == USED
    ensures p < |s.procs| && Forking(s.procs[p].pc) && s.procs[p].pc.np == q
    ensures forall r: nat :: r < |s.procs| && r != p && Forking(s.procs[r].pc) ==> s.procs[r].pc.np != q
  {
    BootInv(s0);
    RunKeeps(s0, steps, s);
    RunTaken(s0, steps, s, q);
    hide Boot, Reaches;
    p :| p < |s.procs| && Forking(s.procs[p].pc) && s.procs[p].pc.np == q;
    forall r: nat | r < |s.procs| && r != p && Forking(s.procs[r].pc) ensures s.procs[r].pc.np != q {
      Known(s, p, r);
      hide Inv, SlotOk, LockOk, ForkOk, Forest, Wakeful;
    }
  }

  /** What the invariant says about the parent of c. */
  lemma ParentKnown(s: Sys, st: Step, c: nat, p: nat)
    requires Inv(s) && Enabled(s, st) && c < |s.procs| && s.procs[c].parent == Some(p) && !Freed(s, st, c)
    ensures ParentAfter(s, st, c) == Some(if st == Exit(ReparentStep(p)) && s.procs[p].pc == Reparent(c) then s.init else p)
    ensures st == Exit(ReparentStep(p)) || st == Exit(Die(p)) ==> p != s.init
    ensures st != Exit(Die(p))
  {
    Known(s, c, c);
    Known(s, c, p);
    Known(s, s.init, s.init);
    if st.Fork? { Known(s, st.f.p, c); }
    hide Inv, Wakeful, SlotOk, LockOk, ForksApart, ForkedBy, PidOk;
  }

  /** The parent of a process is the one that forked it, and init from when that one has exited. */
  lemma {:induction false} RunParent(s: Sys, steps: seq<Step>, s': Sys, c: nat, p: nat)
    requires Inv(s) && Reaches(s, steps, s') && Unfreed(s, steps, c) && c < |s.procs| && s.procs[c].parent == Some(p)
    ensures c < |s'.procs| && (s'.procs[c].parent == Some(p) || s'.procs[c].parent == Some(s.init))
    ensures Exit(ReparentStep(p)) !in steps ==> s'.procs[c].parent == Some(p)
    ensures Exit(Die(p)) in steps ==> s'.procs[c].parent == Some(s.init)
    decreases |steps|
  {
    hide Inv, Enabled, Do, ParentAfter, Freed;
    if steps != [] {
      var st, s1 := steps[0], Do(s, steps[0]);
      StepKeeps(s, st);
      SameSize(s, st);
      ParentStep(s, st, c);
      ParentKnown(s, st, c, p);
      assert steps == [st] + steps[1..];
      RunParent(s1, steps[1..], s', c, s1.procs[c].parent.value);
    }
  }
}
