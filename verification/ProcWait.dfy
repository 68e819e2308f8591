/** wait in every run (kernel/process/proc.c): when it sleeps, when it gives up, and what it
    returns. */
module ProcWait {
  import opened Options
  import opened ProcTable
  import opened ProcInvariant
  import opened ProcLife

  // ---- what the scan knows ----

  ghost predicate ChildBelow(s: Sys, p: nat, i: nat) {
    exists c: nat :: c < i && c < |s.procs| && s.procs[c].parent == Some(p)
  }

  ghost predicate HasChild(s: Sys, p: nat) {
    ChildBelow(s, p, |s.procs|)
  }

  /** `havekids` is set exactly when the scan has passed a child. */
  ghost predicate ScanOk(s: Sys, p: nat) {
    p < |s.procs| && s.procs[p].pc.Scan? ==>
      s.procs[p].pc.i <= |s.procs| && (s.procs[p].pc.kids <==> ChildBelow(s, p, s.procs[p].pc.i))
  }

  /** While p scans, nobody else changes a parent: the links are under wait_lock. */
  lemma LinksStand(s: Sys, st: Step, p: nat, c: nat)
    requires Inv(s) && Enabled(s, st) && p < |s.procs| && c < |s.procs| && s.procs[p].pc.Scan?
    requires Actor(st) == p ==> !st.Wait?
    ensures |Do(s, st).procs| == |s.procs| && Do(s, st).procs[c].parent == s.procs[c].parent
  {
    ParentStep(s, st, c);
    hide Do;
    Known(s, p, p);
    Known(s, Actor(st), c);
    hide Inv, Forest, Wakeful, SlotOk, ForksApart, ForkedBy;
  }

  /** p's own step of the scan. */
  lemma ScanMoves(s: Sys, w: WaitStep)
    requires CanWait(s, w) && ScanOk(s, w.p)
    ensures ScanOk(DoWait(s, w), w.p)
  {
    var p, s' := w.p, DoWait(s, w);
    if s.procs[p].pc.Scan? && s'.procs[p].pc.Scan? {
      var i := s.procs[p].pc.i;
      assert forall c :: 0 <= c < |s.procs| ==> s'.procs[c].parent == s.procs[c].parent;
      if ChildBelow(s, p, i) {
        var c: nat :| c < i && c < |s.procs| && s.procs[c].parent == Some(p);
        assert s'.procs[c].parent == Some(p);
      }
      if ChildBelow(s', p, i + 1) {
        var c: nat :| c < i + 1 && c < |s'.procs| && s'.procs[c].parent == Some(p);
        assert s.procs[c].parent == Some(p);
      }
      assert s'.procs[i].parent == s.procs[i].parent;
    }
  }

  lemma NotScanning(s: Sys, st: Step)
    requires Enabled(s, st) && !st.Wait? && Actor(st) < |s.procs|
    ensures |Do(s, st).procs| == |s.procs|
    ensures Do(s, st).procs[Actor(st)].pc.Scan? ==> Do(s, st).procs[Actor(st)].pc == s.procs[Actor(st)].pc
  {}

  lemma ScanStays(s: Sys, st: Step, p: nat)
    requires Inv(s) && Enabled(s, st) && ScanOk(s, p)
    ensures ScanOk(Do(s, st), p)
  {
    SameSize(s, st);
    if p < |s.procs| && st.Wait? && st.w.p == p {
      ScanMoves(s, st.w);
    } else if p < |s.procs| && Do(s, st).procs[p].pc.Scan? {
      hide Inv, Enabled, Do;
      if Actor(st) == p { NotScanning(s, st); } else { OthersPc(s, st, p); }
      var i, s' := s.procs[p].pc.i, Do(s, st);
      forall c: nat | c < |s.procs| ensures s'.procs[c].parent == s.procs[c].parent { LinksStand(s, st, p, c); }
      if ChildBelow(s, p, i) {
        var c: nat :| c < i && c < |s.procs| && s.procs[c].parent == Some(p);
        assert s'.procs[c].parent == Some(p);
      }
    }
  }

  lemma {:induction false} RunScans(s: Sys, steps: seq<Step>, s': Sys, p: nat)
    requires Inv(s) && Reaches(s, steps, s') && ScanOk(s, p)
    ensures ScanOk(s', p)
    decreases |steps|
  {
    hide Inv, Enabled, Do, ScanOk;
    if steps != [] {
      StepKeeps(s, steps[0]);
      ScanStays(s, steps[0], p);
      RunScans(Do(s, steps[0]), steps[1..], s', p);
    }
  }

  lemma BootScans(s0: Sys, steps: seq<Step>, s: Sys, p: nat)
    requires Boot(s0) && Reaches(s0, steps, s)
    ensures Inv(s) && ScanOk(s, p)
  {
    BootInv(s0);
    hide Inv;
    RunKeeps(s0, steps, s);
    RunScans(s0, steps, s, p);
  }

  // ---- how a call of wait ends ----

  /** Between the beginning of wait and its return. */
  predicate Waiting(pc: Pc) {
    pc.Scan? || pc.Wait1? || pc.Wait2? || pc.Wait3? || pc.Switching? || pc.Asleep? || pc.Retry?
  }

  /** The scan has come to a zombie child. */
  predicate AtZombie(s: Sys, p: nat) {
    && p < |s.procs| && s.procs[p].pc.Scan? && s.procs[p].pc.i < |s.procs|
    && s.procs[s.procs[p].pc.i].parent == Some(p) && s.procs[s.procs[p].pc.i].state == ZOMBIE
  }

  /** In every run, a full scan without a zombie ends the call exactly when the caller has been killed
      or has no child; otherwise the caller is on its way to sleep and keeps wait_lock. */
  lemma WaitDecides(s0: Sys, steps: seq<Step>, s: Sys, p: nat)
    requires Boot(s0) && Reaches(s0, steps, s) && CanWait(s, ScanDone(p))
    ensures var s' := DoWait(s, ScanDone(p));
      && (s.procs[p].killed || !HasChild(s, p) <==> s'.procs[p].pc == Idle)
      && (s'.procs[p].pc == Idle ==> s'.waitLock == None && !Dozing(s'.procs[p]))
      && (s'.procs[p].pc != Idle ==> s'.waitLock == Some(p) && Dozing(s'.procs[p]))
      && s'.procs == s.procs[p := s.procs[p].(pc := s'.procs[p].pc)]
  {
    BootScans(s0, steps, s, p);
    Known(s, p, p);
    hide Inv, Boot, Reaches, Forest, Wakeful, SlotOk, ForkOk;
  }

  /** The step ends p's call of wait. */
  ghost predicate Ends(s: Sys, st: Step, p: nat) {
    && p < |s.procs| && st.Wait? && st.w.p == p
    && ((st.w.ScanStep? && AtZombie(s, p)) || (st.w.ScanDone? && (s.procs[p].killed || !HasChild(s, p))))
  }

  /** p is inside wait before the step, or after it. */
  ghost predicate InOrOut(s: Sys, st: Step, s': Sys, p: nat)
    requires p < |s.procs| == |s'.procs|
  {
    && (!Waiting(s.procs[p].pc) && Waiting(s'.procs[p].pc) <==> st == Wait(WaitBegin(p)))
    && (Waiting(s.procs[p].pc) && !Waiting(s'.procs[p].pc) <==> Ends(s, st, p))
  }

  lemma OwnWait(s: Sys, w: WaitStep)
    requires Inv(s) && CanWait(s, w) && ScanOk(s, w.p)
    ensures InOrOut(s, Wait(w), DoWait(s, w), w.p)
    ensures WaitReturns(s, w).Some? <==> Ends(s, Wait(w), w.p)
  {
    Known(s, w.p, w.p);
    hide Inv, Forest, Wakeful, ForkOk, LockOk;
  }

  lemma OwnOther(s: Sys, st: Step)
    requires Inv(s) && Enabled(s, st) && !st.Wait? && Actor(st) < |s.procs|
    ensures |Do(s, st).procs| == |s.procs| && InOrOut(s, st, Do(s, st), Actor(st))
  {
    hide Inv, HasChild, AtZombie;
    match st
    case Fork(f) =>
    case Exit(e) => OwnExit(s, e);
    case Sleep(l) =>
    case Other(o) =>
  }

  lemma OwnExit(s: Sys, e: ExitStep)
    requires CanExit(s, e)
    ensures !Waiting(s.procs[e.p].pc) && !Waiting(DoExit(s, e).procs[e.p].pc)
  {}

  /** In every run, a call of wait begins with WaitBegin and goes on, asleep or awake, until it finds a
      zombie child or ends a full scan killed or childless. */
  lemma WaitEnds(s0: Sys, steps: seq<Step>, s: Sys, st: Step, p: nat)
    requires Boot(s0) && Reaches(s0, steps, s) && Enabled(s, st) && p < |s.procs|
    ensures |Do(s, st).procs| == |s.procs| && InOrOut(s, st, Do(s, st), p)
    ensures st.Wait? && st.w.p == p ==> (WaitReturns(s, st.w).Some? <==> Ends(s, st, p))
  {
    BootScans(s0, steps, s, p);
    SameSize(s, st);
    if st.Wait? && st.w.p == p {
      OwnWait(s, st.w);
    } else if Actor(st) == p {
      OwnOther(s, st);
    } else {
      hide Inv, Do, Enabled;
      OthersPc(s, st, p);
    }
  }

  // ---- what wait returns ----

  /** The pid has been handed out and is no longer in use. */
  ghost predicate Retired(s: Sys, pid: int) {
    pid < s.nextpid && forall q: nat :: q < |s.procs| && InUse(s.procs[q]) ==> s.procs[q].pid != pid
  }

  /** wait returns -1, or the pid of a zombie child of the caller, whose slot it frees; every other
      slot but the caller's is as it was, and nobody has that pid any more. */
  lemma WaitReaps(s0: Sys, steps: seq<Step>, s: Sys, w: WaitStep)
    requires Boot(s0) && Reaches(s0, steps, s) && CanWait(s, w) && WaitReturns(s, w).Some?
    ensures var s', k, p := DoWait(s, w), WaitReturns(s, w).value, w.p;
      && s'.waitLock == None && s'.procs[p] == s.procs[p].(pc := Idle)
      && (k == -1 ==> s'.procs == s.procs[p := s'.procs[p]])
      && (k != -1 ==> AtZombie(s, p) && var q := s.procs[p].pc.i;
          && q != p && s.procs[q].pid == k && s'.procs == s.procs[q := FREE_SLOT][p := s'.procs[p]]
          && Retired(s', k))
  {
    BootScans(s0, steps, s, w.p);
    hide Boot, Reaches, ScanOk;
    var p, s' := w.p, DoWait(s, w);
    if w.ScanStep? && AtZombie(s, p) && !w.copyFails {
      var q := s.procs[p].pc.i;
      ReapsOne(s, Wait(w), p, q);
      forall r: nat | r < |s.procs| && InUse(s'.procs[r]) ensures s'.procs[r].pid != s.procs[q].pid {
        Known(s, r, q);
        hide Inv, Slots, Wakeful, ParentOk, HasParent;
      }
      Known(s, q, q);
      hide Inv, Slots, Wakeful, ParentOk, HasParent;
    }
  }

  /** A slot in use has the pid it had, or the next one. */
  predicate PidKept(s: Sys, s': Sys, q: nat)
    requires q < |s.procs| == |s'.procs|
  {
    && s.nextpid <= s'.nextpid
    && (InUse(s'.procs[q]) ==>
        || (InUse(s.procs[q]) && s'.procs[q].pid == s.procs[q].pid)
        || (s'.procs[q].pid == s.nextpid && s.nextpid < s'.nextpid))
  }

  lemma PidStep(s: Sys, st: Step, q: nat)
    requires Inv(s) && Enabled(s, st) && q < |s.procs|
    ensures |Do(s, st).procs| == |s.procs| && PidKept(s, Do(s, st), q)
  {
    hide Inv;
    match st
    case Fork(f) => ForkPid(s, f, q);
    case Exit(e) => ExitPid(s, e, q);
    case Wait(w) =>
    case Sleep(l) =>
    case Other(o) =>
  }

  lemma ExitPid(s: Sys, e: ExitStep, q: nat)
    requires CanExit(s, e) && q < |s.procs|
    ensures PidKept(s, DoExit(s, e), q)
  {}

  lemma ForkPid(s: Sys, f: ForkStep, q: nat)
    requires Inv(s) && CanFork(s, f) && q < |s.procs|
    ensures PidKept(s, DoFork(s, f), q)
  {
    Known(s, f.p, f.p);
    hide Inv, Forest, Wakeful, LockOk;
  }

  lemma InitThere(s: Sys)
    requires Inv(s)
    ensures s.init < |s.procs|
  {}

  lemma RetiredStep(s: Sys, st: Step, pid: int)
    requires Inv(s) && Enabled(s, st) && Retired(s, pid)
    ensures Retired(Do(s, st), pid)
  {
    hide Inv, Enabled, Do;
    SameSize(s, st);
    InitThere(s);
    PidStep(s, st, s.init);
    forall q: nat | q < |s.procs| && InUse(Do(s, st).procs[q]) ensures Do(s, st).procs[q].pid != pid {
      PidStep(s, st, q);
    }
  }

  /** A pid that wait has returned is never in use again. */
  lemma {:induction false} RetiredForever(s: Sys, steps: seq<Step>, s': Sys, pid: int)
    requires Inv(s) && Reaches(s, steps, s') && Retired(s, pid)
    ensures Retired(s', pid)
    decreases |steps|
  {
    hide Inv, Enabled, Do, Retired;
    if steps != [] {
      StepKeeps(s, steps[0]);
      RetiredStep(s, steps[0], pid);
      RetiredForever(Do(s, steps[0]), steps[1..], s', pid);
    }
  }
}
