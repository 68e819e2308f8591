/** kill in every run (kernel/process/proc.c): whom it marks, for how long, whom it wakes, and when a
    process killed in wait leaves it. */
module ProcKill {
  import opened Options
  import opened ProcTable
  import opened ProcInvariant
  import opened ProcLife
  import opened ProcWait

  // ---- the mark ----

  predicate MarkStep(s: Sys, st: Step, s': Sys, q: nat)
    requires q < |s.procs| == |s'.procs|
  {
    s'.procs[q].killed <==> !Freed(s, st, q) && (s.procs[q].killed || st == Other(Kill(q)))
  }

  lemma ForkMarks(s: Sys, f: ForkStep, q: nat)
    requires Inv(s) && CanFork(s, f) && q < |s.procs|
    ensures MarkStep(s, Fork(f), DoFork(s, f), q)
  {
    Known(s, f.p, f.p);
    hide Inv, Forest, Wakeful, LockOk;
  }

  lemma ExitMarks(s: Sys, e: ExitStep, q: nat)
    requires CanExit(s, e) && q < |s.procs|
    ensures MarkStep(s, Exit(e), DoExit(s, e), q)
  {}

  /** kill marks, freeing the slot unmarks, and nothing else does either. */
  lemma StepMarks(s: Sys, st: Step, q: nat)
    requires Inv(s) && Enabled(s, st) && q < |s.procs|
    ensures |Do(s, st).procs| == |s.procs| && MarkStep(s, st, Do(s, st), q)
  {
    hide Inv;
    match st
    case Fork(f) => ForkMarks(s, f, q);
    case Exit(e) => ExitMarks(s, e, q);
    case Wait(w) => WaitMarks(s, w, q);
    case Sleep(l) =>
    case Other(o) =>
  }

  lemma WaitMarks(s: Sys, w: WaitStep, q: nat)
    requires CanWait(s, w) && q < |s.procs|
    ensures MarkStep(s, Wait(w), DoWait(s, w), q)
  {}

  /** Some step kills slot q, which is not freed after that. */
  ghost predicate KillCame(s: Sys, steps: seq<Step>, q: nat)
    decreases |steps|
  {
    && steps != [] && Enabled(s, steps[0])
    && var s1, rest := Do(s, steps[0]), steps[1..];
    (steps[0] == Other(Kill(q)) && Unfreed(s1, rest, q)) || KillCame(s1, rest, q)
  }

  lemma {:induction false} RunMarks(s: Sys, steps: seq<Step>, s': Sys, q: nat)
    requires Inv(s) && Reaches(s, steps, s') && q < |s.procs|
    ensures q < |s'.procs|
    ensures s'.procs[q].killed <==> (s.procs[q].killed && Unfreed(s, steps, q)) || KillCame(s, steps, q)
    decreases |steps|
  {
    hide Inv, Enabled, Do, Freed;
    if steps != [] {
      StepKeeps(s, steps[0]);
      StepMarks(s, steps[0], q);
      NotFreedByKill(s, steps[0], q);
      RunMarks(Do(s, steps[0]), steps[1..], s', q);
    }
  }

  lemma NotFreedByKill(s: Sys, st: Step, q: nat)
    ensures st == Other(Kill(q)) ==> !Freed(s, st, q)
  {}

  /** In every run from boot, a slot is marked exactly when a kill has found it since it was last
      freed. */
  lemma KilledSince(s0: Sys, steps: seq<Step>, s: Sys, q: nat)
    requires Boot(s0) && Reaches(s0, steps, s) && q < |s0.procs|
    ensures q < |s.procs| && (s.procs[q].killed <==> KillCame(s0, steps, q))
  {
    BootInv(s0);
    hide Inv, Reaches, KillCame;
    RunMarks(s0, steps, s, q);
  }

  lemma {:induction false} KillAmong(s: Sys, steps: seq<Step>, q: nat)
    requires Unfreed(s, steps, q)
    ensures KillCame(s, steps, q) <==> Other(Kill(q)) in steps
    decreases |steps|
  {
    hide Enabled, Do, Freed;
    if steps != [] {
      KillAmong(Do(s, steps[0]), steps[1..], q);
      assert steps == [steps[0]] + steps[1..];
    }
  }

  /** A process that fork has made is marked exactly when it was born marked or has been killed in
      its life. */
  lemma KilledInLife(s: Sys, p: nat, np: nat, steps: seq<Step>, s': Sys)
    requires Inv(s) && CanFork(s, ForkAlloc(p, np))
    requires Reaches(DoFork(s, ForkAlloc(p, np)), steps, s') && Unfreed(DoFork(s, ForkAlloc(p, np)), steps, np)
    ensures np < |s'.procs| && (s'.procs[np].killed <==> s.procs[np].killed || Other(Kill(np)) in steps)
  {
    var s1 := DoFork(s, ForkAlloc(p, np));
    assert s1.procs[np].killed == s.procs[np].killed by { hide Inv; BornAlive(s, p, np); }
    StepKeeps(s, Fork(ForkAlloc(p, np)));
    hide Inv, CanFork, DoFork, Unfreed, Reaches, KillCame;
    RunMarks(s1, steps, s', np);
    KillAmong(s1, steps, np);
  }

  lemma BornAlive(s: Sys, p: nat, np: nat)
    requires CanFork(s, ForkAlloc(p, np))
    ensures p != np && |DoFork(s, ForkAlloc(p, np)).procs| == |s.procs|
    ensures DoFork(s, ForkAlloc(p, np)).procs[np].killed == s.procs[np].killed
  {}

  // ---- whom kill wakes ----

  /** Right after kill the process is marked and does not sleep; nothing else about it has changed, and
      nobody else has. It is still on its way to sleep in wait exactly when it was between its check
      of `killed` and taking its lock in sleep. */
  lemma KillWakes(s0: Sys, steps: seq<Step>, s: Sys, p: nat)
    requires Boot(s0) && Reaches(s0, steps, s) && CanOther(s, Kill(p))
    ensures var s', x := DoOther(s, Kill(p)), s.procs[p];
      && |s'.procs| == |s.procs| && s'.procs[p].killed && s'.procs[p].state != SLEEPING
      && s'.procs[p] == x.(killed := true, state := s'.procs[p].state)
      && (x.state != SLEEPING ==> s'.procs[p].state == x.state)
      && (x.state == SLEEPING ==> s'.procs[p].state == RUNNABLE)
      && s' == s.(procs := s.procs[p := s'.procs[p]])
      && (Dozing(s'.procs[p]) <==> x.pc == Wait1)
  {
    BootInv(s0);
    RunKeeps(s0, steps, s);
    Known(s, p, p);
    hide Inv, Boot, Reaches, Forest, Wakeful, ForkOk, LockOk;
  }

  // ---- a process killed in wait ----

  /** Killed, in wait, and not on its way to sleep. */
  predicate Doomed(s: Sys, p: nat) {
    p < |s.procs| && s.procs[p].killed && Waiting(s.procs[p].pc) && !Dozing(s.procs[p])
  }

  /** How many own steps of wait are left at most. */
  function Left(s: Sys, p: nat): int
    requires p < |s.procs|
  {
    if s.procs[p].pc.Scan? then |s.procs| - s.procs[p].pc.i + 1 else |s.procs| + 2
  }

  function Own(st: Step, p: nat): nat {
    if st.Wait? && st.w.p == p then 1 else 0
  }

  lemma DoomedStep(s: Sys, st: Step, p: nat)
    requires Inv(s) && Enabled(s, st) && Doomed(s, p)
    ensures |Do(s, st).procs| == |s.procs|
    ensures Waiting(Do(s, st).procs[p].pc) ==> Doomed(Do(s, st), p) && Left(Do(s, st), p) + Own(st, p) <= Left(s, p)
  {
    SameSize(s, st);
    if st.Wait? && st.w.p == p {
      hide Inv;
    } else {
      hide Inv, Do, Enabled;
      StateTurns(s, st, p, SLEEPING);
      StepMarks(s, st, p);
      if Actor(st) == p { DoomedPc(s, st, p); } else { OthersPc(s, st, p); }
    }
  }

  lemma DoomedPc(s: Sys, st: Step, p: nat)
    requires Enabled(s, st) && Doomed(s, p) && Actor(st) == p && !st.Wait?
    ensures |Do(s, st).procs| == |s.procs| && Do(s, st).waitLock == s.waitLock
    ensures Do(s, st).procs[p].pc == s.procs[p].pc || (s.procs[p].pc == Asleep && Do(s, st).procs[p].pc == Retry)
  {}

  /** p does not return from wait on the way. */
  ghost predicate StaysIn(s: Sys, steps: seq<Step>, p: nat)
    decreases |steps|
  {
    && p < |s.procs| && Waiting(s.procs[p].pc)
    && (steps != [] ==> Enabled(s, steps[0]) && StaysIn(Do(s, steps[0]), steps[1..], p))
  }

  function OwnSteps(steps: seq<Step>, p: nat): nat {
    if steps == [] then 0 else Own(steps[0], p) + OwnSteps(steps[1..], p)
  }

  /** A process that is killed before its scan of the children ends, or asleep, does not sleep again in
      this call of wait, and returns within as many own steps as there are slots, and two. */
  lemma {:induction false} KilledLeaves(s: Sys, steps: seq<Step>, s': Sys, p: nat)
    requires Inv(s) && Reaches(s, steps, s') && Doomed(s, p) && StaysIn(s, steps, p)
    ensures Doomed(s', p) && Left(s', p) + OwnSteps(steps, p) <= Left(s, p)
    decreases |steps|
  {
    hide Inv, Enabled, Do, Doomed, Left, Own;
    if steps != [] {
      StepKeeps(s, steps[0]);
      DoomedStep(s, steps[0], p);
      DoomedThere(s, p);
      KilledLeaves(Do(s, steps[0]), steps[1..], s', p);
    }
  }

  lemma DoomedThere(s: Sys, p: nat)
    requires Doomed(s, p)
    ensures p < |s.procs|
  {}

  /** sleep from beginning to end, undisturbed. */
  lemma FallsAsleep(s: Sys, p: nat) returns (s': Sys)
    requires CanSleep(s, SleepLock(p))
    ensures Reaches(s, [Sleep(SleepLock(p)), Sleep(SleepRelease(p)), Sleep(SleepSet(p)), Sleep(SleepSwitch(p))], s')
    ensures |s'.procs| == |s.procs| && s'.waitLock == None
    ensures s'.procs[p] == s.procs[p].(state := SLEEPING, pc := Asleep, chan := ProcChan(p), locked := false)
  {
    hide Enabled, Do, Reaches;
    var a, b, c, d := SleepLock(p), SleepRelease(p), SleepSet(p), SleepSwitch(p);
    var s1 := DoSleep(s, a);
    var s2 := DoSleep(s1, b);
    var s3 := DoSleep(s2, c);
    s' := DoSleep(s3, d);
    assert [Sleep(d)] + [] == [Sleep(d)] && [Sleep(c)] + [Sleep(d)] == [Sleep(c), Sleep(d)];
    assert [Sleep(b)] + [Sleep(c), Sleep(d)] == [Sleep(b), Sleep(c), Sleep(d)];
    assert [Sleep(a)] + [Sleep(b), Sleep(c), Sleep(d)] == [Sleep(a), Sleep(b), Sleep(c), Sleep(d)];
    NoSteps(s');
    FirstSleep(s3, d, [], s');
    FirstSleep(s2, c, [Sleep(d)], s');
    FirstSleep(s1, b, [Sleep(c), Sleep(d)], s');
    FirstSleep(s, a, [Sleep(b), Sleep(c), Sleep(d)], s');
  }

  lemma FirstSleep(s: Sys, l: SleepStep, rest: seq<Step>, s': Sys)
    requires CanSleep(s, l) && Reaches(DoSleep(s, l), rest, s')
    ensures Reaches(s, [Sleep(l)] + rest, s')
  {
    assert ([Sleep(l)] + rest)[1..] == rest;
  }

  lemma FirstWait(s: Sys, w: WaitStep, rest: seq<Step>, s': Sys)
    requires CanWait(s, w) && Reaches(DoWait(s, w), rest, s')
    ensures Reaches(s, [Wait(w)] + rest, s')
  {
    assert ([Wait(w)] + rest)[1..] == rest;
  }

  lemma {:induction false} RunsOn(s: Sys, a: seq<Step>, s1: Sys, b: seq<Step>, s2: Sys)
    requires Reaches(s, a, s1) && Reaches(s1, b, s2)
    ensures Reaches(s, a + b, s2)
    decreases |a|
  {
    hide Enabled, Do;
    if a == [] {
      assert a + b == b;
    } else {
      RunsOn(Do(s, a[0]), a[1..], s1, b, s2);
      assert (a + b)[0] == a[0] && (a + b)[1..] == a[1..] + b;
    }
  }

  /** kill comes too late for a process that has already looked at its mark: it goes to sleep with the
      mark set, and wait_lock is free. */
  lemma KillTooLate(s: Sys, p: nat) returns (steps: seq<Step>, s': Sys)
    requires Inv(s) && p < |s.procs| && s.procs[p].pc == Wait1
    ensures Reaches(s, [Other(Kill(p))] + steps, s') && forall i :: 0 <= i < |steps| ==> steps[i].Sleep?
    ensures |s'.procs| == |s.procs| && s'.procs[p].killed && s'.procs[p].state == SLEEPING && Dozing(s'.procs[p])
    ensures s'.waitLock == None
  {
    Known(s, p, p);
    hide Inv, Forest, Wakeful, ForkOk, LockOk, Enabled, Do, Reaches;
    var s1 := DoOther(s, Kill(p));
    s' := FallsAsleep(s1, p);
    steps := [Sleep(SleepLock(p)), Sleep(SleepRelease(p)), Sleep(SleepSet(p)), Sleep(SleepSwitch(p))];
    FirstOther(s, Kill(p), steps, s');
  }

  /** wait of a process with one ready child, up to its decision to sleep. */
  lemma WaitsFor(s: Sys) returns (s': Sys)
    requires |s.procs| == 2 && s.procs[0].state == RUNNING && s.procs[0].pc == Idle && !s.procs[0].killed
    requires s.procs[0].parent == None && !s.procs[0].locked && s.waitLock == None
    requires s.procs[1].parent == Some(0) && s.procs[1].state == RUNNABLE && !s.procs[1].locked
    ensures Reaches(s, [Wait(WaitBegin(0)), Wait(ScanStep(0, false)), Wait(ScanStep(0, false)), Wait(ScanDone(0))], s')
    ensures |s'.procs| == 2 && s'.procs[0].pc == Wait1
  {
    hide Enabled, Do, Reaches;
    var b, c, d := WaitBegin(0), ScanStep(0, false), ScanDone(0);
    var s1 := DoWait(s, b);
    var s2 := DoWait(s1, c);
    var s3 := DoWait(s2, c);
    s' := DoWait(s3, d);
    assert [Wait(d)] + [] == [Wait(d)] && [Wait(c)] + [Wait(d)] == [Wait(c), Wait(d)];
    assert [Wait(c)] + [Wait(c), Wait(d)] == [Wait(c), Wait(c), Wait(d)];
    assert [Wait(b)] + [Wait(c), Wait(c), Wait(d)] == [Wait(b), Wait(c), Wait(c), Wait(d)];
    NoSteps(s');
    FirstWait(s3, d, [], s');
    FirstWait(s2, c, [Wait(d)], s');
    FirstWait(s1, c, [Wait(c), Wait(d)], s');
    FirstWait(s, b, [Wait(c), Wait(c), Wait(d)], s');
  }

  /** A run from boot whose last kill leaves its process asleep in wait, with the mark set. */
  lemma KillMissed() returns (s0: Sys, steps: seq<Step>, late: seq<Step>, s: Sys)
    ensures Boot(s0) && Reaches(s0, steps + ([Other(Kill(0))] + late), s) && |s.procs| == 2
    ensures forall i :: 0 <= i < |late| ==> late[i].Sleep?
    ensures s.procs[0].killed && s.procs[0].state == SLEEPING && Dozing(s.procs[0]) && s.waitLock == None
  {
    hide Enabled, Do, Reaches, Inv;
    s0 := Sys([Proc(RUNNABLE, 1, None, NoChan, false, false, Idle), FREE_SLOT], 0, 2, None);
    BootInv(s0);
    var s1 := DoOther(s0, Schedule(0));
    var s2 := ForkChild(s1, 0, 1);
    var fork := [Fork(ForkAlloc(0, 1)), Fork(ForkCopied(0)), Fork(ForkLink(0)), Fork(ForkRun(0))];
    FirstOther(s0, Schedule(0), fork, s2);
    var s3 := WaitsFor(s2);
    var waits := [Wait(WaitBegin(0)), Wait(ScanStep(0, false)), Wait(ScanStep(0, false)), Wait(ScanDone(0))];
    RunsOn(s0, [Other(Schedule(0))] + fork, s2, waits, s3);
    steps := [Other(Schedule(0))] + fork + waits;
    RunKeeps(s0, steps, s3);
    late, s := KillTooLate(s3, 0);
    RunsOn(s0, steps, s3, [Other(Kill(0))] + late, s);
  }
}
