/** proc_is_child while the other processes go on (kernel/process/proc.c): dump2 holds the lock of the
    target and nothing else, and reads the parent links one by one. */
module ProcWalk {
  import opened Options
  import opened ProcTable
  import opened ProcInvariant
  import opened ProcFamily

  /** The step acquires the lock of slot t. */
  predicate TakesLock(s: Sys, st: Step, t: nat)
    requires Enabled(s, st)
  {
    match st
    case Fork(f) => (f.ForkAlloc? && f.np == t) || (f.ForkRun? && s.procs[f.p].pc.np == t)
    case Exit(e) =>
      || (e.WakeInitStep? && s.procs[e.p].pc.j == t && e.p != t)
      || (e.WakeParentStep? && s.procs[e.p].pc.j == t && e.p != t)
      || (e.Die? && e.p == t)
    case Wait(w) =>
      || (w.ScanStep? && s.procs[w.p].pc.i == t && t < |s.procs| && s.procs[t].parent == Some(w.p))
      || (w.ScanDone? && w.p == t)
    case Sleep(l) => l.SleepLock? && l.p == t
    case Other(o) => o.p == t
  }

  /** The step is taken by process c. */
  predicate TakenBy(st: Step, c: nat) {
    match st
    case Fork(f) => f.p == c
    case Exit(e) => e.p == c
    case Wait(w) => w.p == c
    case Sleep(l) => l.p == c
    case Other(o) => o.p == c && (o.Schedule? || o.Yield? || o.OtherSleep?)
  }

  /** What can happen while c is in dump2 and holds the lock of slot t. */
  predicate Meanwhile(s: Sys, st: Step, t: nat, c: nat) {
    Enabled(s, st) && !TakesLock(s, st, t) && !TakenBy(st, c)
  }

  /** c runs, and the lock of t is its to take. */
  ghost predicate Looking(s: Sys, t: nat, c: nat) {
    && Inv(s) && t < |s.procs| && c < |s.procs|
    && !s.procs[t].locked && s.procs[c].state == RUNNING && s.procs[c].pc == Idle
  }

  /** Alive, and with the lock of t still to take before it can die. */
  predicate Stuck(s: Sys, x: nat, t: nat) {
    && x < |s.procs| && Alive(s.procs[x])
    && !(s.procs[x].pc.WakeParent? && s.procs[x].pc.j > t) && !s.procs[x].pc.Dying?
  }

  /** The parent link of slot x after a step, when it is not handed to init. */
  predicate LinkKept(s: Sys, s': Sys, x: nat)
    requires x < |s.procs| == |s'.procs|
  {
    s'.procs[x].parent == s.procs[x].parent || s'.procs[x].parent == Some(s.init)
  }

  /** A link that does not lead to init was there before, or a fork has just made it. */
  predicate LinkOld(s: Sys, s': Sys, x: nat)
    requires x < |s.procs| == |s'.procs|
  {
    s'.procs[x].parent.Some? && s'.procs[x].parent != Some(s.init) && s'.procs[x].parent != s.procs[x].parent ==>
      s.procs[x].state == USED && s.procs[x].parent.None? && s'.procs[x].state == USED
  }

  /** What one step does to slot x. */
  predicate Effect(s: Sys, s': Sys, x: nat, t: nat) {
    && x < |s.procs| == |s'.procs| && s'.init == s.init && LinkOld(s, s', x)
    && (Stuck(s, x, t) && x != t ==> Stuck(s', x, t) && s'.procs[x].pid == s.procs[x].pid && LinkKept(s, s', x))
  }

  /** What it does to the target. */
  predicate TargetKept(s: Sys, s': Sys, t: nat) {
    && t < |s.procs| == |s'.procs| && !s'.procs[t].locked
    && (s.procs[t].parent.Some? ==> LinkKept(s, s', t))
    && s'.procs[t].pid == s.procs[t].pid
  }

  predicate CallerKept(s: Sys, s': Sys, c: nat) {
    c < |s.procs| == |s'.procs| && s'.procs[c].state == RUNNING && s'.procs[c].pc == Idle && s'.procs[c].pid == s.procs[c].pid
  }

  lemma ForkEffect(s: Sys, f: ForkStep, t: nat, c: nat, x: nat)
    requires Looking(s, t, c) && Meanwhile(s, Fork(f), t, c) && x < |s.procs|
    ensures Effect(s, DoFork(s, f), x, t)
  {
    Known(s, f.p, f.p);
    Known(s, f.p, x);
    hide Inv, Forest, Wakeful, LockOk, ForksApart, ForkedBy;
  }

  lemma ForkTarget(s: Sys, f: ForkStep, t: nat, c: nat)
    requires Looking(s, t, c) && Meanwhile(s, Fork(f), t, c)
    ensures TargetKept(s, DoFork(s, f), t)
  {
    Known(s, f.p, f.p);
    Known(s, t, t);
    hide Inv, Forest, Wakeful, LockOk, ForksApart, ForkedBy;
  }

  lemma ForkCaller(s: Sys, f: ForkStep, t: nat, c: nat)
    requires Looking(s, t, c) && Meanwhile(s, Fork(f), t, c)
    ensures CallerKept(s, DoFork(s, f), c)
  {
    Known(s, f.p, f.p);
    Known(s, t, t);
    hide Inv, Forest, Wakeful, LockOk, ForksApart, ForkedBy;
  }

  lemma ExitLinks(s: Sys, e: ExitStep, t: nat, c: nat, x: nat)
    requires Looking(s, t, c) && Meanwhile(s, Exit(e), t, c) && x < |s.procs|
    ensures |DoExit(s, e).procs| == |s.procs| && LinkOld(s, DoExit(s, e), x) && LinkKept(s, DoExit(s, e), x)
    ensures DoExit(s, e).init == s.init && DoExit(s, e).procs[x].pid == s.procs[x].pid
  {
    hide Inv;
  }

  lemma ExitStuck(s: Sys, e: ExitStep, t: nat, c: nat, x: nat)
    requires Looking(s, t, c) && Meanwhile(s, Exit(e), t, c) && x < |s.procs|
    ensures Stuck(s, x, t) && x != t ==> Stuck(DoExit(s, e), x, t)
  {
    Known(s, e.p, e.p);
    hide Inv, Forest, Wakeful, LockOk, ForkOk, ForksApart, ForkedBy;
  }

  lemma ExitEffect(s: Sys, e: ExitStep, t: nat, c: nat, x: nat)
    requires Looking(s, t, c) && Meanwhile(s, Exit(e), t, c) && x < |s.procs|
    ensures Effect(s, DoExit(s, e), x, t)
  {
    ExitLinks(s, e, t, c, x);
    ExitStuck(s, e, t, c, x);
    hide Inv, DoExit, CanExit, Stuck, LinkOld, LinkKept;
  }

  lemma ExitTarget(s: Sys, e: ExitStep, t: nat, c: nat)
    requires Looking(s, t, c) && Meanwhile(s, Exit(e), t, c)
    ensures TargetKept(s, DoExit(s, e), t)
  {
    Known(s, e.p, e.p);
    Known(s, t, t);
    hide Inv, Forest, Wakeful, LockOk, ForksApart, ForkedBy, ForkOk;
  }

  lemma ExitCaller(s: Sys, e: ExitStep, t: nat, c: nat)
    requires Looking(s, t, c) && Meanwhile(s, Exit(e), t, c)
    ensures CallerKept(s, DoExit(s, e), c)
  {
    Known(s, e.p, e.p);
    Known(s, t, t);
    hide Inv, Forest, Wakeful, LockOk, ForksApart, ForkedBy, ForkOk;
  }

  lemma WaitEffect(s: Sys, w: WaitStep, t: nat, c: nat, x: nat)
    requires Looking(s, t, c) && Meanwhile(s, Wait(w), t, c) && x < |s.procs|
    ensures Effect(s, DoWait(s, w), x, t)
  {
    Known(s, w.p, w.p);
    hide Inv, Forest, Wakeful, LockOk, ForksApart, ForkedBy, ForkOk;
  }

  lemma WaitTarget(s: Sys, w: WaitStep, t: nat, c: nat)
    requires Looking(s, t, c) && Meanwhile(s, Wait(w), t, c)
    ensures TargetKept(s, DoWait(s, w), t)
  {
    Known(s, w.p, w.p);
    hide Inv, Forest, Wakeful, LockOk, ForksApart, ForkedBy, ForkOk;
  }

  lemma WaitCaller(s: Sys, w: WaitStep, t: nat, c: nat)
    requires Looking(s, t, c) && Meanwhile(s, Wait(w), t, c)
    ensures CallerKept(s, DoWait(s, w), c)
  {
    Known(s, w.p, w.p);
    hide Inv, Forest, Wakeful, LockOk, ForksApart, ForkedBy, ForkOk;
  }

  lemma SleepEffect(s: Sys, l: SleepStep, t: nat, c: nat, x: nat)
    requires Looking(s, t, c) && Meanwhile(s, Sleep(l), t, c) && x < |s.procs|
    ensures Effect(s, DoSleep(s, l), x, t) && TargetKept(s, DoSleep(s, l), t) && CallerKept(s, DoSleep(s, l), c)
  {
    Known(s, t, t);
    hide Inv, Forest, Wakeful, LockOk, ForkOk, ForksApart, ForkedBy;
  }

  lemma OtherEffect(s: Sys, o: OtherStep, t: nat, c: nat, x: nat)
    requires Looking(s, t, c) && Meanwhile(s, Other(o), t, c) && x < |s.procs|
    ensures Effect(s, DoOther(s, o), x, t) && TargetKept(s, DoOther(s, o), t) && CallerKept(s, DoOther(s, o), c)
  {
    hide Inv;
  }

  lemma StepEffect(s: Sys, st: Step, t: nat, c: nat, x: nat)
    requires Looking(s, t, c) && Meanwhile(s, st, t, c) && x < |s.procs|
    ensures Effect(s, Do(s, st), x, t) && TargetKept(s, Do(s, st), t) && Looking(Do(s, st), t, c)
    ensures Do(s, st).procs[c].pid == s.procs[c].pid
  {
    StepKeeps(s, st);
    hide Inv, Effect, TargetKept, DoFork, DoExit, DoWait, DoSleep, DoOther, CanFork, CanExit, CanWait, CanSleep, CanOther;
    match st
    case Fork(f) =>
      ForkEffect(s, f, t, c, x);
      ForkTarget(s, f, t, c);
      ForkCaller(s, f, t, c);
    case Exit(e) =>
      ExitEffect(s, e, t, c, x);
      ExitTarget(s, e, t, c);
      ExitCaller(s, e, t, c);
    case Wait(w) =>
      WaitEffect(s, w, t, c, x);
      WaitTarget(s, w, t, c);
      WaitCaller(s, w, t, c);
    case Sleep(l) => SleepEffect(s, l, t, c, x);
    case Other(o) => OtherEffect(s, o, t, c, x);
  }

  // ---- the walk ----

  datatype Move = Goes(st: Step) | Look

  /** proc_is_child from slot cur on, one look at a slot after the other, with steps of other
      processes in between; r is the answer, s' the state at the last look. */
  ghost predicate Walk(s: Sys, cur: nat, moves: seq<Move>, t: nat, c: nat, s': Sys, r: bool)
    decreases |moves|
  {
    && moves != [] && cur < |s.procs| && c < |s.procs|
    && match moves[0]
       case Goes(st) => Meanwhile(s, st, t, c) && Walk(Do(s, st), cur, moves[1..], t, c, s', r)
       case Look =>
         if s.procs[cur].pid == s.procs[c].pid then |moves| == 1 && r && s' == s
         else if s.procs[cur].parent.None? then |moves| == 1 && !r && s' == s
         else Walk(s, s.procs[cur].parent.value, moves[1..], t, c, s', r)
  }

  lemma AncestorUp(s: Sys, t: nat, x: nat, y: nat)
    requires Ancestor(s, t, x) && x < |s.procs| && y < |s.procs| && s.procs[x].parent == Some(y)
    ensures Ancestor(s, t, y)
  {
    var path :| Links(s, path, t, x);
    assert Links(s, path + [y], t, y);
  }

  lemma {:induction false} UpToInit(s: Sys, x: nat)
    requires Inv(s) && x < |s.procs| && (Alive(s.procs[x]) || s.procs[x].parent.Some?)
    ensures Ancestor(s, x, s.init)
    decreases s.procs[x].pid
  {
    Known(s, x, x);
    AncestorStep(s, x, s.init);
    hide Inv, Slots, Wakeful, Ancestor;
    if x != s.init { UpToInit(s, s.procs[x].parent.value); }
  }

  /** From s0 on, the ancestors that t had are alive with their pids, and each has its parent of then or
      init. */
  ghost predicate Carried(s0: Sys, s: Sys, t: nat) {
    && |s.procs| == |s0.procs| && s.init == s0.init
    && t < |s.procs| && s.procs[t].parent.Some? && LinkKept(s0, s, t)
    && forall x: nat :: x < |s.procs| && Ancestor(s0, t, x) && x != t ==> Stuck(s, x, t) && LinkKept(s0, s, x)
  }

  lemma CarriedStart(s0: Sys, t: nat, c: nat)
    requires Looking(s0, t, c) && s0.procs[t].parent.Some?
    ensures Carried(s0, s0, t)
  {
    forall x: nat | x < |s0.procs| && Ancestor(s0, t, x) && x != t ensures Stuck(s0, x, t) {
      var path :| Links(s0, path, t, x);
      var y := path[|path| - 2];
      Known(s0, y, x);
    }
  }

  lemma CarriedStep(s0: Sys, s: Sys, st: Step, t: nat, c: nat)
    requires Looking(s, t, c) && Meanwhile(s, st, t, c) && Carried(s0, s, t)
    ensures Carried(s0, Do(s, st), t)
  {
    hide Inv, Do, Enabled, TakesLock, TakenBy, Ancestor, Stuck;
    StepEffect(s, st, t, c, t);
    forall x: nat | x < |s.procs| && Ancestor(s0, t, x) && x != t ensures Stuck(Do(s, st), x, t) && LinkKept(s0, Do(s, st), x) {
      StepEffect(s, st, t, c, x);
    }
  }

  /** The walk has not passed c. */
  ghost predicate Ahead(s: Sys, t: nat, c: nat, cur: nat) {
    forall path :: Links(s, path, t, c) ==> cur in path
  }

  /** A path to c after a step was there before it. */
  lemma PathOld(s: Sys, st: Step, t: nat, c: nat, path: seq<nat>)
    requires Looking(s, t, c) && Meanwhile(s, st, t, c) && c != s.init && s.procs[t].parent.Some?
    requires Links(Do(s, st), path, t, c)
    ensures Links(s, path, t, c)
  {
    hide Inv, Do, Enabled, TakesLock, TakenBy, Stuck;
    var s' := Do(s, st);
    StepEffect(s, st, t, c, t);
    forall i | 0 <= i < |path| - 1 ensures s.procs[path[i]].parent == Some(path[i + 1]) {
      StepEffect(s, st, t, c, path[i]);
      Rooted(s', path[i + 1]);
      if i > 0 { ParentAlive(s', path[i - 1], path[i]); }
      if i + 1 < |path| - 1 { assert s'.procs[path[i + 1]].parent == Some(path[i + 2]); }
    }
  }

  lemma Rooted(s: Sys, x: nat)
    requires Inv(s) && x < |s.procs|
    ensures x == s.init ==> s.procs[x].parent.None?
  {
    Known(s, x, x);
  }

  lemma ParentAlive(s: Sys, x: nat, y: nat)
    requires Inv(s) && x < |s.procs| && y < |s.procs| && s.procs[x].parent == Some(y)
    ensures Alive(s.procs[y])
  {
    Known(s, x, y);
  }

  lemma AheadStep(s: Sys, st: Step, t: nat, c: nat, cur: nat)
    requires Looking(s, t, c) && Meanwhile(s, st, t, c) && c != s.init && s.procs[t].parent.Some? && Ahead(s, t, c, cur)
    ensures Ahead(Do(s, st), t, c, cur)
  {
    hide Looking, Enabled, TakesLock, TakenBy, Do, Links;
    forall path | Links(Do(s, st), path, t, c) ensures cur in path { PathOld(s, st, t, c, path); }
  }

  lemma AheadLook(s: Sys, t: nat, c: nat, cur: nat)
    requires Ahead(s, t, c, cur) && cur < |s.procs| && cur != c
    ensures s.procs[cur].parent.None? ==> !Ancestor(s, t, c)
    ensures s.procs[cur].parent.Some? ==> Ahead(s, t, c, s.procs[cur].parent.value)
  {
    forall path | Links(s, path, t, c) ensures s.procs[cur].parent.Some? && s.procs[cur].parent.value in path {
      var i :| 0 <= i < |path| && path[i] == cur;
      assert i < |path| - 1 && path[i + 1] in path;
    }
  }

  lemma {:induction false} WalkFrom(s0: Sys, s: Sys, cur: nat, moves: seq<Move>, t: nat, c: nat, s': Sys, r: bool)
    requires Looking(s0, t, c) && s0.procs[t].parent.Some? && Looking(s, t, c) && Carried(s0, s, t)
    requires Ancestor(s0, t, cur) && Walk(s, cur, moves, t, c, s', r)
    requires c != s.init ==> Ahead(s, t, c, cur)
    ensures r ==> Ancestor(s0, t, c)
    ensures !r ==> !Ancestor(s', t, c)
    decreases |moves|
  {
    hide Inv, Ancestor, Ahead, Do, Enabled, TakesLock, TakenBy, Carried, Looking;
    if moves[0].Goes? {
      var st := moves[0].st;
      TargetLinked(s0, s, t);
      StepEffect(s, st, t, c, t);
      CarriedStep(s0, s, st, t, c);
      SameSize(s, st);
      if c != s.init { AheadStep(s, st, t, c, cur); }
      WalkFrom(s0, Do(s, st), cur, moves[1..], t, c, s', r);
    } else {
      CallerPid(s, t, c, cur);
      if cur != c {
        LookOn(s0, s, t, c, cur);
        if s.procs[cur].parent.Some? {
          WalkFrom(s0, s, s.procs[cur].parent.value, moves[1..], t, c, s', r);
        }
      }
    }
  }

  lemma TargetLinked(s0: Sys, s: Sys, t: nat)
    requires Carried(s0, s, t)
    ensures t < |s.procs| && s.procs[t].parent.Some?
  {}

  lemma CallerPid(s: Sys, t: nat, c: nat, cur: nat)
    requires Looking(s, t, c) && cur < |s.procs|
    ensures s.procs[cur].pid == s.procs[c].pid <==> cur == c
  {
    SamePid(s, cur, c);
  }

  /** A look at a slot that is not the caller's. */
  lemma LookOn(s0: Sys, s: Sys, t: nat, c: nat, cur: nat)
    requires Looking(s0, t, c) && s0.procs[t].parent.Some? && Looking(s, t, c) && Carried(s0, s, t)
    requires Ancestor(s0, t, cur) && cur < |s.procs| && cur != c && (c != s.init ==> Ahead(s, t, c, cur))
    ensures s.procs[cur].parent.None? ==> !Ancestor(s, t, c)
    ensures s.procs[cur].parent.Some? ==>
      Ancestor(s0, t, s.procs[cur].parent.value) && (c != s.init ==> Ahead(s, t, c, s.procs[cur].parent.value))
  {
    if c != s.init { AheadLook(s, t, c, cur); }
    Known(s, cur, cur);
    Known(s0, cur, cur);
    hide Inv, Ancestor, Ahead, Slots, Wakeful;
    if s.procs[cur].parent.Some? {
      if s.procs[cur].parent == Some(s.init) {
        UpToInit(s0, t);
      } else {
        AncestorUp(s0, t, cur, s.procs[cur].parent.value);
      }
    }
  }

  /** Whatever the other processes do meanwhile, the answer is right: `yes` at the first look, `no` at
      the last. It takes the lock of the target for that: nobody on the way up can go through exit
      without waking the whole table, and so without that lock. */
  lemma WalkAnswer(s0: Sys, moves: seq<Move>, t: nat, c: nat, s': Sys, r: bool)
    requires Looking(s0, t, c) && Walk(s0, t, moves, t, c, s', r) && moves[0] == Look
    ensures r ==> Ancestor(s0, t, c)
    ensures !r ==> !Ancestor(s', t, c)
  {
    CallerPid(s0, t, c, t);
    assert Links(s0, [t], t, t);
    if t != c && s0.procs[t].parent.Some? {
      CarriedStart(s0, t, c);
      assert Ahead(s0, t, c, t);
      hide Inv, Ancestor, Ahead, Carried, Looking;
      WalkFrom(s0, s0, t, moves, t, c, s', r);
    } else if t != c {
      AncestorStep(s0, t, c);
    }
  }
}
