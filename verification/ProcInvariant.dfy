/** What every interleaving of the process lifecycle keeps (kernel/process/proc.c): the lock
    discipline, the family tree, and that no sleeping parent misses a zombie. */
module ProcInvariant {
  import opened Options
  import opened ProcTable

  predicate InUse(x: Proc) {
    x.state != UNUSED
  }

  /** pc, state, lock and channel of one slot fit together. */
  predicate SlotOk(s: Sys, p: nat)
    requires p < |s.procs|
  {
    var x := s.procs[p];
    match x.state
    case UNUSED => x == FREE_SLOT.(killed := x.killed)
    case USED => x.pc == Idle
    case ZOMBIE => (x.pc == Exited && x.locked) || (x.pc == Gone && !x.locked)
    case SLEEPING => (x.pc == Switching && x.chan == ProcChan(p) && x.locked)
                     || (x.pc == Asleep && x.chan == ProcChan(p) && !x.locked)
                     || (x.pc == Blocked && x.chan.OtherChan? && !x.locked)
    case RUNNABLE => !x.locked && !HoldsWaitLock(x.pc) && !x.pc.Fork1? && !x.pc.Wait3? && !x.pc.Switching?
                     && !x.pc.Exited? && !x.pc.Gone?
    case RUNNING => (x.locked <==> x.pc.Wait2? || x.pc.Wait3?) && !x.pc.Switching? && !x.pc.Asleep? && !x.pc.Blocked?
                    && !x.pc.Exited? && !x.pc.Gone?
  }

  /** Exactly the holder of wait_lock is inside a section that it protects. */
  predicate LockOk(s: Sys, p: nat)
    requires p < |s.procs|
  {
    HoldsWaitLock(s.procs[p].pc) <==> s.waitLock == Some(p)
  }

  predicate Forking(pc: Pc) {
    pc.Fork1? || pc.Fork2? || pc.Fork3?
  }

  /** The slot that p is forking into is new, and linked to p from Fork3 on. */
  predicate ForkOk(s: Sys, p: nat)
    requires p < |s.procs|
  {
    var pc := s.procs[p].pc;
    Forking(pc) ==>
      && pc.np < |s.procs| && pc.np != p && pc.np != s.init && s.procs[pc.np].state == USED
      && (s.procs[pc.np].locked <==> pc.Fork1?)
      && s.procs[pc.np].parent == (if pc.Fork3? then Some(p) else None)
      && s.procs[p].pid < s.procs[pc.np].pid
  }

  /** Two processes never fork into the same slot. */
  predicate ForksApart(s: Sys, p: nat, q: nat)
    requires p < |s.procs| && q < |s.procs|
  {
    p != q && Forking(s.procs[p].pc) && Forking(s.procs[q].pc) ==> s.procs[p].pc.np != s.procs[q].pc.np
  }

  /** A half-forked slot with a parent is being forked by that parent. */
  predicate ForkedBy(s: Sys, p: nat, q: nat)
    requires p < |s.procs| && q < |s.procs|
  {
    s.procs[q].state == USED && s.procs[q].parent == Some(p) ==> s.procs[p].pc == Fork3(q)
  }

  predicate Slots(s: Sys, p: nat, q: nat)
    requires p < |s.procs| && q < |s.procs|
  {
    SlotOk(s, p) && LockOk(s, p) && ForkOk(s, p) && ForksApart(s, p, q) && ForkedBy(s, p, q)
  }

  /** A process that may have children: neither free, nor half forked, nor a zombie. */
  predicate Alive(x: Proc) {
    x.state == SLEEPING || x.state == RUNNABLE || x.state == RUNNING
  }

  predicate Exiting(pc: Pc) {
    pc.Reparent? || pc.WakeInit? || pc.WakeParent? || pc.Dying? || pc.Exited? || pc.Gone?
  }

  /** A parent is a live process with a smaller pid. */
  predicate ParentOk(s: Sys, c: nat)
    requires c < |s.procs|
  {
    var q := s.procs[c].parent;
    q.Some? ==> InUse(s.procs[c]) && q.value < |s.procs| && Alive(s.procs[q.value]) && s.procs[q.value].pid < s.procs[c].pid
  }

  /** Pids are those handed out so far, distinct, and init has the smallest. */
  predicate PidOk(s: Sys, c: nat, d: nat)
    requires c < |s.procs| && d < |s.procs|
  {
    && (InUse(s.procs[c]) ==> 0 < s.procs[c].pid < s.nextpid)
    && (InUse(s.procs[c]) && InUse(s.procs[d]) && c != d ==> s.procs[c].pid != s.procs[d].pid)
    && (InUse(s.procs[c]) && d == s.init ==> s.procs[d].pid <= s.procs[c].pid)
  }

  /** Everyone but init has a parent, from the moment it can run. */
  predicate HasParent(s: Sys, c: nat)
    requires c < |s.procs|
  {
    if c == s.init then Alive(s.procs[c]) && s.procs[c].parent == None && !Exiting(s.procs[c].pc)
    else (Alive(s.procs[c]) || s.procs[c].state == ZOMBIE) ==> s.procs[c].parent.Some?
  }

  /** How much of the table reparent has dealt with. */
  function Handed(s: Sys, e: nat): nat
    requires e < |s.procs|
  {
    match s.procs[e].pc
    case Reparent(i) => i
    case WakeInit(i, j) => i + 1
    case WakeParent(j) => |s.procs|
    case Dying => |s.procs|
    case Exited => |s.procs|
    case Gone => |s.procs|
    case _ => 0
  }

  predicate Forest(s: Sys, c: nat, d: nat)
    requires c < |s.procs| && d < |s.procs|
  {
    && ParentOk(s, c) && PidOk(s, c, d) && HasParent(s, c)
    && (c < Handed(s, d) ==> s.procs[c].parent != Some(d))
  }

  /** Asleep in wait, or past the point of no return on the way there. */
  predicate Dozing(x: Proc) {
    x.pc.Wait1? || x.pc.Wait2? || x.pc.Wait3? || x.pc.Switching? || (x.pc.Asleep? && x.state == SLEEPING)
  }

  /** The holder of wait_lock is about to wake init up. */
  predicate InitPending(s: Sys) {
    && s.waitLock.Some? && s.waitLock.value < |s.procs|
    && var pc := s.procs[s.waitLock.value].pc; pc.WakeInit? && pc.j <= s.init
  }

  /** A zombie whose parent p dozes is one handed to init, which is about to be woken. */
  predicate NoneMissed(s: Sys, p: nat, c: nat)
    requires p < |s.procs| && c < |s.procs|
  {
    s.procs[c].parent == Some(p) && s.procs[c].state == ZOMBIE && Dozing(s.procs[p]) ==> p == s.init && InitPending(s)
  }

  /** An exiting process that has passed its parent p in wakeup has woken it. */
  predicate ParentWoken(s: Sys, p: nat, e: nat)
    requires p < |s.procs| && e < |s.procs|
  {
    var x := s.procs[e];
    x.parent == Some(p) && ((x.pc.WakeParent? && x.pc.j > p) || x.pc.Dying?) ==> !Dozing(s.procs[p])
  }

  /** A scanning parent has found no zombie so far. */
  predicate Scanned(s: Sys, p: nat, c: nat)
    requires p < |s.procs| && c < |s.procs|
  {
    s.procs[p].pc.Scan? && c < s.procs[p].pc.i && s.procs[c].parent == Some(p) ==> s.procs[c].state != ZOMBIE
  }

  predicate Wakeful(s: Sys, p: nat, c: nat)
    requires p < |s.procs| && c < |s.procs|
  {
    NoneMissed(s, p, c) && ParentWoken(s, p, c) && Scanned(s, p, c)
  }

  predicate Rel(s: Sys, p: nat, q: nat)
    requires p < |s.procs| && q < |s.procs|
  {
    Slots(s, p, q) && Forest(s, p, q) && Wakeful(s, p, q)
  }

  ghost predicate Inv(s: Sys) {
    && s.init < |s.procs| && (s.waitLock.Some? ==> s.waitLock.value < |s.procs|)
    && forall p: nat, q: nat :: p < |s.procs| && q < |s.procs| ==> Rel(s, p, q)
  }

  // ---- what a step changes ----

  /** Nothing but slots p and t differs between the two tables. */
  ghost predicate Only(s: Sys, s': Sys, p: nat, t: nat) {
    && |s'.procs| == |s.procs| && s'.init == s.init && p < |s.procs| && t < |s.procs|
    && forall q :: 0 <= q < |s.procs| && q != p && q != t ==> s'.procs[q] == s.procs[q]
  }

  /** p's place in the family tree is the same. */
  predicate TreeSame(x: Proc, x': Proc) {
    && x'.pid == x.pid && x'.parent == x.parent
    && (Alive(x') <==> Alive(x)) && (InUse(x') <==> InUse(x)) && (x'.state == ZOMBIE <==> x.state == ZOMBIE)
  }

  lemma Known(s: Sys, p: nat, q: nat)
    requires Inv(s) && p < |s.procs| && q < |s.procs|
    ensures Rel(s, p, q) && Rel(s, q, p)
  {}

  /** Slot z keeps the part of the invariant that speaks about single slots. */
  predicate Single(s: Sys, z: nat)
    requires z < |s.procs|
  {
    SlotOk(s, z) && LockOk(s, z) && ForkOk(s, z)
  }

  /** Slot t as others see it who fork into it. */
  predicate ForkView(x: Proc, x': Proc) {
    x'.state == x.state && x'.locked == x.locked && x'.parent == x.parent && x'.pid == x.pid
  }

  predicate LockMoves(s: Sys, s': Sys, p: nat) {
    s'.waitLock == s.waitLock
    || ((s.waitLock == None || s.waitLock == Some(p)) && (s'.waitLock == None || s'.waitLock == Some(p)))
  }

  /** p forks into the slot it forked into before, or into a free one. */
  predicate ForkMoves(s: Sys, s': Sys, p: nat)
    requires p < |s.procs| == |s'.procs|
  {
    Forking(s'.procs[p].pc) ==>
      || (Forking(s.procs[p].pc) && s.procs[p].pc.np == s'.procs[p].pc.np)
      || (s'.procs[p].pc.np < |s.procs| && s.procs[s'.procs[p].pc.np].state == UNUSED)
  }

  /** A slot other than the actor's stays where it stands, or is freed by wait. */
  predicate SettledPc(x: Proc, x': Proc) {
    x'.pc == x.pc || (x' == FREE_SLOT && x.pc == Gone)
  }

  ghost predicate SlotsStep(s: Sys, s': Sys, p: nat, t: nat) {
    && Only(s, s', p, t)
    && Single(s', p) && Single(s', t) && LockMoves(s, s', p) && ForkMoves(s, s', p)
    && (s.procs[p].state != USED || ForkView(s.procs[p], s'.procs[p])) && (t != p ==> SettledPc(s.procs[t], s'.procs[t]))
    && (s.procs[t].state != USED || ForkView(s.procs[t], s'.procs[t]) || (Forking(s.procs[p].pc) && s.procs[p].pc.np == t))
    && (s.procs[p].pc.Fork3? && s'.procs[p].pc != s.procs[p].pc ==> s.procs[p].pc.np == t)
    && ParentForks(s', p) && ParentForks(s', t)
  }

  predicate ParentForks(s: Sys, z: nat)
    requires z < |s.procs|
  {
    s.procs[z].state == USED && s.procs[z].parent.Some? ==>
      s.procs[z].parent.value < |s.procs| && s.procs[s.procs[z].parent.value].pc == Fork3(z)
  }

  lemma SingleFrame(s: Sys, s': Sys, p: nat, t: nat, c: nat)
    requires Inv(s) && SlotsStep(s, s', p, t) && c < |s.procs|
    ensures Single(s', c)
  {
    Known(s, p, c);
    hide Inv, Forest, Wakeful;
    if c != p && c != t {
      assert s'.procs[c] == s.procs[c];
    }
  }

  lemma ApartFrame(s: Sys, s': Sys, p: nat, t: nat, c: nat, d: nat)
    requires Inv(s) && SlotsStep(s, s', p, t) && c < |s.procs| && d < |s.procs|
    ensures ForksApart(s', c, d) && ForkedBy(s', c, d)
  {
    Known(s, c, d);
    hide Inv, Forest, Wakeful, SlotOk, LockOk, Single;
  }

  /** No slot that reparent has passed is a child of p. */
  ghost predicate Released(s: Sys, p: nat) {
    p < |s.procs| && forall c :: 0 <= c < |s.procs| && c < Handed(s, p) ==> s.procs[c].parent != Some(p)
  }

  ghost predicate SameForest(s: Sys, s': Sys, p: nat, t: nat) {
    && Only(s, s', p, t) && s'.nextpid == s.nextpid
    && TreeSame(s.procs[p], s'.procs[p]) && TreeSame(s.procs[t], s'.procs[t])
    && (t != p ==> s'.procs[t].pc == s.procs[t].pc) && (p == s.init ==> !Exiting(s'.procs[p].pc))
    && Released(s', p)
  }

  lemma ForestFrame(s: Sys, s': Sys, p: nat, t: nat, c: nat, d: nat)
    requires Inv(s) && SameForest(s, s', p, t) && c < |s.procs| && d < |s.procs|
    ensures Forest(s', c, d)
  {
    Known(s, c, d);
    Known(s, s.init, s.init);
    hide Inv, Slots, Wakeful, Released, Exiting;
    forall z: nat | z < |s.procs| ensures TreeSame(s.procs[z], s'.procs[z]) {}
    assert ParentOk(s', c) && PidOk(s', c, d) by { hide HasParent; }
    assert HasParent(s', c) by { hide ParentOk, PidOk; }
    assert c < Handed(s', d) ==> s'.procs[c].parent != Some(d) by { HandedFrame(s, s', p, t, c, d); }
  }

  lemma HandedFrame(s: Sys, s': Sys, p: nat, t: nat, c: nat, d: nat)
    requires SameForest(s, s', p, t) && c < |s.procs| && d < |s.procs| && Forest(s, c, d)
    ensures c < Handed(s', d) ==> s'.procs[c].parent != Some(d)
  {
    hide ParentOk, PidOk, HasParent, Alive, InUse;
  }

  /** allocproc takes a free slot and the next pid. */
  lemma ForestAlloc(s: Sys, s': Sys, p: nat, t: nat, c: nat, d: nat)
    requires Inv(s) && Only(s, s', p, t) && c < |s.procs| && d < |s.procs| && p != t
    requires s.procs[t].state == UNUSED && s'.procs[p] == s.procs[p].(pc := s'.procs[p].pc) && !Exiting(s'.procs[p].pc)
    requires s'.procs[t] == Proc(USED, s.nextpid, None, NoChan, s.procs[t].killed, true, Idle)
    requires s'.nextpid == s.nextpid + 1
    ensures Forest(s', c, d)
  {
    Known(s, c, d);
    Known(s, s.init, t);
    hide Inv, Wakeful, ForkOk, LockOk, ForksApart;
  }

  /** freeproc on a slot without children. */
  lemma ForestFree(s: Sys, s': Sys, p: nat, t: nat, c: nat, d: nat)
    requires Inv(s) && Only(s, s', p, t) && c < |s.procs| && d < |s.procs| && p != t && t != s.init
    requires !Alive(s.procs[t]) && s'.procs[p] == s.procs[p].(pc := s'.procs[p].pc) && !Exiting(s'.procs[p].pc)
    requires s'.procs[t] == FREE_SLOT && s'.nextpid == s.nextpid
    ensures Forest(s', c, d)
  {
    Known(s, c, d);
    Known(s, s.init, s.init);
    hide Inv, Wakeful, Slots;
    assert PidOk(s', c, d);
    assert ParentOk(s', c) by { hide PidOk, Handed; }
    assert HasParent(s', c);
  }

  /** fork gives a new slot its parent, or lets it run. */
  lemma ForestLink(s: Sys, s': Sys, p: nat, t: nat, c: nat, d: nat)
    requires Inv(s) && Only(s, s', p, t) && c < |s.procs| && d < |s.procs| && p != t && t != s.init
    requires s.procs[p].state == RUNNING && s'.procs[p] == s.procs[p].(pc := s'.procs[p].pc) && !Exiting(s'.procs[p].pc)
    requires s.procs[t].state == USED && s.procs[t].pc == Idle && s.procs[p].pid < s.procs[t].pid
    requires s'.procs[t] == s.procs[t].(parent := Some(p), state := s'.procs[t].state)
    requires (s'.procs[t].state == USED || s'.procs[t].state == RUNNABLE) && s'.nextpid == s.nextpid
    ensures Forest(s', c, d)
  {
    Known(s, c, d);
    Known(s, s.init, s.init);
    hide Inv, Wakeful, Slots;
    assert PidOk(s', c, d);
    assert ParentOk(s', c) by { hide PidOk, Handed; }
    assert HasParent(s', c);
  }

  /** reparent hands slot t to init. */
  lemma ForestMove(s: Sys, s': Sys, p: nat, t: nat, c: nat, d: nat)
    requires Inv(s) && Only(s, s', p, t) && c < |s.procs| && d < |s.procs| && p != s.init
    requires s.procs[p].pc == Reparent(t) && s.procs[t].parent == Some(p) && p != t && s'.nextpid == s.nextpid
    requires s'.procs[p] == s.procs[p].(pc := WakeInit(t, 0)) && s'.procs[t] == s.procs[t].(parent := Some(s.init))
    ensures Forest(s', c, d)
  {
    Known(s, c, d);
    Known(s, s.init, t);
    Known(s, s.init, s.init);
    Known(s, c, p);
    hide Inv, Wakeful, Slots;
    assert PidOk(s', c, d);
    assert ParentOk(s', c) by { hide PidOk, Handed; }
    assert HasParent(s', c);
  }

  /** exit makes p a zombie once it has no children left. */
  lemma ForestDie(s: Sys, s': Sys, p: nat, c: nat, d: nat)
    requires Inv(s) && Only(s, s', p, p) && c < |s.procs| && d < |s.procs| && p != s.init
    requires s.procs[p].pc == Dying && s.procs[p].state == RUNNING && s'.nextpid == s.nextpid
    requires s'.procs[p] == s.procs[p].(state := ZOMBIE, locked := true, pc := Exited)
    ensures Forest(s', c, d)
  {
    Known(s, c, d);
    Known(s, c, p);
    hide Inv, Wakeful, Slots;
  }

  predicate Waking(pc: Pc) {
    pc.WakeParent? || pc.Dying?
  }

  /** Slot z raises no new obligation to be woken. */
  predicate Calm(x: Proc, x': Proc) {
    && (x'.state == ZOMBIE ==> x.state == ZOMBIE && x'.parent == x.parent)
    && (Dozing(x') ==> Dozing(x))
    && (x'.parent == x.parent || !Waking(x'.pc))
  }

  ghost predicate WakeStep(s: Sys, s': Sys, p: nat, t: nat) {
    && Only(s, s', p, t) && Calm(s.procs[p], s'.procs[p]) && Calm(s.procs[t], s'.procs[t])
    && (t != p ==> SettledPc(s.procs[t], s'.procs[t]))
    && (s'.procs[p].pc == s.procs[p].pc || !Waking(s'.procs[p].pc) || s'.procs[p].pc == WakeParent(0))
    && (s'.procs[p].pc == s.procs[p].pc || !s'.procs[p].pc.Scan? || s'.procs[p].pc.i == 0)
    && (InitPending(s) ==> InitPending(s'))
  }

  lemma WakefulFrame(s: Sys, s': Sys, p: nat, t: nat, c: nat, d: nat)
    requires Inv(s) && WakeStep(s, s', p, t) && c < |s.procs| && d < |s.procs|
    ensures Wakeful(s', c, d)
  {
    Known(s, c, d);
    hide Inv, Slots, Forest;
  }

  /** wait's scan passes a slot that is no zombie child. */
  lemma WakefulScan(s: Sys, s': Sys, p: nat, c: nat, d: nat)
    requires Inv(s) && Only(s, s', p, p) && c < |s.procs| && d < |s.procs| && s'.waitLock == s.waitLock
    requires s.procs[p].pc.Scan? && s.procs[p].pc.i < |s.procs| && s.waitLock == Some(p)
    requires s'.procs[p] == s.procs[p].(pc := s'.procs[p].pc) && s'.procs[p].pc.Scan?
    requires s'.procs[p].pc.i == s.procs[p].pc.i + 1
    requires s.procs[s.procs[p].pc.i].parent == Some(p) ==> s.procs[s.procs[p].pc.i].state != ZOMBIE
    ensures Wakeful(s', c, d)
  {
    Known(s, c, d);
    hide Inv, Slots, Forest;
  }

  /** A complete scan without a zombie lets wait go to sleep. */
  lemma WakefulDoze(s: Sys, s': Sys, p: nat, c: nat, d: nat)
    requires Inv(s) && Only(s, s', p, p) && c < |s.procs| && d < |s.procs| && s'.waitLock == s.waitLock
    requires s.procs[p].pc.Scan? && s.procs[p].pc.i >= |s.procs|
    requires s'.procs[p] == s.procs[p].(pc := Wait1)
    ensures Wakeful(s', c, d)
  {
    Known(s, c, d);
    Known(s, p, c);
    Known(s, p, d);
    hide Inv, SlotOk, ForkOk, ForksApart, Forest;
  }

  /** Woken, or on no way to sleep: nobody else is between Wait1 and Wait2 while p holds wait_lock. */
  lemma WokenUp(s: Sys, p: nat, q: nat)
    requires Inv(s) && p < |s.procs| && q < |s.procs| && p != q && s.waitLock == Some(p) && !s.procs[q].locked
    ensures !Dozing(Wake(s.procs[q], ProcChan(q)))
  {
    Known(s, q, q);
    hide Inv, Forest, Wakeful, ForkOk, ForksApart;
  }

  /** One round of wakeup(initproc). */
  lemma WakefulInit(s: Sys, s': Sys, p: nat, t: nat, c: nat, d: nat)
    requires Inv(s) && Only(s, s', p, t) && c < |s.procs| && d < |s.procs| && p != t && p != s.init
    requires s.waitLock == Some(p) && s'.waitLock == s.waitLock && s.procs[p].pc.WakeInit? && s.procs[p].pc.j == t
    requires !s.procs[t].locked && s'.procs[t] == Wake(s.procs[t], ProcChan(s.init))
    requires s'.procs[p] == s.procs[p].(pc := WakeInit(s.procs[p].pc.i, t + 1))
    ensures Wakeful(s', c, d)
  {
    Known(s, c, d);
    if t == s.init { WokenUp(s, p, t); }
    hide Inv, Slots, Forest;
  }

  /** One round of wakeup(p->parent). */
  lemma WakefulParent(s: Sys, s': Sys, p: nat, t: nat, c: nat, d: nat)
    requires Inv(s) && Only(s, s', p, t) && c < |s.procs| && d < |s.procs| && p != t
    requires s.waitLock == Some(p) && s'.waitLock == s.waitLock && s.procs[p].pc == WakeParent(t)
    requires !s.procs[t].locked && s'.procs[t] == Wake(s.procs[t], ParentChan(s.procs[p]))
    requires s'.procs[p] == s.procs[p].(pc := WakeParent(t + 1))
    ensures Wakeful(s', c, d)
  {
    Known(s, c, d);
    WokenUp(s, p, t);
    hide Inv, Slots, Forest;
  }

  /** The end of wakeup(p->parent), or its own slot, which it skips. */
  lemma WakefulSkip(s: Sys, s': Sys, p: nat, c: nat, d: nat)
    requires Inv(s) && Only(s, s', p, p) && c < |s.procs| && d < |s.procs|
    requires s'.waitLock == s.waitLock == Some(p) && s.procs[p].pc.WakeParent? && s.procs[p].parent != Some(p)
    requires s'.procs[p] == s.procs[p].(pc := if s.procs[p].pc.j >= |s.procs| then Dying else WakeParent(p + 1))
    requires s.procs[p].pc.j < |s.procs| ==> s.procs[p].pc.j == p
    ensures Wakeful(s', c, d)
  {
    Known(s, c, d);
    hide Inv, Slots, Forest;
  }

  /** reparent hands a child, perhaps a zombie, to init. */
  lemma WakefulMove(s: Sys, s': Sys, p: nat, t: nat, c: nat, d: nat)
    requires Inv(s) && Only(s, s', p, t) && c < |s.procs| && d < |s.procs| && p != s.init
    requires s.waitLock == Some(p) && s'.waitLock == s.waitLock && s.procs[p].pc == Reparent(t) && p != t
    requires s'.procs[p] == s.procs[p].(pc := WakeInit(t, 0)) && s'.procs[t] == s.procs[t].(parent := Some(s.init))
    ensures Wakeful(s', c, d)
  {
    Known(s, c, d);
    hide Inv, SlotOk, ForkOk, ForksApart, Forest;
  }

  /** p becomes a zombie after its parent has been woken. */
  lemma WakefulDie(s: Sys, s': Sys, p: nat, c: nat, d: nat)
    requires Inv(s) && Only(s, s', p, p) && c < |s.procs| && d < |s.procs| && p != s.init
    requires s.waitLock == Some(p) && s'.waitLock == None && s.procs[p].pc == Dying
    requires s'.procs[p] == s.procs[p].(state := ZOMBIE, locked := true, pc := Exited)
    ensures Wakeful(s', c, d)
  {
    Known(s, c, d);
    hide Inv, SlotOk, ForkOk, ForksApart, Forest;
  }

  // ---- every step keeps the invariant ----

  lemma Assembled(s: Sys, s': Sys, p: nat, t: nat)
    requires Inv(s) && SlotsStep(s, s', p, t) && (s'.waitLock.Some? ==> s'.waitLock.value < |s.procs|)
    requires forall c: nat, d: nat :: c < |s'.procs| && d < |s'.procs| ==> Forest(s', c, d)
    requires forall c: nat, d: nat :: c < |s'.procs| && d < |s'.procs| ==> Wakeful(s', c, d)
    ensures Inv(s')
  {
    hide Forest, Wakeful;
    forall c: nat, d: nat | c < |s'.procs| && d < |s'.procs| ensures Rel(s', c, d) {
      SingleFrame(s, s', p, t, c);
      ApartFrame(s, s', p, t, c, d);
      hide Single, ForksApart, ForkedBy, SlotsStep;
      assert Single(s', c) && ForksApart(s', c, d) && ForkedBy(s', c, d) && Forest(s', c, d) && Wakeful(s', c, d);
    }
  }

  lemma KeepsSame(s: Sys, s': Sys, p: nat, t: nat)
    requires Inv(s) && SlotsStep(s, s', p, t) && SameForest(s, s', p, t) && WakeStep(s, s', p, t)
    requires s'.waitLock.Some? ==> s'.waitLock.value < |s.procs|
    ensures Inv(s')
  {
    hide Inv, SlotsStep, SameForest, Forest, Wakeful, Calm;
    forall c: nat, d: nat | c < |s'.procs| && d < |s'.procs| ensures Forest(s', c, d) && Wakeful(s', c, d) {
      ForestFrame(s, s', p, t, c, d);
      WakefulFrame(s, s', p, t, c, d);
    }
    Assembled(s, s', p, t);
  }

  lemma SleepKeeps(s: Sys, st: SleepStep)
    requires Inv(s) && CanSleep(s, st)
    ensures Inv(DoSleep(s, st))
  {
    var p, s' := st.p, DoSleep(s, st);
    Known(s, p, p);
    hide Inv, ForksApart, ParentOk, PidOk, Wakeful;
    assert SlotsStep(s, s', p, p) by { hide Forest; }
    assert SameForest(s, s', p, p) by { hide Slots, Released; }
    assert WakeStep(s, s', p, p) by { hide Forest; }
    hide Slots, Forest, SlotsStep, SameForest, WakeStep;
    KeepsSame(s, s', p, p);
  }

  lemma OtherKeeps(s: Sys, st: OtherStep)
    requires Inv(s) && CanOther(s, st)
    ensures Inv(DoOther(s, st))
  {
    OtherSlots(s, st);
    OtherWakes(s, st);
    OtherForest(s, st);
    hide Inv, CanOther, DoOther, SlotsStep, SameForest, WakeStep;
    KeepsSame(s, DoOther(s, st), st.p, st.p);
  }

  lemma OtherSlots(s: Sys, st: OtherStep)
    requires Inv(s) && CanOther(s, st)
    ensures SlotsStep(s, DoOther(s, st), st.p, st.p)
  {
    Known(s, st.p, st.p);
    ParentForking(s, st.p);
    hide Inv, ForksApart, Wakeful, Forest;
  }

  lemma OtherWakes(s: Sys, st: OtherStep)
    requires Inv(s) && CanOther(s, st)
    ensures WakeStep(s, DoOther(s, st), st.p, st.p)
    ensures DoOther(s, st).waitLock == s.waitLock && (s.waitLock.Some? ==> s.waitLock.value < |s.procs|)
  {
    Known(s, st.p, st.p);
    hide Inv, ForksApart, Forest;
  }

  lemma OtherForest(s: Sys, st: OtherStep)
    requires Inv(s) && CanOther(s, st)
    ensures SameForest(s, DoOther(s, st), st.p, st.p)
  {
    var p, s' := st.p, DoOther(s, st);
    Known(s, p, p);
    HandedNow(s, p);
    assert Released(s', p);
    hide Inv, ForksApart, ForkOk, ForkedBy, ParentOk, PidOk, Wakeful, Released;
  }

  lemma ForkKeeps(s: Sys, st: ForkStep)
    requires Inv(s) && CanFork(s, st)
    ensures Inv(DoFork(s, st))
  {
    var p := st.p;
    match st
    case ForkAlloc(_, np) => AllocKeeps(s, p, np);
    case ForkFail(_) => ForkFailKeeps(s, p, s.procs[p].pc.np);
    case ForkCopied(_) =>
      var t := s.procs[p].pc.np;
      Known(s, p, t);
      hide Inv, ForksApart, ParentOk, PidOk, Wakeful;
      KeepsSame(s, DoFork(s, st), p, t);
    case ForkLink(_) => LinkKeeps(s, st, s.procs[p].pc.np);
    case ForkRun(_) => LinkKeeps(s, st, s.procs[p].pc.np);
  }

  lemma AllocStep(s: Sys, p: nat, np: nat)
    requires Inv(s) && CanFork(s, ForkAlloc(p, np))
    ensures SlotsStep(s, DoFork(s, ForkAlloc(p, np)), p, np) && WakeStep(s, DoFork(s, ForkAlloc(p, np)), p, np)
  {
    Known(s, p, np);
    Known(s, s.init, np);
  }

  lemma AllocKeeps(s: Sys, p: nat, np: nat)
    requires Inv(s) && CanFork(s, ForkAlloc(p, np))
    ensures Inv(DoFork(s, ForkAlloc(p, np)))
  {
    var s' := DoFork(s, ForkAlloc(p, np));
    hide Inv, SlotsStep, WakeStep, Forest, Wakeful, Slots;
    AllocStep(s, p, np);
    forall c: nat, d: nat | c < |s'.procs| && d < |s'.procs| ensures Forest(s', c, d) && Wakeful(s', c, d) {
      ForestAlloc(s, s', p, np, c, d);
      WakefulFrame(s, s', p, np, c, d);
    }
    Assembled(s, s', p, np);
  }

  lemma ForkFailKeeps(s: Sys, p: nat, t: nat)
    requires Inv(s) && CanFork(s, ForkFail(p)) && t == s.procs[p].pc.np
    ensures Inv(DoFork(s, ForkFail(p)))
  {
    var s' := DoFork(s, ForkFail(p));
    Known(s, p, t);
    assert SlotsStep(s, s', p, t) && WakeStep(s, s', p, t);
    hide Inv, SlotsStep, WakeStep, Forest, Wakeful, Slots;
    forall c: nat, d: nat | c < |s'.procs| && d < |s'.procs| ensures Forest(s', c, d) && Wakeful(s', c, d) {
      ForestFree(s, s', p, t, c, d);
      WakefulFrame(s, s', p, t, c, d);
    }
    Assembled(s, s', p, t);
  }

  lemma LinkSlots(s: Sys, st: ForkStep, t: nat)
    requires Inv(s) && CanFork(s, st) && (st.ForkLink? || st.ForkRun?) && t == s.procs[st.p].pc.np
    ensures SlotsStep(s, DoFork(s, st), st.p, t)
  {
    Known(s, st.p, t);
    hide Inv, Wakeful, Forest, ForksApart;
  }

  lemma LinkWakes(s: Sys, st: ForkStep, t: nat)
    requires Inv(s) && CanFork(s, st) && (st.ForkLink? || st.ForkRun?) && t == s.procs[st.p].pc.np
    ensures WakeStep(s, DoFork(s, st), st.p, t)
  {
    Known(s, st.p, t);
    hide Inv, Forest, ForksApart, ForkedBy;
  }

  lemma LinkKeeps(s: Sys, st: ForkStep, t: nat)
    requires Inv(s) && CanFork(s, st) && (st.ForkLink? || st.ForkRun?) && t == s.procs[st.p].pc.np
    ensures Inv(DoFork(s, st))
  {
    var p, s' := st.p, DoFork(s, st);
    Known(s, p, t);
    LinkSlots(s, st, t);
    LinkWakes(s, st, t);
    hide Inv, SlotsStep, WakeStep, Forest, Wakeful, Slots;
    forall c: nat, d: nat | c < |s'.procs| && d < |s'.procs| ensures Forest(s', c, d) && Wakeful(s', c, d) {
      ForestLink(s, s', p, t, c, d);
      WakefulFrame(s, s', p, t, c, d);
    }
    Assembled(s, s', p, t);
  }

  lemma ExitKeeps(s: Sys, st: ExitStep)
    requires Inv(s) && CanExit(s, st)
    ensures Inv(DoExit(s, st))
  {
    match st
    case ExitBegin(p) => ExitPcKeeps(s, st);
    case ReparentStep(p) =>
      var t := s.procs[p].pc.i;
      if t < |s.procs| && s.procs[t].parent == Some(p) { MoveKeeps(s, p, t); } else { ExitPcKeeps(s, st); }
    case WakeInitStep(p) =>
      var t := s.procs[p].pc.j;
      if t < |s.procs| && t != p { WakeInitKeeps(s, p, t); } else { ExitPcKeeps(s, st); }
    case WakeParentStep(p) =>
      var t := s.procs[p].pc.j;
      if t < |s.procs| && t != p { WakeParentKeeps(s, p, t); } else { WakeSkipKeeps(s, p); }
    case Die(p) => DieKeeps(s, p);
    case ExitSwitch(p) => ExitPcKeeps(s, st);
  }

  /** The steps of exit that change nothing but where p stands. */
  predicate ExitPcOnly(s: Sys, st: ExitStep)
    requires CanExit(s, st)
  {
    match st
    case ExitBegin(p) => true
    case ExitSwitch(p) => true
    case ReparentStep(p) => var t := s.procs[p].pc.i; !(t < |s.procs| && s.procs[t].parent == Some(p))
    case WakeInitStep(p) => var t := s.procs[p].pc.j; !(t < |s.procs| && t != p)
    case _ => false
  }

  lemma ExitPcKeeps(s: Sys, st: ExitStep)
    requires Inv(s) && CanExit(s, st) && ExitPcOnly(s, st)
    ensures Inv(DoExit(s, st))
  {
    ExitPcSlots(s, st);
    ExitPcWakes(s, st);
    ExitPcForest(s, st);
    hide Inv, CanExit, DoExit, SlotsStep, SameForest, WakeStep;
    KeepsSame(s, DoExit(s, st), st.p, st.p);
  }

  lemma ExitPcSlots(s: Sys, st: ExitStep)
    requires Inv(s) && CanExit(s, st) && ExitPcOnly(s, st)
    ensures SlotsStep(s, DoExit(s, st), st.p, st.p)
  {
    Known(s, st.p, st.p);
    Known(s, s.init, st.p);
    hide Inv, ForksApart, Wakeful, ParentOk, PidOk;
  }

  lemma ExitPcWakes(s: Sys, st: ExitStep)
    requires Inv(s) && CanExit(s, st) && ExitPcOnly(s, st)
    ensures WakeStep(s, DoExit(s, st), st.p, st.p)
    ensures DoExit(s, st).waitLock.Some? ==> DoExit(s, st).waitLock.value < |s.procs|
  {
    Known(s, st.p, st.p);
    Known(s, s.init, st.p);
    hide Inv, ForksApart, ParentOk, PidOk;
  }

  lemma ExitPcForest(s: Sys, st: ExitStep)
    requires Inv(s) && CanExit(s, st) && ExitPcOnly(s, st)
    ensures SameForest(s, DoExit(s, st), st.p, st.p)
  {
    var p, s' := st.p, DoExit(s, st);
    HandedNow(s, p);
    Known(s, p, p);
    assert Released(s', p);
    hide Inv, ForksApart, ForkOk, ForkedBy, ParentOk, PidOk, Wakeful, Released;
  }

  /** Whatever p has passed in reparent is no child of p. */
  lemma HandedNow(s: Sys, p: nat)
    requires Inv(s) && p < |s.procs|
    ensures Released(s, p)
  {
    forall c | 0 <= c < |s.procs| && c < Handed(s, p) ensures s.procs[c].parent != Some(p) {
      Known(s, c, p);
    }
  }

  lemma ParentForking(s: Sys, p: nat)
    requires Inv(s) && p < |s.procs|
    ensures ParentForks(s, p)
  {
    Known(s, p, p);
    if s.procs[p].parent.Some? { Known(s, p, s.procs[p].parent.value); }
  }

  lemma MoveKeeps(s: Sys, p: nat, t: nat)
    requires Inv(s) && CanExit(s, ReparentStep(p)) && s.procs[p].pc.i == t < |s.procs| && s.procs[t].parent == Some(p)
    ensures Inv(DoExit(s, ReparentStep(p)))
  {
    var s' := DoExit(s, ReparentStep(p));
    Known(s, p, t);
    Known(s, s.init, p);
    hide Inv;
    assert SlotsStep(s, s', p, t);
    hide SlotsStep, Forest, Wakeful, Slots;
    forall c: nat, d: nat | c < |s'.procs| && d < |s'.procs| ensures Forest(s', c, d) && Wakeful(s', c, d) {
      ForestMove(s, s', p, t, c, d);
      WakefulMove(s, s', p, t, c, d);
    }
    Assembled(s, s', p, t);
  }

  lemma WakeInitKeeps(s: Sys, p: nat, t: nat)
    requires Inv(s) && CanExit(s, WakeInitStep(p)) && s.procs[p].pc.j == t < |s.procs| && t != p
    ensures Inv(DoExit(s, WakeInitStep(p)))
  {
    var s' := DoExit(s, WakeInitStep(p));
    WokenSlot(s, s', p, t, ProcChan(s.init));
    WokenForest(s, s', p, t, ProcChan(s.init));
    Known(s, p, s.init);
    hide Inv, SlotsStep, SameForest, Wakeful, Slots;
    forall c: nat, d: nat | c < |s'.procs| && d < |s'.procs| ensures Forest(s', c, d) && Wakeful(s', c, d) {
      ForestFrame(s, s', p, t, c, d);
      WakefulInit(s, s', p, t, c, d);
    }
    Assembled(s, s', p, t);
  }

  lemma WakeParentKeeps(s: Sys, p: nat, t: nat)
    requires Inv(s) && CanExit(s, WakeParentStep(p)) && s.procs[p].pc.j == t < |s.procs| && t != p
    ensures Inv(DoExit(s, WakeParentStep(p)))
  {
    var s' := DoExit(s, WakeParentStep(p));
    WokenSlot(s, s', p, t, ParentChan(s.procs[p]));
    WokenForest(s, s', p, t, ParentChan(s.procs[p]));
    hide Inv, SlotsStep, SameForest, Wakeful, Slots, Forest;
    forall c: nat, d: nat | c < |s'.procs| && d < |s'.procs| ensures Forest(s', c, d) && Wakeful(s', c, d) {
      ForestFrame(s, s', p, t, c, d);
      WakefulParent(s, s', p, t, c, d);
    }
    Assembled(s, s', p, t);
  }

  /** One round of wakeup, on slot t, by an exiting process. */
  ghost predicate WakesSlot(s: Sys, s': Sys, p: nat, t: nat, ch: Chan) {
    && Only(s, s', p, t) && p != t && s.procs[p].state == RUNNING && !s.procs[t].locked
    && s'.procs[t] == Wake(s.procs[t], ch) && s'.procs[p] == s.procs[p].(pc := s'.procs[p].pc)
    && ((s.procs[p].pc.WakeInit? && s'.procs[p].pc == WakeInit(s.procs[p].pc.i, t + 1))
        || (s.procs[p].pc.WakeParent? && s'.procs[p].pc == WakeParent(t + 1)))
    && s'.waitLock == s.waitLock && s'.nextpid == s.nextpid
  }

  lemma WokenSlot(s: Sys, s': Sys, p: nat, t: nat, ch: Chan)
    requires Inv(s) && WakesSlot(s, s', p, t, ch)
    ensures SlotsStep(s, s', p, t) && s.waitLock == Some(p)
  {
    Known(s, p, t);
    ParentForking(s, t);
    hide Inv, Wakeful, Forest, ForksApart;
  }

  lemma WokenForest(s: Sys, s': Sys, p: nat, t: nat, ch: Chan)
    requires Inv(s) && WakesSlot(s, s', p, t, ch)
    ensures SameForest(s, s', p, t)
  {
    Known(s, p, s.init);
    HandedNow(s, p);
    assert Released(s', p);
    hide Inv, Wakeful, PidOk, ParentOk, Released, Slots;
  }

  lemma WakeSkipKeeps(s: Sys, p: nat)
    requires Inv(s) && CanExit(s, WakeParentStep(p)) && !(s.procs[p].pc.j < |s.procs| && s.procs[p].pc.j != p)
    ensures Inv(DoExit(s, WakeParentStep(p)))
  {
    var s' := DoExit(s, WakeParentStep(p));
    Known(s, p, p);
    Known(s, p, s.init);
    HandedNow(s, p);
    assert Released(s', p);
    hide Inv, Released, Wakeful, PidOk;
    assert SlotsStep(s, s', p, p) && SameForest(s, s', p, p) && s.procs[p].parent != Some(p);
    hide SlotsStep, SameForest, Slots, Forest;
    forall c: nat, d: nat | c < |s'.procs| && d < |s'.procs| ensures Forest(s', c, d) && Wakeful(s', c, d) {
      ForestFrame(s, s', p, p, c, d);
      WakefulSkip(s, s', p, c, d);
    }
    Assembled(s, s', p, p);
  }

  lemma DieKeeps(s: Sys, p: nat)
    requires Inv(s) && CanExit(s, Die(p))
    ensures Inv(DoExit(s, Die(p)))
  {
    var s' := DoExit(s, Die(p));
    Known(s, p, p);
    Known(s, p, s.init);
    hide Inv, Wakeful, PidOk;
    assert SlotsStep(s, s', p, p);
    hide SlotsStep, Slots, Forest;
    forall c: nat, d: nat | c < |s'.procs| && d < |s'.procs| ensures Forest(s', c, d) && Wakeful(s', c, d) {
      ForestDie(s, s', p, c, d);
      WakefulDie(s, s', p, c, d);
    }
    Assembled(s, s', p, p);
  }

  lemma WaitKeeps(s: Sys, st: WaitStep)
    requires Inv(s) && CanWait(s, st)
    ensures Inv(DoWait(s, st))
  {
    var p := st.p;
    var x := s.procs[p];
    match st
    case WaitBegin(_) => WaitPcKeeps(s, st);
    case WaitAgain(_) => WaitPcKeeps(s, st);
    case ScanStep(_, copyFails) =>
      if s.procs[x.pc.i].parent == Some(p) && s.procs[x.pc.i].state == ZOMBIE {
        if copyFails { WaitPcKeeps(s, st); } else { ReapKeeps(s, p, x.pc.i); }
      } else {
        ScanKeeps(s, st);
      }
    case ScanDone(_) => if !x.pc.kids || x.killed { WaitPcKeeps(s, st); } else { DozeKeeps(s, p); }
  }

  /** wait begins, starts over, or returns without a child. */
  lemma WaitPcKeeps(s: Sys, st: WaitStep)
    requires Inv(s) && CanWait(s, st)
    requires var x := s.procs[st.p];
      match st
      case WaitBegin(p) => true
      case WaitAgain(p) => true
      case ScanStep(p, copyFails) =>
        s.procs[x.pc.i].parent == Some(p) && s.procs[x.pc.i].state == ZOMBIE && copyFails
      case ScanDone(p) => !x.pc.kids || x.killed
    ensures Inv(DoWait(s, st))
  {
    var p, s' := st.p, DoWait(s, st);
    Known(s, p, p);
    hide Inv, ForksApart, ParentOk, PidOk, Wakeful;
    assert SlotsStep(s, s', p, p) by { hide Forest; }
    assert SameForest(s, s', p, p) by { hide Slots, Released; }
    assert WakeStep(s, s', p, p) by { hide Forest; }
    hide Slots, Forest, SlotsStep, SameForest, WakeStep;
    KeepsSame(s, s', p, p);
  }

  lemma ScanKeeps(s: Sys, st: WaitStep)
    requires Inv(s) && CanWait(s, st) && st.ScanStep?
    requires var c := s.procs[s.procs[st.p].pc.i]; !(c.parent == Some(st.p) && c.state == ZOMBIE)
    ensures Inv(DoWait(s, st))
  {
    var p, s' := st.p, DoWait(s, st);
    Known(s, p, p);
    hide Inv, Wakeful, PidOk, ParentOk;
    assert SlotsStep(s, s', p, p) && SameForest(s, s', p, p) && s.waitLock == Some(p);
    hide SlotsStep, SameForest, Slots, Forest;
    forall c: nat, d: nat | c < |s'.procs| && d < |s'.procs| ensures Forest(s', c, d) && Wakeful(s', c, d) {
      ForestFrame(s, s', p, p, c, d);
      WakefulScan(s, s', p, c, d);
    }
    Assembled(s, s', p, p);
  }

  lemma DozeKeeps(s: Sys, p: nat)
    requires Inv(s) && CanWait(s, ScanDone(p)) && s.procs[p].pc.kids && !s.procs[p].killed
    ensures Inv(DoWait(s, ScanDone(p)))
  {
    var s' := DoWait(s, ScanDone(p));
    Known(s, p, p);
    hide Inv, Wakeful, PidOk, ParentOk;
    assert SlotsStep(s, s', p, p) && SameForest(s, s', p, p);
    hide SlotsStep, SameForest, Slots, Forest;
    forall c: nat, d: nat | c < |s'.procs| && d < |s'.procs| ensures Forest(s', c, d) && Wakeful(s', c, d) {
      ForestFrame(s, s', p, p, c, d);
      WakefulDoze(s, s', p, c, d);
    }
    Assembled(s, s', p, p);
  }

  /** wait frees a zombie child. */
  lemma ReapKeeps(s: Sys, p: nat, t: nat)
    requires Inv(s) && CanWait(s, ScanStep(p, false)) && t == s.procs[p].pc.i
    requires s.procs[t].parent == Some(p) && s.procs[t].state == ZOMBIE
    ensures Inv(DoWait(s, ScanStep(p, false)))
  {
    var s' := DoWait(s, ScanStep(p, false));
    Known(s, p, t);
    Known(s, s.init, s.init);
    ReapSlots(s, s', p, t);
    hide Inv, Wakeful, PidOk, SlotsStep, WakeStep, Slots;
    forall c: nat, d: nat | c < |s'.procs| && d < |s'.procs| ensures Forest(s', c, d) && Wakeful(s', c, d) {
      ForestFree(s, s', p, t, c, d);
      WakefulFrame(s, s', p, t, c, d);
    }
    Assembled(s, s', p, t);
  }

  lemma ReapSlots(s: Sys, s': Sys, p: nat, t: nat)
    requires Inv(s) && Only(s, s', p, t) && p != t && s.procs[p].pc.Scan? && s.procs[p].state == RUNNING
    requires s.procs[t].state == ZOMBIE && !s.procs[t].locked && s'.procs[t] == FREE_SLOT
    requires s'.procs[p] == s.procs[p].(pc := Idle) && s'.waitLock == None
    ensures SlotsStep(s, s', p, t) && WakeStep(s, s', p, t)
  {
    Known(s, p, t);
    hide Inv, Wakeful, Forest, ForksApart;
  }

  lemma StepKeeps(s: Sys, st: Step)
    requires Inv(s) && Enabled(s, st)
    ensures Inv(Do(s, st))
  {
    hide Inv;
    match st
    case Fork(f) => ForkKeeps(s, f);
    case Exit(e) => ExitKeeps(s, e);
    case Wait(w) => WaitKeeps(s, w);
    case Sleep(l) => SleepKeeps(s, l);
    case Other(o) => OtherKeeps(s, o);
  }

  // ---- whole runs ----

  /** After userinit: one process, ready to run, and free slots. */
  ghost predicate Boot(s: Sys) {
    && s.init < |s.procs| && s.nextpid == 2 && s.waitLock == None
    && (forall p: nat :: p < |s.procs| && p != s.init ==> s.procs[p] == FREE_SLOT)
    && s.procs[s.init] == Proc(RUNNABLE, 1, None, NoChan, false, false, Idle)
  }

  /** s' is reached from s by the given steps. */
  ghost predicate Reaches(s: Sys, steps: seq<Step>, s': Sys)
    decreases |steps|
  {
    if steps == [] then s' == s
    else Enabled(s, steps[0]) && Reaches(Do(s, steps[0]), steps[1..], s')
  }

  lemma {:induction false} RunKeeps(s: Sys, steps: seq<Step>, s': Sys)
    requires Inv(s) && Reaches(s, steps, s')
    ensures Inv(s')
    decreases |steps|
  {
    hide Inv, Enabled, Do;
    if steps != [] {
      StepKeeps(s, steps[0]);
      RunKeeps(Do(s, steps[0]), steps[1..], s');
    }
  }

  lemma BootInv(s: Sys)
    requires Boot(s)
    ensures Inv(s)
  {}

  /** In every interleaving, whenever wait_lock is free, no process that sleeps in wait or is
      on its way to sleep has a zombie child. */
  lemma NoLostWakeup(s0: Sys, steps: seq<Step>, s: Sys, p: nat, c: nat)
    requires Boot(s0) && Reaches(s0, steps, s) && s.waitLock == None && p < |s.procs| && c < |s.procs|
    requires Dozing(s.procs[p]) && s.procs[c].parent == Some(p)
    ensures s.procs[c].state != ZOMBIE
  {
    BootInv(s0);
    RunKeeps(s0, steps, s);
    Known(s, p, c);
  }

  // ---- kill of pid 0 ----

  /** What is left of `killed` in a slot that is free after a step. */
  predicate KilledAfter(x: Proc, x': Proc, killing: bool) {
    x'.state == UNUSED ==> (x'.killed <==> x.state == UNUSED && (x.killed || killing))
  }

  lemma ForkFreeSlot(s: Sys, f: ForkStep, np: nat)
    requires Inv(s) && CanFork(s, f) && np < |s.procs|
    ensures KilledAfter(s.procs[np], DoFork(s, f).procs[np], false)
  {
    Known(s, f.p, f.p);
    hide Inv, Forest, Wakeful, SlotOk, LockOk;
  }

  lemma ExitFreeSlot(s: Sys, e: ExitStep, np: nat)
    requires CanExit(s, e) && np < |s.procs|
    ensures KilledAfter(s.procs[np], DoExit(s, e).procs[np], false)
  {}

  lemma WaitFreeSlot(s: Sys, w: WaitStep, np: nat)
    requires CanWait(s, w) && np < |s.procs|
    ensures KilledAfter(s.procs[np], DoWait(s, w).procs[np], false)
  {}

  lemma SleepFreeSlot(s: Sys, l: SleepStep, np: nat)
    requires CanSleep(s, l) && np < |s.procs|
    ensures KilledAfter(s.procs[np], DoSleep(s, l).procs[np], false)
  {}

  lemma OtherFreeSlot(s: Sys, o: OtherStep, np: nat)
    requires CanOther(s, o) && np < |s.procs|
    ensures KilledAfter(s.procs[np], DoOther(s, o).procs[np], o == Kill(np))
  {}

  lemma FreeSlotKilled(s: Sys, st: Step, np: nat)
    requires Inv(s) && Enabled(s, st) && np < |s.procs|
    ensures |Do(s, st).procs| == |s.procs| && KilledAfter(s.procs[np], Do(s, st).procs[np], st == Other(Kill(np)))
  {
    hide Inv, KilledAfter, CanFork, CanExit, CanWait, CanSleep, CanOther;
    SameSize(s, st);
    hide DoFork, DoExit, DoWait, DoSleep, DoOther;
    match st
    case Fork(f) => ForkFreeSlot(s, f, np);
    case Exit(e) => ExitFreeSlot(s, e, np);
    case Wait(w) => WaitFreeSlot(s, w, np);
    case Sleep(l) => SleepFreeSlot(s, l, np);
    case Other(o) => OtherFreeSlot(s, o, np);
  }

  lemma SameSize(s: Sys, st: Step)
    requires Enabled(s, st)
    ensures |Do(s, st).procs| == |s.procs| && Do(s, st).init == s.init
  {}

  /** The slot is free throughout. */
  ghost predicate StaysFree(s: Sys, steps: seq<Step>, np: nat)
    decreases |steps|
  {
    && np < |s.procs| && s.procs[np].state == UNUSED
    && (steps != [] ==> Enabled(s, steps[0]) && StaysFree(Do(s, steps[0]), steps[1..], np))
  }

  /** allocproc does not look at `killed`: a child is born killed exactly when kill(0) has found
      its slot since it became free. */
  lemma {:induction false} BornKilled(s: Sys, steps: seq<Step>, s': Sys, p: nat, np: nat)
    requires Inv(s) && Reaches(s, steps, s') && StaysFree(s, steps, np) && CanFork(s', ForkAlloc(p, np))
    ensures DoFork(s', ForkAlloc(p, np)).procs[np].killed <==> s.procs[np].killed || Other(Kill(np)) in steps
    decreases |steps|
  {
    hide Inv, Enabled, Do;
    if steps != [] {
      StepKeeps(s, steps[0]);
      FreeSlotKilled(s, steps[0], np);
      BornKilled(Do(s, steps[0]), steps[1..], s', p, np);
      assert steps == [steps[0]] + steps[1..];
    }
  }

  /** fork from beginning to end, undisturbed. */
  lemma ForkChild(s: Sys, p: nat, np: nat) returns (s': Sys)
    requires p < |s.procs| && np < |s.procs| && p != np && s.procs[p].state == RUNNING && s.procs[p].pc == Idle
    requires s.procs[np].state == UNUSED && !s.procs[np].locked && s.waitLock == None
    ensures Reaches(s, [Fork(ForkAlloc(p, np)), Fork(ForkCopied(p)), Fork(ForkLink(p)), Fork(ForkRun(p))], s')
    ensures |s'.procs| == |s.procs| && s'.procs[np].state == RUNNABLE && s'.procs[np].parent == Some(p)
    ensures s'.procs[np].killed == s.procs[np].killed && !s'.procs[np].locked
    ensures s'.procs[p] == s.procs[p] && s'.waitLock == None
  {
    hide Enabled, Do, Reaches;
    var s1 := DoFork(s, ForkAlloc(p, np));
    var s2 := DoFork(s1, ForkCopied(p));
    var s3 := DoFork(s2, ForkLink(p));
    s' := DoFork(s3, ForkRun(p));
    var a, b, c, d := Fork(ForkAlloc(p, np)), Fork(ForkCopied(p)), Fork(ForkLink(p)), Fork(ForkRun(p));
    assert [d] + [] == [d] && [c] + [d] == [c, d] && [b] + [c, d] == [b, c, d] && [a] + [b, c, d] == [a, b, c, d];
    NoSteps(s');
    FirstFork(s3, d.f, [], s');
    FirstFork(s2, c.f, [d], s');
    FirstFork(s1, b.f, [c, d], s');
    FirstFork(s, a.f, [b, c, d], s');
  }

  lemma NoSteps(s: Sys)
    ensures Reaches(s, [], s)
  {}

  lemma FirstFork(s: Sys, f: ForkStep, rest: seq<Step>, s': Sys)
    requires CanFork(s, f) && Reaches(DoFork(s, f), rest, s')
    ensures Reaches(s, [Fork(f)] + rest, s')
  {
    assert ([Fork(f)] + rest)[1..] == rest;
  }

  lemma FirstOther(s: Sys, o: OtherStep, rest: seq<Step>, s': Sys)
    requires CanOther(s, o) && Reaches(DoOther(s, o), rest, s')
    ensures Reaches(s, [Other(o)] + rest, s')
  {
    assert ([Other(o)] + rest)[1..] == rest;
  }

  /** A run in which init's first child can run and is killed, and nobody has killed it. */
  lemma KillZero() returns (s0: Sys, steps: seq<Step>, s: Sys)
    ensures Boot(s0) && Reaches(s0, steps, s) && |s.procs| == 2
    ensures s.procs[1].state == RUNNABLE && s.procs[1].killed && s.procs[1].parent == Some(0)
    ensures forall i :: 0 < i < |steps| ==> !(steps[i].Other? && steps[i].o.Kill?)
  {
    hide Enabled, Do, Reaches;
    var x := Proc(RUNNABLE, 1, None, NoChan, false, false, Idle);
    s0 := Sys([x, FREE_SLOT], 0, 2, None);
    var s1 := DoOther(s0, Kill(1));
    var s2 := DoOther(s1, Schedule(0));
    s := ForkChild(s2, 0, 1);
    var fork := [Fork(ForkAlloc(0, 1)), Fork(ForkCopied(0)), Fork(ForkLink(0)), Fork(ForkRun(0))];
    FirstOther(s1, Schedule(0), fork, s);
    FirstOther(s0, Kill(1), [Other(Schedule(0))] + fork, s);
    steps := [Other(Kill(1))] + ([Other(Schedule(0))] + fork);
  }
}
