/** The family tree and proc_is_child (kernel/process/proc.c). */
module ProcFamily {
  import opened Options
  import opened ProcTable
  import opened ProcInvariant

  /** Each slot of the path is the parent of the one before it. */
  ghost predicate Chain(s: Sys, path: seq<nat>) {
    && path != [] && (forall i :: 0 <= i < |path| ==> path[i] < |s.procs|)
    && forall i :: 0 <= i < |path| - 1 ==> s.procs[path[i]].parent == Some(path[i + 1])
  }

  ghost predicate Links(s: Sys, path: seq<nat>, c: nat, a: nat) {
    Chain(s, path) && path[0] == c && path[|path| - 1] == a
  }

  /** a is c or one of its ancestors. */
  ghost predicate Ancestor(s: Sys, c: nat, a: nat) {
    exists path :: Links(s, path, c, a)
  }

  /** Going up the tree the pids get smaller, so that no process is its own ancestor. */
  lemma {:induction false} PidsShrink(s: Sys, path: seq<nat>, i: nat, j: nat)
    requires Inv(s) && Chain(s, path) && i < j < |path|
    ensures s.procs[path[j]].pid < s.procs[path[i]].pid && path[i] != path[j]
    decreases j
  {
    Known(s, path[j - 1], path[j]);
    hide Inv, Slots, Wakeful;
    if i < j - 1 { PidsShrink(s, path, i, j - 1); }
  }

  lemma AncestorStep(s: Sys, c: nat, a: nat)
    requires Inv(s) && c < |s.procs| && a < |s.procs|
    ensures Ancestor(s, c, a) <==> c == a || (s.procs[c].parent.Some? && Ancestor(s, s.procs[c].parent.value, a))
    ensures s.procs[c].parent.Some? ==>
      s.procs[c].parent.value < |s.procs| && s.procs[s.procs[c].parent.value].pid < s.procs[c].pid
  {
    Known(s, c, a);
    hide Inv, Slots, Wakeful;
    if Ancestor(s, c, a) && c != a {
      var path :| Links(s, path, c, a);
      assert Links(s, path[1..], path[1], a);
    }
    if c == a { assert Links(s, [c], c, a); }
    if s.procs[c].parent.Some? && Ancestor(s, s.procs[c].parent.value, a) {
      var path :| Links(s, path, s.procs[c].parent.value, a);
      assert Links(s, [c] + path, c, a);
    }
  }

  lemma SamePid(s: Sys, p: nat, q: nat)
    requires Inv(s) && p < |s.procs| && q < |s.procs| && InUse(s.procs[q])
    ensures s.procs[p].pid == s.procs[q].pid <==> p == q
  {
    Known(s, p, q);
    hide Inv, Wakeful, ForkOk, LockOk, ForksApart;
  }

  /** proc_is_child terminates, and finds out whether `parent` is `process0` or one of its
      ancestors, although it compares pids and not slots. */
  method ProcIsChild(s: Sys, process0: nat, parent: nat) returns (r: bool)
    requires Inv(s) && process0 < |s.procs| && parent < |s.procs| && InUse(s.procs[parent])
    ensures r <==> Ancestor(s, process0, parent)
  {
    hide Inv, Ancestor;
    var process: Option<nat> := Some(process0);
    while process.Some?
      invariant process.Some? ==> process.value < |s.procs|
      invariant Ancestor(s, process0, parent) <==> process.Some? && Ancestor(s, process.value, parent)
      decreases if process.Some? then s.procs[process.value].pid + 1 else 0
    {
      SamePid(s, process.value, parent);
      AncestorStep(s, process.value, parent);
      if s.procs[process.value].pid == s.procs[parent].pid { return true; }
      process := s.procs[process.value].parent;
    }
    r := false;
  }

  /** In every run, live pids are unique and every parent is a live process with a smaller pid. */
  lemma FamilyTree(s0: Sys, steps: seq<Step>, s: Sys, c: nat, d: nat)
    requires Boot(s0) && Reaches(s0, steps, s) && c < |s.procs| && d < |s.procs|
    ensures InUse(s.procs[c]) && InUse(s.procs[d]) && s.procs[c].pid == s.procs[d].pid ==> c == d
    ensures s.procs[c].parent == Some(d) ==> Alive(s.procs[d]) && s.procs[d].pid < s.procs[c].pid
    ensures Ancestor(s, c, d) && Ancestor(s, d, c) ==> c == d
  {
    BootInv(s0);
    RunKeeps(s0, steps, s);
    Known(s, c, d);
    hide Inv, Slots, Wakeful, Reaches, Boot;
    if Ancestor(s, c, d) && Ancestor(s, d, c) && c != d {
      var up :| Links(s, up, c, d);
      var down :| Links(s, down, d, c);
      PidsShrink(s, up, 0, |up| - 1);
      PidsShrink(s, down, 0, |down| - 1);
    }
  }
}
