/** Address spaces side by side and from birth to death (kernel/memory/vm.c, kernel/process/proc.c). */
module SpaceLife {
  import opened Options
  import opened PageTables
  import opened PagePool
  import opened SpaceGrowth
  import opened AddressSpaces
  import opened UserMemory
  import opened ForkMemory
  import opened ProcSpaces

  /** Another process's space after pages of its own stayed as they were and none of them became free. */
  lemma KeptSpace(mem: Memory, avail: set<nat>, t: Tree, n: nat, mem': Memory, avail': set<nat>)
    requires ProcSpace(mem, avail, t, n) && PoolOk(mem', avail') && mem'.Keys == mem.Keys
    requires Kept(mem, mem', Footprint(mem, t, n)) && avail' !! Footprint(mem, t, n)
    ensures ProcSpace(mem', avail', t, n) && SameEntries(mem, t, mem', t)
    ensures Footprint(mem', t, n) == Footprint(mem, t, n)
  {
    OtherPages(mem, mem', t);
    hide TreeOk, Entry, Ppn, IsLeaf;
    PagesSame(mem, t, mem', t, 0, n);
    forall v: nat | v < n ensures OwnsAt(mem', avail', t, v) {
      assert OwnsAt(mem, avail, t, v);
      assert Ppn(Entry(mem, t, v)) in PagesOf(mem, t, 0, n);
    }
  }

  /** Processes share no page, and one process growing or shrinking leaves the memory of another,
      tables, pages and contents, as it was. */
  lemma SpacesIsolated(mem: Memory, avail: set<nat>, t: Tree, n: nat, mem': Memory, avail': set<nat>, t': Tree, n': nat,
                       other: Tree, k: nat)
    requires ProcSpace(mem, avail, t, n) && ProcSpace(mem, avail, other, k)
    requires Footprint(mem, t, n) !! Footprint(mem, other, k)
    requires Resized(mem, avail, t, n, mem', avail', t', n')
    ensures ProcSpace(mem', avail', other, k) && SameEntries(mem, other, mem', other)
    ensures Kept(mem, mem', Footprint(mem, other, k)) && Footprint(mem', other, k) == Footprint(mem, other, k)
    ensures Footprint(mem', t', n') !! Footprint(mem', other, k)
  {
    FootprintTaken(mem, avail, other, k);
    hide TreeOk, Entry, Footprint, SameBelow;
    KeptSpace(mem, avail, other, k, mem', avail');
  }

  lemma FootprintTaken(mem: Memory, avail: set<nat>, t: Tree, n: nat)
    requires ProcSpace(mem, avail, t, n)
    ensures Footprint(mem, t, n) <= mem.Keys - avail
  {
    TreePages(mem, avail, t);
    OwnedPages(mem, avail, t, 0, n);
  }

  /** The page that is mapped as the trapframe, for the kernel to read and write. */
  ghost predicate TrapframeAt(mem: Memory, t: Tree, trapframe: nat)
    requires TreeOk(mem, t)
  {
    Entry(mem, t, TRAPFRAME) == LeafOf(trapframe, 6)
  }

  /** What a process holds besides its space: the page of its trapframe. */
  ghost predicate Alive(m0: Memory, a0: set<nat>, mem: Memory, avail: set<nat>, t: Tree, n: nat, trapframe: nat) {
    && ProcSpace(mem, avail, t, n) && mem.Keys == m0.Keys && a0 <= m0.Keys && TrapframeAt(mem, t, trapframe)
    && trapframe !in avail + Footprint(mem, t, n)
    && avail + Footprint(mem, t, n) + {trapframe} == a0
    && Kept(m0, mem, m0.Keys - a0)
  }

  lemma AliveResized(m0: Memory, a0: set<nat>, mem: Memory, avail: set<nat>, t: Tree, n: nat, trapframe: nat,
                     mem': Memory, avail': set<nat>, t': Tree, n': nat)
    requires Alive(m0, a0, mem, avail, t, n, trapframe) && Resized(mem, avail, t, n, mem', avail', t', n')
    ensures Alive(m0, a0, mem', avail', t', n', trapframe)
  {
    hide ProcSpace, Footprint, SameBelow;
  }

  lemma NewAlive(m0: Memory, a0: set<nat>, m1: Memory, frame: nat, mem: Memory, avail: set<nat>, t: Tree)
    requires PoolOk(m0, a0) && m1.Keys == m0.Keys && Kept(m0, m1, m0.Keys - a0) && frame in a0
    requires ProcSpace(mem, avail, t, 0) && mem.Keys == m1.Keys && avail + t.Values == a0 - {frame}
    requires Kept(m1, mem, m1.Keys - (a0 - {frame})) && TrapframeAt(mem, t, frame)
    ensures Alive(m0, a0, mem, avail, t, 0, frame) && ROOT in t
  {
    assert PagesOf(mem, t, 0, 0) == {};
    assert ROOT in t;
    hide TreeOk, Entry, Owned, Unmapped, Mapped, PagesOf;
  }

  /** The memory part of allocproc. */
  method AllocSpace(m: Machine, trampoline: nat) returns (r: Option<(nat, nat)>, ghost t: Tree)
    requires PoolOk(m.mem, m.avail)
    modifies m
    ensures PoolOk(m.mem, m.avail)
    ensures r.None? ==> m.mem.Keys == old(m.mem.Keys) && m.avail == old(m.avail)
    ensures if r.None? then Free(old(m.avail)) < 6 else Free(old(m.avail)) <= Free(m.avail) + 6
    ensures r.None? ==> Kept(old(m.mem), m.mem, old(m.mem.Keys) - old(m.avail))
    ensures r.Some? ==> Alive(old(m.mem), old(m.avail), m.mem, m.avail, t, 0, r.value.0) && ROOT in t && t[ROOT] == r.value.1
  {
    hide HasTree, Entry, LeafOf, Alive, ProcSpace, Footprint, PagesOf;
    ghost var m0, a0 := m.mem, m.avail;
    t := map[];
    var frame := m.Kalloc();
    if frame.None? {
      return None, t;
    }
    ghost var m1, a1 := m.mem, m.avail;
    var root;
    root, t := ProcPagetable(m, trampoline, frame.value);
    if root.None? {
      m.Kfree(frame.value);
      return None, t;
    }
    NewAlive(m0, a0, m1, frame.value, m.mem, m.avail, t);
    return Some((frame.value, root.value)), t;
  }

  /** The memory part of freeproc. */
  method FreeSpace(m: Machine, trapframe: nat, root: nat, sz: nat, ghost m0: Memory, ghost a0: set<nat>, ghost t: Tree)
    requires Alive(m0, a0, m.mem, m.avail, t, PagesFor(sz), trapframe) && t[ROOT] == root
    modifies m
    ensures PoolOk(m.mem, m.avail) && m.mem.Keys == m0.Keys && m.avail == a0 && Kept(m0, m.mem, m0.Keys - a0)
  {
    hide TreeOk, Entry, PagesFor, PagesOf;
    ghost var m1, a1, n := m.mem, m.avail, PagesFor(sz);
    FootprintTaken(m1, a1, t, n);
    m.Kfree(trapframe);
    KeptSpace(m1, a1, t, n, m.mem, m.avail);
    ProcFreePagetable(m, root, sz, t);
  }

  /** How much the requests to grow ask for together. */
  function Asked(requests: seq<int>): nat {
    if requests == [] then 0
    else
      var n := |requests| - 1;
      Asked(requests[..n]) + if requests[n] > 0 then requests[n] else 0
  }

  lemma AskedNone()
    ensures Asked([]) == 0
  {}

  lemma AskedNext(requests: seq<int>, k: nat)
    requires k < |requests|
    ensures Asked(requests[..k + 1]) == Asked(requests[..k]) + if requests[k] > 0 then requests[k] else 0
  {
    assert requests[..k + 1][..k] == requests[..k];
  }

  lemma {:induction false} AskedUpTo(requests: seq<int>, k: nat)
    requires k <= |requests|
    ensures Asked(requests[..k]) <= Asked(requests)
    decreases |requests| - k
  {
    if k < |requests| {
      AskedNext(requests, k);
      AskedUpTo(requests, k + 1);
    } else {
      assert requests[..k] == requests;
    }
  }

  lemma BeyondSize(size: nat, n: nat)
    requires PagesFor(size) > n
    ensures size > n * PGSIZE
  {}

  /** A process that is made, grows and shrinks as it likes and dies leaves the pool and everyone
      else's memory as it found them. */
  method WholeLife(m: Machine, trampoline: nat, requests: seq<int>) returns (panic: bool)
    requires PoolOk(m.mem, m.avail)
    requires forall k :: 0 <= k < |requests| ==> -0x8000_0000 <= requests[k] < 0x8000_0000
    modifies m
    ensures panic ==> Asked(requests) > TRAPFRAME * PGSIZE
    ensures !panic ==> PoolOk(m.mem, m.avail) && m.mem.Keys == old(m.mem.Keys)
    ensures !panic ==> m.avail == old(m.avail) && Kept(old(m.mem), m.mem, old(m.mem.Keys) - old(m.avail))
  {
    hide Alive, ProcSpace, PagesFor, Resized, TreeOk, Asked;
    panic := false;
    ghost var m0, a0 := m.mem, m.avail;
    var r;
    ghost var t;
    r, t := AllocSpace(m, trampoline);
    if r.None? {
      return;
    }
    NoPages();
    var sz: nat := 0;
    assert requests[..0] == [];
    AskedNone();
    for k := 0 to |requests|
      invariant Alive(m0, a0, m.mem, m.avail, t, PagesFor(sz), r.value.0) && ROOT in t && t[ROOT] == r.value.1
      invariant sz <= Asked(requests[..k])
    {
      var n := requests[k];
      AskedNext(requests, k);
      AskedUpTo(requests, k + 1);
      ghost var m1, a1, t1 := m.mem, m.avail, t;
      AliveSpace(m0, a0, m.mem, m.avail, t, PagesFor(sz), r.value.0);
      var out, sz';
      out, sz', t := GrowProc(m, r.value.1, sz, n, t);
      if out == Panic {
        BeyondSize(sz + n, TRAPFRAME);
        return true;
      }
      AliveResized(m0, a0, m1, a1, t1, PagesFor(sz), r.value.0, m.mem, m.avail, t, PagesFor(sz'));
      SameRoot(m1, a1, t1, PagesFor(sz), m.mem, m.avail, t, PagesFor(sz'));
      sz := sz';
    }
    FreeSpace(m, r.value.0, r.value.1, sz, m0, a0, t);
  }

  lemma AliveSpace(m0: Memory, a0: set<nat>, mem: Memory, avail: set<nat>, t: Tree, n: nat, trapframe: nat)
    requires Alive(m0, a0, mem, avail, t, n, trapframe)
    ensures ProcSpace(mem, avail, t, n)
  {}

  lemma SameRoot(mem: Memory, avail: set<nat>, t: Tree, n: nat, mem': Memory, avail': set<nat>, t': Tree, n': nat)
    requires ProcSpace(mem, avail, t, n) && Resized(mem, avail, t, n, mem', avail', t', n')
    ensures ROOT in t && ROOT in t' && t'[ROOT] == t[ROOT]
  {}

  // ---- fork ----

  /** While a process lives, the processes that were there before are as they were. */
  lemma OthersKept(m0: Memory, a0: set<nat>, s: Tree, k: nat, mem: Memory, avail: set<nat>, t: Tree, n: nat, trapframe: nat)
    requires ProcSpace(m0, a0, s, k) && Alive(m0, a0, mem, avail, t, n, trapframe)
    ensures ProcSpace(mem, avail, s, k) && SameEntries(m0, s, mem, s) && Kept(m0, mem, Footprint(m0, s, k))
    ensures Footprint(mem, s, k) == Footprint(m0, s, k) && Footprint(m0, s, k) !! Footprint(mem, t, n)
  {
    FootprintTaken(m0, a0, s, k);
    hide TreeOk, Entry, PagesOf;
    KeptSpace(m0, a0, s, k, mem, avail);
  }

  /** The memory of a child: its parent's flags and contents, page by page. */
  ghost predicate CopyOf(m0: Memory, s: Tree, n: nat, mem: Memory, t: Tree)
    requires TreeOk(m0, s) && TreeOk(mem, t)
  {
    forall v: nat :: v < n ==> Shows(mem, t, v, ImageAt(m0, s, v))
  }

  lemma {:induction false} ImagesAt(mem: Memory, s: Tree, n: nat, v: nat)
    requires TreeOk(mem, s) && v < n
    ensures ImagesOf(mem, s, n)[v] == ImageAt(mem, s, v)
  {
    hide TreeOk, Entry, ImageAt;
    if v < n - 1 { ImagesAt(mem, s, n - 1, v); }
  }

  lemma SameImages(m0: Memory, a0: set<nat>, s: Tree, n: nat, mem: Memory, v: nat)
    requires HasTree(m0, a0, s) && Owned(m0, a0, s, 0, n) && TreeOk(mem, s) && SameEntries(m0, s, mem, s)
    requires Kept(m0, mem, PagesOf(m0, s, 0, n)) && v < n
    ensures ImageAt(mem, s, v) == ImageAt(m0, s, v)
  {
    hide TreeOk, Entry, Ppn;
    assert OwnsAt(m0, a0, s, v);
    assert Ppn(Entry(m0, s, v)) in PagesOf(m0, s, 0, n);
  }

  /** The memory part of fork: a child with a copy of the parent's memory in pages of its own, or
      nothing at all. The parent's space is untouched. */
  method ForkSpace(m: Machine, parentRoot: nat, sz: nat, trampoline: nat, ghost s: Tree)
    returns (r: Option<(nat, nat)>, ghost t: Tree)
    requires ProcSpace(m.mem, m.avail, s, PagesFor(sz)) && s[ROOT] == parentRoot
    modifies m
    ensures ProcSpace(m.mem, m.avail, s, PagesFor(sz)) && SameEntries(old(m.mem), s, m.mem, s)
    ensures m.mem.Keys == old(m.mem.Keys) && Kept(old(m.mem), m.mem, old(m.mem.Keys) - old(m.avail))
    ensures r.Some? ==> Alive(old(m.mem), old(m.avail), m.mem, m.avail, t, PagesFor(sz), r.value.0)
    ensures r.Some? ==> ROOT in t && t[ROOT] == r.value.1 && CopyOf(old(m.mem), s, PagesFor(sz), m.mem, t)
    ensures r.None? ==> m.avail == old(m.avail) && Free(old(m.avail)) < 3 * PagesFor(sz) + 6
  {
    hide TreeOk, Entry, PagesFor, PagesOf, Grew, Owned, Shows, Resized;
    ghost var m0, a0 := m.mem, m.avail;
    ghost var n := PagesFor(sz);
    r, t := AllocSpace(m, trampoline);
    if r.None? {
      FootprintTaken(m0, a0, s, n);
      KeptSpace(m0, a0, s, n, m.mem, m.avail);
      return;
    }
    var ok;
    ok, t := CopySpace(m, parentRoot, sz, r.value.0, r.value.1, m0, a0, s, t);
    if !ok {
      NoPages();
      FreeSpace(m, r.value.0, r.value.1, 0, m0, a0, t);
      FootprintTaken(m0, a0, s, n);
      KeptSpace(m0, a0, s, n, m.mem, m.avail);
      return None, t;
    }
    OthersKept(m0, a0, s, n, m.mem, m.avail, t, n, r.value.0);
  }

  /** fork's call of uvmcopy. */
  method CopySpace(m: Machine, parentRoot: nat, sz: nat, trapframe: nat, root: nat,
                   ghost m0: Memory, ghost a0: set<nat>, ghost s: Tree, ghost t: Tree)
    returns (ok: bool, ghost t': Tree)
    requires ProcSpace(m0, a0, s, PagesFor(sz)) && s[ROOT] == parentRoot
    requires Alive(m0, a0, m.mem, m.avail, t, 0, trapframe) && t[ROOT] == root
    modifies m
    ensures Alive(m0, a0, m.mem, m.avail, t', if ok then PagesFor(sz) else 0, trapframe)
    ensures ROOT in t' && t'[ROOT] == root
    ensures ok ==> CopyOf(m0, s, PagesFor(sz), m.mem, t')
    ensures !ok ==> Free(old(m.avail)) < 3 * PagesFor(sz)
  {
    hide TreeOk, Entry, PagesFor, PagesOf, Grew, Owned, Shows, Resized, Cost;
    ghost var m1, a1, n := m.mem, m.avail, PagesFor(sz);
    CostUp(t.Keys, 0, 0, n);
    CostNone(t.Keys, 0);
    OthersKept(m0, a0, s, n, m1, a1, t, 0, trapframe);
    var out;
    out, t' := UvmCopy(m, parentRoot, root, sz, n, s, t);
    ok := out == Done;
    ghost var images := if ok then ImagesOf(m1, s, n) else [];
    GrewResized(m1, a1, t, 0, m.mem, m.avail, t', images);
    AliveResized(m0, a0, m1, a1, t, 0, trapframe, m.mem, m.avail, t', |images|);
    SameRoot(m1, a1, t, 0, m.mem, m.avail, t', |images|);
    if ok { Copied(m0, a0, s, n, m1, a1, t, m.mem, m.avail, t'); }
  }

  lemma Copied(m0: Memory, a0: set<nat>, s: Tree, n: nat, m1: Memory, a1: set<nat>, t: Tree,
               mem: Memory, avail: set<nat>, t': Tree)
    requires ProcSpace(m0, a0, s, n) && TreeOk(m1, s) && SameEntries(m0, s, m1, s)
    requires Kept(m0, m1, Footprint(m0, s, n))
    requires HasTree(m1, a1, t) && Grew(m1, a1, t, mem, avail, t', 0, ImagesOf(m1, s, n))
    ensures TreeOk(mem, t') && CopyOf(m0, s, n, mem, t')
  {
    hide TreeOk, Entry, PagesOf, Owned, Shows, ImageAt;
    forall v: nat | v < n ensures Shows(mem, t', v, ImageAt(m0, s, v)) {
      ImagesAt(m1, s, n, v);
      SameImages(m0, a0, s, n, m1, v);
      assert Shows(mem, t', 0 + v, ImagesOf(m1, s, n)[v]);
    }
  }

  /** A fork and the child's exit, whether or not memory ran out on the way, leave the pool and
      the parent's memory as they were. */
  method ForkThenExit(m: Machine, parentRoot: nat, sz: nat, trampoline: nat, ghost s: Tree)
    requires ProcSpace(m.mem, m.avail, s, PagesFor(sz)) && s[ROOT] == parentRoot
    modifies m
    ensures m.avail == old(m.avail) && Kept(old(m.mem), m.mem, old(m.mem.Keys) - old(m.avail))
    ensures ProcSpace(m.mem, m.avail, s, PagesFor(sz)) && SameEntries(old(m.mem), s, m.mem, s)
  {
    hide TreeOk, Entry, PagesFor, PagesOf;
    ghost var m0, a0, n := m.mem, m.avail, PagesFor(sz);
    var r;
    ghost var t;
    r, t := ForkSpace(m, parentRoot, sz, trampoline, s);
    if r.Some? {
      FreeSpace(m, r.value.0, r.value.1, sz, m0, a0, t);
      FootprintTaken(m0, a0, s, n);
      KeptSpace(m0, a0, s, n, m.mem, m.avail);
    }
  }
}
