/** The life of a process's address space (kernel/memory/vm.c and kernel/process/proc.c). */
module ProcSpaces {
  import opened Options
  import opened PageTables
  import opened PagePool
  import opened SpaceGrowth
  import opened AddressSpaces
  import opened UserMemory
  import opened FreeTables

  const TRAMPOLINE: nat := MAXVPN - 1
  const TRAPFRAME: nat := MAXVPN - 2

  lemma EmptyTree(mem: Memory, avail: set<nat>, p: nat)
    requires PoolOk(mem, avail) && p !in avail && ZeroPage(mem, p)
    ensures HasTree(mem, avail, map[ROOT := p]) && Unmapped(mem, map[ROOT := p], 0, MAXVPN)
  {
    var t := map[ROOT := p];
    assert PlaceOk(mem, t, ROOT);
    assert t.Values == {p};
  }

  /** uvmcreate: a table that maps nothing. */
  method UvmCreate(m: Machine) returns (r: Option<nat>, ghost t: Tree)
    requires PoolOk(m.mem, m.avail)
    modifies m
    ensures PoolOk(m.mem, m.avail) && m.mem.Keys == old(m.mem.Keys)
    ensures Kept(old(m.mem), m.mem, old(m.mem.Keys) - old(m.avail))
    ensures r.None? <==> old(m.avail) == {}
    ensures r.None? ==> m.avail == old(m.avail)
    ensures r.Some? ==> t == map[ROOT := r.value] && HasTree(m.mem, m.avail, t) && Unmapped(m.mem, t, 0, MAXVPN)
    ensures r.Some? ==> r.value in old(m.avail) && m.avail == old(m.avail) - {r.value}
    ensures Free(old(m.avail)) == Free(m.avail) + if r.Some? then 1 else 0
  {
    t := map[];
    r := m.Kalloc();
    if r.Some? {
      m.Clear(r.value);
      t := map[ROOT := r.value];
      EmptyTree(m.mem, m.avail, r.value);
    }
  }

  /** A tree that maps nothing is bare all the way down. */
  lemma AllBare(mem: Memory, avail: set<nat>, t: Tree)
    requires HasTree(mem, avail, t) && Unmapped(mem, t, 0, MAXVPN)
    ensures Apart(t) && ROOT in t && BareUnder(mem, avail, t, ROOT) && SubPages(t, ROOT) == t.Values
  {
    forall m | m in t ensures BareOk(mem, avail, t, m) && Under(m, ROOT) {
      assert PlaceOk(mem, t, m) && t[m] in t.Values;
      UnderRoot(m);
      forall i: nat | i < ENTRIES ensures EntryOk(mem, t, m, i) && (m.level == 0 ==> mem[t[m]][i] == 0) {
        if m.level == 0 { LeafEntry(mem, t, m, i); }
      }
    }
    hide Under, BareOk, TreeOk;
    forall p | p in t.Values ensures p in SubPages(t, ROOT) {
      var n :| n in t && t[n] == p;
    }
  }

  lemma UnderRoot(m: Node)
    requires InTree(m)
    ensures Under(m, ROOT)
  {
    assert m.level < 2 ==> KeyAt(m, 2) == KeyAt(Up(m), 2);
  }

  lemma LeafEntry(mem: Memory, t: Tree, m: Node, i: nat)
    requires TreeOk(mem, t) && m in t && m.level == 0 && i < ENTRIES && Unmapped(mem, t, 0, MAXVPN)
    requires PlaceOk(mem, t, m)
    ensures mem[t[m]][i] == 0
  {
    var v := m.key * ENTRIES + i;
    assert On(0, v) == m && Px(0, v) == i;
    assert Entry(mem, t, v) == 0;
  }

  /** uvmfree: user pages, then tables, all back to the pool. */
  method UvmFree(m: Machine, root: nat, sz: nat, ghost t: Tree)
    requires HasTree(m.mem, m.avail, t) && t[ROOT] == root && PagesFor(sz) <= MAXVPN
    requires Owned(m.mem, m.avail, t, 0, PagesFor(sz)) && Unmapped(m.mem, t, PagesFor(sz), MAXVPN)
    modifies m
    ensures PoolOk(m.mem, m.avail) && m.mem.Keys == old(m.mem.Keys)
    ensures m.avail == old(m.avail) + t.Values + PagesOf(old(m.mem), t, 0, PagesFor(sz))
    ensures Kept(old(m.mem), m.mem, old(m.mem.Keys) - m.avail)
  {
    hide TreeOk, Entry, PagesFor, Ppn, OwnsAt, OwnedFar, Present;
    ghost var n := PagesFor(sz);
    OwnedPresent(m.mem, m.avail, t, 0, n);
    if sz > 0 {
      var _, _ := m.UvmUnmap(root, 0, PagesFor(sz), true, t);
    } else {
      NoPages();
      assert PagesOf(m.mem, t, 0, 0) == {};
    }
    AllBare(m.mem, m.avail, t);
    ghost var m1, a1 := m.mem, m.avail;
    FreeWalk(m, root, ROOT, t);
  }

  lemma NoPages()
    ensures PagesFor(0) == 0
  {}

  // ---- with the trampoline and the trapframe ----

  /** Pages at the top that only the kernel may use. */
  ghost predicate NotForUser(mem: Memory, t: Tree)
    requires TreeOk(mem, t)
  {
    forall v: nat :: TRAPFRAME <= v < MAXVPN ==> !IsUser(Entry(mem, t, v))
  }

  /** A process's space: n pages of its own from 0 on, the two kernel pages at the top, nothing else. */
  ghost predicate ProcSpace(mem: Memory, avail: set<nat>, t: Tree, n: nat) {
    && HasTree(mem, avail, t) && n <= TRAPFRAME
    && Owned(mem, avail, t, 0, n) && Unmapped(mem, t, n, TRAPFRAME) && Mapped(mem, t, TRAPFRAME, MAXVPN)
    && NotForUser(mem, t)
  }

  ghost function Footprint(mem: Memory, t: Tree, n: nat): set<nat>
    requires TreeOk(mem, t)
  {
    t.Values + PagesOf(mem, t, 0, n)
  }

  /** proc_freepagetable */
  method ProcFreePagetable(m: Machine, root: nat, sz: nat, ghost t: Tree)
    requires ProcSpace(m.mem, m.avail, t, PagesFor(sz)) && t[ROOT] == root
    modifies m
    ensures PoolOk(m.mem, m.avail) && m.mem.Keys == old(m.mem.Keys)
    ensures m.avail == old(m.avail) + Footprint(old(m.mem), t, PagesFor(sz))
    ensures Kept(old(m.mem), m.mem, old(m.mem.Keys) - m.avail)
  {
    hide TreeOk, Entry, PagesFor, PagesOf, PageOf, Ppn, IsLeaf, Present;
    ghost var m0, a0, n := m.mem, m.avail, PagesFor(sz);
    PageBounds(TRAMPOLINE);
    PageBounds(TRAPFRAME);
    MappedPresent(m.mem, t, TRAMPOLINE, MAXVPN);
    var _, _ := m.UvmUnmap(root, TRAMPOLINE * PGSIZE, 1, false, t);
    MappedPresent(m.mem, t, TRAPFRAME, TRAMPOLINE);
    var _, _ := m.UvmUnmap(root, TRAPFRAME * PGSIZE, 1, false, t);
    OwnedSame(m0, m.mem, a0, t, 0, n);
    UvmFree(m, root, sz, t);
    OwnedPages(m0, a0, t, 0, n);
  }

  lemma OwnedSame(mem: Memory, mem': Memory, avail: set<nat>, t: Tree, lo: nat, hi: nat)
    requires TreeOk(mem, t) && TreeOk(mem', t) && mem'.Keys == mem.Keys
    requires forall v: nat :: lo <= v < hi ==> Entry(mem', t, v) == Entry(mem, t, v)
    requires Owned(mem, avail, t, lo, hi)
    ensures Owned(mem', avail, t, lo, hi) && PagesOf(mem', t, lo, hi) == PagesOf(mem, t, lo, hi)
  {
    hide TreeOk, Entry, Ppn, IsLeaf;
    PagesSame(mem, t, mem', t, lo, hi);
    forall v: nat | lo <= v < hi ensures OwnsAt(mem', avail, t, v) {
      assert OwnsAt(mem, avail, t, v);
    }
  }

  /** A tree in the making, whose tables are all that left the pool. */
  ghost predicate Building(m0: Memory, a0: set<nat>, mem: Memory, avail: set<nat>, t: Tree, root: nat) {
    && HasTree(mem, avail, t) && ROOT in t && t[ROOT] == root
    && mem.Keys == m0.Keys && a0 <= m0.Keys && avail + t.Values == a0 && Kept(m0, mem, m0.Keys - a0)
  }

  /** One kernel page mapped near the top: one of the two calls of mappages in proc_pagetable. */
  method MapTop(m: Machine, root: nat, v: nat, p: nat, perm: nat, ghost m0: Memory, ghost a0: set<nat>, ghost t: Tree)
    returns (ok: bool, ghost t': Tree)
    requires Building(m0, a0, m.mem, m.avail, t, root) && v < MAXVPN && PermOk(perm) && Entry(m.mem, t, v) == 0
    modifies m
    ensures Building(m0, a0, m.mem, m.avail, t', root)
    ensures RunMapped(old(m.mem), t, m.mem, t', v, if ok then 1 else 0, p, perm)
    ensures Free(old(m.avail)) <= Free(m.avail) + 2 && (!ok ==> Free(old(m.avail)) < 2)
  {
    hide TreeOk, PoolOk, Entry, PageOf, Takes, RunMapped, Building, Extends, PermOk, Vacant;
    BuildingTree(m0, a0, m.mem, m.avail, t, root);
    ghost var m1, a1 := m.mem, m.avail;
    PageBounds(v);
    PageBounds(p);
    ghost var count;
    var out;
    out, t', count := m.MapPages(root, v * PGSIZE, PGSIZE, p * PGSIZE, perm, t);
    BuildingOn(m0, a0, m1, a1, t, m.mem, m.avail, t', root);
    TwoTaken(out, a1, m.avail, t, t', v);
    ok := out == Done;
  }

  lemma TwoTaken(out: Outcome, avail: set<nat>, avail': set<nat>, t: Tree, t': Tree, v: nat)
    requires Takes(out, avail, avail', t, t', v) && v < MAXVPN
    ensures Free(avail) <= Free(avail') + 2 && (out == NoMemory ==> Free(avail) < 2)
  {}

  lemma NoneFreeLeft()
    ensures Free({}) == 0
  {}

  lemma BuildingTree(m0: Memory, a0: set<nat>, mem: Memory, avail: set<nat>, t: Tree, root: nat)
    requires Building(m0, a0, mem, avail, t, root)
    ensures HasTree(mem, avail, t) && t[ROOT] == root
  {}

  lemma BuildingOn(m0: Memory, a0: set<nat>, mem: Memory, avail: set<nat>, t: Tree,
                   mem': Memory, avail': set<nat>, t': Tree, root: nat)
    requires Building(m0, a0, mem, avail, t, root) && Extends(mem, avail, t, mem', avail', t')
    ensures Building(m0, a0, mem', avail', t', root)
  {
    ExtendsTree(mem, avail, t, mem', avail', t');
    hide TreeOk, Entry;
  }

  /** uvmfree(pagetable, 0) where proc_pagetable gives up. */
  method Abandon(m: Machine, root: nat, ghost m0: Memory, ghost a0: set<nat>, ghost t: Tree)
    requires Building(m0, a0, m.mem, m.avail, t, root) && Unmapped(m.mem, t, 0, MAXVPN)
    modifies m
    ensures PoolOk(m.mem, m.avail) && m.mem.Keys == m0.Keys && m.avail == a0 && Kept(m0, m.mem, m0.Keys - a0)
  {
    hide TreeOk, Entry, PagesFor;
    NoPages();
    assert PagesOf(m.mem, t, 0, 0) == {};
    UvmFree(m, root, 0, t);
  }

  /** proc_pagetable: the two kernel pages and no user memory. */
  method ProcPagetable(m: Machine, trampoline: nat, trapframe: nat) returns (r: Option<nat>, ghost t: Tree)
    requires PoolOk(m.mem, m.avail)
    modifies m
    ensures PoolOk(m.mem, m.avail) && m.mem.Keys == old(m.mem.Keys)
    ensures Kept(old(m.mem), m.mem, old(m.mem.Keys) - old(m.avail))
    ensures r.None? ==> m.avail == old(m.avail)
    ensures if r.None? then Free(old(m.avail)) < 5 else Free(old(m.avail)) <= Free(m.avail) + 5
    ensures r.Some? ==> ProcSpace(m.mem, m.avail, t, 0) && t[ROOT] == r.value
    ensures r.Some? ==> m.avail + t.Values == old(m.avail)
    ensures r.Some? ==> Entry(m.mem, t, TRAMPOLINE) == LeafOf(trampoline, 10)
    ensures r.Some? ==> Entry(m.mem, t, TRAPFRAME) == LeafOf(trapframe, 6)
  {
    hide TreeOk, Entry, LeafOf, PermOk, Free;
    ghost var m0, a0 := m.mem, m.avail;
    NoneFreeLeft();
    r, t := UvmCreate(m);
    if r.None? {
      return;
    }
    var root := r.value;
    assert Building(m0, a0, m.mem, m.avail, t, root) by {
      assert t[ROOT] == root && root in t.Values;
      assert t.Values == {root};
    }
    TopPerms();
    var ok;
    ghost var m1, t1 := m.mem, t;
    ok, t := MapTop(m, root, TRAMPOLINE, trampoline, 10, m0, a0, t);
    if !ok {
      Abandon(m, root, m0, a0, t);
      return None, t;
    }
    ghost var m2, t2 := m.mem, t;
    ok, t := MapTop(m, root, TRAPFRAME, trapframe, 6, m0, a0, t);
    if !ok {
      UnmapTop(m, root, m0, a0, t, trampoline);
      Abandon(m, root, m0, a0, t);
      return None, t;
    }
    TopMapped(m1, t1, m2, t2, m.mem, m.avail, t, trampoline, trapframe);
  }

  lemma TopPerms()
    ensures PermOk(10) && PermOk(6)
  {}

  /** uvmunmap(pagetable, TRAMPOLINE, 1, 0) where proc_pagetable gives up. */
  method UnmapTop(m: Machine, root: nat, ghost m0: Memory, ghost a0: set<nat>, ghost t: Tree, ghost trampoline: nat)
    requires Building(m0, a0, m.mem, m.avail, t, root)
    requires Unmapped(m.mem, t, 0, TRAMPOLINE) && Entry(m.mem, t, TRAMPOLINE) == LeafOf(trampoline, 10)
    modifies m
    ensures Building(m0, a0, m.mem, m.avail, t, root) && Unmapped(m.mem, t, 0, MAXVPN)
  {
    hide TreeOk, Entry, PageOf, PagesOf;
    LeafParts(trampoline, 10);
    PageBounds(TRAMPOLINE);
    MappedPresent(m.mem, t, TRAMPOLINE, MAXVPN);
    var _, _ := m.UvmUnmap(root, TRAMPOLINE * PGSIZE, 1, false, t);
  }

  lemma TopMapped(m1: Memory, t1: Tree, m2: Memory, t2: Tree, mem: Memory, avail: set<nat>, t: Tree,
                  trampoline: nat, trapframe: nat)
    requires TreeOk(m1, t1) && TreeOk(m2, t2) && HasTree(mem, avail, t) && Unmapped(m1, t1, 0, MAXVPN)
    requires RunMapped(m1, t1, m2, t2, TRAMPOLINE, 1, trampoline, 10)
    requires RunMapped(m2, t2, mem, t, TRAPFRAME, 1, trapframe, 6)
    ensures ProcSpace(mem, avail, t, 0)
    ensures Entry(mem, t, TRAMPOLINE) == LeafOf(trampoline, 10) && Entry(mem, t, TRAPFRAME) == LeafOf(trapframe, 6)
  {
    hide TreeOk, Entry, IsLeaf, LeafOf;
    LeafParts(trampoline, 10);
    LeafParts(trapframe, 6);
    assert Entry(mem, t, TRAPFRAME) == LeafOf(trapframe + TRAPFRAME - TRAPFRAME, 6);
    assert Entry(mem, t, TRAMPOLINE) == LeafOf(trampoline + TRAMPOLINE - TRAMPOLINE, 10);
    LeafUser(trampoline, 10);
    LeafUser(trapframe, 6);
  }

  /** PTE_U is one of the permissions that mappages is given. */
  lemma LeafUser(p: nat, perm: nat)
    requires PermOk(perm)
    ensures IsUser(LeafOf(p, perm)) <==> perm / 16 % 2 == 1
  {
    var x := if perm % 2 == 1 then perm else perm + 1;
    assert (p * 1024 + x) / 16 == 2 * (32 * p) + x / 16;
    ModTwo(32 * p, x / 16);
  }

  lemma ModTwo(k: nat, r: nat)
    ensures (2 * k + r) % 2 == r % 2
  {}

  // ---- growing and shrinking ----

  /** Pages and contents of a space that lie below n. */
  ghost predicate SameBelow(mem: Memory, t: Tree, mem': Memory, t': Tree, n: nat)
    requires TreeOk(mem, t) && TreeOk(mem', t')
  {
    && (forall v: nat :: v < n ==> Entry(mem', t', v) == Entry(mem, t, v))
    && Kept(mem, mem', PagesOf(mem, t, 0, n))
  }

  /** From one size to another: the pages that moved went between the pool and the space, everyone
      else's pages and the space's own below both sizes are as they were. */
  ghost predicate Resized(mem: Memory, avail: set<nat>, t: Tree, n: nat,
                          mem': Memory, avail': set<nat>, t': Tree, n': nat)
    requires ProcSpace(mem, avail, t, n)
  {
    && ProcSpace(mem', avail', t', n') && t'[ROOT] == t[ROOT]
    && mem'.Keys == mem.Keys
    && avail' + Footprint(mem', t', n') == avail + Footprint(mem, t, n)
    && Kept(mem, mem', mem.Keys - avail - Footprint(mem, t, n))
    && SameBelow(mem, t, mem', t', if n < n' then n else n')
    && Entry(mem', t', TRAPFRAME) == Entry(mem, t, TRAPFRAME) && Entry(mem', t', TRAMPOLINE) == Entry(mem, t, TRAMPOLINE)
  }

  lemma GrewResized(mem: Memory, avail: set<nat>, t: Tree, n: nat,
                    mem': Memory, avail': set<nat>, t': Tree, images: seq<Image>)
    requires ProcSpace(mem, avail, t, n) && n + |images| <= TRAPFRAME
    requires Grew(mem, avail, t, mem', avail', t', n, images)
    ensures Resized(mem, avail, t, n, mem', avail', t', n + |images|)
  {
    hide TreeOk, Entry, Ppn, PagesOf, OwnsAt, IsLeaf;
    GrewTree(mem, avail, t, mem', avail', t', n, images);
    StillOwned(mem, avail, t, mem', avail', t', n, images, 0, n);
    JoinOwned(mem', avail', t', 0, n, n + |images|);
    PagesSplit(mem', t', 0, n, n + |images|);
    OwnedPages(mem, avail, t, 0, n);
  }

  lemma FreedResized(mem: Memory, avail: set<nat>, t: Tree, n: nat, mem': Memory, avail': set<nat>, n': nat)
    requires ProcSpace(mem, avail, t, n) && n' <= n && RunFreed(mem, avail, t, mem', avail', n', n, true)
    ensures Resized(mem, avail, t, n, mem', avail', t, n')
  {
    assert ROOT in t;
    hide TreeOk, Entry, Ppn, IsLeaf;
    PagesSplit(mem, t, 0, n', n);
    PagesSame(mem, t, mem', t, 0, n');
    RestOwned(mem, avail, t, n', n);
    hide PagesOf;
    OwnedPages(mem, avail, t, 0, n);
    forall v: nat | v < n' ensures OwnsAt(mem', avail', t, v) {
      RestOwnsAt(mem, avail, t, n', n, v);
    }
  }

  lemma RestOwned(mem: Memory, avail: set<nat>, t: Tree, mid: nat, hi: nat)
    requires TreeOk(mem, t) && Owned(mem, avail, t, 0, hi) && mid <= hi
    ensures PagesOf(mem, t, 0, mid) !! PagesOf(mem, t, mid, hi)
  {
    hide TreeOk, Entry, Ppn, IsLeaf, OwnsAt;
  }

  lemma RestOwnsAt(mem: Memory, avail: set<nat>, t: Tree, mid: nat, hi: nat, v: nat)
    requires TreeOk(mem, t) && Owned(mem, avail, t, 0, hi) && v < mid <= hi
    ensures OwnsAt(mem, avail + PagesOf(mem, t, mid, hi), t, v)
  {
    hide TreeOk, Entry, Ppn, IsLeaf;
    assert OwnsAt(mem, avail, t, v);
  }

  const TWO64: int := 0x1_0000_0000_0000_0000

  /** sz + n in 64 bits. */
  function Wrapped(sz: nat, n: int): nat
    requires sz < TWO64 && -TWO64 <= n
  {
    if sz + n < 0 then sz + n + TWO64 else sz + n
  }

  /** growproc: the new size, or none and the old space. Shrinking below 0 leaves the size alone;
      growing into the trapframe page cannot succeed, and with enough memory is a panic. */
  method GrowProc(m: Machine, root: nat, sz: nat, n: int, ghost t: Tree)
    returns (out: Outcome, newsz: nat, ghost t': Tree)
    requires ProcSpace(m.mem, m.avail, t, PagesFor(sz)) && t[ROOT] == root
    requires -0x8000_0000 <= n < 0x8000_0000
    modifies m
    ensures out == Done ==> newsz == if sz + n < 0 then sz else sz + n
    ensures out == Done && n > 0 ==> PagesFor(sz + n) <= TRAPFRAME
    ensures out == Done && n > 0 ==> TreeOk(m.mem, t') && AllZero(m.mem, t', PagesFor(sz), PagesFor(newsz))
    ensures out == NoMemory ==> n > 0 && Free(old(m.avail)) < 3 * (PagesFor(sz + n) - PagesFor(sz))
    ensures out == NoMemory ==> n > 0 && Free(old(m.avail)) < Cost(t.Keys, PagesFor(sz), PagesFor(sz + n))
    ensures out == Done && n > 0 ==> Free(old(m.avail)) == Free(m.avail) + Cost(t.Keys, PagesFor(sz), PagesFor(sz + n))
    ensures out == NoMemory ==> newsz == sz && n > 0 && TreeOk(m.mem, t') && SameEntries(old(m.mem), t, m.mem, t')
    ensures out == Panic ==> n > 0 && PagesFor(sz + n) > TRAPFRAME
    ensures out != Panic ==> Resized(old(m.mem), old(m.avail), t, PagesFor(sz), m.mem, m.avail, t', PagesFor(newsz))
  {
    hide HasTree, Entry, PagesFor, Unmapped, Mapped, Owned, Grew, Resized, AllZero, SameEntries, Cost, Free;
    SizeBound(sz);
    ghost var m0, a0, lo := m.mem, m.avail, PagesFor(sz);
    if n > 0 {
      out, newsz, t' := Grow(m, root, sz, sz + n, t);
      return;
    }
    GrewNothing(m0, a0, t, lo);
    GrewResized(m0, a0, t, lo, m0, a0, t, []);
    if n < 0 {
      newsz := Shrink(m, root, sz, Wrapped(sz, n), t);
      return Done, newsz, t;
    }
    return Done, sz, t;
  }

  lemma SizeBound(sz: nat)
    requires PagesFor(sz) <= TRAPFRAME
    ensures sz < TWO64
  {}

  /** What a process's space leaves free, for every run of pages above its own. */
  lemma SpaceVacant(mem: Memory, avail: set<nat>, t: Tree, n: nat, hi: nat)
    requires ProcSpace(mem, avail, t, n) && n <= hi
    ensures Vacant(mem, t, n, hi) <==> hi <= TRAPFRAME
  {
    hide TreeOk, Entry;
    if hi > TRAPFRAME { assert IsLeaf(Entry(mem, t, TRAPFRAME)); }
  }

  /** Which runs of pages a process's space has, and so which uvmdealloc may be asked to free. */
  lemma SpacePresent(mem: Memory, avail: set<nat>, t: Tree, n: nat, lo: nat, hi: nat)
    requires ProcSpace(mem, avail, t, n) && lo < hi
    ensures Present(mem, t, lo, hi) <==> hi <= n || (hi <= MAXVPN && (n == TRAPFRAME || lo >= TRAPFRAME))
  {
    hide TreeOk, Entry;
    if hi > MAXVPN {
      assert Entry(mem, t, hi - 1) != 0 || !Present(mem, t, lo, hi);
    } else if hi > n && n < TRAPFRAME && lo < TRAPFRAME {
      var v := if n < lo then lo else n;
      assert Entry(mem, t, v) == 0;
    }
  }

  /** uvmdealloc fails for every process that could grow: an old size that reaches into the page
      behind the process makes it panic. */
  lemma DeallocPanics(mem: Memory, avail: set<nat>, t: Tree, sz: nat)
    requires ProcSpace(mem, avail, t, PagesFor(sz)) && PagesFor(sz) < TRAPFRAME
    ensures var oldsz := PagesFor(sz) * PGSIZE + 1;
      oldsz > sz && !Present(mem, t, PagesFor(sz), PagesFor(oldsz))
  {
    SpacePresent(mem, avail, t, PagesFor(sz), PagesFor(sz), PagesFor(sz) + 1);
  }

  /** These pages are new ones: zeroed, for the user to read and write. */
  ghost predicate AllZero(mem: Memory, t: Tree, lo: nat, hi: nat)
    requires TreeOk(mem, t)
  {
    forall v: nat :: lo <= v < hi ==> Shows(mem, t, v, ZeroImage(4))
  }

  lemma GrewZero(mem: Memory, avail: set<nat>, t: Tree, mem': Memory, avail': set<nat>, t': Tree, lo: nat, count: nat)
    requires HasTree(mem, avail, t) && Grew(mem, avail, t, mem', avail', t', lo, Copies(ZeroImage(4), count))
    ensures TreeOk(mem', t') && AllZero(mem', t', lo, lo + count)
  {
    hide Entry, TreeOk, Shows, ZeroImage;
    var images := Copies(ZeroImage(4), count);
    forall v: nat | lo <= v < lo + count ensures Shows(mem', t', v, ZeroImage(4)) {
      var k: nat := v - lo;
      assert Shows(mem', t', lo + k, images[k]);
    }
  }

  /** growproc's call of uvmalloc. */
  method Grow(m: Machine, root: nat, sz: nat, newsz: nat, ghost t: Tree)
    returns (out: Outcome, r: nat, ghost t': Tree)
    requires ProcSpace(m.mem, m.avail, t, PagesFor(sz)) && t[ROOT] == root && sz < newsz
    modifies m
    ensures r == if out == Done then newsz else sz
    ensures out == Done ==> PagesFor(newsz) <= TRAPFRAME
    ensures out == Panic ==> PagesFor(newsz) > TRAPFRAME
    ensures out == Done ==> TreeOk(m.mem, t') && AllZero(m.mem, t', PagesFor(sz), PagesFor(newsz))
    ensures out == NoMemory ==> TreeOk(m.mem, t') && SameEntries(old(m.mem), t, m.mem, t')
    ensures out == NoMemory ==> Free(old(m.avail)) < 3 * (PagesFor(newsz) - PagesFor(sz))
    ensures out == NoMemory ==> Free(old(m.avail)) < Cost(t.Keys, PagesFor(sz), PagesFor(newsz))
    ensures out == Done ==> Free(old(m.avail)) == Free(m.avail) + Cost(t.Keys, PagesFor(sz), PagesFor(newsz))
    ensures out != Panic ==> Resized(old(m.mem), old(m.avail), t, PagesFor(sz), m.mem, m.avail, t', PagesFor(r))
  {
    hide TreeOk, Entry, Ppn, PagesOf, OwnsAt, IsLeaf, PagesFor, Grew, Copies, Resized, Vacant, AllZero, Cost, Free;
    ghost var m0, a0, lo := m.mem, m.avail, PagesFor(sz);
    PagesUp(sz, newsz);
    CostUp(t.Keys, lo, lo, PagesFor(newsz));
    CostNone(t.Keys, lo);
    SpaceVacant(m0, a0, t, lo, PagesFor(newsz));
    var size;
    out, size, t' := UvmAlloc(m, root, sz, newsz, 4, t);
    if size == 0 {
      r := sz;
      if out == NoMemory {
        GrewResized(m0, a0, t, lo, m.mem, m.avail, t', []);
        GrewAll(m0, a0, t, m.mem, m.avail, t', lo);
      }
      return;
    }
    GrewResized(m0, a0, t, lo, m.mem, m.avail, t', Copies(ZeroImage(4), PagesFor(newsz) - lo));
    GrewZero(m0, a0, t, m.mem, m.avail, t', lo, PagesFor(newsz) - lo);
    r := size;
  }

  lemma GrewAll(mem: Memory, avail: set<nat>, t: Tree, mem': Memory, avail': set<nat>, t': Tree, lo: nat)
    requires HasTree(mem, avail, t) && Grew(mem, avail, t, mem', avail', t', lo, [])
    ensures TreeOk(mem', t') && SameEntries(mem, t, mem', t')
  {
    hide Entry;
  }

  /** growproc's call of uvmdealloc. */
  method Shrink(m: Machine, root: nat, sz: nat, newsz: nat, ghost t: Tree) returns (r: nat)
    requires ProcSpace(m.mem, m.avail, t, PagesFor(sz)) && t[ROOT] == root
    requires Resized(m.mem, m.avail, t, PagesFor(sz), m.mem, m.avail, t, PagesFor(sz))
    modifies m
    ensures r == if newsz < sz then newsz else sz
    ensures Resized(old(m.mem), old(m.avail), t, PagesFor(sz), m.mem, m.avail, t, PagesFor(r))
  {
    hide TreeOk, Entry, Ppn, PagesOf, IsLeaf, PagesFor, Resized, OwnsAt, OwnedFar, Present;
    TopOwned(m.mem, m.avail, t, PagesFor(newsz), PagesFor(sz));
    OwnedPresent(m.mem, m.avail, t, PagesFor(newsz), PagesFor(sz));
    var panic;
    panic, r := UvmDealloc(m, root, sz, newsz, t);
    if newsz < sz {
      PagesUp(newsz, sz);
      FreedResized(old(m.mem), old(m.avail), t, PagesFor(sz), m.mem, m.avail, PagesFor(newsz));
    }
  }

  lemma TopOwned(mem: Memory, avail: set<nat>, t: Tree, lo: nat, hi: nat)
    requires TreeOk(mem, t) && Owned(mem, avail, t, 0, hi)
    ensures Owned(mem, avail, t, lo, hi)
  {
    hide TreeOk, Entry, OwnsAt;
  }
}
