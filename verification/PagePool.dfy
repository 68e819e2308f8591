/** Page tables over one pool of physical pages: what an operation on a table does to the pool
    and to everyone else's pages (kernel/memory/vm.c). */
module PagePool {
  import opened SetSizes
  import opened PageTables

  const PGSIZE: nat := 4096

  function PageOf(a: nat): nat {
    a / PGSIZE
  }

  // ---- what an operation may do to the pool ----

  /** The pages kept hold what they held. */
  ghost predicate Kept(mem: Memory, mem': Memory, keep: set<nat>) {
    forall p :: p in keep ==> p in mem && p in mem' && mem'[p] == mem[p]
  }

  ghost predicate PoolOk(mem: Memory, avail: set<nat>) {
    avail <= mem.Keys && forall p :: p in mem ==> IsPage(mem, p)
  }

  ghost predicate HasTree(mem: Memory, avail: set<nat>, t: Tree) {
    PoolOk(mem, avail) && TreeOk(mem, t) && t.Values !! avail
  }

  /** From a tree to one with more tables, each page of which came out of the pool. Allocated
      pages other than the tables are untouched. */
  ghost predicate Extends(mem: Memory, avail: set<nat>, t: Tree, mem': Memory, avail': set<nat>, t': Tree) {
    && HasTree(mem', avail', t')
    && mem'.Keys == mem.Keys
    && (forall n :: n in t ==> n in t' && t'[n] == t[n])
    && avail' <= avail && t'.Values == t.Values + (avail - avail')
    && Kept(mem, mem', mem.Keys - avail - t.Values)
  }

  ghost predicate Grown(mem: Memory, avail: set<nat>, t: Tree, mem': Memory, avail': set<nat>, t': Tree)
    requires TreeOk(mem, t)
  {
    Extends(mem, avail, t, mem', avail', t') && SameEntries(mem, t, mem', t')
  }

  lemma NewValue(t: Tree, n: Node, p: nat)
    requires n !in t
    ensures t[n := p].Values == t.Values + {p}
  {
    var t' := t[n := p];
    assert t'[n] == p && n in t';
    forall q | q in t.Values ensures q in t'.Values {
      var m :| m in t && t[m] == q;
      assert t'[m] == q;
    }
  }

  /** A page out of the pool becomes a table. */
  lemma TakeTable(mem: Memory, avail: set<nat>, t: Tree, zeroed: Memory, n: Node, p: nat)
    requires HasTree(mem, avail, t) && InTree(n) && n.level < 2 && n !in t && Up(n) in t && p in avail
    requires PoolOk(zeroed, avail - {p}) && zeroed.Keys == mem.Keys && ZeroPage(zeroed, p)
    requires Kept(mem, zeroed, mem.Keys - avail)
    ensures IsPage(zeroed, t[Up(n)])
    ensures Grown(mem, avail, t, Put(zeroed, t[Up(n)], Slot(n), Pointer(p)), avail - {p}, t[n := p])
  {
    assert PlaceOk(mem, t, Up(n)) && t[Up(n)] in t.Values;
    TreeKept(mem, avail, t, zeroed);
    AddTable(zeroed, t, n, p);
    NewValue(t, n, p);
  }

  lemma TreePages(mem: Memory, avail: set<nat>, t: Tree)
    requires HasTree(mem, avail, t)
    ensures t.Values <= mem.Keys - avail
  {
    forall p | p in t.Values ensures p in mem {
      var n :| n in t && t[n] == p;
      assert PlaceOk(mem, t, n);
    }
  }

  lemma TreeKept(mem: Memory, avail: set<nat>, t: Tree, mem': Memory)
    requires HasTree(mem, avail, t) && Kept(mem, mem', mem.Keys - avail)
    ensures TreeOk(mem', t) && SameEntries(mem, t, mem', t)
  {
    TreePages(mem, avail, t);
    OtherPages(mem, mem', t);
  }

  lemma ExtendsTrans(m0: Memory, a0: set<nat>, t0: Tree, m1: Memory, a1: set<nat>, t1: Tree,
                     m2: Memory, a2: set<nat>, t2: Tree)
    requires HasTree(m0, a0, t0) && Extends(m0, a0, t0, m1, a1, t1) && Extends(m1, a1, t1, m2, a2, t2)
    ensures Extends(m0, a0, t0, m2, a2, t2)
  {
    hide HasTree;
    assert m0.Keys - a0 - t0.Values == m1.Keys - a1 - t1.Values by { TreePages(m0, a0, t0); }
  }

  /** PA2PTE(p) | perm | PTE_V */
  function LeafOf(p: nat, perm: nat): nat
    requires perm < 1024
  {
    p * 1024 + (if perm % 2 == 1 then perm else perm + 1)
  }

  /** A permission that makes an entry a leaf. */
  predicate PermOk(perm: nat) {
    perm < 1024 && (perm / 2) % 8 != 0
  }

  lemma LeafParts(p: nat, perm: nat)
    requires PermOk(perm)
    ensures IsLeaf(LeafOf(p, perm)) && Ppn(LeafOf(p, perm)) == p
  {
    var x := if perm % 2 == 1 then perm else perm + 1;
    assert (p * 1024 + x) / 2 == 8 * (64 * p) + x / 2;
    ModEight(64 * p, x / 2);
  }

  /** Entries v, v+1, ... of a run of pages are the leaves of p, p+1, ..., and the rest is as before. */
  ghost predicate RunMapped(mem: Memory, t: Tree, mem': Memory, t': Tree, v: nat, count: nat, p: nat, perm: nat)
    requires TreeOk(mem, t) && TreeOk(mem', t') && perm < 1024
  {
    forall w: nat :: Entry(mem', t', w) == if v <= w < v + count then LeafOf(p + w - v, perm) else Entry(mem, t, w)
  }

  /** What walk points at is the entry of the flat map. */
  lemma ReadEntry(mem: Memory, avail: set<nat>, t: Tree, v: nat)
    requires HasTree(mem, avail, t) && On(0, v) in t
    ensures IsPage(mem, t[On(0, v)]) && mem[t[On(0, v)]][Px(0, v)] == Entry(mem, t, v)
  {
    assert PlaceOk(mem, t, On(0, v));
  }

  /** An entry above level 0 is valid exactly when the table it leads to is in the tree. */
  lemma StepDown(mem: Memory, avail: set<nat>, t: Tree, level: nat, v: nat)
    requires HasTree(mem, avail, t) && 0 < level <= 2 && v < MAXVPN && On(level, v) in t
    ensures var p, n := t[On(level, v)], On(level - 1, v);
      && InTree(n) && n.level < 2 && Up(n) == On(level, v) && Slot(n) == Px(level, v)
      && IsPage(mem, p) && (IsValid(mem[p][Px(level, v)]) <==> n in t)
      && (n in t ==> Ppn(mem[p][Px(level, v)]) == t[n])
  {
    var n, i := On(level, v), Px(level, v);
    OnPath(level - 1, v);
    DownUp(n, i, On(level - 1, v));
    assert PlaceOk(mem, t, n) && EntryOk(mem, t, n, i);
    if Down(n, i) in t { PointerParts(t[Down(n, i)]); }
  }

  lemma GrownTrans(m0: Memory, a0: set<nat>, t0: Tree, m1: Memory, a1: set<nat>, t1: Tree,
                   m2: Memory, a2: set<nat>, t2: Tree)
    requires HasTree(m0, a0, t0) && Grown(m0, a0, t0, m1, a1, t1)
    requires HasTree(m1, a1, t1) && Grown(m1, a1, t1, m2, a2, t2)
    ensures Grown(m0, a0, t0, m2, a2, t2)
  {
    ExtendsTrans(m0, a0, t0, m1, a1, t1, m2, a2, t2);
    hide TreeOk, Entry;
  }

  lemma GrownNone(mem: Memory, avail: set<nat>, t: Tree)
    requires HasTree(mem, avail, t)
    ensures Grown(mem, avail, t, mem, avail, t)
  {
    hide TreeOk, Entry;
  }

  lemma PoolChanged(mem: Memory, avail: set<nat>, t: Tree, mem': Memory)
    requires HasTree(mem, avail, t) && PoolOk(mem', avail) && mem'.Keys == mem.Keys
    requires Kept(mem, mem', mem.Keys - avail)
    ensures Grown(mem, avail, t, mem', avail, t)
  {
    TreeKept(mem, avail, t, mem');
    hide TreeOk, Entry;
  }

  lemma GrownTree(mem: Memory, avail: set<nat>, t: Tree, mem': Memory, avail': set<nat>, t': Tree)
    requires HasTree(mem, avail, t) && Grown(mem, avail, t, mem', avail', t')
    ensures HasTree(mem', avail', t') && ROOT in t && ROOT in t' && t'[ROOT] == t[ROOT]
    ensures forall n :: n in t ==> n in t'
  {}

  lemma RunMappedAt(m0: Memory, t0: Tree, m1: Memory, t1: Tree, v: nat, count: nat, p: nat, perm: nat, w: nat)
    requires TreeOk(m0, t0) && TreeOk(m1, t1) && perm < 1024 && RunMapped(m0, t0, m1, t1, v, count, p, perm)
    requires w >= v + count
    ensures Entry(m1, t1, w) == Entry(m0, t0, w)
  {}

  lemma RunMappedNone(mem: Memory, avail: set<nat>, t: Tree, v: nat, p: nat, perm: nat)
    requires HasTree(mem, avail, t) && perm < 1024
    ensures Extends(mem, avail, t, mem, avail, t) && RunMapped(mem, t, mem, t, v, 0, p, perm)
  {
    hide TreeOk, Entry;
  }

  lemma ExtendsTree(mem: Memory, avail: set<nat>, t: Tree, mem': Memory, avail': set<nat>, t': Tree)
    requires HasTree(mem, avail, t) && Extends(mem, avail, t, mem', avail', t')
    ensures HasTree(mem', avail', t') && ROOT in t && ROOT in t' && t'[ROOT] == t[ROOT]
  {}

  /** A run and the pages that follow it are one run. */
  lemma RunMappedNext(m0: Memory, t0: Tree, m1: Memory, t1: Tree, m2: Memory, t2: Tree,
                      v: nat, count: nat, p: nat, perm: nat, more: nat)
    requires TreeOk(m0, t0) && TreeOk(m1, t1) && TreeOk(m2, t2) && perm < 1024
    requires RunMapped(m0, t0, m1, t1, v, count, p, perm)
    requires RunMapped(m1, t1, m2, t2, v + count, more, p + count, perm)
    ensures RunMapped(m0, t0, m2, t2, v, count + more, p, perm)
  {
    hide TreeOk, Entry, LeafOf;
  }

  /** Writing a level-0 entry. */
  lemma WriteEntry(mem: Memory, avail: set<nat>, t: Tree, v: nat, e: nat)
    requires HasTree(mem, avail, t) && On(0, v) in t && (e == 0 || IsLeaf(e))
    ensures IsPage(mem, t[On(0, v)])
    ensures Extends(mem, avail, t, Put(mem, t[On(0, v)], Px(0, v), e), avail, t)
    ensures forall w: nat :: Entry(Put(mem, t[On(0, v)], Px(0, v), e), t, w) == if w == v then e else Entry(mem, t, w)
  {
    SetEntry(mem, t, v, e);
    TreePages(mem, avail, t);
    assert t[On(0, v)] in t.Values;
  }

  /** Without the table of a level there are none below it. */
  lemma OnlyBelow(mem: Memory, t: Tree, level: nat, v: nat)
    requires TreeOk(mem, t) && level < 2 && v < MAXVPN && On(level, v) !in t
    ensures On(0, v) !in t && Entry(mem, t, v) == 0
  {
    if level == 1 && On(0, v) in t {
      assert PlaceOk(mem, t, On(0, v));
      OnPath(0, v);
    }
  }

  // ---- pages that a table maps and owns ----

  /** The pages behind a run of entries. */
  ghost function PagesOf(mem: Memory, t: Tree, lo: nat, hi: nat): set<nat>
    requires TreeOk(mem, t)
  {
    set v: nat | lo <= v < hi :: Ppn(Entry(mem, t, v))
  }

  ghost predicate Mapped(mem: Memory, t: Tree, lo: nat, hi: nat)
    requires TreeOk(mem, t)
  {
    forall v: nat :: lo <= v < hi ==> IsLeaf(Entry(mem, t, v))
  }

  ghost predicate Unmapped(mem: Memory, t: Tree, lo: nat, hi: nat)
    requires TreeOk(mem, t)
  {
    forall v: nat :: lo <= v < hi ==> Entry(mem, t, v) == 0
  }

  ghost predicate OwnsAt(mem: Memory, avail: set<nat>, t: Tree, v: nat)
    requires TreeOk(mem, t)
  {
    var p := Ppn(Entry(mem, t, v));
    p in mem && p !in avail && p !in t.Values
  }

  /** A run of entries maps allocated pages, each once and none a table of the tree. */
  ghost predicate Owned(mem: Memory, avail: set<nat>, t: Tree, lo: nat, hi: nat)
    requires TreeOk(mem, t)
  {
    && Mapped(mem, t, lo, hi)
    && (forall v: nat :: lo <= v < hi ==> OwnsAt(mem, avail, t, v))
    && (forall v: nat, w: nat :: lo <= v < w < hi ==> Ppn(Entry(mem, t, v)) != Ppn(Entry(mem, t, w)))
  }

  /** Every page of a run is mapped. */
  ghost predicate Present(mem: Memory, t: Tree, lo: nat, hi: nat)
    requires TreeOk(mem, t)
  {
    forall v: nat :: lo <= v < hi ==> v < MAXVPN && Entry(mem, t, v) != 0
  }

  /** No page of a run is mapped, and all of them could be. */
  ghost predicate Vacant(mem: Memory, t: Tree, lo: nat, hi: nat)
    requires TreeOk(mem, t)
  {
    forall v: nat :: lo <= v < hi ==> v < MAXVPN && Entry(mem, t, v) == 0
  }

  /** As far as the pages from lo on are mapped, they are owned. */
  ghost predicate OwnedFar(mem: Memory, avail: set<nat>, t: Tree, lo: nat, hi: nat)
    requires TreeOk(mem, t)
  {
    forall k: nat {:trigger Present(mem, t, lo, k)} ::
      lo <= k <= hi && Present(mem, t, lo, k) ==> Owned(mem, avail, t, lo, k)
  }

  lemma LeafOrNone(mem: Memory, t: Tree, v: nat)
    requires TreeOk(mem, t)
    ensures Entry(mem, t, v) == 0 || IsLeaf(Entry(mem, t, v))
    ensures IsValid(Entry(mem, t, v)) <==> Entry(mem, t, v) != 0
  {
    if On(0, v) in t { assert EntryOk(mem, t, On(0, v), Px(0, v)); }
  }

  lemma PresentNone(mem: Memory, t: Tree, lo: nat)
    requires TreeOk(mem, t)
    ensures Present(mem, t, lo, lo)
  {
    hide TreeOk, Entry;
  }

  lemma VacantNone(mem: Memory, t: Tree, lo: nat)
    requires TreeOk(mem, t)
    ensures Vacant(mem, t, lo, lo)
  {
    hide TreeOk, Entry;
  }

  lemma VacantNext(mem: Memory, t: Tree, lo: nat, v: nat)
    requires TreeOk(mem, t) && Vacant(mem, t, lo, v) && v < MAXVPN && Entry(mem, t, v) == 0
    ensures Vacant(mem, t, lo, v + 1)
  {
    hide TreeOk, Entry;
  }

  lemma NotVacant(mem: Memory, t: Tree, lo: nat, v: nat, hi: nat)
    requires TreeOk(mem, t) && lo <= v < hi && (v >= MAXVPN || Entry(mem, t, v) != 0)
    ensures !Vacant(mem, t, lo, hi)
  {
    hide TreeOk, Entry;
    assert Entry(mem, t, v) == 0 ==> v >= MAXVPN;
  }

  lemma OwnedUpTo(mem: Memory, avail: set<nat>, t: Tree, lo: nat, k: nat, hi: nat)
    requires TreeOk(mem, t) && OwnedFar(mem, avail, t, lo, hi) && lo <= k <= hi && Present(mem, t, lo, k)
    ensures Owned(mem, avail, t, lo, k)
  {}

  lemma PresentNext(mem: Memory, t: Tree, lo: nat, v: nat, hi: nat)
    requires TreeOk(mem, t) && Present(mem, t, lo, v) && lo <= v < hi
    ensures Present(mem, t, lo, v + 1) <==> v < MAXVPN && Entry(mem, t, v) != 0
    ensures !Present(mem, t, lo, v + 1) ==> !Present(mem, t, lo, hi)
    ensures Present(mem, t, lo, v + 1) ==> Mapped(mem, t, lo, v + 1)
  {
    hide TreeOk, Entry, IsLeaf;
    forall w: nat | lo <= w < v + 1 ensures Entry(mem, t, w) == 0 || IsLeaf(Entry(mem, t, w)) {
      LeafOrNone(mem, t, w);
    }
    if v < MAXVPN && Entry(mem, t, v) != 0 {
      forall w: nat | lo <= w < v + 1 ensures w < MAXVPN && Entry(mem, t, w) != 0 {}
    }
  }

  lemma MappedPresent(mem: Memory, t: Tree, lo: nat, hi: nat)
    requires TreeOk(mem, t) && Mapped(mem, t, lo, hi) && hi <= MAXVPN
    ensures Present(mem, t, lo, hi)
  {
    hide TreeOk, Entry;
  }

  lemma OwnedPresent(mem: Memory, avail: set<nat>, t: Tree, lo: nat, hi: nat)
    requires TreeOk(mem, t) && Owned(mem, avail, t, lo, hi) && (lo < hi ==> hi <= MAXVPN)
    ensures Present(mem, t, lo, hi) && OwnedFar(mem, avail, t, lo, hi)
  {
    hide TreeOk, Entry, OwnsAt;
  }

  /** The entries of a run are gone and the rest is as before. */
  ghost predicate RunCleared(mem: Memory, t: Tree, mem': Memory, lo: nat, hi: nat)
    requires TreeOk(mem, t) && TreeOk(mem', t)
  {
    forall w: nat :: Entry(mem', t, w) == if lo <= w < hi then 0 else Entry(mem, t, w)
  }

  lemma PagesNext(mem: Memory, t: Tree, lo: nat, hi: nat)
    requires TreeOk(mem, t) && lo <= hi
    ensures PagesOf(mem, t, lo, hi + 1) == PagesOf(mem, t, lo, hi) + {Ppn(Entry(mem, t, hi))}
  {
    hide TreeOk, Entry, Ppn;
    forall p | p in PagesOf(mem, t, lo, hi + 1)
      ensures p in PagesOf(mem, t, lo, hi) + {Ppn(Entry(mem, t, hi))}
    {
      var v: nat :| lo <= v < hi + 1 && p == Ppn(Entry(mem, t, v));
    }
  }

  lemma NextOwned(mem: Memory, avail: set<nat>, t: Tree, lo: nat, v: nat, hi: nat)
    requires TreeOk(mem, t) && Owned(mem, avail, t, lo, hi) && lo <= v < hi
    ensures OwnsAt(mem, avail, t, v) && Ppn(Entry(mem, t, v)) !in PagesOf(mem, t, lo, v)
  {
    hide TreeOk, Entry, Ppn;
  }

  /** A run unmapped, with its pages back in the pool or not. */
  ghost predicate RunFreed(mem: Memory, avail: set<nat>, t: Tree, mem': Memory, avail': set<nat>,
                           lo: nat, hi: nat, doFree: bool)
    requires TreeOk(mem, t)
  {
    && HasTree(mem', avail', t) && mem'.Keys == mem.Keys
    && RunCleared(mem, t, mem', lo, hi)
    && avail' == (if doFree then avail + PagesOf(mem, t, lo, hi) else avail)
    && Kept(mem, mem', mem.Keys - avail' - t.Values)
  }

  lemma FreedNone(mem: Memory, avail: set<nat>, t: Tree, lo: nat, doFree: bool)
    requires HasTree(mem, avail, t)
    ensures RunFreed(mem, avail, t, mem, avail, lo, lo, doFree)
  {
    hide TreeOk, Entry;
    assert PagesOf(mem, t, lo, lo) == {};
  }

  /** The next page of the run is still mapped and still owned. */
  lemma FreedAt(m0: Memory, a0: set<nat>, t: Tree, mem: Memory, avail: set<nat>, lo: nat, v: nat, hi: nat, doFree: bool)
    requires HasTree(m0, a0, t) && Mapped(m0, t, lo, hi) && (doFree ==> Owned(m0, a0, t, lo, hi))
    requires RunFreed(m0, a0, t, mem, avail, lo, v, doFree) && lo <= v < hi
    ensures HasTree(mem, avail, t) && IsLeaf(Entry(mem, t, v)) && (doFree ==> OwnsAt(mem, avail, t, v))
  {
    hide TreeOk, Entry, Ppn, PagesOf, IsLeaf, Kept;
    if doFree { NextOwned(m0, a0, t, lo, v, hi); }
  }

  /** The pages behind the part of a run that is done are as they were. */
  lemma FreedBehind(m0: Memory, a0: set<nat>, t: Tree, mem: Memory, avail: set<nat>, lo: nat, v: nat, doFree: bool)
    requires HasTree(m0, a0, t) && RunFreed(m0, a0, t, mem, avail, lo, v, doFree)
    ensures HasTree(mem, avail, t) && Entry(mem, t, v) == Entry(m0, t, v)
  {
    hide TreeOk, Entry;
  }

  lemma FreedNext(m0: Memory, a0: set<nat>, t: Tree, m1: Memory, a1: set<nat>, m2: Memory, a2: set<nat>,
                  lo: nat, v: nat, doFree: bool)
    requires HasTree(m0, a0, t) && lo <= v && RunFreed(m0, a0, t, m1, a1, lo, v, doFree)
    requires HasTree(m1, a1, t) && RunFreed(m1, a1, t, m2, a2, v, v + 1, doFree)
    ensures RunFreed(m0, a0, t, m2, a2, lo, v + 1, doFree)
  {
    hide TreeOk, Entry, Ppn;
    PagesNext(m0, t, lo, v);
    assert PagesOf(m1, t, v, v + 1) == {Ppn(Entry(m1, t, v))};
    hide PagesOf;
  }
}
