/** fork's copy of an address space (kernel/memory/vm.c, uvmcopy). */
module ForkMemory {
  import opened SetSizes
  import opened PageTables
  import opened PagePool
  import opened SpaceGrowth
  import opened AddressSpaces
  import opened UserMemory

  /** PTE_FLAGS */
  function FlagsOf(e: nat): nat {
    e % 1024
  }

  ghost function ImageAt(mem: Memory, s: Tree, v: nat): Image
    requires TreeOk(mem, s)
  {
    var e := Entry(mem, s, v);
    Image(FlagsOf(e), if Ppn(e) in mem then mem[Ppn(e)] else [])
  }

  /** The pages below n: flags and contents. */
  ghost function ImagesOf(mem: Memory, s: Tree, n: nat): (r: seq<Image>)
    requires TreeOk(mem, s)
    ensures |r| == n
  {
    if n == 0 then [] else ImagesOf(mem, s, n - 1) + [ImageAt(mem, s, n - 1)]
  }

  /** Another space, whose tables and pages are none of the tables of t. */
  ghost predicate Beside(mem: Memory, avail: set<nat>, s: Tree, n: nat, t: Tree) {
    && HasTree(mem, avail, s) && Owned(mem, avail, s, 0, n)
    && s.Values !! t.Values && PagesOf(mem, s, 0, n) !! t.Values
  }

  /** The other space is as it was. */
  ghost predicate Intact(mem: Memory, s: Tree, n: nat, mem': Memory, avail': set<nat>)
    requires TreeOk(mem, s)
  {
    && HasTree(mem', avail', s) && SameEntries(mem, s, mem', s)
    && Kept(mem, mem', s.Values + PagesOf(mem, s, 0, n))
  }

  /** A space that grows leaves the others intact. */
  lemma Isolated(m0: Memory, a0: set<nat>, s: Tree, n: nat, t0: Tree, mem: Memory, avail: set<nat>, t: Tree,
                 lo: nat, images: seq<Image>)
    requires HasTree(m0, a0, t0) && Beside(m0, a0, s, n, t0) && Grew(m0, a0, t0, mem, avail, t, lo, images)
    ensures Intact(m0, s, n, mem, avail)
  {
    GrewFrom(m0, a0, t0, mem, avail, t, lo, images);
    TreePages(m0, a0, s);
    OwnedPages(m0, a0, s, 0, n);
    hide Entry, PagesOf;
    OtherPages(m0, mem, s);
  }

  lemma FlagsOk(e: nat)
    requires IsLeaf(e)
    ensures PermOk(FlagsOf(e))
  {
    assert e == 1024 * (e / 1024) + e % 1024;
  }

  lemma SourceAt(m0: Memory, a0: set<nat>, s: Tree, n: nat, mem: Memory, avail: set<nat>, v: nat)
    requires HasTree(m0, a0, s) && Owned(m0, a0, s, 0, n) && Intact(m0, s, n, mem, avail) && v < n
    ensures Entry(mem, s, v) == Entry(m0, s, v) && IsLeaf(Entry(mem, s, v))
    ensures var p := Ppn(Entry(mem, s, v)); IsPage(mem, p) && p in m0 && mem[p] == m0[p]
    ensures ImageAt(m0, s, v) == Image(FlagsOf(Entry(mem, s, v)), mem[Ppn(Entry(mem, s, v))])
  {
    hide TreeOk, Entry, Ppn, IsLeaf;
    assert OwnsAt(m0, a0, s, v);
    assert Ppn(Entry(m0, s, v)) in PagesOf(m0, s, 0, n);
  }

  /** One page of uvmcopy's loop; it panics at the first page that the parent does not map. */
  method CopyPage(m: Machine, oldRoot: nat, newRoot: nat, v: nat, ghost k: nat, ghost n: nat,
                  ghost m0: Memory, ghost a0: set<nat>, ghost s: Tree, ghost t0: Tree, ghost t: Tree)
    returns (out: Outcome, ghost t': Tree)
    requires HasTree(m0, a0, t0) && Beside(m0, a0, s, k, t0) && s[ROOT] == oldRoot && t0[ROOT] == newRoot
    requires v <= k <= n <= MAXVPN && v < n && (k < n ==> Entry(m0, s, k) == 0) && Unmapped(m0, t0, 0, n)
    requires Grew(m0, a0, t0, m.mem, m.avail, t, 0, ImagesOf(m0, s, v))
    modifies m
    ensures out == Panic <==> v == k
    ensures out == Panic ==> m.mem == old(m.mem) && m.avail == old(m.avail) && t' == t
    ensures out != Panic ==> Grew(m0, a0, t0, m.mem, m.avail, t', 0, ImagesOf(m0, s, if out == Done then v + 1 else v))
    ensures out == NoMemory ==> |m.avail| <= 1 && |old(m.avail)| < 1 + Missing(t, v)
    ensures out == Done ==> |old(m.avail)| == |m.avail| + 1 + Missing(t, v) && t'.Keys == t.Keys + Way(v)
  {
    hide TreeOk, Entry, Grew, Owned, PagesOf, IsLeaf, Ppn, Missing;
    t' := t;
    Isolated(m0, a0, s, k, t0, m.mem, m.avail, t, 0, ImagesOf(m0, s, v));
    ZeroNotLeaf();
    NothingValid();
    if v < k { SourceAt(m0, a0, s, k, m.mem, m.avail, v); }
    LeafOrNone(m.mem, s, v);
    var at, _ := m.Walk(oldRoot, v, false, s);
    if at.None? { return Panic, t'; }
    var e := m.mem[at.value.0][at.value.1];
    if !IsValid(e) { return Panic, t'; }
    FlagsOk(e);
    out, t' := Extend(m, newRoot, 0, v, m.mem[Ppn(e)], FlagsOf(e), m0, a0, t0, t, ImagesOf(m0, s, v));
    assert ImagesOf(m0, s, v) + [] == ImagesOf(m0, s, v);
  }

  lemma NothingValid()
    ensures !IsValid(0)
  {}

  lemma ZeroNotLeaf()
    ensures !IsLeaf(0)
  {}

  /** uvmunmap(new, 0, i / PGSIZE, 1) where uvmcopy fails. */
  method DropCopies(m: Machine, newRoot: nat, i: nat, ghost m0: Memory, ghost a0: set<nat>, ghost s: Tree, ghost t: Tree, ghost t': Tree)
    requires HasTree(m0, a0, t) && t[ROOT] == newRoot && TreeOk(m0, s) && i <= MAXVPN && Unmapped(m0, t, 0, i)
    requires Grew(m0, a0, t, m.mem, m.avail, t', 0, ImagesOf(m0, s, i))
    modifies m
    ensures Grew(m0, a0, t, m.mem, m.avail, t', 0, []) && |m.avail| <= |old(m.avail)| + i
  {
    hide TreeOk, Entry, Grew, PagesOf, Owned, OwnedFar, Present;
    ghost var images, m1, a1 := ImagesOf(m0, s, i), m.mem, m.avail;
    GrewTree(m0, a0, t, m1, a1, t', 0, images);
    GrewOwned(m0, a0, t, m1, a1, t', 0, images);
    OwnedPresent(m1, a1, t', 0, i);
    var _, _ := m.UvmUnmap(newRoot, 0, i, true, t');
    TakenBack(m0, a0, t, m1, a1, t', m.mem, m.avail, 0, images);
    PageCount(m1, t', 0, i);
    UnionSize(a1, PagesOf(m1, t', 0, i));
  }

  /** uvmcopy: the child maps copies of the parent's pages, or nothing more than before. It panics
      only when it comes to a page that the parent does not map: k is the first of these, or the
      number of pages. */
  method UvmCopy(m: Machine, oldRoot: nat, newRoot: nat, sz: nat, ghost k: nat, ghost s: Tree, ghost t: Tree)
    returns (out: Outcome, ghost t': Tree)
    requires HasTree(m.mem, m.avail, t) && t[ROOT] == newRoot
    requires Beside(m.mem, m.avail, s, k, t) && s[ROOT] == oldRoot
    requires k <= PagesFor(sz) && (k < PagesFor(sz) ==> Entry(m.mem, s, k) == 0)
    requires PagesFor(sz) <= MAXVPN && Unmapped(m.mem, t, 0, PagesFor(sz))
    modifies m
    ensures out == Panic ==> k < PagesFor(sz)
    ensures out == Done ==> k == PagesFor(sz)
    ensures Intact(old(m.mem), s, k, m.mem, m.avail)
    ensures out != Panic ==> Grew(old(m.mem), old(m.avail), t, m.mem, m.avail, t', 0,
      if out == Done then ImagesOf(old(m.mem), s, PagesFor(sz)) else [])
    ensures out == NoMemory ==> |m.avail| <= PagesFor(sz) && Free(old(m.avail)) < Cost(t.Keys, 0, PagesFor(sz))
    ensures out == Done ==> Free(old(m.avail)) == Free(m.avail) + Cost(t.Keys, 0, PagesFor(sz))
  {
    hide TreeOk, Entry, Grew, PagesFor, PagesOf, Owned, OwnedFar, Present, Cost, Missing, Paid, Way;
    ghost var m0, a0 := m.mem, m.avail;
    var n := PagesFor(sz);
    var i := 0;
    t' := t;
    GrewNothing(m0, a0, t, 0);
    PaidNone(a0, t, 0);
    while i < n
      invariant i <= n && i <= k
      invariant Grew(m0, a0, t, m.mem, m.avail, t', 0, ImagesOf(m0, s, i))
      invariant Paid(a0, m.avail, t, t', 0, i)
    {
      ghost var a2, t2 := m.avail, t';
      out, t' := CopyPage(m, oldRoot, newRoot, i, k, n, m0, a0, s, t, t');
      if out == Panic {
        Isolated(m0, a0, s, k, t, m.mem, m.avail, t', 0, ImagesOf(m0, s, i));
        return;
      }
      if out == NoMemory {
        PaidShort(a0, a2, t, t2, 0, i, n);
        DropCopies(m, newRoot, i, m0, a0, s, t, t');
        Isolated(m0, a0, s, k, t, m.mem, m.avail, t', 0, []);
        return;
      }
      PaidNext(a0, a2, m.avail, t, t2, t', 0, i);
      i := i + 1;
    }
    PaidAll(a0, m.avail, t, t', 0, n);
    Isolated(m0, a0, s, k, t, m.mem, m.avail, t', 0, ImagesOf(m0, s, n));
    out := Done;
  }
}
