/** Growing, shrinking, copying and freeing user memory (kernel/memory/vm.c). */
module UserMemory {
  import opened SetSizes
  import opened PageTables
  import opened PagePool
  import opened SpaceGrowth
  import opened AddressSpaces

  /** PGROUNDUP, in pages. */
  function PagesFor(size: nat): nat {
    (size + PGSIZE - 1) / PGSIZE
  }

  lemma PageBounds(v: nat)
    ensures PageOf(v * PGSIZE) == v && PageOf(v * PGSIZE + PGSIZE - 1) == v
  {}

  /** kalloc, fill and map one page, or nothing: a round of the loops of uvmalloc and uvmcopy. */
  method AddPage(m: Machine, root: nat, v: nat, words: seq<nat>, perm: nat, ghost t: Tree)
    returns (out: Outcome, ghost t': Tree)
    requires HasTree(m.mem, m.avail, t) && t[ROOT] == root && PermOk(perm) && |words| == ENTRIES
    modifies m
    ensures out == Panic ==> v >= MAXVPN || Entry(old(m.mem), t, v) != 0
    ensures out == Done ==> v < MAXVPN && Entry(old(m.mem), t, v) == 0
    ensures out != Panic ==>
      Grew(old(m.mem), old(m.avail), t, m.mem, m.avail, t', v, if out == Done then [Image(perm, words)] else [])
    ensures out == NoMemory ==> |m.avail| <= 1
    ensures out == NoMemory <==> |old(m.avail)| < 1 + if v < MAXVPN then Missing(t, v) else 0
    ensures out == Done ==> |old(m.avail)| == |m.avail| + 1 + Missing(t, v) && t'.Keys == t.Keys + Way(v)
  {
    hide Entry, Grew, PermOk, TreeOk, Missing;
    ghost var m0, a0 := m.mem, m.avail;
    var k := m.Kalloc();
    if k.None? {
      NoPage(m0, a0, t, m.mem, v);
      return NoMemory, t;
    }
    var p := k.value;
    m.mem := m.mem[p := words];
    TreeKept(m0, a0, t, m.mem);
    out, t' := Place(m, root, v, p, words, perm, m0, a0, t);
  }

  /** The page is filled and gets its entry, or goes back. */
  method Place(m: Machine, root: nat, v: nat, p: nat, ghost words: seq<nat>, perm: nat,
               ghost m0: Memory, ghost a0: set<nat>, ghost t: Tree)
    returns (out: Outcome, ghost t': Tree)
    requires HasTree(m0, a0, t) && t[ROOT] == root && PermOk(perm) && p in a0 && m.avail == a0 - {p}
    requires m.mem.Keys == m0.Keys && Kept(m0, m.mem, m0.Keys - a0) && p in m.mem && m.mem[p] == words
    requires HasTree(m.mem, m.avail, t) && SameEntries(m0, t, m.mem, t)
    modifies m
    ensures out == Panic ==> v >= MAXVPN || Entry(m0, t, v) != 0
    ensures out == Done ==> v < MAXVPN && Entry(m0, t, v) == 0
    ensures out != Panic ==> Grew(m0, a0, t, m.mem, m.avail, t', v, if out == Done then [Image(perm, words)] else [])
    ensures out == NoMemory ==> |m.avail| <= 1
    ensures out == NoMemory <==> |a0| < 1 + if v < MAXVPN then Missing(t, v) else 0
    ensures out == Done ==> |a0| == |m.avail| + 1 + Missing(t, v) && t'.Keys == t.Keys + Way(v)
  {
    hide Entry, Grew, PermOk, PageOf, TreeOk, Missing, Takes;
    PageBounds(v);
    PageBounds(p);
    ghost var m1, count := m.mem, 0;
    out, t', count := m.MapPages(root, v * PGSIZE, PGSIZE, p * PGSIZE, perm, t);
    OneTaken(out, a0, p, m.avail, t, t', v);
    if out == Panic {
      return;
    }
    if out == Done {
      PageAdded(m0, a0, t, m1, m.mem, m.avail, t', v, p, Image(perm, words));
      return;
    }
    ghost var m2 := m.mem;
    assert p !in t'.Values;
    m.Kfree(p);
    PageDropped(m0, a0, t, m1, m2, {}, t', m.mem, v, p);
  }

  lemma OneTaken(out: Outcome, avail: set<nat>, p: nat, avail': set<nat>, t: Tree, t': Tree, v: nat)
    requires p in avail && Takes(out, avail - {p}, avail', t, t', v)
    ensures out == NoMemory <==> v < MAXVPN && |avail| < 1 + Missing(t, v)
    ensures out != NoMemory ==> |avail| == |avail'| + 1 + if v < MAXVPN then Missing(t, v) else 0
    ensures out == Done ==> t'.Keys == t.Keys + Way(v)
  {}

  lemma NoPage(mem: Memory, avail: set<nat>, t: Tree, mem': Memory, v: nat)
    requires HasTree(mem, avail, t) && PoolOk(mem', avail) && mem'.Keys == mem.Keys
    requires Kept(mem, mem', mem.Keys - avail)
    ensures Grew(mem, avail, t, mem', avail, t, v, [])
  {
    TreeKept(mem, avail, t, mem');
    hide TreeOk, Entry;
    assert PagesOf(mem', t, v, v) == {};
  }

  /** A run of new pages becomes one longer, or stays as it is. */
  method Extend(m: Machine, root: nat, lo: nat, v: nat, words: seq<nat>, perm: nat,
                ghost m0: Memory, ghost a0: set<nat>, ghost t0: Tree, ghost t: Tree, ghost images: seq<Image>)
    returns (out: Outcome, ghost t': Tree)
    requires HasTree(m0, a0, t0) && Grew(m0, a0, t0, m.mem, m.avail, t, lo, images) && t0[ROOT] == root
    requires v == lo + |images| && PermOk(perm) && |words| == ENTRIES
    modifies m
    ensures out == Panic ==> v >= MAXVPN || Entry(m0, t0, v) != 0
    ensures out == Done ==> v < MAXVPN && Entry(m0, t0, v) == 0
    ensures out != Panic ==>
      Grew(m0, a0, t0, m.mem, m.avail, t', lo, images + if out == Done then [Image(perm, words)] else [])
    ensures out == NoMemory ==> |m.avail| <= 1
    ensures out == NoMemory <==> |old(m.avail)| < 1 + if v < MAXVPN then Missing(t, v) else 0
    ensures out == Done ==> |old(m.avail)| == |m.avail| + 1 + Missing(t, v) && t'.Keys == t.Keys + Way(v)
  {
    hide Entry, Grew, PermOk, HasTree, Missing;
    ghost var m1, a1 := m.mem, m.avail;
    GrewTree(m0, a0, t0, m1, a1, t, lo, images);
    GrewEntry(m0, a0, t0, m1, a1, t, lo, images, v);
    out, t' := AddPage(m, root, v, words, perm, t);
    if out != Panic {
      GrewTrans(m0, a0, t0, m1, a1, t, m.mem, m.avail, t', lo, images, if out == Done then [Image(perm, words)] else []);
    }
  }

  /** A flag set by or-ing. */
  function WithFlag(x: nat, flag: nat): nat
    requires flag > 0
  {
    if (x / flag) % 2 == 1 then x else x + flag
  }

  /** PTE_R | PTE_U | xperm */
  function UserPerm(xperm: nat): nat {
    WithFlag(WithFlag(xperm, 2), 16)
  }

  lemma UserPermOk(xperm: nat)
    requires xperm < 1024
    ensures PermOk(UserPerm(xperm))
  {
    var y := WithFlag(xperm, 2);
    assert y < 1024 && (y / 2) % 2 == 1;
    var z := WithFlag(y, 16);
    assert z < 1024;
    assert z / 2 == y / 2 || z / 2 == y / 2 + 8;
    assert (z / 2) % 2 == 1;
  }

  function ZeroImage(xperm: nat): Image {
    Image(UserPerm(xperm), seq(ENTRIES, _ => 0))
  }

  function Copies(image: Image, count: nat): (s: seq<Image>)
    ensures |s| == count && forall k :: 0 <= k < count ==> s[k] == image
  {
    seq(count, _ => image)
  }

  const INT_MAX: nat := 0x7fff_ffff

  /** uvmdealloc: the pages from the new size up to the old one go back to the pool. It panics if
      one of them is not mapped, as when the old size is beyond that of the process. */
  method UvmDealloc(m: Machine, root: nat, oldsz: nat, newsz: nat, ghost t: Tree) returns (panic: bool, r: nat)
    requires HasTree(m.mem, m.avail, t) && t[ROOT] == root && PagesFor(oldsz) <= PagesFor(newsz) + INT_MAX
    requires OwnedFar(m.mem, m.avail, t, PagesFor(newsz), PagesFor(oldsz))
    modifies m
    ensures r == if newsz < oldsz then newsz else oldsz
    ensures panic <==> !Present(old(m.mem), t, PagesFor(newsz), PagesFor(oldsz))
    ensures !panic ==> RunFreed(old(m.mem), old(m.avail), t, m.mem, m.avail, PagesFor(newsz), PagesFor(oldsz), true)
    ensures newsz >= oldsz ==> m.mem == old(m.mem) && m.avail == old(m.avail)
  {
    hide TreeOk, Entry, Ppn, OwnsAt, OwnedFar;
    panic := false;
    if newsz >= oldsz {
      assert PagesOf(m.mem, t, PagesFor(newsz), PagesFor(oldsz)) == {};
      r := oldsz;
      return;
    }
    r := newsz;
    if PagesFor(newsz) < PagesFor(oldsz) {
      var npages := PagesFor(oldsz) - PagesFor(newsz);
      PageBounds(PagesFor(newsz));
      ghost var stop;
      panic, stop := m.UvmUnmap(root, PagesFor(newsz) * PGSIZE, npages, true, t);
    } else {
      assert PagesOf(m.mem, t, PagesFor(newsz), PagesFor(oldsz)) == {};
    }
  }

  /** uvmdealloc(a, oldsz) where uvmalloc fails. */
  method GiveBack(m: Machine, root: nat, a: nat, lo: nat,
                  ghost m0: Memory, ghost a0: set<nat>, ghost t0: Tree, ghost t: Tree, ghost images: seq<Image>)
    requires HasTree(m0, a0, t0) && Grew(m0, a0, t0, m.mem, m.avail, t, lo, images) && t0[ROOT] == root
    requires a == lo + |images| && (lo < a ==> a <= MAXVPN) && Unmapped(m0, t0, lo, a)
    modifies m
    ensures Grew(m0, a0, t0, m.mem, m.avail, t, lo, [])
    ensures |m.avail| <= |old(m.avail)| + |images|
  {
    hide TreeOk, Entry, Grew, PagesFor, PagesOf, Owned, OwnedFar, Present;
    ghost var m1, a1 := m.mem, m.avail;
    PagesFor4096(a);
    PagesFor4096(lo);
    GrewTree(m0, a0, t0, m1, a1, t, lo, images);
    GrewOwned(m0, a0, t0, m1, a1, t, lo, images);
    OwnedPresent(m1, a1, t, lo, a);
    var _, _ := UvmDealloc(m, root, a * PGSIZE, lo * PGSIZE, t);
    TakenBack(m0, a0, t0, m1, a1, t, m.mem, m.avail, lo, images);
    PageCount(m1, t, lo, a);
    UnionSize(a1, PagesOf(m1, t, lo, a));
  }

  /** uvmalloc: zeroed pages up to the new size, or the old mappings if memory runs out. It panics
      only when it comes to a page that is mapped already or beyond the address space. */
  method UvmAlloc(m: Machine, root: nat, oldsz: nat, newsz: nat, xperm: nat, ghost t: Tree)
    returns (out: Outcome, r: nat, ghost t': Tree)
    requires HasTree(m.mem, m.avail, t) && t[ROOT] == root && xperm < 1024
    modifies m
    ensures r == if out != Done then 0 else if newsz < oldsz then oldsz else newsz
    ensures newsz < oldsz ==> out == Done && m.mem == old(m.mem) && m.avail == old(m.avail) && t' == t
    ensures out == Panic ==> !Vacant(old(m.mem), t, PagesFor(oldsz), PagesFor(newsz))
    ensures out == Done && newsz >= oldsz ==>
      && Vacant(old(m.mem), t, PagesFor(oldsz), PagesFor(newsz))
      && Grew(old(m.mem), old(m.avail), t, m.mem, m.avail, t', PagesFor(oldsz),
              Copies(ZeroImage(xperm), PagesFor(newsz) - PagesFor(oldsz)))
    ensures out == NoMemory ==> Grew(old(m.mem), old(m.avail), t, m.mem, m.avail, t', PagesFor(oldsz), [])
    ensures out == NoMemory ==> |m.avail| <= PagesFor(newsz) - PagesFor(oldsz)
    ensures out == NoMemory ==> PagesFor(oldsz) <= PagesFor(newsz) && Free(old(m.avail)) < Cost(t.Keys, PagesFor(oldsz), PagesFor(newsz))
    ensures out == Done && newsz >= oldsz ==> Free(old(m.avail)) == Free(m.avail) + Cost(t.Keys, PagesFor(oldsz), PagesFor(newsz))
  {
    hide Entry, Grew, PermOk, UserPerm, PagesFor, Copies, Cost, Missing, Paid, Way;
    out, t' := Done, t;
    if newsz < oldsz {
      r := oldsz;
      return;
    }
    ghost var m0, a0 := m.mem, m.avail;
    var lo, hi := PagesFor(oldsz), PagesFor(newsz);
    var a := lo;
    UserPermOk(xperm);
    PagesUp(oldsz, newsz);
    GrewNothing(m.mem, m.avail, t, lo);
    PaidNone(a0, t, lo);
    while a < hi
      invariant lo <= a <= hi && Vacant(m0, t, lo, a)
      invariant Grew(m0, a0, t, m.mem, m.avail, t', lo, Copies(ZeroImage(xperm), a - lo))
      invariant Paid(a0, m.avail, t, t', lo, a)
    {
      hide HasTree;
      ghost var images := Copies(ZeroImage(xperm), a - lo);
      ghost var a1, t1 := m.avail, t';
      out, t' := Extend(m, root, lo, a, seq(ENTRIES, _ => 0), UserPerm(xperm), m0, a0, t, t', images);
      if out == Panic {
        NotVacant(m0, t, lo, a, hi);
        r := 0;
        return;
      }
      if out == NoMemory {
        assert images + [] == images;
        VacantUnmapped(m0, t, lo, a);
        if a < MAXVPN { PaidShort(a0, a1, t, t1, lo, a, hi); } else { PaidLess(a0, a1, t, t1, lo, a, hi); }
        GiveBack(m, root, a, lo, m0, a0, t, t', images);
        r := 0;
        return;
      }
      assert images + [ZeroImage(xperm)] == Copies(ZeroImage(xperm), a + 1 - lo);
      PaidNext(a0, a1, m.avail, t, t1, t', lo, a);
      a := a + 1;
    }
    PaidAll(a0, m.avail, t, t', lo, hi);
    out, r := Done, newsz;
  }

  lemma VacantUnmapped(mem: Memory, t: Tree, lo: nat, hi: nat)
    requires TreeOk(mem, t) && Vacant(mem, t, lo, hi)
    ensures Unmapped(mem, t, lo, hi) && (lo < hi ==> hi <= MAXVPN)
  {
    hide TreeOk, Entry;
    if lo < hi { assert Entry(mem, t, hi - 1) == 0; }
  }

  lemma PagesUp(a: nat, b: nat)
    requires a <= b
    ensures PagesFor(a) <= PagesFor(b)
  {}

  lemma PagesFor4096(v: nat)
    ensures PagesFor(v * PGSIZE) == v
  {}
}
