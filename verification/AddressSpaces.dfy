/** Page tables and user memory over one pool of physical pages (kernel/memory/vm.c). */
module AddressSpaces {
  import opened Options
  import opened PageTables
  import opened PagePool
  import opened SetSizes

  datatype Outcome = Done | NoMemory | Panic

  /** How many pages are free. */
  function Free(avail: set<nat>): nat {
    |avail|
  }

  /** How many tables are missing on the way to a page. */
  function Missing(t: Tree, v: nat): (n: nat)
    ensures n <= 2
  {
    (if On(1, v) in t then 0 else 1) + (if On(0, v) in t then 0 else 1)
  }

  /** Mapping a page takes one page out of the pool for each table that is missing, and fails
      exactly when there are too few. */
  ghost predicate Takes(out: Outcome, avail: set<nat>, avail': set<nat>, t: Tree, t': Tree, v: nat) {
    && (out == NoMemory <==> v < MAXVPN && |avail| < Missing(t, v))
    && (out != NoMemory ==> |avail| == |avail'| + if v < MAXVPN then Missing(t, v) else 0)
    && (out == NoMemory ==> avail' == {}) && (out == Done ==> t'.Keys == t.Keys + Way(v))
  }

  // ---- what a run of pages costs ----

  /** The tables below the root on the way to a page. */
  function Way(v: nat): set<Node> {
    {On(1, v), On(0, v)}
  }

  /** The tables below the root on the way to a run of pages. */
  ghost function Tables(lo: nat, hi: nat): set<Node> {
    if hi <= lo then {} else Tables(lo, hi - 1) + Way(hi - 1)
  }

  /** The pages that it takes to map a run of new pages: one each, and one for each table that is not
      there yet. */
  ghost function Cost(tables: set<Node>, lo: nat, hi: nat): nat {
    (if lo < hi then hi - lo else 0) + |Tables(lo, hi) - tables|
  }

  lemma MissingSize(t: Tree, v: nat)
    ensures Missing(t, v) == |Way(v) - t.Keys|
  {
    var one, two := On(1, v), On(0, v);
    assert one != two;
    hide On;
    var more := Way(v) - t.Keys;
    if one in t {
      if two in t { assert more == {}; } else { assert more == {two}; }
    } else {
      if two in t { assert more == {one}; } else { assert more == {one, two}; }
    }
  }

  lemma CostNone(tables: set<Node>, lo: nat)
    ensures Cost(tables, lo, lo) == 0
  {
    assert Tables(lo, lo) - tables == {};
  }

  lemma CostNext(tables: set<Node>, t: Tree, lo: nat, v: nat)
    requires lo <= v && t.Keys == tables + Tables(lo, v)
    ensures Cost(tables, lo, v + 1) == Cost(tables, lo, v) + 1 + Missing(t, v)
    ensures t.Keys + Way(v) == tables + Tables(lo, v + 1)
  {
    hide Way, Missing;
    MissingSize(t, v);
    var have, more := Tables(lo, v) - tables, Way(v) - t.Keys;
    assert Tables(lo, v + 1) - tables == have + more;
    DisjointSize(have, more);
  }

  /** One page more costs at most itself and two tables. */
  lemma CostOne(tables: set<Node>, lo: nat, v: nat)
    requires lo <= v
    ensures Cost(tables, lo, v) < Cost(tables, lo, v + 1) <= Cost(tables, lo, v) + 3
  {
    var have, next := Tables(lo, v) - tables, Tables(lo, v + 1) - tables;
    var more := next - have;
    assert next == have + more;
    DisjointSize(have, more);
    SubsetSize(more, Way(v));
    assert On(1, v) != On(0, v);
    assert |Way(v)| == 2;
  }

  lemma {:induction false} CostUp(tables: set<Node>, lo: nat, mid: nat, hi: nat)
    requires lo <= mid <= hi
    ensures Cost(tables, lo, mid) <= Cost(tables, lo, hi) <= Cost(tables, lo, mid) + 3 * (hi - mid)
    decreases hi
  {
    hide Cost;
    if mid < hi {
      CostUp(tables, lo, mid, hi - 1);
      CostOne(tables, lo, hi - 1);
    }
  }

  /** A run of pages has been mapped, and paid for out of the pool. */
  ghost predicate Paid(avail: set<nat>, avail': set<nat>, t: Tree, t': Tree, lo: nat, hi: nat) {
    |avail| == |avail'| + Cost(t.Keys, lo, hi) && t'.Keys == t.Keys + Tables(lo, hi)
  }

  lemma PaidNone(avail: set<nat>, t: Tree, lo: nat)
    ensures Paid(avail, avail, t, t, lo, lo)
  {
    assert Tables(lo, lo) - t.Keys == {};
  }

  lemma PaidNext(avail: set<nat>, a1: set<nat>, avail': set<nat>, t: Tree, t1: Tree, t': Tree, lo: nat, v: nat)
    requires Paid(avail, a1, t, t1, lo, v) && lo <= v && |a1| == |avail'| + 1 + Missing(t1, v) && t'.Keys == t1.Keys + Way(v)
    ensures Paid(avail, avail', t, t', lo, v + 1)
  {
    CostNext(t.Keys, t1, lo, v);
  }

  /** What is left does not pay for the next page. */
  lemma PaidShort(avail: set<nat>, a1: set<nat>, t: Tree, t1: Tree, lo: nat, v: nat, hi: nat)
    requires Paid(avail, a1, t, t1, lo, v) && lo <= v < hi && |a1| < 1 + Missing(t1, v)
    ensures |avail| < Cost(t.Keys, lo, hi)
  {
    CostNext(t.Keys, t1, lo, v);
    CostUp(t.Keys, lo, v + 1, hi);
  }

  lemma PaidLess(avail: set<nat>, a1: set<nat>, t: Tree, t1: Tree, lo: nat, v: nat, hi: nat)
    requires Paid(avail, a1, t, t1, lo, v) && lo <= v < hi && |a1| < 1
    ensures |avail| < Cost(t.Keys, lo, hi)
  {
    CostNext(t.Keys, t1, lo, v);
    CostUp(t.Keys, lo, v + 1, hi);
  }

  lemma PaidAll(avail: set<nat>, avail': set<nat>, t: Tree, t': Tree, lo: nat, hi: nat)
    requires Paid(avail, avail', t, t', lo, hi)
    ensures |avail| == |avail'| + Cost(t.Keys, lo, hi)
  {}

  class Machine {
    var mem: Memory
    var avail: set<nat>

    /** kalloc: a page with whatever it last held, or none. */
    method Kalloc() returns (r: Option<nat>)
      requires PoolOk(mem, avail)
      modifies this
      ensures PoolOk(mem, avail) && mem.Keys == old(mem.Keys) && Kept(old(mem), mem, old(mem.Keys) - old(avail))
      ensures r.None? <==> old(avail) == {}
      ensures r.None? ==> avail == old(avail)
      ensures r.Some? ==> r.value in old(avail) && avail == old(avail) - {r.value} && |old(avail)| == |avail| + 1
    {
      if avail == {} {
        return None;
      }
      var p :| p in avail;
      avail := avail - {p};
      return Some(p);
    }

    /** kfree: a page that is not allocated may not be freed. */
    method Kfree(p: nat)
      requires PoolOk(mem, avail) && p in mem && p !in avail
      modifies this
      ensures PoolOk(mem, avail) && mem.Keys == old(mem.Keys) && avail == old(avail) + {p}
      ensures Kept(old(mem), mem, old(mem.Keys) - old(avail) - {p})
    {
      avail := avail + {p};
    }

    /** memset(p, 0, PGSIZE) */
    method Clear(p: nat)
      requires PoolOk(mem, avail) && p in mem
      modifies this`mem
      ensures PoolOk(mem, avail) && mem.Keys == old(mem.Keys) && ZeroPage(mem, p)
      ensures Kept(old(mem), mem, old(mem.Keys) - {p})
    {
      mem := mem[p := seq(ENTRIES, _ => 0)];
    }

    /** One round of walk's loop: from the table of a level to the one below. */
    method Descend(p: nat, level: nat, v: nat, alloc: bool, ghost t: Tree)
      returns (r: Option<nat>, ghost t': Tree)
      requires HasTree(mem, avail, t) && 0 < level <= 2 && v < MAXVPN
      requires On(level, v) in t && p == t[On(level, v)]
      modifies this
      ensures Grown(old(mem), old(avail), t, mem, avail, t')
      ensures !alloc ==> mem == old(mem) && avail == old(avail) && t' == t
      ensures r.Some? <==> On(level - 1, v) in t'
      ensures r.Some? ==> r.value == t'[On(level - 1, v)]
      ensures r.None? && alloc ==> avail == {} && old(avail) == {}
      ensures forall n :: n in t' && n != On(level - 1, v) ==> n in t
      ensures r.Some? ==> |old(avail)| == |avail| + if On(level - 1, v) in t then 0 else 1
    {
      hide TreeOk, Entry, Grown, Px, IsValid, Ppn, On;
      ghost var m0, a0, n := mem, avail, On(level - 1, v);
      var i := Px(level, v);
      StepDown(mem, avail, t, level, v);
      GrownNone(mem, avail, t);
      if IsValid(mem[p][i]) {
        return Some(Ppn(mem[p][i])), t;
      }
      if !alloc {
        return None, t;
      }
      var k := Kalloc();
      if k.None? {
        PoolChanged(m0, a0, t, mem);
        return None, t;
      }
      Clear(k.value);
      TakeTable(m0, a0, t, mem, n, k.value);
      mem := Put(mem, p, i, Pointer(k.value));
      return Some(k.value), t[n := k.value];
    }

    /** walk: where the level-0 entry of a page is, making the tables on the way if asked to. */
    method Walk(root: nat, v: nat, alloc: bool, ghost t: Tree) returns (r: Option<(nat, nat)>, ghost t': Tree)
      requires HasTree(mem, avail, t) && t[ROOT] == root && v < MAXVPN
      modifies this
      ensures Grown(old(mem), old(avail), t, mem, avail, t')
      ensures !alloc ==> mem == old(mem) && avail == old(avail) && t' == t
      ensures r.Some? <==> On(0, v) in t'
      ensures r.Some? ==> r.value == (t'[On(0, v)], Px(0, v)) && IsPage(mem, r.value.0)
      ensures r.Some? ==> mem[r.value.0][r.value.1] == Entry(mem, t', v)
      ensures r.None? ==> Entry(mem, t', v) == 0 && (alloc ==> avail == {})
      ensures alloc ==> (r.None? <==> |old(avail)| < Missing(t, v))
      ensures r.Some? ==> |old(avail)| == |avail| + Missing(t, v)
      ensures alloc && r.Some? ==> t'.Keys == t.Keys + Way(v)
    {
      hide TreeOk, Entry, Grown;
      var level, p := 2, root;
      t' := t;
      ghost var m0, a0 := mem, avail;
      GrownNone(mem, avail, t);
      GrownTree(m0, a0, t, mem, avail, t');
      while level > 0
        invariant level <= 2 && HasTree(mem, avail, t') && On(level, v) in t' && p == t'[On(level, v)]
        invariant Grown(m0, a0, t, mem, avail, t')
        invariant !alloc ==> mem == m0 && avail == a0 && t' == t
        invariant (forall n :: n in t ==> n in t') && (level < 2 ==> On(1, v) in t')
        invariant forall n :: n in t' && n !in t ==> level < 2 && (n == On(1, v) || (level == 0 && n == On(0, v)))
        invariant |a0| == |avail| + (if level < 2 && On(1, v) !in t then 1 else 0)
                          + (if level == 0 && On(0, v) !in t then 1 else 0)
      {
        hide PoolOk, Px;
        ghost var m1, a1, t1 := mem, avail, t';
        var k;
        assert On(0, v) != On(1, v);
        k, t' := Descend(p, level, v, alloc, t');
        GrownTrans(m0, a0, t, m1, a1, t1, mem, avail, t');
        GrownTree(m0, a0, t, mem, avail, t');
        GrownTree(m1, a1, t1, mem, avail, t');
        if k.None? {
          OnlyBelow(mem, t', level - 1, v);
          return None, t';
        }
        p, level := k.value, level - 1;
      }
      ReadEntry(mem, avail, t', v);
      return Some((p, Px(0, v))), t';
    }

    /** One page of mappages' loop; a page that is mapped already is a panic. */
    method MapOne(root: nat, v: nat, p: nat, perm: nat, ghost t: Tree) returns (out: Outcome, ghost t': Tree)
      requires HasTree(mem, avail, t) && t[ROOT] == root && PermOk(perm)
      modifies this
      ensures Extends(old(mem), old(avail), t, mem, avail, t')
      ensures RunMapped(old(mem), t, mem, t', v, if out == Done then 1 else 0, p, perm)
      ensures out == Panic <==> v >= MAXVPN || Entry(old(mem), t, v) != 0
      ensures out == NoMemory ==> avail == {}
      ensures Takes(out, old(avail), avail, t, t', v)
    {
      hide TreeOk, PoolOk, Kept, Entry;
      if v >= MAXVPN {
        RunMappedNone(mem, avail, t, v, p, perm);
        return Panic, t;
      }
      var at;
      at, t' := Walk(root, v, true, t);
      LeafOrNone(mem, t', v);
      if at.None? {
        return NoMemory, t';
      }
      if IsValid(mem[at.value.0][at.value.1]) {
        return Panic, t';
      }
      ghost var m1, a1 := mem, avail;
      LeafParts(p, perm);
      WriteEntry(mem, avail, t', v, LeafOf(p, perm));
      mem := Put(mem, at.value.0, at.value.1, LeafOf(p, perm));
      ExtendsTrans(old(mem), old(avail), t, m1, a1, t', mem, avail, t');
      out := Done;
    }

    /** walkaddr: the address of a page that user code may reach, or 0. */
    method WalkAddr(root: nat, va: nat, ghost t: Tree) returns (pa: nat)
      requires HasTree(mem, avail, t) && t[ROOT] == root
      modifies this
      ensures mem == old(mem) && avail == old(avail)
      ensures pa == if PageOf(va) < MAXVPN && IsValid(Entry(mem, t, PageOf(va))) && IsUser(Entry(mem, t, PageOf(va)))
                    then Ppn(Entry(mem, t, PageOf(va))) * PGSIZE else 0
    {
      if va >= MAXVPN * PGSIZE {
        return 0;
      }
      var at, _ := Walk(root, PageOf(va), false, t);
      if at.None? {
        return 0;
      }
      var e := mem[at.value.0][at.value.1];
      if !IsValid(e) || !IsUser(e) {
        return 0;
      }
      return Ppn(e) * PGSIZE;
    }

    /** mappages: entries for every page that va .. va + size touches. It panics on size 0, and at
        the first page that is mapped already or beyond the address space. */
    method MapPages(root: nat, va: nat, size: nat, pa: nat, perm: nat, ghost t: Tree)
      returns (out: Outcome, ghost t': Tree, ghost count: nat)
      requires HasTree(mem, avail, t) && t[ROOT] == root && PermOk(perm)
      modifies this
      ensures Extends(old(mem), old(avail), t, mem, avail, t')
      ensures RunMapped(old(mem), t, mem, t', PageOf(va), count, PageOf(pa), perm)
      ensures Vacant(old(mem), t, PageOf(va), PageOf(va) + count)
      ensures size == 0 ==> out == Panic && count == 0
      ensures size > 0 ==>
        var next, last := PageOf(va) + count, PageOf(va + size - 1);
        match out
        case Done => next == last + 1
        case NoMemory => next <= last && avail == {} && next < MAXVPN && Entry(old(mem), t, next) == 0
        case Panic => next <= last && (next >= MAXVPN || Entry(old(mem), t, next) != 0)
      ensures |old(avail)| <= |avail| + 2 * (count + if out == Done then 0 else 1)
      ensures size > 0 && PageOf(va + size - 1) == PageOf(va) ==> Takes(out, old(avail), avail, t, t', PageOf(va))
    {
      hide TreeOk, Entry, LeafOf, Extends, RunMapped, Vacant, Present;
      ghost var m0, a0 := mem, avail;
      t', count := t, 0;
      RunMappedNone(mem, avail, t, PageOf(va), PageOf(pa), perm);
      VacantNone(mem, t, PageOf(va));
      if size == 0 {
        return Panic, t', 0;
      }
      var a, p, last := PageOf(va), PageOf(pa), PageOf(va + size - 1);
      ghost var v0, p0 := a, p;
      ExtendsTree(m0, a0, t, mem, avail, t');
      while true
        invariant a == v0 + count <= last && p == p0 + count && HasTree(mem, avail, t')
        invariant Extends(m0, a0, t, mem, avail, t') && Vacant(m0, t, v0, a)
        invariant RunMapped(m0, t, mem, t', v0, count, p0, perm)
        invariant |a0| <= |avail| + 2 * count && (count == 0 ==> avail == a0 && t' == t)
        decreases last - a
      {
        hide PoolOk, PageOf, PermOk;
        ghost var m1, a1, t1 := mem, avail, t';
        ExtendsTree(m0, a0, t, mem, avail, t');
        RunMappedAt(m0, t, mem, t', v0, count, p0, perm, a);
        out, t' := MapOne(root, a, p, perm, t');
        ExtendsTrans(m0, a0, t, m1, a1, t1, mem, avail, t');
        ExtendsTree(m0, a0, t, mem, avail, t');
        RunMappedNext(m0, t, m1, t1, mem, t', v0, count, p0, perm, if out == Done then 1 else 0);
        if out != Done {
          return;
        }
        VacantNext(m0, t, v0, a);
        count := count + 1;
        if a == last {
          return;
        }
        a, p := a + 1, p + 1;
      }
    }

    /** One page of uvmunmap's loop; a page that is not mapped is a panic. */
    method UnmapOne(root: nat, v: nat, doFree: bool, ghost t: Tree) returns (panic: bool)
      requires HasTree(mem, avail, t) && t[ROOT] == root
      requires doFree && v < MAXVPN && Entry(mem, t, v) != 0 ==> OwnsAt(mem, avail, t, v)
      modifies this
      ensures panic <==> v >= MAXVPN || Entry(old(mem), t, v) == 0
      ensures panic ==> mem == old(mem) && avail == old(avail)
      ensures !panic ==> RunFreed(old(mem), old(avail), t, mem, avail, v, v + 1, doFree)
    {
      if v >= MAXVPN {
        return true;
      }
      var at, _ := Walk(root, v, false, t);
      ghost var e := Entry(mem, t, v);
      LeafOrNone(mem, t, v);
      if at.None? || !IsValid(mem[at.value.0][at.value.1]) {
        return true;
      }
      panic := false;
      if doFree {
        Kfree(Ppn(mem[at.value.0][at.value.1]));
        OtherPages(old(mem), mem, t);
      }
      WriteEntry(mem, avail, t, v, 0);
      mem := Put(mem, at.value.0, at.value.1, 0);
      assert PagesOf(old(mem), t, v, v + 1) == {Ppn(e)};
    }

    /** uvmunmap: a run of existing mappings, and their pages if asked to. It panics on an address
        inside a page, and at the first page of the run that is not mapped. */
    method UvmUnmap(root: nat, va: nat, npages: nat, doFree: bool, ghost t: Tree)
      returns (panic: bool, ghost stop: nat)
      requires HasTree(mem, avail, t) && t[ROOT] == root
      requires doFree ==> OwnedFar(mem, avail, t, PageOf(va), PageOf(va) + npages)
      modifies this
      ensures panic <==> va % PGSIZE != 0 || !Present(old(mem), t, PageOf(va), PageOf(va) + npages)
      ensures PageOf(va) <= stop <= PageOf(va) + npages && Present(old(mem), t, PageOf(va), stop)
      ensures RunFreed(old(mem), old(avail), t, mem, avail, PageOf(va), stop, doFree)
      ensures !panic ==> stop == PageOf(va) + npages
      ensures panic ==> va % PGSIZE != 0 || stop >= MAXVPN || Entry(old(mem), t, stop) == 0
    {
      var lo, hi := PageOf(va), PageOf(va) + npages;
      ghost var m0, a0 := mem, avail;
      hide PageOf, OwnedFar, Present;
      FreedNone(mem, avail, t, lo, doFree);
      PresentNone(mem, t, lo);
      stop := lo;
      if va % PGSIZE != 0 {
        return true, lo;
      }
      var a := lo;
      while a < hi
        invariant lo <= a <= hi && stop == a && RunFreed(m0, a0, t, mem, avail, lo, a, doFree) && Present(m0, t, lo, a)
      {
        hide RunFreed, TreeOk, Entry, IsLeaf, OwnsAt, Owned, Mapped;
        FreedBehind(m0, a0, t, mem, avail, lo, a, doFree);
        PresentNext(m0, t, lo, a, hi);
        if a < MAXVPN && Entry(m0, t, a) != 0 {
          if doFree { OwnedUpTo(m0, a0, t, lo, a + 1, hi); }
          FreedAt(m0, a0, t, mem, avail, lo, a, a + 1, doFree);
        }
        ghost var m1, a1 := mem, avail;
        panic := UnmapOne(root, a, doFree, t);
        if panic {
          return;
        }
        FreedNext(m0, a0, t, m1, a1, mem, avail, lo, a, doFree);
        a := a + 1;
        stop := a;
      }
      panic := false;
    }
  }
}
