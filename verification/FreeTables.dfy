/** Freeing a page table from its leaves up (kernel/memory/vm.c, freewalk). */
module FreeTables {
  import opened PageTables
  import opened PagePool
  import opened AddressSpaces

  /** The fields of a table's key down to a level. */
  function KeyAt(m: Node, level: nat): nat
    requires m.level <= level
    decreases level - m.level
  {
    if m.level == level then m.key else KeyAt(Up(m), level)
  }

  predicate Under(m: Node, n: Node) {
    m.level <= n.level && KeyAt(m, n.level) == n.key
  }

  /** Part of the tree: a table, and what hangs below the first i of its entries. */
  predicate UnderEntries(m: Node, n: Node, i: nat) {
    m.level < n.level && n.key * ENTRIES <= KeyAt(m, n.level - 1) < n.key * ENTRIES + i
  }

  ghost function SubPages(t: Tree, n: Node): set<nat> {
    set m | m in t && Under(m, n) :: t[m]
  }

  ghost function PartPages(t: Tree, n: Node, i: nat): set<nat> {
    set m | m in t && UnderEntries(m, n, i) :: t[m]
  }

  ghost function ChildPages(t: Tree, n: Node, i: nat): set<nat> {
    if n.level > 0 then SubPages(t, Down(n, i)) else {}
  }

  lemma {:induction false} KeyAbove(m: Node, level: nat)
    requires m.level < level
    ensures KeyAt(m, level) == KeyAt(m, level - 1) / ENTRIES
    decreases level - m.level
  {
    if m.level + 1 < level { KeyAbove(Up(m), level); }
  }

  /** What is under a table is the table itself or under one of its entries. */
  lemma UnderSplit(m: Node, n: Node)
    ensures Under(m, n) <==> m == n || UnderEntries(m, n, ENTRIES)
  {
    if m.level < n.level { KeyAbove(m, n.level); }
  }

  lemma ChildSplit(m: Node, n: Node, i: nat)
    requires n.level > 0
    ensures UnderEntries(m, n, i + 1) <==> UnderEntries(m, n, i) || Under(m, Down(n, i))
    ensures !(UnderEntries(m, n, i) && Under(m, Down(n, i)))
  {}

  lemma PartNext(t: Tree, n: Node, i: nat)
    ensures PartPages(t, n, i + 1) == PartPages(t, n, i) + ChildPages(t, n, i)
  {
    if n.level > 0 {
      forall m ensures UnderEntries(m, n, i + 1) <==> UnderEntries(m, n, i) || Under(m, Down(n, i)) {
        ChildSplit(m, n, i);
      }
      hide UnderEntries, Under;
    } else {
      assert PartPages(t, n, i + 1) == {};
    }
  }

  lemma WholePart(t: Tree, n: Node)
    requires n in t
    ensures SubPages(t, n) == PartPages(t, n, ENTRIES) + {t[n]}
  {
    forall m ensures Under(m, n) <==> m == n || UnderEntries(m, n, ENTRIES) {
      UnderSplit(m, n);
    }
    hide UnderEntries, Under;
  }

  /** A table whose entries are all tables or 0. */
  ghost predicate BareOk(mem: Memory, avail: set<nat>, t: Tree, m: Node)
    requires m in t
  {
    && PlaceOk(mem, t, m) && t[m] !in avail
    && forall i: nat :: i < ENTRIES ==> EntryOk(mem, t, m, i) && (m.level == 0 ==> mem[t[m]][i] == 0)
  }

  ghost predicate BareUnder(mem: Memory, avail: set<nat>, t: Tree, n: Node) {
    forall m :: m in t && Under(m, n) ==> BareOk(mem, avail, t, m)
  }

  /** No table hangs below a missing one. */
  lemma {:induction false} NothingUnder(mem: Memory, avail: set<nat>, t: Tree, n: Node, m: Node)
    requires BareUnder(mem, avail, t, n) && n !in t && n.level <= 2
    ensures m in t ==> !Under(m, n)
    decreases n.level - m.level
  {
    if m in t && Under(m, n) {
      assert BareOk(mem, avail, t, m);
      NothingUnder(mem, avail, t, n, Up(m));
    }
  }

  lemma UnderDown(m: Node, n: Node, i: nat)
    requires n.level > 0 && i < ENTRIES
    ensures Under(m, Down(n, i)) ==> Under(m, n) && m != n
  {
    if Under(m, Down(n, i)) { KeyAbove(m, n.level); }
  }

  /** While the earlier entries are freed, what hangs below the next one is untouched. */
  lemma StillBare(mem: Memory, avail: set<nat>, t: Tree, n: Node, i: nat, mem': Memory)
    requires Apart(t) && n in t && n.level > 0 && i < ENTRIES && BareUnder(mem, avail, t, n)
    requires mem'.Keys == mem.Keys
    requires Kept(mem, mem', mem.Keys - avail - PartPages(t, n, i) - {t[n]})
    ensures BareUnder(mem', avail + PartPages(t, n, i), t, Down(n, i))
  {
    forall m | m in t && Under(m, Down(n, i)) ensures BareOk(mem', avail + PartPages(t, n, i), t, m) {
      UnderDown(m, n, i);
      ChildSplit(m, n, i);
      assert BareOk(mem, avail, t, m);
      hide Under, UnderEntries;
      assert t[m] !in PartPages(t, n, i);
      forall j: nat | j < ENTRIES ensures EntryOk(mem', t, m, j) && (m.level == 0 ==> mem'[t[m]][j] == 0) {
        assert EntryOk(mem, t, m, j);
      }
    }
  }

  /** One round of freewalk's loop. */
  method FreeEntry(m: Machine, p: nat, i: nat, ghost n: Node, ghost t: Tree)
    requires PoolOk(m.mem, m.avail) && Apart(t) && n in t && t[n] == p && InTree(n) && i < ENTRIES
    requires IsPage(m.mem, p) && EntryOk(m.mem, t, n, i) && (n.level == 0 ==> m.mem[p][i] == 0)
    requires n.level > 0 ==> BareUnder(m.mem, m.avail, t, Down(n, i))
    requires p !in m.avail
    modifies m
    ensures PoolOk(m.mem, m.avail) && m.mem.Keys == old(m.mem.Keys)
    ensures m.avail == old(m.avail) + ChildPages(t, n, i)
    ensures Kept(old(m.mem), m.mem, old(m.mem.Keys) - old(m.avail) - ChildPages(t, n, i) - {p})
    ensures IsPage(m.mem, p) && forall j: nat :: i < j < ENTRIES ==> m.mem[p][j] == old(m.mem)[p][j]
    decreases n.level, 0
  {
    var e := m.mem[p][i];
    if IsValid(e) && !IsLeaf(e) {
      ghost var c := Down(n, i);
      OwnPage(t, n, i);
      FreeWalk(m, Ppn(e), c, t);
      m.mem := Put(m.mem, p, i, 0);
    } else if n.level > 0 {
      PointerBits(m.mem, t, n, i);
      NoChild(m.mem, m.avail, t, n, i);
    }
  }

  lemma OwnPage(t: Tree, n: Node, i: nat)
    requires Apart(t) && n in t && i < ENTRIES
    ensures t[n] !in ChildPages(t, n, i)
  {
    if n.level > 0 {
      forall m | m in t && Under(m, Down(n, i)) ensures t[m] != t[n] { UnderDown(m, n, i); }
    }
  }

  lemma PointerBits(mem: Memory, t: Tree, n: Node, i: nat)
    requires n in t && IsPage(mem, t[n]) && i < ENTRIES && n.level > 0 && EntryOk(mem, t, n, i)
    ensures !IsLeaf(mem[t[n]][i]) && (Down(n, i) in t <==> IsValid(mem[t[n]][i]))
  {
    if Down(n, i) in t { PointerParts(t[Down(n, i)]); }
    hide Pointer;
  }

  lemma NoChild(mem: Memory, avail: set<nat>, t: Tree, n: Node, i: nat)
    requires n.level > 0 && InTree(n) && Down(n, i) !in t && BareUnder(mem, avail, t, Down(n, i))
    ensures ChildPages(t, n, i) == {}
  {
    forall m | m in t ensures !Under(m, Down(n, i)) { NothingUnder(mem, avail, t, Down(n, i), m); }
  }

  /** freewalk: every table at or below a page goes back to the pool, once. */
  method FreeWalk(m: Machine, p: nat, ghost n: Node, ghost t: Tree)
    requires PoolOk(m.mem, m.avail) && Apart(t) && n in t && t[n] == p
    requires BareUnder(m.mem, m.avail, t, n)
    modifies m
    ensures PoolOk(m.mem, m.avail) && m.mem.Keys == old(m.mem.Keys)
    ensures m.avail == old(m.avail) + SubPages(t, n)
    ensures Kept(old(m.mem), m.mem, old(m.mem.Keys) - old(m.avail) - SubPages(t, n))
    decreases n.level, 1
  {
    ghost var m0, a0 := m.mem, m.avail;
    assert BareOk(m0, a0, t, n);
    assert PartPages(t, n, 0) == {};
    for i := 0 to ENTRIES
      invariant PoolOk(m.mem, m.avail) && m.mem.Keys == m0.Keys
      invariant m.avail == a0 + PartPages(t, n, i)
      invariant Kept(m0, m.mem, m0.Keys - a0 - PartPages(t, n, i) - {p})
      invariant IsPage(m.mem, p) && forall j: nat :: i <= j < ENTRIES ==> m.mem[p][j] == m0[p][j]
    {
      hide Under, UnderEntries, IsLeaf, IsValid, BareUnder, PartPages, SubPages;
      if n.level > 0 { StillBare(m0, a0, t, n, i, m.mem); }
      assert EntryOk(m0, t, n, i);
      PartApart(t, n, i);
      FreeEntry(m, p, i, n, t);
      PartNext(t, n, i);
    }
    PartApart(t, n, ENTRIES);
    WholePart(t, n);
    m.Kfree(p);
  }

  lemma PartApart(t: Tree, n: Node, i: nat)
    requires Apart(t) && n in t
    ensures t[n] !in PartPages(t, n, i)
  {}
}
