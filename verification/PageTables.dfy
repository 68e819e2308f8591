/** Three-level page tables in physical pages (kernel/memory/vm.c), as section 4.4 of the RISC-V
    Privileged Architecture lays out Sv39. Addresses are counted in pages: a virtual page number
    has three 9-bit fields, and an entry is a physical page number times 1024 plus its flags. */
module PageTables {

  const ENTRIES: nat := 512
  const MAXVPN: nat := 0x400_0000  // MAXVA / PGSIZE

  type Memory = map<nat, seq<nat>>  // allocated pages and their 512 words

  predicate IsValid(e: nat) {       // PTE_V
    e % 2 == 1
  }

  predicate IsLeaf(e: nat) {        // PTE_V and one of PTE_R, PTE_W, PTE_X
    IsValid(e) && (e / 2) % 8 != 0
  }

  predicate IsUser(e: nat) {        // PTE_U
    (e / 16) % 2 == 1
  }

  function Ppn(e: nat): nat {       // PTE2PA
    e / 1024
  }

  function Pointer(p: nat): nat {   // PA2PTE(p) | PTE_V
    p * 1024 + 1
  }

  lemma PointerParts(p: nat)
    ensures IsValid(Pointer(p)) && !IsLeaf(Pointer(p)) && Ppn(Pointer(p)) == p
  {}

  predicate IsPage(mem: Memory, p: nat) {
    p in mem && |mem[p]| == ENTRIES
  }

  predicate ZeroPage(mem: Memory, p: nat) {
    IsPage(mem, p) && forall j :: 0 <= j < ENTRIES ==> mem[p][j] == 0
  }

  /** One word of a page written. */
  function Put(mem: Memory, p: nat, i: nat, e: nat): Memory
    requires IsPage(mem, p) && i < ENTRIES
  {
    var page: seq<nat> := mem[p][i := e];
    mem[p := page]
  }

  // ---- the tree of tables ----

  /** A table of the tree: its level, and the fields of the page number that lead to it. */
  datatype Node = Node(level: nat, key: nat)

  type Tree = map<Node, nat>        // the page of each table

  const ROOT := Node(2, 0)

  function Up(n: Node): Node {
    Node(n.level + 1, n.key / ENTRIES)
  }

  function Slot(n: Node): (i: nat)
    ensures i < ENTRIES
  {
    n.key % ENTRIES
  }

  function Down(n: Node, i: nat): Node
    requires n.level > 0
  {
    Node(n.level - 1, n.key * ENTRIES + i)
  }

  /** How many tables of a level an address below MAXVA can reach. */
  function Width(level: nat): nat {
    if level == 0 then MAXVPN / ENTRIES else if level == 1 then MAXVPN / (ENTRIES * ENTRIES) else 1
  }

  predicate InTree(n: Node) {
    n.level <= 2 && n.key < Width(n.level)
  }

  /** The table of a level on the way to a page. */
  function On(level: nat, v: nat): Node
    requires level <= 2
  {
    Node(level, if level == 0 then v / ENTRIES else if level == 1 then v / (ENTRIES * ENTRIES) else 0)
  }

  /** PX: the entry of that table on the way to a page. */
  function Px(level: nat, v: nat): (i: nat)
    requires level <= 2
    ensures i < ENTRIES
  {
    if level == 0 then v % ENTRIES
    else if level == 1 then (v / ENTRIES) % ENTRIES
    else (v / (ENTRIES * ENTRIES)) % ENTRIES
  }

  lemma DownUp(n: Node, i: nat, m: Node)
    requires n.level > 0 && i < ENTRIES
    ensures Down(n, i) == m <==> n == Up(m) && i == Slot(m)
  {}

  lemma OnPath(level: nat, v: nat)
    requires level < 2 && v < MAXVPN
    ensures InTree(On(level, v)) && Up(On(level, v)) == On(level + 1, v)
    ensures Slot(On(level, v)) == Px(level + 1, v)
  {}

  ghost predicate PlaceOk(mem: Memory, t: Tree, n: Node)
    requires n in t
  {
    InTree(n) && IsPage(mem, t[n]) && (n.level < 2 ==> Up(n) in t)
  }

  /** An entry above level 0 points at a table of the tree or is 0, one at level 0 is a leaf or 0. */
  ghost predicate EntryOk(mem: Memory, t: Tree, n: Node, i: nat)
    requires n in t && IsPage(mem, t[n]) && i < ENTRIES
  {
    var e := mem[t[n]][i];
    if n.level == 0 then e == 0 || IsLeaf(e)
    else if Down(n, i) in t then e == Pointer(t[Down(n, i)])
    else e == 0
  }

  ghost predicate Apart(t: Tree) {
    forall m, n :: m in t && n in t && t[m] == t[n] ==> m == n
  }

  ghost predicate TreeOk(mem: Memory, t: Tree) {
    && ROOT in t && Apart(t)
    && (forall n :: n in t ==> PlaceOk(mem, t, n))
    && (forall n, i: nat :: n in t && i < ENTRIES ==> EntryOk(mem, t, n, i))
  }

  /** The flat map that the three levels stand for; 0 is no entry. */
  ghost function Entry(mem: Memory, t: Tree, v: nat): nat
    requires TreeOk(mem, t)
  {
    var n := On(0, v);
    if n in t then
      assert PlaceOk(mem, t, n);
      mem[t[n]][Px(0, v)]
    else 0
  }

  ghost predicate SameEntries(mem: Memory, t: Tree, mem': Memory, t': Tree)
    requires TreeOk(mem, t) && TreeOk(mem', t')
  {
    forall v: nat :: Entry(mem', t', v) == Entry(mem, t, v)
  }

  /** Pages that are not tables do not matter. */
  lemma OtherPages(mem: Memory, mem': Memory, t: Tree)
    requires TreeOk(mem, t)
    requires forall p :: p in t.Values ==> p in mem && p in mem' && mem'[p] == mem[p]
    ensures TreeOk(mem', t) && SameEntries(mem, t, mem', t)
  {
    forall n | n in t ensures PlaceOk(mem', t, n) {
      assert PlaceOk(mem, t, n) && t[n] in t.Values;
    }
    forall n, i: nat | n in t && i < ENTRIES ensures EntryOk(mem', t, n, i) {
      assert EntryOk(mem, t, n, i) && t[n] in t.Values;
    }
    forall v: nat ensures Entry(mem', t, v) == Entry(mem, t, v) {
      if On(0, v) in t { assert t[On(0, v)] in t.Values; }
    }
  }

  /** A zeroed page hung below a table of the tree maps nothing. */
  lemma AddTable(mem: Memory, t: Tree, n: Node, p: nat)
    requires TreeOk(mem, t) && InTree(n) && n.level < 2 && n !in t && Up(n) in t
    requires p !in t.Values && ZeroPage(mem, p)
    ensures IsPage(mem, t[Up(n)])
    ensures TreeOk(Put(mem, t[Up(n)], Slot(n), Pointer(p)), t[n := p])
    ensures SameEntries(mem, t, Put(mem, t[Up(n)], Slot(n), Pointer(p)), t[n := p])
  {
    var u := Up(n);
    assert PlaceOk(mem, t, u);
    var mem', t' := Put(mem, t[u], Slot(n), Pointer(p)), t[n := p];
    assert t[u] in t.Values;
    forall m | m in t ensures t[m] != p { assert t[m] in t.Values; }
    forall m | m in t' ensures PlaceOk(mem', t', m) {
      if m != n { assert PlaceOk(mem, t, m); }
    }
    forall m, i: nat | m in t' && i < ENTRIES ensures EntryOk(mem', t', m, i) {
      if m.level > 0 { DownUp(m, i, n); }
      if m == n {
        NoOrphans(mem, t, n, i);
      } else {
        assert PlaceOk(mem, t, m) && EntryOk(mem, t, m, i);
      }
    }
    forall v: nat ensures Entry(mem', t', v) == Entry(mem, t, v) {
      assert PlaceOk(mem', t', n);
    }
  }

  lemma NoOrphans(mem: Memory, t: Tree, n: Node, i: nat)
    requires TreeOk(mem, t) && InTree(n) && n !in t && i < ENTRIES
    ensures n.level > 0 ==> Down(n, i) !in t
  {
    if n.level > 0 && Down(n, i) in t {
      assert PlaceOk(mem, t, Down(n, i));
      DownUp(n, i, Down(n, i));
    }
  }

  /** Writing one level-0 entry changes one entry of the flat map. */
  lemma SetEntry(mem: Memory, t: Tree, v: nat, e: nat)
    requires TreeOk(mem, t) && On(0, v) in t && (e == 0 || IsLeaf(e))
    ensures IsPage(mem, t[On(0, v)])
    ensures TreeOk(Put(mem, t[On(0, v)], Px(0, v), e), t)
    ensures forall w: nat :: Entry(Put(mem, t[On(0, v)], Px(0, v), e), t, w) == if w == v then e else Entry(mem, t, w)
  {
    var n := On(0, v);
    assert PlaceOk(mem, t, n);
    var mem' := Put(mem, t[n], Px(0, v), e);
    forall m | m in t ensures PlaceOk(mem', t, m) { assert PlaceOk(mem, t, m); }
    forall m, i: nat | m in t && i < ENTRIES ensures EntryOk(mem', t, m, i) {
      assert PlaceOk(mem, t, m) && EntryOk(mem, t, m, i);
    }
    forall w: nat ensures Entry(mem', t, w) == if w == v then e else Entry(mem, t, w) {
      if On(0, w) in t { assert PlaceOk(mem, t, On(0, w)); }
    }
  }
}
