/** Bytes between the kernel and user memory (kernel/memory/vm.c, copyout and copyin). */
module UserCopy {
  import opened SetSizes
  import opened PageTables
  import opened PagePool
  import opened SpaceGrowth
  import opened AddressSpaces

  // ---- bytes of a page ----

  /** A byte of a word, the least significant first. */
  function ByteOf(w: nat, k: nat): nat {
    if k == 0 then w % 256 else ByteOf(w / 256, k - 1)
  }

  function PutByte(w: nat, k: nat, b: nat): nat {
    if k == 0 then w / 256 * 256 + b else 256 * PutByte(w / 256, k - 1, b) + w % 256
  }

  lemma {:induction false} BytePut(w: nat, k: nat, b: nat, j: nat)
    requires b < 256
    ensures ByteOf(PutByte(w, k, b), j) == if j == k then b else ByteOf(w, j)
    decreases k
  {
    if k > 0 && j > 0 {
      BytePut(w / 256, k - 1, b, j - 1);
      assert PutByte(w, k, b) / 256 == PutByte(w / 256, k - 1, b);
    }
  }

  function PageByte(page: seq<nat>, i: nat): nat
    requires |page| == ENTRIES && i < PGSIZE
  {
    ByteOf(page[i / 8], i % 8)
  }

  function PutPageByte(page: seq<nat>, i: nat, b: nat): (r: seq<nat>)
    requires |page| == ENTRIES && i < PGSIZE
    ensures |r| == ENTRIES
  {
    page[i / 8 := PutByte(page[i / 8], i % 8, b)]
  }

  predicate Bytes(data: seq<nat>) {
    forall i :: 0 <= i < |data| ==> data[i] < 256
  }

  /** memmove into a page. */
  function CopyBytes(page: seq<nat>, at: nat, data: seq<nat>): (r: seq<nat>)
    requires |page| == ENTRIES && at + |data| <= PGSIZE
    ensures |r| == ENTRIES
  {
    if data == [] then page
    else
      var n := |data| - 1;
      PutPageByte(CopyBytes(page, at, data[..n]), at + n, data[n])
  }

  /** Page v with the bytes that come to lie in it when they are put from address va on. */
  function Patched(page: seq<nat>, v: nat, va: nat, data: seq<nat>): (r: seq<nat>)
    ensures |r| == |page|
  {
    var lo, hi := Max(va, v * PGSIZE), Min(va + |data|, (v + 1) * PGSIZE);
    if lo < hi && |page| == ENTRIES then CopyBytes(page, lo - v * PGSIZE, data[lo - va..hi - va]) else page
  }

  /** Its bytes are the new ones inside the range, and as before outside of it. */
  lemma PatchedByte(page: seq<nat>, v: nat, va: nat, data: seq<nat>, j: nat)
    requires |page| == ENTRIES && Bytes(data) && j < PGSIZE
    ensures var a := v * PGSIZE + j;
      PageByte(Patched(page, v, va, data), j) == if va <= a < va + |data| then data[a - va] else PageByte(page, j)
  {
    hide CopyBytes, PageByte;
    var lo, hi := Max(va, v * PGSIZE), Min(va + |data|, (v + 1) * PGSIZE);
    if lo < hi { CopiedBytes(page, lo - v * PGSIZE, data[lo - va..hi - va], j); }
  }

  lemma PageBytePut(page: seq<nat>, i: nat, b: nat, j: nat)
    requires |page| == ENTRIES && i < PGSIZE && j < PGSIZE && b < 256
    ensures PageByte(PutPageByte(page, i, b), j) == if j == i then b else PageByte(page, j)
  {
    BytePut(page[i / 8], i % 8, b, j % 8);
  }

  lemma {:induction false} CopiedBytes(page: seq<nat>, at: nat, data: seq<nat>, j: nat)
    requires |page| == ENTRIES && at + |data| <= PGSIZE && Bytes(data) && j < PGSIZE
    ensures PageByte(CopyBytes(page, at, data), j) == if at <= j < at + |data| then data[j - at] else PageByte(page, j)
    decreases |data|
  {
    if data != [] {
      var n := |data| - 1;
      CopiedBytes(page, at, data[..n], j);
      PageBytePut(CopyBytes(page, at, data[..n]), at + n, data[n], j);
    }
  }

  /** memmove out of a page. */
  function BytesOf(page: seq<nat>, at: nat, n: nat): (r: seq<nat>)
    requires |page| == ENTRIES && at + n <= PGSIZE
    ensures |r| == n && forall i :: 0 <= i < n ==> r[i] == PageByte(page, at + i)
  {
    if n == 0 then [] else BytesOf(page, at, n - 1) + [PageByte(page, at + n - 1)]
  }

  // ---- user memory by virtual address ----

  /** Where walkaddr finds a page. */
  ghost predicate Reachable(mem: Memory, t: Tree, v: nat)
    requires TreeOk(mem, t)
  {
    v < MAXVPN && IsValid(Entry(mem, t, v)) && IsUser(Entry(mem, t, v))
  }

  /** What user code can reach is among its own pages; page 0 is no memory. */
  ghost predicate UserSpace(mem: Memory, avail: set<nat>, t: Tree, n: nat) {
    && HasTree(mem, avail, t) && Owned(mem, avail, t, 0, n) && 0 !in mem
    && forall v: nat :: Reachable(mem, t, v) ==> v < n
  }

  ghost function UserByte(mem: Memory, t: Tree, a: nat): nat
    requires TreeOk(mem, t)
  {
    var p := Ppn(Entry(mem, t, PageOf(a)));
    if IsPage(mem, p) then PageByte(mem[p], a % PGSIZE) else 0
  }

  ghost predicate SamePage(mem: Memory, mem': Memory, p: nat) {
    p in mem && p in mem' && mem'[p] == mem[p]
  }

  /** A page of user memory written: no entry moves and no other page changes. */
  lemma WritePage(mem: Memory, avail: set<nat>, t: Tree, n: nat, v: nat, page: seq<nat>)
    requires UserSpace(mem, avail, t, n) && v < n && |page| == ENTRIES
    ensures var mem' := mem[Ppn(Entry(mem, t, v)) := page];
      && UserSpace(mem', avail, t, n) && SameEntries(mem, t, mem', t) && mem'.Keys == mem.Keys
      && (forall w: nat :: w < n && w != v ==> SamePage(mem, mem', Ppn(Entry(mem, t, w))))
  {
    var p := Ppn(Entry(mem, t, v));
    assert OwnsAt(mem, avail, t, v);
    var mem' := mem[p := page];
    OtherPages(mem, mem', t);
    hide TreeOk, Entry, Ppn, IsLeaf, IsValid, IsUser;
    forall w: nat | w < n ensures OwnsAt(mem', avail, t, w) { assert OwnsAt(mem, avail, t, w); }
    forall w: nat | Reachable(mem', t, w) ensures w < n { assert Reachable(mem, t, w); }
    forall w: nat | w < n && w != v ensures SamePage(mem, mem', Ppn(Entry(mem, t, w))) {
      assert OwnsAt(mem, avail, t, w);
    }
  }

  /** The bytes from an address on are these, and all other bytes of user memory are as before. */
  ghost predicate Written(mem: Memory, mem': Memory, t: Tree, n: nat, at: nat, data: seq<nat>)
    requires TreeOk(mem, t) && TreeOk(mem', t)
  {
    forall a: nat :: PageOf(a) < n ==>
      UserByte(mem', t, a) == if at <= a < at + |data| then data[a - at] else UserByte(mem, t, a)
  }

  lemma WrittenNext(m0: Memory, m1: Memory, m2: Memory, t: Tree, n: nat, at: nat, data: seq<nat>, more: seq<nat>)
    requires TreeOk(m0, t) && TreeOk(m1, t) && TreeOk(m2, t)
    requires Written(m0, m1, t, n, at, data) && Written(m1, m2, t, n, at + |data|, more)
    ensures Written(m0, m2, t, n, at, data + more)
  {
    hide TreeOk, UserByte, PageOf;
  }

  /** Every page but the space's own is as it was, and so is the table. */
  ghost predicate OnlyBytes(mem: Memory, avail: set<nat>, t: Tree, n: nat, mem': Memory) {
    && UserSpace(mem, avail, t, n) && UserSpace(mem', avail, t, n) && SameEntries(mem, t, mem', t)
    && mem'.Keys == mem.Keys && Kept(mem, mem', mem.Keys - PagesOf(mem, t, 0, n))
  }

  lemma OnlyBytesTrans(m0: Memory, m1: Memory, m2: Memory, avail: set<nat>, t: Tree, n: nat)
    requires OnlyBytes(m0, avail, t, n, m1) && OnlyBytes(m1, avail, t, n, m2)
    ensures OnlyBytes(m0, avail, t, n, m2)
  {
    PagesSame(m0, t, m1, t, 0, n);
    hide UserSpace, PagesOf, Entry;
  }

  /** Where walkaddr's answer leads. */
  lemma ReachedPage(mem: Memory, avail: set<nat>, t: Tree, n: nat, v: nat)
    requires UserSpace(mem, avail, t, n) && Reachable(mem, t, v)
    ensures v < n && Ppn(Entry(mem, t, v)) > 0 && IsPage(mem, Ppn(Entry(mem, t, v)))
    ensures Ppn(Entry(mem, t, v)) in PagesOf(mem, t, 0, n)
  {
    hide TreeOk, Entry, Ppn, IsLeaf;
    assert OwnsAt(mem, avail, t, v);
  }

  lemma WriteBytes(mem: Memory, avail: set<nat>, t: Tree, n: nat, at: nat, data: seq<nat>)
    requires UserSpace(mem, avail, t, n) && Reachable(mem, t, PageOf(at)) && Bytes(data)
    requires at % PGSIZE + |data| <= PGSIZE
    ensures var p := Ppn(Entry(mem, t, PageOf(at)));
      && IsPage(mem, p)
      && var mem' := mem[p := CopyBytes(mem[p], at % PGSIZE, data)];
         OnlyBytes(mem, avail, t, n, mem') && Written(mem, mem', t, n, at, data)
  {
    var v := PageOf(at);
    ReachedPage(mem, avail, t, n, v);
    var p := Ppn(Entry(mem, t, v));
    var mem' := mem[p := CopyBytes(mem[p], at % PGSIZE, data)];
    WritePage(mem, avail, t, n, v, CopyBytes(mem[p], at % PGSIZE, data));
    hide CopyBytes, TreeOk, Entry, Ppn, Reachable, Owned, UserByte, PageOf, Bytes, UserSpace;
    forall a: nat | PageOf(a) < n
      ensures UserByte(mem', t, a) == if at <= a < at + |data| then data[a - at] else UserByte(mem, t, a)
    {
      if PageOf(a) != v { assert SamePage(mem, mem', Ppn(Entry(mem, t, PageOf(a)))); }
      WriteByte(mem, mem', t, at, data, a);
    }
  }

  lemma WriteByte(mem: Memory, mem': Memory, t: Tree, at: nat, data: seq<nat>, a: nat)
    requires TreeOk(mem, t) && TreeOk(mem', t) && SameEntries(mem, t, mem', t) && Bytes(data)
    requires at % PGSIZE + |data| <= PGSIZE && IsPage(mem, Ppn(Entry(mem, t, PageOf(at))))
    requires var p := Ppn(Entry(mem, t, PageOf(at)));
      p in mem' && mem'[p] == CopyBytes(mem[p], at % PGSIZE, data)
    requires PageOf(a) != PageOf(at) ==> SamePage(mem, mem', Ppn(Entry(mem, t, PageOf(a))))
    ensures UserByte(mem', t, a) == if at <= a < at + |data| then data[a - at] else UserByte(mem, t, a)
  {
    hide TreeOk, Entry, Ppn, CopyBytes;
    SamePlace(at, a, |data|);
    if PageOf(a) == PageOf(at) {
      CopiedBytes(mem[Ppn(Entry(mem, t, PageOf(at)))], at % PGSIZE, data, a % PGSIZE);
    }
  }

  lemma SamePlace(at: nat, a: nat, n: nat)
    requires at % PGSIZE + n <= PGSIZE
    ensures at <= a < at + n ==> PageOf(a) == PageOf(at)
    ensures PageOf(a) == PageOf(at) ==>
      (at <= a < at + n <==> at % PGSIZE <= a % PGSIZE < at % PGSIZE + n) && a - at == a % PGSIZE - at % PGSIZE
  {}

  /** The words of every page of the space, after bytes were put from an address on. */
  ghost predicate PagesPatched(m0: Memory, mem: Memory, t: Tree, n: nat, va: nat, data: seq<nat>)
    requires TreeOk(m0, t)
  {
    forall v: nat :: v < n ==> PagePatched(m0, mem, Ppn(Entry(m0, t, v)), v, va, data)
  }

  ghost predicate PagePatched(m0: Memory, mem: Memory, p: nat, v: nat, va: nat, data: seq<nat>) {
    p in m0 && p in mem && mem[p] == Patched(m0[p], v, va, data)
  }

  /** The next bytes lie in a page that has none yet. */
  lemma PatchedNext(page: seq<nat>, v: nat, va: nat, src: seq<nat>, done: nat, k: nat)
    requires |page| == ENTRIES && done + k <= |src| && (va + done) % PGSIZE + k <= PGSIZE && 0 < k
    requires done == 0 || (va + done) % PGSIZE == 0
    ensures Patched(page, v, va, src[..done + k]) ==
      if v == PageOf(va + done) then CopyBytes(page, (va + done) % PGSIZE, src[done..done + k])
      else Patched(page, v, va, src[..done])
    ensures v == PageOf(va + done) ==> Patched(page, v, va, src[..done]) == page
  {
    hide CopyBytes;
    var at, all := va + done, src[..done + k];
    PageBytes(at);
    var lo, hi := Max(va, v * PGSIZE), Min(va + done + k, (v + 1) * PGSIZE);
    if v == PageOf(at) {
      assert all[done..done + k] == src[done..done + k];
    } else if v < PageOf(at) {
      PagesBelow(v, PageOf(at));
      if lo < hi { SamePrefix(src, done, done + k, lo - va, hi - va); }
    } else {
      PagesBelow(PageOf(at), v);
    }
  }

  lemma SamePrefix(src: seq<nat>, i: nat, j: nat, lo: nat, hi: nat)
    requires lo <= hi <= i <= j <= |src|
    ensures src[..j][lo..hi] == src[..i][lo..hi]
  {}

  lemma PageBytes(at: nat)
    ensures at == PageOf(at) * PGSIZE + at % PGSIZE
  {}

  lemma PagesBelow(v: nat, w: nat)
    requires v < w
    ensures (v + 1) * PGSIZE <= w * PGSIZE
  {}

  lemma PagesPatchedNext(m0: Memory, m1: Memory, avail: set<nat>, t: Tree, n: nat, va: nat, src: seq<nat>, done: nat, k: nat)
    requires UserSpace(m0, avail, t, n) && TreeOk(m1, t) && SameEntries(m0, t, m1, t)
    requires done + k <= |src| && PagesPatched(m0, m1, t, n, va, src[..done]) && (va + done) % PGSIZE + k <= PGSIZE && 0 < k
    requires (done == 0 || (va + done) % PGSIZE == 0) && PageOf(va + done) < n
    ensures var p := Ppn(Entry(m1, t, PageOf(va + done)));
      IsPage(m1, p) && PagesPatched(m0, m1[p := CopyBytes(m1[p], (va + done) % PGSIZE, src[done..done + k])], t, n, va, src[..done + k])
  {
    hide TreeOk, Entry, Ppn, CopyBytes, Patched, PageOf, IsLeaf;
    var at := PageOf(va + done);
    var p := Ppn(Entry(m1, t, at));
    assert PagePatched(m0, m1, p, at, va, src[..done]);
    PageWords(m0, avail, t, n, at);
    PatchedNext(m0[p], at, va, src, done, k);
    var m2 := m1[p := CopyBytes(m1[p], (va + done) % PGSIZE, src[done..done + k])];
    forall v: nat | v < n ensures PagePatched(m0, m2, Ppn(Entry(m0, t, v)), v, va, src[..done + k]) {
      var q := Ppn(Entry(m0, t, v));
      assert PagePatched(m0, m1, q, v, va, src[..done]);
      PageWords(m0, avail, t, n, v);
      PatchedNext(m0[q], v, va, src, done, k);
      assert v != at ==> q != p;
    }
  }

  lemma PageWords(mem: Memory, avail: set<nat>, t: Tree, n: nat, v: nat)
    requires UserSpace(mem, avail, t, n) && v < n
    ensures IsPage(mem, Ppn(Entry(mem, t, v)))
  {
    hide TreeOk, Entry, Ppn, IsLeaf;
    assert OwnsAt(mem, avail, t, v);
  }

  lemma {:induction false} PatchedNone(mem: Memory, avail: set<nat>, t: Tree, n: nat, va: nat)
    requires UserSpace(mem, avail, t, n)
    ensures PagesPatched(mem, mem, t, n, va, [])
  {
    hide TreeOk, Entry, Ppn, IsLeaf;
    forall v: nat | v < n ensures PagePatched(mem, mem, Ppn(Entry(mem, t, v)), v, va, []) { PageWords(mem, avail, t, n, v); }
  }

  /** The first bytes have been copied out. */
  ghost predicate Copied(m0: Memory, mem: Memory, avail: set<nat>, t: Tree, n: nat, va: nat, src: seq<nat>, done: nat) {
    && done <= |src| && OnlyBytes(m0, avail, t, n, mem) && Written(m0, mem, t, n, va, src[..done])
    && PagesPatched(m0, mem, t, n, va, src[..done]) && AllReachable(mem, t, va, done)
  }

  lemma CopiedNone(mem: Memory, avail: set<nat>, t: Tree, n: nat, va: nat, src: seq<nat>)
    requires UserSpace(mem, avail, t, n)
    ensures Copied(mem, mem, avail, t, n, va, src, 0)
  {
    hide OnlyBytes, Written, PagesPatched;
    assert src[..0] == [];
    PatchedNone(mem, avail, t, n, va);
    NothingYet(mem, avail, t, n, va);
    SpaceTree(mem, avail, t, n);
  }

  lemma CopiedMore(m0: Memory, m1: Memory, avail: set<nat>, t: Tree, n: nat, va: nat, src: seq<nat>, done: nat, k: nat)
    requires Copied(m0, m1, avail, t, n, va, src, done) && Bytes(src) && TreeOk(m1, t) && Reachable(m1, t, PageOf(va + done))
    requires done + k <= |src| && (va + done) % PGSIZE + k <= PGSIZE && 0 < k && (done == 0 || (va + done) % PGSIZE == 0)
    ensures var p := Ppn(Entry(m1, t, PageOf(va + done)));
      && IsPage(m1, p)
      && Copied(m0, m1[p := CopyBytes(m1[p], (va + done) % PGSIZE, src[done..done + k])], avail, t, n, va, src, done + k)
  {
    hide TreeOk, Entry, Ppn, CopyBytes, PageOf, Reachable, UserSpace, PagesPatched, Written, AllReachable, PagesOf, Kept;
    var at, piece := va + done, src[done..done + k];
    WriteBytes(m1, avail, t, n, at, piece);
    ReachedPage(m1, avail, t, n, PageOf(at));
    PagesPatchedNext(m0, m1, avail, t, n, va, src, done, k);
    var p := Ppn(Entry(m1, t, PageOf(at)));
    var m2 := m1[p := CopyBytes(m1[p], at % PGSIZE, piece)];
    OnlyBytesTrans(m0, m1, m2, avail, t, n);
    ReachMore(m1, t, va, done, k);
    SpaceTree(m2, avail, t, n);
    SameReach(m1, m2, t, va, done + k);
    SpaceTree(m0, avail, t, n);
    WrittenNext(m0, m1, m2, t, n, va, src[..done], piece);
    assert src[..done] + piece == src[..done + k];
  }

  lemma CopiedSpace(m0: Memory, mem: Memory, avail: set<nat>, t: Tree, n: nat, va: nat, src: seq<nat>, done: nat)
    requires Copied(m0, mem, avail, t, n, va, src, done)
    ensures UserSpace(mem, avail, t, n)
  {}

  /** copyout: the bytes are in user memory from the address on, or as many of them as come before the
      first page that user code cannot reach. */
  method CopyOut(m: Machine, root: nat, dstva: nat, src: seq<nat>, ghost n: nat, ghost t: Tree)
    returns (ok: bool, ghost done: nat)
    requires UserSpace(m.mem, m.avail, t, n) && t[ROOT] == root && Bytes(src)
    modifies m
    ensures m.avail == old(m.avail) && OnlyBytes(old(m.mem), m.avail, t, n, m.mem)
    ensures done <= |src| && Written(old(m.mem), m.mem, t, n, dstva, src[..done])
    ensures PagesPatched(old(m.mem), m.mem, t, n, dstva, src[..done])
    ensures ok <==> done == |src|
    ensures AllReachable(m.mem, t, dstva, done) && (!ok ==> !Reachable(m.mem, t, PageOf(dstva + done)))
  {
    hide Owned, TreeOk, Entry, Reachable, CopyBytes, UserByte, IsValid, IsUser, Ppn, PagesOf, PagesPatched, Written,
      OnlyBytes, AllReachable, UserSpace;
    ghost var m0 := m.mem;
    done := 0;
    var at: nat, len: nat := dstva, |src|;
    CopiedNone(m.mem, m.avail, t, n, dstva, src);
    while len > 0
      invariant done + len == |src| && (len > 0 ==> at == dstva + done && (done == 0 || at % PGSIZE == 0))
      invariant m.avail == old(m.avail) && Copied(m0, m.mem, m.avail, t, n, dstva, src, done)
    {
      CopiedSpace(m0, m.mem, m.avail, t, n, dstva, src, done);
      SpaceTree(m.mem, m.avail, t, n);
      var va0 := at - at % PGSIZE;
      PageStart(at);
      var pa0 := m.WalkAddr(root, va0, t);
      Reaches(m.mem, m.avail, t, n, PageOf(at), pa0);
      if pa0 == 0 {
        return false, done;
      }
      var k := Min(PGSIZE - (at - va0), len);
      CopiedMore(m0, m.mem, m.avail, t, n, dstva, src, done, k);
      var piece := src[|src| - len..|src| - len + k];
      m.mem := m.mem[pa0 / PGSIZE := CopyBytes(m.mem[pa0 / PGSIZE], at - va0, piece)];
      done := done + k;
      len := len - k;
      at := va0 + PGSIZE;
    }
    ok := true;
  }

  lemma PageStart(at: nat)
    ensures at - at % PGSIZE >= 0 && PageOf(at - at % PGSIZE) == PageOf(at) && at - (at - at % PGSIZE) == at % PGSIZE
  {}

  lemma SpaceTree(mem: Memory, avail: set<nat>, t: Tree, n: nat)
    requires UserSpace(mem, avail, t, n)
    ensures HasTree(mem, avail, t) && ROOT in t
  {}

  lemma NothingYet(mem: Memory, avail: set<nat>, t: Tree, n: nat, at: nat)
    requires UserSpace(mem, avail, t, n)
    ensures OnlyBytes(mem, avail, t, n, mem) && Written(mem, mem, t, n, at, [])
  {
    hide TreeOk, Entry;
  }

  /** walkaddr's answer, for a space. */
  lemma Reaches(mem: Memory, avail: set<nat>, t: Tree, n: nat, v: nat, pa: nat)
    requires UserSpace(mem, avail, t, n)
    requires pa == if v < MAXVPN && IsValid(Entry(mem, t, v)) && IsUser(Entry(mem, t, v))
                   then Ppn(Entry(mem, t, v)) * PGSIZE else 0
    ensures pa == 0 <==> !Reachable(mem, t, v)
    ensures Reachable(mem, t, v) ==> pa / PGSIZE == Ppn(Entry(mem, t, v)) && IsPage(mem, pa / PGSIZE)
  {
    if Reachable(mem, t, v) { ReachedPage(mem, avail, t, n, v); }
  }

  /** copyin: the bytes of user memory from an address on, or nothing if user code cannot reach one. */
  method CopyIn(m: Machine, root: nat, srcva: nat, count: nat, ghost n: nat, ghost t: Tree)
    returns (ok: bool, dst: seq<nat>)
    requires UserSpace(m.mem, m.avail, t, n) && t[ROOT] == root
    modifies m
    ensures m.mem == old(m.mem) && m.avail == old(m.avail)
    ensures |dst| <= count && forall i :: 0 <= i < |dst| ==> dst[i] == UserByte(m.mem, t, srcva + i)
    ensures ok <==> |dst| == count
    ensures AllReachable(m.mem, t, srcva, |dst|) && (!ok ==> !Reachable(m.mem, t, PageOf(srcva + |dst|)))
  {
    hide Owned, TreeOk, Entry, Reachable, UserByte, IsValid, IsUser, Ppn, PagesOf;
    dst := [];
    var at: nat, len: nat := srcva, count;
    while len > 0
      invariant |dst| + len == count && (len > 0 ==> at == srcva + |dst|)
      invariant m.mem == old(m.mem) && m.avail == old(m.avail)
      invariant forall i :: 0 <= i < |dst| ==> dst[i] == UserByte(m.mem, t, srcva + i)
      invariant AllReachable(m.mem, t, srcva, |dst|)
    {
      SpaceTree(m.mem, m.avail, t, n);
      var va0 := at - at % PGSIZE;
      PageStart(at);
      var pa0 := m.WalkAddr(root, va0, t);
      Reaches(m.mem, m.avail, t, n, PageOf(at), pa0);
      if pa0 == 0 {
        return false, dst;
      }
      var k := Min(PGSIZE - (at - va0), len);
      var piece := BytesOf(m.mem[pa0 / PGSIZE], at - va0, k);
      ReadBytes(m.mem, t, at, k);
      ReachMore(m.mem, t, srcva, |dst|, k);
      dst := dst + piece;
      len := len - k;
      at := va0 + PGSIZE;
    }
    ok := true;
  }

  lemma ReadBytes(mem: Memory, t: Tree, at: nat, k: nat)
    requires TreeOk(mem, t) && at % PGSIZE + k <= PGSIZE && IsPage(mem, Ppn(Entry(mem, t, PageOf(at))))
    ensures forall i :: 0 <= i < k ==>
      BytesOf(mem[Ppn(Entry(mem, t, PageOf(at)))], at % PGSIZE, k)[i] == UserByte(mem, t, at + i)
  {
    hide TreeOk, Entry, Ppn, BytesOf;
    forall i | 0 <= i < k
      ensures BytesOf(mem[Ppn(Entry(mem, t, PageOf(at)))], at % PGSIZE, k)[i] == UserByte(mem, t, at + i)
    {
      SamePlace(at, at + i, k);
    }
  }

  /** What the kernel puts into user memory it gets back, however many pages it spans, and both copies
      succeed exactly when user code could reach all of it. */
  method OutAndIn(m: Machine, root: nat, va: nat, src: seq<nat>, ghost n: nat, ghost t: Tree)
    returns (ok: bool, dst: seq<nat>)
    requires UserSpace(m.mem, m.avail, t, n) && t[ROOT] == root && Bytes(src)
    modifies m
    ensures ok <==> AllReachable(old(m.mem), t, va, |src|)
    ensures ok ==> dst == src
  {
    hide UserByte, Entry, Bytes, Owned, TreeOk, Reachable, IsValid, IsUser, PagesOf, PageOf;
    ghost var m0 := m.mem;
    ghost var done;
    ok, done := CopyOut(m, root, va, src, n, t);
    SameReach(m.mem, m0, t, va, done);
    dst := [];
    if !ok {
      SameReachAt(m.mem, m0, t, PageOf(va + done));
      return;
    }
    assert src[..done] == src;
    ok, dst := CopyIn(m, root, va, |src|, n, t);
    ReadBack(m0, m.mem, m.avail, t, n, va, src, |dst|);
  }

  lemma ReadBack(m0: Memory, mem: Memory, avail: set<nat>, t: Tree, n: nat, va: nat, src: seq<nat>, k: nat)
    requires TreeOk(m0, t) && UserSpace(mem, avail, t, n) && Written(m0, mem, t, n, va, src)
    requires AllReachable(mem, t, va, |src|) && k <= |src|
    ensures forall i :: 0 <= i < k ==> UserByte(mem, t, va + i) == src[i]
    ensures k < |src| ==> Reachable(mem, t, PageOf(va + k))
  {
    hide UserByte, TreeOk;
    forall i | 0 <= i < k ensures UserByte(mem, t, va + i) == src[i] {
      assert Reachable(mem, t, PageOf(va + i));
    }
  }

  /** User code can reach every byte of a range. */
  ghost predicate AllReachable(mem: Memory, t: Tree, at: nat, len: nat)
    requires TreeOk(mem, t)
  {
    forall a: nat :: at <= a < at + len ==> Reachable(mem, t, PageOf(a))
  }

  lemma ReachMore(mem: Memory, t: Tree, at: nat, done: nat, k: nat)
    requires TreeOk(mem, t) && AllReachable(mem, t, at, done) && Reachable(mem, t, PageOf(at + done))
    requires (at + done) % PGSIZE + k <= PGSIZE
    ensures AllReachable(mem, t, at, done + k)
  {
    hide TreeOk, Reachable;
    forall a: nat | at <= a < at + done + k ensures Reachable(mem, t, PageOf(a)) {
      if a >= at + done { SamePlace(at + done, a, k); }
    }
  }

  lemma SameReachAt(mem: Memory, mem': Memory, t: Tree, v: nat)
    requires TreeOk(mem, t) && TreeOk(mem', t) && (SameEntries(mem, t, mem', t) || SameEntries(mem', t, mem, t))
    ensures Reachable(mem', t, v) <==> Reachable(mem, t, v)
  {
    hide TreeOk, Entry;
  }

  lemma SameReach(mem: Memory, mem': Memory, t: Tree, at: nat, len: nat)
    requires TreeOk(mem, t) && TreeOk(mem', t) && (SameEntries(mem, t, mem', t) || SameEntries(mem', t, mem, t))
    ensures AllReachable(mem, t, at, len) ==> AllReachable(mem', t, at, len)
  {
    hide TreeOk, Reachable;
    if AllReachable(mem, t, at, len) {
      forall a: nat | at <= a < at + len ensures Reachable(mem', t, PageOf(a)) { SameReachAt(mem, mem', t, PageOf(a)); }
    }
  }
}
