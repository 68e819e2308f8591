/** What buddy_init sets aside, and the free blocks it must leave
    (kernel/alloc/buddy.c, bd_mark, bd_initfree and buddy_init). Positions are counted
    in leaves; `meta` is the end of the metadata and `usable` the end of the memory. */
module BuddyBoot {
  import opened BuddyBlocks
  import opened BuddyAddresses

  /** Every leaf outside [meta, usable) is pinned for ever. */
  ghost function Reserved(top: nat, meta: nat, usable: nat): set<Block> {
    set i: nat | i < Pow2(top) && !(meta <= i < usable) :: Block(0, i)
  }

  /** blk_index_next of the metadata end: the first block of level k right of it. */
  function CeilUp(m: nat, k: nat): nat {
    if k == 0 then m else (CeilUp(m, k - 1) + 1) / 2
  }

  /** A heap that the boot code can lay out: metadata in the first quarter, the end of
      the memory in the second half and short of the end of the heap. */
  predicate Layout(top: nat, meta: nat, usable: nat) {
    2 <= top && 0 < meta <= Pow2(top - 2) && Pow2(top - 1) <= usable < Pow2(top)
  }

  // ---- availability at boot ----

  lemma {:induction false} BootAvail(top: nat, meta: nat, usable: nat, x: Block)
    requires InHeap(top, x)
    ensures Avail(Reserved(top, meta, usable), x) <==> CeilUp(meta, x.level) <= x.index < Up(usable, x.level)
    decreases x.level
  {
    var R := Reserved(top, meta, usable);
    if x.level == 0 {
      InHeapBound(top, x);
      assert Up(x.index, 0) == x.index;
      if !(meta <= x.index < usable) { assert x in R; }
    } else {
      var k, i := x.level - 1, x.index;
      var l, r := Block(k, 2 * i), Block(k, 2 * i + 1);
      WithinParent(l, x);
      WithinParent(r, x);
      WithinTrans(l, x, Block(top, 0));
      WithinTrans(r, x, Block(top, 0));
      BootAvail(top, meta, usable, l);
      BootAvail(top, meta, usable, r);
      AvailChildren(R, k, i);
    }
  }

  /** Above the leaves, divided and not available are the same thing at boot. */
  lemma BootDivided(top: nat, meta: nat, usable: nat, x: Block)
    requires x.level > 0
    ensures Divided(Reserved(top, meta, usable), x) <==> !Avail(Reserved(top, meta, usable), x)
  {}

  lemma BootWellformed(top: nat, meta: nat, usable: nat)
    requires 0 < meta
    ensures Wellformed(top, Reserved(top, meta, usable))
  {
    forall x | x in Reserved(top, meta, usable) ensures InHeap(top, x) {
      InHeapBound(top, x);
    }
    assert forall b :: Up(b, 0) == b;
  }

  // ---- the two boundaries, level by level ----

  lemma {:induction false} Boundaries(top: nat, meta: nat, usable: nat, k: nat)
    requires Layout(top, meta, usable) && k < top
    ensures 0 < CeilUp(meta, k) && (k < top - 1 ==> CeilUp(meta, k) <= Pow2(top - 2 - k))
    ensures Pow2(top - 1 - k) <= Up(usable, k) < Pow2(top - k)
    ensures k == top - 1 ==> CeilUp(meta, k) == 1
  {
    if k > 0 { Boundaries(top, meta, usable, k - 1); }
  }

  /** The boundaries never cross, and one free block between them is an odd left one:
      no block is found both from the left and from the right. */
  lemma NoClash(top: nat, meta: nat, usable: nat, k: nat)
    requires Layout(top, meta, usable) && k < top
    ensures CeilUp(meta, k) <= Up(usable, k)
    ensures CeilUp(meta, k) % 2 == 0 ==> Up(usable, k) != CeilUp(meta, k) + 1
    ensures k == top - 1 ==> CeilUp(meta, k) == Up(usable, k) == 1
  {
    Boundaries(top, meta, usable, k);
  }

  /** The free blocks of level k at boot: at most one at each boundary. */
  ghost function BootFree(l: nat, r: nat): set<nat> {
    if l < r then (if l % 2 == 1 then {l} else {}) + (if r % 2 == 1 then {r - 1} else {}) else {}
  }

  lemma BootFreeAt(top: nat, meta: nat, usable: nat, k: nat, b: nat)
    requires Layout(top, meta, usable) && k < top
    ensures b in BootFree(CeilUp(meta, k), Up(usable, k)) <==> FreeAt(top, Reserved(top, meta, usable), Block(k, b))
  {
    var R := Reserved(top, meta, usable);
    var x := Block(k, b);
    Boundaries(top, meta, usable, k);
    WithinParent(x, Block(top, 0));
    InHeapBound(top, x);
    if InHeap(top, x) {
      BootAvail(top, meta, usable, x);
      BootAvail(top, meta, usable, Parent(x));
    }
  }

  lemma BootTop(top: nat, meta: nat, usable: nat, b: nat)
    requires 0 < meta
    ensures !FreeAt(top, Reserved(top, meta, usable), Block(top, b))
  {
    BootWellformed(top, meta, usable);
    TopPinned(top, Reserved(top, meta, usable));
    assert Up(b, 0) == b;
  }

  /** The pair bits after marking [0, l) and [r, end) by switching each block's bit. */
  ghost predicate PairMarked(l: nat, r: nat, i: nat) {
    ((2 * i < l) != (2 * i + 1 < l)) != ((2 * i >= r) != (2 * i + 1 >= r))
  }

  lemma BootXorAt(top: nat, meta: nat, usable: nat, k: nat, i: nat)
    requires Layout(top, meta, usable) && k < top
    ensures XorAt(top, Reserved(top, meta, usable), k, i) <==> PairMarked(CeilUp(meta, k), Up(usable, k), i)
  {
    hide Layout, Avail;
    NoClash(top, meta, usable, k);
    if InHeap(top, Block(k + 1, i)) {
      var l, r := Block(k, 2 * i), Block(k, 2 * i + 1);
      WithinParent(l, Block(top, 0));
      WithinParent(r, Block(top, 0));
      BootAvail(top, meta, usable, l);
      BootAvail(top, meta, usable, r);
    } else {
      BeyondHeap(top, meta, usable, k, i);
    }
  }

  lemma BeyondHeap(top: nat, meta: nat, usable: nat, k: nat, i: nat)
    requires Layout(top, meta, usable) && k < top && !InHeap(top, Block(k + 1, i))
    ensures 2 * i >= Up(usable, k)
  {
    Boundaries(top, meta, usable, k);
    InHeapBound(top, Block(k + 1, i));
  }

  // ---- the index helpers on the boundaries ----

  /** blk_index_next */
  function BlkIndexNext(k: nat, p: nat): nat {
    if Mod(p, BlkSize(k)) != 0 then BlkIndex(k, p) + 1 else BlkIndex(k, p)
  }

  lemma {:induction false} CeilBounds(m: nat, k: nat)
    ensures (CeilUp(m, k) - 1) * Pow2(k) < m || m == CeilUp(m, k) == 0
    ensures m <= CeilUp(m, k) * Pow2(k)
  {
    if k > 0 {
      CeilBounds(m, k - 1);
      CeilHalf(m, CeilUp(m, k - 1), Pow2(k - 1));
    }
  }

  lemma CeilHalf(m: nat, c: nat, h: nat)
    requires (c - 1) * h < m <= c * h
    ensures ((c + 1) / 2 - 1) * (2 * h) < m <= ((c + 1) / 2) * (2 * h)
  {
    var d := (c + 1) / 2;
    assert d * (2 * h) == (2 * d) * h;
    if c == 2 * d {
      assert (d - 1) * (2 * h) == (c - 1) * h - h;
    } else {
      assert c == 2 * d - 1;
      assert (d - 1) * (2 * h) == (c - 1) * h;
      assert (2 * d) * h == c * h + h;
    }
  }

  lemma CeilUnique(m: nat, c: nat, d: nat, h: nat)
    requires (c - 1) * h < m <= c * h && (d - 1) * h < m <= d * h
    ensures c == d
  {
    if c != d {
      var t := c - d;
      assert t * h == c * h - d * h && (c - 1) * h == c * h - h && (d - 1) * h == d * h - h;
      AtLeastOnce(t, h);
    }
  }

  lemma NextIsCeil(k: nat, m: nat)
    ensures BlkIndexNext(k, LEAF_SIZE * m) == CeilUp(m, k)
  {
    var q, r := Div(m, Pow2(k)), Mod(m, Pow2(k));
    ScaledDiv(m, Pow2(k), q, r);
    CeilBounds(m, k);
    if m > 0 { CeilParts(m, Pow2(k), q, r, CeilUp(m, k)); }
  }

  lemma ScaledDiv(m: nat, P: nat, q: nat, r: nat)
    requires P > 0 && q == Div(m, P) && r == Mod(m, P)
    ensures m == q * P + r
    ensures Div(LEAF_SIZE * m, P * LEAF_SIZE) == q && Mod(LEAF_SIZE * m, P * LEAF_SIZE) == LEAF_SIZE * r
  {
    assert m == q * P + r;
    Scale(q, P, r);
    DivUnique(LEAF_SIZE * m, P * LEAF_SIZE, q, LEAF_SIZE * r);
  }

  lemma Scale(q: nat, P: nat, r: nat)
    ensures LEAF_SIZE * (q * P + r) == q * (P * LEAF_SIZE) + LEAF_SIZE * r
  {}

  lemma CeilParts(m: nat, P: nat, q: nat, r: nat, c: nat)
    requires m == q * P + r && r < P && 0 < m && (c - 1) * P < m <= c * P
    ensures c == if r == 0 then q else q + 1
  {
    assert (q + 1) * P == q * P + P && (q - 1) * P == q * P - P;
    CeilUnique(m, c, if r == 0 then q else q + 1, P);
  }

  lemma IndexIsUp(k: nat, u: nat)
    ensures BlkIndex(k, LEAF_SIZE * u) == Up(u, k)
  {
    BlkIndexUp(Block(0, u), k);
    assert BlkSize(0) == LEAF_SIZE;
  }

  lemma {:induction false} CeilPow(top: nat, k: nat)
    requires k <= top
    ensures CeilUp(Pow2(top), k) == Pow2(top - k) == Up(Pow2(top), k)
  {
    if k > 0 { CeilPow(top, k - 1); }
  }
}
