/** The binary tree of blocks behind the buddy allocator, and the allocator state
    that a set of pinned blocks determines (kernel/alloc/buddy.c).

    A pinned block is one handed out by buddy_malloc and not yet freed, or one
    leaf of the memory set aside at boot. FreeAt, XorAt and SplitAt say what the
    free lists, the pair bits and the split bits have to be, as a function of the
    pinned blocks alone. */
module BuddyBlocks {
  import opened BitArrays

  datatype Block = Block(level: nat, index: nat)

  /** The index of the ancestor d levels up. */
  function Up(b: nat, d: nat): nat {
    if d == 0 then b else Up(b, d - 1) / 2
  }

  function Buddy(b: nat): nat {
    if b % 2 == 0 then b + 1 else b - 1
  }

  /** x lies inside y (or is y). */
  predicate Within(x: Block, y: Block) {
    x.level <= y.level && Up(x.index, y.level - x.level) == y.index
  }

  predicate Overlap(x: Block, y: Block) {
    Within(x, y) || Within(y, x)
  }

  /** A block of the heap whose single block of level `top` is the whole heap. */
  predicate InHeap(top: nat, x: Block) {
    Within(x, Block(top, 0))
  }

  ghost predicate Avail(pinned: set<Block>, x: Block) {
    forall y :: y in pinned ==> !Overlap(y, x)
  }

  /** x properly contains a pinned block. */
  ghost predicate Divided(pinned: set<Block>, x: Block) {
    exists y :: y in pinned && y.level < x.level && Within(y, x)
  }

  function Parent(x: Block): Block {
    Block(x.level + 1, x.index / 2)
  }

  /** On the free list of its level: available, and the parent is not. */
  ghost predicate FreeAt(top: nat, pinned: set<Block>, x: Block) {
    InHeap(top, x) && Avail(pinned, x) && (x.level == top || !Avail(pinned, Parent(x)))
  }

  /** Pair bit i of level k < top: exactly one of the two buddies is available. */
  ghost predicate XorAt(top: nat, pinned: set<Block>, k: nat, i: nat) {
    InHeap(top, Block(k + 1, i)) && (Avail(pinned, Block(k, 2 * i)) != Avail(pinned, Block(k, 2 * i + 1)))
  }

  ghost predicate SplitAt(top: nat, pinned: set<Block>, x: Block) {
    InHeap(top, x) && Divided(pinned, x)
  }

  /** Pinned blocks lie in the heap, do not overlap, and the first leaf is one of them. */
  ghost predicate Wellformed(top: nat, pinned: set<Block>) {
    && (forall x :: x in pinned ==> InHeap(top, x))
    && (forall x, y :: x in pinned && y in pinned && Overlap(x, y) ==> x == y)
    && Block(0, 0) in pinned
  }

  // ---- the block tree ----

  lemma {:induction false} UpShift(b: nat, d: nat)
    ensures Up(b, d + 1) == Up(b / 2, d)
  {
    if d > 0 { UpShift(b, d - 1); }
  }

  lemma {:induction false} UpAdd(b: nat, d: nat, e: nat)
    ensures Up(Up(b, d), e) == Up(b, d + e)
  {
    if e > 0 { UpAdd(b, d, e - 1); }
  }

  lemma {:induction false} UpZero(d: nat)
    ensures Up(0, d) == 0
  {
    if d > 0 { UpZero(d - 1); }
  }

  lemma WithinTrans(x: Block, y: Block, z: Block)
    requires Within(x, y) && Within(y, z)
    ensures Within(x, z)
  {
    UpAdd(x.index, y.level - x.level, z.level - y.level);
  }

  /** Two blocks that both contain x are nested. */
  lemma Nested(x: Block, y: Block, z: Block)
    requires Within(x, y) && Within(x, z) && y.level <= z.level
    ensures Within(y, z)
  {
    UpAdd(x.index, y.level - x.level, z.level - y.level);
  }

  lemma WithinParent(x: Block, y: Block)
    ensures x.level < y.level ==> (Within(x, y) <==> Within(Parent(x), y))
    ensures Within(x, Parent(x))
  {
    if x.level < y.level { UpShift(x.index, y.level - x.level - 1); }
    assert Up(x.index, 0) == x.index;
    assert Up(x.index, 1) == x.index / 2;
  }

  /** Properly inside a parent means inside one of its two children. */
  lemma WithinChild(x: Block, k: nat, i: nat)
    requires x.level <= k
    ensures Within(x, Block(k + 1, i)) <==> Within(x, Block(k, 2 * i)) || Within(x, Block(k, 2 * i + 1))
  {
    assert Up(x.index, k + 1 - x.level) == Up(x.index, k - x.level) / 2;
  }

  lemma OverlapChildren(y: Block, k: nat, i: nat)
    ensures Overlap(y, Block(k + 1, i)) <==> Overlap(y, Block(k, 2 * i)) || Overlap(y, Block(k, 2 * i + 1))
  {
    if y.level <= k {
      WithinChild(y, k, i);
      if y.level == k { assert Up(y.index, 0) == y.index; }
    } else {
      WithinParent(Block(k, 2 * i), y);
      WithinParent(Block(k, 2 * i + 1), y);
      if y.level == k + 1 { assert Up(y.index, 0) == y.index; assert Up(i, 0) == i; }
    }
  }

  lemma OverlapUp(y: Block, x: Block, z: Block)
    requires Overlap(y, x) && Within(x, z)
    ensures Overlap(y, z)
  {
    if Within(y, x) {
      WithinTrans(y, x, z);
    } else if y.level <= z.level {
      Nested(x, y, z);
    } else {
      Nested(x, z, y);
    }
  }

  // ---- availability ----

  lemma AvailDown(pinned: set<Block>, x: Block, z: Block)
    requires Avail(pinned, z) && Within(x, z)
    ensures Avail(pinned, x)
  {
    forall y | y in pinned ensures !Overlap(y, x) {
      if Overlap(y, x) { OverlapUp(y, x, z); }
    }
  }

  lemma AvailChildren(pinned: set<Block>, k: nat, i: nat)
    ensures Avail(pinned, Block(k + 1, i)) <==> Avail(pinned, Block(k, 2 * i)) && Avail(pinned, Block(k, 2 * i + 1))
  {
    forall y | y in pinned
      ensures Overlap(y, Block(k + 1, i)) <==> Overlap(y, Block(k, 2 * i)) || Overlap(y, Block(k, 2 * i + 1))
    {
      OverlapChildren(y, k, i);
    }
  }

  lemma AvailAdd(pinned: set<Block>, y: Block, x: Block)
    ensures Avail(pinned + {y}, x) <==> Avail(pinned, x) && !Overlap(y, x)
  {}

  /** The whole heap is never available, and always divided. */
  lemma TopPinned(top: nat, pinned: set<Block>)
    requires Wellformed(top, pinned)
    ensures !Avail(pinned, Block(top, 0))
    ensures top > 0 ==> Divided(pinned, Block(top, 0))
  {
    UpZero(top);
    assert Within(Block(0, 0), Block(top, 0));
  }

  /** The parent of a pinned block is divided. */
  lemma DividedAbove(top: nat, pinned: set<Block>, x: Block)
    requires Wellformed(top, pinned) && x in pinned && x.level < top
    ensures SplitAt(top, pinned, Parent(x))
    ensures Up(x.index, 1) == x.index / 2
  {
    WithinParent(x, Block(top, 0));
    WithinParent(x, x);
    assert Up(x.index, 0) == x.index;
  }

  /** Nothing inside a pinned block is divided. */
  lemma WholeInside(top: nat, pinned: set<Block>, x: Block, z: Block)
    requires Wellformed(top, pinned) && x in pinned && Within(z, x)
    ensures InHeap(top, z) && !SplitAt(top, pinned, z)
  {
    WithinTrans(z, x, Block(top, 0));
    if Divided(pinned, z) {
      var y :| y in pinned && y.level < z.level && Within(y, z);
      WithinTrans(y, z, x);
    }
  }

  // ---- pinning a free block ----

  /** x is available but its parent is not, so only blocks inside x lose by pinning x. */
  lemma PinAvail(pinned: set<Block>, x: Block, z: Block)
    requires Avail(pinned, x) && !Avail(pinned, Parent(x))
    ensures Avail(pinned + {x}, z) <==> Avail(pinned, z) && !Within(z, x)
  {
    AvailAdd(pinned, x, z);
    if Within(x, z) && Avail(pinned, z) {
      WithinParent(x, z);
      if x.level < z.level { AvailDown(pinned, Parent(x), z); }
      assert Up(x.index, 0) == x.index;
    }
  }

  /** Only x itself leaves the free lists. */
  lemma PinFree(top: nat, pinned: set<Block>, x: Block, z: Block)
    requires FreeAt(top, pinned, x) && x.level < top
    ensures FreeAt(top, pinned + {x}, z) <==> FreeAt(top, pinned, z) && z != x
  {
    PinAvail(pinned, x, z);
    PinAvail(pinned, x, Parent(z));
    WithinParent(z, x);
    WithinParent(z, z);
    assert Up(z.index, 0) == z.index;
    if Within(Parent(z), x) {
      WithinTrans(z, Parent(z), x);
      AvailDown(pinned, Parent(z), x);
    }
  }

  /** Only the pair bit of x itself flips. */
  lemma PinXor(top: nat, pinned: set<Block>, x: Block, k: nat, i: nat)
    requires FreeAt(top, pinned, x) && x.level < top
    ensures XorAt(top, pinned + {x}, k, i) <==> (XorAt(top, pinned, k, i) != (k == x.level && i == x.index / 2))
  {
    var l, r := Block(k, 2 * i), Block(k, 2 * i + 1);
    PinAvail(pinned, x, l);
    PinAvail(pinned, x, r);
    WithinParent(l, x);
    WithinParent(r, x);
    assert Up(2 * i, 0) == 2 * i && Up(2 * i + 1, 0) == 2 * i + 1;
    if k < x.level && Within(l, x) {
      AvailDown(pinned, l, x);
      AvailDown(pinned, r, x);
    }
    if k == x.level && i == x.index / 2 {
      WithinParent(x, Block(top, 0));
    }
  }

  /** The parent of x contains a pinned block on the buddy's side. */
  lemma ParentDivided(pinned: set<Block>, x: Block)
    requires Avail(pinned, x) && !Avail(pinned, Parent(x))
    ensures Divided(pinned, Parent(x))
  {
    var y :| y in pinned && Overlap(y, Parent(x));
    if y.level > x.level {
      WithinParent(x, y);
    }
  }

  /** No split bit changes: every block around x is divided already. */
  lemma PinSplit(top: nat, pinned: set<Block>, x: Block, z: Block)
    requires FreeAt(top, pinned, x) && x.level < top
    ensures SplitAt(top, pinned + {x}, z) <==> SplitAt(top, pinned, z)
  {
    if x.level < z.level && Within(x, z) {
      ParentDivided(pinned, x);
      var y :| y in pinned && y.level < x.level + 1 && Within(y, Parent(x));
      WithinParent(x, z);
      WithinTrans(y, Parent(x), z);
    }
  }

  lemma PinWellformed(top: nat, pinned: set<Block>, x: Block)
    requires Wellformed(top, pinned) && InHeap(top, x) && Avail(pinned, x)
    ensures Wellformed(top, pinned + {x}) && x !in pinned
  {
    assert Up(x.index, 0) == x.index;
  }

  // ---- exchanging a pinned block for its pinned parent ----

  /** With the parent c of x available in `rest`, pinning x instead of c makes exactly
      the buddy of x, and what lies inside it, available. */
  lemma HalveAvail(rest: set<Block>, x: Block, z: Block)
    requires Avail(rest, Parent(x))
    ensures Avail(rest + {x}, z) <==> Avail(rest + {Parent(x)}, z) || Within(z, Block(x.level, Buddy(x.index)))
  {
    var c, s := Parent(x), Block(x.level, Buddy(x.index));
    AvailAdd(rest, x, z);
    AvailAdd(rest, c, z);
    WithinParent(x, c);
    WithinParent(s, c);
    if Overlap(x, z) { OverlapUp(z, x, c); }
    if z.level <= x.level {
      WithinChild(z, x.level, x.index / 2);
      if Within(z, s) { AvailDown(rest, s, c); AvailDown(rest, z, s); }
      if Within(z, c) { AvailDown(rest, z, c); }
    } else {
      WithinParent(x, z);
    }
  }

  /** Halving puts the buddy, and nothing else, on a free list. */
  lemma HalveFree(top: nat, rest: set<Block>, x: Block, z: Block)
    requires Avail(rest, Parent(x)) && InHeap(top, Parent(x))
    ensures var s := Block(x.level, Buddy(x.index));
      && (FreeAt(top, rest + {x}, z) <==> FreeAt(top, rest + {Parent(x)}, z) || z == s)
      && !FreeAt(top, rest + {Parent(x)}, s)
  {
    var c, s := Parent(x), Block(x.level, Buddy(x.index));
    HalveAvail(rest, x, z);
    HalveAvail(rest, x, Parent(z));
    WithinParent(s, c);
    WithinParent(z, s);
    WithinParent(z, z);
    WithinTrans(s, c, Block(top, 0));
    AvailAdd(rest, c, s);
    AvailAdd(rest, c, c);
    HalveAvail(rest, x, c);
    WithinParent(c, c);
    if Within(Parent(z), s) { WithinTrans(z, Parent(z), s); }
    if Within(z, s) { AvailAdd(rest, c, z); WithinTrans(z, s, c); }
    assert Up(z.index, 0) == z.index;
  }

  /** Halving flips the pair bit of the two halves, and no other. */
  lemma HalveXor(top: nat, rest: set<Block>, x: Block, k: nat, i: nat)
    requires Avail(rest, Parent(x)) && InHeap(top, Parent(x))
    ensures XorAt(top, rest + {x}, k, i)
       <==> (XorAt(top, rest + {Parent(x)}, k, i) != (k == x.level && i == x.index / 2))
  {
    var c, s := Parent(x), Block(x.level, Buddy(x.index));
    var l, r := Block(k, 2 * i), Block(k, 2 * i + 1);
    HalveAvail(rest, x, l);
    HalveAvail(rest, x, r);
    WithinParent(l, s);
    WithinParent(r, s);
    assert Up(2 * i, 0) == 2 * i && Up(2 * i + 1, 0) == 2 * i + 1;
    WithinParent(s, c);
    AvailAdd(rest, c, l);
    AvailAdd(rest, c, r);
    if k < x.level && Within(l, s) {
      WithinTrans(l, s, c);
      WithinTrans(r, s, c);
    }
  }

  /** Halving sets the split bit of the parent, and no other. */
  lemma HalveSplit(top: nat, rest: set<Block>, x: Block, z: Block)
    requires Avail(rest, Parent(x)) && InHeap(top, Parent(x))
    ensures SplitAt(top, rest + {x}, z) <==> SplitAt(top, rest + {Parent(x)}, z) || z == Parent(x)
    ensures !SplitAt(top, rest + {Parent(x)}, Parent(x))
  {
    var c := Parent(x);
    WithinParent(x, z);
    WithinParent(x, c);
    assert Up(c.index, 0) == c.index;
    if SplitAt(top, rest + {x}, z) {
      var y :| y in rest + {x} && y.level < z.level && Within(y, z);
      if y == x && z != c { assert Within(c, z) && c in rest + {c}; } else if y != x { assert y in rest + {c}; }
    }
    if z == c { assert x in rest + {x}; }
    if SplitAt(top, rest + {c}, z) {
      var y :| y in rest + {c} && y.level < z.level && Within(y, z);
      if y == c { assert Within(x, z) && x in rest + {x}; } else { assert y in rest + {x}; }
    }
  }

  // ---- searching ----

  /** Every available block lies inside a block of the free lists. */
  lemma {:induction false} FreeAncestor(top: nat, pinned: set<Block>, x: Block) returns (z: Block)
    requires InHeap(top, x) && Avail(pinned, x)
    ensures Within(x, z) && FreeAt(top, pinned, z)
    decreases top - x.level
  {
    if x.level == top || !Avail(pinned, Parent(x)) {
      z := x;
      assert Up(x.index, 0) == x.index;
    } else {
      WithinParent(x, Block(top, 0));
      z := FreeAncestor(top, pinned, Parent(x));
      WithinParent(x, z);
      WithinTrans(x, Parent(x), z);
    }
  }

  /** Blocks of the free lists never overlap. */
  lemma FreeApart(top: nat, pinned: set<Block>, x: Block, y: Block)
    requires FreeAt(top, pinned, x) && FreeAt(top, pinned, y) && Overlap(x, y)
    ensures x == y
  {
    assert Up(x.index, 0) == x.index && Up(y.index, 0) == y.index;
    if x.level < y.level {
      WithinParent(x, y);
      AvailDown(pinned, Parent(x), y);
    } else if y.level < x.level {
      WithinParent(y, x);
      AvailDown(pinned, Parent(y), x);
    }
  }

  // ---- the state of the size groups ----

  ghost predicate ListsFit(top: nat, pinned: set<Block>, F: seq<set<nat>>) {
    |F| == top + 1 && forall k, b: nat :: 0 <= k <= top ==> (b in F[k] <==> FreeAt(top, pinned, Block(k, b)))
  }

  ghost predicate PairsFit(top: nat, pinned: set<Block>, X: seq<set<nat>>) {
    |X| == top + 1 && forall k, i: nat :: 0 <= k < top ==> (i in X[k] <==> XorAt(top, pinned, k, i))
  }

  ghost predicate SplitsFit(top: nat, pinned: set<Block>, S: seq<set<nat>>) {
    |S| == top + 1 && forall k, b: nat :: 0 < k <= top ==> (b in S[k] <==> SplitAt(top, pinned, Block(k, b)))
  }

  /** Free lists F (as sets of block indices), pair bits X and split bits S are the
      ones that the pinned blocks determine. Pair bits of level `top` and split bits
      of level 0 are never consulted. */
  ghost predicate Canonical(top: nat, pinned: set<Block>, F: seq<set<nat>>, X: seq<set<nat>>, S: seq<set<nat>>) {
    ListsFit(top, pinned, F) && PairsFit(top, pinned, X) && SplitsFit(top, pinned, S)
  }

  /** The state of the size groups depends on the pinned blocks only. */
  lemma CanonicalUnique(top: nat, pinned: set<Block>, F: seq<set<nat>>, X: seq<set<nat>>, S: seq<set<nat>>,
                        F': seq<set<nat>>, X': seq<set<nat>>, S': seq<set<nat>>)
    requires Canonical(top, pinned, F, X, S) && Canonical(top, pinned, F', X', S')
    ensures F == F' && X[..top] == X'[..top] && S[1..] == S'[1..]
  {
    forall k | 0 <= k <= top ensures F[k] == F'[k] && (k < top ==> X[k] == X'[k]) && (0 < k ==> S[k] == S'[k]) {
      assert forall b :: b in F[k] <==> b in F'[k];
      if k < top { assert forall i :: i in X[k] <==> i in X'[k]; }
      if 0 < k { assert forall b :: b in S[k] <==> b in S'[k]; }
    }
  }

  lemma PinLists(top: nat, pinned: set<Block>, x: Block, F: seq<set<nat>>)
    requires FreeAt(top, pinned, x) && x.level < top && |F| == top + 1
    ensures ListsFit(top, pinned, F) ==> ListsFit(top, pinned + {x}, F[x.level := F[x.level] - {x.index}])
    ensures ListsFit(top, pinned + {x}, F) ==> ListsFit(top, pinned, F[x.level := F[x.level] + {x.index}])
  {
    forall j, b: nat | 0 <= j <= top
      ensures FreeAt(top, pinned + {x}, Block(j, b)) <==> FreeAt(top, pinned, Block(j, b)) && Block(j, b) != x
    {
      PinFree(top, pinned, x, Block(j, b));
    }
  }

  lemma PinPairs(top: nat, pinned: set<Block>, x: Block, X: seq<set<nat>>)
    requires FreeAt(top, pinned, x) && x.level < top && |X| == top + 1
    ensures PairsFit(top, pinned, X) ==> PairsFit(top, pinned + {x}, X[x.level := Toggle(X[x.level], x.index / 2)])
    ensures PairsFit(top, pinned + {x}, X) ==> PairsFit(top, pinned, X[x.level := Toggle(X[x.level], x.index / 2)])
  {
    forall j, i: nat | 0 <= j < top
      ensures XorAt(top, pinned + {x}, j, i) <==> (XorAt(top, pinned, j, i) != (j == x.level && i == x.index / 2))
    {
      PinXor(top, pinned, x, j, i);
    }
  }

  lemma PinSplits(top: nat, pinned: set<Block>, x: Block, S: seq<set<nat>>)
    requires FreeAt(top, pinned, x) && x.level < top
    ensures SplitsFit(top, pinned, S) <==> SplitsFit(top, pinned + {x}, S)
  {
    forall j, b: nat | 0 < j <= top
      ensures SplitAt(top, pinned + {x}, Block(j, b)) <==> SplitAt(top, pinned, Block(j, b))
    {
      PinSplit(top, pinned, x, Block(j, b));
    }
  }

  /** Taking a free block off its list and flipping its pair bit pins it; flipping the
      bit of a pinned block and putting it back on its list unpins it. */
  lemma PinCanonical(top: nat, pinned: set<Block>, x: Block, F: seq<set<nat>>, X: seq<set<nat>>, S: seq<set<nat>>)
    requires FreeAt(top, pinned, x) && x.level < top && |F| == |X| == |S| == top + 1
    ensures var k, X' := x.level, X[x.level := Toggle(X[x.level], x.index / 2)];
      && (Canonical(top, pinned, F, X, S) ==> Canonical(top, pinned + {x}, F[k := F[k] - {x.index}], X', S))
      && (Canonical(top, pinned + {x}, F, X, S) ==> Canonical(top, pinned, F[k := F[k] + {x.index}], X', S))
  {
    PinLists(top, pinned, x, F);
    PinPairs(top, pinned, x, X);
    PinSplits(top, pinned, x, S);
  }

  lemma HalveLists(top: nat, rest: set<Block>, x: Block, F: seq<set<nat>>)
    requires Avail(rest, Parent(x)) && InHeap(top, Parent(x)) && |F| == top + 1
    ensures ListsFit(top, rest + {Parent(x)}, F)
        ==> ListsFit(top, rest + {x}, F[x.level := F[x.level] + {Buddy(x.index)}])
    ensures ListsFit(top, rest + {x}, F)
        ==> ListsFit(top, rest + {Parent(x)}, F[x.level := F[x.level] - {Buddy(x.index)}])
  {
    var s := Block(x.level, Buddy(x.index));
    forall j, b: nat | 0 <= j <= top
      ensures FreeAt(top, rest + {x}, Block(j, b)) <==> FreeAt(top, rest + {Parent(x)}, Block(j, b)) || Block(j, b) == s
      ensures !FreeAt(top, rest + {Parent(x)}, s)
    {
      HalveFree(top, rest, x, Block(j, b));
    }
    HalveFree(top, rest, x, s);
  }

  lemma HalvePairs(top: nat, rest: set<Block>, x: Block, X: seq<set<nat>>)
    requires Avail(rest, Parent(x)) && InHeap(top, Parent(x)) && |X| == top + 1
    ensures var X' := X[x.level := Toggle(X[x.level], x.index / 2)];
      && (PairsFit(top, rest + {Parent(x)}, X) ==> PairsFit(top, rest + {x}, X'))
      && (PairsFit(top, rest + {x}, X) ==> PairsFit(top, rest + {Parent(x)}, X'))
  {
    forall j, i: nat | 0 <= j < top
      ensures XorAt(top, rest + {x}, j, i)
         <==> (XorAt(top, rest + {Parent(x)}, j, i) != (j == x.level && i == x.index / 2))
    {
      HalveXor(top, rest, x, j, i);
    }
  }

  lemma HalveSplits(top: nat, rest: set<Block>, x: Block, S: seq<set<nat>>)
    requires Avail(rest, Parent(x)) && InHeap(top, Parent(x)) && |S| == top + 1
    ensures SplitsFit(top, rest + {Parent(x)}, S)
        ==> SplitsFit(top, rest + {x}, S[x.level + 1 := S[x.level + 1] + {x.index / 2}])
    ensures SplitsFit(top, rest + {x}, S)
        ==> SplitsFit(top, rest + {Parent(x)}, S[x.level + 1 := S[x.level + 1] - {x.index / 2}])
  {
    var c := Parent(x);
    forall j, b: nat | 0 < j <= top
      ensures SplitAt(top, rest + {x}, Block(j, b)) <==> SplitAt(top, rest + {c}, Block(j, b)) || Block(j, b) == c
    {
      HalveSplit(top, rest, x, Block(j, b));
    }
    HalveSplit(top, rest, x, c);
  }

  /** One round of the splitting loop of buddy_malloc, from a pinned parent to a pinned half. */
  lemma HalveCanonical(top: nat, rest: set<Block>, x: Block, F: seq<set<nat>>, X: seq<set<nat>>, S: seq<set<nat>>)
    requires Avail(rest, Parent(x)) && InHeap(top, Parent(x))
    requires Canonical(top, rest + {Parent(x)}, F, X, S)
    ensures var k := x.level;
      Canonical(top, rest + {x}, F[k := F[k] + {Buddy(x.index)}], X[k := Toggle(X[k], x.index / 2)],
                S[k + 1 := S[k + 1] + {x.index / 2}])
  {
    HalveLists(top, rest, x, F);
    HalvePairs(top, rest, x, X);
    HalveSplits(top, rest, x, S);
  }

  /** One round of the merging loop of buddy_free, from a pinned half to its pinned parent. */
  lemma MergeCanonical(top: nat, rest: set<Block>, x: Block, F: seq<set<nat>>, X: seq<set<nat>>, S: seq<set<nat>>)
    requires Avail(rest, Parent(x)) && InHeap(top, Parent(x))
    requires Canonical(top, rest + {x}, F, X, S)
    ensures var k := x.level;
      Canonical(top, rest + {Parent(x)}, F[k := F[k] - {Buddy(x.index)}], X[k := Toggle(X[k], x.index / 2)],
                S[k + 1 := S[k + 1] - {x.index / 2}])
  {
    HalveLists(top, rest, x, F);
    HalvePairs(top, rest, x, X);
    HalveSplits(top, rest, x, S);
  }

  /** Exactly one half of a pair is on the free list when the pair bit is set. */
  lemma BuddyState(top: nat, rest: set<Block>, x: Block)
    requires InHeap(top, x) && x.level < top && Avail(rest, x)
    ensures var s := Block(x.level, Buddy(x.index));
      && (XorAt(top, rest + {x}, x.level, x.index / 2) <==> Avail(rest, s))
      && (Avail(rest, s) ==> Avail(rest, Parent(x)) && FreeAt(top, rest + {x}, s))
      && (!Avail(rest, s) ==> FreeAt(top, rest, x))
  {
    var s := Block(x.level, Buddy(x.index));
    AvailChildren(rest, x.level, x.index / 2);
    AvailAdd(rest, x, s);
    AvailAdd(rest, x, x);
    AvailAdd(rest, x, Parent(x));
    assert Up(x.index, 0) == x.index && Up(s.index, 0) == s.index;
    WithinParent(x, Block(top, 0));
    WithinParent(s, Block(top, 0));
    WithinParent(x, x);
  }
}
