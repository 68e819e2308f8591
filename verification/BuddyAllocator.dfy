/** The buddy allocator (kernel/alloc/buddy.c): free lists threaded through the free
    memory, one XOR bit per pair of buddies, one split bit per block above level 0. */
module BuddyAllocator {
  import opened BitArrays
  import opened Options
  import opened FreeLists
  import opened BuddyBlocks
  import opened BuddyAddresses
  import opened BuddyBoot
  import opened BuddyBootCheck
  import opened BuddyMetadata

  /** The list heads are the first fields of the size groups, at the start of the heap. */
  function Head(k: nat): nat {
    GROUP_SIZE * k
  }

  /** Pair i of level k exists; the heap itself, at level top, counts as half of a pair. */
  predicate PairInHeap(top: nat, k: nat, i: nat) {
    if k == top then i == 0 else InHeap(top, Block(k + 1, i))
  }

  /** The ring of list k threads exactly the blocks f of level k. */
  ghost predicate Holds(k: nat, ring: seq<nat>, f: set<nat>) {
    && ring != [] && ring[0] == Head(k)
    && (forall i :: 1 <= i < |ring| ==> BlkIndex(k, ring[i]) in f && ring[i] == Addr(Block(k, BlkIndex(k, ring[i]))))
    && (forall b :: b in f ==> Addr(Block(k, b)) in ring[1..])
  }

  lemma HoldsPush(k: nat, ring: seq<nat>, f: set<nat>, b: nat)
    requires Holds(k, ring, f)
    ensures Holds(k, Behind(ring, Addr(Block(k, b))), f + {b})
  {
    var p := Addr(Block(k, b));
    var r := Behind(ring, p);
    BlkIndexUp(Block(k, b), k);
    assert r[1] == p && r[2..] == ring[1..];
    assert forall i :: 2 <= i < |r| ==> r[i] == ring[i - 1];
    forall c | c in f + {b} ensures Addr(Block(k, c)) in r[1..] {
      if c == b { assert r[1..][0] == p; } else { assert forall q :: q in ring[1..] ==> q in r[1..] by { assert r[1..] == [p] + ring[1..]; } }
    }
  }

  lemma HoldsRemove(k: nat, ring: seq<nat>, f: set<nat>, i: nat, b: nat)
    requires Holds(k, ring, f) && NoDup(ring) && 0 < i < |ring| && ring[i] == Addr(Block(k, b))
    ensures Holds(k, Without(ring, i), f - {b})
  {
    var r := Without(ring, i);
    assert forall j :: 0 <= j < |r| ==> r[j] == ring[if j < i then j else j + 1];
    forall j | 1 <= j < |r|
      ensures BlkIndex(k, r[j]) in f - {b} && r[j] == Addr(Block(k, BlkIndex(k, r[j])))
    {
      var l := if j < i then j else j + 1;
      assert r[j] == ring[l] && ring[l] != ring[i];
    }
    forall c | c in f - {b} ensures Addr(Block(k, c)) in r[1..] {
      var q := Addr(Block(k, c));
      BlkIndexUp(Block(k, c), k);
      BlkIndexUp(Block(k, b), k);
      var j :| 0 <= j < |ring[1..]| && ring[1..][j] == q;
      assert ring[j + 1] == q && j + 1 != i;
      assert r[1..][if j + 1 < i then j else j - 1] == q;
    }
  }

  lemma AddToUnion(a: set<Block>, b: set<Block>, y: Block)
    requires a !! b && y !in a + b
    ensures (a + {y}) + b == (a + b) + {y} && a + {y} !! b
  {}

  lemma HalfPlaces(top: nat, k: nat, p: nat)
    requires 0 < k <= top && p == Addr(Block(k, BlkIndex(k, p))) && InHeap(top, Block(k, BlkIndex(k, p)))
    ensures var c := BlkIndex(k, p);
      && BlkIndex(k - 1, p) == 2 * c && p == Addr(Block(k - 1, 2 * c))
      && p + BlkSize(k - 1) == Addr(Block(k - 1, 2 * c + 1))
      && PairInHeap(top, k - 1, c)
  {
    var c := BlkIndex(k, p);
    LeftHalf(k - 1, c);
    BlkIndexUp(Block(k - 1, 2 * c), k - 1);
  }

  lemma MergePlaces(top: nat, k: nat, bi: nat)
    ensures var p := Addr(Block(k, if bi % 2 == 0 then bi else bi - 1));
      BlkIndex(k + 1, p) == bi / 2 && p == Addr(Block(k + 1, bi / 2))
  {
    LeftHalf(k, bi / 2);
    BlkIndexUp(Block(k + 1, bi / 2), k + 1);
    assert Up(bi / 2, 0) == bi / 2;
  }

  lemma CanonicalLists(top: nat, pinned: set<Block>, F: seq<set<nat>>, X: seq<set<nat>>, S: seq<set<nat>>)
    requires Canonical(top, pinned, F, X, S)
    ensures ListsFit(top, pinned, F) && |F| == |X| == |S| == top + 1
  {}

  /** s is s0 with the positions lo to hi - 1 added. */
  ghost predicate Filled(s0: set<nat>, s: set<nat>, lo: nat, hi: nat) {
    forall b: nat :: b in s <==> b in s0 || lo <= b < hi
  }

  /** Exactly one block of pair i is among lo to hi - 1. */
  ghost predicate PairTouched(lo: nat, hi: nat, i: nat) {
    (lo <= 2 * i < hi) != (lo <= 2 * i + 1 < hi)
  }

  /** x is the pair bits x0 with the pairs of the blocks lo to hi - 1 switched. */
  ghost predicate Touched(x0: set<nat>, x: set<nat>, lo: nat, hi: nat) {
    forall i: nat :: i in x <==> ((i in x0) != PairTouched(lo, hi, i))
  }

  lemma NothingTouched(x: set<nat>, lo: nat, hi: nat)
    ensures hi <= lo ==> Touched(x, x, lo, hi) && Filled(x, x, lo, hi)
  {}

  lemma FillNext(s0: set<nat>, s: set<nat>, lo: nat, hi: nat)
    requires lo <= hi && Filled(s0, s, lo, hi)
    ensures Filled(s0, s + {hi}, lo, hi + 1)
  {}

  lemma TouchNext(x0: set<nat>, x: set<nat>, lo: nat, hi: nat)
    requires lo <= hi && Touched(x0, x, lo, hi)
    ensures Touched(x0, Toggle(x, hi / 2), lo, hi + 1)
  {
    var x' := Toggle(x, hi / 2);
    forall i: nat ensures i in x' <==> ((i in x0) != PairTouched(lo, hi + 1, i)) {
      assert 2 * i == hi || 2 * i + 1 == hi <==> i == hi / 2;
    }
  }

  /** After marking the metadata and the unavailable end, wherever they are. */
  lemma MarkedPairs(top: nat, meta: nat, usable: nat, k: nat, x1: set<nat>, x2: set<nat>, i: nat)
    requires usable < Pow2(top) && k < top
    requires Touched({}, x1, Up(0, k), CeilUp(meta, k)) && Touched(x1, x2, Up(usable, k), CeilUp(Pow2(top), k))
    ensures i in x2 <==> PairMarked(CeilUp(meta, k), Up(usable, k), i)
  {
    UpZero(k);
    CeilPow(top, k);
    UpBelow(top, usable, k);
    var n := Pow2(top - k - 1);
    assert Pow2(top - k) == 2 * n;
    EndOfPairs(Up(usable, k), n, i);
  }

  lemma {:induction false} UpBelow(top: nat, usable: nat, k: nat)
    requires usable < Pow2(top) && k <= top
    ensures Up(usable, k) < Pow2(top - k)
  {
    if k > 0 { UpBelow(top, usable, k - 1); }
  }

  lemma BootPairs(top: nat, meta: nat, usable: nat, k: nat, x: set<nat>, i: nat)
    requires Layout(top, meta, usable) && k < top
    requires i in x <==> PairMarked(CeilUp(meta, k), Up(usable, k), i)
    ensures i in x <==> XorAt(top, Reserved(top, meta, usable), k, i)
  {
    BootXorAt(top, meta, usable, k, i);
  }

  lemma EndOfPairs(r: nat, n: nat, i: nat)
    requires r < 2 * n
    ensures PairTouched(r, 2 * n, i) <==> (2 * i >= r) != (2 * i + 1 >= r)
  {}

  lemma BootSplits(top: nat, meta: nat, usable: nat, k: nat, s1: set<nat>, s2: set<nat>, b: nat)
    requires Layout(top, meta, usable) && 0 < k <= top
    requires Filled({}, s1, Up(0, k), CeilUp(meta, k)) && Filled(s1, s2, Up(usable, k), CeilUp(Pow2(top), k))
    ensures b in s2 <==> SplitAt(top, Reserved(top, meta, usable), Block(k, b))
  {
    hide Layout, Pow2, Avail;
    UpZero(k);
    CeilPow(top, k);
    InHeapBound(top, Block(k, b));
    LayoutBounds(top, meta, usable);
    CeilMono(meta, Pow2(top), k);
    if InHeap(top, Block(k, b)) { BootAvail(top, meta, usable, Block(k, b)); }
    BootDivided(top, meta, usable, Block(k, b));
  }

  lemma LayoutBounds(top: nat, meta: nat, usable: nat)
    requires Layout(top, meta, usable)
    ensures meta <= Pow2(top) && usable < Pow2(top) && top >= 2
  {
    Pow2Mono(top - 2, top);
  }

  /** The pairs of both boundaries exist at every level below the top. */
  lemma BoundaryPairs(top: nat, meta: nat, usable: nat, k: nat)
    requires Layout(top, meta, usable) && k < top
    ensures PairInHeap(top, k, CeilUp(meta, k) / 2) && PairInHeap(top, k, Up(usable, k) / 2)
  {
    Boundaries(top, meta, usable, k);
    NoClash(top, meta, usable, k);
    InHeapBound(top, Block(k + 1, CeilUp(meta, k) / 2));
    InHeapBound(top, Block(k + 1, Up(usable, k) / 2));
    assert Pow2(top - k) == 2 * Pow2(top - k - 1);
  }

  lemma MetaPositive(top: nat, meta: nat, usable: nat)
    requires Layout(top, meta, usable)
    ensures 0 < meta
  {}

  lemma BootLayout(top: nat, size: nat)
    requires top >= 6 && BlkSize(top - 1) < size < BlkSize(top)
    ensures Layout(top, MetaLeaves(top), size / LEAF_SIZE)
    ensures LEAF_SIZE * MetaLeaves(top) == RoundUp(MetaBytes(top), LEAF_SIZE)
    ensures BlkSize(top) - RoundUp(BlkSize(top) - size, LEAF_SIZE) == LEAF_SIZE * (size / LEAF_SIZE)
    ensures 2 * (top + 1) <= MetaLeaves(top)
  {
    hide MetaBytes, RoundUp, Pow2;
    MetaFits(top);
    MetaLeast(top);
    RoundLeaf(MetaBytes(top));
    RoundLeaf(BlkSize(top) - size);
  }

  lemma MetaLeast(top: nat)
    ensures MetaBytes(top) >= GROUP_SIZE * (top + 1)
  {}

  lemma RoundLeaf(n: nat)
    requires n > 0
    ensures LEAF_SIZE * (RoundUp(n, LEAF_SIZE) / LEAF_SIZE) == RoundUp(n, LEAF_SIZE)
    ensures n <= RoundUp(n, LEAF_SIZE) < n + LEAF_SIZE
  {}

  lemma BootHeads(top: nat, meta: nat, usable: nat)
    requires Layout(top, meta, usable) && 2 * (top + 1) <= meta
    ensures forall k :: 0 <= k <= top ==> Block(0, 2 * k) in Reserved(top, meta, usable)
  {
    LayoutBounds(top, meta, usable);
  }

  lemma HeadIsLeaf(j: nat)
    ensures Head(j) == Addr(Block(0, 2 * j))
  {
    assert BlkSize(0) == LEAF_SIZE;
  }

  lemma PairOfBlock(top: nat, k: nat, b: nat)
    requires k <= top && InHeap(top, Block(k, b))
    ensures PairInHeap(top, k, b / 2)
  {
    WithinParent(Block(k, b), Block(top, 0));
    assert Up(b, 0) == b;
  }

  /** Blocks left of a position in the heap are blocks of the heap. */
  lemma InRange(top: nat, k: nat, stop: nat)
    requires k <= top && stop <= Pow2(top)
    ensures forall b: nat :: b < CeilUp(stop, k) ==> InHeap(top, Block(k, b))
  {
    CeilPow(top, k);
    CeilMono(stop, Pow2(top), k);
    forall b: nat | b < CeilUp(stop, k) ensures InHeap(top, Block(k, b)) {
      InHeapBound(top, Block(k, b));
    }
  }

  lemma {:induction false} CeilMono(m: nat, n: nat, k: nat)
    requires m <= n
    ensures CeilUp(m, k) <= CeilUp(n, k)
  {
    if k > 0 { CeilMono(m, n, k - 1); }
  }

  /** log2 */
  method Log2(n0: nat) returns (k: nat)
    requires n0 > 0
    ensures Pow2(k) <= n0 < Pow2(k + 1)
  {
    var n := n0;
    k := 0;
    while n > 1
      invariant n == Up(n0, k) && n > 0
      decreases n
    {
      n := n / 2;
      k := k + 1;
    }
    UpBound(n0, k);
    UpBound(n0, k + 1);
  }

  lemma Sizes5()
    ensures BlkSize(5) == 512
  {}

  lemma Log2Size(size: nat, k: nat)
    requires Pow2(k) <= size / LEAF_SIZE < Pow2(k + 1) && BlkSize(5) < size && forall j: nat :: size != BlkSize(j)
    ensures BlkSize(k) < size < BlkSize(k + 1) && k >= 5
  {
    if k < 5 { Pow2Mono(k + 1, 5); }
  }

  ghost predicate Separate(a: seq<BitArray>) {
    forall i, j :: 0 <= i < j < |a| ==> a[i].bytes != a[j].bytes
  }

  ghost predicate AllClear(a: seq<BitArray>)
    reads set x | x in a :: x.bytes
  {
    forall i :: 0 <= i < |a| ==> a[i].Bits() == {}
  }

  /** The first layout loop of buddy_init: zeroed pair bits for every level, from offset p0. */
  method XorArrays(top: nat, p0: nat) returns (xor: seq<BitArray>, p: nat)
    ensures |xor| == top + 1 && p == p0 + XorSum(top, top + 1)
    ensures Separate(xor) && AllClear(xor)
    ensures forall i :: 0 <= i <= top ==> fresh(xor[i].bytes)
    ensures forall i :: 0 <= i <= top ==> xor[i].bytes.Length == XorBytes(Pow2(top - i))
  {
    hide XorBytes;
    p := p0;
    xor := [];
    for k := 0 to top + 1
      invariant |xor| == k && p == p0 + XorSum(top, k)
      invariant Separate(xor) && AllClear(xor)
      invariant forall i :: 0 <= i < k ==> fresh(xor[i].bytes)
      invariant forall i :: 0 <= i < k ==> xor[i].bytes.Length == XorBytes(Pow2(top - i))
    {
      var sz := XorBytes(Pow2(top - k));
      var a := new BitArray(sz);
      xor := xor + [a];
      p := p + sz;
    }
  }

  /** The second layout loop: zeroed split bits for every level but 0. */
  method SplitArrays(top: nat, p0: nat) returns (split: seq<BitArray>, p: nat)
    ensures |split| == top + 1 && p == p0 + SplitSum(top, top + 1)
    ensures Separate(split) && AllClear(split)
    ensures forall i :: 0 <= i <= top ==> fresh(split[i].bytes)
    ensures forall i :: 0 < i <= top ==> split[i].bytes.Length == SplitBytes(Pow2(top - i))
  {
    hide SplitBytes;
    p := p0;
    var none := new BitArray(0);
    split := [none];
    for k := 1 to top + 1
      invariant |split| == k && p == p0 + SplitSum(top, k)
      invariant Separate(split) && AllClear(split)
      invariant forall i :: 0 <= i < k ==> fresh(split[i].bytes)
      invariant forall i :: 0 < i < k ==> split[i].bytes.Length == SplitBytes(Pow2(top - i))
    {
      var sz := SplitBytes(Pow2(top - k));
      var a := new BitArray(sz);
      split := split + [a];
      p := p + sz;
    }
  }

  lemma LongEnough(top: nat, xor: seq<BitArray>, split: seq<BitArray>)
    requires |xor| == |split| == top + 1
    requires forall i :: 0 <= i <= top ==> xor[i].bytes.Length == XorBytes(Pow2(top - i))
    requires forall i :: 0 < i <= top ==> split[i].bytes.Length == SplitBytes(Pow2(top - i))
    ensures forall k: nat, i: nat :: k <= top && PairInHeap(top, k, i) ==> i < xor[k].Capacity()
    ensures forall k: nat, b: nat :: 0 < k <= top && InHeap(top, Block(k, b)) ==> b < split[k].Capacity()
  {
    hide XorBytes, SplitBytes;
    forall k: nat, i: nat | k <= top && PairInHeap(top, k, i) ensures i < xor[k].Capacity() {
      BitsSuffice(top - k);
      if k < top { InHeapBound(top, Block(k + 1, i)); }
    }
    forall k: nat, b: nat | 0 < k <= top && InHeap(top, Block(k, b)) ensures b < split[k].Capacity() {
      BitsSuffice(top - k);
      InHeapBound(top, Block(k, b));
    }
  }

  /** Some part of block y starts at address p. */
  ghost predicate Inside(y: Block, p: nat) {
    exists s :: Within(s, y) && Addr(s) == p
  }

  lemma RingSame(next0: map<nat, nat>, prev0: map<nat, nat>, next: map<nat, nat>, prev: map<nat, nat>, ring: seq<nat>)
    requires Linked(next0, prev0, ring)
    requires forall p :: p in ring ==> SameAt(next0, next, p) && SameAt(prev0, prev, p)
    ensures Linked(next, prev, ring)
  {
    forall p | p in ring ensures p in next && p in prev && next[p] == next0[p] && prev[p] == prev0[p] {
      var i :| 0 <= i < |ring| && ring[i] == p;
    }
    Untouched(next0, prev0, next, prev, ring);
  }

  class Allocator {
    const top: nat                 // MAXSIZE
    const lists: ListMemory        // the free lists
    const xor: seq<BitArray>       // pair_alloc_xor of each size group
    const split: seq<BitArray>     // split of each size group
    ghost const reserved: set<Block>  // leaves taken at boot: metadata and unavailable tail
    ghost var live: set<Block>        // blocks handed out and not yet freed
    ghost var F: seq<set<nat>>        // contents of the free lists
    ghost var X: seq<set<nat>>        // set pair bits
    ghost var S: seq<set<nat>>        // set split bits

    ghost function Arrays(): set<object> {
      (set a | a in xor :: a.bytes) + (set a | a in split :: a.bytes)
    }

    ghost predicate Shape() {
      && |xor| == |split| == top + 1
      && (forall i, j :: 0 <= i < j <= top ==> xor[i].bytes != xor[j].bytes)
      && (forall i, j :: 0 <= i < j <= top ==> split[i].bytes != split[j].bytes)
      && (forall i, j :: 0 <= i <= top && 0 <= j <= top ==> xor[i].bytes != split[j].bytes)
      && (forall k: nat, i: nat :: k <= top && PairInHeap(top, k, i) ==> i < xor[k].Capacity())
      && (forall k: nat, b: nat :: 0 < k <= top && InHeap(top, Block(k, b)) ==> b < split[k].Capacity())
    }

    /** The ghost view F, X, S is what the lists and bit arrays hold. */
    ghost predicate Tied()
      reads this`F, this`X, this`S, lists, Arrays()
    {
      && Shape() && lists.Valid()
      && |lists.rings| == |F| == |X| == |S| == top + 1
      && (forall k :: 0 <= k <= top ==> Holds(k, lists.rings[k], F[k]))
      && (forall k :: 0 <= k <= top ==> X[k] == xor[k].Bits())
      && (forall k :: 0 <= k <= top ==> S[k] == split[k].Bits())
    }

    ghost predicate HeadsReserved() {
      forall k :: 0 <= k <= top ==> Block(0, 2 * k) in reserved
    }

    ghost predicate Ground(pinned: set<Block>) {
      HeadsReserved() && reserved <= pinned && Wellformed(top, pinned)
    }

    /** The invariant of every run. */
    ghost predicate Valid()
      reads this, lists, Arrays()
    {
      && Tied() && Ground(live + reserved) && live !! reserved
      && Canonical(top, live + reserved, F, X, S)
    }

    lemma TiedSizes()
      requires Tied()
      ensures |F| == |X| == |S| == top + 1
    {}

    lemma ValidState()
      requires Valid()
      ensures Canonical(top, live + reserved, F, X, S) && |F| == |X| == |S| == top + 1 && live !! reserved
    {}

    // ---- the size groups ----

    /** p is neither a list head nor the start of a listed block. */
    ghost predicate Unlisted(p: nat)
      reads this`F
    {
      && (forall j :: 0 <= j <= top ==> Head(j) != p)
      && (forall j, c: nat {:trigger c in F[j]} :: 0 <= j <= top && j < |F| && c in F[j] ==> Addr(Block(j, c)) != p)
    }

    lemma UnlistedOnNone(p: nat)
      requires Tied() && Unlisted(p)
      ensures OnNone(lists.rings, p)
    {
      forall k | 0 <= k <= top ensures p !in lists.rings[k] {
        var r := lists.rings[k];
        assert forall i :: 1 <= i < |r| ==> BlkIndex(k, r[i]) in F[k] && r[i] == Addr(Block(k, BlkIndex(k, r[i])));
      }
    }

    method PushFree(k: nat, p: nat, ghost b: nat)
      requires Tied() && k <= top && p == Addr(Block(k, b)) && Unlisted(p)
      modifies this`F, lists
      ensures Tied() && F == old(F)[k := old(F)[k] + {b}]
      ensures forall q | OnNone(old(lists.rings), q) && q != p ::
        SameAt(old(lists.next), lists.next, q) && SameAt(old(lists.prev), lists.prev, q)
    {
      UnlistedOnNone(p);
      HoldsPush(k, lists.rings[k], F[k], b);
      lists.Push(k, Head(k), p);
      F := F[k := F[k] + {b}];
    }

    method PopFree(k: nat) returns (p: nat)
      requires Tied() && k <= top && F[k] != {}
      modifies this`F, lists
      ensures p == Addr(Block(k, BlkIndex(k, p))) && BlkIndex(k, p) in old(F)[k]
      ensures Tied() && F == old(F)[k := old(F)[k] - {BlkIndex(k, p)}]
      ensures forall q | OnNone(old(lists.rings), q) ::
        SameAt(old(lists.next), lists.next, q) && SameAt(old(lists.prev), lists.prev, q)
    {
      hide Linked, Addr, BlkIndex, Without, Apart;
      EmptyRing(k);
      ghost var b := BlkIndex(k, lists.rings[k][1]);
      HoldsRemove(k, lists.rings[k], F[k], 1, b);
      p := lists.Pop(k, Head(k));
      F := F[k := F[k] - {b}];
    }

    method RemoveFree(ghost k: nat, q: nat, ghost b: nat)
      requires Tied() && k <= top && q == Addr(Block(k, b)) && b in F[k]
      modifies this`F, lists
      ensures Tied() && F == old(F)[k := old(F)[k] - {b}]
      ensures forall q | OnNone(old(lists.rings), q) ::
        SameAt(old(lists.next), lists.next, q) && SameAt(old(lists.prev), lists.prev, q)
    {
      ghost var r := lists.rings[k];
      assert q in r[1..];
      ghost var j :| 0 <= j < |r[1..]| && r[1..][j] == q;
      lists.Remove(k, j + 1, q);
      HoldsRemove(k, r, F[k], j + 1, b);
      F := F[k := F[k] - {b}];
    }

    method SwitchPair(k: nat, i: nat)
      requires Tied() && k <= top && PairInHeap(top, k, i)
      modifies this`X, Arrays()
      ensures Tied() && |old(X)| == top + 1 && X == old(X)[k := Toggle(old(X)[k], i)]
    {
      xor[k].Switch(i);
      X := X[k := Toggle(X[k], i)];
    }

    method TestPair(k: nat, i: nat) returns (b: bool)
      requires Tied() && k <= top && PairInHeap(top, k, i)
      ensures |X| == top + 1 && (b <==> i in X[k])
    {
      b := xor[k].IsSet(i);
    }

    method SetSplit(k: nat, b: nat)
      requires Tied() && 0 < k <= top && InHeap(top, Block(k, b))
      modifies this`S, Arrays()
      ensures Tied() && |old(S)| == top + 1 && S == old(S)[k := old(S)[k] + {b}]
    {
      split[k].Set(b);
      S := S[k := S[k] + {b}];
    }

    method ClearSplit(k: nat, b: nat)
      requires Tied() && 0 < k <= top && InHeap(top, Block(k, b))
      modifies this`S, Arrays()
      ensures Tied() && |old(S)| == top + 1 && S == old(S)[k := old(S)[k] - {b}]
    {
      split[k].Clear(b);
      S := S[k := S[k] - {b}];
    }

    /** Inside a pinned block there is no list node. */
    lemma PinnedUnlisted(pinned: set<Block>, x: Block, s: Block)
      requires reserved <= pinned && x in pinned && x !in reserved && Wellformed(top, pinned) && HeadsReserved()
      requires ListsFit(top, pinned, F) && Within(s, x)
      ensures Unlisted(Addr(s))
    {
      forall j | 0 <= j <= top ensures Head(j) != Addr(s) {
        var h := Block(0, 2 * j);
        assert h in pinned;
        assert BlkSize(0) == LEAF_SIZE;
        if Head(j) == Addr(s) {
          SameStart(h, s);
          OverlapUp(h, s, x);
        }
      }
      forall j, c: nat {:trigger c in F[j]} | 0 <= j <= top && j < |F| && c in F[j] ensures Addr(Block(j, c)) != Addr(s) {
        if Addr(Block(j, c)) == Addr(s) {
          assert FreeAt(top, pinned, Block(j, c));
          SameStart(Block(j, c), s);
          OverlapUp(Block(j, c), s, x);
        }
      }
    }

    // ---- memory in use ----

    /** The words at addresses inside the given blocks are what they were. */
    ghost predicate Kept(next0: map<nat, nat>, prev0: map<nat, nat>, blocks: set<Block>)
      reads lists
    {
      forall y, s | y in blocks && Within(s, y) ::
        SameAt(next0, lists.next, Addr(s)) && SameAt(prev0, lists.prev, Addr(s))
    }

    /** No list node lies in a block that is in use. */
    lemma InUseUnlisted(pinned: set<Block>, blocks: set<Block>)
      requires Tied() && Ground(pinned) && ListsFit(top, pinned, F) && blocks <= pinned && blocks !! reserved
      ensures forall y, s :: y in blocks && Within(s, y) ==> OnNone(lists.rings, Addr(s))
    {
      hide Addr, OnNone, ListsFit, Wellformed, Holds, Linked, AllDistinct, Within;
      forall y, s | y in blocks && Within(s, y) ensures OnNone(lists.rings, Addr(s)) {
        PinnedUnlisted(pinned, y, s);
        UnlistedOnNone(Addr(s));
      }
    }

    /** The holder of a block may write what it likes into it: nothing of the allocator is there. */
    method UserWrite(y: Block, next: map<nat, nat>, prev: map<nat, nat>)
      requires Valid() && y in live
      requires forall p :: !Inside(y, p) ==> SameAt(lists.next, next, p) && SameAt(lists.prev, prev, p)
      modifies lists
      ensures Valid() && lists.next == next && lists.prev == prev && lists.rings == old(lists.rings)
    {
      hide Addr, Within, Canonical, Wellformed, Holds, AllDistinct, Shape;
      ValidState();
      CanonicalLists(top, live + reserved, F, X, S);
      InUseUnlisted(live + reserved, live);
      ghost var next0, prev0 := lists.next, lists.prev;
      forall k | 0 <= k < |lists.rings| ensures Linked(next, prev, lists.rings[k]) {
        RingOutside(k, y);
        RingSame(next0, prev0, next, prev, lists.rings[k]);
      }
      lists.next, lists.prev := next, prev;
    }

    lemma RingOutside(k: nat, y: Block)
      requires k < |lists.rings| && forall s :: Within(s, y) ==> OnNone(lists.rings, Addr(s))
      ensures forall p :: p in lists.rings[k] ==> !Inside(y, p)
    {
      hide Addr, Within;
    }

    lemma InUseApart(pinned: set<Block>, blocks: set<Block>, c: Block, s': Block)
      requires Wellformed(top, pinned) && blocks <= pinned && c in pinned && c !in blocks && Within(s', c)
      ensures forall y, s :: y in blocks && Within(s, y) ==> Addr(s) != Addr(s')
    {
      hide Addr;
      forall y, s | y in blocks && Within(s, y) ensures Addr(s) != Addr(s') {
        if Addr(s) == Addr(s') {
          SameStart(s, s');
          OverlapUp(s, s', c);
          OverlapUp(c, s, y);
        }
      }
    }

    // ---- buddy_init ----

    /** buddy_init on a range of `size` bytes from the rounded-up base. The range needs room
        for the metadata, and one that ends exactly at a block of the highest level makes
        bd_initfree look up a pair bit past the end of its array. */
    constructor (size: nat)
      requires BlkSize(5) < size && forall k: nat :: size != BlkSize(k)
      ensures Valid() && live == {} && top >= 6
      ensures BlkSize(top - 1) < size < BlkSize(top)
      ensures Layout(top, MetaLeaves(top), size / LEAF_SIZE)
      ensures reserved == Reserved(top, MetaLeaves(top), size / LEAF_SIZE)
    {
      hide Reserved, Layout, RoundUp, Pow2, BlkSize, AllClear, Valid, PairInHeap, InHeap, XorSum, SplitSum;
      Sizes5();
      var l := Log2(size / LEAF_SIZE);
      var count := l + 1;
      Log2Size(size, l);
      if size > BlkSize(count - 1) {
        count := count + 1;
      }
      var t := count - 1;
      var xs, p1 := XorArrays(t, GROUP_SIZE * count);
      var ss, p2 := SplitArrays(t, p1);
      LongEnough(t, xs, ss);
      var p := RoundUp(p2, LEAF_SIZE);
      var unavailable := RoundUp(BlkSize(t) - size, LEAF_SIZE);
      BootLayout(t, size);
      var meta, usable := p / LEAF_SIZE, (BlkSize(t) - unavailable) / LEAF_SIZE;
      top := t;
      xor := xs;
      split := ss;
      lists := new ListMemory();
      reserved := Reserved(t, MetaLeaves(t), size / LEAF_SIZE);
      live := {};
      new;
      var free := Boot(meta, usable);
      // the boot-time check cannot fail
      assert free == BlkSize(top) - p - unavailable;
    }

    method Boot(meta: nat, usable: nat) returns (free: nat)
      requires Shape() && lists.Valid() && lists.rings == [] && AllClear(xor) && AllClear(split) && live == {}
      requires Layout(top, meta, usable) && reserved == Reserved(top, meta, usable) && 2 * (top + 1) <= meta
      modifies this`F, this`X, this`S, lists, Arrays()
      ensures Valid() && live == {}
      ensures free == LEAF_SIZE * (usable - meta)
    {
      hide Tied, Shape, Layout, Reserved, PairsFit, SplitsFit, ListsFit, Wellformed, AllClear, EndsMarked;
      InitLists();
      LayoutBounds(top, meta, usable);
      MarkBoot(meta, usable);
      BootHeads(top, meta, usable);
      free := InitFree(meta, usable);
      MetaPositive(top, meta, usable);
      BootWellformed(top, meta, usable);
      assert live + reserved == reserved;
    }

    /** lst_init of every size group. */
    method InitLists()
      requires Shape() && lists.Valid() && lists.rings == [] && AllClear(xor) && AllClear(split)
      modifies this`F, this`X, this`S, lists
      ensures Tied() && |F| == |X| == |S| == top + 1
      ensures forall k :: 0 <= k <= top ==> F[k] == X[k] == S[k] == {}
    {
      hide Linked, AllDistinct;
      F, X, S := [], [], [];
      var k := 0;
      while k <= top
        invariant k <= top + 1 && |F| == |X| == |S| == |lists.rings| == k
        invariant lists.Valid()
        invariant forall j :: 0 <= j < k ==> F[j] == X[j] == S[j] == {} && lists.rings[j] == [Head(j)]
      {
        lists.Init(Head(k));
        F, X, S := F + [{}], X + [{}], S + [{}];
        k := k + 1;
      }
    }

    /** The pair bits as the two calls of bd_mark leave them. */
    ghost predicate EndsMarked(meta: nat, usable: nat)
      reads this`X
    {
      |X| == top + 1 && forall k, i: nat :: 0 <= k < top ==> (i in X[k] <==> PairMarked(CeilUp(meta, k), Up(usable, k), i))
    }

    /** bd_mark_data_structures and bd_mark_unavailable, wherever the metadata and the memory end. */
    method MarkBoot(meta: nat, usable: nat)
      requires Tied() && meta <= Pow2(top) && usable < Pow2(top) && (forall k :: 0 <= k <= top ==> X[k] == S[k] == {})
      modifies this`X, this`S, Arrays()
      ensures Tied() && EndsMarked(meta, usable)
      ensures Layout(top, meta, usable) ==>
        PairsFit(top, Reserved(top, meta, usable), X) && SplitsFit(top, Reserved(top, meta, usable), S)
    {
      hide Holds, Linked, AllDistinct, Shape, Touched, Filled, Reserved, PairMarked, Layout;
      Mark(0, meta);
      ghost var X1, S1 := X, S;
      Mark(usable, Pow2(top));
      forall k, i: nat | 0 <= k < top ensures i in X[k] <==> PairMarked(CeilUp(meta, k), Up(usable, k), i) {
        MarkedPairs(top, meta, usable, k, X1[k], X[k], i);
      }
      if Layout(top, meta, usable) {
        forall k, i: nat | 0 <= k < top ensures i in X[k] <==> XorAt(top, Reserved(top, meta, usable), k, i) {
          BootPairs(top, meta, usable, k, X[k], i);
        }
        forall k, b: nat | 0 < k <= top ensures b in S[k] <==> SplitAt(top, Reserved(top, meta, usable), Block(k, b)) {
          BootSplits(top, meta, usable, k, S1[k], S[k], b);
        }
      }
    }

    /** What bd_initfree returns, wherever the metadata and the memory end, as long as its lookups
        stay inside the bit arrays. */
    method CountFree(meta: nat, usable: nat) returns (free: nat)
      requires Tied() && EndsMarked(meta, usable) && usable < Pow2(top)
      requires forall k :: 0 <= k < top ==> CeilUp(meta, k) / 2 < xor[k].Capacity()
      ensures free == FreeTotal(meta, usable, top)
    {
      hide Holds, Linked, AllDistinct, BlkSize, PairMarked, CeilUp, Up, BlkIndex, BlkIndexNext, PairInHeap;
      free := 0;
      for k := 0 to top
        invariant free == FreeTotal(meta, usable, k)
      {
        var left := BlkIndexNext(k, LEAF_SIZE * meta);
        var right := BlkIndex(k, LEAF_SIZE * usable);
        IndexIsUp(k, usable);
        NextIsCeil(k, meta);
        UsablePair(usable, k);
        var one := xor[k].IsSet(left / 2);
        if one { free := free + BlkSize(k); }
        if right > left {
          one := TestPair(k, right / 2);
          if one { free := free + BlkSize(k); }
        }
      }
    }

    lemma UsablePair(usable: nat, k: nat)
      requires usable < Pow2(top) && k < top
      ensures PairInHeap(top, k, Up(usable, k) / 2)
    {
      UpBelow(top, usable, k + 1);
      InHeapBound(top, Block(k + 1, Up(usable, k + 1)));
    }

    /** The end of buddy_init on any layout: whether its check of the free memory passes. */
    method BootCheck(meta: nat, usable: nat) returns (passes: bool)
      requires Shape() && lists.Valid() && lists.rings == [] && AllClear(xor) && AllClear(split)
      requires 0 < meta <= usable < Pow2(top)
      requires forall k :: 0 <= k < top ==> CeilUp(meta, k) / 2 < xor[k].Capacity()
      modifies this`F, this`X, this`S, lists, Arrays()
      ensures passes <==> exists m :: EndsBalanced(top, meta, usable, m)
    {
      hide Tied, Shape, EndsBalanced, PairsFit, SplitsFit, AllClear, EndsMarked, FreeTotal;
      InitLists();
      MarkBoot(meta, usable);
      var free := CountFree(meta, usable);
      BootCheckAnywhere(top, meta, usable);
      passes := free == LEAF_SIZE * (usable - meta);
    }

    /** Listed so far are boot-time free blocks, so another one has a new address. */
    lemma BootUnlisted(pinned: set<Block>, x: Block)
      requires reserved == pinned && HeadsReserved() && FreeAt(top, pinned, x) && |F| == top + 1
      requires forall j, c: nat :: 0 <= j <= top && c in F[j] ==> FreeAt(top, pinned, Block(j, c)) && Block(j, c) != x
      ensures Unlisted(Addr(x))
    {
      hide Addr;
      forall j | 0 <= j <= top ensures Head(j) != Addr(x) {
        var h := Block(0, 2 * j);
        assert h in pinned;
        HeadIsLeaf(j);
        if Head(j) == Addr(x) { SameStart(h, x); }
      }
      forall j, c: nat {:trigger c in F[j]} | 0 <= j <= top && j < |F| && c in F[j] ensures Addr(Block(j, c)) != Addr(x) {
        if Addr(Block(j, c)) == Addr(x) {
          SameStart(Block(j, c), x);
          FreeApart(top, pinned, Block(j, c), x);
        }
      }
    }

    /** bd_initfree_pair_left */
    method InitFreePairLeft(k: nat, bi: nat) returns (free: nat)
      requires Tied() && k <= top && PairInHeap(top, k, bi / 2)
      requires bi / 2 in X[k] ==> Unlisted(Addr(Block(k, bi)))
      modifies this`F, lists
      ensures Tied()
      ensures F == if bi / 2 in X[k] then old(F)[k := old(F)[k] + {bi}] else old(F)
      ensures free == if bi / 2 in X[k] then BlkSize(k) else 0
    {
      hide Holds, Linked, AllDistinct, BlkSize, Addr, Unlisted, PairInHeap;
      free := 0;
      var one := TestPair(k, bi / 2);
      if one {
        free := BlkSize(k);
        PushFree(k, Addr(Block(k, bi)), bi);
      }
    }

    /** bd_initfree_pair_right */
    method InitFreePairRight(k: nat, bi: nat) returns (free: nat)
      requires Tied() && k <= top && PairInHeap(top, k, bi / 2)
      requires bi / 2 in X[k] ==> Unlisted(Addr(Block(k, Buddy(bi))))
      modifies this`F, lists
      ensures Tied()
      ensures F == if bi / 2 in X[k] then old(F)[k := old(F)[k] + {Buddy(bi)}] else old(F)
      ensures free == if bi / 2 in X[k] then BlkSize(k) else 0
    {
      hide Holds, Linked, AllDistinct, BlkSize, Addr, Unlisted, PairInHeap;
      free := 0;
      var buddy := if bi % 2 == 0 then bi + 1 else bi - 1;
      var one := TestPair(k, bi / 2);
      if one {
        free := BlkSize(k);
        PushFree(k, Addr(Block(k, buddy)), buddy);
      }
    }

    ghost predicate ListedBelow(meta: nat, usable: nat, k: nat)
      reads this`F
    {
      && |F| == top + 1
      && (forall j :: 0 <= j < k && j <= top ==> F[j] == BootFree(CeilUp(meta, j), Up(usable, j)))
      && (forall j :: k <= j <= top ==> F[j] == {})
    }

    ghost predicate Booting(meta: nat, usable: nat)
      reads this`X
    {
      && Layout(top, meta, usable) && reserved == Reserved(top, meta, usable) && HeadsReserved()
      && PairsFit(top, reserved, X)
    }

    /** One round of bd_initfree. */
    method InitFreeLevel(k: nat, meta: nat, usable: nat) returns (free: nat)
      requires Tied() && Booting(meta, usable) && k < top && ListedBelow(meta, usable, k)
      modifies this`F, lists
      ensures Tied() && ListedBelow(meta, usable, k + 1)
      ensures free == Gain(k, CeilUp(meta, k), Up(usable, k))
    {
      hide Tied, BlkSize, Addr, BlkIndex, BlkIndexNext, Layout, Reserved, HeadsReserved, PairsFit, PairMarked, Unlisted, PairInHeap, CeilUp, Up;
      var left := BlkIndexNext(k, LEAF_SIZE * meta);
      var right := BlkIndex(k, LEAF_SIZE * usable);
      IndexIsUp(k, usable);
      NextIsCeil(k, meta);
      BootLevel(meta, usable, k);
      MarkedEnds(left, right);
      free := InitFreePairLeft(k, left);
      if right > left {
        if right % 2 == 1 { BootRight(meta, usable, k); }
        var more := InitFreePairRight(k, right);
        free := free + more;
      }
    }

    /** bd_initfree: a dyadic cover of exactly the memory between the boundaries. */
    method InitFree(meta: nat, usable: nat) returns (free: nat)
      requires Tied() && Booting(meta, usable) && ListedBelow(meta, usable, 0)
      modifies this`F, lists
      ensures Tied() && ListsFit(top, reserved, F)
      ensures free == LEAF_SIZE * (usable - meta)
    {
      hide Tied, Layout, Reserved, HeadsReserved, PairsFit, Gain, CeilUp, Up, FreeAt;
      free := 0;
      var k := 0;
      while k < top
        invariant k <= top && Tied() && ListedBelow(meta, usable, k)
        invariant free == FreeTotal(meta, usable, k)
      {
        var more := InitFreeLevel(k, meta, usable);
        free := free + more;
        k := k + 1;
      }
      QuarterBalanced(top, meta, usable);
      BootCheckExact(top, meta, usable);
      forall j, b: nat | 0 <= j <= top ensures b in F[j] <==> FreeAt(top, reserved, Block(j, b)) {
        if j < top {
          BootFreeAt(top, meta, usable, j, b);
        } else {
          MetaPositive(top, meta, usable);
          BootTop(top, meta, usable, b);
        }
      }
    }

    /** What the left lookup at level k finds, and where the right one looks. */
    lemma BootLevel(meta: nat, usable: nat, k: nat)
      requires Tied() && Booting(meta, usable) && k < top && ListedBelow(meta, usable, k)
      ensures var l, r := CeilUp(meta, k), Up(usable, k);
        && PairInHeap(top, k, l / 2) && PairInHeap(top, k, r / 2) && l <= r && !Clash(l, r) && |X| == top + 1
        && (l / 2 in X[k] <==> PairMarked(l, r, l / 2)) && (r / 2 in X[k] <==> PairMarked(l, r, r / 2))
        && (l < r && l % 2 == 1 ==> Unlisted(Addr(Block(k, l))))
    {
      hide Addr, Reserved, PairMarked, Holds, Linked, AllDistinct;
      var l, r := CeilUp(meta, k), Up(usable, k);
      NoClash(top, meta, usable, k);
      BootXorAt(top, meta, usable, k, l / 2);
      BootXorAt(top, meta, usable, k, r / 2);
      BoundaryPairs(top, meta, usable, k);
      if l < r && l % 2 == 1 {
        BootFreeAt(top, meta, usable, k, l);
        BelowFree(meta, usable, k, l);
        BootUnlisted(reserved, Block(k, l));
      }
    }

    lemma BelowFree(meta: nat, usable: nat, k: nat, b: nat)
      requires Booting(meta, usable) && k < top && |F| == top + 1 && b !in F[k]
      requires forall j :: 0 <= j <= k ==> F[j] <= BootFree(CeilUp(meta, j), Up(usable, j))
      requires forall j :: k < j <= top ==> F[j] == {}
      ensures forall j, c: nat :: 0 <= j <= top && c in F[j] ==> FreeAt(top, reserved, Block(j, c)) && Block(j, c) != Block(k, b)
    {
      hide BootFree, Reserved, FreeAt;
      forall j, c: nat | 0 <= j <= top && c in F[j]
        ensures FreeAt(top, reserved, Block(j, c)) && Block(j, c) != Block(k, b)
      {
        BootFreeAt(top, meta, usable, j, c);
      }
    }

    /** The right boundary block is new even when the left one is listed already. */
    lemma BootRight(meta: nat, usable: nat, k: nat)
      requires Booting(meta, usable) && k < top && |F| == top + 1
      requires forall j :: 0 <= j < k ==> F[j] == BootFree(CeilUp(meta, j), Up(usable, j))
      requires forall j :: k < j <= top ==> F[j] == {}
      requires var l, r := CeilUp(meta, k), Up(usable, k);
        l < r && !Clash(l, r) && r % 2 == 1 && F[k] == if l % 2 == 1 then {l} else {}
      ensures Unlisted(Addr(Block(k, Buddy(Up(usable, k)))))
    {
      hide Addr, Reserved, PairsFit, FreeAt, Unlisted, Layout, HeadsReserved, CeilUp, Up;
      var l, r := CeilUp(meta, k), Up(usable, k);
      assert Buddy(r) == r - 1 && r - 1 in BootFree(l, r);
      BootFreeAt(top, meta, usable, k, r - 1);
      BelowFree(meta, usable, k, r - 1);
      BootUnlisted(reserved, Block(k, r - 1));
    }

    method MarkBlock(k: nat, bi: nat)
      requires Tied() && k <= top && InHeap(top, Block(k, bi))
      modifies this`X, this`S, Arrays()
      ensures Tied() && |old(X)| == |old(S)| == top + 1
      ensures X == old(X)[k := Toggle(old(X)[k], bi / 2)]
      ensures S == if k > 0 then old(S)[k := old(S)[k] + {bi}] else old(S)
    {
      hide Holds, Linked, AllDistinct;
      PairOfBlock(top, k, bi);
      if k > 0 {
        SetSplit(k, bi);
      }
      SwitchPair(k, bi / 2);
    }

    /** The inner loop of bd_mark: the blocks lo to hi - 1 of level k. */
    method MarkLevel(k: nat, lo: nat, hi: nat)
      requires Tied() && k <= top && (forall b: nat :: lo <= b < hi ==> InHeap(top, Block(k, b)))
      modifies this`X, this`S, Arrays()
      ensures Tied()
      ensures |S| == |X| == top + 1
      ensures forall j :: 0 <= j <= top && j != k ==> S[j] == old(S)[j] && X[j] == old(X)[j]
      ensures k > 0 ==> Filled(old(S)[k], S[k], lo, hi)
      ensures Touched(old(X)[k], X[k], lo, hi)
    {
      hide Tied, Touched, Filled, InHeap, Toggle;
      TiedSizes();
      var bi := lo;
      NothingTouched(X[k], lo, lo);
      NothingTouched(S[k], lo, lo);
      NothingTouched(X[k], lo, hi);
      NothingTouched(S[k], lo, hi);
      while bi < hi
        invariant lo <= bi && (bi <= hi || bi == lo)
        invariant Tied() && |S| == |X| == top + 1
        invariant forall j :: 0 <= j <= top && j != k ==> S[j] == old(S)[j] && X[j] == old(X)[j]
        invariant k > 0 ==> Filled(old(S)[k], S[k], lo, bi)
        invariant bi == lo ==> S[k] == old(S)[k] && X[k] == old(X)[k]
        invariant Touched(old(X)[k], X[k], lo, bi)
      {
        if k > 0 { FillNext(old(S)[k], S[k], lo, bi); }
        TouchNext(old(X)[k], X[k], lo, bi);
        MarkBlock(k, bi);
        TiedSizes();
        bi := bi + 1;
      }
    }

    /** bd_mark: every block that meets [start, stop), at every level. */
    method Mark(start: nat, stop: nat)
      requires Tied() && start <= stop <= Pow2(top)
      modifies this`X, this`S, Arrays()
      ensures Tied()
      ensures forall k :: 0 < k <= top ==> Filled(old(S)[k], S[k], Up(start, k), CeilUp(stop, k))
      ensures forall k :: 0 <= k <= top ==> Touched(old(X)[k], X[k], Up(start, k), CeilUp(stop, k))
    {
      hide Holds, Linked, AllDistinct, Shape, Touched, Filled;
      var k := 0;
      while k <= top
        invariant k <= top + 1
        invariant Tied()
        invariant forall j :: 0 < j < k ==> Filled(old(S)[j], S[j], Up(start, j), CeilUp(stop, j))
        invariant forall j :: 0 <= j < k ==> Touched(old(X)[j], X[j], Up(start, j), CeilUp(stop, j))
        invariant forall j :: k <= j <= top ==> S[j] == old(S)[j] && X[j] == old(X)[j]
      {
        var bi := BlkIndex(k, LEAF_SIZE * start);
        var bj := BlkIndexNext(k, LEAF_SIZE * stop);
        IndexIsUp(k, start);
        NextIsCeil(k, stop);
        InRange(top, k, stop);
        MarkLevel(k, bi, bj);
        k := k + 1;
      }
    }

    // ---- buddy_malloc ----

    /** The first non-empty list at level fk or above. */
    method FindLevel(fk: nat) returns (k: nat)
      requires Tied()
      ensures fk <= k && (k <= top ==> F[k] != {})
      ensures forall j :: fk <= j < k && j <= top ==> F[j] == {}
    {
      k := fk;
      while k <= top
        invariant fk <= k
        invariant forall j :: fk <= j < k && j <= top ==> F[j] == {}
      {
        var empty := lists.Empty(k, Head(k));
        EmptyRing(k);
        if !empty { break; }
        k := k + 1;
      }
    }

    /** Empty lists from level fk upwards mean that no block of level fk is available. */
    lemma NothingAvailable(pinned: set<Block>, fk: nat)
      requires ListsFit(top, pinned, F) && forall j :: fk <= j <= top ==> F[j] == {}
      ensures forall b: nat :: InHeap(top, Block(fk, b)) ==> !Avail(pinned, Block(fk, b))
    {
      forall b: nat | InHeap(top, Block(fk, b)) ensures !Avail(pinned, Block(fk, b)) {
        if Avail(pinned, Block(fk, b)) {
          var z := FreeAncestor(top, pinned, Block(fk, b));
          assert false;
        }
      }
    }

    /** A listed block is below the top level, and so is its pair. */
    lemma ListedBelowTop(pinned: set<Block>, x: Block)
      requires Wellformed(top, pinned) && FreeAt(top, pinned, x)
      ensures x.level < top && PairInHeap(top, x.level, x.index / 2)
    {
      TopPinned(top, pinned);
      assert Up(x.index, 0) == x.index;
      WithinParent(x, Block(top, 0));
    }

    /** p is a block of level k that is pinned on top of `rest`. */
    ghost predicate Carries(rest: set<Block>, k: nat, p: nat)
      reads this`F, this`X, this`S
    {
      var x := Block(k, BlkIndex(k, p));
      p == Addr(x) && InHeap(top, x) && Avail(rest, x) && Canonical(top, rest + {x}, F, X, S)
    }

    /** One round of the splitting loop. */
    method SplitOnce(k: nat, p: nat, ghost rest: set<Block>)
      requires Tied() && Ground(rest) && 0 < k <= top && Carries(rest, k, p)
      modifies this`F, this`X, this`S, lists, Arrays()
      ensures Tied() && Carries(rest, k - 1, p) && Kept(old(lists.next), old(lists.prev), rest - reserved)
    {
      hide Tied, Canonical, Avail, InHeap, Addr, BlkIndex, BlkSize, Unlisted, Wellformed, PairInHeap, OnNone, Within,
        HeadsReserved;
      ghost var c := BlkIndex(k, p);
      HalfPlaces(top, k, p);
      HalfStep(rest, p, k);
      HalfApart(rest, p, k);
      var q := p + BlkSize(k - 1);
      SetSplit(k, BlkIndex(k, p));
      SwitchPair(k - 1, BlkIndex(k - 1, p) / 2);
      PushFree(k - 1, q, 2 * c + 1);
    }

    lemma HalfApart(rest: set<Block>, p: nat, k: nat)
      requires Tied() && Ground(rest) && 0 < k <= top && Carries(rest, k, p)
      ensures forall y, s | y in rest - reserved && Within(s, y) ::
        OnNone(lists.rings, Addr(s)) && Addr(s) != Addr(Block(k - 1, 2 * BlkIndex(k, p) + 1))
    {
      hide Tied, Canonical, Avail, Addr, BlkIndex, Wellformed, OnNone, HeadsReserved;
      var c := Block(k, BlkIndex(k, p));
      PinWellformed(top, rest, c);
      CanonicalLists(top, rest + {c}, F, X, S);
      InUseUnlisted(rest + {c}, rest - reserved);
      WithinParent(Block(k - 1, 2 * c.index + 1), c);
      InUseApart(rest + {c}, rest - reserved, c, Block(k - 1, 2 * c.index + 1));
    }

    /** The splitting loop: p keeps its left halves down to level fk. */
    method SplitDown(k0: nat, fk: nat, p: nat, ghost rest: set<Block>)
      requires Tied() && Ground(rest) && fk <= k0 <= top && Carries(rest, k0, p)
      modifies this`F, this`X, this`S, lists, Arrays()
      ensures Tied() && Carries(rest, fk, p) && Kept(old(lists.next), old(lists.prev), rest - reserved)
    {
      hide Tied, Carries, Ground, Addr, Within;
      var k := k0;
      while k > fk
        invariant fk <= k <= k0
        invariant Tied() && Carries(rest, k, p) && Kept(old(lists.next), old(lists.prev), rest - reserved)
      {
        SplitOnce(k, p, rest);
        k := k - 1;
      }
    }

    /** What one round of the splitting loop relies on. */
    lemma HalfStep(rest: set<Block>, p: nat, k: nat)
      requires Ground(rest) && 0 < k <= top && Carries(rest, k, p)
      ensures var c := BlkIndex(k, p);
        var x := Block(k - 1, 2 * c);
        && InHeap(top, x) && Avail(rest, x)
        && Unlisted(Addr(Block(k - 1, 2 * c + 1)))
        && Canonical(top, rest + {x}, F[k - 1 := F[k - 1] + {2 * c + 1}], X[k - 1 := Toggle(X[k - 1], c)],
                     S[k := S[k] + {c}])
    {
      hide Canonical, Addr, BlkIndex;
      var c := Block(k, BlkIndex(k, p));
      var x, s := Block(k - 1, 2 * c.index), Block(k - 1, 2 * c.index + 1);
      assert Up(x.index, 0) == x.index;
      WithinParent(x, c);
      WithinParent(s, c);
      WithinTrans(x, c, Block(top, 0));
      AvailDown(rest, x, c);
      PinWellformed(top, rest, c);
      CanonicalLists(top, rest + {c}, F, X, S);
      PinnedUnlisted(rest + {c}, c, s);
      HalveCanonical(top, rest, x, F, X, S);
    }

    /** Popping a block of list k and flipping its pair bit. */
    method Take(k: nat, ghost pinned: set<Block>) returns (p: nat)
      requires Tied() && Ground(pinned) && k <= top && F[k] != {} && Canonical(top, pinned, F, X, S)
      modifies this`F, this`X, lists, Arrays()
      ensures Tied() && Carries(pinned, k, p) && Kept(old(lists.next), old(lists.prev), pinned - reserved)
    {
      hide Tied, Avail, InHeap, Addr, BlkIndex, BlkSize, Wellformed, PairsFit, SplitsFit, HeadsReserved, OnNone, Within;
      ghost var F0, X0 := F, X;
      CanonicalLists(top, pinned, F, X, S);
      InUseUnlisted(pinned, pinned - reserved);
      p := PopFree(k);
      ghost var x := Block(k, BlkIndex(k, p));
      assert FreeAt(top, pinned, x);
      ListedBelowTop(pinned, x);
      PinCanonical(top, pinned, x, F0, X0, S);
      SwitchPair(k, BlkIndex(k, p) / 2);
    }

    method Malloc(nbytes: nat) returns (r: Option<nat>)
      requires Valid() && nbytes <= TWO63
      modifies this`live, this`F, this`X, this`S, lists, Arrays()
      ensures Valid()
      ensures var fk := LevelFrom(nbytes, 0);
        match r
        case None =>
          && live == old(live) && F == old(F) && X == old(X) && S == old(S)
          && forall b: nat :: InHeap(top, Block(fk, b)) ==> !Avail(old(live) + reserved, Block(fk, b))
        case Some(p) =>
          var x := Block(fk, BlkIndex(fk, p));
          && p == Addr(x) && InHeap(top, x) && Avail(old(live) + reserved, x)
          && live == old(live) + {x}
      ensures Kept(old(lists.next), old(lists.prev), old(live))
    {
      hide Tied, Avail, InHeap, Addr, BlkIndex, Wellformed, Canonical, ListsFit, HeadsReserved, Within;
      ghost var pinned := live + reserved;
      assert live <= pinned - reserved;
      CanonicalLists(top, pinned, F, X, S);
      var fk := FirstK(nbytes);
      var k := FindLevel(fk);
      if k > top {
        NothingAvailable(pinned, fk);
        return None;
      }
      var p := Take(k, pinned);
      SplitDown(k, fk, p, pinned);
      ghost var y := Block(fk, BlkIndex(fk, p));
      PinWellformed(top, pinned, y);
      AddToUnion(live, reserved, y);
      live := live + {y};
      r := Some(p);
    }

    lemma EmptyRing(k: nat)
      requires Tied() && k <= top
      ensures |lists.rings[k]| == 1 <==> F[k] == {}
    {
      var r := lists.rings[k];
      if |r| > 1 { assert BlkIndex(k, r[1]) in F[k]; }
      if F[k] != {} {
        var b :| b in F[k];
        assert Addr(Block(k, b)) in r[1..];
      }
    }

    // ---- buddy_free ----

    /** size: the level of a live block, read off the split bits alone. */
    method Size(p: nat, ghost x: Block) returns (k: nat)
      requires Valid() && x in live && p == Addr(x)
      ensures k == x.level < top
    {
      hide Holds, Linked, AllDistinct, Addr, BlkIndex, BlkSize, Wellformed, ListsFit, PairsFit, SplitsFit;
      k := 0;
      LiveBelowTop(x);
      while true
        invariant k <= x.level
        decreases x.level - k
      {
        SizeBit(x, k);
        var isSplit := split[k + 1].IsSet(BlkIndex(k + 1, p));
        if isSplit { break; }
        k := k + 1;
      }
    }

    lemma LiveBelowTop(x: Block)
      requires x in live && live !! reserved && HeadsReserved() && Wellformed(top, live + reserved)
      ensures x.level < top
    {
      UpZero(top);
      if x.level == top {
        assert Block(0, 2 * 0) in reserved;
        assert Up(x.index, 0) == x.index;
        assert Overlap(Block(0, 0), x);
      }
    }

    /** On the way up from the address of a live block x, the split bits are clear
        up to the level of x, and the next one is set. */
    lemma SizeBit(x: Block, k: nat)
      requires x in live && Wellformed(top, live + reserved) && SplitsFit(top, live + reserved, S)
      requires k <= x.level < top
      ensures InHeap(top, Block(k + 1, BlkIndex(k + 1, Addr(x))))
      ensures BlkIndex(k + 1, Addr(x)) in S[k + 1] <==> k == x.level
    {
      hide Addr, BlkIndex, Wellformed;
      var pinned := live + reserved;
      var z := Block(k + 1, BlkIndex(k + 1, Addr(x)));
      if k == x.level {
        BlkIndexUp(x, k + 1);
        DividedAbove(top, pinned, x);
      } else {
        StartWithin(x, k + 1);
        WholeInside(top, pinned, x, z);
      }
    }

    /** One round of the merging loop: either the buddy is taken and x may go on its
        list (`done`), or the buddy is taken off its list and the merged parent is carried on. */
    method MergeOnce(k: nat, p: nat, ghost rest: set<Block>) returns (done: bool, p': nat)
      requires Tied() && Ground(rest) && k < top && Carries(rest, k, p)
      modifies this`F, this`X, this`S, lists, Arrays()
      ensures Tied()
      ensures !done ==> Carries(rest, k + 1, p')
      ensures Kept(old(lists.next), old(lists.prev), rest - reserved)
      ensures done ==> p' == p && F == old(F) && S == old(S) && FreeAt(top, rest, Block(k, BlkIndex(k, p)))
      ensures done ==> X == old(X)[k := Toggle(old(X)[k], BlkIndex(k, p) / 2)]
    {
      hide Tied, Canonical, Avail, InHeap, Addr, BlkIndex, Wellformed, FreeAt, PairInHeap, HeadsReserved, OnNone, Within;
      CarriedApart(rest, k, p);
      p' := p;
      var bi := BlkIndex(k, p);
      var pi := bi / 2;
      MergeStep(rest, k, p);
      SwitchPair(k, pi);
      done := TestPair(k, pi);
      if !done {
        p' := Merge(k, p, bi, rest);
      }
    }

    /** The buddy is free: take it off its list and carry on with the merged block. */
    method Merge(k: nat, p: nat, bi: nat, ghost rest: set<Block>) returns (p': nat)
      requires Tied() && k < top && p == Addr(Block(k, bi)) && |F| == |S| == top + 1
      requires forall y, s | y in rest - reserved && Within(s, y) :: OnNone(lists.rings, Addr(s))
      requires var c := Parent(Block(k, bi));
        && Buddy(bi) in F[k] && InHeap(top, c) && Avail(rest, c)
        && Canonical(top, rest + {c}, F[k := F[k] - {Buddy(bi)}], X, S[k + 1 := S[k + 1] - {bi / 2}])
      modifies this`F, this`S, lists, Arrays()
      ensures Tied() && Carries(rest, k + 1, p') && Kept(old(lists.next), old(lists.prev), rest - reserved)
    {
      hide Tied, Canonical, Avail, InHeap, Addr, BlkIndex, OnNone, Within;
      var buddy := if bi % 2 == 0 then bi + 1 else bi - 1;
      p' := p;
      var q := Addr(Block(k, buddy));
      RemoveFree(k, q, buddy);
      if buddy % 2 == 0 {
        p' := q;
      }
      MergePlaces(top, k, bi);
      ClearSplit(k + 1, BlkIndex(k + 1, p'));
    }

    lemma CarriedApart(rest: set<Block>, k: nat, p: nat)
      requires Tied() && Ground(rest) && Carries(rest, k, p)
      ensures forall y, s :: y in rest - reserved && Within(s, y) ==> OnNone(lists.rings, Addr(s)) && Addr(s) != p
    {
      hide Tied, Canonical, Avail, Addr, BlkIndex, Wellformed, OnNone, HeadsReserved;
      var c := Block(k, BlkIndex(k, p));
      PinWellformed(top, rest, c);
      CanonicalLists(top, rest + {c}, F, X, S);
      InUseUnlisted(rest + {c}, rest - reserved);
      assert Within(c, c) by { assert Up(c.index, 0) == c.index; }
      InUseApart(rest + {c}, rest - reserved, c, c);
    }

    /** What one round of the merging loop relies on. */
    lemma MergeStep(rest: set<Block>, k: nat, p: nat)
      requires k < top && Carries(rest, k, p)
      ensures var x := Block(k, BlkIndex(k, p));
        && PairInHeap(top, k, x.index / 2) && |F| == |X| == |S| == top + 1
        && (x.index / 2 !in X[k] ==> FreeAt(top, rest, x))
        && (x.index / 2 in X[k] ==>
              Buddy(x.index) in F[k] && Avail(rest, Parent(x)) && InHeap(top, Parent(x)) &&
              Canonical(top, rest + {Parent(x)}, F[k := F[k] - {Buddy(x.index)}],
                        X[k := Toggle(X[k], x.index / 2)], S[k + 1 := S[k + 1] - {x.index / 2}]))
    {
      hide Avail, Addr, BlkIndex, SplitsFit;
      var x := Block(k, BlkIndex(k, p));
      CanonicalLists(top, rest + {x}, F, X, S);
      BuddyState(top, rest, x);
      WithinParent(x, Block(top, 0));
      if x.index / 2 in X[k] { MergeCanonical(top, rest, x, F, X, S); }
    }

    /** What pushing the carried block relies on. */
    lemma ReleaseStep(rest: set<Block>, k: nat, p: nat)
      requires Ground(rest) && k < top && Carries(rest, k, p) && FreeAt(top, rest, Block(k, BlkIndex(k, p)))
      ensures var b := BlkIndex(k, p);
        && Unlisted(p) && p == Addr(Block(k, b)) && |F| == |X| == |S| == top + 1
        && Canonical(top, rest, F[k := F[k] + {b}], X[k := Toggle(X[k], b / 2)], S)
        && Ground(rest + {Block(k, b)}) && ListsFit(top, rest + {Block(k, b)}, F)
    {
      hide Canonical, Addr, BlkIndex, FreeAt, Unlisted, Avail, InHeap;
      var y := Block(k, BlkIndex(k, p));
      CanonicalLists(top, rest + {y}, F, X, S);
      PinCanonical(top, rest, y, F, X, S);
      PinWellformed(top, rest, y);
      assert Within(y, y) by { assert Up(y.index, 0) == y.index; }
      PinnedUnlisted(rest + {y}, y, y);
    }

    /** Merging never reaches the whole heap: the metadata stays pinned. */
    lemma BelowTop(rest: set<Block>, k: nat, p: nat)
      requires Ground(rest) && k <= top && Carries(rest, k, p)
      ensures k < top
    {
      TopPinned(top, rest);
      assert Up(BlkIndex(k, p), 0) == BlkIndex(k, p);
    }

    lemma CarryFreed(x: Block)
      requires Valid() && x in live
      ensures var rest := (live - {x}) + reserved;
        Ground(rest) && rest + {x} == live + reserved && Carries(rest, x.level, Addr(x))
    {
      hide Tied, Canonical, Addr, BlkIndex, Overlap;
      var rest := (live - {x}) + reserved;
      assert rest + {x} == live + reserved;
      BlkIndexUp(x, x.level);
      assert Up(x.index, 0) == x.index;
      assert Block(0, 2 * 0) in reserved;
    }

    method Free(p0: nat, ghost x: Block)
      requires Valid() && x in live && p0 == Addr(x)
      modifies this`live, this`F, this`X, this`S, lists, Arrays()
      ensures Valid() && live == old(live) - {x}
      ensures Kept(old(lists.next), old(lists.prev), live)
    {
      hide Tied, Canonical, Addr, BlkIndex, Wellformed, Avail, InHeap, FreeAt, Carries, Unlisted, HeadsReserved, Within,
        OnNone, ListsFit, Ground;
      ghost var rest := (live - {x}) + reserved;
      CarryFreed(x);
      var k := Size(p0, x);
      var p := p0;
      live := live - {x};
      while k < top
        invariant k < top && Tied() && Carries(rest, k, p) && live == old(live) - {x}
        invariant Kept(old(lists.next), old(lists.prev), rest - reserved)
      {
        if FreeAt(top, rest, Block(k, BlkIndex(k, p))) { ReleaseStep(rest, k, p); }
        CarriedApart(rest, k, p);
        var done, p' := MergeOnce(k, p, rest);
        if done {
          InUseUnlisted(rest + {Block(k, BlkIndex(k, p))}, rest - reserved);
          break;
        }
        BelowTop(rest, k + 1, p');
        p := p';
        k := k + 1;
      }
      assert live <= rest - reserved;
      PushFree(k, p, BlkIndex(k, p));
    }
  }
}
