/** Addresses of blocks, as byte offsets from the start of the heap
    (the index helpers of kernel/alloc/buddy.c). */
module BuddyAddresses {
  import opened BuddyBlocks

  const LEAF_SIZE: nat := 16

  function Pow2(n: nat): (p: nat)
    ensures p > 0
  {
    if n == 0 then 1 else 2 * Pow2(n - 1)
  }

  function BlkSize(k: nat): (s: nat)
    ensures s > 0
  {
    Pow2(k) * LEAF_SIZE
  }

  /** addr */
  function Addr(x: Block): nat {
    x.index * BlkSize(x.level)
  }

  /** blk_index */
  function BlkIndex(k: nat, p: nat): nat {
    Div(p, BlkSize(k))
  }

  function Div(n: nat, d: nat): nat
    requires d > 0
  {
    n / d
  }

  function Mod(n: nat, d: nat): (r: nat)
    requires d > 0
    ensures r < d
  {
    n % d
  }

  lemma HalfDiv(n: nat, d: nat)
    requires d > 0
    ensures n / (2 * d) == (n / d) / 2
  {
    HalfParts(n, d, n / d, n % d);
  }

  lemma HalfParts(n: nat, d: nat, q: nat, r: nat)
    requires n == q * d + r && r < d
    ensures n / (2 * d) == q / 2
  {
    if q % 2 == 0 {
      Distribute(q / 2, 0, d);
      DivUnique(n, 2 * d, q / 2, r);
    } else {
      Distribute(q / 2, 1, d);
      DivUnique(n, 2 * d, q / 2, d + r);
    }
  }

  lemma Distribute(h: nat, e: nat, d: nat)
    ensures (2 * h + e) * d == h * (2 * d) + e * d
  {}

  lemma DivUnique(n: nat, d: nat, q: nat, r: nat)
    requires d > 0 && n == q * d + r && r < d
    ensures n / d == q && n % d == r
  {
    var t := n / d - q;
    assert t * d == (n / d) * d - q * d == r - n % d;
    if t != 0 { AtLeastOnce(t, d); }
  }

  lemma AtLeastOnce(t: int, d: nat)
    requires t != 0
    ensures t * d >= d || t * d + d <= 0
  {
    if t > 0 {
      Nonneg(t - 1, d);
    } else {
      Nonneg(-t - 1, d);
      assert (-t - 1) * d == -(t * d) - d;
    }
  }

  lemma Nonneg(a: nat, b: nat)
    ensures a * b >= 0
  {}

  /** The block of a higher level that holds the start of x is the ancestor of x. */
  lemma {:induction false} BlkIndexUp(x: Block, j: nat)
    requires x.level <= j
    ensures BlkIndex(j, Addr(x)) == Up(x.index, j - x.level)
    decreases j - x.level
  {
    if j == x.level {
      DivUnique(Addr(x), BlkSize(j), x.index, 0);
    } else {
      BlkIndexUp(x, j - 1);
      assert BlkSize(j) == 2 * BlkSize(j - 1);
      HalfDiv(Addr(x), BlkSize(j - 1));
    }
  }

  /** Below the level of x, the block at the start of x lies inside x. */
  lemma {:induction false} StartWithin(x: Block, k: nat)
    requires k <= x.level
    ensures Within(Block(k, BlkIndex(k, Addr(x))), x)
    ensures Addr(Block(k, BlkIndex(k, Addr(x)))) == Addr(x)
    decreases x.level - k
  {
    if k == x.level {
      BlkIndexUp(x, k);
      assert Up(x.index, 0) == x.index;
    } else {
      StartWithin(x, k + 1);
      var c := Block(k + 1, BlkIndex(k + 1, Addr(x)));
      var l := Block(k, 2 * c.index);
      LeftHalf(k, c.index);
      BlkIndexUp(l, k);
      assert Up(l.index, 0) == l.index;
      WithinParent(l, x);
    }
  }

  /** A block starts where its left half starts. */
  lemma LeftHalf(k: nat, b: nat)
    ensures Addr(Block(k, 2 * b)) == Addr(Block(k + 1, b))
    ensures Addr(Block(k, 2 * b + 1)) == Addr(Block(k + 1, b)) + BlkSize(k)
  {
    assert BlkSize(k + 1) == 2 * BlkSize(k);
  }

  lemma {:induction false} SpanNested(x: Block, y: Block)
    requires Within(x, y)
    ensures Addr(y) <= Addr(x) && Addr(x) + BlkSize(x.level) <= Addr(y) + BlkSize(y.level)
    decreases y.level - x.level
  {
    assert Up(x.index, 0) == x.index;
    if x.level < y.level {
      WithinParent(x, y);
      SpanNested(Parent(x), y);
      LeftHalf(x.level, x.index / 2);
    }
  }

  lemma SameLevelApart(k: nat, b: nat, c: nat)
    requires b < c
    ensures Addr(Block(k, b)) + BlkSize(k) <= Addr(Block(k, c))
  {
    assert (b + 1) * BlkSize(k) == b * BlkSize(k) + BlkSize(k);
    assert (b + 1) * BlkSize(k) <= c * BlkSize(k);
  }

  ghost predicate InSpan(a: nat, x: Block) {
    Addr(x) <= a < Addr(x) + BlkSize(x.level)
  }

  /** Two blocks share a byte exactly when one lies inside the other. */
  lemma OverlapBytes(x: Block, y: Block)
    ensures Overlap(x, y) <==> exists a :: InSpan(a, x) && InSpan(a, y)
  {
    if Within(x, y) {
      SpanNested(x, y);
      assert InSpan(Addr(x), x) && InSpan(Addr(x), y);
    } else if Within(y, x) {
      SpanNested(y, x);
      assert InSpan(Addr(y), x) && InSpan(Addr(y), y);
    } else if x.level <= y.level {
      DisjointBytes(x, y);
    } else {
      DisjointBytes(y, x);
    }
  }

  lemma DisjointBytes(x: Block, y: Block)
    requires x.level <= y.level && !Within(x, y)
    ensures forall a :: !(InSpan(a, x) && InSpan(a, y))
  {
    var z := Block(y.level, Up(x.index, y.level - x.level));
    SpanNested(x, z);
    if z.index < y.index {
      SameLevelApart(y.level, z.index, y.index);
    } else {
      SameLevelApart(y.level, y.index, z.index);
    }
  }

  /** Blocks with the same start overlap. */
  lemma SameStart(x: Block, y: Block)
    requires Addr(x) == Addr(y)
    ensures Overlap(x, y)
  {
    OverlapBytes(x, y);
    assert InSpan(Addr(x), x) && InSpan(Addr(x), y);
  }

  lemma {:induction false} UpBound(b: nat, d: nat)
    ensures Up(b, d) == 0 <==> b < Pow2(d)
    ensures Up(b, d) * Pow2(d) <= b < (Up(b, d) + 1) * Pow2(d)
  {
    if d > 0 {
      UpBound(b, d - 1);
      HalfBounds(b, Up(b, d - 1), Pow2(d - 1));
    }
    if Up(b, d) > 0 { AtLeastOnce(Up(b, d), Pow2(d)); }
  }

  lemma HalfBounds(b: nat, u: nat, h: nat)
    requires u * h <= b < (u + 1) * h
    ensures (u / 2) * (2 * h) <= b < (u / 2 + 1) * (2 * h)
  {
    var v := u / 2;
    assert u * h == v * (2 * h) + (u % 2) * h;
    assert (v + 1) * (2 * h) == v * (2 * h) + 2 * h;
    assert (u + 1) * h == u * h + h;
  }

  lemma {:induction false} Pow2Add(a: nat, b: nat)
    ensures Pow2(a + b) == Pow2(a) * Pow2(b)
  {
    if b > 0 { Pow2Add(a, b - 1); }
  }

  lemma {:induction false} Pow2Mono(a: nat, b: nat)
    requires a <= b
    ensures Pow2(a) <= Pow2(b)
    decreases b
  {
    if a < b { Pow2Mono(a, b - 1); }
  }

  /** NBLK: level k has 2^(top-k) blocks. */
  lemma InHeapBound(top: nat, x: Block)
    requires x.level <= top
    ensures InHeap(top, x) <==> x.index < Pow2(top - x.level)
  {
    UpBound(x.index, top - x.level);
  }

  // ---- firstk ----

  /** The level buddy_malloc asks for: the smallest with blocks of at least n bytes. */
  function LevelFrom(n: nat, k: nat): (l: nat)
    ensures l >= k && BlkSize(l) >= n
    ensures forall j :: k <= j < l ==> BlkSize(j) < n
    decreases if BlkSize(k) < n then n - BlkSize(k) else 0
  {
    if BlkSize(k) < n then LevelFrom(n, k + 1) else k
  }

  const TWO63: nat := 0x8000_0000_0000_0000
  const TWO64: nat := 0x1_0000_0000_0000_0000

  /** firstk, with the 64-bit `size` of the source wrapping around. */
  method FirstK(n: nat) returns (k: nat)
    requires n <= TWO63
    ensures k == LevelFrom(n, 0)
  {
    k := 0;
    var size := LEAF_SIZE;
    while size < n
      invariant size == BlkSize(k)
      invariant LevelFrom(n, 0) == LevelFrom(n, k)
      invariant size < 2 * n || k == 0
      decreases n - size
    {
      k := k + 1;
      size := (size * 2) % TWO64;
    }
  }

  /** The value of `size` in firstk after k rounds. */
  function WrappedSize(k: nat): nat {
    if k == 0 then LEAF_SIZE else (WrappedSize(k - 1) * 2) % TWO64
  }

  lemma Pow2At59()
    ensures Pow2(59) == 0x800_0000_0000_0000
  {
    Pow2At16();
    Pow2Add(16, 16);
    Pow2Add(32, 16);
    Pow2Add(48, 11);
  }

  lemma Pow2At16()
    ensures Pow2(11) == 0x800 && Pow2(16) == 0x1_0000
  {
    Pow2Add(11, 5);
  }

  lemma {:induction false} WrappedSizes(k: nat)
    ensures WrappedSize(k) == if k < 60 then BlkSize(k) else 0
    ensures k < 60 ==> BlkSize(k) <= TWO63
  {
    hide BlkSize, Pow2;
    if k > 0 {
      WrappedSizes(k - 1);
      SizeLimit(k - 1);
      DoubleWrapped(WrappedSize(k - 1));
    } else {
      assert BlkSize(0) == LEAF_SIZE by { LeafSize(); }
    }
    SizeLimit(k);
  }

  lemma DoubleWrapped(s: nat)
    requires s <= TWO63
    ensures (s * 2) % TWO64 == if s == TWO63 then 0 else 2 * s
  {}

  lemma LeafSize()
    ensures BlkSize(0) == LEAF_SIZE
  {}

  lemma SizeLimit(k: nat)
    ensures k < 60 ==> BlkSize(k) <= TWO63
    ensures k == 59 ==> BlkSize(k) == TWO63
    ensures k > 0 ==> BlkSize(k) == 2 * BlkSize(k - 1)
  {
    Pow2At59();
    if k < 60 { Pow2Mono(k, 59); }
  }

  /** The loop of firstk ends exactly for requests of at most 2^63 bytes. */
  lemma FirstKEnds(n: nat)
    ensures (exists k :: WrappedSize(k) >= n) <==> n <= TWO63
  {
    WrappedSizes(59);
    Pow2At59();
    if n > TWO63 {
      forall k ensures WrappedSize(k) < n {
        WrappedSizes(k);
      }
    }
  }
}
