/** The consistency check at the end of buddy_init (kernel/alloc/buddy.c): the bytes
    that bd_initfree puts on the lists against the bytes that are neither metadata nor
    unavailable. */
module BuddyBootCheck {
  import opened BuddyBlocks
  import opened BuddyAddresses
  import opened BuddyBoot
  import opened BuddyMetadata

  /** Metadata within the first half, the end of the memory in the second half. */
  predicate HalfLayout(top: nat, meta: nat, usable: nat) {
    1 <= top && 0 < meta <= Pow2(top - 1) <= usable < Pow2(top)
  }

  /** bd_initfree_pair_left and bd_initfree_pair_right at level k, boundaries l and r. */
  ghost function Gain(k: nat, l: nat, r: nat): nat {
    (if PairMarked(l, r, l / 2) then BlkSize(k) else 0) +
    (if l < r && PairMarked(l, r, r / 2) then BlkSize(k) else 0)
  }

  /** What bd_initfree returns after the levels below k. */
  ghost function FreeTotal(meta: nat, usable: nat, k: nat): nat {
    if k == 0 then 0 else FreeTotal(meta, usable, k - 1) + Gain(k - 1, CeilUp(meta, k - 1), Up(usable, k - 1))
  }

  /** The single block between the boundaries is pushed from both sides. */
  predicate Clash(l: nat, r: nat) {
    l % 2 == 0 && r == l + 1
  }

  predicate ClashAtLevel(meta: nat, usable: nat, k: nat) {
    Clash(CeilUp(meta, k), Up(usable, k))
  }

  ghost function Excess(meta: nat, usable: nat, k: nat): nat {
    if k == 0 then 0 else
      Excess(meta, usable, k - 1) + if ClashAtLevel(meta, usable, k - 1) then BlkSize(k - 1) else 0
  }

  lemma {:induction false} Middle(top: nat, meta: nat, usable: nat, k: nat)
    requires HalfLayout(top, meta, usable) && k < top
    ensures 0 < CeilUp(meta, k) <= Pow2(top - 1 - k) <= Up(usable, k) < Pow2(top - k)
  {
    if k > 0 { Middle(top, meta, usable, k - 1); }
  }

  /** Without a clash, a boundary has a free buddy exactly when it is odd. */
  lemma MarkedEnds(l: nat, r: nat)
    requires l <= r && !Clash(l, r)
    ensures PairMarked(l, r, l / 2) <==> l < r && l % 2 == 1
    ensures l < r ==> (PairMarked(l, r, r / 2) <==> r % 2 == 1)
  {}

  lemma GainParts(k: nat, l: nat, r: nat)
    requires l < r || (l == r && l % 2 == 0)
    ensures Gain(k, l, r) == (if l % 2 == 1 then BlkSize(k) else 0) + (if r % 2 == 1 then BlkSize(k) else 0)
                             + (if Clash(l, r) then BlkSize(k) else 0)
  {}

  /** The byte positions of the two boundaries of level k. */
  function LeftEdge(meta: nat, k: nat): nat {
    Addr(Block(k, CeilUp(meta, k)))
  }

  function RightEdge(usable: nat, k: nat): nat {
    Addr(Block(k, Up(usable, k)))
  }

  lemma EdgesMove(meta: nat, usable: nat, k: nat)
    ensures LeftEdge(meta, k + 1) == LeftEdge(meta, k) + (if CeilUp(meta, k) % 2 == 1 then BlkSize(k) else 0)
    ensures RightEdge(usable, k) == RightEdge(usable, k + 1) + (if Up(usable, k) % 2 == 1 then BlkSize(k) else 0)
  {
    hide BlkSize;
    SizeLimit(k + 1);
    var l, r := CeilUp(meta, k), Up(usable, k);
    Distribute(r / 2, r % 2, BlkSize(k));
    Distribute((l + 1) / 2, 0, BlkSize(k));
    if l % 2 == 1 { Distribute(l / 2, 1, BlkSize(k)); }
  }

  lemma EdgesAtZero(meta: nat, usable: nat)
    ensures LeftEdge(meta, 0) == LEAF_SIZE * meta && RightEdge(usable, 0) == LEAF_SIZE * usable
  {
    assert BlkSize(0) == LEAF_SIZE;
  }

  lemma GainAtLevel(top: nat, meta: nat, usable: nat, k: nat)
    requires HalfLayout(top, meta, usable) && k < top - 1
    ensures var l, r, B := CeilUp(meta, k), Up(usable, k), BlkSize(k);
      Gain(k, l, r) == (if l % 2 == 1 then B else 0) + (if r % 2 == 1 then B else 0)
                       + (if ClashAtLevel(meta, usable, k) then B else 0)
  {
    hide Gain, BlkSize, Pow2, CeilUp, Up;
    Middle(top, meta, usable, k);
    EvenMiddle(top, k);
    GainParts(k, CeilUp(meta, k), Up(usable, k));
  }

  /** The bytes accounted for below level k are those left of the left boundary and right
      of the right one, plus what was counted twice. */
  lemma {:induction false} TotalBelow(top: nat, meta: nat, usable: nat, k: nat)
    requires HalfLayout(top, meta, usable) && k < top
    ensures FreeTotal(meta, usable, k) ==
      LeftEdge(meta, k) - LEAF_SIZE * meta + LEAF_SIZE * usable - RightEdge(usable, k) + Excess(meta, usable, k)
  {
    hide Gain, BlkSize, Pow2, LeftEdge, RightEdge, CeilUp, Up, HalfLayout, ClashAtLevel;
    if k == 0 {
      EdgesAtZero(meta, usable);
    } else {
      TotalBelow(top, meta, usable, k - 1);
      var l, r, B := CeilUp(meta, k - 1), Up(usable, k - 1), BlkSize(k - 1);
      var a, b := if l % 2 == 1 then B else 0, if r % 2 == 1 then B else 0;
      var c := if ClashAtLevel(meta, usable, k - 1) then B else 0;
      assert Gain(k - 1, l, r) == a + b + c by { GainAtLevel(top, meta, usable, k - 1); }
      assert LeftEdge(meta, k) == LeftEdge(meta, k - 1) + a by { EdgesMove(meta, usable, k - 1); }
      assert RightEdge(usable, k - 1) == RightEdge(usable, k) + b by { EdgesMove(meta, usable, k - 1); }
    }
  }

  lemma EvenMiddle(top: nat, k: nat)
    requires k < top - 1
    ensures Pow2(top - 1 - k) % 2 == 0
  {}

  /** bd_initfree finds all the memory, and exactly the clashing blocks twice. */
  lemma TotalWithExcess(top: nat, meta: nat, usable: nat)
    requires HalfLayout(top, meta, usable)
    ensures FreeTotal(meta, usable, top) == LEAF_SIZE * (usable - meta) + Excess(meta, usable, top - 1)
  {
    var k := top - 1;
    TotalBelow(top, meta, usable, k);
    Middle(top, meta, usable, k);
    assert Pow2(0) == 1 && Pow2(1) == 2;
    assert CeilUp(meta, k) == 1 == Up(usable, k);
    assert Gain(k, 1, 1) == 0;
  }

  lemma {:induction false} ExcessClash(meta: nat, usable: nat, n: nat)
    ensures Excess(meta, usable, n) == 0 <==> forall k: nat :: k < n ==> !ClashAtLevel(meta, usable, k)
  {
    if n > 0 { ExcessClash(meta, usable, n - 1); }
  }

  /** A clash at level k: a block of that level fits right of the middle of the heap, no
      two do, and none fits between the metadata and the middle. */
  lemma ClashAt(top: nat, meta: nat, usable: nat, k: nat)
    requires HalfLayout(top, meta, usable) && k < top - 1
    ensures ClashAtLevel(meta, usable, k)
       <==> Pow2(top - 1) - meta < Pow2(k) <= usable - Pow2(top - 1) < 2 * Pow2(k)
  {
    hide Pow2, CeilUp, Up;
    Middle(top, meta, usable, k);
    EvenMiddle(top, k);
    LeftAtMiddle(top, meta, usable, k);
    RightAtMiddle(top, meta, usable, k);
  }

  lemma LeftAtMiddle(top: nat, meta: nat, usable: nat, k: nat)
    requires HalfLayout(top, meta, usable) && k < top
    ensures CeilUp(meta, k) == Pow2(top - 1 - k) <==> Pow2(top - 1) - meta < Pow2(k)
  {
    hide Pow2, CeilUp;
    Middle(top, meta, usable, k);
    CeilBounds(meta, k);
    Pow2Add(top - 1 - k, k);
    Around(meta, CeilUp(meta, k), Pow2(top - 1 - k), Pow2(k));
  }

  lemma RightAtMiddle(top: nat, meta: nat, usable: nat, k: nat)
    requires HalfLayout(top, meta, usable) && k < top
    ensures Up(usable, k) == Pow2(top - 1 - k) + 1 <==> Pow2(k) <= usable - Pow2(top - 1) < 2 * Pow2(k)
  {
    hide Pow2, Up;
    Middle(top, meta, usable, k);
    UpBound(usable, k);
    Pow2Add(top - 1 - k, k);
    AroundDown(usable, Up(usable, k), Pow2(top - 1 - k), Pow2(k));
  }

  lemma Around(m: nat, l: nat, h: nat, P: nat)
    requires (l - 1) * P < m <= l * P && l <= h
    ensures l == h <==> h * P - m < P
  {
    assert (h - 1) * P == h * P - P;
    if l < h { assert l * P <= (h - 1) * P; }
  }

  lemma AroundDown(u: nat, r: nat, h: nat, P: nat)
    requires r * P <= u < (r + 1) * P && h <= r
    ensures r == h + 1 <==> P <= u - h * P < 2 * P
  {
    assert (h + 1) * P == h * P + P && (h + 2) * P == h * P + 2 * P;
    if r > h + 1 { assert r * P >= (h + 2) * P; }
    if r == h { assert (r + 1) * P == (h + 1) * P; }
  }

  lemma {:induction false} LargestPower(n: nat, k: nat) returns (j: nat)
    requires Pow2(k) <= n
    ensures k <= j && Pow2(j) <= n < 2 * Pow2(j)
    decreases n - Pow2(k)
  {
    if n < 2 * Pow2(k) {
      j := k;
    } else {
      j := LargestPower(n, k + 1);
    }
  }

  /** The memory right of the middle holds no power of two that the memory between the
      metadata and the middle cannot hold too. */
  ghost predicate Balanced(top: nat, meta: nat, usable: nat)
    requires HalfLayout(top, meta, usable)
  {
    forall k: nat :: Pow2(k) <= usable - Pow2(top - 1) ==> Pow2(k) <= Pow2(top - 1) - meta
  }

  /** The boot-time check passes exactly on balanced layouts. */
  lemma BootCheckExact(top: nat, meta: nat, usable: nat)
    requires HalfLayout(top, meta, usable)
    ensures FreeTotal(meta, usable, top) == LEAF_SIZE * (usable - meta) <==> Balanced(top, meta, usable)
  {
    TotalWithExcess(top, meta, usable);
    ExcessClash(meta, usable, top - 1);
    var h := Pow2(top - 1);
    if Balanced(top, meta, usable) {
      forall k: nat | k < top - 1 ensures !ClashAtLevel(meta, usable, k) {
        ClashAt(top, meta, usable, k);
      }
    } else {
      var k: nat :| Pow2(k) <= usable - h && Pow2(k) > h - meta;
      var j := LargestPower(usable - h, k);
      if j >= top - 1 { Pow2Mono(top - 1, j); }
      Pow2Mono(k, j);
      ClashAt(top, meta, usable, j);
    }
  }

  /** Metadata in the first quarter is enough, whatever the end of the memory. */
  lemma QuarterBalanced(top: nat, meta: nat, usable: nat)
    requires Layout(top, meta, usable)
    ensures HalfLayout(top, meta, usable) && Balanced(top, meta, usable)
  {
    forall k: nat | Pow2(k) <= usable - Pow2(top - 1) ensures Pow2(k) <= Pow2(top - 1) - meta {
      if k >= top - 1 { Pow2Mono(top - 1, k); } else { Pow2Mono(k, top - 2); }
    }
  }

  // ---- any metadata and any end of the memory ----

  lemma {:induction false} ShiftUp(x: nat, j: nat, m: nat, k: nat)
    requires k <= m
    ensures Up(x + j * Pow2(m), k) == Up(x, k) + j * Pow2(m - k)
    ensures CeilUp(x + j * Pow2(m), k) == CeilUp(x, k) + j * Pow2(m - k)
  {
    if k > 0 {
      ShiftUp(x, j, m, k - 1);
      TwiceMore(Up(x, k - 1), j, Pow2(m - k));
      TwiceMore(CeilUp(x, k - 1), j, Pow2(m - k));
    }
  }

  lemma TwiceMore(a: nat, j: nat, h: nat)
    ensures (a + j * (2 * h)) / 2 == a / 2 + j * h && (a + j * (2 * h) + 1) / 2 == (a + 1) / 2 + j * h
  {
    assert j * (2 * h) == 2 * (j * h);
  }

  /** Whole pairs further on, the pair bits look the same. */
  lemma ShiftGain(k: nat, l: nat, r: nat, s: nat)
    ensures Gain(k, l + 2 * s, r + 2 * s) == Gain(k, l, r)
  {
    hide BlkSize;
  }

  lemma {:induction false} ShiftTotal(meta: nat, usable: nat, j: nat, m: nat, k: nat)
    requires k <= m
    ensures FreeTotal(meta + j * Pow2(m), usable + j * Pow2(m), k) == FreeTotal(meta, usable, k)
  {
    hide Gain, CeilUp, Up;
    if k > 0 {
      ShiftTotal(meta, usable, j, m, k - 1);
      ShiftUp(meta, j, m, k - 1);
      ShiftUp(usable, j, m, k - 1);
      assert j * Pow2(m - (k - 1)) == 2 * (j * Pow2(m - k)) by { TwiceMore(0, j, Pow2(m - k)); }
      ShiftGain(k - 1, CeilUp(meta, k - 1), Up(usable, k - 1), j * Pow2(m - k));
    }
  }

  /** The smallest block that has both ends of the free memory in its inside: block j of level m,
      with the metadata ending at or before its middle and the memory at or after it. */
  predicate MeetAt(meta: nat, usable: nat, m: nat, j: nat) {
    && 0 < m && j * Pow2(m) < meta && meta - j * Pow2(m) <= Pow2(m - 1)
    && Pow2(m - 1) <= usable - j * Pow2(m) < Pow2(m)
  }

  lemma {:induction false} Meeting(top: nat, meta: nat, usable: nat) returns (m: nat, j: nat)
    requires 0 < meta <= usable < Pow2(top)
    ensures m <= top && j < Pow2(top - m) && MeetAt(meta, usable, m, j)
    decreases top
  {
    var h := Pow2(top - 1);
    if usable < h {
      m, j := Meeting(top - 1, meta, usable);
      Pow2Mono(top - 1 - m, top - m);
    } else if meta <= h {
      m, j := top, 0;
    } else {
      var i;
      m, i := Meeting(top - 1, meta - h, usable - h);
      j := i + Pow2(top - 1 - m);
      assert Pow2(top - m) == 2 * Pow2(top - 1 - m);
      assert j * Pow2(m) == i * Pow2(m) + h by {
        Pow2Add(top - 1 - m, m);
        Distributed(1, i, Pow2(top - 1 - m), Pow2(m));
      }
      hide Pow2;
    }
  }

  /** From level m on the two ends lie in one block, which counts as marked twice. */
  lemma {:induction false} AboveMeeting(meta: nat, usable: nat, m: nat, j: nat, k: nat)
    requires MeetAt(meta, usable, m, j) && m <= k
    ensures Up(usable, k) == Up(j, k - m) && CeilUp(meta, k) == Up(j, k - m) + 1
  {
    if k == m {
      var x, y := meta - j * Pow2(m), usable - j * Pow2(m);
      ShiftUp(x, j, m, m);
      ShiftUp(y, j, m, m);
      Middle(m, x, y, m - 1);
    } else {
      AboveMeeting(meta, usable, m, j, k - 1);
    }
  }

  lemma GainAbove(k: nat, r: nat)
    ensures Gain(k, r + 1, r) == if r % 2 == 0 then BlkSize(k) else 0
  {
    hide BlkSize;
  }

  /** Memory that the boot code credits to the lists beyond the block where the ends meet. */
  ghost function Phantom(j: nat, m: nat, k: nat): nat
    requires m <= k
    decreases k
  {
    if k == m then 0 else Phantom(j, m, k - 1) + if Up(j, k - 1 - m) % 2 == 0 then BlkSize(k - 1) else 0
  }

  lemma {:induction false} TotalAbove(meta: nat, usable: nat, m: nat, j: nat, k: nat)
    requires MeetAt(meta, usable, m, j) && m <= k
    ensures FreeTotal(meta, usable, k) == FreeTotal(meta, usable, m) + Phantom(j, m, k)
  {
    hide Gain, CeilUp, Up, BlkSize, MeetAt;
    if k > m {
      TotalAbove(meta, usable, m, j, k - 1);
      AboveMeeting(meta, usable, m, j, k - 1);
      GainAbove(k - 1, Up(j, k - 1 - m));
    }
  }

  /** Nothing is credited beyond the last block of a level, and something beyond any other. */
  lemma {:induction false} PhantomNone(j: nat, m: nat, k: nat)
    requires m <= k && j < Pow2(k - m)
    ensures Phantom(j, m, k) == 0 <==> j == Pow2(k - m) - 1
    decreases k - m
  {
    hide BlkSize;
    if k > m {
      PhantomBits(j, m, k);
      PhantomStep(j, m, k);
      PhantomNone(j / 2, m + 1, k);
    }
  }

  lemma PhantomBits(j: nat, m: nat, k: nat)
    requires m < k && j < Pow2(k - m)
    ensures j / 2 < Pow2(k - m - 1) && (j == Pow2(k - m) - 1 <==> j % 2 == 1 && j / 2 == Pow2(k - m - 1) - 1)
  {}

  lemma {:induction false} PhantomStep(j: nat, m: nat, k: nat)
    requires m < k
    ensures Phantom(j, m, k) == Phantom(j / 2, m + 1, k) + if j % 2 == 0 then BlkSize(m) else 0
    decreases k
  {
    hide BlkSize;
    if k > m + 1 {
      PhantomStep(j, m, k - 1);
      UpHalf(j, k - 1 - m);
    } else {
      assert Up(j, 0) == j;
    }
  }

  lemma {:induction false} UpHalf(j: nat, d: nat)
    requires d > 0
    ensures Up(j, d) == Up(j / 2, d - 1)
  {
    if d > 1 { UpHalf(j, d - 1); }
  }

  /** The free memory lies around the middle of a block of 2^m leaves that ends the heap, and is
      balanced there. */
  ghost predicate EndsBalanced(top: nat, meta: nat, usable: nat, m: nat) {
    && m <= top && Pow2(top) - Pow2(m) < meta <= usable
    && (var x, y := meta - (Pow2(top) - Pow2(m)), usable - (Pow2(top) - Pow2(m));
        HalfLayout(m, x, y) && Balanced(m, x, y))
  }

  lemma LastBlock(top: nat, m: nat, j: nat)
    requires m <= top && j == Pow2(top - m) - 1
    ensures j * Pow2(m) == Pow2(top) - Pow2(m)
  {
    Pow2Add(top - m, m);
  }

  /** What bd_initfree returns, for any metadata and any end of the memory behind it. */
  lemma TotalAnywhere(top: nat, meta: nat, usable: nat, m: nat, j: nat)
    requires 0 < meta <= usable < Pow2(top) && m <= top && j < Pow2(top - m) && MeetAt(meta, usable, m, j)
    ensures var x, y := meta - j * Pow2(m), usable - j * Pow2(m);
      && HalfLayout(m, x, y)
      && FreeTotal(meta, usable, top) == LEAF_SIZE * (usable - meta) + Excess(x, y, m - 1) + Phantom(j, m, top)
  {
    var x, y := meta - j * Pow2(m), usable - j * Pow2(m);
    TotalAbove(meta, usable, m, j, top);
    ShiftTotal(x, y, j, m, m);
    TotalWithExcess(m, x, y);
  }

  lemma Above(i: nat, j: nat, P: nat)
    requires i < j
    ensures i * P + P <= j * P
  {
    assert (i + 1) * P == i * P + P && (i + 1) * P <= j * P;
  }

  lemma NoneBetween(j: nat, t: nat, P: nat)
    ensures t * P <= j * P || j * P + P <= t * P
  {
    if j < t { Above(j, t, P); } else if t < j { Above(t, j, P); }
  }

  /** The middle of a block is a multiple of every smaller size. */
  lemma MiddleMultiple(m: nat, n: nat, i: nat) returns (t: nat)
    requires m < n
    ensures t * Pow2(m) == i * Pow2(n) + Pow2(n - 1)
  {
    t := i * Pow2(n - m) + Pow2(n - 1 - m);
    Pow2Add(n - m, m);
    Pow2Add(n - 1 - m, m);
    Distributed(i, Pow2(n - m), Pow2(n - 1 - m), Pow2(m));
  }

  lemma Distributed(i: nat, a: nat, b: nat, P: nat)
    ensures (i * a + b) * P == i * (a * P) + b * P
  {
    assert (i * a) * P == i * (a * P);
  }

  /** The ends meet in one place only. */
  lemma OneMeeting(meta: nat, usable: nat, m: nat, j: nat, n: nat, i: nat)
    requires MeetAt(meta, usable, m, j) && MeetAt(meta, usable, n, i)
    ensures n == m && j == i
  {
    hide Pow2;
    if m < n {
      var t := MiddleMultiple(m, n, i);
      NoneBetween(j, t, Pow2(m));
    } else if n < m {
      var t := MiddleMultiple(n, m, j);
      NoneBetween(i, t, Pow2(n));
    } else if i < j {
      Above(i, j, Pow2(m));
    } else if j < i {
      Above(j, i, Pow2(m));
    }
  }

  lemma EndsMeet(top: nat, meta: nat, usable: nat, n: nat)
    requires EndsBalanced(top, meta, usable, n)
    ensures Pow2(top - n) > 0 && MeetAt(meta, usable, n, Pow2(top - n) - 1)
  {
    hide Balanced;
    LastBlock(top, n, Pow2(top - n) - 1);
  }

  lemma CheckAtMeeting(top: nat, meta: nat, usable: nat, m: nat, j: nat)
    requires 0 < meta <= usable < Pow2(top) && m <= top && j < Pow2(top - m) && MeetAt(meta, usable, m, j)
    ensures HalfLayout(m, meta - j * Pow2(m), usable - j * Pow2(m))
    ensures FreeTotal(meta, usable, top) == LEAF_SIZE * (usable - meta)
       <==> j == Pow2(top - m) - 1 && Balanced(m, meta - j * Pow2(m), usable - j * Pow2(m))
  {
    TotalAnywhere(top, meta, usable, m, j);
    var x: nat, y: nat := meta - j * Pow2(m), usable - j * Pow2(m);
    hide FreeTotal, Excess, Phantom, Balanced, Pow2, MeetAt;
    PhantomNone(j, m, top);
    TotalWithExcess(m, x, y);
    BootCheckExact(m, x, y);
  }

  lemma EndsAtMeeting(top: nat, meta: nat, usable: nat, m: nat, j: nat)
    requires 0 < meta <= usable < Pow2(top) && m <= top && j < Pow2(top - m) && MeetAt(meta, usable, m, j)
    requires HalfLayout(m, meta - j * Pow2(m), usable - j * Pow2(m))
    ensures j == Pow2(top - m) - 1 && Balanced(m, meta - j * Pow2(m), usable - j * Pow2(m))
       <==> exists n :: EndsBalanced(top, meta, usable, n)
  {
    hide Balanced, Pow2;
    if j == Pow2(top - m) - 1 {
      LastBlock(top, m, j);
      assert Balanced(m, meta - j * Pow2(m), usable - j * Pow2(m)) ==> EndsBalanced(top, meta, usable, m);
    }
    hide HalfLayout, MeetAt;
    forall n: nat | EndsBalanced(top, meta, usable, n)
      ensures j == Pow2(top - m) - 1 && Balanced(m, meta - j * Pow2(m), usable - j * Pow2(m))
    {
      EndsMeet(top, meta, usable, n);
      OneMeeting(meta, usable, m, j, n, Pow2(top - n) - 1);
      LastBlock(top, m, j);
    }
  }

  /** The boot-time check passes exactly when the free memory lies, balanced, around the middle of
      a block that ends the heap: the heap itself or one of its last parts. */
  lemma BootCheckAnywhere(top: nat, meta: nat, usable: nat)
    requires 0 < meta <= usable < Pow2(top)
    ensures FreeTotal(meta, usable, top) == LEAF_SIZE * (usable - meta)
       <==> exists m :: EndsBalanced(top, meta, usable, m)
  {
    hide FreeTotal, Balanced, Pow2, HalfLayout, MeetAt, EndsBalanced;
    var m, j := Meeting(top, meta, usable);
    CheckAtMeeting(top, meta, usable, m, j);
    EndsAtMeeting(top, meta, usable, m, j);
  }

  /** The sizes for which buddy_init makes a heap of 32 leaves, 13 of them metadata, and memory up to
      leaf 24: the free block in the middle is listed twice, and the check fails. */
  lemma DoublePush(size: nat)
    requires 384 <= size < 400
    ensures BlkSize(4) < size < BlkSize(5) && MetaLeaves(5) == 13 && size / LEAF_SIZE == 24
    ensures HalfLayout(5, 13, 24) && FreeTotal(13, 24, 5) != LEAF_SIZE * (24 - 13)
  {
    hide MetaLeaves, FreeTotal;
    assert MetaLeaves(5) == 13 by { MetaAt5(); }
    assert Pow2(5) == 32 && Pow2(4) == 16 && Pow2(3) == 8;
    assert Pow2(3) <= 24 - Pow2(4) && !(Pow2(3) <= Pow2(4) - 13);
    BootCheckExact(5, 13, 24);
  }

  /** The sizes for which it makes a heap of 16 leaves with 11 of metadata, past the middle, and
      memory up to leaf 14 or 15: the check fails too. */
  lemma PastMiddle(size: nat)
    requires 224 <= size < 256
    ensures BlkSize(3) < size < BlkSize(4) && MetaLeaves(4) == 11 && 14 <= size / LEAF_SIZE <= 15
    ensures var usable := size / LEAF_SIZE; FreeTotal(11, usable, 4) != LEAF_SIZE * (usable - 11)
  {
    hide MetaLeaves, FreeTotal;
    var usable := size / LEAF_SIZE;
    assert MetaLeaves(4) == 11 by { MetaAt4(); }
    assert Pow2(4) == 16 && Pow2(3) == 8 && Pow2(2) == 4 && Pow2(1) == 2;
    assert Pow2(1) <= usable - 8 - Pow2(2) && !(Pow2(1) <= Pow2(2) - 3);
    BootCheckAnywhere(4, 11, usable);
    forall m: nat | m <= 4 ensures !EndsBalanced(4, 11, usable, m) {
      if m < 3 { Pow2Mono(m, 2); }
    }
  }
}
