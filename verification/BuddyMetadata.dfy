/** The space that buddy_init takes at the start of the heap for the size groups and
    their bit arrays (kernel/alloc/buddy.c:291-314). */
module BuddyMetadata {
  import opened BuddyAddresses

  const GROUP_SIZE: nat := 32  // sizeof(buddy_size_group_info)

  function RoundUp(n: nat, sz: nat): nat
    requires n > 0 && sz > 0
  {
    ((n - 1) / sz + 1) * sz
  }

  /** Bytes of the pair bits of a level with n blocks. */
  function XorBytes(n: nat): (s: nat)
    requires n > 0
    ensures s > 0
  {
    var sz := RoundUp(n, 8) / 8;
    if sz / 2 > 0 then sz / 2 else 1
  }

  /** Bytes of the split bits of a level with n blocks. */
  function SplitBytes(n: nat): (s: nat)
    requires n > 0
    ensures s > 0
  {
    RoundUp(n, 8) / 8
  }

  /** Pair bits of the levels below k. */
  function XorSum(top: nat, k: nat): nat
    requires k <= top + 1
  {
    if k == 0 then 0 else XorSum(top, k - 1) + XorBytes(Pow2(top - (k - 1)))
  }

  /** Split bits of the levels 1 to k - 1. */
  function SplitSum(top: nat, k: nat): nat
    requires k <= top + 1
  {
    if k <= 1 then 0 else SplitSum(top, k - 1) + SplitBytes(Pow2(top - (k - 1)))
  }

  function MetaBytes(top: nat): (m: nat)
    ensures m > 0
  {
    GROUP_SIZE * (top + 1) + XorSum(top, top + 1) + SplitSum(top, top + 1)
  }

  lemma {:induction false} XorSumShift(top: nat, k: nat)
    requires 0 < top && 0 < k <= top + 1
    ensures XorSum(top, k) == XorBytes(Pow2(top)) + XorSum(top - 1, k - 1)
  {
    if k > 1 { XorSumShift(top, k - 1); }
  }

  lemma {:induction false} SplitSumShift(top: nat, k: nat)
    requires 0 < top && 1 < k <= top + 1
    ensures SplitSum(top, k) == SplitBytes(Pow2(top - 1)) + SplitSum(top - 1, k - 1)
  {
    if k > 2 { SplitSumShift(top, k - 1); }
  }

  lemma BitsOfPower(j: nat)
    requires j >= 4
    ensures Pow2(j) == 16 * Pow2(j - 4)
    ensures XorBytes(Pow2(j)) == Pow2(j - 4) && SplitBytes(Pow2(j)) == 2 * Pow2(j - 4)
  {
    assert Pow2(j - 2) == 4 * Pow2(j - 4);
    assert Pow2(j) == 4 * Pow2(j - 2);
  }

  /** One more level adds a size group and at most an eighth of the leaves in bytes. */
  lemma MetaGrows(top: nat)
    requires top >= 6
    ensures MetaBytes(top + 1) == MetaBytes(top) + GROUP_SIZE + Pow2(top - 2)
  {
    XorSumShift(top + 1, top + 2);
    SplitSumShift(top + 1, top + 2);
    BitsOfPower(top + 1);
    BitsOfPower(top);
    assert Pow2(top - 2) == 4 * Pow2(top - 4) && Pow2(top - 3) == 2 * Pow2(top - 4);
  }

  lemma MetaAt6()
    ensures MetaBytes(6) == 245
  {
    assert Pow2(6) == 64 && Pow2(5) == 32 && Pow2(4) == 16 && Pow2(3) == 8 && Pow2(2) == 4 && Pow2(1) == 2;
    assert XorSum(6, 7) == 4 + 2 + 1 + 1 + 1 + 1 + 1;
    assert SplitSum(6, 7) == 4 + 2 + 1 + 1 + 1 + 1;
  }

  /** From 64 leaves on, the metadata stays in the first quarter of the heap. */
  lemma {:induction false} MetaFits(top: nat)
    requires top >= 6
    ensures MetaBytes(top) <= LEAF_SIZE * Pow2(top - 2)
    decreases top
  {
    if top == 6 {
      MetaAt6();
      assert Pow2(4) == 16;
    } else {
      MetaFits(top - 1);
      MetaGrows(top - 1);
      Pow2Mono(4, top - 3);
      assert Pow2(4) == 16;
      assert Pow2(top - 2) == 2 * Pow2(top - 3);
    }
  }

  /** The bit arrays are long enough for every pair and every block of their level. */
  lemma BitsSuffice(j: nat)
    ensures Pow2(j) <= 8 * SplitBytes(Pow2(j))
    ensures Pow2(j) <= 2 * 8 * XorBytes(Pow2(j))
  {
    RoundedUp(Pow2(j));
    if j >= 4 {
      BitsOfPower(j);
    } else {
      Pow2Mono(j, 3);
      assert Pow2(3) == 8;
    }
  }

  lemma RoundedUp(n: nat)
    requires n > 0
    ensures n <= 8 * (RoundUp(n, 8) / 8)
  {}

  /** End of the metadata, in leaves. */
  function MetaLeaves(top: nat): nat {
    RoundUp(MetaBytes(top), LEAF_SIZE) / LEAF_SIZE
  }

  /** Levels of up to 16 blocks take a byte for each kind of bit. */
  lemma {:induction false} SmallSums(top: nat, k: nat)
    requires k <= top + 1 && top <= 3
    ensures XorSum(top, k) == k && SplitSum(top, k) == if k == 0 then 0 else k - 1
  {
    hide XorBytes, SplitBytes;
    if k > 0 {
      SmallSums(top, k - 1);
      SmallLevel(top - (k - 1));
    }
  }

  lemma SmallLevel(j: nat)
    requires j <= 3
    ensures XorBytes(Pow2(j)) == SplitBytes(Pow2(j)) == 1
  {
    Pow2Mono(j, 3);
    assert Pow2(3) == 8;
    SmallBits(Pow2(j));
  }

  lemma SmallBits(n: nat)
    requires 0 < n <= 8
    ensures XorBytes(n) == SplitBytes(n) == 1
  {}

  lemma MetaAt4()
    ensures MetaBytes(4) == 169 && MetaLeaves(4) == 11
  {
    hide XorBytes, SplitBytes;
    XorSumShift(4, 5);
    SplitSumShift(4, 5);
    SmallSums(3, 4);
    assert Pow2(3) == 8 && Pow2(4) == 16;
    SmallBits(8);
    BitsOfPower(4);
    assert Pow2(0) == 1;
  }

  lemma MetaAt5()
    ensures MetaBytes(5) == 205 && MetaLeaves(5) == 13
  {
    hide XorBytes, SplitBytes;
    MetaAt4();
    XorSumShift(5, 6);
    SplitSumShift(5, 6);
    BitsOfPower(5);
    BitsOfPower(4);
    assert Pow2(0) == 1 && Pow2(1) == 2;
  }
}
