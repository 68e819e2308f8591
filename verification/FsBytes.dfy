/** Blocks of the file system as bytes, and the words and bits in them (kernel/file/fs.c). */
module FsBytes {

  const BSIZE: nat := 1024

  type Block = seq<nat>  // BSIZE bytes

  predicate IsBlock(d: Block) {
    |d| == BSIZE
  }

  function Put(d: Block, i: nat, x: nat): Block
    requires i < |d|
  {
    d[i := x]
  }

  function ZeroBlock(): (d: Block)
    ensures IsBlock(d)
  {
    seq(BSIZE, _ => 0)
  }

  // ---- 32-bit words, least significant byte first ----

  const TWO32: nat := 0x1_0000_0000

  function Word(d: Block, j: nat): nat
    requires 4 * j + 3 < |d|
  {
    d[4 * j] + 0x100 * d[4 * j + 1] + 0x1_0000 * d[4 * j + 2] + 0x100_0000 * d[4 * j + 3]
  }

  function PutWord(d: Block, j: nat, w: nat): (r: Block)
    requires 4 * j + 3 < |d|
    ensures |r| == |d|
  {
    d[4 * j := w % 0x100][4 * j + 1 := (w / 0x100) % 0x100][4 * j + 2 := (w / 0x1_0000) % 0x100]
     [4 * j + 3 := (w / 0x100_0000) % 0x100]
  }

  lemma WordBytes(w: nat)
    requires w < TWO32
    ensures w % 0x100 + 0x100 * ((w / 0x100) % 0x100) + 0x1_0000 * ((w / 0x1_0000) % 0x100)
         + 0x100_0000 * ((w / 0x100_0000) % 0x100) == w
  {}

  lemma WordPut(d: Block, j: nat, w: nat, k: nat)
    requires 4 * j + 3 < |d| && 4 * k + 3 < |d| && w < TWO32
    ensures Word(PutWord(d, j, w), k) == if k == j then w else Word(d, k)
  {
    if k == j { WordBytes(w); }
  }

  // ---- bits of a byte ----

  predicate BitOf(x: nat, k: nat) {
    if k == 0 then x % 2 == 1 else BitOf(x / 2, k - 1)
  }

  /** x | 1 << k */
  function SetBit(x: nat, k: nat): nat {
    if k == 0 then (if x % 2 == 1 then x else x + 1) else 2 * SetBit(x / 2, k - 1) + x % 2
  }

  /** x & ~(1 << k) */
  function ClearBit(x: nat, k: nat): nat {
    if k == 0 then (if x % 2 == 1 then x - 1 else x) else 2 * ClearBit(x / 2, k - 1) + x % 2
  }

  lemma {:induction false} ZeroBits(k: nat)
    ensures !BitOf(0, k)
  {
    if k > 0 { ZeroBits(k - 1); }
  }

  lemma {:induction false} BitSet(x: nat, k: nat, j: nat)
    ensures BitOf(SetBit(x, k), j) == (j == k || BitOf(x, j))
    decreases k
  {
    if k > 0 && j > 0 {
      BitSet(x / 2, k - 1, j - 1);
      assert SetBit(x, k) / 2 == SetBit(x / 2, k - 1);
    }
  }

  lemma {:induction false} BitClear(x: nat, k: nat, j: nat)
    ensures BitOf(ClearBit(x, k), j) == (j != k && BitOf(x, j))
    decreases k
  {
    if k > 0 && j > 0 {
      BitClear(x / 2, k - 1, j - 1);
      assert ClearBit(x, k) / 2 == ClearBit(x / 2, k - 1);
    }
  }
}
