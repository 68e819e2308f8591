/** The free-block bitmap (kernel/file/fs.c, balloc and bfree). */
module FsBitmap {
  import opened FsBytes

  const BPB: nat := 8192  // bits in a block

  /** Where things are: the bitmap from bmapstart, the inodes from inodestart, data from datastart. */
  datatype Geometry = Geometry(size: nat, inodestart: nat, bmapstart: nat, datastart: nat)

  predicate GeometryOk(g: Geometry) {
    0 < g.inodestart <= g.bmapstart && g.bmapstart + g.size / BPB < g.datastart <= g.size < TWO32
  }

  function BitBlock(g: Geometry, b: nat): nat {  // BBLOCK
    g.bmapstart + b / BPB
  }

  type Blocks = seq<Block>

  ghost predicate BlocksOk(g: Geometry, blocks: Blocks) {
    GeometryOk(g) && |blocks| == g.size && forall b :: 0 <= b < |blocks| ==> IsBlock(blocks[b])
  }

  function Cell(b: nat): nat {
    (b % BPB) / 8
  }

  lemma BitPlace(g: Geometry, b: nat)
    requires GeometryOk(g) && b < g.size
    ensures BitBlock(g, b) < g.datastart && Cell(b) < BSIZE
  {}

  predicate Used(g: Geometry, blocks: Blocks, b: nat)
    requires BlocksOk(g, blocks) && b < g.size
  {
    BitPlace(g, b);
    BitOf(blocks[BitBlock(g, b)][Cell(b)], b % 8)
  }

  function Mark(g: Geometry, blocks: Blocks, b: nat, used: bool): (r: Blocks)
    requires BlocksOk(g, blocks) && b < g.size
    ensures |r| == |blocks|
  {
    BitPlace(g, b);
    var d := blocks[BitBlock(g, b)];
    blocks[BitBlock(g, b) := Put(d, Cell(b), if used then SetBit(d[Cell(b)], b % 8) else ClearBit(d[Cell(b)], b % 8))]
  }

  lemma SameBit(b: nat, c: nat)
    ensures b / BPB == c / BPB && Cell(b) == Cell(c) && b % 8 == c % 8 <==> b == c
  {
    assert forall x: nat :: x % 8 == (x % BPB) % 8;
    assert b % BPB == 8 * Cell(b) + b % 8;
    assert c % BPB == 8 * Cell(c) + c % 8;
  }

  /** Bit j of byte x of the c-th block of the bitmap is that of block 8192 c + 8 x + j: every bit is some
      block's. */
  lemma BitAt(g: Geometry, c: nat, x: nat, j: nat)
    requires x < BSIZE && j < 8
    ensures var b := (c * BSIZE + x) * 8 + j; BitBlock(g, b) == g.bmapstart + c && Cell(b) == x && b % 8 == j
  {
    var b := (c * BSIZE + x) * 8 + j;
    assert b == c * 8192 + (8 * x + j) && 8 * x + j < 8192;
    assert b / 8192 == c && b % 8192 == 8 * x + j;
  }

  lemma UsedAfter(g: Geometry, blocks: Blocks, b: nat, used: bool, c: nat)
    requires BlocksOk(g, blocks) && b < g.size && c < g.size
    ensures BlocksOk(g, Mark(g, blocks, b, used))
    ensures Used(g, Mark(g, blocks, b, used), c) == if c == b then used else Used(g, blocks, c)
  {
    BitPlace(g, b);
    BitPlace(g, c);
    SameBit(b, c);
    var x := blocks[BitBlock(g, b)][Cell(b)];
    BitSet(x, b % 8, c % 8);
    BitClear(x, b % 8, c % 8);
  }

  /** A block of the bitmap. */
  predicate InBitmap(g: Geometry, c: nat) {
    g.bmapstart <= c <= g.bmapstart + g.size / BPB
  }

  /** Only the bits of a set of blocks changed: they are free now. */
  ghost predicate OnlyFreed(g: Geometry, blocks: Blocks, blocks': Blocks, freed: set<nat>)
    requires BlocksOk(g, blocks)
  {
    && BlocksOk(g, blocks')
    && (forall b: nat :: b < g.size ==> Used(g, blocks', b) == (Used(g, blocks, b) && b !in freed))
    && (forall c: nat :: c < g.size && !InBitmap(g, c) ==> blocks'[c] == blocks[c])
  }

  lemma FreeOne(g: Geometry, blocks: Blocks, blocks': Blocks, freed: set<nat>, b: nat)
    requires BlocksOk(g, blocks) && OnlyFreed(g, blocks, blocks', freed) && b < g.size
    ensures OnlyFreed(g, blocks, Mark(g, blocks', b, false), freed + {b})
  {
    forall c: nat | c < g.size
      ensures BlocksOk(g, Mark(g, blocks', b, false)) &&
              Used(g, Mark(g, blocks', b, false), c) == (Used(g, blocks, c) && c !in freed + {b})
    {
      UsedAfter(g, blocks', b, false, c);
    }
    UsedAfter(g, blocks', b, false, b);
  }

  lemma SameFreed(g: Geometry, blocks: Blocks)
    requires BlocksOk(g, blocks)
    ensures OnlyFreed(g, blocks, blocks, {})
  {}

  lemma FreedTrans(g: Geometry, b0: Blocks, b1: Blocks, b2: Blocks, s: set<nat>, t: set<nat>)
    requires BlocksOk(g, b0) && OnlyFreed(g, b0, b1, s) && OnlyFreed(g, b1, b2, t)
    ensures OnlyFreed(g, b0, b2, s + t)
  {
    hide Used;
  }

  /** The log has every block that changed, and what it had. */
  ghost predicate Covered(blocks: Blocks, logged: set<nat>, blocks': Blocks, logged': set<nat>) {
    && logged <= logged' && |blocks'| == |blocks|
    && forall c: nat :: c < |blocks| && blocks'[c] != blocks[c] ==> c in logged'
  }

  lemma CoveredTrans(b0: Blocks, l0: set<nat>, b1: Blocks, l1: set<nat>, b2: Blocks, l2: set<nat>)
    requires Covered(b0, l0, b1, l1) && Covered(b1, l1, b2, l2)
    ensures Covered(b0, l0, b2, l2)
  {
    forall c: nat | c < |b0| && b2[c] != b0[c] ensures c in l2 { assert b1[c] != b0[c] || b2[c] != b1[c]; }
  }
}
