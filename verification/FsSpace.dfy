/** How many blocks the disk has left, and how many a file still needs for a range of its blocks
    (kernel/file/fs.c, balloc and bmap). */
module FsSpace {
  import opened SetSizes
  import opened FsBytes
  import opened FsBitmap
  import opened FsInodes

  // ---- free blocks ----

  ghost function FreeBelow(g: Geometry, blocks: Blocks, n: nat): nat
    requires BlocksOk(g, blocks) && n <= g.size
  {
    if n == 0 then 0 else FreeBelow(g, blocks, n - 1) + if Used(g, blocks, n - 1) then 0 else 1
  }

  ghost function FreeBlocks(g: Geometry, blocks: Blocks): nat
    requires BlocksOk(g, blocks)
  {
    FreeBelow(g, blocks, g.size)
  }

  lemma {:induction false} FreeSame(g: Geometry, blocks: Blocks, blocks': Blocks, n: nat)
    requires BlocksOk(g, blocks) && BlocksOk(g, blocks') && n <= g.size
    requires forall c: nat :: c < g.size ==> Used(g, blocks', c) == Used(g, blocks, c)
    ensures FreeBelow(g, blocks', n) == FreeBelow(g, blocks, n)
  {
    hide Used;
    if n > 0 { FreeSame(g, blocks, blocks', n - 1); }
  }

  lemma {:induction false} FreeTaken(g: Geometry, blocks: Blocks, blocks': Blocks, b: nat, n: nat)
    requires BlocksOk(g, blocks) && BlocksOk(g, blocks') && n <= g.size && b < g.size && !Used(g, blocks, b)
    requires forall c: nat :: c < g.size ==> Used(g, blocks', c) == (Used(g, blocks, c) || c == b)
    ensures FreeBelow(g, blocks, n) == FreeBelow(g, blocks', n) + if b < n then 1 else 0
  {
    hide Used;
    if n > 0 { FreeTaken(g, blocks, blocks', b, n - 1); }
  }

  lemma {:induction false} FreeNone(g: Geometry, blocks: Blocks, n: nat)
    requires BlocksOk(g, blocks) && n <= g.size
    ensures FreeBelow(g, blocks, n) == 0 <==> forall c: nat :: c < n ==> Used(g, blocks, c)
  {
    hide Used;
    if n > 0 { FreeNone(g, blocks, n - 1); }
  }

  /** Changes behind the bitmap free nothing. */
  lemma FreeBehind(g: Geometry, blocks: Blocks, blocks': Blocks)
    requires BlocksOk(g, blocks) && BlocksOk(g, blocks')
    requires forall c: nat :: c < g.size && g.bmapstart <= c < g.datastart ==> blocks'[c] == blocks[c]
    ensures FreeBlocks(g, blocks') == FreeBlocks(g, blocks)
  {
    forall c: nat | c < g.size ensures Used(g, blocks', c) == Used(g, blocks, c) { BitPlace(g, c); }
    FreeSame(g, blocks, blocks', g.size);
  }

  /** balloc takes one. */
  lemma FreeAllocated(g: Geometry, blocks: Blocks, inodes: Inodes, owner: Owners, b: nat)
    requires Owned(g, blocks, inodes, owner, {}) && b < g.size && !Used(g, blocks, b)
    ensures BlocksOk(g, Allocated(g, blocks, b)) && FreeBlocks(g, blocks) == FreeBlocks(g, Allocated(g, blocks, b)) + 1
  {
    Allocate(g, blocks, inodes, owner, {}, b);
    var blocks' := Allocated(g, blocks, b);
    hide Owned, BitOf, SetBit, ClearBit, Put;
    UsedAfter(g, blocks, b, true, b);
    var marked := Mark(g, blocks, b, true);
    forall c: nat | c < g.size ensures Used(g, blocks', c) == (Used(g, blocks, c) || c == b) {
      UsedAfter(g, blocks, b, true, c);
      BitPlace(g, c);
      assert blocks'[BitBlock(g, c)] == marked[BitBlock(g, c)];
    }
    FreeTaken(g, blocks, blocks', b, g.size);
  }

  // ---- blocks that a file needs ----

  /** How many of a file's blocks from lo to hi are missing. */
  function Lacking(blocks: Blocks, ino: Inode, lo: nat, hi: nat): nat
    requires InodeOk(ino) && hi <= MAXFILE
    decreases hi - lo
  {
    if lo >= hi then 0 else (if Slot(blocks, ino, DataSlot(lo)) == 0 then 1 else 0) + Lacking(blocks, ino, lo + 1, hi)
  }

  /** How many blocks it takes to have them all, with the indirect block. */
  function Needed(blocks: Blocks, ino: Inode, lo: nat, hi: nat): nat
    requires InodeOk(ino) && hi <= MAXFILE
  {
    Lacking(blocks, ino, lo, hi) + if lo < hi && NDIRECT < hi && ino.addrs[NDIRECT] == 0 then 1 else 0
  }

  ghost function Surplus(g: Geometry, blocks: Blocks, ino: Inode, lo: nat, hi: nat): int
    requires BlocksOk(g, blocks) && InodeOk(ino) && hi <= MAXFILE
  {
    FreeBlocks(g, blocks) - Needed(blocks, ino, lo, hi)
  }

  lemma {:induction false} LackingOne(blocks: Blocks, ino: Inode, blocks': Blocks, ino': Inode, lo: nat, hi: nat, j: nat)
    requires InodeOk(ino) && InodeOk(ino') && hi <= MAXFILE && j < MAXFILE
    requires forall l: nat :: l < MAXFILE && l != j ==> Slot(blocks', ino', DataSlot(l)) == Slot(blocks, ino, DataSlot(l))
    requires Slot(blocks, ino, DataSlot(j)) != 0 ==> Slot(blocks', ino', DataSlot(j)) == Slot(blocks, ino, DataSlot(j))
    ensures Lacking(blocks, ino, lo, hi) == Lacking(blocks', ino', lo, hi)
      + if lo <= j < hi && Slot(blocks, ino, DataSlot(j)) == 0 && Slot(blocks', ino', DataSlot(j)) != 0 then 1 else 0
    decreases hi - lo
  {
    hide Slot, DataSlot;
    if lo < hi { LackingOne(blocks, ino, blocks', ino', lo + 1, hi, j); }
  }

  lemma {:induction false} LackingNone(blocks: Blocks, ino: Inode, lo: nat, hi: nat)
    requires InodeOk(ino) && hi <= MAXFILE
    ensures Lacking(blocks, ino, lo, hi) == 0 <==> forall j: nat :: lo <= j < hi ==> Slot(blocks, ino, DataSlot(j)) != 0
    decreases hi - lo
  {
    hide Slot, DataSlot;
    if lo < hi { LackingNone(blocks, ino, lo + 1, hi); }
  }

  /** Nothing is needed exactly when every block is there. */
  lemma NeededNone(blocks: Blocks, ino: Inode, lo: nat, hi: nat)
    requires InodeOk(ino) && hi <= MAXFILE
    ensures Needed(blocks, ino, lo, hi) == 0 <==> forall j: nat :: lo <= j < hi ==> Slot(blocks, ino, DataSlot(j)) != 0
  {
    LackingNone(blocks, ino, lo, hi);
    if lo < hi && NDIRECT < hi && (forall j: nat :: lo <= j < hi ==> Slot(blocks, ino, DataSlot(j)) != 0) {
      assert Slot(blocks, ino, DataSlot(hi - 1)) != 0;
    }
  }

  /** One of a file's blocks has been mapped, if it was not and the disk had room, and the indirect
      block if that was needed for it. */
  ghost predicate TookOne(g: Geometry, blocks: Blocks, ino: Inode, blocks': Blocks, ino': Inode, j: nat) {
    && BlocksOk(g, blocks) && BlocksOk(g, blocks') && InodeOk(ino) && InodeOk(ino') && j < MAXFILE
    && (forall l: nat :: l < MAXFILE && l != j ==> Slot(blocks', ino', DataSlot(l)) == Slot(blocks, ino, DataSlot(l)))
    && (Slot(blocks, ino, DataSlot(j)) != 0 ==> Slot(blocks', ino', DataSlot(j)) == Slot(blocks, ino, DataSlot(j)))
    && (ino.addrs[NDIRECT] != 0 || j < NDIRECT ==> ino'.addrs[NDIRECT] == ino.addrs[NDIRECT])
    && FreeBlocks(g, blocks) == FreeBlocks(g, blocks')
       + (if Slot(blocks, ino, DataSlot(j)) == 0 && Slot(blocks', ino', DataSlot(j)) != 0 then 1 else 0)
       + (if ino.addrs[NDIRECT] == 0 && ino'.addrs[NDIRECT] != 0 then 1 else 0)
  }

  /** What bmap takes from the disk is what the file no longer needs. */
  lemma SurplusKept(g: Geometry, blocks: Blocks, ino: Inode, blocks': Blocks, ino': Inode, lo: nat, hi: nat, j: nat)
    requires TookOne(g, blocks, ino, blocks', ino', j) && lo <= j < hi <= MAXFILE
    ensures Surplus(g, blocks', ino', lo, hi) == Surplus(g, blocks, ino, lo, hi)
  {
    hide Slot, DataSlot, FreeBlocks;
    LackingOne(blocks, ino, blocks', ino', lo, hi, j);
  }

  /** The bitmap and the places of a file's blocks are the same. */
  ghost predicate SameSpace(g: Geometry, blocks: Blocks, ino: Inode, blocks': Blocks, ino': Inode) {
    && BlocksOk(g, blocks) && BlocksOk(g, blocks') && InodeOk(ino) && InodeOk(ino')
    && (forall l: nat :: l < MAXFILE ==> Slot(blocks', ino', DataSlot(l)) == Slot(blocks, ino, DataSlot(l)))
    && ino'.addrs[NDIRECT] == ino.addrs[NDIRECT] && FreeBlocks(g, blocks') == FreeBlocks(g, blocks)
  }

  lemma TookSame(g: Geometry, b0: Blocks, ino0: Inode, b1: Blocks, ino1: Inode, b2: Blocks, ino2: Inode, j: nat)
    requires TookOne(g, b0, ino0, b1, ino1, j) && SameSpace(g, b1, ino1, b2, ino2)
    ensures TookOne(g, b0, ino0, b2, ino2, j)
  {
    hide Slot, DataSlot, FreeBlocks;
  }

  /** The blocks from lo to hi hold the bytes of a write. */
  predicate Around(off: nat, n: nat, lo: nat, hi: nat) {
    lo <= off / BSIZE && off + n <= hi * BSIZE && hi <= MAXFILE
  }

  /** Whatever range one looks at that holds the write, the disk has lost what the file has got. */
  ghost predicate Balanced(g: Geometry, b0: Blocks, ino0: Inode, blocks: Blocks, ino: Inode, off: nat, n: nat) {
    && BlocksOk(g, b0) && BlocksOk(g, blocks) && InodeOk(ino0) && InodeOk(ino)
    && forall lo: nat, hi: nat :: Around(off, n, lo, hi) ==> Surplus(g, blocks, ino, lo, hi) == Surplus(g, b0, ino0, lo, hi)
  }

  lemma BalancedNone(g: Geometry, blocks: Blocks, ino: Inode, off: nat, n: nat)
    requires BlocksOk(g, blocks) && InodeOk(ino)
    ensures Balanced(g, blocks, ino, blocks, ino, off, n)
  {}

  lemma BalancedNext(g: Geometry, b0: Blocks, ino0: Inode, b1: Blocks, ino1: Inode, b2: Blocks, ino2: Inode,
                     off: nat, n: nat, at: nat)
    requires Balanced(g, b0, ino0, b1, ino1, off, n) && TookOne(g, b1, ino1, b2, ino2, at / BSIZE) && off <= at < off + n
    ensures Balanced(g, b0, ino0, b2, ino2, off, n)
  {
    hide Surplus, Slot, DataSlot, FreeBlocks;
    forall lo: nat, hi: nat | Around(off, n, lo, hi) ensures Surplus(g, b2, ino2, lo, hi) == Surplus(g, b0, ino0, lo, hi) {
      assert lo <= at / BSIZE < hi;
      SurplusKept(g, b1, ino1, b2, ino2, lo, hi, at / BSIZE);
    }
  }

  lemma SurplusSame(g: Geometry, blocks: Blocks, ino: Inode, blocks': Blocks, ino': Inode, lo: nat, hi: nat)
    requires SameSpace(g, blocks, ino, blocks', ino') && hi <= MAXFILE
    ensures Surplus(g, blocks', ino', lo, hi) == Surplus(g, blocks, ino, lo, hi)
  {
    hide Slot, DataSlot, FreeBlocks;
    LackingOne(blocks, ino, blocks', ino', lo, hi, 0);
  }

  lemma BalancedSame(g: Geometry, b0: Blocks, ino0: Inode, b1: Blocks, ino1: Inode, b2: Blocks, ino2: Inode, off: nat, n: nat)
    requires Balanced(g, b0, ino0, b1, ino1, off, n) && SameSpace(g, b1, ino1, b2, ino2)
    ensures Balanced(g, b0, ino0, b2, ino2, off, n)
  {
    hide Surplus, Slot, DataSlot, FreeBlocks;
    forall lo: nat, hi: nat | Around(off, n, lo, hi) ensures Surplus(g, b2, ino2, lo, hi) == Surplus(g, b0, ino0, lo, hi) {
      SurplusSame(g, b1, ino1, b2, ino2, lo, hi);
    }
  }

  // ---- how a write ends ----

  /** r is where a block of the write begins. */
  predicate AtPiece(off: nat, r: nat) {
    r == 0 || (off + r) % BSIZE == 0
  }

  /** How far the block goes, or the write. */
  function PieceEnd(off: nat, n: nat, r: nat): nat
    requires r < n
  {
    r + Min(n - r, BSIZE - (off + r) % BSIZE)
  }

  /** Why a write of n bytes ends after r of them: there is no block for the next ones and the disk is
      full, or there is and they go past what can be read of the source. */
  ghost predicate Stopped(g: Geometry, blocks: Blocks, ino: Inode, off: nat, n: nat, readable: nat, r: nat) {
    && BlocksOk(g, blocks) && InodeOk(ino) && r < n && off + n <= MAXFILE * BSIZE && AtPiece(off, r)
    && if Slot(blocks, ino, DataSlot((off + r) / BSIZE)) == 0 then FreeBlocks(g, blocks) == 0 else PieceEnd(off, n, r) > readable
  }

  /** A write of n bytes has put r of them in place. */
  ghost predicate Ended(g: Geometry, b0: Blocks, ino0: Inode, blocks: Blocks, ino: Inode, off: nat, n: nat, readable: nat, r: nat) {
    && Balanced(g, b0, ino0, blocks, ino, off, n) && r <= n && r <= readable
    && (r < n ==> Stopped(g, blocks, ino, off, n, readable, r))
  }

  lemma EndedSame(g: Geometry, b0: Blocks, ino0: Inode, b1: Blocks, ino1: Inode, b2: Blocks, ino2: Inode, off: nat, n: nat,
                  readable: nat, r: nat)
    requires Ended(g, b0, ino0, b1, ino1, off, n, readable, r) && SameSpace(g, b1, ino1, b2, ino2)
    ensures Ended(g, b0, ino0, b2, ino2, off, n, readable, r)
  {
    BalancedSame(g, b0, ino0, b1, ino1, b2, ino2, off, n);
    hide Balanced, Slot, DataSlot, FreeBlocks;
  }

  /** How many blocks a run of bytes touches. */
  function Span(off: nat, n: nat): nat {
    if n == 0 then 0 else (off + n - 1) / BSIZE - off / BSIZE + 1
  }

  /** Blocks that a write needs before it is made. */
  function WriteNeeds(blocks: Blocks, ino: Inode, off: nat, n: nat): nat
    requires InodeOk(ino) && off + n <= MAXFILE * BSIZE
  {
    if n == 0 then 0 else Needed(blocks, ino, off / BSIZE, off / BSIZE + Span(off, n))
  }

  /** Every block of the write is there. */
  ghost predicate AllThere(blocks: Blocks, ino: Inode, off: nat, n: nat)
    requires InodeOk(ino) && off + n <= MAXFILE * BSIZE
  {
    forall j: nat :: off / BSIZE <= j < off / BSIZE + Span(off, n) ==> Slot(blocks, ino, DataSlot(j)) != 0
  }

  /** From a source that can be read, all is written exactly when the disk has the blocks it takes. */
  lemma WriteExact(g: Geometry, b0: Blocks, ino0: Inode, blocks: Blocks, ino: Inode, off: nat, n: nat, readable: nat, r: nat)
    requires Ended(g, b0, ino0, blocks, ino, off, n, readable, r) && off + n <= MAXFILE * BSIZE && n <= readable
    requires r == n ==> AllThere(blocks, ino, off, n)
    ensures r == n <==> FreeBlocks(g, b0) >= WriteNeeds(b0, ino0, off, n)
    ensures AllThere(b0, ino0, off, n) ==> r == n
  {
    if n > 0 {
      var lo, hi := off / BSIZE, off / BSIZE + Span(off, n);
      SpanEnd(off, n, r);
      NeededNone(blocks, ino, lo, hi);
      NeededNone(b0, ino0, lo, hi);
      hide Slot, DataSlot, FreeBlocks, Needed, Span;
      assert Around(off, n, lo, hi);
      assert Surplus(g, blocks, ino, lo, hi) == Surplus(g, b0, ino0, lo, hi);
    }
  }

  lemma SpanEnd(off: nat, n: nat, r: nat)
    requires 0 < n && off + n <= MAXFILE * BSIZE && r <= n
    ensures off / BSIZE < off / BSIZE + Span(off, n) <= MAXFILE && off + n <= (off / BSIZE + Span(off, n)) * BSIZE
    ensures r < n ==> off / BSIZE <= (off + r) / BSIZE < off / BSIZE + Span(off, n)
    ensures r < n && AtPiece(off, r) ==> PieceEnd(off, n, r) <= n
  {}

  // ---- a write in several parts ----

  /** A part of a write keeps the balance of the whole. */
  lemma BalancedPart(g: Geometry, b0: Blocks, ino0: Inode, b1: Blocks, ino1: Inode, b2: Blocks, ino2: Inode,
                     off: nat, n: nat, at: nat, m: nat)
    requires Balanced(g, b0, ino0, b1, ino1, off, n) && Balanced(g, b1, ino1, b2, ino2, at, m) && off <= at && at + m <= off + n
    ensures Balanced(g, b0, ino0, b2, ino2, off, n)
  {
    hide Surplus;
    forall lo: nat, hi: nat | Around(off, n, lo, hi) ensures Surplus(g, b2, ino2, lo, hi) == Surplus(g, b0, ino0, lo, hi) {
      assert Around(at, m, lo, hi);
    }
  }

  function Rest(readable: nat, index: nat): nat {
    if readable < index then 0 else readable - index
  }

  /** A write of n bytes, made in parts, has put w of them in place; if that is not all, the part from
      index on has stopped there. */
  ghost predicate PartsEnded(g: Geometry, b0: Blocks, ino0: Inode, blocks: Blocks, ino: Inode, off: nat, n: nat, readable: nat,
                             w: nat, index: nat, m: nat) {
    && Balanced(g, b0, ino0, blocks, ino, off, n) && w <= n && w <= readable
    && (w < n ==> index <= w && index + m <= n && Stopped(g, blocks, ino, off + index, m, Rest(readable, index), w - index))
  }

  lemma PartsExact(g: Geometry, b0: Blocks, ino0: Inode, blocks: Blocks, ino: Inode, off: nat, n: nat, readable: nat,
                   w: nat, index: nat, m: nat)
    requires PartsEnded(g, b0, ino0, blocks, ino, off, n, readable, w, index, m) && off + n <= MAXFILE * BSIZE
    requires w == n ==> AllThere(blocks, ino, off, n)
    ensures w == n <==> n <= readable && FreeBlocks(g, b0) >= WriteNeeds(b0, ino0, off, n)
  {
    if n > 0 {
      var lo, hi := off / BSIZE, off / BSIZE + Span(off, n);
      SpanEnd(off, n, w);
      if w < n { SpanEnd(off + index, m, w - index); }
      NeededNone(blocks, ino, lo, hi);
      NeededNone(b0, ino0, lo, hi);
      hide Slot, DataSlot, FreeBlocks, Needed, Span;
      assert Around(off, n, lo, hi);
      assert Surplus(g, blocks, ino, lo, hi) == Surplus(g, b0, ino0, lo, hi);
    }
  }
}
