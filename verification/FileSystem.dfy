/** Block allocation and inode contents over a store of blocks (kernel/file/fs.c). */
module FileSystem {
  import opened SetSizes
  import opened FsBytes
  import opened FsBitmap
  import opened FsInodes
  import opened FsSpace
  import opened FsContents
  import opened FsTable

  lemma GrowsNothing(blocks: Blocks, inodes: Inodes, owner: Owners, g: Geometry, i: nat)
    requires Owned(g, blocks, inodes, owner, {}) && i in inodes
    ensures Grows(blocks, inodes, blocks, inodes, i)
  {
    forall a, k: nat | a in inodes && k < SLOTS ensures SlotGrows(blocks, inodes, blocks, inodes, i, a, k) {
      assert SlotOwned(blocks, inodes, owner, a, k);
    }
    forall b | b in owner ensures b < |blocks| { assert OwnerOk(g, blocks, inodes, owner, b); }
  }

  /** A new block in the inode. */
  lemma GrowsDirect(g: Geometry, blocks: Blocks, inodes: Inodes, owner: Owners, i: nat, k: nat, b: nat)
    requires Owned(g, blocks, inodes, owner, {}) && i in inodes && k <= NDIRECT && inodes[i].addrs[k] == 0
    requires b < g.size && !Used(g, blocks, b)
    ensures var blocks', inodes' := Allocated(g, blocks, b), inodes[i := WithAddr(inodes[i], k, b)];
      && b !in owner && Owned(g, blocks', inodes', owner[b := Owner(i, k)], {})
      && Grows(blocks, inodes, blocks', inodes', i)
      && forall l: nat :: l < SLOTS ==>
        Slot(blocks', inodes'[i], l) == if l == k then b else Slot(blocks, inodes[i], l)
  {
    var blocks', inodes' := Allocated(g, blocks, b), inodes[i := WithAddr(inodes[i], k, b)];
    Allocate(g, blocks, inodes, owner, {}, b);
    AssignDirect(g, blocks', inodes, owner, {} + {b}, i, k, b);
    assert {} + {b} - {b} == {};
    forall c | c in owner ensures c < |blocks| && g.datastart <= c { assert OwnerOk(g, blocks, inodes, owner, c); }
    forall a, l: nat | a in inodes && l < SLOTS ensures SlotGrows(blocks, inodes, blocks', inodes', i, a, l) {
      assert SlotOwned(blocks, inodes, owner, a, l);
    }
  }

  /** A new block in the indirect block. */
  lemma GrowsIndirect(g: Geometry, blocks: Blocks, inodes: Inodes, owner: Owners, i: nat, j: nat, b: nat)
    requires Owned(g, blocks, inodes, owner, {}) && i in inodes && j < NINDIRECT && b < g.size && !Used(g, blocks, b)
    requires inodes[i].addrs[NDIRECT] != 0 && Slot(blocks, inodes[i], NDIRECT + 1 + j) == 0
    ensures var ind, k := inodes[i].addrs[NDIRECT], NDIRECT + 1 + j;
      && ind < |blocks| && IsBlock(Allocated(g, blocks, b)[ind]) && b !in owner
      && var blocks' := WithWord(Allocated(g, blocks, b), ind, j, b);
      && Owned(g, blocks', inodes, owner[b := Owner(i, k)], {})
      && Grows(blocks, inodes, blocks', inodes, i)
      && Allocated(g, blocks, b)[ind] == blocks[ind]
      && forall l: nat :: l < SLOTS ==> Slot(blocks', inodes[i], l) == if l == k then b else Slot(blocks, inodes[i], l)
  {
    var ind, k := inodes[i].addrs[NDIRECT], NDIRECT + 1 + j;
    assert SlotOwned(blocks, inodes, owner, i, NDIRECT) && OwnerOk(g, blocks, inodes, owner, ind);
    Allocate(g, blocks, inodes, owner, {}, b);
    var mid := Allocated(g, blocks, b);
    AssignIndirect(g, mid, inodes, owner, {} + {b}, i, j, b);
    assert {} + {b} - {b} == {};
    var blocks' := WithWord(mid, ind, j, b);
    forall c | c in owner ensures c < |blocks| && g.datastart <= c { assert OwnerOk(g, blocks, inodes, owner, c); }
    forall a, l: nat | a in inodes && l < SLOTS ensures SlotGrows(blocks, inodes, blocks', inodes, i, a, l) {
      assert SlotOwned(blocks, inodes, owner, a, l);
    }
  }

  lemma NotYet(owner: Owners, i: nat, lo: nat, hi: nat)
    ensures forall b :: b in OwnedIn(owner, i, lo, hi) ==> b in owner && lo <= owner[b].slot < hi
  {}

  /** Truncating one file leaves the others as they were. */
  lemma TruncateContent(g: Geometry, blocks: Blocks, inodes: Inodes, owner: Owners, blocks': Blocks, i: nat, a: nat)
    requires Owned(g, blocks, inodes, owner, {}) && i in inodes && a in inodes && a != i && Full(blocks, inodes[a])
    requires OnlyFreed(g, blocks, blocks', OwnedBy(owner, i)) && SameSlots(blocks, blocks', inodes)
    ensures Full(blocks', inodes[a]) && Content(blocks', inodes[a]) == Content(blocks, inodes[a])
  {
    forall o: nat | o < inodes[a].size ensures ByteAt(blocks', inodes[a], o) == ByteAt(blocks, inodes[a], o) {
      var k := DataSlot(o / BSIZE);
      assert SlotOwned(blocks, inodes, owner, a, k);
      var b := Slot(blocks, inodes[a], k);
      if b != 0 { assert OwnerOk(g, blocks, inodes, owner, b); }
    }
    forall n: nat | n * BSIZE < inodes[a].size ensures Slot(blocks', inodes[a], DataSlot(n)) != 0 {
      assert Slot(blocks', inodes[a], DataSlot(n)) == Slot(blocks, inodes[a], DataSlot(n));
    }
  }

  lemma OwnedOk(g: Geometry, blocks: Blocks, inodes: Inodes, owner: Owners)
    requires Owned(g, blocks, inodes, owner, {})
    ensures BlocksOk(g, blocks)
  {}

  lemma AllocTracked(g: Geometry, blocks: Blocks, inodes: Inodes, owner: Owners, logged: set<nat>, b: nat)
    requires Owned(g, blocks, inodes, owner, {}) && b < g.size && !Used(g, blocks, b)
    ensures BlocksOk(g, Allocated(g, blocks, b)) && b != 0
    ensures Tracked(g, blocks, logged, Allocated(g, blocks, b), logged + {BitBlock(g, b), b})
  {
    assert BitOk(g, blocks, owner, {}, b);
    BitPlace(g, b);
    var marked := Mark(g, blocks, b, true);
    var l1 := logged + {BitBlock(g, b)};
    TrackedWrite(g, blocks, logged, BitBlock(g, b), marked[BitBlock(g, b)]);
    TrackedWrite(g, marked, l1, b, ZeroBlock());
    TrackedTrans(g, blocks, logged, marked, l1, marked[b := ZeroBlock()], l1 + {b});
    assert l1 + {b} == logged + {BitBlock(g, b), b};
  }

  lemma TruncateFiles(g: Geometry, blocks: Blocks, inodes: Inodes, owner: Owners, blocks': Blocks, i: nat)
    requires Owned(g, blocks, inodes, owner, {}) && AllFull(blocks, inodes) && i in inodes
    requires OnlyFreed(g, blocks, blocks', OwnedBy(owner, i))
    ensures Owned(g, blocks', inodes[i := Emptied(inodes[i].meta)], Without(owner, i), {})
    ensures AllFull(blocks', inodes[i := Emptied(inodes[i].meta)])
    ensures FilesOf(blocks', inodes[i := Emptied(inodes[i].meta)]) == FilesOf(blocks, inodes)[i := []]
  {
    Truncate(g, blocks, inodes, owner, blocks', i);
    hide Owned, OnlyFreed, Content, MappedTo, OwnedBy, FilesOf;
    forall a | a in inodes && a != i
      ensures Full(blocks', inodes[a]) && Content(blocks', inodes[a]) == Content(blocks, inodes[a])
    {
      TruncateContent(g, blocks, inodes, owner, blocks', i, a);
    }
    EmptyFull(blocks', inodes[i].meta);
    FilesUpdated(blocks, inodes, blocks', i, Emptied(inodes[i].meta));
  }

  lemma EmptyFull(blocks: Blocks, meta: Meta)
    ensures Full(blocks, Emptied(meta)) && Content(blocks, Emptied(meta)) == []
  {}

  lemma FitsIn(g: Geometry, blocks: Blocks, inodes: Inodes, owner: Owners, i: nat)
    requires Owned(g, blocks, inodes, owner, {}) && AllFull(blocks, inodes) && i in inodes
    ensures BlocksOk(g, blocks) && Fits(inodes[i])
  {
    assert Full(blocks, inodes[i]);
    OwnedFits(g, blocks, inodes, owner, i);
  }

  lemma TableUsed(g: Geometry, blocks: Blocks, blocks': Blocks)
    requires BlocksOk(g, blocks) && BlocksOk(g, blocks') && OnlyTable(g, blocks, blocks')
    ensures forall b: nat :: b < g.size ==> Used(g, blocks', b) == Used(g, blocks, b)
  {
    forall b: nat | b < g.size ensures Used(g, blocks', b) == Used(g, blocks, b) { BitPlace(g, b); }
  }

  lemma FreedThenSaved(g: Geometry, b0: Blocks, b1: Blocks, b2: Blocks, freed: set<nat>)
    requires BlocksOk(g, b0) && OnlyFreed(g, b0, b1, freed) && BlocksOk(g, b2)
    requires forall b: nat :: b < g.size ==> Used(g, b2, b) == Used(g, b1, b)
    ensures forall b: nat :: b < g.size ==> Used(g, b2, b) == (Used(g, b0, b) && b !in freed)
  {
    hide Used;
  }

  /** Only blocks of the bitmap have been logged in between. */
  ghost predicate BitsLogged(g: Geometry, before: set<nat>, after: set<nat>) {
    forall b :: b in after ==> b in before || InBitmap(g, b)
  }

  lemma InTheBitmap(g: Geometry, b: nat)
    requires b < g.size
    ensures InBitmap(g, BitBlock(g, b))
  {}

  lemma BitsTrans(g: Geometry, a: set<nat>, b: set<nat>, c: set<nat>)
    requires BitsLogged(g, a, b) && BitsLogged(g, b, c)
    ensures BitsLogged(g, a, c)
  {}

  function BitmapBlocks(g: Geometry): nat {
    g.size / BPB + 1
  }

  /** These are the blocks of the bitmap, and each of them has the bit of some block. */
  lemma BitmapCount(g: Geometry, c: nat)
    ensures InBitmap(g, c) <==> g.bmapstart <= c < g.bmapstart + BitmapBlocks(g)
    ensures InBitmap(g, c) && g.size % BPB != 0 <==> g.size % BPB != 0 && exists b: nat :: b < g.size && BitBlock(g, b) == c
  {
    if g.size % BPB != 0 && InBitmap(g, c) {
      var b := (c - g.bmapstart) * BPB;
      assert b / BPB == c - g.bmapstart && b < g.size;
      assert BitBlock(g, b) == c;
    }
  }

  ghost function FirstBits(g: Geometry, n: nat): (s: set<nat>)
    ensures |s| <= n
  {
    if n == 0 then {} else
      UnionSize(FirstBits(g, n - 1), {g.bmapstart + n - 1});
      FirstBits(g, n - 1) + {g.bmapstart + n - 1}
  }

  lemma {:induction false} InFirstBits(g: Geometry, n: nat, b: nat)
    ensures b in FirstBits(g, n) <==> g.bmapstart <= b < g.bmapstart + n
  {
    if n > 0 { InFirstBits(g, n - 1, b); }
  }

  /** The blocks of the bitmap and one more. */
  lemma BitsCounted(g: Geometry, before: set<nat>, after: set<nat>, one: nat)
    requires BitsLogged(g, before, after)
    ensures |after + {one} - before| <= BitmapBlocks(g) + 1
  {
    var n := BitmapBlocks(g);
    var all := FirstBits(g, n) + {one};
    forall b | b in after + {one} - before ensures b in all { InFirstBits(g, n, b); }
    SubsetSize(after + {one} - before, all);
    UnionSize(FirstBits(g, n), {one});
  }

  /** A new disk: every block before the data in use, all data blocks free, all files empty. */
  method EmptyImage(g: Geometry, inums: set<nat>) returns (blocks: Blocks, inodes: Inodes)
    requires GeometryOk(g) && forall i :: i in inums ==> InumOk(g, i)
    ensures Owned(g, blocks, inodes, map[], {}) && AllFull(blocks, inodes) && inodes.Keys == inums
    ensures Stored(g, blocks, inodes)
    ensures forall b: nat :: b < g.size ==> (Used(g, blocks, b) <==> b < g.datastart)
  {
    hide Used, UsedBelow, Mark, ReadInode, Emptied;
    var none := Meta(0, 0, 0, 0);
    blocks := seq(g.size, _ => ZeroBlock());
    NothingUsed(g, blocks);
    var b := 0;
    while b < g.datastart
      invariant b <= g.datastart && BlocksOk(g, blocks) && UsedBelow(g, blocks, b)
      invariant forall c: nat :: c < g.bmapstart ==> blocks[c] == ZeroBlock()
    {
      MarkNext(g, blocks, b);
      blocks := Mark(g, blocks, b, true);
      b := b + 1;
    }
    inodes := map i | i in inums :: Emptied(none);
    EmptyFull(blocks, none);
    forall i | i in inums ensures ReadInode(g, blocks, i) == Emptied(none) { EmptyStored(g, blocks, i); }
    EmptyOwned(g, blocks, inodes);
  }

  lemma EmptyOwned(g: Geometry, blocks: Blocks, inodes: Inodes)
    requires BlocksOk(g, blocks) && UsedBelow(g, blocks, g.datastart)
    requires forall i :: i in inodes ==> inodes[i] == Emptied(inodes[i].meta)
    ensures Owned(g, blocks, inodes, map[], {})
    ensures forall b: nat :: b < g.size ==> (Used(g, blocks, b) <==> b < g.datastart)
  {
    hide Used;
    forall c: nat | c < g.size ensures BitOk(g, blocks, map[], {}, c) {}
  }

  ghost predicate UsedBelow(g: Geometry, blocks: Blocks, b: nat)
    requires BlocksOk(g, blocks)
  {
    forall c: nat :: c < g.size ==> (Used(g, blocks, c) <==> c < b)
  }

  lemma NothingUsed(g: Geometry, blocks: Blocks)
    requires BlocksOk(g, blocks) && forall b :: 0 <= b < |blocks| ==> blocks[b] == ZeroBlock()
    ensures UsedBelow(g, blocks, 0)
  {
    forall c: nat | c < g.size ensures !Used(g, blocks, c) {
      BitPlace(g, c);
      ZeroBits(c % 8);
    }
  }

  lemma MarkNext(g: Geometry, blocks: Blocks, b: nat)
    requires BlocksOk(g, blocks) && b < g.size && UsedBelow(g, blocks, b)
    ensures BlocksOk(g, Mark(g, blocks, b, true)) && UsedBelow(g, Mark(g, blocks, b, true), b + 1)
    ensures forall c: nat :: c < g.bmapstart ==> Mark(g, blocks, b, true)[c] == blocks[c]
  {
    UsedAfter(g, blocks, b, true, b);
    forall c: nat | c < g.size ensures Used(g, Mark(g, blocks, b, true), c) <==> c < b + 1 {
      UsedAfter(g, blocks, b, true, c);
    }
  }

  // ---- transactions ----

  datatype Image = Image(blocks: Blocks, inodes: Inodes, owner: Owners)

  ghost predicate Consistent(g: Geometry, im: Image) {
    Owned(g, im.blocks, im.inodes, im.owner, {}) && AllFull(im.blocks, im.inodes) && Stored(g, im.blocks, im.inodes)
  }

  /** A transaction that logged these blocks, every block it changed among them. */
  ghost predicate Transaction(g: Geometry, a: Image, b: Image, logged: set<nat>) {
    Covered(a.blocks, {}, b.blocks, logged) && LogRange(g, logged) && b.inodes.Keys == a.inodes.Keys
  }

  /** One transaction after the other, each from one consistent state to the next. */
  ghost predicate History(g: Geometry, images: seq<Image>, logs: seq<set<nat>>) {
    && |images| == |logs| + 1 && (forall k :: 0 <= k < |images| ==> Consistent(g, images[k]))
    && forall k :: 0 <= k < |logs| ==> Transaction(g, images[k], images[k + 1], logs[k])
  }

  lemma HistoryNext(g: Geometry, images: seq<Image>, logs: seq<set<nat>>, im: Image, logged: set<nat>)
    requires History(g, images, logs) && Consistent(g, im) && Transaction(g, images[|logs|], im, logged)
    ensures History(g, images + [im], logs + [logged])
  {
    hide Consistent, Transaction;
  }

  /** The blocks that the transactions have logged. */
  ghost function Logged(logs: seq<set<nat>>): set<nat> {
    if logs == [] then {} else Logged(logs[..|logs| - 1]) + logs[|logs| - 1]
  }

  /** Every block that changed is in the log of some transaction. */
  lemma {:induction false} HistoryCovers(g: Geometry, images: seq<Image>, logs: seq<set<nat>>)
    requires History(g, images, logs)
    ensures |images[|logs|].blocks| == |images[0].blocks|
    ensures forall b :: 0 <= b < |images[0].blocks| && images[|logs|].blocks[b] != images[0].blocks[b] ==> b in Logged(logs)
    decreases |logs|
  {
    hide Consistent;
    if logs != [] {
      var n := |logs| - 1;
      assert Transaction(g, images[n], images[n + 1], logs[n]);
      HistoryCovers(g, images[..n + 1], logs[..n]);
    }
  }

  class FileSystem {
    const g: Geometry
    var blocks: Blocks
    var inodes: Inodes          // in memory
    ghost var owner: Owners
    ghost var logged: set<nat>  // blocks given to log_write since begin_op

    ghost predicate Valid()
      reads this
    {
      Owned(g, blocks, inodes, owner, {}) && AllFull(blocks, inodes) && Stored(g, blocks, inodes)
    }

    ghost function Now(): Image
      reads this
    {
      Image(blocks, inodes, owner)
    }

    ghost function Files(): map<nat, seq<nat>>
      requires Valid()
      reads this
    {
      FilesOf(blocks, inodes)
    }

    ghost predicate DiskFull()
      requires BlocksOk(g, blocks)
      reads this
    {
      forall b: nat :: b < g.size ==> Used(g, blocks, b)
    }

    /** balloc: the first free block, marked in use and zeroed, or 0. */
    method Balloc() returns (r: nat)
      requires Owned(g, blocks, inodes, owner, {})
      modifies this`blocks, this`logged
      ensures BlocksOk(g, blocks)
      ensures r == 0 ==> blocks == old(blocks) && logged == old(logged) && DiskFull()
      ensures r != 0 ==> r < g.size && !Used(g, old(blocks), r)
      ensures r != 0 ==> forall c: nat :: c < r ==> Used(g, old(blocks), c)
      ensures r != 0 ==> blocks == Allocated(g, old(blocks), r) && logged == old(logged) + {BitBlock(g, r), r}
      ensures FreeBlocks(g, old(blocks)) == if r != 0 then FreeBlocks(g, blocks) + 1 else 0
      ensures Tracked(g, old(blocks), old(logged), blocks, logged)
    {
      hide Owned, Tracked, Used, Mark, BitBlock, FreeBelow;
      OwnedOk(g, blocks, inodes, owner);
      TrackedNone(g, blocks, logged);
      var b := 0;
      while b < g.size
        invariant b % BPB == 0 && blocks == old(blocks) && logged == old(logged)
        invariant forall c: nat :: c < b && c < g.size ==> Used(g, blocks, c)
      {
        var bi := 0;
        while bi < BPB && b + bi < g.size
          invariant bi <= BPB && blocks == old(blocks) && logged == old(logged)
          invariant forall c: nat :: c < b + bi && c < g.size ==> Used(g, blocks, c)
        {
          if !Used(g, blocks, b + bi) {
            Allocate(g, blocks, inodes, owner, {}, b + bi);
            AllocTracked(g, blocks, inodes, owner, logged, b + bi);
            FreeAllocated(g, blocks, inodes, owner, b + bi);
            blocks := Mark(g, blocks, b + bi, true);
            logged := logged + {BitBlock(g, b + bi)};
            blocks := blocks[b + bi := ZeroBlock()];
            logged := logged + {b + bi};
            return b + bi;
          }
          bi := bi + 1;
        }
        b := b + BPB;
      }
      FreeNone(g, blocks, g.size);
      return 0;
    }

    /** bfree: the block must be in use; its bit is cleared and no other block's. */
    method Bfree(b: nat)
      requires BlocksOk(g, blocks) && b < g.size && Used(g, blocks, b)
      modifies this`blocks, this`logged
      ensures OnlyFreed(g, old(blocks), blocks, {b}) && logged == old(logged) + {BitBlock(g, b)}
      ensures Tracked(g, old(blocks), old(logged), blocks, logged)
    {
      SameFreed(g, blocks);
      FreeOne(g, blocks, blocks, {}, b);
      assert {} + {b} == {b};
      BitPlace(g, b);
      blocks := Mark(g, blocks, b, false);
      logged := logged + {BitBlock(g, b)};
    }

    /** iupdate: the inode's fields in its place of the table, and every other byte as it was. */
    method Iupdate(i: nat)
      requires BlocksOk(g, blocks) && i in inodes && InumOk(g, i) && Fits(inodes[i])
      modifies this`blocks, this`logged
      ensures BlocksOk(g, blocks) && ReadInode(g, blocks, i) == inodes[i]
      ensures forall j: nat :: InumOk(g, j) && j != i ==> ReadInode(g, blocks, j) == ReadInode(g, old(blocks), j)
      ensures forall x: nat :: x < BSIZE && Beside(i % IPB, x) ==>
        blocks[InodeBlock(g, i)][x] == old(blocks)[InodeBlock(g, i)][x]
      ensures blocks == old(blocks)[InodeBlock(g, i) := blocks[InodeBlock(g, i)]]
      ensures OnlyTable(g, old(blocks), blocks)
      ensures logged == old(logged) + {InodeBlock(g, i)} && Covered(old(blocks), old(logged), blocks, logged)
    {
      var ib := InodeBlock(g, i);
      InodeWritten(g, blocks, i, inodes[i]);
      hide Pack, Unpack, Beside, Fits;
      blocks := blocks[ib := Pack(blocks[ib], i % IPB, inodes[i])];
      logged := logged + {ib};
    }

    /** The whole file system after iupdate. */
    method Save(i: nat, ghost b0: Blocks, ghost i0: Inodes)
      requires Owned(g, blocks, inodes, owner, {}) && AllFull(blocks, inodes) && i in inodes
      requires BlocksOk(g, b0) && Stored(g, b0, i0) && SameTable(g, b0, blocks) && i in i0 && inodes == i0[i := inodes[i]]
      modifies this`blocks, this`logged
      ensures Valid() && FilesOf(blocks, inodes) == FilesOf(old(blocks), inodes)
      ensures logged == old(logged) + {InodeBlock(g, i)} && Covered(old(blocks), old(logged), blocks, logged)
      ensures LogRange(g, old(logged)) ==> LogRange(g, logged)
      ensures forall b: nat :: b < g.size ==> Used(g, blocks, b) == Used(g, old(blocks), b)
      ensures OnlyTable(g, old(blocks), blocks)
    {
      hide Owned, AllFull, Full, Content, ReadInode, Fits, Covered, OnlyTable, FilesOf;
      ghost var b1 := blocks;
      FitsIn(g, b1, inodes, owner, i);
      StoredSame(g, b0, b1, i0);
      Iupdate(i);
      TableOwned(g, b1, blocks, inodes, owner);
      TableFiles(g, b1, blocks, inodes, owner);
      TableUsed(g, b1, blocks);
    }

    /** A place of the inode, with a block allocated for it if it has none. */
    method EnsureAddr(i: nat, k: nat) returns (addr: nat)
      requires Owned(g, blocks, inodes, owner, {}) && i in inodes && k <= NDIRECT
      modifies this`blocks, this`inodes, this`owner, this`logged
      ensures Owned(g, blocks, inodes, owner, {}) && Grows(old(blocks), old(inodes), blocks, inodes, i) && i in inodes
      ensures addr == inodes[i].addrs[k] && (addr == 0 ==> DiskFull() && inodes == old(inodes))
      ensures forall l: nat :: l < SLOTS && l != k ==> Slot(blocks, inodes[i], l) == Slot(old(blocks), old(inodes)[i], l)
      ensures logged == old(logged) + if old(inodes)[i].addrs[k] == 0 && addr != 0 then {BitBlock(g, addr), addr} else {}
      ensures old(inodes)[i].addrs[k] != 0 ==> blocks == old(blocks) && inodes == old(inodes) && owner == old(owner)
      ensures FreeBlocks(g, old(blocks)) == FreeBlocks(g, blocks) + if old(inodes)[i].addrs[k] == 0 && addr != 0 then 1 else 0
      ensures Tracked(g, old(blocks), old(logged), blocks, logged)
    {
      hide FreeBlocks;
      addr := inodes[i].addrs[k];
      GrowsNothing(blocks, inodes, owner, g, i);
      if addr == 0 {
        addr := Balloc();
        if addr == 0 {
          return;
        }
        GrowsDirect(g, old(blocks), inodes, owner, i, k, addr);
        inodes := inodes[i := WithAddr(inodes[i], k, addr)];
        owner := owner[addr := Owner(i, k)];
      }
    }

    /** A mounted image. */
    constructor (g: Geometry, blocks: Blocks, inodes: Inodes, ghost owner: Owners)
      requires Owned(g, blocks, inodes, owner, {}) && AllFull(blocks, inodes) && Stored(g, blocks, inodes)
      ensures Valid() && this.g == g && this.blocks == blocks && this.inodes == inodes && logged == {}
    {
      this.g, this.blocks, this.inodes := g, blocks, inodes;
      this.owner, this.logged := owner, {};
    }

    /** What bmap may have logged on the way to a block: the block and its bit if it is new, the
        indirect block, and its bit if that is new. */
    ghost function BmapLog(addr: nat, isNew: bool, ind: nat, indNew: bool): set<nat> {
      (if isNew then {BitBlock(g, addr), addr} else {}) + (if ind != 0 then {ind} else {})
      + (if indNew then {BitBlock(g, ind)} else {})
    }

    /** bmap: the block of a file, allocated if it has none, or 0 if the disk is full. */
    method Bmap(i: nat, bn: nat) returns (addr: nat)
      requires Owned(g, blocks, inodes, owner, {}) && i in inodes && bn < MAXFILE
      modifies this`blocks, this`inodes, this`owner, this`logged
      ensures Owned(g, blocks, inodes, owner, {}) && Grows(old(blocks), old(inodes), blocks, inodes, i)
      ensures addr == Slot(blocks, inodes[i], DataSlot(bn)) && (addr == 0 ==> DiskFull())
      ensures forall l: nat :: l < SLOTS && l != DataSlot(bn) && l != NDIRECT ==>
        Slot(blocks, inodes[i], l) == Slot(old(blocks), old(inodes)[i], l)
      ensures logged <= old(logged) + BmapLog(addr, addr != 0 && Slot(old(blocks), old(inodes)[i], DataSlot(bn)) == 0,
                inodes[i].addrs[NDIRECT], inodes[i].addrs[NDIRECT] != 0 && old(inodes)[i].addrs[NDIRECT] == 0)
      ensures old(Slot(blocks, inodes[i], DataSlot(bn))) != 0 ==>
        blocks == old(blocks) && inodes == old(inodes) && owner == old(owner) && logged == old(logged)
      ensures old(inodes)[i].addrs[NDIRECT] != 0 || bn < NDIRECT ==> inodes[i].addrs[NDIRECT] == old(inodes)[i].addrs[NDIRECT]
      ensures FreeBlocks(g, old(blocks)) == FreeBlocks(g, blocks)
        + (if Slot(old(blocks), old(inodes)[i], DataSlot(bn)) == 0 && addr != 0 then 1 else 0)
        + (if old(inodes)[i].addrs[NDIRECT] == 0 && inodes[i].addrs[NDIRECT] != 0 then 1 else 0)
      ensures Tracked(g, old(blocks), old(logged), blocks, logged)
    {
      hide Grows, SlotOwned, OwnerOk, BitOk, Used, BitBlock, Word, Tracked, FreeBlocks;
      if bn < NDIRECT {
        addr := EnsureAddr(i, bn);
        assert Slot(blocks, inodes[i], NDIRECT) == Slot(old(blocks), old(inodes)[i], NDIRECT);
        return;
      }
      var j := bn - NDIRECT;
      var ind := EnsureAddr(i, NDIRECT);
      ghost var b1, i1, l1 := blocks, inodes, logged;
      if ind == 0 {
        return 0;
      }
      addr := EnsureWord(i, j);
      GrowsTrans(old(blocks), old(inodes), b1, i1, blocks, inodes, i);
      TrackedTrans(g, old(blocks), old(logged), b1, l1, blocks, logged);
    }

    /** A place of the indirect block, with a block allocated for it if it has none. */
    method EnsureWord(i: nat, j: nat) returns (addr: nat)
      requires Owned(g, blocks, inodes, owner, {}) && i in inodes && j < NINDIRECT && inodes[i].addrs[NDIRECT] != 0
      modifies this`blocks, this`owner, this`logged
      ensures Owned(g, blocks, inodes, owner, {}) && Grows(old(blocks), inodes, blocks, inodes, i)
      ensures addr == Slot(blocks, inodes[i], NDIRECT + 1 + j) && (addr == 0 ==> DiskFull())
      ensures forall l: nat :: l < SLOTS && l != NDIRECT + 1 + j ==> Slot(blocks, inodes[i], l) == Slot(old(blocks), inodes[i], l)
      ensures logged == old(logged) + if addr != 0 && Slot(old(blocks), inodes[i], NDIRECT + 1 + j) == 0
        then {BitBlock(g, addr), addr, inodes[i].addrs[NDIRECT]} else {}
      ensures old(Slot(blocks, inodes[i], NDIRECT + 1 + j)) != 0 ==> blocks == old(blocks) && owner == old(owner)
      ensures FreeBlocks(g, old(blocks)) == FreeBlocks(g, blocks)
        + if Slot(old(blocks), inodes[i], NDIRECT + 1 + j) == 0 && addr != 0 then 1 else 0
      ensures Tracked(g, old(blocks), old(logged), blocks, logged)
    {
      hide Tracked, FreeBlocks;
      var ind := inodes[i].addrs[NDIRECT];
      assert SlotOwned(blocks, inodes, owner, i, NDIRECT) && OwnerOk(g, blocks, inodes, owner, ind);
      TrackedNone(g, blocks, logged);
      GrowsNothing(blocks, inodes, owner, g, i);
      addr := Word(blocks[ind], j);
      if addr == 0 {
        addr := Balloc();
        if addr != 0 {
          GrowsIndirect(g, old(blocks), inodes, owner, i, j, addr);
          ghost var b1, l1 := blocks, logged;
          blocks := WithWord(blocks, ind, j, addr);
          owner := owner[addr := Owner(i, NDIRECT + 1 + j)];
          logged := logged + {ind};
          TrackedWrite(g, b1, l1, ind, blocks[ind]);
          FreeBehind(g, b1, blocks);
          TrackedTrans(g, old(blocks), old(logged), b1, l1, blocks, logged);
        }
      }
    }

    /** bfree of a block that itrunc finds. */
    method FreeBlock(b: nat, ghost b0: Blocks, ghost freed: set<nat>)
      requires BlocksOk(g, b0) && OnlyFreed(g, b0, blocks, freed) && b < g.size && Used(g, b0, b) && b !in freed
      modifies this`blocks, this`logged
      ensures OnlyFreed(g, b0, blocks, freed + {b}) && Tracked(g, old(blocks), old(logged), blocks, logged)
      ensures BitsLogged(g, old(logged), logged)
    {
      ghost var b1 := blocks;
      InTheBitmap(g, b);
      Bfree(b);
      FreedTrans(g, b0, b1, blocks, freed, {b});
    }

    /** itrunc's loop over the direct blocks. */
    method FreeDirect(i: nat)
      requires Owned(g, blocks, inodes, owner, {}) && i in inodes
      modifies this`blocks, this`inodes, this`logged
      ensures OnlyFreed(g, old(blocks), blocks, OwnedIn(owner, i, 0, NDIRECT))
      ensures i in inodes && inodes == old(inodes)[i := inodes[i]] && InodeOk(inodes[i])
      ensures inodes[i].size == old(inodes)[i].size && inodes[i].meta == old(inodes)[i].meta
      ensures inodes[i].addrs[NDIRECT] == old(inodes)[i].addrs[NDIRECT]
      ensures forall l :: 0 <= l < NDIRECT ==> inodes[i].addrs[l] == 0
      ensures Tracked(g, old(blocks), old(logged), blocks, logged) && BitsLogged(g, old(logged), logged)
    {
      ghost var b0, i0, l0 := blocks, inodes, logged;
      hide SlotOwned, OwnerOk, BitOk, Used;
      var k := 0;
      assert OwnedIn(owner, i, 0, 0) == {};
      while k < NDIRECT
        invariant k <= NDIRECT && OnlyFreed(g, b0, blocks, OwnedIn(owner, i, 0, k)) && Tracked(g, b0, l0, blocks, logged)
        invariant BitsLogged(g, l0, logged)
        invariant i in inodes && inodes == i0[i := inodes[i]] && InodeOk(inodes[i])
        invariant inodes[i].size == i0[i].size && inodes[i].meta == i0[i].meta
        invariant forall l :: 0 <= l <= NDIRECT ==> inodes[i].addrs[l] == if l < k then 0 else i0[i].addrs[l]
      {
        hide Owned, OnlyFreed, OwnedIn, Tracked, BitsLogged;
        OwnedNext(g, b0, i0, owner, i, 0, k);
        NotYet(owner, i, 0, k);
        if inodes[i].addrs[k] != 0 {
          ghost var b1, l1 := blocks, logged;
          FreeBlock(inodes[i].addrs[k], b0, OwnedIn(owner, i, 0, k));
          TrackedTrans(g, b0, l0, b1, l1, blocks, logged);
          BitsTrans(g, l0, l1, logged);
          inodes := inodes[i := WithAddr(inodes[i], k, 0)];
        }
        k := k + 1;
      }
    }

    /** itrunc's loop over the indirect block. */
    method FreeIndirect(i: nat, ind: nat, ghost b0: Blocks, ghost i0: Inodes)
      requires Owned(g, b0, i0, owner, {}) && i in i0 && ind == i0[i].addrs[NDIRECT] != 0
      requires OnlyFreed(g, b0, blocks, OwnedIn(owner, i, 0, NDIRECT))
      modifies this`blocks, this`logged
      ensures OnlyFreed(g, b0, blocks, OwnedIn(owner, i, 0, NDIRECT) + OwnedIn(owner, i, NDIRECT + 1, SLOTS))
      ensures Tracked(g, old(blocks), old(logged), blocks, logged) && BitsLogged(g, old(logged), logged)
    {
      hide Used, BitOk;
      ghost var b1, l1 := blocks, logged;
      assert SlotOwned(b0, i0, owner, i, NDIRECT) && OwnerOk(g, b0, i0, owner, ind);
      var d := blocks[ind];
      assert !InBitmap(g, ind) && d == b0[ind];
      ghost var direct := OwnedIn(owner, i, 0, NDIRECT);
      assert OwnedIn(owner, i, NDIRECT + 1, NDIRECT + 1) == {};
      assert direct + {} == direct;
      var j := 0;
      while j < NINDIRECT
        invariant j <= NINDIRECT && OnlyFreed(g, b0, blocks, direct + OwnedIn(owner, i, NDIRECT + 1, NDIRECT + 1 + j))
        invariant Tracked(g, b1, l1, blocks, logged) && BitsLogged(g, l1, logged)
      {
        ghost var freed := OwnedIn(owner, i, NDIRECT + 1, NDIRECT + 1 + j);
        assert Word(d, j) == Slot(b0, i0[i], NDIRECT + 1 + j);
        hide Owned, OnlyFreed, OwnedIn, Slot, Word, Tracked, BitsLogged;
        OwnedNext(g, b0, i0, owner, i, NDIRECT + 1, NDIRECT + 1 + j);
        NotYet(owner, i, NDIRECT + 1, NDIRECT + 1 + j);
        NotYet(owner, i, 0, NDIRECT);
        if Word(d, j) != 0 {
          ghost var b2, l2 := blocks, logged;
          FreeBlock(Word(d, j), b0, direct + freed);
          TrackedTrans(g, b1, l1, b2, l2, blocks, logged);
          BitsTrans(g, l1, l2, logged);
          assert direct + freed + {Word(d, j)} == direct + (freed + {Word(d, j)});
        }
        j := j + 1;
      }
    }

    /** itrunc: an empty file, its blocks free, and every other file as it was. */
    method Itrunc(i: nat)
      requires Valid() && i in inodes
      modifies this
      ensures Valid() && inodes == old(inodes)[i := Emptied(old(inodes)[i].meta)] && owner == Without(old(owner), i)
      ensures forall b: nat :: b < g.size ==>
        Used(g, blocks, b) == (Used(g, old(blocks), b) && b !in OwnedBy(old(owner), i))
      ensures Files() == old(Files())[i := []]
      ensures Covered(old(blocks), old(logged), blocks, logged) && InodeBlock(g, i) in logged
      ensures LogRange(g, old(logged)) ==> LogRange(g, logged)
      ensures (forall b :: b in logged ==> b in old(logged) || InBitmap(g, b) || b == InodeBlock(g, i))
      ensures |logged - old(logged)| <= BitmapBlocks(g) + 1
    {
      hide Owned, OnlyFreed, AllFull, Full, OwnedBy, FilesOf, Tracked, Covered, Stored, SameTable, OnlyTable, Used, LogRange;
      ghost var b0, i0, o0 := blocks, inodes, owner;
      OwnedOk(g, b0, i0, o0);
      FreeAll(i);
      TruncateFiles(g, b0, i0, o0, blocks, i);
      owner := Without(owner, i);
      TrackedParts(g, b0, old(logged), blocks, logged);
      BitsCounted(g, old(logged), logged, InodeBlock(g, i));
      ghost var b1, l1 := blocks, logged;
      Save(i, b0, i0);
      OwnedOk(g, blocks, inodes, owner);
      FreedThenSaved(g, b0, b1, blocks, OwnedBy(o0, i));
      CoveredTrans(b0, old(logged), b1, l1, blocks, logged);
    }

    /** itrunc before iupdate. */
    method FreeAll(i: nat)
      requires Owned(g, blocks, inodes, owner, {}) && i in inodes
      modifies this`blocks, this`inodes, this`logged
      ensures inodes == old(inodes)[i := Emptied(old(inodes)[i].meta)] && OnlyFreed(g, old(blocks), blocks, OwnedBy(owner, i))
      ensures Tracked(g, old(blocks), old(logged), blocks, logged) && BitsLogged(g, old(logged), logged)
    {
      hide Owned, OnlyFreed, OwnedBy, OwnedIn, Tracked, BitsLogged;
      ghost var b0, i0 := blocks, inodes;
      FreeDirect(i);
      ghost var b1, l1 := blocks, logged;
      OwnedParts(g, b0, i0, owner, i);
      var ind := inodes[i].addrs[NDIRECT];
      if ind != 0 {
        FreeIndirect(i, ind, b0, i0);
        TrackedTrans(g, b0, old(logged), b1, l1, blocks, logged);
        BitsTrans(g, old(logged), l1, logged);
        b1, l1 := blocks, logged;
        FreeLast(i, ind, b0, i0);
        TrackedTrans(g, b0, old(logged), b1, l1, blocks, logged);
        BitsTrans(g, old(logged), l1, logged);
        inodes := inodes[i := WithAddr(inodes[i], NDIRECT, 0)];
      }
      inodes := inodes[i := inodes[i].(size := 0)];
      assert inodes == i0[i := Emptied(i0[i].meta)] by { assert inodes[i].addrs == Emptied(i0[i].meta).addrs; }
    }

    /** bfree of the indirect block itself. */
    method FreeLast(i: nat, ind: nat, ghost b0: Blocks, ghost i0: Inodes)
      requires Owned(g, b0, i0, owner, {}) && i in i0 && ind == i0[i].addrs[NDIRECT] != 0
      requires OnlyFreed(g, b0, blocks, OwnedIn(owner, i, 0, NDIRECT) + OwnedIn(owner, i, NDIRECT + 1, SLOTS))
      modifies this`blocks, this`logged
      ensures OnlyFreed(g, b0, blocks, OwnedBy(owner, i))
      ensures Tracked(g, old(blocks), old(logged), blocks, logged) && BitsLogged(g, old(logged), logged)
    {
      OwnedNext(g, b0, i0, owner, i, 0, NDIRECT);
      OwnedParts(g, b0, i0, owner, i);
      FreeBlock(ind, b0, OwnedIn(owner, i, 0, NDIRECT) + OwnedIn(owner, i, NDIRECT + 1, SLOTS));
    }
  }
}
