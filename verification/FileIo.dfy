/** Reading and writing files (kernel/file/fs.c, readi and writei; kernel/file/file.c, filewrite). */
module FileIo {
  import opened SetSizes
  import opened FsBytes
  import opened FsBitmap
  import opened FsInodes
  import opened FsContents
  import opened FsSpace
  import opened FsTable
  import opened FileSystem
  import DiskBlocks

  /** One block of readi's loop. */
  method ReadPiece(fs: FileSystem, i: nat, at: nat, m: nat) returns (piece: seq<nat>)
    requires fs.Valid() && i in fs.inodes && 0 < m && at + m <= fs.inodes[i].size && at % BSIZE + m <= BSIZE
    modifies fs`blocks, fs`inodes, fs`owner, fs`logged
    ensures fs.blocks == old(fs.blocks) && fs.inodes == old(fs.inodes)
    ensures fs.owner == old(fs.owner) && fs.logged == old(fs.logged)
    ensures SizeOk(fs.inodes[i]) && piece == Content(fs.blocks, fs.inodes[i])[at..at + m]
  {
    assert Full(fs.blocks, fs.inodes[i]);
    MappedAt(fs.g, fs.blocks, fs.inodes, fs.owner, i, at);
    ReadBlock(fs.blocks, fs.inodes[i], at, m);
    hide Owned, AllFull, Full, Content, Grows;
    var addr := fs.Bmap(i, at / BSIZE);
    piece := fs.blocks[addr][at % BSIZE..at % BSIZE + m];
  }

  /** readi: the bytes of a file from an offset on. A copy to the user's memory fails when it goes
      past the first writable bytes. */
  method Readi(fs: FileSystem, i: nat, writable: nat, off: nat, n: nat) returns (r: int, dst: seq<nat>)
    requires fs.Valid() && i in fs.inodes && off < TWO32 && n < TWO32
    modifies fs
    ensures fs.blocks == old(fs.blocks) && fs.inodes == old(fs.inodes)
    ensures fs.owner == old(fs.owner) && fs.logged == old(fs.logged) && fs.Valid()
    ensures off > fs.inodes[i].size || off + n >= TWO32 ==> r == 0 && dst == []
    ensures off <= fs.inodes[i].size && off + n < TWO32 ==>
      var count := Min(n, fs.inodes[i].size - off);
      if count <= writable then r == count && dst == fs.Files()[i][off..off + count]
      else (r == -1 && |dst| < count && dst <= fs.Files()[i][off..]
            && AtPiece(off, |dst|) && |dst| <= writable < PieceEnd(off, count, |dst|))
  {
    hide Owned, AllFull, Stored, FilesOf, Content, PieceEnd, AtPiece, Span;
    PieceStart(off);
    dst := [];
    if off > fs.inodes[i].size || off + n >= TWO32 {
      return 0, dst;
    }
    ghost var c := fs.Files()[i];
    FileAt(fs.blocks, fs.inodes, i);
    var count := Min(n, fs.inodes[i].size - off);
    var tot := 0;
    while tot < count
      invariant tot <= count && tot <= writable && dst == c[off..off + tot] && (tot < count ==> AtPiece(off, tot))
      invariant fs.blocks == old(fs.blocks) && fs.inodes == old(fs.inodes)
      invariant fs.owner == old(fs.owner) && fs.logged == old(fs.logged)
    {
      var m := Min(count - tot, BSIZE - (off + tot) % BSIZE);
      Stride(off, tot, m, count);
      var piece := ReadPiece(fs, i, off + tot, m);
      if tot + m > writable {
        return -1, dst;
      }
      dst := dst + piece;
      tot := tot + m;
    }
    return tot, dst;
  }

  lemma PieceStart(off: nat)
    ensures AtPiece(off, 0)
  {}

  lemma FileAt(blocks: Blocks, inodes: Inodes, i: nat)
    requires AllFull(blocks, inodes) && i in inodes
    ensures SizeOk(inodes[i]) && FilesOf(blocks, inodes)[i] == Content(blocks, inodes[i])
  {
    assert Full(blocks, inodes[i]);
  }

  lemma MappedAt(g: Geometry, blocks: Blocks, inodes: Inodes, owner: Owners, i: nat, o: nat)
    requires Owned(g, blocks, inodes, owner, {}) && i in inodes && Full(blocks, inodes[i]) && o < inodes[i].size
    ensures o / BSIZE < MAXFILE
    ensures var b := Slot(blocks, inodes[i], DataSlot(o / BSIZE)); 0 < b < |blocks| && IsBlock(blocks[b])
  {
    var k := DataSlot(o / BSIZE);
    assert o / BSIZE * BSIZE <= o;
    assert SlotOwned(blocks, inodes, owner, i, k) && OwnerOk(g, blocks, inodes, owner, Slot(blocks, inodes[i], k));
  }

  // ---- what a write logs ----

  function Unaligned(off: nat): nat {
    if off % BSIZE != 0 then 1 else 0
  }

  /** The blocks logged on the way: data blocks and bitmap blocks, and the indirect block. */
  ghost predicate Counted(logged: set<nat>, l0: set<nat>, data: set<nat>, bits: set<nat>, ind: nat) {
    logged <= l0 + data + bits + (if ind != 0 then {ind} else {})
  }

  /** Data blocks one for each block touched; bitmap blocks one for each block touched, except the
      first of an unaligned write, and one for the indirect block. */
  ghost predicate CountOk(data: set<nat>, bits: set<nat>, touched: nat, off: nat, ind0: nat, ind: nat) {
    && |data| <= touched
    && |bits| + (if touched > 0 then Unaligned(off) else 0) <= touched + (if ind0 == 0 && ind != 0 then 1 else 0)
  }

  /** bmap's part of the count. */
  lemma CountBmap(g: Geometry, fsLogged: set<nat>, logged': set<nat>, l0: set<nat>, data: set<nat>, bits: set<nat>,
                  touched: nat, off: nat, ind0: nat, ind: nat, ind': nat, addr: nat, isNew: bool)
    returns (data': set<nat>, bits': set<nat>)
    requires Counted(fsLogged, l0, data, bits, ind) && CountOk(data, bits, touched, off, ind0, ind)
    requires (ind != 0 ==> ind' == ind) && (ind0 != 0 ==> ind != 0) && (isNew ==> addr != 0)
    requires isNew && touched == 0 ==> Unaligned(off) == 0
    requires logged' <= fsLogged + (if isNew then {BitBlock(g, addr), addr} else {}) + (if ind' != 0 then {ind'} else {})
      + (if ind' != 0 && ind == 0 then {BitBlock(g, ind')} else {})
    ensures Counted(logged', l0, data', bits', ind')
    ensures addr != 0 ==> addr in data' && CountOk(data', bits', touched + 1, off, ind0, ind')
    ensures addr == 0 ==> CountOk(data', bits', touched, off, ind0, ind')
  {
    data', bits' := data, bits;
    if addr != 0 {
      AddOne(data, addr);
      data' := data + {addr};
    }
    if isNew {
      AddOne(bits', BitBlock(g, addr));
      bits' := bits' + {BitBlock(g, addr)};
    }
    if ind' != 0 && ind == 0 {
      AddOne(bits', BitBlock(g, ind'));
      bits' := bits' + {BitBlock(g, ind')};
    }
  }

  /** The whole count: the inode's block comes last. */
  lemma CountAll(logged: set<nat>, data: set<nat>, bits: set<nat>, touched: nat, off: nat, n: nat, ind0: nat, ind: nat, inode: nat)
    requires Counted(logged, {}, data, bits, ind) && CountOk(data, bits, touched, off, ind0, ind)
    requires touched <= Span(off, n)
    ensures |logged + {inode}| <= 2 * Span(off, n) - (if n > 0 then Unaligned(off) else 0) + 3
  {
    var p := if ind != 0 then {ind} else {};
    assert n > 0 ==> Span(off, n) >= 1;
    hide Span, Unaligned;
    SubsetSize(logged, data + bits + p);
    assert {} + data + bits + p == data + bits + p;
    UnionSize(data, bits);
    UnionSize(data + bits, p);
    AddOne(logged, inode);
  }

  // ---- writing ----

  /** A count in progress: what is in the log so far, and which blocks it is made of. */
  datatype Count = Count(data: set<nat>, bits: set<nat>, touched: nat)

  ghost predicate Counting(logged: set<nat>, l0: set<nat>, c: Count, off: nat, ino0: Inode, ino: Inode)
    requires InodeOk(ino0) && InodeOk(ino)
  {
    && Counted(logged, l0, c.data, c.bits, ino.addrs[NDIRECT])
    && CountOk(c.data, c.bits, c.touched, off, ino0.addrs[NDIRECT], ino.addrs[NDIRECT])
    && (ino0.addrs[NDIRECT] != 0 ==> ino.addrs[NDIRECT] != 0)
  }

  /** bmap in writei's loop. */
  method MapForWrite(fs: FileSystem, i: nat, off: nat, done: seq<nat>,
                     ghost b0: Blocks, ghost i0: Inodes, ghost l0: set<nat>, ghost c: Count)
    returns (addr: nat, ghost c': Count)
    requires Owned(fs.g, fs.blocks, fs.inodes, fs.owner, {}) && InodesOk(i0) && i in i0
    requires off <= i0[i].size <= MAXBYTES && off + |done| < MAXBYTES
    requires Progress(b0, i0, fs.blocks, fs.inodes, i, off, done)
    requires Counting(fs.logged, l0, c, off, i0[i], fs.inodes[i]) && (c.touched == 0 ==> done == [])
    modifies fs`blocks, fs`inodes, fs`owner, fs`logged
    ensures Owned(fs.g, fs.blocks, fs.inodes, fs.owner, {}) && Progress(b0, i0, fs.blocks, fs.inodes, i, off, done)
    ensures i in fs.inodes
    ensures addr == Slot(fs.blocks, fs.inodes[i], DataSlot((off + |done|) / BSIZE))
    ensures addr == 0 ==> fs.DiskFull() && c'.touched == c.touched
    ensures addr != 0 ==> c'.touched == c.touched + 1 && addr in c'.data
    ensures Counting(fs.logged, l0, c', off, i0[i], fs.inodes[i])
    ensures TookOne(fs.g, old(fs.blocks), old(fs.inodes)[i], fs.blocks, fs.inodes[i], (off + |done|) / BSIZE)
    ensures addr == 0 ==> FreeBlocks(fs.g, fs.blocks) == 0
    ensures Tracked(fs.g, old(fs.blocks), old(fs.logged), fs.blocks, fs.logged)
  {
    hide Owned, Progress, Grows, Slot, Span, Used, Tracked, FreeBlocks, TookOne, Counted, CountOk, DataSlot;
    OwnedBasics(fs.g, fs.blocks, fs.inodes, fs.owner);
    ProgressKeys(b0, i0, fs.blocks, fs.inodes, i, off, done);
    var at := off + |done|;
    ghost var b1, i1, l1 := fs.blocks, fs.inodes, fs.logged;
    ghost var k := DataSlot(at / BSIZE);
    if c.touched == 0 && Unaligned(off) == 1 {
      FirstMapped(b0, i0, b1, i1, i, off);
    }
    addr := fs.Bmap(i, at / BSIZE);
    OwnedBasics(fs.g, fs.blocks, fs.inodes, fs.owner);
    ProgressGrows(b0, i0, b1, i1, fs.blocks, fs.inodes, i, off, done);
    ProgressKeys(b0, i0, fs.blocks, fs.inodes, i, off, done);
    IndirectGrows(b1, i1, fs.blocks, fs.inodes, i);
    Took(fs.g, b1, i1[i], fs.blocks, fs.inodes[i], at / BSIZE);
    NoneLeft(fs.g, fs.blocks);
    ghost var isNew := addr != 0 && Slot(b1, i1[i], k) == 0;
    ghost var data', bits' := CountBmap(fs.g, l1, fs.logged, l0, c.data, c.bits, c.touched, off,
      i0[i].addrs[NDIRECT], i1[i].addrs[NDIRECT], fs.inodes[i].addrs[NDIRECT], addr, isNew);
    c' := Count(data', bits', if addr != 0 then c.touched + 1 else c.touched);
  }

  /** bmap's effect on the file's other blocks and on the free ones. */
  lemma Took(g: Geometry, blocks: Blocks, ino: Inode, blocks': Blocks, ino': Inode, j: nat)
    requires BlocksOk(g, blocks) && BlocksOk(g, blocks') && InodeOk(ino) && InodeOk(ino') && j < MAXFILE
    requires forall l: nat :: l < SLOTS && l != DataSlot(j) && l != NDIRECT ==> Slot(blocks', ino', l) == Slot(blocks, ino, l)
    requires Slot(blocks, ino, DataSlot(j)) != 0 ==> blocks' == blocks && ino' == ino
    requires ino.addrs[NDIRECT] != 0 || j < NDIRECT ==> ino'.addrs[NDIRECT] == ino.addrs[NDIRECT]
    requires FreeBlocks(g, blocks) == FreeBlocks(g, blocks')
      + (if Slot(blocks, ino, DataSlot(j)) == 0 && Slot(blocks', ino', DataSlot(j)) != 0 then 1 else 0)
      + (if ino.addrs[NDIRECT] == 0 && ino'.addrs[NDIRECT] != 0 then 1 else 0)
    ensures TookOne(g, blocks, ino, blocks', ino', j)
  {
    hide Slot, FreeBlocks;
  }

  lemma NoneLeft(g: Geometry, blocks: Blocks)
    requires BlocksOk(g, blocks)
    ensures (forall b: nat :: b < g.size ==> Used(g, blocks, b)) <==> FreeBlocks(g, blocks) == 0
  {
    FreeNone(g, blocks, g.size);
  }

  /** The block that an unaligned write starts in is in the file already. */
  lemma FirstMapped(b0: Blocks, i0: Inodes, blocks: Blocks, inodes: Inodes, i: nat, off: nat)
    requires InodesOk(i0) && i in i0 && off <= i0[i].size <= MAXBYTES && off < MAXBYTES && off % BSIZE != 0
    requires Progress(b0, i0, blocks, inodes, i, off, [])
    ensures Slot(blocks, inodes[i], DataSlot(off / BSIZE)) != 0
  {
    assert off / BSIZE * BSIZE < off;
  }

  lemma IndirectGrows(blocks: Blocks, inodes: Inodes, blocks': Blocks, inodes': Inodes, i: nat)
    requires Grows(blocks, inodes, blocks', inodes', i)
    ensures inodes[i].addrs[NDIRECT] != 0 ==> inodes'[i].addrs[NDIRECT] == inodes[i].addrs[NDIRECT]
  {
    assert SlotGrows(blocks, inodes, blocks', inodes', i, i, NDIRECT);
  }

  lemma LogData(logged: set<nat>, l0: set<nat>, c: Count, off: nat, ino0: Inode, ino: Inode, addr: nat)
    requires InodeOk(ino0) && InodeOk(ino) && Counting(logged, l0, c, off, ino0, ino) && addr in c.data
    ensures Counting(logged + {addr}, l0, c, off, ino0, ino)
  {}

  lemma WriteTracked(g: Geometry, blocks: Blocks, inodes: Inodes, owner: Owners, logged: set<nat>, i: nat, k: nat,
                     at: nat, data: seq<nat>)
    requires Owned(g, blocks, inodes, owner, {}) && i in inodes && k < SLOTS
    requires var b := Slot(blocks, inodes[i], k); b != 0 && b < |blocks| && at + |data| <= |blocks[b]|
    ensures var b := Slot(blocks, inodes[i], k);
      Tracked(g, blocks, logged, Written(blocks, b, at, data), logged + {b})
  {
    var b := Slot(blocks, inodes[i], k);
    assert SlotOwned(blocks, inodes, owner, i, k) && OwnerOk(g, blocks, inodes, owner, b);
    TrackedWrite(g, blocks, logged, b, Written(blocks, b, at, data)[b]);
  }

  lemma WrittenSpace(g: Geometry, blocks: Blocks, inodes: Inodes, owner: Owners, i: nat, k: nat, at: nat, data: seq<nat>)
    requires Owned(g, blocks, inodes, owner, {}) && i in inodes && k < SLOTS
    requires var b := Slot(blocks, inodes[i], k); b != 0 && b < |blocks| && at + |data| <= |blocks[b]|
    requires var blocks' := Written(blocks, Slot(blocks, inodes[i], k), at, data);
      Owned(g, blocks', inodes, owner, {}) && SameSlots(blocks, blocks', inodes)
    ensures SameSpace(g, blocks, inodes[i], Written(blocks, Slot(blocks, inodes[i], k), at, data), inodes[i])
  {
    var b := Slot(blocks, inodes[i], k);
    assert SlotOwned(blocks, inodes, owner, i, k) && OwnerOk(g, blocks, inodes, owner, b);
    FreeBehind(g, blocks, Written(blocks, b, at, data));
  }

  /** One block of writei's loop. */
  method WritePiece(fs: FileSystem, i: nat, off: nat, done: seq<nat>, piece: seq<nat>, readable: bool,
                    ghost b0: Blocks, ghost i0: Inodes, ghost l0: set<nat>, ghost c: Count)
    returns (ok: bool, ghost c': Count)
    requires Owned(fs.g, fs.blocks, fs.inodes, fs.owner, {}) && InodesOk(i0) && i in i0
    requires off <= i0[i].size <= MAXBYTES && off + |done| + |piece| <= MAXBYTES && off + |done| < MAXBYTES
    requires (off + |done|) % BSIZE + |piece| <= BSIZE
    requires Progress(b0, i0, fs.blocks, fs.inodes, i, off, done)
    requires Counting(fs.logged, l0, c, off, i0[i], fs.inodes[i]) && (c.touched == 0 ==> done == [])
    modifies fs`blocks, fs`inodes, fs`owner, fs`logged
    ensures Owned(fs.g, fs.blocks, fs.inodes, fs.owner, {})
    ensures Progress(b0, i0, fs.blocks, fs.inodes, i, off, if ok then done + piece else done) && i in fs.inodes
    ensures Counting(fs.logged, l0, c', off, i0[i], fs.inodes[i])
    ensures c.touched <= c'.touched <= c.touched + 1 && (ok ==> c'.touched == c.touched + 1)
    ensures ok ==> readable
    ensures !ok ==> if Slot(fs.blocks, fs.inodes[i], DataSlot((off + |done|) / BSIZE)) == 0
                    then FreeBlocks(fs.g, fs.blocks) == 0 else !readable
    ensures TookOne(fs.g, old(fs.blocks), old(fs.inodes)[i], fs.blocks, fs.inodes[i], (off + |done|) / BSIZE)
    ensures Tracked(fs.g, old(fs.blocks), old(fs.logged), fs.blocks, fs.logged)
  {
    hide Owned, Progress, Grows, Slot, Span, Counted, CountOk, Tracked, FreeBlocks, TookOne, Used;
    ProgressKeys(b0, i0, fs.blocks, fs.inodes, i, off, done);
    var at := off + |done|;
    var addr;
    addr, c' := MapForWrite(fs, i, off, done, b0, i0, l0, c);
    if addr == 0 || !readable {
      return false, c';
    }
    ProgressWritten(fs.g, b0, i0, fs.blocks, fs.inodes, fs.owner, i, off, done, piece);
    ghost var b1, l1 := fs.blocks, fs.logged;
    ProgressKeys(b0, i0, fs.blocks, fs.inodes, i, off, done);
    WriteTracked(fs.g, b1, fs.inodes, fs.owner, l1, i, DataSlot(at / BSIZE), at % BSIZE, piece);
    fs.blocks := Written(fs.blocks, addr, at % BSIZE, piece);
    WrittenSpace(fs.g, b1, fs.inodes, fs.owner, i, DataSlot(at / BSIZE), at % BSIZE, piece);
    TookSame(fs.g, old(fs.blocks), old(fs.inodes)[i], b1, fs.inodes[i], fs.blocks, fs.inodes[i], at / BSIZE);
    TrackedTrans(fs.g, old(fs.blocks), old(fs.logged), b1, l1, fs.blocks, fs.logged + {addr});
    ProgressKeys(b0, i0, fs.blocks, fs.inodes, i, off, done + piece);
    LogData(fs.logged, l0, c', off, i0[i], fs.inodes[i], addr);
    fs.logged := fs.logged + {addr};
    ok := true;
  }

  /** A new size moves no blocks. */
  lemma Resize(g: Geometry, blocks: Blocks, inodes: Inodes, owner: Owners, i: nat, size: nat)
    requires Owned(g, blocks, inodes, owner, {}) && i in inodes
    ensures Owned(g, blocks, inodes[i := inodes[i].(size := size)], owner, {})
  {
    var inodes' := inodes[i := inodes[i].(size := size)];
    forall a, k: nat | a in inodes' && k < SLOTS ensures SlotOwned(blocks, inodes', owner, a, k) {
      assert SlotOwned(blocks, inodes, owner, a, k);
    }
    forall b | b in owner ensures OwnerOk(g, blocks, inodes', owner, b) {
      assert OwnerOk(g, blocks, inodes, owner, b);
    }
  }

  lemma ProgressNone(g: Geometry, blocks: Blocks, inodes: Inodes, owner: Owners, i: nat, off: nat)
    requires Owned(g, blocks, inodes, owner, {}) && AllFull(blocks, inodes) && i in inodes && off <= inodes[i].size
    ensures inodes[i].size <= MAXBYTES && Progress(blocks, inodes, blocks, inodes, i, off, [])
  {
    assert Full(blocks, inodes[i]);
    hide Owned, Slot;
  }

  /** The file after a write. */
  lemma WriteDone(g: Geometry, b0: Blocks, i0: Inodes, blocks: Blocks, inodes: Inodes, owner: Owners, i: nat, off: nat, data: seq<nat>)
    requires Owned(g, blocks, inodes, owner, {}) && InodesOk(i0) && AllFull(b0, i0) && i in i0
    requires off <= i0[i].size && off + |data| <= MAXBYTES && i0[i].size <= MAXBYTES
    requires Progress(b0, i0, blocks, inodes, i, off, data)
    ensures var inodes' := i0[i := inodes[i].(size := Max(i0[i].size, off + |data|))];
      && inodes' == inodes[i := inodes[i].(size := Max(i0[i].size, off + |data|))]
      && Owned(g, blocks, inodes', owner, {}) && AllFull(blocks, inodes')
      && off <= |FilesOf(b0, i0)[i]|
      && FilesOf(blocks, inodes') == FilesOf(b0, i0)[i := Splice(FilesOf(b0, i0)[i], off, data)]
  {
    var inodes' := inodes[i := inodes[i].(size := Max(i0[i].size, off + |data|))];
    ProgressDone(b0, i0, blocks, inodes, i, off, data);
    Resize(g, blocks, inodes, owner, i, Max(i0[i].size, off + |data|));
    assert inodes' == i0[i := inodes[i].(size := Max(i0[i].size, off + |data|))];
    forall a | a in i0 && a != i ensures Full(blocks, i0[a]) && Content(blocks, i0[a]) == Content(b0, i0[a]) {
      assert Full(b0, i0[a]);
    }
    FilesUpdated(b0, i0, blocks, i, inodes'[i]);
  }

  /** writei's loop. */
  method WriteAll(fs: FileSystem, i: nat, src: seq<nat>, readable: nat, off: nat) returns (tot: nat, ghost c: Count)
    requires fs.Valid() && i in fs.inodes && off <= fs.inodes[i].size && off + |src| <= MAXBYTES
    modifies fs`blocks, fs`inodes, fs`owner, fs`logged
    ensures Owned(fs.g, fs.blocks, fs.inodes, fs.owner, {}) && tot <= |src| && old(fs.inodes[i].size) <= MAXBYTES
    ensures Progress(old(fs.blocks), old(fs.inodes), fs.blocks, fs.inodes, i, off, src[..tot])
    ensures Counting(fs.logged, old(fs.logged), c, off, old(fs.inodes[i]), fs.inodes[i]) && c.touched <= Span(off, |src|)
    ensures Ended(fs.g, old(fs.blocks), old(fs.inodes)[i], fs.blocks, fs.inodes[i], off, |src|, readable, tot)
    ensures Tracked(fs.g, old(fs.blocks), old(fs.logged), fs.blocks, fs.logged)
  {
    hide Owned, AllFull, Stored, Progress, Span, Counted, CountOk, Used, Tracked, FreeBlocks, TookOne, Balanced, Slot;
    ghost var b0, i0, l0 := fs.blocks, fs.inodes, fs.logged;
    ProgressNone(fs.g, fs.blocks, fs.inodes, fs.owner, i, off);
    StartCount(fs.g, fs.blocks, fs.inodes, fs.owner, l0, off, i);
    OwnedBasics(fs.g, fs.blocks, fs.inodes, fs.owner);
    TrackedNone(fs.g, b0, l0);
    BalancedNone(fs.g, b0, i0[i], off, |src|);
    c := Count({}, {}, 0);
    tot := 0;
    while tot < |src|
      invariant tot <= |src| && Owned(fs.g, fs.blocks, fs.inodes, fs.owner, {})
      invariant Progress(b0, i0, fs.blocks, fs.inodes, i, off, src[..tot])
      invariant i in fs.inodes && InodeOk(fs.inodes[i]) && Counting(fs.logged, l0, c, off, i0[i], fs.inodes[i])
      invariant c.touched <= Span(off, |src|) && (c.touched == 0 ==> tot == 0)
      invariant tot < |src| ==> c.touched == (off + tot) / BSIZE - off / BSIZE && AtPiece(off, tot)
      invariant Balanced(fs.g, b0, i0[i], fs.blocks, fs.inodes[i], off, |src|) && tot <= readable
      invariant Tracked(fs.g, b0, l0, fs.blocks, fs.logged)
    {
      var m := Min(|src| - tot, BSIZE - (off + tot) % BSIZE);
      Stride(off, tot, m, |src|);
      var ok;
      ghost var b1, l1, ino1 := fs.blocks, fs.logged, fs.inodes[i];
      ok, c := WritePiece(fs, i, off, src[..tot], src[tot..tot + m], tot + m <= readable, b0, i0, l0, c);
      assert src[..tot] + src[tot..tot + m] == src[..tot + m];
      OwnedBasics(fs.g, fs.blocks, fs.inodes, fs.owner);
      TrackedTrans(fs.g, b0, l0, b1, l1, fs.blocks, fs.logged);
      BalancedNext(fs.g, b0, i0[i], b1, ino1, fs.blocks, fs.inodes[i], off, |src|, off + tot);
      if !ok {
        break;
      }
      tot := tot + m;
      ProgressKeys(b0, i0, fs.blocks, fs.inodes, i, off, src[..tot]);
    }
  }

  /** writei: the bytes of src over the file from an offset on, fewer if the disk is full or a copy
      from the user's memory goes past its first readable bytes, or -1 and nothing. */
  method Writei(fs: FileSystem, i: nat, src: seq<nat>, readable: nat, off: nat) returns (r: int)
    requires fs.Valid() && i in fs.inodes && off < TWO32 && |src| < TWO32
    modifies fs
    ensures fs.Valid() && fs.inodes.Keys == old(fs.inodes.Keys) && fs.inodes[i].meta == old(fs.inodes)[i].meta
    ensures forall a :: a in fs.inodes && a != i ==> fs.inodes[a] == old(fs.inodes)[a]
    ensures -1 <= r <= |src| && (r == -1 <==> off > |old(fs.Files())[i]| || off + |src| > MAXBYTES)
    ensures r == -1 ==> fs.blocks == old(fs.blocks) && fs.inodes == old(fs.inodes) && fs.logged == old(fs.logged)
    ensures fs.Files() == if r >= 0 then old(fs.Files())[i := Splice(old(fs.Files())[i], off, src[..r])] else old(fs.Files())
    ensures r >= 0 ==> Ended(fs.g, old(fs.blocks), old(fs.inodes)[i], fs.blocks, fs.inodes[i], off, |src|, readable, r)
    ensures r >= 0 && |src| <= readable ==>
      (r == |src| <==> FreeBlocks(fs.g, old(fs.blocks)) >= WriteNeeds(old(fs.blocks), old(fs.inodes)[i], off, |src|))
    ensures r >= 0 && |src| <= readable && AllThere(old(fs.blocks), old(fs.inodes)[i], off, |src|) ==> r == |src|
    ensures Covered(old(fs.blocks), old(fs.logged), fs.blocks, fs.logged)
    ensures r >= 0 ==> InodeBlock(fs.g, i) in fs.logged
    ensures LogRange(fs.g, old(fs.logged)) ==> LogRange(fs.g, fs.logged)
    ensures r >= 0 && old(fs.logged) == {} ==>
      |fs.logged| <= 2 * Span(off, |src|) - (if src != [] then Unaligned(off) else 0) + 3
  {
    hide Owned, AllFull, Stored, Tracked, SameTable, OnlyTable, LogRange, Progress, Content, Span, Counted, CountOk, Used, FilesOf, Splice, Covered,
      FreeBlocks, Ended, WriteNeeds, AllThere;
    ghost var b0, i0, l0 := fs.blocks, fs.inodes, fs.logged;
    OwnedBasics(fs.g, fs.blocks, fs.inodes, fs.owner);
    NothingLogged(b0, l0);
    if off > fs.inodes[i].size || off + |src| >= TWO32 {
      return -1;
    }
    if off + |src| > MAXBYTES {
      return -1;
    }
    ghost var c;
    var tot;
    tot, c := WriteAll(fs, i, src, readable, off);
    ghost var i1, l1 := fs.inodes, fs.logged;
    ProgressKeys(b0, i0, fs.blocks, i1, i, off, src[..tot]);
    if off + tot > fs.inodes[i].size {
      fs.inodes := fs.inodes[i := fs.inodes[i].(size := off + tot)];
    }
    assert fs.inodes == i1[i := i1[i].(size := Max(i0[i].size, off + tot))];
    WriteDone(fs.g, b0, i0, fs.blocks, i1, fs.owner, i, off, src[..tot]);
    TrackedParts(fs.g, b0, l0, fs.blocks, l1);
    ghost var b1 := fs.blocks;
    fs.Save(i, b0, i0);
    CoveredTrans(b0, l0, b1, l1, fs.blocks, fs.logged);
    SavedSpace(fs.g, b1, fs.blocks, fs.inodes, fs.owner, i, i1[i]);
    EndedSame(fs.g, b0, i0[i], b1, i1[i], fs.blocks, fs.inodes[i], off, |src|, readable, tot);
    ThereNow(fs.blocks, fs.inodes, i, off, tot);
    if |src| <= readable { WriteExact(fs.g, b0, i0[i], fs.blocks, fs.inodes[i], off, |src|, readable, tot); }
    if l0 == {} {
      CountAll(l1, c.data, c.bits, c.touched, off, |src|, i0[i].addrs[NDIRECT], i1[i].addrs[NDIRECT],
               InodeBlock(fs.g, i));
    }
    return tot;
  }

  /** iupdate and the new size move no block. */
  lemma SavedSpace(g: Geometry, blocks: Blocks, blocks': Blocks, inodes: Inodes, owner: Owners, i: nat, ino: Inode)
    requires Owned(g, blocks, inodes, owner, {}) && Owned(g, blocks', inodes, owner, {}) && OnlyTable(g, blocks, blocks')
    requires i in inodes && InodeOk(ino) && inodes[i].addrs == ino.addrs
    ensures SameSpace(g, blocks, ino, blocks', inodes[i])
  {
    FreeBehind(g, blocks, blocks');
    forall l: nat | l < MAXFILE ensures Slot(blocks', inodes[i], DataSlot(l)) == Slot(blocks, ino, DataSlot(l)) {
      TableSlots(g, blocks, blocks', inodes, owner, i, DataSlot(l));
    }
  }

  /** A file has all blocks below its size. */
  lemma ThereNow(blocks: Blocks, inodes: Inodes, i: nat, off: nat, n: nat)
    requires AllFull(blocks, inodes) && i in inodes && off + n <= inodes[i].size
    ensures InodeOk(inodes[i]) && inodes[i].size <= MAXBYTES && AllThere(blocks, inodes[i], off, n)
  {
    assert Full(blocks, inodes[i]);
    hide Slot, DataSlot;
    forall j: nat | off / BSIZE <= j < off / BSIZE + Span(off, n) ensures Slot(blocks, inodes[i], DataSlot(j)) != 0 {
      assert j * BSIZE < off + n;
    }
  }

  lemma NothingLogged(blocks: Blocks, logged: set<nat>)
    ensures Covered(blocks, logged, blocks, logged)
  {}

  lemma OwnedBasics(g: Geometry, blocks: Blocks, inodes: Inodes, owner: Owners)
    requires Owned(g, blocks, inodes, owner, {})
    ensures BlocksOk(g, blocks) && InodesOk(inodes)
  {}

  lemma ProgressKeys(b0: Blocks, i0: Inodes, blocks: Blocks, inodes: Inodes, i: nat, off: nat, data: seq<nat>)
    requires InodesOk(i0) && i in i0 && off + |data| <= MAXBYTES && i0[i].size <= MAXBYTES
    requires Progress(b0, i0, blocks, inodes, i, off, data)
    ensures InodesOk(inodes) && inodes.Keys == i0.Keys && inodes[i].size == i0[i].size && inodes[i].meta == i0[i].meta
    ensures forall a :: a in i0 && a != i ==> inodes[a] == i0[a]
  {}

  /** The next block starts where this one ends, and the last one is the last that is touched. */
  lemma Stride(off: nat, tot: nat, m: nat, n: nat)
    requires tot < n && m == Min(n - tot, BSIZE - (off + tot) % BSIZE)
    ensures 0 < m <= n - tot && (off + tot) % BSIZE + m <= BSIZE
    ensures (off + tot) / BSIZE - off / BSIZE + 1 <= Span(off, n)
    ensures tot + m < n ==> (off + tot + m) / BSIZE == (off + tot) / BSIZE + 1 && AtPiece(off, tot + m)
    ensures PieceEnd(off, n, tot) == tot + m
  {}

  lemma StartCount(g: Geometry, blocks: Blocks, inodes: Inodes, owner: Owners, l0: set<nat>, off: nat, i: nat)
    requires Owned(g, blocks, inodes, owner, {}) && i in inodes
    ensures InodeOk(inodes[i]) && Counting(l0, l0, Count({}, {}, 0), off, inodes[i], inodes[i])
  {}

  // ---- filewrite ----

  /** What filewrite writes in one transaction. */
  const CHUNK: nat := ((DiskBlocks.MAXOPBLOCKS - 1 - 1 - 2) / 2) * BSIZE

  /** A chunk fits in one transaction's share of the log, wherever it starts. */
  lemma ChunkFits(off: nat, n: nat)
    requires n <= CHUNK
    ensures 2 * Span(off, n) - (if n > 0 then Unaligned(off) else 0) + 3 <= DiskBlocks.MAXOPBLOCKS
  {}

  /** Two writes in a row are one. */
  lemma SpliceTwice(c: seq<nat>, off: nat, a: seq<nat>, b: seq<nat>)
    requires off <= |c|
    ensures off + |a| <= |Splice(c, off, a)|
    ensures Splice(Splice(c, off, a), off + |a|, b) == Splice(c, off, a + b)
  {}

  lemma SpliceNone(c: seq<nat>, off: nat)
    requires off <= |c|
    ensures Splice(c, off, []) == c
  {}

  ghost predicate WithinQuota(logs: seq<set<nat>>) {
    forall k :: 0 <= k < |logs| ==> |logs[k]| <= DiskBlocks.MAXOPBLOCKS
  }

  /** How a chunk of filewrite ends: refused, with nothing changed, or after so many bytes. */
  ghost predicate ChunkEnded(g: Geometry, b0: Blocks, ino0: Inode, blocks: Blocks, ino: Inode, at: nat, m: nat, readable: nat,
                             count: int) {
    if count < 0 then blocks == b0 && ino == ino0 else Ended(g, b0, ino0, blocks, ino, at, m, readable, count)
  }

  /** One chunk of filewrite. */
  method WriteChunk(fs: FileSystem, i: nat, src: seq<nat>, readable: nat, start: nat, index: nat, ghost f0: map<nat, seq<nat>>)
    returns (count: int, remaining: nat)
    requires fs.Valid() && i in fs.inodes && i in f0 && index < |src| && start + index < TWO32 && |src| < TWO32
    requires start > |f0[i]| ==> index == 0 && fs.Files() == f0
    requires start <= |f0[i]| ==> fs.Files() == f0[i := Splice(f0[i], start, src[..index])]
    modifies fs
    ensures fs.Valid() && i in fs.inodes && remaining == Min(|src| - index, CHUNK) && index + remaining <= |src|
    ensures -1 <= count <= remaining
    ensures |fs.logged| <= DiskBlocks.MAXOPBLOCKS && LogRange(fs.g, fs.logged) && fs.inodes.Keys == old(fs.inodes.Keys)
    ensures Covered(old(fs.blocks), {}, fs.blocks, fs.logged)
    ensures start > |f0[i]| ==> count == -1 && fs.Files() == f0
    ensures start <= |f0[i]| ==>
      fs.Files() == f0[i := Splice(f0[i], start, src[..index + if count < 0 then 0 else count])]
    ensures count == -1 ==> start > |f0[i]| || start + |src| > MAXBYTES
    ensures count >= 0 ==> start + index + count <= MAXBYTES
    ensures ChunkEnded(fs.g, old(fs.blocks), old(fs.inodes)[i], fs.blocks, fs.inodes[i], start + index, remaining, Rest(readable, index), count)
  {
    hide Owned, AllFull, Stored, Span, Used, Splice, FilesOf, Covered, FileSystem.DiskFull, Ended, FreeBlocks, WriteNeeds, AllThere;
    remaining := Min(|src| - index, CHUNK);
    var piece := src[index..index + remaining];
    ghost var before := fs.Files();
    if start <= |f0[i]| { SpliceTwice(f0[i], start, src[..index], []); }
    fs.logged := {};
    count := Writei(fs, i, piece, Rest(readable, index), start + index);
    ChunkFits(start + index, remaining);
    if start <= |f0[i]| && count >= 0 {
      PrefixMore(src, index, remaining, count);
      SpliceMap(f0, before, fs.Files(), i, start, src[..index], piece[..count]);
    }
  }

  lemma PrefixMore(src: seq<nat>, index: nat, m: nat, count: nat)
    requires count <= m && index + m <= |src|
    ensures src[..index] + src[index..index + m][..count] == src[..index + count]
  {}

  lemma SpliceMap(f0: map<nat, seq<nat>>, f1: map<nat, seq<nat>>, f2: map<nat, seq<nat>>, i: nat, start: nat, a: seq<nat>, b: seq<nat>)
    requires i in f0 && start <= |f0[i]| && f1 == f0[i := Splice(f0[i], start, a)]
    requires start + |a| <= |f1[i]| && f2 == f1[i := Splice(f1[i], start + |a|, b)]
    ensures f2 == f0[i := Splice(f0[i], start, a + b)]
  {
    SpliceTwice(f0[i], start, a, b);
  }

  /** n transactions for what was written of so many bytes: one for each chunk that was begun. */
  predicate OneEach(n: nat, bytes: nat, written: int) {
    && (n == 0 <==> bytes == 0) && (n > 0 ==> (n - 1) * CHUNK < bytes)
    && (n - 1) * CHUNK <= written <= n * CHUNK && (written < bytes ==> written < n * CHUNK)
  }

  /** So many chunks of so many bytes end at index. */
  predicate Reached(chunks: nat, bytes: nat, index: nat) {
    index == Min(chunks * CHUNK, bytes) && (chunks > 0 ==> (chunks - 1) * CHUNK < bytes)
  }

  lemma ReachedNone(bytes: nat)
    ensures Reached(0, bytes, 0) && (bytes == 0 ==> OneEach(0, bytes, 0))
  {}

  lemma ReachedFacts(chunks: nat, bytes: nat, index: nat)
    requires Reached(chunks, bytes, index) && index < bytes
    ensures index == chunks * CHUNK
  {}

  lemma ReachedNext(chunks: nat, bytes: nat, index: nat, count: nat)
    requires Reached(chunks, bytes, index) && index < bytes && count <= Min(bytes - index, CHUNK)
    ensures count == Min(bytes - index, CHUNK) ==> Reached(chunks + 1, bytes, index + count)
    ensures count < Min(bytes - index, CHUNK) ==> OneEach(chunks + 1, bytes, index + count)
    ensures index + count <= (chunks + 1) * CHUNK
  {}

  lemma ReachedEnd(chunks: nat, bytes: nat)
    requires Reached(chunks, bytes, bytes)
    ensures OneEach(chunks, bytes, bytes) && bytes <= chunks * CHUNK
  {}

  /** Image k holds the files as they were, with the first k chunks written, as far as `written`. */
  ghost predicate Chunks(images: seq<Image>, f0: map<nat, seq<nat>>, i: nat, start: nat, src: seq<nat>, written: nat)
    requires i in f0
  {
    forall k :: 0 <= k < |images| ==> ChunkAt(images[k], f0, i, start, src, Min(k * CHUNK, written))
  }

  ghost predicate ChunkAt(im: Image, f0: map<nat, seq<nat>>, i: nat, start: nat, src: seq<nat>, n: nat)
    requires i in f0
  {
    && AllFull(im.blocks, im.inodes) && n <= |src|
    && FilesOf(im.blocks, im.inodes) == if start <= |f0[i]| then f0[i := Splice(f0[i], start, src[..n])] else f0
  }

  lemma ChunksNext(images: seq<Image>, f0: map<nat, seq<nat>>, i: nat, start: nat, src: seq<nat>, written: nat,
                   im: Image, more: nat)
    requires i in f0 && Chunks(images, f0, i, start, src, written) && images != [] && written == (|images| - 1) * CHUNK
    requires more <= CHUNK && ChunkAt(im, f0, i, start, src, written + more)
    ensures Chunks(images + [im], f0, i, start, src, written + more)
  {
    hide ChunkAt;
    var all := images + [im];
    forall k | 0 <= k < |all| ensures ChunkAt(all[k], f0, i, start, src, Min(k * CHUNK, written + more)) {
      if k < |images| { assert ChunkAt(images[k], f0, i, start, src, Min(k * CHUNK, written)); }
    }
  }

  /** filewrite on a file: chunk by chunk, each in its own transaction, until a chunk comes up short.
      The offset moves by what was written, and each transaction stays within its quota. */
  method FileWrite(fs: FileSystem, i: nat, src: seq<nat>, readable: nat, start: nat)
    returns (r: int, off: nat, ghost images: seq<Image>, ghost logs: seq<set<nat>>)
    requires fs.Valid() && i in fs.inodes && start < TWO32 && |src| < 0x8000_0000
    modifies fs
    ensures fs.Valid() && WithinQuota(logs) && OneEach(|logs|, |src|, off - start)
    ensures History(fs.g, images, logs) && images[0] == old(fs.Now()) && images[|logs|] == fs.Now()
    ensures |fs.blocks| == |old(fs.blocks)|
    ensures forall b :: 0 <= b < |fs.blocks| && fs.blocks[b] != old(fs.blocks)[b] ==> b in Logged(logs)
    ensures start <= off <= start + |src| && r == if off == start + |src| then |src| else -1
    ensures Chunks(images, old(fs.Files()), i, start, src, off - start)
    ensures start <= |old(fs.Files())[i]| ==>
      fs.Files() == old(fs.Files())[i := Splice(old(fs.Files())[i], start, src[..off - start])]
    ensures start > |old(fs.Files())[i]| ==> off == start && fs.Files() == old(fs.Files())
    ensures i in fs.inodes && (r == |src| && src != [] ==> start <= |old(fs.Files())[i]| && start + |src| <= MAXBYTES)
    ensures start <= |old(fs.Files())[i]| && start + |src| <= MAXBYTES ==>
      WriteEnded(fs.g, old(fs.blocks), old(fs.inodes)[i], fs.blocks, fs.inodes[i], start, |src|, readable, off - start, |logs|)
    ensures start <= |old(fs.Files())[i]| && start + |src| <= MAXBYTES ==>
      (r == |src| <==>
        |src| <= readable && FreeBlocks(fs.g, old(fs.blocks)) >= WriteNeeds(old(fs.blocks), old(fs.inodes)[i], start, |src|))
  {
    hide Owned, AllFull, Stored, Splice, Used, FilesOf, Transaction, History, Chunks, Covered, LogRange, ChunkEnded, Balanced,
      WriteEnded, FreeBlocks, WriteNeeds, WithinQuota, OneEach, Reached;
    ghost var f0, b0, i0 := fs.Files(), fs.blocks, fs.inodes;
    StartBalance(fs.g, b0, i0, fs.owner, i, start, |src|);
    off, images, logs := start, [fs.Now()], [];
    var index := 0;
    QuotaNone();
    ReachedNone(|src|);
    FirstImage(fs.g, fs.Now(), f0, i, start, src);
    while index < |src|
      invariant 0 <= index <= |src| && off == start + index && (index > 0 ==> off <= MAXBYTES)
      invariant fs.Valid() && i in fs.inodes && WithinQuota(logs)
      invariant Balanced(fs.g, b0, i0[i], fs.blocks, fs.inodes[i], start, |src|) && index <= readable
      invariant Reached(|logs|, |src|, index)
      invariant |images| == |logs| + 1 && images[0] == old(fs.Now()) && images[|logs|] == fs.Now()
      invariant History(fs.g, images, logs) && Chunks(images, f0, i, start, src, index)
      invariant start > |f0[i]| ==> index == 0
    {
      ReachedFacts(|logs|, |src|, index);
      var count, remaining := NextChunk(fs, i, src, readable, start, index, f0, b0, i0[i], images, logs);
      QuotaNext(logs, fs.logged);
      images, logs := images + [fs.Now()], logs + [fs.logged];
      ReachedNext(|logs| - 1, |src|, index, if count < 0 then 0 else count);
      if count > 0 {
        off := off + count;
      }
      if count != remaining {
        break;
      }
      index := index + count;
    }
    HistoryCovers(fs.g, images, logs);
    if index == |src| { ReachedEnd(|logs|, |src|); }
    ChunksLast(images, f0, i, start, src, off - start);
    r := if index == |src| then |src| else -1;
    if start <= |f0[i]| && start + |src| <= MAXBYTES {
      assert r == |src| ==> src[..index] == src;
      WholeWrite(fs.g, b0, i0[i], fs.blocks, fs.inodes, i, f0[i], start, src, readable, |logs|, off - start);
    }
  }

  /** The last image, with all that was written. */
  lemma ChunksLast(images: seq<Image>, f0: map<nat, seq<nat>>, i: nat, start: nat, src: seq<nat>, written: nat)
    requires images != [] && i in f0 && Chunks(images, f0, i, start, src, written) && written <= (|images| - 1) * CHUNK
    ensures written <= |src| && ChunkAt(images[|images| - 1], f0, i, start, src, written)
  {
    hide ChunkAt;
    assert ChunkAt(images[|images| - 1], f0, i, start, src, Min((|images| - 1) * CHUNK, written));
    ChunkBytes(images[|images| - 1], f0, i, start, src, written);
  }

  lemma ChunkBytes(im: Image, f0: map<nat, seq<nat>>, i: nat, start: nat, src: seq<nat>, n: nat)
    requires i in f0 && ChunkAt(im, f0, i, start, src, n)
    ensures n <= |src|
  {}

  lemma QuotaNone()
    ensures WithinQuota([])
  {}

  lemma QuotaNext(logs: seq<set<nat>>, log: set<nat>)
    requires WithinQuota(logs) && |log| <= DiskBlocks.MAXOPBLOCKS
    ensures WithinQuota(logs + [log])
  {}

  /** Where the last of so many chunks begins. */
  function Begun(chunks: nat): nat {
    if chunks == 0 then 0 else (chunks - 1) * CHUNK
  }

  lemma StartBalance(g: Geometry, blocks: Blocks, inodes: Inodes, owner: Owners, i: nat, off: nat, n: nat)
    requires Owned(g, blocks, inodes, owner, {}) && i in inodes
    ensures Balanced(g, blocks, inodes[i], blocks, inodes[i], off, n)
  {
    OwnedBasics(g, blocks, inodes, owner);
    BalancedNone(g, blocks, inodes[i], off, n);
  }

  lemma ChunkBalance(g: Geometry, b0: Blocks, ino0: Inode, b1: Blocks, ino1: Inode, blocks: Blocks, ino: Inode,
                     start: nat, n: nat, index: nat, remaining: nat, readable: nat, count: int)
    requires Balanced(g, b0, ino0, b1, ino1, start, n) && index + remaining <= n && index <= readable
    requires ChunkEnded(g, b1, ino1, blocks, ino, start + index, remaining, Rest(readable, index), count)
    ensures Balanced(g, b0, ino0, blocks, ino, start, n) && (count >= 0 ==> index + count <= readable)
    ensures 0 <= count < remaining ==> PartsEnded(g, b0, ino0, blocks, ino, start, n, readable, index + count, index, remaining)
  {
    hide Balanced;
    if count >= 0 { BalancedPart(g, b0, ino0, b1, ino1, blocks, ino, start, n, start + index, remaining); }
  }

  /** filewrite as a whole: all is written exactly when the source can be read and the disk has the
      blocks it takes. */
  lemma WholeWrite(g: Geometry, b0: Blocks, ino0: Inode, blocks: Blocks, inodes: Inodes, i: nat, c: seq<nat>,
                   start: nat, src: seq<nat>, readable: nat, chunks: nat, w: nat)
    requires AllFull(blocks, inodes) && i in inodes && start <= |c| && start + |src| <= MAXBYTES
    requires w < |src| ==> WriteEnded(g, b0, ino0, blocks, inodes[i], start, |src|, readable, w, chunks)
    requires w >= |src| ==> |src| == w <= readable && FilesOf(blocks, inodes)[i] == Splice(c, start, src)
    requires w >= |src| ==> Balanced(g, b0, ino0, blocks, inodes[i], start, |src|)
    ensures WriteEnded(g, b0, ino0, blocks, inodes[i], start, |src|, readable, w, chunks)
    ensures BlocksOk(g, b0) && InodeOk(ino0)
    ensures w == |src| <==> |src| <= readable && FreeBlocks(g, b0) >= WriteNeeds(b0, ino0, start, |src|)
  {
    if w == |src| {
      SpliceTwice(c, start, src, []);
      ThereNow(blocks, inodes, i, start, |src|);
    }
    hide FreeBlocks, WriteNeeds, AllThere, Splice, AllFull, FilesOf;
    PartsExact(g, b0, ino0, blocks, inodes[i], start, |src|, readable, w, Begun(chunks), Min(Rest(|src|, Begun(chunks)), CHUNK));
  }

  /** How filewrite ends: after w bytes, in the last of so many chunks. */
  ghost predicate WriteEnded(g: Geometry, b0: Blocks, ino0: Inode, blocks: Blocks, ino: Inode, start: nat, n: nat, readable: nat,
                             w: nat, chunks: nat) {
    PartsEnded(g, b0, ino0, blocks, ino, start, n, readable, w, Begun(chunks), Min(Rest(n, Begun(chunks)), CHUNK))
  }

  lemma FirstImage(g: Geometry, im: Image, f0: map<nat, seq<nat>>, i: nat, start: nat, src: seq<nat>)
    requires Consistent(g, im) && f0 == FilesOf(im.blocks, im.inodes) && i in f0
    ensures History(g, [im], []) && Chunks([im], f0, i, start, src, 0)
  {
    hide Owned, AllFull, Stored, FilesOf, Splice;
    if start <= |f0[i]| { SpliceNone(f0[i], start); }
    assert src[..0] == [] && f0[i := f0[i]] == f0;
    assert ChunkAt(im, f0, i, start, src, 0);
  }

  /** WriteChunk as the next transaction. */
  method NextChunk(fs: FileSystem, i: nat, src: seq<nat>, readable: nat, start: nat, index: nat, ghost f0: map<nat, seq<nat>>,
                   ghost b0: Blocks, ghost ino0: Inode, ghost images: seq<Image>, ghost logs: seq<set<nat>>)
    returns (count: int, remaining: nat)
    requires fs.Valid() && i in fs.inodes && i in f0 && index < |src| && start + index < TWO32 && |src| < TWO32
    requires start > |f0[i]| ==> index == 0
    requires History(fs.g, images, logs) && images[|logs|] == fs.Now() && Chunks(images, f0, i, start, src, index)
    requires |images| == |logs| + 1 && index == |logs| * CHUNK
    requires Balanced(fs.g, b0, ino0, fs.blocks, fs.inodes[i], start, |src|) && index <= readable
    modifies fs
    ensures fs.Valid() && i in fs.inodes && remaining == Min(|src| - index, CHUNK) && index + remaining <= |src|
    ensures -1 <= count <= remaining
    ensures |fs.logged| <= DiskBlocks.MAXOPBLOCKS
    ensures History(fs.g, images + [fs.Now()], logs + [fs.logged])
    ensures Chunks(images + [fs.Now()], f0, i, start, src, index + if count < 0 then 0 else count)
    ensures start > |f0[i]| ==> count == -1
    ensures count == -1 ==> start > |f0[i]| || start + |src| > MAXBYTES
    ensures count >= 0 ==> start + index + count <= MAXBYTES
    ensures Balanced(fs.g, b0, ino0, fs.blocks, fs.inodes[i], start, |src|) && (count >= 0 ==> index + count <= readable)
    ensures 0 <= count < remaining ==>
      WriteEnded(fs.g, b0, ino0, fs.blocks, fs.inodes[i], start, |src|, readable, index + count, |logs| + 1)
  {
    hide Owned, AllFull, Stored, Splice, Used, FilesOf, History, Chunks, Covered, LogRange, ChunkEnded, Balanced, PartsEnded;
    ghost var b1, ino1 := fs.blocks, fs.inodes[i];
    ChunksLast(images, f0, i, start, src, index);
    count, remaining := WriteChunk(fs, i, src, readable, start, index, f0);
    ChunkBalance(fs.g, b0, ino0, b1, ino1, fs.blocks, fs.inodes[i], start, |src|, index, remaining, readable, count);
    HistoryNext(fs.g, images, logs, fs.Now(), fs.logged);
    ChunksNext(images, f0, i, start, src, index, fs.Now(), if count < 0 then 0 else count);
  }

  /** What was written is what is read back, across direct and indirect blocks, also when the disk
      filled up on the way. */
  method WriteThenRead(fs: FileSystem, i: nat, src: seq<nat>, off: nat) returns (r: int, dst: seq<nat>)
    requires fs.Valid() && i in fs.inodes && off < TWO32 && |src| < TWO32
    modifies fs
    ensures fs.Valid() && (r >= 0 ==> r <= |src| && dst == src[..r])
    ensures r == -1 <==> off > |old(fs.Files())[i]| || off + |src| > MAXBYTES
    ensures r >= 0 ==> (r == |src| <==> FreeBlocks(fs.g, old(fs.blocks)) >= WriteNeeds(old(fs.blocks), old(fs.inodes)[i], off, |src|))
    ensures 0 <= r < |src| ==> fs.DiskFull()
  {
    hide Owned, AllFull, Stored, FilesOf, Used, FreeBlocks, WriteNeeds, AllThere, Balanced, Slot;
    ghost var c := fs.Files()[i];
    r := Writei(fs, i, src, |src|, off);
    dst := [];
    if 0 <= r < |src| {
      SpanEnd(off, |src|, r);
      NoneLeft(fs.g, fs.blocks);
    }
    if r >= 0 {
      var count;
      count, dst := Readi(fs, i, r, off, r);
    }
  }
}
