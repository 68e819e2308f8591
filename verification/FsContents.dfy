/** Files as byte sequences (kernel/file/fs.c, readi and writei). */
module FsContents {
  import opened SetSizes
  import opened FsBytes
  import opened FsBitmap
  import opened FsInodes

  const MAXBYTES: nat := MAXFILE * BSIZE

  /** Every place of an inode and of an indirect block that holds data counts, to its last byte, and
      every word of an indirect block is one. */
  lemma EveryPlace(k: nat, x: nat)
    requires k < SLOTS && k != NDIRECT && x < BSIZE
    ensures exists o: nat :: o < MAXBYTES && DataSlot(o / BSIZE) == k && o % BSIZE == x
    ensures forall j: nat :: 4 * j + 3 < BSIZE <==> NDIRECT + 1 + j < SLOTS
  {
    var n := if k < NDIRECT then k else k - 1;
    var o := n * BSIZE + x;
    assert o / BSIZE == n && o % BSIZE == x;
    assert o < MAXBYTES && DataSlot(o / BSIZE) == k;
  }

  function ByteAt(blocks: Blocks, ino: Inode, o: nat): nat
    requires InodeOk(ino) && o < MAXBYTES
  {
    var b := Slot(blocks, ino, DataSlot(o / BSIZE));
    if b == 0 || b >= |blocks| || !IsBlock(blocks[b]) then 0 else blocks[b][o % BSIZE]
  }

  predicate SizeOk(ino: Inode) {
    InodeOk(ino) && ino.size <= MAXBYTES
  }

  /** What a file holds. */
  function Content(blocks: Blocks, ino: Inode): (c: seq<nat>)
    requires SizeOk(ino)
    ensures |c| == ino.size
  {
    seq(ino.size, o requires 0 <= o < ino.size => ByteAt(blocks, ino, o))
  }

  /** Every block below a size has a place on the disk. */
  ghost predicate MappedTo(blocks: Blocks, ino: Inode, size: nat)
    requires InodeOk(ino) && size <= MAXBYTES
  {
    forall n: nat :: n * BSIZE < size ==> Slot(blocks, ino, DataSlot(n)) != 0
  }

  ghost predicate Full(blocks: Blocks, ino: Inode) {
    SizeOk(ino) && MappedTo(blocks, ino, ino.size)
  }

  ghost predicate AllFull(blocks: Blocks, inodes: Inodes) {
    forall i :: i in inodes ==> Full(blocks, inodes[i])
  }

  /** What every file holds. */
  ghost function FilesOf(blocks: Blocks, inodes: Inodes): (f: map<nat, seq<nat>>)
    requires AllFull(blocks, inodes)
    ensures f.Keys == inodes.Keys
    ensures forall a :: a in inodes ==> |f[a]| == inodes[a].size
  {
    assert forall a :: a in inodes ==> Full(blocks, inodes[a]);
    map a | a in inodes :: Content(blocks, inodes[a])
  }

  /** One file changed. */
  lemma FilesUpdated(blocks: Blocks, inodes: Inodes, blocks': Blocks, i: nat, ino: Inode)
    requires AllFull(blocks, inodes) && i in inodes && Full(blocks', ino)
    requires forall a :: a in inodes && a != i ==>
      Full(blocks, inodes[a]) && Full(blocks', inodes[a]) && Content(blocks', inodes[a]) == Content(blocks, inodes[a])
    ensures AllFull(blocks', inodes[i := ino])
    ensures FilesOf(blocks', inodes[i := ino]) == FilesOf(blocks, inodes)[i := Content(blocks', ino)]
    ensures FilesOf(blocks, inodes)[i] == Content(blocks, inodes[i])
  {
    hide Content, MappedTo;
    assert AllFull(blocks', inodes[i := ino]);
  }

  // ---- blocks added to a file ----

  ghost predicate SlotGrows(blocks: Blocks, inodes: Inodes, blocks': Blocks, inodes': Inodes, i: nat, a: nat, k: nat)
    requires a in inodes && a in inodes' && InodeOk(inodes[a]) && InodeOk(inodes'[a]) && k < SLOTS
  {
    var b, b' := Slot(blocks, inodes[a], k), Slot(blocks', inodes'[a], k);
    && (b != 0 || a != i ==> b' == b)
    && (b != 0 && k != NDIRECT ==> b < |blocks| && b < |blocks'| && blocks'[b] == blocks[b])
  }

  /** Only one file changed, by blocks it did not have before. */
  ghost predicate Grows(blocks: Blocks, inodes: Inodes, blocks': Blocks, inodes': Inodes, i: nat) {
    && InodesOk(inodes) && InodesOk(inodes')
    && inodes'.Keys == inodes.Keys && i in inodes
    && (forall a :: a in inodes ==>
          inodes'[a].size == inodes[a].size && inodes'[a].meta == inodes[a].meta && (a != i ==> inodes'[a] == inodes[a]))
    && (forall a, k: nat :: a in inodes && k < SLOTS ==> SlotGrows(blocks, inodes, blocks', inodes', i, a, k))
  }

  lemma GrowsTrans(b0: Blocks, i0: Inodes, b1: Blocks, i1: Inodes, b2: Blocks, i2: Inodes, i: nat)
    requires Grows(b0, i0, b1, i1, i) && Grows(b1, i1, b2, i2, i)
    ensures Grows(b0, i0, b2, i2, i)
  {
    hide Slot;
    forall a, k: nat | a in i0 && k < SLOTS ensures SlotGrows(b0, i0, b2, i2, i, a, k) {
      assert SlotGrows(b0, i0, b1, i1, i, a, k);
      assert SlotGrows(b1, i1, b2, i2, i, a, k);
    }
  }

  lemma GrowsByte(blocks: Blocks, inodes: Inodes, blocks': Blocks, inodes': Inodes, i: nat, a: nat, o: nat)
    requires Grows(blocks, inodes, blocks', inodes', i) && a in inodes && o < MAXBYTES
    requires Slot(blocks, inodes[a], DataSlot(o / BSIZE)) != 0
    ensures ByteAt(blocks', inodes'[a], o) == ByteAt(blocks, inodes[a], o)
  {
    assert SlotGrows(blocks, inodes, blocks', inodes', i, a, DataSlot(o / BSIZE));
  }

  lemma GrowsMapped(blocks: Blocks, inodes: Inodes, blocks': Blocks, inodes': Inodes, i: nat, a: nat, size: nat)
    requires Grows(blocks, inodes, blocks', inodes', i) && a in inodes && size <= MAXBYTES
    requires MappedTo(blocks, inodes[a], size)
    ensures MappedTo(blocks', inodes'[a], size)
  {
    forall n: nat | n * BSIZE < size ensures Slot(blocks', inodes'[a], DataSlot(n)) != 0 {
      assert SlotGrows(blocks, inodes, blocks', inodes', i, a, DataSlot(n));
    }
  }

  /** A full file reads the same after any file has grown. */
  lemma GrowsContent(blocks: Blocks, inodes: Inodes, blocks': Blocks, inodes': Inodes, i: nat, a: nat)
    requires Grows(blocks, inodes, blocks', inodes', i) && a in inodes && Full(blocks, inodes[a])
    ensures Full(blocks', inodes'[a]) && Content(blocks', inodes'[a]) == Content(blocks, inodes[a])
  {
    GrowsMapped(blocks, inodes, blocks', inodes', i, a, inodes[a].size);
    forall o: nat | o < inodes[a].size ensures ByteAt(blocks', inodes'[a], o) == ByteAt(blocks, inodes[a], o) {
      assert o / BSIZE * BSIZE <= o;
      GrowsByte(blocks, inodes, blocks', inodes', i, a, o);
    }
  }

  // ---- bytes written into a block ----

  function CopyIn(d: Block, at: nat, data: seq<nat>): (r: Block)
    requires at + |data| <= |d|
    ensures |r| == |d|
  {
    d[..at] + data + d[at + |data|..]
  }

  function Written(blocks: Blocks, b: nat, at: nat, data: seq<nat>): Blocks
    requires b < |blocks| && at + |data| <= |blocks[b]|
  {
    blocks[b := CopyIn(blocks[b], at, data)]
  }

  /** A write into the block at a file offset changes these bytes of this file and nothing else. */
  lemma WriteBlock(g: Geometry, blocks: Blocks, inodes: Inodes, owner: Owners, i: nat, off: nat, data: seq<nat>)
    requires Owned(g, blocks, inodes, owner, {}) && i in inodes && off + |data| <= MAXBYTES && off < MAXBYTES
    requires off % BSIZE + |data| <= BSIZE && Slot(blocks, inodes[i], DataSlot(off / BSIZE)) != 0
    ensures var b := Slot(blocks, inodes[i], DataSlot(off / BSIZE));
      && b < |blocks| && IsBlock(blocks[b])
      && Owned(g, Written(blocks, b, off % BSIZE, data), inodes, owner, {})
      && SameSlots(blocks, Written(blocks, b, off % BSIZE, data), inodes)
      && (forall a, o: nat :: a in inodes && o < MAXBYTES ==>
        ByteAt(Written(blocks, b, off % BSIZE, data), inodes[a], o)
          == if a == i && off <= o < off + |data| then data[o - off] else ByteAt(blocks, inodes[a], o))
  {
    var k := DataSlot(off / BSIZE);
    var b := Slot(blocks, inodes[i], k);
    assert SlotOwned(blocks, inodes, owner, i, k) && OwnerOk(g, blocks, inodes, owner, b);
    var blocks' := Written(blocks, b, off % BSIZE, data);
    DataKept(g, blocks, inodes, owner, blocks', i, k);
    forall a, o: nat | a in inodes && o < MAXBYTES
      ensures ByteAt(blocks', inodes[a], o)
           == if a == i && off <= o < off + |data| then data[o - off] else ByteAt(blocks, inodes[a], o)
    {
      WrittenByte(g, blocks, inodes, owner, i, off, data, a, o);
    }
  }

  /** Blocks of data hold no block numbers. */
  lemma DataKept(g: Geometry, blocks: Blocks, inodes: Inodes, owner: Owners, blocks': Blocks, i: nat, k: nat)
    requires Owned(g, blocks, inodes, owner, {}) && i in inodes && k < SLOTS && k != NDIRECT
    requires BlocksOk(g, blocks') && Slot(blocks, inodes[i], k) != 0
    requires forall c: nat :: c < |blocks| && c != Slot(blocks, inodes[i], k) ==> blocks'[c] == blocks[c]
    ensures Owned(g, blocks', inodes, owner, {}) && SameSlots(blocks, blocks', inodes)
  {
    var b := Slot(blocks, inodes[i], k);
    assert SlotOwned(blocks, inodes, owner, i, k) && OwnerOk(g, blocks, inodes, owner, b);
    forall a, l: nat | a in inodes && l < SLOTS ensures Slot(blocks', inodes[a], l) == Slot(blocks, inodes[a], l) {
      assert SlotOwned(blocks, inodes, owner, a, NDIRECT);
    }
    forall c: nat | c < g.size ensures BitOk(g, blocks', owner, {}, c) {
      BitPlace(g, c);
      assert BitOk(g, blocks, owner, {}, c);
    }
    OwnedKept(g, blocks, inodes, owner, {}, blocks', {});
  }

  lemma WrittenByte(g: Geometry, blocks: Blocks, inodes: Inodes, owner: Owners, i: nat, off: nat, data: seq<nat>, a: nat, o: nat)
    requires Owned(g, blocks, inodes, owner, {}) && i in inodes && off + |data| <= MAXBYTES && off < MAXBYTES
    requires off % BSIZE + |data| <= BSIZE && a in inodes && o < MAXBYTES
    requires Slot(blocks, inodes[i], DataSlot(off / BSIZE)) != 0
    ensures var b := Slot(blocks, inodes[i], DataSlot(off / BSIZE));
      && b < |blocks| && IsBlock(blocks[b])
      && var blocks' := Written(blocks, b, off % BSIZE, data);
         (forall l: nat :: l < SLOTS ==> Slot(blocks', inodes[a], l) == Slot(blocks, inodes[a], l)) ==>
         ByteAt(blocks', inodes[a], o)
           == if a == i && off <= o < off + |data| then data[o - off] else ByteAt(blocks, inodes[a], o)
  {
    var k, l := DataSlot(off / BSIZE), DataSlot(o / BSIZE);
    var b := Slot(blocks, inodes[i], k);
    assert SlotOwned(blocks, inodes, owner, i, k) && OwnerOk(g, blocks, inodes, owner, b);
    assert SlotOwned(blocks, inodes, owner, a, l);
    hide Slot, Owned;
    assert l == k <==> o / BSIZE == off / BSIZE;
    assert o == o / BSIZE * BSIZE + o % BSIZE;
    assert off == off / BSIZE * BSIZE + off % BSIZE;
  }

  // ---- reading ----

  /** A piece of a block is a piece of the file. */
  lemma ReadBlock(blocks: Blocks, ino: Inode, off: nat, m: nat)
    requires Full(blocks, ino) && 0 < m && off + m <= ino.size && off % BSIZE + m <= BSIZE
    requires var b := Slot(blocks, ino, DataSlot(off / BSIZE)); b < |blocks| && IsBlock(blocks[b])
    ensures var b := Slot(blocks, ino, DataSlot(off / BSIZE));
      b != 0 && blocks[b][off % BSIZE..off % BSIZE + m] == Content(blocks, ino)[off..off + m]
  {
    var n := off / BSIZE;
    var b := Slot(blocks, ino, DataSlot(n));
    assert n * BSIZE < ino.size;
    hide Slot, MappedTo;
    var piece, c := blocks[b][off % BSIZE..off % BSIZE + m], Content(blocks, ino);
    forall x: nat | x < m ensures piece[x] == c[off..off + m][x] {
      SameBlock(off, x);
      assert c[off + x] == ByteAt(blocks, ino, off + x);
    }
  }

  lemma SameBlock(off: nat, x: nat)
    requires off % BSIZE + x < BSIZE
    ensures (off + x) / BSIZE == off / BSIZE && (off + x) % BSIZE == off % BSIZE + x
  {}

  // ---- writing ----

  /** Bytes put over a file from an offset on. */
  function Splice(c: seq<nat>, off: nat, data: seq<nat>): seq<nat>
    requires off <= |c|
  {
    c[..off] + data + (if off + |data| < |c| then c[off + |data|..] else [])
  }

  /** Part of the way through a write to a file: so many bytes are in place from an offset on,
      they and the old bytes have their blocks, and the other files are as they were. */
  ghost predicate Progress(b0: Blocks, i0: Inodes, blocks: Blocks, inodes: Inodes, i: nat, off: nat, data: seq<nat>)
    requires InodesOk(i0) && i in i0 && off + |data| <= MAXBYTES && i0[i].size <= MAXBYTES
  {
    && InodesOk(inodes) && inodes.Keys == i0.Keys && inodes[i].size == i0[i].size && inodes[i].meta == i0[i].meta
    && (forall a :: a in i0 && a != i ==> inodes[a] == i0[a])
    && (forall a :: a in i0 && a != i && SizeOk(i0[a]) ==>
      Full(blocks, i0[a]) && Content(blocks, i0[a]) == Content(b0, i0[a]))
    && (forall o: nat :: o < i0[i].size && !(off <= o < off + |data|) ==> ByteAt(blocks, inodes[i], o) == ByteAt(b0, i0[i], o))
    && (forall o: nat :: off <= o < off + |data| ==> ByteAt(blocks, inodes[i], o) == data[o - off])
    && MappedTo(blocks, inodes[i], Max(i0[i].size, off + |data|))
  }

  lemma ProgressGrows(b0: Blocks, i0: Inodes, b1: Blocks, i1: Inodes, b2: Blocks, i2: Inodes, i: nat, off: nat, data: seq<nat>)
    requires InodesOk(i0) && i in i0 && off + |data| <= MAXBYTES && i0[i].size <= MAXBYTES
    requires Progress(b0, i0, b1, i1, i, off, data) && Grows(b1, i1, b2, i2, i)
    ensures Progress(b0, i0, b2, i2, i, off, data)
  {
    hide Slot, Grows;
    assert i2.Keys == i1.Keys && InodesOk(i2) by { GrowsKeys(b1, i1, b2, i2, i); }
    GrowsKeys(b1, i1, b2, i2, i);
    forall a | a in i0 && a != i && SizeOk(i0[a])
      ensures Full(b2, i0[a]) && Content(b2, i0[a]) == Content(b0, i0[a])
    {
      GrowsContent(b1, i1, b2, i2, i, a);
    }
    GrowsMapped(b1, i1, b2, i2, i, i, Max(i0[i].size, off + |data|));
    forall o: nat | o < Max(i0[i].size, off + |data|) ensures ByteAt(b2, i2[i], o) == ByteAt(b1, i1[i], o) {
      assert o / BSIZE * BSIZE <= o;
      GrowsByte(b1, i1, b2, i2, i, i, o);
    }
    hide ByteAt, MappedTo, Content;
  }

  lemma GrowsKeys(b1: Blocks, i1: Inodes, b2: Blocks, i2: Inodes, i: nat)
    requires Grows(b1, i1, b2, i2, i)
    ensures InodesOk(i1) && InodesOk(i2) && i2.Keys == i1.Keys && i in i1 && i2[i].size == i1[i].size && i2[i].meta == i1[i].meta
    ensures forall a :: a in i1 && a != i ==> i2[a] == i1[a]
  {}

  lemma ProgressWritten(g: Geometry, b0: Blocks, i0: Inodes, blocks: Blocks, inodes: Inodes, owner: Owners,
                        i: nat, off: nat, data: seq<nat>, more: seq<nat>)
    requires InodesOk(i0) && i in i0 && off + |data| + |more| <= MAXBYTES && i0[i].size <= MAXBYTES
    requires Progress(b0, i0, blocks, inodes, i, off, data) && Owned(g, blocks, inodes, owner, {})
    requires off + |data| < MAXBYTES && (off + |data|) % BSIZE + |more| <= BSIZE
    requires Slot(blocks, inodes[i], DataSlot((off + |data|) / BSIZE)) != 0
    ensures var b := Slot(blocks, inodes[i], DataSlot((off + |data|) / BSIZE));
      && b < |blocks| && IsBlock(blocks[b])
      && var blocks' := Written(blocks, b, (off + |data|) % BSIZE, more);
      && Owned(g, blocks', inodes, owner, {}) && SameSlots(blocks, blocks', inodes)
      && Progress(b0, i0, blocks', inodes, i, off, data + more)
  {
    var at := off + |data|;
    WriteBlock(g, blocks, inodes, owner, i, at, more);
    var b := Slot(blocks, inodes[i], DataSlot(at / BSIZE));
    var blocks' := Written(blocks, b, at % BSIZE, more);
    hide Written, Owned, ByteAt, Slot;
    forall a | a in i0 && a != i && SizeOk(i0[a])
      ensures Full(blocks', i0[a]) && Content(blocks', i0[a]) == Content(b0, i0[a])
    {
      SameFile(blocks, blocks', inodes, a);
    }
    MappedMore(blocks, blocks', inodes, i, Max(i0[i].size, at), at, |more|);
    MappedLess(blocks', inodes[i], Max(Max(i0[i].size, at), at + |more|), Max(i0[i].size, off + |data + more|));
  }

  lemma SameFile(blocks: Blocks, blocks': Blocks, inodes: Inodes, a: nat)
    requires InodesOk(inodes) && SameSlots(blocks, blocks', inodes) && a in inodes && Full(blocks, inodes[a])
    requires forall o: nat :: o < MAXBYTES ==> ByteAt(blocks', inodes[a], o) == ByteAt(blocks, inodes[a], o)
    ensures Full(blocks', inodes[a]) && Content(blocks', inodes[a]) == Content(blocks, inodes[a])
  {
    hide Slot, ByteAt;
    forall n: nat | n * BSIZE < inodes[a].size ensures Slot(blocks', inodes[a], DataSlot(n)) != 0 {
      assert Slot(blocks', inodes[a], DataSlot(n)) == Slot(blocks, inodes[a], DataSlot(n));
    }
  }

  lemma MappedLess(blocks: Blocks, ino: Inode, size: nat, less: nat)
    requires InodeOk(ino) && less <= size <= MAXBYTES && MappedTo(blocks, ino, size)
    ensures MappedTo(blocks, ino, less)
  {
    hide Slot;
  }

  /** One more block mapped, from where the last one ended or within it. */
  lemma MappedMore(blocks: Blocks, blocks': Blocks, inodes: Inodes, i: nat, size: nat, at: nat, m: nat)
    requires InodesOk(inodes) && i in inodes && SameSlots(blocks, blocks', inodes) && at <= size <= MAXBYTES
    requires at + m <= MAXBYTES && at < MAXBYTES && at % BSIZE + m <= BSIZE
    requires MappedTo(blocks, inodes[i], size) && Slot(blocks, inodes[i], DataSlot(at / BSIZE)) != 0
    ensures MappedTo(blocks', inodes[i], Max(size, at + m))
  {
    hide Slot;
    forall n: nat | n * BSIZE < Max(size, at + m) ensures Slot(blocks', inodes[i], DataSlot(n)) != 0 {
      assert Slot(blocks', inodes[i], DataSlot(n)) == Slot(blocks, inodes[i], DataSlot(n));
      if n * BSIZE >= size {
        assert n == at / BSIZE;
      }
    }
  }

  /** At the end the file is the old one with the bytes put over it. */
  lemma ProgressDone(b0: Blocks, i0: Inodes, blocks: Blocks, inodes: Inodes, i: nat, off: nat, data: seq<nat>)
    requires InodesOk(i0) && i in i0 && off + |data| <= MAXBYTES && off <= i0[i].size <= MAXBYTES
    requires Progress(b0, i0, blocks, inodes, i, off, data)
    ensures var ino := inodes[i].(size := Max(i0[i].size, off + |data|));
      Full(blocks, ino) && Content(blocks, ino) == Splice(Content(b0, i0[i]), off, data)
  {
    var ino := inodes[i].(size := Max(i0[i].size, off + |data|));
    assert MappedTo(blocks, ino, ino.size) by {
      forall n: nat | n * BSIZE < ino.size ensures Slot(blocks, ino, DataSlot(n)) != 0 {
        assert Slot(blocks, ino, DataSlot(n)) == Slot(blocks, inodes[i], DataSlot(n));
      }
    }
    forall o: nat | o < ino.size ensures ByteAt(blocks, ino, o) == Splice(Content(b0, i0[i]), off, data)[o] {
      assert ByteAt(blocks, ino, o) == ByteAt(blocks, inodes[i], o);
    }
  }
}
