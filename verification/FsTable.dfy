/** Inodes as bytes in the blocks of the inode table (kernel/file/fs.h, struct dinode). */
module FsTable {
  import opened FsBytes
  import opened FsBitmap
  import opened FsInodes
  import opened FsContents

  const IPB: nat := 16           // inodes in a block
  const INODE_WORDS: nat := 16   // type and major, minor and nlink, size, addrs

  function InodeBlock(g: Geometry, i: nat): nat {  // IBLOCK
    g.inodestart + i / IPB
  }

  /** The inode has a place in the table. */
  predicate InumOk(g: Geometry, i: nat) {
    InodeBlock(g, i) < g.bmapstart
  }

  /** Values that the 32-bit fields of an inode can take. */
  predicate Fits(ino: Inode) {
    InodeOk(ino) && ino.size < TWO32 && forall k :: 0 <= k <= NDIRECT ==> ino.addrs[k] < TWO32
  }

  // ---- one block of the table ----

  function HeadWord(s: nat): nat {
    INODE_WORDS * s
  }

  /** Two fields of 16 bits in a word, the first one in its lower half. */
  function Halves(lo: Half, hi: Half): (w: nat)
    ensures w < TWO32
  {
    lo + 0x1_0000 * hi
  }

  function LowHalf(w: nat): Half {
    w % 0x1_0000
  }

  function HighHalf(w: nat): Half {
    w / 0x1_0000 % 0x1_0000
  }

  lemma HalvesBack(lo: Half, hi: Half)
    ensures LowHalf(Halves(lo, hi)) == lo && HighHalf(Halves(lo, hi)) == hi
  {}

  function Words(d: Block, j: nat, n: nat): (ws: seq<nat>)
    requires 4 * (j + n) <= |d|
    ensures |ws| == n && forall k: nat :: k < n ==> ws[k] == Word(d, j + k)
  {
    if n == 0 then [] else Words(d, j, n - 1) + [Word(d, j + n - 1)]
  }

  function Addrs(d: Block, s: nat): (addrs: seq<nat>)
    requires IsBlock(d) && s < IPB
    ensures |addrs| == NDIRECT + 1 && forall k: nat :: k <= NDIRECT ==> addrs[k] == Word(d, HeadWord(s) + 3 + k)
  {
    Words(d, HeadWord(s) + 3, NDIRECT + 1)
  }

  function Unpack(d: Block, s: nat): Inode
    requires IsBlock(d) && s < IPB
  {
    var w, v := Word(d, HeadWord(s)), Word(d, HeadWord(s) + 1);
    Inode(Addrs(d, s), Word(d, HeadWord(s) + 2), Meta(LowHalf(w), HighHalf(w), LowHalf(v), HighHalf(v)))
  }

  function PutWords(d: Block, j: nat, ws: seq<nat>): (r: Block)
    requires 4 * (j + |ws|) <= |d|
    ensures |r| == |d|
    decreases |ws|
  {
    if ws == [] then d else PutWords(PutWord(d, j, ws[0]), j + 1, ws[1..])
  }

  /** An inode as the words of struct dinode. */
  function InodeWords(ino: Inode): (ws: seq<nat>)
    requires InodeOk(ino)
    ensures |ws| == INODE_WORDS
  {
    [Halves(ino.meta.kind, ino.meta.major), Halves(ino.meta.minor, ino.meta.nlink), ino.size] + ino.addrs
  }

  /** The fields of inode s of the block; the rest of the block stays. */
  function Pack(d: Block, s: nat, ino: Inode): (r: Block)
    requires IsBlock(d) && s < IPB && InodeOk(ino)
    ensures IsBlock(r)
  {
    PutWords(d, HeadWord(s), InodeWords(ino))
  }

  lemma {:induction false} PutWordsAt(d: Block, j: nat, ws: seq<nat>, k: nat)
    requires 4 * (j + |ws|) <= |d| && 4 * k + 3 < |d| && forall w :: w in ws ==> w < TWO32
    ensures Word(PutWords(d, j, ws), k) == if j <= k < j + |ws| then ws[k - j] else Word(d, k)
    decreases |ws|
  {
    hide Word, PutWord;
    if ws != [] {
      assert ws[0] in ws && forall w :: w in ws[1..] ==> w in ws;
      WordPut(d, j, ws[0], k);
      PutWordsAt(PutWord(d, j, ws[0]), j + 1, ws[1..], k);
    }
  }

  lemma {:induction false} PutWordsOther(d: Block, j: nat, ws: seq<nat>, x: nat)
    requires 4 * (j + |ws|) <= |d| && x < |d| && !(4 * j <= x < 4 * (j + |ws|))
    ensures PutWords(d, j, ws)[x] == d[x]
    decreases |ws|
  {
    if ws != [] { PutWordsOther(PutWord(d, j, ws[0]), j + 1, ws[1..], x); }
  }

  /** Byte b of a value, the least significant first. */
  function LowByte(w: nat, b: nat): nat {
    if b == 0 then w % 0x100 else LowByte(w / 0x100, b - 1)
  }

  lemma FourBytes(w: nat)
    ensures LowByte(w, 0) == w % 0x100 && LowByte(w, 1) == (w / 0x100) % 0x100
    ensures LowByte(w, 2) == (w / 0x1_0000) % 0x100 && LowByte(w, 3) == (w / 0x100_0000) % 0x100
  {
    assert w / 0x100 / 0x100 == w / 0x1_0000 && w / 0x1_0000 / 0x100 == w / 0x100_0000;
    assert LowByte(w, 3) == LowByte(w / 0x100, 2) == LowByte(w / 0x1_0000, 1);
  }

  lemma {:induction false} PutWordsBytes(d: Block, j: nat, ws: seq<nat>, k: nat, b: nat)
    requires 4 * (j + |ws|) <= |d| && k < |ws| && b < 4
    ensures PutWords(d, j, ws)[4 * (j + k) + b] == LowByte(ws[k], b)
    decreases |ws|
  {
    if k == 0 {
      PutWordsOther(PutWord(d, j, ws[0]), j + 1, ws[1..], 4 * j + b);
      FourBytes(ws[0]);
    } else {
      PutWordsBytes(PutWord(d, j, ws[0]), j + 1, ws[1..], k - 1, b);
    }
  }

  /** The 64 bytes of struct dinode: type, major, minor and nlink in two bytes each, then the size and
      the block numbers in four. */
  lemma DinodeBytes(d: Block, s: nat, ino: Inode, b: nat, k: nat)
    requires IsBlock(d) && s < IPB && InodeOk(ino) && k <= NDIRECT
    ensures var r := Pack(d, s, ino);
      && (b < 2 ==> r[64 * s + b] == LowByte(ino.meta.kind, b) && r[64 * s + 2 + b] == LowByte(ino.meta.major, b))
      && (b < 2 ==> r[64 * s + 4 + b] == LowByte(ino.meta.minor, b) && r[64 * s + 6 + b] == LowByte(ino.meta.nlink, b))
      && (b < 4 ==> r[64 * s + 8 + b] == LowByte(ino.size, b) && r[64 * s + 12 + 4 * k + b] == LowByte(ino.addrs[k], b))
  {
    var ws := InodeWords(ino);
    if b < 2 {
      HalfBytes(ino.meta.kind, ino.meta.major, b);
      HalfBytes(ino.meta.minor, ino.meta.nlink, b);
      PutWordsBytes(d, HeadWord(s), ws, 0, b);
      PutWordsBytes(d, HeadWord(s), ws, 0, 2 + b);
      PutWordsBytes(d, HeadWord(s), ws, 1, b);
      PutWordsBytes(d, HeadWord(s), ws, 1, 2 + b);
    }
    if b < 4 {
      PutWordsBytes(d, HeadWord(s), ws, 2, b);
      PutWordsBytes(d, HeadWord(s), ws, 3 + k, b);
    }
  }

  lemma HalfBytes(lo: Half, hi: Half, b: nat)
    requires b < 2
    ensures LowByte(Halves(lo, hi), b) == LowByte(lo, b) && LowByte(Halves(lo, hi), 2 + b) == LowByte(hi, b)
  {
    var w := Halves(lo, hi);
    assert w / 0x100 / 0x100 == hi && w / 0x1_0000 == hi;
    assert w % 0x100 == lo % 0x100 && w / 0x100 % 0x100 == lo / 0x100 % 0x100;
  }

  lemma WordsFit(ino: Inode)
    requires Fits(ino)
    ensures forall w :: w in InodeWords(ino) ==> w < TWO32
  {
    hide Halves;
    var ws := InodeWords(ino);
    assert forall k :: 0 <= k < |ws| ==> ws[k] < TWO32;
  }

  lemma PackedWord(d: Block, s: nat, ino: Inode, k: nat)
    requires IsBlock(d) && s < IPB && Fits(ino) && k < INODE_WORDS
    ensures Word(Pack(d, s, ino), HeadWord(s) + k) == InodeWords(ino)[k]
  {
    hide Word, PutWords, InodeWords;
    WordsFit(ino);
    PutWordsAt(d, HeadWord(s), InodeWords(ino), HeadWord(s) + k);
  }

  /** What is packed is unpacked again. */
  lemma PackRoundTrip(d: Block, s: nat, ino: Inode)
    requires IsBlock(d) && s < IPB && Fits(ino)
    ensures Unpack(Pack(d, s, ino), s) == ino
  {
    hide Word, PutWords, LowHalf, HighHalf, Halves, HeadWord, Pack;
    var r := Pack(d, s, ino);
    PackedWord(d, s, ino, 0);
    PackedWord(d, s, ino, 1);
    PackedWord(d, s, ino, 2);
    HalvesBack(ino.meta.kind, ino.meta.major);
    HalvesBack(ino.meta.minor, ino.meta.nlink);
    forall k: nat | k <= NDIRECT ensures Addrs(r, s)[k] == ino.addrs[k] {
      PackedWord(d, s, ino, 3 + k);
    }
    assert Addrs(r, s) == ino.addrs;
  }

  /** Bytes of the block that are not those of inode s. */
  predicate Beside(s: nat, x: nat) {
    x < 4 * HeadWord(s) || 4 * (INODE_WORDS * s + INODE_WORDS) <= x
  }

  lemma PackOther(d: Block, s: nat, ino: Inode, x: nat)
    requires IsBlock(d) && s < IPB && InodeOk(ino) && x < BSIZE && Beside(s, x)
    ensures Pack(d, s, ino)[x] == d[x]
  {
    PutWordsOther(d, HeadWord(s), InodeWords(ino), x);
  }

  lemma WordSame(d: Block, d': Block, s: nat, t: nat, j: nat)
    requires IsBlock(d) && IsBlock(d') && s < IPB && t < IPB && s != t
    requires forall x: nat :: x < BSIZE && Beside(s, x) ==> d'[x] == d[x]
    requires HeadWord(t) <= j <= HeadWord(t) + 3 + NDIRECT
    ensures Word(d', j) == Word(d, j)
  {
    assert Beside(s, 4 * j) && Beside(s, 4 * j + 1) && Beside(s, 4 * j + 2) && Beside(s, 4 * j + 3);
  }

  lemma UnpackSame(d: Block, d': Block, s: nat, t: nat)
    requires IsBlock(d) && IsBlock(d') && s < IPB && t < IPB && s != t
    requires forall x: nat :: x < BSIZE && Beside(s, x) ==> d'[x] == d[x]
    ensures Unpack(d', t) == Unpack(d, t)
  {
    hide Word, Beside;
    WordSame(d, d', s, t, HeadWord(t));
    WordSame(d, d', s, t, HeadWord(t) + 1);
    WordSame(d, d', s, t, HeadWord(t) + 2);
    forall k: nat | k <= NDIRECT ensures Addrs(d', t)[k] == Addrs(d, t)[k] {
      WordSame(d, d', s, t, HeadWord(t) + 3 + k);
    }
  }

  // ---- the whole table ----

  ghost function ReadInode(g: Geometry, blocks: Blocks, i: nat): Inode
    requires BlocksOk(g, blocks) && InumOk(g, i)
  {
    Unpack(blocks[InodeBlock(g, i)], i % IPB)
  }

  /** The table on disk has the inodes as they are. */
  ghost predicate Stored(g: Geometry, blocks: Blocks, inodes: Inodes)
    requires BlocksOk(g, blocks)
  {
    forall i :: i in inodes ==> InumOk(g, i) && ReadInode(g, blocks, i) == inodes[i]
  }

  /** No block of the table has changed. */
  ghost predicate SameTable(g: Geometry, blocks: Blocks, blocks': Blocks) {
    |blocks'| == |blocks| && forall c: nat :: c < |blocks| && g.inodestart <= c < g.bmapstart ==> blocks'[c] == blocks[c]
  }

  /** Nothing but blocks of the table has changed. */
  ghost predicate OnlyTable(g: Geometry, blocks: Blocks, blocks': Blocks) {
    |blocks'| == |blocks| && forall c: nat :: c < |blocks| && g.bmapstart <= c ==> blocks'[c] == blocks[c]
  }

  /** Blocks that a transaction may hold: the table, the bitmap and what is behind them. */
  ghost predicate LogRange(g: Geometry, logged: set<nat>) {
    forall c :: c in logged ==> g.inodestart <= c < g.size
  }

  /** The log has every block that changed, and none of them is a block of the table. */
  ghost predicate Tracked(g: Geometry, blocks: Blocks, logged: set<nat>, blocks': Blocks, logged': set<nat>) {
    && Covered(blocks, logged, blocks', logged') && SameTable(g, blocks, blocks')
    && (LogRange(g, logged) ==> LogRange(g, logged'))
  }

  lemma TrackedNone(g: Geometry, blocks: Blocks, logged: set<nat>)
    ensures Tracked(g, blocks, logged, blocks, logged)
  {}

  lemma TrackedTrans(g: Geometry, b0: Blocks, l0: set<nat>, b1: Blocks, l1: set<nat>, b2: Blocks, l2: set<nat>)
    requires Tracked(g, b0, l0, b1, l1) && Tracked(g, b1, l1, b2, l2)
    ensures Tracked(g, b0, l0, b2, l2)
  {
    CoveredTrans(b0, l0, b1, l1, b2, l2);
    forall c: nat | c < |b0| && g.inodestart <= c < g.bmapstart ensures b2[c] == b0[c] {
      assert b1[c] == b0[c];
    }
  }

  lemma TrackedWrite(g: Geometry, blocks: Blocks, logged: set<nat>, b: nat, d: Block)
    requires GeometryOk(g) && b < |blocks| == g.size && g.bmapstart <= b
    ensures Tracked(g, blocks, logged, blocks[b := d], logged + {b})
  {}

  lemma TrackedParts(g: Geometry, blocks: Blocks, logged: set<nat>, blocks': Blocks, logged': set<nat>)
    requires Tracked(g, blocks, logged, blocks', logged')
    ensures Covered(blocks, logged, blocks', logged') && SameTable(g, blocks, blocks')
    ensures LogRange(g, logged) ==> LogRange(g, logged')
  {}

  lemma StoredSame(g: Geometry, blocks: Blocks, blocks': Blocks, inodes: Inodes)
    requires BlocksOk(g, blocks) && BlocksOk(g, blocks') && SameTable(g, blocks, blocks') && Stored(g, blocks, inodes)
    ensures Stored(g, blocks', inodes)
  {
    hide Unpack;
  }

  /** Writing inode i: it reads back, and the bytes of the others are as they were. */
  lemma InodeWritten(g: Geometry, blocks: Blocks, i: nat, ino: Inode)
    requires BlocksOk(g, blocks) && InumOk(g, i) && Fits(ino)
    ensures var ib := InodeBlock(g, i);
      var blocks' := blocks[ib := Pack(blocks[ib], i % IPB, ino)];
      && BlocksOk(g, blocks') && OnlyTable(g, blocks, blocks') && ReadInode(g, blocks', i) == ino
      && (forall x: nat :: x < BSIZE && Beside(i % IPB, x) ==> blocks'[ib][x] == blocks[ib][x])
      && (forall j: nat :: InumOk(g, j) && j != i ==> ReadInode(g, blocks', j) == ReadInode(g, blocks, j))
  {
    var ib, s := InodeBlock(g, i), i % IPB;
    var d := Pack(blocks[ib], s, ino);
    PackRoundTrip(blocks[ib], s, ino);
    forall x: nat | x < BSIZE && Beside(s, x) ensures d[x] == blocks[ib][x] { PackOther(blocks[ib], s, ino, x); }
    hide Pack, Unpack, Beside, Fits;
    var blocks' := blocks[ib := d];
    forall j: nat | InumOk(g, j) && j != i ensures ReadInode(g, blocks', j) == ReadInode(g, blocks, j) {
      if InodeBlock(g, j) == ib {
        SameInode(i, j);
        UnpackSame(blocks[ib], d, s, j % IPB);
      }
    }
  }

  lemma SameInode(i: nat, j: nat)
    ensures i / IPB == j / IPB && i % IPB == j % IPB ==> i == j
  {}

  // ---- the table and the rest of the disk ----

  lemma TableSlots(g: Geometry, blocks: Blocks, blocks': Blocks, inodes: Inodes, owner: Owners, i: nat, k: nat)
    requires Owned(g, blocks, inodes, owner, {}) && BlocksOk(g, blocks') && OnlyTable(g, blocks, blocks')
    requires i in inodes && k < SLOTS
    ensures Slot(blocks', inodes[i], k) == Slot(blocks, inodes[i], k)
  {
    var ind := inodes[i].addrs[NDIRECT];
    assert SlotOwned(blocks, inodes, owner, i, NDIRECT);
    if ind != 0 { assert OwnerOk(g, blocks, inodes, owner, ind); }
  }

  lemma TableOwned(g: Geometry, blocks: Blocks, blocks': Blocks, inodes: Inodes, owner: Owners)
    requires Owned(g, blocks, inodes, owner, {}) && BlocksOk(g, blocks') && OnlyTable(g, blocks, blocks')
    ensures Owned(g, blocks', inodes, owner, {})
  {
    hide Slot;
    forall i, k: nat | i in inodes && k < SLOTS ensures SlotOwned(blocks', inodes, owner, i, k) {
      TableSlots(g, blocks, blocks', inodes, owner, i, k);
      assert SlotOwned(blocks, inodes, owner, i, k);
    }
    forall b | b in owner ensures OwnerOk(g, blocks', inodes, owner, b) {
      assert OwnerOk(g, blocks, inodes, owner, b);
      TableSlots(g, blocks, blocks', inodes, owner, owner[b].inum, owner[b].slot);
    }
    forall b: nat | b < g.size ensures BitOk(g, blocks', owner, {}, b) {
      BitPlace(g, b);
      assert BitOk(g, blocks, owner, {}, b) && blocks'[BitBlock(g, b)] == blocks[BitBlock(g, b)];
    }
  }

  lemma TableContent(g: Geometry, blocks: Blocks, blocks': Blocks, inodes: Inodes, owner: Owners, a: nat)
    requires Owned(g, blocks, inodes, owner, {}) && BlocksOk(g, blocks') && OnlyTable(g, blocks, blocks')
    requires a in inodes && Full(blocks, inodes[a])
    ensures Full(blocks', inodes[a]) && Content(blocks', inodes[a]) == Content(blocks, inodes[a])
  {
    hide Slot;
    forall o: nat | o < inodes[a].size ensures ByteAt(blocks', inodes[a], o) == ByteAt(blocks, inodes[a], o) {
      var k := DataSlot(o / BSIZE);
      TableSlots(g, blocks, blocks', inodes, owner, a, k);
      assert SlotOwned(blocks, inodes, owner, a, k);
      var b := Slot(blocks, inodes[a], k);
      if b != 0 { assert OwnerOk(g, blocks, inodes, owner, b); }
    }
    forall n: nat | n * BSIZE < inodes[a].size ensures Slot(blocks', inodes[a], DataSlot(n)) != 0 {
      TableSlots(g, blocks, blocks', inodes, owner, a, DataSlot(n));
    }
  }

  lemma TableFiles(g: Geometry, blocks: Blocks, blocks': Blocks, inodes: Inodes, owner: Owners)
    requires Owned(g, blocks, inodes, owner, {}) && BlocksOk(g, blocks') && OnlyTable(g, blocks, blocks')
    requires AllFull(blocks, inodes)
    ensures AllFull(blocks', inodes) && FilesOf(blocks', inodes) == FilesOf(blocks, inodes)
  {
    hide Full, Content, Owned;
    forall a | a in inodes ensures Full(blocks', inodes[a]) && SizeOk(inodes[a]) && Content(blocks', inodes[a]) == Content(blocks, inodes[a]) {
      assert Full(blocks, inodes[a]);
      TableContent(g, blocks, blocks', inodes, owner, a);
      FullSize(blocks, inodes[a]);
    }
  }

  lemma FullSize(blocks: Blocks, ino: Inode)
    requires Full(blocks, ino)
    ensures SizeOk(ino)
  {}

  /** Inodes of the file system fit into their fields. */
  lemma OwnedFits(g: Geometry, blocks: Blocks, inodes: Inodes, owner: Owners, i: nat)
    requires Owned(g, blocks, inodes, owner, {}) && i in inodes && inodes[i].size <= MAXBYTES
    ensures Fits(inodes[i])
  {
    forall k | 0 <= k <= NDIRECT ensures inodes[i].addrs[k] < TWO32 {
      assert SlotOwned(blocks, inodes, owner, i, k);
      var b := Slot(blocks, inodes[i], k);
      if b != 0 { assert OwnerOk(g, blocks, inodes, owner, b); }
    }
  }

  /** A zeroed table holds empty inodes. */
  lemma EmptyStored(g: Geometry, blocks: Blocks, i: nat)
    requires BlocksOk(g, blocks) && InumOk(g, i) && blocks[InodeBlock(g, i)] == ZeroBlock()
    ensures ReadInode(g, blocks, i) == Emptied(Meta(0, 0, 0, 0))
  {
    var s := i % IPB;
    forall k: nat | k <= NDIRECT ensures Addrs(ZeroBlock(), s)[k] == 0 {
      assert Word(ZeroBlock(), HeadWord(s) + 3 + k) == 0;
    }
    assert Addrs(ZeroBlock(), s) == Emptied(Meta(0, 0, 0, 0)).addrs;
  }
}
