/** Which inode owns which block (kernel/file/fs.c, bmap and itrunc). */
module FsInodes {
  import opened FsBytes
  import opened FsBitmap

  const NDIRECT: nat := 12
  const NINDIRECT: nat := 256
  const MAXFILE: nat := NDIRECT + NINDIRECT

  /** The places of an inode that hold a block number: the direct ones, the one of the indirect
      block, and those in the indirect block. */
  const SLOTS: nat := NDIRECT + 1 + NINDIRECT

  /** A field of 16 bits. */
  type Half = x: nat | x < 0x1_0000

  /** What kind of file it is and how many directory entries name it. */
  datatype Meta = Meta(kind: Half, major: Half, minor: Half, nlink: Half)

  datatype Inode = Inode(addrs: seq<nat>, size: nat, meta: Meta)

  type Inodes = map<nat, Inode>

  predicate InodeOk(ino: Inode) {
    |ino.addrs| == NDIRECT + 1
  }

  function Slot(blocks: Blocks, ino: Inode, k: nat): nat
    requires InodeOk(ino) && k < SLOTS
  {
    if k <= NDIRECT then ino.addrs[k]
    else
      var ind := ino.addrs[NDIRECT];
      if ind == 0 || ind >= |blocks| || !IsBlock(blocks[ind]) then 0 else Word(blocks[ind], k - NDIRECT - 1)
  }

  /** The slot of the n-th block of a file. */
  function DataSlot(n: nat): (k: nat)
    requires n < MAXFILE
    ensures k < SLOTS && k != NDIRECT
  {
    if n < NDIRECT then n else n + 1
  }

  // ---- ownership ----

  datatype Owner = Owner(inum: nat, slot: nat)

  type Owners = map<nat, Owner>

  ghost predicate SlotOwned(blocks: Blocks, inodes: Inodes, owner: Owners, i: nat, k: nat)
    requires i in inodes && InodeOk(inodes[i]) && k < SLOTS
  {
    var b := Slot(blocks, inodes[i], k);
    b != 0 ==> b in owner && owner[b] == Owner(i, k)
  }

  ghost predicate OwnerOk(g: Geometry, blocks: Blocks, inodes: Inodes, owner: Owners, b: nat)
    requires b in owner
  {
    && g.datastart <= b < g.size
    && owner[b].inum in inodes && InodeOk(inodes[owner[b].inum]) && owner[b].slot < SLOTS
    && Slot(blocks, inodes[owner[b].inum], owner[b].slot) == b
  }

  ghost predicate BitOk(g: Geometry, blocks: Blocks, owner: Owners, loose: set<nat>, b: nat)
    requires BlocksOk(g, blocks) && b < g.size
  {
    Used(g, blocks, b) <==> b < g.datastart || b in owner || b in loose
  }

  ghost predicate InodesOk(inodes: Inodes) {
    forall i :: i in inodes ==> InodeOk(inodes[i])
  }

  /** Every block number in an inode or in its indirect block is a data block with one owner, and
      the bitmap marks these, the blocks before the data and the loose ones, which balloc has just
      given out, and no others. */
  ghost predicate Owned(g: Geometry, blocks: Blocks, inodes: Inodes, owner: Owners, loose: set<nat>) {
    && BlocksOk(g, blocks) && InodesOk(inodes)
    && (forall i, k: nat :: i in inodes && k < SLOTS ==> SlotOwned(blocks, inodes, owner, i, k))
    && (forall b :: b in owner ==> OwnerOk(g, blocks, inodes, owner, b))
    && (forall b: nat :: b < g.size ==> BitOk(g, blocks, owner, loose, b))
    && (forall b :: b in loose ==> g.datastart <= b < g.size && b !in owner)
  }

  ghost predicate SameSlots(blocks: Blocks, blocks': Blocks, inodes: Inodes)
    requires InodesOk(inodes)
  {
    forall i, k: nat :: i in inodes && k < SLOTS ==> Slot(blocks', inodes[i], k) == Slot(blocks, inodes[i], k)
  }

  /** Blocks that nobody owns hold no block numbers. */
  lemma SlotsKept(g: Geometry, blocks: Blocks, inodes: Inodes, owner: Owners, loose: set<nat>, blocks': Blocks)
    requires Owned(g, blocks, inodes, owner, loose) && |blocks'| == |blocks|
    requires forall b :: b in owner && b < |blocks| ==> blocks'[b] == blocks[b]
    ensures SameSlots(blocks, blocks', inodes)
  {
    forall i, k: nat | i in inodes && k < SLOTS ensures Slot(blocks', inodes[i], k) == Slot(blocks, inodes[i], k) {
      assert SlotOwned(blocks, inodes, owner, i, NDIRECT);
    }
  }

  lemma OwnedKept(g: Geometry, blocks: Blocks, inodes: Inodes, owner: Owners, loose: set<nat>, blocks': Blocks, loose': set<nat>)
    requires Owned(g, blocks, inodes, owner, loose) && BlocksOk(g, blocks') && SameSlots(blocks, blocks', inodes)
    requires forall b: nat :: b < g.size ==> BitOk(g, blocks', owner, loose', b)
    requires forall b :: b in loose' ==> g.datastart <= b < g.size && b !in owner
    ensures Owned(g, blocks', inodes, owner, loose')
  {
    forall i, k: nat | i in inodes && k < SLOTS ensures SlotOwned(blocks', inodes, owner, i, k) {
      assert SlotOwned(blocks, inodes, owner, i, k);
    }
    forall b | b in owner ensures OwnerOk(g, blocks', inodes, owner, b) {
      assert OwnerOk(g, blocks, inodes, owner, b);
    }
  }

  /** balloc: a free block, marked and zeroed. */
  function Allocated(g: Geometry, blocks: Blocks, b: nat): Blocks
    requires BlocksOk(g, blocks) && b < g.size
  {
    Mark(g, blocks, b, true)[b := ZeroBlock()]
  }

  lemma Allocate(g: Geometry, blocks: Blocks, inodes: Inodes, owner: Owners, loose: set<nat>, b: nat)
    requires Owned(g, blocks, inodes, owner, loose) && b < g.size && !Used(g, blocks, b)
    ensures g.datastart <= b && b !in owner && b !in loose
    ensures Owned(g, Allocated(g, blocks, b), inodes, owner, loose + {b})
    ensures SameSlots(blocks, Allocated(g, blocks, b), inodes)
    ensures forall c: nat :: c < g.size && g.datastart <= c && c != b ==> Allocated(g, blocks, b)[c] == blocks[c]
  {
    var marked, blocks' := Mark(g, blocks, b, true), Allocated(g, blocks, b);
    UsedAfter(g, blocks, b, true, b);
    assert BitOk(g, blocks, owner, loose, b);
    BitPlace(g, b);
    forall c: nat | c < g.size ensures BitOk(g, blocks', owner, loose + {b}, c) {
      UsedAfter(g, blocks, b, true, c);
      BitPlace(g, c);
      assert BitOk(g, blocks, owner, loose, c);
    }
    forall c | c in owner ensures g.datastart <= c { assert OwnerOk(g, blocks, inodes, owner, c); }
    SlotsKept(g, blocks, inodes, owner, loose, blocks');
    OwnedKept(g, blocks, inodes, owner, loose, blocks', loose + {b});
  }

  function WithAddr(ino: Inode, k: nat, b: nat): Inode
    requires InodeOk(ino) && k <= NDIRECT
  {
    var addrs: seq<nat> := ino.addrs[k := b];
    ino.(addrs := addrs)
  }

  /** A loose block put in an empty place of the inode itself. */
  lemma AssignDirect(g: Geometry, blocks: Blocks, inodes: Inodes, owner: Owners, loose: set<nat>, i: nat, k: nat, b: nat)
    requires Owned(g, blocks, inodes, owner, loose) && i in inodes && k <= NDIRECT && b in loose
    requires inodes[i].addrs[k] == 0 && (k == NDIRECT ==> blocks[b] == ZeroBlock())
    ensures Owned(g, blocks, inodes[i := WithAddr(inodes[i], k, b)], owner[b := Owner(i, k)], loose - {b})
    ensures forall l: nat :: l < SLOTS ==>
      Slot(blocks, WithAddr(inodes[i], k, b), l) == if l == k then b else Slot(blocks, inodes[i], l)
  {
    var ino' := WithAddr(inodes[i], k, b);
    var inodes', owner' := inodes[i := ino'], owner[b := Owner(i, k)];
    forall l: nat | l < SLOTS ensures Slot(blocks, ino', l) == if l == k then b else Slot(blocks, inodes[i], l) {}
    forall j, l: nat | j in inodes' && l < SLOTS ensures SlotOwned(blocks, inodes', owner', j, l) {
      assert SlotOwned(blocks, inodes, owner, j, l);
    }
    forall c | c in owner' ensures OwnerOk(g, blocks, inodes', owner', c) {
      if c != b { assert OwnerOk(g, blocks, inodes, owner, c); }
    }
    forall c: nat | c < g.size ensures BitOk(g, blocks, owner', loose - {b}, c) {
      assert BitOk(g, blocks, owner, loose, c);
    }
  }

  function WithWord(blocks: Blocks, ind: nat, j: nat, b: nat): Blocks
    requires ind < |blocks| && IsBlock(blocks[ind]) && j < NINDIRECT
  {
    blocks[ind := PutWord(blocks[ind], j, b)]
  }

  /** A loose block put in an empty place of the indirect block. */
  lemma AssignIndirect(g: Geometry, blocks: Blocks, inodes: Inodes, owner: Owners, loose: set<nat>, i: nat, j: nat, b: nat)
    requires Owned(g, blocks, inodes, owner, loose) && i in inodes && j < NINDIRECT && b in loose
    requires inodes[i].addrs[NDIRECT] != 0 && Slot(blocks, inodes[i], NDIRECT + 1 + j) == 0
    ensures var ind := inodes[i].addrs[NDIRECT];
      && g.datastart <= ind < |blocks| && IsBlock(blocks[ind])
      && Owned(g, WithWord(blocks, ind, j, b), inodes, owner[b := Owner(i, NDIRECT + 1 + j)], loose - {b})
      && (forall a, l: nat :: a in inodes && l < SLOTS ==>
        Slot(WithWord(blocks, ind, j, b), inodes[a], l)
          == if a == i && l == NDIRECT + 1 + j then b else Slot(blocks, inodes[a], l))
  {
    var ind, k := inodes[i].addrs[NDIRECT], NDIRECT + 1 + j;
    assert SlotOwned(blocks, inodes, owner, i, NDIRECT);
    assert OwnerOk(g, blocks, inodes, owner, ind);
    var blocks', owner' := WithWord(blocks, ind, j, b), owner[b := Owner(i, k)];
    forall a, l: nat | a in inodes && l < SLOTS
      ensures Slot(blocks', inodes[a], l) == if a == i && l == k then b else Slot(blocks, inodes[a], l)
    {
      assert SlotOwned(blocks, inodes, owner, a, NDIRECT);
      if l > NDIRECT { WordPut(blocks[ind], j, b, l - NDIRECT - 1); }
    }
    forall a, l: nat | a in inodes && l < SLOTS ensures SlotOwned(blocks', inodes, owner', a, l) {
      assert SlotOwned(blocks, inodes, owner, a, l);
    }
    forall c | c in owner' ensures OwnerOk(g, blocks', inodes, owner', c) {
      if c != b { assert OwnerOk(g, blocks, inodes, owner, c); }
    }
    forall c: nat | c < g.size ensures BitOk(g, blocks', owner', loose - {b}, c) {
      assert BitOk(g, blocks, owner, loose, c);
      BitPlace(g, c);
    }
  }

  // ---- truncation ----

  ghost function OwnedBy(owner: Owners, i: nat): set<nat> {
    set b | b in owner && owner[b].inum == i
  }

  ghost function Without(owner: Owners, i: nat): Owners {
    map b | b in owner && owner[b].inum != i :: owner[b]
  }

  /** A file without blocks. */
  function Emptied(meta: Meta): (ino: Inode)
    ensures InodeOk(ino) && ino.meta == meta
  {
    Inode(seq(NDIRECT + 1, _ => 0), 0, meta)
  }

  lemma Truncate(g: Geometry, blocks: Blocks, inodes: Inodes, owner: Owners, blocks': Blocks, i: nat)
    requires Owned(g, blocks, inodes, owner, {}) && i in inodes
    requires OnlyFreed(g, blocks, blocks', OwnedBy(owner, i))
    ensures Owned(g, blocks', inodes[i := Emptied(inodes[i].meta)], Without(owner, i), {})
    ensures SameSlots(blocks, blocks', inodes)
  {
    var inodes', owner' := inodes[i := Emptied(inodes[i].meta)], Without(owner, i);
    forall c | c in owner ensures blocks'[c] == blocks[c] { assert OwnerOk(g, blocks, inodes, owner, c); }
    SlotsKept(g, blocks, inodes, owner, {}, blocks');
    forall a, l: nat | a in inodes' && l < SLOTS ensures SlotOwned(blocks', inodes', owner', a, l) {
      if a != i { assert SlotOwned(blocks, inodes, owner, a, l); }
    }
    forall c | c in owner' ensures OwnerOk(g, blocks', inodes', owner', c) {
      assert OwnerOk(g, blocks, inodes, owner, c);
    }
    forall c: nat | c < g.size ensures BitOk(g, blocks', owner', {}, c) {
      assert BitOk(g, blocks, owner, {}, c);
      if c in owner { assert OwnerOk(g, blocks, inodes, owner, c); }
    }
  }

  /** The blocks in a range of an inode's slots. */
  ghost function OwnedIn(owner: Owners, i: nat, lo: nat, hi: nat): set<nat> {
    set b | b in owner && owner[b].inum == i && lo <= owner[b].slot < hi
  }

  lemma OwnedNext(g: Geometry, blocks: Blocks, inodes: Inodes, owner: Owners, i: nat, lo: nat, k: nat)
    requires Owned(g, blocks, inodes, owner, {}) && i in inodes && lo <= k < SLOTS
    ensures var b := Slot(blocks, inodes[i], k);
      && OwnedIn(owner, i, lo, k + 1) == OwnedIn(owner, i, lo, k) + (if b != 0 then {b} else {})
      && (b != 0 ==> b < g.size && b in owner && owner[b] == Owner(i, k) && Used(g, blocks, b))
  {
    var b := Slot(blocks, inodes[i], k);
    assert SlotOwned(blocks, inodes, owner, i, k);
    if b != 0 { assert OwnerOk(g, blocks, inodes, owner, b) && BitOk(g, blocks, owner, {}, b); }
    forall c | c in OwnedIn(owner, i, lo, k + 1) && c !in OwnedIn(owner, i, lo, k) ensures c == b && b != 0 {
      assert OwnerOk(g, blocks, inodes, owner, c);
    }
  }

  lemma OwnedParts(g: Geometry, blocks: Blocks, inodes: Inodes, owner: Owners, i: nat)
    requires Owned(g, blocks, inodes, owner, {}) && i in inodes
    ensures var ind := Slot(blocks, inodes[i], NDIRECT);
      && (ind != 0 ==> OwnedBy(owner, i) == OwnedIn(owner, i, 0, NDIRECT) + OwnedIn(owner, i, NDIRECT + 1, SLOTS) + {ind})
      && (ind == 0 ==> OwnedBy(owner, i) == OwnedIn(owner, i, 0, NDIRECT))
  {
    var ind := Slot(blocks, inodes[i], NDIRECT);
    assert SlotOwned(blocks, inodes, owner, i, NDIRECT);
    forall c | c in OwnedBy(owner, i)
      ensures c in OwnedIn(owner, i, 0, NDIRECT) || (ind != 0 && (c == ind || c in OwnedIn(owner, i, NDIRECT + 1, SLOTS)))
    {
      assert OwnerOk(g, blocks, inodes, owner, c);
    }
  }
}
