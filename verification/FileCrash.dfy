/** A file write over the log: what a crash leaves of it (kernel/file/file.c, kernel/log.c). */
module FileCrash {
  import opened SetSizes
  import opened DiskBlocks
  import opened LogRecovery
  import RedoLog
  import opened FsBytes
  import opened FsBitmap
  import opened FsInodes
  import opened FsContents
  import opened FsTable
  import opened FileSystem
  import opened FileIo

  /** The log lies before the inode table. */
  ghost predicate LayoutOk(l: Layout, g: Geometry) {
    l.start + l.size <= g.inodestart
  }

  /** The inodes as the table of an image has them. */
  ghost function Table(g: Geometry, image: Blocks, inums: set<nat>): Inodes
    requires BlocksOk(g, image) && forall i :: i in inums ==> InumOk(g, i)
  {
    map i | i in inums :: ReadInode(g, image, i)
  }

  /** Read from the disk, with nothing in memory, the files are these, whatever the blocks of the
      log hold. */
  ghost predicate Shows(l: Layout, g: Geometry, disk: Disk, inums: set<nat>, files: map<nat, seq<nat>>) {
    && (forall i :: i in inums ==> InumOk(g, i))
    && (exists image: Blocks :: BlocksOk(g, image) && HomeEq(l, image, disk))
    && forall image: Blocks :: BlocksOk(g, image) && HomeEq(l, image, disk) ==>
         AllFull(image, Table(g, image, inums)) && FilesOf(image, Table(g, image, inums)) == files
  }

  lemma ShowsFiles(l: Layout, g: Geometry, disk: Disk, blocks: Blocks, inodes: Inodes, owner: Owners)
    requires LayoutOk(l, g) && Owned(g, blocks, inodes, owner, {}) && AllFull(blocks, inodes) && Stored(g, blocks, inodes)
    requires HomeEq(l, disk, blocks)
    ensures Shows(l, g, disk, inodes.Keys, FilesOf(blocks, inodes))
  {
    hide FilesOf, AllFull, ReadInode;
    RedoLog.HomeSym(l, disk, blocks);
    assert BlocksOk(g, blocks) && HomeEq(l, blocks, disk);
    forall image: Blocks | BlocksOk(g, image) && HomeEq(l, image, disk)
      ensures AllFull(image, Table(g, image, inodes.Keys))
      ensures FilesOf(image, Table(g, image, inodes.Keys)) == FilesOf(blocks, inodes)
    {
      HomeTrans(l, image, disk, blocks);
      assert SameTable(g, blocks, image) && OnlyTable(g, blocks, image);
      StoredSame(g, blocks, image, inodes);
      assert Table(g, image, inodes.Keys) == inodes;
      TableFiles(g, blocks, image, inodes, owner);
    }
  }

  /** The blocks of a transaction, one after the other. */
  lemma Listing(s: set<nat>) returns (lh: seq<nat>)
    ensures Distinct(lh) && |lh| == |s| && forall b :: b in lh <==> b in s
    decreases s
  {
    if s == {} {
      lh := [];
    } else {
      var b :| b in s;
      var rest := Listing(s - {b});
      AddOne(s - {b}, b);
      assert s == (s - {b}) + {b};
      lh := rest + [b];
    }
  }

  /** What the buffer cache holds during the transaction: the new blocks, and the log as it is. */
  ghost function View(l: Layout, disk: Disk, blocks: Blocks): (v: Disk)
    requires |blocks| == |disk|
    ensures |v| == |disk| && forall c: nat :: c < |v| ==> v[c] == if InLog(l, c) then disk[c] else blocks[c]
  {
    seq(|disk|, c requires 0 <= c < |disk| => if InLog(l, c) then disk[c] else blocks[c])
  }

  /** The disk after the first `at` block writes of the commit. */
  ghost function CutOff(l: Layout, disk: Disk, view: Disk, lh: seq<nat>, at: nat): (d: Disk)
    requires Recoverable(l, disk) && Loggable(l, disk, lh) && |view| == |disk|
  {
    CommitInRange(l, disk, disk[l.start], lh, RedoLog.Contents(view, lh));
    var ws := CommitWrites(l, disk[l.start], lh, RedoLog.Contents(view, lh));
    Apply(disk, if at < |ws| then ws[..at] else ws)
  }

  lemma CutOffHome(l: Layout, disk: Disk, view: Disk, lh: seq<nat>, at: nat)
    requires Recoverable(l, disk) && ReadHead(disk[l.start]) == [] && Loggable(l, disk, lh) && |view| == |disk|
    requires forall b: nat :: b < |disk| && view[b] != disk[b] ==> b in lh
    ensures var d := CutOff(l, disk, view, lh, at);
      Recoverable(l, d) && HomeEq(l, Recover(l, d), if at <= |lh| then disk else view)
  {
    hide Recover, Apply, HomeEq, CommitWrites, RedoLog.CrashPoint, HeadBlock;
    RedoLog.CommitOutcome(l, view, disk, lh);
    var data := RedoLog.Contents(view, lh);
    CommitParts(l, disk[l.start], lh, data, 0);
    var ws := CommitWrites(l, disk[l.start], lh, data);
    var n := if at < |ws| then at else |ws|;
    assert (if at < |ws| then ws[..at] else ws) == ws[..n];
    PointHome(l, disk, ws[..n], if n <= |lh| then disk else Apply(disk, ws));
    if n > |lh| { HomeTrans(l, Recover(l, Apply(disk, ws[..n])), Apply(disk, ws), view); }
  }

  lemma PointHome(l: Layout, disk: Disk, done: seq<Write>, outcome: Disk)
    requires RedoLog.CrashPoint(l, disk, done, outcome)
    ensures (forall w :: w in done ==> w.block < |disk|) && Recoverable(l, Apply(disk, done))
    ensures HomeEq(l, Recover(l, Apply(disk, done)), outcome)
  {}

  /** Any transaction, of one operation or of several, that takes a file system from one consistent state to another, with every
      block it changed in the log, is atomic: after a crash at any block write of its commit and
      recovery, the files on disk are the old ones or the new ones. */
  lemma TransactionCrash(l: Layout, g: Geometry, disk: Disk, b0: Blocks, i0: Inodes, o0: Owners,
                         b1: Blocks, i1: Inodes, o1: Owners, logged: set<nat>) returns (lh: seq<nat>)
    requires LayoutOk(l, g) && Recoverable(l, disk) && ReadHead(disk[l.start]) == [] && HomeEq(l, disk, b0)
    requires Owned(g, b0, i0, o0, {}) && AllFull(b0, i0) && Stored(g, b0, i0)
    requires Owned(g, b1, i1, o1, {}) && AllFull(b1, i1) && Stored(g, b1, i1)
    requires Covered(b0, {}, b1, logged) && LogRange(g, logged)
    requires |logged| <= LOGSIZE && |logged| < l.size
    ensures Loggable(l, disk, lh) && |lh| == |logged| && (forall b :: b in lh <==> b in logged) && |b1| == |disk|
    ensures forall at: nat :: var d := CutOff(l, disk, View(l, disk, b1), lh, at);
      && Recoverable(l, d)
      && if at <= |lh| then Shows(l, g, Recover(l, d), i0.Keys, FilesOf(b0, i0))
         else Shows(l, g, Recover(l, d), i1.Keys, FilesOf(b1, i1))
  {
    lh := Listing(logged);
    var view := View(l, disk, b1);
    assert Loggable(l, disk, lh) by { forall k | 0 <= k < |lh| ensures lh[k] < |disk| && !InLog(l, lh[k]) { assert lh[k] in lh; } }
    assert forall b: nat :: b < |disk| && view[b] != disk[b] ==> b in lh;
    assert HomeEq(l, view, b1);
    hide Owned, AllFull, Stored, FilesOf, Recover, HomeEq, Shows, CutOff, Recoverable, ReadHead, Covered;
    forall at: nat ensures var d := CutOff(l, disk, view, lh, at);
      && Recoverable(l, d)
      && if at <= |lh| then Shows(l, g, Recover(l, d), i0.Keys, FilesOf(b0, i0))
         else Shows(l, g, Recover(l, d), i1.Keys, FilesOf(b1, i1))
    {
      CutOffHome(l, disk, view, lh, at);
      var r := Recover(l, CutOff(l, disk, view, lh, at));
      if at <= |lh| {
        HomeTrans(l, r, disk, b0);
        ShowsFiles(l, g, r, b0, i0, o0);
      } else {
        HomeTrans(l, r, view, b1);
        ShowsFiles(l, g, r, b1, i1, o1);
      }
    }
  }

  /** One chunk of filewrite in one transaction: a crash after any number of the block writes of its
      commit leaves, once the log is recovered, the files without the chunk or with all of what
      writei wrote of it, and the second exactly when the header had been written. */
  method ChunkCrash(fs: FileSystem, l: Layout, disk: Disk, i: nat, src: seq<nat>, readable: nat, start: nat, index: nat,
                    ghost f0: map<nat, seq<nat>>)
    returns (count: int, ghost lh: seq<nat>)
    requires fs.Valid() && i in fs.inodes && i in f0 && index < |src| && start + index < TWO32 && |src| < TWO32
    requires start > |f0[i]| ==> index == 0 && fs.Files() == f0
    requires start <= |f0[i]| ==> fs.Files() == f0[i := Splice(f0[i], start, src[..index])]
    requires LayoutOk(l, fs.g) && Recoverable(l, disk) && ReadHead(disk[l.start]) == [] && HomeEq(l, disk, fs.blocks)
    requires MAXOPBLOCKS < l.size
    modifies fs
    ensures fs.Valid() && -1 <= count <= Min(|src| - index, CHUNK) <= |src| - index
    ensures start <= |f0[i]| ==>
      fs.Files() == f0[i := Splice(f0[i], start, src[..index + if count < 0 then 0 else count])]
    ensures Loggable(l, disk, lh) && |lh| <= MAXOPBLOCKS && |fs.blocks| == |disk|
    ensures forall at: nat :: var d := CutOff(l, disk, View(l, disk, fs.blocks), lh, at);
      && Recoverable(l, d)
      && Shows(l, fs.g, Recover(l, d), old(fs.inodes.Keys), if at <= |lh| then old(fs.Files()) else fs.Files())
  {
    hide Owned, AllFull, Stored, Splice, FilesOf, Covered, LogRange, Recover, HomeEq, Shows, CutOff, Used, Recoverable, ReadHead;
    ghost var b0, i0, o0 := fs.blocks, fs.inodes, fs.owner;
    var remaining;
    count, remaining := WriteChunk(fs, i, src, readable, start, index, f0);
    lh := TransactionCrash(l, fs.g, disk, b0, i0, o0, fs.blocks, fs.inodes, fs.owner, fs.logged);
  }
}
