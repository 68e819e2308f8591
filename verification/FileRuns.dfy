/** The file system over the log: its transactions as a run of the log, and what a crash at any
    block write of the run leaves of the files (kernel/file/file.c, kernel/file/fs.c, kernel/log.c). */
module FileRuns {
  import opened DiskBlocks
  import opened LogRecovery
  import LogCalls
  import LogTransactions
  import opened FsBytes
  import opened FsBitmap
  import opened FsInodes
  import opened FsContents
  import opened FsTable
  import opened FileSystem
  import opened FileIo
  import opened FileCrash

  /** The home blocks of the plain store that is written back at each commit are those of the
      images, one after the other. */
  ghost predicate Follows(l: Layout, snaps: seq<Disk>, images: seq<Image>) {
    |snaps| == |images| && forall k :: 0 <= k < |images| ==> HomeEq(l, snaps[k], images[k].blocks)
  }

  /** Block by block, the transaction takes the store from one image to the next. */
  lemma UpdatedHome(l: Layout, g: Geometry, store: Disk, a: Image, b: Image, logged: set<nat>, lh: seq<nat>)
    requires HomeEq(l, store, a.blocks) && Transaction(g, a, b, logged) && forall c :: c in lh <==> c in logged
    ensures HomeEq(l, LogTransactions.Updated(store, lh, b.blocks), b.blocks)
  {
    hide LogTransactions.Updated, LogRange;
    var d := LogTransactions.Updated(store, lh, b.blocks);
    forall c: nat | c < |d| && !InLog(l, c) ensures d[c] == b.blocks[c] {
      LogTransactions.UpdatedAt(store, lh, b.blocks, c);
    }
  }

  /** The listed blocks of a transaction can be logged. */
  lemma Loggables(l: Layout, g: Geometry, size: nat, im: Image, logged: set<nat>) returns (lh: seq<nat>)
    requires LayoutOk(l, g) && LogRange(g, logged) && Consistent(g, im) && |im.blocks| == size
    ensures Distinct(lh) && |lh| == |logged| && (forall b :: b in lh <==> b in logged)
    ensures forall b :: b in lh ==> b < size && !InLog(l, b)
  {
    lh := Listing(logged);
  }

  /** Any history of transactions, each within its quota, is a run of the log, and the store that
      each commit makes durable is the next image. */
  lemma {:induction false} HistoryRuns(l: Layout, g: Geometry, disk: Disk, images: seq<Image>, logs: seq<set<nat>>)
    returns (calls: seq<LogCalls.Call>)
    requires History(g, images, logs) && WithinQuota(logs) && LayoutOk(l, g) && MAXOPBLOCKS < l.size
    requires Recoverable(l, disk) && HomeEq(l, Recover(l, disk), images[0].blocks)
    ensures var s := LogCalls.Runs(l, disk, calls);
      && LogTransactions.Idle(s)
      && Follows(l, LogCalls.Snapshots(Recover(l, disk), s.trace), images)
      && HomeEq(l, LogCalls.Replay(Recover(l, disk), s.trace), images[|logs|].blocks)
    decreases |logs|
  {
    hide Recover, HomeEq, Recoverable, Consistent, Transaction, LogCalls.After, LogCalls.Replay, LogCalls.Snapshots,
         LogTransactions.Updated, LogTransactions.Script;
    if logs == [] {
      calls := [];
      AtBoot(l, disk);
    } else {
      var n := |logs| - 1;
      assert Transaction(g, images[n], images[n + 1], logs[n]);
      var before := HistoryRuns(l, g, disk, images[..n + 1], logs[..n]);
      calls := NextRuns(l, g, disk, before, images[n], images[n + 1], logs[n]);
      assert images == images[..n + 1] + [images[n + 1]];
    }
  }

  lemma AtBoot(l: Layout, disk: Disk)
    requires Recoverable(l, disk)
    ensures var s := LogCalls.Runs(l, disk, []); var home := Recover(l, disk);
      LogTransactions.Idle(s) && LogCalls.Replay(home, s.trace) == home && LogCalls.Snapshots(home, s.trace) == [home]
  {
    hide Recover, RecoverWrites, Recoverable;
  }

  lemma NextRuns(l: Layout, g: Geometry, disk: Disk, before: seq<LogCalls.Call>, a: Image, b: Image, logged: set<nat>)
    returns (calls: seq<LogCalls.Call>)
    requires LayoutOk(l, g) && MAXOPBLOCKS < l.size && Recoverable(l, disk)
    requires Consistent(g, a) && Transaction(g, a, b, logged) && |logged| <= MAXOPBLOCKS
    requires LogTransactions.Idle(LogCalls.Runs(l, disk, before))
    requires HomeEq(l, LogCalls.Replay(Recover(l, disk), LogCalls.Runs(l, disk, before).trace), a.blocks)
    ensures var s, t := LogCalls.Runs(l, disk, before), LogCalls.Runs(l, disk, calls);
      var store := LogCalls.Replay(Recover(l, disk), t.trace);
      && LogTransactions.Idle(t) && HomeEq(l, store, b.blocks)
      && LogCalls.Snapshots(Recover(l, disk), t.trace) == LogCalls.Snapshots(Recover(l, disk), s.trace) + [store]
  {
    hide Recover, Recoverable, Consistent, LogRange, LogCalls.After, LogCalls.Replay, LogCalls.Snapshots, LogCalls.Boot,
         LogTransactions.Updated, LogTransactions.Script, Covered;
    var home := Recover(l, disk);
    var s := LogCalls.Runs(l, disk, before);
    var store := LogCalls.Replay(home, s.trace);
    var lh := Loggables(l, g, |home|, a, logged);
    calls := before + LogTransactions.Script(lh, b.blocks);
    LogCalls.AfterBoth(l, home, LogCalls.Boot(l, disk), before, LogTransactions.Script(lh, b.blocks));
    LogTransactions.ScriptRuns(l, home, s, lh, b.blocks);
    UpdatedHome(l, g, store, a, b, logged, lh);
  }

  /** The image that a crash falls back to. */
  ghost predicate Survives(l: Layout, g: Geometry, disk: Disk, calls: seq<LogCalls.Call>, images: seq<Image>)
    requires Recoverable(l, disk)
  {
    var s := LogCalls.Runs(l, disk, calls);
    && |s.points| == |images| > 0
    && forall j: nat :: j <= |s.ws| ==> Leaves(l, g, disk, s.ws[..j], images[LogCalls.Latest(s.points, j)])
  }

  ghost predicate Leaves(l: Layout, g: Geometry, disk: Disk, done: seq<Write>, im: Image) {
    && (forall w :: w in done ==> w.block < |disk|) && AllFull(im.blocks, im.inodes)
    && Recoverable(l, Apply(disk, done))
    && Shows(l, g, Recover(l, Apply(disk, done)), im.inodes.Keys, FilesOf(im.blocks, im.inodes))
  }

  lemma PointLeaves(l: Layout, g: Geometry, disk: Disk, done: seq<Write>, snap: Disk, im: Image)
    requires LayoutOk(l, g) && RedoLog.CrashPoint(l, disk, done, snap) && HomeEq(l, snap, im.blocks) && Consistent(g, im)
    ensures Leaves(l, g, disk, done, im)
  {
    hide Owned, AllFull, Stored, FilesOf, Recover, HomeEq, Shows, Apply, Recoverable;
    PointHome(l, disk, done, snap);
    HomeTrans(l, Recover(l, Apply(disk, done)), snap, im.blocks);
    ShowsFiles(l, g, Recover(l, Apply(disk, done)), im.blocks, im.inodes, im.owner);
  }

  /** A crash after any block write since boot leaves the files of one of the images: of the last
      one whose transaction had its header written. */
  lemma HistoryCrash(l: Layout, g: Geometry, disk: Disk, images: seq<Image>, logs: seq<set<nat>>)
    returns (calls: seq<LogCalls.Call>)
    requires History(g, images, logs) && WithinQuota(logs) && LayoutOk(l, g) && MAXOPBLOCKS < l.size
    requires Recoverable(l, disk) && HomeEq(l, Recover(l, disk), images[0].blocks)
    ensures Survives(l, g, disk, calls, images)
    ensures HomeEq(l, LogCalls.Replay(Recover(l, disk), LogCalls.Runs(l, disk, calls).trace), images[|logs|].blocks)
  {
    hide Recover, HomeEq, Recoverable, Consistent, Transaction, Leaves, LogCalls.Runs, LogCalls.Snapshots, LogCalls.Latest,
         RedoLog.CrashPoint;
    calls := HistoryRuns(l, g, disk, images, logs);
    LogCalls.RunDurable(l, disk, calls);
    var s := LogCalls.Runs(l, disk, calls);
    var snaps := LogCalls.Snapshots(Recover(l, disk), s.trace);
    forall j: nat | j <= |s.ws| ensures Leaves(l, g, disk, s.ws[..j], images[LogCalls.Latest(s.points, j)]) {
      var k := LogCalls.Latest(s.points, j);
      PointLeaves(l, g, disk, s.ws[..j], snaps[k], images[k]);
    }
  }

  /** filewrite over the log: after a crash at any block write of the whole call, and recovery, the
      file holds a whole number of its chunks, of the last one as much as was written. */
  method WriteCrash(fs: FileSystem, l: Layout, disk: Disk, i: nat, src: seq<nat>, readable: nat, start: nat)
    returns (r: int, off: nat, ghost images: seq<Image>, ghost calls: seq<LogCalls.Call>)
    requires fs.Valid() && i in fs.inodes && start < TWO32 && |src| < 0x8000_0000
    requires LayoutOk(l, fs.g) && MAXOPBLOCKS < l.size && Recoverable(l, disk) && HomeEq(l, Recover(l, disk), fs.blocks)
    modifies fs
    ensures fs.Valid() && start <= off <= start + |src| && r == if off == start + |src| then |src| else -1
    ensures Survives(l, fs.g, disk, calls, images) && Chunks(images, old(fs.Files()), i, start, src, off - start)
    ensures HomeEq(l, LogCalls.Replay(Recover(l, disk), LogCalls.Runs(l, disk, calls).trace), fs.blocks)
  {
    hide Owned, AllFull, Stored, Splice, Used, FilesOf, History, Chunks, Recover, Recoverable, HomeEq, Survives, LogCalls.Runs,
         LogCalls.Replay, WithinQuota;
    ghost var logs;
    r, off, images, logs := FileWrite(fs, i, src, readable, start);
    calls := HistoryCrash(l, fs.g, disk, images, logs);
  }

  /** itrunc over the log, on a disk whose bitmap leaves room in an operation: a crash at any block
      write leaves the file whole or empty, and every other file as it was. */
  method TruncateCrash(fs: FileSystem, l: Layout, disk: Disk, i: nat)
    returns (ghost images: seq<Image>, ghost calls: seq<LogCalls.Call>)
    requires fs.Valid() && i in fs.inodes && BitmapBlocks(fs.g) < MAXOPBLOCKS
    requires LayoutOk(l, fs.g) && MAXOPBLOCKS < l.size && Recoverable(l, disk) && HomeEq(l, Recover(l, disk), fs.blocks)
    modifies fs
    ensures fs.Valid() && fs.Files() == old(fs.Files())[i := []]
    ensures images == [old(fs.Now()), fs.Now()] && Survives(l, fs.g, disk, calls, images)
    ensures HomeEq(l, LogCalls.Replay(Recover(l, disk), LogCalls.Runs(l, disk, calls).trace), fs.blocks)
  {
    hide Owned, AllFull, Stored, Used, FilesOf, Recover, Recoverable, HomeEq, Survives, LogCalls.Runs, LogCalls.Replay;
    ghost var before := fs.Now();
    fs.logged := {};
    fs.Itrunc(i);
    assert fs.logged - {} == fs.logged;
    images := [before, fs.Now()];
    calls := HistoryCrash(l, fs.g, disk, images, [fs.logged]);
  }
}
