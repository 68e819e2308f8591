/** Crash recovery of the redo log (kernel/log.c): what a commit and a recovery write to the
    disk, block by block, and what a crash between any two of those writes leaves behind. */
module LogRecovery {
  import opened DiskBlocks

  /** log.start and log.size: the header block, then the log blocks. */
  datatype Layout = Layout(start: nat, size: nat)

  predicate InLog(g: Layout, b: nat) {
    g.start <= b < g.start + g.size
  }

  predicate Distinct(s: seq<nat>) {
    forall i, j :: 0 <= i < j < |s| ==> s[i] != s[j]
  }

  /** Block numbers that may be logged: distinct home blocks, no more than the log holds. */
  predicate Loggable(g: Layout, disk: Disk, lh: seq<nat>) {
    && |lh| <= LOGSIZE && |lh| < g.size && Distinct(lh)
    && forall i :: 0 <= i < |lh| ==> lh[i] < |disk| && !InLog(g, lh[i])
  }

  /** A disk from which recovery can start. */
  predicate Recoverable(g: Layout, disk: Disk) {
    && 0 < g.size && g.start + g.size <= |disk|
    && HeadOk(disk[g.start]) && Loggable(g, disk, ReadHead(disk[g.start]))
  }

  /** Equal outside the log. */
  ghost predicate HomeEq(g: Layout, d1: Disk, d2: Disk) {
    |d1| == |d2| && forall b: nat :: b < |d1| && !InLog(g, b) ==> d1[b] == d2[b]
  }

  // ---- the writes, in order ----

  /** write_log */
  function LogWrites(g: Layout, data: seq<Data>): seq<Write> {
    seq(|data|, i requires 0 <= i < |data| => Write(g.start + 1 + i, data[i]))
  }

  /** install_trans */
  function InstallWrites(lh: seq<nat>, data: seq<Data>): seq<Write>
    requires |lh| == |data|
  {
    seq(|lh|, i requires 0 <= i < |lh| => Write(lh[i], data[i]))
  }

  /** commit: log blocks, header, home blocks, empty header. */
  function CommitWrites(g: Layout, head: Data, lh: seq<nat>, data: seq<Data>): seq<Write>
    requires |lh| == |data| <= LOGSIZE
  {
    LogWrites(g, data) + [Write(g.start, HeadBlock(head, lh))]
    + InstallWrites(lh, data) + [Write(g.start, HeadBlock(HeadBlock(head, lh), []))]
  }

  function LogBlocks(g: Layout, disk: Disk, n: nat): seq<Data>
    requires g.start + 1 + n <= |disk|
  {
    disk[g.start + 1..g.start + 1 + n]
  }

  /** recover_from_log: home blocks from the log, then an empty header. */
  function RecoverWrites(g: Layout, disk: Disk): seq<Write>
    requires Recoverable(g, disk)
  {
    var lh := ReadHead(disk[g.start]);
    InstallWrites(lh, LogBlocks(g, disk, |lh|)) + [Write(g.start, HeadBlock(disk[g.start], []))]
  }

  /** A transaction applied to the home blocks all at once. */
  function Install(disk: Disk, lh: seq<nat>, data: seq<Data>): (d: Disk)
    requires |lh| == |data| && forall i :: 0 <= i < |lh| ==> lh[i] < |disk|
    ensures |d| == |disk|
  {
    InstallInRange(disk, lh, data);
    Apply(disk, InstallWrites(lh, data))
  }

  lemma InstallInRange(disk: Disk, lh: seq<nat>, data: seq<Data>)
    requires |lh| == |data| && forall i :: 0 <= i < |lh| ==> lh[i] < |disk|
    ensures forall w :: w in InstallWrites(lh, data) ==> w.block < |disk|
  {}

  /** The disk once recovery has completed. */
  function Recover(g: Layout, disk: Disk): (d: Disk)
    requires Recoverable(g, disk)
    ensures |d| == |disk|
  {
    RecoverInRange(g, disk);
    Apply(disk, RecoverWrites(g, disk))
  }

  lemma RecoverInRange(g: Layout, disk: Disk)
    requires Recoverable(g, disk)
    ensures forall w :: w in RecoverWrites(g, disk) ==> w.block < |disk|
  {}

  lemma CommitInRange(g: Layout, disk: Disk, head: Data, lh: seq<nat>, data: seq<Data>)
    requires 0 < g.size && g.start + g.size <= |disk| && Loggable(g, disk, lh) && |lh| == |data|
    ensures forall w :: w in CommitWrites(g, head, lh, data) ==> w.block < |disk|
  {}

  // ---- one block at a time ----

  lemma InstallAt(disk: Disk, lh: seq<nat>, data: seq<Data>, b: nat)
    requires |lh| == |data| && Distinct(lh) && (forall i :: 0 <= i < |lh| ==> lh[i] < |disk|) && b < |disk|
    ensures forall i :: 0 <= i < |lh| && lh[i] == b ==> Install(disk, lh, data)[b] == data[i]
    ensures b !in lh ==> Install(disk, lh, data)[b] == disk[b]
  {
    var ws := InstallWrites(lh, data);
    InstallInRange(disk, lh, data);
    if b !in lh {
      ApplyOther(disk, ws, b);
    } else {
      forall i | 0 <= i < |lh| && lh[i] == b ensures Install(disk, lh, data)[b] == data[i] {
        ApplyAt(disk, ws, i);
      }
    }
  }

  /** What recovery makes of a home block: the logged copy if there is one. */
  lemma RecoverAt(g: Layout, disk: Disk, b: nat)
    requires Recoverable(g, disk) && b < |disk| && !InLog(g, b)
    ensures var lh := ReadHead(disk[g.start]);
      && (forall i :: 0 <= i < |lh| && lh[i] == b ==> Recover(g, disk)[b] == disk[g.start + 1 + i])
      && (b !in lh ==> Recover(g, disk)[b] == disk[b])
  {
    var lh := ReadHead(disk[g.start]);
    var data := LogBlocks(g, disk, |lh|);
    RecoverInRange(g, disk);
    InstallInRange(disk, lh, data);
    ApplyConcat(disk, InstallWrites(lh, data), [Write(g.start, HeadBlock(disk[g.start], []))]);
    InstallAt(disk, lh, data, b);
  }

  lemma RecoverEmpties(g: Layout, disk: Disk)
    requires Recoverable(g, disk)
    ensures Recoverable(g, Recover(g, disk)) && ReadHead(Recover(g, disk)[g.start]) == []
  {
    RecoverInRange(g, disk);
    HeadRoundTrip(disk[g.start], []);
  }

  /** The header on disk lists lh, and the log blocks hold data. */
  ghost predicate Logged(g: Layout, disk: Disk, lh: seq<nat>, data: seq<Data>) {
    && Recoverable(g, disk) && ReadHead(disk[g.start]) == lh && |data| == |lh|
    && forall i :: 0 <= i < |lh| ==> disk[g.start + 1 + i] == data[i]
  }

  /** Recovering a logged transaction installs it. */
  lemma LoggedRecovers(g: Layout, disk: Disk, lh: seq<nat>, data: seq<Data>)
    requires Logged(g, disk, lh, data)
    ensures HomeEq(g, Recover(g, disk), Install(disk, lh, data))
  {
    hide Recover, Install;
    forall b: nat | b < |disk| && !InLog(g, b) ensures Recover(g, disk)[b] == Install(disk, lh, data)[b] {
      RecoverAt(g, disk, b);
      InstallAt(disk, lh, data, b);
      if b in lh { var i :| 0 <= i < |lh| && lh[i] == b; }
    }
  }

  /** A prefix of the install writes touches listed blocks only. */
  lemma InstallPrefix(disk: Disk, lh: seq<nat>, data: seq<Data>, j: nat)
    requires |lh| == |data| && j <= |lh| && forall i :: 0 <= i < |lh| ==> lh[i] < |disk|
    ensures forall w :: w in InstallWrites(lh, data)[..j] ==> w.block < |disk|
    ensures forall b: nat :: b < |disk| && b !in lh ==> Apply(disk, InstallWrites(lh, data)[..j])[b] == disk[b]
  {
    hide Apply;
    var ws := InstallWrites(lh, data)[..j];
    forall b: nat | b < |disk| && b !in lh ensures Apply(disk, ws)[b] == disk[b] {
      ApplyOther(disk, ws, b);
    }
  }

  lemma LoggedKept(g: Layout, disk: Disk, d: Disk, lh: seq<nat>, data: seq<Data>)
    requires Logged(g, disk, lh, data) && |d| == |disk|
    requires forall b: nat :: b < |disk| && b !in lh ==> d[b] == disk[b]
    ensures Logged(g, d, lh, data)
  {
    assert forall b: nat :: InLog(g, b) ==> b !in lh;
    assert InLog(g, g.start);
    forall i | 0 <= i < |lh| ensures d[g.start + 1 + i] == data[i] {
      assert InLog(g, g.start + 1 + i);
    }
  }

  /** Installing some of a logged transaction's blocks leaves it logged, with the same outcome. */
  lemma PartlyInstalled(g: Layout, disk: Disk, lh: seq<nat>, data: seq<Data>, j: nat)
    requires Logged(g, disk, lh, data) && j <= |lh|
    ensures forall w :: w in InstallWrites(lh, data)[..j] ==> w.block < |disk|
    ensures var d := Apply(disk, InstallWrites(lh, data)[..j]);
      Logged(g, d, lh, data) && HomeEq(g, Recover(g, d), Install(disk, lh, data))
  {
    hide Apply, Install, Recover, HomeEq;
    InstallPrefix(disk, lh, data, j);
    var d := Apply(disk, InstallWrites(lh, data)[..j]);
    LoggedKept(g, disk, d, lh, data);
    LoggedRecovers(g, d, lh, data);
    InstallSame(g, d, disk, lh, data);
    HomeTrans(g, Recover(g, d), Install(d, lh, data), Install(disk, lh, data));
  }

  /** Installing overwrites whatever the logged home blocks held before. */
  lemma InstallSame(g: Layout, d1: Disk, d2: Disk, lh: seq<nat>, data: seq<Data>)
    requires |d1| == |d2| && Loggable(g, d1, lh) && |data| == |lh|
    requires forall b: nat :: b < |d1| && !InLog(g, b) && b !in lh ==> d1[b] == d2[b]
    ensures HomeEq(g, Install(d1, lh, data), Install(d2, lh, data))
  {
    hide Install;
    forall b: nat | b < |d1| && !InLog(g, b) ensures Install(d1, lh, data)[b] == Install(d2, lh, data)[b] {
      InstallAt(d1, lh, data, b);
      InstallAt(d2, lh, data, b);
      if b in lh { var i :| 0 <= i < |lh| && lh[i] == b; }
    }
  }

  /** Once all is installed, emptying the header keeps the outcome. */
  lemma HeaderCleared(g: Layout, disk: Disk, lh: seq<nat>, data: seq<Data>)
    requires Logged(g, disk, lh, data)
    ensures var d := Install(disk, lh, data)[g.start := HeadBlock(disk[g.start], [])];
      Recoverable(g, d) && ReadHead(d[g.start]) == [] && HomeEq(g, Recover(g, d), Install(disk, lh, data))
      && HomeEq(g, d, Install(disk, lh, data))
  {
    var d := Install(disk, lh, data)[g.start := HeadBlock(disk[g.start], [])];
    HeadRoundTrip(disk[g.start], []);
    EmptyRecovers(g, d);
  }

  /** With an empty header, recovery changes no home block. */
  lemma EmptyRecovers(g: Layout, disk: Disk)
    requires Recoverable(g, disk) && ReadHead(disk[g.start]) == []
    ensures HomeEq(g, Recover(g, disk), disk)
  {
    forall b: nat | b < |disk| && !InLog(g, b) ensures Recover(g, disk)[b] == disk[b] {
      RecoverAt(g, disk, b);
    }
  }

  // ---- a crash during recovery ----

  /** However far a recovery gets, the next one leads to the same home blocks. */
  lemma RecoveryCrash(g: Layout, disk: Disk, i: nat)
    requires Recoverable(g, disk) && i <= |RecoverWrites(g, disk)|
    ensures forall w :: w in RecoverWrites(g, disk)[..i] ==> w.block < |disk|
    ensures var d := Apply(disk, RecoverWrites(g, disk)[..i]);
      Recoverable(g, d) && HomeEq(g, Recover(g, d), Recover(g, disk))
  {
    var lh := ReadHead(disk[g.start]);
    var data := LogBlocks(g, disk, |lh|);
    var n := |lh|;
    var ws := RecoverWrites(g, disk);
    RecoverInRange(g, disk);
    assert forall w :: w in ws[..i] ==> w in ws;
    LoggedRecovers(g, disk, lh, data);
    if i <= n {
      assert ws[..i] == InstallWrites(lh, data)[..i];
      PartlyInstalled(g, disk, lh, data, i);
    } else {
      assert ws[..i] == ws;
      RecoverEmpties(g, disk);
      EmptyRecovers(g, Recover(g, disk));
    }
  }

  // ---- a crash during commit ----

  /** The transaction is durable exactly when its header write reached the disk. */
  lemma CommitCrash(g: Layout, disk: Disk, lh: seq<nat>, data: seq<Data>, i: nat)
    requires Recoverable(g, disk) && ReadHead(disk[g.start]) == [] && Loggable(g, disk, lh) && |data| == |lh|
    requires i <= |CommitWrites(g, disk[g.start], lh, data)|
    ensures forall w :: w in CommitWrites(g, disk[g.start], lh, data)[..i] ==> w.block < |disk|
    ensures var d := Apply(disk, CommitWrites(g, disk[g.start], lh, data)[..i]);
      && Recoverable(g, d)
      && HomeEq(g, Recover(g, d), if i <= |lh| then disk else Install(disk, lh, data))
      && (i == |CommitWrites(g, disk[g.start], lh, data)| ==> ReadHead(d[g.start]) == [])
  {
    hide HeadBlock, Logged, Apply, Install, Recover, HomeEq, LogWrites, InstallWrites, CommitWrites;
    var ws := CommitWrites(g, disk[g.start], lh, data);
    CommitParts(g, disk[g.start], lh, data, i);
    if i <= |lh| {
      BeforeHeader(g, disk, data, i);
    } else {
      var first := LogWrites(g, data) + [Write(g.start, HeadBlock(disk[g.start], lh))];
      LogWritten(g, disk, lh, data);
      var e := Apply(disk, first);
      AfterHeader(g, e, lh, data, i - |lh| - 1);
      InTwoParts(disk, first, ws[|lh| + 1..i]);
      HomeTrans(g, Recover(g, Apply(disk, ws[..i])), Install(e, lh, data), Install(disk, lh, data));
    }
  }

  lemma InTwoParts(disk: Disk, a: seq<Write>, b: seq<Write>)
    requires (forall w :: w in a ==> w.block < |disk|) && (forall w :: w in b ==> w.block < |disk|)
    ensures forall w :: w in a + b ==> w.block < |disk|
    ensures Apply(disk, a + b) == Apply(Apply(disk, a), b)
  {
    ApplyConcat(disk, a, b);
  }

  /** How a prefix of the commit writes splits at the header write. */
  lemma CommitParts(g: Layout, head: Data, lh: seq<nat>, data: seq<Data>, i: nat)
    requires |lh| == |data| <= LOGSIZE && i <= |CommitWrites(g, head, lh, data)|
    ensures var n, ws := |lh|, CommitWrites(g, head, lh, data);
      && |ws| == 2 * n + 2 && |LogWrites(g, data)| == |InstallWrites(lh, data)| == n
      && (i <= n ==> ws[..i] == LogWrites(g, data)[..i])
      && (i > n ==> ws[..i] == (LogWrites(g, data) + [Write(g.start, HeadBlock(head, lh))]) + ws[n + 1..i])
      && (n < i <= 2 * n + 1 ==> ws[n + 1..i] == InstallWrites(lh, data)[..i - n - 1])
      && (i == 2 * n + 2 ==>
            ws[n + 1..i] == InstallWrites(lh, data) + [Write(g.start, HeadBlock(HeadBlock(head, lh), []))])
  {
    hide HeadBlock;
  }

  lemma HomeTrans(g: Layout, a: Disk, b: Disk, c: Disk)
    requires HomeEq(g, a, b) && HomeEq(g, b, c)
    ensures HomeEq(g, a, c)
  {}

  /** The part of commit behind the header write, on a disk where the transaction is logged. */
  lemma AfterHeader(g: Layout, e: Disk, lh: seq<nat>, data: seq<Data>, j: nat)
    requires Logged(g, e, lh, data) && j <= |lh| + 1
    ensures var ws := if j <= |lh| then InstallWrites(lh, data)[..j]
                      else InstallWrites(lh, data) + [Write(g.start, HeadBlock(e[g.start], []))];
      && (forall w :: w in ws ==> w.block < |e|)
      && Recoverable(g, Apply(e, ws)) && HomeEq(g, Recover(g, Apply(e, ws)), Install(e, lh, data))
      && (j == |lh| + 1 ==> ReadHead(Apply(e, ws)[g.start]) == [])
  {
    InstallInRange(e, lh, data);
    if j <= |lh| {
      PartlyInstalled(g, e, lh, data, j);
    } else {
      ApplyConcat(e, InstallWrites(lh, data), [Write(g.start, HeadBlock(e[g.start], []))]);
      HeaderCleared(g, e, lh, data);
    }
  }

  /** Before the header is written, only log blocks have changed. */
  lemma BeforeHeader(g: Layout, disk: Disk, data: seq<Data>, i: nat)
    requires Recoverable(g, disk) && ReadHead(disk[g.start]) == [] && |data| < g.size && i <= |data|
    ensures forall w :: w in LogWrites(g, data)[..i] ==> w.block < |disk|
    ensures var d := Apply(disk, LogWrites(g, data)[..i]);
      Recoverable(g, d) && d[g.start] == disk[g.start] && HomeEq(g, Recover(g, d), disk)
  {
    hide Apply, Recover, HomeEq;
    LogPrefix(g, disk, data, i);
    var d := Apply(disk, LogWrites(g, data)[..i]);
    HeadOnly(g, disk, d);
    EmptyRecovers(g, d);
    HomeTrans(g, Recover(g, d), d, disk);
  }

  lemma LogPrefix(g: Layout, disk: Disk, data: seq<Data>, i: nat)
    requires g.start + g.size <= |disk| && |data| < g.size && i <= |data|
    ensures forall w :: w in LogWrites(g, data)[..i] ==> w.block < |disk|
    ensures forall b: nat :: b < |disk| && !(g.start < b < g.start + g.size) ==>
      Apply(disk, LogWrites(g, data)[..i])[b] == disk[b]
  {
    hide Apply;
    var ws := LogWrites(g, data)[..i];
    forall b: nat | b < |disk| && !(g.start < b < g.start + g.size) ensures Apply(disk, ws)[b] == disk[b] {
      ApplyOther(disk, ws, b);
    }
  }

  lemma HeadOnly(g: Layout, disk: Disk, d: Disk)
    requires Recoverable(g, disk) && |d| == |disk|
    requires forall b: nat :: b < |disk| && !(g.start < b < g.start + g.size) ==> d[b] == disk[b]
    ensures Recoverable(g, d) && d[g.start] == disk[g.start] && HomeEq(g, d, disk)
  {}

  /** After the header write the transaction is logged, and no home block has changed. */
  lemma LogWritten(g: Layout, disk: Disk, lh: seq<nat>, data: seq<Data>)
    requires Recoverable(g, disk) && Loggable(g, disk, lh) && |data| == |lh|
    ensures var first := LogWrites(g, data) + [Write(g.start, HeadBlock(disk[g.start], lh))];
      && (forall w :: w in first ==> w.block < |disk|)
      && Logged(g, Apply(disk, first), lh, data) && Apply(disk, first)[g.start] == HeadBlock(disk[g.start], lh)
      && HomeEq(g, Install(Apply(disk, first), lh, data), Install(disk, lh, data))
  {
    hide Install, HeadBlock, HomeEq, Logged;
    var ws := LogWrites(g, data);
    var last := Write(g.start, HeadBlock(disk[g.start], lh));
    assert (ws + [last])[..|ws|] == ws;
    LogBlocksWritten(g, disk, data);
    HeaderWritten(g, disk, Apply(disk, ws), lh, data);
    InstallSame(g, Apply(disk, ws + [last]), disk, lh, data);
  }

  lemma HeaderWritten(g: Layout, disk: Disk, e: Disk, lh: seq<nat>, data: seq<Data>)
    requires Recoverable(g, disk) && Loggable(g, disk, lh) && |data| == |lh| && |e| == |disk|
    requires forall i :: 0 <= i < |data| ==> e[g.start + 1 + i] == data[i]
    ensures Logged(g, e[g.start := HeadBlock(disk[g.start], lh)], lh, data)
  {
    HeadRoundTrip(disk[g.start], lh);
  }

  lemma LogBlocksWritten(g: Layout, disk: Disk, data: seq<Data>)
    requires g.start + g.size <= |disk| && |data| < g.size
    ensures forall w :: w in LogWrites(g, data) ==> w.block < |disk|
    ensures var e := Apply(disk, LogWrites(g, data));
      && (forall i :: 0 <= i < |data| ==> e[g.start + 1 + i] == data[i])
      && (forall b: nat :: b < |disk| && !InLog(g, b) ==> e[b] == disk[b])
  {
    hide Apply;
    var ws := LogWrites(g, data);
    forall i | 0 <= i < |data| ensures Apply(disk, ws)[g.start + 1 + i] == data[i] {
      ApplyAt(disk, ws, i);
    }
    forall b: nat | b < |disk| && !InLog(g, b) ensures Apply(disk, ws)[b] == disk[b] {
      ApplyOther(disk, ws, b);
    }
  }
}
