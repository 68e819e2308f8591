/** Transactions as runs of the log (kernel/log.c): an operation on its own that reads, changes,
    logs and releases some blocks, and its commit. */
module LogTransactions {
  import opened Options
  import opened DiskBlocks
  import opened LogRecovery
  import opened RedoLog
  import opened LogCalls
  import opened LogPanics

  /** Between operations. */
  predicate Idle(s: State) {
    && s.panic == Running && s.open == [] && s.used == [] && s.holds == [] && s.dirty == {}
    && s.lh == [] && !s.committing && s.stage == 0
  }

  /** An operation on its own has listed these blocks. */
  predicate Working(s: State, lh: seq<nat>) {
    && s.panic == Running && |s.open| == 1 && s.used == [|lh|] && s.holds == [] && s.dirty == {}
    && s.lh == lh && !s.committing && s.stage == 0
  }

  /** How the file system changes a block. */
  function Put(b: nat, data: Data): seq<Call> {
    [Read(Some(0), b), Change(0, data), LogWrite(0), Release(0)]
  }

  function Puts(lh: seq<nat>, to: Disk): seq<Call> {
    if lh == [] then []
    else
      var n := |lh| - 1;
      Puts(lh[..n], to) + Put(lh[n], At(to, lh[n]))
  }

  function Commits(n: nat): seq<Call> {
    if n == 0 then [] else Commits(n - 1) + [Commit]
  }

  /** How many steps the commit of n blocks takes. */
  function Steps(n: nat): nat {
    if n == 0 then 1 else 2 * n + 2
  }

  /** begin_op, the listed blocks as they are in `to`, end_op and the commit. */
  function Script(lh: seq<nat>, to: Disk): seq<Call> {
    [Begin] + Puts(lh, to) + [End(0)] + Commits(Steps(|lh|))
  }

  /** The store with the listed blocks as they are in `to`. */
  function Updated(store: Disk, lh: seq<nat>, to: Disk): (d: Disk)
    ensures |d| == |store|
  {
    if lh == [] then store
    else
      var n := |lh| - 1;
      var d := Updated(store, lh[..n], to);
      if lh[n] < |d| then d[lh[n] := At(to, lh[n])] else d
  }

  lemma {:induction false} UpdatedAt(store: Disk, lh: seq<nat>, to: Disk, b: nat)
    requires b < |store|
    ensures Updated(store, lh, to)[b] == if b in lh then At(to, b) else store[b]
  {
    if lh != [] {
      var n := |lh| - 1;
      UpdatedAt(store, lh[..n], to, b);
      assert lh == lh[..n] + [lh[n]];
    }
  }

  lemma OnlyListed(s: State)
    requires s.holds == [] && Distinct(s.lh)
    ensures |InUse(s)| <= |s.lh|
  {
    UseCounted(s);
    PinnedSize(s.lh, s.stage);
    assert Held(s.holds) == {};
  }

  lemma PutRead(g: Layout, home: Disk, s: State, lh: seq<nat>, b: nat)
    requires Working(s, lh) && Distinct(lh) && |lh| < MAXOPBLOCKS && b < |home| && !InLog(g, b)
    ensures var d := At(Replay(home, s.trace), b);
      Next(g, home, s, Read(Some(0), b)) == s.(holds := [Use(Some(s.open[0]), b)], got := s.got + [d])
  {
    hide Replay, InUse, At, Distinct;
    OnlyListed(s);
    assert s.holds + [Use(Some(s.open[0]), b)] == [Use(Some(s.open[0]), b)];
  }

  /** One block read, changed, logged and released. */
  lemma PutOne(g: Layout, home: Disk, s: State, lh: seq<nat>, b: nat, data: Data)
    requires Working(s, lh) && Distinct(lh) && b !in lh && |lh| < MAXOPBLOCKS && |lh| < g.size - 1 && b < |home| && !InLog(g, b)
    ensures var t := After(g, home, s, Put(b, data));
      Working(t, lh + [b]) && t.trace == s.trace + [LogCalls.Wrote(b, data)] && t.ws == s.ws && t.points == s.points
  {
    hide Replay, InUse, At, After, NextRead;
    var calls := Put(b, data);
    PutRead(g, home, s, lh, b);
    var s1 := Next(g, home, s, calls[0]);
    var s2 := Next(g, home, s1, calls[1]);
    var s3 := Next(g, home, s2, calls[2]);
    ThreeCalls(g, home, s, calls[0], calls[1], calls[2]);
    assert calls == [calls[0], calls[1], calls[2]] + [calls[3]];
    AfterOne(g, home, s, [calls[0], calls[1], calls[2]], calls[3]);
  }

  lemma {:induction false} PutAll(g: Layout, home: Disk, s: State, lh: seq<nat>, to: Disk)
    requires Working(s, []) && Distinct(lh) && |lh| <= MAXOPBLOCKS && |lh| < g.size
    requires forall b :: b in lh ==> b < |home| && !InLog(g, b)
    ensures var t := After(g, home, s, Puts(lh, to));
      && Working(t, lh) && t.ws == s.ws && t.points == s.points
      && Replay(home, t.trace) == Updated(Replay(home, s.trace), lh, to)
      && Snapshots(home, t.trace) == Snapshots(home, s.trace)
    decreases |lh|
  {
    hide Next, Replay, Snapshots;
    if lh != [] {
      var n := |lh| - 1;
      var b := lh[n];
      assert b in lh && forall c :: c in lh[..n] ==> c in lh;
      PutAll(g, home, s, lh[..n], to);
      var t := After(g, home, s, Puts(lh[..n], to));
      PutOne(g, home, t, lh[..n], b, At(to, b));
      AfterBoth(g, home, s, Puts(lh[..n], to), Put(b, At(to, b)));
      TraceNext(home, t.trace, LogCalls.Wrote(b, At(to, b)));
      assert lh[..n] + [b] == lh;
    }
  }

  /** k writes into the commit of an operation on its own. */
  predicate Committing(s: State, lh: seq<nat>, k: nat) {
    && s.panic == Running && s.open == [] && s.used == [] && s.holds == [] && s.dirty == {}
    && s.lh == lh && s.committing && s.stage == k
  }

  lemma CommitOne(g: Layout, home: Disk, s: State, lh: seq<nat>, k: nat)
    requires Committing(s, lh, k) && lh != [] && Distinct(lh) && |lh| <= MAXOPBLOCKS && k <= 2 * |lh|
    ensures var t := Next(g, home, s, Commit);
      Committing(t, lh, k + 1) && t.trace == if k == |lh| then s.trace + [Committed] else s.trace
  {
    hide Replay, InUse, NextWrite, HeadBlock, Distinct;
    OnlyListed(s);
  }

  lemma {:induction false} CommitSome(g: Layout, home: Disk, s: State, lh: seq<nat>, k: nat)
    requires Committing(s, lh, 0) && lh != [] && Distinct(lh) && |lh| <= MAXOPBLOCKS && k <= 2 * |lh| + 1
    ensures var t := After(g, home, s, Commits(k));
      Committing(t, lh, k) && t.trace == s.trace + if k <= |lh| then [] else [Committed]
  {
    hide Next, Distinct, After;
    if k == 0 {
      Nothing(g, home, s);
    } else {
      CommitSome(g, home, s, lh, k - 1);
      CommitOne(g, home, After(g, home, s, Commits(k - 1)), lh, k - 1);
      AfterOne(g, home, s, Commits(k - 1), Commit);
    }
  }

  lemma Nothing(g: Layout, home: Disk, s: State)
    requires Shape(s)
    ensures After(g, home, s, []) == s
  {}

  lemma CommitWhole(g: Layout, home: Disk, s: State, lh: seq<nat>)
    requires Committing(s, lh, 0) && Distinct(lh) && |lh| <= MAXOPBLOCKS
    ensures var t := After(g, home, s, Commits(Steps(|lh|))); Idle(t) && t.trace == s.trace + [Committed]
  {
    hide Replay, InUse, NextWrite, HeadBlock;
    var k := Steps(|lh|) - 1;
    assert Commits(k + 1) == Commits(k) + [Commit];
    AfterOne(g, home, s, Commits(k), Commit);
    if lh != [] {
      CommitSome(g, home, s, lh, k);
      OnlyListed(After(g, home, s, Commits(k)));
    }
  }

  /** A transaction on its own: the plain store has the listed blocks of `to`, and this is what the
      commit has made durable. */
  lemma ScriptRuns(g: Layout, home: Disk, s: State, lh: seq<nat>, to: Disk)
    requires Idle(s) && Distinct(lh) && |lh| <= MAXOPBLOCKS && |lh| < g.size
    requires forall b :: b in lh ==> b < |home| && !InLog(g, b)
    ensures var t := After(g, home, s, Script(lh, to)); var store := Updated(Replay(home, s.trace), lh, to);
      Idle(t) && Replay(home, t.trace) == store && Snapshots(home, t.trace) == Snapshots(home, s.trace) + [store]
  {
    hide Replay, Snapshots, After, Updated, Puts, Commits;
    var s1 := After(g, home, s, [Begin]);
    Begins(g, home, s);
    PutAll(g, home, s1, lh, to);
    var s2 := After(g, home, s1, Puts(lh, to));
    Ends(g, home, s2, lh);
    var s3 := After(g, home, s2, [End(0)]);
    CommitWhole(g, home, s3, lh);
    TraceNext(home, s3.trace, Committed);
    AfterBoth(g, home, s, [Begin], Puts(lh, to));
    AfterBoth(g, home, s, [Begin] + Puts(lh, to), [End(0)]);
    AfterBoth(g, home, s, [Begin] + Puts(lh, to) + [End(0)], Commits(Steps(|lh|)));
  }

  lemma Begins(g: Layout, home: Disk, s: State)
    requires Idle(s)
    ensures var t := After(g, home, s, [Begin]); Working(t, []) && t.trace == s.trace
  {
    AfterOne(g, home, s, [], Begin);
    assert [] + [Begin] == [Begin];
  }

  lemma Ends(g: Layout, home: Disk, s: State, lh: seq<nat>)
    requires Working(s, lh) && |lh| <= LOGSIZE
    ensures var t := After(g, home, s, [End(0)]); Committing(t, lh, 0) && t.trace == s.trace
  {
    AfterOne(g, home, s, [], End(0));
    assert [] + [End(0)] == [End(0)];
  }
}
