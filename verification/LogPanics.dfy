/** When commit finds no buffer (kernel/log.c, kernel/file/bio.c): exactly, and by runs that get
    there. */
module LogPanics {
  import opened Options
  import opened SetSizes
  import opened DiskBlocks
  import opened LogRecovery
  import opened RedoLog
  import opened LogCalls

  function Elems(s: seq<nat>): set<nat> {
    set b | b in s
  }

  lemma {:induction false} DistinctSize(s: seq<nat>)
    requires Distinct(s)
    ensures |Elems(s)| == |s|
  {
    if s != [] {
      var n := |s| - 1;
      DistinctSize(s[..n]);
      assert s == s[..n] + [s[n]];
      assert Elems(s) == Elems(s[..n]) + {s[n]};
      AddOne(Elems(s[..n]), s[n]);
    }
  }

  // ---- the blocks in use fit into the buffers ----

  lemma HeldMore(holds: seq<Use>, u: Use)
    ensures Held(holds + [u]) == Held(holds) + {u.block}
  {
    assert u in holds + [u];
  }

  lemma ReadRoom(g: Layout, home: Disk, s: State, who: Option<nat>, b: nat)
    requires |InUse(s)| <= NBUF
    ensures |InUse(NextRead(g, home, s, who, b))| <= NBUF
  {
    hide Replay, Pinned, Held;
    var t := NextRead(g, home, s, who, b);
    HeldMore(s.holds, Use(if who.Some? && who.value < |s.open| then Some(s.open[who.value]) else None, b));
    if t.holds != s.holds {
      assert InUse(t) == InUse(s) + {b};
      AddOne(InUse(s), b);
    }
  }

  /** A block comes to the log from a holder. */
  lemma LogWriteUse(g: Layout, disk: Disk, s: State, h: nat)
    requires Recoverable(g, disk) && Sound(g, disk, s)
    ensures Shape(s) && InUse(NextLogWrite(g, s, h)) == InUse(s)
  {
    hide Written, Recoverable, Recover;
    WrittenShape(g, disk, s);
    var t := NextLogWrite(g, s, h);
    if t.lh != s.lh {
      assert s.holds[h] in s.holds;
      assert Elems(t.lh) == Elems(s.lh) + {s.holds[h].block};
    }
  }

  lemma CommitUse(g: Layout, disk: Disk, s: State)
    requires Recoverable(g, disk) && Sound(g, disk, s)
    ensures Shape(s) && InUse(NextCommit(g, Recover(g, disk), s)) <= InUse(s)
  {
    hide Recoverable, Recover, Replay, NextWrite, Written, HeadBlock;
    WrittenShape(g, disk, s);
    WrittenDistinct(g, disk, s);
    if s.committing && s.lh != [] { StepPinned(s.lh, s.stage); }
  }

  lemma WrittenDistinct(g: Layout, disk: Disk, s: State)
    requires Recoverable(g, disk) && Written(g, disk, s)
    ensures Distinct(s.lh)
  {}

  lemma NextRoom(g: Layout, disk: Disk, s: State, call: Call)
    requires Recoverable(g, disk) && Sound(g, disk, s) && |InUse(s)| <= NBUF
    ensures Shape(s) && |InUse(Next(g, Recover(g, disk), s, call))| <= NBUF
  {
    hide Recoverable, Recover, Sound, NextLogWrite, NextCommit, NextRead, Pinned;
    LogWriteUse(g, disk, s, 0);
    var t := Next(g, Recover(g, disk), s, call);
    match call
    case Read(who, b) => ReadRoom(g, Recover(g, disk), s, who, b);
    case LogWrite(h) => LogWriteUse(g, disk, s, h);
    case Commit =>
      CommitUse(g, disk, s);
      SubsetSize(InUse(t), InUse(s));
    case _ =>
      assert InUse(t) <= InUse(s);
      SubsetSize(InUse(t), InUse(s));
  }

  lemma {:induction false} AfterRoom(g: Layout, disk: Disk, s: State, calls: seq<Call>)
    requires Recoverable(g, disk) && Sound(g, disk, s) && |InUse(s)| <= NBUF
    ensures Shape(s) && Sound(g, disk, After(g, Recover(g, disk), s, calls))
    ensures |InUse(After(g, Recover(g, disk), s, calls))| <= NBUF
    decreases |calls|
  {
    hide Recover, Sound, Next, Recoverable, InUse;
    NextSound(g, disk, s, Begin);
    if calls != [] && s.panic == Running {
      NextSound(g, disk, s, calls[0]);
      NextRoom(g, disk, s, calls[0]);
      AfterRoom(g, disk, Next(g, Recover(g, disk), s, calls[0]), calls[1..]);
    }
  }

  lemma RunRoom(g: Layout, disk: Disk, calls: seq<Call>)
    requires Recoverable(g, disk)
    ensures Sound(g, disk, Runs(g, disk, calls)) && |InUse(Runs(g, disk, calls))| <= NBUF
  {
    hide Recover, Sound, Recoverable, After;
    BootSound(g, disk);
    AfterRoom(g, disk, Boot(g, disk), calls);
  }

  // ---- commit's panic ----

  lemma {:induction false} AfterOne(g: Layout, home: Disk, s: State, calls: seq<Call>, call: Call)
    requires Shape(s)
    ensures var t := After(g, home, s, calls);
      After(g, home, s, calls + [call]) == if t.panic == Running then Next(g, home, t, call) else t
  {
    hide Next;
    AfterBoth(g, home, s, calls, [call]);
    var t := After(g, home, s, calls);
    if t.panic == Running { assert [call][1..] == []; }
  }

  lemma UseCounted(s: State)
    requires Distinct(s.lh)
    ensures var p := Pinned(s.lh, s.stage); |InUse(s)| == |p| + |Held(s.holds) - Elems(p)|
  {
    hide Pinned, Held, Distinct;
    var p := Pinned(s.lh, s.stage);
    PinnedDistinct(s.lh, s.stage);
    DistinctSize(p);
    assert InUse(s) == Elems(p) + (Held(s.holds) - Elems(p));
    DisjointSize(Elems(p), Held(s.holds) - Elems(p));
  }

  /** In any run, while a commit is running: only readers outside hold blocks, and the next of
      its writes panics exactly if the pinned blocks and the other blocks that they hold are
      as many as the buffers. */
  lemma CommitPanics(g: Layout, disk: Disk, calls: seq<Call>)
    requires Recoverable(g, disk)
    requires Runs(g, disk, calls).panic == Running && Runs(g, disk, calls).committing
    ensures var s := Runs(g, disk, calls); var p := Pinned(s.lh, s.stage);
      && (forall u :: u in s.holds ==> u.owner.None?)
      && (Runs(g, disk, calls + [Commit]).panic == NoBufferToCommit <==>
            s.lh != [] && |p| + |Held(s.holds) - Elems(p)| == NBUF)
  {
    hide Recover, Recoverable, Written, After, Boot, NextWrite, Replay, HeadBlock, InUse, Pinned, Held, Elems, Distinct;
    var s := Runs(g, disk, calls);
    RunRoom(g, disk, calls);
    AfterOne(g, Recover(g, disk), Boot(g, disk), calls, Commit);
    WrittenDistinct(g, disk, s);
    UseCounted(s);
  }

  lemma PinnedDistinct(lh: seq<nat>, stage: nat)
    requires Distinct(lh)
    ensures Distinct(Pinned(lh, stage))
  {}

  // ---- without readers outside ----

  predicate OutsideRead(c: Call) {
    c.Read? && c.who.None?
  }

  ghost predicate Inside(calls: seq<Call>) {
    forall c :: c in calls ==> !OutsideRead(c)
  }

  ghost predicate AllOwned(s: State) {
    && (forall u :: u in s.holds ==> u.owner.Some?)
    && (s.panic == NoBufferToCommit ==> |s.lh| >= NBUF)
  }

  lemma NextOwned(g: Layout, disk: Disk, s: State, call: Call)
    requires Recoverable(g, disk) && Sound(g, disk, s) && AllOwned(s) && s.panic == Running && !OutsideRead(call)
    ensures Shape(s) && AllOwned(Next(g, Recover(g, disk), s, call))
  {
    hide Recoverable, Recover, Written, Replay, NextWrite, HeadBlock, InUse, Pinned;
    WrittenShape(g, disk, s);
    if call.Commit? && s.committing {
      WrittenDistinct(g, disk, s);
      assert Held(s.holds) == {};
      UseCounted(s);
      PinnedSize(s.lh, s.stage);
    }
  }

  lemma PinnedSize(lh: seq<nat>, stage: nat)
    ensures |Pinned(lh, stage)| <= |lh|
  {}

  lemma {:induction false} AfterOwned(g: Layout, disk: Disk, s: State, calls: seq<Call>)
    requires Recoverable(g, disk) && Sound(g, disk, s) && AllOwned(s) && Inside(calls)
    ensures Shape(s) && AllOwned(After(g, Recover(g, disk), s, calls))
    decreases |calls|
  {
    hide Recover, Sound, Next, Recoverable, AllOwned;
    NextSound(g, disk, s, Begin);
    if calls != [] && s.panic == Running {
      assert calls[0] in calls;
      NextSound(g, disk, s, calls[0]);
      NextOwned(g, disk, s, calls[0]);
      AfterOwned(g, disk, Next(g, Recover(g, disk), s, calls[0]), calls[1..]);
    }
  }

  // ---- runs into the panic ----

  /** Enough consecutive home blocks to fill the buffers. */
  predicate HomeRange(g: Layout, size: nat, b0: nat) {
    b0 + NBUF <= size && (b0 + NBUF <= g.start || g.start + g.size <= b0)
  }

  function Range(b0: nat, n: nat): (s: seq<nat>)
    ensures |s| == n
  {
    if n == 0 then [] else Range(b0, n - 1) + [b0 + n - 1]
  }

  lemma {:induction false} RangeAt(b0: nat, n: nat)
    ensures forall i :: 0 <= i < n ==> Range(b0, n)[i] == b0 + i
    ensures Distinct(Range(b0, n))
    ensures forall b: nat :: b in Range(b0, n) <==> b0 <= b < b0 + n
  {
    if n > 0 { RangeAt(b0, n - 1); }
  }

  /** Operation k reads, logs and releases blocks k * MAXOPBLOCKS and following. */
  function Listing(b0: nat, n: nat): seq<Call> {
    if n == 0 then []
    else Listing(b0, n - 1) + [Read(Some((n - 1) / MAXOPBLOCKS), b0 + n - 1), LogWrite(0), Release(0)]
  }

  /** Readers outside take the next m blocks. */
  function Readers(b0: nat, m: nat): seq<Call> {
    if m == 0 then [] else Readers(b0, m - 1) + [Read(None, b0 + m - 1)]
  }

  /** Three operations list n blocks, readers outside take the other buffers, the last end_op
      commits. */
  function Script(b0: nat, n: nat): seq<Call>
    requires n <= NBUF
  {
    [Begin, Begin, Begin] + Listing(b0, n) + Readers(b0 + n, NBUF - n) + [End(0), End(0), End(0), Commit]
  }

  /** How much of n blocks falls to operation k. */
  function Share(n: nat, k: nat): nat {
    if n <= k * MAXOPBLOCKS then 0 else Min(n - k * MAXOPBLOCKS, MAXOPBLOCKS)
  }

  function Outsiders(b0: nat, m: nat): (s: seq<Use>)
    ensures |s| == m
  {
    if m == 0 then [] else Outsiders(b0, m - 1) + [Use(None, b0 + m - 1)]
  }

  predicate Ready(s: State, lh: seq<nat>, holds: seq<Use>) {
    && s.panic == Running && s.open == [0, 1, 2] && |s.used| == 3 && s.holds == holds && s.dirty == {}
    && s.lh == lh && !s.committing && s.stage == 0
  }

  predicate Shares(s: State, n: nat) {
    |s.used| == 3 && s.used[0] == Share(n, 0) && s.used[1] == Share(n, 1) && s.used[2] == Share(n, 2)
  }

  lemma {:induction false} HeldBy(b0: nat, m: nat)
    ensures forall b: nat :: b in Held(Outsiders(b0, m)) <==> b0 <= b < b0 + m
  {
    if m > 0 {
      HeldBy(b0, m - 1);
      HeldMore(Outsiders(b0, m - 1), Use(None, b0 + m - 1));
    }
  }

  lemma FilledTo(s: State, b0: nat, n: nat, m: nat)
    requires s.lh == Range(b0, n) && s.holds == Outsiders(b0 + n, m) && s.stage == 0
    ensures |InUse(s)| == n + m
  {
    RangeAt(b0, n);
    HeldBy(b0 + n, m);
    RangeAt(b0, n + m);
    assert InUse(s) == Elems(Range(b0, n + m));
    DistinctSize(Range(b0, n + m));
  }

  lemma ReadOne(g: Layout, home: Disk, s: State, b0: nat, n: nat, k: nat)
    requires Ready(s, Range(b0, n), []) && HomeRange(g, |home|, b0) && n < NBUF && k < 3
    ensures var t := NextRead(g, home, s, Some(k), b0 + n);
      Ready(t, Range(b0, n), [Use(Some(k), b0 + n)]) && t.used == s.used
  {
    hide Replay, Range, At, InUse;
    FilledTo(s, b0, n, 0);
  }

  lemma LogOne(g: Layout, s: State, b0: nat, n: nat, k: nat)
    requires Ready(s, Range(b0, n), [Use(Some(k), b0 + n)]) && n < LOGSIZE && n < g.size - 1 && k < 3 && s.used[k] < MAXOPBLOCKS
    ensures var t := NextLogWrite(g, s, 0);
      Ready(t, Range(b0, n + 1), [Use(Some(k), b0 + n)]) && t.used == s.used[k := s.used[k] + 1]
  {
    hide Slot;
    RangeAt(b0, n);
    ThreeSlots(k);
  }

  /** One more block is listed. */
  lemma ListOne(g: Layout, home: Disk, s: State, b0: nat, n: nat)
    requires Ready(s, Range(b0, n), []) && Shares(s, n) && HomeRange(g, |home|, b0) && n < LOGSIZE && n < g.size - 1
    ensures Shape(s)
    ensures var t := After(g, home, s, [Read(Some(n / MAXOPBLOCKS), b0 + n), LogWrite(0), Release(0)]);
      Ready(t, Range(b0, n + 1), []) && Shares(t, n + 1)
  {
    hide Range, NextRead, NextLogWrite, After;
    var k := n / MAXOPBLOCKS;
    ReadOne(g, home, s, b0, n, k);
    var s1 := NextRead(g, home, s, Some(k), b0 + n);
    LogOne(g, s1, b0, n, k);
    var s2 := NextLogWrite(g, s1, 0);
    assert NextRelease(s2, 0).holds == [];
    ThreeCalls(g, home, s, Read(Some(k), b0 + n), LogWrite(0), Release(0));
  }

  lemma ThreeSlots(k: nat)
    requires k < 3
    ensures Slot([0, 1, 2], k) == k
  {
    assert [0, 1, 2][1..] == [1, 2] && [1, 2][1..] == [2];
  }

  lemma ThreeCalls(g: Layout, home: Disk, s: State, a: Call, b: Call, c: Call)
    requires Shape(s) && s.panic == Running && Next(g, home, s, a).panic == Running
    requires Next(g, home, Next(g, home, s, a), b).panic == Running
    ensures After(g, home, s, [a, b, c]) == Next(g, home, Next(g, home, Next(g, home, s, a), b), c)
  {
    hide Next;
    assert [a, b, c][1..] == [b, c] && [b, c][1..] == [c] && [c][1..] == [];
    var s1 := Next(g, home, s, a);
    var s2 := Next(g, home, s1, b);
    assert After(g, home, s2, [c]) == Next(g, home, s2, c);
    assert After(g, home, s1, [b, c]) == After(g, home, s2, [c]);
  }

  lemma {:induction false} ListAll(g: Layout, home: Disk, s: State, b0: nat, n: nat)
    requires Ready(s, [], []) && Shares(s, 0) && HomeRange(g, |home|, b0) && n <= LOGSIZE && n < g.size
    ensures Shape(s) && var t := After(g, home, s, Listing(b0, n)); Ready(t, Range(b0, n), []) && Shares(t, n)
  {
    hide Next;
    if n > 0 {
      ListAll(g, home, s, b0, n - 1);
      var t := After(g, home, s, Listing(b0, n - 1));
      ListOne(g, home, t, b0, n - 1);
      AfterBoth(g, home, s, Listing(b0, n - 1), [Read(Some((n - 1) / MAXOPBLOCKS), b0 + n - 1), LogWrite(0), Release(0)]);
    }
  }

  lemma {:induction false} ReadAll(g: Layout, home: Disk, s: State, b0: nat, n: nat, m: nat)
    requires Ready(s, Range(b0, n), []) && HomeRange(g, |home|, b0) && n + m <= NBUF && n <= LOGSIZE
    ensures Shape(s) && Ready(After(g, home, s, Readers(b0 + n, m)), Range(b0, n), Outsiders(b0 + n, m))
  {
    hide Replay, Pinned, At, InUse, Range;
    if m > 0 {
      ReadAll(g, home, s, b0, n, m - 1);
      var t := After(g, home, s, Readers(b0 + n, m - 1));
      FilledTo(t, b0, n, m - 1);
      AfterOne(g, home, s, Readers(b0 + n, m - 1), Read(None, b0 + n + m - 1));
    }
  }

  lemma EndOne(s: State, holds: seq<Use>)
    requires Shape(s) && s.open != [] && s.holds == holds && s.dirty == {} && forall u :: u in holds ==> u.owner.None?
    ensures NextEnd(s, 0) == s.(open := s.open[1..], used := s.used[1..], committing := |s.open| == 1)
  {}

  lemma EndAll(g: Layout, home: Disk, s: State, lh: seq<nat>, b: nat, m: nat)
    requires Ready(s, lh, Outsiders(b, m)) && |lh| <= LOGSIZE
    ensures var t := After(g, home, s, [End(0), End(0), End(0)]);
      t.panic == Running && t.holds == Outsiders(b, m) && t.lh == lh && t.committing && t.stage == 0
  {
    hide NextEnd, Outsiders, After;
    NoOwners(b, m);
    EndOne(s, s.holds);
    var s1 := NextEnd(s, 0);
    EndOne(s1, s.holds);
    var s2 := NextEnd(s1, 0);
    EndOne(s2, s.holds);
    ThreeCalls(g, home, s, End(0), End(0), End(0));
  }

  lemma {:induction false} NoOwners(b: nat, m: nat)
    ensures forall u :: u in Outsiders(b, m) ==> u.owner.None?
  {
    if m > 0 { NoOwners(b, m - 1); }
  }

  lemma BeginAll(g: Layout, disk: Disk)
    requires Recoverable(g, disk)
    ensures var t := After(g, Recover(g, disk), Boot(g, disk), [Begin, Begin, Begin]); Ready(t, [], []) && Shares(t, 0)
  {
    hide Recover, RecoverWrites, Recoverable, At;
    var home, s := Recover(g, disk), Boot(g, disk);
    var s1 := NextBegin(s);
    var s2 := NextBegin(s1);
    var s3 := NextBegin(s2);
    ThreeCalls(g, home, s, Begin, Begin, Begin);
  }

  /** n listed blocks, and the other buffers in the hands of readers outside: the commit panics. */
  lemma ScriptPanics(g: Layout, disk: Disk, b0: nat, n: nat)
    requires Recoverable(g, disk) && HomeRange(g, |disk|, b0) && 1 <= n <= LOGSIZE && n < g.size
    ensures Runs(g, disk, Script(b0, n)).panic == NoBufferToCommit
  {
    hide Recover, RecoverWrites, Recoverable, Boot, Ready, Shares, After, Listing, Readers;
    var home, s := Recover(g, disk), Boot(g, disk);
    var a, b, c := [Begin, Begin, Begin], Listing(b0, n), Readers(b0 + n, NBUF - n);
    BeginAll(g, disk);
    var s1 := After(g, home, s, a);
    ListAll(g, home, s1, b0, n);
    var s2 := After(g, home, s1, b);
    ReadAll(g, home, s2, b0, n, NBUF - n);
    var s3 := After(g, home, s2, c);
    EndAll(g, home, s3, Range(b0, n), b0 + n, NBUF - n);
    var s4 := After(g, home, s3, [End(0), End(0), End(0)]);
    FilledTo(s4, b0, n, NBUF - n);
    assert s4.lh != [];
    var d := [End(0), End(0), End(0)];
    AfterBoth(g, home, s, a, b);
    AfterBoth(g, home, s, a + b, c);
    AfterBoth(g, home, s, a + b + c, d);
    assert Script(b0, n) == (a + b + c + d) + [Commit];
    AfterOne(g, home, s, a + b + c + d, Commit);
  }

  lemma {:induction false} ListingInside(b0: nat, n: nat)
    ensures Inside(Listing(b0, n))
  {
    if n > 0 { ListingInside(b0, n - 1); }
  }

  /** Without readers outside, exactly a log longer than the header can run commit out of
      buffers. */
  lemma PanicWithoutReaders(g: Layout, disk: Disk, b0: nat)
    requires Recoverable(g, disk) && HomeRange(g, |disk|, b0)
    ensures (exists calls :: Inside(calls) && Runs(g, disk, calls).panic == NoBufferToCommit) <==> g.size > LOGSIZE
  {
    hide Recover, RecoverWrites, Recoverable, After, Listing, Sound;
    if g.size > LOGSIZE {
      var calls := Script(b0, LOGSIZE);
      ScriptPanics(g, disk, b0, LOGSIZE);
      ListingInside(b0, LOGSIZE);
      assert Inside(calls);
    }
    if calls :| Inside(calls) && Runs(g, disk, calls).panic == NoBufferToCommit {
      BootSound(g, disk);
      AfterOwned(g, disk, Boot(g, disk), calls);
      RunRoom(g, disk, calls);
      ListedFits(g, disk, Runs(g, disk, calls));
    }
  }

  lemma ListedFits(g: Layout, disk: Disk, s: State)
    requires Recoverable(g, disk) && Sound(g, disk, s)
    ensures |s.lh| < g.size
  {
    hide Written, Recoverable;
    WrittenShape(g, disk, s);
  }

  /** With the log of LOGSIZE blocks that mkfs makes, one reader outside is enough. */
  lemma OneReader(g: Layout, disk: Disk, b0: nat)
    requires Recoverable(g, disk) && HomeRange(g, |disk|, b0) && g.size == LOGSIZE
    ensures Runs(g, disk, Script(b0, LOGSIZE - 1)).panic == NoBufferToCommit
    ensures Readers(b0 + LOGSIZE - 1, NBUF - (LOGSIZE - 1)) == [Read(None, b0 + LOGSIZE - 1)]
  {
    ScriptPanics(g, disk, b0, LOGSIZE - 1);
    assert Readers(b0 + LOGSIZE - 1, 0) == [];
  }

  /** With readers outside, every log that can list a block can run out. */
  lemma PanicWithReaders(g: Layout, disk: Disk, b0: nat)
    requires Recoverable(g, disk) && HomeRange(g, |disk|, b0)
    ensures (exists calls :: Runs(g, disk, calls).panic == NoBufferToCommit) <==> g.size > 1
  {
    hide Recover, RecoverWrites, Recoverable, After, Listing, Sound;
    if g.size > 1 { ScriptPanics(g, disk, b0, 1); }
    if calls :| Runs(g, disk, calls).panic == NoBufferToCommit {
      RunRoom(g, disk, calls);
      BootSound(g, disk);
      AfterListed(g, disk, Boot(g, disk), calls);
      ListedFits(g, disk, Runs(g, disk, calls));
    }
  }

  lemma {:induction false} AfterListed(g: Layout, disk: Disk, s: State, calls: seq<Call>)
    requires Recoverable(g, disk) && Shape(s) && (s.panic == NoBufferToCommit ==> s.lh != [])
    ensures var t := After(g, Recover(g, disk), s, calls); t.panic == NoBufferToCommit ==> t.lh != []
    decreases |calls|
  {
    hide Recover, RecoverWrites, Recoverable, InUse, NextWrite, Replay;
    if calls != [] && s.panic == Running {
      AfterListed(g, disk, Next(g, Recover(g, disk), s, calls[0]), calls[1..]);
    }
  }
}
