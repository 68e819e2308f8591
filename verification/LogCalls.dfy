/** The log as its callers see it (kernel/log.c): a machine on block numbers that says, for any
    sequence of calls by operations and by readers outside of them, which call is admitted, which
    one panics, and which block writes reach the disk in which order. No buffers, no ring. */
module LogCalls {
  import opened Options
  import opened DiskBlocks
  import opened LogRecovery
  import opened RedoLog

  // ---- the plain block store that the machine is compared with ----

  datatype Event = Wrote(block: nat, data: Data) | Committed

  /** The home blocks after the writes of the trace, with no cache, log or crash. */
  function Replay(home: Disk, trace: seq<Event>): (d: Disk)
    ensures |d| == |home|
  {
    if trace == [] then home
    else
      var n := |trace| - 1;
      var d := Replay(home, trace[..n]);
      if trace[n].Wrote? && trace[n].block < |d| then d[trace[n].block := trace[n].data] else d
  }

  /** The plain store at the start and at each commit. */
  ghost function Snapshots(home: Disk, trace: seq<Event>): (s: seq<Disk>)
    ensures |s| > 0
  {
    if trace == [] then [home]
    else
      var n := |trace| - 1;
      var s := Snapshots(home, trace[..n]);
      if trace[n].Committed? then s + [Replay(home, trace[..n])] else s
  }

  lemma TraceNext(home: Disk, trace: seq<Event>, e: Event)
    ensures Replay(home, trace + [e]) ==
      (var d := Replay(home, trace); if e.Wrote? && e.block < |d| then d[e.block := e.data] else d)
    ensures Snapshots(home, trace + [e]) ==
      if e.Committed? then Snapshots(home, trace) + [Replay(home, trace)] else Snapshots(home, trace)
  {
    assert (trace + [e])[..|trace|] == trace;
  }

  // ---- the machine ----

  /** `who` is one of the outstanding operations, or nobody's; `hold` is one of the blocks that
      are held. */
  datatype Call =
    | Begin
    | Read(who: Option<nat>, block: nat)
    | Change(hold: nat, data: Data)
    | LogWrite(hold: nat)
    | Release(hold: nat)
    | End(op: nat)
    | Commit

  datatype Panic = Running | NoBuffers | TooBig | NoBufferToCommit

  /** A block that bread has returned and brelse has not taken back. */
  datatype Use = Use(owner: Option<nat>, block: nat)

  datatype State = State(
    panic: Panic,
    born: nat,              // operations get their numbers in turn
    open: seq<nat>,         // the outstanding operations
    used: seq<nat>,         // and how many blocks each has added to the log
    holds: seq<Use>,
    dirty: set<nat>,        // changed, and not passed to log_write yet
    lh: seq<nat>,
    committing: bool,
    stage: nat,             // block writes that the running commit has done
    head: Data,             // the header block
    got: seq<Data>,         // what the reads returned
    trace: seq<Event>,
    ws: seq<Write>,         // every block write since boot
    points: seq<nat>)       // how many of them there were at each commit

  predicate Shape(s: State) {
    |s.used| == |s.open| && |s.lh| <= LOGSIZE
  }

  function Drop<T>(s: seq<T>, k: nat): seq<T>
    requires k < |s|
  {
    s[..k] + s[k + 1..]
  }

  /** Where an operation is among the outstanding ones. */
  function Slot(open: seq<nat>, id: nat): (k: nat)
    ensures k <= |open| && (k < |open| <==> id in open) && (k < |open| ==> open[k] == id)
  {
    if open == [] then 0 else if open[0] == id then 0 else 1 + Slot(open[1..], id)
  }

  function Held(holds: seq<Use>): set<nat> {
    set u | u in holds :: u.block
  }

  /** The blocks that occupy a buffer that cannot be recycled. */
  function InUse(s: State): set<nat> {
    Held(s.holds) + set b | b in Pinned(s.lh, s.stage)
  }

  /** begin_op admits an operation if every outstanding one may still use its whole share. */
  function NextBegin(s: State): State {
    if s.committing || |s.lh| + (|s.open| + 1) * MAXOPBLOCKS > LOGSIZE then s
    else s.(open := s.open + [s.born], used := s.used + [0], born := s.born + 1)
  }

  /** bread of a home block, by an outstanding operation or by a reader outside. */
  function NextRead(g: Layout, home: Disk, s: State, who: Option<nat>, b: nat): State {
    if b >= |home| || InLog(g, b) || (who.Some? && who.value >= |s.open|) then s
    else if b !in InUse(s) && |InUse(s)| >= NBUF then s.(panic := NoBuffers)
    else
      var owner := if who.Some? then Some(s.open[who.value]) else None;
      s.(holds := s.holds + [Use(owner, b)], got := s.got + [At(Replay(home, s.trace), b)])
  }

  /** An operation changes a block it holds. */
  function NextChange(s: State, h: nat, data: Data): State {
    if h >= |s.holds| || s.holds[h].owner.None? then s
    else s.(dirty := s.dirty + {s.holds[h].block}, trace := s.trace + [Wrote(s.holds[h].block, data)])
  }

  /** log_write by an operation that has not used up its share. */
  function NextLogWrite(g: Layout, s: State, h: nat): State
    requires Shape(s)
  {
    if h >= |s.holds| || s.holds[h].owner.None? || s.holds[h].owner.value !in s.open then s
    else
      var b, k := s.holds[h].block, Slot(s.open, s.holds[h].owner.value);
      if b !in s.lh && s.used[k] >= MAXOPBLOCKS then s
      else if |s.lh| >= LOGSIZE || |s.lh| >= g.size - 1 then s.(panic := TooBig)
      else if b in s.lh then s.(dirty := s.dirty - {b})
      else s.(dirty := s.dirty - {b}, lh := s.lh + [b], used := s.used[k := s.used[k] + 1])
  }

  /** brelse; a changed block goes to log_write first. */
  function NextRelease(s: State, h: nat): State {
    if h >= |s.holds| || s.holds[h].block in s.dirty then s else s.(holds := Drop(s.holds, h))
  }

  /** end_op of an operation that has released its blocks; the last one starts the commit. */
  function NextEnd(s: State, k: nat): State
    requires Shape(s)
  {
    if k >= |s.open| || (exists u :: u in s.holds && u.owner == Some(s.open[k])) then s
    else if |s.open| == 1 && s.dirty != {} then s
    else s.(open := Drop(s.open, k), used := Drop(s.used, k), committing := |s.open| == 1)
  }

  /** The next block write of commit; the header write is the commit point. */
  function NextCommit(g: Layout, home: Disk, s: State): State
    requires Shape(s)
  {
    if !s.committing then s
    else if s.lh == [] then
      s.(committing := false, trace := s.trace + [Committed], points := s.points + [|s.ws|])
    else if |InUse(s)| >= NBUF then s.(panic := NoBufferToCommit)
    else
      var w := NextWrite(g, s.head, Replay(home, s.trace), s.lh, s.stage);
      var t := s.(ws := s.ws + [w], stage := s.stage + 1);
      if s.stage == |s.lh| then t.(head := w.data, trace := s.trace + [Committed], points := s.points + [|s.ws| + 1])
      else if s.stage <= 2 * |s.lh| then t
      else t.(head := w.data, lh := [], stage := 0, committing := false)
  }

  function Next(g: Layout, home: Disk, s: State, call: Call): (t: State)
    requires Shape(s)
    ensures Shape(t)
  {
    match call
    case Begin => NextBegin(s)
    case Read(who, b) => NextRead(g, home, s, who, b)
    case Change(h, data) => NextChange(s, h, data)
    case LogWrite(h) => NextLogWrite(g, s, h)
    case Release(h) => NextRelease(s, h)
    case End(k) => NextEnd(s, k)
    case Commit => NextCommit(g, home, s)
  }

  /** The calls one after the other, up to the first panic. */
  function After(g: Layout, home: Disk, s: State, calls: seq<Call>): (t: State)
    requires Shape(s)
    ensures Shape(t)
    decreases |calls|
  {
    if calls == [] || s.panic != Running then s
    else After(g, home, Next(g, home, s, calls[0]), calls[1..])
  }

  /** The machine that has recovered the given disk. */
  function Boot(g: Layout, disk: Disk): (s: State)
    requires Recoverable(g, disk)
    ensures Shape(s)
  {
    State(Running, 0, [], [], [], {}, [], false, 0, At(Recover(g, disk), g.start), [], [], RecoverWrites(g, disk), [0])
  }

  /** A whole run from boot. */
  function Runs(g: Layout, disk: Disk, calls: seq<Call>): (s: State)
    requires Recoverable(g, disk)
    ensures Shape(s)
  {
    After(g, Recover(g, disk), Boot(g, disk), calls)
  }

  lemma {:induction false} AfterBoth(g: Layout, home: Disk, s: State, a: seq<Call>, b: seq<Call>)
    requires Shape(s)
    ensures After(g, home, s, a + b) == After(g, home, After(g, home, s, a), b)
    decreases |a|
  {
    hide Next;
    if a == [] {
      assert a + b == b;
    } else if s.panic == Running {
      assert (a + b)[1..] == a[1..] + b;
      AfterBoth(g, home, Next(g, home, s, a[0]), a[1..], b);
    }
  }

  // ---- which commit a crash falls back to ----

  /** The last of the points that is not after i. */
  ghost function Latest(points: seq<nat>, i: nat): (k: nat)
    requires points != []
    ensures k < |points|
  {
    var n := |points| - 1;
    if n == 0 || points[n] <= i then n else Latest(points[..n], i)
  }

  /** A crash after any i of the writes recovers the store of the last commit whose point is
      among them. */
  ghost predicate Durable(g: Layout, disk: Disk, ws: seq<Write>, points: seq<nat>, homes: seq<Disk>) {
    && |points| == |homes| > 0 && (forall k :: 0 <= k < |points| ==> points[k] <= |ws|)
    && forall i: nat :: i <= |ws| ==> CrashPoint(g, disk, ws[..i], homes[Latest(points, i)])
  }

  lemma LatestNext(points: seq<nat>, p: nat, i: nat)
    requires points != []
    ensures Latest(points + [p], i) == if p <= i then |points| else Latest(points, i)
  {
    assert (points + [p])[..|points|] == points;
  }

  lemma LatestIsLast(points: seq<nat>, i: nat)
    requires points != [] && forall k :: 0 <= k < |points| ==> points[k] <= i
    ensures Latest(points, i) == |points| - 1
  {}

  lemma RecoverApplies(g: Layout, disk: Disk)
    requires Recoverable(g, disk)
    ensures (forall w :: w in RecoverWrites(g, disk) ==> w.block < |disk|)
    ensures Apply(disk, RecoverWrites(g, disk)) == Recover(g, disk)
  {
    RecoverInRange(g, disk);
  }

  lemma CrashRecovered(g: Layout, disk: Disk)
    requires Recoverable(g, disk)
    ensures (forall w :: w in RecoverWrites(g, disk) ==> w.block < |disk|)
    ensures Apply(disk, RecoverWrites(g, disk)) == Recover(g, disk)
    ensures Durable(g, disk, RecoverWrites(g, disk), [0], [Recover(g, disk)])
  {
    hide Recover, RecoverWrites, HomeEq;
    var ws := RecoverWrites(g, disk);
    RecoverApplies(g, disk);
    forall i: nat | i <= |ws| ensures CrashPoint(g, disk, ws[..i], [Recover(g, disk)][Latest([0], i)]) {
      RecoveryCrash(g, disk, i);
      LatestIsLast([0], i);
    }
  }

  /** One more crash point, behind the writes ws. */
  lemma CrashLater(g: Layout, disk: Disk, ws: seq<Write>, d: Disk, more: seq<Write>, home: Disk, home': Disk)
    requires (forall w :: w in ws ==> w.block < |disk|) && Apply(disk, ws) == d
    requires CrashPoint(g, d, more, home) && HomeEq(g, home, home')
    ensures CrashPoint(g, disk, ws + more, home')
  {
    hide Recover;
    InTwoParts(disk, ws, more);
    HomeTrans(g, Recover(g, Apply(d, more)), home, home');
  }

  lemma CommitDurable(g: Layout, disk: Disk, ws: seq<Write>, points: seq<nat>, homes: seq<Disk>, d: Disk,
                      more: seq<Write>, n: nat, d': Disk, home: Disk)
    requires Durable(g, disk, ws, points, homes)
    requires (forall w :: w in ws ==> w.block < |disk|) && Apply(disk, ws) == d
    requires Recoverable(g, d) && ReadHead(d[g.start]) == []
    requires CrashSafe(g, d, more, n, d') && HomeEq(g, d', home) && (more == [] || n < |more|)
    ensures Durable(g, disk, ws + more, points + [|ws| + if more == [] then 0 else n + 1], homes + [home])
    ensures (forall w :: w in ws + more ==> w.block < |disk|) && Apply(disk, ws + more) == d'
  {
    hide Recover, Apply, HomeEq, CrashPoint, Latest, Recoverable;
    InTwoParts(disk, ws, more);
    var p := |ws| + if more == [] then 0 else n + 1;
    var old_ := homes[|homes| - 1];
    HomeAtRest(g, disk, ws, points, homes, d);
    forall i: nat | i <= |ws + more|
      ensures CrashPoint(g, disk, (ws + more)[..i], (homes + [home])[Latest(points + [p], i)])
    {
      LatestNext(points, p, i);
      if i < |ws| {
        assert (ws + more)[..i] == ws[..i];
      } else {
        var j := i - |ws|;
        assert (ws + more)[..i] == ws + more[..j];
        LatestIsLast(points, i);
        if p <= i {
          if more == [] { ApplyNone(d); }
          CrashLater(g, disk, ws, d, more[..j], d', home);
        } else {
          CrashLater(g, disk, ws, d, more[..j], d, old_);
        }
      }
    }
  }

  /** Between commits the disk itself holds the store of the last commit. */
  lemma HomeAtRest(g: Layout, disk: Disk, ws: seq<Write>, points: seq<nat>, homes: seq<Disk>, d: Disk)
    requires Durable(g, disk, ws, points, homes)
    requires (forall w :: w in ws ==> w.block < |disk|) && Apply(disk, ws) == d
    requires Recoverable(g, d) && ReadHead(d[g.start]) == []
    ensures HomeEq(g, d, homes[|homes| - 1])
  {
    hide Recover, Apply, HomeEq, Recoverable;
    assert ws[..|ws|] == ws;
    LatestIsLast(points, |ws|);
    EmptyRecovers(g, d);
    HomeSym(g, Recover(g, d), d);
    assert CrashPoint(g, disk, ws, homes[|homes| - 1]);
    HomeTrans(g, d, Recover(g, d), homes[|homes| - 1]);
  }

  /** Cut off in the middle of a commit, the run is durable too. */
  lemma PartDurable(g: Layout, disk: Disk, ws: seq<Write>, points: seq<nat>, homes: seq<Disk>, more: seq<Write>, p: nat,
                    home: Disk, i: nat)
    requires |points| == |homes| > 0 && (forall k :: 0 <= k < |points| ==> points[k] <= |ws|)
    requires Durable(g, disk, ws + more, points + [p], homes + [home]) && i <= |more| && p > |ws|
    ensures if |ws| + i < p then Durable(g, disk, ws + more[..i], points, homes)
            else Durable(g, disk, ws + more[..i], points + [p], homes + [home])
  {
    hide CrashPoint, Latest;
    var part := ws + more[..i];
    forall j: nat | j <= |part|
      ensures part[..j] == (ws + more)[..j]
      ensures Latest(points + [p], j) == if p <= j then |points| else Latest(points, j)
    {
      LatestNext(points, p, j);
    }
  }

  // ---- the machine keeps the disk recoverable ----

  /** The writes from before the running commit. */
  ghost function Base(stage: nat, ws: seq<Write>): seq<Write>
    requires stage <= |ws|
  {
    ws[..|ws| - stage]
  }

  /** At rest between commits. */
  ghost predicate Rest(g: Layout, disk: Disk, ws: seq<Write>, points: seq<nat>, homes: seq<Disk>) {
    && (forall w :: w in ws ==> w.block < |disk|) && Recoverable(g, Apply(disk, ws))
    && ReadHead(Apply(disk, ws)[g.start]) == [] && Durable(g, disk, ws, points, homes)
  }

  /** Only listed and dirty blocks of the plain store are newer than the disk. */
  ghost predicate Newer(g: Layout, d: Disk, store: Disk, lh: seq<nat>, dirty: set<nat>) {
    && |store| == |d| && Loggable(g, d, lh)
    && (forall b: nat :: b in dirty ==> !InLog(g, b))
    && forall b: nat :: b < |d| && !InLog(g, b) && store[b] != d[b] ==> b in lh || b in dirty
  }

  /** The home blocks of the store in the log's own surroundings. */
  ghost function Merged(g: Layout, d: Disk, store: Disk): (v: Disk)
    requires |store| == |d|
    ensures |v| == |d| && HomeEq(g, v, store) && forall b: nat :: b < |d| && InLog(g, b) ==> v[b] == d[b]
  {
    seq(|d|, b requires 0 <= b < |d| => if InLog(g, b) then d[b] else store[b])
  }

  ghost function ToCommit(g: Layout, d: Disk, store: Disk, lh: seq<nat>): seq<Write>
    requires 0 < g.size && g.start + g.size <= |d| && |store| == |d| && Loggable(g, d, lh)
  {
    CommitWrites(g, d[g.start], lh, Contents(store, lh))
  }

  lemma ToCommitMerged(g: Layout, d: Disk, store: Disk, lh: seq<nat>)
    requires Recoverable(g, d) && ReadHead(d[g.start]) == [] && Newer(g, d, store, lh, {})
    ensures var ws := ToCommit(g, d, store, lh);
      && (forall w :: w in ws ==> w.block < |d|)
      && Recoverable(g, Apply(d, ws)) && ReadHead(Apply(d, ws)[g.start]) == []
      && HomeEq(g, Apply(d, ws), store) && CrashSafe(g, d, ws, |lh|, Apply(d, ws))
  {
    hide Apply, CommitWrites, CrashSafe, ReadHead;
    var v := Merged(g, d, store);
    assert Contents(v, lh) == Contents(store, lh);
    CommitOutcome(g, v, d, lh);
    HomeTrans(g, Apply(d, ToCommit(g, d, store, lh)), v, store);
  }

  lemma CommitSizes(g: Layout, d: Disk, store: Disk, lh: seq<nat>)
    requires 0 < g.size && g.start + g.size <= |d| && |store| == |d| && Loggable(g, d, lh)
    ensures |ToCommit(g, d, store, lh)| == 2 * |lh| + 2
    ensures forall k: nat :: k < 2 * |lh| + 2 ==>
      ToCommit(g, d, store, lh)[k] == NextWrite(g, if k <= |lh| then d[g.start] else HeadBlock(d[g.start], lh), store, lh, k)
  {}

  /** A whole commit leads from rest to rest. */
  lemma CommitRests(g: Layout, disk: Disk, ws: seq<Write>, points: seq<nat>, homes: seq<Disk>, store: Disk, lh: seq<nat>)
    requires Rest(g, disk, ws, points, homes) && lh != []
    requires Newer(g, Apply(disk, ws), store, lh, {})
    ensures var more := ToCommit(g, Apply(disk, ws), store, lh);
      && Rest(g, disk, ws + more, points + [|ws| + |lh| + 1], homes + [store])
      && Newer(g, Apply(disk, ws + more), store, [], {})
  {
    hide Apply, CommitWrites, CrashSafe, ReadHead, Durable;
    var d := Apply(disk, ws);
    var more := ToCommit(g, d, store, lh);
    ToCommitMerged(g, d, store, lh);
    CommitSizes(g, d, store, lh);
    CommitDurable(g, disk, ws, points, homes, d, more, |lh|, Apply(d, more), store);
  }

  lemma HeadAfter(g: Layout, disk: Disk, ws: seq<Write>, store: Disk, lh: seq<nat>)
    requires (forall w :: w in ws ==> w.block < |disk|) && 0 < g.size && g.start + g.size <= |disk|
    requires |store| == |disk| && Loggable(g, Apply(disk, ws), lh)
    requires forall w :: w in ws + ToCommit(g, Apply(disk, ws), store, lh) ==> w.block < |disk|
    ensures var more := ToCommit(g, Apply(disk, ws), store, lh);
      |more| == 2 * |lh| + 2 && Apply(disk, ws + more)[g.start] == more[2 * |lh| + 1].data
  {
    hide CommitWrites;
    var d := Apply(disk, ws);
    CommitSizes(g, d, store, lh);
  }

  // ---- the invariant ----

  ghost function OldPoints(s: State): seq<nat> {
    if s.stage <= |s.lh| || s.points == [] then s.points else s.points[..|s.points| - 1]
  }

  ghost function OldTrace(s: State): seq<Event> {
    if s.stage <= |s.lh| || s.trace == [] then s.trace else s.trace[..|s.trace| - 1]
  }

  /** What has reached the disk: whole commits and the beginning of one more. */
  ghost predicate Written(g: Layout, disk: Disk, s: State)
    requires Recoverable(g, disk)
  {
    && Shape(s) && s.stage <= |s.ws|
    && var home, ws, n := Recover(g, disk), Base(s.stage, s.ws), |s.lh|;
    && Rest(g, disk, ws, OldPoints(s), Snapshots(home, OldTrace(s)))
    && var d, store := Apply(disk, ws), Replay(home, s.trace);
    && Newer(g, d, store, s.lh, s.dirty)
    && s.head == (if s.stage <= n then d[g.start] else HeadBlock(d[g.start], s.lh))
    && (s.stage > 0 ==>
          && s.dirty == {} && s.lh != [] && s.stage < 2 * n + 2
          && s.ws == ws + ToCommit(g, d, store, s.lh)[..s.stage])
    && (s.stage > n ==>
          s.points == OldPoints(s) + [|ws| + n + 1] && s.trace == OldTrace(s) + [Committed])
  }

  ghost predicate Orderly(g: Layout, disk: Disk, s: State) {
    && (forall u :: u in s.holds ==> u.block < |disk| && !InLog(g, u.block))
    && (forall u :: u in s.holds && u.owner.Some? ==> u.owner.value in s.open)
    && (s.open == [] ==> s.dirty == {}) && (s.committing ==> s.open == [])
    && (s.stage > 0 ==> s.committing)
    && (!s.committing && s.open == [] ==> s.lh == [])
  }

  ghost predicate Sound(g: Layout, disk: Disk, s: State)
    requires Recoverable(g, disk)
  {
    Written(g, disk, s) && Orderly(g, disk, s)
  }

  lemma SoundDurable(g: Layout, disk: Disk, s: State)
    requires Recoverable(g, disk) && Written(g, disk, s)
    ensures Durable(g, disk, s.ws, s.points, Snapshots(Recover(g, disk), s.trace))
  {
    hide Recover, Apply, Durable, CommitWrites, Replay, Snapshots, HomeEq, ToCommit, ReadHead, Newer, HeadBlock;
    if s.stage > 0 {
      MidDurable(g, disk, s);
    } else {
      assert Base(0, s.ws) == s.ws;
    }
  }

  lemma MidDurable(g: Layout, disk: Disk, s: State)
    requires Recoverable(g, disk) && Written(g, disk, s) && s.stage > 0
    ensures Durable(g, disk, s.ws, s.points, Snapshots(Recover(g, disk), s.trace))
  {
    hide Recover, Apply, Durable, CommitWrites, Replay, Snapshots, HomeEq, ToCommit, ReadHead, HeadBlock, Distinct;
    var home, ws, n := Recover(g, disk), Base(s.stage, s.ws), |s.lh|;
    var d, store, homes := Apply(disk, ws), Replay(home, s.trace), Snapshots(home, OldTrace(s));
    CommitRests(g, disk, ws, OldPoints(s), homes, store, s.lh);
    CommitSizes(g, d, store, s.lh);
    TraceNext(home, OldTrace(s), Committed);
    DurablePoints(g, disk, ws, OldPoints(s), homes);
    PartDurable(g, disk, ws, OldPoints(s), homes, ToCommit(g, d, store, s.lh), |ws| + n + 1, store, s.stage);
  }

  lemma DurablePoints(g: Layout, disk: Disk, ws: seq<Write>, points: seq<nat>, homes: seq<Disk>)
    requires Durable(g, disk, ws, points, homes)
    ensures |points| == |homes| > 0 && forall k :: 0 <= k < |points| ==> points[k] <= |ws|
  {}

  lemma BootSound(g: Layout, disk: Disk)
    requires Recoverable(g, disk)
    ensures Sound(g, disk, Boot(g, disk))
  {
    hide Recover, RecoverWrites, Durable, Apply;
    var s := Boot(g, disk);
    CrashRecovered(g, disk);
    RecoverEmpties(g, disk);
    assert Base(0, s.ws) == s.ws;
  }

  /** Nothing that Written speaks of has changed. */
  lemma SameWritten(g: Layout, disk: Disk, s: State, t: State)
    requires Recoverable(g, disk) && Written(g, disk, s) && Shape(t)
    requires t.stage == s.stage && t.ws == s.ws && t.points == s.points && t.trace == s.trace && t.lh == s.lh
    requires t.dirty == s.dirty && t.head == s.head
    ensures Written(g, disk, t)
  {
    hide Recover, Rest, Apply, Replay, Snapshots, ToCommit, Newer;
  }

  lemma ChangeWritten(g: Layout, disk: Disk, s: State, b: nat, data: Data)
    requires Recoverable(g, disk) && Written(g, disk, s) && s.stage == 0 && b < |disk| && !InLog(g, b)
    ensures Written(g, disk, s.(dirty := s.dirty + {b}, trace := s.trace + [Wrote(b, data)]))
  {
    hide Recover, Durable, Apply, Replay, Snapshots, ReadHead, HeadOk, Loggable;
    TraceNext(Recover(g, disk), s.trace, Wrote(b, data));
  }

  lemma LogWritten(g: Layout, disk: Disk, s: State, b: nat, used: seq<nat>)
    requires Recoverable(g, disk) && Written(g, disk, s) && s.stage == 0 && b < |disk| && !InLog(g, b)
    requires |s.lh| < LOGSIZE && |s.lh| < g.size - 1 && |used| == |s.used|
    ensures Written(g, disk, s.(dirty := s.dirty - {b}, used := used, lh := if b in s.lh then s.lh else s.lh + [b]))
  {
    hide Recover, Durable, Apply, Replay, Snapshots, ReadHead, HeadOk;
    var lh := if b in s.lh then s.lh else s.lh + [b];
    assert b in lh && forall c :: c in s.lh ==> c in lh;
  }

  lemma EmptyCommit(g: Layout, disk: Disk, s: State)
    requires Recoverable(g, disk) && Written(g, disk, s) && s.stage == 0 && s.lh == [] && s.dirty == {}
    ensures Written(g, disk, s.(committing := false, trace := s.trace + [Committed], points := s.points + [|s.ws|]))
  {
    hide Recover, Durable, Apply, Replay, Snapshots, ReadHead, HeadOk;
    var home := Recover(g, disk);
    var store, homes := Replay(home, s.trace), Snapshots(home, s.trace);
    var d := Apply(disk, s.ws);
    assert Base(0, s.ws) == s.ws;
    TraceNext(home, s.trace, Committed);
    NoWrites(g, d);
    CommitDurable(g, disk, s.ws, s.points, homes, d, [], 0, d, store);
    assert s.ws + [] == s.ws;
  }

  lemma NoWrites(g: Layout, d: Disk)
    requires Recoverable(g, d) && ReadHead(d[g.start]) == []
    ensures CrashSafe(g, d, [], 0, d)
  {
    EmptyRecovers(g, d);
    ApplyNone(d);
    var none: seq<Write> := [];
    assert none[..0] == [] && CrashPoint(g, d, none[..0], d);
  }

  /** Another write of the running commit. */
  lemma CommitGoesOn(g: Layout, disk: Disk, s: State)
    requires Recoverable(g, disk) && Written(g, disk, s) && s.committing && s.dirty == {} && s.lh != []
    requires |InUse(s)| < NBUF && s.stage <= 2 * |s.lh|
    ensures Written(g, disk, NextCommit(g, Recover(g, disk), s))
  {
    hide Written, Recover, Replay, ToCommit, InUse, NextWrite, HeadBlock, HeadOk, ReadHead, Loggable, Apply, Snapshots, Base;
    WrittenShape(g, disk, s);
    var home := Recover(g, disk);
    var store := Replay(home, s.trace);
    var more := NextOfCommit(g, disk, s);
    TraceNext(home, s.trace, Committed);
    CommitPointWrite(g, s.head, store, s.lh);
    SameBase(g, disk, s, NextCommit(g, home, s), more);
  }

  /** The running commit has gone on, from the same rest. */
  lemma SameBase(g: Layout, disk: Disk, s: State, t: State, more: seq<Write>)
    requires Recoverable(g, disk) && Written(g, disk, s) && Shape(t) && s.dirty == t.dirty == {} && s.lh == t.lh != []
    requires |more| == 2 * |s.lh| + 2 && t.stage == s.stage + 1 < 2 * |s.lh| + 2 && |t.ws| == |s.ws| + 1
    requires more == ToCommit(g, Apply(disk, Base(s.stage, s.ws)), Replay(Recover(g, disk), s.trace), s.lh)
    requires t.ws == Base(s.stage, s.ws) + more[..t.stage]
    requires Replay(Recover(g, disk), t.trace) == Replay(Recover(g, disk), s.trace)
    requires if s.stage == |s.lh| then
        t.head == HeadBlock(s.head, s.lh) && t.trace == s.trace + [Committed] && t.points == s.points + [|s.ws| + 1]
      else t.head == s.head && t.trace == s.trace && t.points == s.points
    ensures Written(g, disk, t)
  {
    hide Recover, Rest, Apply, Replay, Snapshots, ToCommit, Newer, HeadBlock, HeadOk, ReadHead, Loggable;
    assert Base(t.stage, t.ws) == Base(s.stage, s.ws);
    assert OldTrace(t) == OldTrace(s) && OldPoints(t) == OldPoints(s);
  }

  lemma CommitPointWrite(g: Layout, head: Data, store: Disk, lh: seq<nat>)
    requires |lh| <= LOGSIZE
    ensures NextWrite(g, head, store, lh, |lh|) == Write(g.start, HeadBlock(head, lh))
  {}

  /** The next write is the next of those that make up the commit. */
  lemma NextOfCommit(g: Layout, disk: Disk, s: State) returns (more: seq<Write>)
    requires Recoverable(g, disk) && Written(g, disk, s) && s.dirty == {} && s.lh != [] && s.stage < 2 * |s.lh| + 2
    ensures s.stage <= |s.ws| && more == ToCommit(g, Apply(disk, Base(s.stage, s.ws)), Replay(Recover(g, disk), s.trace), s.lh)
    ensures |more| == 2 * |s.lh| + 2 && more[s.stage] == NextWrite(g, s.head, Replay(Recover(g, disk), s.trace), s.lh, s.stage)
    ensures s.ws + [more[s.stage]] == Base(s.stage, s.ws) + more[..s.stage + 1]
  {
    hide Recover, Durable, Apply, Replay, Snapshots, ToCommit, NextWrite, HeadBlock, HeadOk, ReadHead, Loggable;
    var ws := Base(s.stage, s.ws);
    var d, store := Apply(disk, ws), Replay(Recover(g, disk), s.trace);
    more := ToCommit(g, d, store, s.lh);
    CommitSizes(g, d, store, s.lh);
    assert more[..s.stage] + [more[s.stage]] == more[..s.stage + 1];
    assert s.ws == ws + more[..s.stage];
  }

  /** The last write of the running commit. */
  lemma CommitEnds(g: Layout, disk: Disk, s: State)
    requires Recoverable(g, disk) && Written(g, disk, s) && s.committing && s.dirty == {} && s.lh != []
    requires |InUse(s)| < NBUF && s.stage == 2 * |s.lh| + 1
    ensures Written(g, disk, NextCommit(g, Recover(g, disk), s))
  {
    hide Written, Recover, Replay, InUse, NextWrite, HeadBlock, HeadOk, ReadHead, Loggable, Rest, Newer, Snapshots, Apply;
    WrittenShape(g, disk, s);
    NewBase(g, disk, s);
    var t := NextCommit(g, Recover(g, disk), s);
    assert Base(0, t.ws) == t.ws;
    WrittenAtRest(g, disk, t);
  }

  lemma WrittenAtRest(g: Layout, disk: Disk, t: State)
    requires Recoverable(g, disk) && Shape(t) && t.stage == 0
    requires Rest(g, disk, t.ws, t.points, Snapshots(Recover(g, disk), t.trace))
    requires Newer(g, Apply(disk, t.ws), Replay(Recover(g, disk), t.trace), t.lh, t.dirty)
    requires t.head == Apply(disk, t.ws)[g.start]
    ensures Written(g, disk, t)
  {
    hide Recover, Durable, Replay, Snapshots, Newer, Apply, HeadOk, ReadHead, Loggable;
    assert Base(0, t.ws) == t.ws;
  }

  lemma NewBase(g: Layout, disk: Disk, s: State)
    requires Recoverable(g, disk) && Written(g, disk, s) && s.dirty == {} && s.lh != [] && s.stage == 2 * |s.lh| + 1
    ensures var w := NextWrite(g, s.head, Replay(Recover(g, disk), s.trace), s.lh, s.stage);
      && Rest(g, disk, s.ws + [w], s.points, Snapshots(Recover(g, disk), s.trace))
      && Newer(g, Apply(disk, s.ws + [w]), Replay(Recover(g, disk), s.trace), [], {})
      && w.data == Apply(disk, s.ws + [w])[g.start]
  {
    hide Recover, Durable, Apply, Replay, Snapshots, ToCommit, NextWrite, HeadBlock, HeadOk, ReadHead, Distinct, Newer;
    var home, ws := Recover(g, disk), Base(s.stage, s.ws);
    var store := Replay(home, s.trace);
    var more := NextOfCommit(g, disk, s);
    assert more[..s.stage + 1] == more;
    TraceNext(home, OldTrace(s), Committed);
    CommitRests(g, disk, ws, OldPoints(s), Snapshots(home, OldTrace(s)), store, s.lh);
    NewerSizes(g, Apply(disk, ws), store, s.lh);
    HeadAfter(g, disk, ws, store, s.lh);
  }

  lemma NewerSizes(g: Layout, d: Disk, store: Disk, lh: seq<nat>)
    requires Newer(g, d, store, lh, {})
    ensures |store| == |d| && Loggable(g, d, lh)
  {}

  lemma WrittenShape(g: Layout, disk: Disk, s: State)
    requires Recoverable(g, disk) && Written(g, disk, s)
    ensures Shape(s) && s.stage < 2 * |s.lh| + 2 && s.stage <= |s.ws|
    ensures |s.lh| <= LOGSIZE && |s.lh| < g.size
    ensures s.stage > 0 ==> s.lh != []
  {}

  lemma CommitSound(g: Layout, disk: Disk, s: State)
    requires Recoverable(g, disk) && Sound(g, disk, s)
    ensures Shape(s) && Sound(g, disk, NextCommit(g, Recover(g, disk), s))
  {
    hide Recover, Written, Replay, NextWrite, HeadBlock, HeadOk, ReadHead, InUse, Loggable;
    WrittenShape(g, disk, s);
    if s.committing {
      if s.lh == [] { EmptyCommit(g, disk, s); }
      else if |InUse(s)| >= NBUF { SameWritten(g, disk, s, s.(panic := NoBufferToCommit)); }
      else if s.stage <= 2 * |s.lh| { CommitGoesOn(g, disk, s); }
      else { CommitEnds(g, disk, s); }
    }
  }

  lemma LogWriteSound(g: Layout, disk: Disk, s: State, h: nat)
    requires Recoverable(g, disk) && Sound(g, disk, s)
    ensures Shape(s) && Sound(g, disk, NextLogWrite(g, s, h))
  {
    hide Recover, Written, HeadOk, ReadHead, Loggable;
    WrittenShape(g, disk, s);
    var t := NextLogWrite(g, s, h);
    if t.panic != s.panic { SameWritten(g, disk, s, t); }
    else if t != s { LogWritten(g, disk, s, s.holds[h].block, t.used); }
  }

  lemma EndSound(g: Layout, disk: Disk, s: State, k: nat)
    requires Recoverable(g, disk) && Sound(g, disk, s)
    ensures Shape(s) && Sound(g, disk, NextEnd(s, k))
  {
    hide Recover, Written, HeadOk, ReadHead, Loggable;
    WrittenShape(g, disk, s);
    var t := NextEnd(s, k);
    SameWritten(g, disk, s, t);
    if t != s {
      forall u | u in s.holds && u.owner.Some? ensures u.owner.value in t.open {
        var j :| 0 <= j < |s.open| && s.open[j] == u.owner.value;
        assert t.open[if j < k then j else j - 1] == s.open[j];
      }
    }
  }

  lemma ReadSound(g: Layout, disk: Disk, s: State, who: Option<nat>, b: nat)
    requires Recoverable(g, disk) && Sound(g, disk, s)
    ensures Sound(g, disk, NextRead(g, Recover(g, disk), s, who, b))
  {
    hide Recover, Written, HeadOk, ReadHead, Loggable, InUse, Replay;
    WrittenShape(g, disk, s);
    SameWritten(g, disk, s, NextRead(g, Recover(g, disk), s, who, b));
  }

  lemma NextSound(g: Layout, disk: Disk, s: State, call: Call)
    requires Recoverable(g, disk) && Sound(g, disk, s)
    ensures Shape(s) && Sound(g, disk, Next(g, Recover(g, disk), s, call))
  {
    hide Recover, Written, Replay, HeadOk, ReadHead, InUse, Loggable, NextCommit, NextLogWrite, NextEnd, NextRead;
    WrittenShape(g, disk, s);
    match call
    case Begin => SameWritten(g, disk, s, NextBegin(s));
    case Read(who, b) => ReadSound(g, disk, s, who, b);
    case Change(h, data) =>
      if h < |s.holds| && s.holds[h].owner.Some? { ChangeWritten(g, disk, s, s.holds[h].block, data); }
    case LogWrite(h) => LogWriteSound(g, disk, s, h);
    case Release(h) => SameWritten(g, disk, s, NextRelease(s, h));
    case End(k) => EndSound(g, disk, s, k);
    case Commit => CommitSound(g, disk, s);
  }

  lemma {:induction false} AfterSound(g: Layout, disk: Disk, s: State, calls: seq<Call>)
    requires Recoverable(g, disk) && Sound(g, disk, s)
    ensures Shape(s) && Sound(g, disk, After(g, Recover(g, disk), s, calls))
    decreases |calls|
  {
    hide Recover, Sound, Next, Recoverable;
    NextSound(g, disk, s, Begin);
    if calls != [] && s.panic == Running {
      NextSound(g, disk, s, calls[0]);
      AfterSound(g, disk, Next(g, Recover(g, disk), s, calls[0]), calls[1..]);
    }
  }

  /** Whatever the calls, and after however many of the block writes since boot the machine
      stops, the next recovery brings back the plain store as it was at the last commit whose
      header had been written. */
  lemma RunDurable(g: Layout, disk: Disk, calls: seq<Call>)
    requires Recoverable(g, disk)
    ensures var s := Runs(g, disk, calls); Durable(g, disk, s.ws, s.points, Snapshots(Recover(g, disk), s.trace))
  {
    hide Written, Durable, Boot, After, Recover, Recoverable;
    BootSound(g, disk);
    AfterSound(g, disk, Boot(g, disk), calls);
    SoundDurable(g, disk, Runs(g, disk, calls));
  }
}
