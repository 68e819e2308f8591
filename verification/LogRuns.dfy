/** The log over the buffer cache, called by operations that read, change, log and release blocks
    and by readers outside of them (kernel/log.c, kernel/file/bio.c): every run is the run of the
    machine in LogCalls. */
module LogRuns {
  import opened Options
  import opened DiskBlocks
  import opened LogRecovery
  import opened BufferCache
  import opened RedoLog
  import opened LogCalls

  datatype Hold = Hold(owner: Option<nat>, buf: nat)

  function Bufs(holds: seq<Hold>): (s: seq<nat>)
    ensures |s| == |holds|
  {
    seq(|holds|, i requires 0 <= i < |holds| => holds[i].buf)
  }

  /** The blocks in the buffers that are held. */
  ghost function Uses(holds: seq<Hold>, bs: seq<Buf>): (s: seq<Use>)
    ensures |s| == |holds|
  {
    seq(|holds|, i requires 0 <= i < |holds| =>
      Use(holds[i].owner, if holds[i].buf < |bs| then bs[holds[i].buf].blockno else 0))
  }

  ghost predicate Owned(open: seq<nat>, holds: seq<Hold>) {
    forall h :: 0 <= h < |holds| && holds[h].owner.Some? ==> holds[h].owner.value in open
  }

  lemma HoldAdded(holds: seq<Hold>, h: Hold)
    ensures multiset(Bufs(holds + [h])) == multiset(Bufs(holds)) + multiset{h.buf}
  {
    assert Bufs(holds + [h]) == Bufs(holds) + [h.buf];
  }

  lemma HoldDropped(holds: seq<Hold>, bs: seq<Buf>, k: nat)
    requires k < |holds|
    ensures multiset(Bufs(Drop(holds, k))) == multiset(Bufs(holds)) - multiset{holds[k].buf}
    ensures Uses(Drop(holds, k), bs) == Drop(Uses(holds, bs), k)
  {
    var s := Bufs(holds);
    assert Bufs(Drop(holds, k)) == Drop(s, k);
    hide Bufs, Uses;
    DroppedOne(s, k);
    UsesDropped(holds, bs, k);
  }

  lemma DroppedOne(s: seq<nat>, k: nat)
    requires k < |s|
    ensures multiset(Drop(s, k)) == multiset(s) - multiset{s[k]}
  {
    assert s == (s[..k] + [s[k]]) + s[k + 1..];
  }

  lemma UsesDropped(holds: seq<Hold>, bs: seq<Buf>, k: nat)
    requires k < |holds|
    ensures Uses(Drop(holds, k), bs) == Drop(Uses(holds, bs), k)
  {}

  lemma HeldBuffer(holds: seq<Hold>, k: nat)
    requires k < |holds|
    ensures multiset(Bufs(holds))[holds[k].buf] > 0
  {
    assert Bufs(holds)[k] in multiset(Bufs(holds));
  }

  lemma AllHeld(dev: nat, bs: seq<Buf>, g: Layout, p: seq<nat>, holds: seq<Hold>)
    requires Refs(dev, bs, g, p, multiset(Bufs(holds)))
    ensures forall k :: 0 <= k < |holds| ==> holds[k].buf < |bs| && bs[holds[k].buf].refcnt > 0 && bs[holds[k].buf].dev == dev
  {
    forall k | 0 <= k < |holds| ensures holds[k].buf < |bs| && bs[holds[k].buf].refcnt > 0 && bs[holds[k].buf].dev == dev {
      HeldBuffer(holds, k);
    }
  }

  ghost predicate InBuffers(holds: seq<Hold>, bs: seq<Buf>) {
    forall k :: 0 <= k < |holds| ==> holds[k].buf < |bs| && bs[holds[k].buf].refcnt > 0
  }

  lemma UsesRead(holds: seq<Hold>, bs: seq<Buf>, bs': seq<Buf>, h: Hold, b: nat)
    requires InBuffers(holds, bs) && |bs'| == |bs| && h.buf < |bs| && bs' == bs[h.buf := bs'[h.buf]]
    requires bs'[h.buf].blockno == b && (bs[h.buf].refcnt > 0 ==> bs[h.buf].blockno == b)
    ensures Uses(holds + [h], bs') == Uses(holds, bs) + [Use(h.owner, b)]
  {}

  /** Buffers that are not handed on keep their blocks. */
  lemma UsesReleased(holds: seq<Hold>, bs: seq<Buf>, bs': seq<Buf>)
    requires InBuffers(holds, bs) && |bs'| == |bs| && forall i :: 0 <= i < |bs| ==> bs'[i].blockno == bs[i].blockno
    ensures Uses(holds, bs') == Uses(holds, bs)
  {}

  lemma UsesSame(holds: seq<Hold>, bs: seq<Buf>, bs': seq<Buf>, given: set<nat>)
    requires SameUse(bs, bs', given) && InBuffers(holds, bs')
    ensures Uses(holds, bs') == Uses(holds, bs)
  {}

  lemma OwnersAdded(open: seq<nat>, holds: seq<Hold>, h: Hold)
    requires Owned(open, holds) && (h.owner.Some? ==> h.owner.value in open)
    ensures Owned(open, holds + [h])
  {}

  lemma DropOwners(open: seq<nat>, holds: seq<Hold>, k: nat)
    requires k < |holds| && Owned(open, holds)
    ensures Owned(open, Drop(holds, k))
  {
    var rest := Drop(holds, k);
    assert forall h :: 0 <= h < |rest| ==> rest[h] == holds[if h < k then h else h + 1];
  }

  lemma ClosedOwners(open: seq<nat>, holds: seq<Hold>, k: nat)
    requires k < |open| && Owned(open, holds)
    requires forall h :: 0 <= h < |holds| ==> holds[h].owner != Some(open[k])
    ensures Owned(Drop(open, k), holds)
  {
    forall h | 0 <= h < |holds| && holds[h].owner.Some? ensures holds[h].owner.value in Drop(open, k) {
      var j :| 0 <= j < |open| && open[j] == holds[h].owner.value;
      assert Drop(open, k)[if j < k then j else j - 1] == open[j];
    }
  }

  lemma Owners(holds: seq<Hold>, bs: seq<Buf>, id: nat)
    ensures (exists h :: 0 <= h < |holds| && holds[h].owner == Some(id)) <==>
      exists u :: u in Uses(holds, bs) && u.owner == Some(id)
  {
    var us := Uses(holds, bs);
    if h :| 0 <= h < |holds| && holds[h].owner == Some(id) { assert us[h] in us; }
    if u :| u in us && u.owner == Some(id) {
      var h :| 0 <= h < |us| && us[h] == u;
      assert holds[h].owner == Some(id);
    }
  }

  // ---- the cache and the disk against the plain store ----

  /** The home blocks in the cache are the plain store, and the disk is what was written. */
  ghost predicate Mirror(g: Layout, boot: Disk, view: Disk, disk: Disk, ws: seq<Write>, trace: seq<Event>) {
    && Recoverable(g, boot) && HomeEq(g, view, Replay(Recover(g, boot), trace))
    && (forall w :: w in ws ==> w.block < |boot|) && Apply(boot, ws) == disk
  }

  lemma MirrorChange(g: Layout, boot: Disk, view: Disk, disk: Disk, ws: seq<Write>, trace: seq<Event>, b: nat, data: Data)
    requires Mirror(g, boot, view, disk, ws, trace) && b < |view| && !InLog(g, b)
    ensures Mirror(g, boot, view[b := data], disk, ws, trace + [Wrote(b, data)])
    ensures At(view[b := data], g.start) == At(view, g.start)
  {
    hide Recover, Replay, Apply, HeadOk, ReadHead, Loggable;
    TraceNext(Recover(g, boot), trace, Wrote(b, data));
  }

  lemma MirrorCommit(g: Layout, boot: Disk, view: Disk, disk: Disk, ws: seq<Write>, trace: seq<Event>)
    requires Mirror(g, boot, view, disk, ws, trace)
    ensures Mirror(g, boot, view, disk, ws, trace + [Committed])
  {
    hide Recover, Replay, Apply, Recoverable;
    TraceNext(Recover(g, boot), trace, Committed);
  }

  /** A write of commit sends the plain store's contents and changes no home block in the cache. */
  lemma MirrorWrite(g: Layout, boot: Disk, view: Disk, disk: Disk, ws: seq<Write>, trace: seq<Event>, lh: seq<nat>, k: nat)
    requires Mirror(g, boot, view, disk, ws, trace) && LogOnDisk(g, disk, view, lh, k) && lh != []
    ensures |lh| <= LOGSIZE && g.start < |view| == |disk|
    ensures var w := NextWrite(g, view[g.start], view, lh, k);
      && w == NextWrite(g, view[g.start], Replay(Recover(g, boot), trace), lh, k) && w.block < |view|
      && Mirror(g, boot, view[w.block := w.data], disk[w.block := w.data], ws + [w], trace)
      && view[w.block := w.data][g.start] == if k == |lh| || k > 2 * |lh| then w.data else view[g.start]
  {
    hide Recover, Replay, Apply, HeadOk, ReadHead, HeadBlock, Copied, Distinct;
    var w := NextWrite(g, view[g.start], view, lh, k);
    assert InLog(g, g.start) && (k < |lh| ==> InLog(g, g.start + 1 + k));
    AppliedNext(boot, ws, w);
  }

  lemma AppliedNext(boot: Disk, ws: seq<Write>, w: Write)
    requires (forall v :: v in ws ==> v.block < |boot|) && w.block < |boot|
    ensures forall v :: v in ws + [w] ==> v.block < |boot|
    ensures Apply(boot, ws + [w]) == Apply(boot, ws)[w.block := w.data]
  {
    assert (ws + [w])[..|ws|] == ws;
  }

  // ---- referenced buffers, counted by their blocks ----

  /** The blocks in the referenced ones of the first n buffers. */
  ghost function Occupied(bs: seq<Buf>, n: nat): (s: set<nat>)
    requires n <= |bs|
  {
    if n == 0 then {} else Occupied(bs, n - 1) + if bs[n - 1].refcnt > 0 then {bs[n - 1].blockno} else {}
  }

  lemma {:induction false} InOccupied(bs: seq<Buf>, n: nat, b: nat)
    requires n <= |bs|
    ensures b in Occupied(bs, n) <==> exists i :: 0 <= i < n && bs[i].refcnt > 0 && bs[i].blockno == b
  {
    if n > 0 { InOccupied(bs, n - 1, b); }
  }

  lemma {:induction false} CountOccupied(dev: nat, bs: seq<Buf>, disk: Disk, view: Disk, n: nat)
    requires Coherent(dev, bs, disk, view) && n <= |bs|
    ensures |Occupied(bs, n)| <= n
    ensures |Occupied(bs, n)| == n <==> forall i :: 0 <= i < n ==> bs[i].refcnt > 0
  {
    if n > 0 {
      CountOccupied(dev, bs, disk, view, n - 1);
      InOccupied(bs, n - 1, bs[n - 1].blockno);
    }
  }

  lemma NoneLeft(dev: nat, bs: seq<Buf>, disk: Disk, view: Disk, b: nat)
    requires Coherent(dev, bs, disk, view)
    ensures NoneFor(dev, bs, b) <==> b !in Occupied(bs, |bs|) && |Occupied(bs, |bs|)| >= |bs|
  {
    hide Occupied;
    CountOccupied(dev, bs, disk, view, |bs|);
    InOccupied(bs, |bs|, b);
  }

  lemma SpareLeft(dev: nat, bs: seq<Buf>, disk: Disk, view: Disk)
    requires Coherent(dev, bs, disk, view)
    ensures Spare(bs) <==> |Occupied(bs, |bs|)| < |bs|
  {
    hide Occupied;
    CountOccupied(dev, bs, disk, view, |bs|);
  }

  /** The referenced buffers are those of the held and the pinned blocks. */
  lemma BuffersInUse(dev: nat, bs: seq<Buf>, g: Layout, p: seq<nat>, holds: seq<Hold>)
    requires AllKept(dev, bs, p) && Refs(dev, bs, g, p, multiset(Bufs(holds)))
    ensures Held(Uses(holds, bs)) + (set b | b in p) == Occupied(bs, |bs|)
  {
    hide AllKept, Refs, Occupied;
    forall b: nat ensures b in Held(Uses(holds, bs)) + (set c | c in p) <==> b in Occupied(bs, |bs|) {
      InOccupied(bs, |bs|, b);
      BlockInUse(dev, bs, g, p, holds, b);
    }
  }

  lemma BlockInUse(dev: nat, bs: seq<Buf>, g: Layout, p: seq<nat>, holds: seq<Hold>, b: nat)
    requires AllKept(dev, bs, p) && Refs(dev, bs, g, p, multiset(Bufs(holds)))
    ensures b in Held(Uses(holds, bs)) + (set c | c in p) <==>
      exists i :: 0 <= i < |bs| && bs[i].refcnt > 0 && bs[i].blockno == b
  {
    var us := Uses(holds, bs);
    AllHeld(dev, bs, g, p, holds);
    if b in Held(us) {
      var k :| 0 <= k < |us| && us[k].block == b;
      assert bs[holds[k].buf].blockno == b;
    }
    if b in p { assert KeptIn(dev, bs, b); }
    if i :| 0 <= i < |bs| && bs[i].refcnt > 0 && bs[i].blockno == b {
      if i in Bufs(holds) {
        var k :| 0 <= k < |holds| && Bufs(holds)[k] == i;
        assert us[k].block == b && us[k] in us;
      } else {
        assert multiset(Bufs(holds))[i] == 0;
      }
    }
  }

  /** The callers of the log, and what they have to remember to keep to its rules. */
  class Callers {
    const log: Log
    var panic: Panic
    var born: nat
    var open: seq<nat>
    var used: seq<nat>
    var holds: seq<Hold>
    var dirty: set<nat>
    var got: seq<Data>
    ghost const boot: Disk
    ghost var trace: seq<Event>
    ghost var points: seq<nat>

    ghost predicate Bookkeeping()
      reads this, log
    {
      && used == log.ops && |open| == |used| && dirty == log.touched
      && log.held == multiset(Bufs(holds)) && log.cache.bufs.Length == NBUF
      && Owned(open, holds)
    }

    ghost predicate Mirrored()
      reads this`trace, log.cache
    {
      Mirror(log.g, boot, log.cache.view, log.cache.disk, log.cache.writes, trace)
    }

    ghost predicate Valid()
      reads this, log, log.cache, log.cache.bufs, log.cache.lru
    {
      log.Valid() && Bookkeeping() && Mirrored()
    }

    /** The state of the machine that the callers, the log and the cache are in. */
    ghost function Now(): State
      reads this, log, log.cache, log.cache.bufs
    {
      State(panic, born, open, used, Uses(holds, log.cache.bufs[..]), dirty, log.lh, log.committing, log.stage,
            At(log.cache.view, log.g.start), got, trace, log.cache.writes, points)
    }

    lemma Fits()
      requires Valid()
      ensures Shape(Now()) && log.cache.Valid()
    {
      hide Coherent, Refs, AllKept, Copied, Recoverable, Recover, Replay, Apply, Uses;
    }

    /** Boot: an empty cache, then initlog. */
    constructor (dev: nat, g: Layout, disk: Disk)
      requires dev > 0 && Recoverable(g, disk)
      ensures Valid() && fresh(log) && fresh(log.cache) && fresh(log.cache.bufs) && fresh(log.cache.lru)
      ensures log.g == g && boot == disk && Now() == Boot(g, disk)
    {
      hide Recoverable, Recover, RecoverWrites, Log.Valid, Cache.Valid, Apply, At;
      var c := new Cache(dev, disk);
      log := new Log(c, g);
      panic, born, open, used, holds, dirty, got := Running, 0, [], [], [], {}, [];
      boot, trace, points := disk, [], [0];
      assert c.writes == RecoverWrites(g, disk);
      CrashRecovered(g, disk);
    }

    /** begin_op, which may have to be tried again. */
    method DoBegin()
      requires Valid()
      modifies this, log
      ensures Valid() && Now() == NextBegin(old(Now()))
    {
      hide Log.Valid, Mirrored, Uses;
      log.Counted();
      var ok := log.BeginOp();
      if ok {
        open, used, born := open + [born], used + [0], born + 1;
      }
    }

    /** The buffers that bget could use, in terms of the blocks in use. */
    lemma Left(b: nat)
      requires Valid()
      ensures Spare(log.cache.bufs[..]) <==> |InUse(Now())| < NBUF
      ensures NoneFor(log.cache.dev, log.cache.bufs[..], b) <==> b !in InUse(Now()) && |InUse(Now())| >= NBUF
    {
      hide Coherent, Refs, AllKept, LogOnDisk, Recoverable, Recover, Replay, Apply, Uses, Spare, NoneFor, Occupied;
      var c, p := log.cache, Pinned(log.lh, log.stage);
      BuffersInUse(c.dev, c.bufs[..], log.g, p, holds);
      SpareLeft(c.dev, c.bufs[..], c.disk, c.view);
      NoneLeft(c.dev, c.bufs[..], c.disk, c.view, b);
    }

    lemma StoreSize()
      requires Valid()
      ensures Recoverable(log.g, boot) && |log.cache.disk| == |boot| == |Recover(log.g, boot)|
      ensures InBuffers(holds, log.cache.bufs[..])
    {
      hide Replay, Recover, Apply, Recoverable, Refs, AllKept, Coherent, LogOnDisk;
      AllHeld(log.cache.dev, log.cache.bufs[..], log.g, Pinned(log.lh, log.stage), holds);
    }

    lemma StoreAt(b: nat)
      requires Valid() && b < |log.cache.disk| && !InLog(log.g, b)
      ensures Recoverable(log.g, boot)
      ensures b < |log.cache.view| && log.cache.view[b] == At(Replay(Recover(log.g, boot), trace), b)
    {
      hide Replay, Recover, Apply, Recoverable, Refs, AllKept, Coherent, LogOnDisk;
    }

    method ReadBlock(owner: Option<nat>, b: nat)
      requires Valid() && panic == Running && b < |log.cache.disk| && !InLog(log.g, b)
      requires owner.Some? ==> owner.value in open
      modifies this, log, log.cache.bufs
      ensures Valid() && Recoverable(log.g, boot)
      ensures var s := old(Now());
        Now() == if b !in InUse(s) && |InUse(s)| >= NBUF then s.(panic := NoBuffers)
                 else s.(holds := s.holds + [Use(owner, b)], got := s.got + [At(Replay(Recover(log.g, boot), s.trace), b)])
    {
      hide Log.Valid, Mirrored, Recoverable, Recover, Replay, Uses, InUse, At, InBuffers, NoneFor, Spare, Bufs, Owned;
      StoreSize();
      StoreAt(b);
      Left(b);
      ghost var bs := log.cache.bufs[..];
      var r := log.Read(b);
      if r.None? {
        panic := NoBuffers;
      } else {
        var h := Hold(owner, r.value);
        HoldAdded(holds, h);
        UsesRead(holds, bs, log.cache.bufs[..], h, b);
        OwnersAdded(open, holds, h);
        holds := holds + [h];
        got := got + [log.cache.bufs[r.value].data];
      }
    }

    method DoRead(who: Option<nat>, b: nat)
      requires Valid() && panic == Running
      modifies this, log, log.cache.bufs
      ensures Valid() && Recoverable(log.g, boot)
      ensures Now() == NextRead(log.g, Recover(log.g, boot), old(Now()), who, b)
    {
      hide Log.Valid, Bookkeeping, Mirrored, Recoverable, Recover, Replay, Uses, InUse, At, InBuffers;
      StoreSize();
      if b >= |log.cache.disk| || InLog(log.g, b) { return; }
      if who.Some? && who.value >= |open| { return; }
      ReadBlock(if who.Some? then Some(open[who.value]) else None, b);
    }

    /** The block that a hold is on. */
    lemma HeldBlock(h: nat)
      requires Valid() && h < |holds|
      ensures var i := holds[h].buf;
        && log.held[i] > 0 && i < log.cache.bufs.Length && log.cache.bufs[i].blockno < |log.cache.disk| == |log.cache.view|
        && !InLog(log.g, log.cache.bufs[i].blockno)
        && Now().holds[h] == Use(holds[h].owner, log.cache.bufs[i].blockno)
    {
      hide Log.Valid, Mirrored;
      HeldBuffer(holds, h);
      log.HeldInRange(holds[h].buf);
    }

    method DoRelease(h: nat)
      requires Valid()
      modifies this, log, log.cache.bufs, log.cache.lru
      ensures Valid() && Now() == NextRelease(old(Now()), h)
    {
      hide Log.Valid, Mirrored, Uses, InBuffers, Bufs, Drop;
      if h >= |holds| { return; }
      HeldBlock(h);
      var i := holds[h].buf;
      if log.cache.bufs[i].blockno in dirty { return; }
      StoreSize();
      ghost var bs := log.cache.bufs[..];
      log.Release(i);
      UsesReleased(holds, bs, log.cache.bufs[..]);
      HoldDropped(holds, log.cache.bufs[..], h);
      DropOwners(open, holds, h);
      holds := Drop(holds, h);
    }

    /** Only an operation changes a block. */
    method DoChange(h: nat, data: Data)
      requires Valid()
      modifies this, log, log.cache, log.cache.bufs
      ensures Valid() && Now() == NextChange(old(Now()), h, data)
    {
      hide Log.Valid, Mirror, Uses, InBuffers, Bufs, At;
      if h >= |holds| { return; }
      HeldBlock(h);
      if holds[h].owner.None? { return; }
      var i := holds[h].buf;
      var b := log.cache.bufs[i].blockno;
      StoreSize();
      ghost var bs := log.cache.bufs[..];
      log.Counted();
      MirrorChange(log.g, boot, log.cache.view, log.cache.disk, log.cache.writes, trace, b, data);
      log.Modify(i, data);
      UsesReleased(holds, bs, log.cache.bufs[..]);
      dirty := dirty + {b};
      trace := trace + [Wrote(b, data)];
    }

    /** log_write by the operation in slot k, which has not used up its share. */
    method LogBlock(i: nat, k: nat)
      requires Valid() && log.held[i] > 0 && i < log.cache.bufs.Length && k < |open|
      requires log.cache.bufs[i].blockno in log.lh || used[k] < MAXOPBLOCKS
      modifies this, log, log.cache.bufs
      ensures Valid()
      ensures var s, b := old(Now()), old(log.cache.bufs[i].blockno);
        Now() == if |s.lh| >= LOGSIZE || |s.lh| >= log.g.size - 1 then s.(panic := TooBig)
                 else if b in s.lh then s.(dirty := s.dirty - {b})
                 else s.(dirty := s.dirty - {b}, lh := s.lh + [b], used := s.used[k := s.used[k] + 1])
    {
      hide Log.Valid, Mirrored, Uses, InBuffers, Bufs, At, Owned;
      StoreSize();
      log.Counted();
      ghost var bs := log.cache.bufs[..];
      var b := log.cache.bufs[i].blockno;
      var listed := b in log.lh;
      var full := log.LogWrite(i, k);
      UsesReleased(holds, bs, log.cache.bufs[..]);
      if full {
        panic := TooBig;
      } else {
        dirty := dirty - {b};
        if !listed { used := used[k := used[k] + 1]; }
      }
    }

    method DoLogWrite(h: nat)
      requires Valid()
      modifies this, log, log.cache.bufs
      ensures Valid() && Shape(old(Now())) && Now() == NextLogWrite(log.g, old(Now()), h)
    {
      hide Log.Valid, Mirrored, Uses, InBuffers, Bufs, At, Slot;
      Fits();
      if h >= |holds| { return; }
      HeldBlock(h);
      if holds[h].owner.None? { return; }
      var i := holds[h].buf;
      var k := Find(holds[h].owner.value);
      if log.cache.bufs[i].blockno !in log.lh && used[k] >= MAXOPBLOCKS { return; }
      LogBlock(i, k);
    }

    method Find(id: nat) returns (k: nat)
      requires id in open
      ensures k < |open| && k == Slot(open, id)
    {
      k := 0;
      while open[k] != id
        invariant k < |open| && id in open[k..] && Slot(open, id) == k + Slot(open[k..], id)
        decreases |open| - k
      {
        assert open[k..][1..] == open[k + 1..];
        k := k + 1;
      }
    }

    /** An operation releases its buffers before end_op. */
    method DoEnd(k: nat)
      requires Valid()
      modifies this, log
      ensures Valid() && Shape(old(Now())) && Now() == NextEnd(old(Now()), k)
    {
      hide Log.Valid, Mirrored, Uses, InBuffers, Bufs, At;
      Fits();
      if k >= |open| { return; }
      Owners(holds, log.cache.bufs[..], open[k]);
      if exists h :: 0 <= h < |holds| && holds[h].owner == Some(open[k]) { return; }
      if |open| == 1 && dirty != {} { return; }
      log.Counted();
      ClosedOwners(open, holds, k);
      var last := log.EndOp(k);
      used := Drop(used, k);
      open := Drop(open, k);
    }

    lemma StageOnDisk()
      requires Valid() && log.committing
      ensures LogOnDisk(log.g, log.cache.disk, log.cache.view, log.lh, log.stage)
      ensures Mirror(log.g, boot, log.cache.view, log.cache.disk, log.cache.writes, trace)
      ensures log.stage < 2 * |log.lh| + 2 && (log.lh == [] ==> log.stage == 0)
    {}

    lemma StillHeld()
      requires log.Valid() && Bookkeeping()
      ensures InBuffers(holds, log.cache.bufs[..])
    {
      hide Refs, AllKept, Coherent, LogOnDisk;
      AllHeld(log.cache.dev, log.cache.bufs[..], log.g, Pinned(log.lh, log.stage), holds);
    }

    method DoCommit()
      requires Valid() && panic == Running
      modifies this, log, log.cache, log.cache.bufs, log.cache.lru
      ensures Valid() && Shape(old(Now())) && Recoverable(log.g, boot)
      ensures Now() == NextCommit(log.g, Recover(log.g, boot), old(Now()))
    {
      hide Log.Valid, Mirror, Uses, InBuffers, Bufs, InUse, Recoverable, Recover, Replay, Spare,
           NoneFor, SameUse, HeadBlock, NextWrite, LogOnDisk, Owned;
      Fits();
      StoreSize();
      if !log.committing { return; }
      Left(0);
      ghost var s, bs, home := Now(), log.cache.bufs[..], Recover(log.g, boot);
      StageOnDisk();
      if log.lh != [] { MirrorWrite(log.g, boot, log.cache.view, log.cache.disk, log.cache.writes, trace, log.lh, log.stage); }
      var full := log.CommitStep();
      StillHeld();
      if full {
        panic := NoBufferToCommit;
        return;
      }
      MirrorCommit(log.g, boot, log.cache.view, log.cache.disk, log.cache.writes, trace);
      if s.lh != [] { UsesSame(holds, bs, log.cache.bufs[..], Unpinned(s.lh, s.stage)); }
      if s.stage == |s.lh| {
        trace, points := trace + [Committed], points + [|s.ws| + if s.lh == [] then 0 else 1];
      }
    }

    lemma Final()
      requires Valid()
      ensures (forall w :: w in log.cache.writes ==> w.block < |boot|) && log.cache.disk == Apply(boot, log.cache.writes)
    {
      hide Log.Valid, Bookkeeping, Recoverable, HomeEq;
    }

    /** Every call, whoever makes it, does to the callers, the log and the cache what it does to
        the machine. */
    method Step(call: Call)
      requires Valid() && panic == Running
      modifies this, log, log.cache, log.cache.bufs, log.cache.lru
      ensures Valid() && Shape(old(Now())) && Recoverable(log.g, boot)
      ensures Now() == Next(log.g, Recover(log.g, boot), old(Now()), call)
    {
      hide Bookkeeping, Mirrored, Log.Valid, Now, NextBegin, NextRead, NextChange, NextLogWrite, NextRelease,
           NextEnd, NextCommit, Shape, Recoverable, Recover;
      Fits();
      StoreSize();
      match call
      case Begin => DoBegin();
      case Read(who, b) => DoRead(who, b);
      case Change(h, data) => DoChange(h, data);
      case LogWrite(h) => DoLogWrite(h);
      case Release(h) => DoRelease(h);
      case End(k) => DoEnd(k);
      case Commit => DoCommit();
    }
  }

  /** Any run from any disk that recovery can start from is the machine's: it panics where the
      machine does, the reads return what the plain store holds, and the disk is what the
      machine's writes make of it. After however many of these writes the machine stops, the
      next recovery brings back the plain store as it was at the last commit whose header had
      been written. */
  method Run(dev: nat, g: Layout, disk: Disk, calls: seq<Call>) returns (panic: Panic, got: seq<Data>, after: seq<Data>)
    requires dev > 0 && Recoverable(g, disk)
    ensures var s := Runs(g, disk, calls);
      && panic == s.panic && got == s.got
      && (forall w :: w in s.ws ==> w.block < |disk|) && after == Apply(disk, s.ws)
      && Durable(g, disk, s.ws, s.points, Snapshots(Recover(g, disk), s.trace))
  {
    hide Callers.Valid, Durable, Snapshots, Recover, Next, Boot, Recoverable, Shape;
    ghost var home := Recover(g, disk);
    var c := new Callers(dev, g, disk);
    var i := 0;
    assert calls[0..] == calls;
    while i < |calls| && c.panic == Running
      invariant i <= |calls| && c.Valid() && c.log.g == g && c.boot == disk && Shape(c.Now())
      invariant After(g, home, c.Now(), calls[i..]) == Runs(g, disk, calls)
      invariant fresh(c) && fresh(c.log) && fresh(c.log.cache) && fresh(c.log.cache.bufs) && fresh(c.log.cache.lru)
    {
      assert calls[i..][0] == calls[i] && calls[i..][1..] == calls[i + 1..];
      c.Step(calls[i]);
      i := i + 1;
    }
    RunDurable(g, disk, calls);
    c.Final();
    panic, got, after := c.panic, c.got, c.log.cache.disk;
  }
}
