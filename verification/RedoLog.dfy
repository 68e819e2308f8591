/** The redo log over the buffer cache (kernel/log.c). */
module RedoLog {
  import opened Options
  import opened DiskBlocks
  import opened LogRecovery
  import opened BufferCache

  /** Some referenced, valid buffer holds block b. */
  ghost predicate KeptIn(dev: nat, bs: seq<Buf>, b: nat) {
    exists i :: 0 <= i < |bs| && Caches(bs[i], dev, b) && bs[i].valid && bs[i].refcnt > 0
  }

  ghost predicate Spare(bs: seq<Buf>) {
    exists i :: 0 <= i < |bs| && bs[i].refcnt == 0
  }

  ghost predicate TwoSpare(bs: seq<Buf>) {
    exists i, j :: 0 <= i < j < |bs| && bs[i].refcnt == bs[j].refcnt == 0
  }

  /** bget finds no buffer for block b: none holds it and every one is referenced. */
  ghost predicate NoneFor(dev: nat, bs: seq<Buf>, b: nat) {
    forall i :: 0 <= i < |bs| ==> !Caches(bs[i], dev, b) && bs[i].refcnt > 0
  }

  lemma SpareFor(dev: nat, bs: seq<Buf>, b: nat)
    requires Spare(bs)
    ensures !NoneFor(dev, bs, b)
  {}

  /** Buffers that stay in use stay with their block, and no reference changes except that
      one to each of the given blocks is dropped. */
  ghost predicate SameUse(bs: seq<Buf>, bs': seq<Buf>, given: set<nat>) {
    && |bs'| == |bs|
    && (forall i :: 0 <= i < |bs| && bs'[i].refcnt > 0 ==>
          bs'[i].dev == bs[i].dev && bs'[i].blockno == bs[i].blockno && (bs[i].valid ==> bs'[i].valid))
    && (forall i :: 0 <= i < |bs| ==>
          bs'[i].refcnt + (if bs[i].refcnt > 0 && bs[i].blockno in given then 1 else 0) == bs[i].refcnt)
  }

  /** Buffers l and h were taken from bs for blocks lb and hb. */
  ghost predicate Taken(dev: nat, bs: seq<Buf>, bs': seq<Buf>, disk: Disk, view: Disk, lb: nat, hb: nat, l: nat, h: nat) {
    && |bs'| == |bs| && l < |bs| && h < |bs| && l != h && lb < |disk| == |view| && hb < |disk|
    && Caches(bs'[l], dev, lb) && bs'[l].valid && bs'[l].data == view[lb] && bs'[l].refcnt == bs[l].refcnt + 1
    && Caches(bs'[h], dev, hb) && bs'[h].valid && bs'[h].data == view[hb] && bs'[h].refcnt == bs[h].refcnt + 1
    && (bs[l].refcnt > 0 ==> Caches(bs[l], dev, lb)) && (bs[l].refcnt == 0 ==> view[lb] == disk[lb])
    && (bs[h].refcnt > 0 ==> Caches(bs[h], dev, hb)) && (bs[h].refcnt == 0 ==> view[hb] == disk[hb])
    && (forall i :: 0 <= i < |bs| && i != l && i != h ==> bs'[i] == bs[i] && !(bs[i].refcnt > 0 && bs[i].blockno == hb))
  }

  /** bread of two blocks; None when the first finds no buffer, which is a panic. */
  method Take(c: Cache, lb: nat, hb: nat) returns (l: Option<nat>, h: nat)
    requires c.Valid() && lb != hb && lb < |c.disk| && hb < |c.disk|
    requires KeptIn(c.dev, c.bufs[..], hb) || TwoSpare(c.bufs[..])
    modifies c.bufs
    ensures c.Valid()
    ensures l.None? <==> forall i :: 0 <= i < c.bufs.Length ==>
      !Caches(old(c.bufs[i]), c.dev, lb) && old(c.bufs[i].refcnt) > 0
    ensures l.None? ==> c.bufs[..] == old(c.bufs[..]) && !Spare(c.bufs[..])
    ensures l.Some? ==> Taken(c.dev, old(c.bufs[..]), c.bufs[..], c.disk, c.view, lb, hb, l.value, h)
  {
    hide Coherent, Cache.Ring;
    ghost var bs := c.bufs[..];
    h := 0;
    l := c.Bread(lb);
    if l.None? { return; }
    ghost var bs1 := c.bufs[..];
    SecondBuffer(c.dev, bs, bs1, l.value, lb, hb);
    var r := c.Bread(hb);
    h := r.value;
    TakenBoth(c.dev, bs, bs1, c.bufs[..], c.disk, c.view, lb, hb, l.value, h);
  }

  lemma TakenBoth(dev: nat, bs: seq<Buf>, bs1: seq<Buf>, bs2: seq<Buf>, disk: Disk, view: Disk,
                  lb: nat, hb: nat, l: nat, h: nat)
    requires Coherent(dev, bs, disk, view) && Coherent(dev, bs2, disk, view)
    requires lb != hb && lb < |disk| && hb < |disk| && |bs| == |bs1| == |bs2| && l < |bs| && h < |bs|
    requires bs1 == bs[l := bs1[l]] && bs2 == bs1[h := bs2[h]]
    requires Caches(bs1[l], dev, lb) && bs1[l].valid && bs1[l].data == view[lb] && bs1[l].refcnt == bs[l].refcnt + 1
    requires Caches(bs2[h], dev, hb) && bs2[h].valid && bs2[h].data == view[hb] && bs2[h].refcnt == bs1[h].refcnt + 1
    requires bs[l].refcnt == 0 || Caches(bs[l], dev, lb)
    requires bs1[h].refcnt == 0 || Caches(bs1[h], dev, hb)
    ensures Taken(dev, bs, bs2, disk, view, lb, hb, l, h)
  {
    assert l != h;
    if bs[l].refcnt == 0 {
      NotKept(dev, bs, bs2, disk, view, l, lb);
      CleanUnlessKept(dev, bs, disk, view, lb);
    }
    if bs[h].refcnt == 0 {
      NotKept(dev, bs, bs2, disk, view, h, hb);
      CleanUnlessKept(dev, bs, disk, view, hb);
    }
  }

  lemma TakenFacts(dev: nat, bs: seq<Buf>, bs': seq<Buf>, disk: Disk, view: Disk, lb: nat, hb: nat, l: nat, h: nat)
    requires Taken(dev, bs, bs', disk, view, lb, hb, l, h)
    ensures l < |bs'| == |bs| && h < |bs'| && l != h && lb < |disk| == |view| && hb < |disk|
    ensures Caches(bs'[l], dev, lb) && bs'[l].valid && bs'[l].data == view[lb] && bs'[l].refcnt == bs[l].refcnt + 1
    ensures Caches(bs'[h], dev, hb) && bs'[h].valid && bs'[h].data == view[hb] && bs'[h].refcnt == bs[h].refcnt + 1
    ensures (bs[l].refcnt == 0 ==> view[lb] == disk[lb]) && (bs[h].refcnt == 0 ==> view[hb] == disk[hb])
  {}

  /** Releasing both buffers, and unpinning the second n times, with other data in them. */
  lemma GivenBack(dev: nat, bs: seq<Buf>, bs1: seq<Buf>, bs': seq<Buf>, disk: Disk, view: Disk, lb: nat, hb: nat,
                  l: nat, h: nat, n: nat)
    requires Taken(dev, bs, bs1, disk, view, lb, hb, l, h) && lb != hb && n <= 1 && n <= bs[h].refcnt
    requires |bs'| == |bs| && forall i :: 0 <= i < |bs| && i != l && i != h ==> bs'[i] == bs1[i]
    requires bs'[l] == bs1[l].(data := bs'[l].data, refcnt := bs[l].refcnt)
    requires bs'[h] == bs1[h].(data := bs'[h].data, refcnt := bs[h].refcnt - n)
    ensures SameUse(bs, bs', if n == 1 then {hb} else {})
  {}

  /** A block that was put into an unreferenced buffer was not kept in another one. */
  lemma NotKept(dev: nat, bs: seq<Buf>, bs': seq<Buf>, disk: Disk, view: Disk, x: nat, b: nat)
    requires Coherent(dev, bs', disk, view) && |bs| == |bs'| && x < |bs| && bs[x].refcnt == 0 && Caches(bs'[x], dev, b)
    requires forall i :: 0 <= i < |bs| && bs[i].refcnt > 0 ==> bs'[i].dev == bs[i].dev && bs'[i].blockno == bs[i].blockno
    ensures !KeptIn(dev, bs, b)
  {}

  /** One reference to buffer i less. */
  ghost function Dropped(bs: seq<Buf>, i: nat): seq<Buf>
    requires i < |bs|
  {
    bs[i := bs[i].(refcnt := if bs[i].refcnt > 0 then bs[i].refcnt - 1 else 0)]
  }

  /** Nobody holds a block of the log. */
  ghost predicate LogFree(dev: nat, bs: seq<Buf>, g: Layout) {
    forall i :: 0 <= i < |bs| && bs[i].refcnt > 0 && bs[i].dev == dev ==> !InLog(g, bs[i].blockno)
  }

  /** Nothing has changed in the cache or on the disk. */
  twostate predicate Untouched(c: Cache)
    reads c, c.bufs
  {
    c.bufs[..] == old(c.bufs[..]) && c.disk == old(c.disk) && c.view == old(c.view) && c.writes == old(c.writes)
  }

  /** One block write, of what the cache now holds there. */
  twostate predicate Wrote(c: Cache, w: Write)
    reads c
  {
    && w.block < |old(c.disk)| == |old(c.view)|
    && c.disk == old(c.disk)[w.block := w.data] && c.view == old(c.view)[w.block := w.data]
    && c.writes == old(c.writes) + [w]
  }

  /** The loop body of write_log: the cached home block goes to its log block. `panic` is
      bget's, when no buffer is left for the log block. */
  method CopyToLog(c: Cache, lb: nat, hb: nat) returns (panic: bool)
    requires c.Valid() && lb != hb && lb < |c.disk| && hb < |c.disk|
    requires KeptIn(c.dev, c.bufs[..], hb)
    requires forall i :: 0 <= i < c.bufs.Length && c.bufs[i].refcnt > 0 ==> !Caches(c.bufs[i], c.dev, lb)
    modifies c`disk, c`writes, c`view, c.bufs, c.lru
    ensures c.Valid()
    ensures panic <==> !Spare(old(c.bufs[..]))
    ensures panic ==> Untouched(c)
    ensures !panic ==>
      && c.view == old(c.view)[lb := old(c.view)[hb]]
      && c.disk == old(c.disk)[lb := old(c.view)[hb]]
      && c.writes == old(c.writes) + [Write(lb, old(c.view)[hb])]
      && SameUse(old(c.bufs[..]), c.bufs[..], {})
  {
    hide Coherent, Cache.Ring, Taken, SameUse;
    ghost var bs := c.bufs[..];
    assert forall i :: 0 <= i < |bs| ==> bs[i] == c.bufs[i];
    var r, from := Take(c, lb, hb);
    if r.None? { return true; }
    assert Spare(bs);
    var to := r.value;
    ghost var bs1, disk, view := c.bufs[..], c.disk, c.view;
    TakenFacts(c.dev, bs, bs1, disk, view, lb, hb, to, from);
    c.Modify(to, c.bufs[from].data);
    c.Bwrite(to);
    c.Brelse(from);
    c.Brelse(to);
    panic := false;
    GivenBack(c.dev, bs, bs1, c.bufs[..], disk, view, lb, hb, to, from, 0);
  }

  /** The loop body of install_trans: the log block goes to its home block, which is unpinned
      unless this is recovery. `panic` is bget's, when no buffer is left for the log block. */
  method CopyHome(c: Cache, lb: nat, hb: nat, recovering: bool) returns (panic: bool)
    requires c.Valid() && lb != hb && lb < |c.disk| && hb < |c.disk|
    requires if recovering then TwoSpare(c.bufs[..]) else KeptIn(c.dev, c.bufs[..], hb)
    modifies c`disk, c`writes, c`view, c.bufs, c.lru
    ensures c.Valid()
    ensures panic <==> NoneFor(c.dev, old(c.bufs[..]), lb)
    ensures panic ==> Untouched(c)
    ensures !panic ==>
      && c.view == old(c.view)[hb := old(c.view)[lb]]
      && c.disk == old(c.disk)[hb := old(c.view)[lb]]
      && c.writes == old(c.writes) + [Write(hb, old(c.view)[lb])]
      && SameUse(old(c.bufs[..]), c.bufs[..], if recovering then {} else {hb})
  {
    hide Coherent, Cache.Ring, Taken, SameUse, Spare, TwoSpare, KeptIn;
    ghost var bs := c.bufs[..];
    assert forall i :: 0 <= i < |bs| ==> bs[i] == c.bufs[i];
    var l, dbuf := Take(c, lb, hb);
    if l.None? { return true; }
    panic := false;
    var lbuf := l.value;
    ghost var bs1, disk, view := c.bufs[..], c.disk, c.view;
    TakenFacts(c.dev, bs, bs1, disk, view, lb, hb, lbuf, dbuf);
    if !recovering { KeptReferenced(c.dev, bs, bs1, disk, view, lb, hb, lbuf, dbuf); }
    c.Modify(dbuf, c.bufs[lbuf].data);
    c.Bwrite(dbuf);
    if !recovering {
      c.Bunpin(dbuf);
    }
    c.Brelse(lbuf);
    c.Brelse(dbuf);
    GivenBack(c.dev, bs, bs1, c.bufs[..], disk, view, lb, hb, lbuf, dbuf, if recovering then 0 else 1);
  }

  lemma KeptReferenced(dev: nat, bs: seq<Buf>, bs': seq<Buf>, disk: Disk, view: Disk, lb: nat, hb: nat, l: nat, h: nat)
    requires Taken(dev, bs, bs', disk, view, lb, hb, l, h) && KeptIn(dev, bs, hb) && lb != hb
    ensures bs[h].refcnt > 0
  {}

  lemma CleanUnlessKept(dev: nat, bs: seq<Buf>, disk: Disk, view: Disk, b: nat)
    requires Coherent(dev, bs, disk, view) && b < |disk|
    ensures KeptIn(dev, bs, b) || view[b] == disk[b]
  {}

  lemma SecondBuffer(dev: nat, bs: seq<Buf>, bs1: seq<Buf>, l: nat, lb: nat, hb: nat)
    requires KeptIn(dev, bs, hb) || TwoSpare(bs)
    requires lb != hb && l < |bs| == |bs1| && bs1 == bs[l := bs1[l]] && Caches(bs1[l], dev, lb)
    requires bs[l].refcnt == 0 || Caches(bs[l], dev, lb)
    ensures exists i :: 0 <= i < |bs1| && (Caches(bs1[i], dev, hb) || bs1[i].refcnt == 0)
  {
    if KeptIn(dev, bs, hb) {
      var i :| 0 <= i < |bs| && Caches(bs[i], dev, hb) && bs[i].valid && bs[i].refcnt > 0;
      assert i == l || bs1[i] == bs[i];
    } else {
      var i, j :| 0 <= i < j < |bs| && bs[i].refcnt == bs[j].refcnt == 0;
      assert bs1[i] == bs[i] || bs1[j] == bs[j];
    }
  }

  lemma SameUseRefl(bs: seq<Buf>)
    ensures SameUse(bs, bs, {})
  {}

  lemma SameUseTrans(a: seq<Buf>, b: seq<Buf>, c: seq<Buf>, x: set<nat>, y: set<nat>, z: set<nat>)
    requires SameUse(a, b, x) && SameUse(b, c, y) && x !! y && z == x + y
    ensures SameUse(a, c, z)
  {}

  lemma StillKept(dev: nat, bs: seq<Buf>, bs': seq<Buf>, given: set<nat>, b: nat)
    requires SameUse(bs, bs', given) && KeptIn(dev, bs, b) && b !in given
    ensures KeptIn(dev, bs', b)
  {
    var i :| 0 <= i < |bs| && Caches(bs[i], dev, b) && bs[i].valid && bs[i].refcnt > 0;
    assert Caches(bs'[i], dev, b);
  }

  lemma StillFree(dev: nat, bs: seq<Buf>, bs': seq<Buf>, g: Layout)
    requires SameUse(bs, bs', {}) && LogFree(dev, bs, g)
    ensures LogFree(dev, bs', g)
  {}

  lemma StillSpare(bs: seq<Buf>, bs': seq<Buf>, given: set<nat>)
    requires SameUse(bs, bs', given)
    ensures Spare(bs) ==> Spare(bs')
    ensures TwoSpare(bs) ==> TwoSpare(bs')
  {
    if Spare(bs) {
      var i :| 0 <= i < |bs| && bs[i].refcnt == 0;
      assert bs'[i].refcnt == 0;
    }
    if TwoSpare(bs) {
      var i, j :| 0 <= i < j < |bs| && bs[i].refcnt == bs[j].refcnt == 0;
      assert bs'[i].refcnt == bs'[j].refcnt == 0;
    }
  }

  /** write_head; `panic` is bget's. */
  method WriteHead(c: Cache, start: nat, lh: seq<nat>) returns (panic: bool)
    requires c.Valid() && start < |c.disk| && |lh| <= LOGSIZE
    modifies c`disk, c`writes, c`view, c.bufs, c.lru
    ensures c.Valid() && |old(c.view)| == |old(c.disk)|
    ensures panic <==> NoneFor(c.dev, old(c.bufs[..]), start)
    ensures panic ==> Untouched(c)
    ensures !panic ==>
      && c.view == old(c.view)[start := HeadBlock(old(c.view)[start], lh)]
      && c.disk == old(c.disk)[start := HeadBlock(old(c.view)[start], lh)]
      && c.writes == old(c.writes) + [Write(start, HeadBlock(old(c.view)[start], lh))]
      && SameUse(old(c.bufs[..]), c.bufs[..], {})
  {
    hide Coherent, Cache.Ring, HeadBlock;
    c.Sizes();
    ghost var bs := c.bufs[..];
    assert forall i :: 0 <= i < |bs| ==> bs[i] == c.bufs[i];
    var r := c.Bread(start);
    if r.None? { return true; }
    panic := false;
    var b := r.value;
    c.Modify(b, HeadBlock(c.bufs[b].data, lh));
    c.Bwrite(b);
    c.Brelse(b);
  }

  /** The view of the blocks listed in lh. */
  ghost function Contents(view: Disk, lh: seq<nat>): (data: seq<Data>)
    requires forall i :: 0 <= i < |lh| ==> lh[i] < |view|
    ensures |data| == |lh| && forall i :: 0 <= i < |lh| ==> data[i] == view[lh[i]]
  {
    seq(|lh|, i requires 0 <= i < |lh| => view[lh[i]])
  }

  lemma ApplySnoc(disk: Disk, ws: seq<Write>, i: nat)
    requires i < |ws| && forall w :: w in ws ==> w.block < |disk|
    ensures (forall w :: w in ws[..i] ==> w.block < |disk|) && (forall w :: w in ws[..i + 1] ==> w.block < |disk|)
    ensures ws[i] in ws && Apply(disk, ws[..i + 1]) == Apply(disk, ws[..i])[ws[i].block := ws[i].data]
  {
    assert ws[..i + 1][..i] == ws[..i];
  }

  ghost predicate AllKept(dev: nat, bs: seq<Buf>, lh: seq<nat>) {
    forall j :: 0 <= j < |lh| ==> KeptIn(dev, bs, lh[j])
  }

  /** write_log: exactly the log writes of the transaction, whose contents come from the
      cache and not from stale disk copies. It panics at the first block or not at all. */
  method WriteLog(c: Cache, g: Layout, lh: seq<nat>) returns (panic: bool)
    requires c.Valid() && 0 < g.size && g.start + g.size <= |c.disk| && Loggable(g, c.disk, lh)
    requires AllKept(c.dev, c.bufs[..], lh) && LogFree(c.dev, c.bufs[..], g)
    modifies c`disk, c`writes, c`view, c.bufs, c.lru
    ensures c.Valid()
    ensures panic <==> lh != [] && !Spare(old(c.bufs[..]))
    ensures panic ==> Untouched(c)
    ensures var data := Contents(old(c.view), lh);
      !panic ==>
        && SameUse(old(c.bufs[..]), c.bufs[..], {})
        && (forall w :: w in LogWrites(g, data) ==> w.block < |old(c.disk)| == |old(c.view)|)
        && c.writes == old(c.writes) + LogWrites(g, data)
        && c.disk == Apply(old(c.disk), LogWrites(g, data))
        && c.view == Apply(old(c.view), LogWrites(g, data))
  {
    hide Cache.Valid, SameUse, KeptIn, Spare, LogWrites, Apply, Contents, LogFree;
    c.Sizes();
    ghost var view, disk := c.view, c.disk;
    ghost var data := Contents(view, lh);
    ghost var ws := LogWrites(g, data);
    ghost var bs := c.bufs[..];
    LogInRange(g, disk, data);
    SameUseRefl(bs);
    var tail := 0;
    assert ws[..0] == [];
    ApplyNone(disk);
    ApplyNone(view);
    while tail < |lh|
      invariant tail <= |lh| && c.Valid() && |c.disk| == |disk| && |c.view| == |view|
      invariant SameUse(bs, c.bufs[..], {})
      invariant tail == 0 ==> Untouched(c)
      invariant tail > 0 ==> Spare(bs)
      invariant c.writes == old(c.writes) + ws[..tail]
      invariant forall w :: w in ws[..tail] ==> w.block < |disk|
      invariant c.disk == Apply(disk, ws[..tail]) && c.view == Apply(view, ws[..tail])
    {
      StillKept(c.dev, bs, c.bufs[..], {}, lh[tail]);
      StillSpare(bs, c.bufs[..], {});
      StillFree(c.dev, bs, c.bufs[..], g);
      LogUnheld(c.dev, c.bufs[..], g, g.start + tail + 1);
      ghost var bs1 := c.bufs[..];
      ApplyOther(view, ws[..tail], lh[tail]);
      ApplySnoc(view, ws, tail);
      ApplySnoc(disk, ws, tail);
      panic := CopyToLog(c, g.start + tail + 1, lh[tail]);
      if panic { return; }
      SameUseTrans(bs, bs1, c.bufs[..], {}, {}, {});
      assert ws[..tail + 1] == ws[..tail] + [ws[tail]];
      tail := tail + 1;
    }
    panic := false;
    assert ws[..|ws|] == ws;
  }

  lemma LogUnheld(dev: nat, bs: seq<Buf>, g: Layout, lb: nat)
    requires LogFree(dev, bs, g) && InLog(g, lb)
    ensures forall i :: 0 <= i < |bs| && bs[i].refcnt > 0 ==> !Caches(bs[i], dev, lb)
  {}

  lemma ApplyNone(disk: Disk)
    ensures Apply(disk, []) == disk
  {}

  lemma LogInRange(g: Layout, disk: Disk, data: seq<Data>)
    requires g.start + g.size <= |disk| && |data| < g.size
    ensures |LogWrites(g, data)| == |data| && forall w :: w in LogWrites(g, data) ==> w.block < |disk|
    ensures forall i :: 0 <= i < |data| ==> LogWrites(g, data)[i] == Write(g.start + 1 + i, data[i])
  {}

  ghost function Listed(lh: seq<nat>): set<nat> {
    set i | 0 <= i < |lh| :: lh[i]
  }

  lemma ListedNext(lh: seq<nat>, i: nat)
    requires i < |lh| && Distinct(lh)
    ensures Listed(lh[..i + 1]) == Listed(lh[..i]) + {lh[i]} && lh[i] !in Listed(lh[..i])
  {
    assert forall b :: b in Listed(lh[..i + 1]) <==> b in Listed(lh[..i]) || b == lh[i] by {
      forall b | b in Listed(lh[..i]) || b == lh[i] ensures b in Listed(lh[..i + 1]) {
        if b == lh[i] { assert lh[..i + 1][i] == b; } else {
          var j :| 0 <= j < |lh[..i]| && lh[..i][j] == b;
          assert lh[..i + 1][j] == b;
        }
      }
    }
  }

  lemma ListedNone(lh: seq<nat>)
    ensures Listed(lh[..0]) == {}
  {}

  /** install_trans: exactly the install writes of the transaction. */
  method InstallTrans(c: Cache, g: Layout, lh: seq<nat>, recovering: bool)
    requires c.Valid() && 0 < g.size && g.start + g.size <= |c.disk| && Loggable(g, c.disk, lh)
    requires Spare(c.bufs[..])
    requires if recovering then TwoSpare(c.bufs[..]) else AllKept(c.dev, c.bufs[..], lh)
    modifies c`disk, c`writes, c`view, c.bufs, c.lru
    ensures c.Valid() && SameUse(old(c.bufs[..]), c.bufs[..], if recovering then {} else Listed(lh))
    ensures |old(c.view)| == |old(c.disk)|
    ensures var data := LogBlocks(g, old(c.view), |lh|);
      && (forall w :: w in InstallWrites(lh, data) ==> w.block < |old(c.disk)|)
      && c.writes == old(c.writes) + InstallWrites(lh, data)
      && c.disk == Apply(old(c.disk), InstallWrites(lh, data))
      && c.view == Apply(old(c.view), InstallWrites(lh, data))
  {
    hide Cache.Valid, SameUse, KeptIn, Spare, TwoSpare, InstallWrites, Apply, Listed, NoneFor, Untouched;
    c.Sizes();
    ghost var view, disk := c.view, c.disk;
    ghost var data := LogBlocks(g, view, |lh|);
    ghost var ws := InstallWrites(lh, data);
    ghost var bs := c.bufs[..];
    InstallFacts(g, disk, view, lh);
    SameUseRefl(bs);
    var tail := 0;
    assert ws[..0] == [];
    ApplyNone(disk);
    ApplyNone(view);
    ghost var given: set<nat> := {};
    ListedNone(lh);
    while tail < |lh|
      invariant tail <= |lh| && c.Valid()
      invariant given == if recovering then {} else Listed(lh[..tail])
      invariant SameUse(bs, c.bufs[..], given)
      invariant c.writes == old(c.writes) + ws[..tail]
      invariant forall w :: w in ws[..tail] ==> w.block < |disk| == |view|
      invariant c.disk == Apply(disk, ws[..tail]) && c.view == Apply(view, ws[..tail])
    {
      hide Loggable, InLog, AllKept, LogBlocks, Distinct;
      InstallNext(g, disk, view, lh, tail);
      if !recovering { KeptAt(c.dev, bs, lh, tail); }
      ListedOnce(g, disk, lh, tail);
      if !recovering { StillKept(c.dev, bs, c.bufs[..], given, lh[tail]); }
      StillSpare(bs, c.bufs[..], given);
      ghost var bs1 := c.bufs[..];
      SpareFor(c.dev, bs1, g.start + tail + 1);
      var panic := CopyHome(c, g.start + tail + 1, lh[tail], recovering);
      ghost var next := if recovering then {} else given + {lh[tail]};
      SameUseTrans(bs, bs1, c.bufs[..], given, if recovering then {} else {lh[tail]}, next);
      given := next;
      tail := tail + 1;
    }
    assert ws[..|ws|] == ws && lh[..|lh|] == lh;
  }

  lemma KeptAt(dev: nat, bs: seq<Buf>, lh: seq<nat>, j: nat)
    requires AllKept(dev, bs, lh) && j < |lh|
    ensures KeptIn(dev, bs, lh[j])
  {}

  lemma ListedOnce(g: Layout, disk: Disk, lh: seq<nat>, i: nat)
    requires Loggable(g, disk, lh) && i < |lh|
    ensures Listed(lh[..i + 1]) == Listed(lh[..i]) + {lh[i]} && lh[i] !in Listed(lh[..i])
  {
    ListedNext(lh, i);
  }

  /** The next of the install writes: the log block is as it was, and goes home. */
  lemma InstallNext(g: Layout, disk: Disk, view: Disk, lh: seq<nat>, i: nat)
    requires 0 < g.size && g.start + g.size <= |disk| == |view| && Loggable(g, disk, lh) && i < |lh|
    ensures var ws, lb := InstallWrites(lh, LogBlocks(g, view, |lh|)), g.start + i + 1;
      && |ws| == |lh| && lb < |disk| && lh[i] < |disk| && lb != lh[i]
      && ws[..i + 1] == ws[..i] + [Write(lh[i], view[lb])]
      && (forall w :: w in ws[..i] ==> w.block < |disk|) && (forall w :: w in ws[..i + 1] ==> w.block < |disk|)
      && Apply(view, ws[..i])[lb] == view[lb]
      && Apply(view, ws[..i + 1]) == Apply(view, ws[..i])[lh[i] := view[lb]]
      && Apply(disk, ws[..i + 1]) == Apply(disk, ws[..i])[lh[i] := view[lb]]
  {
    hide Apply, InstallWrites;
    var ws := InstallWrites(lh, LogBlocks(g, view, |lh|));
    InstallFacts(g, disk, view, lh);
    ApplyOther(view, ws[..i], g.start + i + 1);
    ApplySnoc(view, ws, i);
    ApplySnoc(disk, ws, i);
    assert ws[..i + 1] == ws[..i] + [ws[i]];
  }

  lemma InstallFacts(g: Layout, disk: Disk, view: Disk, lh: seq<nat>)
    requires g.start + g.size <= |disk| == |view| && Loggable(g, disk, lh)
    ensures var data := LogBlocks(g, view, |lh|);
      && |data| == |lh| == |InstallWrites(lh, data)|
      && (forall i :: 0 <= i < |lh| ==> data[i] == view[g.start + 1 + i] && InstallWrites(lh, data)[i] == Write(lh[i], data[i]))
      && (forall w :: w in InstallWrites(lh, data) ==> w.block < |disk| && !InLog(g, w.block))
  {}

  /** commit of a transaction that is not empty: the block writes are those of CommitWrites,
      in that order. With every buffer referenced it panics before the first of them. */
  method CommitBlocks(c: Cache, g: Layout, lh: seq<nat>) returns (panic: bool)
    requires c.Valid() && 0 < g.size && g.start + g.size <= |c.disk| && Loggable(g, c.disk, lh) && lh != []
    requires AllKept(c.dev, c.bufs[..], lh) && LogFree(c.dev, c.bufs[..], g)
    modifies c`disk, c`writes, c`view, c.bufs, c.lru
    ensures c.Valid() && |old(c.view)| == |old(c.disk)|
    ensures panic <==> !Spare(old(c.bufs[..]))
    ensures panic ==> Untouched(c)
    ensures var ws := CommitWrites(g, old(c.view)[g.start], lh, Contents(old(c.view), lh));
      !panic ==>
        && SameUse(old(c.bufs[..]), c.bufs[..], Listed(lh))
        && (forall w :: w in ws ==> w.block < |old(c.disk)|)
        && c.writes == old(c.writes) + ws
        && c.disk == Apply(old(c.disk), ws)
        && c.view == Apply(old(c.view), ws)
  {
    hide Cache.Valid, SameUse, AllKept, Spare, Apply, Listed, LogWrites, InstallWrites, HeadBlock, LogFree, LogBlocks, InLog, Distinct;
    c.Sizes();
    ghost var view0, disk0, bs0, w0 := c.view, c.disk, c.bufs[..], c.writes;
    ghost var data := Contents(view0, lh);
    ghost var head := view0[g.start];
    CommitInRange(g, disk0, head, lh, data);
    LogInRange(g, disk0, data);
    panic := WriteLog(c, g, lh);
    if panic { return; }
    ghost var bs1 := c.bufs[..];
    HeadUntouched(g, view0, data);
    StillSpare(bs0, bs1, {});
    SpareFor(c.dev, bs1, g.start);
    panic := WriteHead(c, g.start, lh);
    ghost var bs2 := c.bufs[..];
    SameUseTrans(bs0, bs1, bs2, {}, {}, {});
    StillSpare(bs0, bs2, {});
    AllStillKept(c.dev, bs0, bs2, lh);
    LogBlocksBack(g, view0, lh, data, HeadBlock(head, lh));
    InstallTrans(c, g, lh, false);
    ghost var bs3 := c.bufs[..];
    SameUseTrans(bs0, bs2, bs3, {}, Listed(lh), Listed(lh));
    StillSpare(bs0, bs3, Listed(lh));
    HeadAfterInstall(g, view0, lh, data, HeadBlock(head, lh));
    SpareFor(c.dev, bs3, g.start);
    panic := WriteHead(c, g.start, []);
    SameUseTrans(bs0, bs3, c.bufs[..], Listed(lh), {}, Listed(lh));
    FourParts(g, disk0, head, lh, data);
    FourParts(g, view0, head, lh, data);
    assert c.writes == w0 + CommitWrites(g, head, lh, data);
  }

  lemma AllStillKept(dev: nat, bs: seq<Buf>, bs': seq<Buf>, lh: seq<nat>)
    requires SameUse(bs, bs', {}) && AllKept(dev, bs, lh)
    ensures AllKept(dev, bs', lh)
  {
    hide KeptIn, SameUse;
    forall j | 0 <= j < |lh| ensures KeptIn(dev, bs', lh[j]) {
      StillKept(dev, bs, bs', {}, lh[j]);
    }
  }

  lemma HeadUntouched(g: Layout, view: Disk, data: seq<Data>)
    requires 0 < g.size && g.start + g.size <= |view| && |data| < g.size
    ensures forall w :: w in LogWrites(g, data) ==> w.block < |view|
    ensures Apply(view, LogWrites(g, data))[g.start] == view[g.start]
  {
    ApplyOther(view, LogWrites(g, data), g.start);
  }

  /** What write_log put into the log blocks is what install_trans reads back. */
  lemma LogBlocksBack(g: Layout, view: Disk, lh: seq<nat>, data: seq<Data>, h: Data)
    requires 0 < g.size && g.start + g.size <= |view| && |data| == |lh| < g.size
    ensures forall w :: w in LogWrites(g, data) ==> w.block < |view|
    ensures LogBlocks(g, Apply(view, LogWrites(g, data))[g.start := h], |lh|) == data
  {
    hide Apply, LogWrites;
    LogBlocksWritten(g, view, data);
    var e := Apply(view, LogWrites(g, data))[g.start := h];
    var d := LogBlocks(g, e, |lh|);
    forall i | 0 <= i < |lh| ensures d[i] == data[i] {
      assert d[i] == e[g.start + 1 + i];
    }
  }

  lemma HeadAfterInstall(g: Layout, view: Disk, lh: seq<nat>, data: seq<Data>, h: Data)
    requires 0 < g.size && g.start + g.size <= |view| && Loggable(g, view, lh) && |data| == |lh|
    ensures forall w :: w in LogWrites(g, data) ==> w.block < |view|
    ensures forall w :: w in InstallWrites(lh, data) ==> w.block < |view|
    ensures Apply(Apply(view, LogWrites(g, data))[g.start := h], InstallWrites(lh, data))[g.start] == h
  {
    LogInRange(g, view, data);
    InstallInRange(view, lh, data);
    ApplyOther(Apply(view, LogWrites(g, data))[g.start := h], InstallWrites(lh, data), g.start);
  }

  lemma OneWrite(disk: Disk, w: Write)
    requires w.block < |disk|
    ensures Apply(disk, [w]) == disk[w.block := w.data]
  {
    assert [w][..0] == [];
  }

  lemma FourParts(g: Layout, disk: Disk, head: Data, lh: seq<nat>, data: seq<Data>)
    requires 0 < g.size && g.start + g.size <= |disk| && Loggable(g, disk, lh) && |data| == |lh|
    ensures forall w :: w in CommitWrites(g, head, lh, data) ==> w.block < |disk|
    ensures forall w :: w in LogWrites(g, data) ==> w.block < |disk|
    ensures forall w :: w in InstallWrites(lh, data) ==> w.block < |disk|
    ensures Apply(disk, CommitWrites(g, head, lh, data)) ==
      Apply(Apply(disk, LogWrites(g, data))[g.start := HeadBlock(head, lh)], InstallWrites(lh, data))
        [g.start := HeadBlock(HeadBlock(head, lh), [])]
  {
    hide Apply, LogWrites, InstallWrites, HeadBlock;
    LogInRange(g, disk, data);
    InstallInRange(disk, lh, data);
    CommitInRange(g, disk, head, lh, data);
    var a, b := LogWrites(g, data), Write(g.start, HeadBlock(head, lh));
    var c, d := InstallWrites(lh, data), Write(g.start, HeadBlock(HeadBlock(head, lh), []));
    assert CommitWrites(g, head, lh, data) == ((a + [b]) + c) + [d];
    ApplyConcat(disk, (a + [b]) + c, [d]);
    ApplyConcat(disk, a + [b], c);
    ApplyConcat(disk, a, [b]);
    OneWrite(Apply(disk, a), b);
    OneWrite(Apply(disk, (a + [b]) + c), d);
  }

  /** read_head */
  method ReadHeader(c: Cache, start: nat) returns (lh: seq<nat>)
    requires c.Valid() && start < |c.disk| && Spare(c.bufs[..])
    requires c.view == c.disk && HeadOk(c.disk[start])
    modifies c.bufs, c.lru
    ensures c.Valid() && SameUse(old(c.bufs[..]), c.bufs[..], {}) && lh == ReadHead(c.disk[start])
  {
    hide Coherent, Cache.Ring, SameUse, HeadOk, ReadHead;
    ghost var bs := c.bufs[..];
    var r := c.Bread(start);
    lh := ReadHead(c.bufs[r.value].data);
    c.Brelse(r.value);
    ReadOnly(c.dev, bs, c.bufs[..], r.value);
  }

  /** recover_from_log: the block writes are those of RecoverWrites. */
  method RecoverFromLog(c: Cache, g: Layout)
    requires c.Valid() && c.view == c.disk && Recoverable(g, c.disk) && TwoSpare(c.bufs[..])
    modifies c`disk, c`writes, c`view, c.bufs, c.lru
    ensures c.Valid() && SameUse(old(c.bufs[..]), c.bufs[..], {})
    ensures c.writes == old(c.writes) + RecoverWrites(g, old(c.disk))
    ensures c.disk == c.view == Recover(g, old(c.disk))
  {
    hide Cache.Ring, Coherent, SameUse, Apply, InstallWrites, HeadBlock;
    ghost var disk0, bs0 := c.disk, c.bufs[..];
    assert Spare(bs0);
    var lh := ReadHeader(c, g.start);
    StillSpare(bs0, c.bufs[..], {});
    ghost var bs1 := c.bufs[..];
    InstallTrans(c, g, lh, true);
    ghost var bs2 := c.bufs[..];
    SameUseTrans(bs0, bs1, bs2, {}, {}, {});
    StillSpare(bs0, bs2, {});
    ghost var data := LogBlocks(g, disk0, |lh|);
    InstallFacts(g, disk0, disk0, lh);
    ApplyOther(disk0, InstallWrites(lh, data), g.start);
    SpareFor(c.dev, bs2, g.start);
    var panic := WriteHead(c, g.start, []);
    SameUseTrans(bs0, bs2, c.bufs[..], {}, {}, {});
    ghost var last := Write(g.start, HeadBlock(disk0[g.start], []));
    RecoverInRange(g, disk0);
    ApplyConcat(disk0, InstallWrites(lh, data), [last]);
    OneWrite(Apply(disk0, InstallWrites(lh, data)), last);
  }

  lemma ReadOnly(dev: nat, bs: seq<Buf>, bs': seq<Buf>, i: nat)
    requires |bs'| == |bs| && i < |bs| && bs' == bs[i := bs'[i]] && bs'[i].refcnt == bs[i].refcnt
    requires bs[i].refcnt == 0 || (bs'[i].dev == bs[i].dev && bs'[i].blockno == bs[i].blockno && bs'[i].valid)
    ensures SameUse(bs, bs', {})
  {}

  // ---- operations and their reservations ----

  /** What the outstanding operations may still add to the log. */
  ghost function Unused(ops: seq<nat>): nat {
    if ops == [] then 0 else (if ops[0] <= MAXOPBLOCKS then MAXOPBLOCKS - ops[0] else 0) + Unused(ops[1..])
  }

  lemma {:induction false} UnusedAppend(ops: seq<nat>)
    ensures Unused(ops + [0]) == Unused(ops) + MAXOPBLOCKS
  {
    if ops == [] {
      assert ops + [0] == [0] && [0][1..] == [];
    } else {
      assert (ops + [0])[1..] == ops[1..] + [0];
      UnusedAppend(ops[1..]);
    }
  }

  lemma {:induction false} UnusedBound(ops: seq<nat>)
    ensures Unused(ops) <= MAXOPBLOCKS * |ops|
  {
    if ops != [] { UnusedBound(ops[1..]); }
  }

  lemma {:induction false} UnusedUse(ops: seq<nat>, k: nat)
    requires k < |ops| && ops[k] < MAXOPBLOCKS
    ensures Unused(ops[k := ops[k] + 1]) == Unused(ops) - 1
  {
    if k == 0 {
      assert ops[k := ops[k] + 1][1..] == ops[1..];
    } else {
      assert ops[k := ops[k] + 1][1..] == ops[1..][k - 1 := ops[k] + 1];
      UnusedUse(ops[1..], k - 1);
    }
  }

  ghost function Remove(ops: seq<nat>, k: nat): seq<nat>
    requires k < |ops|
  {
    ops[..k] + ops[k + 1..]
  }

  lemma {:induction false} UnusedRemove(ops: seq<nat>, k: nat)
    requires k < |ops|
    ensures Unused(Remove(ops, k)) <= Unused(ops)
    ensures ops[k] < MAXOPBLOCKS ==> Unused(ops) > 0
  {
    if k == 0 {
      assert Remove(ops, 0) == ops[1..];
    } else {
      assert Remove(ops, k)[0] == ops[0] && Remove(ops, k)[1..] == Remove(ops[1..], k - 1);
      UnusedRemove(ops[1..], k - 1);
    }
  }

  /** The log's own reference to a buffer whose block it lists. */
  function Pins(b: Buf, dev: nat, lh: seq<nat>): nat {
    if b.dev == dev && b.blockno in lh then 1 else 0
  }

  /** Every reference is one that a caller holds or the pin of a listed block. */
  ghost predicate Refs(dev: nat, bs: seq<Buf>, g: Layout, lh: seq<nat>, held: multiset<nat>) {
    && (forall i: nat :: held[i] > 0 ==> i < |bs| && bs[i].dev == dev && bs[i].valid && !InLog(g, bs[i].blockno))
    && (forall i: nat :: i < |bs| ==> bs[i].refcnt == held[i] + Pins(bs[i], dev, lh))
  }

  /** The listed blocks that a commit has not installed yet, after `stage` of its writes. */
  function Pinned(lh: seq<nat>, stage: nat): seq<nat> {
    if stage <= |lh| + 1 then lh else if stage <= 2 * |lh| + 1 then lh[stage - |lh| - 1..] else []
  }

  /** Only pinned and touched blocks are newer in the cache than on disk. */
  ghost predicate Ahead(disk: Disk, view: Disk, pinned: seq<nat>, touched: set<nat>) {
    |view| == |disk| && forall b: nat :: b < |disk| && view[b] != disk[b] ==> b in pinned || b in touched
  }

  /** The log blocks that a commit has written hold the listed blocks. */
  ghost predicate Copied(g: Layout, view: Disk, lh: seq<nat>, stage: nat) {
    forall k :: 0 <= k < |lh| && k < stage ==>
      lh[k] < |view| && g.start + 1 + k < |view| && view[g.start + 1 + k] == view[lh[k]]
  }

  /** Everything about the log on disk. */
  ghost predicate LogOnDisk(g: Layout, disk: Disk, view: Disk, lh: seq<nat>, stage: nat) {
    && 0 < g.size && g.start + g.size <= |disk| == |view| && Loggable(g, disk, lh)
    && (stage == 0 ==> Recoverable(g, disk) && ReadHead(disk[g.start]) == [])
    && Copied(g, view, lh, stage)
  }

  function At(d: Disk, b: nat): Data {
    if b < |d| then d[b] else []
  }

  /** The write that comes after k writes of a commit: log blocks, header, home blocks, header. */
  function NextWrite(g: Layout, head: Data, store: Disk, lh: seq<nat>, k: nat): Write
    requires |lh| <= LOGSIZE
  {
    var n := |lh|;
    if k < n then Write(g.start + 1 + k, At(store, lh[k]))
    else if k == n then Write(g.start, HeadBlock(head, lh))
    else if k <= 2 * n then Write(lh[k - n - 1], At(store, lh[k - n - 1]))
    else Write(g.start, HeadBlock(head, []))
  }

  /** The home block that the write after k writes unpins. */
  function Unpinned(lh: seq<nat>, k: nat): set<nat> {
    if |lh| < k <= 2 * |lh| then {lh[k - |lh| - 1]} else {}
  }

  class Log {
    const cache: Cache
    const g: Layout                 // log.start, log.size
    var outstanding: nat
    var committing: bool
    var lh: seq<nat>                // log.lh
    var stage: nat                  // block writes that the running commit has done
    ghost var ops: seq<nat>         // how many blocks each outstanding operation has added
    ghost var touched: set<nat>     // blocks modified in the cache and not passed to log_write yet
    ghost var held: multiset<nat>   // buffers that bread has returned and brelse has not taken back

    /** Everything about the cache. */
    ghost predicate Store()
      reads this`lh, this`stage, this`touched, this`held, cache, cache.bufs, cache.lru
    {
      && cache.Valid()
      && AllKept(cache.dev, cache.bufs[..], Pinned(lh, stage))
      && Refs(cache.dev, cache.bufs[..], g, Pinned(lh, stage), held)
      && (forall b: nat :: b in touched ==> !InLog(g, b))
      && Ahead(cache.disk, cache.view, Pinned(lh, stage), touched)
    }

    ghost predicate OnDisk()
      reads this`lh, this`stage, cache
    {
      LogOnDisk(g, cache.disk, cache.view, lh, stage)
    }

    /** Admission control: what is logged and what may still be logged fits. */
    ghost predicate Admission()
      reads this`outstanding, this`committing, this`lh, this`stage, this`ops, this`touched
    {
      && |ops| == outstanding && |lh| + Unused(ops) <= LOGSIZE
      && (committing ==> outstanding == 0)
      && (!committing && outstanding == 0 ==> lh == [])
      && (outstanding == 0 ==> touched == {})
      && (stage > 0 ==> committing && lh != [] && stage < 2 * |lh| + 2)
    }

    ghost predicate Valid()
      reads this, cache, cache.bufs, cache.lru
    {
      Store() && OnDisk() && Admission()
    }

    /** initlog at boot: recover, then start with an empty log. */
    constructor (cache: Cache, g: Layout)
      requires cache.Valid() && cache.view == cache.disk && Recoverable(g, cache.disk)
      requires forall i :: 0 <= i < cache.bufs.Length ==> cache.bufs[i].refcnt == 0
      requires cache.bufs.Length >= 2
      modifies cache`disk, cache`writes, cache`view, cache.bufs, cache.lru
      ensures Valid() && this.cache == cache && this.g == g
      ensures outstanding == 0 && !committing && lh == [] && stage == 0 && ops == [] && touched == {} && held == multiset{}
      ensures cache.disk == cache.view == Recover(g, old(cache.disk))
      ensures cache.writes == old(cache.writes) + RecoverWrites(g, old(cache.disk))
    {
      hide Cache.Valid, SameUse, Apply, RecoverWrites, Recover;
      this.cache, this.g := cache, g;
      outstanding, committing, lh, stage := 0, false, [], 0;
      ops, touched, held := [], {}, multiset{};
      new;
      ghost var bs := cache.bufs[..];
      assert TwoSpare(cache.bufs[..]) by { assert cache.bufs[..][0].refcnt == cache.bufs[..][1].refcnt == 0; }
      RecoverEmpties(g, cache.disk);
      RecoverFromLog(cache, g);
      NoRefs(cache.dev, bs, cache.bufs[..], g);
    }

    /** One round of begin_op; false means that the caller goes to sleep and tries again. */
    method BeginOp() returns (ok: bool)
      requires Valid()
      modifies this`outstanding, this`ops
      ensures Valid()
      ensures ok <==> !committing && |lh| + (old(outstanding) + 1) * MAXOPBLOCKS <= LOGSIZE
      ensures ok ==> outstanding == old(outstanding) + 1 && ops == old(ops) + [0]
      ensures !ok ==> outstanding == old(outstanding) && ops == old(ops)
      ensures !ok ==> committing || outstanding > 0
    {
      hide Store, OnDisk;
      if committing {
        ok := false;
      } else if |lh| + (outstanding + 1) * MAXOPBLOCKS > LOGSIZE {
        ok := false;
      } else {
        UnusedAppend(ops);
        UnusedBound(ops);
        outstanding := outstanding + 1;
        ops := ops + [0];
        ok := true;
      }
    }

    lemma HeldInRange(i: nat)
      requires Valid() && held[i] > 0
      ensures i < cache.bufs.Length && cache.bufs[i].blockno < |cache.disk| == |cache.view|
      ensures !InLog(g, cache.bufs[i].blockno)
    {
      hide AllKept, HeadOk, ReadHead, Cache.Ring;
    }

    lemma Counted()
      requires Valid()
      ensures |ops| == outstanding
    {}

    /** bread of a home block, in an operation or outside; None is the panic in bget. */
    method Read(b: nat) returns (r: Option<nat>)
      requires Valid() && b < |cache.disk| && !InLog(g, b)
      modifies this`held, cache.bufs
      ensures Valid()
      ensures r.None? <==> NoneFor(cache.dev, old(cache.bufs[..]), b)
      ensures r.None? ==> held == old(held) && cache.bufs[..] == old(cache.bufs[..])
      ensures r.Some? ==>
        && r.value < cache.bufs.Length && held == old(held) + multiset{r.value}
        && cache.bufs[r.value].blockno == b && cache.bufs[r.value].data == cache.view[b]
        && cache.bufs[..] == old(cache.bufs[..])[r.value := cache.bufs[r.value]]
        && (old(cache.bufs[r.value].refcnt) > 0 ==> old(cache.bufs[r.value].blockno) == b)
    {
      hide Coherent, Cache.Ring, OnDisk, AllKept, Refs, Pinned;
      ghost var bs := cache.bufs[..];
      assert forall i :: 0 <= i < |bs| ==> bs[i] == cache.bufs[i];
      cache.Sizes();
      r := cache.Bread(b);
      if r.Some? {
        held := held + multiset{r.value};
        ReadRefs(cache.dev, bs, cache.bufs[..], cache.disk, cache.view, g, Pinned(lh, stage), old(held), r.value, b);
      }
    }

    /** brelse by a holder. Whoever changed a block passes it to log_write first. */
    method Release(i: nat)
      requires Valid() && i < cache.bufs.Length && held[i] > 0
      requires held[i] > 1 || cache.bufs[i].blockno in Pinned(lh, stage) || cache.bufs[i].blockno !in touched
      modifies this`held, cache.bufs, cache.lru
      ensures Valid() && held == old(held) - multiset{i} && i < |old(cache.bufs[..])|
      ensures cache.bufs[..] == Dropped(old(cache.bufs[..]), i)
    {
      hide Coherent, Cache.Ring, OnDisk, AllKept, Refs, Pinned;
      ghost var bs := cache.bufs[..];
      Holdable(cache.dev, bs, g, Pinned(lh, stage), held, i);
      cache.InRange(i);
      cache.Brelse(i);
      held := held - multiset{i};
      ReleaseRefs(cache.dev, bs, cache.bufs[..], g, Pinned(lh, stage), old(held), i);
    }

    /** The caller changes a buffer it holds, on the way to log_write. */
    method Modify(i: nat, data: Data)
      requires Valid() && i < cache.bufs.Length && held[i] > 0 && outstanding > 0
      modifies this`touched, cache`view, cache.bufs
      ensures Valid() && old(cache.bufs[i].blockno) < |old(cache.view)|
      ensures touched == old(touched) + {old(cache.bufs[i].blockno)}
      ensures cache.view == old(cache.view)[old(cache.bufs[i].blockno) := data]
      ensures cache.bufs[..] == old(cache.bufs[..])[i := old(cache.bufs[i]).(data := data)]
    {
      hide Coherent, Cache.Ring, HeadOk, ReadHead, AllKept, Refs;
      ghost var bs := cache.bufs[..];
      Holdable(cache.dev, bs, g, lh, held, i);
      cache.InRange(i);
      cache.Modify(i, data);
      touched := touched + {cache.bufs[i].blockno};
      RefsModified(cache.dev, bs, g, lh, held, i, data);
      KeptModified(cache.dev, bs, cache.bufs[..], lh);
    }

    /** log_write; `panic` is the "too big a transaction" or "outside of trans" panic. */
    method LogWrite(i: nat, ghost op: nat) returns (panic: bool)
      requires Valid() && i < cache.bufs.Length && held[i] > 0
      requires outstanding > 0 ==> op < |ops| && (cache.bufs[i].blockno in lh || ops[op] < MAXOPBLOCKS)
      modifies this`lh, this`ops, this`touched, cache.bufs
      ensures Valid()
      ensures panic <==> |old(lh)| >= LOGSIZE || |old(lh)| >= g.size - 1 || outstanding < 1
      ensures var b := old(cache.bufs[i].blockno);
        if panic then
          lh == old(lh) && ops == old(ops) && touched == old(touched) && cache.bufs[..] == old(cache.bufs[..])
        else
          && touched == old(touched) - {b}
          && (b in old(lh) ==> lh == old(lh) && ops == old(ops) && cache.bufs[..] == old(cache.bufs[..]))
          && (b !in old(lh) ==>
                op < |old(ops)| && lh == old(lh) + [b] && ops == old(ops)[op := old(ops)[op] + 1] &&
                cache.bufs[..] == old(cache.bufs[..])[i := old(cache.bufs[i]).(refcnt := old(cache.bufs[i].refcnt) + 1)])
    {
      hide Coherent, Cache.Ring, HeadOk, ReadHead, AllKept, Refs, Pins;
      ghost var bs := cache.bufs[..];
      Holdable(cache.dev, bs, g, Pinned(lh, stage), held, i);
      cache.InRange(i);
      var b := cache.bufs[i].blockno;
      if |lh| >= LOGSIZE || |lh| >= g.size - 1 { return true; }
      if outstanding < 1 { return true; }
      var listed := Absorbed(b);
      panic := false;
      if !listed {
        UnusedUse(ops, op);
        cache.Bpin(i);
        PinnedToo(cache.dev, bs, cache.bufs[..], lh, i, b);
        PinnedRefs(cache.dev, bs, cache.bufs[..], cache.disk, cache.view, g, lh, held, i, b);
        lh := lh + [b];
        ops := ops[op := ops[op] + 1];
      }
      touched := touched - {b};
    }

    /** The search for log absorption. */
    method Absorbed(b: nat) returns (listed: bool)
      ensures listed <==> b in lh
    {
      var k := 0;
      while k < |lh|
        invariant k <= |lh| && b !in lh[..k]
      {
        if lh[k] == b { return true; }
        k := k + 1;
      }
      assert lh[..k] == lh;
      listed := false;
    }

    /** end_op up to the commit; the "log.committing" panic cannot occur. */
    method EndOp(ghost op: nat) returns (doCommit: bool)
      requires Valid() && op < |ops| && (outstanding == 1 ==> touched == {})
      modifies this`outstanding, this`committing, this`ops
      ensures Valid() && !old(committing)
      ensures outstanding == old(outstanding) - 1 && ops == Remove(old(ops), op)
      ensures doCommit <==> outstanding == 0
      ensures committing <==> doCommit
    {
      hide Store, OnDisk;
      UnusedRemove(ops, op);
      outstanding := outstanding - 1;
      ops := Remove(ops, op);
      doCommit := false;
      if outstanding == 0 {
        doCommit := true;
        committing := true;
      }
    }

    /** The next block write of commit. `panic` is bget's: every step takes one buffer besides
        the pinned ones. */
    method CommitStep() returns (panic: bool)
      requires Valid() && committing
      modifies this`lh, this`stage, this`committing, cache`disk, cache`writes, cache`view, cache.bufs, cache.lru
      ensures Valid() && |old(lh)| <= LOGSIZE && g.start < |old(cache.view)|
      ensures panic <==> old(lh) != [] && !Spare(old(cache.bufs[..]))
      ensures panic || old(lh) == [] ==> Untouched(cache) && stage == old(stage) && lh == old(lh)
      ensures committing <==> panic || (old(stage) < 2 * |old(lh)| + 1 && old(lh) != [])
      ensures !panic && old(lh) != [] ==>
        && Wrote(cache, NextWrite(g, old(cache.view)[g.start], old(cache.view), old(lh), old(stage)))
        && SameUse(old(cache.bufs[..]), cache.bufs[..], Unpinned(old(lh), old(stage)))
        && if committing then stage == old(stage) + 1 && lh == old(lh) else stage == 0 && lh == []
    {
      hide Coherent, Cache.Ring, AllKept, Refs, LogOnDisk, SameUse, Spare, HeadBlock, Unused,
           NextWrite, Pinned, Unpinned, Distinct, Ahead;
      StepFacts();
      if lh == [] {
        committing, panic := false, false;
        return;
      }
      ghost var bs, disk, view := cache.bufs[..], cache.disk, cache.view;
      ghost var w := NextWrite(g, view[g.start], view, lh, stage);
      panic := DoWrite();
      if panic { return; }
      StepOnDisk(g, disk, view, lh, stage);
      StepStore(cache.dev, bs, cache.bufs[..], disk, view, w, g, lh, stage, held);
      if stage < 2 * |lh| + 1 {
        stage := stage + 1;
      } else {
        lh, stage, committing := [], 0, false;
      }
    }

    lemma StepFacts()
      requires Valid() && committing
      ensures outstanding == 0 && ops == [] && touched == {} && |lh| <= LOGSIZE && g.start < |cache.view| == |cache.disk|
      ensures cache.Valid() && LogFree(cache.dev, cache.bufs[..], g) && Distinct(lh)
      ensures lh == [] ==> stage == 0
    {}

    /** The blocks that commit copies next. */
    lemma CopyFacts()
      requires Valid() && committing && lh != []
      ensures InLog(g, g.start) && stage < 2 * |lh| + 2
      ensures stage < |lh| || |lh| < stage <= 2 * |lh| ==>
        var k := if stage < |lh| then stage else stage - |lh| - 1;
        && lh[k] < |cache.disk| && InLog(g, g.start + 1 + k) && g.start + 1 + k < |cache.disk| && g.start + 1 + k != lh[k]
        && KeptIn(cache.dev, cache.bufs[..], lh[k]) && (stage > |lh| ==> cache.view[g.start + 1 + k] == cache.view[lh[k]])
    {
      hide Cache.Valid, Refs, KeptIn, Unused, Recoverable;
      if |lh| < stage <= 2 * |lh| { assert Pinned(lh, stage)[0] == lh[stage - |lh| - 1]; }
    }

    /** The body of commit at the given stage. */
    method DoWrite() returns (panic: bool)
      requires Valid() && committing && lh != []
      modifies cache`disk, cache`writes, cache`view, cache.bufs, cache.lru
      ensures cache.Valid() && |lh| <= LOGSIZE && g.start < |old(cache.view)|
      ensures panic <==> !Spare(old(cache.bufs[..]))
      ensures panic ==> Untouched(cache)
      ensures !panic ==>
        && Wrote(cache, NextWrite(g, old(cache.view)[g.start], old(cache.view), lh, stage))
        && SameUse(old(cache.bufs[..]), cache.bufs[..], Unpinned(lh, stage))
    {
      hide Valid, Cache.Valid, SameUse, Spare, HeadBlock, LogFree, NoneFor, KeptIn;
      StepFacts();
      CopyFacts();
      ghost var bs := cache.bufs[..];
      NoneForLog(cache.dev, bs, g);
      var n := |lh|;
      if stage < n {
        panic := CopyToLog(cache, g.start + 1 + stage, lh[stage]);
      } else if stage == n {
        panic := WriteHead(cache, g.start, lh);
      } else if stage <= 2 * n {
        panic := CopyHome(cache, g.start + 1 + (stage - n - 1), lh[stage - n - 1], false);
      } else {
        panic := WriteHead(cache, g.start, []);
      }
    }

    /** commit, and the end of end_op. The cache and a plain block store agree throughout: the
        home blocks the file system sees do not change, and now they are on disk. `panic` is
        bget's: it takes a buffer besides the listed ones to commit. */
    method Commit() returns (panic: bool)
      requires Valid() && committing && stage == 0
      modifies this`lh, this`committing, cache`disk, cache`writes, cache`view, cache.bufs, cache.lru
      ensures Valid()
      ensures panic <==> old(lh) != [] && !Spare(old(cache.bufs[..]))
      ensures panic ==> lh == old(lh) && committing && Untouched(cache)
      ensures !panic ==>
        && lh == [] && !committing
        && cache.view == cache.disk && HomeEq(g, cache.view, old(cache.view))
        && SameUse(old(cache.bufs[..]), cache.bufs[..], Listed(old(lh)))
        && old(cache.writes) <= cache.writes
        && |cache.writes| == |old(cache.writes)| + (if old(lh) == [] then 0 else 2 * |old(lh)| + 2)
        && CrashSafe(g, old(cache.disk), cache.writes[|old(cache.writes)|..], |old(lh)|, cache.disk)
    {
      hide Cache.Valid, SameUse, KeptIn, Spare, Apply, Listed, CommitWrites, CrashSafe, HomeEq, Refs, LogFree;
      cache.Sizes();
      ghost var bs := cache.bufs[..];
      if |lh| > 0 {
        ghost var w0 := cache.writes;
        ghost var ws := CommitWrites(g, cache.disk[g.start], lh, Contents(cache.view, lh));
        CommitOutcome(g, cache.view, cache.disk, lh);
        CommitParts(g, cache.disk[g.start], lh, Contents(cache.view, lh), 0);
        RefsLogFree(cache.dev, bs, g, cache.disk, lh, held);
        panic := CommitBlocks(cache, g, lh);
        if panic { return; }
        assert cache.writes == w0 + ws;
      } else {
        NothingToCommit(g, cache.view, cache.disk, bs, cache.writes);
        panic := false;
      }
      RefsCommitted(cache, bs, g, lh, held);
      lh := [];
      committing := false;
    }
  }

  /** No caller holds a log block, so bget fails for one when every buffer is referenced. */
  lemma NoneForLog(dev: nat, bs: seq<Buf>, g: Layout)
    requires LogFree(dev, bs, g)
    ensures forall b: nat {:trigger NoneFor(dev, bs, b)} :: InLog(g, b) ==> (NoneFor(dev, bs, b) <==> !Spare(bs))
  {}

  lemma StepOnDisk(g: Layout, disk: Disk, view: Disk, lh: seq<nat>, stage: nat)
    requires LogOnDisk(g, disk, view, lh, stage) && lh != [] && stage < 2 * |lh| + 2
    ensures |lh| <= LOGSIZE && g.start < |view| == |disk|
    ensures var w, last := NextWrite(g, view[g.start], view, lh, stage), stage == 2 * |lh| + 1;
      && w.block < |disk|
      && LogOnDisk(g, disk[w.block := w.data], view[w.block := w.data], if last then [] else lh, if last then 0 else stage + 1)
  {
    HeadRoundTrip(view[g.start], []);
  }

  /** What stays pinned after the next write. */
  function PinnedNext(lh: seq<nat>, stage: nat): seq<nat> {
    if stage < 2 * |lh| + 1 then Pinned(lh, stage + 1) else []
  }

  lemma StepPinned(lh: seq<nat>, stage: nat)
    requires Distinct(lh) && stage < 2 * |lh| + 2
    ensures forall b: nat :: b in PinnedNext(lh, stage) <==> b in Pinned(lh, stage) && b !in Unpinned(lh, stage)
    ensures forall b: nat :: b in Unpinned(lh, stage) ==> b in Pinned(lh, stage)
    ensures Pinned([], 0) == []
  {
    var p, q := Pinned(lh, stage), PinnedNext(lh, stage);
    assert Distinct(p);
    if q != p {
      assert p == [p[0]] + q && Unpinned(lh, stage) == {p[0]};
    }
  }

  lemma StepKept(dev: nat, bs: seq<Buf>, bs': seq<Buf>, p: seq<nat>, q: seq<nat>, given: set<nat>)
    requires SameUse(bs, bs', given) && AllKept(dev, bs, p)
    requires forall b: nat :: b in q <==> b in p && b !in given
    ensures AllKept(dev, bs', q)
  {
    hide KeptIn, SameUse;
    forall j | 0 <= j < |q| ensures KeptIn(dev, bs', q[j]) {
      assert q[j] in p;
      StillKept(dev, bs, bs', given, q[j]);
    }
  }

  lemma StepRefs(dev: nat, bs: seq<Buf>, bs': seq<Buf>, disk: Disk, view: Disk, g: Layout, p: seq<nat>, q: seq<nat>,
                 given: set<nat>, held: multiset<nat>)
    requires Coherent(dev, bs', disk, view) && SameUse(bs, bs', given) && Refs(dev, bs, g, p, held)
    requires AllKept(dev, bs', q)
    requires forall b: nat :: b in q <==> b in p && b !in given
    requires forall b: nat :: b in given ==> b in p
    ensures Refs(dev, bs', g, q, held)
  {
    forall i: nat | i < |bs| ensures bs'[i].refcnt == held[i] + Pins(bs'[i], dev, q) {
      if bs'[i].refcnt == 0 && bs'[i].dev == dev { Unreferenced(dev, bs', disk, view, q, i); }
    }
  }

  /** The pins, references and newer blocks after the next write. */
  lemma StepStore(dev: nat, bs: seq<Buf>, bs': seq<Buf>, disk: Disk, view: Disk, w: Write, g: Layout, lh: seq<nat>,
                  stage: nat, held: multiset<nat>)
    requires |lh| <= LOGSIZE && g.start < |view| && w.block < |disk| == |view|
    requires w == NextWrite(g, view[g.start], view, lh, stage)
    requires Coherent(dev, bs', disk[w.block := w.data], view[w.block := w.data]) && SameUse(bs, bs', Unpinned(lh, stage))
    requires AllKept(dev, bs, Pinned(lh, stage)) && Refs(dev, bs, g, Pinned(lh, stage), held)
    requires Ahead(disk, view, Pinned(lh, stage), {})
    requires Distinct(lh) && stage < 2 * |lh| + 2
    ensures var q := if stage < 2 * |lh| + 1 then Pinned(lh, stage + 1) else Pinned([], 0);
      AllKept(dev, bs', q) && Refs(dev, bs', g, q, held) && Ahead(disk[w.block := w.data], view[w.block := w.data], q, {})
  {
    hide Coherent, SameUse, AllKept, Refs, Pinned, HeadBlock, Distinct;
    var p, q := Pinned(lh, stage), PinnedNext(lh, stage);
    StepPinned(lh, stage);
    StepKept(dev, bs, bs', p, q, Unpinned(lh, stage));
    StepRefs(dev, bs, bs', disk[w.block := w.data], view[w.block := w.data], g, p, q, Unpinned(lh, stage), held);
  }

  lemma Unreferenced(dev: nat, bs: seq<Buf>, disk: Disk, view: Disk, q: seq<nat>, i: nat)
    requires Coherent(dev, bs, disk, view) && AllKept(dev, bs, q) && i < |bs| && bs[i].refcnt == 0 && bs[i].dev == dev
    ensures bs[i].blockno !in q
  {}

  lemma NoRefs(dev: nat, bs: seq<Buf>, bs': seq<Buf>, g: Layout)
    requires SameUse(bs, bs', {}) && forall i :: 0 <= i < |bs| ==> bs[i].refcnt == 0
    ensures Refs(dev, bs', g, [], multiset{})
  {}

  lemma ReadRefs(dev: nat, bs: seq<Buf>, bs': seq<Buf>, disk: Disk, view: Disk, g: Layout, lh: seq<nat>,
                 held: multiset<nat>, i: nat, b: nat)
    requires Coherent(dev, bs', disk, view) && AllKept(dev, bs, lh) && Refs(dev, bs, g, lh, held) && !InLog(g, b)
    requires |bs'| == |bs| && i < |bs| && bs' == bs[i := bs'[i]] && bs'[i].refcnt == bs[i].refcnt + 1
    requires Caches(bs'[i], dev, b) && bs'[i].valid && (bs[i].refcnt == 0 || Caches(bs[i], dev, b))
    ensures AllKept(dev, bs', lh) && Refs(dev, bs', g, lh, held + multiset{i})
  {
    forall c | KeptIn(dev, bs, c) ensures KeptIn(dev, bs', c) && (c == b ==> bs[i].refcnt > 0) {
      var j :| 0 <= j < |bs| && Caches(bs[j], dev, c) && bs[j].valid && bs[j].refcnt > 0;
      assert Caches(bs'[j], dev, c) && bs'[j].valid && bs'[j].refcnt > 0;
    }
    assert Pins(bs'[i], dev, lh) == Pins(bs[i], dev, lh);
  }

  lemma ReleaseRefs(dev: nat, bs: seq<Buf>, bs': seq<Buf>, g: Layout, lh: seq<nat>, held: multiset<nat>, i: nat)
    requires AllKept(dev, bs, lh) && Refs(dev, bs, g, lh, held) && i < |bs| && held[i] > 0
    requires bs' == bs[i := bs[i].(refcnt := bs[i].refcnt - 1)]
    ensures AllKept(dev, bs', lh) && Refs(dev, bs', g, lh, held - multiset{i})
  {
    forall c | KeptIn(dev, bs, c) && c in lh ensures KeptIn(dev, bs', c) {
      var j :| 0 <= j < |bs| && Caches(bs[j], dev, c) && bs[j].valid && bs[j].refcnt > 0;
      assert Caches(bs'[j], dev, c) && bs'[j].valid && bs'[j].refcnt > 0;
    }
  }

  lemma RefsLogFree(dev: nat, bs: seq<Buf>, g: Layout, disk: Disk, lh: seq<nat>, held: multiset<nat>)
    requires Refs(dev, bs, g, lh, held) && Loggable(g, disk, lh)
    ensures LogFree(dev, bs, g)
  {}

  lemma RefsCommitted(c: Cache, bs: seq<Buf>, g: Layout, lh: seq<nat>, held: multiset<nat>)
    requires c.Valid() && Refs(c.dev, bs, g, lh, held) && SameUse(bs, c.bufs[..], Listed(lh))
    ensures Refs(c.dev, c.bufs[..], g, [], held)
  {}

  lemma NothingToCommit(g: Layout, view: Disk, disk: Disk, bs: seq<Buf>, ws: seq<Write>)
    requires Recoverable(g, disk) && ReadHead(disk[g.start]) == [] && |view| == |disk|
    requires forall b: nat :: b < |disk| ==> view[b] == disk[b]
    ensures view == disk && HomeEq(g, view, view) && SameUse(bs, bs, Listed([]))
    ensures ws[..|ws|] == ws && CrashSafe(g, disk, ws[|ws|..], 0, disk)
  {
    EmptyRecovers(g, disk);
    var none := ws[|ws|..];
    assert none == [] && none[..0] == [];
    ApplyNone(disk);
    assert CrashPoint(g, disk, none[..0], disk);
  }

  /** A crash after any number of the writes ws, which lead from disk to disk', recovers the
      home blocks of disk up to the n-th write and those of disk' from then on. */
  ghost predicate CrashSafe(g: Layout, disk: Disk, ws: seq<Write>, n: nat, disk': Disk) {
    && (forall w :: w in ws ==> w.block < |disk|) && disk' == Apply(disk, ws)
    && forall i :: 0 <= i <= |ws| ==> CrashPoint(g, disk, ws[..i], if i <= n then disk else disk')
  }

  ghost predicate CrashPoint(g: Layout, disk: Disk, done: seq<Write>, outcome: Disk) {
    && (forall w :: w in done ==> w.block < |disk|)
    && Recoverable(g, Apply(disk, done)) && HomeEq(g, Recover(g, Apply(disk, done)), outcome)
  }

  /** Blocks that agree before, or are written, agree after. */
  lemma {:induction false} ApplyAgree(d1: Disk, d2: Disk, ws: seq<Write>, b: nat)
    requires |d1| == |d2| && b < |d1| && forall w :: w in ws ==> w.block < |d1|
    requires d1[b] == d2[b] || exists i :: 0 <= i < |ws| && ws[i].block == b
    ensures Apply(d1, ws)[b] == Apply(d2, ws)[b]
  {
    if ws != [] {
      var n := |ws| - 1;
      assert ws[n] in ws;
      if ws[n].block != b {
        if d1[b] != d2[b] {
          var i :| 0 <= i < |ws| && ws[i].block == b;
          assert ws[..n][i].block == b;
        }
        ApplyAgree(d1, d2, ws[..n], b);
      }
    }
  }

  /** After the commit writes, cache view and disk agree on every block. */
  lemma CommitAgree(g: Layout, view: Disk, disk: Disk, head: Data, lh: seq<nat>, data: seq<Data>)
    requires |view| == |disk| && 0 < g.size && g.start + g.size <= |disk| && Loggable(g, disk, lh) && |data| == |lh|
    requires forall b: nat :: b < |disk| && view[b] != disk[b] ==> b in lh
    ensures forall w :: w in CommitWrites(g, head, lh, data) ==> w.block < |disk|
    ensures Apply(view, CommitWrites(g, head, lh, data)) == Apply(disk, CommitWrites(g, head, lh, data))
  {
    hide Apply, HeadBlock;
    var ws := CommitWrites(g, head, lh, data);
    CommitInRange(g, disk, head, lh, data);
    forall b: nat | b < |disk| ensures Apply(view, ws)[b] == Apply(disk, ws)[b] {
      if view[b] != disk[b] {
        var j :| 0 <= j < |lh| && lh[j] == b;
        assert ws[|lh| + 1 + j] == Write(lh[j], data[j]);
      }
      ApplyAgree(view, disk, ws, b);
    }
  }

  /** The whole commit as a transition of the disk. */
  lemma CommitOutcome(g: Layout, view: Disk, disk: Disk, lh: seq<nat>)
    requires |view| == |disk| && Recoverable(g, disk) && ReadHead(disk[g.start]) == [] && Loggable(g, disk, lh)
    requires forall b: nat :: b < |disk| && view[b] != disk[b] ==> b in lh
    ensures var ws := CommitWrites(g, disk[g.start], lh, Contents(view, lh));
      && (forall w :: w in ws ==> w.block < |disk|)
      && Recoverable(g, Apply(disk, ws)) && ReadHead(Apply(disk, ws)[g.start]) == []
      && Apply(view, ws) == Apply(disk, ws) && HomeEq(g, Apply(disk, ws), view)
      && CrashSafe(g, disk, ws, |lh|, Apply(disk, ws))
  {
    hide Apply, HeadBlock, CommitWrites, Install, Recover, HomeEq;
    var data := Contents(view, lh);
    var ws := CommitWrites(g, disk[g.start], lh, data);
    CommitParts(g, disk[g.start], lh, data, 0);
    CommitCrash(g, disk, lh, data, |ws|);
    assert ws[..|ws|] == ws;
    var d := Apply(disk, ws);
    EmptyRecovers(g, d);
    CommitAgree(g, view, disk, disk[g.start], lh, data);
    InstallIsView(g, view, disk, lh);
    HomeSym(g, Recover(g, d), d);
    HomeTrans(g, d, Recover(g, d), Install(disk, lh, data));
    HomeSym(g, d, Install(disk, lh, data));
    HomeTrans(g, d, Install(disk, lh, data), view);
    forall i | 0 <= i <= |ws| ensures CrashPoint(g, disk, ws[..i], if i <= |lh| then disk else d) {
      CommitCrash(g, disk, lh, data, i);
      if i > |lh| { HomeTrans(g, Recover(g, Apply(disk, ws[..i])), Install(disk, lh, data), d); }
    }
  }

  lemma HomeSym(g: Layout, a: Disk, b: Disk)
    requires HomeEq(g, a, b)
    ensures HomeEq(g, b, a)
  {}

  lemma InstallIsView(g: Layout, view: Disk, disk: Disk, lh: seq<nat>)
    requires |view| == |disk| && Loggable(g, disk, lh)
    requires forall b: nat :: b < |disk| && view[b] != disk[b] ==> b in lh
    ensures HomeEq(g, Install(disk, lh, Contents(view, lh)), view)
  {
    hide Install;
    forall b: nat | b < |disk| ensures Install(disk, lh, Contents(view, lh))[b] == view[b] {
      InstallAt(disk, lh, Contents(view, lh), b);
      if b in lh { var i :| 0 <= i < |lh| && lh[i] == b; }
    }
  }

  lemma KeptModified(dev: nat, bs: seq<Buf>, bs': seq<Buf>, lh: seq<nat>)
    requires |bs'| == |bs| && forall i :: 0 <= i < |bs| ==> bs'[i].(data := bs[i].data) == bs[i]
    ensures AllKept(dev, bs, lh) ==> AllKept(dev, bs', lh)
  {
    forall b | KeptIn(dev, bs, b) ensures KeptIn(dev, bs', b) {
      var i :| 0 <= i < |bs| && Caches(bs[i], dev, b) && bs[i].valid && bs[i].refcnt > 0;
      assert Caches(bs'[i], dev, b);
    }
  }

  lemma PinnedToo(dev: nat, bs: seq<Buf>, bs': seq<Buf>, lh: seq<nat>, i: nat, b: nat)
    requires AllKept(dev, bs, lh) && i < |bs| && Caches(bs[i], dev, b) && bs[i].valid
    requires bs' == bs[i := bs[i].(refcnt := bs[i].refcnt + 1)]
    ensures AllKept(dev, bs', lh + [b])
  {
    assert Caches(bs'[i], dev, b);
    forall c | KeptIn(dev, bs, c) ensures KeptIn(dev, bs', c) {
      var j :| 0 <= j < |bs| && Caches(bs[j], dev, c) && bs[j].valid && bs[j].refcnt > 0;
      assert Caches(bs'[j], dev, c);
    }
  }

  lemma PinnedRefs(dev: nat, bs: seq<Buf>, bs': seq<Buf>, disk: Disk, view: Disk, g: Layout, lh: seq<nat>,
                   held: multiset<nat>, i: nat, b: nat)
    requires Coherent(dev, bs, disk, view) && Refs(dev, bs, g, lh, held)
    requires i < |bs| && Caches(bs[i], dev, b) && b !in lh
    requires bs' == bs[i := bs[i].(refcnt := bs[i].refcnt + 1)]
    ensures Refs(dev, bs', g, lh + [b], held)
  {
    forall j: nat | j < |bs| ensures bs'[j].refcnt == held[j] + Pins(bs'[j], dev, lh + [b]) {
      assert j != i ==> !Caches(bs[j], dev, b);
    }
  }

  lemma Holdable(dev: nat, bs: seq<Buf>, g: Layout, lh: seq<nat>, held: multiset<nat>, i: nat)
    requires Refs(dev, bs, g, lh, held) && held[i] > 0
    ensures i < |bs| && bs[i].dev == dev && bs[i].valid && !InLog(g, bs[i].blockno)
    ensures bs[i].refcnt == held[i] + Pins(bs[i], dev, lh)
  {}

  lemma RefsModified(dev: nat, bs: seq<Buf>, g: Layout, lh: seq<nat>, held: multiset<nat>, i: nat, data: Data)
    requires Refs(dev, bs, g, lh, held) && i < |bs|
    ensures Refs(dev, bs[i := bs[i].(data := data)], g, lh, held)
  {}
}
