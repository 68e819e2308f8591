/** The disk driver and its device, step by step (kernel/hardware/virtio_disk.c). The driver's steps
    are what it does while it holds vdisk_lock; the device's come between any two of them. */
module VirtioDisk {
  import opened Options
  import opened SetSizes
  import opened VirtioRings

  const SECTOR_SIZE: nat := 512
  const TWO_32: nat := 0x1_0000_0000

  type Uint = n: nat | n < TWO_32

  /** The sector that virtio_disk_rw asks for. The product is taken in 32 bits. */
  function SectorOf(blockno: Uint): nat {
    (blockno * (BSIZE / SECTOR_SIZE)) % TWO_32
  }

  /** The block of the disk that the sector begins. */
  function Home(blockno: Uint): nat {
    blockno % 0x8000_0000
  }

  /** Block numbers below 2^31 are the disk's own; above, the product wraps around. */
  lemma SectorBytes(blockno: Uint)
    ensures SectorOf(blockno) * SECTOR_SIZE == Home(blockno) * BSIZE
    ensures SectorOf(blockno) * SECTOR_SIZE == blockno * BSIZE <==> blockno < 0x8000_0000
  {
    if blockno >= 0x8000_0000 {
      assert blockno * 2 == TWO_32 + (blockno - 0x8000_0000) * 2;
    }
  }

  /** Different block numbers are the same block of the disk exactly when they are 2^31 apart. */
  lemma HomeApart(m: Uint, n: Uint)
    ensures Home(m) == Home(n) <==> m == n || m == n + 0x8000_0000 || n == m + 0x8000_0000
  {}

  /** Byte i of the disk is one of those that a request for the block moves. */
  predicate Covers(blockno: Uint, i: nat) {
    SectorOf(blockno) * SECTOR_SIZE <= i < SectorOf(blockno) * SECTOR_SIZE + BSIZE
  }

  /** Two blocks share a byte of the disk exactly when they are equal modulo 2^31. */
  lemma SectorsApart(m: Uint, n: Uint)
    ensures (exists i :: Covers(m, i) && Covers(n, i)) <==> Home(m) == Home(n)
  {
    SectorBytes(m);
    SectorBytes(n);
    hide SectorOf, Home;
    assert Covers(m, Home(m) * BSIZE);
  }

  // ---- the bytes of the disk ----

  type Store = map<nat, nat>

  function ByteAt(store: Store, i: nat): nat {
    if i in store then store[i] else 0
  }

  /** len bytes of the disk. */
  function Fetched(store: Store, at: nat, len: nat): seq<nat> {
    seq<nat>(len, i requires 0 <= i < len => ByteAt(store, at + i))
  }

  function Behind(bytes: seq<nat>, at: nat, i: nat): nat
    requires at <= i < at + |bytes|
  {
    bytes[i - at]
  }

  /** The disk with the bytes put at a place. */
  function Kept(store: Store, at: nat, bytes: seq<nat>): Store {
    store + map i: nat | at <= i < at + |bytes| :: Behind(bytes, at, i)
  }

  /** What the disk holds for a block. */
  function OnDisk(store: Store, block: nat): (d: Data) {
    Fetched(store, block * BSIZE, BSIZE)
  }

  /** A block written is read back, and no other block changes. */
  lemma KeptBlock(store: Store, block: nat, d: Data, other: nat)
    ensures OnDisk(Kept(store, block * BSIZE, d), other) == if other == block then d else OnDisk(store, other)
  {
    var now := Kept(store, block * BSIZE, d);
    if other == block {
      forall i: nat | i < BSIZE ensures OnDisk(now, other)[i] == d[i] { KeptByte(store, block * BSIZE, d, other * BSIZE + i); }
      assert OnDisk(now, other) == d;
    } else {
      forall i: nat | i < BSIZE ensures OnDisk(now, other)[i] == OnDisk(store, other)[i] {
        KeptByte(store, block * BSIZE, d, other * BSIZE + i);
      }
      assert OnDisk(now, other) == OnDisk(store, other);
    }
  }

  lemma KeptByte(store: Store, at: nat, bytes: seq<nat>, i: nat)
    ensures ByteAt(Kept(store, at, bytes), i) == if at <= i < at + |bytes| then bytes[i - at] else ByteAt(store, i)
  {}

  /** disk.info: whose request, and the status byte. */
  datatype Info = Info(b: Option<nat>, status: nat)

  /** The status byte says success exactly when the device has finished. */
  function StatusOf(stage: Stage): nat {
    if stage == Posted || stage == Taken then 0xff else 0
  }

  /** Descriptors and headers in memory say what the requests ask. */
  ghost predicate ChainsOk(desc: seq<Desc>, ops: seq<Op>, info: seq<Info>, reqs: Reqs) {
    && |desc| == NUM && |ops| == NUM && |info| == NUM
    && forall h :: h in reqs ==> ChainOk(desc, ops, info, reqs, h)
  }

  ghost predicate ChainOk(desc: seq<Desc>, ops: seq<Op>, info: seq<Info>, reqs: Reqs, h: nat)
    requires h in reqs && |info| == NUM
  {
    && Formatted(desc, ops, h, reqs[h]) && info[h].b == Some(reqs[h].b)
    && info[h].status == StatusOf(reqs[h].stage)
  }

  /** A buffer has at most one request, and b->disk says whether it is still to be completed. */
  ghost predicate BuffersOk(reqs: Reqs, headOf: map<nat, nat>, busy: set<nat>) {
    && (forall b :: b in headOf ==> headOf[b] in reqs && reqs[headOf[b]].b == b)
    && (forall h :: h in reqs ==> reqs[h].b in headOf && headOf[reqs[h].b] == h)
    && (forall b :: b in busy ==> b in headOf)
    && (forall h :: h in reqs ==> (reqs[h].b in busy <==> reqs[h].stage != Acked))
  }

  /** Every request ever made is completed or still in flight. */
  ghost predicate TicketsOk(reqs: Reqs, waiting: map<nat, nat>, done: set<nat>, issued: nat) {
    && (forall t: nat :: t < issued <==> t in done || t in waiting)
    && (forall t :: t in waiting ==> t !in done && waiting[t] in reqs && reqs[waiting[t]].ticket == t && reqs[waiting[t]].stage != Acked)
    && (forall h :: h in reqs ==> if reqs[h].stage == Acked then reqs[h].ticket in done
                                  else reqs[h].ticket in waiting && waiting[reqs[h].ticket] == h)
  }

  ghost predicate PendingOk(reqs: Reqs, pending: set<nat>) {
    forall h :: h in pending <==> h in reqs && reqs[h].stage == Taken
  }

  /** Everything about requests that is not in memory: those in flight, who holds which descriptor,
      the request of each buffer and of each number not completed, the numbers completed and issued,
      and how many entries ever went into and out of each ring. */
  datatype Ledger = Ledger(reqs: Reqs, part: map<nat, Part>, headOf: map<nat, nat>, waiting: map<nat, nat>,
                           done: set<nat>, issued: nat, posted: nat, fetched: nat, finished: nat, seen: nat)

  ghost predicate Booked(l: Ledger, busy: set<nat>, pending: set<nat>) {
    && BuffersOk(l.reqs, l.headOf, busy) && TicketsOk(l.reqs, l.waiting, l.done, l.issued) && PendingOk(l.reqs, pending)
  }

  ghost predicate Indexed(l: Ledger, availIdx: nat, fetchIdx: nat, usedIdx: nat, seenIdx: nat) {
    && availIdx == Low16(l.posted) && fetchIdx == Low16(l.fetched)
    && usedIdx == Low16(l.finished) && seenIdx == Low16(l.seen)
  }

  ghost predicate Queued(l: Ledger, avail: seq<nat>, used: seq<nat>) {
    InRing(avail, l.fetched, l.posted, l.reqs, Posted) && InRing(used, l.seen, l.finished, l.reqs, Finished)
  }

  class Disk {
    var free: seq<bool>
    var desc: seq<Desc>
    var ops: seq<Op>
    var info: seq<Info>
    var avail: seq<nat>        // avail->ring
    var availIdx: nat          // avail->idx
    var used: seq<nat>         // used->ring
    var usedIdx: nat           // used->idx
    var seenIdx: nat           // disk.used_idx
    var busy: set<nat>         // buffers with b->disk set
    var data: map<nat, Data>   // what buffers hold
    // the device
    var fetchIdx: nat          // next entry of the avail ring
    var pending: set<nat>      // chains taken and not finished
    var store: Store           // the disk

    ghost var l: Ledger

    ghost predicate Valid()
      reads this
    {
      && Shared(free, l.reqs, l.part) && ChainsOk(desc, ops, info, l.reqs) && Queued(l, avail, used)
      && Indexed(l, availIdx, fetchIdx, usedIdx, seenIdx) && Booked(l, busy, pending)
      && l.headOf.Keys <= data.Keys
    }

    /** The state that initialisation leaves. */
    constructor (store: Store)
      ensures Valid() && this.store == store && data == map[]
      ensures l == Ledger(map[], map[], map[], map[], {}, 0, 0, 0, 0, 0)
    {
      free, desc, ops := seq(NUM, _ => true), seq(NUM, _ => EMPTY), seq(NUM, _ => Op(false, 0));
      info, avail, used := seq(NUM, _ => Info(None, 0)), seq(NUM, _ => 0), seq(NUM, _ => 0);
      availIdx, usedIdx, seenIdx, fetchIdx := 0, 0, 0, 0;
      busy, data, pending, this.store := {}, map[], {}, store;
      l := Ledger(map[], map[], map[], map[], {}, 0, 0, 0, 0, 0);
    }

    // ---- descriptors ----

    /** alloc_desc: the first free descriptor. */
    method AllocDesc() returns (r: int)
      requires |free| == NUM
      modifies this`free
      ensures -1 <= r < NUM && (r == -1 <==> forall i :: 0 <= i < NUM ==> !old(free)[i])
      ensures r >= 0 ==> old(free)[r] && free == old(free)[r := false] && forall i :: 0 <= i < r ==> !old(free)[i]
      ensures r == -1 ==> free == old(free)
    {
      var i := 0;
      while i < NUM
        invariant 0 <= i <= NUM && free == old(free) && forall j :: 0 <= j < i ==> !free[j]
      {
        if free[i] {
          free := free[i := false];
          return i;
        }
        i := i + 1;
      }
      return -1;
    }

    /** free_desc: neither of its panics may happen. */
    method FreeDesc(i: nat)
      requires |free| == NUM && |desc| == NUM && i < NUM && !free[i]
      modifies this`free, this`desc
      ensures free == old(free)[i := true] && desc == old(desc)[i := EMPTY]
    {
      desc := desc[i := EMPTY];
      free := free[i := true];
    }

    /** alloc3_desc: three different free descriptors, or none taken. */
    method Alloc3Desc() returns (ok: bool, idx: seq<nat>)
      requires |free| == NUM && |desc| == NUM
      modifies this`free, this`desc
      ensures |desc| == NUM && forall i :: 0 <= i < NUM && !old(free)[i] ==> desc[i] == old(desc)[i]
      ensures ok ==> |idx| == 3 && idx[0] < NUM && idx[1] < NUM && idx[2] < NUM
      ensures ok ==> idx[0] != idx[1] && idx[0] != idx[2] && idx[1] != idx[2]
      ensures ok ==> old(free)[idx[0]] && old(free)[idx[1]] && old(free)[idx[2]]
      ensures ok ==> free == old(free)[idx[0] := false][idx[1] := false][idx[2] := false]
      ensures !ok ==> free == old(free) && |FreeSet(free)| < 3
    {
      hide Got, FreeSet;
      idx := [];
      ghost var free0 := free;
      GotNone(free);
      while |idx| < 3
        invariant |idx| <= 3 && desc == old(desc) && |free| == NUM && Got(free0, free, idx)
        decreases 3 - |idx|
      {
        ghost var free1 := free;
        var d := AllocDesc();
        if d < 0 {
          FewFree(free0, free, idx);
          Undo(idx, free0);
          return false, idx;
        }
        GotNext(free0, free1, idx, d);
        idx := idx + [d];
      }
      GotThree(free0, free, idx);
      ok := true;
    }

    /** The descriptors that alloc3_desc got go back. */
    method Undo(idx: seq<nat>, ghost free0: seq<bool>)
      requires |desc| == NUM && Got(free0, free, idx)
      modifies this`free, this`desc
      ensures free == free0 && |desc| == NUM
      ensures forall i :: 0 <= i < NUM && !free0[i] ==> desc[i] == old(desc)[i]
    {
      var j := 0;
      while j < |idx|
        invariant 0 <= j <= |idx| && |free| == NUM && |desc| == NUM
        invariant forall i :: 0 <= i < NUM ==> (free[i] <==> free0[i] && i !in idx[j..])
        invariant forall i :: 0 <= i < NUM && !free0[i] ==> desc[i] == old(desc)[i]
      {
        assert idx[j..] == [idx[j]] + idx[j + 1..];
        assert idx[j] !in idx[j + 1..];
        FreeDesc(idx[j]);
        j := j + 1;
      }
      assert free == free0;
    }

    // ---- the driver ----

    /** The three descriptors of a request, its header and its info. */
    method Format(b: nat, op: Op, idx: seq<nat>, ghost r: Req)
      requires |desc| == NUM && |ops| == NUM && |info| == NUM && |idx| == 3
      requires idx[0] < NUM && idx[1] < NUM && idx[2] < NUM
      requires idx[0] != idx[1] && idx[0] != idx[2] && idx[1] != idx[2]
      requires r.b == b && r.op == op && r.d1 == idx[1] && r.d2 == idx[2]
      modifies this`desc, this`ops, this`info
      ensures Formatted(desc, ops, idx[0], r) && |info| == NUM && info[idx[0]] == Info(Some(b), 0xff)
      ensures forall i :: 0 <= i < NUM && i !in idx ==> desc[i] == old(desc)[i] && ops[i] == old(ops)[i] && info[i] == old(info)[i]
    {
      var h, d1, d2 := idx[0], idx[1], idx[2];
      ops := ops[h := op];
      desc := desc[h := Desc(Header(h), HEADER_SIZE, true, false, d1)];
      desc := desc[d1 := Desc(Buffer(b), BSIZE, true, !op.out, d2)];
      info := info[h := info[h].(status := 0xff)];
      desc := desc[d2 := Desc(Status(h), STATUS_SIZE, false, true, 0)];
      info := info[h := info[h].(b := Some(b))];
    }

    /** virtio_disk_rw up to the notification. Without three free descriptors the caller sleeps. */
    method Submit(b: nat, blockno: Uint, write: bool) returns (ok: bool, h: nat)
      requires Valid() && b !in l.headOf && b in data
      modifies this`free, this`desc, this`ops, this`info, this`avail, this`availIdx, this`busy, this`l
      ensures Valid()
      ensures !ok ==> l == old(l) && 3 * |l.reqs| + 3 > NUM
      ensures ok ==> 3 * |old(l.reqs)| + 3 <= NUM && h !in old(l.reqs) && h in l.reqs && l == Opened(old(l), h, l.reqs[h])
      ensures ok ==> l.reqs[h].b == b && l.reqs[h].op == Op(write, SectorOf(blockno)) && l.reqs[h].ticket == old(l.issued)
      ensures ok ==> l.reqs[h].stage == Posted && l.reqs[h].at == old(l.posted)
    {
      hide Shared, Queued, ChainsOk, Booked, FreeSet, Formatted, SectorOf, WithParts, Opened, Indexed;
      h := 0;
      ghost var free0, desc0, ops0, info0 := free, desc, ops, info;
      Lengths(free, l.reqs, l.part, desc, ops, info);
      var idx;
      ok, idx := Alloc3Desc();
      if !ok {
        Balance(free, l.reqs, l.part);
        ChainsKept(free, l.reqs, l.part, desc0, desc, ops, info);
        return;
      }
      h := idx[0];
      var op := Op(write, SectorOf(blockno));
      ghost var r := Req(b, op, idx[1], idx[2], Posted, l.posted, l.issued);
      Format(b, op, idx, r);
      AddParts(free0, l.reqs, l.part, h, r);
      ChainsAdd(free0, l.reqs, l.part, desc0, ops0, info0, desc, ops, info, h, r);
      QueueFits(free0, l, avail, used);
      OpenedAt(l, h, r);
      Publish(b, h, r);
    }

    /** The request is in the ring and the device may see it. */
    method Publish(b: nat, h: nat, ghost r: Req)
      requires r.b == b && h !in l.reqs && r.stage == Posted && r.at == l.posted && r.ticket == l.issued
      requires Shared(free, l.reqs[h := r], WithParts(l.part, h, r.d1, r.d2)) && ChainsOk(desc, ops, info, l.reqs[h := r])
      requires Queued(l, avail, used) && |avail| == NUM && l.posted - l.fetched < NUM && b !in l.headOf && b in data
      requires Indexed(l, availIdx, fetchIdx, usedIdx, seenIdx) && Booked(l, busy, pending) && l.headOf.Keys <= data.Keys
      modifies this`avail, this`availIdx, this`busy, this`l
      ensures Valid() && l == Opened(old(l), h, r) && 3 * |old(l.reqs)| + 3 <= NUM
    {
      hide Shared, Queued, ChainsOk, Booked, Low16, Place, WithParts;
      Room(free, l.reqs, WithParts(l.part, h, r.d1, r.d2), h, r);
      OpenedOk(l, avail, used, busy, pending, h, r);
      WrapIndex(l.posted);
      busy := busy + {b};
      avail := avail[Place(availIdx) := h];
      availIdx := Low16(availIdx + 1);
      l := Opened(l, h, r);
    }

    // ---- the device ----

    /** The device takes the next chain from the avail ring. */
    method Fetch() returns (ok: bool, h: nat)
      requires Valid()
      modifies this`fetchIdx, this`pending, this`l
      ensures Valid() && (ok <==> old(l.fetched) < old(l.posted))
      ensures !ok ==> l == old(l)
      ensures ok ==> h in old(l.reqs) && old(l.reqs)[h].stage == Posted && l == Moved(old(l), h, Taken)
      ensures ok ==> old(l.reqs)[h].at == old(l.fetched)
    {
      hide Shared, Queued, ChainsOk, Booked, Low16, Place, Moved;
      h := 0;
      QueueFits(free, l, avail, used);
      WrapEqual(l.fetched, l.posted);
      if fetchIdx == availIdx {
        return false, h;
      }
      WrapIndex(l.fetched);
      h := avail[Place(fetchIdx)];
      FetchedOk(l, avail, used, busy, pending);
      StatusAt(desc, ops, info, l.reqs, h);
      MovedOk(free, desc, ops, info, info, l, h, Taken);
      MovedFields(l, h, Taken);
      pending := pending + {h};
      fetchIdx := Low16(fetchIdx + 1);
      l := Moved(l, h, Taken);
      ok := true;
    }

    /** The device carries out a chain it has taken, in any order, and puts it in the used ring. All
        it goes by is the descriptors. */
    method Finish(h: nat)
      requires Valid() && h in pending
      modifies this`info, this`data, this`store, this`used, this`usedIdx, this`pending, this`l
      ensures Valid() && h in old(l.reqs) && old(l.reqs)[h].stage == Taken && l == Moved(old(l), h, Finished)
      ensures var r := old(l.reqs)[h];
        r.b in data && Transferred(r.b, r.op, old(data), old(store), data, store)
    {
      hide Shared, Queued, ChainsOk, Booked, Low16, Place, Formatted, Moved;
      QueueFits(free, l, avail, used);
      TakenFacts(free, desc, ops, info, l, busy, pending, h, data.Keys);
      ghost var info0 := info;
      Transfer(h, l.reqs[h]);
      MovedOk(free, desc, ops, info0, info, l, h, Finished);
      PutUsed(h);
    }

    /** The device's entry in the used ring. */
    method PutUsed(h: nat)
      requires h in l.reqs && l.reqs[h].stage == Taken && |used| == NUM && l.finished - l.seen < NUM
      requires Queued(l, avail, used) && Indexed(l, availIdx, fetchIdx, usedIdx, seenIdx) && Booked(l, busy, pending)
      modifies this`used, this`usedIdx, this`pending, this`l
      ensures l == Moved(old(l), h, Finished) && l.headOf == old(l.headOf)
      ensures Queued(l, avail, used) && Indexed(l, availIdx, fetchIdx, usedIdx, seenIdx) && Booked(l, busy, pending)
    {
      hide Queued, Booked, Low16, Place, Moved;
      WrapIndex(l.finished);
      FinishedOk(l, avail, used, busy, pending, h);
      MovedFields(l, h, Finished);
      used := used[Place(usedIdx) := h];
      usedIdx := Low16(usedIdx + 1);
      pending := pending - {h};
      l := Moved(l, h, Finished);
    }

    /** The device's transfer, and its status byte. */
    method Transfer(h: nat, ghost r: Req)
      requires Formatted(desc, ops, h, r) && |info| == NUM && r.b in data
      modifies this`info, this`data, this`store
      ensures info == old(info)[h := old(info)[h].(status := 0)] && data.Keys == old(data.Keys)
      ensures Transferred(r.b, r.op, old(data), old(store), data, store)
    {
      var d1 := desc[h].next;
      var d2 := desc[d1].next;
      var op, b, len := ops[desc[h].addr.op], desc[d1].addr.b, desc[d1].len;
      if op.out {
        assert data[b][..BSIZE] == data[b];
        store := Kept(store, op.sector * SECTOR_SIZE, data[b][..len]);
      } else {
        var bytes := Fetched(store, op.sector * SECTOR_SIZE, len);
        assert bytes + data[b][BSIZE..] == bytes;
        data := data[b := bytes + data[b][len..]];
      }
      var status := desc[d2].addr.info;
      info := info[status := info[status].(status := 0)];
    }

    /** One round of virtio_disk_intr's loop. Its panic may not happen. */
    method Interrupt() returns (ok: bool, h: nat)
      requires Valid()
      modifies this`busy, this`seenIdx, this`l
      ensures Valid() && (ok <==> old(l.seen) < old(l.finished))
      ensures !ok ==> l == old(l)
      ensures ok ==> h in old(l.reqs) && old(l.reqs)[h].stage == Finished && l == Moved(old(l), h, Acked)
      ensures ok ==> old(l.reqs)[h].at == old(l.seen)
      ensures ok ==> old(l.reqs)[h].ticket !in old(l.done) && busy == old(busy) - {old(l.reqs)[h].b}
    {
      hide Shared, Queued, ChainsOk, Booked, Low16, Place, Moved;
      h := 0;
      QueueFits(free, l, avail, used);
      WrapEqual(l.seen, l.finished);
      if seenIdx == usedIdx {
        return false, h;
      }
      WrapIndex(l.seen);
      h := used[Place(seenIdx)];
      AckedOk(free, desc, ops, info, l, avail, used, busy, pending);
      assert info[h].status == 0;
      MovedOk(free, desc, ops, info, info, l, h, Acked);
      MovedFields(l, h, Acked);
      busy := busy - {info[h].b.value};
      seenIdx := Low16(seenIdx + 1);
      l := Moved(l, h, Acked);
      ok := true;
    }

    // ---- the rest of virtio_disk_rw ----

    /** free_chain: the three descriptors, by their links. */
    method FreeChain(head: nat, ghost r: Req)
      requires |free| == NUM && Formatted(desc, ops, head, r) && !free[head] && !free[r.d1] && !free[r.d2]
      requires head != r.d1 && head != r.d2 && r.d1 != r.d2
      modifies this`free, this`desc
      ensures free == old(free)[head := true][r.d1 := true][r.d2 := true] && |desc| == NUM
      ensures forall j :: 0 <= j < NUM && j != head && j != r.d1 && j != r.d2 ==> desc[j] == old(desc)[j]
    {
      ghost var chain := [head, r.d1, r.d2];
      ghost var k := 0;
      var i := head;
      while true
        invariant 0 <= k < 3 && i == chain[k] && |free| == NUM && |desc| == NUM
        invariant forall j :: 0 <= j < NUM ==> (free[j] <==> old(free)[j] || j in chain[..k])
        invariant forall j :: 0 <= j < NUM && j !in chain[..k] ==> desc[j] == old(desc)[j]
        decreases 3 - k
      {
        var chained, next := desc[i].chained, desc[i].next;
        assert chain[..k + 1] == chain[..k] + [i];
        FreeDesc(i);
        if !chained {
          assert chain[..k + 1] == chain;
          ThreeFreed(old(free), free, chain);
          return;
        }
        k := k + 1;
        i := next;
      }
    }

    /** The rest of virtio_disk_rw, once b->disk is clear. Neither panic of free_desc may happen. */
    method Complete(b: nat, h: nat)
      requires Valid() && h in l.reqs && l.reqs[h].b == b && b !in busy
      modifies this
      ensures Valid() && l == Closed(old(l), h) && old(l.reqs)[h].stage == Acked
      ensures data == old(data) && store == old(store)
    {
      hide Shared, Queued, ChainsOk, Booked, Formatted, Closed;
      ghost var r := l.reqs[h];
      ClosedOk(free, desc, ops, info, l, avail, used, busy, pending, h);
      ghost var desc0, info0 := desc, info;
      info := info[h := info[h].(b := None)];
      FreeChain(h, r);
      ChainsDrop(free, desc0, ops, info0, desc, info, l, h);
      l := Closed(l, h);
    }
  }

  /** The books with one more request. */
  ghost function Opened(l: Ledger, h: nat, r: Req): Ledger {
    l.(reqs := l.reqs[h := r], part := WithParts(l.part, h, r.d1, r.d2), headOf := l.headOf[r.b := h],
       waiting := l.waiting[r.ticket := h], issued := l.issued + 1, posted := l.posted + 1)
  }

  lemma OpenedAt(l: Ledger, h: nat, r: Req)
    ensures h in Opened(l, h, r).reqs && Opened(l, h, r).reqs[h] == r
  {}

  lemma OpenedOk(l: Ledger, avail: seq<nat>, used: seq<nat>, busy: set<nat>, pending: set<nat>, h: nat, r: Req)
    requires Queued(l, avail, used) && Booked(l, busy, pending) && l.posted - l.fetched < NUM
    requires h !in l.reqs && r.stage == Posted && r.at == l.posted && r.ticket == l.issued && r.b !in l.headOf
    ensures |avail| == NUM && Queued(Opened(l, h, r), avail[Place(l.posted) := h], used)
    ensures Booked(Opened(l, h, r), busy + {r.b}, pending)
  {
    hide InRing, BuffersOk, TicketsOk, PendingOk;
    RingLength(avail, l.fetched, l.posted, l.reqs, Posted);
    Enter(avail, l.fetched, l.posted, l.reqs, Posted, h, r);
    Elsewhere(used, l.seen, l.finished, l.reqs, Finished, h, r);
    BuffersAdd(l.reqs, l.headOf, busy, h, r);
    TicketsAdd(l.reqs, l.waiting, l.done, l.issued, h, r);
    PendingSame(l.reqs, pending, h, r);
  }

  lemma QueueFits(free: seq<bool>, l: Ledger, avail: seq<nat>, used: seq<nat>)
    requires Shared(free, l.reqs, l.part) && Queued(l, avail, used)
    ensures |avail| == |used| == NUM && l.posted - l.fetched < NUM && l.finished - l.seen < NUM
    ensures l.fetched <= l.posted && l.seen <= l.finished
  {
    RingFits(free, l.reqs, l.part, avail, l.fetched, l.posted, Posted);
    RingFits(free, l.reqs, l.part, used, l.seen, l.finished, Finished);
  }

  /** A block has gone from the buffer to the disk, or from the disk to the buffer. */
  ghost predicate Transferred(b: nat, op: Op, data: map<nat, Data>, store: Store, data': map<nat, Data>, store': Store) {
    && b in data
    && if op.out then data' == data && store' == Kept(store, op.sector * SECTOR_SIZE, data[b])
       else store' == store && data' == data[b := Fetched(store, op.sector * SECTOR_SIZE, BSIZE)]
  }

  // ---- a request moves on ----

  /** The books with a request one stage further. */
  ghost function Moved(l: Ledger, h: nat, stage: Stage): Ledger
    requires h in l.reqs && stage != Posted
  {
    var r := l.reqs[h];
    match stage
    case Taken => l.(reqs := l.reqs[h := r.(stage := Taken)], fetched := l.fetched + 1)
    case Finished => l.(reqs := l.reqs[h := r.(stage := Finished, at := l.finished)], finished := l.finished + 1)
    case Acked => l.(reqs := l.reqs[h := r.(stage := Acked)], seen := l.seen + 1,
                     done := l.done + {r.ticket}, waiting := l.waiting - {r.ticket})
  }

  /** How far a request is, and where. */
  ghost function AtStage(l: Ledger, h: nat, stage: Stage): Req
    requires h in l.reqs
  {
    if stage == Finished then l.reqs[h].(stage := stage, at := l.finished) else l.reqs[h].(stage := stage)
  }

  lemma MovedFields(l: Ledger, h: nat, stage: Stage)
    requires h in l.reqs && stage != Posted
    ensures var m, r := Moved(l, h, stage), AtStage(l, h, stage);
      && m.reqs == l.reqs[h := r] && r.b == l.reqs[h].b && r.ticket == l.reqs[h].ticket && r.op == l.reqs[h].op
      && r.d1 == l.reqs[h].d1 && r.d2 == l.reqs[h].d2 && r.stage == stage && (stage == Finished ==> r.at == l.finished)
      && m.part == l.part && m.headOf == l.headOf && m.issued == l.issued && m.posted == l.posted
      && m.fetched == (if stage == Taken then l.fetched + 1 else l.fetched)
      && m.finished == (if stage == Finished then l.finished + 1 else l.finished)
      && m.seen == (if stage == Acked then l.seen + 1 else l.seen)
      && m.done == (if stage == Acked then l.done + {r.ticket} else l.done)
      && m.waiting == (if stage == Acked then l.waiting - {r.ticket} else l.waiting)
  {}

  lemma MovedOk(free: seq<bool>, desc: seq<Desc>, ops: seq<Op>, info: seq<Info>, info': seq<Info>, l: Ledger, h: nat, stage: Stage)
    requires Shared(free, l.reqs, l.part) && ChainsOk(desc, ops, info, l.reqs) && h in l.reqs && stage != Posted
    requires info' == info || (h < |info| && info' == info[h := info[h].(status := 0)])
    requires h < |info'| && info'[h].status == StatusOf(stage)
    ensures Shared(free, Moved(l, h, stage).reqs, Moved(l, h, stage).part)
    ensures ChainsOk(desc, ops, info', Moved(l, h, stage).reqs)
  {
    MovedFields(l, h, stage);
    hide Moved, AtStage;
    var r := AtStage(l, h, stage);
    MoveOn(free, l.reqs, l.part, h, r);
    ChainsMoved(desc, ops, info, info', l.reqs, h, r);
  }

  lemma StatusAt(desc: seq<Desc>, ops: seq<Op>, info: seq<Info>, reqs: Reqs, h: nat)
    requires ChainsOk(desc, ops, info, reqs) && h in reqs
    ensures h < |info| && info[h].status == StatusOf(reqs[h].stage)
  {
    assert ChainOk(desc, ops, info, reqs, h);
  }

  lemma ChainsMoved(desc: seq<Desc>, ops: seq<Op>, info: seq<Info>, info': seq<Info>, reqs: Reqs, h: nat, r: Req)
    requires ChainsOk(desc, ops, info, reqs) && h in reqs
    requires r.b == reqs[h].b && r.op == reqs[h].op && r.d1 == reqs[h].d1 && r.d2 == reqs[h].d2
    requires info' == info || (h < |info| && info' == info[h := info[h].(status := 0)])
    requires h < |info'| && info'[h].status == StatusOf(r.stage)
    ensures ChainsOk(desc, ops, info', reqs[h := r])
  {
    assert ChainOk(desc, ops, info, reqs, h);
    var reqs' := reqs[h := r];
    forall g | g in reqs' ensures ChainOk(desc, ops, info', reqs', g) {
      assert ChainOk(desc, ops, info, reqs, g);
    }
  }

  lemma FirstEntry(ring: seq<nat>, lo: nat, hi: nat, reqs: Reqs, stage: Stage)
    requires InRing(ring, lo, hi, reqs, stage) && lo < hi && |ring| == NUM
    ensures ring[Place(lo)] in reqs && reqs[ring[Place(lo)]].stage == stage
    ensures EntryOk(ring, lo, reqs, stage)
  {
    assert EntryOk(ring, lo, reqs, stage);
  }

  lemma FetchedOk(l: Ledger, avail: seq<nat>, used: seq<nat>, busy: set<nat>, pending: set<nat>)
    requires Queued(l, avail, used) && Booked(l, busy, pending) && l.fetched < l.posted && |avail| == NUM
    ensures var h := avail[Place(l.fetched)];
      && h in l.reqs && l.reqs[h].stage == Posted && l.reqs[h].at == l.fetched
      && Queued(Moved(l, h, Taken), avail, used) && Booked(Moved(l, h, Taken), busy, pending + {h})
  {
    hide InRing, Booked, Place;
    FirstEntry(avail, l.fetched, l.posted, l.reqs, Posted);
    var h := avail[Place(l.fetched)];
    MovedFields(l, h, Taken);
    hide Moved, AtStage;
    var r := AtStage(l, h, Taken);
    Leave(avail, l.fetched, l.posted, l.reqs, Posted, r);
    Elsewhere(used, l.seen, l.finished, l.reqs, Finished, h, r);
    BooksMoved(l, busy, pending, h, Taken);
  }

  /** Neither taking nor finishing changes who waits for what. */
  lemma BooksMoved(l: Ledger, busy: set<nat>, pending: set<nat>, h: nat, stage: Stage)
    requires Booked(l, busy, pending) && h in l.reqs && l.reqs[h].stage != Acked && (stage == Taken || stage == Finished)
    ensures Booked(Moved(l, h, stage), busy, if stage == Taken then pending + {h} else pending - {h})
  {
    MovedFields(l, h, stage);
    hide Moved, AtStage;
    var r := AtStage(l, h, stage);
    hide BuffersOk, TicketsOk, PendingOk;
    BuffersMoved(l.reqs, l.headOf, busy, h, r);
    TicketsMoved(l.reqs, l.waiting, l.done, l.issued, h, r);
    PendingMoved(l.reqs, pending, h, r);
  }

  lemma PendingMoved(reqs: Reqs, pending: set<nat>, h: nat, r: Req)
    requires PendingOk(reqs, pending)
    ensures PendingOk(reqs[h := r], if r.stage == Taken then pending + {h} else pending - {h})
  {}

  lemma BuffersMoved(reqs: Reqs, headOf: map<nat, nat>, busy: set<nat>, h: nat, r: Req)
    requires BuffersOk(reqs, headOf, busy) && h in reqs && r.b == reqs[h].b && r.stage != Acked && reqs[h].stage != Acked
    ensures BuffersOk(reqs[h := r], headOf, busy)
  {}

  lemma TicketsMoved(reqs: Reqs, waiting: map<nat, nat>, done: set<nat>, issued: nat, h: nat, r: Req)
    requires TicketsOk(reqs, waiting, done, issued) && h in reqs && r.ticket == reqs[h].ticket
    requires r.stage != Acked && reqs[h].stage != Acked
    ensures TicketsOk(reqs[h := r], waiting, done, issued)
  {}

  ghost function SetOf(idx: seq<nat>): set<nat> {
    set i | i in idx
  }

  /** All free descriptors are among fewer than three. */
  lemma FewFree(free0: seq<bool>, free: seq<bool>, idx: seq<nat>)
    requires Got(free0, free, idx) && |idx| < 3 && forall i :: 0 <= i < NUM ==> !free[i]
    ensures |FreeSet(free0)| < 3
  {
    hide Below;
    SetOfSize(idx);
    var f, s := FreeSet(free0), SetOf(idx);
    forall i | i in f ensures i in s { assert free0[i] && !free[i]; }
    assert s == f + (s - f);
    DisjointSize(f, s - f);
  }

  lemma {:induction false} SetOfSize(idx: seq<nat>)
    ensures |SetOf(idx)| <= |idx|
  {
    if idx == [] {
      assert SetOf(idx) == {};
    } else {
      SetOfSize(idx[1..]);
      var rest := SetOf(idx[1..]);
      assert SetOf(idx) == rest + ({idx[0]} - rest);
      DisjointSize(rest, {idx[0]} - rest);
    }
  }

  /** Descriptors taken so far: different ones that were free. */
  ghost predicate Got(free0: seq<bool>, free: seq<bool>, idx: seq<nat>) {
    && |free0| == NUM && |free| == NUM
    && (forall k :: 0 <= k < |idx| ==> idx[k] < NUM && free0[idx[k]])
    && (forall k, l :: 0 <= k < l < |idx| ==> idx[k] != idx[l])
    && (forall i :: 0 <= i < NUM ==> (free[i] <==> free0[i] && i !in idx))
  }

  lemma GotNone(free: seq<bool>)
    requires |free| == NUM
    ensures Got(free, free, [])
  {}

  lemma GotNext(free0: seq<bool>, free: seq<bool>, idx: seq<nat>, d: nat)
    requires Got(free0, free, idx) && d < NUM && free[d]
    ensures Got(free0, free[d := false], idx + [d])
  {}

  lemma ThreeFreed(free0: seq<bool>, free: seq<bool>, idx: seq<nat>)
    requires |free0| == NUM && |free| == NUM && |idx| == 3 && forall k :: 0 <= k < 3 ==> idx[k] < NUM
    requires forall j :: 0 <= j < NUM ==> (free[j] <==> free0[j] || j in idx)
    ensures free == free0[idx[0] := true][idx[1] := true][idx[2] := true]
  {}

  lemma GotThree(free0: seq<bool>, free: seq<bool>, idx: seq<nat>)
    requires Got(free0, free, idx) && |idx| == 3
    ensures idx[0] < NUM && idx[1] < NUM && idx[2] < NUM && free0[idx[0]] && free0[idx[1]] && free0[idx[2]]
    ensures idx[0] != idx[1] && idx[0] != idx[2] && idx[1] != idx[2]
    ensures free == free0[idx[0] := false][idx[1] := false][idx[2] := false]
  {}

  // ---- what a new request keeps ----

  lemma Room(free: seq<bool>, reqs: Reqs, part: map<nat, Part>, h: nat, r: Req)
    requires Shared(free, reqs[h := r], part) && h !in reqs
    ensures 3 * |reqs| + 3 <= NUM
  {
    hide Shared, FreeSet;
    Balance(free, reqs[h := r], part);
    assert reqs[h := r].Keys == reqs.Keys + {h};
  }

  lemma Lengths(free: seq<bool>, reqs: Reqs, part: map<nat, Part>, desc: seq<Desc>, ops: seq<Op>, info: seq<Info>)
    requires Shared(free, reqs, part) && ChainsOk(desc, ops, info, reqs)
    ensures |free| == |desc| == |ops| == |info| == NUM
  {}

  lemma RingLength(ring: seq<nat>, lo: nat, hi: nat, reqs: Reqs, stage: Stage)
    requires InRing(ring, lo, hi, reqs, stage)
    ensures |ring| == NUM
  {}

  /** Writing free descriptors leaves the chains alone. */
  lemma ChainsKept(free: seq<bool>, reqs: Reqs, part: map<nat, Part>, desc: seq<Desc>, desc': seq<Desc>, ops: seq<Op>, info: seq<Info>)
    requires Shared(free, reqs, part) && ChainsOk(desc, ops, info, reqs) && |desc'| == NUM
    requires forall i :: 0 <= i < NUM && !free[i] ==> desc'[i] == desc[i]
    ensures ChainsOk(desc', ops, info, reqs)
  {
    forall h | h in reqs ensures ChainOk(desc', ops, info, reqs, h) {
      assert ChainOk(desc, ops, info, reqs, h) && PartsOk(reqs, part, h);
    }
  }

  lemma ChainsAdd(free: seq<bool>, reqs: Reqs, part: map<nat, Part>, desc: seq<Desc>, ops: seq<Op>, info: seq<Info>,
                  desc': seq<Desc>, ops': seq<Op>, info': seq<Info>, h: nat, r: Req)
    requires Shared(free, reqs, part) && ChainsOk(desc, ops, info, reqs) && |desc'| == |ops'| == |info'| == NUM
    requires h < NUM && free[h] && Formatted(desc', ops', h, r) && info'[h].b == Some(r.b) && info'[h].status == StatusOf(r.stage)
    requires forall i :: 0 <= i < NUM && !free[i] ==> desc'[i] == desc[i] && ops'[i] == ops[i] && info'[i] == info[i]
    ensures ChainsOk(desc', ops', info', reqs[h := r])
  {
    var reqs' := reqs[h := r];
    forall g | g in reqs' ensures ChainOk(desc', ops', info', reqs', g) {
      if g != h { assert ChainOk(desc, ops, info, reqs, g) && PartsOk(reqs, part, g); }
    }
  }

  lemma BuffersAdd(reqs: Reqs, headOf: map<nat, nat>, busy: set<nat>, h: nat, r: Req)
    requires BuffersOk(reqs, headOf, busy) && h !in reqs && r.b !in headOf && r.stage != Acked
    ensures BuffersOk(reqs[h := r], headOf[r.b := h], busy + {r.b})
  {}

  lemma TicketsAdd(reqs: Reqs, waiting: map<nat, nat>, done: set<nat>, issued: nat, h: nat, r: Req)
    requires TicketsOk(reqs, waiting, done, issued) && h !in reqs && r.ticket == issued && r.stage != Acked
    ensures TicketsOk(reqs[h := r], waiting[issued := h], done, issued + 1)
  {}

  lemma PendingSame(reqs: Reqs, pending: set<nat>, h: nat, r: Req)
    requires PendingOk(reqs, pending) && h !in reqs && r.stage != Taken
    ensures PendingOk(reqs[h := r], pending)
  {}

  /** The descriptors of a chain that the device has taken are the request's. */
  lemma TakenFacts(free: seq<bool>, desc: seq<Desc>, ops: seq<Op>, info: seq<Info>, l: Ledger,
                   busy: set<nat>, pending: set<nat>, h: nat, buffers: set<nat>)
    requires Shared(free, l.reqs, l.part) && ChainsOk(desc, ops, info, l.reqs) && Booked(l, busy, pending)
    requires h in pending && l.headOf.Keys <= buffers
    ensures h in l.reqs && l.reqs[h].stage == Taken && l.reqs[h].b in buffers && l.reqs[h].b in l.headOf
    ensures Formatted(desc, ops, h, l.reqs[h]) && |info| == NUM && h < NUM
  {
    assert ChainOk(desc, ops, info, l.reqs, h);
  }

  lemma FinishedOk(l: Ledger, avail: seq<nat>, used: seq<nat>, busy: set<nat>, pending: set<nat>, h: nat)
    requires Queued(l, avail, used) && Booked(l, busy, pending) && l.finished - l.seen < NUM && |used| == NUM
    requires h in l.reqs && l.reqs[h].stage == Taken
    ensures Queued(Moved(l, h, Finished), avail, used[Place(l.finished) := h])
    ensures Booked(Moved(l, h, Finished), busy, pending - {h})
  {
    MovedFields(l, h, Finished);
    hide Moved, AtStage;
    var r := AtStage(l, h, Finished);
    Enter(used, l.seen, l.finished, l.reqs, Finished, h, r);
    Elsewhere(avail, l.fetched, l.posted, l.reqs, Posted, h, r);
    hide InRing;
    BooksMoved(l, busy, pending, h, Finished);
  }

  lemma AckedOk(free: seq<bool>, desc: seq<Desc>, ops: seq<Op>, info: seq<Info>, l: Ledger,
                avail: seq<nat>, used: seq<nat>, busy: set<nat>, pending: set<nat>)
    requires Shared(free, l.reqs, l.part) && ChainsOk(desc, ops, info, l.reqs)
    requires Queued(l, avail, used) && Booked(l, busy, pending) && l.seen < l.finished && |used| == NUM
    ensures var h := used[Place(l.seen)];
      && h in l.reqs && l.reqs[h].stage == Finished && l.reqs[h].at == l.seen && h < NUM && |info| == NUM
      && info[h].status == 0 && info[h].b == Some(l.reqs[h].b) && l.reqs[h].ticket !in l.done
      && Queued(Moved(l, h, Acked), avail, used) && Booked(Moved(l, h, Acked), busy - {l.reqs[h].b}, pending)
  {
    var h := used[Place(l.seen)];
    AckedRing(l, avail, used);
    assert ChainOk(desc, ops, info, l.reqs, h);
    hide InRing, ChainsOk, Shared, ChainOk, Queued;
    AckedBooks(l, busy, pending, h);
  }

  lemma AckedBooks(l: Ledger, busy: set<nat>, pending: set<nat>, h: nat)
    requires Booked(l, busy, pending) && h in l.reqs && l.reqs[h].stage == Finished
    ensures l.reqs[h].ticket !in l.done && Booked(Moved(l, h, Acked), busy - {l.reqs[h].b}, pending)
  {
    MovedFields(l, h, Acked);
    hide Moved;
    assert h !in pending;
    hide BuffersOk, TicketsOk, PendingOk, AtStage;
    AckBuffers(l.reqs, l.headOf, busy, h, AtStage(l, h, Acked));
    AckTickets(l.reqs, l.waiting, l.done, l.issued, h, AtStage(l, h, Acked));
    PendingMoved(l.reqs, pending, h, AtStage(l, h, Acked));
    assert pending - {h} == pending;
  }

  lemma AckedRing(l: Ledger, avail: seq<nat>, used: seq<nat>)
    requires Queued(l, avail, used) && l.seen < l.finished && |used| == NUM
    ensures var h := used[Place(l.seen)];
      && h in l.reqs && l.reqs[h].stage == Finished && l.reqs[h].at == l.seen
      && Queued(Moved(l, h, Acked), avail, used)
  {
    var h := used[Place(l.seen)];
    assert EntryOk(used, l.seen, l.reqs, Finished);
    hide Place;
    MovedFields(l, h, Acked);
    hide Moved, AtStage;
    var r := AtStage(l, h, Acked);
    Leave(used, l.seen, l.finished, l.reqs, Finished, r);
    Elsewhere(avail, l.fetched, l.posted, l.reqs, Posted, h, r);
    hide InRing;
  }

  lemma AckBuffers(reqs: Reqs, headOf: map<nat, nat>, busy: set<nat>, h: nat, r: Req)
    requires BuffersOk(reqs, headOf, busy) && h in reqs && reqs[h].stage == Finished && r.stage == Acked && r.b == reqs[h].b
    ensures BuffersOk(reqs[h := r], headOf, busy - {r.b})
  {}

  lemma AckTickets(reqs: Reqs, waiting: map<nat, nat>, done: set<nat>, issued: nat, h: nat, r: Req)
    requires TicketsOk(reqs, waiting, done, issued) && h in reqs && reqs[h].stage == Finished
    requires r.stage == Acked && r.ticket == reqs[h].ticket
    ensures r.ticket !in done && TicketsOk(reqs[h := r], waiting - {r.ticket}, done + {r.ticket}, issued)
  {}

  // ---- a request ends ----

  /** The books without a request. */
  ghost function Closed(l: Ledger, h: nat): Ledger
    requires h in l.reqs
  {
    var r := l.reqs[h];
    l.(reqs := l.reqs - {h}, part := l.part - {h, r.d1, r.d2}, headOf := l.headOf - {r.b})
  }

  lemma ClosedOk(free: seq<bool>, desc: seq<Desc>, ops: seq<Op>, info: seq<Info>, l: Ledger,
                 avail: seq<nat>, used: seq<nat>, busy: set<nat>, pending: set<nat>, h: nat)
    requires Shared(free, l.reqs, l.part) && ChainsOk(desc, ops, info, l.reqs)
    requires Queued(l, avail, used) && Booked(l, busy, pending) && h in l.reqs && l.reqs[h].b !in busy
    ensures var r := l.reqs[h];
      && r.stage == Acked && |free| == |info| == NUM && Formatted(desc, ops, h, r) && h < NUM && r.d1 < NUM && r.d2 < NUM
      && !free[h] && !free[r.d1] && !free[r.d2] && h != r.d1 && h != r.d2 && r.d1 != r.d2
      && Shared(free[h := true][r.d1 := true][r.d2 := true], Closed(l, h).reqs, Closed(l, h).part)
    ensures Queued(Closed(l, h), avail, used) && Booked(Closed(l, h), busy, pending)
    ensures var c := Closed(l, h);
      && c.headOf.Keys <= l.headOf.Keys && c.posted == l.posted && c.fetched == l.fetched
      && c.finished == l.finished && c.seen == l.seen
  {
    var r := l.reqs[h];
    assert ChainOk(desc, ops, info, l.reqs, h);
    DropParts(free, l.reqs, l.part, h);
    ClosedParts(free, l.reqs, l.part, h);
    hide Shared, ChainsOk, Formatted;
    ClosedBooks(l, busy, pending, h);
    ClosedQueue(l, avail, used, h);
  }

  lemma ClosedParts(free: seq<bool>, reqs: Reqs, part: map<nat, Part>, h: nat)
    requires Shared(free, reqs, part) && h in reqs
    ensures var r := reqs[h];
      && h < NUM && r.d1 < NUM && r.d2 < NUM && !free[h] && !free[r.d1] && !free[r.d2]
      && h != r.d1 && h != r.d2 && r.d1 != r.d2
  {
    assert PartsOk(reqs, part, h);
    var r := reqs[h];
    assert IsPart(reqs, h, part[h]) && IsPart(reqs, r.d1, part[r.d1]) && IsPart(reqs, r.d2, part[r.d2]);
  }

  lemma ClosedQueue(l: Ledger, avail: seq<nat>, used: seq<nat>, h: nat)
    requires Queued(l, avail, used) && h in l.reqs && l.reqs[h].stage == Acked
    ensures Queued(Closed(l, h), avail, used)
  {
    Gone(avail, l.fetched, l.posted, l.reqs, Posted, h);
    Gone(used, l.seen, l.finished, l.reqs, Finished, h);
    hide InRing;
  }

  lemma ClosedBooks(l: Ledger, busy: set<nat>, pending: set<nat>, h: nat)
    requires Booked(l, busy, pending) && h in l.reqs && l.reqs[h].b !in busy
    ensures l.reqs[h].stage == Acked && Booked(Closed(l, h), busy, pending)
  {
    DropBuffers(l.reqs, l.headOf, busy, h);
    DropTickets(l.reqs, l.waiting, l.done, l.issued, h);
    hide BuffersOk, TicketsOk;
  }

  lemma DropBuffers(reqs: Reqs, headOf: map<nat, nat>, busy: set<nat>, h: nat)
    requires BuffersOk(reqs, headOf, busy) && h in reqs && reqs[h].b !in busy
    ensures reqs[h].stage == Acked && BuffersOk(reqs - {h}, headOf - {reqs[h].b}, busy)
  {}

  lemma DropTickets(reqs: Reqs, waiting: map<nat, nat>, done: set<nat>, issued: nat, h: nat)
    requires TicketsOk(reqs, waiting, done, issued) && h in reqs && reqs[h].stage == Acked
    ensures TicketsOk(reqs - {h}, waiting, done, issued)
  {}

  /** The other chains are as they were. */
  lemma ChainsDrop(free: seq<bool>, desc: seq<Desc>, ops: seq<Op>, info: seq<Info>, desc': seq<Desc>, info': seq<Info>, l: Ledger, h: nat)
    requires h in l.reqs && h < NUM && ChainsOk(desc, ops, info, l.reqs) && |desc'| == NUM && |free| == NUM
    requires Shared(free, Closed(l, h).reqs, Closed(l, h).part)
    requires forall j :: 0 <= j < NUM && j != h && j != l.reqs[h].d1 && j != l.reqs[h].d2 ==> desc'[j] == desc[j]
    requires info' == info[h := info[h].(b := None)]
    ensures ChainsOk(desc', ops, info', Closed(l, h).reqs)
  {
    var c := Closed(l, h);
    forall g | g in c.reqs ensures ChainOk(desc', ops, info', c.reqs, g) {
      assert ChainOk(desc, ops, info, l.reqs, g) && PartsOk(c.reqs, c.part, g);
    }
  }
}
