/** The buffer cache (kernel/file/bio.c): a fixed set of buffers on one ring, most recently
    used first. `view` is the plain block store that the cache and the disk stand for. */
module BufferCache {
  import opened DiskBlocks
  import opened FreeLists
  import opened Options

  datatype Buf = Buf(dev: nat, blockno: nat, valid: bool, refcnt: nat, data: Data)

  predicate Caches(b: Buf, dev: nat, blockno: nat) {
    b.dev == dev && b.blockno == blockno
  }

  /** At most one buffer per block, valid buffers hold the block's contents, and a block
      that differs from its disk copy sits in a buffer that is referenced. */
  ghost predicate Coherent(dev: nat, bs: seq<Buf>, disk: Disk, view: Disk) {
    && dev > 0 && |view| == |disk|
    && (forall i :: 0 <= i < |bs| ==> bs[i].dev == 0 || (bs[i].dev == dev && bs[i].blockno < |disk|))
    && (forall i :: 0 <= i < |bs| && bs[i].dev == 0 ==> bs[i].refcnt == 0)
    && (forall i, j :: 0 <= i < j < |bs| && bs[i].dev == bs[j].dev == dev ==> bs[i].blockno != bs[j].blockno)
    && (forall i :: 0 <= i < |bs| && bs[i].dev == dev && bs[i].valid ==> bs[i].data == view[bs[i].blockno])
    && (forall b: nat :: b < |disk| && view[b] != disk[b] ==>
          exists i :: 0 <= i < |bs| && Caches(bs[i], dev, b) && bs[i].valid && bs[i].refcnt > 0)
  }

  /** Recycling an unreferenced buffer loses nothing: its block is on disk. */
  lemma Recycled(dev: nat, bs: seq<Buf>, disk: Disk, view: Disk, i: nat, b: nat)
    requires Coherent(dev, bs, disk, view) && i < |bs| && bs[i].refcnt == 0 && b < |disk|
    requires forall j :: 0 <= j < |bs| ==> !Caches(bs[j], dev, b)
    ensures Coherent(dev, bs[i := Buf(dev, b, false, 1, bs[i].data)], disk, view)
    ensures view[b] == disk[b]
  {
    var bs' := bs[i := Buf(dev, b, false, 1, bs[i].data)];
    forall c: nat | c < |disk| && view[c] != disk[c]
      ensures exists j :: 0 <= j < |bs'| && Caches(bs'[j], dev, c) && bs'[j].valid && bs'[j].refcnt > 0
    {
      var j :| 0 <= j < |bs| && Caches(bs[j], dev, c) && bs[j].valid && bs[j].refcnt > 0;
      assert bs'[j] == bs[j];
    }
  }

  lemma Referenced(dev: nat, bs: seq<Buf>, disk: Disk, view: Disk, i: nat, n: nat)
    requires Coherent(dev, bs, disk, view) && i < |bs| && bs[i].dev == dev
    requires n > 0 || view[bs[i].blockno] == disk[bs[i].blockno]
    ensures Coherent(dev, bs[i := bs[i].(refcnt := n)], disk, view)
  {
    var bs' := bs[i := bs[i].(refcnt := n)];
    forall c: nat | c < |disk| && view[c] != disk[c]
      ensures exists j :: 0 <= j < |bs'| && Caches(bs'[j], dev, c) && bs'[j].valid && bs'[j].refcnt > 0
    {
      var j :| 0 <= j < |bs| && Caches(bs[j], dev, c) && bs[j].valid && bs[j].refcnt > 0;
      assert Caches(bs'[j], dev, c) && bs'[j].valid && bs'[j].refcnt > 0;
    }
  }

  /** Reading a block into an invalid buffer; nothing else can hold a newer copy. */
  lemma Filled(dev: nat, bs: seq<Buf>, disk: Disk, view: Disk, i: nat)
    requires Coherent(dev, bs, disk, view) && i < |bs| && bs[i].dev == dev && !bs[i].valid
    ensures view[bs[i].blockno] == disk[bs[i].blockno]
    ensures Coherent(dev, bs[i := bs[i].(valid := true, data := disk[bs[i].blockno])], disk, view)
  {
    var bs' := bs[i := bs[i].(valid := true, data := disk[bs[i].blockno])];
    forall c: nat | c < |disk| && view[c] != disk[c]
      ensures exists j :: 0 <= j < |bs'| && Caches(bs'[j], dev, c) && bs'[j].valid && bs'[j].refcnt > 0
    {
      var j :| 0 <= j < |bs| && Caches(bs[j], dev, c) && bs[j].valid && bs[j].refcnt > 0;
      assert bs'[j] == bs[j];
    }
  }

  lemma Modified(dev: nat, bs: seq<Buf>, disk: Disk, view: Disk, i: nat, data: Data)
    requires Coherent(dev, bs, disk, view) && i < |bs| && bs[i].dev == dev && bs[i].valid && bs[i].refcnt > 0
    ensures Coherent(dev, bs[i := bs[i].(data := data)], disk, view[bs[i].blockno := data])
  {
    var bs' := bs[i := bs[i].(data := data)];
    var view' := view[bs[i].blockno := data];
    forall c: nat | c < |disk| && view'[c] != disk[c]
      ensures exists j :: 0 <= j < |bs'| && Caches(bs'[j], dev, c) && bs'[j].valid && bs'[j].refcnt > 0
    {
      if c == bs[i].blockno {
        assert Caches(bs'[i], dev, c);
      } else {
        var j :| 0 <= j < |bs| && Caches(bs[j], dev, c) && bs[j].valid && bs[j].refcnt > 0;
        assert bs'[j] == bs[j];
      }
    }
  }

  /** On the ring, nothing unreferenced was used longer ago than buffer i. */
  ghost predicate LeastRecent(ring: seq<nat>, bs: seq<Buf>, i: nat) {
    exists k ::
      && 1 <= k < |ring| && ring[k] == i
      && (forall j :: k < j < |ring| ==> ring[j] < |bs| && bs[ring[j]].refcnt > 0)
  }

  /** Buffer i goes to the front of the ring, the others keep their order. */
  ghost predicate MovedToFront(ring: seq<nat>, ring': seq<nat>, i: nat) {
    exists k :: 1 <= k < |ring| && ring[k] == i && ring' == Behind(Without(ring, k), i)
  }

  class Cache {
    const dev: nat
    const bufs: array<Buf>
    const lru: ListMemory        // list node i is buffer i, node bufs.Length is bcache.head
    var disk: Disk
    ghost var writes: seq<Write>  // every block write issued so far
    ghost var view: Disk

    ghost predicate Ring()
      reads lru
    {
      && lru.Valid() && |lru.rings| == 1
      && lru.rings[0][0] == bufs.Length
      && (forall p: nat :: p in lru.rings[0] <==> p <= bufs.Length)
    }

    ghost predicate Valid()
      reads this, bufs, lru
    {
      Ring() && Coherent(dev, bufs[..], disk, view)
    }

    lemma Sizes()
      requires Valid()
      ensures |view| == |disk|
    {}

    lemma InRange(i: nat)
      requires Valid() && i < bufs.Length && bufs[i].dev == dev
      ensures bufs[i].blockno < |disk| == |view|
    {}

    /** binit on a machine that has just booted, in front of the given disk. */
    constructor (dev: nat, disk: Disk)
      requires dev > 0
      ensures Valid() && fresh(bufs) && fresh(lru) && bufs.Length == NBUF
      ensures this.dev == dev && this.disk == disk == view && writes == []
      ensures forall i :: 0 <= i < NBUF ==> bufs[i].dev == 0 && bufs[i].refcnt == 0
    {
      this.dev := dev;
      this.disk, this.view := disk, disk;
      this.writes := [];
      bufs := new Buf[NBUF](_ => Buf(0, 0, false, 0, []));
      lru := new ListMemory();
      new;
      LinkBuffers();
    }

    method LinkBuffers()
      requires lru.Valid() && lru.rings == []
      modifies lru
      ensures Ring()
    {
      lru.Init(bufs.Length);
      var b := 0;
      assert lru.rings[0] == [bufs.Length];
      while b < bufs.Length
        invariant b <= bufs.Length && lru.Valid() && |lru.rings| == 1 && lru.rings[0][0] == bufs.Length
        invariant forall p: nat :: p in lru.rings[0] <==> p < b || p == bufs.Length
      {
        BehindElems(lru.rings[0], b);
        lru.Push(0, bufs.Length, b);
        b := b + 1;
      }
    }

    /** Behind the head the ring runs through the buffers, each of them once. */
    lemma RingSlots()
      requires Ring()
      ensures var r := lru.rings[0];
        && (forall j :: 1 <= j < |r| ==> r[j] < bufs.Length)
        && (forall i: nat :: i < bufs.Length ==> i in r[1..])
    {
      var r := lru.rings[0];
      assert NoDup(r);
      forall j | 1 <= j < |r| ensures r[j] < bufs.Length {
        assert r[j] in r && r[0] != r[j];
      }
      forall i: nat | i < bufs.Length ensures i in r[1..] {
        assert i in r;
        var j :| 0 <= j < |r| && r[j] == i;
        assert r[1..][j - 1] == i;
      }
    }

    /** The first scan of bget, from the most recently used buffer on. */
    method FindCached(blockno: nat) returns (r: Option<nat>)
      requires Ring()
      ensures r.Some? ==> r.value < bufs.Length && Caches(bufs[r.value], dev, blockno)
      ensures r.None? ==> forall i :: 0 <= i < bufs.Length ==> !Caches(bufs[i], dev, blockno)
    {
      ghost var ring := lru.rings[0];
      RingSlots();
      assert Linked(lru.next, lru.prev, ring);
      ghost var i := 1;
      var b := lru.next[bufs.Length];
      while b != bufs.Length
        invariant 1 <= i <= |ring| && b == if i < |ring| then ring[i] else bufs.Length
        invariant forall j :: 1 <= j < i ==> !Caches(bufs[ring[j]], dev, blockno)
        decreases |ring| - i
      {
        if bufs[b].dev == dev && bufs[b].blockno == blockno { return Some(b); }
        b := lru.next[b];
        i := i + 1;
      }
      forall k | 0 <= k < bufs.Length ensures !Caches(bufs[k], dev, blockno) {
        assert k in ring[1..];
        var j :| 0 <= j < |ring[1..]| && ring[1..][j] == k;
        assert ring[j + 1] == k;
      }
      r := None;
    }

    /** The second scan: the least recently used buffer that nobody references. */
    method FindUnused() returns (r: Option<nat>)
      requires Ring()
      ensures r.None? ==> forall i :: 0 <= i < bufs.Length ==> bufs[i].refcnt > 0
      ensures r.Some? ==> r.value < bufs.Length && bufs[r.value].refcnt == 0
      ensures r.Some? ==> LeastRecent(lru.rings[0], bufs[..], r.value)
    {
      ghost var ring := lru.rings[0];
      RingSlots();
      assert Linked(lru.next, lru.prev, ring);
      ghost var i := |ring| - 1;
      var b := lru.prev[bufs.Length];
      while b != bufs.Length
        invariant 0 <= i < |ring| && b == ring[i]
        invariant forall j :: i < j < |ring| ==> bufs[ring[j]].refcnt > 0
        decreases i
      {
        if bufs[b].refcnt == 0 {
          assert LeastRecent(ring, bufs[..], ring[i]);
          return Some(b);
        }
        b := lru.prev[b];
        i := i - 1;
      }
      assert i == 0 by { assert NoDup(ring); }
      forall k | 0 <= k < bufs.Length ensures bufs[k].refcnt > 0 {
        assert k in ring[1..];
        var j :| 0 <= j < |ring[1..]| && ring[1..][j] == k;
        assert ring[j + 1] == k;
      }
      r := None;
    }

    /** bget; None stands for the panic when every buffer is referenced. */
    method Bget(blockno: nat) returns (r: Option<nat>)
      requires Valid() && blockno < |disk|
      modifies bufs
      ensures Valid()
      ensures r.None? <==> forall i :: 0 <= i < bufs.Length ==>
        !Caches(old(bufs[i]), dev, blockno) && old(bufs[i].refcnt) > 0
      ensures r.None? ==> bufs[..] == old(bufs[..])
      ensures r.Some? ==> r.value < bufs.Length
      ensures r.Some? ==> (var i := r.value;
        if Caches(old(bufs[i]), dev, blockno)
        then bufs[..] == old(bufs[..])[i := old(bufs[i]).(refcnt := old(bufs[i].refcnt) + 1)]
        else old(bufs[i].refcnt) == 0 && (forall j :: 0 <= j < bufs.Length ==> !Caches(old(bufs[j]), dev, blockno))
             && LeastRecent(lru.rings[0], old(bufs[..]), i)
             && bufs[..] == old(bufs[..])[i := Buf(dev, blockno, false, 1, old(bufs[i].data))])
    {
      ghost var bs := bufs[..];
      var c := FindCached(blockno);
      if c.Some? {
        Referenced(dev, bs, disk, view, c.value, bs[c.value].refcnt + 1);
        bufs[c.value] := bufs[c.value].(refcnt := bufs[c.value].refcnt + 1);
        assert bufs[..] == bs[c.value := bs[c.value].(refcnt := bs[c.value].refcnt + 1)];
        return c;
      }
      var u := FindUnused();
      if u.Some? {
        Recycled(dev, bs, disk, view, u.value, blockno);
        bufs[u.value] := Buf(dev, blockno, false, 1, bufs[u.value].data);
        assert bufs[..] == bs[u.value := Buf(dev, blockno, false, 1, bs[u.value].data)];
      }
      r := u;
    }

    /** bread: a referenced buffer with the block's contents. */
    method Bread(blockno: nat) returns (r: Option<nat>)
      requires Valid() && blockno < |disk|
      modifies bufs
      ensures Valid()
      ensures r.None? <==> forall i :: 0 <= i < bufs.Length ==>
        !Caches(old(bufs[i]), dev, blockno) && old(bufs[i].refcnt) > 0
      ensures r.None? ==> bufs[..] == old(bufs[..])
      ensures r.Some? ==> r.value < bufs.Length && Caches(bufs[r.value], dev, blockno)
      ensures r.Some? ==> bufs[r.value].valid && bufs[r.value].data == view[blockno]
      ensures r.Some? ==> bufs[r.value].refcnt == old(bufs[r.value].refcnt) + 1
      ensures r.Some? ==> old(bufs[r.value].refcnt) == 0 || Caches(old(bufs[r.value]), dev, blockno)
      ensures r.Some? ==> bufs[..] == old(bufs[..])[r.value := bufs[r.value]]
    {
      r := Bget(blockno);
      if r.Some? {
        ghost var bs := bufs[..];
        var i := r.value;
        if !bufs[i].valid {
          Filled(dev, bs, disk, view, i);
          bufs[i] := bufs[i].(valid := true, data := disk[blockno]);
          assert bufs[..] == bs[i := bs[i].(valid := true, data := disk[blockno])];
        }
      }
    }

    /** The holder of a buffer changes its data. */
    method Modify(i: nat, data: Data)
      requires Valid() && i < bufs.Length && bufs[i].dev == dev && bufs[i].valid && bufs[i].refcnt > 0
      modifies bufs, this`view
      ensures Valid() && bufs[..] == old(bufs[..])[i := old(bufs[i]).(data := data)]
      ensures view == old(view)[bufs[i].blockno := data]
    {
      Modified(dev, bufs[..], disk, view, i, data);
      ghost var bs := bufs[..];
      bufs[i] := bufs[i].(data := data);
      assert bufs[..] == bs[i := bs[i].(data := data)];
      view := view[bufs[i].blockno := data];
    }

    method Bwrite(i: nat)
      requires Valid() && i < bufs.Length && bufs[i].dev == dev && bufs[i].valid && bufs[i].refcnt > 0
      modifies this`disk, this`writes
      ensures Valid() && disk == old(disk)[bufs[i].blockno := view[bufs[i].blockno]]
      ensures writes == old(writes) + [Write(bufs[i].blockno, view[bufs[i].blockno])]
    {
      writes := writes + [Write(bufs[i].blockno, bufs[i].data)];
      disk := disk[bufs[i].blockno := bufs[i].data];
    }

    /** brelse: an unreferenced buffer moves to the front of the ring. Releasing the last
        reference is harmless exactly for a block that is on disk. */
    method Brelse(i: nat)
      requires Valid() && i < bufs.Length && bufs[i].dev == dev && bufs[i].refcnt > 0
      requires bufs[i].refcnt > 1 || view[bufs[i].blockno] == disk[bufs[i].blockno]
      modifies bufs, lru
      ensures Valid() && bufs[..] == old(bufs[..])[i := old(bufs[i]).(refcnt := old(bufs[i].refcnt) - 1)]
      ensures bufs[i].refcnt > 0 ==> lru.rings == old(lru.rings)
      ensures bufs[i].refcnt == 0 ==> MovedToFront(old(lru.rings[0]), lru.rings[0], i)
    {
      Bunpin(i);
      if bufs[i].refcnt == 0 {
        MoveToFront(i);
      }
    }

    method MoveToFront(i: nat)
      requires Ring() && i < bufs.Length
      modifies lru
      ensures Ring() && MovedToFront(old(lru.rings[0]), lru.rings[0], i)
    {
      ghost var r := lru.rings[0];
      assert i in r;
      ghost var k :| 0 <= k < |r| && r[k] == i;
      lru.Remove(0, k, i);
      WithoutElems(r, k);
      ghost var r' := lru.rings[0];
      BehindElems(r', i);
      lru.Push(0, bufs.Length, i);
    }

    method Bpin(i: nat)
      requires Valid() && i < bufs.Length && bufs[i].dev == dev
      modifies bufs
      ensures Valid() && bufs[..] == old(bufs[..])[i := old(bufs[i]).(refcnt := old(bufs[i].refcnt) + 1)]
    {
      ghost var bs := bufs[..];
      Referenced(dev, bs, disk, view, i, bs[i].refcnt + 1);
      bufs[i] := bufs[i].(refcnt := bufs[i].refcnt + 1);
      assert bufs[..] == bs[i := bs[i].(refcnt := bs[i].refcnt + 1)];
    }

    method Bunpin(i: nat)
      requires Valid() && i < bufs.Length && bufs[i].dev == dev && bufs[i].refcnt > 0
      requires bufs[i].refcnt > 1 || view[bufs[i].blockno] == disk[bufs[i].blockno]
      modifies bufs
      ensures Valid() && bufs[..] == old(bufs[..])[i := old(bufs[i]).(refcnt := old(bufs[i].refcnt) - 1)]
    {
      ghost var bs := bufs[..];
      Referenced(dev, bs, disk, view, i, bs[i].refcnt - 1);
      bufs[i] := bufs[i].(refcnt := bufs[i].refcnt - 1);
      assert bufs[..] == bs[i := bs[i].(refcnt := bs[i].refcnt - 1)];
    }
  }
}
