/** Disk blocks, block writes, and the on-disk log header (kernel/log.c, kernel/file/fs.h). */
module DiskBlocks {

  const MAXOPBLOCKS: nat := 10
  const LOGSIZE: nat := 30       // MAXOPBLOCKS * 3
  const NBUF: nat := 30          // MAXOPBLOCKS * 3

  /** A block as the log sees it, an array of words. */
  type Data = seq<nat>

  type Disk = seq<Data>

  datatype Write = Write(block: nat, data: Data)

  /** The disk after a sequence of block writes, each of them atomic. */
  function Apply(disk: Disk, ws: seq<Write>): (d: Disk)
    requires forall w :: w in ws ==> w.block < |disk|
    ensures |d| == |disk|
  {
    if ws == [] then disk
    else Apply(disk, ws[..|ws| - 1])[ws[|ws| - 1].block := ws[|ws| - 1].data]
  }

  lemma {:induction false} ApplyConcat(disk: Disk, a: seq<Write>, b: seq<Write>)
    requires forall w :: w in a + b ==> w.block < |disk|
    ensures forall w :: w in a ==> w.block < |disk|
    ensures forall w :: w in b ==> w.block < |disk|
    ensures Apply(disk, a + b) == Apply(Apply(disk, a), b)
  {
    assert forall w :: w in a ==> w in a + b;
    assert forall w :: w in b ==> w in a + b;
    if b == [] {
      assert a + b == a;
    } else {
      var b' := b[..|b| - 1];
      assert (a + b)[..|a + b| - 1] == a + b';
      assert forall w :: w in a + b' ==> w in a + b;
      ApplyConcat(disk, a, b');
    }
  }

  /** Blocks that no write names keep their contents. */
  lemma {:induction false} ApplyOther(disk: Disk, ws: seq<Write>, b: nat)
    requires forall w :: w in ws ==> w.block < |disk| && w.block != b
    requires b < |disk|
    ensures Apply(disk, ws)[b] == disk[b]
  {
    if ws != [] {
      var i := |ws| - 1;
      assert ws[i] in ws;
      ApplyOther(disk, ws[..i], b);
    }
  }

  /** With distinct targets, each written block holds what was written to it. */
  lemma {:induction false} ApplyAt(disk: Disk, ws: seq<Write>, i: nat)
    requires forall w :: w in ws ==> w.block < |disk|
    requires forall j, k :: 0 <= j < k < |ws| ==> ws[j].block != ws[k].block
    requires i < |ws|
    ensures ws[i] in ws && Apply(disk, ws)[ws[i].block] == ws[i].data
  {
    var last := |ws| - 1;
    if i < last {
      ApplyAt(disk, ws[..last], i);
    }
  }

  // ---- the header block ----

  /** write_head: the count and the first entries; the rest of the block stays. */
  function HeadBlock(old_: Data, lh: seq<nat>): (d: Data)
    requires |lh| <= LOGSIZE
  {
    [|lh|] + lh + if |lh| < |old_| then old_[|lh| + 1..] else []
  }

  predicate HeadOk(d: Data) {
    0 < |d| && d[0] <= LOGSIZE && d[0] < |d|
  }

  /** read_head */
  function ReadHead(d: Data): (lh: seq<nat>)
    requires HeadOk(d)
  {
    d[1..1 + d[0]]
  }

  /** What write_head writes, read_head reads back. */
  lemma HeadRoundTrip(old_: Data, lh: seq<nat>)
    requires |lh| <= LOGSIZE
    ensures HeadOk(HeadBlock(old_, lh)) && ReadHead(HeadBlock(old_, lh)) == lh
  {
    var d := HeadBlock(old_, lh);
    assert d[0] == |lh|;
    assert d[1..1 + |lh|] == lh;
  }

  /** Behind the entries the block is as it was. */
  lemma HeadRest(old_: Data, lh: seq<nat>, k: nat)
    requires |lh| <= LOGSIZE && |lh| < k < |old_|
    ensures |HeadBlock(old_, lh)| == |old_| && HeadBlock(old_, lh)[k] == old_[k]
  {}
}
