/** Descriptors and rings that the disk driver shares with the device (kernel/hardware/virtio_disk.c,
    after sections 2.6 and 5.2 of VIRTIO 1.1). */
module VirtioRings {
  import opened SetSizes

  const NUM: nat := 8
  const WRAP: nat := 0x1_0000  // ring indices are 16 bits wide

  const BSIZE: nat := 1024

  /** What a buffer holds: the bytes of one block. */
  type Data = s: seq<nat> | |s| == BSIZE witness seq(BSIZE, _ => 0)

  /** A count as a 16-bit index. */
  function Low16(x: nat): nat {
    x % WRAP
  }

  /** The place of an index in a ring. */
  function Place(x: nat): (p: nat)
    ensures p < NUM
  {
    x % NUM
  }

  /** Wrapped indices count on and name the same places. */
  lemma WrapIndex(x: nat)
    ensures Place(Low16(x)) == Place(x) && Low16(Low16(x) + 1) == Low16(x + 1)
  {
    var q, r := x / 0x1_0000, x % 0x1_0000;
    assert x == 8 * (8192 * q) + r;
    ModEight(8192 * q, r);
    if r + 1 < 0x1_0000 {
      Mod16(q, r + 1);
    } else {
      Mod16(q + 1, 0);
    }
  }

  lemma Mod16(k: nat, r: nat)
    ensures (0x1_0000 * k + r) % 0x1_0000 == r % 0x1_0000
  {}

  /** Two counts close together have the same index only if they are the same. */
  lemma WrapEqual(x: nat, y: nat)
    requires x <= y <= x + NUM
    ensures Low16(x) == Low16(y) <==> x == y
  {}

  /** What a descriptor points at. */
  datatype Addr = Null | Header(op: nat) | Buffer(b: nat) | Status(info: nat)

  datatype Desc = Desc(addr: Addr, len: nat, chained: bool, deviceWrites: bool, next: nat)

  const EMPTY := Desc(Null, 0, false, false, 0)

  /** A block request's header: direction and sector. */
  datatype Op = Op(out: bool, sector: nat)

  // ---- requests in flight ----

  datatype Stage = Posted | Taken | Finished | Acked

  /** A request, by the head of its chain: what was asked, its other descriptors, how far it is, its
      place in the ring it is in, and its number. */
  datatype Req = Req(b: nat, op: Op, d1: nat, d2: nat, stage: Stage, at: nat, ticket: nat)

  type Reqs = map<nat, Req>

  /** What a descriptor is to its request. */
  datatype Part = Part(head: nat, pos: nat)

  predicate IsPart(reqs: Reqs, i: nat, q: Part) {
    q.head in reqs &&
    ((q.pos == 0 && i == q.head) || (q.pos == 1 && i == reqs[q.head].d1) || (q.pos == 2 && i == reqs[q.head].d2))
  }

  ghost predicate PartsOk(reqs: Reqs, part: map<nat, Part>, h: nat)
    requires h in reqs
  {
    && h in part && part[h] == Part(h, 0)
    && reqs[h].d1 in part && part[reqs[h].d1] == Part(h, 1)
    && reqs[h].d2 in part && part[reqs[h].d2] == Part(h, 2)
  }

  /** Each descriptor is free or one part of one request. */
  ghost predicate Shared(free: seq<bool>, reqs: Reqs, part: map<nat, Part>) {
    && |free| == NUM
    && (forall h {:trigger PartsOk(reqs, part, h)} :: h in reqs ==> PartsOk(reqs, part, h))
    && (forall i {:trigger IsPart(reqs, i, part[i])} :: i in part ==> i < NUM && IsPart(reqs, i, part[i]))
    && (forall i: nat {:trigger free[i]} :: i < NUM ==> (free[i] <==> i !in part))
  }

  // ---- the chain in memory ----

  const HEADER_SIZE: nat := 16  // type, reserved and sector
  const STATUS_SIZE: nat := 1

  /** The three descriptors say what the request asks. */
  ghost predicate Formatted(desc: seq<Desc>, ops: seq<Op>, h: nat, r: Req) {
    && |desc| == NUM && |ops| == NUM && h < NUM && r.d1 < NUM && r.d2 < NUM
    && desc[h] == Desc(Header(h), HEADER_SIZE, true, false, r.d1) && ops[h] == r.op
    && desc[r.d1] == Desc(Buffer(r.b), BSIZE, true, !r.op.out, r.d2)
    && desc[r.d2].addr == Status(h) && desc[r.d2].len == STATUS_SIZE && !desc[r.d2].chained && desc[r.d2].deviceWrites
  }

  // ---- the rings ----

  /** Entries from..upto of a ring are the requests of a stage, each at its place. */
  ghost predicate InRing(ring: seq<nat>, lo: nat, hi: nat, reqs: Reqs, stage: Stage) {
    && |ring| == NUM && lo <= hi
    && (forall k: nat :: lo <= k < hi ==> EntryOk(ring, k, reqs, stage))
    && (forall h :: h in reqs && reqs[h].stage == stage ==> lo <= reqs[h].at < hi && ring[Place(reqs[h].at)] == h)
  }

  ghost predicate EntryOk(ring: seq<nat>, k: nat, reqs: Reqs, stage: Stage)
    requires |ring| == NUM
  {
    var h := ring[Place(k)];
    h in reqs && reqs[h].stage == stage && reqs[h].at == k
  }

  // ---- counting ----

  ghost function PartsOf(part: map<nat, Part>, heads: set<nat>): set<nat> {
    set i | i in part && part[i].head in heads
  }

  /** Requests hold three descriptors each. */
  lemma {:induction false} ThreeEach(free: seq<bool>, reqs: Reqs, part: map<nat, Part>, heads: set<nat>)
    requires Shared(free, reqs, part) && heads <= reqs.Keys
    ensures |PartsOf(part, heads)| == 3 * |heads|
    decreases heads
  {
    if heads == {} {
      assert PartsOf(part, heads) == {};
    } else {
      var h :| h in heads;
      var rest := heads - {h};
      ThreeEach(free, reqs, part, rest);
      var own := {h, reqs[h].d1, reqs[h].d2};
      OwnParts(free, reqs, part, h);
      assert PartsOk(reqs, part, h);
      assert PartsOf(part, heads) == PartsOf(part, rest) + own;
      DisjointSize(PartsOf(part, rest), own);
    }
  }

  lemma OwnParts(free: seq<bool>, reqs: Reqs, part: map<nat, Part>, h: nat)
    requires Shared(free, reqs, part) && h in reqs
    ensures |{h, reqs[h].d1, reqs[h].d2}| == 3
    ensures forall i :: i in part ==> (part[i].head == h <==> i in {h, reqs[h].d1, reqs[h].d2})
  {
    assert PartsOk(reqs, part, h);
    forall i | i in part ensures part[i].head == h <==> i in {h, reqs[h].d1, reqs[h].d2} {
      assert IsPart(reqs, i, part[i]);
    }
  }

  ghost function Below(n: nat): (s: set<nat>)
    ensures |s| == n && forall i: nat :: i in s <==> i < n
  {
    if n == 0 then {} else Below(n - 1) + {n - 1}
  }

  ghost function FreeSet(free: seq<bool>): set<nat>
    requires |free| == NUM
  {
    set i | i in Below(NUM) && free[i]
  }

  lemma FreeOrPart(free: seq<bool>, reqs: Reqs, part: map<nat, Part>)
    requires Shared(free, reqs, part)
    ensures FreeSet(free) !! part.Keys && FreeSet(free) + part.Keys == Below(NUM)
    ensures PartsOf(part, reqs.Keys) == part.Keys
  {
    hide Below;
    forall i | i in part ensures part[i].head in reqs && i < NUM && !free[i] { assert IsPart(reqs, i, part[i]); }
    forall i: nat | i in Below(NUM) ensures i in FreeSet(free) || i in part { assert free[i] || i in part; }
  }

  /** Free descriptors and three for each request make NUM. */
  lemma Balance(free: seq<bool>, reqs: Reqs, part: map<nat, Part>)
    requires Shared(free, reqs, part)
    ensures |FreeSet(free)| + 3 * |reqs| == NUM
  {
    ThreeEach(free, reqs, part, reqs.Keys);
    FreeOrPart(free, reqs, part);
    hide Shared, Below, FreeSet, PartsOf;
    DisjointSize(FreeSet(free), part.Keys);
    assert |Below(NUM)| == NUM;
    assert |reqs.Keys| == |reqs|;
  }

  ghost function Entries(ring: seq<nat>, lo: nat, hi: nat): set<nat>
    requires |ring| == NUM
  {
    set k: nat | lo <= k < hi :: ring[Place(k)]
  }

  /** A ring holds no more entries than there are requests. */
  lemma {:induction false} RingCount(ring: seq<nat>, lo: nat, hi: nat, reqs: Reqs, stage: Stage)
    requires |ring| == NUM && lo <= hi && forall k: nat :: lo <= k < hi ==> EntryOk(ring, k, reqs, stage)
    ensures Entries(ring, lo, hi) <= reqs.Keys && |Entries(ring, lo, hi)| == hi - lo
    decreases hi
  {
    if lo < hi {
      RingCount(ring, lo, hi - 1, reqs, stage);
      var rest, h := Entries(ring, lo, hi - 1), ring[Place(hi - 1)];
      assert EntryOk(ring, hi - 1, reqs, stage);
      assert h !in rest by {
        forall k: nat | lo <= k < hi - 1 ensures ring[Place(k)] != h { assert EntryOk(ring, k, reqs, stage); }
      }
      assert Entries(ring, lo, hi) == rest + {h};
    } else {
      assert Entries(ring, lo, hi) == {};
    }
  }

  /** There is always room in the rings. */
  lemma RingRoom(free: seq<bool>, reqs: Reqs, part: map<nat, Part>, ring: seq<nat>, lo: nat, hi: nat, stage: Stage)
    requires Shared(free, reqs, part) && InRing(ring, lo, hi, reqs, stage)
    ensures hi - lo <= |reqs| && 3 * |reqs| <= NUM
  {
    Balance(free, reqs, part);
    RingCount(ring, lo, hi, reqs, stage);
    var s, t := Entries(ring, lo, hi), reqs.Keys;
    assert t == s + (t - s);
    assert |reqs.Keys| == |reqs|;
  }

  lemma RingFits(free: seq<bool>, reqs: Reqs, part: map<nat, Part>, ring: seq<nat>, lo: nat, hi: nat, stage: Stage)
    requires Shared(free, reqs, part) && InRing(ring, lo, hi, reqs, stage)
    ensures hi - lo < NUM
  {
    RingRoom(free, reqs, part, ring, lo, hi, stage);
  }

  // ---- how the parts change ----

  function WithParts(part: map<nat, Part>, h: nat, d1: nat, d2: nat): map<nat, Part> {
    part[h := Part(h, 0)][d1 := Part(h, 1)][d2 := Part(h, 2)]
  }

  lemma AddParts(free: seq<bool>, reqs: Reqs, part: map<nat, Part>, h: nat, r: Req)
    requires Shared(free, reqs, part) && h < NUM && r.d1 < NUM && r.d2 < NUM
    requires free[h] && free[r.d1] && free[r.d2] && h != r.d1 && h != r.d2 && r.d1 != r.d2
    ensures h !in reqs && Shared(free[h := false][r.d1 := false][r.d2 := false], reqs[h := r], WithParts(part, h, r.d1, r.d2))
  {
    var free', reqs', part' := free[h := false][r.d1 := false][r.d2 := false], reqs[h := r], WithParts(part, h, r.d1, r.d2);
    assert h in reqs ==> PartsOk(reqs, part, h);
    forall g | g in reqs' ensures PartsOk(reqs', part', g) {
      if g != h { assert PartsOk(reqs, part, g); }
    }
    forall i | i in part' ensures i < NUM && IsPart(reqs', i, part'[i]) {
      if i in part { assert IsPart(reqs, i, part[i]); }
    }
  }

  lemma DropParts(free: seq<bool>, reqs: Reqs, part: map<nat, Part>, h: nat)
    requires Shared(free, reqs, part) && h in reqs
    ensures h < NUM && reqs[h].d1 < NUM && reqs[h].d2 < NUM
    ensures Shared(free[h := true][reqs[h].d1 := true][reqs[h].d2 := true], reqs - {h},
                   part - {h, reqs[h].d1, reqs[h].d2})
  {
    assert PartsOk(reqs, part, h);
    var r := reqs[h];
    assert IsPart(reqs, h, part[h]) && IsPart(reqs, r.d1, part[r.d1]) && IsPart(reqs, r.d2, part[r.d2]);
    var free', reqs', part' := free[h := true][r.d1 := true][r.d2 := true], reqs - {h}, part - {h, r.d1, r.d2};
    forall g | g in reqs' ensures PartsOk(reqs', part', g) { assert PartsOk(reqs, part, g); }
    forall i | i in part' ensures i < NUM && IsPart(reqs', i, part'[i]) { assert IsPart(reqs, i, part[i]); }
  }

  /** A request may move on without its descriptors changing hands. */
  lemma MoveOn(free: seq<bool>, reqs: Reqs, part: map<nat, Part>, h: nat, r: Req)
    requires Shared(free, reqs, part) && h in reqs && r.d1 == reqs[h].d1 && r.d2 == reqs[h].d2
    ensures Shared(free, reqs[h := r], part)
  {
    var reqs' := reqs[h := r];
    forall g | g in reqs' ensures PartsOk(reqs', part, g) { assert PartsOk(reqs, part, g); }
    forall i | i in part ensures i < NUM && IsPart(reqs', i, part[i]) { assert IsPart(reqs, i, part[i]); }
  }

  // ---- how the rings change ----

  /** A new entry goes where no waiting one is. */
  lemma Enter(ring: seq<nat>, lo: nat, hi: nat, reqs: Reqs, stage: Stage, h: nat, r: Req)
    requires InRing(ring, lo, hi, reqs, stage) && hi - lo < NUM && r.stage == stage && r.at == hi
    requires h in reqs ==> reqs[h].stage != stage
    ensures InRing(ring[Place(hi) := h], lo, hi + 1, reqs[h := r], stage)
  {
    var ring', reqs' := ring[Place(hi) := h], reqs[h := r];
    forall k: nat | lo <= k < hi + 1 ensures EntryOk(ring', k, reqs', stage) {
      if k < hi {
        assert EntryOk(ring, k, reqs, stage);
        Apart(k, hi);
      }
    }
    forall g | g in reqs' && reqs'[g].stage == stage ensures lo <= reqs'[g].at < hi + 1 && ring'[Place(reqs'[g].at)] == g {
      if g != h { Apart(reqs[g].at, hi); }
    }
  }

  lemma Apart(k: nat, hi: nat)
    requires k < hi < k + NUM
    ensures Place(k) != Place(hi)
  {}

  /** The oldest entry leaves. */
  lemma Leave(ring: seq<nat>, lo: nat, hi: nat, reqs: Reqs, stage: Stage, r: Req)
    requires InRing(ring, lo, hi, reqs, stage) && lo < hi && r.stage != stage
    ensures InRing(ring, lo + 1, hi, reqs[ring[Place(lo)] := r], stage)
  {
    var h := ring[Place(lo)];
    assert EntryOk(ring, lo, reqs, stage);
    var reqs' := reqs[h := r];
    forall k: nat | lo + 1 <= k < hi ensures EntryOk(ring, k, reqs', stage) {
      assert EntryOk(ring, k, reqs, stage);
    }
  }

  /** Requests of other stages do not matter to a ring. */
  lemma Elsewhere(ring: seq<nat>, lo: nat, hi: nat, reqs: Reqs, stage: Stage, h: nat, r: Req)
    requires InRing(ring, lo, hi, reqs, stage) && r.stage != stage && (h in reqs ==> reqs[h].stage != stage)
    ensures InRing(ring, lo, hi, reqs[h := r], stage)
  {
    var reqs' := reqs[h := r];
    forall k: nat | lo <= k < hi ensures EntryOk(ring, k, reqs', stage) {
      assert EntryOk(ring, k, reqs, stage);
    }
  }

  lemma Gone(ring: seq<nat>, lo: nat, hi: nat, reqs: Reqs, stage: Stage, h: nat)
    requires InRing(ring, lo, hi, reqs, stage) && h in reqs && reqs[h].stage != stage
    ensures InRing(ring, lo, hi, reqs - {h}, stage)
  {
    var reqs' := reqs - {h};
    forall k: nat | lo <= k < hi ensures EntryOk(ring, k, reqs', stage) {
      assert EntryOk(ring, k, reqs, stage);
    }
  }
}
