/** How begin_op admits operations to the log, and when log_write panics (kernel/log.c). */
module LogAdmission {
  import opened SetSizes
  import opened DiskBlocks
  import opened LogRecovery
  import opened BufferCache
  import opened RedoLog

  // ---- a buffer for the commit ----

  lemma {:induction false} ListedSize(s: seq<nat>)
    ensures |Listed(s)| <= |s|
    ensures Distinct(s) ==> |Listed(s)| == |s|
  {
    if s == [] {
      assert Listed(s) == {};
    } else {
      var n := |s| - 1;
      ListedSize(s[..n]);
      assert Listed(s) == Listed(s[..n]) + {s[n]} by {
        forall b | b in Listed(s[..n]) ensures b in Listed(s) {
          var j :| 0 <= j < |s[..n]| && s[..n][j] == b;
          assert s[j] == b;
        }
        forall b | b in Listed(s) ensures b in Listed(s[..n]) + {s[n]} {
          var j :| 0 <= j < |s| && s[j] == b;
          if j < n { assert s[..n][j] == b; }
        }
      }
      if Distinct(s) {
        assert s[n] !in Listed(s[..n]);
      }
    }
  }

  /** With nothing but the log's own pins, a log shorter than the cache leaves a buffer that
      commit can use: bget does not panic. */
  lemma SpareForCommit(dev: nat, bs: seq<Buf>, disk: Disk, view: Disk, lh: seq<nat>)
    requires Coherent(dev, bs, disk, view) && |lh| < |bs|
    requires forall i :: 0 <= i < |bs| && bs[i].refcnt > 0 ==> bs[i].blockno in lh
    ensures Spare(bs)
  {
    if !Spare(bs) {
      var s := seq(|bs|, i requires 0 <= i < |bs| => bs[i].blockno);
      assert forall i :: 0 <= i < |bs| ==> bs[i].refcnt > 0 && bs[i].dev == dev;
      assert Distinct(s);
      ListedSize(s);
      ListedSize(lh);
      forall b | b in Listed(s) ensures b in Listed(lh) {
        var i :| 0 <= i < |s| && s[i] == b;
        assert bs[i].blockno in lh;
      }
      SubsetSize(Listed(s), Listed(lh));
    }
  }

  // ---- full load ----

  datatype Act = Begin | Put(op: nat, block: nat) | End(op: nat)

  /** The blocks listed in the log header, and those each outstanding operation has written. */
  datatype Load = Load(listed: set<nat>, ops: seq<set<nat>>)

  const Idle := Load({}, [])

  /** begin_op lets the operation in. */
  predicate Admits(s: Load) {
    |s.listed| + (|s.ops| + 1) * MAXOPBLOCKS <= LOGSIZE
  }

  /** Operation op still has at most MAXOPBLOCKS blocks when it writes block b. */
  predicate InQuota(s: Load, op: nat, b: nat) {
    op < |s.ops| && |s.ops[op] + {b}| <= MAXOPBLOCKS
  }

  /** The test at the head of log_write, for a log of `size` blocks; whether the block is
      listed already is looked at only afterwards. */
  predicate Panics(s: Load, size: nat) {
    |s.listed| >= LOGSIZE || |s.listed| >= size - 1
  }

  predicate Enabled(s: Load, a: Act, size: nat) {
    match a
    case Begin => Admits(s)
    case Put(op, b) => InQuota(s, op, b) && !Panics(s, size)
    case End(op) => op < |s.ops|
  }

  /** The last end_op commits, which empties the header. */
  function After(s: Load, a: Act): Load {
    match a
    case Begin => Load(s.listed, s.ops + [{}])
    case Put(op, b) =>
      if op < |s.ops| then Load(s.listed + {b}, s.ops[op := s.ops[op] + {b}]) else s
    case End(op) =>
      if op < |s.ops| then
        var rest := s.ops[..op] + s.ops[op + 1..];
        Load(if rest == [] then {} else s.listed, rest)
      else s
  }

  /** Runs of operations that keep their quotas. */
  ghost predicate Reaches(s: Load, acts: seq<Act>, t: Load, size: nat)
    decreases |acts|
  {
    if acts == [] then s == t
    else Enabled(s, acts[0], size) && Reaches(After(s, acts[0]), acts[1..], t, size)
  }

  ghost function Counts(ops: seq<set<nat>>): (c: seq<nat>)
    ensures |c| == |ops| && forall i :: 0 <= i < |ops| ==> c[i] == |ops[i]|
  {
    seq(|ops|, i requires 0 <= i < |ops| => |ops[i]|)
  }

  /** What is listed and what the outstanding operations may still add fit into the header. */
  ghost predicate Reserved(s: Load, size: nat) {
    && (forall i :: 0 <= i < |s.ops| ==> s.ops[i] <= s.listed && |s.ops[i]| <= MAXOPBLOCKS)
    && |s.listed| + Unused(Counts(s.ops)) <= LOGSIZE
    && (s.listed == {} || |s.listed| < size)
    && (s.ops == [] ==> s.listed == {})
  }

  lemma PutReserved(s: Load, op: nat, b: nat, size: nat)
    requires Reserved(s, size) && Enabled(s, Put(op, b), size)
    ensures Reserved(After(s, Put(op, b)), size)
  {
    var c := Counts(s.ops);
    var t := After(s, Put(op, b));
    AddOne(s.ops[op], b);
    AddOne(s.listed, b);
    if b in s.ops[op] {
      assert s.ops[op] + {b} == s.ops[op] && s.listed + {b} == s.listed;
      assert t == s;
    } else {
      UnusedUse(c, op);
      assert Counts(t.ops) == c[op := c[op] + 1];
      if b in s.listed { assert s.listed + {b} == s.listed; }
    }
  }

  lemma BeginReserved(s: Load, size: nat)
    requires Reserved(s, size) && Admits(s)
    ensures Reserved(After(s, Begin), size)
  {
    var c := Counts(s.ops);
    UnusedAppend(c);
    UnusedBound(c);
    assert Counts(s.ops + [{}]) == c + [0];
  }

  lemma EndReserved(s: Load, op: nat, size: nat)
    requires Reserved(s, size) && op < |s.ops|
    ensures Reserved(After(s, End(op)), size)
  {
    var rest := s.ops[..op] + s.ops[op + 1..];
    UnusedRemove(Counts(s.ops), op);
    assert Counts(rest) == Remove(Counts(s.ops), op);
    if rest == [] { assert Counts(rest) == []; }
  }

  lemma StepReserved(s: Load, a: Act, size: nat)
    requires Reserved(s, size) && Enabled(s, a, size)
    ensures Reserved(After(s, a), size)
  {
    hide Reserved, After;
    match a
    case Begin => BeginReserved(s, size);
    case Put(op, b) => PutReserved(s, op, b, size);
    case End(op) => EndReserved(s, op, size);
  }

  lemma {:induction false} ReachesReserved(s: Load, acts: seq<Act>, t: Load, size: nat)
    requires Reaches(s, acts, t, size) && Reserved(s, size)
    ensures Reserved(t, size)
    decreases |acts|
  {
    if acts != [] {
      StepReserved(s, acts[0], size);
      ReachesReserved(After(s, acts[0]), acts[1..], t, size);
    }
  }

  /** When log_write panics on an operation that keeps its quota. A block that is new to the log
      meets only the size of the log on disk; a block that is listed already, and would need no
      room, also meets a full header. */
  lemma WritePanics(acts: seq<Act>, s: Load, op: nat, b: nat, size: nat)
    requires Reaches(Idle, acts, s, size) && InQuota(s, op, b)
    ensures Panics(s, size) <==> |s.listed| + 1 >= size || (b in s.listed && |s.listed| == LOGSIZE)
    ensures b !in s.listed ==> |s.listed| < LOGSIZE
  {
    ReachesReserved(Idle, acts, s, size);
    if b !in s.listed {
      AddOne(s.ops[op], b);
      UnusedRemove(Counts(s.ops), op);
    }
  }

  lemma {:induction false} ReachesConcat(s: Load, a: seq<Act>, t: Load, b: seq<Act>, u: Load, size: nat)
    requires Reaches(s, a, t, size) && Reaches(t, b, u, size)
    ensures Reaches(s, a + b, u, size)
    decreases |a|
  {
    if a == [] {
      assert a + b == b;
    } else {
      assert (a + b)[1..] == a[1..] + b;
      ReachesConcat(After(s, a[0]), a[1..], t, b, u, size);
    }
  }

  ghost function Span(lo: nat, hi: nat): set<nat>
    decreases hi
  {
    if lo >= hi then {} else Span(lo, hi - 1) + {hi - 1}
  }

  lemma {:induction false} SpanElems(lo: nat, hi: nat)
    ensures forall b :: b in Span(lo, hi) <==> lo <= b < hi
    decreases hi
  {
    if lo < hi { SpanElems(lo, hi - 1); }
  }

  lemma SpanNext(lo: nat, hi: nat)
    requires lo <= hi
    ensures Span(lo, lo) == {} && Span(lo, hi + 1) == Span(lo, hi) + {hi} && hi !in Span(lo, hi)
  {
    SpanElems(lo, hi);
  }

  lemma {:induction false} SpanSize(lo: nat, hi: nat)
    requires lo <= hi
    ensures |Span(lo, hi)| == hi - lo
    decreases hi
  {
    if lo < hi {
      SpanSize(lo, hi - 1);
      SpanNext(lo, hi - 1);
      AddOne(Span(lo, hi - 1), hi - 1);
    } else {
      SpanNext(lo, lo);
    }
  }

  /** One operation writes the next k blocks. */
  lemma {:induction false} Fill(s: Load, op: nat, lo: nat, n: nat, k: nat, size: nat) returns (acts: seq<Act>)
    requires op < |s.ops| && lo <= n && n + k <= lo + MAXOPBLOCKS && n + k < size && n + k <= LOGSIZE
    requires s.listed == Span(0, n) && s.ops[op] == Span(lo, n)
    ensures Reaches(s, acts, Load(Span(0, n + k), s.ops[op := Span(lo, n + k)]), size)
    decreases k
  {
    hide Span;
    if k == 0 {
      acts := [];
      assert s.ops[op := Span(lo, n)] == s.ops;
    } else {
      SpanNext(lo, n);
      SpanNext(0, n);
      SpanSize(lo, n + 1);
      SpanSize(0, n);
      var t := Load(Span(0, n + 1), s.ops[op := Span(lo, n + 1)]);
      var rest := Fill(t, op, lo, n + 1, k - 1, size);
      acts := [Put(op, n)] + rest;
      assert acts[1..] == rest && t == After(s, acts[0]) && Enabled(s, acts[0], size);
      assert t.ops[op := Span(lo, n + k)] == s.ops[op := Span(lo, n + k)];
    }
  }

  lemma ThreeBegin(size: nat)
    ensures Reaches(Idle, [Begin, Begin, Begin], Load({}, [{}, {}, {}]), size)
  {
    assert [Begin, Begin, Begin][1..] == [Begin, Begin] && [Begin, Begin][1..] == [Begin] && [Begin][1..] == [];
    var s1, s2, s3 := Load({}, [{}]), Load({}, [{}, {}]), Load({}, [{}, {}, {}]);
    assert After(Idle, Begin) == s1 && After(s1, Begin) == s2 && After(s2, Begin) == s3;
    assert Reaches(s3, [], s3, size);
    assert Reaches(s2, [Begin], s3, size);
    assert Reaches(s1, [Begin, Begin], s3, size);
  }

  /** Three operations, of x, y and z blocks. */
  lemma FillThree(x: nat, y: nat, z: nat, size: nat) returns (acts: seq<Act>)
    requires x <= 10 && y <= 10 && z <= 10 && x + y + z < size
    ensures Reaches(Load({}, [{}, {}, {}]), acts,
                    Load(Span(0, x + y + z), [Span(0, x), Span(x, x + y), Span(x + y, x + y + z)]), size)
  {
    hide Reaches, Span;
    var m := x + y + z;
    SpanNext(0, 0);
    SpanNext(x, x);
    SpanNext(x + y, x + y);
    var s0 := Load(Span(0, 0), [Span(0, 0), {}, {}]);
    var s1 := Load(Span(0, x), [Span(0, x), Span(x, x), {}]);
    var s2 := Load(Span(0, x + y), [Span(0, x), Span(x, x + y), Span(x + y, x + y)]);
    var s := Load(Span(0, m), [Span(0, x), Span(x, x + y), Span(x + y, m)]);
    assert s1.ops == s0.ops[0 := Span(0, x)];
    var a := Fill(s0, 0, 0, 0, x, size);
    assert s2.ops == s1.ops[1 := Span(x, x + y)];
    var b := Fill(s1, 1, x, x, y, size);
    assert s.ops == s2.ops[2 := Span(x + y, m)];
    var c := Fill(s2, 2, x + y, x + y, z, size);
    ReachesConcat(s1, b, s2, c, s, size);
    ReachesConcat(s0, a, s1, b + c, s, size);
    acts := a + (b + c);
  }

  /** Three operations within their quotas fill a log up to its check. */
  lemma FullLoad(size: nat) returns (acts: seq<Act>, s: Load, m: nat)
    ensures m == Min(LOGSIZE, Max(size, 1) - 1)
    ensures Reaches(Idle, acts, s, size) && |s.ops| == 3 && s.listed == Span(0, m) && Panics(s, size)
    ensures |s.ops[2]| == Max(m, 20) - 20 && (m == LOGSIZE ==> s.ops[2] == Span(20, LOGSIZE))
  {
    hide Reaches, Span;
    m := Min(LOGSIZE, Max(size, 1) - 1);
    SpanSize(0, m);
    ThreeBegin(size);
    if size == 0 {
      acts, s := [Begin, Begin, Begin], Load({}, [{}, {}, {}]);
      SpanNext(0, 0);
    } else {
      var x := Min(m, 10);
      var y := Min(m - x, 10);
      SpanSize(x + y, m);
      s := Load(Span(0, m), [Span(0, x), Span(x, x + y), Span(x + y, m)]);
      var rest := FillThree(x, y, m - x - y, size);
      acts := [Begin, Begin, Begin] + rest;
      ReachesConcat(Idle, [Begin, Begin, Begin], Load({}, [{}, {}, {}]), rest, s, size);
    }
  }

  ghost predicate Reachable(s: Load, size: nat) {
    exists acts :: Reaches(Idle, acts, s, size)
  }

  /** "Too big a transaction" is reached by operations that keep their quotas whatever the size
      of the log: above LOGSIZE blocks by writing a listed block once more. */
  lemma PanicReachable(size: nat) returns (s: Load, op: nat, b: nat)
    ensures Reachable(s, size) && InQuota(s, op, b) && Panics(s, size)
    ensures b in s.listed <==> size > LOGSIZE
  {
    hide Reaches;
    var acts, t, m := FullLoad(size);
    s, op := t, 2;
    SpanElems(0, m);
    SpanElems(20, LOGSIZE);
    if size > LOGSIZE {
      b := LOGSIZE - 1;
      assert s.ops[2] + {b} == s.ops[2];
    } else {
      b := m;
      AddOne(s.ops[2], b);
    }
  }

  /** Only the write of a block that is new to the log is safe above LOGSIZE blocks; mkfs makes
      the log LOGSIZE blocks long. */
  lemma NewBlockPanics(size: nat)
    ensures (exists s, op, b :: Reachable(s, size) && InQuota(s, op, b) && b !in s.listed && Panics(s, size))
       <==> size <= LOGSIZE
  {
    hide Reaches;
    if size <= LOGSIZE {
      var s, op, b := PanicReachable(size);
      assert Reachable(s, size) && InQuota(s, op, b) && b !in s.listed && Panics(s, size);
    } else {
      forall s, op, b | Reachable(s, size) && InQuota(s, op, b) && b !in s.listed ensures !Panics(s, size) {
        var acts :| Reaches(Idle, acts, s, size);
        WritePanics(acts, s, op, b, size);
      }
    }
  }
}
