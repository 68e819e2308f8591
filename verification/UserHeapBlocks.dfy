/** The free list of the user heap and what its blocks cover (user/umalloc.c). Addresses and sizes
    are in units of a header. */
module UserHeapBlocks {
  import opened SetSizes

  type Links = map<nat, nat>  // s.ptr or s.size of the header at an address

  // ---- the cycle ----

  /** The link of a free header leads to the next higher one, that of the highest back to the base. */
  ghost predicate LinkOk(base: nat, free: set<nat>, ptr: Links, a: nat) {
    && a in ptr && ptr[a] in free
    && (if ptr[a] == base then forall b :: b in free ==> b <= a
        else a < ptr[a] && forall b :: b in free ==> b <= a || ptr[a] <= b)
  }

  /** One cycle through the free headers by rising address, with one step back, to the base. */
  ghost predicate Cycle(base: nat, free: set<nat>, ptr: Links) {
    && base in free && (forall a :: a in free ==> base <= a)
    && (forall a {:trigger LinkOk(base, free, ptr, a)} :: a in free ==> LinkOk(base, free, ptr, a))
  }

  /** No free header lies between p and b. */
  ghost predicate Before(free: set<nat>, p: nat, b: nat) {
    p in free && p < b && forall a :: a in free ==> a <= p || b < a
  }

  lemma CycleInsert(base: nat, free: set<nat>, ptr: Links, p: nat, b: nat)
    requires Cycle(base, free, ptr) && Before(free, p, b)
    ensures p in ptr && Cycle(base, free + {b}, ptr[b := ptr[p]][p := b])
  {
    assert LinkOk(base, free, ptr, p);
    var free', ptr' := free + {b}, ptr[b := ptr[p]][p := b];
    forall a | a in free' ensures LinkOk(base, free', ptr', a) {
      if a != b { assert LinkOk(base, free, ptr, a); }
    }
  }

  lemma CycleRemove(base: nat, free: set<nat>, ptr: Links, p: nat)
    requires Cycle(base, free, ptr) && p in free && p in ptr && ptr[p] != base
    ensures ptr[p] in ptr && Cycle(base, free - {ptr[p]}, ptr[p := ptr[ptr[p]]])
  {
    assert LinkOk(base, free, ptr, p) && LinkOk(base, free, ptr, ptr[p]);
    var free', ptr' := free - {ptr[p]}, ptr[p := ptr[ptr[p]]];
    forall a | a in free' ensures LinkOk(base, free', ptr', a) {
      assert LinkOk(base, free, ptr, a);
    }
  }

  /** The header so many links on. */
  function Follow(ptr: Links, a: nat, n: nat): nat {
    if n == 0 then a
    else
      var b := Follow(ptr, a, n - 1);
      if b in ptr then ptr[b] else b
  }

  ghost function Lower(free: set<nat>, a: nat): set<nat> {
    set b | b in free && b < a
  }

  lemma Highest(s: set<nat>) returns (m: nat)
    requires s != {}
    ensures m in s && forall b :: b in s ==> b <= m
    decreases s
  {
    var x :| x in s;
    m := x;
    if s != {x} {
      assert s == (s - {x}) + {x};
      var r := Highest(s - {x});
      m := if r > x then r else x;
      forall b | b in s ensures b <= m { assert b == x || b in s - {x}; }
    }
  }

  /** From the base the links lead through all free headers in the order of their addresses, and
      from the highest back to the base. */
  lemma {:induction false} CycleOrder(base: nat, free: set<nat>, ptr: Links, a: nat)
    requires Cycle(base, free, ptr) && a in free
    ensures Follow(ptr, base, |Lower(free, a)|) == a
    ensures (forall b :: b in free ==> b <= a) ==> a in ptr && ptr[a] == base
    decreases a
  {
    assert LinkOk(base, free, ptr, a);
    if a == base {
      assert Lower(free, a) == {};
    } else {
      assert base in Lower(free, a);
      var p := Highest(Lower(free, a));
      assert LinkOk(base, free, ptr, p);
      var q := ptr[p];
      assert q !in Lower(free, a) && q == a;
      assert Lower(free, a) == Lower(free, p) + {p};
      CycleOrder(base, free, ptr, p);
    }
  }

  // ---- what the blocks cover ----

  /** Every header but the base's. */
  ghost predicate IsBlock(base: nat, free: set<nat>, live: Links, a: nat) {
    a in live || (a in free && a != base)
  }

  /** A block of at least one unit, all of whose units are its own. */
  ghost predicate BlockOk(base: nat, size: Links, own: Links, a: nat) {
    && base < a && a in size && size[a] > 0
    && forall u: nat :: a <= u < a + size[a] ==> u in own && own[u] == a
  }

  ghost predicate UnitOk(base: nat, free: set<nat>, size: Links, live: Links, own: Links, u: nat)
    requires u in own
  {
    IsBlock(base, free, live, own[u]) && own[u] in size && own[u] <= u < own[u] + size[own[u]]
  }

  /** A free block does not reach up to the next one. */
  ghost predicate GapAt(free: set<nat>, size: Links, a: nat) {
    a in size && forall b :: b in free && a < b ==> a + size[a] < b
  }

  /** Free and live blocks share out the units that the heap has got, and free blocks do not touch,
      except that those in open may touch the next one. */
  ghost predicate Layout(base: nat, free: set<nat>, size: Links, live: Links, own: Links, open: set<nat>) {
    && base in free && base in size && size[base] == 0
    && (forall a :: a in live ==> a !in free && a in size && live[a] == size[a])
    && (forall a {:trigger BlockOk(base, size, own, a)} :: IsBlock(base, free, live, a) ==> BlockOk(base, size, own, a))
    && (forall u {:trigger UnitOk(base, free, size, live, own, u)} :: u in own ==> UnitOk(base, free, size, live, own, u))
    && (forall a {:trigger GapAt(free, size, a)} :: a in free && a != base && a !in open ==> GapAt(free, size, a))
  }

  /** Blocks do not overlap. */
  lemma Disjoint(base: nat, size: Links, own: Links, a: nat, b: nat)
    requires BlockOk(base, size, own, a) && BlockOk(base, size, own, b) && a < b
    ensures a + size[a] <= b
  {
    assert own[b] == b;
  }

  /** A live block becomes the free one after p. */
  lemma LayoutInsert(base: nat, free: set<nat>, size: Links, live: Links, own: Links, p: nat, b: nat)
    requires Layout(base, free, size, live, own, {}) && b in live && Before(free, p, b)
    ensures Layout(base, free + {b}, size, live - {b}, own, {p, b})
  {
    var free', live' := free + {b}, live - {b};
    forall a ensures IsBlock(base, free', live', a) <==> IsBlock(base, free, live, a) {
      assert b in live ==> IsBlock(base, free, live, b) && BlockOk(base, size, own, b);
    }
    forall u | u in own ensures UnitOk(base, free', size, live', own, u) {
      assert UnitOk(base, free, size, live, own, u);
    }
    forall a | a in free' && a != base && a !in {p, b} ensures GapAt(free', size, a) {
      assert GapAt(free, size, a);
    }
  }

  function Reassign(own: Links, lo: nat, hi: nat, a: nat): Links {
    map u | u in own :: if lo <= u < hi then a else own[u]
  }

  /** A free block takes in the next one, which begins where it ends. */
  lemma LayoutMerge(base: nat, free: set<nat>, size: Links, live: Links, own: Links, open: set<nat>, a: nat, b: nat)
    requires Layout(base, free, size, live, own, open) && a in free && b in free && a != base && b !in open
    requires a in size && a + size[a] == b
    ensures b in size && a < b
    ensures Layout(base, free - {b}, size[a := size[a] + size[b]], live,
                   Reassign(own, b, b + size[b], a), open - {a})
  {
    assert IsBlock(base, free, live, a) && BlockOk(base, size, own, a);
    assert IsBlock(base, free, live, b) && BlockOk(base, size, own, b) && GapAt(free, size, b);
    var free', size', own' := free - {b}, size[a := size[a] + size[b]], Reassign(own, b, b + size[b], a);
    forall c | IsBlock(base, free', live, c) ensures BlockOk(base, size', own', c) {
      assert IsBlock(base, free, live, c);
      MergedBlock(base, size, own, a, b, c);
    }
    forall u | u in own' ensures UnitOk(base, free', size', live, own', u) {
      assert UnitOk(base, free, size, live, own, u);
    }
    forall c | c in free' && c != base && c !in open - {a} ensures GapAt(free', size', c) {
      if c == a {
        forall d | d in free' && a < d ensures a + size'[a] < d {
          assert IsBlock(base, free, live, d);
          Disjoint(base, size, own, a, d);
        }
      } else {
        assert GapAt(free, size, c);
      }
    }
  }

  lemma MergedBlock(base: nat, size: Links, own: Links, a: nat, b: nat, c: nat)
    requires BlockOk(base, size, own, a) && BlockOk(base, size, own, b) && a + size[a] == b
    requires BlockOk(base, size, own, c) && c != b
    ensures BlockOk(base, size[a := size[a] + size[b]], Reassign(own, b, b + size[b], a), c)
  {
    if c < b { Disjoint(base, size, own, c, b); } else { Disjoint(base, size, own, b, c); }
  }

  /** Where a free block does not touch the next one there is a gap. */
  lemma LayoutClose(base: nat, free: set<nat>, size: Links, live: Links, own: Links, open: set<nat>, a: nat, next: nat)
    requires Layout(base, free, size, live, own, open) && a in free && a in size && next in free
    requires a != base && a < next ==> a + size[a] != next
    requires forall b :: b in free && a < b ==> a < next <= b
    ensures Layout(base, free, size, live, own, open - {a})
  {
    if a != base {
      assert IsBlock(base, free, live, a) && BlockOk(base, size, own, a);
      forall b | b in free && a < b ensures a + size[a] < b {
        assert IsBlock(base, free, live, b) && BlockOk(base, size, own, b);
        assert IsBlock(base, free, live, next) && BlockOk(base, size, own, next);
        Disjoint(base, size, own, a, next);
      }
    }
  }

  /** A free block becomes live as it is. */
  lemma LayoutTake(base: nat, free: set<nat>, size: Links, live: Links, own: Links, a: nat)
    requires Layout(base, free, size, live, own, {}) && a in free && a != base
    ensures a in size && a !in live
    ensures Layout(base, free - {a}, size, live[a := size[a]], own, {})
  {
    assert IsBlock(base, free, live, a) && BlockOk(base, size, own, a);
    var free', live' := free - {a}, live[a := size[a]];
    forall c ensures IsBlock(base, free', live', c) <==> IsBlock(base, free, live, c) {}
    forall u | u in own ensures UnitOk(base, free', size, live', own, u) {
      assert UnitOk(base, free, size, live, own, u);
    }
    forall c | c in free' && c != base ensures GapAt(free', size, c) { assert GapAt(free, size, c); }
  }

  /** The tail end of a free block becomes live. */
  lemma LayoutSplit(base: nat, free: set<nat>, size: Links, live: Links, own: Links, a: nat, n: nat)
    requires Layout(base, free, size, live, own, {}) && a in free && a != base
    requires a in size && 0 < n < size[a]
    ensures var q := a + size[a] - n;
      && q !in live && q !in free
      && Layout(base, free, size[a := size[a] - n][q := n], live[q := n], Reassign(own, q, q + n, q), {})
  {
    hide UnitOk, BlockOk, Reassign, GapAt;
    assert IsBlock(base, free, live, a) && BlockOk(base, size, own, a);
    var q := a + size[a] - n;
    SplitFresh(base, free, size, live, own, a, n);
    var size', live', own' := size[a := size[a] - n][q := n], live[q := n], Reassign(own, q, q + n, q);
    forall c | IsBlock(base, free, live', c) ensures BlockOk(base, size', own', c) {
      if c == q {
        SplitTail(base, size, own, a, n);
      } else {
        assert IsBlock(base, free, live, c) && BlockOk(base, size, own, c);
        SplitBlock(base, size, own, a, n, c);
      }
    }
    forall u | u in own' ensures UnitOk(base, free, size', live', own', u) {
      SameUnits(own, q, q + n, q);
      assert UnitOk(base, free, size, live, own, u);
      SplitUnit(base, free, size, live, own, a, n, u);
    }
    forall c | c in free && c != base ensures GapAt(free, size', c) {
      assert GapAt(free, size, c);
      SplitGap(free, size, a, n, c);
    }
  }

  lemma SameUnits(own: Links, lo: nat, hi: nat, a: nat)
    ensures Reassign(own, lo, hi, a).Keys == own.Keys
  {}

  lemma SplitGap(free: set<nat>, size: Links, a: nat, n: nat, c: nat)
    requires GapAt(free, size, c) && a in size && 0 < n < size[a] && c in free && a + size[a] - n !in free
    ensures GapAt(free, size[a := size[a] - n][a + size[a] - n := n], c)
  {}

  lemma SplitFresh(base: nat, free: set<nat>, size: Links, live: Links, own: Links, a: nat, n: nat)
    requires Layout(base, free, size, live, own, {}) && BlockOk(base, size, own, a) && 0 < n < size[a]
    ensures var q := a + size[a] - n; base < q && q !in live && q !in free
  {
    var q := a + size[a] - n;
    assert q in own && own[q] == a;
    assert IsBlock(base, free, live, q) ==> BlockOk(base, size, own, q);
    assert !IsBlock(base, free, live, q);
  }

  lemma SplitTail(base: nat, size: Links, own: Links, a: nat, n: nat)
    requires BlockOk(base, size, own, a) && 0 < n < size[a]
    ensures var q := a + size[a] - n; BlockOk(base, size[a := size[a] - n][q := n], Reassign(own, q, q + n, q), q)
  {}

  lemma SplitUnit(base: nat, free: set<nat>, size: Links, live: Links, own: Links, a: nat, n: nat, u: nat)
    requires u in own && UnitOk(base, free, size, live, own, u) && BlockOk(base, size, own, a) && 0 < n < size[a]
    requires a in free && !IsBlock(base, free, live, a + size[a] - n)
    ensures var q := a + size[a] - n;
      var own' := Reassign(own, q, q + n, q);
      u in own' && UnitOk(base, free, size[a := size[a] - n][q := n], live[q := n], own', u)
  {
    var q := a + size[a] - n;
    assert own[u] == a && u >= q ==> u < q + n;
  }

  lemma SplitBlock(base: nat, size: Links, own: Links, a: nat, n: nat, c: nat)
    requires BlockOk(base, size, own, a) && BlockOk(base, size, own, c) && 0 < n < size[a]
    requires c != a + size[a] - n
    ensures var q := a + size[a] - n;
      BlockOk(base, size[a := size[a] - n][q := n], Reassign(own, q, q + n, q), c)
  {
    if c < a { Disjoint(base, size, own, c, a); } else if c > a { Disjoint(base, size, own, a, c); }
  }

  predicate InRange(u: nat, r: nat, n: nat) {
    r <= u < r + n
  }

  /** The units of a stretch of memory. */
  function UnitsAt(r: nat, n: nat): set<nat> {
    set u: nat | u < r + n && InRange(u, r, n)
  }

  function NewUnits(own: Links, r: nat, n: nat): Links {
    map u: nat | u in own.Keys + UnitsAt(r, n) :: if InRange(u, r, n) then r else own[u]
  }

  /** New memory above everything else, as one live block. */
  lemma LayoutGrow(base: nat, free: set<nat>, size: Links, live: Links, own: Links, r: nat, n: nat)
    requires Layout(base, free, size, live, own, {}) && base < r && n > 0
    requires forall u :: u in own ==> u < r
    ensures r !in live && r !in free
    ensures Layout(base, free, size[r := n], live[r := n], NewUnits(own, r, n), {})
  {
    forall c: nat | IsBlock(base, free, live, c) ensures c in size && c < r && c + size[c] <= r {
      assert BlockOk(base, size, own, c) && c in own;
      assert c + size[c] - 1 in own;
    }
    assert !IsBlock(base, free, live, r);
    var size', live', own' := size[r := n], live[r := n], NewUnits(own, r, n);
    forall c | IsBlock(base, free, live', c) ensures BlockOk(base, size', own', c) {
      if c != r { assert IsBlock(base, free, live, c) && BlockOk(base, size, own, c); }
    }
    forall u | u in own' ensures UnitOk(base, free, size', live', own', u) {
      if u in own { assert UnitOk(base, free, size, live, own, u); }
    }
    forall c | c in free && c != base ensures GapAt(free, size', c) { assert GapAt(free, size, c); }
  }

  /** Every unit that the heap has got is in exactly one block, free or live. */
  lemma EveryUnitOnce(base: nat, free: set<nat>, size: Links, live: Links, own: Links, u: nat, a: nat)
    requires Layout(base, free, size, live, own, {}) && IsBlock(base, free, live, a)
    ensures a in size && (a <= u < a + size[a] <==> u in own && own[u] == a)
    ensures u in own ==> IsBlock(base, free, live, own[u])
    ensures !(a in live && a in free)
  {
    assert BlockOk(base, size, own, a);
    if u in own { assert UnitOk(base, free, size, live, own, u); }
  }

  // ---- how many units there are ----

  /** The sizes of the blocks of s below address hi, added up. */
  ghost function Total(size: Links, s: set<nat>, hi: nat): nat {
    if hi == 0 then 0 else Total(size, s, hi - 1) + if hi - 1 in s && hi - 1 in size then size[hi - 1] else 0
  }

  ghost function UnitsOf(own: Links, s: set<nat>, hi: nat): set<nat> {
    set u | u in own && own[u] in s && own[u] < hi
  }

  lemma {:induction false} UnitsAtSize(r: nat, n: nat)
    ensures |UnitsAt(r, n)| == n
  {
    if n == 0 {
      assert UnitsAt(r, n) == {};
    } else {
      UnitsAtSize(r, n - 1);
      assert UnitsAt(r, n) == UnitsAt(r, n - 1) + {r + n - 1};
      DisjointSize(UnitsAt(r, n - 1), {r + n - 1});
    }
  }

  lemma {:induction false} TotalUnits(base: nat, free: set<nat>, size: Links, live: Links, own: Links, s: set<nat>, hi: nat)
    requires Layout(base, free, size, live, own, {}) && forall a :: a in s ==> IsBlock(base, free, live, a)
    ensures Total(size, s, hi) == |UnitsOf(own, s, hi)|
    decreases hi
  {
    if hi == 0 {
      assert UnitsOf(own, s, 0) == {};
    } else {
      var a := hi - 1;
      TotalUnits(base, free, size, live, own, s, a);
      if a in s {
        BlockUnits(base, free, size, live, own, s, a);
        UnitsAtSize(a, size[a]);
        DisjointSize(UnitsOf(own, s, a), UnitsAt(a, size[a]));
      } else {
        assert UnitsOf(own, s, hi) == UnitsOf(own, s, a);
      }
    }
  }

  lemma BlockUnits(base: nat, free: set<nat>, size: Links, live: Links, own: Links, s: set<nat>, a: nat)
    requires Layout(base, free, size, live, own, {}) && IsBlock(base, free, live, a) && a in s
    ensures a in size && UnitsOf(own, s, a + 1) == UnitsOf(own, s, a) + UnitsAt(a, size[a])
    ensures UnitsOf(own, s, a) !! UnitsAt(a, size[a])
  {
    assert BlockOk(base, size, own, a);
    forall u: nat ensures u in UnitsAt(a, size[a]) <==> u in own && own[u] == a {
      if u in own { assert UnitOk(base, free, size, live, own, u); }
      assert u in UnitsAt(a, size[a]) <==> a <= u < a + size[a] by {
        assert InRange(u, a, size[a]) <==> a <= u < a + size[a];
      }
    }
  }

  /** What is free and what is in use make up exactly what the heap has got. */
  lemma UnitsConserved(base: nat, free: set<nat>, size: Links, live: Links, own: Links, brk: nat)
    requires Layout(base, free, size, live, own, {}) && forall u :: u in own ==> u < brk
    ensures Total(size, free - {base}, brk) + Total(live, live.Keys, brk) == |own.Keys|
  {
    var f, l := UnitsOf(own, free - {base}, brk), UnitsOf(own, live.Keys, brk);
    TotalUnits(base, free, size, live, own, free - {base}, brk);
    TotalUnits(base, free, size, live, own, live.Keys, brk);
    SameTotal(size, live, brk);
    forall u | u in own.Keys ensures u in f + l { assert UnitOk(base, free, size, live, own, u); }
    assert own.Keys == f + l;
    DisjointSize(f, l);
  }

  lemma {:induction false} SameTotal(size: Links, live: Links, hi: nat)
    requires forall a :: a in live ==> a in size && size[a] == live[a]
    ensures Total(live, live.Keys, hi) == Total(size, live.Keys, hi)
  {
    if hi > 0 { SameTotal(size, live, hi - 1); }
  }
}
