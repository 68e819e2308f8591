/** malloc and free of user programs (user/umalloc.c). */
module UserHeap {
  import opened Options
  import opened SetSizes
  import opened UserHeapBlocks

  const HEADER: nat := 16        // bytes in a unit
  const MORECORE: nat := 4096    // units asked for at least

  /** Where free's search is to stop: at the last free header below a block. */
  lemma SearchStep(base: nat, free: set<nat>, ptr: Links, p: nat, b: nat)
    requires Cycle(base, free, ptr) && p in free && b !in free && base < b
    ensures p in ptr && ptr[p] in free
    ensures p < b < ptr[p] || (p >= ptr[p] && (b > p || b < ptr[p])) <==> Before(free, p, b)
    ensures !Before(free, p, b) && p < b ==> p < ptr[p] < b
    ensures !Before(free, p, b) && p > b ==> p < ptr[p] || ptr[p] == base
  {
    assert LinkOk(base, free, ptr, p);
  }

  class UserHeap {
    const base: nat
    var ptr: Links
    var size: Links
    var freep: nat
    var started: bool           // freep is not null
    ghost var free: set<nat>    // free headers, the base's among them
    ghost var live: Links       // blocks in use and their sizes
    ghost var own: Links        // the block each unit belongs to
    ghost var brk: nat

    ghost predicate Valid()
      reads this
    {
      && (forall u :: u in own ==> u < brk) && base < brk
      && if started then Cycle(base, free, ptr) && Layout(base, free, size, live, own, {}) && freep in free
         else live == map[] && own == map[]
    }

    constructor (base: nat)
      ensures Valid() && this.base == base && live == map[] && own == map[] && fresh(this)
    {
      this.base := base;
      this.started, this.freep, this.ptr, this.size := false, 0, map[], map[];
      this.free, this.live, this.own, this.brk := {}, map[], map[], base + 1;
    }

    /** free's search: around the cycle from freep to the place of the block. */
    method FindPlace(b: nat) returns (p: nat)
      requires Cycle(base, free, ptr) && freep in free && b !in free && base < b && b < brk
      requires forall a :: a in free ==> a < brk
      ensures Before(free, p, b) && p in ptr
    {
      p := freep;
      SearchStep(base, free, ptr, p, b);
      while !(b > p && b < ptr[p])
        invariant p in free && p in ptr
        invariant Before(free, p, b) <==> p < b < ptr[p] || (p >= ptr[p] && (b > p || b < ptr[p]))
        decreases p > b, if p > b then brk - p else b - p
      {
        if p >= ptr[p] && (b > p || b < ptr[p]) {
          break;
        }
        SearchStep(base, free, ptr, p, b);
        p := ptr[p];
        SearchStep(base, free, ptr, p, b);
      }
    }

    /** free: the block goes back, merged with the free blocks that it touches. */
    method Free(ap: nat)
      requires Valid() && started && ap > 0 && ap - 1 in live
      modifies this
      ensures Valid() && started && live == old(live) - {ap - 1} && brk == old(brk)
      ensures SameLive(old(own), own, live)
      ensures ap - 1 in own && own[ap - 1] in free && own[ap - 1] != base
      ensures own[ap - 1] in size && size[own[ap - 1]] >= old(live)[ap - 1]
    {
      var bp := ap - 1;
      hide Cycle, Layout, Before, Freed, SameLive, CanFree;
      FreeFacts(base, free, size, live, own, brk, bp);
      var p := FindPlace(bp);
      ghost var h0 := Heap(free, ptr, size, own);
      FreedOk(base, h0, live, p, bp);
      ghost var h := Freed(h0, p, bp);
      Relink(p, bp);
      freep := p;
      free, live, own := h.free, live - {bp}, h.own;
    }

    /** morecore: memory from sbrk, at least so many units, into the free list. */
    method Morecore(nu: nat, grant: Option<nat>) returns (p: Option<nat>, ghost big: nat)
      requires Valid() && started && nu > 0 && (grant.Some? ==> grant.value >= brk)
      modifies this
      ensures Valid() && started && live == old(live)
      ensures p.None? <==> grant.None?
      ensures p.None? ==> unchanged(this)
      ensures p.Some? ==> p.value == freep && big in free && big != base && big in size && size[big] >= nu
      ensures p.Some? ==> Since(old(own), own, live, grant.value, Max(nu, MORECORE))
    {
      hide Layout, Cycle, Since;
      if grant.None? {
        return None, 0;
      }
      big := AddCore(grant.value, Max(nu, MORECORE));
      p := Some(freep);
    }

    /** The new memory is made a block and freed. */
    method AddCore(hp: nat, n: nat) returns (ghost big: nat)
      requires Valid() && started && n > 0 && hp >= brk
      modifies this
      ensures Valid() && started && live == old(live) && Since(old(own), own, live, hp, n)
      ensures big in free && big != base && big in size && size[big] >= n
    {
      hide Valid, SameLive, Since;
      ghost var own0, live0 := own, live;
      MakeBlock(hp, n);
      ghost var own1 := own;
      Free(hp + 1);
      PutAway(live0, hp, n);
      SinceAfter(own0, own1, own, live0, hp, n);
      big := own[hp];
    }

    method MakeBlock(hp: nat, n: nat)
      requires Valid() && started && n > 0 && hp >= brk
      modifies this`size, this`live, this`own, this`brk
      ensures Valid() && hp !in old(live) && live == old(live)[hp := n]
      ensures Since(old(own), own, old(live), hp, n)
    {
      hide Layout, Cycle, NewUnits, Since;
      BelowBreak(own, brk, hp);
      LayoutGrow(base, free, size, live, own, hp, n);
      SinceGrown(own, live, hp, n);
      hide *;
      size := size[hp := n];
      live := live[hp := n];
      own := NewUnits(own, hp, n);
      brk := hp + n;
    }

    /** malloc: the first free block that is big enough, or part of it; memory from sbrk is asked for
        at most once, when none is. */
    method Malloc(nbytes: nat, grant: Option<nat>) returns (r: Option<nat>, ghost calls: nat)
      requires Valid() && (grant.Some? ==> grant.value >= brk)
      modifies this
      ensures Valid() && started && calls <= 1
      ensures r.None? ==> live == old(live) && grant.None? && NoneFits(free, size, Units(nbytes))
      ensures calls == 1 && old(started) ==> NoneFits(old(free), old(size), Units(nbytes))
      ensures r.Some? ==> r.value > 0 && r.value - 1 !in old(live)
      ensures r.Some? ==> live == old(live)[r.value - 1 := Units(nbytes)]
      ensures if calls == 0 || grant.None? then Since(old(own), own, old(live), 0, 0)
              else Since(old(own), own, old(live), grant.value, Max(Units(nbytes), MORECORE))
    {
      hide Valid, Since, Max, Units, NoneFits;
      var nunits := Units(nbytes);
      if !started {
        Start();
      }
      r, calls := Search(nunits, grant);
    }

    /** The loop of malloc. */
    method Search(nunits: nat, grant: Option<nat>) returns (r: Option<nat>, ghost calls: nat)
      requires Valid() && started && nunits > 0 && (grant.Some? ==> grant.value >= brk)
      modifies this
      ensures Valid() && started && calls <= 1
      ensures r.None? ==> live == old(live) && grant.None? && NoneFits(free, size, nunits)
      ensures calls == 1 ==> NoneFits(old(free), old(size), nunits)
      ensures r.Some? ==> r.value > 0 && r.value - 1 !in old(live) && live == old(live)[r.value - 1 := nunits]
      ensures if calls == 0 || grant.None? then Since(old(own), own, old(live), 0, 0)
              else Since(old(own), own, old(live), grant.value, Max(nunits, MORECORE))
    {
      hide Valid, SameLive, Since, Max, Passed, NoneFits;
      calls := 0;
      SinceStart(own, live);
      ghost var hp: nat, n: nat := 0, 0;
      var prevp := freep;
      Around(freep);
      var p := ptr[prevp];
      while true
        invariant Valid() && started && live == old(live) && Since(old(own), own, live, hp, n) && calls <= 1
        invariant prevp in free && prevp in ptr && p == ptr[prevp] && p in free && p in ptr
        invariant forall a :: a in free ==> a in size && a < brk
        invariant forall b :: b in free && Passed(freep, p, b) ==> b in size && size[b] < nunits
        invariant calls == 1 ==> exists b :: b in free && b in size && size[b] >= nunits
        invariant calls == 0 ==> hp == n == 0 && (grant.Some? ==> grant.value >= brk)
        invariant if calls == 0 then free == old(free) && size == old(size) else NoneFits(old(free), old(size), nunits)
        invariant calls == 1 ==> grant.Some? && hp == grant.value && n == Max(nunits, MORECORE)
        decreases 1 - calls, p > freep, if p > freep then brk - p else freep - p
      {
        if size[p] >= nunits {
          ghost var own1 := own;
          r := Take(p, prevp, nunits);
          SinceAfter(old(own), own1, own, old(live), hp, n);
          return;
        }
        if p == freep {
          ghost var big, own1 := 0, own;
          AllPassed(free, size, p, nunits);
          var q;
          q, big := Morecore(nunits, grant);
          calls := calls + 1;
          if q.None? {
            return None, calls;
          }
          hp, n := grant.value, Max(nunits, MORECORE);
          SinceBefore(old(own), own1, own, live, hp, n);
          p := q.value;
        }
        Around(p);
        prevp, p := p, ptr[p];
      }
    }

    /** One link further on the way around the free list from freep. */
    lemma Around(p: nat)
      requires Valid() && started && (p == freep || p in free)
      ensures p in free && freep in free && p in ptr && ptr[p] in free && ptr[p] in ptr
      ensures forall a :: a in free ==> a in size && a < brk
      ensures p == freep ==> forall b :: b in free ==> !Passed(freep, ptr[p], b)
      ensures p != freep ==> forall b :: b in free && Passed(freep, ptr[p], b) ==> Passed(freep, p, b) || b == p
      ensures p > freep ==> ptr[p] > p || ptr[p] <= freep
      ensures p < freep ==> p < ptr[p] <= freep
    {
      hide Cycle, Layout, Passed;
      FreeBelow(base, free, size, live, own, brk);
      if p == freep { ArcStart(base, free, ptr, p); } else { ArcStep(base, free, ptr, freep, p); }
    }

    /** No unit that sbrk granted is lost or invented. */
    lemma Conserved()
      requires Valid() && started
      ensures Total(size, free - {base}, brk) + Total(live, live.Keys, brk) == |own.Keys|
    {
      UnitsConserved(base, free, size, live, own, brk);
    }

    /** The first call finds no list yet. */
    method Start()
      requires Valid() && !started
      modifies this
      ensures Valid() && started && live == old(live) && own == old(own) && brk == old(brk) && free == {base}
    {
      freep, ptr, size, started := base, ptr[base := base], size[base := 0], true;
      free := {base};
    }

    /** What malloc does with the block it found. */
    method Take(p: nat, prevp: nat, nunits: nat) returns (r: Option<nat>)
      requires Valid() && started && prevp in free && prevp in ptr && ptr[prevp] == p && p in size && p in ptr
      requires 0 < nunits <= size[p]
      modifies this
      ensures Valid() && started && r.Some? && r.value > 0
      ensures r.value - 1 !in old(live) && live == old(live)[r.value - 1 := nunits]
      ensures SameLive(old(own), own, old(live))
    {
      hide Cycle, Layout, SameLive;
      TakeFacts(base, free, ptr, size, live, own, prevp);
      if size[p] == nunits {
        CycleRemove(base, free, ptr, prevp);
        LayoutTake(base, free, size, live, own, p);
        SameOwn(own, live);
        ptr := ptr[prevp := ptr[p]];
        freep := prevp;
        free, live := free - {p}, live[p := nunits];
        return Some(p + 1);
      }
      r := TakePart(p, nunits);
      freep := prevp;
    }

    /** The end of a bigger block. */
    method TakePart(p: nat, nunits: nat) returns (r: Option<nat>)
      requires Valid() && started && p in free && p != base && p !in live && p in size && 0 < nunits < size[p]
      modifies this`size, this`live, this`own
      ensures Valid() && r.Some? && r.value > 0
      ensures r.value - 1 !in old(live) && live == old(live)[r.value - 1 := nunits]
      ensures SameLive(old(own), own, old(live))
    {
      hide Cycle, Layout, SameLive, Reassign;
      var q := p + size[p] - nunits;
      LayoutSplit(base, free, size, live, own, p, nunits);
      SplitKept(base, free, size, live, own, p, nunits);
      size := size[p := size[p] - nunits];
      size := size[q := nunits];
      live, own := live[q := nunits], Reassign(own, q, q + nunits, q);
      return Some(q + 1);
    }

    /** The writes of free, once the place is found. */
    method Relink(p: nat, bp: nat)
      requires CanFree(Heap(free, ptr, size, own), p, bp)
      modifies this`ptr, this`size
      ensures CanFree(Heap(free, old(ptr), old(size), own), p, bp)
      ensures var h := Freed(Heap(free, old(ptr), old(size), own), p, bp); ptr == h.ptr && size == h.size
    {
      var next := ptr[p];
      if bp + size[bp] == next {
        size := size[bp := size[bp] + size[next]];
        ptr := ptr[bp := ptr[next]];
      } else {
        ptr := ptr[bp := next];
      }
      if p + size[p] == bp {
        size := size[p := size[p] + size[bp]];
        ptr := ptr[p := ptr[bp]];
      } else {
        ptr := ptr[p := bp];
      }
    }
  }

  /** A live block is above the base, not free, and below the break. */
  lemma FreeFacts(base: nat, free: set<nat>, size: Links, live: Links, own: Links, brk: nat, b: nat)
    requires Layout(base, free, size, live, own, {}) && b in live && base < brk
    requires forall u :: u in own ==> u < brk
    ensures b !in free && base < b < brk && b in size && size[b] == live[b] > 0
    ensures forall a :: a in free ==> a < brk
  {
    assert IsBlock(base, free, live, b) && BlockOk(base, size, own, b) && b in own;
    forall a | a in free ensures a < brk {
      if a != base { assert IsBlock(base, free, live, a) && BlockOk(base, size, own, a) && a in own; }
    }
  }

  /** What a step of free makes of the heap. */
  datatype Heap = Heap(free: set<nat>, ptr: Links, size: Links, own: Links)

  ghost predicate HeapOk(base: nat, h: Heap, live: Links, open: set<nat>) {
    Cycle(base, h.free, h.ptr) && Layout(base, h.free, h.size, live, h.own, open)
  }

  /** Units of live blocks stay with them. */
  ghost predicate SameLive(own: Links, own': Links, live: Links) {
    own'.Keys == own.Keys && forall u :: u in own && (own[u] in live || own'[u] in live) ==> own'[u] == own[u]
  }

  /** Units of live blocks stay with them, and the heap has the units it had and the n units from
      hp on, which it did not have and which belong to no live block. */
  ghost predicate Since(own: Links, own': Links, live: Links, hp: nat, n: nat) {
    && own'.Keys == own.Keys + UnitsAt(hp, n) && |own'.Keys| == |own.Keys| + n
    && (forall u :: u in own && (own[u] in live || own'[u] in live) ==> own'[u] == own[u])
    && (forall u :: u in own' && own'[u] in live ==> u in own)
  }

  lemma BelowBreak(own: Links, brk: nat, hp: nat)
    requires hp >= brk && forall u :: u in own ==> u < brk
    ensures forall u :: u in own ==> u < hp
  {}

  lemma SinceStart(own: Links, live: Links)
    ensures Since(own, own, live, 0, 0)
  {
    UnitsAtSize(0, 0);
  }

  lemma SinceAfter(own0: Links, own1: Links, own2: Links, live: Links, hp: nat, n: nat)
    requires Since(own0, own1, live, hp, n) && SameLive(own1, own2, live)
    ensures Since(own0, own2, live, hp, n)
  {}

  lemma SinceBefore(own0: Links, own1: Links, own2: Links, live: Links, hp: nat, n: nat)
    requires Since(own0, own1, live, 0, 0) && Since(own1, own2, live, hp, n)
    ensures Since(own0, own2, live, hp, n)
  {
    UnitsAtSize(0, 0);
    assert own0.Keys == own1.Keys;
  }

  lemma SinceGrown(own: Links, live: Links, hp: nat, n: nat)
    requires hp !in live && forall u :: u in own ==> u < hp
    ensures Since(own, NewUnits(own, hp, n), live, hp, n)
    ensures forall u :: u in NewUnits(own, hp, n) ==> u < hp + n
  {
    assert own.Keys !! UnitsAt(hp, n) by {
      assert forall u :: u in UnitsAt(hp, n) ==> InRange(u, hp, n);
    }
    DisjointSize(own.Keys, UnitsAt(hp, n));
    UnitsAtSize(hp, n);
  }

  lemma SameLiveTrans(own0: Links, own1: Links, own2: Links, live: Links)
    requires SameLive(own0, own1, live) && SameLive(own1, own2, live)
    ensures SameLive(own0, own2, live) && own2.Keys == own0.Keys
  {}

  /** The first half of free: the block is in the list, merged with the one above it if they touch. */
  ghost function Upper(h: Heap, p: nat, b: nat): Heap
    requires p in h.ptr && b in h.size
  {
    var next: nat := h.ptr[p];
    if b + h.size[b] == next && next in h.ptr && next in h.size then
      Heap(h.free + {b} - {next}, h.ptr[b := h.ptr[next]][p := b], h.size[b := h.size[b] + h.size[next]],
           Reassign(h.own, next, next + h.size[next], b))
    else Heap(h.free + {b}, h.ptr[b := next][p := b], h.size, h.own)
  }

  lemma UpperOk(base: nat, h: Heap, live: Links, p: nat, b: nat)
    requires HeapOk(base, h, live, {}) && b in live && Before(h.free, p, b) && base < b
    ensures p in h.ptr && b in h.size && h.ptr[p] in h.ptr && h.ptr[p] in h.size
    ensures var h' := Upper(h, p, b);
      && HeapOk(base, h', live - {b}, {p}) && b in h'.free && p in h'.free && b in h'.size && p in h'.size
      && h'.size[b] >= live[b] && p in h.size && h'.size[p] == h.size[p] && h'.ptr[p] == b && Before(h'.free - {b}, p, b)
      && b in h'.ptr && p in h'.ptr && SameLive(h.own, h'.own, live - {b}) && b in h'.own && h'.own[b] == b
  {
    var next: nat := h.ptr[p];
    assert LinkOk(base, h.free, h.ptr, p) && LinkOk(base, h.free, h.ptr, next);
    CycleInsert(base, h.free, h.ptr, p, b);
    LayoutInsert(base, h.free, h.size, live, h.own, p, b);
    var free1: set<nat> := h.free + {b};
    var ptr1: Links := h.ptr[b := next][p := b];
    assert IsBlock(base, h.free, live, b) && BlockOk(base, h.size, h.own, b);
    if next != base { assert IsBlock(base, h.free, live, next) && BlockOk(base, h.size, h.own, next); }
    if p != base { assert IsBlock(base, h.free, live, p) && BlockOk(base, h.size, h.own, p); }
    if b + h.size[b] == next {
      CycleRemove(base, free1, ptr1, b);
      assert ptr1[b := ptr1[next]] == h.ptr[b := h.ptr[next]][p := b];
      LayoutMerge(base, free1, h.size, live - {b}, h.own, {p, b}, b, next);
      assert {p, b} - {b} == {p};
    } else {
      LayoutClose(base, free1, h.size, live - {b}, h.own, {p, b}, b, next);
      assert {p, b} - {b} == {p};
    }
  }

  /** The second half: the block is merged with the one below it if they touch. */
  ghost function Lower(h: Heap, p: nat, b: nat): Heap
    requires p in h.size && b in h.size && b in h.ptr
  {
    if p + h.size[p] == b then
      Heap(h.free - {b}, h.ptr[p := h.ptr[b]], h.size[p := h.size[p] + h.size[b]],
           Reassign(h.own, b, b + h.size[b], p))
    else h
  }

  lemma LowerOk(base: nat, h: Heap, live: Links, p: nat, b: nat)
    requires HeapOk(base, h, live, {p}) && b in h.free && p in h.free && p < b && base < b
    requires p in h.ptr && h.ptr[p] == b && b in h.size && p in h.size && b in h.ptr && b in h.own && h.own[b] == b
    ensures var h' := Lower(h, p, b);
      && HeapOk(base, h', live, {}) && p in h'.free && SameLive(h.own, h'.own, live)
      && b in h'.own && h'.own[b] in h'.free && h'.own[b] != base
      && h'.own[b] in h'.size && h'.size[h'.own[b]] >= h.size[b]
  {
    assert LinkOk(base, h.free, h.ptr, p);
    assert IsBlock(base, h.free, live, b) && BlockOk(base, h.size, h.own, b);
    if p + h.size[p] == b {
      CycleRemove(base, h.free, h.ptr, p);
      LayoutMerge(base, h.free, h.size, live, h.own, {p}, p, b);
      assert {p} - {p} == {};
    } else {
      LayoutClose(base, h.free, h.size, live, h.own, {p}, p, b);
      assert {p} - {p} == {};
    }
  }

  /** What free reads is there. */
  ghost predicate CanFree(h: Heap, p: nat, b: nat) {
    p in h.ptr && h.ptr[p] in h.ptr && h.ptr[p] in h.size && p in h.size && b in h.size && p < b
  }

  /** The heap that free leaves. */
  ghost function Freed(h: Heap, p: nat, b: nat): Heap
    requires CanFree(h, p, b)
  {
    Lower(Upper(h, p, b), p, b)
  }

  lemma FreedOk(base: nat, h: Heap, live: Links, p: nat, b: nat)
    requires Cycle(base, h.free, h.ptr) && Layout(base, h.free, h.size, live, h.own, {})
    requires b in live && Before(h.free, p, b) && base < b
    ensures CanFree(h, p, b)
    ensures var h' := Freed(h, p, b);
      && Cycle(base, h'.free, h'.ptr) && Layout(base, h'.free, h'.size, live - {b}, h'.own, {})
      && p in h'.free && SameLive(h.own, h'.own, live - {b}) && h'.own.Keys == h.own.Keys
      && b in h'.own && h'.own[b] in h'.free && h'.own[b] != base
      && h'.own[b] in h'.size && h'.size[h'.own[b]] >= live[b]
  {
    hide Cycle, Layout;
    UpperOk(base, h, live, p, b);
    var h1 := Upper(h, p, b);
    LowerOk(base, h1, live - {b}, p, b);
    var h2 := Lower(h1, p, b);
    hide Upper, Lower, SameLive;
    SameLiveTrans(h.own, h1.own, h2.own, live - {b});
  }

  // ---- malloc's search ----

  /** Units for a request, with one for the header. */
  function Units(nbytes: nat): (n: nat)
    ensures n > 0 && n * HEADER >= nbytes + HEADER && (n - 1) * HEADER < nbytes + HEADER
  {
    (nbytes + HEADER - 1) / HEADER + 1
  }

  /** Going round from above f, b comes before p. */
  predicate Passed(f: nat, p: nat, b: nat) {
    if p > f then f < b < p else b > f || b < p
  }

  ghost predicate NoneFits(free: set<nat>, size: Links, n: nat) {
    forall a :: a in free ==> a in size && size[a] < n
  }

  lemma AllPassed(free: set<nat>, size: Links, f: nat, n: nat)
    requires forall b :: b in free && Passed(f, f, b) ==> b in size && size[b] < n
    requires f in size && size[f] < n
    ensures NoneFits(free, size, n)
  {
    assert forall b :: b == f || Passed(f, f, b);
  }

  lemma ArcStart(base: nat, free: set<nat>, ptr: Links, f: nat)
    requires Cycle(base, free, ptr) && f in free
    ensures f in ptr && ptr[f] in free && ptr[f] in ptr
    ensures forall b :: b in free ==> !Passed(f, ptr[f], b)
  {
    assert LinkOk(base, free, ptr, f) && LinkOk(base, free, ptr, ptr[f]);
  }

  lemma ArcStep(base: nat, free: set<nat>, ptr: Links, f: nat, p: nat)
    requires Cycle(base, free, ptr) && f in free && p in free && p != f
    ensures p in ptr && ptr[p] in free && ptr[p] in ptr
    ensures forall b :: b in free && Passed(f, ptr[p], b) ==> Passed(f, p, b) || b == p
    ensures if p > f then ptr[p] > p || ptr[p] <= f else p < ptr[p] <= f
  {
    assert LinkOk(base, free, ptr, p) && LinkOk(base, free, ptr, ptr[p]);
  }

  lemma TakeFacts(base: nat, free: set<nat>, ptr: Links, size: Links, live: Links, own: Links, prevp: nat)
    requires Cycle(base, free, ptr) && Layout(base, free, size, live, own, {}) && prevp in free && prevp in ptr
    requires ptr[prevp] in size && size[ptr[prevp]] > 0
    ensures ptr[prevp] in free && ptr[prevp] != base && ptr[prevp] != prevp && ptr[prevp] !in live
  {
    assert LinkOk(base, free, ptr, prevp);
  }

  lemma PutAway(live: Links, hp: nat, n: nat)
    ensures hp !in live ==> live[hp := n] - {hp} == live
  {}

  lemma SameOwn(own: Links, live: Links)
    ensures SameLive(own, own, live)
  {}

  lemma SplitKept(base: nat, free: set<nat>, size: Links, live: Links, own: Links, a: nat, n: nat)
    requires Layout(base, free, size, live, own, {}) && a in free && a != base && a in size && 0 < n < size[a]
    requires a !in live
    ensures var q := a + size[a] - n; SameLive(own, Reassign(own, q, q + n, q), live)
    ensures Reassign(own, a + size[a] - n, a + size[a], a + size[a] - n).Keys == own.Keys
  {
    assert IsBlock(base, free, live, a) && BlockOk(base, size, own, a);
    SplitFresh(base, free, size, live, own, a, n);
  }

  /** Free headers have a size and lie below the break. */
  lemma FreeBelow(base: nat, free: set<nat>, size: Links, live: Links, own: Links, brk: nat)
    requires Layout(base, free, size, live, own, {}) && base < brk && forall u :: u in own ==> u < brk
    ensures forall a :: a in free ==> a in size && a < brk
  {
    forall a | a in free ensures a in size && a < brk {
      if a != base { assert IsBlock(base, free, live, a) && BlockOk(base, size, own, a) && a in own; }
    }
  }
}
