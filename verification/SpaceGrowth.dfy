/** What growing an address space does: new pages out of the pool, mapped in a run, and nothing
    else changed (kernel/memory/vm.c, uvmalloc and uvmcopy). */
module SpaceGrowth {
  import opened SetSizes
  import opened PageTables
  import opened PagePool

  /** A page to be mapped: its permission and what it holds. */
  datatype Image = Image(perm: nat, words: seq<nat>)

  ghost predicate Shows(mem: Memory, t: Tree, v: nat, image: Image)
    requires TreeOk(mem, t)
  {
    var p := Ppn(Entry(mem, t, v));
    image.perm < 1024 && Entry(mem, t, v) == LeafOf(p, image.perm) && p in mem && mem[p] == image.words
  }

  /** From lo on, the entries map new pages with these images. Every page that left the pool is
      one of these or a new table, every other entry and every other allocated page is as before. */
  ghost predicate Grew(mem: Memory, avail: set<nat>, t: Tree, mem': Memory, avail': set<nat>, t': Tree,
                       lo: nat, images: seq<Image>)
    requires TreeOk(mem, t)
  {
    var hi := lo + |images|;
    && HasTree(mem', avail', t')
    && mem'.Keys == mem.Keys
    && (forall n :: n in t ==> n in t' && t'[n] == t[n])
    && Owned(mem', avail', t', lo, hi)
    && avail' + t'.Values + PagesOf(mem', t', lo, hi) == avail + t.Values
    && Kept(mem, mem', mem.Keys - avail - t.Values)
    && (forall k: nat :: k < |images| ==> Shows(mem', t', lo + k, images[k]))
    && (forall w: nat :: w < lo || hi <= w ==> Entry(mem', t', w) == Entry(mem, t, w))
  }

  lemma SubTree(t: Tree, t': Tree)
    requires forall n :: n in t ==> n in t' && t'[n] == t[n]
    ensures t.Values <= t'.Values
  {
    forall p | p in t.Values ensures p in t'.Values {
      var n :| n in t && t[n] == p;
      assert t'[n] == p;
    }
  }

  lemma PagesSplit(mem: Memory, t: Tree, lo: nat, mid: nat, hi: nat)
    requires TreeOk(mem, t) && lo <= mid <= hi
    ensures PagesOf(mem, t, lo, hi) == PagesOf(mem, t, lo, mid) + PagesOf(mem, t, mid, hi)
  {
    hide TreeOk, Entry, Ppn;
    forall p | p in PagesOf(mem, t, lo, hi)
      ensures p in PagesOf(mem, t, lo, mid) + PagesOf(mem, t, mid, hi)
    {
      var v: nat :| lo <= v < hi && p == Ppn(Entry(mem, t, v));
    }
    forall p | p in PagesOf(mem, t, lo, mid) + PagesOf(mem, t, mid, hi)
      ensures p in PagesOf(mem, t, lo, hi)
    {
      var v: nat :| lo <= v < hi && p == Ppn(Entry(mem, t, v));
    }
  }

  lemma PagesSame(mem: Memory, t: Tree, mem': Memory, t': Tree, lo: nat, hi: nat)
    requires TreeOk(mem, t) && TreeOk(mem', t')
    requires forall v: nat :: lo <= v < hi ==> Entry(mem', t', v) == Entry(mem, t, v)
    ensures PagesOf(mem', t', lo, hi) == PagesOf(mem, t, lo, hi)
  {
    hide TreeOk, Entry, Ppn;
    forall p | p in PagesOf(mem', t', lo, hi) ensures p in PagesOf(mem, t, lo, hi) {
      var v: nat :| lo <= v < hi && p == Ppn(Entry(mem', t', v));
    }
    forall p | p in PagesOf(mem, t, lo, hi) ensures p in PagesOf(mem', t', lo, hi) {
      var v: nat :| lo <= v < hi && p == Ppn(Entry(mem, t, v));
      assert p == Ppn(Entry(mem', t', v));
    }
  }

  lemma OwnedPages(mem: Memory, avail: set<nat>, t: Tree, lo: nat, hi: nat)
    requires TreeOk(mem, t) && Owned(mem, avail, t, lo, hi)
    ensures PagesOf(mem, t, lo, hi) <= mem.Keys - avail - t.Values
  {
    hide TreeOk, Entry, Ppn;
    forall p | p in PagesOf(mem, t, lo, hi) ensures p in mem.Keys - avail - t.Values {
      var v: nat :| lo <= v < hi && p == Ppn(Entry(mem, t, v));
      assert OwnsAt(mem, avail, t, v);
    }
  }

  lemma {:induction false} PageCount(mem: Memory, t: Tree, lo: nat, hi: nat)
    requires TreeOk(mem, t) && lo <= hi
    ensures |PagesOf(mem, t, lo, hi)| <= hi - lo
    decreases hi
  {
    hide TreeOk, Entry, Ppn;
    if lo == hi {
      assert PagesOf(mem, t, lo, hi) == {};
    } else {
      PagesNext(mem, t, lo, hi - 1);
      PageCount(mem, t, lo, hi - 1);
      AddOne(PagesOf(mem, t, lo, hi - 1), Ppn(Entry(mem, t, hi - 1)));
    }
  }

  /** New pages and tables all came out of the pool. */
  lemma GrewFrom(mem: Memory, avail: set<nat>, t: Tree, mem': Memory, avail': set<nat>, t': Tree,
                 lo: nat, images: seq<Image>)
    requires HasTree(mem, avail, t) && Grew(mem, avail, t, mem', avail', t', lo, images)
    ensures avail' <= avail && t.Values <= t'.Values <= t.Values + avail
    ensures PagesOf(mem', t', lo, lo + |images|) <= avail
    ensures mem.Keys - avail - t.Values == mem'.Keys - avail' - t'.Values - PagesOf(mem', t', lo, lo + |images|)
  {
    SubTree(t, t');
    OwnedPages(mem', avail', t', lo, lo + |images|);
    hide TreeOk, Entry, Ppn, PagesOf;
  }

  /** Pages that are owned stay owned while the space grows elsewhere. */
  lemma StillOwned(mem: Memory, avail: set<nat>, t: Tree, mem': Memory, avail': set<nat>, t': Tree,
                   lo: nat, images: seq<Image>, a: nat, b: nat)
    requires HasTree(mem, avail, t) && Grew(mem, avail, t, mem', avail', t', lo, images)
    requires Owned(mem, avail, t, a, b) && (b <= lo || lo + |images| <= a)
    ensures Owned(mem', avail', t', a, b) && PagesOf(mem', t', a, b) == PagesOf(mem, t, a, b)
    ensures PagesOf(mem, t, a, b) !! PagesOf(mem', t', lo, lo + |images|)
  {
    GrewFrom(mem, avail, t, mem', avail', t', lo, images);
    PagesSame(mem, t, mem', t', a, b);
    OwnedPages(mem, avail, t, a, b);
    hide TreeOk, Entry, Ppn, PagesOf, Kept;
    forall v: nat | a <= v < b ensures OwnsAt(mem', avail', t', v) {
      assert OwnsAt(mem, avail, t, v);
    }
  }

  /** Two neighbouring runs that share no page are one run. */
  lemma JoinOwned(mem: Memory, avail: set<nat>, t: Tree, lo: nat, mid: nat, hi: nat)
    requires TreeOk(mem, t) && lo <= mid <= hi
    requires Owned(mem, avail, t, lo, mid) && Owned(mem, avail, t, mid, hi)
    requires PagesOf(mem, t, lo, mid) !! PagesOf(mem, t, mid, hi)
    ensures Owned(mem, avail, t, lo, hi)
  {
    hide TreeOk, Entry, Ppn, IsLeaf, OwnsAt;
    forall v: nat, w: nat | lo <= v < w < hi ensures Ppn(Entry(mem, t, v)) != Ppn(Entry(mem, t, w)) {
      if v < mid <= w {
        assert Ppn(Entry(mem, t, v)) in PagesOf(mem, t, lo, mid);
        assert Ppn(Entry(mem, t, w)) in PagesOf(mem, t, mid, hi);
      }
    }
  }

  lemma StillShows(mem: Memory, avail: set<nat>, t: Tree, mem': Memory, avail': set<nat>, t': Tree,
                   lo: nat, images: seq<Image>, v: nat, image: Image)
    requires HasTree(mem, avail, t) && Grew(mem, avail, t, mem', avail', t', lo, images)
    requires OwnsAt(mem, avail, t, v) && Shows(mem, t, v, image) && v < lo
    ensures Shows(mem', t', v, image)
  {
    hide TreeOk, Entry, Ppn, PagesOf, Owned, LeafOf;
  }

  lemma GrewShows(m0: Memory, a0: set<nat>, t0: Tree, m1: Memory, a1: set<nat>, t1: Tree,
                  m2: Memory, a2: set<nat>, t2: Tree, lo: nat, images: seq<Image>, more: seq<Image>, k: nat)
    requires HasTree(m0, a0, t0) && Grew(m0, a0, t0, m1, a1, t1, lo, images)
    requires HasTree(m1, a1, t1) && Grew(m1, a1, t1, m2, a2, t2, lo + |images|, more)
    requires k < |images + more|
    ensures Shows(m2, t2, lo + k, (images + more)[k])
  {
    hide TreeOk, Entry, Ppn, PagesOf, Shows, OwnsAt, Kept;
    if k < |images| {
      assert OwnsAt(m1, a1, t1, lo + k) && Shows(m1, t1, lo + k, images[k]);
      StillShows(m1, a1, t1, m2, a2, t2, lo + |images|, more, lo + k, images[k]);
    } else {
      assert Shows(m2, t2, lo + |images| + (k - |images|), more[k - |images|]);
    }
  }

  lemma GrewOwns(m0: Memory, a0: set<nat>, t0: Tree, m1: Memory, a1: set<nat>, t1: Tree,
                 m2: Memory, a2: set<nat>, t2: Tree, lo: nat, images: seq<Image>, more: seq<Image>)
    requires HasTree(m0, a0, t0) && Grew(m0, a0, t0, m1, a1, t1, lo, images)
    requires HasTree(m1, a1, t1) && Grew(m1, a1, t1, m2, a2, t2, lo + |images|, more)
    ensures Owned(m2, a2, t2, lo, lo + |images| + |more|)
    ensures a2 + t2.Values + PagesOf(m2, t2, lo, lo + |images| + |more|) == a0 + t0.Values
  {
    hide TreeOk, Entry, Ppn, PagesOf, Owned, Kept, Shows;
    var mid, hi := lo + |images|, lo + |images| + |more|;
    StillOwned(m1, a1, t1, m2, a2, t2, mid, more, lo, mid);
    PagesSplit(m2, t2, lo, mid, hi);
    JoinOwned(m2, a2, t2, lo, mid, hi);
  }

  lemma GrewTrans(m0: Memory, a0: set<nat>, t0: Tree, m1: Memory, a1: set<nat>, t1: Tree,
                  m2: Memory, a2: set<nat>, t2: Tree, lo: nat, images: seq<Image>, more: seq<Image>)
    requires HasTree(m0, a0, t0) && Grew(m0, a0, t0, m1, a1, t1, lo, images)
    requires HasTree(m1, a1, t1) && Grew(m1, a1, t1, m2, a2, t2, lo + |images|, more)
    ensures Grew(m0, a0, t0, m2, a2, t2, lo, images + more)
  {
    hide TreeOk, Entry, Ppn, PagesOf, Owned, Shows;
    GrewOwns(m0, a0, t0, m1, a1, t1, m2, a2, t2, lo, images, more);
    GrewFrom(m0, a0, t0, m1, a1, t1, lo, images);
    forall k: nat | k < |images + more| ensures Shows(m2, t2, lo + k, (images + more)[k]) {
      GrewShows(m0, a0, t0, m1, a1, t1, m2, a2, t2, lo, images, more, k);
    }
  }

  /** Taking a grown run back leaves the entries as they were and only the new tables out of the pool. */
  lemma TakenBack(m0: Memory, a0: set<nat>, t0: Tree, m1: Memory, a1: set<nat>, t1: Tree,
                  m2: Memory, a2: set<nat>, lo: nat, images: seq<Image>)
    requires HasTree(m0, a0, t0) && Grew(m0, a0, t0, m1, a1, t1, lo, images)
    requires HasTree(m2, a2, t1) && m2.Keys == m1.Keys && RunCleared(m1, t1, m2, lo, lo + |images|)
    requires a2 == a1 + PagesOf(m1, t1, lo, lo + |images|) && Kept(m1, m2, m1.Keys - a2 - t1.Values)
    requires Unmapped(m0, t0, lo, lo + |images|)
    ensures Grew(m0, a0, t0, m2, a2, t1, lo, [])
  {
    GrewFrom(m0, a0, t0, m1, a1, t1, lo, images);
    hide TreeOk, Entry, Ppn;
    assert PagesOf(m2, t1, lo, lo) == {};
  }

  /** A page out of the pool, filled and mapped. */
  lemma PageAdded(m0: Memory, a0: set<nat>, t: Tree, m1: Memory, m2: Memory, a2: set<nat>, t2: Tree,
                  v: nat, p: nat, image: Image)
    requires HasTree(m0, a0, t) && p in a0 && PermOk(image.perm) && Entry(m0, t, v) == 0
    requires m1.Keys == m0.Keys && Kept(m0, m1, m0.Keys - a0) && p in m1 && m1[p] == image.words
    requires HasTree(m1, a0 - {p}, t) && Extends(m1, a0 - {p}, t, m2, a2, t2)
    requires RunMapped(m1, t, m2, t2, v, 1, p, image.perm)
    ensures Grew(m0, a0, t, m2, a2, t2, v, [image])
  {
    hide TreeOk, Entry, LeafOf, Ppn, Owned, Shows, PagesOf, PoolOk;
    TreeKept(m0, a0, t, m1);
    assert p !in t2.Values && p !in a2;
    assert Entry(m2, t2, v) == LeafOf(p + v - v, image.perm);
    OnePage(m2, a2, t2, v, p, image);
    assert Kept(m0, m2, m0.Keys - a0 - t.Values);
  }

  lemma OnePage(mem: Memory, avail: set<nat>, t: Tree, v: nat, p: nat, image: Image)
    requires TreeOk(mem, t) && PermOk(image.perm) && Entry(mem, t, v) == LeafOf(p, image.perm)
    requires p in mem && p !in avail && p !in t.Values && mem[p] == image.words
    ensures Owned(mem, avail, t, v, v + 1) && PagesOf(mem, t, v, v + 1) == {p} && Shows(mem, t, v, image)
  {
    hide TreeOk, Entry;
    LeafParts(p, image.perm);
    assert p in PagesOf(mem, t, v, v + 1);
  }

  /** A tree is not touched by freeing a page that is not one of its tables. */
  lemma PageFreed(mem: Memory, avail: set<nat>, t: Tree, mem': Memory, p: nat)
    requires HasTree(mem, avail, t) && p !in t.Values
    requires PoolOk(mem', avail + {p}) && mem'.Keys == mem.Keys && Kept(mem, mem', mem.Keys - avail - {p})
    ensures HasTree(mem', avail + {p}, t) && SameEntries(mem, t, mem', t)
  {
    TreePages(mem, avail, t);
    OtherPages(mem, mem', t);
  }

  lemma KeptThrough(m0: Memory, m1: Memory, m2: Memory, m3: Memory, s1: set<nat>, s2: set<nat>, s3: set<nat>, s: set<nat>)
    requires Kept(m0, m1, s1) && Kept(m1, m2, s2) && Kept(m2, m3, s3) && s <= s1 && s <= s2 && s <= s3
    ensures Kept(m0, m3, s)
  {}

  /** A page taken for a mapping that could not be made goes back. */
  lemma PageDropped(m0: Memory, a0: set<nat>, t: Tree, m1: Memory, m2: Memory, a2: set<nat>, t2: Tree,
                    m3: Memory, v: nat, p: nat)
    requires HasTree(m0, a0, t) && p in a0 && m1.Keys == m0.Keys && Kept(m0, m1, m0.Keys - a0)
    requires HasTree(m1, a0 - {p}, t) && Grown(m1, a0 - {p}, t, m2, a2, t2)
    requires PoolOk(m3, a2 + {p}) && m3.Keys == m2.Keys && Kept(m2, m3, m2.Keys - a2 - {p})
    ensures Grew(m0, a0, t, m3, a2 + {p}, t2, v, [])
  {
    hide TreeOk, Entry, Kept;
    TreeKept(m0, a0, t, m1);
    assert p !in t2.Values;
    PageFreed(m2, a2, t2, m3, p);
    KeptThrough(m0, m1, m2, m3, m0.Keys - a0, m1.Keys - (a0 - {p}) - t.Values, m2.Keys - a2 - {p}, m0.Keys - a0 - t.Values);
    assert PagesOf(m3, t2, v, v) == {};
  }

  // ---- what a caller needs of Grew ----

  lemma GrewNothing(mem: Memory, avail: set<nat>, t: Tree, lo: nat)
    requires HasTree(mem, avail, t)
    ensures Grew(mem, avail, t, mem, avail, t, lo, [])
  {
    hide TreeOk, Entry;
    assert PagesOf(mem, t, lo, lo) == {};
  }

  lemma GrewTree(mem: Memory, avail: set<nat>, t: Tree, mem': Memory, avail': set<nat>, t': Tree,
                 lo: nat, images: seq<Image>)
    requires HasTree(mem, avail, t) && Grew(mem, avail, t, mem', avail', t', lo, images)
    ensures HasTree(mem', avail', t') && ROOT in t && ROOT in t' && t'[ROOT] == t[ROOT]
    ensures mem'.Keys == mem.Keys
  {
    assert ROOT in t;
  }

  lemma GrewEntry(mem: Memory, avail: set<nat>, t: Tree, mem': Memory, avail': set<nat>, t': Tree,
                  lo: nat, images: seq<Image>, w: nat)
    requires HasTree(mem, avail, t) && Grew(mem, avail, t, mem', avail', t', lo, images)
    requires w < lo || lo + |images| <= w
    ensures TreeOk(mem', t') && Entry(mem', t', w) == Entry(mem, t, w)
  {}

  lemma GrewOwned(mem: Memory, avail: set<nat>, t: Tree, mem': Memory, avail': set<nat>, t': Tree,
                  lo: nat, images: seq<Image>)
    requires HasTree(mem, avail, t) && Grew(mem, avail, t, mem', avail', t', lo, images)
    ensures TreeOk(mem', t') && Owned(mem', avail', t', lo, lo + |images|)
  {}
}
