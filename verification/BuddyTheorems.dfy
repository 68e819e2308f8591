/** What the allocator's invariant means (kernel/alloc/buddy.c). */
module BuddyTheorems {
  import opened BuddyBlocks
  import opened BuddyAddresses
  import opened BuddyAllocator

  ghost predicate Owns(top: nat, pinned: set<Block>, x: Block) {
    x in pinned || FreeAt(top, pinned, x)
  }

  /** Free-list blocks, live blocks and reserved leaves partition the bytes of the heap. */
  lemma EveryByteOnce(top: nat, pinned: set<Block>, a: nat) returns (x: Block)
    requires Wellformed(top, pinned) && a < BlkSize(top)
    ensures Owns(top, pinned, x) && InSpan(a, x)
    ensures forall y :: Owns(top, pinned, y) && InSpan(a, y) ==> y == x
  {
    var leaf := Block(0, BlkIndex(0, a));
    LeafOf(top, a);
    if Avail(pinned, leaf) {
      x := FreeAncestor(top, pinned, leaf);
    } else {
      x :| x in pinned && Overlap(x, leaf);
      assert Up(leaf.index, 0) == leaf.index && Up(x.index, 0) == x.index;
    }
    SpanNested(leaf, x);
    forall y | Owns(top, pinned, y) && InSpan(a, y) ensures y == x {
      OverlapBytes(y, x);
      OwnersApart(top, pinned, y, x);
    }
  }

  lemma LeafOf(top: nat, a: nat)
    requires a < BlkSize(top)
    ensures var leaf := Block(0, BlkIndex(0, a)); InSpan(a, leaf) && InHeap(top, leaf)
  {
    assert BlkSize(0) == LEAF_SIZE;
    InHeapBound(top, Block(0, BlkIndex(0, a)));
  }

  lemma OwnersApart(top: nat, pinned: set<Block>, x: Block, y: Block)
    requires Wellformed(top, pinned) && Owns(top, pinned, x) && Owns(top, pinned, y) && Overlap(x, y)
    ensures x == y
  {
    if FreeAt(top, pinned, x) && FreeAt(top, pinned, y) { FreeApart(top, pinned, x, y); }
  }

  /** A pair bit below the top level is set exactly when one of the two buddies is on the
      free list of the level, and two buddies are never on it together. */
  lemma PairBitMeaning(top: nat, pinned: set<Block>, F: seq<set<nat>>, X: seq<set<nat>>, S: seq<set<nat>>, k: nat, i: nat)
    requires Canonical(top, pinned, F, X, S) && k < top
    ensures i in X[k] <==> (2 * i in F[k]) != (2 * i + 1 in F[k])
    ensures !(2 * i in F[k] && 2 * i + 1 in F[k])
  {
    hide Avail, Canonical;
    var l, r := Block(k, 2 * i), Block(k, 2 * i + 1);
    AvailChildren(pinned, k, i);
    WithinParent(l, Block(top, 0));
    WithinParent(r, Block(top, 0));
    InList(top, pinned, F, X, S, l);
    InList(top, pinned, F, X, S, r);
    InPairs(top, pinned, F, X, S, k, i);
  }

  lemma InList(top: nat, pinned: set<Block>, F: seq<set<nat>>, X: seq<set<nat>>, S: seq<set<nat>>, x: Block)
    requires Canonical(top, pinned, F, X, S) && x.level <= top
    ensures |F| == top + 1 && (x.index in F[x.level] <==> FreeAt(top, pinned, x))
  {}

  lemma InPairs(top: nat, pinned: set<Block>, F: seq<set<nat>>, X: seq<set<nat>>, S: seq<set<nat>>, k: nat, i: nat)
    requires Canonical(top, pinned, F, X, S) && k < top
    ensures |X| == top + 1 && (i in X[k] <==> XorAt(top, pinned, k, i))
  {}

  /** A request that fails finds no aligned run of free bytes of its block size; one
      that succeeds gets bytes that no pinned block shares. */
  lemma AvailBytes(top: nat, pinned: set<Block>, x: Block)
    ensures Avail(pinned, x) <==> forall y, a :: y in pinned && InSpan(a, x) ==> !InSpan(a, y)
  {
    forall y | y in pinned
      ensures Overlap(y, x) <==> exists a :: InSpan(a, x) && InSpan(a, y)
    {
      OverlapBytes(y, x);
    }
  }

  /** buddy_free exactly undoes buddy_malloc. */
  method MallocThenFree(m: Allocator, nbytes: nat) returns (ok: bool)
    requires m.Valid() && nbytes <= TWO63
    modifies m`live, m`F, m`X, m`S, m.lists, m.Arrays()
    ensures m.Valid() && m.live == old(m.live)
    ensures m.F == old(m.F) && |old(m.X)| == |m.X| == m.top + 1 && m.X[..m.top] == old(m.X)[..m.top]
    ensures |old(m.S)| == |m.S| == m.top + 1 && m.S[1..] == old(m.S)[1..]
  {
    hide Allocator.Valid, Allocator.Kept, Canonical, Avail, InHeap, Addr, BlkIndex;
    m.ValidState();
    ghost var pinned := m.live + m.reserved;
    ghost var F0, X0, S0 := m.F, m.X, m.S;
    var r := m.Malloc(nbytes);
    ok := r.Some?;
    if ok {
      ghost var x := Block(LevelFrom(nbytes, 0), BlkIndex(LevelFrom(nbytes, 0), r.value));
      NotAvail(pinned, x);
      m.Free(r.value, x);
      RemoveAgain(old(m.live), x);
    }
    m.ValidState();
    CanonicalUnique(m.top, pinned, F0, X0, S0, m.F, m.X, m.S);
  }

  lemma RemoveAgain(a: set<Block>, x: Block)
    requires x !in a
    ensures (a + {x}) - {x} == a
  {}

  lemma NotAvail(pinned: set<Block>, x: Block)
    requires Avail(pinned, x)
    ensures x !in pinned
  {
    assert Up(x.index, 0) == x.index;
  }

  /** Freeing all live blocks, in any order, leads back to the state after buddy_init. */
  method FreeInAnyOrder(m: Allocator, order: seq<Block>,
                        ghost F0: seq<set<nat>>, ghost X0: seq<set<nat>>, ghost S0: seq<set<nat>>)
    requires m.Valid() && Canonical(m.top, m.reserved, F0, X0, S0)
    requires forall x :: x in m.live <==> x in order
    requires forall i, j :: 0 <= i < j < |order| ==> order[i] != order[j]
    modifies m`live, m`F, m`X, m`S, m.lists, m.Arrays()
    ensures m.Valid() && m.live == {}
    ensures m.F == F0 && m.X[..m.top] == X0[..m.top] && m.S[1..] == S0[1..]
  {
    hide Allocator.Valid, Allocator.Kept, Canonical, Addr;
    for i := 0 to |order|
      invariant m.Valid()
      invariant forall x :: x in m.live <==> x in order[i..]
    {
      assert order[i..] == [order[i]] + order[i + 1..];
      m.Free(Addr(order[i]), order[i]);
    }
    m.ValidState();
    assert m.live + m.reserved == m.reserved;
    CanonicalUnique(m.top, m.reserved, F0, X0, S0, m.F, m.X, m.S);
  }
}
