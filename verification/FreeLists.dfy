/** Intrusive circular doubly linked lists (kernel/alloc/list.c).

    The nodes live at addresses of the memory they describe. `next` and `prev`
    are the two words stored at each node address; everything else in memory,
    and in particular what a user writes into a block that is on no list, is
    left unconstrained. */
module FreeLists {

  /** `ring` is one cycle: following next visits it in order and comes back. */
  ghost predicate Linked(next: map<nat, nat>, prev: map<nat, nat>, ring: seq<nat>) {
    && ring != []
    && (forall i :: 0 <= i < |ring| ==> ring[i] in next && ring[i] in prev)
    && (forall i :: 0 <= i < |ring| - 1 ==> next[ring[i]] == ring[i + 1])
    && (forall i :: 0 < i < |ring| ==> prev[ring[i]] == ring[i - 1])
    && next[ring[|ring| - 1]] == ring[0]
    && prev[ring[0]] == ring[|ring| - 1]
  }

  ghost predicate NoDup(ring: seq<nat>) {
    forall i, j :: 0 <= i < j < |ring| ==> ring[i] != ring[j]
  }

  ghost predicate Apart(a: seq<nat>, b: seq<nat>) {
    forall p :: p in a ==> p !in b
  }

  /** No address occurs twice, neither in one ring nor in two. */
  ghost predicate AllDistinct(rings: seq<seq<nat>>) {
    && (forall k :: 0 <= k < |rings| ==> NoDup(rings[k]))
    && (forall k, l :: 0 <= k < |rings| && 0 <= l < |rings| && k != l ==> Apart(rings[k], rings[l]))
  }

  ghost predicate OnNone(rings: seq<seq<nat>>, p: nat) {
    forall k :: 0 <= k < |rings| ==> p !in rings[k]
  }

  ghost predicate SameAt(m: map<nat, nat>, m': map<nat, nat>, p: nat) {
    (p in m <==> p in m') && (p in m ==> m[p] == m'[p])
  }

  ghost function Without(ring: seq<nat>, i: nat): seq<nat>
    requires i < |ring|
  {
    ring[..i] + ring[i + 1..]
  }

  ghost function Behind(ring: seq<nat>, e: nat): seq<nat>
    requires ring != []
  {
    [ring[0], e] + ring[1..]
  }

  lemma WithoutElems(ring: seq<nat>, i: nat)
    requires i < |ring| && NoDup(ring)
    ensures NoDup(Without(ring, i))
    ensures forall p :: p in Without(ring, i) <==> p in ring && p != ring[i]
  {
    var r := Without(ring, i);
    assert forall j :: 0 <= j < |r| ==> r[j] == ring[if j < i then j else j + 1];
    assert forall j :: 0 <= j < |ring| && j != i ==> ring[j] == r[if j < i then j else j - 1];
  }

  lemma BehindElems(ring: seq<nat>, e: nat)
    requires ring != [] && NoDup(ring) && e !in ring
    ensures NoDup(Behind(ring, e))
    ensures forall p :: p in Behind(ring, e) <==> p in ring || p == e
  {
    var r := Behind(ring, e);
    assert forall j :: 2 <= j < |r| ==> r[j] == ring[j - 1];
    assert forall j :: 1 <= j < |ring| ==> ring[j] == r[j + 1];
    assert r[0] == ring[0] && r[1] == e;
  }

  lemma DistinctWithout(rings: seq<seq<nat>>, k: nat, i: nat)
    requires AllDistinct(rings) && k < |rings| && i < |rings[k]|
    ensures AllDistinct(rings[k := Without(rings[k], i)])
  {
    WithoutElems(rings[k], i);
  }

  lemma DistinctBehind(rings: seq<seq<nat>>, k: nat, e: nat)
    requires AllDistinct(rings) && k < |rings| && rings[k] != [] && OnNone(rings, e)
    ensures AllDistinct(rings[k := Behind(rings[k], e)])
  {
    BehindElems(rings[k], e);
  }

  /** Node i of a ring, between its two neighbours. */
  lemma Neighbours(next: map<nat, nat>, prev: map<nat, nat>, ring: seq<nat>, i: nat)
    requires Linked(next, prev, ring) && 0 < i < |ring| && NoDup(ring)
    ensures prev[ring[i]] == ring[i - 1] != ring[i]
    ensures next[ring[i]] == (if i + 1 < |ring| then ring[i + 1] else ring[0]) != ring[i]
    ensures prev[ring[i]] in ring && next[ring[i]] in ring
  {}

  /** Taking node i out of its ring by the two writes of lst_remove. */
  lemma Unlinked(next: map<nat, nat>, prev: map<nat, nat>, ring: seq<nat>, i: nat)
    requires Linked(next, prev, ring) && 0 < i < |ring| && NoDup(ring)
    ensures Linked(next[prev[ring[i]] := next[ring[i]]], prev[next[ring[i]] := prev[ring[i]]], Without(ring, i))
  {
    var r := Without(ring, i);
    Neighbours(next, prev, ring, i);
    assert forall j :: 0 <= j < |r| ==> r[j] == ring[if j < i then j else j + 1];
  }

  /** Inserting e behind the head by the four writes of lst_push. */
  lemma Inserted(next: map<nat, nat>, prev: map<nat, nat>, ring: seq<nat>, e: nat)
    requires Linked(next, prev, ring) && e !in ring && NoDup(ring)
    ensures Linked(next[e := next[ring[0]]][ring[0] := e], prev[e := ring[0]][next[ring[0]] := e], Behind(ring, e))
  {
    var r := Behind(ring, e);
    var prev' := prev[e := ring[0]][next[ring[0]] := e];
    assert r[0] == ring[0] && r[1] == e;
    assert forall j :: 2 <= j < |r| ==> r[j] == ring[j - 1];
    assert next[ring[0]] == ring[if |ring| > 1 then 1 else 0];
    forall j | 2 < j < |r| ensures prev'[r[j]] == r[j - 1] {
      assert prev[ring[j - 1]] == ring[j - 2] && ring[j - 1] != ring[1];
    }
  }

  /** A ring whose addresses are not written stays linked. */
  lemma Untouched(next: map<nat, nat>, prev: map<nat, nat>, next': map<nat, nat>, prev': map<nat, nat>, ring: seq<nat>)
    requires Linked(next, prev, ring)
    requires forall p :: p in ring ==> p in next' && p in prev' && next'[p] == next[p] && prev'[p] == prev[p]
    ensures Linked(next', prev', ring)
  {
    assert forall i :: 0 <= i < |ring| ==> ring[i] in ring;
  }

  class ListMemory {
    var next: map<nat, nat>
    var prev: map<nat, nat>
    ghost var rings: seq<seq<nat>>  // rings[k][0] is the head of list k

    ghost predicate Valid()
      reads this
    {
      && (forall k :: 0 <= k < |rings| ==> Linked(next, prev, rings[k]))
      && AllDistinct(rings)
    }

    constructor ()
      ensures Valid() && rings == []
    {
      next, prev, rings := map[], map[], [];
    }

    /** lst_init: a new empty list with the given head. */
    method Init(lst: nat)
      requires Valid() && OnNone(rings, lst)
      modifies this
      ensures Valid() && rings == old(rings) + [[lst]]
    {
      ghost var next0, prev0 := next, prev;
      next := next[lst := lst];
      prev := prev[lst := lst];
      forall k | 0 <= k < |rings| ensures Linked(next, prev, rings[k]) {
        Untouched(next0, prev0, next, prev, rings[k]);
      }
      rings := rings + [[lst]];
    }

    method Empty(ghost k: nat, lst: nat) returns (b: bool)
      requires Valid() && k < |rings| && rings[k][0] == lst
      ensures b <==> |rings[k]| == 1
    {
      b := next[lst] == lst;
      ghost var r := rings[k];
      assert Linked(next, prev, r) && NoDup(r);
      assert |r| > 1 ==> next[r[0]] == r[0 + 1] && r[0] != r[1];
    }

    /** lst_remove is given the node alone; the node's own links suffice to take
        it out of whichever list holds it. */
    method Remove(ghost k: nat, ghost i: nat, node: nat)
      requires Valid() && k < |rings| && 0 < i < |rings[k]| && rings[k][i] == node
      modifies this
      ensures Valid() && rings == old(rings)[k := Without(old(rings)[k], i)]
      ensures forall p :: p !in old(rings)[k] ==> SameAt(old(next), next, p) && SameAt(old(prev), prev, p)
    {
      ghost var r, next0, prev0 := rings[k], next, prev;
      Neighbours(next, prev, r, i);
      next := next[prev[node] := next[node]];
      prev := prev[next[node] := prev[node]];
      Unlinked(next0, prev0, r, i);
      forall l | 0 <= l < |rings| && l != k ensures Linked(next, prev, rings[l]) {
        assert Apart(r, rings[l]);
        Untouched(next0, prev0, next, prev, rings[l]);
      }
      DistinctWithout(rings, k, i);
      rings := rings[k := Without(r, i)];
    }

    /** lst_push: right behind the head. */
    method Push(ghost k: nat, lst: nat, e: nat)
      requires Valid() && k < |rings| && rings[k][0] == lst && OnNone(rings, e)
      modifies this
      ensures Valid() && rings == old(rings)[k := Behind(old(rings)[k], e)]
      ensures forall p :: p != e && p !in old(rings)[k] ==> SameAt(old(next), next, p) && SameAt(old(prev), prev, p)
    {
      ghost var r, next0, prev0 := rings[k], next, prev;
      assert next[lst] == r[if |r| > 1 then 1 else 0];
      next := next[e := next[lst]];
      prev := prev[e := lst];
      prev := prev[next[lst] := e];
      next := next[lst := e];
      Inserted(next0, prev0, r, e);
      forall l | 0 <= l < |rings| && l != k ensures Linked(next, prev, rings[l]) {
        assert Apart(r, rings[l]);
        Untouched(next0, prev0, next, prev, rings[l]);
      }
      DistinctBehind(rings, k, e);
      rings := rings[k := Behind(r, e)];
    }

    method Pop(ghost k: nat, lst: nat) returns (p: nat)
      requires Valid() && k < |rings| && rings[k][0] == lst && |rings[k]| > 1
      modifies this
      ensures p == old(rings)[k][1]
      ensures Valid() && rings == old(rings)[k := Without(old(rings)[k], 1)]
      ensures forall q :: q !in old(rings)[k] ==> SameAt(old(next), next, q) && SameAt(old(prev), prev, q)
    {
      p := next[lst];
      Remove(k, 1, p);
    }
  }
}
