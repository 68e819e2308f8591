/** Many processes over one pool of pages (kernel/process/proc.c, kernel/memory/vm.c): any sequence
    of births, forks, growths, stores, copies by the kernel and exits gives every process the memory it would have
    on its own, and pages neither leak nor are shared. */
module SpaceRuns {
  import opened PageTables
  import opened PagePool
  import opened SpaceGrowth
  import opened AddressSpaces
  import opened UserMemory
  import opened ForkMemory
  import opened ProcSpaces
  import opened SpaceLife
  import opened UserCopy
  import opened SetSizes

  // ---- processes with memories of their own ----

  /** What may happen: allocproc, fork, growproc, a store by the user, copyout, copyin and exit. */
  datatype Act =
    | Birth | Fork(p: nat) | Grow(p: nat, n: int) | Store(p: nat, page: nat, word: nat, x: nat)
    | Give(p: nat, va: nat, bytes: seq<nat>) | Take(p: nat, va: nat, len: nat) | Exit(p: nat)

  datatype Reply = Ok | Got(bytes: seq<nat>) | Failed | Refused | Panicked

  /** What a process sees: its size, and its pages with their flags. */
  datatype Private = Private(sz: nat, pages: seq<Image>)

  datatype World = World(procs: map<nat, Private>, born: nat)

  const START: World := World(map[], 0)

  /** PTE_V, PTE_R, PTE_W and PTE_U. */
  const NEW_FLAGS: nat := 23

  function NewPage(): Image {
    Image(NEW_FLAGS, seq(ENTRIES, _ => 0))
  }

  /** The size after growproc(n). */
  function Sized(sz: nat, n: int): nat {
    if sz + n < 0 then sz else sz + n
  }

  /** The first n pages, and new ones behind them. */
  function Fitted(pages: seq<Image>, n: nat): (r: seq<Image>)
    ensures |r| == n
  {
    if n <= |pages| then pages[..n] else pages + seq(n - |pages|, _ => NewPage())
  }

  // ---- bytes of a process's memory ----

  /** The byte at an address. */
  function MemByte(pages: seq<Image>, a: nat): nat {
    if a / PGSIZE < |pages| && |pages[a / PGSIZE].words| == ENTRIES
    then PageByte(pages[a / PGSIZE].words, a % PGSIZE) else 0
  }

  /** How many of len bytes from an address on lie in the memory. */
  function Fit(pages: seq<Image>, va: nat, len: nat): (k: nat)
    ensures k <= len
  {
    if va + len <= |pages| * PGSIZE then len else if va < |pages| * PGSIZE then |pages| * PGSIZE - va else 0
  }

  /** The memory with bytes put from an address on. */
  function Poked(pages: seq<Image>, va: nat, bytes: seq<nat>): (r: seq<Image>)
    ensures |r| == |pages|
  {
    seq(|pages|, v requires 0 <= v < |pages| => pages[v].(words := Patched(pages[v].words, v, va, bytes)))
  }

  function Peeked(pages: seq<Image>, va: nat, len: nat): seq<nat> {
    seq<nat>(len, i requires 0 <= i < len => MemByte(pages, va + i))
  }

  predicate AllWhole(pages: seq<Image>) {
    forall v :: 0 <= v < |pages| ==> |pages[v].words| == ENTRIES
  }

  /** Bytes inside the range are the new ones, all others are as before. */
  lemma PokedByte(pages: seq<Image>, va: nat, bytes: seq<nat>, a: nat)
    requires AllWhole(pages) && Bytes(bytes) && a < |pages| * PGSIZE
    ensures MemByte(Poked(pages, va, bytes), a) == if va <= a < va + |bytes| then bytes[a - va] else MemByte(pages, a)
  {
    hide Patched, PageByte;
    var v := a / PGSIZE;
    assert v < |pages| && a == v * PGSIZE + a % PGSIZE;
    PatchedByte(pages[v].words, v, va, bytes, a % PGSIZE);
  }

  predicate Writable(image: Image) {
    image.perm / 4 % 2 == 1
  }

  /** The argument of growproc is a 32-bit integer, and bytes are bytes. */
  predicate Sensible(a: Act) {
    (a.Grow? ==> -0x8000_0000 <= a.n < 0x8000_0000) && (a.Give? ==> Bytes(a.bytes))
  }

  /** Whether there is such a process, and the page it stores to. */
  predicate Possible(w: World, a: Act) {
    match a
    case Birth => true
    case Store(p, page, word, x) =>
      p in w.procs && page < |w.procs[p].pages| && Writable(w.procs[p].pages[page]) && word < |w.procs[p].pages[page].words|
    case _ => a.p in w.procs
  }

  function Next(w: World, a: Act, r: Reply): World {
    if !Possible(w, a) then w
    else match a
      case Give(p, va, bytes) =>
        var mine := w.procs[p];
        w.(procs := w.procs[p := mine.(pages := Poked(mine.pages, va, bytes[..Fit(mine.pages, va, |bytes|)]))])
      case _ => if r == Ok then Succeeded(w, a) else w
  }

  /** What has been done when the answer is yes. */
  function Succeeded(w: World, a: Act): World
    requires Possible(w, a)
  {
    match a
    case Birth => World(w.procs[w.born := Private(0, [])], w.born + 1)
    case Fork(p) => World(w.procs[w.born := w.procs[p]], w.born + 1)
    case Grow(p, n) =>
      var sz := Sized(w.procs[p].sz, n);
      w.(procs := w.procs[p := Private(sz, Fitted(w.procs[p].pages, PagesFor(sz)))])
    case Store(p, page, word, x) =>
      var mine := w.procs[p];
      var image := mine.pages[page];
      w.(procs := w.procs[p := mine.(pages := mine.pages[page := image.(words := image.words[word := x])])])
    case Exit(p) => w.(procs := w.procs - {p})
    case _ => w
  }

  /** With so many free pages a birth, a fork or growing does not fail: three pages for each page
      of memory, for its tables and itself, and six for the rest of a process. */
  function Needs(w: World, a: Act): int {
    match a
    case Birth => 6
    case Fork(p) => if p in w.procs then 3 * PagesFor(w.procs[p].sz) + 6 else 0
    case Grow(p, n) =>
      if p in w.procs && n > 0 then 3 * (PagesFor(w.procs[p].sz + n) - PagesFor(w.procs[p].sz)) else 0
    case _ => 0
  }

  /** What a copy by the kernel answers: whether all of the range lies in the memory, and its bytes. */
  predicate CopyOk(w: World, a: Act, r: Reply) {
    match a
    case Give(p, va, bytes) => p in w.procs ==> r == if Fit(w.procs[p].pages, va, |bytes|) == |bytes| then Ok else Failed
    case Take(p, va, len) =>
      p in w.procs ==> r == if Fit(w.procs[p].pages, va, len) == len then Got(Peeked(w.procs[p].pages, va, len)) else Failed
    case _ => !r.Got?
  }

  /** What a reply may be, with so many free pages: only growing beyond the trapframe panics, and
      besides copies only what needs more pages than there are fails. */
  predicate ReplyOk(w: World, a: Act, r: Reply, free: nat) {
    && CopyOk(w, a, r)
    && (r == Refused <==> !Possible(w, a))
    && (r == Panicked ==> a.Grow? && a.n > 0 && a.p in w.procs && PagesFor(w.procs[a.p].sz + a.n) > TRAPFRAME)
    && (r == Failed && !a.Give? && !a.Take? ==> free < Needs(w, a))
    && (r == Ok && a.Grow? && a.n > 0 && a.p in w.procs ==> PagesFor(w.procs[a.p].sz + a.n) <= TRAPFRAME)
  }

  /** The processes after the first replies. */
  function After(acts: seq<Act>, replies: seq<Reply>): World
    requires |replies| <= |acts|
  {
    if replies == [] then START
    else
      var n := |replies| - 1;
      Next(After(acts, replies[..n]), acts[n], replies[n])
  }

  lemma AfterNext(acts: seq<Act>, replies: seq<Reply>, r: Reply)
    requires |replies| < |acts|
    ensures After(acts, replies + [r]) == Next(After(acts, replies), acts[|replies|], r)
  {
    assert (replies + [r])[..|replies|] == replies;
  }

  /** All memory of all processes is for the user to read and write. */
  ghost predicate AllUser(procs: map<nat, Private>) {
    forall i :: i in procs ==> UserPages(procs[i].pages)
  }

  predicate UserPages(pages: seq<Image>) {
    forall v :: 0 <= v < |pages| ==> pages[v].perm == NEW_FLAGS
  }

  lemma NextUser(w: World, a: Act, r: Reply)
    requires AllUser(w.procs)
    ensures AllUser(Next(w, a, r).procs)
  {
    hide Patched;
    forall i | i in Next(w, a, r).procs ensures UserPages(Next(w, a, r).procs[i].pages) {
      assert i in w.procs ==> UserPages(w.procs[i].pages);
      if a.Fork? && a.p in w.procs { assert UserPages(w.procs[a.p].pages); }
    }
  }

  lemma {:induction false} AfterUser(acts: seq<Act>, replies: seq<Reply>)
    requires |replies| <= |acts|
    ensures AllUser(After(acts, replies).procs)
    decreases |replies|
  {
    hide Next, UserPages;
    if replies != [] {
      var n := |replies| - 1;
      AfterUser(acts, replies[..n]);
      NextUser(After(acts, replies[..n]), acts[n], replies[n]);
    }
  }

  // ---- processes over the pool ----

  datatype Proc = Proc(root: nat, sz: nat, frame: nat)

  /** The pages of a process: its tables, its memory and its trapframe. */
  ghost function Holds(mem: Memory, p: Proc, t: Tree): set<nat>
    requires TreeOk(mem, t)
  {
    Footprint(mem, t, PagesFor(p.sz)) + {p.frame}
  }

  /** The tables of a process give it the memory that it would have on its own. */
  ghost predicate Lives(mem: Memory, avail: set<nat>, p: Proc, t: Tree, mine: Private) {
    && ProcSpace(mem, avail, t, PagesFor(p.sz)) && ROOT in t && t[ROOT] == p.root && p.sz == mine.sz
    && ImagesOf(mem, t, PagesFor(p.sz)) == mine.pages && p.frame !in Footprint(mem, t, PagesFor(p.sz))
    && TrapframeAt(mem, t, p.frame)
  }

  ghost function Mine(owner: map<nat, nat>, i: nat): set<nat> {
    set q | q in owner && owner[q] == i
  }

  /** The pool and the owned pages make up what was there at the start, each page once. */
  ghost predicate Conserved(m0: Memory, a0: set<nat>, mem: Memory, avail: set<nat>, owner: map<nat, nat>) {
    && PoolOk(mem, avail) && mem.Keys == m0.Keys && a0 <= m0.Keys && Kept(m0, mem, m0.Keys - a0)
    && avail !! owner.Keys && avail + owner.Keys == a0
  }

  /** Every process lives, and what it holds is what it owns. */
  ghost predicate AllLive(mem: Memory, avail: set<nat>, procs: map<nat, Proc>, trees: map<nat, Tree>, owner: map<nat, nat>,
                          w: map<nat, Private>) {
    && procs.Keys == trees.Keys == w.Keys && (forall q :: q in owner ==> owner[q] in procs)
    && forall i :: i in procs ==> LivesOn(mem, avail, procs[i], trees[i], w[i], Mine(owner, i))
  }

  ghost predicate LivesOn(mem: Memory, avail: set<nat>, p: Proc, t: Tree, mine: Private, h: set<nat>) {
    Lives(mem, avail, p, t, mine) && Holds(mem, p, t) == h
  }

  /** One process may take pages from the pool and give pages back, and writes only its own. */
  ghost predicate Moved(mem: Memory, avail: set<nat>, h: set<nat>, mem': Memory, avail': set<nat>, h': set<nat>) {
    && PoolOk(mem', avail') && mem'.Keys == mem.Keys && avail' !! h' && avail' + h' == avail + h
    && Kept(mem, mem', mem.Keys - avail - h)
  }

  lemma {:induction false} ImagesSame(mem: Memory, avail: set<nat>, t: Tree, n: nat, mem': Memory, k: nat)
    requires HasTree(mem, avail, t) && Owned(mem, avail, t, 0, n) && TreeOk(mem', t) && SameEntries(mem, t, mem', t)
    requires Kept(mem, mem', PagesOf(mem, t, 0, n)) && k <= n
    ensures ImagesOf(mem', t, k) == ImagesOf(mem, t, k)
  {
    hide TreeOk, Entry, ImageAt, Owned;
    if k > 0 {
      ImagesSame(mem, avail, t, n, mem', k - 1);
      SameImages(mem, avail, t, n, mem', k - 1);
    }
  }

  /** Someone else's step. */
  lemma OtherLives(mem: Memory, avail: set<nat>, p: Proc, t: Tree, mine: Private,
                   mem': Memory, avail': set<nat>, h: set<nat>, h': set<nat>)
    requires Lives(mem, avail, p, t, mine) && Moved(mem, avail, h, mem', avail', h')
    requires Holds(mem, p, t) !! h && Holds(mem, p, t) !! avail
    ensures Lives(mem', avail', p, t, mine) && Holds(mem', p, t) == Holds(mem, p, t)
  {
    hide TreeOk, Entry, PagesOf, Owned, ImagesOf, PagesFor;
    var n := PagesFor(p.sz);
    FootprintTaken(mem, avail, t, n);
    KeptSpace(mem, avail, t, n, mem', avail');
    ImagesSame(mem, avail, t, n, mem', n);
  }

  ghost function Reassigned(owner: map<nat, nat>, i: nat, h: set<nat>): map<nat, nat> {
    map q | q in (owner.Keys - Mine(owner, i)) + h :: if q in h then i else owner[q]
  }

  lemma ReassignedOthers(owner: map<nat, nat>, i: nat, h: set<nat>, j: nat)
    requires j != i && Mine(owner, j) !! h
    ensures Mine(Reassigned(owner, i, h), j) == Mine(owner, j)
  {}

  lemma ReassignedMine(owner: map<nat, nat>, i: nat, h: set<nat>)
    ensures Mine(Reassigned(owner, i, h), i) == h
  {}

  lemma ReassignedKeys(owner: map<nat, nat>, i: nat, h: set<nat>)
    ensures forall q :: q in Reassigned(owner, i, h) ==>
      Reassigned(owner, i, h)[q] == i || (q in owner && Reassigned(owner, i, h)[q] == owner[q])
  {}

  lemma StepConserved(m0: Memory, a0: set<nat>, mem: Memory, avail: set<nat>, owner: map<nat, nat>, i: nat,
                      mem': Memory, avail': set<nat>, h': set<nat>)
    requires Conserved(m0, a0, mem, avail, owner) && Moved(mem, avail, Mine(owner, i), mem', avail', h')
    ensures Conserved(m0, a0, mem', avail', Reassigned(owner, i, h'))
  {
    var h, owner' := Mine(owner, i), Reassigned(owner, i, h');
    assert owner'.Keys == (owner.Keys - h) + h';
  }

  lemma StepOthers(mem: Memory, avail: set<nat>, procs: map<nat, Proc>, trees: map<nat, Tree>, owner: map<nat, nat>,
                   w: map<nat, Private>, i: nat, mem': Memory, avail': set<nat>, h': set<nat>, j: nat)
    requires AllLive(mem, avail, procs, trees, owner, w) && avail !! owner.Keys
    requires Moved(mem, avail, Mine(owner, i), mem', avail', h') && j in procs && j != i
    ensures LivesOn(mem', avail', procs[j], trees[j], w[j], Mine(Reassigned(owner, i, h'), j))
  {
    hide ProcSpace, Footprint, ImagesOf, Holds, Reassigned;
    assert LivesOn(mem, avail, procs[j], trees[j], w[j], Mine(owner, j));
    OtherLives(mem, avail, procs[j], trees[j], w[j], mem', avail', Mine(owner, i), h');
    ReassignedOthers(owner, i, h', j);
  }

  /** A process is made, or goes on, with what it holds now. */
  lemma StepUpdate(mem: Memory, avail: set<nat>, procs: map<nat, Proc>, trees: map<nat, Tree>, owner: map<nat, nat>,
                   w: map<nat, Private>, i: nat, mem': Memory, avail': set<nat>, p: Proc, t: Tree, mine: Private, h: set<nat>)
    requires AllLive(mem, avail, procs, trees, owner, w) && avail !! owner.Keys && LivesOn(mem', avail', p, t, mine, h)
    requires Moved(mem, avail, Mine(owner, i), mem', avail', h)
    ensures AllLive(mem', avail', procs[i := p], trees[i := t], Reassigned(owner, i, h), w[i := mine])
  {
    hide LivesOn, Moved, Mine;
    ReassignedMine(owner, i, h);
    ReassignedKeys(owner, i, h);
    var procs', trees', owner', w' := procs[i := p], trees[i := t], Reassigned(owner, i, h), w[i := mine];
    forall j | j in procs' ensures LivesOn(mem', avail', procs'[j], trees'[j], w'[j], Mine(owner', j)) {
      if j != i { StepOthers(mem, avail, procs, trees, owner, w, i, mem', avail', h, j); }
    }
    hide Reassigned;
  }

  lemma StepRemove(mem: Memory, avail: set<nat>, procs: map<nat, Proc>, trees: map<nat, Tree>, owner: map<nat, nat>,
                   w: map<nat, Private>, i: nat, mem': Memory, avail': set<nat>)
    requires AllLive(mem, avail, procs, trees, owner, w) && avail !! owner.Keys
    requires Moved(mem, avail, Mine(owner, i), mem', avail', {})
    ensures AllLive(mem', avail', procs - {i}, trees - {i}, Reassigned(owner, i, {}), w - {i})
  {
    hide LivesOn, Moved;
    forall j | j in procs && j != i ensures LivesOn(mem', avail', procs[j], trees[j], w[j], Mine(Reassigned(owner, i, {}), j)) {
      StepOthers(mem, avail, procs, trees, owner, w, i, mem', avail', {}, j);
    }
    forall q | q in Reassigned(owner, i, {}) ensures Reassigned(owner, i, {})[q] in procs - {i} {
      assert q in owner && q !in Mine(owner, i);
    }
  }

  // ---- images ----

  lemma ShowsImage(mem: Memory, t: Tree, v: nat, image: Image)
    requires TreeOk(mem, t) && Shows(mem, t, v, image)
    ensures ImageAt(mem, t, v) == image.(perm := if image.perm % 2 == 1 then image.perm else image.perm + 1)
  {
    hide TreeOk, Entry;
    var p, x := Ppn(Entry(mem, t, v)), if image.perm % 2 == 1 then image.perm else image.perm + 1;
    assert Entry(mem, t, v) == p * 1024 + x && x < 1024;
  }

  lemma {:induction false} ImagesPrefix(mem: Memory, t: Tree, n: nat, k: nat)
    requires TreeOk(mem, t) && k <= n
    ensures ImagesOf(mem, t, n)[..k] == ImagesOf(mem, t, k)
  {
    hide TreeOk, ImageAt;
    if k < n { ImagesPrefix(mem, t, n - 1, k); }
  }

  /** What lies below both sizes is as it was. */
  lemma {:induction false} ImagesBelow(mem: Memory, t: Tree, mem': Memory, t': Tree, n: nat, k: nat)
    requires TreeOk(mem, t) && TreeOk(mem', t') && SameBelow(mem, t, mem', t', n) && k <= n
    ensures ImagesOf(mem', t', k) == ImagesOf(mem, t, k)
  {
    hide TreeOk, Entry, Ppn;
    if k > 0 {
      ImagesBelow(mem, t, mem', t', n, k - 1);
      assert Ppn(Entry(mem, t, k - 1)) in PagesOf(mem, t, 0, n);
    }
  }

  lemma NewImage(mem: Memory, t: Tree, v: nat)
    requires TreeOk(mem, t) && Shows(mem, t, v, ZeroImage(4))
    ensures ImageAt(mem, t, v) == NewPage()
  {
    hide TreeOk, Entry, Shows;
    ShowsImage(mem, t, v, ZeroImage(4));
    assert UserPerm(4) == 22;
  }

  lemma {:induction false} ImagesNew(mem: Memory, t: Tree, lo: nat, hi: nat)
    requires TreeOk(mem, t) && lo <= hi && AllZero(mem, t, lo, hi)
    ensures ImagesOf(mem, t, hi) == Fitted(ImagesOf(mem, t, lo), hi)
  {
    hide TreeOk, ImageAt, Shows, NewPage;
    if lo < hi {
      ImagesNew(mem, t, lo, hi - 1);
      NewImage(mem, t, hi - 1);
      assert Fitted(ImagesOf(mem, t, lo), hi) == Fitted(ImagesOf(mem, t, lo), hi - 1) + [NewPage()];
    } else {
      assert ImagesOf(mem, t, lo)[..lo] == ImagesOf(mem, t, lo);
    }
  }

  lemma {:induction false} ImagesCopied(m0: Memory, s: Tree, mem: Memory, t: Tree, n: nat, k: nat)
    requires TreeOk(m0, s) && TreeOk(mem, t) && CopyOf(m0, s, n, mem, t) && k <= n && Mapped(m0, s, 0, n)
    ensures ImagesOf(mem, t, k) == ImagesOf(m0, s, k)
  {
    hide TreeOk, Entry, Shows;
    if k > 0 {
      ImagesCopied(m0, s, mem, t, n, k - 1);
      ShowsImage(mem, t, k - 1, ImageAt(m0, s, k - 1));
      OddFlags(Entry(m0, s, k - 1));
    }
  }

  lemma OddFlags(e: nat)
    requires IsLeaf(e)
    ensures FlagsOf(e) % 2 == 1
  {}

  lemma NoneFree(m0: Memory, a0: set<nat>, mem: Memory, avail: set<nat>, owner: map<nat, nat>)
    requires Conserved(m0, a0, mem, avail, owner)
    ensures avail !! owner.Keys
  {}

  /** A process that has just been made. */
  lemma BornLives(mem: Memory, avail: set<nat>, mem': Memory, avail': set<nat>, p: Proc, t: Tree, mine: Private)
    returns (h: set<nat>)
    requires PoolOk(mem, avail) && Alive(mem, avail, mem', avail', t, PagesFor(p.sz), p.frame) && ROOT in t && t[ROOT] == p.root
    requires mine == Private(p.sz, ImagesOf(mem', t, PagesFor(p.sz)))
    ensures LivesOn(mem', avail', p, t, mine, h) && Moved(mem, avail, {}, mem', avail', h)
  {
    FootprintTaken(mem', avail', t, PagesFor(p.sz));
    hide TreeOk, Owned, Unmapped, Mapped, Footprint, ImagesOf, PagesFor;
    h := Holds(mem', p, t);
  }

  /** Nobody owns a page under a number that is not in use. */
  lemma NothingOwned(mem: Memory, avail: set<nat>, procs: map<nat, Proc>, trees: map<nat, Tree>, owner: map<nat, nat>,
                     w: map<nat, Private>, i: nat)
    requires AllLive(mem, avail, procs, trees, owner, w) && i !in procs
    ensures Mine(owner, i) == {}
  {
    hide LivesOn;
  }

  lemma LiveAt(mem: Memory, avail: set<nat>, procs: map<nat, Proc>, trees: map<nat, Tree>, owner: map<nat, nat>,
               w: map<nat, Private>, i: nat)
    requires AllLive(mem, avail, procs, trees, owner, w) && i in procs
    ensures i in trees && i in w && LivesOn(mem, avail, procs[i], trees[i], w[i], Mine(owner, i))
    ensures ProcSpace(mem, avail, trees[i], PagesFor(procs[i].sz)) && ROOT in trees[i] && trees[i][ROOT] == procs[i].root
    ensures procs[i].sz == w[i].sz && |w[i].pages| == PagesFor(w[i].sz)
  {}

  /** A child has the memory of its parent. */
  lemma ForkLives(mem: Memory, avail: set<nat>, parent: Proc, s: Tree, mine: Private, owned: set<nat>,
                  mem': Memory, avail': set<nat>, p: Proc, t: Tree) returns (h: set<nat>)
    requires LivesOn(mem, avail, parent, s, mine, owned) && p.sz == parent.sz
    requires Alive(mem, avail, mem', avail', t, PagesFor(p.sz), p.frame) && ROOT in t && t[ROOT] == p.root
    requires CopyOf(mem, s, PagesFor(p.sz), mem', t)
    ensures LivesOn(mem', avail', p, t, mine, h) && Moved(mem, avail, {}, mem', avail', h)
  {
    hide TreeOk, Footprint, ImagesOf, PagesFor, CopyOf;
    var n := PagesFor(p.sz);
    ImagesCopied(mem, s, mem', t, n, n);
    h := BornLives(mem, avail, mem', avail', p, t, mine);
  }

  lemma ResizedImages(mem: Memory, avail: set<nat>, t: Tree, n: nat, mem': Memory, avail': set<nat>, t': Tree, n': nat)
    requires ProcSpace(mem, avail, t, n) && Resized(mem, avail, t, n, mem', avail', t', n')
    requires n < n' ==> AllZero(mem', t', n, n')
    ensures ImagesOf(mem', t', n') == Fitted(ImagesOf(mem, t, n), n')
  {
    hide TreeOk, Owned, Unmapped, Mapped, Footprint, ImagesOf, AllZero, SameBelow, Fitted;
    if n < n' {
      ImagesBelow(mem, t, mem', t', n, n);
      ImagesNew(mem', t', n, n');
    } else {
      ImagesBelow(mem, t, mem', t', n', n');
      ImagesPrefix(mem, t, n, n');
      FittedDown(ImagesOf(mem, t, n), n');
    }
  }

  lemma FittedDown(pages: seq<Image>, n: nat)
    requires n <= |pages|
    ensures Fitted(pages, n) == pages[..n]
  {}

  lemma FittedSame(mine: Private)
    requires |mine.pages| == PagesFor(mine.sz)
    ensures Private(mine.sz, Fitted(mine.pages, PagesFor(mine.sz))) == mine
  {}

  lemma ResizedLives(mem: Memory, avail: set<nat>, p: Proc, t: Tree, mine: Private, h: set<nat>,
                     mem': Memory, avail': set<nat>, t': Tree, sz: nat) returns (h': set<nat>)
    requires LivesOn(mem, avail, p, t, mine, h) && h !! avail
    requires Resized(mem, avail, t, PagesFor(p.sz), mem', avail', t', PagesFor(sz))
    requires PagesFor(p.sz) < PagesFor(sz) ==> AllZero(mem', t', PagesFor(p.sz), PagesFor(sz))
    ensures LivesOn(mem', avail', p.(sz := sz), t', Private(sz, Fitted(mine.pages, PagesFor(sz))), h')
    ensures Moved(mem, avail, h, mem', avail', h')
  {
    hide TreeOk, Owned, Unmapped, Mapped, ImagesOf, AllZero, SameBelow, Fitted, PagesFor, PagesOf;
    ResizedImages(mem, avail, t, PagesFor(p.sz), mem', avail', t', PagesFor(sz));
    FootprintTaken(mem', avail', t', PagesFor(sz));
    SameRoot(mem, avail, t, PagesFor(p.sz), mem', avail', t', PagesFor(sz));
    hide Footprint;
    assert p.frame in h && p.frame !in avail + Footprint(mem, t, PagesFor(p.sz));
    h' := Holds(mem', p.(sz := sz), t');
  }

  lemma StorePage(mem: Memory, avail: set<nat>, t: Tree, n: nat, page: nat)
    requires ProcSpace(mem, avail, t, n) && page < n
    ensures var q := Ppn(Entry(mem, t, page)); IsPage(mem, q) && q in PagesOf(mem, t, 0, n) && q !in avail && q !in t.Values
  {
    hide TreeOk, Entry, Ppn, Unmapped, Mapped;
    assert OwnsAt(mem, avail, t, page);
  }

  lemma StoreSpace(mem: Memory, avail: set<nat>, t: Tree, n: nat, page: nat, word: nat, x: nat)
    requires ProcSpace(mem, avail, t, n) && page < n && word < ENTRIES
    ensures var q := Ppn(Entry(mem, t, page));
      && IsPage(mem, q) && q in Footprint(mem, t, n) && q !in avail
      && var mem' := Put(mem, q, word, x);
      && ProcSpace(mem', avail, t, n) && SameEntries(mem, t, mem', t) && Footprint(mem', t, n) == Footprint(mem, t, n)
  {
    StorePage(mem, avail, t, n, page);
    var q := Ppn(Entry(mem, t, page));
    var mem' := Put(mem, q, word, x);
    assert mem'.Keys == mem.Keys && PoolOk(mem', avail) && Kept(mem, mem', t.Values) by {
      TreePages(mem, avail, t);
      hide TreeOk, Entry, Ppn, Owned, Unmapped, Mapped;
    }
    hide Put;
    OtherPages(mem, mem', t);
    hide TreeOk, Entry, Ppn, IsLeaf;
    PagesSame(mem, t, mem', t, 0, n);
    forall v: nat | v < n ensures OwnsAt(mem', avail, t, v) { assert OwnsAt(mem, avail, t, v); }
  }

  lemma {:induction false} StoreImages(mem: Memory, avail: set<nat>, t: Tree, n: nat, page: nat, word: nat, x: nat, k: nat)
    requires ProcSpace(mem, avail, t, n) && page < n && word < ENTRIES && k <= n
    requires IsPage(mem, Ppn(Entry(mem, t, page)))
    requires var mem' := Put(mem, Ppn(Entry(mem, t, page)), word, x); TreeOk(mem', t) && SameEntries(mem, t, mem', t)
    ensures var mem' := Put(mem, Ppn(Entry(mem, t, page)), word, x); var old_ := ImagesOf(mem, t, k);
      && (page < k ==> |old_[page].words| == ENTRIES)
      && ImagesOf(mem', t, k) == if page < k then old_[page := old_[page].(words := old_[page].words[word := x])] else old_
  {
    hide TreeOk, Entry, Ppn, IsLeaf, Unmapped, Mapped, NotForUser, PoolOk;
    if k > 0 {
      StoreImages(mem, avail, t, n, page, word, x, k - 1);
      assert k - 1 != page ==> Ppn(Entry(mem, t, k - 1)) != Ppn(Entry(mem, t, page));
    }
  }

  lemma SameNumbers(mem: Memory, avail: set<nat>, procs: map<nat, Proc>, trees: map<nat, Tree>, owner: map<nat, nat>,
                    w: map<nat, Private>)
    requires AllLive(mem, avail, procs, trees, owner, w)
    ensures procs.Keys == w.Keys
  {}

  lemma SpacePool(mem: Memory, avail: set<nat>, t: Tree, n: nat)
    requires ProcSpace(mem, avail, t, n)
    ensures PoolOk(mem, avail)
  {}

  lemma MineTaken(m0: Memory, a0: set<nat>, mem: Memory, avail: set<nat>, owner: map<nat, nat>, i: nat)
    requires Conserved(m0, a0, mem, avail, owner)
    ensures Mine(owner, i) !! avail && Mine(owner, i) <= mem.Keys
  {}

  lemma PagesUpTo(a: nat, b: nat)
    ensures b <= a ==> PagesFor(b) <= PagesFor(a)
  {
    if b <= a { PagesUp(b, a); }
  }

  /** A page of a process, where walk finds it. */
  lemma PageLives(mem: Memory, avail: set<nat>, p: Proc, t: Tree, mine: Private, h: set<nat>, page: nat)
    requires LivesOn(mem, avail, p, t, mine, h) && page < PagesFor(p.sz)
    ensures HasTree(mem, avail, t) && t[ROOT] == p.root && page < MAXVPN && Entry(mem, t, page) != 0
    ensures var e := Entry(mem, t, page);
      IsPage(mem, Ppn(e)) && page < |mine.pages| && mine.pages[page] == Image(FlagsOf(e), mem[Ppn(e)])
  {
    StoreSpace(mem, avail, t, PagesFor(p.sz), page, 0, 0);
    ImagesAt(mem, t, PagesFor(p.sz), page);
    hide TreeOk, Entry, ImagesOf;
    ZeroNotLeaf();
  }

  lemma StoreLives(mem: Memory, avail: set<nat>, p: Proc, t: Tree, mine: Private, h: set<nat>, page: nat, word: nat, x: nat)
    returns (mine': Private)
    requires LivesOn(mem, avail, p, t, mine, h) && page < PagesFor(p.sz) && word < ENTRIES && h !! avail
    ensures page < |mine.pages| && |mine.pages[page].words| == ENTRIES
    ensures var image := mine.pages[page]; mine' == mine.(pages := mine.pages[page := image.(words := image.words[word := x])])
    ensures IsPage(mem, Ppn(Entry(mem, t, page)))
    ensures LivesOn(Put(mem, Ppn(Entry(mem, t, page)), word, x), avail, p, t, mine', h)
    ensures Moved(mem, avail, h, Put(mem, Ppn(Entry(mem, t, page)), word, x), avail, h)
  {
    hide TreeOk, Entry, Ppn, ImagesOf, Owned, Unmapped, Mapped, Footprint, PagesFor, Put, Moved;
    var n := PagesFor(p.sz);
    StoreSpace(mem, avail, t, n, page, word, x);
    StoreImages(mem, avail, t, n, page, word, x, n);
    StoreMoves(mem, avail, h, Ppn(Entry(mem, t, page)), word, x);
    var image := mine.pages[page];
    mine' := mine.(pages := mine.pages[page := image.(words := image.words[word := x])]);
  }

  lemma StoreMoves(mem: Memory, avail: set<nat>, h: set<nat>, q: nat, word: nat, x: nat)
    requires PoolOk(mem, avail) && q in h && h !! avail && IsPage(mem, q) && word < ENTRIES
    ensures Moved(mem, avail, h, Put(mem, q, word, x), avail, h)
  {}

  lemma DyingLives(mem: Memory, avail: set<nat>, p: Proc, t: Tree, mine: Private, h: set<nat>)
    requires LivesOn(mem, avail, p, t, mine, h) && h !! avail && h <= mem.Keys
    ensures Alive(mem, avail + h, mem, avail, t, PagesFor(p.sz), p.frame)
  {
    hide TreeOk, Entry, ImagesOf, Owned, Unmapped, Mapped, Footprint;
  }

  lemma GaveBack(mem: Memory, avail: set<nat>, h: set<nat>, mem': Memory, avail': set<nat>)
    requires PoolOk(mem', avail') && mem'.Keys == mem.Keys && avail' == avail + h && Kept(mem, mem', mem.Keys - (avail + h))
    ensures Moved(mem, avail, h, mem', avail', {})
  {}

  // ---- what user code and the kernel's copies can reach ----

  lemma FlagBits(e: nat)
    ensures IsUser(e) <==> FlagsOf(e) / 16 % 2 == 1
  {
    var q, r := e / 1024, e % 1024;
    assert e / 16 == 2 * (32 * q) + r / 16;
    ModTwo(32 * q, r / 16);
  }

  /** User code reaches exactly its own memory: neither a page behind it, nor the trapframe, nor the
      trampoline. */
  lemma LivesReach(mem: Memory, avail: set<nat>, p: Proc, t: Tree, mine: Private, h: set<nat>, v: nat)
    requires LivesOn(mem, avail, p, t, mine, h) && UserPages(mine.pages)
    ensures TreeOk(mem, t) && (Reachable(mem, t, v) <==> v < PagesFor(p.sz))
  {
    hide TreeOk, Entry, ImagesOf, PagesFor, IsUser, Ppn, Footprint;
    var n := PagesFor(p.sz);
    if v < n {
      ImagesAt(mem, t, n, v);
      FlagBits(Entry(mem, t, v));
    } else {
      NothingThere();
    }
  }

  lemma NothingThere()
    ensures !IsValid(0)
  {}

  lemma LivesUser(mem: Memory, avail: set<nat>, p: Proc, t: Tree, mine: Private, h: set<nat>)
    requires LivesOn(mem, avail, p, t, mine, h) && UserPages(mine.pages) && 0 !in mem
    ensures UserSpace(mem, avail, t, PagesFor(p.sz))
  {
    forall v: nat | TreeOk(mem, t) && Reachable(mem, t, v) ensures v < PagesFor(p.sz) {
      LivesReach(mem, avail, p, t, mine, h, v);
    }
    hide TreeOk, Entry, ImagesOf, PagesFor, Reachable, Footprint;
  }

  /** A range lies in the memory exactly when user code can reach all of it. */
  lemma FitExact(mem: Memory, avail: set<nat>, p: Proc, t: Tree, mine: Private, h: set<nat>, va: nat, len: nat, done: nat)
    requires LivesOn(mem, avail, p, t, mine, h) && UserPages(mine.pages) && TreeOk(mem, t) && done <= len
    requires AllReachable(mem, t, va, done) && (done < len ==> !Reachable(mem, t, PageOf(va + done)))
    ensures done == Fit(mine.pages, va, len)
  {
    hide TreeOk, Reachable, ImagesOf, PagesFor, ProcSpace, Footprint;
    if done > 0 { LivesReach(mem, avail, p, t, mine, h, PageOf(va + done - 1)); }
    if done < len { LivesReach(mem, avail, p, t, mine, h, PageOf(va + done)); }
  }

  lemma {:induction false} GivenImages(mem: Memory, mem': Memory, t: Tree, n: nat, va: nat, data: seq<nat>, k: nat)
    requires TreeOk(mem, t) && TreeOk(mem', t) && SameEntries(mem, t, mem', t) && PagesPatched(mem, mem', t, n, va, data) && k <= n
    ensures ImagesOf(mem', t, k) == Poked(ImagesOf(mem, t, k), va, data)
  {
    hide TreeOk, Entry, Ppn, Patched;
    if k > 0 {
      GivenImages(mem, mem', t, n, va, data, k - 1);
      assert PagePatched(mem, mem', Ppn(Entry(mem, t, k - 1)), k - 1, va, data);
      assert Poked(ImagesOf(mem, t, k), va, data) == Poked(ImagesOf(mem, t, k - 1), va, data) + [ImageAt(mem', t, k - 1)];
    }
  }

  lemma GivenSpace(mem: Memory, avail: set<nat>, t: Tree, n: nat, mem': Memory)
    requires ProcSpace(mem, avail, t, n) && OnlyBytes(mem, avail, t, n, mem')
    ensures ProcSpace(mem', avail, t, n) && Footprint(mem', t, n) == Footprint(mem, t, n)
  {
    hide TreeOk, Entry, Ppn, IsLeaf, IsUser, Reachable;
    PagesSame(mem, t, mem', t, 0, n);
  }

  /** A process after bytes were put into its memory. */
  lemma GivenLives(mem: Memory, avail: set<nat>, p: Proc, t: Tree, mine: Private, h: set<nat>, mem': Memory, va: nat, data: seq<nat>)
    returns (mine': Private)
    requires LivesOn(mem, avail, p, t, mine, h) && h !! avail && OnlyBytes(mem, avail, t, PagesFor(p.sz), mem')
    requires TreeOk(mem, t) && PagesPatched(mem, mem', t, PagesFor(p.sz), va, data)
    ensures mine' == mine.(pages := Poked(mine.pages, va, data))
    ensures LivesOn(mem', avail, p, t, mine', h) && Moved(mem, avail, h, mem', avail, h)
  {
    hide TreeOk, Entry, Ppn, ImagesOf, Owned, Unmapped, Mapped, NotForUser, PagesFor, Reachable, PagesPatched, Poked, PagesOf;
    var n := PagesFor(p.sz);
    GivenSpace(mem, avail, t, n, mem');
    GivenImages(mem, mem', t, n, va, data, n);
    mine' := mine.(pages := Poked(mine.pages, va, data));
  }

  /** What copyin has read is the process's memory. */
  lemma TakenBytes(mem: Memory, avail: set<nat>, p: Proc, t: Tree, mine: Private, h: set<nat>, va: nat, dst: seq<nat>)
    requires LivesOn(mem, avail, p, t, mine, h) && TreeOk(mem, t) && va + |dst| <= PagesFor(p.sz) * PGSIZE
    requires forall i :: 0 <= i < |dst| ==> dst[i] == UserByte(mem, t, va + i)
    ensures dst == Peeked(mine.pages, va, |dst|)
  {
    hide TreeOk, Entry, Ppn, ImagesOf, PageByte, UserByte, PagesFor, ProcSpace, Footprint;
    forall i | 0 <= i < |dst| ensures dst[i] == MemByte(mine.pages, va + i) {
      TakenByte(mem, avail, p, t, mine, h, va + i);
    }
  }

  lemma TakenByte(mem: Memory, avail: set<nat>, p: Proc, t: Tree, mine: Private, h: set<nat>, a: nat)
    requires LivesOn(mem, avail, p, t, mine, h) && TreeOk(mem, t) && a < PagesFor(p.sz) * PGSIZE
    ensures UserByte(mem, t, a) == MemByte(mine.pages, a)
  {
    var v := PageOf(a);
    assert v < PagesFor(p.sz);
    PageLives(mem, avail, p, t, mine, h, v);
    hide TreeOk, Entry, Ppn, ImagesOf, PageByte, PagesFor, ProcSpace, Footprint;
  }

  // ---- runs ----

  class Procs {
    const m: Machine
    const trampoline: nat
    var procs: map<nat, Proc>
    var born: nat
    ghost var trees: map<nat, Tree>
    ghost var owner: map<nat, nat>
    ghost const m0: Memory
    ghost const a0: set<nat>

    ghost predicate Valid(w: World)
      reads this, m
    {
      && Conserved(m0, a0, m.mem, m.avail, owner) && AllLive(m.mem, m.avail, procs, trees, owner, w.procs)
      && born == w.born && forall i :: i in procs ==> i < born
    }

    ghost function Now(): Moment
      reads this, m
    {
      Moment(m.mem, m.avail, procs, trees, owner)
    }

    constructor (m: Machine, trampoline: nat)
      requires PoolOk(m.mem, m.avail)
      ensures Valid(START) && this.m == m && m0 == m.mem && a0 == m.avail
    {
      this.m, this.trampoline := m, trampoline;
      procs, born, trees, owner := map[], 0, map[], map[];
      m0, a0 := m.mem, m.avail;
    }

    /** A process with what it holds now. */
    ghost method Settle(w: World, i: nat, mem: Memory, avail: set<nat>, before: map<nat, Proc>, p: Proc, t: Tree, mine: Private,
                        h: set<nat>)
      requires Conserved(m0, a0, mem, avail, owner) && AllLive(mem, avail, before, trees, owner, w.procs)
      requires procs == before[i := p] && LivesOn(m.mem, m.avail, p, t, mine, h)
      requires Moved(mem, avail, Mine(owner, i), m.mem, m.avail, h)
      requires forall j :: j in procs ==> j < born
      modifies this`trees, this`owner
      ensures Valid(World(w.procs[i := mine], born))
    {
      hide Free, LivesOn, Moved, Reassigned, Mine, Conserved, AllLive;
      NoneFree(m0, a0, mem, avail, owner);
      StepConserved(m0, a0, mem, avail, owner, i, m.mem, m.avail, h);
      StepUpdate(mem, avail, before, trees, owner, w.procs, i, m.mem, m.avail, p, t, mine, h);
      trees, owner := trees[i := t], Reassigned(owner, i, h);
    }

    /** Nobody has taken or given a page. */
    ghost method Stay(w: World, mem: Memory)
      requires Conserved(m0, a0, mem, m.avail, owner) && AllLive(mem, m.avail, procs, trees, owner, w.procs)
      requires born == w.born && forall j :: j in procs ==> j < born
      requires PoolOk(m.mem, m.avail) && m.mem.Keys == mem.Keys && Kept(mem, m.mem, mem.Keys - m.avail)
      modifies this`owner
      ensures Valid(w)
    {
      hide Free, LivesOn, Reassigned, Mine, Conserved;
      NothingOwned(mem, m.avail, procs, trees, owner, w.procs, born);
      NoneFree(m0, a0, mem, m.avail, owner);
      StepConserved(m0, a0, mem, m.avail, owner, born, m.mem, m.avail, {});
      StepRemove(mem, m.avail, procs, trees, owner, w.procs, born, m.mem, m.avail);
      assert procs - {born} == procs && trees - {born} == trees && w.procs - {born} == w.procs;
      owner := Reassigned(owner, born, {});
    }

    /** allocproc */
    method DoBirth(ghost w: World) returns (r: Reply)
      requires Valid(w)
      modifies this, m
      ensures Valid(Next(w, Birth, r)) && ReplyOk(w, Birth, r, Free(old(m.avail)))
    {
      hide Free, LivesOn, Moved, Mine, Alive, Kept, AllLive;
      ghost var mem, avail, before := m.mem, m.avail, procs;
      var out;
      ghost var t;
      out, t := AllocSpace(m, trampoline);
      if out.None? {
        Stay(w, mem);
        return Failed;
      }
      NoPages();
      var p := Proc(out.value.1, 0, out.value.0);
      ghost var h := NewLives(mem, avail, m.mem, m.avail, p, t);
      NothingOwned(mem, avail, before, trees, owner, w.procs, born);
      procs, born := procs[born := p], born + 1;
      Settle(w, born - 1, mem, avail, before, p, t, Private(0, []), h);
      r := Ok;
    }

    method DoFork(ghost w: World, i: nat) returns (r: Reply)
      requires Valid(w)
      modifies this, m
      ensures Valid(Next(w, Fork(i), r)) && ReplyOk(w, Fork(i), r, Free(old(m.avail)))
    {
      hide Free, LivesOn, Moved, Mine, Alive, Kept, AllLive, ProcSpace, PagesFor, CopyOf, SameEntries;
      if i !in procs { SameNumbers(m.mem, m.avail, procs, trees, owner, w.procs); return Refused; }
      LiveAt(m.mem, m.avail, procs, trees, owner, w.procs, i);
      ghost var mem, avail, before := m.mem, m.avail, procs;
      var out;
      ghost var t;
      out, t := ForkSpace(m, procs[i].root, procs[i].sz, trampoline, trees[i]);
      if out.None? {
        SpacePool(m.mem, m.avail, trees[i], PagesFor(procs[i].sz));
        Stay(w, mem);
        return Failed;
      }
      var p := Proc(out.value.1, procs[i].sz, out.value.0);
      ghost var h := ForkLives(mem, avail, procs[i], trees[i], w.procs[i], Mine(owner, i), m.mem, m.avail, p, t);
      NothingOwned(mem, avail, before, trees, owner, w.procs, born);
      procs, born := procs[born := p], born + 1;
      Settle(w, born - 1, mem, avail, before, p, t, w.procs[i], h);
      r := Ok;
    }

    /** growproc of a process that there is. */
    method Resize(ghost w: World, i: nat, n: int) returns (out: Outcome, sz: nat)
      requires Valid(w) && i in procs && -0x8000_0000 <= n < 0x8000_0000
      modifies this, m
      ensures i in w.procs && |w.procs[i].pages| == PagesFor(w.procs[i].sz)
      ensures out == Done ==> sz == Sized(w.procs[i].sz, n) && (n > 0 ==> PagesFor(w.procs[i].sz + n) <= TRAPFRAME)
      ensures out == NoMemory ==> sz == w.procs[i].sz && n > 0
      ensures out == NoMemory ==> Free(old(m.avail)) < 3 * (PagesFor(w.procs[i].sz + n) - PagesFor(w.procs[i].sz))
      ensures out == Panic ==> n > 0 && PagesFor(w.procs[i].sz + n) > TRAPFRAME
      ensures out != Panic ==> Valid(World(w.procs[i := Private(sz, Fitted(w.procs[i].pages, PagesFor(sz)))], w.born))
    {
      hide Free, LivesOn, Moved, Mine, Kept, AllLive, ProcSpace, PagesFor, SameEntries, Resized, Fitted, AllZero;
      LiveAt(m.mem, m.avail, procs, trees, owner, w.procs, i);
      ghost var mem, avail, before := m.mem, m.avail, procs;
      var p := procs[i];
      ghost var t;
      out, sz, t := GrowProc(m, p.root, p.sz, n, trees[i]);
      if out == Panic { return; }
      MineTaken(m0, a0, mem, avail, owner, i);
      PagesUpTo(p.sz, sz);
      ghost var h := ResizedLives(mem, avail, p, trees[i], w.procs[i], Mine(owner, i), m.mem, m.avail, t, sz);
      procs := procs[i := p.(sz := sz)];
      Settle(w, i, mem, avail, before, p.(sz := sz), t, Private(sz, Fitted(w.procs[i].pages, PagesFor(sz))), h);
    }

    /** growproc */
    method DoGrow(ghost w: World, i: nat, n: int) returns (r: Reply)
      requires Valid(w) && -0x8000_0000 <= n < 0x8000_0000
      modifies this, m
      ensures ReplyOk(w, Grow(i, n), r, Free(old(m.avail))) && (r != Panicked ==> Valid(Next(w, Grow(i, n), r)))
    {
      hide Free, AllLive, Conserved, PagesFor, Fitted;
      SameNumbers(m.mem, m.avail, procs, trees, owner, w.procs);
      if i !in procs { return Refused; }
      var out, sz := Resize(w, i, n);
      if out == Panic { return Panicked; }
      if out == Done { return Ok; }
      FittedSame(w.procs[i]);
      assert w.procs[i := w.procs[i]] == w.procs;
      r := Failed;
    }

    /** The user's store, through the page table. */
    method DoStore(ghost w: World, i: nat, page: nat, word: nat, x: nat) returns (r: Reply)
      requires Valid(w)
      modifies this, m
      ensures Valid(Next(w, Store(i, page, word, x), r)) && ReplyOk(w, Store(i, page, word, x), r, Free(old(m.avail)))
    {
      hide Free, Missing, LivesOn, Moved, Mine, Kept, AllLive, ProcSpace, PagesFor, SameEntries, Entry, TreeOk, Put;
      if i !in procs { SameNumbers(m.mem, m.avail, procs, trees, owner, w.procs); return Refused; }
      LiveAt(m.mem, m.avail, procs, trees, owner, w.procs, i);
      if page >= PagesFor(procs[i].sz) { return Refused; }
      PageLives(m.mem, m.avail, procs[i], trees[i], w.procs[i], Mine(owner, i), page);
      ghost var t;
      var at;
      at, t := m.Walk(procs[i].root, page, false, trees[i]);
      var e := m.mem[at.value.0][at.value.1];
      if FlagsOf(e) / 4 % 2 != 1 || word >= ENTRIES { return Refused; }
      ghost var mem, before := m.mem, procs;
      MineTaken(m0, a0, mem, m.avail, owner, i);
      ghost var mine := StoreLives(mem, m.avail, procs[i], trees[i], w.procs[i], Mine(owner, i), page, word, x);
      m.mem := Put(m.mem, Ppn(e), word, x);
      assert procs[i := procs[i]] == procs;
      Settle(w, i, mem, m.avail, before, procs[i], trees[i], mine, Mine(owner, i));
      r := Ok;
    }

    /** copyout into the memory of a process. */
    method DoGive(ghost w: World, i: nat, va: nat, bytes: seq<nat>) returns (r: Reply)
      requires Valid(w) && AllUser(w.procs) && 0 !in m.mem && Bytes(bytes)
      modifies this, m
      ensures Valid(Next(w, Give(i, va, bytes), r)) && ReplyOk(w, Give(i, va, bytes), r, Free(old(m.avail)))
    {
      hide Free, LivesOn, Moved, Mine, Kept, AllLive, ProcSpace, PagesFor, SameEntries, Entry, TreeOk, Fit, Poked, UserPages,
        OnlyBytes, Written, PagesPatched, UserSpace, Reachable, AllReachable;
      if i !in procs { SameNumbers(m.mem, m.avail, procs, trees, owner, w.procs); return Refused; }
      LiveAt(m.mem, m.avail, procs, trees, owner, w.procs, i);
      LivesUser(m.mem, m.avail, procs[i], trees[i], w.procs[i], Mine(owner, i));
      ghost var mem, before, t, n := m.mem, procs, trees[i], PagesFor(procs[i].sz);
      SpaceTree(m.mem, m.avail, t, n);
      MineTaken(m0, a0, mem, m.avail, owner, i);
      ghost var done;
      var ok;
      ok, done := CopyOut(m, procs[i].root, va, bytes, n, t);
      BackAgain(mem, m.mem, m.avail, t, n, va, done);
      FitExact(mem, m.avail, procs[i], t, w.procs[i], Mine(owner, i), va, |bytes|, done);
      ghost var mine := GivenLives(mem, m.avail, procs[i], t, w.procs[i], Mine(owner, i), m.mem, va, bytes[..done]);
      assert procs[i := procs[i]] == procs;
      Settle(w, i, mem, m.avail, before, procs[i], t, mine, Mine(owner, i));
      r := if ok then Ok else Failed;
    }

    /** copyin from the memory of a process. */
    method DoTake(ghost w: World, i: nat, va: nat, len: nat) returns (r: Reply)
      requires Valid(w) && AllUser(w.procs) && 0 !in m.mem
      modifies m
      ensures Valid(Next(w, Take(i, va, len), r)) && ReplyOk(w, Take(i, va, len), r, Free(old(m.avail)))
    {
      hide Free, LivesOn, Moved, Mine, Kept, AllLive, ProcSpace, PagesFor, Entry, TreeOk, Fit, Peeked, UserPages,
        UserSpace, Reachable, AllReachable, Conserved;
      if i !in procs { SameNumbers(m.mem, m.avail, procs, trees, owner, w.procs); return Refused; }
      LiveAt(m.mem, m.avail, procs, trees, owner, w.procs, i);
      LivesUser(m.mem, m.avail, procs[i], trees[i], w.procs[i], Mine(owner, i));
      ghost var t, n := trees[i], PagesFor(procs[i].sz);
      SpaceTree(m.mem, m.avail, t, n);
      var ok, dst := CopyIn(m, procs[i].root, va, len, n, t);
      FitExact(m.mem, m.avail, procs[i], t, w.procs[i], Mine(owner, i), va, len, |dst|);
      if !ok { return Failed; }
      if len > 0 {
        FitsAll(w.procs[i].pages, va, len);
        TakenBytes(m.mem, m.avail, procs[i], t, w.procs[i], Mine(owner, i), va, dst);
      } else {
        NoBytes(w.procs[i].pages, va, dst);
      }
      r := Got(dst);
    }

    /** freeproc */
    method DoExit(ghost w: World, i: nat) returns (r: Reply)
      requires Valid(w)
      modifies this, m
      ensures Valid(Next(w, Exit(i), r)) && ReplyOk(w, Exit(i), r, Free(old(m.avail)))
    {
      hide Free, LivesOn, Moved, Mine, Kept, AllLive, ProcSpace, PagesFor, Alive, Reassigned;
      if i !in procs { SameNumbers(m.mem, m.avail, procs, trees, owner, w.procs); return Refused; }
      LiveAt(m.mem, m.avail, procs, trees, owner, w.procs, i);
      ghost var mem, avail, h := m.mem, m.avail, Mine(owner, i);
      MineTaken(m0, a0, mem, avail, owner, i);
      DyingLives(mem, avail, procs[i], trees[i], w.procs[i], h);
      var p := procs[i];
      FreeSpace(m, p.frame, p.root, p.sz, mem, avail + h, trees[i]);
      GaveBack(mem, avail, h, m.mem, m.avail);
      NoneFree(m0, a0, mem, avail, owner);
      StepConserved(m0, a0, mem, avail, owner, i, m.mem, m.avail, {});
      StepRemove(mem, avail, procs, trees, owner, w.procs, i, m.mem, m.avail);
      procs := procs - {i};
      trees, owner := trees - {i}, Reassigned(owner, i, {});
      r := Ok;
    }

    method Step(ghost w: World, a: Act) returns (r: Reply)
      requires Valid(w) && AllUser(w.procs) && 0 !in m.mem && Sensible(a)
      modifies this, m
      ensures ReplyOk(w, a, r, Free(old(m.avail))) && (r != Panicked ==> Valid(Next(w, a, r)))
    {
      hide Valid, Next, ReplyOk, AllUser;
      match a
      case Birth => r := DoBirth(w);
      case Fork(i) => r := DoFork(w, i);
      case Grow(i, n) => r := DoGrow(w, i, n);
      case Store(i, page, word, x) => r := DoStore(w, i, page, word, x);
      case Give(i, va, bytes) => r := DoGive(w, i, va, bytes);
      case Take(i, va, len) => r := DoTake(w, i, va, len);
      case Exit(i) => r := DoExit(w, i);
    }
  }

  lemma FitsAll(pages: seq<Image>, va: nat, len: nat)
    requires Fit(pages, va, len) == len && len > 0
    ensures va + len <= |pages| * PGSIZE
  {}

  lemma NoBytes(pages: seq<Image>, va: nat, dst: seq<nat>)
    requires dst == []
    ensures dst == Peeked(pages, va, 0)
  {}

  /** The pages of the user are as reachable after the copy as before. */
  lemma BackAgain(mem: Memory, mem': Memory, avail: set<nat>, t: Tree, n: nat, va: nat, done: nat)
    requires OnlyBytes(mem, avail, t, n, mem')
    ensures TreeOk(mem, t) && TreeOk(mem', t) && (AllReachable(mem', t, va, done) ==> AllReachable(mem, t, va, done))
    ensures Reachable(mem, t, PageOf(va + done)) <==> Reachable(mem', t, PageOf(va + done))
  {
    SpaceTree(mem, avail, t, n);
    SpaceTree(mem', avail, t, n);
    hide TreeOk, UserSpace, Reachable;
    SameReach(mem', mem, t, va, done);
    SameReachAt(mem, mem', t, PageOf(va + done));
  }

  lemma NewLives(mem: Memory, avail: set<nat>, mem': Memory, avail': set<nat>, p: Proc, t: Tree) returns (h: set<nat>)
    requires PoolOk(mem, avail) && Alive(mem, avail, mem', avail', t, 0, p.frame) && ROOT in t && t[ROOT] == p.root && p.sz == 0
    ensures LivesOn(mem', avail', p, t, Private(0, []), h) && Moved(mem, avail, {}, mem', avail', h)
  {
    NoPages();
    assert ImagesOf(mem', t, 0) == [];
    h := BornLives(mem, avail, mem', avail', p, t, Private(0, []));
  }

  /** The machine between two acts. */
  datatype Moment = Moment(mem: Memory, avail: set<nat>, procs: map<nat, Proc>, trees: map<nat, Tree>, owner: map<nat, nat>)

  ghost predicate MomentOk(m0: Memory, a0: set<nat>, at: Moment, w: World) {
    Conserved(m0, a0, at.mem, at.avail, at.owner) && AllLive(at.mem, at.avail, at.procs, at.trees, at.owner, w.procs)
  }

  /** One moment after the other, each reply explained by the moment before it. */
  ghost predicate History(m0: Memory, a0: set<nat>, acts: seq<Act>, replies: seq<Reply>, moments: seq<Moment>)
    requires |replies| <= |acts|
  {
    && |replies| <= |moments| <= |replies| + 1
    && (forall k :: 0 <= k < |moments| ==> MomentOk(m0, a0, moments[k], After(acts, replies[..k])))
    && (forall k :: 0 <= k < |replies| ==> ReplyOk(After(acts, replies[..k]), acts[k], replies[k], Free(moments[k].avail)))
  }

  lemma HistoryReply(m0: Memory, a0: set<nat>, acts: seq<Act>, replies: seq<Reply>, moments: seq<Moment>, r: Reply)
    requires |replies| < |acts| && History(m0, a0, acts, replies, moments) && |moments| == |replies| + 1
    requires ReplyOk(After(acts, replies), acts[|replies|], r, Free(moments[|replies|].avail))
    ensures History(m0, a0, acts, replies + [r], moments)
  {
    hide MomentOk, ReplyOk, After;
    var more := replies + [r];
    forall k | 0 <= k <= |replies| ensures more[..k] == replies[..k] {}
    assert replies[..|replies|] == replies;
  }

  lemma HistoryMoment(m0: Memory, a0: set<nat>, acts: seq<Act>, replies: seq<Reply>, moments: seq<Moment>, at: Moment)
    requires |replies| <= |acts| && History(m0, a0, acts, replies, moments) && |moments| == |replies|
    requires MomentOk(m0, a0, at, After(acts, replies))
    ensures History(m0, a0, acts, replies, moments + [at])
  {
    hide MomentOk, ReplyOk, After;
    assert replies[..|replies|] == replies;
  }

  /** Whatever processes are made and however they fork, grow, shrink, store and exit, each of them
      has at every moment exactly the memory that it would have on its own, a child starting with
      its parent's. The pages that the processes own and those in the pool are together the pages
      that were in the pool at the start, each of them once, and no other page has changed. */
  method Run(m: Machine, trampoline: nat, acts: seq<Act>)
    returns (replies: seq<Reply>, procs: map<nat, Proc>, ghost moments: seq<Moment>)
    requires PoolOk(m.mem, m.avail) && 0 !in m.mem && forall k :: 0 <= k < |acts| ==> Sensible(acts[k])
    modifies m
    ensures |replies| <= |acts| && History(old(m.mem), old(m.avail), acts, replies, moments)
    ensures Panicked in replies || (|replies| == |acts| && |moments| == |acts| + 1)
    ensures Panicked !in replies ==>
      var at := moments[|acts|]; at.mem == m.mem && at.avail == m.avail && at.procs == procs
  {
    hide ReplyOk, Next, History, Conserved, AllLive;
    var s := new Procs(m, trampoline);
    replies, moments := [], [s.Now()];
    Nothing(s.m0, s.a0, acts, s.Now());
    for k := 0 to |acts|
      invariant |replies| == k && |moments| == k + 1 && Panicked !in replies && moments[k] == s.Now()
      invariant History(s.m0, s.a0, acts, replies, moments) && s.Valid(After(acts, replies))
      invariant s.m == m && s.m0 == old(m.mem) && s.a0 == old(m.avail) && fresh(s) && 0 !in m.mem
    {
      AfterUser(acts, replies);
      var r := s.Step(After(acts, replies), acts[k]);
      HistoryReply(s.m0, s.a0, acts, replies, moments, r);
      AfterNext(acts, replies, r);
      replies := replies + [r];
      if r == Panicked {
        procs := s.procs;
        return;
      }
      StartKeys(s.m0, s.a0, s.Now(), After(acts, replies));
      HistoryMoment(s.m0, s.a0, acts, replies, moments, s.Now());
      moments := moments + [s.Now()];
    }
    procs := s.procs;
  }

  lemma StartKeys(m0: Memory, a0: set<nat>, at: Moment, w: World)
    requires MomentOk(m0, a0, at, w)
    ensures at.mem.Keys == m0.Keys
  {}

  lemma Nothing(m0: Memory, a0: set<nat>, acts: seq<Act>, at: Moment)
    requires MomentOk(m0, a0, at, START)
    ensures History(m0, a0, acts, [], [at]) && After(acts, []) == START
  {
    hide MomentOk;
  }

  /** At every moment of every run, user code of a process reaches exactly the pages of its size, so
      the kernel's copies of a range succeed exactly when it ends there or before. */
  lemma UserReach(m0: Memory, a0: set<nat>, acts: seq<Act>, replies: seq<Reply>, moments: seq<Moment>, k: nat, i: nat, v: nat,
                  va: nat, len: nat)
    requires |replies| <= |acts| && History(m0, a0, acts, replies, moments) && k < |moments| && i in moments[k].procs
    ensures i in moments[k].trees && TreeOk(moments[k].mem, moments[k].trees[i])
    ensures Reachable(moments[k].mem, moments[k].trees[i], v) <==> v < PagesFor(moments[k].procs[i].sz)
    ensures len > 0 ==>
      (AllReachable(moments[k].mem, moments[k].trees[i], va, len) <==> va + len <= PagesFor(moments[k].procs[i].sz) * PGSIZE)
  {
    hide PagesFor, Reachable, TreeOk, After, ReplyOk, Conserved, LivesOn, UserPages;
    var at, w := moments[k], After(acts, replies[..k]);
    assert MomentOk(m0, a0, at, w);
    AfterUser(acts, replies[..k]);
    var p, t, mine, h := at.procs[i], at.trees[i], w.procs[i], Mine(at.owner, i);
    assert LivesOn(at.mem, at.avail, p, t, mine, h);
    LivesReach(at.mem, at.avail, p, t, mine, h, v);
    forall a: nat | va <= a < va + len ensures Reachable(at.mem, t, PageOf(a)) <==> a < PagesFor(p.sz) * PGSIZE {
      LivesReach(at.mem, at.avail, p, t, mine, h, PageOf(a));
      BelowSize(a, PagesFor(p.sz));
    }
    if len > 0 && AllReachable(at.mem, t, va, len) { assert Reachable(at.mem, t, PageOf(va + len - 1)); }
  }

  lemma BelowSize(a: nat, n: nat)
    ensures PageOf(a) < n <==> a < n * PGSIZE
  {}
}
