/** Runs of the disk driver and its device (kernel/hardware/virtio_disk.c), with descriptors, rings
    and the interrupt handler: every run is the run of the machine in VirtioCalls. */
module VirtioRuns {
  import opened Options
  import opened VirtioRings
  import opened VirtioDisk
  import opened VirtioCalls

  // ---- the books of the driver against the machine ----

  /** The header of a request. */
  function OpOf(want: Want): Op {
    Op(want.write, SectorOf(want.block))
  }

  /** A request is as far as the machine says. */
  ghost predicate Matches(r: Req, fetched: nat, seen: nat, s: State) {
    && r.b in s.jobs && r.op == OpOf(s.jobs[r.b].want) && r.ticket == s.jobs[r.b].ticket
    && match r.stage
       case Posted => fetched <= r.at < fetched + |s.posted| && s.posted[r.at - fetched] == r.b
       case Taken => r.b in s.taken
       case Finished => seen <= r.at < seen + |s.finished| && s.finished[r.at - seen] == r.b
       case Acked => r.b in s.acked
  }

  ghost predicate AllMatch(reqs: Reqs, fetched: nat, seen: nat, s: State) {
    forall h :: h in reqs ==> Matches(reqs[h], fetched, seen, s)
  }

  ghost predicate Counted(l: Ledger, s: State) {
    && l.headOf.Keys == s.jobs.Keys && |l.reqs| == |s.jobs| && l.issued == |s.asks|
    && l.fetched + |s.posted| == l.posted && l.seen + |s.finished| == l.finished
  }

  ghost predicate Sim(l: Ledger, s: State) {
    Counted(l, s) && AllMatch(l.reqs, l.fetched, l.seen, s)
  }

  lemma OneMore<V>(m: map<nat, V>, k: nat, v: V)
    requires k !in m
    ensures |m[k := v]| == |m| + 1 && m[k := v].Keys == m.Keys + {k}
  {
    assert m[k := v].Keys == m.Keys + {k};
  }

  lemma OneLess<V>(m: map<nat, V>, k: nat)
    requires k in m
    ensures |m - {k}| == |m| - 1 && (m - {k}).Keys == m.Keys - {k}
  {
    assert m.Keys == (m - {k}).Keys + {k};
  }

  lemma SameKeys<V>(m: map<nat, V>, k: nat, v: V)
    requires k in m
    ensures |m[k := v]| == |m| && m[k := v].Keys == m.Keys
  {
    assert m[k := v].Keys == m.Keys;
  }

  lemma SimOpened(l: Ledger, s: State, h: nat, r: Req, want: Want, content: Data)
    requires Sim(l, s) && h !in l.reqs && r.b !in l.headOf && r.stage == Posted && r.at == l.posted && r.ticket == l.issued
    requires 3 * |l.reqs| + 3 <= NUM && r.op == OpOf(want)
    ensures Sim(Opened(l, h, r), NextRequest(s, r.b, want, content))
  {
    hide WithParts, AllMatch, Matches, OpOf;
    OpenedMatch(l.reqs, l.fetched, l.seen, s, h, r, want, content);
    OpenedFields(s, r.b, want, content);
    hide NextRequest;
    OneMore(l.reqs, h, r);
  }

  lemma OpenedFields(s: State, b: nat, want: Want, content: Data)
    requires b !in s.jobs && 3 * |s.jobs| + 3 <= NUM
    ensures var t := NextRequest(s, b, want, content);
      && t.jobs.Keys == s.jobs.Keys + {b} && |t.jobs| == |s.jobs| + 1 && |t.asks| == |s.asks| + 1
      && |t.posted| == |s.posted| + 1 && t.finished == s.finished
  {
    OneMore(s.jobs, b, NextRequest(s, b, want, content).jobs[b]);
  }

  lemma OpenedMatch(reqs: Reqs, fetched: nat, seen: nat, s: State, h: nat, r: Req, want: Want, content: Data)
    requires AllMatch(reqs, fetched, seen, s) && r.b !in s.jobs && r.stage == Posted && r.at == fetched + |s.posted|
    requires r.ticket == |s.asks| && 3 * |s.jobs| + 3 <= NUM && r.op == OpOf(want)
    ensures AllMatch(reqs[h := r], fetched, seen, NextRequest(s, r.b, want, content))
  {
    var t := NextRequest(s, r.b, want, content);
    forall g | g in reqs ensures Matches(reqs[g], fetched, seen, t) {
      assert Matches(reqs[g], fetched, seen, s);
    }
  }

  lemma SimTaken(l: Ledger, s: State, h: nat)
    requires Sim(l, s) && h in l.reqs && l.reqs[h].stage == Posted && l.reqs[h].at == l.fetched
    requires forall g :: g in l.reqs && g != h && l.reqs[g].stage == Posted ==> l.reqs[g].at != l.fetched
    ensures s.posted != [] && s.posted[0] == l.reqs[h].b && Sim(Moved(l, h, Taken), NextTaken(s))
  {
    MovedFields(l, h, Taken);
    hide Moved;
    var m, t := Moved(l, h, Taken), NextTaken(s);
    assert Matches(l.reqs[h], l.fetched, l.seen, s);
    SameKeys(l.reqs, h, m.reqs[h]);
    forall g | g in m.reqs ensures Matches(m.reqs[g], m.fetched, m.seen, t) {
      assert Matches(l.reqs[g], l.fetched, l.seen, s);
    }
  }

  lemma SimFinished(l: Ledger, s: State, h: nat)
    requires Sim(l, s) && h in l.reqs && l.reqs[h].stage == Taken && l.reqs[h].b in s.data
    requires forall g :: g in l.reqs && g != h ==> l.reqs[g].b != l.reqs[h].b
    ensures Sim(Moved(l, h, Finished), NextFinished(s, l.reqs[h].b))
  {
    MovedFields(l, h, Finished);
    hide Moved, AllMatch, Matches;
    var m, b := Moved(l, h, Finished), l.reqs[h].b;
    FinishedMatch(l.reqs, l.fetched, l.seen, s, h, m.reqs[h]);
    FinishedFields(s, b);
    hide NextFinished;
    SameKeys(l.reqs, h, m.reqs[h]);
  }

  lemma FinishedFields(s: State, b: nat)
    requires b in s.taken && b in s.jobs && b in s.data
    ensures var t := NextFinished(s, b);
      && t.jobs.Keys == s.jobs.Keys && |t.jobs| == |s.jobs| && t.asks == s.asks && t.posted == s.posted
      && t.finished == s.finished + [b]
  {
    hide BlockAt, Home;
    SameKeys(s.jobs, b, NextFinished(s, b).jobs[b]);
  }

  lemma FinishedMatch(reqs: Reqs, fetched: nat, seen: nat, s: State, h: nat, r: Req)
    requires AllMatch(reqs, fetched, seen, s) && h in reqs && reqs[h].stage == Taken && reqs[h].b in s.data
    requires r == reqs[h].(stage := Finished, at := seen + |s.finished|)
    requires forall g :: g in reqs && g != h ==> reqs[g].b != reqs[h].b
    ensures r.b in s.taken && r.b in s.jobs && AllMatch(reqs[h := r], fetched, seen, NextFinished(s, r.b))
  {
    hide BlockAt, Home, SectorOf;
    assert Matches(reqs[h], fetched, seen, s);
    var t := NextFinished(s, r.b);
    forall g | g in reqs && g != h ensures Matches(reqs[g], fetched, seen, t) {
      assert Matches(reqs[g], fetched, seen, s);
    }
    assert Matches(r, fetched, seen, t);
  }

  lemma SimAcked(l: Ledger, s: State, h: nat)
    requires Sim(l, s) && h in l.reqs && l.reqs[h].stage == Finished && l.reqs[h].at == l.seen
    requires forall g :: g in l.reqs && g != h && l.reqs[g].stage == Finished ==> l.reqs[g].at != l.seen
    ensures s.finished != [] && s.finished[0] == l.reqs[h].b && Sim(Moved(l, h, Acked), NextAcked(s))
  {
    MovedFields(l, h, Acked);
    hide Moved, AllMatch, Matches;
    var m := Moved(l, h, Acked);
    SameKeys(l.reqs, h, m.reqs[h]);
    AckedMatch(l.reqs, l.fetched, l.seen, s, h, m.reqs[h]);
  }

  lemma AckedMatch(reqs: Reqs, fetched: nat, seen: nat, s: State, h: nat, r: Req)
    requires AllMatch(reqs, fetched, seen, s) && h in reqs && reqs[h].stage == Finished && reqs[h].at == seen
    requires r == reqs[h].(stage := Acked)
    requires forall g :: g in reqs && g != h && reqs[g].stage == Finished ==> reqs[g].at != seen
    ensures s.finished != [] && s.finished[0] == r.b && AllMatch(reqs[h := r], fetched, seen + 1, NextAcked(s))
  {
    var t := NextAcked(s);
    assert Matches(reqs[h], fetched, seen, s);
    forall g | g in reqs && g != h ensures Matches(reqs[g], fetched, seen + 1, t) {
      assert Matches(reqs[g], fetched, seen, s);
    }
    assert Matches(r, fetched, seen + 1, t);
  }

  lemma SimClosed(l: Ledger, s: State, h: nat)
    requires Sim(l, s) && h in l.reqs && l.reqs[h].stage == Acked && l.reqs[h].b in s.data
    requires l.reqs[h].b in s.jobs && s.jobs[l.reqs[h].b].at.Some?
    requires forall g :: g in l.reqs && g != h ==> l.reqs[g].b != l.reqs[h].b
    ensures Sim(Closed(l, h), NextResumed(s, l.reqs[h].b))
  {
    var b := l.reqs[h].b;
    var t := NextResumed(s, b);
    assert Matches(l.reqs[h], l.fetched, l.seen, s);
    OneLess(l.reqs, h);
    OneLess(s.jobs, b);
    OneLess(l.headOf, b);
    ClosedMatch(l.reqs, l.fetched, l.seen, s, h);
  }

  lemma ClosedMatch(reqs: Reqs, fetched: nat, seen: nat, s: State, h: nat)
    requires AllMatch(reqs, fetched, seen, s) && h in reqs
    requires forall g :: g in reqs && g != h ==> reqs[g].b != reqs[h].b
    ensures AllMatch(reqs - {h}, fetched, seen, NextResumed(s, reqs[h].b))
  {
    var t := NextResumed(s, reqs[h].b);
    forall g | g in reqs && g != h ensures Matches(reqs[g], fetched, seen, t) {
      assert Matches(reqs[g], fetched, seen, s);
    }
  }

  /** In a ring no two requests are in the same place, and a buffer has one request. */
  lemma RingApart(l: Ledger, avail: seq<nat>, used: seq<nat>, busy: set<nat>, pending: set<nat>, h: nat)
    requires Queued(l, avail, used) && Booked(l, busy, pending) && h in l.reqs
    ensures forall g :: g in l.reqs && g != h && l.reqs[g].stage == l.reqs[h].stage && l.reqs[h].stage in {Posted, Finished} ==>
      l.reqs[g].at != l.reqs[h].at
    ensures forall g :: g in l.reqs && g != h ==> l.reqs[g].b != l.reqs[h].b
    ensures l.reqs[h].b in l.headOf && l.headOf[l.reqs[h].b] == h
  {}

  // ---- runs ----

  /** A caller in virtio_disk_rw: the head of its chain, and what it asked for. */
  datatype Caller = Caller(h: nat, job: Job)

  /** The books of a run: the callers waiting, how many requests and transfers there were, and what
      the callers were told. */
  datatype Books = Books(callers: map<nat, Caller>, issued: nat, done: nat, answers: seq<Answer>, results: seq<Result>)

  ghost predicate Same(k: Books, headOf: map<nat, nat>, s: State) {
    && k.issued == |s.asks| && k.done == |s.done| && k.answers == s.answers && k.results == s.results
    && k.callers.Keys == s.jobs.Keys
    && forall b :: b in k.callers ==> b in headOf && b in s.jobs && k.callers[b] == Caller(headOf[b], s.jobs[b])
  }

  /** The disk holds the machine's blocks. */
  ghost predicate Agrees(store: Store, s: State) {
    forall k: nat :: OnDisk(store, k) == BlockAt(s.start, s.blocks, k)
  }

  ghost predicate RunOk(d: Disk, start: Store, k: Books, s: State)
    reads d
  {
    d.Valid() && Sim(d.l, s) && Served(start, s) && d.data == s.data && Agrees(d.store, s) && Same(k, d.l.headOf, s)
  }

  /** A caller fills a buffer and makes a request. */
  method Ask(d: Disk, b: nat, blockno: Uint, write: bool, content: Data, k: Books, ghost start: Store, ghost s: State)
    returns (k': Books)
    requires RunOk(d, start, k, s)
    modifies d
    ensures RunOk(d, start, k', NextRequest(s, b, Want(write, blockno), content))
  {
    hide Shared, Queued, ChainsOk, Booked, Indexed, Served, Opened, SectorOf, Sim, Same;
    SimFacts(d.l, s);
    SameCallers(k, d.l.headOf, s);
    var want := Want(write, blockno);
    RequestServed(start, s, b, want, content);
    if b in k.callers {
      SameSim(d.l, s, NextRequest(s, b, want, content));
      SameRefused(k, d.l.headOf, s, NextRequest(s, b, want, content), InFlight);
      return k.(answers := k.answers + [InFlight]);
    }
    ghost var l := d.l;
    d.data := d.data[b := content];
    var ok, h := d.Submit(b, blockno, write);
    if !ok {
      SameSim(l, s, NextRequest(s, b, want, content));
      SameRefused(k, l.headOf, s, NextRequest(s, b, want, content), NoDescriptors);
      return k.(answers := k.answers + [NoDescriptors]);
    }
    SimOpened(l, s, h, d.l.reqs[h], want, content);
    OpenedHeads(l, h, d.l.reqs[h]);
    SameAsked(k, l.headOf, s, b, h, want, content);
    k' := Admitted(k, b, h, want, content);
  }

  function Admitted(k: Books, b: nat, h: nat, want: Want, content: Data): Books {
    k.(callers := k.callers[b := Caller(h, Job(k.issued, want, content, k.done, None))], issued := k.issued + 1,
       answers := k.answers + [Accepted(k.issued)])
  }

  lemma SameAsked(k: Books, headOf: map<nat, nat>, s: State, b: nat, h: nat, want: Want, content: Data)
    requires Same(k, headOf, s) && b !in s.jobs && 3 * |s.jobs| + 3 <= NUM
    ensures Same(Admitted(k, b, h, want, content), headOf[b := h], NextRequest(s, b, want, content))
  {}

  lemma SameRefused(k: Books, headOf: map<nat, nat>, s: State, t: State, r: Answer)
    requires Same(k, headOf, s) && t == s.(data := t.data, answers := s.answers + [r])
    ensures Same(k.(answers := k.answers + [r]), headOf, t)
  {}

  lemma SameCallers(k: Books, headOf: map<nat, nat>, s: State)
    requires Same(k, headOf, s)
    ensures k.callers.Keys == s.jobs.Keys
  {}

  lemma SimFacts(l: Ledger, s: State)
    requires Sim(l, s)
    ensures Counted(l, s)
  {}

  lemma SameSim(l: Ledger, s: State, t: State)
    requires Sim(l, s) && t == s.(data := t.data, answers := t.answers)
    ensures Sim(l, t)
  {
    forall h | h in l.reqs ensures Matches(l.reqs[h], l.fetched, l.seen, t) { assert Matches(l.reqs[h], l.fetched, l.seen, s); }
  }

  lemma OpenedHeads(l: Ledger, h: nat, r: Req)
    ensures Opened(l, h, r).headOf == l.headOf[r.b := h]
  {}

  /** Where a buffer's request is. */
  lemma JobFacts(d: Disk, start: Store, k: Books, s: State, b: nat)
    requires RunOk(d, start, k, s) && b in k.callers
    ensures k.callers[b].h in d.l.reqs && d.l.reqs[k.callers[b].h].b == b && b in s.jobs && b in s.data
    ensures d.l.reqs[k.callers[b].h].op == OpOf(s.jobs[b].want)
    ensures k.callers[b].h in d.pending <==> b in s.taken
    ensures b !in d.busy <==> b in s.acked
    ensures b in s.acked ==> s.jobs[b].at.Some?
  {
    hide Shared, Queued, ChainsOk, Indexed, TicketsOk, OpOf, Agrees, Served, PlacesOk, Matches;
    var h := k.callers[b].h;
    assert h in d.l.reqs && d.l.reqs[h].b == b;
    assert Matches(d.l.reqs[h], d.l.fetched, d.l.seen, s);
    ServedPlaces(start, s, b);
    StageFacts(d.l.reqs[h], d.l.fetched, d.l.seen, s);
  }

  lemma ServedPlaces(start: Store, s: State, b: nat)
    requires Served(start, s) && b in s.jobs
    ensures PlacesOk(s.jobs, s.posted, s.taken, s.finished, s.acked) && b in s.data
  {
    hide PlacesOk, DoneOk, ResultsOk, Covered, Sequential, Stored;
    assert JobOk(b, s.jobs[b], s.asks, s.done, s.data);
  }

  lemma StageFacts(r: Req, fetched: nat, seen: nat, s: State)
    requires Matches(r, fetched, seen, s) && PlacesOk(s.jobs, s.posted, s.taken, s.finished, s.acked)
    ensures r.b in s.jobs && r.op == OpOf(s.jobs[r.b].want) && (r.b in s.acked ==> s.jobs[r.b].at.Some?)
    ensures (r.stage == Taken <==> r.b in s.taken) && (r.stage == Acked <==> r.b in s.acked)
  {
    hide Once, OpOf;
  }

  /** The device carries out one transfer. */
  method CarryOut(d: Disk, b: nat, k: Books, ghost start: Store, ghost s: State) returns (k': Books)
    requires RunOk(d, start, k, s)
    modifies d
    ensures RunOk(d, start, k', NextFinished(s, b))
  {
    hide Shared, Queued, ChainsOk, Booked, Indexed, Served, Moved, AllMatch, OnDisk, SectorOf, Home;
    FinishedServed(start, s, b);
    if b !in k.callers { return k; }
    JobFacts(d, start, k, s, b);
    var h := k.callers[b].h;
    if h !in d.pending { return k; }
    ghost var l := d.l;
    RingApart(l, d.avail, d.used, d.busy, d.pending, h);
    d.Finish(h);
    MovedFields(l, h, Finished);
    SimFinished(l, s, h);
    AgreesFinished(old(d.store), d.store, old(d.data), d.data, s, b);
    k' := k.(callers := k.callers[b := k.callers[b].(job := k.callers[b].job.(at := Some(k.done)))], done := k.done + 1);
  }

  /** The transfer of the sectors is that of the machine's block. */
  lemma AgreesFinished(store: Store, store': Store, data: map<nat, Data>, data': map<nat, Data>, s: State, b: nat)
    requires Agrees(store, s) && data == s.data && b in s.jobs && b in s.taken && b in s.data
    requires Transferred(b, OpOf(s.jobs[b].want), data, store, data', store')
    ensures Agrees(store', NextFinished(s, b)) && data' == NextFinished(s, b).data
  {
    var want := s.jobs[b].want;
    var block := Home(want.block);
    SectorBytes(want.block);
    hide SectorOf, Home, Fetched, Kept;
    assert store' == if want.write then Kept(store, block * BSIZE, data[b]) else store;
    if want.write {
      assert s.data[b := s.data[b]] == s.data;
      forall k: nat ensures OnDisk(store', k) == BlockAt(s.start, NextFinished(s, b).blocks, k) {
        KeptBlock(store, block, data[b], k);
      }
    } else {
      assert data'[b] == OnDisk(store, block);
    }
  }

  /** A caller goes on with its buffer. */
  method GoOn(d: Disk, b: nat, k: Books, ghost start: Store, ghost s: State) returns (k': Books)
    requires RunOk(d, start, k, s)
    modifies d
    ensures RunOk(d, start, k', NextResumed(s, b))
  {
    hide Shared, Queued, ChainsOk, Booked, Indexed, Served, Closed, AllMatch;
    ResumedServed(start, s, b);
    if b !in k.callers { return k; }
    JobFacts(d, start, k, s, b);
    if b in d.busy { return k; }
    ghost var l := d.l;
    var h, j := k.callers[b].h, k.callers[b].job;
    RingApart(l, d.avail, d.used, d.busy, d.pending, h);
    d.Complete(b, h);
    SimClosed(l, s, h);
    ClosedHeads(l, h);
    k' := k.(callers := k.callers - {b},
             results := k.results + [Result(j.ticket, b, j.want, j.asked, d.data[b], j.since, j.at.value, k.done)]);
  }

  lemma ClosedHeads(l: Ledger, h: nat)
    requires h in l.reqs
    ensures Closed(l, h).headOf == l.headOf - {l.reqs[h].b}
  {}

  /** One step, if it is possible. */
  method Act(d: Disk, a: Action, k: Books, ghost start: Store, ghost s: State) returns (k': Books)
    requires RunOk(d, start, k, s)
    modifies d
    ensures RunOk(d, start, k', Next(s, a))
  {
    hide Shared, Queued, ChainsOk, Booked, Indexed, Served, Moved, Sim, NextRequest, NextFinished, NextResumed;
    NextServed(start, s, a);
    k' := k;
    match a
    case Request(b, blockno, write, content) => k' := Ask(d, b, blockno, write, content, k, start, s);
    case DeviceTakes => TakeOne(d, k, start, s);
    case DeviceFinishes(b) => k' := CarryOut(d, b, k, start, s);
    case Handler => HandleOne(d, k, start, s);
    case Resume(b) => k' := GoOn(d, b, k, start, s);
  }

  method TakeOne(d: Disk, ghost k: Books, ghost start: Store, ghost s: State)
    requires RunOk(d, start, k, s)
    modifies d
    ensures RunOk(d, start, k, NextTaken(s))
  {
    hide Shared, Queued, ChainsOk, Booked, Indexed, Served, Moved, AllMatch;
    NextServed(start, s, DeviceTakes);
    ghost var l := d.l;
    var ok, h := d.Fetch();
    if ok {
      RingApart(l, old(d.avail), old(d.used), old(d.busy), old(d.pending), h);
      MovedFields(l, h, Taken);
      SimTaken(l, s, h);
    }
  }

  method HandleOne(d: Disk, ghost k: Books, ghost start: Store, ghost s: State)
    requires RunOk(d, start, k, s)
    modifies d
    ensures RunOk(d, start, k, NextAcked(s))
  {
    hide Shared, Queued, ChainsOk, Booked, Indexed, Served, Moved, AllMatch;
    NextServed(start, s, Handler);
    ghost var l := d.l;
    var ok, h := d.Interrupt();
    if ok {
      RingApart(l, old(d.avail), old(d.used), old(d.busy), old(d.pending), h);
      MovedFields(l, h, Acked);
      SimAcked(l, s, h);
    }
  }

  /** Every run of callers, driver, device and interrupt handler, from boot on, is the machine's: the
      same requests are taken on, the callers get the same results, buffers and disk blocks hold
      the same, no panic is met and each descriptor is free or part of one request. */
  method Run(store: Store, actions: seq<Action>)
    returns (answers: seq<Answer>, results: seq<Result>, data: map<nat, Data>, after: Store, free: seq<bool>)
    ensures var s := After(Start(store), actions);
      && answers == s.answers && results == s.results && data == s.data && Agrees(after, s) && Served(store, s)
      && |free| == NUM && |FreeSet(free)| + 3 * |s.jobs| == NUM
  {
    hide Served, Sim, Next, FreeSet, Same, Shared;
    var d := new Disk(store);
    var k := Books(map[], 0, 0, [], []);
    ghost var s := Start(store);
    RunServed(store, []);
    assert actions[0..] == actions;
    NothingYet(s);
    for i := 0 to |actions|
      invariant RunOk(d, store, k, s) && fresh(d)
      invariant After(s, actions[i..]) == After(Start(store), actions)
    {
      assert actions[i..][0] == actions[i] && actions[i..][1..] == actions[i + 1..];
      k := Act(d, actions[i], k, store, s);
      s := Next(s, actions[i]);
    }
    Ends(d, store, k, s);
    answers, results, data, after, free := k.answers, k.results, d.data, d.store, d.free;
  }

  lemma NothingYet(s: State)
    requires s == Start(s.start)
    ensures Sim(Ledger(map[], map[], map[], map[], {}, 0, 0, 0, 0, 0), s)
    ensures Same(Books(map[], 0, 0, [], []), map[], s)
  {}

  lemma Ends(d: Disk, start: Store, k: Books, s: State)
    requires RunOk(d, start, k, s)
    ensures |d.free| == NUM && |FreeSet(d.free)| + 3 * |s.jobs| == NUM && k.answers == s.answers && k.results == s.results
  {
    Balance(d.free, d.l.reqs, d.l.part);
  }
}
