/** The disk as its callers see it (kernel/hardware/virtio_disk.c): a machine on buffers that says,
    for any interleaving of requests, device steps, interrupts and wakeups, which request is taken
    on, which transfer the device does when, and what every caller gets. No descriptors, no rings. */
module VirtioCalls {
  import opened Options
  import opened VirtioRings
  import opened VirtioDisk

  // ---- what the device has done, in order ----

  /** What is wanted: to write or to read a block. */
  datatype Want = Want(write: bool, block: Uint)

  /** One transfer: whose it was, and what was in the buffer, and so in the block, when it was
      finished. */
  datatype Transfer = Transfer(ticket: nat, b: nat, want: Want, data: Data)

  /** What a block holds: what was written last, or what the disk held at the start. */
  function BlockAt(start: Store, blocks: map<nat, Data>, block: nat): Data {
    if block in blocks then blocks[block] else OnDisk(start, block)
  }

  /** The blocks written by a sequence of transfers. */
  ghost function Stored(done: seq<Transfer>): map<nat, Data> {
    if done == [] then map[]
    else
      var n := |done| - 1;
      var m := Stored(done[..n]);
      if done[n].want.write then m[Home(done[n].want.block) := done[n].data] else m
  }

  /** Every read gets what its block holds after the transfers before it. */
  ghost predicate Sequential(start: Store, done: seq<Transfer>) {
    forall k :: 0 <= k < |done| && !done[k].want.write ==>
      done[k].data == BlockAt(start, Stored(done[..k]), Home(done[k].want.block))
  }

  lemma StoredNext(start: Store, done: seq<Transfer>, x: Transfer)
    requires Sequential(start, done)
    requires x.want.write || x.data == BlockAt(start, Stored(done), Home(x.want.block))
    ensures Sequential(start, done + [x])
    ensures Stored(done + [x]) == if x.want.write then Stored(done)[Home(x.want.block) := x.data] else Stored(done)
  {
    var more := done + [x];
    assert more[..|done|] == done;
    hide OnDisk, Home;
    forall k | 0 <= k < |more| && !more[k].want.write
      ensures more[k].data == BlockAt(start, Stored(more[..k]), Home(more[k].want.block))
    {
      if k < |done| { assert more[..k] == done[..k]; }
    }
  }

  /** Transfer i writes the block, and none after it before transfer k does. */
  ghost predicate LastWrite(done: seq<Transfer>, i: nat, k: nat, block: nat) {
    && i < k <= |done| && done[i].want.write && Home(done[i].want.block) == block
    && forall j :: i < j < k && done[j].want.write ==> Home(done[j].want.block) != block
  }

  ghost predicate NoWrite(done: seq<Transfer>, k: nat, block: nat) {
    k <= |done| && forall j :: 0 <= j < k && done[j].want.write ==> Home(done[j].want.block) != block
  }

  /** A block holds what the last write of it has put there, whatever other blocks were written. */
  lemma {:induction false} StoredLast(start: Store, done: seq<Transfer>, k: nat, block: nat)
    requires k <= |done|
    ensures NoWrite(done, k, block) ==> BlockAt(start, Stored(done[..k]), block) == OnDisk(start, block)
    ensures forall i :: 0 <= i < k && LastWrite(done, i, k, block) ==> BlockAt(start, Stored(done[..k]), block) == done[i].data
    ensures NoWrite(done, k, block) || exists i :: 0 <= i < k && LastWrite(done, i, k, block)
    decreases k
  {
    hide OnDisk, Home;
    if k > 0 {
      StoredLast(start, done, k - 1, block);
      assert done[..k][..k - 1] == done[..k - 1] && done[..k][k - 1] == done[k - 1];
      if done[k - 1].want.write && Home(done[k - 1].want.block) == block {
        assert LastWrite(done, k - 1, k, block);
      } else {
        if !NoWrite(done, k - 1, block) {
          var i :| 0 <= i < k - 1 && LastWrite(done, i, k - 1, block);
          assert LastWrite(done, i, k, block);
        }
        forall i | 0 <= i < k && LastWrite(done, i, k, block)
          ensures BlockAt(start, Stored(done[..k]), block) == done[i].data
        {
          assert LastWrite(done, i, k - 1, block);
        }
      }
    }
  }

  // ---- the machine ----

  /** What may happen next: a caller's request, a step of the device, a round of the interrupt
      handler, a caller going on once its request is done. */
  datatype Action = Request(b: nat, blockno: Uint, write: bool, content: Data) | DeviceTakes | DeviceFinishes(b: nat)
                  | Handler | Resume(b: nat)

  datatype Ask = Ask(b: nat, want: Want, content: Data)

  /** A request is taken on under the next number, or finds its buffer in flight, or too few free
      descriptors. */
  datatype Answer = Accepted(ticket: nat) | InFlight | NoDescriptors

  /** A request in flight: what it is, what its buffer held, how many transfers there had been, and
      which one is its own. */
  datatype Job = Job(ticket: nat, want: Want, asked: Data, since: nat, at: Option<nat>)

  /** A completed request: what its buffer held at the start and in the end, which transfer it was,
      and how many there had been when it was made and when it was completed. */
  datatype Result = Result(ticket: nat, b: nat, want: Want, asked: Data, got: Data, since: nat, at: nat, until: nat)

  datatype State = State(
    jobs: map<nat, Job>,       // by buffer
    posted: seq<nat>,          // buffers that the device has not taken yet, in order
    taken: set<nat>,
    finished: seq<nat>,        // buffers that the interrupt handler has not seen yet, in order
    acked: set<nat>,
    data: map<nat, Data>,      // what buffers hold
    start: Store,              // the disk at the start
    blocks: map<nat, Data>,    // the blocks written since
    done: seq<Transfer>,
    asks: seq<Ask>,            // the accepted requests, by ticket
    answers: seq<Answer>,
    results: seq<Result>)

  function Start(store: Store): State {
    State(map[], [], {}, [], {}, map[], store, map[], [], [], [], [])
  }

  function NextRequest(s: State, b: nat, want: Want, content: Data): State {
    if b in s.jobs then s.(answers := s.answers + [InFlight])
    else
      var t := s.(data := s.data[b := content]);
      if 3 * |s.jobs| + 3 > NUM then t.(answers := s.answers + [NoDescriptors])
      else t.(jobs := s.jobs[b := Job(|s.asks|, want, content, |s.done|, None)], posted := s.posted + [b],
              asks := s.asks + [Ask(b, want, content)], answers := s.answers + [Accepted(|s.asks|)])
  }

  function NextTaken(s: State): State {
    if s.posted == [] then s else s.(posted := s.posted[1..], taken := s.taken + {s.posted[0]})
  }

  /** The transfer: a write stores the buffer, a read fills it. */
  function NextFinished(s: State, b: nat): State {
    if b !in s.taken || b !in s.jobs || b !in s.data then s
    else
      var j := s.jobs[b];
      var x := if j.want.write then s.data[b] else BlockAt(s.start, s.blocks, Home(j.want.block));
      s.(taken := s.taken - {b}, finished := s.finished + [b], data := s.data[b := x],
         blocks := if j.want.write then s.blocks[Home(j.want.block) := x] else s.blocks,
         done := s.done + [Transfer(j.ticket, b, j.want, x)], jobs := s.jobs[b := j.(at := Some(|s.done|))])
  }

  function NextAcked(s: State): State {
    if s.finished == [] then s else s.(finished := s.finished[1..], acked := s.acked + {s.finished[0]})
  }

  function NextResumed(s: State, b: nat): State {
    if b !in s.acked || b !in s.jobs || b !in s.data || s.jobs[b].at.None? then s
    else
      var j := s.jobs[b];
      s.(acked := s.acked - {b}, jobs := s.jobs - {b},
         results := s.results + [Result(j.ticket, b, j.want, j.asked, s.data[b], j.since, j.at.value, |s.done|)])
  }

  function Next(s: State, a: Action): State {
    match a
    case Request(b, blockno, write, content) => NextRequest(s, b, Want(write, blockno), content)
    case DeviceTakes => NextTaken(s)
    case DeviceFinishes(b) => NextFinished(s, b)
    case Handler => NextAcked(s)
    case Resume(b) => NextResumed(s, b)
  }

  function After(s: State, actions: seq<Action>): State
    decreases |actions|
  {
    if actions == [] then s else After(Next(s, actions[0]), actions[1..])
  }

  // ---- what every run keeps ----

  ghost predicate JobOk(b: nat, j: Job, asks: seq<Ask>, done: seq<Transfer>, data: map<nat, Data>) {
    && j.ticket < |asks| && asks[j.ticket] == Ask(b, j.want, j.asked) && b in data && j.since <= |done|
    && match j.at
       case None => data[b] == j.asked && forall i :: 0 <= i < |done| ==> done[i].ticket != j.ticket
       case Some(i) => j.since <= i < |done| && done[i] == Transfer(j.ticket, b, j.want, data[b])
  }

  ghost predicate JobsOk(jobs: map<nat, Job>, asks: seq<Ask>, done: seq<Transfer>, data: map<nat, Data>) {
    && (forall b :: b in jobs ==> JobOk(b, jobs[b], asks, done, data))
    && (forall b, c :: b in jobs && c in jobs && jobs[b].ticket == jobs[c].ticket ==> b == c)
  }

  /** No element twice. */
  predicate Once(q: seq<nat>) {
    forall i, j :: 0 <= i < j < |q| ==> q[i] != q[j]
  }

  /** Every request in flight is in one place on its way. */
  ghost predicate PlacesOk(jobs: map<nat, Job>, posted: seq<nat>, taken: set<nat>, finished: seq<nat>, acked: set<nat>) {
    && Once(posted) && Once(finished)
    && (forall b :: b in jobs ==> b in posted || b in taken || b in finished || b in acked)
    && (forall b :: b in posted || b in taken ==> b in jobs && jobs[b].at.None?)
    && (forall b :: b in finished || b in acked ==> b in jobs && jobs[b].at.Some?)
    && (forall b :: b in posted ==> b !in taken) && (forall b :: b in finished ==> b !in acked)
  }

  ghost predicate TransferOk(asks: seq<Ask>, x: Transfer) {
    && x.ticket < |asks| && asks[x.ticket].b == x.b && asks[x.ticket].want == x.want
    && (x.want.write ==> x.data == asks[x.ticket].content)
  }

  /** A transfer is that of the request with its ticket, and no other transfer is. */
  ghost predicate DoneOk(asks: seq<Ask>, done: seq<Transfer>) {
    && (forall i :: 0 <= i < |done| ==> TransferOk(asks, done[i]))
    && (forall i, j :: 0 <= i < j < |done| ==> done[i].ticket != done[j].ticket)
  }

  ghost predicate ResultOk(x: Result, asks: seq<Ask>, done: seq<Transfer>) {
    && x.ticket < |asks| && asks[x.ticket] == Ask(x.b, x.want, x.asked)
    && x.since <= x.at < x.until <= |done| && done[x.at] == Transfer(x.ticket, x.b, x.want, x.got)
  }

  /** Results are those of different requests. */
  ghost predicate ResultsOk(results: seq<Result>, asks: seq<Ask>, done: seq<Transfer>) {
    && (forall i :: 0 <= i < |results| ==> ResultOk(results[i], asks, done))
    && (forall i, j :: 0 <= i < j < |results| ==> results[i].ticket != results[j].ticket)
  }

  ghost predicate HasJob(jobs: map<nat, Job>, t: nat) {
    exists b :: b in jobs && jobs[b].ticket == t
  }

  ghost predicate HasResult(results: seq<Result>, t: nat) {
    exists i :: 0 <= i < |results| && results[i].ticket == t
  }

  /** Every accepted request is in flight or has its result, and not both. */
  ghost predicate Covered(jobs: map<nat, Job>, results: seq<Result>, n: nat) {
    forall t: nat :: t < n ==> (HasJob(jobs, t) <==> !HasResult(results, t))
  }

  ghost predicate Served(start: Store, s: State) {
    && JobsOk(s.jobs, s.asks, s.done, s.data) && PlacesOk(s.jobs, s.posted, s.taken, s.finished, s.acked)
    && DoneOk(s.asks, s.done) && ResultsOk(s.results, s.asks, s.done) && Covered(s.jobs, s.results, |s.asks|)
    && Sequential(start, s.done) && s.start == start && s.blocks == Stored(s.done)
  }

  lemma JobsAdd(jobs: map<nat, Job>, asks: seq<Ask>, done: seq<Transfer>, data: map<nat, Data>, b: nat, want: Want, content: Data)
    requires JobsOk(jobs, asks, done, data) && DoneOk(asks, done) && b !in jobs
    ensures JobsOk(jobs, asks, done, data[b := content])
    ensures JobsOk(jobs[b := Job(|asks|, want, content, |done|, None)], asks + [Ask(b, want, content)], done, data[b := content])
  {
    var jobs' := jobs[b := Job(|asks|, want, content, |done|, None)];
    var asks', data' := asks + [Ask(b, want, content)], data[b := content];
    forall c | c in jobs ensures JobOk(c, jobs[c], asks, done, data') && JobOk(c, jobs[c], asks', done, data') {
      assert JobOk(c, jobs[c], asks, done, data);
    }
    forall i | 0 <= i < |done| ensures done[i].ticket != |asks| { assert TransferOk(asks, done[i]); }
    assert JobOk(b, jobs'[b], asks', done, data');
  }

  lemma AsksAdd(results: seq<Result>, asks: seq<Ask>, done: seq<Transfer>, a: Ask)
    requires ResultsOk(results, asks, done) && DoneOk(asks, done)
    ensures ResultsOk(results, asks + [a], done) && DoneOk(asks + [a], done)
  {
    forall i | 0 <= i < |results| ensures ResultOk(results[i], asks + [a], done) { assert ResultOk(results[i], asks, done); }
    forall i | 0 <= i < |done| ensures TransferOk(asks + [a], done[i]) { assert TransferOk(asks, done[i]); }
  }

  lemma CoveredAdd(jobs: map<nat, Job>, results: seq<Result>, asks: seq<Ask>, done: seq<Transfer>, b: nat, j: Job)
    requires Covered(jobs, results, |asks|) && ResultsOk(results, asks, done) && b !in jobs && j.ticket == |asks|
    ensures Covered(jobs[b := j], results, |asks| + 1)
  {
    var jobs' := jobs[b := j];
    forall t: nat | t < |asks| + 1 ensures HasJob(jobs', t) <==> !HasResult(results, t) {
      if t == |asks| {
        assert jobs'[b].ticket == t;
        assert forall i :: 0 <= i < |results| ==> ResultOk(results[i], asks, done);
      } else {
        if HasJob(jobs, t) {
          var c :| c in jobs && jobs[c].ticket == t;
          assert c in jobs' && jobs'[c].ticket == t;
        }
        if HasJob(jobs', t) {
          var c :| c in jobs' && jobs'[c].ticket == t;
          assert c in jobs && jobs[c].ticket == t;
        }
      }
    }
  }

  lemma PlacesAdd(jobs: map<nat, Job>, posted: seq<nat>, taken: set<nat>, finished: seq<nat>, acked: set<nat>, b: nat, j: Job)
    requires PlacesOk(jobs, posted, taken, finished, acked) && b !in jobs && j.at.None?
    ensures PlacesOk(jobs[b := j], posted + [b], taken, finished, acked)
  {}

  lemma RequestServed(start: Store, s: State, b: nat, want: Want, content: Data)
    requires Served(start, s)
    ensures Served(start, NextRequest(s, b, want, content))
  {
    hide JobsOk, PlacesOk, DoneOk, ResultsOk, Covered, Sequential, Stored;
    if b !in s.jobs {
      var j := Job(|s.asks|, want, content, |s.done|, None);
      JobsAdd(s.jobs, s.asks, s.done, s.data, b, want, content);
      AsksAdd(s.results, s.asks, s.done, Ask(b, want, content));
      CoveredAdd(s.jobs, s.results, s.asks, s.done, b, j);
      PlacesAdd(s.jobs, s.posted, s.taken, s.finished, s.acked, b, j);
    }
  }

  lemma PlacesTaken(jobs: map<nat, Job>, posted: seq<nat>, taken: set<nat>, finished: seq<nat>, acked: set<nat>)
    requires PlacesOk(jobs, posted, taken, finished, acked) && posted != []
    ensures PlacesOk(jobs, posted[1..], taken + {posted[0]}, finished, acked)
  {
    assert posted == [posted[0]] + posted[1..];
  }

  lemma PlacesAcked(jobs: map<nat, Job>, posted: seq<nat>, taken: set<nat>, finished: seq<nat>, acked: set<nat>)
    requires PlacesOk(jobs, posted, taken, finished, acked) && finished != []
    ensures PlacesOk(jobs, posted, taken, finished[1..], acked + {finished[0]})
  {
    assert finished == [finished[0]] + finished[1..];
  }

  lemma PlacesFinished(jobs: map<nat, Job>, posted: seq<nat>, taken: set<nat>, finished: seq<nat>, acked: set<nat>,
                       b: nat, j: Job)
    requires PlacesOk(jobs, posted, taken, finished, acked) && b in taken && j.at.Some?
    ensures PlacesOk(jobs[b := j], posted, taken - {b}, finished + [b], acked)
  {}

  lemma PlacesResumed(jobs: map<nat, Job>, posted: seq<nat>, taken: set<nat>, finished: seq<nat>, acked: set<nat>, b: nat)
    requires PlacesOk(jobs, posted, taken, finished, acked) && b in acked
    ensures PlacesOk(jobs - {b}, posted, taken, finished, acked - {b})
  {}

  lemma JobsFinished(jobs: map<nat, Job>, asks: seq<Ask>, done: seq<Transfer>, data: map<nat, Data>, b: nat, x: Data)
    requires JobsOk(jobs, asks, done, data) && DoneOk(asks, done) && b in jobs && jobs[b].at.None?
    requires jobs[b].want.write ==> b in data && x == data[b]
    ensures var j := jobs[b]; var done' := done + [Transfer(j.ticket, b, j.want, x)];
      JobsOk(jobs[b := j.(at := Some(|done|))], asks, done', data[b := x]) && DoneOk(asks, done')
  {
    var j := jobs[b];
    var t := Transfer(j.ticket, b, j.want, x);
    var jobs', done', data' := jobs[b := j.(at := Some(|done|))], done + [t], data[b := x];
    assert JobOk(b, j, asks, done, data);
    forall c | c in jobs ensures JobOk(c, jobs'[c], asks, done', data') {
      assert JobOk(c, jobs[c], asks, done, data);
    }
    forall i | 0 <= i < |done'| ensures TransferOk(asks, done'[i]) {
      assert i < |done| ==> TransferOk(asks, done[i]);
    }
  }

  lemma ResultsLater(results: seq<Result>, asks: seq<Ask>, done: seq<Transfer>, x: Transfer)
    requires ResultsOk(results, asks, done)
    ensures ResultsOk(results, asks, done + [x])
  {
    forall i | 0 <= i < |results| ensures ResultOk(results[i], asks, done + [x]) { assert ResultOk(results[i], asks, done); }
  }

  lemma CoveredSame(jobs: map<nat, Job>, results: seq<Result>, n: nat, b: nat, j: Job)
    requires Covered(jobs, results, n) && b in jobs && j.ticket == jobs[b].ticket
    ensures Covered(jobs[b := j], results, n)
  {
    var jobs' := jobs[b := j];
    forall t: nat | t < n ensures HasJob(jobs', t) <==> HasJob(jobs, t) {
      if HasJob(jobs, t) {
        var c :| c in jobs && jobs[c].ticket == t;
        assert c in jobs' && jobs'[c].ticket == t;
      }
    }
  }

  lemma FinishedServed(start: Store, s: State, b: nat)
    requires Served(start, s)
    ensures Served(start, NextFinished(s, b))
  {
    hide JobsOk, DoneOk, ResultsOk, Covered, Sequential, Stored, Once;
    if b in s.taken && b in s.jobs && b in s.data {
      var j := s.jobs[b];
      var x := if j.want.write then s.data[b] else BlockAt(s.start, s.blocks, Home(j.want.block));
      var t := Transfer(j.ticket, b, j.want, x);
      JobsFinished(s.jobs, s.asks, s.done, s.data, b, x);
      PlacesFinished(s.jobs, s.posted, s.taken, s.finished, s.acked, b, j.(at := Some(|s.done|)));
      ResultsLater(s.results, s.asks, s.done, t);
      CoveredSame(s.jobs, s.results, |s.asks|, b, j.(at := Some(|s.done|)));
      StoredNext(start, s.done, t);
    }
  }

  lemma JobsResumed(jobs: map<nat, Job>, asks: seq<Ask>, done: seq<Transfer>, data: map<nat, Data>,
                    results: seq<Result>, b: nat)
    requires JobsOk(jobs, asks, done, data) && DoneOk(asks, done) && b in jobs && jobs[b].at.Some?
    requires ResultsOk(results, asks, done) && Covered(jobs, results, |asks|)
    ensures JobsOk(jobs - {b}, asks, done, data) && b in data
    ensures var j := jobs[b];
      var x := Result(j.ticket, b, j.want, j.asked, data[b], j.since, j.at.value, |done|);
      ResultsOk(results + [x], asks, done) && Covered(jobs - {b}, results + [x], |asks|)
  {
    assert JobOk(b, jobs[b], asks, done, data);
    var j := jobs[b];
    var x := Result(j.ticket, b, j.want, j.asked, data[b], j.since, j.at.value, |done|);
    assert HasJob(jobs, j.ticket) && !HasResult(results, j.ticket);
    forall i | 0 <= i < |results| ensures results[i].ticket != j.ticket {}
    CoveredClosed(jobs, results, |asks|, b, x);
  }

  lemma CoveredClosed(jobs: map<nat, Job>, results: seq<Result>, n: nat, b: nat, x: Result)
    requires Covered(jobs, results, n) && b in jobs && jobs[b].ticket == x.ticket
    requires forall c :: c in jobs && jobs[c].ticket == x.ticket ==> c == b
    ensures Covered(jobs - {b}, results + [x], n)
  {
    var jobs', results' := jobs - {b}, results + [x];
    forall t: nat | t < n ensures HasJob(jobs', t) <==> !HasResult(results', t) {
      assert HasResult(results', t) <==> HasResult(results, t) || t == x.ticket by {
        if t == x.ticket { assert results'[|results|].ticket == t; }
        if HasResult(results, t) {
          var i :| 0 <= i < |results| && results[i].ticket == t;
          assert results'[i].ticket == t;
        }
      }
      if t != x.ticket && HasJob(jobs, t) {
        var c :| c in jobs && jobs[c].ticket == t;
        assert c in jobs' && jobs'[c].ticket == t;
      }
    }
  }

  lemma ResumedServed(start: Store, s: State, b: nat)
    requires Served(start, s)
    ensures Served(start, NextResumed(s, b))
  {
    hide JobsOk, PlacesOk, DoneOk, ResultsOk, Covered, Sequential, Stored, Once;
    if b in s.acked && b in s.jobs && b in s.data && s.jobs[b].at.Some? {
      PlacesResumed(s.jobs, s.posted, s.taken, s.finished, s.acked, b);
      JobsResumed(s.jobs, s.asks, s.done, s.data, s.results, b);
    }
  }

  lemma NextServed(start: Store, s: State, a: Action)
    requires Served(start, s)
    ensures Served(start, Next(s, a))
  {
    hide JobsOk, PlacesOk, DoneOk, ResultsOk, Covered, Sequential, Stored, NextRequest, NextFinished, NextResumed;
    match a
    case Request(b, blockno, write, content) => RequestServed(start, s, b, Want(write, blockno), content);
    case DeviceTakes => if s.posted != [] { PlacesTaken(s.jobs, s.posted, s.taken, s.finished, s.acked); }
    case DeviceFinishes(b) => FinishedServed(start, s, b);
    case Handler => if s.finished != [] { PlacesAcked(s.jobs, s.posted, s.taken, s.finished, s.acked); }
    case Resume(b) => ResumedServed(start, s, b);
  }

  lemma {:induction false} AfterServed(start: Store, s: State, actions: seq<Action>)
    requires Served(start, s)
    ensures Served(start, After(s, actions))
    decreases |actions|
  {
    hide Served, Next;
    if actions != [] {
      NextServed(start, s, actions[0]);
      AfterServed(start, Next(s, actions[0]), actions[1..]);
    }
  }

  /** Whatever the requests, the device, the interrupts and the callers do and in whatever order: the
      disk carries out one transfer after the other, each of them for one accepted request; every
      accepted request is in flight or has exactly one result, which is its own transfer, made
      between the request and the result; a write puts into its block what the caller's buffer held,
      and a read leaves in the buffer what the block held after the transfers before it. */
  lemma RunServed(store: Store, actions: seq<Action>)
    ensures Served(store, After(Start(store), actions))
  {
    AfterServed(store, Start(store), actions);
  }

  /** Different results are different transfers, and a write's is what the caller had asked for. */
  lemma ResultsApart(start: Store, s: State, i: nat, j: nat)
    requires Served(start, s) && i < |s.results| && j < |s.results|
    ensures s.results[i].at == s.results[j].at ==> i == j
    ensures s.results[i].want.write ==> s.results[i].got == s.results[i].asked
  {
    assert ResultOk(s.results[i], s.asks, s.done) && ResultOk(s.results[j], s.asks, s.done);
    assert TransferOk(s.asks, s.done[s.results[i].at]);
  }

  /** A read of a block leaves in the buffer the contents of the last write request of that block
      that was carried out before it, or what the disk held for it at the start, whatever requests for
      other blocks there were. */
  lemma ReadGets(start: Store, s: State, i: nat)
    requires Served(start, s) && i < |s.results| && !s.results[i].want.write
    ensures var r := s.results[i];
      var block := Home(r.want.block);
      r.at < |s.done| &&
      if NoWrite(s.done, r.at, block) then r.got == OnDisk(start, block)
      else exists k ::
        0 <= k < r.at && LastWrite(s.done, k, r.at, block) && s.done[k].ticket < |s.asks| && r.got == s.asks[s.done[k].ticket].content
  {
    var r := s.results[i];
    assert ResultOk(r, s.asks, s.done);
    var block := Home(r.want.block);
    StoredLast(start, s.done, r.at, block);
    hide OnDisk, Home, BlockAt, Stored, JobsOk, PlacesOk, ResultsOk, Covered;
    if !NoWrite(s.done, r.at, block) {
      var k :| 0 <= k < r.at && LastWrite(s.done, k, r.at, block);
      assert TransferOk(s.asks, s.done[k]);
    }
  }
}
