/** Whole histories of transactions, crashes and interrupted recoveries (kernel/log.c). */
module LogHistory {
  import opened DiskBlocks
  import opened LogRecovery

  datatype Txn = Txn(lh: seq<nat>, data: seq<Data>)

  /** A commit that ran to its end, or one cut off after `at` of its block writes, followed
      by recoveries cut off after the given numbers of writes and one that ran to its end. */
  datatype Event = Done(t: Txn) | Crash(t: Txn, at: nat, retries: seq<nat>)

  /** A running system between transactions: the header on disk is empty. */
  predicate Idle(g: Layout, disk: Disk) {
    Recoverable(g, disk) && ReadHead(disk[g.start]) == []
  }

  predicate TxnOk(g: Layout, disk: Disk, t: Txn) {
    t.lh != [] && Loggable(g, disk, t.lh) && |t.data| == |t.lh|
  }

  function Cut(ws: seq<Write>, k: nat): seq<Write> {
    if k < |ws| then ws[..k] else ws
  }

  function CutCommit(g: Layout, disk: Disk, t: Txn, at: nat): (d: Disk)
    requires Idle(g, disk) && TxnOk(g, disk, t)
    ensures |d| == |disk| && Recoverable(g, d)
    ensures HomeEq(g, Recover(g, d), if at <= |t.lh| then disk else Install(disk, t.lh, t.data))
    ensures at >= 2 * |t.lh| + 2 ==> Idle(g, d)
  {
    var ws := CommitWrites(g, disk[g.start], t.lh, t.data);
    var n := if at < |ws| then at else |ws|;
    assert Cut(ws, at) == ws[..n];
    CommitCrash(g, disk, t.lh, t.data, n);
    Apply(disk, Cut(ws, at))
  }

  function CutRecovery(g: Layout, disk: Disk, at: nat): (d: Disk)
    requires Recoverable(g, disk)
    ensures |d| == |disk| && Recoverable(g, d) && HomeEq(g, Recover(g, d), Recover(g, disk))
  {
    var ws := RecoverWrites(g, disk);
    var n := if at < |ws| then at else |ws|;
    assert Cut(ws, at) == ws[..n];
    RecoveryCrash(g, disk, n);
    Apply(disk, Cut(ws, at))
  }

  function Retry(g: Layout, disk: Disk, retries: seq<nat>): (d: Disk)
    requires Recoverable(g, disk)
    ensures |d| == |disk| && Recoverable(g, d) && HomeEq(g, Recover(g, d), Recover(g, disk))
    decreases |retries|
  {
    if retries == [] then disk else Retry(g, CutRecovery(g, disk, retries[0]), retries[1..])
  }

  function Step(g: Layout, disk: Disk, e: Event): (d: Disk)
    requires Idle(g, disk) && TxnOk(g, disk, e.t)
  {
    match e
    case Done(t) => CutCommit(g, disk, t, 2 * |t.lh| + 2)
    case Crash(t, at, retries) => Recover(g, Retry(g, CutCommit(g, disk, t, at), retries))
  }

  /** The transaction counts exactly when its header write reached the disk. */
  predicate Counts(e: Event) {
    e.Done? || e.at > |e.t.lh|
  }

  function Ideal(disk: Disk, e: Event): (d: Disk)
    requires |e.t.data| == |e.t.lh| && forall i :: 0 <= i < |e.t.lh| ==> e.t.lh[i] < |disk|
  {
    if Counts(e) then Install(disk, e.t.lh, e.t.data) else disk
  }

  lemma StepIdeal(g: Layout, disk: Disk, e: Event)
    requires Idle(g, disk) && TxnOk(g, disk, e.t)
    ensures Idle(g, Step(g, disk, e)) && HomeEq(g, Step(g, disk, e), Ideal(disk, e))
  {
    hide Recover, Install, Apply, CommitWrites;
    match e
    case Done(t) =>
      EmptyRecovers(g, Step(g, disk, e));
    case Crash(t, at, retries) =>
      var c := CutCommit(g, disk, t, at);
      var d := Retry(g, c, retries);
      RecoverEmpties(g, d);
  }

  predicate AllOk(g: Layout, disk: Disk, es: seq<Event>) {
    forall i :: 0 <= i < |es| ==> TxnOk(g, disk, es[i].t)
  }

  function Run(g: Layout, disk: Disk, es: seq<Event>): (d: Disk)
    requires Idle(g, disk) && AllOk(g, disk, es)
    ensures Idle(g, d) && |d| == |disk|
  {
    if es == [] then disk else
      var d := Run(g, disk, es[..|es| - 1]);
      StepIdeal(g, d, es[|es| - 1]);
      Step(g, d, es[|es| - 1])
  }

  function IdealRun(disk: Disk, es: seq<Event>): (d: Disk)
    requires forall k :: 0 <= k < |es| ==> |es[k].t.data| == |es[k].t.lh|
    requires forall k, i :: 0 <= k < |es| && 0 <= i < |es[k].t.lh| ==> es[k].t.lh[i] < |disk|
    ensures |d| == |disk|
  {
    if es == [] then disk else Ideal(IdealRun(disk, es[..|es| - 1]), es[|es| - 1])
  }

  /** Crash atomicity: after any history the home blocks hold the effects of a whole number
      of transactions, in order, namely of those whose header write reached the disk. */
  lemma {:induction false} CrashAtomicity(g: Layout, disk: Disk, es: seq<Event>)
    requires Idle(g, disk) && AllOk(g, disk, es)
    ensures HomeEq(g, Run(g, disk, es), IdealRun(disk, es))
  {
    if es != [] {
      var front, e := es[..|es| - 1], es[|es| - 1];
      CrashAtomicity(g, disk, front);
      var d, d' := Run(g, disk, front), IdealRun(disk, front);
      StepIdeal(g, d, e);
      if Counts(e) { InstallSame(g, d, d', e.t.lh, e.t.data); }
    }
  }
}
