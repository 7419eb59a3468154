/** Debounced, coalesced, single-flight reconciliation. Every method is one stretch of code between two
    awaits; they may follow each other in any order their own conditions allow. */
module ReconcilerQueue {
  import opened Wrappers

  datatype Kind = Config | Fingerprint | GitTopology | Manifest | WatchError

  datatype State = Open | Closing | Closed

  /** What happens, in order: a signal is accepted, a run starts with a batch, a run ends. */
  datatype Entry =
    | Accepted(root: string, kind: Kind)
    | Started(run: nat, roots: set<string>, kinds: set<Kind>)
    | Ended(run: nat)

  /** Where the flush under way has got to: awaiting a run somebody else started, awaiting its own drain,
      or out of its loop while its promise still stands. */
  datatype Flush = NoFlush | AwaitsRun(run: nat) | AwaitsDrain(run: nat) | Returned

  // ----- the log as specification ---------------------------------------------------------------------

  function RootsAfter(pending: set<string>, e: Entry): set<string> {
    match e
    case Accepted(root, _) => pending + {root}
    case Started(_, _, _) => {}
    case Ended(_) => pending
  }

  function KindsAfter(pending: set<Kind>, e: Entry): set<Kind> {
    match e
    case Accepted(_, kind) => pending + {kind}
    case Started(_, _, _) => {}
    case Ended(_) => pending
  }

  function RunAfter(active: Option<nat>, e: Entry): Option<nat> {
    match e
    case Accepted(_, _) => active
    case Started(run, _, _) => Some(run)
    case Ended(_) => None
  }

  /** Signals accepted since the last run started. */
  function PendingRoots(log: seq<Entry>): set<string> {
    if log == [] then {} else RootsAfter(PendingRoots(log[..|log| - 1]), log[|log| - 1])
  }

  function PendingKinds(log: seq<Entry>): set<Kind> {
    if log == [] then {} else KindsAfter(PendingKinds(log[..|log| - 1]), log[|log| - 1])
  }

  /** The run that started and has not ended. */
  function ActiveRun(log: seq<Entry>): Option<nat> {
    if log == [] then None else RunAfter(ActiveRun(log[..|log| - 1]), log[|log| - 1])
  }

  /** One run at a time, and each takes everything that is pending. */
  predicate MayFollow(log: seq<Entry>, e: Entry) {
    match e
    case Accepted(_, _) => true
    case Started(_, roots, kinds) =>
      ActiveRun(log).None? && roots == PendingRoots(log) && kinds == PendingKinds(log)
      && roots != {}
    case Ended(run) => ActiveRun(log) == Some(run)
  }

  predicate Faithful(log: seq<Entry>) {
    log != [] ==> Faithful(log[..|log| - 1]) && MayFollow(log[..|log| - 1], log[|log| - 1])
  }

  /** The signal at index i is in a batch that started after it. */
  predicate Delivered(log: seq<Entry>, i: int, j: int)
    requires 0 <= i < |log| && log[i].Accepted?
  {
    i < j < |log| && log[j].Started? && log[i].root in log[j].roots && log[i].kind in log[j].kinds
  }

  /** No accepted signal is lost: it is pending, or in a batch that started after it. */
  lemma {:induction false} NothingIsLost(log: seq<Entry>, i: nat)
    requires Faithful(log) && i < |log| && log[i].Accepted?
    ensures (log[i].root in PendingRoots(log) && log[i].kind in PendingKinds(log)) || exists j :: Delivered(log, i, j)
  {
    var init := log[..|log| - 1];
    if i < |init| {
      assert init[i] == log[i];
      NothingIsLost(init, i);
      if exists j :: Delivered(init, i, j) {
        var j :| Delivered(init, i, j);
        assert Delivered(log, i, j);
      } else if log[|log| - 1].Started? {
        assert Delivered(log, i, |log| - 1);
      }
    }
  }

  /** What started and is not the active run has ended. */
  lemma {:induction false} StartedHasEnded(log: seq<Entry>, j: nat)
    requires Faithful(log) && j < |log| && log[j].Started?
    ensures ActiveRun(log) == Some(log[j].run) || exists k :: j < k < |log| && log[k] == Ended(log[j].run)
  {
    var n := |log| - 1;
    var init := log[..n];
    if j < n {
      assert init[j] == log[j];
      StartedHasEnded(init, j);
      if ActiveRun(init) == Some(log[j].run) {
        assert log[n].Ended? ==> log[n] == Ended(log[j].run);
      } else {
        var k :| j < k < n && init[k] == Ended(log[j].run);
        assert log[k] == Ended(log[j].run);
      }
    }
  }

  /** A signal pending or delivered again: once nothing is pending and nothing runs, every signal ever
      accepted was in a batch that started after it and has ended. */
  lemma QuietMeansDelivered(log: seq<Entry>, i: nat)
    requires Faithful(log) && i < |log| && log[i].Accepted?
    requires PendingRoots(log) == {} && ActiveRun(log).None?
    ensures exists j, k :: Delivered(log, i, j) && j < k < |log| && log[k] == Ended(log[j].run)
  {
    NothingIsLost(log, i);
    var j :| Delivered(log, i, j);
    StartedHasEnded(log, j);
    var k :| j < k < |log| && log[k] == Ended(log[j].run);
  }

  /** Nothing is invented: a batch holds only roots that were accepted. */
  lemma {:induction false} BatchesAreAccepted(log: seq<Entry>, root: string)
    requires Faithful(log) && root in PendingRoots(log)
    ensures exists i :: 0 <= i < |log| && log[i].Accepted? && log[i].root == root
  {
    var n := |log| - 1;
    var init := log[..n];
    if log[n].Accepted? && log[n].root == root {
    } else {
      BatchesAreAccepted(init, root);
      var i :| 0 <= i < |init| && init[i].Accepted? && init[i].root == root;
      assert log[i] == init[i];
    }
  }

  /** How one more entry changes what the log says. */
  lemma LogGrows(log: seq<Entry>, e: Entry)
    ensures PendingRoots(log + [e]) == RootsAfter(PendingRoots(log), e)
    ensures PendingKinds(log + [e]) == KindsAfter(PendingKinds(log), e)
    ensures ActiveRun(log + [e]) == RunAfter(ActiveRun(log), e)
    ensures Faithful(log + [e]) <==> Faithful(log) && MayFollow(log, e)
  {
  }

  /** Every signal ever accepted was in a batch that started after it and has ended. */
  ghost predicate AllReconciled(log: seq<Entry>) {
    forall i :: 0 <= i < |log| && log[i].Accepted? ==>
      exists j, k :: Delivered(log, i, j) && j < k < |log| && log[k] == Ended(log[j].run)
  }

  lemma QuietMeansAllReconciled(log: seq<Entry>)
    requires Faithful(log) && PendingRoots(log) == {} && ActiveRun(log).None?
    ensures AllReconciled(log)
  {
    forall i | 0 <= i < |log| && log[i].Accepted?
      ensures exists j, k :: Delivered(log, i, j) && j < k < |log| && log[k] == Ended(log[j].run)
    {
      QuietMeansDelivered(log, i);
    }
  }

  /** The signal at index i was accepted after the last start: no batch holds it. */
  predicate NotTaken(log: seq<Entry>, i: int) {
    0 <= i < |log| && log[i].Accepted? && forall j :: i < j < |log| ==> !log[j].Started?
  }

  /** The signal at index i is in the batch at index s only, which has not ended. */
  predicate UnderWay(log: seq<Entry>, i: int, s: int) {
    && 0 <= i < s < |log| && log[i].Accepted? && log[s].Started?
    && (forall j :: i < j < |log| && j != s ==> !log[j].Started?)
    && (forall k :: s < k < |log| ==> !log[k].Ended?)
  }

  lemma {:induction false} PendingIsNotTaken(log: seq<Entry>)
    requires PendingRoots(log) != {}
    ensures exists i :: NotTaken(log, i)
  {
    var n := |log| - 1;
    if log[n].Accepted? {
      assert NotTaken(log, n);
    } else {
      PendingIsNotTaken(log[..n]);
      var i :| NotTaken(log[..n], i);
      assert log[i] == log[..n][i];
      assert NotTaken(log, i) by {
        forall j | i < j < |log| ensures !log[j].Started? {
          assert j < n ==> log[j] == log[..n][j];
        }
      }
    }
  }

  lemma {:induction false} ActiveIsUnderWay(log: seq<Entry>)
    requires Faithful(log) && ActiveRun(log).Some?
    ensures exists i, s :: UnderWay(log, i, s)
  {
    var n := |log| - 1;
    var init := log[..n];
    if log[n].Started? {
      PendingIsNotTaken(init);
      var i :| NotTaken(init, i);
      assert forall j :: i <= j < n ==> log[j] == init[j];
      assert UnderWay(log, i, n);
    } else {
      ActiveIsUnderWay(init);
      var i, s :| UnderWay(init, i, s);
      assert forall j :: 0 <= j < n ==> log[j] == init[j];
      assert UnderWay(log, i, s);
    }
  }

  /** Exactly when everything accepted has been reconciled: nothing is pending and no run is under way. */
  lemma ReconciledIsQuiet(log: seq<Entry>)
    requires Faithful(log)
    ensures AllReconciled(log) <==> PendingRoots(log) == {} && ActiveRun(log).None?
  {
    if PendingRoots(log) != {} {
      PendingIsNotTaken(log);
      var i :| NotTaken(log, i);
      assert log[i].Accepted?;
    } else if ActiveRun(log).Some? {
      ActiveIsUnderWay(log);
      var i, s :| UnderWay(log, i, s);
      assert log[i].Accepted?;
      assert forall j :: Delivered(log, i, j) ==> j == s;
    } else {
      QuietMeansAllReconciled(log);
    }
  }

  function Min(a: int, b: int): int { if a <= b then a else b }

  function Max(a: int, b: int): int { if a <= b then b else a }

  /** One call of `flush`: the log it found, the flush whose end it is told, and whether it joined a flush
      that was out of its loop while something was not reconciled. */
  datatype Caller = Caller(mark: nat, flush: nat, stranded: bool)

  /** What `close` found: the flush it awaits; whether that flush was out of its loop while something was not
      reconciled, or while a drain had not gone on after its run; and whether the close took away the one
      timer that would have resolved the idle waiters. */
  datatype Close = Close(awaited: nat, missed: bool, late: bool, silenced: bool)

  /** The signals among the first entries of the log were all reconciled. */
  ghost predicate Reconciled(log: seq<Entry>, mark: nat)
    requires mark <= |log|
  {
    forall i :: 0 <= i < mark && log[i].Accepted? ==>
      exists j, k :: Delivered(log, i, j) && j < k < |log| && log[k] == Ended(log[j].run)
  }

  /** Once its flush is out of its loop, a caller that was not stranded has had its signals reconciled. */
  ghost predicate Served(callers: set<Caller>, exited: nat, begun: nat, log: seq<Entry>) {
    forall c :: c in callers ==>
      && c.mark <= |log| && c.flush <= begun
      && (c.flush <= exited && !c.stranded ==> Reconciled(log, c.mark))
  }

  lemma ServedLater(callers: set<Caller>, exited: nat, begun: nat, log: seq<Entry>, rest: seq<Entry>)
    requires Served(callers, exited, begun, log)
    ensures Served(callers, exited, begun, log + rest)
  {
    var longer := log + rest;
    assert forall i :: 0 <= i < |log| ==> longer[i] == log[i];
    forall c | c in callers && c.flush <= exited && !c.stranded ensures Reconciled(longer, c.mark) {
      forall i | 0 <= i < c.mark && longer[i].Accepted?
        ensures exists j, k :: Delivered(longer, i, j) && j < k < |longer| && longer[k] == Ended(longer[j].run)
      {
        assert Reconciled(log, c.mark);
        assert log[i].Accepted?;
        var j, k :| Delivered(log, i, j) && j < k < |log| && log[k] == Ended(log[j].run);
        assert Delivered(longer, i, j) && longer[k] == Ended(longer[j].run);
      }
    }
  }

  /** One more call: of a flush in its loop, or of one out of it with everything reconciled, or stranded. */
  lemma ServedJoined(callers: set<Caller>, exited: nat, begun: nat, log: seq<Entry>, stranded: bool)
    requires Served(callers, exited, begun, log)
    requires exited < begun || stranded || AllReconciled(log)
    ensures Served(callers + {Caller(|log|, begun, stranded)}, exited, begun, log)
  {
  }

  lemma ServedBegun(callers: set<Caller>, exited: nat, begun: nat, log: seq<Entry>)
    requires Served(callers, exited, begun, log)
    ensures Served(callers, exited, begun + 1, log)
  {
  }

  /** A flush that leaves its loop with everything reconciled serves everybody. */
  lemma ServedByTheLoop(callers: set<Caller>, exited: nat, begun: nat, log: seq<Entry>)
    requires Served(callers, exited, begun, log) && AllReconciled(log)
    ensures Served(callers, begun, begun, log)
  {
    forall c | c in callers && !c.stranded ensures Reconciled(log, c.mark) {
    }
  }

  class Queue {
    const debounce: nat
    const maxCoalesce: nat
    var roots: set<string>
    var kinds: set<Kind>
    var firstSignalAt: Option<int>
    /** When the armed timer is due. */
    var timer: Option<int>
    /** The run whose drain has not continued yet. */
    var running: Option<nat>
    var flush: Flush
    var state: State
    var waiters: set<nat>
    var failed: bool
    var generation: nat
    var runs: nat
    /** Flushes are numbered: the last one begun, the last one out of its loop, the last one whose promise was
        cleared. */
    ghost var begun: nat
    ghost var exited: nat
    ghost var ended: nat
    /** Everybody who ever called `flush`, the one call of `close` included. */
    ghost var callers: set<Caller>
    ghost var closed: Close
    ghost var now: int
    /** When the last signal was accepted or the last run's drain went on. */
    ghost var edge: int
    ghost var log: seq<Entry>

    predicate Idle() reads this {
      timer.None? && running.None? && roots == {}
    }

    predicate InLoop() reads this {
      flush.AwaitsRun? || flush.AwaitsDrain?
    }

    ghost predicate Valid() reads this {
      && Faithful(log) && roots == PendingRoots(log) && kinds == PendingKinds(log)
      && (ActiveRun(log).Some? ==> running == ActiveRun(log))
      && (running.Some? ==> running.value < runs)
      && (firstSignalAt.Some? <==> roots != {})
      && (flush.AwaitsRun? || flush.AwaitsDrain? ==> flush.run < runs)
      && ended <= exited <= begun <= exited + 1 && begun <= ended + 1
      && (InLoop() <==> exited < begun) && (flush.Returned? <==> ended < exited)
      && Punctual() && Shutdown()
      && (waiters != {} && Idle() ==> InLoop() || closed.silenced)
      && Served(callers, exited, begun, log)
      && edge <= now
    }

    /** Signals cannot be starved: whenever something is pending and neither a run nor a flush will take
        it, a timer is armed, and it is due at the time the debounce and coalescing windows give. */
    ghost predicate Punctual() reads this {
      roots != {} && running.None? && !InLoop() && !closed.missed ==>
        firstSignalAt.Some? && timer == Some(Max(edge, Min(edge + debounce, firstSignalAt.value + maxCoalesce)))
    }

    /** Once the flush `close` awaits is out of its loop, nothing is pending and nothing runs. */
    ghost predicate Shutdown() reads this {
      && (state.Open? ==> !closed.missed)
      && (!state.Open? ==> closed.awaited <= begun)
      && (!state.Open? && closed.awaited <= exited && !closed.missed ==> roots == {} && ActiveRun(log).None?)
      && (!state.Open? && closed.awaited <= exited && !closed.missed && !closed.late ==> running.None?)
      && (state.Closed? ==> closed.awaited <= exited)
    }

    constructor (debounce: nat, maxCoalesce: nat)
      requires debounce <= maxCoalesce
      ensures this.debounce == debounce && this.maxCoalesce == maxCoalesce && !failed && generation == 0
      ensures Valid() && log == [] && state.Open? && Idle() && flush.NoFlush? && now == 0
    {
      this.debounce, this.maxCoalesce := debounce, maxCoalesce;
      roots, kinds, firstSignalAt, timer, running := {}, {}, None, None, None;
      flush, state, waiters, failed, generation, runs := NoFlush, Open, {}, false, 0, 0;
      begun, exited, ended, now, edge, log := 0, 0, 0, 0, 0, [];
      callers, closed := {}, Close(0, false, false, false);
    }

    ghost method Pass(to: int)
      requires Valid() && now <= to
      modifies this`now
      ensures Valid() && now == to
    {
      hide Faithful, PendingRoots, PendingKinds, ActiveRun, AllReconciled, Served;
      now := to;
    }

    method Arm(at: int)
      requires firstSignalAt.Some?
      modifies this`timer
      ensures timer == Some(Max(at, Min(at + debounce, firstSignalAt.value + maxCoalesce)))
    {
      hide Faithful, PendingRoots, PendingKinds, ActiveRun, AllReconciled, Served;
      var delay := Min(at + debounce, firstSignalAt.value + maxCoalesce) - at;
      timer := Some(at + Max(0, delay));
    }

    method Schedule(root: string, kind: Kind, at: int)
      requires Valid() && at == now
      modifies this`generation, this`roots, this`kinds, this`firstSignalAt, this`edge, this`log, this`timer
      ensures Valid() && (old(state).Open? ==> firstSignalAt.Some?)
      ensures old(state).Open? ==>
        log == old(log) + [Accepted(root, kind)] && root in roots && kind in kinds && generation == old(generation) + 1
      ensures old(state).Open? ==> edge == at
      ensures !old(state).Open? ==> log == old(log) && roots == old(roots)
      ensures timer ==
        if !old(state).Open? || running.Some? then old(timer)
        else Some(Max(at, Min(at + debounce, firstSignalAt.value + maxCoalesce)))
      ensures ActiveRun(log) == ActiveRun(old(log))
    {
      hide Faithful, PendingRoots, PendingKinds, ActiveRun, AllReconciled, Served;
      if state != Open { return; }
      Accept(root, kind, at);
      if running.Some? { return; }
      Arm(at);
    }

    method Accept(root: string, kind: Kind, at: int)
      requires Faithful(log) && roots == PendingRoots(log) && kinds == PendingKinds(log)
      requires Served(callers, exited, begun, log)
      modifies this`generation, this`roots, this`kinds, this`firstSignalAt, this`edge, this`log
      ensures Faithful(log) && roots == PendingRoots(log) && kinds == PendingKinds(log)
      ensures ActiveRun(log) == ActiveRun(old(log))
      ensures log == old(log) + [Accepted(root, kind)] && root in roots && kind in kinds
      ensures generation == old(generation) + 1 && edge == at && Served(callers, exited, begun, log)
      ensures firstSignalAt == if old(firstSignalAt).None? then Some(at) else old(firstSignalAt)
    {
      hide Faithful, PendingRoots, PendingKinds, ActiveRun;
      generation := generation + 1;
      roots, kinds := roots + {root}, kinds + {kind};
      if firstSignalAt.None? { firstSignalAt := Some(at); }
      edge := at;
      LogGrows(log, Accepted(root, kind));
      ServedLater(callers, exited, begun, log, [Accepted(root, kind)]);
      log := log + [Accepted(root, kind)];
    }

    /** Whoever waits is told, if the queue is idle, and nobody otherwise. */
    method ResolveIdle()
      modifies this`waiters
      ensures waiters == if Idle() then {} else old(waiters)
    {
      if !Idle() { return; }
      waiters := {};
    }

    /** Starts a run with everything pending, unless one is under way. */
    method Drain() returns (run: Option<nat>)
      requires Faithful(log) && roots == PendingRoots(log) && kinds == PendingKinds(log)
      requires ActiveRun(log).Some? ==> running == ActiveRun(log)
      requires Served(callers, exited, begun, log)
      modifies this`roots, this`kinds, this`firstSignalAt, this`running, this`runs, this`waiters, this`log
      ensures waiters == if Idle() then {} else old(waiters)
      ensures Served(callers, exited, begun, log)
      ensures Faithful(log) && roots == PendingRoots(log) && kinds == PendingKinds(log)
      ensures ActiveRun(log).Some? ==> running == ActiveRun(log)
      ensures old(running).Some? ==>
        && run.None? && log == old(log) && running == old(running) && roots == old(roots)
        && firstSignalAt == old(firstSignalAt) && runs == old(runs)
      ensures old(running).None? && old(roots) == {} ==>
        && run.None? && log == old(log) && running.None? && roots == {} && firstSignalAt == old(firstSignalAt)
        && runs == old(runs)
      ensures old(running).None? && old(roots) != {} ==>
        && run == Some(old(runs)) && running == run && runs == old(runs) + 1 && roots == {} && firstSignalAt.None?
        && log == old(log) + [Started(old(runs), old(roots), old(kinds))]
    {
      hide Faithful, PendingRoots, PendingKinds, ActiveRun, AllReconciled, Served;
      run := None;
      if running.Some? { return; }
      if roots == {} {
        ResolveIdle();
        return;
      }
      run, running := Some(runs), Some(runs);
      LogGrows(log, Started(runs, roots, kinds));
      ServedLater(callers, exited, begun, log, [Started(runs, roots, kinds)]);
      log := log + [Started(runs, roots, kinds)];
      runs := runs + 1;
      roots, kinds, firstSignalAt := {}, {}, None;
    }

    method FireTimer()
      requires Valid() && timer.Some?
      modifies this`timer, this`roots, this`kinds, this`firstSignalAt, this`running, this`runs, this`waiters, this`log
      ensures timer.None? && (old(running).Some? || old(roots) == {} ==> log == old(log))
      ensures old(running).None? && old(roots) != {} ==>
        log == old(log) + [Started(old(runs), old(roots), old(kinds))]
      ensures waiters == if Idle() then {} else old(waiters)
      ensures Valid() && (running.Some? || roots == {})
    {
      hide Faithful, PendingRoots, PendingKinds, ActiveRun, AllReconciled, Served;
      timer := None;
      var run := Drain();
    }

    /** The reconciliation itself ends, well or badly. */
    method RunCompletes(badly: bool)
      requires Valid() && ActiveRun(log).Some?
      modifies this`log, this`failed
      ensures failed == (old(failed) || badly)
      ensures Valid() && ActiveRun(log).None? && log == old(log) + [Ended(old(ActiveRun(log)).value)]
    {
      hide Faithful, PendingRoots, PendingKinds, ActiveRun, AllReconciled, Served;
      LogGrows(log, Ended(ActiveRun(log).value));
      ServedLater(callers, exited, begun, log, [Ended(ActiveRun(log).value)]);
      log := log + [Ended(ActiveRun(log).value)];
      if badly { failed := true; }
    }

    /** The drain that started the run goes on once it has ended. */
    method DrainContinues(at: int)
      requires Valid() && running.Some? && ActiveRun(log).None? && at == now
      modifies this`running, this`edge, this`timer, this`waiters
      ensures Valid() && running.None? && edge == at && (roots != {} ==> timer.Some?)
      ensures timer == if roots == {} then old(timer)
        else Some(Max(at, Min(at + debounce, firstSignalAt.value + maxCoalesce)))
      ensures waiters == if Idle() then {} else old(waiters)
    {
      hide Faithful, PendingRoots, PendingKinds, ActiveRun, AllReconciled, Served;
      running := None;
      edge := at;
      if roots != {} {
        Arm(at);
      } else {
        ResolveIdle();
      }
    }

    /** `flush`: joins the one under way, or begins a new one. Its caller is stranded exactly if it joins a
        flush that is out of its loop while something is not reconciled. */
    method BeginFlush() returns (joined: bool, threw: bool)
      requires Valid()
      modifies this`timer, this`flush, this`begun, this`exited, this`callers
      modifies this`roots, this`kinds, this`firstSignalAt, this`running, this`runs, this`waiters, this`log, this`failed
      ensures Valid() && joined == !old(flush).NoFlush?
      ensures joined ==> waiters == old(waiters) && timer == old(timer)
      ensures !joined ==> timer.None? && (waiters == if Idle() then {} else old(waiters))
      ensures threw == (!joined && flush.Returned? && old(failed))
      ensures failed == (old(failed) && !threw)
      ensures callers == old(callers) + {Caller(|old(log)|, begun, old(flush).Returned? && !AllReconciled(old(log)))}
      ensures !joined && old(running).None? && old(roots) == {} ==>
        flush.Returned? && log == old(log) && running.None? && roots == {}
      ensures !joined && old(running).None? && old(roots) != {} ==>
        && running == Some(old(runs)) == ActiveRun(log) && flush == AwaitsDrain(old(runs)) && roots == {}
      ensures joined ==> flush == old(flush) && log == old(log) && roots == old(roots) && running == old(running)
      ensures flush.Returned? && !joined ==> AllReconciled(log)
    {
      hide Faithful, PendingRoots, PendingKinds, ActiveRun, AllReconciled, Served;
      joined := !flush.NoFlush?;
      if joined {
        threw := false;
        JoinCounted(flush.Returned? && !AllReconciled(log));
        return;
      }
      BeginCounted();
      timer := None;
      threw := FlushLoop();
    }

    ghost method JoinCounted(stranded: bool)
      requires Served(callers, exited, begun, log)
      requires exited < begun || stranded || AllReconciled(log)
      modifies this`callers
      ensures Served(callers, exited, begun, log)
      ensures callers == old(callers) + {Caller(|log|, begun, stranded)}
    {
      ServedJoined(callers, exited, begun, log, stranded);
      callers := callers + {Caller(|log|, begun, stranded)};
    }

    ghost method BeginCounted()
      requires Served(callers, exited, begun, log) && exited == begun
      modifies this`begun, this`callers
      ensures Served(callers, exited, begun, log) && begun == old(begun) + 1
      ensures callers == old(callers) + {Caller(|log|, begun, false)}
    {
      ServedBegun(callers, exited, begun, log);
      begun := begun + 1;
      ServedJoined(callers, exited, begun, log, false);
      callers := callers + {Caller(|log|, begun, false)};
    }

    /** What holds whenever the flush under way looks at its loop condition. */
    ghost predicate AtLoopHead() reads this {
      && Faithful(log) && roots == PendingRoots(log) && kinds == PendingKinds(log)
      && (ActiveRun(log).Some? ==> running == ActiveRun(log))
      && (running.Some? ==> running.value < runs) && (firstSignalAt.Some? <==> roots != {}) && edge <= now
      && ended == exited && begun == exited + 1 && Served(callers, exited, begun, log)
      && Shutdown()
    }

    /** Nothing is pending and nothing runs: the flush leaves its loop, and reports a run that went badly. */
    method LeaveLoop() returns (threw: bool)
      requires AtLoopHead() && running.None? && roots == {}
      modifies this`flush, this`exited, this`waiters, this`failed
      ensures Valid() && flush.Returned? && AllReconciled(log)
      ensures waiters == if Idle() then {} else old(waiters)
      ensures threw == old(failed) && !failed
    {
      hide Faithful, PendingRoots, PendingKinds, ActiveRun, AllReconciled, Served, Min, Max;
      ResolveIdle();
      threw, failed := failed, false;
      QuietMeansAllReconciled(log);
      ServedByTheLoop(callers, exited, begun, log);
      flush, exited := Returned, exited + 1;
    }

    /** The head of the flush loop, up to its next await. */
    method FlushLoop() returns (threw: bool)
      requires AtLoopHead()
      modifies this`flush, this`exited, this`roots, this`kinds, this`firstSignalAt, this`running, this`runs
      modifies this`waiters, this`log, this`failed
      ensures Valid() && flush != NoFlush
      ensures old(running).None? && old(roots) == {} ==>
        && flush.Returned? && log == old(log) && running.None? && roots == {}
      ensures old(running).None? && old(roots) != {} ==>
        && running == Some(old(runs)) == ActiveRun(log) && flush == AwaitsDrain(old(runs)) && roots == {}
      ensures waiters == if Idle() then {} else old(waiters)
      ensures threw == (flush.Returned? && old(failed)) && failed == (old(failed) && !threw)
      ensures old(running).Some? ==> flush == AwaitsRun(old(running).value) && log == old(log)
      ensures old(running).None? && old(roots) != {} ==> log == old(log) + [Started(old(runs), old(roots), old(kinds))]
      ensures old(log) <= log
      ensures flush.Returned? ==> AllReconciled(log)
    {
      hide Faithful, PendingRoots, PendingKinds, ActiveRun, AllReconciled, Served, Min, Max;
      threw := false;
      if running.Some? {
        flush := AwaitsRun(running.value);
        return;
      }
      if roots != {} {
        LogGrows(log, Started(runs, roots, kinds));
        var run := Drain();
        flush := AwaitsDrain(run.value);
        return;
      }
      threw := LeaveLoop();
    }

    /** What the flush awaited has happened. When it leaves its loop, everything accepted so far has been
        reconciled. */
    method ResumeFlush() returns (threw: bool)
      requires Valid() && InLoop()
      requires flush.AwaitsRun? ==> ActiveRun(log) != Some(flush.run)
      requires flush.AwaitsDrain? ==> running != Some(flush.run)
      modifies this`flush, this`exited, this`roots, this`kinds, this`firstSignalAt, this`running, this`runs
      modifies this`waiters, this`log, this`failed
      ensures threw == (flush.Returned? && old(failed)) && failed == (old(failed) && !threw)
      ensures waiters == if Idle() then {} else old(waiters)
      ensures Valid() && (flush.Returned? ==> AllReconciled(log))
      ensures old(running).Some? ==> flush == AwaitsRun(old(running).value) && log == old(log)
      ensures old(running).None? ==>
        if old(roots) == {} then flush.Returned? && log == old(log) && running.None? && roots == {}
        else
          && running == Some(old(runs)) == ActiveRun(log) && flush == AwaitsDrain(old(runs)) && roots == {}
          && log == old(log) + [Started(old(runs), old(roots), old(kinds))]
    {
      hide Faithful, PendingRoots, PendingKinds, ActiveRun, AllReconciled, Served;
      if flush.AwaitsRun? && roots != {} {
        LogGrows(log, Started(runs, roots, kinds));
        var run := Drain();
        flush := if run.Some? then AwaitsDrain(run.value) else AwaitsRun(running.value);
        return false;
      }
      threw := FlushLoop();
    }

    /** The promise of a flush that left its loop is cleared: its callers are told that it is over, and those
        that were not stranded have had their signals reconciled. */
    method EndFlush()
      requires Valid() && flush.Returned?
      modifies this`flush, this`ended
      ensures Valid() && flush.NoFlush? && ended == exited
      ensures forall c :: c in callers && c.flush <= ended && !c.stranded ==> c.mark <= |log| && Reconciled(log, c.mark)
    {
      hide Faithful, PendingRoots, PendingKinds, ActiveRun, AllReconciled;
      flush, ended := NoFlush, exited;
    }

    method WhenIdle(waiter: nat) returns (immediately: bool)
      requires Valid()
      modifies this`waiters
      ensures Valid() && immediately == Idle()
      ensures waiters == if immediately then old(waiters) else old(waiters) + {waiter}
    {
      hide Faithful, PendingRoots, PendingKinds, ActiveRun, AllReconciled, Served;
      immediately := Idle();
      if !immediately {
        waiters := waiters + {waiter};
      }
    }

    /** `close`: no signal is accepted any more, and the flush under way, or a new one, is awaited. If that
        flush is already out of its loop, what was not reconciled by then is missed. */
    method BeginClose() returns (joined: bool, threw: bool)
      requires Valid() && state.Open?
      modifies this`state, this`closed, this`timer, this`flush, this`begun
      modifies this`exited, this`callers, this`roots, this`kinds, this`firstSignalAt, this`running, this`runs
      modifies this`waiters, this`log, this`failed
      ensures Valid() && state.Closing? && old(log) <= log
      ensures joined == !old(flush).NoFlush? && timer.None?
      ensures !joined ==> waiters == if Idle() then {} else old(waiters)
      ensures threw == (!joined && flush.Returned? && old(failed)) && failed == (old(failed) && !threw)
      ensures callers == old(callers)
        + {Caller(|old(log)|, begun, old(flush).Returned? && !AllReconciled(old(log)))}
      ensures joined ==>
        && closed.awaited == begun == old(begun) && flush == old(flush) && exited == old(exited) && log == old(log)
        && roots == old(roots) && running == old(running) && waiters == old(waiters)
      ensures closed.missed <==> old(flush).Returned? && !AllReconciled(old(log))
      ensures closed.missed <==> old(flush).Returned? && (old(roots) != {} || ActiveRun(old(log)).Some?)
      ensures old(flush).Returned? ==> closed.awaited == exited
      ensures closed.late <==> old(flush).Returned? && old(running).Some?
      ensures closed.silenced <==> old(flush).Returned? && Idle() && waiters != {}
    {
      hide Faithful, PendingRoots, PendingKinds, ActiveRun, AllReconciled, Served, Min, Max;
      joined := !flush.NoFlush?;
      if joined {
        threw := false;
        JoinCounted(flush.Returned? && !AllReconciled(log));
        CloseJoining();
        return;
      }
      state, timer, closed := Closing, None, Close(begun + 1, false, false, false);
      BeginCounted();
      threw := FlushLoop();
    }

    /** The close that finds a flush under way awaits that one. */
    method CloseJoining()
      requires Valid() && state.Open? && !flush.NoFlush?
      modifies this`state, this`closed, this`timer
      ensures Valid() && state.Closing? && timer.None? && closed.awaited == begun
      ensures closed.missed <==> flush.Returned? && !AllReconciled(log)
      ensures closed.missed <==> flush.Returned? && (roots != {} || ActiveRun(log).Some?)
      ensures closed.late <==> flush.Returned? && running.Some?
      ensures closed.silenced <==> flush.Returned? && Idle() && waiters != {}
    {
      hide Faithful, PendingRoots, PendingKinds, ActiveRun, AllReconciled, Served, Min, Max;
      ReconciledIsQuiet(log);
      state, timer := Closing, None;
      closed := Close(
        begun, flush.Returned? && !AllReconciled(log), flush.Returned? && running.Some?,
        flush.Returned? && running.None? && roots == {} && waiters != {});
    }

    /** The flush that `close` awaited is over. */
    method EndClose()
      requires Valid() && state.Closing? && closed.awaited <= ended
      modifies this`state
      ensures Valid() && state.Closed?
      ensures !closed.missed ==> roots == {} && ActiveRun(log).None? && AllReconciled(log)
      ensures !closed.missed && !closed.late ==> running.None?
    {
      hide Faithful, PendingRoots, PendingKinds, ActiveRun, AllReconciled, Served;
      state := Closed;
      if !closed.missed {
        QuietMeansAllReconciled(log);
      }
    }
  }

  // ----- the gap between a flush's last look and the clearing of its promise ---------------------------

  /** Whatever the queue: a caller that joins in the gap is told at once that the flush is over, and it is
      served exactly if nothing was pending and no run under way when it joined. */
  method JoinInTheGap(queue: Queue) returns (joined: bool)
    requires queue.Valid() && queue.flush.Returned?
    modifies queue
    ensures queue.Valid() && joined && queue.flush.NoFlush? && queue.log == old(queue.log)
    ensures AllReconciled(queue.log) <==> old(queue.roots) == {} && ActiveRun(old(queue.log)).None?
  {
    hide Faithful, PendingRoots, PendingKinds, ActiveRun, AllReconciled, Served;
    ReconciledIsQuiet(queue.log);
    var threw: bool;
    joined, threw := queue.BeginFlush();
    queue.EndFlush();
  }

  /** Whatever the queue: a close that falls into the gap while no run holds the drain closes the queue with
      the same signals pending, nothing running, no flush and no timer, so that they are reconciled exactly if
      there are none. */
  method CloseInTheGap(queue: Queue)
    requires queue.Valid() && queue.state.Open? && queue.flush.Returned? && queue.running.None?
    modifies queue
    ensures queue.Valid() && queue.state.Closed? && queue.log == old(queue.log)
    ensures queue.roots == old(queue.roots) && queue.running.None? && queue.flush.NoFlush? && queue.timer.None?
    ensures AllReconciled(queue.log) <==> old(queue.roots) == {}
  {
    hide Faithful, PendingRoots, PendingKinds, ActiveRun, AllReconciled, Served;
    ReconciledIsQuiet(queue.log);
    var joined, threw := queue.BeginClose();
    queue.EndFlush();
    queue.EndClose();
  }

  /** The gap is reached with anything pending: a flush of an idle queue, then a signal. */
  method SignalInTheGap(root: string, kind: Kind) returns (queue: Queue)
    ensures fresh(queue) && queue.Valid() && queue.state.Open? && queue.flush.Returned? && queue.running.None?
    ensures root in queue.roots && !AllReconciled(queue.log)
  {
    hide Faithful, PendingRoots, PendingKinds, ActiveRun, AllReconciled, Served;
    queue := new Queue(0, 0);
    var joined, threw := queue.BeginFlush();
    queue.Schedule(root, kind, 0);
    ReconciledIsQuiet(queue.log);
  }

  /** A drain inside a flush that ends with a signal accepted meanwhile arms a timer. */
  method TimerInTheFlush(root: string, kind: Kind) returns (queue: Queue)
    ensures fresh(queue) && queue.Valid() && queue.state.Open? && queue.flush.AwaitsDrain?
    ensures queue.roots == {} && queue.timer.Some? && queue.now == 0
    ensures queue.running.Some? && queue.running == ActiveRun(queue.log)
  {
    hide Queue.Valid, Queue.Idle, Min, Max, RootsAfter, RunAfter, Faithful, PendingRoots, PendingKinds;
    hide ActiveRun, AllReconciled, Served;
    queue := SignalInTheFlush(root, kind);
    queue.RunCompletes(false);
    queue.DrainContinues(0);
    var threw := queue.ResumeFlush();
  }

  /** A signal is accepted while a flush awaits the drain it started for an earlier one. */
  method SignalInTheFlush(root: string, kind: Kind) returns (queue: Queue)
    ensures fresh(queue) && queue.Valid() && queue.state.Open? && queue.flush.AwaitsDrain? && queue.roots != {}
    ensures queue.running == Some(queue.flush.run) == ActiveRun(queue.log) && queue.now == 0
  {
    hide Queue.Valid, Queue.Idle, Min, Max, RootsAfter, RunAfter, Faithful, PendingRoots, PendingKinds;
    hide ActiveRun, AllReconciled, Served;
    queue := new Queue(0, 0);
    queue.Schedule(root, kind, 0);
    var joined, threw := queue.BeginFlush();
    queue.Schedule(root, kind, 0);
  }

  /** The gap is reached with nothing pending but that timer left and somebody waiting for the queue to be
      idle. */
  method TimerInTheGap(root: string, kind: Kind, waiter: nat) returns (queue: Queue)
    ensures fresh(queue) && queue.Valid() && queue.state.Open? && queue.flush.Returned? && AllReconciled(queue.log)
    ensures queue.roots == {} && queue.running.None? && queue.timer.Some? && waiter in queue.waiters
  {
    hide Queue.Valid, Faithful, PendingRoots, PendingKinds, ActiveRun, AllReconciled, Served;
    queue := TimerInTheFlush(root, kind);
    var immediately := queue.WhenIdle(waiter);
    queue.RunCompletes(false);
    queue.DrainContinues(0);
    var threw := queue.ResumeFlush();
  }

  /** A close there takes the timer away and resolves nobody: the closed queue is idle, everything is
      reconciled, and the waiter still waits. */
  method WaiterInTheGap(root: string, kind: Kind, waiter: nat) returns (queue: Queue)
    ensures fresh(queue) && queue.Valid() && queue.state.Closed? && queue.Idle() && queue.flush.NoFlush?
    ensures waiter in queue.waiters && AllReconciled(queue.log)
  {
    hide Queue.Valid, Faithful, PendingRoots, PendingKinds, ActiveRun, AllReconciled, Served;
    queue := TimerInTheGap(root, kind, waiter);
    var joined, threw := queue.BeginClose();
    queue.EndFlush();
    queue.EndClose();
  }
}
