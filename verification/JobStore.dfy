/** The durable table of heavy jobs. Each operation is one database transaction, so a crash falls
    between two of them, never inside. */
module JobStore {
  import opened Wrappers
  import opened Sets

  type JobId = nat

  datatype JobState = Queued | Running | Succeeded | Failed | Cancelled | TimedOut | Interrupted

  datatype StopReason = ByUser | ByTimeout | ByInterruption

  /** Process identifiers are those of the supervisor's records. */
  datatype Job = Job(
    sequence: nat, worktree: nat, state: JobState, slotHeld: bool,
    processId: Option<nat>, anchorPid: Option<nat>, stopReason: Option<StopReason>,
    startedAt: int, timeoutMs: nat, memoryEstimate: Option<nat>,
    exitCode: Option<int>, signal: Option<string>, error: Option<string>)

  /** The state of a job that was stopped says who stopped it. */
  function StateOf(reason: StopReason): (state: JobState)
    ensures state.Cancelled? <==> reason.ByUser?
    ensures state.TimedOut? <==> reason.ByTimeout?
    ensures state.Interrupted? <==> reason.ByInterruption?
  {
    match reason
    case ByUser => Cancelled
    case ByTimeout => TimedOut
    case ByInterruption => Interrupted
  }

  predicate Finished(j: Job) {
    !j.state.Queued? && !j.state.Running?
  }

  /** A slot is held exactly while the job runs; only a job that ran is bound to anything; and a finished
      job shows the stop somebody asked for. */
  predicate Sound(j: Job) {
    && (j.slotHeld <==> j.state.Running?)
    && (j.state.Queued? ==> j.processId.None? && j.anchorPid.None? && j.stopReason.None?)
    && (Finished(j) && j.stopReason.Some? ==> j.state == StateOf(j.stopReason.value))
  }

  /** What no operation ever takes back. */
  predicate JobEvolves(a: Job, b: Job) {
    && b.sequence == a.sequence && b.worktree == a.worktree
    && (a.processId.Some? ==> b.processId == a.processId)
    && (a.anchorPid.Some? ==> b.anchorPid == a.anchorPid)
    && (a.stopReason.Some? ==>
          b.stopReason == a.stopReason
          || (a.stopReason == Some(ByInterruption) && b.stopReason == Some(ByTimeout)))
    && (!a.state.Queued? ==> !b.state.Queued? && b.startedAt == a.startedAt)
    && b.timeoutMs == a.timeoutMs && b.memoryEstimate == a.memoryEstimate
    && (Finished(a) ==> b == a)
  }

  /** Jobs keep what `JobEvolves` says. Only a finished job is deleted, and its number never comes back. */
  ghost predicate JobsEvolve(a: map<JobId, Job>, b: map<JobId, Job>, used: set<JobId>) {
    && (forall j :: j in a && j in b ==> JobEvolves(a[j], b[j]))
    && (forall j :: j in a && j !in b ==> Finished(a[j]))
    && (forall j :: j in b && j !in a ==> j !in used && b[j].state.Queued?)
  }

  /** What requests running beside the queue do. An existing job is left alone or asked by its user to stop,
      and it is deleted only if it is finished then; a new one is queued, or cancelled before it ran. */
  predicate MayBeAskedToStop(past: map<JobId, Job>, now: map<JobId, Job>) {
    && (forall j :: j in past && j in now ==> now[j] == past[j] || now[j] == Requested(past[j], ByUser))
    && (forall j :: j in past && j !in now ==> Finished(Requested(past[j], ByUser)))
    && (forall j :: j in now && j !in past ==> Unstarted(now[j]))
  }

  predicate Unstarted(j: Job) {
    && (j.state.Queued? || (j.state.Cancelled? && j.stopReason == Some(ByUser)))
    && !j.slotHeld && j.processId.None? && j.anchorPid.None?
  }

  function Requested(j: Job, reason: StopReason): Job {
    if j.state.Queued? then
      j.(state := StateOf(reason), stopReason := Some(reason),
         error := Some(if reason == ByUser then "USER_CANCELLED"
                       else if reason == ByTimeout then "TIMED_OUT" else "INTERRUPTED"))
    else if j.slotHeld && j.stopReason.None? then j.(stopReason := Some(reason))
    else j
  }

  /** The first request is the one that counts: it ends a queued job at once and is noted on a running one. Later
      ones, and one for a finished job, change nothing. */
  lemma FirstRequestCounts(j: Job, first: StopReason, second: StopReason)
    requires Sound(j)
    ensures var once := Requested(j, first);
      && Sound(once) && JobEvolves(j, once) && Requested(once, second) == once
      && (j.state.Queued? ==> Finished(once) && once.state == StateOf(first) && once.error.Some?)
      && (j.state.Queued? ==>
            && (once.error == Some("USER_CANCELLED") <==> first.ByUser?)
            && (once.error == Some("TIMED_OUT") <==> first.ByTimeout?)
            && (once.error == Some("INTERRUPTED") <==> first.ByInterruption?))
      && (j.state.Running? ==>
            once == j.(stopReason := if j.stopReason.Some? then j.stopReason else Some(first)))
      && (Finished(j) ==> once == j)
  {
  }

  /** A job that runs goes on running, bound as it was; at most it is asked to stop. */
  predicate RunsOn(a: Job, b: Job) {
    && a.state.Running? && b.state.Running? && b.processId == a.processId && b.anchorPid == a.anchorPid
    && b.error == a.error && b.startedAt == a.startedAt && b.timeoutMs == a.timeoutMs
    && StopMoved(a.stopReason, b.stopReason)
  }

  /** Nobody but its user asked a job to stop, if anybody did. */
  predicate StopMoved(a: Option<StopReason>, b: Option<StopReason>) {
    b == a || (a.None? && b == Some(ByUser))
  }

  lemma AskedRunsOn(past: map<JobId, Job>, now: map<JobId, Job>, j: JobId)
    requires MayBeAskedToStop(past, now) && j in past && past[j].state.Running?
    ensures j in now && RunsOn(past[j], now[j])
  {
  }

  /** Every other running job runs on. */
  predicate OthersRunOn(past: map<JobId, Job>, now: map<JobId, Job>, j: JobId) {
    forall k :: k in past && k != j && past[k].state.Running? ==> k in now && RunsOn(past[k], now[k])
  }

  lemma AskedOthersRunOn(past: map<JobId, Job>, now: map<JobId, Job>, j: JobId)
    requires MayBeAskedToStop(past, now)
    ensures OthersRunOn(past, now, j)
  {
  }

  lemma OthersRunFurther(a: map<JobId, Job>, b: map<JobId, Job>, c: map<JobId, Job>, j: JobId)
    requires OthersRunOn(a, b, j) && OthersRunOn(b, c, j)
    ensures OthersRunOn(a, c, j)
  {
  }

  lemma OthersSame(jobs: map<JobId, Job>, j: JobId)
    ensures OthersRunOn(jobs, jobs, j)
  {
  }

  lemma OneChanged(past: map<JobId, Job>, j: JobId, row: Job)
    ensures OthersRunOn(past, past[j := row], j)
  {
  }

  function TimeoutConfirmed(j: Job): Job {
    if j.state.Running? && j.slotHeld && (j.stopReason.None? || j.stopReason == Some(ByInterruption))
    then j.(stopReason := Some(ByTimeout)) else j
  }

  /** Recording the end. The error text follows the stop reason that prevails. */
  function Closed(j: Job, state: JobState, exitCode: Option<int>, signal: Option<string>, error: Option<string>): Job {
    if !j.state.Queued? && !j.slotHeld then j
    else j.(
      state := if j.stopReason.Some? then StateOf(j.stopReason.value) else state,
      slotHeld := false, exitCode := exitCode, signal := signal,
      error := match j.stopReason
        case None => error
        case Some(ByUser) => Some("USER_CANCELLED")
        case Some(ByTimeout) => if state.TimedOut? && error.Some? then error else Some("TIMEOUT")
        case Some(ByInterruption) =>
          if state.Interrupted? && error.Some? then error
          else if j.error.Some? then j.error else Some("DAEMON_INTERRUPTED"))
  }

  lemma ClosedIsFinal(j: Job, state: JobState, exitCode: Option<int>, signal: Option<string>, error: Option<string>)
    requires Sound(j) && !state.Queued? && !state.Running?
    requires j.state.Queued? ==> state != Succeeded
    ensures var c := Closed(j, state, exitCode, signal, error);
      && Sound(c) && Finished(c) && !c.slotHeld && JobEvolves(j, c)
      && (c.state.Succeeded? && !Finished(j) <==> state.Succeeded? && j.stopReason.None? && !Finished(j))
  {
  }

  /** A closed job says why it ended: an error given for the reason that prevails is kept, and one given for another
      outcome gives way to that reason's own. */
  lemma WhyClosed(j: Job, state: JobState, exitCode: Option<int>, signal: Option<string>, error: Option<string>,
      reason: StopReason)
    requires j.slotHeld
    ensures j.stopReason.None? ==> Closed(j, state, exitCode, signal, error).error == error
    ensures j.stopReason == Some(reason) ==>
      var c := Closed(j, state, exitCode, signal, error);
      && c.error.Some?
      && (!reason.ByUser? && state == StateOf(reason) && error.Some? ==> c.error == error)
      && (reason.ByUser? || state != StateOf(reason) || error.None? ==>
            c.error == if reason.ByInterruption? && j.error.Some? then j.error
                       else Some(if reason.ByUser? then "USER_CANCELLED"
                                 else if reason.ByTimeout? then "TIMEOUT" else "DAEMON_INTERRUPTED"))
  {
  }

  const COMPLETION_UNREADABLE := "COMPLETION_UNREADABLE"

  /** The authenticated marker an anchor writes about its task. */
  datatype Completion = Completion(exitCode: Option<int>, signal: Option<string>,
      timedOut: bool, logFailed: bool, completedAt: int)

  datatype ObservedExit = ObservedExit(exitCode: Option<int>, signal: Option<string>, exitedAt: int)

  /** What the poll that ended a job went by. `unreadable` says that a marker failed to read since the last
      one that was valid; `distrusted` that the poll still held an older failure against the job; `recovered`
      that the daemon running the poll did not start the job. */
  datatype Verdict = Verdict(marker: Option<Completion>, observed: Option<ObservedExit>,
      unreadable: bool, distrusted: bool, recovered: bool)

  /** Evidence good enough to call a job successful. */
  predicate Convincing(v: Verdict) {
    && !v.unreadable
    && match v.marker
       case Some(c) => c.exitCode == Some(0) && c.signal.None? && !c.logFailed && !c.timedOut
       case None =>
         !v.recovered && v.observed.Some?
         && v.observed.value.exitCode == Some(0) && v.observed.value.signal.None?
  }

  /** The memory policy, and the size of the host as it was measured. */
  datatype Memory = Memory(budget: nat, reserve: nat, total: Option<nat>)

  function Capacity(m: Memory): nat {
    if m.total.None? then m.budget
    else
      var available := if m.total.value > m.reserve then m.total.value - m.reserve else 0;
      if available < m.budget then available else m.budget
  }

  /** A queued job whose estimate is missing or can never fit. */
  predicate Unfit(j: Job, memory: Option<Memory>) {
    && memory.Some? && j.state.Queued?
    && (j.memoryEstimate.None? || j.memoryEstimate.value == 0 || j.memoryEstimate.value > Capacity(memory.value))
  }

  function FailedByPolicy(j: Job): Job {
    j.(state := Failed, error := Some(if j.memoryEstimate.None? || j.memoryEstimate.value == 0
                                      then "WTM_JOB_MEMORY_ESTIMATE_REQUIRED" else "WTM_JOB_MEMORY_BUDGET_EXCEEDED"))
  }

  /** A queued job is fit exactly if its estimate is positive, within the budget, and leaves the reserve of a measured
      host alone; which of the two it lacks is the error it is failed with. */
  lemma WhatFits(j: Job, m: Memory)
    requires j.state.Queued?
    ensures !Unfit(j, Some(m)) <==>
      && j.memoryEstimate.Some? && 0 < j.memoryEstimate.value <= m.budget
      && (m.total.Some? ==> j.memoryEstimate.value + m.reserve <= m.total.value)
    ensures var failed := FailedByPolicy(j);
      && failed.state.Failed? && failed == j.(state := Failed, error := failed.error)
      && (failed.error == Some("WTM_JOB_MEMORY_ESTIMATE_REQUIRED") <==> j.memoryEstimate in {None, Some(0)})
      && (failed.error == Some("WTM_JOB_MEMORY_BUDGET_EXCEEDED") <==> j.memoryEstimate !in {None, Some(0)})
  {
  }

  /** The table after the policy has failed what it no longer admits. */
  function UnderPolicy(jobs: map<JobId, Job>, memory: Option<Memory>): map<JobId, Job> {
    map j | j in jobs :: if Unfit(jobs[j], memory) then FailedByPolicy(jobs[j]) else jobs[j]
  }

  function Held(jobs: map<JobId, Job>): set<JobId> {
    set j | j in jobs && jobs[j].slotHeld
  }

  /** The job to start next, if any may be: no queued one is older. */
  ghost predicate Oldest(jobs: map<JobId, Job>, j: JobId) {
    && j in jobs && jobs[j].state.Queued?
    && forall k :: k in jobs && jobs[k].state.Queued? ==> jobs[j].sequence <= jobs[k].sequence
  }

  ghost predicate WorktreeBusy(jobs: map<JobId, Job>, j: JobId)
    requires j in jobs
  {
    exists k :: k in Held(jobs) && jobs[k].worktree == jobs[j].worktree
  }

  /** Why no job may start: every slot is taken, nothing is queued, or the oldest job waits for its worktree. */
  ghost predicate Blocked(jobs: map<JobId, Job>, maxConcurrent: nat) {
    || maxConcurrent <= |Held(jobs)| || (forall j :: j in jobs ==> !jobs[j].state.Queued?)
    || (exists j :: Oldest(jobs, j) && WorktreeBusy(jobs, j))
  }

  /** No worktree runs two jobs. */
  ghost predicate OnePerWorktree(jobs: map<JobId, Job>) {
    forall j, k :: j in jobs && k in jobs && j != k && jobs[j].slotHeld && jobs[k].slotHeld ==>
      jobs[j].worktree != jobs[k].worktree
  }

  class HeavyJobStore {
    var jobs: map<JobId, Job>
    const maxConcurrent: nat
    /** Every identifier ever issued; the source draws them at random and never draws one twice. */
    var used: set<JobId>
    /** Every binding of a job to a process record ever made. */
    ghost var bindings: set<(JobId, nat)>
    /** Jobs, with their process, whose completion marker failed to read since the last valid reading. */
    ghost var tainted: set<(JobId, nat)>
    /** The evidence each job was ended on. */
    ghost var verdicts: map<JobId, Verdict>

    /** A job whose marker could not be read says so in its row, unless a stop reason already decides it. */
    ghost predicate TaintIsRecorded(j: JobId, job: Job) reads this {
      (exists p :: (j, p) in tainted) ==>
        job.slotHeld && (job.error == Some(COMPLETION_UNREADABLE) || job.stopReason.Some?)
    }

    /** A job counts as successful only on convincing evidence. */
    ghost predicate SuccessIsProved(j: JobId, job: Job) reads this {
      job.state.Succeeded? ==> j in verdicts && Convincing(verdicts[j])
    }

    /** Jobs whose slot was given up. */
    ghost var released: set<JobId>

    ghost predicate Row(j: JobId, job: Job) reads this {
      && (Finished(job) && job.processId.Some? ==> j in released)
      && Sound(job) && j in used
      && (job.processId.Some? ==> (j, job.processId.value) in bindings)
      && TaintIsRecorded(j, job) && SuccessIsProved(j, job)
    }

    ghost predicate Valid() reads this {
      && 1 <= maxConcurrent
      && tainted <= bindings && (forall t :: t in tainted ==> t.0 in jobs)
      && (forall b :: b in bindings ==>
            b.0 in used && if b.0 in jobs then jobs[b.0].processId == Some(b.1) else b.0 in released)
      && (forall j :: j in jobs ==> Row(j, jobs[j]))
      && |Held(jobs)| <= maxConcurrent
      && OnePerWorktree(jobs)
    }

    /** The table only moved forward since it was `past`. */
    ghost predicate Follows(past: map<JobId, Job>, pastUsed: set<JobId>) reads this {
      pastUsed <= used && JobsEvolve(past, jobs, pastUsed)
    }

    constructor (maxConcurrent: nat)
      requires 1 <= maxConcurrent
      ensures Valid() && jobs == map[] && this.maxConcurrent == maxConcurrent
    {
      this.maxConcurrent, jobs, used, bindings, tainted, verdicts, released
        := maxConcurrent, map[], {}, {}, {}, map[], {};
      new;
      assert Held(jobs) == {};
    }

    /** Changing one job that keeps its slot, or gives it up, keeps the table valid. */
    lemma ReplaceOne(before: map<JobId, Job>, j: JobId, after: Job)
      requires |Held(before)| <= maxConcurrent && OnePerWorktree(before)
      requires j in before && Sound(after) && JobEvolves(before[j], after) && (after.slotHeld ==> before[j].slotHeld)
      ensures var now := before[j := after];
        && JobsEvolve(before, now, used) && |Held(now)| <= maxConcurrent && OnePerWorktree(now)
    {
      var now := before[j := after];
      assert Held(now) <= Held(before);
      SubsetSize(Held(now), Held(before));
    }

    method Set(j: JobId, after: Job)
      requires Valid() && j in jobs && Sound(after) && JobEvolves(jobs[j], after)
      requires (after.slotHeld ==> jobs[j].slotHeld)
      requires Finished(after) && after.processId.Some? ==> j in released
      requires after.processId == jobs[j].processId && TaintIsRecorded(j, after) && SuccessIsProved(j, after)
      modifies this`jobs
      ensures Valid() && Follows(old(jobs), old(used))
      ensures jobs == old(jobs)[j := after]
    {
      ReplaceOne(jobs, j, after);
      jobs := jobs[j := after];
    }

    /** Accepting a job. */
    method Enqueue(job: Job) returns (j: JobId)
      requires Valid() && Sound(job) && job.state.Queued?
      modifies this`jobs, this`used
      ensures Valid() && Follows(old(jobs), old(used))
      ensures j !in old(used) && jobs == old(jobs)[j := job] && used == old(used) + {j}
    {
      j := FreshNumber(used);
      assert Held(jobs[j := job]) == Held(jobs);
      jobs, used := jobs[j := job], used + {j};
    }

    /** Which job may start: the oldest queued one, if a slot is free and its worktree is idle. */
    method Next() returns (head: Option<JobId>)
      requires Valid()
      ensures head.Some? ==> |Held(jobs)| < maxConcurrent && Oldest(jobs, head.value) && !WorktreeBusy(jobs, head.value)
      ensures head.None? ==> Blocked(jobs, maxConcurrent)
    {
      hide Valid, Sound, OnePerWorktree;
      head := None;
      var held := Held(jobs);
      var queued := set j | j in jobs && jobs[j].state.Queued?;
      if |held| >= maxConcurrent || queued == {} {
        assert queued == {} ==> forall j :: j in jobs && jobs[j].state.Queued? ==> j in queued;
        return;
      }
      var oldest := Head(queued);
      assert Oldest(jobs, oldest);
      if exists k :: k in held && jobs[k].worktree == jobs[oldest].worktree { return; }
      head := Some(oldest);
    }

    /** Takes a slot for the job that may start: the oldest one queued, once the memory policy has failed the
        queued jobs it no longer admits. `admitted` says whether memory allows another job now; a worktree
        that is no longer registered ends the job instead. All of it is one transaction. */
    method Claim(memory: Option<Memory>, admitted: bool, registered: bool) returns (claimed: Option<JobId>)
      requires Valid()
      modifies this`jobs
      ensures Valid() && Follows(old(jobs), old(used))
      ensures claimed.Some? ==>
        && admitted && registered
        && claimed.value in old(jobs) && old(jobs[claimed.value]).state.Queued?
        && !Unfit(old(jobs[claimed.value]), memory)
        && |Held(old(jobs))| < maxConcurrent
        && (forall k :: k in Held(old(jobs)) ==> old(jobs[k]).worktree != old(jobs[claimed.value]).worktree)
        && (forall k :: k in old(jobs) && old(jobs[k]).state.Queued? && !Unfit(old(jobs[k]), memory) ==>
              old(jobs[claimed.value]).sequence <= old(jobs[k]).sequence)
        && (exists now :: jobs == UnderPolicy(old(jobs), memory)[
              claimed.value := old(jobs[claimed.value]).(state := Running, slotHeld := true, startedAt := now)])
      ensures claimed.None? ==>
        var fit := UnderPolicy(old(jobs), memory);
        || (jobs == fit && (!admitted || Blocked(fit, maxConcurrent)))
        || (&& admitted && !registered
            && exists j :: Oldest(fit, j) && !WorktreeBusy(fit, j) && |Held(fit)| < maxConcurrent
                 && jobs == fit[j := fit[j].(state := Interrupted, error := Some("WORKTREE_UNAVAILABLE"))])
    {
      ApplyPolicy(memory);
      PolicyKeeps(old(jobs), memory);
      var head := Next();
      claimed := None;
      if head.None? || !admitted { return; }
      if !registered {
        Set(head.value, jobs[head.value].(state := Interrupted, error := Some("WORKTREE_UNAVAILABLE")));
        return;
      }
      var now: int := *;
      Take(head.value, now);
      claimed := head;
    }

    /** Fails every queued job the policy no longer admits. No process or slot exists for any of them. */
    method ApplyPolicy(memory: Option<Memory>)
      requires Valid()
      modifies this`jobs
      ensures Valid() && Follows(old(jobs), old(used)) && jobs == UnderPolicy(old(jobs), memory)
    {
      hide Valid, JobEvolves, JobsEvolve, TaintIsRecorded, SuccessIsProved, Sound, Capacity, FailedByPolicy;
      PolicyEvolves(jobs, memory);
      var left := set j | j in jobs && Unfit(jobs[j], memory);
      while left != {}
        invariant Valid() && jobs.Keys == old(jobs).Keys && left <= jobs.Keys
        invariant forall j :: j in left ==> jobs[j] == old(jobs)[j] && Unfit(old(jobs)[j], memory)
        invariant forall j :: j in jobs && j !in left ==> jobs[j] == UnderPolicy(old(jobs), memory)[j]
        decreases |left|
      {
        var j :| j in left;
        left := left - {j};
        MayFailByPolicy(j);
        Set(j, FailedByPolicy(jobs[j]));
      }
      assert jobs == UnderPolicy(old(jobs), memory);
    }

    lemma MayFailByPolicy(j: JobId)
      requires Valid() && j in jobs && jobs[j].state.Queued?
      ensures var after := FailedByPolicy(jobs[j]);
        && Sound(after) && JobEvolves(jobs[j], after) && TaintIsRecorded(j, after) && SuccessIsProved(j, after)
        && after.slotHeld == jobs[j].slotHeld == false && after.processId == jobs[j].processId == None
    {
    }

    lemma PolicyEvolves(before: map<JobId, Job>, memory: Option<Memory>)
      requires Valid() && before == jobs
      ensures JobsEvolve(before, UnderPolicy(before, memory), used)
      ensures forall j :: j in before ==> Sound(before[j])
    {
    }

    lemma PolicyKeeps(before: map<JobId, Job>, memory: Option<Memory>)
      requires jobs == UnderPolicy(before, memory) && forall j :: j in before ==> Sound(before[j])
      ensures Held(jobs) == Held(before)
      ensures forall j :: j in before && jobs[j].state.Queued? ==> jobs[j] == before[j] && !Unfit(before[j], memory)
      ensures forall j :: j in Held(before) ==> jobs[j] == before[j]
    {
    }

    method Take(head: JobId, now: int)
      requires Valid() && head in jobs && jobs[head].state.Queued? && |Held(jobs)| < maxConcurrent
      requires forall k :: k in Held(jobs) ==> jobs[k].worktree != jobs[head].worktree
      modifies this`jobs
      ensures Valid() && Follows(old(jobs), old(used))
      ensures jobs == old(jobs)[head := old(jobs[head]).(state := Running, slotHeld := true, startedAt := now)]
    {
      NothingBoundYet(head);
      TakeSlot(jobs, head, jobs[head].(state := Running, slotHeld := true, startedAt := now));
      jobs := jobs[head := jobs[head].(state := Running, slotHeld := true, startedAt := now)];
    }

    lemma NothingBoundYet(j: JobId)
      requires Valid() && j in jobs && jobs[j].processId.None?
      ensures forall p :: (j, p) !in bindings && (j, p) !in tainted
    {
    }

    lemma TakeSlot(before: map<JobId, Job>, head: JobId, after: Job)
      requires |Held(before)| < maxConcurrent && OnePerWorktree(before)
      requires head in before && !before[head].slotHeld && JobEvolves(before[head], after)
      requires forall k :: k in Held(before) ==> before[k].worktree != before[head].worktree
      ensures var now := before[head := after];
        && JobsEvolve(before, now, used) && |Held(now)| <= maxConcurrent && OnePerWorktree(now)
    {
      var now := before[head := after];
      assert Held(now) <= Held(before) + {head};
      SubsetSize(Held(now), Held(before) + {head});
    }

    method Head(queued: set<JobId>) returns (head: JobId)
      requires queued != {} && queued <= jobs.Keys
      ensures head in queued && forall k :: k in queued ==> jobs[head].sequence <= jobs[k].sequence
    {
      head :| head in queued;
      var left := queued - {head};
      while left != {}
        invariant head in queued && left <= queued
        invariant forall k :: k in queued - left ==> jobs[head].sequence <= jobs[k].sequence
        decreases |left|
      {
        var k :| k in left;
        left := left - {k};
        if jobs[k].sequence < jobs[head].sequence { head := k; }
      }
    }

    /** Binds the process record, once. */
    method BindProcess(j: JobId, processId: nat) returns (bound: bool)
      requires Valid() && j in jobs
      modifies this`jobs, this`bindings
      ensures bindings == if bound then old(bindings) + {(j, processId)} else old(bindings)
      ensures Valid() && Follows(old(jobs), old(used))
      ensures bound == (old(jobs[j]).state.Running? && old(jobs[j]).processId.None?)
      ensures jobs == old(jobs)[j := if bound then old(jobs[j]).(processId := Some(processId)) else old(jobs[j])]
    {
      bound := jobs[j].state.Running? && jobs[j].slotHeld && jobs[j].processId.None?;
      if bound {
        ReplaceOne(jobs, j, jobs[j].(processId := Some(processId)));
        jobs, bindings := jobs[j := jobs[j].(processId := Some(processId))], bindings + {(j, processId)};
      }
    }

    method BindAnchor(j: JobId, pid: nat) returns (bound: bool)
      requires Valid() && j in jobs
      modifies this`jobs
      ensures Valid() && Follows(old(jobs), old(used))
      ensures bound == (old(jobs[j]).state.Running? && old(jobs[j]).anchorPid.None?)
      ensures jobs == old(jobs)[j := if bound then old(jobs[j]).(anchorPid := Some(pid)) else old(jobs[j])]
    {
      bound := jobs[j].state.Running? && jobs[j].slotHeld && jobs[j].anchorPid.None?;
      Set(j, if bound then jobs[j].(anchorPid := Some(pid)) else jobs[j]);
    }

    method RequestCancellation(j: JobId, reason: StopReason)
      requires Valid() && j in jobs
      modifies this`jobs
      ensures Valid() && Follows(old(jobs), old(used)) && jobs == old(jobs)[j := Requested(old(jobs[j]), reason)]
    {
      Set(j, Requested(jobs[j], reason));
    }

    method ConfirmTimeout(j: JobId)
      requires Valid() && j in jobs
      modifies this`jobs
      ensures Valid() && Follows(old(jobs), old(used)) && jobs == old(jobs)[j := TimeoutConfirmed(old(jobs[j]))]
    {
      Set(j, TimeoutConfirmed(jobs[j]));
    }

    method SetError(j: JobId, error: string)
      requires Valid() && j in jobs
      requires jobs[j].slotHeld ==> TaintIsRecorded(j, jobs[j].(error := Some(error)))
      modifies this`jobs
      ensures Valid() && Follows(old(jobs), old(used))
      ensures jobs == old(jobs)[j :=
        if old(jobs[j]).state.Running? then old(jobs[j]).(error := Some(error))
        else old(jobs[j])]
    {
      Set(j, if jobs[j].slotHeld then jobs[j].(error := Some(error)) else jobs[j]);
    }

    /** Gives the slot up. A stop request committed before this transaction decides the recorded state. */
    method Finish(j: JobId, state: JobState, exitCode: Option<int>, signal: Option<string>, error: Option<string>)
      requires Valid() && j in jobs && !state.Queued? && !state.Running? && !jobs[j].state.Queued?
      requires jobs[j].stopReason.None? && state.Succeeded? ==> SuccessIsProved(j, jobs[j].(state := state))
      requires forall p :: (j, p) !in tainted
      modifies this`jobs, this`released
      ensures released == old(released) + {j}
      ensures Valid() && Follows(old(jobs), old(used))
      ensures jobs == old(jobs)[j := Closed(old(jobs[j]), state, exitCode, signal, error)] && Finished(jobs[j])
      ensures !jobs[j].slotHeld
    {
      ClosedIsFinal(jobs[j], state, exitCode, signal, error);
      released := released + {j};
      Set(j, Closed(jobs[j], state, exitCode, signal, error));
    }

    /** What was read about a job's completion, for the record. */
    ghost method NoteReading(j: JobId, processId: nat, damaged: bool)
      requires Valid() && j in jobs && (j, processId) in bindings
      requires damaged ==>
        jobs[j].state.Running? && (jobs[j].error == Some(COMPLETION_UNREADABLE) || jobs[j].stopReason.Some?)
      modifies this`tainted
      ensures Valid() && tainted == if damaged then old(tainted) + {(j, processId)} else old(tainted) - {(j, processId)}
    {
      tainted := if damaged then tainted + {(j, processId)} else tainted - {(j, processId)};
    }

    /** The evidence a job is ended on. With that, the question of its marker is closed. */
    ghost method NoteVerdict(j: JobId, verdict: Verdict)
      requires Valid() && j in jobs && !Finished(jobs[j])
      modifies this`verdicts, this`tainted
      ensures Valid() && verdicts == old(verdicts)[j := verdict]
      ensures tainted <= old(tainted) && forall p :: (j, p) !in tainted
    {
      verdicts := verdicts[j := verdict];
      tainted := set t | t in tainted && t.0 != j;
    }

    /** Requests that run beside the queue: new jobs, cancellations, retention. */
    method Meddle()
      requires Valid()
      modifies this`jobs, this`used
      ensures Valid() && old(used) <= used && MayBeAskedToStop(old(jobs), jobs)
      ensures forall j :: j in jobs && j !in old(jobs) ==> j !in old(used)
    {
      UsedCovers();
      hide Valid, Follows, MayBeAskedToStop, Requested;
      SameMayBeAsked(jobs);
      var requests: nat := *;
      while requests > 0
        invariant Valid() && old(used) <= used && MayBeAskedToStop(old(jobs), jobs)
        invariant forall j :: j in jobs && j !in old(jobs) ==> j !in old(used)
      {
        requests := requests - 1;
        ghost var before := jobs;
        var j: JobId := *;
        if * {
          var job: Job := *;
          if Sound(job) && job.state.Queued? {
            j := Enqueue(job);
            AddedMayBeAsked(old(jobs), before, j, job);
          }
        } else if j in jobs {
          if * {
            RequestCancellation(j, ByUser);
            CancelledMayBeAsked(old(jobs), before, j);
          } else {
            var deleted := DeleteFinished(j);
            if deleted {
              DeletedMayBeAsked(old(jobs), before, j);
            }
          }
        }
      }
    }

    lemma UsedCovers()
      requires Valid()
      ensures forall j :: j in jobs ==> j in used
    {
    }

    /** Retention: only a finished job goes. */
    method DeleteFinished(j: JobId) returns (deleted: bool)
      requires Valid()
      modifies this`jobs
      ensures Valid() && Follows(old(jobs), old(used))
      ensures deleted == (j in old(jobs) && Finished(old(jobs[j])))
      ensures jobs == if deleted then old(jobs) - {j} else old(jobs)
    {
      deleted := j in jobs && Finished(jobs[j]);
      if deleted {
        ghost var before := jobs;
        jobs := jobs - {j};
        assert Held(jobs) == Held(before);
      }
    }
  }

  lemma SameMayBeAsked(jobs: map<JobId, Job>)
    ensures MayBeAskedToStop(jobs, jobs)
  {
  }

  lemma AddedMayBeAsked(past: map<JobId, Job>, now: map<JobId, Job>, j: JobId, job: Job)
    requires MayBeAskedToStop(past, now) && j !in past && Sound(job) && job.state.Queued?
    ensures MayBeAskedToStop(past, now[j := job])
  {
  }

  lemma CancelledMayBeAsked(past: map<JobId, Job>, now: map<JobId, Job>, j: JobId)
    requires MayBeAskedToStop(past, now) && j in now
    ensures MayBeAskedToStop(past, now[j := Requested(now[j], ByUser)])
  {
  }

  lemma DeletedMayBeAsked(past: map<JobId, Job>, now: map<JobId, Job>, j: JobId)
    requires MayBeAskedToStop(past, now) && j in now && Finished(now[j])
    ensures MayBeAskedToStop(past, now - {j})
  {
  }

  ghost function Largest(s: set<nat>): (m: nat)
    ensures forall x :: x in s ==> x <= m
  {
    if s == {} then 0 else
      var x :| x in s;
      var m := Largest(s - {x});
      assert forall y :: y in s ==> y == x || y in s - {x};
      if x > m then x else m
  }

  /** A number not used before. */
  method FreshNumber(used: set<nat>) returns (n: nat)
    ensures n !in used
  {
    ghost var m := Largest(used);
    assert m + 1 !in used;
    n :| n !in used;
  }
}
