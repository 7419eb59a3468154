/** One scheduler for heavy jobs. It may die at any await; its successor finds the job table, the process
    records and the anchors' markers, and nothing else. */
module HeavyJobQueue {
  import opened Wrappers
  import opened ProcessJournal
  import opened JobStore
  import opened Supervisor

  datatype Marker = NoMarker | Readable(completion: Completion) | Damaged

  /** The last marker that was read. */
  function Latest(before: Option<Completion>, marker: Marker): Option<Completion> {
    if marker.Readable? then Some(marker.completion) else before
  }

  /** Whether one failed to read since then. */
  function Doubted(before: bool, marker: Marker): bool {
    marker.Damaged? || (marker.NoMarker? && before)
  }

  predicate SaysTimedOut(marker: Marker) {
    marker.Readable? && marker.completion.timedOut
  }

  /** The time limit had passed when the task ended: as its marker says, or else the exit that was heard of, or
      else it has passed now. */
  predicate Overdue(job: Job, marker: Marker, heard: Option<ObservedExit>, now: int) {
    var ended :=
      match marker
      case Readable(c) => c.completedAt
      case _ => if heard.Some? then heard.value.exitedAt else now;
    ended >= job.startedAt + job.timeoutMs
  }

  /** What a poll is answered: the marker when it begins and when it ends; the time when it reads the one, and when it
      may ask for a stop; and at which of three points, if any, the daemon dies. */
  datatype Poll = Poll(first: Marker, last: Marker, now: int, later: int, death: nat)

  const RETRY_MS := 5000

  /** A stop is asked for again after a while. */
  predicate MayAskAgain(attempts: map<JobId, int>, j: JobId, at: int) {
    j !in attempts || at - attempts[j] >= RETRY_MS
  }

  /** Grounds for asking a job to stop. */
  predicate Grounds(job: Job, poll: Poll, heard: Option<ObservedExit>, recovered: bool, reason: StopReason) {
    match reason
    case ByUser => true
    case ByTimeout =>
      || SaysTimedOut(poll.first) || SaysTimedOut(poll.last)
      || (job.stopReason.None? && Overdue(job, poll.first, heard, poll.now))
    case ByInterruption =>
      job.stopReason.None? && recovered && !poll.first.Readable?
  }

  predicate FinallyAsked(stop: Option<StopReason>) {
    stop.Some? && !stop.value.ByInterruption?
  }

  /** A job is asked to stop only for a reason, and for every reason. */
  predicate RightlyAsked(job: Job, poll: Poll, heard: Option<ObservedExit>, recovered: bool,
      stop: Option<StopReason>) {
    && (stop.Some? ==> stop == job.stopReason || Grounds(job, poll, heard, recovered, stop.value))
    && (SaysTimedOut(poll.first) ==> stop.Some?)
    && (Overdue(job, poll.first, heard, poll.now) ==> stop.Some?)
    && (recovered && !poll.first.Readable? ==> stop.Some?)
    && (SaysTimedOut(poll.first) || SaysTimedOut(poll.last) ==> FinallyAsked(stop))
  }

  /** The stop reason of a job once a poll has asked for what it has grounds to, given the one it found. */
  function StopAfter(found: Option<StopReason>, job: Job, poll: Poll, heard: Option<ObservedExit>, recovered: bool)
      : (stop: Option<StopReason>)
    ensures found in {Some(ByUser), Some(ByTimeout)} ==> stop == found
  {
    if SaysTimedOut(poll.first) && found in {None, Some(ByInterruption)} then Some(ByTimeout)
    else if found.Some? then found
    else if Overdue(job, poll.first, heard, poll.now) then Some(ByTimeout)
    else if recovered && !poll.first.Readable? then Some(ByInterruption) else None
  }

  predicate AskedSoFar(job: Job, poll: Poll, heard: Option<ObservedExit>, recovered: bool, stop: Option<StopReason>) {
    RightlyAsked(job, poll.(last := NoMarker), heard, recovered, stop)
  }

  /** Between the first marker and the last a user may ask; the last may report a timeout. */
  lemma StillRightlyAsked(job: Job, poll: Poll, heard: Option<ObservedExit>, recovered: bool,
      asked: Option<StopReason>, later: Option<StopReason>, stop: Option<StopReason>)
    requires AskedSoFar(job, poll, heard, recovered, asked) && StopMoved(asked, later)
    requires var c := Latest(Latest(None, poll.first), poll.last);
      if c.Some? && c.value.timedOut then FinallyAsked(stop) else StopMoved(later, stop)
    ensures RightlyAsked(job, poll, heard, recovered, stop)
  {
  }

  /** Somebody asked for the job to stop, or there are grounds to. */
  predicate WantsStop(job: Job, poll: Poll, heard: Option<ObservedExit>, recovered: bool) {
    || job.stopReason.Some? || SaysTimedOut(poll.first) || Overdue(job, poll.first, heard, poll.now)
    || (recovered && !poll.first.Readable?)
  }

  /** Nothing shows that the task ended, and nobody wants it to. */
  predicate NothingKnown(job: Job, poll: Poll, heard: Option<ObservedExit>, recovered: bool) {
    && poll.first.NoMarker? && heard.None? && job.error != Some(COMPLETION_UNREADABLE)
    && !WantsStop(job, poll, heard, recovered)
  }

  /** Why a job whose end is due keeps its slot. */
  function Obstacle(unreadable: bool, group: GroupInspection): (error: string)
    ensures error == COMPLETION_UNREADABLE <==> unreadable
    ensures error == "PROCESS_INSPECTION_FAILED" <==> !unreadable && group.GroupUnreadable?
    ensures error == "PROCESS_TREE_STILL_RUNNING" <==> !unreadable && !group.GroupUnreadable?
  {
    if unreadable then COMPLETION_UNREADABLE
    else if group.GroupUnreadable? then "PROCESS_INSPECTION_FAILED" else "PROCESS_TREE_STILL_RUNNING"
  }

  /** How a job ends that nobody asked to stop: by what its marker says, or else by the exit that was observed,
      unless a marker could not be read. */
  predicate EndsBy(job: Job, v: Verdict) {
    && (job.state.Succeeded? <==> Convincing(v) && !v.distrusted)
    && (job.state.Interrupted? <==> v.unreadable || v.distrusted || (v.marker.None? && v.observed.None?))
    && (job.state.Failed? <==>
          && !v.unreadable && !v.distrusted && (v.marker.Some? || v.observed.Some?)
          && !Convincing(v))
    && job.error == (if v.unreadable || v.distrusted then Some(COMPLETION_UNREADABLE)
                     else if v.marker.Some? && v.marker.value.logFailed then Some("LOG_WRITE_FAILED") else None)
  }

  /** How a job ends that somebody asked to stop. */
  predicate EndsAsked(job: Job, reason: StopReason) {
    && job.state == StateOf(reason) && job.error.Some?
    && (reason.ByUser? ==> job.error == Some("USER_CANCELLED"))
    && (reason.ByTimeout? ==> job.error == Some("TIMEOUT"))
  }

  /** The row of a job that was ended on this evidence. Its marker's word is final, even where it says nothing. */
  predicate Judged(job: Job, v: Verdict) {
    && (match job.stopReason
        case None => EndsBy(job, v)
        case Some(reason) => EndsAsked(job, reason))
    && (match v.marker
        case Some(c) => job.exitCode == c.exitCode && job.signal == c.signal
        case None =>
          match v.observed
          case Some(o) => job.exitCode == o.exitCode && job.signal == o.signal
          case None => job.exitCode == None && job.signal == None)
  }

  class Queue {
    const jobs: HeavyJobStore
    const supervisor: ProcessSupervisor
    /** What this daemon heard about exits, and which jobs it took over from an earlier one. */
    var exits: map<JobId, ObservedExit>
    var recovering: set<JobId>
    /** When it last asked the supervisor to stop a job's process. */
    var stopAttempts: map<JobId, int>
    /** The jobs it has polled. */
    ghost var polled: set<JobId>

    /** What survives a crash. Everything below keeps it at every step. */
    ghost predicate Durable() reads this, jobs, supervisor {
      && jobs.Valid() && supervisor.Valid() && supervisor.GoesBound(jobs)
      && (forall t :: t in jobs.tainted ==> t.1 in supervisor.kept)
      && jobs.released <= supervisor.released
    }

    ghost predicate Holds(j: JobId) reads jobs {
      j in jobs.jobs && jobs.jobs[j].state.Running?
    }

    /** A new daemon over whatever the last one left. */
    constructor (jobs: HeavyJobStore, supervisor: ProcessSupervisor)
      requires jobs.Valid() && supervisor.Valid() && supervisor.GoesBound(jobs)
      requires (forall t :: t in jobs.tainted ==> t.1 in supervisor.kept) && jobs.released <= supervisor.released
      ensures Durable() && this.jobs == jobs && this.supervisor == supervisor
      ensures exits == map[] && recovering == Held(jobs.jobs) && stopAttempts == map[] && polled == {}
    {
      this.jobs, this.supervisor := jobs, supervisor;
      exits, recovering, stopAttempts, polled := map[], Held(jobs.jobs), map[], {};
    }

    // ----- why a slot may be released ---------------------------------------------------------------

    /** GO for a job is only ever sent to the process the job is bound to. */
    lemma GoMeansBound(j: JobId, id: nat, identity: Identity)
      requires Durable() && j in jobs.jobs && GoSent(OfJob(j), id, identity) in supervisor.events
      ensures jobs.jobs[j].processId == Some(id) && Birth(id, OfJob(j), identity) in supervisor.births
    {
      hide Careful;
      var e := GoSent(OfJob(j), id, identity);
      assert e in supervisor.gos;
      assert (j, id) in jobs.bindings;
      GoIsRecorded(supervisor.events, OfJob(j), id, identity);
      assert Recorded(id, OfJob(j), identity) in supervisor.events;
    }

    lemma NeverStarted(j: JobId)
      requires Durable() && j in jobs.jobs && jobs.jobs[j].processId.None?
      ensures Justified(supervisor.events, supervisor.Op(), Released(j))
    {
    }

    lemma SeenGone(j: JobId, process: Record)
      requires Durable() && j in jobs.jobs && jobs.jobs[j].processId == Some(process.id) && supervisor.Known(process)
      requires GroupInspected(process.identity.pgid, GroupAbsent) in supervisor.Op()
      ensures Justified(supervisor.events, supervisor.Op(), Released(j))
    {
      forall id, identity | GoSent(OfJob(j), id, identity) in supervisor.events
        ensures GroupInspected(identity.pgid, GroupAbsent) in supervisor.Op()
      {
        GoMeansBound(j, id, identity);
        assert Birth(id, OfJob(j), identity) == BirthOf(process) by {
          hide Careful;
        }
      }
    }

    /** The invariant in plain words. */
    lemma WhatHolds()
      requires Durable()
      ensures Careful(supervisor.events)
      ensures forall j, id, identity :: GoSent(OfJob(j), id, identity) in supervisor.events && !Holds(j) ==>
        Released(j) in supervisor.events
      ensures forall j :: j in jobs.jobs && jobs.jobs[j].state.Succeeded? ==>
        jobs.jobs[j].stopReason.None? && j in jobs.verdicts && Convincing(jobs.verdicts[j])
      ensures |Held(jobs.jobs)| <= jobs.maxConcurrent && OnePerWorktree(jobs.jobs)
    {
      forall j: nat, id: nat, identity | GoSent(OfJob(j), id, identity) in supervisor.events && !Holds(j)
        ensures Released(j) in supervisor.events
      {
        assert GoSent(OfJob(j), id, identity) in supervisor.gos;
        assert (j, id) in jobs.bindings;
        assert j in jobs.released;
      }
    }

    // ----- steps --------------------------------------------------------------------------------------

    /** Every await of the queue: requests come in, exits are reported, records move on. */
    method Yield()
      requires Durable()
      modifies this`exits, jobs`jobs, jobs`used, supervisor`records, supervisor`births
      ensures Durable() && MayBeAskedToStop(old(jobs.jobs), jobs.jobs) && old(supervisor.births) <= supervisor.births
    {
      hide HeavyJobStore.Valid, Careful, Consistent, MayBeAskedToStop;
      supervisor.Await();
      jobs.Meddle();
      exits := *;
    }

    method InspectGroup(pgid: nat) returns (group: GroupInspection)
      requires Durable()
      modifies this`exits, jobs`jobs, jobs`used, supervisor`records, supervisor`births, supervisor`events
      ensures Durable() && MayBeAskedToStop(old(jobs.jobs), jobs.jobs) && old(supervisor.births) <= supervisor.births
      ensures old(supervisor.events) + [GroupInspected(pgid, group)] == supervisor.events
      ensures supervisor.Op() == old(supervisor.Op()) + [GroupInspected(pgid, group)]
    {
      hide HeavyJobStore.Valid, ProcessSupervisor.Valid, MayBeAskedToStop, Operation;
      group := supervisor.InspectGroup(pgid);
      jobs.Meddle();
      exits := *;
    }

    ghost predicate Traced(j: JobId) reads jobs, supervisor`records
      requires j in jobs.jobs
    {
      exists id :: id in supervisor.records &&
        if jobs.jobs[j].processId.Some? then jobs.jobs[j].processId.value == id
        else supervisor.records[id].owner == OfJob(j)
    }

    /** The job's process: the bound record, or before the binding the one that bears the job's name. */
    method FindProcess(j: JobId) returns (process: Option<Record>)
      requires Durable() && j in jobs.jobs
      ensures process.Some? ==>
        && supervisor.Known(process.value) && process.value.id in supervisor.records
        && supervisor.records[process.value.id] == process.value
        && (jobs.jobs[j].processId.Some? ==> process.value.id == jobs.jobs[j].processId.value)
      ensures process.None? ==> forall id :: id in supervisor.records ==> jobs.jobs[j].processId != Some(id)
      ensures process.Some? <==> Traced(j)
    {
      hide HeavyJobStore.Valid, Careful;
      var bound := jobs.jobs[j].processId;
      process := None;
      if bound.Some? {
        if bound.value in supervisor.records {
          supervisor.Listed(bound.value);
          process := Some(supervisor.records[bound.value]);
        }
      } else if id :| id in supervisor.records && supervisor.records[id].owner == OfJob(j) {
        supervisor.Listed(id);
        process := Some(supervisor.records[id]);
      }
    }

    /** Ends a job and gives up its slot: the one place where that happens. Not `done` means the daemon died
        before the transaction. `row` is the job's row when the transaction began. */
    method Conclude(j: JobId, state: JobState, exitCode: Option<int>, signal: Option<string>, error: Option<string>,
        ghost verdict: Verdict, dies: bool)
        returns (done: bool, ghost row: Job)
      requires Durable() && Holds(j) && Finished(jobs.jobs[j].(state := state))
      requires Justified(supervisor.events, supervisor.Op(), Released(j))
      requires state.Succeeded? ==> Convincing(verdict)
      modifies this`exits, this`recovering, this`stopAttempts, jobs`jobs, jobs`used, jobs`tainted, jobs`verdicts
      modifies jobs`released
      modifies supervisor`waits, supervisor`records, supervisor`births, supervisor`events, supervisor`kept
      modifies supervisor`released
      ensures Durable()
      ensures OthersRunOn(old(jobs.jobs), jobs.jobs, j)
      ensures RunsOn(old(jobs.jobs[j]), row) && done == !dies
      ensures done ==>
        && Released(j) in supervisor.Op() && !Holds(j) && j in jobs.verdicts && jobs.verdicts[j] == verdict
        && j in jobs.jobs && jobs.jobs[j] == Closed(row, state, exitCode, signal, error)
      ensures done ==>
        && jobs.jobs[j].stopReason == row.stopReason
        && jobs.jobs[j].state == if row.stopReason.Some? then StateOf(row.stopReason.value) else state
      ensures !done ==> Holds(j)
      ensures stopAttempts == if done then old(stopAttempts) - {j} else old(stopAttempts)
      ensures old(supervisor.events) <= supervisor.events
      ensures old(supervisor.Op()) <= supervisor.Op()
    {
      hide Durable, Operation, Justified, MayBeAskedToStop, Convincing, Closed, OthersRunOn;
      ghost var before := jobs.jobs;
      Yield();
      AskedRunsOn(before, jobs.jobs, j);
      AskedOthersRunOn(before, jobs.jobs, j);
      ghost var later := jobs.jobs;
      row := jobs.jobs[j];
      done := !dies;
      if done {
        Commit(j, state, exitCode, signal, error, verdict);
        OthersRunFurther(before, later, jobs.jobs, j);
      }
    }

    /** The transaction itself. A stop requested in the meantime decides the recorded state. */
    method Commit(j: JobId, state: JobState, exitCode: Option<int>, signal: Option<string>, error: Option<string>,
        ghost verdict: Verdict)
      requires Durable() && Holds(j) && Finished(jobs.jobs[j].(state := state))
      requires Justified(supervisor.events, supervisor.Op(), Released(j))
      requires state.Succeeded? ==> Convincing(verdict)
      modifies this`exits, this`recovering, this`stopAttempts, jobs`jobs, jobs`tainted, jobs`verdicts, jobs`released
      modifies supervisor`events, supervisor`kept, supervisor`released
      ensures Durable() && !Holds(j) && j in jobs.jobs
      ensures OthersRunOn(old(jobs.jobs), jobs.jobs, j)
      ensures recovering == old(recovering) - {j} && exits == old(exits) - {j}
      ensures stopAttempts == old(stopAttempts) - {j}
      ensures jobs.jobs[j] == Closed(old(jobs.jobs[j]), state, exitCode, signal, error)
      ensures jobs.jobs[j].state ==
        if old(jobs.jobs[j]).stopReason.Some? then StateOf(old(jobs.jobs[j]).stopReason.value) else state
      ensures jobs.jobs[j].stopReason == old(jobs.jobs[j]).stopReason
      ensures j in jobs.verdicts && jobs.verdicts[j] == verdict
      ensures old(supervisor.events) <= supervisor.events
      ensures supervisor.Op() == old(supervisor.Op()) + [Released(j)]
    {
      hide ProcessSupervisor.Valid, HeavyJobStore.Valid, HeavyJobStore.Follows, Operation, Justified, Convincing;
      hide OthersRunOn;
      OneChanged(jobs.jobs, j, Closed(jobs.jobs[j], state, exitCode, signal, error));
      StopKeepsTaint(j, ByUser, false);
      jobs.NoteVerdict(j, verdict);
      supervisor.LogRelease(j);
      jobs.Finish(j, state, exitCode, signal, error);
      recovering, exits, stopAttempts := recovering - {j}, exits - {j}, stopAttempts - {j};
      TaintedAreBound();
      supervisor.Spare(set k | k in jobs.jobs && jobs.jobs[k].state.Running? && jobs.jobs[k].processId.Some?
        :: jobs.jobs[k].processId.value);
    }

    lemma TaintedAreBound()
      requires jobs.Valid()
      ensures forall t :: t in jobs.tainted ==> Holds(t.0) && jobs.jobs[t.0].processId == Some(t.1)
    {
    }

    // ----- reconciling a running job ------------------------------------------------------------------

    /** What a poll knows. If a marker was unreadable and no valid one has been read since, the poll knows
        it, or a stop reason it knows decides the job anyway. */
    ghost predicate Aware(j: JobId, process: Record, unreadable: bool, stop: Option<StopReason>)
      reads this, jobs, supervisor
    {
      && Holds(j) && jobs.jobs[j].processId == Some(process.id) && supervisor.Known(process)
      && (j, process.id) in jobs.bindings && process.id in supervisor.kept
      && ((j, process.id) in jobs.tainted ==> unreadable || stop.Some?)
      && (stop.Some? ==> jobs.jobs[j].stopReason.Some?)
    }

    /** Awaiting changes nothing a poll knows. */
    lemma StillAware(before: map<JobId, Job>, j: JobId, process: Record, unreadable: bool, stop: Option<StopReason>)
      requires MayBeAskedToStop(before, jobs.jobs) && j in before && before[j].state.Running?
      requires before[j].processId == Some(process.id) && supervisor.Known(process)
      requires (j, process.id) in jobs.bindings && process.id in supervisor.kept
      requires (j, process.id) in jobs.tainted ==> unreadable || stop.Some?
      requires stop.Some? ==> before[j].stopReason.Some?
      ensures Aware(j, process, unreadable, stop) && StopMoved(before[j].stopReason, jobs.jobs[j].stopReason)
    {
    }

    lemma AwareHolds(j: JobId, process: Record, unreadable: bool, stop: Option<StopReason>)
      requires Aware(j, process, unreadable, stop)
      ensures Holds(j)
    {
    }

    method Look(j: JobId, process: Record, ghost unreadable: bool, ghost stop: Option<StopReason>)
        returns (group: GroupInspection)
      requires Durable() && Aware(j, process, unreadable, stop)
      modifies this`exits, jobs`jobs, jobs`used, supervisor`records, supervisor`births, supervisor`events
      ensures Durable() && Aware(j, process, unreadable, stop)
      ensures OthersRunOn(old(jobs.jobs), jobs.jobs, j)
      ensures StopMoved(old(jobs.jobs[j]).stopReason, jobs.jobs[j].stopReason)
      ensures old(supervisor.events) + [GroupInspected(process.identity.pgid, group)] == supervisor.events
      ensures supervisor.Op() == old(supervisor.Op()) + [GroupInspected(process.identity.pgid, group)]
    {
      hide Durable, MayBeAskedToStop, Operation, OthersRunOn;
      ghost var before := jobs.jobs;
      group := InspectGroup(process.identity.pgid);
      AskedOthersRunOn(before, jobs.jobs, j);
      StillAware(before, j, process, unreadable, stop);
    }

    /** Reads the completion marker. A damaged one is remembered in the job's row. */
    method ReadCompletion(j: JobId, process: Record, completion: Option<Completion>, unreadable: bool,
        ghost stop: Option<StopReason>, marker: Marker)
        returns (latest: Option<Completion>, damaged: bool)
      requires Durable() && Aware(j, process, unreadable, stop)
      modifies this`exits, jobs`jobs, jobs`used, jobs`tainted, supervisor`records, supervisor`births
      ensures Durable() && Aware(j, process, damaged, stop)
      ensures latest == Latest(completion, marker) && damaged == Doubted(unreadable, marker)
      ensures OthersRunOn(old(jobs.jobs), jobs.jobs, j)
      ensures StopMoved(old(jobs.jobs[j]).stopReason, jobs.jobs[j].stopReason)
    {
      hide HeavyJobStore.Valid, HeavyJobStore.Follows, ProcessSupervisor.Valid, MayBeAskedToStop, OthersRunOn;
      ghost var before := jobs.jobs;
      Yield();
      StillAware(before, j, process, unreadable, stop);
      AskedOthersRunOn(before, jobs.jobs, j);
      ghost var later := jobs.jobs;
      latest, damaged := completion, unreadable;
      match marker
      case NoMarker =>
      case Readable(c) =>
        jobs.NoteReading(j, process.id, false);
        latest, damaged := Some(c), false;
      case Damaged =>
        jobs.SetError(j, COMPLETION_UNREADABLE);
        OneChanged(later, j, jobs.jobs[j]);
        OthersRunFurther(before, later, jobs.jobs, j);
        jobs.NoteReading(j, process.id, true);
        damaged := true;
    }

    /** A timeout the anchor itself confirmed replaces a provisional interruption, never a cancellation. */
    method RequestStop(j: JobId, process: Record, unreadable: bool, stop: Option<StopReason>, reason: StopReason,
        confirmed: bool)
        returns (latest: Option<StopReason>, noted: Option<string>)
      requires Durable() && Aware(j, process, unreadable, stop)
      modifies jobs`jobs
      ensures Durable() && Aware(j, process, unreadable, latest)
      ensures OthersRunOn(old(jobs.jobs), jobs.jobs, j)
      ensures latest == jobs.jobs[j].stopReason && noted == jobs.jobs[j].error
      ensures latest ==
        if confirmed then
          if old(jobs.jobs[j]).stopReason in {None, Some(ByInterruption)} then Some(ByTimeout)
          else old(jobs.jobs[j]).stopReason
        else if old(jobs.jobs[j]).stopReason.None? then Some(reason)
        else old(jobs.jobs[j]).stopReason
    {
      hide HeavyJobStore.Valid, HeavyJobStore.Follows, ProcessSupervisor.Valid, OthersRunOn;
      StopKeepsTaint(j, reason, confirmed);
      if confirmed {
        jobs.ConfirmTimeout(j);
      } else {
        jobs.RequestCancellation(j, reason);
      }
      OneChanged(old(jobs.jobs), j, jobs.jobs[j]);
      latest, noted := jobs.jobs[j].stopReason, jobs.jobs[j].error;
    }

    lemma StopIsStored(j: JobId, process: Record, unreadable: bool, stop: Option<StopReason>)
      requires Aware(j, process, unreadable, stop)
      ensures stop.Some? ==> jobs.jobs[j].stopReason.Some?
    {
    }

    lemma StopKeepsTaint(j: JobId, reason: StopReason, confirmed: bool)
      requires jobs.Valid() && Holds(j)
      ensures jobs.jobs[j].slotHeld
      ensures Requested(jobs.jobs[j], reason).stopReason.Some? && TimeoutConfirmed(jobs.jobs[j]).stopReason.Some?
    {
    }

    /** The job's process is on record. Ends the job only if the poll itself saw the whole process group gone, and
        then on its latest evidence; a job whose end is due otherwise keeps its slot and notes why. While its group
        is there, it is asked to stop if it should, but not again within a while. `heard` is the exit the poll knew
        of, `first` and `last` what it saw of the group first, and last before it had the end confirmed. `aborted`
        says that the daemon died or could not confirm the end. */
    method ReconcileProcess(j: JobId, process: Record, poll: Poll)
        returns (aborted: bool, ghost heard: Option<ObservedExit>, ghost unconfirmed: bool,
                 ghost first: GroupInspection, ghost last: GroupInspection)
      requires Durable() && Holds(j)
      requires Aware(j, process, jobs.jobs[j].error == Some(COMPLETION_UNREADABLE), jobs.jobs[j].stopReason)
      modifies this`exits, this`recovering, this`stopAttempts, jobs`jobs, jobs`used, jobs`tainted, jobs`verdicts
      modifies jobs`released
      modifies supervisor`waits, supervisor`records, supervisor`births, supervisor`events, supervisor`kept
      modifies supervisor`released
      ensures Durable() && OthersRunOn(old(jobs.jobs), jobs.jobs, j)
      ensures !Holds(j) ==> GroupInspected(process.identity.pgid, GroupAbsent) in supervisor.Op() && !aborted
      ensures !Holds(j) ==>
        && j in jobs.jobs && j in jobs.verdicts && Judged(jobs.jobs[j], jobs.verdicts[j])
        && RightlyAsked(old(jobs.jobs[j]), poll, heard, old(j in recovering), jobs.jobs[j].stopReason)
        && jobs.verdicts[j].marker == Latest(Latest(None, poll.first), poll.last)
        && jobs.verdicts[j].distrusted
             == Doubted(Doubted(old(jobs.jobs[j]).error == Some(COMPLETION_UNREADABLE), poll.first), poll.last)
      ensures aborted ==> poll.death in {1, 2, 3} || unconfirmed
      ensures poll.death == 1 ==> aborted
      ensures poll.death != 1 && NothingKnown(old(jobs.jobs[j]), poll, heard, old(j in recovering)) ==>
        !aborted && Holds(j) && supervisor.events == old(supervisor.events) && stopAttempts == old(stopAttempts)
      ensures poll.death != 1 && !NothingKnown(old(jobs.jobs[j]), poll, heard, old(j in recovering)) ==>
        && old(supervisor.events) + [GroupInspected(process.identity.pgid, first)] <= supervisor.events
        && if poll.death == 2 then aborted
           else
             var asks :=
               && !first.GroupAbsent? && (j !in old(stopAttempts) || 5000 <= poll.later - old(stopAttempts)[j])
               && WantsStop(old(jobs.jobs[j]), poll, heard, old(j in recovering));
             && (!asks ==> last == first)
             && (asks ==>
                   old(supervisor.events) + [GroupInspected(process.identity.pgid, first)] + [Began]
                     <= supervisor.events)
             && (Holds(j) ==> stopAttempts == if asks then old(stopAttempts)[j := poll.later] else old(stopAttempts))
             && (last.GroupAbsent? && Holds(j) ==> aborted)
             && (!last.GroupAbsent? ==>
                   && Holds(j) && !aborted && supervisor.events != []
                   && supervisor.events[|supervisor.events| - 1] == GroupInspected(process.identity.pgid, last)
                   && jobs.jobs[j].error == Some(Obstacle(
                        Doubted(old(jobs.jobs[j]).error == Some(COMPLETION_UNREADABLE), poll.first), last)))
    {
      hide Durable, HeavyJobStore.Valid, HeavyJobStore.Follows, ProcessSupervisor.Valid, MayBeAskedToStop, Operation;
      hide Aware, Convincing, Judged, RightlyAsked, NothingKnown, WantsStop, OthersRunOn, Obstacle;
      aborted, heard, unconfirmed, first, last := false, None, false, GroupUnreadable, GroupUnreadable;
      ghost var job, before := jobs.jobs[j], jobs.jobs;
      var recovered := j in recovering;
      var completion, unreadable, stop, noted, observed, found := Gather(j, process, poll, recovered);
      heard := observed;
      AwareHolds(j, process, unreadable, stop);
      if poll.death == 1 { aborted := true; return; }
      if completion.None? && observed.None? && stop.None? && !unreadable { return; }
      ghost var known := jobs.jobs;
      var group := Look(j, process, unreadable, stop);
      OthersRunFurther(before, known, jobs.jobs, j);
      AwareHolds(j, process, unreadable, stop);
      first, last := group, group;
      if poll.death == 2 { aborted := true; return; }
      ghost var seen := jobs.jobs;
      if !group.GroupAbsent? && stop.Some? && MayAskAgain(stopAttempts, j, poll.later) {
        group := StopAndLook(j, process, unreadable, stop, poll.later);
        OthersRunFurther(before, seen, jobs.jobs, j);
        last := group;
      }
      seen := jobs.jobs;
      AwareHolds(j, process, unreadable, stop);
      aborted, unconfirmed := Settle(j, process, completion, unreadable, stop, noted, recovered, poll, group);
      OthersRunFurther(before, seen, jobs.jobs, j);
      if group.GroupAbsent? && !aborted {
        StillRightlyAsked(job, poll, heard, recovered, known[j].stopReason, seen[j].stopReason,
          jobs.jobs[j].stopReason);
      }
    }

    method StopAndLook(j: JobId, process: Record, unreadable: bool, stop: Option<StopReason>, at: int)
        returns (group: GroupInspection)
      requires Durable() && Aware(j, process, unreadable, stop) && stop.Some?
      modifies this`exits, this`stopAttempts, jobs`jobs, jobs`used
      modifies supervisor`waits, supervisor`records, supervisor`births, supervisor`events
      ensures Durable() && Aware(j, process, unreadable, stop)
      ensures StopMoved(old(jobs.jobs[j]).stopReason, jobs.jobs[j].stopReason)
      ensures OthersRunOn(old(jobs.jobs), jobs.jobs, j) && stopAttempts == old(stopAttempts)[j := at]
      ensures old(supervisor.events) + [Began] <= supervisor.events
      ensures supervisor.events[|supervisor.events| - 1] == GroupInspected(process.identity.pgid, group)
    {
      hide Durable, OthersRunOn, ProcessSupervisor.Valid;
      ghost var before := jobs.jobs;
      var failed := StopProcess(j, process, unreadable, stop, at);
      ghost var stopped := jobs.jobs;
      group := Look(j, process, unreadable, stop);
      OthersRunFurther(before, stopped, jobs.jobs, j);
    }

    /** What the last look found decides: the obstacle is noted, or the end confirmed and the job judged. */
    method Settle(j: JobId, process: Record, completion: Option<Completion>, unreadable: bool,
                  stop: Option<StopReason>, noted: Option<string>, recovered: bool, poll: Poll, group: GroupInspection)
        returns (aborted: bool, ghost unconfirmed: bool)
      requires Durable() && Aware(j, process, unreadable, stop)
      requires recovered && completion.None? ==> stop.Some?
      modifies this`exits, this`recovering, this`stopAttempts, jobs`jobs, jobs`used, jobs`tainted, jobs`verdicts
      modifies jobs`released
      modifies supervisor`waits, supervisor`records, supervisor`births, supervisor`events, supervisor`kept
      modifies supervisor`released
      ensures Durable() && OthersRunOn(old(jobs.jobs), jobs.jobs, j) && old(supervisor.events) <= supervisor.events
      ensures aborted ==> Holds(j) && (poll.death == 3 || unconfirmed)
      ensures !group.GroupAbsent? ==>
        && Holds(j) && !aborted && supervisor.events == old(supervisor.events) && stopAttempts == old(stopAttempts)
        && jobs.jobs[j].error == Some(Obstacle(unreadable, group))
      ensures group.GroupAbsent? ==>
        stopAttempts == if aborted then old(stopAttempts) else old(stopAttempts) - {j}
      ensures group.GroupAbsent? && !aborted ==>
        && !Holds(j) && GroupInspected(process.identity.pgid, GroupAbsent) in supervisor.Op()
        && j in jobs.jobs && j in jobs.verdicts && Judged(jobs.jobs[j], jobs.verdicts[j])
        && jobs.verdicts[j].marker == Latest(completion, poll.last)
        && jobs.verdicts[j].distrusted == Doubted(unreadable, poll.last)
        && (var c := Latest(completion, poll.last);
            if c.Some? && c.value.timedOut then FinallyAsked(jobs.jobs[j].stopReason)
            else StopMoved(old(jobs.jobs[j]).stopReason, jobs.jobs[j].stopReason))
    {
      hide Durable, OthersRunOn, ProcessSupervisor.Valid, Aware, Judged, Obstacle;
      AwareHolds(j, process, unreadable, stop);
      aborted, unconfirmed := false, false;
      if !group.GroupAbsent? {
        NoteStillRunning(j, process, unreadable, stop, group);
        return;
      }
      ghost var before := jobs.jobs;
      var confirmed := Confirm(j, process, unreadable, stop);
      AwareHolds(j, process, unreadable, stop);
      unconfirmed := !confirmed;
      if !confirmed { return true, true; }
      ghost var seen := jobs.jobs;
      aborted := Judge(j, process, completion, unreadable, stop, noted, recovered, poll.last, poll.death == 3);
      OthersRunFurther(before, seen, jobs.jobs, j);
    }

    /** The last look of the operation did not find the group gone. */
    ghost predicate StillThere(op: seq<Event>, pgid: nat) {
      op != [] && op[|op| - 1] in {GroupInspected(pgid, GroupPresent), GroupInspected(pgid, GroupUnreadable)}
    }

    /** What the poll knows before it looks at the group, and the stops it asks for on that. */
    method Gather(j: JobId, process: Record, poll: Poll, recovered: bool)
        returns (completion: Option<Completion>, unreadable: bool, stop: Option<StopReason>, noted: Option<string>,
                 observed: Option<ObservedExit>, ghost found: Option<StopReason>)
      requires Durable() && Holds(j)
      requires Aware(j, process, jobs.jobs[j].error == Some(COMPLETION_UNREADABLE), jobs.jobs[j].stopReason)
      modifies this`exits, jobs`jobs, jobs`used, jobs`tainted, supervisor`records, supervisor`births
      ensures Durable() && Aware(j, process, unreadable, stop)
      ensures completion == Latest(None, poll.first)
      ensures unreadable == Doubted(old(jobs.jobs[j]).error == Some(COMPLETION_UNREADABLE), poll.first)
      ensures OthersRunOn(old(jobs.jobs), jobs.jobs, j)
      ensures StopMoved(old(jobs.jobs[j]).stopReason, found)
      ensures poll.death != 1 ==>
        jobs.jobs[j].stopReason == StopAfter(found, old(jobs.jobs[j]), poll, observed, recovered)
      ensures poll.death != 1 ==>
        && observed == (if j in exits then Some(exits[j]) else None)
        && (stop.Some? <==> WantsStop(old(jobs.jobs[j]), poll, observed, recovered))
      ensures poll.death != 1 ==>
        && AskedSoFar(old(jobs.jobs[j]), poll, observed, recovered, jobs.jobs[j].stopReason)
        && (recovered && completion.None? ==> stop.Some?)
        && (completion.None? && observed.None? && stop.None? && !unreadable <==>
              NothingKnown(old(jobs.jobs[j]), poll, observed, recovered))
    {
      hide Durable, HeavyJobStore.Valid, HeavyJobStore.Follows, ProcessSupervisor.Valid, MayBeAskedToStop;
      hide Aware, OthersRunOn;
      var job := jobs.jobs[j];
      ghost var before := jobs.jobs;
      stop, noted, observed, completion, found := job.stopReason, job.error, None, None, None;
      unreadable := job.error == Some(COMPLETION_UNREADABLE);
      completion, unreadable := ReadCompletion(j, process, completion, unreadable, stop, poll.first);
      AwareHolds(j, process, unreadable, stop);
      found := jobs.jobs[j].stopReason;
      if poll.death == 1 { return; }
      if completion.Some? && completion.value.timedOut {
        ghost var read := jobs.jobs;
        stop, noted := RequestStop(j, process, unreadable, stop, ByTimeout, true);
        OthersRunFurther(before, read, jobs.jobs, j);
      }
      observed := if j in exits then Some(exits[j]) else None;
      var completedAt :=
        if completion.Some? then completion.value.completedAt
        else if observed.Some? then observed.value.exitedAt else poll.now;
      if stop.None? && completedAt >= job.startedAt + job.timeoutMs {
        ghost var read := jobs.jobs;
        stop, noted := RequestStop(j, process, unreadable, stop, ByTimeout, false);
        OthersRunFurther(before, read, jobs.jobs, j);
      }
      if stop.None? && recovered && completion.None? {
        ghost var read := jobs.jobs;
        stop, noted := RequestStop(j, process, unreadable, stop, ByInterruption, false);
        OthersRunFurther(before, read, jobs.jobs, j);
      }
      AwareHolds(j, process, unreadable, stop);
    }

    method NoteStillRunning(j: JobId, process: Record, unreadable: bool, stop: Option<StopReason>,
        group: GroupInspection)
      requires Durable() && Aware(j, process, unreadable, stop)
      modifies jobs`jobs
      ensures Durable() && Holds(j)
      ensures jobs.jobs == old(jobs.jobs)[j := old(jobs.jobs[j]).(error := Some(Obstacle(unreadable, group)))]
      ensures OthersRunOn(old(jobs.jobs), jobs.jobs, j)
    {
      hide ProcessSupervisor.Valid, HeavyJobStore.Follows, OthersRunOn;
      jobs.SetError(j, Obstacle(unreadable, group));
      OneChanged(old(jobs.jobs), j, jobs.jobs[j]);
    }

    /** Asks the supervisor to stop the run; a failure is noted. */
    method StopProcess(j: JobId, process: Record, ghost unreadable: bool, stop: Option<StopReason>, at: int)
        returns (failed: bool)
      requires Durable() && Aware(j, process, unreadable, stop) && stop.Some?
      modifies this`exits, this`stopAttempts, jobs`jobs, jobs`used
      modifies supervisor`waits, supervisor`records, supervisor`births, supervisor`events
      ensures Durable() && Aware(j, process, unreadable, stop)
      ensures StopMoved(old(jobs.jobs[j]).stopReason, jobs.jobs[j].stopReason)
      ensures OthersRunOn(old(jobs.jobs), jobs.jobs, j) && stopAttempts == old(stopAttempts)[j := at]
      ensures old(supervisor.events) + [Began] <= supervisor.events
      ensures jobs.jobs[j].error == if failed then Some("PROCESS_CLEANUP_UNCONFIRMED") else old(jobs.jobs[j]).error
    {
      hide ProcessSupervisor.Valid, HeavyJobStore.Valid, HeavyJobStore.Follows, MayBeAskedToStop, OthersRunOn;
      stopAttempts := stopAttempts[j := at];
      var stopped, seen, exited := supervisor.StopRecord(process);
      ghost var before := jobs.jobs;
      jobs.Meddle();
      exits := *;
      StillAware(before, j, process, unreadable, stop);
      AskedOthersRunOn(before, jobs.jobs, j);
      AskedRunsOn(before, jobs.jobs, j);
      ghost var later := jobs.jobs;
      failed := stopped.None?;
      if failed {
        jobs.SetError(j, "PROCESS_CLEANUP_UNCONFIRMED");
        OneChanged(later, j, jobs.jobs[j]);
        OthersRunFurther(before, later, jobs.jobs, j);
      }
    }

    method Confirm(j: JobId, process: Record, ghost unreadable: bool, ghost stop: Option<StopReason>)
        returns (confirmed: bool)
      requires Durable() && Aware(j, process, unreadable, stop)
      modifies this`exits, jobs`jobs, jobs`used, supervisor`records, supervisor`births, supervisor`events
      ensures Durable() && Aware(j, process, unreadable, stop)
      ensures OthersRunOn(old(jobs.jobs), jobs.jobs, j)
      ensures old(supervisor.events) + [Began] <= supervisor.events
      ensures StopMoved(old(jobs.jobs[j]).stopReason, jobs.jobs[j].stopReason)
      ensures confirmed ==> GroupInspected(process.identity.pgid, GroupAbsent) in supervisor.Op()
    {
      hide ProcessSupervisor.Valid, HeavyJobStore.Valid, MayBeAskedToStop, Operation, OthersRunOn;
      ghost var seen: Option<Record>;
      confirmed, seen := supervisor.ConfirmStopped(process);
      ghost var before := jobs.jobs;
      jobs.Meddle();
      exits := *;
      AskedOthersRunOn(before, jobs.jobs, j);
      StillAware(before, j, process, unreadable, stop);
    }

    /** Chooses the outcome of a job whose group is confirmed gone, on the last evidence available. */
    method Judge(j: JobId, process: Record, first: Option<Completion>, wasUnreadable: bool, asked: Option<StopReason>,
                 error: Option<string>, recovered: bool, last: Marker, dies: bool) returns (aborted: bool)
      requires Durable() && Aware(j, process, wasUnreadable, asked)
      requires GroupInspected(process.identity.pgid, GroupAbsent) in supervisor.Op()
      requires recovered && first.None? ==> asked.Some?
      modifies this`exits, this`recovering, this`stopAttempts, jobs`jobs, jobs`used, jobs`tainted, jobs`verdicts
      modifies jobs`released
      modifies supervisor`waits, supervisor`records, supervisor`births, supervisor`events, supervisor`kept
      modifies supervisor`released
      ensures Durable() && (if aborted then Holds(j) else Released(j) in supervisor.Op() && !Holds(j))
      ensures aborted == dies
      ensures OthersRunOn(old(jobs.jobs), jobs.jobs, j)
      ensures old(supervisor.events) <= supervisor.events
      ensures stopAttempts == if aborted then old(stopAttempts) else old(stopAttempts) - {j}
      ensures !aborted ==>
        && j in jobs.jobs && j in jobs.verdicts && jobs.verdicts[j].marker == Latest(first, last)
        && jobs.verdicts[j].distrusted == Doubted(wasUnreadable, last)
        && (if Latest(first, last).Some? && Latest(first, last).value.timedOut
            then FinallyAsked(jobs.jobs[j].stopReason)
            else StopMoved(old(jobs.jobs[j]).stopReason, jobs.jobs[j].stopReason))
      ensures GroupInspected(process.identity.pgid, GroupAbsent) in supervisor.Op()
      ensures !aborted ==> j in jobs.jobs && j in jobs.verdicts && jobs.verdicts[j].recovered == recovered
      ensures !aborted ==> Judged(jobs.jobs[j], jobs.verdicts[j])
    {
      hide Durable, HeavyJobStore.Valid, HeavyJobStore.Follows, ProcessSupervisor.Valid, MayBeAskedToStop, Operation;
      hide Justified, OthersRunOn, RunsOn;
      ghost var before := jobs.jobs;
      var stop, noted := asked, error;
      var completion, unreadable := ReadCompletion(j, process, first, wasUnreadable, stop, last);
      if completion.Some? && completion.value.timedOut {
        ghost var read := jobs.jobs;
        stop, noted := RequestStop(j, process, unreadable, stop, ByTimeout, true);
        OthersRunFurther(before, read, jobs.jobs, j);
      }
      ghost var later := jobs.jobs;
      var done := Decide(j, process, completion, unreadable, stop, noted, recovered, dies);
      OthersRunFurther(before, later, jobs.jobs, j);
      aborted := !done;
    }

    /** The decision itself, and the transaction. */
    method Decide(j: JobId, process: Record, completion: Option<Completion>, unreadable: bool, stop: Option<StopReason>,
                  noted: Option<string>, recovered: bool, dies: bool) returns (done: bool)
      requires Durable() && Aware(j, process, unreadable, stop)
      requires GroupInspected(process.identity.pgid, GroupAbsent) in supervisor.Op()
      requires (recovered && completion.None?) || (completion.Some? && completion.value.timedOut) ==> stop.Some?
      modifies this`exits, this`recovering, this`stopAttempts, jobs`jobs, jobs`used, jobs`tainted, jobs`verdicts
      modifies jobs`released
      modifies supervisor`waits, supervisor`records, supervisor`births, supervisor`events, supervisor`kept
      modifies supervisor`released
      ensures Durable() && (if done then Released(j) in supervisor.Op() && !Holds(j) else Holds(j))
      ensures GroupInspected(process.identity.pgid, GroupAbsent) in supervisor.Op()
      ensures done == !dies
      ensures OthersRunOn(old(jobs.jobs), jobs.jobs, j)
      ensures old(supervisor.events) <= supervisor.events
      ensures stopAttempts == if done then old(stopAttempts) - {j} else old(stopAttempts)
      ensures done ==>
        && j in jobs.jobs && j in jobs.verdicts && jobs.verdicts[j].recovered == recovered
        && jobs.verdicts[j].marker == completion && jobs.verdicts[j].distrusted == unreadable
        && jobs.verdicts[j].observed == (if j in old(exits) then Some(old(exits)[j]) else None)
        && StopMoved(old(jobs.jobs[j]).stopReason, jobs.jobs[j].stopReason)
      ensures done ==> Judged(jobs.jobs[j], jobs.verdicts[j])
    {
      hide Durable, HeavyJobStore.Valid, HeavyJobStore.Follows, ProcessSupervisor.Valid, MayBeAskedToStop, Operation;
      hide Justified, OthersRunOn;
      var observed := if j in exits then Some(exits[j]) else None;
      var exitCode :=
        if completion.Some? then completion.value.exitCode
        else if observed.Some? then observed.value.exitCode else None;
      var signal :=
        if completion.Some? then completion.value.signal
        else if observed.Some? then observed.value.signal else None;
      var logFailed := completion.Some? && completion.value.logFailed;
      var state :=
        if stop.Some? then StateOf(stop.value)
        else if unreadable then Interrupted
        else if logFailed then JobState.Failed
        else if exitCode == Some(0) && signal.None? then Succeeded
        else if completion.Some? || observed.Some? then JobState.Failed
        else Interrupted;
      var verdictError :=
        if stop == Some(ByUser) then Some("USER_CANCELLED")
        else if stop == Some(ByTimeout) then Some("TIMEOUT")
        else if stop == Some(ByInterruption) then Some(if noted.Some? then noted.value else "DAEMON_INTERRUPTED")
        else if unreadable then Some(COMPLETION_UNREADABLE)
        else if logFailed then Some("LOG_WRITE_FAILED")
        else None;
      SeenGone(j, process);
      StopIsStored(j, process, unreadable, stop);
      ghost var op := supervisor.Op();
      ghost var verdict := Verdict(completion, observed, (j, process.id) in jobs.tainted, unreadable, recovered);
      var ended, row := Conclude(j, state, exitCode, signal, verdictError, verdict, dies);
      StillIn(op, supervisor.Op(), GroupInspected(process.identity.pgid, GroupAbsent));
      done := ended;
    }

    /** No process is on record for the job. A job that was never bound was never sent GO. */
    method ReconcileMissing(j: JobId, dies: bool) returns (aborted: bool)
      requires Durable() && Holds(j)
      requires forall id :: id in supervisor.records ==> jobs.jobs[j].processId != Some(id)
      modifies this`exits, this`recovering, this`stopAttempts, jobs`jobs, jobs`used, jobs`tainted, jobs`verdicts
      modifies jobs`released
      modifies supervisor`waits, supervisor`records, supervisor`births, supervisor`events, supervisor`kept
      modifies supervisor`released
      ensures Durable()
      ensures OthersRunOn(old(jobs.jobs), jobs.jobs, j)
      ensures !Holds(j) ==> old(jobs.jobs[j]).processId.None? && !aborted
      ensures !Holds(j) ==>
        && j in jobs.jobs && jobs.jobs[j].exitCode.None? && jobs.jobs[j].signal.None? && jobs.jobs[j].error.Some?
        && jobs.jobs[j].state ==
             if jobs.jobs[j].stopReason.Some? then StateOf(jobs.jobs[j].stopReason.value) else Interrupted
      ensures !Holds(j) && jobs.jobs[j].stopReason.None? ==>
        jobs.jobs[j].error == if old(jobs.jobs[j]).error.Some? then old(jobs.jobs[j]).error
                              else Some("DAEMON_INTERRUPTED_BEFORE_LAUNCH")
      ensures old(jobs.jobs[j]).error == Some("SPAWN_OWNERSHIP_UNCONFIRMED") ==> Holds(j) && jobs.jobs == old(jobs.jobs)
      ensures Holds(j) ==>
        || aborted || old(jobs.jobs[j]).error == Some("SPAWN_OWNERSHIP_UNCONFIRMED")
        || old(jobs.jobs[j]).processId.Some?
        || (old(jobs.jobs[j]).anchorPid.Some? && StillThere(supervisor.Op(), old(jobs.jobs[j]).anchorPid.value))
      ensures Holds(j) && !aborted && old(jobs.jobs[j]).error != Some("SPAWN_OWNERSHIP_UNCONFIRMED") ==>
        jobs.jobs[j].error == Some(
          if old(jobs.jobs[j]).anchorPid.Some? && StillThere(supervisor.Op(), old(jobs.jobs[j]).anchorPid.value)
          then "UNCONFIRMED_ANCHOR_CLEANUP" else "PROCESS_RECORD_MISSING")
      ensures aborted ==> dies
      ensures !Holds(j) && old(jobs.jobs[j]).anchorPid.Some? ==>
        GroupInspected(old(jobs.jobs[j]).anchorPid.value, GroupAbsent) in supervisor.Op()
    {
      hide HeavyJobStore.Valid, HeavyJobStore.Follows, ProcessSupervisor.Valid, MayBeAskedToStop, Operation, Justified;
      hide Convincing, OthersRunOn;
      aborted := false;
      ghost var was := jobs.jobs;
      OthersSame(was, j);
      var job := jobs.jobs[j];
      if job.error == Some("SPAWN_OWNERSHIP_UNCONFIRMED") { return; }
      UntaintedWhenMissing(j);
      if job.anchorPid.Some? {
        ghost var before := jobs.jobs;
        var group := InspectGroup(job.anchorPid.value);
        AskedRunsOn(before, jobs.jobs, j);
        AskedOthersRunOn(before, jobs.jobs, j);
        if !group.GroupAbsent? {
          ghost var later := jobs.jobs;
          NoteError(j, "UNCONFIRMED_ANCHOR_CLEANUP");
          OthersRunFurther(was, later, jobs.jobs, j);
          return;
        }
      }
      ghost var looked := jobs.jobs;
      if job.processId.None? {
        NeverStarted(j);
        ghost var op := supervisor.Op();
        var error := if job.error.Some? then job.error.value else "DAEMON_INTERRUPTED_BEFORE_LAUNCH";
        var state := if job.stopReason.Some? then StateOf(job.stopReason.value) else Interrupted;
        var done, row := Conclude(j, state, None, None, Some(error), Verdict(None, None, false, false, true), dies);
        aborted := !done;
        if job.anchorPid.Some? {
          StillIn(op, supervisor.Op(), GroupInspected(job.anchorPid.value, GroupAbsent));
        }
      } else {
        NoteError(j, "PROCESS_RECORD_MISSING");
      }
      OthersRunFurther(was, looked, jobs.jobs, j);
    }

    /** A job whose marker could not be read still has its process record. */
    lemma UntaintedWhenMissing(j: JobId)
      requires Durable() && Holds(j)
      requires forall id :: id in supervisor.records ==> jobs.jobs[j].processId != Some(id)
      ensures forall p :: (j, p) !in jobs.tainted
    {
    }

    method NoteError(j: JobId, error: string)
      requires Durable() && Holds(j) && forall p :: (j, p) !in jobs.tainted
      modifies jobs`jobs
      ensures Durable() && Holds(j) && jobs.jobs == old(jobs.jobs)[j := old(jobs.jobs[j]).(error := Some(error))]
      ensures OthersRunOn(old(jobs.jobs), jobs.jobs, j)
    {
      hide ProcessSupervisor.Valid, HeavyJobStore.Follows, OthersRunOn;
      jobs.SetError(j, error);
      OneChanged(old(jobs.jobs), j, jobs.jobs[j]);
    }

    /** One poll of one job. `aborted` ends the pass: the supervisor refused, or the daemon died. */
    method Reconcile(j: JobId) returns (aborted: bool)
      requires Durable() && Holds(j)
      modifies this`exits, this`recovering, this`stopAttempts, this`polled
      modifies jobs`jobs, jobs`used, jobs`bindings, jobs`tainted, jobs`verdicts, jobs`released
      modifies supervisor`waits, supervisor`records, supervisor`births, supervisor`events, supervisor`kept
      modifies supervisor`released
      ensures Durable() && OthersRunOn(old(jobs.jobs), jobs.jobs, j) && polled == old(polled) + {j}
    {
      hide HeavyJobStore.Follows, Careful, Consistent, Operation, Justified, MayBeAskedToStop, OthersRunOn;
      ghost var before := jobs.jobs;
      polled := polled + {j};
      BeginTurn();
      var process := FindProcess(j);
      if process.None? {
        var dies: bool := *;
        aborted := ReconcileMissing(j, dies);
        return;
      }
      Adopt(j, process.value);
      ghost var adopted := jobs.jobs;
      var poll: Poll := *;
      ghost var heard: Option<ObservedExit>;
      ghost var unconfirmed: bool;
      ghost var first: GroupInspection;
      ghost var last: GroupInspection;
      aborted, heard, unconfirmed, first, last := ReconcileProcess(j, process.value, poll);
      OthersRunFurther(before, adopted, jobs.jobs, j);
    }

    method BeginTurn()
      requires Durable()
      modifies supervisor`events
      ensures Durable()
    {
      hide HeavyJobStore.Valid, ProcessSupervisor.Valid;
      supervisor.Begin();
    }

    /** Binds a process found by the job's name, and keeps its record from being deleted. */
    method Adopt(j: JobId, process: Record)
      requires Durable() && Holds(j) && supervisor.Known(process) && process.id in supervisor.records
      requires jobs.jobs[j].processId.Some? ==> process.id == jobs.jobs[j].processId.value
      modifies jobs`jobs, jobs`bindings, supervisor`kept, supervisor`released
      ensures Durable() && Holds(j)
      ensures OthersRunOn(old(jobs.jobs), jobs.jobs, j)
      ensures Aware(j, process, jobs.jobs[j].error == Some(COMPLETION_UNREADABLE), jobs.jobs[j].stopReason)
    {
      hide HeavyJobStore.Follows, Careful, Consistent, OthersRunOn;
      OthersSame(jobs.jobs, j);
      OneChanged(jobs.jobs, j, jobs.jobs[j].(processId := Some(process.id)));
      if jobs.jobs[j].processId.None? {
        var bound := jobs.BindProcess(j, process.id);
      }
      supervisor.Keep(process.id);
    }

    // ----- launching ----------------------------------------------------------------------------------

    /** Starts a job that just got its slot, unless its sources changed, its time is up, the queue is closing, or
        somebody asked to stop it before its row was read again. If the start fails and a process may exist, the
        slot stays held. `row` is that reading, and `start` what a start was answered. */
    method Launch(j: JobId, sourcesMatch: bool, late: bool, closing: bool, expired: bool, attempts: nat -> Attempt,
        dies: bool)
        returns (died: bool, ghost row: Job, ghost start: Option<Start>)
      requires Durable() && Holds(j) && jobs.jobs[j].processId.None?
      modifies this`exits, this`recovering, this`stopAttempts, jobs`jobs, jobs`used, jobs`bindings, jobs`tainted
      modifies jobs`verdicts
      modifies jobs`released
      modifies supervisor`waits, supervisor`records, supervisor`births, supervisor`events, supervisor`strays
      modifies supervisor`tried
      modifies supervisor`gos, supervisor`kept, supervisor`released
      ensures Durable() && RunsOn(old(jobs.jobs[j]), row)
      ensures !Holds(j) ==> supervisor.gos == old(supervisor.gos)
      ensures start.Some? <==> sourcesMatch && !late && !closing && row.stopReason.None?
      ensures start.None? ==> supervisor.gos == old(supervisor.gos)
      ensures died ==> dies || (start.Some? && start.value.DaemonDied?)
      ensures start.Some? && start.value.DaemonDied? ==> died
      ensures start.Some? && start.value.Started? ==> !died && Holds(j)
      ensures start.Some? && !start.value.Started? && !start.value.DaemonDied? && Holds(j) && !died ==>
        jobs.jobs[j].stopReason.Some?
      ensures sourcesMatch && start.None? && !died ==>
        && j in jobs.jobs && !Holds(j)
        && jobs.jobs[j].state ==
             if row.stopReason.Some? then StateOf(row.stopReason.value) else if late then TimedOut
             else if jobs.jobs[j].stopReason.Some? then StateOf(jobs.jobs[j].stopReason.value) else Interrupted
      ensures !sourcesMatch && row.anchorPid.Some? ==>
        !died && Holds(j) && jobs.jobs[j].stopReason.Some? && jobs.jobs[j].error == Some("WTM_JOB_SOURCE_CHANGED")
      ensures !sourcesMatch && !Holds(j) ==>
        j in jobs.jobs && (jobs.jobs[j].stopReason.None? ==> jobs.jobs[j].error == Some("WTM_JOB_SOURCE_CHANGED"))
    {
      hide HeavyJobStore.Valid, HeavyJobStore.Follows, ProcessSupervisor.Valid, MayBeAskedToStop, Operation, Justified;
      hide Convincing, Closed, Traced;
      BeginTurn();
      ghost var before := jobs.jobs;
      Yield();
      AskedRunsOn(before, jobs.jobs, j);
      NeverStarted(j);
      row, start := jobs.jobs[j], None;
      if !sourcesMatch {
        died := Fail(j, NotStarted, expired, "WTM_JOB_SOURCE_CHANGED", dies);
        return;
      }
      if late || closing || jobs.jobs[j].stopReason.Some? {
        died := EndUnstarted(j, late, dies);
        return;
      }
      var answer, tries, existing := supervisor.Start(OfJob(j), jobs, attempts);
      start := Some(answer);
      if answer.DaemonDied? { return true, row, start; }
      died := false;
      if !answer.Started? {
        died := Fail(j, answer, expired, "RUNTIME_START_FAILED", dies);
      }
    }

    /** Ends a job that was not started: its time is up, the queue is closing, or it was asked to stop. */
    method EndUnstarted(j: JobId, late: bool, dies: bool) returns (died: bool)
      requires Durable() && Holds(j) && jobs.jobs[j].processId.None?
      modifies this`exits, this`recovering, this`stopAttempts, jobs`jobs, jobs`used, jobs`tainted, jobs`verdicts
      modifies jobs`released
      modifies supervisor`waits, supervisor`records, supervisor`births, supervisor`events, supervisor`kept
      modifies supervisor`released
      ensures Durable() && died == dies && (died <==> Holds(j))
      ensures !died ==>
        && j in jobs.jobs && jobs.jobs[j].exitCode.None? && jobs.jobs[j].signal.None?
        && jobs.jobs[j].state ==
             if old(jobs.jobs[j]).stopReason.Some? then StateOf(old(jobs.jobs[j]).stopReason.value)
             else if late then TimedOut
             else if jobs.jobs[j].stopReason.Some? then StateOf(jobs.jobs[j].stopReason.value) else Interrupted
      ensures !died && jobs.jobs[j].stopReason == Some(ByTimeout) && late ==>
        jobs.jobs[j].error == Some("TIMEOUT_BEFORE_START")
      ensures !died && jobs.jobs[j].stopReason.None? ==> jobs.jobs[j].error == Some("CANCELLED_BEFORE_START")
    {
      hide HeavyJobStore.Valid, HeavyJobStore.Follows, ProcessSupervisor.Valid, Operation, Justified, Convincing;
      NeverStarted(j);
      var done: bool;
      ghost var row: Job;
      if late {
        AskToStop(j, ByTimeout);
        done, row := Conclude(j, TimedOut, None, None, Some("TIMEOUT_BEFORE_START"),
          Verdict(None, None, false, false, false), dies);
      } else {
        var state := if jobs.jobs[j].stopReason.Some? then StateOf(jobs.jobs[j].stopReason.value) else Interrupted;
        done, row := Conclude(j, state, None, None, Some("CANCELLED_BEFORE_START"),
          Verdict(None, None, false, false, false), dies);
      }
      died := !done;
    }

    /** The start failed. Only `NotStarted` and `Cleaned` prove that no process is left, and even then the
        slot is given up only if no anchor is bound and no process on record. */
    method Fail(j: JobId, start: Start, expired: bool, error: string, dies: bool) returns (died: bool)
      requires Durable() && Holds(j) && supervisor.AnchorFirst(OfJob(j), jobs)
      modifies this`exits, this`recovering, this`stopAttempts, jobs`jobs, jobs`used, jobs`tainted, jobs`verdicts
      modifies jobs`released
      modifies supervisor`waits, supervisor`records, supervisor`births, supervisor`events, supervisor`kept
      modifies supervisor`released
      ensures Durable() && (!Holds(j) ==> j in jobs.jobs)
      ensures !died ==>
        (Holds(j) <==> start !in {NotStarted, Cleaned} || old(jobs.jobs[j]).anchorPid.Some? || old(Traced(j)))
      ensures died ==> dies && Holds(j) && start in {NotStarted, Cleaned} && old(jobs.jobs[j]).anchorPid.None?
      ensures start.UnconfirmedAnchor? ==>
        jobs.jobs[j].anchorPid
          == if old(jobs.jobs[j]).anchorPid.Some? then old(jobs.jobs[j]).anchorPid else Some(start.pid)
      ensures !Holds(j) && jobs.jobs[j].stopReason.None? ==>
        && jobs.jobs[j].state == StateOf(if expired then ByTimeout else ByInterruption)
        && jobs.jobs[j].error == Some(error)
      ensures Holds(j) && !died ==>
        && jobs.jobs[j].stopReason ==
             (if old(jobs.jobs[j]).stopReason.Some? then old(jobs.jobs[j]).stopReason
              else Some(if expired then ByTimeout else ByInterruption))
        && jobs.jobs[j].error == Some(
             if start in {NotStarted, Cleaned} || old(jobs.jobs[j]).anchorPid.Some? || start.UnconfirmedAnchor?
             then error else "SPAWN_OWNERSHIP_UNCONFIRMED")
    {
      hide HeavyJobStore.Valid, HeavyJobStore.Follows, ProcessSupervisor.Valid, Operation, Justified, Convincing;
      hide Traced;
      died := false;
      if start.UnconfirmedAnchor? {
        var bound := jobs.BindAnchor(j, start.pid);
      }
      var process := FindProcess(j);
      var provedNoProcess := start.NotStarted? || start.Cleaned?;
      var reason := if expired then ByTimeout else ByInterruption;
      if process.Some? || jobs.jobs[j].anchorPid.Some? || !provedNoProcess {
        var unowned := jobs.jobs[j].anchorPid.None? && jobs.jobs[j].processId.None? && !provedNoProcess;
        AskToStop(j, reason);
        NoteDecided(j, if unowned then "SPAWN_OWNERSHIP_UNCONFIRMED" else error);
      } else {
        NeverStarted(j);
        var done, row := Conclude(j, StateOf(reason), None, None, Some(error),
          Verdict(None, None, false, false, false), dies);
        died := !done;
      }
    }

    method AskToStop(j: JobId, reason: StopReason)
      requires Durable() && Holds(j)
      modifies jobs`jobs
      ensures Durable() && Holds(j)
      ensures jobs.jobs == old(jobs.jobs)[j := old(jobs.jobs[j]).(stopReason :=
        if old(jobs.jobs[j]).stopReason.Some? then old(jobs.jobs[j]).stopReason else Some(reason))]
    {
      hide ProcessSupervisor.Valid, HeavyJobStore.Follows;
      StopKeepsTaint(j, reason, false);
      jobs.RequestCancellation(j, reason);
    }

    method NoteDecided(j: JobId, error: string)
      requires Durable() && Holds(j) && jobs.jobs[j].stopReason.Some?
      modifies jobs`jobs
      ensures Durable() && Holds(j) && jobs.jobs[j] == old(jobs.jobs[j]).(error := Some(error))
    {
      hide ProcessSupervisor.Valid, HeavyJobStore.Follows;
      jobs.SetError(j, error);
    }

    // ----- the loop, and lives ------------------------------------------------------------------------

    /** One pass: every held job is polled, then free slots are filled, then old jobs are pruned. `failed` says that
        a poll or a launch ended the pass, and `claims` counts the launches. */
    method Flush() returns (died: bool, failed: bool, claims: nat, exhausted: bool)
      requires Durable()
      modifies this`exits, this`recovering, this`stopAttempts, this`polled, jobs`jobs, jobs`used, jobs`bindings
      modifies jobs`tainted, jobs`verdicts, jobs`released
      modifies supervisor`waits, supervisor`records, supervisor`births, supervisor`events, supervisor`strays
      modifies supervisor`tried
      modifies supervisor`gos, supervisor`kept, supervisor`released
      ensures Durable()
      ensures !died && !failed ==> Held(old(jobs.jobs)) <= polled && (exhausted || claims == jobs.maxConcurrent)
    {
      hide Durable, HeavyJobStore.Valid, OthersRunOn;
      died, failed, claims, exhausted := false, false, 0, false;
      HeldRun();
      var active := Held(jobs.jobs);
      var left := active;
      ghost var before := jobs.jobs;
      while left != {}
        invariant Durable() && left <= active && active - left <= polled
        invariant forall j :: j in left ==> Holds(j)
        decreases |left|
      {
        if * { return true, false, 0, false; }
        var j :| j in left;
        left := left - {j};
        if j in jobs.jobs && jobs.jobs[j].state.Running? {
          ghost var now := jobs.jobs;
          failed := Reconcile(j);
          StillHeld(now, j, left);
          if failed {
            died := *;
            return;
          }
        }
      }
      while claims < jobs.maxConcurrent
        invariant Durable() && active <= polled && claims <= jobs.maxConcurrent
      {
        if * { return true, false, claims, false; }
        var claimed := ClaimNext();
        if claimed.None? {
          exhausted := true;
          break;
        }
        claims := claims + 1;
        var sourcesMatch, late, closing, expired, dies: bool := *, *, *, *, *;
        var attempts: nat -> Attempt := *;
        ghost var row: Job;
        ghost var start: Option<Start>;
        died, row, start := Launch(claimed.value, sourcesMatch, late, closing, expired, attempts, dies);
        if died { return; }
      }
      var expired: set<JobId> := *;
      Prune(expired);
    }

    lemma HeldRun()
      requires Durable()
      ensures forall j :: j in Held(jobs.jobs) ==> Holds(j)
    {
    }

    lemma StillHeld(before: map<JobId, Job>, j: JobId, others: set<JobId>)
      requires OthersRunOn(before, jobs.jobs, j) && j !in others
      requires forall k :: k in others ==> k in before && before[k].state.Running?
      ensures forall k :: k in others ==> Holds(k)
    {
    }

    /** What every new daemon does first: recovery of all runs left active or flagged. It may die at any of
        them, and stops at one the store refuses. */
    method RecoverProcesses() returns (died: bool)
      requires Durable()
      modifies supervisor`waits, supervisor`records, supervisor`births, supervisor`events
      ensures Durable()
    {
      hide HeavyJobStore.Valid, ProcessSupervisor.Valid;
      var candidates := supervisor.Leftover();
      var reached: nat :| reached <= |candidates|;
      var recovered, looks := supervisor.Recover(candidates[..reached]);
      died := reached < |candidates|;
    }

    /** What happens beside the queue: an anchor exits, a run is stopped, a user's task is started or
        restarted. */
    method Request()
      requires Durable()
      modifies jobs`jobs, jobs`used, jobs`bindings
      modifies supervisor`waits, supervisor`records, supervisor`births, supervisor`events, supervisor`strays
      modifies supervisor`tried
      modifies supervisor`gos
      ensures Durable()
    {
      hide HeavyJobStore.Valid, ProcessSupervisor.Valid;
      var name: string := *;
      if {
        case true =>
          var id: nat, exit: Exit := *, *;
          var groupAbsent, seen, own := supervisor.RecordExit(id, exit);
        case true =>
          var candidates := supervisor.Leftover();
          if candidates != [] {
            var i: nat :| i < |candidates|;
            var stopped, seen, exited := supervisor.StopRecord(candidates[i]);
          }
        case true =>
          var owner: Owner := *;
          var stop, seen, exited := supervisor.StopTask(owner);
        case true =>
          var attempts: nat -> Attempt := *;
          var start, tries, existing := supervisor.Start(OfTask(name), jobs, attempts);
        case true =>
          var reserved: bool, luck: Luck := *, *;
          var start, seen, stopped := supervisor.Restart(OfTask(name), jobs, reserved, luck);
      }
    }

    method ClaimNext() returns (claimed: Option<JobId>)
      requires Durable()
      modifies jobs`jobs
      ensures Durable()
      ensures claimed.Some? ==> Holds(claimed.value) && jobs.jobs[claimed.value].processId.None?
    {
      hide ProcessSupervisor.Valid, HeavyJobStore.Follows;
      var admitted, registered: bool := *, *;
      var memory: Option<Memory> := *;
      claimed := jobs.Claim(memory, admitted, registered);
    }

    /** The record of this job's process is one the supervisor still owes something. */
    ghost predicate Unsettled(row: Job) reads supervisor`records {
      row.processId.Some? && row.processId.value in supervisor.records && Owed(supervisor.records[row.processId.value])
    }

    /** Deletes the finished jobs among these, but not one whose process is still active or flagged. */
    method Prune(expired: set<JobId>)
      requires Durable()
      modifies jobs`jobs
      ensures Durable()
      ensures forall j :: j in jobs.jobs ==> j in old(jobs.jobs) && jobs.jobs[j] == old(jobs.jobs)[j]
      ensures forall j :: j in old(jobs.jobs) && j !in jobs.jobs ==>
        j in expired && Finished(old(jobs.jobs)[j]) && !Unsettled(old(jobs.jobs)[j])
      ensures forall j :: j in old(jobs.jobs) && j in expired && Finished(old(jobs.jobs)[j]) ==>
        old(jobs.jobs)[j].processId.Some? && !Unsettled(old(jobs.jobs)[j]) ==> j !in jobs.jobs
    {
      hide ProcessSupervisor.Valid, HeavyJobStore.Follows, HeavyJobStore.Valid, Traced;
      var prunable: set<JobId> := set j | j in jobs.jobs && Finished(jobs.jobs[j]) && j in expired;
      var left := prunable;
      while left != {}
        invariant Durable() && left <= prunable
        invariant forall j :: j in jobs.jobs ==> j in old(jobs.jobs) && jobs.jobs[j] == old(jobs.jobs)[j]
        invariant forall j :: j in old(jobs.jobs) && j !in jobs.jobs ==>
          j in prunable && !Unsettled(old(jobs.jobs)[j])
        invariant forall j :: j in left ==> j in jobs.jobs
        invariant forall j :: j in prunable && j !in left ==>
          old(jobs.jobs)[j].processId.Some? && !Unsettled(old(jobs.jobs)[j]) ==> j !in jobs.jobs
        decreases |left|
      {
        var j :| j in left;
        left := left - {j};
        var process := FindProcess(j);
        if process.None? || !Owed(process.value) {
          var deleted := jobs.DeleteFinished(j);
        }
      }
    }
  }

  /** Any number of daemons, one after the other, each recovering what the last one left and dying wherever it
      happens to be, with exits, stops, starts and restarts of tasks and users' requests in between.
      At every moment a job that was ever sent GO and no longer holds its slot was
      released on record, and a job counts as successful only on convincing evidence and if nobody asked
      it to stop. */
  method RunThroughCrashes(jobs: HeavyJobStore, supervisor: ProcessSupervisor, lives: nat)
    requires jobs.Valid() && jobs.jobs == map[] && jobs.tainted == {} && jobs.released == {}
    requires supervisor.Valid() && supervisor.events == [] && supervisor.gos == {}
    modifies jobs, supervisor
    ensures Careful(supervisor.events)
    ensures forall j, id, identity :: GoSent(OfJob(j), id, identity) in supervisor.events ==>
      (j in jobs.jobs && jobs.jobs[j].state.Running?) || Released(j) in supervisor.events
    ensures forall j :: j in jobs.jobs && jobs.jobs[j].state.Succeeded? ==>
      jobs.jobs[j].stopReason.None? && j in jobs.verdicts && Convincing(jobs.verdicts[j])
    ensures |Held(jobs.jobs)| <= jobs.maxConcurrent && OnePerWorktree(jobs.jobs)
  {
    hide HeavyJobStore.Valid, ProcessSupervisor.Valid;
    var life := 0;
    var queue := new Queue(jobs, supervisor);
    while life < lives
      invariant queue.Durable() && queue.jobs == jobs && queue.supervisor == supervisor && fresh(queue)
    {
      queue := new Queue(jobs, supervisor);
      var died := queue.RecoverProcesses();
      var turns: nat := *;
      while turns > 0 && !died
        invariant queue.Durable() && queue.jobs == jobs && queue.supervisor == supervisor && fresh(queue)
      {
        turns := turns - 1;
        queue.Yield();
        if * {
          queue.Request();
        } else {
          var failed: bool;
          var claims: nat;
          var exhausted: bool;
          died, failed, claims, exhausted := queue.Flush();
        }
      }
      life := life + 1;
    }
    queue.WhatHolds();
  }
}
