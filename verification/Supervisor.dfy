/** Starting, watching, stopping and recovering processes the daemon can only observe. */
module Supervisor {
  import opened Wrappers
  import opened ProcessJournal
  import JobStore

  datatype WaitResult = Gone | Mismatch | StillAlive | Unclear

  /** How a run is recorded once its group is gone, when its task had already ended by itself. */
  datatype Ending = Ending(state: ProcessState, exit: Exit)

  datatype Stop = Ended(record: Record) | StopFailed

  /** What became of a start. `NotStarted` and `Cleaned` say that no process is left to account for. */
  datatype Start =
    | Started(record: Record, existing: bool)
    | NotStarted
    | Cleaned
    | UnconfirmedAnchor(pid: nat)
    | CleanupOwned
    | Unexplained
    | DaemonDied

  /** What a start meets: whether the log was prepared and the anchor spawned, under which number, what the
      anchor reports about itself, whether the store takes the record and the caller's note of it, how many looks
      at its identity the deadline allows, whether GO was sent and acknowledged, whether the anchor exits when it
      is told to, whether a failure can be recorded, and at which of four points, if any, the daemon dies. */
  datatype Luck = Luck(prepared: bool, pid: nat, reported: Option<Identity>, created: bool, noted: bool, looks: nat,
                       sent: bool, acknowledged: bool, exits: bool, durable: bool, death: nat)

  /** What one attempt of `start` meets: whether it gets the reservation, whether somebody else holds one, and
      whether that one can be released for a run that is alive. */
  datatype Attempt = Attempt(reserved: bool, blocked: bool, freed: bool, luck: Luck)

  /** The anchor reported an identity of the number it was spawned under. */
  predicate Reports(luck: Luck) {
    luck.reported.Some? && luck.reported.value.pid == luck.pid == luck.reported.value.pgid
  }

  predicate Fortunate(luck: Luck) {
    luck.created && luck.noted && luck.sent && luck.acknowledged
  }

  /** What a record never changes. No identifier is ever issued twice. */
  datatype Birth = Birth(id: nat, owner: Owner, identity: Identity)

  function BirthOf(r: Record): Birth { Birth(r.id, r.owner, r.identity) }

  predicate Consistent(records: map<nat, Record>, births: set<Birth>) {
    && (forall id :: id in records ==> records[id].id == id && BirthOf(records[id]) in births)
    && (forall a, b :: a in births && b in births && a.id == b.id ==> a == b)
  }

  predicate OthersMoved(records: map<nat, Record>, births: set<Birth>, kept: set<nat>, next: map<nat, Record>,
      nextBirths: set<Birth>) {
    && births <= nextBirths && Consistent(next, nextBirths) && kept <= next.Keys
    && (forall id :: id in records && id in next ==> Legal(records[id].state, next[id].state))
  }

  /** A run that is not over for the supervisor. */
  predicate Owed(r: Record) {
    Active(r.state) || r.cleanupRequired
  }

  predicate Clean(c: JobStore.Completion) {
    c.exitCode == Some(0) && c.signal.None? && !c.timedOut && !c.logFailed
  }

  /** A run counts as ended well on exactly the completion that lets a job succeed. */
  lemma CleanIsConvincing(c: JobStore.Completion)
    ensures Clean(c) <==> JobStore.Convincing(JobStore.Verdict(Some(c), None, false, false, false))
  {
  }

  /** How a run that ended unobserved is recorded. Only a run that was starting or running is asked about;
      without an answer its end is unknown, and it counts as stopped rather than as crashed. */
  predicate Crashed(record: Record, ended: Option<JobStore.Completion>) {
    record.state.Failed? || ((record.state.Starting? || record.state.Running?) && ended.Some? && !Clean(ended.value))
  }

  function EndedState(record: Record, ended: Option<JobStore.Completion>): ProcessState {
    if Crashed(record, ended) then Failed else Stopped
  }

  /** The records recovery cannot store an answer for: a STOPPED or STALE_IDENTITY record that is still flagged,
      unless its group is gone as well, or its number in other hands. */
  predicate RecoveryRefused(record: Record, leader: Inspection, group: GroupInspection) {
    || (record.state.Stopped? && !(leader.Absent? && group.GroupAbsent?))
    || (record.state.StaleIdentity? && !(leader.Present? && leader.identity != record.identity))
  }

  /** The row after a transition. A final state takes the exit it is given, if any. */
  function Moved(row: Record, state: ProcessState, cleanup: bool, exit: Option<Exit>): Record {
    row.(state := state, cleanupRequired := cleanup, exit := if exit.Some? && !Active(state) then exit else row.exit)
  }

  datatype Answer = Unneeded | Impossible | MovedOn | Written

  /** How the store answers a caller who saw `seen` and asks for this state and flag. */
  function AnswerOf(records: map<nat, Record>, seen: Record, state: ProcessState, cleanup: bool): Answer {
    if seen.state == state && seen.cleanupRequired == cleanup then Unneeded
    else if !Legal(seen.state, state) || seen.id !in records then Impossible
    else if records[seen.id].state != seen.state then MovedOn
    else Written
  }

  /** What the caller is told, and what the store holds afterwards. */
  predicate Answered(before: map<nat, Record>, seen: Record, state: ProcessState, cleanup: bool, exit: Option<Exit>,
      result: Record, after: map<nat, Record>) {
    match AnswerOf(before, seen, state, cleanup)
    case Unneeded => result == seen && after == before
    case Impossible => after == before
    case MovedOn => seen.id in before && result == before[seen.id] && after == before
    case Written =>
      seen.id in before && result == Moved(before[seen.id], state, cleanup, exit) && after == before[seen.id := result]
  }

  /** What the journal says about an answer of the store. */
  function Noted(answer: Answer, seen: Record, state: ProcessState, cleanup: bool): seq<Event> {
    match answer
    case Unneeded => []
    case Written => [Stored(seen.id, seen.identity, seen.state, state, cleanup)]
    case _ => [Declined(seen.id, seen.state, state)]
  }

  /** How a run whose task ended by itself is recorded. */
  function EndingOf(exited: Option<Exit>): Option<Ending> {
    if exited.None? then None
    else Some(Ending(if exited.value == Exit(Some(0), None) then Stopped else Failed, exited.value))
  }

  function StateAfter(ended: Option<Ending>): ProcessState {
    if ended.None? then Stopped else ended.value.state
  }

  /** The last thing a stop did was to store what its last looks had found: the end of the run, the number in
      other hands, or that it gave up. */
  ghost predicate StopSettled(op: seq<Event>, record: Record, ended: Option<Ending>, stop: Stop) {
    && op != []
    && (var looked, e := op[..|op| - 1], op[|op| - 1];
        if stop.StopFailed? then
          && GaveUp(looked, record.identity) && e == Stored(record.id, record.identity, Stopping, Failed, true)
        else if SeenEmpty(looked, record.identity) then
          e == Stored(record.id, record.identity, Stopping, StateAfter(ended), record.cleanupRequired)
        else
          && PassedOn(looked, record.identity)
          && e == Stored(record.id, record.identity, Stopping, StaleIdentity, record.cleanupRequired))
  }

  /** Why a launch that met no misfortune of its own did not succeed: another run of this owner is active, the job
      is bound already, the anchor was not seen twice as the process it says it is, or its record moved on. */
  ghost predicate LaunchHindered(op: seq<Event>, identity: Identity, record: Option<Record>, bound: bool) {
    || record.None? || bound || Contested(op, record.value.id)
    || (LastLooked(op, identity.pid) && !TwiceSeen(op, identity))
  }

  lemma Hindered(op: seq<Event>, identity: Identity, record: Option<Record>, bound: bool)
    requires record.None? || bound || Contested(op, record.value.id)
    ensures LaunchHindered(op, identity, record, bound)
  {
  }

  /** The last two looks did not show one process. */
  ghost predicate SeenOnceOnly(op: seq<Event>) {
    forall x: Identity :: !TwiceSeen(op, x)
  }

  /** An anchor that was not seen twice as the process it says it is hinders its launch. */
  lemma NotConvinced(before: seq<Event>, op: seq<Event>, seen: Inspection, identity: Identity, record: Option<Record>,
      bound: bool)
    requires before != [] && !before[|before| - 1].Inspected? && before < op && LastLooked(op, identity.pid)
    requires seen.Present? ==> seen.identity != identity && op[|op| - 1] == Inspected(identity.pid, seen)
    requires !seen.Present? && |before| + 1 < |op| ==> SeenOnceOnly(op)
    ensures LaunchHindered(op, identity, record, bound)
  {
    hide Contested;
    if |op| == |before| + 1 {
      assert op[|op| - 2] == before[|before| - 1];
    }
  }

  /** How a spawn ends. Without a misfortune it starts the run, unless the job's anchor is bound already or the
      launch was hindered; an anchor that must be undone is unless that cannot be confirmed. */
  ghost predicate SpawnAnswered(luck: Luck, anchorBound: bool, processBound: bool, launch: seq<Event>,
      recorded: Option<Record>, start: Start)
  {
    && (start.NotStarted? <==> !luck.prepared)
    && (start.DaemonDied? ==> luck.death in {1, 2, 3, 4})
    && (luck.prepared && !anchorBound && (luck.death == 1 || (luck.death == 2 && Reports(luck))) ==> start.DaemonDied?)
    && (luck.prepared && luck.death == 0 ==>
          if anchorBound then start == (if luck.exits then Cleaned else UnconfirmedAnchor(luck.pid))
          else if !Reports(luck) then start == (if luck.exits then Cleaned else Unexplained)
          else start.Started? || start in {Cleaned, CleanupOwned})
    && (luck.prepared && luck.death == 0 && !anchorBound && Reports(luck) && Fortunate(luck) && !start.Started? ==>
          LaunchHindered(launch, luck.reported.value, recorded, processBound))
    && (start.Started? ==> !start.existing && Reports(luck) && luck.reported.value == start.record.identity)
  }

  /** The row of a job before an attempt to start it. */
  function AnchorBound(owner: Owner, jobs: map<nat, JobStore.Job>): bool {
    owner.OfJob? && owner.job in jobs && jobs[owner.job].anchorPid.Some?
  }

  function ProcessBound(owner: Owner, jobs: map<nat, JobStore.Job>): bool {
    owner.OfJob? && owner.job in jobs && jobs[owner.job].processId.Some?
  }

  /** What ends a start at an attempt, given the active record it found. */
  ghost predicate Decided(op: seq<Event>, existing: Option<Record>, a: Attempt, start: Start, anchorBound: bool,
      processBound: bool)
  {
    if existing.None? then
      if a.reserved then
        exists launch, recorded ::
          launch <= op && SpawnAnswered(a.luck, anchorBound, processBound, launch, recorded, start)
      else a.blocked && start == Unexplained
    else if a.blocked then
      if existing.value.state.Running? && !existing.value.cleanupRequired && a.freed && op != []
         && op[|op| - 1] == Inspected(existing.value.identity.pid, Present(existing.value.identity))
      then start == Started(existing.value, true) else start == Unexplained
    else if existing.value.state.Stopping? then start == Unexplained
    else Reused(op, existing.value, start)
  }

  /** An active record ends the start if it cannot be looked at, if the store declines an answer for it, if what its
      task left behind could not be stopped; or it is returned. */
  ghost predicate Reused(op: seq<Event>, existing: Record, start: Start) {
    || (start == Unexplained
        && (|| Contested(op, existing.id) || GaveUpOn(op, existing)
            || (op != [] && op[|op| - 1] == Inspected(existing.identity.pid, Unreadable))))
    || (start.Started? && start.existing && start.record.id == existing.id
        && (existing.state.Running? ==> ExitAsked(existing.id, None) in op)
        && (start.record == existing || start.record.state.Running? || Contested(op, existing.id)))
  }

  /** The leftovers of an exited task could not be stopped. */
  ghost predicate GaveUpOn(op: seq<Event>, r: Record) {
    op != [] && op[|op| - 1] == Stored(r.id, r.identity, Stopping, Failed, true)
  }

  /** Why an anchor could not be undone. */
  ghost predicate RollbackFailed(op: seq<Event>, identity: Identity) {
    GaveUp(op, identity) || (op != [] && Strange(op[|op| - 1], identity))
  }

  ghost predicate HasActive(records: map<nat, Record>, owner: Owner) {
    exists id :: id in records && records[id].owner == owner && Active(records[id].state)
  }

  class ProcessSupervisor {
    /** How often the k-th wait may look again before its deadline: an adversary's choice. */
    const patience: nat -> nat
    /** Waits so far. */
    var waits: nat
    var records: map<nat, Record>
    /** Every record ever created. */
    var births: set<Birth>
    /** Records that are not deleted: the queue's retention spares those of jobs it still accounts for. */
    var kept: set<nat>
    ghost var events: seq<Event>
    /** The `GoSent` events among them. */
    ghost var gos: set<Event>
    /** The jobs whose release is among them. */
    ghost var released: set<nat>
    /** Where a run was let go without its group being accounted for. Methods that do not list this field
        under `modifies` never do that. */
    ghost var strays: set<nat>
    /** How many attempts starts have made. */
    ghost var tried: nat

    ghost predicate Valid()
      reads this`records, this`births, this`kept, this`events, this`gos, this`released, this`strays
    {
      && Careful(events) && strays == Strays(events)
      && Consistent(records, births)
      && kept <= records.Keys
      && (forall e :: e in events && e.GoSent? ==> e in gos)
      && (forall j :: j in released ==> Released(j) in events)
      && (forall e :: e in events && e.Recorded? ==> Birth(e.id, e.owner, e.identity) in births)
    }

    /** The operation under way at `past` still is, and nothing it did is forgotten. */
    ghost predicate Continues(past: seq<Event>, pastBirths: set<Birth>) reads this`events, this`births {
      past <= events && Operation(past) <= Operation(events) && pastBirths <= births
    }

    ghost function Op(): seq<Event> reads this`events { Operation(events) }

    /** A copy of a record somebody read earlier: it may be out of date, but it names the same process. */
    ghost predicate Known(r: Record) reads this`births {
      BirthOf(r) in births
    }

    constructor (patience: nat -> nat)
      ensures Valid() && records == map[] && events == [] && gos == {} && released == {} && kept == {} && births == {}
      ensures strays == {}
    {
      this.patience, waits := patience, 0;
      records, births, kept, events, gos, released, strays, tried := map[], {}, {}, [], {}, {}, {}, 0;
    }

    // ----- observations and effects ---------------------------------------------------------------

    ghost method Log(e: Event)
      requires Valid() && Justified(events, Op(), e) && !Stray(Op(), e) && !e.Recorded? && !e.GoSent?
      modifies this`events
      ensures Valid() && events == old(events) + [e]
      ensures Op() == if e.Began? then [] else old(Op()) + [e]
    {
      hide Justified, Careful, Stray, Strays;
      CarefulExtends(events, e);
      OperationExtends(events, e);
      StraysExtend(events, e);
      events := events + [e];
    }

    /** While an operation waits, operations under other keys run, and so may recovery: any record may
        move on, appear or disappear. */
    method Await()
      requires Valid()
      modifies this`records, this`births
      ensures Valid() && old(births) <= births
    {
      hide Careful, Strays;
      assert OthersMoved(records, births, kept, records, births);
      var next: map<nat, Record>, nextBirths: set<Birth> :| OthersMoved(records, births, kept, next, nextBirths);
      assert OthersMoved(records, births, kept, next, nextBirths);
      records, births := next, nextBirths;
    }

    method Inspect(pid: nat) returns (answer: Inspection)
      requires Valid()
      modifies this`records, this`births, this`events
      ensures Valid() && Continues(old(events), old(births))
      ensures Op() == old(Op()) + [Inspected(pid, answer)] && Looked(old(Op()), Op())
    {
      hide Careful, Strays;
      Await();
      answer := *;
      Log(Inspected(pid, answer));
    }

    method InspectGroup(pgid: nat) returns (group: GroupInspection)
      requires Valid()
      modifies this`records, this`births, this`events
      ensures Valid() && Continues(old(events), old(births))
      ensures events == old(events) + [GroupInspected(pgid, group)]
      ensures Op() == old(Op()) + [GroupInspected(pgid, group)] && Looked(old(Op()), Op())
    {
      hide Careful, Strays;
      Await();
      group := *;
      Log(GroupInspected(pgid, group));
    }

    /** Signalling may find no live target, which counts as done, or fail. */
    method SignalGroup(target: Identity, signal: Signal) returns (failed: bool)
      requires Valid() && Op() != [] && Op()[|Op()| - 1] == Inspected(target.pid, Present(target))
      requires signal.Kill? ==> Signalled(target, Term) in Op() || Aborted(target.pid) in Op()
      modifies this`events
      ensures Valid() && Continues(old(events), old(births))
      ensures Op() == old(Op()) + [Signalled(target, signal)]
        + if failed then [ProcessJournal.Refused(target, signal)] else []
    {
      hide Careful, Strays;
      Log(Signalled(target, signal));
      failed := *;
      if failed {
        Log(ProcessJournal.Refused(target, signal));
      }
    }

    ghost method Begin()
      requires Valid()
      modifies this`events
      ensures Valid() && Op() == [] && events == old(events) + [Began]
    {
      hide Careful, Strays;
      Log(Began);
    }

    /** Compare-and-set on the state the caller last saw. A record that moved on meanwhile is left alone
        and returned as it is. `thrown` is the store refusing an impossible transition. */
    method CompareAndSet(record: Record, state: ProcessState, cleanup: bool, exit: Option<Exit>)
        returns (result: Record, thrown: bool, lost: bool, stored: bool)
      requires Valid() && Known(record)
      modifies this`records
      ensures Valid() && BirthOf(result) == BirthOf(record)
      ensures stored <==> AnswerOf(old(records), record, state, cleanup).Written?
      ensures !thrown && !lost ==> result.state == state && result.cleanupRequired == cleanup
      ensures thrown <==> AnswerOf(old(records), record, state, cleanup).Impossible?
      ensures lost <==> AnswerOf(old(records), record, state, cleanup).MovedOn?
      ensures Answered(old(records), record, state, cleanup, exit, result, records)
    {
      hide Careful, Strays;
      thrown, lost, stored, result := false, false, false, record;
      if record.state == state && record.cleanupRequired == cleanup { return; }
      if !Legal(record.state, state) || record.id !in records { return record, true, false, false; }
      var current := records[record.id];
      if current.state != record.state { return current, false, true, false; }
      result := current.(state := state, cleanupRequired := cleanup,
                         exit := if exit.Some? && !Active(state) then exit else current.exit);
      records := records[record.id := result];
      stored := true;
    }

    /** A transition of a run whose end, if this is one, its operation can account for. */
    method Transition(record: Record, state: ProcessState, cleanup: bool, exit: Option<Exit>)
        returns (result: Record, thrown: bool, lost: bool)
      requires Valid() && Known(record)
      requires (record.state != state || record.cleanupRequired != cleanup) ==>
        && MayStore(Op(), record.identity, record.state, state, cleanup)
        && !Stray(Op(), Stored(record.id, record.identity, record.state, state, cleanup))
      modifies this`records, this`events
      ensures Valid() && Continues(old(events), old(births))
      ensures result.id == record.id && result.identity == record.identity && result.owner == record.owner
      ensures Known(result)
      ensures events == old(events) + Noted(AnswerOf(old(records), record, state, cleanup), record, state, cleanup)
      ensures Op() == old(Op()) + Noted(AnswerOf(old(records), record, state, cleanup), record, state, cleanup)
      ensures !thrown && !lost ==>
        && result.state == state && result.cleanupRequired == cleanup
        && ((record.state == state && record.cleanupRequired == cleanup)
            || Stored(record.id, record.identity, record.state, state, cleanup) in Op())
      ensures thrown <==> AnswerOf(old(records), record, state, cleanup).Impossible?
      ensures lost <==> AnswerOf(old(records), record, state, cleanup).MovedOn?
      ensures Answered(old(records), record, state, cleanup, exit, result, records)
    {
      hide Careful, MayStore, Strays, Accounted, Consistent;
      var stored: bool;
      result, thrown, lost, stored := CompareAndSet(record, state, cleanup, exit);
      if stored {
        Log(Stored(record.id, record.identity, record.state, state, cleanup));
      } else if thrown || lost {
        Log(Declined(record.id, record.state, state));
      }
    }

    /** The same on the way to a new start, where a run whose leader is gone may be let go unexamined. Whether
        that happened is decided by the flag and by what the operation has seen of the group. */
    method LetGo(record: Record, state: ProcessState, cleanup: bool)
        returns (result: Record, thrown: bool, lost: bool)
      requires Valid() && Known(record) && Active(record.state) && !Active(state)
      requires MayStore(Op(), record.identity, record.state, state, cleanup)
      modifies this`records, this`events, this`strays
      ensures Valid() && Continues(old(events), old(births))
      ensures result.id == record.id && result.identity == record.identity && result.owner == record.owner
      ensures Known(result)
      ensures events == old(events) + Noted(AnswerOf(old(records), record, state, cleanup), record, state, cleanup)
      ensures Op() == old(Op()) + Noted(AnswerOf(old(records), record, state, cleanup), record, state, cleanup)
      ensures !thrown && !lost ==>
        && result.state == state && result.cleanupRequired == cleanup
        && ((record.state == state && record.cleanupRequired == cleanup)
            || Stored(record.id, record.identity, record.state, state, cleanup) in Op())
      ensures thrown <==> AnswerOf(old(records), record, state, cleanup).Impossible?
      ensures lost <==> AnswerOf(old(records), record, state, cleanup).MovedOn?
      ensures Answered(old(records), record, state, cleanup, None, result, records)
      ensures thrown || lost ==> strays == old(strays)
      ensures !thrown && !lost ==> (strays == old(strays) <==> cleanup || Accounted(old(Op()), record.identity))
    {
      hide Careful, MayStore, Strays, Accounted, Consistent;
      var stored: bool;
      result, thrown, lost, stored := CompareAndSet(record, state, cleanup, None);
      if stored {
        LogLetGo(Stored(record.id, record.identity, record.state, state, cleanup));
      } else if thrown || lost {
        Log(Declined(record.id, record.state, state));
      }
    }

    ghost method LogLetGo(e: Event)
      requires Valid() && e.Stored? && MayStore(Op(), e.identity, e.from, e.to, e.cleanup)
      modifies this`events, this`strays
      ensures Valid() && events == old(events) + [e] && Op() == old(Op()) + [e]
      ensures strays == old(strays) <==> !Stray(old(Op()), e)
    {
      hide MayStore, Careful, Stray, Strays, Consistent, Operation;
      CarefulExtends(events, e);
      OperationExtends(events, e);
      StraysExtend(events, e);
      NoStrayYet(events);
      if Stray(Op(), e) {
        strays := strays + {|events|};
      }
      events := events + [e];
    }

    lemma Listed(id: nat)
      requires Valid() && id in records
      ensures records[id].id == id && Known(records[id])
    {
    }

    /** Copies of one record name one process. */
    lemma SameProcess(a: Record, b: Record)
      requires Valid() && Known(a) && Known(b) && a.id == b.id
      ensures BirthOf(a) == BirthOf(b)
    {
    }

    ghost method LogRelease(j: nat)
      requires Valid() && Justified(events, Op(), Released(j))
      modifies this`events, this`released
      ensures Valid() && events == old(events) + [Released(j)] && released == old(released) + {j}
      ensures Op() == old(Op()) + [Released(j)]
    {
      hide Justified, Careful, Consistent, Operation, Strays;
      Log(Released(j));
      assert events[|events| - 1] == Released(j);
      released := released + {j};
    }

    /** From now on this record is not deleted. */
    method Keep(id: nat)
      requires Valid() && id in records
      modifies this`kept
      ensures Valid() && kept == old(kept) + {id}
    {
      kept := kept + {id};
    }

    /** Only these records are still spared. */
    method Spare(ids: set<nat>)
      requires Valid()
      modifies this`kept
      ensures Valid() && kept == old(kept) * ids
    {
      kept := kept * ids;
    }

    // ----- waiting -----------------------------------------------------------------------------------

    /** The number of looks a deadline allows is not known in advance. */
    method InspectWithRetry(pid: nat) returns (answer: Inspection)
      requires Valid()
      modifies this`waits, this`records, this`births, this`events
      ensures Valid() && Continues(old(events), old(births)) && Looked(old(Op()), Op())
      ensures old(Op()) < Op() && Op()[|Op()| - 1] == Inspected(pid, answer)
      ensures waits == old(waits) + 1
      ensures answer.Unreadable? ==> |Op()| == |old(Op())| + patience(old(waits)) + 1
      ensures forall k :: |old(Op())| <= k < |Op()| - 1 ==> Op()[k] == Inspected(pid, Unreadable)
    {
      hide Valid, Operation, Justified;
      var looks: nat := patience(waits);
      waits := waits + 1;
      answer := Inspect(pid);
      while answer.Unreadable? && looks > 0
        invariant waits == old(waits) + 1
        invariant |Op()| + looks == |old(Op())| + patience(old(waits)) + 1
        invariant Valid() && Continues(old(events), old(births)) && Looked(old(Op()), Op())
        invariant old(Op()) < Op() && Op()[|Op()| - 1] == Inspected(pid, answer)
        invariant forall k :: |old(Op())| <= k < |Op()| - 1 ==> Op()[k] == Inspected(pid, Unreadable)
      {
        looks := looks - 1;
        answer := Inspect(pid);
      }
    }

    method WaitForGroupAbsent(pgid: nat) returns (result: WaitResult)
      requires Valid()
      modifies this`waits, this`records, this`births, this`events
      ensures Valid() && Continues(old(events), old(births)) && Looked(old(Op()), Op())
      ensures old(Op()) < Op() && Op()[|Op()| - 1].GroupInspected? && Op()[|Op()| - 1].pgid == pgid
      ensures result.Gone? <==> Op()[|Op()| - 1] == GroupInspected(pgid, GroupAbsent)
      ensures result.Unclear? <==> Op()[|Op()| - 1] == GroupInspected(pgid, GroupUnreadable)
      ensures !result.Mismatch? && waits == old(waits) + 1
      ensures !result.Gone? ==> |Op()| == |old(Op())| + patience(old(waits)) + 1
      ensures forall k :: |old(Op())| <= k < |Op()| ==> Op()[k].GroupInspected? && Op()[k].pgid == pgid
      ensures forall k :: |old(Op())| <= k < |Op()| - 1 ==> !Op()[k].group.GroupAbsent?
      ensures result.Gone? ==> GroupInspected(pgid, GroupAbsent) in Op()
    {
      hide Valid, Operation, Justified;
      var looks: nat := patience(waits);
      waits := waits + 1;
      while true
        invariant waits == old(waits) + 1
        invariant |Op()| + looks == |old(Op())| + patience(old(waits))
        invariant Valid() && Continues(old(events), old(births)) && Looked(old(Op()), Op())
        invariant forall k :: |old(Op())| <= k < |Op()| ==>
          Op()[k].GroupInspected? && Op()[k].pgid == pgid && !Op()[k].group.GroupAbsent?
        decreases looks
      {
        var group := InspectGroup(pgid);
        if group.GroupAbsent? { return Gone; }
        if looks == 0 { return if group.GroupUnreadable? then Unclear else StillAlive; }
        looks := looks - 1;
      }
    }

    /** Waits for the signalled group to go, or for its leader's number to pass to another process. */
    method WaitForOwnedGroupChange(record: Record) returns (result: WaitResult)
      requires Valid()
      modifies this`waits, this`records, this`births, this`events
      ensures Valid() && Continues(old(events), old(births)) && Looked(old(Op()), Op())
      ensures old(Op()) < Op()
      ensures result.Gone? ==> SeenEmpty(Op(), record.identity)
      ensures result.Mismatch? ==> Strange(Op()[|Op()| - 1], record.identity)
      ensures result.Unclear? ==> GaveUp(Op(), record.identity)
      ensures result.StillAlive? ==>
        && Op()[|Op()| - 1].GroupInspected? && Op()[|Op()| - 1].pgid == record.identity.pgid
        && 1 < |Op()| && Op()[|Op()| - 2] == Inspected(record.identity.pid, Present(record.identity))
      ensures waits == old(waits) + 1
      ensures result.Unclear? || result.StillAlive? ==> |old(Op())| + patience(old(waits)) < |Op()|
      ensures Prompt(old(Op()), Op(), record.identity)
    {
      hide Valid, Operation, Justified, Prompt, Undecided, Looked, SeenEmpty, GaveUp;
      ghost var op, target := Op(), record.identity;
      NothingYet(op, target);
      var looks: nat := patience(waits);
      waits := waits + 1;
      NothingLooked(op);
      while true
        invariant waits == old(waits) + 1 && |op| + patience(old(waits)) <= |Op()| + looks
        invariant Valid() && Continues(old(events), old(births)) && Looked(op, Op())
        invariant Prompt(op, Op(), target) && Undecided(op, Op(), target)
        decreases looks
      {
        ghost var was := Op();
        var change: Option<WaitResult>;
        change, result := LookForChange(record, op);
        LookedFurther(op, was, Op());
        if change.Some? { return change.value; }
        if looks == 0 { return; }
        looks := looks - 1;
      }
    }

    /** One round of such a wait. Without a change, `late` is the verdict if it was the last. */
    method LookForChange(record: Record, ghost op: seq<Event>) returns (change: Option<WaitResult>, late: WaitResult)
      requires Valid() && Prompt(op, Op(), record.identity) && Undecided(op, Op(), record.identity)
      modifies this`records, this`births, this`events
      ensures Valid() && Continues(old(events), old(births)) && Looked(old(Op()), Op())
      ensures old(Op()) < Op() && Prompt(op, Op(), record.identity)
      ensures change.Some? ==>
        || (change.value.Gone? && SeenEmpty(Op(), record.identity))
        || (change.value.Mismatch? && Strange(Op()[|Op()| - 1], record.identity))
      ensures change.None? ==>
        && Undecided(op, Op(), record.identity)
        && if late.Unclear? then GaveUp(Op(), record.identity)
           else
             && late.StillAlive?
             && Op()[|Op()| - 1].GroupInspected? && Op()[|Op()| - 1].pgid == record.identity.pgid
             && 1 < |Op()| && Op()[|Op()| - 2] == Inspected(record.identity.pid, Present(record.identity))
    {
      hide Valid, Operation, Justified, Prompt;
      ghost var target := record.identity;
      ghost var was := Op();
      change, late := None, Unclear;
      var leader := Inspect(record.identity.pid);
      OneFurther(op, was, Op(), target);
      if leader.Unreadable? {
        DecidesNothing(op, Op(), target);
        return;
      }
      if leader.Present? && leader.identity != record.identity { return Some(Mismatch), late; }
      DecidesNothing(op, Op(), target);
      was := Op();
      var group := InspectGroup(record.identity.pgid);
      OneFurther(op, was, Op(), target);
      if group.GroupUnreadable? {
        DecidesNothing(op, Op(), target);
        return;
      }
      if leader.Absent? && group.GroupAbsent? { return Some(Gone), late; }
      DecidesNothing(op, Op(), target);
      late := if leader.Absent? && group.GroupPresent? then Unclear else StillAlive;
    }

    /** The store holds exactly this row. */
    ghost predicate Stands(r: Record) reads this`records {
      r.id in records && records[r.id] == r
    }

    /** A stop is settled in the journal, and the store holds what it reports. */
    ghost predicate StopStands(record: Record, ended: Option<Ending>, stop: Stop) reads this`records, this`events {
      && StopSettled(Op(), record, ended, stop)
      && record.id in records
      && records[record.id].state == Op()[|Op()| - 1].to
      && records[record.id].cleanupRequired == Op()[|Op()| - 1].cleanup
      && (stop.Ended? ==> Stands(stop.record) && stop.record.id == record.id)
      && (stop.Ended? && !stop.record.state.StaleIdentity? && ended.Some? ==>
            stop.record.exit == Some(ended.value.exit))
    }

    // ----- stopping ----------------------------------------------------------------------------------

    /** Records the end of a run whose group was seen gone. */
    method RecordGone(stopping: Record, ended: Option<Ending>) returns (result: Record, thrown: bool, lost: bool)
      requires Valid() && Known(stopping) && GroupInspected(stopping.identity.pgid, GroupAbsent) in Op()
      requires ended.Some? ==> ended.value.state in {Stopped, Failed}
      modifies this`records, this`events
      ensures Valid() && Continues(old(events), old(births)) && BirthOf(result) == BirthOf(stopping)
      ensures var answer := AnswerOf(old(records), stopping, StateAfter(ended), stopping.cleanupRequired);
        && thrown == answer.Impossible? && lost == answer.MovedOn?
        && Op() == old(Op()) + Noted(answer, stopping, StateAfter(ended), stopping.cleanupRequired)
      ensures Answered(old(records), stopping, StateAfter(ended), stopping.cleanupRequired,
        if ended.None? then None else Some(ended.value.exit), result, records)
    {
      hide Valid, Operation, Justified;
      if ended.None? {
        result, thrown, lost := Transition(stopping, Stopped, stopping.cleanupRequired, None);
      } else {
        result, thrown, lost := Transition(stopping, ended.value.state, stopping.cleanupRequired,
          Some(ended.value.exit));
      }
    }

    /** Stops one run: TERM, wait, KILL, wait, each signal only to the process that was recorded. A stop
        that returns normally saw the group gone or the number in other hands. One that fails leaves the
        record FAILED with its cleanup flag set. Only a store that declined to answer changes that. */
    method StopLocked(record: Record, ended: Option<Ending>) returns (stop: Stop, ghost contested: bool)
      requires Valid() && Known(record) && Active(record.state)
      requires ended.Some? ==> ended.value.state in {Stopped, Failed}
      modifies this`waits, this`records, this`births, this`events
      ensures strays == old(strays)
      ensures Valid() && Continues(old(events), old(births))
      ensures contested ==> Contested(Op(), record.id)
      ensures !contested ==> StopStands(record, ended, stop)
      ensures stop.Ended? ==>
        && BirthOf(stop.record) == BirthOf(record)
        && (GroupInspected(record.identity.pgid, GroupAbsent) in Op() || Impostor(Op(), record.identity))
      ensures Graceful(old(Op()), record.identity) ==> Graceful(Op(), record.identity)
    {
      hide Valid, Operation, Justified, Graceful, StopStands, GaveUp, PassedOn;
      contested := false;
      var stopping := record;
      ghost var op := Op();
      if !record.state.Stopping? {
        var thrown: bool;
        ghost var lost: bool;
        stopping, thrown, lost := Transition(record, Stopping, record.cleanupRequired, None);
        contested := lost || thrown;
        NotedGraceful(op, Op(), record.identity);
        if thrown {
          assert Declined(record.id, record.state, Stopping) in Op();
          return StopFailed, true;
        }
      }
      op := Op();
      var gone, stale := StopGroup(stopping);
      ghost var looked := Op();
      ghost var undecided: bool;
      stop, undecided := EndStop(stopping, ended, gone, stale);
      if contested {
        assert Declined(record.id, record.state, Stopping) in op;
        StillContested(op, Op(), record.id);
      }
      NotedGraceful(looked, Op(), record.identity);
      if !contested && !undecided {
        SameStop(stopping, record, ended, stop);
      }
      contested := contested || undecided;
    }

    lemma SameStop(a: Record, b: Record, ended: Option<Ending>, stop: Stop)
      requires BirthOf(a) == BirthOf(b) && a.cleanupRequired == b.cleanupRequired && StopStands(a, ended, stop)
      ensures StopStands(b, ended, stop)
    {
    }

    /** Records what a stop saw, or that it failed. */
    method EndStop(stopping: Record, ended: Option<Ending>, gone: bool, stale: bool)
        returns (stop: Stop, ghost contested: bool)
      requires Valid() && Known(stopping) && (ended.Some? ==> ended.value.state in {Stopped, Failed})
      requires gone ==> SeenEmpty(Op(), stopping.identity)
      requires !gone && stale ==> PassedOn(Op(), stopping.identity)
      requires !gone && !stale ==> GaveUp(Op(), stopping.identity)
      modifies this`records, this`births, this`events
      ensures Valid() && Continues(old(events), old(births)) && Quietly(old(Op()), Op())
      ensures contested ==> Contested(Op(), stopping.id)
      ensures !contested && stopping.state.Stopping? ==> StopStands(stopping, ended, stop)
      ensures stop.Ended? ==>
        && BirthOf(stop.record) == BirthOf(stopping)
        && (GroupInspected(stopping.identity.pgid, GroupAbsent) in Op() || Impostor(Op(), stopping.identity))
    {
      hide Valid, Operation, Justified, StopStands, Contested, GaveUp, PassedOn, SeenEmpty;
      contested := false;
      ghost var op := Op();
      if gone || stale {
        var last, thrown := RecordVerdict(stopping, ended, gone);
        contested := Contested(Op(), stopping.id);
        if !thrown { return Ended(last), contested; }
        op := Op();
      }
      StoreFailure(stopping, ended);
      if contested {
        StillContested(op, Op(), stopping.id);
      }
      contested := Contested(Op(), stopping.id);
      stop := StopFailed;
    }

    method RecordVerdict(stopping: Record, ended: Option<Ending>, gone: bool) returns (last: Record, thrown: bool)
      requires Valid() && Known(stopping) && (ended.Some? ==> ended.value.state in {Stopped, Failed})
      requires if gone then SeenEmpty(Op(), stopping.identity) else PassedOn(Op(), stopping.identity)
      modifies this`records, this`events
      ensures Valid() && Continues(old(events), old(births)) && Quietly(old(Op()), Op())
      ensures BirthOf(last) == BirthOf(stopping)
      ensures GroupInspected(stopping.identity.pgid, GroupAbsent) in Op() || Impostor(Op(), stopping.identity)
      ensures thrown ==> Contested(Op(), stopping.id)
      ensures !Contested(Op(), stopping.id) && stopping.state.Stopping? ==> StopStands(stopping, ended, Ended(last))
    {
      hide Valid, Operation, Justified, Contested;
      EndIsAccounted(Op(), Op(), stopping.identity);
      ghost var op := Op();
      ghost var state := if gone then StateAfter(ended) else StaleIdentity;
      var lost: bool;
      if gone {
        last, thrown, lost := RecordGone(stopping, ended);
      } else {
        last, thrown, lost := Transition(stopping, StaleIdentity, stopping.cleanupRequired, None);
      }
      if thrown || lost {
        NotedIsContested(op, Op(), stopping.id, stopping.state, state);
      }
      EndIsAccounted(op, Op(), stopping.identity);
    }

    method StoreFailure(stopping: Record, ghost ended: Option<Ending>)
      requires Valid() && Known(stopping)
      modifies this`records, this`events
      ensures Valid() && Continues(old(events), old(births)) && Quietly(old(Op()), Op())
      ensures GaveUp(old(Op()), stopping.identity) && !Contested(Op(), stopping.id) && stopping.state.Stopping? ==>
        StopStands(stopping, ended, StopFailed)
    {
      hide Valid, Operation, Justified, Contested, GaveUp;
      ghost var op := Op();
      var last, thrown, lost := Transition(stopping, Failed, true, None);
      if thrown || lost {
        NotedIsContested(op, Op(), stopping.id, stopping.state, Failed);
      }
    }

    /** The part of a stop that touches the process: TERM, wait, KILL, wait. What its last looks found decides
        between gone, stale and failed, and nothing else makes it give up. */
    method StopGroup(stopping: Record) returns (gone: bool, stale: bool)
      requires Valid() && Known(stopping)
      modifies this`waits, this`records, this`births, this`events
      ensures Valid() && Continues(old(events), old(births))
      ensures gone ==> SeenEmpty(Op(), stopping.identity) && !stale
      ensures stale ==> PassedOn(Op(), stopping.identity)
      ensures !gone && !stale ==> GaveUp(Op(), stopping.identity)
      ensures Prompt(old(Op()), Op(), stopping.identity)
      ensures Graceful(old(Op()), stopping.identity) ==> Graceful(Op(), stopping.identity)
    {
      hide Valid, Operation, Justified, Graceful, Looked, Prompt;
      var target := stopping.identity;
      ghost var op := Op();
      var leader := InspectWithRetry(target.pid);
      RetriesArePrompt(op, Op(), target);
      LookedGraceful(op, Op(), target);
      ghost var seen := Op();
      if leader.Unreadable? { return false, false; }
      if leader.Absent? {
        DecidesNothing(op, seen, target);
        var group := InspectGroup(target.pgid);
        OneFurther(op, seen, Op(), target);
        LookedGraceful(seen, Op(), target);
        return group.GroupAbsent?, false;
      }
      if leader.identity != target { return false, true; }

      DecidesNothing(op, seen, target);
      var failed := SignalGroup(target, Term);
      TermGraceful(seen, Op(), target);
      SignalIsPrompt(seen, Op(), target, Term);
      GoesOn(op, seen, Op(), target);
      if failed { return false, false; }
      DecidesNothing(op, Op(), target);
      gone, stale := AwaitGroup(stopping, op);
    }

    /** After the TERM: the group goes by itself, or passes to another process, or gets the KILL. */
    method AwaitGroup(stopping: Record, ghost op: seq<Event>) returns (gone: bool, stale: bool)
      requires Valid() && Known(stopping) && Signalled(stopping.identity, Term) in Op()
      requires Prompt(op, Op(), stopping.identity) && Undecided(op, Op(), stopping.identity)
      modifies this`waits, this`records, this`births, this`events
      ensures Valid() && Continues(old(events), old(births))
      ensures gone ==> SeenEmpty(Op(), stopping.identity) && !stale
      ensures stale ==> PassedOn(Op(), stopping.identity)
      ensures !gone && !stale ==> GaveUp(Op(), stopping.identity)
      ensures Prompt(op, Op(), stopping.identity)
      ensures Graceful(old(Op()), stopping.identity) ==> Graceful(Op(), stopping.identity)
    {
      hide Valid, Operation, Justified, Graceful, Looked, Prompt;
      var target := stopping.identity;
      ghost var sent := Op();
      var change := WaitForOwnedGroupChange(stopping);
      ghost var waited := Op();
      GoesOn(op, sent, waited, target);
      PromptGrows(op, sent, target);
      LookedGraceful(sent, waited, target);
      if change.Gone? { return true, false; }
      if change.Mismatch? {
        var group := InspectGroup(target.pgid);
        StrangeIsPrompt(op, waited, Op(), target);
        LookedGraceful(waited, Op(), target);
        return group.GroupAbsent?, group.GroupPresent?;
      }
      if change.Unclear? { return false, false; }

      DecidesNothing(op, waited, target);
      var leader := InspectWithRetry(target.pid);
      RetriesArePrompt(waited, Op(), target);
      GoesOn(op, waited, Op(), target);
      LookedGraceful(waited, Op(), target);
      gone, stale := KillGroup(target, leader, sent, waited, op);
    }

    /** The second half, once the leader was looked at again. */
    method KillGroup(target: Identity, leader: Inspection, ghost sent: seq<Event>, ghost waited: seq<Event>,
                     ghost start: seq<Event>)
        returns (gone: bool, stale: bool)
      requires Valid() && Op() != [] && Op()[|Op()| - 1] == Inspected(target.pid, leader)
      requires sent <= waited <= Op() && Signalled(target, Term) in sent && |sent| < |waited|
      requires waited[|waited| - 1].GroupInspected? && waited[|waited| - 1].pgid == target.pgid
      requires Prompt(start, Op(), target) && start < Op() && 1 < |Op()| && !Strange(Op()[|Op()| - 2], target)
      modifies this`waits, this`records, this`births, this`events
      ensures Valid() && Continues(old(events), old(births))
      ensures gone ==> SeenEmpty(Op(), target) && !stale
      ensures stale ==> Op() != [] && Strange(Op()[|Op()| - 1], target)
      ensures !gone && !stale ==> GaveUp(Op(), target)
      ensures Prompt(start, Op(), target)
      ensures Graceful(old(Op()), target) ==> Graceful(Op(), target)
    {
      hide Valid, Operation, Justified, Graceful, Looked, Prompt;
      ghost var op := Op();
      if leader.Unreadable? { return false, false; }
      if leader.Absent? {
        DecidesNothing(start, op, target);
        var group := InspectGroup(target.pgid);
        OneFurther(start, op, Op(), target);
        LookedGraceful(op, Op(), target);
        return group.GroupAbsent?, false;
      }
      if leader.identity != target { return false, true; }
      StillIn(sent, op, Signalled(target, Term));
      DecidesNothing(start, op, target);
      var failed := SignalGroup(target, Kill);
      KillGraceful(sent, waited, op, Op(), target);
      SignalIsPrompt(op, Op(), target, Kill);
      GoesOn(start, op, Op(), target);
      if failed { return false, false; }
      op := Op();
      DecidesNothing(start, op, target);
      var killed := WaitForGroupAbsent(target.pgid);
      WaitingIsPrompt(op, Op(), target);
      GoesOn(start, op, Op(), target);
      LookedGraceful(op, Op(), target);
      StillIn(op, Op(), Signalled(target, Kill));
      ghost var look := Op()[|Op()| - 1];
      assert look == GroupInspected(target.pgid, look.group);
      assert Signalled(target, Kill) in Op();
      assert !killed.Gone? ==> look.group.GroupPresent? || look.group.GroupUnreadable?;
      return killed.Gone?, false;
    }

    /** How the task itself ended, if it did before its group. */
    method TaskExit(id: nat) returns (exited: Option<Exit>)
      requires Valid()
      modifies this`records, this`births, this`events
      ensures Valid() && Continues(old(events), old(births)) && Op() == old(Op()) + [ExitAsked(id, exited)]
    {
      hide Careful, Strays;
      Await();
      exited := *;
      Log(ExitAsked(id, exited));
    }

    /** What the task itself wrote about its end decides how the run is recorded. */
    method StopActive(record: Record) returns (stop: Stop, ghost contested: bool, ghost exited: Option<Exit>)
      requires Valid() && Known(record) && Active(record.state)
      modifies this`waits, this`records, this`births, this`events
      ensures Valid() && Continues(old(events), old(births))
      ensures if record.state.Running? then ExitAsked(record.id, exited) in Op() else exited.None?
      ensures contested ==> Contested(Op(), record.id)
      ensures !contested ==> StopStands(record, EndingOf(exited), stop)
      ensures stop.Ended? ==>
        && BirthOf(stop.record) == BirthOf(record)
        && (GroupInspected(record.identity.pgid, GroupAbsent) in Op() || Impostor(Op(), record.identity))
      ensures Graceful(old(Op()), record.identity) ==> Graceful(Op(), record.identity)
    {
      hide Valid, Operation, Justified, Graceful, StopStands;
      ghost var op := Op();
      var answer: Option<Exit> := None;
      if record.state.Running? {
        answer := TaskExit(record.id);
        NotedGraceful(op, Op(), record.identity);
        assert Op()[|op|] == ExitAsked(record.id, answer);
      }
      exited := answer;
      op := Op();
      if answer.None? {
        stop, contested := StopLocked(record, None);
      } else {
        stop, contested := RetireExited(record, answer.value);
      }
      if record.state.Running? {
        StillIn(op, Op(), ExitAsked(record.id, answer));
      }
    }

    /** Ends a run whose task exited while what it left behind kept the group alive. */
    method RetireExited(record: Record, exited: Exit) returns (stop: Stop, ghost contested: bool)
      requires Valid() && Known(record) && Active(record.state)
      modifies this`waits, this`records, this`births, this`events
      ensures Valid() && Continues(old(events), old(births))
      ensures contested ==> Contested(Op(), record.id)
      ensures !contested ==> StopStands(record, EndingOf(Some(exited)), stop)
      ensures stop.Ended? ==>
        && BirthOf(stop.record) == BirthOf(record)
        && (GroupInspected(record.identity.pgid, GroupAbsent) in Op() || Impostor(Op(), record.identity))
      ensures Graceful(old(Op()), record.identity) ==> Graceful(Op(), record.identity)
    {
      hide Valid, Operation, Justified, Graceful, StopStands;
      var state := if exited.code == Some(0) && exited.signal.None? then Stopped else Failed;
      stop, contested := StopLocked(record, Some(Ending(state, exited)));
    }

    /** `false` leaves the process owned: it may still be alive. What the last looks found decides. */
    method TerminateCleanupOwned(record: Record) returns (cleaned: bool)
      requires Valid() && Known(record)
      modifies this`waits, this`records, this`births, this`events
      ensures Valid() && Continues(old(events), old(births))
      ensures cleaned ==>
        Op() != [] && (SeenEmpty(Op(), record.identity) || Strange(Op()[|Op()| - 1], record.identity))
      ensures !cleaned ==> GaveUp(Op(), record.identity)
      ensures Prompt(old(Op()), Op(), record.identity)
      ensures Graceful(old(Op()), record.identity) ==> Graceful(Op(), record.identity)
      ensures cleaned ==> GroupInspected(record.identity.pgid, GroupAbsent) in Op() || Impostor(Op(), record.identity)
    {
      hide Valid, Operation, Justified, Graceful, Looked, Prompt;
      var target := record.identity;
      ghost var op := Op();
      NothingYet(op, target);
      var leader := Inspect(target.pid);
      ghost var seen := Op();
      OneFurther(op, op, seen, target);
      LookedGraceful(op, seen, target);
      if leader.Unreadable? { return false; }
      if leader.Absent? {
        DecidesNothing(op, seen, target);
        var group := InspectGroup(target.pgid);
        OneFurther(op, seen, Op(), target);
        LookedGraceful(seen, Op(), target);
        return group.GroupAbsent?;
      }
      if leader.identity != target { return true; }
      DecidesNothing(op, seen, target);
      var failed := SignalGroup(target, Term);
      TermGraceful(seen, Op(), target);
      SignalIsPrompt(seen, Op(), target, Term);
      GoesOn(op, seen, Op(), target);
      if failed { return false; }
      DecidesNothing(op, Op(), target);
      cleaned := AwaitCleanup(record, op);
    }

    method AwaitCleanup(record: Record, ghost op: seq<Event>) returns (cleaned: bool)
      requires Valid() && Known(record) && Signalled(record.identity, Term) in Op()
      requires Prompt(op, Op(), record.identity) && Undecided(op, Op(), record.identity)
      modifies this`waits, this`records, this`births, this`events
      ensures Valid() && Continues(old(events), old(births))
      ensures cleaned ==>
        SeenEmpty(Op(), record.identity) || (Op() != [] && Strange(Op()[|Op()| - 1], record.identity))
      ensures !cleaned ==> GaveUp(Op(), record.identity)
      ensures Prompt(op, Op(), record.identity)
      ensures Graceful(old(Op()), record.identity) ==> Graceful(Op(), record.identity)
    {
      hide Valid, Operation, Justified, Graceful, Looked, Prompt;
      var target := record.identity;
      ghost var sent := Op();
      var change := WaitForOwnedGroupChange(record);
      ghost var waited := Op();
      GoesOn(op, sent, waited, target);
      PromptGrows(op, sent, target);
      LookedGraceful(sent, waited, target);
      if change.Gone? || change.Mismatch? { return true; }
      if change.Unclear? { return false; }
      DecidesNothing(op, waited, target);
      var leader := Inspect(target.pid);
      OneFurther(op, waited, Op(), target);
      LookedGraceful(waited, Op(), target);
      var gone, stale := KillGroup(target, leader, sent, waited, op);
      cleaned := gone || stale;
    }

    /** `stopRecord`: one operation on the row as it is then: an active run is stopped, one whose cleanup is owed
        is cleaned up, and its flag is cleared once its group was seen absent. */
    method StopRecord(record: Record)
        returns (result: Option<Record>, ghost seen: Option<Record>, ghost exited: Option<Exit>)
      requires Valid() && Known(record)
      modifies this`waits, this`records, this`births, this`events
      ensures strays == old(strays)
      ensures Valid() && old(events) + [Began] <= events && old(births) <= births
      ensures seen.None? ==> result == Some(record) && record.id !in records
      ensures seen.Some? ==> seen.value.id == record.id && seen.value.identity == record.identity
      ensures seen.Some? && Active(seen.value.state) && !Contested(Op(), record.id) ==>
        && (seen.value.state.Running? ==> ExitAsked(record.id, exited) in Op())
        && StopStands(seen.value, EndingOf(exited), if result.None? then StopFailed else Ended(result.value))
      ensures seen.Some? && !Active(seen.value.state) && !seen.value.cleanupRequired ==> result == seen && Op() == []
      ensures seen.Some? && !Active(seen.value.state) && seen.value.cleanupRequired && !Contested(Op(), record.id) ==>
        FlagSettled(Op(), seen.value, result)
    {
      hide Valid, Operation, Justified, StopStands, FlagSettled;
      seen, exited := None, None;
      Begin();
      Await();
      if record.id !in records { return Some(record), None, None; }
      var current := records[record.id];
      seen := Some(current);
      Listed(record.id);
      SameProcess(current, record);
      if Active(current.state) {
        var stop: Stop;
        ghost var contested: bool;
        stop, contested, exited := StopActive(current);
        result := if stop.Ended? then Some(stop.record) else None;
        return;
      }
      if current.cleanupRequired {
        result := ClearFlag(current);
        return;
      }
      result := Some(current);
    }

    /** The flag goes only with a group seen absent twice over: by the cleanup, or after it. */
    ghost predicate FlagSettled(op: seq<Event>, current: Record, result: Option<Record>) reads this`records {
      && op != [] && result.Some?
      && (if op[|op| - 1] == Stored(current.id, current.identity, current.state, current.state, false)
          then
            && SeenEmpty(op[..|op| - 1], current.identity)
            && Stands(result.value) && result.value.id == current.id && !result.value.cleanupRequired
            && result.value.state == current.state
          else
            && result == Some(current)
            && (GaveUp(op, current.identity)
                || (&& op[|op| - 1].GroupInspected? && op[|op| - 1].pgid == current.identity.pgid
                    && !SeenEmpty(op, current.identity))))
    }

    method ClearFlag(current: Record) returns (result: Option<Record>)
      requires Valid() && Known(current) && !Active(current.state) && current.cleanupRequired
      modifies this`waits, this`records, this`births, this`events
      ensures Valid() && Continues(old(events), old(births))
      ensures !Contested(Op(), current.id) ==> FlagSettled(Op(), current, result)
    {
      hide Valid, Operation, Justified, Contested;
      result := Some(current);
      var cleaned := TerminateCleanupOwned(current);
      if cleaned {
        var group := InspectGroup(current.identity.pgid);
        if group.GroupAbsent? {
          ghost var op := Op();
          var last, thrown, lost := Transition(current, current.state, false, None);
          if thrown || lost {
            NotedIsContested(op, Op(), current.id, current.state, current.state);
          }
          return if thrown then None else Some(last);
        }
      }
    }

    /** Confirms for the job queue that a run is over: it throws unless it sees the group gone itself, and then
        the row is final and unflagged. */
    method ConfirmStopped(record: Record) returns (confirmed: bool, ghost seen: Option<Record>)
      requires Valid() && Known(record)
      modifies this`records, this`births, this`events
      ensures strays == old(strays)
      ensures Valid() && old(events) + [Began] <= events && old(births) <= births
      ensures confirmed ==> GroupInspected(record.identity.pgid, GroupAbsent) in Op()
      ensures confirmed ==> seen.Some? && seen.value.id == record.id
      ensures !confirmed ==>
        || seen.None? || Contested(Op(), record.id)
        || (Op() != [] && Op()[|Op()| - 1].GroupInspected? && !SeenEmpty(Op(), record.identity))
      ensures confirmed && !Contested(Op(), record.id) && Owed(seen.value) ==>
        && record.id in records && !records[record.id].cleanupRequired
        && records[record.id].state == if Active(seen.value.state) then Stopped else seen.value.state
    {
      hide Valid, Operation, Justified, Contested;
      seen := None;
      Begin();
      Await();
      if record.id !in records { return false, None; }
      var current := records[record.id];
      seen := Some(current);
      Listed(record.id);
      SameProcess(current, record);
      var group := InspectGroup(current.identity.pgid);
      if !group.GroupAbsent? { return false, seen; }
      ghost var op := Op();
      var state := if Active(current.state) then Stopped else current.state;
      var last, thrown, lost := Transition(current, state, false, None);
      if thrown || lost {
        NotedIsContested(op, Op(), current.id, current.state, state);
      }
      StillIn(op, Op(), GroupInspected(record.identity.pgid, GroupAbsent));
      confirmed := !thrown;
    }

    lemma NotedIsContested(before: seq<Event>, after: seq<Event>, id: nat, from: ProcessState, to: ProcessState)
      requires after == before + [Declined(id, from, to)]
      ensures Contested(after, id)
    {
      assert after[|before|] == Declined(id, from, to);
    }

    /** The anchor exited: the run is over once its group is gone, and flagged for cleanup otherwise. A run that
        nobody asked to stop records how its task ended: by its completion marker, or else by the anchor's exit. */
    method RecordExit(id: nat, exit: Exit)
        returns (groupAbsent: Option<bool>, ghost seen: Option<Record>, ghost own: Option<JobStore.Completion>)
      requires Valid()
      modifies this`waits, this`records, this`births, this`events
      ensures strays == old(strays)
      ensures Valid() && old(events) + [Began] <= events && old(births) <= births
      ensures groupAbsent.Some? ==> seen.Some? && seen.value.id == id && BirthOf(seen.value) in births
      ensures groupAbsent.None? ==> (seen.None? && id !in records) || Contested(Op(), id)
      ensures groupAbsent == Some(true) ==> GroupInspected(seen.value.identity.pgid, GroupAbsent) in Op()
      ensures groupAbsent == Some(false) ==>
        || GroupInspected(seen.value.identity.pgid, GroupPresent) in Op()
        || GroupInspected(seen.value.identity.pgid, GroupUnreadable) in Op()
      ensures groupAbsent.Some? && !seen.value.state.Stopping? ==> CompletionRead(id, own) in Op()
      ensures groupAbsent.Some? && Active(seen.value.state) && !Contested(Op(), id) ==>
        ExitStands(seen.value, exit, groupAbsent.value, own)
    {
      hide Valid, Operation, Contested, ExitStands;
      seen, own := None, None;
      Begin();
      Await();
      if id !in records { return None, None, None; }
      var record := records[id];
      Listed(id);
      seen := Some(record);
      var waited := WaitForGroupAbsent(record.identity.pgid);
      ghost var op := Op();
      ghost var look := op[|op| - 1];
      assert look == GroupInspected(record.identity.pgid, look.group);
      var gone := waited.Gone?;
      var recorded: bool;
      recorded, own := StoreExit(record, exit, gone);
      StillIn(op, Op(), look);
      assert look.group.GroupAbsent? || look.group.GroupPresent? || look.group.GroupUnreadable?;
      groupAbsent := if recorded then Some(gone) else None;
    }

    /** The row of a run whose anchor exited. */
    ghost predicate ExitStands(seen: Record, exit: Exit, gone: bool, own: Option<JobStore.Completion>)
      reads this`records, this`events
    {
      var clean := seen.state.Stopping? || exit == Exit(Some(0), None);
      var state := if gone && clean then Stopped else Failed;
      && Stored(seen.id, seen.identity, seen.state, state, !gone) in Op()
      && seen.id in records && records[seen.id].state == state && records[seen.id].cleanupRequired == !gone
      && (!seen.state.Stopping? ==>
            records[seen.id].exit == Some(if own.Some? then Exit(own.value.exitCode, own.value.signal) else exit))
    }

    method StoreExit(record: Record, exit: Exit, gone: bool)
        returns (recorded: bool, ghost own: Option<JobStore.Completion>)
      requires Valid() && Known(record) && (gone ==> GroupInspected(record.identity.pgid, GroupAbsent) in Op())
      modifies this`records, this`births, this`events
      ensures Valid() && Continues(old(events), old(births))
      ensures !recorded ==> Contested(Op(), record.id) && record.id !in records
      ensures recorded && Active(record.state) ==> record.id in records
      ensures !record.state.Stopping? ==> CompletionRead(record.id, own) in Op()
      ensures recorded && Active(record.state) && !Contested(Op(), record.id) ==> ExitStands(record, exit, gone, own)
    {
      hide Valid, Operation, Contested;
      own, recorded := None, true;
      var state := if gone && (record.state.Stopping? || exit == Exit(Some(0), None)) then Stopped else Failed;
      var ended: Option<Exit> := None;
      ghost var op := Op();
      if !record.state.Stopping? {
        var completion := CompletedExit(record.id);
        own := completion;
        ended := Some(if completion.Some? then Exit(completion.value.exitCode, completion.value.signal) else exit);
        assert Op()[|op|] == CompletionRead(record.id, own);
        if gone {
          StillIn(op, Op(), GroupInspected(record.identity.pgid, GroupAbsent));
        }
      }
      ghost var read := Op();
      if Active(record.state) {
        var last, thrown, lost := Transition(record, state, !gone, ended);
        if thrown || lost {
          NotedIsContested(read, Op(), record.id, record.state, state);
        }
        recorded := !thrown;
      }
      if !record.state.Stopping? {
        StillIn(read, Op(), CompletionRead(record.id, own));
      }
    }

    // ----- starting ----------------------------------------------------------------------------------

    method FindActive(owner: Owner) returns (active: Option<Record>)
      requires Valid()
      ensures active.Some? ==> active.value.id in records && records[active.value.id] == active.value
      ensures active.Some? ==> Known(active.value) && Active(active.value.state) && active.value.owner == owner
      ensures active.None? ==> !HasActive(records, owner)
    {
      active := None;
      if id :| id in records && records[id].owner == owner && Active(records[id].state) {
        Listed(id);
        active := Some(records[id]);
      }
    }

    /** Commits the record of an anchor that reported its identity, unless the store refuses it: a failing one,
        or one that already holds an active record of this owner. */
    method Create(owner: Owner, identity: Identity, state: ProcessState, accepted: bool)
        returns (record: Option<Record>)
      requires Valid()
      modifies this`records, this`births, this`events
      ensures Valid() && Continues(old(events), old(births))
      ensures record.None? ==> events == old(events) && records == old(records)
      ensures record.None? <==> !accepted || (Active(state) && HasActive(old(records), owner))
      ensures record.Some? ==>
        && record.value.owner == owner && record.value.identity == identity && record.value.state == state
        && record.value.cleanupRequired && record.value.exit.None?
        && record.value.id !in old(records) && records == old(records)[record.value.id := record.value]
        && Known(record.value) && events == old(events) + [Recorded(record.value.id, owner, identity)]
        && Op() == old(Op()) + [Recorded(record.value.id, owner, identity)]
    {
      hide Valid, Operation, HasActive;
      record := None;
      if !accepted { return; }
      if Active(state) {
        var active := FindActive(owner);
        FoundActive(owner, active);
        if active.Some? { return; }
      }
      var issued := set b | b in births :: b.id;
      var id := JobStore.FreshNumber(issued);
      assert forall b :: b in births ==> b.id in issued;
      var created := Record(id, owner, identity, state, true, None);
      Add(created);
      record := Some(created);
    }

    method Add(created: Record)
      requires Valid() && forall b :: b in births ==> b.id != created.id
      modifies this`records, this`births, this`events
      ensures Valid() && Continues(old(events), old(births)) && Known(created)
      ensures created.id !in old(records) && records == old(records)[created.id := created]
      ensures events == old(events) + [Recorded(created.id, created.owner, created.identity)]
      ensures Op() == old(Op()) + [Recorded(created.id, created.owner, created.identity)]
    {
      hide Careful, Operation, Strays;
      assert created.id !in records;
      hide Consistent;
      ghost var e := Recorded(created.id, created.owner, created.identity);
      CarefulExtends(events, e);
      OperationExtends(events, e);
      StraysExtend(events, e);
      StillConsistent(records, births, created);
      StillKnown(created.id, created);
      records, births, events := records[created.id := created], births + {BirthOf(created)}, events + [e];
    }

    lemma StillKnown(id: nat, created: Record)
      requires Valid() && created.id == id
      ensures forall e :: e in events + [Recorded(id, created.owner, created.identity)] && e.Recorded? ==>
        Birth(e.id, e.owner, e.identity) in births + {BirthOf(created)}
      ensures forall e :: e in events + [Recorded(id, created.owner, created.identity)] && e.GoSent? ==> e in gos
      ensures forall j :: j in released ==> Released(j) in events + [Recorded(id, created.owner, created.identity)]
    {
    }

    lemma StillConsistent(records: map<nat, Record>, births: set<Birth>, created: Record)
      requires Consistent(records, births) && forall b :: b in births ==> b.id != created.id
      ensures Consistent(records[created.id := created], births + {BirthOf(created)})
    {
    }

    /** GO lets the anchor start the task. */
    method SendGo(record: Record, sent: bool) returns (failed: bool)
      requires Valid() && Op() != [] && Op()[|Op()| - 1] == Inspected(record.identity.pid, Present(record.identity))
      requires Recorded(record.id, record.owner, record.identity) in Op()
      requires record.owner.OfJob? ==> Bound(record.owner.job, record.id) in Op()
      modifies this`events, this`gos
      ensures Valid() && Continues(old(events), old(births))
      ensures failed == !sent && Op() == old(Op()) + [GoSent(record.owner, record.id, record.identity)]
      ensures gos == old(gos) + {GoSent(record.owner, record.id, record.identity)}
    {
      hide Careful, Consistent, Strays;
      ghost var e := GoSent(record.owner, record.id, record.identity);
      CarefulExtends(events, e);
      OperationExtends(events, e);
      StraysExtend(events, e);
      events, gos := events + [e], gos + {e};
      failed := !sent;
    }

    /** Waits until two successive looks show the same identity; a timeout counts as unreadable. */
    method WaitForIdentity(pid: nat, allowed: nat) returns (answer: Inspection)
      requires Valid()
      modifies this`records, this`births, this`events
      ensures Valid() && Continues(old(events), old(births)) && old(Op()) < Op() && LastLooked(Op(), pid)
      ensures answer.Present? ==>
        && Op()[|Op()| - 1] == Inspected(pid, answer)
        && (answer.identity.pid == pid ==> TwiceSeen(Op(), answer.identity))
      ensures !answer.Present? ==>
        && (|old(Op())| + 1 < |Op()| ==> SeenOnceOnly(Op()))
        && (|Op()| == |old(Op())| + allowed + 1 || Op()[|Op()| - 1].answer in {Unreadable, Absent})
    {
      hide Valid, Operation;
      var looks: nat := allowed;
      var previous: Option<Identity> := None;
      while true
        invariant Valid() && Continues(old(events), old(births)) && old(Op()) <= Op() && looks <= allowed
        invariant |Op()| == |old(Op())| + (allowed - looks)
        invariant previous.Some? ==> old(Op()) < Op() && Op()[|Op()| - 1] == Inspected(pid, Present(previous.value))
        invariant previous.None? && old(Op()) < Op() ==> Op()[|Op()| - 1] == Inspected(pid, Absent)
        decreases looks
      {
        answer := Inspect(pid);
        if answer.Unreadable? || (answer.Present? && previous == Some(answer.identity)) { return; }
        previous := if answer.Present? then Some(answer.identity) else None;
        var exited: bool := *;
        if answer.Absent? && exited { return; }
        if looks == 0 { return Unreadable; }
        looks := looks - 1;
      }
    }

    /** GO was sent only for jobs bound, durably, to the process it was sent to. */
    ghost predicate GoesBound(jobs: JobStore.HeavyJobStore) reads this, jobs {
      forall e :: e in gos && e.GoSent? && e.owner.OfJob? ==> (e.owner.job, e.id) in jobs.bindings
    }

    /** The job an anchor is being started for holds its slot. */
    ghost predicate Ready(owner: Owner, jobs: JobStore.HeavyJobStore) reads jobs {
      jobs.Valid() && (owner.OfJob? ==> owner.job in jobs.jobs && jobs.jobs[owner.job].state.Running?)
    }

    /** Everything a start may have bound follows the anchor's own binding. */
    ghost predicate AnchorFirst(owner: Owner, jobs: JobStore.HeavyJobStore) reads jobs {
      owner.OfJob? && owner.job in jobs.jobs && jobs.jobs[owner.job].processId.Some? ==>
        jobs.jobs[owner.job].anchorPid.Some?
    }

    /** The durable part: the record, and for a job its binding. `prepared` means both are committed. */
    method CommitRecord(owner: Owner, identity: Identity, jobs: JobStore.HeavyJobStore, luck: Luck)
        returns (prepared: bool, record: Option<Record>)
      requires Valid() && Ready(owner, jobs) && GoesBound(jobs) && AnchorFirst(owner, jobs)
      requires owner.OfJob? ==> jobs.jobs[owner.job].anchorPid.Some?
      modifies this`records, this`births, this`events, jobs`jobs, jobs`bindings
      ensures Valid() && Continues(old(events), old(births)) && Ready(owner, jobs) && GoesBound(jobs)
      ensures AnchorFirst(owner, jobs) && Quietly(old(Op()), Op())
      ensures record.Some? ==> Known(record.value) && record.value.identity == identity && record.value.owner == owner
      ensures record.Some? ==> Stands(record.value) && record.value.state.Starting? && record.value.cleanupRequired
      ensures owner.OfJob? ==>
        jobs.jobs[owner.job].anchorPid.Some? && jobs.jobs[owner.job].anchorPid == old(jobs.jobs[owner.job]).anchorPid
      ensures prepared ==> record.Some? && Recorded(record.value.id, owner, identity) in Op()
      ensures prepared && owner.OfJob? ==>
        && Bound(owner.job, record.value.id) in Op() && (owner.job, record.value.id) in jobs.bindings
        && jobs.jobs[owner.job].processId == Some(record.value.id)
      ensures record.None? <==> !luck.created || HasActive(old(records), owner)
      ensures prepared ==> Op() != [] && !Op()[|Op()| - 1].Inspected?
      ensures record.Some? ==>
        (prepared <==> owner.OfTask? || (luck.noted && old(jobs.jobs[owner.job]).processId.None?))
    {
      hide Valid, Operation, JobStore.HeavyJobStore.Valid, JobStore.HeavyJobStore.Follows;
      record := Create(owner, identity, Starting, luck.created);
      if record.None? { return false, record; }
      ghost var recorded := |Op()| - 1;
      prepared := true;
      if owner.OfJob? {
        if !luck.noted { return false, record; }
        prepared := jobs.BindProcess(owner.job, record.value.id);
        if !prepared { return; }
        Log(Bound(owner.job, record.value.id));
        assert Op()[recorded] == Recorded(record.value.id, owner, identity);
      }
    }

    /** Requests that run beside a start. */
    method Meanwhile(owner: Owner, jobs: JobStore.HeavyJobStore)
      requires Valid() && Ready(owner, jobs) && GoesBound(jobs)
      modifies this`records, this`births, jobs`jobs, jobs`used
      ensures Valid() && Ready(owner, jobs) && old(births) <= births
      ensures owner.OfJob? ==>
        && owner.job in old(jobs.jobs) && jobs.jobs[owner.job].anchorPid == old(jobs.jobs[owner.job].anchorPid)
        && jobs.jobs[owner.job].processId == old(jobs.jobs[owner.job].processId)
    {
      hide Valid, JobStore.HeavyJobStore.Valid, JobStore.MayBeAskedToStop;
      Await();
      ghost var before := jobs.jobs;
      jobs.Meddle();
      if owner.OfJob? {
        JobStore.AskedRunsOn(before, jobs.jobs, owner.job);
      }
    }

    /** From the durable record to RUNNING. GO is in the middle: nothing before it lets the task run. */
    method LaunchAnchor(owner: Owner, identity: Identity, jobs: JobStore.HeavyJobStore, luck: Luck)
        returns (launched: bool, record: Option<Record>, died: bool)
      requires Valid() && Ready(owner, jobs) && GoesBound(jobs) && AnchorFirst(owner, jobs)
      requires owner.OfJob? ==> jobs.jobs[owner.job].anchorPid.Some?
      modifies this`records, this`births, this`events, this`gos, jobs`jobs, jobs`used, jobs`bindings
      ensures Valid() && Continues(old(events), old(births)) && Ready(owner, jobs) && GoesBound(jobs)
      ensures AnchorFirst(owner, jobs)
      ensures record.Some? ==> Known(record.value) && record.value.identity == identity && record.value.owner == owner
      ensures record.None? ==> !luck.created || HasActive(old(records), owner)
      ensures owner.OfJob? ==>
        && jobs.jobs[owner.job].anchorPid.Some? && jobs.jobs[owner.job].anchorPid == old(jobs.jobs[owner.job]).anchorPid
      ensures launched ==>
        && record.Some? && record.value.state.Running? && !record.value.cleanupRequired && Stands(record.value)
        && (owner.OfJob? ==> jobs.jobs[owner.job].processId == Some(record.value.id))
        && GoSent(owner, record.value.id, identity) in gos && luck.created && luck.sent && luck.acknowledged
      ensures died ==> luck.death in {2, 3, 4}
      ensures luck.death == 2 ==> died
      ensures Fortunate(luck) && luck.death !in {2, 3, 4} && !launched ==>
        LaunchHindered(Op(), identity, record, owner.OfJob? && old(jobs.jobs[owner.job]).processId.Some?)
    {
      hide Valid, Operation, JobStore.HeavyJobStore.Valid, JobStore.HeavyJobStore.Follows, Contested, LastLooked;
      hide TwiceSeen, SeenOnceOnly, HasActive, Quietly, LaunchHindered;
      ghost var bound := owner.OfJob? && jobs.jobs[owner.job].processId.Some?;
      launched, died := false, false;
      var prepared: bool;
      prepared, record := CommitRecord(owner, identity, jobs, luck);
      if luck.death == 2 { return false, record, true; }
      if !prepared {
        if record.None? || bound {
          Hindered(Op(), identity, record, bound);
        }
        return;
      }
      ghost var op := Op();
      Meanwhile(owner, jobs);
      var seen := WaitForIdentity(identity.pid, luck.looks);
      if seen != Present(identity) {
        NotConvinced(op, Op(), seen, identity, record, bound);
        return;
      }
      if luck.death == 3 { return false, record, true; }
      StillIn(op, Op(), Recorded(record.value.id, owner, identity));
      if owner.OfJob? {
        StillIn(op, Op(), Bound(owner.job, record.value.id));
      }
      var running: Record;
      launched, running, died := GoAhead(record.value, jobs, luck);
      if launched {
        record := Some(running);
      } else if !died && Fortunate(luck) {
        Hindered(Op(), identity, record, bound);
      }
    }

    /** GO, and the anchor's acknowledgement. Without it the start fails, although the task may run. */
    method GoAhead(record: Record, jobs: JobStore.HeavyJobStore, luck: Luck)
        returns (launched: bool, running: Record, died: bool)
      requires Valid() && Known(record) && record.state.Starting? && Ready(record.owner, jobs) && GoesBound(jobs)
      requires Op() != [] && Op()[|Op()| - 1] == Inspected(record.identity.pid, Present(record.identity))
      requires Recorded(record.id, record.owner, record.identity) in Op()
      requires record.owner.OfJob? ==>
        && Bound(record.owner.job, record.id) in Op() && (record.owner.job, record.id) in jobs.bindings
        && jobs.jobs[record.owner.job].anchorPid.Some?
      modifies this`records, this`births, this`events, this`gos, jobs`jobs, jobs`used
      ensures Valid() && Continues(old(events), old(births)) && Ready(record.owner, jobs) && GoesBound(jobs)
      ensures BirthOf(running) == BirthOf(record) && Known(record)
      ensures record.owner.OfJob? ==>
        && jobs.jobs[record.owner.job].anchorPid == old(jobs.jobs[record.owner.job]).anchorPid
        && jobs.jobs[record.owner.job].processId == old(jobs.jobs[record.owner.job]).processId
      ensures GoSent(record.owner, record.id, record.identity) in gos
      ensures launched ==>
        && running.state.Running? && !running.cleanupRequired && Stands(running) && luck.sent && luck.acknowledged
      ensures died <==> luck.death == 4
      ensures !died && !launched ==> !luck.sent || !luck.acknowledged || Contested(Op(), record.id)
    {
      hide Valid, Operation, JobStore.HeavyJobStore.Valid, JobStore.HeavyJobStore.Follows, Contested;
      launched, running, died := false, record, luck.death == 4;
      var failed := SendGo(record, luck.sent);
      if died || failed { return; }
      Meanwhile(record.owner, jobs);
      if !luck.acknowledged { return; }
      ghost var op := Op();
      var thrown, lost: bool;
      running, thrown, lost := Transition(record, Running, false, None);
      launched := !thrown && !lost;
      if !launched {
        NotedIsContested(op, Op(), record.id, record.state, Running);
      }
    }

    /** Undoes a start. Success means the anchor itself is gone: its exit was reported, or it is absent, and then
        the group is `unseen`; or it was killed, and its group seen absent. It fails only without an identity, on
        a look that gave no answer or showed another process, on a refused signal, or if the group outlives it. */
    method RollbackSpawn(pid: nat, identity: Option<Identity>, exits: bool)
        returns (confirmed: bool, ghost unseen: bool)
      requires Valid() && (identity.Some? ==> identity.value.pid == pid && identity.value.pgid == pid)
      modifies this`waits, this`records, this`births, this`events
      ensures Valid() && Continues(old(events), old(births)) && Aborted(pid) in Op()
      ensures unseen ==> confirmed && Op() != [] && Op()[|Op()| - 1] in {ChildExited(pid), Inspected(pid, Absent)}
      ensures confirmed && !unseen ==> GroupInspected(pid, GroupAbsent) in Op()
      ensures exits ==> confirmed
      ensures !confirmed ==> identity.None? || RollbackFailed(Op(), identity.value)
      ensures identity.None? ==> confirmed == exits
      ensures confirmed && identity.Some? ==> LeaderGone(Op(), identity.value)
      ensures confirmed && identity.Some? ==>
        (Accounted(Op(), identity.value) <==> !unseen || Accounted(old(Op()), identity.value))
    {
      hide Valid, Operation, LeaderGone, Accounted;
      unseen := false;
      ghost var op := Op();
      Log(Aborted(pid));
      assert Op()[|op|] == Aborted(pid);
      Await();
      if exits {
        Log(ChildExited(pid));
        if identity.Some? {
          AnchorGone(op, Op(), ChildExited(pid), identity.value);
        }
        assert Op()[|op|] == Aborted(pid);
        return true, true;
      }
      if identity.None? { return false, false; }
      var leader := Inspect(pid);
      assert Op()[|op|] == Aborted(pid);
      if leader.Unreadable? { return false, false; }
      if leader.Absent? {
        AnchorGone(op, Op(), Inspected(pid, Absent), identity.value);
        return true, true;
      }
      if leader.identity != identity.value { return false, false; }
      confirmed := KillAnchor(identity.value);
    }

    /** The last resort of a rollback. */
    method KillAnchor(identity: Identity) returns (confirmed: bool)
      requires Valid() && identity.pid == identity.pgid && Aborted(identity.pid) in Op()
      requires Op()[|Op()| - 1] == Inspected(identity.pid, Present(identity))
      modifies this`waits, this`records, this`births, this`events
      ensures Valid() && Continues(old(events), old(births)) && Aborted(identity.pid) in Op()
      ensures Signalled(identity, Kill) in Op()
      ensures confirmed ==>
        && GroupInspected(identity.pgid, GroupAbsent) in Op()
        && LeaderGone(Op(), identity) && Accounted(Op(), identity)
      ensures forall k :: |old(Op())| <= k < |Op()| - 1 ==> !Op()[k].Refused?
      ensures !confirmed ==> GaveUp(Op(), identity)
    {
      hide Valid, Operation, LeaderGone, Accounted;
      ghost var op := Op();
      var failed := SignalGroup(identity, Kill);
      ghost var killed := Op();
      assert killed[|op|] == Signalled(identity, Kill);
      StillIn(op, killed, Aborted(identity.pid));
      if failed { return false; }
      var group := WaitForGroupAbsent(identity.pgid);
      StillIn(killed, Op(), Aborted(identity.pid));
      StillIn(killed, Op(), Signalled(identity, Kill));
      ghost var look := Op()[|Op()| - 1];
      assert look == GroupInspected(identity.pgid, look.group);
      assert !group.Gone? ==> look.group.GroupPresent? || look.group.GroupUnreadable?;
      confirmed := group.Gone?;
      if confirmed {
        SeenGone(Op(), identity);
      }
    }

    /** A launch that did not reach RUNNING: the anchor is stopped, and unless that is confirmed and
        recorded the record keeps its cleanup flag. Without a record a failed one is made, so that the anchor
        stays accounted for. `rolled` is the operation up to the end of the rollback. */
    method AbandonLaunch(owner: Owner, identity: Identity, recorded: Option<Record>, luck: Luck)
        returns (start: Start, ghost letGo: bool, ghost unseen: bool, ghost rolled: seq<Event>,
                 ghost owned: Option<Record>)
      requires Valid() && identity.pid == identity.pgid
      requires recorded.Some? ==> Known(recorded.value) && recorded.value.identity == identity
      modifies this`waits, this`records, this`births, this`events, this`strays
      ensures Valid() && Continues(old(events), old(births))
      ensures start in {Cleaned, CleanupOwned} && old(Op()) <= rolled <= Op()
      ensures start.CleanupOwned? ==>
        (!luck.exits && RollbackFailed(rolled, identity)) || (recorded.Some? && Contested(Op(), recorded.value.id))
      ensures start.Cleaned? ==> LeaderGone(Op(), identity)
      ensures recorded.None? && start.CleanupOwned? && luck.durable ==>
        && owned.Some? && Stands(owned.value) && owned.value.owner == owner && owned.value.identity == identity
        && owned.value.state.Failed? && owned.value.cleanupRequired
      ensures recorded.Some? && letGo ==>
        && recorded.value.id in records && records[recorded.value.id].state.Failed?
        && records[recorded.value.id].cleanupRequired == start.CleanupOwned?
      ensures recorded.Some? && !letGo ==>
        || recorded.value.id !in records || !Active(records[recorded.value.id].state)
        || Contested(Op(), recorded.value.id)
      ensures !letGo ==> strays == old(strays)
      ensures unseen ==> ChildExited(identity.pid) in Op() || Inspected(identity.pid, Absent) in Op()
      ensures start.Cleaned? && !unseen ==> GroupInspected(identity.pgid, GroupAbsent) in Op()
      ensures letGo ==> (strays == old(strays) <==> !unseen || Accounted(old(Op()), identity))
    {
      hide Valid, Operation, Accounted, Contested, GaveUp;
      letGo, owned := false, None;
      var confirmed: bool;
      confirmed, unseen := RollbackSpawn(identity.pid, Some(identity), luck.exits);
      rolled := Op();
      var repaired := true;
      if recorded.Some? && recorded.value.id in records && Active(records[recorded.value.id].state) {
        var current := records[recorded.value.id];
        Listed(recorded.value.id);
        SameProcess(current, recorded.value);
        var last, thrown, lost := LetGo(current, Failed, !confirmed);
        if thrown || lost {
          NotedIsContested(rolled, Op(), current.id, current.state, Failed);
        }
        repaired, letGo := !thrown, !thrown && !lost;
        StillAccounted(rolled, Op(), identity);
      }
      if confirmed && repaired {
        StillGone(rolled, Op(), identity);
        return Cleaned, letGo, unseen, rolled, owned;
      }
      if recorded.None? {
        var made := Create(owner, identity, Failed, luck.durable);
        owned := made;
      }
      start := CleanupOwned;
    }

    /** Starts an anchor and, through it, the task. `launch` is the operation up to the end of the launch proper,
        and `recorded` the record it made. */
    method Spawn(owner: Owner, jobs: JobStore.HeavyJobStore, luck: Luck)
        returns (start: Start, ghost launch: seq<Event>, ghost recorded: Option<Record>)
      requires Valid() && Ready(owner, jobs) && GoesBound(jobs) && AnchorFirst(owner, jobs)
      modifies this`waits, this`records, this`births, this`events, this`strays, this`gos, jobs`jobs, jobs`used
      modifies jobs`bindings
      ensures Valid() && Continues(old(events), old(births)) && Ready(owner, jobs) && GoesBound(jobs)
      ensures AnchorFirst(owner, jobs)
      ensures start.Started? ==>
        && !start.existing && Known(start.record) && start.record.owner == owner && Stands(start.record)
        && start.record.state.Running? && !start.record.cleanupRequired
        && luck.reported == Some(start.record.identity) && Reports(luck)
        && GoSent(owner, start.record.id, start.record.identity) in gos
      ensures owner.OfJob? && jobs.jobs[owner.job].anchorPid.None? ==> gos == old(gos)
      ensures owner.OfJob? && luck.prepared ==>
        jobs.jobs[owner.job].anchorPid == if old(jobs.jobs[owner.job]).anchorPid.Some?
                                          then old(jobs.jobs[owner.job]).anchorPid else Some(luck.pid)
      ensures owner.OfJob? && start.Started? ==> jobs.jobs[owner.job].processId == Some(start.record.id)
      ensures start.NotStarted? ==> events == old(events) && gos == old(gos) && jobs.jobs == old(jobs.jobs)
      ensures SpawnAnswered(luck, AnchorBound(owner, old(jobs.jobs)), ProcessBound(owner, old(jobs.jobs)), launch,
        recorded, start)
      ensures launch <= Op()
    {
      hide Valid, Operation, JobStore.HeavyJobStore.Valid, JobStore.HeavyJobStore.Follows, Contested, TwiceSeen;
      hide LastLooked, Stands, LaunchHindered;
      launch, recorded := [], None;
      if !luck.prepared { return NotStarted, launch, recorded; }
      Meanwhile(owner, jobs);
      var confirmed: bool;
      ghost var unseen: bool;
      if owner.OfJob? {
        var bindable := jobs.BindAnchor(owner.job, luck.pid);
        if !bindable {
          confirmed, unseen := RollbackSpawn(luck.pid, None, luck.exits);
          return if confirmed then Cleaned else UnconfirmedAnchor(luck.pid), launch, recorded;
        }
      }
      if luck.death == 1 { return DaemonDied, launch, recorded; }
      Meanwhile(owner, jobs);
      if !Reports(luck) {
        confirmed, unseen := RollbackSpawn(luck.pid, None, luck.exits);
        return if confirmed then Cleaned else Unexplained, launch, recorded;
      }
      start, launch, recorded := LaunchReported(owner, jobs, luck);
    }

    /** The anchor reported itself: the launch proper, undone if it does not reach RUNNING. */
    method LaunchReported(owner: Owner, jobs: JobStore.HeavyJobStore, luck: Luck)
        returns (start: Start, ghost launch: seq<Event>, ghost recorded: Option<Record>)
      requires Valid() && Ready(owner, jobs) && GoesBound(jobs) && AnchorFirst(owner, jobs) && Reports(luck)
      requires owner.OfJob? ==> jobs.jobs[owner.job].anchorPid.Some?
      modifies this`waits, this`records, this`births, this`events, this`strays, this`gos, jobs`jobs, jobs`used
      modifies jobs`bindings
      ensures Valid() && Continues(old(events), old(births)) && Ready(owner, jobs) && GoesBound(jobs)
      ensures AnchorFirst(owner, jobs) && launch <= Op()
      ensures start.Started? || start in {DaemonDied, Cleaned, CleanupOwned}
      ensures start.Started? ==>
        && !start.existing && Known(start.record) && start.record.owner == owner && Stands(start.record)
        && start.record.state.Running? && !start.record.cleanupRequired
        && start.record.identity == luck.reported.value
        && GoSent(owner, start.record.id, start.record.identity) in gos
        && (owner.OfJob? ==> jobs.jobs[owner.job].processId == Some(start.record.id))
      ensures owner.OfJob? ==> jobs.jobs[owner.job].anchorPid == old(jobs.jobs[owner.job]).anchorPid
      ensures start.DaemonDied? ==> luck.death in {2, 3, 4}
      ensures luck.death == 2 ==> start.DaemonDied?
      ensures luck.death == 0 && Fortunate(luck) && !start.Started? ==>
        LaunchHindered(launch, luck.reported.value, recorded, ProcessBound(owner, old(jobs.jobs)))
    {
      hide Valid, Operation, JobStore.HeavyJobStore.Valid, JobStore.HeavyJobStore.Follows, Contested, TwiceSeen;
      hide LastLooked, Stands, LaunchHindered;
      var launched, record, died := LaunchAnchor(owner, luck.reported.value, jobs, luck);
      launch, recorded := Op(), record;
      if died { return DaemonDied, launch, recorded; }
      if launched { return Started(record.value, false), launch, recorded; }
      ghost var letGo: bool;
      ghost var unseen: bool;
      ghost var rolled: seq<Event>;
      ghost var owned: Option<Record>;
      start, letGo, unseen, rolled, owned := AbandonLaunch(owner, luck.reported.value, record, luck);
    }

    /** `start`: one operation of at most three attempts. A live run that matches its record is returned as it is;
        a record whose process is gone or whose number passed on is retired first. `tries` counts the attempts;
        the last of them was decided, or there were three. */
    method Start(owner: Owner, jobs: JobStore.HeavyJobStore, attempts: nat -> Attempt)
        returns (start: Start, ghost tries: nat, ghost existing: Option<Record>)
      requires Valid() && Ready(owner, jobs) && GoesBound(jobs) && AnchorFirst(owner, jobs)
      modifies this`waits, this`records, this`births, this`events, this`strays, this`tried, this`gos
      modifies jobs`jobs, jobs`used, jobs`bindings
      ensures Valid() && old(events) + [Began] <= events && old(births) <= births
      ensures Ready(owner, jobs) && GoesBound(jobs) && AnchorFirst(owner, jobs)
      ensures owner.OfJob? && jobs.jobs[owner.job].anchorPid.None? ==> gos == old(gos)
      ensures start.Started? ==> Known(start.record)
      ensures start.Started? ==> if start.existing
        then Inspected(start.record.identity.pid, Present(start.record.identity)) in Op()
        else GoSent(owner, start.record.id, start.record.identity) in gos && start.record.state.Running?
      ensures 1 <= tries <= 3 && tried == old(tried) + tries
      ensures tries < 3 || start != Unexplained ==>
        Decided(Op(), existing, attempts(tries - 1), start, AnchorBound(owner, old(jobs.jobs)),
          ProcessBound(owner, old(jobs.jobs)))
    {
      hide Valid, Operation, JobStore.HeavyJobStore.Valid, AnchorFirst, Decided;
      Begin();
      tries, existing := 0, None;
      var attempt := 0;
      while attempt < 3
        invariant 0 <= attempt == tries <= 3 && tried == old(tried) + attempt
        invariant Valid() && old(events) + [Began] <= events && old(births) <= births
        invariant jobs.jobs == old(jobs.jobs)
        invariant Ready(owner, jobs) && GoesBound(jobs) && AnchorFirst(owner, jobs) && gos == old(gos)
      {
        var done: bool;
        done, start, existing := StartOnce(owner, jobs, attempts(attempt));
        attempt := attempt + 1;
        tries := attempt;
        if done { return; }
      }
      start := Unexplained;
    }

    /** One attempt. Not `done` means try again: there was nothing to reuse, or it has been retired. */
    method StartOnce(owner: Owner, jobs: JobStore.HeavyJobStore, a: Attempt)
        returns (done: bool, start: Start, ghost existing: Option<Record>)
      requires Valid() && Ready(owner, jobs) && GoesBound(jobs) && AnchorFirst(owner, jobs)
      modifies this`waits, this`records, this`births, this`events, this`strays, this`tried, this`gos
      modifies jobs`jobs, jobs`used, jobs`bindings
      ensures Valid() && old(events) <= events && old(births) <= births && tried == old(tried) + 1
      ensures Ready(owner, jobs) && GoesBound(jobs) && AnchorFirst(owner, jobs)
      ensures Continues(old(events), old(births))
      ensures !done ==> gos == old(gos) && jobs.jobs == old(jobs.jobs)
      ensures owner.OfJob? && jobs.jobs[owner.job].anchorPid.None? ==> gos == old(gos)
      ensures start.Started? ==> done && Known(start.record)
      ensures start.Started? ==> if start.existing
        then Inspected(start.record.identity.pid, Present(start.record.identity)) in Op()
        else GoSent(owner, start.record.id, start.record.identity) in gos && start.record.state.Running?
      ensures existing.None? <==> !HasActive(old(records), owner)
      ensures existing.Some? ==>
        && existing.value.owner == owner && Active(existing.value.state)
        && existing.value.id in old(records) && old(records)[existing.value.id] == existing.value
      ensures done ==>
        Decided(Op(), existing, a, start, AnchorBound(owner, old(jobs.jobs)), ProcessBound(owner, old(jobs.jobs)))
      ensures !done ==> !a.blocked && (existing.None? ==> !a.reserved)
      ensures !done && existing.Some? && !Contested(Op(), existing.value.id) ==>
        existing.value.id !in records || !Active(records[existing.value.id].state)
    {
      hide Valid, Operation, JobStore.HeavyJobStore.Valid, AnchorFirst, HasActive, Contested, GaveUpOn,
        SpawnAnswered;
      done, start := true, Unexplained;
      tried := tried + 1;
      var active := FindActive(owner);
      FoundActive(owner, active);
      existing := active;
      if active.None? && a.reserved {
        ghost var launch: seq<Event>;
        ghost var recorded: Option<Record>;
        start, launch, recorded := Spawn(owner, jobs, a.luck);
        return;
      }
      if a.blocked {
        if active.Some? && active.value.state.Running? && !active.value.cleanupRequired {
          var leader := Inspect(active.value.identity.pid);
          assert Op()[|Op()| - 1] == Inspected(active.value.identity.pid, leader);
          if leader == Present(active.value.identity) && a.freed {
            start := Started(active.value, true);
          }
        }
        return;
      }
      if active.None? {
        Await();
        done := false;
      } else if !active.value.state.Stopping? {
        done, start := ReuseOrRetire(active.value);
      }
    }

    lemma FoundActive(owner: Owner, active: Option<Record>)
      requires active.Some? ==>
        && active.value.id in records && records[active.value.id] == active.value
        && Active(active.value.state) && active.value.owner == owner
      requires active.None? ==> !HasActive(records, owner)
      ensures active.None? <==> !HasActive(records, owner)
    {
    }

    /** Decides what to do with the active record a start found. Not `done` means try again, and the record has
        been retired. */
    method ReuseOrRetire(existing: Record) returns (done: bool, start: Start)
      requires Valid() && Known(existing) && Active(existing.state)
      modifies this`waits, this`records, this`births, this`events, this`strays
      ensures Valid() && Continues(old(events), old(births))
      ensures start.Started? ==> Known(start.record)
      ensures start.Started? ==>
        done && start.existing && Inspected(start.record.identity.pid, Present(start.record.identity)) in Op()
      ensures done ==> Reused(Op(), existing, start)
      ensures !done && !Contested(Op(), existing.id) ==>
        existing.id !in records || !Active(records[existing.id].state)
    {
      hide Valid, Operation, Contested, StopStands, Stray;
      start := Unexplained;
      var thrown: bool;
      var last := existing;
      var leader := Inspect(existing.identity.pid);
      assert Op()[|Op()| - 1] == Inspected(existing.identity.pid, leader);
      if leader.Unreadable? { return true, Unexplained; }
      if leader == Present(existing.identity) {
        done, start := ReuseLive(existing);
        return;
      }
      ghost var op := Op();
      if leader.Present? {
        StaleIsLegal(op, existing);
        last, thrown := Store(existing, StaleIdentity, existing.cleanupRequired);
        if thrown {
          assert Contested(Op(), existing.id);
        }
        return thrown, Unexplained;
      }
      var group: GroupInspection;
      ghost var lost: bool;
      group, thrown, lost := RetireAbsent(existing);
      done := thrown;
    }

    /** The store allows an active record to become stale once another process was seen under its number. */
    lemma StaleIsLegal(op: seq<Event>, existing: Record)
      requires op != [] && Active(existing.state) && Strange(op[|op| - 1], existing.identity)
      ensures MayStore(op, existing.identity, existing.state, StaleIdentity, existing.cleanupRequired)
      ensures !Stray(op,
        Stored(existing.id, existing.identity, existing.state, StaleIdentity, existing.cleanupRequired))
    {
      var e := op[|op| - 1];
      assert e == Inspected(existing.identity.pid, Present(e.answer.identity)) && e in op;
      assert Impostor(op, existing.identity);
    }

    /** It is alive; a run whose task ended is retired, any other is returned. */
    method ReuseLive(existing: Record) returns (done: bool, start: Start)
      requires Valid() && Known(existing) && Active(existing.state)
      requires Op() != [] && Op()[|Op()| - 1] == Inspected(existing.identity.pid, Present(existing.identity))
      modifies this`waits, this`records, this`births, this`events
      ensures Valid() && Continues(old(events), old(births))
      ensures start.Started? ==> Known(start.record)
      ensures start.Started? ==>
        done && start.existing && Inspected(start.record.identity.pid, Present(start.record.identity)) in Op()
      ensures done ==> Reused(Op(), existing, start)
      ensures !done && !Contested(Op(), existing.id) ==>
        existing.id !in records || !Active(records[existing.id].state)
    {
      hide Valid, Operation, Contested, GaveUp, PassedOn, SeenEmpty;
      start := Unexplained;
      var exited: Option<Exit> := None;
      ghost var op := Op();
      if existing.state.Running? {
        exited := TaskExit(existing.id);
        assert Op()[|op| - 1] == op[|op| - 1];
      }
      if exited.None? {
        ghost var op := Op();
        var last, thrown, lost := Transition(existing, Running, existing.cleanupRequired, None);
        if thrown || lost {
          NotedIsContested(op, Op(), existing.id, existing.state, Running);
        }
        StillIn(op, Op(), Inspected(existing.identity.pid, Present(existing.identity)));
        return true, if thrown then Unexplained else Started(last, true);
      }
      var stop, contested := RetireExited(existing, exited.value);
      return stop.StopFailed?, Unexplained;
    }

    /** The leader of the found record is absent. Unlike recovery, this path flags nothing: a run whose
        group is still there, or could not be inspected, is recorded FAILED with the flag it had. */
    method RetireAbsent(existing: Record) returns (group: GroupInspection, thrown: bool, ghost lost: bool)
      requires Valid() && Known(existing) && Active(existing.state)
      requires Inspected(existing.identity.pid, Absent) in Op()
      modifies this`records, this`births, this`events, this`strays
      ensures Valid() && Continues(old(events), old(births))
      ensures GroupInspected(existing.identity.pgid, group) in Op()
      ensures thrown || lost ==> Contested(Op(), existing.id)
      ensures !thrown && !lost ==>
        && existing.id in records && records[existing.id].cleanupRequired == existing.cleanupRequired
        && records[existing.id].state == if group.GroupAbsent? then Stopped else Failed
      ensures !thrown && !lost ==>
        Stored(existing.id, existing.identity, existing.state,
          if group.GroupAbsent? then Stopped else Failed, existing.cleanupRequired) in Op()
      ensures thrown || lost ==> strays == old(strays)
      ensures !thrown && !lost ==>
        (strays == old(strays) <==>
          existing.cleanupRequired || group.GroupAbsent? || Accounted(old(Op()), existing.identity))
    {
      hide Valid, Operation, Contested;
      ghost var absent :| 0 <= absent < |Op()| && Op()[absent] == Inspected(existing.identity.pid, Absent);
      group := InspectGroup(existing.identity.pgid);
      ghost var op := Op();
      ghost var seen := |Op()| - 1;
      assert Op()[absent] == Inspected(existing.identity.pid, Absent);
      var last: Record;
      var state := if group.GroupAbsent? then Stopped else Failed;
      last, thrown, lost := LetGo(existing, state, existing.cleanupRequired);
      if thrown || lost {
        NotedIsContested(op, Op(), existing.id, existing.state, state);
      }
      assert Op()[seen] == GroupInspected(existing.identity.pgid, group);
    }

    // ----- recovery ----------------------------------------------------------------------------------

    /** What a new daemon does with one record of its predecessor. */
    method RecoverRecord(record: Record)
        returns (recovered: Record, thrown: bool, ghost leader: Inspection, ghost group: GroupInspection,
                 ghost ended: Option<JobStore.Completion>, ghost launched: bool)
      requires Valid() && Known(record) && Owed(record)
      modifies this`waits, this`records, this`births, this`events
      ensures strays == old(strays)
      ensures Valid() && old(events) + [Began] <= events && old(births) <= births
      ensures BirthOf(recovered) == BirthOf(record) && Inspected(record.identity.pid, leader) in Op()
      // Only a store that declined to answer changes what follows; what changed is what the store holds.
      ensures !thrown && !Contested(Op(), record.id) ==>
        && RecoveredAs(record, recovered, leader, group, ended, launched)
        && (Changed(record, recovered) ==> Stands(recovered))
      ensures leader.Absent? ==> GroupInspected(record.identity.pgid, group) in Op()
      ensures leader.Absent? && group.GroupAbsent? && (record.state.Starting? || record.state.Running?) ==>
        CompletionRead(record.id, ended) in Op()
      ensures leader == Present(record.identity) ==> LiveSettled(record, recovered, thrown, launched)
      // The store refuses exactly the records it has no transition for, and those deleted meanwhile.
      ensures RecoveryRefused(record, leader, group) ==> thrown
      ensures thrown ==> RecoveryRefused(record, leader, group) || record.id !in records
    {
      hide Valid, Operation, Contested, LiveSettled;
      Begin();
      thrown := false;
      var seen := InspectWithRetry(record.identity.pid);
      ghost var op := Op();
      ghost var look := op[|op| - 1];
      leader, group, ended, launched := seen, GroupUnreadable, None, false;
      if seen.Unreadable? {
        recovered, thrown := Store(record, Failed, true);
      } else if seen.Absent? {
        recovered, thrown, group, ended := RecoverAbsent(record);
      } else if seen.identity != record.identity {
        recovered, thrown := Store(record, if record.state.Failed? then Failed else StaleIdentity, false);
      } else {
        recovered, thrown, launched := RecoverLive(record);
      }
      StillIn(op, Op(), look);
    }

    /** A run that cannot be looked at, or whose group outlived its leader, stays flagged for cleanup; one that is
        gone is recorded as ended; one whose number passed on is stale. Alive under its own identity, a start that
        was never acknowledged and a failed run are cleaned up, an interrupted stop is finished, and anything else
        goes on. */
    ghost predicate RecoveredAs(record: Record, recovered: Record, leader: Inspection, group: GroupInspection,
        ended: Option<JobStore.Completion>, launched: bool)
    {
      match leader
      case Unreadable => recovered.state.Failed? && recovered.cleanupRequired
      case Absent =>
        if !group.GroupAbsent? then recovered.state.Failed? && recovered.cleanupRequired
        else
          && recovered.state == EndedState(record, ended) && !recovered.cleanupRequired
          && (Changed(record, recovered) && Active(record.state) && ended.Some? && !record.state.Stopping? ==>
                recovered.exit == Some(Exit(ended.value.exitCode, ended.value.signal)))
      case Present(identity) =>
        if identity != record.identity then
          recovered.state == (if record.state.Failed? then Failed else StaleIdentity) && !recovered.cleanupRequired
        else if CleansUp(record, launched) then
          recovered == record || (recovered.state.Failed? && !recovered.cleanupRequired)
        else if record.state.Stopping? then !Active(recovered.state)
        else recovered.state.Running? && !recovered.cleanupRequired
    }

    predicate CleansUp(record: Record, launched: bool) {
      record.cleanupRequired && (record.state.Failed? || (record.state.Starting? && !launched))
    }

    predicate Changed(a: Record, b: Record) {
      a.state != b.state || a.cleanupRequired != b.cleanupRequired
    }

    /** What decided about a run that is alive. */
    ghost predicate LiveSettled(record: Record, recovered: Record, thrown: bool, launched: bool)
      reads this`records, this`events
    {
      && (record.state.Starting? ==> LaunchChecked(record.id, launched) in Op())
      && (CleansUp(record, launched) && !thrown && !Contested(Op(), record.id) ==>
            if recovered == record then GaveUp(Op(), record.identity)
            else
              && Op() != [] && Op()[|Op()| - 1] == Stored(record.id, record.identity, record.state, Failed, false)
              && (var looked := Op()[..|Op()| - 1];
                  || SeenEmpty(looked, record.identity)
                  || (looked != [] && Strange(looked[|looked| - 1], record.identity))))
      && (record.state.Stopping? && !Contested(Op(), record.id) ==>
            && Stands(recovered)
            && (StopStands(record, None, Ended(recovered)) || StopStands(record, None, StopFailed)))
    }

    /** A transition that leaves the exit as it is. */
    method Store(record: Record, state: ProcessState, cleanup: bool) returns (result: Record, thrown: bool)
      requires Valid() && Known(record)
      requires (record.state != state || record.cleanupRequired != cleanup) ==>
        && MayStore(Op(), record.identity, record.state, state, cleanup)
        && !Stray(Op(), Stored(record.id, record.identity, record.state, state, cleanup))
      modifies this`records, this`events
      ensures Valid() && Continues(old(events), old(births)) && BirthOf(result) == BirthOf(record)
      ensures thrown <==> AnswerOf(old(records), record, state, cleanup).Impossible?
      ensures thrown ==> records == old(records)
      ensures !Contested(Op(), record.id) ==>
        && !thrown && result.state == state && result.cleanupRequired == cleanup
        && (Changed(record, result) ==> Stands(result))
        && Op() == old(Op())
             + if Changed(record, result) then [Stored(record.id, record.identity, record.state, state, cleanup)]
               else []
    {
      hide Valid, Operation, Contested, MayStore, Stray;
      ghost var op := Op();
      var lost: bool;
      result, thrown, lost := Transition(record, state, cleanup, None);
      if thrown || lost {
        NotedIsContested(op, Op(), record.id, record.state, state);
      }
    }

    /** What the anchor wrote down about the end of the task; nothing, if that cannot be read. */
    method CompletedExit(id: nat) returns (completion: Option<JobStore.Completion>)
      requires Valid()
      modifies this`records, this`births, this`events
      ensures Valid() && Continues(old(events), old(births)) && Op() == old(Op()) + [CompletionRead(id, completion)]
    {
      hide Careful, Strays;
      Await();
      completion := *;
      Log(CompletionRead(id, completion));
    }

    /** Whether the anchor wrote down that the task was launched. */
    method HasLaunched(id: nat) returns (launched: bool)
      requires Valid()
      modifies this`records, this`births, this`events
      ensures Valid() && Continues(old(events), old(births)) && Op() == old(Op()) + [LaunchChecked(id, launched)]
    {
      hide Careful, Strays;
      Await();
      launched := *;
      Log(LaunchChecked(id, launched));
    }

    /** Its leader is gone. If its whole group is, the anchor may have written down how the task ended. */
    method RecoverAbsent(record: Record)
        returns (recovered: Record, thrown: bool, ghost group: GroupInspection,
                 ghost ended: Option<JobStore.Completion>)
      requires Valid() && Known(record) && Owed(record)
      requires Op() != [] && Op()[|Op()| - 1] == Inspected(record.identity.pid, Absent)
      modifies this`records, this`births, this`events
      ensures Valid() && Continues(old(events), old(births)) && BirthOf(recovered) == BirthOf(record)
      ensures GroupInspected(record.identity.pgid, group) in Op()
      ensures group.GroupAbsent? && (record.state.Starting? || record.state.Running?) ==>
        CompletionRead(record.id, ended) in Op()
      ensures !thrown && !Contested(Op(), record.id) ==>
        && RecoveredAs(record, recovered, Absent, group, ended, false)
        && (Changed(record, recovered) ==> Stands(recovered))
      ensures RecoveryRefused(record, Absent, group) ==> thrown
      ensures thrown ==> RecoveryRefused(record, Absent, group) || record.id !in records
    {
      hide Valid, Operation, Contested;
      var answer := InspectGroup(record.identity.pgid);
      group, ended := answer, None;
      ghost var op := Op();
      if !answer.GroupAbsent? {
        recovered, thrown := Store(record, Failed, true);
        StillIn(op, Op(), GroupInspected(record.identity.pgid, group));
        return;
      }
      var completion: Option<JobStore.Completion> := None;
      if record.state.Starting? || record.state.Running? {
        completion := CompletedExit(record.id);
        assert Op()[|op|] == CompletionRead(record.id, completion);
      }
      ended := completion;
      ghost var read := Op();
      StillIn(op, read, GroupInspected(record.identity.pgid, group));
      var unclean := completion.Some? && !Clean(completion.value);
      var exit := if completion.Some? then Some(Exit(completion.value.exitCode, completion.value.signal)) else None;
      var state := if record.state.Failed? || unclean then Failed else Stopped;
      var lost: bool;
      recovered, thrown, lost := Transition(record, state, false, exit);
      if thrown || lost {
        NotedIsContested(read, Op(), record.id, record.state, state);
      }
      StillIn(read, Op(), GroupInspected(record.identity.pgid, group));
      if record.state.Starting? || record.state.Running? {
        StillIn(read, Op(), CompletionRead(record.id, ended));
      }
    }

    /** It is alive under its own identity. A start that was never acknowledged, and a failed run whose
        cleanup is owed, are terminated; an interrupted stop is finished; anything else goes on. */
    method RecoverLive(record: Record) returns (recovered: Record, thrown: bool, ghost launched: bool)
      requires Valid() && Known(record) && Owed(record)
      modifies this`waits, this`records, this`births, this`events
      ensures Valid() && Continues(old(events), old(births)) && BirthOf(recovered) == BirthOf(record)
      ensures LiveSettled(record, recovered, thrown, launched)
      ensures !thrown && !Contested(Op(), record.id) ==>
        && RecoveredAs(record, recovered, Present(record.identity), GroupUnreadable, None, launched)
        && (Changed(record, recovered) ==> Stands(recovered))
      ensures record.state.Stopped? || record.state.StaleIdentity? ==> thrown
      ensures thrown ==> record.state.Stopped? || record.state.StaleIdentity? || record.id !in records
    {
      hide Valid, Operation, Contested;
      thrown := false;
      var acknowledged := false;
      ghost var op := Op();
      if record.state.Starting? {
        acknowledged := HasLaunched(record.id);
        assert Op()[|op|] == LaunchChecked(record.id, acknowledged);
      }
      launched := acknowledged;
      op := Op();
      if record.cleanupRequired && (record.state.Failed? || (!acknowledged && record.state.Starting?)) {
        recovered, thrown := CleanUp(record);
      } else if record.state.Stopping? {
        recovered := FinishStop(record);
      } else {
        Await();
        recovered, thrown := Store(record, Running, false);
      }
      if record.state.Starting? {
        StillIn(op, Op(), LaunchChecked(record.id, acknowledged));
      }
    }

    method CleanUp(record: Record) returns (recovered: Record, thrown: bool)
      requires Valid() && Known(record) && record.cleanupRequired && (record.state.Failed? || record.state.Starting?)
      modifies this`waits, this`records, this`births, this`events
      ensures Valid() && Continues(old(events), old(births)) && BirthOf(recovered) == BirthOf(record)
      ensures thrown ==> record.id !in records
      ensures !thrown && !Contested(Op(), record.id) ==>
        if recovered == record then GaveUp(Op(), record.identity)
        else
          && recovered.state.Failed? && !recovered.cleanupRequired && Stands(recovered)
          && Op() != [] && Op()[|Op()| - 1] == Stored(record.id, record.identity, record.state, Failed, false)
          && (var looked := Op()[..|Op()| - 1];
              SeenEmpty(looked, record.identity) || (looked != [] && Strange(looked[|looked| - 1], record.identity)))
    {
      hide Valid, Operation, Contested, GaveUp;
      recovered, thrown := record, false;
      var cleaned := TerminateCleanupOwned(record);
      if cleaned {
        ghost var looked := Op();
        recovered, thrown := Store(record, Failed, false);
        if !Contested(Op(), record.id) {
          assert Op()[..|Op()| - 1] == looked;
        }
      }
    }

    method FinishStop(record: Record) returns (recovered: Record)
      requires Valid() && Known(record) && record.state.Stopping?
      modifies this`waits, this`records, this`births, this`events
      ensures Valid() && Continues(old(events), old(births)) && BirthOf(recovered) == BirthOf(record)
      ensures !Contested(Op(), record.id) ==>
        && Stands(recovered) && !Active(recovered.state)
        && (StopStands(record, None, Ended(recovered)) || StopStands(record, None, StopFailed))
    {
      hide Valid, Operation, Contested, GaveUp, PassedOn, SeenEmpty;
      var stop, contested := StopLocked(record, None);
      recovered := record;
      if stop.Ended? {
        recovered := stop.record;
      } else if record.id in records {
        recovered := records[record.id];
        Listed(record.id);
        SameProcess(recovered, record);
      }
    }

    /** What a predecessor left active or flagged, all of it. */
    method Leftover() returns (candidates: seq<Record>)
      requires Valid()
      ensures forall r :: r in candidates ==> Known(r) && Owed(r) && (Active(r.state) || r.cleanupRequired)
      ensures forall id :: id in records && (Active(records[id].state) || records[id].cleanupRequired) ==>
        records[id] in candidates
    {
      hide Careful, Strays;
      candidates := [];
      var left := records.Keys;
      while left != {}
        invariant left <= records.Keys
        invariant forall r :: r in candidates ==> Known(r) && Owed(r)
        invariant forall id :: id in records && id !in left && Owed(records[id]) ==> records[id] in candidates
        decreases |left|
      {
        var id :| id in left;
        left := left - {id};
        if Owed(records[id]) {
          candidates := candidates + [records[id]];
        }
      }
    }

    /** A new daemon goes through what its predecessor left active or flagged. It ends early exactly at a record the
        store refuses an answer for; `looks` are what it saw of the leaders and groups of the others. */
    method Recover(candidates: seq<Record>)
        returns (recovered: seq<Record>, ghost looks: seq<(Inspection, GroupInspection)>)
      requires Valid() && forall r :: r in candidates ==> Known(r) && Owed(r)
      modifies this`waits, this`records, this`births, this`events
      ensures strays == old(strays)
      ensures Valid() && old(events) <= events && old(births) <= births
      ensures |recovered| <= |candidates| && forall i :: 0 <= i < |recovered| ==>
        BirthOf(recovered[i]) == BirthOf(candidates[i])
      ensures |looks| == |recovered| && forall i :: 0 <= i < |looks| ==>
        && Inspected(candidates[i].identity.pid, looks[i].0) in events
        && !RecoveryRefused(candidates[i], looks[i].0, looks[i].1)
      ensures |recovered| < |candidates| ==>
        var r := candidates[|recovered|];
        r.state.Stopped? || r.state.StaleIdentity? || r.id !in records
    {
      hide Valid, Operation, RecoveryRefused, ProcessSupervisor.RecoveredAs, ProcessSupervisor.LiveSettled;
      recovered, looks := [], [];
      while |recovered| < |candidates|
        invariant Valid() && old(events) <= events && old(births) <= births
        invariant |recovered| <= |candidates| && forall i :: 0 <= i < |recovered| ==>
          BirthOf(recovered[i]) == BirthOf(candidates[i])
        invariant |looks| == |recovered| && forall i :: 0 <= i < |looks| ==>
          && Inspected(candidates[i].identity.pid, looks[i].0) in events
          && !RecoveryRefused(candidates[i], looks[i].0, looks[i].1)
        decreases |candidates| - |recovered|
      {
        var next := candidates[|recovered|];
        assert next in candidates && BirthOf(next) in old(births);
        ghost var was := events;
        var last, thrown, leader, group, ended, launched := RecoverRecord(next);
        assert was <= events && forall e :: e in was ==> e in events;
        if thrown {
          RefusedStates(next, leader, group);
          return;
        }
        OperationIsPart(events, Inspected(next.identity.pid, leader));
        recovered, looks := recovered + [last], looks + [(leader, group)];
      }
    }

    lemma RefusedStates(record: Record, leader: Inspection, group: GroupInspection)
      ensures RecoveryRefused(record, leader, group) ==> record.state.Stopped? || record.state.StaleIdentity?
    {
    }

    /** `stop`: one operation on the active run, if there is one. */
    method StopTask(owner: Owner)
        returns (stop: Option<Stop>, ghost seen: Option<Record>, ghost exited: Option<Exit>)
      requires Valid()
      modifies this`waits, this`records, this`births, this`events
      ensures strays == old(strays)
      ensures Valid() && old(events) + [Began] <= events && old(births) <= births
      ensures stop.Some? <==> seen.Some?
      ensures seen.Some? ==>
        && seen.value.id in old(records) && old(records)[seen.value.id] == seen.value
        && seen.value.owner == owner && Active(seen.value.state)
      ensures seen.None? ==>
        && records == old(records)
        && !HasActive(records, owner)
      ensures seen.Some? && !Contested(Op(), seen.value.id) ==>
        && (seen.value.state.Running? ==> ExitAsked(seen.value.id, exited) in Op())
        && StopStands(seen.value, EndingOf(exited), stop.value)
      ensures stop.Some? && stop.value.Ended? ==>
        GroupInspected(stop.value.record.identity.pgid, GroupAbsent) in Op()
        || Impostor(Op(), stop.value.record.identity)
    {
      hide Valid, Operation, StopStands;
      exited := None;
      Begin();
      var active := FindActive(owner);
      seen := active;
      if active.None? { return None, None, None; }
      var ended: Stop;
      ghost var contested: bool;
      ended, contested, exited := StopActive(active.value);
      stop := Some(ended);
    }

    /** `restart`: the old run is stopped first; a stop that fails prevents the start. */
    method Restart(owner: Owner, jobs: JobStore.HeavyJobStore, reserved: bool, luck: Luck)
        returns (start: Start, ghost seen: Option<Record>, ghost stopped: Option<Stop>)
      requires Valid() && Ready(owner, jobs) && GoesBound(jobs) && AnchorFirst(owner, jobs)
      modifies this`waits, this`records, this`births, this`events, this`strays, this`gos, jobs`jobs, jobs`used
      modifies jobs`bindings
      ensures Valid() && old(events) + [Began] <= events && old(births) <= births
      ensures Ready(owner, jobs) && GoesBound(jobs) && AnchorFirst(owner, jobs)
      ensures seen.None? <==> !HasActive(old(records), owner)
      ensures !reserved ==> start == Unexplained && stopped.None? && records == old(records) && gos == old(gos)
      ensures reserved ==> (stopped.Some? <==> seen.Some?)
      ensures stopped.Some? && !Contested(Op(), seen.value.id) ==>
        exists exited, op ::
          op <= Op() && (seen.value.state.Running? ==> ExitAsked(seen.value.id, exited) in op)
          && StopSettled(op, seen.value, EndingOf(exited), stopped.value)
      ensures stopped == Some(StopFailed) ==> start == Unexplained && gos == old(gos)
      ensures reserved && stopped != Some(StopFailed) ==>
        exists launch, recorded ::
          launch <= Op()
          && SpawnAnswered(luck, AnchorBound(owner, old(jobs.jobs)), ProcessBound(owner, old(jobs.jobs)), launch,
               recorded, start)
      ensures start.Started? ==>
        !start.existing && GoSent(owner, start.record.id, start.record.identity) in gos && Stands(start.record)
    {
      hide Valid, Operation, JobStore.HeavyJobStore.Valid, Ready, AnchorFirst, HasActive, Contested, StopSettled,
        SpawnAnswered;
      stopped := None;
      Begin();
      var active := FindActive(owner);
      FoundActive(owner, active);
      seen := active;
      if !reserved { return Unexplained, seen, stopped; }
      ghost var op := Op();
      if active.Some? {
        var stop: Stop;
        ghost var contested: bool;
        ghost var exited: Option<Exit>;
        stop, contested, exited := StopActive(active.value);
        stopped := Some(stop);
        op := Op();
        if !contested {
          assert StopSettled(op, seen.value, EndingOf(exited), stop);
        }
        if stop.StopFailed? { return Unexplained, seen, stopped; }
      }
      ghost var launch: seq<Event>;
      ghost var recorded: Option<Record>;
      start, launch, recorded := Spawn(owner, jobs, luck);
      if seen.Some? && Contested(op, seen.value.id) {
        StillContested(op, Op(), seen.value.id);
      }
    }
  }

  /** What a start does with a run that an earlier one left RUNNING, as it does, without the flag, when all it
      has seen is that the leader is gone: the run is accounted for exactly if the group is gone as well. */
  method RetireLeftover(supervisor: ProcessSupervisor, existing: Record)
      returns (group: GroupInspection, ghost lost: bool)
    requires supervisor.Valid() && supervisor.Known(existing) && existing.state.Running? && !existing.cleanupRequired
    requires supervisor.Op() == [Inspected(existing.identity.pid, Absent)]
    modifies supervisor`records, supervisor`births, supervisor`events, supervisor`strays
    ensures supervisor.Valid()
    ensures !lost ==> (group.GroupAbsent? <==> supervisor.strays == old(supervisor.strays))
  {
    hide ProcessSupervisor.Valid, Operation;
    var thrown: bool;
    group, thrown, lost := supervisor.RetireAbsent(existing);
    lost := lost || thrown;
  }
}
