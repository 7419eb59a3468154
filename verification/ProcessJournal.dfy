/** Everything the supervisor and the job queue observe and do, in order, and what each deed must rest
    on. Observations are an adversary's: any answer may come at any time. */
module ProcessJournal {
  import opened Wrappers
  import JobStore

  datatype Identity = Identity(pid: nat, pgid: nat, startTime: string, fingerprint: string)

  datatype Inspection = Present(identity: Identity) | Absent | Unreadable

  datatype GroupInspection = GroupPresent | GroupAbsent | GroupUnreadable

  datatype ProcessState = Starting | Running | Stopping | Stopped | Failed | StaleIdentity

  /** A user's task, or the one process of a heavy job. */
  datatype Owner = OfTask(name: string) | OfJob(job: nat)

  datatype Exit = Exit(code: Option<int>, signal: Option<string>)

  datatype Record = Record(id: nat, owner: Owner, identity: Identity, state: ProcessState,
      cleanupRequired: bool, exit: Option<Exit>)

  datatype Signal = Term | Kill

  datatype Event =
    | Began
    | Inspected(pid: nat, answer: Inspection)
    | GroupInspected(pgid: nat, group: GroupInspection)
    | ChildExited(pid: nat)
    | Aborted(pid: nat)
    | Signalled(target: Identity, signal: Signal)
    | Refused(target: Identity, signal: Signal)
    | ExitAsked(id: nat, exited: Option<Exit>)
    | CompletionRead(id: nat, completion: Option<JobStore.Completion>)
    | Recorded(id: nat, owner: Owner, identity: Identity)
    | Bound(job: nat, id: nat)
    | GoSent(owner: Owner, id: nat, identity: Identity)
    | Stored(id: nat, identity: Identity, from: ProcessState, to: ProcessState, cleanup: bool)
    | LaunchChecked(id: nat, acknowledged: bool)
    | Declined(id: nat, from: ProcessState, to: ProcessState)
    | Released(job: nat)

  predicate Active(s: ProcessState) {
    s.Starting? || s.Running? || s.Stopping?
  }

  /** The transitions the store accepts. */
  predicate Legal(from: ProcessState, to: ProcessState) {
    || from == to
    || (from.Starting? && to != Starting)
    || (from.Running? && !to.Starting?)
    || (from.Stopping? && !Active(to))
  }

  function Rank(s: ProcessState): nat {
    match s
    case Starting => 0
    case Running => 1
    case Stopping => 2
    case _ => 3
  }

  /** A run only moves forward, and how it ended is final. */
  lemma LegalIsForward(from: ProcessState, to: ProcessState)
    ensures Legal(from, to) <==> from == to || Rank(from) < Rank(to)
  {
  }

  /** The events of the operation under way. */
  function Operation(s: seq<Event>): seq<Event> {
    if s == [] || s[|s| - 1].Began? then [] else Operation(s[..|s| - 1]) + [s[|s| - 1]]
  }

  ghost predicate Impostor(op: seq<Event>, identity: Identity) {
    exists other: Identity :: other != identity && Inspected(identity.pid, Present(other)) in op
  }

  /** The operation saw that the recorded process itself is no longer there. */
  ghost predicate LeaderGone(op: seq<Event>, identity: Identity) {
    || GroupInspected(identity.pgid, GroupAbsent) in op
    || Inspected(identity.pid, Absent) in op
    || ChildExited(identity.pid) in op
    || Impostor(op, identity)
  }

  /** The operation saw the whole group of the recorded process gone, or its number in other hands. */
  ghost predicate Accounted(op: seq<Event>, identity: Identity) {
    GroupInspected(identity.pgid, GroupAbsent) in op || Impostor(op, identity)
  }

  /** A run leaves the active states without a cleanup flag: nobody will look after it any more. */
  predicate LetsGo(e: Event) {
    e.Stored? && Active(e.from) && !Active(e.to) && !e.cleanup
  }

  /** A run is let go although its operation did not account for its group. */
  ghost predicate Stray(op: seq<Event>, e: Event) {
    LetsGo(e) && !Accounted(op, e.identity)
  }

  /** The places in the journal where that happened. */
  ghost function Strays(s: seq<Event>): set<nat> {
    set k: nat | k < |s| && Stray(Operation(s[..k]), s[k])
  }

  /** A run is recorded as stopped only when its group was seen gone, as stale only when another process
      was seen under its number, and it is let go without a cleanup flag only when it is itself gone. */
  ghost predicate MayStore(op: seq<Event>, identity: Identity, from: ProcessState, to: ProcessState, cleanup: bool) {
    && (to.Stopped? && !from.Stopped? ==> GroupInspected(identity.pgid, GroupAbsent) in op)
    && (to.StaleIdentity? && !from.StaleIdentity? ==> Impostor(op, identity))
    && (Active(from) && !Active(to) && !cleanup ==> LeaderGone(op, identity))
  }

  /** What a deed must rest on: `all` is everything before it, `op` the part its own operation did. */
  ghost predicate Justified(all: seq<Event>, op: seq<Event>, e: Event) {
    match e
    // A signal goes out directly after the target was seen with all four recorded fields, and nothing
    // is killed that was not first asked to stop.
    case Signalled(target, signal) =>
      && op != [] && op[|op| - 1] == Inspected(target.pid, Present(target))
      && (signal.Kill? ==> Signalled(target, Term) in op || Aborted(target.pid) in op)
    // GO goes out only to the process that was recorded, and to a job's process only once the job is
    // bound to that record.
    case GoSent(owner, id, identity) =>
      && op != [] && op[|op| - 1] == Inspected(identity.pid, Present(identity))
      && Recorded(id, owner, identity) in op
      && (owner.OfJob? ==> Bound(owner.job, id) in op)
    case Stored(_, identity, from, to, cleanup) => MayStore(op, identity, from, to, cleanup)
    // A job's slot is given up if GO was never sent for it, or its process group is gone.
    case Released(job) =>
      forall id, identity :: GoSent(OfJob(job), id, identity) in all ==>
        GroupInspected(identity.pgid, GroupAbsent) in op
    case _ => true
  }

  /** Every event was justified when it happened. */
  ghost predicate Careful(s: seq<Event>) {
    s != [] ==>
      var past := s[..|s| - 1];
      Careful(past) && Justified(past, Operation(past), s[|s| - 1])
  }

  lemma OperationExtends(s: seq<Event>, e: Event)
    ensures Operation(s + [e]) == if e.Began? then [] else Operation(s) + [e]
  {
    assert (s + [e])[..|s|] == s;
  }

  lemma {:induction false} OperationIsPart(s: seq<Event>, e: Event)
    requires e in Operation(s)
    ensures e in s
  {
    if e != s[|s| - 1] {
      OperationIsPart(s[..|s| - 1], e);
    }
  }

  lemma CarefulExtends(s: seq<Event>, e: Event)
    requires Careful(s) && Justified(s, Operation(s), e)
    ensures Careful(s + [e])
  {
    hide Justified;
    assert (s + [e])[..|s|] == s;
  }

  lemma StraysExtend(s: seq<Event>, e: Event)
    ensures Strays(s + [e]) == if Stray(Operation(s), e) then Strays(s) + {|s|} else Strays(s)
  {
    hide Stray, Operation;
    var t := s + [e];
    assert t[..|s|] == s;
    forall k: nat | k < |s| ensures t[..k] == s[..k] && t[k] == s[k] {
    }
  }

  lemma NoStrayYet(s: seq<Event>)
    ensures |s| !in Strays(s)
  {
  }

  /** A crash cannot spoil carefulness: every prefix of a careful journal is careful, and each of its events
      was justified by what came before. */
  lemma {:induction false} JustifiedAt(s: seq<Event>, k: nat)
    requires Careful(s) && k < |s|
    ensures Careful(s[..k]) && Justified(s[..k], Operation(s[..k]), s[k])
  {
    hide Justified;
    var past := s[..|s| - 1];
    if k < |past| {
      JustifiedAt(past, k);
      assert past[..k] == s[..k];
    }
  }

  /** The last two looks at this number showed the same process. */
  ghost predicate TwiceSeen(op: seq<Event>, target: Identity) {
    1 < |op| && op[|op| - 1] == op[|op| - 2] == Inspected(target.pid, Present(target))
  }

  ghost predicate LastLooked(op: seq<Event>, pid: nat) {
    op != [] && op[|op| - 1].Inspected? && op[|op| - 1].pid == pid
  }

  // ----- how an attempt to end a process ends ----------------------------------------------------------

  /** Its last look found the group gone. */
  ghost predicate SeenEmpty(op: seq<Event>, target: Identity) {
    op != [] && op[|op| - 1] == GroupInspected(target.pgid, GroupAbsent)
  }

  ghost predicate Strange(e: Event, target: Identity) {
    e.Inspected? && e.pid == target.pid && e.answer.Present? && e.answer.identity != target
  }

  /** Its last look found the number in other hands, or that and the group still there. */
  ghost predicate PassedOn(op: seq<Event>, target: Identity) {
    && op != []
    && (|| Strange(op[|op| - 1], target)
        || (1 < |op| && op[|op| - 1] == GroupInspected(target.pgid, GroupPresent) && Strange(op[|op| - 2], target)))
  }

  /** The only reasons to give up: a look that gave no answer, a signal that was refused, a group without its
      leader, or one that outlived the KILL. */
  ghost predicate GaveUp(op: seq<Event>, target: Identity) {
    && op != []
    && (|| op[|op| - 1] == Inspected(target.pid, Unreadable)
        || op[|op| - 1] == GroupInspected(target.pgid, GroupUnreadable)
        || (op[|op| - 1].Refused? && op[|op| - 1].target == target)
        || (&& op[|op| - 1] == GroupInspected(target.pgid, GroupPresent)
            && ((1 < |op| && op[|op| - 2] == Inspected(target.pid, Absent)) || Signalled(target, Kill) in op)))
  }

  /** Between a TERM and a KILL the group was looked at. */
  ghost predicate Graceful(op: seq<Event>, target: Identity) {
    forall k :: 0 <= k < |op| && op[k] == Signalled(target, Kill) ==> Given(op, target, k)
  }

  ghost predicate Given(op: seq<Event>, target: Identity, k: int)
    requires k <= |op|
  {
    exists i, j ::
      0 <= i < j < k && op[i] == Signalled(target, Term) && op[j].GroupInspected? && op[j].pgid == target.pgid
  }

  /** Event k decides an attempt: a refused signal, the number in other hands, or leader and group both absent. After
      the second the group may still be looked at. */
  ghost predicate Decisive(op: seq<Event>, target: Identity, k: nat)
    requires k < |op|
  {
    || op[k].Refused?
    || (Strange(op[k], target) && !(k + 2 == |op| && op[k + 1].GroupInspected?))
    || (&& 0 < k && op[k - 1] == Inspected(target.pid, Absent)
        && op[k] == GroupInspected(target.pgid, GroupAbsent))
  }

  /** What decides an attempt ends it. */
  ghost predicate Prompt(before: seq<Event>, after: seq<Event>, target: Identity) {
    before <= after && forall k :: |before| <= k < |after| - 1 ==> !Decisive(after, target, k)
  }

  /** The last thing that happened, if anything did, decides nothing. */
  ghost predicate Undecided(before: seq<Event>, op: seq<Event>, target: Identity) {
    before < op ==>
      && !op[|op| - 1].Refused? && !Strange(op[|op| - 1], target)
      && (|before| + 1 < |op| ==> !Strange(op[|op| - 2], target))
      && (op[|op| - 1] == GroupInspected(target.pgid, GroupAbsent) ==>
            1 < |op| && op[|op| - 2] != Inspected(target.pid, Absent))
  }

  lemma NothingYet(op: seq<Event>, target: Identity)
    ensures Prompt(op, op, target) && Undecided(op, op, target)
  {
  }

  lemma PromptGrows(before: seq<Event>, op: seq<Event>, target: Identity)
    requires Prompt(before, op, target)
    ensures before <= op
  {
  }

  lemma DecidesNothing(before: seq<Event>, op: seq<Event>, target: Identity)
    requires op != [] && !op[|op| - 1].Refused? && !Strange(op[|op| - 1], target)
    requires |before| + 1 < |op| ==> !Strange(op[|op| - 2], target)
    requires op[|op| - 1] == GroupInspected(target.pgid, GroupAbsent) ==>
      1 < |op| && op[|op| - 2] != Inspected(target.pid, Absent)
    ensures Undecided(before, op, target)
  {
  }

  /** An attempt goes on after an event that does not decide it. */
  lemma GoesOn(before: seq<Event>, mid: seq<Event>, after: seq<Event>, target: Identity)
    requires Prompt(before, mid, target) && Undecided(before, mid, target) && Prompt(mid, after, target)
    ensures Prompt(before, after, target)
  {
    forall k | |before| <= k < |after| - 1 ensures !Decisive(after, target, k) {
      if k < |mid| - 1 {
        assert after[k] == mid[k] && after[k + 1] == mid[k + 1] && !Decisive(mid, target, k);
        assert 0 < k ==> after[k - 1] == mid[k - 1];
      } else if k == |mid| - 1 {
        assert after[k] == mid[k] && (0 < k ==> after[k - 1] == mid[k - 1]);
      }
    }
  }

  /** One event more. */
  lemma OneFurther(before: seq<Event>, mid: seq<Event>, after: seq<Event>, target: Identity)
    requires Prompt(before, mid, target) && Undecided(before, mid, target) && mid <= after && |after| <= |mid| + 1
    ensures Prompt(before, after, target)
  {
    GoesOn(before, mid, after, target);
  }

  /** A signal, refused or not. */
  lemma SignalIsPrompt(before: seq<Event>, after: seq<Event>, target: Identity, signal: Signal)
    requires
      || after == before + [Signalled(target, signal)]
      || after == before + [Signalled(target, signal), Refused(target, signal)]
    ensures Prompt(before, after, target)
  {
  }

  /** Looks at a process that give no answer, but for the last. */
  lemma RetriesArePrompt(before: seq<Event>, after: seq<Event>, target: Identity)
    requires before <= after
    requires forall k :: |before| <= k < |after| - 1 ==> after[k] == Inspected(target.pid, Unreadable)
    ensures Prompt(before, after, target)
  {
  }

  /** The number was in other hands, and the group is looked at. */
  lemma StrangeIsPrompt(before: seq<Event>, mid: seq<Event>, after: seq<Event>, target: Identity)
    requires Prompt(before, mid, target) && before < mid && Strange(mid[|mid| - 1], target)
    requires |after| == |mid| + 1 && mid <= after && after[|mid|].GroupInspected?
    ensures Prompt(before, after, target)
  {
    forall k | |before| <= k < |after| - 1 ensures !Decisive(after, target, k) {
      if k < |mid| - 1 {
        assert after[k] == mid[k] && after[k + 1] == mid[k + 1] && !Decisive(mid, target, k);
        assert 0 < k ==> after[k - 1] == mid[k - 1];
      }
    }
  }

  /** Looks at the group that do not find it absent, but for the last. */
  lemma WaitingIsPrompt(before: seq<Event>, after: seq<Event>, target: Identity)
    requires before <= after
    requires forall k :: |before| <= k < |after| ==> after[k].GroupInspected?
    requires forall k :: |before| <= k < |after| - 1 ==> !after[k].group.GroupAbsent?
    ensures Prompt(before, after, target)
  {
  }

  /** Nothing happened but looks. */
  ghost predicate Looked(before: seq<Event>, after: seq<Event>) {
    before <= after && forall k :: |before| <= k < |after| ==> after[k].Inspected? || after[k].GroupInspected?
  }

  lemma NothingLooked(op: seq<Event>)
    ensures Looked(op, op)
  {
  }

  lemma LookedFurther(before: seq<Event>, mid: seq<Event>, after: seq<Event>)
    requires Looked(before, mid) && Looked(mid, after)
    ensures Looked(before, after)
  {
  }

  /** Whoever was seen empty or passed on had its group seen absent, or its number in other hands. */
  lemma EndIsAccounted(op: seq<Event>, later: seq<Event>, target: Identity)
    requires op <= later && (SeenEmpty(op, target) || PassedOn(op, target))
    ensures SeenEmpty(op, target) ==> GroupInspected(target.pgid, GroupAbsent) in later
    ensures PassedOn(op, target) ==> Impostor(later, target)
  {
    if SeenEmpty(op, target) {
      assert later[|op| - 1] == GroupInspected(target.pgid, GroupAbsent);
    } else {
      var k := if Strange(op[|op| - 1], target) then |op| - 1 else |op| - 2;
      assert later[k] == Inspected(target.pid, Present(op[k].answer.identity));
    }
  }

  lemma StillGiven(before: seq<Event>, after: seq<Event>, target: Identity, k: nat)
    requires before <= after && k <= |before| && Given(before, target, k)
    ensures Given(after, target, k)
  {
    var i, j :| 0 <= i < j < k && before[i] == Signalled(target, Term)
                && before[j].GroupInspected? && before[j].pgid == target.pgid;
    assert after[i] == before[i] && after[j] == before[j];
  }

  lemma NoKillGraceful(before: seq<Event>, after: seq<Event>, target: Identity)
    requires before <= after && Graceful(before, target)
    requires forall k :: |before| <= k < |after| ==> after[k] != Signalled(target, Kill)
    ensures Graceful(after, target)
  {
    forall k | 0 <= k < |after| && after[k] == Signalled(target, Kill) ensures Given(after, target, k) {
      assert before[k] == after[k];
      StillGiven(before, after, target, k);
    }
  }

  lemma LookedGraceful(before: seq<Event>, after: seq<Event>, target: Identity)
    requires Looked(before, after)
    ensures before <= after && (Graceful(before, target) ==> Graceful(after, target))
  {
    hide Graceful;
    if Graceful(before, target) {
      NoKillGraceful(before, after, target);
    }
  }

  /** A TERM, refused or not. */
  lemma TermGraceful(before: seq<Event>, after: seq<Event>, target: Identity)
    requires
      || after == before + [Signalled(target, Term)]
      || after == before + [Signalled(target, Term), Refused(target, Term)]
    ensures before <= after && Signalled(target, Term) in after
    ensures Graceful(before, target) ==> Graceful(after, target)
  {
    hide Graceful;
    assert after[|before|] == Signalled(target, Term);
    if Graceful(before, target) {
      NoKillGraceful(before, after, target);
    }
  }

  /** A KILL, refused or not, after a TERM and a look at the group. */
  lemma KillGraceful(sent: seq<Event>, waited: seq<Event>, before: seq<Event>, after: seq<Event>, target: Identity)
    requires sent <= waited <= before && Signalled(target, Term) in sent && |sent| < |waited|
    requires waited[|waited| - 1].GroupInspected? && waited[|waited| - 1].pgid == target.pgid
    requires
      || after == before + [Signalled(target, Kill)]
      || after == before + [Signalled(target, Kill), Refused(target, Kill)]
    ensures Signalled(target, Kill) in after && (Graceful(before, target) ==> Graceful(after, target))
  {
    hide Given;
    assert after[|before|] == Signalled(target, Kill);
    if Graceful(before, target) {
      forall k | 0 <= k < |after| && after[k] == Signalled(target, Kill) ensures Given(after, target, k) {
        if k < |before| {
          StillGiven(before, after, target, k);
        } else {
          GivenTime(sent, waited, after, target, k);
        }
      }
    }
  }

  lemma GivenTime(sent: seq<Event>, waited: seq<Event>, after: seq<Event>, target: Identity, k: nat)
    requires sent <= waited <= after && Signalled(target, Term) in sent && |sent| < |waited| <= k <= |after|
    requires waited[|waited| - 1].GroupInspected? && waited[|waited| - 1].pgid == target.pgid
    ensures Given(after, target, k)
  {
    var i :| 0 <= i < |sent| && sent[i] == Signalled(target, Term);
    assert after[i] == sent[i] && after[|waited| - 1] == waited[|waited| - 1];
  }

  /** Nothing was signalled in between. */
  ghost predicate Quietly(before: seq<Event>, after: seq<Event>) {
    before <= after && forall k :: |before| <= k < |after| ==> !after[k].Signalled?
  }

  /** An answer of the store, or two, spoils nothing. */
  lemma NotedGraceful(before: seq<Event>, after: seq<Event>, target: Identity)
    requires Quietly(before, after)
    ensures Graceful(before, target) ==> Graceful(after, target)
  {
    hide Graceful;
    if Graceful(before, target) {
      NoKillGraceful(before, after, target);
    }
  }

  /** Somebody else decided this record meanwhile, or the store knows no such transition. */
  ghost predicate Contested(op: seq<Event>, id: nat) {
    exists from, to :: Declined(id, from, to) in op
  }

  lemma StillContested(earlier: seq<Event>, later: seq<Event>, id: nat)
    requires earlier <= later && Contested(earlier, id)
    ensures Contested(later, id)
  {
    var from, to :| Declined(id, from, to) in earlier;
    StillIn(earlier, later, Declined(id, from, to));
  }

  lemma StillIn(earlier: seq<Event>, later: seq<Event>, e: Event)
    requires earlier <= later && e in earlier
    ensures e in later
  {
  }

  lemma StillGone(earlier: seq<Event>, later: seq<Event>, identity: Identity)
    requires earlier <= later && LeaderGone(earlier, identity)
    ensures LeaderGone(later, identity)
  {
  }

  lemma SeenGone(op: seq<Event>, identity: Identity)
    requires GroupInspected(identity.pgid, GroupAbsent) in op
    ensures LeaderGone(op, identity) && Accounted(op, identity)
  {
  }

  /** The exit of an anchor that was told to, and a look that finds its number free, account for no group. */
  lemma AnchorGone(before: seq<Event>, op: seq<Event>, e: Event, identity: Identity)
    requires op == before + [Aborted(identity.pid)] + [e]
    requires e in {ChildExited(identity.pid), Inspected(identity.pid, Absent)}
    ensures Aborted(identity.pid) in op && LeaderGone(op, identity)
    ensures Accounted(op, identity) <==> Accounted(before, identity)
  {
    assert op[|before|] == Aborted(identity.pid) && op[|before| + 1] in op;
    forall e | e in op && (e.GroupInspected? || (e.Inspected? && e.answer.Present?)) ensures e in before {
    }
    forall e | e in before ensures e in op {
    }
  }

  /** A transition accounts for nobody. */
  lemma StillAccounted(earlier: seq<Event>, later: seq<Event>, identity: Identity)
    requires earlier <= later && forall k :: |earlier| <= k < |later| ==> later[k].Stored?
    ensures Accounted(earlier, identity) <==> Accounted(later, identity)
  {
    forall e | e in later && !e.Stored? ensures e in earlier {
    }
  }

  // ----- what carefulness means for a whole run -------------------------------------------------------

  /** Moments j and k belong to one operation. */
  ghost predicate SameOperation(s: seq<Event>, j: nat, k: nat) {
    j <= k <= |s| && forall i :: j <= i < k ==> s[i] != Began
  }

  lemma {:induction false} SeenSince(s: seq<Event>, k: nat, e: Event)
    requires k <= |s| && e in Operation(s[..k])
    ensures exists j :: 0 <= j < k && SameOperation(s, j, k) && s[j] == e
  {
    var before := s[..k - 1];
    assert s[..k][..k - 1] == before;
    if s[k - 1] == e {
      assert SameOperation(s, k - 1, k);
    } else {
      SeenSince(s, k - 1, e);
      var j :| 0 <= j < k - 1 && SameOperation(s, j, k - 1) && s[j] == e;
      assert SameOperation(s, j, k);
    }
  }

  /** In a careful journal, every GO belongs to a process that was recorded. */
  lemma GoIsRecorded(s: seq<Event>, owner: Owner, id: nat, identity: Identity)
    requires Careful(s) && GoSent(owner, id, identity) in s
    ensures Recorded(id, owner, identity) in s
  {
    hide Careful, Operation;
    var k :| 0 <= k < |s| && s[k] == GoSent(owner, id, identity);
    JustifiedAt(s, k);
    SeenSince(s, k, Recorded(id, owner, identity));
  }

  /** Every signal directly follows an inspection that found the recorded process, and every KILL was
      preceded, in its own operation, by a TERM or an ABORT. */
  lemma SignalsHitTheirTarget(s: seq<Event>, k: nat, target: Identity, signal: Signal)
    requires Careful(s) && k < |s| && s[k] == Signalled(target, signal)
    ensures 0 < k && s[k - 1] == Inspected(target.pid, Present(target))
    ensures signal.Kill? ==>
      || (exists j :: 0 <= j < k && SameOperation(s, j, k) && s[j] == Signalled(target, Term))
      || (exists j :: 0 <= j < k && SameOperation(s, j, k) && s[j] == Aborted(target.pid))
  {
    hide Careful, SameOperation;
    JustifiedAt(s, k);
    var op := Operation(s[..k]);
    assert op[|op| - 1] == s[k - 1];
    if signal.Kill? {
      if Signalled(target, Term) in op {
        SeenSince(s, k, Signalled(target, Term));
      } else {
        SeenSince(s, k, Aborted(target.pid));
      }
    }
  }

  /** Every record that becomes STOPPED was preceded, in its own operation, by a look at its process group
      that found it absent. */
  lemma StoppedMeansGone(s: seq<Event>, k: nat, id: nat, identity: Identity, from: ProcessState, cleanup: bool)
    requires Careful(s) && k < |s| && s[k] == Stored(id, identity, from, Stopped, cleanup) && from != Stopped
    ensures exists j :: 0 <= j < k && SameOperation(s, j, k) && s[j] == GroupInspected(identity.pgid, GroupAbsent)
  {
    hide Careful, SameOperation, Operation;
    JustifiedAt(s, k);
    SeenSince(s, k, GroupInspected(identity.pgid, GroupAbsent));
  }

  /** A run that is let go is accounted for: everywhere but at the strays, its operation saw its group absent
      or its number in other hands. */
  lemma LetGoIsAccounted(s: seq<Event>, k: nat)
    requires k < |s| && LetsGo(s[k])
    ensures k !in Strays(s) <==>
      || (exists j :: 0 <= j < k && SameOperation(s, j, k) && s[j] == GroupInspected(s[k].identity.pgid, GroupAbsent))
      || (exists j, other: Identity :: 0 <= j < k && SameOperation(s, j, k) && other != s[k].identity
            && s[j] == Inspected(s[k].identity.pid, Present(other)))
  {
    hide Operation, SameOperation;
    var identity := s[k].identity;
    var op := Operation(s[..k]);
    if k !in Strays(s) {
      if GroupInspected(identity.pgid, GroupAbsent) in op {
        SeenSince(s, k, GroupInspected(identity.pgid, GroupAbsent));
      } else {
        var other: Identity :| other != identity && Inspected(identity.pid, Present(other)) in op;
        SeenSince(s, k, Inspected(identity.pid, Present(other)));
      }
    } else {
      forall j | 0 <= j < k && SameOperation(s, j, k) ensures s[j] in op {
        SeenInOperation(s, j, k);
      }
    }
  }

  /** What happened since the operation began is in it. */
  lemma {:induction false} SeenInOperation(s: seq<Event>, j: nat, k: nat)
    requires j < k <= |s| && SameOperation(s, j, k)
    ensures s[j] in Operation(s[..k])
  {
    assert s[..k][..k - 1] == s[..k - 1] && s[k - 1] != Began;
    if j < k - 1 {
      SeenInOperation(s, j, k - 1);
    }
  }

  /** One more justified event, and all that it changes. */
  lemma Extends(s: seq<Event>, e: Event)
    requires Careful(s) && Justified(s, Operation(s), e)
    ensures Careful(s + [e])
    ensures Operation(s + [e]) == if e.Began? then [] else Operation(s) + [e]
    ensures Strays(s + [e]) == if Stray(Operation(s), e) then Strays(s) + {|s|} else Strays(s)
  {
    hide Justified, Careful, Strays, Stray;
    CarefulExtends(s, e);
    StraysExtend(s, e);
    OperationExtends(s, e);
  }

  /** Looking, recording and asking need no justification, and let nobody go. */
  predicate Plain(e: Event) {
    e.Inspected? || e.GroupInspected? || e.ChildExited? || e.Aborted? || e.Recorded?
  }

  lemma ExtendsPlainly(s: seq<Event>, e: Event)
    requires Careful(s) && Plain(e)
    ensures Careful(s + [e]) && Operation(s + [e]) == Operation(s) + [e] && Strays(s + [e]) == Strays(s)
  {
    hide Careful, Strays, Operation;
    Extends(s, e);
  }

  lemma JustBegan()
    ensures Careful([Began]) && Operation([Began]) == [] && Strays([Began]) == {}
  {
  }

  /** A running process whose number is free and whose group is still there, recorded FAILED without a flag:
      a careful journal with a stray. */
  lemma LeftoverGroupIsStray(id: nat, identity: Identity)
    ensures var s := [Began, Inspected(identity.pid, Absent), GroupInspected(identity.pgid, GroupPresent),
                      Stored(id, identity, Running, Failed, false)];
            Careful(s) && Strays(s) == {3}
  {
    hide Careful, Strays, Operation;
    JustBegan();
    var s := [Began];
    var e := Inspected(identity.pid, Absent);
    Extends(s, e);
    s, e := s + [e], GroupInspected(identity.pgid, GroupPresent);
    Extends(s, e);
    s, e := s + [e], Stored(id, identity, Running, Failed, false);
    assert Operation(s) == [Inspected(identity.pid, Absent), GroupInspected(identity.pgid, GroupPresent)];
    Extends(s, e);
    assert s + [e] == [Began, Inspected(identity.pid, Absent), GroupInspected(identity.pgid, GroupPresent), e];
  }

  lemma LaunchSendsGo(id: nat, name: string, identity: Identity)
    ensures var s := [Began, Recorded(id, OfTask(name), identity), Inspected(identity.pid, Present(identity)),
                      GoSent(OfTask(name), id, identity)];
            Careful(s) && Strays(s) == {} && Operation(s) == s[1..]
  {
    hide Careful, Strays, Operation;
    JustBegan();
    var s, owner := [Began], OfTask(name);
    var e := Recorded(id, owner, identity);
    ExtendsPlainly(s, e);
    s, e := s + [e], Inspected(identity.pid, Present(identity));
    ExtendsPlainly(s, e);
    s, e := s + [e], GoSent(owner, id, identity);
    assert Operation(s) == [Recorded(id, owner, identity), Inspected(identity.pid, Present(identity))];
    Extends(s, e);
    assert s + [e] == [Began, Recorded(id, owner, identity), Inspected(identity.pid, Present(identity)), e];
  }

  /** A launch that was recorded and sent GO, is then abandoned, and whose anchor exits: recorded FAILED without
      a flag, although nobody looked whether the task it started is still there. */
  lemma LeftoverTaskIsStray(id: nat, name: string, identity: Identity)
    ensures var s := [Began, Recorded(id, OfTask(name), identity), Inspected(identity.pid, Present(identity)),
                      GoSent(OfTask(name), id, identity), Aborted(identity.pid), ChildExited(identity.pid),
                      Stored(id, identity, Starting, Failed, false)];
            Careful(s) && Strays(s) == {6}
  {
    hide Careful, Strays, Operation;
    LaunchSendsGo(id, name, identity);
    var go := [Began, Recorded(id, OfTask(name), identity), Inspected(identity.pid, Present(identity)),
               GoSent(OfTask(name), id, identity)];
    var s, e := go, Aborted(identity.pid);
    ExtendsPlainly(s, e);
    s, e := s + [e], ChildExited(identity.pid);
    ExtendsPlainly(s, e);
    s, e := s + [e], Stored(id, identity, Starting, Failed, false);
    assert Operation(s) == go[1..] + [Aborted(identity.pid)] + [ChildExited(identity.pid)];
    Extends(s, e);
    assert s + [e] == [Began, Recorded(id, OfTask(name), identity), Inspected(identity.pid, Present(identity)),
                       GoSent(OfTask(name), id, identity), Aborted(identity.pid), ChildExited(identity.pid), e];
  }

  /** GO is sent only to a process that was recorded earlier in the same operation, and bound to its job. */
  lemma GoFollowsTheRecord(s: seq<Event>, k: nat, owner: Owner, id: nat, identity: Identity)
    requires Careful(s) && k < |s| && s[k] == GoSent(owner, id, identity)
    ensures exists j :: 0 <= j < k && SameOperation(s, j, k) && s[j] == Recorded(id, owner, identity)
    ensures owner.OfJob? ==> exists j :: 0 <= j < k && SameOperation(s, j, k) && s[j] == Bound(owner.job, id)
  {
    hide Careful, SameOperation, Operation;
    JustifiedAt(s, k);
    SeenSince(s, k, Recorded(id, owner, identity));
    if owner.OfJob? {
      SeenSince(s, k, Bound(owner.job, id));
    }
  }

  /** A job's slot is released only if GO was never sent for it, or every process GO was sent to was seen
      gone with its group in the releasing operation. */
  lemma SlotOutlivesTheProcess(s: seq<Event>, k: nat, job: nat, g: nat, id: nat, identity: Identity)
    requires Careful(s) && g < k < |s| && s[k] == Released(job) && s[g] == GoSent(OfJob(job), id, identity)
    ensures exists j :: 0 <= j < k && SameOperation(s, j, k) && s[j] == GroupInspected(identity.pgid, GroupAbsent)
  {
    hide Careful, SameOperation, Operation;
    JustifiedAt(s, k);
    assert s[..k][g] == GoSent(OfJob(job), id, identity);
    SeenSince(s, k, GroupInspected(identity.pgid, GroupAbsent));
  }
}
