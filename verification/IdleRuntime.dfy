/** Suspending tasks nobody has interacted with. Requests arrive while a sweep waits, the clock moves on,
    and the suspender may be closed. */
module IdleRuntime {
  import opened Wrappers

  type Key = string

  datatype Run = Run(id: nat, key: Key, startedAt: Option<int>)

  /** A sweep came upon a run for the first time at `at`, and its window counted from `since`. */
  datatype Sight = Sight(at: int, since: int)

  /** What `stopRecord` answers: it fails, or the run is left in a state that is STOPPED or not. */
  datatype Answer = Threw | Answered(stopped: bool)

  /** A call of `stopRecord`, with what was known then: the last interaction with the task, when a sweep last
      came upon it with no interaction on record, and the first sight of the run; and its answer. */
  datatype Stop = Stop(run: Run, at: int, timeout: nat, touched: Option<int>, unseenUntil: Option<int>, first: Sight,
      answer: Answer)

  /** The window has passed since everything that may restart it. */
  predicate Due(s: Stop) {
    && 1 <= s.timeout
    && (s.touched.Some? ==> s.at - s.touched.value >= s.timeout)
    && (s.run.startedAt.Some? ==> s.at - s.run.startedAt.value >= s.timeout)
    && (s.unseenUntil.Some? ==> s.at - s.unseenUntil.value >= s.timeout)
    && s.at - s.first.since >= s.timeout && s.first.since <= s.first.at <= s.at
  }

  /** The window has also passed since a sweep first saw the run. */
  predicate KeptSinceFirstSight(s: Stop) {
    s.at - s.first.at >= s.timeout
  }

  function Lookup(m: map<Key, int>, key: Key): Option<int> {
    if key in m then Some(m[key]) else None
  }

  /** The moment a run's window counts from when a sweep comes upon it at `now`. */
  function WindowStart(touched: Option<int>, startedAt: Option<int>, now: int): int {
    if touched.None? then now
    else if startedAt.None? then touched.value
    else if touched.value < startedAt.value then startedAt.value else touched.value
  }

  /** A sweep that comes upon a run starts a window for it exactly if no interaction is on record, or the
      last one, or the run's start, is this very moment. */
  lemma FirstSightStartsWindow(touched: Option<int>, startedAt: Option<int>, now: int)
    requires (touched.Some? ==> touched.value <= now) && (startedAt.Some? ==> startedAt.value <= now)
    ensures WindowStart(touched, startedAt, now) == now <==>
      touched.None? || touched == Some(now) || startedAt == Some(now)
  {
  }

  /** Every one of these keys is at `at`, and the others are where they were. */
  function Marked(m: map<Key, int>, keys: seq<Key>, at: int): map<Key, int> {
    if keys == [] then m else Marked(m, keys[..|keys| - 1], at)[keys[|keys| - 1] := at]
  }

  lemma {:induction false} MarkedAt(m: map<Key, int>, keys: seq<Key>, at: int, key: Key)
    ensures Lookup(Marked(m, keys, at), key) == if key in keys then Some(at) else Lookup(m, key)
  {
    if keys != [] {
      MarkedAt(m, keys[..|keys| - 1], at, key);
      assert keys == keys[..|keys| - 1] + [keys[|keys| - 1]];
    }
  }

  predicate DistinctKeys(running: seq<Run>) {
    forall i, j :: 0 <= i < j < |running| ==> running[i].key != running[j].key
  }

  function RunsOf(stops: seq<Stop>): seq<Run> {
    if stops == [] then [] else RunsOf(stops[..|stops| - 1]) + [stops[|stops| - 1].run]
  }

  /** The runs whose stop was answered with STOPPED. */
  function StoppedRuns(stops: seq<Stop>): seq<Run> {
    if stops == [] then []
    else
      var s := stops[|stops| - 1];
      StoppedRuns(stops[..|stops| - 1]) + if s.answer == Answered(true) then [s.run] else []
  }

  lemma NoneStopped()
    ensures StoppedRuns([]) == []
  {
  }

  lemma StoppedRunsMore(stops: seq<Stop>, s: Option<Stop>)
    ensures StoppedRuns(stops + if s.None? then [] else [s.value])
      == StoppedRuns(stops) + if s.Some? && s.value.answer == Answered(true) then [s.value.run] else []
  {
    if s.Some? {
      assert (stops + [s.value])[..|stops|] == stops;
    } else {
      assert stops + [] == stops;
    }
  }

  lemma RunsOfMore(stops: seq<Stop>, s: Stop)
    ensures RunsOf(stops + [s]) == RunsOf(stops) + [s.run]
  {
    assert (stops + [s])[..|stops|] == stops;
  }

  /** The opted-in runs whose window is over. */
  function Overdue(running: seq<Run>, activity: map<Key, int>, timeouts: map<Key, nat>, now: int): seq<Run> {
    if running == [] then []
    else
      var run := running[|running| - 1];
      Overdue(running[..|running| - 1], activity, timeouts, now)
      + if IsOverdue(run, activity, timeouts, now) then [run] else []
  }

  /** The stop concerns run i, under its policy. */
  predicate StopOf(s: Stop, running: seq<Run>, i: nat, timeouts: map<Key, nat>, answers: nat -> Answer) {
    && i < |running| && s.run == running[i] && s.run.key in timeouts && s.timeout == timeouts[s.run.key]
    && s.answer == answers(i)
  }

  /** Every stop concerns one of these runs, under its policy. */
  ghost predicate FromRuns(stops: seq<Stop>, running: seq<Run>, timeouts: map<Key, nat>, answers: nat -> Answer) {
    forall s :: s in stops ==> exists i :: StopOf(s, running, i, timeouts, answers)
  }

  lemma NoStops(running: seq<Run>, timeouts: map<Key, nat>, answers: nat -> Answer)
    ensures FromRuns([], running, timeouts, answers)
  {
  }

  lemma OneStopMore(stops: seq<Stop>, running: seq<Run>, timeouts: map<Key, nat>, answers: nat -> Answer, i: nat,
      stop: Option<Stop>)
    requires FromRuns(stops, running, timeouts, answers)
    requires stop.Some? ==> StopOf(stop.value, running, i, timeouts, answers)
    ensures FromRuns(stops + if stop.None? then [] else [stop.value], running, timeouts, answers)
  {
  }

  predicate IsOverdue(run: Run, activity: map<Key, int>, timeouts: map<Key, nat>, now: int) {
    run.key in timeouts && now - WindowStart(Lookup(activity, run.key), run.startedAt, now) >= timeouts[run.key]
  }

  /** The window of an opted-in run that is not overdue is on record from now on; that of one that was stopped is
      not, unless its stop failed: then a new one begins. */
  predicate OnRecord(run: Run, was: map<Key, int>, timeouts: map<Key, nat>, now: int, activity: map<Key, int>,
      answer: Answer) {
    Lookup(activity, run.key) ==
      if run.key !in timeouts then Lookup(was, run.key)
      else if !IsOverdue(run, was, timeouts, now) then
        Some(WindowStart(Lookup(was, run.key), run.startedAt, now))
      else if answer.Threw? then Some(now)
      else None
  }

  /** What a sweep found when it began. */
  datatype Begun = Begun(activity: map<Key, int>, at: int, stops: seq<Stop>, sights: map<Run, Sight>, disturbances: nat)

  /** The first runs have been seen, and have the windows on record that they should have. */
  ghost predicate AllOnRecord(running: seq<Run>, i: nat, was: map<Key, int>, timeouts: map<Key, nat>, now: int,
      activity: map<Key, int>, sights: map<Run, Sight>, answers: nat -> Answer)
    requires i <= |running|
  {
    forall k :: 0 <= k < i ==>
      && OnRecord(running[k], was, timeouts, now, activity, answers(k))
      && (running[k].key in timeouts ==> running[k] in sights)
  }

  /** Sights are kept, and new ones are not older than `since`. */
  ghost predicate SightsGrow(before: map<Run, Sight>, now: map<Run, Sight>, since: int) {
    && (forall r :: r in before ==> r in now && now[r] == before[r])
    && (forall r :: r in now && r !in before ==> since <= now[r].at)
  }

  /** No other window was touched. */
  ghost predicate OthersKept(before: map<Key, int>, after: map<Key, int>, key: Key) {
    forall k :: k != key ==> Lookup(after, k) == Lookup(before, k)
  }

  lemma SightsSame(sights: map<Run, Sight>, since: int)
    ensures SightsGrow(sights, sights, since)
  {
  }

  lemma SightsGrowFurther(a: map<Run, Sight>, b: map<Run, Sight>, c: map<Run, Sight>, since: int, later: int)
    requires SightsGrow(a, b, since) && SightsGrow(b, c, later) && since <= later
    ensures SightsGrow(a, c, since)
  {
  }

  /** A sweep that was not disturbed has got as far as run i: it stopped those of them whose window was over,
      those of the others are on record, and those still to come are as they were. */
  ghost predicate Swept(running: seq<Run>, i: nat, was: map<Key, int>, timeouts: map<Key, nat>, now: int,
      stops: seq<Stop>, activity: map<Key, int>, sights: map<Run, Sight>, answers: nat -> Answer) {
    && (forall key :: key in activity ==> exists k :: 0 <= k < |running| && running[k].key == key)
    && i <= |running| && RunsOf(stops) == Overdue(running[..i], was, timeouts, now)
    && (forall k :: i <= k < |running| ==> Lookup(activity, running[k].key) == Lookup(was, running[k].key))
    && AllOnRecord(running, i, was, timeouts, now, activity, sights, answers)
  }

  lemma SweptNone(running: seq<Run>, was: map<Key, int>, timeouts: map<Key, nat>, now: int, activity: map<Key, int>,
      sights: map<Run, Sight>, answers: nat -> Answer)
    requires activity == map key | key in was && key in (set run | run in running :: run.key) :: was[key]
    ensures Swept(running, 0, was, timeouts, now, [], activity, sights, answers)
  {
    assert running[..0] == [];
    forall k | 0 <= k < |running| ensures Lookup(activity, running[k].key) == Lookup(was, running[k].key) {
      assert running[k] in running;
    }
  }

  lemma SweptOneMore(running: seq<Run>, i: nat, was: map<Key, int>, timeouts: map<Key, nat>, now: int,
                     stops: seq<Stop>, stop: Option<Stop>, before: map<Key, int>, after: map<Key, int>,
                     seen: map<Run, Sight>, sights: map<Run, Sight>, answers: nat -> Answer)
    requires Swept(running, i, was, timeouts, now, stops, before, seen, answers) && DistinctKeys(running)
    requires i < |running|
    requires SightsGrow(seen, sights, now) && (running[i].key in timeouts ==> running[i] in sights)
    requires stop.Some? ==> stop.value.run == running[i]
    requires stop.Some? <==> IsOverdue(running[i], before, timeouts, now)
    requires OnRecord(running[i], before, timeouts, now, after, answers(i))
    requires OthersKept(before, after, running[i].key)
    ensures Swept(running, i + 1, was, timeouts, now, stops + if stop.None? then [] else [stop.value], after, sights,
      answers)
  {
    hide WindowStart, AllOnRecord, OnRecord;
    assert running[..i + 1][..i] == running[..i];
    KeysStay(running, i, before, after);
    RecordStays(running, i, was, timeouts, now, before, after, seen, sights, answers);
    if stop.Some? {
      RunsOfMore(stops, stop.value);
    } else {
      assert stops + [] == stops;
    }
  }

  lemma KeysStay(running: seq<Run>, i: nat, before: map<Key, int>, after: map<Key, int>)
    requires i < |running| && OthersKept(before, after, running[i].key)
    requires forall key :: key in before ==> exists k :: 0 <= k < |running| && running[k].key == key
    ensures forall key :: key in after ==> exists k :: 0 <= k < |running| && running[k].key == key
  {
    forall key | key in after ensures exists k :: 0 <= k < |running| && running[k].key == key {
      if key != running[i].key {
        assert Lookup(after, key) == Lookup(before, key);
      }
    }
  }

  lemma RecordStays(running: seq<Run>, i: nat, was: map<Key, int>, timeouts: map<Key, nat>, now: int,
                    before: map<Key, int>, after: map<Key, int>, seen: map<Run, Sight>, sights: map<Run, Sight>,
                    answers: nat -> Answer)
    requires i < |running| && DistinctKeys(running) && OthersKept(before, after, running[i].key)
    requires AllOnRecord(running, i, was, timeouts, now, before, seen, answers) && SightsGrow(seen, sights, now)
    requires Lookup(before, running[i].key) == Lookup(was, running[i].key)
    requires running[i].key in timeouts ==> running[i] in sights
    requires OnRecord(running[i], before, timeouts, now, after, answers(i))
    ensures AllOnRecord(running, i + 1, was, timeouts, now, after, sights, answers)
  {
    hide WindowStart;
  }

  lemma SweptAll(running: seq<Run>, was: map<Key, int>, timeouts: map<Key, nat>, now: int, stops: seq<Stop>,
      activity: map<Key, int>, sights: map<Run, Sight>, answers: nat -> Answer)
    requires Swept(running, |running|, was, timeouts, now, stops, activity, sights, answers)
    ensures forall key :: key in activity ==> exists k :: 0 <= k < |running| && running[k].key == key
    ensures RunsOf(stops) == Overdue(running, was, timeouts, now)
    ensures AllOnRecord(running, |running|, was, timeouts, now, activity, sights, answers)
  {
    assert running[..|running|] == running;
  }

  class Suspender {
    var activity: map<Key, int>
    var closed: bool
    var sweeping: bool
    var clock: int
    /** The last interaction with each task, whether or not its window is still on record. */
    ghost var touches: map<Key, int>
    /** When a sweep last found a task with no interaction on record. */
    ghost var unseen: map<Key, int>
    ghost var stops: seq<Stop>
    /** When a sweep first came upon each run. */
    ghost var sights: map<Run, Sight>
    /** How often something else happened while a sweep was at work: time passed, a request came, or the
        policies could not be read. */
    ghost var disturbances: nat

    ghost predicate Valid()
      reads this`clock, this`closed, this`activity, this`touches, this`unseen, this`sights, this`stops
    {
      Clocks() && Sighted() && Stopped()
    }

    /** A window on record is not older than what restarted it. */
    ghost predicate Clocks() reads this`clock, this`closed, this`activity, this`touches, this`unseen {
      && (forall key :: key in touches ==> touches[key] <= clock)
      && (forall key :: key in unseen ==> unseen[key] <= clock)
      && (forall key :: key in activity ==> activity[key] <= clock)
      && (!closed ==> forall key :: key in activity && key in touches ==> touches[key] <= activity[key])
      && (!closed ==> forall key :: key in activity && key in unseen ==> unseen[key] <= activity[key])
    }

    /** Windows only move forward from the first sight on. */
    ghost predicate Sighted() reads this`clock, this`activity, this`sights {
      forall run :: run in sights ==>
        && sights[run].since <= sights[run].at <= clock
        && (run.key in activity ==> sights[run].since <= activity[run.key])
    }

    ghost predicate Stopped() reads this`clock, this`sights, this`stops {
      forall s :: s in stops ==> Due(s) && s.at <= clock && s.run in sights && sights[s.run] == s.first
    }

    /** Every stop of a run whose window began when it was first seen kept the window since then. */
    lemma FirstSightIsKept(s: Stop)
      requires Valid() && s in stops && sights[s.run].since == sights[s.run].at
      ensures KeptSinceFirstSight(s)
    {
    }

    constructor (clock: int)
      ensures Valid() && stops == [] && !closed && !sweeping && sights == map[] && this.clock == clock
      ensures disturbances == 0
    {
      activity, closed, sweeping, this.clock := map[], false, false, clock;
      touches, unseen, stops, sights, disturbances := map[], map[], [], map[], 0;
    }

    method Now() returns (now: int)
      requires Valid()
      modifies this`clock, this`disturbances
      ensures Valid() && old(clock) <= clock == now
      ensures disturbances == old(disturbances) + if clock == old(clock) then 0 else 1
    {
      now :| clock <= now;
      disturbances := if clock < now then disturbances + 1 else disturbances;
      clock := now;
    }

    /** Time passes between two sweeps. */
    method Pass(to: int)
      requires Valid() && clock <= to
      modifies this`clock
      ensures Valid() && clock == to
    {
      clock := to;
    }

    /** One interaction with a task. A closed suspender takes no note. */
    method Touch(key: Key)
      requires Valid()
      modifies this`activity, this`clock, this`touches, this`disturbances
      ensures Valid() && old(clock) <= clock && old(disturbances) <= disturbances
      ensures disturbances == old(disturbances) ==> clock == old(clock)
      ensures closed ==> activity == old(activity)
      ensures !closed ==> activity == old(activity)[key := clock] && touches == old(touches)[key := clock]
    {
      if closed { return; }
      var at := Now();
      Mark(key);
    }

    method Mark(key: Key)
      requires Valid() && !closed
      modifies this`activity, this`touches
      ensures Valid() && activity == old(activity)[key := clock] && touches == old(touches)[key := clock]
    {
      hide Stopped, Due;
      activity, touches := activity[key := clock], touches[key := clock];
    }

    /** An interaction with a whole worktree touches each of its running tasks. */
    method TouchWorktree(running: seq<Key>)
      requires Valid()
      modifies this`activity, this`clock, this`touches, this`disturbances
      ensures Valid() && old(clock) <= clock && old(disturbances) <= disturbances
      ensures closed ==> activity == old(activity) && touches == old(touches)
      ensures !closed ==>
        activity == Marked(old(activity), running, clock) && touches == Marked(old(touches), running, clock)
    {
      hide Clocks, Sighted, Stopped, Due;
      assert running[..0] == [];
      if closed { return; }
      var at := Now();
      for i := 0 to |running|
        invariant Valid() && clock == at && old(disturbances) <= disturbances
        invariant activity == Marked(old(activity), running[..i], at)
        invariant touches == Marked(old(touches), running[..i], at)
      {
        assert running[..i + 1][..i] == running[..i];
        Mark(running[i]);
      }
      assert running[..|running|] == running;
    }

    method Close()
      requires Valid()
      modifies this`activity, this`closed
      ensures Valid() && closed && activity == map[]
    {
      closed, activity := true, map[];
    }

    /** While a sweep waits, anything may arrive. A task whose clock still shows an earlier moment was not
        interacted with meanwhile. */
    method Await(ghost key: Key, ghost since: int)
      requires Valid()
      modifies this`activity, this`clock, this`touches, this`closed, this`disturbances
      ensures Valid() && old(clock) <= clock && (old(closed) ==> closed) && old(disturbances) <= disturbances
      ensures !closed && since < old(clock) && Lookup(activity, key) == Some(since) ==>
        Lookup(touches, key) == Lookup(old(touches), key)
      ensures disturbances == old(disturbances) ==>
        activity == old(activity) && clock == old(clock) && touches == old(touches) && closed == old(closed)
    {
      var requests: nat := *;
      while requests > 0
        invariant Valid() && old(clock) <= clock && (old(closed) ==> closed) && old(disturbances) <= disturbances
        invariant !closed && since < old(clock) && Lookup(activity, key) == Some(since) ==>
          Lookup(touches, key) == Lookup(old(touches), key)
        invariant disturbances == old(disturbances) ==>
          activity == old(activity) && clock == old(clock) && touches == old(touches) && closed == old(closed)
      {
        requests := requests - 1;
        disturbances := disturbances + 1;
        if * {
          var touched: Key := *;
          Touch(touched);
        } else if * {
          var running: seq<Key> := *;
          ghost var before := touches;
          ghost var windows := activity;
          TouchWorktree(running);
          MarkedAt(before, running, clock, key);
          MarkedAt(windows, running, clock, key);
        } else if * {
          Close();
        } else {
          var now := Now();
        }
      }
    }

    /** The start of a run's window: the last interaction, but not one older than the run; or this moment, if
        there was none. */
    method Window(run: Run) returns (since: int)
      requires Valid() && (run.startedAt.Some? ==> run.startedAt.value <= clock)
      modifies this`activity, this`clock, this`unseen, this`sights, this`disturbances
      ensures Valid() && old(clock) <= clock && Lookup(activity, run.key) == Some(since)
      ensures disturbances == old(disturbances) + if clock == old(clock) then 0 else 1
      ensures run in sights
      ensures sights == old(sights)[run := if run in old(sights) then old(sights)[run] else Sight(clock, since)]
      ensures activity == old(activity)[run.key := since]
      ensures !closed && run.key in touches ==> touches[run.key] <= since
      ensures !closed && run.key in unseen ==> unseen[run.key] <= since
      ensures run.startedAt.Some? ==> run.startedAt.value <= since
      ensures since == WindowStart(Lookup(old(activity), run.key), run.startedAt, clock)
    {
      hide Stopped, Due;
      var key := run.key;
      var now := Now();
      var touched := Lookup(activity, key);
      since := WindowStart(touched, run.startedAt, now);
      if touched.None? {
        unseen := unseen[key := now];
      }
      activity := activity[key := since];
      See(run, since);
    }

    ghost method See(run: Run, since: int)
      requires Valid() && since <= clock && Lookup(activity, run.key) == Some(since)
      modifies this`sights
      ensures Valid()
      ensures run in sights
      ensures sights == old(sights)[run := if run in old(sights) then old(sights)[run] else Sight(clock, since)]
    {
      hide Due, Clocks;
      if run !in sights {
        sights := sights[run := Sight(clock, since)];
      }
    }

    /** Decides about one run. It is stopped only if the whole window passed without an interaction, and
        again after the note was written; and if nothing else happens meanwhile, exactly if it is due. */
    method SuspendIfIdle(run: Run, timeout: nat, answer: Answer) returns (stopped: bool, ghost stop: Option<Stop>)
      requires Valid() && 1 <= timeout && (run.startedAt.Some? ==> run.startedAt.value <= clock)
      modifies this`activity, this`clock, this`touches, this`closed, this`unseen, this`stops, this`sights
      modifies this`disturbances
      ensures Valid() && old(clock) <= clock && (old(closed) ==> closed) && old(disturbances) <= disturbances
      ensures stops == if stop.None? then old(stops) else old(stops) + [stop.value]
      ensures stop.Some? ==> stop.value.run == run && stop.value.timeout == timeout && stop.value.answer == answer
      ensures stopped <==> stop.Some? && answer == Answered(true)
      ensures stop.Some? ==> Lookup(activity, run.key) == if answer.Threw? then Some(clock) else None
      ensures disturbances == old(disturbances) && !old(closed) ==>
        && clock == old(clock)
        && (stop.Some? <==> clock - WindowStart(Lookup(old(activity), run.key), run.startedAt, clock) >= timeout)
        && (stop.Some? ==> stop.value.at == clock)
        && (stop.None? ==>
              Lookup(activity, run.key) == Some(WindowStart(Lookup(old(activity), run.key), run.startedAt, clock)))
      ensures run in sights
      ensures SightsGrow(old(sights), sights, old(clock))
      ensures disturbances == old(disturbances) && !old(closed) ==>
        !closed && OthersKept(old(activity), activity, run.key)
    {
      hide Clocks, Sighted, Stopped, Due, WindowStart;
      stopped, stop := false, None;
      var since := Window(run);
      var now := Now();
      if now - since < timeout { return; }
      var still: bool;
      still, stop := StillIdle(run, timeout, since, answer);
      if !still { return; }
      Await(run.key, since);
      if answer.Threw? {
        Retry(run.key);
        return;
      }
      Forget(run.key);
      stopped := answer.stopped;
    }

    /** After a failed stop a new window begins. */
    method Retry(key: Key)
      requires Valid()
      modifies this`activity, this`clock, this`disturbances
      ensures Valid() && old(clock) <= clock && old(disturbances) <= disturbances
      ensures disturbances == old(disturbances) ==> clock == old(clock)
      ensures activity == old(activity)[key := clock]
      ensures OthersKept(old(activity), activity, key)
    {
      hide Stopped, Due;
      var now := Now();
      activity := activity[key := now];
    }

    method Forget(key: Key)
      requires Valid()
      modifies this`activity
      ensures Valid() && activity == old(activity) - {key}
    {
      hide Stopped, Due;
      activity := activity - {key};
    }

    /** The note is written, and the decision checked again: if nothing happened meanwhile, the run is
        stopped now. */
    method StillIdle(run: Run, timeout: nat, since: int, ghost answer: Answer)
        returns (still: bool, ghost stop: Option<Stop>)
      requires Valid() && 1 <= timeout && clock - since >= timeout
      requires Lookup(activity, run.key) == Some(since) && run in sights
      requires !closed && run.key in touches ==> touches[run.key] <= since
      requires !closed && run.key in unseen ==> unseen[run.key] <= since
      requires run.startedAt.Some? ==> run.startedAt.value <= since
      modifies this`activity, this`clock, this`touches, this`closed, this`stops, this`disturbances
      ensures Valid() && old(clock) <= clock && (old(closed) ==> closed) && old(disturbances) <= disturbances
      ensures stops == if stop.None? then old(stops) else old(stops) + [stop.value]
      ensures still <==> stop.Some?
      ensures stop.Some? ==> stop.value.run == run && stop.value.timeout == timeout && stop.value.first == sights[run]
      ensures stop.Some? ==> stop.value.answer == answer
      ensures disturbances == old(disturbances) && !old(closed) ==>
        still && clock == old(clock) && stop.value.at == clock && !closed && activity == old(activity)
    {
      hide Clocks, Stopped, Sighted;
      stop := None;
      WindowNotBeforeSight(run, since);
      Await(run.key, since);
      still := !closed && Lookup(activity, run.key) == Some(since);
      if !still { return; }
      var now := Now();
      stop := Some(Stop(run, now, timeout, Lookup(touches, run.key), Lookup(unseen, run.key), sights[run],
                        answer));
      LogStop(stop.value);
    }

    lemma WindowNotBeforeSight(run: Run, since: int)
      requires Valid() && run in sights && Lookup(activity, run.key) == Some(since)
      ensures sights[run].since <= since && sights[run].since <= sights[run].at <= clock
    {
      hide Clocks, Stopped;
    }

    ghost method LogStop(stop: Stop)
      requires Valid() && Due(stop) && stop.at <= clock && stop.run in sights && sights[stop.run] == stop.first
      modifies this`stops
      ensures Valid() && stops == old(stops) + [stop]
    {
      hide Due;
      stops := stops + [stop];
    }

    /** Windows belong to running tasks. */
    method Prune(running: set<Key>)
      requires Valid()
      modifies this`activity
      ensures Valid() && activity == map key | key in old(activity) && key in running :: old(activity)[key]
    {
      activity := map key | key in activity && key in running :: activity[key];
    }

    /** One pass over the running tasks; `timeouts` are the policies as they are read, and `answers` what stopping each
        run is answered. It returns the runs that ended up STOPPED. */
    method Sweep(running: seq<Run>, timeouts: map<Key, nat>, answers: nat -> Answer) returns (suspended: seq<Run>)
      requires Valid() && forall key :: key in timeouts ==> 1 <= timeouts[key]
      requires forall run :: run in running && run.startedAt.Some? ==> run.startedAt.value <= clock
      modifies this
      ensures Valid() && old(stops) <= stops && old(disturbances) <= disturbances
      ensures old(closed) || old(sweeping) ==> suspended == [] && stops == old(stops)
      ensures suspended == StoppedRuns(stops[|old(stops)|..])
      ensures FromRuns(stops[|old(stops)|..], running, timeouts, answers) && forall s :: s in stops ==> Due(s)
      ensures sweeping == old(sweeping)
      // If nothing else happens, exactly the runs whose window is over are stopped, in order.
      ensures disturbances == old(disturbances) && !old(closed) && !old(sweeping) && DistinctKeys(running) ==>
        && RunsOf(stops[|old(stops)|..]) == Overdue(running, old(activity), timeouts, old(clock))
        && AllOnRecord(running, |running|, old(activity), timeouts, old(clock), activity, sights, answers)
        && (forall key :: key in activity ==> exists k :: 0 <= k < |running| && running[k].key == key)
      ensures old(clock) <= clock
      ensures disturbances == old(disturbances) ==> clock == old(clock) && closed == old(closed)
      ensures SightsGrow(old(sights), sights, old(clock))
    {
      hide Clocks, Sighted, Stopped, Due, WindowStart, RunsOf, Overdue, Progress, StoppedRuns, SightsGrow, FromRuns;
      hide AllOnRecord;
      suspended := [];
      StopsAreDue();
      NoStops(running, timeouts, answers);
      NoneStopped();
      SightsSame(sights, clock);
      assert stops[|stops|..] == [];
      if closed || sweeping { return; }
      ghost var begun := Begun(activity, clock, stops, sights, disturbances);
      sweeping := true;
      Prune(set run | run in running :: run.key);
      ProgressNone(begun, running, timeouts, answers);
      ghost var added: seq<Stop> := [];
      var i := 0;
      while i < |running|
        invariant 0 <= i <= |running| && Valid() && sweeping && old(clock) <= clock
        invariant Progress(begun, running, timeouts, answers, i, added) && suspended == StoppedRuns(added)
      {
        var stopped: bool;
        ghost var earlier := added;
        ghost var stop: Option<Stop>;
        stopped, stop := Step(begun, running, timeouts, answers, i, added);
        added := earlier + if stop.None? then [] else [stop.value];
        StoppedRunsMore(earlier, stop);
        if stopped {
          suspended := suspended + [running[i]];
        }
        i := i + 1;
      }
      ProgressAll(begun, running, timeouts, answers, added);
      assert stops[|begun.stops|..] == added;
      sweeping := false;
      StopsAreDue();
    }

    /** How far a sweep over these runs has got since it began. */
    ghost predicate Progress(b: Begun, running: seq<Run>, timeouts: map<Key, nat>, answers: nat -> Answer, i: nat,
        added: seq<Stop>)
      reads this`clock, this`closed, this`activity, this`sights, this`stops, this`disturbances
    {
      && b.at <= clock && b.disturbances <= disturbances
      && stops == b.stops + added && FromRuns(added, running, timeouts, answers) && SightsGrow(b.sights, sights, b.at)
      && (disturbances == b.disturbances ==>
            && !closed && clock == b.at
            && (DistinctKeys(running) ==>
                  Swept(running, i, b.activity, timeouts, b.at, added, activity, sights, answers)))
    }

    lemma ProgressNone(b: Begun, running: seq<Run>, timeouts: map<Key, nat>, answers: nat -> Answer)
      requires b.at == clock && b.stops == stops && b.sights == sights && b.disturbances == disturbances && !closed
      requires activity
        == map key | key in b.activity && key in (set run | run in running :: run.key) :: b.activity[key]
      ensures Progress(b, running, timeouts, answers, 0, [])
    {
      NoStops(running, timeouts, answers);
      hide Swept;
      SweptNone(running, b.activity, timeouts, clock, activity, sights, answers);
      assert b.stops + [] == b.stops;
    }

    lemma ProgressAll(b: Begun, running: seq<Run>, timeouts: map<Key, nat>, answers: nat -> Answer, added: seq<Stop>)
      requires Progress(b, running, timeouts, answers, |running|, added)
      ensures stops == b.stops + added
      ensures b.stops <= stops && b.disturbances <= disturbances && SightsGrow(b.sights, sights, b.at)
      ensures FromRuns(stops[|b.stops|..], running, timeouts, answers)
      ensures disturbances == b.disturbances ==> !closed && clock == b.at
      ensures disturbances == b.disturbances && DistinctKeys(running) ==>
        && RunsOf(stops[|b.stops|..]) == Overdue(running, b.activity, timeouts, b.at)
        && AllOnRecord(running, |running|, b.activity, timeouts, b.at, activity, sights, answers)
        && (forall key :: key in activity ==> exists k :: 0 <= k < |running| && running[k].key == key)
    {
      hide Swept, SightsGrow, FromRuns, AllOnRecord, DistinctKeys, RunsOf, Overdue;
      assert stops[|b.stops|..] == added;
      if disturbances == b.disturbances && DistinctKeys(running) {
        SweptAll(running, b.activity, timeouts, b.at, added, activity, sights, answers);
      }
    }

    method Step(ghost b: Begun, running: seq<Run>, timeouts: map<Key, nat>, answers: nat -> Answer, i: nat,
                ghost added: seq<Stop>)
        returns (stopped: bool, ghost stop: Option<Stop>)
      requires Valid() && i < |running| && Progress(b, running, timeouts, answers, i, added)
      requires forall key :: key in timeouts ==> 1 <= timeouts[key]
      requires running[i].startedAt.Some? ==> running[i].startedAt.value <= clock
      modifies this`activity, this`clock, this`touches, this`closed, this`unseen, this`stops, this`sights
      modifies this`disturbances
      ensures Valid() && old(clock) <= clock && (stopped <==> stop.Some? && stop.value.answer == Answered(true))
      ensures stop.Some? ==> stop.value.run == running[i]
      ensures Progress(b, running, timeouts, answers, i + 1, added + if stop.None? then [] else [stop.value])
    {
      hide Clocks, Sighted, Stopped, Due, WindowStart, Swept, RunsOf, Overdue, Lookup, DistinctKeys;
      hide IsOverdue, OnRecord, SightsGrow, OthersKept, FromRuns, AllOnRecord;
      ghost var windows, seen, began := activity, sights, clock;
      stopped, stop := Visit(running[i], timeouts, answers(i));
      ghost var more := added + if stop.None? then [] else [stop.value];
      OneStopMore(added, running, timeouts, answers, i, stop);
      assert stops == b.stops + more;
      SightsGrowFurther(b.sights, seen, sights, b.at, began);
      if disturbances == b.disturbances && DistinctKeys(running) {
        SweptOneMore(running, i, b.activity, timeouts, clock, added, stop, windows, activity, seen, sights, answers);
      }
    }

    lemma SightNotLater(run: Run)
      requires Valid() && run in sights
      ensures sights[run].at <= clock
    {
    }

    lemma StopsAreDue()
      requires Valid()
      ensures forall s :: s in stops ==> Due(s)
    {
    }

    /** The part of a sweep that concerns one run. */
    method Visit(run: Run, timeouts: map<Key, nat>, answer: Answer) returns (stopped: bool, ghost stop: Option<Stop>)
      requires Valid() && forall key :: key in timeouts ==> 1 <= timeouts[key]
      requires run.startedAt.Some? ==> run.startedAt.value <= clock
      modifies this`activity, this`clock, this`touches, this`closed, this`unseen, this`stops, this`sights
      modifies this`disturbances
      ensures Valid() && old(clock) <= clock && (old(closed) ==> closed) && old(disturbances) <= disturbances
      ensures stops == if stop.None? then old(stops) else old(stops) + [stop.value]
      ensures stop.Some? ==> stop.value.run == run && run.key in timeouts && stop.value.timeout == timeouts[run.key]
      ensures stop.Some? ==> stop.value.answer == answer
      ensures stopped <==> stop.Some? && answer == Answered(true)
      ensures disturbances == old(disturbances) && !old(closed) ==>
        && (stop.Some? <==> IsOverdue(run, old(activity), timeouts, old(clock)))
        && OnRecord(run, old(activity), timeouts, old(clock), activity, answer)
      ensures disturbances == old(disturbances) && run.key in timeouts ==> run in sights
      ensures SightsGrow(old(sights), sights, old(clock))
      ensures disturbances == old(disturbances) && !old(closed) ==>
        !closed && clock == old(clock) && OthersKept(old(activity), activity, run.key)
    {
      hide Clocks, Sighted, Stopped, Due, WindowStart;
      stopped, stop := false, None;
      var readable: bool := *;
      Await(run.key, 0);
      if readable && run.key in timeouts {
        stopped, stop := SuspendIfIdle(run, timeouts[run.key], answer);
      } else if !readable {
        disturbances := disturbances + 1;
      }
    }
  }

  /** Whatever the suspender and the policy: a run it has not seen, whose window on record began before now, is
      stopped before a whole window has passed since the first sight, if nothing else happens. At once, if that
      window is over already; otherwise by a second sweep, at the moment it is. */
  method EarlyStop(suspender: Suspender, run: Run, timeout: nat, answer: Answer)
      returns (suspended: seq<Run>, ghost disturbed: bool)
    requires suspender.Valid() && !suspender.closed && !suspender.sweeping && run !in suspender.sights
    requires run.startedAt.Some? ==> run.startedAt.value <= suspender.clock
    requires run.key in suspender.activity && 1 <= timeout
    requires WindowStart(Some(suspender.activity[run.key]), run.startedAt, suspender.clock) < suspender.clock
    modifies suspender
    ensures suspender.Valid() && old(suspender.stops) <= suspender.stops
    ensures disturbed <==> suspender.disturbances != old(suspender.disturbances)
    ensures !disturbed ==>
      && |suspender.stops| == |old(suspender.stops)| + 1
      && (var stop := suspender.stops[|old(suspender.stops)|];
          && stop.run == run && stop.timeout == timeout && stop.first.at == old(suspender.clock)
          && !KeptSinceFirstSight(stop))
  {
    hide Suspender.Clocks, Suspender.Sighted, WindowStart, SightsGrow, OnRecord, IsOverdue;
    var now := suspender.clock;
    var since := WindowStart(Some(suspender.activity[run.key]), run.startedAt, now);
    RecordedEarlier(suspender, run);
    suspended := SweepOne(suspender, run, timeout, answer);
    disturbed := suspender.disturbances != old(suspender.disturbances);
    if suspender.closed || suspender.sweeping || run.key !in suspender.activity { return; }
    if now - since >= timeout || suspender.clock > since + timeout { return; }
    SameWindow(run, old(suspender.activity[run.key]), now, since + timeout);
    suspender.Pass(since + timeout);
    suspended := SweepOne(suspender, run, timeout, answer);
    disturbed := suspender.disturbances != old(suspender.disturbances);
  }

  /** One sweep over one run with a window on record: undisturbed, it stops it exactly if that window is over, and
      otherwise leaves the window and the first sight on record. */
  method SweepOne(suspender: Suspender, run: Run, timeout: nat, answer: Answer) returns (suspended: seq<Run>)
    requires suspender.Valid() && !suspender.closed && !suspender.sweeping
    requires run.startedAt.Some? ==> run.startedAt.value <= suspender.clock
    requires run.key in suspender.activity && 1 <= timeout
    modifies suspender
    ensures suspender.Valid() && old(suspender.stops) <= suspender.stops
    ensures old(suspender.disturbances) <= suspender.disturbances
    ensures suspender.disturbances == old(suspender.disturbances) ==>
      var since := WindowStart(Some(old(suspender.activity[run.key])), run.startedAt, old(suspender.clock));
      && suspender.clock == old(suspender.clock) && !suspender.closed && !suspender.sweeping
      && run in suspender.sights
      && (run in old(suspender.sights) ==> suspender.sights[run] == old(suspender.sights)[run])
      && (run !in old(suspender.sights) ==> suspender.sights[run].at == suspender.clock)
      && (if suspender.clock - since >= timeout
          then
            && |suspender.stops| == |old(suspender.stops)| + 1
            && (var stop := suspender.stops[|old(suspender.stops)|];
                && stop.run == run && stop.timeout == timeout && stop.at <= suspender.clock
                && stop.first == suspender.sights[run])
          else
            && suspender.stops == old(suspender.stops)
            && run.key in suspender.activity && suspender.activity[run.key] == since)
  {
    hide Suspender.Clocks, Suspender.Sighted, WindowStart, FromRuns, Overdue, StoppedRuns, RunsOf;
    ghost var before := suspender.stops;
    var timeouts := map[run.key := timeout];
    OneRun(run, suspender.activity, timeouts, suspender.clock);
    suspended := suspender.Sweep([run], timeouts, i => answer);
    OneRunOnly(suspender.stops[|before|..], run, timeouts, i => answer);
    if suspender.disturbances == old(suspender.disturbances) {
      assert OnRecord([run][0], old(suspender.activity), timeouts, old(suspender.clock), suspender.activity, answer);
      suspender.SightNotLater(run);
      RunsOfLength(suspender.stops[|before|..]);
      if |suspender.stops| > |before| {
        OneStop(suspender.stops[|before|..], run);
        assert suspender.stops[|before|] in suspender.stops;
      }
    }
  }

  lemma OneRunOnly(stops: seq<Stop>, run: Run, timeouts: map<Key, nat>, answers: nat -> Answer)
    requires FromRuns(stops, [run], timeouts, answers)
    ensures forall s :: s in stops ==> s.run == run && run.key in timeouts && s.timeout == timeouts[run.key]
  {
    forall s | s in stops ensures s.run == run && run.key in timeouts && s.timeout == timeouts[run.key] {
      var i :| StopOf(s, [run], i, timeouts, answers);
    }
  }

  lemma OneRun(run: Run, activity: map<Key, int>, timeouts: map<Key, nat>, now: int)
    ensures Overdue([run], activity, timeouts, now) == if IsOverdue(run, activity, timeouts, now) then [run] else []
  {
    assert [run][..0] == [];
  }

  /** A window on record goes on as it is. */
  lemma SameWindow(run: Run, touched: int, now: int, later: int)
    requires touched <= now && (run.startedAt.Some? ==> run.startedAt.value <= now)
    ensures var since := WindowStart(Some(touched), run.startedAt, now);
      since <= now && WindowStart(Some(since), run.startedAt, later) == since
  {
  }

  lemma RecordedEarlier(suspender: Suspender, run: Run)
    requires suspender.Valid() && run.key in suspender.activity
    ensures suspender.activity[run.key] <= suspender.clock
  {
  }

  lemma OneStop(stops: seq<Stop>, run: Run)
    requires RunsOf(stops) == [run]
    ensures |stops| == 1 && stops[0].run == run
  {
    RunsOfLength(stops);
  }

  lemma {:induction false} RunsOfLength(stops: seq<Stop>)
    ensures |RunsOf(stops)| == |stops|
  {
    if stops != [] {
      RunsOfLength(stops[..|stops| - 1]);
    }
  }

  /** A task touched at 0 under a window of 50: first swept at 50 it is stopped at once; first swept at 10 it is
      stopped before 60. */
  method TouchedAtZero(key: Key, firstSweep: nat) returns (suspender: Suspender, ghost disturbed: bool)
    requires 1 <= firstSweep
    ensures fresh(suspender) && suspender.Valid()
    ensures !disturbed ==>
      && |suspender.stops| == 1 && suspender.stops[0].first.at == firstSweep && suspender.stops[0].timeout == 50
      && suspender.stops[0].at < firstSweep + 50
  {
    hide Suspender.Valid;
    suspender := new Suspender(0);
    suspender.Touch(key);
    disturbed := suspender.disturbances != 0;
    if suspender.clock > 0 { return; }
    suspender.Pass(firstSweep);
    var suspended;
    suspended, disturbed := EarlyStop(suspender, Run(0, key, None), 50, Answered(true));
  }
}
