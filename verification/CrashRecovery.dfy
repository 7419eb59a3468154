/** The crash theorem, on plain disks: a rotation killed after any number of its atomic steps, then
    recoveries killed after any number of theirs, then one that is left alone. */
module CrashRecovery {
  import opened Wrappers
  import opened LogWorld
  import opened RotationSteps
  import opened AnchorLog
  import opened RotatingLogs
  import LogPaths

  /** A steady directory: numeric marker, a current log with something in it, archives exactly
      `.1`..`.archives`, every name a file of its own. */
  ghost predicate Steady(d: Disk, archives: nat, retained: nat) {
    && 1 <= retained && archives <= retained
    && d.marker.Stable? && d.marker.generation < MAX_SAFE_INTEGER
    && (forall s: nat :: s in d.names <==> s <= archives)
    && (forall s: nat :: s <= archives ==> d.names[s] in d.content)
    && (forall s: nat, t: nat :: s < t <= archives ==> d.names[s] != d.names[t])
    && d.content[d.names[0]] != []
  }

  ghost function Explanation(d: Disk, archives: nat, retained: nat): World
    requires Steady(d, archives, retained)
  {
    var lineage := seq(archives + 1, i requires 0 <= i <= archives => d.names[archives - i]);
    World(d.marker, lineage, d.marker.generation - archives, archives + 1, archives, false, d.content)
  }

  /** Any steady directory can be explained, whatever its generation number and however it arose. */
  lemma SteadyIsExplained(d: Disk, archives: nat, retained: nat)
    requires Steady(d, archives, retained)
    ensures Valid(Explanation(d, archives, retained), retained)
    ensures DiskOf(Explanation(d, archives, retained)) == d
  {
    hide LogWorld.Names, LogWorld.Valid, Steady;
    ExplanationShape(d, archives, retained);
    ExplanationNames(d, archives, retained);
    ExplanationValid(d, archives, retained);
  }

  lemma ExplanationValid(d: Disk, archives: nat, retained: nat)
    requires Steady(d, archives, retained) && Shape(Explanation(d, archives, retained))
    ensures Valid(Explanation(d, archives, retained), retained)
  {
    hide LogWorld.Shape;
  }

  lemma ExplanationNames(d: Disk, archives: nat, retained: nat)
    requires Steady(d, archives, retained) && Shape(Explanation(d, archives, retained))
    ensures Names(Explanation(d, archives, retained)) == d.names
  {
  }

  lemma ExplanationShape(d: Disk, archives: nat, retained: nat)
    requires Steady(d, archives, retained)
    ensures Shape(Explanation(d, archives, retained))
  {
  }

  lemma SteadyHasCurrent(d: Disk, archives: nat, retained: nat)
    requires Steady(d, archives, retained)
    ensures 1 <= retained && d.marker.Stable? && 0 in d.names && d.names[0] in d.content && d.content[d.names[0]] != []
    ensures forall slot :: slot in d.names ==> d.names[slot] in d.content
  {
  }

  lemma SteadyKeepsArchives(w: World, d: Disk, archives: nat, retained: nat)
    requires Valid(w, retained) && DiskOf(w) == d && Steady(d, archives, retained)
    ensures w.kept == archives + 1
  {
    assert archives in Names(w) && archives + 1 !in Names(w);
    assert w.kept - 1 in Names(w) && w.kept !in Names(w);
  }

  lemma OneWorldRun(w: World, retained: nat)
    requires Valid(w, retained)
    ensures Run([w], retained) && Last([w]) == w && Keeps([w], [w], retained)
  {
  }

  /** Either the rotation has not begun and the disk is as it was, or everything since is committed to
      the rotated state. */
  ghost predicate Progress(base: seq<World>, now: seq<World>, disk: Disk, begun: bool, retained: nat) {
    if begun then Rotates(base, now, retained)
    else Keeps(base, now, retained) && now != [] && DiskOfLast(now, retained) == Some(disk)
  }

  ghost function DiskOfLast(h: seq<World>, retained: nat): Option<Disk>
    requires h != []
  {
    if Valid(Last(h), retained) then Some(DiskOf(Last(h))) else None
  }

  lemma ProgressContinues(base: seq<World>, mid: seq<World>, now: seq<World>, disk: Disk, begun: bool, retained: nat)
    requires Progress(base, mid, disk, begun, retained) && Keeps(mid, now, retained) && now != []
    requires !begun ==> DiskOfLast(now, retained) == Some(disk)
    ensures Progress(base, now, disk, begun, retained)
  {
  }

  /** What the daemon does before it starts an anchor: it opens the current log, creating it empty if
      the crash left none (`ManagedLogStore.prepare`). */
  method PrepareByDaemon(dir: LogDirectory, ghost base: seq<World>, ghost disk: Disk, ghost begun: bool)
    requires dir.Valid() && dir.history != [] && disk.marker.Stable? && 0 in disk.names
    requires Progress(base, dir.history, disk, begun, dir.retained)
    modifies dir
    ensures dir.Valid() && dir.history != [] && 0 in dir.disk.names
    ensures Progress(base, dir.history, disk, begun, dir.retained)
    ensures 0 in old(dir.disk).names ==> dir.disk == old(dir.disk)
    ensures 0 !in old(dir.disk).names ==>
      && dir.disk.names.Keys == old(dir.disk).names.Keys + {0} && dir.disk.marker == old(dir.disk).marker
      && dir.disk.names[0] !in old(dir.disk).content
      && dir.disk == Created(old(dir.disk), 0, dir.disk.names[0])
  {
    hide LogWorld.Run, LogWorld.Evolves, LogWorld.Distinct, LogWorld.Span, RotationSteps.Keeps, Rotates;
    if 0 !in dir.disk.names {
      ghost var before := dir.history;
      assert begun;
      ghost var w := Last(before);
      CurrentMissing(w, dir.retained);
      ghost var witnessed := UnusedInode(dir.disk.content);
      var inode: Inode :| inode !in dir.disk.content;
      CreateCurrent(w, inode, dir.retained);
      KeepsReflexive(before, dir.retained);
      KeepsStep(before, before, WithCurrent(w, inode), dir.retained);
      dir.Create(inode, WithCurrent(w, inode));
      ProgressContinues(base, before, dir.history, disk, begun, dir.retained);
    }
  }

  lemma CurrentMissing(w: World, retained: nat)
    requires Valid(w, retained) && 0 !in Names(w)
    ensures MayCreate(w)
  {
  }

  /** One life of a recovering anchor, started by the daemon or found by it. */
  method RecoverOnce(dir: LogDirectory, rotationBytes: nat, life: nat, ghost base: seq<World>, ghost disk: Disk,
      ghost begun: bool)
      returns (s: Status)
    requires dir.Valid() && dir.history != [] && 1 <= rotationBytes
    requires disk.marker.Stable? && 0 in disk.names
    requires Progress(base, dir.history, disk, begun, dir.retained)
    modifies dir
    ensures dir.Valid() && dir.history != []
    ensures Progress(base, dir.history, disk, begun, dir.retained)
    ensures life >= dir.retained + 6 ==> dir.disk.marker.Stable?
  {
    hide LogWorld.Run, LogWorld.Evolves, LogWorld.Distinct, LogWorld.Names, RotationSteps.Keeps;
    hide RotationSteps.OutcomeOf, Rotates;
    if * {
      PrepareByDaemon(dir, base, disk, begun);
    }
    ghost var before := dir.history;
    CrashesAreNotRefused(Last(before), dir.retained);
    var log := new RotatingLog(dir, rotationBytes);
    var op := new LogOperation(dir, 7, life);
    s := log.Initialize(op);
    KeepsNonempty(before, dir.history, dir.retained);
    ProgressContinues(base, before, dir.history, disk, begun, dir.retained);
  }

  lemma KeepsNonempty(past: seq<World>, now: seq<World>, retained: nat)
    requires Keeps(past, now, retained) && past != []
    ensures now != []
  {
  }

  /** An anchor that starts over a steady directory changes nothing and is ready to rotate. */
  method OpenSteady(retained: nat, disk: Disk, ghost archives: nat, rotationBytes: nat)
      returns (dir: LogDirectory, log: RotatingLog)
    requires Steady(disk, archives, retained) && 1 <= rotationBytes
    ensures fresh(dir) && fresh(log) && log.dir == dir && dir.retained == retained && log.Writable()
    ensures dir.disk == disk && dir.history != [] && log.size > 0 && log.generation == disk.marker.generation
  {
    hide LogWorld.Run, LogWorld.Evolves, LogWorld.Valid, LogWorld.Shape, LogWorld.Names, LogWorld.DiskOf;
    hide RotationSteps.Keeps, RotationSteps.OutcomeOf, Rotates, Steady, Refused;
    ghost var w := Explanation(disk, archives, retained);
    SteadyIsExplained(disk, archives, retained);
    SteadyHasCurrent(disk, archives, retained);
    OneWorldRun(w, retained);
    dir := new LogDirectory(retained, disk, [w]);
    log := new RotatingLog(dir, rotationBytes);
    var op := new LogOperation(dir, 14, retained + 6);
    CrashesAreNotRefused(w, retained);
    var s := log.Initialize(op);
    KeepsNonempty([w], dir.history, retained);
  }

  /** An anchor opens a steady log and starts one rotation, dying after `life` steps of it. */
  method RotateOnce(retained: nat, disk: Disk, ghost archives: nat, rotationBytes: nat, transaction: nat, life: nat)
      returns (dir: LogDirectory, ghost base: seq<World>)
    requires Steady(disk, archives, retained) && 1 <= rotationBytes
    ensures fresh(dir) && dir.Valid() && dir.retained == retained && dir.history != []
    ensures Progress(base, dir.history, disk, life > 0, retained)
    ensures base != [] && Valid(Last(base), retained) && DiskOf(Last(base)) == disk && Last(base).kept == archives + 1
  {
    hide LogWorld.Run, LogWorld.Evolves, LogWorld.Shape, LogWorld.Names, RotationSteps.Keeps, RotationSteps.OutcomeOf;
    hide Rotates;
    var log: RotatingLog;
    dir, log := OpenSteady(retained, disk, archives, rotationBytes);
    base := dir.history;
    SteadyKeepsArchives(Last(base), disk, archives, retained);
    KeepsReflexive(base, retained);
    var op := new LogOperation(dir, 7, life);
    var s := log.Rotate(op, transaction);
  }

  /** A rotation that dies after `life` steps, followed by one recovery for each entry of `lives` that
      dies after that many steps (or completes, if it needs fewer), followed by a full recovery. Only a
      process that dies before its first step leaves the rotation undone. */
  method RotateThroughCrashes(retained: nat, disk: Disk, ghost archives: nat, rotationBytes: nat, transaction: nat,
      life: nat, lives: seq<nat>)
      returns (after: Disk)
    requires Steady(disk, archives, retained) && 1 <= rotationBytes
    ensures life == 0 ==> after == disk
    ensures life > 0 ==> FullyRotated(disk, after, archives, retained)
  {
    hide LogWorld.Run, LogWorld.Evolves, LogWorld.Distinct, LogWorld.Names, RotationSteps.Keeps;
    hide RotationSteps.OutcomeOf, FullyRotated;
    var dir: LogDirectory;
    ghost var base: seq<World>;
    dir, base := RotateOnce(retained, disk, archives, rotationBytes, transaction, life);
    ghost var begun := life > 0;
    var next := 0;
    while next < |lives|
      invariant dir.Valid() && dir.history != []
      invariant Progress(base, dir.history, disk, begun, retained)
    {
      var _ := RecoverOnce(dir, rotationBytes, lives[next], base, disk, begun);
      next := next + 1;
    }
    var _ := RecoverOnce(dir, rotationBytes, retained + 6, base, disk, begun);
    after := dir.disk;
    if begun {
      SettledIsFullyRotated(base, dir.history, retained);
    }
  }

  // ----- temporaries and paths ----------------------------------------------------------------------

  /** Opening both streams of a task in one mutation: its paths and fourteen temporaries are registered, then
      both logs are initialized. It exceeds the path limit exactly from 54 retained files on, where the policy
      admits 32, and never runs out of temporaries; whatever else fails is a crash, or a directory that
      recovery refuses. */
  method OpenStreams(stdout: RotatingLog, stderr: RotatingLog, worktree: string, task: string, steps: nat,
      moreSteps: nat)
      returns (s: Status)
    requires stdout != stderr && stdout.dir != stderr.dir && stdout.dir.retained == stderr.dir.retained
    requires stdout.dir.Valid() && stderr.dir.Valid() && 1 <= stdout.rotationBytes && 1 <= stderr.rotationBytes
    modifies stdout, stderr, stdout.dir, stderr.dir
    ensures s.Ok? ==> stdout.Writable() && stderr.Writable()
    ensures s == Failed(PathLimit) <==> stdout.dir.retained > 53
    ensures s.Failed? ==> s.error in {PathLimit, Crashed, InvalidGenerationMarker, AmbiguousRecovery}
    ensures s.Failed? && s.error !in {PathLimit, Crashed} ==>
      Refused(old(stdout.dir.disk)) || Refused(old(stderr.dir.disk))
    ensures s.Failed? && s.error == Crashed ==> steps < stdout.dir.retained + 6 || moreSteps < stderr.dir.retained + 6
  {
    hide LogWorld.Run, RotationSteps.Keeps, LogWorld.Valid, LogWorld.Names, LogPaths.Count;
    var directory, retained := [worktree, task], stdout.dir.retained;
    LogPaths.LimitIsReachedAt54(directory, retained);
    var registry := new LogPaths.Registry();
    var targets := LogPaths.Targets(directory, LogPaths.Stdout, retained);
    :- registry.Register(targets + LogPaths.Targets(directory, LogPaths.Stderr, retained), 14);
    var op := new LogOperation(stdout.dir, 14, steps);
    :- stdout.Initialize(op);
    op := new LogOperation(stderr.dir, op.unused, moreSteps);
    s := stderr.Initialize(op);
  }
}
