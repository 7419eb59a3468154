/** The anchor's side of the log: publishing phase markers, rotating, and recovering after a crash.

    Every change of the directory is one call of a `LogDirectory` method. A `LogOperation` carries
    the temporaries prepared for one mutation and the number of steps the process still lives: when
    it reaches zero the next step fails with `Crashed` and nothing after it happens. */
module AnchorLog {
  import opened LogWorld
  import opened RotationSteps

  datatype LogError = InvalidGenerationMarker | AmbiguousRecovery
      | TemporaryLimit | PathLimit | LogClosed | WriteFailed | Crashed

  datatype Status = Ok | Failed(error: LogError) {
    predicate IsFailure() { Failed? }
    function PropagateFailure(): Status requires Failed? { this }
  }

  datatype Result<+T> = Success(value: T) | Failure(error: LogError)

  const MAX_OPERATION_PATHS := 128
  const MAX_RETAINED_LOG_FILES := 32

  ghost predicate WellFormed(d: Disk) {
    forall s :: s in d.names ==> d.names[s] in d.content
  }

  predicate EmptyAt(d: Disk, slot: nat)
    requires slot in d.names && d.names[slot] in d.content
  {
    d.content[d.names[slot]] == []
  }

  /** The directories recovery refuses to touch: those in which the published phase cannot have led
      to the files that are there. */
  ghost predicate Refused(d: Disk)
    requires WellFormed(d)
  {
    match d.marker
    case Malformed => true
    case Absent => false
    case Stable(g) => g > MAX_SAFE_INTEGER
    case Rotating(g, phase, _) =>
      || g >= MAX_SAFE_INTEGER
      || match phase
         case Marking => 0 !in d.names || EmptyAt(d, 0)
         case Closed => 0 !in d.names || EmptyAt(d, 0)
         case Shifted => if 0 in d.names && !EmptyAt(d, 0) then 1 in d.names else 1 !in d.names
         case Archived => 1 !in d.names
         case Opened => 0 !in d.names || 1 !in d.names
  }

  /** Nothing a crash leaves behind is refused. */
  lemma CrashesAreNotRefused(w: World, retained: nat)
    requires Valid(w, retained) && 1 <= retained
    ensures WellFormed(DiskOf(w)) && !Refused(DiskOf(w))
  {
  }

  class LogDirectory {
    const retained: nat
    var disk: Disk
    /** How the directory got here, one world per atomic step; empty when it cannot be explained. */
    ghost var history: seq<World>

    ghost predicate Valid()
      reads this
    {
      && 1 <= retained
      && WellFormed(disk)
      && (history != [] ==>
            && Run(history, retained)
            && LogWorld.Valid(Last(history), retained)
            && DiskOf(Last(history)) == disk)
    }

    ghost predicate Admits(next: World, d: Disk)
      requires Valid()
      reads this
    {
      history != [] ==> Steps(Last(history), next, d, retained)
    }

    /** The directory as a new process finds it. */
    constructor (retained: nat, disk: Disk, ghost past: seq<World>)
      requires 1 <= retained && WellFormed(disk)
      requires past != [] ==> Run(past, retained) && DiskOf(Last(past)) == disk
      ensures Valid() && this.retained == retained && this.disk == disk && history == past
    {
      this.retained := retained;
      this.disk := disk;
      this.history := past;
    }

    ghost method Record(next: World)
      requires 1 <= retained && WellFormed(disk)
      requires history != [] ==> Run(history, retained) && Steps(Last(history), next, disk, retained)
      modifies this`history
      ensures Valid() && history == Recorded(old(history), next)
    {
      if history != [] {
        RunExtends(history, next, retained);
        history := history + [next];
      }
    }

    method WriteMarker(m: Marker, ghost next: World)
      requires Valid() && Admits(next, disk.(marker := m))
      modifies this
      ensures Valid() && disk == old(disk).(marker := m) && history == Recorded(old(history), next)
    {
      disk := disk.(marker := m);
      Record(next);
    }

    method Rename(source: nat, target: nat, ghost next: World)
      requires Valid() && source in disk.names && Admits(next, Renamed(disk, source, target))
      modifies this
      ensures Valid() && disk == Renamed(old(disk), source, target) && history == Recorded(old(history), next)
    {
      disk := Renamed(disk, source, target);
      Record(next);
    }

    method Unlink(slot: nat, ghost next: World)
      requires Valid() && Admits(next, Unlinked(disk, slot))
      modifies this
      ensures Valid() && disk == Unlinked(old(disk), slot) && history == Recorded(old(history), next)
    {
      disk := Unlinked(disk, slot);
      Record(next);
    }

    method Create(inode: Inode, ghost next: World)
      requires Valid() && inode !in disk.content && Admits(next, Created(disk, 0, inode))
      modifies this
      ensures Valid() && disk == Created(old(disk), 0, inode) && history == Recorded(old(history), next)
    {
      disk := Created(disk, 0, inode);
      Record(next);
    }

    method Append(inode: Inode, bytes: Bytes, ghost next: World)
      requires Valid() && inode in disk.content && Admits(next, Extended(disk, inode, bytes))
      modifies this
      ensures Valid() && disk == Extended(old(disk), inode, bytes) && history == Recorded(old(history), next)
    {
      disk := Extended(disk, inode, bytes);
      Record(next);
    }
  }

  /** The file system always has an inode that never named anything in this directory. */
  lemma UnusedInode(content: map<Inode, Bytes>) returns (inode: Inode)
    ensures inode !in content
  {
    inode := Above(content.Keys);
  }

  lemma {:induction false} Above(keys: set<Inode>) returns (bound: Inode)
    ensures forall k :: k in keys ==> k < bound
  {
    if keys == {} {
      bound := 0;
    } else {
      var k :| k in keys;
      var rest := Above(keys - {k});
      assert forall j :: j in keys ==> j == k || j in keys - {k};
      bound := if k < rest then rest else k + 1;
    }
  }

  /** One mutation of the directory: the empty temporaries created for it, and how many atomic steps
      the process still performs before it dies. */
  class LogOperation {
    const dir: LogDirectory
    var unused: nat
    var steps: nat

    constructor (dir: LogDirectory, temporaries: nat, steps: nat)
      ensures this.dir == dir && unused == temporaries && this.steps == steps
    {
      this.dir := dir;
      this.unused := temporaries;
      this.steps := steps;
    }

    /** Publishes a marker; the temporary carrying it is renamed over the old one. */
    method Publish(m: Marker, ghost past: seq<World>) returns (s: Status)
      requires dir.Valid()
      requires dir.history != [] ==> MayPublish(Last(dir.history), m, dir.retained)
      requires Begins(dir.disk.marker, m) || Keeps(past, dir.history, dir.retained)
      modifies this, dir
      ensures dir.Valid()
      ensures s == if old(unused) == 0 then Failed(TemporaryLimit) else if old(steps) == 0 then Failed(Crashed) else Ok
      ensures s.Ok? ==>
        && unused == old(unused) - 1 && steps == old(steps) - 1
        && dir.disk == old(dir.disk).(marker := m)
        && (if old(dir.history) == [] then dir.history == []
            else dir.history == old(dir.history) + [Published(Last(old(dir.history)), m)])
      ensures s.Failed? ==> unchanged(dir) && unchanged(this)
      ensures Begins(old(dir.disk).marker, m) || Keeps(past, dir.history, dir.retained)
    {
      hide LogWorld.Evolves, LogWorld.Valid, RotationSteps.OutcomeOf, RotationSteps.MayPublish;
      if unused == 0 { return Failed(TemporaryLimit); }
      if steps == 0 { return Failed(Crashed); }
      ghost var next := Nowhere;
      if dir.history != [] {
        PublishSound(Last(dir.history), m, dir.retained);
        next := Published(Last(dir.history), m);
        PublishedSameStream(Last(dir.history), m, dir.retained);
      }
      if !Begins(dir.disk.marker, m) {
        KeepsStep(past, dir.history, next, dir.retained);
      }
      dir.WriteMarker(m, next);
      unused, steps := unused - 1, steps - 1;
      s := Ok;
    }

    /** Renames the segment in slot `source` to the next higher number. */
    method Move(source: nat, ghost past: seq<World>) returns (s: Status)
      requires dir.Valid() && source in dir.disk.names && Keeps(past, dir.history, dir.retained)
      requires dir.history != [] ==> MayShift(Last(dir.history), dir.retained) && Last(dir.history).gap == source
      modifies this, dir
      ensures dir.Valid() && unused == old(unused)
      ensures s == if old(steps) == 0 then Failed(Crashed) else Ok
      ensures s.Ok? ==>
        && steps == old(steps) - 1
        && dir.disk == Renamed(old(dir.disk), source, source + 1)
        && (old(dir.history) != [] ==> dir.history != [] && Last(dir.history) == ShiftedUp(Last(old(dir.history))))
      ensures s.Failed? ==> unchanged(dir) && unchanged(this)
      ensures Keeps(past, dir.history, dir.retained)
      ensures old(dir.history) == [] <==> dir.history == []
    {
      hide LogWorld.Evolves, LogWorld.Valid, RotationSteps.OutcomeOf, LogWorld.Run;
      if steps == 0 { return Failed(Crashed); }
      ghost var next := Nowhere;
      if dir.history != [] {
        ShiftIntoGap(Last(dir.history), dir.retained);
        next := ShiftedUp(Last(dir.history));
      }
      KeepsStep(past, dir.history, next, dir.retained);
      dir.Rename(source, source + 1, next);
      steps := steps - 1;
      s := Ok;
    }

    method Remove(slot: nat, ghost past: seq<World>) returns (s: Status)
      requires dir.Valid() && Keeps(past, dir.history, dir.retained)
      requires dir.history != [] && slot in dir.disk.names ==>
        MayRemove(Last(dir.history), dir.retained) && slot == dir.retained
      modifies this, dir
      ensures dir.Valid() && unused == old(unused)
      ensures s == if slot in old(dir.disk).names && old(steps) == 0 then Failed(Crashed) else Ok
      ensures s.Ok? && slot in old(dir.disk).names ==>
        && steps == old(steps) - 1
        && dir.disk == Unlinked(old(dir.disk), slot)
        && (old(dir.history) != [] ==>
              dir.history != [] && Last(dir.history) == WithoutOldest(Last(old(dir.history)), dir.retained))
      ensures s.Failed? || slot !in old(dir.disk).names ==> unchanged(dir) && unchanged(this)
      ensures Keeps(past, dir.history, dir.retained)
      ensures old(dir.history) == [] <==> dir.history == []
    {
      if slot !in dir.disk.names { return Ok; }
      if steps == 0 { return Failed(Crashed); }
      ghost var next := Nowhere;
      if dir.history != [] {
        RemoveOldest(Last(dir.history), dir.retained);
        next := WithoutOldest(Last(dir.history), dir.retained);
      }
      KeepsStep(past, dir.history, next, dir.retained);
      dir.Unlink(slot, next);
      steps := steps - 1;
      s := Ok;
    }

    /** Opens the current log for appending, creating it from a temporary when it is missing. */
    method OpenCurrent(ghost past: seq<World>) returns (s: Status, inode: Inode)
      requires dir.Valid() && Keeps(past, dir.history, dir.retained)
      requires dir.history != [] && 0 !in dir.disk.names ==> MayCreate(Last(dir.history))
      modifies this, dir
      ensures dir.Valid()
      ensures s == if 0 in old(dir.disk).names then Ok
                   else if old(unused) == 0 then Failed(TemporaryLimit)
                   else if old(steps) == 0 then Failed(Crashed) else Ok
      ensures s.Failed? || 0 in old(dir.disk).names ==> unchanged(dir) && unchanged(this)
      ensures s.Ok? && 0 !in old(dir.disk).names ==>
        && unused == old(unused) - 1 && steps == old(steps) - 1
        && inode !in old(dir.disk).content
        && dir.disk == Created(old(dir.disk), 0, inode)
        && (old(dir.history) != [] ==>
              dir.history != [] && Last(dir.history) == WithCurrent(Last(old(dir.history)), inode))
      ensures s.Ok? ==> 0 in dir.disk.names && dir.disk.names[0] == inode
      ensures Keeps(past, dir.history, dir.retained)
      ensures old(dir.history) == [] <==> dir.history == []
    {
      inode := 0;
      if 0 in dir.disk.names { return Ok, dir.disk.names[0]; }
      if unused == 0 { return Failed(TemporaryLimit), inode; }
      if steps == 0 { return Failed(Crashed), inode; }
      ghost var witnessed := UnusedInode(dir.disk.content);
      inode :| inode !in dir.disk.content;
      ghost var next := Nowhere;
      if dir.history != [] {
        CreateCurrent(Last(dir.history), inode, dir.retained);
        next := WithCurrent(Last(dir.history), inode);
      }
      KeepsStep(past, dir.history, next, dir.retained);
      dir.Create(inode, next);
      unused, steps := unused - 1, steps - 1;
      s := Ok;
    }
  }

  /** Publishing m over `before` opens a rotation, which is the one step that changes what the
      directory is committed to. */
  predicate Begins(before: Marker, m: Marker) {
    before.Stable? && m.Rotating?
  }

  ghost const Nowhere := World(Absent, [], 0, 0, -1, false, map[])
}
