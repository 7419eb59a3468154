/** The rotating writer itself: `initialize` with its crash recovery, `rotate`, and `_write`. */
module RotatingLogs {
  import opened Wrappers
  import opened LogWorld
  import opened RotationSteps
  import opened AnchorLog

  /** The archives of a shifting directory: slots 1..gap are taken and slot gap + 1 is free. */
  lemma LeadingRun(w: World, d: Disk, retained: nat)
    requires Valid(w, retained) && w.marker.Rotating? && w.marker.phase in {Marking, Closed}
    requires 1 <= retained && d == DiskOf(w)
    ensures GapAbove(d, w.gap)
    ensures if w.gap == retained then MayRemove(w, retained) else w.kept <= retained
    ensures 0 <= w.gap <= retained
  {
  }

  /** How the files present tell what a rotating directory has been through. */
  lemma FilesTellProgress(w: World, retained: nat)
    requires Valid(w, retained) && w.marker.Rotating?
    ensures 0 in Names(w) <==> 0 <= w.gap || w.successor
    ensures w.gap == -1 ==> 1 in Names(w)
    ensures w.gap == 0 ==> 1 !in Names(w)
    ensures 0 in Names(w) ==> (w.content[Names(w)[0]] == [] <==> w.successor)
    ensures w.marker.phase == Shifted ==> w.kept <= retained && w.gap <= 0
    ensures w.marker.phase in {Archived, Opened} ==> w.gap == -1 && w.kept <= retained
    ensures 0 <= w.gap ==> (forall n: nat :: n <= w.gap ==> n in Names(w)) && w.gap + 1 !in Names(w)
  {
  }

  /** However the directory got there: the files alone determine how far the shift has got, how many logs are
      linked and whether the next log exists. */
  lemma FilesDetermineProgress(a: World, b: World, retained: nat)
    requires Valid(a, retained) && Valid(b, retained) && a.marker.Rotating? && DiskOf(a) == DiskOf(b)
    ensures a.gap == b.gap && a.kept == b.kept && a.successor == b.successor
  {
    hide LogWorld.Distinct;
    FilesTellProgress(a, retained);
    FilesTellProgress(b, retained);
    assert 0 <= b.gap ==> !(b.gap + 1 <= a.gap);
    assert 0 <= a.gap ==> !(a.gap + 1 <= b.gap);
    HighestName(a);
    HighestName(b);
  }

  /** The highest number in use. */
  lemma HighestName(w: World)
    requires Shape(w) && w.marker.Rotating? && 1 <= w.kept
    ensures forall n: nat :: n in Names(w) ==> n <= if w.gap == w.kept - 1 then w.gap else w.kept
    ensures (if w.gap == w.kept - 1 then w.gap else w.kept) in Names(w)
  {
  }

  /** Numbers 1..n are taken and n + 1 is free. */
  ghost predicate GapAbove(d: Disk, n: nat) {
    (forall i: nat :: 1 <= i <= n ==> i in d.names) && n + 1 !in d.names
  }

  ghost predicate SameCurrent(a: Disk, b: Disk) {
    (0 in a.names <==> 0 in b.names) && (0 in a.names ==> a.names[0] == b.names[0])
  }

  /** The marker cannot be read, or leaves no safe generation to go on to. */
  predicate NoGenerationLeft(m: Marker) {
    m.Malformed? || MAX_SAFE_INTEGER < MarkerGeneration(m) || (m.Rotating? && m.generation == MAX_SAFE_INTEGER)
  }

  class RotatingLog {
    const dir: LogDirectory
    const rotationBytes: nat
    var fd: Option<Inode>
    var size: nat
    var generation: nat

    constructor (dir: LogDirectory, rotationBytes: nat)
      ensures this.dir == dir && this.rotationBytes == rotationBytes && fd == None
    {
      this.dir := dir;
      this.rotationBytes := rotationBytes;
      fd, size, generation := None, 0, 0;
    }

    /** The lowest archive number that names no file, or retained + 1 when all do. */
    method FirstMissing() returns (number: nat)
      ensures 1 <= number <= dir.retained + 1
      ensures forall i: nat :: 1 <= i < number ==> i in dir.disk.names
      ensures number <= dir.retained ==> number !in dir.disk.names
    {
      number := 1;
      while number <= dir.retained && number in dir.disk.names
        invariant 1 <= number <= dir.retained + 1
        invariant forall i: nat :: 1 <= i < number ==> i in dir.disk.names
      {
        number := number + 1;
      }
    }

    /** The shifting part of recovery: closes the first gap among the archives, making room at `.1`. */
    method ShiftLeadingRun(op: LogOperation, ghost past: seq<World>) returns (s: Status)
      requires op.dir == dir && dir.Valid() && Keeps(past, dir.history, dir.retained)
      requires dir.disk.marker.Rotating? && dir.disk.marker.phase in {Marking, Closed}
      modifies op, dir
      ensures dir.Valid() && op.unused == old(op.unused)
      ensures dir.disk.marker == old(dir.disk.marker) && dir.disk.content == old(dir.disk.content)
      ensures s.Failed? ==> s.error == Crashed && old(op.steps) <= dir.retained
      ensures s.Ok? ==>
        && op.steps + dir.retained >= old(op.steps)
        && 1 !in dir.disk.names && SameCurrent(old(dir.disk), dir.disk)
      ensures Keeps(past, dir.history, dir.retained)
      ensures s.Ok? && dir.history != [] ==> Last(dir.history).gap == 0 && Last(dir.history).kept <= dir.retained
    {
      hide LogWorld.Run, LogWorld.Valid, LogWorld.Shape, LogWorld.Names, RotationSteps.MayRemove, RotationSteps.Keeps;
      var retained := dir.retained;
      var suffix: nat;
      s, suffix := ChooseShift(op, past);
      if s.Failed? { return; }
      while suffix >= 1
        invariant dir.Valid() && op.unused == old(op.unused) && Keeps(past, dir.history, retained)
        invariant dir.disk.marker == old(dir.disk.marker) && dir.disk.content == old(dir.disk.content)
        invariant suffix < retained && op.steps + retained >= old(op.steps) + suffix
        invariant GapAbove(dir.disk, suffix) && SameCurrent(old(dir.disk), dir.disk)
        invariant dir.history != [] ==> Last(dir.history).gap == suffix && Last(dir.history).kept <= retained
      {
        if suffix in dir.disk.names {
          if suffix + 1 in dir.disk.names { return Failed(AmbiguousRecovery); }
          :- MoveArchive(op, suffix, past);
        }
        suffix := suffix - 1;
      }
      s := Ok;
    }

    /** Picks the highest archive to move. When every number is taken the oldest archive goes. */
    method ChooseShift(op: LogOperation, ghost past: seq<World>) returns (s: Status, suffix: nat)
      requires op.dir == dir && dir.Valid() && Keeps(past, dir.history, dir.retained)
      requires dir.disk.marker.Rotating? && dir.disk.marker.phase in {Marking, Closed}
      modifies op, dir
      ensures dir.Valid() && op.unused == old(op.unused) && Keeps(past, dir.history, dir.retained)
      ensures dir.disk.marker == old(dir.disk.marker) && dir.disk.content == old(dir.disk.content)
      ensures s.Failed? ==> s.error == Crashed && old(op.steps) == 0
      ensures s.Ok? ==>
        && suffix < dir.retained && op.steps + dir.retained >= old(op.steps) + suffix
        && GapAbove(dir.disk, suffix) && SameCurrent(old(dir.disk), dir.disk)
      ensures s.Ok? && dir.history != [] ==> Last(dir.history).gap == suffix && Last(dir.history).kept <= dir.retained
    {
      hide LogWorld.Run, LogWorld.Valid, LogWorld.Shape, LogWorld.Names, RotationSteps.MayRemove, RotationSteps.Keeps;
      var retained := dir.retained;
      s := Ok;
      if dir.history != [] {
        assert Last(dir.history).marker == dir.disk.marker;
        LeadingRun(Last(dir.history), dir.disk, retained);
      }
      var firstMissing := FirstMissing();
      var full := firstMissing > retained;
      suffix := if full then retained - 1 else firstMissing - 1;
      if full {
        s := op.Remove(retained, past);
      }
    }

    /** One iteration of that loop: archive `.suffix` takes the free number above it. */
    method MoveArchive(op: LogOperation, suffix: nat, ghost past: seq<World>) returns (s: Status)
      requires op.dir == dir && dir.Valid() && Keeps(past, dir.history, dir.retained)
      requires dir.disk.marker.Rotating? && dir.disk.marker.phase in {Marking, Closed}
      requires 1 <= suffix && GapAbove(dir.disk, suffix)
      requires dir.history != [] ==> Last(dir.history).gap == suffix && Last(dir.history).kept <= dir.retained
      modifies op, dir
      ensures dir.Valid() && op.unused == old(op.unused) && Keeps(past, dir.history, dir.retained)
      ensures dir.disk.marker == old(dir.disk.marker) && dir.disk.content == old(dir.disk.content)
      ensures s == if old(op.steps) == 0 then Failed(Crashed) else Ok
      ensures s.Ok? ==>
        && op.steps == old(op.steps) - 1
        && GapAbove(dir.disk, suffix - 1) && SameCurrent(old(dir.disk), dir.disk)
      ensures s.Ok? && dir.history != [] ==>
        old(dir.history) != [] && Last(dir.history) == ShiftedUp(Last(old(dir.history)))
    {
      hide LogWorld.Run, LogWorld.Evolves, LogWorld.Distinct, RotationSteps.OutcomeOf, RotationSteps.Keeps;
      s := op.Move(suffix, past);
    }

    /** Renames the rotated log to `.1` and publishes that. */
    method ArchiveCurrent(op: LogOperation, ghost past: seq<World>) returns (s: Status)
      requires op.dir == dir && dir.Valid() && 1 <= op.unused
      requires dir.disk.marker.Rotating? && dir.disk.marker.phase == Shifted
      requires 0 in dir.disk.names && !EmptyAt(dir.disk, 0) && 1 !in dir.disk.names
      requires Keeps(past, dir.history, dir.retained)
      modifies op, dir
      ensures dir.Valid() && Keeps(past, dir.history, dir.retained)
      ensures s.Failed? ==> s.error == Crashed && old(op.steps) < 2
      ensures s.Ok? ==>
        && dir.disk.marker == old(dir.disk).marker.(phase := Archived)
        && dir.disk.names.Keys == old(dir.disk).names.Keys - {0} + {1}
        && op.unused == old(op.unused) - 1 && op.steps == old(op.steps) - 2
      ensures old(dir.history) == [] <==> dir.history == []
    {
      hide LogWorld.Run, LogWorld.Evolves, LogWorld.Distinct, RotationSteps.OutcomeOf, RotationSteps.Keeps;
      if dir.history != [] {
        FilesTellProgress(Last(dir.history), dir.retained);
      }
      :- op.Move(0, past);
      :- op.Publish(dir.disk.marker.(phase := Archived), past);
      s := Ok;
    }

    /** The part of recovery that renames: the archives if they may still be in place, then the log. */
    method ShiftAndArchive(op: LogOperation, ghost past: seq<World>) returns (s: Status)
      requires op.dir == dir && dir.Valid() && 2 <= op.unused && Keeps(past, dir.history, dir.retained)
      requires dir.disk.marker.Rotating? && dir.disk.marker.phase in {Marking, Closed, Shifted}
      requires 0 in dir.disk.names && !EmptyAt(dir.disk, 0)
      modifies op, dir
      ensures dir.Valid() && Keeps(past, dir.history, dir.retained)
      ensures s.Failed? && s.error != Crashed <==> old(dir.disk).marker.phase == Shifted && 1 in old(dir.disk).names
      ensures s.Failed? && s.error != Crashed ==> unchanged(dir) && s.error == AmbiguousRecovery
      ensures s.Ok? ==> op.unused + 2 >= old(op.unused) && op.steps + dir.retained + 3 >= old(op.steps)
      ensures s.Failed? && s.error == Crashed ==> old(op.steps) < dir.retained + 3
      ensures s.Ok? ==> dir.disk.marker == old(dir.disk).marker.(phase := Archived) && 1 in dir.disk.names
    {
      hide LogWorld.Run, LogWorld.Evolves, LogWorld.Distinct, RotationSteps.OutcomeOf, RotationSteps.Keeps;
      if dir.disk.marker.phase != Shifted {
        :- ShiftLeadingRun(op, past);
        :- op.Publish(dir.disk.marker.(phase := Shifted), past);
      }
      if 1 in dir.disk.names { return Failed(AmbiguousRecovery); }
      s := ArchiveCurrent(op, past);
    }

    /** Decides from the marker and the files present which renames already happened, and performs the
        rest. It refuses exactly the directories of `Refused`, and leaves those untouched. */
    method Recover(op: LogOperation, ghost past: seq<World>) returns (r: Result<nat>)
      requires op.dir == dir && dir.Valid() && 2 <= op.unused && Keeps(past, dir.history, dir.retained)
      modifies op, dir
      ensures dir.Valid() && Keeps(past, dir.history, dir.retained)
      ensures r.Failure? && r.error != Crashed <==> Refused(old(dir.disk))
      ensures Refused(old(dir.disk)) ==> unchanged(dir) && r.error in {InvalidGenerationMarker, AmbiguousRecovery}
      ensures r.Success? ==> op.unused + 2 >= old(op.unused) && op.steps + dir.retained + 3 >= old(op.steps)
      ensures r.Failure? && r.error != Crashed ==>
        r.error == if NoGenerationLeft(old(dir.disk).marker) then InvalidGenerationMarker else AmbiguousRecovery
      ensures r.Failure? && r.error == Crashed ==> old(op.steps) < dir.retained + 3
      ensures !old(dir.disk).marker.Rotating? ==> unchanged(dir)
      ensures r.Success? && !old(dir.disk).marker.Rotating? ==> r.value == MarkerGeneration(old(dir.disk).marker)
      ensures r.Success? && old(dir.disk).marker.Rotating? ==>
        && r.value == old(dir.disk).marker.generation + 1
        && dir.disk.marker.Rotating? && dir.disk.marker.phase in {Archived, Opened}
        && dir.disk.marker.generation == old(dir.disk).marker.generation
        && dir.disk.marker.transaction == old(dir.disk).marker.transaction
        && 1 in dir.disk.names && (dir.disk.marker.phase == Opened ==> 0 in dir.disk.names)
    {
      hide LogWorld.Run, LogWorld.Evolves, LogWorld.Distinct, RotationSteps.OutcomeOf, RotationSteps.Keeps;
      var marker := dir.disk.marker;
      if marker.Malformed? { return Failure(InvalidGenerationMarker); }
      if !marker.Rotating? {
        if MarkerGeneration(marker) > MAX_SAFE_INTEGER { return Failure(InvalidGenerationMarker); }
        return Success(MarkerGeneration(marker));
      }
      var g, phase := marker.generation, marker.phase;
      if g >= MAX_SAFE_INTEGER { return Failure(InvalidGenerationMarker); }
      if phase == Archived || phase == Opened {
        if 1 !in dir.disk.names || (phase == Opened && 0 !in dir.disk.names) { return Failure(AmbiguousRecovery); }
        return Success(g + 1);
      }
      if 0 !in dir.disk.names || (phase == Shifted && 1 in dir.disk.names && EmptyAt(dir.disk, 0)) {
        if phase != Shifted || 1 !in dir.disk.names { return Failure(AmbiguousRecovery); }
        if dir.history != [] {
          FilesTellProgress(Last(dir.history), dir.retained);
        }
        var published := op.Publish(marker.(phase := Archived), past);
        if published.Failed? { return Failure(published.error); }
        return Success(g + 1);
      }
      if EmptyAt(dir.disk, 0) { return Failure(AmbiguousRecovery); }
      var s := ShiftAndArchive(op, past);
      r := if s.Failed? then Failure(s.error) else Success(g + 1);
    }

    /** The log is open for writing: marker, descriptor, size and generation agree with the directory. */
    ghost predicate Writable()
      reads this, dir
    {
      && dir.Valid() && 1 <= rotationBytes
      && dir.disk.marker == Stable(generation)
      && 0 in dir.disk.names
      && fd == Some(dir.disk.names[0])
      && size == |dir.disk.content[dir.disk.names[0]]|
    }

    /** Publishes `opened`, if a rotation is being finished, and then the plain generation. */
    method FinishOpening(op: LogOperation, ghost past: seq<World>) returns (s: Status)
      requires op.dir == dir && dir.Valid() && 2 <= op.unused
      requires 0 in dir.disk.names && Keeps(past, dir.history, dir.retained)
      requires dir.disk.marker.Rotating? ==>
        dir.disk.marker.phase in {Archived, Opened} && generation == dir.disk.marker.generation + 1
      requires !dir.disk.marker.Rotating? ==>
        generation == MarkerGeneration(dir.disk.marker) && !dir.disk.marker.Malformed?
      modifies op, dir
      ensures dir.Valid() && Keeps(past, dir.history, dir.retained)
      ensures s.Failed? ==> s.error == Crashed && old(op.steps) < 2
      ensures s.Ok? ==> dir.disk == old(dir.disk).(marker := Stable(generation))
      ensures s.Failed? && !old(dir.disk).marker.Rotating? ==> dir.disk == old(dir.disk)
      ensures s.Ok? ==> op.unused == old(op.unused) - (if old(dir.disk).marker.Rotating? then 2 else 1)
      ensures s.Ok? && old(dir.history) != [] && old(dir.disk).marker.Rotating? ==>
        dir.disk.content[dir.disk.names[0]] == []
      ensures old(dir.history) == [] <==> dir.history == []
    {
      hide LogWorld.Run, LogWorld.Evolves, LogWorld.Distinct, RotationSteps.OutcomeOf, RotationSteps.Keeps;
      var marker := dir.disk.marker;
      if marker.Rotating? {
        if dir.history != [] {
          FilesTellProgress(Last(dir.history), dir.retained);
        }
        :- op.Publish(marker.(phase := Opened), past);
      } else if dir.history != [] {
        assert !Boot(Last(dir.history));
      }
      s := op.Publish(Stable(generation), past);
    }

    /** Opens the log of a new anchor process, after finishing whatever rotation its predecessor left
        behind. On an explained directory it never refuses, and wherever it dies the directory stays
        committed to the same outcome. */
    method Initialize(op: LogOperation) returns (s: Status)
      requires op.dir == dir && dir.Valid() && 1 <= rotationBytes && 5 <= op.unused
      modifies this, op, dir
      ensures dir.Valid() && Keeps(old(dir.history), dir.history, dir.retained)
      ensures s.Failed? && s.error != Crashed <==> Refused(old(dir.disk))
      ensures Refused(old(dir.disk)) ==> unchanged(dir) && s.error in {InvalidGenerationMarker, AmbiguousRecovery}
      ensures s.Failed? && s.error != Crashed ==>
        s.error == if NoGenerationLeft(old(dir.disk).marker) then InvalidGenerationMarker else AmbiguousRecovery
      ensures s.Failed? && s.error == Crashed ==> old(op.steps) < dir.retained + 6
      ensures s.Ok? ==> Writable() && op.unused + 5 >= old(op.unused)
      ensures s.Ok? ==>
        generation == MarkerGeneration(old(dir.disk).marker) + (if old(dir.disk).marker.Rotating? then 1 else 0)
      ensures s.Ok? && old(dir.history) != [] && old(dir.disk).marker.Rotating? ==> size == 0
      ensures old(dir.disk).marker.Stable? && 0 in old(dir.disk).names ==> dir.disk == old(dir.disk)
    {
      hide LogWorld.Run, LogWorld.Evolves, LogWorld.Distinct, RotationSteps.OutcomeOf, RotationSteps.Keeps;
      ghost var past := dir.history;
      KeepsReflexive(past, dir.retained);
      var recovered := Recover(op, past);
      if recovered.Failure? { return Failed(recovered.error); }
      generation := recovered.value;
      if dir.history != [] && dir.disk.marker.Rotating? {
        FilesTellProgress(Last(dir.history), dir.retained);
      } else if dir.history != [] {
        UnmarkedHasCurrent(Last(dir.history), dir.retained);
      }
      var inode: Inode;
      s, inode := op.OpenCurrent(past);
      if s.Failed? { return; }
      fd, size := Some(inode), |dir.disk.content[inode]|;
      s := FinishOpening(op, past);
    }

    /** The shifting loop of a rotation: drops the oldest archive if every number is taken, then moves
        each archive up by one, highest first. */
    method ShiftArchives(op: LogOperation, ghost past: seq<World>) returns (s: Status)
      requires op.dir == dir && dir.Valid() && dir.history != [] && Keeps(past, dir.history, dir.retained)
      requires dir.disk.marker.Rotating? && dir.disk.marker.phase == Closed
      requires Last(dir.history).gap == Last(dir.history).kept - 1
      modifies op, dir
      ensures dir.Valid() && op.unused == old(op.unused) && Keeps(past, dir.history, dir.retained)
      ensures s.Failed? ==> s.error == Crashed && old(op.steps) < dir.retained
      ensures s.Ok? ==> op.steps + dir.retained >= old(op.steps)
      ensures dir.history != [] && dir.disk.marker == old(dir.disk).marker
      ensures s.Ok? ==> Last(dir.history).gap == 0 && Last(dir.history).kept <= dir.retained
    {
      hide LogWorld.Run, LogWorld.Evolves, LogWorld.Distinct, RotationSteps.OutcomeOf, RotationSteps.Keeps;
      var retained := dir.retained;
      LeadingRun(Last(dir.history), dir.disk, retained);
      :- op.Remove(retained, past);
      var suffix: nat := retained - 1;
      while suffix >= 1
        invariant suffix < retained
        invariant dir.Valid() && op.unused == old(op.unused) && op.steps + retained >= old(op.steps) + suffix
        invariant dir.history != [] && dir.disk.marker == old(dir.disk).marker
        invariant Keeps(past, dir.history, retained)
        invariant Last(dir.history).kept <= retained
        invariant Last(dir.history).gap == Min(suffix, Last(dir.history).kept - 1)
      {
        if suffix in dir.disk.names {
          :- op.Move(suffix, past);
        }
        suffix := suffix - 1;
      }
      s := Ok;
    }

    /** One rotation. It uses exactly seven temporaries, and unless it dies before its first marker the
        directory is committed to generation + 1 with the old log as `.1` from then on. */
    method Rotate(op: LogOperation, transaction: nat) returns (s: Status)
      requires op.dir == dir && Writable() && dir.history != [] && size > 0 && 7 <= op.unused
      modifies this, op, dir
      ensures dir.Valid() && dir.history != []
      ensures s.Failed? && s.error != Crashed <==> old(generation) >= MAX_SAFE_INTEGER
      ensures s.Failed? ==> s.error in {Crashed, InvalidGenerationMarker}
      ensures s.Failed? && s.error != Crashed ==> unchanged(dir)
      ensures s.Failed? && s.error == Crashed ==> old(op.steps) < dir.retained + 8
      ensures dir.history == old(dir.history) || Rotates(old(dir.history), dir.history, dir.retained)
      ensures old(op.steps) == 0 ==> unchanged(dir)
      ensures old(op.steps) > 0 && old(generation) < MAX_SAFE_INTEGER ==>
        Rotates(old(dir.history), dir.history, dir.retained)
      ensures s.Ok? ==>
        && Rotates(old(dir.history), dir.history, dir.retained)
        && Writable() && size == 0 && generation == old(generation) + 1
        && op.unused == old(op.unused) - 7
    {
      hide LogWorld.Run, LogWorld.Evolves, LogWorld.Distinct, RotationSteps.OutcomeOf, RotationSteps.Keeps;
      if generation >= MAX_SAFE_INTEGER { return Failed(InvalidGenerationMarker); }
      ghost var past := dir.history;
      MayBegin(Last(past), dir.disk, transaction, dir.retained);
      :- op.Publish(Rotating(generation, Marking, transaction), past);
      ghost var begun := dir.history;
      RotationBegun(past, begun, transaction, dir.retained);
      fd := None;
      s := CloseRotation(op, begun);
      RotationContinues(past, begun, dir.history, dir.retained);
    }

    /** The rest of a rotation, once its first marker is published. */
    method CloseRotation(op: LogOperation, ghost begun: seq<World>) returns (s: Status)
      requires op.dir == dir && dir.Valid() && dir.history != [] && Keeps(begun, dir.history, dir.retained)
      requires 1 <= rotationBytes && 6 <= op.unused
      requires dir.disk.marker.Rotating? && dir.disk.marker.phase == Marking && dir.disk.marker.generation == generation
      requires Last(dir.history).gap == Last(dir.history).kept - 1
      modifies this, op, dir
      ensures dir.Valid() && Keeps(begun, dir.history, dir.retained)
      ensures s.Failed? ==> s.error == Crashed && old(op.steps) < dir.retained + 7
      ensures s.Ok? ==> Writable() && size == 0 && generation == old(generation) + 1 && op.unused == old(op.unused) - 6
    {
      hide LogWorld.Run, LogWorld.Evolves, LogWorld.Distinct, RotationSteps.OutcomeOf, RotationSteps.Keeps;
      :- op.Publish(dir.disk.marker.(phase := Closed), begun);
      :- ShiftArchives(op, begun);
      :- op.Publish(dir.disk.marker.(phase := Shifted), begun);
      s := ArchiveAndReopen(op, begun);
    }

    /** Archives the rotated log, opens its empty successor and publishes the new generation. */
    method ArchiveAndReopen(op: LogOperation, ghost begun: seq<World>) returns (s: Status)
      requires op.dir == dir && dir.Valid() && dir.history != [] && Keeps(begun, dir.history, dir.retained)
      requires 1 <= rotationBytes && 4 <= op.unused
      requires dir.disk.marker.Rotating? && dir.disk.marker.phase == Shifted && dir.disk.marker.generation == generation
      requires Last(dir.history).gap == 0
      modifies this, op, dir
      ensures dir.Valid() && Keeps(begun, dir.history, dir.retained)
      ensures s.Failed? ==> s.error == Crashed && old(op.steps) < 5
      ensures s.Ok? ==> Writable() && size == 0 && generation == old(generation) + 1 && op.unused == old(op.unused) - 4
    {
      hide LogWorld.Run, LogWorld.Evolves, LogWorld.Distinct, RotationSteps.OutcomeOf, RotationSteps.Keeps;
      FilesTellProgress(Last(dir.history), dir.retained);
      :- ArchiveCurrent(op, begun);
      FilesTellProgress(Last(dir.history), dir.retained);
      var inode: Inode;
      s, inode := op.OpenCurrent(begun);
      if s.Failed? { return; }
      fd, size := Some(inode), 0;
      generation := generation + 1;
      s := FinishOpening(op, begun);
    }

    /** Hands `bytes` to the descriptor until all are accepted. Each call accepts some prefix; a call
        that accepts nothing fails the write. `next` counts the calls on from `call`. */
    method WriteFully(bytes: Bytes, amounts: nat -> nat, call: nat) returns (s: Status, next: nat, ghost written: nat)
      requires dir.Valid() && dir.history != [] && dir.disk.marker.Stable?
      requires fd.Some? && 0 in dir.disk.names && fd.value == dir.disk.names[0]
      modifies dir
      ensures dir.Valid() && old(dir.history) <= dir.history && dir.history != []
      ensures written <= |bytes| && (s.Ok? <==> written == |bytes|)
      ensures CallsFit(amounts, call, next, written, s) && (s.Failed? ==> s.error == WriteFailed)
      ensures Grown(Last(old(dir.history)), Last(dir.history), bytes[..written])
      ensures dir.disk.names == old(dir.disk).names && dir.disk.marker == old(dir.disk).marker
      ensures fd.value in dir.disk.content
      ensures |dir.disk.content[fd.value]| == |old(dir.disk).content[fd.value]| + written
    {
      hide LogWorld.Run, LogWorld.Evolves, RotationSteps.OutcomeOf, LogWorld.Span, LogWorld.Distinct, Grown, CallsFit;
      hide LogDirectory.Valid, LogWorld.Valid, LogWorld.DiskOf, LogWorld.Held, LogWorld.Written;
      ghost var w := Last(dir.history);
      written, next := 0, call;
      NoCalls(amounts, call);
      var done := 0;
      assert bytes[..0] == [];
      BeginsGrown(w);
      while done < |bytes|
        invariant dir.Valid() && old(dir.history) <= dir.history && dir.history != []
        invariant done == written <= |bytes|
        invariant CallsFit(amounts, call, next, written, Ok)
        invariant Grown(w, Last(dir.history), bytes[..written])
        invariant fd.value in dir.disk.content
        invariant |dir.disk.content[fd.value]| == |old(dir.disk).content[fd.value]| + written
        invariant dir.disk.names == old(dir.disk).names && dir.disk.marker == old(dir.disk).marker
      {
        var amount := Min(amounts(next), |bytes| - done);
        OneCall(amounts, call, next, written, amount);
        next := next + 1;
        if amount <= 0 { return Failed(WriteFailed), next, written; }
        AppendPiece(bytes[done..done + amount], w, bytes[..done]);
        PrefixGrows(bytes, done, amount);
        done := done + amount;
        written := done;
      }
      s := Ok;
    }

    lemma BeginsGrown(w: World)
      requires dir.Valid() && dir.history != [] && w == Last(dir.history) && dir.disk.marker.Stable?
      ensures Grown(w, w, [])
      ensures forall slot :: slot in dir.disk.names ==> dir.disk.names[slot] in dir.disk.content
    {
      SameIsGrown(w, dir.retained);
    }

    method AppendPiece(piece: Bytes, ghost w: World, ghost earlier: Bytes)
      requires dir.Valid() && dir.history != [] && dir.disk.marker.Stable? && Grown(w, Last(dir.history), earlier)
      requires fd.Some? && 0 in dir.disk.names && fd.value == dir.disk.names[0] && fd.value in dir.disk.content
      modifies dir
      ensures dir.Valid() && old(dir.history) <= dir.history && dir.history != []
      ensures Grown(w, Last(dir.history), earlier + piece)
      ensures dir.disk.names == old(dir.disk).names && dir.disk.marker == old(dir.disk).marker
      ensures fd.value in dir.disk.content
      ensures |dir.disk.content[fd.value]| == |old(dir.disk).content[fd.value]| + |piece|
    {
      hide LogWorld.Run, LogWorld.Evolves, RotationSteps.OutcomeOf, LogWorld.Span, LogWorld.Distinct, Grown;
      ghost var before := Last(dir.history);
      AppendBytes(before, piece, dir.retained);
      dir.Append(fd.value, piece, Appended(before, piece));
      GrowsFurther(w, before, earlier, piece, dir.retained);
    }

    /** Appends a chunk, rotating whenever the current log is full. The stream grows by exactly the
        accepted bytes; every segment it seals has exactly `rotationBytes` bytes; and a segment is given
        up only when more than `retained` archives would stay.

        `amounts` says how much each call accepts and `lives` how many steps the process lives through each
        rotation. The write fails only if a call accepts nothing, if there is no generation left, or if the
        process dies in a rotation, and it rotates only when the log is full. `calls` and `turns` count the calls
        and the rotations. */
    method Write(chunk: Bytes, amounts: nat -> nat, lives: nat -> nat)
        returns (s: Status, calls: nat, turns: nat, ghost accepted: nat)
      requires Writable() && dir.history != []
      modifies this, dir
      ensures dir.Valid() && old(dir.history) <= dir.history && dir.history != []
      ensures accepted <= |chunk| && (s.Ok? <==> accepted == |chunk|)
      ensures Wrote(Last(old(dir.history)), Last(dir.history), chunk[..accepted], old(size) <= rotationBytes,
        rotationBytes, dir.retained, s.Ok?)
      ensures s.Ok? ==> Writable() && (chunk != [] ==> size > 0)
      ensures s.Ok? ==> generation == old(generation) + turns
      ensures s.Failed? ==> s.error in {WriteFailed, InvalidGenerationMarker, Crashed}
      ensures CallsFit(amounts, 0, calls, accepted, s)
      ensures s == Failed(InvalidGenerationMarker) <==> 0 < turns && MAX_SAFE_INTEGER < old(generation) + turns
      ensures s == Failed(Crashed) ==> 0 < turns && lives(turns - 1) < dir.retained + 8
      ensures turns <= accepted + 1
      ensures old(size) <= rotationBytes ==> TurnsFit(old(size) + accepted, turns, rotationBytes, s)
      ensures Fortunate(amounts, lives, dir.retained) && old(generation) + |chunk| <= MAX_SAFE_INTEGER ==> s.Ok?
      ensures old(size) <= rotationBytes && s.Ok? ==> size <= rotationBytes
    {
      hide LogWorld.Run, LogWorld.Valid, LogWorld.Shape, LogWorld.Names, LogWorld.DiskOf, LogWorld.Held, LogWorld.Span;
      hide LogWorld.Written, Oldest, SealedFull, Grown, CallsFit, Fortunate, Writable, Wrote, TurnsFit, Full;
      hide LogDirectory.Valid, LogWorld.Evolves, RotationSteps.OutcomeOf;
      WritableIsValid();
      ghost var start := Last(dir.history);
      ghost var sound := size <= rotationBytes;
      NothingWrote(start, sound, rotationBytes, dir.retained);
      var offset := 0;
      s, accepted, calls, turns := Ok, 0, 0, 0;
      NoneFull(rotationBytes);
      NoCalls(amounts, 0);
      assert chunk[..0] == [];
      while offset < |chunk|
        invariant s.Ok? && Writable() && dir.history != [] && old(dir.history) <= dir.history
        invariant accepted == offset <= |chunk| && (offset > 0 ==> size > 0)
        invariant CallsFit(amounts, 0, calls, accepted, Ok)
        invariant generation == old(generation) + turns && turns <= accepted
        invariant 0 < turns ==> generation <= MAX_SAFE_INTEGER
        invariant sound ==> old(size) + accepted == Full(turns, rotationBytes) + size && size <= rotationBytes
        invariant Wrote(start, Last(dir.history), chunk[..offset], sound, rotationBytes, dir.retained, true)
      {
        ghost var before := Last(dir.history);
        WroteHolds(start, before, chunk[..offset], sound, rotationBytes, dir.retained, true);
        var made, rotated := calls, false;
        ghost var written: nat;
        var length: nat;
        s, calls, rotated, length, written
          := WriteNext(chunk, offset, amounts, calls, lives(turns), |start.lineage| - 1);
        CallsJoin(amounts, made, calls, accepted, written, s);
        WroteMore(start, before, Last(dir.history), chunk[..offset], chunk[offset..offset + written], sound,
          rotationBytes, dir.retained, rotated, s.Ok?);
        PrefixGrows(chunk, offset, written);
        accepted := offset + written;
        if rotated {
          OneMore(turns, rotationBytes);
          turns := turns + 1;
        }
        if s.Failed? { break; }
        offset := offset + length;
      }
      if s.Ok? {
        WritableIsValid();
      }
      TurnsEnd(old(size) + accepted, turns, rotationBytes, s);
      Misfortune(amounts, lives, dir.retained, calls, turns, s);
    }

    lemma WritableIsValid()
      requires Writable()
      ensures dir.Valid() && dir.disk.marker.Stable? && 1 <= rotationBytes
      ensures dir.history != [] ==> Last(dir.history).marker.Stable? && LogWorld.Valid(Last(dir.history), dir.retained)
    {
    }

    /** One round of a write: a rotation if the current log is full, and as much of the chunk as it then takes. */
    method WriteNext(chunk: Bytes, offset: nat, amounts: nat -> nat, call: nat, life: nat, ghost from: int)
        returns (s: Status, next: nat, rotated: bool, length: nat, ghost written: nat)
      requires Writable() && dir.history != [] && offset < |chunk| && -1 <= from < |Last(dir.history).lineage|
      requires Held(Last(dir.history).content, Last(dir.history).lineage)
      modifies this, dir
      ensures dir.Valid() && old(dir.history) <= dir.history && dir.history != []
      ensures Held(Last(dir.history).content, Last(dir.history).lineage)
      ensures offset + written <= |chunk|
      ensures Written(Last(dir.history)) == Written(Last(old(dir.history))) + chunk[offset..offset + written]
      ensures rotated <==> old(size) >= rotationBytes
      ensures CallsFit(amounts, call, next, written, s)
      ensures s.Ok? ==>
        && Writable() && 0 < written == length && size == (if rotated then 0 else old(size)) + written <= rotationBytes
        && generation == old(generation) + (if rotated then 1 else 0)
        && |Last(dir.history).lineage| == |Last(old(dir.history)).lineage| + (if rotated then 1 else 0)
        && Oldest(Last(dir.history)) ==
             (if rotated then Max(Oldest(Last(old(dir.history))), |Last(dir.history).lineage| - 1 - dir.retained)
              else Oldest(Last(old(dir.history))))
      ensures s.Failed? ==> s.error in {WriteFailed, InvalidGenerationMarker, Crashed}
      ensures s == Failed(WriteFailed) ==>
        offset + written < |chunk| && (if rotated then 0 else old(size)) + written < rotationBytes
      ensures s.Failed? && s.error != WriteFailed ==> rotated && written == 0 && next == call
      ensures s == Failed(InvalidGenerationMarker) <==> rotated && old(generation) >= MAX_SAFE_INTEGER
      ensures s == Failed(Crashed) ==> life < dir.retained + 8
      ensures old(size) <= rotationBytes && SealedFull(Last(old(dir.history)), from, rotationBytes) ==>
        SealedFull(Last(dir.history), from, rotationBytes)
    {
      hide LogWorld.Run, LogWorld.Valid, LogWorld.Shape, LogWorld.Names, LogWorld.DiskOf, LogWorld.Held, LogWorld.Span;
      hide LogWorld.Written, Oldest, SealedFull, Grown, CallsFit;
      next, length, written, rotated := call, 0, 0, size >= rotationBytes;
      NoCalls(amounts, call);
      if size >= rotationBytes {
        s := RotateFull(life, from);
        if s.Failed? {
          FailedElsewhere(amounts, call, s);
          return;
        }
      }
      s, next, length, written := WritePiece(chunk, offset, amounts, call, from);
    }

    /** As much of the chunk as the current log still takes. */
    method WritePiece(chunk: Bytes, offset: nat, amounts: nat -> nat, call: nat, ghost from: int)
        returns (s: Status, next: nat, length: nat, ghost written: nat)
      requires Writable() && dir.history != [] && offset < |chunk| && size < rotationBytes && -1 <= from
      requires Held(Last(dir.history).content, Last(dir.history).lineage)
      modifies this`size, dir
      ensures dir.Valid() && old(dir.history) <= dir.history && dir.history != []
      ensures Held(Last(dir.history).content, Last(dir.history).lineage)
      ensures |Last(dir.history).lineage| == |Last(old(dir.history)).lineage|
      ensures Oldest(Last(dir.history)) == Oldest(Last(old(dir.history)))
      ensures offset + length <= |chunk| && written <= length && old(size) + length <= rotationBytes
      ensures CallsFit(amounts, call, next, written, s)
      ensures Written(Last(dir.history)) == Written(Last(old(dir.history))) + chunk[offset..offset + written]
      ensures SealedFull(Last(old(dir.history)), from, rotationBytes) ==>
        SealedFull(Last(dir.history), from, rotationBytes)
      ensures s.Ok? ==> Writable() && written == length > 0 && size == old(size) + length <= rotationBytes
      ensures s.Failed? ==> s.error == WriteFailed && written < length
    {
      hide LogWorld.Run, LogWorld.Valid, LogWorld.Shape, LogWorld.Names, LogWorld.DiskOf, LogWorld.Held, LogWorld.Span;
      hide LogWorld.Written, Oldest, SealedFull, Grown, CallsFit;
      length := Min(|chunk| - offset, rotationBytes - size);
      ghost var before := Last(dir.history);
      s, next, written := WriteFully(chunk[offset..offset + length], amounts, call);
      assert chunk[offset..offset + length][..written] == chunk[offset..offset + written];
      GrownKeeps(before, Last(dir.history), chunk[offset..offset + written], from, rotationBytes);
      if s.Failed? { return; }
      size := size + length;
    }

    /** The rotation `Write` performs when the current log is full, with a fresh set of temporaries. */
    method RotateFull(life: nat, ghost from: int) returns (s: Status)
      requires Writable() && dir.history != [] && size >= rotationBytes && from < |Last(dir.history).lineage|
      modifies this, dir
      ensures dir.Valid() && old(dir.history) <= dir.history && dir.history != []
      ensures Held(Last(dir.history).content, Last(dir.history).lineage)
      ensures Written(Last(dir.history)) == Written(Last(old(dir.history)))
      ensures old(size) == rotationBytes && SealedFull(Last(old(dir.history)), from, rotationBytes) ==>
        SealedFull(Last(dir.history), from, rotationBytes)
      ensures s.Failed? ==> s.error in {Crashed, InvalidGenerationMarker}
      ensures s == Failed(InvalidGenerationMarker) <==> old(generation) >= MAX_SAFE_INTEGER
      ensures s == Failed(Crashed) ==> life < dir.retained + 8
      ensures s.Ok? ==>
        && Writable() && size == 0 && generation == old(generation) + 1
        && |Last(dir.history).lineage| == |Last(old(dir.history)).lineage| + 1
        && Oldest(Last(dir.history)) ==
           Max(Oldest(Last(old(dir.history))), |Last(dir.history).lineage| - 1 - dir.retained)
    {
      hide LogWorld.Run, LogWorld.Evolves, RotationSteps.OutcomeOf, LogWorld.Span, LogWorld.Distinct;
      ghost var past := dir.history;
      CurrentIsNewest(Last(past), dir.disk, dir.retained);
      var transaction: nat := *;
      var op := new LogOperation(dir, 7, life);
      s := Rotate(op, transaction);
      if dir.history != past {
        RotationKeepsSegments(past, dir.history, dir.retained);
        if s.Ok? {
          RotationSeals(past, dir.history, dir.retained);
        }
      }
    }
  }

  /** Every call accepts something, and the process lives through every rotation. */
  ghost predicate Fortunate(amounts: nat -> nat, lives: nat -> nat, retained: nat) {
    (forall k :: 0 < amounts(k)) && (forall k :: retained + 8 <= lives(k))
  }

  /** What a run of calls says about the outcome: the last one accepted nothing exactly if the write failed for
      that; every other one accepted something, and all together no fewer bytes than there were such calls. */
  ghost predicate CallsFit(amounts: nat -> nat, first: nat, next: nat, written: nat, s: Status) {
    && first <= next
    && (forall k :: first <= k < next - 1 ==> 0 < amounts(k))
    && (s == Failed(WriteFailed) <==> first < next && amounts(next - 1) == 0)
    && next - first <= written + (if s == Failed(WriteFailed) then 1 else 0)
    && (next == first ==> written == 0)
  }

  lemma NoCalls(amounts: nat -> nat, call: nat)
    ensures CallsFit(amounts, call, call, 0, Ok)
  {
  }

  lemma OneCall(amounts: nat -> nat, first: nat, next: nat, written: nat, amount: nat)
    requires CallsFit(amounts, first, next, written, Ok) && amount <= amounts(next)
    requires amounts(next) > 0 ==> amount > 0
    ensures if amount == 0 then CallsFit(amounts, first, next + 1, written, Failed(WriteFailed))
            else CallsFit(amounts, first, next + 1, written + amount, Ok)
  {
  }

  lemma FailedElsewhere(amounts: nat -> nat, call: nat, s: Status)
    requires s != Failed(WriteFailed)
    ensures CallsFit(amounts, call, call, 0, s)
  {
  }

  lemma CallsJoin(amounts: nat -> nat, mid: nat, next: nat, before: nat, written: nat, s: Status)
    requires CallsFit(amounts, 0, mid, before, Ok) && CallsFit(amounts, mid, next, written, s)
    ensures CallsFit(amounts, 0, next, before + written, s)
    ensures s == Failed(WriteFailed) ==> 0 < next && amounts(next - 1) == 0
  {
  }

  lemma Misfortune(amounts: nat -> nat, lives: nat -> nat, retained: nat, calls: nat, turns: nat, s: Status)
    requires s == Failed(WriteFailed) ==> 0 < calls && amounts(calls - 1) == 0
    requires s == Failed(Crashed) ==> 0 < turns && lives(turns - 1) < retained + 8
    ensures s in {Failed(WriteFailed), Failed(Crashed)} ==> !Fortunate(amounts, lives, retained)
  {
  }

  /** The bytes of so many full segments. */
  ghost function Full(turns: nat, bound: nat): nat { turns * bound }

  /** How many rotations these bytes take, counted from the beginning of the current log: none before it is full,
      and one as soon as there is more. */
  ghost predicate TurnsFit(bytes: nat, turns: nat, bound: nat, s: Status) {
    if s.Failed? && s.error != WriteFailed then bytes == turns * bound
    else turns * bound <= bytes <= (turns + 1) * bound
  }

  lemma PrefixGrows(bytes: Bytes, done: nat, more: nat)
    requires done + more <= |bytes|
    ensures bytes[..done] + bytes[done..done + more] == bytes[..done + more]
  {
  }

  lemma NoneFull(bound: nat)
    ensures Full(0, bound) == 0
  {
  }

  lemma OneMore(turns: nat, bound: nat)
    ensures Full(turns + 1, bound) == Full(turns, bound) + bound
  {
  }

  lemma TurnsEnd(bytes: nat, turns: nat, bound: nat, s: Status)
    ensures s.Failed? && s.error != WriteFailed && bytes == Full(turns, bound) ==> TurnsFit(bytes, turns, bound, s)
    ensures (s.Ok? || s.error == WriteFailed) && Full(turns, bound) <= bytes <= Full(turns, bound) + bound ==>
      TurnsFit(bytes, turns, bound, s)
  {
    OneMore(turns, bound);
  }

  /** b is a after `bytes` were appended to its current log. */
  ghost predicate Grown(a: World, b: World, bytes: Bytes) {
    && Held(a.content, a.lineage) && a.lineage != []
    && b.lineage == a.lineage && b.kept == a.kept && b.successor == a.successor
    && Held(b.content, b.lineage)
    && (forall i :: 0 <= i < |a.lineage| - 1 ==> b.content[a.lineage[i]] == a.content[a.lineage[i]])
    && b.content[a.lineage[|a.lineage| - 1]] == a.content[a.lineage[|a.lineage| - 1]] + bytes
    && Written(b) == Written(a) + bytes
  }

  lemma SameIsGrown(w: World, retained: nat)
    requires Valid(w, retained) && w.marker.Stable?
    ensures Grown(w, w, [])
  {
  }

  lemma GrowsFurther(a: World, b: World, bytes: Bytes, piece: Bytes, retained: nat)
    requires Grown(a, b, bytes) && Valid(b, retained) && b.marker.Stable?
    ensures Grown(a, Appended(b, piece), bytes + piece)
  {
    var c := Appended(b, piece);
    var current := a.lineage[|a.lineage| - 1];
    AppendBytes(b, piece, retained);
    assert Written(a) + (bytes + piece) == (Written(a) + bytes) + piece;
    assert a.content[current] + (bytes + piece) == (a.content[current] + bytes) + piece;
  }

  /** What a write has done so far: the stream grew by these bytes, what it sealed is full, and, unless it failed in
      the middle of something, it gave up no segment it need not. */
  ghost predicate Wrote(start: World, now: World, bytes: Bytes, sound: bool, bound: nat, retained: nat, whole: bool) {
    && Held(start.content, start.lineage) && Held(now.content, now.lineage)
    && start.lineage != [] && Written(now) == Written(start) + bytes
    && (sound ==> SealedFull(now, |start.lineage| - 1, bound))
    && (whole ==>
          |start.lineage| <= |now.lineage|
          && Oldest(now) == Max(Oldest(start), |now.lineage| - 1 - retained))
  }

  lemma NothingWrote(w: World, sound: bool, bound: nat, retained: nat)
    requires Valid(w, retained) && w.marker.Stable?
    ensures Wrote(w, w, [], sound, bound, retained, true)
  {
    WriteStarts(w, DiskOf(w), bound, retained);
  }

  lemma WroteHolds(start: World, now: World, bytes: Bytes, sound: bool, bound: nat, retained: nat, whole: bool)
    requires Wrote(start, now, bytes, sound, bound, retained, whole)
    ensures Held(start.content, start.lineage) && Held(now.content, now.lineage) && start.lineage != []
    ensures Written(now) == Written(start) + bytes
    ensures sound ==> SealedFull(now, |start.lineage| - 1, bound)
    ensures whole ==>
      |start.lineage| <= |now.lineage| && Oldest(now) == Max(Oldest(start), |now.lineage| - 1 - retained)
  {
  }

  lemma WroteMore(start: World, before: World, now: World, bytes: Bytes, piece: Bytes, sound: bool, bound: nat,
      retained: nat, rotated: bool, ok: bool)
    requires Wrote(start, before, bytes, sound, bound, retained, true)
    requires Held(now.content, now.lineage) && Written(now) == Written(before) + piece
    requires sound && SealedFull(before, |start.lineage| - 1, bound) ==> SealedFull(now, |start.lineage| - 1, bound)
    requires ok ==>
      && |now.lineage| == |before.lineage| + (if rotated then 1 else 0)
      && Oldest(now) == if rotated then Max(Oldest(before), |now.lineage| - 1 - retained) else Oldest(before)
    ensures Wrote(start, now, bytes + piece, sound, bound, retained, ok)
  {
    hide SealedFull, Written, Oldest;
  }

  lemma WriteStarts(w: World, d: Disk, bound: nat, retained: nat)
    requires Valid(w, retained) && DiskOf(w) == d && d.marker.Stable?
    ensures Held(w.content, w.lineage) && w.lineage != []
    ensures SealedFull(w, |w.lineage| - 1, bound)
    ensures Oldest(w) == Max(Oldest(w), |w.lineage| - 1 - retained)
    ensures Written(w) == Written(w) + []
  {
  }

  lemma GrownKeeps(a: World, b: World, bytes: Bytes, from: int, bound: nat)
    requires Grown(a, b, bytes) && -1 <= from
    ensures Held(a.content, a.lineage) && Held(b.content, b.lineage)
    ensures |b.lineage| == |a.lineage| && Oldest(b) == Oldest(a) && Written(b) == Written(a) + bytes
    ensures SealedFull(a, from, bound) ==> SealedFull(b, from, bound)
  {
  }

  lemma CurrentIsNewest(w: World, d: Disk, retained: nat)
    requires Valid(w, retained) && w.marker.Stable? && DiskOf(w) == d
    ensures w.lineage != [] && 0 in d.names && d.names[0] == w.lineage[|w.lineage| - 1]
  {
  }

  /** Up to wherever it got, a rotation left every segment as it was. */
  lemma RotationKeepsSegments(past: seq<World>, now: seq<World>, retained: nat)
    requires Run(now, retained) && Rotates(past, now, retained)
    ensures var a := Last(past); var b := Last(now);
            && Held(a.content, a.lineage) && Held(b.content, b.lineage)
            && |a.lineage| <= |b.lineage| <= |a.lineage| + 1
            && (forall i :: 0 <= i < |a.lineage| ==>
                  b.lineage[i] == a.lineage[i] && b.content[b.lineage[i]] == a.content[a.lineage[i]])
            && Written(b) == Written(a)
  {
    var a, b := Last(past), Last(now);
    assert now[|past| - 1] == a;
    RunEvolves(now, retained, |past| - 1, |now| - 1);
    SameStreamSameSegments(a, b);
    assert OutcomeOf(b, retained).generation == RotationOutcome(a, retained).generation;
  }

  function Max(a: int, b: int): int { if a < b then b else a }

  /** From lineage index `from` on, every sealed segment of w has exactly `bound` bytes. */
  ghost predicate SealedFull(w: World, from: int, bound: nat)
    requires Held(w.content, w.lineage)
  {
    forall i :: 0 <= i && from <= i < |w.lineage| - 1 ==> |w.content[w.lineage[i]]| == bound
  }

  /** A rotation adds one empty segment, seals the previous current log as it is, and unlinks a segment
      only if more than `retained` would stay. */
  lemma RotationSeals(past: seq<World>, now: seq<World>, retained: nat)
    requires Run(now, retained) && Rotates(past, now, retained) && Last(past).marker.Stable? && Last(now).marker.Stable?
    ensures var a := Last(past); var b := Last(now);
            && |b.lineage| == |a.lineage| + 1 && a.lineage <= b.lineage
            && Held(a.content, a.lineage) && Held(b.content, b.lineage)
            && (forall i :: 0 <= i < |a.lineage| ==> b.content[b.lineage[i]] == a.content[a.lineage[i]])
            && b.content[b.lineage[|a.lineage|]] == []
            && Oldest(b) == Max(Oldest(a), |b.lineage| - 1 - retained)
  {
    hide LogWorld.Evolves, LogWorld.Names, LogWorld.Distinct, LogWorld.Run;
    var a, b := Last(past), Last(now);
    assert now[|past| - 1] == a;
    RunEvolves(now, retained, |past| - 1, |now| - 1);
    SameStreamSameSegments(a, b);
    SameOrigin(a, b);
    RotatedCounts(a, b, retained);
  }

  lemma SameOrigin(a: World, b: World)
    requires Evolves(a, b)
    ensures a.origin == b.origin && a.lineage <= b.lineage
  {
  }

  /** What the outcome of a rotation says about the number of segments written and of those linked. */
  lemma RotatedCounts(a: World, b: World, retained: nat)
    requires Valid(a, retained) && Valid(b, retained) && a.marker.Stable? && b.marker.Stable? && a.origin == b.origin
    requires OutcomeOf(b, retained) == RotationOutcome(a, retained)
    ensures |b.lineage| == |a.lineage| + 1 && Oldest(b) == Max(Oldest(a), |b.lineage| - 1 - retained)
  {
    hide LogWorld.Distinct;
    assert |OutcomeOf(b, retained).archives| == |RotationOutcome(a, retained).archives|;
    assert Top(b) + b.origin == MarkerGeneration(b.marker) == MarkerGeneration(a.marker) + 1;
  }

  /** Whatever moment of a rotation a crash hits, the newest `retained` logs written before it are still
      linked, or as many as there were. */
  lemma NothingBelowTheBoundIsLost(past: seq<World>, now: seq<World>, retained: nat, t: nat)
    requires Run(now, retained) && Rotates(past, now, retained) && |past| <= t < |now|
    ensures Oldest(now[t]) <= Max(Oldest(Last(past)), |Last(past).lineage| - retained)
  {
    var a, b := Last(past), now[t];
    assert now[|past| - 1] == a;
    RunEvolves(now, retained, |past| - 1, t);
    assert |OutcomeOf(b, retained).archives| == |RotationOutcome(a, retained).archives|;
    assert b.marker.Rotating? || b.marker.Stable?;
    assert Top(b) + b.origin == MarkerGeneration(b.marker);
  }

  /** A settled directory holds exactly its outcome: the current log and the archives, without gaps. */
  lemma SettledLayout(w: World, retained: nat)
    requires Valid(w, retained) && w.marker.Stable?
    ensures var names := Names(w); var archives := OutcomeOf(w, retained).archives;
            && (forall s: nat :: s in names <==> s <= |archives|)
            && (forall s: nat :: 1 <= s <= |archives| ==> names[s] == archives[s - 1])
  {
  }

  /** The history of a rotation that got as far as its first marker: everything from that marker on is
      committed to the state an uninterrupted rotation leaves, and holds the same stream. */
  ghost predicate Rotates(past: seq<World>, now: seq<World>, retained: nat) {
    && past != [] && past < now
    && Valid(Last(past), retained) && !Boot(Last(past)) && !Last(past).marker.Rotating?
    && forall t :: |past| <= t < |now| ==>
         && Valid(now[t], retained)
         && OutcomeOf(now[t], retained) == RotationOutcome(Last(past), retained)
         && Written(now[t]) == Written(Last(past))
  }

  lemma MayBegin(w: World, d: Disk, transaction: nat, retained: nat)
    requires Valid(w, retained) && DiskOf(w) == d && d.marker.Stable? && d.marker.generation < MAX_SAFE_INTEGER
    requires 0 in d.names && d.names[0] in d.content && d.content[d.names[0]] != []
    ensures MayPublish(w, Rotating(d.marker.generation, Marking, transaction), retained)
  {
  }

  lemma RotationBegun(past: seq<World>, begun: seq<World>, transaction: nat, retained: nat)
    requires past != [] && Valid(Last(past), retained) && Last(past).marker.Stable?
    requires MayPublish(Last(past), Rotating(Last(past).marker.generation, Marking, transaction), retained)
    requires begun == past + [Published(Last(past), Rotating(Last(past).marker.generation, Marking, transaction))]
    ensures Rotates(past, begun, retained)
    ensures Keeps(begun, begun, retained)
  {
  }

  lemma RotationContinues(past: seq<World>, begun: seq<World>, now: seq<World>, retained: nat)
    requires Rotates(past, begun, retained) && Keeps(begun, now, retained)
    ensures Rotates(past, now, retained)
  {
  }

  lemma UnmarkedHasCurrent(w: World, retained: nat)
    requires Valid(w, retained) && !w.marker.Rotating?
    ensures Boot(w) || 0 in Names(w)
  {
  }

  // ----- crashes ------------------------------------------------------------------------------------

  /** The state an uninterrupted rotation of `before` leaves: generation + 1, an empty current log, the
      old current log at `.1`, every archive one number higher, and the oldest gone only if its number
      would exceed `retained`. No retained file changes its content. */
  ghost predicate FullyRotated(before: Disk, after: Disk, archives: nat, retained: nat) {
    var kept := Min(archives + 1, retained);
    && before.marker.Stable? && after.marker == Stable(before.marker.generation + 1)
    && (forall s: nat :: s in after.names <==> s <= kept)
    && after.names[0] in after.content && after.content[after.names[0]] == []
    && (forall s: nat :: 1 <= s <= kept ==>
          && s - 1 in before.names && after.names[s] == before.names[s - 1]
          && after.names[s] in before.content && after.names[s] in after.content
          && after.content[after.names[s]] == before.content[before.names[s - 1]])
  }

  lemma SettledSlot(a: World, b: World, retained: nat, s: nat)
    requires Valid(a, retained) && Valid(b, retained) && a.marker.Stable? && b.marker.Stable?
    requires |b.lineage| == |a.lineage| + 1 && a.lineage <= b.lineage && 1 <= s <= a.kept && s < b.kept
    ensures s in Names(b) && s - 1 in Names(a) && Names(b)[s] == Names(a)[s - 1]
    ensures Top(a) - (s - 1) >= 0 && Names(b)[s] == a.lineage[Top(a) - (s - 1)]
  {
  }

  lemma SettledIsFullyRotated(past: seq<World>, now: seq<World>, retained: nat)
    requires Run(now, retained) && Rotates(past, now, retained)
    requires Last(past).marker.Stable? && Last(now).marker.Stable?
    ensures FullyRotated(DiskOf(Last(past)), DiskOf(Last(now)), Last(past).kept - 1, retained)
  {
    hide LogWorld.Evolves, LogWorld.Distinct, LogWorld.Run, LogWorld.Span;
    var a, b := Last(past), Last(now);
    RotationSeals(past, now, retained);
    assert |OutcomeOf(b, retained).archives| == |RotationOutcome(a, retained).archives|;
    assert b.kept == Min(a.kept, retained) + 1;
    assert Names(b)[0] == b.lineage[Top(b)];
    forall s: nat | 1 <= s <= Min(a.kept, retained)
      ensures s - 1 in Names(a) && Names(b)[s] == Names(a)[s - 1]
      ensures Names(b)[s] in a.content && Names(b)[s] in b.content
      ensures b.content[Names(b)[s]] == a.content[Names(a)[s - 1]]
    {
      SettledSlot(a, b, retained, s);
    }
  }
}
