/** The reader over directories that a writer really leaves: the two situations in which a returned cursor does
    not say where the read ended, each produced by a run of the writer. */
module RotatingReads {
  import opened Wrappers
  import opened LogWorld
  import opened RotationSteps
  import opened AnchorLog
  import opened RotatingLogs
  import opened CrashRecovery
  import opened CursorPositions
  import opened CursorReader
  import opened ReadExtents
  import Utf8

  // ----- the daemon prepares a log in the middle of a rotation ----------------------------------------

  /** The first step of a rotation of any steady directory. */
  method BeginToRotate(retained: nat, disk: Disk, ghost archives: nat, rotationBytes: nat, transaction: nat)
      returns (dir: LogDirectory, log: RotatingLog, op: LogOperation, ghost base: seq<World>, ghost begun: seq<World>)
    requires Steady(disk, archives, retained) && 1 <= rotationBytes
    ensures fresh(dir) && fresh(op) && op.dir == log.dir == dir && dir.Valid() && dir.retained == retained
    ensures dir.history != []
    ensures Rotates(base, begun, retained) && Keeps(begun, dir.history, retained)
    ensures dir.disk.marker == Rotating(disk.marker.generation, Marking, transaction)
    ensures Last(dir.history).gap == Last(dir.history).kept - 1
    ensures op.unused == 2 && op.steps == retained + 3
  {
    assert disk.marker.generation < MAX_SAFE_INTEGER;
    hide LogWorld.Run, LogWorld.Evolves, LogWorld.Shape, LogWorld.Names, RotationSteps.Keeps, RotationSteps.OutcomeOf;
    hide Rotates, Steady, LogWorld.Written, Refused;
    dir, log := OpenSteady(retained, disk, archives, rotationBytes);
    base := dir.history;
    op := new LogOperation(dir, 3, retained + 4);
    var marker := Rotating(log.generation, Marking, transaction);
    MayBegin(Last(base), dir.disk, transaction, retained);
    var s := op.Publish(marker, base);
    begun := dir.history;
    RotationBegun(base, begun, transaction, retained);
  }

  /** It dies right after the log was renamed to `.1`. */
  method DieAfterRename(retained: nat, disk: Disk, ghost archives: nat, rotationBytes: nat, transaction: nat)
      returns (dir: LogDirectory, ghost base: seq<World>)
    requires Steady(disk, archives, retained) && 1 <= rotationBytes
    ensures fresh(dir) && dir.Valid() && dir.retained == retained && dir.history != []
    ensures Rotates(base, dir.history, retained)
    ensures dir.disk.marker == Rotating(disk.marker.generation, Shifted, transaction) && 0 !in dir.disk.names
  {
    hide LogWorld.Run, LogWorld.Evolves, LogWorld.Shape, LogWorld.Names, RotationSteps.Keeps, RotationSteps.OutcomeOf;
    hide Rotates, Steady, LogWorld.Written, Refused;
    var log: RotatingLog;
    var op: LogOperation;
    ghost var begun: seq<World>;
    dir, log, op, base, begun := BeginToRotate(retained, disk, archives, rotationBytes, transaction);
    var s := op.Publish(dir.disk.marker.(phase := Closed), begun);
    s := log.ShiftArchives(op, begun);
    s := op.Publish(dir.disk.marker.(phase := Shifted), begun);
    FilesTellProgress(Last(dir.history), retained);
    s := op.Move(0, begun);
    RotationContinues(base, begun, dir.history, retained);
  }

  /** The daemon then starts the log again, and creates the next current log under the old marker. */
  method PrepareMidShift(retained: nat, disk: Disk, ghost archives: nat, rotationBytes: nat, transaction: nat)
      returns (dir: LogDirectory)
    requires Steady(disk, archives, retained) && 1 <= rotationBytes
    ensures fresh(dir) && dir.Valid() && dir.retained == retained && dir.history != []
    ensures ShowsSuccessor(dir.disk) && PreparedMidShift(Last(dir.history))
    ensures dir.disk.marker.generation == disk.marker.generation
  {
    hide LogWorld.Run, LogWorld.Evolves, LogWorld.Shape, LogWorld.Names, Rotates, PreparedMidShift;
    ghost var base: seq<World>;
    dir, base := DieAfterRename(retained, disk, archives, rotationBytes, transaction);
    SteadyHasCurrent(disk, archives, retained);
    PrepareByDaemon(dir, base, disk, true);
    PreparedIsSeen(Last(dir.history), retained);
  }

  /** A store that looks at a directory nothing changes any more. */
  method Watch(dir: LogDirectory, retainedFiles: nat, steady: bool) returns (store: ManagedLogStore)
    requires dir.Valid() && dir.history != [] && 1 <= retainedFiles
    ensures store.At(0) && store.worlds == [Last(dir.history)] && store.timeline == [dir.disk]
    ensures store.retainedFiles == retainedFiles && store.anchorRetained == dir.retained && store.steady == steady
  {
    OneWorldRun(Last(dir.history), dir.retained);
    store := new ManagedLogStore(retainedFiles, [dir.disk], steady, [Last(dir.history)], dir.retained);
  }

  lemma PreparedNames(w: World, retained: nat, next: NextCursor)
    requires Valid(w, retained) && PreparedMidShift(w) && next.generation == w.marker.generation
    requires Honest(w, next.inode, next.generation + 1)
    ensures 0 in Names(w) && 1 in Names(w) && next.inode == Names(w)[0] != Names(w)[1]
    ensures Honest(w, Names(w)[1], next.generation)
  {
  }

  lemma PreparedShows(w: World, retained: nat)
    requires Valid(w, retained) && PreparedMidShift(w)
    ensures 0 in Names(w) && 1 in Names(w) && w.marker.Rotating?
  {
  }

  /** A read without a cursor there answers with the number of the log that was just archived and with the
      inode of its empty successor. */
  method ReadAfterPreparing(retained: nat, disk: Disk, ghost archives: nat, rotationBytes: nat, transaction: nat,
                            retainedFiles: nat, maxBytes: nat, amounts: nat -> nat -> nat)
      returns (after: Disk, read: Read)
    requires Steady(disk, archives, retained) && 1 <= rotationBytes && 1 <= retainedFiles && 1 <= maxBytes
    ensures ShowsSuccessor(after) && 1 in after.names
    ensures read.Done? ==>
      && read.next.generation == disk.marker.generation
      && read.next.inode == after.names[0] != after.names[1]
  {
    hide LogWorld.Run, LogWorld.Evolves, LogWorld.Shape, LogWorld.Names, ManagedLogStore.Delivered;
    hide ManagedLogStore.Frozen, ManagedLogStore.InReach, ManagedLogStore.Returned, LogWorld.Valid, PreparedMidShift;
    var dir := PrepareMidShift(retained, disk, archives, rotationBytes, transaction);
    after := dir.disk;
    var store := Watch(dir, retainedFiles, false);
    var later: nat;
    ghost var since: nat;
    ghost var raw: Bytes;
    ghost var tries: nat;
    later, read, since, raw, tries := store.ReadCursor(None, maxBytes, amounts, 0);
    PreparedShows(Last(dir.history), retained);
    if read.Done? {
      PreparedNames(Last(dir.history), retained, read.next);
    }
  }

  // ----- a rotation tears a character -------------------------------------------------------------------

  /** Two segments: the first byte of a three-byte character, then its second byte. */
  ghost predicate Torn(w: World) {
    && |w.lineage| == 2 && w.origin == 0 && Held(w.content, w.lineage)
    && w.content[w.lineage[0]] == [0xE2] && w.content[w.lineage[1]] == [0x82]
  }

  /** What a log that has just been opened over an untouched directory looks like. */
  lemma OpenedEmpty(now: seq<World>, retained: nat)
    requires Keeps([Nowhere], now, retained) && Run(now, retained) && Last(now).marker == Stable(0)
    ensures |Last(now).lineage| == 1 && Last(now).origin == 0 && Written(Last(now)) == []
    ensures Oldest(Last(now)) == 0
  {
    assert now[0] == Nowhere;
    RunEvolves(now, retained, 0, |now| - 1);
    assert |OutcomeOf(Last(now), retained).archives| == 0;
  }

  /** Two bytes written through segments of one byte: one in each. */
  lemma OneByteEach(w: World, retained: nat)
    requires Valid(w, retained) && w.marker.Stable? && w.origin == 0 && Held(w.content, w.lineage)
    requires Written(w) == [0xE2, 0x82] && SealedFull(w, 0, 1)
    requires |w.content[w.lineage[|w.lineage| - 1]]| == 1
    ensures Torn(w)
  {
    OneByteSegments(w, |w.lineage|);
    var head := Span(w.content, w.lineage, 0, 1);
    assert head == [] + w.content[w.lineage[0]];
    assert Written(w) == head + w.content[w.lineage[1]];
    assert Written(w)[0] == head[0] && Written(w)[1] == w.content[w.lineage[1]][0];
  }

  lemma {:induction false} OneByteSegments(w: World, n: nat)
    requires Held(w.content, w.lineage) && n <= |w.lineage|
    requires forall i :: 0 <= i < n ==> |w.content[w.lineage[i]]| == 1
    ensures |Span(w.content, w.lineage, 0, n)| == n
  {
    if n > 0 {
      OneByteSegments(w, n - 1);
    }
  }

  lemma LastHolds(past: seq<World>, now: seq<World>, retained: nat)
    requires past != [] && past <= now && Run(now, retained)
    ensures Last(now).origin == Last(past).origin && Valid(Last(now), retained)
    ensures Held(Last(now).content, Last(now).lineage)
  {
    assert now[|past| - 1] == Last(past);
    RunEvolves(now, retained, |past| - 1, |now| - 1);
  }

  lemma UntouchedDisk(retained: nat)
    requires 1 <= retained
    ensures Valid(Nowhere, retained) && Run([Nowhere], retained) && DiskOf(Nowhere) == Disk(Absent, map[], map[])
    ensures Last([Nowhere]) == Nowhere && WellFormed(DiskOf(Nowhere)) && !Refused(DiskOf(Nowhere))
  {
    OneWorldRun(Nowhere, retained);
  }

  /** An anchor with segments of one byte opens an untouched directory. */
  method OpenFresh(retained: nat) returns (log: RotatingLog)
    requires 1 <= retained
    ensures fresh(log) && fresh(log.dir) && log.dir.retained == retained && log.rotationBytes == 1
    ensures log.Writable() && log.dir.history != [] && log.generation == 0 && log.size == 0
    ensures var w := Last(log.dir.history);
      && w.origin == 0 && w.lineage != [] && |w.lineage| == 1 && Held(w.content, w.lineage)
      && Written(w) == [] && Oldest(w) == 0
  {
    hide LogWorld.Evolves, LogWorld.Shape, LogWorld.Names, LogWorld.Valid, LogWorld.Run, RotationSteps.Keeps, Refused;
    UntouchedDisk(retained);
    var dir := new LogDirectory(retained, Disk(Absent, map[], map[]), [Nowhere]);
    log := new RotatingLog(dir, 1);
    var op := new LogOperation(dir, 5, retained + 6);
    var s := log.Initialize(op);
    KeepsNonempty([Nowhere], dir.history, retained);
    OpenedEmpty(dir.history, retained);
  }

  /** It writes those two bytes. */
  method WriteTorn(retained: nat) returns (dir: LogDirectory)
    requires 1 <= retained
    ensures fresh(dir) && dir.Valid() && dir.history != [] && dir.retained == retained
    ensures Torn(Last(dir.history)) && Oldest(Last(dir.history)) == 0 && Last(dir.history).marker.Stable?
  {
    hide LogWorld.Evolves, LogWorld.Shape, LogWorld.Names, LogWorld.Valid, LogWorld.Run, Torn, CallsFit, TurnsFit;
    hide Wrote, Held, SealedFull, Written, Oldest, Fortunate, LogWorld.DiskOf, RotatingLog.Writable;
    var log := OpenFresh(retained);
    dir := log.dir;
    ghost var before := dir.history;
    AllFortunate(retained);
    var s, calls, turns, accepted := log.Write([0xE2, 0x82], call => 1, turn => retained + 8);
    WroteHolds(Last(before), Last(dir.history), [0xE2, 0x82][..accepted], true, 1, retained, true);
    LastHolds(before, dir.history, retained);
    CurrentSize(log);
    OneByteEach(Last(dir.history), retained);
  }

  lemma CurrentSize(log: RotatingLog)
    requires log.Writable() && log.dir.history != []
    ensures log.dir.Valid() && Run(log.dir.history, log.dir.retained)
    ensures var w := Last(log.dir.history);
      && Valid(w, log.dir.retained) && w.marker.Stable? && Held(w.content, w.lineage) && w.lineage != []
      && |w.content[w.lineage[|w.lineage| - 1]]| == log.size
  {
    CurrentIsNewest(Last(log.dir.history), log.dir.disk, log.dir.retained);
  }

  lemma AllFortunate(retained: nat)
    ensures Fortunate(call => 1, turn => retained + 8, retained)
  {
  }

  lemma TornStream(w: World)
    requires Torn(w)
    ensures w.origin == 0 && Written(w) == [0xE2, 0x82] && Base(w, 0) == 0 && Base(w, 1) == 1
    ensures ValidCursor(w, Cursor(w.lineage[0], 0, Some(0)))
  {
    var head := Span(w.content, w.lineage, 0, 1);
    assert head == [] + w.content[w.lineage[0]];
    assert Written(w) == head + w.content[w.lineage[1]];
  }

  lemma NothingComplete(raw: Bytes)
    requires |raw| <= 2 && raw == [0xE2, 0x82][..|raw|]
    ensures Utf8.CompletePrefix(raw) == 0
  {
    if |raw| == 2 {
      assert raw == [0xE2, 0x82];
    } else if |raw| == 1 {
      assert raw == [0xE2];
    }
  }

  /** Whatever a read from the first byte on returns that got into the second file: its offset is -1. */
  lemma TornOffset(store: ManagedLogStore, since: nat, now: nat, content: Bytes, next: NextCursor, raw: Bytes)
    requires store.At(since) && store.At(now) && Torn(store.worlds[since]) && Torn(store.worlds[now])
    requires store.Delivered(Some(Cursor(store.worlds[since].lineage[0], 0, Some(0))), since, now, content, next, raw)
    requires store.worlds[since] == store.worlds[now]
    requires !next.truncated && next.generation == 1
    ensures content == [] && next.offset == -1
  {
    hide Torn, Base, Utf8.CompletePrefix, LogWorld.Evolves, LogWorld.Valid, ManagedLogStore.Explained;
    var w := store.worlds[now];
    TornStream(w);
    assert Position(w, Cursor(w.lineage[0], 0, Some(0))) == 0;
    assert raw == Written(w)[0..|raw|];
    NothingComplete(raw);
  }

  /** The two bytes are written by a run and read with the cursor of their beginning. A read that gets into
      the second file holds everything back, and its cursor has offset -1. */
  method ReadTorn(retained: nat, retainedFiles: nat, maxBytes: nat, amounts: nat -> nat -> nat)
      returns (cursor: Cursor, read: Read)
    requires 1 <= retained && 1 <= retainedFiles && 1 <= maxBytes
    ensures cursor.offset == 0 && cursor.generation == Some(0)
    ensures read.Done? && !read.next.truncated && read.next.generation == 1 ==>
      read.content == [] && read.next.offset == -1
  {
    hide LogWorld.Run, LogWorld.Evolves, LogWorld.Shape, LogWorld.Names, ManagedLogStore.Delivered, Torn;
    var dir := WriteTorn(retained);
    var store := Watch(dir, retainedFiles, false);
    ghost var w := Last(dir.history);
    TornStream(w);
    TornNames(w, retained);
    cursor := Cursor(dir.disk.names[1], 0, Some(0));
    var later: nat;
    ghost var since: nat;
    ghost var raw: Bytes;
    ghost var tries: nat;
    later, read, since, raw, tries := store.ReadCursor(Some(cursor), maxBytes, amounts, 0);
    if read.Done? && !read.next.truncated && read.next.generation == 1 {
      TornOffset(store, since, later, read.content, read.next, raw);
    }
  }

  lemma TornNames(w: World, retained: nat)
    requires Valid(w, retained) && w.marker.Stable? && Torn(w) && Oldest(w) == 0
    ensures 1 in Names(w) && Names(w)[1] == w.lineage[0]
  {
  }

  lemma TornIsFound(store: ManagedLogStore, maxBytes: nat, least: nat)
    requires store.At(0) && Torn(store.worlds[0]) && Oldest(store.worlds[0]) == 0 && store.worlds[0].marker.Stable?
    requires 2 <= maxBytes
    ensures var w := store.worlds[0]; var cursor := Cursor(w.lineage[0], 0, Some(0));
      && Held(w.content, w.lineage) && store.Tracked(0, cursor) && store.InReach(0, cursor)
      && FallsAt(w, IndexOf(w, 0), Position(w, cursor), maxBytes, least, IndexOf(w, 0) + 1, 1)
  {
    hide Base, Utf8.CompletePrefix;
    var w := store.worlds[0];
    TornStream(w);
    assert Position(w, Cursor(w.lineage[0], 0, Some(0))) == 0 && IndexOf(w, 0) == 0;
    assert Stretch(w, 0, 1, 1) == [0xE2, 0x82];
    NothingComplete(Stretch(w, 0, 1, 1));
  }

  /** With no check failing by chance some read does get into the second file, however many bytes a call is
      sure to get. */
  method ReadTornThrough(retained: nat, retainedFiles: nat, maxBytes: nat, least: nat)
      returns (cursor: Cursor, read: Read)
    requires 1 <= retained && 1 <= retainedFiles && 2 <= maxBytes
    ensures cursor.offset == 0 && cursor.generation == Some(0)
    ensures read.Done? && !read.next.truncated && read.content == [] && read.next.offset == -1
  {
    hide LogWorld.Run, LogWorld.Evolves, LogWorld.Shape, LogWorld.Names, ManagedLogStore.Delivered, Torn, FallsAt;
    hide ManagedLogStore.InReach, Base;
    var dir := WriteTorn(retained);
    var store := Watch(dir, retainedFiles, true);
    ghost var w := Last(dir.history);
    TornNames(w, retained);
    TornIsFound(store, maxBytes, least);
    cursor := Cursor(dir.disk.names[1], 0, Some(0));
    var later: nat;
    ghost var since: nat;
    ghost var raw: Bytes;
    later, read, since, raw := store.ReadBelowZero(cursor, maxBytes, least, 1, 1, 0);
    TornAnswer(store, since, later, read.content, read.next, raw);
  }

  lemma TornAnswer(store: ManagedLogStore, since: nat, now: nat, content: Bytes, next: NextCursor, raw: Bytes)
    requires store.At(since) && store.At(now) && Torn(store.worlds[now]) && store.worlds[since] == store.worlds[now]
    requires store.Delivered(Some(Cursor(store.worlds[since].lineage[0], 0, Some(0))), since, now, content, next, raw)
    requires !next.truncated && next.offset < 0
    ensures content == [] && next.offset == -1
  {
    hide Base, Utf8.CompletePrefix, LogWorld.Evolves, LogWorld.Valid, ManagedLogStore.Explained;
    TornStream(store.worlds[now]);
    assert next.generation == 1;
    TornOffset(store, since, now, content, next, raw);
  }
}
