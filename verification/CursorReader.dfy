/** The daemon's reader: it follows a cursor through a log that an anchor in another process appends
    to and rotates at the same time, without a lock.

    `timeline` lists the states the directory passes through. Every observation happens at some moment
    not before the previous one, chosen by an adversary. How many bytes each call of the operating system
    gets is a parameter of the read. */
module CursorReader {
  import opened Wrappers
  import opened LogWorld
  import opened CursorPositions
  import opened RotationSteps
  import opened ReadExtents
  import Utf8

  /** The cursor a read returns. `offset` is signed because the source subtracts held-back bytes from
      it without a check. */
  datatype NextCursor = NextCursor(inode: Inode, offset: int, generation: nat, rotated: bool, truncated: bool)

  datatype ReadError = IdentityChanged | Missing | NoReadableSegment
      | CursorBeyondSegment | MalformedMarker | RotatedDuringRead

  datatype Handle = Holding(inode: Inode) | NotOpened(error: ReadError)

  datatype Scan = Found(content: Bytes, next: NextCursor) | NotFound | ScanFailed(error: ReadError)

  datatype Read = Done(content: Bytes, next: NextCursor) | Failed(error: ReadError)

  /** The segment a read starts in: `difference` generations before the current one. */
  datatype Start =
      StartAt(difference: nat, inode: Inode, size: nat, position: nat, rotated: bool, truncated: bool)
    | NoStart(error: ReadError)

  /** Where a read that crosses segments has got to. */
  datatype Progress =
      Reading(difference: nat, inode: Inode, size: nat, position: nat, rotated: bool, raw: Bytes)
    | Stopped(error: ReadError)

  function TailFrom(size: nat, bound: nat): nat {
    if size > bound then size - bound else 0
  }

  predicate TailOf(file: Bytes, size: nat, raw: Bytes, maxBytes: nat, amount: nat) {
    var from := TailFrom(size, maxBytes);
    size <= |file| && |raw| == Clip(amount, size - from) && raw == file[from..from + |raw|]
  }

  class ManagedLogStore {
    /** The archives this reader looks at. The anchor may keep a different number. */
    const retainedFiles: nat
    const timeline: seq<Disk>
    /** No check that a name still leads to the opened file fails by chance. */
    const steady: bool
    ghost const worlds: seq<World>
    ghost const anchorRetained: nat

    ghost predicate Explained() {
      && 1 <= retainedFiles && 1 <= anchorRetained
      && |timeline| == |worlds|
      && (forall t :: 0 <= t < |worlds| ==> Valid(worlds[t], anchorRetained) && timeline[t] == DiskOf(worlds[t]))
      && (forall t, u :: 0 <= t <= u < |worlds| ==> Evolves(worlds[t], worlds[u]))
    }

    /** A store that watches the directory of an anchor: its timeline is any run of that directory. */
    constructor (retainedFiles: nat, timeline: seq<Disk>, steady: bool, ghost history: seq<World>,
        ghost anchorRetained: nat)
      requires 1 <= retainedFiles && 1 <= anchorRetained && Run(history, anchorRetained) && |timeline| == |history|
      requires forall t :: 0 <= t < |history| ==> Valid(history[t], anchorRetained) ==>
        timeline[t] == DiskOf(history[t])
      ensures Explained() && this.timeline == timeline && this.retainedFiles == retainedFiles
      ensures worlds == history && this.anchorRetained == anchorRetained && this.steady == steady
    {
      this.retainedFiles, this.timeline, this.steady := retainedFiles, timeline, steady;
      worlds, this.anchorRetained := history, anchorRetained;
      new;
      forall t, u | 0 <= t <= u < |history|
        ensures Valid(history[t], anchorRetained) && Evolves(history[t], history[u])
      {
        RunValid(history, anchorRetained, t);
        RunEvolves(history, anchorRetained, t, u);
      }
    }

    ghost predicate At(now: nat) {
      Explained() && now < |worlds| == |timeline|
    }

    /** The marker still reads `before` at this moment. */
    ghost predicate Calm(now: nat, before: Marker)
      requires At(now)
    {
      View(worlds[now].marker) == before
    }

    /** The cursor is one this log produced: it names its segment by generation. */
    ghost predicate Tracked(now: nat, cursor: Cursor)
      requires At(now)
    {
      ValidCursor(worlds[now], cursor)
    }

    /** From this moment on nothing changes, and no check fails by chance. */
    ghost predicate Frozen(now: nat) {
      At(now) && steady && forall t :: now <= t < |worlds| ==> worlds[t] == worlds[now]
    }

    lemma FrozenDisk(now: nat, later: nat)
      requires Frozen(now) && now <= later && At(later)
      ensures Frozen(later) && steady && worlds[later] == worlds[now] && timeline[later] == timeline[now]
    {
    }

    /** The cursor's segment is still linked, and no further back than the reader looks, under a plain
        number. */
    ghost predicate InReach(now: nat, cursor: Cursor)
      requires At(now) && Tracked(now, cursor)
    {
      var w := worlds[now];
      var i := IndexOf(w, cursor.generation.value);
      View(w.marker).Stable? && Oldest(w) <= i && |w.lineage| - 1 - i <= retainedFiles
    }

    // ----- observations ---------------------------------------------------------------------------

    method Later(now: nat) returns (later: nat)
      requires At(now)
      ensures now <= later && At(later)
    {
      later :| now <= later < |timeline|;
    }

    /** Opening a segment by name and checking that the name still leads to the opened file. */
    method OpenSegment(slot: nat, now: nat) returns (later: nat, handle: Handle)
      requires At(now)
      ensures now <= later && At(later)
      ensures handle.Holding? ==> slot in timeline[later].names && timeline[later].names[slot] == handle.inode
      ensures handle == NotOpened(Missing) ==> slot !in timeline[later].names
      ensures handle.NotOpened? ==> handle.error in {Missing, IdentityChanged}
      ensures steady ==> handle != NotOpened(IdentityChanged)
    {
      later := Later(now);
      var suspicious: bool := *;
      if slot !in timeline[later].names {
        handle := NotOpened(Missing);
      } else if suspicious && !steady {
        handle := NotOpened(IdentityChanged);
      } else {
        handle := Holding(timeline[later].names[slot]);
      }
    }

    method Size(inode: Inode, now: nat) returns (later: nat, size: nat)
      requires At(now) && inode in timeline[now].content && inode in worlds[now].lineage
      ensures now <= later && At(later)
      ensures inode in timeline[later].content && size == |timeline[later].content[inode]|
    {
      later := Later(now);
      LinkedStays(now, later, inode);
      size := |timeline[later].content[inode]|;
    }

    /** Reads up to `length` bytes at `position`, as many as the call gets; the file holds at least `length`. */
    method ReadAt(inode: Inode, position: nat, length: nat, amount: nat, now: nat) returns (later: nat, piece: Bytes)
      requires At(now) && inode in worlds[now].lineage
      requires inode in timeline[now].content && position + length <= |timeline[now].content[inode]|
      ensures now <= later && At(later) && |piece| == Clip(amount, length)
      ensures inode in timeline[later].content && position + |piece| <= |timeline[later].content[inode]|
      ensures piece == timeline[later].content[inode][position..position + |piece|]
    {
      later := Later(now);
      LinkedStays(now, later, inode);
      piece := timeline[later].content[inode][position..position + Clip(amount, length)];
    }

    method ReadMarker(now: nat) returns (later: nat, marker: Option<Marker>)
      requires At(now)
      ensures now <= later && At(later)
      ensures marker.Some? ==>
        marker.value == View(worlds[later].marker) && !marker.value.Malformed? && !marker.value.Absent?
      ensures steady ==> marker.Some?
    {
      later := Later(now);
      var unreadable: bool := *;
      if unreadable && !steady {
        marker := None;
      } else {
        marker := Some(View(timeline[later].marker));
      }
    }

    /** An inode once in the lineage keeps its place and its bytes. */
    lemma LinkedStays(now: nat, later: nat, inode: Inode)
      requires At(now) && now <= later && At(later) && inode in worlds[now].lineage
      ensures inode in worlds[later].lineage
      ensures inode in timeline[now].content && inode in timeline[later].content
      ensures timeline[now].content[inode] <= timeline[later].content[inode]
    {
    }

    lemma Explains(t: nat)
      requires At(t)
      ensures Valid(worlds[t], anchorRetained) && timeline[t].content == worlds[t].content
      ensures Held(worlds[t].content, worlds[t].lineage)
    {
    }

    lemma NamedIsLinked(now: nat, slot: nat)
      requires At(now) && slot in timeline[now].names
      ensures timeline[now].names[slot] in worlds[now].lineage
      ensures timeline[now].names[slot] in timeline[now].content
    {
    }

    // ----- following a cursor through a rotation --------------------------------------------------

    /** Looks for the cursor's own file under every name, lowest first. The scan cannot miss a file that
        moves up while it runs: if it finds nothing, the file is in no slot it looked at, and with as
        many slots as the anchor keeps it is unlinked. What it finds continues the stream exactly at the
        cursor. */
    method ReadRotatingCursor(cursor: Cursor, maxBytes: nat, amount: nat, now: nat)
        returns (later: nat, scan: Scan, ghost raw: Bytes)
      requires At(now) && 1 <= maxBytes
      ensures now <= later && At(later)
      ensures scan.Found? ==> |raw| <= maxBytes && scan.next.inode == cursor.inode
      ensures scan.Found? ==> scan.next.generation == if cursor.generation.Some? then cursor.generation.value else 0
      ensures scan.Found? ==> FoundIn(now, later, scan.next)
      ensures scan.Found? && Tracked(now, cursor) ==>
        && !scan.next.truncated && scan.next.inode == cursor.inode && scan.next.generation == cursor.generation.value
        && scan.content == raw[..Utf8.CompletePrefix(raw)]
        && scan.next.offset == cursor.offset + |scan.content|
        && Delivers(worlds[later], raw, cursor.inode, cursor.generation.value, cursor.offset + |raw|)
      ensures scan.NotFound? && Tracked(now, cursor) ==>
        var i := IndexOf(worlds[now], cursor.generation.value);
        PastSlots(worlds[later], i, retainedFiles + 1)
        && (anchorRetained <= retainedFiles ==> i < Oldest(worlds[later]))
      ensures steady && scan.ScanFailed? ==> scan.error != IdentityChanged
      ensures scan.ScanFailed? ==>
        scan.error == IdentityChanged || (scan.error == CursorBeyondSegment && !Tracked(now, cursor))
    {
      hide LogWorld.Evolves, LogWorld.Valid, CursorPositions.Delivers, LogWorld.Names, CursorPositions.PastSlots,
        OpenedIn;
      later, raw := now, [];
      ghost var tracked := Tracked(now, cursor);
      ghost var i := if tracked then IndexOf(worlds[now], cursor.generation.value) else 0;
      if tracked {
        PastNone(now, i);
      }
      var suffix := 0;
      while suffix <= retainedFiles
        invariant now <= later && At(later) && suffix <= retainedFiles + 1
        invariant tracked ==> ValidCursor(worlds[later], cursor) && i == IndexOf(worlds[later], cursor.generation.value)
        invariant tracked ==> PastSlots(worlds[later], i, suffix)
      {
        ghost var before := later;
        var handle: Handle;
        later, handle := OpenSegment(suffix, later);
        if tracked {
          ScanStays(cursor, now, before, later, i, suffix);
        }
        if handle.Holding? && handle.inode == cursor.inode {
          ghost var seen := later;
          later, scan, raw := ReadFoundSegment(cursor, suffix, maxBytes, amount, later);
          IsOpenedIn(now, seen, later, suffix, cursor.inode);
          return;
        }
        if handle == NotOpened(IdentityChanged) { return later, ScanFailed(IdentityChanged), []; }
        if tracked {
          ScanMissed(cursor, later, i, suffix);
        }
        suffix := suffix + 1;
      }
      if tracked {
        CursorStays(cursor, now, later);
        Explains(later);
        if anchorRetained <= retainedFiles {
          PastAllSlotsIsGone(worlds[later], i, anchorRetained, retainedFiles);
        }
      }
      scan := NotFound;
    }

    lemma PastNone(now: nat, i: int)
      requires At(now) && 0 <= i < |worlds[now].lineage|
      ensures PastSlots(worlds[now], i, 0)
    {
    }

    lemma ScanStays(cursor: Cursor, now: nat, before: nat, later: nat, i: int, suffix: nat)
      requires now <= before <= later && At(now) && At(before) && At(later)
      requires ValidCursor(worlds[before], cursor) && i == IndexOf(worlds[before], cursor.generation.value)
      requires PastSlots(worlds[before], i, suffix)
      ensures ValidCursor(worlds[later], cursor) && i == IndexOf(worlds[later], cursor.generation.value)
      ensures PastSlots(worlds[later], i, suffix)
    {
      CursorStays(cursor, before, later);
      PastSlotsStays(worlds[before], worlds[later], i, suffix);
    }

    lemma ScanMissed(cursor: Cursor, now: nat, i: int, suffix: nat)
      requires At(now) && ValidCursor(worlds[now], cursor) && i == IndexOf(worlds[now], cursor.generation.value)
      requires PastSlots(worlds[now], i, suffix)
      requires suffix !in timeline[now].names || timeline[now].names[suffix] != cursor.inode
      ensures PastSlots(worlds[now], i, suffix + 1)
    {
      PastNextSlot(worlds[now], i, suffix, anchorRetained);
    }

    lemma CursorStays(cursor: Cursor, now: nat, later: nat)
      requires At(now) && now <= later && At(later) && ValidCursor(worlds[now], cursor)
      ensures ValidCursor(worlds[later], cursor) && worlds[later].origin == worlds[now].origin
      ensures Held(worlds[now].content, worlds[now].lineage) && Held(worlds[later].content, worlds[later].lineage)
      ensures Position(worlds[later], cursor) == Position(worlds[now], cursor)
    {
      PositionStays(worlds[now], worlds[later], cursor);
    }

    /** Reads on in the cursor's file, found in slot `suffix`. */
    method ReadFoundSegment(cursor: Cursor, suffix: nat, maxBytes: nat, amount: nat, now: nat)
        returns (later: nat, scan: Scan, ghost raw: Bytes)
      requires At(now) && 1 <= maxBytes && suffix in timeline[now].names && timeline[now].names[suffix] == cursor.inode
      ensures now <= later && At(later)
      ensures !scan.NotFound?
      ensures scan.Found? ==> (scan.next.rotated <==> suffix != 0)
      ensures scan.ScanFailed? ==> scan.error == CursorBeyondSegment && !Tracked(now, cursor)
      ensures scan.Found? ==> |raw| <= maxBytes && scan.next.inode == cursor.inode
      ensures scan.Found? ==> scan.next.generation == if cursor.generation.Some? then cursor.generation.value else 0
      ensures scan.Found? && Tracked(now, cursor) ==>
        && !scan.next.truncated && scan.next.inode == cursor.inode && scan.next.generation == cursor.generation.value
        && scan.content == raw[..Utf8.CompletePrefix(raw)]
        && scan.next.offset == cursor.offset + |scan.content|
        && Delivers(worlds[later], raw, cursor.inode, cursor.generation.value, cursor.offset + |raw|)
    {
      hide LogWorld.Evolves, LogWorld.Valid, CursorPositions.Delivers, LogWorld.Names, LogWorld.DiskOf;
      ghost var tracked := Tracked(now, cursor);
      raw := [];
      NamedIsLinked(now, suffix);
      var size: nat;
      later, size := Size(cursor.inode, now);
      LinkedStays(now, later, cursor.inode);
      if tracked {
        CursorStays(cursor, now, later);
        Explains(later);
      }
      if cursor.offset > size { return later, ScanFailed(CursorBeyondSegment), raw; }
      var length := Min(size - cursor.offset, maxBytes);
      ghost var sized := later;
      var piece: Bytes;
      later, piece := ReadAt(cursor.inode, cursor.offset, length, amount, later);
      raw := piece;
      if tracked {
        CursorStays(cursor, now, later);
        Explains(later);
        PieceDelivers(worlds[later], cursor, piece);
      }
      var emitted := Utf8.CompleteUtf8PrefixLength(piece);
      var generation := if cursor.generation.Some? then cursor.generation.value else 0;
      scan := Found(piece[..emitted],
        NextCursor(cursor.inode, cursor.offset + emitted, generation, suffix != 0, false));
    }

    lemma PieceDelivers(w: World, cursor: Cursor, piece: Bytes)
      requires Held(w.content, w.lineage) && ValidCursor(w, cursor)
      requires cursor.offset + |piece| <= |w.content[cursor.inode]|
      requires piece == w.content[cursor.inode][cursor.offset..cursor.offset + |piece|]
      ensures Delivers(w, piece, cursor.inode, cursor.generation.value, cursor.offset + |piece|)
    {
      hide Delivers;
      DeliversNothing(w, cursor.inode, cursor.generation.value, cursor.offset);
      DeliversMore(w, [], cursor.inode, cursor.generation.value, cursor.offset, piece);
      assert [] + piece == piece;
    }

    // ----- reading by generation number ---------------------------------------------------------------

    /** From `since` to `now` the marker read `before` throughout, and the directory was not caught
        between the daemon's preparation and the marker that follows it. */
    ghost predicate Quiet(since: nat, now: nat, before: Marker) {
      && since <= now && At(since) && At(now)
      && Calm(since, before) && Calm(now, before)
      && !PreparedMidShift(worlds[now])
    }

    lemma QuietBetween(since: nat, mid: nat, now: nat, before: Marker)
      requires since <= mid <= now && Quiet(since, now, before)
      ensures Quiet(since, mid, before) && Quiet(mid, now, before)
    {
      hide LogWorld.Valid, LogWorld.Evolves, PreparedMidShift, View;
      QuietInBetween(worlds[since], worlds[mid], worlds[now], anchorRetained);
    }

    /** Which name stands for the log of the marker's generation while a rotation is under way. */
    method ResolveRotationSnapshot(before: Marker, now: nat)
        returns (later: nat, currentSlot: nat, error: Option<ReadError>)
      requires At(now) && before.Rotating? && Calm(now, before)
      ensures now <= later && At(later)
      ensures error.None? && Quiet(now, later, before) ==> SlotFits(before, currentSlot)
      ensures error.None? ==> currentSlot <= 1
      ensures error.None? && PreparedMidShift(worlds[now]) && Calm(later, before) ==> currentSlot == 0
      ensures error.Some? ==> error.value == NoReadableSegment && !Calm(later, before)
      ensures Frozen(now) ==> error.None? && currentSlot in timeline[now].names
    {
      currentSlot := if before.phase == Archived || before.phase == Opened then 1 else 0;
      error := None;
      later := Later(now);
      ghost var looked := later;
      if currentSlot !in timeline[later].names {
        if PreparedMidShift(worlds[now]) && Calm(looked, before) {
          PreparedStays(worlds[now], worlds[looked], anchorRetained);
        }
        var fallback := 1 - currentSlot;
        later := Later(later);
        if fallback !in timeline[later].names { error := Some(NoReadableSegment); }
        currentSlot := fallback;
        if Calm(later, before) {
          OneOfTwoNamesStays(before, now, looked, later);
        }
      }
    }

    /** While a rotation stays in one phase, its log does not disappear between two looks at its two
        names. */
    lemma OneOfTwoNamesStays(before: Marker, now: nat, looked: nat, later: nat)
      requires At(now) && now <= looked <= later && At(looked) && At(later)
      requires before.Rotating? && Calm(now, before) && Calm(later, before)
      requires var slot := if before.phase == Archived || before.phase == Opened then 1 else 0;
               slot !in timeline[looked].names
      ensures before.phase == Shifted && 1 in timeline[later].names
    {
      var a, b, c := worlds[now], worlds[looked], worlds[later];
      assert Valid(b, anchorRetained) && Valid(c, anchorRetained) && Evolves(a, b) && Evolves(b, c);
      SameViewBetween(a, b, c);
      assert 0 <= Top(b) == Top(c) < |b.lineage|;
      assert Slot(b, Top(b)) <= Slot(c, Top(b));
    }

    /** At some moment in between the file had this size. */
    ghost predicate WasSize(since: nat, now: nat, inode: Inode, size: nat) {
      At(now) && exists t :: since <= t <= now && inode in timeline[t].content && |timeline[t].content[inode]| == size
    }

    lemma IsWasSize(since: nat, sized: nat, now: nat, inode: Inode, size: nat)
      requires since <= sized <= now && At(sized) && At(now)
      requires inode in timeline[sized].content && |timeline[sized].content[inode]| == size
      ensures WasSize(since, now, inode, size)
    {
    }

    /** The read begins so that it ends with the file as large as it was found. */
    predicate AtTail(start: Start, maxBytes: nat) {
      start.StartAt? && start.difference == 0 && start.position == TailFrom(start.size, maxBytes)
    }

    /** What a read without a cursor returns, or one whose cursor was lost: it goes by a size the file had meanwhile,
        begins as far before that as it may, and reads on as far as its one call gets. */
    ghost predicate TailRead(since: nat, later: nat, content: Bytes, next: NextCursor, raw: Bytes, maxBytes: nat,
        amount: nat) {
      && At(since) && At(later) && next.inode in worlds[later].lineage && next.inode in timeline[later].content
      && next.generation == MarkerGeneration(worlds[since].marker) && content == raw[..Utf8.CompletePrefix(raw)]
      && exists size: nat ::
           WasSize(since, later, next.inode, size) && next.offset == TailFrom(size, maxBytes) + |content|
           && TailOf(timeline[later].content[next.inode], size, raw, maxBytes, amount)
    }

    lemma IsTailRead(since: nat, now: nat, sized: nat, later: nat, content: Bytes, next: NextCursor, raw: Bytes,
        maxBytes: nat, amount: nat, size: nat)
      requires At(since) && since <= now <= sized <= later && At(later)
      requires next.inode in worlds[later].lineage && next.inode in timeline[later].content
      requires next.generation == MarkerGeneration(worlds[since].marker) && content == raw[..Utf8.CompletePrefix(raw)]
      requires WasSize(now, sized, next.inode, size) && next.offset == TailFrom(size, maxBytes) + |content|
      requires TailOf(timeline[later].content[next.inode], size, raw, maxBytes, amount)
      ensures TailRead(since, later, content, next, raw, maxBytes, amount)
    {
      hide LogWorld.Evolves, LogWorld.Valid, LogWorld.DiskOf, Utf8.CompletePrefix;
      var t :| now <= t <= sized && next.inode in timeline[t].content && |timeline[t].content[next.inode]| == size;
      IsWasSize(since, t, later, next.inode, size);
    }

    lemma TailReadLater(since: nat, was: nat, later: nat, content: Bytes, next: NextCursor, raw: Bytes, maxBytes: nat,
        amount: nat)
      requires TailRead(since, was, content, next, raw, maxBytes, amount) && was <= later && At(later)
      ensures TailRead(since, later, content, next, raw, maxBytes, amount)
    {
      hide LogWorld.Evolves, LogWorld.Valid, LogWorld.DiskOf, Utf8.CompletePrefix;
      LinkedStays(was, later, next.inode);
      var size: nat :|
        WasSize(since, was, next.inode, size) && next.offset == TailFrom(size, maxBytes) + |content|
        && TailOf(timeline[was].content[next.inode], size, raw, maxBytes, amount);
      var t :| since <= t <= was && next.inode in timeline[t].content && |timeline[t].content[next.inode]| == size;
      IsWasSize(since, t, later, next.inode, size);
    }

    /** The segment a cursor read starts in. */
    ghost predicate StartsRight(w: World, before: Marker, g: nat, difference: nat, inode: Inode, size: nat,
        position: nat) {
      && difference <= g && Honest(w, inode, g - difference)
      && inode in w.content && position <= size <= |w.content[inode]|
      && (difference > 0 ==> before.Stable? && size == |w.content[inode]|)
    }

    lemma HonestSource(since: nat, named: nat, later: nat, before: Marker, source: nat, difference: nat,
        currentSlot: nat)
      requires named <= later && Quiet(since, later, before) && since <= named
      requires source in timeline[named].names && source == (if difference == 0 then currentSlot else difference)
      requires difference <= MarkerGeneration(before) && SlotFits(before, currentSlot)
      requires before.Stable? || difference == 0
      requires before.Stable? || before.Rotating?
      ensures Honest(worlds[later], timeline[named].names[source], MarkerGeneration(before) - difference)
    {
      hide LogWorld.Valid, LogWorld.Evolves, LogWorld.Names, LogWorld.Shape, PreparedMidShift, SlotFits;
      QuietBetween(since, named, later, before);
      Explains(named);
      Explains(later);
      var w := worlds[named];
      if before.Stable? {
        StableSource(before, source, difference, currentSlot);
        StableNames(w, before.generation, source, anchorRetained);
      } else {
        CurrentNames(w, source, anchorRetained);
      }
      BaseKeeps(w, worlds[later], Names(w)[source], MarkerGeneration(before) - difference);
    }

    lemma StableSource(before: Marker, source: nat, difference: nat, currentSlot: nat)
      requires before.Stable? && SlotFits(before, currentSlot)
      requires source == (if difference == 0 then currentSlot else difference)
      ensures source == difference
    {
    }

    /** While the marker reads one plain number, archives do not grow. */
    lemma ArchivesAreSealed(since: nat, sized: nat, later: nat, before: Marker, difference: nat, inode: Inode)
      requires sized <= later && Quiet(since, later, before) && since <= sized && before.Stable?
      requires 0 < difference <= before.generation && Honest(worlds[later], inode, before.generation - difference)
      ensures inode in worlds[sized].content && inode in worlds[later].content
      ensures worlds[later].content[inode] == worlds[sized].content[inode]
    {
      QuietBetween(since, sized, later, before);
      assert IndexOf(worlds[later], before.generation) == |worlds[later].lineage| - 1;
      hide LogWorld.Valid, LogWorld.Evolves, PreparedMidShift, View;
      SealedUnderPlainNumber(worlds[sized], worlds[later], anchorRetained,
        IndexOf(worlds[later], before.generation - difference));
    }

    /** Opens the numbered segment and takes its size. */
    method OpenSized(source: nat, now: nat)
        returns (later: nat, handle: Handle, size: nat, ghost named: nat, ghost sized: nat)
      requires At(now)
      ensures now <= named <= sized <= later && At(named) && At(sized) && At(later)
      ensures handle.NotOpened? ==> handle.error in {Missing, IdentityChanged}
      ensures steady ==> handle != NotOpened(IdentityChanged)
      ensures handle == NotOpened(Missing) ==> source !in timeline[named].names
      ensures handle.Holding? ==>
        && source in timeline[named].names && timeline[named].names[source] == handle.inode
        && handle.inode in worlds[later].lineage
        && handle.inode in timeline[sized].content && size == |timeline[sized].content[handle.inode]|
        && handle.inode in timeline[later].content && size <= |timeline[later].content[handle.inode]|
      ensures Frozen(now) ==>
        && (handle.Holding? <==> source in timeline[now].names)
        && (handle.Holding? ==>
              && handle.inode == timeline[now].names[source] && handle.inode in timeline[now].content
              && size == |timeline[now].content[handle.inode]|)
    {
      hide LogWorld.Evolves, LogWorld.Valid, LogWorld.Names, LogWorld.DiskOf, Explained, Frozen;
      later, handle := OpenSegment(source, now);
      named, sized, size := later, later, 0;
      if handle.Holding? {
        NamedIsLinked(later, source);
        later, size := Size(handle.inode, later);
        sized := later;
        LinkedStays(named, later, handle.inode);
      }
      if Frozen(now) {
        FrozenDisk(now, named);
        FrozenDisk(now, sized);
      }
    }

    /** The opened segment is the one the number was meant for, and an archive is complete. */
    lemma OpenedRight(since: nat, named: nat, sized: nat, later: nat, before: Marker, source: nat, difference: nat,
        currentSlot: nat,
                      inode: Inode, size: nat, position: nat)
      requires since <= named <= sized <= later && Quiet(since, later, before) && (before.Stable? || before.Rotating?)
      requires source in timeline[named].names && timeline[named].names[source] == inode
      requires source == (if difference == 0 then currentSlot else difference)
      requires difference <= MarkerGeneration(before) && SlotFits(before, currentSlot)
      requires (before.Stable? || difference == 0)
      requires inode in timeline[sized].content && size == |timeline[sized].content[inode]| && position <= size
      requires inode in timeline[later].content && size <= |timeline[later].content[inode]|
      ensures StartsRight(worlds[later], before, MarkerGeneration(before), difference, inode, size, position)
    {
      hide LogWorld.Evolves, LogWorld.Names;
      HonestSource(since, named, later, before, source, difference, currentSlot);
      Explains(later);
      Explains(sized);
      if difference > 0 {
        ArchivesAreSealed(since, sized, later, before, difference, inode);
      }
    }

    /** During a rotation nothing opened is the file the scan has just missed. */
    lemma ScannedFileIsNotOpened(cursor: Cursor, since: nat, scanned: nat, named: nat, source: nat)
      requires At(since) && since <= scanned <= named && At(scanned) && At(named) && Tracked(since, cursor)
      requires PastSlots(worlds[scanned], IndexOf(worlds[since], cursor.generation.value), retainedFiles + 1)
      requires source <= retainedFiles && source in timeline[named].names
      ensures timeline[named].names[source] != cursor.inode
    {
      var i := IndexOf(worlds[since], cursor.generation.value);
      CursorStays(cursor, since, scanned);
      CursorStays(cursor, scanned, named);
      PastSlotsStays(worlds[scanned], worlds[named], i, retainedFiles + 1);
      var w := worlds[named];
      assert Valid(w, anchorRetained);
      if timeline[named].names[source] == cursor.inode {
        InodeDeterminesSlot(w, source, i);
      }
    }

    /** What is known about the cursor when a read by generation number begins: during a rotation the
        scan at moment `scanned` did not find its file. */
    ghost predicate Prepared(before: Marker, cursor: Option<Cursor>, currentSlot: nat, since: nat, scanned: nat,
        now: nat) {
      && since <= scanned <= now && At(since) && At(scanned) && At(now)
      && (before.Stable? || before.Rotating?) && currentSlot <= 1
      && (Quiet(since, now, before) ==> SlotFits(before, currentSlot))
      && (cursor.Some? && Tracked(since, cursor.value) && before.Rotating? ==>
            PastSlots(worlds[scanned], IndexOf(worlds[since], cursor.value.generation.value), retainedFiles + 1))
    }

    /** At some moment in between the slot named this file. */
    ghost predicate OpenedIn(since: nat, now: nat, slot: nat, inode: Inode) {
      At(now) && exists t :: since <= t <= now && slot in timeline[t].names && timeline[t].names[slot] == inode
    }

    lemma IsOpenedIn(since: nat, named: nat, now: nat, slot: nat, inode: Inode)
      requires since <= named <= now && At(named) && At(now)
      requires slot in timeline[named].names && timeline[named].names[slot] == inode
      ensures OpenedIn(since, now, slot, inode)
    {
    }

    /** The file was found under a name in between, and `rotated` says whether that was an archive's. */
    ghost predicate FoundIn(since: nat, now: nat, next: NextCursor) {
      exists slot: nat ::
        slot <= retainedFiles && OpenedIn(since, now, slot, next.inode) && (next.rotated <==> slot != 0)
    }

    lemma FoundInLater(since: nat, from: nat, was: nat, now: nat, next: NextCursor)
      requires since <= from <= was <= now && At(now) && FoundIn(from, was, next)
      ensures FoundIn(since, now, next)
    {
      var slot: nat :| slot <= retainedFiles && OpenedIn(from, was, slot, next.inode) && (next.rotated <==> slot != 0);
      assert OpenedIn(since, now, slot, next.inode);
    }

    /** Whether a rotation has come between the cursor and the answer: never without a cursor, always when its file
        was lost; else the marker's number tells, and during a rotation the name the file was found under. */
    ghost predicate RotatedRight(since: nat, now: nat, cursor: Option<Cursor>, next: NextCursor)
      requires At(since)
    {
      if cursor.None? || next.truncated then next.rotated <==> cursor.Some?
      else if View(worlds[since].marker).Rotating? then FoundIn(since, now, next)
      else next.rotated <==> cursor.value.generation != Some(MarkerGeneration(worlds[since].marker))
    }

    ghost predicate Followed(since: nat, cursor: Option<Cursor>)
      requires At(since)
    {
      cursor.None? || Tracked(since, cursor.value)
    }

    /** The directory stands still under the plain number `before`, and the read goes by the current names. */
    ghost predicate Still(since: nat, before: Marker, currentSlot: nat) {
      Frozen(since) && Calm(since, before) && before.Stable? && currentSlot == 0
    }

    /** Under a plain number a segment in reach is found by its number. */
    lemma ReachedByNumber(now: nat, cursor: Cursor, before: Marker)
      requires At(now) && Tracked(now, cursor) && Calm(now, before) && before.Stable?
      ensures var w := worlds[now]; var d := MarkerGeneration(before) - cursor.generation.value;
        && Held(w.content, w.lineage)
        && 0 <= d == |w.lineage| - 1 - IndexOf(w, cursor.generation.value)
        && (InReach(now, cursor) <==> d <= retainedFiles && d in timeline[now].names)
        && (d in timeline[now].names ==>
              && timeline[now].names[d] == cursor.inode && cursor.inode in timeline[now].content
              && cursor.offset <= |timeline[now].content[cursor.inode]|
                 == SizeOf(w, IndexOf(w, cursor.generation.value)))
    {
    }

    lemma ReachedByStillNumber(since: nat, now: nat, cursor: Cursor, before: Marker, currentSlot: nat)
      requires Still(since, before, currentSlot) && since <= now && At(now) && Tracked(since, cursor)
      ensures var w := worlds[since]; var d := MarkerGeneration(before) - cursor.generation.value;
        && Frozen(now) && timeline[now] == timeline[since] && currentSlot == 0 && before.Stable? && 0 <= d
        && (InReach(since, cursor) <==> d <= retainedFiles && d in timeline[now].names)
        && (d in timeline[now].names ==>
              && timeline[now].names[d] == cursor.inode && cursor.inode in timeline[now].content
              && cursor.offset <= |timeline[now].content[cursor.inode]|)
    {
      ReachedByNumber(since, cursor, before);
      FrozenDisk(since, now);
    }

    /** Decides where a read by generation number starts. If the read turns out to have been quiet, the
        segment is the one its generation says; and unless the result is flagged truncated it is the
        cursor's own segment, at the cursor's offset. */
    method ChooseStart(before: Marker, cursor: Option<Cursor>, maxBytes: nat, currentSlot: nat, now: nat,
        ghost since: nat, ghost scanned: nat)
        returns (later: nat, start: Start)
      requires Prepared(before, cursor, currentSlot, since, scanned, now)
      ensures now <= later && At(later)
      ensures start.NoStart? ==> start.error in {Missing, IdentityChanged}
      ensures start.StartAt? && before.Rotating? && cursor.Some? && Tracked(since, cursor.value) ==> start.truncated
      ensures start.StartAt? ==> WasSize(now, later, start.inode, start.size)
      // Without a cursor, or with a lost one, the read begins at the tail.
      ensures start.StartAt? && Followed(since, cursor) && (cursor.None? || start.truncated) ==>
        cursor.None? || before.Rotating? || Quiet(since, later, before) ==>
          AtTail(start, maxBytes) && (cursor.Some? ==> start.rotated)
      ensures start.StartAt? && (cursor.None? || !start.truncated) ==>
        (start.rotated <==> cursor.Some? && start.difference != 0)
      ensures Frozen(now) && currentSlot in timeline[now].names ==> start.StartAt?
      ensures start.StartAt? ==>
        && start.inode in worlds[later].lineage && start.inode in timeline[later].content
        && start.position <= start.size <= |timeline[later].content[start.inode]|
        && start.difference <= MarkerGeneration(before) && start.difference <= retainedFiles
      ensures start.StartAt? && Followed(since, cursor) && (cursor.None? || before.Rotating?) ==>
        start.difference == 0 && OpenedIn(now, later, currentSlot, start.inode)
      ensures start.StartAt? && Quiet(since, later, before) && Followed(since, cursor) ==>
        StartsRight(worlds[later], before, MarkerGeneration(before), start.difference,
          start.inode, start.size, start.position)
      ensures start.StartAt? && !start.truncated && Quiet(since, later, before) && cursor.Some? ==>
        (Tracked(since, cursor.value) ==>
           && start.inode == cursor.value.inode && start.position == cursor.value.offset
           && MarkerGeneration(before) - start.difference == cursor.value.generation.value)
      ensures cursor.Some? && Tracked(since, cursor.value) && Still(since, before, currentSlot) ==>
        && (InReach(since, cursor.value) ==>
              && start.StartAt? && !start.truncated
              && start.difference == MarkerGeneration(before) - cursor.value.generation.value
              && start.inode == cursor.value.inode && start.position == cursor.value.offset
              && start.inode in timeline[since].content && start.size == |timeline[since].content[start.inode]|)
        && (start.StartAt? && !start.truncated ==> InReach(since, cursor.value))
    {
      hide LogWorld.Evolves, LogWorld.Valid, LogWorld.Names, LogWorld.DiskOf, PreparedMidShift, SlotFits, StartsRight;
      hide PastSlots, Quiet, Honest, Explained, Frozen, Still, InReach, OpenedIn;
      if cursor.Some? && Tracked(since, cursor.value) && Still(since, before, currentSlot) {
        ReachedByStillNumber(since, now, cursor.value, before, currentSlot);
      }
      var difference: nat;
      var truncated: bool;
      var handle: Handle;
      var size: nat;
      ghost var named: nat;
      ghost var sized: nat;
      ghost var missed: nat;
      later, difference, truncated, handle, size, named, sized, missed
        := OpenByNumber(before, cursor, currentSlot, now);
      if handle.NotOpened? { return later, NoStart(handle.error); }
      if cursor.None? || (handle.inode == cursor.value.inode && cursor.value.offset <= size) {
        var position := if cursor.None? then (if size > maxBytes then size - maxBytes else 0) else cursor.value.offset;
        start := StartAt(difference, handle.inode, size, position, cursor.Some? && difference != 0, truncated);
        IsOpenedIn(now, named, later, if difference == 0 then currentSlot else difference, handle.inode);
        IsWasSize(now, sized, later, handle.inode, size);
        if cursor.Some? && truncated && Tracked(since, cursor.value) && Quiet(since, later, before) {
          LostIsElsewhere(before, cursor.value, currentSlot, since, scanned, now, missed, named, later, difference,
            handle.inode);
        }
        StartIsRight(before, cursor, currentSlot, since, scanned, now, named, sized, later, start);
      } else {
        if Frozen(now) {
          FrozenDisk(now, later);
        }
        later, handle, size, named, sized := OpenSized(currentSlot, later);
        if handle.NotOpened? { return later, NoStart(handle.error); }
        start := StartAt(0, handle.inode, size, if size > maxBytes then size - maxBytes else 0, true, true);
        IsOpenedIn(now, named, later, currentSlot, handle.inode);
        IsWasSize(now, sized, later, handle.inode, size);
        StartIsRight(before, cursor, currentSlot, since, scanned, now, named, sized, later, start);
      }
    }

    /** How far back the cursor's segment is, by its number. */
    function Wanted(before: Marker, cursor: Option<Cursor>): nat {
      var current := MarkerGeneration(before);
      var number := if cursor.Some? && cursor.value.generation.Some? then cursor.value.generation.value else current;
      if current > number then current - number else 0
    }

    /** Opens the segment the cursor's number leads to, or the oldest one the reader looks at, or else the current
        log. */
    method OpenByNumber(before: Marker, cursor: Option<Cursor>, currentSlot: nat, now: nat)
        returns (later: nat, difference: nat, truncated: bool, handle: Handle, size: nat,
                 ghost named: nat, ghost sized: nat, ghost missed: nat)
      requires At(now)
      ensures now <= named <= sized <= later && now <= missed <= later
      ensures At(named) && At(sized) && At(later) && At(missed)
      ensures difference <= MarkerGeneration(before) && difference <= retainedFiles
      ensures !truncated ==> difference == Wanted(before, cursor)
      ensures truncated && difference == Wanted(before, cursor) ==>
        difference == 0 && currentSlot !in timeline[missed].names
      ensures difference != 0 ==> Wanted(before, cursor) != 0
      ensures handle.NotOpened? ==> handle.error in {Missing, IdentityChanged}
      ensures handle.Holding? ==>
        && (var source := if difference == 0 then currentSlot else difference;
            source in timeline[named].names && timeline[named].names[source] == handle.inode)
        && handle.inode in worlds[later].lineage
        && handle.inode in timeline[sized].content && size == |timeline[sized].content[handle.inode]|
        && handle.inode in timeline[later].content && size <= |timeline[later].content[handle.inode]|
      ensures Frozen(now) && handle.Holding? ==>
        var source := if difference == 0 then currentSlot else difference;
        && source in timeline[now].names && handle.inode == timeline[now].names[source]
        && handle.inode in timeline[now].content && size == |timeline[now].content[handle.inode]|
      ensures Frozen(now) && currentSlot in timeline[now].names ==> handle.Holding?
      ensures Frozen(now) && Wanted(before, cursor) <= retainedFiles ==>
        var source := if Wanted(before, cursor) == 0 then currentSlot else Wanted(before, cursor);
        source in timeline[now].names ==> handle.Holding? && !truncated
    {
      hide LogWorld.Evolves, LogWorld.Valid, LogWorld.Names, LogWorld.DiskOf, Explained, Frozen;
      if Frozen(now) {
        FrozenDisk(now, now);
      }
      var currentNumber := MarkerGeneration(before);
      var cursorNumber :=
        if cursor.Some? && cursor.value.generation.Some? then cursor.value.generation.value else currentNumber;
      difference := if currentNumber > cursorNumber then currentNumber - cursorNumber else 0;
      truncated := false;
      if difference > retainedFiles {
        difference, truncated := retainedFiles, true;
      }
      later, handle, size, named, sized := OpenSized(if difference == 0 then currentSlot else difference, now);
      missed := named;
      if handle == NotOpened(Missing) {
        difference, truncated := 0, true;
        if Frozen(now) {
          FrozenDisk(now, later);
        }
        later, handle, size, named, sized := OpenSized(currentSlot, later);
      }
    }

    lemma OneGeneration(w: World, inode: Inode, g: nat, h: nat)
      requires Valid(w, anchorRetained) && Honest(w, inode, g) && Honest(w, inode, h)
      ensures g == h
    {
    }

    /** A file that is not where the cursor's generation says is not the cursor's file. */
    lemma LostIsElsewhere(before: Marker, cursor: Cursor, currentSlot: nat, since: nat, scanned: nat, now: nat,
                          missed: nat, named: nat, later: nat, difference: nat, inode: Inode)
      requires Prepared(before, Some(cursor), currentSlot, since, scanned, now) && Tracked(since, cursor)
      requires now <= missed <= later && now <= named <= later && At(missed) && At(named)
      requires Quiet(since, later, before) && difference <= MarkerGeneration(before) && difference <= retainedFiles
      requires var source := if difference == 0 then currentSlot else difference;
               source in timeline[named].names && timeline[named].names[source] == inode
      requires difference == MarkerGeneration(before) - cursor.generation.value ==>
        difference == 0 && currentSlot !in timeline[missed].names
      ensures inode != cursor.inode
    {
      hide LogWorld.Evolves, LogWorld.Names, LogWorld.DiskOf, PreparedMidShift, LogWorld.Valid;
      var source := if difference == 0 then currentSlot else difference;
      QuietBetween(since, now, later, before);
      if before.Rotating? {
        ScannedFileIsNotOpened(cursor, since, scanned, named, source);
      } else {
        HonestSource(since, named, later, before, source, difference, currentSlot);
        CursorStays(cursor, since, later);
        Explains(later);
        if inode == cursor.inode {
          OneGeneration(worlds[later], inode, MarkerGeneration(before) - difference, cursor.generation.value);
        }
        if difference == MarkerGeneration(before) - cursor.generation.value {
          QuietBetween(since, missed, later, before);
          CursorStays(cursor, since, missed);
          CurrentIsNamed(missed, before);
        }
      }
    }

    /** Under a plain number a log that was begun has its name. */
    lemma CurrentIsNamed(now: nat, before: Marker)
      requires At(now) && Calm(now, before) && before.Stable? && worlds[now].lineage != []
      ensures 0 in timeline[now].names
    {
    }

    lemma StartIsRight(before: Marker, cursor: Option<Cursor>, currentSlot: nat, since: nat, scanned: nat, now: nat,
                       named: nat, sized: nat, later: nat, start: Start)
      requires Prepared(before, cursor, currentSlot, since, scanned, now) && now <= named <= sized <= later && At(named)
      requires At(sized) && At(later)
      requires start.StartAt? && start.difference <= MarkerGeneration(before) && start.difference <= retainedFiles
      requires var source := if start.difference == 0 then currentSlot else start.difference;
               source in timeline[named].names && timeline[named].names[source] == start.inode
      requires start.inode in timeline[sized].content && start.size == |timeline[sized].content[start.inode]|
      requires start.position <= start.size
      requires start.inode in timeline[later].content && start.size <= |timeline[later].content[start.inode]|
      requires cursor.Some? && (start.difference > 0 || !start.truncated) ==>
        start.inode == cursor.value.inode && start.position == cursor.value.offset
      requires cursor.None? ==> start.difference == 0
      ensures before.Rotating? && cursor.Some? && Tracked(since, cursor.value) ==> start.inode != cursor.value.inode
      ensures Quiet(since, later, before) && Followed(since, cursor) ==>
        StartsRight(worlds[later], before, MarkerGeneration(before), start.difference,
          start.inode, start.size, start.position)
      ensures Quiet(since, later, before) && cursor.Some? && Tracked(since, cursor.value) && !start.truncated ==>
        && start.inode == cursor.value.inode && start.position == cursor.value.offset
        && MarkerGeneration(before) - start.difference == cursor.value.generation.value
    {
      hide LogWorld.Evolves, LogWorld.Names, LogWorld.DiskOf, PreparedMidShift, SlotFits;
      var source := if start.difference == 0 then currentSlot else start.difference;
      if before.Rotating? && cursor.Some? && Tracked(since, cursor.value) {
        ScannedFileIsNotOpened(cursor.value, since, scanned, named, source);
      }
      if Quiet(since, later, before) && Followed(since, cursor) {
        QuietBetween(since, now, later, before);
        OpenedRight(since, named, sized, later, before, source, start.difference, currentSlot,
          start.inode, start.size, start.position);
        if cursor.Some? && !start.truncated {
          CursorStays(cursor.value, since, later);
          assert Valid(worlds[later], anchorRetained);
        }
      }
    }

    // ----- reading on across segments -----------------------------------------------------------------

    /** Everything read so far is the stretch of the stream from byte `from` to where the read stands. */
    ghost predicate OnTrack(w: World, before: Marker, p: Progress, from: nat)
      requires p.Reading?
    {
      && StartsRight(w, before, MarkerGeneration(before), p.difference, p.inode, p.size, p.position)
      && Delivers(w, p.raw, p.inode, MarkerGeneration(before) - p.difference, p.position)
      && Base(w, IndexOf(w, MarkerGeneration(before) - p.difference)) + p.position == from + |p.raw|
    }

    lemma TrackStays(since: nat, u: nat, v: nat, before: Marker, p: Progress, from: nat)
      requires p.Reading? && u <= v && since <= u && Quiet(since, v, before) && At(u)
      requires OnTrack(worlds[u], before, p, from)
      requires p.difference <= MarkerGeneration(before)
      ensures OnTrack(worlds[v], before, p, from)
    {
      hide LogWorld.Names, LogWorld.Span, LogWorld.Valid, LogWorld.Evolves, PreparedMidShift;
      QuietBetween(since, u, v, before);
      Explains(u);
      Explains(v);
      var a, b := worlds[u], worlds[v];
      BaseKeeps(a, b, p.inode, MarkerGeneration(before) - p.difference);
      LinkedStays(u, v, p.inode);
      var g := MarkerGeneration(before) - p.difference;
      DeliveredStays(a, b, p.raw, p.inode, g, p.position);
      BaseStays(a, b, IndexOf(a, g));
      if p.difference > 0 {
        ArchivesAreSealed(since, u, v, before, p.difference, p.inode);
      }
    }

    lemma PieceRead(w: World, before: Marker, p: Progress, from: nat, piece: Bytes)
      requires p.Reading? && OnTrack(w, before, p, from) && p.position + |piece| <= p.size
      requires piece == w.content[p.inode][p.position..p.position + |piece|]
      ensures OnTrack(w, before, p.(position := p.position + |piece|, raw := p.raw + piece), from)
    {
      hide LogWorld.Span, LogWorld.Written, Base, Honest, Delivers;
      DeliversMore(w, p.raw, p.inode, MarkerGeneration(before) - p.difference, p.position, piece);
    }

    lemma NextSegment(w: World, before: Marker, p: Progress, from: nat, inode: Inode, size: nat)
      requires p.Reading? && 0 < p.difference && OnTrack(w, before, p, from) && p.position == p.size
      requires StartsRight(w, before, MarkerGeneration(before), p.difference - 1, inode, size, 0)
      ensures OnTrack(w, before, Reading(p.difference - 1, inode, size, 0, true, p.raw), from)
    {
    }

    /** The read stands in a linked segment of a directory that stands still, and took its size there. */
    ghost predicate Placed(since: nat, before: Marker, currentSlot: nat, p: Progress) {
      && Still(since, before, currentSlot) && p.Reading? && p.difference in timeline[since].names
      && timeline[since].names[p.difference] == p.inode && p.inode in timeline[since].content
      && p.position <= p.size == |timeline[since].content[p.inode]|
    }

    lemma PlacedIndex(since: nat, before: Marker, currentSlot: nat, p: Progress)
      requires Placed(since, before, currentSlot, p)
      ensures Still(since, before, currentSlot) && p.Reading?
      ensures var w := worlds[since];
        && Held(w.content, w.lineage) && p.difference < |w.lineage|
        && w.lineage[|w.lineage| - 1 - p.difference] == p.inode && p.size == SizeOf(w, |w.lineage| - 1 - p.difference)
        && (forall d: nat :: d <= p.difference ==> d in timeline[since].names)
    {
    }

    /** Where the read will stop if nothing happens. */
    ghost function HaltFrom(since: nat, before: Marker, currentSlot: nat, p: Progress, remaining: nat,
        amounts: nat -> nat, call: nat): Halt
      requires Placed(since, before, currentSlot, p)
    {
      PlacedIndex(since, before, currentSlot, p);
      HaltOf(worlds[since], |worlds[since].lineage| - 1 - p.difference, p.position, remaining, amounts, call)
    }

    lemma HaltsHere(since: nat, before: Marker, currentSlot: nat, p: Progress, remaining: nat, amounts: nat -> nat,
                    call: nat, after: Progress)
      requires Placed(since, before, currentSlot, p) && after.Reading?
      requires var got := Clip(amounts(call), Clip(p.size - p.position, remaining));
        && after == p.(position := p.position + got, raw := after.raw)
        && (got == remaining || after.position < after.size || after.difference == 0)
      ensures HaltFrom(since, before, currentSlot, p, remaining, amounts, call)
        == Halt(|worlds[since].lineage| - 1 - after.difference, after.position)
    {
      PlacedIndex(since, before, currentSlot, p);
    }

    lemma HaltsLater(since: nat, before: Marker, currentSlot: nat, p: Progress, remaining: nat, amounts: nat -> nat,
                     call: nat, next: Progress)
      requires Placed(since, before, currentSlot, p) && Placed(since, before, currentSlot, next)
      requires 0 < p.difference && next.difference == p.difference - 1 && next.position == 0
      requires p.size - p.position < remaining && p.size - p.position <= amounts(call)
      ensures HaltFrom(since, before, currentSlot, p, remaining, amounts, call)
        == HaltFrom(since, before, currentSlot, next, remaining - (p.size - p.position), amounts, call + 1)
    {
      PlacedIndex(since, before, currentSlot, p);
      PlacedIndex(since, before, currentSlot, next);
    }

    /** One call: reads on in the segment where the read stands. */
    method ReadPiece(before: Marker, p: Progress, remaining: nat, amount: nat, now: nat,
                     ghost since: nat, ghost followed: bool, ghost from: nat)
        returns (later: nat, after: Progress)
      requires since <= now && At(since) && At(now)
      requires p.Reading? && p.inode in worlds[now].lineage && p.inode in timeline[now].content
      requires p.position <= p.size <= |timeline[now].content[p.inode]| && p.difference <= MarkerGeneration(before)
      requires followed && Quiet(since, now, before) ==> OnTrack(worlds[now], before, p, from)
      ensures now <= later && At(later) && after.Reading?
      ensures var got := Clip(amount, Clip(p.size - p.position, remaining));
        |after.raw| == |p.raw| + got && after == p.(position := p.position + got, raw := after.raw)
      ensures p.inode in worlds[later].lineage && p.inode in timeline[later].content
      ensures p.size <= |timeline[later].content[p.inode]|
      ensures after.raw == p.raw + timeline[later].content[p.inode][p.position..after.position]
      ensures followed && Quiet(since, later, before) ==> OnTrack(worlds[later], before, after, from)
    {
      hide LogWorld.Evolves, LogWorld.Valid, LogWorld.Names, LogWorld.DiskOf, PreparedMidShift, SlotFits, OnTrack;
      hide Quiet;
      var length: nat := if p.size - p.position < remaining then p.size - p.position else remaining;
      var piece: Bytes;
      later, piece := ReadAt(p.inode, p.position, length, amount, now);
      LinkedStays(now, later, p.inode);
      if followed && Quiet(since, later, before) {
        QuietBetween(since, now, later, before);
        TrackStays(since, now, later, before, p, from);
        Explains(later);
        PieceRead(worlds[later], before, p, from, piece);
      }
      after := p.(position := p.position + |piece|, raw := p.raw + piece);
    }

    /** A read of the current log is one call. */
    ghost predicate ReadOnce(start: Progress, p: Progress, maxBytes: nat, amount: nat, now: nat)
      requires start.Reading? && p.Reading?
    {
      && At(now) && p.inode == start.inode && p.difference == start.difference && p.rotated == start.rotated
      && p.inode in worlds[now].lineage && p.inode in timeline[now].content
      && start.position <= start.size <= |timeline[now].content[p.inode]|
      && |p.raw| == Clip(amount, Clip(start.size - start.position, maxBytes))
      && p.position == start.position + |p.raw|
      && p.raw == timeline[now].content[p.inode][start.position..p.position]
    }

    lemma IsReadOnce(start: Progress, p: Progress, maxBytes: nat, amount: nat, now: nat)
      requires At(now) && start.Reading? && p.Reading? && start.raw == []
      requires start.inode in worlds[now].lineage && start.inode in timeline[now].content
      requires start.position <= start.size <= |timeline[now].content[start.inode]|
      requires var got := Clip(amount, Clip(start.size - start.position, maxBytes));
        |p.raw| == got && p == start.(position := start.position + got, raw := p.raw)
      requires p.raw == start.raw + timeline[now].content[start.inode][start.position..p.position]
      ensures ReadOnce(start, p, maxBytes, amount, now)
    {
    }

    lemma ReadOnceFromTail(start: Progress, p: Progress, maxBytes: nat, amount: nat, now: nat)
      requires start.Reading? && p.Reading? && ReadOnce(start, p, maxBytes, amount, now)
      requires start.position == TailFrom(start.size, maxBytes)
      ensures p.inode == start.inode && p.inode in worlds[now].lineage && p.inode in timeline[now].content
      ensures p.position == start.position + |p.raw|
      ensures TailOf(timeline[now].content[p.inode], start.size, p.raw, maxBytes, amount)
    {
    }

    /** One step of a read: a call, and unless that was the last one the next segment. */
    method ReadOn(before: Marker, p: Progress, remaining: nat, currentSlot: nat, amounts: nat -> nat, call: nat,
        now: nat,
                  ghost since: nat, ghost followed: bool, ghost from: nat)
        returns (later: nat, next: Progress, left: nat, done: bool)
      requires since <= now && At(since) && At(now) && (before.Stable? || before.Rotating?)
      requires p.Reading? && p.inode in worlds[now].lineage && p.inode in timeline[now].content
      requires p.position <= p.size <= |timeline[now].content[p.inode]| && p.difference <= MarkerGeneration(before)
      requires Quiet(since, now, before) ==> SlotFits(before, currentSlot)
      requires followed && Quiet(since, now, before) ==> OnTrack(worlds[now], before, p, from)
      ensures now <= later && At(later)
      ensures next.Stopped? ==> done && 0 < p.difference && next.error in {Missing, IdentityChanged}
      ensures next.Reading? ==>
        && next.inode in worlds[later].lineage && next.inode in timeline[later].content
        && next.position <= next.size <= |timeline[later].content[next.inode]|
        && |next.raw| + left == |p.raw| + remaining && next.difference <= p.difference
        && (next.rotated <==> p.rotated || next.difference < p.difference)
      ensures !done ==> next.Reading? && next.difference < p.difference
      ensures p.difference == 0 ==>
        var got := Clip(amounts(call), Clip(p.size - p.position, remaining));
        && done && next.Reading? && |next.raw| == |p.raw| + got
        && next == p.(position := p.position + got, raw := next.raw)
        && next.raw == p.raw + timeline[later].content[p.inode][p.position..next.position]
      ensures next.Reading? && followed && Quiet(since, later, before) ==> OnTrack(worlds[later], before, next, from)
      ensures Placed(since, before, currentSlot, p) ==>
        && next.Reading?
        && if done then
             && next.difference < |worlds[since].lineage|
             && HaltFrom(since, before, currentSlot, p, remaining, amounts, call)
                == Halt(|worlds[since].lineage| - 1 - next.difference, next.position)
           else
             && Placed(since, before, currentSlot, next)
             && HaltFrom(since, before, currentSlot, next, left, amounts, call + 1)
                == HaltFrom(since, before, currentSlot, p, remaining, amounts, call)
    {
      hide LogWorld.Evolves, LogWorld.Valid, LogWorld.Names, LogWorld.DiskOf, PreparedMidShift, SlotFits, OnTrack;
      hide Quiet, Placed, HaltFrom, Still, LogWorld.Held, MarkerGeneration;
      ghost var placed := Placed(since, before, currentSlot, p);
      if placed {
        PlacedIndex(since, before, currentSlot, p);
      }
      later, next := ReadPiece(before, p, remaining, amounts(call), now, since, followed, from);
      left, done := remaining - (next.position - p.position), true;
      if left == 0 || next.position < next.size || next.difference == 0 {
        if placed {
          HaltsHere(since, before, currentSlot, p, remaining, amounts, call, next);
        }
        return;
      }
      if Quiet(since, later, before) {
        QuietBetween(since, now, later, before);
      }
      later, next := OpenNext(before, next, currentSlot, later, since, followed, from);
      done := next.Stopped?;
      if placed {
        HaltsLater(since, before, currentSlot, p, remaining, amounts, call, next);
      }
    }

    /** Reads from the start segment on, following the archives down to the current log. */
    method ReadSegments(before: Marker, start: Progress, maxBytes: nat, currentSlot: nat, amounts: nat -> nat, now: nat,
                        ghost since: nat, ghost followed: bool, ghost from: nat)
        returns (later: nat, p: Progress)
      requires since <= now && At(since) && At(now) && (before.Stable? || before.Rotating?)
      requires start.Reading? && start.raw == [] && start.inode in worlds[now].lineage
      requires start.inode in timeline[now].content
      requires start.position <= start.size <= |timeline[now].content[start.inode]|
      requires start.difference <= MarkerGeneration(before)
      requires Quiet(since, now, before) ==> SlotFits(before, currentSlot)
      requires followed && Quiet(since, now, before) ==> OnTrack(worlds[now], before, start, from)
      ensures now <= later && At(later)
      ensures p.Reading? ==> |p.raw| <= maxBytes && p.difference <= start.difference
      ensures p.Reading? && start.difference == 0 ==> p.inode == start.inode
      ensures start.difference == 0 ==> p.Reading? && ReadOnce(start, p, maxBytes, amounts(0), later)
      ensures p.Reading? ==> (p.rotated <==> start.rotated || p.difference < start.difference)
      ensures p.Reading? && followed && Quiet(since, later, before) ==> OnTrack(worlds[later], before, p, from)
      ensures p.Stopped? ==> p.error in {Missing, IdentityChanged}
      ensures Placed(since, before, currentSlot, start) ==>
        && p.Reading? && p.difference < |worlds[since].lineage|
        && Halt(|worlds[since].lineage| - 1 - p.difference, p.position)
           == HaltFrom(since, before, currentSlot, start, maxBytes, amounts, 0)
    {
      hide LogWorld.Evolves, LogWorld.Valid, LogWorld.Names, LogWorld.DiskOf, PreparedMidShift, SlotFits, OnTrack;
      hide Quiet, Placed, HaltFrom, Still, LogWorld.Held, MarkerGeneration, ReadOnce, Explained;
      ghost var placed := Placed(since, before, currentSlot, start);
      later, p := now, start;
      var remaining: nat := maxBytes;
      var call := 0;
      while true
        invariant now <= later && At(later) && p.Reading?
        invariant p.inode in worlds[later].lineage && p.inode in timeline[later].content
        invariant p.position <= p.size <= |timeline[later].content[p.inode]|
        invariant start.difference == 0 ==> p == start && call == 0
        invariant p.rotated <==> start.rotated || p.difference < start.difference
        invariant p.difference <= start.difference && |p.raw| + remaining == maxBytes
        invariant Quiet(since, later, before) ==> SlotFits(before, currentSlot)
        invariant followed && Quiet(since, later, before) ==> OnTrack(worlds[later], before, p, from)
        invariant placed ==>
          && Placed(since, before, currentSlot, p)
          && HaltFrom(since, before, currentSlot, p, remaining, amounts, call)
             == HaltFrom(since, before, currentSlot, start, maxBytes, amounts, 0)
        decreases p.difference
      {
        var done: bool;
        later, p, remaining, done
          := ReadOn(before, p, remaining, currentSlot, amounts, call, later, since, followed, from);
        if start.difference == 0 {
          IsReadOnce(start, p, maxBytes, amounts(0), later);
        }
        if done { return; }
        call := call + 1;
        if Quiet(since, later, before) {
          QuietBetween(since, now, later, before);
        }
      }
    }

    /** Moves to the segment written after the one just finished. */
    method OpenNext(before: Marker, p: Progress, currentSlot: nat, now: nat, ghost since: nat, ghost followed: bool,
        ghost from: nat)
        returns (later: nat, next: Progress)
      requires since <= now && At(since) && At(now) && (before.Stable? || before.Rotating?)
      requires p.Reading? && 0 < p.difference <= MarkerGeneration(before) && p.position == p.size
      requires Quiet(since, now, before) ==> SlotFits(before, currentSlot)
      requires followed && Quiet(since, now, before) ==> OnTrack(worlds[now], before, p, from)
      ensures now <= later && At(later)
      ensures next.Stopped? ==> next.error in {Missing, IdentityChanged}
      ensures next.Reading? ==>
        && next.difference == p.difference - 1 && next.position == 0 && next.raw == p.raw && next.rotated
        && next.inode in worlds[later].lineage && next.inode in timeline[later].content
        && next.size <= |timeline[later].content[next.inode]|
      ensures next.Reading? && followed && Quiet(since, later, before) ==> OnTrack(worlds[later], before, next, from)
      ensures Still(since, before, currentSlot) && (p.difference - 1) in timeline[since].names ==>
        next.Reading? && Placed(since, before, currentSlot, next)
    {
      hide LogWorld.Evolves, LogWorld.Valid, LogWorld.Names, LogWorld.DiskOf, PreparedMidShift, SlotFits, Quiet;
      hide Explained, Frozen;
      if Still(since, before, currentSlot) {
        FrozenDisk(since, now);
      }
      var difference := p.difference - 1;
      var source := if difference == 0 then currentSlot else difference;
      var handle: Handle;
      var size: nat;
      ghost var named: nat;
      ghost var sized: nat;
      later, handle, size, named, sized := OpenSized(source, now);
      if handle.NotOpened? { return later, Stopped(handle.error); }
      next := Reading(difference, handle.inode, size, 0, true, p.raw);
      if followed && Quiet(since, later, before) {
        QuietBetween(since, now, later, before);
        TrackStays(since, now, later, before, p, from);
        OpenedRight(since, named, sized, later, before, source, difference, currentSlot, handle.inode, size, 0);
        NextSegment(worlds[later], before, p, from, handle.inode, size);
      }
    }

    /** What a finished read promises: `raw` are the bytes read, of which the last incomplete character
        is held back. They are the stretch of the stream that ends where the returned cursor stands, plus
        what was held back; and unless flagged truncated they begin exactly at the caller's cursor. */
    ghost predicate Delivered(cursor: Option<Cursor>, since: nat, now: nat, content: Bytes, next: NextCursor,
        raw: Bytes) {
      && since <= now && At(since) && At(now)
      && content == raw[..Utf8.CompletePrefix(raw)]
      && (var withheld := |raw| - |content|;
          && Delivers(worlds[now], raw, next.inode, next.generation, next.offset + withheld)
          && (cursor.Some? && Tracked(since, cursor.value) && !next.truncated ==>
                && ValidCursor(worlds[now], cursor.value)
                && Base(worlds[now], IndexOf(worlds[now], next.generation)) + next.offset + withheld
                   == Position(worlds[now], cursor.value) + |raw|))
    }

    lemma TrackStarts(since: nat, now: nat, before: Marker, cursor: Option<Cursor>, start: Start) returns (from: nat)
      requires start.StartAt? && Quiet(since, now, before) && Followed(since, cursor)
      requires StartsRight(worlds[now], before, MarkerGeneration(before), start.difference,
        start.inode, start.size, start.position)
      requires cursor.Some? && Tracked(since, cursor.value) && !start.truncated ==>
        && start.inode == cursor.value.inode && start.position == cursor.value.offset
        && MarkerGeneration(before) - start.difference == cursor.value.generation.value
      ensures OnTrack(worlds[now], before,
        Reading(start.difference, start.inode, start.size, start.position, start.rotated, []), from)
      ensures cursor.Some? && Tracked(since, cursor.value) && !start.truncated ==>
        ValidCursor(worlds[now], cursor.value) && from == Position(worlds[now], cursor.value)
    {
      Explains(now);
      var g := MarkerGeneration(before) - start.difference;
      from := Base(worlds[now], IndexOf(worlds[now], g)) + start.position;
      DeliversNothing(worlds[now], start.inode, g, start.position);
      if cursor.Some? && Tracked(since, cursor.value) {
        CursorStays(cursor.value, since, now);
      }
    }

    lemma TrackDelivers(cursor: Option<Cursor>, since: nat, started: nat, later: nat, before: Marker, p: Progress,
        from: nat, truncated: bool)
      requires since <= started <= later && At(since) && At(started) && At(later)
      requires p.Reading? && p.difference <= MarkerGeneration(before) && OnTrack(worlds[later], before, p, from)
      requires cursor.Some? && Tracked(since, cursor.value) && !truncated ==>
        ValidCursor(worlds[started], cursor.value) && from == Position(worlds[started], cursor.value)
      ensures var content := p.raw[..Utf8.CompletePrefix(p.raw)];
        Delivered(cursor, since, later, content,
          NextCursor(p.inode, p.position - (|p.raw| - |content|),
            MarkerGeneration(before) - p.difference, p.rotated, truncated), p.raw)
    {
      hide LogWorld.Evolves, LogWorld.Valid, LogWorld.Names, Utf8.CompletePrefix, Delivers, StartsRight;
      if cursor.Some? && Tracked(since, cursor.value) && !truncated {
        CursorStays(cursor.value, started, later);
      }
    }

    /** The offset a read from this cursor returns if nothing happens. */
    ghost function Returned(now: nat, cursor: Cursor, bound: nat, amounts: nat -> nat): int
      requires At(now) && Tracked(now, cursor)
    {
      Explains(now);
      ReturnedOffset(worlds[now], IndexOf(worlds[now], cursor.generation.value), cursor.offset, bound, amounts)
    }

    lemma ReturnsThat(cursor: Cursor, since: nat, later: nat, content: Bytes, next: NextCursor, raw: Bytes, bound: nat,
                      amounts: nat -> nat)
      requires Delivered(Some(cursor), since, later, content, next, raw) && Tracked(since, cursor) && !next.truncated
      requires worlds[later] == worlds[since] && Held(worlds[since].content, worlds[since].lineage)
      requires var w := worlds[since];
        Halt(IndexOf(w, next.generation), next.offset + (|raw| - |content|))
        == HaltOf(w, IndexOf(w, cursor.generation.value), cursor.offset, bound, amounts, 0)
      ensures next.offset == Returned(since, cursor, bound, amounts)
    {
      hide LogWorld.Evolves, LogWorld.Valid, Utf8.CompletePrefix, HaltOf, Base;
      var w := worlds[since];
      var i := IndexOf(w, cursor.generation.value);
      var h := HaltOf(w, i, cursor.offset, bound, amounts, 0);
      StaysInSegment(w, i, cursor.offset, bound, amounts, 0);
      assert raw == Stretch(w, Base(w, i) + cursor.offset, h.index, h.position);
    }

    lemma StartIsPlaced(cursor: Cursor, since: nat, before: Marker, currentSlot: nat, p: Progress, bound: nat,
                        amounts: nat -> nat)
      requires Still(since, before, currentSlot) && Tracked(since, cursor) && InReach(since, cursor)
      requires p.Reading? && p.difference == MarkerGeneration(before) - cursor.generation.value
      requires p.inode == cursor.inode && p.position == cursor.offset && p.inode in timeline[since].content
      requires p.size == |timeline[since].content[p.inode]|
      ensures Placed(since, before, currentSlot, p) && Held(worlds[since].content, worlds[since].lineage)
      ensures HaltFrom(since, before, currentSlot, p, bound, amounts, 0)
        == HaltOf(worlds[since], IndexOf(worlds[since], cursor.generation.value), cursor.offset, bound, amounts, 0)
    {
      hide HaltOf;
      ReachedByNumber(since, cursor, before);
      PlacedIndex(since, before, currentSlot, p);
    }

    lemma StillQuiet(since: nat, later: nat, before: Marker, currentSlot: nat)
      requires Still(since, before, currentSlot) && since <= later && At(later)
      ensures Quiet(since, later, before) && worlds[later] == worlds[since]
      ensures Held(worlds[since].content, worlds[since].lineage)
    {
    }

    lemma StillIsStable(since: nat, before: Marker, currentSlot: nat)
      requires Still(since, before, currentSlot)
      ensures before.Stable? && currentSlot == 0 && Calm(since, before)
    {
    }

    lemma GenerationIndex(now: nat, before: Marker)
      requires At(now) && Calm(now, before) && before.Stable? && worlds[now].lineage != []
      ensures worlds[now].origin + |worlds[now].lineage| - 1 == MarkerGeneration(before)
    {
    }

    method ReadCursorGeneration(before: Marker, cursor: Option<Cursor>, maxBytes: nat, currentSlot: nat,
        amounts: nat -> nat, now: nat, ghost since: nat, ghost scanned: nat)
        returns (later: nat, read: Read, ghost raw: Bytes)
      requires Prepared(before, cursor, currentSlot, since, scanned, now)
      ensures now <= later && At(later)
      ensures read.Failed? ==> read.error in {Missing, IdentityChanged}
      ensures read.Done? ==> |raw| <= maxBytes
      ensures read.Done? && before.Rotating? && cursor.Some? && Tracked(since, cursor.value) ==> read.next.truncated
      ensures read.Done? && Followed(since, cursor) && (cursor.None? || before.Rotating?) ==>
        read.next.generation == MarkerGeneration(before) && OpenedIn(now, later, currentSlot, read.next.inode)
      ensures read.Done? && Unplaced(since, cursor, read.next) && Calm(since, before) ==>
        cursor.None? || before.Rotating? || Quiet(since, later, before) ==>
          TailRead(since, later, read.content, read.next, raw, maxBytes, amounts(0))
      ensures read.Done? && Followed(since, cursor) && Calm(since, before) ==>
        cursor.None? || (before.Rotating? && read.next.truncated) || (Quiet(since, later, before) && before.Stable?) ==>
          RotatedRight(since, later, cursor, read.next)
      ensures Frozen(now) && currentSlot in timeline[now].names && Followed(since, cursor) ==>
        cursor.None? || before.Rotating? || Still(since, before, currentSlot) ==> read.Done?
      ensures read.Done? && Followed(since, cursor) && Quiet(since, later, before) ==>
        Delivered(cursor, since, later, read.content, read.next, raw)
      ensures cursor.Some? && Tracked(since, cursor.value) && Still(since, before, currentSlot) ==>
        && (InReach(since, cursor.value) ==>
              && read.Done? && !read.next.truncated
              && read.next.offset == Returned(since, cursor.value, maxBytes, amounts))
        && (read.Done? && !read.next.truncated ==> InReach(since, cursor.value))
    {
      hide LogWorld.Evolves, LogWorld.Valid, LogWorld.Names, LogWorld.DiskOf, PreparedMidShift, SlotFits, PastSlots;
      hide Quiet, StartsRight, Delivered, Explained, TailRead, WasSize, Frozen, InReach, Returned;
      raw := [];
      var start: Start;
      later, start := ChooseStart(before, cursor, maxBytes, currentSlot, now, since, scanned);
      if start.NoStart? { return later, Failed(start.error), raw; }
      if Quiet(since, later, before) {
        QuietBetween(since, now, later, before);
      }
      ghost var started := later;
      later, read, raw := ReadFrom(before, cursor, start, maxBytes, currentSlot, amounts, later, since, now);
      if Quiet(since, later, before) {
        QuietBetween(since, started, later, before);
      }
      if cursor.Some? && Tracked(since, cursor.value) && Still(since, before, currentSlot) {
        StillQuiet(since, later, before, currentSlot);
      }
    }

    /** Where a read that starts there stands first. */
    function Begun(start: Start): Progress
      requires start.StartAt?
    {
      Reading(start.difference, start.inode, start.size, start.position, start.rotated, [])
    }

    /** The directory stands still, and the read begins at its cursor. */
    ghost predicate AtCursor(since: nat, before: Marker, currentSlot: nat, cursor: Option<Cursor>, start: Start) {
      && At(since) && start.StartAt? && !start.truncated
      && cursor.Some? && Tracked(since, cursor.value) && Still(since, before, currentSlot)
      && InReach(since, cursor.value)
      && start.difference == MarkerGeneration(before) - cursor.value.generation.value
      && start.inode == cursor.value.inode && start.position == cursor.value.offset
      && start.inode in timeline[since].content && start.size == |timeline[since].content[start.inode]|
    }

    lemma BeginsPlaced(since: nat, before: Marker, currentSlot: nat, cursor: Option<Cursor>, start: Start, bound: nat,
                       amounts: nat -> nat)
      requires AtCursor(since, before, currentSlot, cursor, start)
      ensures Placed(since, before, currentSlot, Begun(start))
      ensures !start.truncated && Followed(since, cursor)
    {
      hide Placed, Still, InReach, HaltFrom;
      StartIsPlaced(cursor.value, since, before, currentSlot, Begun(start), bound, amounts);
    }

    lemma EndsPlaced(since: nat, later: nat, before: Marker, currentSlot: nat, cursor: Option<Cursor>, start: Start,
        p: Progress, content: Bytes, next: NextCursor, raw: Bytes, bound: nat, amounts: nat -> nat)
      requires AtCursor(since, before, currentSlot, cursor, start) && since <= later && At(later) && p.Reading?
      requires Quiet(since, later, before) ==> Delivered(cursor, since, later, content, next, raw)
      requires !next.truncated && p.difference <= MarkerGeneration(before)
      requires next.generation == MarkerGeneration(before) - p.difference
      requires next.offset + (|raw| - |content|) == p.position && p.difference < |worlds[since].lineage|
      requires Placed(since, before, currentSlot, Begun(start))
      requires Halt(|worlds[since].lineage| - 1 - p.difference, p.position)
        == HaltFrom(since, before, currentSlot, Begun(start), bound, amounts, 0)
      ensures next.offset == Returned(since, cursor.value, bound, amounts)
    {
      hide Placed, Still, InReach, HaltFrom, Delivered, Returned, Quiet, LogWorld.Evolves, LogWorld.Valid;
      StartIsPlaced(cursor.value, since, before, currentSlot, Begun(start), bound, amounts);
      StillQuiet(since, later, before, currentSlot);
      StillIsStable(since, before, currentSlot);
      GenerationIndex(since, before);
      ReturnsThat(cursor.value, since, later, content, next, raw, bound, amounts);
    }

    /** Reads from the chosen start, and holds back an incomplete character. */
    method ReadFrom(before: Marker, cursor: Option<Cursor>, start: Start, maxBytes: nat, currentSlot: nat,
        amounts: nat -> nat, now: nat, ghost since: nat, ghost began: nat)
        returns (later: nat, read: Read, ghost raw: Bytes)
      requires since <= began <= now && At(since) && At(now) && (before.Stable? || before.Rotating?)
      requires start.StartAt? && start.inode in worlds[now].lineage && start.inode in timeline[now].content
      requires start.position <= start.size <= |timeline[now].content[start.inode]|
      requires start.difference <= MarkerGeneration(before) && WasSize(began, now, start.inode, start.size)
      requires Quiet(since, now, before) ==> SlotFits(before, currentSlot)
      requires Quiet(since, now, before) && Followed(since, cursor) ==>
        StartsRight(worlds[now], before, MarkerGeneration(before), start.difference,
          start.inode, start.size, start.position)
      requires !start.truncated && Quiet(since, now, before) && cursor.Some? && Tracked(since, cursor.value) ==>
        && start.inode == cursor.value.inode && start.position == cursor.value.offset
        && MarkerGeneration(before) - start.difference == cursor.value.generation.value
      ensures now <= later && At(later)
      ensures read.Failed? ==> read.error in {Missing, IdentityChanged}
      ensures read.Done? ==> |raw| <= maxBytes && read.next.truncated == start.truncated
      ensures read.Done? ==> (read.next.rotated <==>
        start.rotated || MarkerGeneration(before) - start.difference < read.next.generation)
      ensures read.Done? ==> read.next.generation <= MarkerGeneration(before)
      ensures start.difference == 0 ==>
        read.Done? && read.next.generation == MarkerGeneration(before) && read.next.inode == start.inode
      ensures AtTail(start, maxBytes) && Calm(since, before) ==>
        TailRead(since, later, read.content, read.next, raw, maxBytes, amounts(0))
      ensures read.Done? && Followed(since, cursor) && Quiet(since, later, before) ==>
        Delivered(cursor, since, later, read.content, read.next, raw)
      ensures AtCursor(since, before, currentSlot, cursor, start) ==>
        read.Done? && read.next.offset == Returned(since, cursor.value, maxBytes, amounts)
    {
      hide LogWorld.Evolves, LogWorld.Valid, LogWorld.Names, LogWorld.DiskOf, PreparedMidShift, SlotFits, PastSlots;
      hide Quiet, StartsRight, OnTrack, Delivered, Explained, ValidCursor, ReadOnce, TailRead, TailOf, WasSize;
      hide Frozen, HaltFrom, Placed, InReach, Returned, Still, AtCursor;
      raw := [];
      ghost var from := 0;
      ghost var followed := Followed(since, cursor);
      if Quiet(since, now, before) && followed {
        from := TrackStarts(since, now, before, cursor, start);
      }
      var p := Begun(start);
      ghost var placed := AtCursor(since, before, currentSlot, cursor, start);
      if placed {
        BeginsPlaced(since, before, currentSlot, cursor, start, maxBytes, amounts);
      }
      later, p := ReadSegments(before, p, maxBytes, currentSlot, amounts, now, since, followed, from);
      if p.Stopped? { return later, Failed(p.error), raw; }
      raw := p.raw;
      var emitted := Utf8.CompleteUtf8PrefixLength(p.raw);
      var withheld := |p.raw| - emitted;
      var next := NextCursor(p.inode, p.position - withheld,
        MarkerGeneration(before) - p.difference, p.rotated, start.truncated);
      read := Done(p.raw[..emitted], next);
      if AtTail(start, maxBytes) && Calm(since, before) {
        ReadOnceFromTail(Begun(start), p, maxBytes, amounts(0), later);
        IsTailRead(since, began, now, later, read.content, next, raw, maxBytes, amounts(0), start.size);
      }
      if followed && Quiet(since, later, before) {
        QuietBetween(since, now, later, before);
        TrackDelivers(cursor, since, now, later, before, p, from, start.truncated);
      }
      if placed {
        EndsPlaced(since, later, before, currentSlot, cursor, start, p, read.content, next, raw, maxBytes, amounts);
      }
    }

    // ----- the bounded retry --------------------------------------------------------------------------

    lemma FoundIsDelivered(cursor: Cursor, since: nat, later: nat, content: Bytes, next: NextCursor, raw: Bytes)
      requires At(since) && since <= later && At(later) && Tracked(since, cursor)
      requires next.inode == cursor.inode && next.generation == cursor.generation.value
      requires content == raw[..Utf8.CompletePrefix(raw)] && next.offset == cursor.offset + |content|
      requires Delivers(worlds[later], raw, cursor.inode, cursor.generation.value, cursor.offset + |raw|)
      ensures Delivered(Some(cursor), since, later, content, next, raw)
    {
    }

    lemma DeliveredLater(cursor: Option<Cursor>, since: nat, was: nat, later: nat, content: Bytes, next: NextCursor,
        raw: Bytes)
      requires was <= later && At(later) && Delivered(cursor, since, was, content, next, raw)
      ensures Delivered(cursor, since, later, content, next, raw)
    {
      hide LogWorld.Valid, LogWorld.Evolves, Utf8.CompletePrefix;
      var a, b := worlds[was], worlds[later];
      Explains(was);
      Explains(later);
      assert Evolves(a, b);
      DeliveredStays(a, b, raw, next.inode, next.generation, next.offset + (|raw| - |content|));
      BaseKeeps(a, b, next.inode, next.generation);
      if cursor.Some? && Tracked(since, cursor.value) && !next.truncated {
        CursorStays(cursor.value, was, later);
      }
    }

    lemma BaseKeeps(a: World, b: World, inode: Inode, generation: nat)
      requires Evolves(a, b) && Held(a.content, a.lineage) && Held(b.content, b.lineage) && Honest(a, inode, generation)
      ensures Honest(b, inode, generation) && IndexOf(b, generation) == IndexOf(a, generation)
      ensures Base(b, IndexOf(b, generation)) == Base(a, IndexOf(a, generation))
    {
      BaseStays(a, b, IndexOf(a, generation));
    }

    /** The read did not continue at a cursor: it had none, or the file of its cursor was not found. */
    ghost predicate Unplaced(since: nat, cursor: Option<Cursor>, next: NextCursor)
      requires At(since)
    {
      Followed(since, cursor) && (cursor.None? || next.truncated)
    }

    /** The returned file is not the log of the returned generation, but of the one after it. */
    ghost predicate Misnamed(now: nat, next: NextCursor)
      requires At(now)
    {
      Honest(worlds[now], next.inode, next.generation + 1) && !Honest(worlds[now], next.inode, next.generation)
    }

    /** Slot 0 of a prepared directory is the next log, and the marker still has the number before it. */
    lemma PreparedIsMisnamed(before: Marker, since: nat, from: nat, later: nat, next: NextCursor)
      requires At(since) && since <= from <= later && At(later) && before.Rotating? && Calm(since, before)
      requires Calm(later, before)
      requires PreparedMidShift(worlds[since]) && next.generation == before.generation
      requires OpenedIn(from, later, 0, next.inode)
      ensures Misnamed(later, next)
    {
      hide LogWorld.Evolves, LogWorld.Distinct, LogWorld.Names;
      var t :| from <= t <= later && 0 in timeline[t].names && timeline[t].names[0] == next.inode;
      var a, b, c := worlds[since], worlds[t], worlds[later];
      assert Evolves(a, b) && Evolves(b, c);
      SameViewBetween(a, b, c);
      PreparedStays(a, b, anchorRetained);
      Explains(t);
      Explains(later);
      PreparedMidShiftMisnames(b, anchorRetained);
      assert Names(b)[0] == next.inode;
      BaseKeeps(b, c, next.inode, next.generation + 1);
      assert c.lineage[IndexOf(c, next.generation)] != next.inode;
    }

    lemma MisnamedLater(was: nat, later: nat, next: NextCursor)
      requires At(was) && was <= later && At(later) && Misnamed(was, next)
      ensures Misnamed(later, next)
    {
    }

    lemma CalmBetween(before: Marker, since: nat, mid: nat, later: nat)
      requires At(since) && since <= mid <= later && At(mid) && At(later) && Calm(since, before) && Calm(later, before)
      ensures Calm(mid, before)
    {
      var a, b, c := worlds[since], worlds[mid], worlds[later];
      assert Valid(a, anchorRetained) && Valid(b, anchorRetained) && Evolves(a, b) && Evolves(b, c);
      SameViewBetween(a, b, c);
    }

    /** The scan of a rotating read, with what it means for a cursor known at moment `since`. */
    method ScanFirst(cursor: Cursor, maxBytes: nat, amount: nat, now: nat, ghost since: nat)
        returns (later: nat, scan: Scan, ghost raw: Bytes)
      requires At(since) && since <= now && At(now) && 1 <= maxBytes
      ensures now <= later && At(later)
      ensures scan.Found? ==> |raw| <= maxBytes && FoundIn(now, later, scan.next)
      ensures scan.Found? && Tracked(since, cursor) ==>
        && !scan.next.truncated && 0 <= scan.next.offset
        && Delivered(Some(cursor), since, later, scan.content, scan.next, raw)
      ensures scan.NotFound? && Tracked(since, cursor) ==>
        PastSlots(worlds[later], IndexOf(worlds[since], cursor.generation.value), retainedFiles + 1)
      ensures steady && scan.ScanFailed? ==> scan.error != IdentityChanged
      ensures scan.ScanFailed? ==>
        scan.error == IdentityChanged || (scan.error == CursorBeyondSegment && !Tracked(since, cursor))
    {
      hide LogWorld.Evolves, LogWorld.Valid, LogWorld.Names, LogWorld.DiskOf, Delivered, Explained, Honest, Base;
      hide PastSlots, Delivers, FoundIn;
      if Tracked(since, cursor) {
        CursorStays(cursor, since, now);
      }
      later, scan, raw := ReadRotatingCursor(cursor, maxBytes, amount, now);
      if scan.Found? && Tracked(since, cursor) {
        FoundIsDelivered(cursor, since, later, scan.content, scan.next, raw);
      }
    }

    /** What lies between the two readings of the marker: under a plain number the cursor's generation
        picks the segment; during a rotation the cursor's file is looked for first. */
    method ReadUnder(before: Marker, cursor: Option<Cursor>, maxBytes: nat, amounts: nat -> nat, now: nat)
        returns (later: nat, read: Read, ghost raw: Bytes)
      requires At(now) && 1 <= maxBytes && Calm(now, before) && (before.Stable? || before.Rotating?)
      ensures now <= later && At(later)
      ensures read.Done? ==> |raw| <= maxBytes
      ensures read.Done? && Unplaced(now, cursor, read.next) && (before.Rotating? || Quiet(now, later, before)) ==>
        TailRead(now, later, read.content, read.next, raw, maxBytes, amounts(0))
      ensures read.Done? && Followed(now, cursor) && (before.Rotating? || Quiet(now, later, before)) ==>
        RotatedRight(now, later, cursor, read.next)
      ensures Followed(now, cursor) && Frozen(now) && (before.Rotating? || 0 in timeline[now].names) ==> read.Done?
      ensures read.Done? && Followed(now, cursor) && Quiet(now, later, before) ==>
        Delivered(cursor, now, later, read.content, read.next, raw)
      ensures read.Done? && before.Rotating? && cursor.Some? && Tracked(now, cursor.value) && !read.next.truncated ==>
        0 <= read.next.offset && Delivered(cursor, now, later, read.content, read.next, raw)
      ensures read.Done? && before.Rotating? && PreparedMidShift(worlds[now]) && Calm(later, before) ==>
        (Unplaced(now, cursor, read.next) ==> Misnamed(later, read.next) && read.next.generation == before.generation)
      ensures read.Failed? && read.error !in {Missing, IdentityChanged} ==>
        || (read.error == CursorBeyondSegment && !Followed(now, cursor))
        || (read.error == NoReadableSegment && !Calm(later, before))
      ensures cursor.Some? && Tracked(now, cursor.value) && Frozen(now) && before.Stable? ==>
        && (InReach(now, cursor.value) ==>
              && read.Done? && !read.next.truncated
              && read.next.offset == Returned(now, cursor.value, maxBytes, amounts))
        && (read.Done? && !read.next.truncated ==> InReach(now, cursor.value))
    {
      hide LogWorld.Evolves, LogWorld.Valid, LogWorld.Names, LogWorld.DiskOf, PreparedMidShift, Delivered, Explained;
      hide ValidCursor, PastSlots, View, Frozen, InReach, Returned, TailRead, FoundIn;
      raw, later := [], now;
      var currentSlot := 0;
      ghost var resolved, scanned := now, now;
      if Frozen(now) {
        FrozenDisk(now, later);
      }
      if before.Rotating? {
        var error: Option<ReadError>;
        later, currentSlot, error := ResolveRotationSnapshot(before, now);
        if error.Some? { return later, Failed(error.value), raw; }
        resolved := later;
        if Frozen(now) {
          FrozenDisk(now, later);
        }
        if cursor.Some? {
          var scan: Scan;
          later, scan, raw := ScanFirst(cursor.value, maxBytes, amounts(0), later, now);
          match scan
          case Found(content, next) =>
            if Tracked(now, cursor.value) {
              FoundInLater(now, resolved, later, later, next);
            }
            return later, Done(content, next), raw;
          case ScanFailed(failure) =>
            return later, Failed(failure), raw;
          case NotFound =>
            if Quiet(now, later, before) {
              QuietBetween(now, resolved, later, before);
            }
        }
        scanned := later;
        if Frozen(now) {
          FrozenDisk(now, later);
        }
      }
      later, read, raw := ReadCursorGeneration(before, cursor, maxBytes, currentSlot, amounts, later, now, scanned);
      if read.Done? && Followed(now, cursor) && before.Rotating? && Calm(later, before) {
        if PreparedMidShift(worlds[now]) {
          CalmBetween(before, now, resolved, later);
          PreparedIsMisnamed(before, now, scanned, later, read.next);
        }
      }
    }

    /** While the directory stands still, so does what a cursor reaches. */
    lemma FrozenReach(cursor: Cursor, now: nat, later: nat, bound: nat, amounts: nat -> nat)
      requires Frozen(now) && now <= later && At(later) && Tracked(now, cursor)
      ensures Frozen(later) && Tracked(later, cursor) && worlds[later] == worlds[now]
      ensures InReach(later, cursor) <==> InReach(now, cursor)
      ensures InReach(now, cursor) ==> View(worlds[now].marker).Stable?
      ensures Returned(later, cursor, bound, amounts) == Returned(now, cursor, bound, amounts)
    {
    }

    /** There is a log to read: under a plain number the current name leads to it. */
    ghost predicate HasCurrent(now: nat)
      requires At(now)
    {
      View(worlds[now].marker).Rotating? || 0 in timeline[now].names
    }

    /** One attempt: marker, data, marker again. Only an attempt whose two readings of the marker agree
        returns what it read; any other outcome is retried, except an error that no rotation explains. */
    method Attempt(cursor: Option<Cursor>, maxBytes: nat, amounts: nat -> nat, now: nat)
        returns (later: nat, read: Read, again: bool, ghost since: nat, ghost raw: Bytes)
      requires At(now) && 1 <= maxBytes
      ensures now <= since <= later && At(since) && At(later)
      ensures read.Done? ==> |raw| <= maxBytes && View(worlds[since].marker) == View(worlds[later].marker)
      ensures read.Done? && Unplaced(since, cursor, read.next) ==>
        TailRead(since, later, read.content, read.next, raw, maxBytes, amounts(0))
      ensures read.Done? && Followed(since, cursor) ==> RotatedRight(since, later, cursor, read.next)
      ensures Followed(since, cursor) && Frozen(now) && HasCurrent(now) ==> read.Done?
      ensures read.Done? && Followed(since, cursor) && !PreparedMidShift(worlds[later]) ==>
        Delivered(cursor, since, later, read.content, read.next, raw)
      ensures read.Done? && cursor.Some? && Tracked(since, cursor.value) && !read.next.truncated ==>
        Delivered(cursor, since, later, read.content, read.next, raw)
      ensures read.Done? && cursor.Some? && Tracked(since, cursor.value) && !read.next.truncated ==>
        (View(worlds[since].marker).Rotating? ==> 0 <= read.next.offset)
      ensures read.Done? && Unplaced(since, cursor, read.next) && PreparedMidShift(worlds[since]) ==>
        Misnamed(later, read.next) && read.next.generation == MarkerGeneration(worlds[since].marker)
      ensures read.Failed? && !again ==> read.error == CursorBeyondSegment && !Followed(since, cursor)
      ensures cursor.Some? && Tracked(now, cursor.value) && Frozen(now) ==>
        && (InReach(now, cursor.value) ==>
              && read.Done? && !read.next.truncated
              && read.next.offset == Returned(now, cursor.value, maxBytes, amounts))
        && (read.Done? && !read.next.truncated && read.next.offset < 0 ==> InReach(now, cursor.value))
    {
      hide LogWorld.Evolves, LogWorld.Valid, LogWorld.Names, LogWorld.DiskOf, SlotFits, Delivered, Explained, Honest;
      hide ValidCursor, Misnamed, PreparedMidShift, Frozen, InReach, Returned, TailRead, FoundIn;
      raw := [];
      var marker: Option<Marker>;
      later, marker := ReadMarker(now);
      since := later;
      ghost var frozen := Frozen(now) && cursor.Some? && Tracked(now, cursor.value);
      if frozen {
        FrozenReach(cursor.value, now, since, maxBytes, amounts);
      }
      if Frozen(now) {
        FrozenDisk(now, since);
      }
      if marker.None? { return later, Failed(IdentityChanged), true, since, raw; }
      var before := marker.value;
      later, read, raw := ReadUnder(before, cursor, maxBytes, amounts, later);
      ghost var ended := later;
      if read == Failed(IdentityChanged) { return later, read, true, since, raw; }
      later, marker := ReadMarker(later);
      if Frozen(now) {
        FrozenDisk(now, later);
      }
      var same := marker == Some(before);
      again := !same || read == Failed(Missing);
      if !same {
        read := Failed(IdentityChanged);
      } else {
        StillCalm(since, ended, later, before);
        if read.Done? && Delivered(cursor, since, ended, read.content, read.next, raw) {
          DeliveredLater(cursor, since, ended, later, read.content, read.next, raw);
        }
        if read.Done? && Unplaced(since, cursor, read.next) {
          TailReadLater(since, ended, later, read.content, read.next, raw, maxBytes, amounts(0));
        }
        if read.Done? && Followed(since, cursor) && FoundIn(since, ended, read.next) {
          FoundInLater(since, since, ended, later, read.next);
        }
        if read.Done? && Misnamed(ended, read.next) {
          MisnamedLater(ended, later, read.next);
        }
      }
    }

    /** Two equal readings of the marker enclose only that reading; and if the daemon's preparation is
        not pending at the end, it never was in between. */
    lemma StillCalm(since: nat, ended: nat, later: nat, before: Marker)
      requires since <= ended <= later && At(since) && At(ended) && At(later) && Calm(since, before)
      requires Calm(later, before)
      ensures Calm(ended, before)
      ensures PreparedMidShift(worlds[since]) ==> before.Rotating?
      ensures !PreparedMidShift(worlds[later]) ==> Quiet(since, ended, before)
      ensures before.Stable? ==> !PreparedMidShift(worlds[later])
    {
      var a, b, c := worlds[since], worlds[ended], worlds[later];
      assert Valid(a, anchorRetained) && Valid(b, anchorRetained) && Valid(c, anchorRetained);
      assert Evolves(a, b) && Evolves(b, c);
      SameViewBetween(a, b, c);
    }

    /** Three attempts, each with what its calls get. A reader whose cursor this log produced fails in one way
        only: the log kept rotating. Whatever is returned was read between two equal readings of the marker. */
    method ReadCursor(cursor: Option<Cursor>, maxBytes: nat, amounts: nat -> nat -> nat, now: nat)
        returns (later: nat, read: Read, ghost since: nat, ghost raw: Bytes, ghost tries: nat)
      requires At(now) && 1 <= maxBytes
      ensures now <= since <= later && At(since) && At(later)
      ensures read.Done? ==> |raw| <= maxBytes && View(worlds[since].marker) == View(worlds[later].marker)
      ensures 1 <= tries <= 3 && (read == Failed(RotatedDuringRead) ==> tries == 3)
      ensures read.Done? && Unplaced(since, cursor, read.next) ==>
        TailRead(since, later, read.content, read.next, raw, maxBytes, amounts(tries - 1)(0))
      ensures read.Done? && Followed(since, cursor) ==> RotatedRight(since, later, cursor, read.next)
      ensures Followed(now, cursor) && Frozen(now) && HasCurrent(now) ==> read.Done?
      ensures read.Done? && Unplaced(since, cursor, read.next) && Frozen(now) && HasCurrent(now) ==>
        Followed(now, cursor) ==> TailRead(since, later, read.content, read.next, raw, maxBytes, amounts(0)(0))
      ensures read.Done? && Followed(since, cursor) && !PreparedMidShift(worlds[later]) ==>
        Delivered(cursor, since, later, read.content, read.next, raw)
      ensures read.Done? && cursor.Some? && Tracked(since, cursor.value) && !read.next.truncated ==>
        Delivered(cursor, since, later, read.content, read.next, raw)
      ensures read.Done? && cursor.Some? && Tracked(since, cursor.value) && !read.next.truncated ==>
        (View(worlds[since].marker).Rotating? ==> 0 <= read.next.offset)
      ensures read.Done? && Unplaced(since, cursor, read.next) && PreparedMidShift(worlds[since]) ==>
        Misnamed(later, read.next) && read.next.generation == MarkerGeneration(worlds[since].marker)
      ensures Followed(now, cursor) && read.Failed? ==> read.error == RotatedDuringRead
      ensures read.Failed? ==> read.error in {RotatedDuringRead, CursorBeyondSegment}
      ensures cursor.Some? && Tracked(now, cursor.value) && Frozen(now) ==>
        && (InReach(now, cursor.value) ==>
              && read.Done? && !read.next.truncated
              && read.next.offset == Returned(now, cursor.value, maxBytes, amounts(0)))
        && (read.Done? && !read.next.truncated && read.next.offset < 0 ==> InReach(now, cursor.value))
    {
      hide LogWorld.Evolves, LogWorld.Valid, LogWorld.Names, LogWorld.DiskOf, Delivered, PreparedMidShift, Explained;
      hide Honest, Misnamed, Frozen, InReach, Returned, TailRead, RotatedRight, HasCurrent;
      ghost var frozen := Frozen(now) && cursor.Some? && Tracked(now, cursor.value);
      var attempt := 0;
      later, since, raw, tries := now, now, [], 0;
      while attempt < 3
        invariant now <= since <= later && At(since) && At(later)
        invariant attempt == 0 ==> later == now
        invariant tries == attempt <= 3
        invariant 0 < attempt ==> !(Followed(now, cursor) && Frozen(now) && HasCurrent(now))
        invariant frozen && 0 < attempt ==> !InReach(now, cursor.value)
      {
        var again: bool;
        ghost var began := later;
        if frozen {
          FrozenReach(cursor.value, now, began, maxBytes, amounts(attempt));
        }
        later, read, again, since, raw := Attempt(cursor, maxBytes, amounts(attempt), later);
        tries := tries + 1;
        if Followed(now, cursor) && cursor.Some? {
          CursorStays(cursor.value, now, since);
        }
        if read.Done? || !again { return; }
        attempt := attempt + 1;
      }
      read := Failed(RotatedDuringRead);
    }

    // ----- reading again with the cursor a read returned ----------------------------------------------

    /** A read that was not flagged truncated returned the bytes written right after the caller's cursor,
        and its new cursor stands right behind them, provided the offset did not fall below zero. It does
        exactly when the held-back character begins in an earlier segment than the last one read. */
    lemma ReadIsSlice(cursor: Cursor, since: nat, now: nat, content: Bytes, next: NextCursor, raw: Bytes)
      requires Delivered(Some(cursor), since, now, content, next, raw) && Tracked(since, cursor) && !next.truncated
      ensures next.offset < 0 <==>
        Position(worlds[now], cursor) + |content| < Base(worlds[now], IndexOf(worlds[now], next.generation))
      ensures 0 <= next.offset ==>
        && ValidNext(now, next)
        && (var from, to := Position(worlds[now], cursor), Position(worlds[now], AsCursor(next));
            from <= to <= |Written(worlds[now])| && content == Written(worlds[now])[from..to])
    {
      hide LogWorld.Evolves, LogWorld.Valid, Utf8.CompletePrefix;
      Explains(now);
      if 0 <= next.offset {
        var all := Written(worlds[now]);
        var from := Position(worlds[now], cursor);
        assert all[from..from + |raw|] == raw;
        assert all[from..from + |content|] == raw[..|content|];
      }
    }

    /** A read that ends in the cursor's own segment always resumes exactly. */
    lemma OneSegmentResumes(cursor: Cursor, since: nat, now: nat, content: Bytes, next: NextCursor, raw: Bytes)
      requires Delivered(Some(cursor), since, now, content, next, raw) && Tracked(since, cursor) && !next.truncated
      requires next.generation == cursor.generation.value
      ensures 0 <= next.offset
    {
    }

    // ----- when a cursor can be resumed whatever a read does --------------------------------------------

    /** Seen from the cursor, every later segment begins at a character boundary: no rotation tore a
        character. This can be told from the files before the read, and over text it suffices, whatever
        happens during the read. */
    ghost predicate NoTornCharacter(now: nat, cursor: Cursor)
      requires At(now) && Tracked(now, cursor)
    {
      forall i :: IndexOf(worlds[now], cursor.generation.value) < i < |worlds[now].lineage| ==>
        StartsWhole(now, cursor, i)
    }

    ghost predicate StartsWhole(now: nat, cursor: Cursor, i: nat)
      requires At(now) && Tracked(now, cursor)
      requires IndexOf(worlds[now], cursor.generation.value) < i < |worlds[now].lineage|
    {
      CursorBefore(now, cursor, i);
      Utf8.WellFormed(Written(worlds[now])[Position(worlds[now], cursor)..Base(worlds[now], i)])
    }

    lemma CursorBefore(now: nat, cursor: Cursor, i: nat)
      requires At(now) && Tracked(now, cursor)
      requires IndexOf(worlds[now], cursor.generation.value) < i < |worlds[now].lineage|
      ensures Held(worlds[now].content, worlds[now].lineage)
      ensures Position(worlds[now], cursor) <= Base(worlds[now], i) <= |Written(worlds[now])|
    {
      Explains(now);
      var w := worlds[now];
      var c := IndexOf(w, cursor.generation.value);
      SegmentInStream(w, c, 0, 0);
      SegmentInStream(w, i, 0, 0);
      SpanSplits(w.content, w.lineage, 0, c + 1, i);
    }

    /** The stream from the cursor on is text, possibly ending inside a character. */
    ghost predicate TextFrom(now: nat, cursor: Cursor)
      requires At(now) && Tracked(now, cursor)
    {
      Explains(now);
      CursorInStream(now, cursor);
      Utf8.CanContinue(Written(worlds[now])[Position(worlds[now], cursor)..])
    }

    lemma CursorInStream(now: nat, cursor: Cursor)
      requires At(now) && Tracked(now, cursor)
      ensures Held(worlds[now].content, worlds[now].lineage) && Position(worlds[now], cursor) <= |Written(worlds[now])|
    {
      Explains(now);
      SegmentInStream(worlds[now], IndexOf(worlds[now], cursor.generation.value), cursor.offset, cursor.offset);
    }

    lemma WholeStartsSuffice(cursor: Cursor, since: nat, now: nat, content: Bytes, next: NextCursor, raw: Bytes)
      requires Delivered(Some(cursor), since, now, content, next, raw) && Tracked(since, cursor) && !next.truncated
      requires At(now) && Tracked(now, cursor) && TextFrom(now, cursor) && NoTornCharacter(now, cursor)
      ensures 0 <= next.offset
    {
      hide LogWorld.Evolves, LogWorld.Valid, Utf8.CompletePrefix, Utf8.CanContinue, Utf8.WellFormed;
      Explains(now);
      CursorInStream(now, cursor);
      var w := worlds[now];
      var i := IndexOf(w, next.generation);
      if IndexOf(w, cursor.generation.value) < i {
        assert StartsWhole(now, cursor, i);
        CursorBefore(now, cursor, i);
        var from := Position(w, cursor);
        var text := Written(w)[from..];
        assert raw == text[..|raw|];
        Utf8.PrefixOfText(text, |raw|);
        Utf8.CutsAtLastBoundary(raw);
        var whole := Base(w, i) - from;
        if whole <= |raw| {
          assert raw[..whole] == Written(w)[from..Base(w, i)];
        }
      } else if next.offset < 0 {
        SegmentInStream(w, i, 0, 0);
        if i < IndexOf(w, cursor.generation.value) {
          SpanSplits(w.content, w.lineage, 0, i + 1, IndexOf(w, cursor.generation.value));
        }
      }
    }

    /** With these amounts the reader returns an offset below zero if nothing changes (`ReadStill`). */
    ghost predicate AnswersBelowZero(now: nat, cursor: Cursor, maxBytes: nat, amounts: nat -> nat)
      requires At(now) && Tracked(now, cursor)
    {
      InReach(now, cursor) && Returned(now, cursor, maxBytes, amounts) < 0
    }

    /** A read of a directory that stands still. */
    method ReadStill(cursor: Cursor, maxBytes: nat, amounts: nat -> nat -> nat, now: nat)
        returns (later: nat, read: Read)
      requires Frozen(now) && Tracked(now, cursor) && 1 <= maxBytes
      ensures now <= later && At(later)
      ensures read.Done? && !read.next.truncated && read.next.offset < 0 <==>
        AnswersBelowZero(now, cursor, maxBytes, amounts(0))
      ensures InReach(now, cursor) ==> read.Done? && !read.next.truncated
    {
      hide InReach, Returned, Explained, ValidCursor;
      ghost var since: nat;
      ghost var raw: Bytes;
      ghost var tries: nat;
      later, read, since, raw, tries := ReadCursor(Some(cursor), maxBytes, amounts, now);
    }

    /** A read without a cursor, of a directory that stands still, by calls that get all they ask for: it returns the
        last bytes of the log, as many as it may, but for an incomplete character at the end; and the returned
        cursor and what was held back end with the file. */
    method ReadTail(maxBytes: nat, amounts: nat -> nat -> nat, now: nat)
        returns (later: nat, read: Read, ghost raw: Bytes)
      requires Frozen(now) && HasCurrent(now) && 1 <= maxBytes <= amounts(0)(0)
      ensures read.Done? && read.next.inode in timeline[now].content && !read.next.rotated
      ensures var file, next := timeline[now].content[read.next.inode], read.next;
        && raw == file[TailFrom(|file|, maxBytes)..]
        && read.content == raw[..Utf8.CompletePrefix(raw)]
        && next.offset + (|raw| - |read.content|) == |file|
        && next.generation == MarkerGeneration(worlds[now].marker)
      ensures !PreparedMidShift(worlds[now]) ==> Honest(worlds[now], read.next.inode, read.next.generation)
    {
      hide LogWorld.Evolves, LogWorld.Valid, LogWorld.DiskOf, Utf8.CompletePrefix, Explained, HasCurrent;
      hide PreparedMidShift;
      ghost var since: nat;
      ghost var tries: nat;
      later, read, since, raw, tries := ReadCursor(None, maxBytes, amounts, now);
      FrozenDisk(now, since);
      FrozenDisk(now, later);
      TailIsWhole(now, since, later, read.content, read.next, raw, maxBytes, amounts(0)(0));
    }

    lemma TailIsWhole(now: nat, since: nat, later: nat, content: Bytes, next: NextCursor, raw: Bytes, maxBytes: nat,
        amount: nat)
      requires Frozen(now) && now <= since <= later && maxBytes <= amount
      requires TailRead(since, later, content, next, raw, maxBytes, amount)
      ensures next.inode in timeline[now].content
      ensures var file := timeline[now].content[next.inode];
        raw == file[TailFrom(|file|, maxBytes)..] && content == raw[..Utf8.CompletePrefix(raw)]
        && next.offset + (|raw| - |content|) == |file|
      ensures next.generation == MarkerGeneration(worlds[now].marker)
    {
      hide LogWorld.Evolves, LogWorld.Valid, LogWorld.DiskOf, Utf8.CompletePrefix;
      FrozenDisk(now, since);
      FrozenDisk(now, later);
      var size: nat :|
        WasSize(since, later, next.inode, size) && next.offset == TailFrom(size, maxBytes) + |content|
        && TailOf(timeline[later].content[next.inode], size, raw, maxBytes, amount);
      var t :| since <= t <= later && next.inode in timeline[t].content && |timeline[t].content[next.inode]| == size;
      FrozenDisk(now, t);
    }

    /** The exact condition on the files: with some amounts of at least `least` bytes a call, where as many are
        left, the reader returns an offset below zero if and only if it reads by number from a segment in reach,
        and there is a place to stop where what is held back began in an earlier segment. */
    lemma BelowZeroIff(cursor: Cursor, now: nat, maxBytes: nat, least: nat)
      requires At(now) && Tracked(now, cursor)
      ensures Held(worlds[now].content, worlds[now].lineage)
      ensures
        (exists amounts: nat -> nat :: AtLeast(amounts, least) && AnswersBelowZero(now, cursor, maxBytes, amounts))
        <==>
        && InReach(now, cursor)
        && MayFall(worlds[now], IndexOf(worlds[now], cursor.generation.value), Position(worlds[now], cursor),
             maxBytes, least)
    {
      hide ReturnedOffset, MayFall, AtLeast, Base, InReach;
      Explains(now);
      var w := worlds[now];
      var i := IndexOf(w, cursor.generation.value);
      FallsExactly(w, i, cursor.offset, maxBytes, least);
      assert forall amounts: nat -> nat :: AtLeast(amounts, least) ==>
        Returned(now, cursor, maxBytes, amounts) == ReturnedOffset(w, i, cursor.offset, maxBytes, amounts);
    }

    /** The amounts: from every such place, `steps` segments on and k bytes into the segment, the reader does
        return one. */
    method ReadBelowZero(cursor: Cursor, maxBytes: nat, least: nat, steps: nat, k: nat, now: nat)
        returns (later: nat, read: Read, ghost since: nat, ghost raw: Bytes)
      requires Frozen(now) && Tracked(now, cursor) && 1 <= maxBytes && InReach(now, cursor)
      requires Held(worlds[now].content, worlds[now].lineage)
      requires var i := IndexOf(worlds[now], cursor.generation.value);
        FallsAt(worlds[now], i, Position(worlds[now], cursor), maxBytes, least, i + steps, k)
      ensures AtLeast(Until(maxBytes, least, steps, k), least)
      ensures now <= since <= later && At(since) && At(later)
      ensures read.Done? && !read.next.truncated && read.next.offset < 0
      ensures Tracked(since, cursor) && Delivered(Some(cursor), since, later, read.content, read.next, raw)
    {
      hide InReach, FallsAt, AtLeast, Explained, ReturnedOffset, Base, Delivered, Until;
      var amounts := Until(maxBytes, least, steps, k);
      ghost var w := worlds[now];
      ghost var i := IndexOf(w, cursor.generation.value);
      FallsThere(w, i, cursor.offset, maxBytes, least, i + steps, k);
      ghost var tries: nat;
      later, read, since, raw, tries := ReadCursor(Some(cursor), maxBytes, attempt => amounts, now);
      CursorStays(cursor, now, since);
    }

    ghost predicate ValidNext(now: nat, next: NextCursor)
      requires At(now)
    {
      0 <= next.offset && ValidCursor(worlds[now], AsCursor(next))
    }

    /** Any number of reads, each starting where the previous one ended, with appends and rotations in
        between and during them: together they return one stretch of the stream, no gap and no repeat. */
    lemma {:induction false} ChainedReadsAreConsecutive(turns: seq<Turn>)
      requires turns != [] && Chained(turns)
      ensures var first, last := turns[0], turns[|turns| - 1];
        && first.since <= last.now && ValidCursor(worlds[last.now], first.cursor)
        && ValidCursor(worlds[last.now], AsCursor(last.next))
        && (var from, to := Position(worlds[last.now], first.cursor), Position(worlds[last.now], AsCursor(last.next));
            && from <= to <= |Written(worlds[last.now])|
            && Collected(turns) == Written(worlds[last.now])[from..to])
    {
      hide LogWorld.Evolves, LogWorld.Valid, Delivered, CursorPositions.ValidCursor, Base, Span;
      var n := |turns| - 1;
      var last := turns[n];
      ReadIsSlice(last.cursor, last.since, last.now, last.content, last.next, last.raw);
      CursorStays(last.cursor, last.since, last.now);
      if n > 0 {
        var earlier := turns[..n];
        assert Chained(earlier);
        ChainedReadsAreConsecutive(earlier);
        var was := turns[n - 1].now;
        CursorStays(turns[0].cursor, was, last.now);
        CursorStays(last.cursor, was, last.now);
        WrittenStays(was, last.now);
        JoinSlices(Written(worlds[was]), Written(worlds[last.now]), Position(worlds[was], turns[0].cursor),
                   Position(worlds[was], last.cursor), Position(worlds[last.now], AsCursor(last.next)));
      } else {
        assert turns[..0] == [];
      }
    }

    lemma WrittenStays(was: nat, now: nat)
      requires At(was) && was <= now && At(now)
      ensures Held(worlds[was].content, worlds[was].lineage) && Held(worlds[now].content, worlds[now].lineage)
      ensures Written(worlds[was]) <= Written(worlds[now])
    {
      Explains(was);
      Explains(now);
      WrittenGrows(worlds[was], worlds[now]);
    }

    /** Each read was done with the cursor the one before it returned, none was flagged truncated, and no
        offset fell below zero. */
    ghost predicate Chained(turns: seq<Turn>) {
      forall k :: 0 <= k < |turns| ==>
        && At(turns[k].since) && At(turns[k].now) && turns[k].since <= turns[k].now
        && Delivered(Some(turns[k].cursor), turns[k].since, turns[k].now, turns[k].content, turns[k].next, turns[k].raw)
        && Tracked(turns[k].since, turns[k].cursor) && !turns[k].next.truncated && 0 <= turns[k].next.offset
        && (0 < k ==>
              turns[k - 1].now <= turns[k].since && 0 <= turns[k - 1].next.offset
              && turns[k].cursor == AsCursor(turns[k - 1].next))
    }
  }

  /** A finished read, as its caller sees it. */
  datatype Turn = Turn(cursor: Cursor, since: nat, now: nat, content: Bytes, next: NextCursor, raw: Bytes)

  function AsCursor(next: NextCursor): Cursor
    requires 0 <= next.offset
  {
    Cursor(next.inode, next.offset, Some(next.generation))
  }

  function Collected(turns: seq<Turn>): Bytes {
    if turns == [] then [] else Collected(turns[..|turns| - 1]) + turns[|turns| - 1].content
  }

  lemma JoinSlices(earlier: Bytes, later: Bytes, from: nat, mid: nat, to: nat)
    requires earlier <= later && from <= mid <= |earlier| && mid <= to <= |later|
    ensures later[from..to] == earlier[from..mid] + later[mid..to]
  {
  }
}
