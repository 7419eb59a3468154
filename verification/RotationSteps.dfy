/** The atomic steps an anchor takes on a log directory, seen on worlds: each keeps the directory
    explained, moves it forward in time, and is exactly one publication, rename, unlink or creation. */
module RotationSteps {
  import opened LogWorld

  /** What a directory is committed to once its marker is read: the generation recovery ends in and
      the archives it leaves, newest first. */
  datatype Outcome = Outcome(generation: nat, archives: seq<Inode>)

  function Min(a: int, b: int): int { if a < b then a else b }

  /** The n segments that end at lineage index `last`, newest first. */
  function Newest(lineage: seq<Inode>, last: int, n: nat): (s: seq<Inode>)
    requires last < |lineage| && n <= last + 1
    ensures |s| == n && forall i :: 0 <= i < n ==> s[i] == lineage[last - i]
  {
    seq(n, i requires 0 <= i < n => lineage[last - i])
  }

  /** A published rotation is committed to generation g + 1 with the rotated log as newest archive;
      before that nothing changes. Only the segment beyond `retained` is given up. */
  ghost function OutcomeOf(w: World, retained: nat): Outcome
    requires Valid(w, retained)
  {
    if Boot(w) then Outcome(0, [])
    else if w.marker.Rotating? then
      Outcome(w.marker.generation + 1, Newest(w.lineage, Top(w), Min(w.kept, retained)))
    else
      Outcome(MarkerGeneration(w.marker), Newest(w.lineage, Top(w) - 1, w.kept - 1))
  }

  /** What an uninterrupted rotation of a steady directory leaves. */
  ghost function RotationOutcome(w: World, retained: nat): Outcome
    requires Valid(w, retained) && !Boot(w) && !w.marker.Rotating?
  {
    Outcome(MarkerGeneration(w.marker) + 1, Newest(w.lineage, Top(w), Min(w.kept, retained)))
  }

  // ----- effects on the disk --------------------------------------------------------------------

  function Renamed(d: Disk, source: nat, target: nat): Disk
    requires source in d.names
  {
    d.(names := (d.names - {source})[target := d.names[source]])
  }

  function Unlinked(d: Disk, slot: nat): Disk {
    d.(names := d.names - {slot})
  }

  function Created(d: Disk, slot: nat, inode: Inode): Disk {
    d.(names := d.names[slot := inode], content := d.content[inode := []])
  }

  function Extended(d: Disk, inode: Inode, bytes: Bytes): Disk
    requires inode in d.content
  {
    d.(content := d.content[inode := d.content[inode] + bytes])
  }

  // ----- the steps on worlds --------------------------------------------------------------------

  function WithMarker(w: World, m: Marker): World { w.(marker := m) }

  function WithoutOldest(w: World, retained: nat): World { w.(kept := retained, gap := retained - 1) }

  function ShiftedUp(w: World): World { w.(gap := w.gap - 1) }

  function WithCurrent(w: World, inode: Inode): World {
    var lineage := w.lineage + [inode];
    var content := w.content[inode := []];
    if w.lineage == [] then w.(lineage := lineage, content := content, kept := 1, gap := 0)
    else w.(lineage := lineage, content := content, successor := true)
  }

  function Completed(w: World): World {
    w.(marker := Stable(MarkerGeneration(w.marker) + 1), kept := w.kept + 1, gap := w.kept, successor := false)
  }

  function Appended(w: World, bytes: Bytes): World
    requires w.lineage != [] && w.lineage[|w.lineage| - 1] in w.content
  {
    var current := w.lineage[|w.lineage| - 1];
    w.(content := w.content[current := w.content[current] + bytes])
  }

  /** b is one legitimate step after a, and `d` is what the step did to the disk of a. */
  ghost predicate Steps(a: World, b: World, d: Disk, retained: nat) {
    Valid(a, retained) && Valid(b, retained) && Evolves(a, b) && DiskOf(b) == d
  }

  lemma SameNames(a: World, b: World)
    requires Shape(a) && Shape(b)
    requires forall s: nat :: Occupied(a, s) == Occupied(b, s)
    requires forall s: nat :: Occupied(a, s) && Occupied(b, s) ==> a.lineage[Index(a, s)] == b.lineage[Index(b, s)]
    ensures Names(a) == Names(b)
  {
  }

  lemma MarkerNames(w: World, m: Marker)
    requires Shape(w)
    ensures Shape(WithMarker(w, m))
    ensures Names(WithMarker(w, m)) == Names(w)
  {
  }

  lemma MarkerEvolves(w: World, m: Marker)
    requires Shape(w) && Rank(w.marker) <= Rank(m)
    requires w.marker.Rotating? && m.Rotating? && w.marker.generation == m.generation ==>
      w.marker.transaction == m.transaction
    ensures Evolves(w, WithMarker(w, m))
  {
  }

  lemma MarkerOnly(w: World, m: Marker)
    requires Shape(w) && Rank(w.marker) <= Rank(m)
    requires w.marker.Rotating? && m.Rotating? && w.marker.generation == m.generation ==>
      w.marker.transaction == m.transaction
    ensures Shape(WithMarker(w, m)) && Evolves(w, WithMarker(w, m))
    ensures Names(WithMarker(w, m)) == Names(w)
  {
    MarkerNames(w, m);
    MarkerEvolves(w, m);
  }

  lemma BeginRotation(w: World, transaction: nat, retained: nat)
    requires Valid(w, retained) && w.marker.Stable? && w.marker.generation < MAX_SAFE_INTEGER
    requires w.content[w.lineage[Top(w)]] != []
    ensures var m := Rotating(w.marker.generation, Marking, transaction); var b := WithMarker(w, m);
            && Steps(w, b, DiskOf(w).(marker := m), retained)
            && OutcomeOf(b, retained) == RotationOutcome(w, retained)
  {
    MarkerOnly(w, Rotating(w.marker.generation, Marking, transaction));
  }

  /** Publishing a later phase of the running rotation, once the directory has reached it. */
  lemma AdvancePhase(w: World, phase: Phase, retained: nat)
    requires Valid(w, retained) && w.marker.Rotating?
    requires PhaseRank(w.marker.phase) <= PhaseRank(phase)
    requires PhaseFits(WithMarker(w, Rotating(w.marker.generation, phase, w.marker.transaction)), retained)
    ensures var m := Rotating(w.marker.generation, phase, w.marker.transaction); var b := WithMarker(w, m);
            && Steps(w, b, DiskOf(w).(marker := m), retained)
            && OutcomeOf(b, retained) == OutcomeOf(w, retained)
  {
    MarkerOnly(w, Rotating(w.marker.generation, phase, w.marker.transaction));
  }

  lemma WithoutOldestNames(w: World, retained: nat)
    requires Shape(w) && !w.successor && 1 <= retained && w.kept == retained + 1 && w.gap == retained
    ensures Shape(WithoutOldest(w, retained))
    ensures Names(WithoutOldest(w, retained)) == Names(w) - {retained}
  {
    hide LogWorld.Distinct;
    var b := WithoutOldest(w, retained);
    assert forall s: nat :: Occupied(b, s) <==> Occupied(w, s) && s != retained;
  }

  lemma WithoutOldestEvolves(w: World, retained: nat)
    requires Shape(w) && !w.successor && 1 <= retained && w.kept == retained + 1 && w.gap == retained
    requires w.marker.Rotating?
    ensures Evolves(w, WithoutOldest(w, retained))
  {
  }

  lemma RemoveOldest(w: World, retained: nat)
    requires Valid(w, retained) && MayRemove(w, retained)
    ensures var b := WithoutOldest(w, retained);
            && Steps(w, b, Unlinked(DiskOf(w), retained), retained)
            && OutcomeOf(b, retained) == OutcomeOf(w, retained)
  {
    WithoutOldestNames(w, retained);
    WithoutOldestEvolves(w, retained);
  }

  lemma ShiftedNames(w: World)
    requires Shape(w) && 0 <= w.gap && !w.successor && (w.gap + 1 !in Names(w))
    ensures w.gap in Names(w)
    ensures Shape(ShiftedUp(w))
    ensures Names(ShiftedUp(w)) == (Names(w) - {w.gap as nat})[w.gap + 1 := Names(w)[w.gap]]
  {
    var b := ShiftedUp(w);
    forall s: nat
      ensures Occupied(b, s) <==> (Occupied(w, s) && s != w.gap) || s == w.gap + 1
      ensures Index(b, s) ==
        if s == w.gap + 1 then Index(w, w.gap) else if s == w.gap then Index(w, s) + 1 else Index(w, s)
    {
    }
  }

  lemma ShiftedEvolves(w: World)
    requires Shape(w) && 0 <= w.gap && !w.successor && !w.marker.Malformed?
    ensures Evolves(w, ShiftedUp(w))
  {
  }

  /** Renaming the highest unshifted segment into the gap above it: an archive while `closed` is
      published, the rotated log itself while `shifted` is. */
  lemma ShiftIntoGap(w: World, retained: nat)
    requires Valid(w, retained) && MayShift(w, retained)
    ensures w.gap in Names(w) && w.gap + 1 !in Names(w)
    ensures var b := ShiftedUp(w);
            && Steps(w, b, Renamed(DiskOf(w), w.gap, w.gap + 1), retained)
            && OutcomeOf(b, retained) == OutcomeOf(w, retained)
  {
    ShiftedNames(w);
    ShiftedEvolves(w);
  }

  lemma CurrentShape(w: World, inode: Inode)
    requires Boot(w) || (Shape(w) && w.gap == -1 && !w.successor)
    requires inode !in w.content
    ensures 0 !in Names(w)
    ensures Shape(WithCurrent(w, inode))
    ensures Names(WithCurrent(w, inode)) == Names(w)[0 := inode]
  {
    var b := WithCurrent(w, inode);
    forall i, j | 0 <= i < j < |b.lineage|
      ensures b.lineage[i] != b.lineage[j]
    {
      if j == |w.lineage| {
        assert w.lineage[i] in w.content;
      }
    }
    forall s: nat
      ensures Occupied(b, s) <==> Occupied(w, s) || s == 0
      ensures Occupied(w, s) ==> Index(b, s) == Index(w, s)
    {
    }
  }

  lemma CurrentEvolves(w: World, inode: Inode)
    requires Boot(w) || (Shape(w) && w.gap == -1 && !w.successor && !w.marker.Malformed?)
    requires inode !in w.content
    ensures Evolves(w, WithCurrent(w, inode))
    ensures Held(w.content, w.lineage) && Held(WithCurrent(w, inode).content, WithCurrent(w, inode).lineage)
    ensures Written(WithCurrent(w, inode)) == Written(w)
  {
    var b := WithCurrent(w, inode);
    forall i | 0 <= i < |w.lineage|
      ensures b.lineage[i] == w.lineage[i] && w.lineage[i] in b.content
      ensures b.content[w.lineage[i]] == w.content[w.lineage[i]]
    {
      assert w.lineage[i] in w.content;
    }
    SpanDependsOnSegments(w.content, w.lineage, b.content, b.lineage, 0, |w.lineage|);
  }

  /** Creating an empty current log, at first use or after the old one was archived. */
  lemma CreateCurrent(w: World, inode: Inode, retained: nat)
    requires Valid(w, retained) && inode !in w.content && 1 <= retained
    requires MayCreate(w)
    ensures 0 !in Names(w)
    ensures var b := WithCurrent(w, inode);
            && Steps(w, b, Created(DiskOf(w), 0, inode), retained)
            && OutcomeOf(b, retained) == OutcomeOf(w, retained)
            && Written(b) == Written(w)
  {
    CurrentShape(w, inode);
    CurrentEvolves(w, inode);
    var b := WithCurrent(w, inode);
    if !Boot(w) {
      assert b.content[b.lineage[Top(b)]] == w.content[w.lineage[Top(w)]];
      assert OutcomeOf(b, retained).archives == OutcomeOf(w, retained).archives;
    }
  }

  lemma CompletedNames(w: World)
    requires Shape(w) && w.marker.Rotating? && w.successor
    ensures Shape(Completed(w))
    ensures Names(Completed(w)) == Names(w)
  {
  }

  lemma CompletedEvolves(w: World)
    requires Shape(w) && w.marker.Rotating? && w.successor
    ensures Evolves(w, Completed(w))
  {
  }

  lemma CompleteRotation(w: World, retained: nat)
    requires Valid(w, retained) && w.marker.Rotating? && w.successor && w.marker.phase == Opened
    ensures var m := Stable(w.marker.generation + 1); var b := Completed(w);
            && Steps(w, b, DiskOf(w).(marker := m), retained)
            && OutcomeOf(b, retained) == OutcomeOf(w, retained)
  {
    CompletedNames(w);
    CompletedEvolves(w);
  }

  lemma PublishStable(w: World, retained: nat)
    requires Valid(w, retained) && !w.marker.Rotating? && !Boot(w)
    ensures var m := Stable(MarkerGeneration(w.marker)); var b := WithMarker(w, m);
            && Steps(w, b, DiskOf(w).(marker := m), retained)
            && OutcomeOf(b, retained) == OutcomeOf(w, retained)
  {
    var b := WithMarker(w, Stable(MarkerGeneration(w.marker)));
    MarkerOnly(w, b.marker);
    StableOutcome(w, retained);
  }

  lemma StableOutcome(w: World, retained: nat)
    requires Valid(w, retained) && !w.marker.Rotating? && !Boot(w)
    ensures Shape(WithMarker(w, Stable(MarkerGeneration(w.marker))))
    ensures Valid(WithMarker(w, Stable(MarkerGeneration(w.marker))), retained)
    ensures OutcomeOf(WithMarker(w, Stable(MarkerGeneration(w.marker))), retained) == OutcomeOf(w, retained)
  {
  }

  lemma AppendedStream(w: World, bytes: Bytes)
    requires Shape(w) && w.lineage != []
    ensures Held(Appended(w, bytes).content, w.lineage)
    ensures Written(Appended(w, bytes)) == Written(w) + bytes
  {
    var b := Appended(w, bytes);
    var n := |w.lineage|;
    SpanDependsOnSegments(w.content, w.lineage, b.content, b.lineage, 0, n - 1);
    var before := Span(w.content, w.lineage, 0, n - 1);
    assert (before + w.content[w.lineage[n - 1]]) + bytes == before + (w.content[w.lineage[n - 1]] + bytes);
  }

  lemma AppendedEvolves(w: World, bytes: Bytes)
    requires Shape(w) && w.lineage != [] && !w.marker.Malformed?
    ensures Shape(Appended(w, bytes)) && Evolves(w, Appended(w, bytes))
    ensures Names(Appended(w, bytes)) == Names(w)
  {
    SameNames(Appended(w, bytes), w);
  }

  /** Writing to the current log adds to the stream and to nothing else. */
  lemma AppendBytes(w: World, bytes: Bytes, retained: nat)
    requires Valid(w, retained) && w.marker.Stable?
    ensures w.lineage != [] && 0 in Names(w) && Names(w)[0] == w.lineage[|w.lineage| - 1]
    ensures var b := Appended(w, bytes);
            && Steps(w, b, Extended(DiskOf(w), Names(w)[0], bytes), retained)
            && OutcomeOf(b, retained) == OutcomeOf(w, retained)
            && Written(b) == Written(w) + bytes
  {
    AppendedStream(w, bytes);
    AppendedEvolves(w, bytes);
  }

  // ----- publishing any marker ------------------------------------------------------------------

  /** The markers an anchor may publish over an explained directory. */
  ghost predicate MayPublish(w: World, m: Marker, retained: nat)
    requires Valid(w, retained)
  {
    match m
    case Stable(g) =>
      if w.marker.Rotating? then w.marker.phase == Opened && w.successor && g == w.marker.generation + 1
      else !Boot(w) && g == MarkerGeneration(w.marker)
    case Rotating(g, phase, transaction) =>
      if w.marker.Rotating? then
        && g == w.marker.generation && transaction == w.marker.transaction
        && PhaseRank(w.marker.phase) <= PhaseRank(phase) && PhaseFits(WithMarker(w, m), retained)
      else
        && w.marker == Stable(g) && g < MAX_SAFE_INTEGER && phase == Marking
        && w.content[w.lineage[Top(w)]] != []
    case _ => false
  }

  function Published(w: World, m: Marker): World {
    if w.marker.Rotating? && m.Stable? then Completed(w) else WithMarker(w, m)
  }

  lemma PublishSound(w: World, m: Marker, retained: nat)
    requires Valid(w, retained) && MayPublish(w, m, retained)
    ensures Steps(w, Published(w, m), DiskOf(w).(marker := m), retained)
    ensures OutcomeOf(Published(w, m), retained)
         == if m.Rotating? && w.marker.Stable? then RotationOutcome(w, retained) else OutcomeOf(w, retained)
  {
    if m.Stable? {
      if w.marker.Rotating? {
        CompleteRotation(w, retained);
      } else {
        PublishStable(w, retained);
      }
    } else if w.marker.Rotating? {
      AdvancePhase(w, m.phase, retained);
    } else {
      BeginRotation(w, m.transaction, retained);
    }
  }

  lemma PublishedSameStream(w: World, m: Marker, retained: nat)
    requires Valid(w, retained)
    ensures Published(w, m).lineage == w.lineage && Published(w, m).content == w.content
    ensures Written(Published(w, m)) == Written(w)
  {
  }

  // ----- shifting ---------------------------------------------------------------------------------

  /** Slot `gap` may move up: an archive while the marker says `marker` or `closed`, the rotated log
      itself once it says `shifted`. */
  ghost predicate MayShift(w: World, retained: nat) {
    && w.marker.Rotating? && w.kept <= retained
    && ((w.marker.phase in {Marking, Closed} && 1 <= w.gap) || (w.marker.phase == Shifted && w.gap == 0))
  }

  ghost predicate MayRemove(w: World, retained: nat) {
    && w.marker.Rotating? && w.marker.phase in {Marking, Closed}
    && 1 <= retained && w.kept == retained + 1
  }

  ghost predicate MayCreate(w: World) {
    Boot(w) || (w.marker.Rotating? && w.gap == -1 && !w.successor)
  }

  // ----- what a mutation as a whole keeps ----------------------------------------------------------

  ghost function Last(h: seq<World>): World
    requires h != []
  {
    h[|h| - 1]
  }

  /** A directory nobody can explain stays unexplained. */
  ghost function Recorded(h: seq<World>, next: World): seq<World> {
    if h == [] then [] else h + [next]
  }

  /** Every world added since `past` is explained, committed to what `past` was committed to, and
      holds the same stream of bytes. */
  ghost predicate Keeps(past: seq<World>, now: seq<World>, retained: nat) {
    if past == [] then now == []
    else
      && past <= now
      && Valid(Last(past), retained)
      && forall t :: |past| - 1 <= t < |now| ==>
           && Valid(now[t], retained) && OutcomeOf(now[t], retained) == OutcomeOf(Last(past), retained)
           && Written(now[t]) == Written(Last(past))
  }

  lemma KeepsStep(past: seq<World>, now: seq<World>, next: World, retained: nat)
    requires Keeps(past, now, retained)
    requires now != [] ==>
      Valid(next, retained) && OutcomeOf(next, retained) == OutcomeOf(Last(now),
      retained) && Written(next) == Written(Last(now))
    ensures Keeps(past, Recorded(now, next), retained)
  {
  }

  lemma KeepsReflexive(h: seq<World>, retained: nat)
    requires h != [] ==> Valid(Last(h), retained)
    ensures Keeps(h, h, retained)
  {
  }

  // ----- what is still on disk ---------------------------------------------------------------------

  /** The oldest lineage index found in slots 0..slot. */
  function LowestIndex(w: World, slot: int): int
    requires -1 <= slot
  {
    if slot == -1 then |w.lineage| else Index(w, slot)
  }

  lemma NextLower(w: World, slot: nat)
    requires Shape(w) && slot <= w.kept
    ensures 0 <= LowestIndex(w, slot) <= |w.lineage| && 0 <= LowestIndex(w, slot - 1) <= |w.lineage|
    ensures Occupied(w, slot) ==>
      && LowestIndex(w, slot - 1) == LowestIndex(w, slot) + 1
      && slot in Names(w) && Names(w)[slot] == w.lineage[LowestIndex(w, slot)]
    ensures !Occupied(w, slot) ==> LowestIndex(w, slot - 1) == LowestIndex(w, slot) && slot !in Names(w)
  {
    hide LogWorld.Distinct;
  }

  /** Reading the numbered files from the highest down to the current one yields the newest linked
      segments in the order they were written: a shifted gap does not show. */
  lemma {:induction false} ReadDownIsRecent(w: World, slot: int)
    requires Shape(w) && -1 <= slot <= w.kept
    requires forall s :: s in Names(w) ==> Names(w)[s] in w.content
    ensures 0 <= LowestIndex(w, slot) <= |w.lineage| && Held(w.content, w.lineage)
    ensures ReadDown(DiskOf(w), slot) == Span(w.content, w.lineage, LowestIndex(w, slot), |w.lineage|)
  {
    assert Held(w.content, w.lineage);
    if slot >= 0 {
      hide LogWorld.Shape, LogWorld.Names, LowestIndex, Occupied, LogWorld.Span;
      hide LogWorld.ReadDown;
      ReadDownIsRecent(w, slot - 1);
      ReadDownUnfolds(DiskOf(w), slot);
      NextLower(w, slot);
      if Occupied(w, slot) {
        OneSegmentMore(w, LowestIndex(w, slot));
      }
    }
  }

  lemma ReadDownUnfolds(disk: Disk, top: nat)
    requires forall s :: s in disk.names ==> disk.names[s] in disk.content
    ensures ReadDown(disk, top) ==
      (if top in disk.names then disk.content[disk.names[top]] else []) + ReadDown(disk, top - 1)
  {
  }

  lemma OneSegmentMore(w: World, from: nat)
    requires Held(w.content, w.lineage) && from < |w.lineage|
    ensures Span(w.content, w.lineage, from, |w.lineage|) ==
      w.content[w.lineage[from]] + Span(w.content, w.lineage, from + 1, |w.lineage|)
  {
    SpanSplits(w.content, w.lineage, from, from + 1, |w.lineage|);
    assert Span(w.content, w.lineage, from, from + 1) == [] + w.content[w.lineage[from]];
  }

  /** At every moment the archives, oldest first, followed by the current log are a suffix of all bytes
      ever written, and what is missing is whole segments. */
  lemma RetainedIsSuffix(w: World, retained: nat)
    requires Valid(w, retained)
    ensures forall s :: s in Names(w) ==> Names(w)[s] in w.content
    ensures 0 <= Oldest(w) <= |w.lineage| && Held(w.content, w.lineage)
    ensures Written(w) == Span(w.content, w.lineage, 0, Oldest(w)) + ReadDown(DiskOf(w), w.kept)
  {
    if !Boot(w) {
      ReadDownIsRecent(w, w.kept);
      SpanSplits(w.content, w.lineage, 0, Oldest(w), |w.lineage|);
      if w.gap == w.kept - 1 {
        assert !Occupied(w, w.kept) || w.successor;
      }
    }
  }

  /** Two moments with the same stream hold the same bytes segment by segment, and logs opened in
      between are still empty. */
  lemma SameStreamSameSegments(a: World, b: World)
    requires Evolves(a, b) && Held(a.content, a.lineage) && Held(b.content, b.lineage)
    requires Written(a) == Written(b)
    ensures forall i :: 0 <= i < |a.lineage| ==>
      b.lineage[i] == a.lineage[i] && b.content[a.lineage[i]] == a.content[a.lineage[i]]
    ensures forall i :: |a.lineage| <= i < |b.lineage| ==> b.content[b.lineage[i]] == []
  {
    var n := |a.lineage|;
    assert forall i :: 0 <= i < n ==> b.lineage[i] == a.lineage[i];
    SpanSplits(b.content, b.lineage, 0, n, |b.lineage|);
    if n > 0 {
      // Only the newest segment of `a` can have grown, and then the stream would be longer.
      SpanDependsOnSegments(a.content, a.lineage, b.content, b.lineage, 0, n - 1);
    }
    forall i | n <= i < |b.lineage|
      ensures b.content[b.lineage[i]] == []
    {
      SpanCovers(b.content, b.lineage, n, i, |b.lineage|);
    }
  }

  lemma {:induction false} SpanCovers(content: map<Inode, Bytes>, lineage: seq<Inode>, m: nat, i: nat, n: nat)
    requires m <= i < n <= |lineage| && Held(content, lineage)
    ensures |content[lineage[i]]| <= |Span(content, lineage, m, n)|
  {
    if i < n - 1 {
      SpanCovers(content, lineage, m, i, n - 1);
    }
  }

}
