/** What a cursor means: a position in the stream of all bytes the anchor ever wrote to one log, and
    why such a position survives rotation. */
module CursorPositions {
  import opened Wrappers
  import opened LogWorld
  import opened RotationSteps

  /** A cursor as a caller hands it back. Its generation is missing when it was made by a version that
      did not record one. */
  datatype Cursor = Cursor(inode: Inode, offset: nat, generation: Option<nat>)

  /** The lineage index of a generation number. */
  function IndexOf(w: World, generation: nat): int { generation - w.origin }

  /** How many bytes were written before segment i. */
  function Base(w: World, i: nat): nat
    requires Held(w.content, w.lineage) && i <= |w.lineage|
  {
    |Span(w.content, w.lineage, 0, i)|
  }

  /** `inode` is the log of generation `generation`. */
  ghost predicate Honest(w: World, inode: Inode, generation: nat) {
    0 <= IndexOf(w, generation) < |w.lineage| && w.lineage[IndexOf(w, generation)] == inode
  }

  /** A file is the log of one generation only. So a rotating read that follows a cursor without a
      generation, and answers with generation 0, is right exactly when the file is generation 0. */
  lemma OneGenerationEach(w: World, inode: Inode, generation: nat)
    requires Shape(w) && Honest(w, inode, generation)
    ensures Honest(w, inode, 0) <==> generation == 0
  {
  }

  /** The cursor names a segment that existed, by its generation, and a position inside it. */
  ghost predicate ValidCursor(w: World, c: Cursor) {
    && c.generation.Some? && Honest(w, c.inode, c.generation.value)
    && c.inode in w.content && c.offset <= |w.content[c.inode]|
  }

  /** The number of bytes written before the position a cursor stands for. */
  ghost function Position(w: World, c: Cursor): nat
    requires Held(w.content, w.lineage) && ValidCursor(w, c)
  {
    Base(w, IndexOf(w, c.generation.value)) + c.offset
  }

  /** `raw` is what was written just before offset `end` of the log of that generation. */
  ghost predicate Delivers(w: World, raw: Bytes, inode: Inode, generation: nat, end: int) {
    && Honest(w, inode, generation) && Held(w.content, w.lineage)
    && 0 <= end <= |w.content[inode]|
    && (var stop := Base(w, IndexOf(w, generation)) + end;
        |raw| <= stop <= |Written(w)| && Written(w)[stop - |raw|..stop] == raw)
  }

  // ----- positions do not move ------------------------------------------------------------------------

  lemma BaseStays(a: World, b: World, i: nat)
    requires Evolves(a, b) && Held(a.content, a.lineage) && Held(b.content, b.lineage) && i < |a.lineage|
    ensures Base(a, i) == Base(b, i)
  {
    assert forall k :: 0 <= k < |a.lineage| ==> a.lineage[k] == b.lineage[k];
    SpanDependsOnSegments(a.content, a.lineage, b.content, b.lineage, 0, i);
  }

  lemma WrittenGrows(a: World, b: World)
    requires Evolves(a, b) && Held(a.content, a.lineage) && Held(b.content, b.lineage)
    ensures Written(a) <= Written(b)
  {
    var n := |a.lineage|;
    if n > 0 {
      assert forall k :: 0 <= k < n ==> a.lineage[k] == b.lineage[k];
      SpanDependsOnSegments(a.content, a.lineage, b.content, b.lineage, 0, n - 1);
      SpanSplits(b.content, b.lineage, 0, n, |b.lineage|);
      assert Span(a.content, a.lineage, 0, n) <= Span(b.content, b.lineage, 0, n);
    }
  }

  /** A cursor keeps naming the same position of the stream, whatever happens to its segment. */
  lemma PositionStays(a: World, b: World, c: Cursor)
    requires Evolves(a, b) && Held(a.content, a.lineage) && Held(b.content, b.lineage) && ValidCursor(a, c)
    ensures ValidCursor(b, c) && Position(b, c) == Position(a, c)
  {
    var i := IndexOf(a, c.generation.value);
    assert b.lineage[i] == a.lineage[i];
    BaseStays(a, b, i);
  }

  lemma DeliveredStays(a: World, b: World, raw: Bytes, inode: Inode, generation: nat, end: int)
    requires Delivers(a, raw, inode, generation, end) && Evolves(a, b) && Held(b.content, b.lineage)
    ensures Delivers(b, raw, inode, generation, end)
  {
    var i := IndexOf(a, generation);
    assert b.lineage[i] == a.lineage[i];
    BaseStays(a, b, i);
    WrittenGrows(a, b);
    var stop := Base(a, i) + end;
    assert Written(b)[..|Written(a)|] == Written(a);
    assert Written(b)[stop - |raw|..stop] == Written(a)[stop - |raw|..stop];
  }

  /** A piece of one segment is the piece of the stream at the segment's place. */
  lemma SegmentInStream(w: World, i: nat, from: nat, to: nat)
    requires Held(w.content, w.lineage) && i < |w.lineage| && from <= to <= |w.content[w.lineage[i]]|
    ensures Base(w, i) + to <= |Written(w)|
    ensures Written(w)[Base(w, i) + from..Base(w, i) + to] == w.content[w.lineage[i]][from..to]
    ensures Base(w, i + 1) == Base(w, i) + |w.content[w.lineage[i]]|
  {
    var n := |w.lineage|;
    SpanSplits(w.content, w.lineage, 0, i + 1, n);
    var head := Span(w.content, w.lineage, 0, i);
    var segment := w.content[w.lineage[i]];
    assert Span(w.content, w.lineage, 0, i + 1) == head + segment;
    assert Written(w) == head + segment + Span(w.content, w.lineage, i + 1, n);
    assert Written(w)[|head| + from..|head| + to] == segment[from..to];
  }

  /** Reading on inside a segment, or from the start of the next one, extends what was delivered. */
  lemma DeliversMore(w: World, raw: Bytes, inode: Inode, generation: nat, end: nat, piece: Bytes)
    requires Delivers(w, raw, inode, generation, end)
    requires end + |piece| <= |w.content[inode]| && w.content[inode][end..end + |piece|] == piece
    ensures Delivers(w, raw + piece, inode, generation, end + |piece|)
  {
    var i := IndexOf(w, generation);
    SegmentInStream(w, i, end, end + |piece|);
    var stop := Base(w, i) + end;
    assert Written(w)[stop - |raw|..stop + |piece|]
        == Written(w)[stop - |raw|..stop] + Written(w)[stop..stop + |piece|];
  }

  lemma DeliversNothing(w: World, inode: Inode, generation: nat, end: nat)
    requires Held(w.content, w.lineage) && Honest(w, inode, generation) && end <= |w.content[inode]|
    ensures Delivers(w, [], inode, generation, end)
  {
    SegmentInStream(w, IndexOf(w, generation), end, end);
  }

  // ----- finding a segment while it moves ---------------------------------------------------------------

  /** Segment i cannot be found in slots 0..below-1: it is unlinked or has moved past them. */
  ghost predicate PastSlots(w: World, i: int, below: int) {
    i < Oldest(w) || below <= Slot(w, i)
  }

  /** Once past, always past: the scan never has to look back. */
  lemma PastSlotsStays(a: World, b: World, i: int, below: int)
    requires Evolves(a, b) && PastSlots(a, i, below) && 0 <= i < |a.lineage|
    ensures PastSlots(b, i, below)
  {
  }

  lemma PastNextSlot(w: World, i: int, slot: nat, retained: nat)
    requires Valid(w, retained) && 0 <= i < |w.lineage| && PastSlots(w, i, slot)
    requires slot !in Names(w) || Names(w)[slot] != w.lineage[i]
    ensures PastSlots(w, i, slot + 1)
  {
    if Oldest(w) <= i && Slot(w, i) == slot {
      SlotIndex(w, i);
    }
  }

  /** No segment ever sits beyond the last retained number, so a scan of all slots that misses it proves
      that it is gone. */
  lemma PastAllSlotsIsGone(w: World, i: int, retained: nat, scanned: nat)
    requires Valid(w, retained) && 0 <= i < |w.lineage| && PastSlots(w, i, scanned + 1) && retained <= scanned
    ensures i < Oldest(w)
  {
  }

  // ----- which generation a name stands for ---------------------------------------------------------------

  lemma SameViewBetween(a: World, b: World, c: World)
    requires Evolves(a, b) && Evolves(b, c) && View(a.marker) == View(c.marker)
    requires !a.marker.Malformed? && !b.marker.Malformed?
    ensures View(b.marker) == View(a.marker)
  {
  }

  /** Under a plain number nothing is renamed, unlinked or created: two readings of the same number
      enclose one and the same set of names. */
  lemma PlainNumberFreezesNames(a: World, b: World, retained: nat)
    requires Valid(a, retained) && Valid(b, retained) && Evolves(a, b) && a.lineage != []
    requires View(a.marker).Stable? && View(b.marker) == View(a.marker)
    ensures b.lineage == a.lineage && Names(b) == Names(a)
  {
    assert b.lineage == a.lineage && b.kept == a.kept && b.gap == a.gap && !a.successor && !b.successor by {
      hide LogWorld.Distinct, LogWorld.SlotsRise;
      assert |b.lineage| == |a.lineage|;
    }
    SamePlaceSameNames(a, b);
  }

  lemma SamePlaceSameNames(a: World, b: World)
    requires Shape(a) && Shape(b)
    requires b.lineage == a.lineage && b.kept == a.kept && b.gap == a.gap && b.successor == a.successor
    ensures Names(b) == Names(a)
  {
  }

  /** The daemon created the next log while the marker still says `shifted`. */
  ghost predicate PreparedMidShift(w: World) {
    w.marker.Rotating? && w.marker.phase == Shifted && w.successor
  }

  /** The same situation as anybody sees it who looks at the files. */
  predicate ShowsSuccessor(d: Disk) {
    && d.marker.Rotating? && d.marker.phase == Shifted
    && 0 in d.names && d.names[0] in d.content && d.content[d.names[0]] == []
  }

  lemma PreparedIsSeen(w: World, retained: nat)
    requires Valid(w, retained)
    ensures PreparedMidShift(w) <==> ShowsSuccessor(DiskOf(w))
  {
  }

  /** Nothing undoes the preparation before the marker changes. */
  lemma PreparedStays(a: World, b: World, retained: nat)
    requires Valid(a, retained) && Valid(b, retained) && Evolves(a, b) && View(a.marker) == View(b.marker)
    requires PreparedMidShift(a)
    ensures PreparedMidShift(b)
  {
    hide LogWorld.Distinct, LogWorld.SlotsRise, LogWorld.NothingUnlinked;
    assert a.lineage <= b.lineage;
  }

  /** While the marker reads one plain number, archives do not grow. */
  lemma SealedUnderPlainNumber(a: World, b: World, retained: nat, i: int)
    requires Valid(a, retained) && Valid(b, retained) && Evolves(a, b)
    requires View(a.marker).Stable? && View(b.marker) == View(a.marker) && 0 <= i < |b.lineage| - 1
    ensures b.lineage[i] in a.content && b.lineage[i] in b.content && b.content[b.lineage[i]] == a.content[b.lineage[i]]
  {
    hide LogWorld.Distinct, LogWorld.SlotsRise, LogWorld.NothingUnlinked;
    assert |a.lineage| == |b.lineage| && a.lineage[i] == b.lineage[i];
  }

  /** What holds at both ends of a stretch without a change of the marker holds in between. */
  lemma QuietInBetween(a: World, b: World, c: World, retained: nat)
    requires Valid(a, retained) && Valid(b, retained) && Valid(c, retained) && Evolves(a, b) && Evolves(b, c)
    requires View(a.marker) == View(c.marker) && !PreparedMidShift(c)
    ensures View(b.marker) == View(a.marker) && !PreparedMidShift(b)
  {
    hide LogWorld.Distinct, LogWorld.SlotsRise, LogWorld.NothingUnlinked;
    SameViewBetween(a, b, c);
    assert b.lineage <= c.lineage;
  }

  /** Where the log of the marker's generation is found: slot 0 before it is archived, slot 1 after. */
  predicate SlotFits(before: Marker, slot: nat) {
    match before
    case Rotating(_, phase, _) =>
      if phase in {Archived, Opened} then slot == 1 else if phase == Shifted then slot <= 1 else slot == 0
    case _ => slot == 0
  }

  lemma StableNames(w: World, g: nat, slot: nat, retained: nat)
    requires Valid(w, retained) && View(w.marker) == Stable(g) && slot in Names(w) && slot <= g
    ensures Honest(w, Names(w)[slot], g - slot)
    ensures slot == IndexOf(w, g) - IndexOf(w, g - slot)
    ensures IndexOf(w, g) == |w.lineage| - 1
  {
  }

  lemma CurrentNames(w: World, slot: nat, retained: nat)
    requires Valid(w, retained) && SlotFits(View(w.marker), slot) && slot in Names(w)
    requires !PreparedMidShift(w)
    ensures Honest(w, Names(w)[slot], MarkerGeneration(w.marker))
  {
  }

  /** Exactly in that one situation the name the reader trusts leads to the wrong log: `current` exists,
      so it is taken for the log of generation g, but it is the empty log of generation g + 1. */
  lemma PreparedMidShiftMisnames(w: World, retained: nat)
    requires Valid(w, retained) && w.marker.Rotating? && w.marker.phase == Shifted && 0 in Names(w)
    ensures Honest(w, Names(w)[0], w.marker.generation) <==> !PreparedMidShift(w)
    ensures PreparedMidShift(w) ==> Honest(w, Names(w)[0], w.marker.generation + 1) && w.content[Names(w)[0]] == []
  {
  }
}
