/** The log directory as the anchor and the daemon share it: a generation marker, the numbered
    segments `current, .1, .2, ...`, and the bytes each inode holds.

    `Disk` is what the file system shows. `World` explains a disk: which inode was current in which
    generation, how many of them are still linked, and how far the running rotation has shifted them.
    Every disk an anchor produces has such an explanation, and the explanation is what both the crash
    recovery of the writer and the lock-free reader rely on. */
module LogWorld {

  type Inode = nat
  type Bytes = seq<bv8>

  const MAX_SAFE_INTEGER := 9007199254740991

  datatype Phase = Marking | Closed | Shifted | Archived | Opened

  /** The content of `<log>.generation`. `Malformed` is any text neither marker pattern accepts. */
  datatype Marker =
    | Absent
    | Stable(generation: nat)
    | Rotating(generation: nat, phase: Phase, transaction: nat)
    | Malformed

  /** `names` maps slot 0 to the current log and slot i to archive `.i`. An unlinked inode keeps its
      bytes in `content`, as it does for a reader that still holds it open. */
  datatype Disk = Disk(marker: Marker, names: map<nat, Inode>, content: map<Inode, Bytes>)

  /** `lineage` lists every inode that was ever the current log, oldest first; the one at index i is
      generation `origin + i`. The newest `kept` of them (not counting an empty successor) are linked.
      Slots up to `gap` are not shifted yet, the ones above are shifted up by one. `successor` says that
      the successor of the rotated log already exists in slot 0. */
  datatype World = World(
    marker: Marker,
    lineage: seq<Inode>,
    origin: int,
    kept: nat,
    gap: int,
    successor: bool,
    content: map<Inode, Bytes>)

  /** The index of the log being rotated, or of the current log when no rotation is under way. */
  function Top(w: World): int {
    |w.lineage| - 1 - (if w.successor then 1 else 0)
  }

  function MarkerGeneration(m: Marker): nat {
    match m
    case Absent => 0
    case Stable(g) => g
    case Rotating(g, _, _) => g
    case Malformed => 0
  }

  ghost predicate Distinct(s: seq<Inode>) {
    forall i, j :: 0 <= i < j < |s| ==> s[i] != s[j]
  }

  ghost predicate Shape(w: World) {
    && Distinct(w.lineage)
    && (forall i :: 0 <= i < |w.lineage| ==> w.lineage[i] in w.content)
    && -1 <= w.gap < w.kept <= Top(w) + 1
    && (w.successor ==> w.gap == -1)
  }

  /** An untouched directory: no marker, no segment. */
  ghost predicate Boot(w: World) {
    w.marker == Absent && w.lineage == [] && w.origin == 0 && w.kept == 0 && w.gap == -1 && !w.successor
  }

  ghost predicate PhaseFits(w: World, retained: nat)
    requires w.marker.Rotating?
  {
    match w.marker.phase
    // Recovery shifts archives under whichever of these two phases the crash left published.
    case Marking =>
      !w.successor && 0 <= w.gap
      && (w.kept <= retained || (w.gap == w.kept - 1 && w.kept == retained + 1))
    case Closed => !w.successor && 0 <= w.gap && (w.kept <= retained || (w.gap == w.kept - 1 && w.kept == retained + 1))
    case Shifted => w.gap <= 0 && w.kept <= retained
    case Archived => w.gap == -1 && w.kept <= retained
    case Opened => w.gap == -1 && w.kept <= retained && w.successor
  }

  /** Everything a crash can leave behind, and nothing else. */
  ghost predicate Valid(w: World, retained: nat) {
    || Boot(w)
    || (&& Shape(w)
        && w.origin + Top(w) == MarkerGeneration(w.marker) <= MAX_SAFE_INTEGER
        && match w.marker
           case Absent => !w.successor && w.gap == w.kept - 1 && 1 <= w.kept <= retained + 1
           case Stable(_) => !w.successor && w.gap == w.kept - 1 && 1 <= w.kept <= retained + 1
           case Rotating(g, _, _) =>
             && PhaseFits(w, retained)
             && 1 <= w.kept
             && g < MAX_SAFE_INTEGER
             && w.content[w.lineage[Top(w)]] != []
             && (w.successor ==> w.content[w.lineage[Top(w) + 1]] == [])
           case Malformed => false)
  }

  predicate Occupied(w: World, slot: nat) {
    slot <= w.gap || w.gap + 2 <= slot <= w.kept || (slot == 0 && w.successor)
  }

  /** The lineage index of the segment an occupied slot names. */
  function Index(w: World, slot: nat): int {
    if slot <= w.gap then Top(w) - slot else Top(w) - slot + 1
  }

  /** The inverse of `Index`: the slot that names lineage index i while i is linked. */
  function Slot(w: World, i: int): int {
    var s := Top(w) - i;
    if 0 <= s <= w.gap then s else s + 1
  }

  /** The oldest lineage index still linked. */
  function Oldest(w: World): int {
    Top(w) + 1 - w.kept
  }

  ghost function Names(w: World): (names: map<nat, Inode>)
    requires Boot(w) || Shape(w)
    ensures forall s: nat :: s in names <==> Occupied(w, s)
    ensures forall s: nat :: Occupied(w, s) ==> 0 <= Index(w, s) < |w.lineage| && names[s] == w.lineage[Index(w, s)]
  {
    map s: nat | s <= w.kept && Occupied(w, s) :: w.lineage[Index(w, s)]
  }

  ghost function DiskOf(w: World): Disk
    requires Boot(w) || Shape(w)
  {
    Disk(w.marker, Names(w), w.content)
  }

  /** Slot and index are inverse on linked segments: the reader's names for them agree with the
      writer's. */
  lemma SlotIndex(w: World, i: int)
    requires Shape(w)
    requires Oldest(w) <= i < |w.lineage|
    ensures 0 <= Slot(w, i) && Occupied(w, Slot(w, i)) && Index(w, Slot(w, i)) == i
    ensures Names(w)[Slot(w, i)] == w.lineage[i]
  {
  }

  /** Two names never lead to the same inode, so an inode determines its slot. */
  lemma InodeDeterminesSlot(w: World, slot: nat, i: int)
    requires Shape(w)
    requires Occupied(w, slot) && 0 <= i < |w.lineage| && Names(w)[slot] == w.lineage[i]
    ensures Index(w, slot) == i && Slot(w, i) == slot && Oldest(w) <= i
  {
  }

  // ----- the stream of bytes ------------------------------------------------------------------

  ghost predicate Held(content: map<Inode, Bytes>, lineage: seq<Inode>) {
    forall i :: 0 <= i < |lineage| ==> lineage[i] in content
  }

  /** The bytes of segments [m..n), in the order they were written. */
  function Span(content: map<Inode, Bytes>, lineage: seq<Inode>, m: nat, n: nat): Bytes
    requires m <= n <= |lineage| && Held(content, lineage)
    decreases n - m
  {
    if m == n then [] else Span(content, lineage, m, n - 1) + content[lineage[n - 1]]
  }

  /** Every byte the anchor ever wrote to this log. */
  function Written(w: World): Bytes
    requires Held(w.content, w.lineage)
  {
    Span(w.content, w.lineage, 0, |w.lineage|)
  }

  /** What somebody finds who concatenates the linked segments from archive `.top` down to the current
      log, skipping numbers that name no file. */
  function ReadDown(disk: Disk, top: int): Bytes
    requires forall s :: s in disk.names ==> disk.names[s] in disk.content
    decreases top + 1
  {
    if top < 0 then []
    else (if top in disk.names then disk.content[disk.names[top]] else []) + ReadDown(disk, top - 1)
  }

  lemma {:induction false} SpanSplits(content: map<Inode, Bytes>, lineage: seq<Inode>, k: nat, m: nat, n: nat)
    requires k <= m <= n <= |lineage| && Held(content, lineage)
    ensures Span(content, lineage, k, n) == Span(content, lineage, k, m) + Span(content, lineage, m, n)
    decreases n
  {
    if m < n {
      SpanSplits(content, lineage, k, m, n - 1);
    }
  }

  lemma {:induction false} SpanDependsOnSegments(c: map<Inode, Bytes>, l: seq<Inode>, c': map<Inode, Bytes>,
      l': seq<Inode>, m: nat, n: nat)
    requires m <= n <= |l| && n <= |l'| && Held(c, l) && Held(c', l')
    requires forall i :: m <= i < n ==> l'[i] == l[i] && c'[l'[i]] == c[l[i]]
    ensures Span(c, l, m, n) == Span(c', l', m, n)
    decreases n
  {
    if m < n {
      SpanDependsOnSegments(c, l, c', l', m, n - 1);
    }
  }

  // ----- how a directory may change over time ---------------------------------------------------

  function PhaseRank(p: Phase): nat {
    match p
    case Marking => 1
    case Closed => 2
    case Shifted => 3
    case Archived => 4
    case Opened => 5
  }

  /** Markers are published in this order, and one value never returns after a later one. */
  function Rank(m: Marker): nat {
    6 * MarkerGeneration(m) + (if m.Rotating? then PhaseRank(m.phase) else 0)
  }

  /** Segments are only added, only the newest one still grows, and none loses a byte. */
  ghost predicate SegmentsGrow(a: World, b: World) {
    && a.lineage <= b.lineage
    && (forall i :: 0 <= i < |a.lineage| ==>
          && a.lineage[i] in a.content && a.lineage[i] in b.content
          && a.content[a.lineage[i]] <= b.content[a.lineage[i]])
    && (forall i :: 0 <= i < |a.lineage| - 1 ==> b.content[a.lineage[i]] == a.content[a.lineage[i]])
  }

  /** A segment only moves to higher slots, and once unlinked it stays unlinked. */
  ghost predicate SlotsRise(a: World, b: World) {
    && Oldest(a) <= Oldest(b)
    && (forall i :: Oldest(b) <= i < |a.lineage| ==> Slot(a, i) <= Slot(b, i))
  }

  ghost predicate MarkerAdvances(a: Marker, b: Marker) {
    && Rank(a) <= Rank(b)
    && (a.Rotating? && b.Rotating? && a.generation == b.generation ==> a.transaction == b.transaction)
  }

  /** What a reader sees of the marker: a missing file reads as generation 0. */
  function View(m: Marker): Marker {
    if m.Absent? then Stable(0) else m
  }

  /** While the marker reads one plain number, no segment is unlinked. */
  ghost predicate NothingUnlinked(a: World, b: World) {
    View(a.marker) == View(b.marker) && View(a.marker).Stable? && a.lineage != [] ==> a.kept == b.kept
  }

  /** `b` is the same directory at the same moment as `a` or later. The relation is a preorder, and
      every atomic step of the writer is in it. */
  ghost predicate Evolves(a: World, b: World) {
    && a.origin == b.origin
    && MarkerAdvances(a.marker, b.marker)
    && SegmentsGrow(a, b)
    && SlotsRise(a, b)
    && NothingUnlinked(a, b)
  }

  lemma EvolvesReflexive(a: World, retained: nat)
    requires Valid(a, retained)
    ensures Evolves(a, a)
  {
  }

  lemma EvolvesTransitive(a: World, b: World, c: World)
    requires Evolves(a, b) && Evolves(b, c)
    requires !b.marker.Malformed?
    ensures Evolves(a, c)
  {
  }

  /** A run of the directory, one world per atomic step: each is explained and follows its
      predecessor. */
  ghost predicate Run(h: seq<World>, retained: nat) {
    h != [] ==>
      && Valid(h[|h| - 1], retained)
      && (1 < |h| ==> Evolves(h[|h| - 2], h[|h| - 1]) && Run(h[..|h| - 1], retained))
  }

  lemma RunExtends(h: seq<World>, w: World, retained: nat)
    requires Run(h, retained) && Valid(w, retained)
    requires h != [] ==> Evolves(h[|h| - 1], w)
    ensures Run(h + [w], retained)
  {
  }

  lemma {:induction false} RunValid(h: seq<World>, retained: nat, t: nat)
    requires Run(h, retained) && t < |h|
    ensures Valid(h[t], retained)
  {
    if t < |h| - 1 {
      RunValid(h[..|h| - 1], retained, t);
    }
  }

  /** Time only moves forward in a run, however far apart two moments are. */
  lemma {:induction false} RunEvolves(h: seq<World>, retained: nat, t: nat, u: nat)
    requires Run(h, retained) && t <= u < |h|
    ensures Evolves(h[t], h[u])
  {
    RunValid(h, retained, u);
    if t == u {
      EvolvesReflexive(h[t], retained);
    } else if u < |h| - 1 {
      RunEvolves(h[..|h| - 1], retained, t, u);
    } else {
      RunValid(h, retained, u - 1);
      RunEvolves(h[..|h| - 1], retained, t, u - 1);
      EvolvesTransitive(h[t], h[u - 1], h[u]);
    }
  }
}
