/** How far a read gets through segments that do not change, and when it then holds back a character that
    began in an earlier segment than the last one it read. `amounts(m)` is what the operating system is
    willing to give the m-th call; a call gets that much, or what is left. */
module ReadExtents {
  import opened LogWorld
  import opened CursorPositions
  import Utf8

  /** The segment a read stops in, and the offset there. */
  datatype Halt = Halt(index: nat, position: nat)

  function Clip(a: nat, b: nat): nat { if a < b then a else b }

  function SizeOf(w: World, i: nat): nat
    requires Held(w.content, w.lineage) && i < |w.lineage|
  {
    |w.content[w.lineage[i]]|
  }

  /** The loop of a read: one call per segment, and on to the next segment only from the end of one. */
  function HaltOf(w: World, i: nat, position: nat, remaining: nat, amounts: nat -> nat, m: nat): Halt
    requires Held(w.content, w.lineage) && i < |w.lineage| && position <= SizeOf(w, i)
    decreases |w.lineage| - i
  {
    var got := Clip(amounts(m), Clip(SizeOf(w, i) - position, remaining));
    if got == remaining || position + got < SizeOf(w, i) || i == |w.lineage| - 1 then Halt(i, position + got)
    else HaltOf(w, i + 1, 0, remaining - got, amounts, m + 1)
  }

  ghost predicate AtLeast(amounts: nat -> nat, least: nat) {
    forall m :: least <= amounts(m)
  }

  /** A read that starts at byte `from` of the stream, in segment i, may stop with k bytes of segment j read,
      if every call gets at least `least` bytes where as many are left: it reaches j with something left of
      its bound, and k is the whole rest of the bound, or not the whole segment, or j is the current log. */
  ghost predicate MayHalt(w: World, i: nat, from: nat, bound: nat, least: nat, j: nat, k: nat)
    requires Held(w.content, w.lineage)
  {
    && i < j < |w.lineage| && from <= Base(w, j) < from + bound
    && (var remaining := from + bound - Base(w, j);
        var length := Clip(SizeOf(w, j), remaining);
        && Clip(least, length) <= k <= length
        && (k == remaining || k < SizeOf(w, j) || j == |w.lineage| - 1))
  }

  lemma NextBase(w: World, i: nat)
    requires Held(w.content, w.lineage) && i < |w.lineage|
    ensures Base(w, i + 1) == Base(w, i) + SizeOf(w, i)
  {
    SegmentInStream(w, i, 0, 0);
  }

  lemma {:induction false} BasesRise(w: World, i: nat, j: nat)
    requires Held(w.content, w.lineage) && i <= j <= |w.lineage|
    ensures Base(w, i) <= Base(w, j)
  {
    if i < j {
      BasesRise(w, i, j - 1);
      NextBase(w, j - 1);
    }
  }

  /** A read stops in the segment it starts in, with at least `least` bytes of it or all there are, or in a later
      one where it may. */
  ghost predicate StopsAsAllowed(w: World, i: nat, position: nat, bound: nat, least: nat, h: Halt)
    requires Held(w.content, w.lineage) && i < |w.lineage| && position <= SizeOf(w, i)
  {
    && i <= h.index < |w.lineage| && h.position <= SizeOf(w, h.index)
    && (h.index == i ==>
          var length := Clip(SizeOf(w, i) - position, bound);
          && position + Clip(least, length) <= h.position <= position + length
          && (h.position == position + bound || h.position < SizeOf(w, i) || i == |w.lineage| - 1))
    && (i < h.index ==> MayHalt(w, i, Base(w, i) + position, bound, least, h.index, h.position))
  }

  lemma {:induction false} HaltsWhereItMay(w: World, i: nat, position: nat, bound: nat, amounts: nat -> nat, m: nat,
                                           least: nat)
    requires Held(w.content, w.lineage) && i < |w.lineage| && position <= SizeOf(w, i) && AtLeast(amounts, least)
    ensures StopsAsAllowed(w, i, position, bound, least, HaltOf(w, i, position, bound, amounts, m))
    decreases |w.lineage| - i
  {
    hide Base, MayHalt, StopsAsAllowed;
    var got := Clip(amounts(m), Clip(SizeOf(w, i) - position, bound));
    if got == bound || position + got < SizeOf(w, i) || i == |w.lineage| - 1 {
      StopsHere(w, i, position, bound, least, amounts(m));
    } else {
      HaltsWhereItMay(w, i + 1, 0, bound - got, amounts, m + 1, least);
      OneFurther(w, i, position, bound, least, HaltOf(w, i + 1, 0, bound - got, amounts, m + 1));
    }
  }

  lemma StopsHere(w: World, i: nat, position: nat, bound: nat, least: nat, amount: nat)
    requires Held(w.content, w.lineage) && i < |w.lineage| && position <= SizeOf(w, i) && least <= amount
    requires var got := Clip(amount, Clip(SizeOf(w, i) - position, bound));
      got == bound || position + got < SizeOf(w, i) || i == |w.lineage| - 1
    ensures var got := Clip(amount, Clip(SizeOf(w, i) - position, bound));
      StopsAsAllowed(w, i, position, bound, least, Halt(i, position + got))
  {
    hide Base, MayHalt;
  }

  lemma OneFurther(w: World, i: nat, position: nat, bound: nat, least: nat, h: Halt)
    requires Held(w.content, w.lineage) && i + 1 < |w.lineage| && position <= SizeOf(w, i)
    requires SizeOf(w, i) - position < bound
    requires StopsAsAllowed(w, i + 1, 0, bound - (SizeOf(w, i) - position), least, h)
    ensures StopsAsAllowed(w, i, position, bound, least, h)
  {
    hide Base;
    NextBase(w, i);
  }

  /** And wherever it may stop, some amounts make it stop: as much as there is until segment j, and there
      what is asked for. */
  lemma {:induction false} HaltsThere(w: World, i: nat, position: nat, bound: nat, amounts: nat -> nat, m: nat,
                                      least: nat, j: nat, k: nat)
    requires Held(w.content, w.lineage) && i < |w.lineage| && position <= SizeOf(w, i)
    requires MayHalt(w, i, Base(w, i) + position, bound, least, j, k)
    requires forall n :: m <= n < m + (j - i) ==> bound <= amounts(n)
    requires amounts(m + (j - i)) == if k < least then least else k
    ensures HaltOf(w, i, position, bound, amounts, m) == Halt(j, k)
    decreases |w.lineage| - i
  {
    hide Base;
    var got := Clip(amounts(m), Clip(SizeOf(w, i) - position, bound));
    NextBase(w, i);
    BasesRise(w, i + 1, j);
    if j == i + 1 {
      var next := Clip(amounts(m + 1), Clip(SizeOf(w, j), bound - got));
      assert next == k;
    } else {
      HaltsThere(w, i + 1, 0, bound - got, amounts, m + 1, least, j, k);
    }
  }

  // ----- holding back across the start of a segment -----------------------------------------------------

  /** The bytes from position `from` of the stream to offset k of segment j. */
  ghost function Stretch(w: World, from: nat, j: nat, k: nat): Bytes
    requires Held(w.content, w.lineage) && j < |w.lineage| && k <= SizeOf(w, j) && from <= Base(w, j) + k
  {
    SegmentInStream(w, j, 0, k);
    Written(w)[from..Base(w, j) + k]
  }

  /** The offset such a read returns: it is reduced by everything held back. */
  ghost function OffsetOf(w: World, from: nat, h: Halt): int
    requires Held(w.content, w.lineage) && h.index < |w.lineage| && h.position <= SizeOf(w, h.index)
    requires from <= Base(w, h.index) + h.position
  {
    var raw := Stretch(w, from, h.index, h.position);
    h.position - (|raw| - Utf8.CompletePrefix(raw))
  }

  /** Somewhere a read may stop, what it holds back begins before the segment it stops in. All of it can be
      told from the files before the read. */
  ghost predicate MayFall(w: World, i: nat, from: nat, bound: nat, least: nat)
    requires Held(w.content, w.lineage)
  {
    exists j: nat, k: nat :: FallsAt(w, i, from, bound, least, j, k)
  }

  ghost predicate FallsAt(w: World, i: nat, from: nat, bound: nat, least: nat, j: nat, k: nat)
    requires Held(w.content, w.lineage)
  {
    MayHalt(w, i, from, bound, least, j, k) && Utf8.CompletePrefix(Stretch(w, from, j, k)) < Base(w, j) - from
  }

  lemma OffsetFalls(w: World, from: nat, h: Halt)
    requires Held(w.content, w.lineage) && h.index < |w.lineage| && h.position <= SizeOf(w, h.index)
    requires from <= Base(w, h.index) + h.position
    ensures OffsetOf(w, from, h) < 0 <==>
      Utf8.CompletePrefix(Stretch(w, from, h.index, h.position)) < Base(w, h.index) - from
  {
    hide Utf8.CompletePrefix, Base;
    SegmentInStream(w, h.index, 0, h.position);
  }

  lemma StaysInSegment(w: World, i: nat, position: nat, bound: nat, amounts: nat -> nat, least: nat)
    requires Held(w.content, w.lineage) && i < |w.lineage| && position <= SizeOf(w, i) && AtLeast(amounts, least)
    ensures var h := HaltOf(w, i, position, bound, amounts, 0); var from := Base(w, i) + position;
      && h.index < |w.lineage| && h.position <= SizeOf(w, h.index) && from <= Base(w, h.index) + h.position
      && (OffsetOf(w, from, h) < 0 ==> FallsAt(w, i, from, bound, least, h.index, h.position))
  {
    hide Utf8.CompletePrefix, Base, HaltOf, Stretch;
    HaltsWhereItMay(w, i, position, bound, amounts, 0, least);
    OffsetFalls(w, Base(w, i) + position, HaltOf(w, i, position, bound, amounts, 0));
  }

  /** What makes a read stop with k bytes of the segment `steps` after the one it starts in. */
  function Until(bound: nat, least: nat, steps: nat, k: nat): nat -> nat {
    m => if m == steps then (if k < least then least else k) else if bound < least then least else bound
  }

  /** The offset a read from this position returns. */
  ghost function ReturnedOffset(w: World, i: nat, position: nat, bound: nat, amounts: nat -> nat): int
    requires Held(w.content, w.lineage) && i < |w.lineage| && position <= SizeOf(w, i)
  {
    assert AtLeast(amounts, 0);
    StaysInSegment(w, i, position, bound, amounts, 0);
    OffsetOf(w, Base(w, i) + position, HaltOf(w, i, position, bound, amounts, 0))
  }

  /** Some read from this position returns an offset below zero if and only if the files allow it. */
  lemma FallsExactly(w: World, i: nat, position: nat, bound: nat, least: nat)
    requires Held(w.content, w.lineage) && i < |w.lineage| && position <= SizeOf(w, i)
    ensures
      (exists amounts: nat -> nat :: AtLeast(amounts, least) && ReturnedOffset(w, i, position, bound, amounts) < 0)
      <==> MayFall(w, i, Base(w, i) + position, bound, least)
  {
    hide Utf8.CompletePrefix, Base, HaltOf, Stretch, MayHalt, OffsetOf;
    forall amounts: nat -> nat | AtLeast(amounts, least) && ReturnedOffset(w, i, position, bound, amounts) < 0
      ensures MayFall(w, i, Base(w, i) + position, bound, least)
    {
      StaysInSegment(w, i, position, bound, amounts, least);
    }
    if MayFall(w, i, Base(w, i) + position, bound, least) {
      var j: nat, k: nat :| FallsAt(w, i, Base(w, i) + position, bound, least, j, k);
      FallsThere(w, i, position, bound, least, j, k);
      assert AtLeast(Until(bound, least, j - i, k), least);
    }
  }

  lemma FallsThere(w: World, i: nat, position: nat, bound: nat, least: nat, j: nat, k: nat)
    requires Held(w.content, w.lineage) && i < |w.lineage| && position <= SizeOf(w, i)
    requires FallsAt(w, i, Base(w, i) + position, bound, least, j, k)
    ensures i < j && AtLeast(Until(bound, least, j - i, k), least)
    ensures HaltOf(w, i, position, bound, Until(bound, least, j - i, k), 0) == Halt(j, k)
    ensures ReturnedOffset(w, i, position, bound, Until(bound, least, j - i, k)) < 0
  {
    hide Utf8.CompletePrefix, Base, HaltOf, Stretch;
    HaltsThere(w, i, position, bound, Until(bound, least, j - i, k), 0, least, j, k);
    OffsetFalls(w, Base(w, i) + position, Halt(j, k));
  }

  // ----- over text --------------------------------------------------------------------------------------

  /** A character of the text begins at p, before byte `whole`, and ends after byte `stop`. */
  ghost predicate Spans(text: Bytes, p: nat, whole: int, stop: nat) {
    && p < whole <= stop <= |text| && p < |text|
    && Utf8.WellFormed(text[..p]) && stop < p + Utf8.Announced(text[p])
  }

  /** The character that begins before byte `whole` is still not complete at byte `stop`. */
  ghost predicate TornBeyond(text: Bytes, whole: int, stop: nat) {
    exists p: nat :: Spans(text, p, whole, stop)
  }

  ghost predicate TornAt(w: World, i: nat, from: nat, bound: nat, least: nat, j: nat, k: nat)
    requires Held(w.content, w.lineage) && from <= |Written(w)|
  {
    && MayHalt(w, i, from, bound, least, j, k)
    && TornBeyond(Written(w)[from..], Base(w, j) - from, Base(w, j) + k - from)
  }

  /** Over text that says: the character that is torn at the start of segment j is not complete with the k
      bytes of it either. */
  lemma FallsInsideCharacter(w: World, i: nat, from: nat, bound: nat, least: nat, j: nat, k: nat)
    requires Held(w.content, w.lineage) && from <= |Written(w)| && Utf8.CanContinue(Written(w)[from..])
    ensures FallsAt(w, i, from, bound, least, j, k) <==> TornAt(w, i, from, bound, least, j, k)
  {
    hide Utf8.CompletePrefix, Utf8.CanContinue, Utf8.WellFormed, Base;
    if !MayHalt(w, i, from, bound, least, j, k) { return; }
    SegmentInStream(w, j, 0, k);
    var text, raw := Written(w)[from..], Stretch(w, from, j, k);
    assert raw == text[..|raw|];
    Utf8.PrefixOfText(text, |raw|);
    var whole := Base(w, j) - from;
    forall p: nat | Spans(text, p, whole, |raw|) ensures Utf8.CompletePrefix(raw) == p {
      assert raw[..p] == text[..p] && raw[p] == text[p];
      Utf8.LastBoundary(raw, p);
    }
    var c := Utf8.CompletePrefix(raw);
    if c < whole {
      Utf8.HeldBackIsIncomplete(raw);
      assert raw[..c] == text[..c] && raw[c] == text[c];
      assert Spans(text, c, whole, |raw|);
    }
  }

  /** The same for all places to stop: an offset below zero is possible exactly where a character torn by a
      rotation lies across the start of a segment that a read may stop in before the end of that character. */
  lemma MayFallInText(w: World, i: nat, from: nat, bound: nat, least: nat)
    requires Held(w.content, w.lineage) && from <= |Written(w)| && Utf8.CanContinue(Written(w)[from..])
    ensures MayFall(w, i, from, bound, least) <==> exists j: nat, k: nat :: TornAt(w, i, from, bound, least, j, k)
  {
    hide Utf8.CompletePrefix, Utf8.CanContinue, MayHalt, Base, TornBeyond, FallsAt, TornAt;
    forall j: nat, k: nat ensures FallsAt(w, i, from, bound, least, j, k) <==> TornAt(w, i, from, bound, least, j, k) {
      FallsInsideCharacter(w, i, from, bound, least, j, k);
    }
  }
}
