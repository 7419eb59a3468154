/** Cutting a byte buffer at a character boundary, against the UTF-8 grammar of sections 3 and 4 of
    RFC 3629. */
module Utf8 {

  type Bytes = seq<bv8>

  predicate Tail(b: bv8) { 0x80 <= b <= 0xBF }

  /** The length of the well-formed character s begins with, or 0 when it begins with none. */
  function FirstLength(s: Bytes): (n: nat)
    ensures n <= 4 && n <= |s|
  {
    if |s| >= 1 && s[0] <= 0x7F then 1
    else if |s| >= 2 && 0xC2 <= s[0] <= 0xDF && Tail(s[1]) then 2
    else if |s| >= 3 && Tail(s[2]) &&
            ((s[0] == 0xE0 && 0xA0 <= s[1] <= 0xBF) || (0xE1 <= s[0] <= 0xEC && Tail(s[1]))
             || (s[0] == 0xED && 0x80 <= s[1] <= 0x9F) || (0xEE <= s[0] <= 0xEF && Tail(s[1]))) then 3
    else if |s| >= 4 && Tail(s[2]) && Tail(s[3]) &&
            ((s[0] == 0xF0 && 0x90 <= s[1] <= 0xBF) || (0xF1 <= s[0] <= 0xF3 && Tail(s[1]))
             || (s[0] == 0xF4 && 0x80 <= s[1] <= 0x8F)) then 4
    else 0
  }

  ghost predicate WellFormed(s: Bytes) {
    s == [] || (FirstLength(s) > 0 && WellFormed(s[FirstLength(s)..]))
  }

  /** The buffer can be continued to well-formed text: it may end inside a character. */
  ghost predicate CanContinue(s: Bytes) {
    exists rest: Bytes :: WellFormed(s + rest)
  }

  /** The code point of one well-formed character. */
  function CodePoint(c: Bytes): nat
    requires c != [] && FirstLength(c) == |c|
  {
    match |c|
    case 1 => c[0] as nat
    case 2 => (c[0] & 0x1F) as nat * 64 + (c[1] & 0x3F) as nat
    case 3 => (c[0] & 0x0F) as nat * 4096 + (c[1] & 0x3F) as nat * 64 + (c[2] & 0x3F) as nat
    case _ =>
      (c[0] & 0x07) as nat * 262144 + (c[1] & 0x3F) as nat * 4096
      + (c[2] & 0x3F) as nat * 64 + (c[3] & 0x3F) as nat
  }

  lemma FirstIsLocal(s: Bytes, n: nat)
    requires FirstLength(s) <= n <= |s| && FirstLength(s) > 0
    ensures FirstLength(s[..n]) == FirstLength(s)
  {
  }

  ghost function Decode(s: Bytes): seq<nat>
    requires WellFormed(s)
  {
    if s == [] then []
    else
      var n := FirstLength(s);
      FirstIsLocal(s, n);
      [CodePoint(s[..n])] + Decode(s[n..])
  }

  lemma {:induction false} WellFormedConcat(a: Bytes, b: Bytes)
    requires WellFormed(a)
    ensures WellFormed(a + b) <==> WellFormed(b)
  {
    hide FirstLength;
    if a == [] {
      assert a + b == b;
    } else {
      var n := FirstLength(a);
      FirstExtends(a, b);
      assert (a + b)[n..] == a[n..] + b;
      WellFormedConcat(a[n..], b);
    }
  }

  lemma DecodeStep(a: Bytes, b: Bytes)
    requires WellFormed(a) && WellFormed(a + b) && WellFormed(b) && a != []
    requires var rest := a[FirstLength(a)..];
      WellFormed(rest) && WellFormed(rest + b) && Decode(rest + b) == Decode(rest) + Decode(b)
    ensures Decode(a + b) == Decode(a) + Decode(b)
  {
    hide FirstLength, CodePoint, WellFormed, Decode;
    OneCharacter(a);
    OneCharacter(a + b);
    FirstExtends(a, b);
    var n := FirstLength(a);
    assert (a + b)[n..] == a[n..] + b;
    assert (a + b)[..n] == a[..n];
  }

  /** Text after a well-formed prefix is decoded as if the prefix were not there. */
  lemma {:induction false} DecodeConcat(a: Bytes, b: Bytes)
    requires WellFormed(a)
    ensures WellFormed(a + b) <==> WellFormed(b)
    ensures WellFormed(b) ==> Decode(a + b) == Decode(a) + Decode(b)
  {
    hide FirstLength, CodePoint, Decode;
    WellFormedConcat(a, b);
    if a == [] {
      assert a + b == b;
      NothingToDecode();
    } else if WellFormed(b) {
      OneCharacter(a);
      DecodeConcat(a[FirstLength(a)..], b);
      DecodeStep(a, b);
    }
  }

  lemma NothingToDecode()
    ensures Decode([]) == []
  {
  }

  lemma OneCharacter(s: Bytes)
    requires WellFormed(s) && s != []
    ensures var n := FirstLength(s); 0 < n <= |s| && WellFormed(s[n..]) && FirstLength(s[..n]) == n
    ensures var n := FirstLength(s); Decode(s) == [CodePoint(s[..n])] + Decode(s[n..])
  {
    FirstIsLocal(s, FirstLength(s));
  }

  lemma FirstExtends(a: Bytes, b: Bytes)
    requires FirstLength(a) > 0
    ensures FirstLength(a + b) == FirstLength(a)
  {
  }

  // ----- the cut ------------------------------------------------------------------------------------

  /** The last index up to i whose byte does not continue a character, or -1. */
  function LeadIndex(s: Bytes, i: int): (lead: int)
    requires -1 <= i < |s|
    ensures -1 <= lead <= i && forall j :: lead < j <= i ==> Tail(s[j])
    ensures lead >= 0 ==> !Tail(s[lead])
    decreases i + 1
  {
    if i < 0 || !Tail(s[i]) then i else LeadIndex(s, i - 1)
  }

  /** How many bytes the bit pattern of a lead byte announces. */
  function Announced(b: bv8): nat {
    if b & 0x80 == 0 then 1
    else if b & 0xE0 == 0xC0 then 2
    else if b & 0xF0 == 0xE0 then 3
    else if b & 0xF8 == 0xF0 then 4
    else 1
  }

  function CompletePrefix(s: Bytes): (n: nat)
    ensures n <= |s|
  {
    var lead := LeadIndex(s, |s| - 1);
    if lead < 0 then 0
    else if |s| - lead < Announced(s[lead]) then lead
    else |s|
  }

  method CompleteUtf8PrefixLength(buffer: Bytes) returns (length: nat)
    ensures length == CompletePrefix(buffer)
  {
    if |buffer| == 0 { return 0; }
    var lead := |buffer| - 1;
    while lead >= 0 && buffer[lead] & 0xC0 == 0x80
      invariant -1 <= lead < |buffer|
      invariant LeadIndex(buffer, |buffer| - 1) == LeadIndex(buffer, lead)
    {
      TailMask(buffer[lead]);
      lead := lead - 1;
    }
    if lead < 0 { return 0; }
    TailMask(buffer[lead]);
    var byte := buffer[lead];
    var expected := if byte & 0x80 == 0 then 1
    else if byte & 0xE0 == 0xC0 then 2
    else if byte & 0xF0 == 0xE0 then 3
    else if byte & 0xF8 == 0xF0 then 4
    else 1;
    return if |buffer| - lead < expected then lead else |buffer|;
  }

  lemma TailMask(b: bv8)
    ensures b & 0xC0 == 0x80 <==> Tail(b)
  {
  }

  /** If the buffer is the beginning of well-formed text, the cut is its last character boundary: what
      is emitted is well formed, no longer prefix is, and at most three bytes are held back. */
  lemma CutsAtLastBoundary(s: Bytes)
    requires CanContinue(s)
    ensures CompletePrefix(s) <= |s| <= CompletePrefix(s) + 3
    ensures WellFormed(s[..CompletePrefix(s)])
    ensures forall n :: CompletePrefix(s) < n <= |s| ==> !WellFormed(s[..n])
  {
    var rest :| WellFormed(s + rest);
    var k := Cut(s, rest);
    LeadOfCut(s, rest, k);
    forall n | k < n <= |s|
      ensures !WellFormed(s[..n])
    {
      if WellFormed(s[..n]) {
        assert s[..n] == s[..k] + s[k..n];
        TornCharacter(s[k..], rest, n - k);
        assert s[k..][..n - k] == s[k..n];
        DecodeConcat(s[..k], s[k..n]);
      }
    }
  }

  /** What is held back begins a character that announces more than is there. */
  lemma HeldBackIsIncomplete(s: Bytes)
    requires CanContinue(s) && CompletePrefix(s) < |s|
    ensures WellFormed(s[..CompletePrefix(s)])
    ensures |s| < CompletePrefix(s) + Announced(s[CompletePrefix(s)])
  {
    CutsAtLastBoundary(s);
    BeginsWithLead(s);
  }

  lemma BeginsWithLead(s: Bytes)
    requires CanContinue(s) && s != []
    ensures !Tail(s[0])
  {
    var rest :| WellFormed(s + rest);
    assert (s + rest)[0] == s[0];
  }

  /** A boundary with an incomplete character behind it is the cut. */
  lemma LastBoundary(s: Bytes, p: nat)
    requires CanContinue(s) && p < |s| && WellFormed(s[..p]) && |s| < p + Announced(s[p])
    ensures CompletePrefix(s) == p
  {
    CutsAtLastBoundary(s);
    var c := CompletePrefix(s);
    if p < c {
      assert s[..c] == s[..p] + s[p..c];
      WellFormedConcat(s[..p], s[p..c]);
      AnnouncedIsLength(s[p..c]);
    }
  }

  lemma AnnouncedIsLength(s: Bytes)
    requires FirstLength(s) > 0
    ensures FirstLength(s) == Announced(s[0])
  {
  }

  /** No beginning of a character that stops short of its end is well formed. */
  lemma TornCharacter(s: Bytes, rest: Bytes, n: nat)
    requires 0 < n <= |s| < FirstLength(s + rest)
    ensures !WellFormed(s[..n])
  {
  }

  /** The last boundary of s inside the text s + rest. */
  lemma {:induction false} Cut(s: Bytes, rest: Bytes) returns (k: nat)
    requires WellFormed(s + rest)
    ensures k <= |s| && WellFormed(s[..k]) && WellFormed(s[k..] + rest)
    ensures k < |s| ==> |s| - k < FirstLength(s[k..] + rest)
    ensures k == |s| && s != [] ==>
      exists l: nat :: l < |s| && FirstLength(s[l..]) == |s| - l
    decreases |s|
  {
    var n := FirstLength(s + rest);
    if s == [] || |s| < n {
      k := 0;
      assert s[0..] == s;
    } else {
      assert (s + rest)[n..] == s[n..] + rest;
      FirstIsLocal(s + rest, |s|);
      assert (s + rest)[..|s|] == s;
      var k' := Cut(s[n..], rest);
      k := n + k';
      assert s[n..][..k'] == s[n..k] && s[n..][k'..] == s[k..];
      FirstIsLocal(s, n);
      assert s[..k][n..] == s[n..k];
      FirstIsLocal(s, k);
      if k == |s| {
        if s[n..] == [] {
          assert s[0..] == s;
          assert FirstLength(s[0..]) == |s| - 0;
        } else {
          var l' :| 0 <= l' < |s[n..]| && FirstLength(s[n..][l'..]) == |s[n..]| - l';
          assert s[n..][l'..] == s[n + l'..];
          assert FirstLength(s[n + l'..]) == |s| - (n + l');
        }
      }
    }
  }

  /** The byte search of the implementation finds that boundary. */
  lemma LeadOfCut(s: Bytes, rest: Bytes, k: nat)
    requires k <= |s| && (k < |s| ==> |s| - k < FirstLength(s[k..] + rest))
    requires k == |s| && s != [] ==> exists l: nat :: l < |s| && FirstLength(s[l..]) == |s| - l
    ensures CompletePrefix(s) == k && |s| - k <= 3
  {
  }

  /** Exactly when nothing is emitted: there is no byte, or no lead byte, or the only lead byte is the
      first and announces more than is there. On a buffer of stray continuation bytes a reader that
      resumes at the cut therefore never advances. */
  lemma EmitsNothing(s: Bytes)
    ensures CompletePrefix(s) == 0 <==>
      (forall j :: 0 <= j < |s| ==> Tail(s[j]))
      || (!Tail(s[0]) && |s| < Announced(s[0]) && forall j :: 1 <= j < |s| ==> Tail(s[j]))
  {
  }

  // ----- reading in pieces --------------------------------------------------------------------------

  /** What a reader emits when its reads return at most `sizes[0]`, `sizes[1]`, ... bytes and each
      resumes at the cut of the one before. */
  function Pieces(text: Bytes, sizes: seq<nat>): seq<Bytes>
    decreases sizes
  {
    if sizes == [] then []
    else
      var s := if sizes[0] < |text| then text[..sizes[0]] else text;
      var n := CompletePrefix(s);
      [s[..n]] + Pieces(text[n..], sizes[1..])
  }

  function Joined(pieces: seq<Bytes>): Bytes {
    if pieces == [] then [] else pieces[0] + Joined(pieces[1..])
  }

  ghost predicate AllWellFormed(pieces: seq<Bytes>) {
    pieces == [] || (WellFormed(pieces[0]) && AllWellFormed(pieces[1..]))
  }

  ghost function DecodedOneByOne(pieces: seq<Bytes>): seq<nat>
    requires AllWellFormed(pieces)
  {
    if pieces == [] then [] else Decode(pieces[0]) + DecodedOneByOne(pieces[1..])
  }

  lemma PrefixContinues(text: Bytes, n: nat)
    requires WellFormed(text) && n <= |text|
    ensures CanContinue(text[..n])
  {
    hide WellFormed;
    assert text[..n] + text[n..] == text;
  }

  lemma PrefixOfText(text: Bytes, n: nat)
    requires CanContinue(text) && n <= |text|
    ensures CanContinue(text[..n])
  {
    hide WellFormed;
    var rest :| WellFormed(text + rest);
    assert text[..n] + (text[n..] + rest) == text + rest;
  }

  lemma PieceIsWellFormed(text: Bytes, size: nat)
    requires WellFormed(text)
    ensures var s := if size < |text| then text[..size] else text; var n := CompletePrefix(s);
            s[..n] == text[..n] && WellFormed(text[..n]) && WellFormed(text[n..])
  {
    hide FirstLength, CompletePrefix, CanContinue, WellFormed;
    var s := if size < |text| then text[..size] else text;
    PrefixContinues(text, |s|);
    assert s == text[..|s|];
    CutsAtLastBoundary(s);
    var n := CompletePrefix(s);
    assert s[..n] == text[..n];
    assert text == text[..n] + text[n..];
    DecodeConcat(text[..n], text[n..]);
  }

  /** However a text is cut into reads, what has been emitted is a prefix of the text, every piece is
      well formed, and decoding the pieces one by one equals decoding the prefix: no character is torn,
      lost or duplicated. */
  lemma {:induction false} PiecesDecodeAsWhole(text: Bytes, sizes: seq<nat>)
    requires WellFormed(text)
    ensures Joined(Pieces(text, sizes)) <= text
    ensures AllWellFormed(Pieces(text, sizes)) && WellFormed(Joined(Pieces(text, sizes)))
    ensures DecodedOneByOne(Pieces(text, sizes)) == Decode(Joined(Pieces(text, sizes)))
    decreases sizes
  {
    hide FirstLength, CodePoint, CompletePrefix, CanContinue;
    if sizes != [] {
      PieceIsWellFormed(text, sizes[0]);
      var s := if sizes[0] < |text| then text[..sizes[0]] else text;
      var n := CompletePrefix(s);
      var rest := Pieces(text[n..], sizes[1..]);
      PiecesDecodeAsWhole(text[n..], sizes[1..]);
      assert ([s[..n]] + rest)[1..] == rest;
      DecodeConcat(text[..n], Joined(rest));
    }
  }

  // ----- progress -----------------------------------------------------------------------------------

  /** No character of the text is longer than m bytes. */
  ghost predicate CharactersWithin(text: Bytes, m: nat)
    requires WellFormed(text)
  {
    text == [] || (FirstLength(text) <= m && CharactersWithin(text[FirstLength(text)..], m))
  }

  lemma {:induction false} FourBytesSuffice(text: Bytes)
    requires WellFormed(text)
    ensures CharactersWithin(text, 4)
  {
    hide FirstLength;
    if text != [] {
      FourBytesSuffice(text[FirstLength(text)..]);
    }
  }

  lemma {:induction false} WithinConcat(a: Bytes, b: Bytes, m: nat)
    requires WellFormed(a) && WellFormed(b) && WellFormed(a + b)
    ensures CharactersWithin(a + b, m) <==> CharactersWithin(a, m) && CharactersWithin(b, m)
  {
    hide FirstLength;
    if a == [] {
      assert a + b == b;
    } else {
      var n := FirstLength(a);
      FirstExtends(a, b);
      assert (a + b)[n..] == a[n..] + b;
      WellFormedConcat(a[n..], b);
      WithinConcat(a[n..], b, m);
    }
  }

  lemma {:induction false} ShortTextWithin(text: Bytes, m: nat)
    requires WellFormed(text) && |text| <= m
    ensures CharactersWithin(text, m)
  {
    if text != [] {
      ShortTextWithin(text[FirstLength(text)..], m);
    }
  }

  /** A read that is long enough for the next character emits it. */
  lemma EmitsACharacter(text: Bytes, size: nat)
    requires WellFormed(text) && text != [] && FirstLength(text) <= size
    ensures 0 < FirstLength(text) <= CompletePrefix(if size < |text| then text[..size] else text)
  {
    hide CompletePrefix, CanContinue;
    var s := if size < |text| then text[..size] else text;
    var n := FirstLength(text);
    PrefixContinues(text, |s|);
    assert s == text[..|s|];
    CutsAtLastBoundary(s);
    OneCharacter(text);
    assert s[..n] == text[..n] && WellFormed(text[..n]) by {
      assert text[..n][n..] == [];
    }
  }

  /** Reads that are never shorter than the longest character emit the whole text in the end. */
  lemma {:induction false} LongReadsEmitEverything(text: Bytes, sizes: seq<nat>, m: nat)
    requires WellFormed(text) && CharactersWithin(text, m)
    requires |text| <= |sizes| && forall k :: 0 <= k < |sizes| ==> m <= sizes[k]
    ensures Joined(Pieces(text, sizes)) == text
    decreases sizes
  {
    hide FirstLength, CompletePrefix, CanContinue;
    if sizes == [] { return; }
    PieceIsWellFormed(text, sizes[0]);
    var s := if sizes[0] < |text| then text[..sizes[0]] else text;
    var n := CompletePrefix(s);
    if text != [] {
      EmitsACharacter(text, sizes[0]);
    }
    assert text == text[..n] + text[n..];
    WithinConcat(text[..n], text[n..], m);
    LongReadsEmitEverything(text[n..], sizes[1..], m);
    assert ([s[..n]] + Pieces(text[n..], sizes[1..]))[1..] == Pieces(text[n..], sizes[1..]);
  }

  /** Reads that are all shorter than some character never emit that character, however many there are. */
  lemma {:induction false} ShortReadsStop(text: Bytes, sizes: seq<nat>, m: nat)
    requires WellFormed(text) && !CharactersWithin(text, m)
    requires forall k :: 0 <= k < |sizes| ==> sizes[k] <= m
    ensures Joined(Pieces(text, sizes)) != text
    decreases sizes
  {
    hide FirstLength, CompletePrefix, CanContinue;
    if sizes == [] { return; }
    PieceIsWellFormed(text, sizes[0]);
    var s := if sizes[0] < |text| then text[..sizes[0]] else text;
    var n := CompletePrefix(s);
    assert text == text[..n] + text[n..];
    WithinConcat(text[..n], text[n..], m);
    ShortTextWithin(text[..n], m);
    ShortReadsStop(text[n..], sizes[1..], m);
    var rest := Joined(Pieces(text[n..], sizes[1..]));
    assert ([s[..n]] + Pieces(text[n..], sizes[1..]))[1..] == Pieces(text[n..], sizes[1..]);
    assert Joined(Pieces(text, sizes))[n..] == rest;
  }

  /** With reads of one size m, as many as there are bytes, a text is emitted as a whole if and only if no
      character is longer than m. Four is always enough. */
  lemma WholeTextIsEmitted(text: Bytes, sizes: seq<nat>, m: nat)
    requires WellFormed(text) && |text| <= |sizes| && forall k :: 0 <= k < |sizes| ==> sizes[k] == m
    ensures Joined(Pieces(text, sizes)) == text <==> CharactersWithin(text, m)
  {
    if CharactersWithin(text, m) {
      LongReadsEmitEverything(text, sizes, m);
    } else {
      ShortReadsStop(text, sizes, m);
    }
  }
}
