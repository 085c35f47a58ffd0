/**
  Quote alignment, version 2: a quote is looked for exactly, then up to whitespace,
  then approximately; the answer is a span of the original message.
 */
module EvidenceAligner {
  import opened Common
  import opened Text
  import opened Whitespace
  import opened PositionMap
  import EditDistance

  datatype AlignmentOptionsV2 = AlignmentOptionsV2(
    minMatchLength: nat,
    fuzzyThreshold: real,
    maxMissingRatio: real
  )

  datatype MatchMethod = Exact | Normalized | Fuzzy

  datatype FailureReason = InvalidIndex | EmptyQuote | NotFound

  datatype ExtractedEvidence = ExtractedEvidence(messageIndex: int, quote: Text)

  datatype Match = Match(spanStart: nat, spanEnd: nat, confidence: real, matchMethod: MatchMethod)

  datatype EvidenceAlignResult =
    | Aligned(match_: Match)
    | Failed(failureReason: FailureReason)

  // ---------------------------------------------------------------- the whitespace-blind search

  /** Some span of the source reads like the quote, whitespace aside. */
  ghost predicate OccursUpToWhitespace(quote: Text, source: Text) {
    exists p: nat, e: nat | p <= e <= |source| :: NormalizeWhitespace(source[p..e]) == NormalizeWhitespace(quote)
  }

  /** `span` is the first tight span of the source that reads like the quote. */
  ghost predicate IsFirstUpToWhitespace(quote: Text, source: Text, start: nat, end: nat) {
    && start < end <= |source|
    && !IsWhitespace(source[start]) && !IsWhitespace(source[end - 1])
    && NormalizeWhitespace(source[start..end]) == NormalizeWhitespace(quote)
    && forall p: nat, e: nat | p <= e <= |source| && NormalizeWhitespace(source[p..e]) == NormalizeWhitespace(quote) ::
         p < start ==> IsWhitespace(source[p])
  }

  lemma LastText(s: Text, o: nat, e: nat) returns (k: nat)
    requires o < e <= |s| && !IsWhitespace(s[o])
    ensures o < k <= e && !IsWhitespace(s[k - 1]) && forall i | k <= i < e :: IsWhitespace(s[i])
  {
    k := e;
    while IsWhitespace(s[k - 1])
      invariant o < k <= e && forall i | k <= i < e :: IsWhitespace(s[i])
      decreases k
    {
      k := k - 1;
    }
  }

  lemma BlankNormalizesToNothing(s: Text)
    requires forall i | 0 <= i < |s| :: IsWhitespace(s[i])
    ensures NormalizeWhitespace(s) == []
  {
    ReachOfWhitespace(s, 0, |s|);
    assert s[..0] == [] && s[..|s|] == s;
    NormalizeIsTrimmedCollapse(s);
    var l, r := TrimRange(Collapse(s));
  }

  /** Whitespace around a span does not show in its normal form. */
  lemma ShrinkToText(x: Text, a: nat, b: nat)
    requires a < b <= |x| && !IsWhitespace(x[a]) && !IsWhitespace(x[b - 1])
    requires forall i | 0 <= i < a || b <= i < |x| :: IsWhitespace(x[i])
    ensures NormalizeWhitespace(x) == NormalizeWhitespace(x[a..b])
  {
    NormalizeTight(x, a, b);
    NormalizeIsTrimmedCollapse(x);
    ReachOfCharacter(x, a);
    ReachOfCharacter(x, b - 1);
    ReachOfWhitespace(x, 0, a);
    ReachOfWhitespace(x, b, |x|);
    ReachIsPrefix(x, a);
    assert x[..0] == [] && x[..|x|] == x;
    var t := Collapse(x);
    forall j | 0 <= j < Reach(x, a)
      ensures IsWhitespace(t[j])
    {
      assert t[j] == Collapse(x[..a])[j];
    }
    TrimIsTheRange(t, Reach(x, a), Reach(x, b));
  }

  lemma TextInside(x: Text) returns (a: nat, b: nat)
    requires NormalizeWhitespace(x) != []
    ensures a < b <= |x| && !IsWhitespace(x[a]) && !IsWhitespace(x[b - 1])
    ensures !IsWhitespace(x[0]) ==> a == 0
    ensures NormalizeWhitespace(x) == NormalizeWhitespace(x[a..b])
  {
    if OnlyWhitespaceFrom(x, 0) {
      BlankNormalizesToNothing(x);
    }
    a := FirstText(x, 0);
    b := LastText(x, a, |x|);
    ShrinkToText(x, a, b);
  }

  lemma TightSpanShowsInNormalized(s: Text, p: nat, e: nat)
    requires p < e <= |s| && !IsWhitespace(s[p]) && !IsWhitespace(s[e - 1])
    ensures Margin(s) <= Reach(s, p)
    ensures NormalizeWhitespace(s[p..e]) != []
    ensures OccursAt(NormalizeWhitespace(s[p..e]), NormalizeWhitespace(s), Reach(s, p) - Margin(s))
  {
    TightInRange(s, p, e);
    var from, to := Reach(s, p) - Margin(s), Reach(s, e) - Margin(s);
    NormalizeTight(s, p, e);
    NormalizedSlice(s, from, to);
    SliceOccurs(NormalizeWhitespace(s[p..e]), NormalizeWhitespace(s), from, to);
  }

  lemma SliceOccurs(needle: Text, text: Text, from: nat, to: nat)
    requires from < to <= |text| && text[from..to] == needle
    ensures needle != [] && OccursAt(needle, text, from)
  {
  }

  /** What opens and closes with text lies inside what the trim leaves. */
  lemma TightInRange(s: Text, p: nat, e: nat)
    requires p < e <= |s| && !IsWhitespace(s[p]) && !IsWhitespace(s[e - 1])
    ensures Margin(s) <= Reach(s, p) < Reach(s, e) <= Margin(s) + |NormalizeWhitespace(s)|
  {
    TightReach(s, p, e);
    ReachOfCharacter(s, p);
    ReachOfCharacter(s, e - 1);
    NormalizedRange(s);
  }

  /** Every span's normal form, if it has any text, can be found in the normalised source. */
  lemma SpanShowsInNormalized(s: Text, p: nat, e: nat) returns (i: nat)
    requires p <= e <= |s| && NormalizeWhitespace(s[p..e]) != []
    ensures OccursAt(NormalizeWhitespace(s[p..e]), NormalizeWhitespace(s), i)
    ensures p < e
    ensures !IsWhitespace(s[p]) ==> Reach(s, p) == Margin(s) + i
  {
    var a, b := TextInside(s[p..e]);
    SliceOfSlice(s, p, e, a, b);
    assert s[p..e][a] == s[p + a] && s[p..e][b - 1] == s[p + b - 1] && s[p..e][0] == s[p];
    TightSpanShowsInNormalized(s, p + a, p + b);
    i := Reach(s, p + a) - Margin(s);
  }

  /** A normal form that is not empty opens and closes with text. */
  lemma NormalFormIsTight(s: Text)
    requires NormalizeWhitespace(s) != []
    ensures !IsWhitespace(NormalizeWhitespace(s)[0])
    ensures !IsWhitespace(NormalizeWhitespace(s)[|NormalizeWhitespace(s)| - 1])
  {
    NormalizedRange(s);
  }

  lemma FirstOccurrenceIsFirstSpan(quote: Text, source: Text, index: nat, span: Span)
    requires NormalizeWhitespace(quote) != []
    requires OccursAt(NormalizeWhitespace(quote), NormalizeWhitespace(source), index)
    requires forall i | 0 <= i < index :: !OccursAt(NormalizeWhitespace(quote), NormalizeWhitespace(source), i)
    requires IsOriginOf(source, span, index, index + |NormalizeWhitespace(quote)|)
    ensures IsFirstUpToWhitespace(quote, source, span.start, span.end)
  {
    forall p: nat, e: nat | p <= e <= |source|
                         && NormalizeWhitespace(source[p..e]) == NormalizeWhitespace(quote) && p < span.start
      ensures IsWhitespace(source[p])
    {
      var i := SpanShowsInNormalized(source, p, e);
      if !IsWhitespace(source[p]) {
        ReachOfCharacter(source, p);
        ReachMonotone(source, p + 1, span.start);
        assert false;
      }
    }
  }

  ghost predicate IsFirstOccurrence(needle: Text, text: Text, i: nat) {
    OccursAt(needle, text, i) && forall j: nat | j < i :: !OccursAt(needle, text, j)
  }

  function MatchOf(span: Option<Span>, confidence: real, matchMethod: MatchMethod): Option<Match> {
    match span
    case None => None
    case Some(s) => Some(Match(s.start, s.end, confidence, matchMethod))
  }

  /** What the normalised stage answers: the span mapped back from the first occurrence, or nothing. */
  ghost predicate IsNormalizedAnswer(quote: Text, source: Text, r: Option<Match>) {
    var q, n := NormalizeWhitespace(quote), NormalizeWhitespace(source);
    && (!Occurs(q, n) ==> r == None)
    && forall i: nat | IsFirstOccurrence(q, n, i) :: r == MatchOf(OriginalSpan(source, n, i, i + |q|), 0.95, Normalized)
  }

  /** An occurrence in normalised text comes from a span of the source. */
  lemma OccurrenceHasOrigin(quote: Text, source: Text, index: nat) returns (span: Span)
    requires NormalizeWhitespace(quote) != []
    requires OccursAt(NormalizeWhitespace(quote), NormalizeWhitespace(source), index)
    ensures IsTextRange(source, index, index + |NormalizeWhitespace(quote)|)
    ensures IsOriginOf(source, span, index, index + |NormalizeWhitespace(quote)|)
    ensures NormalizeWhitespace(source[span.start..span.end]) == NormalizeWhitespace(quote)
  {
    var q, n := NormalizeWhitespace(quote), NormalizeWhitespace(source);
    NormalFormIsTight(quote);
    assert n[index..index + |q|] == q;
    assert n[index] == q[0] && n[index + |q| - 1] == q[|q| - 1];
    var a, b := OriginOfBoth(source, index, index + |q|);
    OriginOfRange(source, a, b, index, index + |q| - 1);
    span := Span(a, b + 1);
  }

  /** So searching normalised text finds exactly the quotes that the source has, whitespace aside. */
  lemma OccursUpToWhitespaceIff(quote: Text, source: Text)
    requires NormalizeWhitespace(quote) != []
    ensures OccursUpToWhitespace(quote, source) <==> Occurs(NormalizeWhitespace(quote), NormalizeWhitespace(source))
  {
    var q, n := NormalizeWhitespace(quote), NormalizeWhitespace(source);
    if OccursUpToWhitespace(quote, source) {
      var p: nat, e: nat :| p <= e <= |source| && NormalizeWhitespace(source[p..e]) == NormalizeWhitespace(quote);
      var i := SpanShowsInNormalized(source, p, e);
    }
    if Occurs(q, n) {
      var i: nat :| OccursAt(q, n, i);
      var span := OccurrenceHasOrigin(quote, source, i);
    }
  }

  /** The first span that reads like the quote is where the first occurrence comes from. */
  lemma FirstSpanIsOrigin(quote: Text, source: Text, index: nat, span: Span)
    requires NormalizeWhitespace(quote) != []
    requires IsFirstOccurrence(NormalizeWhitespace(quote), NormalizeWhitespace(source), index)
    requires IsFirstUpToWhitespace(quote, source, span.start, span.end)
    ensures IsOriginOf(source, span, index, index + |NormalizeWhitespace(quote)|)
  {
    var origin := OccurrenceHasOrigin(quote, source, index);
    TightSpanShowsInNormalized(source, span.start, span.end);
    assert Reach(source, span.start) - Margin(source) >= index;
    ReachesInOrder(source, span.start, origin.start);
  }

  lemma ReachesInOrder(s: Text, p: nat, q: nat)
    requires p <= q < |s| && !IsWhitespace(s[p])
    ensures p < q ==> Reach(s, p) < Reach(s, q)
  {
    if p < q {
      ReachOfCharacter(s, p);
      ReachMonotone(s, p + 1, q);
    }
  }

  /** The answer is the first span that reads like the quote under exactly this condition on its first occurrence. */
  lemma NormalizedAnswerIsFirstSpanIff(quote: Text, source: Text, index: nat)
    requires NormalizeWhitespace(quote) != []
    requires IsFirstOccurrence(NormalizeWhitespace(quote), NormalizeWhitespace(source), index)
    ensures (var q, n := NormalizeWhitespace(quote), NormalizeWhitespace(source);
      var span := OriginalSpan(source, n, index, index + |q|);
      (span.Some? && IsFirstUpToWhitespace(quote, source, span.value.start, span.value.end))
      <==> CanMap(source, index, index + |q|))
  {
    var q, n := NormalizeWhitespace(quote), NormalizeWhitespace(source);
    var origin := OccurrenceHasOrigin(quote, source, index);
    TextRangeMapsIff(source, index, index + |q|);
    var span := OriginalSpan(source, n, index, index + |q|);
    if MapsToOrigin(source, index, index + |q|) {
      FirstOccurrenceIsFirstSpan(quote, source, index, span.value);
    } else if span.Some? && IsFirstUpToWhitespace(quote, source, span.value.start, span.value.end) {
      FirstSpanIsOrigin(quote, source, index, span.value);
    }
  }

  method TryNormalizedMatchV2(quote: Text, source: Text) returns (r: Option<Match>)
    ensures IsNormalizedAnswer(quote, source, r)
    ensures r.Some? ==> r.value.spanStart < |source| && r.value.spanEnd <= |source|
    ensures r.Some? ==> r.value.confidence == 0.95 && r.value.matchMethod == Normalized
    ensures r.Some? && NormalizeWhitespace(quote) != [] ==> r.value.spanStart < r.value.spanEnd
    ensures NormalizeWhitespace(quote) != [] && !OccursUpToWhitespace(quote, source) ==> r == None
    ensures NormalizeWhitespace(quote) != [] && OccursUpToWhitespace(quote, source) ==> exists i: nat ::
      && IsFirstOccurrence(NormalizeWhitespace(quote), NormalizeWhitespace(source), i)
      && (r.Some? && IsFirstUpToWhitespace(quote, source, r.value.spanStart, r.value.spanEnd)
          <==> CanMap(source, i, i + |NormalizeWhitespace(quote)|))
    ensures NormalizeWhitespace(quote) != [] && Followable(source) && OccursUpToWhitespace(quote, source) ==>
      r.Some? && IsFirstUpToWhitespace(quote, source, r.value.spanStart, r.value.spanEnd)
  {
    var normalizedQuote := NormalizeWhitespace(quote);
    var normalizedSource := NormalizeWhitespace(source);
    var normalizedIndex := IndexOf(normalizedSource, normalizedQuote);
    if normalizedQuote != [] {
      OccursUpToWhitespaceIff(quote, source);
    }
    if normalizedIndex == -1 {
      return None;
    }
    assert IsFirstOccurrence(normalizedQuote, normalizedSource, normalizedIndex);
    if normalizedQuote != [] {
      NormalizedAnswerIsFirstSpanIff(quote, source, normalizedIndex);
    }
    var normalizedEnd := normalizedIndex + |normalizedQuote|;
    var originalSpan := MapToOriginalPositions(source, normalizedSource, normalizedIndex, normalizedEnd);
    r := MatchOf(originalSpan, 0.95, Normalized);
  }

  // ---------------------------------------------------------------- a source the scan cannot follow

  lemma {:induction false} SpacedIsCollapsed(s: Text)
    requires forall i | 0 <= i < |s| :: IsCollapsible(s[i]) ==> s[i] == SPACE
    requires forall i, j | 0 <= i < j < |s| && j == i + 1 :: !(IsCollapsible(s[i]) && IsCollapsible(s[j]))
    ensures Collapse(s) == s
  {
    if s != [] {
      var k := |s| - 1;
      SpacedIsCollapsed(s[..k]);
      assert s == s[..k] + [s[k]];
      CollapseSnoc(s[..k], s[k]);
    }
  }

  /** Text with single spaces only, that opens and closes with text, is its own normal form. */
  lemma SpacedIsNormal(s: Text)
    requires s != [] && !IsWhitespace(s[0]) && !IsWhitespace(s[|s| - 1])
    requires forall i | 0 <= i < |s| :: IsCollapsible(s[i]) ==> s[i] == SPACE
    requires forall i, j | 0 <= i < j < |s| && j == i + 1 :: !(IsCollapsible(s[i]) && IsCollapsible(s[j]))
    ensures NormalizeWhitespace(s) == s
  {
    SpacedIsCollapsed(s);
    NormalizeIsTrimmedCollapse(s);
    TrimIsTheRange(s, 0, |s|);
  }

  /** An "a", a no-break space, a space, and "b c". */
  const UNFOLLOWABLE: Text := [97, 0xA0, 32, 98, 32, 99]

  lemma ScanOfUnfollowable()
    ensures Positions(UNFOLLOWABLE, UNFOLLOWABLE) == [0, 1, 3, 5]
  {
    var s := UNFOLLOWABLE;
    assert RunEnd(s, 2) == RunEnd(s, 3) == 3;
    assert PositionsFrom(s, s, [], 0) == PositionsFrom(s, s, [0], 1);
    assert Consumes(s, s, [0], 1) && PositionsFrom(s, s, [0], 1) == PositionsFrom(s, s, [0, 1], 3);
    assert PositionsFrom(s, s, [0, 1], 3) == PositionsFrom(s, s, [0, 1, 3], 4);
    assert !Consumes(s, s, [0, 1, 3], 4) && PositionsFrom(s, s, [0, 1, 3], 4) == PositionsFrom(s, s, [0, 1, 3], 5);
    assert PositionsFrom(s, s, [0, 1, 3], 5) == PositionsFrom(s, s, [0, 1, 3, 5], 6);
  }

  lemma UnfollowableIsNormal()
    ensures NormalizeWhitespace(UNFOLLOWABLE) == UNFOLLOWABLE && !Followable(UNFOLLOWABLE)
  {
    var s := UNFOLLOWABLE;
    SpacedIsNormal(s);
    assert IsWhitespace(s[1]) && IsWhitespace(s[2]);
  }

  lemma FirstInUnfollowable(q: Text)
    requires q == [98, 32, 99]
    ensures IsFirstOccurrence(q, UNFOLLOWABLE, 3)
  {
    var s := UNFOLLOWABLE;
    assert s[3..6] == q;
    forall j: nat | j < 3
      ensures !OccursAt(q, s, j)
    {
      assert s[j..j + 3][0] == s[j] && q[0] == 98;
    }
  }

  /** There "b c", read with more space, is answered with the span of "c" alone, at the usual confidence. */
  lemma UnfollowableAnswerIsWrong(quote: Text, r: Option<Match>)
    requires NormalizeWhitespace(quote) == [98, 32, 99]
    requires IsNormalizedAnswer(quote, UNFOLLOWABLE, r)
    ensures !Followable(UNFOLLOWABLE) && OccursUpToWhitespace(quote, UNFOLLOWABLE)
    ensures r == Some(Match(5, 6, 0.95, Normalized))
    ensures NormalizeWhitespace(UNFOLLOWABLE[5..6]) != NormalizeWhitespace(quote)
  {
    var s, q := UNFOLLOWABLE, NormalizeWhitespace(quote);
    UnfollowableIsNormal();
    FirstInUnfollowable(q);
    ScanOfUnfollowable();
    ThirdAnswer(s, quote, r);
    assert s[3..6] == q && s[5..6] == [99];
    SpacedIsNormal(q);
    SpacedIsNormal(s[5..6]);
    assert NormalizeWhitespace(s[3..6]) == NormalizeWhitespace(quote);
  }

  /** Four recorded positions, and an occurrence from the fourth of six places on. */
  lemma ThirdAnswer(s: Text, quote: Text, r: Option<Match>)
    requires NormalizeWhitespace(s) == s && |s| == 6 && Positions(s, s) == [0, 1, 3, 5]
    requires |NormalizeWhitespace(quote)| == 3 && IsFirstOccurrence(NormalizeWhitespace(quote), s, 3)
    requires IsNormalizedAnswer(quote, s, r)
    ensures r == Some(Match(5, 6, 0.95, Normalized))
  {
    var positions := Positions(s, s);
    assert |positions| == 4 && positions[3] == 5;
    assert OriginalSpan(s, s, 3, 6) == Some(Span(5, 6));
  }

  lemma TwoSpacesCollapse(x: Text, c: CodeUnit)
    requires x != [] && !IsCollapsible(x[|x| - 1]) && !IsCollapsible(c)
    ensures Collapse(x + [SPACE] + [SPACE] + [c]) == Collapse(x) + [SPACE] + [c]
  {
    CollapseSnoc(x, SPACE);
    CollapseSnoc(x + [SPACE], SPACE);
    CollapseSnoc(x + [SPACE] + [SPACE], c);
  }

  lemma NotInUnfollowable(quote: Text)
    requires |quote| == 4 && quote[1] == 32 && quote[2] == 32
    ensures !Occurs(quote, UNFOLLOWABLE)
  {
    var s := UNFOLLOWABLE;
    forall i: nat
      ensures !OccursAt(quote, s, i)
    {
      if i + 4 <= 6 {
        assert s[i..i + 4][1] == s[i + 1] && s[i..i + 4][2] == s[i + 2];
      }
    }
  }

  lemma SpacedQuoteNormal(b: Text, quote: Text, read: Text)
    requires b == [98] && quote == b + [SPACE] + [SPACE] + [99] && read == b + [SPACE] + [99]
    ensures NormalizeWhitespace(quote) == read
  {
    SpacedIsCollapsed(b);
    TwoSpacesCollapse(b, 99);
    NormalizeIsTrimmedCollapse(quote);
    TrimIsTheRange(read, 0, 3);
  }

  /** Such a quote, with two spaces, does not occur as it stands, so the exact stage does not catch it. */
  lemma SpacedQuoteReads(b: Text)
    requires b == [98]
    ensures NormalizeWhitespace(b + [SPACE] + [SPACE] + [99]) == b + [SPACE] + [99]
    ensures !Occurs(b + [SPACE] + [SPACE] + [99], UNFOLLOWABLE)
  {
    var quote := b + [SPACE] + [SPACE] + [99];
    SpacedQuoteNormal(b, quote, b + [SPACE] + [99]);
    NotInUnfollowable(quote);
  }

  // ---------------------------------------------------------------- the approximate search

  /** The three window sizes: the quote's length, and 10 and 20 per cent more, rounded down. */
  function WindowSizes(n: nat): seq<nat> {
    [n, n * 11 / 10, n * 12 / 10]
  }

  /** Window number `i` of the `k`-th size lies inside the source. */
  predicate IsWindow(quote: Text, source: Text, k: nat, i: nat) {
    k < 3 && i + WindowSizes(|quote|)[k] <= |source|
  }

  function WindowSimilarity(quote: Text, source: Text, k: nat, i: nat): real
    requires IsWindow(quote, source, k, i)
  {
    EditDistance.Similarity(quote, source[i..i + WindowSizes(|quote|)[k]])
  }

  datatype Window = Window(size: nat, index: nat, similarity: real)

  /** The scan goes through the sizes in order, and through each size from the left. */
  ghost predicate Scanned(k: nat, i: nat, sizes: nat, upTo: nat) {
    k < sizes || (k == sizes && i < upTo)
  }

  /** Of the windows scanned, `best` is the earliest of the most similar that reach the threshold. */
  ghost predicate IsBest(quote: Text, source: Text, threshold: real, sizes: nat, upTo: nat, best: Option<Window>) {
    match best
    case None =>
      forall k: nat, i: nat | Scanned(k, i, sizes, upTo) && IsWindow(quote, source, k, i) ::
        WindowSimilarity(quote, source, k, i) < threshold
    case Some(b) =>
      && IsWindow(quote, source, b.size, b.index)
      && b.similarity == WindowSimilarity(quote, source, b.size, b.index) >= threshold
      && (quote == [] ==> b.index == 0)
      && (forall k: nat, i: nat | Scanned(k, i, sizes, upTo) && IsWindow(quote, source, k, i) ::
            WindowSimilarity(quote, source, k, i) <= b.similarity)
      && forall k: nat, i: nat | Scanned(k, i, b.size, b.index) && IsWindow(quote, source, k, i) ::
           WindowSimilarity(quote, source, k, i) < b.similarity
  }

  /** So there is one such window at most. */
  lemma BestIsUnique(quote: Text, source: Text, threshold: real, a: Option<Window>, b: Option<Window>)
    requires IsBest(quote, source, threshold, 3, 0, a) && IsBest(quote, source, threshold, 3, 0, b)
    ensures a == b
  {
    if a.Some? {
      assert Scanned(a.value.size, a.value.index, 3, 0);
    }
    if b.Some? {
      assert Scanned(b.value.size, b.value.index, 3, 0);
    }
    if a.Some? && b.Some? {
      var x, y := a.value, b.value;
      assert x.similarity == y.similarity;
      assert Scanned(x.size, x.index, y.size, y.index) || Scanned(y.size, y.index, x.size, x.index) || x == y;
    }
  }

  function Better(best: Option<Window>, threshold: real, w: Window): Option<Window> {
    if w.similarity >= threshold && (best == None || w.similarity > best.value.similarity) then Some(w) else best
  }

  lemma BestAfterWindow(quote: Text, source: Text, threshold: real, k: nat, i: nat, best: Option<Window>)
    requires IsBest(quote, source, threshold, k, i, best) && IsWindow(quote, source, k, i)
    ensures IsBest(quote, source, threshold, k, i + 1,
                   Better(best, threshold, Window(k, i, WindowSimilarity(quote, source, k, i))))
  {
    if quote == [] {
      assert source[i..i + WindowSizes(|quote|)[k]] == [];
      if best.Some? {
        assert source[best.value.index..best.value.index + WindowSizes(|quote|)[best.value.size]] == [];
      } else if i > 0 {
        assert IsWindow(quote, source, k, 0) && Scanned(k, 0, k, i);
        assert source[0..0 + WindowSizes(|quote|)[k]] == [];
      }
    }
  }

  lemma BestAfterSize(quote: Text, source: Text, threshold: real, k: nat, i: nat, best: Option<Window>)
    requires IsBest(quote, source, threshold, k, i, best) && !IsWindow(quote, source, k, i)
    ensures IsBest(quote, source, threshold, k + 1, 0, best)
  {
    forall k': nat, i': nat | Scanned(k', i', k + 1, 0) && IsWindow(quote, source, k', i')
      ensures Scanned(k', i', k, i)
    {
    }
  }

  /** The sliding-window scan over all three sizes. */
  method BestWindow(quote: Text, source: Text, threshold: real) returns (bestMatch: Option<Window>)
    ensures IsBest(quote, source, threshold, 3, 0, bestMatch)
  {
    bestMatch := None;
    var windowSizes := [|quote|, |quote| * 11 / 10, |quote| * 12 / 10];
    for k := 0 to 3
      invariant IsBest(quote, source, threshold, k, 0, bestMatch)
    {
      var windowSize := windowSizes[k];
      var i := 0;
      while i + windowSize <= |source|
        invariant IsBest(quote, source, threshold, k, i, bestMatch)
      {
        BestAfterWindow(quote, source, threshold, k, i, bestMatch);
        var similarity := EditDistance.CalculateLevenshteinSimilarity(quote, source[i..i + windowSize]);
        if similarity >= threshold {
          if bestMatch == None || similarity > bestMatch.value.similarity {
            bestMatch := Some(Window(k, i, similarity));
          }
        }
        i := i + 1;
      }
      BestAfterSize(quote, source, threshold, k, i, bestMatch);
    }
  }

  /** `normalize` stands for the aligner's text folding (Unicode form, case, punctuation). */
  ghost predicate IsFuzzyAnswer(quote: Text, source: Text, options: AlignmentOptionsV2,
                                normalize: Text -> Text, r: Option<Match>)
  {
    var q, n := normalize(quote), normalize(source);
    && (|q| < options.minMatchLength ==> r == None)
    && (|q| >= options.minMatchLength ==>
          && (IsBest(q, n, options.fuzzyThreshold, 3, 0, None) ==> r == None)
          && forall w | IsBest(q, n, options.fuzzyThreshold, 3, 0, Some(w)) ::
               r == MatchOf(OriginalSpan(source, n, w.index, w.index + WindowSizes(|q|)[w.size]), w.similarity, Fuzzy))
  }

  /** A best window has an answer exactly when the scan of the source records its start. */
  lemma FuzzyAnswerIff(quote: Text, source: Text, options: AlignmentOptionsV2,
                       normalize: Text -> Text, r: Option<Match>, w: Window)
    requires IsFuzzyAnswer(quote, source, options, normalize, r) && |normalize(quote)| >= options.minMatchLength
    requires IsBest(normalize(quote), normalize(source), options.fuzzyThreshold, 3, 0, Some(w))
    ensures r.Some? <==> w.index < |Positions(source, normalize(source))|
  {
  }

  method TryFuzzyMatchV2(quote: Text, source: Text, options: AlignmentOptionsV2, normalize: Text -> Text)
    returns (r: Option<Match>)
    ensures IsFuzzyAnswer(quote, source, options, normalize, r)
    ensures r.Some? ==> r.value.spanStart < r.value.spanEnd <= |source|
    ensures r.Some? ==> r.value.matchMethod == Fuzzy && |normalize(quote)| >= options.minMatchLength
    ensures r.Some? ==>
              exists w :: IsBest(normalize(quote), normalize(source), options.fuzzyThreshold, 3, 0, Some(w))
                       && w.similarity == r.value.confidence
  {
    var normalizedQuote := normalize(quote);
    var normalizedSource := normalize(source);
    if |normalizedQuote| < options.minMatchLength {
      return None;
    }
    var bestMatch := BestWindow(normalizedQuote, normalizedSource, options.fuzzyThreshold);
    forall other | IsBest(normalizedQuote, normalizedSource, options.fuzzyThreshold, 3, 0, other)
      ensures other == bestMatch
    {
      BestIsUnique(normalizedQuote, normalizedSource, options.fuzzyThreshold, other, bestMatch);
    }
    if bestMatch == None {
      return None;
    }
    var best := bestMatch.value;
    var windowSize := WindowSizes(|normalizedQuote|)[best.size];
    var originalSpan := MapToOriginalPositions(source, normalizedSource, best.index, best.index + windowSize);
    r := MatchOf(originalSpan, best.similarity, Fuzzy);
  }

  // ---------------------------------------------------------------- one quote

  method TryExactMatchV2(quote: Text, source: Text) returns (r: Option<Match>)
    ensures r.Some? <==> Occurs(quote, source)
    ensures r.Some? ==> r.value.matchMethod == Exact && r.value.confidence == 1.0
    ensures r.Some? ==> r.value.spanEnd == r.value.spanStart + |quote| && OccursAt(quote, source, r.value.spanStart)
    ensures r.Some? ==> forall i: nat | i < r.value.spanStart :: !OccursAt(quote, source, i)
  {
    var index := IndexOf(source, quote);
    if index == -1 {
      return None;
    }
    r := Some(Match(index, index + |quote|, 1.0, Exact));
  }

  /** What an answer for one quote must be, given the messages it quotes from. */
  ghost predicate IsAlignmentOf(messages: seq<Text>, ev: ExtractedEvidence, options: AlignmentOptionsV2,
                                normalize: Text -> Text, result: EvidenceAlignResult)
  {
    if ev.messageIndex < 0 || |messages| <= ev.messageIndex then result == Failed(InvalidIndex)
    else if Trim(ev.quote) == [] then result == Failed(EmptyQuote)
    else
      var source := messages[ev.messageIndex];
      match result
      case Failed(reason) =>
        && reason == NotFound
        && !Occurs(ev.quote, source)
        && IsNormalizedAnswer(ev.quote, source, None)
        && (Followable(source) ==> !OccursUpToWhitespace(ev.quote, source))
        && IsFuzzyAnswer(ev.quote, source, options, normalize, None)
      case Aligned(m) =>
        && m.spanStart < m.spanEnd <= |source|
        && (m.matchMethod == Exact <==> Occurs(ev.quote, source))
        && match m.matchMethod
           case Exact =>
             && m.confidence == 1.0
             && m.spanEnd == m.spanStart + |ev.quote| && OccursAt(ev.quote, source, m.spanStart)
             && (forall i: nat | i < m.spanStart :: !OccursAt(ev.quote, source, i))
           case Normalized =>
             && m.confidence == 0.95 && IsNormalizedAnswer(ev.quote, source, Some(m))
             && (Followable(source) ==> IsFirstUpToWhitespace(ev.quote, source, m.spanStart, m.spanEnd))
           case Fuzzy =>
             && IsNormalizedAnswer(ev.quote, source, None)
             && IsFuzzyAnswer(ev.quote, source, options, normalize, Some(m))
             && (Followable(source) ==> !OccursUpToWhitespace(ev.quote, source))
             && exists w :: IsBest(normalize(ev.quote), normalize(source), options.fuzzyThreshold, 3, 0, Some(w))
                         && w.similarity == m.confidence
  }

  /** A quote that is not blank keeps some text when its whitespace is normalised. */
  lemma NotBlankKeepsText(quote: Text)
    requires Trim(quote) != []
    ensures NormalizeWhitespace(quote) != []
  {
    var l, r := TrimRange(quote);
    ReachOfCharacter(quote, l);
    NormalizedRange(quote);
  }

  method AlignSingleEvidence(messages: seq<Text>, ev: ExtractedEvidence, options: AlignmentOptionsV2,
                             normalize: Text -> Text) returns (result: EvidenceAlignResult)
    ensures IsAlignmentOf(messages, ev, options, normalize, result)
  {
    if ev.messageIndex < 0 || ev.messageIndex >= |messages| {
      return Failed(InvalidIndex);
    }
    if ev.quote == [] || |Trim(ev.quote)| == 0 {
      return Failed(EmptyQuote);
    }
    NotBlankKeepsText(ev.quote);
    var sourceMessage := messages[ev.messageIndex];
    var exactResult := TryExactMatchV2(ev.quote, sourceMessage);
    if exactResult.Some? {
      return Aligned(exactResult.value);
    }
    var normalizedResult := TryNormalizedMatchV2(ev.quote, sourceMessage);
    if normalizedResult.Some? {
      return Aligned(normalizedResult.value);
    }
    var fuzzyResult := TryFuzzyMatchV2(ev.quote, sourceMessage, options, normalize);
    if fuzzyResult.Some? {
      return Aligned(fuzzyResult.value);
    }
    result := Failed(NotFound);
  }

  // ---------------------------------------------------------------- a batch of quotes

  datatype AlignResultV2 = AlignResultV2(
    evidenceAligned: bool,
    alignedCount: nat,
    failedCount: nat,
    results: seq<EvidenceAlignResult>,
    overallConfidence: real
  )

  /** How many of the answers are aligned. */
  ghost function AlignedAmong(results: seq<EvidenceAlignResult>): nat {
    if results == [] then 0
    else AlignedAmong(results[..|results| - 1]) + if results[|results| - 1].Aligned? then 1 else 0
  }

  ghost function TotalConfidence(results: seq<EvidenceAlignResult>): real {
    if results == [] then 0.0
    else
      TotalConfidence(results[..|results| - 1])
      + match results[|results| - 1] case Aligned(m) => m.confidence case Failed(_) => 0.0
  }

  lemma TotalsSnoc(results: seq<EvidenceAlignResult>, x: EvidenceAlignResult)
    ensures AlignedAmong(results + [x]) == AlignedAmong(results) + if x.Aligned? then 1 else 0
    ensures x.Failed? ==> TotalConfidence(results + [x]) == TotalConfidence(results)
    ensures x.Aligned? ==> TotalConfidence(results + [x]) == TotalConfidence(results) + x.match_.confidence
  {
    assert (results + [x])[..|results|] == results;
  }

  /** The answers so far, each to the quote at its place. */
  ghost predicate AnswersSo(messages: seq<Text>, evidence: seq<ExtractedEvidence>, options: AlignmentOptionsV2,
                            normalize: Text -> Text, results: seq<EvidenceAlignResult>)
  {
    && |results| <= |evidence|
    && forall i | 0 <= i < |results| :: IsAlignmentOf(messages, evidence[i], options, normalize, results[i])
  }

  lemma AnswersSnoc(messages: seq<Text>, evidence: seq<ExtractedEvidence>, options: AlignmentOptionsV2,
                    normalize: Text -> Text, results: seq<EvidenceAlignResult>, x: EvidenceAlignResult)
    requires AnswersSo(messages, evidence, options, normalize, results) && |results| < |evidence|
    requires IsAlignmentOf(messages, evidence[|results|], options, normalize, x)
    ensures AnswersSo(messages, evidence, options, normalize, results + [x])
  {
    forall i | 0 <= i < |results + [x]|
      ensures IsAlignmentOf(messages, evidence[i], options, normalize, (results + [x])[i])
    {
      assert (results + [x])[i] == if i < |results| then results[i] else x;
    }
  }

  /** Each answer adds at most one to either total, and at least nothing. */
  lemma {:induction false} TotalsRange(messages: seq<Text>, evidence: seq<ExtractedEvidence>,
                                       options: AlignmentOptionsV2, normalize: Text -> Text,
                                       results: seq<EvidenceAlignResult>)
    requires AnswersSo(messages, evidence, options, normalize, results)
    ensures AlignedAmong(results) <= |results|
    ensures 0.0 <= TotalConfidence(results) <= AlignedAmong(results) as real
  {
    if results != [] {
      var k := |results| - 1;
      TotalsRange(messages, evidence, options, normalize, results[..k]);
      if results[k].Aligned? {
        ConfidenceRange(messages, evidence[k], options, normalize, results[k].match_);
      }
    }
  }

  lemma BestSimilarityRange(quote: Text, source: Text, threshold: real)
    ensures forall w | IsBest(quote, source, threshold, 3, 0, Some(w)) :: 0.0 <= w.similarity <= 1.0
  {
    forall w | IsBest(quote, source, threshold, 3, 0, Some(w))
      ensures 0.0 <= w.similarity <= 1.0
    {
      EditDistance.SimilarityRange(quote, source[w.index..w.index + WindowSizes(|quote|)[w.size]]);
    }
  }

  lemma ConfidenceRange(messages: seq<Text>, ev: ExtractedEvidence, options: AlignmentOptionsV2,
                        normalize: Text -> Text, m: Match)
    requires IsAlignmentOf(messages, ev, options, normalize, Aligned(m))
    ensures 0.0 <= m.confidence <= 1.0
  {
    if m.matchMethod == Fuzzy {
      var quote, source := normalize(ev.quote), normalize(messages[ev.messageIndex]);
      BestSimilarityRange(quote, source, options.fuzzyThreshold);
    }
  }

  method AlignV2(messages: seq<Text>, evidence: seq<ExtractedEvidence>, options: AlignmentOptionsV2,
                 normalize: Text -> Text) returns (r: AlignResultV2)
    ensures |r.results| == |evidence| && AnswersSo(messages, evidence, options, normalize, r.results)
    ensures r.alignedCount == AlignedAmong(r.results) && r.alignedCount + r.failedCount == |evidence|
    ensures r.evidenceAligned <==> r.failedCount <= ((|evidence| as real) * options.maxMissingRatio).Floor
    ensures r.overallConfidence == if evidence == [] then 1.0 else TotalConfidence(r.results) / (|evidence| as real)
    ensures 0.0 <= r.overallConfidence <= 1.0
  {
    var results: seq<EvidenceAlignResult> := [];
    var alignedCount := 0;
    var totalConfidence := 0.0;
    for k := 0 to |evidence|
      invariant |results| == k && AnswersSo(messages, evidence, options, normalize, results)
      invariant alignedCount == AlignedAmong(results)
      invariant totalConfidence == TotalConfidence(results)
    {
      var result := AlignSingleEvidence(messages, evidence[k], options, normalize);
      AnswersSnoc(messages, evidence, options, normalize, results, result);
      TotalsSnoc(results, result);
      results := results + [result];
      if result.Aligned? {
        alignedCount := alignedCount + 1;
        totalConfidence := totalConfidence + result.match_.confidence;
      }
    }
    TotalsRange(messages, evidence, options, normalize, results);
    var failedCount := |evidence| - alignedCount;
    var maxMissing := ((|evidence| as real) * options.maxMissingRatio).Floor;
    var overallConfidence := if |evidence| > 0 then totalConfidence / (|evidence| as real) else 1.0;
    MeanRange(totalConfidence, |evidence|);
    r := AlignResultV2(failedCount <= maxMissing, alignedCount, failedCount, results, overallConfidence);
  }

  lemma MeanRange(total: real, n: nat)
    requires 0.0 <= total <= n as real
    ensures n > 0 ==> 0.0 <= total / (n as real) <= 1.0
  {
  }
}
