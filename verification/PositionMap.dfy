/**
  `mapToOriginalPositions`: one pass over the original text that records, for each
  position of the whitespace-normalised text, where it came from.
 */
module PositionMap {
  import opened Common
  import opened Text
  import opened Whitespace

  datatype Span = Span(start: nat, end: nat)

  /** The positions recorded so far, key `k` at index `k`: strictly increasing, all before `o`. */
  ghost predicate Increasing(positions: seq<nat>, o: nat) {
    && (forall k | 0 <= k < |positions| :: positions[k] < o)
    && (forall j, k | 0 <= j < k < |positions| :: positions[j] < positions[k])
  }

  /** `o` is not in the middle of a run of whitespace. */
  ghost predicate AtBoundary(s: Text, o: nat)
    requires o <= |s|
  {
    o == |s| || !IsWhitespace(s[o]) || (0 < o && !IsWhitespace(s[o - 1]))
  }

  ghost predicate OnlyWhitespaceFrom(s: Text, o: nat) {
    forall i | o <= i < |s| :: IsWhitespace(s[i])
  }

  ghost predicate OnlyWhitespaceBefore(s: Text, o: nat)
    requires o <= |s|
  {
    forall i | 0 <= i < o :: IsWhitespace(s[i])
  }

  /** Each recorded position is where its normalised character comes from. */
  ghost predicate Sound(s: Text, l: nat, positions: seq<nat>) {
    forall k | 0 <= k < |positions| :: SoundAt(s, positions[k], l + k)
  }

  /** Position `p` of the text is where position `c` of the collapsed text comes from. */
  ghost predicate SoundAt(s: Text, p: nat, c: nat) {
    && p < |s| && Reach(s, p) == c && c < |Collapse(s)|
    && (IsWhitespace(s[p]) <==> IsWhitespace(Collapse(s)[c]))
  }

  /** Every character that is not whitespace has been recorded. */
  ghost predicate Complete(s: Text, positions: seq<nat>, o: nat)
    requires o <= |s|
  {
    forall p | 0 <= p < o && !IsWhitespace(s[p]) :: p in positions
  }

  // ---------------------------------------------------------------- what a mapped range means

  /** How much leading whitespace of the collapsed text the trim removes. */
  ghost function Margin(s: Text): nat {
    |Collapse(s)| - |TrimLeft(Collapse(s))|
  }

  lemma NormalizedRange(s: Text)
    ensures IsTrimmedRange(Collapse(s), Margin(s), Margin(s) + |NormalizeWhitespace(s)|)
    ensures NormalizeWhitespace(s) == Collapse(s)[Margin(s)..Margin(s) + |NormalizeWhitespace(s)|]
  {
    NormalizeIsTrimmedCollapse(s);
    var l, r := TrimRange(Collapse(s));
  }

  /** The whitespace of `s` normalises so that the scan can follow it. */
  ghost predicate Followable(s: Text) {
    NoAdjacentWhitespace(NormalizeWhitespace(s))
  }

  /** The map is complete and faithful. */
  ghost predicate IsPositionMap(s: Text, positions: seq<nat>) {
    && |positions| == |NormalizeWhitespace(s)|
    && Increasing(positions, |s|)
    && Sound(s, Margin(s), positions)
    && Complete(s, positions, |s|)
  }

  /**
    `span` opens and closes with text, stands where `normalized[from..to]` comes from,
    and normalises to exactly that range.
   */
  ghost predicate IsOriginOf(s: Text, span: Span, from: nat, to: nat) {
    && span.start < span.end <= |s|
    && !IsWhitespace(s[span.start]) && !IsWhitespace(s[span.end - 1])
    && Reach(s, span.start) == Margin(s) + from
    && from < to <= |NormalizeWhitespace(s)|
    && NormalizeWhitespace(s[span.start..span.end]) == NormalizeWhitespace(s)[from..to]
  }

  /** Text that opens and closes with text normalises to what it collapses to. */
  lemma NormalizeTight(s: Text, p: nat, e: nat)
    requires p < e <= |s| && !IsWhitespace(s[p]) && !IsWhitespace(s[e - 1])
    ensures Reach(s, p) < Reach(s, e) <= |Collapse(s)|
    ensures Reach(s, e) == Reach(s, e - 1) + 1
    ensures NormalizeWhitespace(s[p..e]) == Collapse(s)[Reach(s, p)..Reach(s, e)]
  {
    TightReach(s, p, e);
    CollapseRange(s, p, e);
    TightIsTrimmed(s[p..e]);
  }

  lemma TightReach(s: Text, p: nat, e: nat)
    requires p < e <= |s| && !IsWhitespace(s[p]) && !IsWhitespace(s[e - 1])
    ensures Reach(s, p) < Reach(s, e) <= |Collapse(s)|
    ensures Reach(s, e) == Reach(s, e - 1) + 1
  {
    ReachOfCharacter(s, p);
    ReachOfCharacter(s, e - 1);
    ReachMonotone(s, p + 1, e);
  }

  /** Text that opens and closes with text collapses to such a text, and the trim leaves it alone. */
  lemma TightIsTrimmed(t: Text)
    requires t != [] && !IsWhitespace(t[0]) && !IsWhitespace(t[|t| - 1])
    ensures NormalizeWhitespace(t) == Collapse(t)
  {
    CollapseOpens(t);
    CollapseCloses(t);
    NormalizeIsTrimmedCollapse(t);
    TrimIsTheRange(Collapse(t), 0, |Collapse(t)|);
  }

  lemma {:induction false} CollapseOpens(t: Text)
    requires t != [] && !IsCollapsible(t[0])
    ensures Collapse(t) != [] && Collapse(t)[0] == t[0]
  {
    var k := |t| - 1;
    assert t == t[..k] + [t[k]];
    CollapseSnoc(t[..k], t[k]);
    if k > 0 {
      CollapseOpens(t[..k]);
    } else {
      assert t[..k] == [] && Collapse(t) == [t[0]];
    }
  }

  lemma CollapseCloses(t: Text)
    requires t != [] && !IsCollapsible(t[|t| - 1])
    ensures Collapse(t) != [] && Collapse(t)[|Collapse(t)| - 1] == t[|t| - 1]
  {
    var k := |t| - 1;
    assert t == t[..k] + [t[k]];
    CollapseSnoc(t[..k], t[k]);
  }

  lemma NormalizedSlice(s: Text, i: nat, j: nat)
    requires i <= j <= |NormalizeWhitespace(s)|
    ensures Margin(s) + j <= |Collapse(s)|
    ensures NormalizeWhitespace(s)[i..j] == Collapse(s)[Margin(s) + i..Margin(s) + j]
    ensures i < j ==> NormalizeWhitespace(s)[i] == Collapse(s)[Margin(s) + i]
  {
    NormalizedRange(s);
    SliceOfSlice(Collapse(s), Margin(s), Margin(s) + |NormalizeWhitespace(s)|, i, j);
  }

  lemma OriginOfRange(s: Text, p: nat, q: nat, i: nat, j: nat)
    requires p <= q < |s| && !IsWhitespace(s[p]) && !IsWhitespace(s[q])
    requires Reach(s, p) == Margin(s) + i && Reach(s, q) == Margin(s) + j
    requires i <= j < |NormalizeWhitespace(s)|
    ensures IsOriginOf(s, Span(p, q + 1), i, j + 1)
  {
    TightRange(s, p, q + 1, i, j + 1);
  }

  lemma TightRange(s: Text, p: nat, e: nat, i: nat, to: nat)
    requires p < e <= |s| && !IsWhitespace(s[p]) && !IsWhitespace(s[e - 1])
    requires Reach(s, p) == Margin(s) + i && Reach(s, e - 1) + 1 == Margin(s) + to
    requires i < to <= |NormalizeWhitespace(s)|
    ensures IsOriginOf(s, Span(p, e), i, to)
  {
    NormalizedSlice(s, i, to);
    NormalizeTight(s, p, e);
  }

  // ---------------------------------------------------------------- the scan

  /** What one turn of the scan does to the positions recorded and the place in the text. */
  ghost predicate ScanStep(s: Text, normalized: Text, before: seq<nat>, o: nat, after: seq<nat>, o': nat)
    requires o < |s|
  {
    && o < o' <= |s|
    && if !IsWhitespace(s[o]) then
         after == before + [o] && o' == o + 1
       else if |before| < |normalized| && IsWhitespace(normalized[|before|]) then
         && after == before + [o]
         && (forall i | o <= i < o' :: IsWhitespace(s[i]))
         && (o' < |s| ==> !IsWhitespace(s[o']))
       else
         after == before && o' == o + 1
  }

  // The scan takes a run of whitespace for one character.  Where a run stands for more than one, that
  // is, where two whitespace characters stay side by side in the normalised text, it falls behind and
  // never catches up.

  /** Place `c` of the collapsed text, counted by the scan, against place `q`, which it really is. */
  ghost predicate Pace(s: Text, l: nat, c: nat, q: nat) {
    && l <= c <= q <= |Collapse(s)|
    && (c == q <==> NoAdjacentBetween(Collapse(s), l, q))
  }

  /** A recorded position opens a character of the collapsed text, and is counted no later than that is. */
  ghost predicate AtPace(s: Text, l: nat, r: nat, p: nat, c: nat) {
    p < |s| && Opens(s, p) && Reach(s, p) <= r && Pace(s, l, c, Reach(s, p))
  }

  /** No whitespace is expected next. */
  ghost predicate TextNext(s: Text, l: nat, r: nat, n: nat)
    requires r <= |Collapse(s)|
  {
    l + n < r ==> !IsWhitespace(Collapse(s)[l + n])
  }

  /** How far the scan has come with `n` positions recorded: before the first text, after the last, or between. */
  ghost predicate Standing(s: Text, l: nat, r: nat, n: nat, o: nat)
    requires o <= |s| && r <= |Collapse(s)|
  {
    && (AtBoundary(s, o) || TextNext(s, l, r, n))
    && if OnlyWhitespaceFrom(s, o) then Pace(s, l, l + n, r)
       else if n == 0 then OnlyWhitespaceBefore(s, o)
       else Pace(s, l, l + n, Reach(s, o)) && (AtBoundary(s, o) || l + n < Reach(s, o))
  }

  ghost predicate ScanState(s: Text, l: nat, r: nat, positions: seq<nat>, o: nat) {
    && o <= |s| && IsTrimmedRange(Collapse(s), l, r)
    && (forall k | 0 <= k < |positions| :: AtPace(s, l, r, positions[k], l + k))
    && Complete(s, positions, o)
    && Standing(s, l, r, |positions|, o)
  }

  lemma FirstText(s: Text, o: nat) returns (e: nat)
    requires o <= |s| && !OnlyWhitespaceFrom(s, o)
    ensures o <= e < |s| && !IsWhitespace(s[e]) && forall i | o <= i < e :: IsWhitespace(s[i])
  {
    e := o;
    while IsWhitespace(s[e])
      invariant o <= e < |s| && forall i | o <= i < e :: IsWhitespace(s[i])
      invariant !OnlyWhitespaceFrom(s, e)
      decreases |s| - e
    {
      assert exists i :: e < i < |s| && !IsWhitespace(s[i]);
      e := e + 1;
    }
  }

  /** The first text after the margin stands at the left end of the normal form. */
  lemma FirstTextReach(s: Text, l: nat, r: nat, o: nat)
    requires IsTrimmedRange(Collapse(s), l, r) && o < |s| && !IsWhitespace(s[o]) && OnlyWhitespaceBefore(s, o)
    ensures Reach(s, o) == l
  {
    ReachOfCharacter(s, o);
    ReachOfWhitespace(s, 0, o);
    ReachIsPrefix(s, o);
    assert s[..0] == [];
    forall j | 0 <= j < Reach(s, o)
      ensures IsWhitespace(Collapse(s)[j])
    {
      assert Collapse(s)[j] == Collapse(s[..o])[j];
    }
  }

  /** The last text stands at the right end of the normal form. */
  lemma LastTextReach(s: Text, l: nat, r: nat, o: nat)
    requires IsTrimmedRange(Collapse(s), l, r) && o < |s| && !IsWhitespace(s[o]) && OnlyWhitespaceFrom(s, o + 1)
    ensures Reach(s, o + 1) == r
  {
    TextReach(s, l, r, o);
    ReachIsLength(s, |s|);
    ReachOfWhitespace(s, o + 1, |s|);
    WholeText(s);
  }

  lemma WholeText(s: Text)
    ensures s[..|s|] == s
  {
  }

  /** Text stands inside the normal form. */
  lemma TextReach(s: Text, l: nat, r: nat, o: nat)
    requires IsTrimmedRange(Collapse(s), l, r) && o < |s| && !IsWhitespace(s[o])
    ensures l <= Reach(s, o) < r && Collapse(s)[Reach(s, o)] == s[o] && Reach(s, o + 1) == Reach(s, o) + 1
  {
    ReachOfCharacter(s, o);
  }

  lemma RecordOne(s: Text, l: nat, r: nat, positions: seq<nat>, o: nat, e: nat)
    requires ScanState(s, l, r, positions, o) && o < e <= |s| && AtPace(s, l, r, o, l + |positions|)
    requires forall i | o < i < e :: IsWhitespace(s[i])
    requires Standing(s, l, r, |positions| + 1, e)
    ensures ScanState(s, l, r, positions + [o], e)
  {
    assert forall p | p in positions :: p in positions + [o];
    assert (positions + [o])[|positions|] == o;
  }

  lemma PaceOfText(s: Text, l: nat, r: nat, positions: seq<nat>, o: nat)
    requires ScanState(s, l, r, positions, o) && o < |s| && !IsWhitespace(s[o])
    ensures Pace(s, l, l + |positions|, Reach(s, o)) && AtPace(s, l, r, o, l + |positions|)
  {
    TextReach(s, l, r, o);
    if positions == [] {
      FirstTextReach(s, l, r, o);
    }
  }

  lemma ScannedText(s: Text, l: nat, r: nat, positions: seq<nat>, o: nat)
    requires ScanState(s, l, r, positions, o) && o < |s| && !IsWhitespace(s[o])
    ensures ScanState(s, l, r, positions + [o], o + 1)
  {
    PaceOfText(s, l, r, positions, o);
    TextReach(s, l, r, o);
    assert Pace(s, l, l + |positions| + 1, Reach(s, o + 1));
    if OnlyWhitespaceFrom(s, o + 1) {
      LastTextReach(s, l, r, o);
    }
    RecordOne(s, l, r, positions, o, o + 1);
  }

  /** A run of whitespace between two words stands for one character or more. */
  lemma RunReach(s: Text, o: nat, e: nat)
    requires 0 < o < e < |s| && !IsWhitespace(s[o - 1]) && !IsWhitespace(s[e])
    requires forall i | o <= i < e :: IsWhitespace(s[i])
    ensures 0 < Reach(s, o) < Reach(s, e) < |Collapse(s)|
    ensures !IsWhitespace(Collapse(s)[Reach(s, o) - 1])
    ensures forall j | Reach(s, o) <= j < Reach(s, e) :: IsWhitespace(Collapse(s)[j])
  {
    ReachOfCharacter(s, o - 1);
    ReachOfCharacter(s, o);
    ReachOfCharacter(s, e);
    ReachMonotone(s, o + 1, e);
    ReachOfWhitespace(s, o, e);
    ReachIsPrefix(s, e);
    forall j | Reach(s, o) <= j < Reach(s, e)
      ensures IsWhitespace(Collapse(s)[j])
    {
      assert Collapse(s)[j] == Collapse(s[..e])[j];
    }
  }

  /** So it keeps the pace exactly when it stands for one. */
  lemma PaceAfterRun(s: Text, l: nat, c: nat, o: nat, e: nat)
    requires 0 < o < e < |s| && !IsWhitespace(s[o - 1]) && !IsWhitespace(s[e])
    requires forall i | o <= i < e :: IsWhitespace(s[i])
    requires Pace(s, l, c, Reach(s, o))
    ensures Pace(s, l, c + 1, Reach(s, e))
  {
    RunReach(s, o, e);
    var t, q := Collapse(s), Reach(s, o);
    if c == q && Reach(s, e) > q + 1 {
      assert IsWhitespace(t[q]) && IsWhitespace(t[q + 1]);
    }
  }

  lemma ConsumeBetween(s: Text, l: nat, r: nat, positions: seq<nat>, o: nat, e: nat)
    requires ScanState(s, l, r, positions, o) && !TextNext(s, l, r, |positions|)
    requires o < e < |s| && !IsWhitespace(s[e]) && forall i | o <= i < e :: IsWhitespace(s[i])
    ensures ScanState(s, l, r, positions + [o], e)
  {
    assert positions != [] && AtBoundary(s, o) && 0 < o;
    RunReach(s, o, e);
    PaceAfterRun(s, l, l + |positions|, o, e);
    TextReach(s, l, r, e);
    assert AtPace(s, l, r, o, l + |positions|);
    RecordOne(s, l, r, positions, o, e);
  }

  lemma ConsumeLast(s: Text, l: nat, r: nat, positions: seq<nat>, o: nat)
    requires ScanState(s, l, r, positions, o) && !TextNext(s, l, r, |positions|)
    requires o < |s| && OnlyWhitespaceFrom(s, o)
    ensures ScanState(s, l, r, positions + [o], |s|)
  {
    assert AtBoundary(s, o) && !IsWhitespace(Collapse(s)[l]) && l + |positions| < r;
    assert 0 < o;
    LastTextReach(s, l, r, o - 1);
    assert AtPace(s, l, r, o, l + |positions|);
    assert !IsWhitespace(Collapse(s)[r - 1]);
    assert Pace(s, l, l + |positions| + 1, r);
    RecordOne(s, l, r, positions, o, |s|);
  }

  /** A run that is not consumed at its start is one for which the scan is late. */
  lemma IgnoredIsLate(s: Text, l: nat, r: nat, n: nat, o: nat)
    requires IsTrimmedRange(Collapse(s), l, r) && o < |s| && IsWhitespace(s[o]) && !OnlyWhitespaceFrom(s, o)
    requires n > 0 && Standing(s, l, r, n, o) && TextNext(s, l, r, n)
    ensures Pace(s, l, l + n, Reach(s, o)) && l + n < Reach(s, o)
  {
    if AtBoundary(s, o) {
      var e := FirstText(s, o);
      RunReach(s, o, e);
      TextReach(s, l, r, e);
    }
  }

  /** And it stays late. */
  lemma StaysLate(s: Text, l: nat, c: nat, o: nat)
    requires o < |s| && Pace(s, l, c, Reach(s, o)) && c < Reach(s, o)
    ensures Pace(s, l, c, Reach(s, o + 1)) && c < Reach(s, o + 1)
  {
    ReachMonotone(s, o, o + 1);
    ReachIsPrefix(s, o + 1);
  }

  lemma ScannedIgnore(s: Text, l: nat, r: nat, positions: seq<nat>, o: nat)
    requires ScanState(s, l, r, positions, o) && o < |s| && IsWhitespace(s[o]) && TextNext(s, l, r, |positions|)
    ensures ScanState(s, l, r, positions, o + 1)
  {
    assert OnlyWhitespaceFrom(s, o + 1) <==> OnlyWhitespaceFrom(s, o);
    if positions != [] && !OnlyWhitespaceFrom(s, o) {
      IgnoredIsLate(s, l, r, |positions|, o);
      StaysLate(s, l, l + |positions|, o);
    }
  }

  lemma NextInNormalForm(t: Text, l: nat, r: nat, n: nat)
    requires l <= r <= |t|
    ensures n < |t[l..r]| && IsWhitespace(t[l..r][n]) <==> l + n < r && IsWhitespace(t[l + n])
  {
  }

  lemma ScanStepKeepsState(s: Text, l: nat, r: nat, before: seq<nat>, o: nat, after: seq<nat>, o': nat)
    requires ScanState(s, l, r, before, o) && o < |s|
    requires ScanStep(s, Collapse(s)[l..r], before, o, after, o')
    ensures ScanState(s, l, r, after, o')
  {
    if !IsWhitespace(s[o]) {
      ScannedText(s, l, r, before, o);
    } else {
      NextInNormalForm(Collapse(s), l, r, |before|);
      WhitespaceKeepsState(s, l, r, before, o, after, o');
    }
  }

  lemma WhitespaceKeepsState(s: Text, l: nat, r: nat, before: seq<nat>, o: nat, after: seq<nat>, o': nat)
    requires ScanState(s, l, r, before, o) && o < o' <= |s| && IsWhitespace(s[o])
    requires if TextNext(s, l, r, |before|) then after == before && o' == o + 1
             else
               && after == before + [o] && (forall i | o <= i < o' :: IsWhitespace(s[i]))
               && (o' < |s| ==> !IsWhitespace(s[o']))
    ensures ScanState(s, l, r, after, o')
  {
    if TextNext(s, l, r, |before|) {
      ScannedIgnore(s, l, r, before, o);
    } else if OnlyWhitespaceFrom(s, o) {
      ConsumeLast(s, l, r, before, o);
    } else {
      ConsumeBetween(s, l, r, before, o, o');
    }
  }

  lemma ScanStarts(s: Text)
    ensures ScanState(s, Margin(s), Margin(s) + |NormalizeWhitespace(s)|, [], 0)
  {
    NormalizedRange(s);
    if OnlyWhitespaceFrom(s, 0) {
      ReachOfWhitespace(s, 0, |s|);
      assert s[..0] == [] && s[..|s|] == s;
    }
  }

  lemma FollowableRange(s: Text)
    ensures Margin(s) + |NormalizeWhitespace(s)| <= |Collapse(s)|
    ensures Followable(s) <==> NoAdjacentBetween(Collapse(s), Margin(s), Margin(s) + |NormalizeWhitespace(s)|)
  {
    NormalizedRange(s);
    NoAdjacentInRange(Collapse(s), Margin(s), Margin(s) + |NormalizeWhitespace(s)|);
  }

  lemma PaceIsSound(s: Text, l: nat, r: nat, p: nat, c: nat)
    requires AtPace(s, l, r, p, c) && r <= |Collapse(s)| && NoAdjacentBetween(Collapse(s), l, r)
    ensures SoundAt(s, p, c)
  {
    ReachOfCharacter(s, p);
  }

  lemma ScanEnds(s: Text, positions: seq<nat>)
    requires ScanState(s, Margin(s), Margin(s) + |NormalizeWhitespace(s)|, positions, |s|)
    requires Increasing(positions, |s|)
    ensures IsPositionMap(s, positions) <==> Followable(s)
    ensures |positions| <= |NormalizeWhitespace(s)|
    ensures |positions| == |NormalizeWhitespace(s)| <==> Followable(s)
  {
    FollowableRange(s);
    var l, r := Margin(s), Margin(s) + |NormalizeWhitespace(s)|;
    assert Pace(s, l, l + |positions|, r);
    if Followable(s) {
      forall k | 0 <= k < |positions|
        ensures SoundAt(s, positions[k], l + k)
      {
        PaceIsSound(s, l, r, positions[k], l + k);
      }
    }
  }

  // ---------------------------------------------------------------- the map as a function of the texts

  /** The end of the whitespace that stands at `o`. */
  function RunEnd(s: Text, o: nat): (e: nat)
    requires o <= |s|
    ensures o <= e <= |s|
    decreases |s| - o
  {
    if o < |s| && IsWhitespace(s[o]) then RunEnd(s, o + 1) else o
  }

  lemma {:induction false} RunEndIsWhitespace(s: Text, o: nat)
    requires o <= |s|
    ensures forall i | o <= i < RunEnd(s, o) :: IsWhitespace(s[i])
    ensures RunEnd(s, o) < |s| ==> !IsWhitespace(s[RunEnd(s, o)])
    decreases |s| - o
  {
    if o < |s| && IsWhitespace(s[o]) {
      RunEndIsWhitespace(s, o + 1);
    }
  }

  predicate Consumes(s: Text, normalized: Text, positions: seq<nat>, o: nat)
    requires o < |s|
  {
    IsWhitespace(s[o]) && |positions| < |normalized| && IsWhitespace(normalized[|positions|])
  }

  /** What the scan records from `o` on, after what it has recorded before. */
  function PositionsFrom(s: Text, normalized: Text, positions: seq<nat>, o: nat): seq<nat>
    requires o <= |s|
    decreases |s| - o
  {
    if o == |s| then positions
    else if !IsWhitespace(s[o]) then PositionsFrom(s, normalized, positions + [o], o + 1)
    else if Consumes(s, normalized, positions, o) then PositionsFrom(s, normalized, positions + [o], RunEnd(s, o + 1))
    else PositionsFrom(s, normalized, positions, o + 1)
  }

  function Positions(s: Text, normalized: Text): seq<nat> {
    PositionsFrom(s, normalized, [], 0)
  }

  /** Every turn of the scan keeps its state, to the end. */
  lemma {:induction false} PositionsKeepState(s: Text, l: nat, r: nat, positions: seq<nat>, o: nat)
    requires ScanState(s, l, r, positions, o)
    ensures ScanState(s, l, r, PositionsFrom(s, Collapse(s)[l..r], positions, o), |s|)
    decreases |s| - o
  {
    if o < |s| {
      var normalized := Collapse(s)[l..r];
      var after, o' := NextOf(s, normalized, positions, o);
      ScanStepKeepsState(s, l, r, positions, o, after, o');
      PositionsKeepState(s, l, r, after, o');
    }
  }

  /** One turn of the scan. */
  lemma NextOf(s: Text, normalized: Text, positions: seq<nat>, o: nat) returns (after: seq<nat>, o': nat)
    requires o < |s|
    ensures ScanStep(s, normalized, positions, o, after, o')
    ensures PositionsFrom(s, normalized, positions, o) == PositionsFrom(s, normalized, after, o')
  {
    if !IsWhitespace(s[o]) {
      after, o' := positions + [o], o + 1;
    } else if Consumes(s, normalized, positions, o) {
      RunEndIsWhitespace(s, o + 1);
      after, o' := positions + [o], RunEnd(s, o + 1);
    } else {
      after, o' := positions, o + 1;
    }
  }

  lemma {:induction false} PositionsIncrease(s: Text, normalized: Text, positions: seq<nat>, o: nat)
    requires o <= |s| && Increasing(positions, o)
    ensures Increasing(PositionsFrom(s, normalized, positions, o), |s|)
    decreases |s| - o
  {
    if o < |s| {
      var after, o' := NextOf(s, normalized, positions, o);
      PositionsIncrease(s, normalized, after, o');
    }
  }

  lemma PositionsAreScanned(s: Text)
    ensures (var positions := Positions(s, NormalizeWhitespace(s));
      && Increasing(positions, |s|)
      && ScanState(s, Margin(s), Margin(s) + |NormalizeWhitespace(s)|, positions, |s|))
  {
    var n := NormalizeWhitespace(s);
    NormalizedRange(s);
    ScanStarts(s);
    PositionsIncrease(s, n, [], 0);
    PositionsKeepState(s, Margin(s), Margin(s) + |n|, [], 0);
  }

  /**
    The scan of a text's own normal form is a position map exactly
    when it can follow it; otherwise it comes up short.
   */
  lemma PositionsAreMapIff(s: Text)
    ensures Increasing(Positions(s, NormalizeWhitespace(s)), |s|)
    ensures IsPositionMap(s, Positions(s, NormalizeWhitespace(s))) <==> Followable(s)
    ensures !Followable(s) ==> |Positions(s, NormalizeWhitespace(s))| < |NormalizeWhitespace(s)|
  {
    PositionsAreScanned(s);
    ScanEnds(s, Positions(s, NormalizeWhitespace(s)));
  }

  // ---------------------------------------------------------------- mapping a range back

  /** A range of the text's own normal form that opens and closes with text. */
  ghost predicate IsTextRange(s: Text, from: nat, to: nat) {
    && from < to <= |NormalizeWhitespace(s)|
    && !IsWhitespace(NormalizeWhitespace(s)[from]) && !IsWhitespace(NormalizeWhitespace(s)[to - 1])
  }

  /** A start that was not recorded has no span; an end that was not recorded is the end of the text. */
  function OriginalSpan(original: Text, normalized: Text, from: nat, to: nat): Option<Span> {
    var positions := Positions(original, normalized);
    if |positions| <= from then None
    else if 0 < to <= |positions| then Some(Span(positions[from], positions[to - 1] + 1))
    else Some(Span(positions[from], |original|))
  }

  ghost predicate MapsToOrigin(s: Text, from: nat, to: nat) {
    var span := OriginalSpan(s, NormalizeWhitespace(s), from, to);
    span.Some? && IsOriginOf(s, span.value, from, to)
  }

  /**
    The normal form has no two whitespace characters side by side up to the end of the range; or none
    up to its start, the range goes on to the end, and the text ends in text, not in whitespace.
   */
  ghost predicate CanMap(s: Text, from: nat, to: nat)
    requires from < to <= |NormalizeWhitespace(s)|
  {
    var n := NormalizeWhitespace(s);
    || NoAdjacentBetween(n, 0, to)
    || (to == |n| && NoAdjacentBetween(n, 0, from + 1) && s != [] && !IsWhitespace(s[|s| - 1]))
  }

  /** Every place of the collapsed text is that of a character which opens it. */
  lemma {:induction false} CharacterAt(s: Text, o: nat, c: nat) returns (p: nat)
    requires o <= |s| && c < Reach(s, o)
    ensures p < o && Opens(s, p) && Reach(s, p) == c
    decreases o
  {
    ReachStep(s, o - 1);
    if c < Reach(s, o - 1) {
      p := CharacterAt(s, o - 1, c);
    } else {
      assert Reach(s, o) == ReachNext(s, o);
      p := o - 1;
    }
  }

  /** Text of the normal form comes from text. */
  lemma OriginOfText(s: Text, i: nat) returns (p: nat)
    requires i < |NormalizeWhitespace(s)| && !IsWhitespace(NormalizeWhitespace(s)[i])
    ensures p < |s| && !IsWhitespace(s[p]) && Reach(s, p) == Margin(s) + i
  {
    NormalizedSlice(s, i, i + 1);
    ReachIsLength(s, |s|);
    assert s[..|s|] == s;
    p := CharacterAt(s, |s|, Margin(s) + i);
    ReachOfCharacter(s, p);
  }

  /** It is recorded at its own place exactly when no two whitespace characters stand side by side before it. */
  lemma RecordedPlace(s: Text, p: nat, i: nat) returns (k: nat)
    requires p < |s| && !IsWhitespace(s[p]) && Reach(s, p) == Margin(s) + i
    ensures k < |Positions(s, NormalizeWhitespace(s))| && Positions(s, NormalizeWhitespace(s))[k] == p
    ensures k <= i <= |NormalizeWhitespace(s)| && (k == i <==> NoAdjacentBetween(NormalizeWhitespace(s), 0, i))
  {
    var positions := Positions(s, NormalizeWhitespace(s));
    PositionsAreScanned(s);
    k :| 0 <= k < |positions| && positions[k] == p;
    assert AtPace(s, Margin(s), Margin(s) + |NormalizeWhitespace(s)|, positions[k], Margin(s) + k);
    NormalPrefix(s, i);
  }

  lemma NormalPrefix(s: Text, i: nat)
    requires i <= |NormalizeWhitespace(s)|
    ensures Margin(s) + i <= |Collapse(s)|
    ensures (NoAdjacentBetween(NormalizeWhitespace(s), 0, i)
      <==> NoAdjacentBetween(Collapse(s), Margin(s), Margin(s) + i))
  {
    NormalizedSlice(s, 0, i);
    NoAdjacentInRange(Collapse(s), Margin(s), Margin(s) + i);
    NoAdjacentInRange(NormalizeWhitespace(s), 0, i);
  }

  /** Text adds no two whitespace characters side by side. */
  lemma TextEndsPrefix(n: Text, i: nat)
    requires i < |n| && !IsWhitespace(n[i])
    ensures NoAdjacentBetween(n, 0, i + 1) <==> NoAdjacentBetween(n, 0, i)
  {
  }

  lemma RangeMapsIf(s: Text, from: nat, to: nat)
    requires IsTextRange(s, from, to) && CanMap(s, from, to)
    ensures MapsToOrigin(s, from, to)
  {
    var n := NormalizeWhitespace(s);
    var positions := Positions(s, n);
    var p, q := OriginOfBoth(s, from, to);
    var i := RecordedPlace(s, p, from);
    var j := RecordedPlace(s, q, to - 1);
    TextEndsPrefix(n, from);
    TextEndsPrefix(n, to - 1);
    assert i == from;
    if NoAdjacentBetween(n, 0, to) {
      assert positions[to - 1] == q;
      OriginOfRange(s, p, q, from, to - 1);
    } else {
      PositionsAreMapIff(s);
      RangeToTheEnd(s, p, from);
    }
  }

  lemma RangeToTheEnd(s: Text, p: nat, from: nat)
    requires p < |s| && !IsWhitespace(s[p]) && Reach(s, p) == Margin(s) + from && from < |NormalizeWhitespace(s)|
    requires !IsWhitespace(s[|s| - 1])
    ensures IsOriginOf(s, Span(p, |s|), from, |NormalizeWhitespace(s)|)
  {
    NormalizedRange(s);
    LastTextReach(s, Margin(s), Margin(s) + |NormalizeWhitespace(s)|, |s| - 1);
    ReachOfCharacter(s, |s| - 1);
    TightRange(s, p, |s|, from, |NormalizeWhitespace(s)|);
  }

  /** The first and the last character of a range come from text, in this order. */
  lemma OriginOfBoth(s: Text, from: nat, to: nat) returns (p: nat, q: nat)
    requires IsTextRange(s, from, to)
    ensures p <= q < |s| && !IsWhitespace(s[p]) && !IsWhitespace(s[q])
    ensures Reach(s, p) == Margin(s) + from && Reach(s, q) == Margin(s) + to - 1
  {
    p := OriginOfText(s, from);
    q := OriginOfText(s, to - 1);
    if q < p {
      ReachOfCharacter(s, q);
      ReachMonotone(s, q + 1, p);
      assert false;
    }
  }

  /** A recorded position that is where its place comes from has no two whitespace characters before it. */
  lemma PlacedRightly(s: Text, k: nat)
    requires k < |Positions(s, NormalizeWhitespace(s))| && k < |NormalizeWhitespace(s)|
    requires Positions(s, NormalizeWhitespace(s))[k] < |s|
    requires Reach(s, Positions(s, NormalizeWhitespace(s))[k]) == Margin(s) + k
    requires !IsWhitespace(NormalizeWhitespace(s)[k])
    ensures NoAdjacentBetween(NormalizeWhitespace(s), 0, k + 1)
  {
    var positions := Positions(s, NormalizeWhitespace(s));
    PositionsAreScanned(s);
    assert AtPace(s, Margin(s), Margin(s) + |NormalizeWhitespace(s)|, positions[k], Margin(s) + k);
    NormalPrefix(s, k);
    TextEndsPrefix(NormalizeWhitespace(s), k);
  }

  /** Where a span ends that comes from the range. */
  lemma OriginEnds(s: Text, span: Span, from: nat, to: nat)
    requires IsOriginOf(s, span, from, to)
    ensures Reach(s, span.end) == Margin(s) + to && Reach(s, span.end - 1) == Margin(s) + to - 1
  {
    NormalizeTight(s, span.start, span.end);
    assert |NormalizeWhitespace(s)[from..to]| == to - from;
  }

  lemma RangeMapsOnlyIf(s: Text, from: nat, to: nat)
    requires IsTextRange(s, from, to) && MapsToOrigin(s, from, to)
    ensures CanMap(s, from, to)
  {
    var span := OriginalSpan(s, NormalizeWhitespace(s), from, to).value;
    OriginEnds(s, span, from, to);
    PlacedRightly(s, from);
    if to <= |Positions(s, NormalizeWhitespace(s))| {
      PlacedRightly(s, to - 1);
    } else {
      NormalizedRange(s);
      LastTextReach(s, Margin(s), Margin(s) + |NormalizeWhitespace(s)|, |s| - 1);
    }
  }

  /** A text range maps back to where it comes from under exactly this condition. */
  lemma TextRangeMapsIff(s: Text, from: nat, to: nat)
    requires IsTextRange(s, from, to)
    ensures MapsToOrigin(s, from, to) <==> CanMap(s, from, to)
  {
    if CanMap(s, from, to) {
      RangeMapsIf(s, from, to);
    } else if MapsToOrigin(s, from, to) {
      RangeMapsOnlyIf(s, from, to);
    }
  }

  /**
    Every text range maps back to where it comes from exactly when the
    normal form has no two whitespace characters in a row.
   */
  lemma EveryTextRangeMapsIff(s: Text)
    ensures (forall from, to | IsTextRange(s, from, to) :: MapsToOrigin(s, from, to)) <==> Followable(s)
  {
    var n := NormalizeWhitespace(s);
    if Followable(s) {
      forall from, to | IsTextRange(s, from, to)
        ensures MapsToOrigin(s, from, to)
      {
        TextRangeMapsIff(s, from, to);
      }
    } else {
      LastIsText(s);
      TextRangeMapsIff(s, |n| - 1, |n|);
    }
  }

  lemma LastIsText(s: Text)
    requires NormalizeWhitespace(s) != []
    ensures !IsWhitespace(NormalizeWhitespace(s)[|NormalizeWhitespace(s)| - 1])
  {
    var l, r := TrimRange(Collapse(s));
    NormalizeIsTrimmedCollapse(s);
  }

  lemma {:induction false} RecordedInside(s: Text, normalized: Text)
    ensures Increasing(Positions(s, normalized), |s|)
  {
    PositionsIncrease(s, normalized, [], 0);
  }

  /** A span that is returned lies inside the text. */
  lemma SpanInside(original: Text, normalized: Text, from: nat, to: nat)
    requires OriginalSpan(original, normalized, from, to).Some?
    ensures (var span := OriginalSpan(original, normalized, from, to).value;
      && span.start < |original| && span.end <= |original|
      && (from < to || from == 0 ==> span.start < span.end))
  {
    RecordedInside(original, normalized);
  }

  // ---------------------------------------------------------------- the loops

  /** The map's keys are 0, 1, 2, ..., so it is kept as the sequence of its values. */
  method BuildPositionMap(original: Text, normalized: Text) returns (normalizedToOriginal: seq<nat>)
    ensures normalizedToOriginal == Positions(original, normalized)
    ensures Increasing(normalizedToOriginal, |original|)
    ensures normalized == NormalizeWhitespace(original) ==>
      (IsPositionMap(original, normalizedToOriginal) <==> Followable(original))
    ensures (normalized == NormalizeWhitespace(original) && !Followable(original)) ==>
      |normalizedToOriginal| < |normalized|
  {
    normalizedToOriginal := [];
    var normalizedPos := 0;
    var origPos := 0;
    while origPos < |original|
      invariant origPos <= |original| && normalizedPos == |normalizedToOriginal|
      invariant PositionsFrom(original, normalized, normalizedToOriginal, origPos) == Positions(original, normalized)
    {
      if IsWhitespace(original[origPos]) {
        if normalizedPos < |normalized| && IsWhitespace(normalized[normalizedPos]) {
          ghost var end := RunEnd(original, origPos + 1);
          normalizedToOriginal := normalizedToOriginal + [origPos];
          normalizedPos := normalizedPos + 1;
          while origPos + 1 < |original| && IsWhitespace(original[origPos + 1])
            invariant origPos < |original| && RunEnd(original, origPos + 1) == end
          {
            origPos := origPos + 1;
          }
        }
      } else {
        normalizedToOriginal := normalizedToOriginal + [origPos];
        normalizedPos := normalizedPos + 1;
      }
      origPos := origPos + 1;
    }
    RecordedInside(original, normalized);
    if normalized == NormalizeWhitespace(original) {
      PositionsAreMapIff(original);
    }
  }

  method MapToOriginalPositions(original: Text, normalized: Text, normalizedStart: nat, normalizedEnd: nat)
    returns (r: Option<Span>)
    ensures r == OriginalSpan(original, normalized, normalizedStart, normalizedEnd)
    ensures r.Some? ==> r.value.start < |original| && r.value.end <= |original|
    ensures r.Some? && (normalizedStart < normalizedEnd || normalizedStart == 0) ==> r.value.start < r.value.end
    ensures (normalized == NormalizeWhitespace(original) && IsTextRange(original, normalizedStart, normalizedEnd)) ==>
      (r.Some? && IsOriginOf(original, r.value, normalizedStart, normalizedEnd)
       <==> CanMap(original, normalizedStart, normalizedEnd))
    ensures (normalized == NormalizeWhitespace(original) && !Followable(original) &&
             normalizedStart == |normalized| - 1) ==>
      r == None
  {
    var normalizedToOriginal := BuildPositionMap(original, normalized);
    if normalized == NormalizeWhitespace(original) && IsTextRange(original, normalizedStart, normalizedEnd) {
      TextRangeMapsIff(original, normalizedStart, normalizedEnd);
    }
    if |normalizedToOriginal| <= normalizedStart {
      return None;
    }
    SpanInside(original, normalized, normalizedStart, normalizedEnd);
    var startOrig := normalizedToOriginal[normalizedStart];
    var endOrig := |original| - 1;
    if 0 < normalizedEnd <= |normalizedToOriginal| {
      endOrig := normalizedToOriginal[normalizedEnd - 1];
    }
    r := Some(Span(startOrig, endOrig + 1));
  }
}
