/**
  `normalizeWhitespace`: three regular-expression passes and a trim, and the one-pass
  reading of them the position map relies on.
 */
module Whitespace {
  import opened Text

  /** The four characters the passes turn into single spaces. */
  predicate IsCollapsible(c: CodeUnit) {
    c == TAB || c == LINE_FEED || c == RETURN || c == SPACE
  }

  /** Tabs and carriage returns become spaces, one for one. */
  function ReplaceTabsAndReturns(s: Text): Text {
    seq(|s|, i requires 0 <= i < |s| => if s[i] == TAB || s[i] == RETURN then SPACE else s[i])
  }

  /** Of each run of `c` only the opening character leaves a space. */
  function ReplaceRuns(s: Text, c: CodeUnit): Text
    decreases |s|, 1
  {
    if s == [] then [] else ReplaceRunsLast(s, c)
  }

  function ReplaceRunsLast(s: Text, c: CodeUnit): Text
    requires s != []
    decreases |s|, 0
  {
    var k := |s| - 1;
    ReplaceRuns(s[..k], c)
    + if s[k] != c then [s[k]] else if k > 0 && s[k - 1] == c then [] else [SPACE]
  }

  /** The text after the second pass, which takes runs of line feeds. */
  function NewlinePass(s: Text): Text {
    ReplaceRuns(ReplaceTabsAndReturns(s), LINE_FEED)
  }

  function NormalizeWhitespace(s: Text): Text {
    Trim(ReplaceRuns(NewlinePass(s), SPACE))
  }

  /** Every run of the four characters becomes one space. */
  function Collapse(s: Text): Text
    decreases |s|, 1
  {
    if s == [] then [] else CollapseLast(s)
  }

  /** The last character is kept, or opens a run, or is lost in one. */
  function CollapseLast(s: Text): Text
    requires s != []
    decreases |s|, 0
  {
    var k := |s| - 1;
    Collapse(s[..k])
    + if !IsCollapsible(s[k]) then [s[k]] else if k > 0 && IsCollapsible(s[k - 1]) then [] else [SPACE]
  }

  /** No two whitespace characters stand side by side. */
  ghost predicate NoAdjacentWhitespace(s: Text) {
    NoAdjacentBetween(s, 0, |s|)
  }

  ghost predicate NoAdjacentBetween(s: Text, l: nat, r: nat)
    requires l <= r <= |s|
  {
    forall i, j | l <= i < j < r && j == i + 1 && IsWhitespace(s[i]) :: !IsWhitespace(s[j])
  }

  lemma NoAdjacentInRange(s: Text, l: nat, r: nat)
    requires l <= r <= |s|
    ensures NoAdjacentWhitespace(s[l..r]) <==> NoAdjacentBetween(s, l, r)
  {
    var m := s[l..r];
    if NoAdjacentWhitespace(m) {
      forall i, j | l <= i < j < r && j == i + 1 && IsWhitespace(s[i])
        ensures !IsWhitespace(s[j])
      {
        assert m[i - l] == s[i] && m[j - l] == s[j];
      }
    }
  }

  // ---------------------------------------------------------------- the passes are one pass

  lemma ReplaceRunsSnoc(s: Text, x: CodeUnit, c: CodeUnit)
    ensures ReplaceRuns(s + [x], c)
         == ReplaceRuns(s, c) + if x != c then [x] else if s != [] && s[|s| - 1] == c then [] else [SPACE]
  {
    assert (s + [x])[..|s|] == s;
  }

  lemma CollapseSnoc(s: Text, x: CodeUnit)
    ensures Collapse(s + [x])
         == Collapse(s)
            + if !IsCollapsible(x) then [x] else if s != [] && IsCollapsible(s[|s| - 1]) then [] else [SPACE]
  {
    assert (s + [x])[..|s|] == s;
  }

  /** What one more character adds to the text after the first two passes. */
  lemma NewlinePassSnoc(s: Text, x: CodeUnit)
    ensures NewlinePass(s + [x])
         == NewlinePass(s)
            + if x == TAB || x == RETURN then [SPACE]
              else if x != LINE_FEED then [x]
              else if s != [] && s[|s| - 1] == LINE_FEED then []
              else [SPACE]
  {
    var t := ReplaceTabsAndReturns(s);
    var y := if x == TAB || x == RETURN then SPACE else x;
    assert ReplaceTabsAndReturns(s + [x]) == t + [y];
    ReplaceRunsSnoc(t, y, LINE_FEED);
  }

  /** After two passes a collapsible character shows as a final space. */
  lemma {:induction false} NewlinePassLast(s: Text)
    requires s != []
    ensures NewlinePass(s) != []
    ensures NewlinePass(s)[|NewlinePass(s)| - 1] == if IsCollapsible(s[|s| - 1]) then SPACE else s[|s| - 1]
  {
    var k := |s| - 1;
    assert s == s[..k] + [s[k]];
    NewlinePassSnoc(s[..k], s[k]);
    if k > 0 {
      NewlinePassLast(s[..k]);
    }
  }

  lemma PassesStep(s: Text, x: CodeUnit)
    requires ReplaceRuns(NewlinePass(s), SPACE) == Collapse(s)
    ensures ReplaceRuns(NewlinePass(s + [x]), SPACE) == Collapse(s + [x])
  {
    CollapseSnoc(s, x);
    NewlinePassSnoc(s, x);
    if s != [] {
      NewlinePassLast(s);
    }
    if x == LINE_FEED && s != [] && s[|s| - 1] == LINE_FEED {
      assert NewlinePass(s + [x]) == NewlinePass(s);
      assert Collapse(s + [x]) == Collapse(s);
    } else {
      ReplaceRunsSnoc(NewlinePass(s), if IsCollapsible(x) then SPACE else x, SPACE);
    }
  }

  lemma {:induction false} PassesCollapse(s: Text)
    ensures ReplaceRuns(NewlinePass(s), SPACE) == Collapse(s)
  {
    if s != [] {
      PassesCollapse(s[..|s| - 1]);
      PassesStep(s[..|s| - 1], s[|s| - 1]);
      assert s == s[..|s| - 1] + [s[|s| - 1]];
    }
  }

  lemma NormalizeIsTrimmedCollapse(s: Text)
    ensures NormalizeWhitespace(s) == Trim(Collapse(s))
  {
    PassesCollapse(s);
  }

  // ---------------------------------------------------------------- where a prefix ends up

  /** How many characters of the collapsed text the first `o` characters account for. */
  function Reach(s: Text, o: nat): nat
    requires o <= |s|
    decreases o, 1
  {
    if o == 0 then 0 else ReachNext(s, o)
  }

  function ReachNext(s: Text, o: nat): nat
    requires 0 < o <= |s|
    decreases o, 0
  {
    Reach(s, o - 1) + if Opens(s, o - 1) then 1 else 0
  }

  /** The character is kept, or opens a run. */
  predicate Opens(s: Text, k: nat)
    requires k < |s|
  {
    !IsCollapsible(s[k]) || k == 0 || !IsCollapsible(s[k - 1])
  }

  lemma {:induction false} ReachIsLength(s: Text, o: nat)
    requires o <= |s|
    ensures Reach(s, o) == |Collapse(s[..o])|
  {
    if o > 0 {
      ReachIsLength(s, o - 1);
      assert s[..o] == s[..o - 1] + [s[o - 1]];
      CollapseSnoc(s[..o - 1], s[o - 1]);
      assert Reach(s, o) == ReachNext(s, o);
    }
  }

  lemma ReachStep(s: Text, o: nat)
    requires o < |s|
    ensures !IsCollapsible(s[o]) || o == 0 || !IsCollapsible(s[o - 1]) ==> Reach(s, o + 1) == Reach(s, o) + 1
    ensures Reach(s, o) <= Reach(s, o + 1) <= Reach(s, o) + 1
    ensures Collapse(s[..o]) <= Collapse(s[..o + 1]) && Reach(s, o + 1) == |Collapse(s[..o + 1])|
    ensures Reach(s, o + 1) == Reach(s, o) + 1
         ==> Collapse(s[..o + 1])[Reach(s, o)] == if IsCollapsible(s[o]) then SPACE else s[o]
  {
    assert s[..o + 1] == s[..o] + [s[o]];
    CollapseSnoc(s[..o], s[o]);
    ReachIsLength(s, o);
    ReachIsLength(s, o + 1);
  }

  lemma {:induction false} ReachMonotone(s: Text, o: nat, e: nat)
    requires o <= e <= |s|
    ensures Reach(s, o) <= Reach(s, e)
    ensures Collapse(s[..o]) <= Collapse(s[..e])
    decreases e
  {
    if o < e {
      ReachMonotone(s, o, e - 1);
      ReachStep(s, e - 1);
    }
  }

  /** A character that opens no run stands in the collapsed text at its own reach. */
  lemma ReachOfCharacter(s: Text, o: nat)
    requires o < |s| && (!IsCollapsible(s[o]) || o == 0 || !IsCollapsible(s[o - 1]))
    ensures Reach(s, o) < |Collapse(s)|
    ensures Collapse(s)[Reach(s, o)] == if IsCollapsible(s[o]) then SPACE else s[o]
    ensures Reach(s, o + 1) == Reach(s, o) + 1
  {
    ReachStep(s, o);
    ReachIsLength(s, o + 1);
    ReachMonotone(s, o + 1, |s|);
    assert s[..|s|] == s;
  }

  /** Whitespace collapses to whitespace. */
  lemma {:induction false} ReachOfWhitespace(s: Text, o: nat, e: nat)
    requires o <= e <= |s|
    requires forall i | o <= i < e :: IsWhitespace(s[i])
    ensures Reach(s, o) <= Reach(s, e)
    ensures Reach(s, e) == |Collapse(s[..e])|
    ensures forall j | Reach(s, o) <= j < Reach(s, e) :: IsWhitespace(Collapse(s[..e])[j])
    decreases e
  {
    ReachIsLength(s, e);
    if o < e {
      ReachOfWhitespace(s, o, e - 1);
      ReachStep(s, e - 1);
      forall j | Reach(s, o) <= j < Reach(s, e)
        ensures IsWhitespace(Collapse(s[..e])[j])
      {
        if j < Reach(s, e - 1) {
          assert Collapse(s[..e])[j] == Collapse(s[..e - 1])[j];
        }
      }
    }
  }

  lemma ReachIsPrefix(s: Text, e: nat)
    requires e <= |s|
    ensures Reach(s, e) <= |Collapse(s)| && Collapse(s[..e]) == Collapse(s)[..Reach(s, e)]
  {
    ReachIsLength(s, e);
    ReachMonotone(s, e, |s|);
    assert s[..|s|] == s;
  }

  /** A range that opens with text collapses on its own as it does inside the whole. */
  lemma {:induction false} CollapseSplit(s: Text, p: nat, e: nat)
    requires p < e <= |s| && !IsCollapsible(s[p])
    ensures Collapse(s[..e]) == Collapse(s[..p]) + Collapse(s[p..e])
    decreases e
  {
    var x := s[e - 1];
    assert s[p..e] == s[p..e - 1] + [x];
    assert s[..e] == s[..e - 1] + [x];
    CollapseSnoc(s[p..e - 1], x);
    CollapseSnoc(s[..e - 1], x);
    if p + 1 < e {
      CollapseSplit(s, p, e - 1);
      assert s[p..e - 1][e - 2 - p] == s[..e - 1][e - 2];
    } else {
      assert s[p..e - 1] == [];
    }
  }

  /** Collapsing a range that opens with text gives the matching range of the collapsed text. */
  lemma CollapseRange(s: Text, p: nat, e: nat)
    requires p < e <= |s| && !IsCollapsible(s[p])
    ensures Reach(s, p) <= Reach(s, e) <= |Collapse(s)|
    ensures Collapse(s[p..e]) == Collapse(s)[Reach(s, p)..Reach(s, e)]
  {
    CollapseSplit(s, p, e);
    ReachIsPrefix(s, e);
    ReachIsPrefix(s, p);
    ReachMonotone(s, p, e);
    ReachIsLength(s, p);
    assert Collapse(s[p..e]) == Collapse(s[..e])[Reach(s, p)..];
  }

  // ---------------------------------------------------------------- plain texts

  /** Text whose only whitespace is space, tab, carriage return and line feed. */
  ghost predicate PlainWhitespace(s: Text) {
    forall i | 0 <= i < |s| && IsWhitespace(s[i]) :: IsCollapsible(s[i])
  }

  lemma {:induction false} CollapseOfPlain(s: Text)
    requires PlainWhitespace(s)
    ensures NoAdjacentWhitespace(Collapse(s))
    ensures s != [] ==> Collapse(s) != []
    ensures s != [] ==> (IsWhitespace(s[|s| - 1]) <==> IsWhitespace(Collapse(s)[|Collapse(s)| - 1]))
  {
    if s != [] {
      var k := |s| - 1;
      CollapseOfPlain(s[..k]);
      assert s == s[..k] + [s[k]];
      CollapseSnoc(s[..k], s[k]);
    }
  }

  lemma PlainTextsHaveNoAdjacentWhitespace(s: Text)
    requires PlainWhitespace(s)
    ensures NoAdjacentWhitespace(NormalizeWhitespace(s))
  {
    NormalizeIsTrimmedCollapse(s);
    CollapseOfPlain(s);
    var l, r := TrimRange(Collapse(s));
    NoAdjacentInRange(Collapse(s), l, r);
  }
}
