/**
  Text as the source sees it: a sequence of UTF-16 code units, with the whitespace
  class of ECMAScript regular expressions and of `trim`.
 */
module Text {

  type CodeUnit = u: int | 0 <= u < 0x1_0000

  type Text = seq<CodeUnit>

  const TAB: CodeUnit := 9
  const LINE_FEED: CodeUnit := 10
  const RETURN: CodeUnit := 13
  const SPACE: CodeUnit := 32

  /** The class `\s`, which `trim` strips too. */
  predicate IsWhitespace(c: CodeUnit) {
    || 9 <= c <= 13 || c == 32 || c == 0xA0 || c == 0x1680 || 0x2000 <= c <= 0x200A
    || c == 0x2028 || c == 0x2029 || c == 0x202F || c == 0x205F || c == 0x3000 || c == 0xFEFF
  }

  predicate AllWhitespace(s: Text) {
    forall i | 0 <= i < |s| :: IsWhitespace(s[i])
  }

  function TrimLeft(s: Text): (r: Text)
    ensures |r| <= |s|
    decreases |s|, 1
  {
    if s != [] && IsWhitespace(s[0]) then TrimFirst(s) else s
  }

  function TrimFirst(s: Text): (r: Text)
    requires s != []
    ensures |r| <= |s|
    decreases |s|, 0
  {
    TrimLeft(s[1..])
  }

  function TrimRight(s: Text): (r: Text)
    ensures |r| <= |s|
    decreases |s|, 1
  {
    if s != [] && IsWhitespace(s[|s| - 1]) then TrimLast(s) else s
  }

  function TrimLast(s: Text): (r: Text)
    requires s != []
    ensures |r| <= |s|
    decreases |s|, 0
  {
    TrimRight(s[..|s| - 1])
  }

  function Trim(s: Text): Text {
    TrimRight(TrimLeft(s))
  }

  /** `s[l..r]` is what is left when the whitespace at both ends is taken away. */
  ghost predicate IsTrimmedRange(s: Text, l: nat, r: nat) {
    && l <= r <= |s|
    && (forall i | 0 <= i < l :: IsWhitespace(s[i]))
    && (forall i | r <= i < |s| :: IsWhitespace(s[i]))
    && (l < r ==> !IsWhitespace(s[l]) && !IsWhitespace(s[r - 1]))
  }

  lemma {:induction false} TrimLeftRange(s: Text) returns (l: nat)
    ensures l <= |s| && TrimLeft(s) == s[l..] && AllWhitespace(s[..l])
    ensures l < |s| ==> !IsWhitespace(s[l])
  {
    if s != [] && IsWhitespace(s[0]) {
      l := TrimLeftRange(s[1..]);
      assert s[1..][l..] == s[l + 1..];
      assert s[..l + 1] == [s[0]] + s[1..][..l];
      l := l + 1;
    } else {
      l := 0;
    }
  }

  lemma {:induction false} TrimRightRange(s: Text) returns (r: nat)
    ensures r <= |s| && TrimRight(s) == s[..r] && AllWhitespace(s[r..])
    ensures 0 < r ==> !IsWhitespace(s[r - 1])
  {
    if s != [] && IsWhitespace(s[|s| - 1]) {
      r := TrimRightRange(s[..|s| - 1]);
      assert s[..|s| - 1][..r] == s[..r];
      assert s[r..] == s[..|s| - 1][r..] + [s[|s| - 1]];
    } else {
      r := |s|;
    }
  }

  lemma TrimRange(s: Text) returns (l: nat, r: nat)
    ensures IsTrimmedRange(s, l, r) && Trim(s) == s[l..r]
    ensures l == |s| - |TrimLeft(s)|
  {
    l := TrimLeftRange(s);
    var k := TrimRightRange(s[l..]);
    r := l + k;
    assert s[l..][..k] == s[l..r] && s[l..][k..] == s[r..];
    if l < r {
      assert s[r - 1] == s[l..][k - 1];
    }
    forall i | 0 <= i < l ensures IsWhitespace(s[i]) {
      assert s[i] == s[..l][i];
    }
    forall i | r <= i < |s| ensures IsWhitespace(s[i]) {
      assert s[i] == s[l..][k..][i - r];
    }
  }

  /** A range with text at both ends and whitespace outside is what `trim` keeps. */
  lemma TrimIsTheRange(s: Text, l: nat, r: nat)
    requires IsTrimmedRange(s, l, r) && l < r
    ensures Trim(s) == s[l..r]
  {
    var l', r' := TrimRange(s);
    assert !IsWhitespace(s[l]) && !IsWhitespace(s[r - 1]);
    assert l' <= l && r <= r';
  }

  lemma SliceOfSlice(s: Text, p: nat, e: nat, a: nat, b: nat)
    requires p <= e <= |s| && a <= b <= e - p
    ensures s[p..e][a..b] == s[p + a..p + b]
  {
    var inner, outer := s[p..e][a..b], s[p + a..p + b];
    assert |inner| == |outer|;
    assert forall i | 0 <= i < b - a :: inner[i] == s[p..e][a + i] == s[p + a + i] == outer[i];
  }

  // ---------------------------------------------------------------- substring search

  predicate OccursAt(needle: Text, text: Text, i: nat) {
    i + |needle| <= |text| && text[i..i + |needle|] == needle
  }

  ghost predicate Occurs(needle: Text, text: Text) {
    exists i: nat :: OccursAt(needle, text, i)
  }

  /** `indexOf`: the first occurrence, or -1. */
  method IndexOf(text: Text, needle: Text) returns (index: int)
    ensures -1 <= index
    ensures index == -1 <==> !Occurs(needle, text)
    ensures 0 <= index ==> OccursAt(needle, text, index) && forall i | 0 <= i < index :: !OccursAt(needle, text, i)
  {
    index := 0;
    while index + |needle| <= |text|
      invariant 0 <= index
      invariant forall i | 0 <= i < index :: !OccursAt(needle, text, i)
    {
      if text[index..index + |needle|] == needle {
        assert OccursAt(needle, text, index);
        return;
      }
      index := index + 1;
    }
    index := -1;
  }
}
