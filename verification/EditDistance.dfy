/** Edit distance between two texts. */
module EditDistance {

  // The reference is the set of edit scripts: a script is a sequence of single-element edits that
  // reads one text and writes another.  The nested-loop table is proved to hold the cost of a
  // cheapest script.

  datatype Edit<T> =
    | Keep(kept: T)
    | Substitute(replaced: T, replacement: T)
    | Delete(dropped: T)
    | Insert(added: T)

  /** The text a script reads. */
  function Source<T>(script: seq<Edit<T>>): seq<T> {
    if script == [] then []
    else
      var before := Source(script[..|script| - 1]);
      match script[|script| - 1]
      case Keep(c) => before + [c]
      case Substitute(c, _) => before + [c]
      case Delete(c) => before + [c]
      case Insert(_) => before
  }

  /** The text a script writes. */
  function Target<T>(script: seq<Edit<T>>): seq<T> {
    if script == [] then []
    else
      var before := Target(script[..|script| - 1]);
      match script[|script| - 1]
      case Keep(c) => before + [c]
      case Substitute(_, d) => before + [d]
      case Delete(_) => before
      case Insert(d) => before + [d]
  }

  /** The number of edits that change something. */
  function Cost<T>(script: seq<Edit<T>>): nat {
    if script == [] then 0
    else Cost(script[..|script| - 1]) + if script[|script| - 1].Keep? then 0 else 1
  }

  /** `d` is the least cost of a script from `a` to `b`. */
  ghost predicate IsEditDistance<T(!new)>(d: nat, a: seq<T>, b: seq<T>) {
    && (exists script: seq<Edit<T>> :: Source(script) == a && Target(script) == b && Cost(script) == d)
    && (forall script: seq<Edit<T>> :: Source(script) == a && Target(script) == b ==> d <= Cost(script))
  }

  function Min(x: nat, y: nat, z: nat): nat {
    if x <= y && x <= z then x else if y <= z then y else z
  }

  function Max(x: nat, y: nat): nat {
    if x <= y then y else x
  }

  function Mismatch<T(==)>(x: T, y: T): nat {
    if x == y then 0 else 1
  }

  /** The recurrence behind one cell: the distance of the first `i` elements of `a` from the first `j` of `b`. */
  function PrefixDistance<T(==)>(a: seq<T>, b: seq<T>, i: nat, j: nat): nat
    requires i <= |a| && j <= |b|
    decreases i + j, 1
  {
    if i == 0 then j
    else if j == 0 then i
    else ByLastEdit(a, b, i, j)
  }

  /** The cheapest way to end: delete, insert, or keep/substitute the last elements. */
  function ByLastEdit<T(==)>(a: seq<T>, b: seq<T>, i: nat, j: nat): nat
    requires 0 < i <= |a| && 0 < j <= |b|
    decreases i + j, 0
  {
    Min(PrefixDistance(a, b, i - 1, j) + 1,
        PrefixDistance(a, b, i, j - 1) + 1,
        PrefixDistance(a, b, i - 1, j - 1) + Mismatch(a[i - 1], b[j - 1]))
  }

  lemma CellRecurrence<T>(a: seq<T>, b: seq<T>, i: nat, j: nat)
    requires 0 < i <= |a| && 0 < j <= |b|
    ensures PrefixDistance(a, b, i, j)
         == Min(PrefixDistance(a, b, i - 1, j) + 1,
                PrefixDistance(a, b, i, j - 1) + 1,
                PrefixDistance(a, b, i - 1, j - 1) + Mismatch(a[i - 1], b[j - 1]))
  {
  }

  lemma CellAtMost<T>(a: seq<T>, b: seq<T>, i: nat, j: nat)
    requires i <= |a| && j <= |b|
    ensures 0 < i ==> PrefixDistance(a, b, i, j) <= PrefixDistance(a, b, i - 1, j) + 1
    ensures 0 < j ==> PrefixDistance(a, b, i, j) <= PrefixDistance(a, b, i, j - 1) + 1
    ensures 0 < i && 0 < j
         ==> PrefixDistance(a, b, i, j) <= PrefixDistance(a, b, i - 1, j - 1) + Mismatch(a[i - 1], b[j - 1])
  {
    if 0 < i && 0 < j {
      CellRecurrence(a, b, i, j);
    }
  }

  /** The last edit of a cheapest script is one of three. */
  lemma LastEditCases<T>(a: seq<T>, b: seq<T>, i: nat, j: nat)
    requires 0 < i <= |a| && 0 < j <= |b|
    ensures || PrefixDistance(a, b, i, j) == PrefixDistance(a, b, i - 1, j) + 1
            || PrefixDistance(a, b, i, j) == PrefixDistance(a, b, i, j - 1) + 1
            || PrefixDistance(a, b, i, j) == PrefixDistance(a, b, i - 1, j - 1) + Mismatch(a[i - 1], b[j - 1])
  {
    CellRecurrence(a, b, i, j);
  }

  function Distance<T(==)>(a: seq<T>, b: seq<T>): nat {
    PrefixDistance(a, b, |a|, |b|)
  }

  // ---------------------------------------------------------------- minimality

  lemma {:induction false} SamePrefixes<T>(a: seq<T>, b: seq<T>, a': seq<T>, b': seq<T>, i: nat, j: nat)
    requires i <= |a| && i <= |a'| && j <= |b| && j <= |b'|
    requires forall k | 0 <= k < i :: a[k] == a'[k]
    requires forall k | 0 <= k < j :: b[k] == b'[k]
    ensures PrefixDistance(a, b, i, j) == PrefixDistance(a', b', i, j)
    decreases i + j
  {
    if i != 0 && j != 0 {
      SamePrefixes(a, b, a', b', i - 1, j);
      SamePrefixes(a, b, a', b', i, j - 1);
      SamePrefixes(a, b, a', b', i - 1, j - 1);
    }
  }

  /** One more edit at the end costs at most one more, and nothing when it keeps. */
  lemma DistanceSnoc<T>(a: seq<T>, b: seq<T>, x: T, y: T)
    ensures Distance(a + [x], b) <= Distance(a, b) + 1
    ensures Distance(a, b + [y]) <= Distance(a, b) + 1
    ensures Distance(a + [x], b + [y]) <= Distance(a, b) + Mismatch(x, y)
  {
    SamePrefixes(a, b, a + [x], b, |a|, |b|);
    SamePrefixes(a, b, a, b + [y], |a|, |b|);
    SamePrefixes(a, b, a + [x], b + [y], |a|, |b|);
    CellAtMost(a + [x], b, |a| + 1, |b|);
    CellAtMost(a, b + [y], |a|, |b| + 1);
    CellAtMost(a + [x], b + [y], |a| + 1, |b| + 1);
  }

  /** No script is cheaper than the recurrence. */
  lemma {:induction false} ScriptCostsAtLeastDistance<T>(script: seq<Edit<T>>)
    ensures Distance(Source(script), Target(script)) <= Cost(script)
  {
    if script != [] {
      var before := script[..|script| - 1];
      ScriptCostsAtLeastDistance(before);
      var a, b := Source(before), Target(before);
      match script[|script| - 1]
      case Keep(c) => DistanceSnoc(a, b, c, c);
      case Substitute(c, d) => DistanceSnoc(a, b, c, d);
      case Delete(c) => DistanceSnoc(a, b, c, c);
      case Insert(d) => DistanceSnoc(a, b, d, d);
    }
  }

  lemma AppendEdit<T>(script: seq<Edit<T>>, e: Edit<T>)
    ensures Cost(script + [e]) == Cost(script) + if e.Keep? then 0 else 1
    ensures e.Keep? ==> Source(script + [e]) == Source(script) + [e.kept]
    ensures e.Keep? ==> Target(script + [e]) == Target(script) + [e.kept]
    ensures e.Substitute? ==> Source(script + [e]) == Source(script) + [e.replaced]
    ensures e.Substitute? ==> Target(script + [e]) == Target(script) + [e.replacement]
    ensures e.Delete? ==> Source(script + [e]) == Source(script) + [e.dropped]
    ensures e.Delete? ==> Target(script + [e]) == Target(script)
    ensures e.Insert? ==> Source(script + [e]) == Source(script)
    ensures e.Insert? ==> Target(script + [e]) == Target(script) + [e.added]
  {
    assert (script + [e])[..|script + [e]| - 1] == script;
  }

  /** A last edit whose use loses nothing against the recurrence. */
  ghost predicate GoodLastEdit<T(!new)>(a: seq<T>, b: seq<T>, i: nat, j: nat, e: Edit<T>)
    requires i <= |a| && j <= |b|
  {
    match e
    case Insert(y) => 0 < j && y == b[j - 1] && PrefixDistance(a, b, i, j) == PrefixDistance(a, b, i, j - 1) + 1
    case Delete(x) => 0 < i && x == a[i - 1] && PrefixDistance(a, b, i, j) == PrefixDistance(a, b, i - 1, j) + 1
    case Keep(x) =>
      0 < i && 0 < j && x == a[i - 1] == b[j - 1]
      && PrefixDistance(a, b, i, j) == PrefixDistance(a, b, i - 1, j - 1)
    case Substitute(x, y) =>
      0 < i && 0 < j && x == a[i - 1] && y == b[j - 1]
      && PrefixDistance(a, b, i, j) == PrefixDistance(a, b, i - 1, j - 1) + 1
  }

  lemma ChooseLastEdit<T(!new)>(a: seq<T>, b: seq<T>, i: nat, j: nat) returns (e: Edit<T>)
    requires i <= |a| && j <= |b| && 0 < i + j
    ensures GoodLastEdit(a, b, i, j, e)
  {
    if i == 0 {
      e := Insert(b[j - 1]);
    } else if j == 0 {
      e := Delete(a[i - 1]);
    } else {
      LastEditCases(a, b, i, j);
      if PrefixDistance(a, b, i, j) == PrefixDistance(a, b, i, j - 1) + 1 {
        e := Insert(b[j - 1]);
      } else if PrefixDistance(a, b, i, j) == PrefixDistance(a, b, i - 1, j) + 1 {
        e := Delete(a[i - 1]);
      } else {
        e := if a[i - 1] == b[j - 1] then Keep(a[i - 1]) else Substitute(a[i - 1], b[j - 1]);
      }
    }
  }

  /** A script whose cost is the recurrence's value. */
  lemma {:induction false} CheapestScript<T(!new)>(a: seq<T>, b: seq<T>, i: nat, j: nat)
    returns (script: seq<Edit<T>>)
    requires i <= |a| && j <= |b|
    ensures Source(script) == a[..i] && Target(script) == b[..j]
    ensures Cost(script) == PrefixDistance(a, b, i, j)
    decreases i + j
  {
    if i + j == 0 {
      script := [];
    } else {
      var e := ChooseLastEdit(a, b, i, j);
      var before := CheapestScript(a, b, if e.Insert? then i else i - 1, if e.Delete? then j else j - 1);
      AppendEdit(before, e);
      script := before + [e];
      assert 0 < i ==> a[..i] == a[..i - 1] + [a[i - 1]];
      assert 0 < j ==> b[..j] == b[..j - 1] + [b[j - 1]];
    }
  }

  /** The recurrence computes the edit distance, and nothing else is one. */
  lemma DistanceIsMinimal<T(!new)>(a: seq<T>, b: seq<T>, d: nat)
    ensures IsEditDistance(d, a, b) <==> d == Distance(a, b)
  {
    var best := CheapestScript(a, b, |a|, |b|);
    assert Source(best) == a && Target(best) == b;
    forall script: seq<Edit<T>> | Source(script) == a && Target(script) == b
      ensures Distance(a, b) <= Cost(script)
    {
      ScriptCostsAtLeastDistance(script);
    }
  }

  // ---------------------------------------------------------------- metric laws

  lemma {:induction false} PrefixDistanceSymmetric<T>(a: seq<T>, b: seq<T>, i: nat, j: nat)
    requires i <= |a| && j <= |b|
    ensures PrefixDistance(a, b, i, j) == PrefixDistance(b, a, j, i)
    decreases i + j
  {
    if i != 0 && j != 0 {
      PrefixDistanceSymmetric(a, b, i - 1, j);
      PrefixDistanceSymmetric(a, b, i, j - 1);
      PrefixDistanceSymmetric(a, b, i - 1, j - 1);
    }
  }

  lemma DistanceSymmetric<T>(a: seq<T>, b: seq<T>)
    ensures Distance(a, b) == Distance(b, a)
  {
    PrefixDistanceSymmetric(a, b, |a|, |b|);
  }

  lemma {:induction false} PrefixDistanceBounds<T>(a: seq<T>, b: seq<T>, i: nat, j: nat)
    requires i <= |a| && j <= |b|
    ensures i - j <= PrefixDistance(a, b, i, j) && j - i <= PrefixDistance(a, b, i, j)
    ensures PrefixDistance(a, b, i, j) <= Max(i, j)
    decreases i + j
  {
    if i != 0 && j != 0 {
      PrefixDistanceBounds(a, b, i - 1, j);
      PrefixDistanceBounds(a, b, i, j - 1);
      PrefixDistanceBounds(a, b, i - 1, j - 1);
    }
  }

  lemma {:induction false} PrefixDistanceZeroIff<T>(a: seq<T>, b: seq<T>, i: nat, j: nat)
    requires i <= |a| && j <= |b|
    ensures PrefixDistance(a, b, i, j) == 0 <==> a[..i] == b[..j]
    decreases i + j
  {
    PrefixDistanceBounds(a, b, i, j);
    if i != 0 && j != 0 {
      PrefixDistanceZeroIff(a, b, i - 1, j - 1);
      assert a[..i] == a[..i - 1] + [a[i - 1]] && b[..j] == b[..j - 1] + [b[j - 1]];
      assert a[..i] == b[..j] ==> a[..i - 1] == a[..i][..i - 1] == b[..j][..j - 1] == b[..j - 1];
    }
  }

  /** Between the difference of the lengths and the longer length; zero only between equals. */
  lemma DistanceBounds<T>(a: seq<T>, b: seq<T>)
    ensures |a| - |b| <= Distance(a, b) && |b| - |a| <= Distance(a, b)
    ensures Distance(a, b) <= Max(|a|, |b|)
    ensures Distance(a, b) == 0 <==> a == b
  {
    PrefixDistanceBounds(a, b, |a|, |b|);
    PrefixDistanceZeroIff(a, b, |a|, |b|);
    assert a[..|a|] == a && b[..|b|] == b;
  }

  lemma {:induction false} PrefixTriangle<T>(a: seq<T>, b: seq<T>, c: seq<T>, i: nat, j: nat, k: nat)
    requires i <= |a| && j <= |b| && k <= |c|
    ensures PrefixDistance(a, c, i, k) <= PrefixDistance(a, b, i, j) + PrefixDistance(b, c, j, k)
    decreases i + j + k, 1, 0
  {
    if i == 0 {
      PrefixDistanceBounds(b, c, j, k);
    } else if k == 0 {
      PrefixDistanceBounds(a, b, i, j);
    } else if j == 0 {
      PrefixDistanceBounds(a, c, i, k);
    } else {
      PrefixTriangleStep(a, b, c, i, j, k);
    }
  }

  lemma {:induction false} PrefixTriangleStep<T>(a: seq<T>, b: seq<T>, c: seq<T>, i: nat, j: nat, k: nat)
    requires 0 < i <= |a| && 0 < j <= |b| && 0 < k <= |c|
    ensures PrefixDistance(a, c, i, k) <= PrefixDistance(a, b, i, j) + PrefixDistance(b, c, j, k)
    decreases i + j + k, 0, 1
  {
    if PrefixDistance(a, b, i, j) == PrefixDistance(a, b, i - 1, j) + 1 {
      CellAtMost(a, c, i, k);
      PrefixTriangle(a, b, c, i - 1, j, k);
    } else if PrefixDistance(b, c, j, k) == PrefixDistance(b, c, j, k - 1) + 1 {
      CellAtMost(a, c, i, k);
      PrefixTriangle(a, b, c, i, j, k - 1);
    } else {
      MiddleTriangleStep(a, b, c, i, j, k);
    }
  }

  /** The last element of the middle text has a part in both scripts. */
  lemma {:induction false} MiddleTriangleStep<T>(a: seq<T>, b: seq<T>, c: seq<T>, i: nat, j: nat, k: nat)
    requires 0 < i <= |a| && 0 < j <= |b| && 0 < k <= |c|
    requires PrefixDistance(a, b, i, j) != PrefixDistance(a, b, i - 1, j) + 1
    requires PrefixDistance(b, c, j, k) != PrefixDistance(b, c, j, k - 1) + 1
    ensures PrefixDistance(a, c, i, k) <= PrefixDistance(a, b, i, j) + PrefixDistance(b, c, j, k)
    decreases i + j + k, 0, 0
  {
    CellAtMost(a, c, i, k);
    LastEditCases(a, b, i, j);
    LastEditCases(b, c, j, k);
    if PrefixDistance(a, b, i, j) == PrefixDistance(a, b, i, j - 1) + 1 {
      PrefixTriangle(a, b, c, i, j - 1, k);
      PrefixTriangle(a, b, c, i, j - 1, k - 1);
    } else {
      PrefixTriangle(a, b, c, i - 1, j - 1, k);
      PrefixTriangle(a, b, c, i - 1, j - 1, k - 1);
    }
  }

  lemma TriangleInequality<T>(a: seq<T>, b: seq<T>, c: seq<T>)
    ensures Distance(a, c) <= Distance(a, b) + Distance(b, c)
  {
    PrefixTriangle(a, b, c, |a|, |b|, |c|);
  }

  // ---------------------------------------------------------------- the table

  /** `1 - distance / maxLen`, over exact reals. */
  function Similarity<T(==)>(a: seq<T>, b: seq<T>): real {
    if a == [] && b == [] then 1.0
    else 1.0 - (Distance(a, b) as real) / (Max(|a|, |b|) as real)
  }

  lemma SimilarityRange<T>(a: seq<T>, b: seq<T>)
    ensures 0.0 <= Similarity(a, b) <= 1.0
    ensures Similarity(a, b) == 1.0 <==> a == b
    ensures Similarity(a, b) == Similarity(b, a)
    ensures |a| == 0 && |b| != 0 ==> Similarity(a, b) == 0.0
    ensures |a| != 0 && |b| == 0 ==> Similarity(a, b) == 0.0
  {
    DistanceBounds(a, b);
    DistanceSymmetric(a, b);
    if a != [] || b != [] {
      QuotientRange(Distance(a, b), Max(|a|, |b|));
    }
  }

  /** `x` is the part of the longer text that a cheapest edit script leaves alone. */
  ghost predicate IsShareKept<T(!new)>(a: seq<T>, b: seq<T>, x: real) {
    forall d: nat | IsEditDistance(d, a, b) ::
      && (|b| <= |a| ==> x * (|a| as real) == (|a| - d) as real)
      && (|a| <= |b| ==> x * (|b| as real) == (|b| - d) as real)
  }

  lemma SimilarityIsShareKept<T(!new)>(a: seq<T>, b: seq<T>)
    ensures IsShareKept(a, b, Similarity(a, b))
  {
    var d, n := Distance(a, b), Max(|a|, |b|);
    DistanceBounds(a, b);
    if n > 0 {
      ShareOfWhole(d, n);
      assert Similarity(a, b) * (n as real) == (n - d) as real;
    }
    forall d': nat | IsEditDistance(d', a, b)
      ensures d' == d
    {
      DistanceIsMinimal(a, b, d');
    }
  }

  lemma ShareOfWhole(d: nat, n: nat)
    requires 0 < n
    ensures (1.0 - (d as real) / (n as real)) * (n as real) == (n - d) as real
  {
    var x, y := d as real, n as real;
    assert x / y * y == x;
    assert (1.0 - x / y) * y == y - x / y * y;
  }

  lemma QuotientRange(d: nat, n: nat)
    requires 0 < n && d <= n
    ensures 0.0 <= (d as real) / (n as real) <= 1.0
    ensures (d as real) / (n as real) == 0.0 <==> d == 0
    ensures d == n ==> (d as real) / (n as real) == 1.0
  {
    var x, y := d as real, n as real;
    assert x / y * y == x;
  }

  /** Row `r` of the table is right from column 0 up to, and excluding, column `upTo`. */
  ghost predicate RowFilled<T>(dp: array2<nat>, a: seq<T>, b: seq<T>, r: nat, upTo: nat)
    requires dp.Length0 == |a| + 1 && dp.Length1 == |b| + 1
    requires r <= |a| && upTo <= |b| + 1
    reads dp
  {
    forall c | 0 <= c < upTo :: dp[r, c] == PrefixDistance(a, b, r, c)
  }

  /** The borders of the table: `i` deletions down the left, `j` insertions along the top. */
  method FillBorders<T>(dp: array2<nat>, a: seq<T>, b: seq<T>)
    requires dp.Length0 == |a| + 1 && dp.Length1 == |b| + 1
    modifies dp
    ensures RowFilled(dp, a, b, 0, |b| + 1)
    ensures forall r | 0 <= r <= |a| :: dp[r, 0] == r
  {
    for i := 0 to |a| + 1
      invariant forall k | 0 <= k < i :: dp[k, 0] == k
    {
      dp[i, 0] := i;
    }
    for j := 0 to |b| + 1
      invariant forall k | 0 <= k <= |a| :: dp[k, 0] == k
      invariant forall k | 0 <= k < j :: dp[0, k] == k
    {
      dp[0, j] := j;
    }
  }

  /** The inner loop: one row from the row above it. */
  method FillRow<T(==)>(dp: array2<nat>, a: seq<T>, b: seq<T>, i: nat)
    requires dp.Length0 == |a| + 1 && dp.Length1 == |b| + 1
    requires 1 <= i <= |a|
    requires RowFilled(dp, a, b, i - 1, |b| + 1) && dp[i, 0] == i
    modifies dp
    ensures RowFilled(dp, a, b, i, |b| + 1)
    ensures forall r, c | 0 <= r <= |a| && 0 <= c <= |b| && r != i :: dp[r, c] == old(dp[r, c])
  {
    for j := 1 to |b| + 1
      invariant RowFilled(dp, a, b, i, j)
      invariant forall r, c | 0 <= r <= |a| && 0 <= c <= |b| && r != i :: dp[r, c] == old(dp[r, c])
    {
      CellRecurrence(a, b, i, j);
      assert dp[i - 1, j] == PrefixDistance(a, b, i - 1, j) && dp[i - 1, j - 1] == PrefixDistance(a, b, i - 1, j - 1);
      var cost := if a[i - 1] == b[j - 1] then 0 else 1;
      dp[i, j] := Min(dp[i - 1, j] + 1, dp[i, j - 1] + 1, dp[i - 1, j - 1] + cost);
    }
  }

  method CalculateLevenshteinSimilarity<T(==, !new)>(a: seq<T>, b: seq<T>) returns (similarity: real)
    ensures similarity == Similarity(a, b)
    ensures a == [] && b == [] ==> similarity == 1.0
    ensures IsShareKept(a, b, similarity)
    ensures 0.0 <= similarity <= 1.0
    ensures similarity == 1.0 <==> a == b
  {
    SimilarityRange(a, b);
    SimilarityIsShareKept(a, b);
    var m, n := |a|, |b|;
    if m == 0 {
      return if n == 0 then 1.0 else 0.0;
    }
    if n == 0 {
      return 0.0;
    }

    var dp := new nat[m + 1, n + 1]((_, _) => 0);
    FillBorders(dp, a, b);
    for i := 1 to m + 1
      invariant forall r | 0 <= r <= m :: dp[r, 0] == r
      invariant RowFilled(dp, a, b, i - 1, n + 1)
    {
      FillRow(dp, a, b, i);
    }

    var distance := dp[m, n];
    var maxLen := Max(m, n);
    similarity := 1.0 - (distance as real) / (maxLen as real);
    assert similarity == Similarity(a, b);
  }
}
