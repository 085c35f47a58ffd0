/** Retrieval metrics: precision, recall and nDCG at k. */
module RetrievalBenchmark {
  import opened Sorting

  // The discount `1 / log2(rank + 2)` and the gain `2^relevance - 1` enter as an arbitrary positive
  // non-increasing function and an arbitrary monotone function that is zero up to zero.

  type Id = string

  ghost predicate IsDiscount(d: nat -> real) {
    && (forall i: nat :: 0.0 < d(i))
    && (forall i: nat, j: nat | i <= j :: d(j) <= d(i))
  }

  ghost predicate IsGain(g: real -> real) {
    && (forall x | x <= 0.0 :: g(x) == 0.0)
    && (forall x, y | x <= y :: g(x) <= g(y))
  }

  function DiscountedGain(g: real -> real, d: nat -> real, relevance: real, rank: nat): real {
    if relevance <= 0.0 then 0.0 else g(relevance) * d(rank)
  }

  /** Relevance labels, with unlabelled ids at zero. */
  function RelevanceOf(relevance: map<Id, real>, id: Id): real {
    if id in relevance then relevance[id] else 0.0
  }

  /** The gain a rank contributes: a repeated id contributes nothing. */
  function GainAt(g: real -> real, relevance: map<Id, real>, retrieved: seq<Id>, i: nat): real
    requires i < |retrieved|
  {
    if retrieved[i] in retrieved[..i] then 0.0 else g(RelevanceOf(relevance, retrieved[i]))
  }

  function Gains(g: real -> real, relevance: map<Id, real>, retrieved: seq<Id>): seq<real> {
    seq(|retrieved|, i requires 0 <= i < |retrieved| => GainAt(g, relevance, retrieved, i))
  }

  function Sum(w: seq<real>, n: nat): real
    requires n <= |w|
  {
    if n == 0 then 0.0 else Sum(w, n - 1) + w[n - 1]
  }

  function DiscountedSum(w: seq<real>, d: nat -> real, n: nat): real
    requires n <= |w|
  {
    if n == 0 then 0.0 else DiscountedSum(w, d, n - 1) + w[n - 1] * d(n - 1)
  }

  // ---------------------------------------------------------------- summation by parts

  /** How far the first `n` discounted terms of `s` are ahead of those of `w`. */
  function Lead(w: seq<real>, s: seq<real>, d: nat -> real, n: nat): real
    requires n <= |w| && n <= |s|
  {
    DiscountedSum(s, d, n) - DiscountedSum(w, d, n)
  }

  function Surplus(w: seq<real>, s: seq<real>, n: nat): real
    requires n <= |w| && n <= |s|
  {
    Sum(s, n) - Sum(w, n)
  }

  /** If every prefix of `w` sums to no more than that of `s`, discounting cannot turn that around. */
  lemma {:induction false} DominatedPrefixes(w: seq<real>, s: seq<real>, d: nat -> real, n: nat)
    requires IsDiscount(d) && n <= |w| && n <= |s|
    requires forall p | 0 <= p <= n :: Sum(w, p) <= Sum(s, p)
    ensures 0.0 <= Lead(w, s, d, n)
    ensures n > 0 ==> Surplus(w, s, n) * d(n - 1) <= Lead(w, s, d, n)
  {
    if n > 0 {
      DominatedPrefixes(w, s, d, n - 1);
      assert 0.0 <= Surplus(w, s, n - 1) && 0.0 <= Surplus(w, s, n);
      var before := if n > 1 then d(n - 2) else d(0);
      assert 0.0 < d(n - 1) <= before;
      assert Surplus(w, s, n - 1) * before <= Lead(w, s, d, n - 1) by {
        if n == 1 {
          assert Surplus(w, s, 0) == 0.0;
        }
      }
      SurplusStep(Surplus(w, s, n - 1), before, d(n - 1), w[n - 1], s[n - 1], Lead(w, s, d, n - 1));
    }
  }

  lemma SurplusStep(surplus: real, before: real, now: real, x: real, y: real, lead: real)
    requires 0.0 <= surplus && 0.0 < now <= before && 0.0 <= surplus + y - x
    requires surplus * before <= lead
    ensures (surplus + y - x) * now <= lead + (y * now - x * now)
    ensures 0.0 <= lead + (y * now - x * now)
  {
    Scale(surplus, now, before);
    Scale(now, 0.0, surplus + y - x);
    assert (surplus + y - x) * now == surplus * now + y * now - x * now;
  }

  lemma Scale(a: real, x: real, y: real)
    requires 0.0 <= a && x <= y
    ensures a * x <= a * y
    ensures x * a <= y * a
  {
  }

  // ---------------------------------------------------------------- the best p of a list

  function GainSum(g: real -> real, v: seq<real>): real {
    if v == [] then 0.0 else g(v[0]) + GainSum(g, v[1..])
  }

  lemma {:induction false} GainSumRemove(g: real -> real, v: seq<real>, i: nat)
    requires i < |v|
    ensures GainSum(g, v) == g(v[i]) + GainSum(g, v[..i] + v[i + 1..])
  {
    if i > 0 {
      GainSumRemove(g, v[1..], i - 1);
      var rest := v[..i] + v[i + 1..];
      assert rest[0] == v[0];
      assert rest[1..] == v[1..][..i - 1] + v[1..][i..];
    } else {
      assert v[..0] + v[1..] == v[1..];
    }
  }

  lemma RemoveFromMultiset<T>(v: seq<T>, i: nat)
    requires i < |v|
    ensures multiset(v) == multiset(v[..i] + v[i + 1..]) + multiset{v[i]}
  {
    assert v == v[..i] + [v[i]] + v[i + 1..];
  }

  ghost predicate Descending(s: seq<real>) {
    forall i, j | 0 <= i < j < |s| :: s[j] <= s[i]
  }

  /** A member of `v` to set against the largest member of `s`: that same value if `v` has it. */
  lemma PickForLargest(v: seq<real>, s: seq<real>) returns (i: nat)
    requires v != [] && Descending(s) && multiset(v) <= multiset(s)
    ensures s != [] && i < |v| && v[i] <= s[0]
    ensures multiset(v[..i] + v[i + 1..]) <= multiset(s[1..])
  {
    assert v[0] in multiset(v) && v[0] in multiset(s) && v[0] in s;
    i := if s[0] in v then IndexIn(v, s[0]) else 0;
    assert v[i] in multiset(v) && v[i] in multiset(s) && v[i] in s;
    RestFits(v, s, i);
  }

  /** No selection from a list gains more than as many of its largest members. */
  lemma {:induction false} LargestGainMost(g: real -> real, v: seq<real>, s: seq<real>)
    requires IsGain(g) && Descending(s) && multiset(v) <= multiset(s)
    ensures |v| <= |s|
    ensures GainSum(g, v) <= GainSum(g, s[..|v|])
    decreases |s|
  {
    if v != [] {
      var i := PickForLargest(v, s);
      var rest := v[..i] + v[i + 1..];
      GainSumRemove(g, v, i);
      LargestGainMost(g, rest, s[1..]);
      assert s[..|v|][1..] == s[1..][..|rest|];
    }
  }

  function IndexIn(v: seq<real>, x: real): (i: nat)
    requires x in v
    ensures i < |v| && v[i] == x
  {
    if v[0] == x then 0 else 1 + IndexIn(v[1..], x)
  }

  lemma RestFits(v: seq<real>, s: seq<real>, i: nat)
    requires i < |v| && s != [] && multiset(v) <= multiset(s)
    requires v[i] == s[0] || s[0] !in v
    ensures multiset(v[..i] + v[i + 1..]) <= multiset(s[1..])
  {
    RemoveFromMultiset(v, i);
    assert s == [s[0]] + s[1..];
    var rest := multiset(v[..i] + v[i + 1..]);
    forall x
      ensures rest[x] <= multiset(s[1..])[x]
    {
      assert multiset(v)[x] <= multiset(s)[x];
      assert s[0] !in v ==> multiset(v)[s[0]] == 0;
    }
  }

  // ---------------------------------------------------------------- the labels

  /** A label record: its ids in the order they were first assigned, and the label of each. */
  datatype Relevance = Relevance(ids: seq<Id>, labels: map<Id, real>) {
    ghost predicate Valid() {
      && Distinct(ids)
      && (forall id :: id in ids <==> id in labels)
    }
  }

  function Labels(ids: seq<Id>, labels: map<Id, real>): seq<real> {
    seq(|ids|, i requires 0 <= i < |ids| => RelevanceOf(labels, ids[i]))
  }

  lemma LabelsConcat(a: seq<Id>, b: seq<Id>, labels: map<Id, real>)
    ensures Labels(a + b, labels) == Labels(a, labels) + Labels(b, labels)
  {
  }

  /** Distinct ids drawn from distinct ids carry no labels more often. */
  lemma {:induction false} LabelsOfSubset(a: seq<Id>, b: seq<Id>, labels: map<Id, real>)
    requires Distinct(a) && Distinct(b) && forall id | id in a :: id in b
    ensures multiset(Labels(a, labels)) <= multiset(Labels(b, labels))
  {
    if a != [] {
      var rest := RestWithout(a, b, labels);
      LabelsOfSubset(a[1..], rest, labels);
      AddToBoth(multiset(Labels(a[1..], labels)), multiset(Labels(rest, labels)), RelevanceOf(labels, a[0]));
    }
  }

  /** The first id of `a` taken out of both. */
  lemma RestWithout(a: seq<Id>, b: seq<Id>, labels: map<Id, real>) returns (rest: seq<Id>)
    requires Distinct(a) && Distinct(b) && a != [] && forall id | id in a :: id in b
    ensures Distinct(rest) && forall id | id in a[1..] :: id in rest
    ensures multiset(Labels(b, labels)) == multiset(Labels(rest, labels)) + multiset{RelevanceOf(labels, a[0])}
    ensures multiset(Labels(a, labels)) == multiset(Labels(a[1..], labels)) + multiset{RelevanceOf(labels, a[0])}
  {
    assert a[0] in a && a[0] in b;
    var j :| 0 <= j < |b| && b[j] == a[0];
    TailInRest(a, b, j);
    rest := b[..j] + b[j + 1..];
    LabelsRemove(b, j, labels);
    LabelsRemove(a, 0, labels);
    assert a[..0] + a[1..] == a[1..];
  }

  lemma AddToBoth(a: multiset<real>, b: multiset<real>, x: real)
    requires a <= b
    ensures a + multiset{x} <= b + multiset{x}
  {
  }

  lemma TailInRest(a: seq<Id>, b: seq<Id>, j: nat)
    requires Distinct(a) && Distinct(b) && a != [] && j < |b| && b[j] == a[0]
    requires forall id | id in a :: id in b
    ensures Distinct(b[..j] + b[j + 1..])
    ensures forall id | id in a[1..] :: id in b[..j] + b[j + 1..]
  {
    forall id | id in a[1..]
      ensures id in b[..j] + b[j + 1..]
    {
      var k :| 0 <= k < |a[1..]| && a[1..][k] == id;
      assert a[k + 1] == id && id in a && id in b;
      InRest(b, j, id);
    }
  }

  lemma InRest(b: seq<Id>, j: nat, id: Id)
    requires j < |b| && id in b && id != b[j]
    ensures id in b[..j] + b[j + 1..]
  {
    var m :| 0 <= m < |b| && b[m] == id;
    var rest := b[..j] + b[j + 1..];
    assert if m < j then rest[m] == id else rest[m - 1] == id;
  }

  lemma LabelsRemove(b: seq<Id>, j: nat, labels: map<Id, real>)
    requires j < |b|
    ensures multiset(Labels(b, labels))
         == multiset(Labels(b[..j] + b[j + 1..], labels)) + multiset{RelevanceOf(labels, b[j])}
  {
    var v := Labels(b, labels);
    RemoveFromMultiset(v, j);
    assert v[..j] + v[j + 1..] == Labels(b[..j] + b[j + 1..], labels);
  }

  // ---------------------------------------------------------------- the ids that count

  /** The labelled ids among the first `p`, each at its first occurrence. */
  function FirstIds(retrieved: seq<Id>, labels: map<Id, real>, p: nat): seq<Id>
    requires p <= |retrieved|
    decreases p, 1
  {
    if p == 0 then [] else FirstIdsAfter(retrieved, labels, p - 1)
  }

  function FirstIdsAfter(retrieved: seq<Id>, labels: map<Id, real>, i: nat): seq<Id>
    requires i < |retrieved|
    decreases i + 1, 0
  {
    FirstIds(retrieved, labels, i)
    + if retrieved[i] in labels && retrieved[i] !in retrieved[..i] then [retrieved[i]] else []
  }

  lemma {:induction false} FirstIdsAreDistinct(retrieved: seq<Id>, labels: map<Id, real>, p: nat)
    requires p <= |retrieved|
    ensures Distinct(FirstIds(retrieved, labels, p)) && |FirstIds(retrieved, labels, p)| <= p
    ensures forall id | id in FirstIds(retrieved, labels, p) :: id in labels && id in retrieved[..p]
  {
    if p > 0 {
      FirstIdsAreDistinct(retrieved, labels, p - 1);
      assert retrieved[..p] == retrieved[..p - 1] + [retrieved[p - 1]];
    }
  }

  lemma GainSumSnoc(g: real -> real, v: seq<real>, x: real)
    ensures GainSum(g, v + [x]) == GainSum(g, v) + g(x)
  {
    GainSumRemove(g, v + [x], |v|);
    assert (v + [x])[..|v|] + (v + [x])[|v| + 1..] == v;
  }

  /** What rank `p` adds: the gain of its label if it is a first occurrence of a labelled id. */
  lemma RankAdds(g: real -> real, labels: map<Id, real>, retrieved: seq<Id>, p: nat)
    requires IsGain(g) && p < |retrieved|
    ensures GainSum(g, Labels(FirstIds(retrieved, labels, p + 1), labels))
         == GainSum(g, Labels(FirstIds(retrieved, labels, p), labels)) + GainAt(g, labels, retrieved, p)
  {
    var id, before := retrieved[p], FirstIds(retrieved, labels, p);
    assert g(0.0) == 0.0;
    if id in labels && id !in retrieved[..p] {
      assert FirstIds(retrieved, labels, p + 1) == before + [id];
      LabelsConcat(before, [id], labels);
      assert Labels([id], labels) == [RelevanceOf(labels, id)];
      GainSumSnoc(g, Labels(before, labels), RelevanceOf(labels, id));
    } else {
      assert FirstIds(retrieved, labels, p + 1) == before;
    }
  }

  lemma {:induction false} GainsOfFirstIds(g: real -> real, labels: map<Id, real>, retrieved: seq<Id>, p: nat)
    requires IsGain(g) && p <= |retrieved|
    ensures Sum(Gains(g, labels, retrieved), p) == GainSum(g, Labels(FirstIds(retrieved, labels, p), labels))
  {
    if p > 0 {
      var q := p - 1;
      GainsOfFirstIds(g, labels, retrieved, q);
      OneMoreRank(g, labels, retrieved, q);
      assert q + 1 == p;
    } else {
      NoRanks(g, labels, retrieved);
    }
  }

  lemma NoRanks(g: real -> real, labels: map<Id, real>, retrieved: seq<Id>)
    ensures Sum(Gains(g, labels, retrieved), 0) == 0.0
    ensures GainSum(g, Labels(FirstIds(retrieved, labels, 0), labels)) == 0.0
  {
    assert FirstIds(retrieved, labels, 0) == [];
  }

  lemma OneMoreRank(g: real -> real, labels: map<Id, real>, retrieved: seq<Id>, q: nat)
    requires IsGain(g) && q < |retrieved|
    requires Sum(Gains(g, labels, retrieved), q) == GainSum(g, Labels(FirstIds(retrieved, labels, q), labels))
    ensures Sum(Gains(g, labels, retrieved), q + 1)
         == GainSum(g, Labels(FirstIds(retrieved, labels, q + 1), labels))
  {
    RankAdds(g, labels, retrieved, q);
    SumOfGains(g, labels, retrieved, q);
    SameSum(Sum(Gains(g, labels, retrieved), q), GainSum(g, Labels(FirstIds(retrieved, labels, q), labels)),
            GainAt(g, labels, retrieved, q), Sum(Gains(g, labels, retrieved), q + 1),
            GainSum(g, Labels(FirstIds(retrieved, labels, q + 1), labels)));
  }

  lemma SameSum(a: real, b: real, x: real, a': real, b': real)
    requires a == b && a' == a + x && b' == b + x
    ensures a' == b'
  {
  }

  lemma SumOfGains(g: real -> real, labels: map<Id, real>, retrieved: seq<Id>, p: nat)
    requires p < |retrieved|
    ensures Sum(Gains(g, labels, retrieved), p + 1)
         == Sum(Gains(g, labels, retrieved), p) + GainAt(g, labels, retrieved, p)
  {
    assert Gains(g, labels, retrieved)[p] == GainAt(g, labels, retrieved, p);
  }

  // ---------------------------------------------------------------- the ideal ranking

  function AtLeast(): (real, real) -> bool {
    (x: real, y: real) => y <= x
  }

  function IdealLabels(relevance: Relevance): seq<real> {
    SortBy(Labels(relevance.ids, relevance.labels), AtLeast())
  }

  lemma IdealLabelsDescend(relevance: Relevance)
    ensures Descending(IdealLabels(relevance)) && |IdealLabels(relevance)| == |relevance.ids|
    ensures multiset(IdealLabels(relevance)) == multiset(Labels(relevance.ids, relevance.labels))
  {
    SortByIsSorted(Labels(relevance.ids, relevance.labels), AtLeast());
  }

  /** The gains of the ideal ranking, padded with zeros. */
  function IdealGains(g: real -> real, ideal: seq<real>, n: nat): seq<real> {
    seq(n, i requires 0 <= i < n => if i < |ideal| then g(ideal[i]) else 0.0)
  }

  lemma {:induction false} SumOfIdealGains(g: real -> real, ideal: seq<real>, n: nat, p: nat)
    requires p <= n
    ensures Sum(IdealGains(g, ideal, n), p) == GainSum(g, ideal[..if p < |ideal| then p else |ideal|])
  {
    if p > 0 {
      SumOfIdealGains(g, ideal, n, p - 1);
      if p <= |ideal| {
        assert ideal[..p] == ideal[..p - 1] + [ideal[p - 1]];
        GainSumSnoc(g, ideal[..p - 1], ideal[p - 1]);
      }
    }
  }

  lemma {:induction false} GainSumGrows(g: real -> real, v: seq<real>, p: nat, q: nat)
    requires IsGain(g) && p <= q <= |v|
    ensures GainSum(g, v[..p]) <= GainSum(g, v[..q])
    decreases q
  {
    if p < q {
      GainSumGrows(g, v, p, q - 1);
      assert v[..q] == v[..q - 1] + [v[q - 1]];
      GainSumSnoc(g, v[..q - 1], v[q - 1]);
      GainNonNegative(g, v[q - 1]);
    }
  }

  lemma GainNonNegative(g: real -> real, x: real)
    requires IsGain(g)
    ensures 0.0 <= g(x)
  {
    assert g(0.0) == 0.0;
    if 0.0 <= x {
      assert g(0.0) <= g(x);
    }
  }

  /** Whatever was retrieved, its first `p` ranks gain no more than the first `p` of the ideal ranking. */
  lemma PrefixDominated(g: real -> real, relevance: Relevance, retrieved: seq<Id>, p: nat)
    requires IsGain(g) && relevance.Valid() && p <= |retrieved|
    ensures Sum(Gains(g, relevance.labels, retrieved), p)
         <= Sum(IdealGains(g, IdealLabels(relevance), |retrieved|), p)
  {
    var ideal := IdealLabels(relevance);
    var first := FirstIds(retrieved, relevance.labels, p);
    IdealLabelsDescend(relevance);
    FirstIdsAreDistinct(retrieved, relevance.labels, p);
    LabelsOfSubset(first, relevance.ids, relevance.labels);
    var v := Labels(first, relevance.labels);
    LargestGainMost(g, v, ideal);
    GainsOfFirstIds(g, relevance.labels, retrieved, p);
    SumOfIdealGains(g, ideal, |retrieved|, p);
    GainSumGrows(g, ideal, |v|, if p < |ideal| then p else |ideal|);
  }

  // ---------------------------------------------------------------- the score

  /** Discounted cumulative gain of the retrieved list. */
  function Dcg(g: real -> real, d: nat -> real, labels: map<Id, real>, retrieved: seq<Id>): real {
    DiscountedSum(Gains(g, labels, retrieved), d, |retrieved|)
  }

  function IdealDcg(g: real -> real, d: nat -> real, relevance: Relevance, k: nat): real {
    DiscountedSum(IdealGains(g, IdealLabels(relevance), k), d, k)
  }

  lemma NonNegativeTerm(g: real -> real, d: nat -> real, ideal: seq<real>, k: nat, i: nat)
    requires IsGain(g) && IsDiscount(d) && i < k
    ensures 0.0 <= IdealGains(g, ideal, k)[i] * d(i)
  {
    if i < |ideal| {
      GainNonNegative(g, ideal[i]);
    }
  }

  /** Padding and cutting further out only adds to the ideal sum. */
  lemma {:induction false} IdealSumGrows(g: real -> real, d: nat -> real, ideal: seq<real>, k: nat, p: nat, q: nat)
    requires IsGain(g) && IsDiscount(d) && p <= q <= k
    ensures DiscountedSum(IdealGains(g, ideal, k), d, p) <= DiscountedSum(IdealGains(g, ideal, k), d, q)
    decreases q
  {
    if p < q {
      IdealSumGrows(g, d, ideal, k, p, q - 1);
      NonNegativeTerm(g, d, ideal, k, q - 1);
    }
  }

  lemma IdealPrefixGrows(g: real -> real, d: nat -> real, ideal: seq<real>, n: nat, k: nat)
    requires IsGain(g) && IsDiscount(d) && n <= k
    ensures DiscountedSum(IdealGains(g, ideal, n), d, n) <= DiscountedSum(IdealGains(g, ideal, k), d, k)
  {
    SamePrefix(IdealGains(g, ideal, n), IdealGains(g, ideal, k), d, n);
    IdealSumGrows(g, d, ideal, k, n, k);
  }

  /** The duplicate-skipping gain of at most `k` retrieved ids never exceeds the ideal one. */
  lemma DcgAtMostIdeal(g: real -> real, d: nat -> real, relevance: Relevance, retrieved: seq<Id>, k: nat)
    requires IsGain(g) && IsDiscount(d) && relevance.Valid() && |retrieved| <= k
    ensures Dcg(g, d, relevance.labels, retrieved) <= IdealDcg(g, d, relevance, k)
  {
    var n := |retrieved|;
    var ideal := IdealLabels(relevance);
    forall p | 0 <= p <= n
      ensures Sum(Gains(g, relevance.labels, retrieved), p) <= Sum(IdealGains(g, ideal, n), p)
    {
      PrefixDominated(g, relevance, retrieved, p);
    }
    DominatedPrefixes(Gains(g, relevance.labels, retrieved), IdealGains(g, ideal, n), d, n);
    assert DiscountedSum(Gains(g, relevance.labels, retrieved), d, n) <= DiscountedSum(IdealGains(g, ideal, n), d, n);
    IdealPrefixGrows(g, d, ideal, n, k);
  }

  lemma {:induction false} DiscountedSumNonNegative(w: seq<real>, d: nat -> real, n: nat)
    requires IsDiscount(d) && n <= |w| && forall i | 0 <= i < n :: 0.0 <= w[i]
    ensures 0.0 <= DiscountedSum(w, d, n)
  {
    if n > 0 {
      DiscountedSumNonNegative(w, d, n - 1);
      assert 0.0 <= w[n - 1] * d(n - 1);
    }
  }

  lemma DcgNonNegative(g: real -> real, d: nat -> real, labels: map<Id, real>, retrieved: seq<Id>)
    requires IsGain(g) && IsDiscount(d)
    ensures 0.0 <= Dcg(g, d, labels, retrieved)
  {
    var w := Gains(g, labels, retrieved);
    forall i | 0 <= i < |w|
      ensures 0.0 <= w[i]
    {
      GainNonNegative(g, RelevanceOf(labels, retrieved[i]));
    }
    DiscountedSumNonNegative(w, d, |w|);
  }

  function NdcgAtK(g: real -> real, d: nat -> real, relevance: Relevance, retrieved: seq<Id>, k: int): real {
    if k <= 0 || IdealDcg(g, d, relevance, k) == 0.0 then 0.0
    else Dcg(g, d, relevance.labels, retrieved) / IdealDcg(g, d, relevance, k)
  }

  lemma NdcgInUnitInterval(g: real -> real, d: nat -> real, relevance: Relevance, retrieved: seq<Id>, k: int)
    requires IsGain(g) && IsDiscount(d) && relevance.Valid() && |retrieved| <= k
    ensures 0.0 <= NdcgAtK(g, d, relevance, retrieved, k) <= 1.0
  {
    if k > 0 {
      DcgAtMostIdeal(g, d, relevance, retrieved, k);
      DcgNonNegative(g, d, relevance.labels, retrieved);
      if IdealDcg(g, d, relevance, k) != 0.0 {
        RatioInUnitInterval(Dcg(g, d, relevance.labels, retrieved), IdealDcg(g, d, relevance, k));
      }
    }
  }

  lemma RatioInUnitInterval(x: real, y: real)
    requires 0.0 <= x <= y && y != 0.0
    ensures 0.0 <= x / y <= 1.0
  {
  }

  /** The bound is met: the ideal ranking itself gains the ideal. */
  lemma IdealRankingAttainsIdeal(g: real -> real, d: nat -> real, relevance: Relevance, retrieved: seq<Id>, k: int)
    requires IsGain(g) && relevance.Valid() && Distinct(retrieved)
    requires 0 < k && |retrieved| == if k < |relevance.ids| then k else |relevance.ids|
    requires |IdealLabels(relevance)| == |relevance.ids|
    requires forall i | 0 <= i < |retrieved| :: RelevanceOf(relevance.labels, retrieved[i]) == IdealLabels(relevance)[i]
    ensures Dcg(g, d, relevance.labels, retrieved) == IdealDcg(g, d, relevance, k)
  {
    var ideal := IdealLabels(relevance);
    var w := Gains(g, relevance.labels, retrieved);
    forall i | 0 <= i < |retrieved|
      ensures w[i] == IdealGains(g, ideal, k)[i]
    {
      assert w[i] == GainAt(g, relevance.labels, retrieved, i);
      assert retrieved[i] !in retrieved[..i];
    }
    SamePrefix(w, IdealGains(g, ideal, k), d, |retrieved|);
    ZeroTail(IdealGains(g, ideal, k), d, |retrieved|, k);
  }

  /** As a score, it is one, unless nothing is relevant. */
  lemma IdealRankingScoresOne(g: real -> real, d: nat -> real, relevance: Relevance, retrieved: seq<Id>, k: int)
    requires IsGain(g) && relevance.Valid() && Distinct(retrieved)
    requires 0 < k && |retrieved| == if k < |relevance.ids| then k else |relevance.ids|
    requires |IdealLabels(relevance)| == |relevance.ids|
    requires forall i | 0 <= i < |retrieved| :: RelevanceOf(relevance.labels, retrieved[i]) == IdealLabels(relevance)[i]
    ensures NdcgAtK(g, d, relevance, retrieved, k) == if IdealDcg(g, d, relevance, k) == 0.0 then 0.0 else 1.0
  {
    IdealRankingAttainsIdeal(g, d, relevance, retrieved, k);
    if IdealDcg(g, d, relevance, k) != 0.0 {
      SelfRatio(IdealDcg(g, d, relevance, k));
    }
  }

  lemma SelfRatio(x: real)
    requires x != 0.0
    ensures x / x == 1.0
  {
  }

  lemma {:induction false} SamePrefix(w: seq<real>, s: seq<real>, d: nat -> real, n: nat)
    requires n <= |w| && n <= |s| && forall i | 0 <= i < n :: w[i] == s[i]
    ensures DiscountedSum(w, d, n) == DiscountedSum(s, d, n)
  {
    if n > 0 {
      SamePrefix(w, s, d, n - 1);
    }
  }

  lemma {:induction false} ZeroTail(s: seq<real>, d: nat -> real, m: nat, n: nat)
    requires m <= n <= |s| && forall i | m <= i < n :: s[i] == 0.0
    ensures DiscountedSum(s, d, n) == DiscountedSum(s, d, m)
    decreases n
  {
    if m < n {
      ZeroTail(s, d, m, n - 1);
    }
  }

  // ---------------------------------------------------------------- computing the score

  /** A label as given: a finite number or not. */
  datatype RawLabel = Finite(value: real) | NotFinite

  /** Missing labels count as one; negative and non-finite ones as zero. */
  function NormalLabel(given: map<Id, RawLabel>, id: Id): real {
    if id !in given then 1.0
    else match given[id]
      case Finite(x) => if x < 0.0 then 0.0 else x
      case NotFinite => 0.0
  }

  method NormalizeRelevance(expectedIds: seq<Id>, given: map<Id, RawLabel>) returns (relevance: Relevance)
    ensures relevance.Valid()
    ensures forall id :: id in relevance.ids <==> id in expectedIds
    ensures forall id | id in expectedIds :: id in relevance.labels && relevance.labels[id] == NormalLabel(given, id)
    ensures forall id | id in expectedIds && id !in given :: relevance.labels[id] == 1.0
    ensures forall id | id in expectedIds && id in given && given[id].Finite? ::
      var x := relevance.labels[id];
      x >= 0.0 && (x == given[id].value || x == 0.0 > given[id].value)
    ensures forall id | id in expectedIds && id in given && given[id].NotFinite? :: relevance.labels[id] == 0.0
  {
    var ids: seq<Id>, labels: map<Id, real> := [], map[];
    for i := 0 to |expectedIds|
      invariant Relevance(ids, labels).Valid()
      invariant forall id :: id in labels <==> id in expectedIds[..i]
      invariant forall id | id in labels :: labels[id] == NormalLabel(given, id)
    {
      var id := expectedIds[i];
      if id !in labels {
        ids := ids + [id];
      }
      labels := labels[id := NormalLabel(given, id)];
      assert expectedIds[..i + 1] == expectedIds[..i] + [id];
    }
    assert expectedIds[..|expectedIds|] == expectedIds;
    relevance := Relevance(ids, labels);
  }

  lemma DiscountedGainIsTerm(g: real -> real, d: nat -> real, x: real, i: nat)
    requires IsGain(g)
    ensures DiscountedGain(g, d, x, i) == g(x) * d(i)
  {
  }

  method ComputeNdcgAtK(g: real -> real, d: nat -> real, retrieved: seq<Id>, relevance: Relevance, k: int)
    returns (ndcg: real)
    requires IsGain(g)
    ensures ndcg == NdcgAtK(g, d, relevance, retrieved, k)
    ensures k > 0 && IdealDcg(g, d, relevance, k) != 0.0 ==>
      ndcg * IdealDcg(g, d, relevance, k) == Dcg(g, d, relevance.labels, retrieved)
    ensures IsDiscount(d) && relevance.Valid() && |retrieved| <= k ==> 0.0 <= ndcg <= 1.0
  {
    if IsDiscount(d) && relevance.Valid() && |retrieved| <= k {
      NdcgInUnitInterval(g, d, relevance, retrieved, k);
    }
    if k <= 0 {
      return 0.0;
    }
    var dcg := ComputeDcg(g, d, relevance.labels, retrieved);
    var idealDcg := ComputeIdealDcg(g, d, relevance, k);
    ndcg := if idealDcg == 0.0 then 0.0 else dcg / idealDcg;
  }

  lemma DcgTerm(g: real -> real, d: nat -> real, labels: map<Id, real>, retrieved: seq<Id>, i: nat)
    requires IsGain(g) && i < |retrieved|
    ensures DiscountedSum(Gains(g, labels, retrieved), d, i + 1) == DiscountedSum(Gains(g, labels, retrieved), d, i)
              + if retrieved[i] in retrieved[..i] then 0.0
                else DiscountedGain(g, d, RelevanceOf(labels, retrieved[i]), i)
  {
    assert Gains(g, labels, retrieved)[i] == GainAt(g, labels, retrieved, i);
    DiscountedGainIsTerm(g, d, RelevanceOf(labels, retrieved[i]), i);
  }

  /** The reduction over the retrieved list, with its growing set of ids seen. */
  method ComputeDcg(g: real -> real, d: nat -> real, labels: map<Id, real>, retrieved: seq<Id>) returns (dcg: real)
    requires IsGain(g)
    ensures dcg == Dcg(g, d, labels, retrieved)
  {
    ghost var gains := Gains(g, labels, retrieved);
    var seen: set<Id> := {};
    dcg := 0.0;
    for i := 0 to |retrieved|
      invariant forall id :: id in seen <==> id in retrieved[..i]
      invariant dcg == DiscountedSum(gains, d, i)
    {
      var id := retrieved[i];
      assert retrieved[..i + 1] == retrieved[..i] + [id];
      DcgTerm(g, d, labels, retrieved, i);
      if id !in seen {
        seen := seen + {id};
        dcg := dcg + DiscountedGain(g, d, RelevanceOf(labels, id), i);
      }
    }
  }

  /** What rank `i` adds to the ideal sum. */
  lemma IdealTerm(g: real -> real, d: nat -> real, ideal: seq<real>, k: nat, i: nat)
    requires IsGain(g) && i < |ideal| && i < k
    ensures DiscountedSum(IdealGains(g, ideal, k), d, i + 1)
         == DiscountedSum(IdealGains(g, ideal, k), d, i) + DiscountedGain(g, d, ideal[i], i)
  {
    DiscountedGainIsTerm(g, d, ideal[i], i);
    assert IdealGains(g, ideal, k)[i] == g(ideal[i]);
  }

  method ComputeIdealDcg(g: real -> real, d: nat -> real, relevance: Relevance, k: nat) returns (idealDcg: real)
    requires IsGain(g)
    ensures idealDcg == IdealDcg(g, d, relevance, k)
  {
    var sorted := SortBy(Labels(relevance.ids, relevance.labels), AtLeast());
    var idealRelevance := if k < |sorted| then sorted[..k] else sorted;
    ghost var gains := IdealGains(g, sorted, k);
    idealDcg := 0.0;
    for i := 0 to |idealRelevance|
      invariant idealDcg == DiscountedSum(gains, d, i)
    {
      IdealTerm(g, d, sorted, k, i);
      idealDcg := idealDcg + DiscountedGain(g, d, idealRelevance[i], i);
    }
    ZeroTail(gains, d, |idealRelevance|, k);
  }

  // ---------------------------------------------------------------- precision and recall

  function Prefix(s: seq<Id>, k: nat): seq<Id> {
    if k < |s| then s[..k] else s
  }

  lemma PrefixPlaces(s: seq<Id>, k: nat)
    ensures |Prefix(s, k)| == if k < |s| then k else |s|
    ensures forall i | 0 <= i < |Prefix(s, k)| :: Prefix(s, k)[i] == s[i]
  {
  }

  /** The distinct expected ids among the first `k` retrieved. */
  function Hits(retrieved: seq<Id>, expected: set<Id>, k: nat): set<Id> {
    set id | id in Prefix(retrieved, k) && id in expected
  }

  lemma {:induction false} DistinctMembers(s: seq<Id>)
    ensures |set id | id in s| <= |s|
  {
    if s != [] {
      DistinctMembers(s[1..]);
      assert (set id | id in s) == {s[0]} + (set id | id in s[1..]);
    }
  }

  /** At most `k` hits, at most as many as are expected, and never fewer for a larger `k`. */
  lemma HitsBounded(retrieved: seq<Id>, expected: set<Id>, j: nat, k: nat)
    requires j <= k
    ensures |Hits(retrieved, expected, k)| <= k
    ensures |Hits(retrieved, expected, k)| <= |expected|
    ensures |Hits(retrieved, expected, j)| <= |Hits(retrieved, expected, k)|
  {
    var members := set id | id in Prefix(retrieved, k);
    DistinctMembers(Prefix(retrieved, k));
    SubsetSize(Hits(retrieved, expected, k), members);
    SubsetSize(Hits(retrieved, expected, k), expected);
    SubsetSize(Hits(retrieved, expected, j), Hits(retrieved, expected, k));
  }

  lemma {:induction false} SubsetSize<T>(a: set<T>, b: set<T>)
    requires a <= b
    ensures |a| <= |b|
  {
    assert b == a + (b - a);
  }

  /** The places before `k` where an expected id is retrieved for the first time. */
  ghost function HitPlaces(retrieved: seq<Id>, expectedIds: seq<Id>, k: nat): set<nat> {
    set i: nat | i < k && i < |retrieved| && retrieved[i] in expectedIds && retrieved[i] !in retrieved[..i]
  }

  ghost predicate IsNewHit(retrieved: seq<Id>, expectedIds: seq<Id>, k: nat) {
    k < |retrieved| && retrieved[k] in expectedIds && retrieved[k] !in retrieved[..k]
  }

  lemma NextHitPlace(retrieved: seq<Id>, expectedIds: seq<Id>, k: nat)
    ensures HitPlaces(retrieved, expectedIds, k + 1)
         == HitPlaces(retrieved, expectedIds, k) + (if IsNewHit(retrieved, expectedIds, k) then {k} else {})
    ensures k !in HitPlaces(retrieved, expectedIds, k)
  {
  }

  lemma NextHit(retrieved: seq<Id>, expectedIds: seq<Id>, expected: set<Id>, k: nat)
    requires forall id :: id in expected <==> id in expectedIds
    ensures Hits(retrieved, expected, k + 1)
         == Hits(retrieved, expected, k) + (if IsNewHit(retrieved, expectedIds, k) then {retrieved[k]} else {})
    ensures IsNewHit(retrieved, expectedIds, k) ==> retrieved[k] !in Hits(retrieved, expected, k)
  {
    if k < |retrieved| {
      assert retrieved[..k + 1] == retrieved[..k] + [retrieved[k]];
      assert Prefix(retrieved, k + 1) == retrieved[..k + 1] && Prefix(retrieved, k) == retrieved[..k];
    } else {
      assert Prefix(retrieved, k + 1) == Prefix(retrieved, k);
    }
  }

  lemma OneMoreMember<T, U>(a: set<T>, x: T, b: set<U>, y: U)
    requires |a| == |b| && x !in a && y !in b
    ensures |a + {x}| == |b + {y}|
  {
  }

  /** There is one hit for each such place. */
  lemma {:induction false} HitsByPlaces(retrieved: seq<Id>, expectedIds: seq<Id>, expected: set<Id>, k: nat)
    requires forall id :: id in expected <==> id in expectedIds
    ensures |Hits(retrieved, expected, k)| == |HitPlaces(retrieved, expectedIds, k)|
  {
    if k > 0 {
      var j := k - 1;
      HitsByPlaces(retrieved, expectedIds, expected, j);
      NextHit(retrieved, expectedIds, expected, j);
      NextHitPlace(retrieved, expectedIds, j);
      if IsNewHit(retrieved, expectedIds, j) {
        OneMoreMember(Hits(retrieved, expected, j), retrieved[j], HitPlaces(retrieved, expectedIds, j), j);
      }
    } else {
      assert Prefix(retrieved, 0) == [];
    }
  }

  datatype PrecisionRecallAtK = PrecisionRecallAtK(precision: real, recall: real, hits: nat, ndcg: real)

  function Ratio(x: nat, y: nat): real {
    if y == 0 then 0.0 else (x as real) / (y as real)
  }

  lemma QuotientMonotone(a: real, b: real, c: real)
    requires 0.0 <= a <= b <= c && 0.0 < c
    ensures 0.0 <= a / c <= b / c <= 1.0
  {
    var inverse := 1.0 / c;
    assert a / c == a * inverse && b / c == b * inverse && c * inverse == 1.0;
    Scale(inverse, 0.0, a);
    Scale(inverse, a, b);
    Scale(inverse, b, c);
  }

  lemma RatioMonotone(x: nat, x': nat, y: nat)
    requires x <= x' <= y
    ensures 0.0 <= Ratio(x, y) <= Ratio(x', y) <= 1.0
  {
    if y != 0 {
      QuotientMonotone(x as real, x' as real, y as real);
    }
  }

  /** What the metrics at one `k` must be. */
  ghost predicate IsMetricAt(g: real -> real, d: nat -> real, expected: set<Id>, relevance: Relevance,
                             retrieved: seq<Id>, k: nat, m: PrecisionRecallAtK)
  {
    && m.hits == |Hits(retrieved, expected, k)| <= k
    && m.hits <= |expected|
    && m.precision == Ratio(m.hits, k) && 0.0 <= m.precision <= 1.0
    && m.recall == Ratio(m.hits, |expected|) && 0.0 <= m.recall <= 1.0
    && m.ndcg == NdcgAtK(g, d, relevance, Prefix(retrieved, k), k) && 0.0 <= m.ndcg <= 1.0
  }

  lemma MetricIsRight(g: real -> real, d: nat -> real, expected: set<Id>, relevance: Relevance,
                      retrieved: seq<Id>, k: nat, m: PrecisionRecallAtK)
    requires m.hits == |Hits(retrieved, expected, k)|
    requires m.precision == Ratio(m.hits, k) && m.recall == Ratio(m.hits, |expected|)
    requires m.ndcg == NdcgAtK(g, d, relevance, Prefix(retrieved, k), k) && 0.0 <= m.ndcg <= 1.0
    ensures IsMetricAt(g, d, expected, relevance, retrieved, k, m)
  {
    HitsBounded(retrieved, expected, k, k);
    RatioMonotone(m.hits, m.hits, k);
    RatioMonotone(m.hits, m.hits, |expected|);
  }

  /** What comes after place `k` does not matter to the metrics at `k`. */
  lemma MetricsDependOnFirst(g: real -> real, d: nat -> real, expected: set<Id>, relevance: Relevance, k: nat,
                             retrieved: seq<Id>, a: PrecisionRecallAtK, other: seq<Id>, b: PrecisionRecallAtK)
    requires k <= |retrieved| && k <= |other| && retrieved[..k] == other[..k]
    requires IsMetricAt(g, d, expected, relevance, retrieved, k, a)
    requires IsMetricAt(g, d, expected, relevance, other, k, b)
    ensures a == b
  {
    PrefixPlaces(retrieved, k);
    PrefixPlaces(other, k);
    forall i | 0 <= i < k
      ensures retrieved[i] == other[i]
    {
      assert retrieved[..k][i] == other[..k][i];
    }
    assert Prefix(retrieved, k) == Prefix(other, k);
  }

  lemma ShareOfHits(share: real, hits: nat, n: nat)
    requires share == Ratio(hits, n) && hits <= n
    ensures share * (n as real) == hits as real
  {
  }

  lemma MetricsGrowWithK(g: real -> real, d: nat -> real, expected: set<Id>, relevance: Relevance,
                         retrieved: seq<Id>, j: nat, k: nat, a: PrecisionRecallAtK, b: PrecisionRecallAtK)
    requires j <= k
    requires IsMetricAt(g, d, expected, relevance, retrieved, j, a)
    requires IsMetricAt(g, d, expected, relevance, retrieved, k, b)
    ensures a.hits <= b.hits && a.recall <= b.recall
  {
    HitsBounded(retrieved, expected, j, k);
    RatioMonotone(a.hits, b.hits, |expected|);
  }

  /** The cut-off rounded down, and no less than zero. */
  function NormalK(k: real): (r: nat)
    ensures if k < 0.0 then r == 0 else r as real <= k < r as real + 1.0
  {
    if k.Floor < 0 then 0 else k.Floor
  }

  function AtMost(): (nat, nat) -> bool {
    (x: nat, y: nat) => x <= y
  }

  method NormalizeKs(ks: seq<real>) returns (normalized: seq<nat>)
    ensures forall i, j | 0 <= i < j < |normalized| :: normalized[i] < normalized[j]
    ensures forall k :: k in normalized <==> exists i :: 0 <= i < |ks| && NormalK(ks[i]) == k
  {
    var seen: set<nat>, distinct: seq<nat> := {}, [];
    for i := 0 to |ks|
      invariant forall k :: k in seen <==> k in distinct
      invariant forall k :: k in distinct <==> exists j :: 0 <= j < i && NormalK(ks[j]) == k
      invariant Distinct(distinct)
    {
      var k := NormalK(ks[i]);
      if k !in seen {
        seen := seen + {k};
        distinct := distinct + [k];
      }
    }
    normalized := SortBy(distinct, AtMost());
    SortByIsSorted(distinct, AtMost());
    SortedDistinct(distinct, normalized);
  }

  lemma SortedDistinct(s: seq<nat>, t: seq<nat>)
    requires Distinct(s) && multiset(s) == multiset(t) && SortedBy(t, AtMost())
    ensures forall i, j | 0 <= i < j < |t| :: t[i] < t[j]
    ensures forall k :: k in t <==> k in s
  {
    PermutationOfDistinct(s, t);
    forall i, j | 0 <= i < j < |t|
      ensures t[i] < t[j]
    {
      assert AtMost()(t[i], t[j]);
    }
  }

  /** The counts, told by the places of the retrieved list. */
  ghost predicate CountedByPlaces(expectedIds: seq<Id>, retrieved: seq<Id>, k: nat, m: PrecisionRecallAtK) {
    && m.hits == |HitPlaces(retrieved, expectedIds, k)|
    && m.precision * (k as real) == m.hits as real
    && m.recall * (|set id | id in expectedIds| as real) == m.hits as real
    && (k == 0 ==> m.precision == 0.0) && (expectedIds == [] ==> m.recall == 0.0)
  }

  lemma CountIsRight(expectedIds: seq<Id>, retrieved: seq<Id>, k: nat, m: PrecisionRecallAtK)
    requires (var expected := set id | id in expectedIds;
      && m.hits == |Hits(retrieved, expected, k)|
      && m.precision == Ratio(m.hits, k) && m.recall == Ratio(m.hits, |expected|))
    ensures CountedByPlaces(expectedIds, retrieved, k, m)
  {
    var expected := set id | id in expectedIds;
    HitsByPlaces(retrieved, expectedIds, expected, k);
    HitsBounded(retrieved, expected, k, k);
    SharesAreRight(m, k, |expected|);
    assert expectedIds == [] ==> expected == {};
  }

  lemma SharesAreRight(m: PrecisionRecallAtK, k: nat, expected: nat)
    requires m.precision == Ratio(m.hits, k) && m.recall == Ratio(m.hits, expected) && m.hits <= k && m.hits <= expected
    ensures m.precision * (k as real) == m.hits as real && m.recall * (expected as real) == m.hits as real
    ensures (k == 0 ==> m.precision == 0.0) && (expected == 0 ==> m.recall == 0.0)
  {
    ShareOfHits(m.precision, m.hits, k);
    ShareOfHits(m.recall, m.hits, expected);
  }

  /** One query's metrics at every requested `k`. */
  method ComputePrecisionRecallAtK(g: real -> real, d: nat -> real, expectedIds: seq<Id>, retrievedIds: seq<Id>,
                                   given: map<Id, RawLabel>, ks: seq<real>)
    returns (at: map<nat, PrecisionRecallAtK>, relevance: Relevance)
    requires IsGain(g) && IsDiscount(d)
    ensures forall k :: k in at <==> exists i :: 0 <= i < |ks| && NormalK(ks[i]) == k
    ensures relevance.Valid()
    ensures forall id | id in expectedIds :: RelevanceOf(relevance.labels, id) == NormalLabel(given, id)
    ensures forall k | k in at ::
              IsMetricAt(g, d, (set id | id in expectedIds), relevance, retrievedIds, k, at[k])
    ensures forall k | k in at :: CountedByPlaces(expectedIds, retrievedIds, k, at[k])
  {
    var expected := set id | id in expectedIds;
    relevance := NormalizeRelevance(expectedIds, given);
    var normalizedKs := NormalizeKs(ks);
    at := map[];
    for i := 0 to |normalizedKs|
      invariant forall k :: k in at <==> k in normalizedKs[..i]
      invariant forall k | k in at :: IsMetricAt(g, d, expected, relevance, retrievedIds, k, at[k])
      invariant forall k | k in at :: CountedByPlaces(expectedIds, retrievedIds, k, at[k])
    {
      var k := normalizedKs[i];
      var retrieved := Prefix(retrievedIds, k);
      var hits := |set id | id in retrieved && id in expected|;
      var ndcg := ComputeNdcgAtK(g, d, retrieved, relevance, k);
      var m := PrecisionRecallAtK(Ratio(hits, k), Ratio(hits, |expected|), hits, ndcg);
      assert (set id | id in retrieved && id in expected) == Hits(retrievedIds, expected, k);
      MetricIsRight(g, d, expected, relevance, retrievedIds, k, m);
      CountIsRight(expectedIds, retrievedIds, k, m);
      at := at[k := m];
      assert normalizedKs[..i + 1] == normalizedKs[..i] + [k];
    }
    assert normalizedKs[..|normalizedKs|] == normalizedKs;
  }
}
