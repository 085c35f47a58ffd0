/**
  Fusing a session ranking with a turn ranking by weighted reciprocal ranks, then completing
  the result with siblings of its two best sessions and with one preference candidate.
 */
module HybridRanking {
  import opened Common
  import opened Sorting

  const MARKER := "::turn::"

  // ---------------------------------------------------------------- session ids

  predicate MarkerAt(id: string, i: nat) {
    i + |MARKER| <= |id| && id[i..i + |MARKER|] == MARKER
  }

  /** The first marker from `i` on, or the end. */
  function FirstMarker(id: string, i: nat): (r: nat)
    requires i <= |id|
    ensures i <= r <= |id| && (r < |id| ==> MarkerAt(id, r))
    ensures forall j: nat | i <= j < r :: !MarkerAt(id, j)
    decreases |id| - i
  {
    if i == |id| || MarkerAt(id, i) then i else FirstMarker(id, i + 1)
  }

  function TurnIdToSessionId(id: string): string {
    id[..FirstMarker(id, 0)]
  }

  /** A session id holds no marker, so converting again changes nothing. */
  lemma SessionIdsStay(id: string)
    ensures TurnIdToSessionId(TurnIdToSessionId(id)) == TurnIdToSessionId(id)
  {
    var n := FirstMarker(id, 0);
    var s := id[..n];
    var m := FirstMarker(s, 0);
    if m < |s| {
      assert s[m..m + |MARKER|] == id[m..m + |MARKER|];
      assert MarkerAt(id, m);
    }
  }

  /** The id of a turn converts to that of its session, if the marker between them is the first. */
  lemma TurnBelongsToSession(session: string, turn: string)
    requires forall j | 0 <= j < |session| :: !MarkerAt(session + MARKER, j)
    ensures TurnIdToSessionId(session + MARKER + turn) == session
  {
    var id := session + MARKER + turn;
    forall j: nat | j < |session|
      ensures !MarkerAt(id, j)
    {
      assert !MarkerAt(session + MARKER, j);
      assert id[j..j + |MARKER|] == (session + MARKER)[j..j + |MARKER|];
    }
    assert id[|session|..|session| + |MARKER|] == MARKER;
    assert MarkerAt(id, |session|);
  }

  function SessionIds(ids: seq<string>): seq<string> {
    seq(|ids|, i requires 0 <= i < |ids| => TurnIdToSessionId(ids[i]))
  }

  // ---------------------------------------------------------------- scores

  datatype Entry = Entry(id: string, score: real, firstRank: nat)

  function Increment(weight: real, rank: nat): (share: real)
    requires rank > 0
    ensures share * rank as real == weight
  {
    weight / rank as real
  }

  /** What the first `n` places of a list give to `id`: its weight over the rank, at every place it holds. */
  function Share(ids: seq<string>, weight: real, id: string, n: nat): real
    requires n <= |ids|
  {
    if n == 0 then 0.0
    else Share(ids, weight, id, n - 1) + if ids[n - 1] == id then Increment(weight, n) else 0.0
  }

  /** The first place of `id` among the first `n`, or 0. */
  function FirstRank(ids: seq<string>, id: string, n: nat): nat
    requires n <= |ids|
  {
    if n == 0 then 0
    else
      var r := FirstRank(ids, id, n - 1);
      if r > 0 then r else if ids[n - 1] == id then n else 0
  }

  lemma {:induction false} FirstRankIsFirst(ids: seq<string>, id: string, n: nat)
    requires n <= |ids|
    ensures (var r := FirstRank(ids, id, n);
      && r <= n && (r > 0 ==> ids[r - 1] == id)
      && forall i | 0 <= i < (if r > 0 then r - 1 else n) :: ids[i] != id)
  {
    if n > 0 {
      FirstRankIsFirst(ids, id, n - 1);
    }
  }

  /** The better of two ranks, where 0 is none. */
  function Best(a: nat, b: nat): (rank: nat)
    ensures rank == a || rank == b
    ensures (a > 0 ==> 0 < rank <= a) && (b > 0 ==> 0 < rank <= b)
  {
    if a == 0 then b else if b == 0 || a <= b then a else b
  }

  lemma {:induction false} AbsentSharesNothing(ids: seq<string>, weight: real, id: string, n: nat)
    requires n <= |ids| && FirstRank(ids, id, n) == 0
    ensures Share(ids, weight, id, n) == 0.0
  {
    if n > 0 {
      AbsentSharesNothing(ids, weight, id, n - 1);
    }
  }

  /** An id that holds one place gets the weight over that place. */
  lemma {:induction false} ShareOfOnePlace(ids: seq<string>, weight: real, id: string, n: nat, k: nat)
    requires k < n <= |ids| && ids[k] == id && forall i | 0 <= i < n && ids[i] == id :: i == k
    ensures Share(ids, weight, id, n) * (k + 1) as real == weight
  {
    if n - 1 == k {
      FirstRankIsFirst(ids, id, k);
      AbsentSharesNothing(ids, weight, id, k);
    } else {
      ShareOfOnePlace(ids, weight, id, n - 1, k);
    }
  }

  /** What two stretches of places give an id adds up. */
  lemma {:induction false} SharesAddUp(ids: seq<string>, weight: real, id: string, m: nat, n: nat)
    requires m < n <= |ids| && forall i | m < i < n :: ids[i] != id
    ensures Share(ids, weight, id, n) - Share(ids, weight, id, m)
         == if ids[m] == id then Increment(weight, m + 1) else 0.0
  {
    if m + 1 < n {
      SharesAddUp(ids, weight, id, m, n - 1);
    }
  }

  /** A list, its weight, and how much of it has been counted. */
  datatype Source = Source(ids: seq<string>, weight: real, n: nat)

  /** What both lists give an id: the sum of the shares and the best rank. */
  function FusedEntry(a: Source, b: Source, id: string): Entry
    requires a.n <= |a.ids| && b.n <= |b.ids|
  {
    Entry(id, Share(a.ids, a.weight, id, a.n) + Share(b.ids, b.weight, id, b.n),
          Best(FirstRank(a.ids, id, a.n), FirstRank(b.ids, id, b.n)))
  }

  ghost predicate Fused(scores: map<string, Entry>, a: Source, b: Source)
    requires a.n <= |a.ids| && b.n <= |b.ids|
  {
    && (forall id :: id in scores <==> FirstRank(a.ids, id, a.n) > 0 || FirstRank(b.ids, id, b.n) > 0)
    && (forall id | id in scores :: scores[id] == FusedEntry(a, b, id))
  }

  /** The map after one more place of a list. */
  function Ranked(scores: map<string, Entry>, id: string, increment: real, rank: nat): map<string, Entry> {
    if id !in scores then scores[id := Entry(id, increment, rank)]
    else
      var firstRank := if rank < scores[id].firstRank then rank else scores[id].firstRank;
      scores[id := Entry(id, scores[id].score + increment, firstRank)]
  }

  lemma EntryStep(a: Source, b: Source, id: string)
    requires a.n <= |a.ids| && b.n < |b.ids|
    ensures (var was, now := FusedEntry(a, b, id), FusedEntry(a, b.(n := b.n + 1), id);
      if id != b.ids[b.n] then now == was
      else now == Entry(id, was.score + Increment(b.weight, b.n + 1), Best(was.firstRank, b.n + 1)))
  {
    FirstRankIsFirst(b.ids, id, b.n);
  }

  lemma AbsentEntry(a: Source, b: Source, id: string)
    requires a.n <= |a.ids| && b.n <= |b.ids|
    requires FirstRank(a.ids, id, a.n) == 0 && FirstRank(b.ids, id, b.n) == 0
    ensures FusedEntry(a, b, id) == Entry(id, 0.0, 0)
  {
    AbsentSharesNothing(a.ids, a.weight, id, a.n);
    AbsentSharesNothing(b.ids, b.weight, id, b.n);
  }

  lemma FusedStep(scores: map<string, Entry>, a: Source, b: Source)
    requires a.n <= |a.ids| && b.n < |b.ids| && Fused(scores, a, b)
    ensures Fused(Ranked(scores, b.ids[b.n], Increment(b.weight, b.n + 1), b.n + 1), a, b.(n := b.n + 1))
  {
    var x, next := b.ids[b.n], b.(n := b.n + 1);
    var after := Ranked(scores, x, Increment(b.weight, next.n), next.n);
    forall id | id in after
      ensures after[id] == FusedEntry(a, next, id)
    {
      EntryStep(a, b, id);
      if id !in scores {
        AbsentEntry(a, b, id);
      }
    }
    assert forall id :: id in after <==> id in scores || id == x;
  }

  method AddRankedIds(before: map<string, Entry>, ghost other: Source, ids: seq<string>, weight: real)
    returns (scores: map<string, Entry>)
    requires other.n <= |other.ids| && Fused(before, other, Source(ids, weight, 0))
    ensures Fused(scores, other, Source(ids, weight, |ids|))
  {
    scores := before;
    ghost var counted := Source(ids, weight, 0);
    var i := 0;
    while i < |ids|
      invariant 0 <= i <= |ids| && counted == Source(ids, weight, i) && Fused(scores, other, counted)
    {
      FusedStep(scores, other, counted);
      scores := AddRank(scores, ids[i], Increment(weight, i + 1), i + 1);
      counted := counted.(n := counted.n + 1);
      i := i + 1;
    }
  }

  method AddRank(before: map<string, Entry>, id: string, increment: real, rank: nat)
    returns (scores: map<string, Entry>)
    ensures scores == Ranked(before, id, increment, rank)
  {
    scores := before;
    if id !in scores {
      scores := scores[id := Entry(id, increment, rank)];
      return;
    }
    var existing := scores[id];
    var firstRank := if rank < existing.firstRank then rank else existing.firstRank;
    scores := scores[id := Entry(id, existing.score + increment, firstRank)];
  }

  // ---------------------------------------------------------------- the fused list

  /** Better score first, then better rank, then by the order `le` of ids. */
  predicate Before(x: Entry, y: Entry, le: (string, string) -> bool) {
    if x.score != y.score then x.score > y.score
    else if x.firstRank != y.firstRank then x.firstRank < y.firstRank
    else le(x.id, y.id)
  }

  function Order(le: (string, string) -> bool): (Entry, Entry) -> bool {
    (x: Entry, y: Entry) => Before(x, y, le)
  }

  lemma OrderIsTotal(le: (string, string) -> bool)
    requires TotalPreorder(le)
    ensures TotalPreorder(Order(le))
  {
    var o := Order(le);
    forall x, y
      ensures o(x, y) || o(y, x)
    {
      assert Before(x, y, le) || Before(y, x, le);
    }
    forall x, y, z | o(x, y) && o(y, z)
      ensures o(x, z)
    {
      BeforeTransitive(x, y, z, le);
    }
  }

  lemma BeforeTransitive(x: Entry, y: Entry, z: Entry, le: (string, string) -> bool)
    requires TotalPreorder(le) && Before(x, y, le) && Before(y, z, le)
    ensures Before(x, z, le)
  {
    if x.score == y.score == z.score && x.firstRank == y.firstRank == z.firstRank {
      assert le(x.id, y.id) && le(y.id, z.id);
    }
  }

  ghost predicate Lists(entries: seq<Entry>, scores: map<string, Entry>) {
    && Distinct(entries)
    && forall x :: x in entries <==> (x.id in scores && scores[x.id] == x)
  }

  method Entries(scores: map<string, Entry>) returns (entries: seq<Entry>)
    requires forall id | id in scores :: scores[id].id == id
    ensures Lists(entries, scores)
  {
    var keys := KeysOf(scores);
    entries := seq(|keys|, i requires 0 <= i < |keys| && keys[i] in scores => scores[keys[i]]);
    forall x: Entry | x.id in scores && scores[x.id] == x
      ensures x in entries
    {
      var i :| 0 <= i < |keys| && keys[i] == x.id;
      assert entries[i] == x;
    }
  }

  function Ids(entries: seq<Entry>): seq<string> {
    seq(|entries|, i requires 0 <= i < |entries| => entries[i].id)
  }

  ghost predicate BestFirst(ranked: seq<Entry>, le: (string, string) -> bool) {
    forall i, j | 0 <= i < j < |ranked| :: NotAfter(ranked[i], ranked[j], le)
  }

  ghost predicate NotAfter(x: Entry, y: Entry, le: (string, string) -> bool) {
    && x.score >= y.score
    && (x.score == y.score ==> x.firstRank <= y.firstRank)
    && (x.score == y.score && x.firstRank == y.firstRank ==> le(x.id, y.id))
  }

  /** `ranked` lists the fused entries of both lists, best first. */
  ghost predicate IsFusion(ranked: seq<Entry>, a: Source, b: Source, le: (string, string) -> bool)
    requires a.n <= |a.ids| && b.n <= |b.ids|
  {
    && BestFirst(ranked, le) && Distinct(Ids(ranked))
    && (forall id :: id in Ids(ranked) <==> FirstRank(a.ids, id, a.n) > 0 || FirstRank(b.ids, id, b.n) > 0)
    && (forall i | 0 <= i < |ranked| :: ranked[i] == FusedEntry(a, b, ranked[i].id))
  }

  lemma FusedEitherWay(scores: map<string, Entry>, a: Source, b: Source)
    requires a.n <= |a.ids| && b.n <= |b.ids| && Fused(scores, a, b)
    ensures Fused(scores, b, a)
  {
    forall id | id in scores
      ensures scores[id] == FusedEntry(b, a, id)
    {
      assert FusedEntry(a, b, id) == FusedEntry(b, a, id);
    }
  }

  method Fuse(sessions: seq<string>, sessionWeight: real, turns: seq<string>,
              turnWeight: real, le: (string, string) -> bool)
    returns (ranked: seq<Entry>)
    requires TotalPreorder(le)
    ensures IsFusion(ranked, Source(sessions, sessionWeight, |sessions|), Source(turns, turnWeight, |turns|), le)
  {
    ghost var s, t := Source(sessions, sessionWeight, |sessions|), Source(turns, turnWeight, 0);
    var scores: map<string, Entry> := map[];
    scores := AddRankedIds(scores, t, sessions, sessionWeight);
    FusedEitherWay(scores, t, s);
    scores := AddRankedIds(scores, s, turns, turnWeight);
    var entries := Entries(scores);
    ranked := SortBy(entries, Order(le));
    FusionOf(entries, scores, s, t.(n := |turns|), le);
  }

  /** A listing of the scores names each id once. */
  lemma ListedIds(ranked: seq<Entry>, scores: map<string, Entry>)
    requires Lists(ranked, scores) && forall id | id in scores :: scores[id].id == id
    ensures Distinct(Ids(ranked))
    ensures forall id :: id in Ids(ranked) <==> id in scores
    ensures forall i | 0 <= i < |ranked| :: ranked[i].id in scores && ranked[i] == scores[ranked[i].id]
  {
    assert forall i | 0 <= i < |ranked| :: ranked[i] in ranked;
    forall id | id in scores
      ensures id in Ids(ranked)
    {
      var i :| 0 <= i < |ranked| && ranked[i] == scores[id];
      assert Ids(ranked)[i] == id;
    }
  }

  lemma FusionOf(entries: seq<Entry>, scores: map<string, Entry>, a: Source, b: Source, le: (string, string) -> bool)
    requires a.n <= |a.ids| && b.n <= |b.ids| && TotalPreorder(le)
    requires Fused(scores, a, b) && Lists(entries, scores)
    ensures IsFusion(SortBy(entries, Order(le)), a, b, le)
  {
    var ranked := SortBy(entries, Order(le));
    OrderIsTotal(le);
    SortByIsSorted(entries, Order(le));
    PermutationOfDistinct(entries, ranked);
    ListedIds(ranked, scores);
    SortedIsBestFirst(ranked, le);
  }

  lemma SortedIsBestFirst(ranked: seq<Entry>, le: (string, string) -> bool)
    requires SortedBy(ranked, Order(le))
    ensures BestFirst(ranked, le)
  {
    forall i, j | 0 <= i < j < |ranked|
      ensures NotAfter(ranked[i], ranked[j], le)
    {
      assert Order(le)(ranked[i], ranked[j]);
    }
  }

  // ---------------------------------------------------------------- lists without repeats

  function Unique(s: seq<string>): seq<string> {
    if s == [] then []
    else
      var earlier, x := Unique(s[..|s| - 1]), s[|s| - 1];
      if x in earlier then earlier else earlier + [x]
  }

  /** The members of `s` without repeats, in the order in which they first stand there. */
  ghost predicate AreFirstSeen(u: seq<string>, s: seq<string>) {
    && Distinct(u) && (forall x :: x in u <==> x in s)
    && forall i, j | 0 <= i < j < |u| :: SeenBefore(u[i], u[j], s)
  }

  ghost predicate SeenBefore(x: string, y: string, s: seq<string>) {
    exists k :: 0 <= k < |s| && s[k] == x && y !in s[..k + 1]
  }

  lemma {:induction false} UniqueIsFirstSeen(s: seq<string>)
    ensures AreFirstSeen(Unique(s), s)
  {
    UniqueMembers(s);
    if s != [] {
      var n := |s| - 1;
      var earlier := Unique(s[..n]);
      UniqueIsFirstSeen(s[..n]);
      UniqueMembers(s[..n]);
      forall i, j | 0 <= i < j < |Unique(s)|
        ensures SeenBefore(Unique(s)[i], Unique(s)[j], s)
      {
        if j < |earlier| {
          assert SeenBefore(earlier[i], earlier[j], s[..n]);
          SeenBeforeStays(s, n, earlier[i], earlier[j]);
        } else {
          SeenBeforeTheLast(s, earlier[i]);
        }
      }
    }
  }

  lemma SeenBeforeStays(s: seq<string>, n: nat, x: string, y: string)
    requires n <= |s| && SeenBefore(x, y, s[..n])
    ensures SeenBefore(x, y, s)
  {
    var k :| 0 <= k < n && s[..n][k] == x && y !in s[..n][..k + 1];
    assert s[..n][..k + 1] == s[..k + 1];
  }

  lemma SeenBeforeTheLast(s: seq<string>, x: string)
    requires s != [] && x in s[..|s| - 1] && s[|s| - 1] !in s[..|s| - 1]
    ensures SeenBefore(x, s[|s| - 1], s)
  {
    var k :| 0 <= k < |s| - 1 && s[..|s| - 1][k] == x;
    assert s[..k + 1] <= s[..|s| - 1];
  }

  function Take(s: seq<string>, n: nat): seq<string> {
    if |s| <= n then s else s[..n]
  }

  lemma {:induction false} UniqueMembers(s: seq<string>)
    ensures Distinct(Unique(s)) && |Unique(s)| <= |s|
    ensures forall x :: x in Unique(s) <==> x in s
  {
    if s != [] {
      UniqueMembers(s[..|s| - 1]);
      assert s == s[..|s| - 1] + [s[|s| - 1]];
    }
  }

  lemma {:induction false} UniqueOfDistinct(s: seq<string>)
    requires Distinct(s)
    ensures Unique(s) == s
  {
    if s != [] {
      var n := |s| - 1;
      UniqueOfDistinct(s[..n]);
      assert s == s[..n] + [s[n]] && s[n] !in s[..n];
    }
  }

  lemma {:induction false} UniqueStartsWith(a: seq<string>, b: seq<string>)
    requires Distinct(a)
    ensures a <= Unique(a + b)
  {
    if b == [] {
      assert a + b == a;
      UniqueOfDistinct(a);
    } else {
      var n := |b| - 1;
      UniqueStartsWith(a, b[..n]);
      assert (a + b)[..|a + b| - 1] == a + b[..n];
    }
  }

  /** Session ids without repeats, as both completion steps read them. */
  function Base(ids: seq<string>, topK: nat): seq<string> {
    Take(Unique(SessionIds(ids)), topK)
  }

  ghost predicate AreSessionIds(ids: seq<string>) {
    Distinct(ids) && forall i | 0 <= i < |ids| :: TurnIdToSessionId(ids[i]) == ids[i]
  }

  lemma TakeOfUnique(s: seq<string>, topK: nat)
    ensures Distinct(Take(Unique(s), topK)) && |Take(Unique(s), topK)| <= topK
    ensures forall x | x in Take(Unique(s), topK) :: x in s
  {
    UniqueMembers(s);
  }

  lemma BaseKeeps(ids: seq<string>, topK: nat)
    requires AreSessionIds(ids) && |ids| <= topK
    ensures Base(ids, topK) == ids
  {
    assert SessionIds(ids) == ids;
    UniqueOfDistinct(ids);
  }

  lemma SessionIdsAreSessionIds(ids: seq<string>)
    ensures forall x | x in SessionIds(ids) :: TurnIdToSessionId(x) == x
  {
    forall x | x in SessionIds(ids)
      ensures TurnIdToSessionId(x) == x
    {
      var i :| 0 <= i < |ids| && x == TurnIdToSessionId(ids[i]);
      SessionIdsStay(ids[i]);
    }
  }

  // ---------------------------------------------------------------- completing with siblings

  /**
    What a question needs: which kind it is, its terms, and the terms and preference scores of
    the session memories.  How terms are cut out and scored is left open.
   */
  datatype Preference = Preference(score: int, queryHits: nat, personalSignals: nat)

  datatype Question = Question(
    multiEvidence: bool, singlePreference: bool, hasFixture: bool, terms: seq<string>, preferenceTerms: nat,
    tokens: map<string, seq<string>>, preferences: map<string, Preference>, anchor: string -> bool)

  function CommonTerms(a: seq<string>, b: seq<string>, anchor: string -> bool): (common: seq<string>)
    ensures forall x :: x in common <==> x in a && x in b && anchor(x)
  {
    if a == [] then []
    else
      var rest := CommonTerms(a[1..], b, anchor);
      if a[0] in b && anchor(a[0]) then [a[0]] + rest else rest
  }

  function Hits(terms: seq<string>, tokens: seq<string>): (hits: nat)
    ensures hits == |HitPlaces(terms, tokens)|
  {
    if terms == [] then 0
    else
      var n := |terms| - 1;
      assert HitPlaces(terms, tokens) == HitPlaces(terms[..n], tokens) + if terms[n] in tokens then {n} else {};
      Hits(terms[..n], tokens) + if terms[n] in tokens then 1 else 0
  }

  /** The places of the terms that are among the tokens. */
  ghost function HitPlaces(terms: seq<string>, tokens: seq<string>): set<nat> {
    set i: nat | i < |terms| && terms[i] in tokens
  }

  function AnchorTerms(terms: seq<string>, anchor: string -> bool): seq<string> {
    CommonTerms(terms, terms, anchor)
  }

  function Clamp(low: int, x: int, high: int): int {
    if x < low then low else if x > high then high else x
  }

  /** 45 percent of the common terms, rounded up, between 2 and 10. */
  function MinCommonHits(commonTerms: nat): (hits: nat)
    ensures 2 <= hits <= 10
    ensures hits < 10 ==> 20 * hits >= 9 * commonTerms
    ensures hits > 2 ==> 20 * (hits - 1) < 9 * commonTerms
  {
    Clamp(2, (45 * commonTerms + 99) / 100, 10)
  }

  datatype Sibling = Sibling(id: string, score: real, rank: nat, index: nat)

  /** Rank `0` stands for not being among the retrieved. */
  function SiblingScore(commonHits: nat, queryHits: nat, rank: nat, fallback: nat): (score: real)
    ensures fallback > 0 ==> 1000.0 * ((2 * commonHits + queryHits) as real - score) == Best(rank, fallback) as real
  {
    (commonHits * 2 + queryHits) as real - (if rank == 0 || fallback < rank then fallback else rank) as real / 1000.0
  }

  function Position(ids: seq<string>, id: string): nat {
    FirstRank(ids, id, |ids|)
  }

  predicate IsSibling(q: Question, common: seq<string>, id: string) {
    && id in q.tokens
    && Hits(common, q.tokens[id]) >= MinCommonHits(|common|)
    && Hits(AnchorTerms(q.terms, q.anchor), q.tokens[id]) >= 1
  }

  function SiblingRows(q: Question, common: seq<string>, base: seq<string>,
                       candidates: seq<string>, topK: nat, n: nat): seq<Sibling>
    requires n <= |candidates|
  {
    if n == 0 then []
    else
      var rows, id := SiblingRows(q, common, base, candidates, topK, n - 1), candidates[n - 1];
      if IsSibling(q, common, id) then
        rows + [Sibling(id, SiblingScore(Hits(common, q.tokens[id]), Hits(AnchorTerms(q.terms, q.anchor), q.tokens[id]),
                                         Position(base, id), topK + n), Position(base, id), n)]
      else rows
  }

  /** How many siblings may be promoted: four, but two and one place are kept for others in a short list. */
  function SiblingLimit(topK: nat): (limit: nat)
    ensures 2 <= limit <= 4 && (limit > 2 ==> limit + 3 <= topK) && (limit < 4 ==> topK <= limit + 3)
  {
    Clamp(2, topK - 3, 4)
  }

  predicate SiblingBefore(x: Sibling, y: Sibling) {
    if x.score != y.score then x.score > y.score
    else if x.rank != y.rank then y.rank == 0 || (x.rank != 0 && x.rank < y.rank)
    else x.index <= y.index
  }

  function SiblingIds(rows: seq<Sibling>): seq<string> {
    seq(|rows|, i requires 0 <= i < |rows| => rows[i].id)
  }

  function Without(ids: seq<string>, seeds: seq<string>): seq<string> {
    if ids == [] then []
    else
      var earlier, x := Without(ids[..|ids| - 1], seeds), ids[|ids| - 1];
      if x in seeds then earlier else earlier + [x]
  }

  function SeedTerms(q: Question, base: seq<string>): (terms: seq<string>)
    ensures |terms| <= 12
    ensures forall x | x in terms :: IsSeedTerm(q, base, x)
    ensures |terms| < 12 ==> forall x | IsSeedTerm(q, base, x) :: x in terms
  {
    if |base| < 2 || base[0] !in q.tokens || base[1] !in q.tokens then []
    else Take(CommonTerms(q.tokens[base[0]], q.tokens[base[1]], q.anchor), 12)
  }

  /** A term worth looking for that both of the best two have. */
  ghost predicate IsSeedTerm(q: Question, base: seq<string>, x: string) {
    && |base| >= 2 && base[0] in q.tokens && base[1] in q.tokens
    && x in q.tokens[base[0]] && x in q.tokens[base[1]] && q.anchor(x)
  }

  function Siblings(q: Question, base: seq<string>, candidateIds: seq<string>, topK: nat): seq<string>
    requires |base| >= 2
  {
    var candidates := SiblingCandidates(base, candidateIds);
    var rows := SiblingRows(q, SeedTerms(q, base), base, candidates, topK, |candidates|);
    Take(SiblingIds(SortBy(rows, SiblingBefore)), SiblingLimit(topK))
  }

  function CompleteMultiSessionCandidateSiblings(q: Question, retrieved: seq<string>,
                                                 candidateIds: seq<string>, topK: nat): seq<string>
  {
    var base := Base(retrieved, topK);
    if !q.multiEvidence || !q.hasFixture || |base| < 2 || |SeedTerms(q, base)| < 2 then base
    else
      var siblings := Siblings(q, base, candidateIds, topK);
      if siblings == [] then base else Take(Unique(base[..2] + siblings + base[2..]), topK)
  }

  lemma {:induction false} WithoutMembers(ids: seq<string>, seeds: seq<string>)
    ensures forall x :: x in Without(ids, seeds) <==> x in ids && x !in seeds
  {
    if ids != [] {
      WithoutMembers(ids[..|ids| - 1], seeds);
      assert ids == ids[..|ids| - 1] + [ids[|ids| - 1]];
    }
  }

  /** The members of `all` that are not in `seeds`, in their order. */
  ghost predicate AreOthers(others: seq<string>, all: seq<string>, seeds: seq<string>) {
    && (forall x :: x in others <==> x in all && x !in seeds)
    && Distinct(others) && forall i, j | 0 <= i < j < |others| :: SeenBefore(others[i], others[j], all)
  }

  lemma {:induction false} WithoutAreOthers(ids: seq<string>, seeds: seq<string>)
    requires Distinct(ids)
    ensures AreOthers(Without(ids, seeds), ids, seeds)
  {
    WithoutMembers(ids, seeds);
    if ids != [] {
      var n := |ids| - 1;
      var earlier, all := Without(ids[..n], seeds), Without(ids, seeds);
      WithoutAreOthers(ids[..n], seeds);
      assert ids[n] !in ids[..n];
      forall i, j | 0 <= i < j < |all|
        ensures SeenBefore(all[i], all[j], ids) && all[i] != all[j]
      {
        if j < |earlier| {
          assert SeenBefore(earlier[i], earlier[j], ids[..n]);
          SeenBeforeStays(ids, n, earlier[i], earlier[j]);
        } else {
          SeenBeforeTheLast(ids, earlier[i]);
        }
      }
    }
  }

  /** What a candidate scores as a sibling: the terms it shares, less a thousandth of its place. */
  function ScoreOf(q: Question, base: seq<string>, candidates: seq<string>, topK: nat, id: string): real {
    var tokens := if id in q.tokens then q.tokens[id] else [];
    SiblingScore(Hits(SeedTerms(q, base), tokens), Hits(AnchorTerms(q.terms, q.anchor), tokens),
                 Position(base, id), topK + Position(candidates, id))
  }

  /** The rows are those of the qualifying candidates, each with its score. */
  lemma {:induction false} SiblingRowsAreSiblings(q: Question, base: seq<string>, candidates: seq<string>,
                                                  topK: nat, n: nat)
    requires n <= |candidates| && Distinct(candidates)
    ensures (var rows := SiblingRows(q, SeedTerms(q, base), base, candidates, topK, n);
      && (forall r | r in rows ::
           r.id in candidates[..n] && IsSibling(q, SeedTerms(q, base), r.id)
           && r.score == ScoreOf(q, base, candidates, topK, r.id))
      && (forall x | x in candidates[..n] && IsSibling(q, SeedTerms(q, base), x) :: x in SiblingIds(rows))
      && Distinct(SiblingIds(rows)))
  {
    if n > 0 {
      var id := candidates[n - 1];
      SiblingRowsAreSiblings(q, base, candidates, topK, n - 1);
      assert candidates[..n] == candidates[..n - 1] + [id];
      PositionOf(candidates, n - 1);
      var before := SiblingRows(q, SeedTerms(q, base), base, candidates, topK, n - 1);
      var rows := SiblingRows(q, SeedTerms(q, base), base, candidates, topK, n);
      assert SiblingIds(rows) == SiblingIds(before) + if IsSibling(q, SeedTerms(q, base), id) then [id] else [];
      IdsOfRows(before);
    }
  }

  lemma IdsOfRows(rows: seq<Sibling>)
    ensures forall x :: x in SiblingIds(rows) <==> exists r :: r in rows && r.id == x
  {
    forall r | r in rows
      ensures r.id in SiblingIds(rows)
    {
      var i :| 0 <= i < |rows| && rows[i] == r;
      assert SiblingIds(rows)[i] == r.id;
    }
  }

  lemma PositionOf(ids: seq<string>, k: nat)
    requires k < |ids| && Distinct(ids)
    ensures Position(ids, ids[k]) == k + 1
  {
    FirstRankIsFirst(ids, ids[k], |ids|);
  }

  lemma SiblingBeforeIsTotal()
    ensures TotalPreorder(SiblingBefore)
  {
  }

  /** The candidates other than the seeds, without repeats. */
  function SiblingCandidates(base: seq<string>, candidateIds: seq<string>): seq<string>
    requires |base| >= 2
  {
    Without(Unique(SessionIds(candidateIds)), base[..2])
  }

  /** A candidate that is no seed and has enough terms in common with both seeds and one with the question. */
  ghost predicate Qualifies(q: Question, base: seq<string>, candidateIds: seq<string>, x: string)
    requires |base| >= 2
  {
    && x in SessionIds(candidateIds) && x !in base[..2] && x in q.tokens
    && Hits(SeedTerms(q, base), q.tokens[x]) >= MinCommonHits(|SeedTerms(q, base)|)
    && exists term :: term in q.terms && q.anchor(term) && term in q.tokens[x]
  }

  lemma SiblingsShareATerm(q: Question, common: seq<string>, x: string)
    requires x in q.tokens && Hits(common, q.tokens[x]) >= MinCommonHits(|common|)
    ensures IsSibling(q, common, x) <==> exists term :: term in q.terms && q.anchor(term) && term in q.tokens[x]
  {
    var anchors := AnchorTerms(q.terms, q.anchor);
    if term :| term in q.terms && q.anchor(term) && term in q.tokens[x] {
      var i: nat :| i < |anchors| && anchors[i] == term;
      assert i in HitPlaces(anchors, q.tokens[x]);
    }
    if Hits(anchors, q.tokens[x]) >= 1 {
      var i :| i in HitPlaces(anchors, q.tokens[x]);
      assert anchors[i] in q.terms;
    }
  }

  lemma SiblingsQualify(q: Question, base: seq<string>, candidateIds: seq<string>, x: string)
    requires |base| >= 2
    ensures Qualifies(q, base, candidateIds, x)
      <==> x in SessionIds(candidateIds) && x !in base[..2] && IsSibling(q, SeedTerms(q, base), x)
  {
    if x in q.tokens && Hits(SeedTerms(q, base), q.tokens[x]) >= MinCommonHits(|SeedTerms(q, base)|) {
      SiblingsShareATerm(q, SeedTerms(q, base), x);
    }
  }

  /** The qualifying candidates up to the limit, none that is left out scoring better, best first. */
  ghost predicate AreBestSiblings(siblings: seq<string>, q: Question, base: seq<string>, candidateIds: seq<string>,
                                  topK: nat)
    requires |base| >= 2
  {
    var candidates := SiblingCandidates(base, candidateIds);
    && |siblings| <= SiblingLimit(topK) && Distinct(siblings)
    && (forall x | x in siblings :: Qualifies(q, base, candidateIds, x))
    && (|siblings| < SiblingLimit(topK) ==> forall x | Qualifies(q, base, candidateIds, x) :: x in siblings)
    && (forall y | Qualifies(q, base, candidateIds, y) && y !in siblings ::
         NoneScoresBelow(q, base, candidates, topK, siblings, y))
    && BestScoreFirst(q, base, candidates, topK, siblings)
  }

  ghost predicate NoneScoresBelow(q: Question, base: seq<string>, candidates: seq<string>, topK: nat,
                                  ids: seq<string>, y: string)
  {
    forall x | x in ids :: ScoreOf(q, base, candidates, topK, x) >= ScoreOf(q, base, candidates, topK, y)
  }

  ghost predicate BestScoreFirst(q: Question, base: seq<string>, candidates: seq<string>, topK: nat, ids: seq<string>) {
    forall i, j | 0 <= i < j < |ids| ::
      ScoreOf(q, base, candidates, topK, ids[i]) >= ScoreOf(q, base, candidates, topK, ids[j])
  }

  lemma SiblingCandidatesAre(base: seq<string>, candidateIds: seq<string>)
    requires |base| >= 2
    ensures AreFirstSeen(Unique(SessionIds(candidateIds)), SessionIds(candidateIds))
    ensures AreOthers(SiblingCandidates(base, candidateIds), Unique(SessionIds(candidateIds)), base[..2])
  {
    UniqueIsFirstSeen(SessionIds(candidateIds));
    WithoutAreOthers(Unique(SessionIds(candidateIds)), base[..2]);
  }

  ghost predicate BestRowsFirst(rows: seq<Sibling>) {
    forall i, j | 0 <= i < j < |rows| :: rows[i].score >= rows[j].score
  }

  lemma OneRowOfId(rows: seq<Sibling>, x: Sibling, y: Sibling)
    requires Distinct(SiblingIds(rows)) && x in rows && y in rows && x.id == y.id
    ensures x == y
  {
    var a :| 0 <= a < |rows| && rows[a] == x;
    var b :| 0 <= b < |rows| && rows[b] == y;
    assert SiblingIds(rows)[a] == SiblingIds(rows)[b];
    assert !(a < b) && !(b < a);
  }

  lemma SameIdsDistinct(rows: seq<Sibling>, sorted: seq<Sibling>)
    requires Distinct(SiblingIds(rows)) && Distinct(sorted) && forall r :: r in sorted <==> r in rows
    ensures Distinct(SiblingIds(sorted))
  {
    forall i, j | 0 <= i < j < |sorted|
      ensures SiblingIds(sorted)[i] != SiblingIds(sorted)[j]
    {
      assert sorted[i] in rows && sorted[j] in rows;
      if sorted[i].id == sorted[j].id {
        OneRowOfId(rows, sorted[i], sorted[j]);
      }
    }
  }

  lemma RowsDistinct(rows: seq<Sibling>)
    requires Distinct(SiblingIds(rows))
    ensures Distinct(rows)
  {
    forall i, j | 0 <= i < j < |rows|
      ensures rows[i] != rows[j]
    {
      assert SiblingIds(rows)[i] != SiblingIds(rows)[j];
    }
  }

  /** Sorting rows with distinct ids: the same rows, with distinct ids, a better score first. */
  lemma SortedRows(rows: seq<Sibling>)
    requires Distinct(SiblingIds(rows))
    ensures (var sorted := SortBy(rows, SiblingBefore);
      (forall r :: r in sorted <==> r in rows) && Distinct(SiblingIds(sorted)) && BestRowsFirst(sorted))
  {
    var sorted := SortBy(rows, SiblingBefore);
    SiblingBeforeIsTotal();
    SortByIsSorted(rows, SiblingBefore);
    RowsDistinct(rows);
    PermutationOfDistinct(rows, sorted);
    SameIdsDistinct(rows, sorted);
    forall i, j | 0 <= i < j < |sorted|
      ensures sorted[i].score >= sorted[j].score
    {
      assert SiblingBefore(sorted[i], sorted[j]);
    }
  }

  lemma SiblingsAreBest(q: Question, base: seq<string>, candidateIds: seq<string>, topK: nat)
    requires |base| >= 2
    ensures AreBestSiblings(Siblings(q, base, candidateIds, topK), q, base, candidateIds, topK)
  {
    var candidates, common := SiblingCandidates(base, candidateIds), SeedTerms(q, base);
    var rows := SiblingRows(q, common, base, candidates, topK, |candidates|);
    SiblingCandidatesAre(base, candidateIds);
    SiblingRowsAreSiblings(q, base, candidates, topK, |candidates|);
    assert candidates[..|candidates|] == candidates;
    RowsAreQualifying(q, base, candidateIds, topK, rows);
    SortedRows(rows);
    SortedRowsQualify(q, base, candidateIds, topK, rows, SortBy(rows, SiblingBefore));
    FirstRowsAreBest(q, base, candidateIds, topK, SortBy(rows, SiblingBefore));
  }

  /** One row for each qualifying candidate, with its score. */
  ghost predicate RowsQualify(q: Question, base: seq<string>, candidateIds: seq<string>, topK: nat, rows: seq<Sibling>)
    requires |base| >= 2
  {
    && (forall r | r in rows :: Qualifies(q, base, candidateIds, r.id)
         && r.score == ScoreOf(q, base, SiblingCandidates(base, candidateIds), topK, r.id))
    && (forall x | Qualifies(q, base, candidateIds, x) :: x in SiblingIds(rows))
  }

  lemma RowsAreQualifying(q: Question, base: seq<string>, candidateIds: seq<string>, topK: nat, rows: seq<Sibling>)
    requires |base| >= 2
    requires (var candidates, common := SiblingCandidates(base, candidateIds), SeedTerms(q, base);
      && (forall r | r in rows :: r.id in candidates && IsSibling(q, common, r.id)
           && r.score == ScoreOf(q, base, candidates, topK, r.id))
      && (forall x | x in candidates && IsSibling(q, common, x) :: x in SiblingIds(rows)))
    ensures RowsQualify(q, base, candidateIds, topK, rows)
  {
    SiblingCandidatesAre(base, candidateIds);
    forall x
      ensures Qualifies(q, base, candidateIds, x)
        <==> x in SiblingCandidates(base, candidateIds) && IsSibling(q, SeedTerms(q, base), x)
    {
      SiblingsQualify(q, base, candidateIds, x);
    }
  }

  lemma SortedRowsQualify(q: Question, base: seq<string>, candidateIds: seq<string>, topK: nat,
                          rows: seq<Sibling>, sorted: seq<Sibling>)
    requires |base| >= 2 && RowsQualify(q, base, candidateIds, topK, rows)
    requires forall r :: r in sorted <==> r in rows
    ensures RowsQualify(q, base, candidateIds, topK, sorted)
  {
    IdsOfRows(rows);
    IdsOfRows(sorted);
    forall x | Qualifies(q, base, candidateIds, x)
      ensures x in SiblingIds(sorted)
    {
      var r :| r in rows && r.id == x;
      assert r in sorted;
    }
  }

  lemma FirstRowsAreBest(q: Question, base: seq<string>, candidateIds: seq<string>, topK: nat, sorted: seq<Sibling>)
    requires |base| >= 2 && RowsQualify(q, base, candidateIds, topK, sorted)
    requires Distinct(SiblingIds(sorted)) && BestRowsFirst(sorted)
    ensures AreBestSiblings(Take(SiblingIds(sorted), SiblingLimit(topK)), q, base, candidateIds, topK)
  {
    var first, ids := Take(SiblingIds(sorted), SiblingLimit(topK)), SiblingIds(sorted);
    var candidates := SiblingCandidates(base, candidateIds);
    assert first <= ids;
    forall i | 0 <= i < |ids|
      ensures Qualifies(q, base, candidateIds, ids[i])
      ensures sorted[i].score == ScoreOf(q, base, candidates, topK, ids[i])
    {
      assert sorted[i] in sorted;
    }
    assert BestScoreFirst(q, base, candidates, topK, ids);
    forall y | Qualifies(q, base, candidateIds, y) && y !in first
      ensures NoneScoresBelow(q, base, candidates, topK, first, y)
    {
      LeftOutScoresLess(q, base, candidates, topK, first, ids, y);
    }
  }

  lemma LeftOutScoresLess(q: Question, base: seq<string>, candidates: seq<string>, topK: nat,
                          first: seq<string>, ids: seq<string>, y: string)
    requires first <= ids && y in ids && y !in first && BestScoreFirst(q, base, candidates, topK, ids)
    ensures NoneScoresBelow(q, base, candidates, topK, first, y)
  {
    var j :| 0 <= j < |ids| && ids[j] == y;
    assert forall k | 0 <= k < |first| :: ids[k] == first[k];
    assert j >= |first|;
    forall x | x in first
      ensures ScoreOf(q, base, candidates, topK, x) >= ScoreOf(q, base, candidates, topK, y)
    {
      var i :| 0 <= i < |first| && first[i] == x;
      assert ids[i] == x;
    }
  }

  /** Completion asks for a question of several parts, two seeds and two terms that they have in common. */
  ghost predicate CanComplete(q: Question, retrieved: seq<string>) {
    q.multiEvidence && q.hasFixture && |retrieved| >= 2 && |SeedTerms(q, retrieved)| >= 2
  }

  /** The two best in place, then the siblings, then the others in their order, as far as `topK` reaches. */
  ghost predicate IsSpliced(result: seq<string>, retrieved: seq<string>, siblings: seq<string>, topK: nat)
    requires |retrieved| >= 2
  {
    exists others :: AreOthers(others, retrieved[2..], siblings)
                  && AreFirst(result, retrieved[..2] + siblings + others, topK)
  }

  /** The first `n`, or all if there are fewer. */
  ghost predicate AreFirst(first: seq<string>, s: seq<string>, n: nat) {
    first <= s && |first| == if |s| < n then |s| else n
  }

  ghost predicate IsCompletion(result: seq<string>, q: Question, retrieved: seq<string>, candidateIds: seq<string>,
                               topK: nat)
  {
    if !CanComplete(q, retrieved) then result == retrieved
    else exists siblings ::
      AreBestSiblings(siblings, q, retrieved, candidateIds, topK) && IsSpliced(result, retrieved, siblings, topK)
  }

  /** What completion and backfill leave of a ranking: its two best in place, nothing twice, no more than `topK`. */
  ghost predicate KeepsBestTwo(result: seq<string>, retrieved: seq<string>, topK: nat) {
    && AreSessionIds(result) && |result| <= topK
    && (|retrieved| <= 2 ==> retrieved <= result)
    && (|retrieved| > 2 ==> retrieved[..2] <= result)
  }

  /** Completion promotes the best siblings to just behind the two best. */
  lemma CompletionPromotes(q: Question, retrieved: seq<string>, candidateIds: seq<string>, topK: nat)
    requires AreSessionIds(retrieved) && |retrieved| <= topK
    ensures (var result := CompleteMultiSessionCandidateSiblings(q, retrieved, candidateIds, topK);
      IsCompletion(result, q, retrieved, candidateIds, topK) && KeepsBestTwo(result, retrieved, topK))
  {
    BaseKeeps(retrieved, topK);
    if CanComplete(q, retrieved) {
      var siblings := Siblings(q, retrieved, candidateIds, topK);
      SiblingsAreBest(q, retrieved, candidateIds, topK);
      SessionIdsAreSessionIds(candidateIds);
      assert forall x | x in siblings :: TurnIdToSessionId(x) == x && x !in retrieved[..2];
      SplicedIn(retrieved, siblings, topK);
      SplicedKeepsBestTwo(retrieved, siblings, topK);
      if siblings == [] {
        NoSiblings(retrieved, topK);
      }
    }
  }

  lemma NoSiblings(retrieved: seq<string>, topK: nat)
    requires 2 <= |retrieved| <= topK && Distinct(retrieved)
    ensures Take(Unique(retrieved[..2] + [] + retrieved[2..]), topK) == retrieved
  {
    UniqueOfDistinct(retrieved);
    assert retrieved[..2] + [] + retrieved[2..] == retrieved;
  }

  lemma SplicedKeepsBestTwo(base: seq<string>, siblings: seq<string>, topK: nat)
    requires AreSessionIds(base) && 2 <= |base| <= topK
    requires forall x | x in siblings :: TurnIdToSessionId(x) == x
    ensures KeepsBestTwo(Take(Unique(base[..2] + siblings + base[2..]), topK), base, topK)
  {
    var all := base[..2] + siblings + base[2..];
    assert forall x | x in all :: TurnIdToSessionId(x) == x;
    assert all == base[..2] + (siblings + base[2..]);
    StartsWithTwo(base[..2], siblings + base[2..], topK);
    assert |base| == 2 ==> base[..2] == base;
  }

  lemma StartsWithTwo(two: seq<string>, more: seq<string>, topK: nat)
    requires |two| == 2 <= topK && Distinct(two) && forall x | x in two + more :: TurnIdToSessionId(x) == x
    ensures (var result := Take(Unique(two + more), topK);
      two <= result && AreSessionIds(result) && |result| <= topK)
  {
    TakeOfUnique(two + more, topK);
    UniqueStartsWith(two, more);
  }

  lemma SplicedIn(base: seq<string>, siblings: seq<string>, topK: nat)
    requires Distinct(base) && |base| >= 2 && Distinct(siblings)
    requires forall x | x in siblings :: x !in base[..2]
    ensures IsSpliced(Take(Unique(base[..2] + siblings + base[2..]), topK), base, siblings, topK)
  {
    var head, tail := base[..2] + siblings, base[2..];
    var others := Without(tail, head);
    assert forall x | x in tail :: x !in base[..2];
    HeadDistinct(base[..2], siblings);
    UniqueAppends(head, tail);
    OthersBehind(base[..2], siblings, tail);
    assert AreFirst(Take(head + others, topK), head + others, topK);
  }

  lemma HeadDistinct(a: seq<string>, b: seq<string>)
    requires Distinct(a) && Distinct(b) && forall x | x in b :: x !in a
    ensures Distinct(a + b)
  {
    forall i, j | 0 <= i < j < |a + b|
      ensures (a + b)[i] != (a + b)[j]
    {
      if i < |a| <= j {
        assert b[j - |a|] in b && a[i] in a;
      }
    }
  }

  lemma OthersBehind(seeds: seq<string>, siblings: seq<string>, tail: seq<string>)
    requires Distinct(tail) && forall x | x in tail :: x !in seeds
    ensures AreOthers(Without(tail, seeds + siblings), tail, siblings)
  {
    WithoutAreOthers(tail, seeds + siblings);
  }

  /** Adding members without repeats to a list without repeats adds those that it does not have. */
  lemma {:induction false} UniqueAppends(a: seq<string>, b: seq<string>)
    requires Distinct(a) && Distinct(b)
    ensures Unique(a + b) == a + Without(b, a)
  {
    if b == [] {
      assert a + b == a;
      UniqueOfDistinct(a);
    } else {
      var n := |b| - 1;
      UniqueAppends(a, b[..n]);
      WithoutMembers(b[..n], a);
      assert (a + b)[..|a + b| - 1] == a + b[..n];
      assert b[n] !in b[..n];
    }
  }

  /** Whatever was retrieved stays, unless the list is full; what comes in are qualifying candidates. */
  lemma CompletionKeepsRetrieved(result: seq<string>, q: Question, retrieved: seq<string>, candidateIds: seq<string>,
                                 topK: nat)
    requires |retrieved| <= topK && IsCompletion(result, q, retrieved, candidateIds, topK)
    ensures |result| == topK || forall x | x in retrieved :: x in result
    ensures forall x | x in result && x !in retrieved :: |retrieved| >= 2 && Qualifies(q, retrieved, candidateIds, x)
  {
    if CanComplete(q, retrieved) {
      var siblings :| AreBestSiblings(siblings, q, retrieved, candidateIds, topK)
                   && IsSpliced(result, retrieved, siblings, topK);
      var others :| AreOthers(others, retrieved[2..], siblings)
                 && AreFirst(result, retrieved[..2] + siblings + others, topK);
      SplicedMembers(retrieved, siblings, others);
    }
  }

  lemma SplicedMembers(base: seq<string>, siblings: seq<string>, others: seq<string>)
    requires |base| >= 2 && AreOthers(others, base[2..], siblings)
    ensures forall x :: x in base[..2] + siblings + others <==> x in base || x in siblings
  {
    assert base == base[..2] + base[2..];
  }

  /** A qualifying candidate comes in, unless those in the places for siblings score no worse and no place is left. */
  lemma QualifyingComesIn(result: seq<string>, q: Question, retrieved: seq<string>, candidateIds: seq<string>,
                          topK: nat, x: string)
    requires |retrieved| <= topK && IsCompletion(result, q, retrieved, candidateIds, topK)
    requires CanComplete(q, retrieved) && Qualifies(q, retrieved, candidateIds, x)
    ensures x in result || (
      && (|result| == topK || |result| >= 2 + SiblingLimit(topK))
      && forall i | 2 <= i < |result| && i < 2 + SiblingLimit(topK) ::
           Qualifies(q, retrieved, candidateIds, result[i]) &&
           ScoreOf(q, retrieved, SiblingCandidates(retrieved, candidateIds), topK, result[i])
             >= ScoreOf(q, retrieved, SiblingCandidates(retrieved, candidateIds), topK, x))
  {
    var siblings :| AreBestSiblings(siblings, q, retrieved, candidateIds, topK)
                 && IsSpliced(result, retrieved, siblings, topK);
    SiblingsComeIn(result, retrieved, siblings, topK);
    if x in siblings {
      var i :| 0 <= i < |siblings| && siblings[i] == x;
      assert i + 2 < |result| ==> result[i + 2] == x;
    } else {
      assert NoneScoresBelow(q, retrieved, SiblingCandidates(retrieved, candidateIds), topK, siblings, x);
      assert forall i | 2 <= i < |result| && i < 2 + |siblings| :: result[i] in siblings;
    }
  }

  /** The siblings stand right behind the two best, as far as the list reaches. */
  lemma SiblingsComeIn(result: seq<string>, retrieved: seq<string>, siblings: seq<string>, topK: nat)
    requires |retrieved| >= 2 && IsSpliced(result, retrieved, siblings, topK)
    ensures |result| == topK || |result| >= 2 + |siblings|
    ensures forall i | 2 <= i < |result| && i < 2 + |siblings| :: result[i] == siblings[i - 2]
    ensures forall i | 0 <= i < |siblings| && i + 2 < |result| :: result[i + 2] == siblings[i]
  {
    var others :| AreOthers(others, retrieved[2..], siblings)
               && AreFirst(result, retrieved[..2] + siblings + others, topK);
    var all := retrieved[..2] + siblings + others;
    assert forall i | 0 <= i < |result| :: result[i] == all[i];
  }

  // ---------------------------------------------------------------- backfilling a preference

  ghost predicate IsPreference(q: Question, base: seq<string>, id: string) {
    && id !in base && id in q.preferences
    && q.preferences[id].score >= 6 && q.preferences[id].queryHits >= 1 && q.preferences[id].personalSignals > 0
  }

  datatype Preferred = Preferred(id: string, score: int, index: nat)

  function PreferredRows(q: Question, base: seq<string>, candidates: seq<string>, n: nat): seq<Preferred>
    requires n <= |candidates|
  {
    if n == 0 then []
    else
      var rows, id := PreferredRows(q, base, candidates, n - 1), candidates[n - 1];
      if id !in base && id in q.preferences && q.preferences[id].score >= 6 &&
         q.preferences[id].queryHits >= 1 && q.preferences[id].personalSignals > 0
      then rows + [Preferred(id, q.preferences[id].score, n)] else rows
  }

  predicate PreferredBefore(x: Preferred, y: Preferred) {
    if x.score != y.score then x.score > y.score else x.index <= y.index
  }

  lemma {:induction false} PreferredRowsAre(q: Question, base: seq<string>, candidates: seq<string>, n: nat)
    requires n <= |candidates|
    ensures forall r | r in PreferredRows(q, base, candidates, n) ::
      && IsPreference(q, base, r.id) && r.score == q.preferences[r.id].score
      && 0 < r.index <= n && candidates[r.index - 1] == r.id
    ensures forall k | 0 <= k < n && IsPreference(q, base, candidates[k]) ::
      Preferred(candidates[k], q.preferences[candidates[k]].score, k + 1) in PreferredRows(q, base, candidates, n)
  {
    if n > 0 {
      PreferredRowsAre(q, base, candidates, n - 1);
    }
  }

  /** No candidate preference scores better than `id`, and none before it as well. */
  ghost predicate IsBestPreference(q: Question, base: seq<string>, candidates: seq<string>, id: string) {
    id in candidates && IsPreference(q, base, id) && BestAt(q, base, candidates, id)
  }

  ghost predicate BestAt(q: Question, base: seq<string>, candidates: seq<string>, id: string)
    requires id in q.preferences
  {
    exists at :: 0 <= at < |candidates| && candidates[at] == id &&
      forall k | 0 <= k < |candidates| && IsPreference(q, base, candidates[k]) ::
        if k < at then q.preferences[candidates[k]].score < q.preferences[id].score
        else q.preferences[candidates[k]].score <= q.preferences[id].score
  }

  ghost predicate NoPreference(q: Question, base: seq<string>, candidates: seq<string>) {
    forall k | 0 <= k < |candidates| :: !IsPreference(q, base, candidates[k])
  }

  /** Backfill asks for a question about a preference, a ranking and terms of the question. */
  ghost predicate CanBackfill(q: Question, retrieved: seq<string>) {
    q.singlePreference && q.hasFixture && retrieved != [] && q.preferenceTerms > 0
  }

  /** One best preference is appended where there is one and room for it, and nothing else. */
  ghost predicate IsBackfill(result: seq<string>, q: Question, retrieved: seq<string>, candidateIds: seq<string>,
                             topK: nat)
  {
    var candidates := Unique(SessionIds(candidateIds));
    if !CanBackfill(q, retrieved) || |retrieved| >= topK || NoPreference(q, retrieved, candidates) then
      result == retrieved
    else
      exists id :: IsBestPreference(q, retrieved, candidates, id) && result == retrieved + [id]
  }

  lemma FirstIsBestPreference(q: Question, base: seq<string>, candidates: seq<string>)
    ensures (var rows := PreferredRows(q, base, candidates, |candidates|);
      var sorted := SortBy(rows, PreferredBefore);
      && |sorted| == |rows|
      && (forall r | r in sorted :: r.id !in base)
      && (if sorted == [] then NoPreference(q, base, candidates)
          else !NoPreference(q, base, candidates) && IsBestPreference(q, base, candidates, sorted[0].id)))
  {
    var rows := PreferredRows(q, base, candidates, |candidates|);
    var sorted := SortBy(rows, PreferredBefore);
    PreferredRowsAre(q, base, candidates, |candidates|);
    SortByIsSorted(rows, PreferredBefore);
    forall r
      ensures r in sorted <==> r in rows
    {
      assert r in multiset(sorted) <==> r in multiset(rows);
    }
    if sorted != [] {
      assert sorted[0] in rows;
      FirstScoresBest(q, base, candidates, sorted);
    }
  }

  lemma FirstScoresBest(q: Question, base: seq<string>, candidates: seq<string>, sorted: seq<Preferred>)
    requires sorted != [] && SortedBy(sorted, PreferredBefore)
    requires (var first := sorted[0];
      && 0 < first.index <= |candidates| && candidates[first.index - 1] == first.id
      && first.id in q.preferences && q.preferences[first.id].score == first.score)
    requires forall k | 0 <= k < |candidates| && IsPreference(q, base, candidates[k]) ::
      Preferred(candidates[k], q.preferences[candidates[k]].score, k + 1) in sorted
    ensures BestAt(q, base, candidates, sorted[0].id)
  {
    forall k | 0 <= k < |candidates| && IsPreference(q, base, candidates[k])
      ensures if k < sorted[0].index - 1 then q.preferences[candidates[k]].score < sorted[0].score
              else q.preferences[candidates[k]].score <= sorted[0].score
    {
      var r := Preferred(candidates[k], q.preferences[candidates[k]].score, k + 1);
      var i :| 0 <= i < |sorted| && sorted[i] == r;
      assert i == 0 || PreferredBefore(sorted[0], sorted[i]);
    }
  }

  method BackfillPreferenceCandidates(q: Question, retrieved: seq<string>, candidateIds: seq<string>, topK: nat)
    returns (result: seq<string>)
    requires AreSessionIds(retrieved) && |retrieved| <= topK
    ensures IsBackfill(result, q, retrieved, candidateIds, topK)
  {
    var base := Base(retrieved, topK);
    BaseKeeps(retrieved, topK);
    if !q.singlePreference || !q.hasFixture || base == [] || q.preferenceTerms == 0 {
      return base;
    }
    var candidates := Unique(SessionIds(candidateIds));
    var scored := SortBy(PreferredRows(q, base, candidates, |candidates|), PreferredBefore);
    FirstIsBestPreference(q, base, candidates);
    result := base;
    var promoted, i := 0, 0;
    while i < |scored| && promoted < 1 && |result| < topK
      invariant 0 <= i <= |scored|
      invariant if promoted == 0 then i == 0 && result == base
                else promoted == 1 && |base| < topK && scored != [] && result == base + [scored[0].id]
    {
      if scored[i].id !in result {
        result := result + [scored[i].id];
        promoted := promoted + 1;
      }
      i := i + 1;
    }
    result := Take(result, topK);
  }

  // ---------------------------------------------------------------- the whole

  /** What a retrieval run hands over: what it retrieved and what it considered. */
  datatype Retrieved = Retrieved(ids: seq<string>, candidates: seq<string>)

  /** The sessions considered: those of the turns, then those of the sessions, then the retrieved. */
  function CandidatesOf(session: Retrieved, turn: Retrieved, retrieved: seq<string>): (ids: seq<string>)
    ensures AreFirstSeen(ids, SessionIds(turn.candidates) + session.candidates + retrieved)
  {
    UniqueIsFirstSeen(SessionIds(turn.candidates) + session.candidates + retrieved);
    Unique(SessionIds(turn.candidates) + session.candidates + retrieved)
  }

  /**
    The final list is the fusion's best `topK`, then completed, then backfilled; it names no session
    twice, is no longer than `topK`, and begins with the two best of the fusion.
   */
  method Combine(q: Question, session: Retrieved, sessionWeight: real, turn: Retrieved,
                 turnWeight: real, topK: nat, le: (string, string) -> bool)
    returns (result: seq<string>, ghost ranked: seq<Entry>, ghost completed: seq<string>)
    requires TotalPreorder(le) && topK >= 1
    ensures AreSessionIds(result) && |result| <= topK
    ensures (var s, t := SessionIds(session.ids), SessionIds(turn.ids);
      IsFusion(ranked, Source(s, sessionWeight, |s|), Source(t, turnWeight, |t|), le))
    ensures (var retrieved := Take(Ids(ranked), topK);
      && IsCompletion(completed, q, retrieved, CandidatesOf(session, turn, retrieved), topK)
      && IsBackfill(result, q, completed, CandidatesOf(session, turn, retrieved), topK)
      && KeepsBestTwo(result, retrieved, topK)
      && (|result| == topK || forall x | x in retrieved :: x in result))
  {
    var s, t := SessionIds(session.ids), SessionIds(SessionIds(turn.ids));
    SessionIdsTwice(turn.ids);
    var entries := Fuse(s, sessionWeight, t, turnWeight, le);
    ranked := entries;
    var retrieved := Take(Ids(entries), topK);
    FusedAreSessionIds(entries, s, sessionWeight, t, turnWeight, le, session.ids, turn.ids);
    var candidateIds := CandidatesOf(session, turn, retrieved);
    CompletionPromotes(q, retrieved, candidateIds, topK);
    var withSiblings := CompleteMultiSessionCandidateSiblings(q, retrieved, candidateIds, topK);
    completed := withSiblings;
    CompletionKeepsRetrieved(withSiblings, q, retrieved, candidateIds, topK);
    result := BackfillPreferenceCandidates(q, withSiblings, candidateIds, topK);
    BackfillKeeps(q, withSiblings, candidateIds, topK, result);
  }

  lemma SessionIdsTwice(ids: seq<string>)
    ensures SessionIds(SessionIds(ids)) == SessionIds(ids)
  {
    forall i | 0 <= i < |ids|
      ensures TurnIdToSessionId(TurnIdToSessionId(ids[i])) == TurnIdToSessionId(ids[i])
    {
      SessionIdsStay(ids[i]);
    }
  }

  lemma FusedAreSessionIds(ranked: seq<Entry>, s: seq<string>, sessionWeight: real, t: seq<string>, turnWeight: real,
                           le: (string, string) -> bool, sessionIds: seq<string>, turnIds: seq<string>)
    requires s == SessionIds(sessionIds) && t == SessionIds(turnIds)
    requires IsFusion(ranked, Source(s, sessionWeight, |s|), Source(t, turnWeight, |t|), le)
    ensures AreSessionIds(Ids(ranked))
  {
    SessionIdsAreSessionIds(sessionIds);
    SessionIdsAreSessionIds(turnIds);
    forall i | 0 <= i < |ranked|
      ensures TurnIdToSessionId(Ids(ranked)[i]) == Ids(ranked)[i]
    {
      var id := Ids(ranked)[i];
      assert id in Ids(ranked);
      FirstRankIsFirst(s, id, |s|);
      FirstRankIsFirst(t, id, |t|);
    }
  }

  lemma BackfillKeeps(q: Question, base: seq<string>, candidateIds: seq<string>, topK: nat, result: seq<string>)
    requires AreSessionIds(base) && |base| <= topK && IsBackfill(result, q, base, candidateIds, topK)
    ensures AreSessionIds(result) && |base| <= |result| <= topK && base <= result
  {
    if result != base {
      var id :| IsBestPreference(q, base, Unique(SessionIds(candidateIds)), id) && result == base + [id];
      UniqueMembers(SessionIds(candidateIds));
      SessionIdsAreSessionIds(candidateIds);
    }
  }
}
