/** What the retrieval drops: results out of scope, of other projects, without facets, or of low quality. */
module RetrievalFilters {
  import opened Common
  import opened Sorting

  datatype Event = Event(
    id: string, sessionId: string, eventType: string, canonicalKey: string, content: string,
    projectHash: string, related: seq<string>)

  datatype Result = Result(
    eventId: string,
    content: string,
    score: real,
    sessionId: string,
    eventType: string,
    graphPath: bool
  )

  datatype Facet = Facet(dimension: string, value: string)

  /** `tagged` is the facet table; `normal` trims a requested facet or finds it malformed. */
  datatype Store = Store(
    events: map<string, Event>,
    tagged: (string, Facet, string) -> bool,
    normal: Facet -> Option<Facet>
  )

  datatype ProjectScope = Global | Prefer | Strict

  /** Empty strings and lists ask for nothing; `admits` stands for the content and metadata conditions. */
  datatype Scope = Scope(
    sessionId: string,
    sessionIdPrefix: string,
    eventTypes: seq<string>,
    canonicalKeyPrefix: string,
    admits: Event -> bool
  )

  datatype Filters = Filters(
    scope: Option<Scope>,
    mode: ProjectScope,
    projectHash: string,
    allowed: seq<string>,
    facets: seq<Facet>
  )

  ghost predicate ValidStore(s: Store) {
    forall id | id in s.events :: s.events[id].id == id
  }

  function Keep(results: seq<Result>, p: Result -> bool): seq<Result> {
    if results == [] then []
    else
      var earlier, r := Keep(results[..|results| - 1], p), results[|results| - 1];
      if p(r) then earlier + [r] else earlier
  }

  lemma {:induction false} KeepMembers(results: seq<Result>, p: Result -> bool)
    ensures forall r :: r in Keep(results, p) <==> r in results && p(r)
    ensures |Keep(results, p)| <= |results|
  {
    if results != [] {
      KeepMembers(results[..|results| - 1], p);
      assert results == results[..|results| - 1] + [results[|results| - 1]];
    }
  }

  lemma KeepNext(results: seq<Result>, i: nat, p: Result -> bool)
    requires i < |results|
    ensures Keep(results[..i + 1], p) == Keep(results[..i], p) + if p(results[i]) then [results[i]] else []
  {
    assert results[..i + 1][..i] == results[..i];
  }

  /** The places of the rows that meet `p`, in order. */
  ghost function PlacesWhere(rows: seq<Result>, p: Result -> bool): (places: seq<nat>)
    ensures forall i, j | 0 <= i < j < |places| :: places[i] < places[j]
    ensures forall k | 0 <= k < |places| :: places[k] < |rows|
    ensures forall i: nat :: i in places <==> i < |rows| && p(rows[i])
  {
    if rows == [] then []
    else
      var n := |rows| - 1;
      var earlier := PlacesWhere(rows[..n], p);
      assert forall i: nat | i < n :: rows[..n][i] == rows[i];
      assert forall i: nat :: i in earlier + [n] <==> i in earlier || i == n;
      if p(rows[n]) then earlier + [n] else earlier
  }

  /** `out` lists the rows at these places. */
  ghost predicate AtPlaces(out: seq<Result>, rows: seq<Result>, places: seq<nat>) {
    |out| == |places| && forall k | 0 <= k < |out| :: places[k] < |rows| && out[k] == rows[places[k]]
  }

  lemma AtPlacesOn(out: seq<Result>, rows: seq<Result>, places: seq<nat>, r: Result)
    requires AtPlaces(out, rows, places)
    ensures AtPlaces(out, rows + [r], places) && AtPlaces(out + [r], rows + [r], places + [|rows|])
  {
  }

  /** What is kept are the rows that meet `p`, all of them, and in their order. */
  lemma {:induction false} KeptAtPlaces(rows: seq<Result>, p: Result -> bool)
    ensures AtPlaces(Keep(rows, p), rows, PlacesWhere(rows, p))
  {
    if rows != [] {
      var n := |rows| - 1;
      var init, last := rows[..n], rows[n];
      KeptAtPlaces(init, p);
      AtPlacesOn(Keep(init, p), init, PlacesWhere(init, p), last);
      assert rows == init + [last];
    }
  }

  lemma {:induction false} KeepSame(rows: seq<Result>, p: Result -> bool, q: Result -> bool)
    requires forall r | r in rows :: p(r) <==> q(r)
    ensures Keep(rows, p) == Keep(rows, q)
  {
    if rows != [] {
      assert rows == rows[..|rows| - 1] + [rows[|rows| - 1]];
      KeepSame(rows[..|rows| - 1], p, q);
    }
  }

  lemma {:induction false} KeepAll(rows: seq<Result>, p: Result -> bool)
    requires forall r | r in rows :: p(r)
    ensures Keep(rows, p) == rows
  {
    if rows != [] {
      assert rows == rows[..|rows| - 1] + [rows[|rows| - 1]];
      KeepAll(rows[..|rows| - 1], p);
    }
  }

  /** Two filters in turn are one. */
  lemma {:induction false} KeepTwice(rows: seq<Result>, p: Result -> bool, q: Result -> bool)
    ensures Keep(Keep(rows, p), q) == Keep(rows, (r: Result) => p(r) && q(r))
  {
    if rows != [] {
      var n := |rows| - 1;
      var earlier, r := Keep(rows[..n], p), rows[n];
      KeepTwice(rows[..n], p, q);
      assert (earlier + [r])[..|earlier|] == earlier;
    }
  }

  // ---------------------------------------------------------------- scope, project and facets

  predicate InScope(r: Result, s: Store, scope: Option<Scope>) {
    && r.eventId in s.events
    && (scope.Some? ==>
          && (scope.value.sessionId != "" ==> r.sessionId == scope.value.sessionId)
          && scope.value.sessionIdPrefix <= r.sessionId
          && (scope.value.eventTypes != [] ==> r.eventType in scope.value.eventTypes)
          && scope.value.canonicalKeyPrefix <= s.events[r.eventId].canonicalKey
          && scope.value.admits(s.events[r.eventId]))
  }

  predicate IsAllowed(hash: string, f: Filters) {
    hash != "" && (hash == f.projectHash || hash in f.allowed)
  }

  predicate AnyAllowed(f: Filters) {
    f.projectHash != "" || exists h :: h in f.allowed && h != ""
  }

  predicate OfProject(r: Result, s: Store, f: Filters) {
    r.eventId in s.events && IsAllowed(s.events[r.eventId].projectHash, f)
  }

  /** Every requested facet is well formed and the event carries it in the caller's project. */
  predicate HasFacets(r: Result, s: Store, f: Filters) {
    forall x :: x in f.facets ==> s.normal(x).Some? && s.tagged(r.eventId, s.normal(x).value, f.projectHash)
  }

  predicate Unfiltered(f: Filters) {
    f.scope == None && f.mode == Global && f.facets == []
  }

  function ProjectFiltered(kept: seq<Result>, s: Store, f: Filters): seq<Result> {
    if f.mode == Global || !AnyAllowed(f) then kept
    else
      var matched := Keep(kept, (r: Result) => OfProject(r, s, f));
      if f.mode == Strict || matched != [] then matched else kept
  }

  function FacetFiltered(results: seq<Result>, s: Store, f: Filters): seq<Result> {
    if f.facets == [] then results
    else if (exists x :: x in f.facets && s.normal(x) == None) || f.projectHash == "" then []
    else Keep(results, (r: Result) => HasFacets(r, s, f))
  }

  function ScopeFiltered(results: seq<Result>, s: Store, f: Filters): seq<Result> {
    if Unfiltered(f) then results
    else FacetFiltered(ProjectFiltered(Keep(results, (r: Result) => InScope(r, s, f.scope)), s, f), s, f)
  }

  /** What the filters promise of every result they let through. */
  predicate Safe(r: Result, s: Store, f: Filters) {
    && (!Unfiltered(f) ==> InScope(r, s, f.scope))
    && (f.mode == Strict && AnyAllowed(f) ==> OfProject(r, s, f))
    && (f.facets != [] ==> f.projectHash != "" && HasFacets(r, s, f))
  }

  /** In strict mode with some project allowed, exactly the results that meet every condition pass. */
  lemma StrictFilterIff(results: seq<Result>, s: Store, f: Filters, r: Result)
    requires f.mode == Strict && AnyAllowed(f)
    ensures r in ScopeFiltered(results, s, f) <==> r in results && Safe(r, s, f)
  {
    var inScope := (x: Result) => InScope(x, s, f.scope);
    var kept := Keep(results, inScope);
    KeepMembers(results, inScope);
    KeepMembers(kept, (x: Result) => OfProject(x, s, f));
    KeepMembers(ProjectFiltered(kept, s, f), (x: Result) => HasFacets(x, s, f));
  }

  /** In every mode what passes comes from the input and is safe. */
  lemma FilterIsSafe(results: seq<Result>, s: Store, f: Filters)
    ensures forall r | r in ScopeFiltered(results, s, f) :: r in results && Safe(r, s, f)
  {
    var inScope := (x: Result) => InScope(x, s, f.scope);
    var kept := Keep(results, inScope);
    KeepMembers(results, inScope);
    KeepMembers(kept, (x: Result) => OfProject(x, s, f));
    KeepMembers(ProjectFiltered(kept, s, f), (x: Result) => HasFacets(x, s, f));
  }

  /**
    What the filters let through: safe results, and where projects are preferred and the scope has some
    result of an allowed one, only such results.
   */
  ghost predicate Lets(r: Result, results: seq<Result>, s: Store, f: Filters) {
    && Safe(r, s, f)
    && (f.mode == Prefer && AnyAllowed(f) && (exists x :: x in results && InScope(x, s, f.scope) && OfProject(x, s, f))
        ==> OfProject(r, s, f))
  }

  ghost predicate ProjectLets(r: Result, results: seq<Result>, s: Store, f: Filters) {
    && (f.mode == Strict && AnyAllowed(f) ==> OfProject(r, s, f))
    && (f.mode == Prefer && AnyAllowed(f) && (exists x :: x in results && InScope(x, s, f.scope) && OfProject(x, s, f))
        ==> OfProject(r, s, f))
  }

  lemma ProjectFilteredIsKeep(results: seq<Result>, s: Store, f: Filters)
    ensures ProjectFiltered(Keep(results, (r: Result) => InScope(r, s, f.scope)), s, f)
         == Keep(results, (r: Result) => InScope(r, s, f.scope) && ProjectLets(r, results, s, f))
  {
    var inScope, ofProject := (r: Result) => InScope(r, s, f.scope), (r: Result) => OfProject(r, s, f);
    var lets := (r: Result) => InScope(r, s, f.scope) && ProjectLets(r, results, s, f);
    var kept := Keep(results, inScope);
    KeepMembers(results, inScope);
    KeepMembers(kept, ofProject);
    if f.mode == Global || !AnyAllowed(f) || (f.mode == Prefer && Keep(kept, ofProject) == []) {
      if f.mode == Prefer && AnyAllowed(f) {
        assert forall x | x in results && InScope(x, s, f.scope) && OfProject(x, s, f) :: x in Keep(kept, ofProject);
      }
      KeepSame(results, inScope, lets);
    } else {
      KeepTwice(results, inScope, ofProject);
      if f.mode == Prefer {
        assert Keep(kept, ofProject)[0] in Keep(kept, ofProject);
      }
      KeepSame(results, (r: Result) => inScope(r) && ofProject(r), lets);
    }
  }

  lemma FacetFilteredIsKeep(results: seq<Result>, s: Store, f: Filters)
    ensures FacetFiltered(results, s, f)
         == Keep(results, (r: Result) => f.facets != [] ==> f.projectHash != "" && HasFacets(r, s, f))
  {
    var lets := (r: Result) => f.facets != [] ==> f.projectHash != "" && HasFacets(r, s, f);
    if f.facets == [] {
      KeepAll(results, lets);
    } else if (exists x :: x in f.facets && s.normal(x) == None) || f.projectHash == "" {
      KeepMembers(results, lets);
      if Keep(results, lets) != [] {
        assert Keep(results, lets)[0] in Keep(results, lets);
      }
    } else {
      KeepSame(results, (r: Result) => HasFacets(r, s, f), lets);
    }
  }

  /** In every mode exactly those pass, in their order. */
  lemma ScopeFilteredIsKeep(results: seq<Result>, s: Store, f: Filters)
    ensures ScopeFiltered(results, s, f) == Keep(results, (r: Result) => Lets(r, results, s, f))
  {
    var lets := (r: Result) => Lets(r, results, s, f);
    if Unfiltered(f) {
      KeepAll(results, lets);
    } else {
      var inProject := (r: Result) => InScope(r, s, f.scope) && ProjectLets(r, results, s, f);
      var faceted := (r: Result) => f.facets != [] ==> f.projectHash != "" && HasFacets(r, s, f);
      ProjectFilteredIsKeep(results, s, f);
      FacetFilteredIsKeep(Keep(results, inProject), s, f);
      KeepTwice(results, inProject, faceted);
      KeepSame(results, (r: Result) => inProject(r) && faceted(r), lets);
    }
  }

  /** Strict mode with no project named keeps events of every project. */
  lemma StrictNeedsAProject(results: seq<Result>, s: Store, f: Filters, r: Result)
    requires f.mode == Strict && !AnyAllowed(f) && f.facets == []
    ensures r in ScopeFiltered(results, s, f) <==> r in results && InScope(r, s, f.scope)
  {
    KeepMembers(results, (x: Result) => InScope(x, s, f.scope));
  }

  method ApplyScopeFilters(results: seq<Result>, s: Store, f: Filters) returns (out: seq<Result>)
    ensures out == ScopeFiltered(results, s, f)
  {
    if f.scope == None && f.mode == Global && f.facets == [] {
      return results;
    }
    var inScope := (x: Result) => InScope(x, s, f.scope);
    var filtered: seq<Result> := [];
    var i := 0;
    while i < |results|
      invariant 0 <= i <= |results| && filtered == Keep(results[..i], inScope)
    {
      KeepNext(results, i, inScope);
      var matches := MatchesScope(results[i], s, f.scope);
      if matches {
        filtered := filtered + [results[i]];
      }
      i := i + 1;
    }
    assert results[..|results|] == results;
    var scoped := ApplyProjectMode(filtered, s, f);
    out := ApplyFacetFilters(scoped, s, f);
  }

  /** The tests of one result, in their order. */
  method MatchesScope(r: Result, s: Store, scope: Option<Scope>) returns (matches: bool)
    ensures matches <==> InScope(r, s, scope)
  {
    if scope.Some? && scope.value.sessionId != "" && r.sessionId != scope.value.sessionId {
      return false;
    }
    if scope.Some? && !(scope.value.sessionIdPrefix <= r.sessionId) {
      return false;
    }
    if scope.Some? && scope.value.eventTypes != [] && r.eventType !in scope.value.eventTypes {
      return false;
    }
    if r.eventId !in s.events {
      return false;
    }
    var event := s.events[r.eventId];
    if scope.Some? && !(scope.value.canonicalKeyPrefix <= event.canonicalKey) {
      return false;
    }
    matches := scope == None || scope.value.admits(event);
  }

  method ApplyProjectMode(filtered: seq<Result>, s: Store, f: Filters) returns (scoped: seq<Result>)
    ensures scoped == ProjectFiltered(filtered, s, f)
  {
    var allowed := set h | h in [f.projectHash] + f.allowed && h != "";
    AllowedProjects(allowed, f);
    if f.mode == Global || allowed == {} {
      return filtered;
    }
    var inProject := (r: Result) => r.eventId in s.events && s.events[r.eventId].projectHash in allowed;
    var matched := Keep(filtered, inProject);
    KeepSame(filtered, inProject, (r: Result) => OfProject(r, s, f));
    scoped := if f.mode == Strict || matched != [] then matched else filtered;
  }

  lemma AllowedProjects(allowed: set<string>, f: Filters)
    requires forall h :: h in allowed <==> h in [f.projectHash] + f.allowed && h != ""
    ensures forall h :: h in allowed <==> IsAllowed(h, f)
    ensures allowed != {} <==> AnyAllowed(f)
  {
    if f.projectHash != "" {
      assert f.projectHash in allowed;
    } else if h :| h in f.allowed && h != "" {
      assert h in allowed;
    }
  }

  method ApplyFacetFilters(results: seq<Result>, s: Store, f: Filters) returns (out: seq<Result>)
    ensures out == FacetFiltered(results, s, f)
  {
    if f.facets == [] {
      return results;
    }
    if (exists x :: x in f.facets && s.normal(x) == None) || f.projectHash == "" {
      return [];
    }
    var hasFacets := (r: Result) => HasFacets(r, s, f);
    out := [];
    var i := 0;
    while i < |results|
      invariant 0 <= i <= |results| && out == Keep(results[..i], hasFacets)
    {
      KeepNext(results, i, hasFacets);
      var matchedAll, k := true, 0;
      while k < |f.facets| && matchedAll
        invariant 0 <= k <= |f.facets|
        invariant matchedAll ==>
          forall m | 0 <= m < k ::
            && s.normal(f.facets[m]).Some?
            && s.tagged(results[i].eventId, s.normal(f.facets[m]).value, f.projectHash)
        invariant !matchedAll ==> !HasFacets(results[i], s, f)
      {
        var facet := f.facets[k];
        assert facet in f.facets;
        matchedAll := s.normal(facet).Some? && s.tagged(results[i].eventId, s.normal(facet).value, f.projectHash);
        k := k + 1;
      }
      if matchedAll {
        out := out + [results[i]];
      }
      i := i + 1;
    }
    assert results[..|results|] == results;
  }

  // ---------------------------------------------------------------- quality

  /** The text tests of one query. */
  datatype Quality = Quality(
    currentState: bool, stale: string -> bool, lowSignal: string -> bool, overlaps: string -> bool,
    technical: bool, technicalOverlap: string -> bool)

  function Max(a: real, b: real): real {
    if a < b then b else a
  }

  predicate Passes(r: Result, q: Quality) {
    && !(q.currentState && q.stale(r.content))
    && !q.lowSignal(r.content)
    && (r.graphPath || q.overlaps(r.content))
    && (q.technical ==> r.graphPath || q.technicalOverlap(r.content))
  }

  function Passing(q: Quality): Result -> bool {
    (r: Result) => Passes(r, q)
  }

  function AtLeast(score: real): Result -> bool {
    (r: Result) => r.score >= score
  }

  function QualityFiltered(results: seq<Result>, q: Quality, minScore: real): seq<Result> {
    Cliff(Keep(results, Passing(q)), minScore)
  }

  function Cliff(kept: seq<Result>, minScore: real): seq<Result> {
    if |kept| <= 2 || kept[0].score < 0.8 then kept
    else Keep(kept, AtLeast(Max(minScore, kept[0].score - 0.25)))
  }

  /** The four tests in turn, then the cliff. */
  method ApplyQualityFilters(results: seq<Result>, q: Quality, minScore: real) returns (filtered: seq<Result>)
    ensures filtered == QualityFiltered(results, q, minScore)
  {
    var current := (r: Result) => !(q.currentState && q.stale(r.content));
    var telling := (r: Result) => !q.lowSignal(r.content);
    var onTopic := (r: Result) => r.graphPath || q.overlaps(r.content);
    var technical := (r: Result) => q.technical ==> r.graphPath || q.technicalOverlap(r.content);
    filtered := results;
    if q.currentState {
      filtered := Keep(filtered, current);
    } else {
      KeepAll(results, current);
    }
    filtered := Keep(Keep(filtered, telling), onTopic);
    if q.technical {
      filtered := Keep(filtered, technical);
    } else {
      KeepAll(filtered, technical);
    }
    FourFilters(results, current, telling, onTopic, technical, Passing(q));
    if |filtered| <= 2 || filtered[0].score < 0.8 {
      return;
    }
    var cliffThreshold := Max(minScore, filtered[0].score - 0.25);
    filtered := Keep(filtered, AtLeast(cliffThreshold));
  }

  lemma FourFilters(rows: seq<Result>, a: Result -> bool, b: Result -> bool, c: Result -> bool, d: Result -> bool,
                    all: Result -> bool)
    requires forall r :: all(r) <==> a(r) && b(r) && c(r) && d(r)
    ensures Keep(Keep(Keep(Keep(rows, a), b), c), d) == Keep(rows, all)
  {
    var ab := (r: Result) => a(r) && b(r);
    var abc := (r: Result) => ab(r) && c(r);
    KeepTwice(rows, a, b);
    KeepTwice(rows, ab, c);
    KeepTwice(rows, abc, d);
    KeepSame(rows, (r: Result) => abc(r) && d(r), all);
  }

  ghost function LetThrough(rows: seq<Result>, s: Store, f: Filters): Result -> bool {
    (r: Result) => Lets(r, rows, s, f)
  }

  /** Rows that the filters let through and that pass the tests. */
  ghost function Good(rows: seq<Result>, s: Store, f: Filters, q: Quality): Result -> bool {
    (r: Result) => Lets(r, rows, s, f) && Passes(r, q)
  }

  ghost function GoodAbove(rows: seq<Result>, s: Store, f: Filters, q: Quality, low: real, high: real): Result -> bool {
    (r: Result) => Lets(r, rows, s, f) && Passes(r, q) && r.score >= low && r.score >= high
  }

  /**
    What the filters and the tests leave of `rows`: at the places of the rows that the filters let
    through and that pass, unless there are more than two and the first scores at least 0.8; then
    rows that score less than the minimum, or 0.25 less than the first, are gone.
   */
  ghost predicate IsFiltered(out: seq<Result>, rows: seq<Result>, s: Store, f: Filters, q: Quality, minScore: real) {
    var passed := PlacesWhere(rows, Good(rows, s, f, q));
    if |passed| <= 2 || rows[passed[0]].score < 0.8 then AtPlaces(out, rows, passed)
    else AtPlaces(out, rows, PlacesWhere(rows, GoodAbove(rows, s, f, q, minScore, rows[passed[0]].score - 0.25)))
  }

  lemma PassingKept(rows: seq<Result>, s: Store, f: Filters, q: Quality)
    ensures Keep(ScopeFiltered(rows, s, f), Passing(q)) == Keep(rows, Good(rows, s, f, q))
  {
    var lets := LetThrough(rows, s, f);
    ScopeFilteredIsKeep(rows, s, f);
    KeepSame(rows, (r: Result) => Lets(r, rows, s, f), lets);
    KeepTwice(rows, lets, Passing(q));
    KeepSame(rows, (r: Result) => lets(r) && Passing(q)(r), Good(rows, s, f, q));
  }

  lemma HighKept(rows: seq<Result>, s: Store, f: Filters, q: Quality, low: real, high: real)
    ensures Keep(Keep(rows, Good(rows, s, f, q)), AtLeast(Max(low, high)))
         == Keep(rows, GoodAbove(rows, s, f, q, low, high))
  {
    var good, above := Good(rows, s, f, q), AtLeast(Max(low, high));
    KeepTwice(rows, good, above);
    KeepSame(rows, (r: Result) => good(r) && above(r), GoodAbove(rows, s, f, q, low, high));
  }

  lemma QualityFilteredIsFiltered(rows: seq<Result>, s: Store, f: Filters, q: Quality, minScore: real)
    ensures IsFiltered(QualityFiltered(ScopeFiltered(rows, s, f), q, minScore), rows, s, f, q, minScore)
  {
    PassingKept(rows, s, f, q);
    KeptAtPlaces(rows, Good(rows, s, f, q));
    CliffIsAtPlaces(rows, s, f, q, minScore, Keep(rows, Good(rows, s, f, q)));
  }

  lemma CliffIsAtPlaces(rows: seq<Result>, s: Store, f: Filters, q: Quality, minScore: real, kept: seq<Result>)
    requires kept == Keep(rows, Good(rows, s, f, q)) && AtPlaces(kept, rows, PlacesWhere(rows, Good(rows, s, f, q)))
    ensures IsFiltered(Cliff(kept, minScore), rows, s, f, q, minScore)
  {
    var passed := PlacesWhere(rows, Good(rows, s, f, q));
    if |kept| > 2 && kept[0].score >= 0.8 {
      var high := kept[0].score - 0.25;
      assert kept[0] == rows[passed[0]];
      HighKept(rows, s, f, q, minScore, high);
      KeptAtPlaces(rows, GoodAbove(rows, s, f, q, minScore, high));
    }
  }

  lemma QualityOnlyDrops(results: seq<Result>, q: Quality, minScore: real)
    ensures forall r | r in QualityFiltered(results, q, minScore) :: r in results && Passes(r, q)
  {
    var kept := Keep(results, Passing(q));
    KeepMembers(results, Passing(q));
    if |kept| > 2 && kept[0].score >= 0.8 {
      KeepMembers(kept, AtLeast(Max(minScore, kept[0].score - 0.25)));
    }
  }
}
