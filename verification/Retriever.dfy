/**
  The retrieval pipeline: search, two expansions that pull in linked events, filters, and three
  fallbacks.  Search, reranking and the text tests are left open; what is proved holds whatever
  they return.
 */
module Retriever {
  import opened Common
  import opened Sorting
  import opened RetrievalFilters
  import opened RetrievalExpansion

  // ---------------------------------------------------------------- the pipeline

  /**
    What the pipeline calls: search by strategy, score and session;
    reranking; when to fall back; the summary; the last test.
   */
  datatype Backend = Backend(
    search: (bool, real, string) -> seq<Result>, rerank: seq<Result> -> seq<Result>, needsFallback: seq<Result> -> bool,
    summary: seq<Result>, confident: (seq<Result>, Result) -> bool, sessions: SessionSearch, quality: Quality,
    commandArtifact: bool)

  datatype Options = Options(
    auto: bool, deep: bool, topK: nat, minScore: real, sessionId: string, filters: Filters,
    hybrid: bool, graph: bool, maxHops: nat, hopPenalty: real, rerank: bool)

  datatype Stage = Primary | Deep | ScopeExpanded | Summary

  ghost predicate Delivers(rows: seq<Result>, s: Store, f: Filters, q: Quality) {
    forall r | r in rows :: Safe(r, s, f) && Passes(r, q)
  }

  function Top(rows: seq<Result>, n: nat): seq<Result> {
    if |rows| <= n then rows else rows[..n]
  }

  method FilterAndTest(rows: seq<Result>, s: Store, f: Filters, q: Quality, minScore: real) returns (out: seq<Result>)
    ensures Delivers(out, s, f, q) && forall r | r in out :: r in rows
    ensures IsFiltered(out, rows, s, f, q, minScore)
  {
    var filtered := ApplyScopeFilters(rows, s, f);
    FilterIsSafe(rows, s, f);
    out := ApplyQualityFilters(filtered, q, minScore);
    QualityOnlyDrops(filtered, q, minScore);
    QualityFilteredIsFiltered(rows, s, f, q, minScore);
  }

  /** What the hops along links may make of the rows found. */
  ghost predicate IsHopExpansion(rows: seq<Result>, s: Store, seeds: seq<Result>, maxHops: nat, penalty: real,
                                 limit: nat, le: (string, string) -> bool)
  {
    && |rows| <= limit && DistinctEvents(rows) && SortedBy(rows, ByScore(le))
    && (forall r | r in rows :: ReachedWithin(s, seeds, penalty, r, maxHops))
    && (|rows| < limit ==> forall id | Linked(s, seeds, id, maxHops) :: Names(rows, id))
  }

  /** What a stage knows of its call. */
  datatype Call = Call(deep: bool, minScore: real, sessionId: string, filters: Filters, rerank: bool)

  /** The rows of a stage before any is dropped: those found, expanded as asked, and reranked. */
  ghost predicate AreCandidates(candidates: seq<Result>, s: Store, b: Backend, o: Options, c: Call,
                                le: (string, string) -> bool)
  {
    exists hopped, expanded :: CandidatesVia(hopped, expanded, candidates, s, b, o, c, le)
  }

  ghost predicate CandidatesVia(hopped: seq<Result>, expanded: seq<Result>, candidates: seq<Result>,
                                s: Store, b: Backend, o: Options, c: Call, le: (string, string) -> bool)
  {
    var found := b.search(c.deep, c.minScore, c.sessionId);
    && (if o.graph then IsHopExpansion(hopped, s, found, o.maxHops, o.hopPenalty, o.topK * 4, le)
        else hopped == found)
    && (if o.hybrid then IsSessionExpansion(expanded, s, hopped, b.sessions, o.topK * 4, le) else expanded == hopped)
    && candidates == if c.rerank then b.rerank(expanded) else expanded
  }

  /** The first `topK` of the candidates that the filters and the tests leave. */
  ghost predicate IsTop(top: seq<Result>, candidates: seq<Result>, s: Store, c: Call, q: Quality, topK: nat) {
    exists kept :: IsFiltered(kept, candidates, s, c.filters, q, c.minScore) && AreFirst(top, kept, topK)
  }

  /** The first `n` rows, or all if there are fewer. */
  ghost predicate AreFirst(top: seq<Result>, rows: seq<Result>, n: nat) {
    top <= rows && |top| == if |rows| < n then |rows| else n
  }

  ghost predicate IsStageAnswer(top: seq<Result>, s: Store, b: Backend, o: Options, c: Call,
                                le: (string, string) -> bool)
  {
    exists candidates :: AreCandidates(candidates, s, b, o, c, le) && IsTop(top, candidates, s, c, b.quality, o.topK)
  }

  method RunStage(s: Store, b: Backend, o: Options, c: Call, le: (string, string) -> bool)
    returns (top: seq<Result>, ghost candidates: seq<Result>)
    requires ValidStore(s) && ValidSessions(s, b.sessions) && TotalPreorder(le)
    ensures |top| <= o.topK && Delivers(top, s, c.filters, b.quality)
    ensures AreCandidates(candidates, s, b, o, c, le) && IsTop(top, candidates, s, c, b.quality, o.topK)
  {
    var found := b.search(c.deep, c.minScore, c.sessionId);
    var hopped := found;
    if o.graph {
      hopped := ExpandGraphHops(s, found, o.maxHops, o.hopPenalty, o.topK * 4, le);
    }
    var expanded := hopped;
    if o.hybrid {
      expanded := ExpandSessionEventHybrid(s, hopped, b.sessions, o.topK * 4, le);
    }
    var rows := if c.rerank then b.rerank(expanded) else expanded;
    candidates := rows;
    assert CandidatesVia(hopped, expanded, candidates, s, b, o, c, le);
    var kept := FilterAndTest(rows, s, c.filters, b.quality, c.minScore);
    top := Top(kept, o.topK);
    assert top <= kept;
  }

  /** The summary stage: filtered, expanded within the sessions if asked, and filtered again. */
  ghost predicate IsSummaryAnswer(rows: seq<Result>, s: Store, b: Backend, o: Options, le: (string, string) -> bool) {
    exists first :: IsFiltered(first, b.summary, s, o.filters, b.quality, o.minScore) &&
      if !o.hybrid then rows == first
      else exists expanded ::
        && IsSessionExpansion(expanded, s, first, b.sessions, o.topK * 4, le)
        && IsFiltered(rows, expanded, s, o.filters, b.quality, o.minScore)
  }

  method SummaryStage(s: Store, b: Backend, o: Options, le: (string, string) -> bool) returns (rows: seq<Result>)
    requires ValidStore(s) && ValidSessions(s, b.sessions) && TotalPreorder(le)
    ensures Delivers(rows, s, o.filters, b.quality) && IsSummaryAnswer(rows, s, b, o, le)
  {
    var first := FilterAndTest(b.summary, s, o.filters, b.quality, o.minScore);
    rows := first;
    if o.hybrid {
      var expanded := ExpandSessionEventHybrid(s, first, b.sessions, o.topK * 4, le);
      rows := FilterAndTest(expanded, s, o.filters, b.quality, o.minScore);
    }
  }

  function Widened(f: Filters): Filters {
    f.(scope := None)
  }

  /** How each stage searches. */
  function CallOf(stage: Stage, o: Options): Call {
    match stage
    case Primary => Call(!o.auto && o.deep, o.minScore, o.sessionId, o.filters, o.rerank)
    case Deep => Call(true, o.minScore, o.sessionId, o.filters, o.rerank)
    case _ => Call(true, Max(0.5, o.minScore - 0.15), "", Widened(o.filters), true)
  }

  ghost predicate IsAnswer(rows: seq<Result>, stage: Stage, s: Store, b: Backend, o: Options,
                           le: (string, string) -> bool)
  {
    if stage == Summary then IsSummaryAnswer(rows, s, b, o, le) else IsStageAnswer(rows, s, b, o, CallOf(stage, o), le)
  }

  /** The stages tried, in their order, each with its answer; each but the last called for a fallback. */
  ghost predicate Tried(trace: seq<Stage>, answers: seq<seq<Result>>, s: Store, b: Backend, o: Options,
                        le: (string, string) -> bool)
  {
    && |answers| == |trace| > 0 && InTurn(trace)
    && AreAnswers(answers, trace, s, b, o, le) && NoneSettled(answers[..|trace| - 1], b, o)
  }

  ghost predicate AreAnswers(answers: seq<seq<Result>>, trace: seq<Stage>, s: Store, b: Backend, o: Options,
                             le: (string, string) -> bool)
    requires |answers| == |trace|
  {
    forall i | 0 <= i < |trace| :: IsAnswer(answers[i], trace[i], s, b, o, le)
  }

  ghost predicate NoneSettled(answers: seq<seq<Result>>, b: Backend, o: Options) {
    forall answer | answer in answers :: o.auto && b.needsFallback(answer)
  }

  function StageAt(i: nat): Stage {
    if i == 0 then Primary else if i == 1 then Deep else if i == 2 then ScopeExpanded else Summary
  }

  predicate InTurn(trace: seq<Stage>) {
    trace <= [Primary, Deep, ScopeExpanded, Summary]
  }

  function FiltersOf(stage: Stage, o: Options): Filters {
    if stage == ScopeExpanded then Widened(o.filters) else o.filters
  }

  /** Once the first `n` stages have had their chance: what was tried, and the answer that stands. */
  ghost predicate Stands(answer: seq<Result>, trace: seq<Stage>, answers: seq<seq<Result>>, n: nat,
                         s: Store, b: Backend, o: Options, le: (string, string) -> bool)
  {
    && Tried(trace, answers, s, b, o, le) && answer == answers[|answers| - 1]
    && |trace| <= n && (|trace| < n ==> Settled(answer, b, o))
    && Delivers(answer, s, FiltersOf(trace[|trace| - 1], o), b.quality)
  }

  /** No further stage is called for. */
  predicate Settled(answer: seq<Result>, b: Backend, o: Options) {
    !o.auto || !b.needsFallback(answer)
  }

  /** The confident rows among the first `topK`, in their order. */
  ghost predicate IsSelection(selected: seq<Result>, answer: seq<Result>, b: Backend, topK: nat) {
    exists first :: AreFirst(first, answer, topK)
                 && AtPlaces(selected, first, PlacesWhere(first, Confident(b, answer)))
  }

  function Confident(b: Backend, answer: seq<Result>): Result -> bool {
    (r: Result) => b.confident(answer, r)
  }

  /** A confident row among the first of the last stage's answer is selected. */
  lemma ConfidentIsSelected(selected: seq<Result>, answer: seq<Result>, b: Backend, topK: nat, i: nat)
    requires IsSelection(selected, answer, b, topK)
    requires i < |answer| && i < topK && b.confident(answer, answer[i])
    ensures answer[i] in selected
  {
    var first :| AreFirst(first, answer, topK)
              && AtPlaces(selected, first, PlacesWhere(first, Confident(b, answer)));
    var places := PlacesWhere(first, Confident(b, answer));
    assert first[i] == answer[i] && i in places;
    var k :| 0 <= k < |places| && places[k] == i;
    assert selected[k] == answer[i];
  }

  /**
    A candidate that the filters let through, that passes the tests and that scores near the first is
    in a stage's answer, unless that is full of candidates before it.
   */
  lemma GoodCandidateIsAnswered(top: seq<Result>, candidates: seq<Result>, s: Store, c: Call, q: Quality,
                                topK: nat, i: nat)
    requires IsTop(top, candidates, s, c, q, topK) && i < |candidates|
    requires Lets(candidates[i], candidates, s, c.filters) && Passes(candidates[i], q)
    requires candidates[i].score >= c.minScore
    requires forall x | x in candidates :: candidates[i].score >= x.score - 0.25
    ensures candidates[i] in top || FullOfEarlier(top, candidates, topK, i)
  {
    var kept :| IsFiltered(kept, candidates, s, c.filters, q, c.minScore) && AreFirst(top, kept, topK);
    var places := GoodIsKept(kept, candidates, s, c, q, i);
    PlacedIsFirst(kept, candidates, places, top, topK, i);
  }

  lemma GoodIsKept(kept: seq<Result>, candidates: seq<Result>, s: Store, c: Call, q: Quality, i: nat)
    returns (places: seq<nat>)
    requires IsFiltered(kept, candidates, s, c.filters, q, c.minScore) && i < |candidates|
    requires Lets(candidates[i], candidates, s, c.filters) && Passes(candidates[i], q)
    requires candidates[i].score >= c.minScore
    requires forall x | x in candidates :: candidates[i].score >= x.score - 0.25
    ensures AtPlaces(kept, candidates, places) && i in places
    ensures forall a, b | 0 <= a < b < |places| :: places[a] < places[b]
  {
    var passed := PlacesWhere(candidates, Good(candidates, s, c.filters, q));
    places := passed;
    if |passed| > 2 && candidates[passed[0]].score >= 0.8 {
      assert candidates[passed[0]] in candidates;
      var high := candidates[passed[0]].score - 0.25;
      places := PlacesWhere(candidates, GoodAbove(candidates, s, c.filters, q, c.minScore, high));
    }
  }

  /** The answer is full, and all in it stand before place `i`. */
  ghost predicate FullOfEarlier(top: seq<Result>, candidates: seq<Result>, topK: nat, i: nat)
    requires i < |candidates|
  {
    |top| == topK && forall k | 0 <= k < topK :: top[k] in candidates[..i]
  }

  lemma PlacedIsFirst(kept: seq<Result>, rows: seq<Result>, places: seq<nat>, top: seq<Result>, topK: nat, i: nat)
    requires AtPlaces(kept, rows, places) && i in places && i < |rows| && AreFirst(top, kept, topK)
    requires forall a, b | 0 <= a < b < |places| :: places[a] < places[b]
    ensures rows[i] in top || FullOfEarlier(top, rows, topK, i)
  {
    var m :| 0 <= m < |places| && places[m] == i;
    if m < |top| {
      assert top[m] == rows[i];
    } else {
      forall k | 0 <= k < topK
        ensures top[k] in rows[..i]
      {
        assert top[k] == rows[places[k]] == rows[..i][places[k]];
      }
    }
  }

  lemma OneMoreTried(trace: seq<Stage>, answers: seq<seq<Result>>, s: Store, b: Backend, o: Options,
                     le: (string, string) -> bool, answer: seq<Result>)
    requires Tried(trace, answers, s, b, o, le) && !Settled(answers[|answers| - 1], b, o) && |trace| < 4
    requires IsAnswer(answer, StageAt(|trace|), s, b, o, le)
    ensures Tried(trace + [StageAt(|trace|)], answers + [answer], s, b, o, le)
  {
    MoreAnswers(trace, answers, s, b, o, le, answer, StageAt(|trace|));
    NotSettledYet(answers, b, o, answer);
  }

  lemma MoreAnswers(trace: seq<Stage>, answers: seq<seq<Result>>, s: Store, b: Backend, o: Options,
                    le: (string, string) -> bool, answer: seq<Result>, stage: Stage)
    requires |answers| == |trace| && AreAnswers(answers, trace, s, b, o, le) && IsAnswer(answer, stage, s, b, o, le)
    ensures AreAnswers(answers + [answer], trace + [stage], s, b, o, le)
  {
    forall i | 0 <= i <= |trace|
      ensures IsAnswer((answers + [answer])[i], (trace + [stage])[i], s, b, o, le)
    {
      if i < |trace| {
        assert (answers + [answer])[i] == answers[i] && (trace + [stage])[i] == trace[i];
      }
    }
  }

  lemma NotSettledYet(answers: seq<seq<Result>>, b: Backend, o: Options, answer: seq<Result>)
    requires answers != [] && NoneSettled(answers[..|answers| - 1], b, o) && !Settled(answers[|answers| - 1], b, o)
    ensures NoneSettled((answers + [answer])[..|answers|], b, o)
  {
    assert (answers + [answer])[..|answers|] == answers == answers[..|answers| - 1] + [answers[|answers| - 1]];
  }

  method RunNext(stage: Stage, s: Store, b: Backend, o: Options, le: (string, string) -> bool)
    returns (answer: seq<Result>)
    requires ValidStore(s) && ValidSessions(s, b.sessions) && TotalPreorder(le)
    ensures IsAnswer(answer, stage, s, b, o, le) && Delivers(answer, s, FiltersOf(stage, o), b.quality)
  {
    ghost var candidates;
    match stage {
      case Primary =>
        var deep := if o.auto then false else o.deep;
        answer, candidates := RunStage(s, b, o, Call(deep, o.minScore, o.sessionId, o.filters, o.rerank), le);
      case Deep =>
        answer, candidates := RunStage(s, b, o, Call(true, o.minScore, o.sessionId, o.filters, o.rerank), le);
      case ScopeExpanded =>
        var minScore := Max(0.5, o.minScore - 0.15);
        answer, candidates := RunStage(s, b, o, Call(true, minScore, "", o.filters.(scope := None), true), le);
      case Summary =>
        answer := SummaryStage(s, b, o, le);
    }
  }

  /** Tries the next stage if the last answer calls for it. */
  method FallBack(stage: Stage, current: seq<Result>, before: seq<Stage>, ghost earlier: seq<seq<Result>>, ghost n: nat,
                  s: Store, b: Backend, o: Options, le: (string, string) -> bool)
    returns (answer: seq<Result>, trace: seq<Stage>, ghost answers: seq<seq<Result>>)
    requires ValidStore(s) && ValidSessions(s, b.sessions) && TotalPreorder(le)
    requires 0 < n < 4 && stage == StageAt(n) && Stands(current, before, earlier, n, s, b, o, le)
    ensures InTurn(trace)
    ensures Stands(answer, trace, answers, n + 1, s, b, o, le)
  {
    answer, trace, answers := current, before, earlier;
    if o.auto && b.needsFallback(current) {
      answer := RunNext(stage, s, b, o, le);
      OneMoreTried(before, earlier, s, b, o, le, answer);
      trace, answers := before + [stage], earlier + [answer];
    }
  }

  /**
    The stages that are tried and what each answers; and of the last answer the confident rows: at most
    `topK`, all allowed, and all in the caller's scope unless the scope-expanded stage is the last.
   */
  method Retrieve(s: Store, b: Backend, o: Options, le: (string, string) -> bool)
    returns (selected: seq<Result>, trace: seq<Stage>, ghost answers: seq<seq<Result>>)
    requires ValidStore(s) && ValidSessions(s, b.sessions) && TotalPreorder(le)
    ensures |selected| <= o.topK
    ensures if b.commandArtifact then selected == [] && trace == []
            else
              && Tried(trace, answers, s, b, o, le)
              && (|trace| == 4 || !o.auto || !b.needsFallback(answers[|answers| - 1]))
              && IsSelection(selected, answers[|answers| - 1], b, o.topK)
              && Delivers(selected, s, FiltersOf(trace[|trace| - 1], o), b.quality)
  {
    if b.commandArtifact {
      return [], [], [];
    }
    var current;
    current, trace, answers := TryStages(s, b, o, le);
    selected := Select(current, b, o.topK);
    StandingDelivers(current, trace, answers, selected, s, b, o, le);
  }

  method TryStages(s: Store, b: Backend, o: Options, le: (string, string) -> bool)
    returns (current: seq<Result>, trace: seq<Stage>, ghost answers: seq<seq<Result>>)
    requires ValidStore(s) && ValidSessions(s, b.sessions) && TotalPreorder(le)
    ensures InTurn(trace)
    ensures Stands(current, trace, answers, 4, s, b, o, le)
  {
    current := RunNext(Primary, s, b, o, le);
    trace, answers := [Primary], [current];
    PrimaryStands(current, s, b, o, le);
    current, trace, answers := FallBack(Deep, current, trace, answers, 1, s, b, o, le);
    current, trace, answers := FallBack(ScopeExpanded, current, trace, answers, 2, s, b, o, le);
    current, trace, answers := FallBack(Summary, current, trace, answers, 3, s, b, o, le);
  }

  lemma StandingDelivers(answer: seq<Result>, trace: seq<Stage>, answers: seq<seq<Result>>, selected: seq<Result>,
                         s: Store, b: Backend, o: Options, le: (string, string) -> bool)
    requires Stands(answer, trace, answers, 4, s, b, o, le) && forall r | r in selected :: r in answer
    ensures Delivers(selected, s, FiltersOf(trace[|trace| - 1], o), b.quality)
  {
  }

  lemma PrimaryStands(answer: seq<Result>, s: Store, b: Backend, o: Options, le: (string, string) -> bool)
    requires IsAnswer(answer, Primary, s, b, o, le) && Delivers(answer, s, FiltersOf(Primary, o), b.quality)
    ensures Stands(answer, [Primary], [answer], 1, s, b, o, le)
  {
    assert AreAnswers([answer], [Primary], s, b, o, le);
  }

  method Select(current: seq<Result>, b: Backend, topK: nat) returns (selected: seq<Result>)
    ensures IsSelection(selected, current, b, topK) && |selected| <= topK
    ensures forall r | r in selected :: r in current
  {
    var first := Top(current, topK);
    assert first <= current;
    selected := Keep(first, Confident(b, current));
    KeptAtPlaces(first, Confident(b, current));
    KeepMembers(first, Confident(b, current));
  }
}
