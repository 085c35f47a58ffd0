/** What the retrieval adds: events that results link to, and events of their sessions. */
module RetrievalExpansion {
  import opened Common
  import opened Sorting
  import opened RetrievalFilters

  // ---------------------------------------------------------------- linked events

  predicate Names(seeds: seq<Result>, id: string) {
    exists i :: 0 <= i < |seeds| && seeds[i].eventId == id
  }

  ghost predicate LinksTo(s: Store, x: string, id: string) {
    x in s.events && id in s.events[x].related && id in s.events
  }

  /** Within `h` links of a seed. */
  ghost predicate Linked(s: Store, seeds: seq<Result>, id: string, h: nat)
    decreases h
  {
    if h == 0 then Names(seeds, id)
    else Linked(s, seeds, id, h - 1) || exists x :: Linked(s, seeds, x, h - 1) && LinksTo(s, x, id)
  }

  lemma {:induction false} LinkedGrows(s: Store, seeds: seq<Result>, id: string, h: nat, k: nat)
    requires h <= k && Linked(s, seeds, id, h)
    ensures Linked(s, seeds, id, k)
  {
    if h < k {
      LinkedGrows(s, seeds, id, h, k - 1);
    }
  }

  /** Everything the event links to has a row. */
  ghost predicate Expanded(s: Store, byId: map<string, Result>, x: string) {
    forall id :: LinksTo(s, x, id) ==> id in byId
  }

  /**
    Before hop `h`: rows lead no further than `h - 1` links, and below the
    limit none is missing and all but the frontier are expanded.
   */
  ghost predicate Searched(s: Store, seeds: seq<Result>, byId: map<string, Result>,
                           frontier: seq<Result>, h: nat, limit: nat)
    requires h > 0
  {
    && (forall id | id in byId :: byId[id].eventId == id && Linked(s, seeds, id, h - 1))
    && (forall i | 0 <= i < |frontier| :: frontier[i].eventId in byId)
    && (|byId| < limit ==> forall id :: Linked(s, seeds, id, h - 1) ==> id in byId)
    && (|byId| < limit ==> forall id | id in byId :: Names(frontier, id) || Expanded(s, byId, id))
  }

  /** Where nothing is left to expand, every link has been followed. */
  lemma {:induction false} ClosedCovers(s: Store, seeds: seq<Result>, byId: map<string, Result>, id: string, h: nat)
    requires forall x :: Names(seeds, x) ==> x in byId
    requires forall x | x in byId :: Expanded(s, byId, x)
    requires Linked(s, seeds, id, h)
    ensures id in byId
    decreases h
  {
    if h > 0 && !Linked(s, seeds, id, h - 1) {
      var x :| Linked(s, seeds, x, h - 1) && LinksTo(s, x, id);
      ClosedCovers(s, seeds, byId, x, h - 1);
    } else if h > 0 {
      ClosedCovers(s, seeds, byId, id, h - 1);
    }
  }

  function HopRow(s: Store, id: string, score: real): Result
    requires id in s.events
  {
    var e := s.events[id];
    Result(e.id, e.content, score, e.sessionId, e.eventType, true)
  }

  /** What a row loses by the hop that leads on from it, down to nothing. */
  function HopScore(from: Result, hop: nat, penalty: real): (score: real)
    ensures score >= 0.0 && score >= from.score - penalty * hop as real
    ensures score == 0.0 || score == from.score - penalty * hop as real
  {
    Max(0.0, from.score - penalty * hop as real)
  }

  /** The row that hop `hop` makes of a link from a row of the frontier. */
  ghost predicate FromFrontier(s: Store, frontier: seq<Result>, hop: nat, penalty: real, r: Result) {
    exists f :: f in frontier && LinksTo(s, f.eventId, r.eventId)
             && r == HopRow(s, r.eventId, HopScore(f, hop, penalty))
  }

  /** A seed, or the row that the `h`-th hop makes of a link from a row of the hop before. */
  ghost predicate Reached(s: Store, seeds: seq<Result>, penalty: real, r: Result, h: nat)
    decreases h
  {
    if h == 0 then r in seeds
    else exists f :: Reached(s, seeds, penalty, f, h - 1) && LinksTo(s, f.eventId, r.eventId)
                  && r == HopRow(s, r.eventId, HopScore(f, h, penalty))
  }

  ghost predicate ReachedWithin(s: Store, seeds: seq<Result>, penalty: real, r: Result, hops: nat) {
    exists h: nat :: h <= hops && Reached(s, seeds, penalty, r, h)
  }

  /** Before hop `h`: where the rows come from and what they score. */
  ghost predicate AllReached(s: Store, seeds: seq<Result>, penalty: real, byId: map<string, Result>,
                             frontier: seq<Result>, h: nat)
    requires h > 0
  {
    && (forall id | id in byId :: ReachedWithin(s, seeds, penalty, byId[id], h - 1))
    && (forall f | f in frontier :: Reached(s, seeds, penalty, f, h - 1))
  }

  /** What a hop adds comes from its frontier. */
  ghost predicate AllFromFrontier(s: Store, before: map<string, Result>, frontier: seq<Result>, hop: nat, penalty: real,
                                  byId: map<string, Result>, next: seq<Result>)
  {
    && (forall id | id in byId && id !in before :: FromFrontier(s, frontier, hop, penalty, byId[id]))
    && (forall id | id in byId && id in before :: byId[id] == before[id])
    && (forall r | r in next :: FromFrontier(s, frontier, hop, penalty, r))
  }

  lemma HopReaches(s: Store, seeds: seq<Result>, penalty: real, before: map<string, Result>, frontier: seq<Result>,
                   h: nat, byId: map<string, Result>, next: seq<Result>)
    requires h > 0 && AllReached(s, seeds, penalty, before, frontier, h)
    requires AllFromFrontier(s, before, frontier, h, penalty, byId, next)
    ensures AllReached(s, seeds, penalty, byId, next, h + 1)
  {
    forall r | FromFrontier(s, frontier, h, penalty, r)
      ensures Reached(s, seeds, penalty, r, h)
    {
      var f :| f in frontier && LinksTo(s, f.eventId, r.eventId) && r == HopRow(s, r.eventId, HopScore(f, h, penalty));
      assert Reached(s, seeds, penalty, f, h - 1);
    }
    forall id | id in byId
      ensures ReachedWithin(s, seeds, penalty, byId[id], h)
    {
      if id in before {
        var k: nat :| k <= h - 1 && Reached(s, seeds, penalty, before[id], k);
      } else {
        assert Reached(s, seeds, penalty, byId[id], h);
      }
    }
  }

  method SeedRows(seeds: seq<Result>) returns (byId: map<string, Result>)
    ensures forall id :: id in byId <==> Names(seeds, id)
    ensures forall id | id in byId :: byId[id].eventId == id && byId[id] in seeds
  {
    byId := map[];
    var i := 0;
    while i < |seeds|
      invariant 0 <= i <= |seeds|
      invariant forall id :: id in byId <==> exists k :: 0 <= k < i && seeds[k].eventId == id
      invariant forall id | id in byId :: byId[id].eventId == id && byId[id] in seeds
    {
      byId := byId[seeds[i].eventId := seeds[i]];
      i := i + 1;
    }
  }

  /** Rows added because `x` links to them; each is queued in `next`. */
  ghost predicate GrownFrom(s: Store, x: string, before: map<string, Result>,
                            byId: map<string, Result>, next: seq<Result>)
  {
    && (forall id | id in before :: id in byId && byId[id] == before[id])
    && (forall id | id in byId && id !in before :: LinksTo(s, x, id) && byId[id].eventId == id && Names(next, id))
  }

  ghost predicate AllIn(rows: seq<Result>, byId: map<string, Result>) {
    forall i | 0 <= i < |rows| :: rows[i].eventId in byId
  }

  lemma NamesSnoc(rows: seq<Result>, row: Result)
    ensures forall id :: Names(rows + [row], id) <==> Names(rows, id) || id == row.eventId
  {
    assert forall i | 0 <= i < |rows| :: (rows + [row])[i] == rows[i];
    assert (rows + [row])[|rows|] == row;
  }

  lemma GrowOne(s: Store, x: string, before: map<string, Result>,
                byId: map<string, Result>, next: seq<Result>, row: Result)
    requires GrownFrom(s, x, before, byId, next) && AllIn(next, byId)
    requires LinksTo(s, x, row.eventId) && row.eventId !in byId
    ensures GrownFrom(s, x, before, byId[row.eventId := row], next + [row])
    ensures AllIn(next + [row], byId[row.eventId := row])
  {
    NamesSnoc(next, row);
  }

  /** The rows added for links from `from`, and those queued, all score the same. */
  ghost predicate RowsOfHop(s: Store, from: Result, score: real, before: map<string, Result>,
                            byId: map<string, Result>, queued: seq<Result>, next: seq<Result>)
  {
    && (forall id | id in byId && id !in before :: IsHopRow(s, from, score, byId[id]))
    && (forall r | r in next :: r in queued || IsHopRow(s, from, score, r))
  }

  ghost predicate IsHopRow(s: Store, from: Result, score: real, r: Result) {
    LinksTo(s, from.eventId, r.eventId) && r == HopRow(s, r.eventId, score)
  }

  lemma OneMoreOfHop(s: Store, from: Result, score: real, before: map<string, Result>, byId: map<string, Result>,
                     queued: seq<Result>, next: seq<Result>, id: string)
    requires ValidStore(s) && RowsOfHop(s, from, score, before, byId, queued, next)
    requires LinksTo(s, from.eventId, id)
    ensures (var row := HopRow(s, id, score);
      RowsOfHop(s, from, score, before, byId[id := row], queued, next + [row]))
  {
    assert IsHopRow(s, from, score, HopRow(s, id, score));
  }

  /** The loop over one event's links: adds those without a row, until the limit is met. */
  method ExpandEvent(s: Store, before: map<string, Result>, from: Result, hop: nat,
                     penalty: real, limit: nat, queued: seq<Result>)
    returns (byId: map<string, Result>, next: seq<Result>)
    requires ValidStore(s) && from.eventId in s.events && AllIn(queued, before)
    ensures GrownFrom(s, from.eventId, before, byId, next) && AllIn(next, byId) && queued <= next
    ensures |byId| < limit ==> Expanded(s, byId, from.eventId)
    ensures RowsOfHop(s, from, HopScore(from, hop, penalty), before, byId, queued, next)
  {
    byId, next := before, queued;
    var related := s.events[from.eventId].related;
    var i := 0;
    while i < |related|
      invariant 0 <= i <= |related|
      invariant GrownFrom(s, from.eventId, before, byId, next) && AllIn(next, byId) && queued <= next
      invariant forall k | 0 <= k < i :: related[k] in s.events ==> related[k] in byId
      invariant RowsOfHop(s, from, HopScore(from, hop, penalty), before, byId, queued, next)
    {
      var rid := related[i];
      i := i + 1;
      if rid !in byId && rid in s.events {
        var target, score := s.events[rid], Max(0.0, from.score - penalty * hop as real);
        var row := Result(target.id, target.content, score, target.sessionId, target.eventType, true);
        GrowOne(s, from.eventId, before, byId, next, row);
        OneMoreOfHop(s, from, HopScore(from, hop, penalty), before, byId, queued, next, rid);
        byId := byId[rid := row];
        next := next + [row];
        if |byId| >= limit {
          break;
        }
      }
    }
  }

  /** What one hop has reached: rows of before, and rows linked to them, which are queued. */
  ghost predicate Hopped(s: Store, before: map<string, Result>, byId: map<string, Result>, next: seq<Result>) {
    && (forall id | id in before :: id in byId && byId[id] == before[id])
    && (forall id | id in byId && id !in before ::
          byId[id].eventId == id && Names(next, id) && exists x :: x in before && LinksTo(s, x, id))
    && AllIn(next, byId)
  }

  lemma HoppedOn(s: Store, before: map<string, Result>, byId: map<string, Result>, next: seq<Result>,
                 x: string, byId': map<string, Result>, next': seq<Result>)
    requires Hopped(s, before, byId, next) && x in before && next <= next'
    requires GrownFrom(s, x, byId, byId', next') && AllIn(next', byId')
    ensures Hopped(s, before, byId', next')
  {
    forall id | Names(next, id)
      ensures Names(next', id)
    {
      var i :| 0 <= i < |next| && next[i].eventId == id;
      assert next'[i].eventId == id;
    }
  }

  lemma StaysExpanded(s: Store, byId: map<string, Result>, byId': map<string, Result>, x: string)
    requires Expanded(s, byId, x) && forall id | id in byId :: id in byId'
    ensures Expanded(s, byId', x)
  {
  }

  /** The first `n` of the frontier are expanded. */
  ghost predicate ExpandedUpTo(s: Store, byId: map<string, Result>, frontier: seq<Result>, n: nat)
    requires n <= |frontier|
  {
    forall k | 0 <= k < n :: Expanded(s, byId, frontier[k].eventId)
  }

  lemma AllStayExpanded(s: Store, was: map<string, Result>, byId: map<string, Result>, frontier: seq<Result>, n: nat)
    requires n < |frontier| && ExpandedUpTo(s, was, frontier, n) && forall id | id in was :: id in byId
    requires Expanded(s, byId, frontier[n].eventId)
    ensures ExpandedUpTo(s, byId, frontier, n + 1)
  {
  }

  lemma NothingHopped(s: Store, before: map<string, Result>, frontier: seq<Result>, hop: nat, penalty: real)
    ensures Hopped(s, before, before, []) && AllFromFrontier(s, before, frontier, hop, penalty, before, [])
    ensures ExpandedUpTo(s, before, frontier, 0)
  {
  }

  /** One hop over the frontier. */
  method ExpandFrontier(s: Store, before: map<string, Result>, frontier: seq<Result>,
                        hop: nat, penalty: real, limit: nat)
    returns (byId: map<string, Result>, next: seq<Result>)
    requires ValidStore(s) && AllIn(frontier, before)
    ensures Hopped(s, before, byId, next)
    ensures |byId| < limit ==> ExpandedUpTo(s, byId, frontier, |frontier|)
    ensures |before| <= |byId| && AllFromFrontier(s, before, frontier, hop, penalty, byId, next)
  {
    byId, next := before, [];
    NothingHopped(s, before, frontier, hop, penalty);
    var i := 0;
    while i < |frontier|
      invariant 0 <= i <= |frontier| && Hopped(s, before, byId, next) && |before| <= |byId|
      invariant |byId| < limit ==> ExpandedUpTo(s, byId, frontier, i)
      invariant AllFromFrontier(s, before, frontier, hop, penalty, byId, next)
    {
      assert frontier[i].eventId in before;
      byId, next := ExpandRow(s, before, byId, frontier, i, hop, penalty, limit, next);
      i := i + 1;
      if |byId| >= limit && frontier[i - 1].eventId in s.events {
        break;
      }
    }
  }

  /** One row of the frontier; nothing happens when its event is gone. */
  method ExpandRow(s: Store, ghost before: map<string, Result>, was: map<string, Result>, frontier: seq<Result>,
                   n: nat, hop: nat, penalty: real, limit: nat, queued: seq<Result>)
    returns (byId: map<string, Result>, next: seq<Result>)
    requires ValidStore(s) && n < |frontier| && frontier[n].eventId in before && Hopped(s, before, was, queued)
    requires AllFromFrontier(s, before, frontier, hop, penalty, was, queued)
    ensures Hopped(s, before, byId, next) && |was| <= |byId| && forall id | id in was :: id in byId
    ensures |byId| < limit && ExpandedUpTo(s, was, frontier, n) ==> ExpandedUpTo(s, byId, frontier, n + 1)
    ensures AllFromFrontier(s, before, frontier, hop, penalty, byId, next)
  {
    byId, next := was, queued;
    var f := frontier[n];
    if f.eventId in s.events {
      byId, next := ExpandEvent(s, was, f, hop, penalty, limit, queued);
      HoppedOn(s, before, was, queued, f.eventId, byId, next);
      MoreRows(was, byId);
      MoreFromFrontier(s, before, frontier, n, hop, penalty, was, queued, byId, next);
    }
    if |byId| < limit && ExpandedUpTo(s, was, frontier, n) {
      AllStayExpanded(s, was, byId, frontier, n);
    }
  }

  lemma MoreFromFrontier(s: Store, before: map<string, Result>, frontier: seq<Result>, n: nat, hop: nat, penalty: real,
                         was: map<string, Result>, queued: seq<Result>, byId: map<string, Result>, next: seq<Result>)
    requires n < |frontier| && AllFromFrontier(s, before, frontier, hop, penalty, was, queued)
    requires RowsOfHop(s, frontier[n], HopScore(frontier[n], hop, penalty), was, byId, queued, next)
    requires forall id | id in was :: id in byId && byId[id] == was[id]
    requires forall id | id in before :: id in was
    ensures AllFromFrontier(s, before, frontier, hop, penalty, byId, next)
  {
    var f := frontier[n];
    forall r | IsHopRow(s, f, HopScore(f, hop, penalty), r)
      ensures FromFrontier(s, frontier, hop, penalty, r)
    {
      assert f in frontier;
    }
  }

  lemma MoreRows(a: map<string, Result>, b: map<string, Result>)
    requires forall id | id in a :: id in b
    ensures |a| <= |b|
  {
    assert a.Keys <= b.Keys;
    assert b.Keys == a.Keys + (b.Keys - a.Keys);
    assert |a| == |a.Keys| && |b| == |b.Keys|;
  }

  lemma SearchStarts(s: Store, seeds: seq<Result>, byId: map<string, Result>, limit: nat)
    requires forall id :: id in byId <==> Names(seeds, id)
    requires forall id | id in byId :: byId[id].eventId == id
    ensures Searched(s, seeds, byId, seeds, 1, limit)
  {
    forall i | 0 <= i < |seeds|
      ensures seeds[i].eventId in byId
    {
      assert Names(seeds, seeds[i].eventId);
    }
  }

  lemma HopSearches(s: Store, seeds: seq<Result>, before: map<string, Result>, frontier: seq<Result>,
                    h: nat, limit: nat, byId: map<string, Result>, next: seq<Result>)
    requires h > 0 && Searched(s, seeds, before, frontier, h, limit)
    requires Hopped(s, before, byId, next) && |before| <= |byId|
    requires |byId| < limit ==> ExpandedUpTo(s, byId, frontier, |frontier|)
    ensures Searched(s, seeds, byId, next, h + 1, limit)
  {
    forall id | id in byId
      ensures byId[id].eventId == id && Linked(s, seeds, id, h)
    {
    }
    if |byId| < limit {
      forall id | id in byId
        ensures Names(next, id) || Expanded(s, byId, id)
      {
        BeforeExpanded(s, before, frontier, byId, next, id);
      }
      forall id | Linked(s, seeds, id, h)
        ensures id in byId
      {
        if !Linked(s, seeds, id, h - 1) {
          var x :| Linked(s, seeds, x, h - 1) && LinksTo(s, x, id);
          BeforeExpanded(s, before, frontier, byId, next, x);
        }
      }
    }
  }

  /** After the hop, what had a row before it is expanded. */
  lemma BeforeExpanded(s: Store, before: map<string, Result>, frontier: seq<Result>,
                       byId: map<string, Result>, next: seq<Result>, x: string)
    requires Hopped(s, before, byId, next) && x in byId
    requires ExpandedUpTo(s, byId, frontier, |frontier|)
    requires x in before ==> Names(frontier, x) || Expanded(s, before, x)
    ensures x in before ==> Expanded(s, byId, x)
    ensures Names(next, x) || Expanded(s, byId, x)
  {
    if x in before && !Names(frontier, x) {
      StaysExpanded(s, before, byId, x);
    }
  }

  // ---------------------------------------------------------------- the expanded list

  predicate ScoreBefore(x: Result, y: Result, le: (string, string) -> bool) {
    if x.score != y.score then x.score > y.score else le(x.eventId, y.eventId)
  }

  function ByScore(le: (string, string) -> bool): (Result, Result) -> bool {
    (x: Result, y: Result) => ScoreBefore(x, y, le)
  }

  lemma ByScoreIsTotal(le: (string, string) -> bool)
    requires TotalPreorder(le)
    ensures TotalPreorder(ByScore(le))
  {
    var o := ByScore(le);
    forall x, y
      ensures o(x, y) || o(y, x)
    {
      assert ScoreBefore(x, y, le) || ScoreBefore(y, x, le);
    }
    forall x, y, z | o(x, y) && o(y, z)
      ensures o(x, z)
    {
      assert x.score == y.score == z.score ==> le(x.eventId, y.eventId) && le(y.eventId, z.eventId);
      assert ScoreBefore(x, z, le);
    }
  }

  ghost predicate DistinctEvents(rows: seq<Result>) {
    forall i, j | 0 <= i < j < |rows| :: rows[i].eventId != rows[j].eventId
  }

  /** Every row of the map once, best first. */
  ghost predicate IsRanking(sorted: seq<Result>, byId: map<string, Result>, le: (string, string) -> bool) {
    && |sorted| == |byId| && DistinctEvents(sorted) && SortedBy(sorted, ByScore(le))
    && (forall r | r in sorted :: r.eventId in byId && byId[r.eventId] == r)
    && (forall id | id in byId :: byId[id] in sorted)
  }

  ghost predicate IsListing(all: seq<Result>, byId: map<string, Result>) {
    && Distinct(all) && |all| == |byId|
    && forall r :: r in all <==> r.eventId in byId && byId[r.eventId] == r
  }

  lemma KeysGiveListing(byId: map<string, Result>, keys: seq<string>, all: seq<Result>)
    requires ListsKeys(keys, byId) && |all| == |keys|
    requires forall i | 0 <= i < |keys| :: keys[i] in byId && all[i] == byId[keys[i]] && all[i].eventId == keys[i]
    ensures IsListing(all, byId)
  {
    forall r: Result | r.eventId in byId && byId[r.eventId] == r
      ensures r in all
    {
      var i :| 0 <= i < |keys| && keys[i] == r.eventId;
      assert all[i] == r;
    }
  }

  lemma ListingIsDistinct(all: seq<Result>, byId: map<string, Result>)
    requires IsListing(all, byId)
    ensures DistinctEvents(all)
  {
    forall i, j | 0 <= i < j < |all|
      ensures all[i].eventId != all[j].eventId
    {
      assert all[i] in all && all[j] in all && all[i] != all[j];
    }
  }

  lemma SortedIsRanking(byId: map<string, Result>, all: seq<Result>, le: (string, string) -> bool)
    requires TotalPreorder(le) && IsListing(all, byId) && forall id | id in byId :: byId[id].eventId == id
    ensures IsRanking(SortBy(all, ByScore(le)), byId, le)
  {
    var sorted := SortBy(all, ByScore(le));
    ByScoreIsTotal(le);
    SortByIsSorted(all, ByScore(le));
    PermutationOfDistinct(all, sorted);
    assert IsListing(sorted, byId);
    ListingIsDistinct(sorted, byId);
  }

  function Cut(sorted: seq<Result>, limit: nat): seq<Result> {
    if |sorted| <= limit then sorted else sorted[..limit]
  }

  /** Every row of the map, or as many of the best as the limit allows. */
  ghost predicate AreBest(rows: seq<Result>, byId: map<string, Result>, limit: nat, le: (string, string) -> bool) {
    exists sorted :: IsRanking(sorted, byId, le) && rows == Cut(sorted, limit)
  }

  method BestRows(byId: map<string, Result>, limit: nat, le: (string, string) -> bool) returns (rows: seq<Result>)
    requires TotalPreorder(le) && forall id | id in byId :: byId[id].eventId == id
    ensures AreBest(rows, byId, limit, le)
  {
    var keys := KeysOf(byId);
    var all := seq(|keys|, i requires 0 <= i < |keys| && keys[i] in byId => byId[keys[i]]);
    var sorted := SortBy(all, ByScore(le));
    KeysGiveListing(byId, keys, all);
    SortedIsRanking(byId, all, le);
    rows := Cut(sorted, limit);
  }

  lemma BestAre(rows: seq<Result>, byId: map<string, Result>, limit: nat, le: (string, string) -> bool)
    requires AreBest(rows, byId, limit, le) && forall id | id in byId :: byId[id].eventId == id
    ensures |rows| == (if |byId| <= limit then |byId| else limit) && DistinctEvents(rows) && SortedBy(rows, ByScore(le))
    ensures forall r | r in rows :: r.eventId in byId && byId[r.eventId] == r
    ensures |byId| <= limit ==> forall id | id in byId :: Names(rows, id)
  {
    var sorted :| IsRanking(sorted, byId, le) && rows == Cut(sorted, limit);
    assert forall r | r in rows :: r in sorted;
    forall id | |byId| <= limit && id in byId
      ensures Names(rows, id)
    {
      var i :| 0 <= i < |sorted| && sorted[i] == byId[id];
      assert rows[i].eventId == id;
    }
  }

  ghost predicate SeedsIn(seeds: seq<Result>, byId: map<string, Result>) {
    forall id :: Names(seeds, id) ==> id in byId
  }

  method Hop(s: Store, ghost seeds: seq<Result>, before: map<string, Result>,
             frontier: seq<Result>, hop: nat, penalty: real, limit: nat)
    returns (byId: map<string, Result>, next: seq<Result>)
    requires ValidStore(s) && hop > 0 && Searched(s, seeds, before, frontier, hop, limit) && SeedsIn(seeds, before)
    requires AllReached(s, seeds, penalty, before, frontier, hop)
    ensures Searched(s, seeds, byId, next, hop + 1, limit) && SeedsIn(seeds, byId)
    ensures AllReached(s, seeds, penalty, byId, next, hop + 1)
  {
    byId, next := ExpandFrontier(s, before, frontier, hop, penalty, limit);
    HopReaches(s, seeds, penalty, before, frontier, hop, byId, next);
    HopSearches(s, seeds, before, frontier, hop, limit, byId, next);
  }

  /**
    The breadth-first expansion: no row but of events within `maxHops` links of a seed, and all of
    them when the list comes back below its limit.
   */
  method ExpandGraphHops(s: Store, seeds: seq<Result>, maxHops: nat, penalty: real,
                         limit: nat, le: (string, string) -> bool)
    returns (rows: seq<Result>)
    requires ValidStore(s) && TotalPreorder(le)
    ensures |rows| <= limit && DistinctEvents(rows) && SortedBy(rows, ByScore(le))
    ensures forall r | r in rows :: Linked(s, seeds, r.eventId, maxHops)
    ensures forall r | r in rows :: ReachedWithin(s, seeds, penalty, r, maxHops)
    ensures |rows| < limit ==> forall id | Linked(s, seeds, id, maxHops) :: Names(rows, id)
  {
    var byId := SeedRows(seeds);
    var frontier := seeds;
    SearchStarts(s, seeds, byId, limit);
    SeedsAreReached(s, seeds, penalty, byId);
    var hop := 1;
    while hop <= maxHops
      invariant 1 <= hop <= maxHops + 1 && Searched(s, seeds, byId, frontier, hop, limit)
      invariant SeedsIn(seeds, byId) && AllReached(s, seeds, penalty, byId, frontier, hop)
    {
      byId, frontier := Hop(s, seeds, byId, frontier, hop, penalty, limit);
      hop := hop + 1;
      if frontier == [] || |byId| >= limit {
        break;
      }
    }
    SearchIsComplete(s, seeds, byId, frontier, hop, limit, maxHops);
    ReachedLater(s, seeds, penalty, byId, frontier, hop, maxHops);
    rows := BestRows(byId, limit, le);
    BestAre(rows, byId, limit, le);
  }

  lemma SeedsAreReached(s: Store, seeds: seq<Result>, penalty: real, byId: map<string, Result>)
    requires forall id | id in byId :: byId[id] in seeds
    ensures AllReached(s, seeds, penalty, byId, seeds, 1)
  {
    forall id | id in byId
      ensures ReachedWithin(s, seeds, penalty, byId[id], 0)
    {
      assert Reached(s, seeds, penalty, byId[id], 0);
    }
  }

  lemma ReachedLater(s: Store, seeds: seq<Result>, penalty: real, byId: map<string, Result>, frontier: seq<Result>,
                     h: nat, hops: nat)
    requires h > 0 && AllReached(s, seeds, penalty, byId, frontier, h) && h - 1 <= hops
    ensures forall id | id in byId :: ReachedWithin(s, seeds, penalty, byId[id], hops)
  {
    forall id | id in byId
      ensures ReachedWithin(s, seeds, penalty, byId[id], hops)
    {
      var k: nat :| k <= h - 1 && Reached(s, seeds, penalty, byId[id], k);
    }
  }

  lemma SearchIsComplete(s: Store, seeds: seq<Result>, byId: map<string, Result>,
                         frontier: seq<Result>, hop: nat, limit: nat, maxHops: nat)
    requires 1 <= hop <= maxHops + 1 && Searched(s, seeds, byId, frontier, hop, limit)
    requires hop == maxHops + 1 || frontier == [] || |byId| >= limit
    requires SeedsIn(seeds, byId)
    ensures forall id | id in byId :: Linked(s, seeds, id, maxHops)
    ensures |byId| < limit ==> forall id | Linked(s, seeds, id, maxHops) :: id in byId
  {
    forall id | id in byId
      ensures Linked(s, seeds, id, maxHops)
    {
      LinkedGrows(s, seeds, id, hop - 1, maxHops);
    }
    if |byId| < limit && hop != maxHops + 1 {
      forall id | Linked(s, seeds, id, maxHops)
        ensures id in byId
      {
        ClosedCovers(s, seeds, byId, id, maxHops);
      }
    }
  }

  // ---------------------------------------------------------------- events of the same session

  /** A session's events in order of time, and what the expansion asks of their texts. */
  datatype SessionSearch = SessionSearch(
    events: string -> seq<string>, hasTerms: bool, overlap: string -> real, quality: Quality)

  ghost predicate ValidSessions(s: Store, x: SessionSearch) {
    forall session, id :: id in x.events(session) ==> id in s.events && s.events[id].sessionId == session
  }

  predicate Worth(content: string, x: SessionSearch) {
    && !x.quality.lowSignal(content)
    && !(x.quality.currentState && x.quality.stale(content))
    && x.overlap(content) > 0.0
    && (x.quality.technical ==> x.quality.technicalOverlap(content))
  }

  /** Mostly the seed's score, and the overlap; kept between 0.35 and 0.95. */
  function SessionScore(seed: Result, overlap: real): (score: real)
    ensures 0.35 <= score <= 0.95
    ensures score == 0.35 || score == 0.95 || 25.0 * score == 18.0 * seed.score + 7.0 * overlap
    ensures 0.35 <= seed.score <= 0.95 && overlap == seed.score ==> score == seed.score
  {
    var mixed := seed.score * 0.72 + overlap * 0.28;
    var raised := Max(0.35, mixed);
    if raised < 0.95 then raised else 0.95
  }

  function SessionRow(s: Store, seed: Result, id: string, x: SessionSearch): Result
    requires id in s.events
  {
    var e := s.events[id];
    Result(e.id, e.content, SessionScore(seed, x.overlap(e.content)), e.sessionId, e.eventType, false)
  }

  /** A row made for an event worth adding, in the session of a seed that scores best there. */
  ghost predicate FromSession(r: Result, s: Store, seeds: seq<Result>, x: SessionSearch) {
    exists seed :: seed in seeds && BestOfSession(seed, seeds) && r.eventId in s.events &&
      s.events[r.eventId].sessionId == seed.sessionId && Worth(s.events[r.eventId].content, x) &&
      r == SessionRow(s, seed, r.eventId, x)
  }

  ghost predicate BestOfSession(seed: Result, seeds: seq<Result>) {
    seed.sessionId != "" && forall y | y in seeds && y.sessionId == seed.sessionId :: y.score <= seed.score
  }

  /** Events of the seeds' sessions that are worth adding. */
  ghost predicate Wanted(s: Store, seeds: seq<Result>, x: SessionSearch, id: string) {
    exists seed :: seed in seeds && seed.sessionId != "" && id in x.events(seed.sessionId)
                && id in s.events && Worth(s.events[id].content, x)
  }

  /**
    The seeds as they are if nothing can be added; else one row per event, best first: every seed's,
    rows of worthy events of their sessions, and below the limit all of those.
   */
  ghost predicate IsSessionExpansion(rows: seq<Result>, s: Store, seeds: seq<Result>, x: SessionSearch, limit: nat,
                                     le: (string, string) -> bool)
  {
    if seeds == [] || limit <= |seeds| || !x.hasTerms then rows == seeds
    else
      && |rows| <= limit && DistinctEvents(rows) && SortedBy(rows, ByScore(le))
      && (forall id :: Names(seeds, id) ==> Names(rows, id))
      && (forall r | r in rows :: r in seeds || FromSession(r, s, seeds, x))
      && (|rows| < limit ==> forall id | Wanted(s, seeds, x, id) :: Names(rows, id))
  }

  /** The first seed of each session in the given order. */
  function FirstOfSessions(sorted: seq<Result>): seq<Result> {
    if sorted == [] then []
    else
      var earlier, r := FirstOfSessions(sorted[..|sorted| - 1]), sorted[|sorted| - 1];
      if r.sessionId == "" || HasSession(earlier, r.sessionId) then earlier
      else earlier + [r]
  }

  predicate HasSession(rows: seq<Result>, sessionId: string) {
    exists i :: 0 <= i < |rows| && rows[i].sessionId == sessionId
  }

  lemma LastIsLowest(sorted: seq<Result>, le: (string, string) -> bool)
    requires sorted != [] && SortedBy(sorted, ByScore(le))
    ensures forall y | y in sorted :: sorted[|sorted| - 1].score <= y.score
  {
    forall y | y in sorted
      ensures sorted[|sorted| - 1].score <= y.score
    {
      var i :| 0 <= i < |sorted| && sorted[i] == y;
      assert i == |sorted| - 1 || ByScore(le)(sorted[i], sorted[|sorted| - 1]);
    }
  }

  lemma {:induction false} FirstCoverSessions(sorted: seq<Result>)
    ensures forall i | 0 <= i < |sorted| && sorted[i].sessionId != "" ::
      HasSession(FirstOfSessions(sorted), sorted[i].sessionId)
  {
    if sorted != [] {
      var n := |sorted| - 1;
      var init, all := sorted[..n], FirstOfSessions(sorted);
      FirstCoverSessions(init);
      forall i | 0 <= i < |sorted| && sorted[i].sessionId != ""
        ensures HasSession(all, sorted[i].sessionId)
      {
        if i < n {
          assert init[i] == sorted[i];
          var k :| 0 <= k < |FirstOfSessions(init)| && FirstOfSessions(init)[k].sessionId == sorted[i].sessionId;
          assert all[k].sessionId == sorted[i].sessionId;
        } else if all != FirstOfSessions(init) {
          assert all[|all| - 1] == sorted[n];
        }
      }
    }
  }

  /** In a list with the best first, the first of each session is its best. */
  lemma {:induction false} FirstAreBest(sorted: seq<Result>, le: (string, string) -> bool)
    requires SortedBy(sorted, ByScore(le))
    ensures forall r | r in FirstOfSessions(sorted) :: r in sorted && BestOfSession(r, sorted)
  {
    if sorted != [] {
      var n := |sorted| - 1;
      var init := sorted[..n];
      FirstAreBest(init, le);
      LastIsLowest(sorted, le);
      FirstCoverSessions(init);
      assert sorted == init + [sorted[n]];
      forall r | r in FirstOfSessions(sorted)
        ensures r in sorted && BestOfSession(r, sorted)
      {
        if r !in FirstOfSessions(init) {
          assert r == sorted[n] && r.sessionId != "" && !HasSession(FirstOfSessions(init), r.sessionId);
          NewSession(init, sorted[n]);
        }
      }
    }
  }

  /** The last row is the first of its session only if no row before it is of that session. */
  lemma NewSession(init: seq<Result>, last: Result)
    requires forall i | 0 <= i < |init| && init[i].sessionId != "" ::
      HasSession(FirstOfSessions(init), init[i].sessionId)
    requires last.sessionId != "" && !HasSession(FirstOfSessions(init), last.sessionId)
    ensures forall y | y in init :: y.sessionId != last.sessionId
  {
  }

  lemma BestSeeds(seeds: seq<Result>, le: (string, string) -> bool)
    requires TotalPreorder(le)
    ensures forall r | r in FirstOfSessions(SortBy(seeds, ByScore(le))) :: r in seeds && BestOfSession(r, seeds)
  {
    var sorted := SortBy(seeds, ByScore(le));
    ByScoreIsTotal(le);
    SortByIsSorted(seeds, ByScore(le));
    FirstAreBest(sorted, le);
    forall r
      ensures r in sorted <==> r in seeds
    {
      assert r in multiset(sorted) <==> r in multiset(seeds);
    }
  }

  /** The rows kept while sessions are searched. */
  ghost predicate SessionRows(s: Store, seeds: seq<Result>, x: SessionSearch, byId: map<string, Result>) {
    && SeedsIn(seeds, byId)
    && forall id | id in byId :: byId[id].eventId == id && (byId[id] in seeds || FromSession(byId[id], s, seeds, x))
  }

  lemma AddSessionRow(s: Store, seeds: seq<Result>, x: SessionSearch,
                      byId: map<string, Result>, seed: Result, id: string)
    requires ValidStore(s) && SessionRows(s, seeds, x, byId) && id !in byId
    requires seed in seeds && BestOfSession(seed, seeds)
    requires id in s.events && s.events[id].sessionId == seed.sessionId && Worth(s.events[id].content, x)
    ensures SessionRows(s, seeds, x, byId[id := SessionRow(s, seed, id, x)])
    ensures |byId[id := SessionRow(s, seed, id, x)]| == |byId| + 1
  {
    var row := SessionRow(s, seed, id, x);
    assert FromSession(row, s, seeds, x);
    OneMore(byId, id, row);
  }

  /** Every worthy event of the session has a row. */
  ghost predicate SessionDone(s: Store, x: SessionSearch, byId: map<string, Result>, sessionId: string) {
    forall id | id in x.events(sessionId) && id in s.events && Worth(s.events[id].content, x) :: id in byId
  }

  lemma AllSessionsDone(s: Store, x: SessionSearch, seeds: seq<Result>, best: seq<Result>, byId: map<string, Result>)
    requires forall i | 0 <= i < |seeds| && seeds[i].sessionId != "" :: HasSession(best, seeds[i].sessionId)
    requires forall i | 0 <= i < |best| :: SessionDone(s, x, byId, best[i].sessionId)
    ensures forall id | Wanted(s, seeds, x, id) :: id in byId
  {
    forall id | Wanted(s, seeds, x, id)
      ensures id in byId
    {
      var seed :| seed in seeds && seed.sessionId != "" && id in x.events(seed.sessionId)
               && id in s.events && Worth(s.events[id].content, x);
      var k :| 0 <= k < |best| && best[k].sessionId == seed.sessionId;
      assert SessionDone(s, x, byId, best[k].sessionId);
    }
  }

  lemma BestCoverSessions(seeds: seq<Result>, le: (string, string) -> bool)
    requires TotalPreorder(le)
    ensures forall i | 0 <= i < |seeds| && seeds[i].sessionId != "" ::
      HasSession(FirstOfSessions(SortBy(seeds, ByScore(le))), seeds[i].sessionId)
  {
    var sorted := SortBy(seeds, ByScore(le));
    ByScoreIsTotal(le);
    SortByIsSorted(seeds, ByScore(le));
    FirstCoverSessions(sorted);
    forall i | 0 <= i < |seeds| && seeds[i].sessionId != ""
      ensures HasSession(FirstOfSessions(sorted), seeds[i].sessionId)
    {
      assert seeds[i] in multiset(seeds) && seeds[i] in multiset(sorted);
      var k :| 0 <= k < |sorted| && sorted[k] == seeds[i];
    }
  }

  /** All rows of before are there. */
  ghost predicate Covers(byId: map<string, Result>, before: map<string, Result>) {
    forall id | id in before :: id in byId
  }

  /** The first `i` events of the session have rows, if they are worth it. */
  ghost predicate EventsDone(s: Store, x: SessionSearch, byId: map<string, Result>, ids: seq<string>, i: nat)
    requires i <= |ids|
  {
    forall k | 0 <= k < i :: ids[k] in s.events && (Worth(s.events[ids[k]].content, x) ==> ids[k] in byId)
  }

  lemma NextEventDone(s: Store, x: SessionSearch, byId: map<string, Result>, byId': map<string, Result>,
                      ids: seq<string>, i: nat)
    requires i < |ids| && EventsDone(s, x, byId, ids, i) && Covers(byId', byId)
    requires ids[i] in s.events && (Worth(s.events[ids[i]].content, x) ==> ids[i] in byId')
    ensures EventsDone(s, x, byId', ids, i + 1)
  {
  }

  lemma SessionIsDone(s: Store, x: SessionSearch, byId: map<string, Result>, sessionId: string)
    requires EventsDone(s, x, byId, x.events(sessionId), |x.events(sessionId)|)
    ensures SessionDone(s, x, byId, sessionId)
  {
  }

  /** The tests of one event, in their order, and its row. */
  method RowIfWorth(s: Store, seed: Result, id: string, x: SessionSearch) returns (row: Option<Result>)
    requires id in s.events
    ensures row == if Worth(s.events[id].content, x) then Some(SessionRow(s, seed, id, x)) else None
  {
    var event := s.events[id];
    if x.quality.lowSignal(event.content) {
      return None;
    }
    if x.quality.currentState && x.quality.stale(event.content) {
      return None;
    }
    var lexicalScore := x.overlap(event.content);
    if lexicalScore <= 0.0 {
      return None;
    }
    if x.quality.technical && !x.quality.technicalOverlap(event.content) {
      return None;
    }
    var score := SessionScore(seed, lexicalScore);
    row := Some(Result(event.id, event.content, score, event.sessionId, event.eventType, false));
  }

  method ExpandSession(s: Store, seeds: seq<Result>, x: SessionSearch, seed: Result,
                       limit: nat, before: map<string, Result>)
    returns (byId: map<string, Result>)
    requires ValidStore(s) && ValidSessions(s, x) && seed in seeds && BestOfSession(seed, seeds)
    requires SessionRows(s, seeds, x, before) && |before| < limit
    ensures SessionRows(s, seeds, x, byId) && |byId| <= limit && Covers(byId, before)
    ensures |byId| < limit ==> SessionDone(s, x, byId, seed.sessionId)
  {
    byId := before;
    var ids := x.events(seed.sessionId);
    var i := 0;
    while i < |ids| && |byId| < limit
      invariant 0 <= i <= |ids| && SessionRows(s, seeds, x, byId) && |byId| <= limit
      invariant Covers(byId, before) && EventsDone(s, x, byId, ids, i)
    {
      var id := ids[i];
      ghost var was := byId;
      assert id in s.events && s.events[id].sessionId == seed.sessionId;
      if id !in byId {
        var row := RowIfWorth(s, seed, id, x);
        if row.Some? {
          AddSessionRow(s, seeds, x, byId, seed, id);
          byId := byId[id := row.value];
        }
      }
      NextEventDone(s, x, was, byId, ids, i);
      i := i + 1;
    }
    if |byId| < limit {
      SessionIsDone(s, x, byId, seed.sessionId);
    }
  }

  /** The sessions in turn, until the limit is met. */
  method ExpandSessions(s: Store, seeds: seq<Result>, x: SessionSearch, best: seq<Result>,
                        limit: nat, before: map<string, Result>)
    returns (byId: map<string, Result>)
    requires ValidStore(s) && ValidSessions(s, x) && SessionRows(s, seeds, x, before) && |before| <= limit
    requires forall r | r in best :: r in seeds && BestOfSession(r, seeds)
    ensures SessionRows(s, seeds, x, byId) && |byId| <= limit
    ensures |byId| < limit ==> forall k | 0 <= k < |best| :: SessionDone(s, x, byId, best[k].sessionId)
  {
    byId := before;
    var i := 0;
    while i < |best| && |byId| < limit
      invariant 0 <= i <= |best| && SessionRows(s, seeds, x, byId) && |byId| <= limit
      invariant |byId| < limit ==> forall k | 0 <= k < i :: SessionDone(s, x, byId, best[k].sessionId)
    {
      assert best[i] in best;
      byId := ExpandSession(s, seeds, x, best[i], limit, byId);
      i := i + 1;
    }
  }

  method ExpandSessionEventHybrid(s: Store, seeds: seq<Result>, x: SessionSearch, limit: nat,
                                  le: (string, string) -> bool)
    returns (rows: seq<Result>)
    requires ValidStore(s) && ValidSessions(s, x) && TotalPreorder(le)
    ensures IsSessionExpansion(rows, s, seeds, x, limit, le)
  {
    if seeds == [] || limit <= |seeds| || !x.hasTerms {
      return seeds;
    }
    var byId := SeedRows(seeds);
    SeedCount(seeds, byId);
    BestSeeds(seeds, le);
    BestCoverSessions(seeds, le);
    var bestSeeds := FirstOfSessions(SortBy(seeds, ByScore(le)));
    byId := ExpandSessions(s, seeds, x, bestSeeds, limit, byId);
    rows := BestRows(byId, limit, le);
    BestAre(rows, byId, limit, le);
    if |byId| < limit {
      AllSessionsDone(s, x, seeds, bestSeeds, byId);
    }
  }

  lemma {:induction false} SeedCount(seeds: seq<Result>, byId: map<string, Result>)
    requires forall id | id in byId :: Names(seeds, id)
    ensures |byId| <= |seeds|
  {
    if seeds == [] {
      assert byId == map[];
    } else {
      var n := |seeds| - 1;
      var rest := map id | id in byId && id != seeds[n].eventId :: byId[id];
      forall id | id in rest
        ensures Names(seeds[..n], id)
      {
        var i :| 0 <= i < |seeds| && seeds[i].eventId == id;
        assert seeds[..n][i].eventId == id;
      }
      SeedCount(seeds[..n], rest);
      assert byId.Keys <= rest.Keys + {seeds[n].eventId};
      assert |byId| == |byId.Keys| && |rest| == |rest.Keys|;
      FewerKeys(byId.Keys, rest.Keys, seeds[n].eventId);
    }
  }

  lemma FewerKeys(a: set<string>, b: set<string>, x: string)
    requires a <= b + {x}
    ensures |a| <= |b| + 1
  {
    var c := b + {x};
    assert c == a + (c - a);
    assert |c| <= |b| + 1;
  }
}
