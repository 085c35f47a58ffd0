/**
  One graduation run over the levels L0 to L4, here 0 to 4: level by level, the store's
  candidates are fetched and each is promoted
  if its access record meets the level's criteria, unless it was evaluated too recently.
 */
module Graduation {
  import opened Common
  import opened Sorting

  datatype Metrics = Metrics(accessCount: int, lastAccessed: int, crossSessionRefs: int, confidence: real)

  datatype Criteria = Criteria(minAccessCount: int, minConfidence: real, minCrossSessionRefs: int, maxAgeDays: real)

  /**
    What a run is given: the store's candidates in evidence order, its access records, the
    worker's settings, the time of the run, and the time at which each event is checked.
   */
  datatype Setting = Setting(
    order: seq<string>, durable: map<string, Metrics>, criteria: nat -> Criteria,
    batchSize: nat, cooldownMs: int, now: int, clock: string -> int)

  datatype Run = Run(
    levels: map<string, nat>, metrics: map<string, Metrics>, lastEvaluated: map<string, int>,
    evaluated: seq<string>, graduated: seq<string>, byLevel: map<nat, nat>)

  ghost predicate Valid(e: Setting) {
    Distinct(e.order)
  }

  const DAY_MS: real := 86400000.0

  // ---------------------------------------------------------------- one event

  predicate Passes(m: Metrics, c: Criteria, at: int) {
    && m.accessCount >= c.minAccessCount
    && m.confidence >= c.minConfidence
    && m.crossSessionRefs >= c.minCrossSessionRefs
    && (at - m.lastAccessed) as real / DAY_MS <= c.maxAgeDays
  }

  /** Why an event is not promoted. */
  datatype Reason = NoMetrics | TopLevel | FewAccesses | LowConfidence | FewSessions | TooOld

  /** The record misses this criterion of the level. */
  ghost predicate Misses(m: Metrics, c: Criteria, at: int, criterion: Reason) {
    match criterion
    case FewAccesses => m.accessCount < c.minAccessCount
    case LowConfidence => m.confidence < c.minConfidence
    case FewSessions => m.crossSessionRefs < c.minCrossSessionRefs
    case TooOld => (at - m.lastAccessed) as real > c.maxAgeDays * DAY_MS
    case _ => false
  }

  /** The order in which the criteria are checked. */
  function Turn(criterion: Reason): nat {
    match criterion
    case FewAccesses => 1
    case LowConfidence => 2
    case FewSessions => 3
    case TooOld => 4
    case _ => 0
  }

  /** It misses this criterion and none that is checked before it. */
  ghost predicate MissesFirst(m: Metrics, c: Criteria, at: int, criterion: Reason) {
    Misses(m, c, at, criterion) && forall q: Reason | Turn(q) < Turn(criterion) :: !Misses(m, c, at, q)
  }

  ghost predicate MeetsAll(m: Metrics, c: Criteria, at: int) {
    forall criterion: Reason :: !Misses(m, c, at, criterion)
  }

  /** A record passes exactly when it misses no criterion. */
  lemma PassesIffMeetsAll(m: Metrics, c: Criteria, at: int)
    ensures Passes(m, c, at) <==> MeetsAll(m, c, at)
  {
    var age := (at - m.lastAccessed) as real;
    assert age / DAY_MS <= c.maxAgeDays <==> age <= c.maxAgeDays * DAY_MS;
    if MeetsAll(m, c, at) {
      assert !Misses(m, c, at, FewAccesses) && !Misses(m, c, at, LowConfidence);
      assert !Misses(m, c, at, FewSessions) && !Misses(m, c, at, TooOld);
    }
  }

  method CheckCriteria(m: Metrics, c: Criteria, at: int) returns (missed: Option<Reason>)
    ensures missed == None <==> MeetsAll(m, c, at)
    ensures missed.Some? ==> MissesFirst(m, c, at, missed.value)
  {
    PassesIffMeetsAll(m, c, at);
    if m.accessCount < c.minAccessCount {
      return Some(FewAccesses);
    }
    if m.confidence < c.minConfidence {
      return Some(LowConfidence);
    }
    if m.crossSessionRefs < c.minCrossSessionRefs {
      return Some(FewSessions);
    }
    var ageDays := (at - m.lastAccessed) as real / DAY_MS;
    if ageDays > c.maxAgeDays {
      return Some(TooOld);
    }
    missed := None;
  }

  ghost predicate IsReason(reason: Reason, metrics: map<string, Metrics>, id: string, level: nat, e: Setting) {
    if id !in metrics then reason == NoMetrics
    else if level >= 4 then reason == TopLevel
    else MissesFirst(metrics[id], e.criteria(level), e.clock(id), reason)
  }

  /** Never evaluated, or not since the cooldown began; an evaluation at time zero does not count. */
  ghost predicate Due(last: map<string, int>, id: string, e: Setting) {
    id !in last || last[id] == 0 || e.now >= last[id] + e.cooldownMs
  }

  predicate CoolingDown(last: map<string, int>, id: string, e: Setting) {
    id in last && last[id] != 0 && e.now - last[id] < e.cooldownMs
  }

  predicate Promotes(metrics: map<string, Metrics>, id: string, level: nat, e: Setting) {
    id in metrics && level < 4 && Passes(metrics[id], e.criteria(level), e.clock(id))
  }

  /** The update names the event, and changes nothing when it has no row. */
  function SetLevel(levels: map<string, nat>, id: string, level: nat): map<string, nat> {
    if id in levels then levels[id := level] else levels
  }

  function EvaluateEvent(r: Run, id: string, level: nat, e: Setting): Run {
    if CoolingDown(r.lastEvaluated, id, e) then r
    else
      var seen := r.(evaluated := r.evaluated + [id], lastEvaluated := r.lastEvaluated[id := e.now]);
      if Promotes(r.metrics, id, level, e) then
        seen.(levels := SetLevel(r.levels, id, level + 1), graduated := r.graduated + [id])
      else seen
  }

  function EvaluateEvents(r: Run, ids: seq<string>, level: nat, e: Setting): Run
    decreases |ids|, 1
  {
    if ids == [] then r else EvaluateLast(r, ids, level, e)
  }

  function EvaluateLast(r: Run, ids: seq<string>, level: nat, e: Setting): Run
    requires ids != []
    decreases |ids|, 0
  {
    EvaluateEvent(EvaluateEvents(r, ids[..|ids| - 1], level, e), ids[|ids| - 1], level, e)
  }

  lemma EvaluateNext(r: Run, ids: seq<string>, i: nat, level: nat, e: Setting)
    requires i < |ids|
    ensures EvaluateEvents(r, ids[..i + 1], level, e)
         == EvaluateEvent(EvaluateEvents(r, ids[..i], level, e), ids[i], level, e)
  {
    assert ids[..i + 1][..i] == ids[..i];
    assert EvaluateEvents(r, ids[..i + 1], level, e) == EvaluateLast(r, ids[..i + 1], level, e);
  }

  // ---------------------------------------------------------------- one level

  function AtLevel(order: seq<string>, levels: map<string, nat>, level: nat): seq<string> {
    if order == [] then []
    else
      var earlier, id := AtLevel(order[..|order| - 1], levels, level), order[|order| - 1];
      if id in levels && levels[id] == level then earlier + [id] else earlier
  }

  function Fetch(e: Setting, levels: map<string, nat>, level: nat): seq<string> {
    var all := AtLevel(e.order, levels, level);
    if |all| <= e.batchSize then all else all[..e.batchSize]
  }

  function HydrateOne(metrics: map<string, Metrics>, id: string, durable: map<string, Metrics>): map<string, Metrics> {
    if id in durable && durable[id].accessCount > 0 &&
       (id !in metrics || durable[id].accessCount >= metrics[id].accessCount)
    then metrics[id := durable[id]] else metrics
  }

  function Hydrate(metrics: map<string, Metrics>, ids: seq<string>, durable: map<string, Metrics>): map<string, Metrics>
  {
    if ids == [] then metrics
    else HydrateOne(Hydrate(metrics, ids[..|ids| - 1], durable), ids[|ids| - 1], durable)
  }

  function EvaluateLevel(r: Run, level: nat, e: Setting): Run {
    var ids := Fetch(e, r.levels, level);
    var done := EvaluateEvents(r.(metrics := Hydrate(r.metrics, ids, e.durable)), ids, level, e);
    var levelGraduated := |done.graduated| - |r.graduated|;
    if levelGraduated > 0 then done.(byLevel := done.byLevel[level := levelGraduated]) else done
  }

  /** The run after its first `n` levels. */
  function EvaluateLevels(r: Run, n: nat, e: Setting): Run
    decreases n, 1
  {
    if n == 0 then r else EvaluateLastLevel(r, n, e)
  }

  function EvaluateLastLevel(r: Run, n: nat, e: Setting): Run
    requires n > 0
    decreases n, 0
  {
    EvaluateLevel(EvaluateLevels(r, n - 1, e), n - 1, e)
  }

  lemma LastLevel(r: Run, n: nat, e: Setting)
    requires n > 0
    ensures EvaluateLevels(r, n, e) == EvaluateLevel(EvaluateLevels(r, n - 1, e), n - 1, e)
  {
    assert EvaluateLevels(r, n, e) == EvaluateLastLevel(r, n, e);
  }

  // ---------------------------------------------------------------- what a run does

  ghost predicate Begins(r: Run) {
    r.evaluated == [] && r.graduated == [] && r.byLevel == map[]
  }

  /**
    Compared with the start: nothing is evaluated twice, and the
    graduated are one level up and the rest where they were.
   */
  ghost predicate Kept(r0: Run, r: Run, e: Setting) {
    && r.levels.Keys == r0.levels.Keys
    && (forall id | id in r0.levels && id in r.levels ::
         r.levels[id] == r0.levels[id] + if id in r.graduated then 1 else 0)
    && Distinct(r.evaluated) && Distinct(r.graduated)
    && (forall id | id in r.graduated :: id in r.evaluated && id in r.levels && r.levels[id] <= 4)
    && (forall id | id in r.evaluated :: id in r.lastEvaluated && r.lastEvaluated[id] == e.now)
  }

  /** With a running clock and a cooldown, an event evaluated in this run is cooling down. */
  lemma EventKeeps(r0: Run, r: Run, id: string, level: nat, e: Setting)
    requires Kept(r0, r, e) && e.cooldownMs > 0 && e.now != 0
    requires id in r.levels && r.levels[id] == level
    ensures Kept(r0, EvaluateEvent(r, id, level, e), e)
    ensures forall x | x in r.levels && x != id ::
      x in EvaluateEvent(r, id, level, e).levels && EvaluateEvent(r, id, level, e).levels[x] == r.levels[x]
  {
    if !CoolingDown(r.lastEvaluated, id, e) {
      assert id !in r.evaluated;
    }
  }

  /** The event is at the level that is being evaluated, in a run that has kept its promises so far. */
  ghost predicate MayEvaluate(r0: Run, r: Run, id: string, level: nat, e: Setting) {
    Kept(r0, r, e) && e.cooldownMs > 0 && e.now != 0 && id in r.levels && r.levels[id] == level
  }

  lemma {:induction false} EventsKeep(r0: Run, r: Run, ids: seq<string>, level: nat, e: Setting)
    requires Kept(r0, r, e) && e.cooldownMs > 0 && e.now != 0
    requires Distinct(ids) && forall i | 0 <= i < |ids| :: ids[i] in r.levels && r.levels[ids[i]] == level
    ensures Kept(r0, EvaluateEvents(r, ids, level, e), e)
    ensures forall x | x in r.levels && x !in ids ::
      x in EvaluateEvents(r, ids, level, e).levels && EvaluateEvents(r, ids, level, e).levels[x] == r.levels[x]
  {
    if ids != [] {
      var n := |ids| - 1;
      EventsKeep(r0, r, ids[..n], level, e);
      assert ids[n] !in ids[..n];
      EventKeeps(r0, EvaluateEvents(r, ids[..n], level, e), ids[n], level, e);
      assert EvaluateEvents(r, ids, level, e) == EvaluateLast(r, ids, level, e);
      assert ids == ids[..n] + [ids[n]];
    }
  }

  lemma {:induction false} AtLevelMembers(order: seq<string>, levels: map<string, nat>, level: nat)
    requires Distinct(order)
    ensures Distinct(AtLevel(order, levels, level))
    ensures forall id | id in AtLevel(order, levels, level) :: id in order && id in levels && levels[id] == level
  {
    if order != [] {
      var n := |order| - 1;
      AtLevelMembers(order[..n], levels, level);
      assert order[n] !in order[..n];
    }
  }

  lemma LevelKeeps(r0: Run, r: Run, level: nat, e: Setting)
    requires Valid(e) && Kept(r0, r, e) && e.cooldownMs > 0 && e.now != 0
    ensures Kept(r0, EvaluateLevel(r, level, e), e)
  {
    var ids := Fetch(e, r.levels, level);
    AtLevelMembers(e.order, r.levels, level);
    var hydrated := r.(metrics := Hydrate(r.metrics, ids, e.durable));
    assert Kept(r0, hydrated, e);
    EventsKeep(r0, hydrated, ids, level, e);
  }

  /** One run evaluates each event at most once and raises it by at most one level. */
  lemma {:induction false} RunKeeps(r: Run, n: nat, e: Setting)
    requires Valid(e) && Begins(r) && e.cooldownMs > 0 && e.now != 0
    ensures Kept(r, EvaluateLevels(r, n, e), e)
  {
    if n > 0 {
      RunKeeps(r, n - 1, e);
      LastLevel(r, n, e);
      LevelKeeps(r, EvaluateLevels(r, n - 1, e), n - 1, e);
    }
  }

  // ---------------------------------------------------------------- who is evaluated and who moves up

  /** What a run knows of one event. */
  datatype View = View(evaluated: bool, graduated: bool, last: Option<int>)

  function ViewOf(r: Run, id: string): View {
    View(id in r.evaluated, id in r.graduated, if id in r.lastEvaluated then Some(r.lastEvaluated[id]) else None)
  }

  function RecordIn(metrics: map<string, Metrics>, id: string): Option<Metrics> {
    if id in metrics then Some(metrics[id]) else None
  }

  /** The record an event is judged by: the store's, unless it is empty or shows fewer accesses than the worker's. */
  ghost predicate IsRecord(record: Option<Metrics>, known: Option<Metrics>, durable: Option<Metrics>) {
    if durable.Some? && durable.value.accessCount > 0
       && (known == None || durable.value.accessCount >= known.value.accessCount)
    then record == durable
    else record == known
  }

  lemma {:induction false} HydratedRecord(metrics: map<string, Metrics>, ids: seq<string>,
                                          durable: map<string, Metrics>, id: string)
    ensures (var hydrated := RecordIn(Hydrate(metrics, ids, durable), id);
      if id in ids then IsRecord(hydrated, RecordIn(metrics, id), RecordIn(durable, id))
      else hydrated == RecordIn(metrics, id))
  {
    if ids != [] {
      var n := |ids| - 1;
      HydratedRecord(metrics, ids[..n], durable, id);
      assert ids == ids[..n] + [ids[n]];
    }
  }

  /** What a level does to an event: nothing unless it is offered and due; else it is evaluated, by its record. */
  ghost predicate Treated(before: View, after: View, offered: bool, due: bool, record: Option<Metrics>,
                          c: Criteria, at: int, now: int)
  {
    if !offered || !due then after == before
    else
      && after.evaluated && after.last == Some(now)
      && (after.graduated <==> before.graduated || (record.Some? && MeetsAll(record.value, c, at)))
  }

  lemma EventTreats(r: Run, id: string, level: nat, e: Setting, x: string)
    requires level < 4
    ensures (var t := EvaluateEvent(r, id, level, e);
      t.metrics == r.metrics && Treated(ViewOf(r, x), ViewOf(t, x), x == id, Due(r.lastEvaluated, x, e),
                                        RecordIn(r.metrics, x), e.criteria(level), e.clock(x), e.now))
  {
    if x in r.metrics {
      PassesIffMeetsAll(r.metrics[x], e.criteria(level), e.clock(x));
    }
  }

  lemma {:induction false} EventsTreat(r: Run, ids: seq<string>, level: nat, e: Setting, x: string)
    requires level < 4 && Distinct(ids)
    ensures (var t := EvaluateEvents(r, ids, level, e);
      t.metrics == r.metrics && Treated(ViewOf(r, x), ViewOf(t, x), x in ids, Due(r.lastEvaluated, x, e),
                                        RecordIn(r.metrics, x), e.criteria(level), e.clock(x), e.now))
  {
    if ids != [] {
      var n := |ids| - 1;
      EventsTreat(r, ids[..n], level, e, x);
      assert EvaluateEvents(r, ids, level, e) == EvaluateLast(r, ids, level, e);
      EventTreats(EvaluateEvents(r, ids[..n], level, e), ids[n], level, e, x);
      assert ids[n] !in ids[..n] && ids == ids[..n] + [ids[n]];
    }
  }

  ghost predicate LevelTreats(before: Run, after: Run, level: nat, e: Setting, x: string, record: Option<Metrics>) {
    var offered := x in Fetch(e, before.levels, level);
    && RecordIn(after.metrics, x) == record
    && (if offered then IsRecord(record, RecordIn(before.metrics, x), RecordIn(e.durable, x))
        else record == RecordIn(before.metrics, x))
    && Treated(ViewOf(before, x), ViewOf(after, x), offered, Due(before.lastEvaluated, x, e),
               record, e.criteria(level), e.clock(x), e.now)
  }

  lemma LevelIsExact(r: Run, level: nat, e: Setting, x: string) returns (record: Option<Metrics>)
    requires Valid(e) && level < 4
    ensures LevelTreats(r, EvaluateLevel(r, level, e), level, e, x, record)
  {
    var ids := Fetch(e, r.levels, level);
    var hydrated := r.(metrics := Hydrate(r.metrics, ids, e.durable));
    AtLevelMembers(e.order, r.levels, level);
    HydratedRecord(r.metrics, ids, e.durable, x);
    EventsTreat(hydrated, ids, level, e, x);
    record := RecordIn(hydrated.metrics, x);
  }

  /** Until the run comes to its level an event is left as it is. */
  lemma {:induction false} UntouchedBelow(r: Run, n: nat, e: Setting, x: string)
    requires Valid(e) && Begins(r) && e.cooldownMs > 0 && e.now != 0 && n <= 4
    requires x in r.levels ==> n <= r.levels[x]
    ensures (var t := EvaluateLevels(r, n, e);
      && ViewOf(t, x) == ViewOf(r, x) && RecordIn(t.metrics, x) == RecordIn(r.metrics, x)
      && (x in t.levels <==> x in r.levels) && (x in t.levels ==> t.levels[x] == r.levels[x]))
  {
    if n > 0 {
      UntouchedBelow(r, n - 1, e, x);
      LastLevel(r, n, e);
      RunKeeps(r, n, e);
      OtherLevelLeaves(EvaluateLevels(r, n - 1, e), n - 1, e, x);
    }
  }

  /** A level leaves events of other levels as they are. */
  lemma OtherLevelLeaves(r: Run, level: nat, e: Setting, x: string)
    requires Valid(e) && level < 4 && (x in r.levels ==> r.levels[x] != level)
    ensures (var t := EvaluateLevel(r, level, e);
      ViewOf(t, x) == ViewOf(r, x) && RecordIn(t.metrics, x) == RecordIn(r.metrics, x))
  {
    AtLevelMembers(e.order, r.levels, level);
    var record := LevelIsExact(r, level, e, x);
  }

  /** Once the run is past its level it is left as it is, for if it moved up it is cooling down. */
  lemma {:induction false} UntouchedAbove(r: Run, n: nat, e: Setting, x: string)
    requires Valid(e) && Begins(r) && e.cooldownMs > 0 && e.now != 0
    requires x in r.levels && r.levels[x] < n <= 4
    ensures ViewOf(EvaluateLevels(r, n, e), x) == ViewOf(EvaluateLevels(r, r.levels[x] + 1, e), x)
  {
    if n > r.levels[x] + 1 {
      UntouchedAbove(r, n - 1, e, x);
      LastLevel(r, n, e);
      RunKeeps(r, n - 1, e);
      var before := EvaluateLevels(r, n - 1, e);
      AtLevelMembers(e.order, before.levels, n - 1);
      var record := LevelIsExact(before, n - 1, e, x);
    }
  }

  /** The event is among those the store offers when the run comes to the event's level. */
  ghost predicate Offered(r: Run, e: Setting, x: string) {
    x in r.levels && r.levels[x] < 4 && x in Fetch(e, EvaluateLevels(r, r.levels[x], e).levels, r.levels[x])
  }

  /**
    With a cooldown and a running clock, a run evaluates exactly the events that are offered and due, those
    whose cooldown is over included, and moves up exactly those of them whose record misses no criterion.
   */
  lemma RunIsExact(r: Run, e: Setting, x: string) returns (record: Option<Metrics>)
    requires Valid(e) && Begins(r) && e.cooldownMs > 0 && e.now != 0
    ensures (var t := EvaluateLevels(r, 4, e);
      && (x in t.evaluated <==> Offered(r, e, x) && Due(r.lastEvaluated, x, e))
      && (x in t.graduated <==> (
           x in t.evaluated && x in r.levels && record.Some?
           && MeetsAll(record.value, e.criteria(r.levels[x]), e.clock(x))))
      && (x in r.levels ==> x in t.levels && t.levels[x] == r.levels[x] + if x in t.graduated then 1 else 0)
      && (x in t.evaluated ==> IsRecord(record, RecordIn(r.metrics, x), RecordIn(e.durable, x)))
      && (x in t.lastEvaluated <==> x in t.evaluated || x in r.lastEvaluated)
      && (x in t.lastEvaluated ==> t.lastEvaluated[x] == if x in t.evaluated then e.now else r.lastEvaluated[x]))
  {
    RunKeeps(r, 4, e);
    if x in r.levels && r.levels[x] < 4 {
      var level := r.levels[x];
      UntouchedBelow(r, level, e, x);
      LastLevel(r, level + 1, e);
      record := LevelIsExact(EvaluateLevels(r, level, e), level, e, x);
      UntouchedAbove(r, 4, e, x);
    } else {
      record := None;
      UntouchedBelow(r, 4, e, x);
    }
  }

  /** Where an earlier candidate of the level stands. */
  ghost function EarlierAt(order: seq<string>, levels: map<string, nat>, level: nat, i: nat): set<nat> {
    set k: nat | k < i && k < |order| && order[k] in levels && levels[order[k]] == level
  }

  lemma {:induction false} AtLevelCounts(order: seq<string>, levels: map<string, nat>, level: nat)
    ensures |AtLevel(order, levels, level)| == |EarlierAt(order, levels, level, |order|)|
  {
    if order != [] {
      var n := |order| - 1;
      AtLevelCounts(order[..n], levels, level);
      EarlierSnoc(order, levels, level);
    }
  }

  lemma EarlierSnoc(order: seq<string>, levels: map<string, nat>, level: nat)
    requires order != []
    ensures (var n := |order| - 1;
      var earlier := EarlierAt(order[..n], levels, level, n);
      && EarlierAt(order, levels, level, n) == earlier && n !in earlier
      && EarlierAt(order, levels, level, n + 1)
         == earlier + if order[n] in levels && levels[order[n]] == level then {n} else {})
  {
  }

  lemma {:induction false} AtLevelPlaces(order: seq<string>, levels: map<string, nat>, level: nat, i: nat)
    requires i < |order| && order[i] in levels && levels[order[i]] == level
    ensures (var k := |EarlierAt(order, levels, level, i)|;
      k < |AtLevel(order, levels, level)| && AtLevel(order, levels, level)[k] == order[i])
  {
    var n := |order| - 1;
    assert EarlierAt(order[..n], levels, level, i) == EarlierAt(order, levels, level, i);
    if i < n {
      AtLevelPlaces(order[..n], levels, level, i);
    } else {
      AtLevelCounts(order[..n], levels, level);
    }
  }

  /** An event is offered exactly when it is at the level and fewer than a batch of those at it come before. */
  lemma FetchedIff(e: Setting, levels: map<string, nat>, level: nat, i: nat)
    requires Valid(e) && i < |e.order|
    ensures (e.order[i] in Fetch(e, levels, level) <==> (
      && e.order[i] in levels && levels[e.order[i]] == level
      && |EarlierAt(e.order, levels, level, i)| < e.batchSize))
  {
    var all, x := AtLevel(e.order, levels, level), e.order[i];
    AtLevelMembers(e.order, levels, level);
    if x in levels && levels[x] == level {
      AtLevelPlaces(e.order, levels, level, i);
      var k := |EarlierAt(e.order, levels, level, i)|;
      if k < e.batchSize {
        assert Fetch(e, levels, level)[k] == x;
      }
    }
  }

  // ---------------------------------------------------------------- the counts

  function Total(levels: map<string, nat>, ids: seq<string>): nat {
    if ids == [] then 0 else Total(levels, ids[1..]) + if ids[0] in levels then levels[ids[0]] else 0
  }

  function CountIn(ids: seq<string>, chosen: seq<string>): nat {
    if ids == [] then 0 else CountIn(ids[1..], chosen) + if ids[0] in chosen then 1 else 0
  }

  lemma {:induction false} TotalRises(r0: Run, r: Run, e: Setting, ids: seq<string>)
    requires Kept(r0, r, e)
    ensures Total(r.levels, ids) == Total(r0.levels, ids) + CountIn(ids, r.graduated)
  {
    if ids != [] {
      TotalRises(r0, r, e, ids[1..]);
    }
  }

  lemma {:induction false} CountInNone(ids: seq<string>)
    ensures CountIn(ids, []) == 0
  {
    if ids != [] {
      CountInNone(ids[1..]);
    }
  }

  lemma {:induction false} CountInSnoc(ids: seq<string>, chosen: seq<string>, x: string)
    requires Distinct(ids) && x !in chosen
    ensures CountIn(ids, chosen + [x]) == CountIn(ids, chosen) + if x in ids then 1 else 0
  {
    if ids != [] {
      CountInSnoc(ids[1..], chosen, x);
      assert x in ids <==> x == ids[0] || x in ids[1..];
      assert ids[0] !in ids[1..];
    }
  }

  lemma {:induction false} CountInIsLength(ids: seq<string>, chosen: seq<string>)
    requires Distinct(ids) && Distinct(chosen) && forall x | x in chosen :: x in ids
    ensures CountIn(ids, chosen) == |chosen|
    decreases |chosen|
  {
    if chosen == [] {
      CountInNone(ids);
    } else {
      var n := |chosen| - 1;
      assert chosen == chosen[..n] + [chosen[n]] && chosen[n] !in chosen[..n];
      CountInIsLength(ids, chosen[..n]);
      CountInSnoc(ids, chosen[..n], chosen[n]);
    }
  }

  function ByLevelSum(byLevel: map<nat, nat>, n: nat): nat {
    if n == 0 then 0 else ByLevelSum(byLevel, n - 1) + if n - 1 in byLevel then byLevel[n - 1] else 0
  }

  lemma {:induction false} ByLevelSumSame(a: map<nat, nat>, b: map<nat, nat>, n: nat)
    requires forall k | k < n :: (k in a <==> k in b) && (k in a ==> a[k] == b[k])
    ensures ByLevelSum(a, n) == ByLevelSum(b, n)
  {
    if n > 0 {
      ByLevelSumSame(a, b, n - 1);
    }
  }

  lemma {:induction false} EventsOnlyAdd(r: Run, ids: seq<string>, level: nat, e: Setting)
    ensures |r.graduated| <= |EvaluateEvents(r, ids, level, e).graduated|
    ensures EvaluateEvents(r, ids, level, e).byLevel == r.byLevel
  {
    if ids != [] {
      EventsOnlyAdd(r, ids[..|ids| - 1], level, e);
      assert EvaluateEvents(r, ids, level, e) == EvaluateLast(r, ids, level, e);
    }
  }

  lemma {:induction false} ByLevelCounts(r: Run, n: nat, e: Setting)
    requires Begins(r)
    ensures (var t := EvaluateLevels(r, n, e);
      ByLevelSum(t.byLevel, n) == |t.graduated| && forall k | k in t.byLevel :: k < n)
  {
    if n > 0 {
      ByLevelCounts(r, n - 1, e);
      LastLevel(r, n, e);
      LevelCounts(EvaluateLevels(r, n - 1, e), n - 1, e);
    }
  }

  lemma LevelCounts(s: Run, level: nat, e: Setting)
    requires ByLevelSum(s.byLevel, level) == |s.graduated| && forall k | k in s.byLevel :: k < level
    ensures (var t := EvaluateLevel(s, level, e);
      ByLevelSum(t.byLevel, level + 1) == |t.graduated| && forall k | k in t.byLevel :: k < level + 1)
  {
    var t, ids := EvaluateLevel(s, level, e), Fetch(e, s.levels, level);
    EventsOnlyAdd(s.(metrics := Hydrate(s.metrics, ids, e.durable)), ids, level, e);
    ByLevelSumSame(s.byLevel, t.byLevel, level);
  }

  /** The levels rise together by as many as the run reports graduated, which is the sum of its counts by level. */
  lemma RunCounts(r: Run, e: Setting, ids: seq<string>)
    requires Valid(e) && Begins(r) && e.cooldownMs > 0 && e.now != 0
    requires Distinct(ids) && forall id | id in r.levels :: id in ids
    ensures (var t := EvaluateLevels(r, 4, e);
      && Total(t.levels, ids) == Total(r.levels, ids) + |t.graduated|
      && ByLevelSum(t.byLevel, 4) == |t.graduated|
      && |t.graduated| <= |t.evaluated|)
  {
    var t := EvaluateLevels(r, 4, e);
    RunKeeps(r, 4, e);
    TotalRises(r, t, e, ids);
    CountInIsLength(ids, t.graduated);
    ByLevelCounts(r, 4, e);
    CountInIsLength(t.evaluated, t.graduated);
    CountInAtMost(t.evaluated, t.graduated);
  }

  lemma {:induction false} CountInAtMost(ids: seq<string>, chosen: seq<string>)
    ensures CountIn(ids, chosen) <= |ids|
  {
    if ids != [] {
      CountInAtMost(ids[1..], chosen);
    }
  }

  /** A store of one event, whose access record meets every criterion. */
  ghost predicate OneReadyEvent(id: string, m: Metrics, e: Setting) {
    && e.order == [id] && e.batchSize > 0 && e.durable == map[]
    && forall k | 0 <= k < 4 :: Passes(m, e.criteria(k), e.clock(id))
  }

  ghost predicate ReadyAt(r: Run, id: string, m: Metrics, level: nat, e: Setting) {
    && r.levels == map[id := level] && r.metrics == map[id := m]
    && !CoolingDown(r.lastEvaluated, id, e) && |r.evaluated| == level
  }

  lemma ClimbsOne(r: Run, id: string, m: Metrics, level: nat, e: Setting)
    requires level < 4 && OneReadyEvent(id, m, e) && ReadyAt(r, id, m, level, e) && (e.cooldownMs <= 0 || e.now == 0)
    ensures ReadyAt(EvaluateLevel(r, level, e), id, m, level + 1, e)
  {
    OneIsFetched(r.levels, id, level, e);
    OneIsEvaluated(r, id, level, e);
    assert r.(metrics := r.metrics) == r;
  }

  lemma OneIsFetched(levels: map<string, nat>, id: string, level: nat, e: Setting)
    requires e.order == [id] && e.batchSize > 0 && id in levels && levels[id] == level
    ensures Fetch(e, levels, level) == [id]
  {
    assert AtLevel(e.order[..0], levels, level) == [];
  }

  lemma OneIsEvaluated(r: Run, id: string, level: nat, e: Setting)
    requires e.durable == map[]
    ensures Hydrate(r.metrics, [id], e.durable) == r.metrics
    ensures EvaluateEvents(r, [id], level, e) == EvaluateEvent(r, id, level, e)
  {
    assert [id][..0] == [] && [id][..1] == [id];
    assert Hydrate(r.metrics, [], e.durable) == r.metrics;
    assert EvaluateEvents(r, [], level, e) == r;
    EvaluateNext(r, [id], 0, level, e);
  }

  /** Without a cooldown, or at time zero, such an event is evaluated at every level and climbs them all in one run. */
  lemma {:induction false} NoCooldownClimbs(r: Run, id: string, m: Metrics, n: nat, e: Setting)
    requires n <= 4 && OneReadyEvent(id, m, e) && ReadyAt(r, id, m, 0, e) && (e.cooldownMs <= 0 || e.now == 0)
    ensures ReadyAt(EvaluateLevels(r, n, e), id, m, n, e)
  {
    if n > 0 {
      NoCooldownClimbs(r, id, m, n - 1, e);
      LastLevel(r, n, e);
      ClimbsOne(EvaluateLevels(r, n - 1, e), id, m, n - 1, e);
    }
  }

  // ---------------------------------------------------------------- forgetting old evaluations

  datatype Evaluation = Evaluation(id: string, time: int)

  const MAX_REMEMBERED: nat := 1000

  function Trimmed(entries: seq<Evaluation>): seq<Evaluation> {
    var sorted := SortBy(entries, (a: Evaluation, b: Evaluation) => a.time >= b.time);
    if |entries| > MAX_REMEMBERED && |sorted| >= MAX_REMEMBERED then sorted[..MAX_REMEMBERED] else entries
  }

  /** Only when 1000 evaluations at least as recent are kept is one forgotten. */
  lemma TrimKeepsTheNewest(entries: seq<Evaluation>, gone: Evaluation)
    requires Distinct(entries) && gone in entries && gone !in Trimmed(entries)
    ensures |Trimmed(entries)| == MAX_REMEMBERED && Distinct(Trimmed(entries))
    ensures forall x | x in Trimmed(entries) :: x in entries && x.time >= gone.time
  {
    var le := (a: Evaluation, b: Evaluation) => a.time >= b.time;
    var sorted := SortBy(entries, le);
    SortByIsSorted(entries, le);
    PermutationOfDistinct(entries, sorted);
    var k :| 0 <= k < |sorted| && sorted[k] == gone;
    forall x | x in Trimmed(entries)
      ensures x in entries && x.time >= gone.time
    {
      var i :| 0 <= i < MAX_REMEMBERED && sorted[i] == x;
      assert le(sorted[i], sorted[k]);
    }
  }

  /** What is remembered of the evaluations: all of them, or the 1000 newest. */
  ghost predicate Remembers(all: map<string, int>, kept: map<string, int>) {
    && (|all| <= MAX_REMEMBERED ==> kept == all)
    && (|all| > MAX_REMEMBERED ==> |kept| == MAX_REMEMBERED)
    && (forall id | id in kept :: id in all && kept[id] == all[id])
    && (forall id, x | id in all && id !in kept && x in kept :: kept[x] >= all[id])
  }

  ghost predicate Lists(entries: seq<Evaluation>, m: map<string, int>) {
    && Distinct(entries)
    && (forall x | x in entries :: x.id in m && m[x.id] == x.time)
    && (forall id | id in m :: Evaluation(id, m[id]) in entries)
    && |entries| == |m|
  }

  method Entries(m: map<string, int>) returns (entries: seq<Evaluation>)
    ensures Lists(entries, m)
  {
    var keys := KeysOf(m);
    entries := seq(|keys|, i requires 0 <= i < |keys| && keys[i] in m => Evaluation(keys[i], m[keys[i]]));
    forall id | id in m
      ensures Evaluation(id, m[id]) in entries
    {
      var i :| 0 <= i < |keys| && keys[i] == id;
      assert entries[i] == Evaluation(id, m[id]);
    }
  }

  method FromNewest(entries: seq<Evaluation>, ghost m: map<string, int>) returns (kept: map<string, int>)
    requires Lists(entries, m) && |entries| > MAX_REMEMBERED
    ensures Remembers(m, kept)
  {
    var newest := Trimmed(entries);
    TrimmedLists(entries);
    forall j, k | 0 <= j < k < |newest|
      ensures newest[j].id != newest[k].id
    {
      IdsDiffer(entries, m, newest[j], newest[k]);
    }
    kept := FromEntries(newest);
    NewestRemember(entries, m, kept);
  }

  lemma IdsDiffer(entries: seq<Evaluation>, m: map<string, int>, x: Evaluation, y: Evaluation)
    requires Lists(entries, m) && x in entries && y in entries && x != y
    ensures x.id != y.id
  {
  }

  method FromEntries(entries: seq<Evaluation>) returns (kept: map<string, int>)
    requires forall j, k | 0 <= j < k < |entries| :: entries[j].id != entries[k].id
    ensures |kept| == |entries|
    ensures forall id | id in kept :: Evaluation(id, kept[id]) in entries
    ensures forall x | x in entries :: x.id in kept
  {
    kept := map[];
    var i := 0;
    while i < |entries|
      invariant 0 <= i <= |entries| && |kept| == i
      invariant forall id | id in kept :: exists k :: 0 <= k < i && entries[k] == Evaluation(id, kept[id])
      invariant forall k | 0 <= k < i :: entries[k].id in kept
    {
      OneMore(kept, entries[i].id, entries[i].time);
      kept := kept[entries[i].id := entries[i].time];
      i := i + 1;
    }
  }

  lemma NewestRemember(entries: seq<Evaluation>, m: map<string, int>, kept: map<string, int>)
    requires Lists(entries, m) && |entries| > MAX_REMEMBERED && |kept| == MAX_REMEMBERED
    requires forall id | id in kept :: Evaluation(id, kept[id]) in Trimmed(entries)
    requires forall x | x in Trimmed(entries) :: x.id in kept
    ensures Remembers(m, kept)
  {
    TrimmedLists(entries);
    forall id, x | id in m && id !in kept && x in kept
      ensures kept[x] >= m[id]
    {
      TrimKeepsTheNewest(entries, Evaluation(id, m[id]));
      assert Evaluation(x, kept[x]) in Trimmed(entries);
    }
  }

  lemma TrimmedLists(entries: seq<Evaluation>)
    requires Distinct(entries) && |entries| > MAX_REMEMBERED
    ensures |Trimmed(entries)| == MAX_REMEMBERED && Distinct(Trimmed(entries))
    ensures forall x | x in Trimmed(entries) :: x in entries
  {
    var le := (a: Evaluation, b: Evaluation) => a.time >= b.time;
    SortByIsSorted(entries, le);
    PermutationOfDistinct(entries, SortBy(entries, le));
  }

  // ---------------------------------------------------------------- the worker

  /** The worker with the store it works on. */
  class GraduationWorker {
    var levels: map<string, nat>
    var metrics: map<string, Metrics>
    var lastEvaluated: map<string, int>

    constructor (levels: map<string, nat>)
      ensures this.levels == levels && metrics == map[] && lastEvaluated == map[]
    {
      this.levels, metrics, lastEvaluated := levels, map[], map[];
    }

    ghost function Now(evaluated: seq<string>, graduated: seq<string>, byLevel: map<nat, nat>): Run
      reads this
    {
      Run(levels, metrics, lastEvaluated, evaluated, graduated, byLevel)
    }

    method HydrateMetrics(ids: seq<string>, durable: map<string, Metrics>)
      modifies this`metrics
      ensures metrics == Hydrate(old(metrics), ids, durable)
    {
      var i := 0;
      while i < |ids|
        invariant 0 <= i <= |ids| && metrics == Hydrate(old(metrics), ids[..i], durable)
      {
        assert ids[..i + 1][..i] == ids[..i];
        var id := ids[i];
        if id in durable && durable[id].accessCount > 0 {
          if id !in metrics || durable[id].accessCount >= metrics[id].accessCount {
            metrics := metrics[id := durable[id]];
          }
        }
        i := i + 1;
      }
      assert ids[..|ids|] == ids;
    }

    method EvaluateGraduation(id: string, level: nat, e: Setting) returns (success: bool, reason: Option<Reason>)
      modifies this`levels
      ensures success <==> Promotes(metrics, id, level, e)
      ensures success <==> id in metrics && level < 4 && MeetsAll(metrics[id], e.criteria(level), e.clock(id))
      ensures reason == None <==> success
      ensures reason.Some? ==> IsReason(reason.value, metrics, id, level, e)
      ensures levels == if success then SetLevel(old(levels), id, level + 1) else old(levels)
      ensures levels.Keys == old(levels.Keys) && forall x | x in levels && x != id :: levels[x] == old(levels)[x]
      ensures old(id in levels && levels[id] == level) ==> levels[id] == (if success then level + 1 else level)
      ensures success ==> level + 1 <= 4
    {
      if id !in metrics {
        return false, Some(NoMetrics);
      }
      if level >= 4 {
        return false, Some(TopLevel);
      }
      PassesIffMeetsAll(metrics[id], e.criteria(level), e.clock(id));
      reason := CheckCriteria(metrics[id], e.criteria(level), e.clock(id));
      success := reason == None;
      if success && id in levels {
        levels := levels[id := level + 1];
      }
    }

    /** The body of the loop over a level's events. */
    method EvaluateUnlessCooling(id: string, level: nat, e: Setting, ghost r0: Run, ghost evaluated: seq<string>,
                                 ghost graduated: seq<string>, ghost byLevel: map<nat, nat>)
      returns (done: bool, success: bool)
      modifies this
      ensures old(MayEvaluate(r0, Now(evaluated, graduated, byLevel), id, level, e)) ==>
        Kept(r0, Now(evaluated + if done then [id] else [], graduated + if success then [id] else [], byLevel), e)
      ensures old(MayEvaluate(r0, Now(evaluated, graduated, byLevel), id, level, e)) && id in evaluated ==> !done
      ensures success ==> done
      ensures Now(evaluated + if done then [id] else [], graduated + if success then [id] else [], byLevel)
        == EvaluateEvent(old(Now(evaluated, graduated, byLevel)), id, level, e)
    {
      if MayEvaluate(r0, Now(evaluated, graduated, byLevel), id, level, e) {
        EventKeeps(r0, Now(evaluated, graduated, byLevel), id, level, e);
      }
      if id in lastEvaluated && lastEvaluated[id] != 0 && e.now - lastEvaluated[id] < e.cooldownMs {
        return false, false;
      }
      done := true;
      lastEvaluated := lastEvaluated[id := e.now];
      var reason;
      success, reason := EvaluateGraduation(id, level, e);
    }

    method RunLevel(level: nat, e: Setting, ghost evaluated0: seq<string>,
                    ghost graduated0: seq<string>, ghost byLevel: map<nat, nat>)
      returns (ghost evaluated: seq<string>, ghost graduated: seq<string>, count: nat, levelGraduated: nat)
      modifies this
      ensures (var r := old(Now(evaluated0, graduated0, byLevel));
        var ids := Fetch(e, r.levels, level);
        var hydrated := r.(metrics := Hydrate(r.metrics, ids, e.durable));
        Now(evaluated, graduated, byLevel) == EvaluateEvents(hydrated, ids, level, e))
      ensures |evaluated| == |evaluated0| + count && |graduated| == |graduated0| + levelGraduated
    {
      evaluated, graduated, count, levelGraduated := evaluated0, graduated0, 0, 0;
      var events := Fetch(e, levels, level);
      if events != [] {
        HydrateMetrics(events, e.durable);
      }
      ghost var start := Now(evaluated, graduated, byLevel);
      var i := 0;
      while i < |events|
        invariant 0 <= i <= |events|
        invariant Now(evaluated, graduated, byLevel) == EvaluateEvents(start, events[..i], level, e)
        invariant |evaluated| == |evaluated0| + count && |graduated| == |graduated0| + levelGraduated
      {
        var id := events[i];
        EvaluateNext(start, events, i, level, e);
        var done, success := EvaluateUnlessCooling(id, level, e, start, evaluated, graduated, byLevel);
        if done {
          evaluated, count := evaluated + [id], count + 1;
        }
        if success {
          graduated, levelGraduated := graduated + [id], levelGraduated + 1;
        }
        i := i + 1;
      }
      assert events[..|events|] == events;
    }

    /** Forgets all but the newest evaluations. */
    method TrimLastEvaluated()
      modifies this`lastEvaluated
      ensures Remembers(old(lastEvaluated), lastEvaluated)
    {
      if |lastEvaluated| > MAX_REMEMBERED {
        var entries := Entries(lastEvaluated);
        lastEvaluated := FromNewest(entries, lastEvaluated);
      }
    }

    /** A whole run. */
    method RunGraduation(e: Setting)
      returns (evaluated: nat, graduated: nat, byLevel: map<nat, nat>,
               ghost ids: seq<string>, ghost raised: seq<string>)
      modifies this
      ensures (var r := EvaluateLevels(old(Now([], [], map[])), 4, e);
        && levels == r.levels && metrics == r.metrics && Remembers(r.lastEvaluated, lastEvaluated)
        && evaluated == |r.evaluated| && graduated == |r.graduated| && byLevel == r.byLevel)
    {
      evaluated, graduated, byLevel, ids, raised := RunLevels(e);
      TrimLastEvaluated();
    }

    method RunLevels(e: Setting)
      returns (evaluated: nat, graduated: nat, byLevel: map<nat, nat>,
               ghost ids: seq<string>, ghost raised: seq<string>)
      modifies this
      ensures Now(ids, raised, byLevel) == EvaluateLevels(old(Now([], [], map[])), 4, e)
      ensures evaluated == |ids| && graduated == |raised|
    {
      evaluated, graduated, byLevel, ids, raised := 0, 0, map[], [], [];
      var level := 0;
      while level < 4
        invariant 0 <= level <= 4
        invariant Now(ids, raised, byLevel) == EvaluateLevels(old(Now([], [], map[])), level, e)
        invariant evaluated == |ids| && graduated == |raised|
      {
        LastLevel(old(Now([], [], map[])), level + 1, e);
        var count, levelGraduated: nat;
        ids, raised, count, levelGraduated := RunLevel(level, e, ids, raised, byLevel);
        evaluated, graduated := evaluated + count, graduated + levelGraduated;
        if levelGraduated > 0 {
          byLevel := byLevel[level := levelGraduated];
        }
        level := level + 1;
      }
    }
  }
}
