/**
  The runtime telemetry file: changes are written at most once per interval, the rest wait for
  a timer.  Times and durations are whole milliseconds and microseconds.
 */
module Telemetry {
  import opened Common

  datatype Aggregate = Aggregate(count: nat, failedCount: nat, totalUs: nat, maxUs: nat)

  datatype Model = Model(
    loaded: bool, loadedInstances: nat, loadCount: nat, loadFailureCount: nat,
    releaseCount: nat, releaseFailureCount: nat, useCount: nat)

  datatype Snapshot = Snapshot(
    client: string,
    stopped: bool,
    updatedAt: int,
    model: Model,
    cold: Aggregate,
    hot: Aggregate
  )

  /** `unsavedSince`, which the source does not keep, is when the first change after the last write was made. */
  datatype State = State(
    snapshot: Snapshot, resources: set<string>, registered: bool, persist: bool,
    lastPersist: Option<int>, dirty: bool, timer: Option<int>, file: Option<Snapshot>, unsavedSince: Option<int>)

  datatype Event =
    | Register(client: string)
    | Stop
    | ModelLoad(resourceId: string)
    | ModelLoadFailure
    | ModelActivity
    | ModelRelease(resourceId: string)
    | ModelReleaseFailure
    | Retrieval(hot: bool, durationUs: int, succeeded: bool)
    | TimerFires

  const PERSIST_INTERVAL_MS := 1000

  // ---------------------------------------------------------------- writing the file

  /** A failed write is swallowed: the change then counts as saved. */
  function PersistNow(s: State, now: int, works: bool): State {
    s.(dirty := false, lastPersist := Some(now), file := if works then Some(s.snapshot) else s.file,
       unsavedSince := if works then None else s.unsavedSince)
  }

  function Touched(s: State, now: int): State {
    s.(snapshot := s.snapshot.(updatedAt := now,
         model := s.snapshot.model.(loadedInstances := |s.resources|, loaded := |s.resources| > 0)),
       unsavedSince := if s.unsavedSince.Some? then s.unsavedSince else Some(now))
  }

  predicate Writes(s: State, now: int, flush: bool) {
    flush || s.lastPersist == None || now - s.lastPersist.value >= PERSIST_INTERVAL_MS
  }

  function TouchAndPersist(s: State, now: int, flush: bool, works: bool): State {
    var t := Touched(s, now);
    if !t.registered || !t.persist then t
    else if Writes(t, now, flush) then PersistNow(t, now, works)
    else t.(dirty := true, timer := if t.timer.Some? then t.timer else Some(now + PERSIST_INTERVAL_MS))
  }

  function Bounded(us: int): nat {
    if us < 0 then 0 else us
  }

  function Add(a: Aggregate, us: int, succeeded: bool): Aggregate {
    var d := Bounded(us);
    Aggregate(a.count + 1, if succeeded then a.failedCount else a.failedCount + 1,
              a.totalUs + d, if d > a.maxUs then d else a.maxUs)
  }

  /** The change an event makes before it is written. */
  function Changed(s: State, e: Event): State {
    var m := s.snapshot.model;
    match e
    case Register(client) => s.(registered := true, snapshot := s.snapshot.(client := client, stopped := false))
    case Stop => s.(snapshot := s.snapshot.(stopped := true))
    case ModelLoad(id) =>
      s.(resources := s.resources + {id}, snapshot := s.snapshot.(model := m.(loadCount := m.loadCount + 1)))
    case ModelLoadFailure => s.(snapshot := s.snapshot.(model := m.(loadFailureCount := m.loadFailureCount + 1)))
    case ModelActivity => s.(snapshot := s.snapshot.(model := m.(useCount := m.useCount + 1)))
    case ModelRelease(id) =>
      s.(resources := s.resources - {id}, snapshot := s.snapshot.(model := m.(releaseCount := m.releaseCount + 1)))
    case ModelReleaseFailure =>
      s.(snapshot := s.snapshot.(model := m.(releaseFailureCount := m.releaseFailureCount + 1)))
    case Retrieval(hot, us, ok) =>
      if hot then s.(snapshot := s.snapshot.(hot := Add(s.snapshot.hot, us, ok)))
      else s.(snapshot := s.snapshot.(cold := Add(s.snapshot.cold, us, ok)))
    case TimerFires => s
  }

  function Fired(s: State, now: int, works: bool): State {
    var t := s.(timer := None);
    if t.dirty then PersistNow(t, now, works) else t
  }

  function Step(s: State, e: Event, now: int, works: bool): State {
    if e == TimerFires then Fired(s, now, works)
    else
      var t := TouchAndPersist(Changed(s, e), now, e.Register? || e == Stop, works);
      if e == Stop && t.registered && t.persist then t.(file := None) else t
  }

  function Initial(persist: bool, now: int): State {
    var none := Aggregate(0, 0, 0, 0);
    State(Snapshot("unknown", false, now, Model(false, 0, 0, 0, 0, 0, 0), none, none), {}, false, persist,
          None, false, None, None, Some(now))
  }

  // ---------------------------------------------------------------- what every step keeps

  /** A snapshot's two accounts of the loaded models agree. */
  ghost predicate Consistent(p: Snapshot) {
    p.model.loaded <==> p.model.loadedInstances > 0
  }

  /** No more failures than calls, and no average above the maximum. */
  ghost predicate AggregateOk(a: Aggregate) {
    a.failedCount <= a.count && a.maxUs <= a.totalUs <= a.count * a.maxUs
  }

  ghost predicate Active(s: State) {
    s.registered && s.persist && !s.snapshot.stopped
  }

  /** The snapshot and the file are each consistent, and the snapshot counts the loaded models. */
  ghost predicate Agrees(s: State) {
    && Consistent(s.snapshot) && (s.file.Some? ==> Consistent(s.file.value))
    && s.snapshot.model.loadedInstances == |s.resources|
  }

  /** At time `now`: what is unsaved waits for a timer that is due within an interval of the change. */
  ghost predicate Scheduled(s: State, now: int) {
    && (s.timer.Some? ==> s.timer.value <= now + PERSIST_INTERVAL_MS)
    && (s.dirty ==> s.timer.Some? && s.registered && s.persist)
    && (Active(s) && s.unsavedSince.Some? ==> s.dirty && s.timer.value <= s.unsavedSince.value + PERSIST_INTERVAL_MS)
    && (Active(s) && s.unsavedSince == None ==> s.file == Some(s.snapshot))
  }

  ghost predicate Inv(s: State, now: int) {
    Agrees(s) && Scheduled(s, now)
  }

  /** Time does not run back, and no timer is late. */
  ghost predicate OnTime(s: State, e: Event, before: int, now: int) {
    && before <= now
    && (s.timer.Some? ==> now <= s.timer.value)
    && (e == TimerFires ==> s.timer == Some(now))
  }

  lemma ProductGrows(n: nat, x: nat, y: nat)
    requires x <= y
    ensures n * x <= n * y && (n + 1) * y == n * y + y
  {
  }

  lemma AddKeepsAggregate(a: Aggregate, us: int, succeeded: bool)
    requires AggregateOk(a)
    ensures AggregateOk(Add(a, us, succeeded))
  {
    ProductGrows(a.count, a.maxUs, Add(a, us, succeeded).maxUs);
  }

  lemma ChangedKeepsAggregates(s: State, e: Event)
    requires AggregateOk(s.snapshot.hot) && AggregateOk(s.snapshot.cold)
    ensures AggregateOk(Changed(s, e).snapshot.hot) && AggregateOk(Changed(s, e).snapshot.cold)
  {
    if e.Retrieval? {
      AddKeepsAggregate(s.snapshot.hot, e.durationUs, e.succeeded);
      AddKeepsAggregate(s.snapshot.cold, e.durationUs, e.succeeded);
    }
  }

  lemma StepKeepsAggregates(s: State, e: Event, now: int, works: bool)
    requires AggregateOk(s.snapshot.hot) && AggregateOk(s.snapshot.cold)
    ensures AggregateOk(Step(s, e, now, works).snapshot.hot) && AggregateOk(Step(s, e, now, works).snapshot.cold)
  {
    ChangedKeepsAggregates(s, e);
    SavingKeepsAggregates(s, e, now, works);
  }

  lemma SavingKeepsAggregates(s: State, e: Event, now: int, works: bool)
    ensures Step(s, e, now, works).snapshot.hot == Changed(s, e).snapshot.hot
    ensures Step(s, e, now, works).snapshot.cold == Changed(s, e).snapshot.cold
  {
    TouchKeepsAggregates(Changed(s, e), now, e.Register? || e == Stop, works);
  }

  lemma TouchKeepsAggregates(c: State, now: int, flush: bool, works: bool)
    ensures TouchAndPersist(c, now, flush, works).snapshot.hot == c.snapshot.hot
    ensures TouchAndPersist(c, now, flush, works).snapshot.cold == c.snapshot.cold
  {
  }

  /** Every step whose write works keeps the invariant. */
  lemma StepKeepsInv(s: State, e: Event, before: int, now: int)
    requires Inv(s, before) && OnTime(s, e, before, now)
    ensures Inv(Step(s, e, now, true), now)
  {
    StepKeepsAgreement(s, e, now);
    if e == TimerFires {
      FiringKeepsSchedule(s, before, now);
    } else {
      TouchKeepsSchedule(s, e, before, now);
    }
  }

  lemma FiringKeepsSchedule(s: State, before: int, now: int)
    requires Scheduled(s, before) && before <= now
    ensures Scheduled(Fired(s, now, true), now)
  {
  }

  lemma StepKeepsAgreement(s: State, e: Event, now: int)
    requires Agrees(s)
    ensures Agrees(Step(s, e, now, true))
  {
    if e != TimerFires {
      ChangeLeavesFile(s, e);
      TouchMakesAgreement(Changed(s, e), now, e.Register? || e == Stop);
    }
  }

  lemma ChangeLeavesFile(s: State, e: Event)
    ensures Changed(s, e).file == s.file
  {
  }

  lemma TouchMakesAgreement(c: State, now: int, flush: bool)
    requires c.file.Some? ==> Consistent(c.file.value)
    ensures Agrees(TouchAndPersist(c, now, flush, true))
  {
  }

  lemma TouchKeepsSchedule(s: State, e: Event, before: int, now: int)
    requires Scheduled(s, before) && OnTime(s, e, before, now) && e != TimerFires
    ensures Scheduled(Step(s, e, now, true), now)
  {
    var c := Changed(s, e);
    assert c.timer == s.timer && c.dirty == s.dirty && c.persist == s.persist && c.unsavedSince == s.unsavedSince;
    assert e.Register? || (c.registered == s.registered && (e == Stop || c.snapshot.stopped == s.snapshot.stopped));
    if !Writes(Touched(c, now), now, e.Register? || e == Stop) {
      assert Active(c) <==> Active(s);
    }
  }

  /** The file is never more than an interval behind. */
  lemma FileIsFresh(s: State, now: int)
    requires Inv(s, now) && Active(s) && (s.timer.Some? ==> now <= s.timer.value)
    ensures s.file == Some(s.snapshot) || (s.unsavedSince.Some? && now - s.unsavedSince.value <= PERSIST_INTERVAL_MS)
  {
  }

  // ---------------------------------------------------------------- whole runs

  /** A call, when it is made, and whether the write it may make works. */
  datatype Timed = Timed(event: Event, at: int, works: bool)

  function After(s: State, run: seq<Timed>): State
    decreases |run|
  {
    if run == [] then s else After(Step(s, run[0].event, run[0].at, run[0].works), run[1..])
  }

  ghost predicate RunOnTime(s: State, run: seq<Timed>, before: int)
    decreases |run|
  {
    run == [] ||
    (OnTime(s, run[0].event, before, run[0].at) && run[0].works &&
     RunOnTime(Step(s, run[0].event, run[0].at, true), run[1..], run[0].at))
  }

  function EndOf(run: seq<Timed>, start: int): int {
    if run == [] then start else run[|run| - 1].at
  }

  lemma {:induction false} RunKeepsInv(s: State, run: seq<Timed>, before: int)
    requires Inv(s, before) && RunOnTime(s, run, before)
    requires AggregateOk(s.snapshot.hot) && AggregateOk(s.snapshot.cold)
    ensures Inv(After(s, run), EndOf(run, before))
    ensures AggregateOk(After(s, run).snapshot.hot) && AggregateOk(After(s, run).snapshot.cold)
    decreases |run|
  {
    if run != [] {
      StepKeepsAggregates(s, run[0].event, run[0].at, true);
      StepKeepsInv(s, run[0].event, before, run[0].at);
      RunKeepsInv(Step(s, run[0].event, run[0].at, true), run[1..], run[0].at);
    }
  }

  /**
    From the start, after any on-time run and until the next timer: the file
    lags by an interval at most, and never contradicts itself.
   */
  lemma RunKeepsFileFresh(persist: bool, start: int, run: seq<Timed>, now: int)
    requires RunOnTime(Initial(persist, start), run, start) && EndOf(run, start) <= now
    requires After(Initial(persist, start), run).timer.Some? ==> now <= After(Initial(persist, start), run).timer.value
    ensures (var s := After(Initial(persist, start), run);
      && (Active(s) && s.file != Some(s.snapshot) ==>
           s.unsavedSince.Some? && now - s.unsavedSince.value <= PERSIST_INTERVAL_MS)
      && (s.file.Some? ==> Consistent(s.file.value))
      && AggregateOk(s.snapshot.hot) && AggregateOk(s.snapshot.cold))
  {
    assert Inv(Initial(persist, start), start);
    RunKeepsInv(Initial(persist, start), run, start);
  }

  // ---------------------------------------------------------------- the counts of a run

  datatype Kind = Loads | LoadFailures | Uses | Releases | ReleaseFailures | Retrievals(hot: bool) | Failures(hot: bool)

  predicate IsOf(e: Event, kind: Kind) {
    match kind
    case Loads => e.ModelLoad?
    case LoadFailures => e.ModelLoadFailure?
    case Uses => e.ModelActivity?
    case Releases => e.ModelRelease?
    case ReleaseFailures => e.ModelReleaseFailure?
    case Retrievals(hot) => e.Retrieval? && e.hot == hot
    case Failures(hot) => e.Retrieval? && e.hot == hot && !e.succeeded
  }

  /** Where a run has calls of this kind. */
  ghost function Places(run: seq<Timed>, kind: Kind): set<nat> {
    set i: nat | i < |run| && IsOf(run[i].event, kind)
  }

  /** The time that a tier's retrievals took together; a negative one counts as none. */
  ghost function TimeSpent(run: seq<Timed>, hot: bool): nat {
    if run == [] then 0
    else
      var n := |run| - 1;
      var e := run[n].event;
      TimeSpent(run[..n], hot) + if IsOf(e, Retrievals(hot)) && e.durationUs > 0 then e.durationUs else 0
  }

  /** The longest of a tier's retrievals. */
  ghost predicate IsLongest(us: nat, run: seq<Timed>, hot: bool) {
    && (forall i | i in Places(run, Retrievals(hot)) :: run[i].event.durationUs <= us)
    && (us == 0 || exists i :: i in Places(run, Retrievals(hot)) && run[i].event.durationUs == us)
  }

  ghost predicate TierIs(a: Aggregate, run: seq<Timed>, hot: bool) {
    && a.count == |Places(run, Retrievals(hot))| && a.failedCount == |Places(run, Failures(hot))|
    && a.totalUs == TimeSpent(run, hot) && IsLongest(a.maxUs, run, hot)
  }

  ghost predicate ModelIs(m: Model, run: seq<Timed>) {
    && m.loadCount == |Places(run, Loads)| && m.loadFailureCount == |Places(run, LoadFailures)|
    && m.releaseCount == |Places(run, Releases)| && m.releaseFailureCount == |Places(run, ReleaseFailures)|
    && m.useCount == |Places(run, Uses)|
  }

  /** The resource was loaded and not released since. */
  ghost predicate LoadedLast(run: seq<Timed>, id: string) {
    exists i :: 0 <= i < |run| && run[i].event == ModelLoad(id) && NoReleaseFrom(run, id, i)
  }

  ghost predicate NoReleaseFrom(run: seq<Timed>, id: string, i: nat) {
    forall j | i <= j < |run| :: run[j].event != ModelRelease(id)
  }

  ghost predicate Accounts(s: State, run: seq<Timed>) {
    && ModelIs(s.snapshot.model, run)
    && TierIs(s.snapshot.hot, run, true) && TierIs(s.snapshot.cold, run, false)
    && ResourcesAre(s.resources, run)
  }

  ghost predicate ResourcesAre(resources: set<string>, run: seq<Timed>) {
    forall id :: id in resources <==> LoadedLast(run, id)
  }

  lemma {:induction false} AfterSnoc(s: State, run: seq<Timed>)
    requires run != []
    ensures (var n := |run| - 1;
      After(s, run) == Step(After(s, run[..n]), run[n].event, run[n].at, run[n].works))
    decreases |run|
  {
    if |run| > 1 {
      AfterSnoc(Step(s, run[0].event, run[0].at, run[0].works), run[1..]);
      assert run[1..][..|run| - 2] == run[..|run| - 1][1..];
    }
  }

  lemma PlacesSnoc(run: seq<Timed>, kind: Kind)
    requires run != []
    ensures (var n := |run| - 1;
      |Places(run, kind)| == |Places(run[..n], kind)| + One(IsOf(run[n].event, kind)))
  {
    var n := |run| - 1;
    var before, last := Places(run[..n], kind), IsOf(run[n].event, kind);
    assert n !in before;
    assert forall i: nat :: i in Places(run, kind) <==> i in before || (last && i == n);
    assert Places(run, kind) == if last then before + {n} else before;
  }

  ghost predicate SameCounts(s: State, t: State) {
    && s.snapshot.hot == t.snapshot.hot && s.snapshot.cold == t.snapshot.cold && s.resources == t.resources
    && (var m, k := s.snapshot.model, t.snapshot.model;
        && m.loadCount == k.loadCount && m.loadFailureCount == k.loadFailureCount && m.useCount == k.useCount
        && m.releaseCount == k.releaseCount && m.releaseFailureCount == k.releaseFailureCount)
  }

  lemma TouchKeepsCounts(c: State, now: int, flush: bool, works: bool)
    ensures SameCounts(TouchAndPersist(c, now, flush, works), c)
  {
  }

  /** Saving leaves the counts as the event made them. */
  lemma SavingKeepsCounts(s: State, e: Event, now: int, works: bool)
    ensures SameCounts(Step(s, e, now, works), Changed(s, e))
  {
    TouchKeepsCounts(Changed(s, e), now, e.Register? || e == Stop, works);
  }

  lemma ModelSnoc(s: State, run: seq<Timed>)
    requires run != [] && ModelIs(s.snapshot.model, run[..|run| - 1])
    ensures ModelIs(Changed(s, run[|run| - 1].event).snapshot.model, run)
  {
    PlacesSnoc(run, Loads);
    PlacesSnoc(run, LoadFailures);
    PlacesSnoc(run, Uses);
    PlacesSnoc(run, Releases);
    PlacesSnoc(run, ReleaseFailures);
    ChangedModel(s, run[|run| - 1].event);
  }

  ghost function One(b: bool): nat {
    if b then 1 else 0
  }

  lemma ChangedModel(s: State, e: Event)
    ensures (var m, k := s.snapshot.model, Changed(s, e).snapshot.model;
      && k.loadCount == m.loadCount + One(IsOf(e, Loads))
      && k.loadFailureCount == m.loadFailureCount + One(IsOf(e, LoadFailures))
      && k.useCount == m.useCount + One(IsOf(e, Uses))
      && k.releaseCount == m.releaseCount + One(IsOf(e, Releases))
      && k.releaseFailureCount == m.releaseFailureCount + One(IsOf(e, ReleaseFailures)))
  {
  }

  lemma TierSnoc(a: Aggregate, run: seq<Timed>, hot: bool)
    requires run != [] && TierIs(a, run[..|run| - 1], hot)
    ensures (var e := run[|run| - 1].event;
      TierIs(if IsOf(e, Retrievals(hot)) then Add(a, e.durationUs, e.succeeded) else a, run, hot))
  {
    PlacesSnoc(run, Retrievals(hot));
    PlacesSnoc(run, Failures(hot));
    LongestSnoc(a.maxUs, run, hot);
  }

  lemma LongestSnoc(us: nat, run: seq<Timed>, hot: bool)
    requires run != [] && IsLongest(us, run[..|run| - 1], hot)
    ensures (var e := run[|run| - 1].event;
      IsLongest(if IsOf(e, Retrievals(hot)) && e.durationUs > us then e.durationUs else us, run, hot))
  {
    var n := |run| - 1;
    var before, e := run[..n], run[n].event;
    forall i | i in Places(run, Retrievals(hot)) && i < n
      ensures i in Places(before, Retrievals(hot)) && before[i] == run[i]
    {
    }
    if IsOf(e, Retrievals(hot)) && e.durationUs > us {
      assert n in Places(run, Retrievals(hot));
    } else if us > 0 {
      var i :| i in Places(before, Retrievals(hot)) && before[i].event.durationUs == us;
      assert i in Places(run, Retrievals(hot)) && run[i].event.durationUs == us;
    }
  }

  lemma LoadedSnoc(run: seq<Timed>, id: string)
    requires run != []
    ensures (var n := |run| - 1;
      LoadedLast(run, id)
      <==> run[n].event == ModelLoad(id) || (LoadedLast(run[..n], id) && run[n].event != ModelRelease(id)))
  {
    var n := |run| - 1;
    if LoadedLast(run, id) && run[n].event != ModelLoad(id) {
      var i :| 0 <= i < |run| && run[i].event == ModelLoad(id) && NoReleaseFrom(run, id, i);
      assert run[..n][i].event == ModelLoad(id) && NoReleaseFrom(run[..n], id, i);
    }
    if run[n].event == ModelLoad(id) {
      assert NoReleaseFrom(run, id, n);
    } else if LoadedLast(run[..n], id) && run[n].event != ModelRelease(id) {
      var i :| 0 <= i < n && run[..n][i].event == ModelLoad(id) && NoReleaseFrom(run[..n], id, i);
      assert forall j | i <= j < n :: run[..n][j] == run[j];
      assert NoReleaseFrom(run, id, i);
    }
  }

  /**
    Whatever becomes of its writes, the snapshot accounts for every call of a run: how many of each kind, the
    time each tier took and its longest retrieval, and as loaded exactly what was loaded and not released since.
   */
  lemma {:induction false} RunIsAccountedFor(persist: bool, start: int, run: seq<Timed>)
    ensures Accounts(After(Initial(persist, start), run), run)
  {
    var begin := Initial(persist, start);
    if run != [] {
      var n := |run| - 1;
      RunIsAccountedFor(persist, start, run[..n]);
      AfterSnoc(begin, run);
      OneMoreCall(After(begin, run[..n]), run);
    }
  }

  lemma OneMoreCall(s: State, run: seq<Timed>)
    requires run != [] && Accounts(s, run[..|run| - 1])
    ensures (var last := run[|run| - 1]; Accounts(Step(s, last.event, last.at, last.works), run))
  {
    var last := run[|run| - 1];
    ChangedAccounts(s, run);
    SavingKeepsCounts(s, last.event, last.at, last.works);
  }

  lemma ChangedAccounts(s: State, run: seq<Timed>)
    requires run != [] && Accounts(s, run[..|run| - 1])
    ensures Accounts(Changed(s, run[|run| - 1].event), run)
  {
    ModelSnoc(s, run);
    TierSnoc(s.snapshot.hot, run, true);
    TierSnoc(s.snapshot.cold, run, false);
    ChangedTiers(s, run[|run| - 1].event);
    ResourcesSnoc(s, run);
  }

  lemma ChangedTiers(s: State, e: Event)
    ensures Changed(s, e).snapshot.hot
         == if IsOf(e, Retrievals(true)) then Add(s.snapshot.hot, e.durationUs, e.succeeded) else s.snapshot.hot
    ensures Changed(s, e).snapshot.cold
         == if IsOf(e, Retrievals(false)) then Add(s.snapshot.cold, e.durationUs, e.succeeded) else s.snapshot.cold
  {
  }

  lemma ResourcesSnoc(s: State, run: seq<Timed>)
    requires run != [] && ResourcesAre(s.resources, run[..|run| - 1])
    ensures ResourcesAre(Changed(s, run[|run| - 1].event).resources, run)
  {
    forall id
      ensures id in Changed(s, run[|run| - 1].event).resources <==> LoadedLast(run, id)
    {
      LoadedSnoc(run, id);
    }
  }

  // ---------------------------------------------------------------- the end of a process

  /** After the process stops, its left-over timer brings no file back. */
  lemma StopLeavesNoFile(s: State, now: int, fires: seq<int>, works: bool)
    requires s.registered && s.persist
    ensures AfterTimers(Step(s, Stop, now, works), fires, works).file == None
  {
    StaysGone(Step(s, Stop, now, works), fires, works);
  }

  function AfterTimers(s: State, fires: seq<int>, works: bool): State
    decreases |fires|
  {
    if fires == [] then s else AfterTimers(Step(s, TimerFires, fires[0], works), fires[1..], works)
  }

  lemma {:induction false} StaysGone(s: State, fires: seq<int>, works: bool)
    requires !s.dirty && s.file == None
    ensures AfterTimers(s, fires, works).file == None
    decreases |fires|
  {
    if fires != [] {
      StaysGone(Step(s, TimerFires, fires[0], works), fires[1..], works);
    }
  }

  predicate TriesToWrite(s: State, e: Event, now: int) {
    if e == TimerFires then s.dirty
    else Changed(s, e).registered && s.persist && Writes(s, now, e.Register? || e == Stop)
  }

  /**
    A write that fails, whoever makes it, is not tried again: no
    timer mends the file, only another record call can.
   */
  lemma FailedWriteIsForgotten(s: State, e: Event, now: int, fires: seq<int>)
    requires TriesToWrite(s, e, now)
    ensures AfterTimers(Step(s, e, now, false), fires, true).file == if e == Stop then None else s.file
  {
    if e != TimerFires {
      var c := Changed(s, e);
      assert c.persist == s.persist && c.file == s.file && c.lastPersist == s.lastPersist;
    }
    NothingToWrite(Step(s, e, now, false), fires);
  }

  lemma {:induction false} NothingToWrite(s: State, fires: seq<int>)
    requires !s.dirty
    ensures AfterTimers(s, fires, true).file == s.file
    decreases |fires|
  {
    if fires != [] {
      NothingToWrite(Step(s, TimerFires, fires[0], true), fires[1..]);
    }
  }

  /** A timely call whose write works keeps the invariant. */
  ghost predicate Keeps(s: State, t: State, e: Event, before: int, now: int, works: bool) {
    works && Inv(s, before) && OnTime(s, e, before, now) ==> Inv(t, now)
  }

  lemma StepKeeps(s: State, e: Event, before: int, now: int, works: bool)
    ensures Keeps(s, Step(s, e, now, works), e, before, now, works)
  {
    if works && Inv(s, before) && OnTime(s, e, before, now) {
      StepKeepsInv(s, e, before, now);
    }
  }

  // ---------------------------------------------------------------- the class

  class RuntimeResourceTelemetry {
    var snapshot: Snapshot
    var loadedResources: set<string>
    var registered: bool
    var persistEnabled: bool
    var lastPersistMs: Option<int>
    var persistDirty: bool
    var flushTimer: Option<int>
    var file: Option<Snapshot>
    ghost var unsavedSince: Option<int>

    ghost function Now(): State
      reads this
    {
      State(snapshot, loadedResources, registered, persistEnabled, lastPersistMs,
            persistDirty, flushTimer, file, unsavedSince)
    }

    constructor (persist: bool, now: int)
      ensures Now() == Initial(persist, now)
    {
      var none := Aggregate(0, 0, 0, 0);
      snapshot := Snapshot("unknown", false, now, Model(false, 0, 0, 0, 0, 0, 0), none, none);
      loadedResources, registered, persistEnabled := {}, false, persist;
      lastPersistMs, persistDirty, flushTimer, file, unsavedSince := None, false, None, None, Some(now);
    }

    method WriteNow(now: int, works: bool)
      modifies this
      ensures Now() == PersistNow(old(Now()), now, works)
      ensures !persistDirty && (works ==> file == Some(snapshot) && unsavedSince == None)
    {
      persistDirty := false;
      lastPersistMs := Some(now);
      if works {
        file := Some(snapshot);
        unsavedSince := None;
      }
    }

    method Touch(now: int, flush: bool, works: bool)
      modifies this
      ensures Now() == TouchAndPersist(old(Now()), now, flush, works)
      ensures snapshot.model.loadedInstances == |loadedResources| && Consistent(snapshot) && snapshot.updatedAt == now
      ensures registered && persistEnabled ==>
        (if persistDirty then flushTimer.Some? && !flush
         else lastPersistMs == Some(now) && (works ==> file == Some(snapshot)))
    {
      if unsavedSince == None {
        unsavedSince := Some(now);
      }
      snapshot := snapshot.(updatedAt := now,
        model := snapshot.model.(loadedInstances := |loadedResources|, loaded := |loadedResources| > 0));
      if !registered || !persistEnabled {
        return;
      }
      if flush || lastPersistMs == None || now - lastPersistMs.value >= PERSIST_INTERVAL_MS {
        WriteNow(now, works);
        return;
      }
      persistDirty := true;
      if flushTimer == None {
        flushTimer := Some(now + PERSIST_INTERVAL_MS);
      }
    }

    method TimerCallback(now: int, works: bool, ghost before: int)
      modifies this
      ensures Now() == Step(old(Now()), TimerFires, now, works)
      ensures Keeps(old(Now()), Now(), TimerFires, before, now, works)
      ensures flushTimer == None && !persistDirty && (works && old(persistDirty) ==> file == Some(snapshot))
    {
      StepKeeps(Now(), TimerFires, before, now, works);
      flushTimer := None;
      if persistDirty {
        WriteNow(now, works);
      }
    }

    method RegisterProcess(client: string, now: int, works: bool, ghost before: int)
      modifies this
      ensures Now() == Step(old(Now()), Register(client), now, works)
      ensures Keeps(old(Now()), Now(), Register(client), before, now, works)
      ensures !persistDirty || !persistEnabled
      ensures registered && snapshot.client == client && !snapshot.stopped
      ensures persistEnabled && works ==> file == Some(snapshot)
    {
      StepKeeps(Now(), Register(client), before, now, works);
      registered := true;
      snapshot := snapshot.(client := client, stopped := false);
      Touch(now, true, works);
    }

    /** Removing the file works. */
    method MarkProcessStopped(now: int, works: bool, ghost before: int)
      modifies this
      ensures Now() == Step(old(Now()), Stop, now, works)
      ensures Keeps(old(Now()), Now(), Stop, before, now, works)
      ensures snapshot.stopped && (registered && persistEnabled ==> file == None && !persistDirty)
    {
      StepKeeps(Now(), Stop, before, now, works);
      snapshot := snapshot.(stopped := true);
      Touch(now, true, works);
      if registered && persistEnabled {
        file := None;
      }
    }

    method RecordModelLoad(resourceId: string, now: int, works: bool, ghost before: int)
      modifies this
      ensures Now() == Step(old(Now()), ModelLoad(resourceId), now, works)
      ensures Keeps(old(Now()), Now(), ModelLoad(resourceId), before, now, works)
      ensures snapshot.model.loaded && snapshot.model.loadedInstances == |old(loadedResources) + {resourceId}|
    {
      StepKeeps(Now(), ModelLoad(resourceId), before, now, works);
      loadedResources := loadedResources + {resourceId};
      snapshot := snapshot.(model := snapshot.model.(loadCount := snapshot.model.loadCount + 1));
      Touch(now, false, works);
    }

    method RecordModelRelease(resourceId: string, now: int, works: bool, ghost before: int)
      modifies this
      ensures Now() == Step(old(Now()), ModelRelease(resourceId), now, works)
      ensures Keeps(old(Now()), Now(), ModelRelease(resourceId), before, now, works)
      ensures snapshot.model.loaded <==> old(loadedResources) - {resourceId} != {}
    {
      StepKeeps(Now(), ModelRelease(resourceId), before, now, works);
      loadedResources := loadedResources - {resourceId};
      snapshot := snapshot.(model := snapshot.model.(releaseCount := snapshot.model.releaseCount + 1));
      Touch(now, false, works);
    }

    method RecordModelLoadFailure(now: int, works: bool, ghost before: int)
      modifies this
      ensures Now() == Step(old(Now()), ModelLoadFailure, now, works)
      ensures Keeps(old(Now()), Now(), ModelLoadFailure, before, now, works)
      ensures loadedResources == old(loadedResources)
    {
      StepKeeps(Now(), ModelLoadFailure, before, now, works);
      snapshot := snapshot.(model := snapshot.model.(loadFailureCount := snapshot.model.loadFailureCount + 1));
      Touch(now, false, works);
    }

    method RecordModelActivity(now: int, works: bool, ghost before: int)
      modifies this
      ensures Now() == Step(old(Now()), ModelActivity, now, works)
      ensures Keeps(old(Now()), Now(), ModelActivity, before, now, works)
      ensures loadedResources == old(loadedResources)
    {
      StepKeeps(Now(), ModelActivity, before, now, works);
      snapshot := snapshot.(model := snapshot.model.(useCount := snapshot.model.useCount + 1));
      Touch(now, false, works);
    }

    method RecordModelReleaseFailure(now: int, works: bool, ghost before: int)
      modifies this
      ensures Now() == Step(old(Now()), ModelReleaseFailure, now, works)
      ensures Keeps(old(Now()), Now(), ModelReleaseFailure, before, now, works)
      ensures loadedResources == old(loadedResources)
    {
      StepKeeps(Now(), ModelReleaseFailure, before, now, works);
      snapshot := snapshot.(model := snapshot.model.(releaseFailureCount := snapshot.model.releaseFailureCount + 1));
      Touch(now, false, works);
    }

    method RecordRetrieval(hot: bool, durationUs: int, succeeded: bool, now: int, works: bool, ghost before: int)
      modifies this
      ensures Now() == Step(old(Now()), Retrieval(hot, durationUs, succeeded), now, works)
      ensures Keeps(old(Now()), Now(), Retrieval(hot, durationUs, succeeded), before, now, works)
      ensures old(AggregateOk(snapshot.hot) && AggregateOk(snapshot.cold)) ==>
        (AggregateOk(snapshot.hot) && AggregateOk(snapshot.cold))
    {
      StepKeeps(Now(), Retrieval(hot, durationUs, succeeded), before, now, works);
      if AggregateOk(snapshot.hot) && AggregateOk(snapshot.cold) {
        StepKeepsAggregates(Now(), Retrieval(hot, durationUs, succeeded), now, works);
      }
      var aggregate := Add(if hot then snapshot.hot else snapshot.cold, durationUs, succeeded);
      snapshot := if hot then snapshot.(hot := aggregate) else snapshot.(cold := aggregate);
      Touch(now, false, works);
    }
  }
}
