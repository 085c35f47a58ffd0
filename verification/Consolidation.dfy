/**
  The consolidated store: a memory table, and a junction table that indexes the memories by
  source event.  The worker consults the index before it consolidates a group.
 */
module Consolidation {
  import opened Common
  import opened Sorting
  import opened EventGroups

  datatype Memory = Memory(summary: string, topics: seq<string>, sourceEvents: seq<string>, confidence: real)

  datatype Pair = Pair(memoryId: string, eventId: string)

  datatype Store = Store(memories: map<string, Memory>, junction: set<Pair>)

  const MIN_GROUP: nat := 3

  // ---------------------------------------------------------------- the transactions

  function Indexed(memoryId: string, sourceEvents: seq<string>): set<Pair> {
    set e | e in sourceEvents && e != "" :: Pair(memoryId, e)
  }

  function Created(s: Store, memoryId: string, m: Memory): Store {
    Store(s.memories[memoryId := m], s.junction + Indexed(memoryId, m.sourceEvents))
  }

  function Deleted(s: Store, memoryId: string): Store {
    Store(s.memories - {memoryId}, set p | p in s.junction && p.memoryId != memoryId)
  }

  /** On opening, an empty index is filled from the memories; here empty event ids are not skipped. */
  function Reopened(s: Store): Store {
    if s.junction != {} then s
    else s.(junction := set id, e | id in s.memories && e in s.memories[id].sourceEvents :: Pair(id, e))
  }

  predicate Lookup(s: Store, eventIds: seq<string>) {
    exists p :: p in s.junction && p.eventId in eventIds
  }

  // ---------------------------------------------------------------- what the index is for

  ghost predicate Sourced(s: Store, memoryId: string, eventId: string) {
    memoryId in s.memories && eventId in s.memories[memoryId].sourceEvents
  }

  /** Every row comes from a memory, and every named source event has its row. */
  ghost predicate IndexCovers(s: Store) {
    && (forall p :: p in s.junction ==> Sourced(s, p.memoryId, p.eventId))
    && (forall id, e :: Sourced(s, id, e) && e != "" ==> Pair(id, e) in s.junction)
  }

  /** The index holds exactly the pairs with a named event. */
  ghost predicate IndexExact(s: Store) {
    IndexCovers(s) && forall p :: p in s.junction ==> p.eventId != ""
  }

  ghost predicate DisjointSources(s: Store) {
    forall a, b, e :: Sourced(s, a, e) && Sourced(s, b, e) && e != "" ==> a == b
  }

  ghost predicate Inv(s: Store) {
    IndexCovers(s) && DisjointSources(s)
  }

  /** What a scan of every memory would answer. */
  ghost predicate ScanFinds(s: Store, eventIds: seq<string>) {
    exists id, e :: Sourced(s, id, e) && e in eventIds
  }

  ghost predicate ScanFindsNamed(s: Store, eventIds: seq<string>) {
    exists id, e :: Sourced(s, id, e) && e in eventIds && e != ""
  }

  /** The lookup answers as a scan would, but for events without an id. */
  lemma LookupAgreesWithScan(s: Store, eventIds: seq<string>)
    requires IndexCovers(s)
    ensures ScanFindsNamed(s, eventIds) ==> Lookup(s, eventIds)
    ensures Lookup(s, eventIds) ==> ScanFinds(s, eventIds)
    ensures "" !in eventIds || IndexExact(s) ==> (Lookup(s, eventIds) <==> ScanFindsNamed(s, eventIds))
  {
    if Lookup(s, eventIds) {
      var p :| p in s.junction && p.eventId in eventIds;
      assert Sourced(s, p.memoryId, p.eventId);
    }
    if ScanFindsNamed(s, eventIds) {
      var id, e :| Sourced(s, id, e) && e in eventIds && e != "";
      assert Pair(id, e) in s.junction;
    }
  }

  lemma CreatedSources(s: Store, memoryId: string, m: Memory, id: string, e: string)
    ensures (Sourced(Created(s, memoryId, m), id, e)
      <==> (if id == memoryId then e in m.sourceEvents else Sourced(s, id, e)))
  {
  }

  lemma CreateKeepsIndex(s: Store, memoryId: string, m: Memory)
    requires memoryId !in s.memories && IndexCovers(s)
    ensures IndexCovers(Created(s, memoryId, m))
    ensures IndexExact(s) ==> IndexExact(Created(s, memoryId, m))
  {
    var after := Created(s, memoryId, m);
    forall p | p in after.junction
      ensures Sourced(after, p.memoryId, p.eventId)
    {
      CreatedSources(s, memoryId, m, p.memoryId, p.eventId);
    }
    forall id, e | Sourced(after, id, e) && e != ""
      ensures Pair(id, e) in after.junction
    {
      CreatedSources(s, memoryId, m, id, e);
    }
  }

  /** A new memory shares no source with the others exactly when its named events are not found first. */
  lemma CreateKeepsSourcesDisjointIff(s: Store, memoryId: string, m: Memory)
    requires memoryId !in s.memories && Inv(s)
    ensures DisjointSources(Created(s, memoryId, m)) <==> !ScanFindsNamed(s, m.sourceEvents)
    ensures !Lookup(s, m.sourceEvents) ==> Inv(Created(s, memoryId, m))
  {
    var after := Created(s, memoryId, m);
    CreateKeepsIndex(s, memoryId, m);
    LookupAgreesWithScan(s, m.sourceEvents);
    forall id, e
      ensures Sourced(after, id, e) <==> (if id == memoryId then e in m.sourceEvents else Sourced(s, id, e))
    {
      CreatedSources(s, memoryId, m, id, e);
    }
    if ScanFindsNamed(s, m.sourceEvents) {
      var id, e :| Sourced(s, id, e) && e in m.sourceEvents && e != "";
      assert Sourced(after, id, e) && Sourced(after, memoryId, e);
    } else {
      assert forall id, e :: Sourced(s, id, e) && e != "" ==> e !in m.sourceEvents;
    }
  }

  /** Two workers that both looked before either created store the same event twice. */
  lemma LooksBeforeBothCreatesOverlap(s: Store, a: string, b: string, m: Memory, e: string)
    requires Inv(s) && a !in s.memories && b !in s.memories && a != b
    requires !Lookup(s, m.sourceEvents) && e in m.sourceEvents && e != ""
    ensures IndexCovers(Created(Created(s, a, m), b, m)) && !DisjointSources(Created(Created(s, a, m), b, m))
  {
    CreateKeepsSourcesDisjointIff(s, a, m);
    var first := Created(s, a, m);
    assert Sourced(first, a, e);
    CreateKeepsSourcesDisjointIff(first, b, m);
    CreateKeepsIndex(first, b, m);
  }

  lemma DeleteKeepsIndex(s: Store, memoryId: string)
    requires IndexCovers(s)
    ensures IndexCovers(Deleted(s, memoryId))
  {
    forall id, e
      ensures Sourced(Deleted(s, memoryId), id, e) <==> Sourced(s, id, e) && id != memoryId
    {
    }
  }

  lemma DeleteKeepsInv(s: Store, memoryId: string)
    requires Inv(s)
    ensures Inv(Deleted(s, memoryId))
    ensures IndexExact(s) ==> IndexExact(Deleted(s, memoryId))
    ensures forall e :: !Sourced(Deleted(s, memoryId), memoryId, e)
  {
    var after := Deleted(s, memoryId);
    forall id, e
      ensures Sourced(after, id, e) <==> Sourced(s, id, e) && id != memoryId
    {
    }
  }

  /** After a deletion the events of the deleted memory can be consolidated again. */
  lemma DeleteFreesEvents(s: Store, memoryId: string)
    requires IndexExact(s) && DisjointSources(s) && memoryId in s.memories
    ensures !Lookup(Deleted(s, memoryId), s.memories[memoryId].sourceEvents)
  {
    var after := Deleted(s, memoryId);
    if Lookup(after, s.memories[memoryId].sourceEvents) {
      var p :| p in after.junction && p.eventId in s.memories[memoryId].sourceEvents;
      assert Sourced(s, p.memoryId, p.eventId) && Sourced(s, memoryId, p.eventId);
      assert false;
    }
  }

  /** Opening gives an index to a store that has none, with no regard to what its memories share. */
  lemma ReopenIndexesIff(s: Store)
    ensures IndexCovers(Reopened(s)) <==> s.junction == {} || IndexCovers(s)
    ensures DisjointSources(Reopened(s)) <==> DisjointSources(s)
  {
    var after := Reopened(s);
    forall id, e
      ensures Sourced(after, id, e) <==> Sourced(s, id, e)
    {
    }
    if s.junction == {} {
      forall id, e | Sourced(s, id, e)
        ensures Pair(id, e) in after.junction
      {
      }
    }
  }

  /** An index made on opening is free of blank ids exactly when no memory has an event without an id. */
  lemma ReopenedIndexIsExactIff(s: Store)
    ensures IndexExact(Reopened(s)) <==> if s.junction == {} then forall id :: !Sourced(s, id, "") else IndexExact(s)
  {
    ReopenIndexesIff(s);
    var after := Reopened(s);
    if s.junction == {} {
      if id :| Sourced(s, id, "") {
        assert Pair(id, "") in after.junction;
      }
      forall p | p in after.junction
        ensures Sourced(s, p.memoryId, p.eventId)
      {
      }
    }
  }

  // ---------------------------------------------------------------- one run of the worker

  function EventIds(events: seq<Event>): (ids: seq<string>)
    ensures |ids| == |events|
    ensures forall i | 0 <= i < |events| :: ids[i] == events[i].id
  {
    seq(|events|, i requires 0 <= i < |events| => events[i].id)
  }

  function MemoryOf(group: Group, summarize: Group -> string): Memory {
    Memory(summarize(group), group.topics, EventIds(group.events), CalculateConfidence(group))
  }

  predicate Consolidates(s: Store, group: Group) {
    |group.events| >= MIN_GROUP && !Lookup(s, EventIds(group.events))
  }

  datatype Progress = Progress(store: Store, created: seq<string>)

  function WithGroup(p: Progress, group: Group, newId: string, summarize: Group -> string): Progress {
    if Consolidates(p.store, group) then
      Progress(Created(p.store, newId, MemoryOf(group, summarize)), p.created + [newId])
    else p
  }

  /** The store after the first `n` groups and the memories made, group `i` having drawn the id `newIds[i]`. */
  function AfterGroups(s: Store, groups: seq<Group>, newIds: seq<string>, summarize: Group -> string, n: nat): Progress
    requires n <= |groups| <= |newIds|
    decreases n, 1
  {
    if n == 0 then Progress(s, []) else AfterLastGroup(s, groups, newIds, summarize, n)
  }

  function AfterLastGroup(s: Store, groups: seq<Group>, newIds: seq<string>,
                          summarize: Group -> string, n: nat): Progress
    requires 0 < n <= |groups| <= |newIds|
    decreases n, 0
  {
    WithGroup(AfterGroups(s, groups, newIds, summarize, n - 1), groups[n - 1], newIds[n - 1], summarize)
  }

  ghost predicate FreshIds(s: Store, newIds: seq<string>) {
    && (forall i | 0 <= i < |newIds| :: newIds[i] !in s.memories)
    && (forall i, j | 0 <= i < j < |newIds| :: newIds[i] != newIds[j])
  }

  ghost predicate FromLargeGroup(m: Memory, groups: seq<Group>, summarize: Group -> string) {
    exists g :: g in groups && |g.events| >= MIN_GROUP && IsMemoryOf(m, g, summarize)
  }

  /** The memory has the ids of the group's events, in their order, and the group's topics, summary and confidence. */
  ghost predicate IsMemoryOf(m: Memory, g: Group, summarize: Group -> string) {
    && |m.sourceEvents| == |g.events| && (forall k | 0 <= k < |g.events| :: m.sourceEvents[k] == g.events[k].id)
    && m.topics == g.topics && m.summary == summarize(g) && m.confidence == CalculateConfidence(g)
  }

  /** The reported memories and no others were added, and the rest is untouched. */
  ghost predicate AddsTheCreated(s: Store, p: Progress) {
    && (forall id :: id in p.store.memories <==> id in s.memories || id in p.created)
    && |p.store.memories| == |s.memories| + |p.created|
    && (forall id | id in s.memories && id in p.store.memories :: p.store.memories[id] == s.memories[id])
  }

  ghost predicate CreatedFromLargeGroups(p: Progress, groups: seq<Group>, summarize: Group -> string) {
    forall id | id in p.created :: id in p.store.memories && FromLargeGroup(p.store.memories[id], groups, summarize)
  }

  lemma GroupAddsTheCreated(s: Store, p: Progress, newId: string, group: Group, summarize: Group -> string)
    requires AddsTheCreated(s, p) && newId !in s.memories && newId !in p.created
    ensures newId !in p.store.memories && AddsTheCreated(s, WithGroup(p, group, newId, summarize))
  {
    if Consolidates(p.store, group) {
      OneMore(p.store.memories, newId, MemoryOf(group, summarize));
    }
  }

  lemma GroupCreatesFromLargeGroups(p: Progress, newId: string, groups: seq<Group>, i: nat, summarize: Group -> string)
    requires i < |groups| && CreatedFromLargeGroups(p, groups, summarize) && newId !in p.store.memories
    ensures CreatedFromLargeGroups(WithGroup(p, groups[i], newId, summarize), groups, summarize)
  {
    if Consolidates(p.store, groups[i]) {
      assert IsMemoryOf(MemoryOf(groups[i], summarize), groups[i], summarize);
      assert FromLargeGroup(MemoryOf(groups[i], summarize), groups, summarize);
    }
  }

  lemma GroupKeepsInv(p: Progress, newId: string, group: Group, summarize: Group -> string)
    requires Inv(p.store) && newId !in p.store.memories
    ensures Inv(WithGroup(p, group, newId, summarize).store)
  {
    if Consolidates(p.store, group) {
      CreateKeepsSourcesDisjointIff(p.store, newId, MemoryOf(group, summarize));
    }
  }

  ghost predicate NotDrawn(newIds: seq<string>, n: nat, created: seq<string>) {
    forall i: nat | n <= i < |newIds| :: newIds[i] !in created
  }

  /** A run adds the reported memories and nothing else. */
  lemma {:induction false} RunAddsTheCreated(s: Store, groups: seq<Group>, newIds: seq<string>,
                                             summarize: Group -> string, n: nat)
    requires n <= |groups| <= |newIds| && FreshIds(s, newIds)
    ensures AddsTheCreated(s, AfterGroups(s, groups, newIds, summarize, n))
    ensures NotDrawn(newIds, n, AfterGroups(s, groups, newIds, summarize, n).created)
  {
    if n > 0 {
      RunAddsTheCreated(s, groups, newIds, summarize, n - 1);
      LastGroup(s, groups, newIds, summarize, n);
      GroupAddsTheCreated(s, AfterGroups(s, groups, newIds, summarize, n - 1), newIds[n - 1], groups[n - 1], summarize);
    }
  }

  /** Each memory a run adds is made from one large group. */
  lemma {:induction false} RunUsesLargeGroups(s: Store, groups: seq<Group>, newIds: seq<string>,
                                              summarize: Group -> string, n: nat)
    requires n <= |groups| <= |newIds| && FreshIds(s, newIds)
    ensures CreatedFromLargeGroups(AfterGroups(s, groups, newIds, summarize, n), groups, summarize)
  {
    if n > 0 {
      RunUsesLargeGroups(s, groups, newIds, summarize, n - 1);
      RunLeavesIdFree(s, groups, newIds, summarize, n - 1);
      LastGroup(s, groups, newIds, summarize, n);
      var before := AfterGroups(s, groups, newIds, summarize, n - 1);
      GroupCreatesFromLargeGroups(before, newIds[n - 1], groups, n - 1, summarize);
    }
  }

  /** The next group's id is still free. */
  lemma RunLeavesIdFree(s: Store, groups: seq<Group>, newIds: seq<string>, summarize: Group -> string, n: nat)
    requires n < |groups| <= |newIds| && FreshIds(s, newIds)
    ensures newIds[n] !in AfterGroups(s, groups, newIds, summarize, n).store.memories
  {
    RunAddsTheCreated(s, groups, newIds, summarize, n);
  }

  lemma {:induction false} RunKeepsInv(s: Store, groups: seq<Group>, newIds: seq<string>,
                                       summarize: Group -> string, n: nat)
    requires n <= |groups| <= |newIds| && FreshIds(s, newIds) && Inv(s)
    ensures Inv(AfterGroups(s, groups, newIds, summarize, n).store)
  {
    if n > 0 {
      RunKeepsInv(s, groups, newIds, summarize, n - 1);
      RunLeavesIdFree(s, groups, newIds, summarize, n - 1);
      LastGroup(s, groups, newIds, summarize, n);
      GroupKeepsInv(AfterGroups(s, groups, newIds, summarize, n - 1), newIds[n - 1], groups[n - 1], summarize);
    }
  }

  lemma LastGroup(s: Store, groups: seq<Group>, newIds: seq<string>, summarize: Group -> string, n: nat)
    requires 0 < n <= |groups| <= |newIds|
    ensures AfterGroups(s, groups, newIds, summarize, n)
         == WithGroup(AfterGroups(s, groups, newIds, summarize, n - 1), groups[n - 1], newIds[n - 1], summarize)
  {
    assert AfterGroups(s, groups, newIds, summarize, n) == AfterLastGroup(s, groups, newIds, summarize, n);
  }

  lemma MemoryConfidence(m: Memory, groups: seq<Group>, summarize: Group -> string)
    requires FromLargeGroup(m, groups, summarize)
    ensures 0.0 <= m.confidence <= 1.0 && |m.sourceEvents| >= MIN_GROUP
  {
    var g :| g in groups && |g.events| >= MIN_GROUP && IsMemoryOf(m, g, summarize);
    ConfidenceRange(g);
  }

  lemma {:induction false} LookupsStay(s: Store, groups: seq<Group>, newIds: seq<string>,
                                       summarize: Group -> string, m: nat, n: nat, ids: seq<string>)
    requires m <= n <= |groups| <= |newIds|
    requires Lookup(AfterGroups(s, groups, newIds, summarize, m).store, ids)
    ensures Lookup(AfterGroups(s, groups, newIds, summarize, n).store, ids)
  {
    if m < n {
      LastGroup(s, groups, newIds, summarize, n);
      LookupsStay(s, groups, newIds, summarize, m, n - 1, ids);
    }
  }

  /** A run leaves every large group consolidated, by a memory of its own or by one it shares events with. */
  lemma RunCoversLargeGroups(s: Store, groups: seq<Group>, newIds: seq<string>, summarize: Group -> string, i: nat)
    requires i < |groups| <= |newIds| && NoRepeats(groups) && |groups[i].events| >= MIN_GROUP
    ensures Lookup(AfterGroups(s, groups, newIds, summarize, |groups|).store, EventIds(groups[i].events))
  {
    var before := AfterGroups(s, groups, newIds, summarize, i).store;
    var after := AfterGroups(s, groups, newIds, summarize, i + 1).store;
    var ids := EventIds(groups[i].events);
    LastGroup(s, groups, newIds, summarize, i + 1);
    if Consolidates(before, groups[i]) {
      var k := if ids[0] != "" then 0 else 1;
      assert groups[i].events[0].id != groups[i].events[1].id;
      assert ids[k] in ids && Pair(newIds[i], ids[k]) in after.junction;
    }
    assert Lookup(after, ids);
    LookupsStay(s, groups, newIds, summarize, i + 1, |groups|, ids);
  }

  lemma {:induction false} NothingLeftToDo(s: Store, groups: seq<Group>, newIds: seq<string>,
                                           summarize: Group -> string, n: nat)
    requires n <= |groups| <= |newIds|
    requires forall i | 0 <= i < |groups| :: |groups[i].events| >= MIN_GROUP ==> Lookup(s, EventIds(groups[i].events))
    ensures AfterGroups(s, groups, newIds, summarize, n) == Progress(s, [])
  {
    if n > 0 {
      NothingLeftToDo(s, groups, newIds, summarize, n - 1);
      LastGroup(s, groups, newIds, summarize, n);
    }
  }

  function Run(s: Store, events: seq<Event>, topicsOf: Topics, newIds: seq<string>,
               summarize: Group -> string): Progress
    requires |MergeAll(TopicGroups(events, topicsOf))| <= |newIds|
  {
    if |events| < MIN_GROUP then Progress(s, [])
    else
      var groups := MergeAll(TopicGroups(events, topicsOf));
      AfterGroups(s, groups, newIds, summarize, |groups|)
  }

  /** Running again on the same working set consolidates nothing more. */
  lemma RunTwiceIsRunOnce(s: Store, events: seq<Event>, topicsOf: Topics, newIds: seq<string>,
                          moreIds: seq<string>, summarize: Group -> string)
    requires |MergeAll(TopicGroups(events, topicsOf))| <= |newIds|
    requires |MergeAll(TopicGroups(events, topicsOf))| <= |moreIds|
    ensures (var once := Run(s, events, topicsOf, newIds, summarize).store;
      Run(once, events, topicsOf, moreIds, summarize) == Progress(once, []))
  {
    if |events| >= MIN_GROUP {
      var groups := MergeAll(TopicGroups(events, topicsOf));
      var once := AfterGroups(s, groups, newIds, summarize, |groups|).store;
      GroupingLosesNothing(events, topicsOf, "", "");
      forall i | 0 <= i < |groups| && |groups[i].events| >= MIN_GROUP
        ensures Lookup(once, EventIds(groups[i].events))
      {
        RunCoversLargeGroups(s, groups, newIds, summarize, i);
      }
      NothingLeftToDo(once, groups, moreIds, summarize, |groups|);
    }
  }

  /** The memory's sources are exactly the events that carry one of its topics, each once. */
  ghost predicate HoldsTopics(m: Memory, events: seq<Event>, topicsOf: Topics) {
    && Distinct(m.sourceEvents)
    && (forall id :: id in m.sourceEvents <==> exists t :: t in m.topics && Carries(events, id, t, topicsOf))
    && (forall t | t in m.topics :: exists id :: Carries(events, id, t, topicsOf))
  }

  lemma MemoryHoldsTopics(m: Memory, g: Group, events: seq<Event>, topicsOf: Topics, summarize: Group -> string)
    requires IsMemoryOf(m, g, summarize) && HoldsItsTopics(g, events, topicsOf) && DistinctIds(g.events)
    ensures HoldsTopics(m, events, topicsOf)
  {
    forall id
      ensures id in m.sourceEvents <==> HasId(g.events, id)
    {
    }
  }

  /** Every memory a run makes has exactly the events of the working set that carry one of its topics. */
  lemma RunKeepsTopicsTogether(s: Store, events: seq<Event>, topicsOf: Topics, newIds: seq<string>,
                               summarize: Group -> string, id: string)
    requires |MergeAll(TopicGroups(events, topicsOf))| <= |newIds| && FreshIds(s, newIds)
    requires id in Run(s, events, topicsOf, newIds, summarize).created
    ensures (var store := Run(s, events, topicsOf, newIds, summarize).store;
      id in store.memories && HoldsTopics(store.memories[id], events, topicsOf))
  {
    var groups := MergeAll(TopicGroups(events, topicsOf));
    RunUsesLargeGroups(s, groups, newIds, summarize, |groups|);
    GroupsHoldTheirTopics(events, topicsOf);
    GroupingLosesNothing(events, topicsOf, "", "");
    var m := Run(s, events, topicsOf, newIds, summarize).store.memories[id];
    var g :| g in groups && |g.events| >= MIN_GROUP && IsMemoryOf(m, g, summarize);
    MemoryHoldsTopics(m, g, events, topicsOf, summarize);
  }

  // ---------------------------------------------------------------- every history

  datatype Action =
    | Consolidate(events: seq<Event>, newIds: seq<string>)
    | Delete(memoryId: string)
    | Reopen

  ghost predicate Enabled(s: Store, a: Action, topicsOf: Topics) {
    a.Consolidate? ==> (FreshIds(s, a.newIds) && |MergeAll(TopicGroups(a.events, topicsOf))| <= |a.newIds|)
  }

  function Apply(s: Store, a: Action, topicsOf: Topics, summarize: Group -> string): Store
    requires a.Consolidate? ==> |MergeAll(TopicGroups(a.events, topicsOf))| <= |a.newIds|
  {
    match a
    case Consolidate(events, newIds) => Run(s, events, topicsOf, newIds, summarize).store
    case Delete(memoryId) => Deleted(s, memoryId)
    case Reopen => Reopened(s)
  }

  ghost predicate Runs(s: Store, actions: seq<Action>, topicsOf: Topics, summarize: Group -> string, t: Store)
    decreases |actions|
  {
    if actions == [] then s == t
    else
      && Enabled(s, actions[0], topicsOf)
      && Runs(Apply(s, actions[0], topicsOf, summarize), actions[1..], topicsOf, summarize, t)
  }

  lemma StepKeepsInv(s: Store, a: Action, topicsOf: Topics, summarize: Group -> string)
    requires Enabled(s, a, topicsOf) && Inv(s)
    ensures Inv(Apply(s, a, topicsOf, summarize))
  {
    match a
    case Consolidate(events, newIds) =>
      var groups := MergeAll(TopicGroups(events, topicsOf));
      RunKeepsInv(s, groups, newIds, summarize, |groups|);
    case Delete(memoryId) =>
      DeleteKeepsInv(s, memoryId);
    case Reopen =>
      ReopenIndexesIff(s);
  }

  /** The store can serve its first action: it is indexed, or that action opens it for the first time. */
  ghost predicate Ready(s: Store, actions: seq<Action>) {
    IndexCovers(s) || (s.junction == {} && actions != [] && actions[0] == Reopen)
  }

  lemma {:induction false} RunKeepsIndex(s: Store, groups: seq<Group>, newIds: seq<string>,
                                         summarize: Group -> string, n: nat)
    requires n <= |groups| <= |newIds| && FreshIds(s, newIds) && IndexCovers(s)
    ensures IndexCovers(AfterGroups(s, groups, newIds, summarize, n).store)
  {
    if n > 0 {
      RunKeepsIndex(s, groups, newIds, summarize, n - 1);
      RunLeavesIdFree(s, groups, newIds, summarize, n - 1);
      LastGroup(s, groups, newIds, summarize, n);
      var before := AfterGroups(s, groups, newIds, summarize, n - 1).store;
      if Consolidates(before, groups[n - 1]) {
        CreateKeepsIndex(before, newIds[n - 1], MemoryOf(groups[n - 1], summarize));
      }
    }
  }

  lemma StepKeepsIndex(s: Store, a: Action, topicsOf: Topics, summarize: Group -> string)
    requires Enabled(s, a, topicsOf) && Ready(s, [a])
    ensures IndexCovers(Apply(s, a, topicsOf, summarize))
  {
    match a
    case Consolidate(events, newIds) =>
      var groups := MergeAll(TopicGroups(events, topicsOf));
      RunKeepsIndex(s, groups, newIds, summarize, |groups|);
    case Delete(memoryId) =>
      DeleteKeepsIndex(s, memoryId);
    case Reopen =>
      ReopenIndexesIff(s);
  }

  /** Through any runs, deletions and restarts the index matches the memories, even from a store that had none. */
  lemma {:induction false} HistoryKeepsIndex(s: Store, actions: seq<Action>, topicsOf: Topics,
                                             summarize: Group -> string, t: Store)
    requires Runs(s, actions, topicsOf, summarize, t) && Ready(s, actions)
    ensures IndexCovers(t)
    decreases |actions|
  {
    if actions != [] {
      StepKeepsIndex(s, actions[0], topicsOf, summarize);
      HistoryKeepsIndex(Apply(s, actions[0], topicsOf, summarize), actions[1..], topicsOf, summarize, t);
    }
  }

  /** And no two memories share a named event, if none did at the start. */
  lemma {:induction false} HistoryKeepsInv(s: Store, actions: seq<Action>, topicsOf: Topics,
                                           summarize: Group -> string, t: Store)
    requires Runs(s, actions, topicsOf, summarize, t) && Ready(s, actions) && DisjointSources(s)
    ensures Inv(t)
    decreases |actions|
  {
    if actions != [] {
      if IndexCovers(s) {
        StepKeepsInv(s, actions[0], topicsOf, summarize);
      } else {
        ReopenIndexesIff(s);
      }
      HistoryKeepsInv(Apply(s, actions[0], topicsOf, summarize), actions[1..], topicsOf, summarize, t);
    }
  }

  // ---------------------------------------------------------------- the store

  class ConsolidatedStore {
    var memories: map<string, Memory>
    var junction: set<Pair>

    function State(): Store
      reads this
    {
      Store(memories, junction)
    }

    constructor ()
      ensures State() == Store(map[], {}) && Inv(State())
    {
      memories, junction := map[], {};
    }

    /** The primary key refuses an id in use, and the transaction then leaves both tables as they were. */
    method Create(memoryId: string, m: Memory) returns (ok: bool)
      modifies this
      ensures ok <==> memoryId !in old(memories)
      ensures State() == if ok then Created(old(State()), memoryId, m) else old(State())
    {
      if memoryId in memories {
        return false;
      }
      memories := memories[memoryId := m];
      var i := 0;
      while i < |m.sourceEvents|
        invariant 0 <= i <= |m.sourceEvents| && memories == old(memories)[memoryId := m]
        invariant junction == old(junction) + Indexed(memoryId, m.sourceEvents[..i])
      {
        assert m.sourceEvents[..i + 1] == m.sourceEvents[..i] + [m.sourceEvents[i]];
        if m.sourceEvents[i] != "" {
          junction := junction + {Pair(memoryId, m.sourceEvents[i])};
        }
        i := i + 1;
      }
      assert m.sourceEvents[..|m.sourceEvents|] == m.sourceEvents;
      ok := true;
    }

    method Delete(memoryId: string)
      modifies this
      ensures State() == Deleted(old(State()), memoryId)
    {
      junction := set p | p in junction && p.memoryId != memoryId;
      memories := memories - {memoryId};
    }

    method IsAlreadyConsolidated(eventIds: seq<string>) returns (found: bool)
      ensures found <==> Lookup(State(), eventIds)
    {
      if eventIds == [] {
        return false;
      }
      found := exists p :: p in junction && p.eventId in eventIds;
    }

    method Open()
      modifies this
      ensures State() == Reopened(old(State()))
    {
      if junction == {} {
        junction := set id, e | id in memories && e in memories[id].sourceEvents :: Pair(id, e);
      }
    }

    /** One consolidation run; `newIds` are the random ids it may draw. */
    method ConsolidateWithReport(events: seq<Event>, topicsOf: Topics, summarize: Group -> string, newIds: seq<string>)
      returns (created: seq<string>)
      requires FreshIds(State(), newIds) && |MergeAll(TopicGroups(events, topicsOf))| <= |newIds|
      modifies this
      ensures Progress(State(), created) == Run(old(State()), events, topicsOf, newIds, summarize)
    {
      created := [];
      if |events| < MIN_GROUP {
        return;
      }
      var groups := GroupByTopic(events, topicsOf);
      ghost var start := State();
      var i := 0;
      while i < |groups|
        invariant 0 <= i <= |groups|
        invariant Progress(State(), created) == AfterGroups(start, groups, newIds, summarize, i)
      {
        RunLeavesIdFree(start, groups, newIds, summarize, i);
        LastGroup(start, groups, newIds, summarize, i + 1);
        var made := ConsolidateGroup(groups[i], newIds[i], summarize);
        if made {
          created := created + [newIds[i]];
        }
        i := i + 1;
      }
    }

    /** The body of the loop over the groups. */
    method ConsolidateGroup(group: Group, newId: string, summarize: Group -> string) returns (made: bool)
      requires newId !in memories
      modifies this
      ensures made <==> Consolidates(old(State()), group)
      ensures State() == if made then Created(old(State()), newId, MemoryOf(group, summarize)) else old(State())
    {
      if |group.events| < MIN_GROUP {
        return false;
      }
      var alreadyConsolidated := IsAlreadyConsolidated(EventIds(group.events));
      if alreadyConsolidated {
        return false;
      }
      made := Create(newId, MemoryOf(group, summarize));
    }
  }
}
