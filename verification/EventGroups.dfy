/**
  How the consolidation worker groups the working set: one group per topic, then groups that
  share more than half their events with an earlier one are merged into it.
 */
module EventGroups {
  import opened Sorting

  datatype Event = Event(id: string, content: string, timestamp: int)

  datatype Group = Group(topics: seq<string>, events: seq<Event>)

  /** The topics found in a text; how they are found is left open. */
  type Topics = string -> seq<string>

  // ---------------------------------------------------------------- lists without repeats

  predicate HasId(events: seq<Event>, id: string) {
    exists i :: 0 <= i < |events| && events[i].id == id
  }

  ghost predicate DistinctIds(events: seq<Event>) {
    forall i, j | 0 <= i < j < |events| :: events[i].id != events[j].id
  }

  function AddEvent(events: seq<Event>, e: Event): seq<Event> {
    if HasId(events, e.id) then events else events + [e]
  }

  function AddEvents(events: seq<Event>, more: seq<Event>): seq<Event> {
    if more == [] then events else AddEvent(AddEvents(events, more[..|more| - 1]), more[|more| - 1])
  }

  function AddTopic(topics: seq<string>, t: string): seq<string> {
    if t in topics then topics else topics + [t]
  }

  function AddTopics(topics: seq<string>, more: seq<string>): seq<string> {
    if more == [] then topics else AddTopic(AddTopics(topics, more[..|more| - 1]), more[|more| - 1])
  }

  lemma AddEventAdds(events: seq<Event>, e: Event, id: string)
    ensures HasId(AddEvent(events, e), id) <==> HasId(events, id) || e.id == id
    ensures DistinctIds(events) ==> DistinctIds(AddEvent(events, e))
  {
    var after := AddEvent(events, e);
    assert forall i | 0 <= i < |events| :: after[i] == events[i];
    if !HasId(events, e.id) {
      assert after[|events|] == e;
    }
  }

  lemma {:induction false} AddEventsAdds(events: seq<Event>, more: seq<Event>, id: string)
    ensures HasId(AddEvents(events, more), id) <==> HasId(events, id) || HasId(more, id)
    ensures DistinctIds(events) ==> DistinctIds(AddEvents(events, more))
  {
    if more != [] {
      var n := |more| - 1;
      AddEventsAdds(events, more[..n], id);
      AddEventAdds(AddEvents(events, more[..n]), more[n], id);
      HasIdSnoc(more, id);
    }
  }

  lemma {:induction false} AddEventsKeeps(events: seq<Event>, more: seq<Event>)
    ensures events <= AddEvents(events, more) && forall e | e in AddEvents(events, more) :: e in events || e in more
  {
    if more != [] {
      AddEventsKeeps(events, more[..|more| - 1]);
    }
  }

  lemma HasIdSnoc(events: seq<Event>, id: string)
    requires events != []
    ensures HasId(events, id) <==> HasId(events[..|events| - 1], id) || events[|events| - 1].id == id
  {
    assert forall i | 0 <= i < |events| - 1 :: events[..|events| - 1][i] == events[i];
  }

  lemma {:induction false} AddTopicsAdds(topics: seq<string>, more: seq<string>)
    ensures forall t :: t in AddTopics(topics, more) <==> t in topics || t in more
    ensures Distinct(topics) ==> Distinct(AddTopics(topics, more))
  {
    if more != [] {
      AddTopicsAdds(topics, more[..|more| - 1]);
      assert more == more[..|more| - 1] + [more[|more| - 1]];
    }
  }

  // ---------------------------------------------------------------- one group per topic

  /** The events that carry topic `t`, the first of each id. */
  function TopicEvents(events: seq<Event>, t: string, topicsOf: Topics): seq<Event> {
    if events == [] then []
    else
      var e := events[|events| - 1];
      var earlier := TopicEvents(events[..|events| - 1], t, topicsOf);
      if t in topicsOf(e.content) then AddEvent(earlier, e) else earlier
  }

  /** All topics, in the order they are first met. */
  function TopicOrder(events: seq<Event>, topicsOf: Topics): seq<string> {
    if events == [] then []
    else AddTopics(TopicOrder(events[..|events| - 1], topicsOf), topicsOf(events[|events| - 1].content))
  }

  function GroupsOf(order: seq<string>, events: seq<Event>, topicsOf: Topics): seq<Group> {
    seq(|order|, i requires 0 <= i < |order| => Group([order[i]], TopicEvents(events, order[i], topicsOf)))
  }

  function TopicGroups(events: seq<Event>, topicsOf: Topics): seq<Group> {
    GroupsOf(TopicOrder(events, topicsOf), events, topicsOf)
  }

  ghost predicate Carries(events: seq<Event>, id: string, t: string, topicsOf: Topics) {
    exists i :: 0 <= i < |events| && events[i].id == id && t in topicsOf(events[i].content)
  }

  lemma CarriesSnoc(events: seq<Event>, id: string, t: string, topicsOf: Topics)
    requires events != []
    ensures Carries(events, id, t, topicsOf)
      <==> (Carries(events[..|events| - 1], id, t, topicsOf) ||
            (events[|events| - 1].id == id && t in topicsOf(events[|events| - 1].content)))
  {
    assert forall i | 0 <= i < |events| - 1 :: events[..|events| - 1][i] == events[i];
  }

  lemma {:induction false} TopicEventsCarry(events: seq<Event>, t: string, topicsOf: Topics, id: string)
    ensures HasId(TopicEvents(events, t, topicsOf), id) <==> Carries(events, id, t, topicsOf)
  {
    if events != [] {
      var init, e := events[..|events| - 1], events[|events| - 1];
      TopicEventsCarry(init, t, topicsOf, id);
      AddEventAdds(TopicEvents(init, t, topicsOf), e, id);
      CarriesSnoc(events, id, t, topicsOf);
    }
  }

  lemma {:induction false} TopicEventsDistinct(events: seq<Event>, t: string, topicsOf: Topics)
    ensures DistinctIds(TopicEvents(events, t, topicsOf))
    ensures forall e | e in TopicEvents(events, t, topicsOf) :: e in events && t in topicsOf(e.content)
  {
    if events != [] {
      var init, e := events[..|events| - 1], events[|events| - 1];
      TopicEventsDistinct(init, t, topicsOf);
      AddEventAdds(TopicEvents(init, t, topicsOf), e, "");
    }
  }

  lemma {:induction false} TopicOrderMembers(events: seq<Event>, topicsOf: Topics, t: string)
    ensures Distinct(TopicOrder(events, topicsOf))
    ensures t in TopicOrder(events, topicsOf)
      <==> (exists i :: 0 <= i < |events| && t in topicsOf(events[i].content))
  {
    if events != [] {
      var n := |events| - 1;
      var init, e := events[..n], events[n];
      TopicOrderMembers(init, topicsOf, t);
      AddTopicsAdds(TopicOrder(init, topicsOf), topicsOf(e.content));
      assert forall i | 0 <= i < n :: init[i] == events[i];
    }
  }

  // ---------------------------------------------------------------- merging

  function Overlap(group: seq<Event>, existing: seq<Event>): nat {
    if group == [] then 0
    else Overlap(group[..|group| - 1], existing) + if HasId(existing, group[|group| - 1].id) then 1 else 0
  }

  /** Where the group has an event whose id is there already. */
  ghost function SharedPlaces(group: seq<Event>, existing: seq<Event>): set<nat> {
    set i: nat | i < |group| && HasId(existing, group[i].id)
  }

  lemma {:induction false} OverlapIsCount(group: seq<Event>, existing: seq<Event>)
    ensures Overlap(group, existing) == |SharedPlaces(group, existing)|
  {
    if group != [] {
      OverlapIsCount(group[..|group| - 1], existing);
      SharedSnoc(group, existing);
    }
  }

  lemma SharedSnoc(group: seq<Event>, existing: seq<Event>)
    requires group != []
    ensures (var n := |group| - 1;
      var before := SharedPlaces(group[..n], existing);
      n !in before && SharedPlaces(group, existing) == before + if HasId(existing, group[n].id) then {n} else {})
  {
    assert forall i | 0 <= i < |group| - 1 :: group[..|group| - 1][i] == group[i];
  }

  /** More than half of the group's events are already there. */
  ghost predicate MoreThanHalf(group: Group, existing: Group) {
    2 * |SharedPlaces(group.events, existing.events)| > |group.events|
  }

  predicate Absorbs(existing: Group, group: Group) {
    2 * Overlap(group.events, existing.events) > |group.events|
  }

  /** The first group from `k` on that absorbs the new one, or the number of groups. */
  function FirstAbsorbing(merged: seq<Group>, group: Group, k: nat): (r: nat)
    requires k <= |merged|
    ensures k <= r <= |merged| && (r < |merged| ==> Absorbs(merged[r], group))
    ensures forall j | k <= j < r :: !Absorbs(merged[j], group)
    decreases |merged| - k
  {
    if k == |merged| || Absorbs(merged[k], group) then k else FirstAbsorbing(merged, group, k + 1)
  }

  function Join(existing: Group, group: Group): Group {
    Group(AddTopics(AddTopics([], existing.topics), group.topics), AddEvents(existing.events, group.events))
  }

  function MergeInto(merged: seq<Group>, group: Group): seq<Group> {
    var k := FirstAbsorbing(merged, group, 0);
    if k < |merged| then merged[k := Join(merged[k], group)] else merged + [group]
  }

  function MergeAll(groups: seq<Group>): seq<Group>
    decreases |groups|, 1
  {
    if groups == [] then [] else MergeLast(groups)
  }

  function MergeLast(groups: seq<Group>): seq<Group>
    requires groups != []
    decreases |groups|, 0
  {
    MergeInto(MergeAll(groups[..|groups| - 1]), groups[|groups| - 1])
  }

  /** Every event id and every topic of `small` is in `big`. */
  ghost predicate Within(small: Group, big: Group) {
    && (forall id :: HasId(small.events, id) ==> HasId(big.events, id))
    && (forall t :: t in small.topics ==> t in big.topics)
  }

  ghost predicate SomeHasId(groups: seq<Group>, id: string) {
    exists i :: 0 <= i < |groups| && HasId(groups[i].events, id)
  }

  ghost predicate SomeHasTopic(groups: seq<Group>, t: string) {
    exists i :: 0 <= i < |groups| && t in groups[i].topics
  }

  ghost predicate InsideOne(group: Group, merged: seq<Group>) {
    exists i :: 0 <= i < |merged| && Within(group, merged[i])
  }

  ghost predicate NoRepeats(groups: seq<Group>) {
    forall i | 0 <= i < |groups| :: DistinctIds(groups[i].events) && Distinct(groups[i].topics)
  }

  lemma JoinHolds(existing: Group, group: Group)
    ensures forall id ::
      HasId(Join(existing, group).events, id) <==> HasId(existing.events, id) || HasId(group.events, id)
    ensures forall t :: t in Join(existing, group).topics <==> t in existing.topics || t in group.topics
    ensures DistinctIds(existing.events) ==> DistinctIds(Join(existing, group).events)
    ensures Distinct(Join(existing, group).topics) && existing.events <= Join(existing, group).events
    ensures forall e | e in Join(existing, group).events :: e in existing.events || e in group.events
  {
    AddEventsKeeps(existing.events, group.events);
    AddTopicsAdds([], existing.topics);
    AddTopicsAdds(AddTopics([], existing.topics), group.topics);
    AddEventsAdds(existing.events, group.events, "");
    forall id
      ensures HasId(Join(existing, group).events, id) <==> HasId(existing.events, id) || HasId(group.events, id)
    {
      AddEventsAdds(existing.events, group.events, id);
    }
  }

  /**
    A group goes into the first that has more than half of its events, else it stands alone at the
    end; every other group stays as it is.
   */
  lemma MergeIntoPlace(merged: seq<Group>, group: Group) returns (k: nat)
    ensures k <= |merged| && |MergeInto(merged, group)| == (if k == |merged| then k + 1 else |merged|)
    ensures forall j | 0 <= j < k :: !MoreThanHalf(group, merged[j])
    ensures k < |merged| ==> MoreThanHalf(group, merged[k])
    ensures MergeInto(merged, group)[k] == if k == |merged| then group else Join(merged[k], group)
    ensures forall i | 0 <= i < |merged| && i != k :: MergeInto(merged, group)[i] == merged[i]
    ensures Within(group, MergeInto(merged, group)[k])
    ensures k < |merged| ==> Within(merged[k], MergeInto(merged, group)[k])
    ensures k < |merged| ==> merged[k].events <= MergeInto(merged, group)[k].events
  {
    k := FirstAbsorbing(merged, group, 0);
    forall j | 0 <= j < |merged|
      ensures Absorbs(merged[j], group) <==> MoreThanHalf(group, merged[j])
    {
      OverlapIsCount(group.events, merged[j].events);
    }
    if k < |merged| {
      JoinHolds(merged[k], group);
    }
  }

  lemma MergeIntoIds(merged: seq<Group>, group: Group, id: string)
    ensures SomeHasId(MergeInto(merged, group), id) <==> SomeHasId(merged, id) || HasId(group.events, id)
  {
    var after := MergeInto(merged, group);
    var k := MergeIntoPlace(merged, group);
    if k < |merged| {
      JoinHolds(merged[k], group);
    }
    if SomeHasId(merged, id) {
      var i :| 0 <= i < |merged| && HasId(merged[i].events, id);
      assert HasId(after[i].events, id);
    }
    if HasId(group.events, id) {
      assert HasId(after[k].events, id);
    }
  }

  lemma MergeIntoTopics(merged: seq<Group>, group: Group, t: string)
    ensures SomeHasTopic(MergeInto(merged, group), t) <==> SomeHasTopic(merged, t) || t in group.topics
  {
    var after := MergeInto(merged, group);
    var k := MergeIntoPlace(merged, group);
    if k < |merged| {
      JoinHolds(merged[k], group);
    }
    if SomeHasTopic(merged, t) {
      var i :| 0 <= i < |merged| && t in merged[i].topics;
      assert t in after[i].topics;
    }
    if t in group.topics {
      assert t in after[k].topics;
    }
  }

  lemma MergeIntoInside(merged: seq<Group>, group: Group)
    ensures InsideOne(group, MergeInto(merged, group))
    ensures forall g | InsideOne(g, merged) :: InsideOne(g, MergeInto(merged, group))
    ensures NoRepeats(merged) && NoRepeats([group]) ==> NoRepeats(MergeInto(merged, group))
  {
    var after := MergeInto(merged, group);
    var k := MergeIntoPlace(merged, group);
    forall g | InsideOne(g, merged)
      ensures InsideOne(g, after)
    {
      var i :| 0 <= i < |merged| && Within(g, merged[i]);
      assert Within(g, after[i]);
    }
    if NoRepeats(merged) && NoRepeats([group]) {
      if k < |merged| {
        JoinHolds(merged[k], group);
      } else {
        assert [group][0] == group;
      }
    }
  }

  /** Merging loses no event id and no topic, and invents none. */
  lemma {:induction false} MergeAllKeepsIdsAndTopics(groups: seq<Group>, id: string, t: string)
    ensures SomeHasId(MergeAll(groups), id) <==> SomeHasId(groups, id)
    ensures SomeHasTopic(MergeAll(groups), t) <==> SomeHasTopic(groups, t)
  {
    if groups != [] {
      var n := |groups| - 1;
      var init := groups[..n];
      MergeAllKeepsIdsAndTopics(init, id, t);
      MergeSnoc(groups);
      MergeIntoIds(MergeAll(init), groups[n], id);
      MergeIntoTopics(MergeAll(init), groups[n], t);
      SomeHasSnoc(groups, id, t);
    }
  }

  lemma MergeSnoc(groups: seq<Group>)
    requires groups != []
    ensures MergeAll(groups) == MergeInto(MergeAll(groups[..|groups| - 1]), groups[|groups| - 1])
  {
    assert MergeAll(groups) == MergeLast(groups);
  }

  lemma SomeHasSnoc(groups: seq<Group>, id: string, t: string)
    requires groups != []
    ensures (var init, g := groups[..|groups| - 1], groups[|groups| - 1];
      && (SomeHasId(groups, id) <==> SomeHasId(init, id) || HasId(g.events, id))
      && (SomeHasTopic(groups, t) <==> SomeHasTopic(init, t) || t in g.topics))
  {
    assert forall i | 0 <= i < |groups| - 1 :: groups[..|groups| - 1][i] == groups[i];
  }

  /** Each group ends, with all its events and topics, inside one merged group. */
  lemma {:induction false} MergeAllKeepsGroupsTogether(groups: seq<Group>)
    ensures forall i | 0 <= i < |groups| :: InsideOne(groups[i], MergeAll(groups))
  {
    if groups != [] {
      var n := |groups| - 1;
      var init := groups[..n];
      MergeAllKeepsGroupsTogether(init);
      MergeIntoInside(MergeAll(init), groups[n]);
      MergeSnoc(groups);
      forall i | 0 <= i < |groups|
        ensures InsideOne(groups[i], MergeAll(groups))
      {
        if i < n {
          assert InsideOne(init[i], MergeAll(init));
        }
      }
    }
  }

  lemma {:induction false} MergeAllKeepsNoRepeats(groups: seq<Group>)
    requires NoRepeats(groups)
    ensures NoRepeats(MergeAll(groups))
  {
    if groups != [] {
      var n := |groups| - 1;
      assert forall i | 0 <= i < n :: groups[..n][i] == groups[i];
      MergeAllKeepsNoRepeats(groups[..n]);
      assert NoRepeats([groups[n]]);
      MergeIntoInside(MergeAll(groups[..n]), groups[n]);
    }
  }

  /** The groups of a working set: its tagged events, no more and no fewer, with nothing twice in a group. */
  lemma GroupingLosesNothing(events: seq<Event>, topicsOf: Topics, id: string, t: string)
    ensures SomeHasId(MergeAll(TopicGroups(events, topicsOf)), id) <==> (exists u :: Carries(events, id, u, topicsOf))
    ensures SomeHasTopic(MergeAll(TopicGroups(events, topicsOf)), t)
      <==> (exists i :: 0 <= i < |events| && t in topicsOf(events[i].content))
    ensures NoRepeats(MergeAll(TopicGroups(events, topicsOf)))
  {
    var groups, order := TopicGroups(events, topicsOf), TopicOrder(events, topicsOf);
    MergeAllKeepsIdsAndTopics(groups, id, t);
    TopicGroupsIds(events, topicsOf, id);
    TopicOrderMembers(events, topicsOf, t);
    if t in order {
      var i :| 0 <= i < |order| && order[i] == t;
      assert t in groups[i].topics;
    }
    forall i | 0 <= i < |groups|
      ensures DistinctIds(groups[i].events) && Distinct(groups[i].topics)
    {
      TopicEventsDistinct(events, order[i], topicsOf);
    }
    MergeAllKeepsNoRepeats(groups);
  }

  /** A group has exactly the events of the working set that carry one of its topics, and each topic has one. */
  ghost predicate HoldsItsTopics(group: Group, events: seq<Event>, topicsOf: Topics) {
    && (forall id :: HasId(group.events, id) <==> exists t :: t in group.topics && Carries(events, id, t, topicsOf))
    && (forall t | t in group.topics :: exists id :: Carries(events, id, t, topicsOf))
  }

  lemma JoinHoldsItsTopics(existing: Group, group: Group, events: seq<Event>, topicsOf: Topics)
    requires HoldsItsTopics(existing, events, topicsOf) && HoldsItsTopics(group, events, topicsOf)
    ensures HoldsItsTopics(Join(existing, group), events, topicsOf)
  {
    var joined := Join(existing, group);
    JoinHolds(existing, group);
    forall id
      ensures HasId(joined.events, id) <==> exists t :: t in joined.topics && Carries(events, id, t, topicsOf)
    {
      if t :| t in joined.topics && Carries(events, id, t, topicsOf) {
        assert t in existing.topics || t in group.topics;
      }
      if HasId(existing.events, id) {
        var t :| t in existing.topics && Carries(events, id, t, topicsOf);
        assert t in joined.topics;
      } else if HasId(group.events, id) {
        var t :| t in group.topics && Carries(events, id, t, topicsOf);
        assert t in joined.topics;
      }
    }
  }

  lemma {:induction false} MergedHoldTheirTopics(groups: seq<Group>, events: seq<Event>, topicsOf: Topics)
    requires forall i | 0 <= i < |groups| :: HoldsItsTopics(groups[i], events, topicsOf)
    ensures forall i | 0 <= i < |MergeAll(groups)| :: HoldsItsTopics(MergeAll(groups)[i], events, topicsOf)
  {
    if groups != [] {
      var n := |groups| - 1;
      var before := MergeAll(groups[..n]);
      MergedHoldTheirTopics(groups[..n], events, topicsOf);
      var k := MergeIntoPlace(before, groups[n]);
      if k < |before| {
        JoinHoldsItsTopics(before[k], groups[n], events, topicsOf);
      }
    }
  }

  lemma TopicGroupHoldsItsTopic(events: seq<Event>, t: string, topicsOf: Topics)
    requires t in TopicOrder(events, topicsOf)
    ensures HoldsItsTopics(Group([t], TopicEvents(events, t, topicsOf)), events, topicsOf)
  {
    forall id
      ensures HasId(TopicEvents(events, t, topicsOf), id) <==> Carries(events, id, t, topicsOf)
    {
      TopicEventsCarry(events, t, topicsOf, id);
    }
    TopicOrderMembers(events, topicsOf, t);
    var i :| 0 <= i < |events| && t in topicsOf(events[i].content);
    assert Carries(events, events[i].id, t, topicsOf);
    assert t in [t];
  }

  /** Each group of a working set has exactly the events that carry one of its topics. */
  lemma GroupsHoldTheirTopics(events: seq<Event>, topicsOf: Topics)
    ensures forall g | g in MergeAll(TopicGroups(events, topicsOf)) :: HoldsItsTopics(g, events, topicsOf)
  {
    var groups, order := TopicGroups(events, topicsOf), TopicOrder(events, topicsOf);
    forall i | 0 <= i < |groups|
      ensures HoldsItsTopics(groups[i], events, topicsOf)
    {
      TopicGroupHoldsItsTopic(events, order[i], topicsOf);
    }
    MergedHoldTheirTopics(groups, events, topicsOf);
  }

  lemma TopicGroupsIds(events: seq<Event>, topicsOf: Topics, id: string)
    ensures SomeHasId(TopicGroups(events, topicsOf), id) <==> (exists u :: Carries(events, id, u, topicsOf))
  {
    var groups, order := TopicGroups(events, topicsOf), TopicOrder(events, topicsOf);
    if SomeHasId(groups, id) {
      var i :| 0 <= i < |groups| && HasId(groups[i].events, id);
      TopicEventsCarry(events, order[i], topicsOf, id);
      assert Carries(events, id, order[i], topicsOf);
    }
    if u :| Carries(events, id, u, topicsOf) {
      TopicOrderMembers(events, topicsOf, u);
      var i :| 0 <= i < |order| && order[i] == u;
      TopicEventsCarry(events, u, topicsOf, id);
      assert HasId(groups[i].events, id);
    }
  }

  // ---------------------------------------------------------------- the loops

  /** A topic's group when the last event has been added for the topics in `done` and not yet for others. */
  function GroupSoFar(before: seq<Event>, e: Event, done: seq<string>, t: string, topicsOf: Topics): Group {
    var events := TopicEvents(before, t, topicsOf);
    Group([t], if t in done then AddEvent(events, e) else events)
  }

  ghost predicate SameKeys(groups: map<string, Group>, order: seq<string>) {
    forall t :: t in groups <==> t in order
  }

  ghost predicate Grouping(groups: map<string, Group>, order: seq<string>, before: seq<Event>,
                           e: Event, done: seq<string>, topicsOf: Topics)
  {
    && SameKeys(groups, order)
    && order == AddTopics(TopicOrder(before, topicsOf), done)
    && forall t | t in groups :: groups[t] == GroupSoFar(before, e, done, t, topicsOf)
  }

  ghost predicate Grouped(groups: map<string, Group>, order: seq<string>, events: seq<Event>, topicsOf: Topics) {
    && SameKeys(groups, order)
    && order == TopicOrder(events, topicsOf)
    && forall t | t in groups :: groups[t] == Group([t], TopicEvents(events, t, topicsOf))
  }

  lemma {:induction false} NoTopicNoEvents(events: seq<Event>, t: string, topicsOf: Topics)
    requires t !in TopicOrder(events, topicsOf)
    ensures TopicEvents(events, t, topicsOf) == []
  {
    if events != [] {
      var n := |events| - 1;
      AddTopicsAdds(TopicOrder(events[..n], topicsOf), topicsOf(events[n].content));
      NoTopicNoEvents(events[..n], t, topicsOf);
    }
  }

  /** The map after one more topic of the event, whether or not the topic has a group and the event is in it. */
  function WithTopic(groups: map<string, Group>, t: string, e: Event): map<string, Group> {
    var had := if t in groups then groups[t] else Group([t], []);
    groups[t := had.(events := AddEvent(had.events, e))]
  }

  lemma GroupSoFarStep(before: seq<Event>, e: Event, done: seq<string>, t: string, topicsOf: Topics)
    ensures GroupSoFar(before, e, done + [t], t, topicsOf)
         == Group([t], AddEvent(GroupSoFar(before, e, done, t, topicsOf).events, e))
  {
    AddEventAdds(TopicEvents(before, t, topicsOf), e, e.id);
  }

  lemma GroupingStep(groups: map<string, Group>, order: seq<string>, before: seq<Event>, e: Event,
                     done: seq<string>, t: string, topicsOf: Topics)
    requires Grouping(groups, order, before, e, done, topicsOf)
    ensures Grouping(WithTopic(groups, t, e), AddTopic(order, t), before, e, done + [t], topicsOf)
  {
    var after := WithTopic(groups, t, e);
    assert (done + [t])[..|done|] == done;
    forall u | u in after
      ensures after[u] == GroupSoFar(before, e, done + [t], u, topicsOf)
    {
      if u == t {
        GroupSoFarStep(before, e, done, t, topicsOf);
        if t !in groups {
          AddTopicsAdds(TopicOrder(before, topicsOf), done);
          NoTopicNoEvents(before, t, topicsOf);
        }
      }
    }
    assert SameKeys(after, AddTopic(order, t));
  }

  lemma GroupingStart(groups: map<string, Group>, order: seq<string>, before: seq<Event>, e: Event, topicsOf: Topics)
    requires Grouped(groups, order, before, topicsOf)
    ensures Grouping(groups, order, before, e, [], topicsOf)
  {
  }

  lemma GroupingEnd(groups: map<string, Group>, order: seq<string>, events: seq<Event>, topicsOf: Topics)
    requires events != []
    requires (var e := events[|events| - 1];
      Grouping(groups, order, events[..|events| - 1], e, topicsOf(e.content), topicsOf))
    ensures Grouped(groups, order, events, topicsOf)
  {
    var n := |events| - 1;
    forall t | t in groups
      ensures groups[t] == Group([t], TopicEvents(events, t, topicsOf))
    {
      assert groups[t] == GroupSoFar(events[..n], events[n], topicsOf(events[n].content), t, topicsOf);
    }
  }

  lemma GroupedValues(groups: map<string, Group>, order: seq<string>, events: seq<Event>,
                      topicsOf: Topics, values: seq<Group>)
    requires Grouped(groups, order, events, topicsOf)
    requires |values| == |order| && forall k | 0 <= k < |order| :: order[k] in groups && values[k] == groups[order[k]]
    ensures values == TopicGroups(events, topicsOf)
  {
  }

  method GroupByTopic(events: seq<Event>, topicsOf: Topics) returns (merged: seq<Group>)
    ensures merged == MergeAll(TopicGroups(events, topicsOf))
  {
    var groups: map<string, Group> := map[];
    var order: seq<string> := [];
    var i := 0;
    while i < |events|
      invariant 0 <= i <= |events|
      invariant Grouped(groups, order, events[..i], topicsOf)
    {
      groups, order := AddToTopics(groups, order, events[..i], events[i], topicsOf);
      assert events[..i + 1][..i] == events[..i];
      GroupingEnd(groups, order, events[..i + 1], topicsOf);
      i := i + 1;
    }
    assert events[..|events|] == events;
    var values := seq(|order|, k requires 0 <= k < |order| && order[k] in groups => groups[order[k]]);
    GroupedValues(groups, order, events, topicsOf, values);
    merged := MergeOverlappingGroups(values);
  }

  /** The loop over one event's topics. */
  method AddToTopics(before: map<string, Group>, beforeOrder: seq<string>,
                     ghost earlier: seq<Event>, event: Event, topicsOf: Topics)
    returns (groups: map<string, Group>, order: seq<string>)
    requires Grouped(before, beforeOrder, earlier, topicsOf)
    ensures Grouping(groups, order, earlier, event, topicsOf(event.content), topicsOf)
  {
    groups, order := before, beforeOrder;
    var topics := topicsOf(event.content);
    GroupingStart(groups, order, earlier, event, topicsOf);
    var j := 0;
    while j < |topics|
      invariant 0 <= j <= |topics|
      invariant Grouping(groups, order, earlier, event, topics[..j], topicsOf)
    {
      var topic := topics[j];
      assert topics[..j] + [topic] == topics[..j + 1];
      GroupingStep(groups, order, earlier, event, topics[..j], topic, topicsOf);
      assert SameKeys(groups, order);
      groups, order := AddToTopic(groups, order, topic, event);
      j := j + 1;
    }
    assert topics[..|topics|] == topics;
  }

  method AddToTopic(before: map<string, Group>, beforeOrder: seq<string>, topic: string, event: Event)
    returns (groups: map<string, Group>, order: seq<string>)
    requires SameKeys(before, beforeOrder)
    ensures groups == WithTopic(before, topic, event) && order == AddTopic(beforeOrder, topic)
  {
    groups, order := before, beforeOrder;
    if topic !in groups {
      groups := groups[topic := Group([topic], [])];
      order := order + [topic];
    }
    var group := groups[topic];
    if !HasId(group.events, event.id) {
      groups := groups[topic := group.(events := group.events + [event])];
    }
  }

  method MergeOverlappingGroups(groups: seq<Group>) returns (merged: seq<Group>)
    ensures merged == MergeAll(groups)
  {
    merged := [];
    var i := 0;
    while i < |groups|
      invariant 0 <= i <= |groups|
      invariant merged == MergeAll(groups[..i])
    {
      var group := groups[i];
      assert groups[..i + 1][..i] == groups[..i];
      var k := 0;
      while k < |merged|
        invariant 0 <= k <= |merged|
        invariant FirstAbsorbing(merged, group, 0) == FirstAbsorbing(merged, group, k)
      {
        var overlap := CountOverlap(group.events, merged[k].events);
        if 2 * overlap > |group.events| {
          break;
        }
        k := k + 1;
      }
      if k < |merged| {
        var joined := JoinGroups(merged[k], group);
        merged := merged[k := joined];
      } else {
        merged := merged + [group];
      }
      i := i + 1;
    }
    assert groups[..|groups|] == groups;
  }

  method CountOverlap(events: seq<Event>, existing: seq<Event>) returns (overlap: nat)
    ensures overlap == Overlap(events, existing)
  {
    overlap := 0;
    var i := 0;
    while i < |events|
      invariant 0 <= i <= |events| && overlap == Overlap(events[..i], existing)
    {
      assert events[..i + 1][..i] == events[..i];
      if HasId(existing, events[i].id) {
        overlap := overlap + 1;
      }
      i := i + 1;
    }
    assert events[..|events|] == events;
  }

  method JoinGroups(existing: Group, group: Group) returns (joined: Group)
    ensures joined == Join(existing, group)
  {
    var topics: seq<string>, events := AddTopics(AddTopics([], existing.topics), group.topics), existing.events;
    var i := 0;
    while i < |group.events|
      invariant 0 <= i <= |group.events| && events == AddEvents(existing.events, group.events[..i])
    {
      assert group.events[..i + 1][..i] == group.events[..i];
      if !HasId(events, group.events[i].id) {
        events := events + [group.events[i]];
      }
      i := i + 1;
    }
    assert group.events[..|group.events|] == group.events;
    joined := Group(topics, events);
  }

  // ---------------------------------------------------------------- confidence

  function Min(a: real, b: real): real {
    if a < b then a else b
  }

  function Max(a: real, b: real): real {
    if a < b then b else a
  }

  const HOUR_MS: real := 3600000.0

  function Times(events: seq<Event>): seq<int> {
    seq(|events|, i requires 0 <= i < |events| => events[i].timestamp)
  }

  function CalculateTimeProximity(events: seq<Event>): real {
    if |events| < 2 then 1.0
    else
      var timestamps := TimesInOrder(events);
      if |timestamps| < 2 then 1.0
      else
        var timeSpan := timestamps[|timestamps| - 1] - timestamps[0];
        Max(0.0, 1.0 - (timeSpan as real / (|events| - 1) as real) / (24.0 * HOUR_MS))
  }

  function CalculateConfidence(group: Group): real {
    var eventScore := Min(|group.events| as real / 10.0, 1.0);
    var timeScore := CalculateTimeProximity(group.events);
    var topicScore := if group.topics == [] then 1.0 else Min(3.0 / |group.topics| as real, 1.0);
    eventScore * 0.4 + timeScore * 0.4 + topicScore * 0.2
  }

  ghost predicate AllAtOnce(events: seq<Event>) {
    forall i, j | 0 <= i < |events| && 0 <= j < |events| :: events[i].timestamp == events[j].timestamp
  }

  function TimesInOrder(events: seq<Event>): seq<int> {
    SortBy(Times(events), (a, b) => a <= b)
  }

  /** The first of the sorted times is the earliest and the last the latest. */
  lemma SortedEnds(events: seq<Event>) returns (first: nat, last: nat)
    requires events != []
    ensures first < |events| && last < |events|
    ensures (var s := TimesInOrder(events);
      && |s| == |events| && s[0] == events[first].timestamp && s[|s| - 1] == events[last].timestamp
      && forall i | 0 <= i < |events| :: s[0] <= events[i].timestamp <= s[|s| - 1])
  {
    var le := (a: int, b: int) => a <= b;
    var times, s := Times(events), SortBy(Times(events), le);
    SortByIsSorted(times, le);
    forall i | 0 <= i < |events|
      ensures s[0] <= events[i].timestamp <= s[|s| - 1]
    {
      assert times[i] in multiset(s);
      BetweenEnds(s, times[i]);
    }
    assert s[0] in multiset(times) && s[|s| - 1] in multiset(times);
    first :| 0 <= first < |times| && times[first] == s[0];
    last :| 0 <= last < |times| && times[last] == s[|s| - 1];
  }

  lemma BetweenEnds(s: seq<int>, x: int)
    requires x in s && SortedBy(s, (a, b) => a <= b)
    ensures s[0] <= x <= s[|s| - 1]
  {
    var le := (a: int, b: int) => a <= b;
    var k :| 0 <= k < |s| && s[k] == x;
    assert le(s[0], s[k]) || k == 0;
    assert le(s[k], s[|s| - 1]) || k == |s| - 1;
  }

  lemma SpanBounds(events: seq<Event>)
    requires |events| >= 2
    ensures (var s := TimesInOrder(events);
      |s| == |events| && s[0] <= s[|s| - 1] && (s[0] == s[|s| - 1] <==> AllAtOnce(events)))
  {
    var first, last := SortedEnds(events);
  }

  lemma TimeProximityRange(events: seq<Event>)
    ensures 0.0 <= CalculateTimeProximity(events) <= 1.0
    ensures CalculateTimeProximity(events) == 1.0 <==> |events| < 2 || AllAtOnce(events)
  {
    if |events| >= 2 {
      SpanBounds(events);
      var s := TimesInOrder(events);
      Fade((s[|s| - 1] - s[0]) as real, (|events| - 1) as real);
    }
  }

  /** Without a day per gap to fill, proximity falls evenly with the time from the earliest event to the latest. */
  lemma ProximityFalls(events: seq<Event>, first: nat, last: nat)
    requires first < |events| && last < |events| && |events| >= 2
    requires forall e | e in events :: events[first].timestamp <= e.timestamp <= events[last].timestamp
    ensures (var proximity, day := CalculateTimeProximity(events), 24.0 * HOUR_MS;
      var span, gaps := (events[last].timestamp - events[first].timestamp) as real, (|events| - 1) as real;
      if span >= gaps * day then proximity == 0.0 else proximity * gaps * day == gaps * day - span)
  {
    var a, b := SortedEnds(events);
    assert events[a] in events && events[b] in events;
    Falls((events[last].timestamp - events[first].timestamp) as real, (|events| - 1) as real, 24.0 * HOUR_MS);
  }

  lemma Falls(span: real, gaps: real, day: real)
    requires span >= 0.0 && gaps > 0.0 && day > 0.0
    ensures (var proximity := Max(0.0, 1.0 - (span / gaps) / day);
      if span >= gaps * day then proximity == 0.0 else proximity * gaps * day == gaps * day - span)
  {
    var gap := span / gaps;
    var days := gap / day;
    assert gap * gaps == span && days * day == gap;
    assert span == days * day * gaps;
    if days >= 1.0 {
      assert (days - 1.0) * (day * gaps) >= 0.0;
    } else {
      assert (1.0 - days) * (day * gaps) > 0.0;
    }
  }

  lemma Fade(span: real, gaps: real)
    requires span >= 0.0 && gaps > 0.0
    ensures 0.0 <= Max(0.0, 1.0 - (span / gaps) / (24.0 * HOUR_MS)) <= 1.0
    ensures Max(0.0, 1.0 - (span / gaps) / (24.0 * HOUR_MS)) == 1.0 <==> span == 0.0
  {
    var gap := span / gaps;
    assert gap * gaps == span;
  }

  /** A group's confidence, and the only groups that reach certainty. */
  lemma ConfidenceRange(group: Group)
    ensures 0.0 <= CalculateConfidence(group) <= 1.0
    ensures CalculateConfidence(group) == 1.0
      <==> (|group.events| >= 10 && AllAtOnce(group.events) && |group.topics| <= 3)
  {
    TimeProximityRange(group.events);
    if group.topics != [] {
      TopicScore(|group.topics| as real);
    }
  }

  /** What each part is worth: four tenths the events, up to ten, as much their proximity, and two the topics. */
  lemma ConfidenceParts(group: Group)
    ensures (var events, topics := |group.events| as real, |group.topics| as real;
      var confidence, proximity := CalculateConfidence(group), CalculateTimeProximity(group.events);
      && (|group.events| <= 10 && |group.topics| <= 3 ==> 25.0 * confidence == events + 10.0 * proximity + 5.0)
      && (|group.events| >= 10 && |group.topics| <= 3 ==> 5.0 * confidence == 3.0 + 2.0 * proximity)
      && (|group.events| >= 10 && |group.topics| >= 3 ==>
           5.0 * confidence * topics == (2.0 + 2.0 * proximity) * topics + 3.0))
  {
    if group.topics != [] {
      TopicScore(|group.topics| as real);
    }
  }

  lemma TopicScore(n: real)
    requires n > 0.0
    ensures 0.0 <= Min(3.0 / n, 1.0) <= 1.0
    ensures Min(3.0 / n, 1.0) == 1.0 <==> n <= 3.0
  {
    var q := 3.0 / n;
    assert q * n == 3.0;
  }
}
