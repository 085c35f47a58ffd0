/** Push and pull between local event stores and one shared collection. */
module MongoSync {
  import opened Sorting

  // Every awaited statement is one action, every upsert of an unordered bulk write is one action,
  // and an instance may crash between any two of them.  A rowid is the position of a row plus one,
  // so a push cursor is the number of rows passed.

  type Name = string

  datatype Event = Event(id: string, dedupeKey: string, content: string)

  datatype Row = Row(event: Event, quarantined: bool)

  datatype Doc = Doc(seqNo: nat, event: Event)

  datatype Phase =
    | Idle
    | PushRead(toSend: seq<nat>, over: set<nat>)
    | PushAllocated(batch: seq<nat>, over: set<nat>, startSeq: nat, pending: set<nat>)
    | PullFetched(fetched: seq<Doc>)
    | PullImported(imported: seq<Doc>)

  /**
    `over` and `skipped` are history: the rows a batch passes over, which were quarantined when it was
    read, and those that batches have passed over.
   */
  datatype Node = Node(
    rows: seq<Row>,
    pushCursor: nat,
    pullCursor: nat,
    phase: Phase,
    skipped: set<nat>
  )

  datatype State = State(counter: nat, remote: seq<Doc>, nodes: map<Name, Node>)

  // ---------------------------------------------------------------- queries

  predicate HasDoc(remote: seq<Doc>, id: string) {
    exists i :: 0 <= i < |remote| && remote[i].event.id == id
  }

  predicate HasSeq(remote: seq<Doc>, q: nat) {
    exists i :: 0 <= i < |remote| && remote[i].seqNo == q
  }

  /** What `importEvents` skips: the id or the dedupe key is already there. */
  predicate InStore(rows: seq<Row>, e: Event) {
    exists i :: 0 <= i < |rows| && (rows[i].event.id == e.id || rows[i].event.dedupeKey == e.dedupeKey)
  }

  /** `getEventsSinceRowid`: the positions of the next rows that are not quarantined. */
  function ReadRows(rows: seq<Row>, from: nat, limit: nat): seq<nat>
    decreases |rows| - from, 1
  {
    if from >= |rows| || limit == 0 then [] else ReadNext(rows, from, limit)
  }

  function ReadNext(rows: seq<Row>, from: nat, limit: nat): seq<nat>
    requires from < |rows| && limit > 0
    decreases |rows| - from, 0
  {
    if rows[from].quarantined then ReadRows(rows, from + 1, limit)
    else [from] + ReadRows(rows, from + 1, limit - 1)
  }

  function DocsAfter(remote: seq<Doc>, q: nat): seq<Doc> {
    if remote == [] then []
    else (if remote[0].seqNo > q then [remote[0]] else []) + DocsAfter(remote[1..], q)
  }

  function BySeq(): (Doc, Doc) -> bool {
    (x: Doc, y: Doc) => x.seqNo <= y.seqNo
  }

  /** The documents numbered above `q`, lowest first, at most `limit` of them; a limit of zero is no limit. */
  function Find(remote: seq<Doc>, q: nat, limit: nat): seq<Doc> {
    var sorted := SortBy(DocsAfter(remote, q), BySeq());
    if limit == 0 || |sorted| <= limit then sorted else sorted[..limit]
  }

  function ImportAll(rows: seq<Row>, docs: seq<Doc>): seq<Row> {
    if docs == [] then rows
    else ImportEvent(ImportAll(rows, docs[..|docs| - 1]), docs[|docs| - 1].event)
  }

  /** One event of a batch: skipped if it is there by id or key, else added as it comes. */
  function ImportEvent(rows: seq<Row>, e: Event): seq<Row> {
    if InStore(rows, e) then rows else rows + [Row(e, false)]
  }

  // ---------------------------------------------------------------- actions

  datatype Action =
    | Append(event: Event)
    | SetQuarantine(row: nat, flag: bool)
    | ReadBatch(batchLimit: nat)
    | Allocate
    | WriteOne(index: nat)
    | AdvancePush
    | Fetch(fetchLimit: nat)
    | Import
    | AdvancePull
    | Crash

  datatype Step = Step(who: Name, action: Action)

  /** The event is in some store or in some document. */
  ghost predicate Known(s: State, e: Event) {
    || (exists n, i :: n in s.nodes && 0 <= i < |s.nodes[n].rows| && s.nodes[n].rows[i].event == e)
    || (exists i :: 0 <= i < |s.remote| && s.remote[i].event == e)
  }

  /** An id that no store and no document carries yet. */
  ghost predicate FreshId(s: State, id: string) {
    forall e | Known(s, e) :: e.id != id
  }

  ghost predicate Enabled(s: State, step: Step) {
    && step.who in s.nodes
    && var node := s.nodes[step.who];
       match step.action
       case Append(e) => FreshId(s, e.id)
       case SetQuarantine(row, _) => row < |node.rows|
       case ReadBatch(limit) => node.phase.Idle? && ReadRows(node.rows, node.pushCursor, limit) != []
       case Allocate => node.phase.PushRead?
       case WriteOne(index) =>
         node.phase.PushAllocated? && index in node.phase.pending && index < |node.phase.batch|
         && node.phase.batch[index] < |node.rows|
       case AdvancePush => node.phase.PushAllocated? && node.phase.pending == {} && node.phase.batch != []
       case Fetch(limit) => node.phase.Idle? && Find(s.remote, node.pullCursor, limit) != []
       case Import => node.phase.PullFetched?
       case AdvancePull => node.phase.PullImported? && node.phase.imported != []
       case Crash => true
  }

  function AllIndices(n: nat): (indices: set<nat>)
    ensures forall i :: i in indices <==> 0 <= i < n
  {
    if n == 0 then {} else AllIndices(n - 1) + {n - 1}
  }

  /** The quarantined rows that a batch read from `from` on passes over. */
  ghost function PassedOver(rows: seq<Row>, from: nat, batch: seq<nat>): set<nat>
    requires batch != []
  {
    set k: nat | from <= k < |rows| && k < batch[|batch| - 1] && rows[k].quarantined
  }

  /** `$setOnInsert` with `upsert`: an existing document is left alone. */
  function Upsert(remote: seq<Doc>, doc: Doc): seq<Doc> {
    if HasDoc(remote, doc.event.id) then remote else remote + [doc]
  }

  ghost function NodeAfter(s: State, step: Step): Node
    requires Enabled(s, step)
  {
    var node := s.nodes[step.who];
    match step.action
    case Append(e) => node.(rows := node.rows + [Row(e, false)])
    case SetQuarantine(row, flag) => node.(rows := node.rows[row := Row(node.rows[row].event, flag)])
    case ReadBatch(limit) =>
      var batch := ReadRows(node.rows, node.pushCursor, limit);
      node.(phase := PushRead(batch, PassedOver(node.rows, node.pushCursor, batch)))
    case Allocate =>
      var batch := node.phase.toSend;
      node.(phase := PushAllocated(batch, node.phase.over, s.counter + 1, AllIndices(|batch|)))
    case WriteOne(index) => node.(phase := node.phase.(pending := node.phase.pending - {index}))
    case AdvancePush =>
      node.(pushCursor := node.phase.batch[|node.phase.batch| - 1] + 1, phase := Idle,
            skipped := node.skipped + node.phase.over)
    case Fetch(limit) => node.(phase := PullFetched(Find(s.remote, node.pullCursor, limit)))
    case Import => node.(rows := ImportAll(node.rows, node.phase.fetched), phase := PullImported(node.phase.fetched))
    case AdvancePull => node.(pullCursor := node.phase.imported[|node.phase.imported| - 1].seqNo, phase := Idle)
    case Crash => node.(phase := Idle)
  }

  ghost function Apply(s: State, step: Step): State
    requires Enabled(s, step)
  {
    var node := s.nodes[step.who];
    var nodes := s.nodes[step.who := NodeAfter(s, step)];
    match step.action
    case Allocate => State(s.counter + |node.phase.toSend|, s.remote, nodes)
    case WriteOne(index) =>
      var doc := Doc(node.phase.startSeq + index, node.rows[node.phase.batch[index]].event);
      State(s.counter, Upsert(s.remote, doc), nodes)
    case _ => State(s.counter, s.remote, nodes)
  }

  ghost predicate Runs(s: State, steps: seq<Step>)
    decreases |steps|, 1
  {
    steps == [] || RunsLast(s, steps)
  }

  ghost predicate RunsLast(s: State, steps: seq<Step>)
    requires steps != []
    decreases |steps|, 0
  {
    Runs(s, steps[..|steps| - 1]) && Enabled(After(s, steps[..|steps| - 1]), steps[|steps| - 1])
  }

  /** The state a run leads to. */
  ghost function After(s: State, steps: seq<Step>): State
    requires Runs(s, steps)
    decreases |steps|, 3
  {
    if steps == [] then s else AfterLast(s, steps)
  }

  ghost function AfterLast(s: State, steps: seq<Step>): State
    requires steps != [] && Runs(s, steps)
    decreases |steps|, 2
  {
    assert RunsLast(s, steps);
    Apply(After(s, steps[..|steps| - 1]), steps[|steps| - 1])
  }

  lemma LastStep(s: State, steps: seq<Step>)
    requires steps != [] && Runs(s, steps)
    ensures var before, last := steps[..|steps| - 1], steps[|steps| - 1];
      Runs(s, before) && Enabled(After(s, before), last) && After(s, steps) == Apply(After(s, before), last)
  {
    assert RunsLast(s, steps);
    assert After(s, steps) == AfterLast(s, steps);
  }

  /** Before the first sync: stores may hold rows, the shared database nothing. */
  ghost predicate Initial(s: State) {
    && s.counter == 0 && s.remote == []
    && (forall n | n in s.nodes ::
          && s.nodes[n].pushCursor == 0 && s.nodes[n].pullCursor == 0
          && s.nodes[n].phase == Idle && s.nodes[n].skipped == {})
    && IdsIdentify(s)
  }

  /** One id means one event. */
  ghost predicate IdsIdentify(s: State) {
    forall e, f | Known(s, e) && Known(s, f) :: e.id == f.id ==> e == f
  }

  // ---------------------------------------------------------------- what the queries return

  ghost predicate Ascending(batch: seq<nat>) {
    forall i, j | 0 <= i < j < |batch| :: batch[i] < batch[j]
  }

  lemma {:induction false} ReadRowsInOrder(rows: seq<Row>, from: nat, limit: nat)
    ensures |ReadRows(rows, from, limit)| <= limit && Ascending(ReadRows(rows, from, limit))
    ensures forall i | 0 <= i < |ReadRows(rows, from, limit)| ::
              from <= ReadRows(rows, from, limit)[i] < |rows| && !rows[ReadRows(rows, from, limit)[i]].quarantined
    decreases |rows| - from
  {
    if from < |rows| && limit != 0 {
      if rows[from].quarantined {
        ReadRowsInOrder(rows, from + 1, limit);
        assert ReadRows(rows, from, limit) == ReadRows(rows, from + 1, limit);
      } else {
        ReadRowsInOrder(rows, from + 1, limit - 1);
        assert ReadRows(rows, from, limit) == [from] + ReadRows(rows, from + 1, limit - 1);
      }
    }
  }

  /** Row `k` could be sent and is not beyond what the batch reaches. */
  ghost predicate InReach(rows: seq<Row>, from: nat, limit: nat, batch: seq<nat>, k: nat) {
    && from <= k < |rows| && !rows[k].quarantined
    && (|batch| < limit || (batch != [] && k <= batch[|batch| - 1]))
  }

  lemma {:induction false} ReadRowsLeavesNoGap(rows: seq<Row>, from: nat, limit: nat, k: nat)
    requires InReach(rows, from, limit, ReadRows(rows, from, limit), k)
    ensures k in ReadRows(rows, from, limit)
    decreases |rows| - from
  {
    if limit != 0 {
      if rows[from].quarantined {
        assert ReadRows(rows, from, limit) == ReadRows(rows, from + 1, limit);
        ReadRowsLeavesNoGap(rows, from + 1, limit, k);
      } else {
        var rest := ReadRows(rows, from + 1, limit - 1);
        assert ReadRows(rows, from, limit) == [from] + rest;
        if k != from {
          ReadRowsLeavesNoGap(rows, from + 1, limit - 1, k);
        }
      }
    }
  }

  lemma {:induction false} DocsAfterSpec(remote: seq<Doc>, q: nat)
    ensures forall d :: d in DocsAfter(remote, q) <==> d in remote && d.seqNo > q
    ensures multiset(DocsAfter(remote, q)) <= multiset(remote)
  {
    if remote != [] {
      DocsAfterSpec(remote[1..], q);
      assert remote == [remote[0]] + remote[1..];
    }
  }

  /** What a fetch returns: ascending, newer than the cursor, and without gaps up to its last document. */
  ghost predicate IsFetch(remote: seq<Doc>, q: nat, docs: seq<Doc>) {
    && (forall i | 0 <= i < |docs| :: docs[i] in remote && docs[i].seqNo > q)
    && (forall i, j | 0 <= i < j < |docs| :: docs[i].seqNo <= docs[j].seqNo)
    && (docs != [] ==> forall d | d in remote && q < d.seqNo < docs[|docs| - 1].seqNo :: d in docs)
  }

  lemma SortedDocs(remote: seq<Doc>, q: nat)
    ensures var sorted := SortBy(DocsAfter(remote, q), BySeq());
      && (forall d :: d in sorted <==> d in remote && d.seqNo > q)
      && (forall i, j | 0 <= i < j < |sorted| :: sorted[i].seqNo <= sorted[j].seqNo)
  {
    var after := DocsAfter(remote, q);
    var sorted := SortBy(after, BySeq());
    DocsAfterSpec(remote, q);
    SortByIsSorted(after, BySeq());
    forall d
      ensures d in sorted <==> d in remote && d.seqNo > q
    {
      assert d in multiset(sorted) <==> d in multiset(after);
    }
    forall i, j | 0 <= i < j < |sorted|
      ensures sorted[i].seqNo <= sorted[j].seqNo
    {
      assert BySeq()(sorted[i], sorted[j]);
    }
  }

  lemma PrefixIsFetch(remote: seq<Doc>, q: nat, sorted: seq<Doc>, docs: seq<Doc>)
    requires forall d :: d in sorted <==> d in remote && d.seqNo > q
    requires forall i, j | 0 <= i < j < |sorted| :: sorted[i].seqNo <= sorted[j].seqNo
    requires docs <= sorted
    ensures IsFetch(remote, q, docs)
  {
    forall i | 0 <= i < |docs|
      ensures docs[i] in remote && docs[i].seqNo > q
    {
      assert sorted[i] in sorted;
    }
    forall d | docs != [] && d in remote && q < d.seqNo < docs[|docs| - 1].seqNo
      ensures d in docs
    {
      assert d in sorted;
      var k :| 0 <= k < |sorted| && sorted[k] == d;
      assert k < |docs|;
      assert docs[k] == d;
    }
  }

  lemma FindSpec(remote: seq<Doc>, q: nat, limit: nat)
    ensures limit > 0 ==> |Find(remote, q, limit)| <= limit
    ensures IsFetch(remote, q, Find(remote, q, limit))
    ensures Find(remote, q, limit) == [] <==> forall d | d in remote :: d.seqNo <= q
    ensures limit == 0 || |Find(remote, q, limit)| < limit ==>
              forall d | d in remote && q < d.seqNo :: d in Find(remote, q, limit)
  {
    SortedDocs(remote, q);
    var sorted := SortBy(DocsAfter(remote, q), BySeq());
    PrefixIsFetch(remote, q, sorted, Find(remote, q, limit));
    if sorted != [] {
      assert sorted[0] in sorted;
    }
  }

  lemma InStoreGrows(rows: seq<Row>, more: seq<Row>, e: Event)
    requires InStore(rows, e) && rows <= more
    ensures InStore(more, e)
  {
    var i :| 0 <= i < |rows| && (rows[i].event.id == e.id || rows[i].event.dedupeKey == e.dedupeKey);
    assert more[i] == rows[i];
  }

  /** Row `k` is new to the rows before it, and can be read and sent on. */
  ghost predicate NewRow(rows: seq<Row>, k: nat) {
    k < |rows| && !rows[k].quarantined && !InStore(rows[..k], rows[k].event)
  }

  lemma NewRowStays(rows: seq<Row>, more: seq<Row>, k: nat)
    requires NewRow(rows, k) && rows <= more
    ensures NewRow(more, k) && more[k] == rows[k]
  {
    assert more[..k] == rows[..k];
  }

  /**
    An import keeps every row where it is and leaves no fetched event out of the store; what it adds
    are events of documents, each once and not quarantined.
   */
  lemma {:induction false} ImportAllSpec(rows: seq<Row>, docs: seq<Doc>)
    ensures rows <= ImportAll(rows, docs)
    ensures forall i | 0 <= i < |docs| :: InStore(ImportAll(rows, docs), docs[i].event)
    ensures forall k | |rows| <= k < |ImportAll(rows, docs)| ::
              exists i :: 0 <= i < |docs| && docs[i].event == ImportAll(rows, docs)[k].event
    ensures forall k | |rows| <= k < |ImportAll(rows, docs)| :: NewRow(ImportAll(rows, docs), k)
  {
    if docs != [] {
      var before := ImportAll(rows, docs[..|docs| - 1]);
      ImportAllSpec(rows, docs[..|docs| - 1]);
      ImportOne(before, docs[|docs| - 1].event);
      ImportedSoFar(rows, docs, before, ImportAll(rows, docs));
    }
  }

  lemma ImportOne(rows: seq<Row>, e: Event)
    ensures rows <= ImportEvent(rows, e) && InStore(ImportEvent(rows, e), e)
    ensures forall k | |rows| <= k < |ImportEvent(rows, e)| ::
              ImportEvent(rows, e)[k].event == e && NewRow(ImportEvent(rows, e), k)
  {
    var after := ImportEvent(rows, e);
    if !InStore(rows, e) {
      assert after[|rows|].event == e && after[..|rows|] == rows;
    }
  }

  lemma ImportedSoFar(rows: seq<Row>, docs: seq<Doc>, before: seq<Row>, after: seq<Row>)
    requires docs != [] && rows <= before <= after
    requires (var k := |docs| - 1;
      && (forall i | 0 <= i < k :: InStore(before, docs[..k][i].event)) && InStore(after, docs[k].event)
      && (forall j | |rows| <= j < |before| :: exists i :: 0 <= i < k && docs[..k][i].event == before[j].event)
      && (forall j | |before| <= j < |after| :: after[j].event == docs[k].event && NewRow(after, j)))
    requires forall j | |rows| <= j < |before| :: NewRow(before, j)
    ensures forall i | 0 <= i < |docs| :: InStore(after, docs[i].event)
    ensures forall j | |rows| <= j < |after| :: exists i :: 0 <= i < |docs| && docs[i].event == after[j].event
    ensures forall j | |rows| <= j < |after| :: NewRow(after, j)
  {
    var k := |docs| - 1;
    forall i | 0 <= i < |docs|
      ensures InStore(after, docs[i].event)
    {
      if i < k {
        assert docs[..k][i] == docs[i];
        InStoreGrows(before, after, docs[i].event);
      }
    }
    forall j | |rows| <= j < |after|
      ensures NewRow(after, j) && exists i :: 0 <= i < |docs| && docs[i].event == after[j].event
    {
      if j < |before| {
        NewRowStays(before, after, j);
        var i :| 0 <= i < k && docs[..k][i].event == before[j].event;
        assert docs[i].event == after[j].event;
      } else {
        assert docs[k].event == after[j].event;
      }
    }
  }

  // ---------------------------------------------------------------- the push invariant

  /** Documents have distinct ids and distinct numbers the counter has handed out. */
  ghost predicate RemoteOk(counter: nat, remote: seq<Doc>) {
    && (forall i | 0 <= i < |remote| :: 1 <= remote[i].seqNo <= counter)
    && (forall i, j | 0 <= i < j < |remote| :: remote[i].seqNo != remote[j].seqNo)
    && (forall i, j | 0 <= i < j < |remote| :: remote[i].event.id != remote[j].event.id)
  }

  /** A batch starts at the push cursor, and what it passes over was quarantined when it was read. */
  ghost predicate BatchOk(node: Node, batch: seq<nat>, over: set<nat>) {
    && batch != [] && Ascending(batch)
    && (forall i | 0 <= i < |batch| :: node.pushCursor <= batch[i] < |node.rows|)
    && (forall k | node.pushCursor <= k <= batch[|batch| - 1] :: k in batch || k in over)
    && (forall k | k in over :: k < batch[|batch| - 1])
  }

  /** Numbers a batch has reserved. */
  ghost predicate Owns(node: Node, q: nat) {
    node.phase.PushAllocated? && node.phase.startSeq <= q < node.phase.startSeq + |node.phase.batch|
  }

  /** A reserved number not yet written. */
  ghost predicate Unwritten(node: Node, q: nat) {
    Owns(node, q) && (q - node.phase.startSeq) in node.phase.pending
  }

  ghost predicate FetchedOk(remote: seq<Doc>, q: nat, docs: seq<Doc>) {
    forall i | 0 <= i < |docs| :: docs[i] in remote && docs[i].seqNo > q
  }

  ghost predicate PhaseOk(counter: nat, remote: seq<Doc>, node: Node) {
    match node.phase
    case Idle => true
    case PushRead(batch, over) => BatchOk(node, batch, over)
    case PushAllocated(batch, over, start, pending) =>
      && BatchOk(node, batch, over)
      && 1 <= start && start + |batch| - 1 <= counter
      && (forall q | Unwritten(node, q) :: !HasSeq(remote, q))
      && (forall i | i in pending :: i < |batch|)
      && (forall i | 0 <= i < |batch| && i !in pending :: HasDoc(remote, node.rows[batch[i]].event.id))
    case PullFetched(docs) => docs != [] && FetchedOk(remote, node.pullCursor, docs)
    case PullImported(docs) => docs != [] && FetchedOk(remote, node.pullCursor, docs)
  }

  /** Every row the push cursor has passed has a document, or was quarantined when its turn came. */
  ghost predicate Pushed(remote: seq<Doc>, node: Node) {
    && node.pushCursor <= |node.rows|
    && (forall k | 0 <= k < node.pushCursor :: HasDoc(remote, node.rows[k].event.id) || k in node.skipped)
    && (forall k | k in node.skipped :: k < node.pushCursor)
  }

  ghost predicate NodeOk(counter: nat, remote: seq<Doc>, node: Node) {
    PhaseOk(counter, remote, node) && Pushed(remote, node) && node.pullCursor <= counter
  }

  ghost predicate NoSharedNumbers(a: Node, b: Node) {
    forall q | Owns(a, q) :: !Owns(b, q)
  }

  ghost predicate Inv(s: State) {
    && RemoteOk(s.counter, s.remote)
    && (forall n | n in s.nodes :: NodeOk(s.counter, s.remote, s.nodes[n]))
    && (forall n, m | n in s.nodes && m in s.nodes && n != m :: NoSharedNumbers(s.nodes[n], s.nodes[m]))
  }

  lemma InitialInv(s: State)
    requires Initial(s)
    ensures Inv(s)
  {
  }

  // ---------------------------------------------------------------- one step keeps it

  lemma HasDocGrows(remote: seq<Doc>, more: seq<Doc>, id: string)
    requires HasDoc(remote, id) && remote <= more
    ensures HasDoc(more, id)
  {
    var i :| 0 <= i < |remote| && remote[i].event.id == id;
    assert more[i] == remote[i];
  }

  /** The shared database never loses or changes a document. */
  lemma StepKeepsDocuments(s: State, step: Step)
    requires Enabled(s, step)
    ensures s.remote <= Apply(s, step).remote && s.counter <= Apply(s, step).counter
  {
  }

  /** What another node's write does to a node that does not own its number. */
  lemma BystanderOk(counter: nat, remote: seq<Doc>, counter': nat, remote': seq<Doc>, node: Node)
    requires NodeOk(counter, remote, node) && counter <= counter'
    requires remote' == remote || (|remote'| == |remote| + 1 && remote <= remote'
                                   && !Owns(node, remote'[|remote|].seqNo))
    ensures NodeOk(counter', remote', node)
  {
    forall id | HasDoc(remote, id)
      ensures HasDoc(remote', id)
    {
      HasDocGrows(remote, remote', id);
    }
    assert forall q | Unwritten(node, q) :: !HasSeq(remote', q);
    assert forall d | d in remote :: d in remote';
  }

  /** Replacing one node, and adding at most one document whose number no other node owns. */
  lemma ReplaceNode(s: State, who: Name, node: Node, counter: nat, remote: seq<Doc>)
    requires Inv(s) && who in s.nodes
    requires s.counter <= counter && RemoteOk(counter, remote) && NodeOk(counter, remote, node)
    requires forall m | m in s.nodes && m != who :: NoSharedNumbers(node, s.nodes[m])
    requires remote == s.remote
          || (|remote| == |s.remote| + 1 && s.remote <= remote && Owns(s.nodes[who], remote[|s.remote|].seqNo))
    ensures Inv(State(counter, remote, s.nodes[who := node]))
  {
    var s' := State(counter, remote, s.nodes[who := node]);
    forall m | m in s'.nodes
      ensures NodeOk(counter, remote, s'.nodes[m])
    {
      if m != who {
        assert NoSharedNumbers(s.nodes[who], s.nodes[m]);
        BystanderOk(s.counter, s.remote, counter, remote, s.nodes[m]);
      }
    }
    forall n, m | n in s'.nodes && m in s'.nodes && n != m
      ensures NoSharedNumbers(s'.nodes[n], s'.nodes[m])
    {
      if n != who && m != who {
        assert NoSharedNumbers(s.nodes[n], s.nodes[m]);
      } else if m == who {
        assert NoSharedNumbers(node, s.nodes[n]);
      }
    }
  }

  /** A node that owns no number it did not own before shares none. */
  lemma FewerNumbers(s: State, who: Name, node: Node)
    requires Inv(s) && who in s.nodes
    requires forall q | Owns(node, q) :: Owns(s.nodes[who], q)
    ensures forall m | m in s.nodes && m != who :: NoSharedNumbers(node, s.nodes[m])
  {
    forall m | m in s.nodes && m != who
      ensures NoSharedNumbers(node, s.nodes[m])
    {
      assert NoSharedNumbers(s.nodes[who], s.nodes[m]);
    }
  }

  /** Rows may be added and flagged; the events in place stay. */
  ghost predicate SameEvents(rows: seq<Row>, rows': seq<Row>) {
    |rows| <= |rows'| && forall k | 0 <= k < |rows| :: rows'[k].event == rows[k].event
  }

  lemma RowsMayGrow(counter: nat, remote: seq<Doc>, node: Node, rows: seq<Row>)
    requires NodeOk(counter, remote, node) && SameEvents(node.rows, rows)
    ensures NodeOk(counter, remote, node.(rows := rows))
  {
  }

  lemma ReadBatchOk(counter: nat, remote: seq<Doc>, node: Node, limit: nat)
    requires NodeOk(counter, remote, node) && ReadRows(node.rows, node.pushCursor, limit) != []
    ensures var batch := ReadRows(node.rows, node.pushCursor, limit);
            NodeOk(counter, remote, node.(phase := PushRead(batch, PassedOver(node.rows, node.pushCursor, batch))))
  {
    var batch := ReadRows(node.rows, node.pushCursor, limit);
    ReadRowsInOrder(node.rows, node.pushCursor, limit);
    forall k | node.pushCursor <= k <= batch[|batch| - 1]
      ensures k in batch || k in PassedOver(node.rows, node.pushCursor, batch)
    {
      if !node.rows[k].quarantined {
        ReadRowsLeavesNoGap(node.rows, node.pushCursor, limit, k);
      }
    }
  }

  lemma AllocateOk(counter: nat, remote: seq<Doc>, node: Node)
    requires RemoteOk(counter, remote) && NodeOk(counter, remote, node) && node.phase.PushRead?
    ensures var batch := node.phase.toSend;
            NodeOk(counter + |batch|, remote, Allocated(counter, node))
  {
    forall q | counter < q
      ensures !HasSeq(remote, q)
    {
    }
  }

  lemma WriteAdds(counter: nat, remote: seq<Doc>, node: Node, index: nat)
    requires RemoteOk(counter, remote) && NodeOk(counter, remote, node)
    requires node.phase.PushAllocated? && index in node.phase.pending
    ensures index < |node.phase.batch| && node.phase.batch[index] < |node.rows|
    ensures var doc := Doc(node.phase.startSeq + index, node.rows[node.phase.batch[index]].event);
            Owns(node, doc.seqNo) && !HasSeq(remote, doc.seqNo) && RemoteOk(counter, Upsert(remote, doc))
            && HasDoc(Upsert(remote, doc), doc.event.id)
  {
    var q := node.phase.startSeq + index;
    assert Unwritten(node, q);
    var doc := Doc(q, node.rows[node.phase.batch[index]].event);
    if !HasDoc(remote, doc.event.id) {
      var after := remote + [doc];
      assert after[|remote|].event.id == doc.event.id;
    }
  }

  /** The other reserved numbers of the batch stay unwritten. */
  lemma WriteLeavesTheRest(remote: seq<Doc>, node: Node, index: nat, doc: Doc, q: nat)
    requires node.phase.PushAllocated? && doc.seqNo == node.phase.startSeq + index
    requires forall x | Unwritten(node, x) :: !HasSeq(remote, x)
    requires Unwritten(node.(phase := node.phase.(pending := node.phase.pending - {index})), q)
    ensures !HasSeq(Upsert(remote, doc), q)
  {
    assert Unwritten(node, q);
  }

  /** What has been sent of the batch, with the document just written, is there. */
  lemma WriteSends(remote: seq<Doc>, node: Node, index: nat, doc: Doc, i: nat)
    requires node.phase.PushAllocated? && index < |node.phase.batch| && node.phase.batch[index] < |node.rows|
    requires doc == Doc(node.phase.startSeq + index, node.rows[node.phase.batch[index]].event)
    requires i < |node.phase.batch| && node.phase.batch[i] < |node.rows|
    requires i != index ==> HasDoc(remote, node.rows[node.phase.batch[i]].event.id)
    requires HasDoc(Upsert(remote, doc), doc.event.id) && remote <= Upsert(remote, doc)
    ensures HasDoc(Upsert(remote, doc), node.rows[node.phase.batch[i]].event.id)
  {
    if i != index {
      HasDocGrows(remote, Upsert(remote, doc), node.rows[node.phase.batch[i]].event.id);
    }
  }

  lemma WriteOk(counter: nat, remote: seq<Doc>, node: Node, index: nat)
    requires RemoteOk(counter, remote) && NodeOk(counter, remote, node)
    requires node.phase.PushAllocated? && index in node.phase.pending
    requires index < |node.phase.batch| && node.phase.batch[index] < |node.rows|
    ensures var doc := Doc(node.phase.startSeq + index, node.rows[node.phase.batch[index]].event);
            NodeOk(counter, Upsert(remote, doc), node.(phase := node.phase.(pending := node.phase.pending - {index})))
  {
    WriteAdds(counter, remote, node, index);
    var doc := Doc(node.phase.startSeq + index, node.rows[node.phase.batch[index]].event);
    var after, node' := Upsert(remote, doc), node.(phase := node.phase.(pending := node.phase.pending - {index}));
    WriteKeepsPushed(remote, after, node, node');
    assert BatchOk(node', node.phase.batch, node.phase.over);
    forall q | Unwritten(node', q)
      ensures !HasSeq(after, q)
    {
      WriteLeavesTheRest(remote, node, index, doc, q);
    }
    forall i | 0 <= i < |node.phase.batch| && i !in node'.phase.pending
      ensures HasDoc(after, node.rows[node.phase.batch[i]].event.id)
    {
      WriteSends(remote, node, index, doc, i);
    }
  }

  lemma WriteKeepsPushed(remote: seq<Doc>, after: seq<Doc>, node: Node, node': Node)
    requires Pushed(remote, node) && remote <= after
    requires node'.pushCursor == node.pushCursor && node'.rows == node.rows
    requires node'.skipped == node.skipped
    ensures Pushed(after, node')
  {
    DocsGrow(remote, after);
  }

  lemma DocsGrow(remote: seq<Doc>, more: seq<Doc>)
    requires remote <= more
    ensures forall id | HasDoc(remote, id) :: HasDoc(more, id)
  {
    forall id | HasDoc(remote, id)
      ensures HasDoc(more, id)
    {
      HasDocGrows(remote, more, id);
    }
  }

  lemma AdvancePushOk(counter: nat, remote: seq<Doc>, node: Node)
    requires NodeOk(counter, remote, node)
    requires node.phase.PushAllocated? && node.phase.pending == {} && node.phase.batch != []
    ensures NodeOk(counter, remote, node.(pushCursor := node.phase.batch[|node.phase.batch| - 1] + 1, phase := Idle,
                                          skipped := node.skipped + node.phase.over))
  {
    var batch := node.phase.batch;
    forall k | 0 <= k <= batch[|batch| - 1]
      ensures HasDoc(remote, node.rows[k].event.id) || k in node.skipped + node.phase.over
    {
      if node.pushCursor <= k && k in batch {
        var i :| 0 <= i < |batch| && batch[i] == k;
        assert i !in node.phase.pending;
      }
    }
  }

  lemma ImportOk(counter: nat, remote: seq<Doc>, node: Node)
    requires NodeOk(counter, remote, node) && node.phase.PullFetched?
    ensures NodeOk(counter, remote,
              node.(rows := ImportAll(node.rows, node.phase.fetched), phase := PullImported(node.phase.fetched)))
  {
    ImportAllSpec(node.rows, node.phase.fetched);
    RowsMayGrow(counter, remote, node, ImportAll(node.rows, node.phase.fetched));
  }

  lemma LocalStepOk(s: State, step: Step)
    requires Inv(s) && Enabled(s, step) && !step.action.Allocate? && !step.action.WriteOne?
    ensures NodeOk(s.counter, s.remote, NodeAfter(s, step))
    ensures forall q | Owns(NodeAfter(s, step), q) :: Owns(s.nodes[step.who], q)
  {
    var node, after := s.nodes[step.who], NodeAfter(s, step);
    match step.action
    case Append(_) => RowsMayGrow(s.counter, s.remote, node, after.rows);
    case SetQuarantine(_, _) => RowsMayGrow(s.counter, s.remote, node, after.rows);
    case ReadBatch(limit) => ReadBatchOk(s.counter, s.remote, node, limit);
    case AdvancePush => AdvancePushOk(s.counter, s.remote, node);
    case Fetch(limit) => FindSpec(s.remote, node.pullCursor, limit);
    case Import => ImportOk(s.counter, s.remote, node);
    case AdvancePull =>
    case Crash =>
  }

  /** The node after an allocation. */
  ghost function Allocated(counter: nat, node: Node): Node
    requires node.phase.PushRead?
  {
    var batch := node.phase.toSend;
    node.(phase := PushAllocated(batch, node.phase.over, counter + 1, AllIndices(|batch|)))
  }

  /** What a reservation makes of the whole. */
  ghost function AfterAllocate(s: State, who: string): State
    requires who in s.nodes && s.nodes[who].phase.PushRead?
  {
    State(s.counter + |s.nodes[who].phase.toSend|, s.remote, s.nodes[who := Allocated(s.counter, s.nodes[who])])
  }

  lemma AllocateKeepsInv(s: State, step: Step)
    requires Inv(s) && Enabled(s, step) && step.action.Allocate?
    ensures Inv(Apply(s, step))
  {
    ReservationKeepsInv(s, step.who);
    AllocateApplied(s, step);
  }

  lemma AllocateApplied(s: State, step: Step)
    requires Enabled(s, step) && step.action.Allocate?
    ensures Apply(s, step) == AfterAllocate(s, step.who)
  {
  }

  lemma ReservationKeepsInv(s: State, who: string)
    requires Inv(s) && who in s.nodes && s.nodes[who].phase.PushRead?
    ensures Inv(AfterAllocate(s, who))
  {
    var node := s.nodes[who];
    var after := Allocated(s.counter, node);
    assert NodeOk(s.counter, s.remote, node);
    AllocateOk(s.counter, s.remote, node);
    NewNumbersAreOwn(s, after);
    ReplaceNode(s, who, after, s.counter + |node.phase.toSend|, s.remote);
  }

  /** Numbers above the counter belong to no other instance. */
  lemma NewNumbersAreOwn(s: State, node: Node)
    requires Inv(s) && node.phase.PushAllocated? && node.phase.startSeq == s.counter + 1
    ensures forall m | m in s.nodes :: NoSharedNumbers(node, s.nodes[m])
  {
    forall m | m in s.nodes
      ensures NoSharedNumbers(node, s.nodes[m])
    {
      assert NodeOk(s.counter, s.remote, s.nodes[m]);
    }
  }

  lemma WriteKeepsInv(s: State, step: Step)
    requires Inv(s) && Enabled(s, step) && step.action.WriteOne?
    ensures Inv(Apply(s, step))
  {
    var node, index := s.nodes[step.who], step.action.index;
    assert NodeOk(s.counter, s.remote, node);
    WriteAdds(s.counter, s.remote, node, index);
    WriteOk(s.counter, s.remote, node, index);
    var after := node.(phase := node.phase.(pending := node.phase.pending - {index}));
    var remote := Upsert(s.remote, Doc(node.phase.startSeq + index, node.rows[node.phase.batch[index]].event));
    assert Apply(s, step) == State(s.counter, remote, s.nodes[step.who := after]);
    FewerNumbers(s, step.who, after);
    ReplaceNode(s, step.who, after, s.counter, remote);
  }

  /** The whole invariant, for every action of any node, crashes included. */
  lemma StepKeepsInv(s: State, step: Step)
    requires Inv(s) && Enabled(s, step)
    ensures Inv(Apply(s, step))
  {
    if step.action.Allocate? {
      AllocateKeepsInv(s, step);
    } else if step.action.WriteOne? {
      WriteKeepsInv(s, step);
    } else {
      LocalStepOk(s, step);
      FewerNumbers(s, step.who, NodeAfter(s, step));
      ReplaceNode(s, step.who, NodeAfter(s, step), s.counter, s.remote);
    }
  }

  /** Safety over every run: whatever instances interleave and wherever they crash. */
  lemma {:induction false} RunKeepsInv(s: State, steps: seq<Step>)
    requires Inv(s) && Runs(s, steps)
    ensures Inv(After(s, steps))
    ensures s.remote <= After(s, steps).remote && s.counter <= After(s, steps).counter
  {
    if steps != [] {
      var before := steps[..|steps| - 1];
      LastStep(s, steps);
      RunKeepsInv(s, before);
      StepKeepsInv(After(s, before), steps[|steps| - 1]);
      StepKeepsDocuments(After(s, before), steps[|steps| - 1]);
    }
  }

  /** Each cursor only moves forward, and strictly where its loop goes round again. */
  lemma CursorsAdvance(s: State, step: Step)
    requires Inv(s) && Enabled(s, step)
    ensures var before, after := s.nodes[step.who], NodeAfter(s, step);
      && before.pushCursor <= after.pushCursor && before.pullCursor <= after.pullCursor
      && (step.action.AdvancePush? ==> before.pushCursor < after.pushCursor)
      && (step.action.AdvancePull? ==> before.pullCursor < after.pullCursor)
  {
  }

  // ---------------------------------------------------------------- the pull invariant

  ghost predicate Covered(remote: seq<Doc>, rows: seq<Row>, q: nat) {
    forall d | d in remote && d.seqNo <= q :: InStore(rows, d.event)
  }

  /** Node `m` has reserved number `x` for an event no document carries yet. */
  ghost predicate WillWrite(s: State, m: Name, x: nat) {
    && m in s.nodes && Unwritten(s.nodes[m], x)
    && var node := s.nodes[m];
       var i := x - node.phase.startSeq;
       node.phase.batch[i] < |node.rows| && !HasDoc(s.remote, node.rows[node.phase.batch[i]].event.id)
  }

  /** A document numbered at or below `q` is still to come. */
  ghost predicate Late(s: State, q: nat) {
    exists m, x: nat :: WillWrite(s, m, x) && x <= q
  }

  function LastSeq(docs: seq<Doc>): nat
    requires docs != []
  {
    docs[|docs| - 1].seqNo
  }

  ghost predicate PullOk(s: State, node: Node) {
    && Covered(s.remote, node.rows, node.pullCursor)
    && !Late(s, node.pullCursor)
    && match node.phase
       case PullFetched(docs) =>
         && docs != [] && !Late(s, LastSeq(docs))
         && forall d | d in s.remote && d.seqNo <= LastSeq(docs) :: InStore(node.rows, d.event) || d in docs
       case PullImported(docs) =>
         && docs != [] && !Late(s, LastSeq(docs))
         && Covered(s.remote, node.rows, LastSeq(docs))
       case _ => true
  }

  ghost predicate PullInv(s: State) {
    forall n | n in s.nodes :: PullOk(s, s.nodes[n])
  }

  /** A fetch while no document is still to come below the last one fetched. */
  ghost predicate Quiet(s: State, step: Step)
    requires Enabled(s, step)
  {
    step.action.Fetch? ==> !Late(s, LastSeq(Find(s.remote, s.nodes[step.who].pullCursor, step.action.fetchLimit)))
  }

  ghost predicate QuietRun(s: State, steps: seq<Step>)
    requires Runs(s, steps)
    decreases |steps|, 1
  {
    steps == [] || QuietLast(s, steps)
  }

  ghost predicate QuietLast(s: State, steps: seq<Step>)
    requires steps != [] && Runs(s, steps)
    decreases |steps|, 0
  {
    assert RunsLast(s, steps);
    QuietRun(s, steps[..|steps| - 1]) && Quiet(After(s, steps[..|steps| - 1]), steps[|steps| - 1])
  }

  lemma LastIsQuiet(s: State, steps: seq<Step>)
    requires steps != [] && Runs(s, steps)
    ensures (var before, last := steps[..|steps| - 1], steps[|steps| - 1];
      Runs(s, before) && Enabled(After(s, before), last) &&
      (QuietRun(s, steps) <==> QuietRun(s, before) && Quiet(After(s, before), last)))
  {
    LastStep(s, steps);
    assert QuietRun(s, steps) <==> QuietLast(s, steps);
  }

  /** A lock around allocate-and-write that fetches respect makes every fetch quiet. */
  lemma LockedFetchIsQuiet(s: State, step: Step)
    requires Enabled(s, step)
    requires step.action.Fetch? ==> forall m | m in s.nodes :: !s.nodes[m].phase.PushAllocated?
    ensures Quiet(s, step)
  {
  }

  lemma InStoreSameEvents(rows: seq<Row>, rows': seq<Row>, e: Event)
    requires InStore(rows, e) && SameEvents(rows, rows')
    ensures InStore(rows', e)
  {
    var i :| 0 <= i < |rows| && (rows[i].event.id == e.id || rows[i].event.dedupeKey == e.dedupeKey);
    assert rows'[i].event == rows[i].event;
  }

  lemma StepKeepsRows(s: State, step: Step)
    requires Enabled(s, step)
    ensures SameEvents(s.nodes[step.who].rows, NodeAfter(s, step).rows)
  {
    if step.action.Import? {
      ImportAllSpec(s.nodes[step.who].rows, s.nodes[step.who].phase.fetched);
    }
  }

  /** No step makes a document late below a number the counter has already passed. */
  lemma NothingNewIsLate(s: State, step: Step, q: nat)
    requires Inv(s) && Enabled(s, step) && q <= s.counter && !Late(s, q)
    ensures !Late(Apply(s, step), q)
  {
    var s' := Apply(s, step);
    forall m, x: nat | WillWrite(s', m, x)
      ensures q < x
    {
      WillWriteBefore(s, step, m, x);
      assert WillWrite(s, m, x) ==> q < x;
    }
  }

  lemma UnwrittenBefore(s: State, step: Step, m: Name, x: nat)
    requires Inv(s) && Enabled(s, step) && m in s.nodes && Unwritten(Apply(s, step).nodes[m], x)
    ensures s.counter < x
         || (Unwritten(s.nodes[m], x) && s.nodes[m].phase.startSeq == Apply(s, step).nodes[m].phase.startSeq
             && s.nodes[m].phase.batch == Apply(s, step).nodes[m].phase.batch)
  {
  }

  lemma WillWriteBefore(s: State, step: Step, m: Name, x: nat)
    requires Inv(s) && Enabled(s, step) && WillWrite(Apply(s, step), m, x)
    ensures WillWrite(s, m, x) || s.counter < x
  {
    var s' := Apply(s, step);
    StepKeepsDocuments(s, step);
    StepKeepsRows(s, step);
    UnwrittenBefore(s, step, m, x);
    if x <= s.counter {
      assert NodeOk(s.counter, s.remote, s.nodes[m]);
      var i := x - s.nodes[m].phase.startSeq;
      var id := s.nodes[m].rows[s.nodes[m].phase.batch[i]].event.id;
      if HasDoc(s.remote, id) {
        HasDocGrows(s.remote, s'.remote, id);
      }
    }
  }

  /** What a node itself owes after a quiet step of its own. */
  lemma OwnStepKeepsPull(s: State, step: Step)
    requires Inv(s) && PullInv(s) && Enabled(s, step) && Quiet(s, step)
    requires !step.action.WriteOne?
    ensures PullOk(Apply(s, step), NodeAfter(s, step))
  {
    var s', node, after := Apply(s, step), s.nodes[step.who], NodeAfter(s, step);
    assert NodeOk(s.counter, s.remote, node) && PullOk(s, node);
    NothingNewIsLate(s, step, node.pullCursor);
    RowsStillCover(s, step, node.pullCursor);
    match step.action
    case Fetch(limit) =>
      FindSpec(s.remote, node.pullCursor, limit);
      FetchedIsComplete(s, node, after.phase.fetched);
      NothingNewIsLate(s, step, LastSeq(after.phase.fetched));
    case Import =>
      NothingNewIsLate(s, step, LastSeq(node.phase.fetched));
      ImportCovers(s, node);
    case AdvancePull =>
      NothingNewIsLate(s, step, LastSeq(node.phase.imported));
    case Append(_) => OwnRowsKeepPull(s, step);
    case SetQuarantine(_, _) => OwnRowsKeepPull(s, step);
    case _ =>
  }

  lemma OwnRowsKeepPull(s: State, step: Step)
    requires Inv(s) && PullInv(s) && Enabled(s, step)
    requires step.action.Append? || step.action.SetQuarantine?
    ensures PullOk(Apply(s, step), NodeAfter(s, step))
  {
    var node := s.nodes[step.who];
    assert NodeOk(s.counter, s.remote, node) && PullOk(s, node);
    NothingNewIsLate(s, step, node.pullCursor);
    RowsStillCover(s, step, node.pullCursor);
    match node.phase
    case PullFetched(docs) =>
      NothingNewIsLate(s, step, LastSeq(docs));
      FetchedStillCovers(s, step, docs);
    case PullImported(docs) =>
      NothingNewIsLate(s, step, LastSeq(docs));
      RowsStillCover(s, step, LastSeq(docs));
    case _ =>
  }

  lemma RowsStillCover(s: State, step: Step, q: nat)
    requires Enabled(s, step)
    requires Covered(s.remote, s.nodes[step.who].rows, q)
    ensures Covered(s.remote, NodeAfter(s, step).rows, q)
  {
    StepKeepsRows(s, step);
    forall d | d in s.remote && d.seqNo <= q
      ensures InStore(NodeAfter(s, step).rows, d.event)
    {
      InStoreSameEvents(s.nodes[step.who].rows, NodeAfter(s, step).rows, d.event);
    }
  }

  lemma FetchedStillCovers(s: State, step: Step, docs: seq<Doc>)
    requires Enabled(s, step) && docs != []
    requires forall d | d in s.remote && d.seqNo <= LastSeq(docs) ::
      InStore(s.nodes[step.who].rows, d.event) || d in docs
    ensures forall d | d in s.remote && d.seqNo <= LastSeq(docs) ::
      InStore(NodeAfter(s, step).rows, d.event) || d in docs
  {
    StepKeepsRows(s, step);
    forall d | d in s.remote && d.seqNo <= LastSeq(docs) && d !in docs
      ensures InStore(NodeAfter(s, step).rows, d.event)
    {
      InStoreSameEvents(s.nodes[step.who].rows, NodeAfter(s, step).rows, d.event);
    }
  }

  lemma SameNumberSameDoc(counter: nat, remote: seq<Doc>, d: Doc, e: Doc)
    requires RemoteOk(counter, remote) && d in remote && e in remote
    requires d.seqNo == e.seqNo || d.event.id == e.event.id
    ensures d == e
  {
  }

  lemma FetchedIsComplete(s: State, node: Node, docs: seq<Doc>)
    requires RemoteOk(s.counter, s.remote) && docs != [] && IsFetch(s.remote, node.pullCursor, docs)
    requires Covered(s.remote, node.rows, node.pullCursor)
    ensures LastSeq(docs) <= s.counter
    ensures forall d | d in s.remote && d.seqNo <= LastSeq(docs) :: InStore(node.rows, d.event) || d in docs
  {
    var last := docs[|docs| - 1];
    assert last in s.remote && last in docs;
    forall d | d in s.remote && d.seqNo <= LastSeq(docs)
      ensures InStore(node.rows, d.event) || d in docs
    {
      if d.seqNo == last.seqNo {
        SameNumberSameDoc(s.counter, s.remote, d, last);
      }
    }
  }

  lemma ImportCovers(s: State, node: Node)
    requires node.phase.PullFetched? && PullOk(s, node)
    ensures Covered(s.remote, ImportAll(node.rows, node.phase.fetched), LastSeq(node.phase.fetched))
  {
    var docs := node.phase.fetched;
    ImportAllSpec(node.rows, docs);
    forall d | d in s.remote && d.seqNo <= LastSeq(docs)
      ensures InStore(ImportAll(node.rows, docs), d.event)
    {
      if d in docs {
        var i :| 0 <= i < |docs| && docs[i] == d;
      } else {
        InStoreGrows(node.rows, ImportAll(node.rows, docs), d.event);
      }
    }
  }

  /** The step of another node, or a node's own write, leaves its rows, cursor and fetched documents alone. */
  lemma BystanderPull(s: State, step: Step, node: Node)
    requires Inv(s) && Enabled(s, step) && PullOk(s, node) && NodeOk(s.counter, s.remote, node)
    ensures PullOk(Apply(s, step), node)
  {
    var s' := Apply(s, step);
    NewDocumentIsAhead(s, step, node.pullCursor);
    NothingNewIsLate(s, step, node.pullCursor);
    match node.phase
    case PullFetched(docs) =>
      NewDocumentIsAhead(s, step, LastSeq(docs));
      NothingNewIsLate(s, step, LastSeq(docs));
    case PullImported(docs) =>
      NewDocumentIsAhead(s, step, LastSeq(docs));
      NothingNewIsLate(s, step, LastSeq(docs));
    case _ =>
  }

  lemma NewDocumentIsAhead(s: State, step: Step, q: nat)
    requires Inv(s) && Enabled(s, step) && !Late(s, q)
    ensures forall d | d in Apply(s, step).remote && d.seqNo <= q :: d in s.remote
  {
    if step.action.WriteOne? {
      var node, i := s.nodes[step.who], step.action.index;
      var x := node.phase.startSeq + i;
      assert NodeOk(s.counter, s.remote, node);
      if !HasDoc(s.remote, node.rows[node.phase.batch[i]].event.id) {
        assert WillWrite(s, step.who, x);
      }
    }
  }

  lemma QuietStepKeepsPullInv(s: State, step: Step)
    requires Inv(s) && PullInv(s) && Enabled(s, step) && Quiet(s, step)
    ensures PullInv(Apply(s, step))
  {
    var s' := Apply(s, step);
    forall n | n in s'.nodes
      ensures PullOk(s', s'.nodes[n])
    {
      assert NodeOk(s.counter, s.remote, s.nodes[n]) && PullOk(s, s.nodes[n]);
      if n != step.who {
        BystanderPull(s, step, s.nodes[n]);
      } else if step.action.WriteOne? {
        BystanderPull(s, step, s.nodes[n]);
      } else {
        OwnStepKeepsPull(s, step);
      }
    }
  }

  /** In every quiet run no instance ever misses a document its pull cursor has passed. */
  lemma {:induction false} QuietRunKeepsPullInv(s: State, steps: seq<Step>)
    requires Inv(s) && PullInv(s) && Runs(s, steps) && QuietRun(s, steps)
    ensures PullInv(After(s, steps))
  {
    if steps != [] {
      var before := steps[..|steps| - 1];
      LastStep(s, steps);
      LastIsQuiet(s, steps);
      RunKeepsInv(s, before);
      QuietRunKeepsPullInv(s, before);
      QuietStepKeepsPullInv(After(s, before), steps[|steps| - 1]);
    }
  }

  /** From the first sync on: no instance misses a document its pull cursor has passed. */
  lemma NoQuietRunMissesADocument(s: State, steps: seq<Step>, n: Name)
    requires Initial(s) && Runs(s, steps) && QuietRun(s, steps) && n in After(s, steps).nodes
    ensures var s' := After(s, steps);
            Covered(s'.remote, s'.nodes[n].rows, s'.nodes[n].pullCursor)
  {
    InitialInv(s);
    assert forall m, x: nat :: !WillWrite(s, m, x);
    QuietRunKeepsPullInv(s, steps);
    assert PullOk(After(s, steps), After(s, steps).nodes[n]);
  }

  // ---------------------------------------------------------------- and a fetch that is not quiet loses one

  lemma RunSnoc(s: State, steps: seq<Step>, step: Step)
    requires Runs(s, steps) && Enabled(After(s, steps), step)
    ensures Runs(s, steps + [step]) && After(s, steps + [step]) == Apply(After(s, steps), step)
  {
    assert (steps + [step])[..|steps|] == steps;
    assert RunsLast(s, steps + [step]);
  }

  lemma {:induction false} RunConcat(s: State, first: seq<Step>, second: seq<Step>)
    requires Runs(s, first) && Runs(After(s, first), second)
    ensures Runs(s, first + second) && After(s, first + second) == After(After(s, first), second)
    decreases |second|
  {
    if second == [] {
      assert first + second == first;
    } else {
      var before := second[..|second| - 1];
      LastStep(After(s, first), second);
      RunConcat(s, first, before);
      RunSnoc(s, first + before, second[|second| - 1]);
      assert first + before + [second[|second| - 1]] == first + second;
    }
  }

  /** The document is behind the pull cursor and its event is not in the store. */
  ghost predicate Lost(s: State, n: Name, d: Doc) {
    && n in s.nodes && d in s.remote && d.seqNo <= s.nodes[n].pullCursor
    && (forall i | 0 <= i < |s.nodes[n].rows| :: s.nodes[n].rows[i].event.id != d.event.id)
    && (s.nodes[n].phase.PullFetched? ==> d !in s.nodes[n].phase.fetched)
  }

  lemma StepKeepsLost(s: State, step: Step, n: Name, d: Doc)
    requires Inv(s) && Enabled(s, step) && Lost(s, n, d)
    ensures Lost(Apply(s, step), n, d)
  {
    var node := s.nodes[n];
    assert NodeOk(s.counter, s.remote, node);
    if n == step.who {
      CursorsAdvance(s, step);
      match step.action
      case Append(e) =>
        var i :| 0 <= i < |s.remote| && s.remote[i] == d;
        assert Known(s, d.event);
      case Fetch(limit) =>
        FindSpec(s.remote, node.pullCursor, limit);
      case Import =>
        ImportAllSpec(node.rows, node.phase.fetched);
        LostIsNotImported(s, n, d);
      case _ =>
    }
  }

  lemma LostIsNotImported(s: State, n: Name, d: Doc)
    requires Inv(s) && Lost(s, n, d) && s.nodes[n].phase.PullFetched?
    ensures forall i | 0 <= i < |s.nodes[n].phase.fetched| :: s.nodes[n].phase.fetched[i].event.id != d.event.id
  {
    var docs := s.nodes[n].phase.fetched;
    assert NodeOk(s.counter, s.remote, s.nodes[n]);
    forall i | 0 <= i < |docs|
      ensures docs[i].event.id != d.event.id
    {
      assert docs[i] in docs && docs[i] in s.remote;
      if docs[i].event.id == d.event.id {
        SameNumberSameDoc(s.counter, s.remote, docs[i], d);
      }
    }
  }

  /** A lost document stays lost, whatever happens next. */
  lemma {:induction false} RunKeepsLost(s: State, steps: seq<Step>, n: Name, d: Doc)
    requires Inv(s) && Lost(s, n, d) && Runs(s, steps)
    ensures Lost(After(s, steps), n, d)
  {
    if steps != [] {
      var before := steps[..|steps| - 1];
      LastStep(s, steps);
      RunKeepsInv(s, before);
      RunKeepsLost(s, before, n, d);
      StepKeepsLost(After(s, before), steps[|steps| - 1], n, d);
    }
  }

  ghost function EventOf(s: State, m: Name, x: nat): Event
    requires WillWrite(s, m, x)
  {
    s.nodes[m].rows[s.nodes[m].phase.batch[x - s.nodes[m].phase.startSeq]].event
  }

  /** No instance holds numbers it has reserved. */
  ghost predicate NoneReserved(s: State) {
    forall m | m in s.nodes :: !s.nodes[m].phase.PushAllocated?
  }

  ghost predicate NoFetch(steps: seq<Step>) {
    forall i | 0 <= i < |steps| :: !steps[i].action.Fetch?
  }

  ghost predicate NoAppend(steps: seq<Step>) {
    forall i | 0 <= i < |steps| :: !steps[i].action.Append?
  }

  lemma {:induction false} NoFetchIsQuiet(s: State, steps: seq<Step>)
    requires Runs(s, steps) && NoFetch(steps)
    ensures QuietRun(s, steps)
  {
    if steps != [] {
      LastIsQuiet(s, steps);
      NoFetchIsQuiet(s, steps[..|steps| - 1]);
    }
  }

  lemma QuietSnoc(s: State, steps: seq<Step>, step: Step)
    requires Runs(s, steps) && QuietRun(s, steps) && Enabled(After(s, steps), step) && Quiet(After(s, steps), step)
    ensures Runs(s, steps + [step]) && QuietRun(s, steps + [step])
  {
    RunSnoc(s, steps, step);
    assert (steps + [step])[..|steps|] == steps;
    LastIsQuiet(s, steps + [step]);
  }

  lemma {:induction false} QuietConcat(s: State, first: seq<Step>, second: seq<Step>)
    requires Runs(s, first) && QuietRun(s, first)
    requires Runs(After(s, first), second) && QuietRun(After(s, first), second)
    ensures Runs(s, first + second) && QuietRun(s, first + second)
    decreases |second|
  {
    if second == [] {
      assert first + second == first;
    } else {
      var before, last := second[..|second| - 1], second[|second| - 1];
      LastIsQuiet(After(s, first), second);
      QuietConcat(s, first, before);
      QuietConcatOne(s, first, before, last);
      SnocAssociates(first, second);
    }
  }

  lemma QuietConcatOne(s: State, first: seq<Step>, before: seq<Step>, last: Step)
    requires Runs(s, first) && Runs(After(s, first), before)
    requires Runs(s, first + before) && QuietRun(s, first + before)
    requires Enabled(After(After(s, first), before), last) && Quiet(After(After(s, first), before), last)
    ensures Runs(s, first + before + [last]) && QuietRun(s, first + before + [last])
  {
    RunConcat(s, first, before);
    QuietSnoc(s, first + before, last);
  }

  lemma SnocAssociates<T>(first: seq<T>, second: seq<T>)
    requires second != []
    ensures first + second[..|second| - 1] + [second[|second| - 1]] == first + second
  {
  }

  /** What the pull of one batch makes of the whole. */
  ghost function Pulled(s: State, n: Name, limit: nat): State
    requires n in s.nodes && Find(s.remote, s.nodes[n].pullCursor, limit) != []
  {
    var docs := Find(s.remote, s.nodes[n].pullCursor, limit);
    State(s.counter, s.remote, s.nodes[n :=
      s.nodes[n].(rows := ImportAll(s.nodes[n].rows, docs), pullCursor := LastSeq(docs), phase := Idle)])
  }

  /** The pull of one batch, with nothing in between. */
  lemma PullOnce(s: State, n: Name, limit: nat) returns (steps: seq<Step>)
    requires n in s.nodes && s.nodes[n].phase.Idle? && Find(s.remote, s.nodes[n].pullCursor, limit) != []
    ensures Runs(s, steps) && NoAppend(steps) && (NoneReserved(s) ==> QuietRun(s, steps))
    ensures After(s, steps) == Pulled(s, n, limit)
  {
    var docs := Find(s.remote, s.nodes[n].pullCursor, limit);
    steps := [];
    if NoneReserved(s) {
      LockedFetchIsQuiet(s, Step(n, Fetch(limit)));
      QuietSnoc(s, steps, Step(n, Fetch(limit)));
    }
    RunSnoc(s, steps, Step(n, Fetch(limit)));
    steps := steps + [Step(n, Fetch(limit))];
    steps := PullRest(s, n, steps);
  }

  /** What follows a fetch. */
  lemma PullRest(s: State, n: Name, fetched: seq<Step>) returns (steps: seq<Step>)
    requires Runs(s, fetched) && NoAppend(fetched)
    requires n in After(s, fetched).nodes && After(s, fetched).nodes[n].phase.PullFetched?
    requires After(s, fetched).nodes[n].phase.fetched != []
    ensures Runs(s, steps) && NoAppend(steps) && (QuietRun(s, fetched) ==> QuietRun(s, steps))
    ensures (var t := After(s, fetched);
      var docs := t.nodes[n].phase.fetched;
      After(s, steps) == State(t.counter, t.remote, t.nodes[n :=
        t.nodes[n].(rows := ImportAll(t.nodes[n].rows, docs), pullCursor := LastSeq(docs), phase := Idle)]))
  {
    RunSnoc(s, fetched, Step(n, Import));
    var imported := fetched + [Step(n, Import)];
    RunSnoc(s, imported, Step(n, AdvancePull));
    if QuietRun(s, fetched) {
      QuietSnoc(s, fetched, Step(n, Import));
      QuietSnoc(s, imported, Step(n, AdvancePull));
    }
    steps := imported + [Step(n, AdvancePull)];
  }

  /**
    If a fetch is not quiet, and the event still to come is not otherwise in the store, then
    finishing that pull and that write puts the event out of the puller's reach for good.
   */
  lemma NoisyFetchLosesADocument(s: State, n: Name, limit: nat, m: Name, x: nat) returns (steps: seq<Step>, d: Doc)
    requires Inv(s)
    requires n in s.nodes && s.nodes[n].phase.Idle? && Find(s.remote, s.nodes[n].pullCursor, limit) != []
    requires WillWrite(s, m, x) && x <= LastSeq(Find(s.remote, s.nodes[n].pullCursor, limit))
    requires !InStore(ImportAll(s.nodes[n].rows, Find(s.remote, s.nodes[n].pullCursor, limit)), EventOf(s, m, x))
    ensures Runs(s, steps) && d == Doc(x, EventOf(s, m, x)) && Lost(After(s, steps), n, d)
    ensures !Covered(After(s, steps).remote, After(s, steps).nodes[n].rows, After(s, steps).nodes[n].pullCursor)
  {
    d := Doc(x, EventOf(s, m, x));
    var t := Pulled(s, n, limit);
    assert WillWrite(t, m, x) && EventOf(t, m, x) == d.event;
    var write := Step(m, WriteOne(x - t.nodes[m].phase.startSeq));
    LateWriteIsLost(t, m, x, n);
    var pull := PullOnce(s, n, limit);
    RunSnoc(s, pull, write);
    steps := pull + [write];
  }

  /** A number written behind the pull cursor of a store without its event. */
  lemma LateWriteIsLost(t: State, m: Name, x: nat, n: Name)
    requires WillWrite(t, m, x) && n in t.nodes && t.nodes[n].phase.Idle? && x <= t.nodes[n].pullCursor
    requires !InStore(t.nodes[n].rows, EventOf(t, m, x))
    ensures (var write := Step(m, WriteOne(x - t.nodes[m].phase.startSeq));
      var t', d := Apply(t, write), Doc(x, EventOf(t, m, x));
      Enabled(t, write) && Lost(t', n, d) && !Covered(t'.remote, t'.nodes[n].rows, t'.nodes[n].pullCursor))
  {
    LateWrite(t, m, x);
    var t', d := Apply(t, Step(m, WriteOne(x - t.nodes[m].phase.startSeq))), Doc(x, EventOf(t, m, x));
    assert d in t'.remote;
  }

  /** The write of a reserved number whose event has no document yet. */
  lemma LateWrite(s: State, m: Name, x: nat)
    requires WillWrite(s, m, x)
    ensures (var write := Step(m, WriteOne(x - s.nodes[m].phase.startSeq));
      && Enabled(s, write) && Apply(s, write).remote == s.remote + [Doc(x, EventOf(s, m, x))]
      && forall n | n in s.nodes && n != m :: Apply(s, write).nodes[n] == s.nodes[n])
  {
  }

  /** Two instances and what the shared database holds. */
  ghost function Pair(counter: nat, remote: seq<Doc>, a: Name, x: Node, b: Name, y: Node): State {
    State(counter, remote, map[a := x, b := y])
  }

  /** A store of one row, before any sync. */
  ghost function FreshNode(e: Event): Node {
    Node([Row(e, false)], 0, 0, Idle, {})
  }

  lemma OneRowBatch(e: Event)
    ensures ReadRows([Row(e, false)], 0, 1) == [0] && AllIndices(1) == {0}
    ensures PassedOver([Row(e, false)], 0, [0]) == {}
  {
    assert ReadRows([Row(e, false)], 0, 1) == ReadNext([Row(e, false)], 0, 1);
    assert AllIndices(0) == {};
  }

  /** A fresh store reads its row and reserves the next number. */
  lemma ReserveOne(s: State, n: Name, e: Event) returns (steps: seq<Step>)
    requires n in s.nodes && s.nodes[n] == FreshNode(e)
    ensures Runs(s, steps)
    ensures After(s, steps) == State(s.counter + 1, s.remote,
              s.nodes[n := FreshNode(e).(phase := PushAllocated([0], {}, s.counter + 1, {0}))])
  {
    OneRowBatch(e);
    var read, allocate := Step(n, ReadBatch(1)), Step(n, Allocate);
    assert Enabled(s, read);
    var t := Apply(s, read);
    assert NodeAfter(s, read) == FreshNode(e).(phase := PushRead([0], {}));
    assert Apply(t, allocate).nodes == s.nodes[n := FreshNode(e).(phase := PushAllocated([0], {}, s.counter + 1, {0}))];
    RunSnoc(s, [], read);
    RunSnoc(s, [] + [read], allocate);
    steps := [] + [read] + [allocate];
  }

  /** And writes its document and moves its cursor. */
  lemma WriteAndAdvance(s: State, n: Name, e: Event, q: nat) returns (steps: seq<Step>)
    requires n in s.nodes && s.nodes[n] == FreshNode(e).(phase := PushAllocated([0], {}, q, {0}))
    requires !HasDoc(s.remote, e.id)
    ensures Runs(s, steps)
    ensures After(s, steps) == State(s.counter, s.remote + [Doc(q, e)], s.nodes[n := FreshNode(e).(pushCursor := 1)])
  {
    var write, advance := Step(n, WriteOne(0)), Step(n, AdvancePush);
    assert Enabled(s, write);
    var t := Apply(s, write);
    assert NodeAfter(s, write) == FreshNode(e).(phase := PushAllocated([0], {}, q, {})) by {
      assert {0} - {0} == {};
    }
    assert NodeAfter(t, advance) == FreshNode(e).(pushCursor := 1) by {
      var none: set<nat> := {};
      assert none + none == none;
    }
    assert Apply(t, advance).nodes == s.nodes[n := FreshNode(e).(pushCursor := 1)];
    RunSnoc(s, [], write);
    RunSnoc(s, [] + [write], advance);
    steps := [] + [write] + [advance];
  }

  lemma FindOnly(d: Doc, limit: nat)
    requires d.seqNo > 0
    ensures Find([d], 0, limit) == [d]
  {
    assert DocsAfter([d], 0) == [d] + DocsAfter([], 0);
    assert SortBy([d], BySeq()) == InsertBy(d, SortBy([], BySeq()), BySeq());
  }

  /** `a` has reserved number 1 and not written it; `b` has pushed its event under number 2. */
  ghost function Overtaken(a: Name, b: Name, e: Event, f: Event): State {
    Pair(2, [Doc(2, f)], a, FreshNode(e).(phase := PushAllocated([0], {}, 1, {0})), b, FreshNode(f).(pushCursor := 1))
  }

  lemma PairStarts(a: Name, b: Name, e: Event, f: Event)
    requires a != b && e.id != f.id
    ensures Initial(Pair(0, [], a, FreshNode(e), b, FreshNode(f)))
  {
    var s := Pair(0, [], a, FreshNode(e), b, FreshNode(f));
    assert forall x | Known(s, x) :: x == e || x == f;
  }

  lemma OvertakingRun(a: Name, b: Name, e: Event, f: Event) returns (steps: seq<Step>)
    requires a != b && e.id != f.id
    ensures (var s := Pair(0, [], a, FreshNode(e), b, FreshNode(f));
      Runs(s, steps) && After(s, steps) == Overtaken(a, b, e, f))
  {
    var s := Pair(0, [], a, FreshNode(e), b, FreshNode(f));
    var reserved := FreshNode(e).(phase := PushAllocated([0], {}, 1, {0}));
    var one := ReserveOne(s, a, e);
    assert After(s, one) == Pair(1, [], a, reserved, b, FreshNode(f));
    var two := ReserveOne(After(s, one), b, f);
    RunConcat(s, one, two);
    assert After(s, one + two) == Pair(2, [], a, reserved, b, FreshNode(f).(phase := PushAllocated([0], {}, 2, {0})));
    steps := OvertakingEnd(s, one + two, a, b, e, f);
  }

  lemma OvertakingEnd(s: State, begun: seq<Step>, a: Name, b: Name, e: Event, f: Event) returns (steps: seq<Step>)
    requires a != b && Runs(s, begun)
    requires After(s, begun) == Pair(2, [], a, FreshNode(e).(phase := PushAllocated([0], {}, 1, {0})),
                                     b, FreshNode(f).(phase := PushAllocated([0], {}, 2, {0})))
    ensures Runs(s, steps) && After(s, steps) == Overtaken(a, b, e, f)
  {
    var more := WriteAndAdvance(After(s, begun), b, f, 2);
    assert After(After(s, begun), more) == Overtaken(a, b, e, f);
    RunConcat(s, begun, more);
    steps := begun + more;
  }

  /** There the next fetch of `b` is not quiet, and `a`'s event is new to `b`. */
  lemma OvertakenFetchIsNoisy(a: Name, b: Name, e: Event, f: Event, limit: nat)
    requires a != b && e.id != f.id && e.dedupeKey != f.dedupeKey
    ensures (var t := Overtaken(a, b, e, f);
      && WillWrite(t, a, 1) && EventOf(t, a, 1) == e && Find(t.remote, 0, limit) == [Doc(2, f)]
      && !InStore(ImportAll(t.nodes[b].rows, [Doc(2, f)]), e))
  {
    var t := Overtaken(a, b, e, f);
    FindOnly(Doc(2, f), limit);
    assert Owns(t.nodes[a], 1) && Unwritten(t.nodes[a], 1) && !HasDoc(t.remote, e.id);
    assert [Doc(2, f)][..0] == [];
    assert InStore([Row(f, false)], f) by {
      assert [Row(f, false)][0].event.id == f.id;
    }
  }

  /** A push overtaken by another's push and pull, from the very first sync on: the slower document is lost. */
  lemma OvertakenPushIsLost(a: Name, b: Name, e: Event, f: Event, limit: nat) returns (steps: seq<Step>)
    requires a != b && e.id != f.id && e.dedupeKey != f.dedupeKey
    ensures (var s := Pair(0, [], a, FreshNode(e), b, FreshNode(f));
      Initial(s) && Runs(s, steps) && Lost(After(s, steps), b, Doc(1, e)))
  {
    var s := Pair(0, [], a, FreshNode(e), b, FreshNode(f));
    PairStarts(a, b, e, f);
    steps := OvertakingRun(a, b, e, f);
    InitialInv(s);
    RunKeepsInv(s, steps);
    OvertakenFetchIsNoisy(a, b, e, f, limit);
    var more, d := NoisyFetchLosesADocument(Overtaken(a, b, e, f), b, limit, a, 1);
    RunConcat(s, steps, more);
    steps := steps + more;
  }

  // ---------------------------------------------------------------- convergence

  lemma StepKeepsIds(s: State, step: Step)
    requires Inv(s) && IdsIdentify(s) && Enabled(s, step)
    ensures IdsIdentify(Apply(s, step))
  {
    var s' := Apply(s, step);
    forall e | Known(s', e)
      ensures Known(s, e) || (step.action.Append? && e == step.action.event)
    {
      KnownBefore(s, step, e);
    }
  }

  lemma KnownBefore(s: State, step: Step, e: Event)
    requires Inv(s) && Enabled(s, step) && Known(Apply(s, step), e)
    ensures Known(s, e) || (step.action.Append? && e == step.action.event)
  {
    var s' := Apply(s, step);
    var node := s.nodes[step.who];
    assert NodeOk(s.counter, s.remote, node);
    if i :| 0 <= i < |s'.remote| && s'.remote[i].event == e {
      if i < |s.remote| {
        assert s.remote[i].event == e;
      } else {
        assert node.rows[node.phase.batch[step.action.index]].event == e;
      }
    } else {
      var n, i :| n in s'.nodes && 0 <= i < |s'.nodes[n].rows| && s'.nodes[n].rows[i].event == e;
      RowKnownBefore(s, step, n, i);
    }
  }

  lemma RowKnownBefore(s: State, step: Step, n: Name, i: nat)
    requires Inv(s) && Enabled(s, step)
    requires n in s.nodes && i < |Apply(s, step).nodes[n].rows|
    ensures var e := Apply(s, step).nodes[n].rows[i].event;
            Known(s, e) || (step.action.Append? && e == step.action.event)
  {
    var node := s.nodes[n];
    StepKeepsRows(s, step);
    if i < |node.rows| {
      assert Apply(s, step).nodes[n].rows[i].event == node.rows[i].event;
    } else if step.action.Import? {
      assert NodeOk(s.counter, s.remote, node);
      ImportAllSpec(node.rows, node.phase.fetched);
      var j :| 0 <= j < |node.phase.fetched| && node.phase.fetched[j].event == Apply(s, step).nodes[n].rows[i].event;
      var k :| 0 <= k < |s.remote| && s.remote[k] == node.phase.fetched[j];
    }
  }

  /** Without local appends nothing becomes known that was not. */
  lemma {:induction false} NothingNewIsKnown(s: State, steps: seq<Step>, e: Event)
    requires Inv(s) && Runs(s, steps) && NoAppend(steps) && Known(After(s, steps), e)
    ensures Known(s, e)
    decreases |steps|
  {
    if steps != [] {
      var before := steps[..|steps| - 1];
      LastStep(s, steps);
      RunKeepsInv(s, before);
      KnownBefore(After(s, before), steps[|steps| - 1], e);
      NothingNewIsKnown(s, before, e);
    }
  }

  lemma {:induction false} RunKeepsIds(s: State, steps: seq<Step>)
    requires Inv(s) && IdsIdentify(s) && Runs(s, steps)
    ensures IdsIdentify(After(s, steps))
  {
    if steps != [] {
      var before := steps[..|steps| - 1];
      LastStep(s, steps);
      RunKeepsInv(s, before);
      RunKeepsIds(s, before);
      StepKeepsIds(After(s, before), steps[|steps| - 1]);
    }
  }

  /** The push cursor has passed row `i`, and did not pass over it. */
  ghost predicate Sent(node: Node, i: nat) {
    i < |node.rows| && i < node.pushCursor && i !in node.skipped
  }

  ghost predicate PulledAll(s: State, n: Name) {
    n in s.nodes && forall d | d in s.remote :: d.seqNo <= s.nodes[n].pullCursor
  }

  /** Every sent event of `a`, whatever else `a` skipped, is in a store that has pulled all, by id or by dedupe key. */
  lemma CaughtUpStoresAgree(s: State, steps: seq<Step>, a: Name, b: Name, i: nat)
    requires Initial(s) && Runs(s, steps) && QuietRun(s, steps)
    requires a in After(s, steps).nodes && Sent(After(s, steps).nodes[a], i) && PulledAll(After(s, steps), b)
    ensures InStore(After(s, steps).nodes[b].rows, After(s, steps).nodes[a].rows[i].event)
  {
    var s' := After(s, steps);
    SentIsPublished(s, steps, a, i);
    NoQuietRunMissesADocument(s, steps, b);
    var e := s'.nodes[a].rows[i].event;
    assert e in Published(s');
    var d :| d in s'.remote && d.event == e;
  }

  /** The events of all documents. */
  ghost function Published(s: State): set<Event> {
    set d | d in s.remote :: d.event
  }

  ghost function EventsOf(node: Node): set<Event> {
    set r | r in node.rows :: r.event
  }

  /** One dedupe key means one event. */
  ghost predicate KeysIdentify(s: State) {
    forall e, f | Known(s, e) && Known(s, f) :: e.dedupeKey == f.dedupeKey ==> e == f
  }

  /** A row whose id has a document holds that document's event. */
  lemma RowIsPublished(s: State, steps: seq<Step>, n: Name, i: nat)
    requires Initial(s) && Runs(s, steps)
    requires n in After(s, steps).nodes && i < |After(s, steps).nodes[n].rows|
    requires HasDoc(After(s, steps).remote, After(s, steps).nodes[n].rows[i].event.id)
    ensures After(s, steps).nodes[n].rows[i].event in Published(After(s, steps))
  {
    var s' := After(s, steps);
    InitialInv(s);
    RunKeepsIds(s, steps);
    var e := s'.nodes[n].rows[i].event;
    var k :| 0 <= k < |s'.remote| && s'.remote[k].event.id == e.id;
    assert s'.remote[k] in s'.remote;
    assert Known(s', e) && Known(s', s'.remote[k].event);
  }

  lemma SentIsPublished(s: State, steps: seq<Step>, n: Name, i: nat)
    requires Initial(s) && Runs(s, steps)
    requires n in After(s, steps).nodes && Sent(After(s, steps).nodes[n], i)
    ensures After(s, steps).nodes[n].rows[i].event in Published(After(s, steps))
  {
    var s' := After(s, steps);
    InitialInv(s);
    RunKeepsInv(s, steps);
    assert NodeOk(s'.counter, s'.remote, s'.nodes[n]);
    assert HasDoc(s'.remote, s'.nodes[n].rows[i].event.id);
    RowIsPublished(s, steps, n, i);
  }

  /** Where dedupe keys identify events too, a store that has pulled all holds every published event. */
  lemma PulledAllHoldsPublished(s: State, steps: seq<Step>, n: Name)
    requires Initial(s) && Runs(s, steps) && QuietRun(s, steps)
    requires PulledAll(After(s, steps), n) && KeysIdentify(After(s, steps))
    ensures Published(After(s, steps)) <= EventsOf(After(s, steps).nodes[n])
  {
    var s' := After(s, steps);
    InitialInv(s);
    RunKeepsIds(s, steps);
    NoQuietRunMissesADocument(s, steps, n);
    forall e | e in Published(s')
      ensures e in EventsOf(s'.nodes[n])
    {
      var d :| d in s'.remote && d.event == e;
      var k :| 0 <= k < |s'.remote| && s'.remote[k] == d;
      var rows := s'.nodes[n].rows;
      var j :| 0 <= j < |rows| && (rows[j].event.id == e.id || rows[j].event.dedupeKey == e.dedupeKey);
      assert Known(s', e) && Known(s', rows[j].event);
      assert rows[j] in rows;
    }
  }

  /**
    Two stores that have pulled all hold the same events, apart from events that no document carries;
    an event is of that kind only if it is not sent.
   */
  lemma StoresConverge(s: State, steps: seq<Step>, a: Name, b: Name)
    requires Initial(s) && Runs(s, steps) && QuietRun(s, steps)
    requires PulledAll(After(s, steps), a) && PulledAll(After(s, steps), b) && KeysIdentify(After(s, steps))
    ensures (var s' := After(s, steps);
      && EventsOf(s'.nodes[a]) * Published(s') == EventsOf(s'.nodes[b]) * Published(s') == Published(s')
      && forall i: nat | Sent(s'.nodes[a], i) :: s'.nodes[a].rows[i].event in Published(s'))
  {
    PulledAllHoldsPublished(s, steps, a);
    PulledAllHoldsPublished(s, steps, b);
    forall i: nat | Sent(After(s, steps).nodes[a], i)
      ensures After(s, steps).nodes[a].rows[i].event in Published(After(s, steps))
    {
      SentIsPublished(s, steps, a, i);
    }
  }

  /** So they hold the very same events exactly when they hold the same unpublished ones. */
  lemma StoresAreEqualIff(s: State, steps: seq<Step>, a: Name, b: Name)
    requires Initial(s) && Runs(s, steps) && QuietRun(s, steps)
    requires PulledAll(After(s, steps), a) && PulledAll(After(s, steps), b) && KeysIdentify(After(s, steps))
    ensures (var s' := After(s, steps);
      EventsOf(s'.nodes[a]) == EventsOf(s'.nodes[b])
      <==> EventsOf(s'.nodes[a]) - Published(s') == EventsOf(s'.nodes[b]) - Published(s'))
  {
    StoresConverge(s, steps, a, b);
    var s' := After(s, steps);
    var p, x, y := Published(s'), EventsOf(s'.nodes[a]), EventsOf(s'.nodes[b]);
    assert x == x * p + (x - p) && y == y * p + (y - p);
  }
}
