/**
  The worker's two loops.  Run to their end without interference they take exactly the
  protocol's steps, so every property of the protocol's runs is a property of theirs.
 */
module MongoSyncWorker {
  import opened MongoSync

  /** The local event store, as far as the sync touches it. */
  class EventStore {
    var rows: seq<Row>
    var pushCursor: nat
    var pullCursor: nat

    constructor (rows: seq<Row>)
      ensures this.rows == rows && pushCursor == 0 && pullCursor == 0
    {
      this.rows, pushCursor, pullCursor := rows, 0, 0;
    }
  }

  /** The shared counter and event collection of one project. */
  class SharedDatabase {
    var counter: nat
    var events: seq<Doc>

    constructor ()
      ensures counter == 0 && events == []
    {
      counter, events := 0, [];
    }
  }

  /** How many rows from `from` on are not quarantined. */
  function Sendable(rows: seq<Row>, from: nat): nat
    decreases |rows| - from
  {
    if from >= |rows| then 0 else (if rows[from].quarantined then 0 else 1) + Sendable(rows, from + 1)
  }

  lemma {:induction false} BatchCounts(rows: seq<Row>, from: nat, limit: nat)
    requires limit > 0
    ensures var batch := ReadRows(rows, from, limit);
      && (batch == [] ==> Sendable(rows, from) == 0)
      && (batch != [] ==> batch[|batch| - 1] < |rows|)
      && (batch != [] ==> Sendable(rows, from) == |batch| + Sendable(rows, batch[|batch| - 1] + 1))
      && (|batch| < limit && batch != [] ==> Sendable(rows, batch[|batch| - 1] + 1) == 0)
    decreases |rows| - from
  {
    if from < |rows| {
      if rows[from].quarantined {
        assert ReadRows(rows, from, limit) == ReadRows(rows, from + 1, limit);
        BatchCounts(rows, from + 1, limit);
      } else {
        var rest := ReadRows(rows, from + 1, limit - 1);
        assert ReadRows(rows, from, limit) == [from] + rest;
        if limit > 1 {
          BatchCounts(rows, from + 1, limit - 1);
        }
      }
    }
  }

  /** One instance's node beside the others. */
  ghost function With(counter: nat, remote: seq<Doc>, others: map<Name, Node>, me: Name, node: Node): State {
    State(counter, remote, others[me := node])
  }

  /** A step that touches only this instance's node. */
  lemma OwnStep(counter: nat, remote: seq<Doc>, others: map<Name, Node>, me: Name, node: Node, action: Action)
    requires Enabled(With(counter, remote, others, me, node), Step(me, action))
    ensures var s, step := With(counter, remote, others, me, node), Step(me, action);
      Apply(s, step) == With(Apply(s, step).counter, Apply(s, step).remote, others, me, NodeAfter(s, step))
  {
    var s, step := With(counter, remote, others, me, node), Step(me, action);
    assert s.nodes[me := NodeAfter(s, step)] == others[me := NodeAfter(s, step)];
  }

  lemma Two(s: State, a: Step, b: Step) returns (steps: seq<Step>)
    requires Enabled(s, a) && Enabled(Apply(s, a), b)
    ensures Runs(s, steps) && After(s, steps) == Apply(Apply(s, a), b) && steps == [a, b]
  {
    RunSnoc(s, [], a);
    RunSnoc(s, [] + [a], b);
    steps := [] + [a] + [b];
  }

  /** The row holds the event of some document. */
  ghost predicate CarriedBy(events: seq<Doc>, row: Row) {
    exists d :: d in events && d.event == row.event
  }

  /** The rows from `from` on came from documents, each once and not quarantined. */
  ghost predicate ImportedFrom(events: seq<Doc>, rows: seq<Row>, from: nat) {
    forall k | from <= k < |rows| :: CarriedBy(events, rows[k]) && NewRow(rows, k)
  }

  ghost predicate AllIdle(others: map<Name, Node>) {
    forall m | m in others :: others[m].phase == Idle
  }

  lemma ImportedOn(events: seq<Doc>, rows: seq<Row>, more: seq<Row>, from: nat)
    requires rows <= more && ImportedFrom(events, rows, from) && ImportedFrom(events, more, |rows|)
    ensures ImportedFrom(events, more, from)
  {
    forall k | from <= k < |more|
      ensures CarriedBy(events, more[k]) && NewRow(more, k)
    {
      if k < |rows| {
        assert CarriedBy(events, rows[k]);
        NewRowStays(rows, more, k);
      }
    }
  }

  /** One more pull of a batch behind a run of them. */
  lemma MorePulls(s: State, steps: seq<Step>, more: seq<Step>, quiet: bool) returns (all: seq<Step>)
    requires Runs(s, steps) && NoAppend(steps) && (quiet ==> QuietRun(s, steps))
    requires Runs(After(s, steps), more) && NoAppend(more) && (quiet ==> QuietRun(After(s, steps), more))
    ensures Runs(s, all) && NoAppend(all) && (quiet ==> QuietRun(s, all))
    ensures After(s, all) == After(After(s, steps), more)
  {
    RunConcat(s, steps, more);
    if quiet {
      QuietConcat(s, steps, more);
    }
    all := steps + more;
  }

  lemma ImportsComeFromDocs(events: seq<Doc>, q: nat, limit: nat, rows: seq<Row>)
    ensures ImportedFrom(events, ImportAll(rows, Find(events, q, limit)), |rows|)
  {
    var docs := Find(events, q, limit);
    FindSpec(events, q, limit);
    ImportAllSpec(rows, docs);
    forall k | |rows| <= k < |ImportAll(rows, docs)|
      ensures CarriedBy(events, ImportAll(rows, docs)[k]) && NewRow(ImportAll(rows, docs), k)
    {
      var i :| 0 <= i < |docs| && docs[i].event == ImportAll(rows, docs)[k].event;
      assert docs[i] in events;
    }
  }

  /** The steps of a push: no fetch and no local append. */
  ghost predicate Pushes(steps: seq<Step>) {
    NoFetch(steps) && NoAppend(steps)
  }

  /** Reading a batch and reserving its numbers. */
  lemma ReadAndAllocate(counter: nat, remote: seq<Doc>, others: map<Name, Node>, me: Name, node: Node, limit: nat)
    returns (steps: seq<Step>)
    requires node.phase.Idle? && ReadRows(node.rows, node.pushCursor, limit) != []
    ensures var batch := ReadRows(node.rows, node.pushCursor, limit);
      var s := With(counter, remote, others, me, node);
      Runs(s, steps) && Pushes(steps) && After(s, steps) ==
        With(counter + |batch|, remote, others, me,
             node.(phase := PushAllocated(batch, PassedOver(node.rows, node.pushCursor, batch),
                                          counter + 1, AllIndices(|batch|))))
  {
    var s := With(counter, remote, others, me, node);
    OwnStep(counter, remote, others, me, node, ReadBatch(limit));
    var read := NodeAfter(s, Step(me, ReadBatch(limit)));
    OwnStep(counter, remote, others, me, read, Allocate);
    steps := Two(s, Step(me, ReadBatch(limit)), Step(me, Allocate));
  }

  /** Moving the push cursor past a written batch. */
  lemma Advance(counter: nat, remote: seq<Doc>, others: map<Name, Node>, me: Name, node: Node)
    returns (steps: seq<Step>)
    requires node.phase.PushAllocated? && node.phase.pending == {} && node.phase.batch != []
    ensures var s := With(counter, remote, others, me, node);
      Runs(s, steps) && Pushes(steps) && After(s, steps) ==
        With(counter, remote, others, me,
             node.(pushCursor := node.phase.batch[|node.phase.batch| - 1] + 1, phase := Idle,
                   skipped := node.skipped + node.phase.over))
  {
    OwnStep(counter, remote, others, me, node, AdvancePush);
    RunSnoc(With(counter, remote, others, me, node), [], Step(me, AdvancePush));
    steps := [] + [Step(me, AdvancePush)];
  }

  ghost function IndicesFrom(i: nat, n: nat): (indices: set<nat>)
    ensures forall k :: k in indices <==> i <= k < n
    decreases n - i
  {
    if i >= n then {} else {i} + IndicesFrom(i + 1, n)
  }

  /** One upsert of the bulk write, appended to a run. */
  lemma WriteNext(first: State, steps: seq<Step>, counter: nat, remote: seq<Doc>, others: map<Name, Node>, me: Name,
                  node: Node, i: nat)
    returns (more: seq<Step>)
    requires Runs(first, steps) && Pushes(steps) && After(first, steps) == With(counter, remote, others, me, node)
    requires node.phase.PushAllocated? && i in node.phase.pending && i < |node.phase.batch|
    requires node.phase.batch[i] < |node.rows|
    ensures Runs(first, more) && Pushes(more)
    ensures (var doc := Doc(node.phase.startSeq + i, node.rows[node.phase.batch[i]].event);
      After(first, more) == With(counter, Upsert(remote, doc), others, me,
                                 node.(phase := node.phase.(pending := node.phase.pending - {i}))))
  {
    OwnStep(counter, remote, others, me, node, WriteOne(i));
    RunSnoc(first, steps, Step(me, WriteOne(i)));
    more := steps + [Step(me, WriteOne(i))];
  }

  lemma ThreeRuns(first: State, a: seq<Step>, b: seq<Step>, c: seq<Step>)
    requires Runs(first, a) && Runs(After(first, a), b) && Runs(After(After(first, a), b), c)
    ensures Runs(first, a + b + c) && After(first, a + b + c) == After(After(After(first, a), b), c)
  {
    RunConcat(first, a, b);
    RunConcat(first, a + b, c);
  }

  /** What is newly skipped is quarantined. */
  ghost predicate SkipsQuarantined(rows: seq<Row>, before: set<nat>, after: set<nat>) {
    forall k | k in after && k !in before :: k < |rows| && rows[k].quarantined
  }

  class Worker {
    const me: Name
    const batchSize: nat
    const store: EventStore
    const db: SharedDatabase
    ghost var skipped: set<nat>

    constructor (me: Name, batchSize: nat, store: EventStore, db: SharedDatabase)
      ensures this.me == me && this.batchSize == batchSize && this.store == store && this.db == db
      ensures skipped == {}
    {
      this.me, this.batchSize, this.store, this.db := me, batchSize, store, db;
      skipped := {};
    }

    ghost function NodeNow(): Node
      reads this, store
    {
      Node(store.rows, store.pushCursor, store.pullCursor, Idle, skipped)
    }

    /** The protocol state this worker and the given other instances are in. */
    ghost function View(others: map<Name, Node>, phase: Phase): State
      reads this, store, db
    {
      With(db.counter, db.events, others, me,
           Node(store.rows, store.pushCursor, store.pullCursor, phase, skipped))
    }

    /** `findOneAndUpdate` with `$inc`: one atomic step. */
    method AllocateSeqRange(count: int) returns (startSeq: nat)
      modifies db
      ensures db.counter == old(db.counter) + (if count > 0 then count else 0) && db.events == old(db.events)
      ensures startSeq == if count > 0 then old(db.counter) + 1 else 1
    {
      if count <= 0 {
        return 1;
      }
      db.counter := db.counter + count;
      startSeq := db.counter - count + 1;
    }

    /** The unordered bulk write, one upsert at a time. */
    method BulkWrite(batch: seq<nat>, startSeq: nat, ghost over: set<nat>, ghost others: map<Name, Node>)
      returns (ghost steps: seq<Step>)
      requires db != store as object
      requires forall i | 0 <= i < |batch| :: batch[i] < |store.rows|
      modifies db
      ensures db.counter == old(db.counter) && Pushes(steps)
      ensures Runs(old(View(others, PushAllocated(batch, over, startSeq, AllIndices(|batch|)))), steps)
      ensures After(old(View(others, PushAllocated(batch, over, startSeq, AllIndices(|batch|)))), steps)
           == View(others, PushAllocated(batch, over, startSeq, {}))
    {
      steps := [];
      ghost var first := View(others, PushAllocated(batch, over, startSeq, AllIndices(|batch|)));
      assert AllIndices(|batch|) == IndicesFrom(0, |batch|);
      for i := 0 to |batch|
        invariant db.counter == old(db.counter)
        invariant Runs(first, steps) && Pushes(steps)
        invariant After(first, steps) == View(others, PushAllocated(batch, over, startSeq, IndicesFrom(i, |batch|)))
      {
        steps := WriteNext(first, steps, db.counter, db.events, others, me,
          Node(store.rows, store.pushCursor, store.pullCursor,
               PushAllocated(batch, over, startSeq, IndicesFrom(i, |batch|)), skipped), i);
        assert IndicesFrom(i, |batch|) - {i} == IndicesFrom(i + 1, |batch|);
        db.events := Upsert(db.events, Doc(startSeq + i, store.rows[batch[i]].event));
      }
      assert IndicesFrom(|batch|, |batch|) == {};
    }

    /** One turn of the push loop: allocate, write, advance. */
    method PushBatch(batch: seq<nat>, ghost others: map<Name, Node>) returns (ghost steps: seq<Step>)
      requires db != store as object
      requires batch != [] && batch == ReadRows(store.rows, store.pushCursor, batchSize)
      modifies db, store, this
      ensures store.rows == old(store.rows) && store.pullCursor == old(store.pullCursor)
      ensures store.pushCursor == batch[|batch| - 1] + 1 && Pushes(steps)
      ensures skipped == old(skipped) + PassedOver(store.rows, old(store.pushCursor), batch)
      ensures Runs(old(View(others, Idle)), steps) && After(old(View(others, Idle)), steps) == View(others, Idle)
    {
      ghost var first := View(others, Idle);
      ReadRowsInOrder(store.rows, store.pushCursor, batchSize);
      steps := ReadAndAllocate(db.counter, db.events, others, me,
        Node(store.rows, store.pushCursor, store.pullCursor, Idle, skipped), batchSize);
      ghost var over := PassedOver(store.rows, store.pushCursor, batch);
      var startSeq := AllocateSeqRange(|batch|);
      ghost var reserved := View(others, PushAllocated(batch, over, startSeq, AllIndices(|batch|)));
      assert After(first, steps) == reserved;

      ghost var writes := BulkWrite(batch, startSeq, over, others);
      ghost var written := View(others, PushAllocated(batch, over, startSeq, {}));
      assert Runs(reserved, writes) && After(reserved, writes) == written;

      ghost var last := Advance(db.counter, db.events, others, me,
        Node(store.rows, store.pushCursor, store.pullCursor, PushAllocated(batch, over, startSeq, {}), skipped));
      store.pushCursor := batch[|batch| - 1] + 1;
      skipped := skipped + over;
      assert Runs(written, last) && After(written, last) == View(others, Idle);
      ThreeRuns(first, steps, writes, last);
      steps := steps + writes + last;
    }

    /** Pushes every row that can be pushed, and stops. */
    method PushEvents(ghost others: map<Name, Node>) returns (pushed: nat, ghost steps: seq<Step>)
      requires db != store as object
      modifies db, store, this
      ensures store.rows == old(store.rows) && store.pullCursor == old(store.pullCursor)
      ensures Runs(old(View(others, Idle)), steps) && After(old(View(others, Idle)), steps) == View(others, Idle)
      ensures batchSize > 0 ==> pushed == Sendable(store.rows, old(store.pushCursor))
      ensures batchSize > 0 ==> Sendable(store.rows, store.pushCursor) == 0
      ensures Pushes(steps) && SkipsQuarantined(store.rows, old(skipped), skipped)
    {
      ghost var first := View(others, Idle);
      steps := [];
      pushed := 0;
      while true
        invariant store.rows == old(store.rows) && store.pullCursor == old(store.pullCursor)
        invariant Runs(first, steps) && After(first, steps) == View(others, Idle) && Pushes(steps)
        invariant SkipsQuarantined(store.rows, old(skipped), skipped)
        invariant batchSize > 0 ==>
          pushed + Sendable(store.rows, store.pushCursor) == Sendable(store.rows, old(store.pushCursor))
        decreases |store.rows| - store.pushCursor
      {
        var batch := ReadRows(store.rows, store.pushCursor, batchSize);
        ReadRowsInOrder(store.rows, store.pushCursor, batchSize);
        if batchSize > 0 {
          BatchCounts(store.rows, store.pushCursor, batchSize);
        }
        if |batch| == 0 {
          break;
        }
        ghost var more := PushBatch(batch, others);
        RunConcat(first, steps, more);
        steps := steps + more;
        pushed := pushed + |batch|;
        if |batch| < batchSize {
          break;
        }
      }
    }

    /** One turn of the pull loop: import what was fetched, advance. */
    method PullBatch(docs: seq<Doc>, ghost others: map<Name, Node>) returns (inserted: nat, ghost steps: seq<Step>)
      requires db != store as object
      requires docs != [] && docs == Find(db.events, store.pullCursor, batchSize)
      modifies store
      ensures store.rows == ImportAll(old(store.rows), docs) && store.pushCursor == old(store.pushCursor)
      ensures store.pullCursor == LastSeq(docs) && inserted == |store.rows| - |old(store.rows)|
      ensures old(store.rows) <= store.rows && ImportedFrom(db.events, store.rows, |old(store.rows)|)
      ensures Runs(old(View(others, Idle)), steps) && After(old(View(others, Idle)), steps) == View(others, Idle)
      ensures NoAppend(steps) && (AllIdle(others) ==> QuietRun(old(View(others, Idle)), steps))
    {
      ghost var first := View(others, Idle);
      steps := PullOnce(first, me, batchSize);
      var node := first.nodes[me].(rows := ImportAll(store.rows, docs), pullCursor := LastSeq(docs), phase := Idle);
      assert first.nodes[me := node] == others[me := node];
      ImportAllSpec(store.rows, docs);
      ImportsComeFromDocs(db.events, store.pullCursor, batchSize, store.rows);
      inserted := |ImportAll(store.rows, docs)| - |store.rows|;
      store.rows := ImportAll(store.rows, docs);
      store.pullCursor := docs[|docs| - 1].seqNo;
    }

    /** Pulls every document newer than the cursor, and stops. */
    method PullEvents(ghost others: map<Name, Node>) returns (pulled: nat, ghost steps: seq<Step>)
      requires db != store as object
      modifies store
      ensures old(store.rows) <= store.rows && pulled == |store.rows| - |old(store.rows)|
      ensures store.pushCursor == old(store.pushCursor)
      ensures Runs(old(View(others, Idle)), steps) && After(old(View(others, Idle)), steps) == View(others, Idle)
      ensures forall d | d in db.events :: d.seqNo <= store.pullCursor
      ensures ImportedFrom(db.events, store.rows, |old(store.rows)|)
      ensures NoAppend(steps) && (AllIdle(others) ==> QuietRun(old(View(others, Idle)), steps))
    {
      ghost var first := View(others, Idle);
      steps := [];
      pulled := 0;
      while true
        invariant old(store.rows) <= store.rows && pulled == |store.rows| - |old(store.rows)|
        invariant store.pushCursor == old(store.pushCursor)
        invariant ImportedFrom(db.events, store.rows, |old(store.rows)|)
        invariant Runs(first, steps) && After(first, steps) == View(others, Idle)
        invariant NoAppend(steps) && (AllIdle(others) ==> QuietRun(first, steps))
        decreases |DocsAfter(db.events, store.pullCursor)|
      {
        var docs := Find(db.events, store.pullCursor, batchSize);
        FindSpec(db.events, store.pullCursor, batchSize);
        if |docs| == 0 {
          break;
        }
        ghost var before, q := store.rows, store.pullCursor;
        var inserted, more := PullBatch(docs, others);
        steps := MorePulls(first, steps, more, AllIdle(others));
        ImportedOn(db.events, before, store.rows, |old(store.rows)|);
        pulled := pulled + inserted;
        FewerDocsAfter(db.events, q, docs[|docs| - 1]);
        if |docs| < batchSize {
          break;
        }
      }
    }
  }

  lemma {:induction false} FewerDocsAfter(events: seq<Doc>, q: nat, d: Doc)
    requires d in events && q < d.seqNo
    ensures |DocsAfter(events, d.seqNo)| < |DocsAfter(events, q)|
  {
    if d == events[0] {
      FewerOrSame(events[1..], q, d.seqNo);
    } else {
      FewerDocsAfter(events[1..], q, d);
    }
  }

  lemma {:induction false} FewerOrSame(events: seq<Doc>, q: nat, q': nat)
    requires q <= q'
    ensures |DocsAfter(events, q')| <= |DocsAfter(events, q)|
  {
    if events != [] {
      FewerOrSame(events[1..], q, q');
    }
  }

  // ---------------------------------------------------------------- any number of instances

  /** Instances of one project, by their names, each with its own store. */
  ghost predicate Fleet(ws: map<Name, Worker>, db: SharedDatabase) {
    && (forall n | n in ws :: ws[n].me == n && ws[n].db == db && ws[n].batchSize > 0 && db != ws[n].store as object)
    && (forall n, m | n in ws && m in ws && n != m :: ws[n].store != ws[m].store)
  }

  ghost function Stores(ws: map<Name, Worker>): set<EventStore> {
    set n | n in ws :: ws[n].store
  }

  ghost function NodesOf(ws: map<Name, Worker>): map<Name, Node>
    reads ws.Values, Stores(ws)
  {
    map n | n in ws :: ws[n].NodeNow()
  }

  /** All instances, idle. */
  ghost function Joint(ws: map<Name, Worker>, db: SharedDatabase): State
    reads ws.Values, Stores(ws), db
  {
    State(db.counter, db.events, NodesOf(ws))
  }

  /** What a push of instance `n` has done between two states: nothing that could be sent is left. */
  ghost predicate HasPushed(t: State, t': State, n: Name) {
    && n in t.nodes && n in t'.nodes && t'.nodes[n].rows == t.nodes[n].rows
    && Sendable(t'.nodes[n].rows, t'.nodes[n].pushCursor) == 0
    && SkipsQuarantined(t.nodes[n].rows, t.nodes[n].skipped, t'.nodes[n].skipped)
  }

  /** What one instance sees of the whole. */
  lemma ViewIsJoint(ws: map<Name, Worker>, db: SharedDatabase, n: Name, others: map<Name, Node>)
    requires Fleet(ws, db) && n in ws && others.Keys == ws.Keys - {n}
    requires forall m | m in others :: others[m] == ws[m].NodeNow()
    ensures ws[n].View(others, Idle) == Joint(ws, db)
    ensures AllIdle(others)
  {
    assert others[n := ws[n].NodeNow()] == NodesOf(ws);
  }

  /** Instance `n` alone may have changed. */
  ghost predicate OthersSame(t: State, t': State, n: Name) {
    t'.nodes.Keys == t.nodes.Keys && forall m | m in t.nodes && m != n :: t'.nodes[m] == t.nodes[m]
  }

  /** One instance pushes beside the others. */
  method PushBeside(ws: map<Name, Worker>, db: SharedDatabase, n: Name) returns (ghost steps: seq<Step>)
    requires Fleet(ws, db) && n in ws
    modifies ws[n], ws[n].store, db
    ensures Runs(old(Joint(ws, db)), steps) && After(old(Joint(ws, db)), steps) == Joint(ws, db) && Pushes(steps)
    ensures HasPushed(old(Joint(ws, db)), Joint(ws, db), n) && OthersSame(old(Joint(ws, db)), Joint(ws, db), n)
  {
    ghost var others := NodesOf(ws) - {n};
    ViewIsJoint(ws, db, n, others);
    var pushed;
    pushed, steps := ws[n].PushEvents(others);
    ViewIsJoint(ws, db, n, others);
  }

  /** One instance pulls beside the others. */
  method PullBeside(ws: map<Name, Worker>, db: SharedDatabase, n: Name) returns (ghost steps: seq<Step>)
    requires Fleet(ws, db) && n in ws
    modifies ws[n].store
    ensures Runs(old(Joint(ws, db)), steps) && After(old(Joint(ws, db)), steps) == Joint(ws, db)
    ensures NoAppend(steps) && QuietRun(old(Joint(ws, db)), steps)
    ensures HasPulled(old(Joint(ws, db)), Joint(ws, db), n) && OthersSame(old(Joint(ws, db)), Joint(ws, db), n)
  {
    ghost var others := NodesOf(ws) - {n};
    ViewIsJoint(ws, db, n, others);
    var pulled;
    pulled, steps := ws[n].PullEvents(others);
    ViewIsJoint(ws, db, n, others);
  }

  lemma MorePushes(s: State, steps: seq<Step>, more: seq<Step>) returns (all: seq<Step>)
    requires Runs(s, steps) && Pushes(steps) && Runs(After(s, steps), more) && Pushes(more)
    ensures Runs(s, all) && Pushes(all) && After(s, all) == After(After(s, steps), more)
  {
    RunConcat(s, steps, more);
    all := steps + more;
  }

  lemma QuietAppend(s: State, steps: seq<Step>, more: seq<Step>) returns (all: seq<Step>)
    requires Runs(s, steps) && QuietRun(s, steps) && NoAppend(steps)
    requires Runs(After(s, steps), more) && QuietRun(After(s, steps), more) && NoAppend(more)
    ensures Runs(s, all) && QuietRun(s, all) && NoAppend(all) && After(s, all) == After(After(s, steps), more)
  {
    QuietConcat(s, steps, more);
    RunConcat(s, steps, more);
    all := steps + more;
  }

  /** Of the instances, those in `done` have pushed since `first`, and the others are as they were. */
  ghost predicate PushedSoFar(first: State, t: State, done: set<Name>) {
    && t.nodes.Keys == first.nodes.Keys
    && (forall m | m in done :: HasPushed(first, t, m))
    && (forall m | m in first.nodes && m !in done :: t.nodes[m] == first.nodes[m])
  }

  lemma OneMorePushed(first: State, t: State, t': State, done: set<Name>, n: Name)
    requires PushedSoFar(first, t, done) && n in first.nodes && n !in done
    requires OthersSame(t, t', n) && HasPushed(t, t', n)
    ensures PushedSoFar(first, t', done + {n})
  {
    forall m | m in done + {n}
      ensures HasPushed(first, t', m)
    {
      if m != n {
        assert HasPushed(first, t, m);
      }
    }
  }

  /** Each pushes, in whatever order. */
  method PushAll(ws: map<Name, Worker>, db: SharedDatabase) returns (ghost steps: seq<Step>)
    requires Fleet(ws, db)
    modifies ws.Values, Stores(ws), db
    ensures Runs(old(Joint(ws, db)), steps) && After(old(Joint(ws, db)), steps) == Joint(ws, db) && Pushes(steps)
    ensures PushedSoFar(old(Joint(ws, db)), Joint(ws, db), ws.Keys)
  {
    ghost var first, now := Joint(ws, db), Joint(ws, db);
    steps := [];
    var left, done := ws.Keys, {};
    while left != {}
      invariant left + done == ws.Keys && left !! done && now == Joint(ws, db)
      invariant Runs(first, steps) && After(first, steps) == now && Pushes(steps)
      invariant PushedSoFar(first, now, done)
    {
      var n :| n in left;
      ghost var more := PushBeside(ws, db, n);
      steps := MorePushes(first, steps, more);
      OneMorePushed(first, now, Joint(ws, db), done, n);
      now := Joint(ws, db);
      left, done := left - {n}, done + {n};
    }
  }

  /** What a pull of instance `n` has done between two states. */
  ghost predicate HasPulled(t: State, t': State, n: Name) {
    && n in t.nodes && PulledAll(t', n) && t'.remote == t.remote
    && t.nodes[n].rows <= t'.nodes[n].rows && t'.nodes[n].pushCursor == t.nodes[n].pushCursor
    && t'.nodes[n].skipped == t.nodes[n].skipped
    && ImportedFrom(t'.remote, t'.nodes[n].rows, |t.nodes[n].rows|)
  }

  /** Of the instances, those in `done` have pulled since `first`, and the others are as they were. */
  ghost predicate PulledSoFar(first: State, t: State, done: set<Name>) {
    && t.remote == first.remote && t.nodes.Keys == first.nodes.Keys
    && (forall m | m in done :: HasPulled(first, t, m))
    && (forall m | m in first.nodes && m !in done :: t.nodes[m] == first.nodes[m])
  }

  lemma OneMorePulled(first: State, t: State, t': State, done: set<Name>, n: Name)
    requires PulledSoFar(first, t, done) && n in first.nodes && n !in done
    requires OthersSame(t, t', n) && HasPulled(t, t', n)
    ensures PulledSoFar(first, t', done + {n})
  {
    forall m | m in done + {n}
      ensures HasPulled(first, t', m)
    {
      if m != n {
        assert HasPulled(first, t, m);
      }
    }
  }

  /** Each pulls, in whatever order. */
  method PullAll(ws: map<Name, Worker>, db: SharedDatabase) returns (ghost steps: seq<Step>)
    requires Fleet(ws, db)
    modifies Stores(ws)
    ensures Runs(old(Joint(ws, db)), steps) && After(old(Joint(ws, db)), steps) == Joint(ws, db)
    ensures NoAppend(steps) && QuietRun(old(Joint(ws, db)), steps)
    ensures PulledSoFar(old(Joint(ws, db)), Joint(ws, db), ws.Keys)
  {
    ghost var first, now := Joint(ws, db), Joint(ws, db);
    steps := [];
    var left, done := ws.Keys, {};
    while left != {}
      invariant left + done == ws.Keys && left !! done && now == Joint(ws, db)
      invariant Runs(first, steps) && After(first, steps) == now
      invariant NoAppend(steps) && QuietRun(first, steps)
      invariant PulledSoFar(first, now, done)
    {
      var n :| n in left;
      ghost var more := PullBeside(ws, db, n);
      steps := QuietAppend(first, steps, more);
      OneMorePulled(first, now, Joint(ws, db), done, n);
      now := Joint(ws, db);
      left, done := left - {n}, done + {n};
    }
  }

  lemma {:induction false} NoneSendable(rows: seq<Row>, from: nat)
    requires Sendable(rows, from) == 0
    ensures forall k | from <= k < |rows| :: rows[k].quarantined
    decreases |rows| - from
  {
    if from < |rows| {
      NoneSendable(rows, from + 1);
    }
  }

  /** A row that is not held back: it is not quarantined, and no batch passed over it. */
  ghost predicate Offered(node: Node, i: nat) {
    i < |node.rows| && i !in node.skipped && (i < node.pushCursor || !node.rows[i].quarantined)
  }

  /** After a push every row that is not held back has its document. */
  lemma OfferedIsPublished(s: State, steps: seq<Step>, n: Name, i: nat)
    requires Initial(s) && Runs(s, steps) && n in After(s, steps).nodes && Offered(After(s, steps).nodes[n], i)
    requires (var node := After(s, steps).nodes[n]; Sendable(node.rows, node.pushCursor) == 0)
    ensures After(s, steps).nodes[n].rows[i].event in Published(After(s, steps))
  {
    var node := After(s, steps).nodes[n];
    NoneSendable(node.rows, node.pushCursor);
    SentIsPublished(s, steps, n, i);
  }

  /** All documents of a run without local appends carry events that were known before. */
  lemma PublishedWasKnown(s: State, steps: seq<Step>)
    requires Inv(s) && Runs(s, steps) && NoAppend(steps)
    ensures forall e | e in Published(After(s, steps)) :: Known(s, e)
  {
    var t := After(s, steps);
    forall e | e in Published(t)
      ensures Known(s, e)
    {
      var d :| d in t.remote && d.event == e;
      var i: nat :| i < |t.remote| && t.remote[i] == d;
      assert Known(t, e);
      NothingNewIsKnown(s, steps, e);
    }
  }

  /** The events of the rows that are held back. */
  ghost function HeldBack(node: Node): set<Event> {
    set i | 0 <= i < |node.rows| && !Offered(node, i) :: node.rows[i].event
  }

  /** Every row that is not held back has its document. */
  ghost predicate OffersPublished(t: State, n: Name)
    requires n in t.nodes
  {
    forall i: nat | Offered(t.nodes[n], i) :: t.nodes[n].rows[i].event in Published(t)
  }

  /** A store that has pulled all, and whose rows have documents, holds the published events and what it holds back. */
  lemma HoldsPublishedAndHeldBack(s: State, steps: seq<Step>, n: Name)
    requires Initial(s) && Runs(s, steps) && QuietRun(s, steps)
    requires PulledAll(After(s, steps), n) && KeysIdentify(After(s, steps)) && OffersPublished(After(s, steps), n)
    ensures (var t := After(s, steps); EventsOf(t.nodes[n]) == Published(t) + HeldBack(t.nodes[n]))
  {
    var t := After(s, steps);
    PulledAllHoldsPublished(s, steps, n);
    HeldBackIsHeld(t.nodes[n]);
    forall e | e in EventsOf(t.nodes[n])
      ensures e in Published(t) + HeldBack(t.nodes[n])
    {
      var r :| r in t.nodes[n].rows && r.event == e;
      var i: nat :| i < |t.nodes[n].rows| && t.nodes[n].rows[i] == r;
      assert Offered(t.nodes[n], i) || e in HeldBack(t.nodes[n]);
    }
  }

  lemma HeldBackIsHeld(node: Node)
    ensures HeldBack(node) <= EventsOf(node)
  {
    forall e | e in HeldBack(node)
      ensures e in EventsOf(node)
    {
      var i :| 0 <= i < |node.rows| && !Offered(node, i) && node.rows[i].event == e;
      assert node.rows[i] in node.rows;
    }
  }

  lemma KeysStayIdentifying(s: State, steps: seq<Step>)
    requires Inv(s) && Runs(s, steps) && NoAppend(steps) && KeysIdentify(s)
    ensures KeysIdentify(After(s, steps))
  {
    forall e | Known(After(s, steps), e)
      ensures Known(s, e)
    {
      NothingNewIsKnown(s, steps, e);
    }
  }

  /** What a push leaves published stays so, and what is pulled is published. */
  lemma PulledOffers(s: State, steps: seq<Step>, more: seq<Step>, n: Name)
    requires Initial(s) && Runs(s, steps) && Runs(After(s, steps), more)
    requires n in After(s, steps).nodes
    requires Sendable(After(s, steps).nodes[n].rows, After(s, steps).nodes[n].pushCursor) == 0
    requires HasPulled(After(s, steps), After(After(s, steps), more), n)
    ensures OffersPublished(After(After(s, steps), more), n)
  {
    var t, t' := After(s, steps), After(After(s, steps), more);
    forall i: nat | Offered(t'.nodes[n], i)
      ensures t'.nodes[n].rows[i].event in Published(t')
    {
      if i < |t.nodes[n].rows| {
        assert t.nodes[n].rows[i] == t'.nodes[n].rows[i];
        OfferedIsPublished(s, steps, n, i);
      } else {
        assert CarriedBy(t'.remote, t'.nodes[n].rows[i]);
      }
    }
  }

  /** What an instance holds back after pushing and pulling was quarantined or skipped before, in its own store. */
  ghost predicate HoldsBackOnly(before: Node, after: Node) {
    && before.rows <= after.rows
    && forall i: nat | i < |after.rows| && !Offered(after, i) ::
         i < |before.rows| && (before.rows[i].quarantined || i in before.skipped)
  }

  lemma HeldBackBefore(t: State, pushed: State, t': State, n: Name)
    requires HasPushed(t, pushed, n) && HasPulled(pushed, t', n) && Inv(pushed)
    ensures HoldsBackOnly(t.nodes[n], t'.nodes[n])
  {
    var before, middle, after := t.nodes[n], pushed.nodes[n], t'.nodes[n];
    assert NodeOk(pushed.counter, pushed.remote, middle);
    assert forall i: nat | |before.rows| <= i < |after.rows| :: NewRow(after.rows, i);
    forall i: nat | i < |after.rows| && !Offered(after, i)
      ensures i < |before.rows| && (before.rows[i].quarantined || i in before.skipped)
    {
      if i < |before.rows| {
        assert after.rows[i] == before.rows[i];
      }
    }
  }

  /** What an instance holds once all have pushed and then pulled. */
  ghost predicate Synced(before: State, t: State, n: Name) {
    && PulledAll(t, n) && OffersPublished(t, n)
    && n in before.nodes && HoldsBackOnly(before.nodes[n], t.nodes[n])
    && (KeysIdentify(t) ==> EventsOf(t.nodes[n]) == Published(t) + HeldBack(t.nodes[n]))
  }

  lemma PushedAndPulled(s: State, start: State, pushed: seq<Step>, pulls: seq<Step>, n: Name)
    requires Initial(s) && Runs(s, pushed) && Runs(After(s, pushed), pulls)
    requires Runs(s, pushed + pulls) && QuietRun(s, pushed + pulls)
    requires After(s, pushed + pulls) == After(After(s, pushed), pulls)
    requires HasPushed(start, After(s, pushed), n)
    requires HasPulled(After(s, pushed), After(After(s, pushed), pulls), n)
    ensures Synced(start, After(s, pushed + pulls), n)
  {
    InitialInv(s);
    RunKeepsInv(s, pushed);
    HeldBackBefore(start, After(s, pushed), After(After(s, pushed), pulls), n);
    PulledOffers(s, pushed, pulls, n);
    if KeysIdentify(After(s, pushed + pulls)) {
      HoldsPublishedAndHeldBack(s, pushed + pulls, n);
    }
  }

  /**
    After whatever quiet history, crashes and earlier syncs included, all instances push and then all
    pull: each has pulled all, and holds the published events and those of its rows that are held back,
    which were quarantined in its own store before.
   */
  method SyncAll(ws: map<Name, Worker>, db: SharedDatabase, ghost s: State, ghost history: seq<Step>)
    returns (ghost steps: seq<Step>)
    requires Fleet(ws, db)
    requires Initial(s) && Runs(s, history) && QuietRun(s, history) && After(s, history) == Joint(ws, db)
    modifies ws.Values, Stores(ws), db
    ensures Runs(s, steps) && QuietRun(s, steps) && After(s, steps) == Joint(ws, db)
    ensures forall n | n in ws :: Synced(old(Joint(ws, db)), Joint(ws, db), n)
    ensures forall e | e in Published(Joint(ws, db)) :: old(Known(Joint(ws, db), e))
    ensures old(KeysIdentify(Joint(ws, db))) ==> KeysIdentify(Joint(ws, db))
  {
    ghost var start := Joint(ws, db);
    ghost var pushes := PushAll(ws, db);
    NoFetchIsQuiet(start, pushes);
    ghost var pulls := PullAll(ws, db);
    JoinSync(s, history, pushes, pulls);
    steps := history + pushes + pulls;
    forall n | n in ws
      ensures Synced(start, Joint(ws, db), n)
    {
      PushedAndPulled(s, start, history + pushes, pulls, n);
    }
  }

  /** The history, the pushes and the pulls in one run. */
  lemma JoinSync(s: State, history: seq<Step>, pushes: seq<Step>, pulls: seq<Step>)
    requires Initial(s) && Runs(s, history) && QuietRun(s, history)
    requires Runs(After(s, history), pushes) && QuietRun(After(s, history), pushes) && NoAppend(pushes)
    requires (var pushed := After(After(s, history), pushes);
      Runs(pushed, pulls) && QuietRun(pushed, pulls) && NoAppend(pulls))
    ensures Runs(s, history + pushes) && After(s, history + pushes) == After(After(s, history), pushes)
    ensures (var steps := history + pushes + pulls;
      && Runs(s, steps) && QuietRun(s, steps)
      && After(s, steps) == After(After(After(s, history), pushes), pulls)
      && (forall e | e in Published(After(s, steps)) :: Known(After(s, history), e))
      && (KeysIdentify(After(s, history)) ==> KeysIdentify(After(s, steps))))
  {
    QuietConcat(s, history, pushes);
    RunConcat(s, history, pushes);
    QuietConcat(s, history + pushes, pulls);
    RunConcat(s, history + pushes, pulls);
    InitialInv(s);
    RunKeepsInv(s, history);
    var both := QuietAppend(After(s, history), pushes, pulls);
    PublishedWasKnown(After(s, history), both);
    if KeysIdentify(After(s, history)) {
      KeysStayIdentifying(After(s, history), both);
    }
  }
}
