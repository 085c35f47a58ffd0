/** A job table that workers claim from, report to and recover. */
module VectorOutbox {
  import opened Common
  import opened Sorting

  // Each SQL statement is atomic and becomes a function on the table; the class runs them.
  // Beside every row stand counters of what happened to it, which the source does not keep.

  datatype Status = Pending | Processing | Done | Failed

  datatype Key = Key(itemKind: string, itemId: string, embeddingVersion: string)

  datatype Job = Job(jobId: string, key: Key, status: Status, retryCount: nat, createdAt: int, updatedAt: int)

  /** What happened to a job so far, and the claim that now holds it. */
  datatype History = History(claims: nat, conflicts: nat, recoveries: nat, holder: Holder)

  datatype Holder = Nobody | HeldBy(token: nat)

  datatype Entry = Entry(job: Job, history: History)

  type Table = seq<Entry>

  datatype Config = Config(maxRetries: nat, stuckThreshold: int, cleanupAge: int)

  // ---------------------------------------------------------------- the statements

  predicate HasKey(t: Table, key: Key) {
    exists i :: 0 <= i < |t| && t[i].job.key == key
  }

  predicate HasJob(t: Table, jobId: string) {
    exists i :: 0 <= i < |t| && t[i].job.jobId == jobId
  }

  function IndexOfKey(t: Table, key: Key): (i: nat)
    requires HasKey(t, key)
    ensures i < |t| && t[i].job.key == key
  {
    if t[0].job.key == key then 0
    else
      assert HasKey(t[1..], key) by {
        var j :| 0 <= j < |t| && t[j].job.key == key;
        assert t[1..][j - 1] == t[j];
      }
      1 + IndexOfKey(t[1..], key)
  }

  datatype EnqueueResult = Enqueued(jobId: string, isNew: bool) | EnqueueFailed

  /** An insert that does nothing when the key is taken; a clash of primary keys is an error. */
  function Insert(t: Table, jobId: string, key: Key, now: int): Table {
    if HasKey(t, key) || HasJob(t, jobId) then t
    else t + [Entry(Job(jobId, key, Pending, 0, now, now), History(0, 0, 0, Nobody))]
  }

  function EnqueueOutcome(t: Table, jobId: string, key: Key): EnqueueResult {
    if HasKey(t, key) then Enqueued(t[IndexOfKey(t, key)].job.jobId, false)
    else if HasJob(t, jobId) then EnqueueFailed
    else Enqueued(jobId, true)
  }

  function PendingRows(t: Table, from: nat): seq<nat>
    requires from <= |t|
    decreases |t| - from
  {
    if from == |t| then []
    else (if t[from].job.status == Pending then [from] else []) + PendingRows(t, from + 1)
  }

  function CreatedAt(t: Table, i: nat): int {
    if i < |t| then t[i].job.createdAt else 0
  }

  function OlderFirst(t: Table): (nat, nat) -> bool {
    (i: nat, j: nat) => CreatedAt(t, i) <= CreatedAt(t, j)
  }

  /** The pending rows, oldest first, at most `limit` of them. */
  function Oldest(t: Table, limit: nat): seq<nat> {
    var sorted := SortBy(PendingRows(t, 0), OlderFirst(t));
    if |sorted| <= limit then sorted else sorted[..limit]
  }

  function ClaimEntry(e: Entry, token: nat, now: int): Entry {
    Entry(e.job.(status := Processing, updatedAt := now),
          e.history.(claims := e.history.claims + 1, holder := HeldBy(token)))
  }

  function Claim(t: Table, limit: nat, token: nat, now: int): Table {
    seq(|t|, i requires 0 <= i < |t| => if i in Oldest(t, limit) then ClaimEntry(t[i], token, now) else t[i])
  }

  function DoneEntry(e: Entry, now: int): Entry {
    Entry(e.job.(status := Done, updatedAt := now), e.history.(holder := Nobody))
  }

  /** The update of a failure report, by the retry count that was read for it. */
  function UpdateEntry(e: Entry, conflict: bool, read: nat, maxRetries: nat, now: int): Entry {
    if conflict then
      Entry(e.job.(status := Pending, updatedAt := now),
            e.history.(conflicts := e.history.conflicts + 1, holder := Nobody))
    else
      Entry(e.job.(status := if read >= maxRetries - 1 then Failed else Pending,
                   retryCount := e.job.retryCount + 1, updatedAt := now),
            e.history.(holder := Nobody))
  }

  /** Reading and updating in one. */
  function FailEntry(e: Entry, conflict: bool, maxRetries: nat, now: int): Entry {
    UpdateEntry(e, conflict, e.job.retryCount, maxRetries, now)
  }

  function ReadRetryCount(t: Table, jobId: string): Option<nat> {
    if t == [] then None
    else if t[0].job.jobId == jobId then Some(t[0].job.retryCount)
    else ReadRetryCount(t[1..], jobId)
  }

  function AfterUpdate(t: Table, jobId: string, conflict: bool, read: nat, maxRetries: nat, now: int): Table {
    seq(|t|, i requires 0 <= i < |t| =>
      if t[i].job.jobId == jobId then UpdateEntry(t[i], conflict, read, maxRetries, now) else t[i])
  }

  function AfterDone(t: Table, jobId: string, now: int): Table {
    seq(|t|, i requires 0 <= i < |t| => if t[i].job.jobId == jobId then DoneEntry(t[i], now) else t[i])
  }

  function AfterFailure(t: Table, jobId: string, conflict: bool, maxRetries: nat, now: int): Table {
    seq(|t|, i requires 0 <= i < |t| =>
      if t[i].job.jobId == jobId then FailEntry(t[i], conflict, maxRetries, now) else t[i])
  }

  function RecoverEntry(e: Entry, threshold: int, now: int): Entry {
    if e.job.status == Processing && e.job.updatedAt < threshold then
      Entry(e.job.(status := Pending, updatedAt := now),
            e.history.(recoveries := e.history.recoveries + 1, holder := Nobody))
    else e
  }

  function RetryEntry(e: Entry, maxRetries: nat, now: int): Entry {
    if e.job.status == Failed && e.job.retryCount < maxRetries then
      e.(job := e.job.(status := Pending, updatedAt := now))
    else e
  }

  function AfterReconcile(t: Table, config: Config, now: int): Table {
    seq(|t|, i requires 0 <= i < |t| =>
      RetryEntry(RecoverEntry(t[i], now - config.stuckThreshold, now), config.maxRetries, now))
  }

  function AfterCleanup(t: Table, threshold: int): Table {
    if t == [] then []
    else
      (if t[0].job.status == Done && t[0].job.updatedAt < threshold then [] else [t[0]])
      + AfterCleanup(t[1..], threshold)
  }

  // ---------------------------------------------------------------- the invariant

  /** Failures after which a job is quarantined: a limit of zero still takes one. */
  function RetryLimit(maxRetries: nat): nat {
    if maxRetries == 0 then 1 else maxRetries
  }

  function Active(status: Status): nat {
    if status == Processing || status == Done then 1 else 0
  }

  /** Every claim is accounted for, and a job is failed exactly when its retries are used up. */
  ghost predicate EntryOk(e: Entry, maxRetries: nat) {
    && e.history.claims == e.job.retryCount + e.history.conflicts + e.history.recoveries + Active(e.job.status)
    && e.job.retryCount <= RetryLimit(maxRetries)
    && (e.job.status == Failed <==> e.job.retryCount == RetryLimit(maxRetries))
    && (e.job.status == Processing <==> e.history.holder.HeldBy?)
  }

  /** Job ids are the primary key. */
  ghost predicate UniqueIds(t: Table) {
    forall i, j | 0 <= i < j < |t| :: t[i].job.jobId != t[j].job.jobId
  }

  ghost predicate Inv(t: Table, maxRetries: nat) {
    && (forall i | 0 <= i < |t| :: EntryOk(t[i], maxRetries))
    && UniqueIds(t)
    && (forall i, j | 0 <= i < j < |t| :: t[i].job.key != t[j].job.key)
  }

  // ---------------------------------------------------------------- claiming

  lemma {:induction false} PendingRowsSpec(t: Table, from: nat)
    requires from <= |t|
    ensures forall i | 0 <= i < |PendingRows(t, from)| ::
              from <= PendingRows(t, from)[i] < |t| && t[PendingRows(t, from)[i]].job.status == Pending
    ensures forall k | from <= k < |t| && t[k].job.status == Pending :: k in PendingRows(t, from)
    ensures forall i, j | 0 <= i < j < |PendingRows(t, from)| :: PendingRows(t, from)[i] < PendingRows(t, from)[j]
    decreases |t| - from
  {
    if from < |t| {
      PendingRowsSpec(t, from + 1);
    }
  }

  /** A claim takes as many pending jobs as it may, each once, and none older is left behind. */
  lemma ClaimPicksOldest(t: Table, limit: nat)
    ensures var claimed, pending := Oldest(t, limit), PendingRows(t, 0);
      && |claimed| == (if |pending| <= limit then |pending| else limit)
      && Distinct(claimed)
      && (forall i | i in claimed :: i < |t| && t[i].job.status == Pending)
      && (forall i, k | i in claimed && 0 <= k < |t| && t[k].job.status == Pending && k !in claimed ::
            t[i].job.createdAt <= t[k].job.createdAt)
  {
    var claimed := Oldest(t, limit);
    var sorted := SortedPending(t);
    assert claimed <= sorted;
    assert forall i | i in claimed :: i in sorted;
    forall i, k | i in claimed && 0 <= k < |t| && t[k].job.status == Pending && k !in claimed
      ensures t[i].job.createdAt <= t[k].job.createdAt
    {
      OlderIsClaimed(t, sorted, claimed, i, k);
    }
  }

  /** The pending rows, oldest first. */
  lemma SortedPending(t: Table) returns (sorted: seq<nat>)
    ensures sorted == SortBy(PendingRows(t, 0), OlderFirst(t)) && |sorted| == |PendingRows(t, 0)|
    ensures SortedBy(sorted, OlderFirst(t)) && Distinct(sorted)
    ensures forall i: nat :: i in sorted <==> (i < |t| && t[i].job.status == Pending)
  {
    var pending := PendingRows(t, 0);
    sorted := SortBy(pending, OlderFirst(t));
    PendingRowsSpec(t, 0);
    SortByIsSorted(pending, OlderFirst(t));
    PermutationOfDistinct(pending, sorted);
  }

  lemma OlderIsClaimed(t: Table, sorted: seq<nat>, claimed: seq<nat>, i: nat, k: nat)
    requires SortedBy(sorted, OlderFirst(t)) && claimed <= sorted
    requires i in claimed && k in sorted && k !in claimed && i < |t| && k < |t|
    ensures t[i].job.createdAt <= t[k].job.createdAt
  {
    var a :| 0 <= a < |claimed| && claimed[a] == i;
    var b :| 0 <= b < |sorted| && sorted[b] == k;
    assert claimed[a] == sorted[a];
    assert claimed == sorted[..|claimed|];
    assert forall x | 0 <= x < |claimed| :: sorted[x] in claimed;
    assert OlderFirst(t)(sorted[a], sorted[b]);
  }

  // ---------------------------------------------------------------- the protocol

  datatype Action =
    | Enqueue(newId: string, key: Key, at: int)
    | ClaimJobs(limit: nat, token: nat, at: int)
    | ReportDone(jobId: string, token: nat, at: int)
    | ReportFailed(jobId: string, token: nat, conflict: bool, at: int)
    | Recover(at: int)
    | Clean(threshold: int)

  /** Only the claim that holds a job reports on it. */
  ghost predicate Holds(t: Table, jobId: string, token: nat) {
    exists i :: 0 <= i < |t| && t[i].job.jobId == jobId && t[i].history.holder == HeldBy(token)
  }

  ghost predicate Enabled(t: Table, a: Action) {
    match a
    case ReportDone(jobId, token, _) => Holds(t, jobId, token)
    case ReportFailed(jobId, token, _, _) => Holds(t, jobId, token)
    case _ => true
  }

  function Apply(t: Table, a: Action, config: Config): Table {
    match a
    case Enqueue(newId, key, at) => Insert(t, newId, key, at)
    case ClaimJobs(limit, token, at) => Claim(t, limit, token, at)
    case ReportDone(jobId, _, at) => AfterDone(t, jobId, at)
    case ReportFailed(jobId, _, conflict, at) => AfterFailure(t, jobId, conflict, config.maxRetries, at)
    case Recover(at) => AfterReconcile(t, config, at)
    case Clean(threshold) => AfterCleanup(t, threshold)
  }

  ghost predicate Runs(t: Table, actions: seq<Action>, config: Config)
    decreases |actions|
  {
    actions == [] || (Enabled(t, actions[0]) && Runs(Apply(t, actions[0], config), actions[1..], config))
  }

  function After(t: Table, actions: seq<Action>, config: Config): Table
    decreases |actions|
  {
    if actions == [] then t else After(Apply(t, actions[0], config), actions[1..], config)
  }

  /** What a report does to the reported job keeps its books, if the job is active. */
  lemma ReportKeepsEntry(e: Entry, conflict: bool, maxRetries: nat, now: int)
    requires EntryOk(e, maxRetries)
    ensures EntryOk(DoneEntry(e, now), maxRetries) <==> Active(e.job.status) == 1
    ensures EntryOk(FailEntry(e, conflict, maxRetries, now), maxRetries) <==> Active(e.job.status) == 1
  {
  }

  /**
    The source does not check who reports.  A failure report leaves the books in order and a
    finished job finished exactly when the job is being processed.
   */
  lemma FailureReportIsSafeIff(e: Entry, conflict: bool, maxRetries: nat, now: int)
    requires EntryOk(e, maxRetries)
    ensures var after := FailEntry(e, conflict, maxRetries, now);
      (EntryOk(after, maxRetries) && (e.job.status == Done ==> after.job.status == Done))
      <==> e.job.status == Processing
  {
    ReportKeepsEntry(e, conflict, maxRetries, now);
  }

  /** A worker that was presumed stuck and reports late: the job counts a claim that never was. */
  lemma LateReportBreaksTheBooks()
    ensures var e := Entry(Job("j", Key("k", "i", "v"), Pending, 0, 0, 0), History(1, 0, 1, Nobody));
      EntryOk(e, 3) && !EntryOk(FailEntry(e, false, 3, 9), 3) && !EntryOk(DoneEntry(e, 9), 3)
  {
  }

  lemma SameIdsAndKeys(t: Table, t': Table, maxRetries: nat)
    requires Inv(t, maxRetries) && |t'| == |t|
    requires forall i | 0 <= i < |t| ::
               t'[i].job.jobId == t[i].job.jobId && t'[i].job.key == t[i].job.key && EntryOk(t'[i], maxRetries)
    ensures Inv(t', maxRetries)
  {
  }

  lemma {:induction false} CleanupKeeps(t: Table, threshold: int)
    ensures |AfterCleanup(t, threshold)| <= |t|
    ensures forall e ::
      e in AfterCleanup(t, threshold) <==> e in t && !(e.job.status == Done && e.job.updatedAt < threshold)
  {
    if t != [] {
      CleanupKeeps(t[1..], threshold);
      assert t == [t[0]] + t[1..];
    }
  }

  lemma {:induction false} CleanupKeepsInv(t: Table, threshold: int, maxRetries: nat)
    requires Inv(t, maxRetries)
    ensures Inv(AfterCleanup(t, threshold), maxRetries)
  {
    if t != [] {
      CleanupKeepsInv(t[1..], threshold, maxRetries);
      CleanedAreOthers(t, threshold, maxRetries);
    }
  }

  lemma CleanedAreOthers(t: Table, threshold: int, maxRetries: nat)
    requires t != [] && Inv(t, maxRetries)
    ensures forall i | 0 <= i < |AfterCleanup(t[1..], threshold)| ::
              && AfterCleanup(t[1..], threshold)[i].job.jobId != t[0].job.jobId
              && AfterCleanup(t[1..], threshold)[i].job.key != t[0].job.key
  {
    var rest := AfterCleanup(t[1..], threshold);
    CleanupKeeps(t[1..], threshold);
    forall i | 0 <= i < |rest|
      ensures rest[i].job.jobId != t[0].job.jobId && rest[i].job.key != t[0].job.key
    {
      assert rest[i] in rest && rest[i] in t[1..];
      var k :| 0 <= k < |t[1..]| && t[1..][k] == rest[i];
      assert t[k + 1] == rest[i];
    }
  }

  lemma ClaimKeepsInv(t: Table, limit: nat, token: nat, now: int, maxRetries: nat)
    requires Inv(t, maxRetries)
    ensures Inv(Claim(t, limit, token, now), maxRetries)
  {
    ClaimPicksOldest(t, limit);
    SameIdsAndKeys(t, Claim(t, limit, token, now), maxRetries);
  }

  lemma ReportKeepsInv(t: Table, jobId: string, token: nat, conflict: bool, now: int, maxRetries: nat)
    requires Inv(t, maxRetries) && Holds(t, jobId, token)
    ensures Inv(AfterDone(t, jobId, now), maxRetries)
    ensures Inv(AfterFailure(t, jobId, conflict, maxRetries, now), maxRetries)
  {
    ReportedIsProcessing(t, jobId, token, maxRetries);
    SameIdsAndKeys(t, AfterDone(t, jobId, now), maxRetries);
    SameIdsAndKeys(t, AfterFailure(t, jobId, conflict, maxRetries, now), maxRetries);
  }

  lemma StepKeepsInv(t: Table, a: Action, config: Config)
    requires Inv(t, config.maxRetries) && Enabled(t, a)
    ensures Inv(Apply(t, a, config), config.maxRetries)
  {
    match a
    case Enqueue(_, _, _) =>
    case ClaimJobs(limit, token, at) => ClaimKeepsInv(t, limit, token, at, config.maxRetries);
    case ReportDone(jobId, token, at) => ReportKeepsInv(t, jobId, token, false, at, config.maxRetries);
    case ReportFailed(jobId, token, conflict, at) => ReportKeepsInv(t, jobId, token, conflict, at, config.maxRetries);
    case Recover(at) => SameIdsAndKeys(t, AfterReconcile(t, config, at), config.maxRetries);
    case Clean(threshold) => CleanupKeepsInv(t, threshold, config.maxRetries);
  }

  lemma ReportedIsProcessing(t: Table, jobId: string, token: nat, maxRetries: nat)
    requires Inv(t, maxRetries) && Holds(t, jobId, token)
    ensures forall i | 0 <= i < |t| && t[i].job.jobId == jobId :: t[i].job.status == Processing
  {
    var k :| 0 <= k < |t| && t[k].job.jobId == jobId && t[k].history.holder == HeldBy(token);
  }

  /** Every run keeps every job's books, from an empty table on. */
  lemma {:induction false} RunKeepsInv(t: Table, actions: seq<Action>, config: Config)
    requires Inv(t, config.maxRetries) && Runs(t, actions, config)
    ensures Inv(After(t, actions, config), config.maxRetries)
    decreases |actions|
  {
    if actions != [] {
      StepKeepsInv(t, actions[0], config);
      RunKeepsInv(Apply(t, actions[0], config), actions[1..], config);
    }
  }

  /** No statement moves a row from one claim to another: it must be reported or recovered first. */
  lemma RowKeepsItsClaim(t: Table, a: Action, config: Config, i: nat)
    requires Inv(t, config.maxRetries) && !a.Clean? && i < |t| && t[i].history.holder.HeldBy?
    ensures i < |Apply(t, a, config)| && Apply(t, a, config)[i].job.jobId == t[i].job.jobId
    ensures Apply(t, a, config)[i].history.holder in {t[i].history.holder, Nobody}
  {
    if a.ClaimJobs? {
      ClaimPicksOldest(t, a.limit);
    }
  }

  /** While a claim holds a job its retry count stays as it is. */
  lemma HeldJobKeepsRetryCount(t: Table, a: Action, config: Config, i: nat)
    requires Inv(t, config.maxRetries) && Enabled(t, a) && i < |t| && t[i].history.holder.HeldBy?
    ensures a.Clean? ==> t[i] in Apply(t, a, config)
    ensures !a.Clean? && Apply(t, a, config)[i].history.holder == t[i].history.holder ==>
      Apply(t, a, config)[i].job.retryCount == t[i].job.retryCount
  {
    if a.Clean? {
      CleanupKeeps(t, a.threshold);
    } else {
      RowKeepsItsClaim(t, a, config, i);
    }
  }

  ghost predicate CountIs(t: Table, jobId: string, n: nat) {
    forall i | 0 <= i < |t| && t[i].job.jobId == jobId :: t[i].job.retryCount == n
  }

  lemma {:induction false} ReadIsTheCount(t: Table, jobId: string)
    requires UniqueIds(t)
    ensures ReadRetryCount(t, jobId) == None <==> !HasJob(t, jobId)
    ensures HasJob(t, jobId) ==> CountIs(t, jobId, ReadRetryCount(t, jobId).value)
  {
    if t != [] {
      ReadIsTheCount(t[1..], jobId);
      assert HasJob(t[1..], jobId) ==> HasJob(t, jobId) by {
        assert forall i | 0 <= i < |t[1..]| :: t[1..][i] == t[i + 1];
      }
      if t[0].job.jobId != jobId && HasJob(t, jobId) {
        var i :| 0 <= i < |t| && t[i].job.jobId == jobId;
        assert t[1..][i - 1] == t[i];
      }
    }
  }

  lemma StepKeepsCount(t: Table, a: Action, config: Config, jobId: string, token: nat, n: nat)
    requires Inv(t, config.maxRetries) && Enabled(t, a) && CountIs(t, jobId, n)
    requires Holds(t, jobId, token) && Holds(Apply(t, a, config), jobId, token)
    ensures CountIs(Apply(t, a, config), jobId, n)
  {
    var t' := Apply(t, a, config);
    StepKeepsInv(t, a, config);
    if a.Clean? {
      CleanupKeeps(t, a.threshold);
      assert forall j | 0 <= j < |t'| :: t'[j] in t' && t'[j] in t;
    } else {
      var k :| 0 <= k < |t| && t[k].job.jobId == jobId && t[k].history.holder == HeldBy(token);
      var m :| 0 <= m < |t'| && t'[m].job.jobId == jobId && t'[m].history.holder == HeldBy(token);
      RowKeepsItsClaim(t, a, config, k);
      JobIsOneRow(t', config.maxRetries, m, k);
      HeldJobKeepsRetryCount(t, a, config, k);
      forall j | 0 <= j < |t'| && t'[j].job.jobId == jobId
        ensures t'[j].job.retryCount == n
      {
        JobIsOneRow(t', config.maxRetries, j, k);
      }
    }
  }

  /** A run all through which one claim holds the job. */
  ghost predicate HeldThroughout(t: Table, actions: seq<Action>, config: Config, jobId: string, token: nat)
    decreases |actions|
  {
    && Holds(t, jobId, token)
    && (actions == [] ||
        (Enabled(t, actions[0]) && HeldThroughout(Apply(t, actions[0], config), actions[1..], config, jobId, token)))
  }

  lemma {:induction false} HeldKeepsCount(t: Table, actions: seq<Action>, config: Config,
                                          jobId: string, token: nat, n: nat)
    requires Inv(t, config.maxRetries) && HeldThroughout(t, actions, config, jobId, token) && CountIs(t, jobId, n)
    ensures CountIs(After(t, actions, config), jobId, n)
    decreases |actions|
  {
    if actions != [] {
      StepKeepsInv(t, actions[0], config);
      StepKeepsCount(t, actions[0], config, jobId, token, n);
      HeldKeepsCount(Apply(t, actions[0], config), actions[1..], config, jobId, token, n);
    }
  }

  /**
    A failure report reads the retry count in one statement and updates by it in a later one.
    Whatever others do in between, that is one step as long as the claim is not lost.
   */
  lemma LateUpdateIsOneStep(t: Table, actions: seq<Action>, config: Config, jobId: string, token: nat,
                            conflict: bool, now: int)
    requires Inv(t, config.maxRetries) && HeldThroughout(t, actions, config, jobId, token)
    ensures ReadRetryCount(t, jobId).Some?
    ensures (var t', read := After(t, actions, config), ReadRetryCount(t, jobId).value;
      AfterUpdate(t', jobId, conflict, read, config.maxRetries, now)
      == AfterFailure(t', jobId, conflict, config.maxRetries, now))
  {
    ReadIsTheCount(t, jobId);
    var i :| 0 <= i < |t| && t[i].job.jobId == jobId && t[i].history.holder == HeldBy(token);
    assert HasJob(t, jobId);
    HeldKeepsCount(t, actions, config, jobId, token, ReadRetryCount(t, jobId).value);
  }

  /** If it is lost and won again in between, the stale count must fall on the same side of the limit. */
  lemma StaleReadIsSafeIff(e: Entry, conflict: bool, read: nat, maxRetries: nat, now: int)
    requires EntryOk(e, maxRetries) && e.job.status == Processing
    ensures EntryOk(UpdateEntry(e, conflict, read, maxRetries, now), maxRetries)
      <==> conflict || (read >= maxRetries - 1 <==> e.job.retryCount >= maxRetries - 1)
  {
  }

  lemma JobIsOneRow(t: Table, maxRetries: nat, i: nat, j: nat)
    requires Inv(t, maxRetries) && i < |t| && j < |t| && t[i].job.jobId == t[j].job.jobId
    ensures i == j
  {
  }

  /** Two outstanding claims never share a job. */
  lemma ClaimIsExclusive(t: Table, a: Action, config: Config, jobId: string, first: nat, second: nat)
    requires Inv(t, config.maxRetries) && Enabled(t, a)
    requires Holds(t, jobId, first) && Holds(Apply(t, a, config), jobId, second)
    ensures first == second
  {
    var t' := Apply(t, a, config);
    StepKeepsInv(t, a, config);
    var k :| 0 <= k < |t| && t[k].job.jobId == jobId && t[k].history.holder == HeldBy(first);
    var j :| 0 <= j < |t'| && t'[j].job.jobId == jobId && t'[j].history.holder == HeldBy(second);
    if a.Clean? {
      CleanupKeeps(t, a.threshold);
      assert t'[j] in t' && t'[j] in t;
      var i :| 0 <= i < |t| && t[i] == t'[j];
      JobIsOneRow(t, config.maxRetries, i, k);
    } else {
      RowKeepsItsClaim(t, a, config, k);
      JobIsOneRow(t', config.maxRetries, j, k);
    }
  }

  /** A failed job is out of the running for good: no action changes it. */
  lemma FailedStaysFailed(t: Table, a: Action, config: Config, i: nat)
    requires Inv(t, config.maxRetries) && Enabled(t, a) && i < |t| && t[i].job.status == Failed
    ensures t[i] in Apply(t, a, config)
  {
    match a
    case ClaimJobs(limit, token, at) =>
      ClaimPicksOldest(t, limit);
      assert Claim(t, limit, token, at)[i] == t[i];
    case ReportDone(jobId, token, at) =>
      ReportedIsProcessing(t, jobId, token, config.maxRetries);
      assert AfterDone(t, jobId, at)[i] == t[i];
    case ReportFailed(jobId, token, conflict, at) =>
      ReportedIsProcessing(t, jobId, token, config.maxRetries);
      assert AfterFailure(t, jobId, conflict, config.maxRetries, at)[i] == t[i];
    case Recover(at) =>
      assert AfterReconcile(t, config, at)[i] == t[i];
    case Clean(threshold) =>
      CleanupKeeps(t, threshold);
    case Enqueue(newId, key, at) =>
      assert Insert(t, newId, key, at)[i] == t[i];
  }

  /** Enqueueing is idempotent: later calls for the item return the first job and change nothing. */
  lemma EnqueueIsIdempotent(t: Table, key: Key, firstId: string, secondId: string, now: int, later: int)
    requires EnqueueOutcome(t, firstId, key).Enqueued?
    ensures var t' := Insert(t, firstId, key, now);
      && EnqueueOutcome(t', secondId, key) == Enqueued(EnqueueOutcome(t, firstId, key).jobId, false)
      && Insert(t', secondId, key, later) == t'
  {
    var t' := Insert(t, firstId, key, now);
    if !HasKey(t, key) {
      assert t'[|t|].job.key == key;
      assert IndexOfKey(t', key) == |t|;
    }
  }

  // ---------------------------------------------------------------- the store

  ghost function StuckRows(t: Table, threshold: int): set<nat> {
    set i | 0 <= i < |t| && t[i].job.status == Processing && t[i].job.updatedAt < threshold
  }

  /** The rows a claim returns. */
  function JobsAt(t: Table, picked: seq<nat>): (jobs: seq<Job>)
    requires forall k | 0 <= k < |picked| :: picked[k] < |t|
    ensures |jobs| == |picked| && forall k | 0 <= k < |picked| :: jobs[k] == t[picked[k]].job
  {
    if picked == [] then []
    else
      var n := |picked| - 1;
      JobsAt(t, picked[..n]) + [t[picked[n]].job]
  }

  /** A job that is given a status and a retry count, and is otherwise the job it was. */
  ghost predicate Moved(before: Job, after: Job, status: Status, retryCount: nat, now: int) {
    && after.status == status && after.retryCount == retryCount && after.updatedAt == now
    && after.jobId == before.jobId && after.key == before.key && after.createdAt == before.createdAt
  }

  ghost predicate Claimed(before: Entry, after: Entry, token: nat, now: int) {
    && Moved(before.job, after.job, Processing, before.job.retryCount, now)
    && after.history.claims == before.history.claims + 1 && after.history.holder == HeldBy(token)
  }

  /** Stuck jobs are queued again, and failed ones whose retries are not used up; no other changes. */
  ghost predicate Reconciled(before: Table, after: Table, stuck: set<nat>, maxRetries: nat, now: int)
    requires |before| == |after|
  {
    forall i | 0 <= i < |before| :: ReconciledRow(before[i], after[i], i in stuck, maxRetries, now)
  }

  ghost predicate ReconciledRow(before: Entry, after: Entry, stuck: bool, maxRetries: nat, now: int) {
    if stuck then
      && Moved(before.job, after.job, Pending, before.job.retryCount, now)
      && after.history.recoveries == before.history.recoveries + 1 && after.history.holder == Nobody
    else if before.job.status == Failed && before.job.retryCount < maxRetries then
      Moved(before.job, after.job, Pending, before.job.retryCount, now) && after.history == before.history
    else after == before
  }

  /** A failure is counted unless it is a conflict, and the last one allowed quarantines the job. */
  ghost predicate FailureReported(before: Entry, after: Entry, conflict: bool, maxRetries: nat, now: int) {
    && after.history.holder == Nobody
    && if conflict then Moved(before.job, after.job, Pending, before.job.retryCount, now)
       else if before.job.retryCount + 1 < maxRetries then
         Moved(before.job, after.job, Pending, before.job.retryCount + 1, now)
       else Moved(before.job, after.job, Failed, before.job.retryCount + 1, now)
  }

  lemma ClaimedRows(t: Table, limit: nat, token: nat, now: int)
    ensures |Oldest(t, limit)| <= limit
    ensures forall k | k in Oldest(t, limit) ::
              k < |t| && t[k].job.status == Pending && Claimed(t[k], Claim(t, limit, token, now)[k], token, now)
  {
    ClaimPicksOldest(t, limit);
  }

  class Outbox {
    const config: Config
    var rows: Table

    constructor (config: Config)
      ensures this.config == config && rows == [] && Inv(rows, config.maxRetries)
    {
      this.config, rows := config, [];
    }

    method EnqueueWithResultSync(newId: string, key: Key, now: int) returns (r: EnqueueResult)
      modifies this
      ensures rows == Apply(old(rows), Enqueue(newId, key, now), config)
      ensures r == EnqueueOutcome(old(rows), newId, key)
      ensures r.Enqueued? ==> (r.isNew <==> !old(HasKey(rows, key)))
      ensures if r.Enqueued? && r.isNew then
          && |rows| == |old(rows)| + 1 && old(rows) <= rows
          && rows[|rows| - 1].job == Job(newId, key, Pending, 0, now, now)
        else rows == old(rows)
      ensures r.Enqueued? ==> exists i :: 0 <= i < |rows| && rows[i].job.key == key && rows[i].job.jobId == r.jobId
      ensures r.EnqueueFailed? ==> rows == old(rows)
      ensures old(Inv(rows, config.maxRetries)) ==> Inv(rows, config.maxRetries)
    {
      r := EnqueueOutcome(rows, newId, key);
      if HasKey(rows, key) {
        assert rows[IndexOfKey(rows, key)].job.key == key;
      }
      rows := Insert(rows, newId, key, now);
      assert r.Enqueued? && r.isNew ==> rows[|rows| - 1].job.key == key;
    }

    method ClaimJobs(limit: nat, token: nat, now: int) returns (claimed: seq<Job>)
      modifies this
      ensures rows == Apply(old(rows), Action.ClaimJobs(limit, token, now), config)
      ensures |rows| == |old(rows)| && |claimed| == |Oldest(old(rows), limit)| <= limit
      ensures forall i | 0 <= i < |rows| ::
        if i in Oldest(old(rows), limit) then
          old(rows)[i].job.status == Pending && Claimed(old(rows)[i], rows[i], token, now)
        else rows[i] == old(rows)[i]
      ensures forall k | 0 <= k < |claimed| ::
        Oldest(old(rows), limit)[k] < |rows| && claimed[k] == rows[Oldest(old(rows), limit)[k]].job
      ensures old(Inv(rows, config.maxRetries)) ==> Inv(rows, config.maxRetries)
    {
      var picked := Oldest(rows, limit);
      ClaimedRows(rows, limit, token, now);
      if Inv(rows, config.maxRetries) {
        ClaimKeepsInv(rows, limit, token, now, config.maxRetries);
      }
      rows := Claim(rows, limit, token, now);
      assert forall k | 0 <= k < |picked| :: picked[k] in picked;
      claimed := JobsAt(rows, picked);
    }

    method MarkDone(jobId: string, ghost token: nat, now: int)
      modifies this
      ensures rows == AfterDone(old(rows), jobId, now)
      ensures |rows| == |old(rows)| && forall i | 0 <= i < |rows| ::
        if old(rows)[i].job.jobId == jobId then
          Moved(old(rows)[i].job, rows[i].job, Done, old(rows)[i].job.retryCount, now)
          && rows[i].history.holder == Nobody
        else rows[i] == old(rows)[i]
      ensures old(Inv(rows, config.maxRetries)) && old(Holds(rows, jobId, token)) ==> Inv(rows, config.maxRetries)
    {
      if Inv(rows, config.maxRetries) && Holds(rows, jobId, token) {
        ReportKeepsInv(rows, jobId, token, false, now, config.maxRetries);
      }
      rows := AfterDone(rows, jobId, now);
    }

    /** Two statements: the retry count is read, and the row updated by it. */
    method MarkFailed(jobId: string, ghost token: nat, conflict: bool, now: int)
      requires UniqueIds(rows)
      modifies this
      ensures rows == AfterFailure(old(rows), jobId, conflict, config.maxRetries, now)
      ensures |rows| == |old(rows)| && forall i | 0 <= i < |rows| ::
        if old(rows)[i].job.jobId == jobId then
          FailureReported(old(rows)[i], rows[i], conflict, config.maxRetries, now)
        else rows[i] == old(rows)[i]
      ensures old(Inv(rows, config.maxRetries)) && old(Holds(rows, jobId, token)) ==> Inv(rows, config.maxRetries)
    {
      if Inv(rows, config.maxRetries) && Holds(rows, jobId, token) {
        ReportKeepsInv(rows, jobId, token, conflict, now, config.maxRetries);
      }
      ReadIsTheCount(rows, jobId);
      var retryCount := ReadRetryCount(rows, jobId);
      if retryCount == None {
        assert rows == AfterFailure(rows, jobId, conflict, config.maxRetries, now);
        return;
      }
      rows := AfterUpdate(rows, jobId, conflict, retryCount.value, config.maxRetries, now);
    }

    /** Stuck jobs are queued again.  The second statement finds nothing to retry while the books are in order. */
    method Reconcile(now: int) returns (ghost recovered: set<nat>)
      modifies this
      ensures rows == AfterReconcile(old(rows), config, now)
      ensures forall i: nat :: i in recovered <==> (
        && i < |old(rows)| && old(rows)[i].job.status == Processing
        && old(rows)[i].job.updatedAt < now - config.stuckThreshold)
      ensures |rows| == |old(rows)| && Reconciled(old(rows), rows, recovered, config.maxRetries, now)
      ensures old(Inv(rows, config.maxRetries)) ==> Inv(rows, config.maxRetries)
      ensures old(Inv(rows, config.maxRetries)) ==>
                forall i | 0 <= i < |rows| :: i !in recovered ==> rows[i] == old(rows)[i]
    {
      recovered := StuckRows(rows, now - config.stuckThreshold);
      if Inv(rows, config.maxRetries) {
        StepKeepsInv(rows, Recover(now), config);
      }
      rows := AfterReconcile(rows, config, now);
    }

    method Cleanup(threshold: int) returns (removed: nat)
      modifies this
      ensures rows == AfterCleanup(old(rows), threshold)
      ensures removed == |old(rows)| - |rows|
      ensures forall e :: e in rows <==> e in old(rows) && !(e.job.status == Done && e.job.updatedAt < threshold)
      ensures old(Inv(rows, config.maxRetries)) ==> Inv(rows, config.maxRetries)
    {
      CleanupKeeps(rows, threshold);
      if Inv(rows, config.maxRetries) {
        CleanupKeepsInv(rows, threshold, config.maxRetries);
      }
      removed := |rows| - |AfterCleanup(rows, threshold)|;
      rows := AfterCleanup(rows, threshold);
    }
  }
}
