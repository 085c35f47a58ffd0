/** The judge that appends its verdicts and counts them in a checkpoint. */
module JudgeRun {
  import opened Common
  import opened Statements

  // A line is appended whole, and a checkpoint is renamed into place, so no statement takes effect
  // in part.

  datatype Hypothesis = Hypothesis(questionId: string, text: string)

  datatype Row = Row(questionId: string, text: string, verdict: bool)

  datatype Status = Running | Failing | Finished

  datatype Checkpoint = Checkpoint(version: int, fingerprint: string, status: Status, total: int, completed: int)

  datatype Disk = Disk(out: Option<seq<Row>>, checkpoint: Option<Checkpoint>)

  datatype Answer = Verdict(verdict: bool) | NoVerdict

  type World = Statements.World<Disk, Answer>

  type Done = Statements.Done<Disk, Answer>

  type Ended = Statements.Ended<Disk, Answer>

  datatype Config = Config(hypotheses: seq<Hypothesis>, references: set<string>, fingerprint: string)

  datatype Mode = Fresh | Resume | Force(checkpointFirst: bool)

  const CHECKPOINT_VERSION := 1

  // ---------------------------------------------------------------- statements

  function CheckpointOf(c: Config, status: Status, completed: nat): Checkpoint {
    Checkpoint(CHECKPOINT_VERSION, c.fingerprint, status, |c.hypotheses|, completed)
  }

  function CheckpointWritten(w: World, c: Config, status: Status, completed: nat): Done {
    Do(w, w.disk.(checkpoint := Some(CheckpointOf(c, status, completed))))
  }

  function RowsOf(d: Disk): seq<Row> {
    match d.out case None => [] case Some(rows) => rows
  }

  function RowAppended(w: World, row: Row): Done {
    Do(w, w.disk.(out := Some(RowsOf(w.disk) + [row])))
  }

  // ---------------------------------------------------------------- judging what is left

  function RowFor(h: Hypothesis, verdict: bool): Row {
    Row(h.questionId, h.text, verdict)
  }

  /** Reporting a failure: whether or not the report can be written, the run ends. */
  function GiveUp(w: World, c: Config, n: nat): Done {
    GivenUp(CheckpointWritten(w, c, Failing, n))
  }

  /** One question: ask, append, count. */
  function JudgeOne(w: World, c: Config, n: nat): Done
    requires n < |c.hypotheses|
  {
    var asked := AfterAnswer(w);
    match NextAnswer(w, Verdict(false))
    case NoVerdict => GiveUp(asked, c, n)
    case Verdict(v) => WithVerdict(asked, c, n, v)
  }

  function WithVerdict(w: World, c: Config, n: nat, verdict: bool): Done
    requires n < |c.hypotheses|
  {
    var appended := RowAppended(w, RowFor(c.hypotheses[n], verdict));
    match appended.signal
    case Dead => appended
    case Error => GiveUp(appended.world, c, n)
    case Fine => CountOne(appended.world, c, n + 1)
  }

  function CountOne(w: World, c: Config, n: nat): Done {
    var counted := CheckpointWritten(w, c, Running, n);
    if counted.signal == Error then GiveUp(counted.world, c, n) else counted
  }

  /** The questions from `n` on, up to the first failure. */
  function JudgeFrom(w: World, c: Config, n: nat): Done
    requires n <= |c.hypotheses|
    decreases |c.hypotheses| - n, 0
  {
    if n == |c.hypotheses| then Done(w, Fine) else JudgeRest(JudgeOne(w, c, n), c, n + 1)
  }

  function JudgeRest(one: Done, c: Config, n: nat): Done
    requires n <= |c.hypotheses|
    decreases |c.hypotheses| - n, 1
  {
    if one.signal != Fine then one else JudgeFrom(one.world, c, n)
  }

  // ---------------------------------------------------------------- starting and resuming

  ghost predicate DistinctQuestions(hs: seq<Hypothesis>) {
    forall i, j | 0 <= i < j < |hs| :: hs[i].questionId != hs[j].questionId
  }

  ghost predicate WellFormed(c: Config) {
    && c.hypotheses != []
    && DistinctQuestions(c.hypotheses)
    && forall i | 0 <= i < |c.hypotheses| :: c.hypotheses[i].questionId in c.references
  }

  /** The rows are verdicts on the first hypotheses, in order. */
  predicate Follows(rows: seq<Row>, hs: seq<Hypothesis>) {
    && |rows| <= |hs|
    && forall i | 0 <= i < |rows| :: rows[i] == RowFor(hs[i], rows[i].verdict)
  }

  predicate CheckpointFits(d: Disk, c: Config) {
    && d.checkpoint.Some?
    && d.checkpoint.value.version == CHECKPOINT_VERSION
    && d.checkpoint.value.fingerprint == c.fingerprint
    && d.checkpoint.value.total == |c.hypotheses|
  }

  predicate Resumable(d: Disk, c: Config) {
    && CheckpointFits(d, c)
    && Follows(RowsOf(d), c.hypotheses)
    && d.checkpoint.value.completed <= |RowsOf(d)|
  }

  function CreateEmpty(w: World): Done {
    if w.disk.out.Some? then Done(w, Error) else Do(w, w.disk.(out := Some([])))
  }

  /** Removing a file; only dying at it is noticed. */
  function RemoveOut(w: World): Done {
    Do(w, w.disk.(out := None))
  }

  function RemoveCheckpoint(w: World): Done {
    Do(w, w.disk.(checkpoint := None))
  }

  function RemoveBoth(w: World, checkpointFirst: bool): Done {
    var one := if checkpointFirst then RemoveCheckpoint(w) else RemoveOut(w);
    if one.signal == Dead then one
    else if checkpointFirst then RemoveOut(one.world) else RemoveCheckpoint(one.world)
  }

  /** A new run's files: an empty output, then a first checkpoint. */
  function CreateFiles(w: World, c: Config): Done {
    var created := CreateEmpty(w);
    if created.signal != Fine then created else CheckpointWritten(created.world, c, Running, 0)
  }

  function Prepare(w: World, c: Config, mode: Mode): Done {
    match mode
    case Resume => Done(w, Fine)
    case Fresh => CreateFiles(w, c)
    case Force(checkpointFirst) =>
      var removed := RemoveBoth(w, checkpointFirst);
      if removed.signal == Dead then removed else CreateFiles(removed.world, c)
  }

  /** What preparation itself refuses; a resume also looks at the rows. */
  predicate PreparationRefused(d: Disk, c: Config, mode: Mode) {
    match mode
    case Resume => !CheckpointFits(d, c)
    case Fresh => d.out.Some? || d.checkpoint.Some?
    case Force(first) => false
  }

  predicate Refused(d: Disk, c: Config, mode: Mode) {
    match mode
    case Resume => !Resumable(d, c)
    case Fresh => d.out.Some? || d.checkpoint.Some?
    case Force(first) => false
  }

  /** What follows preparation: a checkpoint, the questions left, the last checkpoint. */
  function Continue(w: World, c: Config, n: nat): Done
    requires n <= |c.hypotheses|
  {
    var marked := CheckpointWritten(w, c, Running, n);
    if marked.signal != Fine then marked
    else
      var judged := JudgeFrom(marked.world, c, n);
      if judged.signal != Fine then judged else CheckpointWritten(judged.world, c, Finished, |c.hypotheses|)
  }

  function RowsKept(d: Disk, mode: Mode): nat {
    if mode == Resume then |RowsOf(d)| else 0
  }

  function Invoke(w: World, c: Config, mode: Mode): Ended {
    if Refused(w.disk, c, mode) then Ended(w, Rejected)
    else
      var prepared := Prepare(w, c, mode);
      var n := RowsKept(w.disk, mode);
      if prepared.signal != Fine || n > |c.hypotheses| then Ended(prepared.world, OutcomeOf(prepared.signal))
      else
        var done := Continue(prepared.world, c, n);
        Ended(done.world, OutcomeOf(done.signal))
  }

  // ---------------------------------------------------------------- one run

  /** The rows in `now` are those of `before` with more behind them. */
  predicate Extends(now: seq<Row>, before: seq<Row>) {
    |before| <= |now| && now[..|before|] == before
  }

  /** At question `n` of a run: `n` rows on disk, a fitting checkpoint, at most as many counted. */
  predicate At(d: Disk, c: Config, n: nat) {
    Resumable(d, c) && |RowsOf(d)| == n
  }

  /** A statement that writes a checkpoint keeps the run resumable whatever becomes of it. */
  lemma CheckpointStays(w: World, c: Config, status: Status, completed: nat)
    requires Resumable(w.disk, c) && completed <= |RowsOf(w.disk)|
    ensures Resumable(CheckpointWritten(w, c, status, completed).world.disk, c)
    ensures CheckpointWritten(w, c, status, completed).world.disk.out == w.disk.out
  {
  }

  lemma AppendStays(w: World, c: Config, n: nat, verdict: bool)
    requires n < |c.hypotheses| && At(w.disk, c, n)
    ensures (var appended := RowAppended(w, RowFor(c.hypotheses[n], verdict));
      && Resumable(appended.world.disk, c)
      && n <= |RowsOf(appended.world.disk)|
      && Extends(RowsOf(appended.world.disk), RowsOf(w.disk))
      && (appended.signal == Fine ==> |RowsOf(appended.world.disk)| == n + 1))
  {
    var rows := RowsOf(w.disk);
    assert Follows(rows + [RowFor(c.hypotheses[n], verdict)], c.hypotheses);
  }

  lemma GiveUpStays(w: World, c: Config, n: nat)
    requires Resumable(w.disk, c) && n <= |RowsOf(w.disk)|
    ensures Resumable(GiveUp(w, c, n).world.disk, c) && GiveUp(w, c, n).world.disk.out == w.disk.out
  {
    CheckpointStays(w, c, Failing, n);
  }

  lemma CountOneStays(w: World, c: Config, n: nat)
    requires Resumable(w.disk, c) && n <= |RowsOf(w.disk)|
    ensures Resumable(CountOne(w, c, n).world.disk, c) && CountOne(w, c, n).world.disk.out == w.disk.out
  {
    CheckpointStays(w, c, Running, n);
    GiveUpStays(CheckpointWritten(w, c, Running, n).world, c, n);
  }

  lemma VerdictKeepsResumable(w: World, c: Config, n: nat, verdict: bool)
    requires n < |c.hypotheses| && At(w.disk, c, n)
    ensures (var one := WithVerdict(w, c, n, verdict);
      && Resumable(one.world.disk, c) && Extends(RowsOf(one.world.disk), RowsOf(w.disk))
      && (one.signal == Fine ==> At(one.world.disk, c, n + 1)))
  {
    var appended := RowAppended(w, RowFor(c.hypotheses[n], verdict));
    AppendStays(w, c, n, verdict);
    if appended.signal == Error {
      GiveUpStays(appended.world, c, n);
    } else if appended.signal == Fine {
      CountOneStays(appended.world, c, n + 1);
    }
  }

  lemma JudgeOneKeepsResumable(w: World, c: Config, n: nat)
    requires n < |c.hypotheses| && At(w.disk, c, n)
    ensures Resumable(JudgeOne(w, c, n).world.disk, c)
    ensures Extends(RowsOf(JudgeOne(w, c, n).world.disk), RowsOf(w.disk))
    ensures JudgeOne(w, c, n).signal == Fine ==> At(JudgeOne(w, c, n).world.disk, c, n + 1)
  {
    var asked := AfterAnswer(w);
    match NextAnswer(w, Verdict(false))
    case NoVerdict =>
      GiveUpStays(asked, c, n);
    case Verdict(v) =>
      VerdictKeepsResumable(asked, c, n, v);
  }

  /** What a stretch of a run that starts with `rows` leaves. */
  predicate KeepsResumable(rows: seq<Row>, done: Done, c: Config) {
    && Resumable(done.world.disk, c) && Extends(RowsOf(done.world.disk), rows)
    && (done.signal == Fine ==> At(done.world.disk, c, |c.hypotheses|))
  }

  lemma {:induction false} JudgeFromKeepsResumable(w: World, c: Config, n: nat)
    requires n <= |c.hypotheses| && At(w.disk, c, n)
    ensures KeepsResumable(RowsOf(w.disk), JudgeFrom(w, c, n), c)
    decreases |c.hypotheses| - n, 0
  {
    if n < |c.hypotheses| {
      JudgeOneKeepsResumable(w, c, n);
      JudgeRestKeepsResumable(RowsOf(w.disk), JudgeOne(w, c, n), c, n + 1);
    }
  }

  lemma {:induction false} JudgeRestKeepsResumable(rows: seq<Row>, one: Done, c: Config, n: nat)
    requires n <= |c.hypotheses| && Resumable(one.world.disk, c) && Extends(RowsOf(one.world.disk), rows)
    requires one.signal == Fine ==> At(one.world.disk, c, n)
    ensures KeepsResumable(rows, JudgeRest(one, c, n), c)
    decreases |c.hypotheses| - n, 1
  {
    if one.signal == Fine {
      JudgeFromKeepsResumable(one.world, c, n);
      ExtendsTransitive(RowsOf(JudgeFrom(one.world, c, n).world.disk), RowsOf(one.world.disk), rows);
    }
  }

  lemma ExtendsTransitive(a: seq<Row>, b: seq<Row>, c: seq<Row>)
    requires Extends(a, b) && Extends(b, c)
    ensures Extends(a, c)
  {
    assert a[..|c|] == a[..|b|][..|c|];
  }

  // ---------------------------------------------------------------- what the rows say

  /** From place `n` on, each row holds the judge's answer for it, the first answer for the first. */
  ghost predicate HoldsAnswers(w: World, n: nat, rows: seq<Row>) {
    forall k | n <= k < |rows| :: AnswerAt(w, k - n, Verdict(false)) == Verdict(rows[k].verdict)
  }

  /** One question adds its row with the answer given, or none. */
  ghost predicate AddsAnswered(w: World, c: Config, n: nat, one: Done)
    requires n < |c.hypotheses|
  {
    && one.world.answers == AfterAnswer(w).answers
    && (RowsOf(one.world.disk) == RowsOf(w.disk)
        || exists v :: NextAnswer(w, Verdict(false)) == Verdict(v)
                    && RowsOf(one.world.disk) == RowsOf(w.disk) + [RowFor(c.hypotheses[n], v)])
  }

  lemma JudgeOneAddsAnswered(w: World, c: Config, n: nat)
    requires n < |c.hypotheses|
    ensures AddsAnswered(w, c, n, JudgeOne(w, c, n))
  {
    var asked := AfterAnswer(w);
    match NextAnswer(w, Verdict(false))
    case NoVerdict =>
    case Verdict(v) =>
      var appended := RowAppended(asked, RowFor(c.hypotheses[n], v));
      assert RowsOf(appended.world.disk) == RowsOf(w.disk)
          || RowsOf(appended.world.disk) == RowsOf(w.disk) + [RowFor(c.hypotheses[n], v)];
  }

  lemma OneHoldsAnswers(w: World, c: Config, n: nat, one: Done)
    requires n < |c.hypotheses| && |RowsOf(w.disk)| == n && AddsAnswered(w, c, n, one)
    ensures HoldsAnswers(w, n, RowsOf(one.world.disk))
  {
    AnswersInOrder(w, 0, Verdict(false));
  }

  lemma RestHoldsAnswers(w: World, one: World, n: nat, rows: seq<Row>)
    requires one.answers == AfterAnswer(w).answers && |RowsOf(one.disk)| == n + 1
    requires HoldsAnswers(w, n, RowsOf(one.disk)) && HoldsAnswers(one, n + 1, rows) && Extends(rows, RowsOf(one.disk))
    ensures HoldsAnswers(w, n, rows)
  {
    forall k | n <= k < |rows|
      ensures AnswerAt(w, k - n, Verdict(false)) == Verdict(rows[k].verdict)
    {
      if k == n {
        assert rows[n] == rows[..n + 1][n];
      } else {
        AnswersInOrder(w, k - n - 1, Verdict(false));
      }
    }
  }

  lemma {:induction false} JudgeFromHoldsAnswers(w: World, c: Config, n: nat)
    requires n <= |c.hypotheses| && At(w.disk, c, n)
    ensures HoldsAnswers(w, n, RowsOf(JudgeFrom(w, c, n).world.disk))
    decreases |c.hypotheses| - n
  {
    if n < |c.hypotheses| {
      var one := JudgeOne(w, c, n);
      JudgeOneAddsAnswered(w, c, n);
      JudgeOneKeepsResumable(w, c, n);
      OneHoldsAnswers(w, c, n, one);
      if one.signal == Fine {
        JudgeFromHoldsAnswers(one.world, c, n + 1);
        JudgeFromKeepsResumable(one.world, c, n + 1);
        RestHoldsAnswers(w, one.world, n, RowsOf(JudgeFrom(one.world, c, n + 1).world.disk));
      }
    }
  }

  /** From a disk that has come to question `n`, what is judged holds the answers. */
  ghost predicate RestAnswered(w: World, c: Config, n: nat, after: Disk) {
    At(w.disk, c, n) ==> HoldsAnswers(w, n, RowsOf(after))
  }

  lemma JudgeFromIsAnswered(w: World, c: Config, n: nat)
    requires n <= |c.hypotheses|
    ensures RestAnswered(w, c, n, JudgeFrom(w, c, n).world.disk)
  {
    if At(w.disk, c, n) {
      JudgeFromHoldsAnswers(w, c, n);
    }
  }

  lemma ContinueHoldsAnswers(w: World, c: Config, n: nat)
    requires n <= |c.hypotheses| && At(w.disk, c, n)
    ensures HoldsAnswers(w, n, RowsOf(Continue(w, c, n).world.disk))
  {
    var marked := CheckpointWritten(w, c, Running, n);
    CheckpointStays(w, c, Running, n);
    if marked.signal == Fine {
      JudgeFromHoldsAnswers(marked.world, c, n);
      assert marked.world.answers == w.answers;
      assert forall i :: AnswerAt(marked.world, i, Verdict(false)) == AnswerAt(w, i, Verdict(false));
    }
  }

  /** From a resumable disk at `n` rows, the rest of a run keeps it resumable and every row in place. */
  lemma ContinueKeepsResumable(w: World, c: Config, n: nat)
    requires n <= |c.hypotheses| && At(w.disk, c, n)
    ensures (var done := Continue(w, c, n);
      && Resumable(done.world.disk, c)
      && Extends(RowsOf(done.world.disk), RowsOf(w.disk))
      && (done.signal == Fine ==> Complete(done.world.disk, c)))
  {
    var marked := CheckpointWritten(w, c, Running, n);
    CheckpointStays(w, c, Running, n);
    if marked.signal == Fine {
      JudgeFromKeepsResumable(marked.world, c, n);
      var judged := JudgeFrom(marked.world, c, n);
      if judged.signal == Fine {
        CheckpointStays(judged.world, c, Finished, |c.hypotheses|);
      }
    }
  }

  /** Exactly one row per question, in order, and a checkpoint that says so. */
  predicate Complete(d: Disk, c: Config) {
    At(d, c, |c.hypotheses|) && d.checkpoint.value == CheckpointOf(c, Finished, |c.hypotheses|)
  }

  // ---------------------------------------------------------------- resuming

  /** Resuming is never refused where a run may have stopped, and never loses or repeats a verdict. */
  lemma ResumeKeepsVerdicts(w: World, c: Config)
    requires Resumable(w.disk, c)
    ensures (var e := Invoke(w, c, Resume);
      && e.outcome != Rejected
      && Resumable(e.world.disk, c)
      && Extends(RowsOf(e.world.disk), RowsOf(w.disk))
      && (e.outcome == Completed ==> Complete(e.world.disk, c)))
  {
    ContinueKeepsResumable(w, c, |RowsOf(w.disk)|);
  }

  /** A run leaves the rows as they are, or every row that it did not keep holds the answer given for it. */
  ghost predicate Answered(w: World, mode: Mode, after: Disk) {
    RowsOf(after) == RowsOf(w.disk) || HoldsAnswers(w, RowsKept(w.disk, mode), RowsOf(after))
  }

  lemma CreateTakesNoAnswer(w: World, c: Config)
    ensures (var created := CreateFiles(w, c);
      && created.world.answers == w.answers
      && RowsOf(created.world.disk) in {RowsOf(w.disk), []}
      && (created.signal == Fine ==> At(created.world.disk, c, 0)))
  {
  }

  lemma RemoveTakesNoAnswer(w: World, checkpointFirst: bool)
    ensures RemoveBoth(w, checkpointFirst).world.answers == w.answers
    ensures RowsOf(RemoveBoth(w, checkpointFirst).world.disk) in {RowsOf(w.disk), []}
  {
  }

  lemma PrepareTakesNoAnswer(w: World, c: Config, mode: Mode)
    ensures Prepare(w, c, mode).world.answers == w.answers
    ensures mode != Resume && Prepare(w, c, mode).signal == Fine ==> At(Prepare(w, c, mode).world.disk, c, 0)
    ensures Prepare(w, c, mode).signal != Fine ==>
      RowsOf(Prepare(w, c, mode).world.disk) in {RowsOf(w.disk), []}
  {
    if mode.Force? {
      RemoveTakesNoAnswer(w, mode.checkpointFirst);
      CreateTakesNoAnswer(RemoveBoth(w, mode.checkpointFirst).world, c);
    } else {
      CreateTakesNoAnswer(w, c);
    }
  }

  /** So every run, in whatever mode and whatever becomes of its statements. */
  lemma RunHoldsAnswers(w: World, c: Config, mode: Mode)
    ensures Answered(w, mode, Invoke(w, c, mode).world.disk)
  {
    if !Refused(w.disk, c, mode) {
      var prepared, n := Prepare(w, c, mode), RowsKept(w.disk, mode);
      PrepareTakesNoAnswer(w, c, mode);
      if prepared.signal == Fine && n <= |c.hypotheses| {
        ContinueHoldsAnswers(prepared.world, c, n);
        assert forall i :: AnswerAt(prepared.world, i, Verdict(false)) == AnswerAt(w, i, Verdict(false));
      }
    }
  }

  lemma {:induction false} JudgeFromFinishes(w: World, c: Config, n: nat)
    requires n <= |c.hypotheses| && NoFaults(w, NoVerdict)
    ensures JudgeFrom(w, c, n).signal == Fine && NoFaults(JudgeFrom(w, c, n).world, NoVerdict)
    decreases |c.hypotheses| - n
  {
    if n < |c.hypotheses| {
      JudgeFromFinishes(JudgeOne(w, c, n).world, c, n + 1);
    }
  }

  /** Once nothing fails any more, one resume completes the output. */
  lemma ResumeCompletes(w: World, c: Config)
    requires Resumable(w.disk, c) && NoFaults(w, NoVerdict)
    ensures Invoke(w, c, Resume).outcome == Completed && Complete(Invoke(w, c, Resume).world.disk, c)
  {
    ContinueCompletes(w, c, |RowsOf(w.disk)|);
  }

  // ---------------------------------------------------------------- starting anew

  const Blank := Disk(None, None)

  /** Between the creation of the output and the first checkpoint. */
  predicate Stuck(d: Disk) {
    d == Disk(Some([]), None)
  }

  /** A fresh run leaves nothing, a resumable disk, or an output without a checkpoint. */
  lemma FreshRunLeaves(w: World, c: Config)
    requires w.disk == Blank
    ensures (var e := Invoke(w, c, Fresh);
      && (e.world.disk == Blank || Stuck(e.world.disk) || Resumable(e.world.disk, c))
      && (e.outcome == Completed ==> Complete(e.world.disk, c)))
  {
    var created := CreateEmpty(w);
    if created.signal == Fine {
      var first := CheckpointWritten(created.world, c, Running, 0);
      if first.signal == Fine {
        ContinueKeepsResumable(first.world, c, 0);
      }
    }
  }

  /** It is left without a checkpoint exactly when the output was created and the first checkpoint was not. */
  lemma FreshRunGetsStuckIff(w: World, c: Config)
    requires w.disk == Blank
    ensures Stuck(Invoke(w, c, Fresh).world.disk)
      <==> (NextFate(w.fates) == FailsLate ||
            (NextFate(w.fates) == Works && !TakesEffect(NextFate(CreateEmpty(w).world.fates))))
  {
    var created := CreateEmpty(w);
    if created.signal == Fine {
      var first := CheckpointWritten(created.world, c, Running, 0);
      if first.signal == Fine {
        ContinueKeepsResumable(first.world, c, 0);
      }
    }
  }

  /** From there only a forced run goes on. */
  lemma StuckNeedsForce(w: World, c: Config)
    requires Stuck(w.disk)
    ensures Invoke(w, c, Fresh) == Ended(w, Rejected) && Invoke(w, c, Resume) == Ended(w, Rejected)
    ensures NoFaults(w, NoVerdict) ==> forall first :: Invoke(w, c, Force(first)).outcome == Completed
  {
    if NoFaults(w, NoVerdict) {
      forall first
        ensures Invoke(w, c, Force(first)).outcome == Completed
      {
        ForceCompletes(w, c, first);
      }
    }
  }

  lemma RemoveBothWorks(w: World, checkpointFirst: bool)
    requires NoFaults(w, NoVerdict)
    ensures (var removed := RemoveBoth(w, checkpointFirst);
      removed.signal == Fine && removed.world.disk == Blank && NoFaults(removed.world, NoVerdict))
  {
  }

  lemma CreateFilesWorks(w: World, c: Config)
    requires NoFaults(w, NoVerdict) && w.disk == Blank
    ensures (var created := CreateFiles(w, c);
      created.signal == Fine && NoFaults(created.world, NoVerdict) && At(created.world.disk, c, 0))
  {
  }

  lemma ForceCompletes(w: World, c: Config, checkpointFirst: bool)
    requires NoFaults(w, NoVerdict)
    ensures Invoke(w, c, Force(checkpointFirst)).outcome == Completed
    ensures Complete(Invoke(w, c, Force(checkpointFirst)).world.disk, c)
  {
    var removed := RemoveBoth(w, checkpointFirst);
    RemoveBothWorks(w, checkpointFirst);
    var created := CreateFiles(removed.world, c);
    CreateFilesWorks(removed.world, c);
    ContinueCompletes(created.world, c, 0);
  }

  lemma ContinueCompletes(w: World, c: Config, n: nat)
    requires n <= |c.hypotheses| && NoFaults(w, NoVerdict) && At(w.disk, c, n)
    ensures Continue(w, c, n).signal == Fine && Complete(Continue(w, c, n).world.disk, c)
  {
    JudgeFromFinishes(CheckpointWritten(w, c, Running, n).world, c, n);
    ContinueKeepsResumable(w, c, n);
  }

  // ---------------------------------------------------------------- any number of runs

  datatype Invocation = Invocation(mode: Mode, fates: seq<Fate>, answers: seq<Answer>)

  function AfterRun(d: Disk, c: Config, i: Invocation): Disk {
    Invoke(World(d, i.fates, i.answers), c, i.mode).world.disk
  }

  function AfterRuns(d: Disk, c: Config, runs: seq<Invocation>): Disk
    decreases |runs|
  {
    if runs == [] then d else AfterRuns(AfterRun(d, c, runs[0]), c, runs[1..])
  }

  /** However often a resumable run is stopped and resumed, its verdicts stay, each where it was. */
  lemma {:induction false} ResumesKeepVerdicts(d: Disk, c: Config, runs: seq<Invocation>)
    requires Resumable(d, c)
    requires forall i | 0 <= i < |runs| :: !runs[i].mode.Force?
    ensures Resumable(AfterRuns(d, c, runs), c)
    ensures Extends(RowsOf(AfterRuns(d, c, runs)), RowsOf(d))
    decreases |runs|
  {
    if runs != [] {
      var w := World(d, runs[0].fates, runs[0].answers);
      if runs[0].mode == Resume {
        ResumeKeepsVerdicts(w, c);
      }
      var next := AfterRun(d, c, runs[0]);
      ResumesKeepVerdicts(next, c, runs[1..]);
      ExtendsTransitive(RowsOf(AfterRuns(next, c, runs[1..])), RowsOf(next), RowsOf(d));
    }
  }

  /** Row `k` holds the answer that the `i`-th run, which appended it, got for it. */
  ghost predicate AnsweredBy(before: Disk, run: Invocation, k: nat, row: Row) {
    && run.mode == Resume && |RowsOf(before)| <= k
    && AnswerAt(World(before, run.fates, run.answers), k - |RowsOf(before)|, Verdict(false)) == Verdict(row.verdict)
  }

  /** Over any number of stops and resumes, each new row holds the answer that the run which appended it got for it. */
  lemma {:induction false} VerdictsAreAnswers(d: Disk, c: Config, runs: seq<Invocation>, k: nat) returns (i: nat)
    requires Resumable(d, c)
    requires forall j | 0 <= j < |runs| :: !runs[j].mode.Force?
    requires |RowsOf(d)| <= k < |RowsOf(AfterRuns(d, c, runs))|
    ensures i < |runs|
    ensures AnsweredBy(AfterRuns(d, c, runs[..i]), runs[i], k, RowsOf(AfterRuns(d, c, runs))[k])
    decreases |runs|
  {
    var next := AfterRun(d, c, runs[0]);
    ResumeLeavesResumable(d, c, runs[0]);
    if k < |RowsOf(next)| {
      ResumesKeepVerdicts(next, c, runs[1..]);
      FirstRunAnswers(d, c, runs[0], k, RowsOf(AfterRuns(next, c, runs[1..])));
      assert runs[..0] == [];
      i := 0;
    } else {
      var j := VerdictsAreAnswers(next, c, runs[1..], k);
      LaterRun(d, c, runs, j);
      i := j + 1;
    }
  }

  lemma ResumeLeavesResumable(d: Disk, c: Config, run: Invocation)
    requires Resumable(d, c) && !run.mode.Force?
    ensures Resumable(AfterRun(d, c, run), c)
    ensures run.mode != Resume ==> AfterRun(d, c, run) == d
  {
    if run.mode == Resume {
      ResumeKeepsVerdicts(World(d, run.fates, run.answers), c);
    }
  }

  lemma FirstRunAnswers(d: Disk, c: Config, run: Invocation, k: nat, rows: seq<Row>)
    requires Resumable(d, c) && !run.mode.Force?
    requires |RowsOf(d)| <= k < |RowsOf(AfterRun(d, c, run))| && Extends(rows, RowsOf(AfterRun(d, c, run)))
    ensures AnsweredBy(d, run, k, rows[k])
  {
    ResumeLeavesResumable(d, c, run);
    RunHoldsAnswers(World(d, run.fates, run.answers), c, run.mode);
    var after := RowsOf(AfterRun(d, c, run));
    assert rows[..|after|][k] == rows[k];
  }

  lemma LaterRun(d: Disk, c: Config, runs: seq<Invocation>, j: nat)
    requires runs != [] && j <= |runs[1..]|
    ensures AfterRuns(d, c, runs[..j + 1]) == AfterRuns(AfterRun(d, c, runs[0]), c, runs[1..][..j])
  {
    assert runs[..j + 1][1..] == runs[1..][..j] && runs[..j + 1][0] == runs[0];
  }

  /** What every run leaves, forced or not. */
  predicate Honest(d: Disk, c: Config) {
    Follows(RowsOf(d), c.hypotheses) && (d.checkpoint == None || CheckpointFits(d, c))
  }

  lemma RemoveBothKeepsHonest(w: World, c: Config, checkpointFirst: bool)
    requires Honest(w.disk, c)
    ensures Honest(RemoveBoth(w, checkpointFirst).world.disk, c)
  {
  }

  lemma CreateFilesKeepsHonest(w: World, c: Config)
    requires Honest(w.disk, c)
    ensures Honest(CreateFiles(w, c).world.disk, c)
    ensures CreateFiles(w, c).signal == Fine ==> At(CreateFiles(w, c).world.disk, c, 0)
  {
  }

  lemma RunKeepsHonest(w: World, c: Config, mode: Mode)
    requires Honest(w.disk, c)
    ensures Honest(Invoke(w, c, mode).world.disk, c)
    ensures Invoke(w, c, mode).outcome == Completed ==> Complete(Invoke(w, c, mode).world.disk, c)
  {
    if !Refused(w.disk, c, mode) {
      var prepared := Prepare(w, c, mode);
      match mode {
        case Resume =>
        case Fresh =>
          CreateFilesKeepsHonest(w, c);
        case Force(checkpointFirst) =>
          RemoveBothKeepsHonest(w, c, checkpointFirst);
          CreateFilesKeepsHonest(RemoveBoth(w, checkpointFirst).world, c);
      }
      if prepared.signal == Fine {
        ContinueKeepsResumable(prepared.world, c, RowsKept(w.disk, mode));
      }
    }
  }

  /** From no files at all, after any runs in any mode, the output is a run of first verdicts without repeats. */
  lemma {:induction false} RunsLeaveADistinctPrefix(d: Disk, c: Config, runs: seq<Invocation>)
    requires (d == Blank || Honest(d, c)) && WellFormed(c)
    ensures Honest(AfterRuns(d, c, runs), c)
    ensures (var rows := RowsOf(AfterRuns(d, c, runs));
      && |rows| <= |c.hypotheses|
      && (forall i | 0 <= i < |rows| :: rows[i].questionId == c.hypotheses[i].questionId)
      && (forall i, j | 0 <= i < j < |rows| :: rows[i].questionId != rows[j].questionId))
    ensures (var after := AfterRuns(d, c, runs);
      Resumable(after, c) <==> (after.checkpoint.Some? && after.checkpoint.value.completed <= |RowsOf(after)|))
    decreases |runs|
  {
    if runs != [] {
      RunKeepsHonest(World(d, runs[0].fates, runs[0].answers), c, runs[0].mode);
      RunsLeaveADistinctPrefix(AfterRun(d, c, runs[0]), c, runs[1..]);
    }
  }

  // ---------------------------------------------------------------- the program

  /** The two files, and what is to happen to the statements on them. */
  class JudgeRunner {
    var disk: Disk
    var fates: seq<Fate>
    var answers: seq<Answer>

    function Now(): World
      reads this
    {
      World(disk, fates, answers)
    }

    constructor (d: Disk, fates: seq<Fate>, answers: seq<Answer>)
      ensures Now() == World(d, fates, answers)
    {
      disk, this.fates, this.answers := d, fates, answers;
    }

    method Statement(after: Disk) returns (s: Signal)
      modifies this
      ensures Done(Now(), s) == Do(old(Now()), after)
    {
      var fate := NextFate(fates);
      fates := LaterFates(fates);
      if TakesEffect(fate) {
        disk := after;
      }
      s := SignalOf(fate);
    }

    method WriteCheckpoint(c: Config, status: Status, completed: nat) returns (s: Signal)
      modifies this
      ensures Done(Now(), s) == CheckpointWritten(old(Now()), c, status, completed)
    {
      s := Statement(disk.(checkpoint := Some(CheckpointOf(c, status, completed))));
    }

    method AppendJsonlRow(row: Row) returns (s: Signal)
      modifies this
      ensures Done(Now(), s) == RowAppended(old(Now()), row)
    {
      s := Statement(disk.(out := Some(RowsOf(disk) + [row])));
    }

    method CreateEmptyOutputFile() returns (s: Signal)
      modifies this
      ensures Done(Now(), s) == CreateEmpty(old(Now()))
    {
      if disk.out.Some? {
        return Error;
      }
      s := Statement(disk.(out := Some([])));
    }

    /** Runs the judge on one prompt. */
    method Ask() returns (a: Answer)
      modifies this
      ensures a == NextAnswer(old(Now()), Verdict(false)) && Now() == AfterAnswer(old(Now()))
    {
      a := if answers == [] then Verdict(false) else answers[0];
      answers := if answers == [] then [] else answers[1..];
    }

    /** The handler around one question: report, then fail whatever becomes of the report. */
    method ReportFailure(c: Config, n: nat) returns (s: Signal)
      modifies this
      ensures Done(Now(), s) == GiveUp(old(Now()), c, n)
    {
      s := WriteCheckpoint(c, Failing, n);
      if s != Dead {
        s := Error;
      }
    }

    /** Refuses to overwrite, or to resume without a fitting checkpoint; otherwise removes and creates the files. */
    method PrepareCheckpointedRun(c: Config, mode: Mode) returns (refused: bool, s: Signal)
      modifies this
      ensures refused <==> old(PreparationRefused(disk, c, mode))
      ensures if refused then Now() == old(Now()) else Done(Now(), s) == Prepare(old(Now()), c, mode)
    {
      refused, s := false, Fine;
      if mode == Resume {
        refused := !CheckpointFits(disk, c);
        return;
      }
      if mode == Fresh && (disk.out.Some? || disk.checkpoint.Some?) {
        refused := true;
        return;
      }
      if mode.Force? {
        s := Statement(if mode.checkpointFirst then disk.(checkpoint := None) else disk.(out := None));
        if s == Dead {
          return;
        }
        s := Statement(if mode.checkpointFirst then disk.(out := None) else disk.(checkpoint := None));
        if s == Dead {
          return;
        }
      }
      s := CreateEmptyOutputFile();
      if s != Fine {
        return;
      }
      s := WriteCheckpoint(c, Running, 0);
    }

    /** One pass of the loop; `completed` is how many questions have a verdict. */
    method JudgeHypothesis(c: Config, n: nat, completed: nat) returns (s: Signal)
      requires n < |c.hypotheses| && completed == n
      modifies this
      ensures Done(Now(), s) == JudgeOne(old(Now()), c, n)
    {
      var answer := Ask();
      if answer == NoVerdict {
        s := ReportFailure(c, completed);
        return;
      }
      s := AppendJsonlRow(RowFor(c.hypotheses[n], answer.verdict));
      if s == Fine {
        s := WriteCheckpoint(c, Running, completed + 1);
        if s == Error {
          s := ReportFailure(c, completed + 1);
        }
      } else if s == Error {
        s := ReportFailure(c, completed);
      }
    }

    /** The loop over the hypotheses, which skips those that have a verdict. */
    method JudgeRemaining(c: Config, evaluated: map<string, bool>) returns (s: Signal)
      requires DistinctQuestions(c.hypotheses) && |evaluated| <= |c.hypotheses|
      requires EvaluatedFirst(evaluated, c.hypotheses, |evaluated|)
      modifies this
      ensures Done(Now(), s) == JudgeFrom(old(Now()), c, |evaluated|)
      ensures RestAnswered(old(Now()), c, |evaluated|, disk)
    {
      JudgeFromIsAnswered(Now(), c, |evaluated|);
      var evaluatedById := evaluated;
      var i := 0;
      while i < |c.hypotheses|
        invariant 0 <= i <= |c.hypotheses| && i <= |evaluatedById| <= |c.hypotheses|
        invariant EvaluatedFirst(evaluatedById, c.hypotheses, |evaluatedById|)
        invariant JudgeFrom(old(Now()), c, |evaluated|) == JudgeFrom(Now(), c, |evaluatedById|)
      {
        var hypothesis := c.hypotheses[i];
        ghost var n := |evaluatedById|;
        if hypothesis.questionId !in evaluatedById {
          assert i == n;
          s := JudgeHypothesis(c, i, |evaluatedById|);
          if s != Fine {
            return;
          }
          OneMoreEvaluated(evaluatedById, c.hypotheses, n);
          evaluatedById := evaluatedById[hypothesis.questionId := true];
        }
        i := i + 1;
      }
      s := Fine;
    }

    method JudgeAll(c: Config, mode: Mode) returns (outcome: Outcome)
      modifies this
      ensures Ended(Now(), outcome)
           == if WellFormed(c) then Invoke(old(Now()), c, mode) else Ended(old(Now()), Rejected)
      ensures Answered(old(Now()), mode, disk)
    {
      RunHoldsAnswers(Now(), c, mode);
      var unique := HasUniqueIds(c.hypotheses);
      if !unique || c.hypotheses == [] || exists h :: h in c.hypotheses && h.questionId !in c.references {
        return Rejected;
      }
      var evaluated: map<string, bool> := map[];
      var refused, s := PrepareCheckpointedRun(c, mode);
      if refused {
        return Rejected;
      }
      if mode == Resume {
        var accepted, rows := ReadEvaluatedRowsByQuestionId(RowsOf(disk), c.hypotheses);
        if !accepted || disk.checkpoint.value.completed > |rows| {
          return Rejected;
        }
        evaluated := rows;
      }
      if s == Fine {
        s := ContinueRun(c, evaluated);
      }
      outcome := OutcomeOf(s);
    }

    /** A checkpoint, the questions left, and the last checkpoint. */
    method ContinueRun(c: Config, evaluated: map<string, bool>) returns (s: Signal)
      requires DistinctQuestions(c.hypotheses) && |evaluated| <= |c.hypotheses|
      requires EvaluatedFirst(evaluated, c.hypotheses, |evaluated|)
      modifies this
      ensures Done(Now(), s) == Continue(old(Now()), c, |evaluated|)
    {
      s := WriteCheckpoint(c, Running, |evaluated|);
      if s != Fine {
        return;
      }
      s := JudgeRemaining(c, evaluated);
      if s == Fine {
        s := WriteCheckpoint(c, Finished, |c.hypotheses|);
      }
    }
  }

  /** The questions with a verdict are the first `n`. */
  ghost predicate EvaluatedFirst(evaluated: map<string, bool>, hs: seq<Hypothesis>, n: nat) {
    && n <= |hs|
    && (forall i | 0 <= i < n :: hs[i].questionId in evaluated)
    && (forall q | q in evaluated :: exists i :: 0 <= i < n && hs[i].questionId == q)
  }

  lemma OneMoreEvaluated(evaluated: map<string, bool>, hs: seq<Hypothesis>, n: nat)
    requires n < |hs| && n == |evaluated| && DistinctQuestions(hs) && EvaluatedFirst(evaluated, hs, n)
    ensures hs[n].questionId !in evaluated
    ensures (var more := evaluated[hs[n].questionId := true];
      |more| == n + 1 && EvaluatedFirst(more, hs, n + 1))
  {
    var more := evaluated[hs[n].questionId := true];
    OneMore(evaluated, hs[n].questionId, true);
    forall q | q in more
      ensures exists i :: 0 <= i < n + 1 && hs[i].questionId == q
    {
      if q == hs[n].questionId {
        assert hs[n].questionId == q;
      } else {
        var i :| 0 <= i < n && hs[i].questionId == q;
      }
    }
  }

  method HasUniqueIds(hs: seq<Hypothesis>) returns (unique: bool)
    ensures unique <==> DistinctQuestions(hs)
  {
    var seen: set<string> := {};
    var i := 0;
    while i < |hs|
      invariant 0 <= i <= |hs| && DistinctQuestions(hs[..i])
      invariant forall k | 0 <= k < i :: hs[k].questionId in seen
      invariant forall q | q in seen :: exists k :: 0 <= k < i && hs[k].questionId == q
    {
      if hs[i].questionId in seen {
        return false;
      }
      seen := seen + {hs[i].questionId};
      i := i + 1;
    }
    assert hs[..|hs|] == hs;
    unique := true;
  }

  /** Every row must match the hypothesis in its place; as those are unique, no question can come twice. */
  method ReadEvaluatedRowsByQuestionId(rows: seq<Row>, hs: seq<Hypothesis>)
    returns (accepted: bool, rowsById: map<string, bool>)
    requires DistinctQuestions(hs)
    ensures accepted <==> Follows(rows, hs)
    ensures accepted ==> |rowsById| == |rows| && EvaluatedFirst(rowsById, hs, |rows|)
  {
    rowsById := map[];
    var i := 0;
    while i < |rows|
      invariant 0 <= i <= |rows| && i <= |hs| && |rowsById| == i
      invariant EvaluatedFirst(rowsById, hs, i)
      invariant forall k | 0 <= k < i :: rows[k] == RowFor(hs[k], rows[k].verdict)
    {
      if i >= |hs| || rows[i].questionId != hs[i].questionId || rows[i].text != hs[i].text {
        return false, rowsById;
      }
      OneMoreEvaluated(rowsById, hs, i);
      rowsById := rowsById[rows[i].questionId := true];
      i := i + 1;
    }
    accepted := true;
  }
}
