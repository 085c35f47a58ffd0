/**
  The two-phase batch: retrieve, read every question, then judge every reading.  A run is fresh,
  resumed or forced, and any of its statements may fail or be its last.
 */
module BatchRun {
  import opened Common
  import opened Sorting
  import opened Statements

  // A line is appended whole or not at all.  The checkpoint, the artifacts of the retrieval and the
  // summary are overwritten in place, so that a write that stops halfway leaves a torn file.
  // Resuming checks that the rows of each file belong to the questions and that none comes twice,
  // but not their order, so a run may go on from any such files.

  datatype Row = Row(questionId: string, text: string)

  /** A torn file cannot be read; neither can one of another version or of other options. */
  datatype FileState = Absent | Torn | Whole

  /** A file of rows is there once it has a row. */
  datatype Files = Files(
    checkpoint: FileState,
    fixture: FileState,
    report: FileState,
    hypotheses: seq<Row>,
    evaluations: seq<Row>,
    summary: FileState
  )

  datatype Managed = Checkpoint | Report | Fixture | Hypotheses | Evaluations | Summary

  /** A forced run removes all managed files at once; `order` is the order in which that happens. */
  datatype Mode = Fresh | Resume | Force(order: seq<Managed>)

  datatype Phase = Reader | Judge

  type World = Statements.World<Files, Option<string>>

  type Done = Statements.Done<Files, Option<string>>

  type Ended = Statements.Ended<Files, Option<string>>

  const BLANK := Files(Absent, Absent, Absent, [], [], Absent)

  // ---------------------------------------------------------------- rows

  function RowsOf(f: Files, p: Phase): seq<Row> {
    if p == Reader then f.hypotheses else f.evaluations
  }

  function WithRow(f: Files, p: Phase, row: Row): Files {
    if p == Reader then f.(hypotheses := f.hypotheses + [row]) else f.(evaluations := f.evaluations + [row])
  }

  predicate HasRow(rows: seq<Row>, q: string) {
    exists i :: 0 <= i < |rows| && rows[i].questionId == q
  }

  /** Each row belongs to a question, and no question has two. */
  ghost predicate Accepted(rows: seq<Row>, questions: seq<string>) {
    && (forall i | 0 <= i < |rows| :: rows[i].questionId in questions)
    && (forall i, j | 0 <= i < j < |rows| :: rows[i].questionId != rows[j].questionId)
  }

  /** Exactly one row for each question. */
  ghost predicate Complete(rows: seq<Row>, questions: seq<string>) {
    Accepted(rows, questions) && forall i | 0 <= i < |questions| :: HasRow(rows, questions[i])
  }

  /** The questions from `i` on that have no row, in order. */
  function Missing(rows: seq<Row>, questions: seq<string>, i: nat): seq<string>
    requires i <= |questions|
    decreases |questions| - i
  {
    if i == |questions| then []
    else if HasRow(rows, questions[i]) then Missing(rows, questions, i + 1)
    else [questions[i]] + Missing(rows, questions, i + 1)
  }

  function Ids(rows: seq<Row>): seq<string> {
    seq(|rows|, i requires 0 <= i < |rows| => rows[i].questionId)
  }

  // ---------------------------------------------------------------- statements

  function CheckpointWritten(w: World): Done {
    Overwrite(w, w.disk.(checkpoint := Whole), w.disk.(checkpoint := Torn))
  }

  function FixtureWritten(w: World): Done {
    Overwrite(w, w.disk.(fixture := Whole), w.disk.(fixture := Torn))
  }

  function ReportWritten(w: World): Done {
    Overwrite(w, w.disk.(report := Whole), w.disk.(report := Torn))
  }

  function SummaryWritten(w: World): Done {
    Overwrite(w, w.disk.(summary := Whole), w.disk.(summary := Torn))
  }

  /** A failed command is recorded in a checkpoint, and the run ends. */
  function GiveUp(w: World): Done {
    GivenUp(CheckpointWritten(w))
  }

  /** One question: mark it, ask, append the row, mark it done. */
  function AskOne(w: World, p: Phase, q: string): Done {
    var marked := CheckpointWritten(w);
    if marked.signal != Fine then marked else AnswerOne(marked.world, p, q)
  }

  function AnswerOne(w: World, p: Phase, q: string): Done {
    match NextAnswer(w, Some(""))
    case None => GiveUp(AfterAnswer(w))
    case Some(text) =>
      var appended := RowAppended(AfterAnswer(w), p, Row(q, text));
      if appended.signal != Fine then appended else CheckpointWritten(appended.world)
  }

  function RowAppended(w: World, p: Phase, row: Row): Done {
    Do(w, WithRow(w.disk, p, row))
  }

  /** The judge needs a hypothesis for the question before it looks whether there is a verdict. */
  predicate Judgeable(f: Files, p: Phase, q: string) {
    p == Judge ==> HasRow(f.hypotheses, q)
  }

  /** A phase from question `i` on. */
  function PhaseFrom(w: World, p: Phase, questions: seq<string>, i: nat): Done
    requires i <= |questions|
    decreases |questions| - i, 0
  {
    if i == |questions| then Done(w, Fine)
    else if !Judgeable(w.disk, p, questions[i]) then Done(w, Error)
    else if HasRow(RowsOf(w.disk, p), questions[i]) then PhaseFrom(w, p, questions, i + 1)
    else PhaseRest(AskOne(w, p, questions[i]), p, questions, i + 1)
  }

  function PhaseRest(one: Done, p: Phase, questions: seq<string>, i: nat): Done
    requires i <= |questions|
    decreases |questions| - i, 1
  {
    if one.signal != Fine then one else PhaseFrom(one.world, p, questions, i)
  }

  // ---------------------------------------------------------------- a run

  function Without(f: Files, m: Managed): Files {
    match m
    case Checkpoint => f.(checkpoint := Absent)
    case Report => f.(report := Absent)
    case Fixture => f.(fixture := Absent)
    case Hypotheses => f.(hypotheses := [])
    case Evaluations => f.(evaluations := [])
    case Summary => f.(summary := Absent)
  }

  /** A file that cannot be removed stays; only dying is noticed. */
  function RemoveAll(w: World, order: seq<Managed>): Done
    decreases |order|
  {
    if order == [] then Done(w, Fine)
    else
      var one := Do(w, Without(w.disk, order[0]));
      if one.signal == Dead then one else RemoveAll(one.world, order[1..])
  }

  /** A fresh run must find nothing, a resumed one a checkpoint that it can read. */
  predicate Refused(f: Files, mode: Mode) {
    match mode
    case Fresh => f != BLANK
    case Resume => f.checkpoint != Whole
    case Force(_) => false
  }

  predicate Retrieved(f: Files) {
    f.fixture != Absent && f.report != Absent
  }

  predicate ArtifactsWhole(f: Files) {
    f.fixture == Whole && f.report == Whole
  }

  /** A resumed run takes what artifacts there are; otherwise the retrieval writes both. */
  function Retrieve(w: World, mode: Mode): Done {
    if mode == Resume && Retrieved(w.disk) then Done(w, Fine)
    else
      var one := FixtureWritten(w);
      if one.signal != Fine then one else ReportWritten(one.world)
  }

  ghost function Invoke(w: World, questions: seq<string>, mode: Mode): Ended {
    if Refused(w.disk, mode) then Ended(w, Rejected)
    else
      var prepared := if mode.Force? then RemoveAll(w, mode.order) else Done(w, Fine);
      if prepared.signal != Fine then Ended(prepared.world, OutcomeOf(prepared.signal))
      else Start(prepared.world, questions, mode)
  }

  /** A first checkpoint and the retrieval, whose questions must be distinct. */
  ghost function Start(w: World, questions: seq<string>, mode: Mode): Ended {
    var marked := CheckpointWritten(w);
    if marked.signal != Fine then Ended(marked.world, OutcomeOf(marked.signal))
    else
      var retrieved := Retrieve(marked.world, mode);
      if retrieved.signal != Fine then Ended(retrieved.world, OutcomeOf(retrieved.signal))
      else if !ArtifactsWhole(retrieved.world.disk) || !Distinct(questions) then Ended(retrieved.world, Rejected)
      else ReadAndJudge(retrieved.world, questions)
  }

  /** Reading, then judging; each phase first checks the rows it finds. */
  ghost function ReadAndJudge(w: World, questions: seq<string>): Ended {
    if !Accepted(w.disk.hypotheses, questions) then Ended(w, Rejected)
    else
      var read := PhaseFrom(w, Reader, questions, 0);
      if read.signal != Fine then Ended(read.world, OutcomeOf(read.signal)) else JudgeAll(read.world, questions)
  }

  ghost function JudgeAll(w: World, questions: seq<string>): Ended {
    if !Accepted(w.disk.evaluations, questions) then Ended(w, Rejected)
    else
      var judged := PhaseFrom(w, Judge, questions, 0);
      var done := if judged.signal != Fine then judged else Finish(judged.world);
      Ended(done.world, OutcomeOf(done.signal))
  }

  /** The summary and the last checkpoint. */
  function Finish(w: World): Done {
    var summed := SummaryWritten(w);
    if summed.signal != Fine then summed else CheckpointWritten(summed.world)
  }

  // ---------------------------------------------------------------- one phase

  lemma AcceptedSnoc(rows: seq<Row>, row: Row, questions: seq<string>)
    requires Accepted(rows, questions) && row.questionId in questions && !HasRow(rows, row.questionId)
    ensures Accepted(rows + [row], questions)
  {
  }

  /** What a phase may do to the files: add acceptable rows to its own, and leave the other alone. */
  ghost predicate Grows(f: Files, g: Files, p: Phase, questions: seq<string>) {
    && RowsOf(f, p) <= RowsOf(g, p)
    && (Accepted(RowsOf(f, p), questions) ==> Accepted(RowsOf(g, p), questions))
    && (if p == Reader then g.evaluations == f.evaluations else g.hypotheses == f.hypotheses)
    && g.fixture == f.fixture && g.report == f.report
    && (f.checkpoint != Absent ==> g.checkpoint != Absent)
  }

  lemma GrowsOn(f: Files, g: Files, h: Files, p: Phase, questions: seq<string>)
    requires Grows(f, g, p, questions) && Grows(g, h, p, questions)
    ensures Grows(f, h, p, questions)
  {
  }

  lemma AppendGrows(f: Files, p: Phase, row: Row, questions: seq<string>)
    requires row.questionId in questions && !HasRow(RowsOf(f, p), row.questionId)
    ensures Grows(f, WithRow(f, p, row), p, questions)
    ensures Ids(RowsOf(WithRow(f, p, row), p)) == Ids(RowsOf(f, p)) + [row.questionId]
  {
    var rows := RowsOf(f, p);
    if Accepted(rows, questions) {
      AcceptedSnoc(rows, row, questions);
    }
    assert RowsOf(WithRow(f, p, row), p) == rows + [row];
  }

  lemma CheckpointGrows(w: World, p: Phase, questions: seq<string>)
    ensures Grows(w.disk, CheckpointWritten(w).world.disk, p, questions)
    ensures RowsOf(CheckpointWritten(w).world.disk, p) == RowsOf(w.disk, p)
  {
  }

  lemma AppendedGrows(w: World, p: Phase, row: Row, questions: seq<string>)
    requires row.questionId in questions && !HasRow(RowsOf(w.disk, p), row.questionId)
    ensures Grows(w.disk, RowAppended(w, p, row).world.disk, p, questions)
    ensures RowAppended(w, p, row).signal == Fine ==>
      Ids(RowsOf(RowAppended(w, p, row).world.disk, p)) == Ids(RowsOf(w.disk, p)) + [row.questionId]
  {
    AppendGrows(w.disk, p, row, questions);
  }

  lemma AnswerOneGrows(w: World, p: Phase, questions: seq<string>, q: string)
    requires q in questions && !HasRow(RowsOf(w.disk, p), q)
    ensures Grows(w.disk, AnswerOne(w, p, q).world.disk, p, questions)
    ensures AnswerOne(w, p, q).signal == Fine ==>
      Ids(RowsOf(AnswerOne(w, p, q).world.disk, p)) == Ids(RowsOf(w.disk, p)) + [q]
  {
    match NextAnswer(w, Some(""))
    case None =>
      CheckpointGrows(AfterAnswer(w), p, questions);
    case Some(text) =>
      var appended := RowAppended(AfterAnswer(w), p, Row(q, text));
      AppendedGrows(AfterAnswer(w), p, Row(q, text), questions);
      CheckpointGrows(appended.world, p, questions);
      GrowsOn(w.disk, appended.world.disk, CheckpointWritten(appended.world).world.disk, p, questions);
  }

  lemma AskOneGrows(w: World, p: Phase, questions: seq<string>, q: string)
    requires q in questions && !HasRow(RowsOf(w.disk, p), q)
    ensures Grows(w.disk, AskOne(w, p, q).world.disk, p, questions)
    ensures AskOne(w, p, q).signal == Fine ==>
      Ids(RowsOf(AskOne(w, p, q).world.disk, p)) == Ids(RowsOf(w.disk, p)) + [q]
  {
    var marked := CheckpointWritten(w);
    CheckpointGrows(w, p, questions);
    if marked.signal == Fine {
      AnswerOneGrows(marked.world, p, questions, q);
      GrowsOn(w.disk, marked.world.disk, AnswerOne(marked.world, p, q).world.disk, p, questions);
    }
  }

  lemma {:induction false} PhaseGrows(w: World, p: Phase, questions: seq<string>, i: nat)
    requires i <= |questions|
    ensures Grows(w.disk, PhaseFrom(w, p, questions, i).world.disk, p, questions)
    decreases |questions| - i
  {
    if i < |questions| && Judgeable(w.disk, p, questions[i]) {
      if HasRow(RowsOf(w.disk, p), questions[i]) {
        PhaseGrows(w, p, questions, i + 1);
      } else {
        var one := AskOne(w, p, questions[i]);
        AskOneGrows(w, p, questions, questions[i]);
        if one.signal == Fine {
          PhaseGrows(one.world, p, questions, i + 1);
          GrowsOn(w.disk, one.world.disk, PhaseFrom(one.world, p, questions, i + 1).world.disk, p, questions);
        }
      }
    }
  }

  lemma {:induction false} MissingAfter(rows: seq<Row>, more: seq<Row>, questions: seq<string>, i: nat, q: string)
    requires i <= |questions| && Ids(more) == Ids(rows) + [q] && forall k | i <= k < |questions| :: questions[k] != q
    ensures Missing(more, questions, i) == Missing(rows, questions, i)
    decreases |questions| - i
  {
    if i < |questions| {
      MissingAfter(rows, more, questions, i + 1, q);
      SameRowIds(rows, more, q, questions[i]);
    }
  }

  lemma SameRowIds(rows: seq<Row>, more: seq<Row>, q: string, x: string)
    requires Ids(more) == Ids(rows) + [q]
    ensures HasRow(more, x) <==> HasRow(rows, x) || x == q
  {
    HasRowById(rows, x);
    HasRowById(more, x);
  }

  /**
    A phase that ends well has added exactly the missing rows, in the
    order of the questions, whatever order it found.
   */
  lemma {:induction false} PhaseAddsTheMissing(w: World, p: Phase, questions: seq<string>, i: nat)
    requires i <= |questions| && Distinct(questions) && PhaseFrom(w, p, questions, i).signal == Fine
    ensures Ids(RowsOf(PhaseFrom(w, p, questions, i).world.disk, p))
         == Ids(RowsOf(w.disk, p)) + Missing(RowsOf(w.disk, p), questions, i)
    decreases |questions| - i
  {
    if i < |questions| {
      if HasRow(RowsOf(w.disk, p), questions[i]) {
        PhaseAddsTheMissing(w, p, questions, i + 1);
      } else {
        AskOneGrows(w, p, questions, questions[i]);
        var one := AskOne(w, p, questions[i]).world;
        PhaseAddsTheMissing(one, p, questions, i + 1);
        OneOfTheMissing(w.disk, one.disk, PhaseFrom(one, p, questions, i + 1).world.disk, p, questions, i);
      }
    }
  }

  lemma OneOfTheMissing(f: Files, g: Files, h: Files, p: Phase, questions: seq<string>, i: nat)
    requires i < |questions| && Distinct(questions) && !HasRow(RowsOf(f, p), questions[i])
    requires Ids(RowsOf(g, p)) == Ids(RowsOf(f, p)) + [questions[i]]
    requires Ids(RowsOf(h, p)) == Ids(RowsOf(g, p)) + Missing(RowsOf(g, p), questions, i + 1)
    ensures Ids(RowsOf(h, p)) == Ids(RowsOf(f, p)) + Missing(RowsOf(f, p), questions, i)
  {
    MissingAfter(RowsOf(f, p), RowsOf(g, p), questions, i + 1, questions[i]);
    Associative(Ids(RowsOf(f, p)), [questions[i]], Missing(RowsOf(f, p), questions, i + 1));
  }

  /** What one question does to the files, if it has no row yet. */
  ghost predicate OneDid(f: Files, g: Files, p: Phase, q: string, ended: bool) {
    !HasRow(RowsOf(f, p), q) ==>
      Grows(f, g, p, [q]) && (ended ==> Ids(RowsOf(g, p)) == Ids(RowsOf(f, p)) + [q])
  }

  lemma OneDoes(w: World, p: Phase, q: string)
    ensures OneDid(w.disk, AskOne(w, p, q).world.disk, p, q, AskOne(w, p, q).signal == Fine)
  {
    if !HasRow(RowsOf(w.disk, p), q) {
      AskOneGrows(w, p, [q], q);
    }
  }

  /** What a phase does to the files, and all that is left for it to do if it ends well. */
  ghost predicate PhaseDid(f: Files, g: Files, p: Phase, questions: seq<string>, ended: bool) {
    && Grows(f, g, p, questions)
    && (ended && Distinct(questions) ==>
          Ids(RowsOf(g, p)) == Ids(RowsOf(f, p)) + Missing(RowsOf(f, p), questions, 0))
  }

  lemma PhaseDoes(w: World, p: Phase, questions: seq<string>)
    ensures (var done := PhaseFrom(w, p, questions, 0);
      PhaseDid(w.disk, done.world.disk, p, questions, done.signal == Fine))
  {
    PhaseGrows(w, p, questions, 0);
    if Distinct(questions) && PhaseFrom(w, p, questions, 0).signal == Fine {
      PhaseAddsTheMissing(w, p, questions, 0);
    }
  }

  lemma {:induction false} MissingMembers(rows: seq<Row>, questions: seq<string>, i: nat, q: string)
    requires i <= |questions|
    ensures (q in Missing(rows, questions, i)
      <==> (!HasRow(rows, q) && exists k :: i <= k < |questions| && questions[k] == q))
    decreases |questions| - i
  {
    if i < |questions| {
      MissingMembers(rows, questions, i + 1, q);
    }
  }

  lemma HasRowById(rows: seq<Row>, q: string)
    ensures HasRow(rows, q) <==> q in Ids(rows)
  {
    assert forall i | 0 <= i < |rows| :: Ids(rows)[i] == rows[i].questionId;
    if HasRow(rows, q) {
      var i :| 0 <= i < |rows| && rows[i].questionId == q;
      assert Ids(rows)[i] == q;
    }
  }

  /** From any acceptable rows, in any order, a phase that ends well leaves exactly one row for each question. */
  lemma PhaseCompletes(w: World, p: Phase, questions: seq<string>)
    requires Distinct(questions) && Accepted(RowsOf(w.disk, p), questions)
    requires PhaseFrom(w, p, questions, 0).signal == Fine
    ensures Complete(RowsOf(PhaseFrom(w, p, questions, 0).world.disk, p), questions)
  {
    var rows, after := RowsOf(w.disk, p), RowsOf(PhaseFrom(w, p, questions, 0).world.disk, p);
    PhaseGrows(w, p, questions, 0);
    PhaseAddsTheMissing(w, p, questions, 0);
    forall i | 0 <= i < |questions|
      ensures HasRow(after, questions[i])
    {
      MissingMembers(rows, questions, 0, questions[i]);
      HasRowById(rows, questions[i]);
      HasRowById(after, questions[i]);
    }
  }

  // ---------------------------------------------------------------- whole runs

  /** Acceptable rows, and verdicts only once every question has been read. */
  ghost predicate Honest(f: Files, questions: seq<string>) {
    && Accepted(f.hypotheses, questions) && Accepted(f.evaluations, questions)
    && (f.evaluations != [] ==> Complete(f.hypotheses, questions))
  }

  ghost predicate Extends(f: Files, g: Files) {
    f.hypotheses <= g.hypotheses && f.evaluations <= g.evaluations
  }

  /** One row per question in both files, and every other file readable. */
  ghost predicate Finished(f: Files, questions: seq<string>) {
    && Complete(f.hypotheses, questions) && Complete(f.evaluations, questions)
    && ArtifactsWhole(f) && f.summary == Whole && f.checkpoint == Whole
  }

  /** What a run makes of the rows it starts from. */
  ghost predicate KeepsRows(f: Files, e: Ended, questions: seq<string>) {
    && Honest(e.world.disk, questions) && Extends(f, e.world.disk)
    && (e.outcome == Completed ==> Finished(e.world.disk, questions))
  }

  lemma CompleteStays(rows: seq<Row>, more: seq<Row>, questions: seq<string>)
    requires Complete(rows, questions) && rows <= more && Accepted(more, questions)
    ensures Complete(more, questions)
  {
    forall i | 0 <= i < |questions|
      ensures HasRow(more, questions[i])
    {
      var k :| 0 <= k < |rows| && rows[k].questionId == questions[i];
      assert more[k].questionId == questions[i];
    }
  }

  lemma ReaderKeepsHonest(w: World, questions: seq<string>)
    requires Honest(w.disk, questions)
    ensures (var f := PhaseFrom(w, Reader, questions, 0).world.disk; Honest(f, questions) && Extends(w.disk, f))
  {
    PhaseGrows(w, Reader, questions, 0);
    if w.disk.evaluations != [] {
      CompleteStays(w.disk.hypotheses, PhaseFrom(w, Reader, questions, 0).world.disk.hypotheses, questions);
    }
  }

  lemma JudgeKeepsHonest(w: World, questions: seq<string>)
    requires Honest(w.disk, questions) && Complete(w.disk.hypotheses, questions)
    ensures (var f := PhaseFrom(w, Judge, questions, 0).world.disk; Honest(f, questions) && Extends(w.disk, f))
  {
    PhaseGrows(w, Judge, questions, 0);
  }

  lemma FinishTouchesNoRows(w: World)
    ensures (var f, done := w.disk, Finish(w);
      && done.world.disk == f.(summary := done.world.disk.summary, checkpoint := done.world.disk.checkpoint)
      && (f.checkpoint != Absent ==> done.world.disk.checkpoint != Absent)
      && (done.signal == Fine ==> done.world.disk.summary == Whole && done.world.disk.checkpoint == Whole))
  {
  }

  lemma JudgeAllKeepsRows(w: World, questions: seq<string>)
    requires Distinct(questions) && ArtifactsWhole(w.disk)
    requires Honest(w.disk, questions) && Complete(w.disk.hypotheses, questions)
    ensures KeepsRows(w.disk, JudgeAll(w, questions), questions)
    ensures JudgeAll(w, questions).outcome != Rejected
  {
    JudgeKeepsHonest(w, questions);
    PhaseGrows(w, Judge, questions, 0);
    var judged := PhaseFrom(w, Judge, questions, 0);
    if judged.signal == Fine {
      PhaseCompletes(w, Judge, questions);
      FinishTouchesNoRows(judged.world);
    }
  }

  lemma ReadAndJudgeKeepsRows(w: World, questions: seq<string>)
    requires Distinct(questions) && Honest(w.disk, questions) && ArtifactsWhole(w.disk)
    ensures KeepsRows(w.disk, ReadAndJudge(w, questions), questions)
    ensures ReadAndJudge(w, questions).outcome != Rejected
  {
    ReaderKeepsHonest(w, questions);
    PhaseGrows(w, Reader, questions, 0);
    var read := PhaseFrom(w, Reader, questions, 0);
    if read.signal == Fine {
      PhaseCompletes(w, Reader, questions);
      JudgeAllKeepsRows(read.world, questions);
    }
  }

  /** What comes before the phases touches no rows. */
  lemma StartKeepsRows(w: World, questions: seq<string>, mode: Mode)
    requires Honest(w.disk, questions)
    ensures KeepsRows(w.disk, Start(w, questions, mode), questions)
  {
    var marked := CheckpointWritten(w);
    if marked.signal == Fine {
      var retrieved := Retrieve(marked.world, mode);
      assert retrieved.world.disk.hypotheses == w.disk.hypotheses;
      assert retrieved.world.disk.evaluations == w.disk.evaluations;
      if retrieved.signal == Fine && ArtifactsWhole(retrieved.world.disk) && Distinct(questions) {
        ReadAndJudgeKeepsRows(retrieved.world, questions);
      }
    }
  }

  /**
    Whatever becomes of its statements, a fresh or resumed run keeps every row of both files where it
    is, repeats none, judges nothing before all is read, and completes only with one row per question.
   */
  lemma RunKeepsRows(w: World, questions: seq<string>, mode: Mode)
    requires Honest(w.disk, questions) && !mode.Force?
    ensures KeepsRows(w.disk, Invoke(w, questions, mode), questions)
  {
    if !Refused(w.disk, mode) {
      StartKeepsRows(w, questions, mode);
    }
  }

  datatype Attempt = Attempt(mode: Mode, fates: seq<Fate>, answers: seq<Option<string>>)

  ghost function AfterAttempt(f: Files, questions: seq<string>, a: Attempt): Files {
    Invoke(World(f, a.fates, a.answers), questions, a.mode).world.disk
  }

  ghost function AfterAttempts(f: Files, questions: seq<string>, attempts: seq<Attempt>): Files
    decreases |attempts|
  {
    if attempts == [] then f else AfterAttempts(AfterAttempt(f, questions, attempts[0]), questions, attempts[1..])
  }

  ghost predicate NoneForced(attempts: seq<Attempt>) {
    forall i | 0 <= i < |attempts| :: !attempts[i].mode.Force?
  }

  /** The same over any number of stops and resumes, from the empty directory on. */
  lemma {:induction false} AttemptsKeepRows(f: Files, questions: seq<string>, attempts: seq<Attempt>)
    requires (f == BLANK || Honest(f, questions)) && NoneForced(attempts)
    ensures Honest(AfterAttempts(f, questions, attempts), questions)
    ensures Extends(f, AfterAttempts(f, questions, attempts))
    decreases |attempts|
  {
    if attempts != [] {
      RunKeepsRows(World(f, attempts[0].fates, attempts[0].answers), questions, attempts[0].mode);
      AttemptsKeepRows(AfterAttempt(f, questions, attempts[0]), questions, attempts[1..]);
    }
  }

  // ---------------------------------------------------------------- when a run can go on

  /** Both artifacts are there, so that they are not written again, but one cannot be read. */
  predicate Damaged(f: Files) {
    Retrieved(f) && !ArtifactsWhole(f)
  }

  predicate Resumable(f: Files) {
    f.checkpoint == Whole && !Damaged(f)
  }

  /** Something is there, but nothing to go on from. */
  predicate Stuck(f: Files) {
    f != BLANK && !Resumable(f)
  }

  /**
    Whatever rows earlier runs have left, a resumed run is refused exactly when its checkpoint cannot
    be read, or an artifact cannot once the checkpoint has been written.
   */
  lemma ResumeIsRejectedIff(w: World, questions: seq<string>)
    requires Distinct(questions) && Honest(w.disk, questions)
    ensures Invoke(w, questions, Resume).outcome == Rejected
      <==> w.disk.checkpoint != Whole || (Damaged(w.disk) && CheckpointWritten(w).signal == Fine)
  {
    var marked := CheckpointWritten(w);
    if w.disk.checkpoint == Whole && marked.signal == Fine {
      var retrieved := Retrieve(marked.world, Resume);
      if retrieved.signal == Fine && ArtifactsWhole(retrieved.world.disk) {
        ReadAndJudgeKeepsRows(retrieved.world, questions);
      }
    }
  }

  /** A stuck run stays stuck, with the rows it has, whatever is tried but force. */
  lemma StuckRunDoesNothing(w: World, questions: seq<string>, mode: Mode)
    requires Stuck(w.disk) && !mode.Force?
    ensures (var e := Invoke(w, questions, mode);
      && e.outcome != Completed && Stuck(e.world.disk)
      && e.world.disk.hypotheses == w.disk.hypotheses && e.world.disk.evaluations == w.disk.evaluations
      && (w.disk.checkpoint != Whole ==> e == Ended(w, Rejected)))
  {
  }

  lemma {:induction false} StuckStays(f: Files, questions: seq<string>, attempts: seq<Attempt>)
    requires Stuck(f) && NoneForced(attempts)
    ensures (var g := AfterAttempts(f, questions, attempts);
      && Stuck(g) && g.hypotheses == f.hypotheses && g.evaluations == f.evaluations
      && (f.checkpoint != Whole ==> g == f))
    decreases |attempts|
  {
    if attempts != [] {
      StuckRunDoesNothing(World(f, attempts[0].fates, attempts[0].answers), questions, attempts[0].mode);
      StuckStays(AfterAttempt(f, questions, attempts[0]), questions, attempts[1..]);
    }
  }

  /** One checkpoint cut off, the first of a resumed run, and nothing but force goes on from there. */
  lemma CutOffCheckpointEndsIt(f: Files, questions: seq<string>, cut: Fate, later: seq<Fate>,
                               answers: seq<Option<string>>, attempts: seq<Attempt>, next: Attempt)
    requires f.checkpoint == Whole && CutsOff(cut) && NoneForced(attempts) && !next.mode.Force?
    ensures (var e := Invoke(World(f, [cut] + later, answers), questions, Resume);
      var g := AfterAttempts(e.world.disk, questions, attempts);
      && e.outcome == OutcomeOf(SignalOf(cut)) && g == f.(checkpoint := Torn)
      && Invoke(World(g, next.fates, next.answers), questions, next.mode).outcome == Rejected)
  {
    var w := World(f, [cut] + later, answers);
    assert NextFate(w.fates) == cut;
    var torn := f.(checkpoint := Torn);
    assert Invoke(w, questions, Resume).world.disk == torn;
    StuckStays(torn, questions, attempts);
    StuckRunDoesNothing(World(torn, next.fates, next.answers), questions, next.mode);
  }

  /** So does a report cut off, although its checkpoint can be read. */
  lemma CutOffReportEndsIt(questions: seq<string>, cut: Fate, answers: seq<Option<string>>, attempts: seq<Attempt>)
    requires CutsOff(cut) && NoneForced(attempts)
    ensures (var f := Invoke(World(BLANK, [Works, Works, cut], answers), questions, Fresh).world.disk;
      && f == BLANK.(checkpoint := Whole, fixture := Whole, report := Torn)
      && Stuck(AfterAttempts(f, questions, attempts)))
  {
    var w := World(BLANK, [Works, Works, cut], answers);
    var marked := CheckpointWritten(w).world;
    assert marked == World(BLANK.(checkpoint := Whole), [Works, cut], answers);
    var half := FixtureWritten(marked).world;
    assert half == World(BLANK.(checkpoint := Whole, fixture := Whole), [cut], answers);
    StuckStays(ReportWritten(half).world.disk, questions, attempts);
  }

  /** A fresh run leaves nothing exactly when its first checkpoint touches nothing, and a checkpoint otherwise. */
  lemma FreshRunLeaves(w: World, questions: seq<string>)
    requires w.disk == BLANK
    ensures (var f := Invoke(w, questions, Fresh).world.disk;
      && Honest(f, questions)
      && (f == BLANK <==> !TakesEffect(NextFate(w.fates)) && !CutsOff(NextFate(w.fates)))
      && (f == BLANK || f.checkpoint != Absent))
  {
    RunKeepsRows(w, questions, Fresh);
    StartLeavesACheckpoint(w, questions, Fresh);
  }

  /** What both phases may do to the files, whatever they find. */
  ghost predicate Outgrows(f: Files, g: Files, questions: seq<string>) {
    && Extends(f, g)
    && (Accepted(f.hypotheses, questions) ==> Accepted(g.hypotheses, questions))
    && (Accepted(f.evaluations, questions) ==> Accepted(g.evaluations, questions))
    && (f.checkpoint != Absent ==> g.checkpoint != Absent)
  }

  lemma JudgeAllOutgrows(w: World, questions: seq<string>)
    ensures Outgrows(w.disk, JudgeAll(w, questions).world.disk, questions)
  {
    PhaseGrows(w, Judge, questions, 0);
    FinishTouchesNoRows(PhaseFrom(w, Judge, questions, 0).world);
  }

  lemma ReadAndJudgeOutgrows(w: World, questions: seq<string>)
    ensures Outgrows(w.disk, ReadAndJudge(w, questions).world.disk, questions)
  {
    PhaseGrows(w, Reader, questions, 0);
    JudgeAllOutgrows(PhaseFrom(w, Reader, questions, 0).world, questions);
  }

  lemma StartOutgrows(w: World, questions: seq<string>, mode: Mode)
    ensures Outgrows(w.disk, Start(w, questions, mode).world.disk, questions)
  {
    var marked := CheckpointWritten(w);
    if marked.signal == Fine {
      var retrieved := Retrieve(marked.world, mode);
      assert Outgrows(w.disk, retrieved.world.disk, questions);
      ReadAndJudgeOutgrows(retrieved.world, questions);
    }
  }

  lemma StartLeavesACheckpoint(w: World, questions: seq<string>, mode: Mode)
    ensures if TakesEffect(NextFate(w.fates)) || CutsOff(NextFate(w.fates)) then
              Start(w, questions, mode).world.disk.checkpoint != Absent
            else Start(w, questions, mode).world.disk == w.disk
  {
    var marked := CheckpointWritten(w);
    if marked.signal == Fine {
      ReadAndJudgeOutgrows(Retrieve(marked.world, mode).world, questions);
    }
  }

  // ---------------------------------------------------------------- without faults

  lemma AskOneWorks(w: World, p: Phase, q: string)
    requires NoFaults(w, None)
    ensures AskOne(w, p, q).signal == Fine && NoFaults(AskOne(w, p, q).world, None)
    ensures p == Judge ==> AskOne(w, p, q).world.disk.hypotheses == w.disk.hypotheses
  {
  }

  lemma {:induction false} PhaseWorks(w: World, p: Phase, questions: seq<string>, i: nat)
    requires i <= |questions| && NoFaults(w, None)
    requires p == Judge ==> forall k | 0 <= k < |questions| :: HasRow(w.disk.hypotheses, questions[k])
    ensures PhaseFrom(w, p, questions, i).signal == Fine && NoFaults(PhaseFrom(w, p, questions, i).world, None)
    decreases |questions| - i
  {
    if i < |questions| {
      if HasRow(RowsOf(w.disk, p), questions[i]) {
        PhaseWorks(w, p, questions, i + 1);
      } else {
        AskOneWorks(w, p, questions[i]);
        PhaseWorks(AskOne(w, p, questions[i]).world, p, questions, i + 1);
      }
    }
  }

  lemma ReadAndJudgeCompletesIff(w: World, questions: seq<string>)
    requires NoFaults(w, None) && Distinct(questions)
    ensures ReadAndJudge(w, questions).outcome == Completed
      <==> Accepted(w.disk.hypotheses, questions) && Accepted(w.disk.evaluations, questions)
  {
    if Accepted(w.disk.hypotheses, questions) {
      PhaseWorks(w, Reader, questions, 0);
      PhaseGrows(w, Reader, questions, 0);
      PhaseCompletes(w, Reader, questions);
      var read := PhaseFrom(w, Reader, questions, 0);
      if Accepted(w.disk.evaluations, questions) {
        PhaseWorks(read.world, Judge, questions, 0);
      }
    }
  }

  lemma StartCompletesIff(w: World, questions: seq<string>, mode: Mode)
    requires NoFaults(w, None)
    ensures Start(w, questions, mode).outcome == Completed
      <==> (!(mode == Resume && Damaged(w.disk)) && Distinct(questions)
            && Accepted(w.disk.hypotheses, questions) && Accepted(w.disk.evaluations, questions))
  {
    var marked := CheckpointWritten(w);
    var retrieved := Retrieve(marked.world, mode);
    assert marked.signal == Fine && NoFaults(marked.world, None);
    assert retrieved.signal == Fine && NoFaults(retrieved.world, None);
    if Distinct(questions) {
      ReadAndJudgeCompletesIff(retrieved.world, questions);
    }
  }

  /** Nothing is left of a managed file. */
  predicate Gone(f: Files, m: Managed) {
    Without(f, m) == f
  }

  lemma {:induction false} RemoveAllWorks(w: World, order: seq<Managed>)
    requires NoFaults(w, None)
    ensures (var removed := RemoveAll(w, order);
      && removed.signal == Fine && NoFaults(removed.world, None)
      && (forall m | m in order || Gone(w.disk, m) :: Gone(removed.world.disk, m))
      && (Evaluations !in order ==> removed.world.disk.evaluations == w.disk.evaluations))
    decreases |order|
  {
    if order != [] {
      var one := Do(w, Without(w.disk, order[0]));
      assert forall m | m == order[0] || Gone(w.disk, m) :: Gone(one.world.disk, m);
      RemoveAllWorks(one.world, order[1..]);
      assert order == [order[0]] + order[1..];
    }
  }

  /** Without faults, a run completes exactly when its questions are distinct and what it starts from can be used. */
  lemma RunCompletesIff(w: World, questions: seq<string>, mode: Mode)
    requires NoFaults(w, None) && (mode.Force? ==> forall m: Managed :: m in mode.order)
    ensures Invoke(w, questions, mode).outcome == Completed
      <==> Distinct(questions) && match mode
                                  case Fresh => w.disk == BLANK
                                  case Resume =>
                                    && Resumable(w.disk) && Accepted(w.disk.hypotheses, questions)
                                    && Accepted(w.disk.evaluations, questions)
                                  case Force(_) => true
  {
    if !Refused(w.disk, mode) {
      if mode.Force? {
        RemoveAllWorks(w, mode.order);
        var removed := RemoveAll(w, mode.order).world;
        assert Gone(removed.disk, Checkpoint) && Gone(removed.disk, Report) && Gone(removed.disk, Fixture);
        assert Gone(removed.disk, Hypotheses) && Gone(removed.disk, Evaluations) && Gone(removed.disk, Summary);
        assert removed.disk == BLANK;
        StartCompletesIff(removed, questions, mode);
      } else {
        StartCompletesIff(w, questions, mode);
      }
    }
  }

  // ---------------------------------------------------------------- forced runs

  lemma {:induction false} RemovedOrKept(w: World, order: seq<Managed>)
    ensures (var f := RemoveAll(w, order).world.disk;
      && (f.hypotheses == w.disk.hypotheses || f.hypotheses == [])
      && (f.evaluations == w.disk.evaluations || f.evaluations == []))
    ensures RemoveAll(w, order).signal != Error
    decreases |order|
  {
    if order != [] {
      RemovedOrKept(Do(w, Without(w.disk, order[0])).world, order[1..]);
    }
  }

  /** A forced run, too, leaves acceptable rows: each file goes on from what it had, or from nothing. */
  lemma ForceKeepsAccepted(w: World, questions: seq<string>, order: seq<Managed>)
    requires Accepted(w.disk.hypotheses, questions) && Accepted(w.disk.evaluations, questions)
    ensures (var removed, f := RemoveAll(w, order).world.disk, Invoke(w, questions, Force(order)).world.disk;
      && Accepted(f.hypotheses, questions) && Accepted(f.evaluations, questions) && Extends(removed, f)
      && (removed.hypotheses == w.disk.hypotheses || removed.hypotheses == [])
      && (removed.evaluations == w.disk.evaluations || removed.evaluations == []))
  {
    RemovedOrKept(w, order);
    var removed := RemoveAll(w, order);
    if removed.signal == Fine {
      StartOutgrows(removed.world, questions, Force(order));
    }
  }

  lemma {:induction false} NothingIsMissing(rows: seq<Row>, questions: seq<string>, i: nat)
    requires i <= |questions| && Complete(rows, questions)
    ensures Missing(rows, questions, i) == []
    decreases |questions| - i
  {
    if i < |questions| {
      NothingIsMissing(rows, questions, i + 1);
    }
  }

  lemma {:induction false} AllIsMissing(questions: seq<string>, i: nat)
    requires i <= |questions|
    ensures Missing([], questions, i) == questions[i..]
    decreases |questions| - i
  {
    if i < |questions| {
      AllIsMissing(questions, i + 1);
    }
  }

  /** A run that completes has added exactly the missing rows to what was there when it started. */
  lemma StartAddsTheMissing(w: World, questions: seq<string>, mode: Mode)
    requires Start(w, questions, mode).outcome == Completed
    ensures (var f := Start(w, questions, mode).world.disk;
      && Ids(f.hypotheses) == Ids(w.disk.hypotheses) + Missing(w.disk.hypotheses, questions, 0)
      && Ids(f.evaluations) == Ids(w.disk.evaluations) + Missing(w.disk.evaluations, questions, 0))
  {
    var retrieved := Retrieve(CheckpointWritten(w).world, mode).world;
    assert retrieved.disk.hypotheses == w.disk.hypotheses && retrieved.disk.evaluations == w.disk.evaluations;
    var read := PhaseFrom(retrieved, Reader, questions, 0).world;
    PhaseAddsTheMissing(retrieved, Reader, questions, 0);
    PhaseGrows(retrieved, Reader, questions, 0);
    PhaseAddsTheMissing(read, Judge, questions, 0);
    PhaseGrows(read, Judge, questions, 0);
  }

  /**
    Removing files is best effort.  If only the old verdicts cannot be removed, a forced run reads
    every question anew and completes with the verdicts on the old readings.
   */
  lemma FailedRemovalKeepsOldVerdicts(f: Files, questions: seq<string>, rest: seq<Managed>,
                                      answers: seq<Option<string>>)
    requires Distinct(questions) && Complete(f.evaluations, questions)
    requires Evaluations !in rest && forall m: Managed :: m == Evaluations || m in rest
    requires forall i | 0 <= i < |answers| :: answers[i] != None
    ensures (var e := Invoke(World(f, [Fails], answers), questions, Force([Evaluations] + rest));
      && e.outcome == Completed && e.world.disk.evaluations == f.evaluations
      && Ids(e.world.disk.hypotheses) == questions)
  {
    var order, w := [Evaluations] + rest, World(f, [Fails], answers);
    var after: World := World(f, [], answers);
    assert order[0] == Evaluations && order[1..] == rest;
    assert RemoveAll(w, order) == RemoveAll(after, rest);
    RemoveAllWorks(after, rest);
    var removed := RemoveAll(after, rest).world;
    assert Gone(removed.disk, Hypotheses);
    StartOverOldVerdicts(removed, questions, Force(order));
  }

  lemma StartOverOldVerdicts(w: World, questions: seq<string>, mode: Mode)
    requires NoFaults(w, None) && mode != Resume && Distinct(questions)
    requires w.disk.hypotheses == [] && Complete(w.disk.evaluations, questions)
    ensures (var e := Start(w, questions, mode);
      && e.outcome == Completed && e.world.disk.evaluations == w.disk.evaluations
      && Ids(e.world.disk.hypotheses) == questions)
  {
    StartCompletesIff(w, questions, mode);
    StartAddsTheMissing(w, questions, mode);
    StartOutgrows(w, questions, mode);
    NothingIsMissing(w.disk.evaluations, questions, 0);
    AllIsMissing(questions, 0);
    var f := Start(w, questions, mode).world.disk;
    assert |f.evaluations| == |Ids(f.evaluations)| == |w.disk.evaluations|;
  }

  // ---------------------------------------------------------------- what the rows say

  /** From place `n` on, each row holds the text that its command answered, the first after `used` others. */
  ghost predicate HoldsAnswers(w: World, used: nat, n: nat, rows: seq<Row>) {
    forall k | n <= k < |rows| :: AnswerAt(w, used + k - n, Some("")) == Some(rows[k].text)
  }

  /** `used` answers have been taken. */
  ghost predicate Took(w: World, w': World, used: nat) {
    forall i: nat :: AnswerAt(w', i, Some("")) == AnswerAt(w, used + i, Some(""))
  }

  /** One question adds its row with the text answered, or none and ends the run. */
  lemma AskOneAnswers(w: World, p: Phase, q: string)
    ensures (var one, rows := AskOne(w, p, q), RowsOf(w.disk, p);
      && (one.signal == Fine ==> one.world.answers == AfterAnswer(w).answers)
      && match NextAnswer(w, Some(""))
         case None => RowsOf(one.world.disk, p) == rows && one.signal != Fine
         case Some(text) =>
           || RowsOf(one.world.disk, p) == rows + [Row(q, text)]
           || (RowsOf(one.world.disk, p) == rows && one.signal != Fine))
  {
  }

  lemma OneHoldsAnswers(w: World, p: Phase, q: string)
    ensures Answers(w, p, AskOne(w, p, q))
    ensures AskOne(w, p, q).signal == Fine ==>
      |RowsOf(AskOne(w, p, q).world.disk, p)| == |RowsOf(w.disk, p)| + 1
  {
    AskOneAnswers(w, p, q);
    AnswersInOrder(w, 0, Some(""));
  }

  /** One row more of a stretch whose first row is right. */
  lemma RestHoldsAnswers(w: World, one: World, n: nat, first: seq<Row>, rows: seq<Row>)
    requires Took(w, one, 1) && |first| == n + 1 && first <= rows
    requires HoldsAnswers(w, 0, n, first) && HoldsAnswers(one, 0, n + 1, rows)
    ensures HoldsAnswers(w, 0, n, rows)
  {
    forall k | n <= k < |rows|
      ensures AnswerAt(w, k - n, Some("")) == Some(rows[k].text)
    {
      if k == n {
        assert rows[n] == first[n];
      } else {
        assert AnswerAt(one, k - n - 1, Some("")) == AnswerAt(w, 1 + (k - n - 1), Some(""));
      }
    }
  }

  /** A stretch of a phase: new rows hold the answers from the first on, and each took one. */
  ghost predicate Answers(w: World, p: Phase, done: Done) {
    var rows, after := RowsOf(w.disk, p), RowsOf(done.world.disk, p);
    && rows <= after && HoldsAnswers(w, 0, |rows|, after)
    && (done.signal == Fine ==> Took(w, done.world, |after| - |rows|))
  }

  lemma AnswersOn(w: World, p: Phase, one: Done, done: Done)
    requires Answers(w, p, one) && one.signal == Fine && Answers(one.world, p, done)
    requires |RowsOf(one.world.disk, p)| == |RowsOf(w.disk, p)| + 1
    ensures Answers(w, p, done)
  {
    var n := |RowsOf(w.disk, p)|;
    RestHoldsAnswers(w, one.world, n, RowsOf(one.world.disk, p), RowsOf(done.world.disk, p));
    if done.signal == Fine {
      TookMore(w, one.world, done.world, 1, |RowsOf(done.world.disk, p)| - (n + 1));
    }
  }

  lemma NoAnswers(w: World, p: Phase, signal: Signal)
    ensures Answers(w, p, Done(w, signal))
  {
    var rows := RowsOf(w.disk, p);
    assert HoldsAnswers(w, 0, |rows|, rows) && Took(w, w, 0);
  }

  lemma {:induction false} PhaseHoldsAnswers(w: World, p: Phase, questions: seq<string>, i: nat)
    requires i <= |questions|
    ensures Answers(w, p, PhaseFrom(w, p, questions, i))
    decreases |questions| - i, 0
  {
    if i == |questions| || !Judgeable(w.disk, p, questions[i]) {
      NoAnswers(w, p, if i == |questions| then Fine else Error);
    } else if HasRow(RowsOf(w.disk, p), questions[i]) {
      PhaseHoldsAnswers(w, p, questions, i + 1);
    } else {
      OneHoldsAnswers(w, p, questions[i]);
      RestOfPhaseHoldsAnswers(w, AskOne(w, p, questions[i]), p, questions, i + 1);
    }
  }

  lemma {:induction false} RestOfPhaseHoldsAnswers(w: World, one: Done, p: Phase, questions: seq<string>, i: nat)
    requires i <= |questions| && Answers(w, p, one)
    requires one.signal == Fine ==> |RowsOf(one.world.disk, p)| == |RowsOf(w.disk, p)| + 1
    ensures Answers(w, p, PhaseRest(one, p, questions, i))
    decreases |questions| - i, 1
  {
    if one.signal == Fine {
      PhaseHoldsAnswers(one.world, p, questions, i);
      AnswersOn(w, p, one, PhaseFrom(one.world, p, questions, i));
    }
  }

  lemma TookMore(w: World, one: World, after: World, a: nat, b: nat)
    requires Took(w, one, a) && Took(one, after, b)
    ensures Took(w, after, a + b)
  {
    forall i: nat
      ensures AnswerAt(after, i, Some("")) == AnswerAt(w, a + b + i, Some(""))
    {
      assert AnswerAt(one, b + i, Some("")) == AnswerAt(w, a + (b + i), Some(""));
    }
  }

  /** The new readings hold the first answers of the run, and the new verdicts those after them. */
  ghost predicate Answered(w: World, before: Files, after: Files) {
    && |before.hypotheses| <= |after.hypotheses|
    && HoldsAnswers(w, 0, |before.hypotheses|, after.hypotheses)
    && HoldsAnswers(w, |after.hypotheses| - |before.hypotheses|, |before.evaluations|, after.evaluations)
  }

  lemma HoldsLater(w: World, read: World, used: nat, n: nat, rows: seq<Row>)
    requires Took(w, read, used) && HoldsAnswers(read, 0, n, rows)
    ensures HoldsAnswers(w, used, n, rows)
  {
    forall k | n <= k < |rows|
      ensures AnswerAt(w, used + k - n, Some("")) == Some(rows[k].text)
    {
      assert AnswerAt(read, k - n, Some("")) == AnswerAt(w, used + (k - n), Some(""));
    }
  }

  lemma JudgeAllAnswers(w: World, questions: seq<string>)
    ensures (var f := JudgeAll(w, questions).world.disk;
      f.hypotheses == w.disk.hypotheses && HoldsAnswers(w, 0, |w.disk.evaluations|, f.evaluations))
  {
    PhaseGrows(w, Judge, questions, 0);
    PhaseHoldsAnswers(w, Judge, questions, 0);
    FinishTouchesNoRows(PhaseFrom(w, Judge, questions, 0).world);
  }

  lemma ReadingAnswers(w: World, questions: seq<string>)
    ensures (var read := PhaseFrom(w, Reader, questions, 0);
      var f := read.world.disk;
      && |w.disk.hypotheses| <= |f.hypotheses| && HoldsAnswers(w, 0, |w.disk.hypotheses|, f.hypotheses)
      && f.evaluations == w.disk.evaluations
      && (read.signal == Fine ==> Took(w, read.world, |f.hypotheses| - |w.disk.hypotheses|)))
  {
    PhaseGrows(w, Reader, questions, 0);
    PhaseHoldsAnswers(w, Reader, questions, 0);
  }

  lemma ReadAndJudgeAnswers(w: World, questions: seq<string>)
    ensures Answered(w, w.disk, ReadAndJudge(w, questions).world.disk)
  {
    if !Accepted(w.disk.hypotheses, questions) {
      ReadAnswered(w, w.disk);
    } else {
      var read := PhaseFrom(w, Reader, questions, 0);
      ReadingAnswers(w, questions);
      if read.signal != Fine {
        ReadAnswered(w, read.world.disk);
      } else {
        JudgeAllAnswers(read.world, questions);
        JudgedAnswered(w, read.world, JudgeAll(read.world, questions).world.disk);
      }
    }
  }

  /** Readings only. */
  lemma ReadAnswered(w: World, after: Files)
    requires |w.disk.hypotheses| <= |after.hypotheses| && after.evaluations == w.disk.evaluations
    requires HoldsAnswers(w, 0, |w.disk.hypotheses|, after.hypotheses)
    ensures Answered(w, w.disk, after)
  {
  }

  /** Readings, and then verdicts. */
  lemma JudgedAnswered(w: World, read: World, after: Files)
    requires |w.disk.hypotheses| <= |after.hypotheses| && after.hypotheses == read.disk.hypotheses
    requires read.disk.evaluations == w.disk.evaluations
    requires HoldsAnswers(w, 0, |w.disk.hypotheses|, after.hypotheses)
    requires Took(w, read, |after.hypotheses| - |w.disk.hypotheses|)
    requires HoldsAnswers(read, 0, |w.disk.evaluations|, after.evaluations)
    ensures Answered(w, w.disk, after)
  {
    var used := |after.hypotheses| - |w.disk.hypotheses|;
    HoldsLater(w, read, used, |w.disk.evaluations|, after.evaluations);
  }

  lemma SameAnswers(w: World, w': World, before: Files, after: Files)
    requires w'.answers == w.answers && Answered(w', before, after)
    ensures Answered(w, before, after)
  {
    assert forall i: nat :: AnswerAt(w', i, Some("")) == AnswerAt(w, i, Some(""));
  }

  lemma StartAnswers(w: World, questions: seq<string>, mode: Mode)
    ensures Answered(w, w.disk, Start(w, questions, mode).world.disk)
  {
    var retrieved := Retrieve(CheckpointWritten(w).world, mode).world;
    ReadAndJudgeAnswers(retrieved, questions);
    SameAnswers(w, retrieved, w.disk, ReadAndJudge(retrieved, questions).world.disk);
  }

  lemma {:induction false} RemoveTakesNoAnswer(w: World, order: seq<Managed>)
    ensures RemoveAll(w, order).world.answers == w.answers
    decreases |order|
  {
    if order != [] {
      RemoveTakesNoAnswer(Do(w, Without(w.disk, order[0])).world, order[1..]);
    }
  }

  /** What a run starts from: what is there, or what a forced run could not remove. */
  function StartsFrom(w: World, mode: Mode): Files {
    if mode.Force? then RemoveAll(w, mode.order).world.disk else w.disk
  }

  /** So every run, in whatever mode and whatever becomes of its statements. */
  lemma RunHoldsAnswers(w: World, questions: seq<string>, mode: Mode)
    ensures Answered(w, StartsFrom(w, mode), Invoke(w, questions, mode).world.disk)
  {
    if mode.Force? {
      RemoveTakesNoAnswer(w, mode.order);
      var removed := RemoveAll(w, mode.order).world;
      StartAnswers(removed, questions, mode);
      SameAnswers(w, removed, removed.disk, Start(removed, questions, mode).world.disk);
    } else {
      StartAnswers(w, questions, mode);
    }
  }

  // ---------------------------------------------------------------- the program

  /** The keys of the map that a file is read into. */
  ghost predicate AreIds(byId: set<string>, rows: seq<Row>) {
    forall q :: q in byId <==> HasRow(rows, q)
  }

  /** The rows of a file by question, and whether they are acceptable. */
  method ReadRowsByQuestionId(rows: seq<Row>, questions: seq<string>) returns (accepted: bool, byId: set<string>)
    ensures accepted <==> Accepted(rows, questions)
    ensures accepted ==> AreIds(byId, rows)
  {
    byId := {};
    var i := 0;
    while i < |rows|
      invariant 0 <= i <= |rows| && Accepted(rows[..i], questions)
      invariant forall q :: q in byId <==> exists k :: 0 <= k < i && rows[k].questionId == q
    {
      var id := rows[i].questionId;
      if id in byId || id !in questions {
        return false, byId;
      }
      byId := byId + {id};
      i := i + 1;
    }
    assert rows[..|rows|] == rows;
    accepted := true;
  }

  method HasUniqueIds(questions: seq<string>) returns (unique: bool)
    ensures unique <==> Distinct(questions)
  {
    var seen: set<string> := {};
    var i := 0;
    while i < |questions|
      invariant 0 <= i <= |questions| && Distinct(questions[..i])
      invariant forall q :: q in seen <==> q in questions[..i]
    {
      if questions[i] in seen {
        assert questions[i] in questions[..i];
        return false;
      }
      seen := seen + {questions[i]};
      assert questions[..i + 1] == questions[..i] + [questions[i]];
      i := i + 1;
    }
    assert questions[..|questions|] == questions;
    unique := true;
  }

  class BatchRunner {
    var disk: Files
    var fates: seq<Fate>
    var answers: seq<Option<string>>

    function Now(): World
      reads this
    {
      World(disk, fates, answers)
    }

    constructor (disk: Files, fates: seq<Fate>, answers: seq<Option<string>>)
      ensures Now() == World(disk, fates, answers)
    {
      this.disk, this.fates, this.answers := disk, fates, answers;
    }

    method Statement(after: Files, cut: Files) returns (s: Signal)
      modifies this
      ensures Done(Now(), s) == Overwrite(old(Now()), after, cut)
    {
      var fate := NextFate(fates);
      fates := LaterFates(fates);
      if TakesEffect(fate) {
        disk := after;
      } else if CutsOff(fate) {
        disk := cut;
      }
      s := SignalOf(fate);
    }

    method WriteCheckpoint() returns (s: Signal)
      modifies this
      ensures Done(Now(), s) == CheckpointWritten(old(Now()))
    {
      s := Statement(disk.(checkpoint := Whole), disk.(checkpoint := Torn));
    }

    /** Refuses to overwrite, or to resume without a readable checkpoint; a forced run removes what it can. */
    method PrepareOutputFiles(mode: Mode) returns (refused: bool, s: Signal)
      modifies this
      ensures refused <==> old(Refused(disk, mode))
      ensures (refused || !mode.Force?) ==> Now() == old(Now()) && s == Fine
      ensures mode.Force? ==> Done(Now(), s) == RemoveAll(old(Now()), mode.order)
    {
      refused, s := false, Fine;
      if !mode.Force? {
        refused := if mode == Resume then disk.checkpoint != Whole else disk != BLANK;
        return;
      }
      var i := 0;
      while i < |mode.order|
        invariant 0 <= i <= |mode.order|
        invariant RemoveAll(old(Now()), mode.order) == RemoveAll(Now(), mode.order[i..])
      {
        s := Statement(Without(disk, mode.order[i]), disk);
        if s == Dead {
          return;
        }
        assert mode.order[i..][1..] == mode.order[i + 1..];
        i := i + 1;
      }
      s := Fine;
    }

    method EnsureRetrievalArtifacts(mode: Mode) returns (s: Signal)
      modifies this
      ensures Done(Now(), s) == Retrieve(old(Now()), mode)
      ensures s == Fine && (mode != Resume || !old(Retrieved(disk))) ==> ArtifactsWhole(disk)
    {
      if mode == Resume && disk.fixture != Absent && disk.report != Absent {
        return Fine;
      }
      s := Statement(disk.(fixture := Whole), disk.(fixture := Torn));
      if s == Fine {
        s := Statement(disk.(report := Whole), disk.(report := Torn));
      }
    }

    /** One pass of a phase's loop. */
    method RunOne(p: Phase, q: string) returns (s: Signal)
      modifies this
      ensures Done(Now(), s) == AskOne(old(Now()), p, q)
      ensures OneDid(old(disk), disk, p, q, s == Fine)
    {
      OneDoes(Now(), p, q);
      s := WriteCheckpoint();
      if s != Fine {
        return;
      }
      var answer := NextAnswer(Now(), Some(""));
      answers := if answers == [] then [] else answers[1..];
      if answer == None {
        s := WriteCheckpoint();
        if s != Dead {
          s := Error;
        }
        return;
      }
      s := Statement(WithRow(disk, p, Row(q, answer.value)), disk);
      if s != Fine {
        return;
      }
      s := WriteCheckpoint();
    }

    /** A phase's loop, which skips the questions that have a row. */
    method RunPhase(p: Phase, questions: seq<string>, found: set<string>) returns (s: Signal)
      requires AreIds(found, RowsOf(disk, p))
      modifies this
      ensures Done(Now(), s) == PhaseFrom(old(Now()), p, questions, 0)
      ensures PhaseDid(old(disk), disk, p, questions, s == Fine)
    {
      PhaseDoes(Now(), p, questions);
      var byId := found;
      var i := 0;
      while i < |questions|
        invariant 0 <= i <= |questions| && AreIds(byId, RowsOf(disk, p))
        invariant PhaseFrom(old(Now()), p, questions, 0) == PhaseFrom(Now(), p, questions, i)
      {
        if p == Judge && !HasRow(disk.hypotheses, questions[i]) {
          return Error;
        }
        if questions[i] !in byId {
          AskOneAddsId(Now(), p, questions[i], byId);
          s := RunOne(p, questions[i]);
          if s != Fine {
            return;
          }
          byId := byId + {questions[i]};
        }
        i := i + 1;
      }
      s := Fine;
    }

    method Run(questions: seq<string>, mode: Mode) returns (outcome: Outcome)
      modifies this
      ensures Ended(Now(), outcome) == Invoke(old(Now()), questions, mode)
      ensures !mode.Force? && old(Honest(disk, questions)) ==> KeepsRows(old(disk), Ended(Now(), outcome), questions)
      ensures Answered(old(Now()), StartsFrom(old(Now()), mode), disk)
    {
      RunHoldsAnswers(Now(), questions, mode);
      if !mode.Force? && Honest(disk, questions) {
        RunKeepsRows(Now(), questions, mode);
      }
      var refused, s := PrepareOutputFiles(mode);
      if refused {
        return Rejected;
      }
      if s != Fine {
        return OutcomeOf(s);
      }
      outcome := RunPrepared(questions, mode);
    }

    method RunPrepared(questions: seq<string>, mode: Mode) returns (outcome: Outcome)
      modifies this
      ensures Ended(Now(), outcome) == Start(old(Now()), questions, mode)
    {
      var s := WriteCheckpoint();
      if s != Fine {
        return OutcomeOf(s);
      }
      s := EnsureRetrievalArtifacts(mode);
      if s != Fine {
        return OutcomeOf(s);
      }
      var unique := HasUniqueIds(questions);
      if !unique || !ArtifactsWhole(disk) {
        return Rejected;
      }
      outcome := RunPhases(questions);
    }

    method RunPhases(questions: seq<string>) returns (outcome: Outcome)
      modifies this
      ensures Ended(Now(), outcome) == ReadAndJudge(old(Now()), questions)
    {
      var accepted, found := ReadRowsByQuestionId(disk.hypotheses, questions);
      if !accepted {
        return Rejected;
      }
      var s := RunPhase(Reader, questions, found);
      if s != Fine {
        return OutcomeOf(s);
      }
      accepted, found := ReadRowsByQuestionId(disk.evaluations, questions);
      if !accepted {
        return Rejected;
      }
      s := RunPhase(Judge, questions, found);
      if s == Fine {
        s := Statement(disk.(summary := Whole), disk.(summary := Torn));
      }
      if s == Fine {
        s := WriteCheckpoint();
      }
      outcome := OutcomeOf(s);
    }
  }

  lemma AskOneAddsId(w: World, p: Phase, q: string, byId: set<string>)
    requires AreIds(byId, RowsOf(w.disk, p)) && q !in byId
    ensures AskOne(w, p, q).signal == Fine ==> AreIds(byId + {q}, RowsOf(AskOne(w, p, q).world.disk, p))
  {
    AskOneGrows(w, p, [q], q);
    if AskOne(w, p, q).signal == Fine {
      forall x
        ensures x in byId + {q} <==> HasRow(RowsOf(AskOne(w, p, q).world.disk, p), x)
      {
        SameRowIds(RowsOf(w.disk, p), RowsOf(AskOne(w, p, q).world.disk, p), q, x);
      }
    }
  }
}
