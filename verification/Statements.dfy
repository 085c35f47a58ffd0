/** File statements of a program that may fail or die at any of them. */
module Statements {

  // A statement works, fails with or without having taken effect, or the process dies at it.
  // A file that is overwritten in place may also be left cut off, when the write fails or the
  // process dies halfway.

  datatype Fate = Works | Fails | FailsLate | FailsHalfway | Dies | DiesHalfway

  datatype Signal = Fine | Error | Dead

  datatype Outcome = Completed | Rejected | Failed | Crashed

  /** What is on disk, what is to happen to the statements, and what the commands are to answer. */
  datatype World<D, A> = World(disk: D, fates: seq<Fate>, answers: seq<A>)

  datatype Done<D, A> = Done(world: World<D, A>, signal: Signal)

  datatype Ended<D, A> = Ended(world: World<D, A>, outcome: Outcome)

  /** Fates are given in advance; when they run out, statements work. */
  function NextFate(fates: seq<Fate>): Fate {
    if fates == [] then Works else fates[0]
  }

  function LaterFates(fates: seq<Fate>): seq<Fate> {
    if fates == [] then [] else fates[1..]
  }

  predicate TakesEffect(f: Fate) {
    f == Works || f == FailsLate
  }

  predicate CutsOff(f: Fate) {
    f == FailsHalfway || f == DiesHalfway
  }

  function SignalOf(f: Fate): Signal {
    match f
    case Works => Fine
    case Fails => Error
    case FailsLate => Error
    case FailsHalfway => Error
    case Dies => Dead
    case DiesHalfway => Dead
  }

  /** A statement that leaves the disk as `after` if it takes effect, and takes it whole or not at all. */
  function Do<D, A>(w: World<D, A>, after: D): Done<D, A> {
    Overwrite(w, after, w.disk)
  }

  /** A write in place, which leaves the disk as `cut` if it stops halfway. */
  function Overwrite<D, A>(w: World<D, A>, after: D, cut: D): Done<D, A> {
    var fate := NextFate(w.fates);
    var disk := if TakesEffect(fate) then after else if CutsOff(fate) then cut else w.disk;
    Done(World(disk, LaterFates(w.fates), w.answers), SignalOf(fate))
  }

  /** A command's next answer; when answers run out, `otherwise`. */
  function NextAnswer<D, A>(w: World<D, A>, otherwise: A): A {
    if w.answers == [] then otherwise else w.answers[0]
  }

  /** The answer after `i` others. */
  function AnswerAt<D, A>(w: World<D, A>, i: nat, otherwise: A): A {
    if i < |w.answers| then w.answers[i] else otherwise
  }

  lemma AnswersInOrder<D, A>(w: World<D, A>, i: nat, otherwise: A)
    ensures NextAnswer(w, otherwise) == AnswerAt(w, 0, otherwise)
    ensures AnswerAt(AfterAnswer(w), i, otherwise) == AnswerAt(w, i + 1, otherwise)
  {
  }

  function AfterAnswer<D, A>(w: World<D, A>): World<D, A> {
    w.(answers := if w.answers == [] then [] else w.answers[1..])
  }

  /** After a failure has been reported: whether or not the report could be written, the run ends. */
  function GivenUp<D, A>(report: Done<D, A>): Done<D, A> {
    if report.signal == Dead then report else Done(report.world, Error)
  }

  function OutcomeOf(s: Signal): Outcome {
    match s case Fine => Completed case Error => Failed case Dead => Crashed
  }

  predicate NoFaults<D, A(==)>(w: World<D, A>, failure: A) {
    && (forall i | 0 <= i < |w.fates| :: w.fates[i] == Works)
    && (forall i | 0 <= i < |w.answers| :: w.answers[i] != failure)
  }
}
