/**
  Building a retrieval benchmark from interleaved session logs: each prompt worth asking is
  paired with the first answer that follows it in its session.
 */
module SessionQrels {
  import opened Common

  datatype Role = User | Assistant | Other

  /** A log line, parsed; `text` is empty when the line carries none. */
  datatype Line = Unreadable | Entry(role: Role, sessionId: string, text: string, timestamp: Option<string>)

  datatype Pending = Pending(sessionId: string, text: string, turnIndex: nat, timestamp: Option<string>)

  datatype Memory = Memory(id: string, content: string, sessionId: string, turnIndex: int, timestamp: Option<string>)

  datatype Expectation = Match | NoMatch

  datatype Query = Query(
    queryId: string, query: string, expectedIds: seq<string>, expectedRelevance: map<string, nat>,
    sessionId: string, turnIndex: int, expectation: Expectation, forbiddenIds: seq<string>, knownAnswer: Option<string>)

  /** Which prompts are worth asking, and how answers are trimmed, is left open. */
  datatype Options = Options(worth: string -> bool, trim: string -> string, redact: bool)

  datatype State = State(
    counters: map<string, nat>,
    pending: map<string, Pending>,
    queries: seq<Query>,
    memories: seq<Memory>
  )

  // ---------------------------------------------------------------- one line

  function SessionOf(l: Line): string
    requires l.Entry?
  {
    if l.sessionId == "" then "unknown-session" else l.sessionId
  }

  function CounterOf(counters: map<string, nat>, s: string): nat {
    if s in counters then counters[s] else 0
  }

  function Suffix(s: string, turn: nat): string {
    s + "-" + Decimal(turn)
  }

  function MemoryFor(p: Pending, answer: string, timestamp: Option<string>, o: Options): Memory {
    var id := "m-" + Suffix(p.sessionId, p.turnIndex);
    Memory(id, if o.redact then "[redacted memory " + id + "]" else answer, p.sessionId, p.turnIndex,
           if timestamp.Some? then timestamp else p.timestamp)
  }

  function QueryFor(p: Pending, m: Memory, o: Options): Query {
    var id := "q-" + Suffix(p.sessionId, p.turnIndex);
    Query(id, if o.redact then "[redacted query " + id + "]" else p.text, [m.id], map[m.id := 2],
          p.sessionId, p.turnIndex, Match, [], Some(m.content))
  }

  function Ask(st: State, s: string, l: Line): State
    requires l.Entry?
  {
    var turn := CounterOf(st.counters, s) + 1;
    st.(counters := st.counters[s := turn], pending := st.pending[s := Pending(s, l.text, turn, l.timestamp)])
  }

  function Answer(st: State, s: string, l: Line, o: Options): State
    requires l.Entry? && s in st.pending
  {
    var p := st.pending[s];
    var m := MemoryFor(p, o.trim(l.text), l.timestamp, o);
    st.(pending := st.pending - {s}, queries := st.queries + [QueryFor(p, m, o)], memories := st.memories + [m])
  }

  function Step(st: State, l: Line, o: Options): State {
    if l.Unreadable? || l.text == "" then st
    else
      var s := SessionOf(l);
      match l.role
      case User => if o.worth(l.text) then Ask(st, s, l) else st.(pending := st.pending - {s})
      case Assistant => if s in st.pending && o.trim(l.text) != "" then Answer(st, s, l, o) else st
      case Other => st
  }

  const Start := State(map[], map[], [], [])

  function Read(lines: seq<Line>, o: Options): State
    decreases |lines|, 1
  {
    if lines == [] then Start else ReadLast(lines, o)
  }

  function ReadLast(lines: seq<Line>, o: Options): State
    requires lines != []
    decreases |lines|, 0
  {
    Step(Read(lines[..|lines| - 1], o), lines[|lines| - 1], o)
  }

  // ---------------------------------------------------------------- the pairs

  /** Lines that end the wait for an answer in session `s`. */
  predicate Settles(l: Line, s: string, o: Options) {
    && l.Entry? && l.text != "" && SessionOf(l) == s
    && (l.role == User || (l.role == Assistant && o.trim(l.text) != ""))
  }

  predicate Prompts(l: Line, s: string, o: Options) {
    l.Entry? && l.text != "" && SessionOf(l) == s && l.role == User && o.worth(l.text)
  }

  predicate Replies(l: Line, s: string, o: Options) {
    l.Entry? && l.text != "" && SessionOf(l) == s && l.role == Assistant && o.trim(l.text) != ""
  }

  /** Prompt `u` still waits for an answer after the first `n` lines. */
  ghost predicate Waits(lines: seq<Line>, s: string, u: nat, n: nat, o: Options) {
    u < n <= |lines| && Prompts(lines[u], s, o) && forall k | u < k < n :: !Settles(lines[k], s, o)
  }

  /** How many prompts session `s` has asked. */
  function Asked(lines: seq<Line>, s: string, o: Options): nat {
    if lines == [] then 0
    else Asked(lines[..|lines| - 1], s, o) + if Prompts(lines[|lines| - 1], s, o) then 1 else 0
  }

  function PendingAt(lines: seq<Line>, s: string, u: nat, o: Options): Pending
    requires u < |lines| && lines[u].Entry?
  {
    Pending(s, lines[u].text, Asked(lines[..u + 1], s, o), lines[u].timestamp)
  }

  lemma StepCounters(st: State, l: Line, o: Options, s: string)
    ensures CounterOf(Step(st, l, o).counters, s) == CounterOf(st.counters, s) + if Prompts(l, s, o) then 1 else 0
  {
  }

  /** A session's counter is the number of its prompts. */
  lemma {:induction false} CountersCountPrompts(lines: seq<Line>, o: Options, s: string)
    ensures CounterOf(Read(lines, o).counters, s) == Asked(lines, s, o)
  {
    if lines != [] {
      var n := |lines| - 1;
      CountersCountPrompts(lines[..n], o, s);
      StepCounters(Read(lines[..n], o), lines[n], o, s);
      assert Read(lines, o) == Step(Read(lines[..n], o), lines[n], o);
    }
  }

  lemma StepPending(st: State, l: Line, o: Options, s: string)
    ensures Prompts(l, s, o) ==> (s in Step(st, l, o).pending &&
      Step(st, l, o).pending[s] == Pending(s, l.text, CounterOf(st.counters, s) + 1, l.timestamp))
    ensures Settles(l, s, o) && !Prompts(l, s, o) ==> s !in Step(st, l, o).pending
    ensures !Settles(l, s, o) ==> (s in Step(st, l, o).pending <==> s in st.pending)
    ensures !Settles(l, s, o) && s in st.pending ==> Step(st, l, o).pending[s] == st.pending[s]
  {
  }

  /** What is pending in a session is its last prompt, as long as nothing settled it. */
  lemma {:induction false} PendingIsTheWaitingPrompt(lines: seq<Line>, o: Options, s: string)
    ensures s in Read(lines, o).pending <==> exists u: nat :: Waits(lines, s, u, |lines|, o)
    ensures forall u: nat | Waits(lines, s, u, |lines|, o) && s in Read(lines, o).pending ::
      Read(lines, o).pending[s] == PendingAt(lines, s, u, o)
  {
    if lines != [] {
      var n := |lines| - 1;
      var init, l := lines[..n], lines[n];
      PendingIsTheWaitingPrompt(init, o, s);
      StepPending(Read(init, o), l, o, s);
      CountersCountPrompts(init, o, s);
      assert Read(lines, o) == Step(Read(init, o), l, o);
      forall u: nat
        ensures (Waits(lines, s, u, |lines|, o)
          <==> (if u == n then Prompts(l, s, o) else Waits(init, s, u, n, o) && !Settles(l, s, o)))
      {
        WaitsSnoc(lines, s, u, o);
      }
      if Prompts(l, s, o) {
        assert Waits(lines, s, n, |lines|, o);
      }
      forall u: nat | Waits(lines, s, u, |lines|, o) && s in Read(lines, o).pending
        ensures Read(lines, o).pending[s] == PendingAt(lines, s, u, o)
      {
        if u < n {
          assert init[..u + 1] == lines[..u + 1];
        } else {
          assert lines[..n + 1] == lines;
        }
      }
    }
  }

  lemma WaitsSnoc(lines: seq<Line>, s: string, u: nat, o: Options)
    requires lines != []
    ensures (var n := |lines| - 1;
      Waits(lines, s, u, |lines|, o) <==>
        (if u == n then Prompts(lines[n], s, o) else Waits(lines[..n], s, u, n, o) && !Settles(lines[n], s, o)))
  {
  }

  /** The prompt in line `u` is answered by line `a`. */
  ghost predicate Answers(lines: seq<Line>, s: string, u: nat, a: nat, o: Options) {
    a < |lines| && Replies(lines[a], s, o) && Waits(lines, s, u, a, o)
  }

  lemma StepAdds(st: State, l: Line, o: Options)
    ensures Step(st, l, o).queries == st.queries || exists s :: Replies(l, s, o) && s in st.pending
    ensures Step(st, l, o).queries == st.queries ==> Step(st, l, o).memories == st.memories
    ensures forall s | Replies(l, s, o) && s in st.pending :: Step(st, l, o) == Answer(st, s, l, o)
  {
    if l.Entry? && l.text != "" && l.role == Assistant && SessionOf(l) in st.pending && o.trim(l.text) != "" {
      assert Replies(l, SessionOf(l), o);
    }
  }

  lemma ReadNext(lines: seq<Line>, a: nat, o: Options)
    requires a < |lines|
    ensures Read(lines[..a + 1], o) == Step(Read(lines[..a], o), lines[a], o)
  {
    var upTo := lines[..a + 1];
    assert upTo != [] && upTo[..|upTo| - 1] == lines[..a] && upTo[|upTo| - 1] == lines[a];
    assert Read(upTo, o) == ReadLast(upTo, o);
  }

  lemma WaitsPrefix(lines: seq<Line>, s: string, u: nat, a: nat, o: Options)
    requires a <= |lines|
    ensures Waits(lines, s, u, a, o) <==> Waits(lines[..a], s, u, a, o)
    ensures u < a ==> lines[..a][..u + 1] == lines[..u + 1]
  {
    assert forall k | 0 <= k < a :: lines[..a][k] == lines[k];
  }

  /** The state after a line that answers a prompt. */
  function WithPair(st: State, lines: seq<Line>, s: string, u: nat, a: nat, o: Options): State
    requires u < |lines| && lines[u].Entry? && a < |lines| && lines[a].Entry?
  {
    var p := PendingAt(lines, s, u, o);
    var m := MemoryFor(p, o.trim(lines[a].text), lines[a].timestamp, o);
    st.(pending := st.pending - {s}, queries := st.queries + [QueryFor(p, m, o)], memories := st.memories + [m])
  }

  /**
    What the query and the memory of a prompt and its answer hold: the one asks what the prompt says,
    the other says what the answer does, and a redacted fixture has only their identifiers.
   */
  ghost predicate IsPair(q: Query, m: Memory, s: string, turn: nat, prompt: Line, reply: Line, o: Options)
    requires prompt.Entry? && reply.Entry?
  {
    && q.queryId == "q-" + Suffix(s, turn) && m.id == "m-" + Suffix(s, turn)
    && q.sessionId == m.sessionId == s && q.turnIndex == m.turnIndex == turn
    && (!o.redact ==> q.query == prompt.text && m.content == o.trim(reply.text))
    && (o.redact ==> q.query == "[redacted query " + q.queryId + "]" && m.content == "[redacted memory " + m.id + "]")
    && m.timestamp == (if reply.timestamp.Some? then reply.timestamp else prompt.timestamp)
    && q.expectedIds == [m.id] && q.expectedRelevance == map[m.id := 2] && q.expectation == Match
    && q.forbiddenIds == [] && q.knownAnswer == Some(m.content)
  }

  /** Line `a` answers the prompt that `q` asks, and `m` holds that answer. */
  ghost predicate IsPairAt(q: Query, m: Memory, lines: seq<Line>, a: nat, o: Options) {
    exists s, u: nat :: Answers(lines, s, u, a, o)
      && IsPair(q, m, s, Asked(lines[..u + 1], s, o), lines[u], lines[a], o)
  }

  /** A line that answers a prompt adds that prompt with that answer. */
  lemma AnswerAddsItsPair(lines: seq<Line>, s: string, u: nat, a: nat, o: Options)
    requires Answers(lines, s, u, a, o)
    ensures Read(lines[..a + 1], o) == WithPair(Read(lines[..a], o), lines, s, u, a, o)
    ensures (var before, after := Read(lines[..a], o), Read(lines[..a + 1], o);
      && |after.queries| == |before.queries| + 1 && before.queries <= after.queries
      && |after.memories| == |before.memories| + 1 && before.memories <= after.memories
      && IsPair(after.queries[|before.queries|], after.memories[|before.memories|], s,
                Asked(lines[..u + 1], s, o), lines[u], lines[a], o))
  {
    ReadNext(lines, a, o);
    WaitsPrefix(lines, s, u, a, o);
    PendingIsTheWaitingPrompt(lines[..a], o, s);
    StepAdds(Read(lines[..a], o), lines[a], o);
  }

  ghost predicate Increase(places: seq<nat>) {
    forall i, j | 0 <= i < j < |places| :: places[i] < places[j]
  }

  /** One pair for each of these lines, in their order. */
  ghost predicate PairsAt(queries: seq<Query>, memories: seq<Memory>, lines: seq<Line>, places: seq<nat>, o: Options) {
    && |queries| == |memories| == |places|
    && forall i | 0 <= i < |places| :: IsPairAt(queries[i], memories[i], lines, places[i], o)
  }

  /** Exactly the lines that answer a waiting prompt. */
  ghost predicate AreAnswers(places: seq<nat>, lines: seq<Line>, o: Options) {
    forall a: nat :: a in places <==> exists s, u: nat :: Answers(lines, s, u, a, o)
  }

  /** A log's queries and memories are one pair for each line that answers a prompt, in the order of those lines. */
  lemma {:induction false} PairsAreTheAnswers(lines: seq<Line>, o: Options) returns (places: seq<nat>)
    ensures (var st := Read(lines, o);
      PairsAt(st.queries, st.memories, lines, places, o) && AreAnswers(places, lines, o) && Increase(places))
  {
    places := [];
    if lines != [] {
      var n := |lines| - 1;
      places := PairsAreTheAnswers(lines[..n], o);
      PairsStay(lines, n, places, o);
      ReadNext(lines, n, o);
      assert lines[..n + 1] == lines;
      if s, u: nat :| Answers(lines, s, u, n, o) {
        PairComesIn(lines, n, places, s, u, o);
        places := places + [n];
      } else {
        NothingComesIn(lines, n, o);
      }
    }
  }

  lemma AnswersPrefix(lines: seq<Line>, n: nat, s: string, u: nat, a: nat, o: Options)
    requires a < n <= |lines|
    ensures Answers(lines[..n], s, u, a, o) <==> Answers(lines, s, u, a, o)
    ensures u < a ==> lines[..n][..u + 1] == lines[..u + 1]
  {
    assert lines[..n][..a] == lines[..a];
    WaitsPrefix(lines, s, u, a, o);
    WaitsPrefix(lines[..n], s, u, a, o);
  }

  /** What the lines before the last yield. */
  ghost predicate PairsSoFar(lines: seq<Line>, n: nat, places: seq<nat>, o: Options)
    requires n <= |lines|
  {
    var st := Read(lines[..n], o);
    && PairsAt(st.queries, st.memories, lines, places, o) && Increase(places)
    && (forall a: nat :: a in places <==> a < n && exists s, u: nat :: Answers(lines, s, u, a, o))
  }

  lemma PairsStay(lines: seq<Line>, n: nat, places: seq<nat>, o: Options)
    requires n <= |lines| && Increase(places) && AreAnswers(places, lines[..n], o)
    requires (var st := Read(lines[..n], o); PairsAt(st.queries, st.memories, lines[..n], places, o))
    ensures PairsSoFar(lines, n, places, o)
  {
    var st := Read(lines[..n], o);
    forall a: nat
      ensures a in places <==> a < n && exists s, u: nat :: Answers(lines, s, u, a, o)
    {
      if a < n {
        forall s, u: nat
          ensures Answers(lines[..n], s, u, a, o) <==> Answers(lines, s, u, a, o)
        {
          AnswersPrefix(lines, n, s, u, a, o);
        }
      }
    }
    forall i | 0 <= i < |places|
      ensures IsPairAt(st.queries[i], st.memories[i], lines, places[i], o)
    {
      assert places[i] in places;
      PairStays(st.queries[i], st.memories[i], lines, n, places[i], o);
    }
  }

  lemma PairStays(q: Query, m: Memory, lines: seq<Line>, n: nat, a: nat, o: Options)
    requires n <= |lines| && IsPairAt(q, m, lines[..n], a, o)
    ensures IsPairAt(q, m, lines, a, o)
  {
    var s, u: nat :| Answers(lines[..n], s, u, a, o)
                  && IsPair(q, m, s, Asked(lines[..n][..u + 1], s, o), lines[..n][u], lines[..n][a], o);
    AnswersPrefix(lines, n, s, u, a, o);
  }

  lemma PairComesIn(lines: seq<Line>, n: nat, places: seq<nat>, s: string, u: nat, o: Options)
    requires |lines| == n + 1 && PairsSoFar(lines, n, places, o) && Answers(lines, s, u, n, o)
    ensures (var st := Read(lines, o); PairsAt(st.queries, st.memories, lines, places + [n], o))
    ensures Increase(places + [n]) && AreAnswers(places + [n], lines, o)
  {
    var after := Read(lines, o);
    assert lines[..n + 1] == lines;
    AnswerAddsItsPair(lines, s, u, n, o);
    assert IsPairAt(after.queries[|places|], after.memories[|places|], lines, n, o);
    PlaceComesIn(lines, n, places, s, u, o);
  }

  lemma PlaceComesIn(lines: seq<Line>, n: nat, places: seq<nat>, s: string, u: nat, o: Options)
    requires |lines| == n + 1 && PairsSoFar(lines, n, places, o) && Answers(lines, s, u, n, o)
    ensures Increase(places + [n]) && AreAnswers(places + [n], lines, o)
  {
    assert forall i | 0 <= i < |places| :: places[i] in places;
    assert forall a: nat :: a in places + [n] <==> a in places || a == n;
  }

  lemma NothingComesIn(lines: seq<Line>, n: nat, o: Options)
    requires |lines| == n + 1 && forall s, u: nat :: !Answers(lines, s, u, n, o)
    ensures Read(lines, o).queries == Read(lines[..n], o).queries
    ensures Read(lines, o).memories == Read(lines[..n], o).memories
  {
    assert lines[..n + 1] == lines;
    LineAddsIffItAnswers(lines, n, o);
    ReadNext(lines, n, o);
    StepAdds(Read(lines[..n], o), lines[n], o);
  }

  /** A line adds a query exactly when it answers a prompt. */
  lemma LineAddsIffItAnswers(lines: seq<Line>, a: nat, o: Options)
    requires a < |lines|
    ensures Read(lines[..a + 1], o).queries != Read(lines[..a], o).queries
      <==> exists s, u: nat :: Answers(lines, s, u, a, o)
  {
    var before := Read(lines[..a], o);
    ReadNext(lines, a, o);
    StepAdds(before, lines[a], o);
    if Read(lines[..a + 1], o).queries != before.queries {
      var s :| Replies(lines[a], s, o) && s in before.pending;
      PendingIsTheWaitingPrompt(lines[..a], o, s);
      var u: nat :| Waits(lines[..a], s, u, a, o);
      WaitsPrefix(lines, s, u, a, o);
      assert Answers(lines, s, u, a, o);
    }
    if s, u: nat :| Answers(lines, s, u, a, o) {
      AnswerAddsItsPair(lines, s, u, a, o);
    }
  }

  // ---------------------------------------------------------------- sessions do not mix

  function LinesOf(lines: seq<Line>, s: string): seq<Line> {
    if lines == [] then []
    else
      var earlier, l := LinesOf(lines[..|lines| - 1], s), lines[|lines| - 1];
      if l.Entry? && SessionOf(l) == s then earlier + [l] else earlier
  }

  function QueriesOf(queries: seq<Query>, s: string): seq<Query> {
    if queries == [] then []
    else
      var earlier, q := QueriesOf(queries[..|queries| - 1], s), queries[|queries| - 1];
      if q.sessionId == s then earlier + [q] else earlier
  }

  function MemoriesOf(memories: seq<Memory>, s: string): seq<Memory> {
    if memories == [] then []
    else
      var earlier, m := MemoriesOf(memories[..|memories| - 1], s), memories[|memories| - 1];
      if m.sessionId == s then earlier + [m] else earlier
  }

  datatype View = View(counter: nat, pending: Option<Pending>, queries: seq<Query>, memories: seq<Memory>)

  /** What of the state concerns session `s`. */
  function ViewOf(st: State, s: string): View {
    View(CounterOf(st.counters, s), if s in st.pending then Some(st.pending[s]) else None,
         QueriesOf(st.queries, s), MemoriesOf(st.memories, s))
  }

  /** Whatever is pending under a session is of that session. */
  ghost predicate Sorted(st: State) {
    forall s | s in st.pending :: st.pending[s].sessionId == s
  }

  lemma OneMoreOf(queries: seq<Query>, q: Query, memories: seq<Memory>, m: Memory, s: string)
    ensures QueriesOf(queries + [q], s) == QueriesOf(queries, s) + if q.sessionId == s then [q] else []
    ensures MemoriesOf(memories + [m], s) == MemoriesOf(memories, s) + if m.sessionId == s then [m] else []
  {
    assert (queries + [q])[..|queries|] == queries && (memories + [m])[..|memories|] == memories;
  }

  lemma StepKeepsOtherViews(st: State, l: Line, o: Options, s: string)
    requires Sorted(st) && (l.Entry? ==> SessionOf(l) != s)
    ensures ViewOf(Step(st, l, o), s) == ViewOf(st, s)
  {
    if l.Entry? && l.text != "" {
      match l.role
      case User =>
        if o.worth(l.text) {
          assert ViewOf(Ask(st, SessionOf(l), l), s) == ViewOf(st, s);
        }
      case Assistant =>
        if SessionOf(l) in st.pending {
          AnswerKeepsOtherViews(st, l, o, s);
        }
      case Other =>
    }
  }

  lemma AnswerKeepsOtherViews(st: State, l: Line, o: Options, s: string)
    requires Sorted(st) && l.Entry? && SessionOf(l) != s && SessionOf(l) in st.pending
    ensures ViewOf(Answer(st, SessionOf(l), l, o), s) == ViewOf(st, s)
  {
    var p := st.pending[SessionOf(l)];
    var m := MemoryFor(p, o.trim(l.text), l.timestamp, o);
    OneMoreOf(st.queries, QueryFor(p, m, o), st.memories, m, s);
  }

  /** What a line of the session makes of its view. */
  function StepView(v: View, l: Line, o: Options): View
    requires l.Entry?
  {
    if l.text == "" then v
    else
      match l.role
      case User =>
        if o.worth(l.text) then
          v.(counter := v.counter + 1, pending := Some(Pending(SessionOf(l), l.text, v.counter + 1, l.timestamp)))
        else v.(pending := None)
      case Assistant => if v.pending.Some? && o.trim(l.text) != "" then AnswerView(v, l, o) else v
      case Other => v
  }

  function AnswerView(v: View, l: Line, o: Options): View
    requires l.Entry? && v.pending.Some?
  {
    var m := MemoryFor(v.pending.value, o.trim(l.text), l.timestamp, o);
    View(v.counter, None, v.queries + [QueryFor(v.pending.value, m, o)], v.memories + [m])
  }

  lemma StepViewed(st: State, l: Line, o: Options)
    requires Sorted(st) && l.Entry?
    ensures ViewOf(Step(st, l, o), SessionOf(l)) == StepView(ViewOf(st, SessionOf(l)), l, o)
  {
    var s := SessionOf(l);
    if l.text != "" {
      match l.role
      case User =>
        AskViewed(st, l);
        DropViewed(st, s);
      case Assistant =>
        if s in st.pending {
          AnswerViewed(st, l, o);
        }
      case Other =>
    }
  }

  lemma AskViewed(st: State, l: Line)
    requires l.Entry?
    ensures (var s := SessionOf(l);
      var v := ViewOf(st, s);
      ViewOf(Ask(st, s, l), s)
        == v.(counter := v.counter + 1, pending := Some(Pending(s, l.text, v.counter + 1, l.timestamp))))
  {
  }

  lemma DropViewed(st: State, s: string)
    ensures ViewOf(st.(pending := st.pending - {s}), s) == ViewOf(st, s).(pending := None)
  {
  }

  lemma AnswerViewed(st: State, l: Line, o: Options)
    requires Sorted(st) && l.Entry? && SessionOf(l) in st.pending
    ensures ViewOf(Answer(st, SessionOf(l), l, o), SessionOf(l)) == AnswerView(ViewOf(st, SessionOf(l)), l, o)
  {
    var p := st.pending[SessionOf(l)];
    var m := MemoryFor(p, o.trim(l.text), l.timestamp, o);
    OneMoreOf(st.queries, QueryFor(p, m, o), st.memories, m, SessionOf(l));
  }

  lemma StepKeepsSorted(st: State, l: Line, o: Options)
    requires Sorted(st)
    ensures Sorted(Step(st, l, o))
  {
  }

  lemma {:induction false} ReadIsSorted(lines: seq<Line>, o: Options)
    ensures Sorted(Read(lines, o))
  {
    if lines != [] {
      ReadIsSorted(lines[..|lines| - 1], o);
      StepKeepsSorted(Read(lines[..|lines| - 1], o), lines[|lines| - 1], o);
      assert Read(lines, o) == ReadLast(lines, o);
    }
  }

  /** However the sessions are interleaved, each yields what its own lines yield. */
  lemma {:induction false} SessionsDoNotMix(lines: seq<Line>, o: Options, s: string)
    ensures ViewOf(Read(lines, o), s) == ViewOf(Read(LinesOf(lines, s), o), s)
  {
    if lines != [] {
      var n := |lines| - 1;
      var init, l, own := lines[..n], lines[n], LinesOf(lines[..n], s);
      SessionsDoNotMix(init, o, s);
      ReadIsSorted(init, o);
      ReadIsSorted(own, o);
      assert Read(lines, o) == Step(Read(init, o), l, o);
      if l.Entry? && SessionOf(l) == s {
        assert (own + [l])[..|own|] == own;
        assert Read(own + [l], o) == Step(Read(own, o), l, o);
        StepViewed(Read(init, o), l, o);
        StepViewed(Read(own, o), l, o);
      } else {
        StepKeepsOtherViews(Read(init, o), l, o, s);
      }
    }
  }

  // ---------------------------------------------------------------- identifiers

  function Digit(d: nat): char
    requires d < 10
  {
    ['0', '1', '2', '3', '4', '5', '6', '7', '8', '9'][d]
  }

  function Decimal(n: nat): string {
    if n < 10 then [Digit(n)] else Decimal(n / 10) + [Digit(n % 10)]
  }

  lemma {:induction false} DecimalHasNoDash(n: nat)
    ensures '-' !in Decimal(n) && Decimal(n) != []
  {
    if n >= 10 {
      DecimalHasNoDash(n / 10);
    }
  }

  lemma {:induction false} DecimalInjective(a: nat, b: nat)
    requires Decimal(a) == Decimal(b)
    ensures a == b
  {
    DecimalDigits(a);
    DecimalDigits(b);
    if a >= 10 {
      DecimalInjective(a / 10, b / 10);
    }
  }

  lemma DecimalDigits(n: nat)
    ensures (var s := Decimal(n);
      s != [] && s[|s| - 1] == Digit(n % 10) && (|s| == 1 <==> n < 10) && (n >= 10 ==> s[..|s| - 1] == Decimal(n / 10)))
  {
    DecimalHasNoDash(n / 10);
  }

  /** The last dash of an identifier stands before the turn, so it tells session and turn apart. */
  lemma SuffixInjective(s: string, i: nat, t: string, j: nat)
    requires Suffix(s, i) == Suffix(t, j)
    ensures s == t && i == j
  {
    var a := Suffix(s, i);
    DashPlace(s, i);
    DashPlace(t, j);
    assert s == a[..|s|] && t == a[..|t|];
    assert Decimal(i) == a[|s| + 1..] && Decimal(j) == a[|t| + 1..];
    DecimalInjective(i, j);
  }

  lemma DashPlace(s: string, i: nat)
    ensures |s| < |Suffix(s, i)| && Suffix(s, i)[|s|] == '-'
    ensures forall k | |s| < k < |Suffix(s, i)| :: Suffix(s, i)[k] != '-'
  {
    DecimalHasNoDash(i);
    forall k | |s| < k < |Suffix(s, i)|
      ensures Suffix(s, i)[k] != '-'
    {
      assert Suffix(s, i)[k] == Decimal(i)[k - |s| - 1];
    }
  }

  /** Queries and memories stand in pairs, named by session and turn. */
  ghost predicate Paired(queries: seq<Query>, memories: seq<Memory>, i: nat)
    requires i < |queries| && i < |memories|
  {
    var q, m := queries[i], memories[i];
    && q.turnIndex == m.turnIndex && q.turnIndex >= 1 && q.sessionId == m.sessionId
    && q.queryId == "q-" + Suffix(q.sessionId, q.turnIndex)
    && m.id == "m-" + Suffix(q.sessionId, q.turnIndex)
    && q.expectedIds == [m.id] && q.expectedRelevance == map[m.id := 2]
    && q.expectation == Match && q.knownAnswer == Some(m.content)
  }

  /** Turns of one session only grow, and those still pending come after them. */
  ghost predicate InTurn(st: State) {
    && |st.queries| == |st.memories|
    && (forall i | 0 <= i < |st.queries| :: Paired(st.queries, st.memories, i))
    && (forall i, j | 0 <= i < j < |st.queries| && st.queries[i].sessionId == st.queries[j].sessionId ::
          st.queries[i].turnIndex < st.queries[j].turnIndex)
    && (forall s | s in st.pending ::
         st.pending[s].sessionId == s && 1 <= st.pending[s].turnIndex <= CounterOf(st.counters, s))
    && (forall i | 0 <= i < |st.queries| :: st.queries[i].turnIndex <= CounterOf(st.counters, st.queries[i].sessionId))
    && (forall i | 0 <= i < |st.queries| && st.queries[i].sessionId in st.pending ::
          st.queries[i].turnIndex < st.pending[st.queries[i].sessionId].turnIndex)
  }

  lemma AnswerKeepsInTurn(st: State, l: Line, o: Options)
    requires InTurn(st) && l.Entry? && SessionOf(l) in st.pending
    ensures InTurn(Answer(st, SessionOf(l), l, o))
  {
    var s, after := SessionOf(l), Answer(st, SessionOf(l), l, o);
    var n := |st.queries|;
    forall i | 0 <= i < |after.queries|
      ensures Paired(after.queries, after.memories, i)
    {
      if i < n {
        assert Paired(st.queries, st.memories, i);
      }
    }
  }

  lemma StepKeepsInTurn(st: State, l: Line, o: Options)
    requires InTurn(st)
    ensures InTurn(Step(st, l, o))
  {
    if l.Entry? && l.text != "" && l.role == Assistant && SessionOf(l) in st.pending && o.trim(l.text) != "" {
      AnswerKeepsInTurn(st, l, o);
    } else if l.Entry? && l.text != "" && l.role == User && o.worth(l.text) {
      AskKeepsInTurn(st, l);
    }
  }

  lemma AskKeepsInTurn(st: State, l: Line)
    requires InTurn(st) && l.Entry?
    ensures InTurn(Ask(st, SessionOf(l), l))
  {
    var after := Ask(st, SessionOf(l), l);
    forall i | 0 <= i < |after.queries|
      ensures Paired(after.queries, after.memories, i)
    {
      assert Paired(st.queries, st.memories, i);
    }
  }

  lemma {:induction false} ReadIsInTurn(lines: seq<Line>, o: Options)
    ensures InTurn(Read(lines, o))
  {
    if lines != [] {
      ReadIsInTurn(lines[..|lines| - 1], o);
      StepKeepsInTurn(Read(lines[..|lines| - 1], o), lines[|lines| - 1], o);
      assert Read(lines, o) == ReadLast(lines, o);
    }
  }

  /** Queries and memories pair off one to one in order, and no identifier is given twice. */
  lemma IdentifiersAreDistinct(lines: seq<Line>, o: Options)
    ensures (var st := Read(lines, o);
      && |st.queries| == |st.memories|
      && (forall i | 0 <= i < |st.queries| :: Paired(st.queries, st.memories, i))
      && (forall i, j | 0 <= i < j < |st.queries| :: st.queries[i].queryId != st.queries[j].queryId)
      && (forall i, j | 0 <= i < j < |st.memories| :: st.memories[i].id != st.memories[j].id))
  {
    var st := Read(lines, o);
    ReadIsInTurn(lines, o);
    forall i, j | 0 <= i < j < |st.queries|
      ensures st.queries[i].queryId != st.queries[j].queryId && st.memories[i].id != st.memories[j].id
    {
      DistinctPair(st.queries[i], st.memories[i], st.queries[j], st.memories[j], st, i, j);
    }
  }

  lemma DistinctPair(q: Query, m: Memory, r: Query, n: Memory, st: State, i: nat, j: nat)
    requires InTurn(st) && i < j < |st.queries|
    requires q == st.queries[i] && m == st.memories[i] && r == st.queries[j] && n == st.memories[j]
    ensures q.queryId != r.queryId && m.id != n.id
  {
    assert Paired(st.queries, st.memories, i) && Paired(st.queries, st.memories, j);
    var a, b := Suffix(q.sessionId, q.turnIndex), Suffix(r.sessionId, r.turnIndex);
    if a == b {
      SuffixInjective(q.sessionId, q.turnIndex, r.sessionId, r.turnIndex);
    }
    assert q.queryId[2..] == a && r.queryId[2..] == b;
    assert m.id[2..] == a && n.id[2..] == b;
  }

  // ---------------------------------------------------------------- the fixture

  datatype NoMatchInput = NoMatchInput(
    queryId: Option<string>,
    query: string,
    forbiddenIds: seq<string>,
    sessionId: Option<string>,
    turnIndex: Option<int>
  )

  function Given<T>(x: Option<T>, otherwise: T): T {
    if x.Some? then x.value else otherwise
  }

  /** Question `k` without an answer, counted from 1 behind the answered ones. */
  function NoMatchQuery(input: NoMatchInput, k: nat, o: Options): (q: Query)
    ensures q.expectation == NoMatch && q.expectedIds == [] && q.expectedRelevance == map[] && q.knownAnswer == None
    ensures q.forbiddenIds == input.forbiddenIds && (!o.redact ==> q.query == input.query)
    ensures if input.queryId.Some? then q.queryId == input.queryId.value else q.queryId == "q-no-match-" + Decimal(k)
    ensures o.redact ==> q.query == "[redacted query " + q.queryId + "]"
    ensures input.sessionId.Some? ==> q.sessionId == input.sessionId.value
    ensures input.turnIndex.Some? ==> q.turnIndex == input.turnIndex.value
  {
    var id := Given(input.queryId, "q-no-match-" + Decimal(k));
    Query(id, if o.redact then "[redacted query " + id + "]" else input.query, [], map[],
          Given(input.sessionId, "no-match"), Given(input.turnIndex, 0), NoMatch, input.forbiddenIds, None)
  }

  function NoMatchQueries(inputs: seq<NoMatchInput>, start: nat, o: Options): seq<Query> {
    seq(|inputs|, i requires 0 <= i < |inputs| => NoMatchQuery(inputs[i], start + i + 1, o))
  }

  /** How many of `n` things fit under the cap. */
  function Capped(n: nat, cap: Option<int>): (m: nat)
    ensures m <= n && (cap == None ==> m == n)
    ensures cap.Some? ==> (if cap.value < 0 then m == 0 else m <= cap.value && (m < n ==> m == cap.value))
  {
    if cap == None || cap.value >= n then n else if cap.value < 0 then 0 else cap.value
  }

  lemma StepAddsAtMostOne(st: State, l: Line, o: Options)
    ensures |st.queries| <= |Step(st, l, o).queries| <= |st.queries| + 1
    ensures Step(st, l, o).queries[..|st.queries|] == st.queries
    ensures |st.queries| == |st.memories| ==>
      (|Step(st, l, o).queries| == |Step(st, l, o).memories| && Step(st, l, o).memories[..|st.memories|] == st.memories)
  {
  }

  ghost predicate StartsWith(later: State, st: State) {
    && |st.queries| == |st.memories| <= |later.queries| == |later.memories|
    && later.queries[..|st.queries|] == st.queries
    && later.memories[..|st.memories|] == st.memories
  }

  lemma {:induction false} ReadGrows(lines: seq<Line>, i: nat, o: Options)
    requires i <= |lines|
    ensures StartsWith(Read(lines, o), Read(lines[..i], o))
    decreases |lines|
  {
    if i == |lines| {
      assert lines[..i] == lines;
      ReadIsInTurn(lines, o);
    } else {
      var n := |lines| - 1;
      ReadGrows(lines[..n], i, o);
      assert lines[..n][..i] == lines[..i];
      assert Read(lines, o) == Step(Read(lines[..n], o), lines[n], o);
      StepAddsAtMostOne(Read(lines[..n], o), lines[n], o);
      StartsWithTransitive(Read(lines, o), Read(lines[..n], o), Read(lines[..i], o));
    }
  }

  lemma StartsWithTransitive(a: State, b: State, c: State)
    requires StartsWith(a, b) && StartsWith(b, c)
    ensures StartsWith(a, c)
  {
    assert a.queries[..|b.queries|][..|c.queries|] == a.queries[..|c.queries|];
    assert a.memories[..|b.memories|][..|c.memories|] == a.memories[..|c.memories|];
  }

  /** The fixture's queries: as many answered ones as the cap allows, then as many others as still fit. */
  function FixtureQueries(lines: seq<Line>, o: Options, cap: Option<int>, noMatch: seq<NoMatchInput>): seq<Query> {
    var answered := AnsweredQueries(lines, o, cap);
    answered + NoMatchQueries(TakenInputs(noMatch, |answered|, cap), |answered|, o)
  }

  function AnsweredQueries(lines: seq<Line>, o: Options, cap: Option<int>): seq<Query> {
    var all := Read(lines, o).queries;
    all[..Capped(|all|, cap)]
  }

  function TakenInputs(noMatch: seq<NoMatchInput>, answered: nat, cap: Option<int>): seq<NoMatchInput> {
    noMatch[..Capped(|noMatch|, if cap == None then None else Some(cap.value - answered))]
  }

  /** The cap only cuts the end off: the fixture is the first queries and memories of the uncapped one. */
  method BuildSessionQrelsFixture(lines: seq<Line>, o: Options, cap: Option<int>, noMatch: seq<NoMatchInput>)
    returns (queries: seq<Query>, memories: seq<Memory>)
    ensures (var all := Read(lines, o);
      var n := Capped(|all.queries|, cap);
      && |all.queries| == |all.memories|
      && memories == all.memories[..n]
      && queries == FixtureQueries(lines, o, cap, noMatch))
    ensures cap.Some? && cap.value >= 0 ==> |queries| <= cap.value
  {
    queries, memories := [], [];
    var counters: map<string, nat>, pendingBySession: map<string, Pending> := map[], map[];
    var i := 0;
    while i < |lines| && !(cap.Some? && |queries| >= cap.value)
      invariant 0 <= i <= |lines|
      invariant State(counters, pendingBySession, queries, memories) == Read(lines[..i], o)
      invariant cap.Some? ==> queries == [] || |queries| <= cap.value
    {
      ghost var st := Read(lines[..i], o);
      ReadNext(lines, i, o);
      StepAddsAtMostOne(st, lines[i], o);
      counters, pendingBySession, queries, memories :=
        ReadLine(lines[i], o, counters, pendingBySession, queries, memories);
      i := i + 1;
    }
    assert lines[..|lines|] == lines;
    ReadGrows(lines, i, o);
    var remaining := if cap == None then None else Some(cap.value - |queries|);
    queries := AppendExplicitNoMatchQueries(queries, noMatch, remaining, o);
  }

  /** The body of the loop over the lines. */
  method ReadLine(l: Line, o: Options, counters: map<string, nat>, pending: map<string, Pending>,
                  queries: seq<Query>, memories: seq<Memory>)
    returns (counters': map<string, nat>, pending': map<string, Pending>, queries': seq<Query>, memories': seq<Memory>)
    ensures State(counters', pending', queries', memories') == Step(State(counters, pending, queries, memories), l, o)
  {
    counters', pending', queries', memories' := counters, pending, queries, memories;
    if l.Unreadable? || l.text == "" {
      return;
    }
    var sessionId := SessionOf(l);
    if l.role == User {
      if o.worth(l.text) {
        var turnIndex: nat;
        counters', turnIndex := NextSessionCounter(counters, sessionId);
        pending' := pending[sessionId := Pending(sessionId, l.text, turnIndex, l.timestamp)];
      } else {
        pending' := pending - {sessionId};
      }
      return;
    }
    if l.role == Assistant && sessionId in pending {
      var answer := o.trim(l.text);
      if answer == "" {
        return;
      }
      var m := MemoryFor(pending[sessionId], answer, l.timestamp, o);
      memories' := memories + [m];
      queries' := queries + [QueryFor(pending[sessionId], m, o)];
      pending' := pending - {sessionId};
    }
  }

  method NextSessionCounter(counters: map<string, nat>, sessionId: string)
    returns (counters': map<string, nat>, next: nat)
    ensures next == CounterOf(counters, sessionId) + 1 && counters' == counters[sessionId := next]
  {
    next := CounterOf(counters, sessionId) + 1;
    counters' := counters[sessionId := next];
  }

  method AppendExplicitNoMatchQueries(queries: seq<Query>, inputs: seq<NoMatchInput>,
                                      remaining: Option<int>, o: Options)
    returns (all: seq<Query>)
    ensures all == queries + NoMatchQueries(inputs[..Capped(|inputs|, remaining)], |queries|, o)
  {
    all := queries;
    var startIndex, taken := |queries|, inputs[..Capped(|inputs|, remaining)];
    var index := 0;
    while index < |taken|
      invariant 0 <= index <= |taken|
      invariant all == queries + NoMatchQueries(taken, startIndex, o)[..index]
    {
      all := all + [NoMatchQuery(taken[index], startIndex + index + 1, o)];
      index := index + 1;
    }
  }

  /** A generated no-match identifier is that of turn `k` of a session called "no-match". */
  lemma NoMatchIdClashesIff(k: nat, sessionId: string, turn: nat)
    ensures "q-no-match-" + Decimal(k) == "q-" + Suffix(sessionId, turn) <==> sessionId == "no-match" && turn == k
  {
    var a := Suffix("no-match", k);
    assert "q-no-match-" + Decimal(k) == "q-" + a;
    assert ("q-" + a)[2..] == a && ("q-" + Suffix(sessionId, turn))[2..] == Suffix(sessionId, turn);
    if a == Suffix(sessionId, turn) {
      SuffixInjective("no-match", k, sessionId, turn);
    }
  }

  lemma NoMatchIdsDiffer(j: nat, k: nat)
    requires j != k
    ensures "q-no-match-" + Decimal(j) != "q-no-match-" + Decimal(k)
  {
    assert ("q-no-match-" + Decimal(j))[11..] == Decimal(j) && ("q-no-match-" + Decimal(k))[11..] == Decimal(k);
    if Decimal(j) == Decimal(k) {
      DecimalInjective(j, k);
    }
  }

  /** Query `i` of a fixture with `n` answered ones was named by the builder, not by the caller. */
  predicate IsGenerated(inputs: seq<NoMatchInput>, n: nat, i: nat) {
    i < n || (i - n < |inputs| && inputs[i - n].queryId == None)
  }

  ghost predicate GeneratedIdsDistinct(queries: seq<Query>, inputs: seq<NoMatchInput>, n: nat) {
    forall i: nat, j: nat | i < j < |queries| && IsGenerated(inputs, n, i) && IsGenerated(inputs, n, j) ::
      queries[i].queryId != queries[j].queryId
  }

  /** An answered query takes the identifier of no-match question number `turn`. */
  predicate TakesNoMatchId(q: Query, inputs: seq<NoMatchInput>, n: nat) {
    q.sessionId == "no-match" && n < q.turnIndex <= n + |inputs| && inputs[q.turnIndex - n - 1].queryId == None
  }

  /** Each query is named after its session and turn. */
  ghost predicate Named(answered: seq<Query>) {
    forall i | 0 <= i < |answered| ::
      answered[i].turnIndex >= 1 && answered[i].queryId == "q-" + Suffix(answered[i].sessionId, answered[i].turnIndex)
  }

  lemma AnsweredAreNamed(lines: seq<Line>, o: Options, cap: Option<int>)
    ensures (var answered := AnsweredQueries(lines, o, cap);
      Named(answered) && forall i, j | 0 <= i < j < |answered| :: answered[i].queryId != answered[j].queryId)
  {
    var st, answered := Read(lines, o), AnsweredQueries(lines, o, cap);
    IdentifiersAreDistinct(lines, o);
    forall i | 0 <= i < |answered|
      ensures answered[i].turnIndex >= 1
      ensures answered[i].queryId == "q-" + Suffix(answered[i].sessionId, answered[i].turnIndex)
    {
      assert answered[i] == st.queries[i] && Paired(st.queries, st.memories, i);
    }
    assert forall i | 0 <= i < |answered| :: answered[i] == st.queries[i];
  }

  /** An answered query and a generated no-match one have the same identifier only in that one case. */
  lemma CrossPair(answered: seq<Query>, inputs: seq<NoMatchInput>, o: Options, i: nat, k: nat)
    requires Named(answered) && i < |answered| && k < |inputs| && inputs[k].queryId == None
    ensures answered[i].queryId == NoMatchQuery(inputs[k], |answered| + k + 1, o).queryId
      <==> TakesNoMatchId(answered[i], inputs, |answered|) && answered[i].turnIndex == |answered| + k + 1
  {
    NoMatchIdClashesIff(|answered| + k + 1, answered[i].sessionId, answered[i].turnIndex);
  }

  lemma OthersDiffer(inputs: seq<NoMatchInput>, n: nat, o: Options, j: nat, k: nat)
    requires j < k < |inputs| && inputs[j].queryId == None && inputs[k].queryId == None
    ensures NoMatchQuery(inputs[j], n + j + 1, o).queryId != NoMatchQuery(inputs[k], n + k + 1, o).queryId
  {
    NoMatchIdsDiffer(n + j + 1, n + k + 1);
  }

  /** Where two generated identifiers of a fixture agree. */
  lemma GeneratedPair(answered: seq<Query>, inputs: seq<NoMatchInput>, o: Options, i: nat, j: nat)
    requires Named(answered) && forall x, y | 0 <= x < y < |answered| :: answered[x].queryId != answered[y].queryId
    requires i < j < |answered| + |inputs| && IsGenerated(inputs, |answered|, i) && IsGenerated(inputs, |answered|, j)
    ensures (var all, n := answered + NoMatchQueries(inputs, |answered|, o), |answered|;
      all[i].queryId == all[j].queryId
      <==> (i < n <= j && TakesNoMatchId(all[i], inputs, n) && all[i].turnIndex == j + 1))
  {
    var n := |answered|;
    if i < n <= j {
      CrossPair(answered, inputs, o, i, j - n);
    } else if n <= i {
      OthersDiffer(inputs, n, o, i - n, j - n);
    }
  }

  /**
    The identifiers a fixture generates are distinct exactly when no
    answered query takes that of a no-match question.
   */
  lemma FixtureIdsDistinctIff(lines: seq<Line>, o: Options, cap: Option<int>, noMatch: seq<NoMatchInput>)
    ensures (var answered := AnsweredQueries(lines, o, cap);
      var n := |answered|;
      var inputs := TakenInputs(noMatch, n, cap);
      GeneratedIdsDistinct(FixtureQueries(lines, o, cap, noMatch), inputs, n)
      <==> forall q | q in answered :: !TakesNoMatchId(q, inputs, n))
  {
    var answered := AnsweredQueries(lines, o, cap);
    AnsweredAreNamed(lines, o, cap);
    GeneratedDistinctIff(answered, TakenInputs(noMatch, |answered|, cap), o);
  }

  lemma GeneratedDistinctIff(answered: seq<Query>, inputs: seq<NoMatchInput>, o: Options)
    requires Named(answered) && forall x, y | 0 <= x < y < |answered| :: answered[x].queryId != answered[y].queryId
    ensures (var all, n := answered + NoMatchQueries(inputs, |answered|, o), |answered|;
      GeneratedIdsDistinct(all, inputs, n) <==> forall q | q in answered :: !TakesNoMatchId(q, inputs, n))
  {
    if q :| q in answered && TakesNoMatchId(q, inputs, |answered|) {
      var i: nat :| i < |answered| && answered[i] == q;
      TakenIdRepeats(answered, inputs, o, i);
    } else {
      UntakenIdsDiffer(answered, inputs, o);
    }
  }

  lemma TakenIdRepeats(answered: seq<Query>, inputs: seq<NoMatchInput>, o: Options, i: nat)
    requires Named(answered) && forall x, y | 0 <= x < y < |answered| :: answered[x].queryId != answered[y].queryId
    requires i < |answered| && TakesNoMatchId(answered[i], inputs, |answered|)
    ensures !GeneratedIdsDistinct(answered + NoMatchQueries(inputs, |answered|, o), inputs, |answered|)
  {
    var j := answered[i].turnIndex - 1;
    assert IsGenerated(inputs, |answered|, i) && IsGenerated(inputs, |answered|, j);
    GeneratedPair(answered, inputs, o, i, j);
  }

  lemma UntakenIdsDiffer(answered: seq<Query>, inputs: seq<NoMatchInput>, o: Options)
    requires Named(answered) && forall x, y | 0 <= x < y < |answered| :: answered[x].queryId != answered[y].queryId
    requires forall q | q in answered :: !TakesNoMatchId(q, inputs, |answered|)
    ensures GeneratedIdsDistinct(answered + NoMatchQueries(inputs, |answered|, o), inputs, |answered|)
  {
    var all, n := answered + NoMatchQueries(inputs, |answered|, o), |answered|;
    forall i: nat, j: nat | i < j < |all| && IsGenerated(inputs, n, i) && IsGenerated(inputs, n, j)
      ensures all[i].queryId != all[j].queryId
    {
      GeneratedPair(answered, inputs, o, i, j);
      assert i < n ==> all[i] in answered;
    }
  }

  /** It happens: two prompts and an answer in a session called "no-match", and one no-match question. */
  lemma FixtureRepeatsAnId(o: Options, first: string, second: string, answer: string, question: string)
    requires o.worth(first) && o.worth(second) && o.trim(answer) != "" && first != "" && second != "" && answer != ""
    ensures (var lines := [Entry(User, "no-match", first, None), Entry(User, "no-match", second, None),
                           Entry(Assistant, "no-match", answer, None)];
      var all := FixtureQueries(lines, o, None, [NoMatchInput(None, question, [], None, None)]);
      |all| == 2 && all[0].queryId == all[1].queryId == "q-no-match-2")
  {
    var lines := [Entry(User, "no-match", first, None), Entry(User, "no-match", second, None),
                  Entry(Assistant, "no-match", answer, None)];
    assert lines[..0] == [] && lines[..3] == lines;
    ReadNext(lines, 0, o);
    ReadNext(lines, 1, o);
    ReadNext(lines, 2, o);
    var asked := Read(lines[..2], o);
    assert asked.pending["no-match"].turnIndex == 2 && asked.queries == [];
    assert Read(lines, o) == Answer(asked, "no-match", lines[2], o);
    NoMatchIdClashesIff(2, "no-match", 2);
    assert Decimal(2) == "2" && "q-no-match-" + "2" == "q-no-match-2";
  }
}
