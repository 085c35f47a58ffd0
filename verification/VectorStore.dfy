/**
  The vector upsert: delete the batch's ids in chunks, add the rows, and start over on a commit
  conflict, at most three times.  A failed commit changes nothing; which commits fail is up to
  the database and enters as a plan of outcomes.
 */
module VectorStore {
  import opened Common

  datatype Row = Row(id: string, payload: string)

  datatype Outcome = Ok | Conflict | Broken

  const MAX_LANCE_COMMIT_ATTEMPTS: nat := 3
  const MAX_DELETE_PREDICATE_IDS: nat := 200

  // ---------------------------------------------------------------- what an upsert means

  function Ids(rows: seq<Row>): seq<string> {
    if rows == [] then [] else [rows[0].id] + Ids(rows[1..])
  }

  /** The rows whose id is not listed, in order. */
  function Without(table: seq<Row>, ids: seq<string>): seq<Row> {
    if table == [] then []
    else (if table[0].id in ids then [] else [table[0]]) + Without(table[1..], ids)
  }

  function Upserted(table: seq<Row>, rows: seq<Row>): seq<Row> {
    Without(table, Ids(rows)) + rows
  }

  lemma {:induction false} IdsMembers(rows: seq<Row>)
    ensures |Ids(rows)| == |rows| && forall i | 0 <= i < |rows| :: Ids(rows)[i] == rows[i].id
  {
    if rows != [] {
      IdsMembers(rows[1..]);
    }
  }

  lemma {:induction false} WithoutConcat(a: seq<Row>, b: seq<Row>, ids: seq<string>)
    ensures Without(a + b, ids) == Without(a, ids) + Without(b, ids)
  {
    if a == [] {
      assert a + b == b;
    } else {
      var r, tail := a[0], a[1..];
      WithoutConcat(tail, b, ids);
      WithoutCons(r, tail, ids);
      WithoutCons(r, tail + b, ids);
      assert [r] + tail == a && [r] + (tail + b) == a + b;
      Associative(if r.id in ids then [] else [r], Without(tail, ids), Without(b, ids));
    }
  }

  lemma WithoutCons(r: Row, table: seq<Row>, ids: seq<string>)
    ensures Without([r] + table, ids) == (if r.id in ids then [] else [r]) + Without(table, ids)
  {
    var all := [r] + table;
    assert all != [] && all[0] == r && all[1..] == table;
  }

  lemma {:induction false} WithoutTwice(table: seq<Row>, a: seq<string>, b: seq<string>)
    ensures Without(Without(table, a), b) == Without(table, a + b)
  {
    if table != [] {
      WithoutTwice(table[1..], a, b);
      var r, rest := table[0], Without(table[1..], a);
      if r.id !in a {
        assert Without(table, a) == [r] + rest;
        WithoutCons(r, rest, b);
      } else {
        assert Without(table, a) == rest;
      }
    }
  }

  lemma {:induction false} WithoutSameMembers(table: seq<Row>, a: seq<string>, b: seq<string>)
    requires forall x :: x in a <==> x in b
    ensures Without(table, a) == Without(table, b)
  {
    if table != [] {
      WithoutSameMembers(table[1..], a, b);
    }
  }

  lemma {:induction false} WithoutAll(rows: seq<Row>, ids: seq<string>)
    requires forall i | 0 <= i < |rows| :: rows[i].id in ids
    ensures Without(rows, ids) == []
  {
    if rows != [] {
      WithoutAll(rows[1..], ids);
    }
  }

  /** Repeating an upsert changes nothing. */
  lemma UpsertIsIdempotent(table: seq<Row>, rows: seq<Row>)
    ensures Upserted(Upserted(table, rows), rows) == Upserted(table, rows)
  {
    var ids := Ids(rows);
    WithoutConcat(Without(table, ids), rows, ids);
    WithoutTwice(table, ids, ids);
    WithoutSameMembers(table, ids + ids, ids);
    IdsMembers(rows);
    WithoutAll(rows, ids);
  }

  ghost predicate DistinctIds(rows: seq<Row>) {
    forall i, j | 0 <= i < j < |rows| :: rows[i].id != rows[j].id
  }

  lemma {:induction false} WithoutMembers(table: seq<Row>, ids: seq<string>)
    ensures forall r :: r in Without(table, ids) <==> r in table && r.id !in ids
    ensures DistinctIds(table) ==> DistinctIds(Without(table, ids))
  {
    if table != [] {
      WithoutMembers(table[1..], ids);
      assert table == [table[0]] + table[1..];
      var rest := Without(table[1..], ids);
      if DistinctIds(table) {
        forall i | 0 <= i < |rest|
          ensures rest[i].id != table[0].id
        {
          assert rest[i] in rest && rest[i] in table[1..];
          var k :| 0 <= k < |table[1..]| && table[1..][k] == rest[i];
          assert table[k + 1] == rest[i];
        }
      }
    }
  }

  /** A table with one row per id stays so exactly when the batch names no id twice. */
  lemma UpsertKeepsDistinctIdsIff(table: seq<Row>, rows: seq<Row>)
    requires DistinctIds(table)
    ensures DistinctIds(Upserted(table, rows)) <==> DistinctIds(rows)
  {
    var kept, after := Without(table, Ids(rows)), Upserted(table, rows);
    WithoutMembers(table, Ids(rows));
    IdsMembers(rows);
    if DistinctIds(after) {
      forall i, j | 0 <= i < j < |rows|
        ensures rows[i].id != rows[j].id
      {
        assert after[|kept| + i] == rows[i] && after[|kept| + j] == rows[j];
      }
    }
    if DistinctIds(rows) {
      forall i, j | 0 <= i < j < |after|
        ensures after[i].id != after[j].id
      {
        if i < |kept| && |kept| <= j {
          assert kept[i] in kept && kept[i].id !in Ids(rows);
          assert Ids(rows)[j - |kept|] == after[j].id;
        }
      }
    }
  }

  // ---------------------------------------------------------------- delete predicates

  function Concat(chunks: seq<seq<string>>): seq<string> {
    if chunks == [] then [] else Concat(chunks[..|chunks| - 1]) + chunks[|chunks| - 1]
  }

  method BuildIdDeletePredicates(ids: seq<string>) returns (chunks: seq<seq<string>>)
    ensures Concat(chunks) == ids
    ensures forall c | c in chunks :: 0 < |c| <= MAX_DELETE_PREDICATE_IDS
    ensures |chunks| == (|ids| + MAX_DELETE_PREDICATE_IDS - 1) / MAX_DELETE_PREDICATE_IDS
  {
    if |ids| == 0 {
      return [];
    }
    if |ids| == 1 {
      assert Concat([ids]) == Concat([ids][..0]) + ids;
      return [ids];
    }
    chunks := [];
    var offset := 0;
    while offset < |ids|
      invariant offset == |chunks| * MAX_DELETE_PREDICATE_IDS || (offset >= |ids| && chunks != [])
      invariant |chunks| * MAX_DELETE_PREDICATE_IDS < |ids| + MAX_DELETE_PREDICATE_IDS
      invariant offset <= |chunks| * MAX_DELETE_PREDICATE_IDS
      invariant Concat(chunks) == ids[..if offset < |ids| then offset else |ids|]
      invariant forall c | c in chunks :: 0 < |c| <= MAX_DELETE_PREDICATE_IDS
    {
      var end := if offset + MAX_DELETE_PREDICATE_IDS < |ids| then offset + MAX_DELETE_PREDICATE_IDS else |ids|;
      var chunk := ids[offset..end];
      assert (chunks + [chunk])[..|chunks|] == chunks;
      assert ids[..offset] + chunk == ids[..end];
      chunks := chunks + [chunk];
      offset := offset + MAX_DELETE_PREDICATE_IDS;
    }
    assert ids[..|ids|] == ids;
  }

  // ---------------------------------------------------------------- the literals in a predicate

  /** A quote inside the value is doubled. */
  function Escape(value: string): string {
    if value == [] then []
    else (if value[0] == '\'' then ['\'', '\''] else [value[0]]) + Escape(value[1..])
  }

  function Literal(value: string): string {
    ['\''] + Escape(value) + ['\'']
  }

  function LiteralList(values: seq<string>): string {
    if values == [] then []
    else if |values| == 1 then Literal(values[0])
    else Literal(values[0]) + ", " + LiteralList(values[1..])
  }

  datatype Scan = NoLiteral | Found(value: string, rest: string)

  /** How SQL reads a string literal after its opening quote: up to the first quote that is not doubled. */
  function ScanBody(text: string): Scan {
    if text == [] then NoLiteral
    else if text[0] == '\'' then
      if |text| > 1 && text[1] == '\'' then
        match ScanBody(text[2..]) case Found(v, rest) => Found(['\''] + v, rest) case NoLiteral => NoLiteral
      else Found([], text[1..])
    else
      match ScanBody(text[1..]) case Found(v, rest) => Found([text[0]] + v, rest) case NoLiteral => NoLiteral
  }

  function ScanLiteral(text: string): Scan {
    if text != [] && text[0] == '\'' then ScanBody(text[1..]) else NoLiteral
  }

  /** The values of a comma-separated list of literals. */
  function ScanList(text: string): seq<string>
    decreases |text|
  {
    match ScanLiteral(text)
    case NoLiteral => []
    case Found(v, rest) =>
      if |rest| >= 2 && rest[..2] == ", " && |rest| < |text| then [v] + ScanList(rest[2..]) else [v]
  }

  lemma {:induction false} ScanEscaped(value: string, rest: string)
    requires rest == [] || rest[0] != '\''
    ensures ScanBody(Escape(value) + ['\''] + rest) == Found(value, rest)
  {
    var text := Escape(value) + ['\''] + rest;
    if value == [] {
      assert text == ['\''] + rest;
    } else {
      ScanEscaped(value[1..], rest);
      var tail := Escape(value[1..]) + ['\''] + rest;
      ScanOne(value[0], tail, value[1..], rest);
      assert text == (if value[0] == '\'' then ['\'', '\''] else [value[0]]) + tail;
    }
  }

  /** Reading one escaped character. */
  lemma ScanOne(c: char, tail: string, value: string, rest: string)
    requires ScanBody(tail) == Found(value, rest)
    ensures ScanBody((if c == '\'' then ['\'', '\''] else [c]) + tail) == Found([c] + value, rest)
  {
    if c == '\'' {
      var text := ['\'', '\''] + tail;
      assert text[0] == '\'' && text[1] == '\'' && text[2..] == tail;
    } else {
      var text := [c] + tail;
      assert text[0] == c && text[1..] == tail;
    }
  }

  lemma ScanLiteralReads(value: string, rest: string)
    requires rest == [] || rest[0] != '\''
    ensures ScanLiteral(Literal(value) + rest) == Found(value, rest)
  {
    ScanEscaped(value, rest);
    assert (Literal(value) + rest)[1..] == Escape(value) + ['\''] + rest;
  }

  /** Whatever characters the ids hold, the predicate names exactly those ids. */
  lemma {:induction false} LiteralListRoundTrip(values: seq<string>)
    requires values != []
    ensures ScanList(LiteralList(values)) == values
  {
    if |values| == 1 {
      ScanLiteralReads(values[0], []);
      assert Literal(values[0]) + [] == Literal(values[0]);
    } else {
      var tail := LiteralList(values[1..]);
      assert LiteralList(values) == Literal(values[0]) + (", " + tail);
      ScanListCons(values[0], tail);
      LiteralListRoundTrip(values[1..]);
    }
  }

  lemma ScanListCons(value: string, tail: string)
    ensures ScanList(Literal(value) + (", " + tail)) == [value] + ScanList(tail)
  {
    var rest := ", " + tail;
    ScanLiteralReads(value, rest);
    assert rest[..2] == ", " && rest[2..] == tail;
  }

  // ---------------------------------------------------------------- the database

  function Count(outcomes: seq<Outcome>, o: Outcome): nat {
    if outcomes == [] then 0
    else Count(outcomes[..|outcomes| - 1], o) + if outcomes[|outcomes| - 1] == o then 1 else 0
  }

  lemma CountSnoc(outcomes: seq<Outcome>, last: Outcome, o: Outcome)
    ensures Count(outcomes + [last], o) == Count(outcomes, o) + if last == o then 1 else 0
  {
    assert (outcomes + [last])[..|outcomes|] == outcomes;
  }

  /**
    One table.  `plan` decides the fate of the commits to come and `reopenings` that of the attempts
    to open it again; `log` is how the commits made ended, and `notReopened` counts the failures.
   */
  class LanceTable {
    var rows: seq<Row>
    var plan: seq<Outcome>
    var log: seq<Outcome>
    var reopenings: seq<bool>
    var notReopened: nat

    constructor (rows: seq<Row>, plan: seq<Outcome>, reopenings: seq<bool>)
      ensures this.rows == rows && this.plan == plan && this.reopenings == reopenings && log == [] && notReopened == 0
    {
      this.rows, this.plan, this.reopenings, log, notReopened := rows, plan, reopenings, [], 0;
    }

    method Reopen() returns (ok: bool)
      modifies this`reopenings, this`notReopened
      ensures ok == (old(reopenings) == [] || old(reopenings)[0])
      ensures if old(reopenings) == [] then reopenings == [] else old(reopenings) == [ok] + reopenings
      ensures notReopened == old(notReopened) + if ok then 0 else 1
    {
      ok := reopenings == [] || reopenings[0];
      reopenings := if reopenings == [] then [] else reopenings[1..];
      notReopened := if ok then notReopened else notReopened + 1;
    }

    method Commit() returns (o: Outcome)
      modifies this`plan, this`log
      ensures log == old(log) + [o]
      ensures forall x :: Count(log, x) == Count(old(log), x) + if o == x then 1 else 0
      ensures if old(plan) == [] then o == Ok && plan == [] else old(plan) == [o] + plan
    {
      forall x
        ensures Count(log + [if plan == [] then Ok else plan[0]], x)
             == Count(log, x) + if (if plan == [] then Ok else plan[0]) == x then 1 else 0
      {
        CountSnoc(log, if plan == [] then Ok else plan[0], x);
      }
      o := if plan == [] then Ok else plan[0];
      plan := if plan == [] then [] else plan[1..];
      log := log + [o];
    }

    method Delete(ids: seq<string>) returns (o: Outcome)
      modifies this`rows, this`plan, this`log
      ensures forall x :: Count(log, x) == Count(old(log), x) + if o == x then 1 else 0
      ensures rows == if o == Ok then Without(old(rows), ids) else old(rows)
    {
      o := Commit();
      if o == Ok {
        rows := Without(rows, ids);
      }
    }

    method Add(more: seq<Row>) returns (o: Outcome)
      modifies this`rows, this`plan, this`log
      ensures forall x :: Count(log, x) == Count(old(log), x) + if o == x then 1 else 0
      ensures rows == if o == Ok then old(rows) + more else old(rows)
    {
      o := Commit();
      if o == Ok {
        rows := rows + more;
      }
    }
  }

  /** A prefix of the batch's ids has been deleted, and nothing else has changed. */
  ghost predicate PartlyDeleted(before: seq<Row>, now: seq<Row>, ids: seq<string>) {
    exists n: nat | n <= |ids| :: now == Without(before, ids[..n])
  }

  /** Deleting the first ids again, chunk after chunk, catches up with what was deleted before. */
  lemma MoreDeleted(before: seq<Row>, ids: seq<string>, n: nat, a: nat, b: nat)
    requires n <= |ids| && a <= b <= |ids|
    ensures Without(Without(before, ids[..if a <= n then n else a]), ids[a..b])
         == Without(before, ids[..if b <= n then n else b])
  {
    var k, m := if a <= n then n else a, if b <= n then n else b;
    WithoutTwice(before, ids[..k], ids[a..b]);
    forall x
      ensures x in ids[..k] + ids[a..b] <==> x in ids[..m]
    {
      assert forall i | 0 <= i < k :: ids[..k][i] == ids[..m][i];
      assert forall i | a <= i < b :: ids[a..b][i - a] == ids[..m][i];
    }
    WithoutSameMembers(before, ids[..k] + ids[a..b], ids[..m]);
  }

  lemma {:induction false} ConcatPrefix(chunks: seq<seq<string>>, k: nat)
    requires k <= |chunks|
    ensures |Concat(chunks[..k])| <= |Concat(chunks)|
    ensures Concat(chunks[..k]) == Concat(chunks)[..|Concat(chunks[..k])|]
    decreases |chunks|
  {
    if k < |chunks| {
      ConcatPrefix(chunks[..|chunks| - 1], k);
      assert chunks[..|chunks| - 1][..k] == chunks[..k];
    } else {
      assert chunks[..k] == chunks;
    }
  }

  /** The place of chunk `k` in the whole list of ids. */
  lemma ChunkPlace(chunks: seq<seq<string>>, ids: seq<string>, k: nat) returns (a: nat, b: nat)
    requires k < |chunks| && Concat(chunks) == ids
    ensures a == |Concat(chunks[..k])| && b == |Concat(chunks[..k + 1])| && a <= b <= |ids| && chunks[k] == ids[a..b]
  {
    ConcatPrefix(chunks, k + 1);
    assert chunks[..k + 1][..k] == chunks[..k];
    a, b := |Concat(chunks[..k])|, |Concat(chunks[..k + 1])|;
    assert ids[..b] == Concat(chunks[..k]) + chunks[k];
    assert ids[a..b] == ids[..b][a..];
  }

  /** One attempt: all deletes, then the add; it ends at the first commit that fails. */
  method Attempt(table: LanceTable, chunks: seq<seq<string>>, rows: seq<Row>, ghost before: seq<Row>, ghost n: nat)
    returns (o: Outcome, ghost reached: nat)
    requires Concat(chunks) == Ids(rows) && n <= |Ids(rows)|
    requires table.rows == Without(before, Ids(rows)[..n])
    modifies table`rows, table`plan, table`log
    ensures o == Ok ==> table.rows == Upserted(before, rows)
    ensures o != Ok ==> reached <= |Ids(rows)| && table.rows == Without(before, Ids(rows)[..reached])
    ensures Count(table.log, Conflict) == old(Count(table.log, Conflict)) + if o == Conflict then 1 else 0
    ensures Count(table.log, Broken) == old(Count(table.log, Broken)) + if o == Broken then 1 else 0
  {
    ghost var ids := Ids(rows);
    ghost var a: nat := 0;
    reached := n;
    for k := 0 to |chunks|
      invariant a == |Concat(chunks[..k])| <= |ids|
      invariant reached == if a <= n then n else a
      invariant table.rows == Without(before, ids[..reached])
      invariant Count(table.log, Conflict) == old(Count(table.log, Conflict))
      invariant Count(table.log, Broken) == old(Count(table.log, Broken))
    {
      ghost var a', b := ChunkPlace(chunks, ids, k);
      MoreDeleted(before, ids, n, a, b);
      o := table.Delete(chunks[k]);
      if o != Ok {
        return;
      }
      a := b;
      reached := if a <= n then n else a;
    }
    assert chunks[..|chunks|] == chunks;
    assert ids[..|ids|] == ids;
    o := table.Add(rows);
  }

  method WriteExistingRowsWithRetry(table: LanceTable, rows: seq<Row>) returns (ok: bool)
    modifies table
    ensures ok ==> table.rows == Upserted(old(table.rows), rows)
    ensures !ok ==> PartlyDeleted(old(table.rows), table.rows, Ids(rows))
    ensures ok <==> (Count(table.log, Broken) == old(Count(table.log, Broken)) &&
      Count(table.log, Conflict) < old(Count(table.log, Conflict)) + MAX_LANCE_COMMIT_ATTEMPTS &&
      table.notReopened == old(table.notReopened))
  {
    ghost var before := table.rows;
    ghost var n: nat := 0;
    var deletePredicates := BuildIdDeletePredicates(Ids(rows));
    WithoutNothing(before);
    assert Ids(rows)[..0] == [];
    var attempt := 1;
    while true
      invariant 1 <= attempt <= MAX_LANCE_COMMIT_ATTEMPTS
      invariant n <= |Ids(rows)| && table.rows == Without(before, Ids(rows)[..n])
      invariant Count(table.log, Broken) == old(Count(table.log, Broken))
      invariant Count(table.log, Conflict) == old(Count(table.log, Conflict)) + attempt - 1
      invariant table.notReopened == old(table.notReopened)
      decreases MAX_LANCE_COMMIT_ATTEMPTS - attempt
    {
      var o, reached := Attempt(table, deletePredicates, rows, before, n);
      if o == Ok {
        return true;
      }
      n := reached;
      if o != Conflict || attempt == MAX_LANCE_COMMIT_ATTEMPTS {
        return false;
      }
      var reopened := table.Reopen();
      if !reopened {
        return false;
      }
      attempt := attempt + 1;
    }
  }

  lemma {:induction false} WithoutNothing(table: seq<Row>)
    ensures Without(table, []) == table
  {
    if table != [] {
      WithoutNothing(table[1..]);
    }
  }

  /** What a failed upsert leaves: every row outside the batch, and no row that was not there. */
  lemma FailedUpsertSparesOthers(before: seq<Row>, now: seq<Row>, ids: seq<string>)
    requires PartlyDeleted(before, now, ids)
    ensures Without(now, ids) == Without(before, ids)
    ensures forall r | r in now :: r in before
  {
    var n: nat :| n <= |ids| && now == Without(before, ids[..n]);
    WithoutMembers(before, ids[..n]);
    WithoutTwice(before, ids[..n], ids);
    forall x
      ensures x in ids[..n] + ids <==> x in ids
    {
      assert forall i | 0 <= i < n :: ids[..n][i] == ids[i];
    }
    WithoutSameMembers(before, ids[..n] + ids, ids);
  }

  // ---------------------------------------------------------------- tables by name

  /** How an attempt to create a table ends: another process may have been first, or the database refuses. */
  datatype Creation = Created | AlreadyThere(table: LanceTable) | Refused

  class VectorStore {
    var tables: map<string, LanceTable>

    ghost predicate Valid()
      reads this
    {
      forall a, b | a in tables && b in tables && a != b :: tables[a] != tables[b]
    }

    constructor ()
      ensures tables == map[]
    {
      tables := map[];
    }

    method UpsertRows(name: string, rows: seq<Row>, creation: Creation) returns (ok: bool)
      requires Valid()
      requires creation.AlreadyThere? ==> forall n | n in tables :: tables[n] != creation.table
      modifies this, tables.Values, if creation.AlreadyThere? then {creation.table} else {}
      ensures Valid()
      ensures tables.Keys == old(tables.Keys) + if name !in old(tables) && creation == Refused then {} else {name}
      ensures forall n | n in old(tables) :: tables[n] == old(tables[n])
      ensures name in old(tables) ==>
        (if ok then tables[name].rows == Upserted(old(tables[name].rows), rows)
               else PartlyDeleted(old(tables[name].rows), tables[name].rows, Ids(rows)))
      ensures name !in old(tables) && creation == Created ==> ok && fresh(tables[name]) && tables[name].rows == rows
      ensures name !in old(tables) && creation == Refused ==> !ok && tables == old(tables)
      ensures name !in old(tables) && creation.AlreadyThere? ==> tables[name] == creation.table
      ensures name !in old(tables) && creation.AlreadyThere? ==>
        (if ok then creation.table.rows == Upserted(old(creation.table.rows), rows)
               else PartlyDeleted(old(creation.table.rows), creation.table.rows, Ids(rows)))
      ensures forall n | n in old(tables) && n != name :: tables[n].rows == old(tables[n].rows)
    {
      if name in tables {
        ok := WriteExistingRowsWithRetry(tables[name], rows);
        return;
      }
      match creation
      case Created =>
        var created := new LanceTable(rows, [], []);
        tables := tables[name := created];
        ok := true;
      case Refused =>
        ok := false;
      case AlreadyThere(raced) =>
        tables := tables[name := raced];
        ok := WriteExistingRowsWithRetry(raced, rows);
    }
  }
}
