/**
  Round-robin choice of benchmark pairs: one per session and round, so that no session crowds
  out the others.
 */
module DiverseSelect {
  import opened Sorting

  datatype Pair = Pair(sessionId: string, prompt: string, answer: string)

  function Of(pairs: seq<Pair>, s: string): seq<Pair> {
    if pairs == [] then []
    else
      var earlier, p := Of(pairs[..|pairs| - 1], s), pairs[|pairs| - 1];
      if p.sessionId == s then earlier + [p] else earlier
  }

  /** The sessions in the order they first appear. */
  function FirstSeen(pairs: seq<Pair>): seq<string> {
    if pairs == [] then []
    else
      var earlier, p := FirstSeen(pairs[..|pairs| - 1]), pairs[|pairs| - 1];
      if p.sessionId in earlier then earlier else earlier + [p.sessionId]
  }

  lemma OfSnoc(pairs: seq<Pair>, p: Pair, s: string)
    ensures Of(pairs + [p], s) == if p.sessionId == s then Of(pairs, s) + [p] else Of(pairs, s)
  {
    assert (pairs + [p])[..|pairs|] == pairs;
  }

  lemma {:induction false} FirstSeenMembers(pairs: seq<Pair>)
    ensures Distinct(FirstSeen(pairs))
    ensures forall i | 0 <= i < |pairs| :: pairs[i].sessionId in FirstSeen(pairs)
  {
    if pairs != [] {
      FirstSeenMembers(pairs[..|pairs| - 1]);
      assert forall i | 0 <= i < |pairs| - 1 :: pairs[..|pairs| - 1][i] == pairs[i];
    }
  }

  // ---------------------------------------------------------------- rounds

  /** What has been chosen before session `j` of round `d`. */
  function Chosen(pairs: seq<Pair>, sessions: seq<string>, d: nat, j: nat): seq<Pair>
    requires j <= |sessions|
    decreases d, j
  {
    if j > 0 then ChosenNext(Chosen(pairs, sessions, d, j - 1), Of(pairs, sessions[j - 1]), d)
    else if d > 0 then Chosen(pairs, sessions, d - 1, |sessions|)
    else []
  }

  function ChosenNext(chosen: seq<Pair>, bucket: seq<Pair>, d: nat): seq<Pair> {
    if d < |bucket| then chosen + [bucket[d]] else chosen
  }

  function Min(a: int, b: int): int {
    if a < b then a else b
  }

  /** How many pairs of session `s` are chosen by then. */
  function Share(pairs: seq<Pair>, sessions: seq<string>, d: nat, j: nat, s: string): nat
    requires j <= |sessions|
  {
    Min(|Of(pairs, s)|, if s in sessions[..j] then d + 1 else d)
  }

  lemma {:induction false} OfBelongs(pairs: seq<Pair>, s: string)
    ensures forall i | 0 <= i < |Of(pairs, s)| :: Of(pairs, s)[i].sessionId == s
  {
    if pairs != [] {
      OfBelongs(pairs[..|pairs| - 1], s);
    }
  }

  /** Each session has given the first pairs of its bucket, as many as the rounds allow. */
  lemma {:induction false} ChosenTakesShares(pairs: seq<Pair>, sessions: seq<string>, d: nat, j: nat, s: string)
    requires j <= |sessions| && Distinct(sessions) && s in sessions
    ensures Of(Chosen(pairs, sessions, d, j), s) == Of(pairs, s)[..Share(pairs, sessions, d, j, s)]
    decreases d, j
  {
    if j > 0 {
      ChosenTakesShares(pairs, sessions, d, j - 1, s);
      var before, bucket := Chosen(pairs, sessions, d, j - 1), Of(pairs, sessions[j - 1]);
      assert Chosen(pairs, sessions, d, j) == ChosenNext(before, bucket, d);
      if s == sessions[j - 1] {
        OwnTurn(pairs, sessions, d, j - 1, before);
      } else {
        OthersTurn(pairs, sessions, d, j - 1, before, s);
      }
    } else if d > 0 {
      ChosenTakesShares(pairs, sessions, d - 1, |sessions|, s);
      assert sessions[..|sessions|] == sessions && sessions[..0] == [];
      assert Chosen(pairs, sessions, d, 0) == Chosen(pairs, sessions, d - 1, |sessions|);
    } else {
      assert sessions[..0] == [] && Chosen(pairs, sessions, 0, 0) == [];
    }
  }

  /** A session's own turn gives the next pair of its bucket, if there is one. */
  lemma OwnTurn(pairs: seq<Pair>, sessions: seq<string>, d: nat, j: nat, before: seq<Pair>)
    requires j < |sessions| && Distinct(sessions)
    requires (var s := sessions[j]; Of(before, s) == Of(pairs, s)[..Share(pairs, sessions, d, j, s)])
    ensures (var s := sessions[j];
      Of(ChosenNext(before, Of(pairs, s), d), s) == Of(pairs, s)[..Share(pairs, sessions, d, j + 1, s)])
  {
    var s, bucket := sessions[j], Of(pairs, sessions[j]);
    NotYet(sessions, j);
    assert sessions[..j + 1] == sessions[..j] + [s];
    OfBelongs(pairs, s);
    if d < |bucket| {
      OfSnoc(before, bucket[d], s);
      assert bucket[..d + 1] == bucket[..d] + [bucket[d]];
    }
  }

  /** Another session's turn leaves it alone. */
  lemma OthersTurn(pairs: seq<Pair>, sessions: seq<string>, d: nat, j: nat, before: seq<Pair>, s: string)
    requires j < |sessions| && s != sessions[j]
    ensures Of(ChosenNext(before, Of(pairs, sessions[j]), d), s) == Of(before, s)
    ensures Share(pairs, sessions, d, j + 1, s) == Share(pairs, sessions, d, j, s)
  {
    var bucket := Of(pairs, sessions[j]);
    assert sessions[..j + 1] == sessions[..j] + [sessions[j]];
    OfBelongs(pairs, sessions[j]);
    if d < |bucket| {
      OfSnoc(before, bucket[d], s);
    }
  }

  lemma NotYet(sessions: seq<string>, j: nat)
    requires j < |sessions| && Distinct(sessions)
    ensures sessions[j] !in sessions[..j]
  {
  }

  /** No session is more than one ahead of another that still had pairs to give. */
  lemma ChosenIsFair(pairs: seq<Pair>, sessions: seq<string>, d: nat, j: nat, s: string, t: string)
    requires j <= |sessions| && Distinct(sessions) && s in sessions && t in sessions
    ensures (var chosen := Chosen(pairs, sessions, d, j);
      |Of(chosen, s)| >= Min(|Of(pairs, s)|, |Of(chosen, t)| - 1))
  {
    ChosenTakesShares(pairs, sessions, d, j, s);
    ChosenTakesShares(pairs, sessions, d, j, t);
  }

  // ---------------------------------------------------------------- counting

  function Sum(sessions: seq<string>, pairs: seq<Pair>): nat {
    if sessions == [] then 0 else |Of(pairs, sessions[0])| + Sum(sessions[1..], pairs)
  }

  lemma {:induction false} SumSnoc(sessions: seq<string>, pairs: seq<Pair>, p: Pair)
    requires Distinct(sessions)
    ensures Sum(sessions, pairs + [p]) == Sum(sessions, pairs) + if p.sessionId in sessions then 1 else 0
  {
    if sessions != [] {
      SumSnoc(sessions[1..], pairs, p);
      OfSnoc(pairs, p, sessions[0]);
      assert p.sessionId in sessions <==> p.sessionId == sessions[0] || p.sessionId in sessions[1..];
    }
  }

  ghost predicate AllIn(pairs: seq<Pair>, sessions: seq<string>) {
    forall i | 0 <= i < |pairs| :: pairs[i].sessionId in sessions
  }

  lemma {:induction false} SumOfEmpty(sessions: seq<string>)
    ensures Sum(sessions, []) == 0
  {
    if sessions != [] {
      SumOfEmpty(sessions[1..]);
    }
  }

  /** The sessions share out all the pairs. */
  lemma {:induction false} SumIsLength(sessions: seq<string>, pairs: seq<Pair>)
    requires Distinct(sessions) && AllIn(pairs, sessions)
    ensures Sum(sessions, pairs) == |pairs|
  {
    if pairs == [] {
      SumOfEmpty(sessions);
    } else {
      var init, p := pairs[..|pairs| - 1], pairs[|pairs| - 1];
      SumIsLength(sessions, init);
      SumSnoc(sessions, init, p);
      assert init + [p] == pairs;
    }
  }

  lemma {:induction false} SumGrows(sessions: seq<string>, a: seq<Pair>, b: seq<Pair>)
    requires forall i | 0 <= i < |sessions| :: |Of(a, sessions[i])| <= |Of(b, sessions[i])|
    ensures Sum(sessions, a) <= Sum(sessions, b)
  {
    if sessions != [] {
      SumGrows(sessions[1..], a, b);
    }
  }

  lemma {:induction false} ChosenAllIn(pairs: seq<Pair>, sessions: seq<string>, d: nat, j: nat)
    requires j <= |sessions|
    ensures AllIn(Chosen(pairs, sessions, d, j), sessions)
    decreases d, j
  {
    if j > 0 {
      ChosenAllIn(pairs, sessions, d, j - 1);
      OfBelongs(pairs, sessions[j - 1]);
    } else if d > 0 {
      ChosenAllIn(pairs, sessions, d - 1, |sessions|);
    }
  }

  ghost predicate Exhausted(pairs: seq<Pair>, sessions: seq<string>, d: nat) {
    forall i | 0 <= i < |sessions| :: |Of(pairs, sessions[i])| <= d
  }

  /** Never more pairs than there are, and all of them once no bucket is deeper. */
  lemma ChosenCount(pairs: seq<Pair>, sessions: seq<string>, d: nat, j: nat)
    requires j <= |sessions| && Distinct(sessions) && AllIn(pairs, sessions)
    ensures |Chosen(pairs, sessions, d, j)| <= |pairs|
    ensures Exhausted(pairs, sessions, d) ==> |Chosen(pairs, sessions, d, j)| == |pairs|
  {
    var chosen := Chosen(pairs, sessions, d, j);
    ChosenAllIn(pairs, sessions, d, j);
    SumIsLength(sessions, chosen);
    SumIsLength(sessions, pairs);
    forall i | 0 <= i < |sessions|
      ensures |Of(chosen, sessions[i])| <= |Of(pairs, sessions[i])|
      ensures Exhausted(pairs, sessions, d) ==> |Of(chosen, sessions[i])| == |Of(pairs, sessions[i])|
    {
      ChosenTakesShares(pairs, sessions, d, j, sessions[i]);
    }
    SumGrows(sessions, chosen, pairs);
    if Exhausted(pairs, sessions, d) {
      SumGrows(sessions, pairs, chosen);
    }
  }

  // ---------------------------------------------------------------- the loops

  function Sessions(pairs: seq<Pair>, le: (string, string) -> bool): seq<string> {
    SortBy(FirstSeen(pairs), le)
  }

  lemma SessionsMembers(pairs: seq<Pair>, le: (string, string) -> bool)
    requires TotalPreorder(le)
    ensures Distinct(Sessions(pairs, le)) && AllIn(pairs, Sessions(pairs, le))
  {
    FirstSeenMembers(pairs);
    SortByIsSorted(FirstSeen(pairs), le);
    PermutationOfDistinct(FirstSeen(pairs), Sessions(pairs, le));
  }

  /** The first pairs of each session's bucket, and no session more than one ahead of another that had more. */
  ghost predicate Fair(selected: seq<Pair>, pairs: seq<Pair>) {
    && (forall p | p in pairs :: Of(selected, p.sessionId) <= Of(pairs, p.sessionId))
    && (forall p, q | p in pairs && q in pairs ::
          |Of(selected, p.sessionId)| >= Min(|Of(pairs, p.sessionId)|, |Of(selected, q.sessionId)| - 1))
  }

  lemma ChosenFair(pairs: seq<Pair>, sessions: seq<string>, d: nat, j: nat)
    requires j <= |sessions| && Distinct(sessions) && AllIn(pairs, sessions)
    ensures Fair(Chosen(pairs, sessions, d, j), pairs)
  {
    forall p | p in pairs
      ensures Of(Chosen(pairs, sessions, d, j), p.sessionId) <= Of(pairs, p.sessionId)
    {
      ChosenTakesShares(pairs, sessions, d, j, p.sessionId);
    }
    forall p, q | p in pairs && q in pairs
      ensures |Of(Chosen(pairs, sessions, d, j), p.sessionId)|
        >= Min(|Of(pairs, p.sessionId)|, |Of(Chosen(pairs, sessions, d, j), q.sessionId)| - 1)
    {
      ChosenIsFair(pairs, sessions, d, j, p.sessionId, q.sessionId);
    }
  }

  /** `le` orders the sessions by their digests. */
  method DiverseSelect(pairs: seq<Pair>, limit: int, le: (string, string) -> bool) returns (selected: seq<Pair>)
    requires TotalPreorder(le)
    ensures |selected| == if limit <= 0 then 0 else Min(limit, |pairs|)
    ensures exists d: nat, j: nat :: j <= |Sessions(pairs, le)| && selected == Chosen(pairs, Sessions(pairs, le), d, j)
    ensures Fair(selected, pairs)
  {
    var bySession, order := Buckets(pairs);
    var sessions := SortBy(order, le);
    SessionsMembers(pairs, le);
    SortedMembers(order, le);
    selected := [];
    ghost var depth', j: nat := 0, 0;
    if limit > 0 {
      var depth: nat := 0;
      while |selected| < limit
        invariant j <= |sessions| && selected == Chosen(pairs, sessions, depth', j) && |selected| <= limit
        invariant |selected| < limit ==> selected == Chosen(pairs, sessions, depth, 0)
        decreases limit - |selected|
      {
        var added: bool;
        selected, added, j := Round(pairs, sessions, bySession, depth, selected, limit);
        depth' := depth;
        if !added {
          break;
        }
        depth := depth + 1;
      }
    }
    ChosenFair(pairs, sessions, depth', j);
    ChosenCount(pairs, sessions, depth', j);
  }

  /** One round: the next pair of every session that has one, until the limit is met. */
  method Round(ghost pairs: seq<Pair>, sessions: seq<string>,
               bySession: map<string, seq<Pair>>, depth: nat, before: seq<Pair>, limit: int)
    returns (selected: seq<Pair>, added: bool, ghost j: nat)
    requires before == Chosen(pairs, sessions, depth, 0) && |before| < limit
    requires forall s | s in sessions :: Bucket(bySession, s) == Of(pairs, s)
    ensures j <= |sessions| && selected == Chosen(pairs, sessions, depth, j)
    ensures |selected| <= limit && (|selected| < limit ==> j == |sessions|)
    ensures if added then |selected| > |before|
            else selected == before && j == |sessions| && Exhausted(pairs, sessions, depth)
  {
    selected, added := before, false;
    var i := 0;
    j := 0;
    while i < |sessions|
      invariant 0 <= i == j <= |sessions| && selected == Chosen(pairs, sessions, depth, j) && |selected| < limit
      invariant if added then |selected| > |before| else selected == before
      invariant !added ==> forall k | 0 <= k < i :: |Of(pairs, sessions[k])| <= depth
    {
      var bucket := Bucket(bySession, sessions[i]);
      i := i + 1;
      j := i;
      if depth < |bucket| {
        selected := selected + [bucket[depth]];
        added := true;
        if |selected| >= limit {
          break;
        }
      }
    }
  }

  lemma SortedMembers(order: seq<string>, le: (string, string) -> bool)
    requires TotalPreorder(le)
    ensures forall s :: s in SortBy(order, le) <==> s in order
  {
    SortByIsSorted(order, le);
    forall s
      ensures s in SortBy(order, le) <==> s in order
    {
      assert s in multiset(SortBy(order, le)) <==> s in multiset(order);
    }
  }

  function Bucket(bySession: map<string, seq<Pair>>, s: string): seq<Pair> {
    if s in bySession then bySession[s] else []
  }

  lemma OfNext(pairs: seq<Pair>, i: nat, s: string)
    requires i < |pairs|
    ensures Of(pairs[..i + 1], s) == Of(pairs[..i], s) + if pairs[i].sessionId == s then [pairs[i]] else []
  {
    assert pairs[..i + 1] == pairs[..i] + [pairs[i]];
    OfSnoc(pairs[..i], pairs[i], s);
  }

  method Buckets(pairs: seq<Pair>) returns (bySession: map<string, seq<Pair>>, order: seq<string>)
    ensures order == FirstSeen(pairs)
    ensures forall s :: s in bySession <==> s in order
    ensures forall s :: Bucket(bySession, s) == Of(pairs, s)
  {
    bySession, order := map[], [];
    var i := 0;
    while i < |pairs|
      invariant 0 <= i <= |pairs| && order == FirstSeen(pairs[..i])
      invariant forall s :: s in bySession <==> s in order
      invariant forall s :: Bucket(bySession, s) == Of(pairs[..i], s)
    {
      var s := pairs[i].sessionId;
      forall t
        ensures Of(pairs[..i + 1], t) == if s == t then Of(pairs[..i], t) + [pairs[i]] else Of(pairs[..i], t)
      {
        OfNext(pairs, i, t);
      }
      assert pairs[..i + 1][..i] == pairs[..i];
      if s !in bySession {
        order := order + [s];
      }
      bySession := bySession[s := Bucket(bySession, s) + [pairs[i]]];
      i := i + 1;
    }
    assert pairs[..|pairs|] == pairs;
  }
}
