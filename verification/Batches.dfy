// ORDER BY two keys LIMIT n: which rows a bounded claim takes.

module Batches {
  import opened Sets

  /** The sort key of a row: its first column, then its second. */
  predicate Leq(a: (int, int), b: (int, int)) {
    a.0 < b.0 || (a.0 == b.0 && a.1 <= b.1)
  }

  /** The batch is a first-n of the candidates; ties may go either way. */
  ghost predicate IsBatch<T(!new)>(candidates: set<T>, rank: map<T, (int, int)>, limit: nat, batch: set<T>)
    requires candidates <= rank.Keys
  {
    && batch <= candidates
    && |batch| == (if |candidates| <= limit then |candidates| else limit)
    && (forall b, e | b in batch && e in candidates - batch :: Leq(rank[b], rank[e]))
  }

  /** Distinct rows, in order. */
  ghost predicate Sorted<T>(rows: seq<T>, rank: map<T, (int, int)>) {
    && (forall i | 0 <= i < |rows| :: rows[i] in rank)
    && (forall i, j | 0 <= i < j < |rows| :: rows[i] != rows[j] && Leq(rank[rows[i]], rank[rows[j]]))
  }

  /** The candidate that sorts first. */
  method First<T(==, !new)>(candidates: set<T>, rank: map<T, (int, int)>) returns (first: T)
    requires candidates != {} && candidates <= rank.Keys
    ensures first in candidates && forall e | e in candidates :: Leq(rank[first], rank[e])
  {
    first :| first in candidates;
    var rest := candidates - {first};
    while rest != {}
      invariant rest <= candidates && first in candidates
      invariant forall e | e in candidates - rest :: Leq(rank[first], rank[e])
      decreases |rest|
    {
      var e :| e in rest;
      rest := rest - {e};
      if !Leq(rank[first], rank[e]) {
        first := e;
      }
    }
  }

  /** The batch so far sorts before what is left of the candidates. */
  ghost predicate TakenSoFar<T(!new)>(candidates: set<T>, rank: map<T, (int, int)>, batch: seq<T>, rest: set<T>)
    requires candidates <= rank.Keys
  {
    && rest <= candidates && Sorted(batch, rank)
    && candidates - rest == Members(batch)
    && |batch| + |rest| == |candidates|
    && (forall i, e | 0 <= i < |batch| && e in rest :: Leq(rank[batch[i]], rank[e]))
  }

  lemma Extended<T(!new)>(candidates: set<T>, rank: map<T, (int, int)>, batch: seq<T>, rest: set<T>, first: T)
    requires candidates <= rank.Keys && TakenSoFar(candidates, rank, batch, rest)
    requires first in rest && forall e | e in rest :: Leq(rank[first], rank[e])
    ensures TakenSoFar(candidates, rank, batch + [first], rest - {first})
  {
    var more := batch + [first];
    forall b ensures b in more <==> b in batch || b == first {
      assert more[|batch|] == first;
    }
    forall b | b in candidates - (rest - {first}) ensures b in more {
      assert b != first ==> b in Members(batch);
    }
    forall b | b in more ensures b in candidates - (rest - {first}) {
      assert b != first ==> b in Members(batch);
    }
    assert candidates - (rest - {first}) == Members(more);
    assert Sorted(more, rank);
  }

  /** The rows of ORDER BY ... LIMIT, in order. */
  method Take<T(==, !new)>(candidates: set<T>, rank: map<T, (int, int)>, limit: nat) returns (batch: seq<T>)
    requires candidates <= rank.Keys
    ensures Sorted(batch, rank)
    ensures IsBatch(candidates, rank, limit, Members(batch))
  {
    batch := [];
    var rest := candidates;
    while |batch| < limit && rest != {}
      invariant |batch| <= limit && TakenSoFar(candidates, rank, batch, rest)
      decreases |rest|
    {
      hide TakenSoFar;
      var first := First(rest, rank);
      Extended(candidates, rank, batch, rest, first);
      batch := batch + [first];
      rest := rest - {first};
    }
    TakenIsBatch(candidates, rank, limit, batch, rest);
  }

  lemma TakenIsBatch<T(!new)>(candidates: set<T>, rank: map<T, (int, int)>, limit: nat, batch: seq<T>, rest: set<T>)
    requires candidates <= rank.Keys && TakenSoFar(candidates, rank, batch, rest)
    requires |batch| <= limit && (|batch| == limit || rest == {})
    ensures Sorted(batch, rank)
    ensures IsBatch(candidates, rank, limit, Members(batch))
  {
    var taken := set b | b in batch;
    assert candidates == taken + rest && taken !! rest && |candidates| == |taken| + |rest|;
  }

  /** ORDER BY without LIMIT. */
  method OrderBy<T(==, !new)>(candidates: set<T>, rank: map<T, (int, int)>) returns (rows: seq<T>)
    requires candidates <= rank.Keys
    ensures Sorted(rows, rank) && Members(rows) == candidates
  {
    rows := Take(candidates, rank, |candidates|);
    SameSize(Members(rows), candidates);
  }
}
