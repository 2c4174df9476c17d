// The retry queue of documents that never got an OCR job: claims, their spacing, and that nothing starves.

module Resubmission {
  import opened Tables
  import opened Batches
  import opened Sets

  /** The columns of a document the retry claim reads: live says it is complete and not deleted, pending that its
      OCR status is. */
  datatype Row = Row(createdAt: Time, attemptedAt: Option<Time>, jobId: Option<int>, live: bool, pending: bool)

  type Queue = map<DocId, Row>

  /** How old an upload must be, and how long a claim keeps it out of the next ones. */
  datatype Config = Config(olderThan: nat, retryAfter: nat, limit: nat)

  /** COALESCE(ocr_submit_attempted_at, created_at). */
  function Key(r: Row): Time {
    match r.attemptedAt
    case Some(a) => a
    case None => r.createdAt
  }

  predicate Eligible(r: Row, now: Time, cfg: Config) {
    && r.live && r.pending && r.jobId.None?
    && r.createdAt < now - cfg.olderThan
    && (r.attemptedAt.None? || r.attemptedAt.value < now - cfg.retryAfter)
  }

  function Candidates(q: Queue, now: Time, cfg: Config): set<DocId> {
    set d | d in q && Eligible(q[d], now, cfg)
  }

  function Ranks(q: Queue): map<DocId, (int, int)> {
    map d | d in q :: (Key(q[d]), q[d].createdAt)
  }

  function Claimed(q: Queue, batch: set<DocId>, now: Time): Queue {
    map d | d in q :: if d in batch then q[d].(attemptedAt := Some(now)) else q[d]
  }

  // ----- a run of ticks

  /** One claim, by any worker: the table before it, the time, the rows other transactions hold locked, and the
      rows it took. */
  datatype Tick = Tick(queue: Queue, now: Time, locked: set<DocId>, batch: set<DocId>)

  ghost predicate TickOk(t: Tick, cfg: Config) {
    IsBatch(Candidates(t.queue, t.now, cfg) - t.locked, Ranks(t.queue), cfg.limit, t.batch)
  }

  /** What everyone else may do before the next claim: finish or delete documents, save job ids, add uploads. */
  ghost predicate Between(a: Queue, b: Queue, now: Time) {
    && (forall d | d in a :: d in b && b[d].createdAt == a[d].createdAt && b[d].attemptedAt == a[d].attemptedAt)
    && (forall d | d in b && d !in a :: b[d].createdAt >= now && b[d].attemptedAt.None?)
  }

  ghost predicate TraceOk(ticks: seq<Tick>, cfg: Config) {
    && (forall k | 0 <= k < |ticks| :: TickOk(ticks[k], cfg))
    && (forall k | 0 < k < |ticks| ::
          Between(Claimed(ticks[k - 1].queue, ticks[k - 1].batch, ticks[k - 1].now), ticks[k].queue, ticks[k - 1].now))
  }

  ghost predicate PassedOver(t: Tick, d: DocId, cfg: Config) {
    d in t.queue && Eligible(t.queue[d], t.now, cfg) && d !in t.locked && d !in t.batch
  }

  /** The other documents that sort no later than d. */
  ghost function Ahead(q: Queue, d: DocId): set<DocId>
    requires d in q
  {
    set e | e in q && e != d && Key(q[e]) <= Key(q[d])
  }

  /** A claim that passes over an eligible unlocked document is full, and takes only documents ahead of it. */
  lemma PassedOverMeansFull(t: Tick, d: DocId, cfg: Config)
    requires TickOk(t, cfg) && PassedOver(t, d, cfg)
    ensures |t.batch| == cfg.limit && t.batch <= Ahead(t.queue, d)
  {
    var all := Candidates(t.queue, t.now, cfg) - t.locked;
    assert d in all - t.batch;
    SubsetAtMost(t.batch + {d}, all);
    forall b | b in t.batch ensures b in Ahead(t.queue, d) {
      assert Leq(Ranks(t.queue)[b], Ranks(t.queue)[d]);
    }
  }

  /** Its rows then sort behind the document, and so does every later upload. */
  lemma {:induction false} FewerAhead(t: Tick, next: Queue, d: DocId, cfg: Config)
    requires TickOk(t, cfg) && PassedOver(t, d, cfg)
    requires Between(Claimed(t.queue, t.batch, t.now), next, t.now)
    ensures d in next && Key(next[d]) == Key(t.queue[d])
    ensures |Ahead(next, d)| + cfg.limit <= |Ahead(t.queue, d)|
  {
    PassedOverMeansFull(t, d, cfg);
    var after := Claimed(t.queue, t.batch, t.now);
    assert d in after && after[d] == t.queue[d];
    forall e | e in Ahead(next, d) ensures e in Ahead(t.queue, d) - t.batch {
      assert e in after;
    }
    SubsetAtMost(Ahead(next, d), Ahead(t.queue, d) - t.batch);
    assert Ahead(t.queue, d) == (Ahead(t.queue, d) - t.batch) + t.batch;
  }

  lemma TraceTail(ticks: seq<Tick>, cfg: Config)
    requires TraceOk(ticks, cfg) && |ticks| > 1
    ensures TickOk(ticks[0], cfg) && TraceOk(ticks[1..], cfg)
    ensures Between(Claimed(ticks[0].queue, ticks[0].batch, ticks[0].now), ticks[1].queue, ticks[0].now)
  {
    hide TickOk, Between, Claimed;
    var rest := ticks[1..];
    forall k | 0 < k < |rest|
      ensures Between(Claimed(rest[k - 1].queue, rest[k - 1].batch, rest[k - 1].now), rest[k].queue, rest[k - 1].now) {
      assert rest[k] == ticks[k + 1] && rest[k - 1] == ticks[k];
    }
  }

  /** While ticks pass over a document, each uses up a full batch of the documents ahead of it. */
  lemma {:induction false} PassedOverOften(ticks: seq<Tick>, d: DocId, cfg: Config)
    requires TraceOk(ticks, cfg) && ticks != [] && d in ticks[0].queue
    requires forall k | 0 <= k < |ticks| :: PassedOver(ticks[k], d, cfg)
    ensures |ticks| * cfg.limit <= |Ahead(ticks[0].queue, d)|
  {
    hide TickOk, PassedOver, Between, Claimed, Ahead;
    if |ticks| == 1 {
      PassedOverMeansFull(ticks[0], d, cfg);
      SubsetAtMost(ticks[0].batch, Ahead(ticks[0].queue, d));
    } else {
      TraceTail(ticks, cfg);
      hide TraceOk;
      FewerAhead(ticks[0], ticks[1].queue, d, cfg);
      PassedOverOften(ticks[1..], d, cfg);
      assert |ticks| * cfg.limit == |ticks[1..]| * cfg.limit + cfg.limit;
    }
  }

  /** No starvation: a document that stays eligible and unlocked until it is claimed, with m others sorting no later
      than it, is claimed within m / limit + 1 ticks. */
  lemma {:induction false} NothingStarves(ticks: seq<Tick>, d: DocId, cfg: Config)
    requires cfg.limit > 0 && TraceOk(ticks, cfg) && ticks != [] && d in ticks[0].queue
    requires |ticks| == |Ahead(ticks[0].queue, d)| / cfg.limit + 1
    requires forall k | 0 <= k < |ticks| && (forall j | 0 <= j < k :: d !in ticks[j].batch) ::
               d in ticks[k].queue && Eligible(ticks[k].queue[d], ticks[k].now, cfg) && d !in ticks[k].locked
    ensures exists k :: 0 <= k < |ticks| && d in ticks[k].batch
  {
    if forall k | 0 <= k < |ticks| :: d !in ticks[k].batch {
      PassedOverOften(ticks, d, cfg);
      Quotient(|Ahead(ticks[0].queue, d)|, cfg.limit);
    }
  }

  lemma Quotient(m: nat, limit: nat)
    requires limit > 0
    ensures (m / limit + 1) * limit > m
  {
    assert m == (m / limit) * limit + m % limit;
    assert (m / limit + 1) * limit == (m / limit) * limit + limit;
  }

  // ----- spacing

  /** A claim stamps its rows, which were last stamped more than retryAfter ago, and nothing else changes a stamp. */
  lemma Stamps(t: Tick, next: Queue, d: DocId, cfg: Config)
    requires TickOk(t, cfg) && Between(Claimed(t.queue, t.batch, t.now), next, t.now)
    ensures d in t.batch ==> d in next && next[d].attemptedAt == Some(t.now)
    ensures d in t.queue && d !in t.batch ==> d in next && next[d].attemptedAt == t.queue[d].attemptedAt
    ensures d in t.batch && t.queue[d].attemptedAt.Some? ==> t.queue[d].attemptedAt.value + cfg.retryAfter < t.now
  {
    if d in t.batch {
      assert d in Candidates(t.queue, t.now, cfg);
    }
    if d in t.queue {
      assert d in Claimed(t.queue, t.batch, t.now);
    }
  }

  lemma {:induction false} AttemptKept(ticks: seq<Tick>, d: DocId, cfg: Config, i: nat, j: nat)
    requires TraceOk(ticks, cfg) && i < j < |ticks| && d in ticks[i].batch
    ensures d in ticks[j].queue && ticks[j].queue[d].attemptedAt.Some?
            && ticks[j].queue[d].attemptedAt.value >= ticks[i].now
    decreases j
  {
    hide TickOk, Between, Claimed;
    Stamps(ticks[j - 1], ticks[j].queue, d, cfg);
    if i < j - 1 {
      AttemptKept(ticks, d, cfg, i, j - 1);
    }
  }

  /** Two claims of one document are more than retryAfter apart. */
  lemma {:induction false} ClaimsAreSpaced(ticks: seq<Tick>, d: DocId, cfg: Config, i: nat, j: nat)
    requires TraceOk(ticks, cfg) && i < j < |ticks| && d in ticks[i].batch && d in ticks[j].batch
    ensures ticks[j].now - ticks[i].now > cfg.retryAfter
  {
    AttemptKept(ticks, d, cfg, i, j);
    assert ticks[j].batch <= Candidates(ticks[j].queue, ticks[j].now, cfg);
  }

  // ----- the sweeper

  /** What became of one claimed document: no write access, no usable job id from the gateway, or a job id. */
  datatype Answer = NoAccess | NoJob | Job(id: int)

  /** What other transactions made of some rows between the claim and the save: deleted them, finished their OCR,
      saved a job id. */
  function Meanwhile(q: Queue, changes: map<DocId, Row>): Queue {
    map d | d in q :: if d in changes then changes[d] else q[d]
  }

  /** A save for the document finds its row. */
  predicate Unsent(q: Queue, d: DocId) {
    d in q && q[d].live && q[d].jobId.None?
  }

  predicate GotJob(answers: map<DocId, Answer>, d: DocId) {
    d in answers && answers[d].Job?
  }

  function JobOf(answers: map<DocId, Answer>, d: DocId): (id: int)
    requires GotJob(answers, d)
    ensures d in answers && answers[d] == Job(id)
  {
    answers[d].id
  }

  /** The documents of a batch whose job id is saved. */
  ghost function Served(q: Queue, batch: seq<DocId>, answers: map<DocId, Answer>): set<DocId> {
    set d | d in batch && GotJob(answers, d) && Unsent(q, d)
  }

  ghost function WithJobs(q: Queue, served: set<DocId>, answers: map<DocId, Answer>): Queue {
    map d | d in q :: if d in served && GotJob(answers, d) then q[d].(jobId := Some(answers[d].id)) else q[d]
  }

  lemma NothingServed(q: Queue, batch: seq<DocId>, answers: map<DocId, Answer>)
    ensures Served(q, batch[..0], answers) == {} && WithJobs(q, {}, answers) == q
  {
  }

  /** The next document of a batch is as the others left it, and it is served if it got a job and is still unsent. */
  lemma OneMoreServed(q: Queue, batch: seq<DocId>, answers: map<DocId, Answer>, k: nat)
    requires Distinct(batch) && k < |batch|
    ensures var d, before := batch[k], Served(q, batch[..k], answers);
            && d !in before
            && Served(q, batch[..k + 1], answers)
               == if GotJob(answers, d) && Unsent(q, d) then before + {d} else before
  {
    assert batch[..k + 1] == batch[..k] + [batch[k]];
    assert batch[k] !in batch[..k];
  }

  /** Saving one more job id. */
  lemma OneMoreSaved(q: Queue, served: set<DocId>, d: DocId, answers: map<DocId, Answer>)
    requires d !in served
    ensures var sent := WithJobs(q, served, answers);
            && Unsent(sent, d) == Unsent(q, d)
            && (GotJob(answers, d) && Unsent(q, d) ==>
                  WithJobs(q, served + {d}, answers) == sent[d := sent[d].(jobId := Some(answers[d].id))])
  {
  }

  /** The documents worked on whose gateway answered with a job and whose rows could still take it have it, and no
      other row changed; count is how many they are. */
  ghost predicate JobsSaved(seen: Queue, after: Queue, done: seq<DocId>, answers: map<DocId, Answer>, count: nat) {
    && after.Keys == seen.Keys
    && (forall d | d in seen ::
          if d in done && d in answers && answers[d].Job? && seen[d].live && seen[d].jobId.None?
          then after[d] == seen[d].(jobId := Some(answers[d].id)) else after[d] == seen[d])
    && count == |set d | d in done && d in answers && answers[d].Job? && d in seen && seen[d].live
                         && seen[d].jobId.None?|
  }

  lemma ServedIsSaved(seen: Queue, done: seq<DocId>, answers: map<DocId, Answer>)
    ensures var served := Served(seen, done, answers);
            JobsSaved(seen, WithJobs(seen, served, answers), done, answers, |served|)
  {
    assert Served(seen, done, answers)
           == set d | d in done && d in answers && answers[d].Job? && d in seen && seen[d].live && seen[d].jobId.None?;
  }

  /** A complete, live, pending document without a job id, older than olderThan and not tried within retryAfter. */
  predicate Unsubmitted(r: Row, now: Time, cfg: Config) {
    && r.live && r.pending && r.jobId.None? && r.createdAt + cfg.olderThan < now
    && (r.attemptedAt.Some? ==> r.attemptedAt.value + cfg.retryAfter < now)
  }

  /** a had its last turn, at its last attempt or else at its creation, before b; among equals the older one counts. */
  predicate WaitedNoLess(a: Row, b: Row) {
    var x := if a.attemptedAt.Some? then a.attemptedAt.value else a.createdAt;
    var y := if b.attemptedAt.Some? then b.attemptedAt.value else b.createdAt;
    x < y || (x == y && a.createdAt <= b.createdAt)
  }

  /** The claim takes unlocked documents that need it, those that waited longest, as many as the limit allows, and
      stamps exactly them. */
  ghost predicate LongestWaiting(q: Queue, next: Queue, now: Time, cfg: Config, locked: set<DocId>, batch: seq<DocId>) {
    && |batch| <= cfg.limit
    && (forall d | d in batch :: d in q && d !in locked && Unsubmitted(q[d], now, cfg))
    && (forall e | e in q && e !in locked && e !in batch && Unsubmitted(q[e], now, cfg) ::
          |batch| == cfg.limit && forall d | d in batch :: WaitedNoLess(q[d], q[e]))
    && next.Keys == q.Keys
    && (forall d | d in q :: next[d] == if d in batch then q[d].(attemptedAt := Some(now)) else q[d])
  }

  lemma BatchIsLongestWaiting(q: Queue, now: Time, cfg: Config, locked: set<DocId>, batch: seq<DocId>)
    requires Sorted(batch, Ranks(q))
    requires IsBatch(Candidates(q, now, cfg) - locked, Ranks(q), cfg.limit, Members(batch))
    ensures LongestWaiting(q, Claimed(q, Members(batch), now), now, cfg, locked, batch)
  {
    var all := Candidates(q, now, cfg) - locked;
    DistinctMembers(batch);
    forall d | d in batch ensures d in Members(batch) && d in all {
      assert d in Members(batch);
    }
    forall e | e in q && e !in locked && e !in batch && Unsubmitted(q[e], now, cfg)
      ensures |batch| == cfg.limit && forall d | d in batch :: WaitedNoLess(q[d], q[e]) {
      assert e in all - Members(batch);
      if |all| <= cfg.limit {
        SameSize(Members(batch), all);
      }
    }
  }

  class Sweeper {
    var queue: Queue

    constructor ()
      ensures queue == map[]
    {
      queue := map[];
    }

    /** ClaimStaleOCRSubmissions; SKIP LOCKED leaves out the rows others have locked. */
    method ClaimStale(now: Time, cfg: Config, locked: set<DocId>) returns (batch: seq<DocId>)
      modifies this
      ensures TickOk(Tick(old(queue), now, locked, Members(batch)), cfg)
      ensures queue == Claimed(old(queue), Members(batch), now)
      ensures LongestWaiting(old(queue), queue, now, cfg, locked, batch)
      ensures Distinct(batch)
    {
      batch := Take(Candidates(queue, now, cfg) - locked, Ranks(queue), cfg.limit);
      BatchIsLongestWaiting(queue, now, cfg, locked, batch);
      queue := Claimed(queue, Members(batch), now);
    }

    /** Other transactions commit. */
    method OthersCommit(changes: map<DocId, Row>)
      modifies this
      ensures queue == Meanwhile(old(queue), changes)
    {
      queue := Meanwhile(queue, changes);
    }

    /** SetOcrDocumentID. */
    method SetJobId(d: DocId, id: int) returns (rows: nat)
      modifies this
      ensures if Unsent(old(queue), d)
              then rows == 1 && queue == old(queue)[d := old(queue)[d].(jobId := Some(id))]
              else rows == 0 && queue == old(queue)
    {
      rows := 0;
      if d in queue && queue[d].jobId.None? && queue[d].live {
        queue := queue[d := queue[d].(jobId := Some(id))];
        rows := 1;
      }
    }

    /** RetryUnsubmitted: claim a batch, then submit its documents one by one until done or out of time; a document
        that fails is skipped and waits for a later tick. A row may have changed since the claim; changes says how it
        stands when its save runs, and a save that finds no row does not count. */
    method RetryUnsubmitted(now: Time, cfg: Config, locked: set<DocId>, changes: map<DocId, Row>,
                            answers: map<DocId, Answer>, time: nat)
      returns (retried: nat, ghost batch: seq<DocId>)
      modifies this
      ensures TickOk(Tick(old(queue), now, locked, Members(batch)), cfg)
      ensures LongestWaiting(old(queue), Claimed(old(queue), Members(batch), now), now, cfg, locked, batch)
      ensures var done := if time <= |batch| then batch[..time] else batch;
              var seen := Meanwhile(Claimed(old(queue), Members(batch), now), changes);
              JobsSaved(seen, queue, done, answers, retried)
    {
      hide TickOk, Claimed, LongestWaiting, JobsSaved, Members, Meanwhile, Unsent, GotJob, WithJobs, Served;
      retried := 0;
      var docs := ClaimStale(now, cfg, locked);
      batch := docs;
      OthersCommit(changes);
      ghost var seen := queue;
      NothingServed(seen, docs, answers);
      var k := 0;
      while k < |docs| && k < time
        invariant 0 <= k <= |docs| && k <= time
        invariant retried == |Served(seen, docs[..k], answers)|
        invariant queue == WithJobs(seen, Served(seen, docs[..k], answers), answers)
      {
        var d := docs[k];
        OneMoreServed(seen, docs, answers, k);
        OneMoreSaved(seen, Served(seen, docs[..k], answers), d, answers);
        if GotJob(answers, d) {
          var rows := SetJobId(d, JobOf(answers, d));
          if rows != 0 {
            retried := retried + 1;
          }
        }
        k := k + 1;
      }
      assert docs[..|docs|] == docs;
      ServedIsSaved(seen, docs[..k], answers);
    }
  }
}
