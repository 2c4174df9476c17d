// The outbox publisher: leases, backoff, at-least-once publication, and when it is exactly once.

module Outbox {
  import opened Tables
  import opened Batches
  import opened Sets

  type EventId = nat
  type Worker = nat

  const LEASE: int := 300
  const RETRY_DELAY: int := 5
  const DEFAULT_BATCH: nat := 100

  /** An outbox_events row; times are in seconds. */
  datatype Row = Row(createdAt: Time, publishedAt: Option<Time>, attempts: nat,
                     nextAttemptAt: Option<Time>, lockedAt: Option<Time>, lockedBy: Option<Worker>)

  /** An event a worker has claimed and not finished with, as it read it. */
  datatype Hold = Hold(worker: Worker, id: EventId, since: Time, attempts: nat)

  /** The table, the clock, the claims in progress, and how often Kafka accepted each event. */
  datatype State = State(rows: map<EventId, Row>, clock: Time, held: set<Hold>, accepted: multiset<EventId>)

  predicate Claimable(r: Row, now: Time) {
    && r.publishedAt.None?
    && (r.nextAttemptAt.None? || r.nextAttemptAt.value <= now)
    && (r.lockedAt.None? || r.lockedAt.value < now - LEASE)
  }

  /** min(attempts + 1, 6) times five seconds. */
  function Backoff(attempts: nat): int {
    (if attempts + 1 <= 6 then attempts + 1 else 6) * RETRY_DELAY
  }

  // ----- row updates

  function Locked(r: Row, w: Worker, now: Time): Row {
    r.(lockedAt := Some(now), lockedBy := Some(w))
  }

  /** MarkOutboxEventPublished. */
  function MarkedPublished(r: Row, now: Time): Row {
    if r.publishedAt.Some? then r else r.(publishedAt := Some(now), lockedAt := None, lockedBy := None)
  }

  /** MarkOutboxEventFailed; the delay follows from the attempts read at the claim. */
  function MarkedFailed(r: Row, attemptsRead: nat, now: Time): Row {
    if r.publishedAt.Some? then r
    else
      var next := now + Backoff(attemptsRead);
      r.(attempts := r.attempts + 1, nextAttemptAt := Some(next), lockedAt := None, lockedBy := None)
  }

  function Candidates(rows: map<EventId, Row>, now: Time): set<EventId> {
    set id | id in rows && Claimable(rows[id], now)
  }

  function Ranks(rows: map<EventId, Row>): map<EventId, (int, int)> {
    map id | id in rows :: (rows[id].createdAt, id)
  }

  function ClaimedRows(rows: map<EventId, Row>, batch: set<EventId>, w: Worker, now: Time): map<EventId, Row> {
    map id | id in rows :: if id in batch then Locked(rows[id], w, now) else rows[id]
  }

  // ----- steps of any number of workers

  datatype Op =
    | Insert(id: EventId)
    | Wait(until: Time)
    | Claim(worker: Worker, batch: set<EventId>)
    | Publish(hold: Hold)             // Kafka accepts and the row is marked
    | PublishUnmarked(hold: Hold)     // Kafka accepts, but the mark fails or the worker dies
    | Refuse(hold: Hold)              // Kafka refuses and the row is marked failed
    | Abandon(hold: Hold)             // the worker dies, or neither publish nor mark works

  ghost function Step(s: State, op: Op): State {
    match op
    case Insert(id) =>
      if id in s.rows then s else s.(rows := s.rows[id := Row(s.clock, None, 0, None, None, None)])
    case Wait(until) => if until < s.clock then s else s.(clock := until)
    case Claim(w, batch) =>
      if !(batch <= Candidates(s.rows, s.clock)) then s
      else s.(rows := ClaimedRows(s.rows, batch, w, s.clock),
              held := s.held + (set id | id in batch :: Hold(w, id, s.clock, s.rows[id].attempts)))
    case Publish(h) =>
      if h !in s.held || h.id !in s.rows then s
      else s.(rows := s.rows[h.id := MarkedPublished(s.rows[h.id], s.clock)], held := s.held - {h},
              accepted := s.accepted + multiset{h.id})
    case PublishUnmarked(h) =>
      if h !in s.held then s else s.(held := s.held - {h}, accepted := s.accepted + multiset{h.id})
    case Refuse(h) =>
      if h !in s.held || h.id !in s.rows then s
      else s.(rows := s.rows[h.id := MarkedFailed(s.rows[h.id], h.attempts, s.clock)], held := s.held - {h})
    case Abandon(h) => if h !in s.held then s else s.(held := s.held - {h})
  }

  ghost function Run(s: State, ops: seq<Op>): State {
    if ops == [] then s else Step(Run(s, ops[..|ops| - 1]), ops[|ops| - 1])
  }

  const START := State(map[], 0, {}, multiset{})

  // ----- always

  ghost predicate Safe(s: State) {
    && (forall h | h in s.held :: h.id in s.rows && h.since <= s.clock)
    && (forall id | id in s.rows ::
          && (s.rows[id].publishedAt.Some? ==> s.accepted[id] >= 1)
          && (s.rows[id].lockedAt.Some? ==> s.rows[id].lockedAt.value <= s.clock)
          && (s.rows[id].nextAttemptAt.Some? ==> s.rows[id].nextAttemptAt.value <= s.clock + 6 * RETRY_DELAY))
  }

  /** No event disappears, and none is marked published twice. */
  ghost predicate Kept(s: State, later: State) {
    forall id | id in s.rows ::
      && id in later.rows
      && (s.rows[id].publishedAt.Some? ==> later.rows[id].publishedAt == s.rows[id].publishedAt)
  }

  lemma StepSafe(s: State, op: Op)
    requires Safe(s)
    ensures Safe(Step(s, op))
    ensures Kept(s, Step(s, op))
  {
    hide ClaimedRows, MarkedPublished, MarkedFailed;
    match op
    case Insert(id) =>
    case Wait(until) =>
    case Claim(w, batch) => ClaimSafe(s, w, batch);
    case Publish(h) => PublishSafe(s, h);
    case PublishUnmarked(h) => PublishSafe(s, h);
    case Refuse(h) => RefuseSafe(s, h);
    case Abandon(h) =>
  }

  lemma PublishSafe(s: State, h: Hold)
    requires Safe(s)
    ensures Safe(Step(s, Publish(h))) && Kept(s, Step(s, Publish(h)))
    ensures Safe(Step(s, PublishUnmarked(h))) && Kept(s, Step(s, PublishUnmarked(h)))
  {
  }

  lemma RefuseSafe(s: State, h: Hold)
    requires Safe(s)
    ensures Safe(Step(s, Refuse(h))) && Kept(s, Step(s, Refuse(h)))
  {
  }

  lemma ClaimSafe(s: State, w: Worker, batch: set<EventId>)
    requires Safe(s)
    ensures Safe(Step(s, Claim(w, batch))) && Kept(s, Step(s, Claim(w, batch)))
  {
  }

  lemma {:induction false} RunSafe(s: State, ops: seq<Op>)
    requires Safe(s)
    ensures Safe(Run(s, ops))
    ensures Kept(s, Run(s, ops))
  {
    hide Safe, Step;
    if ops != [] {
      RunSafe(s, ops[..|ops| - 1]);
      StepSafe(Run(s, ops[..|ops| - 1]), ops[|ops| - 1]);
    }
  }

  /** Never early: a row marked published was accepted by Kafka at least once; and no event disappears. */
  lemma {:induction false} PublishedWasAccepted(past: seq<Op>, future: seq<Op>, id: EventId)
    requires id in Run(START, past).rows
    ensures var later := Run(Run(START, past), future);
            && id in later.rows
            && (later.rows[id].publishedAt.Some? ==> later.accepted[id] >= 1)
  {
    hide Run;
    EmptyIsSafe(START);
    RunSafe(START, past);
    RunSafe(Run(START, past), future);
  }

  lemma EmptyIsSafe(s: State)
    requires s == START
    ensures Safe(s)
  {
  }

  /** Every step that changes the row of an event: claiming, publishing or refusing it. */
  predicate Touches(op: Op, id: EventId) {
    match op
    case Claim(_, batch) => id in batch
    case Publish(h) => h.id == id
    case Refuse(h) => h.id == id
    case _ => false
  }

  lemma {:induction false} RowKept(s: State, ops: seq<Op>, id: EventId)
    requires id in s.rows && forall k | 0 <= k < |ops| :: !Touches(ops[k], id)
    ensures id in Run(s, ops).rows && Run(s, ops).rows[id] == s.rows[id] && Run(s, ops).clock >= s.clock
  {
    if ops != [] {
      RowKept(s, ops[..|ops| - 1], id);
      StepKeepsRow(Run(s, ops[..|ops| - 1]), ops[|ops| - 1], id);
      hide Step;
    }
  }

  lemma StepKeepsRow(s: State, op: Op, id: EventId)
    requires id in s.rows && !Touches(op, id)
    ensures id in Step(s, op).rows && Step(s, op).rows[id] == s.rows[id] && Step(s, op).clock >= s.clock
  {
  }

  /** Never stuck: an unpublished event that nobody claims, publishes or refuses any more, whatever happens to other
      events meanwhile, can be claimed exactly from the later of its lock plus the lease and its next attempt on;
      neither is ever more than the clock of its last change plus the lease. */
  lemma {:induction false} UnpublishedBecomesClaimable(past: seq<Op>, future: seq<Op>, id: EventId)
    requires id in Run(START, past).rows && Run(START, past).rows[id].publishedAt.None?
    requires forall k | 0 <= k < |future| :: !Touches(future[k], id)
    ensures var before, later := Run(START, past), Run(Run(START, past), future);
            var row := before.rows[id];
            && id in later.rows
            && (Claimable(later.rows[id], later.clock)
                <==> (row.lockedAt.Some? ==> later.clock > row.lockedAt.value + 300)
                     && (row.nextAttemptAt.Some? ==> later.clock >= row.nextAttemptAt.value))
            && (row.lockedAt.Some? ==> row.lockedAt.value <= before.clock)
            && (row.nextAttemptAt.Some? ==> row.nextAttemptAt.value <= before.clock + 30)
            && (later.clock > before.clock + 300 ==> Claimable(later.rows[id], later.clock))
  {
    hide Run, Touches;
    EmptyIsSafe(START);
    RunSafe(START, past);
    RowKept(Run(START, past), future, id);
  }

  lemma {:induction false} BackoffRange(r: Row, attemptsRead: nat, now: Time)
    requires r.publishedAt.None?
    ensures var n := MarkedFailed(r, attemptsRead, now);
            && n.nextAttemptAt.Some? && now + 5 <= n.nextAttemptAt.value <= now + 30
            && (forall t :: Claimable(n, t) <==> t >= n.nextAttemptAt.value)
  {
  }

  // ----- how long one event has one holder

  /** A claim in progress on id is the one its row records, and the event was due when it was claimed. */
  ghost predicate Recorded(s: State, id: EventId) {
    forall h | h in s.held && h.id == id ::
      && id in s.rows && s.rows[id].publishedAt.None?
      && s.rows[id].lockedAt == Some(h.since) && s.rows[id].lockedBy == Some(h.worker)
      && s.rows[id].attempts == h.attempts && h.since <= s.clock
      && (s.rows[id].nextAttemptAt.Some? ==> s.rows[id].nextAttemptAt.value <= h.since)
  }

  ghost predicate OneHolder(held: set<Hold>, id: EventId) {
    forall h, h' | h in held && h' in held && h.id == id && h'.id == id :: h == h'
  }

  /** At no point of the run so far was id held twice. */
  ghost predicate HeldOnce(ops: seq<Op>, id: EventId) {
    OneHolder(Run(START, ops).held, id) && (ops != [] ==> HeldOnce(ops[..|ops| - 1], id))
  }

  /** A claim in progress on id is older than the lease. */
  ghost predicate Overdue(s: State, id: EventId) {
    exists h :: h in s.held && h.id == id && s.clock > h.since + LEASE
  }

  lemma RecordedMeansOne(s: State, id: EventId)
    requires Recorded(s, id)
    ensures OneHolder(s.held, id)
  {
  }

  lemma StepRecorded(s: State, op: Op, id: EventId)
    requires Recorded(s, id) && OneHolder(Step(s, op).held, id)
    ensures Recorded(Step(s, op), id)
  {
    RecordedMeansOne(s, id);
    match op
    case Claim(w, batch) => ClaimRecorded(s, w, batch, id);
    case _ =>
  }

  lemma ClaimRecorded(s: State, w: Worker, batch: set<EventId>, id: EventId)
    requires Recorded(s, id) && OneHolder(Step(s, Claim(w, batch)).held, id)
    ensures Recorded(Step(s, Claim(w, batch)), id)
  {
    if batch <= Candidates(s.rows, s.clock) && id in batch {
      assert Hold(w, id, s.clock, s.rows[id].attempts) in Step(s, Claim(w, batch)).held;
    }
  }

  lemma {:induction false} HeldOnceRecorded(ops: seq<Op>, id: EventId)
    requires HeldOnce(ops, id)
    ensures Recorded(Run(START, ops), id)
  {
    hide Recorded, OneHolder, Step;
    if ops != [] {
      HeldOnceRecorded(ops[..|ops| - 1], id);
      StepRecorded(Run(START, ops[..|ops| - 1]), ops[|ops| - 1], id);
    } else {
      NothingHeld(START, id);
    }
  }

  lemma NothingHeld(s: State, id: EventId)
    requires s.held == {}
    ensures Recorded(s, id) && OneHolder(s.held, id)
  {
  }

  /** An event in progress that has had one holder at a time, whatever became of other events, can be claimed again
      exactly when its claim has outlived the lease. */
  lemma {:induction false} ReclaimableIff(ops: seq<Op>, h: Hold)
    requires HeldOnce(ops, h.id) && h in Run(START, ops).held
    ensures var s := Run(START, ops);
            h.id in s.rows && (Claimable(s.rows[h.id], s.clock) <==> s.clock > h.since + 300)
  {
    hide Run, HeldOnce;
    HeldOnceRecorded(ops, h.id);
  }

  /** So the next step can give the event a second holder exactly if its own claim has outlived the lease. */
  lemma {:induction false} SecondHolderIff(ops: seq<Op>, id: EventId)
    requires HeldOnce(ops, id)
    ensures (exists op :: !OneHolder(Step(Run(START, ops), op).held, id)) <==> Overdue(Run(START, ops), id)
  {
    hide Run, HeldOnce;
    HeldOnceRecorded(ops, id);
    SecondHolderAt(Run(START, ops), id);
    hide Step, OneHolder, Overdue;
  }

  lemma SecondHolderAt(s: State, id: EventId)
    requires Recorded(s, id)
    ensures (exists op :: !OneHolder(Step(s, op).held, id)) <==> Overdue(s, id)
  {
    if Overdue(s, id) {
      var h :| h in s.held && h.id == id && s.clock > h.since + LEASE;
      Claimed(s, id, h.worker);
      var second := Hold(h.worker, id, s.clock, s.rows[id].attempts);
      assert second in Step(s, Claim(h.worker, {id})).held && h in Step(s, Claim(h.worker, {id})).held;
      assert !OneHolder(Step(s, Claim(h.worker, {id})).held, id);
    } else {
      forall op ensures OneHolder(Step(s, op).held, id) {
        StepKeepsOne(s, op, id);
      }
    }
  }

  lemma StepKeepsOne(s: State, op: Op, id: EventId)
    requires Recorded(s, id) && !Overdue(s, id)
    ensures OneHolder(Step(s, op).held, id)
  {
    RecordedMeansOne(s, id);
    match op
    case Claim(w, batch) => ClaimKeepsOne(s, w, batch, id);
    case _ =>
  }

  lemma ClaimKeepsOne(s: State, w: Worker, batch: set<EventId>, id: EventId)
    requires Recorded(s, id) && !Overdue(s, id)
    ensures OneHolder(Step(s, Claim(w, batch)).held, id)
  {
    if batch <= Candidates(s.rows, s.clock) && id in batch {
      assert Claimable(s.rows[id], s.clock);
      assert forall h | h in s.held :: h.id != id;
    }
  }

  // ----- when every claimant finishes within the lease

  /** No claim in progress is older than the lease. */
  ghost predicate Prompt(s: State) {
    forall h | h in s.held :: s.clock <= h.since + LEASE
  }

  ghost predicate PromptRun(s: State, ops: seq<Op>) {
    Prompt(Run(s, ops)) && (ops != [] ==> PromptRun(s, ops[..|ops| - 1]))
  }

  /** The run was prompt up to its last step, which may have been the wait that outlived a lease. */
  ghost predicate PromptBefore(ops: seq<Op>) {
    ops != [] ==> PromptRun(START, ops[..|ops| - 1])
  }

  lemma {:induction false} PromptMeansOnce(ops: seq<Op>, id: EventId)
    requires PromptBefore(ops)
    ensures HeldOnce(ops, id)
  {
    hide Recorded, OneHolder, Step;
    if ops != [] {
      var front := ops[..|ops| - 1];
      PromptMeansOnce(front, id);
      HeldOnceRecorded(front, id);
      assert !Overdue(Run(START, front), id);
      StepKeepsOne(Run(START, front), ops[|ops| - 1], id);
    } else {
      NothingHeld(START, id);
    }
  }

  /** If every claimant finishes within the lease, no event is ever held by two workers, or twice by one. */
  lemma {:induction false} HoldersAreExclusive(ops: seq<Op>)
    requires PromptRun(START, ops)
    ensures forall h, h' | h in Run(START, ops).held && h' in Run(START, ops).held && h.id == h'.id :: h == h'
  {
    forall h, h' | h in Run(START, ops).held && h' in Run(START, ops).held && h.id == h'.id ensures h == h' {
      PromptMeansOnce(ops, h.id);
      assert OneHolder(Run(START, ops).held, h.id);
    }
  }

  /** So exclusivity hangs on the lease alone: after a run without overdue claims the next step can give some event a
      second holder exactly if a claim is overdue now. */
  lemma {:induction false} ExclusiveIffPrompt(ops: seq<Op>)
    requires PromptBefore(ops)
    ensures (forall op, id :: OneHolder(Step(Run(START, ops), op).held, id)) <==> Prompt(Run(START, ops))
  {
    var s := Run(START, ops);
    hide Run, PromptBefore, Step, OneHolder;
    forall id ensures (exists op :: !OneHolder(Step(s, op).held, id)) <==> Overdue(s, id) {
      PromptMeansOnce(ops, id);
      SecondHolderIff(ops, id);
    }
    if !Prompt(s) {
      var h :| h in s.held && s.clock > h.since + LEASE;
      assert Overdue(s, h.id);
      var op :| !OneHolder(Step(s, op).held, h.id);
    } else {
      forall op, id ensures OneHolder(Step(s, op).held, id) {
        assert !Overdue(s, id);
      }
    }
  }

  // ----- exactly once

  ghost predicate AcceptedOnce(s: State, id: EventId) {
    s.accepted[id] == if id in s.rows && s.rows[id].publishedAt.Some? then 1 else 0
  }

  predicate LosesMark(op: Op, id: EventId) {
    op.PublishUnmarked? && op.hold.id == id
  }

  lemma StepAcceptedOnce(s: State, op: Op, id: EventId)
    requires AcceptedOnce(s, id) && Recorded(s, id) && !LosesMark(op, id)
    ensures AcceptedOnce(Step(s, op), id)
  {
  }

  /** An event that is never held twice, and none of whose accepted publications goes unmarked, is accepted exactly
      once when its row says published, and never before. */
  lemma {:induction false} ExactlyOnceWhenHeldOnce(ops: seq<Op>, id: EventId)
    requires HeldOnce(ops, id) && forall k | 0 <= k < |ops| :: !LosesMark(ops[k], id)
    ensures AcceptedOnce(Run(START, ops), id)
  {
    hide Recorded, AcceptedOnce, Step;
    if ops != [] {
      var front := ops[..|ops| - 1];
      ExactlyOnceWhenHeldOnce(front, id);
      HeldOnceRecorded(front, id);
      StepAcceptedOnce(Run(START, front), ops[|ops| - 1], id);
    } else {
      NothingAccepted(START, id);
    }
  }

  lemma NothingAccepted(s: State, id: EventId)
    requires s == START
    ensures AcceptedOnce(s, id)
  {
  }

  /** So it is for every event if all claimants finish within the lease and mark what they publish. */
  lemma {:induction false} ExactlyOnceWhenPrompt(ops: seq<Op>, id: EventId)
    requires PromptRun(START, ops) && forall k | 0 <= k < |ops| :: !ops[k].PublishUnmarked?
    ensures AcceptedOnce(Run(START, ops), id)
  {
    PromptMeansOnce(ops, id);
    ExactlyOnceWhenHeldOnce(ops, id);
    hide AcceptedOnce, Run;
  }

  /** Beyond the lease: a slow worker and its successor hold one event, and both publish it. */
  lemma {:induction false} SlowWorkerPublishesTwice()
    ensures exists ops: seq<Op> ::
              (forall k | 0 <= k < |ops| :: !ops[k].PublishUnmarked?) && Run(START, ops).accepted[0] == 2
  {
    var slow, next := Hold(1, 0, 0, 0), Hold(2, 0, 301, 0);
    ClaimedBySlow();
    ClaimedAgain();
    hide Step, Run;
    Extend(TWO_CLAIMS, Publish(slow));
    Extend(TWO_CLAIMS + [Publish(slow)], Publish(next));
    BothPublish(Run(START, TWO_CLAIMS), slow, next);
    assert Run(START, TWO_CLAIMS + [Publish(slow)] + [Publish(next)]).accepted[0] == 2;
  }

  const LOCKED_ROW := Row(0, None, 0, None, Some(0), Some(1))
  const ONE_CLAIM: seq<Op> := [Insert(0)] + [Claim(1, {0})] + [Wait(301)]
  const TWO_CLAIMS: seq<Op> := ONE_CLAIM + [Claim(2, {0})]

  /** An event locked at time 0, seen at time 301. */
  lemma ClaimedBySlow()
    ensures Run(START, ONE_CLAIM) == State(map[0 := LOCKED_ROW], 301, {Hold(1, 0, 0, 0)}, multiset{})
  {
    var inserted := State(map[0 := Row(0, None, 0, None, None, None)], 0, {}, multiset{});
    Extend([], Insert(0));
    assert [] + [Insert(0)] == [Insert(0)];
    Extend([Insert(0)], Claim(1, {0}));
    Claimed(inserted, 0, 1);
    Extend([Insert(0)] + [Claim(1, {0})], Wait(301));
  }

  lemma ClaimedAgain()
    requires Run(START, ONE_CLAIM) == State(map[0 := LOCKED_ROW], 301, {Hold(1, 0, 0, 0)}, multiset{})
    ensures var s := Run(START, TWO_CLAIMS);
            && s.rows == map[0 := Locked(LOCKED_ROW, 2, 301)] && s.accepted == multiset{}
            && s.held == {Hold(1, 0, 0, 0), Hold(2, 0, 301, 0)}
  {
    hide Run;
    Extend(ONE_CLAIM, Claim(2, {0}));
    Claimed(Run(START, ONE_CLAIM), 0, 2);
  }

  lemma BothPublish(s: State, h: Hold, g: Hold)
    requires h in s.held && g in s.held && h != g && h.id == g.id && h.id in s.rows && s.accepted == multiset{}
    ensures Step(Step(s, Publish(h)), Publish(g)).accepted[h.id] == 2
  {
  }

  lemma Extend(ops: seq<Op>, op: Op)
    ensures Run(START, ops + [op]) == Step(Run(START, ops), op)
  {
    assert (ops + [op])[..|ops|] == ops;
  }

  /** A claim of one claimable event. */
  lemma Claimed(s: State, id: EventId, w: Worker)
    requires id in s.rows && Claimable(s.rows[id], s.clock)
    ensures Step(s, Claim(w, {id}))
            == s.(rows := s.rows[id := Locked(s.rows[id], w, s.clock)],
                  held := s.held + {Hold(w, id, s.clock, s.rows[id].attempts)})
  {
    assert ClaimedRows(s.rows, {id}, w, s.clock) == s.rows[id := Locked(s.rows[id], w, s.clock)];
    assert (set e | e in {id} :: Hold(w, e, s.clock, s.rows[e].attempts))
           == {Hold(w, id, s.clock, s.rows[id].attempts)};
  }

  // ----- the publisher

  datatype Answer = Accepted | AcceptedUnmarked | Refused | RefusedUnmarked

  /** What became of one event; one that got no answer is as if the worker had died. */
  function AnswerTo(answers: map<EventId, Answer>, id: EventId): Answer {
    if id in answers then answers[id] else RefusedUnmarked
  }

  /** The row after one publishEvent; claimed is the row as the claim returned it. */
  function Answered(r: Row, claimed: Row, a: Answer, now: Time): Row {
    match a
    case Accepted => MarkedPublished(r, now)
    case Refused => MarkedFailed(r, claimed.attempts, now)
    case AcceptedUnmarked => r
    case RefusedUnmarked => r
  }

  function AnsweredRows(rows: map<EventId, Row>, ids: set<EventId>, answers: map<EventId, Answer>,
                        now: Time): map<EventId, Row> {
    map id | id in rows ::
      if id in ids then Answered(rows[id], rows[id], AnswerTo(answers, id), now) else rows[id]
  }

  lemma NoneAnswered(rows: map<EventId, Row>, batch: seq<EventId>, answers: map<EventId, Answer>, now: Time)
    ensures AnsweredRows(rows, Members(batch[..0]), answers, now) == rows
  {
  }

  /** Events are published one by one and answered independently. */
  lemma OneMoreAnswered(rows: map<EventId, Row>, batch: seq<EventId>, answers: map<EventId, Answer>, now: Time, k: nat)
    requires k < |batch| && batch[k] in rows && batch[k] !in batch[..k]
    ensures var before, id := AnsweredRows(rows, Members(batch[..k]), answers, now), batch[k];
            && id in before && before[id] == rows[id]
            && AnsweredRows(rows, Members(batch[..k + 1]), answers, now)
               == before[id := Answered(before[id], rows[id], AnswerTo(answers, id), now)]
  {
    hide Answered;
    assert batch[..k + 1] == batch[..k] + [batch[k]];
    assert Members(batch[..k + 1]) == Members(batch[..k]) + {batch[k]};
  }

  // ----- a round of the publisher as steps

  /** The claim on an event that the round works on. */
  ghost function RoundHold(rows: map<EventId, Row>, w: Worker, id: EventId, now: Time): Hold
    requires id in rows
  {
    Hold(w, id, now, rows[id].attempts)
  }

  ghost function StepFor(h: Hold, a: Answer): Op {
    match a
    case Accepted => Publish(h)
    case AcceptedUnmarked => PublishUnmarked(h)
    case Refused => Refuse(h)
    case RefusedUnmarked => Abandon(h)
  }

  /** The steps of one PublishPending: a claim, then one step an event. */
  ghost function Round(rows: map<EventId, Row>, w: Worker, batch: seq<EventId>, answers: map<EventId, Answer>,
                       now: Time): (ops: seq<Op>)
    requires forall k | 0 <= k < |batch| :: batch[k] in rows
  {
    [Claim(w, Members(batch))]
    + seq(|batch|, k requires 0 <= k < |batch| =>
        StepFor(RoundHold(rows, w, batch[k], now), AnswerTo(answers, batch[k])))
  }

  /** Kafka took the event in this round. */
  predicate Took(batch: seq<EventId>, answers: map<EventId, Answer>, id: EventId) {
    id in batch && id in answers && answers[id] in {Accepted, AcceptedUnmarked}
  }

  /** After the claim and k answers: the rows are those answered so far, the rest of the batch is held. */
  ghost predicate Midway(s: State, r: State, w: Worker, batch: seq<EventId>, answers: map<EventId, Answer>, k: nat)
    requires k <= |batch| && forall j | 0 <= j < |batch| :: batch[j] in s.rows
  {
    && r.clock == s.clock
    && r.rows == AnsweredRows(ClaimedRows(s.rows, Members(batch), w, s.clock), Members(batch[..k]), answers, s.clock)
    && (forall j | k <= j < |batch| :: RoundHold(s.rows, w, batch[j], s.clock) in r.held)
    && (forall id :: r.accepted[id] == s.accepted[id] + if Took(batch[..k], answers, id) then 1 else 0)
  }

  lemma RoundClaims(s: State, w: Worker, batch: seq<EventId>, answers: map<EventId, Answer>)
    requires Members(batch) <= Candidates(s.rows, s.clock)
    ensures forall k | 0 <= k < |batch| :: batch[k] in s.rows
    ensures Midway(s, Step(s, Claim(w, Members(batch))), w, batch, answers, 0)
  {
    assert forall k | 0 <= k < |batch| :: batch[k] in Members(batch);
    NoneAnswered(ClaimedRows(s.rows, Members(batch), w, s.clock), batch, answers, s.clock);
    hide ClaimedRows, AnsweredRows, Candidates;
  }

  lemma RoundAnswers(s: State, r: State, w: Worker, batch: seq<EventId>, answers: map<EventId, Answer>, k: nat)
    requires Distinct(batch) && k < |batch| && forall j | 0 <= j < |batch| :: batch[j] in s.rows
    requires Midway(s, r, w, batch, answers, k)
    ensures Midway(s, Step(r, StepFor(RoundHold(s.rows, w, batch[k], s.clock), AnswerTo(answers, batch[k]))), w, batch,
                   answers, k + 1)
  {
    var claimed := ClaimedRows(s.rows, Members(batch), w, s.clock);
    var id := batch[k];
    assert id in claimed && claimed[id].attempts == s.rows[id].attempts;
    OneMoreAnswered(claimed, batch, answers, s.clock, k);
    assert batch[..k + 1] == batch[..k] + [id];
    hide ClaimedRows, AnsweredRows, MarkedPublished, MarkedFailed;
  }

  lemma RunPrefix(s: State, ops: seq<Op>, k: nat)
    requires k < |ops|
    ensures Run(s, ops[..k + 1]) == Step(Run(s, ops[..k]), ops[k])
  {
    assert ops[..k + 1][..k] == ops[..k];
    hide Step;
  }

  lemma {:induction false} RoundRuns(s: State, w: Worker, batch: seq<EventId>, answers: map<EventId, Answer>, k: nat)
    requires Distinct(batch) && Members(batch) <= Candidates(s.rows, s.clock) && k <= |batch|
    ensures forall j | 0 <= j < |batch| :: batch[j] in s.rows
    ensures Midway(s, Run(s, Round(s.rows, w, batch, answers, s.clock)[..k + 1]), w, batch, answers, k)
  {
    RoundClaims(s, w, batch, answers);
    var ops := Round(s.rows, w, batch, answers, s.clock);
    RunPrefix(s, ops, k);
    hide Midway, Candidates, Members, Step;
    if k == 0 {
      assert ops[..0] == [] && ops[0] == Claim(w, Members(batch));
    } else {
      var h, a := RoundHold(s.rows, w, batch[k - 1], s.clock), AnswerTo(answers, batch[k - 1]);
      assert ops[k] == StepFor(h, a);
      hide Round, Run, RoundHold, AnswerTo, StepFor;
      RoundRuns(s, w, batch, answers, k - 1);
      RoundAnswers(s, Run(s, ops[..k]), w, batch, answers, k - 1);
    }
  }

  /** A run, then another from where it ended, is one run; so every theorem about runs covers any rounds of any
      publishers, however they interleave with other steps. */
  lemma {:induction false} RunAppend(s: State, past: seq<Op>, more: seq<Op>)
    ensures Run(s, past + more) == Run(Run(s, past), more)
  {
    if more == [] {
      assert past + more == past;
    } else {
      assert (past + more)[..|past + more| - 1] == past + more[..|more| - 1];
      RunAppend(s, past, more[..|more| - 1]);
    }
  }

  /** A round is a run: it leaves the rows that its steps leave, and Kafka has taken exactly what it accepted. */
  lemma {:induction false} RoundIsRun(s: State, w: Worker, batch: seq<EventId>, answers: map<EventId, Answer>)
    requires Distinct(batch) && Members(batch) <= Candidates(s.rows, s.clock)
    ensures forall j | 0 <= j < |batch| :: batch[j] in s.rows
    ensures var r := Run(s, Round(s.rows, w, batch, answers, s.clock));
            && r.clock == s.clock
            && r.rows == AnsweredRows(ClaimedRows(s.rows, Members(batch), w, s.clock), Members(batch), answers, s.clock)
            && forall id :: r.accepted[id] == s.accepted[id] + if Took(batch, answers, id) then 1 else 0
  {
    RoundRuns(s, w, batch, answers, |batch|);
    var ops := Round(s.rows, w, batch, answers, s.clock);
    assert ops[..|batch| + 1] == ops && batch[..|batch|] == batch;
    hide Run, Round, AnsweredRows, ClaimedRows, Candidates;
  }

  /** What a round makes of the events it claimed, answer by answer, and of the others. */
  ghost predicate Handled(before: map<EventId, Row>, after: map<EventId, Row>, batch: seq<EventId>, w: Worker,
                          answers: map<EventId, Answer>, now: Time)
  {
    && after.Keys == before.Keys
    && (forall id | id in before && id !in batch :: after[id] == before[id])
    && forall id | id in before && id in batch ::
         var a, n := AnswerTo(answers, id), before[id].attempts + 1;
         && before[id].publishedAt.None?
         && (a == Accepted ==> after[id] == before[id].(publishedAt := Some(now), lockedAt := None, lockedBy := None))
         && (a == Refused ==>
               after[id] == before[id].(attempts := n, nextAttemptAt := Some(now + 5 * (if n < 6 then n else 6)),
                                        lockedAt := None, lockedBy := None))
         && (a in {AcceptedUnmarked, RefusedUnmarked} ==>
               after[id] == before[id].(lockedAt := Some(now), lockedBy := Some(w)))
  }

  lemma RoundHandles(rows: map<EventId, Row>, batch: seq<EventId>, w: Worker, answers: map<EventId, Answer>, now: Time)
    requires Members(batch) <= Candidates(rows, now)
    ensures Handled(rows, AnsweredRows(ClaimedRows(rows, Members(batch), w, now), Members(batch), answers, now), batch,
                    w, answers, now)
  {
    assert forall id | id in batch :: id in Members(batch);
  }

  lemma BatchClaimable(rows: map<EventId, Row>, now: Time, locked: set<EventId>, limit: nat, batch: seq<EventId>)
    requires Sorted(batch, Ranks(rows))
    requires IsBatch(Candidates(rows, now) - locked, Ranks(rows), limit, Members(batch))
    ensures Distinct(batch) && Members(batch) <= Candidates(rows, now)
    ensures forall k | 0 <= k < |batch| :: batch[k] in rows
  {
    hide Candidates;
  }

  predicate Due(r: Row, now: Time) {
    && r.publishedAt.None?
    && (r.nextAttemptAt.Some? ==> r.nextAttemptAt.value <= now)
    && (r.lockedAt.Some? ==> r.lockedAt.value + 300 < now)
  }

  predicate Older(rows: map<EventId, Row>, id: EventId, e: EventId)
    requires id in rows && e in rows
  {
    rows[id].createdAt < rows[e].createdAt || (rows[id].createdAt == rows[e].createdAt && id < e)
  }

  /** The batch is due and free, by age and then by id; due free events are left out only beyond the limit, and none
      of them is older than one in the batch. */
  ghost predicate OldestDue(rows: map<EventId, Row>, now: Time, locked: set<EventId>, limit: nat, batch: seq<EventId>) {
    && |batch| <= limit
    && (forall id | id in batch :: id in rows && id !in locked && Due(rows[id], now))
    && (forall i, j | 0 <= i < j < |batch| :: Older(rows, batch[i], batch[j]))
    && (forall e | e in rows && e !in batch && e !in locked && Due(rows[e], now) ::
          |batch| == limit && forall id | id in batch :: Older(rows, id, e))
  }

  lemma BatchInOrder(rows: map<EventId, Row>, batch: seq<EventId>)
    requires Sorted(batch, Ranks(rows))
    ensures Distinct(batch) && forall id | id in batch :: id in rows
    ensures forall i, j | 0 <= i < j < |batch| :: Older(rows, batch[i], batch[j])
  {
  }

  lemma LeftOut(rows: map<EventId, Row>, now: Time, locked: set<EventId>, limit: nat, batch: seq<EventId>, e: EventId)
    requires Distinct(batch) && IsBatch(Candidates(rows, now) - locked, Ranks(rows), limit, Members(batch))
    requires e in rows && e !in locked && e !in batch && Due(rows[e], now)
    ensures |batch| == limit && forall id | id in batch :: id in rows && Older(rows, id, e)
  {
    var all := Candidates(rows, now) - locked;
    DistinctMembers(batch);
    assert e in all - Members(batch);
    if |all| <= limit {
      SameSize(Members(batch), all);
    }
    forall id | id in batch ensures id in rows && Older(rows, id, e) {
      assert id in Members(batch);
    }
  }

  lemma BatchIsOldestDue(rows: map<EventId, Row>, now: Time, locked: set<EventId>, limit: nat, batch: seq<EventId>)
    requires Sorted(batch, Ranks(rows))
    requires IsBatch(Candidates(rows, now) - locked, Ranks(rows), limit, Members(batch))
    ensures OldestDue(rows, now, locked, limit, batch)
  {
    BatchInOrder(rows, batch);
    hide Sorted;
    DistinctMembers(batch);
    forall id | id in batch ensures id in rows && id !in locked && Due(rows[id], now) {
      assert id in Members(batch);
    }
    forall e | e in rows && e !in batch && e !in locked && Due(rows[e], now)
      ensures |batch| == limit && forall id | id in batch :: Older(rows, id, e) {
      LeftOut(rows, now, locked, limit, batch, e);
    }
  }

  class Publisher {
    var rows: map<EventId, Row>

    constructor ()
      ensures rows == map[]
    {
      rows := map[];
    }

    /** ClaimPendingOutboxEvents; SKIP LOCKED leaves out the rows others have locked. */
    method ClaimPending(w: Worker, limit: nat, now: Time, locked: set<EventId>) returns (batch: seq<EventId>)
      modifies this
      ensures Sorted(batch, Ranks(old(rows)))
      ensures forall i | 0 <= i < |batch| :: batch[i] in rows
      ensures IsBatch(Candidates(old(rows), now) - locked, Ranks(old(rows)), limit, Members(batch))
      ensures rows == ClaimedRows(old(rows), Members(batch), w, now)
      ensures OldestDue(old(rows), now, locked, limit, batch)
    {
      batch := Take(Candidates(rows, now) - locked, Ranks(rows), limit);
      assert forall i | 0 <= i < |batch| :: batch[i] in Members(batch);
      BatchIsOldestDue(rows, now, locked, limit, batch);
      rows := ClaimedRows(rows, Members(batch), w, now);
    }

    /** publishEvent, given Kafka's and the database's answers. */
    method PublishEvent(id: EventId, claimed: Row, a: Answer, now: Time)
      requires id in rows
      modifies this
      ensures rows == old(rows)[id := Answered(old(rows)[id], claimed, a, now)]
      ensures a in {AcceptedUnmarked, RefusedUnmarked} || old(rows)[id].publishedAt.Some? ==> rows == old(rows)
      ensures a == Accepted ==> rows[id].publishedAt.Some?
      ensures a == Accepted && old(rows)[id].publishedAt.None? ==>
                rows[id] == old(rows)[id].(publishedAt := Some(now), lockedAt := None, lockedBy := None)
      ensures a == Refused && old(rows)[id].publishedAt.None? ==>
                var n := claimed.attempts + 1;
                rows[id] == old(rows)[id].(attempts := old(rows)[id].attempts + 1, lockedAt := None, lockedBy := None,
                                           nextAttemptAt := Some(now + 5 * (if n < 6 then n else 6)))
    {
      if a == Accepted && rows[id].publishedAt.None? {
        rows := rows[id := rows[id].(publishedAt := Some(now), lockedAt := None, lockedBy := None)];
      } else if a == Refused && rows[id].publishedAt.None? {
        var attempt := claimed.attempts + 1;
        var backoff := (if attempt < 6 then attempt else 6) * RETRY_DELAY;
        rows := rows[id := rows[id].(attempts := rows[id].attempts + 1, nextAttemptAt := Some(now + backoff),
                                     lockedAt := None, lockedBy := None)];
      }
    }

    /** PublishPending: claim the oldest claimable events, then publish each; one failure stops no other. From every
        state with these rows it is the run of its claim and its answers. */
    method PublishPending(w: Worker, batchSize: int, locked: set<EventId>, answers: map<EventId, Answer>, now: Time)
      returns (batch: seq<EventId>)
      modifies this
      ensures OldestDue(old(rows), now, locked, if batchSize <= 0 then 100 else batchSize, batch)
      ensures Handled(old(rows), rows, batch, w, answers, now)
      ensures forall k | 0 <= k < |batch| :: batch[k] in old(rows)
      ensures forall s: State | s.rows == old(rows) && s.clock == now ::
                var later := Run(s, Round(old(rows), w, batch, answers, now));
                && later.rows == rows && later.clock == now
                && forall id :: later.accepted[id] == s.accepted[id] + if Took(batch, answers, id) then 1 else 0
    {
      hide IsBatch, Candidates, ClaimedRows, AnsweredRows, Answered, Members, OldestDue, Handled, Run, Round, Took;
      batch := ClaimPending(w, if batchSize <= 0 then DEFAULT_BATCH else batchSize, now, locked);
      ghost var events := batch;
      var claimed := rows;
      NoneAnswered(claimed, batch, answers, now);
      var k := 0;
      while k < |batch|
        invariant 0 <= k <= |batch| && batch == events
        invariant rows == AnsweredRows(claimed, Members(batch[..k]), answers, now)
      {
        var id := batch[k];
        OneMoreAnswered(claimed, batch, answers, now, k);
        PublishEvent(id, claimed[id], AnswerTo(answers, id), now);
        k := k + 1;
      }
      assert batch[..k] == batch;
      BatchClaimable(old(rows), now, locked, if batchSize <= 0 then DEFAULT_BATCH else batchSize, batch);
      RoundHandles(old(rows), batch, w, answers, now);
      forall s: State | s.rows == old(rows) && s.clock == now
        ensures var later := Run(s, Round(old(rows), w, batch, answers, now));
                && later.rows == rows && later.clock == now
                && forall id :: later.accepted[id] == s.accepted[id] + if Took(batch, answers, id) then 1 else 0 {
        RoundIsRun(s, w, batch, answers);
      }
    }
  }
}
