// The read models beside the engine: the approver's queue, the list's current step, the detail's states,
// and the status Decide reports. Each is compared with the chain itself.

module ApprovalViews {
  import opened Tables
  import opened Steps
  import opened Invariants
  import opened Chain
  import opened ApprovalGuarantees
  import opened ApprovalService
  import opened Store
  import opened Batches
  import opened Sets
  import Rules

  // ----- the queue

  /** A row of ListPendingForUser; the query looks at no transaction status. */
  ghost predicate InQueue(db: Db, actor: Actor, i: nat) {
    && i < |db.approvals| && db.approvals[i].tx in db.txs
    && db.approvals[i].approver == actor.user
    && db.txs[db.approvals[i].tx].org == actor.org
    && db.approvals[i].activatedAt.Some? && db.approvals[i].cancelledAt.None?
    && !db.txs[db.approvals[i].tx].deleted
    && db.txs[db.approvals[i].tx].project in db.projects
    && DecisionOf(db.decisions, i).None?
  }

  /** When a row of the queue was activated; other rows do not matter. */
  function ActivatedAt(a: Approval): Time {
    match a.activatedAt
    case Some(at) => at
    case None => 0
  }

  /** Assigned: the queue, each row once, the longest active first. */
  method Assigned(q: Store, actor: Actor) returns (ids: seq<nat>)
    ensures forall i: nat :: i in ids <==> InQueue(q.State(), actor, i)
    ensures forall k | 0 <= k < |ids| :: ids[k] < |q.approvals|
    ensures forall k | 0 <= k < |ids| :: q.approvals[ids[k]].activatedAt.Some?
    ensures forall k, l | 0 <= k < l < |ids| ::
              ids[k] != ids[l] && q.approvals[ids[k]].activatedAt.value <= q.approvals[ids[l]].activatedAt.value
  {
    hide DecisionOf;
    var rows: set<nat> := {};
    var i := 0;
    while i < |q.approvals|
      invariant 0 <= i <= |q.approvals|
      invariant forall j: nat :: j in rows <==> j < i && InQueue(q.State(), actor, j)
    {
      var a := q.approvals[i];
      if a.approver == actor.user && a.activatedAt.Some? && a.cancelledAt.None? && a.tx in q.txs
         && q.txs[a.tx].org == actor.org && !q.txs[a.tx].deleted && q.txs[a.tx].project in q.projects
         && DecisionOf(q.decisions, i).None? {
        rows := rows + {i};
      }
      i := i + 1;
    }
    var rank := map r: nat | r < |q.approvals| :: (ActivatedAt(q.approvals[r]), r as int);
    ids := OrderBy(rows, rank);
    assert forall r: nat :: r in ids <==> r in Members(ids);
    assert forall k | 0 <= k < |ids| :: ids[k] in ids;
  }

  /** The queue lists exactly the approvals this user, as an active member, can decide now. */
  lemma {:induction false} QueueIsDecidable(past: seq<Op>, actor: Actor, i: nat, v: Verdict, now: Time)
    ensures InQueue(Run(EMPTY, past), actor, i) <==> Decide(Run(EMPTY, past), actor, i, v, true, now).Commit?
  {
    hide Run;
    ReachableInv(past);
    QueueAt(Run(EMPTY, past), actor, i, v, now);
    hide Inv, InQueue, Decide;
  }

  lemma QueueAt(db: Db, actor: Actor, i: nat, v: Verdict, now: Time)
    requires Inv(db)
    ensures InQueue(db, actor, i) <==> Decide(db, actor, i, v, true, now).Commit?
  {
    hide LedgerOk, DocsOk, UploadsOk, AnnouncedOk, ChainsOk, Rules.RulesOk, DecisionApplied, DecisionOf, LiveDocs;
    if InQueue(db, actor, i) {
      OwedMeansPending(db, i);
    }
  }

  /** An active, uncancelled, undecided approval exists in pending transactions only. */
  lemma OwedMeansPending(db: Db, i: nat)
    requires ChainsOk(db.txs, db.approvals, db.decisions)
    requires Decidable(db.approvals, db.decisions, i)
    ensures db.approvals[i].tx in db.txs && db.txs[db.approvals[i].tx].status == PendingApproval
  {
    hide TablesOk, DecisionOf;
    assert ChainOk(db.txs[db.approvals[i].tx].status, db.approvals, db.decisions, db.approvals[i].tx);
  }

  // ----- the list

  /** SELECT MIN(step) over the active, uncancelled, undecided approvals of t. */
  function LowestOwed(ap: seq<Approval>, ds: seq<Decision>, t: TxId, n: nat): (s: Option<int>)
    requires n <= |ap|
    ensures s.None? <==> forall i: nat | i < n :: !Owed(ap, ds, t, i)
    ensures s.Some? ==> exists i: nat | i < n :: Owed(ap, ds, t, i) && ap[i].step == s.value
    ensures s.Some? ==> forall i: nat | i < n && Owed(ap, ds, t, i) :: s.value <= ap[i].step
  {
    if n == 0 then None
    else
      var rest := LowestOwed(ap, ds, t, n - 1);
      if Owed(ap, ds, t, n - 1) && (rest.None? || ap[n - 1].step < rest.value) then Some(ap[n - 1].step) else rest
  }

  /** current_step of the list query is the chain's step while the transaction is pending, and NULL otherwise. */
  lemma {:induction false} ListedStepIsCurrent(past: seq<Op>, t: TxId)
    requires t in Run(EMPTY, past).txs
    ensures var db := Run(EMPTY, past);
            var listed := LowestOwed(db.approvals, db.decisions, t, |db.approvals|);
            && (listed.Some? <==> db.txs[t].status == PendingApproval)
            && (listed.Some? ==> AtStep(db.approvals, db.decisions, t, listed.value))
  {
    ChainsHold(past);
    ListedAt(Run(EMPTY, past), t);
    hide Run, ChainsOk, LowestOwed, AtStep;
  }

  lemma {:induction false} ListedAt(db: Db, t: TxId)
    requires ChainsOk(db.txs, db.approvals, db.decisions) && t in db.txs
    ensures var listed := LowestOwed(db.approvals, db.decisions, t, |db.approvals|);
            && (listed.Some? <==> db.txs[t].status == PendingApproval)
            && (listed.Some? ==> AtStep(db.approvals, db.decisions, t, listed.value))
  {
    var ap, ds := db.approvals, db.decisions;
    hide TablesOk, DecisionOf;
    assert ChainOk(db.txs[t].status, ap, ds, t);
    if db.txs[t].status == PendingApproval {
      var c :| AtStep(ap, ds, t, c);
      var i: nat :| i < |ap| && ap[i].tx == t && ap[i].step == c && DecisionOf(ds, i).None?;
      assert Owed(ap, ds, t, i);
    }
  }

  // ----- the detail

  datatype ViewState = Cancelled | Waiting | Pending | Decided

  /** The state buildDetail derives for one approval. */
  ghost function ViewStateOf(db: Db, i: nat): ViewState
    requires i < |db.approvals|
  {
    if DecisionOf(db.decisions, i).Some? then Decided
    else if db.approvals[i].cancelledAt.Some? then Cancelled
    else if db.approvals[i].activatedAt.None? then Waiting
    else Pending
  }

  /** The approval loop of buildDetail: each approval once, by step. */
  method BuildApprovals(q: Store, t: TxId) returns (ids: seq<nat>, states: seq<ViewState>)
    ensures |ids| == |states| && forall i: nat :: i in ids <==> i < |q.approvals| && q.approvals[i].tx == t
    ensures forall k | 0 <= k < |ids| :: ids[k] < |q.approvals|
    ensures forall k, l | 0 <= k < l < |ids| :: StepBefore(q.approvals, ids[k], ids[l])
    ensures forall k | 0 <= k < |ids| :: ids[k] < |q.approvals| && states[k] == ViewStateOf(q.State(), ids[k])
  {
    hide DecisionOf;
    ids := q.ListApprovalsByTransaction(t);
    var decided := DecidedSet(q);
    states := [];
    for k := 0 to |ids|
      invariant |states| == k
      invariant forall j | 0 <= j < k :: states[j] == ViewStateOf(q.State(), ids[j])
    {
      assert ids[k] in ids;
      var a := q.approvals[ids[k]];
      var state := if a.cancelledAt.Some? then Cancelled else if a.activatedAt.None? then Waiting else Pending;
      if ids[k] in decided {
        state := ViewState.Decided;
      }
      states := states + [state];
    }
  }

  /** What the detail can show: waiting and pending approvals only while the transaction is pending, cancelled
      ones only after a rejection, and the pending ones are those at the chain's step. */
  lemma {:induction false} DetailStates(past: seq<Op>, t: TxId, i: nat)
    requires t in Run(EMPTY, past).txs && i < |Run(EMPTY, past).approvals| && Run(EMPTY, past).approvals[i].tx == t
    ensures var db := Run(EMPTY, past);
            match db.txs[t].status
            case Draft => false
            case PendingApproval =>
              var c := LowestOwed(db.approvals, db.decisions, t, |db.approvals|);
              && c.Some? && ViewStateOf(db, i) != Cancelled
              && (ViewStateOf(db, i) == Waiting <==> db.approvals[i].step > c.value)
              && (ViewStateOf(db, i) == Pending ==> db.approvals[i].step == c.value)
            case Approved => ViewStateOf(db, i) == Decided
            case Rejected => ViewStateOf(db, i) == Decided || ViewStateOf(db, i) == Cancelled
  {
    ChainsHold(past);
    var db := Run(EMPTY, past);
    ListedAt(db, t);
    hide Run, LowestOwed, TablesOk, DecisionOf;
    assert ChainOk(db.txs[t].status, db.approvals, db.decisions, t);
  }

  // ----- what Decide reports

  /** A sibling of approval i, active in the same transaction, still owes its decision. */
  ghost predicate SiblingOwed(db: Db, i: nat) {
    i < |db.approvals| && exists j: nat | j < |db.approvals| ::
      j != i && Owed(db.approvals, db.decisions, db.approvals[i].tx, j)
  }

  /** The status Decide reports is the stored one exactly when the verdict rejects or no sibling owes a decision. */
  lemma {:induction false} ReportedStatusIff(db: Db, actor: Actor, i: nat, v: Verdict, active: bool, now: Time)
    requires Decide(db, actor, i, v, active, now).Commit?
    ensures var after := Decide(db, actor, i, v, active, now).db;
            Reported(db, i, actor.user, v).status == after.txs[db.approvals[i].tx].status
            <==> v == Reject || !SiblingOwed(db, i)
  {
    hide DecisionOf, LowestWaiting, AnyOwed, SiblingOwed, CancelRest, ActivateStep, FirstOfStep;
    WaitsForSibling(db, i, Decision(i, actor.user, v));
  }

  lemma WaitsForSibling(db: Db, i: nat, d: Decision)
    requires i < |db.approvals| && d.approval == i
    ensures AnyOwed(db.approvals, db.decisions + [d], db.approvals[i].tx) <==> SiblingOwed(db, i)
  {
    DecisionOfExtended(db.decisions, d);
    hide DecisionOf;
    assert forall j: nat | j < |db.approvals| ::
      Owed(db.approvals, db.decisions + [d], db.approvals[i].tx, j)
      <==> j != i && Owed(db.approvals, db.decisions, db.approvals[i].tx, j);
  }
}
