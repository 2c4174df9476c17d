// What holds of approval chains over whole runs: structure, outcomes, progress, and the views onto them.

module ApprovalGuarantees {
  import opened Tables
  import opened Steps
  import opened Invariants
  import opened Evolution
  import opened Chain
  import opened Sets
  import Rules

  lemma ChainsHold(past: seq<Op>)
    ensures var db := Run(EMPTY, past); ChainsOk(db.txs, db.approvals, db.decisions)
  {
    hide Run;
    ReachableInv(past);
    hide LedgerOk, ChainsOk, DocsOk, UploadsOk, AnnouncedOk, HomesOk, SubmittedOk, Rules.RulesOk;
  }

  // ----- rules

  /** In every reachable state the live rules of one scope have distinct approvers and steps one to ten, so
      -1 is never a step; what submit resolves has distinct approvers for any organization and project. */
  lemma {:induction false} RulesHold(past: seq<Op>, org: OrgId, project: ProjectId)
    ensures var rules := Run(EMPTY, past).rules;
            && (forall i, j | 0 <= i < j < |rules| && !rules[i].deleted && !rules[j].deleted
                              && Rules.SameScope(rules[i], rules[j]) ::
                  rules[i].approver != rules[j].approver)
            && (forall i | 0 <= i < |rules| :: 1 <= rules[i].step <= 10)
            && Rules.DistinctApprovers(Rules.Resolve(rules, org, project))
  {
    hide Run, Rules.Resolve;
    ReachableInv(past);
    hide LedgerOk, ChainsOk, DocsOk, UploadsOk, AnnouncedOk, HomesOk, SubmittedOk;
    Rules.ResolveMeaning(Run(EMPTY, past).rules, org, project);
  }

  // ----- structure

  /** In every reachable state a pending transaction is at one step: lower steps are active and approved,
      that step is active and still owes a decision, higher steps are untouched, nothing is cancelled. */
  lemma {:induction false} PendingHasCurrentStep(past: seq<Op>, t: TxId) returns (c: int)
    requires t in Run(EMPTY, past).txs && Run(EMPTY, past).txs[t].status == PendingApproval
    ensures var db := Run(EMPTY, past);
            1 <= c <= 10 && AtStep(db.approvals, db.decisions, t, c)
  {
    ChainsHold(past);
    var db := Run(EMPTY, past);
    hide Run;
    c :| AtStep(db.approvals, db.decisions, t, c);
  }

  /** An approval has at most one decision, made by its approver while it was active; a decided approval is
      never cancelled. */
  lemma {:induction false} DecidedAtMostOnce(past: seq<Op>, k: nat, l: nat)
    requires k < |Run(EMPTY, past).decisions| && l < |Run(EMPTY, past).decisions|
    requires Run(EMPTY, past).decisions[k].approval == Run(EMPTY, past).decisions[l].approval
    ensures k == l
    ensures var db := Run(EMPTY, past);
            var a := db.decisions[k].approval;
            && a < |db.approvals| && db.approvals[a].approver == db.decisions[k].decidedBy
            && db.approvals[a].activatedAt.Some? && db.approvals[a].cancelledAt.None?
  {
    ChainsHold(past);
    hide Run;
  }

  // ----- outcomes

  /** Decision k is on an approval of t. */
  ghost predicate DecisionOn(db: Db, t: TxId, k: nat) {
    k < |db.decisions| && db.decisions[k].approval < |db.approvals| && db.approvals[db.decisions[k].approval].tx == t
  }

  /** A transaction is approved iff it has approvals and every one of them has an approving decision. */
  lemma {:induction false} ApprovedIff(past: seq<Op>, t: TxId)
    requires t in Run(EMPTY, past).txs
    ensures var db := Run(EMPTY, past);
            db.txs[t].status == Status.Approved
            <==> (exists i | 0 <= i < |db.approvals| :: db.approvals[i].tx == t)
                 && forall i: nat | i < |db.approvals| && db.approvals[i].tx == t ::
                     DecisionOf(db.decisions, i) == Some(Approve)
  {
    ChainsHold(past);
    var db := Run(EMPTY, past);
    hide Run, TablesOk;
    if db.txs[t].status == PendingApproval {
      var c :| AtStep(db.approvals, db.decisions, t, c);
    }
  }

  /** A transaction is rejected iff one of its decisions is a rejection; that decision is then the last one,
      every other one approves, and each approval is decided or cancelled, never both. */
  lemma {:induction false} RejectedIff(past: seq<Op>, t: TxId)
    requires t in Run(EMPTY, past).txs
    ensures var db := Run(EMPTY, past);
            && (db.txs[t].status == Status.Rejected <==> exists k: nat ::
                DecisionOn(db, t, k) && db.decisions[k].verdict == Reject)
            && (forall k: nat, l: nat | DecisionOn(db, t, k) && DecisionOn(db, t, l)
                && db.decisions[k].verdict == Reject ::
                  l <= k && (l != k ==> db.decisions[l].verdict == Approve))
            && (db.txs[t].status == Status.Rejected ==>
                  forall i: nat | i < |db.approvals| && db.approvals[i].tx == t ::
                    db.approvals[i].cancelledAt.Some? <==> DecisionOf(db.decisions, i).None?)
  {
    ChainsHold(past);
    var db := Run(EMPTY, past);
    hide Run, DecisionOf, ChainsOk;
    RejectionEnds(db, t);
    RejectionIsLast(db, t);
  }

  lemma RejectionIsLast(db: Db, t: TxId)
    requires ChainsOk(db.txs, db.approvals, db.decisions)
    ensures forall k: nat, l: nat | DecisionOn(db, t, k) && DecisionOn(db, t, l) && db.decisions[k].verdict == Reject ::
              l <= k && (l != k ==> db.decisions[l].verdict == Approve)
  {
    hide DecisionOf, ChainOk;
  }

  lemma RejectionEnds(db: Db, t: TxId)
    requires ChainsOk(db.txs, db.approvals, db.decisions) && t in db.txs
    ensures db.txs[t].status == Status.Rejected <==> exists k: nat ::
            DecisionOn(db, t, k) && db.decisions[k].verdict == Reject
    ensures db.txs[t].status == Status.Rejected ==> EndedInRejection(db.approvals, db.decisions, t)
  {
    assert ChainOk(db.txs[t].status, db.approvals, db.decisions, t);
    var ap, ds := db.approvals, db.decisions;
    forall k: nat | DecisionOn(db, t, k) && ds[k].verdict == Reject ensures db.txs[t].status == Status.Rejected {
      VerdictIsUnique(ap, ds, k);
      hide TablesOk, ChainsOk, DecisionOf;
      assert db.txs[t].status != PendingApproval;
    }
    if db.txs[t].status == Status.Rejected {
      hide TablesOk, ChainsOk;
      var i: nat :| i < |ap| && ap[i].tx == t && DecisionOf(ds, i) == Some(Reject);
      var k: nat :| k < |ds| && ds[k].approval == i && ds[k].verdict == Reject;
      assert DecisionOn(db, t, k);
    }
  }

  /** Decisions on one transaction come in step order. */
  lemma {:induction false} DecisionsInStepOrder(past: seq<Op>, t: TxId, k: nat, l: nat)
    requires DecisionOn(Run(EMPTY, past), t, k) && DecisionOn(Run(EMPTY, past), t, l) && k <= l
    ensures var db := Run(EMPTY, past);
            db.approvals[db.decisions[k].approval].step <= db.approvals[db.decisions[l].approval].step
  {
    ChainsHold(past);
    hide Run;
  }

  // ----- progress

  /** The approvals of t that are neither cancelled nor decided. */
  ghost function OpenIn(ap: seq<Approval>, ds: seq<Decision>, t: TxId): set<nat> {
    set i: nat | i < |ap| && ap[i].tx == t && ap[i].cancelledAt.None? && DecisionOf(ds, i).None?
  }

  ghost function Open(db: Db, t: TxId): set<nat> {
    OpenIn(db.approvals, db.decisions, t)
  }

  /** In every reachable state a pending transaction has an open approval that its approver, if an active member,
      can decide now. */
  lemma {:induction false} PendingCanProgress(past: seq<Op>, t: TxId, v: Verdict, now: Time) returns (i: nat)
    requires t in Run(EMPTY, past).txs && Run(EMPTY, past).txs[t].status == PendingApproval
    ensures var db := Run(EMPTY, past);
            && i in Open(db, t)
            && Decide(db, Actor(db.txs[t].org, db.approvals[i].approver), i, v, true, now).Commit?
  {
    hide Run, Inv, Decide, Open;
    ReachableInv(past);
    i := SomeoneCanDecide(Run(EMPTY, past), t, v, now);
  }

  lemma SomeoneCanDecide(db: Db, t: TxId, v: Verdict, now: Time) returns (i: nat)
    requires Inv(db) && t in db.txs && db.txs[t].status == PendingApproval
    ensures i in Open(db, t)
    ensures Decide(db, Actor(db.txs[t].org, db.approvals[i].approver), i, v, true, now).Commit?
  {
    hide LedgerOk, DocsOk, UploadsOk, AnnouncedOk, HomesOk, SubmittedOk, Rules.RulesOk, DecisionApplied, TablesOk;
    var c :| AtStep(db.approvals, db.decisions, t, c);
    i :| i < |db.approvals| && db.approvals[i].tx == t && db.approvals[i].step == c
        && DecisionOf(db.decisions, i).None?;
  }

  lemma SubsetCount(a: set<nat>, b: set<nat>, x: nat)
    requires a <= b && x in b && x !in a
    ensures |a| < |b|
  {
    assert a <= b - {x};
    SubsetAtMost(a, b - {x});
  }

  lemma DecidedShrinksOpen(ap: seq<Approval>, ds: seq<Decision>, t: TxId, i: nat, user: UserId, v: Verdict, now: Time)
    requires Decidable(ap, ds, i) && ap[i].tx == t
    ensures var b := Decided(ap, ds, t, i, user, v, now);
            |OpenIn(b.approvals, b.decisions, t)| < |OpenIn(ap, ds, t)|
  {
    var b := Decided(ap, ds, t, i, user, v, now);
    DecidedEvolves(ap, ds, t, i, user, v, now);
    DecidedTouchesOwn(ap, ds, t, i, user, v, now);
    DecisionOfExtended(ds, Decision(i, user, v));
    assert b.decisions == ds + [Decision(i, user, v)];
    hide Decided, DecisionOf;
    assert i in OpenIn(ap, ds, t) && i !in OpenIn(b.approvals, b.decisions, t);
    assert OpenIn(b.approvals, b.decisions, t) <= OpenIn(ap, ds, t);
    SubsetCount(OpenIn(b.approvals, b.decisions, t), OpenIn(ap, ds, t), i);
  }

  /** Each decision uses up an open approval. */
  lemma {:induction false} DecideShrinksOpen(db: Db, actor: Actor, i: nat, v: Verdict, active: bool, now: Time)
    requires Decide(db, actor, i, v, active, now).Commit?
    ensures var t := db.approvals[i].tx;
            |Open(Decide(db, actor, i, v, active, now).db, t)| < |Open(db, t)|
  {
    hide Decided, NextMove, DecisionOf, OpenIn;
    DecidedShrinksOpen(db.approvals, db.decisions, db.approvals[i].tx, i, actor.user, v, now);
  }

  lemma {:induction false} DecisionOfPrefix(ds: seq<Decision>, ds': seq<Decision>, i: nat)
    requires ds <= ds'
    ensures DecisionOf(ds, i).Some? ==> DecisionOf(ds', i).Some?
  {
    if DecisionOf(ds, i).Some? {
      var k :| 0 <= k < |ds| && ds[k].approval == i;
      assert ds'[k].approval == i;
    }
  }

  /** Approvals are added for the transaction being submitted only. */
  lemma {:induction false} OthersGainNoApproval(db: Db, op: Op, t: TxId)
    requires Inv(db) && t in db.txs && db.txs[t].status != Draft
    ensures forall i: nat | i < |Next(db, op).approvals| && Next(db, op).approvals[i].tx == t :: i < |db.approvals|
  {
    hide Inv;
    if op.OpSubmit? {
      hide Rules.Resolve, LiveDocs, NotifiedAtSubmit;
    } else if op.OpDecide? {
      if op.approval < |db.approvals| && db.approvals[op.approval].tx in db.txs {
        DecidedTouchesOwn(db.approvals, db.decisions, db.approvals[op.approval].tx, op.approval, op.actor.user,
                          op.verdict, op.now);
      }
      hide Decided, NextMove, DecisionOf;
    } else {
      OthersKeepApprovals(db, op);
      hide Next;
    }
  }

  lemma {:induction false} OthersKeepApprovals(db: Db, op: Op)
    requires !op.OpSubmit? && !op.OpDecide?
    ensures Next(db, op).approvals == db.approvals && Next(db, op).decisions == db.decisions
  {
    if UploadOp(op) {
      UploadKeepsApprovals(db, op);
    } else if OcrOp(op) {
      OcrKeepsApprovals(db, op);
    } else if TransactionOp(op) {
      EditKeepsApprovals(db, op);
    } else {
      hide Rules.Unique, Rules.Taken;
    }
  }

  lemma UploadKeepsApprovals(db: Db, op: Op)
    requires UploadOp(op)
    ensures Next(db, op).approvals == db.approvals && Next(db, op).decisions == db.decisions
  {
    hide CreateProject, ArchiveProject, UnarchiveProject, DeleteProject, AttachItem, CreateDraft, WithOcr, KeyOwner;
    hide CreateRule, UpdateRule, DeleteRule, InsertDefaultRule, ReassignRules;
    hide UpdateTransaction, SoftDeleteTransaction, Submit, Decide;
  }

  lemma OcrKeepsApprovals(db: Db, op: Op)
    requires OcrOp(op)
    ensures Next(db, op).approvals == db.approvals && Next(db, op).decisions == db.decisions
  {
    hide CreateProject, ArchiveProject, UnarchiveProject, DeleteProject, ReserveUpload, StoreObject, CompleteUpload;
    hide CreateRule, UpdateRule, DeleteRule, InsertDefaultRule, ReassignRules, DeleteDocument;
    hide UpdateTransaction, SoftDeleteTransaction, Submit, Decide, Ledger.Total, Ledger.ItemsOf;
  }

  lemma {:induction false} EditKeepsApprovals(db: Db, op: Op)
    requires TransactionOp(op) && !op.OpSubmit? && !op.OpDecide?
    ensures Next(db, op).approvals == db.approvals && Next(db, op).decisions == db.decisions
  {
    hide ItemsInserted, ItemsDeleted;
    if op.OpUpdateTransaction? && op.tx in db.txs && op.lines.Some? {
      var row := db.txs[op.tx].(header := op.header, version := db.txs[op.tx].version + 1);
      ReplacedTouches(db, op.tx, row, op.lines.value);
    }
  }

  /** Decide committed on an approval of t. */
  ghost predicate DecidedOn(db: Db, op: Op, t: TxId) {
    op.OpDecide? && Step(db, op).Commit? && op.approval < |db.approvals| && db.approvals[op.approval].tx == t
  }

  lemma {:induction false} OpenNeverGrows(db: Db, op: Op, t: TxId)
    requires Inv(db) && t in db.txs && db.txs[t].status != Draft
    ensures |Open(Next(db, op), t)| + (if DecidedOn(db, op, t) then 1 else 0) <= |Open(db, t)|
  {
    if DecidedOn(db, op, t) {
      hide Inv;
      DecideShrinksOpen(db, op.actor, op.approval, op.verdict, op.active, op.now);
    } else {
      hide Inv, Next, DecidedOn, Open;
      OthersReopenNothing(db, op, t);
      SubsetAtMost(Open(Next(db, op), t), Open(db, t));
    }
  }

  lemma {:induction false} OthersReopenNothing(db: Db, op: Op, t: TxId)
    requires Inv(db) && t in db.txs && db.txs[t].status != Draft && !DecidedOn(db, op, t)
    ensures Open(Next(db, op), t) <= Open(db, t)
  {
    hide Inv, Next, DecidedOn, TxsEvolve, DocsEvolve, CallsEvolve, DecisionOf;
    StepEvolves(db, op);
    OthersGainNoApproval(db, op, t);
    forall i | i in Open(Next(db, op), t) ensures i in Open(db, t) {
      DecisionOfPrefix(db.decisions, Next(db, op).decisions, i);
    }
  }

  /** How many decisions a run commits on t. */
  ghost function DecisionsMade(db: Db, ops: seq<Op>, t: TxId): nat {
    if ops == [] then 0
    else
      DecisionsMade(db, ops[..|ops| - 1], t)
      + if DecidedOn(Run(db, ops[..|ops| - 1]), ops[|ops| - 1], t) then 1 else 0
  }

  /** A submitted transaction with n open approvals takes at most n more decisions, and after n it is final. */
  lemma {:induction false} DecisionsAreBounded(past: seq<Op>, future: seq<Op>, t: TxId)
    requires t in Run(EMPTY, past).txs && Run(EMPTY, past).txs[t].status != Draft
    ensures var a, b := Run(EMPTY, past), Run(Run(EMPTY, past), future);
            var made := DecisionsMade(a, future, t);
            && made + |Open(b, t)| <= |Open(a, t)|
            && (made == |Open(a, t)| ==> t in b.txs && Rank(b.txs[t].status) == 2)
  {
    hide Run, Inv, DecisionsMade, Open;
    ReachableInv(past);
    BoundedFrom(Run(EMPTY, past), future, t);
  }

  lemma {:induction false} BoundedFrom(db: Db, ops: seq<Op>, t: TxId)
    requires Inv(db) && t in db.txs && db.txs[t].status != Draft
    ensures DecisionsMade(db, ops, t) + |Open(Run(db, ops), t)| <= |Open(db, t)|
    ensures DecisionsMade(db, ops, t) == |Open(db, t)| ==>
              t in Run(db, ops).txs && Rank(Run(db, ops).txs[t].status) == 2
  {
    hide Inv, Next, DecidedOn, Open;
    if ops != [] {
      var front := ops[..|ops| - 1];
      BoundedFrom(db, front, t);
      RunKeepsInv(db, front);
      RunEvolves(db, front);
      StillSubmitted(db, Run(db, front), t);
      OpenNeverGrows(Run(db, front), ops[|ops| - 1], t);
    }
    RunKeepsInv(db, ops);
    RunEvolves(db, ops);
    var after := Run(db, ops);
    StillSubmitted(db, after, t);
    if after.txs[t].status == PendingApproval {
      var i := SomeoneCanDecide(after, t, Approve, 0);
      assert Open(after, t) != {};
    }
  }

  lemma StillSubmitted(a: Db, b: Db, t: TxId)
    requires Evolves(a, b) && t in a.txs && a.txs[t].status != Draft
    ensures t in b.txs && b.txs[t].status != Draft
  {
    hide ChainsEvolve, DocsEvolve, CallsEvolve, LiveDocs, Ledger.ItemsOf;
  }

  // ----- a decision on a row that was read before the lock

  /** The read-lock gap of Decide. The row was read in some earlier state of the run; since activation and
      cancellation happen once and cancellation ends the pending state, the outcome differs from an atomic
      Decide only where the row was read before its step opened, and then nothing is written. */
  lemma {:induction false} StaleDecideIsSound(past: seq<Op>, gap: seq<Op>, actor: Actor, i: nat, v: Verdict,
                                              active: bool, now: Time)
    requires i < |Run(EMPTY, past).approvals|
    ensures var seen, db := Run(EMPTY, past).approvals[i], Run(Run(EMPTY, past), gap);
            var stale, atomic := DecideSeen(db, actor, i, v, active, now, seen), Decide(db, actor, i, v, active, now);
            && (stale.Commit? ==> stale == atomic)
            && i < |db.approvals| && db.approvals[i].tx in db.txs
            && (stale == atomic
                <==> !(seen.activatedAt.None? && db.approvals[i].activatedAt.Some?
                       && db.txs[db.approvals[i].tx].org == actor.org
                       && db.txs[db.approvals[i].tx].status == PendingApproval))
            && (stale != atomic ==> stale == Abort(NotYourTurn))
  {
    var a := Run(EMPTY, past);
    var db := Run(a, gap);
    ReachableInv(past);
    RunKeepsInv(a, gap);
    RunEvolves(a, gap);
    StaleRow(a, db, i);
    StaleGuards(db, actor, i, v, active, now, a.approvals[i]);
    hide Run, Inv, Evolves, Decide, DecideSeen;
  }

  lemma StaleGuards(db: Db, actor: Actor, i: nat, v: Verdict, active: bool, now: Time, seen: Approval)
    requires i < |db.approvals| && db.approvals[i].tx in db.txs && seen.approver == db.approvals[i].approver
    requires seen.activatedAt.Some? ==> db.approvals[i].activatedAt == seen.activatedAt
    requires seen.cancelledAt.Some? ==> db.approvals[i].cancelledAt == seen.cancelledAt
    requires db.txs[db.approvals[i].tx].status == PendingApproval ==> db.approvals[i].cancelledAt.None?
    ensures var stale, atomic := DecideSeen(db, actor, i, v, active, now, seen), Decide(db, actor, i, v, active, now);
            && (stale.Commit? ==> stale == atomic)
            && (stale == atomic
                <==> !(seen.activatedAt.None? && db.approvals[i].activatedAt.Some?
                       && db.txs[db.approvals[i].tx].org == actor.org
                       && db.txs[db.approvals[i].tx].status == PendingApproval))
            && (stale != atomic ==> stale == Abort(NotYourTurn))
  {
    hide DecisionApplied, DecisionOf;
  }

  lemma StaleRow(a: Db, b: Db, i: nat)
    requires Inv(b) && Evolves(a, b) && i < |a.approvals|
    ensures i < |b.approvals| && b.approvals[i].tx in b.txs && b.approvals[i].approver == a.approvals[i].approver
    ensures a.approvals[i].activatedAt.Some? ==> b.approvals[i].activatedAt == a.approvals[i].activatedAt
    ensures a.approvals[i].cancelledAt.Some? ==> b.approvals[i].cancelledAt == a.approvals[i].cancelledAt
    ensures b.txs[b.approvals[i].tx].status == PendingApproval ==> b.approvals[i].cancelledAt.None?
  {
    hide LedgerOk, DocsOk, UploadsOk, AnnouncedOk, HomesOk, SubmittedOk, Rules.RulesOk;
    hide TxsEvolve, DocsEvolve, CallsEvolve, TablesOk;
    var t := b.approvals[i].tx;
    if b.txs[t].status == PendingApproval {
      var c :| AtStep(b.approvals, b.decisions, t, c);
    }
  }
}
