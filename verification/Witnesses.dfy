// One concrete run and its continuations, and the promises of the services they break.

module Witnesses {
  import opened Tables
  import opened Ledger
  import opened Rules
  import opened Steps
  import opened Chain
  import opened UploadGuarantees
  import opened ApprovalService
  import opened Extraction
  import OcrConsumer
  import Deliveries
  import opened ProjectService

  const CLIENT := Actor(0, 0)
  const RECEIPT := Upload(0, None, 1, "receipt.jpg", "image/jpeg", Content("digest", 12))
  const RECEIPT_DOC := NewDoc(CLIENT, RECEIPT, 0)
  const RECEIPT_TOTAL := Line("receipt.jpg", 1, 7500)
  const RULE_0 := Rule(0, None, 0, 1, false)
  const RULE_1 := Rule(0, None, 1, 1, false)

  // ----- an upload to the project becomes a draft

  /** One project with two approvers at step one, no transactions, and these documents and calls. */
  ghost predicate Stage(db: Db, docs: map<DocId, Doc>, phase: Option<Phase>) {
    && db.projects == map[0 := Project(0, false, false)] && db.rules == [RULE_0, RULE_1]
    && db.txs == map[] && db.items == [] && db.approvals == [] && db.decisions == [] && db.docs == docs
    && db.calls == (if phase.None? then map[] else map[0 := Call(CLIENT, RECEIPT, 0, phase.value)])
  }

  lemma Begins()
    ensures Stage(Next(Next(EMPTY, OpCreateProject(CLIENT, 0)), OpCreateRule(CLIENT, None, 1, 1)), map[], None)
  {
    assert Next(EMPTY, OpCreateProject(CLIENT, 0)).rules == [RULE_0];
    assert !Taken([RULE_0], RULE_1);
  }

  lemma Reserves(db: Db)
    requires Stage(db, map[], None)
    ensures Stage(Next(db, OpReserveUpload(0, CLIENT, RECEIPT, 0)), map[0 := RECEIPT_DOC], Some(Reserved))
  {
  }

  lemma Stores(db: Db)
    requires Stage(db, map[0 := RECEIPT_DOC], Some(Reserved))
    ensures Stage(Next(db, OpStoreObject(0)), map[0 := RECEIPT_DOC], Some(Stored))
  {
  }

  lemma Completes(db: Db)
    requires Stage(db, map[0 := RECEIPT_DOC], Some(Stored))
    ensures Stage(Next(db, OpCompleteUpload(0)), map[0 := RECEIPT_DOC.(uploadComplete := true)], Some(Returned))
  {
  }

  lemma Claims(db: Db)
    requires Stage(db, map[0 := RECEIPT_DOC.(uploadComplete := true)], Some(Returned))
    ensures Stage(Next(db, OpClaimDocument(0)),
                  map[0 := RECEIPT_DOC.(uploadComplete := true, ocr := OcrProcessing)], Some(Returned))
  {
  }

  /** The receipt's draft, and nothing else but its document and its upload call. */
  ghost predicate Drafted(db: Db) {
    && db.projects == map[0 := Project(0, false, false)] && db.rules == [RULE_0, RULE_1]
    && db.approvals == [] && db.decisions == []
    && db.txs == map[0 := Tx(0, 0, Draft, Header(None, CURRENCY_IDR, None), 7500, 2, 0, false)]
    && db.docs == map[0 := RECEIPT_DOC.(uploadComplete := true, ocr := OcrCompleted, tx := Some(0))]
    && db.calls == map[0 := Call(CLIENT, RECEIPT, 0, Returned)]
  }

  lemma OpensDraft(db: Db)
    requires Stage(db, map[0 := RECEIPT_DOC.(uploadComplete := true, ocr := OcrProcessing)], Some(Returned))
    ensures Drafted(Next(db, OpCreateDraft(0, 0, RECEIPT_TOTAL)))
  {
    assert Total([RECEIPT_TOTAL]) == 7500 by { assert [RECEIPT_TOTAL][..0] == [] && Total([]) == 0; }
    assert ItemsOf([], 0) == [];
  }

  lemma RunThen(ops: seq<Op>, op: Op)
    ensures Run(EMPTY, ops + [op]) == Next(Run(EMPTY, ops), op)
  {
    assert (ops + [op])[..|ops|] == ops;
  }

  /** Create a project and a second default rule, upload a receipt to the project, and let OCR draft it. */
  lemma {:induction false} Drafting() returns (past: seq<Op>)
    ensures Drafted(Run(EMPTY, past))
  {
    assert Run(EMPTY, []) == EMPTY;
    hide Run, Next, Stage, Drafted;
    var s0: seq<Op> := [] + [OpCreateProject(CLIENT, 0)];
    var s1 := s0 + [OpCreateRule(CLIENT, None, 1, 1)];
    var s2 := s1 + [OpReserveUpload(0, CLIENT, RECEIPT, 0)];
    var s3 := s2 + [OpStoreObject(0)];
    var s4 := s3 + [OpCompleteUpload(0)];
    var s5 := s4 + [OpClaimDocument(0)];
    past := s5 + [OpCreateDraft(0, 0, RECEIPT_TOTAL)];
    RunThen([], OpCreateProject(CLIENT, 0));
    RunThen(s0, OpCreateRule(CLIENT, None, 1, 1));
    RunThen(s1, OpReserveUpload(0, CLIENT, RECEIPT, 0));
    RunThen(s2, OpStoreObject(0));
    RunThen(s3, OpCompleteUpload(0));
    RunThen(s4, OpClaimDocument(0));
    RunThen(s5, OpCreateDraft(0, 0, RECEIPT_TOTAL));
    Begins();
    Reserves(Run(EMPTY, s1));
    Stores(Run(EMPTY, s2));
    Completes(Run(EMPTY, s3));
    Claims(Run(EMPTY, s4));
    OpensDraft(Run(EMPTY, s5));
  }

  /** Upload to a project, claim, draft: the same upload again is refused, although the first one returned. */
  lemma {:induction false} RetryRefusedWitness()
    ensures exists past, c ::
      && c in Run(EMPTY, past).calls && Run(EMPTY, past).calls[c].phase == Returned
      && LookUp(Run(EMPTY, past), Run(EMPTY, past).calls[c].actor, Run(EMPTY, past).calls[c].upload) == Refused
  {
    var past := Drafting();
    hide Run, LookUp;
    assert Run(EMPTY, past).calls[0].doc == 0;
    RetryRefusedAfterDraft(past, 0);
  }

  /** Two deletes that both counted two default rules: together they leave none. */
  lemma {:induction false} NoDefaultWitness()
    ensures exists past, org, i: nat, j: nat ::
      var db := Run(EMPTY, past);
      && !OnlyDefault(db.rules, org, i) && !OnlyDefault(db.rules, org, j) && HasDefault(db.rules, org)
      && !HasDefault(Next(Next(db, OpDeleteRule(Actor(org, 0), i)), OpDeleteRule(Actor(org, 0), j)).rules, org)
  {
    var past := Drafting();
    hide Run;
    BothDeleted(Run(EMPTY, past));
  }

  lemma BothDeleted(db: Db)
    requires db.rules == [RULE_0, RULE_1]
    ensures !OnlyDefault(db.rules, 0, 0) && !OnlyDefault(db.rules, 0, 1) && HasDefault(db.rules, 0)
    ensures !HasDefault(Next(Next(db, OpDeleteRule(Actor(0, 0), 0)), OpDeleteRule(Actor(0, 0), 1)).rules, 0)
  {
    assert DefaultRule(db.rules[0], 0) && DefaultRule(db.rules[1], 0);
    assert Next(db, OpDeleteRule(CLIENT, 0)).rules == [RULE_0.(deleted := true), RULE_1];
  }

  // ----- a receipt for the draft, which is then deleted

  const SECOND := Upload(0, Some(0), 2, "second.jpg", "image/jpeg", Content("digest2", 34))
  const SECOND_DOC := NewDoc(CLIENT, SECOND, 1)

  /** The draft, its first document, and the second upload so far. */
  ghost predicate Attached(db: Db, second: Doc, phase: Phase) {
    && db.projects == map[0 := Project(0, false, false)]
    && db.txs == map[0 := Tx(0, 0, Draft, Header(None, CURRENCY_IDR, None), 7500, 2, 0, false)]
    && db.docs == map[0 := RECEIPT_DOC.(uploadComplete := true, ocr := OcrCompleted, tx := Some(0)), 1 := second]
    && 1 in db.calls && db.calls[1] == Call(CLIENT, SECOND, 1, phase)
  }

  lemma AttachReserves(db: Db)
    requires Drafted(db)
    ensures Attached(Next(db, OpReserveUpload(1, CLIENT, SECOND, 1)), SECOND_DOC, Reserved)
  {
    assert KeyOwner(db.docs, 0, 0, 2).None?;
  }

  lemma AttachStores(db: Db)
    requires Attached(db, SECOND_DOC, Reserved)
    ensures Attached(Next(db, OpStoreObject(1)), SECOND_DOC, Stored)
  {
  }

  lemma AttachCompletes(db: Db)
    requires Attached(db, SECOND_DOC, Stored)
    ensures Attached(Next(db, OpCompleteUpload(1)), SECOND_DOC.(uploadComplete := true), Returned)
  {
  }

  /** The second upload returned, its document waits for OCR, and its draft is gone. */
  ghost predicate Orphaned(db: Db) {
    && db.txs.Keys == {0} && db.txs[0].deleted && 1 in db.docs && db.docs[1] == SECOND_DOC.(uploadComplete := true)
    && 1 in db.calls && db.calls[1] == Call(CLIENT, SECOND, 1, Returned)
  }

  lemma DeletesDraft(db: Db)
    requires Attached(db, SECOND_DOC.(uploadComplete := true), Returned)
    ensures Orphaned(Next(db, OpSoftDeleteTransaction(CLIENT, 0)))
  {
  }

  lemma Orphaning() returns (past: seq<Op>)
    ensures Orphaned(Run(EMPTY, past))
  {
    hide Run, Next, Attached, Drafted, Orphaned;
    var s0 := Drafting();
    var s1 := s0 + [OpReserveUpload(1, CLIENT, SECOND, 1)];
    var s2 := s1 + [OpStoreObject(1)];
    var s3 := s2 + [OpCompleteUpload(1)];
    past := s3 + [OpSoftDeleteTransaction(CLIENT, 0)];
    RunThen(s0, OpReserveUpload(1, CLIENT, SECOND, 1));
    RunThen(s1, OpStoreObject(1));
    RunThen(s2, OpCompleteUpload(1));
    RunThen(s3, OpSoftDeleteTransaction(CLIENT, 0));
    AttachReserves(Run(EMPTY, s0));
    AttachStores(Run(EMPTY, s1));
    AttachCompletes(Run(EMPTY, s2));
    DeletesDraft(Run(EMPTY, s3));
  }

  /** Attach a receipt to a draft, delete the draft: the same upload again is not found, although it returned and
      its document is still there. */
  lemma {:induction false} RetryGoneWitness()
    ensures exists past, c ::
      && c in Run(EMPTY, past).calls && Run(EMPTY, past).calls[c].phase == Returned
      && Run(EMPTY, past).calls[c].doc in Run(EMPTY, past).docs
      && !Run(EMPTY, past).docs[Run(EMPTY, past).calls[c].doc].deleted
      && LookUp(Run(EMPTY, past), Run(EMPTY, past).calls[c].actor, Run(EMPTY, past).calls[c].upload) == Gone
  {
    var past := Orphaning();
    hide Run;
    assert Run(EMPTY, past).calls[1].doc == 1;
    assert !TargetFound(Run(EMPTY, past), CLIENT, SECOND);
  }

  const PROCESSED := Envelope("event", "job", Some(1), "document.routed",
                              Some(Extracted(0.9, [Field("total", "7500", 7500, "IDR", "extracted")])), false)

  /** The routed event for such a receipt, in one uninterrupted delivery, leaves its document in processing. */
  lemma {:induction false} StuckWitness()
    ensures exists past, env: Envelope, t ::
      && ParseProcessed(env).Some?
      && var msg := ParseProcessed(env).value;
         && LiveDoc(Run(EMPTY, past), msg.doc) && Run(EMPTY, past).docs[msg.doc].ocr == OcrPending
         && t !in Run(EMPTY, past).txs
         && var after := Run(Run(EMPTY, past), OcrConsumer.HandleSteps(Run(EMPTY, past), msg, OcrConsumer.Granted, t));
            msg.doc in after.docs && after.docs[msg.doc].ocr == OcrProcessing
  {
    var past := Orphaning();
    hide Run, OcrConsumer.HandleSteps;
    var db := Run(EMPTY, past);
    var t: TxId := 1;
    assert ParseProcessed(PROCESSED).Some?;
    var msg := ParseProcessed(PROCESSED).value;
    assert msg.doc == 1 && msg.status != Failed;
    assert OcrConsumer.DraftDeleted(db, 1);
    Deliveries.HandledOutcome(past, msg, t);
    var after := Run(db, OcrConsumer.HandleSteps(db, msg, OcrConsumer.Granted, t));
    assert msg.doc in after.docs && after.docs[msg.doc].ocr == OcrProcessing;
  }

  // ----- two approvers, at one step or at two

  /** The second rule at a step of one's choice. */
  function SecondRule(step: int): Rule {
    RULE_1.(step := step)
  }

  lemma OneMoreRule(rules: seq<Rule>, r: Rule, org: OrgId, project: Option<ProjectId>)
    ensures InScope(rules + [r], org, project)
            == InScope(rules, org, project) + if LiveIn(r, org, project) then [r] else []
    ensures ByStep(rules + [r]) == InsertByStep(ByStep(rules), r)
  {
    assert (rules + [r])[..|rules|] == rules;
  }

  lemma BothInScope(step: int, project: Option<ProjectId>)
    ensures InScope([RULE_0, SecondRule(step)], 0, project) == if project.None? then [RULE_0, SecondRule(step)] else []
  {
    hide ByStep, InsertByStep;
    OneMoreRule([], RULE_0, 0, project);
    assert [] + [RULE_0] == [RULE_0];
    OneMoreRule([RULE_0], SecondRule(step), 0, project);
    assert [RULE_0] + [SecondRule(step)] == [RULE_0, SecondRule(step)];
  }

  lemma BothByStep(step: int)
    requires step >= 1
    ensures ByStep([RULE_0, SecondRule(step)]) == [RULE_0, SecondRule(step)]
  {
    hide InScope;
    OneMoreRule([], RULE_0, 0, None);
    assert [] + [RULE_0] == [RULE_0];
    OneMoreRule([RULE_0], SecondRule(step), 0, None);
    assert [RULE_0] + [SecondRule(step)] == [RULE_0, SecondRule(step)];
  }

  lemma BothRulesApply(step: int)
    requires step >= 1
    ensures Resolve([RULE_0, SecondRule(step)], 0, 0) == [RULE_0, SecondRule(step)]
  {
    assert ByStep([]) == [];
    hide InScope, ByStep;
    BothInScope(step, Some(0));
    BothInScope(step, None);
    BothByStep(step);
  }

  /** The draft, ready to be submitted to both approvers. */
  ghost predicate Ready(db: Db, step: int) {
    && db.rules == [RULE_0, SecondRule(step)] && db.approvals == [] && db.decisions == []
    && db.txs == map[0 := Tx(0, 0, Draft, Header(None, CURRENCY_IDR, None), 7500, 2, 0, false)]
    && db.docs == map[0 := RECEIPT_DOC.(uploadComplete := true, ocr := OcrCompleted, tx := Some(0))]
  }

  function Approvals(step: int, second: Option<Time>): seq<Approval> {
    [Approval(0, 0, 1, Some(5), None), Approval(0, 1, step, second, None)]
  }

  /** The draft is submitted; the second approval is active if it shares the first one's step. */
  ghost predicate Submitted(db: Db, step: int) {
    && db.txs.Keys == {0} && db.txs[0].status == PendingApproval && db.txs[0].org == 0
    && db.approvals == Approvals(step, if step == 1 then Some(5) else None) && db.decisions == []
  }

  lemma SubmitCommits(db: Db, step: int)
    requires Ready(db, step) && step >= 1
    ensures Submitted(After(db, Submit(db, CLIENT, 0, {0, 1}, 5)), step)
  {
    BothRulesApply(step);
    assert 0 in LiveDocs(db.docs, 0);
    hide Resolve, LiveDocs, NotifiedAtSubmit;
    assert Snapshot(0, [RULE_0, SecondRule(step)], 5) == Approvals(step, if step == 1 then Some(5) else None);
  }

  lemma Submits(db: Db, step: int)
    requires Ready(db, step) && step >= 1
    ensures Submitted(Next(db, OpSubmit(CLIENT, 0, {0, 1}, 5)), step)
  {
    hide Submit, Submitted, Ready;
    SubmitCommits(db, step);
  }

  /** Two approvers share a step and one approves: Decide reports the transaction approved while it stays pending. */
  lemma {:induction false} ReportedApprovedWitness()
    ensures exists past, i: nat, actor, now ::
      && i < |Run(EMPTY, past).approvals|
      && Decide(Run(EMPTY, past), actor, i, Approve, true, now).Commit?
      && Reported(Run(EMPTY, past), i, actor.user, Approve).status == Status.Approved
      && var t := Run(EMPTY, past).approvals[i].tx;
         var after := Decide(Run(EMPTY, past), actor, i, Approve, true, now).db;
         t in after.txs && after.txs[t].status == PendingApproval
  {
    var past := Drafting();
    RunThen(past, OpSubmit(CLIENT, 0, {0, 1}, 5));
    assert Ready(Run(EMPTY, past), 1);
    Submits(Run(EMPTY, past), 1);
    hide Run;
    FirstOfTwo(Run(EMPTY, past + [OpSubmit(CLIENT, 0, {0, 1}, 5)]));
  }

  lemma FirstOfTwo(db: Db)
    requires Submitted(db, 1)
    ensures var o := Decide(db, CLIENT, 0, Approve, true, 6);
            o.Commit? && 0 in o.db.txs && o.db.txs[0].status == PendingApproval
    ensures Reported(db, 0, 0, Approve).status == Status.Approved
  {
    DecisionOfExtended(db.decisions, Decision(0, 0, Approve));
    assert Owed(db.approvals, db.decisions + [Decision(0, 0, Approve)], 0, 1);
  }

  // ----- a decision read too early

  const SECOND_APPROVER := Actor(0, 1)

  lemma MovesRule(db: Db)
    requires Drafted(db)
    ensures Ready(Next(db, OpUpdateRule(CLIENT, 1, 2)), 2)
  {
    hide ArchiveProject, UnarchiveProject, DeleteProject, ReserveUpload, StoreObject, CompleteUpload, CreateProject;
    hide CreateRule, DeleteRule, InsertDefaultRule, ReassignRules, DeleteDocument;
    hide UpdateTransaction, SoftDeleteTransaction, Submit, Decide, AttachItem, CreateDraft;
  }

  /** The first approver's decision opens the second step. */
  lemma OpensSecond(db: Db)
    requires Submitted(db, 2)
    ensures var o := Decide(db, CLIENT, 0, Approve, true, 6);
            && o.Commit? && o.db.txs.Keys == {0} && o.db.txs[0].status == PendingApproval && o.db.txs[0].org == 0
            && o.db.approvals == Approvals(2, Some(6)) && DecisionOf(o.db.decisions, 1).None?
  {
    DecisionOfExtended(db.decisions, Decision(0, 0, Approve));
    hide DecisionOf, FirstOfStep;
    var ds := db.decisions + [Decision(0, 0, Approve)];
    assert !Owed(db.approvals, ds, 0, 0) && !Owed(db.approvals, ds, 0, 1);
    assert !Waiting(db.approvals[0], 0) && Waiting(db.approvals[1], 0);
    assert LowestWaiting(db.approvals, 0) == Some(2);
    assert NextMove(db.approvals, ds, 0) == Activate(2);
    hide NextMove, LowestWaiting;
    assert ActivateStep(db.approvals, 0, 2, 6) == Approvals(2, Some(6));
  }

  lemma ReadTooEarly(a: Db, b: Db)
    requires Submitted(a, 2) && b == After(a, Decide(a, CLIENT, 0, Approve, true, 6))
    ensures DecideSeen(b, SECOND_APPROVER, 1, Approve, true, 7, a.approvals[1]) == Abort(NotYourTurn)
    ensures Decide(b, SECOND_APPROVER, 1, Approve, true, 7).Commit?
  {
    OpensSecond(a);
    hide Decided, NextMove, DecisionOf, DecisionApplied;
  }

  /** Two steps; the second approver's Decide reads its row, the first approver decides, and the second Decide gets
      the lock: it is refused, although the same Decide at once would commit. */
  lemma {:induction false} StaleRefusedWitness()
    ensures exists past, gap, i: nat, actor, now ::
      && i < |Run(EMPTY, past).approvals|
      && var seen, db := Run(EMPTY, past).approvals[i], Run(Run(EMPTY, past), gap);
         && DecideSeen(db, actor, i, Approve, true, now, seen) == Abort(NotYourTurn)
         && Decide(db, actor, i, Approve, true, now).Commit?
  {
    var drafted := Drafting();
    hide Run, Next, Drafted, Ready, Submitted, Decide, DecideSeen;
    var moved := drafted + [OpUpdateRule(CLIENT, 1, 2)];
    var past := moved + [OpSubmit(CLIENT, 0, {0, 1}, 5)];
    RunThen(drafted, OpUpdateRule(CLIENT, 1, 2));
    RunThen(moved, OpSubmit(CLIENT, 0, {0, 1}, 5));
    MovesRule(Run(EMPTY, drafted));
    Submits(Run(EMPTY, moved), 2);
    var a := Run(EMPTY, past);
    var gap := [OpDecide(CLIENT, 0, Approve, true, 6)];
    FirstDecision(a);
    TwoApprovals(a);
    ReadTooEarly(a, Run(a, gap));
    assert DecideSeen(Run(a, gap), SECOND_APPROVER, 1, Approve, true, 7, a.approvals[1]) == Abort(NotYourTurn);
  }

  lemma TwoApprovals(db: Db)
    requires Submitted(db, 2)
    ensures |db.approvals| == 2
  {
  }

  lemma FirstDecision(db: Db)
    ensures Run(db, [OpDecide(CLIENT, 0, Approve, true, 6)]) == After(db, Decide(db, CLIENT, 0, Approve, true, 6))
  {
    hide Decide;
    var gap := [OpDecide(CLIENT, 0, Approve, true, 6)];
    assert gap[..0] == [] && Run(db, []) == db;
  }
}
