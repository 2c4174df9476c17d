// Uploads are idempotent per key, and what a retry sees.

module UploadGuarantees {
  import opened Tables
  import opened Steps
  import opened Invariants
  import opened Evolution
  import Rules

  // ----- the lookups every upload starts with

  /** Gone: the target was not found; Refused: the key is taken by another request or a deleted document;
      Found: the request was answered before; Miss: there is something to upload. */
  datatype Lookup = Gone | Refused | Found(doc: DocId) | Miss

  /** GetTransaction of AttachToTransaction, which also yields the project; GetProject of UploadToProject. */
  ghost predicate TargetFound(db: Db, actor: Actor, u: Upload) {
    match u.tx
    case Some(t) => t in db.txs && db.txs[t].org == actor.org && !db.txs[t].deleted && db.txs[t].project == u.project
    case None => LiveProject(db, u.project, actor.org)
  }

  /** What an upload reads before it locks or writes anything: the target, then GetDocumentUploadByKey. */
  ghost function LookUp(db: Db, actor: Actor, u: Upload): Lookup {
    if !TargetFound(db, actor, u) then Gone
    else
      var owner := KeyOwner(db.docs, u.project, actor.user, u.key);
      if owner.None? then Miss
      else
        var row := db.docs[owner.value];
        if !SameRequest(row, u) || row.deleted then Refused
        else if row.uploadComplete then Found(owner.value)
        else Miss
  }

  // ----- one row per key

  /** Two documents of one project, uploader and key are one document. */
  lemma {:induction false} OneRowPerKey(past: seq<Op>, d: DocId, e: DocId)
    requires var db := Run(EMPTY, past);
             && d in db.docs && e in db.docs
             && HasKey(db.docs[d], db.docs[e].project, db.docs[e].uploadedBy, db.docs[e].key)
    ensures d == e
  {
    hide Run;
    ReachableInv(past);
    hide LedgerOk, ChainsOk, UploadsOk, AnnouncedOk, HomesOk, SubmittedOk, Rules.RulesOk;
  }

  /** All calls with one project, uploader and key work on one row, however they race. */
  lemma {:induction false} CallsAgree(past: seq<Op>, c: CallId, c': CallId)
    requires var calls := Run(EMPTY, past).calls;
             && c in calls && c' in calls
             && calls[c].upload.project == calls[c'].upload.project
             && calls[c].actor.user == calls[c'].actor.user && calls[c].upload.key == calls[c'].upload.key
    ensures Run(EMPTY, past).calls[c].doc == Run(EMPTY, past).calls[c'].doc
  {
    var db := Run(EMPTY, past);
    ReachableInv(past);
    hide Run, LedgerOk, ChainsOk, DocsOk, UploadsOk, AnnouncedOk, HomesOk, SubmittedOk, Rules.RulesOk;
    CallFacts(db, c);
    CallFacts(db, c');
    OneRowPerKey(past, db.calls[c].doc, db.calls[c'].doc);
  }

  /** A call that returned has a completed row holding what it sent: the object is at the row's path with
      the digest and size of the call's bytes, and the row was announced exactly once. */
  lemma {:induction false} ReturnedMeansStored(past: seq<Op>, future: seq<Op>, c: CallId)
    requires c in Run(EMPTY, past).calls && Run(EMPTY, past).calls[c].phase == Returned
    ensures var sent, db := Run(EMPTY, past).calls[c], Run(Run(EMPTY, past), future);
            && sent.doc in db.docs && db.docs[sent.doc].uploadComplete
            && db.docs[sent.doc].content == sent.upload.content
            && db.docs[sent.doc].path in db.objects && db.objects[db.docs[sent.doc].path] == sent.upload.content
            && multiset(db.events)[DocumentCreated(sent.doc)] == 1
  {
    var a := Run(EMPTY, past);
    var b := Run(a, future);
    ReachableInv(past);
    RunEvolves(a, future);
    RunKeepsInv(a, future);
    hide Run, LedgerOk, ChainsOk, DocsOk, HomesOk, SubmittedOk, Rules.RulesOk, TxsEvolve, ChainsEvolve, DocsEvolve;
    CallFacts(b, c);
  }

  /** In every reachable state the object of every complete document is at its path, with the digest and size the
      row records. */
  lemma {:induction false} CompleteMeansStored(past: seq<Op>, d: DocId)
    requires d in Run(EMPTY, past).docs && Run(EMPTY, past).docs[d].uploadComplete
    ensures var db := Run(EMPTY, past);
            db.docs[d].path in db.objects && db.objects[db.docs[d].path] == db.docs[d].content
  {
    hide Run;
    ReachableInv(past);
    hide LedgerOk, ChainsOk, DocsOk, AnnouncedOk, HomesOk, SubmittedOk, Rules.RulesOk;
  }

  /** A document is announced once it is complete, once, and not before. */
  lemma {:induction false} AnnouncedOnce(past: seq<Op>, d: DocId)
    ensures var db := Run(EMPTY, past);
            multiset(db.events)[DocumentCreated(d)] == if d in db.docs && db.docs[d].uploadComplete then 1 else 0
  {
    hide Run;
    ReachableInv(past);
    hide LedgerOk, ChainsOk, DocsOk, UploadsOk, HomesOk, SubmittedOk, Rules.RulesOk;
  }

  // ----- retries

  /** The target of a call stays where its reservation found it, whatever becomes of it. */
  ghost predicate TargetKnown(db: Db, s: Call) {
    && s.upload.project in db.projects && db.projects[s.upload.project].org == s.actor.org
    && (s.upload.tx.Some? ==>
          && s.upload.tx.value in db.txs && db.txs[s.upload.tx.value].org == s.actor.org
          && db.txs[s.upload.tx.value].project == s.upload.project)
  }

  ghost predicate TargetsKnown(db: Db) {
    forall c | c in db.calls :: TargetKnown(db, db.calls[c])
  }

  /** Projects are never removed and never change their organization. */
  ghost predicate ProjectsStay(a: map<ProjectId, Project>, b: map<ProjectId, Project>) {
    forall p | p in a :: p in b && b[p].org == a[p].org
  }

  /** Projects change in project steps and calls in upload steps only. */
  lemma StepKeepsProjects(db: Db, op: Op)
    ensures ProjectsStay(db.projects, Next(db, op).projects)
    ensures !UploadOp(op) ==> Next(db, op).calls == db.calls
  {
    hide ProjectsStay;
    ProjectsUnchanged(db.projects);
    if UploadOp(op) {
      UploadKeepsProjects(db, op);
    } else if OcrOp(op) {
      OcrKeepsCalls(db, op);
    } else if TransactionOp(op) {
      TransactionKeepsCalls(db, op);
    } else {
      AdminKeepsCalls(db, op);
    }
    hide Next;
  }

  lemma ProjectsUnchanged(projects: map<ProjectId, Project>)
    ensures ProjectsStay(projects, projects)
  {
  }

  lemma UploadKeepsProjects(db: Db, op: Op)
    requires UploadOp(op)
    ensures Next(db, op).projects == db.projects
  {
    hide CreateProject, ArchiveProject, UnarchiveProject, DeleteProject;
    hide CreateRule, UpdateRule, DeleteRule, InsertDefaultRule, ReassignRules;
    hide ClaimDocument, FailDocument, ParkDocument, AttachItem, CreateDraft;
    hide UpdateTransaction, SoftDeleteTransaction, Submit, Decide;
    hide KeyOwner;
  }

  lemma OcrKeepsCalls(db: Db, op: Op)
    requires OcrOp(op)
    ensures Next(db, op).projects == db.projects && Next(db, op).calls == db.calls
  {
    hide CreateProject, ArchiveProject, UnarchiveProject, DeleteProject;
    hide CreateRule, UpdateRule, DeleteRule, InsertDefaultRule, ReassignRules;
    hide ReserveUpload, StoreObject, CompleteUpload, DeleteDocument;
    hide UpdateTransaction, SoftDeleteTransaction, Submit, Decide;
    hide ItemsInserted;
    if op.OpAttachItem? && op.tx in db.txs && op.item.Some? {
      InsertedTouches(db, op.tx, [op.item.value]);
    }
    if op.OpCreateDraft? && LiveDoc(db, op.doc) && db.docs[op.doc].project in db.projects {
      var p, d := db.docs[op.doc].project, db.docs[op.doc];
      var row := Tx(db.projects[p].org, p, Draft, Header(None, CURRENCY_IDR, None), 0, 1, d.uploadedBy, false);
      InsertedTouches(db.(txs := db.txs[op.tx := row]), op.tx, [op.line]);
    }
  }

  lemma TransactionKeepsCalls(db: Db, op: Op)
    requires TransactionOp(op)
    ensures Next(db, op).projects == db.projects && Next(db, op).calls == db.calls
  {
    hide CreateProject, ArchiveProject, UnarchiveProject, DeleteProject;
    hide CreateRule, UpdateRule, DeleteRule, InsertDefaultRule, ReassignRules;
    hide ReserveUpload, StoreObject, CompleteUpload, DeleteDocument;
    hide ClaimDocument, FailDocument, ParkDocument, AttachItem, CreateDraft;
    hide ItemsInserted, ItemsDeleted, Rules.Resolve, LiveDocs;
    if op.OpUpdateTransaction? && op.tx in db.txs && op.lines.Some? {
      var row := db.txs[op.tx].(header := op.header, version := db.txs[op.tx].version + 1);
      ReplacedTouches(db, op.tx, row, op.lines.value);
    }
  }

  lemma AdminKeepsCalls(db: Db, op: Op)
    requires !UploadOp(op) && !OcrOp(op) && !TransactionOp(op)
    ensures ProjectsStay(db.projects, Next(db, op).projects) && Next(db, op).calls == db.calls
  {
    hide ReserveUpload, StoreObject, CompleteUpload, DeleteDocument;
    hide ClaimDocument, FailDocument, ParkDocument, AttachItem, CreateDraft;
    hide UpdateTransaction, SoftDeleteTransaction, Submit, Decide;
    hide Rules.Unique, Rules.Taken, Rules.Reassigned;
  }

  /** Only a reservation begins a call, with a target it has just looked up. */
  lemma NewCallKnowsTarget(db: Db, op: Op, c: CallId)
    requires UploadOp(op) && c !in db.calls && c in Next(db, op).calls
    ensures TargetKnown(Next(db, op), Next(db, op).calls[c])
  {
    hide CreateProject, ArchiveProject, UnarchiveProject, DeleteProject;
    hide CreateRule, UpdateRule, DeleteRule, InsertDefaultRule, ReassignRules;
    hide ClaimDocument, FailDocument, ParkDocument, AttachItem, CreateDraft;
    hide UpdateTransaction, SoftDeleteTransaction, Submit, Decide;
    hide KeyOwner;
  }

  lemma StepKeepsTargets(db: Db, op: Op)
    requires Inv(db) && TargetsKnown(db)
    ensures TargetsKnown(Next(db, op))
  {
    StepEvolves(db, op);
    StepKeepsProjects(db, op);
    hide Inv, Next, ChainsEvolve, DocsEvolve;
    forall c | c in Next(db, op).calls ensures TargetKnown(Next(db, op), Next(db, op).calls[c]) {
      if c !in db.calls {
        NewCallKnowsTarget(db, op, c);
      } else {
        assert TargetKnown(db, db.calls[c]);
      }
    }
  }

  lemma {:induction false} RunKeepsTargets(db: Db, ops: seq<Op>)
    requires Inv(db) && TargetsKnown(db)
    ensures TargetsKnown(Run(db, ops))
  {
    hide TargetsKnown, Next, Inv;
    if ops != [] {
      RunKeepsTargets(db, ops[..|ops| - 1]);
      RunKeepsInv(db, ops[..|ops| - 1]);
      StepKeepsTargets(Run(db, ops[..|ops| - 1]), ops[|ops| - 1]);
    }
  }

  /** Whether the transaction a call named has been soft-deleted since; uploads to a project name none. */
  ghost predicate TargetDeleted(db: Db, s: Call) {
    s.upload.tx.Some? && s.upload.tx.value in db.txs && db.txs[s.upload.tx.value].deleted
  }

  /** A repetition of a call that returned: not found exactly if the named transaction is soft-deleted; otherwise
      it gets the row back exactly while the document is not deleted and still has the transaction the call named,
      and is refused as a reuse of the key if not. Archiving the project does not matter. */
  lemma {:induction false} RetryFindsRow(past: seq<Op>, future: seq<Op>, c: CallId)
    requires c in Run(EMPTY, past).calls && Run(EMPTY, past).calls[c].phase == Returned
    ensures var sent, db := Run(EMPTY, past).calls[c], Run(Run(EMPTY, past), future);
            && sent.doc in db.docs
            && LookUp(db, sent.actor, sent.upload)
               == if TargetDeleted(db, sent) then Gone
                  else if !db.docs[sent.doc].deleted && db.docs[sent.doc].tx == sent.upload.tx then Found(sent.doc)
                  else Refused
  {
    hide Run, Inv, Evolves, LookUp, TargetsKnown, TargetDeleted;
    var a := Run(EMPTY, past);
    var b := Run(a, future);
    ReachableInv(past);
    RunEvolves(a, future);
    RunKeepsInv(a, future);
    EmptyKnows(EMPTY);
    EmptyInv();
    RunKeepsTargets(EMPTY, past);
    RunKeepsTargets(a, future);
    CallStays(a, b, c);
    RetryAt(b, c);
    SameTarget(b, a.calls[c], b.calls[c]);
  }

  lemma EmptyKnows(db: Db)
    requires db == EMPTY
    ensures TargetsKnown(db)
  {
  }

  lemma SameTarget(db: Db, s: Call, s': Call)
    requires s.upload == s'.upload
    ensures TargetDeleted(db, s) == TargetDeleted(db, s')
  {
  }

  lemma CallStays(a: Db, b: Db, c: CallId)
    requires Evolves(a, b) && c in a.calls
    ensures c in b.calls && b.calls[c].actor == a.calls[c].actor && b.calls[c].upload == a.calls[c].upload
    ensures b.calls[c].doc == a.calls[c].doc && (a.calls[c].phase == Returned ==> b.calls[c].phase == Returned)
  {
    hide TxsEvolve, ChainsEvolve, DocsEvolve;
  }

  lemma RetryAt(db: Db, c: CallId)
    requires Inv(db) && TargetsKnown(db) && c in db.calls && db.calls[c].phase == Returned
    ensures var sent := db.calls[c];
            && sent.doc in db.docs
            && LookUp(db, sent.actor, sent.upload)
               == if TargetDeleted(db, sent) then Gone
                  else if !db.docs[sent.doc].deleted && db.docs[sent.doc].tx == sent.upload.tx then Found(sent.doc)
                  else Refused
  {
    hide LedgerOk, ChainsOk, DocsOk, UploadsOk, AnnouncedOk, HomesOk, SubmittedOk, Rules.RulesOk;
    CallFacts(db, c);
    assert TargetKnown(db, db.calls[c]);
    OwnerIs(db, db.calls[c].doc);
    DocHome(db, db.calls[c].doc);
  }

  lemma DocHome(db: Db, d: DocId)
    requires HomesOk(db.projects, db.txs, db.docs) && d in db.docs
    ensures db.docs[d].project in db.projects && !db.projects[db.docs[d].project].deleted
  {
  }

  lemma OwnerIs(db: Db, d: DocId)
    requires Inv(db) && d in db.docs
    ensures KeyOwner(db.docs, db.docs[d].project, db.docs[d].uploadedBy, db.docs[d].key) == Some(d)
  {
    hide LedgerOk, ChainsOk, UploadsOk, AnnouncedOk, HomesOk, SubmittedOk, Rules.RulesOk;
  }

  /** The binding that makes a retry fail: an upload to the project whose result became a draft. */
  lemma {:induction false} RetryRefusedAfterDraft(past: seq<Op>, c: CallId)
    requires c in Run(EMPTY, past).calls && Run(EMPTY, past).calls[c].phase == Returned
    requires Run(EMPTY, past).calls[c].upload.tx.None?
    requires Run(EMPTY, past).calls[c].doc in Run(EMPTY, past).docs
             && Run(EMPTY, past).docs[Run(EMPTY, past).calls[c].doc].ocr == OcrCompleted
    ensures LookUp(Run(EMPTY, past), Run(EMPTY, past).calls[c].actor, Run(EMPTY, past).calls[c].upload) == Refused
  {
    var a := Run(EMPTY, past);
    RetryFindsRow(past, [], c);
    assert Run(a, []) == a;
    ReachableInv(past);
    hide Run, LedgerOk, ChainsOk, UploadsOk, AnnouncedOk, HomesOk, SubmittedOk, Rules.RulesOk;
  }
}
