// Every database transaction of the services as one step: a guard, and the tables after it.

module Steps {
  import opened Tables
  import opened Ledger
  import opened Rules
  import Chain

  ghost function Emit(db: Db, e: Event): Db {
    db.(events := db.events + [e])
  }

  /** UPDATE transactions: bump_transaction_version overwrites whatever version the row would get. */
  ghost function Written(txs: map<TxId, Tx>, t: TxId, row: Tx): map<TxId, Tx>
    requires t in txs
  {
    txs[t := row.(version := txs[t].version + 1)]
  }

  // ----- transaction items with the sync trigger

  /** DeleteTransactionItems: the trigger runs once per deleted row. */
  ghost function ItemsDeleted(db: Db, t: TxId): Db
    requires t in db.txs
  {
    var n := |ItemsOf(db.items, t)|;
    if n == 0 then db
    else db.(items := Without(db.items, t),
             txs := db.txs[t := db.txs[t].(total := 0, version := db.txs[t].version + n)])
  }

  /** InsertTransactionItems: the trigger runs once per inserted row; None is a constraint violation. */
  ghost function ItemsInserted(db: Db, t: TxId, lines: seq<Line>): Option<Db>
    requires t in db.txs
  {
    var sum := Total(ItemsOf(db.items, t)) + Total(lines);
    if lines == [] then Some(db)
    else if !RowsAllowed(lines) || sum > MAX_INT64 then None
    else Some(db.(items := db.items + Tagged(t, lines),
                  txs := db.txs[t := db.txs[t].(total := sum, version := db.txs[t].version + |lines|)]))
  }

  // ----- manual edits (transaction.Update, transaction.Delete)

  ghost function UpdateTransaction(db: Db, actor: Actor, t: TxId, header: Header,
                                   items: Option<seq<Line>>, expected: int): Outcome
  {
    if t !in db.txs || db.txs[t].org != actor.org || db.txs[t].deleted then Abort(NotFound)
    else if db.txs[t].status != Draft then Abort(TransactionLocked)
    else if db.txs[t].version != expected then Abort(TransactionChanged)
    else
      var edited := db.(txs := Written(db.txs, t, db.txs[t].(header := header)));
      if items.None? then Commit(Emit(edited, TransactionUpdated(t, edited.txs[t].total, Manual)))
      else
        var r := ItemsInserted(ItemsDeleted(edited, t), t, items.value);
        if r.None? then Abort(DatabaseError)
        else Commit(Emit(r.value, TransactionUpdated(t, r.value.txs[t].total, Manual)))
  }

  ghost function SoftDeleteTransaction(db: Db, actor: Actor, t: TxId): Outcome {
    if t !in db.txs || db.txs[t].org != actor.org || db.txs[t].deleted then Abort(NotFound)
    else if db.txs[t].status != Draft then Abort(TransactionLocked)
    else Commit(db.(txs := Written(db.txs, t, db.txs[t].(deleted := true))))
  }

  // ----- submit and decide

  /** CountTransactionDocuments counts these. */
  function LiveDocs(docs: map<DocId, Doc>, t: TxId): set<DocId> {
    set d | d in docs && docs[d].tx == Some(t) && docs[d].uploadComplete && !docs[d].deleted
  }

  /** firstApproverID: the last rule of the first step. */
  ghost function NotifiedAtSubmit(rules: seq<Rule>): UserId
    requires rules != []
  {
    if |rules| == 1 || rules[|rules| - 1].step == rules[0].step then rules[|rules| - 1].approver
    else NotifiedAtSubmit(rules[..|rules| - 1])
  }

  /** submitTx; known holds the users whose role identity can resolve. */
  ghost function Submit(db: Db, actor: Actor, t: TxId, known: set<UserId>, now: Time): Outcome {
    if t !in db.txs || db.txs[t].org != actor.org then Abort(NotFound)
    else
      var row := db.txs[t];
      if row.deleted || row.status != Draft then Abort(InvalidTransition)
      else if LiveDocs(db.docs, t) == {} || row.total <= 0 then Abort(SubmitValidation)
      else
        var rules := Resolve(db.rules, actor.org, row.project);
        if rules == [] then Abort(NoApproverResolved)
        else if exists i | 0 <= i < |rules| :: rules[i].approver !in known then Abort(IdentityUnavailable)
        else
          Commit(db.(txs := Written(db.txs, t, row.(status := PendingApproval)),
                     approvals := db.approvals + Chain.Snapshot(t, rules, now),
                     events := db.events + [StepActivated(t, NotifiedAtSubmit(rules), rules[0].step),
                                            TransactionSubmitted(t)]))
  }

  /** The approval activateNext hands back for the notification: the first of the step in table order. */
  ghost function FirstOfStep(ap: seq<Approval>, t: TxId, s: int): UserId {
    if ap == [] then 0
    else if ap[0].tx == t && ap[0].step == s && ap[0].cancelledAt.None? then ap[0].approver
    else FirstOfStep(ap[1..], t, s)
  }

  /** The guards of Decide, with the approval's own columns as seen when the row was read. */
  ghost function DecideRefused(db: Db, actor: Actor, i: nat, active: bool, seen: Approval): Option<Error> {
    if i >= |db.approvals| || db.approvals[i].tx !in db.txs then Some(NotFound)
    else
      var row := db.txs[db.approvals[i].tx];
      if row.org != actor.org then Some(NotFound)
      else if row.status != PendingApproval then Some(InvalidTransition)
      else if seen.activatedAt.None? then Some(NotYourTurn)
      else if seen.cancelledAt.Some? then Some(InvalidTransition)
      else if Chain.DecisionOf(db.decisions, i).Some? then Some(InvalidTransition)
      else if seen.approver != actor.user then Some(Forbidden)
      else if !active then Some(Forbidden)
      else None
  }

  /** Decide, once its guards have passed. */
  ghost function DecisionApplied(db: Db, actor: Actor, i: nat, v: Verdict, now: Time): Db
    requires i < |db.approvals| && db.approvals[i].tx in db.txs
  {
    var t := db.approvals[i].tx;
    var b := Chain.Decided(db.approvals, db.decisions, t, i, actor.user, v, now);
    var move := Chain.NextMove(db.approvals, b.decisions, t);
    db.(approvals := b.approvals,
        decisions := b.decisions,
        txs := if b.status == PendingApproval then db.txs
               else Written(db.txs, t, db.txs[t].(status := b.status)),
        events := db.events + [DecisionReceived(t, v)]
                  + (if v == Approve && move.Activate?
                     then [StepActivated(t, FirstOfStep(db.approvals, t, move.step), move.step)] else [])
                  + [TransactionDecided(t, i, v)])
  }

  /** Decide when the approval's row may have been read before the transaction row was locked. */
  ghost function DecideSeen(db: Db, actor: Actor, i: nat, v: Verdict, active: bool, now: Time,
                            seen: Approval): Outcome {
    var e := DecideRefused(db, actor, i, active, seen);
    if e.Some? then Abort(e.value) else Commit(DecisionApplied(db, actor, i, v, now))
  }

  /** Decide as one atomic step. */
  ghost function Decide(db: Db, actor: Actor, i: nat, v: Verdict, active: bool, now: Time): Outcome {
    if i >= |db.approvals| then Abort(NotFound)
    else DecideSeen(db, actor, i, v, active, now, db.approvals[i])
  }

  // ----- projects

  ghost predicate LiveProject(db: Db, p: ProjectId, org: OrgId) {
    p in db.projects && db.projects[p].org == org && !db.projects[p].deleted
  }

  ghost function DefaultRuleEnsured(rules: seq<Rule>, actor: Actor): seq<Rule> {
    var r := Rule(actor.org, None, actor.user, 1, false);
    if Taken(rules, r) then rules else rules + [r]
  }

  ghost function CreateProject(db: Db, actor: Actor, p: ProjectId): Outcome {
    if p in db.projects then Abort(DatabaseError)
    else Commit(Emit(db.(projects := db.projects[p := Project(actor.org, false, false)],
                         rules := DefaultRuleEnsured(db.rules, actor)),
                     ProjectCreated(p)))
  }

  ghost function ArchiveProject(db: Db, actor: Actor, p: ProjectId): Outcome {
    if !LiveProject(db, p, actor.org) || db.projects[p].archived then Abort(NotFound)
    else Commit(Emit(db.(projects := db.projects[p := db.projects[p].(archived := true)]), ProjectArchived(p)))
  }

  ghost function UnarchiveProject(db: Db, actor: Actor, p: ProjectId): Outcome {
    if !LiveProject(db, p, actor.org) || !db.projects[p].archived then Abort(NotFound)
    else Commit(Emit(db.(projects := db.projects[p := db.projects[p].(archived := false)]), ProjectUnarchived(p)))
  }

  ghost function DeleteProject(db: Db, actor: Actor, p: ProjectId): Outcome {
    if !LiveProject(db, p, actor.org) then Abort(NotFound)
    else if exists t | t in db.txs :: db.txs[t].project == p && !db.txs[t].deleted then Abort(ProjectHasTransactions)
    else if exists d | d in db.docs :: db.docs[d].project == p then Abort(ProjectHasDocuments)
    else Commit(Emit(db.(projects := db.projects[p := db.projects[p].(deleted := true)]), ProjectDeleted(p)))
  }

  // ----- approval rules

  ghost function CreateRule(db: Db, actor: Actor, project: Option<ProjectId>, approver: UserId, step: int): Outcome {
    var r := Rule(actor.org, project, approver, step, false);
    if step < 1 || step > 10 then Abort(InvalidTransition)
    else if Taken(db.rules, r) then Abort(ApproverAlreadyExists)
    else Commit(Emit(db.(rules := db.rules + [r]), RuleCreated(|db.rules|)))
  }

  ghost predicate LiveRule(db: Db, actor: Actor, i: nat) {
    i < |db.rules| && db.rules[i].org == actor.org && !db.rules[i].deleted
  }

  ghost function UpdateRule(db: Db, actor: Actor, i: nat, step: int): Outcome {
    if step < 1 || step > 10 then Abort(InvalidTransition)
    else if !LiveRule(db, actor, i) then Abort(NotFound)
    else Commit(Emit(db.(rules := db.rules[i := db.rules[i].(step := step)]), RuleUpdated(i)))
  }

  ghost function DeleteRule(db: Db, actor: Actor, i: nat): Outcome {
    if !LiveRule(db, actor, i) then Abort(NotFound)
    else Commit(Emit(db.(rules := db.rules[i := db.rules[i].(deleted := true)]), RuleDeleted(i)))
  }

  ghost function InsertDefaultRule(db: Db, actor: Actor): Outcome {
    Commit(db.(rules := DefaultRuleEnsured(db.rules, actor)))
  }

  ghost function ReassignRules(db: Db, org: OrgId, from: UserId, to: UserId): Outcome {
    if from == to then Abort(InvalidAction)
    else if forall i | 0 <= i < |db.rules| :: !Moves(db.rules[i], org, from) then Abort(NotFound)
    else if !Unique(Reassigned(db.rules, org, from, to)) then Abort(ApproverAlreadyExists)
    else Commit(Emit(db.(rules := Reassigned(db.rules, org, from, to)),
                     RulesReassigned(from, to, MovedCount(db.rules, org, from))))
  }

  // ----- uploads

  predicate HasKey(d: Doc, project: ProjectId, user: UserId, key: int) {
    d.project == project && d.uploadedBy == user && d.key == key
  }

  /** sameUploadRequest. */
  predicate SameRequest(d: Doc, u: Upload) {
    d.fileName == u.fileName && d.mime == u.mime && d.content == u.content && d.tx == u.tx
  }

  function ExtensionForMime(mime: string): string {
    match mime
    case "image/jpeg" => ".jpg"
    case "image/png" => ".png"
    case "image/webp" => ".webp"
    case "application/pdf" => ".pdf"
    case _ => ""
  }

  function NewDoc(actor: Actor, u: Upload, d: DocId): Doc {
    Doc(u.project, u.tx, Path(actor.org, u.project, d, ExtensionForMime(u.mime)), u.fileName, u.mime, u.content,
        actor.user, u.key, false, OcrPending, false)
  }

  /** The first transaction of an upload. The target transaction was read before, in the same project. */
  ghost function ReserveUpload(db: Db, call: CallId, actor: Actor, u: Upload, newDoc: DocId): Outcome {
    if call in db.calls || newDoc in db.docs then Abort(DatabaseError)
    else if u.tx.Some? && (u.tx.value !in db.txs || db.txs[u.tx.value].org != actor.org
                           || db.txs[u.tx.value].project != u.project) then Abort(NotFound)
    else if !LiveProject(db, u.project, actor.org) then Abort(NotFound)
    else if db.projects[u.project].archived then Abort(ProjectIsArchived)
    else
      var owner := KeyOwner(db.docs, u.project, actor.user, u.key);
      if owner.None? then
        Commit(db.(docs := db.docs[newDoc := NewDoc(actor, u, newDoc)],
                   calls := db.calls[call := Call(actor, u, newDoc, Reserved)]))
      else
        var d := owner.value;
        if !SameRequest(db.docs[d], u) || db.docs[d].deleted then Abort(IdempotencyKeyReused)
        else Commit(db.(calls := db.calls[call := Call(actor, u, d,
                          if db.docs[d].uploadComplete then Returned else Reserved)]))
  }

  /** Storing the bytes at the reserved key; only a call that holds a reservation does it. */
  ghost function StoreObject(db: Db, call: CallId): Outcome {
    if call !in db.calls || db.calls[call].phase != Reserved || db.calls[call].doc !in db.docs then Abort(StorageFailed)
    else
      var c := db.calls[call];
      Commit(db.(objects := db.objects[db.docs[c.doc].path := c.upload.content],
                 calls := db.calls[call := c.(phase := Stored)]))
  }

  /** The second transaction of an upload, by a call that has stored its bytes. */
  ghost function CompleteUpload(db: Db, call: CallId): Outcome {
    if call !in db.calls || db.calls[call].phase != Stored then Abort(StorageFailed)
    else
      var c := db.calls[call];
      var u, org := c.upload, c.actor.org;
      if !LiveProject(db, u.project, org) then Abort(DatabaseError)
      else if db.projects[u.project].archived then Abort(ProjectIsArchived)
      else if u.tx.Some? && u.tx.value !in db.txs then Abort(DatabaseError)
      else if u.tx.Some? && (db.txs[u.tx.value].org != org || db.txs[u.tx.value].project != u.project
                             || db.txs[u.tx.value].deleted) then Abort(NotFound)
      else if u.tx.Some? && db.txs[u.tx.value].status != Draft then Abort(TransactionLocked)
      else if c.doc !in db.docs || db.docs[c.doc].deleted then Abort(DatabaseError)
      else
        var returned := db.(calls := db.calls[call := c.(phase := Returned)]);
        if db.docs[c.doc].uploadComplete then Commit(returned)
        else Commit(Emit(returned.(docs := db.docs[c.doc := db.docs[c.doc].(uploadComplete := true)]),
                         DocumentCreated(c.doc)))
  }

  ghost function KeyOwner(docs: map<DocId, Doc>, project: ProjectId, user: UserId, key: int): (d: Option<DocId>)
    ensures d.None? <==> forall e | e in docs :: !HasKey(docs[e], project, user, key)
    ensures d.Some? ==> d.value in docs && HasKey(docs[d.value], project, user, key)
  {
    if exists e :: e in docs && HasKey(docs[e], project, user, key) then
      var e :| e in docs && HasKey(docs[e], project, user, key);
      Some(e)
    else None
  }

  /** GetDocumentForProcessing sees a document. */
  ghost predicate LiveDoc(db: Db, d: DocId) {
    d in db.docs && !db.docs[d].deleted && db.docs[d].uploadComplete
  }

  /** The closure lockTransaction of document.Delete. */
  ghost function EditRefused(db: Db, actor: Actor, t: TxId): Option<Error> {
    if t !in db.txs || db.txs[t].org != actor.org || db.txs[t].deleted then Some(NotFound)
    else if db.txs[t].status != Draft then Some(TransactionLocked)
    else None
  }

  /** document.Delete; seen is the document's transaction as read before the locks. */
  ghost function DeleteDocument(db: Db, actor: Actor, d: DocId, seen: Option<TxId>): Outcome {
    if seen.Some? && EditRefused(db, actor, seen.value).Some? then Abort(EditRefused(db, actor, seen.value).value)
    else if !LiveDoc(db, d) || db.docs[d].project !in db.projects
            || db.projects[db.docs[d].project].org != actor.org then Abort(NotFound)
    else
      var tx := db.docs[d].tx;
      if tx.Some? && seen.Some? && tx != seen then Abort(Conflict)
      else if tx.Some? && EditRefused(db, actor, tx.value).Some? then Abort(EditRefused(db, actor, tx.value).value)
      else Commit(Emit(db.(docs := db.docs[d := db.docs[d].(deleted := true)]), DocumentDeleted(d)))
  }

  // ----- OCR results; a lone statement that matches no row commits nothing

  ghost function WithOcr(db: Db, d: DocId, from: OcrStatus, to: OcrStatus): Db {
    if LiveDoc(db, d) && db.docs[d].ocr == from then db.(docs := db.docs[d := db.docs[d].(ocr := to)]) else db
  }

  ghost function ClaimDocument(db: Db, d: DocId): Outcome {
    Commit(WithOcr(db, d, OcrPending, OcrProcessing))
  }

  ghost function FailDocument(db: Db, d: DocId): Outcome {
    Commit(WithOcr(db, d, OcrProcessing, OcrFailed))
  }

  ghost function ParkDocument(db: Db, d: DocId): Outcome {
    Commit(WithOcr(db, d, OcrProcessing, OcrNeedsReview))
  }

  ghost function Bound(db: Db, d: DocId, t: TxId): Db
    requires d in db.docs
  {
    db.(docs := db.docs[d := db.docs[d].(tx := Some(t), ocr := OcrCompleted)])
  }

  /** attach: the document was uploaded to transaction t. */
  ghost function AttachItem(db: Db, d: DocId, t: TxId, item: Option<Line>): Outcome {
    if t !in db.txs then Abort(DatabaseError)
    else if db.txs[t].deleted then Abort(NotFound)
    else if !LiveDoc(db, d) || db.docs[d].ocr != OcrProcessing || db.docs[d].tx != Some(t) then Commit(db)
    else if db.docs[d].project !in db.projects || db.projects[db.docs[d].project].org != db.txs[t].org
        then Abort(NotFound)
    else if db.txs[t].status != Draft || item.None? then ParkDocument(db, d)
    else if db.txs[t].total < 0 || item.value.amount as int > MAX_INT64 - db.txs[t].total then ParkDocument(db, d)
    else
      var r := ItemsInserted(db, t, [item.value]);
      if r.None? then Abort(DatabaseError)
      else Commit(Emit(Bound(r.value, d, t), TransactionUpdated(t, r.value.txs[t].total, Ocr)))
  }

  const CURRENCY_IDR := "IDR"

  /** createDraft: the document belongs to its project only; t is the id the database generates. */
  ghost function CreateDraft(db: Db, d: DocId, t: TxId, item: Line): Outcome {
    if t in db.txs then Abort(DatabaseError)
    else if !LiveDoc(db, d) || db.docs[d].ocr != OcrProcessing || db.docs[d].tx.Some? then Commit(db)
    else
      var p := db.docs[d].project;
      if p !in db.projects || db.projects[p].deleted || db.projects[p].archived then ParkDocument(db, d)
      else
        var row := Tx(db.projects[p].org, p, Draft, Header(None, CURRENCY_IDR, None), 0, 1, db.docs[d].uploadedBy,
                      false);
        var r := ItemsInserted(db.(txs := db.txs[t := row]), t, [item]);
        if r.None? then Abort(DatabaseError)
        else Commit(Emit(Bound(r.value, d, t), TransactionCreated(t, r.value.txs[t].total)))
  }

  // ----- steps and runs

  datatype Op =
    | OpCreateProject(actor: Actor, project: ProjectId)
    | OpArchiveProject(actor: Actor, project: ProjectId)
    | OpUnarchiveProject(actor: Actor, project: ProjectId)
    | OpDeleteProject(actor: Actor, project: ProjectId)
    | OpCreateRule(actor: Actor, scope: Option<ProjectId>, approver: UserId, step: int)
    | OpUpdateRule(actor: Actor, rule: nat, step: int)
    | OpDeleteRule(actor: Actor, rule: nat)
    | OpInsertDefaultRule(actor: Actor)
    | OpReassignRules(org: OrgId, from: UserId, to: UserId)
    | OpReserveUpload(call: CallId, actor: Actor, upload: Upload, newDoc: DocId)
    | OpStoreObject(call: CallId)
    | OpCompleteUpload(call: CallId)
    | OpDeleteDocument(actor: Actor, doc: DocId, seen: Option<TxId>)
    | OpClaimDocument(doc: DocId)
    | OpFailDocument(doc: DocId)
    | OpParkDocument(doc: DocId)
    | OpAttachItem(doc: DocId, tx: TxId, item: Option<Line>)
    | OpCreateDraft(doc: DocId, tx: TxId, line: Line)
    | OpUpdateTransaction(actor: Actor, tx: TxId, header: Header, lines: Option<seq<Line>>, expected: int)
    | OpSoftDeleteTransaction(actor: Actor, tx: TxId)
    | OpEmitDeleted(tx: TxId)
    | OpSubmit(actor: Actor, tx: TxId, known: set<UserId>, now: Time)
    | OpDecide(actor: Actor, approval: nat, verdict: Verdict, active: bool, now: Time)

  predicate UploadOp(op: Op) {
    op.OpReserveUpload? || op.OpStoreObject? || op.OpCompleteUpload? || op.OpDeleteDocument?
  }

  predicate OcrOp(op: Op) {
    op.OpClaimDocument? || op.OpFailDocument? || op.OpParkDocument? || op.OpAttachItem? || op.OpCreateDraft?
  }

  predicate TransactionOp(op: Op) {
    op.OpUpdateTransaction? || op.OpSoftDeleteTransaction? || op.OpEmitDeleted? || op.OpSubmit? || op.OpDecide?
  }

  ghost function Step(db: Db, op: Op): Outcome {
    match op
    case OpCreateProject(actor, p) => CreateProject(db, actor, p)
    case OpArchiveProject(actor, p) => ArchiveProject(db, actor, p)
    case OpUnarchiveProject(actor, p) => UnarchiveProject(db, actor, p)
    case OpDeleteProject(actor, p) => DeleteProject(db, actor, p)
    case OpCreateRule(actor, scope, approver, step) => CreateRule(db, actor, scope, approver, step)
    case OpUpdateRule(actor, i, step) => UpdateRule(db, actor, i, step)
    case OpDeleteRule(actor, i) => DeleteRule(db, actor, i)
    case OpInsertDefaultRule(actor) => InsertDefaultRule(db, actor)
    case OpReassignRules(org, from, to) => ReassignRules(db, org, from, to)
    case OpReserveUpload(call, actor, u, newDoc) => ReserveUpload(db, call, actor, u, newDoc)
    case OpStoreObject(call) => StoreObject(db, call)
    case OpCompleteUpload(call) => CompleteUpload(db, call)
    case OpDeleteDocument(actor, d, seen) => DeleteDocument(db, actor, d, seen)
    case OpClaimDocument(d) => ClaimDocument(db, d)
    case OpFailDocument(d) => FailDocument(db, d)
    case OpParkDocument(d) => ParkDocument(db, d)
    case OpAttachItem(d, t, item) => AttachItem(db, d, t, item)
    case OpCreateDraft(d, t, line) => CreateDraft(db, d, t, line)
    case OpUpdateTransaction(actor, t, header, lines, expected) =>
      UpdateTransaction(db, actor, t, header, lines, expected)
    case OpSoftDeleteTransaction(actor, t) => SoftDeleteTransaction(db, actor, t)
    case OpEmitDeleted(t) => Commit(Emit(db, TransactionDeleted(t)))
    case OpSubmit(actor, t, known, now) => Submit(db, actor, t, known, now)
    case OpDecide(actor, i, v, active, now) => Decide(db, actor, i, v, active, now)
  }

  /** The database after one step, whether it committed or not. */
  ghost function Next(db: Db, op: Op): Db {
    After(db, Step(db, op))
  }

  /** A run: steps of any callers, interleaved in any order. */
  ghost function Run(db: Db, ops: seq<Op>): Db {
    if ops == [] then db else Next(Run(db, ops[..|ops| - 1]), ops[|ops| - 1])
  }

  const EMPTY: Db := Db(map[], [], map[], [], [], [], map[], map[], map[], [])
}
