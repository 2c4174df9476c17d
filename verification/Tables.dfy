// The rows and tables of the expense database, and the outcomes of one database transaction.

module Tables {

  datatype Option<+T> = None | Some(value: T)

  const MAX_INT64: int := 0x7FFF_FFFF_FFFF_FFFF
  const MAX_ITEMS: int := 200

  /** A BIGINT column, or a Go int64: arithmetic outside the range does not verify. */
  newtype int64 = x: int | -0x8000_0000_0000_0000 <= x <= 0x7FFF_FFFF_FFFF_FFFF

  type OrgId = nat
  type UserId = nat
  type ProjectId = nat
  type TxId = nat
  type DocId = nat
  type CallId = nat
  type Time = int

  datatype Actor = Actor(org: OrgId, user: UserId)

  // ----- projects and approval rules

  datatype Project = Project(org: OrgId, archived: bool, deleted: bool)

  /** An approval rule; project None is the organization's default scope. */
  datatype Rule = Rule(org: OrgId, project: Option<ProjectId>, approver: UserId, step: int, deleted: bool)

  // ----- transactions and their items

  datatype Status = Draft | PendingApproval | Approved | Rejected

  datatype Header = Header(description: Option<string>, currency: string, category: Option<string>)

  datatype Tx = Tx(org: OrgId, project: ProjectId, status: Status, header: Header,
                   total: int, version: int, createdBy: UserId, deleted: bool)

  datatype Line = Line(description: string, quantity: int, amount: int64)

  /** A transaction_items row. */
  datatype Item = Item(tx: TxId, line: Line)

  // ----- approvals; the index of a row in its table is its id, since neither table loses rows

  datatype Verdict = Approve | Reject

  datatype Approval = Approval(tx: TxId, approver: UserId, step: int,
                               activatedAt: Option<Time>, cancelledAt: Option<Time>)

  datatype Decision = Decision(approval: nat, decidedBy: UserId, verdict: Verdict)

  // ----- documents, stored objects and upload calls in flight

  datatype OcrStatus = OcrPending | OcrProcessing | OcrCompleted | OcrNeedsReview | OcrFailed

  /** An object key; it embeds the id of the document it was reserved for. */
  datatype Path = Path(org: OrgId, project: ProjectId, doc: DocId, extension: string)

  /** Object content, identified by its SHA-256 digest and its length. */
  datatype Content = Content(hash: string, size: int)

  datatype Doc = Doc(project: ProjectId, tx: Option<TxId>, path: Path, fileName: string, mime: string,
                     content: Content, uploadedBy: UserId, key: int, uploadComplete: bool,
                     ocr: OcrStatus, deleted: bool)

  /** What a client sends with one upload call; tx None is an upload to the project itself. */
  datatype Upload = Upload(project: ProjectId, tx: Option<TxId>, key: int,
                           fileName: string, mime: string, content: Content)

  datatype Phase = Reserved | Stored | Returned

  /** An upload call: its row is reserved, its bytes are stored, it returned its document. */
  datatype Call = Call(actor: Actor, upload: Upload, doc: DocId, phase: Phase)

  // ----- outbox events

  datatype Source = Manual | Ocr

  datatype Event =
    | ProjectCreated(project: ProjectId)
    | ProjectArchived(project: ProjectId)
    | ProjectUnarchived(project: ProjectId)
    | ProjectDeleted(project: ProjectId)
    | RuleCreated(rule: nat)
    | RuleUpdated(rule: nat)
    | RuleDeleted(rule: nat)
    | RulesReassigned(from: UserId, to: UserId, count: nat)
    | DocumentCreated(doc: DocId)
    | DocumentDeleted(doc: DocId)
    | TransactionCreated(tx: TxId, total: int)
    | TransactionUpdated(tx: TxId, total: int, source: Source)
    | TransactionDeleted(tx: TxId)
    | TransactionSubmitted(tx: TxId)
    | TransactionDecided(tx: TxId, approval: nat, verdict: Verdict)
    | StepActivated(tx: TxId, approver: UserId, step: int)
    | DecisionReceived(tx: TxId, verdict: Verdict)

  /** Every table at one commit, the object store, and the upload calls in flight. */
  datatype Db = Db(
    projects: map<ProjectId, Project>,
    rules: seq<Rule>,
    txs: map<TxId, Tx>,
    items: seq<Item>,
    approvals: seq<Approval>,
    decisions: seq<Decision>,
    docs: map<DocId, Doc>,
    objects: map<Path, Content>,
    calls: map<CallId, Call>,
    events: seq<Event>)

  datatype Error =
    | NotFound | Forbidden | Conflict | InvalidTransition | NotYourTurn
    | SubmitValidation | NoApproverResolved | TransactionLocked | TransactionChanged
    | TooManyItems | ItemInvalid | InvalidAmount | CurrencyInvalid | CategoryInvalid | InvalidAction
    | ProjectIsArchived | ProjectHasTransactions | ProjectHasDocuments
    | IdempotencyKeyRequired | IdempotencyKeyReused
    | ApproverAlreadyExists | ApproverNotMember | LastApprovalRule
    | IdentityUnavailable | WriteAccessDenied | StorageFailed
    | DatabaseError

  /** One ExecTx body: it commits a new database, or it aborts and nothing changes. */
  datatype Outcome = Commit(db: Db) | Abort(error: Error)

  function After(before: Db, o: Outcome): Db {
    if o.Commit? then o.db else before
  }
}
