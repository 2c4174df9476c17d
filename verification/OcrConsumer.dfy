// Handling one OCR result: the claim, then attach or draft creation, over the store.

module OcrConsumer {
  import opened Tables
  import opened Ledger
  import opened Rules
  import opened Steps
  import opened Invariants
  import opened DraftGuarantees
  import opened Extraction
  import Evolution
  import opened Store

  /** attach; the row count of AttachDocumentToTransaction, which the source ignores, is always 1. */
  method Attach(q: Store, d: DocId, t: TxId, item: Option<Line>) returns (err: Option<Error>)
    requires q.Valid()
    requires item.Some? ==> RowAllowed(item.value)
    modifies q
    ensures q.Valid() && Follows(old(q.State()), q.State(), err, AttachItem(old(q.State()), d, t, item))
  {
    hide Inv, ItemsInserted, Total, ItemsOf;
    ghost var begin := q.State();
    AttachKeepsInv(begin, d, t, item);
    if t !in q.txs {
      return Some(DatabaseError);
    }
    if q.txs[t].deleted {
      return Some(NotFound);
    }
    if d !in q.docs || q.docs[d].deleted || !q.docs[d].uploadComplete
       || q.docs[d].ocr != OcrProcessing || q.docs[d].tx != Some(t) {
      return None;
    }
    if q.docs[d].project !in q.projects || q.projects[q.docs[d].project].org != q.txs[t].org {
      return Some(NotFound);
    }
    if q.txs[t].status != Draft || item.None?
       || q.txs[t].total < 0 || item.value.amount as int > MAX_INT64 - q.txs[t].total {
      var rows := q.SetOcrStatus(d, OcrProcessing, OcrNeedsReview);
      return None;
    }
    GuardDecides(begin, d, t, item.value);
    InsertFits(begin, t, item.value);
    Insert(q, begin, t, item.value);
    var rows := q.AttachDocumentToTransaction(d, t);
    assert rows == 1;
    q.EmitEvent(TransactionUpdated(t, q.txs[t].total, Ocr));
    err := None;
  }

  /** insertItems with the one line, where the insert cannot fail. */
  method Insert(q: Store, ghost begin: Db, t: TxId, line: Line)
    requires t in q.txs && Inv(begin) && q.items == begin.items
    requires ItemsInserted(q.State(), t, [line]).Some?
    modifies q`items, q`txs
    ensures q.State() == ItemsInserted(old(q.State()), t, [line]).value && t in q.txs
  {
    ItemRowsAllowed(begin);
    InsertedTouches(q.State(), t, [line]);
    hide Inv, ItemsInserted;
    var ok := q.InsertTransactionItems(t, [line]);
  }

  lemma InsertFits(db: Db, t: TxId, line: Line)
    requires Inv(db) && RowAllowed(line) && t in db.txs && line.amount as int <= MAX_INT64 - db.txs[t].total
    ensures ItemsInserted(db, t, [line]).Some?
  {
    hide ChainsOk, DocsOk, UploadsOk, AnnouncedOk, HomesOk, SubmittedOk, RulesOk, ItemsOf;
    TotalOfOne(line);
    InsertAccepted(db, t, [line]);
  }

  /** createDraft with an item; t is the id the database generates for the draft. */
  method CreateDraftFor(q: Store, d: DocId, t: TxId, item: Line) returns (err: Option<Error>)
    requires q.Valid() && RowAllowed(item) && t !in q.txs
    modifies q
    ensures q.Valid() && Follows(old(q.State()), q.State(), err, CreateDraft(old(q.State()), d, t, item))
    ensures err.None?
  {
    hide Inv, ItemsInserted, Total, ItemsOf;
    ghost var begin := q.State();
    CreateDraftKeepsInv(begin, d, t, item);
    if d !in q.docs || q.docs[d].deleted || !q.docs[d].uploadComplete
       || q.docs[d].ocr != OcrProcessing || q.docs[d].tx.Some? {
      return None;
    }
    LiveDocFacts(begin, d);
    var p := q.docs[d].project;
    var org := q.projects[p].org;
    var rows := q.CreateTransaction(t, org, p, Header(None, CURRENCY_IDR, None), q.docs[d].uploadedBy);
    if rows == 0 {
      rows := q.SetOcrStatus(d, OcrProcessing, OcrNeedsReview);
      return None;
    }
    NewDraftFits(begin, t, q.txs[t], item);
    Insert(q, begin, t, item);
    rows := q.AttachDocumentToTransaction(d, t);
    assert rows == 1;
    q.EmitEvent(TransactionCreated(t, q.txs[t].total));
    err := None;
  }

  lemma NewDraftFits(db: Db, t: TxId, row: Tx, line: Line)
    requires Inv(db) && t !in db.txs && RowAllowed(line)
    ensures ItemsInserted(db.(txs := db.txs[t := row]), t, [line]).Some?
  {
    hide ChainsOk, DocsOk, UploadsOk, AnnouncedOk, HomesOk, SubmittedOk, RulesOk;
    NoItemsOf(db.items, t);
    TotalOfOne(line);
    assert Total([]) == 0;
  }

  // ----- Handle

  /** Identity's answer when the handler asks to hold write access for the uploader. */
  datatype Lease = Unavailable | Denied | Granted

  function ItemFor(db: Db, msg: Message): Option<Line> {
    if msg.doc in db.docs then MessageItem(db.docs[msg.doc].fileName, msg) else None
  }

  /** The committed steps of one delivery that nothing else interleaves with: the claim is a step of its own,
      so a crash after it leaves the document processing. */
  ghost function HandleSteps(db: Db, msg: Message, lease: Lease, t: TxId): seq<Op> {
    if !LiveDoc(db, msg.doc) || db.docs[msg.doc].ocr != OcrPending || lease != Granted then []
    else [OpClaimDocument(msg.doc), ResultStep(db, msg, t)]
  }

  ghost function ResultStep(db: Db, msg: Message, t: TxId): Op
    requires msg.doc in db.docs
  {
    if msg.status == Failed then OpFailDocument(msg.doc)
    else if db.docs[msg.doc].tx.Some? then OpAttachItem(msg.doc, db.docs[msg.doc].tx.value, ItemFor(db, msg))
    else if ItemFor(db, msg).None? then OpParkDocument(msg.doc)
    else OpCreateDraft(msg.doc, t, ItemFor(db, msg).value)
  }

  /** The document's transaction is soft-deleted; a result for it finds no draft. */
  ghost predicate DraftDeleted(db: Db, d: DocId) {
    d in db.docs && db.docs[d].tx.Some? && db.docs[d].tx.value in db.txs && db.txs[db.docs[d].tx.value].deleted
  }

  /** What Handle answers: None acknowledges the record, NotFound dead-letters it after its claim. */
  ghost function HandleError(db: Db, msg: Message, lease: Lease): Option<Error> {
    if !LiveDoc(db, msg.doc) || db.docs[msg.doc].ocr != OcrPending then None
    else
      match lease
      case Unavailable => Some(IdentityUnavailable)
      case Denied => Some(WriteAccessDenied)
      case Granted => if msg.status != Failed && DraftDeleted(db, msg.doc) then Some(NotFound) else None
  }

  /** Handle. */
  method Handle(q: Store, msg: Message, lease: Lease, t: TxId) returns (err: Option<Error>)
    requires q.Valid() && t !in q.txs
    modifies q
    ensures q.Valid() && q.State() == Run(old(q.State()), HandleSteps(old(q.State()), msg, lease, t))
    ensures err == HandleError(old(q.State()), msg, lease)
    ensures var d := msg.doc;
            var due := d in old(q.docs) && !old(q.docs)[d].deleted && old(q.docs)[d].uploadComplete
                       && old(q.docs)[d].ocr == OcrPending;
            && (!due || lease != Granted ==> q.State() == old(q.State()))
            && (err == Some(IdentityUnavailable) <==> due && lease == Unavailable)
            && (err == Some(WriteAccessDenied) <==> due && lease == Denied)
  {
    hide Inv, Next, ResultStep, WithOcr;
    ghost var begin := q.State();
    EmptyRunIs(begin);
    var d := msg.doc;
    if d !in q.docs || q.docs[d].deleted || !q.docs[d].uploadComplete || q.docs[d].ocr != OcrPending {
      return None;
    }
    if lease == Unavailable {
      return Some(IdentityUnavailable);
    }
    if lease == Denied {
      return Some(WriteAccessDenied);
    }
    OcrStatusKeepsInv(begin, d, OcrPending, OcrProcessing);
    ClaimStep(begin, d);
    SameResultStep(begin, d, msg, t);
    Evolution.RunTwo(begin, OpClaimDocument(d), ResultStep(begin, msg, t));
    var rows := q.SetOcrStatus(d, OcrPending, OcrProcessing);
    err := ApplyResult(q, msg, t);
  }

  /** Handle, after its claim. */
  method ApplyResult(q: Store, msg: Message, t: TxId) returns (err: Option<Error>)
    requires q.Valid() && t !in q.txs && msg.doc in q.docs
    modifies q
    ensures q.Valid() && q.State() == Next(old(q.State()), ResultStep(old(q.State()), msg, t))
    ensures err == if msg.status != Failed && DraftDeleted(old(q.State()), msg.doc) then Some(NotFound) else None
  {
    hide Inv, AttachItem, CreateDraft, WithOcr, MessageItem;
    ghost var claimed := q.State();
    var d := msg.doc;
    ItemIsAllowed(claimed, msg);
    if msg.status == Failed {
      OcrStatusKeepsInv(claimed, d, OcrProcessing, OcrFailed);
      var rows := q.SetOcrStatus(d, OcrProcessing, OcrFailed);
      return None;
    }
    var item := ItemFor(q.State(), msg);
    var tx := q.docs[d].tx;
    if tx.Some? {
      err := Attach(q, d, tx.value, item);
      AttachErrors(claimed, d, tx.value, item);
    } else if item.None? {
      OcrStatusKeepsInv(claimed, d, OcrProcessing, OcrNeedsReview);
      var rows := q.SetOcrStatus(d, OcrProcessing, OcrNeedsReview);
      err := None;
    } else {
      err := CreateDraftFor(q, d, t, item.value);
    }
  }

  lemma ClaimStep(db: Db, d: DocId)
    requires LiveDoc(db, d) && db.docs[d].ocr == OcrPending
    ensures Next(db, OpClaimDocument(d)) == db.(docs := db.docs[d := db.docs[d].(ocr := OcrProcessing)])
    ensures WithOcr(db, d, OcrPending, OcrProcessing) == Next(db, OpClaimDocument(d))
  {
  }

  /** The claim does not change what the handler will do with the result. */
  lemma SameResultStep(db: Db, d: DocId, msg: Message, t: TxId)
    requires msg.doc == d && d in db.docs
    ensures ResultStep(db.(docs := db.docs[d := db.docs[d].(ocr := OcrProcessing)]), msg, t) == ResultStep(db, msg, t)
  {
    hide MessageItem;
  }

  lemma EmptyRunIs(db: Db)
    ensures Run(db, []) == db
  {
  }

  lemma ItemIsAllowed(db: Db, msg: Message)
    ensures ItemFor(db, msg).Some? ==> RowAllowed(ItemFor(db, msg).value)
  {
    if ItemFor(db, msg).Some? {
      TotalItemMeaning(db.docs[msg.doc].fileName, msg.result.value);
    }
  }

  lemma BoundTx(db: Db, d: DocId)
    requires Inv(db) && d in db.docs && db.docs[d].tx.Some?
    ensures db.docs[d].tx.value in db.txs
  {
    hide LedgerOk, ChainsOk, UploadsOk, AnnouncedOk, HomesOk, SubmittedOk, RulesOk;
  }

  /** On the document's own transaction attach fails exactly when that is soft-deleted. */
  lemma AttachErrors(db: Db, d: DocId, t: TxId, item: Option<Line>)
    requires Inv(db) && d in db.docs && db.docs[d].tx == Some(t) && (item.Some? ==> RowAllowed(item.value))
    ensures t in db.txs && (AttachItem(db, d, t, item).Abort? <==> db.txs[t].deleted)
    ensures AttachItem(db, d, t, item).Abort? ==> AttachItem(db, d, t, item).error == NotFound
  {
    BoundTx(db, d);
    AttachHomes(db, d, t);
    hide Inv, ItemsInserted, Total, ItemsOf;
    if item.Some? && item.value.amount as int <= MAX_INT64 - db.txs[t].total {
      InsertFits(db, t, item.value);
    }
  }

  /** Once a delivery has been handled, any result for the document, by event or by sweep, takes no step, at any
      later point of the run. */
  lemma {:induction false} RedeliveryChangesNothing(past: seq<Op>, msg: Message, t: TxId, between: seq<Op>,
                                                    again: Message, lease: Lease, t': TxId)
    requires again.doc == msg.doc
    requires HandleSteps(Run(EMPTY, past), msg, Granted, t) != []
    ensures var db := Run(EMPTY, past);
            HandleSteps(Run(Run(db, HandleSteps(db, msg, Granted, t)), between), again, lease, t') == []
  {
    hide Inv, Run, Next, ResultStep, Evolution.TxsEvolve, Evolution.ChainsEvolve, Evolution.CallsEvolve;
    var db, d := Run(EMPTY, past), msg.doc;
    ReachableInv(past);
    var last := ResultStep(db, msg, t);
    var claimed := Next(db, OpClaimDocument(d));
    Evolution.RunTwo(db, OpClaimDocument(d), last);
    StepKeepsInv(db, OpClaimDocument(d));
    Evolution.StepEvolves(claimed, last);
    StepKeepsInv(claimed, last);
    Evolution.RunEvolves(Next(claimed, last), between);
    ClaimStep(db, d);
  }

  // ----- the sweep

  /** messageFromSnapshot: the gateway's own status is kept, without classifying the result again. */
  function SweptMessage(d: DocId, status: Extraction.Verdict, snapshot: Extracted): Message {
    Message(d, status, if status == Failed then None else Some(snapshot))
  }

  /** On the sweep path a completed snapshot yields an item exactly when it has a usable total, at any confidence. */
  lemma {:induction false} SweptItem(d: DocId, fileName: string, status: Extraction.Verdict, snapshot: Extracted)
    ensures var m := SweptMessage(d, status, snapshot);
            var item := MessageItem(fileName, m);
            && m.doc == d && m.status == status
            && (item.Some? <==> status == Completed && exists amount :: UsableTotal(snapshot, amount))
            && (item.Some? ==> ItemOf(fileName, snapshot, item.value))
  {
    TotalItemMeaning(fileName, snapshot);
    hide ItemOf, FindField, UsableTotal;
  }
}
