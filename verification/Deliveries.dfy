// What one delivery of an OCR result makes of its document, and when a claimed document stays in processing.

module Deliveries {
  import opened Tables
  import opened Ledger
  import opened Steps
  import opened Invariants
  import opened Evolution
  import opened DraftGuarantees
  import opened Extraction
  import opened OcrConsumer
  import opened OcrGuarantees
  import DocumentEffects
  import Rules

  // ----- the outcome of a whole delivery

  /** The item would become the last one of a live draft whose true total still fits. */
  ghost predicate Attachable(db: Db, t: TxId, item: Line) {
    t in db.txs && db.txs[t].status == Draft && !db.txs[t].deleted
    && Total(ItemsOf(db.items, t)) + item.amount as int <= MAX_INT64
  }

  /** The item has a place to go: its document's draft, or a project that still takes drafts. */
  ghost predicate Placeable(db: Db, d: DocId, item: Line) {
    && d in db.docs
    && match db.docs[d].tx
       case Some(t) => Attachable(db, t, item)
       case None => db.docs[d].project in db.projects && !db.projects[db.docs[d].project].archived
  }

  lemma StoredTotals(db: Db, t: TxId)
    requires Inv(db) && t in db.txs
    ensures 0 <= db.txs[t].total == Total(ItemsOf(db.items, t))
  {
    hide ChainsOk, DocsOk, UploadsOk, AnnouncedOk, HomesOk, SubmittedOk, Rules.RulesOk, Total, ItemsOf;
  }

  /** attach aborts on a deleted draft, and on an item that breaks a row check; otherwise it completes or parks. */
  lemma AttachOutcome(db: Db, d: DocId, t: TxId, item: Option<Line>)
    requires Inv(db) && LiveDoc(db, d) && db.docs[d].ocr == OcrProcessing && db.docs[d].tx == Some(t) && t in db.txs
    ensures var o := AttachItem(db, d, t, item);
            var fits := item.Some? && Attachable(db, t, item.value);
            && (o == Abort(NotFound) <==> db.txs[t].deleted)
            && (o.Commit? <==> !db.txs[t].deleted && (fits ==> RowAllowed(item.value)))
            && (o.Commit? ==> d in o.db.docs && o.db.docs[d].ocr == if fits then OcrCompleted else OcrNeedsReview)
  {
    AttachHomes(db, d, t);
    StoredTotals(db, t);
    if item.Some? {
      OneItemAccepted(db, t, item.value);
      InsertedTouches(db, t, [item.value]);
    }
    hide Inv, ItemsInserted, Total, ItemsOf;
  }

  lemma OneItemAccepted(db: Db, t: TxId, item: Line)
    requires Inv(db) && t in db.txs
    ensures ItemsInserted(db, t, [item]).Some?
            <==> RowAllowed(item) && db.txs[t].total + item.amount as int <= MAX_INT64
  {
    hide ChainsOk, DocsOk, UploadsOk, AnnouncedOk, HomesOk, SubmittedOk, Rules.RulesOk, ItemsOf;
    TotalOfOne(item);
    InsertAccepted(db, t, [item]);
    RowsOfOne(item);
  }

  lemma RowsOfOne(item: Line)
    ensures RowsAllowed([item]) <==> RowAllowed(item)
  {
    assert [item][0] == item;
  }

  lemma DraftOutcome(db: Db, d: DocId, t: TxId, item: Line)
    requires Inv(db) && LiveDoc(db, d) && db.docs[d].ocr == OcrProcessing && db.docs[d].tx.None? && t !in db.txs
    ensures var o := CreateDraft(db, d, t, item);
            && (o.Commit? <==> (Placeable(db, d, item) ==> RowAllowed(item)))
            && (o.Commit? ==> d in o.db.docs
                              && o.db.docs[d].ocr == if Placeable(db, d, item) then OcrCompleted else OcrNeedsReview)
  {
    LiveDocFacts(db, d);
    hide Inv, Total, ItemsOf;
    var p := db.docs[d].project;
    var row := Tx(db.projects[p].org, p, Draft, Header(None, CURRENCY_IDR, None), 0, 1, db.docs[d].uploadedBy, false);
    if RowAllowed(item) {
      NewDraftFits(db, t, row, item);
    }
    RowsOfOne(item);
    InsertedTouches(db.(txs := db.txs[t := row]), t, [item]);
  }

  /** What a delivery that nothing interleaves with makes of a pending document. It fails, completes or parks the
      document in every case but one: a usable or parkable result for a draft that has been deleted aborts after
      its claim and leaves the document in processing. */
  lemma {:induction false} HandledOutcome(past: seq<Op>, msg: Message, t: TxId)
    requires LiveDoc(Run(EMPTY, past), msg.doc) && Run(EMPTY, past).docs[msg.doc].ocr == OcrPending
    requires t !in Run(EMPTY, past).txs
    ensures var db, d := Run(EMPTY, past), msg.doc;
            var after := Run(db, HandleSteps(db, msg, Granted, t));
            && d in after.docs && after.docs[d].ocr != OcrPending
            && (after.docs[d].ocr == OcrFailed <==> msg.status == Failed)
            && (after.docs[d].ocr == OcrProcessing <==> msg.status != Failed && DraftDeleted(db, d))
            && (after.docs[d].ocr == OcrCompleted
                <==> ItemFor(db, msg).Some? && Placeable(db, d, ItemFor(db, msg).value))
  {
    hide Run, Inv, Next;
    var db, d := Run(EMPTY, past), msg.doc;
    ReachableInv(past);
    RunTwo(db, OpClaimDocument(d), ResultStep(db, msg, t));
    ClaimStep(db, d);
    StepKeepsInv(db, OpClaimDocument(d));
    ResultOutcome(db, Next(db, OpClaimDocument(d)), msg, t);
  }

  /** After is before with the item in the document's draft, or in a new rupiah draft t of the uploader in the
      document's project, the document completed and bound to it, and the one event of that; nothing else differs. */
  ghost predicate ItemPlaced(before: Db, after: Db, d: DocId, t: TxId, item: Line) {
    && d in before.docs
    && var row, amount := before.docs[d], item.amount as int;
       match row.tx
       case Some(u) =>
         && u in before.txs
         && var total := before.txs[u].total + amount;
            after == before.(items := before.items + [Item(u, item)],
                             txs := before.txs[u := before.txs[u].(total := total,
                                                                   version := before.txs[u].version + 1)],
                             docs := before.docs[d := row.(ocr := OcrCompleted)],
                             events := before.events + [TransactionUpdated(u, total, Ocr)])
       case None =>
         && row.project in before.projects && t !in before.txs
         && after == before.(items := before.items + [Item(t, item)],
                             txs := before.txs[t := Tx(before.projects[row.project].org, row.project, Draft,
                                                       Header(None, "IDR", None), amount, 2, row.uploadedBy, false)],
                             docs := before.docs[d := row.(tx := Some(t), ocr := OcrCompleted)],
                             events := before.events + [TransactionCreated(t, amount)])
  }

  lemma AttachPlaces(db: Db, claimed: Db, d: DocId, u: TxId, t: TxId, found: Option<Line>, after: Db)
    requires Inv(claimed) && d in db.docs && db.docs[d].tx == Some(u)
    requires claimed == db.(docs := db.docs[d := db.docs[d].(ocr := OcrProcessing)])
    requires AttachItem(claimed, d, u, found) == Commit(after) && d in after.docs && after.docs[d].ocr == OcrCompleted
    ensures found.Some? && ItemPlaced(db, after, d, t, found.value)
  {
    hide Inv, AttachItem;
    DocumentEffects.AttachWrites(claimed, d, u, found, after);
    var row := db.docs[d];
    assert claimed.docs[d := row.(ocr := OcrCompleted)] == db.docs[d := row.(ocr := OcrCompleted)];
  }

  lemma DraftPlaces(db: Db, claimed: Db, d: DocId, t: TxId, item: Line, after: Db)
    requires Inv(claimed) && d in db.docs && db.docs[d].tx.None?
    requires claimed == db.(docs := db.docs[d := db.docs[d].(ocr := OcrProcessing)])
    requires CreateDraft(claimed, d, t, item) == Commit(after) && d in after.docs && after.docs[d].ocr == OcrCompleted
    ensures ItemPlaced(db, after, d, t, item)
  {
    hide Inv, CreateDraft;
    DocumentEffects.DraftWrites(claimed, d, t, item, after);
    var row := db.docs[d].(tx := Some(t), ocr := OcrCompleted);
    assert claimed.docs[d := row] == db.docs[d := row];
  }

  /** A document completes by an attach or a draft creation only. */
  lemma CompletedBy(claimed: Db, msg: Message, t: TxId)
    requires msg.doc in claimed.docs && claimed.docs[msg.doc].ocr == OcrProcessing
    requires var after := Next(claimed, ResultStep(claimed, msg, t));
             msg.doc in after.docs && after.docs[msg.doc].ocr == OcrCompleted
    ensures var tx, item := claimed.docs[msg.doc].tx, ItemFor(claimed, msg);
            var after := Next(claimed, ResultStep(claimed, msg, t));
            && (tx.Some? ==> AttachItem(claimed, msg.doc, tx.value, item) == Commit(after))
            && (tx.None? ==> item.Some? && CreateDraft(claimed, msg.doc, t, item.value) == Commit(after))
  {
    hide CreateProject, ArchiveProject, UnarchiveProject, DeleteProject, ReserveUpload, StoreObject, CompleteUpload;
    hide CreateRule, UpdateRule, DeleteRule, InsertDefaultRule, ReassignRules, DeleteDocument, ItemFor;
    hide UpdateTransaction, SoftDeleteTransaction, Submit, Decide, AttachItem, CreateDraft;
  }

  lemma ResultWrites(db: Db, claimed: Db, msg: Message, t: TxId) returns (item: Line)
    requires Inv(claimed) && LiveDoc(db, msg.doc) && t !in db.txs
    requires claimed == db.(docs := db.docs[msg.doc := db.docs[msg.doc].(ocr := OcrProcessing)])
    requires var after := Next(claimed, ResultStep(db, msg, t));
             msg.doc in after.docs && after.docs[msg.doc].ocr == OcrCompleted
    ensures msg.status == Completed && msg.result.Some?
    ensures ItemOf(db.docs[msg.doc].fileName, msg.result.value, item)
    ensures ItemPlaced(db, Next(claimed, ResultStep(db, msg, t)), msg.doc, t, item)
  {
    SameResultStep(db, msg.doc, msg, t);
    hide Next, ResultStep, AttachItem, CreateDraft, Inv, ItemOf, ItemPlaced;
    var d, found := msg.doc, ItemFor(db, msg);
    var after := Next(claimed, ResultStep(db, msg, t));
    CompletedBy(claimed, msg, t);
    if db.docs[d].tx.Some? {
      AttachPlaces(db, claimed, d, db.docs[d].tx.value, t, found, after);
    } else {
      DraftPlaces(db, claimed, d, t, found.value, after);
    }
    item := found.value;
    TotalItemMeaning(db.docs[d].fileName, msg.result.value);
  }

  /** What a delivery writes when it completes its document: the item its result is worth, in its place. */
  lemma {:induction false} DeliveryWrites(past: seq<Op>, msg: Message, t: TxId) returns (item: Line)
    requires LiveDoc(Run(EMPTY, past), msg.doc) && Run(EMPTY, past).docs[msg.doc].ocr == OcrPending
    requires t !in Run(EMPTY, past).txs
    requires var db := Run(EMPTY, past);
             var after := Run(db, HandleSteps(db, msg, Granted, t));
             msg.doc in after.docs && after.docs[msg.doc].ocr == OcrCompleted
    ensures msg.status == Completed && msg.result.Some?
    ensures var db := Run(EMPTY, past);
            && ItemOf(db.docs[msg.doc].fileName, msg.result.value, item)
            && ItemPlaced(db, Run(db, HandleSteps(db, msg, Granted, t)), msg.doc, t, item)
  {
    hide Run, Inv, Next, ResultStep, ItemPlaced, ItemOf;
    var db, d := Run(EMPTY, past), msg.doc;
    ReachableInv(past);
    RunTwo(db, OpClaimDocument(d), ResultStep(db, msg, t));
    ClaimStep(db, d);
    StepKeepsInv(db, OpClaimDocument(d));
    item := ResultWrites(db, Next(db, OpClaimDocument(d)), msg, t);
  }

  lemma ResultOutcome(db: Db, claimed: Db, msg: Message, t: TxId)
    requires Inv(claimed) && LiveDoc(db, msg.doc) && t !in db.txs
    requires claimed == db.(docs := db.docs[msg.doc := db.docs[msg.doc].(ocr := OcrProcessing)])
    ensures var d, after := msg.doc, Next(claimed, ResultStep(db, msg, t));
            && d in after.docs && after.docs[d].ocr != OcrPending
            && (after.docs[d].ocr == OcrFailed <==> msg.status == Failed)
            && (after.docs[d].ocr == OcrProcessing <==> msg.status != Failed && DraftDeleted(db, d))
            && (after.docs[d].ocr == OcrCompleted
                <==> ItemFor(db, msg).Some? && Placeable(db, d, ItemFor(db, msg).value))
  {
    hide CreateProject, ArchiveProject, UnarchiveProject, DeleteProject, ReserveUpload, StoreObject, CompleteUpload;
    hide CreateRule, UpdateRule, DeleteRule, InsertDefaultRule, ReassignRules, DeleteDocument;
    hide UpdateTransaction, SoftDeleteTransaction, Submit, Decide, AttachItem, CreateDraft, Attachable;
    hide Inv, ItemFor;
    var d := msg.doc;
    var item := ItemFor(db, msg);
    ItemIsAllowed(db, msg);
    NoItemIfFailed(db, msg);
    if msg.status != Failed {
      if db.docs[d].tx.Some? {
        BoundTx(claimed, d);
        AttachOutcome(claimed, d, db.docs[d].tx.value, item);
        SameAttachable(db, claimed, db.docs[d].tx.value, item);
      } else if item.Some? {
        LiveDocFacts(claimed, d);
        DraftOutcome(claimed, d, t, item.value);
      }
    }
  }

  lemma NoItemIfFailed(db: Db, msg: Message)
    ensures msg.status == Failed ==> ItemFor(db, msg).None?
  {
  }

  lemma SameAttachable(a: Db, b: Db, t: TxId, item: Option<Line>)
    requires a.txs == b.txs && a.items == b.items
    ensures item.Some? ==> Attachable(a, t, item.value) == Attachable(b, t, item.value)
    ensures item.Some? && Attachable(a, t, item.value) ==> t in a.txs && !a.txs[t].deleted
  {
  }

  // ----- claimed and left behind

  /** A result step that takes document d out of processing. */
  ghost predicate Effective(db: Db, op: Op, d: DocId) {
    && LiveDoc(db, d) && db.docs[d].ocr == OcrProcessing
    && match op
       case OpFailDocument(e) => e == d
       case OpParkDocument(e) => e == d
       case OpAttachItem(e, t, item) =>
         && e == d && db.docs[d].tx == Some(t) && t in db.txs && !db.txs[t].deleted
         && (item.Some? && Attachable(db, t, item.value) ==> RowAllowed(item.value))
       case OpCreateDraft(e, t, line) =>
         && e == d && db.docs[d].tx.None? && t !in db.txs && (Placeable(db, d, line) ==> RowAllowed(line))
       case _ => false
  }

  /** A document leaves processing exactly by an effective step, and then for good. */
  lemma LeavesProcessing(db: Db, op: Op, d: DocId)
    requires Inv(db) && d in db.docs && db.docs[d].ocr == OcrProcessing
    ensures d in Next(db, op).docs && (Next(db, op).docs[d].ocr != OcrProcessing <==> Effective(db, op, d))
    ensures Effective(db, op, d) ==> OcrFinal(Next(db, op).docs[d].ocr)
  {
    hide Next, Inv, Placeable, Attachable;
    if OcrOp(op) {
      ResultLeaves(db, op, d);
    } else {
      OthersKeepStatus(db, op, d);
    }
  }

  lemma ResultLeaves(db: Db, op: Op, d: DocId)
    requires Inv(db) && d in db.docs && db.docs[d].ocr == OcrProcessing && OcrOp(op)
    ensures d in Next(db, op).docs && (Next(db, op).docs[d].ocr != OcrProcessing <==> Effective(db, op, d))
    ensures Effective(db, op, d) ==> OcrFinal(Next(db, op).docs[d].ocr)
  {
    hide CreateProject, ArchiveProject, UnarchiveProject, DeleteProject, ReserveUpload, StoreObject, CompleteUpload;
    hide CreateRule, UpdateRule, DeleteRule, InsertDefaultRule, ReassignRules, DeleteDocument, Effective;
    hide UpdateTransaction, SoftDeleteTransaction, Submit, Decide, AttachItem, CreateDraft, Inv;
    match op
    case OpAttachItem(e, t, item) => AttachLeaves(db, d, e, t, item);
    case OpCreateDraft(e, t, line) => DraftLeaves(db, d, e, t, line);
    case _ => StatusLeaves(db, op, d);
  }

  lemma StatusLeaves(db: Db, op: Op, d: DocId)
    requires d in db.docs && db.docs[d].ocr == OcrProcessing
    requires op.OpClaimDocument? || op.OpFailDocument? || op.OpParkDocument?
    ensures d in Next(db, op).docs && (Next(db, op).docs[d].ocr != OcrProcessing <==> Effective(db, op, d))
    ensures Effective(db, op, d) ==> OcrFinal(Next(db, op).docs[d].ocr)
  {
    hide CreateProject, ArchiveProject, UnarchiveProject, DeleteProject, ReserveUpload, StoreObject, CompleteUpload;
    hide CreateRule, UpdateRule, DeleteRule, InsertDefaultRule, ReassignRules, DeleteDocument;
    hide UpdateTransaction, SoftDeleteTransaction, Submit, Decide, AttachItem, CreateDraft;
  }

  lemma AttachLeaves(db: Db, d: DocId, e: DocId, t: TxId, item: Option<Line>)
    requires Inv(db) && d in db.docs && db.docs[d].ocr == OcrProcessing
    ensures var after := After(db, AttachItem(db, e, t, item));
            && d in after.docs
            && (after.docs[d].ocr != OcrProcessing <==> Effective(db, OpAttachItem(e, t, item), d))
            && (after.docs[d].ocr != OcrProcessing ==> OcrFinal(after.docs[d].ocr))
  {
    hide Inv, Attachable, ItemsInserted;
    if t in db.txs && item.Some? {
      InsertedTouches(db, t, [item.value]);
    }
    if e == d && LiveDoc(db, d) && db.docs[d].tx == Some(t) && t in db.txs {
      AttachOutcome(db, d, t, item);
    }
  }

  lemma DraftLeaves(db: Db, d: DocId, e: DocId, t: TxId, line: Line)
    requires Inv(db) && d in db.docs && db.docs[d].ocr == OcrProcessing
    ensures var after := After(db, CreateDraft(db, e, t, line));
            && d in after.docs
            && (after.docs[d].ocr != OcrProcessing <==> Effective(db, OpCreateDraft(e, t, line), d))
            && (after.docs[d].ocr != OcrProcessing ==> OcrFinal(after.docs[d].ocr))
  {
    hide Inv, Placeable, ItemsInserted;
    if LiveDoc(db, e) && db.docs[e].project in db.projects {
      var p := db.docs[e].project;
      var row := Tx(db.projects[p].org, p, Draft, Header(None, CURRENCY_IDR, None), 0, 1, db.docs[e].uploadedBy, false);
      InsertedTouches(db.(txs := db.txs[t := row]), t, [line]);
    }
    if e == d && LiveDoc(db, d) && db.docs[d].tx.None? && t !in db.txs {
      DraftOutcome(db, d, t, line);
    }
  }

  lemma OthersKeepStatus(db: Db, op: Op, d: DocId)
    requires !OcrOp(op) && d in db.docs
    ensures d in Next(db, op).docs && Next(db, op).docs[d].ocr == db.docs[d].ocr
  {
    if TransactionOp(op) {
      TransactionCompletesNothing(db, op);
    } else if UploadOp(op) {
      UploadIsQuiet(db, op);
    } else {
      RestCompletesNothing(db, op);
    }
    hide Next;
  }

  /** Whatever else runs, a document that was claimed stays in processing exactly as long as no effective result
      step for it runs. Meanwhile every delivery for it, by event or by sweep, takes no step. */
  lemma {:induction false} StaysProcessing(past: seq<Op>, future: seq<Op>, d: DocId)
    requires d in Run(EMPTY, past).docs && Run(EMPTY, past).docs[d].ocr == OcrProcessing
    ensures var a, b := Run(EMPTY, past), Run(Run(EMPTY, past), future);
            && d in b.docs
            && (b.docs[d].ocr == OcrProcessing
                <==> forall k | 0 <= k < |future| :: !Effective(Run(a, future[..k]), future[k], d))
            && (b.docs[d].ocr == OcrProcessing ==>
                  forall msg: Message, lease, t | msg.doc == d :: HandleSteps(b, msg, lease, t) == [])
  {
    hide Run, Inv;
    ReachableInv(past);
    StaysFrom(Run(EMPTY, past), future, d);
  }

  ghost predicate NoneEffective(a: Db, ops: seq<Op>, d: DocId) {
    forall k | 0 <= k < |ops| :: !Effective(Run(a, ops[..k]), ops[k], d)
  }

  lemma OneMoreEffective(a: Db, ops: seq<Op>, d: DocId)
    requires ops != []
    ensures var n := |ops| - 1;
            NoneEffective(a, ops, d) <==> NoneEffective(a, ops[..n], d) && !Effective(Run(a, ops[..n]), ops[n], d)
  {
    hide Effective, Run;
    var front := ops[..|ops| - 1];
    assert forall k | 0 <= k < |front| :: ops[..k] == front[..k] && ops[k] == front[k];
  }

  lemma {:induction false} StaysFrom(a: Db, future: seq<Op>, d: DocId)
    requires Inv(a) && d in a.docs && a.docs[d].ocr == OcrProcessing
    ensures var b := Run(a, future);
            d in b.docs && (b.docs[d].ocr == OcrProcessing || OcrFinal(b.docs[d].ocr))
    ensures Run(a, future).docs[d].ocr == OcrProcessing <==> NoneEffective(a, future, d)
  {
    hide Inv, Next, Effective;
    if future != [] {
      var n := |future| - 1;
      var front := future[..n];
      var before := Run(a, front);
      assert Run(a, future) == Next(before, future[n]);
      OneMoreEffective(a, future, d);
      hide Run, Evolves, NoneEffective;
      StaysFrom(a, front, d);
      RunKeepsInv(a, front);
      if before.docs[d].ocr == OcrProcessing {
        LeavesProcessing(before, future[n], d);
      } else {
        StepEvolves(before, future[n]);
        StaysFinal(before, Next(before, future[n]), d);
      }
    }
  }

  lemma StaysFinal(a: Db, b: Db, d: DocId)
    requires Evolves(a, b) && d in a.docs && OcrFinal(a.docs[d].ocr)
    ensures d in b.docs && b.docs[d].ocr == a.docs[d].ocr
  {
    hide TxsEvolve, ChainsEvolve, CallsEvolve;
  }
}
