// How one database relates to a later one of the same run.

module Evolution {
  import opened Tables
  import opened Ledger
  import opened Rules
  import opened Steps
  import opened Invariants
  import Chain

  // ----- the relation, table group by table group

  function Rank(s: Status): nat {
    match s
    case Draft => 0
    case PendingApproval => 1
    case Approved => 2
    case Rejected => 2
  }

  /** A row later in the run: its home is fixed, statuses only move forward, and a row that has been
      submitted or deleted keeps its header, its total and its life. */
  ghost predicate RowEvolves(a: Tx, b: Tx) {
    && a.org == b.org && a.project == b.project && a.createdBy == b.createdBy
    && a.version <= b.version
    && (a.version == b.version ==> a == b)
    && (Rank(a.status) < Rank(b.status) || a.status == b.status)
    && (a.status != Draft ==> a.header == b.header && a.total == b.total && a.deleted == b.deleted)
    && (a.deleted ==> a == b)
  }

  /** What the version column and the status protect beside the row: items and live documents. */
  ghost predicate TxsEvolve(txs: map<TxId, Tx>, items: seq<Item>, docs: map<DocId, Doc>,
                            txs': map<TxId, Tx>, items': seq<Item>, docs': map<DocId, Doc>) {
    forall t | t in txs ::
      && t in txs' && RowEvolves(txs[t], txs'[t])
      && (txs[t].version == txs'[t].version || txs[t].status != Draft || txs[t].deleted
          ==> ItemsOf(items', t) == ItemsOf(items, t))
      && (txs[t].status != Draft ==> LiveDocs(docs', t) == LiveDocs(docs, t))
  }

  /** Approvals keep their columns, are activated once and cancelled once; decisions only accumulate. */
  ghost predicate ChainsEvolve(ap: seq<Approval>, ds: seq<Decision>, ap': seq<Approval>, ds': seq<Decision>) {
    && |ap| <= |ap'| && ds <= ds'
    && (forall i | 0 <= i < |ap| ::
          && ap'[i].tx == ap[i].tx && ap'[i].approver == ap[i].approver && ap'[i].step == ap[i].step
          && (ap[i].activatedAt.Some? ==> ap'[i].activatedAt == ap[i].activatedAt)
          && (ap[i].cancelledAt.Some? ==> ap'[i].cancelledAt == ap[i].cancelledAt))
  }

  predicate OcrFinal(s: OcrStatus) {
    s == OcrCompleted || s == OcrNeedsReview || s == OcrFailed
  }

  ghost predicate DocsEvolve(docs: map<DocId, Doc>, docs': map<DocId, Doc>) {
    forall d | d in docs ::
      && d in docs' && SameUpload(docs[d], docs'[d])
      && (docs[d].deleted ==> docs'[d] == docs[d])
      && (OcrFinal(docs[d].ocr) ==> docs'[d].ocr == docs[d].ocr && docs'[d].tx == docs[d].tx)
      && (docs[d].ocr == OcrProcessing ==> docs'[d].ocr != OcrPending)
  }

  ghost predicate CallsEvolve(calls: map<CallId, Call>, calls': map<CallId, Call>) {
    forall c | c in calls ::
      && c in calls' && calls'[c].actor == calls[c].actor && calls'[c].upload == calls[c].upload
      && calls'[c].doc == calls[c].doc && (calls[c].phase == Returned ==> calls'[c].phase == Returned)
  }

  ghost predicate Evolves(a: Db, b: Db) {
    && TxsEvolve(a.txs, a.items, a.docs, b.txs, b.items, b.docs)
    && ChainsEvolve(a.approvals, a.decisions, b.approvals, b.decisions)
    && DocsEvolve(a.docs, b.docs)
    && CallsEvolve(a.calls, b.calls)
    && a.events <= b.events
  }

  lemma EvolvesReflexive(a: Db)
    ensures Evolves(a, a)
  {
  }

  lemma TxsEvolveTransitive(a: Db, b: Db, c: Db)
    requires TxsEvolve(a.txs, a.items, a.docs, b.txs, b.items, b.docs)
    requires TxsEvolve(b.txs, b.items, b.docs, c.txs, c.items, c.docs)
    ensures TxsEvolve(a.txs, a.items, a.docs, c.txs, c.items, c.docs)
  {
    hide ItemsOf, LiveDocs;
    forall t | t in a.txs
      ensures t in c.txs && RowEvolves(a.txs[t], c.txs[t])
      ensures a.txs[t].version == c.txs[t].version || a.txs[t].status != Draft || a.txs[t].deleted
              ==> ItemsOf(c.items, t) == ItemsOf(a.items, t)
      ensures a.txs[t].status != Draft ==> LiveDocs(c.docs, t) == LiveDocs(a.docs, t)
    {
      assert t in b.txs;
    }
  }

  lemma EvolvesTransitive(a: Db, b: Db, c: Db)
    requires Evolves(a, b) && Evolves(b, c)
    ensures Evolves(a, c)
  {
    TxsEvolveTransitive(a, b, c);
    DocsEvolveTransitive(a.docs, b.docs, c.docs);
    hide TxsEvolve, DocsEvolve;
  }

  lemma DocsEvolveTransitive(a: map<DocId, Doc>, b: map<DocId, Doc>, c: map<DocId, Doc>)
    requires DocsEvolve(a, b) && DocsEvolve(b, c)
    ensures DocsEvolve(a, c)
  {
  }

  // ----- one row, one document, one call

  /** Any rewrite of a live draft that raises its version, next to other transactions' items. */
  lemma DraftWriteEvolves(txs: map<TxId, Tx>, items: seq<Item>, docs: map<DocId, Doc>, t: TxId, row: Tx,
                          items': seq<Item>)
    requires t in txs && txs[t].status == Draft && !txs[t].deleted
    requires row.org == txs[t].org && row.project == txs[t].project && row.createdBy == txs[t].createdBy
    requires row.version > txs[t].version
    requires forall u | u != t :: ItemsOf(items', u) == ItemsOf(items, u)
    ensures TxsEvolve(txs, items, docs, txs[t := row], items', docs)
  {
    hide ItemsOf, LiveDocs;
  }

  lemma StatusWriteEvolves(txs: map<TxId, Tx>, items: seq<Item>, docs: map<DocId, Doc>, t: TxId, s: Status)
    requires t in txs && !txs[t].deleted && Rank(txs[t].status) < Rank(s)
    ensures TxsEvolve(txs, items, docs, Written(txs, t, txs[t].(status := s)), items, docs)
  {
    hide ItemsOf, LiveDocs;
  }

  lemma NewTxEvolves(txs: map<TxId, Tx>, items: seq<Item>, docs: map<DocId, Doc>, t: TxId, row: Tx, items': seq<Item>)
    requires t !in txs && forall u | u != t :: ItemsOf(items', u) == ItemsOf(items, u)
    ensures TxsEvolve(txs, items, docs, txs[t := row], items', docs)
  {
    hide ItemsOf, LiveDocs;
  }

  /** A document row may change as long as no submitted transaction's live documents do. */
  lemma DocWriteEvolves(txs: map<TxId, Tx>, items: seq<Item>, docs: map<DocId, Doc>, d: DocId, row: Doc)
    requires forall t | t in txs && txs[t].status != Draft ::
             (d in LiveDocs(docs[d := row], t) <==> d in LiveDocs(docs, t))
    ensures TxsEvolve(txs, items, docs, txs, items, docs[d := row])
  {
    hide ItemsOf;
    forall t | t in txs && txs[t].status != Draft ensures LiveDocs(docs[d := row], t) == LiveDocs(docs, t) {
    }
  }

  lemma OthersKeepItems(db: Db, t: TxId, lines: seq<Line>)
    requires t in db.txs
    ensures forall u | u != t :: ItemsOf(ItemsDeleted(db, t).items, u) == ItemsOf(db.items, u)
    ensures ItemsInserted(db, t, lines).Some? ==>
              forall u | u != t :: ItemsOf(ItemsInserted(db, t, lines).value.items, u) == ItemsOf(db.items, u)
  {
    forall u | u != t
      ensures ItemsOf(Without(db.items, t), u) == ItemsOf(db.items, u)
      ensures ItemsOf(db.items + Tagged(t, lines), u) == ItemsOf(db.items, u)
    {
      ItemsOfWithout(db.items, t, u);
      ItemsOfInsert(db.items, t, lines, u);
    }
  }

  // ----- steps

  lemma UpdateEvolves(db: Db, actor: Actor, t: TxId, header: Header, items: Option<seq<Line>>, expected: int)
    requires Inv(db)
    ensures Evolves(db, After(db, UpdateTransaction(db, actor, t, header, items, expected)))
  {
    hide Inv, ItemsInserted, ItemsDeleted, TxsEvolve;
    var o := UpdateTransaction(db, actor, t, header, items, expected);
    EvolvesReflexive(db);
    if o.Commit? {
      var row := db.txs[t].(header := header, version := db.txs[t].version + 1);
      var edited := db.(txs := db.txs[t := row]);
      if items.Some? {
        ReplacedTouches(db, t, row, items.value);
        ReplacedEvolves(edited, t, items.value);
      }
      DraftWriteEvolves(db.txs, db.items, db.docs, t, o.db.txs[t], o.db.items);
    }
  }

  lemma ReplacedEvolves(db: Db, t: TxId, lines: seq<Line>)
    requires t in db.txs
    ensures var r := ItemsInserted(ItemsDeleted(db, t), t, lines);
            r.Some? ==> && t in r.value.txs && r.value.txs[t].version >= db.txs[t].version
                        && r.value.txs[t].createdBy == db.txs[t].createdBy
                        && forall u | u != t :: ItemsOf(r.value.items, u) == ItemsOf(db.items, u)
  {
    OthersKeepItems(db, t, lines);
    OthersKeepItems(ItemsDeleted(db, t), t, lines);
    hide Total, ItemsOf, Without;
  }

  lemma SoftDeleteEvolves(db: Db, actor: Actor, t: TxId)
    ensures Evolves(db, After(db, SoftDeleteTransaction(db, actor, t)))
  {
    hide TxsEvolve;
    EvolvesReflexive(db);
    var o := SoftDeleteTransaction(db, actor, t);
    if o.Commit? {
      DraftWriteEvolves(db.txs, db.items, db.docs, t, o.db.txs[t], db.items);
    }
  }

  lemma SubmitEvolves(db: Db, actor: Actor, t: TxId, known: set<UserId>, now: Time)
    ensures Evolves(db, After(db, Submit(db, actor, t, known, now)))
  {
    hide TxsEvolve, Resolve;
    EvolvesReflexive(db);
    var o := Submit(db, actor, t, known, now);
    if o.Commit? {
      StatusWriteEvolves(db.txs, db.items, db.docs, t, PendingApproval);
    }
  }

  lemma DecidedEvolves(ap: seq<Approval>, ds: seq<Decision>, t: TxId, i: nat, user: UserId, v: Verdict, now: Time)
    ensures var b := Chain.Decided(ap, ds, t, i, user, v, now);
            ChainsEvolve(ap, ds, b.approvals, b.decisions) && Rank(b.status) >= 1
  {
  }

  lemma DecideEvolves(db: Db, actor: Actor, i: nat, v: Verdict, active: bool, now: Time)
    requires Inv(db)
    ensures Evolves(db, After(db, Decide(db, actor, i, v, active, now)))
  {
    hide TxsEvolve, ChainsEvolve, LedgerOk, ChainsOk, DocsOk, UploadsOk, AnnouncedOk, HomesOk, SubmittedOk, RulesOk;
    hide Chain.Decided, Chain.NextMove;
    EvolvesReflexive(db);
    var o := Decide(db, actor, i, v, active, now);
    if o.Commit? {
      var t := db.approvals[i].tx;
      var b := Chain.Decided(db.approvals, db.decisions, t, i, actor.user, v, now);
      DecidedEvolves(db.approvals, db.decisions, t, i, actor.user, v, now);
      PendingIsLive(db, t);
      if b.status != PendingApproval {
        StatusWriteEvolves(db.txs, db.items, db.docs, t, b.status);
      }
    }
  }

  lemma ReserveEvolves(db: Db, call: CallId, actor: Actor, u: Upload, newDoc: DocId)
    ensures Evolves(db, After(db, ReserveUpload(db, call, actor, u, newDoc)))
  {
    hide TxsEvolve, ChainsEvolve;
    EvolvesReflexive(db);
    var o := ReserveUpload(db, call, actor, u, newDoc);
    if o.Commit? && newDoc in o.db.docs {
      DocWriteEvolves(db.txs, db.items, db.docs, newDoc, o.db.docs[newDoc]);
    }
  }

  lemma StoreEvolves(db: Db, call: CallId)
    ensures Evolves(db, After(db, StoreObject(db, call)))
  {
    hide TxsEvolve, ChainsEvolve;
    EvolvesReflexive(db);
  }

  /** Only a document of a draft, or of no transaction, becomes complete. */
  lemma CompleteEvolves(db: Db, call: CallId)
    requires Inv(db)
    ensures Evolves(db, After(db, CompleteUpload(db, call)))
  {
    hide TxsEvolve, ChainsEvolve, LedgerOk, ChainsOk, DocsOk, UploadsOk, AnnouncedOk, HomesOk, SubmittedOk, RulesOk;
    EvolvesReflexive(db);
    var o := CompleteUpload(db, call);
    if o.Commit? && o.db.docs != db.docs {
      CallFacts(db, call);
      var d := db.calls[call].doc;
      DocWriteEvolves(db.txs, db.items, db.docs, d, o.db.docs[d]);
    }
  }

  /** A document edit that keeps its life, its completeness and its binding once it has one. */
  lemma LiveDocEditEvolves(db: Db, d: DocId, row: Doc)
    requires LiveDoc(db, d) && SameUpload(db.docs[d], row) && row.deleted == db.docs[d].deleted
    requires !OcrFinal(db.docs[d].ocr)
    requires db.docs[d].ocr == OcrProcessing ==> row.ocr != OcrPending
    requires row.tx == db.docs[d].tx || (row.tx.Some? && row.tx.value in db.txs && db.txs[row.tx.value].status == Draft)
    ensures Evolves(db, db.(docs := db.docs[d := row]))
  {
    hide TxsEvolve, ChainsEvolve;
    EvolvesReflexive(db);
    DocWriteEvolves(db.txs, db.items, db.docs, d, row);
  }

  lemma DeleteDocumentEvolves(db: Db, actor: Actor, d: DocId, seen: Option<TxId>)
    ensures Evolves(db, After(db, DeleteDocument(db, actor, d, seen)))
  {
    hide TxsEvolve, ChainsEvolve;
    EvolvesReflexive(db);
    var o := DeleteDocument(db, actor, d, seen);
    if o.Commit? {
      DocWriteEvolves(db.txs, db.items, db.docs, d, o.db.docs[d]);
    }
  }

  lemma OcrStatusEvolves(db: Db, d: DocId, from: OcrStatus, to: OcrStatus)
    requires !OcrFinal(from) && to != OcrPending
    ensures Evolves(db, WithOcr(db, d, from, to))
  {
    hide Evolves;
    EvolvesReflexive(db);
    if LiveDoc(db, d) && db.docs[d].ocr == from {
      LiveDocEditEvolves(db, d, db.docs[d].(ocr := to));
    }
  }

  /** The item write of attach and of createDraft, up to the document row. */
  lemma InsertedEvolves(db: Db, t: TxId, line: Line)
    requires t in db.txs && db.txs[t].status == Draft && !db.txs[t].deleted
    ensures var r := ItemsInserted(db, t, [line]); r.Some? ==> Evolves(db, r.value)
  {
    hide TxsEvolve, ChainsEvolve, Total, ItemsOf;
    EvolvesReflexive(db);
    var r := ItemsInserted(db, t, [line]);
    if r.Some? {
      OthersKeepItems(db, t, [line]);
      DraftWriteEvolves(db.txs, db.items, db.docs, t, r.value.txs[t], r.value.items);
    }
  }

  lemma EmittedEvolves(a: Db, b: Db, e: Event)
    requires Evolves(a, b)
    ensures Evolves(a, Emit(b, e))
  {
    hide TxsEvolve, ChainsEvolve, DocsEvolve, CallsEvolve;
  }

  lemma AttachEvolves(db: Db, d: DocId, t: TxId, item: Option<Line>)
    ensures Evolves(db, After(db, AttachItem(db, d, t, item)))
  {
    hide Evolves, ItemsInserted;
    EvolvesReflexive(db);
    OcrStatusEvolves(db, d, OcrProcessing, OcrNeedsReview);
    if t in db.txs && !db.txs[t].deleted && LiveDoc(db, d) && db.docs[d].ocr == OcrProcessing
        && db.docs[d].tx == Some(t)
       && db.txs[t].status == Draft && item.Some? && ItemsInserted(db, t, [item.value]).Some? {
      var r := ItemsInserted(db, t, [item.value]).value;
      InsertedEvolves(db, t, item.value);
      InsertedTouches(db, t, [item.value]);
      LiveDocEditEvolves(r, d, Bound(r, d, t).docs[d]);
      EvolvesTransitive(db, r, Bound(r, d, t));
      EmittedEvolves(db, Bound(r, d, t), TransactionUpdated(t, r.txs[t].total, Ocr));
    }
  }

  lemma CreateDraftEvolves(db: Db, d: DocId, t: TxId, item: Line)
    ensures Evolves(db, After(db, CreateDraft(db, d, t, item)))
  {
    hide Evolves, ItemsInserted;
    EvolvesReflexive(db);
    OcrStatusEvolves(db, d, OcrProcessing, OcrNeedsReview);
    if t !in db.txs && LiveDoc(db, d) && db.docs[d].ocr == OcrProcessing && db.docs[d].tx.None? {
      var p := db.docs[d].project;
      if p in db.projects && !db.projects[p].deleted && !db.projects[p].archived {
        var row := Tx(db.projects[p].org, p, Draft, Header(None, CURRENCY_IDR, None), 0, 1, db.docs[d].uploadedBy,
                      false);
        var begun := db.(txs := db.txs[t := row]);
        OpenedEvolves(db, t, row);
        if ItemsInserted(begun, t, [item]).Some? {
          var r := ItemsInserted(begun, t, [item]).value;
          InsertedEvolves(begun, t, item);
          InsertedTouches(begun, t, [item]);
          EvolvesTransitive(db, begun, r);
          LiveDocEditEvolves(r, d, Bound(r, d, t).docs[d]);
          EvolvesTransitive(db, r, Bound(r, d, t));
          EmittedEvolves(db, Bound(r, d, t), TransactionCreated(t, r.txs[t].total));
        }
      }
    }
  }

  lemma OpenedEvolves(db: Db, t: TxId, row: Tx)
    requires t !in db.txs
    ensures Evolves(db, db.(txs := db.txs[t := row]))
  {
    hide TxsEvolve, ChainsEvolve;
    EvolvesReflexive(db);
    NewTxEvolves(db.txs, db.items, db.docs, t, row, db.items);
  }

  /** Steps that leave transactions, items, approvals, documents and calls alone. */
  lemma OtherStepEvolves(db: Db, op: Op)
    requires op.OpCreateProject? || op.OpArchiveProject? || op.OpUnarchiveProject? || op.OpDeleteProject?
             || op.OpCreateRule? || op.OpUpdateRule? || op.OpDeleteRule? || op.OpInsertDefaultRule?
             || op.OpReassignRules? || op.OpEmitDeleted?
    ensures Evolves(db, Next(db, op))
  {
    hide TxsEvolve, ChainsEvolve, DocsEvolve, CallsEvolve, Unique, Taken;
    EvolvesReflexive(db);
  }

  lemma StepEvolves(db: Db, op: Op)
    requires Inv(db)
    ensures Evolves(db, Next(db, op))
  {
    hide Inv, Evolves;
    match op
    case OpReserveUpload(call, actor, u, newDoc) => ReserveEvolves(db, call, actor, u, newDoc);
    case OpStoreObject(call) => StoreEvolves(db, call);
    case OpCompleteUpload(call) => CompleteEvolves(db, call);
    case OpDeleteDocument(actor, d, seen) => DeleteDocumentEvolves(db, actor, d, seen);
    case OpClaimDocument(d) => OcrStatusEvolves(db, d, OcrPending, OcrProcessing);
    case OpFailDocument(d) => OcrStatusEvolves(db, d, OcrProcessing, OcrFailed);
    case OpParkDocument(d) => OcrStatusEvolves(db, d, OcrProcessing, OcrNeedsReview);
    case OpAttachItem(d, t, item) => AttachEvolves(db, d, t, item);
    case OpCreateDraft(d, t, line) => CreateDraftEvolves(db, d, t, line);
    case OpUpdateTransaction(actor, t, header, lines, expected) => UpdateEvolves(db, actor, t, header, lines, expected);
    case OpSoftDeleteTransaction(actor, t) => SoftDeleteEvolves(db, actor, t);
    case OpSubmit(actor, t, known, now) => SubmitEvolves(db, actor, t, known, now);
    case OpDecide(actor, i, v, active, now) => DecideEvolves(db, actor, i, v, active, now);
    case _ => OtherStepEvolves(db, op);
  }

  lemma {:induction false} RunEvolves(db: Db, ops: seq<Op>)
    requires Inv(db)
    ensures Evolves(db, Run(db, ops))
  {
    hide Inv, Evolves, Next;
    if ops == [] {
      EvolvesReflexive(db);
    } else {
      var front := ops[..|ops| - 1];
      RunEvolves(db, front);
      RunKeepsInv(db, front);
      StepEvolves(Run(db, front), ops[|ops| - 1]);
      EvolvesTransitive(db, Run(db, front), Run(db, ops));
    }
  }

  lemma RunTwo(db: Db, a: Op, b: Op)
    ensures Run(db, [a, b]) == Next(Next(db, a), b)
  {
    hide Next;
    assert [a, b][..1] == [a] && [a][..0] == [];
    assert Run(db, []) == db;
    assert Run(db, [a]) == Next(db, a);
  }
}
