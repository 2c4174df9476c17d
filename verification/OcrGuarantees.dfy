// OCR results take effect exactly once, however deliveries, sweeps, crashes and deletes interleave.

module OcrGuarantees {
  import opened Tables
  import opened Ledger
  import opened Steps
  import opened Invariants
  import opened Evolution
  import Rules

  ghost predicate Completed(db: Db, d: DocId) {
    d in db.docs && db.docs[d].ocr == OcrCompleted
  }

  predicate OcrEvent(e: Event) {
    e.TransactionCreated? || (e.TransactionUpdated? && e.source == Ocr)
  }

  function OcrEvents(events: seq<Event>): nat {
    if events == [] then 0 else OcrEvents(events[..|events| - 1]) + if OcrEvent(events[|events| - 1]) then 1 else 0
  }

  /** A handler step on document d that may write items: attach, or draft creation. */
  predicate ResultOf(op: Op, d: DocId) {
    (op.OpAttachItem? || op.OpCreateDraft?) && op.doc == d
  }

  // ----- one step

  /** The effect of an OCR result: one item, one event carrying the new total, a draft unless the document
      already had a transaction, and the document bound and completed. */
  ghost predicate TookEffect(db: Db, db': Db, d: DocId) {
    exists t, line ::
      && db'.items == db.items + [Item(t, line)]
      && t in db'.txs && db'.txs.Keys == db.txs.Keys + {t}
      && d in db.docs && (t in db.txs <==> db.docs[d].tx.Some?) && (t in db.txs ==> db.docs[d].tx == Some(t))
      && db'.events == db.events + [if t in db.txs then TransactionUpdated(t, db'.txs[t].total, Ocr)
                                    else TransactionCreated(t, db'.txs[t].total)]
      && !Completed(db, d) && Completed(db', d) && db'.docs[d].tx == Some(t)
      && (forall e | e != d :: Completed(db', e) == Completed(db, e))
  }

  /** The step left items, transactions, events and completions as they were. */
  ghost predicate NoEffect(db: Db, db': Db) {
    && db'.items == db.items && db'.txs == db.txs && db'.events == db.events
    && (forall e :: Completed(db', e) == Completed(db, e))
  }

  lemma InsertedOne(db: Db, t: TxId, line: Line)
    requires t in db.txs && ItemsInserted(db, t, [line]).Some?
    ensures var r := ItemsInserted(db, t, [line]).value;
            r == db.(txs := r.txs, items := db.items + [Item(t, line)]) && r.txs.Keys == db.txs.Keys && t in r.txs
  {
    hide Total, ItemsOf;
    assert Tagged(t, [line]) == [Item(t, line)];
  }

  lemma ParkHasNoEffect(db: Db, d: DocId, from: OcrStatus, to: OcrStatus)
    requires to != OcrCompleted && from != OcrCompleted
    ensures NoEffect(db, WithOcr(db, d, from, to))
  {
  }

  lemma AttachEffect(db: Db, d: DocId, t: TxId, item: Option<Line>)
    ensures var db' := After(db, AttachItem(db, d, t, item));
            NoEffect(db, db') || TookEffect(db, db', d)
  {
    hide ItemsInserted, WithOcr, NoEffect;
    ParkHasNoEffect(db, d, OcrProcessing, OcrNeedsReview);
    UnchangedHasNoEffect(db);
    if t in db.txs && item.Some? && ItemsInserted(db, t, [item.value]).Some? {
      InsertedOne(db, t, item.value);
      var r := ItemsInserted(db, t, [item.value]).value;
      if LiveDoc(db, d) && db.docs[d].ocr == OcrProcessing && db.docs[d].tx == Some(t) {
        var done := Emit(Bound(r, d, t), TransactionUpdated(t, r.txs[t].total, Ocr));
        assert done.items == db.items + [Item(t, item.value)];
        assert TookEffect(db, done, d);
      }
    }
  }

  lemma UnchangedHasNoEffect(db: Db)
    ensures NoEffect(db, db)
  {
  }

  lemma DraftEffect(db: Db, d: DocId, t: TxId, item: Line)
    ensures var db' := After(db, CreateDraft(db, d, t, item));
            NoEffect(db, db') || TookEffect(db, db', d)
  {
    hide ItemsInserted, WithOcr, NoEffect;
    ParkHasNoEffect(db, d, OcrProcessing, OcrNeedsReview);
    UnchangedHasNoEffect(db);
    if t !in db.txs && LiveDoc(db, d) && db.docs[d].ocr == OcrProcessing && db.docs[d].tx.None? {
      var p := db.docs[d].project;
      if p in db.projects {
        var row := Tx(db.projects[p].org, p, Draft, Header(None, CURRENCY_IDR, None), 0, 1, db.docs[d].uploadedBy,
                      false);
        var begun := db.(txs := db.txs[t := row]);
        if ItemsInserted(begun, t, [item]).Some? {
          InsertedOne(begun, t, item);
          var r := ItemsInserted(begun, t, [item]).value;
          var done := Emit(Bound(r, d, t), TransactionCreated(t, r.txs[t].total));
          assert done.items == db.items + [Item(t, item)];
          assert TookEffect(db, done, d);
        }
      }
    }
  }

  /** A result step either takes effect as a whole or changes nothing but the document's OCR status. */
  lemma {:induction false} ResultEffect(db: Db, op: Op)
    requires op.OpAttachItem? || op.OpCreateDraft?
    ensures NoEffect(db, Next(db, op)) || TookEffect(db, Next(db, op), op.doc)
  {
    hide NoEffect, TookEffect;
    match op
    case OpAttachItem(d, t, item) => AttachEffect(db, d, t, item);
    case OpCreateDraft(d, t, line) => DraftEffect(db, d, t, line);
  }

  /** No other step completes a document or undoes a completion, and none emits an OCR event. */
  lemma {:induction false} OthersCompleteNothing(db: Db, op: Op)
    requires !op.OpAttachItem? && !op.OpCreateDraft?
    ensures forall e :: Completed(Next(db, op), e) == Completed(db, e)
    ensures OcrEvents(Next(db, op).events) == OcrEvents(db.events)
  {
    hide Next, OcrEvents, Completed;
    if UploadOp(op) {
      UploadCompletesNothing(db, op);
    } else if OcrOp(op) {
      StatusCompletesNothing(db, op);
    } else if TransactionOp(op) {
      TransactionCompletesNothing(db, op);
    } else {
      RestCompletesNothing(db, op);
    }
  }

  /** Claims, failures and parking. */
  lemma StatusCompletesNothing(db: Db, op: Op)
    requires OcrOp(op) && !op.OpAttachItem? && !op.OpCreateDraft?
    ensures forall e :: Completed(Next(db, op), e) == Completed(db, e)
    ensures Next(db, op).events == db.events
  {
    hide CreateProject, ArchiveProject, UnarchiveProject, DeleteProject, ReserveUpload, StoreObject, CompleteUpload;
    hide CreateRule, UpdateRule, DeleteRule, InsertDefaultRule, ReassignRules, DeleteDocument;
    hide UpdateTransaction, SoftDeleteTransaction, Submit, Decide, AttachItem, CreateDraft;
  }

  lemma OneMoreEvent(events: seq<Event>, e: Event)
    ensures OcrEvents(events + [e]) == OcrEvents(events) + if OcrEvent(e) then 1 else 0
  {
    assert (events + [e])[..|events|] == events;
  }

  /** OCR statuses stay as they were, new documents are pending, and no OCR event is emitted. */
  ghost predicate StatusesStay(a: Db, b: Db) {
    && (forall d | d in a.docs :: d in b.docs && b.docs[d].ocr == a.docs[d].ocr)
    && (forall d | d in b.docs && d !in a.docs :: b.docs[d].ocr == OcrPending)
    && a.events <= b.events
    && (forall k | |a.events| <= k < |b.events| :: !OcrEvent(b.events[k]))
  }

  lemma ReserveIsQuiet(db: Db, call: CallId, actor: Actor, u: Upload, newDoc: DocId)
    ensures StatusesStay(db, After(db, ReserveUpload(db, call, actor, u, newDoc)))
  {
    hide KeyOwner;
  }

  lemma StoreIsQuiet(db: Db, call: CallId)
    ensures StatusesStay(db, After(db, StoreObject(db, call)))
  {
  }

  lemma CompleteIsQuiet(db: Db, call: CallId)
    ensures StatusesStay(db, After(db, CompleteUpload(db, call)))
  {
  }

  lemma DeleteIsQuiet(db: Db, actor: Actor, d: DocId, seen: Option<TxId>)
    ensures StatusesStay(db, After(db, DeleteDocument(db, actor, d, seen)))
  {
  }

  lemma UploadIsQuiet(db: Db, op: Op)
    requires UploadOp(op)
    ensures StatusesStay(db, Next(db, op))
  {
    hide StatusesStay, ReserveUpload, StoreObject, CompleteUpload, DeleteDocument;
    match op
    case OpReserveUpload(call, actor, u, newDoc) => ReserveIsQuiet(db, call, actor, u, newDoc);
    case OpStoreObject(call) => StoreIsQuiet(db, call);
    case OpCompleteUpload(call) => CompleteIsQuiet(db, call);
    case OpDeleteDocument(actor, d, seen) => DeleteIsQuiet(db, actor, d, seen);
  }

  lemma UploadCompletesNothing(db: Db, op: Op)
    requires UploadOp(op)
    ensures forall e :: Completed(Next(db, op), e) == Completed(db, e)
    ensures OcrEvents(Next(db, op).events) == OcrEvents(db.events)
  {
    hide Next, OcrEvents;
    UploadIsQuiet(db, op);
    var after := Next(db, op).events;
    assert after == db.events + after[|db.events|..];
    QuietEvents(db.events, after[|db.events|..]);
  }

  lemma RestCompletesNothing(db: Db, op: Op)
    requires !UploadOp(op) && !OcrOp(op) && !TransactionOp(op)
    ensures Next(db, op).docs == db.docs
    ensures forall e :: Completed(Next(db, op), e) == Completed(db, e)
    ensures OcrEvents(Next(db, op).events) == OcrEvents(db.events)
  {
    hide Rules.Unique, Rules.Taken, OcrEvents;
    var o := Step(db, op);
    if o.Commit? && !op.OpInsertDefaultRule? {
      OneMoreEvent(db.events, o.db.events[|db.events|]);
    }
  }

  /** Documents stay as they were, and no OCR event is emitted. */
  ghost predicate Quiet(a: Db, b: Db) {
    && b.docs == a.docs
    && a.events <= b.events
    && (forall k | |a.events| <= k < |b.events| :: !OcrEvent(b.events[k]))
  }

  lemma UpdateQuiet(db: Db, actor: Actor, t: TxId, header: Header, lines: Option<seq<Line>>, expected: int)
    ensures Quiet(db, After(db, UpdateTransaction(db, actor, t, header, lines, expected)))
  {
    hide ItemsInserted, ItemsDeleted;
    if t in db.txs && lines.Some? {
      ReplacedTouches(db, t, db.txs[t].(header := header, version := db.txs[t].version + 1), lines.value);
    }
  }

  lemma SubmitQuiet(db: Db, actor: Actor, t: TxId, known: set<UserId>, now: Time)
    ensures Quiet(db, After(db, Submit(db, actor, t, known, now)))
  {
    hide Rules.Resolve, LiveDocs, NotifiedAtSubmit;
  }

  lemma DecideQuiet(db: Db, actor: Actor, i: nat, v: Verdict, active: bool, now: Time)
    ensures Quiet(db, After(db, Decide(db, actor, i, v, active, now)))
  {
    hide FirstOfStep, DecideRefused;
  }

  lemma TransactionQuiet(db: Db, op: Op)
    requires TransactionOp(op)
    ensures Quiet(db, Next(db, op))
  {
    hide CreateProject, ArchiveProject, UnarchiveProject, DeleteProject;
    hide CreateRule, UpdateRule, DeleteRule, InsertDefaultRule, ReassignRules;
    hide ReserveUpload, StoreObject, CompleteUpload, DeleteDocument;
    hide ClaimDocument, FailDocument, ParkDocument, AttachItem, CreateDraft, UpdateTransaction, Submit, Decide;
    match op
    case OpUpdateTransaction(actor, t, header, lines, expected) => UpdateQuiet(db, actor, t, header, lines, expected);
    case OpSubmit(actor, t, known, now) => SubmitQuiet(db, actor, t, known, now);
    case OpDecide(actor, i, v, active, now) => DecideQuiet(db, actor, i, v, active, now);
    case _ =>
  }

  lemma TransactionCompletesNothing(db: Db, op: Op)
    requires TransactionOp(op)
    ensures Next(db, op).docs == db.docs
    ensures forall e :: Completed(Next(db, op), e) == Completed(db, e)
    ensures OcrEvents(Next(db, op).events) == OcrEvents(db.events)
  {
    hide Next, OcrEvents;
    TransactionQuiet(db, op);
    var after := Next(db, op).events;
    assert after == db.events + after[|db.events|..];
    QuietEvents(db.events, after[|db.events|..]);
  }

  lemma {:induction false} QuietEvents(events: seq<Event>, more: seq<Event>)
    requires forall k | 0 <= k < |more| :: !OcrEvent(more[k])
    ensures OcrEvents(events + more) == OcrEvents(events)
  {
    if more == [] {
      assert events + more == events;
    } else {
      var n := |more| - 1;
      assert events + more == (events + more[..n]) + [more[n]];
      QuietEvents(events, more[..n]);
      OneMoreEvent(events + more[..n], more[n]);
    }
  }

  // ----- whole runs

  /** How many items the result steps of document d inserted in a run. */
  ghost function Insertions(db: Db, ops: seq<Op>, d: DocId): int {
    if ops == [] then 0
    else
      var before := Run(db, ops[..|ops| - 1]);
      var op := ops[|ops| - 1];
      Insertions(db, ops[..|ops| - 1], d)
      + if ResultOf(op, d) then |Next(before, op).items| - |before.items| else 0
  }

  /** How many OCR transaction events they emitted. */
  ghost function Announcements(db: Db, ops: seq<Op>, d: DocId): int {
    if ops == [] then 0
    else
      var before := Run(db, ops[..|ops| - 1]);
      var op := ops[|ops| - 1];
      Announcements(db, ops[..|ops| - 1], d)
      + if ResultOf(op, d) then OcrEvents(Next(before, op).events) - OcrEvents(before.events) else 0
  }

  /** How many drafts they created. */
  ghost function Drafts(db: Db, ops: seq<Op>, d: DocId): int {
    if ops == [] then 0
    else
      var before := Run(db, ops[..|ops| - 1]);
      var op := ops[|ops| - 1];
      Drafts(db, ops[..|ops| - 1], d)
      + if ResultOf(op, d) then |Next(before, op).txs| - |before.txs| else 0
  }

  ghost function One(b: bool): int {
    if b then 1 else 0
  }

  /** In any interleaving each document causes one item and one matching event if its OCR status ended
      completed, nothing at all otherwise, and never more than one draft. */
  lemma {:induction false} ExactlyOnce(ops: seq<Op>, d: DocId)
    ensures Insertions(EMPTY, ops, d) == One(Completed(Run(EMPTY, ops), d))
    ensures Announcements(EMPTY, ops, d) == One(Completed(Run(EMPTY, ops), d))
    ensures 0 <= Drafts(EMPTY, ops, d) <= One(Completed(Run(EMPTY, ops), d))
  {
    if ops != [] {
      var front, op := ops[..|ops| - 1], ops[|ops| - 1];
      ExactlyOnce(front, d);
      var before := Run(EMPTY, front);
      StepCounts(before, op, d);
      hide Next, Completed, OcrEvents;
    }
  }

  lemma StepCounts(before: Db, op: Op, d: DocId)
    ensures var after := Next(before, op);
            var delta := One(Completed(after, d)) - One(Completed(before, d));
            if ResultOf(op, d) then
              && |after.items| - |before.items| == delta
              && OcrEvents(after.events) - OcrEvents(before.events) == delta
              && 0 <= |after.txs| - |before.txs| <= delta
            else delta == 0
  {
    hide Next, OcrEvents;
    if op.OpAttachItem? || op.OpCreateDraft? {
      ResultEffect(before, op);
      var after := Next(before, op);
      if TookEffect(before, after, op.doc) {
        var t, line :| after.items == before.items + [Item(t, line)] && t in after.txs
          && after.txs.Keys == before.txs.Keys + {t}
          && after.events == before.events + [if t in before.txs then TransactionUpdated(t, after.txs[t].total, Ocr)
                                              else TransactionCreated(t, after.txs[t].total)];
        OneMoreEvent(before.events, after.events[|before.events|]);
        KeysCount(before.txs, after.txs, t);
      }
    } else {
      OthersCompleteNothing(before, op);
    }
  }

  lemma KeysCount(a: map<TxId, Tx>, b: map<TxId, Tx>, t: TxId)
    requires b.Keys == a.Keys + {t}
    ensures |b| == |a| + if t in a then 0 else 1
  {
    assert |b| == |b.Keys| && |a| == |a.Keys|;
    if t in a { assert b.Keys == a.Keys; }
  }

  // ----- the claim

  /** Only one delivery of a document ever drives it out of pending: after a successful claim every later
      claim of the document, in any run, changes nothing. */
  lemma {:induction false} ClaimedOnce(past: seq<Op>, d: DocId, between: seq<Op>)
    requires LiveDoc(Run(EMPTY, past), d) && Run(EMPTY, past).docs[d].ocr == OcrPending
    ensures var later := Run(Next(Run(EMPTY, past), OpClaimDocument(d)), between);
            Next(later, OpClaimDocument(d)) == later
  {
    hide Inv, Run, TxsEvolve, ChainsEvolve, CallsEvolve;
    var db := Run(EMPTY, past);
    ReachableInv(past);
    var claimed := Next(db, OpClaimDocument(d));
    assert claimed == WithOcr(db, d, OcrPending, OcrProcessing);
    StepKeepsInv(db, OpClaimDocument(d));
    RunEvolves(claimed, between);
    var later := Run(claimed, between);
    assert d in later.docs && later.docs[d].ocr != OcrPending;
    assert Next(later, OpClaimDocument(d)) == WithOcr(later, d, OcrPending, OcrProcessing);
    hide Next;
  }

  /** A document whose OCR has ended is never touched by OCR again. */
  lemma {:induction false} OcrOutcomeIsFinal(past: seq<Op>, future: seq<Op>, d: DocId)
    requires d in Run(EMPTY, past).docs && OcrFinal(Run(EMPTY, past).docs[d].ocr)
    ensures var a, b := Run(EMPTY, past), Run(Run(EMPTY, past), future);
            d in b.docs && b.docs[d].ocr == a.docs[d].ocr && b.docs[d].tx == a.docs[d].tx
  {
    hide Run;
    ReachableInv(past);
    RunEvolves(Run(EMPTY, past), future);
    hide Inv, TxsEvolve, ChainsEvolve, CallsEvolve;
  }
}
