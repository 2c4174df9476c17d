// What holds of transactions, their items and their projects over whole runs.

module DraftGuarantees {
  import opened Tables
  import opened Ledger
  import opened Rules
  import opened Steps
  import opened Invariants
  import opened Evolution

  // ----- submitted transactions are frozen

  /** Once a transaction has left draft, no later step of anyone changes its header, total, items or
      live documents, deletes it, or returns it to draft. */
  lemma {:induction false} FrozenOnSubmit(past: seq<Op>, future: seq<Op>, t: TxId)
    requires t in Run(EMPTY, past).txs && Run(EMPTY, past).txs[t].status != Draft
    ensures var a, b := Run(EMPTY, past), Run(Run(EMPTY, past), future);
            && t in b.txs && b.txs[t].status != Draft && !b.txs[t].deleted
            && b.txs[t].header == a.txs[t].header && b.txs[t].total == a.txs[t].total > 0
            && ItemsOf(b.items, t) == ItemsOf(a.items, t)
            && LiveDocs(b.docs, t) == LiveDocs(a.docs, t) != {}
  {
    hide Run;
    var a := Run(EMPTY, past);
    ReachableInv(past);
    RunEvolves(a, future);
    RunKeepsInv(a, future);
    hide LedgerOk, ChainsOk, DocsOk, UploadsOk, AnnouncedOk, HomesOk, RulesOk, ChainsEvolve, DocsEvolve, CallsEvolve;
  }

  // ----- the ledger

  /** At every commit the stored total is the exact sum of the items and fits the column. */
  lemma {:induction false} TotalIsExact(past: seq<Op>, t: TxId)
    requires t in Run(EMPTY, past).txs
    ensures var db := Run(EMPTY, past);
            0 <= db.txs[t].total == Total(ItemsOf(db.items, t)) <= MAX_INT64
  {
    hide Run;
    ReachableInv(past);
    hide ChainsOk, DocsOk, UploadsOk, AnnouncedOk, HomesOk, SubmittedOk, RulesOk;
  }

  /** A manual edit of a draft at its current version fails in the database exactly when its lines
      break a row check or do not fit; validated lines never do. */
  lemma {:induction false} UpdateFailsInDatabase(past: seq<Op>, actor: Actor, t: TxId, header: Header, lines: seq<Line>)
    requires EditRefused(Run(EMPTY, past), actor, t).None?
    ensures var db := Run(EMPTY, past);
            var o := UpdateTransaction(db, actor, t, header, Some(lines), db.txs[t].version);
            && (o == Abort(DatabaseError) <==> !(RowsAllowed(lines) && Total(lines) <= MAX_INT64))
            && (Acceptable(lines) ==> o.Commit?)
  {
    hide Run, Inv, UpdateTransaction, Acceptable, RowsAllowed, Total;
    ReachableInv(past);
    UpdateFailure(Run(EMPTY, past), actor, t, header, lines, Run(EMPTY, past).txs[t].version);
  }

  lemma UpdateFailure(db: Db, actor: Actor, t: TxId, header: Header, lines: seq<Line>, expected: int)
    requires Inv(db)
    requires t in db.txs && EditRefused(db, actor, t).None? && db.txs[t].version == expected
    ensures UpdateTransaction(db, actor, t, header, Some(lines), expected) == Abort(DatabaseError)
            <==> !(RowsAllowed(lines) && Total(lines) <= MAX_INT64)
    ensures Acceptable(lines) ==> UpdateTransaction(db, actor, t, header, Some(lines), expected).Commit?
  {
    hide LedgerOk, ChainsOk, DocsOk, UploadsOk, AnnouncedOk, HomesOk, SubmittedOk, RulesOk, ItemsInserted, ItemsDeleted;
    var row := db.txs[t].(header := header, version := db.txs[t].version + 1);
    VersionPositive(db, t);
    RowKeepsLedger(db.txs, db.items, t, row);
    var edited := db.(txs := db.txs[t := row]);
    DeletedKeepsLedger(edited, t);
    DeletedTouches(edited, t);
    InsertAccepted(ItemsDeleted(edited, t), t, lines);
    assert lines == [] ==> Total(lines) == 0;
    assert Acceptable(lines) ==> RowsAllowed(lines);
  }

  /** What an accepted edit leaves: exactly the new lines, their sum as the total, and a version above
      the one the editor saw. */
  lemma {:induction false} UpdateReplaces(past: seq<Op>, actor: Actor, t: TxId, header: Header, lines: seq<Line>,
                                          expected: int)
    requires UpdateTransaction(Run(EMPTY, past), actor, t, header, Some(lines), expected).Commit?
    ensures var before := Run(EMPTY, past);
            var after := UpdateTransaction(before, actor, t, header, Some(lines), expected).db;
            && t in after.txs && ItemsOf(after.items, t) == lines && after.txs[t].total == Total(lines)
            && after.txs[t].header == header && after.txs[t].version > expected
            && (forall u | u in before.txs && u != t ::
                  u in after.txs && after.txs[u] == before.txs[u]
                      && ItemsOf(after.items, u) == ItemsOf(before.items, u))
  {
    hide Run, Inv, UpdateTransaction, ItemsOf, Total;
    ReachableInv(past);
    UpdatedContents(Run(EMPTY, past), actor, t, header, lines, expected);
  }

  lemma UpdatedContents(db: Db, actor: Actor, t: TxId, header: Header, lines: seq<Line>, expected: int)
    requires Inv(db) && UpdateTransaction(db, actor, t, header, Some(lines), expected).Commit?
    ensures var after := UpdateTransaction(db, actor, t, header, Some(lines), expected).db;
            && t in after.txs && ItemsOf(after.items, t) == lines && after.txs[t].total == Total(lines)
            && after.txs[t].header == header && after.txs[t].version > expected
            && (forall u | u in db.txs && u != t ::
                  u in after.txs && after.txs[u] == db.txs[u] && ItemsOf(after.items, u) == ItemsOf(db.items, u))
  {
    hide Inv, ItemsInserted, ItemsDeleted, ItemsOf, Total;
    var row := db.txs[t].(header := header, version := db.txs[t].version + 1);
    var after := UpdateTransaction(db, actor, t, header, Some(lines), expected).db;
    ReplacedTouches(db, t, row, lines);
    UpdatedItems(db.(txs := db.txs[t := row]), t, lines);
    ReplacedEvolves(db.(txs := db.txs[t := row]), t, lines);
    UpdateKeepsInv(db, actor, t, header, Some(lines), expected);
    StoredTotal(after, t);
  }

  lemma StoredTotal(db: Db, t: TxId)
    requires Inv(db) && t in db.txs
    ensures db.txs[t].total == Total(ItemsOf(db.items, t))
  {
    hide ChainsOk, DocsOk, UploadsOk, AnnouncedOk, HomesOk, SubmittedOk, RulesOk;
  }

  lemma UpdatedItems(db: Db, t: TxId, lines: seq<Line>)
    requires t in db.txs && ItemsInserted(ItemsDeleted(db, t), t, lines).Some?
    ensures var after := ItemsInserted(ItemsDeleted(db, t), t, lines).value;
            && ItemsOf(after.items, t) == lines
            && (forall u | u != t :: ItemsOf(after.items, u) == ItemsOf(db.items, u))
  {
    ReplacedEvolves(db, t, lines);
    ItemsOfWithout(db.items, t, t);
    ItemsOfInsert(ItemsDeleted(db, t).items, t, lines, t);
    assert [] + lines == lines;
  }

  /** attach compares with the stored total only, and that decides it: the result is parked exactly when
      the true sum would leave int64, and otherwise the insert cannot fail. */
  lemma {:induction false} AttachGuardSuffices(past: seq<Op>, d: DocId, t: TxId, item: Line)
    requires RowAllowed(item)
    requires var db := Run(EMPTY, past);
             && t in db.txs && !db.txs[t].deleted && db.txs[t].status == Draft
             && LiveDoc(db, d) && db.docs[d].ocr == OcrProcessing && db.docs[d].tx == Some(t)
    ensures var db := Run(EMPTY, past);
            var o := AttachItem(db, d, t, Some(item));
            && o.Commit? && d in o.db.docs
            && (o.db.docs[d].ocr == OcrNeedsReview <==> Total(ItemsOf(db.items, t)) + item.amount as int > MAX_INT64)
            && (o.db.docs[d].ocr == OcrCompleted <==> ItemsOf(o.db.items, t) == ItemsOf(db.items, t) + [item])
  {
    hide Run, Inv, AttachItem, ItemsOf, Total;
    ReachableInv(past);
    GuardDecides(Run(EMPTY, past), d, t, item);
  }

  lemma GuardDecides(db: Db, d: DocId, t: TxId, item: Line)
    requires Inv(db) && RowAllowed(item)
    requires t in db.txs && !db.txs[t].deleted && db.txs[t].status == Draft
    requires LiveDoc(db, d) && db.docs[d].ocr == OcrProcessing && db.docs[d].tx == Some(t)
    ensures var o := AttachItem(db, d, t, Some(item));
            && o.Commit? && d in o.db.docs
            && (o.db.docs[d].ocr == OcrNeedsReview <==> Total(ItemsOf(db.items, t)) + item.amount as int > MAX_INT64)
            && (o.db.docs[d].ocr == OcrCompleted <==> ItemsOf(o.db.items, t) == ItemsOf(db.items, t) + [item])
  {
    var o := AttachItem(db, d, t, Some(item));
    AttachHomes(db, d, t);
    TotalOfOne(item);
    InsertAccepted(db, t, [item]);
    ItemsOfInsert(db.items, t, [item], t);
    hide ChainsOk, DocsOk, UploadsOk, AnnouncedOk, HomesOk, SubmittedOk, RulesOk, ItemsOf;
    assert db.txs[t].total == Total(ItemsOf(db.items, t));
  }

  lemma TotalOfOne(item: Line)
    ensures Total([item]) == item.amount as int
  {
    assert [item][..0] == [] && Total([]) == 0;
  }

  lemma AttachHomes(db: Db, d: DocId, t: TxId)
    requires Inv(db) && d in db.docs && db.docs[d].tx == Some(t) && t in db.txs
    ensures db.docs[d].project in db.projects && db.projects[db.docs[d].project].org == db.txs[t].org
  {
    hide LedgerOk, ChainsOk, UploadsOk, AnnouncedOk, SubmittedOk, RulesOk;
  }

  // ----- versions

  /** Two points of a run at which a transaction has the same version show the same row and the same items. */
  lemma {:induction false} EqualVersionEqualContents(past: seq<Op>, future: seq<Op>, t: TxId)
    requires t in Run(EMPTY, past).txs
    ensures var a, b := Run(EMPTY, past), Run(Run(EMPTY, past), future);
            && t in b.txs && b.txs[t].version >= a.txs[t].version
            && (b.txs[t].version == a.txs[t].version ==>
                  b.txs[t] == a.txs[t] && ItemsOf(b.items, t) == ItemsOf(a.items, t))
  {
    hide Run;
    ReachableInv(past);
    RunEvolves(Run(EMPTY, past), future);
    hide Inv, ChainsEvolve, DocsEvolve, CallsEvolve, ItemsOf, LiveDocs;
  }

  /** Of several edits that expect the same version at most one commits, whatever runs in between. */
  lemma {:induction false} OneUpdatePerVersion(past: seq<Op>, first: Op, between: seq<Op>, second: Op)
    requires first.OpUpdateTransaction? && second.OpUpdateTransaction?
    requires first.tx == second.tx && first.expected == second.expected
    requires Step(Run(EMPTY, past), first).Commit?
    ensures Step(Run(Next(Run(EMPTY, past), first), between), second).Abort?
  {
    hide Run, Inv, Step, Next;
    ReachableInv(past);
    SecondUpdateAborts(Run(EMPTY, past), first, between, second);
  }

  lemma SecondUpdateAborts(db: Db, first: Op, between: seq<Op>, second: Op)
    requires Inv(db)
    requires first.OpUpdateTransaction? && second.OpUpdateTransaction?
    requires first.tx == second.tx && first.expected == second.expected
    requires Step(db, first).Commit?
    ensures Step(Run(Next(db, first), between), second).Abort?
  {
    hide Inv, Run, Step, Next, Evolves;
    var a := Next(db, first);
    UpdateRaisesVersion(db, first);
    StepKeepsInv(db, first);
    RunEvolves(a, between);
    VersionsRise(a, Run(a, between), first.tx);
    StaleUpdateAborts(Run(a, between), second);
  }

  lemma VersionsRise(a: Db, b: Db, t: TxId)
    requires Evolves(a, b) && t in a.txs
    ensures t in b.txs && b.txs[t].version >= a.txs[t].version
  {
    hide ChainsEvolve, DocsEvolve, CallsEvolve, ItemsOf, LiveDocs;
  }

  lemma StaleUpdateAborts(db: Db, op: Op)
    requires op.OpUpdateTransaction? && op.tx in db.txs && db.txs[op.tx].version > op.expected
    ensures Step(db, op).Abort?
  {
    hide ItemsInserted, ItemsDeleted;
  }

  lemma UpdateRaisesVersion(db: Db, op: Op)
    requires op.OpUpdateTransaction? && Step(db, op).Commit?
    ensures op.tx in Next(db, op).txs && Next(db, op).txs[op.tx].version > op.expected
  {
    if op.lines.Some? {
      ReplacedEvolves(db.(txs := Written(db.txs, op.tx, db.txs[op.tx].(header := op.header))), op.tx, op.lines.value);
    }
    hide ItemsInserted, ItemsDeleted;
  }

  // ----- projects

  /** A soft-deleted project has no live transaction and no document row at all. */
  lemma {:induction false} DeletedProjectIsEmpty(past: seq<Op>, p: ProjectId)
    requires p in Run(EMPTY, past).projects && Run(EMPTY, past).projects[p].deleted
    ensures var db := Run(EMPTY, past);
            && (forall t | t in db.txs && db.txs[t].project == p :: db.txs[t].deleted)
            && (forall d | d in db.docs :: db.docs[d].project != p)
  {
    hide Run;
    ReachableInv(past);
    hide LedgerOk, ChainsOk, DocsOk, UploadsOk, AnnouncedOk, SubmittedOk, RulesOk;
  }

  /** A step that adds a transaction adds a draft, to a project that is live and not archived. */
  lemma {:induction false} NoDraftWhileArchived(db: Db, op: Op, t: TxId)
    requires t !in db.txs && t in Next(db, op).txs
    ensures op.OpCreateDraft? && Next(db, op).txs[t].status == Draft
    ensures var p := Next(db, op).txs[t].project;
            p in db.projects && !db.projects[p].deleted && !db.projects[p].archived
  {
    if !op.OpCreateDraft? {
      OthersOpenNothing(db, op);
    }
  }

  lemma OthersOpenNothing(db: Db, op: Op)
    requires !op.OpCreateDraft?
    ensures Next(db, op).txs.Keys == db.txs.Keys
  {
    hide Next;
    if UploadOp(op) || OcrOp(op) {
      DocumentOpensNothing(db, op);
    } else if TransactionOp(op) {
      TransactionOpensNothing(db, op);
    } else {
      RestOpensNothing(db, op);
    }
  }

  lemma DocumentOpensNothing(db: Db, op: Op)
    requires (UploadOp(op) || OcrOp(op)) && !op.OpCreateDraft?
    ensures Next(db, op).txs.Keys == db.txs.Keys
  {
    hide ItemsInserted, KeyOwner;
    if op.OpAttachItem? && op.tx in db.txs && op.item.Some? {
      InsertedTouches(db, op.tx, [op.item.value]);
    }
  }

  lemma TransactionOpensNothing(db: Db, op: Op)
    requires TransactionOp(op)
    ensures Next(db, op).txs.Keys == db.txs.Keys
  {
    hide CreateProject, ArchiveProject, UnarchiveProject, DeleteProject;
    hide CreateRule, UpdateRule, DeleteRule, InsertDefaultRule, ReassignRules;
    hide ReserveUpload, StoreObject, CompleteUpload, DeleteDocument;
    hide ClaimDocument, FailDocument, ParkDocument, AttachItem, CreateDraft;
    hide ItemsInserted, ItemsDeleted, Resolve, LiveDocs;
    if op.OpUpdateTransaction? && op.tx in db.txs && op.lines.Some? {
      var row := db.txs[op.tx].(header := op.header, version := db.txs[op.tx].version + 1);
      ReplacedTouches(db, op.tx, row, op.lines.value);
    }
  }

  lemma RestOpensNothing(db: Db, op: Op)
    requires !UploadOp(op) && !OcrOp(op) && !TransactionOp(op)
    ensures Next(db, op).txs == db.txs
  {
    hide Unique, Taken;
  }
}
