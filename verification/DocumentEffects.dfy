// What the committed steps on uploads and OCR results change, column by column.

module DocumentEffects {
  import opened Tables
  import opened Ledger
  import opened Rules
  import opened Steps
  import opened Invariants
  import opened UploadGuarantees
  import DraftGuarantees

  // ----- uploads

  /** A reservation for a free key adds one incomplete row with what the client sent; for a known key it adds none. */
  lemma ReserveEffect(db: Db, call: CallId, actor: Actor, u: Upload, newDoc: DocId, after: Db)
    requires Inv(db) && ReserveUpload(db, call, actor, u, newDoc) == Commit(after)
    ensures var free := forall e | e in db.docs ::
                          !(db.docs[e].project == u.project && db.docs[e].uploadedBy == actor.user
                            && db.docs[e].key == u.key);
            && after == db.(docs := after.docs, calls := after.calls)
            && call in after.calls && after.calls[call].actor == actor && after.calls[call].upload == u
            && (free ==>
                  && newDoc !in db.docs && after.docs.Keys == db.docs.Keys + {newDoc}
                  && (forall e | e in db.docs :: after.docs[e] == db.docs[e])
                  && after.calls[call].doc == newDoc && after.calls[call].phase == Reserved
                  && var row := after.docs[newDoc];
                     && row.project == u.project && row.tx == u.tx && row.uploadedBy == actor.user && row.key == u.key
                     && row.fileName == u.fileName && row.mime == u.mime && row.content == u.content
                     && !row.uploadComplete && row.ocr == OcrPending && !row.deleted
                     && row.path.org == actor.org && row.path.project == u.project && row.path.doc == newDoc
                     && (u.mime == "image/jpeg" ==> row.path.extension == ".jpg")
                     && (u.mime == "image/png" ==> row.path.extension == ".png")
                     && (u.mime == "image/webp" ==> row.path.extension == ".webp")
                     && (u.mime == "application/pdf" ==> row.path.extension == ".pdf"))
            && (!free ==>
                  && after.docs == db.docs && after.calls[call].doc in db.docs
                  && var row := db.docs[after.calls[call].doc];
                     && row.project == u.project && row.uploadedBy == actor.user && row.key == u.key
                     && row.fileName == u.fileName && row.mime == u.mime && row.content == u.content && row.tx == u.tx
                     && !row.deleted)
  {
    hide Inv;
    assert forall e | e in db.docs ::
      HasKey(db.docs[e], u.project, actor.user, u.key)
      <==> db.docs[e].project == u.project && db.docs[e].uploadedBy == actor.user && db.docs[e].key == u.key;
    hide KeyOwner;
  }

  /** When a new call's reservation commits. */
  lemma ReserveCommitsIff(db: Db, call: CallId, actor: Actor, u: Upload, newDoc: DocId)
    requires Inv(db) && call !in db.calls && newDoc !in db.docs
    ensures ReserveUpload(db, call, actor, u, newDoc).Commit?
            <==> && u.project in db.projects && db.projects[u.project].org == actor.org
                 && !db.projects[u.project].deleted && !db.projects[u.project].archived
                 && (u.tx.Some? ==> u.tx.value in db.txs && db.txs[u.tx.value].org == actor.org
                                    && db.txs[u.tx.value].project == u.project)
                 && (forall e | e in db.docs && db.docs[e].project == u.project && db.docs[e].uploadedBy == actor.user
                                && db.docs[e].key == u.key ::
                       db.docs[e].fileName == u.fileName && db.docs[e].mime == u.mime && db.docs[e].content == u.content
                       && db.docs[e].tx == u.tx && !db.docs[e].deleted)
  {
    hide LedgerOk, ChainsOk, UploadsOk, AnnouncedOk, HomesOk, SubmittedOk, RulesOk;
    var owner := KeyOwner(db.docs, u.project, actor.user, u.key);
    assert forall e | e in db.docs && HasKey(db.docs[e], u.project, actor.user, u.key) :: owner == Some(e);
    hide KeyOwner;
  }

  /** When the completion of a call that has stored its bytes commits. */
  lemma CompleteCommitsIff(db: Db, call: CallId)
    requires Inv(db) && call in db.calls && db.calls[call].phase == Stored
    ensures var u, org, d := db.calls[call].upload, db.calls[call].actor.org, db.calls[call].doc;
            && d in db.docs
            && (CompleteUpload(db, call).Commit?
                <==> && u.project in db.projects && db.projects[u.project].org == org
                     && !db.projects[u.project].deleted && !db.projects[u.project].archived
                     && (u.tx.Some? ==> && u.tx.value in db.txs && db.txs[u.tx.value].org == org
                                        && db.txs[u.tx.value].project == u.project
                                        && !db.txs[u.tx.value].deleted && db.txs[u.tx.value].status == Draft)
                     && !db.docs[d].deleted)
  {
    hide LedgerOk, ChainsOk, DocsOk, AnnouncedOk, HomesOk, SubmittedOk, RulesOk;
  }

  /** Storing puts the call's bytes at its row's path; completing sets the row complete and announces it. */
  lemma StoreAndCompleteEffect(db: Db, call: CallId)
    ensures StoreObject(db, call).Commit? ==>
              && call in db.calls && db.calls[call].phase == Reserved && db.calls[call].doc in db.docs
              && var c := db.calls[call];
                 StoreObject(db, call).db == db.(objects := db.objects[db.docs[c.doc].path := c.upload.content],
                                                 calls := db.calls[call := c.(phase := Stored)])
    ensures CompleteUpload(db, call).Commit? ==>
              && call in db.calls && db.calls[call].phase == Stored && db.calls[call].doc in db.docs
              && var c, after := db.calls[call], CompleteUpload(db, call).db;
                 && after.docs == db.docs[c.doc := db.docs[c.doc].(uploadComplete := true)]
                 && after.events == db.events + (if db.docs[c.doc].uploadComplete then [] else [DocumentCreated(c.doc)])
                 && after == db.(docs := after.docs, calls := db.calls[call := c.(phase := Returned)],
                                 events := after.events)
  {
  }

  /** What an upload answers before it locks anything, in terms of the row its key names. */
  lemma LookUpMeaning(db: Db, actor: Actor, u: Upload, d: DocId)
    requires Inv(db) && d in db.docs
    requires db.docs[d].project == u.project && db.docs[d].uploadedBy == actor.user && db.docs[d].key == u.key
    requires match u.tx
             case Some(t) =>
               t in db.txs && db.txs[t].org == actor.org && !db.txs[t].deleted && db.txs[t].project == u.project
             case None => u.project in db.projects && db.projects[u.project].org == actor.org
    ensures var row := db.docs[d];
            var same := row.fileName == u.fileName && row.mime == u.mime && row.content == u.content && row.tx == u.tx;
            LookUp(db, actor, u)
            == if !same || row.deleted then Refused else if row.uploadComplete then Found(d) else Miss
  {
    hide LedgerOk, ChainsOk, DocsOk, UploadsOk, AnnouncedOk, SubmittedOk, RulesOk;
    OwnerIs(db, d);
    DocHome(db, d);
    hide KeyOwner;
  }

  /** Document d is upload u of the actor, complete, and its object is there. */
  ghost predicate IsUploaded(db: Db, actor: Actor, u: Upload, d: DocId)
    requires d in db.docs
  {
    var row := db.docs[d];
    && row.project == u.project && row.tx == u.tx && row.uploadedBy == actor.user && row.key == u.key
    && row.fileName == u.fileName && row.mime == u.mime && row.content == u.content
    && row.uploadComplete && !row.deleted
    && row.path in db.objects && db.objects[row.path] == u.content
  }

  /** An upload is answered with a document only if that is the one the request describes, complete, and stored. */
  lemma FoundMeans(db: Db, actor: Actor, u: Upload, d: DocId)
    requires Inv(db) && LookUp(db, actor, u) == Found(d)
    ensures d in db.docs && IsUploaded(db, actor, u, d)
  {
    hide LedgerOk, ChainsOk, DocsOk, AnnouncedOk, HomesOk, SubmittedOk, RulesOk, KeyOwner;
  }

  // ----- OCR results

  lemma OneInserted(db: Db, t: TxId, item: Line)
    requires t in db.txs && db.txs[t].total == Total(ItemsOf(db.items, t)) && ItemsInserted(db, t, [item]).Some?
    ensures ItemsInserted(db, t, [item]).value
            == db.(items := db.items + [Item(t, item)],
                   txs := db.txs[t := db.txs[t].(total := db.txs[t].total + item.amount as int,
                                                 version := db.txs[t].version + 1)])
  {
    DraftGuarantees.TotalOfOne(item);
    hide Total, ItemsOf;
    assert Tagged(t, [item]) == [Item(t, item)];
  }

  /** A completed attach adds the item to its draft, raises the total by its amount, and binds the document. */
  lemma AttachWrites(db: Db, d: DocId, t: TxId, item: Option<Line>, after: Db)
    requires Inv(db) && AttachItem(db, d, t, item) == Commit(after)
    requires d in after.docs && after.docs[d].ocr == OcrCompleted && d in db.docs && db.docs[d].ocr == OcrProcessing
    ensures item.Some? && t in db.txs && db.docs[d].tx == Some(t)
    ensures var total := db.txs[t].total + item.value.amount as int;
            after == db.(items := db.items + [Item(t, item.value)],
                         txs := db.txs[t := db.txs[t].(total := total, version := db.txs[t].version + 1)],
                         docs := db.docs[d := db.docs[d].(ocr := OcrCompleted)],
                         events := db.events + [TransactionUpdated(t, total, Ocr)])
  {
    hide Inv, ItemsInserted, Total, ItemsOf;
    assert t in db.txs;
    DraftGuarantees.StoredTotal(db, t);
    if item.Some? && ItemsInserted(db, t, [item.value]).Some? {
      OneInserted(db, t, item.value);
    }
  }

  /** A completed draft creation adds one rupiah draft of the uploader in the document's project, holding exactly the
      item, and binds the document to it. */
  lemma DraftWrites(db: Db, d: DocId, t: TxId, item: Line, after: Db)
    requires Inv(db) && CreateDraft(db, d, t, item) == Commit(after)
    requires d in after.docs && after.docs[d].ocr == OcrCompleted && d in db.docs && db.docs[d].ocr == OcrProcessing
    ensures t !in db.txs && db.docs[d].project in db.projects && db.docs[d].tx.None?
    ensures var p, total := db.docs[d].project, item.amount as int;
            after == db.(items := db.items + [Item(t, item)],
                         txs := db.txs[t := Tx(db.projects[p].org, p, Draft, Header(None, "IDR", None), total, 2,
                                               db.docs[d].uploadedBy, false)],
                         docs := db.docs[d := db.docs[d].(tx := Some(t), ocr := OcrCompleted)],
                         events := db.events + [TransactionCreated(t, total)])
  {
    hide Inv, ItemsInserted, Total, ItemsOf;
    NoItemsYet(db, t);
    var p := db.docs[d].project;
    if p in db.projects {
      var row := Tx(db.projects[p].org, p, Draft, Header(None, CURRENCY_IDR, None), 0, 1, db.docs[d].uploadedBy, false);
      var begun := db.(txs := db.txs[t := row]);
      if ItemsInserted(begun, t, [item]).Some? {
        OneInserted(begun, t, item);
      }
    }
  }

  lemma NoItemsYet(db: Db, t: TxId)
    requires Inv(db) && t !in db.txs
    ensures Total(ItemsOf(db.items, t)) == 0
  {
    hide ChainsOk, DocsOk, UploadsOk, AnnouncedOk, HomesOk, SubmittedOk, RulesOk;
    NoItemsOf(db.items, t);
  }

  /** Claim, failure and parking change one OCR status of a live complete document. */
  lemma StatusWrites(db: Db, d: DocId)
    ensures var live := d in db.docs && !db.docs[d].deleted && db.docs[d].uploadComplete;
            && ClaimDocument(db, d) == Commit(if live && db.docs[d].ocr == OcrPending
                                              then db.(docs := db.docs[d := db.docs[d].(ocr := OcrProcessing)]) else db)
            && FailDocument(db, d) == Commit(if live && db.docs[d].ocr == OcrProcessing
                                             then db.(docs := db.docs[d := db.docs[d].(ocr := OcrFailed)]) else db)
            && ParkDocument(db, d) == Commit(if live && db.docs[d].ocr == OcrProcessing
                                             then db.(docs := db.docs[d := db.docs[d].(ocr := OcrNeedsReview)]) else db)
  {
  }
}
