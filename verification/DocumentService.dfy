// Uploads and document deletion: document.upload and document.Delete over the store.

module DocumentService {
  import opened Tables
  import opened Rules
  import opened Steps
  import opened Invariants
  import opened Evolution
  import opened UploadGuarantees
  import opened Store
  import DocumentEffects
  import Effects

  // ----- upload

  /** The first transaction of upload. */
  method Reserve(q: Store, call: CallId, actor: Actor, u: Upload, newDoc: DocId) returns (err: Option<Error>, d: DocId)
    requires q.Valid() && call !in q.calls && newDoc !in q.docs
    requires u.tx.Some? ==> u.tx.value in q.txs && q.txs[u.tx.value].org == actor.org
                             && q.txs[u.tx.value].project == u.project
    modifies q
    ensures q.Valid() && Follows(old(q.State()), q.State(), err, ReserveUpload(old(q.State()), call, actor, u, newDoc))
    ensures err.None? ==> call in q.calls && q.calls[call].doc == d && d in q.docs
                          && q.calls[call].phase == (if q.docs[d].uploadComplete then Returned else Reserved)
  {
    hide Inv, KeyOwner;
    ghost var begin := q.State();
    ReserveKeepsInv(begin, call, actor, u, newDoc);
    d := newDoc;
    if u.project !in q.projects || q.projects[u.project].org != actor.org || q.projects[u.project].deleted {
      return Some(NotFound), d;
    }
    if q.projects[u.project].archived {
      return Some(ProjectIsArchived), d;
    }
    var row := NewDoc(actor, u, newDoc);
    var inserted := q.ReserveDocumentUpload(newDoc, row);
    var owner := q.GetDocumentUploadByKey(u.project, actor.user, u.key);
    OneOwner(begin, u.project, actor.user, u.key);
    assert inserted ==> HasKey(q.docs[newDoc], u.project, actor.user, u.key);
    d := owner.value;
    assert inserted ==> d == newDoc;
    if !SameRequest(q.docs[d], u) || q.docs[d].deleted {
      return Some(IdempotencyKeyReused), d;
    }
    q.RecordCall(call, Call(actor, u, d, if q.docs[d].uploadComplete then Returned else Reserved));
    err := None;
  }

  lemma OneOwner(db: Db, project: ProjectId, user: UserId, key: int)
    requires Inv(db)
    ensures forall d | d in db.docs && HasKey(db.docs[d], project, user, key) ::
            KeyOwner(db.docs, project, user, key) == Some(d)
    ensures (forall d | d in db.docs :: !HasKey(db.docs[d], project, user, key)) ==>
              KeyOwner(db.docs, project, user, key).None?
  {
    hide LedgerOk, ChainsOk, UploadsOk, AnnouncedOk, HomesOk, SubmittedOk, RulesOk;
  }

  /** The second transaction of upload, for a call whose bytes are stored. */
  method Complete(q: Store, call: CallId) returns (err: Option<Error>)
    requires q.Valid() && call in q.calls && q.calls[call].phase == Stored
    modifies q
    ensures q.Valid() && Follows(old(q.State()), q.State(), err, CompleteUpload(old(q.State()), call))
  {
    hide Inv;
    ghost var begin := q.State();
    CompleteKeepsInv(begin, call);
    var c := q.calls[call];
    var u, org := c.upload, c.actor.org;
    if u.project !in q.projects || q.projects[u.project].org != org || q.projects[u.project].deleted {
      return Some(DatabaseError);
    }
    if q.projects[u.project].archived {
      return Some(ProjectIsArchived);
    }
    if u.tx.Some? {
      var t := u.tx.value;
      if t !in q.txs {
        return Some(DatabaseError);
      }
      if q.txs[t].org != org || q.txs[t].project != u.project || q.txs[t].deleted {
        return Some(NotFound);
      }
      if q.txs[t].status != Draft {
        return Some(TransactionLocked);
      }
    }
    if c.doc !in q.docs || q.docs[c.doc].deleted {
      return Some(DatabaseError);
    }
    q.RecordCall(call, c.(phase := Returned));
    if q.docs[c.doc].uploadComplete {
      return None;
    }
    var rows := q.CompleteDocumentUpload(c.doc);
    q.EmitEvent(DocumentCreated(c.doc));
    err := None;
  }

  /** What upload reads between its transactions: the project is usable and the target is still a draft. */
  function TargetRefused(db: Db, actor: Actor, u: Upload): Option<Error> {
    if u.project !in db.projects || db.projects[u.project].org != actor.org || db.projects[u.project].deleted
        then Some(NotFound)
    else if db.projects[u.project].archived then Some(ProjectIsArchived)
    else if u.tx.None? then None
    else
      var t := u.tx.value;
      if t !in db.txs || db.txs[t].org != actor.org || db.txs[t].deleted || db.txs[t].project != u.project
          then Some(NotFound)
      else if db.txs[t].status != Draft then Some(TransactionLocked)
      else None
  }

  /** UploadToProject or AttachToTransaction with upload behind it, without interference from others: key 0 is the
      nil key, stored says whether the object store took the bytes. The contract says what every call answers; a call
      that succeeds leaves a database in which the same request finds its document. */
  method UploadDocument(q: Store, call: CallId, actor: Actor, u: Upload, newDoc: DocId, stored: bool)
    returns (err: Option<Error>, d: DocId)
    requires q.Valid() && call !in q.calls && newDoc !in q.docs
    modifies q
    ensures q.Valid() && Evolves(old(q.State()), q.State())
    ensures err.None? ==> LookUp(q.State(), actor, u) == Found(d)
    ensures err.None? ==> d in q.docs && DocumentEffects.IsUploaded(q.State(), actor, u, d)
    ensures err.None? && old(q.docs) != q.docs ==> !q.projects[u.project].archived
    ensures err == Some(ProjectIsArchived) ==> u.project in q.projects && q.projects[u.project].archived
    ensures err == Some(TransactionLocked) ==> u.tx.Some? && u.tx.value in q.txs && q.txs[u.tx.value].status != Draft
    ensures err.None? && old(q.docs) != q.docs && u.tx.Some? ==> q.txs[u.tx.value].status == Draft
    ensures var seen, refused := LookUp(old(q.State()), actor, u), TargetRefused(old(q.State()), actor, u);
            && (err == Some(NotFound) <==> seen == Gone)
            && (err == Some(IdempotencyKeyRequired) <==> seen != Gone && u.key == 0)
            && (err == Some(IdempotencyKeyReused) <==> seen == Refused && u.key != 0)
            && (seen.Found? && u.key != 0 ==> err.None? && seen == Found(d))
            && (seen == Miss && u.key != 0 ==>
                  err == if refused.Some? then refused else if stored then None else Some(StorageFailed))
            && (seen != Miss || u.key == 0 || refused.Some? ==> q.State() == old(q.State()))
  {
    hide Inv, Evolves, KeyOwner, ReserveUpload, StoreObject, CompleteUpload, DocumentEffects.IsUploaded;
    ghost var begin := q.State();
    EvolvesReflexive(begin);
    d := newDoc;
    FoundTarget(begin, actor, u);
    match u.tx {
      case Some(t) =>
        if t !in q.txs || q.txs[t].org != actor.org || q.txs[t].deleted || q.txs[t].project != u.project {
          return Some(NotFound), d;
        }
      case None =>
        if u.project !in q.projects || q.projects[u.project].org != actor.org || q.projects[u.project].deleted {
          return Some(NotFound), d;
        }
    }
    if u.key == 0 {
      return Some(IdempotencyKeyRequired), d;
    }
    OneOwner(begin, u.project, actor.user, u.key);
    var existing := q.GetDocumentUploadByKey(u.project, actor.user, u.key);
    if existing.Some? {
      var row := q.docs[existing.value];
      if !SameRequest(row, u) || row.deleted {
        return Some(IdempotencyKeyReused), d;
      }
      if row.uploadComplete {
        DocumentEffects.FoundMeans(begin, actor, u, existing.value);
        return None, existing.value;
      }
    }
    err := TargetRefused(q.State(), actor, u);
    if err.Some? {
      TargetErrors(q.State(), actor, u);
      return;
    }
    err, d := Reserve(q, call, actor, u, newDoc);
    ReserveResult(begin, call, actor, u, newDoc);
    ReserveEvolves(begin, call, actor, u, newDoc);
    if err.Some? {
      return;
    }
    ghost var reserved := q.State();
    assert TargetRefused(reserved, actor, u).None?;
    if !stored {
      return Some(StorageFailed), d;
    }
    StoreKeepsInv(reserved, call);
    StoreEvolves(reserved, call);
    StoreResult(reserved, call);
    q.PutObject(q.docs[d].path, u.content);
    q.RecordCall(call, q.calls[call].(phase := Stored));
    ghost var put := q.State();
    EvolvesTransitive(begin, reserved, put);
    CompleteEvolves(put, call);
    CompleteResult(put, call);
    assert TargetRefused(put, actor, u) == TargetRefused(begin, actor, u);
    err := Complete(q, call);
    EvolvesTransitive(begin, put, q.State());
    if err.None? {
      OneOwner(q.State(), u.project, actor.user, u.key);
      assert put.docs == reserved.docs && put.calls[call].doc == d;
      assert HasKey(q.docs[d], u.project, actor.user, u.key) && SameRequest(q.docs[d], u);
      assert KeyOwner(q.State().docs, u.project, actor.user, u.key) == Some(d);
      assert TargetFound(q.State(), actor, u);
      DocumentEffects.FoundMeans(q.State(), actor, u, d);
    }
  }

  lemma TargetErrors(db: Db, actor: Actor, u: Upload)
    ensures TargetRefused(db, actor, u) !in {Some(IdempotencyKeyReused), Some(IdempotencyKeyRequired)}
  {
  }

  /** A target that was found is refused only because the project is archived or the transaction is locked. */
  lemma FoundTarget(db: Db, actor: Actor, u: Upload)
    requires Inv(db)
    ensures TargetFound(db, actor, u) ==>
              LiveProject(db, u.project, actor.org)
              && TargetRefused(db, actor, u) in {None, Some(ProjectIsArchived), Some(TransactionLocked)}
  {
    hide LedgerOk, ChainsOk, DocsOk, UploadsOk, AnnouncedOk, SubmittedOk, RulesOk;
  }

  lemma ReserveResult(db: Db, call: CallId, actor: Actor, u: Upload, newDoc: DocId)
    requires LookUp(db, actor, u) == Miss && TargetRefused(db, actor, u).None? && call !in db.calls
             && newDoc !in db.docs
    ensures var o := ReserveUpload(db, call, actor, u, newDoc);
            && o.Commit? && call in o.db.calls && o.db.calls[call].phase == Reserved
            && o.db.calls[call].actor == actor && o.db.calls[call].upload == u
            && o.db.projects == db.projects && o.db.txs == db.txs
            && var d := o.db.calls[call].doc;
               d in o.db.docs && HasKey(o.db.docs[d], u.project, actor.user, u.key) && SameRequest(o.db.docs[d], u)
               && !o.db.docs[d].deleted && !o.db.docs[d].uploadComplete
  {
  }

  lemma StoreResult(db: Db, call: CallId)
    requires call in db.calls && db.calls[call].phase == Reserved && db.calls[call].doc in db.docs
    ensures var c := db.calls[call];
            StoreObject(db, call) == Commit(db.(objects := db.objects[db.docs[c.doc].path := c.upload.content],
                                                calls := db.calls[call := c.(phase := Stored)]))
  {
  }

  lemma CompleteResult(db: Db, call: CallId)
    requires call in db.calls && db.calls[call].phase == Stored
    ensures var c := db.calls[call];
            TargetRefused(db, c.actor, c.upload).None? && c.doc in db.docs && !db.docs[c.doc].deleted
            ==> CompleteUpload(db, call).Commit?
    ensures var o, d := CompleteUpload(db, call), db.calls[call].doc;
            && o != Abort(IdempotencyKeyReused)
            && (o.Commit? ==> d in db.docs && o.db.projects == db.projects && o.db.txs == db.txs
                              && o.db.docs == db.docs[d := db.docs[d].(uploadComplete := true)])
  {
  }

  // ----- delete

  /** The closure lockTransaction. */
  method LockForEdit(q: Store, actor: Actor, t: TxId) returns (err: Option<Error>)
    ensures err == EditRefused(q.State(), actor, t)
  {
    if t !in q.txs || q.txs[t].org != actor.org || q.txs[t].deleted {
      return Some(NotFound);
    }
    if q.txs[t].status != Draft {
      return Some(TransactionLocked);
    }
    err := None;
  }

  /** A live draft of the organization: its receipts may be deleted. */
  ghost predicate OpenDraft(db: Db, org: OrgId, t: TxId) {
    t in db.txs && db.txs[t].org == org && !db.txs[t].deleted && db.txs[t].status == Draft
  }

  /** Delete: the transaction known before is locked first, then the document, then a transaction bound since. It
      succeeds exactly on a live document of the organization whose transaction, before and now, is one open draft
      or none, and then it has deleted that document and nothing else. */
  method Delete(q: Store, actor: Actor, d: DocId, seen: Option<TxId>) returns (err: Option<Error>)
    requires q.Valid()
    modifies q
    ensures q.Valid() && Follows(old(q.State()), q.State(), err, DeleteDocument(old(q.State()), actor, d, seen))
    ensures err.None? <==>
              && d in old(q.docs) && !old(q.docs)[d].deleted && old(q.docs)[d].uploadComplete
              && old(q.docs)[d].project in q.projects && q.projects[old(q.docs)[d].project].org == actor.org
              && (seen.Some? ==> OpenDraft(old(q.State()), actor.org, seen.value))
              && (old(q.docs)[d].tx.Some? ==> (seen.Some? ==> old(q.docs)[d].tx == seen)
                                              && OpenDraft(old(q.State()), actor.org, old(q.docs)[d].tx.value))
    ensures err.None? ==> d in q.docs && q.docs[d].deleted
                          && q.State() == old(q.State()).(docs := old(q.docs)[d := old(q.docs)[d].(deleted := true)],
                                                          events := old(q.events) + [DocumentDeleted(d)])
    ensures err.Some? ==> q.State() == old(q.State()) && err.value in {NotFound, TransactionLocked, Conflict}
  {
    hide Inv;
    Effects.DeleteCommitsIff(q.State(), actor, d, seen);
    DeleteDocumentKeepsInv(q.State(), actor, d, seen);
    if seen.Some? {
      err := LockForEdit(q, actor, seen.value);
      if err.Some? {
        return;
      }
    }
    if d !in q.docs || q.docs[d].deleted || !q.docs[d].uploadComplete {
      return Some(NotFound);
    }
    var row := q.docs[d];
    if row.project !in q.projects || q.projects[row.project].org != actor.org {
      return Some(NotFound);
    }
    if row.tx.Some? {
      if seen.Some? && seen != row.tx {
        return Some(Conflict);
      }
      if seen.None? {
        err := LockForEdit(q, actor, row.tx.value);
        if err.Some? {
          return;
        }
      }
    }
    var rows := q.SoftDeleteDocument(d);
    q.EmitEvent(DocumentDeleted(d));
    err := None;
  }
}
