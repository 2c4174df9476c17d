// Manual edits of drafts: transaction.Update and transaction.Delete over the store.

module TransactionService {
  import opened Tables
  import opened Ledger
  import opened Steps
  import opened Invariants
  import opened DraftGuarantees
  import Evolution
  import Effects
  import opened Store

  const CATEGORIES := ["makan_minum", "transportasi", "material", "utilitas", "lainnya"]

  datatype Edit = Edit(description: Option<string>, items: Option<seq<Line>>, currency: string,
                       category: Option<string>, expected: int)

  /** What Update rejects before it locks anything, items apart; row is the transaction as first read. */
  function EditInvalid(row: Tx, edit: Edit): Option<Error> {
    var currency := if edit.currency == "" then row.header.currency else edit.currency;
    if currency != CURRENCY_IDR then Some(CurrencyInvalid)
    else if edit.category.Some? && edit.category.value !in CATEGORIES then Some(CategoryInvalid)
    else None
  }

  function NewHeader(edit: Edit): Header {
    Header(edit.description, CURRENCY_IDR, edit.category)
  }

  /** The transaction as Update first reads it. */
  ghost predicate Editable(db: Db, actor: Actor, t: TxId) {
    t in db.txs && db.txs[t].org == actor.org && !db.txs[t].deleted
  }

  /** Update, once authorized: the first read, the header, the items, then the step itself. An edit that passes
      validation never fails in the database. */
  method Update(q: Store, actor: Actor, t: TxId, edit: Edit) returns (err: Option<Error>)
    requires q.Valid()
    modifies q
    ensures q.Valid() && err != Some(DatabaseError)
    ensures err.Some? ==> q.State() == old(q.State())
    ensures !Editable(old(q.State()), actor, t) ==> err == Some(NotFound)
    ensures Editable(old(q.State()), actor, t) ==>
              var invalid := EditInvalid(old(q.txs)[t], edit);
              if invalid.Some? then err == invalid
              else if edit.items.Some? && !Acceptable(edit.items.value) then err.Some? && Judged(edit.items.value, err)
              else Follows(old(q.State()), q.State(), err,
                           UpdateTransaction(old(q.State()), actor, t, NewHeader(edit), edit.items, edit.expected))
    ensures err.None? ==> Effects.Edited(old(q.State()), q.State(), t, edit.items, edit.expected)
    ensures err.None? ==> q.txs[t].header.description == edit.description && q.txs[t].header.currency == "IDR"
                          && q.txs[t].header.category == edit.category
    ensures Editable(old(q.State()), actor, t) ==>
              var currency := if edit.currency == "" then old(q.txs)[t].header.currency else edit.currency;
              && (err == Some(CurrencyInvalid) <==> currency != "IDR")
              && (err == Some(CategoryInvalid)
                  <==> currency == "IDR" && edit.category.Some?
                       && edit.category.value !in {"makan_minum", "transportasi", "material", "utilitas", "lainnya"})
  {
    hide Inv, Acceptable, FirstOffender, Effects.Edited;
    if t !in q.txs || q.txs[t].org != actor.org || q.txs[t].deleted {
      return Some(NotFound);
    }
    err := EditInvalid(q.txs[t], edit);
    if err.Some? {
      return;
    }
    if edit.items.Some? {
      err := ValidateItems(edit.items.value);
      if err.Some? {
        return;
      }
    }
    err := UpdateTx(q, actor, t, NewHeader(edit), edit.items, edit.expected);
  }

  /** The transaction of Update, for lines that passed validation. */
  method UpdateTx(q: Store, actor: Actor, t: TxId, header: Header, items: Option<seq<Line>>, expected: int)
    returns (err: Option<Error>)
    requires q.Valid()
    requires items.Some? ==> Acceptable(items.value)
    modifies q
    ensures q.Valid() && err != Some(DatabaseError)
    ensures Follows(old(q.State()), q.State(), err,
                    UpdateTransaction(old(q.State()), actor, t, header, items, expected))
    ensures err.None? ==> Effects.Edited(old(q.State()), q.State(), t, items, expected) && q.txs[t].header == header
    ensures err.Some? ==> err.value in {NotFound, TransactionLocked, TransactionChanged}
  {
    hide Inv, Acceptable, ItemsInserted, ItemsDeleted, Effects.Edited;
    ghost var begin := q.State();
    UpdateKeepsInv(begin, actor, t, header, items, expected);
    if t !in q.txs || q.txs[t].org != actor.org || q.txs[t].deleted {
      return Some(NotFound);
    }
    if q.txs[t].status != Draft {
      return Some(TransactionLocked);
    }
    if q.txs[t].version != expected {
      return Some(TransactionChanged);
    }
    if items.Some? {
      UpdateFailure(begin, actor, t, header, items.value, expected);
    }
    var rows := q.UpdateTransactionDraft(t, actor.org, header, expected);
    if items.Some? {
      ReplaceItems(q, t, items.value, begin);
    }
    q.EmitEvent(TransactionUpdated(t, q.txs[t].total, Manual));
    err := None;
    Effects.UpdateEdits(begin, actor, t, header, items, expected, q.State());
  }

  /** DeleteTransactionItems, then InsertTransactionItems. */
  method ReplaceItems(q: Store, t: TxId, lines: seq<Line>, ghost begin: Db)
    requires t in q.txs && Inv(begin) && q.items == begin.items
    requires ItemsInserted(ItemsDeleted(q.State(), t), t, lines).Some?
    modifies q`items, q`txs
    ensures q.State() == ItemsInserted(ItemsDeleted(old(q.State()), t), t, lines).value
    ensures t in q.txs
  {
    DeletedTouches(q.State(), t);
    ItemRowsAllowed(begin);
    InsertedTouches(ItemsDeleted(q.State(), t), t, lines);
    hide Inv, ItemsInserted, ItemsDeleted;
    q.DeleteTransactionItems(t);
    var ok := q.InsertTransactionItems(t, lines);
  }

  /** Delete: the soft delete is one statement; its event is emitted in a transaction of its own. */
  method Delete(q: Store, actor: Actor, t: TxId) returns (err: Option<Error>)
    requires q.Valid()
    modifies q
    ensures q.Valid()
    ensures if err.None? then q.State() == Run(old(q.State()), [OpSoftDeleteTransaction(actor, t), OpEmitDeleted(t)])
                              && t in q.txs && q.txs[t].deleted
            else SoftDeleteTransaction(old(q.State()), actor, t) == Abort(err.value) && q.State() == old(q.State())
    ensures err.None? <==> t in old(q.txs) && old(q.txs)[t].org == actor.org && old(q.txs)[t].status == Draft
                           && !old(q.txs)[t].deleted
    ensures err.None? ==>
              var row := old(q.txs)[t].(deleted := true, version := old(q.txs)[t].version + 1);
              q.State() == old(q.State()).(txs := old(q.txs)[t := row],
                                           events := old(q.events) + [TransactionDeleted(t)])
  {
    hide Inv;
    Effects.SoftDeleteEffect(q.State(), actor, t);
    ghost var begin := q.State();
    SoftDeleteKeepsInv(begin, actor, t);
    DeleteRuns(begin, actor, t);
    hide Run;
    if t !in q.txs || q.txs[t].org != actor.org || q.txs[t].deleted {
      return Some(NotFound);
    }
    var rows := q.SoftDeleteTransaction(t, actor.org);
    if rows == 0 {
      return Some(TransactionLocked);
    }
    EmitDeletedKeepsInv(q.State(), t);
    q.EmitEvent(TransactionDeleted(t));
    err := None;
  }

  lemma DeleteRuns(db: Db, actor: Actor, t: TxId)
    ensures Run(db, [OpSoftDeleteTransaction(actor, t), OpEmitDeleted(t)])
            == Emit(After(db, SoftDeleteTransaction(db, actor, t)), TransactionDeleted(t))
  {
    Evolution.RunTwo(db, OpSoftDeleteTransaction(actor, t), OpEmitDeleted(t));
    hide Run;
  }
}
