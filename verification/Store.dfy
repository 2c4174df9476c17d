// The database as an object: tables as fields, SQL statements as methods, the two triggers inside them.

module Store {
  import opened Tables
  import opened Ledger
  import opened Rules
  import opened Steps
  import opened Invariants
  import Chain
  import opened Batches
  import opened Sets

  /** What a service method did: exactly the outcome's commit, or its error and no change. */
  ghost predicate Follows(before: Db, after: Db, err: Option<Error>, o: Outcome) {
    match o
    case Commit(db) => err.None? && after == db
    case Abort(e) => err == Some(e) && after == before
  }

  /** ORDER BY step, created_at; rows are numbered as they were created. */
  predicate StepBefore(ap: seq<Approval>, i: nat, j: nat)
    requires i < |ap| && j < |ap|
  {
    ap[i].step < ap[j].step || (ap[i].step == ap[j].step && i < j)
  }

  class Store {
    var projects: map<ProjectId, Project>
    var rules: seq<Rule>
    var txs: map<TxId, Tx>
    var items: seq<Item>
    var approvals: seq<Approval>
    var decisions: seq<Decision>
    var docs: map<DocId, Doc>
    var objects: map<Path, Content>
    var calls: map<CallId, Call>
    var events: seq<Event>

    function State(): Db
      reads this
    {
      Db(projects, rules, txs, items, approvals, decisions, docs, objects, calls, events)
    }

    ghost predicate Valid()
      reads this
    {
      Inv(State())
    }

    constructor ()
      ensures State() == EMPTY && Valid()
    {
      projects, rules, txs, items := map[], [], map[], [];
      approvals, decisions, docs := [], [], map[];
      objects, calls, events := map[], map[], [];
      new;
      EmptyInv();
    }

    /** ROLLBACK to the state at BEGIN. */
    method Rollback(begin: Db)
      modifies this
      ensures State() == begin
    {
      projects, rules, txs, items := begin.projects, begin.rules, begin.txs, begin.items;
      approvals, decisions, docs := begin.approvals, begin.decisions, begin.docs;
      objects, calls, events := begin.objects, begin.calls, begin.events;
    }

    /** CreateOutboxEvent. */
    method EmitEvent(e: Event)
      modifies this`events
      ensures State() == Emit(old(State()), e)
    {
      events := events + [e];
    }

    // ----- transactions

    /** UPDATE transactions for one row: bump_transaction_version sets the version before the write. */
    method WriteTransaction(t: TxId, row: Tx)
      requires t in txs
      modifies this`txs
      ensures State() == old(State()).(txs := Written(old(txs), t, row))
    {
      var bumped := row.(version := txs[t].version + 1);
      txs := txs[t := bumped];
    }

    method SubmitTransaction(t: TxId) returns (rows: nat)
      modifies this`txs
      ensures if t in old(txs) && old(txs)[t].status == Draft && !old(txs)[t].deleted then
                rows == 1 && State() == old(State()).(txs := Written(old(txs), t,
                                                                     old(txs)[t].(status := PendingApproval)))
              else rows == 0 && State() == old(State())
    {
      rows := 0;
      if t in txs && txs[t].status == Draft && !txs[t].deleted {
        WriteTransaction(t, txs[t].(status := PendingApproval));
        rows := 1;
      }
    }

    /** ApproveTransaction and RejectTransaction. */
    method CloseTransaction(t: TxId, s: Status) returns (rows: nat)
      modifies this`txs
      ensures if t in old(txs) && old(txs)[t].status == PendingApproval then
                rows == 1 && State() == old(State()).(txs := Written(old(txs), t, old(txs)[t].(status := s)))
              else rows == 0 && State() == old(State())
    {
      rows := 0;
      if t in txs && txs[t].status == PendingApproval {
        WriteTransaction(t, txs[t].(status := s));
        rows := 1;
      }
    }

    method UpdateTransactionDraft(t: TxId, org: OrgId, header: Header, expected: int) returns (rows: nat)
      modifies this`txs
      ensures if t in old(txs) && old(txs)[t].org == org && old(txs)[t].status == Draft && !old(txs)[t].deleted
                 && old(txs)[t].version == expected then
                rows == 1 && State() == old(State()).(txs := Written(old(txs), t, old(txs)[t].(header := header)))
              else rows == 0 && State() == old(State())
    {
      rows := 0;
      if t in txs && txs[t].org == org && txs[t].status == Draft && !txs[t].deleted && txs[t].version == expected {
        WriteTransaction(t, txs[t].(header := header));
        rows := 1;
      }
    }

    method SoftDeleteTransaction(t: TxId, org: OrgId) returns (rows: nat)
      modifies this`txs
      ensures if t in old(txs) && old(txs)[t].org == org && old(txs)[t].status == Draft && !old(txs)[t].deleted then
                rows == 1 && State() == old(State()).(txs := Written(old(txs), t, old(txs)[t].(deleted := true)))
              else rows == 0 && State() == old(State())
    {
      rows := 0;
      if t in txs && txs[t].org == org && txs[t].status == Draft && !txs[t].deleted {
        WriteTransaction(t, txs[t].(deleted := true));
        rows := 1;
      }
    }

    /** CreateTransaction: INSERT ... SELECT from a live, unarchived project. */
    method CreateTransaction(t: TxId, org: OrgId, project: ProjectId, header: Header, createdBy: UserId)
      returns (rows: nat)
      requires t !in txs
      modifies this`txs
      ensures if project in projects && projects[project].org == org
                 && !projects[project].deleted && !projects[project].archived then
                rows == 1 && State() == old(State()).(txs := old(txs)[t := Tx(org, project, Draft, header, 0, 1,
                                                                              createdBy, false)])
              else rows == 0 && State() == old(State())
    {
      rows := 0;
      if project in projects && projects[project].org == org && !projects[project].deleted
          && !projects[project].archived {
        txs := txs[t := Tx(org, project, Draft, header, 0, 1, createdBy, false)];
        rows := 1;
      }
    }

    // ----- transaction items

    /** sync_transaction_total for one row event: sum the items, write the total, fail out of range. */
    method SyncTotal(t: TxId) returns (ok: bool)
      requires t in txs
      modifies this`txs
      ensures ok <==> 0 <= Total(ItemsOf(items, t)) <= MAX_INT64
      ensures State() == if ok then old(State()).(txs := Written(old(txs), t,
                                                                 old(txs)[t].(total := Total(ItemsOf(items, t)))))
                         else old(State())
    {
      var sum, k := 0, 0;
      while k < |items|
        invariant 0 <= k <= |items|
        invariant sum == Total(ItemsOf(items[..k], t))
        invariant State() == old(State())
      {
        assert items[..k + 1][..k] == items[..k];
        if items[k].tx == t {
          TotalAppendOne(ItemsOf(items[..k], t), items[k].line);
          sum := sum + items[k].line.amount as int;
        }
        k := k + 1;
      }
      assert items[..k] == items;
      ok := 0 <= sum <= MAX_INT64;
      if ok {
        WriteTransaction(t, txs[t].(total := sum));
      }
    }

    /** The AFTER ROW trigger of one statement: it fires once per affected row, and every firing sees all of them. */
    method FireSyncTotal(t: TxId, rows: nat) returns (ok: bool)
      requires t in txs
      modifies this`txs
      ensures ok <==> rows == 0 || 0 <= Total(ItemsOf(items, t)) <= MAX_INT64
      ensures ok ==> State() == if rows == 0 then old(State()) else
                old(State()).(txs := old(txs)[t := old(txs)[t].(total := Total(ItemsOf(items, t)),
                                                                version := old(txs)[t].version + rows)])
    {
      var fired := 0;
      ok := true;
      while fired < rows
        invariant 0 <= fired <= rows && ok
        invariant fired > 0 ==> 0 <= Total(ItemsOf(items, t)) <= MAX_INT64
        invariant State() == if fired == 0 then old(State()) else
                    old(State()).(txs := old(txs)[t := old(txs)[t].(total := Total(ItemsOf(items, t)),
                                                                    version := old(txs)[t].version + fired)])
      {
        ok := SyncTotal(t);
        if !ok {
          return;
        }
        fired := fired + 1;
      }
    }

    /** The scan of DeleteTransactionItems: the rows that stay, and how many go. */
    method ScanOthers(t: TxId) returns (kept: seq<Item>, rows: nat)
      ensures kept == Without(items, t) && rows == |ItemsOf(items, t)|
    {
      kept, rows := [], 0;
      var k := 0;
      while k < |items|
        invariant 0 <= k <= |items|
        invariant kept == Without(items[..k], t) && rows == |ItemsOf(items[..k], t)|
      {
        assert items[..k + 1][..k] == items[..k];
        if items[k].tx == t {
          rows := rows + 1;
        } else {
          kept := kept + [items[k]];
        }
        k := k + 1;
      }
      assert items[..k] == items;
    }

    /** DeleteTransactionItems with its trigger. */
    method DeleteTransactionItems(t: TxId)
      requires t in txs
      modifies this`items, this`txs
      ensures State() == ItemsDeleted(old(State()), t)
    {
      hide Total, ItemsOf, Without;
      var kept, rows := ScanOthers(t);
      ItemsOfWithout(items, t, t);
      TotalNothing();
      if rows == 0 {
        NothingWithout(items, t);
      }
      items := kept;
      var ok := FireSyncTotal(t, rows);
    }

    static lemma TotalNothing()
      ensures Total([]) == 0
    {
    }

    /** The row checks of InsertTransactionItems, row by row. */
    method AppendItems(t: TxId, lines: seq<Line>) returns (ok: bool)
      modifies this`items
      ensures ok <==> RowsAllowed(lines)
      ensures ok ==> items == old(items) + Tagged(t, lines)
    {
      var k := 0;
      while k < |lines|
        invariant 0 <= k <= |lines|
        invariant RowsAllowed(lines[..k])
        invariant items == old(items) + Tagged(t, lines[..k])
      {
        if !(lines[k].quantity > 0 && lines[k].amount >= 0) {
          assert !RowsAllowed(lines);
          return false;
        }
        assert Tagged(t, lines[..k + 1]) == Tagged(t, lines[..k]) + [Item(t, lines[k])];
        items := items + [Item(t, lines[k])];
        k := k + 1;
      }
      assert lines[..k] == lines;
      ok := true;
    }

    /** InsertTransactionItems with its row checks and its trigger; a failed statement ends in a rollback. */
    method InsertTransactionItems(t: TxId, lines: seq<Line>) returns (ok: bool)
      requires t in txs && forall it | it in items :: RowAllowed(it.line)
      modifies this`items, this`txs
      ensures ok <==> ItemsInserted(old(State()), t, lines).Some?
      ensures ok ==> State() == ItemsInserted(old(State()), t, lines).value
    {
      hide Total, ItemsOf;
      ghost var before := ItemsOf(items, t);
      ItemsOfAllowed(items, t);
      TotalNonNegative(before);
      ok := AppendItems(t, lines);
      if ok {
        ItemsOfInsert(old(items), t, lines, t);
        TotalAppend(before, lines);
        TotalNonNegative(lines);
        ok := FireSyncTotal(t, |lines|);
      }
    }

    // ----- approvals

    /** CreateApproval under ux_approvals_tx_approver. */
    method CreateApproval(a: Approval) returns (ok: bool)
      modifies this`approvals
      ensures ok <==> forall i | 0 <= i < |old(approvals)| && old(approvals)[i].tx == a.tx ::
                        old(approvals)[i].approver != a.approver
      ensures State() == if ok then old(State()).(approvals := old(approvals) + [a]) else old(State())
    {
      ok := forall i | 0 <= i < |approvals| && approvals[i].tx == a.tx :: approvals[i].approver != a.approver;
      if ok {
        approvals := approvals + [a];
      }
    }

    method CreateApprovalDecision(d: Decision)
      modifies this`decisions
      ensures State() == old(State()).(decisions := old(decisions) + [d])
    {
      decisions := decisions + [d];
    }

    /** ListApprovalsByTransaction, as row ids: by step, then in creation order. */
    method ListApprovalsByTransaction(t: TxId) returns (ids: seq<nat>)
      ensures forall k | 0 <= k < |ids| :: ids[k] < |approvals|
      ensures forall i: nat :: i in ids <==> i < |approvals| && approvals[i].tx == t
      ensures forall k, l | 0 <= k < l < |ids| :: StepBefore(approvals, ids[k], ids[l])
    {
      var rows := set i: nat | i < |approvals| && approvals[i].tx == t;
      var rank := map i: nat | i < |approvals| && approvals[i].tx == t :: (approvals[i].step, i as int);
      ids := OrderBy(rows, rank);
      assert forall i: nat :: i in ids <==> i in Members(ids);
    }

    method ActivateApprovalStep(t: TxId, step: int, now: Time)
      modifies this`approvals
      ensures State() == old(State()).(approvals := Chain.ActivateStep(old(approvals), t, step, now))
    {
      approvals := Chain.ActivateStep(approvals, t, step, now);
    }

    method CancelPendingApprovals(t: TxId, now: Time)
      modifies this`approvals
      ensures State() == old(State()).(approvals := Chain.CancelRest(old(approvals), decisions, t, now))
    {
      approvals := Chain.CancelRest(approvals, decisions, t, now);
    }

    // ----- documents

    /** ReserveDocumentUpload: INSERT ... ON CONFLICT DO NOTHING on (project, uploader, key). */
    method ReserveDocumentUpload(d: DocId, row: Doc) returns (inserted: bool)
      requires d !in docs
      modifies this`docs
      ensures inserted <==> forall e | e in old(docs) :: !HasKey(old(docs)[e], row.project, row.uploadedBy, row.key)
      ensures State() == if inserted then old(State()).(docs := old(docs)[d := row]) else old(State())
    {
      inserted := forall e | e in docs :: !HasKey(docs[e], row.project, row.uploadedBy, row.key);
      if inserted {
        docs := docs[d := row];
      }
    }

    method GetDocumentUploadByKey(project: ProjectId, user: UserId, key: int) returns (d: Option<DocId>)
      ensures d.None? <==> forall e | e in docs :: !HasKey(docs[e], project, user, key)
      ensures d.Some? ==> d.value in docs && HasKey(docs[d.value], project, user, key)
    {
      if e :| e in docs && HasKey(docs[e], project, user, key) {
        d := Some(e);
      } else {
        d := None;
      }
    }

    method CompleteDocumentUpload(d: DocId) returns (rows: nat)
      modifies this`docs
      ensures if d in old(docs) && !old(docs)[d].uploadComplete && !old(docs)[d].deleted then
                rows == 1 && State() == old(State()).(docs := old(docs)[d := old(docs)[d].(uploadComplete := true)])
              else rows == 0 && State() == old(State())
    {
      rows := 0;
      if d in docs && !docs[d].uploadComplete && !docs[d].deleted {
        docs := docs[d := docs[d].(uploadComplete := true)];
        rows := 1;
      }
    }

    method SoftDeleteDocument(d: DocId) returns (rows: nat)
      modifies this`docs
      ensures if LiveDoc(old(State()), d) then
                rows == 1 && State() == old(State()).(docs := old(docs)[d := old(docs)[d].(deleted := true)])
              else rows == 0 && State() == old(State())
    {
      rows := 0;
      if d in docs && !docs[d].deleted && docs[d].uploadComplete {
        docs := docs[d := docs[d].(deleted := true)];
        rows := 1;
      }
    }

    /** ClaimDocumentForOCR, FailDocumentOCR and CompleteDocumentOCR to needs_review. */
    method SetOcrStatus(d: DocId, from: OcrStatus, to: OcrStatus) returns (rows: nat)
      modifies this`docs
      ensures rows == if LiveDoc(old(State()), d) && old(docs)[d].ocr == from then 1 else 0
      ensures State() == WithOcr(old(State()), d, from, to)
    {
      rows := 0;
      if d in docs && !docs[d].deleted && docs[d].uploadComplete && docs[d].ocr == from {
        docs := docs[d := docs[d].(ocr := to)];
        rows := 1;
      }
    }

    method AttachDocumentToTransaction(d: DocId, t: TxId) returns (rows: nat)
      modifies this`docs
      ensures if LiveDoc(old(State()), d) && old(docs)[d].ocr == OcrProcessing then
                rows == 1 && State() == Bound(old(State()), d, t)
              else rows == 0 && State() == old(State())
    {
      rows := 0;
      if d in docs && !docs[d].deleted && docs[d].uploadComplete && docs[d].ocr == OcrProcessing {
        docs := docs[d := docs[d].(tx := Some(t), ocr := OcrCompleted)];
        rows := 1;
      }
    }

    // ----- projects, rules, objects and calls

    method WriteProject(p: ProjectId, row: Project)
      modifies this`projects
      ensures State() == old(State()).(projects := old(projects)[p := row])
    {
      projects := projects[p := row];
    }

    /** CreateApprovalRule under the partial unique indexes. */
    method CreateApprovalRule(r: Rule) returns (ok: bool)
      modifies this`rules
      ensures ok <==> !Taken(old(rules), r)
      ensures State() == if ok then old(State()).(rules := old(rules) + [r]) else old(State())
    {
      ok := !Taken(rules, r);
      if ok {
        rules := rules + [r];
      }
    }

    method WriteRule(i: nat, r: Rule)
      requires i < |rules|
      modifies this`rules
      ensures State() == old(State()).(rules := old(rules)[i := r])
    {
      rules := rules[i := r];
    }

    /** ReassignApprovalRules, row by row; it fails when a unique index would break. */
    method ReassignApprovalRules(org: OrgId, from: UserId, to: UserId) returns (ok: bool, rows: nat)
      modifies this`rules
      ensures ok <==> Unique(Reassigned(old(rules), org, from, to))
      ensures rows == MovedCount(old(rules), org, from)
      ensures State() == if ok then old(State()).(rules := Reassigned(old(rules), org, from, to)) else old(State())
    {
      var moved: seq<Rule>, k := [], 0;
      rows := 0;
      while k < |rules|
        invariant 0 <= k <= |rules|
        invariant moved == Reassigned(rules[..k], org, from, to)
        invariant rows == MovedCount(rules[..k], org, from)
      {
        assert rules[..k + 1][..k] == rules[..k];
        if Moves(rules[k], org, from) {
          moved := moved + [rules[k].(approver := to)];
          rows := rows + 1;
        } else {
          moved := moved + [rules[k]];
        }
        k := k + 1;
      }
      assert rules[..k] == rules;
      ok := Unique(moved);
      if ok {
        rules := moved;
      }
    }

    method PutObject(path: Path, content: Content)
      modifies this`objects
      ensures State() == old(State()).(objects := old(objects)[path := content])
    {
      objects := objects[path := content];
    }

    /** Bookkeeping of the model: where an upload call stands. */
    method RecordCall(call: CallId, c: Call)
      modifies this`calls
      ensures State() == old(State()).(calls := old(calls)[call := c])
    {
      calls := calls[call := c];
    }
  }

  lemma TotalAppendOne(lines: seq<Line>, l: Line)
    ensures Total(lines + [l]) == Total(lines) + l.amount as int
  {
    assert (lines + [l])[..|lines|] == lines;
  }

  lemma {:induction false} NothingWithout(items: seq<Item>, t: TxId)
    requires ItemsOf(items, t) == []
    ensures Without(items, t) == items
  {
    if items != [] {
      var n := |items| - 1;
      assert items == items[..n] + [items[n]];
      NothingWithout(items[..n], t);
    }
  }
}
