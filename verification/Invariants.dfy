// What every commit of every run keeps.

module Invariants {
  import opened Tables
  import opened Ledger
  import opened Rules
  import opened Steps
  import Chain

  // ----- the invariant, table group by table group

  /** Every total is the exact sum of the transaction's items and fits a BIGINT. */
  ghost predicate LedgerOk(txs: map<TxId, Tx>, items: seq<Item>) {
    && (forall t | t in txs ::
          txs[t].total == Total(ItemsOf(items, t)) && 0 <= txs[t].total <= MAX_INT64 && txs[t].version >= 1)
    && (forall it | it in items :: it.tx in txs && RowAllowed(it.line))
  }

  ghost predicate ChainsOk(txs: map<TxId, Tx>, ap: seq<Approval>, ds: seq<Decision>) {
    && Chain.TablesOk(ap, ds)
    && (forall i | 0 <= i < |ap| :: ap[i].tx in txs)
    && (forall t | t in txs :: Chain.ChainOk(txs[t].status, ap, ds, t))
  }

  ghost predicate DocsOk(docs: map<DocId, Doc>, txs: map<TxId, Tx>) {
    && (forall d, e | d in docs && e in docs && HasKey(docs[d], docs[e].project, docs[e].uploadedBy, docs[e].key) ::
        d == e)
    && (forall d | d in docs ::
          && docs[d].path.doc == d
          && (docs[d].tx.Some? ==> docs[d].tx.value in txs && txs[docs[d].tx.value].project == docs[d].project)
          && (docs[d].deleted || docs[d].ocr != OcrPending ==> docs[d].uploadComplete)
          && (docs[d].ocr == OcrCompleted ==> docs[d].tx.Some?))
  }

  /** The row answers the request, apart from the transaction OCR may have bound it to since. */
  ghost predicate Answers(d: Doc, c: Call) {
    && HasKey(d, c.upload.project, c.actor.user, c.upload.key)
    && d.fileName == c.upload.fileName && d.mime == c.upload.mime && d.content == c.upload.content
    && (c.upload.tx.Some? || !d.uploadComplete ==> d.tx == c.upload.tx)
  }

  ghost predicate UploadsOk(docs: map<DocId, Doc>, objects: map<Path, Content>, calls: map<CallId, Call>) {
    && (forall p | p in objects :: p.doc in docs)
    && (forall d | d in docs && docs[d].path in objects :: objects[docs[d].path] == docs[d].content)
    && (forall d | d in docs && docs[d].uploadComplete :: docs[d].path in objects)
    && (forall c | c in calls ::
          && calls[c].doc in docs && Answers(docs[calls[c].doc], calls[c])
          && (calls[c].phase == Stored ==> docs[calls[c].doc].path in objects)
          && (calls[c].phase == Returned ==> docs[calls[c].doc].uploadComplete))
  }

  /** One document.created event per completed upload, none otherwise. */
  ghost predicate AnnouncedOk(docs: map<DocId, Doc>, events: seq<Event>) {
    forall d: DocId :: multiset(events)[DocumentCreated(d)] == if d in docs && docs[d].uploadComplete then 1 else 0
  }

  ghost predicate HomesOk(projects: map<ProjectId, Project>, txs: map<TxId, Tx>, docs: map<DocId, Doc>) {
    && (forall t | t in txs ::
          && txs[t].project in projects && projects[txs[t].project].org == txs[t].org
          && (!txs[t].deleted ==> !projects[txs[t].project].deleted))
    && (forall d | d in docs :: docs[d].project in projects && !projects[docs[d].project].deleted)
  }

  ghost predicate SubmittedOk(txs: map<TxId, Tx>, docs: map<DocId, Doc>) {
    forall t | t in txs && txs[t].status != Draft ::
      !txs[t].deleted && txs[t].total > 0 && LiveDocs(docs, t) != {}
  }

  ghost predicate Inv(db: Db) {
    && RulesOk(db.rules)
    && LedgerOk(db.txs, db.items)
    && ChainsOk(db.txs, db.approvals, db.decisions)
    && DocsOk(db.docs, db.txs)
    && UploadsOk(db.docs, db.objects, db.calls)
    && AnnouncedOk(db.docs, db.events)
    && HomesOk(db.projects, db.txs, db.docs)
    && SubmittedOk(db.txs, db.docs)
  }

  // ----- writing one transaction row

  lemma RowKeepsLedger(txs: map<TxId, Tx>, items: seq<Item>, t: TxId, row: Tx)
    requires LedgerOk(txs, items) && t in txs && row.total == txs[t].total && row.version >= 1
    ensures LedgerOk(txs[t := row], items)
  {
  }

  lemma RowKeepsChains(txs: map<TxId, Tx>, ap: seq<Approval>, ds: seq<Decision>, t: TxId, row: Tx)
    requires ChainsOk(txs, ap, ds)
    requires if t in txs then row.status == txs[t].status else row.status == Draft
    ensures ChainsOk(txs[t := row], ap, ds)
  {
    hide Chain.ChainOk, Chain.TablesOk;
    if t !in txs {
      assert Chain.ChainOk(Draft, ap, ds, t) by {
        assert forall i | 0 <= i < |ap| :: ap[i].tx != t;
        DraftChain(ap, ds, t);
      }
    }
  }

  lemma DraftChain(ap: seq<Approval>, ds: seq<Decision>, t: TxId)
    requires forall i | 0 <= i < |ap| :: ap[i].tx != t
    ensures Chain.ChainOk(Draft, ap, ds, t)
  {
  }

  lemma RowKeepsDocs(docs: map<DocId, Doc>, txs: map<TxId, Tx>, t: TxId, row: Tx)
    requires DocsOk(docs, txs) && (t in txs ==> row.project == txs[t].project)
    ensures DocsOk(docs, txs[t := row])
  {
  }

  lemma RowKeepsHomes(projects: map<ProjectId, Project>, txs: map<TxId, Tx>, docs: map<DocId, Doc>, t: TxId, row: Tx)
    requires HomesOk(projects, txs, docs)
    requires row.project in projects && projects[row.project].org == row.org
    requires !row.deleted ==> !projects[row.project].deleted
    ensures HomesOk(projects, txs[t := row], docs)
  {
  }

  lemma RowKeepsSubmitted(txs: map<TxId, Tx>, docs: map<DocId, Doc>, t: TxId, row: Tx)
    requires SubmittedOk(txs, docs)
    requires row.status != Draft ==> !row.deleted && row.total > 0 && LiveDocs(docs, t) != {}
    ensures SubmittedOk(txs[t := row], docs)
  {
  }

  /** Rewriting a row in place, with its home, status and life as they were. */
  ghost predicate SameRow(a: Tx, b: Tx) {
    a.status == b.status && a.project == b.project && a.org == b.org && a.deleted == b.deleted
  }

  lemma EditKeepsInv(db: Db, t: TxId, db': Db)
    requires Inv(db) && t in db.txs && db.txs[t].status == Draft
    requires t in db'.txs && SameRow(db.txs[t], db'.txs[t])
    requires db' == db.(txs := db.txs[t := db'.txs[t]], items := db'.items, events := db'.events)
    requires LedgerOk(db'.txs, db'.items) && AnnouncedOk(db.docs, db'.events)
    ensures Inv(db')
  {
    hide LedgerOk, ChainsOk, DocsOk, UploadsOk, AnnouncedOk, SubmittedOk, RulesOk;
    RowKeepsChains(db.txs, db.approvals, db.decisions, t, db'.txs[t]);
    RowKeepsDocs(db.docs, db.txs, t, db'.txs[t]);
    RowKeepsHomes(db.projects, db.txs, db.docs, t, db'.txs[t]);
    RowKeepsSubmitted(db.txs, db.docs, t, db'.txs[t]);
  }

  // ----- events

  lemma OthersAnnounceNothing(docs: map<DocId, Doc>, events: seq<Event>, more: seq<Event>)
    requires AnnouncedOk(docs, events) && forall k | 0 <= k < |more| :: !more[k].DocumentCreated?
    ensures AnnouncedOk(docs, events + more)
  {
    forall d: DocId ensures multiset(more)[DocumentCreated(d)] == 0 {
      assert DocumentCreated(d) !in more;
    }
  }

  // ----- items

  lemma DeletedKeepsLedger(db: Db, t: TxId)
    requires t in db.txs && LedgerOk(db.txs, db.items)
    ensures var r := ItemsDeleted(db, t); LedgerOk(r.txs, r.items) && r.txs[t].total == 0
  {
    hide Total, ItemsOf, Without;
    var r := ItemsDeleted(db, t);
    forall u | u in db.txs ensures r.txs[u].total == Total(ItemsOf(r.items, u)) && (u == t ==> r.txs[u].total == 0) {
      DeletedTotal(db.items, t, u);
    }
  }

  lemma DeletedTotal(items: seq<Item>, t: TxId, u: TxId)
    ensures Total(ItemsOf(Without(items, t), u)) == if u == t then 0 else Total(ItemsOf(items, u))
    ensures |ItemsOf(items, t)| == 0 ==> Total(ItemsOf(items, t)) == 0
  {
    ItemsOfWithout(items, t, u);
    assert Total([]) == 0;
  }

  lemma ItemRowsAllowed(db: Db)
    requires Inv(db)
    ensures forall it | it in db.items :: RowAllowed(it.line)
  {
    hide ChainsOk, DocsOk, UploadsOk, AnnouncedOk, HomesOk, SubmittedOk, RulesOk;
  }

  lemma DeletedTouches(db: Db, t: TxId)
    requires t in db.txs
    ensures t in ItemsDeleted(db, t).txs
    ensures forall it | it in ItemsDeleted(db, t).items :: it in db.items
  {
  }

  /** The insert succeeds exactly when the rows pass their checks and the new total fits the column. */
  lemma InsertAccepted(db: Db, t: TxId, lines: seq<Line>)
    requires t in db.txs && LedgerOk(db.txs, db.items)
    ensures ItemsInserted(db, t, lines).Some?
            <==> lines == [] || (RowsAllowed(lines) && db.txs[t].total + Total(lines) <= MAX_INT64)
  {
  }

  lemma InsertedKeepsLedger(db: Db, t: TxId, lines: seq<Line>)
    requires t in db.txs && LedgerOk(db.txs, db.items) && ItemsInserted(db, t, lines).Some?
    ensures var r := ItemsInserted(db, t, lines).value; LedgerOk(r.txs, r.items)
  {
    hide Total, ItemsOf;
    var r := ItemsInserted(db, t, lines).value;
    if lines != [] {
      TotalNonNegative(lines);
      forall u | u in db.txs ensures r.txs[u].total == Total(ItemsOf(r.items, u)) {
        InsertedTotal(db.items, t, lines, u);
      }
      forall it | it in r.items ensures it.tx in r.txs && RowAllowed(it.line) {
        if it !in db.items { assert it in Tagged(t, lines); }
      }
    }
  }

  lemma InsertedTotal(items: seq<Item>, t: TxId, lines: seq<Line>, u: TxId)
    ensures Total(ItemsOf(items + Tagged(t, lines), u))
            == Total(ItemsOf(items, u)) + if u == t then Total(lines) else 0
  {
    ItemsOfInsert(items, t, lines, u);
    if u == t {
      TotalAppend(ItemsOf(items, u), lines);
    } else {
      assert ItemsOf(items, u) + [] == ItemsOf(items, u);
    }
  }

  lemma {:induction false} NoItemsOf(items: seq<Item>, t: TxId)
    requires forall it | it in items :: it.tx != t
    ensures ItemsOf(items, t) == []
  {
    if items != [] {
      assert items[|items| - 1] in items;
      assert forall it | it in items[..|items| - 1] :: it in items;
      NoItemsOf(items[..|items| - 1], t);
    }
  }

  // ----- manual edits

  lemma UpdateKeepsLedger(db: Db, t: TxId, row: Tx, lines: seq<Line>)
    requires LedgerOk(db.txs, db.items) && t in db.txs && row.total == db.txs[t].total && row.version >= 1
    ensures var r := ItemsInserted(ItemsDeleted(db.(txs := db.txs[t := row]), t), t, lines);
            r.Some? ==> LedgerOk(r.value.txs, r.value.items)
  {
    hide LedgerOk;
    var edited := db.(txs := db.txs[t := row]);
    RowKeepsLedger(db.txs, db.items, t, row);
    DeletedKeepsLedger(edited, t);
    var cleared := ItemsDeleted(edited, t);
    if ItemsInserted(cleared, t, lines).Some? {
      InsertedKeepsLedger(cleared, t, lines);
    }
  }

  /** Replacing the items changes the items, and in t's row the total and the version. */
  lemma ReplacedTouches(db: Db, t: TxId, row: Tx, lines: seq<Line>)
    requires t in db.txs
    ensures var r := ItemsInserted(ItemsDeleted(db.(txs := db.txs[t := row]), t), t, lines);
            r.Some? ==> t in r.value.txs && SameRow(row, r.value.txs[t]) && r.value.txs[t].header == row.header
                        && r.value == db.(txs := db.txs[t := r.value.txs[t]], items := r.value.items)
  {
    hide Total, ItemsOf, Without;
  }

  lemma UpdateKeepsInv(db: Db, actor: Actor, t: TxId, header: Header, items: Option<seq<Line>>, expected: int)
    requires Inv(db)
    ensures Inv(After(db, UpdateTransaction(db, actor, t, header, items, expected)))
  {
    hide LedgerOk, ChainsOk, DocsOk, UploadsOk, AnnouncedOk, HomesOk, SubmittedOk, RulesOk, ItemsInserted, ItemsDeleted;
    var o := UpdateTransaction(db, actor, t, header, items, expected);
    if o.Commit? {
      var row := db.txs[t].(header := header, version := db.txs[t].version + 1);
      VersionPositive(db, t);
      RowKeepsLedger(db.txs, db.items, t, row);
      if items.Some? {
        UpdateKeepsLedger(db, t, row, items.value);
        ReplacedTouches(db, t, row, items.value);
      }
      OthersAnnounceNothing(db.docs, db.events, [TransactionUpdated(t, o.db.txs[t].total, Manual)]);
      EditKeepsInv(db, t, o.db);
    }
  }

  lemma VersionPositive(db: Db, t: TxId)
    requires LedgerOk(db.txs, db.items) && t in db.txs
    ensures db.txs[t].version >= 1
  {
  }

  lemma SoftDeleteKeepsInv(db: Db, actor: Actor, t: TxId)
    requires Inv(db)
    ensures Inv(After(db, SoftDeleteTransaction(db, actor, t)))
  {
    hide LedgerOk, ChainsOk, DocsOk, UploadsOk, AnnouncedOk, SubmittedOk, RulesOk;
    var o := SoftDeleteTransaction(db, actor, t);
    if o.Commit? {
      var row := o.db.txs[t];
      VersionPositive(db, t);
      RowKeepsLedger(db.txs, db.items, t, row);
      RowKeepsChains(db.txs, db.approvals, db.decisions, t, row);
      RowKeepsDocs(db.docs, db.txs, t, row);
      RowKeepsHomes(db.projects, db.txs, db.docs, t, row);
      RowKeepsSubmitted(db.txs, db.docs, t, row);
    }
  }

  // ----- submit and decide

  /** The transaction rows a status change leaves: everything but the chains. */
  lemma StatusKeepsInv(db: Db, t: TxId, s: Status, db': Db)
    requires Inv(db) && t in db.txs && s != Draft && !db.txs[t].deleted && db.txs[t].total > 0
    requires LiveDocs(db.docs, t) != {}
    requires db'.txs == Written(db.txs, t, db.txs[t].(status := s))
    requires db' == db.(txs := db'.txs, approvals := db'.approvals, decisions := db'.decisions, events := db'.events)
    requires ChainsOk(db'.txs, db'.approvals, db'.decisions) && AnnouncedOk(db.docs, db'.events)
    ensures Inv(db')
  {
    hide LedgerOk, ChainsOk, DocsOk, UploadsOk, AnnouncedOk, SubmittedOk, RulesOk;
    var row := db'.txs[t];
    VersionPositive(db, t);
    RowKeepsLedger(db.txs, db.items, t, row);
    RowKeepsDocs(db.docs, db.txs, t, row);
    RowKeepsHomes(db.projects, db.txs, db.docs, t, row);
    RowKeepsSubmitted(db.txs, db.docs, t, row);
  }

  /** Changing one transaction's approvals and decisions keeps every other chain. */
  lemma OthersKeepChains(txs: map<TxId, Tx>, ap: seq<Approval>, ds: seq<Decision>,
                         ap': seq<Approval>, ds': seq<Decision>, t: TxId)
    requires forall u | u in txs :: Chain.ChainOk(txs[u].status, ap, ds, u)
    requires |ap| <= |ap'|
    requires forall i: nat | i < |ap| && ap[i].tx != t ::
               ap'[i] == ap[i] && Chain.DecisionOf(ds', i) == Chain.DecisionOf(ds, i)
    requires forall i: nat | i < |ap'| && ap'[i].tx != t :: i < |ap| && ap[i].tx != t
    ensures forall u | u in txs && u != t :: Chain.ChainOk(txs[u].status, ap', ds', u)
  {
    hide Chain.ChainOk, Chain.DecisionOf;
    forall u | u in txs && u != t ensures Chain.ChainOk(txs[u].status, ap', ds', u) {
      Chain.ChainFramed(txs[u].status, ap, ds, ap', ds', u);
    }
  }

  lemma SubmitKeepsChains(db: Db, t: TxId, rules: seq<Rule>, now: Time, txs': map<TxId, Tx>)
    requires ChainsOk(db.txs, db.approvals, db.decisions) && t in db.txs && db.txs[t].status == Draft
    requires rules != [] && Ordered(rules) && DistinctApprovers(rules)
    requires forall i | 0 <= i < |rules| :: 1 <= rules[i].step <= 10
    requires txs' == Written(db.txs, t, db.txs[t].(status := PendingApproval))
    ensures ChainsOk(txs', db.approvals + Chain.Snapshot(t, rules, now), db.decisions)
  {
    var ap, ds := db.approvals, db.decisions;
    var ap' := ap + Chain.Snapshot(t, rules, now);
    hide Chain.TablesOk, Chain.AtStep, Chain.ChainOk, Chain.DecisionOf;
    assert Chain.ChainOk(Draft, ap, ds, t);
    Chain.SnapshotStartsChain(ap, ds, t, rules, now);
    Chain.StepMakesChain(ap', ds, t, rules[0].step);
    OthersKeepChains(db.txs, ap, ds, ap', ds, t);
  }

  lemma SubmitKeepsInv(db: Db, actor: Actor, t: TxId, known: set<UserId>, now: Time)
    requires Inv(db)
    ensures Inv(After(db, Submit(db, actor, t, known, now)))
  {
    hide LedgerOk, ChainsOk, DocsOk, UploadsOk, AnnouncedOk, HomesOk, SubmittedOk, RulesOk, Resolve;
    var o := Submit(db, actor, t, known, now);
    if o.Commit? {
      var rules := Resolve(db.rules, actor.org, db.txs[t].project);
      ResolveMeaning(db.rules, actor.org, db.txs[t].project);
      SubmitKeepsChains(db, t, rules, now, o.db.txs);
      var more := [StepActivated(t, NotifiedAtSubmit(rules), rules[0].step), TransactionSubmitted(t)];
      OthersAnnounceNothing(db.docs, db.events, more);
      StatusKeepsInv(db, t, PendingApproval, o.db);
    }
  }

  /** A decidable approval of a pending transaction sits at the transaction's current step. */
  lemma DecideKeepsChains(db: Db, i: nat, v: Verdict, now: Time, txs': map<TxId, Tx>)
    requires ChainsOk(db.txs, db.approvals, db.decisions)
    requires Chain.Decidable(db.approvals, db.decisions, i) && db.approvals[i].tx in db.txs
    requires db.txs[db.approvals[i].tx].status == PendingApproval
    requires var b := Chain.Decided(db.approvals, db.decisions, db.approvals[i].tx, i, db.approvals[i].approver, v,
                                    now);
             && txs'.Keys == db.txs.Keys && txs'[db.approvals[i].tx].status == b.status
             && forall u | u in db.txs && u != db.approvals[i].tx :: txs'[u] == db.txs[u]
    ensures var b := Chain.Decided(db.approvals, db.decisions, db.approvals[i].tx, i, db.approvals[i].approver, v, now);
            ChainsOk(txs', b.approvals, b.decisions)
  {
    hide Chain.TablesOk, Chain.AtStep, Chain.ChainOk, Chain.DecisionOf, Chain.Decided;
    var ap, ds, t := db.approvals, db.decisions, db.approvals[i].tx;
    var b := Chain.Decided(ap, ds, t, i, ap[i].approver, v, now);
    assert Chain.ChainOk(PendingApproval, ap, ds, t);
    DecidedKeepsOwnChain(ap, ds, t, i, v, now);
    DecidedTouchesOwn(ap, ds, t, i, ap[i].approver, v, now);
    OthersKeepChains(db.txs, ap, ds, b.approvals, b.decisions, t);
  }

  lemma DecidedKeepsOwnChain(ap: seq<Approval>, ds: seq<Decision>, t: TxId, i: nat, v: Verdict, now: Time)
    requires Chain.TablesOk(ap, ds) && Chain.ChainOk(PendingApproval, ap, ds, t)
    requires Chain.Decidable(ap, ds, i) && ap[i].tx == t
    ensures var b := Chain.Decided(ap, ds, t, i, ap[i].approver, v, now);
            Chain.TablesOk(b.approvals, b.decisions) && Chain.ChainOk(b.status, b.approvals, b.decisions, t)
  {
    hide Chain.TablesOk, Chain.AtStep, Chain.Decided;
    var c :| Chain.AtStep(ap, ds, t, c);
    Chain.DecidedKeepsTables(ap, ds, t, c, i, v, now);
    Chain.DecidedKeepsChain(ap, ds, t, c, i, v, now);
  }

  /** A decision on t changes approvals of t only, and no row's owner, approver or step. */
  lemma DecidedTouchesOwn(ap: seq<Approval>, ds: seq<Decision>, t: TxId, i: nat, user: UserId, v: Verdict, now: Time)
    requires i < |ap| && ap[i].tx == t
    ensures var b := Chain.Decided(ap, ds, t, i, user, v, now);
            && |b.approvals| == |ap|
            && (forall j: nat | j < |ap| ::
                  && b.approvals[j].tx == ap[j].tx
                  && (ap[j].tx != t ==>
                        b.approvals[j] == ap[j] && Chain.DecisionOf(b.decisions, j) == Chain.DecisionOf(ds, j)))
  {
    Chain.DecisionOfExtended(ds, Decision(i, user, v));
  }

  lemma DecideKeepsInv(db: Db, actor: Actor, i: nat, v: Verdict, active: bool, now: Time)
    requires Inv(db)
    ensures Inv(After(db, Decide(db, actor, i, v, active, now)))
  {
    hide LedgerOk, ChainsOk, DocsOk, UploadsOk, AnnouncedOk, HomesOk;
    hide SubmittedOk, RulesOk, Chain.Decided, Chain.NextMove;
    var o := Decide(db, actor, i, v, active, now);
    if o.Commit? {
      var t := db.approvals[i].tx;
      var more := o.db.events[|db.events|..];
      assert o.db.events == db.events + more;
      DecideKeepsChains(db, i, v, now, o.db.txs);
      OthersAnnounceNothing(db.docs, db.events, more);
      var b := Chain.Decided(db.approvals, db.decisions, t, i, actor.user, v, now);
      if b.status != PendingApproval {
        DecidedStatus(db.approvals, db.decisions, t, i, actor.user, v, now);
        PendingIsLive(db, t);
        StatusKeepsInv(db, t, b.status, o.db);
      }
    }
  }

  lemma DecidedStatus(ap: seq<Approval>, ds: seq<Decision>, t: TxId, i: nat, user: UserId, v: Verdict, now: Time)
    ensures Chain.Decided(ap, ds, t, i, user, v, now).status != Draft
  {
  }

  lemma PendingIsLive(db: Db, t: TxId)
    requires SubmittedOk(db.txs, db.docs) && t in db.txs && db.txs[t].status != Draft
    ensures !db.txs[t].deleted && db.txs[t].total > 0 && LiveDocs(db.docs, t) != {}
  {
  }

  // ----- projects and rules

  lemma ProjectKeepsHomes(projects: map<ProjectId, Project>, txs: map<TxId, Tx>, docs: map<DocId, Doc>, p: ProjectId,
                          row: Project)
    requires HomesOk(projects, txs, docs) && (p in projects ==> row.org == projects[p].org)
    requires !row.deleted || ((forall t | t in txs && txs[t].project == p :: txs[t].deleted)
                              && (forall d | d in docs :: docs[d].project != p))
    ensures HomesOk(projects[p := row], txs, docs)
  {
  }

  lemma EnsuredKeepsRules(rules: seq<Rule>, actor: Actor)
    requires RulesOk(rules)
    ensures RulesOk(DefaultRuleEnsured(rules, actor))
  {
  }

  lemma ProjectStepKeepsInv(db: Db, op: Op)
    requires Inv(db)
    requires op.OpCreateProject? || op.OpArchiveProject? || op.OpUnarchiveProject? || op.OpDeleteProject?
    ensures Inv(Next(db, op))
  {
    hide LedgerOk, ChainsOk, DocsOk, UploadsOk, AnnouncedOk, HomesOk, SubmittedOk, RulesOk, DefaultRuleEnsured;
    var o := Step(db, op);
    if o.Commit? {
      var p := op.project;
      EnsuredKeepsRules(db.rules, op.actor);
      ProjectKeepsHomes(db.projects, db.txs, db.docs, p, o.db.projects[p]);
      OthersAnnounceNothing(db.docs, db.events, [o.db.events[|db.events|]]);
    }
  }

  /** The guards of the rule steps keep the rule table's constraints. */
  lemma RuleStepKeepsRules(db: Db, op: Op)
    requires RulesOk(db.rules)
    requires op.OpCreateRule? || op.OpUpdateRule? || op.OpDeleteRule? || op.OpInsertDefaultRule? || op.OpReassignRules?
    ensures RulesOk(Next(db, op).rules)
  {
    hide Unique, Taken;
    match op
    case OpInsertDefaultRule(actor) => EnsuredKeepsRules(db.rules, actor);
    case OpCreateRule(actor, scope, approver, step) =>
      AddedKeepsRules(db.rules, Rule(actor.org, scope, approver, step, false));
    case OpUpdateRule(actor, i, step) =>
      if LiveRule(db, actor, i) { RewrittenKeepsRules(db.rules, i, db.rules[i].(step := step)); }
    case OpDeleteRule(actor, i) =>
      if LiveRule(db, actor, i) { RewrittenKeepsRules(db.rules, i, db.rules[i].(deleted := true)); }
    case OpReassignRules(org, from, to) =>
  }

  lemma AddedKeepsRules(rules: seq<Rule>, r: Rule)
    requires RulesOk(rules)
    ensures 1 <= r.step <= 10 && !Taken(rules, r) ==> RulesOk(rules + [r])
  {
  }

  lemma RewrittenKeepsRules(rules: seq<Rule>, i: nat, r: Rule)
    requires RulesOk(rules) && i < |rules| && SameScope(r, rules[i]) && r.approver == rules[i].approver
    requires rules[i].deleted ==> r.deleted
    ensures 1 <= r.step <= 10 ==> RulesOk(rules[i := r])
  {
  }

  lemma RuleStepKeepsInv(db: Db, op: Op)
    requires Inv(db)
    requires op.OpCreateRule? || op.OpUpdateRule? || op.OpDeleteRule? || op.OpInsertDefaultRule? || op.OpReassignRules?
    ensures Inv(Next(db, op))
  {
    RuleStepKeepsRules(db, op);
    hide LedgerOk, ChainsOk, DocsOk, UploadsOk, AnnouncedOk, HomesOk, SubmittedOk;
    hide RulesOk, DefaultRuleEnsured, Taken, Unique;
    var o := Step(db, op);
    if o.Commit? && !op.OpInsertDefaultRule? {
      OthersAnnounceNothing(db.docs, db.events, [o.db.events[|db.events|]]);
    }
  }

  // ----- writing one document row

  /** The columns of a document that never change; the transaction is set at most once. */
  ghost predicate SameUpload(a: Doc, b: Doc) {
    && a.project == b.project && a.uploadedBy == b.uploadedBy && a.key == b.key && a.path == b.path
    && a.fileName == b.fileName && a.mime == b.mime && a.content == b.content
    && (a.tx.Some? || !b.uploadComplete ==> b.tx == a.tx)
    && (a.uploadComplete ==> b.uploadComplete)
  }

  ghost predicate DocRowOk(d: DocId, row: Doc, txs: map<TxId, Tx>) {
    && row.path.doc == d
    && (row.tx.Some? ==> row.tx.value in txs && txs[row.tx.value].project == row.project)
    && (row.deleted || row.ocr != OcrPending ==> row.uploadComplete)
    && (row.ocr == OcrCompleted ==> row.tx.Some?)
  }

  lemma DocKeepsDocs(docs: map<DocId, Doc>, txs: map<TxId, Tx>, d: DocId, row: Doc)
    requires DocsOk(docs, txs) && d in docs && SameUpload(docs[d], row) && DocRowOk(d, row, txs)
    ensures DocsOk(docs[d := row], txs)
  {
  }

  lemma DocKeepsUploads(docs: map<DocId, Doc>, objects: map<Path, Content>, calls: map<CallId, Call>, d: DocId,
                        row: Doc)
    requires UploadsOk(docs, objects, calls) && d in docs && SameUpload(docs[d], row)
    requires row.uploadComplete ==> row.path in objects
    ensures UploadsOk(docs[d := row], objects, calls)
  {
  }

  lemma DocKeepsHomes(projects: map<ProjectId, Project>, txs: map<TxId, Tx>, docs: map<DocId, Doc>, d: DocId, row: Doc)
    requires HomesOk(projects, txs, docs) && row.project in projects && !projects[row.project].deleted
    ensures HomesOk(projects, txs, docs[d := row])
  {
  }

  /** A document row may change unless that takes a live document from a submitted transaction. */
  lemma DocKeepsSubmitted(txs: map<TxId, Tx>, docs: map<DocId, Doc>, d: DocId, row: Doc)
    requires SubmittedOk(txs, docs)
    requires d in docs ==> SameUpload(docs[d], row)
    requires d in docs && docs[d].tx.Some? && docs[d].tx.value in txs && txs[docs[d].tx.value].status != Draft
             ==> row.deleted == docs[d].deleted
    ensures SubmittedOk(txs, docs[d := row])
  {
    forall t | t in txs && txs[t].status != Draft ensures LiveDocs(docs[d := row], t) != {} {
      var e :| e in LiveDocs(docs, t);
      assert e in LiveDocs(docs[d := row], t);
    }
  }

  lemma DocKeepsAnnounced(docs: map<DocId, Doc>, events: seq<Event>, d: DocId, row: Doc)
    requires AnnouncedOk(docs, events)
    requires row.uploadComplete == (d in docs && docs[d].uploadComplete)
    ensures AnnouncedOk(docs[d := row], events)
  {
  }

  lemma LiveDocFacts(db: Db, d: DocId)
    requires Inv(db) && d in db.docs
    ensures DocRowOk(d, db.docs[d], db.txs)
    ensures db.docs[d].project in db.projects && !db.projects[db.docs[d].project].deleted
    ensures db.docs[d].uploadComplete ==> db.docs[d].path in db.objects
  {
    hide LedgerOk, ChainsOk, AnnouncedOk, SubmittedOk, RulesOk;
  }

  /** Rewriting a live document's OCR state, binding or life. */
  lemma DocEditKeepsInv(db: Db, d: DocId, row: Doc)
    requires Inv(db) && LiveDoc(db, d)
    requires SameUpload(db.docs[d], row) && DocRowOk(d, row, db.txs)
    requires db.docs[d].tx.Some? && db.docs[d].tx.value in db.txs && db.txs[db.docs[d].tx.value].status != Draft
             ==> !row.deleted
    ensures Inv(db.(docs := db.docs[d := row]))
  {
    hide LedgerOk, ChainsOk, DocsOk, UploadsOk, AnnouncedOk, HomesOk, SubmittedOk, RulesOk;
    LiveDocFacts(db, d);
    DocKeepsDocs(db.docs, db.txs, d, row);
    DocKeepsUploads(db.docs, db.objects, db.calls, d, row);
    DocKeepsHomes(db.projects, db.txs, db.docs, d, row);
    DocKeepsSubmitted(db.txs, db.docs, d, row);
    DocKeepsAnnounced(db.docs, db.events, d, row);
  }

  // ----- uploads

  lemma CallKeepsUploads(docs: map<DocId, Doc>, objects: map<Path, Content>, calls: map<CallId, Call>, call: CallId,
                         c: Call)
    requires UploadsOk(docs, objects, calls)
    requires c.doc in docs && Answers(docs[c.doc], c)
    requires c.phase == Stored ==> docs[c.doc].path in objects
    requires c.phase == Returned ==> docs[c.doc].uploadComplete
    ensures UploadsOk(docs, objects, calls[call := c])
  {
  }

  lemma NewDocKeepsDocs(docs: map<DocId, Doc>, txs: map<TxId, Tx>, d: DocId, row: Doc)
    requires DocsOk(docs, txs) && d !in docs && DocRowOk(d, row, txs)
    requires forall e | e in docs :: !HasKey(docs[e], row.project, row.uploadedBy, row.key)
    ensures DocsOk(docs[d := row], txs)
  {
  }

  lemma NewDocKeepsUploads(docs: map<DocId, Doc>, objects: map<Path, Content>, calls: map<CallId, Call>, d: DocId,
                           row: Doc)
    requires UploadsOk(docs, objects, calls) && d !in docs && !row.uploadComplete && row.path.doc == d
    ensures UploadsOk(docs[d := row], objects, calls)
  {
  }

  lemma ReserveKeepsInv(db: Db, call: CallId, actor: Actor, u: Upload, newDoc: DocId)
    requires Inv(db)
    ensures Inv(After(db, ReserveUpload(db, call, actor, u, newDoc)))
  {
    hide LedgerOk, ChainsOk, DocsOk, UploadsOk, AnnouncedOk, HomesOk, SubmittedOk, RulesOk;
    var o := ReserveUpload(db, call, actor, u, newDoc);
    if o.Commit? {
      var owner := KeyOwner(db.docs, u.project, actor.user, u.key);
      if owner.Some? {
        CallKeepsUploads(db.docs, db.objects, db.calls, call, o.db.calls[call]);
      } else {
        var row := NewDoc(actor, u, newDoc);
        NewDocKeepsDocs(db.docs, db.txs, newDoc, row);
        NewDocKeepsUploads(db.docs, db.objects, db.calls, newDoc, row);
        CallKeepsUploads(o.db.docs, db.objects, db.calls, call, o.db.calls[call]);
        DocKeepsHomes(db.projects, db.txs, db.docs, newDoc, row);
        DocKeepsSubmitted(db.txs, db.docs, newDoc, row);
        DocKeepsAnnounced(db.docs, db.events, newDoc, row);
      }
    }
  }

  lemma PathOwner(docs: map<DocId, Doc>, txs: map<TxId, Tx>, d: DocId)
    requires DocsOk(docs, txs) && d in docs
    ensures docs[d].path.doc == d
  {
  }

  lemma StoreKeepsUploads(docs: map<DocId, Doc>, objects: map<Path, Content>, calls: map<CallId, Call>, call: CallId)
    requires UploadsOk(docs, objects, calls) && call in calls && calls[call].phase == Reserved
             && calls[call].doc in docs
    requires forall d | d in docs :: docs[d].path.doc == d
    ensures UploadsOk(docs, objects[docs[calls[call].doc].path := calls[call].upload.content],
                      calls[call := calls[call].(phase := Stored)])
  {
  }

  lemma StoreKeepsInv(db: Db, call: CallId)
    requires Inv(db)
    ensures Inv(After(db, StoreObject(db, call)))
  {
    hide LedgerOk, ChainsOk, DocsOk, UploadsOk, AnnouncedOk, HomesOk, SubmittedOk, RulesOk;
    if StoreObject(db, call).Commit? {
      forall d | d in db.docs ensures db.docs[d].path.doc == d {
        PathOwner(db.docs, db.txs, d);
      }
      StoreKeepsUploads(db.docs, db.objects, db.calls, call);
    }
  }

  lemma CompleteKeepsUploads(db: Db, call: CallId)
    requires UploadsOk(db.docs, db.objects, db.calls)
    ensures var db' := After(db, CompleteUpload(db, call)); UploadsOk(db'.docs, db'.objects, db'.calls)
  {
    hide UploadsOk;
    var o := CompleteUpload(db, call);
    if o.Commit? {
      var d := db.calls[call].doc;
      CallFacts(db, call);
      DocKeepsUploads(db.docs, db.objects, db.calls, d, o.db.docs[d]);
      assert db.docs == db.docs[d := db.docs[d]];
      CallKeepsUploads(o.db.docs, db.objects, db.calls, call, o.db.calls[call]);
    }
  }

  lemma CallFacts(db: Db, call: CallId)
    requires UploadsOk(db.docs, db.objects, db.calls) && call in db.calls
    ensures var c := db.calls[call];
            && c.doc in db.docs && Answers(db.docs[c.doc], c)
            && (c.phase == Stored ==> db.docs[c.doc].path in db.objects)
            && (c.phase == Returned ==> db.docs[c.doc].uploadComplete)
  {
  }

  lemma CompletionAnnounces(docs: map<DocId, Doc>, events: seq<Event>, d: DocId, row: Doc)
    requires AnnouncedOk(docs, events) && d in docs && !docs[d].uploadComplete && row.uploadComplete
    ensures AnnouncedOk(docs[d := row], events + [DocumentCreated(d)])
  {
  }

  lemma CompleteKeepsInv(db: Db, call: CallId)
    requires Inv(db)
    ensures Inv(After(db, CompleteUpload(db, call)))
  {
    hide LedgerOk, ChainsOk, DocsOk, UploadsOk, AnnouncedOk, HomesOk, SubmittedOk, RulesOk;
    var o := CompleteUpload(db, call);
    CompleteKeepsUploads(db, call);
    if o.Commit? {
      var d := db.calls[call].doc;
      if !db.docs[d].uploadComplete {
        var row := o.db.docs[d];
        LiveDocFacts(db, d);
        DocKeepsDocs(db.docs, db.txs, d, row);
        DocKeepsHomes(db.projects, db.txs, db.docs, d, row);
        DocKeepsSubmitted(db.txs, db.docs, d, row);
        CompletionAnnounces(db.docs, db.events, d, row);
      }
    }
  }

  lemma DeleteDocumentKeepsInv(db: Db, actor: Actor, d: DocId, seen: Option<TxId>)
    requires Inv(db)
    ensures Inv(After(db, DeleteDocument(db, actor, d, seen)))
  {
    hide LedgerOk, ChainsOk, DocsOk, UploadsOk, AnnouncedOk, HomesOk, SubmittedOk, RulesOk;
    var o := DeleteDocument(db, actor, d, seen);
    if o.Commit? {
      LiveDocFacts(db, d);
      DocEditKeepsInv(db, d, o.db.docs[d]);
      OthersAnnounceNothing(o.db.docs, db.events, [DocumentDeleted(d)]);
    }
  }

  // ----- OCR

  lemma OcrStatusKeepsInv(db: Db, d: DocId, from: OcrStatus, to: OcrStatus)
    requires Inv(db) && to != OcrCompleted && from != OcrCompleted
    ensures Inv(WithOcr(db, d, from, to))
  {
    hide LedgerOk, ChainsOk, DocsOk, UploadsOk, AnnouncedOk, HomesOk, SubmittedOk, RulesOk;
    if LiveDoc(db, d) && db.docs[d].ocr == from {
      LiveDocFacts(db, d);
      DocEditKeepsInv(db, d, db.docs[d].(ocr := to));
    }
  }

  lemma AttachKeepsInv(db: Db, d: DocId, t: TxId, item: Option<Line>)
    requires Inv(db)
    ensures Inv(After(db, AttachItem(db, d, t, item)))
  {
    hide LedgerOk, ChainsOk, DocsOk, UploadsOk, AnnouncedOk, HomesOk, SubmittedOk, RulesOk, WithOcr;
    var o := AttachItem(db, d, t, item);
    OcrStatusKeepsInv(db, d, OcrProcessing, OcrNeedsReview);
    if t in db.txs && item.Some? && ItemsInserted(db, t, [item.value]).Some? && db.txs[t].status == Draft
        && LiveDoc(db, d)
       && db.docs[d].tx == Some(t) {
      var r := ItemsInserted(db, t, [item.value]).value;
      InsertedKeepsLedger(db, t, [item.value]);
      EditKeepsInv(db, t, r);
      LiveDocFacts(r, d);
      DocEditKeepsInv(r, d, Bound(r, d, t).docs[d]);
      OthersAnnounceNothing(Bound(r, d, t).docs, db.events, [TransactionUpdated(t, r.txs[t].total, Ocr)]);
    }
  }

  /** A new draft row, still without items. */
  lemma OpenedKeepsInv(db: Db, t: TxId, row: Tx)
    requires Inv(db) && t !in db.txs && row.status == Draft && row.total == 0 && row.version >= 1 && !row.deleted
    requires row.project in db.projects && db.projects[row.project].org == row.org && !db.projects[row.project].deleted
    ensures Inv(db.(txs := db.txs[t := row]))
  {
    hide ChainsOk, DocsOk, UploadsOk, AnnouncedOk, HomesOk, SubmittedOk, RulesOk;
    RowKeepsChains(db.txs, db.approvals, db.decisions, t, row);
    RowKeepsDocs(db.docs, db.txs, t, row);
    RowKeepsHomes(db.projects, db.txs, db.docs, t, row);
    RowKeepsSubmitted(db.txs, db.docs, t, row);
    NoItemsOf(db.items, t);
    assert Total([]) == 0;
  }

  lemma CreateDraftKeepsInv(db: Db, d: DocId, t: TxId, item: Line)
    requires Inv(db)
    ensures Inv(After(db, CreateDraft(db, d, t, item)))
  {
    hide LedgerOk, ChainsOk, DocsOk, UploadsOk, AnnouncedOk, HomesOk, SubmittedOk, RulesOk, WithOcr, ItemsInserted;
    var o := CreateDraft(db, d, t, item);
    OcrStatusKeepsInv(db, d, OcrProcessing, OcrNeedsReview);
    if t !in db.txs && LiveDoc(db, d) && db.docs[d].ocr == OcrProcessing && db.docs[d].tx.None? {
      var p := db.docs[d].project;
      if p in db.projects && !db.projects[p].deleted && !db.projects[p].archived {
        var row := Tx(db.projects[p].org, p, Draft, Header(None, CURRENCY_IDR, None), 0, 1, db.docs[d].uploadedBy,
                      false);
        var begun := db.(txs := db.txs[t := row]);
        OpenedKeepsInv(db, t, row);
        if ItemsInserted(begun, t, [item]).Some? {
          var r := ItemsInserted(begun, t, [item]).value;
          InsertedKeepsLedger(begun, t, [item]);
          InsertedTouches(begun, t, [item]);
          EditKeepsInv(begun, t, r);
          LiveDocFacts(r, d);
          DocEditKeepsInv(r, d, Bound(r, d, t).docs[d]);
          OthersAnnounceNothing(Bound(r, d, t).docs, db.events, [TransactionCreated(t, r.txs[t].total)]);
        }
      }
    }
  }

  /** Inserting items changes the items, and in t's row the total and the version. */
  lemma InsertedTouches(db: Db, t: TxId, lines: seq<Line>)
    requires t in db.txs
    ensures var r := ItemsInserted(db, t, lines);
            r.Some? ==> t in r.value.txs && SameRow(db.txs[t], r.value.txs[t])
                        && r.value.txs[t].header == db.txs[t].header
                        && r.value == db.(txs := db.txs[t := r.value.txs[t]], items := r.value.items)
  {
    hide Total, ItemsOf;
  }

  // ----- runs

  /** Every step of every caller keeps the invariant. */
  lemma {:induction false} StepKeepsInv(db: Db, op: Op)
    requires Inv(db)
    ensures Inv(Next(db, op))
  {
    hide Inv;
    match op
    case OpCreateProject(_, _) => ProjectStepKeepsInv(db, op);
    case OpArchiveProject(_, _) => ProjectStepKeepsInv(db, op);
    case OpUnarchiveProject(_, _) => ProjectStepKeepsInv(db, op);
    case OpDeleteProject(_, _) => ProjectStepKeepsInv(db, op);
    case OpCreateRule(_, _, _, _) => RuleStepKeepsInv(db, op);
    case OpUpdateRule(_, _, _) => RuleStepKeepsInv(db, op);
    case OpDeleteRule(_, _) => RuleStepKeepsInv(db, op);
    case OpInsertDefaultRule(_) => RuleStepKeepsInv(db, op);
    case OpReassignRules(_, _, _) => RuleStepKeepsInv(db, op);
    case OpReserveUpload(call, actor, u, newDoc) => ReserveKeepsInv(db, call, actor, u, newDoc);
    case OpStoreObject(call) => StoreKeepsInv(db, call);
    case OpCompleteUpload(call) => CompleteKeepsInv(db, call);
    case OpDeleteDocument(actor, d, seen) => DeleteDocumentKeepsInv(db, actor, d, seen);
    case OpClaimDocument(d) => OcrStatusKeepsInv(db, d, OcrPending, OcrProcessing);
    case OpFailDocument(d) => OcrStatusKeepsInv(db, d, OcrProcessing, OcrFailed);
    case OpParkDocument(d) => OcrStatusKeepsInv(db, d, OcrProcessing, OcrNeedsReview);
    case OpAttachItem(d, t, item) => AttachKeepsInv(db, d, t, item);
    case OpCreateDraft(d, t, line) => CreateDraftKeepsInv(db, d, t, line);
    case OpUpdateTransaction(actor, t, header, lines, expected) =>
      UpdateKeepsInv(db, actor, t, header, lines, expected);
    case OpSoftDeleteTransaction(actor, t) => SoftDeleteKeepsInv(db, actor, t);
    case OpEmitDeleted(t) => EmitDeletedKeepsInv(db, t);
    case OpSubmit(actor, t, known, now) => SubmitKeepsInv(db, actor, t, known, now);
    case OpDecide(actor, i, v, active, now) => DecideKeepsInv(db, actor, i, v, active, now);
  }

  lemma EmitDeletedKeepsInv(db: Db, t: TxId)
    requires Inv(db)
    ensures Inv(Emit(db, TransactionDeleted(t)))
  {
    hide LedgerOk, ChainsOk, DocsOk, UploadsOk, AnnouncedOk, HomesOk, SubmittedOk, RulesOk;
    OthersAnnounceNothing(db.docs, db.events, [TransactionDeleted(t)]);
  }

  lemma {:induction false} RunKeepsInv(db: Db, ops: seq<Op>)
    requires Inv(db)
    ensures Inv(Run(db, ops))
  {
    hide Inv, Next;
    if ops != [] {
      RunKeepsInv(db, ops[..|ops| - 1]);
      StepKeepsInv(Run(db, ops[..|ops| - 1]), ops[|ops| - 1]);
    }
  }

  /** Every database a run can reach from the empty one satisfies the invariant. */
  lemma {:induction false} ReachableInv(ops: seq<Op>)
    ensures Inv(Run(EMPTY, ops))
  {
    hide Run, Inv;
    EmptyInv();
    RunKeepsInv(EMPTY, ops);
  }

  lemma EmptyInv()
    ensures Inv(EMPTY)
  {
    hide LedgerOk, ChainsOk, AnnouncedOk;
    EmptyLedger();
    EmptyChains(EMPTY.txs, EMPTY.approvals, EMPTY.decisions);
    EmptyEvents();
  }

  lemma EmptyLedger()
    ensures LedgerOk(map[], [])
  {
  }

  lemma EmptyEvents()
    ensures AnnouncedOk(map[], [])
  {
  }

  lemma EmptyChains(txs: map<TxId, Tx>, ap: seq<Approval>, ds: seq<Decision>)
    requires |txs| == |ap| == |ds| == 0
    ensures ChainsOk(txs, ap, ds)
  {
    hide Chain.ChainOk;
  }
}
