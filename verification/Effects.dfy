// What the committed steps of submit, decide, edit and delete change, column by column, and when they commit.

module Effects {
  import opened Tables
  import opened Ledger
  import opened Rules
  import opened Steps
  import opened Invariants
  import opened Evolution
  import opened Chain
  import DraftGuarantees
  import ApprovalGuarantees

  // ----- submit

  /** The scope of the rules that govern a project's transactions: its own, or the default one if it has none. */
  ghost function ScopeOf(table: seq<Rule>, org: OrgId, project: ProjectId): Option<ProjectId> {
    if exists o :: o in table && o.org == org && o.project == Some(project) && !o.deleted then Some(project) else None
  }

  ghost predicate Governs(r: Rule, table: seq<Rule>, org: OrgId, project: ProjectId) {
    r in table && r.org == org && r.project == ScopeOf(table, org, project) && !r.deleted
  }

  /** The new approval that a governing rule asks for; it is active at once iff no governing rule has a lower step. */
  ghost predicate AskedFor(a: Approval, r: Rule, table: seq<Rule>, org: OrgId, project: ProjectId, t: TxId, now: Time) {
    && Governs(r, table, org, project)
    && a.tx == t && a.approver == r.approver && a.step == r.step && a.cancelledAt.None?
    && a.activatedAt == if forall o | Governs(o, table, org, project) :: r.step <= o.step then Some(now) else None
  }

  lemma Governing(table: seq<Rule>, org: OrgId, project: ProjectId)
    requires RulesOk(table)
    ensures var s := Resolve(table, org, project);
            && Ordered(s) && DistinctApprovers(s)
            && (forall r :: r in s <==> Governs(r, table, org, project))
  {
    ResolveMeaning(table, org, project);
    hide RulesOk, Resolve, Ordered, DistinctApprovers;
    if o :| o in table && o.org == org && o.project == Some(project) && !o.deleted {
      assert LiveIn(o, org, Some(project));
    } else {
      assert forall r | r in table :: !LiveIn(r, org, Some(project));
    }
  }

  ghost predicate Lowest(step: int, rules: seq<Rule>) {
    forall r | r in rules :: step <= r.step
  }

  /** The new approval of one rule. */
  ghost predicate ApprovalOf(a: Approval, r: Rule, t: TxId, rules: seq<Rule>, now: Time) {
    && a.tx == t && a.approver == r.approver && a.step == r.step && a.cancelledAt.None?
    && a.activatedAt == if Lowest(r.step, rules) then Some(now) else None
  }

  /** Every rule has its approval, in order, and only the lowest step is active. */
  lemma SnapshotMeaning(t: TxId, rules: seq<Rule>, now: Time)
    requires rules != [] && Ordered(rules)
    ensures |Snapshot(t, rules, now)| == |rules|
    ensures forall i | 0 <= i < |rules| :: ApprovalOf(Snapshot(t, rules, now)[i], rules[i], t, rules, now)
  {
    forall i | 0 <= i < |rules| ensures rules[i].step == rules[0].step <==> Lowest(rules[i].step, rules) {
      assert rules[0] in rules;
    }
  }

  /** A committed submit changes the transaction's status and version and adds approvals and events, nothing else. */
  lemma SubmitWrites(db: Db, actor: Actor, t: TxId, known: set<UserId>, now: Time, after: Db)
    requires Submit(db, actor, t, known, now) == Commit(after)
    ensures t in db.txs && db.txs[t].status == Draft && db.approvals <= after.approvals
    ensures after == db.(txs := db.txs[t := db.txs[t].(status := PendingApproval, version := db.txs[t].version + 1)],
                         approvals := after.approvals, events := after.events)
    ensures var rules := Resolve(db.rules, actor.org, db.txs[t].project);
            && rules != [] && after.approvals[|db.approvals|..] == Snapshot(t, rules, now)
            && after.events == db.events + [StepActivated(t, NotifiedAtSubmit(rules), rules[0].step),
                                            TransactionSubmitted(t)]
  {
    hide Resolve, LiveDocs, NotifiedAtSubmit, Snapshot;
  }

  /** The one approver the event of a submit names: that of the last rule of the first step. */
  lemma {:induction false} NotifiedMeaning(rules: seq<Rule>) returns (i: nat)
    requires rules != []
    ensures i < |rules| && rules[i].approver == NotifiedAtSubmit(rules) && rules[i].step == rules[0].step
    ensures forall j | i < j < |rules| :: rules[j].step != rules[0].step
  {
    var n := |rules| - 1;
    if n == 0 || rules[n].step == rules[0].step {
      i := n;
    } else {
      i := NotifiedMeaning(rules[..n]);
    }
  }

  /** It asks the approver of every governing rule, at the rule's step. */
  lemma SubmitAsksAll(db: Db, actor: Actor, t: TxId, known: set<UserId>, now: Time, after: Db, r: Rule) returns (i: nat)
    requires Inv(db) && Submit(db, actor, t, known, now) == Commit(after)
    requires t in db.txs && Governs(r, db.rules, actor.org, db.txs[t].project)
    ensures |db.approvals| <= i < |after.approvals| && after.approvals[i].tx == t
    ensures after.approvals[i].approver == r.approver && after.approvals[i].step == r.step
  {
    hide Inv, Submit, Resolve, Snapshot, Ordered, DistinctApprovers, RulesOk, Governs;
    InvRules(db);
    SubmitWrites(db, actor, t, known, now, after);
    var rules := Resolve(db.rules, actor.org, db.txs[t].project);
    Governing(db.rules, actor.org, db.txs[t].project);
    SnapshotMeaning(t, rules, now);
    var k :| 0 <= k < |rules| && rules[k] == r;
    i := |db.approvals| + k;
    assert after.approvals[i] == after.approvals[|db.approvals|..][k];
  }

  /** It asks nobody else and nobody twice. */
  lemma SubmitAsksOnly(db: Db, actor: Actor, t: TxId, known: set<UserId>, now: Time, after: Db, i: nat)
    returns (r: Rule)
    requires Inv(db) && Submit(db, actor, t, known, now) == Commit(after)
    requires |db.approvals| <= i < |after.approvals|
    ensures t in db.txs && after.approvals[i].tx == t
    ensures AskedFor(after.approvals[i], r, db.rules, actor.org, db.txs[t].project, t, now)
    ensures forall j | |db.approvals| <= j < |after.approvals| && j != i ::
              after.approvals[j].approver != after.approvals[i].approver
  {
    hide Inv, Submit, Resolve, Snapshot, Ordered, RulesOk, Governs;
    InvRules(db);
    SubmitWrites(db, actor, t, known, now, after);
    var rules := Resolve(db.rules, actor.org, db.txs[t].project);
    Governing(db.rules, actor.org, db.txs[t].project);
    SnapshotMeaning(t, rules, now);
    var n := |db.approvals|;
    var s := after.approvals[n..];
    r := rules[i - n];
    assert r in rules && after.approvals[i] == s[i - n];
    forall j | n <= j < |after.approvals| && j != i ensures after.approvals[j].approver != after.approvals[i].approver {
      assert after.approvals[j] == s[j - n];
    }
  }

  /** Every rule that governs t has a new approval on t, of its approver and at its step. */
  ghost predicate AllAsked(before: Db, after: Db, org: OrgId, t: TxId) {
    t in before.txs && forall r | Governs(r, before.rules, org, before.txs[t].project) ::
      exists i | |before.approvals| <= i < |after.approvals| ::
        after.approvals[i].tx == t && after.approvals[i].approver == r.approver && after.approvals[i].step == r.step
  }

  /** Some governing rule asks for the approval. */
  ghost predicate Asked(a: Approval, table: seq<Rule>, org: OrgId, project: ProjectId, t: TxId, now: Time) {
    exists r :: AskedFor(a, r, table, org, project, t, now)
  }

  /** Every new approval is one a governing rule asks for, and no two have one approver. */
  ghost predicate OnlyAsked(before: Db, after: Db, org: OrgId, t: TxId, now: Time) {
    && t in before.txs
    && (forall i | |before.approvals| <= i < |after.approvals| ::
          Asked(after.approvals[i], before.rules, org, before.txs[t].project, t, now))
    && (forall i, j | |before.approvals| <= i < |after.approvals| && |before.approvals| <= j < |after.approvals|
                      && i != j ::
          after.approvals[i].approver != after.approvals[j].approver)
  }

  lemma SubmitAsksNoOther(db: Db, actor: Actor, t: TxId, known: set<UserId>, now: Time, after: Db)
    requires Inv(db) && Submit(db, actor, t, known, now) == Commit(after)
    ensures OnlyAsked(db, after, actor.org, t, now)
  {
    SubmitWrites(db, actor, t, known, now, after);
    hide Inv, Submit, Resolve, Snapshot, AskedFor;
    forall i | |db.approvals| <= i < |after.approvals|
      ensures Asked(after.approvals[i], db.rules, actor.org, db.txs[t].project, t, now)
      ensures forall j | |db.approvals| <= j < |after.approvals| && j != i ::
                after.approvals[j].approver != after.approvals[i].approver {
      var r := SubmitAsksOnly(db, actor, t, known, now, after, i);
    }
    hide Asked;
  }

  lemma SubmitAsks(db: Db, actor: Actor, t: TxId, known: set<UserId>, now: Time, after: Db)
    requires Inv(db) && Submit(db, actor, t, known, now) == Commit(after)
    ensures AllAsked(db, after, actor.org, t) && OnlyAsked(db, after, actor.org, t, now)
  {
    SubmitWrites(db, actor, t, known, now, after);
    hide Inv, Submit, Resolve, Snapshot, Governs, OnlyAsked;
    forall r | Governs(r, db.rules, actor.org, db.txs[t].project)
      ensures exists i | |db.approvals| <= i < |after.approvals| ::
          after.approvals[i].tx == t && after.approvals[i].approver == r.approver && after.approvals[i].step == r.step {
      var i := SubmitAsksAll(db, actor, t, known, now, after, r);
    }
    hide AllAsked;
    SubmitAsksNoOther(db, actor, t, known, now, after);
  }

  lemma InvRules(db: Db)
    requires Inv(db)
    ensures RulesOk(db.rules)
  {
    hide RulesOk;
  }

  /** The transaction has a complete document that is not deleted. */
  ghost predicate HasReceipt(docs: map<DocId, Doc>, t: TxId) {
    exists d :: d in docs && docs[d].tx == Some(t) && docs[d].uploadComplete && !docs[d].deleted
  }

  lemma LiveDocsMeaning(docs: map<DocId, Doc>, t: TxId)
    ensures LiveDocs(docs, t) != {} <==> HasReceipt(docs, t)
  {
    if d :| d in docs && docs[d].tx == Some(t) && docs[d].uploadComplete && !docs[d].deleted {
      assert d in LiveDocs(docs, t);
    }
  }

  lemma GoverningExists(table: seq<Rule>, org: OrgId, project: ProjectId, known: set<UserId>)
    requires RulesOk(table)
    ensures var s := Resolve(table, org, project);
            && (s != [] <==> exists r :: Governs(r, table, org, project))
            && ((forall i | 0 <= i < |s| :: s[i].approver in known)
                <==> forall r | Governs(r, table, org, project) :: r.approver in known)
  {
    Governing(table, org, project);
    hide RulesOk, Resolve, Governs, Ordered, DistinctApprovers;
    var s := Resolve(table, org, project);
    assert s != [] ==> s[0] in s;
    assert forall i | 0 <= i < |s| :: s[i] in s;
  }

  /** When a submit commits, and which refusal it gets: that of the first of its conditions that fails. */
  lemma SubmitCommitsIff(db: Db, actor: Actor, t: TxId, known: set<UserId>, now: Time)
    requires Inv(db)
    ensures var o := Submit(db, actor, t, known, now);
            var found := t in db.txs && db.txs[t].org == actor.org;
            var draft := found && db.txs[t].status == Draft && !db.txs[t].deleted;
            var filled := draft && db.txs[t].total > 0 && HasReceipt(db.docs, t);
            var ruled := filled && exists r :: Governs(r, db.rules, actor.org, db.txs[t].project);
            && (o == Abort(NotFound) <==> !found)
            && (o == Abort(InvalidTransition) <==> found && !draft)
            && (o == Abort(SubmitValidation) <==> draft && !filled)
            && (o == Abort(NoApproverResolved) <==> filled && !ruled)
            && (o == Abort(IdentityUnavailable) <==> ruled && !o.Commit?)
            && (o.Commit? <==> ruled && forall r | Governs(r, db.rules, actor.org, db.txs[t].project) ::
                                 r.approver in known)
  {
    if t in db.txs {
      InvRules(db);
      LiveDocsMeaning(db.docs, t);
      GoverningExists(db.rules, actor.org, db.txs[t].project, known);
      hide Inv, RulesOk, Resolve, NotifiedAtSubmit, Snapshot, LiveDocs, HasReceipt, Governs;
    }
  }

  /** Over runs: an approved transaction carries an approving decision by the approver of every rule its submit
      resolved, at that rule's step. */
  lemma {:induction false} ApprovedByAll(past: seq<Op>, actor: Actor, t: TxId, known: set<UserId>, now: Time,
                                         future: seq<Op>, r: Rule)
    requires Submit(Run(EMPTY, past), actor, t, known, now).Commit?
    requires var db := Run(EMPTY, past);
             t in db.txs && Governs(r, db.rules, actor.org, db.txs[t].project)
    requires var later := Run(Next(Run(EMPTY, past), OpSubmit(actor, t, known, now)), future);
             t in later.txs && later.txs[t].status == Status.Approved
    ensures var later := Run(Next(Run(EMPTY, past), OpSubmit(actor, t, known, now)), future);
            exists k | 0 <= k < |later.decisions| ::
              && later.decisions[k].verdict == Approve && later.decisions[k].decidedBy == r.approver
              && later.decisions[k].approval < |later.approvals|
              && later.approvals[later.decisions[k].approval].tx == t
              && later.approvals[later.decisions[k].approval].approver == r.approver
              && later.approvals[later.decisions[k].approval].step == r.step
  {
    hide Run, Inv, Submit, Evolves, Governs;
    var db := Run(EMPTY, past);
    ReachableInv(past);
    SubmitKeepsInv(db, actor, t, known, now);
    var after := Next(db, OpSubmit(actor, t, known, now));
    assert after == Submit(db, actor, t, known, now).db;
    var i := SubmitAsksAll(db, actor, t, known, now, after, r);
    hide Next;
    RunEvolves(after, future);
    RunKeepsInv(after, future);
    var later := Run(after, future);
    ApprovedRow(after, later, t, i);
  }

  lemma ApprovedRow(a: Db, b: Db, t: TxId, i: nat)
    requires Evolves(a, b) && Inv(b) && i < |a.approvals| && a.approvals[i].tx == t
    requires t in b.txs && b.txs[t].status == Status.Approved
    ensures exists k | 0 <= k < |b.decisions| ::
              && b.decisions[k].verdict == Approve && b.decisions[k].decidedBy == a.approvals[i].approver
              && b.decisions[k].approval == i && i < |b.approvals|
              && b.approvals[i].tx == t && b.approvals[i].approver == a.approvals[i].approver
              && b.approvals[i].step == a.approvals[i].step
  {
    hide LedgerOk, DocsOk, UploadsOk, AnnouncedOk, HomesOk, SubmittedOk, RulesOk, TxsEvolve, DocsEvolve, CallsEvolve;
    hide InOrder, DecisionOf;
    assert ChainOk(b.txs[t].status, b.approvals, b.decisions, t);
    assert DecisionOf(b.decisions, i) == Some(Approve);
  }

  // ----- decide

  /** When a decision commits. */
  lemma DecideCommitsIff(db: Db, actor: Actor, i: nat, v: Verdict, active: bool, now: Time)
    requires Inv(db)
    ensures Decide(db, actor, i, v, active, now).Commit?
            <==> && i < |db.approvals| && db.approvals[i].tx in db.txs
                 && db.txs[db.approvals[i].tx].org == actor.org
                 && db.txs[db.approvals[i].tx].status == PendingApproval
                 && db.approvals[i].activatedAt.Some? && db.approvals[i].cancelledAt.None?
                 && (forall k | 0 <= k < |db.decisions| :: db.decisions[k].approval != i)
                 && db.approvals[i].approver == actor.user && active
  {
    hide Inv, DecisionApplied;
  }

  /** Which refusal a decision gets. */
  lemma DecideRefusals(db: Db, actor: Actor, i: nat, v: Verdict, active: bool, now: Time)
    requires Inv(db)
    ensures var o := Decide(db, actor, i, v, active, now);
            var found := i < |db.approvals| && db.approvals[i].tx in db.txs
                         && db.txs[db.approvals[i].tx].org == actor.org;
            && (o == Abort(NotFound) <==> !found)
            && (o == Abort(NotYourTurn)
                <==> found && db.txs[db.approvals[i].tx].status == PendingApproval && db.approvals[i].activatedAt.None?)
            && (o.Abort? ==> o.error in {NotFound, InvalidTransition, NotYourTurn, Forbidden})
            && (o == Abort(Forbidden) ==> db.approvals[i].approver != actor.user || !active)
            && (found && db.txs[db.approvals[i].tx].status != PendingApproval ==> o == Abort(InvalidTransition))
  {
    hide Inv, DecisionApplied;
  }

  /** A committed decision appends itself, and touches the transaction it is on and its approvals only. */
  lemma DecideWrites(db: Db, actor: Actor, i: nat, v: Verdict, active: bool, now: Time, after: Db)
    requires Inv(db) && Decide(db, actor, i, v, active, now) == Commit(after)
    ensures i < |db.approvals| && db.approvals[i].tx in db.txs && |after.approvals| == |db.approvals|
    ensures var t := db.approvals[i].tx;
            && after == db.(txs := after.txs, approvals := after.approvals, events := after.events,
                            decisions := db.decisions + [Decision(i, actor.user, v)])
            && after.txs.Keys == db.txs.Keys && (forall u | u in db.txs && u != t :: after.txs[u] == db.txs[u])
            && (forall j: nat | j < |db.approvals| && db.approvals[j].tx != t :: after.approvals[j] == db.approvals[j])
            && (after.txs[t].status == Status.Rejected <==> v == Reject)
            && (v == Approve ==> after.txs[t].status in {PendingApproval, Status.Approved})
            && after.txs[t].header == db.txs[t].header && after.txs[t].total == db.txs[t].total
            && db.events + [DecisionReceived(t, v)] <= after.events
            && after.events[|after.events| - 1] == TransactionDecided(t, i, v)
  {
    hide Inv, NextMove, DecisionOf, LowestWaiting, FirstOfStep;
  }

  /** A rejection cancels exactly the undecided other approvals of its transaction. */
  lemma RejectionCancels(db: Db, actor: Actor, i: nat, active: bool, now: Time, after: Db, j: nat)
    requires Inv(db) && Decide(db, actor, i, Reject, active, now) == Commit(after)
    requires j < |db.approvals| && |after.approvals| == |db.approvals|
    ensures var a := db.approvals[j];
            after.approvals[j]
            == if a.tx == db.approvals[i].tx && j != i && a.cancelledAt.None?
                  && (forall k | 0 <= k < |db.decisions| :: db.decisions[k].approval != j)
               then a.(cancelledAt := Some(now)) else a
  {
    hide Inv;
    DecisionOfExtended(db.decisions, Decision(i, actor.user, Reject));
    hide NextMove, DecisionOf, LowestWaiting, FirstOfStep;
  }

  /** Another approval of t than i is active and undecided. */
  ghost predicate OthersOwe(ap: seq<Approval>, ds: seq<Decision>, t: TxId, i: nat) {
    exists j: nat | j < |ap| ::
      j != i && ap[j].tx == t && ap[j].activatedAt.Some? && ap[j].cancelledAt.None?
      && forall k | 0 <= k < |ds| :: ds[k].approval != j
  }

  /** Approval j waits, and no approval of t waits at a lower step. */
  ghost predicate NextUp(ap: seq<Approval>, t: TxId, j: nat) {
    && j < |ap| && ap[j].tx == t && ap[j].activatedAt.None? && ap[j].cancelledAt.None?
    && forall l: nat | l < |ap| && ap[l].tx == t && ap[l].activatedAt.None? && ap[l].cancelledAt.None? ::
         ap[j].step <= ap[l].step
  }

  ghost predicate NoneWaits(ap: seq<Approval>, t: TxId) {
    forall j: nat | j < |ap| && ap[j].tx == t :: ap[j].activatedAt.Some? || ap[j].cancelledAt.Some?
  }

  lemma MoveMeaning(ap: seq<Approval>, ds: seq<Decision>, d: Decision, t: TxId, now: Time)
    ensures var owe, move := OthersOwe(ap, ds, t, d.approval), NextMove(ap, ds + [d], t);
            && (move.Wait? <==> owe) && (move.Finish? <==> !owe && NoneWaits(ap, t))
            && (move.Activate? ==> forall j: nat | j < |ap| ::
                  ActivateStep(ap, t, move.step, now)[j]
                  == if NextUp(ap, t, j) then ap[j].(activatedAt := Some(now)) else ap[j])
  {
    OwedByOthers(ap, ds, d, t);
    hide AnyOwed, OthersOwe;
    var lowest := LowestWaiting(ap, t);
    assert forall j: nat | j < |ap| ::
      Waiting(ap[j], t) <==> ap[j].tx == t && ap[j].activatedAt.None? && ap[j].cancelledAt.None?;
    hide LowestWaiting;
  }

  lemma OwedByOthers(ap: seq<Approval>, ds: seq<Decision>, d: Decision, t: TxId)
    ensures AnyOwed(ap, ds + [d], t) <==> OthersOwe(ap, ds, t, d.approval)
  {
    DecisionOfExtended(ds, d);
    hide DecisionOf;
    assert forall j: nat | j < |ap| :: Owed(ap, ds + [d], t, j) <==>
      (j != d.approval && ap[j].tx == t && ap[j].activatedAt.Some? && ap[j].cancelledAt.None?
       && forall k | 0 <= k < |ds| :: ds[k].approval != j);
  }

  lemma NoneNextUp(ap: seq<Approval>, t: TxId)
    requires NoneWaits(ap, t)
    ensures forall j: nat :: !NextUp(ap, t, j)
  {
  }

  lemma ApprovalMoves(db: Db, actor: Actor, i: nat, active: bool, now: Time, after: Db)
    requires Decide(db, actor, i, Approve, active, now) == Commit(after)
    ensures i < |db.approvals| && db.approvals[i].tx in after.txs
    ensures var t, ap := db.approvals[i].tx, db.approvals;
            var move := NextMove(ap, db.decisions + [Decision(i, actor.user, Approve)], t);
            && after.approvals == (if move.Activate? then ActivateStep(ap, t, move.step, now) else ap)
            && (after.txs[t].status == Status.Approved <==> move.Finish?)
  {
    hide DecisionOf, NextMove, ActivateStep, FirstOfStep;
  }

  /** An approval activates exactly the waiting approvals of the lowest waiting step, once nobody else of the
      transaction owes a decision, and closes the transaction when none waits. */
  lemma ApprovalAdvances(db: Db, actor: Actor, i: nat, active: bool, now: Time, after: Db)
    requires Decide(db, actor, i, Approve, active, now) == Commit(after)
    ensures i < |db.approvals| && |after.approvals| == |db.approvals| && db.approvals[i].tx in after.txs
    ensures var t, ap := db.approvals[i].tx, db.approvals;
            var owe := OthersOwe(ap, db.decisions, t, i);
            && (forall j: nat | j < |ap| ::
                  after.approvals[j]
                  == if !owe && NextUp(ap, t, j) then ap[j].(activatedAt := Some(now)) else ap[j])
            && (after.txs[t].status == Status.Approved <==> !owe && NoneWaits(ap, t))
  {
    var t, ap, d := db.approvals[i].tx, db.approvals, Decision(i, actor.user, Approve);
    ApprovalMoves(db, actor, i, active, now, after);
    hide Inv, Decide, DecisionOf, NextMove, OthersOwe, NextUp, NoneWaits;
    MoveMeaning(ap, db.decisions, d, t, now);
    if NoneWaits(ap, t) {
      NoneNextUp(ap, t);
    }
  }

  // ----- edit and delete of drafts

  /** An edit without items changes the header and the version of its transaction and nothing else. */
  lemma HeaderEditKeepsItems(db: Db, actor: Actor, t: TxId, header: Header, expected: int, after: Db)
    requires UpdateTransaction(db, actor, t, header, None, expected) == Commit(after)
    ensures t in db.txs && db.txs[t].version == expected
    ensures after == db.(txs := db.txs[t := db.txs[t].(header := header, version := expected + 1)],
                         events := db.events + [TransactionUpdated(t, db.txs[t].total, Manual)])
    ensures forall u :: ItemsOf(after.items, u) == ItemsOf(db.items, u)
  {
  }

  /** What an accepted edit leaves: without items the items and the total stay, with items they are exactly those and
      the total is their sum; nothing of another transaction changes. */
  ghost predicate Edited(before: Db, after: Db, t: TxId, items: Option<seq<Line>>, expected: int) {
    && t in before.txs && t in after.txs && before.txs[t].version == expected
    && after == before.(txs := after.txs, items := after.items,
                        events := before.events + [TransactionUpdated(t, after.txs[t].total, Manual)])
    && after.txs[t] == before.txs[t].(header := after.txs[t].header, total := after.txs[t].total,
                                      version := after.txs[t].version)
    && (items.None? ==> after.items == before.items && after.txs[t].total == before.txs[t].total
                        && after.txs[t].version == expected + 1)
    && (items.Some? ==> ItemsOf(after.items, t) == items.value && after.txs[t].total == Total(items.value)
                        && after.txs[t].version > expected)
    && after.txs.Keys == before.txs.Keys
    && (forall u | u in before.txs && u != t ::
          after.txs[u] == before.txs[u] && ItemsOf(after.items, u) == ItemsOf(before.items, u))
  }

  lemma EditedRow(db: Db, actor: Actor, t: TxId, header: Header, lines: seq<Line>, expected: int, after: Db)
    requires UpdateTransaction(db, actor, t, header, Some(lines), expected) == Commit(after)
    ensures t in db.txs && db.txs[t].version == expected && t in after.txs
    ensures after == db.(txs := db.txs[t := after.txs[t]], items := after.items,
                         events := db.events + [TransactionUpdated(t, after.txs[t].total, Manual)])
    ensures after.txs[t] == db.txs[t].(header := header, total := after.txs[t].total, version := after.txs[t].version)
  {
    hide Total, ItemsOf, Without, Tagged, RowsAllowed;
  }

  lemma UpdateEdits(db: Db, actor: Actor, t: TxId, header: Header, items: Option<seq<Line>>, expected: int, after: Db)
    requires Inv(db) && UpdateTransaction(db, actor, t, header, items, expected) == Commit(after)
    ensures Edited(db, after, t, items, expected) && after.txs[t].header == header
  {
    hide Inv, ItemsInserted, ItemsDeleted, ItemsOf, Total;
    match items
    case None => HeaderEditKeepsItems(db, actor, t, header, expected, after);
    case Some(lines) =>
      DraftGuarantees.UpdatedContents(db, actor, t, header, lines, expected);
      EditedRow(db, actor, t, header, lines, expected, after);
  }

  /** When an edit commits whose items, if any, pass validation. */
  lemma UpdateCommitsIff(db: Db, actor: Actor, t: TxId, header: Header, items: Option<seq<Line>>, expected: int)
    requires Inv(db) && (items.Some? ==> Acceptable(items.value))
    ensures UpdateTransaction(db, actor, t, header, items, expected).Commit?
            <==> && t in db.txs && db.txs[t].org == actor.org && db.txs[t].status == Draft && !db.txs[t].deleted
                 && db.txs[t].version == expected
    ensures UpdateTransaction(db, actor, t, header, items, expected) == Abort(TransactionLocked)
            <==> t in db.txs && db.txs[t].org == actor.org && !db.txs[t].deleted && db.txs[t].status != Draft
    ensures UpdateTransaction(db, actor, t, header, items, expected) == Abort(NotFound)
            <==> !(t in db.txs && db.txs[t].org == actor.org && !db.txs[t].deleted)
  {
    hide Inv, ItemsInserted, ItemsDeleted, Acceptable;
    if items.Some? && t in db.txs && EditRefused(db, actor, t).None? && db.txs[t].version == expected {
      DraftGuarantees.UpdateFailure(db, actor, t, header, items.value, expected);
    }
  }

  /** A soft delete commits on a live draft of the organization and sets nothing but the deletion. */
  lemma SoftDeleteEffect(db: Db, actor: Actor, t: TxId)
    ensures SoftDeleteTransaction(db, actor, t).Commit?
            <==> t in db.txs && db.txs[t].org == actor.org && db.txs[t].status == Draft && !db.txs[t].deleted
    ensures SoftDeleteTransaction(db, actor, t).Commit? ==>
              SoftDeleteTransaction(db, actor, t).db
              == db.(txs := db.txs[t := db.txs[t].(deleted := true, version := db.txs[t].version + 1)])
  {
  }

  // ----- documents

  /** When a document delete commits; seen is the transaction the document had before the locks. */
  lemma DeleteCommitsIff(db: Db, actor: Actor, d: DocId, seen: Option<TxId>)
    ensures DeleteDocument(db, actor, d, seen).Commit?
            <==> && d in db.docs && !db.docs[d].deleted && db.docs[d].uploadComplete
                 && db.docs[d].project in db.projects && db.projects[db.docs[d].project].org == actor.org
                 && (seen.Some? ==> seen.value in db.txs && db.txs[seen.value].org == actor.org
                                    && !db.txs[seen.value].deleted && db.txs[seen.value].status == Draft)
                 && (db.docs[d].tx.Some? ==>
                       && (seen.Some? ==> db.docs[d].tx == seen)
                       && db.docs[d].tx.value in db.txs && db.txs[db.docs[d].tx.value].org == actor.org
                       && !db.txs[db.docs[d].tx.value].deleted && db.txs[db.docs[d].tx.value].status == Draft)
  {
  }

  /** A committed delete deletes: the row keeps every other column, and nothing else changes but one event. */
  lemma DeleteDeletes(db: Db, actor: Actor, d: DocId, seen: Option<TxId>, after: Db)
    requires DeleteDocument(db, actor, d, seen) == Commit(after)
    ensures d in db.docs && !db.docs[d].deleted
    ensures after == db.(docs := db.docs[d := db.docs[d].(deleted := true)], events := db.events + [DocumentDeleted(d)])
  {
  }

  /** Over runs: a deleted document stays deleted, counts for no transaction, and is never claimed by OCR. */
  lemma {:induction false} DeletedForGood(past: seq<Op>, actor: Actor, d: DocId, seen: Option<TxId>, future: seq<Op>)
    requires DeleteDocument(Run(EMPTY, past), actor, d, seen).Commit?
    ensures var later := Run(Next(Run(EMPTY, past), OpDeleteDocument(actor, d, seen)), future);
            && d in later.docs && later.docs[d].deleted
            && (forall t :: d !in LiveDocs(later.docs, t))
            && Next(later, OpClaimDocument(d)) == later
  {
    hide Run, Inv, TxsEvolve, ChainsEvolve, CallsEvolve;
    var db := Run(EMPTY, past);
    ReachableInv(past);
    StepKeepsInv(db, OpDeleteDocument(actor, d, seen));
    var after := Next(db, OpDeleteDocument(actor, d, seen));
    DeleteDeletes(db, actor, d, seen, after);
    RunEvolves(after, future);
    var later := Run(after, future);
    assert later.docs[d] == after.docs[d];
    ClaimSkipsDeleted(later, d);
  }

  lemma ClaimSkipsDeleted(db: Db, d: DocId)
    requires d in db.docs && db.docs[d].deleted
    ensures Next(db, OpClaimDocument(d)) == db && forall t :: d !in LiveDocs(db.docs, t)
  {
  }
}
