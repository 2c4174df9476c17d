// The approval chain of one transaction: what a decision does to it, and what every decision keeps.

module Chain {
  import opened Tables

  // ----- reading the tables

  /** The verdict recorded for an approval, if any. */
  function DecisionOf(ds: seq<Decision>, a: nat): (v: Option<Verdict>)
    ensures v.None? <==> forall k | 0 <= k < |ds| :: ds[k].approval != a
    ensures v.Some? ==> exists k | 0 <= k < |ds| :: ds[k].approval == a && ds[k].verdict == v.value
  {
    if ds == [] then None
    else if ds[|ds| - 1].approval == a then Some(ds[|ds| - 1].verdict)
    else DecisionOf(ds[..|ds| - 1], a)
  }

  predicate Waiting(a: Approval, t: TxId) {
    a.tx == t && a.cancelledAt.None? && a.activatedAt.None?
  }

  /** Active and not decided: somebody owes a decision. */
  predicate Owed(ap: seq<Approval>, ds: seq<Decision>, t: TxId, i: nat)
    requires i < |ap|
  {
    ap[i].tx == t && ap[i].cancelledAt.None? && ap[i].activatedAt.Some? && DecisionOf(ds, i).None?
  }

  predicate AnyOwed(ap: seq<Approval>, ds: seq<Decision>, t: TxId) {
    exists i: nat | i < |ap| :: Owed(ap, ds, t, i)
  }

  /** The step of the lowest waiting approval. */
  function LowestWaiting(ap: seq<Approval>, t: TxId): (s: Option<int>)
    ensures s.None? <==> forall i | 0 <= i < |ap| :: !Waiting(ap[i], t)
    ensures s.Some? ==> exists i | 0 <= i < |ap| :: Waiting(ap[i], t) && ap[i].step == s.value
    ensures s.Some? ==> forall i | 0 <= i < |ap| && Waiting(ap[i], t) :: s.value <= ap[i].step
  {
    if ap == [] then None
    else
      var last := ap[|ap| - 1];
      var rest := LowestWaiting(ap[..|ap| - 1], t);
      if Waiting(last, t) && (rest.None? || last.step < rest.value) then Some(last.step) else rest
  }

  // ----- what a decision does

  datatype Move = Wait | Activate(step: int) | Finish

  /** The choice activateNext makes: wait for a sibling, open the lowest waiting step, or finish. */
  function NextMove(ap: seq<Approval>, ds: seq<Decision>, t: TxId): Move {
    if AnyOwed(ap, ds, t) then Wait
    else match LowestWaiting(ap, t)
      case None => Finish
      case Some(s) => Activate(s)
  }

  /** ActivateApprovalStep. */
  function ActivateStep(ap: seq<Approval>, t: TxId, s: int, now: Time): seq<Approval> {
    seq(|ap|, i requires 0 <= i < |ap| =>
      if Waiting(ap[i], t) && ap[i].step == s then ap[i].(activatedAt := Some(now)) else ap[i])
  }

  /** CancelPendingApprovals: everything not cancelled and not decided. */
  function CancelRest(ap: seq<Approval>, ds: seq<Decision>, t: TxId, now: Time): seq<Approval> {
    seq(|ap|, i requires 0 <= i < |ap| =>
      if ap[i].tx == t && ap[i].cancelledAt.None? && DecisionOf(ds, i).None?
      then ap[i].(cancelledAt := Some(now)) else ap[i])
  }

  /** The approval tables and the transaction's status. */
  datatype Board = Board(approvals: seq<Approval>, decisions: seq<Decision>, status: Status)

  /** Recording a verdict on approval i of the pending transaction t, and what follows from it. */
  function Decided(ap: seq<Approval>, ds: seq<Decision>, t: TxId, i: nat, user: UserId, v: Verdict, now: Time): Board {
    var ds' := ds + [Decision(i, user, v)];
    match v
    case Reject => Board(CancelRest(ap, ds', t, now), ds', Status.Rejected)
    case Approve =>
      match NextMove(ap, ds', t)
      case Wait => Board(ap, ds', PendingApproval)
      case Activate(s) => Board(ActivateStep(ap, t, s, now), ds', PendingApproval)
      case Finish => Board(ap, ds', Status.Approved)
  }

  // ----- the invariant

  /** Facts about the two tables that hold across all transactions. */
  ghost predicate TablesOk(ap: seq<Approval>, ds: seq<Decision>) {
    && (forall i | 0 <= i < |ap| :: 1 <= ap[i].step <= 10)
    && (forall i, j | 0 <= i < j < |ap| && ap[i].tx == ap[j].tx :: ap[i].approver != ap[j].approver)
    && (forall k | 0 <= k < |ds| ::
          && ds[k].approval < |ap| && ap[ds[k].approval].activatedAt.Some?
          && ap[ds[k].approval].cancelledAt.None? && ds[k].decidedBy == ap[ds[k].approval].approver)
    && InOrder(ap, ds)
  }

  /** Of two decisions on one transaction the earlier one approved another approval of no later a step. */
  ghost predicate InOrder(ap: seq<Approval>, ds: seq<Decision>) {
    forall k, l | 0 <= k < l < |ds| && ds[k].approval < |ap| && ds[l].approval < |ap|
                  && ap[ds[k].approval].tx == ap[ds[l].approval].tx ::
      && ds[k].approval != ds[l].approval
      && ds[k].verdict == Approve
      && ap[ds[k].approval].step <= ap[ds[l].approval].step
  }

  /** A pending transaction t is at step c. */
  ghost predicate AtStep(ap: seq<Approval>, ds: seq<Decision>, t: TxId, c: int) {
    && (forall i: nat | i < |ap| && ap[i].tx == t ::
          && ap[i].cancelledAt.None?
          && (ap[i].step < c ==> ap[i].activatedAt.Some? && DecisionOf(ds, i) == Some(Approve))
          && (ap[i].step == c ==> ap[i].activatedAt.Some? && DecisionOf(ds, i) != Some(Reject))
          && (ap[i].step > c ==> ap[i].activatedAt.None? && DecisionOf(ds, i).None?))
    && (exists i: nat | i < |ap| :: ap[i].tx == t && ap[i].step == c && DecisionOf(ds, i).None?)
  }

  ghost predicate AllApproved(ap: seq<Approval>, ds: seq<Decision>, t: TxId) {
    && (exists i | 0 <= i < |ap| :: ap[i].tx == t)
    && (forall i: nat | i < |ap| && ap[i].tx == t ::
          ap[i].activatedAt.Some? && ap[i].cancelledAt.None? && DecisionOf(ds, i) == Some(Approve))
  }

  ghost predicate EndedInRejection(ap: seq<Approval>, ds: seq<Decision>, t: TxId) {
    && (exists i: nat | i < |ap| :: ap[i].tx == t && DecisionOf(ds, i) == Some(Reject))
    && (forall i: nat | i < |ap| && ap[i].tx == t :: ap[i].cancelledAt.Some? <==> DecisionOf(ds, i).None?)
  }

  /** What the approvals of t look like in each status of t. */
  ghost predicate ChainOk(status: Status, ap: seq<Approval>, ds: seq<Decision>, t: TxId) {
    match status
    case Draft => forall i | 0 <= i < |ap| :: ap[i].tx != t
    case PendingApproval => exists c :: AtStep(ap, ds, t, c)
    case Approved => AllApproved(ap, ds, t)
    case Rejected => EndedInRejection(ap, ds, t)
  }

  lemma StepMakesChain(ap: seq<Approval>, ds: seq<Decision>, t: TxId, c: int)
    requires AtStep(ap, ds, t, c)
    ensures ChainOk(PendingApproval, ap, ds, t)
  {
    hide AtStep;
  }

  // ----- a decision keeps the invariant

  lemma VerdictIsUnique(ap: seq<Approval>, ds: seq<Decision>, k: nat)
    requires InOrder(ap, ds) && k < |ds| && ds[k].approval < |ap|
    ensures DecisionOf(ds, ds[k].approval) == Some(ds[k].verdict)
  {
  }

  lemma DecisionOfExtended(ds: seq<Decision>, d: Decision)
    ensures forall a: nat :: DecisionOf(ds + [d], a) == if a == d.approval then Some(d.verdict) else DecisionOf(ds, a)
  {
    assert (ds + [d])[..|ds|] == ds;
  }

  /** What holds of the approval a decision lands on: it sits at the current step. */
  ghost predicate Decidable(ap: seq<Approval>, ds: seq<Decision>, i: nat) {
    i < |ap| && ap[i].activatedAt.Some? && ap[i].cancelledAt.None? && DecisionOf(ds, i).None?
  }

  lemma DecidedKeepsOrder(ap: seq<Approval>, ds: seq<Decision>, t: TxId, c: int, i: nat, d: Decision)
    requires TablesOk(ap, ds) && AtStep(ap, ds, t, c) && Decidable(ap, ds, i)
    requires ap[i].tx == t && d.approval == i
    ensures InOrder(ap, ds + [d])
  {
    var ds' := ds + [d];
    forall k | 0 <= k < |ds| && ap[ds[k].approval].tx == t
      ensures ds[k].approval != i && ds[k].verdict == Approve && ap[ds[k].approval].step <= ap[i].step
    {
      VerdictIsUnique(ap, ds, k);
    }
  }

  lemma RecordingKeepsTables(ap: seq<Approval>, ds: seq<Decision>, t: TxId, c: int, i: nat, d: Decision)
    requires TablesOk(ap, ds) && AtStep(ap, ds, t, c) && Decidable(ap, ds, i) && ap[i].tx == t
    requires d.approval == i && d.decidedBy == ap[i].approver
    ensures TablesOk(ap, ds + [d])
  {
    DecidedKeepsOrder(ap, ds, t, c, i, d);
  }

  /** The rows are the same but for activations and cancellations of undecided ones. */
  ghost predicate Relabelled(ap: seq<Approval>, ap': seq<Approval>, ds: seq<Decision>) {
    && |ap'| == |ap|
    && (forall i | 0 <= i < |ap| ::
          ap'[i].tx == ap[i].tx && ap'[i].approver == ap[i].approver && ap'[i].step == ap[i].step)
    && (forall i: nat | i < |ap| && DecisionOf(ds, i).Some? :: ap'[i] == ap[i])
  }

  /** That touches nothing the table facts speak about. */
  lemma RelabelKeepsTables(ap: seq<Approval>, ap': seq<Approval>, ds: seq<Decision>)
    requires TablesOk(ap, ds) && Relabelled(ap, ap', ds)
    ensures TablesOk(ap', ds)
  {
    forall k | 0 <= k < |ds| ensures ap'[ds[k].approval] == ap[ds[k].approval] {
      assert DecisionOf(ds, ds[k].approval).Some?;
    }
  }

  lemma CancelRelabels(ap: seq<Approval>, ds: seq<Decision>, t: TxId, now: Time)
    ensures Relabelled(ap, CancelRest(ap, ds, t, now), ds)
  {
    hide DecisionOf;
  }

  lemma ActivateRelabels(ap: seq<Approval>, ds: seq<Decision>, t: TxId, s: int, now: Time)
    requires TablesOk(ap, ds)
    ensures Relabelled(ap, ActivateStep(ap, t, s, now), ds)
  {
    forall i: nat | i < |ap| && DecisionOf(ds, i).Some? ensures ap[i].activatedAt.Some? {
    }
    hide DecisionOf, InOrder;
  }

  lemma {:induction false} DecidedKeepsTables(ap: seq<Approval>, ds: seq<Decision>, t: TxId, c: int, i: nat,
                                              v: Verdict, now: Time)
    requires TablesOk(ap, ds) && AtStep(ap, ds, t, c) && Decidable(ap, ds, i) && ap[i].tx == t
    ensures var b := Decided(ap, ds, t, i, ap[i].approver, v, now);
            TablesOk(b.approvals, b.decisions)
  {
    var d := Decision(i, ap[i].approver, v);
    var ds' := ds + [d];
    RecordingKeepsTables(ap, ds, t, c, i, d);
    hide TablesOk, AtStep, Decidable, DecisionOf, NextMove, CancelRest, ActivateStep, Relabelled;
    match v
    case Reject =>
      CancelRelabels(ap, ds', t, now);
      RelabelKeepsTables(ap, CancelRest(ap, ds', t, now), ds');
    case Approve =>
      match NextMove(ap, ds', t)
      case Activate(s) =>
        ActivateRelabels(ap, ds', t, s, now);
        RelabelKeepsTables(ap, ActivateStep(ap, t, s, now), ds');
      case _ =>
  }

  lemma {:induction false} RejectedChain(ap: seq<Approval>, ds: seq<Decision>, t: TxId, c: int, i: nat, d: Decision,
                                         now: Time)
    requires AtStep(ap, ds, t, c) && Decidable(ap, ds, i) && ap[i].tx == t
    requires d.approval == i && d.verdict == Reject
    ensures EndedInRejection(CancelRest(ap, ds + [d], t, now), ds + [d], t)
  {
    DecisionOfExtended(ds, d);
    hide DecisionOf;
    var rest := CancelRest(ap, ds + [d], t, now);
    assert rest[i].tx == t && DecisionOf(ds + [d], i) == Some(Reject);
    forall k: nat | k < |rest| && rest[k].tx == t ensures rest[k].cancelledAt.Some? <==> DecisionOf(ds + [d], k).None? {
      assert ap[k].tx == t && ap[k].cancelledAt.None?;
    }
  }

  lemma {:induction false} AdvancedChain(ap: seq<Approval>, ds: seq<Decision>, t: TxId, c: int, i: nat, d: Decision,
                                         now: Time)
    requires AtStep(ap, ds, t, c) && Decidable(ap, ds, i) && ap[i].tx == t
    requires d.approval == i && d.verdict == Approve
    requires NextMove(ap, ds + [d], t).Activate?
    ensures var s := NextMove(ap, ds + [d], t).step;
            s > c && AtStep(ActivateStep(ap, t, s, now), ds + [d], t, s)
  {
    var ds' := ds + [d];
    var s := NextMove(ap, ds', t).step;
    var ap' := ActivateStep(ap, t, s, now);
    DecisionOfExtended(ds, d);
    var j :| 0 <= j < |ap| && Waiting(ap[j], t) && ap[j].step == s;
    assert ap'[j].tx == t && ap'[j].step == s && DecisionOf(ds', j).None?;
    forall k: nat | k < |ap'| && ap'[k].tx == t
      ensures ap'[k].cancelledAt.None?
      ensures ap'[k].step < s ==> ap'[k].activatedAt.Some? && DecisionOf(ds', k) == Some(Approve)
      ensures ap'[k].step == s ==> ap'[k].activatedAt.Some? && DecisionOf(ds', k) != Some(Reject)
      ensures ap'[k].step > s ==> ap'[k].activatedAt.None? && DecisionOf(ds', k).None?
    {
      assert !Owed(ap, ds', t, k);
      assert ap[k].step < s ==> !Waiting(ap[k], t);
    }
  }

  lemma {:induction false} FinishedChain(ap: seq<Approval>, ds: seq<Decision>, t: TxId, c: int, i: nat, d: Decision)
    requires AtStep(ap, ds, t, c) && Decidable(ap, ds, i) && ap[i].tx == t
    requires d.approval == i && d.verdict == Approve
    requires NextMove(ap, ds + [d], t).Finish?
    ensures AllApproved(ap, ds + [d], t)
  {
    DecisionOfExtended(ds, d);
    forall k: nat | k < |ap| && ap[k].tx == t
      ensures ap[k].activatedAt.Some? && ap[k].cancelledAt.None? && DecisionOf(ds + [d], k) == Some(Approve)
    {
      assert !Owed(ap, ds + [d], t, k) && !Waiting(ap[k], t);
    }
  }

  /** After a verdict on a pending transaction its chain fits its new status. */
  lemma {:induction false} DecidedKeepsChain(ap: seq<Approval>, ds: seq<Decision>, t: TxId, c: int, i: nat, v: Verdict,
                                             now: Time)
    requires AtStep(ap, ds, t, c) && Decidable(ap, ds, i) && ap[i].tx == t
    ensures var b := Decided(ap, ds, t, i, ap[i].approver, v, now);
            ChainOk(b.status, b.approvals, b.decisions, t)
  {
    var d := Decision(i, ap[i].approver, v);
    var ds' := ds + [d];
    match v
    case Reject => RejectedChain(ap, ds, t, c, i, d, now);
    case Approve =>
      match NextMove(ap, ds', t)
      case Activate(s) => AdvancedChain(ap, ds, t, c, i, d, now);
      case Finish => FinishedChain(ap, ds, t, c, i, d);
      case Wait =>
        var j: nat :| j < |ap| && Owed(ap, ds', t, j);
        DecisionOfExtended(ds, d);
        assert AtStep(ap, ds', t, c);
  }

  /** A transaction's chain depends on its own approvals and decisions alone. */
  lemma ChainFramed(status: Status, ap: seq<Approval>, ds: seq<Decision>,
                    ap': seq<Approval>, ds': seq<Decision>, t: TxId)
    requires ChainOk(status, ap, ds, t)
    requires |ap| <= |ap'|
    requires forall i: nat | i < |ap| && ap[i].tx == t :: ap'[i] == ap[i] && DecisionOf(ds', i) == DecisionOf(ds, i)
    requires forall i: nat | i < |ap'| && ap'[i].tx == t :: i < |ap| && ap[i].tx == t
    ensures ChainOk(status, ap', ds', t)
  {
    match status
    case Draft =>
    case PendingApproval =>
      var c :| AtStep(ap, ds, t, c);
      var j: nat :| j < |ap| && ap[j].tx == t && ap[j].step == c && DecisionOf(ds, j).None?;
      assert ap'[j].tx == t && ap'[j].step == c && DecisionOf(ds', j).None?;
      assert AtStep(ap', ds', t, c);
    case Approved =>
      var j :| 0 <= j < |ap| && ap[j].tx == t;
      assert ap'[j].tx == t;
    case Rejected =>
      var j: nat :| j < |ap| && ap[j].tx == t && DecisionOf(ds, j) == Some(Reject);
      assert ap'[j].tx == t && DecisionOf(ds', j) == Some(Reject);
  }

  // ----- submit: the snapshot of the resolved rules

  /** One approval per rule, the lowest step already active. */
  function Snapshot(t: TxId, rules: seq<Rule>, now: Time): seq<Approval> {
    seq(|rules|, k requires 0 <= k < |rules| =>
      Approval(t, rules[k].approver, rules[k].step,
               if rules[k].step == rules[0].step then Some(now) else None, None))
  }

  /** The snapshot starts the chain at the first rule's step. */
  lemma {:induction false} SnapshotStartsChain(ap: seq<Approval>, ds: seq<Decision>, t: TxId, rules: seq<Rule>,
                                               now: Time)
    requires TablesOk(ap, ds) && ChainOk(Draft, ap, ds, t) && rules != []
    requires forall i, j | 0 <= i < j < |rules| ::
               rules[i].step <= rules[j].step && rules[i].approver != rules[j].approver
    requires forall i | 0 <= i < |rules| :: 1 <= rules[i].step <= 10
    ensures var ap' := ap + Snapshot(t, rules, now);
            && TablesOk(ap', ds)
            && AtStep(ap', ds, t, rules[0].step)
  {
    var ap' := ap + Snapshot(t, rules, now);
    forall i: nat | i < |ap'| && ap'[i].tx == t
      ensures |ap| <= i && ap'[i] == Snapshot(t, rules, now)[i - |ap|] && DecisionOf(ds, i).None?
    {
    }
    assert ap'[|ap|].tx == t && ap'[|ap|].step == rules[0].step;
    assert InOrder(ap', ds);
  }
}
