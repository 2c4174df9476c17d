// The approval service: submit, decide, and the rule operations, over the store.

module ApprovalService {
  import opened Tables
  import opened Rules
  import opened Steps
  import opened Invariants
  import opened Store
  import Chain
  import Effects

  // ----- submit

  /** submitTx. known holds the users whose role identity can resolve; a failed lookup rolls everything back, and a
      submit that succeeds asks the approver of every governing rule, and nobody else. */
  method SubmitTx(q: Store, actor: Actor, t: TxId, known: set<UserId>, now: Time) returns (err: Option<Error>)
    requires q.Valid()
    modifies q
    ensures q.Valid() && Follows(old(q.State()), q.State(), err, Submit(old(q.State()), actor, t, known, now))
    ensures err.Some? ==> q.State() == old(q.State())
    ensures err.None? ==> t in q.txs && q.txs[t].status == PendingApproval && old(q.approvals) <= q.approvals
    ensures err.None? ==> Effects.AllAsked(old(q.State()), q.State(), actor.org, t)
                          && Effects.OnlyAsked(old(q.State()), q.State(), actor.org, t, now)
  {
    hide Inv, Resolve, LiveDocs, NotifiedAtSubmit, Chain.Snapshot, InScope, ByStep, Effects.AllAsked, Effects.OnlyAsked;
    var begin := q.State();
    SubmitKeepsInv(begin, actor, t, known, now);
    if t !in q.txs || q.txs[t].org != actor.org {
      return Some(NotFound);
    }
    var row := q.txs[t];
    if row.deleted || row.status != Draft {
      return Some(InvalidTransition);
    }
    if |LiveDocs(q.docs, t)| < 1 || row.total <= 0 {
      return Some(SubmitValidation);
    }
    var rules := ResolveRules(q, actor.org, row.project);
    if |rules| == 0 {
      return Some(NoApproverResolved);
    }
    SubmitRoom(begin, t, rules, actor.org, row.project);
    var rows := q.SubmitTransaction(t);
    var ok, firstApprover := CreateApprovals(q, t, rules, known, now);
    if !ok {
      q.Rollback(begin);
      return Some(IdentityUnavailable);
    }
    q.EmitEvent(StepActivated(t, firstApprover, rules[0].step));
    q.EmitEvent(TransactionSubmitted(t));
    err := None;
    assert q.events == begin.events + [StepActivated(t, NotifiedAtSubmit(rules), rules[0].step),
                                       TransactionSubmitted(t)];
    Effects.SubmitWrites(begin, actor, t, known, now, q.State());
    Effects.SubmitAsks(begin, actor, t, known, now, q.State());
  }

  /** ResolveProjectRules, then ResolveDefaultRules: the project's live rules if it has any, else the organization's
      default ones, each once, by step, with distinct approvers. */
  method ResolveRules(q: Store, org: OrgId, project: ProjectId) returns (rules: seq<Rule>)
    requires q.Valid()
    ensures rules == Resolve(q.rules, org, project)
    ensures Ordered(rules) && DistinctApprovers(rules)
    ensures var own := exists r :: r in q.rules && LiveIn(r, org, Some(project));
            forall r :: r in rules <==> r in q.rules && LiveIn(r, org, if own then Some(project) else None)
  {
    LiveRules(q.State());
    ResolveMeaning(q.rules, org, project);
    hide Inv, Ordered, DistinctApprovers, LiveIn;
    rules := ByStep(InScope(q.rules, org, Some(project)));
    if |rules| == 0 {
      rules := ByStep(InScope(q.rules, org, None));
    }
  }

  lemma LiveRules(db: Db)
    requires Inv(db)
    ensures RulesOk(db.rules)
  {
    hide RulesOk;
  }

  /** The approval insert loop of submitTx: one approval a rule, in order; it stops at the first approver without a
      role. */
  method CreateApprovals(q: Store, t: TxId, rules: seq<Rule>, known: set<UserId>, now: Time)
    returns (ok: bool, firstApprover: UserId)
    requires rules != [] && DistinctApprovers(rules)
    requires forall i | 0 <= i < |q.approvals| :: q.approvals[i].tx != t
    modifies q`approvals
    ensures ok <==> forall j | 0 <= j < |rules| :: rules[j].approver in known
    ensures ok ==> firstApprover == NotifiedAtSubmit(rules)
                   && q.State() == old(q.State()).(approvals := old(q.approvals) + Chain.Snapshot(t, rules, now))
    ensures ok ==> |q.approvals| == |old(q.approvals)| + |rules|
                   && forall j | 0 <= j < |rules| ::
                        q.approvals[|old(q.approvals)| + j]
                        == Approval(t, rules[j].approver, rules[j].step,
                                    if rules[j].step == rules[0].step then Some(now) else None, None)
  {
    var firstStep := rules[0].step;
    firstApprover := rules[0].approver;
    ghost var all := Chain.Snapshot(t, rules, now);
    ghost var before := q.approvals;
    var k := 0;
    while k < |rules|
      invariant 0 <= k <= |rules|
      invariant forall j | 0 <= j < k :: rules[j].approver in known
      invariant q.State() == old(q.State()).(approvals := before + all[..k])
      invariant k > 0 ==> firstApprover == NotifiedAtSubmit(rules[..k])
    {
      var r := rules[k];
      var activatedAt := if r.step == firstStep then Some(now) else None;
      assert k > 0 ==> rules[..k + 1][..k] == rules[..k];
      if r.step == firstStep {
        firstApprover := r.approver;
      }
      if r.approver !in known {
        return false, firstApprover;
      }
      var inserted := q.CreateApproval(Approval(t, r.approver, r.step, activatedAt, None));
      assert inserted;
      assert all[..k + 1] == all[..k] + [all[k]];
      k := k + 1;
    }
    assert rules[..k] == rules && all[..k] == all;
    ok := true;
  }

  /** The inserts of submit meet no unique violation: no approval of t exists, and the rules' approvers differ. */
  lemma SubmitRoom(db: Db, t: TxId, rules: seq<Rule>, org: OrgId, project: ProjectId)
    requires Inv(db) && t in db.txs && db.txs[t].status == Draft && rules == Resolve(db.rules, org, project)
    ensures forall i | 0 <= i < |db.approvals| :: db.approvals[i].tx != t
    ensures DistinctApprovers(rules)
  {
    ResolveMeaning(db.rules, org, project);
    hide LedgerOk, DocsOk, UploadsOk, AnnouncedOk, HomesOk, SubmittedOk, Resolve;
    assert Chain.ChainOk(Draft, db.approvals, db.decisions, t);
  }

  // ----- decide

  /** activateNext: the decided map, the search for the next step from the sentinel -1, and the early return
      when a sibling still owes a decision. */
  method ActivateNext(q: Store, t: TxId, now: Time) returns (activated: bool, approver: UserId, step: int)
    requires t in q.txs && q.txs[t].status == PendingApproval
    requires forall i | 0 <= i < |q.approvals| :: q.approvals[i].step >= 1
    modifies q`approvals, q`txs
    ensures var before := old(q.State());
            match Chain.NextMove(before.approvals, before.decisions, t)
            case Wait => !activated && q.State() == before
            case Finish => !activated && q.State()
                           == before.(txs := Written(before.txs, t, before.txs[t].(status := Status.Approved)))
            case Activate(s) => && activated && step == s && approver == FirstOfStep(before.approvals, t, s)
                                && q.State() == before.(approvals := Chain.ActivateStep(before.approvals, t, s, now))
  {
    hide Chain.DecisionOf, Chain.LowestWaiting, Chain.ActivateStep, FirstOfStep;
    activated, approver, step := false, 0, -1;
    var ap := q.approvals;
    var ids := q.ListApprovalsByTransaction(t);
    var decided := DecidedSet(q);
    var next := -1;
    var k := 0;
    while k < |ids|
      invariant 0 <= k <= |ids| && q.State() == old(q.State())
      invariant forall j | 0 <= j < k :: !Chain.Owed(ap, q.decisions, t, ids[j])
      invariant next == -1 ==> forall j | 0 <= j < k :: !Chain.Waiting(ap[ids[j]], t)
      invariant next != -1 ==> next >= 1 && exists j | 0 <= j < k ::
                Chain.Waiting(ap[ids[j]], t) && ap[ids[j]].step == next
      invariant next != -1 ==> forall j | 0 <= j < k && Chain.Waiting(ap[ids[j]], t) :: next <= ap[ids[j]].step
    {
      assert ids[k] in ids;
      var a := ap[ids[k]];
      if a.cancelledAt.None? {
        if a.activatedAt.Some? && ids[k] !in decided {
          assert Chain.Owed(ap, q.decisions, t, ids[k]);
          return;
        }
        if a.activatedAt.None? && (next == -1 || a.step < next) {
          next := a.step;
        }
      }
      k := k + 1;
    }
    assert forall i: nat | i < |ap| && ap[i].tx == t :: i in ids && !Chain.Owed(ap, q.decisions, t, i);
    if next == -1 {
      assert forall i: nat | i < |ap| && Chain.Waiting(ap[i], t) :: i in ids;
      var rows := q.CloseTransaction(t, Status.Approved);
      return;
    }
    SearchFound(ap, t, ids, next);
    step := next;
    q.ActivateApprovalStep(t, next, now);
    approver := FindFirst(ap, ids, t, next);
    activated := true;
  }

  lemma SearchFound(ap: seq<Approval>, t: TxId, ids: seq<nat>, next: int)
    requires forall i: nat :: i in ids <==> i < |ap| && ap[i].tx == t
    requires forall j | 0 <= j < |ids| :: ids[j] < |ap|
    requires exists j | 0 <= j < |ids| :: Chain.Waiting(ap[ids[j]], t) && ap[ids[j]].step == next
    requires forall j | 0 <= j < |ids| && Chain.Waiting(ap[ids[j]], t) :: next <= ap[ids[j]].step
    ensures Chain.LowestWaiting(ap, t) == Some(next)
  {
    var j :| 0 <= j < |ids| && Chain.Waiting(ap[ids[j]], t) && ap[ids[j]].step == next;
    assert ids[j] in ids;
    var s := Chain.LowestWaiting(ap, t);
    var i: nat :| i < |ap| && Chain.Waiting(ap[i], t) && ap[i].step == s.value;
    assert i in ids;
  }

  /** The approvals with a decision. */
  method DecidedSet(q: Store) returns (decided: set<nat>)
    ensures forall i: nat :: i in decided <==> Chain.DecisionOf(q.decisions, i).Some?
  {
    decided := {};
    var k := 0;
    while k < |q.decisions|
      invariant 0 <= k <= |q.decisions|
      invariant forall i: nat :: i in decided <==> Chain.DecisionOf(q.decisions[..k], i).Some?
    {
      assert q.decisions[..k + 1][..k] == q.decisions[..k];
      decided := decided + {q.decisions[k].approval};
      k := k + 1;
    }
    assert q.decisions[..k] == q.decisions;
  }

  /** A row the last loop of activateNext stops at. */
  predicate Matches(a: Approval, t: TxId, s: int) {
    a.tx == t && a.step == s && a.cancelledAt.None?
  }

  lemma {:induction false} FirstIs(ap: seq<Approval>, t: TxId, s: int, i: nat)
    requires i < |ap| && Matches(ap[i], t, s) && forall j | 0 <= j < i :: !Matches(ap[j], t, s)
    ensures FirstOfStep(ap, t, s) == ap[i].approver
  {
    if i > 0 {
      FirstIs(ap[1..], t, s, i - 1);
    }
  }

  lemma {:induction false} NoneIsFirst(ap: seq<Approval>, t: TxId, s: int)
    requires forall j | 0 <= j < |ap| :: !Matches(ap[j], t, s)
    ensures FirstOfStep(ap, t, s) == 0
  {
    if ap != [] {
      NoneIsFirst(ap[1..], t, s);
    }
  }

  /** The last loop of activateNext, over the listed approvals: the first live one of the step. */
  method FindFirst(ap: seq<Approval>, ids: seq<nat>, t: TxId, s: int) returns (u: UserId)
    requires forall k | 0 <= k < |ids| :: ids[k] < |ap|
    requires forall i: nat :: i in ids <==> i < |ap| && ap[i].tx == t
    requires forall k, l | 0 <= k < l < |ids| :: StepBefore(ap, ids[k], ids[l])
    ensures u == FirstOfStep(ap, t, s)
  {
    hide FirstOfStep;
    u := 0;
    var k := 0;
    while k < |ids|
      invariant 0 <= k <= |ids|
      invariant forall l | 0 <= l < k :: !Matches(ap[ids[l]], t, s)
    {
      var a := ap[ids[k]];
      if a.step == s && a.cancelledAt.None? {
        assert ids[k] in ids;
        forall j: nat | j < ids[k] ensures !Matches(ap[j], t, s) {
          if ap[j].tx == t {
            assert j in ids;
            var l :| 0 <= l < |ids| && ids[l] == j;
            if k < l {
              assert StepBefore(ap, ids[k], ids[l]);
            }
          }
        }
        FirstIs(ap, t, s, ids[k]);
        return a.approver;
      }
      k := k + 1;
    }
    forall j: nat | j < |ap| ensures !Matches(ap[j], t, s) {
      if ap[j].tx == t {
        assert j in ids;
      }
    }
    NoneIsFirst(ap, t, s);
  }

  datatype DecideInput = DecideInput(decision: string, notes: Option<string>)

  /** The white space of strings.TrimSpace: the Unicode property White_Space. */
  predicate Space(c: char) {
    || '\U{09}' <= c <= '\U{0D}' || '\U{2000}' <= c <= '\U{200A}'
    || c in {' ', '\U{85}', '\U{A0}', '\U{1680}', '\U{2028}', '\U{2029}', '\U{202F}', '\U{205F}', '\U{3000}'}
  }

  /** strings.TrimSpace leaves nothing. */
  predicate Blank(s: string) {
    forall k | 0 <= k < |s| :: Space(s[k])
  }

  /** Blank, told from both sides in ASCII. */
  predicate OnlySpaces(s: string) {
    forall k | 0 <= k < |s| :: s[k] in {' ', '\t', '\n', '\r'}
  }

  predicate NoneVisible(s: string) {
    forall k | 0 <= k < |s| :: !('!' <= s[k] <= '~')
  }

  lemma BlankBetween(s: string)
    ensures OnlySpaces(s) ==> Blank(s)
    ensures Blank(s) ==> NoneVisible(s)
  {
  }

  function InputRefused(input: DecideInput): Option<Error> {
    if input.decision != "approved" && input.decision != "rejected" then Some(InvalidTransition)
    else if input.decision == "rejected" && (input.notes.None? || Blank(input.notes.value)) then Some(SubmitValidation)
    else None
  }

  function VerdictOf(decision: string): Verdict {
    if decision == "rejected" then Reject else Approve
  }

  /** What Decide reports back. */
  datatype DecideResult = DecideResult(approval: nat, status: Status, nextStepActivated: bool)

  ghost function Reported(before: Db, i: nat, user: UserId, v: Verdict): DecideResult
    requires i < |before.approvals|
  {
    var move := Chain.NextMove(before.approvals, before.decisions + [Decision(i, user, v)], before.approvals[i].tx);
    DecideResult(i, match v
                    case Reject => Status.Rejected
                    case Approve => if move.Activate? then PendingApproval else Status.Approved,
                 v == Approve && move.Activate?)
  }

  /** Decide. It commits for the two words only, and what it records is what the word says. */
  method DecideApproval(q: Store, actor: Actor, i: nat, input: DecideInput, active: bool, now: Time)
    returns (err: Option<Error>, result: DecideResult)
    requires q.Valid()
    modifies q
    ensures q.Valid()
    ensures err.None? ==> input.decision in {"approved", "rejected"}
    ensures err.None? ==> i < |old(q.approvals)| && old(q.approvals)[i].tx in q.txs
    ensures err.None? ==>
              var v := if input.decision == "rejected" then Reject else Approve;
              var status := q.txs[old(q.approvals)[i].tx].status;
              && old(q.approvals)[i].approver == actor.user && active && result.approval == i
              && q.decisions == old(q.decisions) + [Decision(i, actor.user, v)]
              && (status == Status.Rejected <==> input.decision == "rejected")
              && (result.status == Status.Rejected <==> input.decision == "rejected")
              && (result.nextStepActivated <==> result.status == PendingApproval)
    ensures err.Some? ==> q.State() == old(q.State())
    ensures input.decision == "rejected" && (input.notes.Some? ==> OnlySpaces(input.notes.value)) ==>
              err == Some(SubmitValidation)
    ensures err == Some(SubmitValidation) ==>
              input.decision == "rejected" && (input.notes.Some? ==> NoneVisible(input.notes.value))
    ensures if InputRefused(input).Some? then err == InputRefused(input) && q.State() == old(q.State())
            else Follows(old(q.State()), q.State(), err,
                         Decide(old(q.State()), actor, i, VerdictOf(input.decision), active, now))
    ensures err.None? ==> i < |old(q.State()).approvals|
                          && result == Reported(old(q.State()), i, actor.user, VerdictOf(input.decision))
  {
    hide Inv, Chain.DecisionOf, DecisionApplied, Chain.NextMove;
    if input.notes.Some? {
      BlankBetween(input.notes.value);
    }
    hide Blank, OnlySpaces, NoneVisible;
    result := DecideResult(i, Draft, false);
    if input.decision != "approved" && input.decision != "rejected" {
      return Some(InvalidTransition), result;
    }
    if input.decision == "rejected" && (input.notes.None? || Blank(input.notes.value)) {
      return Some(SubmitValidation), result;
    }
    var v := VerdictOf(input.decision);
    ghost var begin := q.State();
    DecideKeepsInv(begin, actor, i, v, active, now);
    ApprovalHomes(begin);
    if i >= |q.approvals| {
      return Some(NotFound), result;
    }
    var a := q.approvals[i];
    var t := a.tx;
    if q.txs[t].org != actor.org {
      return Some(NotFound), result;
    }
    if q.txs[t].status != PendingApproval {
      return Some(InvalidTransition), result;
    }
    if a.activatedAt.None? {
      return Some(NotYourTurn), result;
    }
    if a.cancelledAt.Some? {
      return Some(InvalidTransition), result;
    }
    var decided := DecidedSet(q);
    if i in decided {
      return Some(InvalidTransition), result;
    }
    if a.approver != actor.user || !active {
      return Some(Forbidden), result;
    }
    result := RecordDecision(q, actor, i, v, now);
    Effects.DecideWrites(begin, actor, i, v, active, now, q.State());
    err := None;
  }

  /** The writes of Decide, once its guards have passed. */
  method RecordDecision(q: Store, actor: Actor, i: nat, v: Verdict, now: Time) returns (result: DecideResult)
    requires i < |q.approvals| && q.approvals[i].tx in q.txs && q.txs[q.approvals[i].tx].status == PendingApproval
    requires forall j | 0 <= j < |q.approvals| :: q.approvals[j].step >= 1
    modifies q
    ensures q.State() == DecisionApplied(old(q.State()), actor, i, v, now)
    ensures result == Reported(old(q.State()), i, actor.user, v)
  {
    hide Chain.NextMove, Chain.DecisionOf, Chain.ActivateStep, Chain.CancelRest;
    ghost var begin := q.State();
    var t := q.approvals[i].tx;
    q.CreateApprovalDecision(Decision(i, actor.user, v));
    var next, approver, step := false, 0, -1;
    if v == Reject {
      var rows := q.CloseTransaction(t, Status.Rejected);
      q.CancelPendingApprovals(t, now);
    } else {
      next, approver, step := ActivateNext(q, t, now);
    }
    q.EmitEvent(DecisionReceived(t, v));
    if next {
      q.EmitEvent(StepActivated(t, approver, step));
    }
    q.EmitEvent(TransactionDecided(t, i, v));
    assert q.events == begin.events + [DecisionReceived(t, v)]
           + (if next then [StepActivated(t, approver, step)] else [])
                       + [TransactionDecided(t, i, v)];
    var status := if v == Reject then Status.Rejected else if next then PendingApproval else Status.Approved;
    result := DecideResult(i, status, next);
  }

  lemma ApprovalHomes(db: Db)
    requires Inv(db)
    ensures forall i | 0 <= i < |db.approvals| :: db.approvals[i].tx in db.txs && db.approvals[i].step >= 1
  {
    hide LedgerOk, DocsOk, UploadsOk, AnnouncedOk, HomesOk, SubmittedOk, RulesOk, Chain.ChainOk, Chain.InOrder;
  }
}
