// Projects and approval rules: lock, count, write, over the store.

module ProjectService {
  import opened Tables
  import opened Rules
  import opened Steps
  import opened Invariants
  import opened Store
  import ProjectEffects

  /** Create, as far as projects and rules go: the creator becomes a default approver unless already one. */
  method Create(q: Store, actor: Actor, p: ProjectId) returns (err: Option<Error>)
    requires q.Valid() && p !in q.projects
    modifies q
    ensures q.Valid() && Follows(old(q.State()), q.State(), err, CreateProject(old(q.State()), actor, p))
    ensures err.None? && q.projects == old(q.projects)[p := Project(actor.org, false, false)]
    ensures exists r :: r in q.rules && r.org == actor.org && r.project.None? && r.approver == actor.user && !r.deleted
  {
    hide Inv;
    ghost var begin := q.State();
    ProjectStepKeepsInv(begin, OpCreateProject(actor, p));
    q.WriteProject(p, Project(actor.org, false, false));
    var inserted := q.CreateApprovalRule(Rule(actor.org, None, actor.user, 1, false));
    q.EmitEvent(ProjectCreated(p));
    ProjectEffects.CreateProjectEffect(begin, actor, p, q.State());
    err := None;
  }

  method Archive(q: Store, actor: Actor, p: ProjectId) returns (err: Option<Error>)
    requires q.Valid()
    modifies q
    ensures q.Valid() && Follows(old(q.State()), q.State(), err, ArchiveProject(old(q.State()), actor, p))
    ensures err.None? ==> p in old(q.projects) && !old(q.projects)[p].archived
                          && q.projects == old(q.projects)[p := Project(actor.org, true, false)]
  {
    hide Inv;
    ProjectStepKeepsInv(q.State(), OpArchiveProject(actor, p));
    if p !in q.projects || q.projects[p].org != actor.org || q.projects[p].deleted || q.projects[p].archived {
      return Some(NotFound);
    }
    q.WriteProject(p, q.projects[p].(archived := true));
    q.EmitEvent(ProjectArchived(p));
    err := None;
  }

  method Unarchive(q: Store, actor: Actor, p: ProjectId) returns (err: Option<Error>)
    requires q.Valid()
    modifies q
    ensures q.Valid() && Follows(old(q.State()), q.State(), err, UnarchiveProject(old(q.State()), actor, p))
    ensures err.None? ==> p in old(q.projects) && old(q.projects)[p].archived
                          && q.projects == old(q.projects)[p := Project(actor.org, false, false)]
  {
    hide Inv;
    ProjectStepKeepsInv(q.State(), OpUnarchiveProject(actor, p));
    if p !in q.projects || q.projects[p].org != actor.org || q.projects[p].deleted || !q.projects[p].archived {
      return Some(NotFound);
    }
    q.WriteProject(p, q.projects[p].(archived := false));
    q.EmitEvent(ProjectUnarchived(p));
    err := None;
  }

  /** Delete: under the project lock, no live transaction and no document row of any kind. */
  method Delete(q: Store, actor: Actor, p: ProjectId) returns (err: Option<Error>)
    requires q.Valid()
    modifies q
    ensures q.Valid() && Follows(old(q.State()), q.State(), err, DeleteProject(old(q.State()), actor, p))
    ensures err.None? <==>
              && p in old(q.projects) && old(q.projects)[p].org == actor.org && !old(q.projects)[p].deleted
              && (forall t | t in q.txs && q.txs[t].project == p :: q.txs[t].deleted)
              && (forall d | d in q.docs :: q.docs[d].project != p)
    ensures err.None? ==> q.State() == old(q.State()).(projects := q.projects, events := q.events)
                          && q.projects == old(q.projects)[p := old(q.projects)[p].(deleted := true)]
  {
    hide Inv;
    ProjectStepKeepsInv(q.State(), OpDeleteProject(actor, p));
    if p !in q.projects || q.projects[p].org != actor.org || q.projects[p].deleted {
      return Some(NotFound);
    }
    var live := set t | t in q.txs && q.txs[t].project == p && !q.txs[t].deleted;
    if |live| > 0 {
      assert exists t :: t in live;
      return Some(ProjectHasTransactions);
    }
    assert forall t | t in q.txs && q.txs[t].project == p && !q.txs[t].deleted :: t in live;
    var rows := set d | d in q.docs && q.docs[d].project == p;
    if |rows| > 0 {
      assert exists d :: d in rows;
      return Some(ProjectHasDocuments);
    }
    assert forall d | d in q.docs && q.docs[d].project == p :: d in rows;
    q.WriteProject(p, q.projects[p].(deleted := true));
    q.EmitEvent(ProjectDeleted(p));
    err := None;
  }

  // ----- approval rules

  /** What CreateRule rejects before its transaction, in order; active is the identity service's answer. */
  function RuleInvalid(db: Db, actor: Actor, scope: Option<ProjectId>, active: bool, step: int): Option<Error> {
    if step < 1 || step > 10 then Some(InvalidTransition)
    else if !active then Some(ApproverNotMember)
    else if scope.Some? && (scope.value !in db.projects || db.projects[scope.value].org != actor.org
                            || db.projects[scope.value].deleted) then Some(NotFound)
    else None
  }

  /** CreateRule. */
  method CreateApprovalRule(q: Store, actor: Actor, scope: Option<ProjectId>, approver: UserId, active: bool, step: int)
    returns (err: Option<Error>)
    requires q.Valid()
    modifies q
    ensures q.Valid()
    ensures var invalid := RuleInvalid(old(q.State()), actor, scope, active, step);
            if invalid.Some? then err == invalid && q.State() == old(q.State())
            else Follows(old(q.State()), q.State(), err, CreateRule(old(q.State()), actor, scope, approver, step))
    ensures err.None? ==>
              && 1 <= step <= 10 && active && q.rules == old(q.rules) + [Rule(actor.org, scope, approver, step, false)]
              && (scope.Some? ==> scope.value in q.projects && q.projects[scope.value].org == actor.org
                                  && !q.projects[scope.value].deleted)
  {
    hide Inv, Taken;
    RuleStepKeepsInv(q.State(), OpCreateRule(actor, scope, approver, step));
    if step < 1 || step > 10 {
      return Some(InvalidTransition);
    }
    if !active {
      return Some(ApproverNotMember);
    }
    if scope.Some? {
      var p := scope.value;
      if p !in q.projects || q.projects[p].org != actor.org || q.projects[p].deleted {
        return Some(NotFound);
      }
    }
    var id := |q.rules|;
    var ok := q.CreateApprovalRule(Rule(actor.org, scope, approver, step, false));
    if !ok {
      return Some(ApproverAlreadyExists);
    }
    q.EmitEvent(RuleCreated(id));
    err := None;
  }

  method UpdateApprovalRule(q: Store, actor: Actor, i: nat, step: int) returns (err: Option<Error>)
    requires q.Valid()
    modifies q
    ensures q.Valid() && Follows(old(q.State()), q.State(), err, UpdateRule(old(q.State()), actor, i, step))
    ensures err.None? ==> 1 <= step <= 10 && i < |old(q.rules)|
                          && q.rules == old(q.rules)[i := old(q.rules)[i].(step := step)]
  {
    hide Inv;
    RuleStepKeepsInv(q.State(), OpUpdateRule(actor, i, step));
    if step < 1 || step > 10 {
      return Some(InvalidTransition);
    }
    if i >= |q.rules| || q.rules[i].org != actor.org || q.rules[i].deleted {
      return Some(NotFound);
    }
    q.WriteRule(i, q.rules[i].(step := step));
    q.EmitEvent(RuleUpdated(i));
    err := None;
  }

  predicate DefaultRule(r: Rule, org: OrgId) {
    r.org == org && r.project.None? && !r.deleted
  }

  ghost predicate HasDefault(rules: seq<Rule>, org: OrgId) {
    exists j | 0 <= j < |rules| :: DefaultRule(rules[j], org)
  }

  /** Rule i is the organization's only default rule. */
  ghost predicate OnlyDefault(rules: seq<Rule>, org: OrgId, i: nat) {
    && i < |rules| && DefaultRule(rules[i], org)
    && forall j | 0 <= j < |rules| && DefaultRule(rules[j], org) :: j == i
  }

  /** DeleteRule: the count that protects the last default rule is taken before the deleting transaction. */
  method DeleteApprovalRule(q: Store, actor: Actor, i: nat) returns (err: Option<Error>)
    requires q.Valid()
    modifies q
    ensures q.Valid()
    ensures if OnlyDefault(old(q.State()).rules, actor.org, i)
            then err == Some(LastApprovalRule) && q.State() == old(q.State())
            else err != Some(LastApprovalRule)
                 && Follows(old(q.State()), q.State(), err, DeleteRule(old(q.State()), actor, i))
    ensures err.None? ==> i < |old(q.rules)| && q.rules == old(q.rules)[i := old(q.rules)[i].(deleted := true)]
  {
    hide Inv;
    RuleStepKeepsInv(q.State(), OpDeleteRule(actor, i));
    if i >= |q.rules| || q.rules[i].org != actor.org || q.rules[i].deleted {
      return Some(NotFound);
    }
    if q.rules[i].project.None? {
      var defaults := set j | 0 <= j < |q.rules| && DefaultRule(q.rules[j], actor.org);
      CountsOnly(q.rules, actor.org, i, defaults);
      if |defaults| <= 1 {
        return Some(LastApprovalRule);
      }
    }
    q.WriteRule(i, q.rules[i].(deleted := true));
    q.EmitEvent(RuleDeleted(i));
    err := None;
  }

  lemma CountsOnly(rules: seq<Rule>, org: OrgId, i: nat, defaults: set<int>)
    requires i < |rules| && DefaultRule(rules[i], org)
    requires defaults == set j | 0 <= j < |rules| && DefaultRule(rules[j], org)
    ensures |defaults| <= 1 <==> OnlyDefault(rules, org, i)
  {
    assert i in defaults && defaults == {i} + (defaults - {i});
    if |defaults| > 1 {
      var j :| j in defaults - {i};
      assert DefaultRule(rules[j], org);
    } else {
      assert defaults == {i};
      forall j | 0 <= j < |rules| && DefaultRule(rules[j], org) ensures j == i {
        assert j in defaults;
      }
    }
  }

  /** Committing a delete keeps a default rule exactly if the rule is not the only one at that moment, which the
      count taken earlier does not promise. */
  lemma {:induction false} DefaultRemainsIff(past: seq<Op>, actor: Actor, i: nat)
    requires HasDefault(Run(EMPTY, past).rules, actor.org)
    ensures var db := Run(EMPTY, past);
            HasDefault(Next(db, OpDeleteRule(actor, i)).rules, actor.org) <==> !OnlyDefault(db.rules, actor.org, i)
  {
    hide Run;
    DefaultAfterDelete(Run(EMPTY, past), actor, i);
    hide HasDefault, OnlyDefault;
  }

  lemma DefaultAfterDelete(db: Db, actor: Actor, i: nat)
    requires HasDefault(db.rules, actor.org)
    ensures HasDefault(After(db, DeleteRule(db, actor, i)).rules, actor.org) <==> !OnlyDefault(db.rules, actor.org, i)
  {
    var after := After(db, DeleteRule(db, actor, i)).rules;
    if !OnlyDefault(db.rules, actor.org, i) {
      var j :| 0 <= j < |db.rules| && DefaultRule(db.rules[j], actor.org) && (j != i || after == db.rules);
      assert DefaultRule(after[j], actor.org);
    }
  }

  /** ReassignRules; active says whether identity knows the new approver as an active member. */
  method Reassign(q: Store, org: OrgId, from: UserId, to: UserId, active: bool) returns (err: Option<Error>)
    requires q.Valid()
    modifies q
    ensures q.Valid()
    ensures if from != to && !active then err == Some(ApproverNotMember) && q.State() == old(q.State())
            else Follows(old(q.State()), q.State(), err, ReassignRules(old(q.State()), org, from, to))
    ensures err.None? ==>
              && active && from != to && |q.rules| == |old(q.rules)|
              && forall i | 0 <= i < |q.rules| ::
                   var r := old(q.rules)[i];
                   q.rules[i] == if r.org == org && r.approver == from && !r.deleted then r.(approver := to) else r
  {
    hide Inv, Unique, Reassigned;
    ghost var begin := q.State();
    RuleStepKeepsInv(q.State(), OpReassignRules(org, from, to));
    if from == to {
      return Some(InvalidAction);
    }
    if !active {
      return Some(ApproverNotMember);
    }
    if forall i | 0 <= i < |q.rules| :: !Moves(q.rules[i], org, from) {
      return Some(NotFound);
    }
    var ok, rows := q.ReassignApprovalRules(org, from, to);
    if !ok {
      return Some(ApproverAlreadyExists);
    }
    q.EmitEvent(RulesReassigned(from, to, rows));
    ProjectEffects.ReassignEffect(begin, org, from, to, q.State());
    err := None;
  }

  /** A reassignment with something to move is refused exactly when both approvers already serve one scope. */
  lemma {:induction false} ReassignRefusedIff(db: Db, org: OrgId, from: UserId, to: UserId)
    requires Inv(db) && from != to
    requires exists i | 0 <= i < |db.rules| :: Moves(db.rules[i], org, from)
    ensures ReassignRules(db, org, from, to) == Abort(ApproverAlreadyExists) <==> Clash(db.rules, org, from, to)
    ensures ReassignRules(db, org, from, to).Commit? ==>
              LiveSlots(Next(db, OpReassignRules(org, from, to)).rules) == LiveSlots(db.rules)
  {
    hide LedgerOk, ChainsOk, DocsOk, UploadsOk, AnnouncedOk, HomesOk, SubmittedOk;
    ReassignedKeepsRules(db.rules, org, from, to);
    ReassignedConservesSlots(db.rules, org, from, to);
    ReassignedSteps(db.rules, org, from, to);
    hide Unique, Clash, LiveSlots;
  }

  lemma ReassignedSteps(rules: seq<Rule>, org: OrgId, from: UserId, to: UserId)
    requires RulesOk(rules)
    ensures RulesOk(Reassigned(rules, org, from, to)) <==> Unique(Reassigned(rules, org, from, to))
  {
  }
}
