// The approval rule table: its constraints, the resolution order, and bulk reassignment.

module Rules {
  import opened Tables

  predicate SameScope(a: Rule, b: Rule) {
    a.org == b.org && a.project == b.project
  }

  /** The two partial unique indexes: one live rule per scope and approver. */
  predicate Unique(rules: seq<Rule>) {
    forall i, j | 0 <= i < j < |rules| && !rules[i].deleted && !rules[j].deleted && SameScope(rules[i], rules[j]) ::
      rules[i].approver != rules[j].approver
  }

  /** The table constraints of migration 00010. */
  ghost predicate RulesOk(rules: seq<Rule>) {
    && Unique(rules)
    && (forall i | 0 <= i < |rules| :: 1 <= rules[i].step <= 10)
  }

  /** Whether inserting r would break a unique index. */
  predicate Taken(rules: seq<Rule>, r: Rule) {
    exists i | 0 <= i < |rules| :: !rules[i].deleted && SameScope(rules[i], r) && rules[i].approver == r.approver
  }

  // ----- resolution: ORDER BY step, created_at

  function InScope(rules: seq<Rule>, org: OrgId, project: Option<ProjectId>): seq<Rule> {
    if rules == [] then []
    else
      var n := |rules| - 1;
      var rest := InScope(rules[..n], org, project);
      if rules[n].org == org && rules[n].project == project && !rules[n].deleted then rest + [rules[n]] else rest
  }

  function InsertByStep(sorted: seq<Rule>, r: Rule): seq<Rule> {
    if sorted == [] then [r]
    else
      var n := |sorted| - 1;
      if sorted[n].step <= r.step then sorted + [r] else InsertByStep(sorted[..n], r) + [sorted[n]]
  }

  function ByStep(rules: seq<Rule>): seq<Rule> {
    if rules == [] then [] else InsertByStep(ByStep(rules[..|rules| - 1]), rules[|rules| - 1])
  }

  /** The project's own rules if it has any, else the organization's default rules. */
  function Resolve(rules: seq<Rule>, org: OrgId, project: ProjectId): seq<Rule> {
    var own := ByStep(InScope(rules, org, Some(project)));
    if own != [] then own else ByStep(InScope(rules, org, None))
  }

  ghost predicate Ordered(rules: seq<Rule>) {
    forall i, j | 0 <= i < j < |rules| :: rules[i].step <= rules[j].step
  }

  ghost predicate DistinctApprovers(rules: seq<Rule>) {
    forall i, j | 0 <= i < j < |rules| :: rules[i].approver != rules[j].approver
  }

  lemma {:induction false} InsertByStepInserts(sorted: seq<Rule>, r: Rule)
    ensures multiset(InsertByStep(sorted, r)) == multiset(sorted) + multiset{r}
  {
    if sorted != [] {
      var n := |sorted| - 1;
      assert sorted == sorted[..n] + [sorted[n]];
      if sorted[n].step > r.step {
        InsertByStepInserts(sorted[..n], r);
      }
    }
  }

  lemma {:induction false} InsertByStepSorts(sorted: seq<Rule>, r: Rule)
    requires Ordered(sorted)
    ensures Ordered(InsertByStep(sorted, r))
  {
    if sorted != [] {
      var n := |sorted| - 1;
      if sorted[n].step > r.step {
        InsertByStepSorts(sorted[..n], r);
        InsertByStepInserts(sorted[..n], r);
        var s := InsertByStep(sorted[..n], r);
        forall i | 0 <= i < |s| ensures s[i].step <= sorted[n].step {
          assert s[i] in multiset(s);
          assert s[i] == r || s[i] in multiset(sorted[..n]);
        }
      }
    }
  }

  lemma {:induction false} ByStepSorts(rules: seq<Rule>)
    ensures Ordered(ByStep(rules)) && multiset(ByStep(rules)) == multiset(rules)
  {
    if rules != [] {
      var n := |rules| - 1;
      assert rules == rules[..n] + [rules[n]];
      ByStepSorts(rules[..n]);
      InsertByStepSorts(ByStep(rules[..n]), rules[n]);
      InsertByStepInserts(ByStep(rules[..n]), rules[n]);
    }
  }

  ghost predicate LiveIn(r: Rule, org: OrgId, project: Option<ProjectId>) {
    r.org == org && r.project == project && !r.deleted
  }

  lemma {:induction false} InScopeExactly(rules: seq<Rule>, org: OrgId, project: Option<ProjectId>)
    ensures forall r :: r in InScope(rules, org, project) <==> r in rules && LiveIn(r, org, project)
  {
    if rules != [] {
      var n := |rules| - 1;
      assert rules == rules[..n] + [rules[n]];
      InScopeExactly(rules[..n], org, project);
    }
  }

  lemma {:induction false} InScopeDistinct(rules: seq<Rule>, org: OrgId, project: Option<ProjectId>)
    requires Unique(rules)
    ensures DistinctApprovers(InScope(rules, org, project))
  {
    if rules != [] {
      var n := |rules| - 1;
      InScopeDistinct(rules[..n], org, project);
      InScopeExactly(rules[..n], org, project);
      var rest := InScope(rules[..n], org, project);
      if LiveIn(rules[n], org, project) {
        forall i | 0 <= i < |rest| ensures rest[i].approver != rules[n].approver {
          assert rest[i] in rules[..n];
          var k :| 0 <= k < n && rules[..n][k] == rest[i];
        }
      }
    }
  }

  lemma CountedOnce(a: seq<Rule>, k: nat)
    requires k < |a| && DistinctApprovers(a)
    ensures multiset(a)[a[k]] == 1
  {
    assert a == a[..k] + [a[k]] + a[k + 1..];
    assert multiset(a[..k])[a[k]] == 0 && multiset(a[k + 1..])[a[k]] == 0;
  }

  lemma CountedTwice(b: seq<Rule>, i: nat, j: nat)
    requires i < j < |b| && b[i] == b[j]
    ensures multiset(b)[b[i]] >= 2
  {
    assert b == b[..j] + [b[j]] + b[j + 1..];
    assert b[..j][i] == b[i];
  }

  /** Distinct approvers do not depend on the order. */
  lemma DistinctPermutes(a: seq<Rule>, b: seq<Rule>)
    requires multiset(a) == multiset(b) && DistinctApprovers(a)
    ensures DistinctApprovers(b)
  {
    forall i, j | 0 <= i < j < |b| ensures b[i].approver != b[j].approver {
      assert b[i] in multiset(b) && b[j] in multiset(b);
      var k :| 0 <= k < |a| && a[k] == b[i];
      var l :| 0 <= l < |a| && a[l] == b[j];
      CountedOnce(a, k);
      if b[i] == b[j] {
        CountedTwice(b, i, j);
      }
    }
  }

  /** The live rules of one scope, once each, by step. */
  lemma ScopeByStep(rules: seq<Rule>, org: OrgId, project: Option<ProjectId>)
    requires Unique(rules)
    ensures var s := ByStep(InScope(rules, org, project));
            && Ordered(s) && DistinctApprovers(s)
            && (forall r :: r in s <==> r in rules && LiveIn(r, org, project))
  {
    var scope := InScope(rules, org, project);
    var s := ByStep(scope);
    InScopeExactly(rules, org, project);
    InScopeDistinct(rules, org, project);
    ByStepSorts(scope);
    DistinctPermutes(scope, s);
    hide ByStep, InScope;
    forall r ensures r in s <==> r in scope {
      assert r in s <==> r in multiset(s);
    }
  }

  /** What submit snapshots: every live rule of the winning scope once, by step, with distinct approvers. */
  lemma {:induction false} ResolveMeaning(rules: seq<Rule>, org: OrgId, project: ProjectId)
    requires RulesOk(rules)
    ensures var s := Resolve(rules, org, project);
            && Ordered(s) && DistinctApprovers(s)
            && (forall i | 0 <= i < |s| :: 1 <= s[i].step <= 10)
            && var own := exists r :: r in rules && LiveIn(r, org, Some(project));
               forall r :: r in s <==> r in rules && LiveIn(r, org, if own then Some(project) else None)
  {
    hide ByStep, InScope, Unique, Ordered, DistinctApprovers;
    ScopeByStep(rules, org, Some(project));
    ScopeByStep(rules, org, None);
    var own := ByStep(InScope(rules, org, Some(project)));
    if own != [] {
      assert own[0] in own;
    }
    forall i | 0 <= i < |Resolve(rules, org, project)| ensures 1 <= Resolve(rules, org, project)[i].step <= 10 {
      assert Resolve(rules, org, project)[i] in rules;
    }
  }

  // ----- reassignment

  predicate Moves(r: Rule, org: OrgId, from: UserId) {
    r.org == org && r.approver == from && !r.deleted
  }

  /** ReassignApprovalRules: every live rule of from becomes to's. */
  function Reassigned(rules: seq<Rule>, org: OrgId, from: UserId, to: UserId): seq<Rule> {
    seq(|rules|, i requires 0 <= i < |rules| =>
      if Moves(rules[i], org, from) then rules[i].(approver := to) else rules[i])
  }

  function LiveSlots(rules: seq<Rule>): multiset<(OrgId, Option<ProjectId>, int)> {
    if rules == [] then multiset{}
    else
      var r := rules[|rules| - 1];
      LiveSlots(rules[..|rules| - 1]) + if r.deleted then multiset{} else multiset{(r.org, r.project, r.step)}
  }

  /** Two live rules of from and to share a scope. */
  ghost predicate Clash(rules: seq<Rule>, org: OrgId, from: UserId, to: UserId) {
    exists i, j | 0 <= i < |rules| && 0 <= j < |rules| ::
      Moves(rules[i], org, from) && Moves(rules[j], org, to) && SameScope(rules[i], rules[j])
  }

  /** Reassignment breaks a unique index exactly when both approvers already serve one scope. */
  lemma {:induction false} ReassignedKeepsRules(rules: seq<Rule>, org: OrgId, from: UserId, to: UserId)
    requires RulesOk(rules) && from != to
    ensures RulesOk(Reassigned(rules, org, from, to)) <==> !Clash(rules, org, from, to)
  {
    var after := Reassigned(rules, org, from, to);
    if Clash(rules, org, from, to) {
      var i, j :| 0 <= i < |rules| && 0 <= j < |rules| &&
        Moves(rules[i], org, from) && Moves(rules[j], org, to) && SameScope(rules[i], rules[j]);
      assert after[i].approver == to && after[j].approver == to;
      assert SameScope(after[i], after[j]);
      assert !Unique(after);
    }
  }

  /** It moves approvers only: the live (scope, step) slots are the same, with the same multiplicity. */
  lemma {:induction false} ReassignedConservesSlots(rules: seq<Rule>, org: OrgId, from: UserId, to: UserId)
    ensures LiveSlots(Reassigned(rules, org, from, to)) == LiveSlots(rules)
  {
    if rules != [] {
      var n := |rules| - 1;
      assert Reassigned(rules, org, from, to)[..n] == Reassigned(rules[..n], org, from, to);
      ReassignedConservesSlots(rules[..n], org, from, to);
    }
  }

  function MovedCount(rules: seq<Rule>, org: OrgId, from: UserId): nat {
    if rules == [] then 0
    else MovedCount(rules[..|rules| - 1], org, from) + if Moves(rules[|rules| - 1], org, from) then 1 else 0
  }
}
