// What the committed steps on projects and approval rules change, column by column, and when they commit.

module ProjectEffects {
  import opened Tables
  import opened Rules
  import opened Steps

  // ----- projects

  /** A new project is live and open, and its creator is a default approver of the organization. */
  lemma CreateProjectEffect(db: Db, actor: Actor, p: ProjectId, after: Db)
    requires CreateProject(db, actor, p) == Commit(after)
    ensures after == db.(projects := db.projects[p := Project(actor.org, false, false)], rules := after.rules,
                         events := db.events + [ProjectCreated(p)])
    ensures p !in db.projects && db.rules <= after.rules
    ensures exists i | 0 <= i < |after.rules| ::
              after.rules[i].org == actor.org && after.rules[i].project.None? && after.rules[i].approver == actor.user
              && !after.rules[i].deleted
    ensures after.rules == db.rules || after.rules == db.rules + [Rule(actor.org, None, actor.user, 1, false)]
  {
    if !Taken(db.rules, Rule(actor.org, None, actor.user, 1, false)) {
      assert after.rules[|db.rules|] == Rule(actor.org, None, actor.user, 1, false);
    }
  }

  /** Archiving and unarchiving set that one flag, on a live project of the organization that does not have it so. */
  lemma ArchiveEffect(db: Db, actor: Actor, p: ProjectId, archived: bool)
    ensures var o := if archived then ArchiveProject(db, actor, p) else UnarchiveProject(db, actor, p);
            && (o.Commit? <==> p in db.projects && db.projects[p].org == actor.org && !db.projects[p].deleted
                               && db.projects[p].archived != archived)
            && (o.Commit? ==>
                  o.db == db.(projects := db.projects[p := Project(actor.org, archived, false)],
                              events := db.events + [if archived then ProjectArchived(p) else ProjectUnarchived(p)]))
            && (o.Abort? ==> o.error == NotFound)
  {
  }

  /** A project is deleted iff it is a live project of the organization without live transaction or document row, and
      then its row says so and nothing else changes. */
  lemma DeleteProjectEffect(db: Db, actor: Actor, p: ProjectId)
    ensures var o := DeleteProject(db, actor, p);
            var found := p in db.projects && db.projects[p].org == actor.org && !db.projects[p].deleted;
            var used := exists t :: t in db.txs && db.txs[t].project == p && !db.txs[t].deleted;
            && (o.Commit? <==> found && !used && forall d | d in db.docs :: db.docs[d].project != p)
            && (o.Commit? ==> o.db == db.(projects := db.projects[p := db.projects[p].(deleted := true)],
                                          events := db.events + [ProjectDeleted(p)]))
            && (o == Abort(NotFound) <==> !found)
            && (o == Abort(ProjectHasTransactions) <==> found && used)
            && (o.Abort? ==> o.error in {NotFound, ProjectHasTransactions, ProjectHasDocuments})
  {
  }

  // ----- rules

  /** A rule is added iff its step is 1 to 10 and no live rule of its scope has the approver. */
  lemma CreateRuleEffect(db: Db, actor: Actor, scope: Option<ProjectId>, approver: UserId, step: int)
    ensures var o := CreateRule(db, actor, scope, approver, step);
            var taken := exists i | 0 <= i < |db.rules| ::
                           db.rules[i].org == actor.org && db.rules[i].project == scope
                           && db.rules[i].approver == approver && !db.rules[i].deleted;
            && (o.Commit? <==> 1 <= step <= 10 && !taken)
            && (o.Commit? ==> o.db == db.(rules := db.rules + [Rule(actor.org, scope, approver, step, false)],
                                          events := db.events + [RuleCreated(|db.rules|)]))
            && (o == Abort(ApproverAlreadyExists) <==> 1 <= step <= 10 && taken)
  {
    var r := Rule(actor.org, scope, approver, step, false);
    assert forall i | 0 <= i < |db.rules| ::
      SameScope(db.rules[i], r) <==> db.rules[i].org == actor.org && db.rules[i].project == scope;
  }

  /** Updating a live rule of the organization changes its step only, deleting it sets the deletion only. */
  lemma RuleEditEffect(db: Db, actor: Actor, i: nat, step: int)
    ensures var live := i < |db.rules| && db.rules[i].org == actor.org && !db.rules[i].deleted;
            var u, d := UpdateRule(db, actor, i, step), DeleteRule(db, actor, i);
            && (u.Commit? <==> live && 1 <= step <= 10) && (d.Commit? <==> live)
            && (u.Commit? ==> u.db == db.(rules := db.rules[i := db.rules[i].(step := step)],
                                          events := db.events + [RuleUpdated(i)]))
            && (d.Commit? ==> d.db == db.(rules := db.rules[i := db.rules[i].(deleted := true)],
                                          events := db.events + [RuleDeleted(i)]))
  {
  }

  /** The live rules of the organization that have the approver. */
  ghost function MovedRules(rules: seq<Rule>, org: OrgId, from: UserId): set<int> {
    set i | 0 <= i < |rules| && rules[i].org == org && rules[i].approver == from && !rules[i].deleted
  }

  lemma {:induction false} Counted(rules: seq<Rule>, org: OrgId, from: UserId)
    ensures MovedCount(rules, org, from) == |MovedRules(rules, org, from)|
  {
    if rules != [] {
      var n := |rules| - 1;
      Counted(rules[..n], org, from);
      var before := MovedRules(rules[..n], org, from);
      assert MovedRules(rules, org, from) == if Moves(rules[n], org, from) then before + {n} else before;
    }
  }

  /** A reassignment gives every live rule of the organization that has the old approver the new one, and changes no
      other rule, of this organization or another. */
  lemma ReassignEffect(db: Db, org: OrgId, from: UserId, to: UserId, after: Db)
    requires ReassignRules(db, org, from, to) == Commit(after)
    ensures from != to && |after.rules| == |db.rules|
    ensures after == db.(rules := after.rules,
                         events := db.events + [RulesReassigned(from, to, |MovedRules(db.rules, org, from)|)])
    ensures forall i | 0 <= i < |db.rules| ::
              after.rules[i] == if db.rules[i].org == org && db.rules[i].approver == from && !db.rules[i].deleted
                                then db.rules[i].(approver := to) else db.rules[i]
    ensures exists i | 0 <= i < |db.rules| ::
              db.rules[i].org == org && db.rules[i].approver == from && !db.rules[i].deleted
  {
    Counted(db.rules, org, from);
    hide Unique;
  }
}
