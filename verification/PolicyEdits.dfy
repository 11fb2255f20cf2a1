/** What an edit of the rules, users or groups can change about the decisions, and what it cannot. */
module PolicyEdits {
  import opened Wrappers
  import opened Schema
  import opened StoreSpec
  import opened Resolver
  import opened Refinement

  ghost function PairVerdict(t: Tables, user: int, service: int): Option<Decision> {
    TableVerdict(t.rules, TableUserRefs(t, user), TableServiceRefs(t, service))
  }

  /** A verdict depends only on the rules that apply. */
  lemma VerdictFrame(rules: map<int, Rule>, rules': map<int, Rule>, subjects: set<Ref>, targets: set<Ref>)
    requires forall id :: Applies(rules, id, subjects, targets) <==> Applies(rules', id, subjects, targets)
    requires forall id :: Applies(rules, id, subjects, targets) && id in rules' ==> rules[id] == rules'[id]
    ensures TableVerdict(rules, subjects, targets) == TableVerdict(rules', subjects, targets)
  {
    assert forall id :: Decides(rules, id, subjects, targets) <==> Decides(rules', id, subjects, targets);
    if id :| Decides(rules, id, subjects, targets) {
      VerdictOf(rules, id, subjects, targets);
      VerdictOf(rules', id, subjects, targets);
    }
  }

  // ----- rules ----------------------------------------------------------------

  /** A newly inserted rule decides everything it covers, whatever rules were there. */
  lemma FreshRuleDecides(t: Tables, subject: Ref, target: Ref, action: Action, subjects: set<Ref>, targets: set<Ref>)
    requires Consistent(t) && CreatePolicyOutcome(t, subject, target, action).Success?
    requires FindRule(t, subject, target).None? && subject in subjects && target in targets
    ensures TableVerdict(CreatePolicyOutcome(t, subject, target, action).value.db.rules, subjects, targets)
      == Some(DecisionOf(action))
  {
    var rules := CreatePolicyOutcome(t, subject, target, action).value.db.rules;
    assert Decides(rules, t.lastRule + 1, subjects, targets);
    VerdictOf(rules, t.lastRule + 1, subjects, targets);
  }

  /** It changes nothing it does not cover. */
  lemma FreshRuleFrame(t: Tables, subject: Ref, target: Ref, action: Action, subjects: set<Ref>, targets: set<Ref>)
    requires Consistent(t) && CreatePolicyOutcome(t, subject, target, action).Success?
    requires FindRule(t, subject, target).None? && (subject !in subjects || target !in targets)
    ensures TableVerdict(CreatePolicyOutcome(t, subject, target, action).value.db.rules, subjects, targets)
         == TableVerdict(t.rules, subjects, targets)
  {
    VerdictFrame(t.rules, CreatePolicyOutcome(t, subject, target, action).value.db.rules, subjects, targets);
  }

  /** Re-adding a pair keeps its old id, so it decides exactly where that id already decided: the
      newest edit does not win against a rule inserted later. */
  lemma UpsertDecides(t: Tables, subject: Ref, target: Ref, action: Action, subjects: set<Ref>, targets: set<Ref>)
    requires Consistent(t) && CreatePolicyOutcome(t, subject, target, action).Success?
    requires FindRule(t, subject, target).Some?
    ensures var id := FindRule(t, subject, target).value;
      TableVerdict(CreatePolicyOutcome(t, subject, target, action).value.db.rules, subjects, targets)
      == if Decides(t.rules, id, subjects, targets) then Some(DecisionOf(action))
        else TableVerdict(t.rules, subjects, targets)
  {
    var id := FindRule(t, subject, target).value;
    var rules := CreatePolicyOutcome(t, subject, target, action).value.db.rules;
    assert forall other :: Applies(t.rules, other, subjects, targets) <==> Applies(rules, other, subjects, targets);
    assert forall other :: Decides(t.rules, other, subjects, targets) <==> Decides(rules, other, subjects, targets);
    if best :| Decides(t.rules, best, subjects, targets) {
      VerdictOf(t.rules, best, subjects, targets);
      VerdictOf(rules, best, subjects, targets);
      assert Decides(t.rules, id, subjects, targets) <==> best == id;
    }
  }

  /** A user is allowed in and its group is then shut out. Adding the first rule once more, the newest
      edit of all, lets nobody in: it keeps its old id and loses to the rule of the group. */
  lemma ReaddedRuleLoses(t: Tables, user: Ref, group: Ref, service: Ref)
    requires user.typ.UserType? && group.typ.UserGroupType? && service.typ.ServiceType?
    requires Exists(t, user) && Exists(t, service)
    requires t.rules == map[1 := Rule(user, service, AllowAction), 2 := Rule(group, service, DenyAction)]
      && t.lastRule == 2
    ensures CreatePolicyOutcome(t, user, service, AllowAction).Success?
    ensures TableVerdict(CreatePolicyOutcome(t, user, service, AllowAction).value.db.rules, {user, group}, {service})
      == Some(Deny)
  {
    assert t.rules[1].subject == user && t.rules[1].target == service;
    assert FindRule(t, user, service) == Some(1);
    var rules := CreatePolicyOutcome(t, user, service, AllowAction).value.db.rules;
    assert Decides(rules, 2, {user, group}, {service});
    VerdictOf(rules, 2, {user, group}, {service});
  }

  /** Inserting a fresh rule and deleting it again restores every table, hence every decision; only
      the id counter has moved on. */
  lemma InsertThenDeleteRestores(t: Tables, subject: Ref, target: Ref, action: Action)
    requires Consistent(t) && CreatePolicyOutcome(t, subject, target, action).Success?
    requires FindRule(t, subject, target).None?
    ensures var c := CreatePolicyOutcome(t, subject, target, action).value;
      DeletePolicyOutcome(c.db, c.id) == Success(Commit(t.(lastRule := t.lastRule + 1), c.id))
  {
    var c := CreatePolicyOutcome(t, subject, target, action).value;
    assert c.id !in t.rules;
    assert c.db.rules - {c.id} == t.rules;
  }

  // ----- users and groups -----------------------------------------------------

  /** Deleting a user changes no decision between the others. */
  lemma DeleteUserFrame(t: Tables, gone: int, u: int, v: int, service: int)
    requires Consistent(t) && gone in t.users && u != gone && v != gone
    ensures var t' := DeleteUserOutcome(t, gone).value.db;
      TablePeerDecision(t', u, v) == TablePeerDecision(t, u, v)
        && PairVerdict(t', u, service) == PairVerdict(t, u, service)
  {
    var t' := DeleteUserOutcome(t, gone).value.db;
    assert TableUserRefs(t', u) == TableUserRefs(t, u) && TableUserRefs(t', v) == TableUserRefs(t, v);
    assert TableServiceRefs(t', service) == TableServiceRefs(t, service);
    ScrubFrame(t, Ref(UserType, gone), TableUserRefs(t, u), TableUserRefs(t, v));
    ScrubFrame(t, Ref(UserType, gone), TableUserRefs(t, u), TableServiceRefs(t, service));
    assert TableSharesLan(t', u, v) == TableSharesLan(t, u, v);
  }

  lemma RefsOutside(t: Tables, gone: int, u: int)
    requires gone in t.userGroups && Member(gone, u) !in t.userMembers
    ensures TableUserRefs(DeleteUserGroupOutcome(t, gone).value.db, u) == TableUserRefs(t, u)
  {
  }

  /** Deleting a user group changes no decision between users outside it. */
  lemma DeleteUserGroupFrame(t: Tables, gone: int, u: int, v: int, service: int)
    requires Consistent(t) && gone in t.userGroups
    requires Member(gone, u) !in t.userMembers && Member(gone, v) !in t.userMembers
    ensures var t' := DeleteUserGroupOutcome(t, gone).value.db;
      TablePeerDecision(t', u, v) == TablePeerDecision(t, u, v)
        && PairVerdict(t', u, service) == PairVerdict(t, u, service)
  {
    var t' := DeleteUserGroupOutcome(t, gone).value.db;
    RefsOutside(t, gone, u);
    RefsOutside(t, gone, v);
    assert TableServiceRefs(t', service) == TableServiceRefs(t, service);
    ScrubFrame(t, Ref(UserGroupType, gone), TableUserRefs(t, u), TableUserRefs(t, v));
    ScrubFrame(t, Ref(UserGroupType, gone), TableUserRefs(t, u), TableServiceRefs(t, service));
    assert TableSharesLan(t', u, v) == TableSharesLan(t, u, v);
  }

  /** Deleting a service changes no decision about the others, nor between users. */
  lemma DeleteServiceFrame(t: Tables, gone: int, u: int, v: int, service: int)
    requires Consistent(t) && gone in t.services && service != gone
    ensures var t' := DeleteServiceOutcome(t, gone).value.db;
      TablePeerDecision(t', u, v) == TablePeerDecision(t, u, v)
        && PairVerdict(t', u, service) == PairVerdict(t, u, service)
  {
    var t' := DeleteServiceOutcome(t, gone).value.db;
    assert TableUserRefs(t', u) == TableUserRefs(t, u) && TableUserRefs(t', v) == TableUserRefs(t, v);
    assert TableServiceRefs(t', service) == TableServiceRefs(t, service);
    ScrubFrame(t, Ref(ServiceType, gone), TableUserRefs(t, u), TableUserRefs(t, v));
    ScrubFrame(t, Ref(ServiceType, gone), TableUserRefs(t, u), TableServiceRefs(t, service));
  }

  /** Deleting a service group changes no decision about services outside it. */
  lemma DeleteServiceGroupFrame(t: Tables, gone: int, u: int, service: int)
    requires Consistent(t) && gone in t.serviceGroups && Member(gone, service) !in t.serviceMembers
    ensures PairVerdict(DeleteServiceGroupOutcome(t, gone).value.db, u, service) == PairVerdict(t, u, service)
  {
    var t' := DeleteServiceGroupOutcome(t, gone).value.db;
    assert TableUserRefs(t', u) == TableUserRefs(t, u);
    assert TableServiceRefs(t', service) == TableServiceRefs(t, service);
    ScrubFrame(t, Ref(ServiceGroupType, gone), TableUserRefs(t, u), TableServiceRefs(t, service));
  }

  /** Scrubbing the rules of one entity leaves the verdicts that never name it. */
  lemma ScrubFrame(t: Tables, gone: Ref, subjects: set<Ref>, targets: set<Ref>)
    requires gone !in subjects && gone !in targets
    ensures TableVerdict(WithoutRulesOn(t, gone), subjects, targets) == TableVerdict(t.rules, subjects, targets)
  {
    VerdictFrame(t.rules, WithoutRulesOn(t, gone), subjects, targets);
  }
}
