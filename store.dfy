/** The local store as keyed tables, and the invariants the handlers keep on the
    user-scoped ones: one default rule per user, rule ids below the counter, and
    assignments that point only at their own user's rules. */
module Store {
  import opened Base
  import opened Records

  /** A value snapshot of every table. Mirrors are keyed by provider id, rules by the
      store's id, assignments by (user, project), connections by user. */
  datatype Tables = Tables(
    clients: map<HarvestId, Client>,
    projects: map<HarvestId, Project>,
    invoices: map<HarvestId, Invoice>,
    rules: map<RuleId, CommissionRule>,
    nextRuleId: RuleId,
    assignments: map<AssignmentKey, RuleId>,
    connections: map<UserId, Connection>)

  /** The store after a request handler, and the handler's reply. */
  datatype Outcome<T> = Outcome(tables: Tables, reply: ApiResult<T>)

  predicate IsDefaultRuleOf(rules: map<RuleId, CommissionRule>, id: RuleId, userId: UserId)
  {
    id in rules && rules[id].userId == userId && rules[id].isDefault
  }

  /** At most one default rule per user. */
  ghost predicate OneDefaultPerUser(rules: map<RuleId, CommissionRule>)
  {
    forall a, b ::
      (a in rules && b in rules && rules[a].isDefault && rules[b].isDefault && rules[a].userId == rules[b].userId)
      ==> a == b
  }

  /** An assignment whose rule still exists points at a rule of the assignment's own user. */
  ghost predicate AssignmentsOwned(rules: map<RuleId, CommissionRule>, assignments: map<AssignmentKey, RuleId>)
  {
    forall k :: k in assignments && assignments[k] in rules ==> rules[assignments[k]].userId == k.userId
  }

  ghost predicate WellFormed(t: Tables)
  {
    && (forall id :: id in t.rules ==> id < t.nextRuleId)
    && (forall k :: k in t.assignments ==> t.assignments[k] < t.nextRuleId)
    && OneDefaultPerUser(t.rules)
    && AssignmentsOwned(t.rules, t.assignments)
  }

  /** `findFirst({ where: { userId, isDefault: true } })`, scanning the ids below `bound`. */
  function FindDefaultRule(rules: map<RuleId, CommissionRule>, userId: UserId, bound: nat): (r: Option<RuleId>)
    ensures r.Some? ==> r.value < bound && IsDefaultRuleOf(rules, r.value, userId)
    ensures r.None? ==> forall id: RuleId :: id < bound ==> !IsDefaultRuleOf(rules, id, userId)
  {
    if bound == 0 then None
    else
      match FindDefaultRule(rules, userId, bound - 1)
      case Some(id) => Some(id)
      case None => if IsDefaultRuleOf(rules, bound - 1, userId) then Some(bound - 1) else None
  }

  function DefaultRule(t: Tables, userId: UserId): Option<RuleId>
  {
    FindDefaultRule(t.rules, userId, t.nextRuleId)
  }

  /** In a well-formed store the lookup finds the user's default rule exactly when there is one,
      and it is that rule. */
  lemma DefaultRuleExact(t: Tables, userId: UserId, id: RuleId)
    requires WellFormed(t)
    ensures DefaultRule(t, userId) == Some(id) <==> IsDefaultRuleOf(t.rules, id, userId)
  {
    if IsDefaultRuleOf(t.rules, id, userId) {
      var r := DefaultRule(t, userId);
      assert r.Some?;
      assert IsDefaultRuleOf(t.rules, r.value, t.rules[id].userId);
    }
  }

  /** The store the handlers act on: one mutable field per table. */
  class Database {
    var clients: map<HarvestId, Client>
    var projects: map<HarvestId, Project>
    var invoices: map<HarvestId, Invoice>
    var rules: map<RuleId, CommissionRule>
    var nextRuleId: RuleId
    var assignments: map<AssignmentKey, RuleId>
    var connections: map<UserId, Connection>

    function Snapshot(): Tables
      reads this
    {
      Tables(clients, projects, invoices, rules, nextRuleId, assignments, connections)
    }

    ghost predicate Valid()
      reads this
    {
      WellFormed(Snapshot())
    }

    constructor()
      ensures Valid()
      ensures Snapshot() == Tables(map[], map[], map[], map[], 0, map[], map[])
    {
      clients, projects, invoices := map[], map[], map[];
      rules, nextRuleId := map[], 0;
      assignments, connections := map[], map[];
    }
  }
}
