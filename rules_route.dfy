/** The commission-rule handlers: list the user's rules, create a rule, update a rule, and
    delete a rule after moving its assignments to the default rule. Each handler is given as a
    function from the store to the store and the reply, and as a method on the store proved
    equal to it. */
module RulesRoute {
  import opened Base
  import opened Records
  import opened Store
  import opened Ordering

  const NAME_AND_PERCENT_REQUIRED := "Name and percent are required"
  const RULE_ID_REQUIRED := "Rule ID is required"
  const RULE_NOT_FOUND := "Rule not found"
  const CANNOT_RENAME_DEFAULT := "Cannot rename default rule"
  const CANNOT_DELETE_DEFAULT := "Cannot delete default rule"

  /** `findFirst({ where: { id, userId } })` finds the rule. */
  predicate OwnsRule(t: Tables, userId: UserId, id: RuleId)
  {
    id in t.rules && t.rules[id].userId == userId
  }

  // ---------------------------------------------------------------------------
  // GET

  /** `orderBy: [{ isDefault: 'desc' }, { name: 'asc' }]` */
  function RuleKey(row: RuleRow): SortKey
  {
    SortKey(row.rule.isDefault, row.rule.name)
  }

  function OwnedRules(rules: map<RuleId, CommissionRule>, userId: UserId): set<RuleRow>
  {
    set id | id in rules && rules[id].userId == userId :: RuleRow(id, rules[id])
  }

  /** The user's rules, each once, default first and then by name. */
  method GetRules(db: Database, userId: UserId) returns (rows: seq<RuleRow>)
    ensures multiset(rows) == multiset(OwnedRules(db.rules, userId))
    ensures SortedBy(rows, RuleKey)
  {
    var listed := SetToSeq(OwnedRules(db.rules, userId));
    rows := SortByKey(listed, RuleKey);
    SortByKeyCorrect(listed, RuleKey);
  }

  // ---------------------------------------------------------------------------
  // POST

  /** Creates a non-default rule for the user under the next rule id; a missing or empty name,
      or a missing percent, is rejected with nothing written. */
  function CreateRule(t: Tables, userId: UserId, name: Option<string>, percent: Option<real>): Outcome<RuleRow>
  {
    if !Truthy(name) || percent.None? then Outcome(t, Failure(400, NAME_AND_PERCENT_REQUIRED))
    else
      var rule := CommissionRule(userId, name.value, percent.value, false);
      Outcome(t.(rules := t.rules[t.nextRuleId := rule], nextRuleId := t.nextRuleId + 1), Success(RuleRow(t.nextRuleId, rule)))
  }

  method PostRule(db: Database, userId: UserId, name: Option<string>, percent: Option<real>) returns (r: ApiResult<RuleRow>)
    requires db.Valid()
    modifies db
    ensures db.Snapshot() == CreateRule(old(db.Snapshot()), userId, name, percent).tables
    ensures r == CreateRule(old(db.Snapshot()), userId, name, percent).reply
    ensures db.Valid()
  {
    CreatePreservesWellFormed(db.Snapshot(), userId, name, percent);
    if !Truthy(name) || percent.None? {
      return Failure(400, NAME_AND_PERCENT_REQUIRED);
    }
    var rule := CommissionRule(userId, name.value, percent.value, false);
    var id := db.nextRuleId;
    db.rules := db.rules[id := rule];
    db.nextRuleId := id + 1;
    r := Success(RuleRow(id, rule));
  }

  /** Creating a rule leaves every user's default rule as it was, and a created rule is the
      user's own, non-default, with the requested name and percent. */
  lemma {:induction false} CreateKeepsDefaults(t: Tables, userId: UserId, name: Option<string>, percent: Option<real>, u: UserId)
    requires WellFormed(t)
    ensures CreateRule(t, userId, name, percent).reply.Success? <==> Truthy(name) && percent.Some?
    ensures DefaultRule(CreateRule(t, userId, name, percent).tables, u) == DefaultRule(t, u)
    ensures
      var o := CreateRule(t, userId, name, percent);
      o.reply.Success? ==>
        && o.reply.value.id !in t.rules
        && o.reply.value.rule == CommissionRule(userId, name.value, percent.value, false)
        && o.tables.rules == t.rules[o.reply.value.id := o.reply.value.rule]
  {
    var o := CreateRule(t, userId, name, percent);
    if o.reply.Success? {
      var t' := o.tables;
      var b := t.nextRuleId;
      assert FindDefaultRule(t'.rules, u, b) == FindDefaultRule(t.rules, u, b) by {
        SameDefaultsBelow(t.rules, t'.rules, u, b);
      }
    }
  }

  /** Two rule tables that agree on which ids below `bound` are default rules of `u` give the
      same lookup. */
  lemma {:induction false} SameDefaultsBelow(r1: map<RuleId, CommissionRule>, r2: map<RuleId, CommissionRule>, u: UserId, bound: nat)
    requires forall id: RuleId :: id < bound ==> (IsDefaultRuleOf(r1, id, u) <==> IsDefaultRuleOf(r2, id, u))
    ensures FindDefaultRule(r1, u, bound) == FindDefaultRule(r2, u, bound)
  {
    if bound > 0 {
      SameDefaultsBelow(r1, r2, u, bound - 1);
    }
  }

  // ---------------------------------------------------------------------------
  // PUT

  /** Updates the user's rule: the name only when a non-empty one is given, the percent only
      when one is given. A default rule cannot be given a name. */
  function UpdateRule(t: Tables, userId: UserId, id: Option<RuleId>, name: Option<string>, percent: Option<real>): Outcome<RuleRow>
  {
    if id.None? then Outcome(t, Failure(400, RULE_ID_REQUIRED))
    else if !OwnsRule(t, userId, id.value) then Outcome(t, Failure(404, RULE_NOT_FOUND))
    else
      var rule := t.rules[id.value];
      if rule.isDefault && Truthy(name) then Outcome(t, Failure(400, CANNOT_RENAME_DEFAULT))
      else
        var updated := rule.(name := if Truthy(name) then name.value else rule.name,
                             percent := if percent.Some? then percent.value else rule.percent);
        Outcome(t.(rules := t.rules[id.value := updated]), Success(RuleRow(id.value, updated)))
  }

  method PutRule(db: Database, userId: UserId, id: Option<RuleId>, name: Option<string>, percent: Option<real>)
      returns (r: ApiResult<RuleRow>)
    requires db.Valid()
    modifies db
    ensures db.Snapshot() == UpdateRule(old(db.Snapshot()), userId, id, name, percent).tables
    ensures r == UpdateRule(old(db.Snapshot()), userId, id, name, percent).reply
    ensures db.Valid()
  {
    UpdatePreservesWellFormed(db.Snapshot(), userId, id, name, percent);
    if id.None? {
      return Failure(400, RULE_ID_REQUIRED);
    }
    if !(id.value in db.rules && db.rules[id.value].userId == userId) {
      return Failure(404, RULE_NOT_FOUND);
    }
    var rule := db.rules[id.value];
    if rule.isDefault && Truthy(name) {
      return Failure(400, CANNOT_RENAME_DEFAULT);
    }
    var updated := rule;
    if Truthy(name) {
      updated := updated.(name := name.value);
    }
    if percent.Some? {
      updated := updated.(percent := percent.value);
    }
    db.rules := db.rules[id.value := updated];
    r := Success(RuleRow(id.value, updated));
  }

  /** An update either fails and changes nothing, or changes only the addressed rule of the
      caller: its owner and default flag stay, its name changes only for a non-default rule
      given a non-empty name, its percent only when one is given. */
  lemma UpdateChangesOnlyTheRule(t: Tables, userId: UserId, id: Option<RuleId>, name: Option<string>, percent: Option<real>)
    ensures
      var o := UpdateRule(t, userId, id, name, percent);
      && (o.reply.Failure? ==> o.tables == t)
      && (o.reply.Success? <==> id.Some? && OwnsRule(t, userId, id.value) && !(t.rules[id.value].isDefault && Truthy(name)))
      && (o.reply.Success? ==>
            var old_ := t.rules[id.value];
            var new_ := o.tables.rules[id.value];
            && o.tables == t.(rules := t.rules[id.value := new_])
            && new_.userId == old_.userId && new_.isDefault == old_.isDefault
            && new_.name == (if Truthy(name) then name.value else old_.name)
            && new_.percent == (if percent.Some? then percent.value else old_.percent)
            && (old_.isDefault ==> new_.name == old_.name))
  {
  }

  // ---------------------------------------------------------------------------
  // DELETE

  /** `updateMany({ where: { commissionRuleId: from }, data: { commissionRuleId: to } })` */
  function Repoint(assignments: map<AssignmentKey, RuleId>, from: RuleId, to: RuleId): (r: map<AssignmentKey, RuleId>)
    ensures r.Keys == assignments.Keys
    ensures forall k :: k in assignments && assignments[k] == from ==> r[k] == to
    ensures forall k :: k in assignments && assignments[k] != from ==> r[k] == assignments[k]
    ensures from != to ==> forall k :: k in r ==> r[k] != from
  {
    map k | k in assignments :: if assignments[k] == from then to else assignments[k]
  }

  /** Deletes the user's non-default rule; when the user has a default rule, every assignment
      of the deleted rule is first moved to it. */
  function RemoveRule(t: Tables, userId: UserId, id: Option<RuleId>): Outcome<()>
  {
    if id.None? then Outcome(t, Failure(400, RULE_ID_REQUIRED))
    else if !OwnsRule(t, userId, id.value) then Outcome(t, Failure(404, RULE_NOT_FOUND))
    else if t.rules[id.value].isDefault then Outcome(t, Failure(400, CANNOT_DELETE_DEFAULT))
    else
      var assignments := match DefaultRule(t, userId)
                         case Some(d) => Repoint(t.assignments, id.value, d)
                         case None => t.assignments;
      Outcome(t.(assignments := assignments, rules := t.rules - {id.value}), Success(()))
  }

  method DeleteRule(db: Database, userId: UserId, id: Option<RuleId>) returns (r: ApiResult<()>)
    requires db.Valid()
    modifies db
    ensures db.Snapshot() == RemoveRule(old(db.Snapshot()), userId, id).tables
    ensures r == RemoveRule(old(db.Snapshot()), userId, id).reply
    ensures db.Valid()
  {
    RemovePreservesWellFormed(db.Snapshot(), userId, id);
    if id.None? {
      return Failure(400, RULE_ID_REQUIRED);
    }
    if !(id.value in db.rules && db.rules[id.value].userId == userId) {
      return Failure(404, RULE_NOT_FOUND);
    }
    if db.rules[id.value].isDefault {
      return Failure(400, CANNOT_DELETE_DEFAULT);
    }
    var defaultRule := FindDefaultRule(db.rules, userId, db.nextRuleId);
    if defaultRule.Some? {
      db.assignments := Repoint(db.assignments, id.value, defaultRule.value);
    }
    db.rules := db.rules - {id.value};
    r := Success(());
  }

  /** A successful delete removes exactly the addressed rule. When the user has a default rule,
      no assignment refers to the deleted id afterwards: each that did now refers to the default
      rule, and all others are unchanged. */
  lemma DeleteMovesAssignmentsToDefault(t: Tables, userId: UserId, id: RuleId, d: RuleId)
    requires WellFormed(t)
    requires RemoveRule(t, userId, Some(id)).reply.Success?
    requires IsDefaultRuleOf(t.rules, d, userId)
    ensures
      var t' := RemoveRule(t, userId, Some(id)).tables;
      && id != d
      && t'.rules == t.rules - {id}
      && t'.assignments.Keys == t.assignments.Keys
      && (forall k :: k in t'.assignments ==> t'.assignments[k] != id)
      && (forall k :: k in t.assignments && t.assignments[k] == id ==> t'.assignments[k] == d)
      && (forall k :: k in t.assignments && t.assignments[k] != id ==> t'.assignments[k] == t.assignments[k])
  {
    DefaultRuleExact(t, userId, d);
  }

  /** A delete succeeds exactly for a non-default rule of the caller; otherwise nothing changes. */
  lemma DeleteGuards(t: Tables, userId: UserId, id: Option<RuleId>)
    ensures
      var o := RemoveRule(t, userId, id);
      && (o.reply.Success? <==> id.Some? && OwnsRule(t, userId, id.value) && !t.rules[id.value].isDefault)
      && (o.reply.Failure? ==> o.tables == t)
      && (id.None? ==> o.reply == Failure(400, RULE_ID_REQUIRED))
      && (id.Some? && !OwnsRule(t, userId, id.value) ==> o.reply == Failure(404, RULE_NOT_FOUND))
  {
  }

  /** No update, by any user, removes, renames, re-owns or un-defaults a default rule. */
  lemma UpdateKeepsDefaultRule(t: Tables, caller: UserId, id: Option<RuleId>, name: Option<string>, percent: Option<real>, d: RuleId)
    requires d in t.rules && t.rules[d].isDefault
    ensures
      var u := UpdateRule(t, caller, id, name, percent).tables;
      d in u.rules && u.rules[d].isDefault && u.rules[d].name == t.rules[d].name && u.rules[d].userId == t.rules[d].userId
  {
    if id.Some? && OwnsRule(t, caller, id.value) && !(t.rules[id.value].isDefault && Truthy(name)) {
      var u := UpdateRule(t, caller, id, name, percent).tables;
      if id.value == d {
        assert u.rules[d].name == t.rules[d].name;
      } else {
        assert u.rules[d] == t.rules[d];
      }
    }
  }

  /** No delete, by any user, removes or alters a default rule. */
  lemma RemoveKeepsDefaultRule(t: Tables, caller: UserId, id: Option<RuleId>, d: RuleId)
    requires d in t.rules && t.rules[d].isDefault
    ensures
      var r := RemoveRule(t, caller, id).tables;
      d in r.rules && r.rules[d] == t.rules[d]
  {
    if id.Some? && OwnsRule(t, caller, id.value) {
      if t.rules[id.value].isDefault {
        assert RemoveRule(t, caller, id).tables == t;
      } else {
        assert id.value != d;
        assert RemoveRule(t, caller, id).tables.rules == t.rules - {id.value};
      }
    }
  }

  /** No update or delete, by any user, removes, renames or un-defaults a default rule. */
  lemma DefaultRulesPersist(t: Tables, caller: UserId, id: Option<RuleId>, name: Option<string>, percent: Option<real>, d: RuleId)
    requires d in t.rules && t.rules[d].isDefault
    ensures
      var u := UpdateRule(t, caller, id, name, percent).tables;
      d in u.rules && u.rules[d].isDefault && u.rules[d].name == t.rules[d].name && u.rules[d].userId == t.rules[d].userId
    ensures
      var r := RemoveRule(t, caller, id).tables;
      d in r.rules && r.rules[d] == t.rules[d]
  {
    UpdateKeepsDefaultRule(t, caller, id, name, percent, d);
    RemoveKeepsDefaultRule(t, caller, id, d);
  }

  // ---------------------------------------------------------------------------
  // Invariants

  /** Every rule handler keeps the store well formed: one default per user, ids below the
      counter, assignments pointing only at their user's rules. */
  lemma CreatePreservesWellFormed(t: Tables, userId: UserId, name: Option<string>, percent: Option<real>)
    requires WellFormed(t)
    ensures WellFormed(CreateRule(t, userId, name, percent).tables)
  {
    var c := CreateRule(t, userId, name, percent).tables;
    assert forall k :: k in c.assignments && c.assignments[k] in c.rules ==> c.assignments[k] in t.rules;
  }

  lemma UpdatePreservesWellFormed(t: Tables, userId: UserId, id: Option<RuleId>, name: Option<string>, percent: Option<real>)
    requires WellFormed(t)
    ensures WellFormed(UpdateRule(t, userId, id, name, percent).tables)
  {
  }

  lemma RemovePreservesWellFormed(t: Tables, userId: UserId, id: Option<RuleId>)
    requires WellFormed(t)
    ensures WellFormed(RemoveRule(t, userId, id).tables)
  {
    var r := RemoveRule(t, userId, id);
    if r.reply.Success? && DefaultRule(t, userId).Some? {
      var d := DefaultRule(t, userId).value;
      var t' := r.tables;
      assert t'.assignments == Repoint(t.assignments, id.value, d);
      forall k | k in t'.assignments && t'.assignments[k] in t'.rules
        ensures t'.rules[t'.assignments[k]].userId == k.userId
      {
        if t.assignments[k] == id.value {
          assert t.rules[id.value].userId == userId;
        }
      }
    }
  }
}
