/** The project handlers: list every mirrored project with the caller's assignment, and set the
    caller's rule for a project. */
module ProjectsRoute {
  import opened Base
  import opened Records
  import opened Store
  import opened Ordering

  const IDS_REQUIRED := "Project ID and Rule ID are required"
  const RULE_NOT_FOUND := "Rule not found"

  /** The caller's assignment of a project with its rule included (absent if that rule is gone). */
  datatype UserAssignment = UserAssignment(commissionRuleId: RuleId, commissionRule: Option<CommissionRule>)

  /** A listed project with the caller's assignment, if any. */
  datatype ProjectRow = ProjectRow(project: Project, assignment: Option<UserAssignment>)

  // ---------------------------------------------------------------------------
  // GET

  /** The caller's assignment of a project; other users' assignments are not looked at. */
  function AssignmentOf(t: Tables, userId: UserId, projectHarvestId: HarvestId): Option<UserAssignment>
  {
    var key := AssignmentKey(userId, projectHarvestId);
    if key in t.assignments then
      var id := t.assignments[key];
      Some(UserAssignment(id, if id in t.rules then Some(t.rules[id]) else None))
    else None
  }

  function ProjectRows(t: Tables, userId: UserId): set<ProjectRow>
  {
    set id | id in t.projects :: ProjectRow(t.projects[id], AssignmentOf(t, userId, id))
  }

  /** `orderBy: [{ isActive: 'desc' }, { name: 'asc' }]` */
  function ProjectKey(row: ProjectRow): SortKey
  {
    SortKey(row.project.isActive, row.project.name)
  }

  /** Every project, each once, active first and then by name, with the caller's assignment. */
  method GetProjects(db: Database, userId: UserId) returns (rows: seq<ProjectRow>)
    ensures multiset(rows) == multiset(ProjectRows(db.Snapshot(), userId))
    ensures SortedBy(rows, ProjectKey)
  {
    var listed := SetToSeq(ProjectRows(db.Snapshot(), userId));
    rows := SortByKey(listed, ProjectKey);
    SortByKeyCorrect(listed, ProjectKey);
  }

  /** The listing is scoped to the caller: two stores that differ only in other users'
      assignments list the same rows. */
  lemma ListingIsPerUser(t: Tables, t': Tables, userId: UserId)
    requires t'.projects == t.projects && t'.rules == t.rules
    requires forall pid :: (AssignmentKey(userId, pid) in t.assignments <==> AssignmentKey(userId, pid) in t'.assignments)
    requires forall pid :: AssignmentKey(userId, pid) in t.assignments ==>
               t.assignments[AssignmentKey(userId, pid)] == t'.assignments[AssignmentKey(userId, pid)]
    ensures ProjectRows(t, userId) == ProjectRows(t', userId)
  {
    assert forall id :: AssignmentOf(t, userId, id) == AssignmentOf(t', userId, id);
  }

  // ---------------------------------------------------------------------------
  // PUT

  /** The reply of a successful assignment: the stored pair and its rule. */
  datatype AssignmentReply = AssignmentReply(key: AssignmentKey, commissionRuleId: RuleId, commissionRule: CommissionRule)

  /** Points the caller's assignment of a project at one of the caller's rules, creating the
      assignment if the caller had none for that project. */
  function AssignRule(t: Tables, userId: UserId, projectHarvestId: Option<HarvestId>, commissionRuleId: Option<RuleId>)
    : Outcome<AssignmentReply>
  {
    if projectHarvestId.None? || commissionRuleId.None? then Outcome(t, Failure(400, IDS_REQUIRED))
    else
      var rid := commissionRuleId.value;
      if !(rid in t.rules && t.rules[rid].userId == userId) then Outcome(t, Failure(404, RULE_NOT_FOUND))
      else
        var key := AssignmentKey(userId, projectHarvestId.value);
        Outcome(t.(assignments := t.assignments[key := rid]), Success(AssignmentReply(key, rid, t.rules[rid])))
  }

  method PutAssignment(db: Database, userId: UserId, projectHarvestId: Option<HarvestId>, commissionRuleId: Option<RuleId>)
      returns (r: ApiResult<AssignmentReply>)
    requires db.Valid()
    modifies db
    ensures db.Snapshot() == AssignRule(old(db.Snapshot()), userId, projectHarvestId, commissionRuleId).tables
    ensures r == AssignRule(old(db.Snapshot()), userId, projectHarvestId, commissionRuleId).reply
    ensures db.Valid()
  {
    AssignPreservesWellFormed(db.Snapshot(), userId, projectHarvestId, commissionRuleId);
    if projectHarvestId.None? || commissionRuleId.None? {
      return Failure(400, IDS_REQUIRED);
    }
    var rid := commissionRuleId.value;
    if !(rid in db.rules && db.rules[rid].userId == userId) {
      return Failure(404, RULE_NOT_FOUND);
    }
    var key := AssignmentKey(userId, projectHarvestId.value);
    db.assignments := db.assignments[key := rid];
    r := Success(AssignmentReply(key, rid, db.rules[rid]));
  }

  /** The guards and the effect: a missing id is a 400, a rule the caller does not own a 404,
      both with nothing changed; otherwise the caller's pair for the project refers to the rule
      afterwards and every other pair, and every other table, is as before. */
  lemma AssignEffect(t: Tables, userId: UserId, projectHarvestId: Option<HarvestId>, commissionRuleId: Option<RuleId>)
    ensures
      var o := AssignRule(t, userId, projectHarvestId, commissionRuleId);
      && (projectHarvestId.None? || commissionRuleId.None? ==> o == Outcome(t, Failure(400, IDS_REQUIRED)))
      && (projectHarvestId.Some? && commissionRuleId.Some?
          && !(commissionRuleId.value in t.rules && t.rules[commissionRuleId.value].userId == userId) ==>
            o == Outcome(t, Failure(404, RULE_NOT_FOUND)))
      && (o.reply.Success? ==>
            var key := AssignmentKey(userId, projectHarvestId.value);
            && o.tables.(assignments := t.assignments) == t
            && key in o.tables.assignments && o.tables.assignments[key] == commissionRuleId.value
            && o.tables.assignments.Keys == t.assignments.Keys + {key}
            && (forall k :: k in t.assignments && k != key ==> o.tables.assignments[k] == t.assignments[k]))
  {
  }

  /** Repeating an assignment leaves the store and the reply as the first one did. */
  lemma AssignIdempotent(t: Tables, userId: UserId, projectHarvestId: Option<HarvestId>, commissionRuleId: Option<RuleId>)
    ensures
      var o := AssignRule(t, userId, projectHarvestId, commissionRuleId);
      AssignRule(o.tables, userId, projectHarvestId, commissionRuleId) == o
  {
    var o := AssignRule(t, userId, projectHarvestId, commissionRuleId);
    if o.reply.Success? {
      var key := AssignmentKey(userId, projectHarvestId.value);
      assert o.tables.assignments[key := commissionRuleId.value] == o.tables.assignments;
    }
  }

  /** An assignment keeps the store well formed: it only ever refers to one of the caller's rules. */
  lemma AssignPreservesWellFormed(t: Tables, userId: UserId, projectHarvestId: Option<HarvestId>, commissionRuleId: Option<RuleId>)
    requires WellFormed(t)
    ensures WellFormed(AssignRule(t, userId, projectHarvestId, commissionRuleId).tables)
  {
  }
}
