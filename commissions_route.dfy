/** The commissions query: checks for the user's default rule, optionally narrows the invoices to
    a date range, maps each invoice to a project through its client, resolves the project's rate,
    and reports every invoice with its commission together with the summary. */
module CommissionsRoute {
  import opened Base
  import opened Records
  import opened Store
  import opened Calculations

  const NO_DEFAULT_RULE := "No default commission rule found"

  /** An assignment row of the user as the query loads it, with its rule included. */
  datatype AssignmentWithRule = AssignmentWithRule(projectHarvestId: HarvestId, commissionRule: CommissionRule)

  datatype CommissionReport = CommissionReport(invoices: seq<InvoiceWithCommission>, summary: CommissionSummary)

  // ---------------------------------------------------------------------------
  // Client -> project map

  /** `new Map(projects.map(p => [p.clientHarvestId, p]))`: one project per client id, a later
      project replacing an earlier one of the same client. */
  function ClientProjects(projects: seq<Project>): (m: map<HarvestId, Project>)
    ensures forall c :: c in m ==> m[c] in projects && m[c].clientHarvestId == c
    ensures forall p :: p in projects ==> p.clientHarvestId in m
  {
    if |projects| == 0 then map[]
    else
      var last := projects[|projects| - 1];
      ClientProjects(projects[..|projects| - 1])[last.clientHarvestId := last]
  }

  /** The last project of a client in list order is the one the map keeps. */
  lemma {:induction false} ClientProjectsLastWins(projects: seq<Project>, i: nat)
    requires i < |projects|
    requires forall j :: i < j < |projects| ==> projects[j].clientHarvestId != projects[i].clientHarvestId
    ensures ClientProjects(projects)[projects[i].clientHarvestId] == projects[i]
  {
    if i < |projects| - 1 {
      ClientProjectsLastWins(projects[..|projects| - 1], i);
    }
  }

  // ---------------------------------------------------------------------------
  // Rate of one invoice

  /** The mapped project of an invoice, if its client has one. */
  function ProjectOf(invoice: Invoice, clientProjects: map<HarvestId, Project>): Option<Project>
  {
    if invoice.clientHarvestId in clientProjects then Some(clientProjects[invoice.clientHarvestId]) else None
  }

  /** The rate the query uses for an invoice: the rule percent of the first assignment of the
      mapped project, the default percent when there is no mapped project or no assignment. */
  function InvoiceRate(invoice: Invoice, clientProjects: map<HarvestId, Project>,
                       assignments: seq<AssignmentWithRule>, defaultRule: CommissionRule): real
  {
    match ProjectOf(invoice, clientProjects)
    case None => defaultRule.percent
    case Some(project) =>
      match FindAssignment(AsViews(assignments), project.harvestId)
      case Some(i) => assignments[i].commissionRule.percent
      case None => defaultRule.percent
  }

  /** The loaded rows as the calculator sees them: every row has its rule included. */
  function AsViews(assignments: seq<AssignmentWithRule>): (views: seq<AssignmentView>)
    ensures |views| == |assignments|
  {
    seq(|assignments|, i requires 0 <= i < |assignments| =>
      AssignmentView(assignments[i].projectHarvestId, Some(assignments[i].commissionRule)))
  }

  /** The query's inline rate lookup is the calculator's `getCommissionForProject` applied to the
      mapped project; an invoice with no mapped project gets the default percent. */
  lemma InvoiceRateIsCommissionForProject(invoice: Invoice, clientProjects: map<HarvestId, Project>,
                                          assignments: seq<AssignmentWithRule>, defaultRule: CommissionRule)
    ensures invoice.clientHarvestId in clientProjects ==>
      InvoiceRate(invoice, clientProjects, assignments, defaultRule)
        == GetCommissionForProject(clientProjects[invoice.clientHarvestId].harvestId, AsViews(assignments), defaultRule)
    ensures invoice.clientHarvestId !in clientProjects ==>
      InvoiceRate(invoice, clientProjects, assignments, defaultRule) == defaultRule.percent
  {
    if invoice.clientHarvestId in clientProjects {
      var pid := clientProjects[invoice.clientHarvestId].harvestId;
      var views := AsViews(assignments);
      match FindAssignment(views, pid)
      case Some(i) =>
        assert views[i].projectHarvestId == pid;
      case None =>
    }
  }

  /** The user's assignment rows as the query loads them from the store: one per assignment of
      the user whose rule exists, in any order, each with its rule. */
  ghost predicate ListsAssignments(t: Tables, userId: UserId, rows: seq<AssignmentWithRule>)
  {
    && (forall i :: 0 <= i < |rows| ==>
          && AssignmentKey(userId, rows[i].projectHarvestId) in t.assignments
          && t.assignments[AssignmentKey(userId, rows[i].projectHarvestId)] in t.rules
          && t.rules[t.assignments[AssignmentKey(userId, rows[i].projectHarvestId)]] == rows[i].commissionRule)
    && (forall k :: k in t.assignments && k.userId == userId && t.assignments[k] in t.rules ==>
          exists i :: 0 <= i < |rows| && rows[i].projectHarvestId == k.projectHarvestId)
  }

  /** The percent of the user's assignment for a project in the store, else the default. */
  function AssignedPercent(t: Tables, userId: UserId, projectHarvestId: HarvestId, defaultRule: CommissionRule): real
  {
    var key := AssignmentKey(userId, projectHarvestId);
    if key in t.assignments && t.assignments[key] in t.rules then t.rules[t.assignments[key]].percent
    else defaultRule.percent
  }

  /** Because the store holds at most one assignment per (user, project), the first match the
      query takes is that assignment, whatever order the rows are listed in. */
  lemma RateIndependentOfOrder(t: Tables, userId: UserId, rows: seq<AssignmentWithRule>,
                               invoice: Invoice, clientProjects: map<HarvestId, Project>, defaultRule: CommissionRule)
    requires ListsAssignments(t, userId, rows)
    requires invoice.clientHarvestId in clientProjects
    ensures InvoiceRate(invoice, clientProjects, rows, defaultRule)
      == AssignedPercent(t, userId, clientProjects[invoice.clientHarvestId].harvestId, defaultRule)
  {
    var pid := clientProjects[invoice.clientHarvestId].harvestId;
    var views := AsViews(rows);
    match FindAssignment(views, pid)
    case Some(i) =>
      assert views[i].projectHarvestId == rows[i].projectHarvestId;
    case None =>
      forall i | 0 <= i < |rows| ensures rows[i].projectHarvestId != pid {
        assert views[i].projectHarvestId == rows[i].projectHarvestId;
      }
  }

  // ---------------------------------------------------------------------------
  // The query

  /** The invoices the query reports: all of them unless both range bounds are given. */
  function SelectedInvoices(invoices: seq<Invoice>, startDate: Option<Date>, endDate: Option<Date>): seq<Invoice>
  {
    if startDate.Some? && endDate.Some? then FilterInvoicesByDateRange(invoices, startDate.value, endDate.value)
    else invoices
  }

  /** `GET /api/commissions`, given the store's answers for the requesting user: their default
      rule (if any), their assignments with the rules included, and all invoices and projects in
      the order the store lists them. Date bounds are `None` when absent or empty. */
  method GetCommissions(startDate: Option<Date>, endDate: Option<Date>, defaultRule: Option<CommissionRule>,
                        assignments: seq<AssignmentWithRule>, invoices: seq<Invoice>, projects: seq<Project>)
      returns (r: Result<CommissionReport>)
    ensures r.Err? <==> defaultRule.None?
    ensures r.Err? ==> r.error == NO_DEFAULT_RULE
    ensures r.Ok? ==>
      var data := SelectedInvoices(invoices, startDate, endDate);
      var rows := r.value.invoices;
      && |rows| == |data|
      && (forall i :: 0 <= i < |rows| ==>
            && rows[i].invoice == data[i]
            && rows[i].commissionPercent == InvoiceRate(data[i], ClientProjects(projects), assignments, defaultRule.value)
            && rows[i].commissionAmount == CalculateCommission(data[i], rows[i].commissionPercent)
            && rows[i].projectName == (if data[i].clientHarvestId in ClientProjects(projects)
                                       then Some(ClientProjects(projects)[data[i].clientHarvestId].name) else None))
      && r.value.summary == CommissionSummary(
           SumStatus(rows, OPEN), SumStatus(rows, PAID), CountStatus(rows, OPEN), CountStatus(rows, PAID))
  {
    if defaultRule.None? {
      return Err(NO_DEFAULT_RULE);
    }
    var rule := defaultRule.value;
    var invoicesData := invoices;
    if startDate.Some? && endDate.Some? {
      invoicesData := FilterInvoicesByDateRange(invoicesData, startDate.value, endDate.value);
    }
    var clientProjects := ClientProjects(projects);
    var rows := seq(|invoicesData|, i requires 0 <= i < |invoicesData| =>
      var project := ProjectOf(invoicesData[i], clientProjects);
      var percent := InvoiceRate(invoicesData[i], clientProjects, assignments, rule);
      InvoiceWithCommission(invoicesData[i], percent, CalculateCommission(invoicesData[i], percent),
                            if project.Some? then Some(project.value.name) else None));
    var summary := CalculateCommissionSummary(rows);
    SummaryByStatus(rows);
    r := Ok(CommissionReport(rows, summary));
  }

  /** With a bound missing nothing is filtered; with both given exactly the in-range invoices
      are reported, in their original order. */
  lemma SelectionRules(invoices: seq<Invoice>, startDate: Option<Date>, endDate: Option<Date>)
    ensures startDate.None? || endDate.None? ==> SelectedInvoices(invoices, startDate, endDate) == invoices
    ensures startDate.Some? && endDate.Some? ==>
      && IsSubsequence(SelectedInvoices(invoices, startDate, endDate), invoices)
      && forall x :: x in invoices ==>
           (x in SelectedInvoices(invoices, startDate, endDate) <==> InDateRange(x, startDate.value, endDate.value))
  {
  }
}
