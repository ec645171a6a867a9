/** The commission calculator: pure functions from invoices and rates to commission amounts,
    the date-range filter, and the summary fold. */
module Calculations {
  import opened Base
  import opened Records

  /** An invoice as the commissions query reports it, with its rate and commission attached. */
  datatype InvoiceWithCommission = InvoiceWithCommission(
    invoice: Invoice,
    commissionPercent: real,
    commissionAmount: real,
    projectName: Option<string>)

  // ---------------------------------------------------------------------------
  // Commission of one invoice

  /** Paid invoices earn on the amount paid, open invoices on the full amount,
      everything else (draft, closed, unknown states, paid with nothing paid) earns nothing. */
  function CalculateCommission(invoice: Invoice, commissionPercent: real): (r: real)
    ensures commissionPercent >= 0.0 && invoice.amount >= 0.0 && invoice.amountPaid >= 0.0 ==> r >= 0.0
    ensures commissionPercent == 0.0 ==> r == 0.0
    ensures invoice.status != OPEN && invoice.status != PAID ==> r == 0.0
  {
    if invoice.status == PAID && invoice.amountPaid > 0.0 then
      invoice.amountPaid * commissionPercent / 100.0
    else if invoice.status == OPEN then
      invoice.amount * commissionPercent / 100.0
    else
      0.0
  }

  /** The three cases of the commission formula, for every invoice and every percent. */
  lemma CommissionCases(invoice: Invoice, p: real)
    ensures invoice.status == PAID && invoice.amountPaid > 0.0 ==>
      CalculateCommission(invoice, p) == invoice.amountPaid * p / 100.0
    ensures invoice.status == OPEN ==> CalculateCommission(invoice, p) == invoice.amount * p / 100.0
    ensures invoice.status != OPEN && (invoice.status != PAID || invoice.amountPaid <= 0.0) ==>
      CalculateCommission(invoice, p) == 0.0
  {
  }

  /** The commission is linear in the percent: rates add up and a zero rate earns nothing. */
  lemma CommissionLinearInPercent(invoice: Invoice, p: real, q: real)
    ensures CalculateCommission(invoice, p + q) == CalculateCommission(invoice, p) + CalculateCommission(invoice, q)
    ensures CalculateCommission(invoice, 0.0) == 0.0
  {
  }

  /** Once an open invoice is paid (in part or in full), its earned commission does not
      exceed the potential commission it had while open. */
  lemma EarnedAtMostPotential(open: Invoice, paid: Invoice, p: real)
    requires open.status == OPEN && paid.status == PAID
    requires 0.0 < paid.amountPaid <= open.amount && 0.0 <= p
    ensures 0.0 <= CalculateCommission(paid, p) <= CalculateCommission(open, p)
  {
    assert paid.amountPaid * p <= open.amount * p;
  }

  /** An open invoice of 1000 at 10% earns 100; once paid with 950 it earns 95. */
  lemma OpenThenPaidExample(open: Invoice)
    requires open.status == OPEN && open.amount == 1000.0
    ensures CalculateCommission(open, 10.0) == 100.0
    ensures CalculateCommission(open.(status := PAID, amountPaid := 950.0, paidAt := Some(open.issueDate + 14)), 10.0) == 95.0
  {
  }

  // ---------------------------------------------------------------------------
  // Rate resolution

  /** An assignment as the calculator receives it; its rule may not have been loaded. */
  datatype AssignmentView = AssignmentView(projectHarvestId: HarvestId, commissionRule: Option<CommissionRule>)

  /** Index of the first assignment for the project, as `Array.find` scans. */
  function FindAssignment(assignments: seq<AssignmentView>, projectHarvestId: HarvestId): (r: Option<nat>)
    ensures r.Some? ==>
      && r.value < |assignments|
      && assignments[r.value].projectHarvestId == projectHarvestId
      && forall j :: 0 <= j < r.value ==> assignments[j].projectHarvestId != projectHarvestId
    ensures r.None? ==> forall j :: 0 <= j < |assignments| ==> assignments[j].projectHarvestId != projectHarvestId
  {
    if |assignments| == 0 then None
    else if assignments[0].projectHarvestId == projectHarvestId then Some(0)
    else
      match FindAssignment(assignments[1..], projectHarvestId)
      case None => None
      case Some(i) => Some(i + 1)
  }

  /** The percent of the first matching assignment's rule; the default rule's percent when
      nothing matches or the first match has no rule loaded. */
  function GetCommissionForProject(projectHarvestId: HarvestId, assignments: seq<AssignmentView>, defaultRule: CommissionRule): (r: real)
    ensures forall i :: 0 <= i < |assignments| && assignments[i].projectHarvestId == projectHarvestId
                        && (forall j :: 0 <= j < i ==> assignments[j].projectHarvestId != projectHarvestId) ==>
      r == (if assignments[i].commissionRule.Some? then assignments[i].commissionRule.value.percent else defaultRule.percent)
    ensures (forall i :: 0 <= i < |assignments| ==> assignments[i].projectHarvestId != projectHarvestId) ==>
      r == defaultRule.percent
  {
    match FindAssignment(assignments, projectHarvestId)
    case Some(i) =>
      if assignments[i].commissionRule.Some? then assignments[i].commissionRule.value.percent else defaultRule.percent
    case None => defaultRule.percent
  }

  // ---------------------------------------------------------------------------
  // Date-range filter

  /** Whether the filter keeps an invoice: paid invoices by their paid date (none means out),
      open invoices by their issue date, both bounds inclusive; any other status never. */
  predicate InDateRange(invoice: Invoice, startDate: Date, endDate: Date)
  {
    if invoice.status == PAID && invoice.paidAt.Some? then
      startDate <= invoice.paidAt.value <= endDate
    else if invoice.status == OPEN then
      startDate <= invoice.issueDate <= endDate
    else
      false
  }

  /** `a` is `b` with some elements removed, order kept. */
  predicate IsSubsequence<T(==)>(a: seq<T>, b: seq<T>)
  {
    if |a| == 0 then true
    else if |b| == 0 then false
    else if a[0] == b[0] then IsSubsequence(a[1..], b[1..])
    else IsSubsequence(a, b[1..])
  }

  function FilterInvoicesByDateRange(invoices: seq<Invoice>, startDate: Date, endDate: Date): (r: seq<Invoice>)
    ensures IsSubsequence(r, invoices)
    ensures forall x :: x in r ==> x in invoices && InDateRange(x, startDate, endDate)
    ensures forall x :: x in invoices && InDateRange(x, startDate, endDate) ==> x in r
  {
    if |invoices| == 0 then []
    else
      var rest := FilterInvoicesByDateRange(invoices[1..], startDate, endDate);
      if InDateRange(invoices[0], startDate, endDate) then [invoices[0]] + rest else rest
  }

  /** The inclusion rules of the filter, case by case. */
  lemma {:induction false} DateRangeRules(invoice: Invoice, startDate: Date, endDate: Date)
    ensures invoice.status == PAID && invoice.paidAt.Some? ==>
      (InDateRange(invoice, startDate, endDate) <==> startDate <= invoice.paidAt.value <= endDate)
    ensures invoice.status == PAID && invoice.paidAt.None? ==> !InDateRange(invoice, startDate, endDate)
    ensures invoice.status == OPEN ==>
      (InDateRange(invoice, startDate, endDate) <==> startDate <= invoice.issueDate <= endDate)
    ensures invoice.status != PAID && invoice.status != OPEN ==> !InDateRange(invoice, startDate, endDate)
  {
  }

  /** Filtering distributes over concatenation, so it works invoice by invoice. */
  lemma {:induction false} FilterConcat(a: seq<Invoice>, b: seq<Invoice>, startDate: Date, endDate: Date)
    ensures FilterInvoicesByDateRange(a + b, startDate, endDate)
         == FilterInvoicesByDateRange(a, startDate, endDate) + FilterInvoicesByDateRange(b, startDate, endDate)
  {
    if |a| > 0 {
      assert (a + b)[1..] == a[1..] + b;
      FilterConcat(a[1..], b, startDate, endDate);
    } else {
      assert a + b == b;
    }
  }

  // ---------------------------------------------------------------------------
  // Summary

  datatype CommissionSummary = CommissionSummary(
    openCommission: real,
    earnedCommission: real,
    totalInvoicesOpen: nat,
    totalInvoicesPaid: nat)

  const EmptySummary := CommissionSummary(0.0, 0.0, 0, 0)

  /** One step of the reduce: open invoices feed the open side, paid ones the earned side. */
  function AddToSummary(acc: CommissionSummary, x: InvoiceWithCommission): CommissionSummary
  {
    if x.invoice.status == OPEN then
      acc.(openCommission := acc.openCommission + x.commissionAmount, totalInvoicesOpen := acc.totalInvoicesOpen + 1)
    else if x.invoice.status == PAID then
      acc.(earnedCommission := acc.earnedCommission + x.commissionAmount, totalInvoicesPaid := acc.totalInvoicesPaid + 1)
    else
      acc
  }

  /** The summary of a list, folded from the left as the reduce does. */
  function Summarize(xs: seq<InvoiceWithCommission>): CommissionSummary
  {
    if |xs| == 0 then EmptySummary else AddToSummary(Summarize(xs[..|xs| - 1]), xs[|xs| - 1])
  }

  method CalculateCommissionSummary(xs: seq<InvoiceWithCommission>) returns (s: CommissionSummary)
    ensures s == Summarize(xs)
  {
    s := EmptySummary;
    var i := 0;
    while i < |xs|
      invariant 0 <= i <= |xs|
      invariant s == Summarize(xs[..i])
    {
      assert xs[..i + 1][..i] == xs[..i];
      if xs[i].invoice.status == OPEN {
        s := s.(openCommission := s.openCommission + xs[i].commissionAmount);
        s := s.(totalInvoicesOpen := s.totalInvoicesOpen + 1);
      } else if xs[i].invoice.status == PAID {
        s := s.(earnedCommission := s.earnedCommission + xs[i].commissionAmount);
        s := s.(totalInvoicesPaid := s.totalInvoicesPaid + 1);
      }
      i := i + 1;
    }
    assert xs[..i] == xs;
  }

  function Plus(a: CommissionSummary, b: CommissionSummary): CommissionSummary
  {
    CommissionSummary(
      a.openCommission + b.openCommission,
      a.earnedCommission + b.earnedCommission,
      a.totalInvoicesOpen + b.totalInvoicesOpen,
      a.totalInvoicesPaid + b.totalInvoicesPaid)
  }

  /** The summary of a concatenation is the field-wise sum of the two summaries. */
  lemma {:induction false} SummarizeConcat(a: seq<InvoiceWithCommission>, b: seq<InvoiceWithCommission>)
    ensures Summarize(a + b) == Plus(Summarize(a), Summarize(b))
  {
    if |b| == 0 {
      assert a + b == a;
    } else {
      var b' := b[..|b| - 1];
      var x := b[|b| - 1];
      var ab := a + b;
      assert ab[..|ab| - 1] == a + b';
      assert ab[|ab| - 1] == x;
      SummarizeConcat(a, b');
      AddAfterPlus(Summarize(a), Summarize(b'), x);
      calc {
        Summarize(ab);
        AddToSummary(Summarize(a + b'), x);
        AddToSummary(Plus(Summarize(a), Summarize(b')), x);
        Plus(Summarize(a), AddToSummary(Summarize(b'), x));
        Plus(Summarize(a), Summarize(b));
      }
    }
  }

  lemma AddAfterPlus(a: CommissionSummary, b: CommissionSummary, x: InvoiceWithCommission)
    ensures AddToSummary(Plus(a, b), x) == Plus(a, AddToSummary(b, x))
  {
  }

  /** Number of entries with the given status. */
  function CountStatus(xs: seq<InvoiceWithCommission>, status: string): nat
  {
    if |xs| == 0 then 0 else (if xs[0].invoice.status == status then 1 else 0) + CountStatus(xs[1..], status)
  }

  /** Sum of the commission amounts of the entries with the given status. */
  function SumStatus(xs: seq<InvoiceWithCommission>, status: string): real
  {
    if |xs| == 0 then 0.0
    else (if xs[0].invoice.status == status then xs[0].commissionAmount else 0.0) + SumStatus(xs[1..], status)
  }

  /** The summary counts the open and the paid invoices and sums their commissions;
      every other status contributes nothing. */
  lemma {:induction false} SummaryByStatus(xs: seq<InvoiceWithCommission>)
    ensures Summarize(xs) == CommissionSummary(
      SumStatus(xs, OPEN), SumStatus(xs, PAID), CountStatus(xs, OPEN), CountStatus(xs, PAID))
  {
    if |xs| > 0 {
      assert xs == [xs[0]] + xs[1..];
      SummarizeConcat([xs[0]], xs[1..]);
      SummaryByStatus(xs[1..]);
      assert [xs[0]][..0] == [];
    }
  }

  /** One open invoice earning 100 and one paid invoice earning 95 summarise to (100, 95, 1, 1). */
  lemma SummaryExample(o: InvoiceWithCommission, p: InvoiceWithCommission)
    requires o.invoice.status == OPEN && o.commissionAmount == 100.0
    requires p.invoice.status == PAID && p.commissionAmount == 95.0
    ensures Summarize([o, p]) == CommissionSummary(100.0, 95.0, 1, 1)
  {
    assert PAID[0] != OPEN[0];
    assert [o, p][..1] == [o];
    assert [o][..0] == [];
    assert Summarize([o]) == AddToSummary(EmptySummary, o) == CommissionSummary(100.0, 0.0, 1, 0);
    assert Summarize([o, p]) == AddToSummary(Summarize([o]), p);
  }
}
