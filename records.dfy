/** The rows of the local store: mirrors of the provider's data and the user-scoped tables. */
module Records {
  import opened Base

  const OPEN := "open"
  const PAID := "paid"

  datatype Client = Client(harvestId: HarvestId, name: string)

  datatype Project = Project(harvestId: HarvestId, clientHarvestId: HarvestId, name: string, isActive: bool)

  /** A stored invoice. `status` is the provider's state string, copied verbatim
      ("draft", "open", "paid", "closed" or anything else the provider sends). */
  datatype Invoice = Invoice(
    harvestId: HarvestId,
    clientHarvestId: HarvestId,
    number: string,
    issueDate: Date,
    dueDate: Option<Date>,
    status: string,
    amount: real,
    amountPaid: real,
    paidAt: Option<Date>)

  datatype CommissionRule = CommissionRule(userId: UserId, name: string, percent: real, isDefault: bool)

  /** A rule row together with its identifier, as queries return it. */
  datatype RuleRow = RuleRow(id: RuleId, rule: CommissionRule)

  datatype Connection = Connection(
    accountId: string,
    accessTokenEncrypted: string,
    lastSyncAt: Option<Timestamp>,
    createdAt: Timestamp)

  /** Assignments are unique per (user, project). */
  datatype AssignmentKey = AssignmentKey(userId: UserId, projectHarvestId: HarvestId)
}
