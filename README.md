# Harvest Commission Snapshot, modelled in Dafny

Harvest Commission Snapshot mirrors a Harvest account into a local store and computes sales commissions from it. It has three parts:

- **Mirroring.** It copies the account's clients, projects and invoices into the store.
- **Commission rules.** Each user keeps rules. A rule is a named percent, and exactly one rule per user is the default. Each user also keeps assignments that give a project one of the user's rules.
- **Reports.** It reports the commission of every invoice: paid invoices earn on the amount paid, open invoices on the full amount. It also reports a summary of potential and earned commission.

The model covers three engines.

- **The commission calculator** (`Calculations`, `CommissionsRoute`):
  - the status-dependent formula;
  - first-match rate resolution with a fallback to the default rule;
  - the inclusive date-range filter keyed by status;
  - the summary, as a loop proved against a left fold;
  - the commissions query that wires these together: the default-rule gate, the optional filter, the client→project map in which the last project wins, and the per-invoice rows.
- **The reconciliation engine** (`HarvestClient`, `Sync`):
  - the provider's answers are an oracle (`Remote`), and a request throws or returns through `Fetch`;
  - the connectivity probe;
  - the do-while pagination of the invoice listing;
  - the sync pass, with three upsert-by-provider-id loops, default-rule auto-assignment for newly created projects, the created/updated counters, and the `lastSyncAt` stamp on full success.

  Each loop is a method on the store proved equal to a specification function (`SyncPass`). The properties are lemmas on that function: a second pass changes nothing, a pass never deletes, stored rows mirror the remote, and the counts are exact.
- **The rule, assignment and connection handlers** (`RulesRoute`, `ProjectsRoute`, `ConnectionRoute`, `Store`):
  - Each request handler is a function from the store's tables to new tables and a reply (`Outcome`), plus a method on the mutable `Database` proved to do exactly that.
  - The handlers keep the invariant `WellFormed`. It says a user has at most one default rule, rule ids come from a counter, and an assignment whose rule exists points at a rule of its own user.
  - The lemmas state each handler's guards (400/404 replies with nothing written), its effect, and that it preserves `WellFormed`.
  - They also state that default rules are never renamed or deleted, that a delete moves assignments to the default rule, and that connecting leaves exactly one default rule.

Money and percent are `real`. Dates and timestamps are `int`. Provider ids are `nat`, because the source keys rows by the decimal rendering of the provider's numeric id. Rule ids are `nat`, issued by a counter in the store.

## Model

| member | source | states |
|---|---|---|
| Calculations.CalculateCommission | harvest-commission-snapshot/lib/commissions/calculations.ts:20-35 | A non-negative percent on non-negative amounts never earns a negative commission. A zero percent earns nothing. An invoice neither open nor paid earns nothing. |
| Calculations.CommissionCases | harvest-commission-snapshot/lib/commissions/calculations.ts:20-35 | A paid invoice with a positive amount paid earns amountPaid·p/100. An open invoice earns amount·p/100, whatever it has paid. Every other invoice earns 0 for every percent: any other status, or paid with nothing paid. |
| Calculations.CommissionLinearInPercent | harvest-commission-snapshot/lib/commissions/calculations.ts:24-34 | The commission is additive in the percent, and a zero percent earns nothing, for every invoice. |
| Calculations.EarnedAtMostPotential | harvest-commission-snapshot/lib/commissions/calculations.ts:24-32 | Suppose an invoice is paid no more than its open amount, and the percent is non-negative. Then its earned commission is non-negative and at most the potential commission it had while open. |
| Calculations.OpenThenPaidExample | harvest-commission-snapshot/lib/commissions/calculations.ts:24-32 | An open 1000 at 10% earns 100, and once paid with 950 it earns 95. |
| Calculations.FindAssignment | harvest-commission-snapshot/lib/commissions/calculations.ts:42 | It returns the index of the first assignment for the project, or none when no assignment matches. |
| Calculations.GetCommissionForProject | harvest-commission-snapshot/lib/commissions/calculations.ts:37-49 | If the first assignment that matches carries a rule, the result is that rule's percent. If it carries none, or nothing matches, the result is the default rule's percent. |
| Calculations.FilterInvoicesByDateRange | harvest-commission-snapshot/lib/commissions/calculations.ts:81-99 | The result is an order-preserving subsequence of the input. It keeps every input invoice in range and only those. |
| Calculations.DateRangeRules | harvest-commission-snapshot/lib/commissions/calculations.ts:86-98 | A paid invoice is kept iff it has a paid date within [start, end]. A paid invoice without a paid date is dropped. An open invoice is kept iff its issue date is within [start, end]. Every other status is dropped. |
| Calculations.FilterConcat | harvest-commission-snapshot/lib/commissions/calculations.ts:86-98 | Filtering a concatenation gives the concatenation of the filtered parts. |
| Calculations.CalculateCommissionSummary | harvest-commission-snapshot/lib/commissions/calculations.ts:58-79 | The accumulator loop yields the left fold of the per-invoice step over the whole list. |
| Calculations.SummarizeConcat | harvest-commission-snapshot/lib/commissions/calculations.ts:61-78 | The summary of a concatenation is the field-wise sum of the two summaries. |
| Calculations.SummaryByStatus | harvest-commission-snapshot/lib/commissions/calculations.ts:61-78 | openCommission and totalInvoicesOpen are the sum and count over open invoices. earnedCommission and totalInvoicesPaid are the same over paid invoices. Other statuses contribute nothing. |
| Calculations.SummaryExample | harvest-commission-snapshot/lib/commissions/calculations.ts:61-78 | An open entry of 100 and a paid entry of 95 summarise to (100, 95, 1, 1). |
| CommissionsRoute.ClientProjects | harvest-commission-snapshot/app/api/commissions/route.ts:57-60 | Every project's client is a key of the map. Each value is one of the projects, and it belongs to its key's client. |
| CommissionsRoute.ClientProjectsLastWins | harvest-commission-snapshot/app/api/commissions/route.ts:58-60 | For each client, the map keeps the last project of that client in list order. |
| CommissionsRoute.InvoiceRateIsCommissionForProject | harvest-commission-snapshot/app/api/commissions/route.ts:64-69 | The query's inline rate is the calculator's project rate for the mapped project. An invoice whose client maps to no project gets the default percent. |
| CommissionsRoute.RateIndependentOfOrder | harvest-commission-snapshot/app/api/commissions/route.ts:37-40 | The store holds one assignment per (user, project). So whatever order the user's assignments are loaded in, the rate is that assignment's rule percent, or else the default percent. |
| CommissionsRoute.GetCommissions | harvest-commission-snapshot/app/api/commissions/route.ts:24-95 | It fails, with the fixed message, exactly when the user has no default rule. Otherwise it returns one row per selected invoice, in order. Each row carries the invoice, its resolved rate, the commission at that rate and the mapped project's name. The summary sums and counts the open and the paid rows. |
| CommissionsRoute.SelectionRules | harvest-commission-snapshot/app/api/commissions/route.ts:47-54 | If either bound is missing, every invoice is used. If both are given, exactly the in-range invoices are kept, in order. |
| HarvestClient.ApiErrorMessage | harvest-commission-snapshot/lib/harvest/client.ts:69-72 | The error message consists of the fixed prefix, the status digits, the `): ` separator and the response text, in that order, and has exactly their combined length. |
| HarvestClient.NatToStringValue | harvest-commission-snapshot/lib/harvest/client.ts:71 | The status in the message is written in decimal: reading its digits back gives the status. |
| HarvestClient.Fetch | harvest-commission-snapshot/lib/harvest/client.ts:57-75 | A request succeeds iff the response is OK, and then yields its payload. Otherwise it raises the API error carrying the status and the body. |
| HarvestClient.HarvestApiClient.constructor | harvest-commission-snapshot/lib/harvest/client.ts:52-55 | The client keeps the account id and the decrypted token. |
| HarvestClient.HarvestApiClient.TestConnection | harvest-commission-snapshot/lib/harvest/client.ts:77-87 | The probe never raises. It passes iff the answer is OK, and otherwise fails with the API error's message. |
| HarvestClient.HarvestApiClient.GetClients | harvest-commission-snapshot/lib/harvest/client.ts:89-92 | Clients come from a single request with no pagination. The result is exactly that answer's list, or the API error it raised. |
| HarvestClient.HarvestApiClient.GetProjects | harvest-commission-snapshot/lib/harvest/client.ts:94-97 | Projects come from a single request with no pagination. The result is exactly that answer's list, or the API error it raised. |
| HarvestClient.HarvestApiClient.GetInvoices | harvest-commission-snapshot/lib/harvest/client.ts:99-112 | One request for the given page of invoices: the result is that page's answer, or the API error it raised. |
| HarvestClient.RequestsFrom | harvest-commission-snapshot/lib/harvest/client.ts:119-124 | At least one page is requested, and never a page past the last answer. |
| HarvestClient.HarvestApiClient.GetAllInvoices | harvest-commission-snapshot/lib/harvest/client.ts:114-127 | The do-while returns the specification's concatenation of pages 1, 2, … up to the last page requested, or the first error. It counts exactly the specification's number of requests. |
| HarvestClient.UniformPages | harvest-commission-snapshot/lib/harvest/client.ts:119-124 | If every answer is OK and reports the same total T ≥ 1, exactly T pages are requested. Their invoices are returned concatenated in page order. |
| HarvestClient.ZeroPagesStillAsksOnce | harvest-commission-snapshot/lib/harvest/client.ts:119-124 | Page 1 is requested once even when the answer reports zero pages, and only its invoices are returned. |
| HarvestClient.TwoPagesExample | harvest-commission-snapshot/lib/harvest/client.ts:119-124 | 150 invoices at 100 per page take two requests and are all returned. |
| Store.FindDefaultRule | harvest-commission-snapshot/app/api/rules/route.ts:160-162 | A rule it finds is a default rule of the user. When it finds none, the user has no default rule among the issued ids. |
| Store.DefaultRuleExact | harvest-commission-snapshot/app/api/harvest/connection/route.ts:54-59 | In a well-formed store, the default-rule lookup returns an id iff that id is the user's default rule. |
| Store.Database.constructor | harvest-commission-snapshot/lib/harvest/sync.ts:1 | The shared store client starts empty, with the rule counter at zero, and well formed. The store module itself is not part of this model. |
| Ordering.LexLeTotal | harvest-commission-snapshot/app/api/rules/route.ts:18 | The ascending name order is total. |
| Ordering.LexLeTransitive | harvest-commission-snapshot/app/api/rules/route.ts:18 | The ascending name order is transitive. |
| Ordering.SortedByMeans | harvest-commission-snapshot/app/api/projects/route.ts:22-25 | In a sorted listing, flagged rows come before unflagged ones, and rows with the same flag are in ascending name order. |
| Ordering.SortByKeyCorrect | harvest-commission-snapshot/app/api/rules/route.ts:16-19 | The sort returns a permutation of its input that is sorted by (flag descending, name ascending). |
| Ordering.SetToSeq | harvest-commission-snapshot/app/api/rules/route.ts:14-15 | A query result lists every selected row exactly once and nothing else. |
| Sync.OverwriteKeys | harvest-commission-snapshot/lib/harvest/sync.ts:45-64 | After the upsert loop, a key is stored iff it was stored before or was written, so nothing is deleted. |
| Sync.OverwriteAt | harvest-commission-snapshot/lib/harvest/sync.ts:50-62 | A written key holds the value of its last write. |
| Sync.OverwriteElsewhere | harvest-commission-snapshot/lib/harvest/sync.ts:45-64 | A stored key that is not written keeps its value. |
| Sync.OverwriteIdempotent | harvest-commission-snapshot/lib/harvest/sync.ts:45-64 | Repeating the upsert loop with the same records changes nothing. |
| Sync.CountsAddUp | harvest-commission-snapshot/lib/harvest/sync.ts:135-144 | Every fetched record is counted exactly once, as created or as updated. |
| Sync.NothingFresh | harvest-commission-snapshot/lib/harvest/sync.ts:135-144 | When every fetched id is already stored, nothing is created and every record counts as updated. |
| Sync.CountFreshIsNewKeys | harvest-commission-snapshot/lib/harvest/sync.ts:50-57 | The created counter equals the number of distinct fetched ids not stored before the loop. |
| Sync.UpsertStep | harvest-commission-snapshot/lib/harvest/sync.ts:135-144 | One loop step writes the record over the table so far. It counts the record as created exactly when its key is not yet in that table, and as updated otherwise. |
| Sync.ProjectsAfterAt | harvest-commission-snapshot/lib/harvest/sync.ts:68-113 | After the project loop, a project is stored iff it was stored or fetched, and an unfetched one is unchanged. A fetched one carries its last record's name and active flag. A project that existed keeps every other column, its client in particular. A project the loop creates is stored under its id, with the client of its first record and the name and flag of its last. |
| Sync.ProjectsAfterKeepsClients | harvest-commission-snapshot/lib/harvest/sync.ts:105-113 | The project loop keeps every stored project, and each keeps its client: an update writes only name and active flag. |
| Sync.ProjectsIdempotent | harvest-commission-snapshot/lib/harvest/sync.ts:68-113 | Repeating the project loop with the same records changes nothing. |
| Sync.AutoAssignOnlyAdds | harvest-commission-snapshot/lib/harvest/sync.ts:84-104 | Auto-assignment keeps every existing assignment unchanged. It adds only the syncing user's key for a project created in this pass, pointing at the default rule. |
| Sync.AutoAssignCovers | harvest-commission-snapshot/lib/harvest/sync.ts:84-104 | When a default rule exists, every project created in the pass has an assignment for the user afterwards. One that had none now points at the default rule. |
| Sync.AutoAssignNothingNew | harvest-commission-snapshot/lib/harvest/sync.ts:73-104 | When no fetched project is new, no assignment is made. |
| Sync.ClientsAgain | harvest-commission-snapshot/lib/harvest/sync.ts:43-64 | A second client loop over the same records finds every client already stored. It creates none and leaves the store unchanged. |
| Sync.ProjectsAgain | harvest-commission-snapshot/lib/harvest/sync.ts:66-114 | A second project loop over the same records finds every project already stored. It creates and auto-assigns nothing and leaves the store unchanged. |
| Sync.InvoicesAgain | harvest-commission-snapshot/lib/harvest/sync.ts:116-145 | A second invoice loop over the same records finds every invoice already stored. It counts every record as updated and leaves the store unchanged. The first loop's created and updated counts add up to the number of records. |
| Sync.SyncTwiceChangesNothing | harvest-commission-snapshot/lib/harvest/sync.ts:14-160 | A second pass on unchanged provider answers leaves every table as the first left it, except the sync stamp. It fails exactly when the first did, with the same error. On success it creates nothing and counts every fetched invoice as updated. |
| Sync.SyncNeverDeletes | harvest-commission-snapshot/lib/harvest/sync.ts:14-160 | A pass only adds mirror rows, and a stored project keeps its client. Rules and existing assignments are untouched. Connections change only by the stamp of a successful pass. |
| Sync.SyncFailureKeepsEarlierWrites | harvest-commission-snapshot/lib/harvest/sync.ts:14-160 | A pass stops at the first failing step and reports that step's error. Nothing is rolled back. Clients written before a failed project fetch stay, and so do clients and projects written before a failed invoice listing. A pass that fails before the client loop leaves the store as it was. |
| Sync.SyncOnlyAddsRows | harvest-commission-snapshot/lib/harvest/sync.ts:43-145 | A pass only adds client, project and invoice rows, and a stored project keeps its client. |
| Sync.SyncKeepsClientsAndInvoices | harvest-commission-snapshot/lib/harvest/sync.ts:43-145 | A pass, whether it succeeds or fails, keeps every stored client and invoice key. |
| Sync.SyncKeepsProjects | harvest-commission-snapshot/lib/harvest/sync.ts:66-114 | A pass keeps every stored project, and each keeps its client. |
| Sync.SyncKeepsRulesAndAssignments | harvest-commission-snapshot/lib/harvest/sync.ts:84-104 | A pass leaves the rules and the rule counter unchanged and keeps every existing assignment (`update: {}`). |
| Sync.SyncStampsOnlyOnSuccess | harvest-commission-snapshot/lib/harvest/sync.ts:147-153 | lastSyncAt is stamped iff the whole pass succeeded. |
| Sync.SyncPreservesWellFormed | harvest-commission-snapshot/lib/harvest/sync.ts:84-104 | A pass keeps the store well formed. |
| Sync.SyncMirrorsRemote | harvest-commission-snapshot/lib/harvest/sync.ts:43-153 | After a successful pass, each fetched client and invoice is stored as its last record says, with the invoice's state, amounts and optional dates copied verbatim. Each fetched project has its last name and flag, and a created one has the client of its first record. Each newly seen project is assigned when a default exists. The connection is stamped. |
| Sync.SyncStoresClients | harvest-commission-snapshot/lib/harvest/sync.ts:43-64 | After a successful pass, each fetched client is stored with its last fetched name. |
| Sync.SyncStoresInvoices | harvest-commission-snapshot/lib/harvest/sync.ts:116-145 | After a successful pass, each fetched invoice is stored as its last record says: state and amounts verbatim, and the due and paid dates absent exactly when the provider left them out. |
| Sync.SyncStoresProjects | harvest-commission-snapshot/lib/harvest/sync.ts:66-114 | After a successful pass, each fetched project has its last record's name and flag. A project the pass created has the client of its first record. Each newly created project is assigned when the user has a default rule. |
| Sync.SyncStatsCount | harvest-commission-snapshot/lib/harvest/sync.ts:36-145 | The created counters are the numbers of distinct fetched ids not stored before. Created plus updated invoices equals the number of invoices fetched. |
| Sync.SyncClients | harvest-commission-snapshot/lib/harvest/sync.ts:43-64 | The client loop leaves the store as the specification's client upsert does, and counts the created clients. |
| Sync.SyncProjects | harvest-commission-snapshot/lib/harvest/sync.ts:66-114 | The project loop leaves the store as the specification's project upsert and auto-assignment do, and counts the created projects. |
| Sync.SyncInvoices | harvest-commission-snapshot/lib/harvest/sync.ts:116-145 | The invoice loop leaves the store as the specification's invoice upsert does, and counts the created and the updated invoices. |
| Sync.SyncHarvestData | harvest-commission-snapshot/lib/harvest/sync.ts:4-161 | The whole pass leaves the store, and returns the result, that `SyncPass` specifies. Without a connection it fails with the fixed message. A failed request ends the pass with that request's message. It keeps the store well formed (`Database.Valid`). |
| RulesRoute.GetRules | harvest-commission-snapshot/app/api/rules/route.ts:14-20 | It lists exactly the caller's rules, each once, with the default first and then by name. |
| RulesRoute.PostRule | harvest-commission-snapshot/app/api/rules/route.ts:40-59 | It acts as `CreateRule` specifies. It keeps the store well formed (`Database.Valid`). |
| RulesRoute.CreateKeepsDefaults | harvest-commission-snapshot/app/api/rules/route.ts:43-57 | A create succeeds iff a non-empty name and a percent are given. A created rule is new, non-default and the caller's own, with the requested name and percent. Every user's default rule is unchanged. |
| RulesRoute.PutRule | harvest-commission-snapshot/app/api/rules/route.ts:77-113 | It acts as `UpdateRule` specifies. It keeps the store well formed (`Database.Valid`). |
| RulesRoute.UpdateChangesOnlyTheRule | harvest-commission-snapshot/app/api/rules/route.ts:80-111 | A failed update changes nothing. An update succeeds iff an id of the caller's rule is given and it is not a default rule given a name. On success only that rule changes: its owner and default flag stay. Its name changes only to a non-empty one, and never on a default rule. Its percent changes only when one is given. |
| RulesRoute.DeleteRule | harvest-commission-snapshot/app/api/rules/route.ts:131-173 | It acts as `RemoveRule` specifies. It keeps the store well formed (`Database.Valid`). |
| RulesRoute.DeleteGuards | harvest-commission-snapshot/app/api/rules/route.ts:134-157 | A delete succeeds iff the id names a non-default rule of the caller. A missing id gets 400 and a rule not owned gets 404. A failed delete changes nothing. |
| RulesRoute.Repoint | harvest-commission-snapshot/app/api/rules/route.ts:165-168 | The bulk update touches every assignment of the deleted rule, whoever owns it, and no other. The set of assignments is unchanged, every one that referred to the old rule refers to the new one, and none refers to the old rule afterwards. |
| RulesRoute.DeleteMovesAssignmentsToDefault | harvest-commission-snapshot/app/api/rules/route.ts:159-171 | When the caller has a default rule, a delete removes exactly the addressed rule. Afterwards no assignment refers to it: each that did refers to the default rule, and the others are unchanged. |
| RulesRoute.UpdateKeepsDefaultRule | harvest-commission-snapshot/app/api/rules/route.ts:98-111 | No update, by anyone, removes, renames, re-owns or un-defaults a default rule. |
| RulesRoute.RemoveKeepsDefaultRule | harvest-commission-snapshot/app/api/rules/route.ts:152-171 | No delete, by anyone, removes or alters a default rule. |
| RulesRoute.DefaultRulesPersist | harvest-commission-snapshot/app/api/rules/route.ts:98-157 | No update or delete, by anyone, removes, renames, re-owns or un-defaults a default rule. |
| RulesRoute.CreatePreservesWellFormed | harvest-commission-snapshot/app/api/rules/route.ts:50-57 | A create keeps the store well formed. |
| RulesRoute.UpdatePreservesWellFormed | harvest-commission-snapshot/app/api/rules/route.ts:105-111 | An update keeps the store well formed. |
| RulesRoute.RemovePreservesWellFormed | harvest-commission-snapshot/app/api/rules/route.ts:159-171 | A delete keeps the store well formed. |
| ProjectsRoute.GetProjects | harvest-commission-snapshot/app/api/projects/route.ts:14-26 | It lists every project once, each with only the caller's assignment and its rule, active projects first and then by name. |
| ProjectsRoute.ListingIsPerUser | harvest-commission-snapshot/app/api/projects/route.ts:17-20 | Stores that differ only in other users' assignments give the caller the same listing. |
| ProjectsRoute.PutAssignment | harvest-commission-snapshot/app/api/projects/route.ts:46-89 | It acts as `AssignRule` specifies. It keeps the store well formed (`Database.Valid`). |
| ProjectsRoute.AssignEffect | harvest-commission-snapshot/app/api/projects/route.ts:49-82 | A missing id gets 400 and a rule the caller does not own gets 404, with nothing changed. On success the caller's (user, project) pair exists once and refers to the rule. Every other pair and every other table is unchanged. |
| ProjectsRoute.AssignIdempotent | harvest-commission-snapshot/app/api/projects/route.ts:68-82 | Repeating an assignment leaves the same store and gives the same reply. |
| ProjectsRoute.AssignPreservesWellFormed | harvest-commission-snapshot/app/api/projects/route.ts:57-82 | An assignment keeps the store well formed, because it only refers to a rule of the caller. |
| ConnectionRoute.PostConnection | harvest-commission-snapshot/app/api/harvest/connection/route.ts:17-88 | It acts as `Connect` specifies. It keeps the store well formed (`Database.Valid`). |
| ConnectionRoute.ConnectGuards | harvest-commission-snapshot/app/api/harvest/connection/route.ts:20-37 | Missing credentials get 400 before any probe. A failed probe gets 400 with the prefixed API error. Neither writes anything. The request succeeds iff both credentials are given and the probe passes, whatever the sync then does. |
| ConnectionRoute.ConnectLeavesOneDefault | harvest-commission-snapshot/app/api/harvest/connection/route.ts:53-70 | After a successful connect, the user has exactly one default rule: the old one with the rules untouched, or else a new "Default Rule" at 10% under the next id. |
| ConnectionRoute.DefaultAfterBootstrap | harvest-commission-snapshot/app/api/harvest/connection/route.ts:53-70 | A store whose rule table is the bootstrapped one holds exactly one default rule of the user, and it is the one the lookup finds. |
| ConnectionRoute.ConnectPreservesWellFormed | harvest-commission-snapshot/app/api/harvest/connection/route.ts:39-88 | Connecting keeps the store well formed, whatever the probe and the sync do. |
| ConnectionRoute.EnsureDefaultRuleEffect | harvest-commission-snapshot/app/api/harvest/connection/route.ts:53-70 | Bootstrapping keeps the store well formed and leaves the user a default rule. A user who had one keeps the store unchanged, and otherwise exactly the new "Default Rule" at 10% is added. Assignments are untouched. |
| ConnectionRoute.SaveConnectionEffect | harvest-commission-snapshot/app/api/harvest/connection/route.ts:39-51 | The upsert is keyed by user. The user's connection gets the account and the token, an existing one keeps its creation and sync times, and a new one starts unsynced. Other users' connections are unchanged. |
| ConnectionRoute.StoreConnection | harvest-commission-snapshot/app/api/harvest/connection/route.ts:39-51 | It performs the connection upsert on the store, as `SaveConnection` specifies. It keeps the store well formed (`Database.Valid`). |
| ConnectionRoute.CreateDefaultRuleIfMissing | harvest-commission-snapshot/app/api/harvest/connection/route.ts:53-70 | It creates the default rule on the store, as `EnsureDefaultRule` specifies. It keeps the store well formed (`Database.Valid`). |
| ConnectionRoute.ConnectStoresCredentials | harvest-commission-snapshot/app/api/harvest/connection/route.ts:39-88 | A success stores one connection under the user, with the submitted account and the encrypted token. An existing connection keeps its creation time. Once the gates pass, the store is what the first sync left. The sync stamp is set iff that sync succeeded. The reply is a success either way: the sync's stats when it succeeded, and the warning with the sync's error when it failed. |
| ConnectionRoute.GetConnection | harvest-commission-snapshot/app/api/harvest/connection/route.ts:106-113 | It returns the connection view of the caller. |
| ConnectionRoute.ViewHidesToken | harvest-commission-snapshot/app/api/harvest/connection/route.ts:106-113 | The view exists iff the caller has a connection. It does not depend on the stored token. |

## Left out

- Sessions and authentication: every handler takes the caller's user id, and the 401 "Unauthorized" replies are not modelled.
- The 500 replies of each handler's catch block: storage failures are not modelled. In the sync pass, only a failed provider request raises.
- Storage-engine behaviour, for the same reason. Upserts are not atomic and foreign keys are not enforced. Database-generated string ids are not modelled: a rule id is a number from a counter.
  - Because foreign keys are not enforced, deleting a rule when the caller has no default rule leaves its assignments pointing at the missing id, where the database might refuse the delete.
- The `include: { commissionRule, project }` of the assignment reply: the reply carries the rule but not the project row.
- The `include: { client }` of the invoice and project queries: the reports carry no client name.
- The mirrors' internal id, createdAt and updatedAt columns.
- Ordering by the database's collation: names are compared by code point (`LexLe`), and ties between equal sort keys may come in any order.
- HTTP transport: the URL, headers and JSON decoding of a request. A response is an oracle value (`HttpResponse`), and `getClients`/`getProjects` are each a single `Fetch`, so only the first 100 rows are ever seen.
- `encrypt`/`decrypt`: foreign code, taken as function parameters.
- Clocks: one `now` parameter serves both a new connection's createdAt and lastSyncAt.
- `Sync.SyncHarvestData`: it requires `PagesCover`, which says the provider answers every page that any answer claims exists. Without it the do-while may request pages forever.
- Floating point: money and percent are `real`, without IEEE rounding.
- Parsing: `parseFloat` of a request percent and `new Date` of request and provider dates are library behaviour. They are `Option<real>` and `Option<Date>`, with `None` for an absent or empty value.
- `RulesRoute.CreateRule`, `RulesRoute.UpdateRule`: an empty or null percent is treated as absent. POST then answers 400, and PUT keeps the old percent. The source guards only against `percent === undefined` (app/api/rules/route.ts:43 and 109). An empty or null percent therefore passes its guard and is written as `parseFloat`'s NaN, or is refused by the database as a 500. Because percent is `real`, the model has no NaN to write.
- Truthiness of request ids: a request id is `Option`, with `None` for an absent or empty value.
- The provider client's `is_active` flag, which the sync never reads.
- Concurrent requests: each handler runs alone against the store.
- `formatCurrency`/`formatPercent`: display formatting.
- The UI pages, the CSV export and the layout component.
- The thin `/api/sync/harvest` wrapper that maps the sync result to 400/200.
- Auto-assignment depends on the shared project table. A second user who syncs a project another user already created gets no auto-assignment for it (`Sync.AutoAssignNothingNew`). The model keeps this behaviour as the source has it.
- The DELETE handler's `updateMany` is not scoped to the caller, and `RulesRoute.Repoint` keeps it unscoped. In a well-formed store only the caller's assignments can refer to the caller's rule.
