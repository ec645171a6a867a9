/** The reconciliation engine: one sync pass mirrors the provider's clients, projects and
    invoices into the store by provider id, auto-assigns the user's default rule to newly
    seen projects, counts what it created, and stamps the connection on full success. */
module Sync {
  import opened Base
  import opened Records
  import opened Store
  import opened HarvestClient

  // ---------------------------------------------------------------------------
  // Upsert by key, in order

  /** Writes each entry in turn; a later entry for the same key wins. */
  function Overwrite<K, V>(m: map<K, V>, entries: seq<(K, V)>): map<K, V>
  {
    if |entries| == 0 then m
    else Overwrite(m, entries[..|entries| - 1])[entries[|entries| - 1].0 := entries[|entries| - 1].1]
  }

  function KeysOf<K, V>(entries: seq<(K, V)>): seq<K>
  {
    seq(|entries|, i requires 0 <= i < |entries| => entries[i].0)
  }

  /** The keys after the pass are the old keys and the written ones: nothing is deleted. */
  lemma {:induction false} OverwriteKeys<K, V>(m: map<K, V>, entries: seq<(K, V)>)
    ensures forall k :: k in Overwrite(m, entries) <==> k in m || k in KeysOf(entries)
  {
    if |entries| > 0 {
      var e' := entries[..|entries| - 1];
      OverwriteKeys(m, e');
      assert KeysOf(entries) == KeysOf(e') + [entries[|entries| - 1].0];
    }
  }

  /** Writing in order is the same as laying the last write per key over the old table. */
  lemma {:induction false} OverwriteIsUnion<K, V>(m: map<K, V>, entries: seq<(K, V)>)
    ensures Overwrite(m, entries) == m + Overwrite(map[], entries)
  {
    if |entries| > 0 {
      var e' := entries[..|entries| - 1];
      var x := entries[|entries| - 1];
      OverwriteIsUnion(m, e');
      var o := Overwrite(map[], e');
      assert (m + o)[x.0 := x.1] == m + o[x.0 := x.1];
    }
  }

  /** A second pass with the same entries changes nothing. */
  lemma OverwriteIdempotent<K, V>(m: map<K, V>, entries: seq<(K, V)>)
    ensures Overwrite(Overwrite(m, entries), entries) == Overwrite(m, entries)
  {
    OverwriteIsUnion(m, entries);
    OverwriteIsUnion(Overwrite(m, entries), entries);
    var o := Overwrite(map[], entries);
    assert (m + o) + o == m + o;
  }

  /** The stored value of a written key is its last entry; unwritten keys keep their value. */
  lemma {:induction false} OverwriteAt<K, V>(m: map<K, V>, entries: seq<(K, V)>, i: nat)
    requires i < |entries|
    requires forall j :: i < j < |entries| ==> entries[j].0 != entries[i].0
    ensures entries[i].0 in Overwrite(m, entries) && Overwrite(m, entries)[entries[i].0] == entries[i].1
  {
    if i < |entries| - 1 {
      OverwriteAt(m, entries[..|entries| - 1], i);
    }
  }

  lemma {:induction false} OverwriteElsewhere<K, V>(m: map<K, V>, entries: seq<(K, V)>, k: K)
    requires k in m && k !in KeysOf(entries)
    ensures k in Overwrite(m, entries) && Overwrite(m, entries)[k] == m[k]
  {
    if |entries| > 0 {
      var e' := entries[..|entries| - 1];
      assert KeysOf(entries) == KeysOf(e') + [entries[|entries| - 1].0];
      OverwriteElsewhere(m, e', k);
    }
  }

  // ---------------------------------------------------------------------------
  // Created / updated counters

  /** How many positions of `ids` find their key absent when reached: not stored before the
      pass and not seen earlier in it. */
  function CountFresh<K>(before: set<K>, ids: seq<K>): nat
  {
    if |ids| == 0 then 0
    else
      var last := ids[|ids| - 1];
      CountFresh(before, ids[..|ids| - 1]) + (if last !in before && last !in ids[..|ids| - 1] then 1 else 0)
  }

  /** How many positions find their key already present. */
  function CountExisting<K>(before: set<K>, ids: seq<K>): nat
  {
    if |ids| == 0 then 0
    else
      var last := ids[|ids| - 1];
      CountExisting(before, ids[..|ids| - 1]) + (if last !in before && last !in ids[..|ids| - 1] then 0 else 1)
  }

  /** Every position is counted exactly once, as created or as updated. */
  lemma {:induction false} CountsAddUp<K>(before: set<K>, ids: seq<K>)
    ensures CountFresh(before, ids) + CountExisting(before, ids) == |ids|
  {
    if |ids| > 0 {
      CountsAddUp(before, ids[..|ids| - 1]);
    }
  }

  /** When every key is already stored, nothing is created. */
  lemma {:induction false} NothingFresh<K>(before: set<K>, ids: seq<K>)
    requires forall i :: 0 <= i < |ids| ==> ids[i] in before
    ensures CountFresh(before, ids) == 0 && CountExisting(before, ids) == |ids|
  {
    if |ids| > 0 {
      NothingFresh(before, ids[..|ids| - 1]);
    }
  }

  function Elements<K>(ids: seq<K>): set<K>
  {
    set k | k in ids
  }

  /** Appending one key adds it to the new keys exactly when it is neither stored nor seen. */
  lemma NewKeysSnoc<K>(before: set<K>, ids: seq<K>, last: K)
    ensures |Elements(ids + [last]) - before|
         == |Elements(ids) - before| + (if last !in before && last !in ids then 1 else 0)
  {
    var s := Elements(ids) - before;
    assert Elements(ids + [last]) == Elements(ids) + {last};
    if last !in before && last !in ids {
      assert Elements(ids + [last]) - before == s + {last};
    } else {
      assert Elements(ids + [last]) - before == s;
    }
  }

  /** The created count is the number of distinct keys that were not stored before. */
  lemma {:induction false} CountFreshIsNewKeys<K>(before: set<K>, ids: seq<K>)
    ensures CountFresh(before, ids) == |Elements(ids) - before|
  {
    if |ids| > 0 {
      var ids' := ids[..|ids| - 1];
      var last := ids[|ids| - 1];
      CountFreshIsNewKeys(before, ids');
      assert ids == ids' + [last];
      NewKeysSnoc(before, ids', last);
    }
  }

  /** One step of an upsert loop over `entries`: the step writes entry `i` over the table so
      far, and counts it as created exactly when its key is not yet in that table. */
  lemma UpsertStep<K, V>(m: map<K, V>, entries: seq<(K, V)>, i: nat)
    requires i < |entries|
    ensures Overwrite(m, entries[..i + 1]) == Overwrite(m, entries[..i])[entries[i].0 := entries[i].1]
    ensures CountFresh(m.Keys, KeysOf(entries)[..i + 1])
      == CountFresh(m.Keys, KeysOf(entries)[..i]) + (if entries[i].0 in Overwrite(m, entries[..i]) then 0 else 1)
    ensures CountExisting(m.Keys, KeysOf(entries)[..i + 1])
      == CountExisting(m.Keys, KeysOf(entries)[..i]) + (if entries[i].0 in Overwrite(m, entries[..i]) then 1 else 0)
  {
    OverwriteKeys(m, entries[..i]);
    assert KeysOf(entries[..i]) == KeysOf(entries)[..i];
    assert KeysOf(entries)[..i + 1] == KeysOf(entries)[..i] + [entries[i].0];
    assert entries[..i + 1] == entries[..i] + [entries[i]];
  }

  // ---------------------------------------------------------------------------
  // Clients and invoices: every write stores the whole row

  function ClientEntries(cs: seq<RemoteClient>): seq<(HarvestId, Client)>
  {
    seq(|cs|, i requires 0 <= i < |cs| => (cs[i].id, Client(cs[i].id, cs[i].name)))
  }

  /** The stored invoice row: the provider's state and amounts verbatim, the optional dates
      absent exactly when the provider left them out. */
  function ToInvoice(ri: RemoteInvoice): (inv: Invoice)
  {
    Invoice(ri.id, ri.clientId, ri.number, ri.issueDate, ri.dueDate, ri.state, ri.amount, ri.paidAmount, ri.paidDate)
  }

  function InvoiceEntries(invs: seq<RemoteInvoice>): seq<(HarvestId, Invoice)>
  {
    seq(|invs|, i requires 0 <= i < |invs| => (invs[i].id, ToInvoice(invs[i])))
  }

  // ---------------------------------------------------------------------------
  // Projects: a new project gets every column, an existing one only name and active flag

  function UpsertProject(m: map<HarvestId, Project>, p: RemoteProject): map<HarvestId, Project>
  {
    if p.id in m then m[p.id := m[p.id].(name := p.name, isActive := p.isActive)]
    else m[p.id := Project(p.id, p.clientId, p.name, p.isActive)]
  }

  function ProjectsAfter(m: map<HarvestId, Project>, ps: seq<RemoteProject>): map<HarvestId, Project>
  {
    if |ps| == 0 then m else UpsertProject(ProjectsAfter(m, ps[..|ps| - 1]), ps[|ps| - 1])
  }

  function ProjectIds(ps: seq<RemoteProject>): seq<HarvestId>
  {
    seq(|ps|, i requires 0 <= i < |ps| => ps[i].id)
  }

  /** The last remote record for a project id. */
  function LastProject(ps: seq<RemoteProject>, id: HarvestId): RemoteProject
    requires id in ProjectIds(ps)
  {
    assert ProjectIds(ps) == ProjectIds(ps[..|ps| - 1]) + [ps[|ps| - 1].id];
    if ps[|ps| - 1].id == id then ps[|ps| - 1] else LastProject(ps[..|ps| - 1], id)
  }

  /** The first remote record for a project id: the one that creates the row when the id was
      not stored before. */
  function FirstProject(ps: seq<RemoteProject>, id: HarvestId): RemoteProject
    requires id in ProjectIds(ps)
  {
    assert ProjectIds(ps) == ProjectIds(ps[..|ps| - 1]) + [ps[|ps| - 1].id];
    if id in ProjectIds(ps[..|ps| - 1]) then FirstProject(ps[..|ps| - 1], id) else ps[|ps| - 1]
  }

  /** What a project pass does to one id: it is stored afterwards iff it was stored or seen;
      an unseen id keeps its row; a seen id carries the last record's name and flag; a row that
      existed keeps everything else (in particular its client); a row the pass creates takes
      its client from the first record and its name and flag from the last. */
  lemma {:induction false} ProjectsAfterAt(m: map<HarvestId, Project>, ps: seq<RemoteProject>, id: HarvestId)
    ensures id in ProjectsAfter(m, ps) <==> id in m || id in ProjectIds(ps)
    ensures id !in ProjectIds(ps) && id in m ==> ProjectsAfter(m, ps)[id] == m[id]
    ensures id in ProjectIds(ps) ==>
      && ProjectsAfter(m, ps)[id].name == LastProject(ps, id).name
      && ProjectsAfter(m, ps)[id].isActive == LastProject(ps, id).isActive
    ensures id in ProjectIds(ps) && id in m ==>
      ProjectsAfter(m, ps)[id] == m[id].(name := LastProject(ps, id).name, isActive := LastProject(ps, id).isActive)
    ensures id in ProjectIds(ps) && id !in m ==>
      ProjectsAfter(m, ps)[id] == Project(id, FirstProject(ps, id).clientId, LastProject(ps, id).name, LastProject(ps, id).isActive)
  {
    if |ps| > 0 {
      var ps' := ps[..|ps| - 1];
      assert ProjectIds(ps) == ProjectIds(ps') + [ps[|ps| - 1].id];
      ProjectsAfterAt(m, ps', id);
    }
  }

  /** A second project pass with the same records changes nothing. */
  lemma ProjectsIdempotent(m: map<HarvestId, Project>, ps: seq<RemoteProject>)
    ensures ProjectsAfter(ProjectsAfter(m, ps), ps) == ProjectsAfter(m, ps)
  {
    var m1 := ProjectsAfter(m, ps);
    var m2 := ProjectsAfter(m1, ps);
    forall id | id in m1 || id in m2
      ensures id in m1 && id in m2 && m2[id] == m1[id]
    {
      ProjectsAfterAt(m, ps, id);
      ProjectsAfterAt(m1, ps, id);
    }
  }

  /** The default-rule auto-assignment that runs for each project created in the pass:
      `upsert` with an empty update, so an existing (user, project) assignment is kept. */
  function AutoAssign(a: map<AssignmentKey, RuleId>, before: set<HarvestId>, ids: seq<HarvestId>,
                      userId: UserId, defaultRule: Option<RuleId>): map<AssignmentKey, RuleId>
  {
    if |ids| == 0 then a
    else
      var cur := AutoAssign(a, before, ids[..|ids| - 1], userId, defaultRule);
      var id := ids[|ids| - 1];
      var key := AssignmentKey(userId, id);
      if id !in before && id !in ids[..|ids| - 1] && defaultRule.Some? && key !in cur then
        cur[key := defaultRule.value]
      else
        cur
  }

  /** Auto-assignment keeps every existing assignment and adds only the user's own key for a
      newly created project, pointing at the default rule. */
  lemma {:induction false} AutoAssignOnlyAdds(a: map<AssignmentKey, RuleId>, before: set<HarvestId>, ids: seq<HarvestId>,
                                             userId: UserId, defaultRule: Option<RuleId>)
    ensures forall k :: k in a ==>
      (k in AutoAssign(a, before, ids, userId, defaultRule) && AutoAssign(a, before, ids, userId, defaultRule)[k] == a[k])
    ensures forall k :: k in AutoAssign(a, before, ids, userId, defaultRule) && k !in a ==>
      && k.userId == userId && k.projectHarvestId in ids && k.projectHarvestId !in before
      && defaultRule == Some(AutoAssign(a, before, ids, userId, defaultRule)[k])
  {
    if |ids| > 0 {
      AutoAssignOnlyAdds(a, before, ids[..|ids| - 1], userId, defaultRule);
    }
  }

  /** Every project created in the pass ends up with an assignment for the user when a default
      rule exists; one that had none points at the default rule. */
  lemma {:induction false} AutoAssignCovers(a: map<AssignmentKey, RuleId>, before: set<HarvestId>, ids: seq<HarvestId>,
                                           userId: UserId, defaultRule: Option<RuleId>, id: HarvestId)
    requires id in ids && id !in before && defaultRule.Some?
    ensures AssignmentKey(userId, id) in AutoAssign(a, before, ids, userId, defaultRule)
    ensures AssignmentKey(userId, id) !in a ==>
      AutoAssign(a, before, ids, userId, defaultRule)[AssignmentKey(userId, id)] == defaultRule.value
  {
    var ids' := ids[..|ids| - 1];
    var cur := AutoAssign(a, before, ids', userId, defaultRule);
    AutoAssignOnlyAdds(a, before, ids', userId, defaultRule);
    AutoAssignOnlyAdds(a, before, ids, userId, defaultRule);
    assert ids == ids' + [ids[|ids| - 1]];
    if id in ids' {
      AutoAssignCovers(a, before, ids', userId, defaultRule, id);
    }
  }

  /** With no new project, nothing is assigned. */
  lemma {:induction false} AutoAssignNothingNew(a: map<AssignmentKey, RuleId>, before: set<HarvestId>, ids: seq<HarvestId>,
                                               userId: UserId, defaultRule: Option<RuleId>)
    requires forall i :: 0 <= i < |ids| ==> ids[i] in before
    ensures AutoAssign(a, before, ids, userId, defaultRule) == a
  {
    if |ids| > 0 {
      AutoAssignNothingNew(a, before, ids[..|ids| - 1], userId, defaultRule);
    }
  }

  // ---------------------------------------------------------------------------
  // One sync pass, as specification

  datatype SyncStats = SyncStats(clientsCreated: nat, projectsCreated: nat, invoicesCreated: nat, invoicesUpdated: nat)

  datatype SyncResult = SyncOk(stats: SyncStats) | SyncErr(error: string)

  datatype SyncOutcome = SyncOutcome(tables: Tables, result: SyncResult)

  const NO_CONNECTION := "No Harvest connection found"

  /** The connection of `userId` with its last-sync time set. */
  function Stamp(t: Tables, userId: UserId, now: Timestamp): Tables
  {
    if userId in t.connections then
      t.(connections := t.connections[userId := t.connections[userId].(lastSyncAt := Some(now))])
    else t
  }

  /** The store after the client loop. */
  function AfterClients(t: Tables, cs: seq<RemoteClient>): Tables
  {
    t.(clients := Overwrite(t.clients, ClientEntries(cs)))
  }

  /** The store after the project loop, starting from `t`. */
  function AfterProjects(t: Tables, ps: seq<RemoteProject>, userId: UserId): Tables
  {
    t.(projects := ProjectsAfter(t.projects, ps),
       assignments := AutoAssign(t.assignments, t.projects.Keys, ProjectIds(ps), userId, DefaultRule(t, userId)))
  }

  function AfterInvoices(t: Tables, invs: seq<RemoteInvoice>): Tables
  {
    t.(invoices := Overwrite(t.invoices, InvoiceEntries(invs)))
  }

  /** One pass of `syncHarvestData` for `userId` against the provider's answers `remote`,
      at time `now`: the store it leaves and the result it returns. An error raised after some
      writes keeps those writes and returns no stats. */
  function SyncPass(t: Tables, userId: UserId, remote: Remote, now: Timestamp): SyncOutcome
    requires PagesCover(remote.invoicePages)
  {
    if userId !in t.connections then SyncOutcome(t, SyncErr(NO_CONNECTION))
    else
      match Fetch(remote.me)
      case Err(e) => SyncOutcome(t, SyncErr(e))
      case Ok(_) =>
        match Fetch(remote.clients)
        case Err(e) => SyncOutcome(t, SyncErr(e))
        case Ok(cs) =>
          var t1 := AfterClients(t, cs);
          match Fetch(remote.projects)
          case Err(e) => SyncOutcome(t1, SyncErr(e))
          case Ok(ps) =>
            var t2 := AfterProjects(t1, ps, userId);
            match AllInvoices(remote.invoicePages)
            case Err(e) => SyncOutcome(t2, SyncErr(e))
            case Ok(invs) =>
              var stats := SyncStats(
                CountFresh(t.clients.Keys, KeysOf(ClientEntries(cs))),
                CountFresh(t.projects.Keys, ProjectIds(ps)),
                CountFresh(t.invoices.Keys, KeysOf(InvoiceEntries(invs))),
                CountExisting(t.invoices.Keys, KeysOf(InvoiceEntries(invs))));
              SyncOutcome(Stamp(AfterInvoices(t2, invs), userId, now), SyncOk(stats))
  }

  // ---------------------------------------------------------------------------
  // Properties of a pass

  /** A second client loop over the records of the first finds every client stored and
      changes nothing. */
  lemma ClientsAgain(m: map<HarvestId, Client>, cs: seq<RemoteClient>, u: Tables)
    requires u.clients == Overwrite(m, ClientEntries(cs))
    ensures AfterClients(u, cs) == u
    ensures CountFresh(u.clients.Keys, KeysOf(ClientEntries(cs))) == 0
  {
    OverwriteIdempotent(m, ClientEntries(cs));
    OverwriteKeys(m, ClientEntries(cs));
    NothingFresh(u.clients.Keys, KeysOf(ClientEntries(cs)));
  }

  /** A second project loop over the records of the first finds every project stored, so it
      creates and assigns nothing and changes nothing. */
  lemma ProjectsAgain(m: map<HarvestId, Project>, ps: seq<RemoteProject>, userId: UserId, u: Tables)
    requires u.projects == ProjectsAfter(m, ps)
    ensures AfterProjects(u, ps, userId) == u
    ensures CountFresh(u.projects.Keys, ProjectIds(ps)) == 0
  {
    ProjectsIdempotent(m, ps);
    forall i | 0 <= i < |ProjectIds(ps)| ensures ProjectIds(ps)[i] in u.projects {
      ProjectsAfterAt(m, ps, ProjectIds(ps)[i]);
    }
    AutoAssignNothingNew(u.assignments, u.projects.Keys, ProjectIds(ps), userId, DefaultRule(u, userId));
    NothingFresh(u.projects.Keys, ProjectIds(ps));
  }

  /** A second invoice loop over the records of the first finds every invoice stored, so it
      counts each record as updated and changes nothing. */
  lemma InvoicesAgain(m: map<HarvestId, Invoice>, invs: seq<RemoteInvoice>, u: Tables)
    requires u.invoices == Overwrite(m, InvoiceEntries(invs))
    ensures AfterInvoices(u, invs) == u
    ensures CountFresh(u.invoices.Keys, KeysOf(InvoiceEntries(invs))) == 0
    ensures CountExisting(u.invoices.Keys, KeysOf(InvoiceEntries(invs))) == |invs|
    ensures CountFresh(m.Keys, KeysOf(InvoiceEntries(invs))) + CountExisting(m.Keys, KeysOf(InvoiceEntries(invs))) == |invs|
  {
    OverwriteIdempotent(m, InvoiceEntries(invs));
    OverwriteKeys(m, InvoiceEntries(invs));
    NothingFresh(u.invoices.Keys, KeysOf(InvoiceEntries(invs)));
    CountsAddUp(m.Keys, KeysOf(InvoiceEntries(invs)));
  }

  /** Running the pass a second time on the provider's unchanged answers leaves every table as
      the first pass left it (only the last-sync time moves), fails exactly when the first did,
      with the same error, and on success creates nothing and updates every fetched invoice. */
  lemma SyncTwiceChangesNothing(t: Tables, userId: UserId, remote: Remote, now1: Timestamp, now2: Timestamp)
    requires PagesCover(remote.invoicePages)
    ensures
      var o1 := SyncPass(t, userId, remote, now1);
      var o2 := SyncPass(o1.tables, userId, remote, now2);
      && o2.tables == (if o2.result.SyncOk? then Stamp(o1.tables, userId, now2) else o1.tables)
      && o2.result.SyncOk? == o1.result.SyncOk?
      && (o1.result.SyncErr? ==> o2.result == o1.result)
      && (o1.result.SyncOk? ==>
            o2.result.stats == SyncStats(0, 0, 0, o1.result.stats.invoicesCreated + o1.result.stats.invoicesUpdated))
  {
    var o1 := SyncPass(t, userId, remote, now1);
    var u := o1.tables;
    if userId in t.connections && Fetch(remote.me).Ok? && Fetch(remote.clients).Ok? {
      var cs := Fetch(remote.clients).value;
      var t1 := AfterClients(t, cs);
      assert u.clients == t1.clients && userId in u.connections;
      ClientsAgain(t.clients, cs, u);
      if Fetch(remote.projects).Ok? {
        var ps := Fetch(remote.projects).value;
        var t2 := AfterProjects(t1, ps, userId);
        assert u.projects == t2.projects;
        ProjectsAgain(t1.projects, ps, userId, u);
        if AllInvoices(remote.invoicePages).Ok? {
          var invs := AllInvoices(remote.invoicePages).value;
          assert u == Stamp(AfterInvoices(t2, invs), userId, now1);
          InvoicesAgain(t2.invoices, invs, u);
        }
      }
    }
  }

  /** A pass only adds mirror rows, and a stored project keeps its client. */
  lemma SyncOnlyAddsRows(t: Tables, userId: UserId, remote: Remote, now: Timestamp)
    requires PagesCover(remote.invoicePages)
    ensures
      var o := SyncPass(t, userId, remote, now);
      && t.clients.Keys <= o.tables.clients.Keys
      && t.projects.Keys <= o.tables.projects.Keys
      && t.invoices.Keys <= o.tables.invoices.Keys
      && (forall id :: id in t.projects ==> o.tables.projects[id].clientHarvestId == t.projects[id].clientHarvestId)
  {
    SyncKeepsClientsAndInvoices(t, userId, remote, now);
    SyncKeepsProjects(t, userId, remote, now);
  }

  /** A pass keeps every stored client and invoice key. */
  lemma SyncKeepsClientsAndInvoices(t: Tables, userId: UserId, remote: Remote, now: Timestamp)
    requires PagesCover(remote.invoicePages)
    ensures
      var o := SyncPass(t, userId, remote, now);
      && t.clients.Keys <= o.tables.clients.Keys
      && t.invoices.Keys <= o.tables.invoices.Keys
  {
    if userId in t.connections && Fetch(remote.me).Ok? && Fetch(remote.clients).Ok? {
      OverwriteKeys(t.clients, ClientEntries(Fetch(remote.clients).value));
      if Fetch(remote.projects).Ok? && AllInvoices(remote.invoicePages).Ok? {
        OverwriteKeys(t.invoices, InvoiceEntries(AllInvoices(remote.invoicePages).value));
      }
    }
  }

  /** A pass keeps every stored project, with its client. */
  lemma SyncKeepsProjects(t: Tables, userId: UserId, remote: Remote, now: Timestamp)
    requires PagesCover(remote.invoicePages)
    ensures
      var o := SyncPass(t, userId, remote, now);
      && t.projects.Keys <= o.tables.projects.Keys
      && (forall id :: id in t.projects ==> o.tables.projects[id].clientHarvestId == t.projects[id].clientHarvestId)
  {
    if userId in t.connections && Fetch(remote.me).Ok? && Fetch(remote.clients).Ok? && Fetch(remote.projects).Ok? {
      ProjectsAfterKeepsClients(t.projects, Fetch(remote.projects).value);
    }
  }

  /** A project pass keeps every stored project, with its client. */
  lemma ProjectsAfterKeepsClients(m: map<HarvestId, Project>, ps: seq<RemoteProject>)
    ensures forall id :: id in m ==> id in ProjectsAfter(m, ps) && ProjectsAfter(m, ps)[id].clientHarvestId == m[id].clientHarvestId
  {
    forall id | id in m
      ensures id in ProjectsAfter(m, ps) && ProjectsAfter(m, ps)[id].clientHarvestId == m[id].clientHarvestId
    {
      ProjectsAfterAt(m, ps, id);
    }
  }

  /** A pass leaves the rules and the rule counter alone and keeps every existing assignment. */
  lemma SyncKeepsRulesAndAssignments(t: Tables, userId: UserId, remote: Remote, now: Timestamp)
    requires PagesCover(remote.invoicePages)
    ensures
      var o := SyncPass(t, userId, remote, now);
      && o.tables.rules == t.rules && o.tables.nextRuleId == t.nextRuleId
      && (forall k :: k in t.assignments ==> k in o.tables.assignments && o.tables.assignments[k] == t.assignments[k])
  {
    if userId in t.connections && Fetch(remote.me).Ok? && Fetch(remote.clients).Ok? && Fetch(remote.projects).Ok? {
      var t1 := AfterClients(t, Fetch(remote.clients).value);
      var ps := Fetch(remote.projects).value;
      AutoAssignOnlyAdds(t.assignments, t.projects.Keys, ProjectIds(ps), userId, DefaultRule(t1, userId));
    }
  }

  /** A pass touches the connections only to stamp the user's on success. */
  lemma SyncStampsOnlyOnSuccess(t: Tables, userId: UserId, remote: Remote, now: Timestamp)
    requires PagesCover(remote.invoicePages)
    ensures
      var o := SyncPass(t, userId, remote, now);
      o.tables.connections == (if o.result.SyncOk? then Stamp(t, userId, now).connections else t.connections)
  {
    if userId in t.connections && Fetch(remote.me).Ok? && Fetch(remote.clients).Ok? && Fetch(remote.projects).Ok?
       && AllInvoices(remote.invoicePages).Ok? {
      var t1 := AfterClients(t, Fetch(remote.clients).value);
      var t2 := AfterProjects(t1, Fetch(remote.projects).value, userId);
      var t3 := AfterInvoices(t2, AllInvoices(remote.invoicePages).value);
      assert t3.connections == t.connections;
    }
  }

  /** A pass never deletes: mirror rows only accumulate, a stored project keeps its client,
      rules and the rule counter are untouched, every existing assignment keeps its rule, and
      the only connection change is the last-sync stamp of a successful pass. */
  lemma SyncNeverDeletes(t: Tables, userId: UserId, remote: Remote, now: Timestamp)
    requires PagesCover(remote.invoicePages)
    ensures
      var o := SyncPass(t, userId, remote, now);
      && t.clients.Keys <= o.tables.clients.Keys
      && t.projects.Keys <= o.tables.projects.Keys
      && t.invoices.Keys <= o.tables.invoices.Keys
      && (forall id :: id in t.projects ==> o.tables.projects[id].clientHarvestId == t.projects[id].clientHarvestId)
      && o.tables.rules == t.rules && o.tables.nextRuleId == t.nextRuleId
      && (forall k :: k in t.assignments ==> k in o.tables.assignments && o.tables.assignments[k] == t.assignments[k])
      && o.tables.connections == (if o.result.SyncOk? then Stamp(t, userId, now).connections else t.connections)
  {
    SyncOnlyAddsRows(t, userId, remote, now);
    SyncKeepsRulesAndAssignments(t, userId, remote, now);
    SyncStampsOnlyOnSuccess(t, userId, remote, now);
  }

  /** A pass stops at the first step that fails and reports that step's error; it does not
      roll back: the clients written before a failed project fetch, and the clients and projects
      written before a failed invoice listing, stay in the store, and no connection is stamped. */
  lemma SyncFailureKeepsEarlierWrites(t: Tables, userId: UserId, remote: Remote, now: Timestamp)
    requires PagesCover(remote.invoicePages)
    ensures userId !in t.connections ==>
      SyncPass(t, userId, remote, now) == SyncOutcome(t, SyncErr(NO_CONNECTION))
    ensures userId in t.connections && Fetch(remote.me).Err? ==>
      SyncPass(t, userId, remote, now) == SyncOutcome(t, SyncErr(Fetch(remote.me).error))
    ensures userId in t.connections && Fetch(remote.me).Ok? && Fetch(remote.clients).Err? ==>
      SyncPass(t, userId, remote, now) == SyncOutcome(t, SyncErr(Fetch(remote.clients).error))
    ensures userId in t.connections && Fetch(remote.me).Ok? && Fetch(remote.clients).Ok? && Fetch(remote.projects).Err? ==>
      SyncPass(t, userId, remote, now)
        == SyncOutcome(AfterClients(t, Fetch(remote.clients).value), SyncErr(Fetch(remote.projects).error))
    ensures userId in t.connections && Fetch(remote.me).Ok? && Fetch(remote.clients).Ok? && Fetch(remote.projects).Ok?
            && AllInvoices(remote.invoicePages).Err? ==>
      SyncPass(t, userId, remote, now)
        == SyncOutcome(AfterProjects(AfterClients(t, Fetch(remote.clients).value), Fetch(remote.projects).value, userId),
                       SyncErr(AllInvoices(remote.invoicePages).error))
  {
  }

  /** A pass keeps the store's invariants: the only assignments it adds belong to the syncing
      user and point at that user's default rule. */
  lemma SyncPreservesWellFormed(t: Tables, userId: UserId, remote: Remote, now: Timestamp)
    requires PagesCover(remote.invoicePages)
    requires WellFormed(t)
    ensures WellFormed(SyncPass(t, userId, remote, now).tables)
  {
    var o := SyncPass(t, userId, remote, now);
    SyncKeepsRulesAndAssignments(t, userId, remote, now);
    if userId in t.connections && Fetch(remote.me).Ok? && Fetch(remote.clients).Ok? && Fetch(remote.projects).Ok? {
      var t1 := AfterClients(t, Fetch(remote.clients).value);
      var ps := Fetch(remote.projects).value;
      AutoAssignOnlyAdds(t.assignments, t.projects.Keys, ProjectIds(ps), userId, DefaultRule(t1, userId));
      assert o.tables.assignments == AutoAssign(t.assignments, t.projects.Keys, ProjectIds(ps), userId, DefaultRule(t1, userId));
      forall k | k in o.tables.assignments && o.tables.assignments[k] in o.tables.rules
        ensures o.tables.rules[o.tables.assignments[k]].userId == k.userId
      {
        if k !in t.assignments {
          assert IsDefaultRuleOf(t.rules, o.tables.assignments[k], userId);
        }
      }
    }
  }

  /** After a successful pass each fetched client is stored as its last record says. */
  lemma SyncStoresClients(t: Tables, userId: UserId, remote: Remote, now: Timestamp)
    requires PagesCover(remote.invoicePages)
    requires SyncPass(t, userId, remote, now).result.SyncOk?
    ensures Fetch(remote.clients).Ok?
    ensures
      var o := SyncPass(t, userId, remote, now).tables;
      var cs := Fetch(remote.clients).value;
      forall i :: 0 <= i < |cs| && (forall j :: i < j < |cs| ==> cs[j].id != cs[i].id) ==>
        cs[i].id in o.clients && o.clients[cs[i].id] == Client(cs[i].id, cs[i].name)
  {
    var cs := Fetch(remote.clients).value;
    var t1 := AfterClients(t, cs);
    var t2 := AfterProjects(t1, Fetch(remote.projects).value, userId);
    var o := SyncPass(t, userId, remote, now).tables;
    assert o == Stamp(AfterInvoices(t2, AllInvoices(remote.invoicePages).value), userId, now);
    assert o.clients == Overwrite(t.clients, ClientEntries(cs));
    forall i | 0 <= i < |cs| && (forall j :: i < j < |cs| ==> cs[j].id != cs[i].id)
      ensures cs[i].id in o.clients && o.clients[cs[i].id] == Client(cs[i].id, cs[i].name)
    {
      OverwriteAt(t.clients, ClientEntries(cs), i);
    }
  }

  /** After a successful pass each fetched invoice is stored as its last record says: state
      and amounts verbatim, optional dates absent exactly when the provider left them out. */
  lemma SyncStoresInvoices(t: Tables, userId: UserId, remote: Remote, now: Timestamp)
    requires PagesCover(remote.invoicePages)
    requires SyncPass(t, userId, remote, now).result.SyncOk?
    ensures AllInvoices(remote.invoicePages).Ok?
    ensures
      var o := SyncPass(t, userId, remote, now).tables;
      var invs := AllInvoices(remote.invoicePages).value;
      forall i :: 0 <= i < |invs| && (forall j :: i < j < |invs| ==> invs[j].id != invs[i].id) ==>
        invs[i].id in o.invoices && o.invoices[invs[i].id] == ToInvoice(invs[i])
  {
    var invs := AllInvoices(remote.invoicePages).value;
    var t1 := AfterClients(t, Fetch(remote.clients).value);
    var t2 := AfterProjects(t1, Fetch(remote.projects).value, userId);
    var o := SyncPass(t, userId, remote, now).tables;
    assert o == Stamp(AfterInvoices(t2, invs), userId, now);
    assert o.invoices == Overwrite(t2.invoices, InvoiceEntries(invs));
    forall i | 0 <= i < |invs| && (forall j :: i < j < |invs| ==> invs[j].id != invs[i].id)
      ensures invs[i].id in o.invoices && o.invoices[invs[i].id] == ToInvoice(invs[i])
    {
      OverwriteAt(t2.invoices, InvoiceEntries(invs), i);
    }
  }

  /** After a successful pass each fetched project carries its last record's name and flag,
      a project the pass created takes its client from the first record, and each newly seen
      project is assigned when the user has a default rule. */
  lemma SyncStoresProjects(t: Tables, userId: UserId, remote: Remote, now: Timestamp)
    requires PagesCover(remote.invoicePages)
    requires SyncPass(t, userId, remote, now).result.SyncOk?
    ensures Fetch(remote.projects).Ok?
    ensures
      var o := SyncPass(t, userId, remote, now).tables;
      var ps := Fetch(remote.projects).value;
      forall id :: id in ProjectIds(ps) ==>
        && id in o.projects
        && o.projects[id].name == LastProject(ps, id).name
        && o.projects[id].isActive == LastProject(ps, id).isActive
        && (id !in t.projects ==> o.projects[id] == Project(id, FirstProject(ps, id).clientId, LastProject(ps, id).name, LastProject(ps, id).isActive))
        && (id !in t.projects && DefaultRule(t, userId).Some? ==> AssignmentKey(userId, id) in o.assignments)
  {
    var ps := Fetch(remote.projects).value;
    var t1 := AfterClients(t, Fetch(remote.clients).value);
    var t2 := AfterProjects(t1, ps, userId);
    var o := SyncPass(t, userId, remote, now).tables;
    assert o == Stamp(AfterInvoices(t2, AllInvoices(remote.invoicePages).value), userId, now);
    assert o.projects == t2.projects && o.assignments == t2.assignments;
    assert t1.projects == t.projects && t1.rules == t.rules && t1.nextRuleId == t.nextRuleId;
    forall id | id in ProjectIds(ps)
      ensures id in o.projects
      ensures o.projects[id].name == LastProject(ps, id).name
      ensures o.projects[id].isActive == LastProject(ps, id).isActive
      ensures id !in t.projects ==> o.projects[id] == Project(id, FirstProject(ps, id).clientId, LastProject(ps, id).name, LastProject(ps, id).isActive)
      ensures id !in t.projects && DefaultRule(t, userId).Some? ==> AssignmentKey(userId, id) in o.assignments
    {
      ProjectsAfterAt(t.projects, ps, id);
      if id !in t.projects && DefaultRule(t, userId).Some? {
        AutoAssignCovers(t1.assignments, t.projects.Keys, ProjectIds(ps), userId, DefaultRule(t1, userId), id);
      }
    }
  }

  /** After a successful pass each fetched client and invoice is stored exactly as its last
      record in the fetch says, each fetched project carries its last record's name and flag,
      a created project takes its client from its first record, each newly seen project is assigned to the user's default rule (when one exists), and the
      connection is stamped. */
  lemma SyncMirrorsRemote(t: Tables, userId: UserId, remote: Remote, now: Timestamp)
    requires PagesCover(remote.invoicePages)
    requires SyncPass(t, userId, remote, now).result.SyncOk?
    ensures Fetch(remote.clients).Ok? && Fetch(remote.projects).Ok? && AllInvoices(remote.invoicePages).Ok?
    ensures
      var o := SyncPass(t, userId, remote, now).tables;
      var cs := Fetch(remote.clients).value;
      forall i :: 0 <= i < |cs| && (forall j :: i < j < |cs| ==> cs[j].id != cs[i].id) ==>
        cs[i].id in o.clients && o.clients[cs[i].id] == Client(cs[i].id, cs[i].name)
    ensures
      var o := SyncPass(t, userId, remote, now).tables;
      var invs := AllInvoices(remote.invoicePages).value;
      forall i :: 0 <= i < |invs| && (forall j :: i < j < |invs| ==> invs[j].id != invs[i].id) ==>
        invs[i].id in o.invoices && o.invoices[invs[i].id] == ToInvoice(invs[i])
    ensures
      var o := SyncPass(t, userId, remote, now).tables;
      var ps := Fetch(remote.projects).value;
      forall id :: id in ProjectIds(ps) ==>
        && id in o.projects
        && o.projects[id].name == LastProject(ps, id).name
        && o.projects[id].isActive == LastProject(ps, id).isActive
        && (id !in t.projects ==> o.projects[id] == Project(id, FirstProject(ps, id).clientId, LastProject(ps, id).name, LastProject(ps, id).isActive))
        && (id !in t.projects && DefaultRule(t, userId).Some? ==> AssignmentKey(userId, id) in o.assignments)
    ensures
      var o := SyncPass(t, userId, remote, now).tables;
      userId in o.connections && o.connections[userId].lastSyncAt == Some(now)
  {
    SyncStoresClients(t, userId, remote, now);
    SyncStoresInvoices(t, userId, remote, now);
    SyncStoresProjects(t, userId, remote, now);
    SyncStampsOnlyOnSuccess(t, userId, remote, now);
  }

  lemma ClientsCreatedCount(before: set<HarvestId>, cs: seq<RemoteClient>)
    ensures CountFresh(before, KeysOf(ClientEntries(cs))) == |(set i | 0 <= i < |cs| :: cs[i].id) - before|
  {
    var ids := KeysOf(ClientEntries(cs));
    CountFreshIsNewKeys(before, ids);
    assert Elements(ids) == (set i | 0 <= i < |cs| :: cs[i].id) by {
      forall k | k in ids ensures k in (set i | 0 <= i < |cs| :: cs[i].id) {
        var i :| 0 <= i < |ids| && ids[i] == k;
      }
      forall i | 0 <= i < |cs| ensures cs[i].id in ids {
        assert ids[i] == cs[i].id;
      }
    }
  }

  lemma ProjectsCreatedCount(before: set<HarvestId>, ps: seq<RemoteProject>)
    ensures CountFresh(before, ProjectIds(ps)) == |(set i | 0 <= i < |ps| :: ps[i].id) - before|
  {
    var ids := ProjectIds(ps);
    CountFreshIsNewKeys(before, ids);
    assert Elements(ids) == (set i | 0 <= i < |ps| :: ps[i].id) by {
      forall k | k in ids ensures k in (set i | 0 <= i < |ps| :: ps[i].id) {
        var i :| 0 <= i < |ids| && ids[i] == k;
        assert ps[i].id == k;
      }
      forall i | 0 <= i < |ps| ensures ps[i].id in ids {
        assert ids[i] == ps[i].id;
      }
    }
  }

  lemma InvoicesCount(before: set<HarvestId>, invs: seq<RemoteInvoice>)
    ensures CountFresh(before, KeysOf(InvoiceEntries(invs))) == |(set i | 0 <= i < |invs| :: invs[i].id) - before|
    ensures CountFresh(before, KeysOf(InvoiceEntries(invs))) + CountExisting(before, KeysOf(InvoiceEntries(invs))) == |invs|
  {
    var ids := KeysOf(InvoiceEntries(invs));
    CountFreshIsNewKeys(before, ids);
    CountsAddUp(before, ids);
    assert Elements(ids) == (set i | 0 <= i < |invs| :: invs[i].id) by {
      forall k | k in ids ensures k in (set i | 0 <= i < |invs| :: invs[i].id) {
        var i :| 0 <= i < |ids| && ids[i] == k;
      }
      forall i | 0 <= i < |invs| ensures invs[i].id in ids {
        assert ids[i] == invs[i].id;
      }
    }
  }

  /** On success the stats count distinct keys: created rows are the fetched ids not stored
      before, and created plus updated invoices is the number of invoice records fetched. */
  lemma SyncStatsCount(t: Tables, userId: UserId, remote: Remote, now: Timestamp)
    requires PagesCover(remote.invoicePages)
    requires SyncPass(t, userId, remote, now).result.SyncOk?
    ensures Fetch(remote.clients).Ok? && Fetch(remote.projects).Ok? && AllInvoices(remote.invoicePages).Ok?
    ensures
      var st := SyncPass(t, userId, remote, now).result.stats;
      var cs := Fetch(remote.clients).value;
      var ps := Fetch(remote.projects).value;
      var invs := AllInvoices(remote.invoicePages).value;
      && st.clientsCreated == |(set i | 0 <= i < |cs| :: cs[i].id) - t.clients.Keys|
      && st.projectsCreated == |(set i | 0 <= i < |ps| :: ps[i].id) - t.projects.Keys|
      && st.invoicesCreated == |(set i | 0 <= i < |invs| :: invs[i].id) - t.invoices.Keys|
      && st.invoicesCreated + st.invoicesUpdated == |invs|
  {
    var cs := Fetch(remote.clients).value;
    var ps := Fetch(remote.projects).value;
    var invs := AllInvoices(remote.invoicePages).value;
    ClientsCreatedCount(t.clients.Keys, cs);
    ProjectsCreatedCount(t.projects.Keys, ps);
    InvoicesCount(t.invoices.Keys, invs);
  }

  // ---------------------------------------------------------------------------
  // The pass, step by step against the store

  /** The client loop: each fetched client is created or renamed by provider id. */
  method SyncClients(db: Database, clients: seq<RemoteClient>) returns (created: nat)
    modifies db
    ensures db.Snapshot() == AfterClients(old(db.Snapshot()), clients)
    ensures created == CountFresh(old(db.clients).Keys, KeysOf(ClientEntries(clients)))
  {
    ghost var t := db.Snapshot();
    ghost var ce := ClientEntries(clients);
    created := 0;
    var i := 0;
    while i < |clients|
      invariant 0 <= i <= |clients|
      invariant db.Snapshot() == t.(clients := Overwrite(t.clients, ce[..i]))
      invariant created == CountFresh(t.clients.Keys, KeysOf(ce)[..i])
    {
      UpsertStep(t.clients, ce, i);
      var client := clients[i];
      if client.id !in db.clients {
        db.clients := db.clients[client.id := Client(client.id, client.name)];
        created := created + 1;
      } else {
        // A client row holds only its provider id and its name.
        db.clients := db.clients[client.id := Client(client.id, client.name)];
      }
      i := i + 1;
    }
    assert ce[..|clients|] == ce;
    assert KeysOf(ce)[..|clients|] == KeysOf(ce);
  }

  /** The project loop: a new project is created with every column and auto-assigned to the
      user's default rule; an existing one gets only its name and active flag. */
  method SyncProjects(db: Database, userId: UserId, projects: seq<RemoteProject>) returns (created: nat)
    modifies db
    ensures db.Snapshot() == AfterProjects(old(db.Snapshot()), projects, userId)
    ensures created == CountFresh(old(db.projects).Keys, ProjectIds(projects))
  {
    ghost var t := db.Snapshot();
    ghost var ids := ProjectIds(projects);
    created := 0;
    var i := 0;
    while i < |projects|
      invariant 0 <= i <= |projects|
      invariant db.Snapshot() == t.(projects := ProjectsAfter(t.projects, projects[..i]),
                                    assignments := AutoAssign(t.assignments, t.projects.Keys, ids[..i], userId, DefaultRule(t, userId)))
      invariant created == CountFresh(t.projects.Keys, ids[..i])
    {
      var project := projects[i];
      assert ProjectIds(projects[..i]) == ids[..i];
      assert ids[..i + 1] == ids[..i] + [project.id];
      assert projects[..i + 1] == projects[..i] + [project];
      ProjectsAfterAt(t.projects, projects[..i], project.id);
      if project.id !in db.projects {
        db.projects := db.projects[project.id := Project(project.id, project.clientId, project.name, project.isActive)];
        created := created + 1;
        // Auto-assign to the default rule; an existing assignment is left as it is.
        var defaultRule := FindDefaultRule(db.rules, userId, db.nextRuleId);
        if defaultRule.Some? {
          var key := AssignmentKey(userId, project.id);
          if key !in db.assignments {
            db.assignments := db.assignments[key := defaultRule.value];
          }
        }
      } else {
        db.projects := db.projects[project.id := db.projects[project.id].(name := project.name, isActive := project.isActive)];
      }
      i := i + 1;
    }
    assert projects[..|projects|] == projects;
    assert ids[..|projects|] == ids;
  }

  /** The invoice loop: each fetched invoice row is written whole, counted as created or
      updated by whether its provider id was already stored. */
  method SyncInvoices(db: Database, invoices: seq<RemoteInvoice>) returns (created: nat, updated: nat)
    modifies db
    ensures db.Snapshot() == AfterInvoices(old(db.Snapshot()), invoices)
    ensures created == CountFresh(old(db.invoices).Keys, KeysOf(InvoiceEntries(invoices)))
    ensures updated == CountExisting(old(db.invoices).Keys, KeysOf(InvoiceEntries(invoices)))
  {
    ghost var t := db.Snapshot();
    ghost var ie := InvoiceEntries(invoices);
    created, updated := 0, 0;
    var i := 0;
    while i < |invoices|
      invariant 0 <= i <= |invoices|
      invariant db.Snapshot() == t.(invoices := Overwrite(t.invoices, ie[..i]))
      invariant created == CountFresh(t.invoices.Keys, KeysOf(ie)[..i])
      invariant updated == CountExisting(t.invoices.Keys, KeysOf(ie)[..i])
    {
      UpsertStep(t.invoices, ie, i);
      var invoice := invoices[i];
      var invoiceData := ToInvoice(invoice);
      if invoice.id !in db.invoices {
        db.invoices := db.invoices[invoice.id := invoiceData];
        created := created + 1;
      } else {
        db.invoices := db.invoices[invoice.id := invoiceData];
        updated := updated + 1;
      }
      i := i + 1;
    }
    assert ie[..|invoices|] == ie;
    assert KeysOf(ie)[..|invoices|] == KeysOf(ie);
  }

  /** `syncHarvestData(userId)`: reads the connection, builds the client from its stored
      credentials, probes, then syncs clients, projects and invoices in that order, and finally
      stamps the connection. The first failed request ends the pass with its message. */
  method SyncHarvestData(db: Database, userId: UserId, remote: Remote, decrypt: string -> string, now: Timestamp)
      returns (r: SyncResult)
    requires PagesCover(remote.invoicePages)
    requires db.Valid()
    modifies db
    ensures db.Snapshot() == SyncPass(old(db.Snapshot()), userId, remote, now).tables
    ensures r == SyncPass(old(db.Snapshot()), userId, remote, now).result
    ensures db.Valid()
  {
    ghost var t := db.Snapshot();
    SyncPreservesWellFormed(t, userId, remote, now);
    if userId !in db.connections {
      return SyncErr(NO_CONNECTION);
    }
    var connection := db.connections[userId];
    var harvestClient := new HarvestApiClient(connection.accountId, connection.accessTokenEncrypted, decrypt);
    var test := harvestClient.TestConnection(remote.me);
    if test.TestFailed? {
      return SyncErr(test.error);
    }

    var clientsResult := harvestClient.GetClients(remote.clients);
    if clientsResult.Err? {
      return SyncErr(clientsResult.error);
    }
    var clientsCreated := SyncClients(db, clientsResult.value);

    var projectsResult := harvestClient.GetProjects(remote.projects);
    if projectsResult.Err? {
      return SyncErr(projectsResult.error);
    }
    var projectsCreated := SyncProjects(db, userId, projectsResult.value);

    var invoicesResult, _ := harvestClient.GetAllInvoices(remote.invoicePages);
    if invoicesResult.Err? {
      return SyncErr(invoicesResult.error);
    }
    var invoicesCreated, invoicesUpdated := SyncInvoices(db, invoicesResult.value);

    db.connections := db.connections[userId := db.connections[userId].(lastSyncAt := Some(now))];
    r := SyncOk(SyncStats(clientsCreated, projectsCreated, invoicesCreated, invoicesUpdated));
  }
}
