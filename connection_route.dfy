/** The connection handlers: connect a provider account (validate, probe, save the connection,
    bootstrap the default rule, run the first sync) and show the saved connection without its
    credentials. */
module ConnectionRoute {
  import opened Base
  import opened Records
  import opened Store
  import opened HarvestClient
  import opened Sync

  const CREDENTIALS_REQUIRED := "Account ID and Access Token are required"
  const CONNECTION_FAILED_PREFIX := "Harvest connection failed: "
  const CONNECTED_MESSAGE := "Harvest connected and synced successfully"
  const SYNC_FAILED_WARNING := "Connection saved but initial sync failed. Please try syncing again."

  const DEFAULT_RULE_NAME := "Default Rule"
  const DEFAULT_RULE_PERCENT := 10.0

  /** A saved connection answers with the first sync's stats, or with a warning carrying the
      sync's error. */
  datatype ConnectReply =
    | Connected(message: string, stats: SyncStats)
    | ConnectedWithWarning(warning: string, syncError: string)

  // ---------------------------------------------------------------------------
  // POST, as specification

  /** The connection upsert keyed by user: an existing connection gets the new account and
      token only; a new one starts with no sync time. */
  function SaveConnection(t: Tables, userId: UserId, accountId: string, token: string, now: Timestamp): Tables
  {
    if userId in t.connections then
      t.(connections := t.connections[userId := t.connections[userId].(accountId := accountId, accessTokenEncrypted := token)])
    else
      t.(connections := t.connections[userId := Connection(accountId, token, None, now)])
  }

  /** Creates the user's default rule when the user has none. */
  function EnsureDefaultRule(t: Tables, userId: UserId): Tables
  {
    if DefaultRule(t, userId).Some? then t
    else
      t.(rules := t.rules[t.nextRuleId := CommissionRule(userId, DEFAULT_RULE_NAME, DEFAULT_RULE_PERCENT, true)],
         nextRuleId := t.nextRuleId + 1)
  }

  /** `POST /api/harvest/connection` for `userId`: `probe` is the provider's answer to the
      connectivity request made with the submitted credentials, `remote` its answers during the
      first sync, `encrypt` the credential store's encryption. */
  function Connect(t: Tables, userId: UserId, accountId: Option<string>, accessToken: Option<string>,
                   probe: HttpResponse<()>, remote: Remote, encrypt: string -> string, now: Timestamp): Outcome<ConnectReply>
    requires PagesCover(remote.invoicePages)
  {
    if !Truthy(accountId) || !Truthy(accessToken) then Outcome(t, Failure(400, CREDENTIALS_REQUIRED))
    else
      match Fetch(probe)
      case Err(e) => Outcome(t, Failure(400, CONNECTION_FAILED_PREFIX + e))
      case Ok(_) =>
        var t1 := SaveConnection(t, userId, accountId.value, encrypt(accessToken.value), now);
        var t2 := EnsureDefaultRule(t1, userId);
        var o := SyncPass(t2, userId, remote, now);
        var reply := match o.result
                     case SyncOk(stats) => Connected(CONNECTED_MESSAGE, stats)
                     case SyncErr(e) => ConnectedWithWarning(SYNC_FAILED_WARNING, e);
        Outcome(o.tables, Success(reply))
  }

  // ---------------------------------------------------------------------------
  // POST, step by step

  /** The connection upsert, on the store. */
  method StoreConnection(db: Database, userId: UserId, accountId: string, token: string, now: Timestamp)
    requires db.Valid()
    modifies db
    ensures db.Snapshot() == SaveConnection(old(db.Snapshot()), userId, accountId, token, now)
    ensures db.Valid()
  {
    if userId in db.connections {
      db.connections := db.connections[userId := db.connections[userId].(accountId := accountId, accessTokenEncrypted := token)];
    } else {
      db.connections := db.connections[userId := Connection(accountId, token, None, now)];
    }
  }

  /** Creates the default rule on the store when the user has none. */
  method CreateDefaultRuleIfMissing(db: Database, userId: UserId)
    requires db.Valid()
    modifies db
    ensures db.Snapshot() == EnsureDefaultRule(old(db.Snapshot()), userId)
    ensures db.Valid()
  {
    EnsureDefaultRuleEffect(db.Snapshot(), userId);
    var defaultRule := FindDefaultRule(db.rules, userId, db.nextRuleId);
    if defaultRule.None? {
      db.rules := db.rules[db.nextRuleId := CommissionRule(userId, DEFAULT_RULE_NAME, DEFAULT_RULE_PERCENT, true)];
      db.nextRuleId := db.nextRuleId + 1;
    }
  }

  method PostConnection(db: Database, userId: UserId, accountId: Option<string>, accessToken: Option<string>,
                        probe: HttpResponse<()>, remote: Remote,
                        encrypt: string -> string, decrypt: string -> string, now: Timestamp)
      returns (r: ApiResult<ConnectReply>)
    requires PagesCover(remote.invoicePages)
    requires db.Valid()
    modifies db
    ensures db.Snapshot() == Connect(old(db.Snapshot()), userId, accountId, accessToken, probe, remote, encrypt, now).tables
    ensures r == Connect(old(db.Snapshot()), userId, accountId, accessToken, probe, remote, encrypt, now).reply
    ensures db.Valid()
  {
    if !Truthy(accountId) || !Truthy(accessToken) {
      return Failure(400, CREDENTIALS_REQUIRED);
    }

    // Test the connection first.
    var encryptedToken := encrypt(accessToken.value);
    var harvestClient := new HarvestApiClient(accountId.value, encryptedToken, decrypt);
    var testResult := harvestClient.TestConnection(probe);
    if testResult.TestFailed? {
      return Failure(400, CONNECTION_FAILED_PREFIX + testResult.error);
    }

    ghost var t := db.Snapshot();
    StoreConnection(db, userId, accountId.value, encryptedToken, now);
    CreateDefaultRuleIfMissing(db, userId);
    ghost var t2 := db.Snapshot();
    assert t2 == EnsureDefaultRule(SaveConnection(t, userId, accountId.value, encryptedToken, now), userId);

    // Initial sync; its failure is only a warning.
    var syncResult := SyncHarvestData(db, userId, remote, decrypt, now);
    ghost var o := SyncPass(t2, userId, remote, now);
    assert db.Snapshot() == o.tables && syncResult == o.result;
    assert Fetch(probe).Ok?;
    if syncResult.SyncErr? {
      return Success(ConnectedWithWarning(SYNC_FAILED_WARNING, syncResult.error));
    }
    r := Success(Connected(CONNECTED_MESSAGE, syncResult.stats));
  }

  // ---------------------------------------------------------------------------
  // Properties

  /** Missing credentials are refused before anything else, and a failed probe is refused with
      the probe's error after the fixed prefix; neither writes anything. Past both gates the
      request succeeds, whatever the sync does. */
  lemma ConnectGuards(t: Tables, userId: UserId, accountId: Option<string>, accessToken: Option<string>,
                      probe: HttpResponse<()>, remote: Remote, encrypt: string -> string, now: Timestamp)
    requires PagesCover(remote.invoicePages)
    ensures
      var o := Connect(t, userId, accountId, accessToken, probe, remote, encrypt, now);
      && (!Truthy(accountId) || !Truthy(accessToken) ==> o == Outcome(t, Failure(400, CREDENTIALS_REQUIRED)))
      && (Truthy(accountId) && Truthy(accessToken) && probe.ErrorResponse? ==>
            o == Outcome(t, Failure(400, CONNECTION_FAILED_PREFIX + ApiErrorMessage(probe.status, probe.body))))
      && (o.reply.Success? <==> Truthy(accountId) && Truthy(accessToken) && probe.OkResponse?)
  {
  }

  /** Bootstrapping keeps the store well formed and leaves the user a default rule: the one
      they had, with the rules untouched, or else a new `Default Rule` at 10 percent. */
  lemma EnsureDefaultRuleEffect(t: Tables, userId: UserId)
    requires WellFormed(t)
    ensures
      var t' := EnsureDefaultRule(t, userId);
      && WellFormed(t')
      && DefaultRule(t', userId).Some?
      && t'.assignments == t.assignments
      && (DefaultRule(t, userId).Some? ==> t' == t)
      && (DefaultRule(t, userId).None? ==>
            t'.rules == t.rules[t.nextRuleId := CommissionRule(userId, DEFAULT_RULE_NAME, DEFAULT_RULE_PERCENT, true)])
  {
    if DefaultRule(t, userId).None? {
      var t' := EnsureDefaultRule(t, userId);
      assert forall id: RuleId :: id in t.rules ==> !IsDefaultRuleOf(t.rules, id, userId);
      assert IsDefaultRuleOf(t'.rules, t.nextRuleId, userId);
    }
  }

  /** `u` holds exactly one default rule of the user: the one `t` held, with the rules
      untouched, or else a new `Default Rule` at 10 percent under `t`'s next rule id. */
  ghost predicate OneDefaultAfter(t: Tables, u: Tables, userId: UserId)
  {
    && DefaultRule(u, userId).Some?
    && (forall d: RuleId :: IsDefaultRuleOf(u.rules, d, userId) <==> DefaultRule(u, userId) == Some(d))
    && (DefaultRule(t, userId).Some? ==> u.rules == t.rules && DefaultRule(u, userId) == DefaultRule(t, userId))
    && (DefaultRule(t, userId).None? ==>
          u.rules == t.rules[t.nextRuleId := CommissionRule(userId, DEFAULT_RULE_NAME, DEFAULT_RULE_PERCENT, true)])
  }

  /** A store whose rules and rule counter are those of the well-formed `t` after
      bootstrapping holds exactly one default rule of the user. */
  lemma DefaultAfterBootstrap(t: Tables, u: Tables, userId: UserId)
    requires WellFormed(t)
    requires u.rules == EnsureDefaultRule(t, userId).rules && u.nextRuleId == EnsureDefaultRule(t, userId).nextRuleId
    ensures OneDefaultAfter(t, u, userId)
  {
    EnsureDefaultRuleEffect(t, userId);
    var e := EnsureDefaultRule(t, userId);
    assert DefaultRule(u, userId) == DefaultRule(e, userId);
    forall d: RuleId ensures IsDefaultRuleOf(u.rules, d, userId) <==> DefaultRule(u, userId) == Some(d) {
      DefaultRuleExact(e, userId, d);
    }
  }

  /** Connecting keeps the store well formed. */
  lemma ConnectPreservesWellFormed(t: Tables, userId: UserId, accountId: Option<string>, accessToken: Option<string>,
                                   probe: HttpResponse<()>, remote: Remote, encrypt: string -> string, now: Timestamp)
    requires PagesCover(remote.invoicePages)
    requires WellFormed(t)
    ensures WellFormed(Connect(t, userId, accountId, accessToken, probe, remote, encrypt, now).tables)
  {
    if Truthy(accountId) && Truthy(accessToken) && probe.OkResponse? {
      var t1 := SaveConnection(t, userId, accountId.value, encrypt(accessToken.value), now);
      assert t1.rules == t.rules && t1.nextRuleId == t.nextRuleId && t1.assignments == t.assignments;
      EnsureDefaultRuleEffect(t1, userId);
      var t2 := EnsureDefaultRule(t1, userId);
      assert Fetch(probe).Ok?;
      assert Connect(t, userId, accountId, accessToken, probe, remote, encrypt, now).tables == SyncPass(t2, userId, remote, now).tables;
      SyncPreservesWellFormed(t2, userId, remote, now);
    }
  }

  /** After a successful connect the rules and the rule counter are those of the bootstrapped
      store: the sync leaves them alone. */
  lemma ConnectRules(t: Tables, userId: UserId, accountId: Option<string>, accessToken: Option<string>,
                     probe: HttpResponse<()>, remote: Remote, encrypt: string -> string, now: Timestamp)
    requires PagesCover(remote.invoicePages)
    ensures
      var o := Connect(t, userId, accountId, accessToken, probe, remote, encrypt, now);
      o.reply.Success? ==>
        o.tables.rules == EnsureDefaultRule(t, userId).rules && o.tables.nextRuleId == EnsureDefaultRule(t, userId).nextRuleId
  {
    if Truthy(accountId) && Truthy(accessToken) && probe.OkResponse? {
      var t1 := SaveConnection(t, userId, accountId.value, encrypt(accessToken.value), now);
      assert t1.rules == t.rules && t1.nextRuleId == t.nextRuleId;
      assert DefaultRule(t1, userId) == DefaultRule(t, userId);
      var t2 := EnsureDefaultRule(t1, userId);
      assert Fetch(probe).Ok?;
      SyncKeepsRulesAndAssignments(t2, userId, remote, now);
    }
  }

  /** A successful connect leaves the user with exactly one default rule: the one they had,
      untouched, or else a new `Default Rule` at 10 percent. */
  lemma ConnectLeavesOneDefault(t: Tables, userId: UserId, accountId: Option<string>, accessToken: Option<string>,
                                probe: HttpResponse<()>, remote: Remote, encrypt: string -> string, now: Timestamp)
    requires PagesCover(remote.invoicePages)
    requires WellFormed(t)
    ensures
      var o := Connect(t, userId, accountId, accessToken, probe, remote, encrypt, now);
      o.reply.Success? ==> OneDefaultAfter(t, o.tables, userId)
  {
    var o := Connect(t, userId, accountId, accessToken, probe, remote, encrypt, now);
    ConnectRules(t, userId, accountId, accessToken, probe, remote, encrypt, now);
    if o.reply.Success? {
      DefaultAfterBootstrap(t, o.tables, userId);
    }
  }

  /** A successful connect stores the submitted account and the encrypted token under the user,
      keeps an existing connection's creation time, and sets the sync time exactly when the
      first sync succeeded. Once the gates pass, the store is what the first sync left and the
      answer is a success either way: the sync's stats when it succeeded, the warning with the
      sync's error when it failed. */
  lemma ConnectStoresCredentials(t: Tables, userId: UserId, accountId: Option<string>, accessToken: Option<string>,
                                 probe: HttpResponse<()>, remote: Remote, encrypt: string -> string, now: Timestamp)
    requires PagesCover(remote.invoicePages)
    ensures
      var o := Connect(t, userId, accountId, accessToken, probe, remote, encrypt, now);
      o.reply.Success? ==>
        && userId in o.tables.connections
        && o.tables.connections.Keys == t.connections.Keys + {userId}
        && o.tables.connections[userId].accountId == accountId.value
        && o.tables.connections[userId].accessTokenEncrypted == encrypt(accessToken.value)
        && o.tables.connections[userId].createdAt == (if userId in t.connections then t.connections[userId].createdAt else now)
        && o.tables.connections[userId].lastSyncAt ==
             (if o.reply.value.Connected? then Some(now)
              else if userId in t.connections then t.connections[userId].lastSyncAt else None)
    ensures
      var o := Connect(t, userId, accountId, accessToken, probe, remote, encrypt, now);
      Truthy(accountId) && Truthy(accessToken) && Fetch(probe).Ok? ==>
        var so := SyncPass(EnsureDefaultRule(SaveConnection(t, userId, accountId.value, encrypt(accessToken.value), now), userId),
                           userId, remote, now);
        && o.tables == so.tables
        && (so.result.SyncOk? ==> o.reply == Success(Connected(CONNECTED_MESSAGE, so.result.stats)))
        && (so.result.SyncErr? ==> o.reply == Success(ConnectedWithWarning(SYNC_FAILED_WARNING, so.result.error)))
  {
    var o := Connect(t, userId, accountId, accessToken, probe, remote, encrypt, now);
    if Truthy(accountId) && Truthy(accessToken) && probe.OkResponse? {
      var token := encrypt(accessToken.value);
      var t1 := SaveConnection(t, userId, accountId.value, token, now);
      SaveConnectionEffect(t, userId, accountId.value, token, now);
      var t2 := EnsureDefaultRule(t1, userId);
      assert t2.connections == t1.connections;
      var so := SyncPass(t2, userId, remote, now);
      assert Fetch(probe).Ok?;
      assert o.tables == so.tables;
      SyncStampsOnlyOnSuccess(t2, userId, remote, now);
      if so.result.SyncOk? {
        assert o.reply.value.Connected?;
        assert o.tables.connections == t1.connections[userId := t1.connections[userId].(lastSyncAt := Some(now))];
      } else {
        assert !o.reply.value.Connected?;
        assert o.tables.connections == t1.connections;
      }
    }
  }

  /** The connection upsert stores the account and token under the user, keeps an existing
      connection's creation and sync times, and starts a new one unsynced at `now`. */
  lemma SaveConnectionEffect(t: Tables, userId: UserId, accountId: string, token: string, now: Timestamp)
    ensures
      var c := SaveConnection(t, userId, accountId, token, now).connections;
      && c.Keys == t.connections.Keys + {userId}
      && c[userId].accountId == accountId && c[userId].accessTokenEncrypted == token
      && c[userId].createdAt == (if userId in t.connections then t.connections[userId].createdAt else now)
      && c[userId].lastSyncAt == (if userId in t.connections then t.connections[userId].lastSyncAt else None)
      && forall u :: u in t.connections && u != userId ==> c[u] == t.connections[u]
  {
    var c := SaveConnection(t, userId, accountId, token, now).connections;
    if userId in t.connections {
      assert c == t.connections[userId := t.connections[userId].(accountId := accountId, accessTokenEncrypted := token)];
    } else {
      assert c == t.connections[userId := Connection(accountId, token, None, now)];
    }
  }

  // ---------------------------------------------------------------------------
  // GET

  /** What the connection query selects: no credentials. */
  datatype ConnectionInfo = ConnectionInfo(accountId: string, lastSyncAt: Option<Timestamp>, createdAt: Timestamp)

  function ConnectionView(t: Tables, userId: UserId): Option<ConnectionInfo>
  {
    if userId in t.connections then
      var c := t.connections[userId];
      Some(ConnectionInfo(c.accountId, c.lastSyncAt, c.createdAt))
    else None
  }

  method GetConnection(db: Database, userId: UserId) returns (r: Option<ConnectionInfo>)
    ensures r == ConnectionView(db.Snapshot(), userId)
  {
    if userId in db.connections {
      var c := db.connections[userId];
      r := Some(ConnectionInfo(c.accountId, c.lastSyncAt, c.createdAt));
    } else {
      r := None;
    }
  }

  /** The view shows the user's connection exactly when there is one, and does not depend on
      the stored token: two stores that differ only in the token show the same view. */
  lemma ViewHidesToken(t: Tables, userId: UserId, token: string)
    ensures ConnectionView(t, userId).Some? <==> userId in t.connections
    ensures userId in t.connections ==>
      ConnectionView(t.(connections := t.connections[userId := t.connections[userId].(accessTokenEncrypted := token)]), userId)
        == ConnectionView(t, userId)
  {
  }
}
