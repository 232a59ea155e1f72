/** The migration's plan against the schema: every reference to an id is rewritten with it, but for three columns. */
module UuidPlan {
  import opened Wrappers
  import opened UuidRewrite
  import opened UuidMigration

  const DEPLOYMENT_IDS: ColumnRef := ColumnRef(Deployments, Id_)
  const EXECUTION_IDS: ColumnRef := ColumnRef(Executions, Id_)
  const KEY_IDS: ColumnRef := ColumnRef(ApiKeys, Id_)
  const CLIENT_IDS: ColumnRef := ColumnRef(OauthClients, ClientId)

  /** Which column's ids a column holds, table by table as the schema creates them and its upgrades add columns. */
  function RefersTo(c: ColumnRef): Option<ColumnRef> {
    match c.table
    case Functions => if c.column.ActiveDeploymentId? then Some(DEPLOYMENT_IDS) else None
    case Executions =>
      if c.column.FunctionId? || c.column.ParentFunctionId? then Some(FUNCTION_IDS)
      else if c.column.ReplayOf? then Some(EXECUTION_IDS) else None
    case ExecutionLogs => if c.column.ExecutionId? then Some(EXECUTION_IDS) else None
    case PoolConfig => OfFunction(c)
    case FunctionSecrets => OfFunction(c)
    case Deployments => if c.column.ParentDeploymentId? then Some(DEPLOYMENT_IDS) else OfFunction(c)
    case BuildLogs => if c.column.DeploymentId? then Some(DEPLOYMENT_IDS) else None
    case Routes => OfFunction(c)
    case CronSchedules => OfFunction(c)
    case KvStoreTable => OfFunction(c)
    case Jobs => if c.column.EnqueuedByFunctionId? then Some(FUNCTION_IDS) else OfFunction(c)
    case WebhookDeliveries => if c.column.SubscriptionId? then Some(ColumnRef(EventSubscriptions, Id_)) else None
    case ActivityLog => if c.column.ActorId? then Some(KEY_IDS) else None
    case ExecutionRequests => if c.column.ExecutionId? then Some(EXECUTION_IDS) else OfFunction(c)
    case Fixtures => OfFunction(c)
    case InboundWebhooks => OfFunction(c)
    case AiConversations => if c.column.UserId? then Some(KEY_IDS) else None
    case AiToolCalls => if c.column.ApprovedBy? then Some(KEY_IDS) else None
    case OauthAuthorizationCodes => if c.column.ClientId? then Some(CLIENT_IDS) else None
    case OauthAccessTokens => if c.column.ClientId? then Some(CLIENT_IDS) else None
    case ChannelFunctions =>
      if c.column.ChannelId? then Some(ColumnRef(Channels, Id_))
      else if c.column.AddedByActorId? then Some(KEY_IDS) else OfFunction(c)
    case UserSpans => if c.column.ExecutionId? then Some(EXECUTION_IDS) else OfFunction(c)
    case ExecutionLogEntries => if c.column.ExecutionId? then Some(EXECUTION_IDS) else OfFunction(c)
    case _ => None
  }

  function OfFunction(c: ColumnRef): Option<ColumnRef> { if c.column.FunctionId? then Some(FUNCTION_IDS) else None }

  /** The references that the plan leaves out: they record which key acted, and are declared without a foreign key. */
  predicate Unlisted(c: ColumnRef) {
    || c == ColumnRef(ChannelFunctions, AddedByActorId)
    || c == ColumnRef(AiConversations, UserId)
    || c == ColumnRef(AiToolCalls, ApprovedBy)
  }

  /** The columns whose ids were once prefixed texts. */
  predicate HoldsIds(c: ColumnRef) {
    match c.table
    case OauthClients => c.column.Id_? || c.column.ClientId?
    case Functions => c.column.Id_?
    case Executions => c.column.Id_?
    case ApiKeys => c.column.Id_?
    case Deployments => c.column.Id_?
    case CronSchedules => c.column.Id_?
    case Jobs => c.column.Id_?
    case EventSubscriptions => c.column.Id_?
    case WebhookDeliveries => c.column.Id_?
    case Fixtures => c.column.Id_?
    case InboundWebhooks => c.column.Id_?
    case OauthAccessTokens => c.column.Id_?
    case Channels => c.column.Id_?
    case _ => false
  }

  function Plan(): seq<Rewrite> { ResolvedPlan(DeclaredRefs, REWRITES) }

  /** A database with all these columns, whose ids are older than the first new one. */
  ghost predicate Covers(db: Columns, n: nat) {
    forall c :: HoldsIds(c) || RefersTo(c).Some? ==> c in db && OlderThan(db[c], n)
  }

  // ---------------------------------------------------------------- the plan is the schema

  lemma EntryOf(c: ColumnRef) returns (i: nat)
    requires HoldsIds(c)
    ensures i < |Plan()| && Plan()[i].parent == c
  {
    i := Owner(c);
    assert REWRITES[i].parent == c;
  }

  /** The plan rewrites exactly the id columns. */
  lemma PlanCoversIds(c: ColumnRef)
    ensures HoldsIds(c) <==> exists i :: 0 <= i < |Plan()| && Plan()[i].parent == c
  {
    if HoldsIds(c) {
      var i := EntryOf(c);
    }
    if i :| 0 <= i < |Plan()| && Plan()[i].parent == c {
      ParentHoldsIds(i);
    }
  }

  lemma ParentHoldsIds(i: nat)
    requires i < |REWRITES|
    ensures HoldsIds(REWRITES[i].parent)
  {
  }

  /** And with each id column exactly the columns that refer to it, but for the unlisted ones. */
  lemma PlanCoversReferences(i: nat, c: ColumnRef)
    requires i < |Plan()|
    ensures c in Plan()[i].refs <==> RefersTo(c) == Some(Plan()[i].parent) && !Unlisted(c)
  {
    var parent := REWRITES[i].parent;
    ParentOwned(i);
    if RefersTo(c) == Some(parent) && !Unlisted(c) {
      ReferenceIsListed(c, parent, i);
    }
    if c in DeclaredRefs(parent) {
      DeclaredIsReference(parent, c);
    } else if c in REWRITES[i].refs {
      ListedIsReference(i, c);
    }
  }

  lemma ReferenceIsListed(c: ColumnRef, parent: ColumnRef, i: nat)
    requires RefersTo(c) == Some(parent) && !Unlisted(c) && i < |REWRITES| && REWRITES[i].parent == parent
    requires Owner(parent) == i
    ensures c in DeclaredRefs(parent) || c in REWRITES[i].refs
  {
  }

  lemma DeclaredIsReference(parent: ColumnRef, c: ColumnRef)
    requires c in DeclaredRefs(parent)
    ensures RefersTo(c) == Some(parent) && !Unlisted(c)
  {
    if parent == FUNCTION_IDS {
      DeclaredOfFunctions(c);
    }
  }

  lemma DeclaredOfFunctions(c: ColumnRef)
    requires c in DeclaredRefs(FUNCTION_IDS)
    ensures RefersTo(c) == Some(FUNCTION_IDS) && !Unlisted(c)
  {
  }

  lemma ListedIsReference(i: nat, c: ColumnRef)
    requires i < |REWRITES| && c in REWRITES[i].refs
    ensures RefersTo(c) == Some(REWRITES[i].parent) && !Unlisted(c)
  {
    if i == 0 {
      ListedUnderFunctions(c);
    } else if i == 2 {
      ListedUnderExecutions(c);
    } else {
      ListedElsewhere(i, c);
    }
  }

  lemma ListedUnderFunctions(c: ColumnRef)
    requires c in REWRITES[0].refs
    ensures RefersTo(c) == Some(REWRITES[0].parent) && !Unlisted(c)
  {
  }

  lemma ListedUnderExecutions(c: ColumnRef)
    requires c in REWRITES[2].refs
    ensures RefersTo(c) == Some(REWRITES[2].parent) && !Unlisted(c)
  {
  }

  lemma ListedElsewhere(i: nat, c: ColumnRef)
    requires i < |REWRITES| && i != 0 && i != 2 && c in REWRITES[i].refs
    ensures RefersTo(c) == Some(REWRITES[i].parent) && !Unlisted(c)
  {
  }

  lemma ReferredHoldsIds(c: ColumnRef)
    requires RefersTo(c).Some?
    ensures HoldsIds(RefersTo(c).value)
  {
  }

  lemma ParentsInDatabase(db: Columns, n: nat)
    requires Covers(db, n)
    ensures forall j :: 0 <= j < |Plan()| ==> Plan()[j].parent in db
  {
    forall j | 0 <= j < |Plan()| ensures Plan()[j].parent in db {
      PlanCoversIds(Plan()[j].parent);
    }
  }

  // ---------------------------------------------------------------- the joins

  /** In the actual plan and schema every reference joins with its parent after the migration exactly where it did before. */
  lemma ReferencesKeepJoining(db: Columns, n: nat, parent: ColumnRef, child: ColumnRef, row: nat, childRow: nat)
    requires RefersTo(child) == Some(parent) && !Unlisted(child) && Covers(db, n)
    requires parent in db && row < |db[parent]| && childRow < |db[child]|
    ensures var after := Migrated(db, Plan(), n);
            && parent in after && child in after && row < |after[parent]| && childRow < |after[child]|
            && (Join(after[parent][row], after[child][childRow]) <==> Join(db[parent][row], db[child][childRow]))
  {
    ReferredHoldsIds(child);
    var i := EntryOf(parent);
    PlanCoversReferences(i, child);
    PlanHasOneOwner();
    ParentsInDatabase(db, n);
    JoinsPreserved(db, Plan(), n, i, child, row, childRow);
  }

  lemma UnlistedIsUntouched(c: ColumnRef, i: nat)
    requires Unlisted(c) && i < |Plan()|
    ensures c !in Touched(Plan()[i])
  {
    assert Owner(c) == -1;
    if Mentions(DeclaredRefs, REWRITES[i], c) {
      EntryOwned(i, c);
    }
  }

  /** Who attached, talked and approved no longer joins with a key whose id was rewritten. */
  lemma UnlistedLoseLegacyKeys(db: Columns, n: nat, child: ColumnRef, row: nat, childRow: nat)
    requires Unlisted(child) && RefersTo(child).Some? && Covers(db, n)
    requires KEY_IDS in db && row < |db[KEY_IDS]| && childRow < |db[child]| && Join(db[KEY_IDS][row], db[child][childRow])
    ensures var after := Migrated(db, Plan(), n);
            && KEY_IDS in after && child in after && row < |after[KEY_IDS]| && childRow < |after[child]|
            && (Join(after[KEY_IDS][row], after[child][childRow]) <==> !Legacy(db[KEY_IDS][row]))
  {
    PlanHasOneOwner();
    ParentsInDatabase(db, n);
    forall j | 0 <= j < |Plan()| ensures child !in Touched(Plan()[j]) {
      UnlistedIsUntouched(child, j);
    }
    var i := EntryOf(KEY_IDS);
    UnlistedColumnLosesLegacyJoins(db, Plan(), n, i, child, row, childRow);
  }

  /** In every id column of the schema the migration replaces each prefixed text by a UUID and nothing else. */
  lemma NoOldIdIsLeft(db: Columns, n: nat, c: ColumnRef, row: nat)
    requires HoldsIds(c) && Covers(db, n) && row < |db[c]|
    ensures c in Migrated(db, Plan(), n) && row < |Migrated(db, Plan(), n)[c]|
    ensures Renewed(db[c][row], Migrated(db, Plan(), n)[c][row])
  {
    var i := EntryOf(c);
    PlanHasOneOwner();
    ParentsInDatabase(db, n);
    ParentsAreMigrated(db, Plan(), n, i, row);
  }
}
