/** The migration as it runs: one transaction that updates columns in place, and its rewrite plan. */
module UuidMigration {
  import opened Wrappers
  import opened UuidRewrite

  const FUNCTION_IDS: ColumnRef := ColumnRef(Functions, Id_)

  /** The foreign keys the schema declares on a parent id column. */
  function DeclaredRefs(parent: ColumnRef): seq<ColumnRef> {
    if parent == FUNCTION_IDS then
      [ColumnRef(Executions, FunctionId), ColumnRef(PoolConfig, FunctionId), ColumnRef(FunctionSecrets, FunctionId),
       ColumnRef(Deployments, FunctionId), ColumnRef(Routes, FunctionId), ColumnRef(CronSchedules, FunctionId),
       ColumnRef(KvStoreTable, FunctionId), ColumnRef(Jobs, FunctionId), ColumnRef(Fixtures, FunctionId),
       ColumnRef(InboundWebhooks, FunctionId), ColumnRef(ChannelFunctions, FunctionId)]
    else if parent == ColumnRef(Deployments, Id_) then [ColumnRef(BuildLogs, DeploymentId)]
    else if parent == ColumnRef(Executions, Id_) then [ColumnRef(ExecutionLogs, ExecutionId)]
    else if parent == ColumnRef(EventSubscriptions, Id_) then [ColumnRef(WebhookDeliveries, SubscriptionId)]
    else if parent == ColumnRef(Channels, Id_) then [ColumnRef(ChannelFunctions, ChannelId)]
    else []
  }

  /** The parents in order, each with the references the schema does not declare. */
  const REWRITES: seq<Rewrite> := [
    Rewrite(FUNCTION_IDS,
      [ColumnRef(Executions, ParentFunctionId), ColumnRef(Jobs, EnqueuedByFunctionId),
       ColumnRef(ExecutionRequests, FunctionId), ColumnRef(UserSpans, FunctionId),
       ColumnRef(ExecutionLogEntries, FunctionId)]),
    Rewrite(ColumnRef(Deployments, Id_),
      [ColumnRef(Deployments, ParentDeploymentId), ColumnRef(Functions, ActiveDeploymentId)]),
    Rewrite(ColumnRef(Executions, Id_),
      [ColumnRef(ExecutionRequests, ExecutionId), ColumnRef(UserSpans, ExecutionId),
       ColumnRef(ExecutionLogEntries, ExecutionId), ColumnRef(Executions, ReplayOf)]),
    Rewrite(ColumnRef(EventSubscriptions, Id_), []),
    Rewrite(ColumnRef(Channels, Id_), []),
    Rewrite(ColumnRef(CronSchedules, Id_), []),
    Rewrite(ColumnRef(Jobs, Id_), []),
    Rewrite(ColumnRef(WebhookDeliveries, Id_), []),
    Rewrite(ColumnRef(Fixtures, Id_), []),
    Rewrite(ColumnRef(InboundWebhooks, Id_), []),
    Rewrite(ColumnRef(ApiKeys, Id_), [ColumnRef(ActivityLog, ActorId)]),
    Rewrite(ColumnRef(OauthClients, Id_), []),
    Rewrite(ColumnRef(OauthAccessTokens, Id_), []),
    Rewrite(ColumnRef(OauthClients, ClientId),
      [ColumnRef(OauthAuthorizationCodes, ClientId), ColumnRef(OauthAccessTokens, ClientId)])]

  /** The columns a schema declares to reference a parent. */
  type Schema = ColumnRef -> seq<ColumnRef>

  /** An entry with the declared references put before the listed ones, each column once. */
  function Resolve(schema: Schema, rw: Rewrite): Rewrite {
    Rewrite(rw.parent, Distinct(schema(rw.parent) + rw.refs))
  }

  function Distinct(cs: seq<ColumnRef>): (r: seq<ColumnRef>)
    ensures forall c :: c in r <==> c in cs
    ensures forall i, j :: 0 <= i < j < |r| ==> r[i] != r[j]
  {
    if cs == [] then [] else
    var init, c := Distinct(cs[..|cs| - 1]), cs[|cs| - 1];
    assert cs == cs[..|cs| - 1] + [c];
    if c in init then init else init + [c]
  }

  function ResolvedPlan(schema: Schema, entries: seq<Rewrite>): (r: seq<Rewrite>)
    ensures |r| == |entries| && forall i :: 0 <= i < |entries| ==> r[i] == Resolve(schema, entries[i])
  {
    seq(|entries|, i requires 0 <= i < |entries| => Resolve(schema, entries[i]))
  }

  /** The declared foreign keys and the listed soft references, without repetition. */
  method ResolveChildRefs(declared: seq<ColumnRef>, softRefs: seq<ColumnRef>) returns (refs: seq<ColumnRef>)
    ensures refs == Distinct(declared + softRefs)
    ensures forall c :: c in refs <==> c in declared || c in softRefs
    ensures forall i, j :: 0 <= i < j < |refs| ==> refs[i] != refs[j]
  {
    var all := declared + softRefs;
    refs := [];
    var i := 0;
    while i < |all|
      invariant 0 <= i <= |all| && refs == Distinct(all[..i])
    {
      assert all[..i + 1][..i] == all[..i];
      if all[i] !in refs {
        refs := refs + [all[i]];
      }
      i := i + 1;
    }
    assert all[..i] == all;
  }

  /** Which entry of the plan a column belongs to. */
  function Owner(c: ColumnRef): int {
    match c.column
    case ParentFunctionId => 0
    case EnqueuedByFunctionId => 0
    case FunctionId => 0
    case ParentDeploymentId => 1
    case ActiveDeploymentId => 1
    case DeploymentId => 1
    case ExecutionId => 2
    case ReplayOf => 2
    case SubscriptionId => 3
    case ChannelId => 4
    case ActorId => 10
    case ClientId => 13
    case AddedByActorId => -1
    case UserId => -1
    case ApprovedBy => -1
    case Id_ =>
      match c.table
      case Functions => 0
      case Deployments => 1
      case Executions => 2
      case EventSubscriptions => 3
      case Channels => 4
      case CronSchedules => 5
      case Jobs => 6
      case WebhookDeliveries => 7
      case Fixtures => 8
      case InboundWebhooks => 9
      case ApiKeys => 10
      case OauthClients => 11
      case OauthAccessTokens => 12
      case _ => -1
  }

  predicate Mentions(schema: Schema, rw: Rewrite, c: ColumnRef) {
    c == rw.parent || c in schema(rw.parent) || c in rw.refs
  }

  lemma OwnersSeparate(schema: Schema, entries: seq<Rewrite>)
    requires forall i, c :: 0 <= i < |entries| && Mentions(schema, entries[i], c) ==> Owner(c) == i
    ensures OneOwner(ResolvedPlan(schema, entries))
  {
    var plan := ResolvedPlan(schema, entries);
    forall i, j, c | 0 <= i < j < |plan| && c in Touched(plan[i]) ensures c !in Touched(plan[j]) {
      assert Mentions(schema, entries[i], c) && Owner(c) == i;
      assert c in Touched(plan[j]) ==> Mentions(schema, entries[j], c);
    }
  }

  /** In this schema no column is moved for two different parents. */
  lemma PlanHasOneOwner()
    ensures OneOwner(ResolvedPlan(DeclaredRefs, REWRITES))
  {
    forall i, c | 0 <= i < |REWRITES| && Mentions(DeclaredRefs, REWRITES[i], c) ensures Owner(c) == i {
      EntryOwned(i, c);
    }
    OwnersSeparate(DeclaredRefs, REWRITES);
  }

  lemma DeclaredOwned(parent: ColumnRef, c: ColumnRef)
    requires c in DeclaredRefs(parent)
    ensures Owner(c) == Owner(parent)
  {
  }

  lemma ParentOwned(i: nat)
    requires i < |REWRITES|
    ensures Owner(REWRITES[i].parent) == i
  {
  }

  lemma ListedOwned(i: nat, c: ColumnRef)
    requires i < |REWRITES| && c in REWRITES[i].refs
    ensures Owner(c) == i
  {
  }

  lemma EntryOwned(i: nat, c: ColumnRef)
    requires i < |REWRITES| && Mentions(DeclaredRefs, REWRITES[i], c)
    ensures Owner(c) == i
  {
    var rw := REWRITES[i];
    ParentOwned(i);
    if c in DeclaredRefs(rw.parent) {
      DeclaredOwned(rw.parent, c);
    } else if c in rw.refs {
      ListedOwned(i, c);
    }
  }

  // ---------------------------------------------------------------- running it

  /** `ids.New`: every id is younger than all before it. */
  class IdSource {
    var next: nat

    constructor (next: nat)
      ensures this.next == next
    {
      this.next := next;
    }

    method New() returns (id: Id)
      modifies this
      ensures id == Uuid(old(next)) && next == old(next) + 1
    {
      id := Uuid(next);
      next := next + 1;
    }
  }

  class Transaction {
    var columns: Columns

    constructor (columns: Columns)
      ensures this.columns == columns
    {
      this.columns := columns;
    }

    method Update(c: ColumnRef, to: Id, from: Id)
      requires c in columns
      modifies this
      ensures columns == UpdateColumn(old(columns), c, IdPair(from, to))
    {
      columns := columns[c := Replaced(columns[c], from, to)];
    }
  }

  lemma {:induction false} UpdateAllKeys(db: Columns, cs: seq<ColumnRef>, p: IdPair)
    ensures UpdateAll(db, cs, p).Keys == db.Keys
  {
    if cs != [] {
      UpdateAllKeys(db, cs[..|cs| - 1], p);
    }
  }

  /** One pair: the parent first, then every column that copies it. */
  method ApplyOne(tx: Transaction, cs: seq<ColumnRef>, p: IdPair)
    requires forall c :: c in cs ==> c in tx.columns
    modifies tx
    ensures tx.columns == UpdateAll(old(tx.columns), cs, p)
    ensures tx.columns.Keys == old(tx.columns).Keys
  {
    var i := 0;
    while i < |cs|
      invariant 0 <= i <= |cs| && tx.columns == UpdateAll(old(tx.columns), cs[..i], p)
      invariant tx.columns.Keys == old(tx.columns).Keys
    {
      assert cs[..i + 1][..i] == cs[..i];
      assert cs[i] in cs;
      tx.Update(cs[i], p.new_, p.old_);
      i := i + 1;
    }
    assert cs[..i] == cs;
  }

  method CollectPairs(column: Column, source: IdSource) returns (pairs: seq<IdPair>)
    modifies source
    ensures pairs == Pairs(column, old(source.next)) && source.next == old(source.next) + |pairs|
  {
    pairs := [];
    var i := 0;
    while i < |column|
      invariant 0 <= i <= |column|
      invariant pairs == Pairs(column[..i], old(source.next)) && source.next == old(source.next) + |pairs|
    {
      assert column[..i + 1][..i] == column[..i];
      if column[i].Some? && column[i].value != Text("") && !column[i].value.Uuid? {
        var fresh_ := source.New();
        pairs := pairs + [IdPair(column[i].value, fresh_)];
      }
      i := i + 1;
    }
    assert column[..i] == column;
  }

  /** Fails when the parent column, or with pairs to apply a child column, does not exist. */
  method RewriteOne(tx: Transaction, source: IdSource, rw: Rewrite) returns (r: Result<seq<IdPair>>)
    modifies tx, source
    ensures r.Ok? ==> rw.parent in old(tx.columns) && r.value == Pairs(old(tx.columns)[rw.parent], old(source.next))
    ensures r.Ok? ==> tx.columns == ApplyPairs(old(tx.columns), Touched(rw), r.value)
    ensures r.Ok? ==> source.next == old(source.next) + |r.value|
    ensures rw.parent in old(tx.columns) && (forall c :: c in rw.refs ==> c in old(tx.columns)) ==> r.Ok?
    ensures r.Ok? ==> tx.columns.Keys == old(tx.columns).Keys
  {
    if rw.parent !in tx.columns {
      return Err("select");
    }
    var pairs := CollectPairs(tx.columns[rw.parent], source);
    if pairs == [] {
      return Ok([]);
    }
    if exists c :: c in rw.refs && c !in tx.columns {
      return Err("prepare child");
    }
    var i := 0;
    while i < |pairs|
      invariant 0 <= i <= |pairs| && tx.columns == ApplyPairs(old(tx.columns), Touched(rw), pairs[..i])
      invariant tx.columns.Keys == old(tx.columns).Keys
      invariant source.next == old(source.next) + |pairs|
    {
      assert pairs[..i + 1][..i] == pairs[..i];
      ApplyOne(tx, Touched(rw), pairs[i]);
      i := i + 1;
    }
    assert pairs[..i] == pairs;
    r := Ok(pairs);
  }

  class Database {
    var columns: Columns
    var migrated: bool
    var pendingRenames: seq<IdPair>

    constructor (columns: Columns)
      ensures this.columns == columns && !migrated && pendingRenames == []
    {
      this.columns, migrated, pendingRenames := columns, false, [];
    }
  }

  /** Function ids are rewritten by the first entry and by no other. */
  predicate FunctionsFirst(entries: seq<Rewrite>) {
    entries != [] && forall i :: 0 <= i < |entries| ==> (entries[i].parent == FUNCTION_IDS <==> i == 0)
  }

  predicate ColumnsExist(schema: Schema, entries: seq<Rewrite>, db: Columns) {
    forall i, c :: 0 <= i < |entries| && c in Touched(Resolve(schema, entries[i])) ==> c in db
  }

  predicate TouchedExist(rw: Rewrite, db: Columns) { forall c :: c in Touched(rw) ==> c in db }

  lemma EntryColumnsExist(schema: Schema, entries: seq<Rewrite>, original: Columns, db: Columns, i: nat)
    requires i < |entries| && db.Keys == original.Keys
    ensures ColumnsExist(schema, entries, original) ==> TouchedExist(Resolve(schema, entries[i]), db)
  {
  }

  /** Running the entry at the head of what remains of a plan. */
  lemma OneEntry(db: Columns, plan: seq<Rewrite>, i: nat, n: nat)
    requires i < |plan|
    ensures plan[i].parent in db ==>
              Migrated(db, plan[i..], n)
              == Migrated(ApplyPairs(db, Touched(plan[i]), Pairs(db[plan[i].parent], n)), plan[i + 1..],
                          n + |Pairs(db[plan[i].parent], n)|)
  {
    assert plan[i..][0] == plan[i] && plan[i..][1..] == plan[i + 1..];
  }

  /** Resolves one entry's children and rewrites it: one step of the plan. */
  method RewriteEntry(tx: Transaction, source: IdSource, schema: Schema, rw: Rewrite, ghost plan: seq<Rewrite>,
                      ghost i: nat)
    returns (r: Result<seq<IdPair>>)
    requires i < |plan| && plan[i] == Resolve(schema, rw)
    modifies tx, source
    ensures r.Ok? ==> rw.parent in old(tx.columns) && r.value == Pairs(old(tx.columns)[rw.parent], old(source.next))
    ensures r.Ok? ==> Migrated(tx.columns, plan[i + 1..], source.next) == Migrated(old(tx.columns), plan[i..], old(source.next))
    ensures r.Ok? ==> tx.columns.Keys == old(tx.columns).Keys
    ensures TouchedExist(plan[i], old(tx.columns)) ==> r.Ok?
  {
    var refs := ResolveChildRefs(schema(rw.parent), rw.refs);
    assert Rewrite(rw.parent, refs) == plan[i];
    OneEntry(tx.columns, plan, i, source.next);
    assert plan[i].parent in Touched(plan[i]) && forall c :: c in plan[i].refs ==> c in Touched(plan[i]);
    r := RewriteOne(tx, source, Rewrite(rw.parent, refs));
  }

  /** Runs the entries in order inside the transaction; the pairs for function ids are kept. */
  method RewriteAll(tx: Transaction, source: IdSource, schema: Schema, entries: seq<Rewrite>)
    returns (ok: bool, fnPairs: seq<IdPair>)
    requires FunctionsFirst(entries)
    modifies tx, source
    ensures ok ==> tx.columns == Migrated(old(tx.columns), ResolvedPlan(schema, entries), old(source.next))
    ensures ok ==> FUNCTION_IDS in old(tx.columns) && fnPairs == Pairs(old(tx.columns)[FUNCTION_IDS], old(source.next))
    ensures ColumnsExist(schema, entries, old(tx.columns)) ==> ok
  {
    ghost var plan, start, original := ResolvedPlan(schema, entries), source.next, tx.columns;
    ghost var final := Migrated(original, plan, start);
    fnPairs := [];
    var i := 0;
    assert plan[0..] == plan;
    while i < |entries|
      invariant 0 <= i <= |entries| && tx.columns.Keys == original.Keys
      invariant Migrated(tx.columns, plan[i..], source.next) == final
      invariant i == 0 ==> tx.columns == original && source.next == start
      invariant i > 0 ==> FUNCTION_IDS in original && fnPairs == Pairs(original[FUNCTION_IDS], start)
    {
      EntryColumnsExist(schema, entries, original, tx.columns, i);
      var r := RewriteEntry(tx, source, schema, entries[i], plan, i);
      if r.Err? {
        return false, [];
      }
      if entries[i].parent == FUNCTION_IDS {
        fnPairs := r.value;
      }
      i := i + 1;
    }
    assert plan[i..] == [];
    ok := true;
  }

  /**
   The whole migration in one transaction: rewrite every parent, check the result, record the
   renames of function directories and set the marker; any failure leaves the database as it was.
   */
  method MigrateToUUIDv7(db: Database, source: IdSource, schema: Schema, entries: seq<Rewrite>,
                         integrityOk: bool, softRefsOk: bool, commitFails: bool)
    returns (ok: bool)
    requires FunctionsFirst(entries)
    modifies db, source
    ensures old(db.migrated) ==> ok && db.columns == old(db.columns) && db.pendingRenames == old(db.pendingRenames)
    ensures !ok ==> db.columns == old(db.columns) && db.pendingRenames == old(db.pendingRenames) && !db.migrated
    ensures ok ==> db.migrated
    ensures ok && !old(db.migrated) ==>
              && db.columns == Migrated(old(db.columns), ResolvedPlan(schema, entries), old(source.next))
              && FUNCTION_IDS in old(db.columns)
              && var renames := Pairs(old(db.columns)[FUNCTION_IDS], old(source.next));
                 db.pendingRenames == if renames == [] then old(db.pendingRenames) else renames
    ensures !old(db.migrated) && integrityOk && softRefsOk && !commitFails && ColumnsExist(schema, entries, old(db.columns)) ==> ok
  {
    if db.migrated {
      return true;
    }
    var tx := new Transaction(db.columns);
    var rewritten, fnPairs := RewriteAll(tx, source, schema, entries);
    if !rewritten || !integrityOk || !softRefsOk || commitFails {
      return false;
    }
    if fnPairs != [] {
      db.pendingRenames := fnPairs;
    }
    db.columns, db.migrated := tx.columns, true;
    ok := true;
  }

  lemma FunctionsComeFirst()
    ensures FunctionsFirst(REWRITES)
  {
    forall i | 0 <= i < |REWRITES| ensures REWRITES[i].parent == FUNCTION_IDS <==> i == 0 {
      EntryOwned(i, REWRITES[i].parent);
    }
  }
}
