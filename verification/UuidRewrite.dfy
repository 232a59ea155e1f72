/** The one-shot rewrite of legacy identifiers to UUIDs, column by column and pair by pair. */
module UuidRewrite {
  import opened Wrappers

  /** An identifier either parses as a UUID or is legacy text; the empty text is never rewritten. */
  datatype Id = Uuid(n: nat) | Text(s: string)

  datatype IdPair = IdPair(old_: Id, new_: Id)

  datatype TableName =
    | Functions | Deployments | Executions | EventSubscriptions | Channels | CronSchedules | Jobs
    | WebhookDeliveries | Fixtures | InboundWebhooks | ApiKeys | OauthClients | OauthAccessTokens
    | OauthAuthorizationCodes | ExecutionLogs | ExecutionRequests | UserSpans | ExecutionLogEntries
    | PoolConfig | FunctionSecrets | BuildLogs | Routes | KvStoreTable | ChannelFunctions | ActivityLog
    | AiConversations | AiToolCalls

  datatype ColumnName =
    | Id_ | FunctionId | ExecutionId | DeploymentId | SubscriptionId | ChannelId | ClientId | ActorId
    | ParentFunctionId | EnqueuedByFunctionId | ParentDeploymentId | ActiveDeploymentId | ReplayOf
    | AddedByActorId | UserId | ApprovedBy

  datatype ColumnRef = ColumnRef(table: TableName, column: ColumnName)

  /** A column lists the nullable values of its rows. */
  type Column = seq<Option<Id>>

  type Columns = map<ColumnRef, Column>

  /** A parent id column with every column that holds copies of its ids. */
  datatype Rewrite = Rewrite(parent: ColumnRef, refs: seq<ColumnRef>)

  predicate Legacy(v: Option<Id>) { v.Some? && v.value.Text? && v.value.s != "" }

  // ---------------------------------------------------------------- one pair at a time

  /** `UPDATE t SET c = to WHERE c = from`. */
  function Replaced(col: Column, from: Id, to: Id): (r: Column)
    ensures |r| == |col|
    ensures forall i :: 0 <= i < |col| ==> r[i] == if col[i] == Some(from) then Some(to) else col[i]
  {
    seq(|col|, i requires 0 <= i < |col| => if col[i] == Some(from) then Some(to) else col[i])
  }

  function UpdateColumn(db: Columns, c: ColumnRef, p: IdPair): Columns {
    if c in db then db[c := Replaced(db[c], p.old_, p.new_)] else db
  }

  /** One pair applied to a list of columns, one UPDATE after the other. */
  function UpdateAll(db: Columns, cs: seq<ColumnRef>, p: IdPair): Columns {
    if cs == [] then db else UpdateColumn(UpdateAll(db, cs[..|cs| - 1], p), cs[|cs| - 1], p)
  }

  function ApplyPairs(db: Columns, cs: seq<ColumnRef>, pairs: seq<IdPair>): Columns {
    if pairs == [] then db else UpdateAll(ApplyPairs(db, cs, pairs[..|pairs| - 1]), cs, pairs[|pairs| - 1])
  }

  /** The pairs for a parent column, numbering fresh ids from `n`. */
  function Pairs(col: Column, n: nat): seq<IdPair> {
    if col == [] then [] else
    var init, v := Pairs(col[..|col| - 1], n), col[|col| - 1];
    if Legacy(v) then init + [IdPair(v.value, Uuid(n + |init|))] else init
  }

  function Touched(rw: Rewrite): seq<ColumnRef> { [rw.parent] + rw.refs }

  // ---------------------------------------------------------------- all pairs at once

  /** The simultaneous substitution: the first pair that renames an id decides. */
  function Subst(pairs: seq<IdPair>, id: Id): Id {
    if pairs == [] then id else
    var before, p := Subst(pairs[..|pairs| - 1], id), pairs[|pairs| - 1];
    if before == id && id == p.old_ then p.new_ else before
  }

  function SubstCell(pairs: seq<IdPair>, v: Option<Id>): Option<Id> {
    if v.Some? then Some(Subst(pairs, v.value)) else None
  }

  function SubstColumn(pairs: seq<IdPair>, col: Column): (r: Column)
    ensures |r| == |col|
    ensures forall i :: 0 <= i < |col| ==> r[i] == SubstCell(pairs, col[i])
  {
    seq(|col|, i requires 0 <= i < |col| => SubstCell(pairs, col[i]))
  }

  /** Old ids are legacy text and new ones are UUIDs, so no new id is ever renamed again. */
  predicate Separated(pairs: seq<IdPair>) {
    forall i :: 0 <= i < |pairs| ==> pairs[i].old_.Text? && pairs[i].new_.Uuid?
  }

  lemma {:induction false} SubstShape(pairs: seq<IdPair>, id: Id)
    requires Separated(pairs)
    ensures Subst(pairs, id) == id || (id.Text? && Subst(pairs, id).Uuid?)
  {
    if pairs != [] {
      SubstShape(pairs[..|pairs| - 1], id);
    }
  }

  lemma {:induction false} UpdateAllColumns(db: Columns, cs: seq<ColumnRef>, p: IdPair)
    requires p.old_ != p.new_
    ensures UpdateAll(db, cs, p).Keys == db.Keys
    ensures forall c :: c in db ==>
              UpdateAll(db, cs, p)[c] == if c in cs then Replaced(db[c], p.old_, p.new_) else db[c]
  {
    if cs != [] {
      var n := |cs| - 1;
      UpdateAllColumns(db, cs[..n], p);
      assert cs == cs[..n] + [cs[n]];
      forall c | c in db
        ensures UpdateAll(db, cs, p)[c] == if c in cs then Replaced(db[c], p.old_, p.new_) else db[c]
      {
        var once := Replaced(db[c], p.old_, p.new_);
        assert Replaced(once, p.old_, p.new_) == once;
      }
    }
  }

  /** Applying the pairs one UPDATE at a time equals one simultaneous substitution. */
  lemma {:induction false} SequentialIsSimultaneous(db: Columns, cs: seq<ColumnRef>, pairs: seq<IdPair>)
    requires Separated(pairs)
    ensures ApplyPairs(db, cs, pairs).Keys == db.Keys
    ensures forall c :: c in db ==>
              ApplyPairs(db, cs, pairs)[c] == if c in cs then SubstColumn(pairs, db[c]) else db[c]
  {
    if pairs == [] {
      forall c | c in db ensures SubstColumn(pairs, db[c]) == db[c] {
      }
    } else {
      var n := |pairs| - 1;
      var before := ApplyPairs(db, cs, pairs[..n]);
      SequentialIsSimultaneous(db, cs, pairs[..n]);
      UpdateAllColumns(before, cs, pairs[n]);
      forall c | c in db && c in cs
        ensures Replaced(before[c], pairs[n].old_, pairs[n].new_) == SubstColumn(pairs, db[c])
      {
        LastPair(pairs, db[c]);
      }
    }
  }

  lemma LastPair(pairs: seq<IdPair>, col: Column)
    requires Separated(pairs) && pairs != []
    ensures var n := |pairs| - 1;
            Replaced(SubstColumn(pairs[..n], col), pairs[n].old_, pairs[n].new_) == SubstColumn(pairs, col)
  {
    var n := |pairs| - 1;
    forall i | 0 <= i < |col|
      ensures Replaced(SubstColumn(pairs[..n], col), pairs[n].old_, pairs[n].new_)[i] == SubstColumn(pairs, col)[i]
    {
      if col[i].Some? {
        SubstShape(pairs[..n], col[i].value);
      }
    }
  }

  // ---------------------------------------------------------------- the substitution is a renaming

  /** Every UUID in the column was generated before `n`. */
  predicate OlderThan(col: Column, n: nat) {
    forall i :: 0 <= i < |col| && col[i].Some? && col[i].value.Uuid? ==> col[i].value.n < n
  }

  lemma {:induction false} PairsShape(col: Column, n: nat)
    ensures Separated(Pairs(col, n))
    ensures forall k :: 0 <= k < |Pairs(col, n)| ==> Pairs(col, n)[k].new_ == Uuid(n + k)
    ensures forall k :: 0 <= k < |Pairs(col, n)| ==> Legacy(Some(Pairs(col, n)[k].old_)) && Some(Pairs(col, n)[k].old_) in col
  {
    if col != [] {
      PairsShape(col[..|col| - 1], n);
    }
  }

  /** A renamed id gets a fresh one, numbered by the pair that renames it. */
  lemma {:induction false} SubstIsFresh(pairs: seq<IdPair>, n: nat, id: Id) returns (k: nat)
    requires forall k :: 0 <= k < |pairs| ==> pairs[k].new_ == Uuid(n + k)
    requires Subst(pairs, id) != id
    ensures k < |pairs| && pairs[k].old_ == id && Subst(pairs, id) == Uuid(n + k)
  {
    var m := |pairs| - 1;
    if Subst(pairs[..m], id) != id {
      k := SubstIsFresh(pairs[..m], n, id);
    } else {
      k := m;
    }
  }

  /** On ids generated before `n` the substitution is injective. */
  lemma SubstIsInjective(pairs: seq<IdPair>, n: nat, a: Id, b: Id)
    requires forall k :: 0 <= k < |pairs| ==> pairs[k].new_ == Uuid(n + k)
    requires a.Uuid? ==> a.n < n
    requires b.Uuid? ==> b.n < n
    ensures Subst(pairs, a) == Subst(pairs, b) <==> a == b
  {
    if Subst(pairs, a) != a {
      var k := SubstIsFresh(pairs, n, a);
      if Subst(pairs, b) != b {
        var m := SubstIsFresh(pairs, n, b);
      }
    } else if Subst(pairs, b) != b {
      var m := SubstIsFresh(pairs, n, b);
    }
  }

  lemma {:induction false} SubstHits(col: Column, n: nat, id: Id)
    requires Legacy(Some(id)) && Some(id) in col
    ensures Subst(Pairs(col, n), id).Uuid?
  {
    var m := |col| - 1;
    var pairs := Pairs(col, n);
    PairsShape(col, n);
    SubstShape(pairs, id);
    if Some(id) in col[..m] {
      SubstHits(col[..m], n, id);
      if Legacy(col[m]) {
        assert pairs[..|pairs| - 1] == Pairs(col[..m], n);
      }
    } else {
      assert col[m] == Some(id);
      assert pairs[..|pairs| - 1] == Pairs(col[..m], n);
      PairsShape(col[..m], n);
      SubstShape(Pairs(col[..m], n), id);
    }
  }

  /** Two cells join when both hold the same id. */
  predicate Join(a: Option<Id>, b: Option<Id>) { a.Some? && a == b }

  // ---------------------------------------------------------------- the whole plan

  /** The migration of every parent in turn, numbering new ids from `n`. */
  function Migrated(db: Columns, plan: seq<Rewrite>, n: nat): Columns
    decreases |plan|
  {
    if plan == [] then db
    else if plan[0].parent !in db then Migrated(db, plan[1..], n)
    else Migrated(FirstDone(db, plan, n), plan[1..], n + |Pairs(db[plan[0].parent], n)|)
  }

  /** The data after the first entry of the plan. */
  function FirstDone(db: Columns, plan: seq<Rewrite>, n: nat): Columns
    requires plan != [] && plan[0].parent in db
  {
    ApplyPairs(db, Touched(plan[0]), Pairs(db[plan[0].parent], n))
  }

  /** No column is moved by two entries of the plan. */
  ghost predicate OneOwner(plan: seq<Rewrite>) {
    forall i, j, c :: 0 <= i < j < |plan| && c in Touched(plan[i]) ==> c !in Touched(plan[j])
  }

  /** The pairs of the plan's `i`-th entry, computed on the original data. */
  function PairsOf(db: Columns, plan: seq<Rewrite>, n: nat, i: nat): seq<IdPair>
    requires i < |plan| && forall j :: 0 <= j < |plan| ==> plan[j].parent in db
    decreases i
  {
    Pairs(db[plan[i].parent], StartOf(db, plan, n, i))
  }

  function StartOf(db: Columns, plan: seq<Rewrite>, n: nat, i: nat): nat
    requires i <= |plan| && forall j :: 0 <= j < |plan| ==> plan[j].parent in db
    decreases i
  {
    if i == 0 then n else StartOf(db, plan, n, i - 1) + |Pairs(db[plan[i - 1].parent], 0)|
  }

  lemma {:induction false} PairsCount(col: Column, n: nat, m: nat)
    ensures |Pairs(col, n)| == |Pairs(col, m)|
  {
    if col != [] {
      PairsCount(col[..|col| - 1], n, m);
    }
  }

  /** Dropping the first entry of a plan shifts the numbering, not the pairs. */
  lemma {:induction false} StartShifts(db: Columns, db': Columns, plan: seq<Rewrite>, n: nat, i: nat)
    requires 0 < i <= |plan| && forall j :: 0 <= j < |plan| ==> plan[j].parent in db && plan[j].parent in db'
    requires forall j :: 0 < j < |plan| ==> db'[plan[j].parent] == db[plan[j].parent]
    ensures StartOf(db', plan[1..], n + |Pairs(db[plan[0].parent], n)|, i - 1) == StartOf(db, plan, n, i)
    decreases i
  {
    PairsCount(db[plan[0].parent], n, 0);
    if i > 1 {
      StartShifts(db, db', plan, n, i - 1);
      assert plan[1..][i - 2] == plan[i - 1];
    }
  }

  /** The first entry substitutes in its own columns and leaves those of the others alone. */
  lemma FirstDoneColumns(db: Columns, plan: seq<Rewrite>, n: nat)
    requires plan != [] && plan[0].parent in db
    ensures FirstDone(db, plan, n).Keys == db.Keys
    ensures forall c :: c in db ==>
              FirstDone(db, plan, n)[c]
              == if c in Touched(plan[0]) then SubstColumn(Pairs(db[plan[0].parent], n), db[c]) else db[c]
  {
    PairsShape(db[plan[0].parent], n);
    SequentialIsSimultaneous(db, Touched(plan[0]), Pairs(db[plan[0].parent], n));
  }

  lemma OtherParentsKept(db: Columns, plan: seq<Rewrite>, n: nat)
    requires OneOwner(plan) && plan != [] && forall j :: 0 <= j < |plan| ==> plan[j].parent in db
    ensures OneOwner(plan[1..])
    ensures forall j :: 0 < j < |plan| ==> plan[j].parent in FirstDone(db, plan, n)
                                           && FirstDone(db, plan, n)[plan[j].parent] == db[plan[j].parent]
  {
    FirstDoneColumns(db, plan, n);
    forall j | 0 < j < |plan| ensures plan[j].parent !in Touched(plan[0]) {
      assert plan[j].parent in Touched(plan[j]);
    }
    forall j, k, d | 0 <= j < k < |plan[1..]| && d in Touched(plan[1..][j]) ensures d !in Touched(plan[1..][k]) {
      assert d in Touched(plan[j + 1]);
    }
  }

  lemma FirstDoneKeys(db: Columns, plan: seq<Rewrite>, n: nat)
    requires plan != [] && plan[0].parent in db
    ensures FirstDone(db, plan, n).Keys == db.Keys
  {
    FirstDoneColumns(db, plan, n);
  }

  lemma LaterPairsKept(db: Columns, plan: seq<Rewrite>, n: nat, i: nat)
    requires OneOwner(plan) && 0 < i < |plan|
    requires forall j :: 0 <= j < |plan| ==> plan[j].parent in db
    ensures var db', n' := FirstDone(db, plan, n), n + |Pairs(db[plan[0].parent], n)|;
            && OneOwner(plan[1..]) && (forall j :: 0 <= j < |plan[1..]| ==> plan[1..][j].parent in db')
            && PairsOf(db', plan[1..], n', i - 1) == PairsOf(db, plan, n, i)
  {
    FirstDoneKeys(db, plan, n);
    OtherParentsKept(db, plan, n);
    forall j | 0 <= j < |plan[1..]| ensures plan[1..][j].parent in FirstDone(db, plan, n) {
      assert plan[1..][j] == plan[j + 1];
    }
    StartShifts(db, FirstDone(db, plan, n), plan, n, i);
  }

  /** Seen from after the first entry, a later entry has the same pairs and the same column. */
  lemma LaterEntryUnmoved(db: Columns, plan: seq<Rewrite>, n: nat, i: nat, c: ColumnRef)
    requires OneOwner(plan) && 0 < i < |plan| && c in Touched(plan[i]) && c in db
    requires forall j :: 0 <= j < |plan| ==> plan[j].parent in db
    ensures var db', n' := FirstDone(db, plan, n), n + |Pairs(db[plan[0].parent], n)|;
            && c in db' && db'[c] == db[c] && OneOwner(plan[1..])
            && (forall j :: 0 <= j < |plan[1..]| ==> plan[1..][j].parent in db')
            && PairsOf(db', plan[1..], n', i - 1) == PairsOf(db, plan, n, i)
  {
    FirstDoneColumns(db, plan, n);
    assert c !in Touched(plan[0]);
    LaterPairsKept(db, plan, n, i);
  }

  /** After the first entry, nothing moves its columns again. */
  lemma FirstEntryFinal(db: Columns, plan: seq<Rewrite>, n: nat, c: ColumnRef)
    requires OneOwner(plan) && plan != [] && c in Touched(plan[0]) && c in db
    requires forall j :: 0 <= j < |plan| ==> plan[j].parent in db
    ensures c in Migrated(db, plan, n)
    ensures Migrated(db, plan, n)[c] == SubstColumn(PairsOf(db, plan, n, 0), db[c])
  {
    FirstDoneColumns(db, plan, n);
    OtherParentsKept(db, plan, n);
    forall j | 0 <= j < |plan[1..]| ensures plan[1..][j].parent in FirstDone(db, plan, n) && c !in Touched(plan[1..][j]) {
      assert plan[1..][j] == plan[j + 1] && c !in Touched(plan[j + 1]);
    }
    MigrationSkips(FirstDone(db, plan, n), plan[1..], n + |Pairs(db[plan[0].parent], n)|, c);
  }

  /**
   The migration applies to each column the substitution of the one parent it belongs to, all
   computed from the data as it was, and leaves every other column alone.
   */
  lemma {:induction false} MigrationIsSubstitution(db: Columns, plan: seq<Rewrite>, n: nat, i: nat, c: ColumnRef)
    requires OneOwner(plan) && i < |plan| && c in Touched(plan[i]) && c in db
    requires forall j :: 0 <= j < |plan| ==> plan[j].parent in db
    ensures c in Migrated(db, plan, n)
    ensures Migrated(db, plan, n)[c] == SubstColumn(PairsOf(db, plan, n, i), db[c])
    decreases |plan|
  {
    if i == 0 {
      FirstEntryFinal(db, plan, n, c);
    } else {
      LaterEntryUnmoved(db, plan, n, i, c);
      MigrationIsSubstitution(FirstDone(db, plan, n), plan[1..], n + |Pairs(db[plan[0].parent], n)|, i - 1, c);
    }
  }

  lemma {:induction false} MigrationSkips(db: Columns, plan: seq<Rewrite>, n: nat, c: ColumnRef)
    requires c in db && forall j :: 0 <= j < |plan| ==> plan[j].parent in db && c !in Touched(plan[j])
    ensures c in Migrated(db, plan, n) && Migrated(db, plan, n)[c] == db[c]
    decreases |plan|
  {
    if plan != [] {
      FirstDoneColumns(db, plan, n);
      MigrationSkips(FirstDone(db, plan, n), plan[1..], n + |Pairs(db[plan[0].parent], n)|, c);
    }
  }

  lemma {:induction false} StartGrows(db: Columns, plan: seq<Rewrite>, n: nat, i: nat)
    requires i <= |plan| && forall j :: 0 <= j < |plan| ==> plan[j].parent in db
    ensures n <= StartOf(db, plan, n, i)
    decreases i
  {
    if i > 0 {
      StartGrows(db, plan, n, i - 1);
    }
  }

  /** Every parent-child join holds after the migration exactly where it held before. */
  lemma JoinsPreserved(db: Columns, plan: seq<Rewrite>, n: nat, i: nat, child: ColumnRef, row: nat, childRow: nat)
    requires OneOwner(plan) && i < |plan| && child in plan[i].refs && child in db
    requires forall j :: 0 <= j < |plan| ==> plan[j].parent in db
    requires OlderThan(db[plan[i].parent], n) && OlderThan(db[child], n)
    requires row < |db[plan[i].parent]| && childRow < |db[child]|
    ensures var after := Migrated(db, plan, n);
            && plan[i].parent in after && child in after
            && row < |after[plan[i].parent]| && childRow < |after[child]|
            && (Join(after[plan[i].parent][row], after[child][childRow])
                <==> Join(db[plan[i].parent][row], db[child][childRow]))
  {
    var pairs, start := PairsOf(db, plan, n, i), StartOf(db, plan, n, i);
    MigrationIsSubstitution(db, plan, n, i, plan[i].parent);
    MigrationIsSubstitution(db, plan, n, i, child);
    StartGrows(db, plan, n, i);
    PairsShape(db[plan[i].parent], start);
    var a, b := db[plan[i].parent][row], db[child][childRow];
    if a.Some? && b.Some? {
      SubstIsInjective(pairs, start, a.value, b.value);
    }
  }

  /** A text that is not empty has become a UUID; a UUID, an empty text and a missing id are as they were. */
  predicate Renewed(before: Option<Id>, after: Option<Id>) {
    if before.Some? && before.value.Text? && before.value.s != "" then after.Some? && after.value.Uuid? else after == before
  }

  /** No legacy id is left in a migrated parent column. */
  lemma ParentsAreMigrated(db: Columns, plan: seq<Rewrite>, n: nat, i: nat, row: nat)
    requires OneOwner(plan) && i < |plan| && (forall j :: 0 <= j < |plan| ==> plan[j].parent in db)
    requires row < |db[plan[i].parent]|
    ensures plan[i].parent in Migrated(db, plan, n) && row < |Migrated(db, plan, n)[plan[i].parent]|
    ensures Renewed(db[plan[i].parent][row], Migrated(db, plan, n)[plan[i].parent][row])
    ensures !Legacy(Migrated(db, plan, n)[plan[i].parent][row])
  {
    MigrationIsSubstitution(db, plan, n, i, plan[i].parent);
    var v := db[plan[i].parent][row];
    PairsShape(db[plan[i].parent], StartOf(db, plan, n, i));
    if Legacy(v) {
      SubstHits(db[plan[i].parent], StartOf(db, plan, n, i), v.value);
    } else if v.Some? {
      if Subst(PairsOf(db, plan, n, i), v.value) != v.value {
        var k := SubstIsFresh(PairsOf(db, plan, n, i), StartOf(db, plan, n, i), v.value);
      }
    }
  }

  /** A column the plan does not list keeps its join with a migrated parent only on non-legacy ids. */
  lemma UnlistedColumnLosesLegacyJoins(db: Columns, plan: seq<Rewrite>, n: nat, i: nat, other: ColumnRef, row: nat,
                                       otherRow: nat)
    requires OneOwner(plan) && i < |plan| && other in db
    requires forall j :: 0 <= j < |plan| ==> plan[j].parent in db && other !in Touched(plan[j])
    requires row < |db[plan[i].parent]| && otherRow < |db[other]| && OlderThan(db[plan[i].parent], n)
    requires Join(db[plan[i].parent][row], db[other][otherRow])
    ensures var after := Migrated(db, plan, n);
            && plan[i].parent in after && other in after
            && row < |after[plan[i].parent]| && otherRow < |after[other]|
            && (Join(after[plan[i].parent][row], after[other][otherRow]) <==> !Legacy(db[plan[i].parent][row]))
  {
    MigrationIsSubstitution(db, plan, n, i, plan[i].parent);
    MigrationSkips(db, plan, n, other);
    var v := db[plan[i].parent][row];
    PairsShape(db[plan[i].parent], StartOf(db, plan, n, i));
    if Legacy(v) {
      SubstHits(db[plan[i].parent], StartOf(db, plan, n, i), v.value);
    } else if Subst(PairsOf(db, plan, n, i), v.value) != v.value {
      var k := SubstIsFresh(PairsOf(db, plan, n, i), StartOf(db, plan, n, i), v.value);
    }
  }

  lemma {:induction false} NoLegacyNoPairs(col: Column, n: nat)
    requires forall i :: 0 <= i < |col| ==> !Legacy(col[i])
    ensures Pairs(col, n) == []
  {
    if col != [] {
      NoLegacyNoPairs(col[..|col| - 1], n);
    }
  }

  /** Running the rewrite again, marker or not, changes nothing. */
  lemma SecondRunIsIdentity(db: Columns, plan: seq<Rewrite>, n: nat, m: nat)
    requires OneOwner(plan) && forall j :: 0 <= j < |plan| ==> plan[j].parent in db
    ensures Migrated(Migrated(db, plan, n), plan, m) == Migrated(db, plan, n)
  {
    var after := Migrated(db, plan, n);
    forall i | 0 <= i < |plan|
      ensures plan[i].parent in after && forall r :: 0 <= r < |after[plan[i].parent]| ==> !Legacy(after[plan[i].parent][r])
    {
      MigrationIsSubstitution(db, plan, n, i, plan[i].parent);
      forall r | 0 <= r < |after[plan[i].parent]| ensures !Legacy(after[plan[i].parent][r]) {
        ParentsAreMigrated(db, plan, n, i, r);
      }
    }
    NothingToDo(after, plan, m);
  }

  lemma {:induction false} NothingToDo(db: Columns, plan: seq<Rewrite>, n: nat)
    requires forall i :: 0 <= i < |plan| ==>
               plan[i].parent in db && (forall r :: 0 <= r < |db[plan[i].parent]| ==> !Legacy(db[plan[i].parent][r]))
    ensures Migrated(db, plan, n) == db
    decreases |plan|
  {
    if plan != [] {
      NoLegacyNoPairs(db[plan[0].parent], n);
      NothingToDo(db, plan[1..], n);
    }
  }
}
