/**
 The database side of the writer: function insertion and deletion under the lifecycle lock, and
 the commit pass that filters a batch, tries it as one transaction and isolates failures.
 */
module WriterCommit {
  import opened Wrappers
  import opened WriterBatch
  import opened WriterProtocol

  const EXECUTION_CHILD_TABLES: seq<Table> := [ExecutionLogs, ExecutionRequests, UserSpans, LogEntries]
  const EXECUTION_OWNED_CHILD_TABLES: seq<Table> := [ExecutionRequests, UserSpans, LogEntries]

  /** The rows an SQL `DELETE` with condition `where` leaves. */
  function DeleteWhere(rows: seq<Row>, where: Row -> bool): (r: seq<Row>) {
    if rows == [] then [] else
    var init, last := DeleteWhere(rows[..|rows| - 1], where), rows[|rows| - 1];
    if where(last) then init else init + [last]
  }

  lemma {:induction false} DeleteTwice(rows: seq<Row>, a: Row -> bool, b: Row -> bool, both: Row -> bool)
    requires forall r :: both(r) == (a(r) || b(r))
    ensures DeleteWhere(DeleteWhere(rows, a), b) == DeleteWhere(rows, both)
  {
    if rows != [] {
      var n := |rows| - 1;
      DeleteTwice(rows[..n], a, b, both);
      assert (DeleteWhere(rows[..n], a) + [rows[n]])[..|DeleteWhere(rows[..n], a)|] == DeleteWhere(rows[..n], a);
    }
  }

  lemma {:induction false} DeleteAgrees(from: seq<Row>, rows: seq<Row>, id: string, where: Row -> bool)
    requires forall r :: r in from ==> where(r) == Doomed(r, rows, id)
    ensures DeleteWhere(from, where) == Surviving(from, rows, id)
  {
    if from != [] {
      DeleteAgrees(from[..|from| - 1], rows, id, where);
    }
  }

  function ExecutionsOf(rows: seq<Row>, id: string): set<string> {
    set r | r in rows && r.table == Executions && r.functionId == id :: r.executionId
  }

  function ChildOf(t: Table, executions: set<string>): Row -> bool {
    (r: Row) => r.table == t && r.executionId in executions
  }

  function OwnedIn(t: Table, id: string): Row -> bool {
    (r: Row) => r.table == t && r.functionId == id
  }

  /** Deleting table by table, over the first `n` tables of a list. */
  function ChildrenOf(tables: seq<Table>, executions: set<string>): Row -> bool {
    (r: Row) => r.table in tables && r.executionId in executions
  }

  function OwnedInAny(tables: seq<Table>, id: string): Row -> bool {
    (r: Row) => r.table in tables && r.functionId == id
  }

  lemma OwnersGrow(batch: seq<Job>, i: nat)
    requires i < |batch|
    ensures Owners(batch[..i + 1]) == Owners(batch[..i]) + (if batch[i].functionId == "" then {} else {batch[i].functionId})
  {
    assert batch[..i + 1] == batch[..i] + [batch[i]];
  }

  lemma OwnersOfPrefix(batch: seq<Job>, i: nat)
    requires i <= |batch|
    ensures Owners(batch[..i]) <= Owners(batch)
  {
    assert batch == batch[..i] + batch[i..];
  }

  lemma KeepGrows(batch: seq<Job>, i: nat, functions: set<string>)
    requires i < |batch|
    ensures Keep(batch[..i + 1], functions)
         == if Alive(batch[i], functions) then Keep(batch[..i], functions) + [batch[i]] else Keep(batch[..i], functions)
    ensures Gone(batch[..i + 1], functions)
         == if Alive(batch[i], functions) then Gone(batch[..i], functions) else Gone(batch[..i], functions) + [batch[i]]
  {
    assert batch[..i + 1][..i] == batch[..i];
  }

  class Database {
    var functions: set<string>
    var liveFunctions: set<string>
    var rows: seq<Row>

    ghost predicate Valid()
      reads this
    {
      liveFunctions <= functions
    }

    constructor ()
      ensures Valid() && functions == liveFunctions == {} && rows == []
    {
      functions, liveFunctions, rows := {}, {}, [];
    }

    /** Holds the lifecycle lock throughout; the cache learns the id only if the INSERT worked. */
    method InsertFunction(id: string, insertFails: bool) returns (ok: bool)
      requires Valid()
      modifies this
      ensures Valid() && rows == old(rows) && ok == !insertFails
      ensures functions == old(functions) + (if ok then {id} else {})
      ensures liveFunctions == old(liveFunctions) + (if ok then {id} else {})
    {
      if insertFails {
        return false;
      }
      functions := functions + {id};
      liveFunctions := liveFunctions + {id};
      ok := true;
    }

    /** One transaction: children by execution, owned children by function, then the function. */
    method DeleteFunction(id: string, fails: bool) returns (ok: bool)
      requires Valid()
      modifies this
      ensures Valid() && ok == !fails
      ensures !ok ==> functions == old(functions) && liveFunctions == old(liveFunctions) && rows == old(rows)
      ensures ok ==> functions == old(functions) - {id} && liveFunctions == old(liveFunctions) - {id}
      ensures ok ==> rows == Surviving(old(rows), old(rows), id)
    {
      var children := DeleteExecutionChildren(rows, ExecutionsOf(rows, id));
      var owned := DeleteOwnedChildren(children, id);
      // ON DELETE CASCADE removes the function's executions with the function row.
      var tx := DeleteWhere(owned, OwnedIn(Executions, id));
      DeletionIsSurviving(rows, id, children, tx);
      if fails {
        return false;
      }
      rows := tx;
      functions := functions - {id};
      liveFunctions := liveFunctions - {id};
      ok := true;
    }

    /** Answers remembered from the table, and that the cache learned those that were yes. */
    ghost predicate Remembered(known: map<string, bool>)
      reads this
    {
      forall id :: id in known ==> known[id] == (id in functions) && (known[id] ==> id in liveFunctions)
    }

    /** Asks the table whether a function exists and remembers the answer. */
    method Ask(id: string, known: map<string, bool>) returns (alive: bool, more: map<string, bool>)
      requires Valid() && Remembered(known)
      modifies this`liveFunctions
      ensures Valid() && Remembered(more) && alive == (id in functions)
      ensures more == known[id := alive] && liveFunctions == old(liveFunctions) + {id} * functions
    {
      alive := id in functions;
      more := known[id := alive];
      if alive {
        liveFunctions := liveFunctions + {id};
      }
    }

    /**
     Splits a batch by whether each job's function exists, consulting the cache first and asking
     the table at most once per id. `failAt` is the job at which such a question fails, if asked.
     */
    method FilterDeleted(batch: seq<Job>, failAt: nat)
      returns (failed: bool, keep: seq<Job>, discarded: seq<Job>, asked: seq<string>)
      requires Valid()
      modifies this`liveFunctions
      ensures Valid() && old(liveFunctions) <= liveFunctions
      ensures failed ==> keep == batch && discarded == []
      ensures !failed ==> keep == Keep(batch, functions) && discarded == Gone(batch, functions)
      ensures !failed ==> liveFunctions == old(liveFunctions) + Owners(batch) * functions
      ensures forall i, j :: 0 <= i < j < |asked| ==> asked[i] != asked[j]
      ensures forall id :: id in asked ==> id in Owners(batch) && id !in old(liveFunctions)
      ensures !failed ==> forall id :: id in Owners(batch) && id !in old(liveFunctions) ==> id in asked
    {
      ghost var cached := liveFunctions;
      var known: map<string, bool> := map[];
      keep, discarded, asked := [], [], [];
      var i := 0;
      while i < |batch|
        invariant 0 <= i <= |batch| && Valid() && Remembered(known)
        invariant liveFunctions == cached + Owners(batch[..i]) * functions
        invariant keep == Keep(batch[..i], functions) && discarded == Gone(batch[..i], functions)
        invariant known.Keys == Owners(batch[..i]) - cached
        invariant forall k, m :: 0 <= k < m < |asked| ==> asked[k] != asked[m]
        invariant forall id :: id in asked <==> id in known
      {
        var job := batch[i];
        var alive := true;
        OwnersGrow(batch, i);
        if job.functionId != "" && job.functionId !in liveFunctions {
          if job.functionId in known {
            alive := known[job.functionId];
          } else {
            if i == failAt {
              OwnersOfPrefix(batch, i);
              return true, batch, [], asked;
            }
            alive, known := Ask(job.functionId, known);
            asked := asked + [job.functionId];
          }
        }
        KeepGrows(batch, i, functions);
        if alive {
          keep := keep + [job];
        } else {
          discarded := discarded + [job];
        }
        i := i + 1;
      }
      assert batch[..i] == batch;
      failed := false;
    }

    /**
     One savepoint per job. A failing statement may leave `debris[i]` behind before it is rolled
     back to its savepoint; a failing savepoint command or COMMIT undoes the whole transaction.
     */
    method CommitIsolated(batch: seq<Job>, beginFails: bool, savepointFailsAt: nat, commitFails: bool,
                          verdicts: seq<Verdict>, debris: seq<seq<Row>>)
      returns (outcome: Outcome, retry: seq<Job>, resolved: seq<Job>, shed: nat)
      requires |verdicts| == |debris| == |batch|
      modifies this`rows
      ensures outcome == if beginFails || savepointFailsAt < |batch| || commitFails then NotApplied else Isolated(verdicts)
      ensures rows == old(rows) + RowsOf(WrittenBy(batch, outcome))
      ensures outcome.NotApplied? ==> retry == batch && resolved == [] && shed == 0
      ensures outcome.Isolated? ==>
                && retry == Retry(batch, verdicts) && resolved == Resolved(batch, verdicts)
                && shed == |Shed(batch, verdicts)|
    {
      assert rows == rows + RowsOf([]);
      if beginFails {
        return NotApplied, batch, [], 0;
      }
      var tx := rows;
      retry, resolved, shed := [], [], 0;
      var i := 0;
      while i < |batch|
        invariant 0 <= i <= |batch| && i <= savepointFailsAt
        invariant rows == old(rows) && tx == rows + RowsOf(Written(batch[..i], verdicts[..i]))
        invariant retry == Retry(batch[..i], verdicts[..i]) && resolved == Resolved(batch[..i], verdicts[..i])
        invariant shed == |Shed(batch[..i], verdicts[..i])|
      {
        if i == savepointFailsAt {
          return NotApplied, batch, [], 0;
        }
        var savepoint := tx;
        var j := batch[i];
        assert batch[..i + 1][..i] == batch[..i] && verdicts[..i + 1][..i] == verdicts[..i];
        if verdicts[i] == Accepted {
          tx := tx + [RowOf(j)];
          resolved := resolved + [j];
          assert RowsOf(Written(batch[..i], verdicts[..i]) + [j])
              == RowsOf(Written(batch[..i], verdicts[..i])) + [RowOf(j)];
        } else {
          tx := tx + debris[i];
          tx := savepoint;
          j := j.(attempts := j.attempts + 1);
          if verdicts[i] == Permanent || j.attempts >= MAX_JOB_ATTEMPTS {
            shed := shed + 1;
            resolved := resolved + [batch[i]];
          } else {
            retry := retry + [j];
          }
        }
        i := i + 1;
      }
      assert batch[..i] == batch && verdicts[..i] == verdicts;
      if commitFails {
        return NotApplied, batch, [], 0;
      }
      rows := tx;
      outcome := Isolated(verdicts);
    }

    /**
     One commit pass over a batch: filter, one transaction for the whole batch, and the isolated
     pass if a statement of it fails. `retry` is what the caller must hold and try again, and
     `released` the jobs whose completion slots were returned.
     */
    method Commit(batch: seq<Job>, failAt: nat, beginFails: bool, statementFails: bool, commitFails: bool,
                  isolatedBeginFails: bool, savepointFailsAt: nat, isolatedCommitFails: bool,
                  verdicts: seq<Verdict>, debris: seq<seq<Row>>)
      returns (filtered: bool, outcome: Outcome, retry: seq<Job>, released: seq<Job>)
      requires Valid()
      requires |verdicts| == |debris| == |Keep(batch, functions)|
      modifies this
      ensures Valid() && functions == old(functions)
      ensures !filtered ==> outcome == NotApplied && retry == batch && released == [] && rows == old(rows)
      ensures outcome.Isolated? ==> outcome.verdicts == verdicts
      ensures filtered ==> rows == old(rows) + RowsOf(WrittenBy(Keep(batch, functions), outcome))
      ensures filtered ==> retry == RetryOf(Keep(batch, functions), outcome)
      ensures filtered ==> released == Gone(batch, functions) + ResolvedOf(Keep(batch, functions), outcome)
      ensures filtered ==>
                var work := Keep(batch, functions);
                && (outcome.Grouped? <==> work != [] && !beginFails && !statementFails && !commitFails)
                && (outcome.Isolated? <==> work != [] && !beginFails && statementFails && !isolatedBeginFails
                                           && savepointFailsAt >= |work| && !isolatedCommitFails)
    {
      var failed, work, discarded, _ := FilterDeleted(batch, failAt);
      if failed {
        return false, NotApplied, batch, [];
      }
      filtered, released := true, discarded;
      assert rows == rows + RowsOf([]) && discarded == discarded + [];
      if work == [] || beginFails {
        return true, NotApplied, work, released;
      }
      if !statementFails {
        if commitFails {
          return true, NotApplied, work, released;
        }
        rows := rows + RowsOf(work);
        return true, Grouped, [], released + work;
      }
      var resolved, shed;
      outcome, retry, resolved, shed := CommitIsolated(work, isolatedBeginFails, savepointFailsAt, isolatedCommitFails, verdicts, debris);
      released := released + resolved;
    }
  }

  method DeleteExecutionChildren(rows: seq<Row>, executions: set<string>) returns (tx: seq<Row>)
    ensures tx == DeleteWhere(rows, ChildrenOf(EXECUTION_CHILD_TABLES, executions))
  {
    tx := rows;
    DeleteNothing(rows, ChildrenOf([], executions));
    var i := 0;
    while i < |EXECUTION_CHILD_TABLES|
      invariant 0 <= i <= |EXECUTION_CHILD_TABLES|
      invariant tx == DeleteWhere(rows, ChildrenOf(EXECUTION_CHILD_TABLES[..i], executions))
    {
      var t := EXECUTION_CHILD_TABLES[i];
      assert EXECUTION_CHILD_TABLES[..i + 1] == EXECUTION_CHILD_TABLES[..i] + [t];
      DeleteTwice(rows, ChildrenOf(EXECUTION_CHILD_TABLES[..i], executions), ChildOf(t, executions),
                  ChildrenOf(EXECUTION_CHILD_TABLES[..i + 1], executions));
      tx := DeleteWhere(tx, ChildOf(t, executions));
      i := i + 1;
    }
    assert EXECUTION_CHILD_TABLES[..i] == EXECUTION_CHILD_TABLES;
  }

  method DeleteOwnedChildren(rows: seq<Row>, id: string) returns (tx: seq<Row>)
    ensures tx == DeleteWhere(rows, OwnedInAny(EXECUTION_OWNED_CHILD_TABLES, id))
  {
    tx := rows;
    DeleteNothing(rows, OwnedInAny([], id));
    var i := 0;
    while i < |EXECUTION_OWNED_CHILD_TABLES|
      invariant 0 <= i <= |EXECUTION_OWNED_CHILD_TABLES|
      invariant tx == DeleteWhere(rows, OwnedInAny(EXECUTION_OWNED_CHILD_TABLES[..i], id))
    {
      var t := EXECUTION_OWNED_CHILD_TABLES[i];
      assert EXECUTION_OWNED_CHILD_TABLES[..i + 1] == EXECUTION_OWNED_CHILD_TABLES[..i] + [t];
      DeleteTwice(rows, OwnedInAny(EXECUTION_OWNED_CHILD_TABLES[..i], id), OwnedIn(t, id),
                  OwnedInAny(EXECUTION_OWNED_CHILD_TABLES[..i + 1], id));
      tx := DeleteWhere(tx, OwnedIn(t, id));
      i := i + 1;
    }
    assert EXECUTION_OWNED_CHILD_TABLES[..i] == EXECUTION_OWNED_CHILD_TABLES;
  }

  lemma {:induction false} DeleteNothing(rows: seq<Row>, where: Row -> bool)
    requires forall r :: r in rows ==> !where(r)
    ensures DeleteWhere(rows, where) == rows
  {
    if rows != [] {
      DeleteNothing(rows[..|rows| - 1], where);
    }
  }

  ghost function OwnedOrNaming(id: string): Row -> bool {
    (r: Row) => OwnedInAny(EXECUTION_OWNED_CHILD_TABLES, id)(r) || OwnedIn(Executions, id)(r)
  }

  ghost function DeletedWith(executions: set<string>, id: string): Row -> bool {
    (r: Row) => ChildrenOf(EXECUTION_CHILD_TABLES, executions)(r) || OwnedOrNaming(id)(r)
  }

  /** The three groups of DELETE statements amount to removing the doomed rows. */
  lemma DeletionIsSurviving(rows: seq<Row>, id: string, children: seq<Row>, tx: seq<Row>)
    requires children == DeleteWhere(rows, ChildrenOf(EXECUTION_CHILD_TABLES, ExecutionsOf(rows, id)))
    requires tx == DeleteWhere(DeleteWhere(children, OwnedInAny(EXECUTION_OWNED_CHILD_TABLES, id)),
                               OwnedIn(Executions, id))
    ensures tx == Surviving(rows, rows, id)
  {
    var executions := ExecutionsOf(rows, id);
    DeleteTwice(children, OwnedInAny(EXECUTION_OWNED_CHILD_TABLES, id), OwnedIn(Executions, id), OwnedOrNaming(id));
    DeleteTwice(rows, ChildrenOf(EXECUTION_CHILD_TABLES, executions), OwnedOrNaming(id), DeletedWith(executions, id));
    forall r | r in rows ensures DeletedWith(executions, id)(r) == Doomed(r, rows, id) {
      DeletedIsDoomed(rows, id, r);
    }
    DeleteAgrees(rows, rows, id, DeletedWith(executions, id));
  }

  lemma DeletedIsDoomed(rows: seq<Row>, id: string, r: Row)
    requires r in rows
    ensures DeletedWith(ExecutionsOf(rows, id), id)(r) == Doomed(r, rows, id)
  {
    assert r.table in EXECUTION_CHILD_TABLES <==> r.table != Executions;
    assert OwnedInAny(EXECUTION_OWNED_CHILD_TABLES, id)(r)
      <==> r.table in EXECUTION_OWNED_CHILD_TABLES && r.functionId == id;
    assert OwnedIn(Executions, id)(r) <==> r.table == Executions && r.functionId == id;
    assert OwnedOrNaming(id)(r) <==> r.table != ExecutionLogs && r.functionId == id;
  }
}
