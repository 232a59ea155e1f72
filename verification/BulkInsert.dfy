/** Grouping neighbouring INSERTs of one batch into multi-row statements. */
module BulkInsert {
  import opened Wrappers

  /** The most binds a grouped statement may have, in any number of rows. */
  const MAX_BULK_INSERT_ARGS: nat := 850
  const VALUES: string := "VALUES ("

  datatype Statement = Statement(sql: string, args: seq<string>, bulkInsert: bool)

  /** One call to the database: `text` bound to `args`, standing for `work[from..upto]`. */
  datatype Call = Call(text: string, args: seq<string>, from: nat, upto: nat)

  function AllArgs(work: seq<Statement>): seq<string> {
    if work == [] then [] else AllArgs(work[..|work| - 1]) + work[|work| - 1].args
  }

  lemma AllArgsOne(j: Statement)
    ensures AllArgs([j]) == j.args
  {
    assert [j][..0] == [] && AllArgs([j][..0]) == [];
  }

  /** Whether job `end` may join a group that started with `first` and binds `bound` arguments. */
  predicate Joins(work: seq<Statement>, first: Statement, end: nat, bound: nat)
    requires end < |work|
  {
    work[end].bulkInsert && work[end].sql == first.sql && bound + |work[end].args| <= MAX_BULK_INSERT_ARGS
  }

  method BulkGroupEnd(work: seq<Statement>, start: nat) returns (end: nat, argCount: nat)
    requires start < |work|
    ensures start < end <= |work| && argCount == |AllArgs(work[start..end])|
    ensures forall i :: start < i < end ==> work[i].bulkInsert && work[i].sql == work[start].sql
    ensures end == start + 1 || argCount <= 850
    ensures end < |work| ==> !Joins(work, work[start], end, argCount)
  {
    var first := work[start];
    end, argCount := start + 1, |first.args|;
    assert work[start..end] == [first];
    AllArgsOne(first);
    while end < |work| && Joins(work, first, end, argCount)
      invariant start < end <= |work| && argCount == |AllArgs(work[start..end])|
      invariant forall i :: start < i < end ==> work[i].bulkInsert && work[i].sql == first.sql
      invariant end == start + 1 || argCount <= MAX_BULK_INSERT_ARGS
    {
      assert work[start..end + 1][..end - start] == work[start..end];
      argCount := argCount + |work[end].args|;
      end := end + 1;
    }
  }

  // ---------------------------------------------------------------- the statement text

  predicate OccursAt(s: string, sub: string, k: int) {
    0 <= k <= |s| - |sub| && s[k..k + |sub|] == sub
  }

  /** The last position at or before `from` at which `sub` occurs in `s`, or -1. */
  function LastIndex(s: string, sub: string, from: int): (i: int)
    ensures i == -1 || (i <= from && OccursAt(s, sub, i))
    ensures forall k :: i < k <= from ==> !OccursAt(s, sub, k)
    decreases from + 1
  {
    if from < 0 then -1 else if OccursAt(s, sub, from) then from else LastIndex(s, sub, from - 1)
  }

  /** Where the VALUES tuple starts: just before the parenthesis of the last "VALUES (". */
  function TupleStart(statement: string): (cut: int)
    ensures -1 <= cut <= |statement|
  {
    var idx := LastIndex(statement, VALUES, |statement|);
    if idx < 0 then -1 else idx + |VALUES| - 1
  }

  predicate Space(c: char) {
    c in " \t\n\r" || c as int in {11, 12, 133, 160, 5760, 8232, 8233, 8239, 8287, 12288} || 8192 <= c as int <= 8202
  }

  function TrimSpace(s: string): (t: string)
    ensures t != [] ==> !Space(t[0]) && !Space(t[|t| - 1])
  {
    if s == [] then []
    else if Space(s[0]) then TrimSpace(s[1..])
    else if Space(s[|s| - 1]) then TrimSpace(s[..|s| - 1])
    else s
  }

  /** `tuple` repeated `rows` times, separated by commas. */
  function Tuples(tuple: string, rows: nat): string {
    if rows == 0 then "" else if rows == 1 then tuple else Tuples(tuple, rows - 1) + "," + tuple
  }

  /** The text up to and including "VALUES ", and the tuple that follows it. */
  function Parts(statement: string): Option<(string, string)> {
    var cut := TupleStart(statement);
    if cut < 0 then None else
    var tuple := TrimSpace(statement[cut..]);
    if tuple == [] || tuple[0] != '(' || tuple[|tuple| - 1] != ')' then None
    else Some((statement[..cut], tuple))
  }

  /** The multi-row text, or "" when the statement has no trailing VALUES tuple to repeat. */
  function BulkText(statement: string, rows: nat): string {
    if rows < 2 || Parts(statement).None? then ""
    else Parts(statement).value.0 + Tuples(Parts(statement).value.1, rows)
  }

  method BulkInsertSQL(statement: string, rows: nat) returns (text: string)
    ensures text == BulkText(statement, rows)
  {
    if rows < 2 {
      return "";
    }
    var cut := TupleStart(statement);
    if cut < 0 {
      return "";
    }
    var prefix, tuple := statement[..cut], TrimSpace(statement[cut..]);
    if tuple == [] || tuple[0] != '(' || tuple[|tuple| - 1] != ')' {
      return "";
    }
    text := RepeatTuple(prefix, tuple, rows);
  }

  /** There is a multi-row text exactly if there is a tuple to repeat. */
  lemma BulkTextIff(statement: string, rows: nat)
    requires rows >= 2
    ensures BulkText(statement, rows) != "" <==> Parts(statement).Some?
  {
    if Parts(statement).Some? {
      assert |Tuples(Parts(statement).value.1, rows)| >= 1;
    }
  }

  /** The statement is `head`, "VALUES ", the last tuple in parentheses, and white space. */
  predicate EndsInTuple(statement: string, head: string, inner: string, tail: string) {
    && statement == head + VALUES + inner + ")" + tail && (forall c :: c in tail ==> Space(c))
    && forall k :: |head| < k <= |statement| ==> !OccursAt(statement, VALUES, k)
  }

  /** The text reads as this tuple `rows` times, with a comma between one and the next. */
  predicate ReadsAsRows(text: string, tuple: string, rows: nat)
    requires rows >= 1
    decreases rows
  {
    if rows == 1 then text == tuple
    else tuple + "," <= text && ReadsAsRows(text[|tuple| + 1..], tuple, rows - 1)
  }

  lemma {:induction false} TuplesFromFront(tuple: string, rows: nat)
    requires rows >= 1
    ensures Tuples(tuple, rows + 1) == tuple + "," + Tuples(tuple, rows)
  {
    if rows > 1 {
      TuplesFromFront(tuple, rows - 1);
      assert (tuple + "," + Tuples(tuple, rows - 1)) + "," + tuple == tuple + "," + (Tuples(tuple, rows - 1) + "," + tuple);
    }
  }

  lemma {:induction false} TuplesReadAsRows(tuple: string, rows: nat)
    requires rows >= 1
    ensures ReadsAsRows(Tuples(tuple, rows), tuple, rows)
  {
    if rows > 1 {
      TuplesReadAsRows(tuple, rows - 1);
      TuplesFromFront(tuple, rows - 1);
      assert (tuple + "," + Tuples(tuple, rows - 1))[|tuple| + 1..] == Tuples(tuple, rows - 1);
    }
  }

  lemma {:induction false} TrimDropsTail(core: string, tail: string)
    requires core != [] && !Space(core[0]) && !Space(core[|core| - 1]) && forall c :: c in tail ==> Space(c)
    ensures TrimSpace(core + tail) == core
    decreases |tail|
  {
    var s := core + tail;
    if tail == [] {
      assert s == core;
    } else {
      TrimDropsTail(core, tail[..|tail| - 1]);
      assert s[..|s| - 1] == core + tail[..|tail| - 1] && s[|s| - 1] in tail;
    }
  }

  lemma TuplePart(statement: string, head: string, inner: string, tail: string)
    requires EndsInTuple(statement, head, inner, tail)
    ensures Parts(statement) == Some((head + "VALUES ", "(" + inner + ")"))
  {
    assert OccursAt(statement, VALUES, |head|);
    TupleStartsAt(statement, |head|);
    var core, cut := "(" + inner + ")", |head| + 7;
    assert statement[cut..] == core + tail && statement[..cut] == head + "VALUES ";
    assert !Space('(') && !Space(')');
    TrimDropsTail(core, tail);
  }

  /** A multi-row text repeats the statement's last tuple, separated by commas, behind what comes before it. */
  lemma BulkTextRepeats(statement: string, head: string, inner: string, tail: string, rows: nat)
    requires rows >= 2 && EndsInTuple(statement, head, inner, tail)
    ensures var text, cut := BulkText(statement, rows), |head| + 7;
            && cut <= |text| && text[..cut] == head + "VALUES "
            && ReadsAsRows(text[cut..], "(" + inner + ")", rows)
  {
    TuplePart(statement, head, inner, tail);
    TuplesReadAsRows("(" + inner + ")", rows);
    var front, rest := head + "VALUES ", Tuples("(" + inner + ")", rows);
    assert (front + rest)[..|front|] == front && (front + rest)[|front|..] == rest;
  }

  lemma {:induction false} TrimIsPrefix(s: string) returns (n: nat)
    requires s != [] && !Space(s[0])
    ensures 0 < n <= |s| && TrimSpace(s) == s[..n] && forall i :: n <= i < |s| ==> Space(s[i])
  {
    if Space(s[|s| - 1]) {
      n := TrimIsPrefix(s[..|s| - 1]);
      assert s[..|s| - 1][..n] == s[..n];
    } else {
      n := |s|;
    }
  }

  /** A text in parentheses, but for the white space behind it. */
  lemma Parenthesised(rest: string) returns (inner: string, tail: string)
    requires rest != [] && rest[0] == '(' && TrimSpace(rest) != [] && TrimSpace(rest)[|TrimSpace(rest)| - 1] == ')'
    ensures rest == "(" + inner + ")" + tail && forall c :: c in tail ==> Space(c)
  {
    assert !Space('(');
    var n := TrimIsPrefix(rest);
    inner, tail := rest[1..n - 1], rest[n..];
  }

  lemma PartsSplit(statement: string) returns (head: string, inner: string, tail: string)
    requires Parts(statement).Some?
    ensures EndsInTuple(statement, head, inner, tail)
  {
    var at := LastIndex(statement, VALUES, |statement|);
    var rest := statement[at + 7..];
    assert statement[at..at + 8][7] == VALUES[7];
    head := statement[..at];
    inner, tail := Parenthesised(rest);
    SplitAt(statement, at, rest, inner + ")" + tail);
  }

  lemma SplitAt(statement: string, at: nat, rest: string, inside: string)
    requires OccursAt(statement, VALUES, at) && rest == statement[at + 7..] == "(" + inside
    ensures statement == statement[..at] + VALUES + inside
  {
    assert statement == statement[..at] + statement[at..at + 8] + statement[at + 8..];
    assert statement[at + 8..] == rest[1..] == inside;
  }

  /** A batch's INSERTs are grouped only if their text ends in a tuple. */
  lemma GroupedIff(statement: string, rows: nat)
    requires rows >= 2
    ensures BulkText(statement, rows) != "" <==> exists head, inner, tail :: EndsInTuple(statement, head, inner, tail)
  {
    BulkTextIff(statement, rows);
    if Parts(statement).Some? {
      var head, inner, tail := PartsSplit(statement);
    }
    if head, inner, tail :| EndsInTuple(statement, head, inner, tail) {
      TuplePart(statement, head, inner, tail);
    }
  }

  method RepeatTuple(prefix: string, tuple: string, rows: nat) returns (text: string)
    ensures text == prefix + Tuples(tuple, rows)
  {
    text := prefix;
    var i := 0;
    while i < rows
      invariant 0 <= i <= rows && text == prefix + Tuples(tuple, i)
    {
      assert prefix + Tuples(tuple, i) + "," + tuple == prefix + (Tuples(tuple, i) + "," + tuple);
      if i > 0 {
        text := text + ",";
      }
      text := text + tuple;
      i := i + 1;
    }
  }

  function Placeholders(s: string): nat {
    if s == [] then 0 else Placeholders(s[..|s| - 1]) + if s[|s| - 1] == '?' then 1 else 0
  }

  lemma {:induction false} PlaceholdersConcat(a: string, b: string)
    ensures Placeholders(a + b) == Placeholders(a) + Placeholders(b)
  {
    if b == [] {
      assert a + b == a;
    } else {
      PlaceholdersConcat(a, b[..|b| - 1]);
      assert (a + b)[..|a + b| - 1] == a + b[..|b| - 1];
    }
  }

  lemma {:induction false} PlaceholdersTrim(s: string)
    ensures Placeholders(TrimSpace(s)) == Placeholders(s)
  {
    if s != [] {
      PlaceholdersConcat([s[0]], s[1..]);
      assert s == [s[0]] + s[1..] && [s[0]][..0] == [];
      if Space(s[0]) {
        PlaceholdersTrim(s[1..]);
      } else if Space(s[|s| - 1]) {
        PlaceholdersTrim(s[..|s| - 1]);
      }
    }
  }

  lemma RowsTimes(n: nat, m: nat)
    ensures n * m + m == (n + 1) * m
  {
  }

  lemma OneMoreTuple(tuple: string, rows: nat)
    requires rows > 1
    ensures Placeholders(Tuples(tuple, rows)) == Placeholders(Tuples(tuple, rows - 1)) + Placeholders(tuple)
  {
    PlaceholdersConcat(Tuples(tuple, rows - 1) + ",", tuple);
    PlaceholdersConcat(Tuples(tuple, rows - 1), ",");
    CommaBindsNothing();
  }

  lemma {:induction false} PlaceholdersTuples(tuple: string, rows: nat)
    ensures Placeholders(Tuples(tuple, rows)) == rows * Placeholders(tuple)
  {
    if rows > 1 {
      PlaceholdersTuples(tuple, rows - 1);
      OneMoreTuple(tuple, rows);
      RowsTimes(rows - 1, Placeholders(tuple));
    }
  }

  lemma CommaBindsNothing()
    ensures Placeholders(",") == 0
  {
    assert ","[..0] == [];
  }

  /** Every argument is bound inside the repeated tuple. */
  predicate BindsInTuple(sql: string) {
    Parts(sql).Some? ==> Placeholders(Parts(sql).value.0) == 0
  }

  lemma PartsPlaceholders(sql: string)
    requires Parts(sql).Some?
    ensures Placeholders(sql) == Placeholders(Parts(sql).value.0) + Placeholders(Parts(sql).value.1)
  {
    var cut := TupleStart(sql);
    assert sql == sql[..cut] + sql[cut..];
    PlaceholdersConcat(sql[..cut], sql[cut..]);
    PlaceholdersTrim(sql[cut..]);
  }

  /** A multi-row text takes `rows` times the arguments of the statement it repeats. */
  lemma BulkTextPlaceholders(sql: string, rows: nat)
    requires rows >= 2 && Parts(sql).Some? && BindsInTuple(sql)
    ensures Placeholders(BulkText(sql, rows)) == rows * Placeholders(sql)
  {
    TuplePlaceholders(sql);
    BulkTextIs(sql, rows);
    RepeatedPlaceholders(Parts(sql).value.0, Parts(sql).value.1, rows, Placeholders(sql));
  }

  lemma BulkTextIs(sql: string, rows: nat)
    requires rows >= 2 && Parts(sql).Some?
    ensures BulkText(sql, rows) == Parts(sql).value.0 + Tuples(Parts(sql).value.1, rows)
  {
  }

  lemma TuplePlaceholders(sql: string)
    requires Parts(sql).Some? && BindsInTuple(sql)
    ensures Placeholders(Parts(sql).value.0) == 0 && Placeholders(Parts(sql).value.1) == Placeholders(sql)
  {
    PartsPlaceholders(sql);
  }

  lemma RepeatedPlaceholders(prefix: string, tuple: string, rows: nat, each: nat)
    requires Placeholders(prefix) == 0 && Placeholders(tuple) == each
    ensures Placeholders(prefix + Tuples(tuple, rows)) == rows * each
  {
    PlaceholdersTuples(tuple, rows);
    PlaceholdersConcat(prefix, Tuples(tuple, rows));
  }

  // ---------------------------------------------------------------- executing a batch

  /** Running every job's own statement in order; `None` once one of them fails. */
  function OneByOne<D>(run: (D, string, seq<string>) -> Option<D>, d: D, work: seq<Statement>): Option<D>
    decreases |work|
  {
    if work == [] then Some(d)
    else match run(d, work[0].sql, work[0].args)
      case None => None
      case Some(d') => OneByOne(run, d', work[1..])
  }

  /** Each bulk job supplies exactly the arguments its tuple takes. */
  predicate WellBound(work: seq<Statement>) {
    forall j :: j in work && j.bulkInsert ==> BindsInTuple(j.sql) && |j.args| == Placeholders(j.sql)
  }

  predicate Uniform(group: seq<Statement>) {
    group != [] && forall j :: j in group ==> j.bulkInsert && j.sql == group[0].sql
  }

  /** What the database promises: a multi-row INSERT is its rows inserted one after the other. */
  ghost predicate MultiRowInsert<D(!new)>(run: (D, string, seq<string>) -> Option<D>) {
    forall d: D, group: seq<Statement> :: Uniform(group) && WellBound(group) && BulkText(group[0].sql, |group|) != "" ==>
      run(d, BulkText(group[0].sql, |group|), AllArgs(group)) == OneByOne(run, d, group)
  }

  lemma {:induction false} OneByOneConcat<D>(run: (D, string, seq<string>) -> Option<D>, d: D,
                                             a: seq<Statement>, b: seq<Statement>)
    ensures OneByOne(run, d, a + b)
         == match OneByOne(run, d, a) case None => None case Some(d') => OneByOne(run, d', b)
    decreases |a|
  {
    if a == [] {
      assert a + b == b;
    } else {
      assert (a + b)[1..] == a[1..] + b;
      match run(d, a[0].sql, a[0].args)
      case None =>
      case Some(d') => OneByOneConcat(run, d', a[1..], b);
    }
  }

  lemma {:induction false} AllArgsConcat(a: seq<Statement>, b: seq<Statement>)
    ensures AllArgs(a + b) == AllArgs(a) + AllArgs(b)
  {
    if b == [] {
      assert a + b == a;
    } else {
      var init, last := b[..|b| - 1], b[|b| - 1];
      AllArgsConcat(a, init);
      assert (a + b)[..|a + b| - 1] == a + init;
      assert (AllArgs(a) + AllArgs(init)) + last.args == AllArgs(a) + (AllArgs(init) + last.args);
    }
  }

  /** A call stands for one job, or for a run of bulk jobs of equal text within the bind budget. */
  predicate FaithfulCall(work: seq<Statement>, c: Call) {
    && c.from < c.upto <= |work| && c.args == AllArgs(work[c.from..c.upto])
    && (if c.upto == c.from + 1 then c.text == work[c.from].sql
        else && Uniform(work[c.from..c.upto]) && |c.args| <= 850
             && c.text == BulkText(work[c.from].sql, c.upto - c.from) != "")
  }

  /** The calls cover `work[..upto]`, without a gap or an overlap. */
  predicate Covers(work: seq<Statement>, calls: seq<Call>, upto: nat) {
    if calls == [] then upto == 0
    else
      var last := calls[|calls| - 1];
      last.upto == upto && FaithfulCall(work, last) && Covers(work, calls[..|calls| - 1], last.from)
  }

  /** No wider group could have been formed: the next job cannot join, or there is no tuple to repeat. */
  predicate Widest(work: seq<Statement>, c: Call) {
    && c.from < c.upto <= |work|
    && if !work[c.from].bulkInsert || Parts(work[c.from].sql).None? then c.upto == c.from + 1
       else
         c.upto < |work| && work[c.upto].bulkInsert && work[c.upto].sql == work[c.from].sql ==>
           |AllArgs(work[c.from..c.upto])| + |work[c.upto].args| > 850
  }

  lemma OwnCallIsFaithful(work: seq<Statement>, i: nat)
    requires i < |work|
    ensures FaithfulCall(work, Call(work[i].sql, work[i].args, i, i + 1))
  {
    assert work[i..i + 1] == [work[i]];
    AllArgsOne(work[i]);
  }

  lemma GroupCallIsFaithful(work: seq<Statement>, c: Call)
    requires c.from + 1 < c.upto <= |work| && work[c.from].bulkInsert
    requires forall k :: c.from < k < c.upto ==> work[k].bulkInsert && work[k].sql == work[c.from].sql
    requires c.args == AllArgs(work[c.from..c.upto]) && |c.args| <= MAX_BULK_INSERT_ARGS
    requires c.text == BulkText(work[c.from].sql, c.upto - c.from) != ""
    ensures FaithfulCall(work, c)
  {
  }

  /** Makes one call of a group of at least two jobs, if its statement has a tuple to repeat. */
  method GroupCall(work: seq<Statement>, i: nat, groupEnd: nat, args: seq<string>) returns (c: Option<Call>)
    requires i + 1 < groupEnd <= |work| && work[i].bulkInsert
    requires forall k :: i < k < groupEnd ==> work[k].bulkInsert && work[k].sql == work[i].sql
    requires args == AllArgs(work[i..groupEnd]) && |args| <= MAX_BULK_INSERT_ARGS
    ensures c.Some? ==> c.value.from == i && c.value.upto == groupEnd && FaithfulCall(work, c.value)
    ensures c.None? <==> Parts(work[i].sql).None?
  {
    BulkTextIff(work[i].sql, groupEnd - i);
    var bulk := BulkInsertSQL(work[i].sql, groupEnd - i);
    if |bulk| == 0 {
      return None;
    }
    var group := Call(bulk, args, i, groupEnd);
    GroupCallIsFaithful(work, group);
    return Some(group);
  }

  /** The next call of a commit: a group where one can be formed, the job's own statement otherwise. */
  method NextCall(work: seq<Statement>, i: nat) returns (c: Call)
    requires i < |work|
    ensures c.from == i && FaithfulCall(work, c) && Widest(work, c)
  {
    var j := work[i];
    OwnCallIsFaithful(work, i);
    c := Call(j.sql, j.args, i, i + 1);
    if j.bulkInsert {
      var groupEnd, argCount := BulkGroupEnd(work, i);
      if groupEnd > i + 1 {
        var grouped := GroupCall(work, i, groupEnd, AllArgs(work[i..groupEnd]));
        if grouped.Some? {
          c := grouped.value;
        }
      }
    }
  }

  /**
   The statement loop of a commit. If every bulk job binds its own tuple, grouping changes neither which batches
   succeed nor what they leave: on success the database is as if every job's own statement had run in publish order.
   */
  method ExecuteStatements<D(!new)>(run: (D, string, seq<string>) -> Option<D>, start: D, work: seq<Statement>)
    returns (failedIdx: int, tx: D, calls: seq<Call>)
    requires MultiRowInsert(run)
    ensures -1 <= failedIdx < |work|
    ensures Covers(work, calls, if failedIdx < 0 then |work| else failedIdx)
    ensures forall c :: c in calls ==> Widest(work, c)
    ensures WellBound(work) ==> (failedIdx < 0 <==> OneByOne(run, start, work).Some?)
    ensures WellBound(work) && failedIdx < 0 ==> OneByOne(run, start, work) == Some(tx)
  {
    ghost var wellBound := WellBound(work);
    failedIdx, tx, calls := -1, start, [];
    var i := 0;
    while i < |work|
      invariant 0 <= i <= |work| && Covers(work, calls, i)
      invariant forall c :: c in calls ==> Widest(work, c)
      invariant wellBound ==> OneByOne(run, start, work[..i]) == Some(tx)
    {
      var c := NextCall(work, i);
      if wellBound {
        CallAdvances(run, start, tx, work, c);
      }
      var result := run(tx, c.text, c.args);
      if result.None? {
        return i, tx, calls;
      }
      CoversExtends(work, calls, c);
      tx := result.value;
      calls := calls + [c];
      i := c.upto;
    }
    assert work[..i] == work;
  }

  lemma CoversExtends(work: seq<Statement>, calls: seq<Call>, c: Call)
    requires Covers(work, calls, c.from) && FaithfulCall(work, c)
    ensures Covers(work, calls + [c], c.upto)
  {
    assert (calls + [c])[..|calls|] == calls;
  }

  /** Making the next call either extends the one-by-one run or shows that it fails. */
  lemma CallAdvances<D(!new)>(run: (D, string, seq<string>) -> Option<D>, start: D, d: D,
                              work: seq<Statement>, c: Call)
    requires MultiRowInsert(run) && WellBound(work) && FaithfulCall(work, c)
    requires OneByOne(run, start, work[..c.from]) == Some(d)
    ensures OneByOne(run, start, work[..c.upto]) == run(d, c.text, c.args)
    ensures run(d, c.text, c.args).None? ==> OneByOne(run, start, work).None?
  {
    GroupRuns(run, d, work, c);
    SplitRuns(run, start, d, work, c.from, c.upto);
  }

  /** The call chosen for a group does what the jobs of the group would have done. */
  lemma GroupRuns<D(!new)>(run: (D, string, seq<string>) -> Option<D>, d: D, work: seq<Statement>, c: Call)
    requires MultiRowInsert(run) && WellBound(work) && FaithfulCall(work, c)
    ensures run(d, c.text, c.args) == OneByOne(run, d, work[c.from..c.upto])
  {
    var group := work[c.from..c.upto];
    if c.upto == c.from + 1 {
      assert group == [work[c.from]];
      SingleRuns(run, d, work[c.from]);
    } else {
      assert group[0] == work[c.from] && |group| == c.upto - c.from && WellBound(group);
    }
  }

  lemma SingleRuns<D>(run: (D, string, seq<string>) -> Option<D>, d: D, j: Statement)
    ensures OneByOne(run, d, [j]) == run(d, j.sql, AllArgs([j]))
  {
    AllArgsOne(j);
    assert [j][1..] == [];
    match run(d, j.sql, j.args)
    case None =>
    case Some(d') => assert OneByOne(run, d', [j][1..]) == Some(d');
  }

  /** Once a group fails the whole batch fails; otherwise the groups compose. */
  lemma SplitRuns<D>(run: (D, string, seq<string>) -> Option<D>, start: D, d: D, work: seq<Statement>, i: nat, end: nat)
    requires i <= end <= |work| && OneByOne(run, start, work[..i]) == Some(d)
    ensures OneByOne(run, start, work[..end]) == OneByOne(run, d, work[i..end])
    ensures OneByOne(run, d, work[i..end]).None? ==> OneByOne(run, start, work).None?
  {
    assert work[..end] == work[..i] + work[i..end] && work == work[..end] + work[end..];
    OneByOneConcat(run, start, work[..i], work[i..end]);
    OneByOneConcat(run, start, work[..end], work[end..]);
  }

  // ---------------------------------------------------------------- what well-bound is for

  /** A database that only checks argument counts and remembers what was bound. */
  function Record(bound: seq<string>, text: string, args: seq<string>): Option<seq<string>> {
    if |args| == Placeholders(text) then Some(bound + args) else None
  }

  lemma {:induction false} RecordOneByOne(d: seq<string>, group: seq<Statement>, sql: string)
    requires forall j :: j in group ==> j.sql == sql && |j.args| == Placeholders(sql)
    ensures OneByOne(Record, d, group) == Some(d + AllArgs(group))
    ensures |AllArgs(group)| == |group| * Placeholders(sql)
    decreases |group|
  {
    if group == [] {
      assert d + [] == d;
    } else {
      var first, rest := group[0], group[1..];
      assert group == [first] + rest;
      AllArgsOne(first);
      AllArgsConcat([first], rest);
      RecordOneByOne(d + first.args, rest, sql);
      assert d + first.args + AllArgs(rest) == d + AllArgs(group);
      RowsTimes(|rest|, Placeholders(sql));
    }
  }

  lemma RecordIsMultiRow()
    ensures MultiRowInsert(Record)
  {
    forall d: seq<string>, group: seq<Statement> | Uniform(group) && WellBound(group) && BulkText(group[0].sql, |group|) != ""
      ensures Record(d, BulkText(group[0].sql, |group|), AllArgs(group)) == OneByOne(Record, d, group)
    {
      RecordOneByOne(d, group, group[0].sql);
      BulkTextPlaceholders(group[0].sql, |group|);
    }
  }

  /** Every job of a group has as many arguments as its own statement takes. */
  predicate AllFit(group: seq<Statement>) { forall j :: j in group ==> |j.args| == Placeholders(j.sql) }

  lemma {:induction false} OneMisfitFails(d: seq<string>, group: seq<Statement>)
    requires !AllFit(group)
    ensures OneByOne(Record, d, group).None?
    decreases |group|
  {
    if |group[0].args| == Placeholders(group[0].sql) {
      assert group == [group[0]] + group[1..];
      OneMisfitFails(d + group[0].args, group[1..]);
    }
  }

  /**
   A grouped call does what its jobs would have done one by one exactly if these are the same: that each job fits
   its own statement, and that together they fit the group's.
   */
  lemma GroupIsFaithfulIff(d: seq<string>, group: seq<Statement>)
    requires |group| >= 2 && Uniform(group) && Parts(group[0].sql).Some?
    ensures var text := BulkText(group[0].sql, |group|);
            Record(d, text, AllArgs(group)) == OneByOne(Record, d, group)
            <==> (AllFit(group) <==> |AllArgs(group)| == Placeholders(text))
  {
    if AllFit(group) {
      RecordOneByOne(d, group, group[0].sql);
    } else {
      OneMisfitFails(d, group);
    }
  }

  /** When the tuple takes all arguments, only jobs that misfit and together make up for it are the exception. */
  lemma GroupIsFaithfulUnlessMisfitsCancel(d: seq<string>, group: seq<Statement>)
    requires |group| >= 2 && Uniform(group) && Parts(group[0].sql).Some? && BindsInTuple(group[0].sql)
    ensures Record(d, BulkText(group[0].sql, |group|), AllArgs(group)) == OneByOne(Record, d, group)
            <==> WellBound(group) || |AllArgs(group)| != |group| * Placeholders(group[0].sql)
  {
    GroupIsFaithfulIff(d, group);
    BulkTextPlaceholders(group[0].sql, |group|);
    if AllFit(group) {
      RecordOneByOne(d, group, group[0].sql);
    }
    assert AllFit(group) <==> WellBound(group);
  }

  const ONE_COLUMN: string := "INSERT INTO t VALUES (?)"

  lemma {:induction false} NoPlaceholders(s: string)
    requires '?' !in s
    ensures Placeholders(s) == 0
  {
    if s != [] {
      NoPlaceholders(s[..|s| - 1]);
    }
  }

  /** The tuple starts behind the last "VALUES " before a parenthesis. */
  lemma TupleStartsAt(s: string, k: nat)
    requires OccursAt(s, VALUES, k) && forall i :: k < i <= |s| - |VALUES| ==> !OccursAt(s, VALUES, i)
    ensures TupleStart(s) == k + |VALUES| - 1
  {
  }

  lemma OtherLetter(s: string, k: nat)
    requires k < |s| && s[k] != 'V'
    ensures !OccursAt(s, VALUES, k)
  {
    if k + |VALUES| <= |s| {
      assert s[k..k + |VALUES|][0] == s[k] && VALUES[0] == 'V';
    }
  }

  lemma OneColumnTuple()
    ensures TupleStart(ONE_COLUMN) == 21
  {
    var s := ONE_COLUMN;
    assert s[14..22] == VALUES;
    OtherLetter(s, 15);
    OtherLetter(s, 16);
    TupleStartsAt(s, 14);
  }

  lemma OneColumnParts()
    ensures Parts(ONE_COLUMN) == Some(("INSERT INTO t VALUES ", "(?)"))
  {
    OneColumnTuple();
    assert ONE_COLUMN[21..] == "(?)" && ONE_COLUMN[..21] == "INSERT INTO t VALUES ";
    assert !Space('(') && !Space(')');
    assert TrimSpace("(?)") == "(?)";
  }

  lemma OneColumnPlaceholders()
    ensures BindsInTuple(ONE_COLUMN) && Placeholders(ONE_COLUMN) == 1
  {
    OneColumnParts();
    NoPlaceholders("INSERT INTO t VALUES ");
    assert "(?)"[..2] == "(?" && "(?"[..1] == "(" && "("[..0] == "";
    PartsPlaceholders(ONE_COLUMN);
  }

  /** Two jobs for a table of one column, one without a value and one with two: each fails, the pair is written. */
  lemma MisboundGroup(d: seq<string>, x: string, y: string)
    ensures var a, b := Statement(ONE_COLUMN, [], true), Statement(ONE_COLUMN, [x, y], true);
            && OneByOne(Record, d, [a, b]).None?
            && Record(d, BulkText(ONE_COLUMN, 2), AllArgs([a, b])) == Some(d + [x, y])
  {
    var a, b := Statement(ONE_COLUMN, [], true), Statement(ONE_COLUMN, [x, y], true);
    var group := [a, b];
    OneColumnParts();
    OneColumnPlaceholders();
    assert a in group;
    OneMisfitFails(d, group);
    BulkTextPlaceholders(ONE_COLUMN, 2);
    AllArgsOne(a);
    AllArgsOne(b);
    AllArgsConcat([a], [b]);
    assert group == [a] + [b] && [] + [x, y] == [x, y];
  }
}
