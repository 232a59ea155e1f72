/** The per-function key-value table: single operations, the atomic batch, the sweep and the listing. */
module KvStore {
  import opened Wrappers
  import opened KvNumbers
  import opened Paging

  const KV_MAX_KEY_RUNES: nat := 256
  const KV_MAX_VALUE_BYTES: nat := 64 * 1024
  const SECOND: int := 1_000_000_000
  const MAX_INT64: int := TWO_63 - 1
  const MAX_BATCH: nat := 100

  /** Times are nanoseconds; `expires` is the nullable expires_at column. */
  datatype Row = Row(value: string, expires: Option<int>, created: int, updated: int)

  datatype Key = Key(functionId: string, name: string)

  type Table = map<Key, Row>

  /** JSON validity and SQL's LIKE, which this model leaves open. */
  datatype Rules = Rules(json: string -> bool, like: (string, string) -> bool)

  predicate ValidKey(key: string) { key != "" && |key| <= KV_MAX_KEY_RUNES }

  predicate ValidValue(rules: Rules, value: string) {
    value != "" && rules.json(value) && |value| <= KV_MAX_VALUE_BYTES
  }

  predicate ValidTtl(ttl: Option<int>) {
    ttl.Some? ==> 0 <= ttl.value <= MAX_INT64 / SECOND
  }

  // ---------------------------------------------------------------- expiry

  /** Go's test on a row it has read: strictly in the past. */
  predicate Expired(r: Row, now: int) { r.expires.Some? && r.expires.value < now }

  /** SQL's test in a statement: in the past or exactly now. */
  predicate Lapsed(r: Row, now: int) { r.expires.Some? && r.expires.value <= now }

  predicate Visible(t: Table, k: Key, now: int) { k in t && !Expired(t[k], now) }

  function NewExpiry(ttl: Option<int>, now: int): Option<int> {
    if ttl.Some? && ttl.value > 0 then Some(now + ttl.value * SECOND) else None
  }

  /** Increment and compare-and-swap keep the expiry of a visible row unless a TTL is given. */
  function CarriedExpiry(t: Table, k: Key, ttl: Option<int>, now: int): Option<int> {
    if ttl.Some? then NewExpiry(ttl, now)
    else if Visible(t, k, now) then t[k].expires else None
  }

  // ---------------------------------------------------------------- statements

  /** The upsert that put and the batch send. */
  function Upsert(t: Table, k: Key, value: string, ttl: Option<int>, now: int): Table {
    if k !in t then t[k := Row(value, NewExpiry(ttl, now), now, now)]
    else
      var expires := if ttl.Some? then NewExpiry(ttl, now)
                     else if Lapsed(t[k], now) then None else t[k].expires;
      t[k := Row(value, expires, t[k].created, now)]
  }

  /** The UPDATE or INSERT that ends an increment or a swap. */
  function Overwrite(t: Table, k: Key, value: string, ttl: Option<int>, now: int): Table {
    t[k := Row(value, CarriedExpiry(t, k, ttl, now), if k in t then t[k].created else now, now)]
  }

  function Swept(t: Table, now: int): Table {
    map k | k in t && !Lapsed(t[k], now) :: t[k]
  }

  /** A stored integer may be a bare number or a JSON string of digits. */
  function Unquote(s: string): string {
    if |s| >= 2 && s[0] == '"' && s[|s| - 1] == '"' then s[1..|s| - 1] else s
  }

  /** The number an increment starts from, if there is one. */
  function Counter(t: Table, k: Key, now: int): Option<int> {
    if Visible(t, k, now) then Parsed(Unquote(t[k].value)) else Some(0)
  }

  /** Whether the guard of a compare-and-swap holds; no expectation means the key must be absent. */
  predicate Matches(t: Table, k: Key, expected: Option<string>, now: int) {
    match expected
    case None => !Visible(t, k, now)
    case Some(e) => Visible(t, k, now) && t[k].value == e
  }

  datatype BatchOp = BatchOp(op: string, name: string, value: string, ttl: Option<int>)

  datatype BatchResult = BatchResult(op: string, name: string, found: bool,
                                     value: Option<string>, expires: Option<int>)

  predicate ValidOp(rules: Rules, o: BatchOp) {
    && ValidKey(o.name)
    && (o.op == "get" || o.op == "delete"
        || (o.op == "put" && ValidValue(rules, o.value) && ValidTtl(o.ttl)))
  }

  /** The live keys a listing may return. */
  ghost function Listing(rules: Rules, t: Table, functionId: string, prefix: string, now: int): set<string> {
    set k | k in t && k.functionId == functionId && !Lapsed(t[k], now)
            && (prefix == "" || rules.like(k.name, prefix + "%")) :: k.name
  }

  function ClampLimit(limit: int): nat { if limit <= 0 || limit > 1000 then 100 else limit }

  function After(cursor: string): Option<string> { if cursor == "" then None else Some(cursor) }

  // ---------------------------------------------------------------- the order of keys

  /** SQLite compares keys byte by byte, which for UTF-8 is code point by code point. */
  predicate KeyLess(a: string, b: string) {
    b != [] && (a == [] || a[0] < b[0] || (a[0] == b[0] && KeyLess(a[1..], b[1..])))
  }

  lemma {:induction false} KeyLessIrreflexive(a: string)
    ensures !KeyLess(a, a)
  {
    if a != [] {
      KeyLessIrreflexive(a[1..]);
    }
  }

  lemma {:induction false} KeyLessConnected(a: string, b: string)
    ensures KeyLess(a, b) || a == b || KeyLess(b, a)
  {
    if a != [] && b != [] && a[0] == b[0] {
      KeyLessConnected(a[1..], b[1..]);
      assert a == [a[0]] + a[1..] && b == [b[0]] + b[1..];
    }
  }

  lemma {:induction false} KeyLessTransitive(a: string, b: string, c: string)
    requires KeyLess(a, b) && KeyLess(b, c)
    ensures KeyLess(a, c)
  {
    if a != [] && a[0] == b[0] && b[0] == c[0] {
      KeyLessTransitive(a[1..], b[1..], c[1..]);
    }
  }

  lemma KeyLessIsStrict()
    ensures StrictOrder(KeyLess)
  {
    forall a ensures !KeyLess(a, a) {
      KeyLessIrreflexive(a);
    }
    forall a, b ensures KeyLess(a, b) || a == b || KeyLess(b, a) {
      KeyLessConnected(a, b);
    }
    forall a, b, c | KeyLess(a, b) && KeyLess(b, c) ensures KeyLess(a, c) {
      KeyLessTransitive(a, b, c);
    }
  }

  /** The first `limit` keys beyond a cursor, in key order. */
  ghost function KeyPage(names: set<string>, cursor: string, limit: nat): seq<string> {
    KeyLessIsStrict();
    PageAt(names, After(cursor), limit, KeyLess)
  }

  lemma ProbedKeyPage(names: set<string>, cursor: string, limit: nat)
    ensures KeyPage(names, cursor, limit) == Take(KeyPage(names, cursor, limit + 1), limit)
    ensures More(names, After(cursor), limit, KeyLess, true) <==> |KeyPage(names, cursor, limit + 1)| > limit
  {
    KeyLessIsStrict();
    ProbeDecides(names, After(cursor), limit, KeyLess);
  }

  // ---------------------------------------------------------------- the store

  method BytesEq(a: string, b: string) returns (eq: bool)
    ensures eq <==> a == b
  {
    if |a| != |b| {
      return false;
    }
    for i := 0 to |a|
      invariant a[..i] == b[..i]
    {
      if a[i] != b[i] {
        return false;
      }
    }
    assert a[..|a|] == a && b[..|b|] == b;
    eq := true;
  }

  /** `fails` stands for a database error anywhere in a call; the transaction is then rolled back. */
  class Store {
    var rows: Table
    const rules: Rules

    constructor (rules: Rules)
      ensures rows == map[] && this.rules == rules
    {
      rows, this.rules := map[], rules;
    }

    /** Inserts the row, or replaces its value; without a TTL a row that has not lapsed keeps its expiry. */
    method Put(functionId: string, name: string, value: string, ttl: Option<int>, now: int, fails: bool)
      returns (ok: bool)
      modifies this`rows
      ensures ok <==> ValidKey(name) && ValidValue(rules, value) && ValidTtl(ttl) && !fails
      ensures ok <==> 1 <= |name| <= 256 && 1 <= |value| <= 65536 && rules.json(value) && !fails
                      && (ttl.Some? ==> 0 <= ttl.value <= 9_223_372_036)
      ensures !ok ==> rows == old(rows)
      ensures ok ==>
                var k := Key(functionId, name);
                && rows.Keys == old(rows).Keys + {k}
                && (forall other :: other in old(rows) && other != k ==> rows[other] == old(rows)[other])
                && rows[k].value == value && rows[k].updated == now
                && rows[k].created == (if k in old(rows) then old(rows)[k].created else now)
                && (ttl.Some? && ttl.value > 0 ==> rows[k].expires == Some(now + ttl.value * SECOND))
                && (ttl == Some(0) ==> rows[k].expires == None)
                && (ttl.None? ==>
                      rows[k].expires == if k in old(rows) && !Lapsed(old(rows)[k], now) then old(rows)[k].expires else None)
      ensures ok ==> rows == Upsert(old(rows), Key(functionId, name), value, ttl, now)
    {
      if !ValidKey(name) || !ValidValue(rules, value) || !ValidTtl(ttl) || fails {
        return false;
      }
      var k := Key(functionId, name);
      var expires: Option<int> := None;
      if ttl.Some? && ttl.value > 0 {
        expires := Some(now + ttl.value * SECOND);
      }
      if k in rows {
        var row := rows[k];
        if ttl.None? && !(row.expires.Some? && row.expires.value <= now) {
          expires := row.expires;
        }
        rows := rows[k := row.(value := value, expires := expires, updated := now)];
      } else {
        rows := rows[k := Row(value, expires, now, now)];
      }
      ok := true;
    }

    method Get(functionId: string, name: string, now: int, fails: bool) returns (r: Option<Row>)
      ensures r == if ValidKey(name) && !fails && Visible(rows, Key(functionId, name), now)
                   then Some(rows[Key(functionId, name)]) else None
    {
      if !ValidKey(name) || fails || Key(functionId, name) !in rows {
        return None;
      }
      var e := rows[Key(functionId, name)];
      if e.expires.Some? {
        if e.expires.value < now {
          return None;
        }
      }
      r := Some(e);
    }

    method Delete(functionId: string, name: string, fails: bool) returns (ok: bool)
      modifies this`rows
      ensures ok <==> ValidKey(name) && !fails
      ensures rows == if ok then old(rows) - {Key(functionId, name)} else old(rows)
    {
      ok := ValidKey(name) && !fails;
      if ok {
        rows := rows - {Key(functionId, name)};
      }
    }

    /** One transaction; the new value wraps around like any 64-bit sum. */
    method Incr(functionId: string, name: string, delta: int, ttl: Option<int>, now: int, fails: bool)
      returns (r: Result<int>)
      requires IsInt64(delta)
      modifies this`rows
      ensures var k := Key(functionId, name);
              var current := Counter(old(rows), k, now);
              && (r.Ok? <==> ValidKey(name) && ValidTtl(ttl) && !fails && current.Some?)
              && (r.Ok? ==> r.value == Wrap64(current.value + delta)
                            && rows == Overwrite(old(rows), k, Printed(r.value), ttl, now))
              && (r.Err? ==> rows == old(rows))
    {
      if !ValidKey(name) || !ValidTtl(ttl) || fails {
        return Err("invalid");
      }
      var k := Key(functionId, name);
      var current := 0;
      var exists_ := k in rows;
      var expired := exists_ && rows[k].expires.Some? && rows[k].expires.value < now;
      if exists_ && !expired {
        var parsed := FmtInt(Unquote(rows[k].value));
        if parsed.Err? {
          return Err("kv.incr: existing value is not an integer");
        }
        current := parsed.value;
      }
      var next := Wrap64(current + delta);
      var expires := None;
      if ttl.Some? && ttl.value > 0 {
        expires := Some(now + ttl.value * SECOND);
      } else if ttl.None? && exists_ && !expired && rows[k].expires.Some? {
        expires := rows[k].expires;
      }
      var text := FmtIntStr(next);
      if exists_ {
        rows := rows[k := Row(text, expires, rows[k].created, now)];
      } else {
        rows := rows[k := Row(text, expires, now, now)];
      }
      r := Ok(next);
    }

    /** Swaps when the guard holds; otherwise reports the visible value, if any. */
    method Cas(functionId: string, name: string, expected: Option<string>, value: string,
               ttl: Option<int>, now: int, fails: bool)
      returns (ok: bool, swapped: bool, current: Option<string>)
      modifies this`rows
      ensures ok <==> ValidKey(name) && ValidValue(rules, value) && ValidTtl(ttl) && !fails
                      && (expected.Some? ==> ValidValue(rules, expected.value))
      ensures swapped <==> ok && Matches(old(rows), Key(functionId, name), expected, now)
      ensures rows == if swapped then Overwrite(old(rows), Key(functionId, name), value, ttl, now) else old(rows)
      ensures current == if ok && !swapped && Visible(old(rows), Key(functionId, name), now)
                         then Some(old(rows)[Key(functionId, name)].value) else None
    {
      if !ValidKey(name) || !ValidValue(rules, value) || !ValidTtl(ttl) || fails
         || (expected.Some? && !ValidValue(rules, expected.value)) {
        return false, false, None;
      }
      var k := Key(functionId, name);
      var exists_ := k in rows;
      var expired := exists_ && rows[k].expires.Some? && rows[k].expires.value < now;
      var present := exists_ && !expired;
      var equal := false;
      if expected.Some? && present {
        equal := BytesEq(rows[k].value, expected.value);
      }
      if !(expected.None? && !present) && !equal {
        return true, false, if present then Some(rows[k].value) else None;
      }
      var expires := None;
      if ttl.Some? && ttl.value > 0 {
        expires := Some(now + ttl.value * SECOND);
      } else if ttl.None? && present && rows[k].expires.Some? {
        expires := rows[k].expires;
      }
      if exists_ {
        rows := rows[k := Row(value, expires, rows[k].created, now)];
      } else {
        rows := rows[k := Row(value, expires, now, now)];
      }
      return true, true, None;
    }

    /** Removes the rows that have lapsed and no other, and reports how many. */
    method SweepExpired(now: int, fails: bool) returns (removed: nat)
      modifies this`rows
      ensures forall k :: k in rows <==> k in old(rows) && (fails || old(rows)[k].expires.None? || old(rows)[k].expires.value > now)
      ensures forall k :: k in rows ==> rows[k] == old(rows)[k]
      ensures removed == if fails then 0 else |set k | k in old(rows) && Lapsed(old(rows)[k], now)|
      ensures rows == if fails then old(rows) else Swept(old(rows), now)
    {
      if fails {
        return 0;
      }
      var lapsed := set k | k in rows && Lapsed(rows[k], now);
      rows := rows - lapsed;
      removed := |lapsed|;
    }

    method Count(functionId: string, now: int) returns (n: nat)
      ensures n == |set k | k in rows && k.functionId == functionId && !Lapsed(rows[k], now)|
    {
      n := |set k | k in rows && k.functionId == functionId && !Lapsed(rows[k], now)|;
    }

    /** `names` is what the database returns for `WHERE key > cursor ... ORDER BY key ASC LIMIT limit + 1`. */
    method ListWithCursor(functionId: string, prefix: string, cursor: string, limit: int, now: int,
                          names: seq<string>)
      returns (page: seq<string>, next: string)
      requires FirstInOrder(Beyond(Listing(rules, rows, functionId, prefix, now), After(cursor), KeyLess),
                            names, ClampLimit(limit) + 1, KeyLess)
      ensures page == KeyPage(Listing(rules, rows, functionId, prefix, now), cursor, ClampLimit(limit))
      ensures if More(Listing(rules, rows, functionId, prefix, now), After(cursor), ClampLimit(limit), KeyLess, true)
              then page != [] && next == page[|page| - 1] else next == ""
    {
      var n := ClampLimit(limit);
      KeyLessIsStrict();
      FirstInOrderIsTake(Beyond(Listing(rules, rows, functionId, prefix, now), After(cursor), KeyLess), names, n + 1, KeyLess);
      ProbedKeyPage(Listing(rules, rows, functionId, prefix, now), cursor, n);
      page, next := names, "";
      if |names| > n {
        page := names[..n];
        next := names[n - 1];
      }
    }

    /** Every op is validated first; `failAt` is the op whose statement the database refuses. */
    method Batch(functionId: string, ops: seq<BatchOp>, now: int, beginFails: bool, failAt: nat, commitFails: bool)
      returns (r: Result<seq<BatchResult>>)
      modifies this`rows
      ensures ops == [] ==> r == Ok([]) && rows == old(rows)
      ensures ops != [] ==>
                (r.Ok? <==> |ops| <= 100 && (forall o :: o in ops ==> ValidOp(rules, o))
                            && !beginFails && failAt >= |ops| && !commitFails)
      ensures r.Err? ==> rows == old(rows)
      ensures r.Ok? ==> (forall o :: o in ops ==> ValidOp(rules, o))
      ensures r.Ok? ==> rows == Sequentially(old(rows), functionId, ops, now).0
                        && r.value == Sequentially(old(rows), functionId, ops, now).1
    {
      if ops == [] {
        return Ok([]);
      }
      if |ops| > MAX_BATCH {
        return Err("kv batch: capped at 100 operations");
      }
      for i := 0 to |ops|
        invariant forall j :: 0 <= j < i ==> ValidOp(rules, ops[j])
      {
        if !ValidOp(rules, ops[i]) {
          return Err("kv batch: invalid operation");
        }
      }
      if beginFails {
        return Err("begin");
      }
      var tx, results := rows, [];
      var i := 0;
      while i < |ops|
        invariant 0 <= i <= |ops| && i <= failAt && rows == old(rows)
        invariant (tx, results) == Sequentially(rows, functionId, ops[..i], now)
      {
        if i == failAt {
          return Err("statement");
        }
        var op, k := ops[i], Key(functionId, ops[i].name);
        var found, value, expires := false, None, None;
        assert ops[..i + 1][..i] == ops[..i];
        if op.op == "get" {
          if k in tx && !(tx[k].expires.Some? && tx[k].expires.value < now) {
            found, value, expires := true, Some(tx[k].value), tx[k].expires;
          }
        } else if op.op == "put" {
          tx := Upsert(tx, k, op.value, op.ttl, now);
          found := true;
        } else {
          found := k in tx;
          tx := tx - {k};
        }
        results := results + [BatchResult(op.op, op.name, found, value, expires)];
        i := i + 1;
      }
      assert ops[..i] == ops;
      if commitFails {
        return Err("commit");
      }
      rows := tx;
      r := Ok(results);
    }
  }

  /** What the single operations reply and leave, at one shared time: the reference for a batch. */
  function Single(t: Table, functionId: string, o: BatchOp, now: int): (Table, BatchResult) {
    var k := Key(functionId, o.name);
    if o.op == "get" then
      (t, if Visible(t, k, now) then BatchResult(o.op, o.name, true, Some(t[k].value), t[k].expires)
          else BatchResult(o.op, o.name, false, None, None))
    else if o.op == "put" then
      (Upsert(t, k, o.value, o.ttl, now), BatchResult(o.op, o.name, true, None, None))
    else (t - {k}, BatchResult(o.op, o.name, k in t, None, None))
  }

  function Sequentially(t: Table, functionId: string, ops: seq<BatchOp>, now: int): (Table, seq<BatchResult>) {
    if ops == [] then (t, []) else
    var n := |ops| - 1;
    var (t', rs) := Sequentially(t, functionId, ops[..n], now);
    var (t'', r) := Single(t', functionId, ops[n], now);
    (t'', rs + [r])
  }

  /** Running one op through the store's own get, put and delete has the effect `Single` says. */
  method SingleThroughStore(store: Store, functionId: string, o: BatchOp, now: int) returns (r: BatchResult)
    requires ValidOp(store.rules, o)
    modifies store`rows
    ensures (store.rows, r) == Single(old(store.rows), functionId, o, now)
  {
    if o.op == "get" {
      var row := store.Get(functionId, o.name, now, false);
      match row
      case None => r := BatchResult(o.op, o.name, false, None, None);
      case Some(e) => r := BatchResult(o.op, o.name, true, Some(e.value), e.expires);
    } else if o.op == "put" {
      var ok := store.Put(functionId, o.name, o.value, o.ttl, now, false);
      r := BatchResult(o.op, o.name, true, None, None);
    } else {
      var found := Key(functionId, o.name) in store.rows;
      var ok := store.Delete(functionId, o.name, false);
      r := BatchResult(o.op, o.name, found, None, None);
    }
  }

  /** So does running them all one after the other, which is what a batch must equal. */
  method AllThroughStore(store: Store, functionId: string, ops: seq<BatchOp>, now: int)
    returns (rs: seq<BatchResult>)
    requires forall o :: o in ops ==> ValidOp(store.rules, o)
    modifies store`rows
    ensures (store.rows, rs) == Sequentially(old(store.rows), functionId, ops, now)
  {
    rs := [];
    var i := 0;
    while i < |ops|
      invariant 0 <= i <= |ops|
      invariant (store.rows, rs) == Sequentially(old(store.rows), functionId, ops[..i], now)
    {
      assert ops[..i + 1][..i] == ops[..i];
      var r := SingleThroughStore(store, functionId, ops[i], now);
      rs := rs + [r];
      i := i + 1;
    }
    assert ops[..i] == ops;
  }
}
