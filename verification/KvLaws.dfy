/** Laws of the key-value table over whole sequences of operations. */
module KvLaws {
  import opened Wrappers
  import opened KvNumbers
  import opened KvStore
  import opened Paging
  import opened Counting

  datatype Op =
    | Get(k: Key)
    | Put(k: Key, value: string, ttl: Option<int>)
    | Incr(k: Key, delta: int, ttl: Option<int>)
    | Cas(k: Key, expected: Option<string>, value: string, ttl: Option<int>)
    | Delete(k: Key)
    | Count(functionId: string)
    | List(functionId: string, prefix: string, cursor: string, limit: int)

  datatype Reply =
    | Found(value: string, expires: Option<int>, updated: int)
    | Missing
    | Stored
    | Number(n: int)
    | NotAnInteger
    | Swapped
    | Refused(current: Option<string>)
    | Amount(count: nat)
    | Page(names: seq<string>)

  /** What a caller sees, apart from created_at. */
  ghost function ReplyTo(rules: Rules, t: Table, op: Op, now: int): Reply {
    match op
    case Get(k) => if Visible(t, k, now) then Found(t[k].value, t[k].expires, t[k].updated) else Missing
    case Put(_, _, _) => Stored
    case Incr(k, d, _) =>
      if Counter(t, k, now).Some? then Number(Wrap64(Counter(t, k, now).value + d)) else NotAnInteger
    case Cas(k, e, _, _) =>
      if Matches(t, k, e, now) then Swapped
      else Refused(if Visible(t, k, now) then Some(t[k].value) else None)
    case Delete(_) => Stored
    case Count(f) => Amount(|set k | k in t && k.functionId == f && !Lapsed(t[k], now)|)
    case List(f, p, c, n) => Page(KeyPage(Listing(rules, t, f, p, now), c, ClampLimit(n)))
  }

  /** What an increment leaves that found the number `n`, or none. */
  function Increased(t: Table, k: Key, n: Option<int>, delta: int, ttl: Option<int>, now: int): Table {
    if n.Some? then Overwrite(t, k, Printed(Wrap64(n.value + delta)), ttl, now) else t
  }

  function Effect(t: Table, op: Op, now: int): Table {
    match op
    case Put(k, v, ttl) => Upsert(t, k, v, ttl, now)
    case Incr(k, d, ttl) => Increased(t, k, Counter(t, k, now), d, ttl, now)
    case Cas(k, e, v, ttl) => if Matches(t, k, e, now) then Overwrite(t, k, v, ttl, now) else t
    case Delete(k) => t - {k}
    case _ => t
  }

  ghost function Replies(rules: Rules, t: Table, ops: seq<(Op, int)>): seq<Reply>
    decreases |ops|
  {
    if ops == [] then []
    else [ReplyTo(rules, t, ops[0].0, ops[0].1)] + Replies(rules, Effect(t, ops[0].0, ops[0].1), ops[1..])
  }

  // ---------------------------------------------------------------- the sweep is invisible

  /** What is left of a row for anyone who looks after time `t`. */
  function Remains(a: Table, k: Key, t: int): Option<(string, Option<int>, int)> {
    if k in a && !Lapsed(a[k], t) then Some((a[k].value, a[k].expires, a[k].updated)) else None
  }

  ghost predicate AgreeAfter(a: Table, b: Table, t: int) {
    forall k :: Remains(a, k, t) == Remains(b, k, t)
  }

  lemma VisibilityAgrees(a: Table, b: Table, t: int, now: int, k: Key)
    requires AgreeAfter(a, b, t) && t < now
    ensures Visible(a, k, now) <==> Visible(b, k, now)
    ensures (k in a && !Lapsed(a[k], now)) <==> (k in b && !Lapsed(b[k], now))
    ensures Visible(a, k, now) ==> a[k].(created := 0) == b[k].(created := 0)
  {
    assert Remains(a, k, t) == Remains(b, k, t);
  }

  lemma ReplyAgrees(rules: Rules, a: Table, b: Table, t: int, op: Op, now: int)
    requires AgreeAfter(a, b, t) && t < now
    ensures ReplyTo(rules, a, op, now) == ReplyTo(rules, b, op, now)
  {
    forall k ensures (k in a && !Lapsed(a[k], now)) <==> (k in b && !Lapsed(b[k], now)) {
      VisibilityAgrees(a, b, t, now, k);
    }
    match op
    case Count(f) =>
      assert (set k | k in a && k.functionId == f && !Lapsed(a[k], now))
          == (set k | k in b && k.functionId == f && !Lapsed(b[k], now));
    case List(f, p, _, _) => assert Listing(rules, a, f, p, now) == Listing(rules, b, f, p, now);
    case Get(k) => VisibilityAgrees(a, b, t, now, k);
    case Incr(k, _, _) => VisibilityAgrees(a, b, t, now, k);
    case Cas(k, _, _, _) => VisibilityAgrees(a, b, t, now, k);
    case _ =>
  }

  lemma EffectAgrees(a: Table, b: Table, t: int, op: Op, now: int)
    requires AgreeAfter(a, b, t) && t < now
    ensures AgreeAfter(Effect(a, op, now), Effect(b, op, now), t)
  {
    forall k ensures Remains(Effect(a, op, now), k, t) == Remains(Effect(b, op, now), k, t) {
      EffectAgreesAt(a, b, t, op, now, k);
    }
  }

  lemma EffectAgreesAt(a: Table, b: Table, t: int, op: Op, now: int, k: Key)
    requires AgreeAfter(a, b, t) && t < now
    ensures Remains(Effect(a, op, now), k, t) == Remains(Effect(b, op, now), k, t)
  {
    assert Remains(a, k, t) == Remains(b, k, t);
    match op
    case Put(key, _, _) => VisibilityAgrees(a, b, t, now, key);
    case Incr(_, _, _) => IncrAgreesAt(a, b, t, op, now, k);
    case Cas(_, _, _, _) => CasAgreesAt(a, b, t, op, now, k);
    case _ =>
  }

  lemma IncrAgreesAt(a: Table, b: Table, t: int, op: Op, now: int, k: Key)
    requires AgreeAfter(a, b, t) && t < now && op.Incr?
    ensures Remains(Effect(a, op, now), k, t) == Remains(Effect(b, op, now), k, t)
  {
    CounterAgrees(a, b, t, now, op.k);
    IncreasedAgreesAt(a, b, t, op.k, Counter(a, op.k, now), op.delta, op.ttl, now, k);
  }

  lemma IncreasedAgreesAt(a: Table, b: Table, t: int, key: Key, n: Option<int>, delta: int, ttl: Option<int>,
                          now: int, k: Key)
    requires AgreeAfter(a, b, t) && t < now
    ensures Remains(Increased(a, key, n, delta, ttl, now), k, t) == Remains(Increased(b, key, n, delta, ttl, now), k, t)
  {
    assert Remains(a, k, t) == Remains(b, k, t);
    if n.Some? {
      OverwriteAgreesAt(a, b, t, key, Printed(Wrap64(n.value + delta)), ttl, now, k);
    }
  }

  lemma CounterAgrees(a: Table, b: Table, t: int, now: int, key: Key)
    requires AgreeAfter(a, b, t) && t < now
    ensures Counter(a, key, now) == Counter(b, key, now)
  {
    VisibilityAgrees(a, b, t, now, key);
  }

  lemma OverwriteAgreesAt(a: Table, b: Table, t: int, key: Key, value: string, ttl: Option<int>, now: int, k: Key)
    requires AgreeAfter(a, b, t) && t < now
    ensures Remains(Overwrite(a, key, value, ttl, now), k, t) == Remains(Overwrite(b, key, value, ttl, now), k, t)
  {
    assert Remains(a, k, t) == Remains(b, k, t);
    VisibilityAgrees(a, b, t, now, key);
  }

  lemma CasAgreesAt(a: Table, b: Table, t: int, op: Op, now: int, k: Key)
    requires AgreeAfter(a, b, t) && t < now && op.Cas?
    ensures Remains(Effect(a, op, now), k, t) == Remains(Effect(b, op, now), k, t)
  {
    assert Remains(a, k, t) == Remains(b, k, t);
    VisibilityAgrees(a, b, t, now, op.k);
    OverwriteAgreesAt(a, b, t, op.k, op.value, op.ttl, now, k);
  }

  lemma {:induction false} RunsAgree(rules: Rules, a: Table, b: Table, t: int, ops: seq<(Op, int)>)
    requires AgreeAfter(a, b, t) && forall i :: 0 <= i < |ops| ==> t < ops[i].1
    ensures Replies(rules, a, ops) == Replies(rules, b, ops)
    decreases |ops|
  {
    if ops != [] {
      ReplyAgrees(rules, a, b, t, ops[0].0, ops[0].1);
      EffectAgrees(a, b, t, ops[0].0, ops[0].1);
      RunsAgree(rules, Effect(a, ops[0].0, ops[0].1), Effect(b, ops[0].0, ops[0].1), t, ops[1..]);
    }
  }

  /** Sweeping at `t` changes no reply of any later sequence of operations at clocks after `t`. */
  lemma SweepIsInvisible(rules: Rules, a: Table, t: int, ops: seq<(Op, int)>)
    requires forall i :: 0 <= i < |ops| ==> t < ops[i].1
    ensures Replies(rules, Swept(a, t), ops) == Replies(rules, a, ops)
  {
    RunsAgree(rules, Swept(a, t), a, t, ops);
  }

  /** At the sweep's own instant it can be noticed, and by exactly the rows that expire then. */
  lemma SweepNoticedOnlyAtItsInstant(rules: Rules, a: Table, t: int, k: Key, now: int)
    requires t <= now
    ensures ReplyTo(rules, Swept(a, t), Get(k), now) != ReplyTo(rules, a, Get(k), now)
            <==> now == t && k in a && a[k].expires == Some(t)
  {
  }

  /** A get and a listing agree about a row at every instant but the one at which it expires. */
  lemma GetAndListDisagreeAtExpiry(rules: Rules, a: Table, k: Key, now: int)
    ensures (Visible(a, k, now) <==> k.name in Listing(rules, a, k.functionId, "", now))
            <==> !(k in a && a[k].expires == Some(now))
  {
    var listed := Listing(rules, a, k.functionId, "", now);
    assert k.name in listed <==> k in a && !Lapsed(a[k], now) by {
      if k.name in listed {
        var other :| other in a && other.functionId == k.functionId && other.name == k.name && !Lapsed(a[other], now);
        assert other == k;
      }
    }
  }

  /** What a put stores can be read back until it expires, and no other key's reading changes. */
  lemma PutReadsBack(t: Table, k: Key, value: string, ttl: Option<int>, now: int, other: Key, later: int)
    requires now <= later
    ensures var after := Upsert(t, k, value, ttl, now);
            && (Visible(after, k, later) ==> after[k].value == value)
            && (Visible(after, k, later) <==> after[k].expires.None? || later <= after[k].expires.value)
            && (ttl.Some? && ttl.value > 0 ==> (Visible(after, k, later) <==> later <= now + ttl.value * SECOND))
            && (ttl == Some(0) ==> Visible(after, k, later))
            && Visible(after, k, now)
            && (other != k ==> (Visible(after, other, later) <==> Visible(t, other, later))
                               && (Visible(t, other, later) ==> after[other] == t[other]))
  {
  }

  // ---------------------------------------------------------------- increments add up

  function Total(init: int, deltas: seq<int>): int
    decreases |deltas|
  {
    if deltas == [] then init else Total(init + deltas[0], deltas[1..])
  }

  function OneCall(t: Table, k: Key, delta: int, now: int): Table {
    Effect(t, Incr(k, delta, None), now)
  }

  /** The table after increments of one key, in whatever order its callers got their turns. */
  function Incremented(t: Table, k: Key, deltas: seq<int>, times: seq<int>): Table
    requires |deltas| == |times|
    decreases |deltas|
  {
    if deltas == [] then t else Incremented(OneCall(t, k, deltas[0], times[0]), k, deltas[1..], times[1..])
  }

  /** Whether every one of those calls found an integer to add to. */
  predicate AllSucceed(t: Table, k: Key, deltas: seq<int>, times: seq<int>)
    requires |deltas| == |times|
    decreases |deltas|
  {
    deltas == [] ||
    (Counter(t, k, times[0]).Some? && AllSucceed(OneCall(t, k, deltas[0], times[0]), k, deltas[1..], times[1..]))
  }

  /** No sum before the last wraps to the smallest integer. */
  predicate AvoidsMinimum(sum: int, deltas: seq<int>)
    decreases |deltas|
  {
    deltas == [] || (Wrap64(sum) != MIN_INT64 && AvoidsMinimum(sum + deltas[0], deltas[1..]))
  }

  lemma PrintedIsUnquoted(n: int)
    requires IsInt64(n)
    ensures Unquote(Printed(n)) == Printed(n)
  {
    if n > 0 {
      assert Digit(Digits(n)[0]);
    }
  }

  /** The row of a counter no reader considers expired, holding the printed form of `sum`. */
  ghost predicate Holds(t: Table, k: Key, sum: int, expires: Option<int>) {
    k in t && t[k].expires == expires && t[k].value == Printed(Wrap64(sum))
  }

  lemma CounterOfPrinted(t: Table, k: Key, sum: int, now: int)
    requires k in t && Holds(t, k, sum, t[k].expires) && !Expired(t[k], now)
    ensures Counter(t, k, now) == if Wrap64(sum) == MIN_INT64 then None else Some(Wrap64(sum))
  {
    PrintedIsUnquoted(Wrap64(sum));
    ParsePrinted(Wrap64(sum));
  }

  lemma OneIncrement(t: Table, k: Key, sum: int, delta: int, now: int)
    requires k in t && !Expired(t[k], now) && Counter(t, k, now) == Some(Wrap64(sum))
    ensures Holds(OneCall(t, k, delta, now), k, sum + delta, t[k].expires)
  {
    WrapAdd(sum, delta);
  }

  /** From one printed sum to the next, or, from the unreadable one, nowhere. */
  lemma NextIncrement(t: Table, k: Key, sum: int, expires: Option<int>, delta: int, now: int)
    requires Holds(t, k, sum, expires) && !Expired(t[k], now)
    ensures Counter(t, k, now).Some? <==> Wrap64(sum) != MIN_INT64
    ensures Wrap64(sum) != MIN_INT64 ==> Holds(OneCall(t, k, delta, now), k, sum + delta, expires)
  {
    CounterOfPrinted(t, k, sum, now);
    if Wrap64(sum) != MIN_INT64 {
      OneIncrement(t, k, sum, delta, now);
    }
  }

  ghost predicate Unexpired(expires: Option<int>, times: seq<int>) {
    forall i :: 0 <= i < |times| ==> expires.Some? ==> times[i] <= expires.value
  }

  /**
   Increments of a counter all succeed exactly when no sum before the last wraps to the smallest
   integer, and then the counter holds the wrapped total.
   */
  lemma {:induction false} IncrementsAddUp(t: Table, k: Key, sum: int, expires: Option<int>,
                                           deltas: seq<int>, times: seq<int>)
    requires |deltas| == |times| && Holds(t, k, sum, expires) && Unexpired(expires, times)
    ensures AllSucceed(t, k, deltas, times) <==> AvoidsMinimum(sum, deltas)
    ensures AvoidsMinimum(sum, deltas) ==> Holds(Incremented(t, k, deltas, times), k, Total(sum, deltas), expires)
    decreases |deltas|
  {
    if deltas != [] {
      assert !Expired(t[k], times[0]);
      NextIncrement(t, k, sum, expires, deltas[0], times[0]);
      if Wrap64(sum) != MIN_INT64 {
        IncrementsAddUp(OneCall(t, k, deltas[0], times[0]), k, sum + deltas[0], expires, deltas[1..], times[1..]);
      }
    }
  }

  lemma FirstIncrement(t: Table, k: Key, init: int, delta: int, now: int)
    requires k in t && !Expired(t[k], now) && Counter(t, k, now) == Some(init)
    ensures Holds(OneCall(t, k, delta, now), k, init + delta, t[k].expires)
  {
    CounterIsInt64(t, k, now);
    WrapInRange(init);
    OneIncrement(t, k, init, delta, now);
  }

  /** The same from any stored text that parses: the first call already leaves a printed sum. */
  lemma IncrementsOfStoredText(t: Table, k: Key, init: int, sum: int, now: int, deltas: seq<int>, times: seq<int>)
    requires |deltas| == |times| > 0 && now == times[0] && sum == init + deltas[0]
    requires k in t && Unexpired(t[k].expires, times) && Counter(t, k, now) == Some(init)
    ensures AllSucceed(t, k, deltas, times) <==> AvoidsMinimum(sum, deltas[1..])
    ensures AllSucceed(t, k, deltas, times) ==>
              Holds(Incremented(t, k, deltas, times), k, Total(init, deltas), t[k].expires)
  {
    var next := AfterFirst(t, k, init, deltas[0], sum, now, deltas, times);
    RestAddsUp(next, k, sum, Total(init, deltas), t[k].expires, deltas, times);
  }

  lemma RestAddsUp(next: Table, k: Key, sum: int, total: int, expires: Option<int>, deltas: seq<int>, times: seq<int>)
    requires |deltas| == |times| > 0 && Unexpired(expires, times)
    requires Holds(next, k, sum, expires) && total == Total(sum, deltas[1..])
    ensures AllSucceed(next, k, deltas[1..], times[1..]) <==> AvoidsMinimum(sum, deltas[1..])
    ensures AllSucceed(next, k, deltas[1..], times[1..]) ==>
              Holds(Incremented(next, k, deltas[1..], times[1..]), k, total, expires)
  {
    UnexpiredRest(expires, times);
    AllAddUp(next, k, sum, expires, deltas[1..], times[1..]);
  }

  lemma AllAddUp(t: Table, k: Key, sum: int, expires: Option<int>, deltas: seq<int>, times: seq<int>)
    requires |deltas| == |times| && Holds(t, k, sum, expires) && Unexpired(expires, times)
    ensures AllSucceed(t, k, deltas, times) <==> AvoidsMinimum(sum, deltas)
    ensures AllSucceed(t, k, deltas, times) ==> Holds(Incremented(t, k, deltas, times), k, Total(sum, deltas), expires)
  {
    IncrementsAddUp(t, k, sum, expires, deltas, times);
  }

  lemma UnexpiredRest(expires: Option<int>, times: seq<int>)
    requires |times| > 0 && Unexpired(expires, times)
    ensures Unexpired(expires, times[1..])
  {
    assert forall i :: 0 <= i < |times[1..]| ==> times[1..][i] == times[i + 1];
  }

  /** The first of these calls succeeds, and leaves the table on which the others run. */
  lemma AfterFirst(t: Table, k: Key, init: int, delta: int, sum: int, now: int, deltas: seq<int>, times: seq<int>)
    returns (next: Table)
    requires |deltas| == |times| > 0 && delta == deltas[0] && now == times[0] && sum == init + delta
    requires k in t && Unexpired(t[k].expires, times) && Counter(t, k, now) == Some(init)
    ensures Holds(next, k, sum, t[k].expires) && Total(init, deltas) == Total(sum, deltas[1..])
    ensures AllSucceed(t, k, deltas, times) <==> AllSucceed(next, k, deltas[1..], times[1..])
    ensures Incremented(t, k, deltas, times) == Incremented(next, k, deltas[1..], times[1..])
  {
    next := OneCall(t, k, delta, now);
    FirstIncrement(t, k, init, delta, now);
  }

  lemma CounterIsInt64(t: Table, k: Key, now: int)
    ensures Counter(t, k, now).Some? ==> IsInt64(Counter(t, k, now).value)
  {
  }

  /** The order in which increments get their turn does not matter to the total. */
  lemma {:induction false} TotalIsSum(init: int, deltas: seq<int>)
    ensures Total(init, deltas) == init + Sum(deltas, (d: int) => d)
    decreases |deltas|
  {
    if deltas != [] {
      TotalIsSum(init + deltas[0], deltas[1..]);
      SumHead(deltas, (d: int) => d);
    }
  }

  // ---------------------------------------------------------------- paging

  /** The keys a client collects by passing each `next` back, one table and clock per request. */
  ghost function Followed(rules: Rules, functionId: string, prefix: string, tables: seq<(Table, int)>,
                          cursor: string, limit: int): seq<string>
    decreases |tables|
  {
    if tables == [] then [] else
    var names := Listing(rules, tables[0].0, functionId, prefix, tables[0].1);
    var page := KeyPage(names, cursor, ClampLimit(limit));
    var next := if More(names, After(cursor), ClampLimit(limit), KeyLess, true) && page != []
                then page[|page| - 1] else "";
    if next == "" then page
    else page + Followed(rules, functionId, prefix, tables[1..], next, limit)
  }

  ghost function Snapshots(rules: Rules, functionId: string, prefix: string, tables: seq<(Table, int)>): seq<set<string>> {
    seq(|tables|, i requires 0 <= i < |tables| => Listing(rules, tables[i].0, functionId, prefix, tables[i].1))
  }

  ghost predicate KeysValid(t: Table) {
    forall k :: k in t ==> k.name != ""
  }

  /** Because keys are never empty, the empty cursor is unambiguous and listings page correctly. */
  lemma {:induction false} FollowedIsCollected(rules: Rules, functionId: string, prefix: string,
                                               tables: seq<(Table, int)>, cursor: string, limit: int)
    requires forall i :: 0 <= i < |tables| ==> KeysValid(tables[i].0)
    requires StrictOrder(KeyLess)
    ensures Followed(rules, functionId, prefix, tables, cursor, limit)
         == Collected(Snapshots(rules, functionId, prefix, tables), After(cursor), ClampLimit(limit), KeyLess, true)
    decreases |tables|
  {
    if tables != [] {
      var snaps := Snapshots(rules, functionId, prefix, tables);
      assert snaps[1..] == Snapshots(rules, functionId, prefix, tables[1..]);
      var page := KeyPage(snaps[0], cursor, ClampLimit(limit));
      if More(snaps[0], After(cursor), ClampLimit(limit), KeyLess, true) {
        PageIsBeyond(snaps[0], After(cursor), ClampLimit(limit), KeyLess);
        var last := page[|page| - 1];
        assert last in page && last in snaps[0] && last != "";
        FollowedIsCollected(rules, functionId, prefix, tables[1..], last, limit);
      }
    }
  }

  /** On a table nobody writes to, following the cursors yields every live key once, in order. */
  lemma StaticListingIsComplete(rules: Rules, functionId: string, prefix: string, t: Table, now: int,
                                requests: seq<(Table, int)>, limit: int)
    requires KeysValid(t) && StrictOrder(KeyLess)
    requires forall i :: 0 <= i < |requests| ==> requests[i] == (t, now)
    requires |requests| > |Listing(rules, t, functionId, prefix, now)|
    ensures Followed(rules, functionId, prefix, requests, "", limit)
         == Sorted(Listing(rules, t, functionId, prefix, now), KeyLess)
  {
    var snaps := Snapshots(rules, functionId, prefix, requests);
    FollowedIsCollected(rules, functionId, prefix, requests, "", limit);
    StaticPagesAreTheTable(Listing(rules, t, functionId, prefix, now), snaps, ClampLimit(limit), KeyLess, true);
  }
}
