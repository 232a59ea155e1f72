/** What swaps and increments do, told by what gets return before and after them. */
module KvSwaps {
  import opened Wrappers
  import opened KvNumbers
  import opened KvStore
  import opened KvLaws

  /** What a get of the key returns. */
  ghost function Read(rules: Rules, t: Table, k: Key, now: int): Reply { ReplyTo(rules, t, Get(k), now) }

  // ---------------------------------------------------------------- when a swap happens

  /**
   A swap that expects absence succeeds exactly if a get at that instant finds nothing, one that expects `e` exactly if
   it finds `e`.
   */
  lemma SwapsIff(rules: Rules, t: Table, k: Key, expected: Option<string>, value: string, ttl: Option<int>, now: int)
    ensures ReplyTo(rules, t, Cas(k, expected, value, ttl), now) == Swapped
            <==> match expected
                 case None => Read(rules, t, k, now) == Missing
                 case Some(e) => Read(rules, t, k, now).Found? && Read(rules, t, k, now).value == e
  {
  }

  /** A refused swap reports what a get finds, and changes nothing. */
  lemma RefusalTells(rules: Rules, t: Table, k: Key, expected: Option<string>, value: string, ttl: Option<int>, now: int)
    requires ReplyTo(rules, t, Cas(k, expected, value, ttl), now) != Swapped
    ensures ReplyTo(rules, t, Cas(k, expected, value, ttl), now)
            == Refused(if Read(rules, t, k, now).Found? then Some(Read(rules, t, k, now).value) else None)
    ensures Effect(t, Cas(k, expected, value, ttl), now) == t
  {
  }

  // ---------------------------------------------------------------- what is read afterwards

  /** The expiry a write at `now` leaves: the one its TTL asks for, or that of the value it replaces. */
  ghost function ExpiryAfter(rules: Rules, t: Table, k: Key, ttl: Option<int>, now: int): Option<int> {
    match ttl
    case Some(seconds) => if seconds > 0 then Some(now + seconds * 1_000_000_000) else None
    case None => if Read(rules, t, k, now).Found? then Read(rules, t, k, now).expires else None
  }

  /** The write shows from `now` up to its expiry, and every other key reads as before. */
  ghost predicate ReadsBack(rules: Rules, before: Table, after: Table, k: Key, value: string, expires: Option<int>,
                            now: int, later: int)
  {
    && Read(rules, after, k, later)
       == (if expires.None? || later <= expires.value then Found(value, expires, now) else Missing)
    && forall other :: other != k ==> Read(rules, after, other, later) == Read(rules, before, other, later)
  }

  lemma SwapReadsBack(rules: Rules, t: Table, k: Key, expected: Option<string>, value: string, ttl: Option<int>,
                      now: int, later: int)
    requires ReplyTo(rules, t, Cas(k, expected, value, ttl), now) == Swapped
    ensures ReadsBack(rules, t, Effect(t, Cas(k, expected, value, ttl), now), k, value, ExpiryAfter(rules, t, k, ttl, now),
                      now, later)
  {
  }

  /** An increment replies with the sum and stores it, with its own TTL or the expiry of what it adds to. */
  lemma IncrementReadsBack(rules: Rules, t: Table, k: Key, delta: int, ttl: Option<int>, now: int, later: int)
    requires ReplyTo(rules, t, Incr(k, delta, ttl), now).Number?
    ensures ReadsBack(rules, t, Effect(t, Incr(k, delta, ttl), now), k,
                      Printed(ReplyTo(rules, t, Incr(k, delta, ttl), now).n), ExpiryAfter(rules, t, k, ttl, now), now, later)
    ensures Read(rules, t, k, now) == Missing ==> ReplyTo(rules, t, Incr(k, delta, ttl), now).n == Wrap64(delta)
  {
  }

  /** An increment reads a number in quotes like a bare one, and text with a quote on one side only as it is. */
  lemma QuotedNumberCounts(rules: Rules, t: Table, k: Key, text: string, delta: int, ttl: Option<int>, now: int)
    requires IsInt64(delta) && Read(rules, t, k, now).Found?
    requires Read(rules, t, k, now).value == "\"" + text + "\"" || (Read(rules, t, k, now).value == text
             && (text == [] || text[0] != '"' || text[|text| - 1] != '"' || |text| == 1))
    ensures ReplyTo(rules, t, Incr(k, delta, ttl), now)
            == if Parsed(text).Some? then Number(Wrap64(Parsed(text).value + delta)) else NotAnInteger
  {
    var value := Read(rules, t, k, now).value;
    if value == "\"" + text + "\"" {
      assert value[1..|value| - 1] == text;
    }
  }

  /** A deleted key is not found, at any time, and every other key reads as before. */
  lemma DeletedIsMissing(rules: Rules, t: Table, k: Key, now: int, other: Key, later: int)
    ensures Read(rules, Effect(t, Delete(k), now), k, later) == Missing
    ensures other != k ==> Read(rules, Effect(t, Delete(k), now), other, later) == Read(rules, t, other, later)
  {
  }

  /** A write never changes when a row was created, even if its value had expired. */
  lemma CreationIsKept(t: Table, op: Op, now: int, k: Key)
    requires k in Effect(t, op, now)
    ensures Effect(t, op, now)[k].created == if k in t then t[k].created else now
  {
  }

  /** A prefix narrows a listing to the names that match it; every name is of the function that asks. */
  lemma PrefixNarrows(rules: Rules, t: Table, functionId: string, prefix: string, now: int, name: string)
    requires prefix != ""
    ensures name in Listing(rules, t, functionId, prefix, now)
            <==> name in Listing(rules, t, functionId, "", now) && rules.like(name, prefix + "%")
    ensures name in Listing(rules, t, functionId, "", now) ==> Read(rules, t, Key(functionId, name), now).Found?
  {
    forall k | k in t && k.functionId == functionId && k.name == name ensures k == Key(functionId, name) {
    }
  }

  // ---------------------------------------------------------------- only one of several

  function After(t: Table, ops: seq<(Op, int)>, n: nat): Table
    requires n <= |ops|
  {
    if n == 0 then t else Effect(After(t, ops, n - 1), ops[n - 1].0, ops[n - 1].1)
  }

  /** The operation neither removes the key nor gives it an expiry. */
  predicate Preserves(op: Op, k: Key) {
    match op
    case Delete(other) => other != k
    case Put(other, _, ttl) => other == k ==> ttl == None || ttl == Some(0)
    case Incr(other, _, ttl) => other == k ==> ttl == None || ttl == Some(0)
    case Cas(other, _, _, ttl) => other == k ==> ttl == None || ttl == Some(0)
    case _ => true
  }

  predicate Permanent(t: Table, k: Key) { k in t && t[k].expires.None? }

  lemma PermanentStays(t: Table, k: Key, op: Op, now: int)
    requires Permanent(t, k) && Preserves(op, k)
    ensures Permanent(Effect(t, op, now), k)
  {
  }

  lemma {:induction false} PermanentUntil(t: Table, k: Key, ops: seq<(Op, int)>, i: nat, j: nat)
    requires i <= j <= |ops| && Permanent(After(t, ops, i), k)
    requires forall m :: i <= m < j ==> Preserves(ops[m].0, k)
    ensures Permanent(After(t, ops, j), k)
    decreases j
  {
    if i < j {
      PermanentUntil(t, k, ops, i, j - 1);
      PermanentStays(After(t, ops, j - 1), k, ops[j - 1].0, ops[j - 1].1);
    }
  }

  /** Of several swaps that expect absence of one key, with no delete and no expiry in between, at most one succeeds. */
  lemma OneSwapWins(rules: Rules, t: Table, k: Key, ops: seq<(Op, int)>, i: nat, j: nat)
    requires i < j < |ops| && ops[i].0.Cas? && ops[i].0.k == k && ops[j].0.Cas? && ops[j].0.k == k
    requires ops[i].0.expected.None? && ops[j].0.expected.None?
    requires forall m :: i <= m < j ==> Preserves(ops[m].0, k)
    requires ReplyTo(rules, After(t, ops, i), ops[i].0, ops[i].1) == Swapped
    ensures ReplyTo(rules, After(t, ops, j), ops[j].0, ops[j].1) != Swapped
  {
    var before, op, now := After(t, ops, i), ops[i].0, ops[i].1;
    assert After(t, ops, i + 1) == Effect(before, op, now);
    assert Permanent(After(t, ops, i + 1), k);
    PermanentUntil(t, k, ops, i + 1, j);
  }
}
