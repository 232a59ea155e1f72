/** Idempotency keys of enqueued jobs: the lookup, the unique index, and what callers are told. */
module JobKeys {
  import opened Wrappers

  /** The part of a keyed job row that deduplication reads. */
  datatype Keyed = Keyed(functionId: string, key: string, createdAt: int)

  /** The rows with a key, by job id. */
  type Keys = map<nat, Keyed>

  /** A request: the id its row would get, an optional key, its window in seconds, and the statements that fail. */
  datatype Request = Request(id: nat, functionId: string, key: string, window: int, now: int,
                             lookupFails: bool, insertFails: bool, rereadFails: bool)

  datatype Outcome = Inserted | Replayed(id: nat) | Rejected

  const DAY: int := 86400

  /** A window that is not positive means a day. */
  function Window(q: Request): int { if q.window <= 0 then DAY else q.window }

  predicate Holds(keys: Keys, id: nat, q: Request) {
    id in keys && keys[id].functionId == q.functionId && keys[id].key == q.key
  }

  ghost predicate Held(keys: Keys, q: Request) { exists id :: Holds(keys, id, q) }

  /** The unique index on function and key, which knows no window. */
  predicate Unique(keys: Keys) {
    forall a, b :: a in keys && b in keys && keys[a].functionId == keys[b].functionId && keys[a].key == keys[b].key ==> a == b
  }

  /** The lookup: the row that holds the key, if it was created at the cutoff or later. */
  ghost function Lookup(keys: Keys, q: Request, cutoff: int): Option<nat> {
    if exists id :: Holds(keys, id, q) && keys[id].createdAt >= cutoff then
      var id :| Holds(keys, id, q) && keys[id].createdAt >= cutoff;
      Some(id)
    else None
  }

  lemma LookupFinds(keys: Keys, q: Request, cutoff: int, id: nat)
    requires Unique(keys) && Holds(keys, id, q)
    ensures Lookup(keys, q, cutoff) == if keys[id].createdAt >= cutoff then Some(id) else None
  {
  }

  /** A lookup depends on the function and the key only. */
  lemma SameLookup(keys: Keys, p: Request, q: Request, cutoff: int)
    requires Unique(keys) && p.functionId == q.functionId && p.key == q.key
    ensures Lookup(keys, p, cutoff) == Lookup(keys, q, cutoff)
  {
    if id :| Holds(keys, id, p) && keys[id].createdAt >= cutoff {
      LookupFinds(keys, p, cutoff, id);
      LookupFinds(keys, q, cutoff, id);
    } else {
      assert forall id :: Holds(keys, id, q) ==> Holds(keys, id, p);
    }
  }

  function WithRow(keys: Keys, q: Request): Keys {
    if q.key == "" then keys else keys[q.id := Keyed(q.functionId, q.key, q.now)]
  }

  /** The INSERT is refused: its id is taken, the key is held, or anything else goes wrong. */
  ghost predicate Refused(keys: Keys, q: Request) {
    q.insertFails || q.id in keys || (q.key != "" && Held(keys, q))
  }

  ghost function ToldAtInsert(second: Keys, third: Keys, q: Request): Outcome {
    if !Refused(second, q) then Inserted
    else if q.key != "" && !q.rereadFails && Lookup(third, q, q.now - DAY).Some? then
      Replayed(Lookup(third, q, q.now - DAY).value)
    else Rejected
  }

  /**
   What a request is told, and the table its INSERT leaves. Other callers may run between its three statements:
   the lookup sees `first`, the INSERT meets `second`, and the lookup after a refusal sees `third`.
   */
  ghost function Told(first: Keys, second: Keys, third: Keys, q: Request): Outcome {
    if q.key != "" && q.lookupFails then Rejected
    else if q.key != "" && Lookup(first, q, q.now - Window(q)).Some? then
      Replayed(Lookup(first, q, q.now - Window(q)).value)
    else ToldAtInsert(second, third, q)
  }

  ghost function Left(second: Keys, q: Request, o: Outcome): Keys { if o.Inserted? then WithRow(second, q) else second }

  // ---------------------------------------------------------------- one request, undisturbed

  predicate Faultless(q: Request) { !q.lookupFails && !q.insertFails && !q.rereadFails }

  /** A row created at that time is within the request's window, a day if none is given. */
  predicate Within(q: Request, createdAt: int) { q.now - createdAt <= if q.window > 0 then q.window else 86400 }

  /**
   With no one else running: a job is enqueued exactly if no row ever got the key; otherwise the row is replayed
   while it is within the window or a day old, whichever is longer, and afterwards the request fails.
   */
  lemma UndisturbedOutcome(keys: Keys, q: Request)
    requires Unique(keys) && Faultless(q) && q.key != "" && q.id !in keys
    ensures Told(keys, keys, keys, q) == Inserted <==> !Held(keys, q)
    ensures forall id :: Holds(keys, id, q) ==>
              Told(keys, keys, keys, q)
              == if Within(q, keys[id].createdAt) || q.now - keys[id].createdAt <= 86400 then Replayed(id) else Rejected
  {
    forall id | Holds(keys, id, q)
      ensures Told(keys, keys, keys, q)
              == if Within(q, keys[id].createdAt) || q.now - keys[id].createdAt <= 86400 then Replayed(id) else Rejected
    {
      LookupFinds(keys, q, q.now - Window(q), id);
      LookupFinds(keys, q, q.now - DAY, id);
    }
  }

  /** What the interface promises: a row created within the window is replayed, and without one a job is enqueued. */
  ghost predicate AsDocumented(keys: Keys, q: Request, o: Outcome) {
    && (forall id :: Holds(keys, id, q) && Within(q, keys[id].createdAt) ==> o == Replayed(id))
    && ((forall id :: Holds(keys, id, q) ==> !Within(q, keys[id].createdAt)) ==> o == Inserted)
  }

  /** The window is kept exactly if the row that holds the key, if there is one, is still within it. */
  lemma WindowIsKeptIff(keys: Keys, q: Request)
    requires Unique(keys) && Faultless(q) && q.key != "" && q.id !in keys
    ensures AsDocumented(keys, q, Told(keys, keys, keys, q))
            <==> forall id :: Holds(keys, id, q) ==> Within(q, keys[id].createdAt)
  {
    UndisturbedOutcome(keys, q);
  }

  /** A key used two days ago with the default window enqueues nothing: the request fails. */
  lemma ExpiredKeyIsRefused(functionId: string, key: string, at: int)
    requires key != ""
    ensures var keys: Keys := map[0 := Keyed(functionId, key, at)];
            var q := Request(1, functionId, key, 0, at + 172800, false, false, false);
            Told(keys, keys, keys, q) == Rejected && !AsDocumented(keys, q, Rejected)
  {
    var keys: Keys := map[0 := Keyed(functionId, key, at)];
    var q := Request(1, functionId, key, 0, at + 172800, false, false, false);
    assert Holds(keys, 0, q);
    UndisturbedOutcome(keys, q);
    WindowIsKeptIff(keys, q);
  }

  /** A request that loses the race to insert its key is told of the winner's row. */
  lemma LoserReplaysWinner(first: Keys, second: Keys, third: Keys, q: Request, winner: nat)
    requires q.key != "" && Faultless(q) && !Held(first, q)
    requires Holds(second, winner, q) && Unique(third) && Holds(third, winner, q)
    requires q.now - third[winner].createdAt <= 86400
    ensures Told(first, second, third, q) == Replayed(winner)
  {
    LookupFinds(third, q, q.now - DAY, winner);
  }

  // ---------------------------------------------------------------- any number of concurrent requests

  /** A request with what it was told, at the point of its INSERT, or the deletion of a job, by hand or by retention. */
  datatype Event = Asked(q: Request, o: Outcome) | Deleted(id: nat)

  /**
   A history of requests, in the order of their INSERTs, and deletions: event `i` meets `tables[i]`. A request's
   first lookup ran at any earlier point and its second runs at any later one.
   */
  ghost predicate History(tables: seq<Keys>, events: seq<Event>) {
    && |tables| == |events| + 1 && Unique(tables[0])
    && forall i :: 0 <= i < |events| ==> Happens(tables, events[i], i)
  }

  ghost predicate Happens(tables: seq<Keys>, e: Event, i: nat)
    requires i + 1 < |tables|
  {
    match e
    case Asked(q, o) =>
      && tables[i + 1] == Left(tables[i], q, o)
      && exists a, b :: 0 <= a <= i < b < |tables| && o == Told(tables[a], tables[i], tables[b], q)
    case Deleted(id) => tables[i + 1] == tables[i] - {id}
  }

  lemma InsertKeepsUnique(keys: Keys, q: Request)
    requires Unique(keys) && !Refused(keys, q)
    ensures Unique(WithRow(keys, q)) && forall id :: id in keys ==> id in WithRow(keys, q) && WithRow(keys, q)[id] == keys[id]
  {
    forall id | id in keys && q.key != "" ensures keys[id].functionId != q.functionId || keys[id].key != q.key {
      assert !Holds(keys, id, q);
    }
  }

  lemma {:induction false} UniqueThroughout(tables: seq<Keys>, events: seq<Event>, j: nat)
    requires History(tables, events) && j < |tables|
    ensures Unique(tables[j])
  {
    if j > 0 {
      UniqueThroughout(tables, events, j - 1);
      assert Happens(tables, events[j - 1], j - 1);
      if events[j - 1].Asked? && events[j - 1].o.Inserted? {
        InsertKeepsUnique(tables[j - 1], events[j - 1].q);
      }
    }
  }

  /** The job is deleted between two points. */
  predicate DeletedIn(events: seq<Event>, i: nat, j: nat, id: nat)
    requires j <= |events|
  {
    exists d :: i <= d < j && events[d] == Deleted(id)
  }

  /** The event enqueues a job with the key of `q`. */
  predicate Enqueues(e: Event, q: Request) {
    e.Asked? && e.o.Inserted? && q.key != "" && e.q.functionId == q.functionId && e.q.key == q.key
  }

  /** What one event does to the job that holds a key. */
  lemma OneEvent(tables: seq<Keys>, events: seq<Event>, k: nat, id: nat, q: Request)
    requires History(tables, events) && k < |events|
    ensures Holds(tables[k], id, q) && events[k] != Deleted(id) ==> Holds(tables[k + 1], id, q)
    ensures Holds(tables[k], id, q) && events[k] == Deleted(id) ==> !Held(tables[k + 1], q)
    ensures !Held(tables[k], q) && q.key != "" && !Enqueues(events[k], q) ==> !Held(tables[k + 1], q)
  {
    assert Happens(tables, events[k], k);
    UniqueThroughout(tables, events, k);
    var before, after := tables[k], tables[k + 1];
    if events[k] == Deleted(id) && Holds(before, id, q) {
      assert forall other :: Holds(after, other, q) ==> Holds(before, other, q);
    }
    if !Held(before, q) && q.key != "" && !Enqueues(events[k], q) {
      assert forall other :: Holds(after, other, q) ==> Holds(before, other, q);
    }
  }

  lemma {:induction false} HoldsUntilDeleted(tables: seq<Keys>, events: seq<Event>, i: nat, j: nat, id: nat, q: Request)
    requires History(tables, events) && i <= j < |tables| && Holds(tables[i], id, q) && !DeletedIn(events, i, j, id)
    ensures Holds(tables[j], id, q)
    decreases j
  {
    if i < j {
      assert forall d :: i <= d < j - 1 ==> events[d] != Deleted(id);
      HoldsUntilDeleted(tables, events, i, j - 1, id, q);
      OneEvent(tables, events, j - 1, id, q);
    }
  }

  /** While no other job takes the key, it is held exactly as long as its job is not deleted. */
  lemma {:induction false} HeldIff(tables: seq<Keys>, events: seq<Event>, i: nat, j: nat, id: nat, q: Request)
    requires History(tables, events) && i <= j < |tables| && Holds(tables[i], id, q) && q.key != ""
    requires forall k :: i <= k < j ==> !Enqueues(events[k], q)
    ensures Held(tables[j], q) <==> !DeletedIn(events, i, j, id)
    decreases j
  {
    if !DeletedIn(events, i, j, id) {
      HoldsUntilDeleted(tables, events, i, j, id, q);
    } else if DeletedIn(events, i, j - 1, id) {
      HeldIff(tables, events, i, j - 1, id, q);
      OneEvent(tables, events, j - 1, id, q);
    } else {
      HoldsUntilDeleted(tables, events, i, j - 1, id, q);
      OneEvent(tables, events, j - 1, id, q);
    }
  }

  /** Only an INSERT that is not refused reports a new job; it leaves a row that holds the key. */
  lemma InsertedHolds(tables: seq<Keys>, events: seq<Event>, i: nat, q: Request)
    requires History(tables, events) && i < |events| && Enqueues(events[i], q)
    ensures !Held(tables[i], q) && Holds(tables[i + 1], events[i].q.id, q)
  {
    assert Happens(tables, events[i], i);
    assert forall id :: Holds(tables[i], id, q) ==> Holds(tables[i], id, events[i].q);
  }

  /**
   However requests with one key interleave and whatever their windows, a second one enqueues a job only if the job of the
   first was deleted in between.
   */
  lemma OneJobPerKey(tables: seq<Keys>, events: seq<Event>, i: nat, j: nat, q: Request)
    requires History(tables, events) && i < j < |events| && Enqueues(events[i], q) && Enqueues(events[j], q)
    ensures DeletedIn(events, i + 1, j, events[i].q.id)
  {
    InsertedHolds(tables, events, i, q);
    InsertedHolds(tables, events, j, q);
    if !DeletedIn(events, i + 1, j, events[i].q.id) {
      HoldsUntilDeleted(tables, events, i + 1, j, events[i].q.id, q);
    }
  }

  /** A request whose lookup found nothing, so that its INSERT is tried, with a fresh id and nothing else in the way. */
  ghost predicate Tries(tables: seq<Keys>, e: Event, j: nat)
    requires j + 1 < |tables|
  {
    && e.Asked? && e.q.key != "" && !e.q.insertFails && e.q.id !in tables[j]
    && exists b :: j < b < |tables| && e.o == ToldAtInsert(tables[j], tables[b], e.q)
  }

  /** The key of the last job enqueued with it is held exactly as long as that job is not deleted. */
  lemma KeyHeldIff(tables: seq<Keys>, events: seq<Event>, i: nat, j: nat, q: Request)
    requires History(tables, events) && i < j < |events|
    requires Enqueues(events[i], q) && forall k :: i + 1 <= k < j ==> !Enqueues(events[k], q)
    ensures Held(tables[j], q) <==> !DeletedIn(events, i + 1, j, events[i].q.id)
  {
    InsertedHolds(tables, events, i, q);
    HeldIff(tables, events, i + 1, j, events[i].q.id, q);
  }

  /** Such a request enqueues a second job exactly if the last one with its key was deleted in between. */
  lemma SecondJobIff(tables: seq<Keys>, events: seq<Event>, i: nat, j: nat, q: Request)
    requires History(tables, events) && i < j < |events| && Tries(tables, events[j], j) && q == events[j].q
    requires Enqueues(events[i], q) && forall k :: i + 1 <= k < j ==> !Enqueues(events[k], q)
    ensures events[j].o.Inserted? <==> DeletedIn(events, i + 1, j, events[i].q.id)
  {
    KeyHeldIff(tables, events, i, j, q);
    TriesIff(tables, events[j], j);
  }

  lemma TriesIff(tables: seq<Keys>, e: Event, j: nat)
    requires j + 1 < |tables| && Tries(tables, e, j)
    ensures e.o.Inserted? <==> !Held(tables[j], e.q)
  {
  }

  lemma ReplayedHolds(first: Keys, second: Keys, third: Keys, q: Request)
    requires Told(first, second, third, q).Replayed?
    ensures var id := Told(first, second, third, q).id; Holds(first, id, q) || Holds(third, id, q)
  {
  }

  /** A replay reports a job that held the key at one of the two lookups. */
  lemma ReplayedHeld(tables: seq<Keys>, events: seq<Event>, i: nat) returns (at: nat)
    requires History(tables, events) && i < |events| && events[i].Asked? && events[i].o.Replayed?
    ensures at < |tables| && Holds(tables[at], events[i].o.id, events[i].q)
  {
    var q, o := events[i].q, events[i].o;
    assert Happens(tables, events[i], i);
    var a, b :| 0 <= a <= i < b < |tables| && o == Told(tables[a], tables[i], tables[b], q);
    ReplayedHolds(tables[a], tables[i], tables[b], q);
    at := if Holds(tables[a], o.id, q) then a else b;
  }

  /** Unless one of the two jobs is deleted, every replay of a key names the one job that was enqueued for it. */
  lemma ReplayNamesTheJob(tables: seq<Keys>, events: seq<Event>, i: nat, j: nat)
    requires History(tables, events) && i < |events| && j < |events| && events[j].Asked? && events[j].o.Replayed?
    requires Enqueues(events[i], events[j].q)
    requires !DeletedIn(events, 0, |events|, events[i].q.id) && !DeletedIn(events, 0, |events|, events[j].o.id)
    ensures events[j].o.id == events[i].q.id
  {
    var last, q := |tables| - 1, events[j].q;
    InsertedHolds(tables, events, i, q);
    HoldsUntilDeleted(tables, events, i + 1, last, events[i].q.id, q);
    var at := ReplayedHeld(tables, events, j);
    HoldsUntilDeleted(tables, events, at, last, events[j].o.id, q);
    UniqueThroughout(tables, events, last);
    OneHolder(tables[last], q, events[i].q.id, events[j].o.id);
  }

  lemma OneHolder(keys: Keys, q: Request, a: nat, b: nat)
    requires Unique(keys) && Holds(keys, a, q) && Holds(keys, b, q)
    ensures a == b
  {
  }
}
